/** The rewrite as the code does it: the source is cut into lines, the table is keyed by line and column,
  and each edit is spliced into its line, the last position first. */
module Lines {
  import opened BranchIds
  import opened BranchWalk
  import opened Instrument
  import opened RowCode
  import opened Seqs
  import opened Splice
  import TextOrder

  datatype Pos = Pos(line: nat, column: nat)

  predicate Before(a: Pos, b: Pos) { a.line < b.line || (a.line == b.line && a.column < b.column) }

  // ---------------------------------------------------------------- cutting and joining

  function Split(text: string): (lines: seq<string>)
    ensures lines != []
  {
    if text == "" then [""]
    else
      var lines, last := Split(text[..|text| - 1]), text[|text| - 1];
      if last == '\n' then lines + [""] else lines[..|lines| - 1] + [lines[|lines| - 1] + [last]]
  }

  function Join(lines: seq<string>): string
    requires lines != []
  {
    if |lines| == 1 then lines[0] else Join(lines[..|lines| - 1]) + "\n" + lines[|lines| - 1]
  }

  lemma {:induction false} JoinUndoesSplit(text: string)
    ensures Join(Split(text)) == text
  {
    if text != "" {
      var init, last := text[..|text| - 1], text[|text| - 1];
      var lines := Split(init);
      JoinUndoesSplit(init);
      if last == '\n' {
        assert (lines + [""])[..|lines|] == lines;
        assert Join(lines + [""]) == init + "\n" + "";
      } else {
        var n := |lines| - 1;
        var longer := lines[..n] + [lines[n] + [last]];
        assert longer[..n] == lines[..n];
        if n > 0 { Associates(Join(lines[..n]) + "\n", lines[n], [last]); }
      }
      assert text == init + [last];
    }
  }

  // Where the text after `before` begins.
  function PosAfter(before: string): Pos {
    Pos(|Split(before)| - 1, |LineBefore(before)|)
  }

  lemma {:induction false} LineBeforeIsLast(before: string)
    ensures var lines := Split(before); LineBefore(before) == lines[|lines| - 1]
  {
    if before != "" { LineBeforeIsLast(before[..|before| - 1]); }
  }

  // The lines up to a position are those of the text up to it.
  ghost predicate StartsWith(lines: seq<string>, front: seq<string>)
    requires front != []
  {
    var n := |front| - 1;
    |front| <= |lines| && lines[..n] == front[..n] && front[n] <= lines[n]
  }

  lemma {:induction false} FrontLines(text: string, p: nat)
    requires p <= |text|
    ensures StartsWith(Split(text), Split(text[..p]))
  {
    if p == |text| {
      assert text[..p] == text;
    } else {
      var init := text[..|text| - 1];
      FrontLines(init, p);
      assert init[..p] == text[..p];
    }
  }

  lemma {:induction false} JoinMeets(a: seq<string>, x: string, y: string, b: seq<string>)
    ensures Join(a + [x + y] + b) == Join(a + [x]) + Join([y] + b)
  {
    if b == [] {
      assert a + [x + y] + b == a + [x + y] && [y] + b == [y];
      assert (a + [x + y])[..|a|] == a && (a + [x])[..|a|] == a;
      if a != [] { Associates(Join(a) + "\n", x, y); }
    } else {
      var n := |b| - 1;
      JoinMeets(a, x, y, b[..n]);
      var whole, back := a + [x + y] + b, [y] + b;
      assert whole[..|whole| - 1] == a + [x + y] + b[..n] && whole[|whole| - 1] == b[n];
      assert back[..|back| - 1] == [y] + b[..n] && back[|back| - 1] == b[n];
      AssociatesFour(Join(a + [x]), Join([y] + b[..n]), "\n", b[n]);
      Associates(Join([y] + b[..n]), "\n", b[n]);
    }
  }

  // A text put into one line is put into the whole.
  lemma {:induction false} PutIntoOneLine(lines: seq<string>, text: string, p: nat, put: string)
    requires lines != [] && p <= |Join(lines)| && p <= |text|
    requires text[..p] == Join(lines)[..p]
    requires StartsWith(lines, Split(text[..p]))
    ensures var at := PosAfter(text[..p]);
      && at.line < |lines| && at.column <= |lines[at.line]|
      && Join(lines[at.line := lines[at.line][..at.column] + put + lines[at.line][at.column..]])
         == Join(lines)[..p] + put + Join(lines)[p..]
  {
    var front := Split(text[..p]);
    var n: nat := |front| - 1;
    LineBeforeIsLast(text[..p]);
    JoinUndoesSplit(text[..p]);
    var c: nat := |front[n]|;
    assert lines[n][..c] == front[n] && lines[..n] == front[..n];
    assert front == front[..n] + [front[n]];
    var back := [lines[n][c..]] + lines[n + 1..];
    PutAt(lines, n, c, put);
    CutWhereItMeets(Join(lines), text[..p], Join(back));
  }

  lemma {:induction false} CutWhereItMeets(whole: string, front: string, back: string)
    requires whole == front + back
    ensures whole[..|front|] == front && whole[|front|..] == back
  {
  }

  lemma {:induction false} PutAt(lines: seq<string>, n: nat, c: nat, put: string)
    requires n < |lines| && c <= |lines[n]|
    ensures var front, back := lines[..n] + [lines[n][..c]], [lines[n][c..]] + lines[n + 1..];
      && Join(lines) == Join(front) + Join(back)
      && Join(lines[n := lines[n][..c] + put + lines[n][c..]]) == Join(front) + put + Join(back)
  {
    var x, y, a, b := lines[n][..c], lines[n][c..], lines[..n], lines[n + 1..];
    assert x + y == lines[n];
    assert lines == a + [x + y] + b;
    JoinMeets(a, x, y, b);
    PutMeets(a, x, put, y, b);
    assert lines[n := x + put + y] == a + [x + put + y] + b;
  }

  lemma {:induction false} PutMeets(a: seq<string>, x: string, put: string, y: string, b: seq<string>)
    ensures Join(a + [x + put + y] + b) == Join(a + [x]) + put + Join([y] + b)
  {
    Associates(x, put, y);
    JoinMeets(a, x, put + y, b);
    JoinMeets([], put, y, b);
    assert [] + [put + y] + b == [put + y] + b && [] + [put] == [put];
    Associates(Join(a + [x]), put, Join([y] + b));
  }

  // ---------------------------------------------------------------- which position is first

  // One more character moves the position on.
  lemma {:induction false} PositionsGoOn(text: string, p: nat, q: nat)
    requires p < q <= |text|
    ensures Before(PosAfter(text[..p]), PosAfter(text[..q]))
  {
    var front := text[..q];
    assert front[..q - 1] == text[..q - 1];
    LineBeforeIsLast(text[..q - 1]);
    LineBeforeIsLast(front);
    if p < q - 1 { PositionsGoOn(text, p, q - 1); }
  }

  lemma {:induction false} LaterPositionLaterText(text: string, p: nat, q: nat)
    requires p <= |text| && q <= |text| && Before(PosAfter(text[..p]), PosAfter(text[..q]))
    ensures p < q
  {
    if q < p { PositionsGoOn(text, q, p); }
  }

  lemma {:induction false} PositionsDiffer(text: string, p: nat, q: nat)
    requires p <= |text| && q <= |text| && PosAfter(text[..p]) == PosAfter(text[..q])
    ensures p == q
  {
    if q < p { PositionsGoOn(text, q, p); }
    if p < q { PositionsGoOn(text, p, q); }
  }

  predicate Descending(order: seq<Pos>) {
    forall i, j :: 0 <= i < j < |order| ==> Before(order[j], order[i])
  }

  method SortDescending(keys: set<Pos>) returns (order: seq<Pos>)
    ensures Descending(order)
    ensures forall pos :: pos in order <==> pos in keys
  {
    order := [];
    var rest := keys;
    while rest != {}
      invariant rest <= keys && Descending(order)
      invariant forall pos :: pos in order <==> pos in keys && pos !in rest
      decreases rest
    {
      var pos :| pos in rest;
      var i := 0;
      while i < |order| && Before(pos, order[i])
        invariant i <= |order|
        invariant forall j :: 0 <= j < i ==> Before(pos, order[j])
      {
        i := i + 1;
      }
      assert i < |order| ==> order[i] in order;
      order := order[..i] + [pos] + order[i..];
      rest := rest - {pos};
    }
  }

  // ---------------------------------------------------------------- the table

  type Table = map<Pos, string>

  function At(edits: Table, pos: Pos): string {
    if pos in edits then edits[pos] else ""
  }

  // What the table has for each place of the source, and nothing else.
  ghost predicate IsTable(edits: Table, source: string, pieces: seq<Piece>) {
    && (forall p: nat :: p <= |source| ==> HasAt(edits, source, pieces, p))
    && (forall pos :: pos in edits ==> IsPlace(source, pos))
  }

  ghost predicate HasAt(edits: Table, source: string, pieces: seq<Piece>, p: nat)
    requires p <= |source|
  {
    At(edits, PosAfter(source[..p])) == Closers(pieces, p) + Openers(pieces, p)
  }

  ghost predicate IsPlace(source: string, pos: Pos) {
    exists p: nat :: p <= |source| && pos == PosAfter(source[..p])
  }

  method PlaceRecorders(source: string, branches: seq<Branch>) returns (edits: Table)
    requires AllIn(branches, 0, |source|)
    ensures IsTable(edits, source, Pieces(branches))
  {
    edits := map[];
    for i := 0 to |branches|
      invariant IsTable(edits, source, Pieces(branches[..i]))
    {
      ThatBranchIsIn(branches, i, |source|);
      OneBranchMore(branches, i);
      edits := PlaceOne(edits, source, branches[i], Pieces(branches[..i]));
    }
    assert branches[..|branches|] == branches;
  }

  // Closers go in front of what is there already, openers after it.
  method PlaceOne(edits: Table, source: string, b: Branch, ghost pieces: seq<Piece>) returns (more: Table)
    requires IsTable(edits, source, pieces) && BranchIsIn(b, 0, |source|)
    ensures IsTable(more, source, pieces + PiecesOf(b))
  {
    more := edits;
    ghost var so := pieces;
    if b.ArmBranch? {
      OneCloserMore(more, source, so, b.end, "))");
      var closes := PosAfter(source[..b.end]);
      more := more[closes := "))" + At(more, closes)];
      so := so + [Closes(b.end, "))")];
    }
    OneOpenerMore(more, source, so, b.at, OpenerOf(b));
    var at := PosAfter(source[..b.at]);
    more := more[at := At(more, at) + OpenerOf(b)];
    assert so + [Opens(b.at, OpenerOf(b))] == pieces + PiecesOf(b);
  }

  lemma {:induction false} OneBranchMore(branches: seq<Branch>, i: nat)
    requires i < |branches|
    ensures Pieces(branches[..i + 1]) == Pieces(branches[..i]) + PiecesOf(branches[i])
  {
    var b := branches[i];
    assert branches[..i + 1] == branches[..i] + [b];
    PiecesJoin(branches[..i], [b]);
    PiecesOfMore(b, []);
    assert [b] + [] == [b];
    assert PiecesOf(b) + [] == PiecesOf(b);
  }

  lemma {:induction false} ThatBranchIsIn(branches: seq<Branch>, i: nat, hi: nat)
    requires i < |branches| && AllIn(branches, 0, hi)
    ensures BranchIsIn(branches[i], 0, hi)
  {
    if i > 0 { ThatBranchIsIn(branches[1..], i - 1, hi); }
  }

  lemma {:induction false} OneCloserMore(edits: Table, source: string, pieces: seq<Piece>, at: nat, text: string)
    requires IsTable(edits, source, pieces) && at <= |source|
    ensures var pos := PosAfter(source[..at]);
      IsTable(edits[pos := text + At(edits, pos)], source, pieces + [Closes(at, text)])
  {
    var pos := PosAfter(source[..at]);
    var more := edits[pos := text + At(edits, pos)];
    forall p: nat | p <= |source|
      ensures HasAt(more, source, pieces + [Closes(at, text)], p)
    {
      assert HasAt(edits, source, pieces, p);
      SamePlace(source, p, at);
      OneMorePiece(pieces, Closes(at, text), p);
      Grows(text, Closers(pieces, p), Openers(pieces, p));
    }
  }

  lemma Grows(a: string, b: string, c: string)
    ensures a + (b + c) == (a + b) + c
    ensures "" + b + c == b + c && b + (c + "") == b + c
  {
  }

  lemma {:induction false} SamePlace(source: string, p: nat, q: nat)
    requires p <= |source| && q <= |source|
    ensures PosAfter(source[..p]) == PosAfter(source[..q]) <==> p == q
  {
    if PosAfter(source[..p]) == PosAfter(source[..q]) { PositionsDiffer(source, p, q); }
  }

  lemma {:induction false} OneOpenerMore(edits: Table, source: string, pieces: seq<Piece>, at: nat, text: string)
    requires IsTable(edits, source, pieces) && at <= |source|
    ensures var pos := PosAfter(source[..at]);
      IsTable(edits[pos := At(edits, pos) + text], source, pieces + [Opens(at, text)])
  {
    var pos := PosAfter(source[..at]);
    var more := edits[pos := At(edits, pos) + text];
    forall p: nat | p <= |source|
      ensures HasAt(more, source, pieces + [Opens(at, text)], p)
    {
      assert HasAt(edits, source, pieces, p);
      SamePlace(source, p, at);
      OneMorePiece(pieces, Opens(at, text), p);
      Grows(Closers(pieces, p), Openers(pieces, p), text);
    }
  }

  lemma {:induction false} OneMorePiece(pieces: seq<Piece>, piece: Piece, p: nat)
    ensures Closers(pieces + [piece], p) == ClosedBy(piece, p) + Closers(pieces, p)
    ensures Openers(pieces + [piece], p) == Openers(pieces, p) + OpenedBy(piece, p)
  {
    OpenersJoin(pieces, [piece], p);
    assert [piece][1..] == [];
    NothingAround(ClosedBy(piece, p));
    NothingAround(OpenedBy(piece, p));
    assert Closers([piece], p) == "" + ClosedBy(piece, p) == ClosedBy(piece, p);
    assert Openers([piece], p) == OpenedBy(piece, p) + "" == OpenedBy(piece, p);
  }

  // ---------------------------------------------------------------- splicing

  ghost predicate AllAfter(edits: map<nat, string>, p: nat) {
    forall q :: q in edits ==> p < q
  }

  lemma {:induction false} InsertNothingBefore(text: string, at: nat, edits: map<nat, string>, p: nat)
    requires AllAfter(edits, at + p) && p <= |text|
    ensures Insert(text, at, edits) == text[..p] + Insert(text[p..], at + p, edits)
  {
    if p == 0 {
      assert text[..0] == "" && text[0..] == text;
    } else {
      InsertNothingBefore(text[1..], at + 1, edits, p - 1);
      assert text[..p] == [text[0]] + text[1..][..p - 1] && text[1..][p - 1..] == text[p..];
      Associates([text[0]], text[1..][..p - 1], Insert(text[p..], at + p, edits));
      assert "" + [text[0]] == [text[0]];
    }
  }

  // With every edit so far behind `p`, one at `p` is put in there, and what is before `p` is as it was.
  lemma {:induction false} InsertOneMore(text: string, edits: map<nat, string>, p: nat, put: string)
    requires AllAfter(edits, p) && p <= |text|
    ensures var spliced := Insert(text, 0, edits);
      && p <= |spliced| && spliced[..p] == text[..p]
      && Insert(text, 0, edits[p := put]) == spliced[..p] + put + spliced[p..]
  {
    InsertNothingBefore(text, 0, edits, p);
    InsertFrom(text, 0, edits, p, put);
    var spliced := Insert(text, 0, edits);
    assert spliced[..p] == text[..p] && spliced[p..] == Insert(text[p..], p, edits);
  }

  lemma {:induction false} InsertFrom(text: string, at: nat, edits: map<nat, string>, p: nat, put: string)
    requires AllAfter(edits, at + p) && p <= |text|
    ensures Insert(text, at, edits[at + p := put]) == text[..p] + put + Insert(text[p..], at + p, edits)
  {
    var more := edits[at + p := put];
    if p == 0 {
      assert text[0..] == text && text[..0] == "";
      OnlyTheFirst(text, at, edits, put);
    } else {
      InsertFrom(text[1..], at + 1, edits, p - 1, put);
      assert text[..p] == [text[0]] + text[1..][..p - 1] && text[1..][p - 1..] == text[p..];
      assert EditAt(more, at) == "";
      AssociatesFour([text[0]], text[1..][..p - 1], put, Insert(text[p..], at + p, edits));
      Associates(text[1..][..p - 1], put, Insert(text[p..], at + p, edits));
      assert "" + [text[0]] == [text[0]];
    }
  }

  lemma {:induction false} OnlyTheFirst(text: string, at: nat, edits: map<nat, string>, put: string)
    requires at !in edits
    ensures Insert(text, at, edits[at := put]) == put + Insert(text, at, edits)
  {
    var more := edits[at := put];
    if text != "" {
      SameFromHere(text[1..], at + 1, edits, more);
      var one, rest := [text[0]], Insert(text[1..], at + 1, edits);
      assert "" + one + rest == one + rest;
      Associates(put, one, rest);
    }
  }

  lemma {:induction false} SameFromHere(text: string, at: nat, f: map<nat, string>, g: map<nat, string>)
    requires forall p: nat :: at <= p ==> EditAt(f, p) == EditAt(g, p)
    ensures Insert(text, at, f) == Insert(text, at, g)
  {
    if text != "" { SameFromHere(text[1..], at + 1, f, g); }
  }

  // What `edits` has at the places of `done`, keyed by place.
  ghost predicate Holds(flat: map<nat, string>, edits: Table, source: string, done: seq<Pos>) {
    && (forall p :: p in flat ==>
          p <= |source| && PosAfter(source[..p]) in done && flat[p] == At(edits, PosAfter(source[..p])))
    && (forall p: nat :: p <= |source| && PosAfter(source[..p]) in done ==> p in flat)
  }

  lemma {:induction false} TheWholeTable(flat: map<nat, string>, edits: Table, source: string, order: seq<Pos>,
                                         pieces: seq<Piece>)
    requires Holds(flat, edits, source, order) && IsTable(edits, source, pieces)
    requires forall pos :: pos in order <==> pos in edits
    requires forall p: nat :: |source| < p ==> Closers(pieces, p) == "" && Openers(pieces, p) == ""
    ensures IsTableOf(flat, pieces)
  {
    forall p: nat
      ensures EditAt(flat, p) == Closers(pieces, p) + Openers(pieces, p)
    {
      if p <= |source| {
        assert HasAt(edits, source, pieces, p);
      } else {
        assert p !in flat;
        assert "" + "" == "";
      }
    }
  }

  lemma {:induction false} InsertNone(text: string, at: nat)
    ensures Insert(text, at, map[]) == text
  {
    if text != "" {
      InsertNone(text[1..], at + 1);
      assert "" + [text[0]] + text[1..] == text;
    }
  }

  // Positions are taken last first, so what is done lies after what is to come.
  lemma {:induction false} AllLater(flat: map<nat, string>, edits: Table, source: string, order: seq<Pos>, i: nat,
                                    p: nat)
    requires i < |order| && Descending(order) && Holds(flat, edits, source, order[..i])
    requires p <= |source| && order[i] == PosAfter(source[..p])
    ensures AllAfter(flat, p)
  {
    forall q | q in flat
      ensures p < q
    {
      var j :| 0 <= j < i && order[j] == PosAfter(source[..q]);
      LaterPositionLaterText(source, p, q);
    }
  }

  lemma {:induction false} HoldsOneMore(flat: map<nat, string>, edits: Table, source: string, order: seq<Pos>, i: nat,
                                        p: nat)
    requires i < |order| && order[i] in edits && Holds(flat, edits, source, order[..i])
    requires p <= |source| && order[i] == PosAfter(source[..p])
    ensures Holds(flat[p := edits[order[i]]], edits, source, order[..i + 1])
  {
    assert order[..i + 1] == order[..i] + [order[i]];
    forall q: nat | q <= |source| && PosAfter(source[..q]) == order[i]
      ensures q == p
    {
      PositionsDiffer(source, p, q);
    }
  }

  // A splice leaves every earlier position where it was.
  lemma {:induction false} EarlierStartsStay(lines: seq<string>, source: string, order: seq<Pos>, i: nat, p: nat,
                                             put: string)
    requires lines != [] && i < |order| && Descending(order)
    requires p <= |source| && order[i] == PosAfter(source[..p]) && StartsWith(lines, Split(source[..p]))
    requires forall q: nat ::
        q <= |source| && PosAfter(source[..q]) in order[i..] ==> StartsWith(lines, Split(source[..q]))
    ensures var at := order[i];
      && at.line < |lines| && at.column <= |lines[at.line]|
      && forall q: nat :: q <= |source| && PosAfter(source[..q]) in order[i + 1..] ==>
           StartsWith(lines[at.line := lines[at.line][..at.column] + put + lines[at.line][at.column..]],
                      Split(source[..q]))
  {
    var at := order[i];
    LineBeforeIsLast(source[..p]);
    var line := lines[at.line][..at.column] + put + lines[at.line][at.column..];
    forall q: nat | q <= |source| && PosAfter(source[..q]) in order[i + 1..]
      ensures StartsWith(lines[at.line := line], Split(source[..q]))
    {
      var j :| 0 <= j < |order[i + 1..]| && order[i + 1..][j] == PosAfter(source[..q]);
      assert order[i + 1..][j] == order[i + 1 + j] && order[i..][j + 1] == order[i + 1 + j];
      assert Before(PosAfter(source[..q]), at);
      LineBeforeIsLast(source[..q]);
      var front := Split(source[..q]);
      var n := |front| - 1;
      if n == at.line {
        assert front[n] == lines[n][..|front[n]|];
        assert line[..|front[n]|] == lines[n][..|front[n]|];
      }
    }
  }

  // Part of the way through: the first `i` positions are done, and the others are where they were.
  ghost predicate IsPartlySpliced(lines: seq<string>, edits: Table, source: string, order: seq<Pos>, i: nat,
                                  flat: map<nat, string>)
    requires i <= |order|
  {
    && lines != []
    && Holds(flat, edits, source, order[..i])
    && Join(lines) == Insert(source, 0, flat)
    && forall q: nat :: q <= |source| && PosAfter(source[..q]) in order[i..] ==> StartsWith(lines, Split(source[..q]))
  }

  lemma {:induction false} SpliceOneMore(lines: seq<string>, edits: Table, source: string, order: seq<Pos>, i: nat,
                                         flat: map<nat, string>, p: nat)
    requires i < |order| && Descending(order) && order[i] in edits
    requires IsPartlySpliced(lines, edits, source, order, i, flat)
    requires p <= |source| && order[i] == PosAfter(source[..p])
    ensures var at := order[i];
      && at.line < |lines| && at.column <= |lines[at.line]|
      && IsPartlySpliced(lines[at.line := lines[at.line][..at.column] + edits[at] + lines[at.line][at.column..]],
                         edits, source, order, i + 1, flat[p := edits[at]])
  {
    AllLater(flat, edits, source, order, i, p);
    InsertOneMore(source, flat, p, edits[order[i]]);
    assert order[i] in order[i..];
    PutIntoOneLine(lines, source, p, edits[order[i]]);
    EarlierStartsStay(lines, source, order, i, p, edits[order[i]]);
    HoldsOneMore(flat, edits, source, order, i, p);
  }

  // The lines are spliced in place.
  method SpliceLines(lines: array<string>, edits: Table, source: string, ghost pieces: seq<Piece>)
    requires lines[..] == Split(source) && IsTable(edits, source, pieces)
    requires forall p: nat :: |source| < p ==> Closers(pieces, p) == "" && Openers(pieces, p) == ""
    modifies lines
    ensures lines[..] != []
    ensures Join(lines[..]) == Closers(pieces, 0) + Weave(source, 0, pieces) + Openers(pieces, |source|)
  {
    var order := SortDescending(edits.Keys);
    ghost var flat: map<nat, string> := map[];
    Unspliced(lines[..], edits, source, order);
    for i := 0 to |order|
      invariant IsPartlySpliced(lines[..], edits, source, order, i, flat)
    {
      flat := SpliceOne(lines, edits, source, order, i, flat, pieces);
    }
    SplicedAll(lines[..], edits, source, order, flat, pieces);
  }

  method SpliceOne(lines: array<string>, edits: Table, ghost source: string, order: seq<Pos>, i: nat,
                   ghost flat: map<nat, string>, ghost pieces: seq<Piece>) returns (ghost more: map<nat, string>)
    requires i < |order| && Descending(order) && order[i] in edits && IsPlace(source, order[i])
    requires IsPartlySpliced(lines[..], edits, source, order, i, flat)
    modifies lines
    ensures IsPartlySpliced(lines[..], edits, source, order, i + 1, more)
  {
    var at := order[i];
    ghost var p: nat :| p <= |source| && at == PosAfter(source[..p]);
    ghost var so := lines[..];
    SpliceOneMore(so, edits, source, order, i, flat, p);
    lines[at.line] := lines[at.line][..at.column] + edits[at] + lines[at.line][at.column..];
    assert lines[..] == so[at.line := so[at.line][..at.column] + edits[at] + so[at.line][at.column..]];
    more := flat[p := edits[at]];
  }

  lemma {:induction false} SplicedAll(lines: seq<string>, edits: Table, source: string, order: seq<Pos>,
                                      flat: map<nat, string>, pieces: seq<Piece>)
    requires IsPartlySpliced(lines, edits, source, order, |order|, flat) && IsTable(edits, source, pieces)
    requires forall pos :: pos in order <==> pos in edits
    requires forall p: nat :: |source| < p ==> Closers(pieces, p) == "" && Openers(pieces, p) == ""
    ensures Join(lines) == Closers(pieces, 0) + Weave(source, 0, pieces) + Openers(pieces, |source|)
  {
    AllHeld(lines, edits, source, order, flat);
    TheWholeTable(flat, edits, source, order, pieces);
    InsertAll(source, 0, |source|, flat, pieces);
  }

  lemma {:induction false} AllHeld(lines: seq<string>, edits: Table, source: string, order: seq<Pos>,
                                   flat: map<nat, string>)
    requires IsPartlySpliced(lines, edits, source, order, |order|, flat)
    ensures Holds(flat, edits, source, order) && Join(lines) == Insert(source, 0, flat)
  {
    assert order[..|order|] == order;
  }

  lemma {:induction false} InsertAll(text: string, at: nat, end: nat, flat: map<nat, string>, pieces: seq<Piece>)
    requires IsTableOf(flat, pieces) && end == at + |text|
    ensures Insert(text, at, flat) == Closers(pieces, at) + Weave(text, at, pieces) + Openers(pieces, end)
  {
    InsertIsWeave(text, at, flat, pieces);
  }

  lemma {:induction false} Unspliced(lines: seq<string>, edits: Table, source: string, order: seq<Pos>)
    requires lines == Split(source)
    ensures IsPartlySpliced(lines, edits, source, order, 0, map[])
  {
    JoinUndoesSplit(source);
    InsertNone(source, 0);
    forall p: nat | p <= |source|
      ensures StartsWith(lines, Split(source[..p]))
    {
      FrontLines(source, p);
    }
  }

  lemma {:induction false} ModuleIsReported(items: seq<Item>)
    requires ModuleIsAuthored(items)
    ensures Reported(ModuleText(items), 0, InModule(items, "")) == ModuleText(InstrumentModule(items, ""))
    ensures AllIn(InModule(items, ""), 0, |ModuleText(items)|)
  {
    FromTheStart(items);
    var text := ModuleText(items);
    IsReported(text, 0, |text|, InModule(items, ""), ModuleText(InstrumentModule(items, "")));
  }

  lemma {:induction false} FromTheStart(items: seq<Item>)
    requires ModuleIsAuthored(items)
    ensures Becomes(ModuleText(items), 0, InModule(items, ""), ModuleText(InstrumentModule(items, "")))
  {
    var before := "";
    ModuleIsTold(items, before);
    assert |before| == 0;
  }

  method Rewrite(source: string, branches: seq<Branch>) returns (rewritten: string)
    requires AllIn(branches, 0, |source|)
    ensures rewritten == Reported(source, 0, branches)
  {
    var cut := Split(source);
    var lines := new string[|cut|](i requires 0 <= i < |cut| => cut[i]);
    assert lines[..] == cut;
    var edits := PlaceRecorders(source, branches);
    NothingPastTheEnd(source, branches);
    SpliceLines(lines, edits, source, Pieces(branches));
    rewritten := Join(lines[..]);
    NothingAround(Reported(source, 0, branches));
  }

  lemma {:induction false} NothingPastTheEnd(source: string, branches: seq<Branch>)
    requires AllIn(branches, 0, |source|)
    ensures Closers(Pieces(branches), 0) == "" && Openers(Pieces(branches), |source|) == ""
    ensures forall p: nat :: |source| < p ==> Closers(Pieces(branches), p) == "" && Openers(Pieces(branches), p) == ""
  {
    NoneOutside(branches, 0, |source|, 0);
    NoneOutside(branches, 0, |source|, |source|);
    forall p: nat | |source| < p
      ensures Closers(Pieces(branches), p) == "" && Openers(Pieces(branches), p) == ""
    {
      NoneOutside(branches, 0, |source|, p);
    }
  }

  lemma NothingAround(text: string)
    ensures "" + text + "" == text
  {
  }

  // ---------------------------------------------------------------- reading order

  // By line and column, and where two begin at one place, by id.
  predicate ReadsFirst(source: string, a: Branch, b: Branch)
    requires a.at <= |source| && b.at <= |source|
  {
    var p, q := PosAfter(source[..a.at]), PosAfter(source[..b.at]);
    Before(p, q) || (p == q && TextOrder.Less(Render(a.id), Render(b.id)))
  }

  // That is the order of the text.
  lemma {:induction false} ReadingOrderIsTextOrder(source: string, a: Branch, b: Branch)
    requires a.at <= |source| && b.at <= |source|
    ensures ReadsFirst(source, a, b) <==> a.at < b.at || (a.at == b.at && TextOrder.Less(Render(a.id), Render(b.id)))
  {
    if a.at < b.at { PositionsGoOn(source, a.at, b.at); }
    if b.at < a.at { PositionsGoOn(source, b.at, a.at); }
  }

  lemma {:induction false} ReadsFirstGoesOn(source: string, a: Branch, b: Branch, c: Branch)
    requires a.at <= |source| && b.at <= |source| && c.at <= |source|
    requires ReadsFirst(source, a, b) && ReadsFirst(source, b, c)
    ensures ReadsFirst(source, a, c)
  {
    ReadingOrderIsTextOrder(source, a, b);
    ReadingOrderIsTextOrder(source, b, c);
    ReadingOrderIsTextOrder(source, a, c);
    if a.at == b.at == c.at { TextOrder.Transitive(Render(a.id), Render(b.id), Render(c.id)); }
  }

  ghost predicate LieInText(source: string, branches: seq<Branch>) {
    forall b :: b in branches ==> b.at <= |source|
  }

  ghost predicate InReadingOrder(source: string, branches: seq<Branch>) {
    && LieInText(source, branches)
    && forall i, j :: 0 <= i < j < |branches| ==> !ReadsFirst(source, branches[j], branches[i])
  }

  method OrderForReading(source: string, branches: seq<Branch>) returns (ordered: seq<Branch>)
    requires LieInText(source, branches)
    ensures multiset(ordered) == multiset(branches)
    ensures InReadingOrder(source, ordered)
  {
    ordered := [];
    for i := 0 to |branches|
      invariant multiset(ordered) == multiset(branches[..i])
      invariant InReadingOrder(source, ordered)
    {
      assert branches[i] in branches && branches[..i + 1] == branches[..i] + [branches[i]];
      ordered := PutInOrder(source, ordered, branches[i]);
    }
    assert branches[..|branches|] == branches;
  }

  method PutInOrder(source: string, ordered: seq<Branch>, b: Branch) returns (more: seq<Branch>)
    requires InReadingOrder(source, ordered) && b.at <= |source|
    ensures multiset(more) == multiset(ordered) + multiset{b}
    ensures InReadingOrder(source, more)
  {
    var i := 0;
    while i < |ordered| && !ReadsFirst(source, b, ordered[i])
      invariant i <= |ordered|
      invariant forall k :: 0 <= k < i ==> !ReadsFirst(source, b, ordered[k])
    {
      i := i + 1;
    }
    InsertedInOrder(source, ordered, b, i);
    assert ordered == ordered[..i] + ordered[i..];
    more := ordered[..i] + [b] + ordered[i..];
  }

  lemma {:induction false} InsertedInOrder(source: string, ordered: seq<Branch>, b: Branch, i: nat)
    requires InReadingOrder(source, ordered) && b.at <= |source| && i <= |ordered|
    requires forall k :: 0 <= k < i ==> !ReadsFirst(source, b, ordered[k])
    requires i < |ordered| ==> ReadsFirst(source, b, ordered[i])
    ensures InReadingOrder(source, ordered[..i] + [b] + ordered[i..])
  {
    var more := ordered[..i] + [b] + ordered[i..];
    forall k | i <= k < |ordered|
      ensures !ReadsFirst(source, ordered[k], b)
    {
      if ReadsFirst(source, ordered[k], b) {
        ReadsFirstGoesOn(source, ordered[k], b, ordered[i]);
        NotItself(source, ordered[k]);
      }
    }
    forall x, y | 0 <= x < y < |more|
      ensures !ReadsFirst(source, more[y], more[x])
    {
      var from := if x < i then x else x - 1;
      var to := if y < i then y else y - 1;
      assert x != i ==> more[x] == ordered[from];
      assert y != i ==> more[y] == ordered[to];
    }
  }

  lemma {:induction false} NotItself(source: string, a: Branch)
    requires a.at <= |source|
    ensures !ReadsFirst(source, a, a)
  {
    ReadingOrderIsTextOrder(source, a, a);
    TextOrder.NotBelowItself(Render(a.id));
  }

  lemma {:induction false} AllInLieInText(source: string, branches: seq<Branch>)
    requires AllIn(branches, 0, |source|)
    ensures LieInText(source, branches)
  {
    forall b | b in branches
      ensures b.at <= |source|
    {
      var i :| 0 <= i < |branches| && branches[i] == b;
      ThatBranchIsIn(branches, i, |source|);
    }
  }

  // The whole rewrite: what comes out is the text of the module with every branch reporting itself, and the
  // branches found in the order a reader meets them.
  method InstrumentBranches(items: seq<Item>) returns (rewritten: string, branches: seq<Branch>)
    requires ModuleIsAuthored(items)
    ensures rewritten == ModuleText(InstrumentModule(items, ""))
    ensures multiset(branches) == multiset(InModule(items, "")) && InReadingOrder(ModuleText(items), branches)
  {
    var walker := new BranchWalker();
    walker.WalkModule(items);
    var found := walker.found;
    assert found == InModule(items, "");
    ModuleIsReported(items);
    rewritten := Rewrite(ModuleText(items), found);
    AllInLieInText(ModuleText(items), found);
    branches := OrderForReading(ModuleText(items), found);
  }
}
