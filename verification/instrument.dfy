/** The rewrite as it is done, on text: what to put in is found by the walk, collected in a table, and
  spliced in. What comes out is the text of the code with every branch reporting itself. */
module Instrument {
  import opened BranchIds
  import opened BranchWalk
  import opened RowCode
  import opened Seqs
  import opened Splice

  function OpenerOf(b: Branch): string {
    match b
    case SuiteBranch(id, _, header) => Lead(header) + RecordText(id) + "\n" + Pad(header)
    case ArmBranch(id, _, _) => "(" + RecordText(id) + " or ("
  }

  function PiecesOf(b: Branch): seq<Piece> {
    if b.SuiteBranch? then [Opens(b.at, OpenerOf(b))] else [Closes(b.end, "))"), Opens(b.at, OpenerOf(b))]
  }

  function Pieces(branches: seq<Branch>): seq<Piece> {
    if branches == [] then [] else PiecesOf(branches[0]) + Pieces(branches[1..])
  }

  lemma {:induction false} PiecesOfMore(b: Branch, rest: seq<Branch>)
    ensures Pieces([b] + rest) == PiecesOf(b) + Pieces(rest)
  {
    assert ([b] + rest)[1..] == rest;
  }

  lemma {:induction false} PiecesJoin(a: seq<Branch>, b: seq<Branch>)
    ensures Pieces(a + b) == Pieces(a) + Pieces(b)
  {
    if a == [] {
      assert a + b == b;
    } else {
      var first, rest := a[0], a[1..];
      assert a + b == [first] + (rest + b);
      PiecesOfMore(first, rest + b);
      PiecesJoin(rest, b);
      Associates(PiecesOf(first), Pieces(rest), Pieces(b));
    }
  }

  // A text standing at `at`, with what these branches put into it.
  function Reported(text: string, at: nat, branches: seq<Branch>): string {
    Weave(text, at, Pieces(branches))
  }

  // ---------------------------------------------------------------- branches keep to their stretch

  predicate BranchIsIn(b: Branch, lo: nat, hi: nat) {
    if b.SuiteBranch? then lo <= b.at < hi else lo <= b.at < b.end <= hi
  }

  predicate AllIn(branches: seq<Branch>, lo: nat, hi: nat) {
    branches == [] || (BranchIsIn(branches[0], lo, hi) && AllIn(branches[1..], lo, hi))
  }

  lemma {:induction false} AllInJoins(a: seq<Branch>, b: seq<Branch>, lo: nat, mid: nat, mid': nat, hi: nat)
    requires AllIn(a, lo, mid) && AllIn(b, mid', hi) && lo <= mid' && mid <= hi
    ensures AllIn(a + b, lo, hi)
  {
    if a == [] {
      assert a + b == b;
      AllInWider(b, mid', hi, lo, hi);
    } else {
      AllInJoins(a[1..], b, lo, mid, mid', hi);
      assert (a + b)[0] == a[0] && (a + b)[1..] == a[1..] + b;
    }
  }

  lemma {:induction false} AllInWider(a: seq<Branch>, lo: nat, hi: nat, lo': nat, hi': nat)
    requires AllIn(a, lo, hi) && lo' <= lo && hi <= hi'
    ensures AllIn(a, lo', hi')
  {
    if a != [] { AllInWider(a[1..], lo, hi, lo', hi'); }
  }

  lemma {:induction false} InOneOutOfAnother(branches: seq<Branch>, lo: nat, hi: nat, from: nat, to: nat)
    requires AllIn(branches, lo, hi) && (hi <= from || to <= lo)
    ensures Outside(Pieces(branches), from, to)
  {
    if branches != [] {
      InOneOutOfAnother(branches[1..], lo, hi, from, to);
      forall piece | piece in Pieces(branches)
        ensures !IsInside(piece, from, to)
      {
        if piece in PiecesOf(branches[0]) {
          assert BranchIsIn(branches[0], lo, hi);
        }
      }
    }
  }

  // Branches of another stretch put nothing into this one.
  lemma {:induction false} OnlyLater(text: string, at: nat, x: seq<Branch>, y: seq<Branch>, lo: nat, hi: nat)
    requires AllIn(y, lo, hi) && (hi <= at || at + |text| <= lo)
    ensures Reported(text, at, x + y) == Reported(text, at, x)
    ensures Reported(text, at, y + x) == Reported(text, at, x)
  {
    InOneOutOfAnother(y, lo, hi, at, at + |text|);
    PiecesJoin(x, y);
    PiecesJoin(y, x);
    WeaveOnly(text, at, Pieces(x), Pieces(y));
  }

  lemma {:induction false} Nowhere(text: string, at: nat, branches: seq<Branch>, lo: nat, hi: nat)
    requires AllIn(branches, lo, hi) && (hi <= at || at + |text| <= lo)
    ensures Reported(text, at, branches) == text
  {
    InOneOutOfAnother(branches, lo, hi, at, at + |text|);
    WeaveNothing(text, at, Pieces(branches));
  }

  // Text around a stretch that has all the branches.
  lemma {:induction false} Around(pre: string, inner: string, post: string, at: nat, branches: seq<Branch>)
    requires AllIn(branches, at + |pre|, at + |pre| + |inner|)
    ensures Reported(pre + inner + post, at, branches) == pre + Reported(inner, at + |pre|, branches) + post
  {
    var pieces := Pieces(branches);
    WeaveSplits(pre + inner, post, at, pieces);
    WeaveSplits(pre, inner, at, pieces);
    Nowhere(pre, at, branches, at + |pre|, at + |pre| + |inner|);
    Nowhere(post, at + |pre| + |inner|, branches, at + |pre|, at + |pre| + |inner|);
  }

  // Two stretches, each with its own.
  lemma {:induction false} TwoParts(a: string, b: string, at: nat, x: seq<Branch>, y: seq<Branch>)
    requires AllIn(x, at, at + |a|) && AllIn(y, at + |a|, at + |a| + |b|)
    ensures Reported(a + b, at, x + y) == Reported(a, at, x) + Reported(b, at + |a|, y)
    ensures AllIn(x + y, at, at + |a + b|)
  {
    var mid, end := at + |a|, at + |a| + |b|;
    EachItsOwn(a, b, at, mid, end, x, y);
    AllInJoins(x, y, at, mid, mid, end);
  }

  lemma {:induction false} EachItsOwn(a: string, b: string, at: nat, mid: nat, end: nat, x: seq<Branch>,
                                      y: seq<Branch>)
    requires mid == at + |a| && end == mid + |b| && AllIn(x, at, mid) && AllIn(y, mid, end)
    ensures Reported(a + b, at, x + y) == Reported(a, at, x) + Reported(b, mid, y)
  {
    WeaveSplits(a, b, at, Pieces(x + y));
    OnlyLater(a, at, x, y, mid, end);
    OnlyLater(b, mid, y, x, at, mid);
  }

  lemma {:induction false} NoneOutside(branches: seq<Branch>, lo: nat, hi: nat, p: nat)
    requires AllIn(branches, lo, hi)
    ensures p < lo || hi <= p ==> Openers(Pieces(branches), p) == ""
    ensures p <= lo || hi < p ==> Closers(Pieces(branches), p) == ""
  {
    if branches != [] {
      NoneOutside(branches[1..], lo, hi, p);
      assert BranchIsIn(branches[0], lo, hi);
      OpenersJoin(PiecesOf(branches[0]), Pieces(branches[1..]), p);
      PiecesOfOne(branches[0], p);
    }
  }

  lemma {:induction false} PiecesOfOne(b: Branch, p: nat)
    ensures Openers(PiecesOf(b), p) == if b.at == p then OpenerOf(b) else ""
    ensures Closers(PiecesOf(b), p) == if b.ArmBranch? && b.end == p then "))" else ""
  {
    var pieces := PiecesOf(b);
    if b.SuiteBranch? {
      assert pieces[1..] == [];
      assert OpenerOf(b) + "" == OpenerOf(b);
    } else {
      assert pieces[1..][1..] == [] && pieces[1..][0] == pieces[1];
      assert Openers(pieces[1..], p) == OpenedBy(pieces[1], p) + Openers([], p);
      assert Closers(pieces[1..], p) == Closers([], p) + ClosedBy(pieces[1], p);
    }
  }

  // It does not matter which of two stretches is walked first.
  lemma {:induction false} EitherFirst(text: string, at: nat, x: seq<Branch>, y: seq<Branch>, z: seq<Branch>,
                                       w: seq<Branch>, lo: nat, hi: nat, lo': nat, hi': nat)
    requires AllIn(y, lo, hi) && AllIn(z, lo', hi') && (hi <= lo' || hi' <= lo)
    ensures Reported(text, at, x + y + z + w) == Reported(text, at, x + z + y + w)
  {
    var f, g := Pieces(x + y + z + w), Pieces(x + z + y + w);
    forall p: nat
      ensures Openers(f, p) == Openers(g, p) && Closers(f, p) == Closers(g, p)
    {
      NoneOutside(y, lo, hi, p);
      NoneOutside(z, lo', hi', p);
      FourOpen(x, y, z, w, p);
      FourOpen(x, z, y, w, p);
      EmptyCommutes(Openers(Pieces(y), p), Openers(Pieces(z), p));
      EmptyCommutes(Closers(Pieces(y), p), Closers(Pieces(z), p));
    }
    WeaveAgrees(text, at, f, g);
  }

  lemma EmptyCommutes(a: string, b: string)
    requires a == "" || b == ""
    ensures a + b == b + a
  {
  }

  lemma {:induction false} FourOpen(x: seq<Branch>, y: seq<Branch>, z: seq<Branch>, w: seq<Branch>, p: nat)
    ensures Openers(Pieces(x + y + z + w), p)
         == Openers(Pieces(x), p) + (Openers(Pieces(y), p) + Openers(Pieces(z), p)) + Openers(Pieces(w), p)
    ensures Closers(Pieces(x + y + z + w), p)
         == Closers(Pieces(w), p) + ((Closers(Pieces(z), p) + Closers(Pieces(y), p)) + Closers(Pieces(x), p))
  {
    PiecesJoin(x + y + z, w);
    PiecesJoin(x + y, z);
    PiecesJoin(x, y);
    OpenersJoin(Pieces(x + y + z), Pieces(w), p);
    OpenersJoin(Pieces(x + y), Pieces(z), p);
    OpenersJoin(Pieces(x), Pieces(y), p);
    Associates(Openers(Pieces(x), p), Openers(Pieces(y), p), Openers(Pieces(z), p));
    Associates(Closers(Pieces(z), p), Closers(Pieces(y), p), Closers(Pieces(x), p));
  }

  // A link of a chain: its arms are all found before what its parts hold, and the test's before the body's.
  lemma {:induction false} InTextOrder(text: string, at: nat, arm: seq<Branch>, arms: seq<Branch>, inTest: seq<Branch>,
                                       inBody: seq<Branch>, below: seq<Branch>, b: nat, p: nat, q: nat, r: nat,
                                       end: nat)
    requires at <= b <= p <= q <= r <= end
    requires AllIn(inBody, at, b) && AllIn(inTest, p, q) && AllIn(arms, r, end)
    ensures Reported(text, at, (arm + arms) + (inTest + inBody + below))
         == Reported(text, at, ((arm + inBody) + inTest) + (arms + below))
  {
    Regroups(arm, arms, inTest, inBody, below);
    EitherFirst(text, at, arm, arms, inTest, inBody + below, r, end, p, q);
    EitherFirst(text, at, arm + inTest, arms, inBody, below, r, end, at, b);
    EitherFirst(text, at, arm, inTest, inBody, arms + below, p, q, at, b);
  }

  lemma Regroups(a: seq<Branch>, b: seq<Branch>, c: seq<Branch>, d: seq<Branch>, e: seq<Branch>)
    ensures (a + b) + (c + d + e) == a + b + c + (d + e)
    ensures a + c + b + (d + e) == (a + c) + b + d + e
    ensures (a + c) + d + b + e == a + c + d + (b + e)
    ensures a + d + c + (b + e) == ((a + d) + c) + (b + e)
  {
  }

  lemma {:induction false} AllInReordered(arm: seq<Branch>, arms: seq<Branch>, inTest: seq<Branch>, inBody: seq<Branch>,
                                          below: seq<Branch>, at: nat, end: nat, b: nat, p: nat, q: nat, r: nat)
    requires at <= b <= p <= q <= r <= end
    requires AllIn(arm, at, b) && AllIn(inBody, at, b) && AllIn(inTest, p, q) && AllIn(arms, r, end)
        && AllIn(below, r, end)
    ensures AllIn((arm + arms) + (inTest + inBody + below), at, end)
  {
    AllInWider(arm, at, b, at, end);
    AllInWider(inBody, at, b, at, end);
    AllInWider(inTest, p, q, at, end);
    AllInWider(arms, r, end, at, end);
    AllInWider(below, r, end, at, end);
    AllInJoins(arm, arms, at, end, at, end);
    AllInJoins(inTest, inBody, at, end, at, end);
    AllInJoins(inTest + inBody, below, at, end, at, end);
    AllInJoins(arm + arms, inTest + inBody + below, at, end, at, end);
  }

  // ---------------------------------------------------------------- what a stretch becomes

  // A stretch of the source, with its own branches and no other, becomes `rewritten`.
  ghost predicate Becomes(text: string, at: nat, branches: seq<Branch>, rewritten: string) {
    SetAside(|text| + 3, text, at, branches, rewritten)
  }

  // The meaning of `Becomes`, put `n` steps away so that proofs about trees take it as it stands.
  ghost predicate SetAside(n: nat, text: string, at: nat, branches: seq<Branch>, rewritten: string) {
    if n == 0 then Reported(text, at, branches) == rewritten && AllIn(branches, at, at + |text|)
    else SetAside(n - 1, text, at, branches, rewritten)
  }

  lemma {:induction false} BecomesMeans(n: nat, text: string, at: nat, branches: seq<Branch>, rewritten: string)
    ensures SetAside(n, text, at, branches, rewritten)
       <==> Reported(text, at, branches) == rewritten && AllIn(branches, at, at + |text|)
  {
    if n > 0 { BecomesMeans(n - 1, text, at, branches, rewritten); }
  }

  lemma {:induction false} IsReported(text: string, at: nat, end: nat, branches: seq<Branch>, rewritten: string)
    requires Becomes(text, at, branches, rewritten) && end == at + |text|
    ensures Reported(text, at, branches) == rewritten && AllIn(branches, at, end)
  {
    BecomesMeans(|text| + 3, text, at, branches, rewritten);
  }

  lemma {:induction false} IsWithin(text: string, at: nat, end: nat, branches: seq<Branch>, rewritten: string)
    requires Becomes(text, at, branches, rewritten) && end == at + |text|
    ensures AllIn(branches, at, end)
  {
    BecomesMeans(|text| + 3, text, at, branches, rewritten);
  }

  lemma {:induction false} SoItBecomes(text: string, at: nat, end: nat, branches: seq<Branch>, rewritten: string)
    requires Reported(text, at, branches) == rewritten && AllIn(branches, at, end) && end == at + |text|
    ensures Becomes(text, at, branches, rewritten)
  {
    BecomesMeans(|text| + 3, text, at, branches, rewritten);
  }

  lemma {:induction false} UnbranchedStays(text: string, at: nat)
    ensures Becomes(text, at, [], text)
  {
    Nowhere(text, at, [], at, at);
    SoItBecomes(text, at, at + |text|, [], text);
  }

  lemma {:induction false} AroundBecomes(pre: string, inner: string, post: string, at: nat, x: seq<Branch>,
                                         rewritten: string)
    requires Becomes(inner, at + |pre|, x, rewritten)
    ensures Becomes(pre + inner + post, at, x, pre + rewritten + post)
  {
    IsReported(inner, at + |pre|, at + |pre| + |inner|, x, rewritten);
    Around(pre, inner, post, at, x);
    AllInWider(x, at + |pre|, at + |pre| + |inner|, at, at + |pre + inner + post|);
    SoItBecomes(pre + inner + post, at, at + |pre + inner + post|, x, pre + rewritten + post);
  }

  lemma {:induction false} PairBecomes(a: string, b: string, at: nat, x: seq<Branch>, y: seq<Branch>, a': string,
                                       b': string)
    requires Becomes(a, at, x, a') && Becomes(b, at + |a|, y, b')
    ensures Becomes(a + b, at, x + y, a' + b')
  {
    var mid, end := at + |a|, at + |a| + |b|;
    IsReported(a, at, mid, x, a');
    IsReported(b, mid, end, y, b');
    PairIsBecome(a, b, at, mid, end, x, y, a', b');
  }

  lemma {:induction false} PairIsBecome(a: string, b: string, at: nat, mid: nat, end: nat, x: seq<Branch>,
                                        y: seq<Branch>, a': string, b': string)
    requires mid == at + |a| && end == mid + |b|
    requires Reported(a, at, x) == a' && AllIn(x, at, mid)
    requires Reported(b, mid, y) == b' && AllIn(y, mid, end)
    ensures Becomes(a + b, at, x + y, a' + b')
  {
    TwoParts(a, b, at, x, y);
    SoItBecomes(a + b, at, at + |a + b|, x + y, a' + b');
  }

  lemma {:induction false} SidesBecome(a: string, op: string, b: string, at: nat, x: seq<Branch>, y: seq<Branch>,
                                       a': string, b': string)
    requires Becomes(a, at, x, a') && Becomes(b, at + |a| + |op|, y, b')
    ensures Becomes(a + op + b, at, x + y, a' + op + b')
  {
    UnbranchedStays(op, at + |a|);
    PairBecomes(a, op, at, x, [], a', op);
    PairBecomes(a + op, b, at, x + [], y, a' + op, b');
    assert x + [] == x;
  }

  lemma {:induction false} LinkBecomes(b: string, g: string, t: string, h: string, o: string, at: nat, arm: seq<Branch>,
                                       arms: seq<Branch>, inTest: seq<Branch>, inBody: seq<Branch>, below: seq<Branch>,
                                       b': string, t': string, o': string)
    requires Becomes(b, at, arm + inBody, b')
    requires Becomes(t, at + |b| + |g|, inTest, t')
    requires Becomes(o, at + |b| + |g| + |t| + |h|, arms + below, o')
    ensures Becomes(b + g + t + h + o, at, (arm + arms) + (inTest + inBody + below), b' + g + t' + h + o')
  {
    var p, r := at + |b| + |g|, at + |b| + |g| + |t| + |h|;
    LinkInTextOrder(b, g, t, h, o, at, arm + inBody, inTest, arms + below, b', t', o');
    LinkBounds(b, t, o, at, p, r, arm, arms, inTest, inBody, below, b', t', o');
    LinkReorders(b + g + t + h + o, at, arm, arms, inTest, inBody, below, at + |b|, p, p + |t|, r, r + |o|,
                 b' + g + t' + h + o');
  }

  lemma {:induction false} LinkInTextOrder(b: string, g: string, t: string, h: string, o: string, at: nat,
                                           x: seq<Branch>, y: seq<Branch>, z: seq<Branch>, b': string, t': string,
                                           o': string)
    requires Becomes(b, at, x, b') && Becomes(t, at + |b| + |g|, y, t')
    requires Becomes(o, at + |b| + |g| + |t| + |h|, z, o')
    ensures Becomes(b + g + t + h + o, at, x + y + z, b' + g + t' + h + o')
  {
    SidesBecome(b, g, t, at, x, y, b', t');
    SidesBecome(b + g + t, h, o, at, x + y, z, b' + g + t', o');
  }

  lemma {:induction false} LinkBounds(b: string, t: string, o: string, at: nat, p: nat, r: nat, arm: seq<Branch>,
                                      arms: seq<Branch>, inTest: seq<Branch>, inBody: seq<Branch>, below: seq<Branch>,
                                      b': string, t': string, o': string)
    requires Becomes(b, at, arm + inBody, b') && Becomes(t, p, inTest, t') && Becomes(o, r, arms + below, o')
    ensures AllIn(arm, at, at + |b|) && AllIn(inBody, at, at + |b|) && AllIn(inTest, p, p + |t|)
    ensures AllIn(arms, r, r + |o|) && AllIn(below, r, r + |o|)
  {
    IsWithin(b, at, at + |b|, arm + inBody, b');
    IsWithin(t, p, p + |t|, inTest, t');
    IsWithin(o, r, r + |o|, arms + below, o');
    AllInParts(arm, inBody, at, at + |b|);
    AllInParts(arms, below, r, r + |o|);
  }

  lemma {:induction false} LinkReorders(text: string, at: nat, arm: seq<Branch>, arms: seq<Branch>,
                                        inTest: seq<Branch>, inBody: seq<Branch>, below: seq<Branch>, b: nat, p: nat,
                                        q: nat, r: nat, end: nat, rewritten: string)
    requires at <= b <= p <= q <= r <= end == at + |text|
    requires AllIn(arm, at, b) && AllIn(inBody, at, b) && AllIn(inTest, p, q)
    requires AllIn(arms, r, end) && AllIn(below, r, end)
    requires Becomes(text, at, (arm + inBody) + inTest + (arms + below), rewritten)
    ensures Becomes(text, at, (arm + arms) + (inTest + inBody + below), rewritten)
  {
    IsReported(text, at, end, (arm + inBody) + inTest + (arms + below), rewritten);
    InTextOrder(text, at, arm, arms, inTest, inBody, below, b, p, q, r, end);
    AllInReordered(arm, arms, inTest, inBody, below, at, end, b, p, q, r);
    SoItBecomes(text, at, end, (arm + arms) + (inTest + inBody + below), rewritten);
  }

  lemma {:induction false} AllInParts(a: seq<Branch>, b: seq<Branch>, lo: nat, hi: nat)
    requires AllIn(a + b, lo, hi)
    ensures AllIn(a, lo, hi) && AllIn(b, lo, hi)
  {
    if a == [] {
      assert a + b == b;
    } else {
      assert (a + b)[0] == a[0] && (a + b)[1..] == a[1..] + b;
      AllInParts(a[1..], b, lo, hi);
    }
  }

  // An arm that is the whole stretch is wrapped outside of everything in it.
  lemma {:induction false} ArmBecomes(text: string, at: nat, id: Id, inside: seq<Branch>, rewritten: string)
    requires text != "" && Becomes(text, at, inside, rewritten)
    ensures Becomes(text, at, [ArmBranch(id, at, at + |text|)] + inside,
                    ("(" + RecordText(id) + " or (") + rewritten + "))")
  {
    var arm := ArmBranch(id, at, at + |text|);
    BecomesMeans(|text| + 3, text, at, inside, rewritten);
    ArmAround(text, at, arm, inside);
    AllInMore(arm, inside, at, at + |text|);
    BecomesMeans(|text| + 3, text, at, [arm] + inside, OpenerOf(arm) + rewritten + "))");
  }

  lemma {:induction false} ArmAround(text: string, at: nat, arm: Branch, inside: seq<Branch>)
    requires text != "" && arm.ArmBranch? && arm.at == at && arm.end == at + |text|
    ensures Reported(text, at, [arm] + inside) == OpenerOf(arm) + Reported(text, at, inside) + "))"
  {
    PiecesOfMore(arm, inside);
    WrapsAll(text, at, OpenerOf(arm), "))", [arm] + inside, Pieces(inside));
  }

  // A suite that is the whole stretch reports itself before everything in it.
  lemma {:induction false} SuiteBecomes(text: string, at: nat, id: Id, header: string, inside: seq<Branch>,
                                        rewritten: string)
    requires text != "" && Becomes(text, at, inside, rewritten)
    ensures Becomes(text, at, [SuiteBranch(id, at, header)] + inside, OpenerOf(SuiteBranch(id, at, header)) + rewritten)
  {
    var suite := SuiteBranch(id, at, header);
    BecomesMeans(|text| + 3, text, at, inside, rewritten);
    SuiteAround(text, at, suite, inside);
    AllInMore(suite, inside, at, at + |text|);
    BecomesMeans(|text| + 3, text, at, [suite] + inside, OpenerOf(suite) + rewritten);
  }

  lemma {:induction false} SuiteAround(text: string, at: nat, suite: Branch, inside: seq<Branch>)
    requires text != "" && suite.SuiteBranch? && suite.at == at
    ensures Reported(text, at, [suite] + inside) == OpenerOf(suite) + Reported(text, at, inside)
  {
    PiecesOfMore(suite, inside);
    OpensBefore(text, at, OpenerOf(suite), [suite] + inside, Pieces(inside));
  }

  lemma {:induction false} WrapsAll(text: string, at: nat, opener: string, closer: string, all: seq<Branch>,
                                    pieces: seq<Piece>)
    requires text != "" && Pieces(all) == [Closes(at + |text|, closer), Opens(at, opener)] + pieces
    ensures Reported(text, at, all) == opener + Weave(text, at, pieces) + closer
  {
    WrapsOutermost(text, at, opener, closer, pieces);
  }

  lemma {:induction false} OpensBefore(text: string, at: nat, opener: string, all: seq<Branch>, pieces: seq<Piece>)
    requires text != "" && Pieces(all) == [Opens(at, opener)] + pieces
    ensures Reported(text, at, all) == opener + Weave(text, at, pieces)
  {
    OpensFirst(text, at, opener, pieces);
  }

  lemma {:induction false} AllInMore(b: Branch, rest: seq<Branch>, lo: nat, hi: nat)
    requires BranchIsIn(b, lo, hi) && AllIn(rest, lo, hi)
    ensures AllIn([b] + rest, lo, hi)
  {
    assert ([b] + rest)[0] == b && ([b] + rest)[1..] == rest;
  }

  // ---------------------------------------------------------------- expressions

  lemma {:induction false} AuthoredHasText(e: Expr)
    requires IsAuthored(e)
    ensures ExprText(e) != ""
  {
    match e
    case Atom(_) =>
    case Deferred(_) =>
    case Paren(l, inner, r) => AuthoredHasText(inner);
    case Binary(l, op, r) => AuthoredHasText(l);
    case Or(l, op, r) => AuthoredHasText(l);
    case Call(callee, l, arg, r) => AuthoredHasText(arg);
    case Choice(b, g, t, h, o) => AuthoredHasText(b);
  }

  // Rewriting the text at the branches found gives the text of the rewritten expression.
  lemma {:induction false} ExprIsTold(e: Expr, before: string, parent: Id, index: nat, n: nat)
    requires IsAuthored(e)
    ensures Becomes(ExprText(e), |before|, Arms(Scan(e, before), parent, index, n),
                    ExprText(RowCode.Instrument(e, parent, index, n)))
    decreases e, 2
  {
    match e
    case Atom(text) => UnbranchedStays(text, |before|);
    case Deferred(text) => UnbranchedStays(text, |before|);
    case Paren(l, inner, r) =>
      ExprIsTold(inner, before + l, parent, index, n);
      AroundBecomes(l, ExprText(inner), r, |before|, Arms(Scan(inner, before + l), parent, index, n),
                    ExprText(RowCode.Instrument(inner, parent, index, n)));
    case Call(callee, l, arg, r) =>
      ExprIsTold(arg, before + (callee + l), parent, index, n);
      AroundBecomes(callee + l, ExprText(arg), r, |before|, Arms(Scan(arg, before + (callee + l)), parent, index, n),
                    ExprText(RowCode.Instrument(arg, parent, index, n)));
    case Binary(l, op, r) => SidesAreTold(e, l, op, r, before, parent, index, n);
    case Or(l, op, r) => SidesAreTold(e, l, op, r, before, parent, index, n);
    case Choice(_, _, _, _, _) =>
      LinkIsTold(e, before, parent, index, n, OfIf, n + 1);
      ScanOfChoice(e, before, parent, index, n);
  }

  lemma {:induction false} SidesAreTold(e: Expr, l: Expr, op: string, r: Expr, before: string, parent: Id, index: nat,
                                        n: nat)
    requires e == Binary(l, op, r) || e == Or(l, op, r)
    requires IsAuthored(l) && IsAuthored(r)
    ensures Becomes(ExprText(l) + op + ExprText(r), |before|,
                    Arms(Scan(l, before) + Scan(r, before + ExprText(l) + op), parent, index, n),
                    ExprText(RowCode.Instrument(l, parent, index, n)) + op
                        + ExprText(RowCode.Instrument(r, parent, index, n + Chains(l))))
    decreases e, 0
  {
    var between := before + ExprText(l) + op;
    ExprIsTold(l, before, parent, index, n);
    ExprIsTold(r, between, parent, index, n + Chains(l));
    ArmsJoin(Scan(l, before), Scan(r, between), parent, index, n);
    SidesBecome(ExprText(l), op, ExprText(r), |before|,
                Arms(Scan(l, before), parent, index, n), Arms(Scan(r, between), parent, index, n + Chains(l)),
                ExprText(RowCode.Instrument(l, parent, index, n)),
                ExprText(RowCode.Instrument(r, parent, index, n + Chains(l))));
  }

  lemma {:induction false} ScanOfChoice(e: Expr, before: string, parent: Id, index: nat, n: nat)
    requires e.Choice?
    ensures Arms(Scan(e, before), parent, index, n)
         == ArmsFrom(e, before, parent, index, n, OfIf) + Arms(ScanBelow(e, before), parent, index, n + 1)
  {
    assert Scan(e, before) == [Place(e, before)] + ScanBelow(e, before);
    assert Scan(e, before)[0] == Place(e, before) && Scan(e, before)[1..] == ScanBelow(e, before);
  }

  lemma {:induction false} LinkIsTold(e: Expr, before: string, parent: Id, index: nat, order: nat, kind: Kind, n: nat)
    requires e.Choice? && IsAuthored(e)
    ensures Becomes(ExprText(e), |before|,
                    ArmsFrom(e, before, parent, index, order, kind) + Arms(ScanBelow(e, before), parent, index, n),
                    ExprText(Link(e, parent, index, order, kind, n)))
    decreases e, 1
  {
    var tested := before + ExprText(e.body) + e.ifGap;
    var rest := tested + ExprText(e.test) + e.elseGap;
    var id := ArmAt(parent, index, order, kind);
    var m := n + Chains(e.test);
    var k := m + Chains(e.body);
    var arm, arms := [ArmOf(e.body, before, id)], ArmsBelow(e.orelse, rest, parent, index, order, kind);
    var inTest, inBody := Arms(Scan(e.test, tested), parent, index, n), Arms(Scan(e.body, before), parent, index, m);
    var below := Arms(ScanBelow(e.orelse, rest), parent, index, k);
    var b', t' := ExprText(WrapArm(e.body, id, parent, index, m)),
        ExprText(RowCode.Instrument(e.test, parent, index, n));
    var o' := ExprText(Follow(e.orelse, parent, index, order, kind, k));
    ArmsOfScan(e, before, parent, index, n);
    LinkText(e, parent, index, order, kind, n);
    ArmsOfLink(e, before, rest, parent, index, order, kind);
    LinkPartsAreTold(e, before, tested, rest, id, parent, index, order, kind, n, arm, arms, inTest, inBody, below,
                     b', t', o',
                     ArmsFrom(e, before, parent, index, order, kind) + Arms(ScanBelow(e, before), parent, index, n),
                     ExprText(Link(e, parent, index, order, kind, n)));
  }

  lemma {:induction false} LinkPartsAreTold(e: Expr, before: string, tested: string, rest: string, id: Id, parent: Id,
                                            index: nat, order: nat, kind: Kind, n: nat, arm: seq<Branch>,
                                            arms: seq<Branch>, inTest: seq<Branch>, inBody: seq<Branch>,
                                            below: seq<Branch>, b': string, t': string, o': string, all: seq<Branch>,
                                            rewritten: string)
    requires e.Choice? && IsAuthored(e)
    requires all == (arm + arms) + (inTest + inBody + below) && rewritten == b' + e.ifGap + t' + e.elseGap + o'
    requires tested == before + ExprText(e.body) + e.ifGap && rest == tested + ExprText(e.test) + e.elseGap
    requires arm == [ArmOf(e.body, before, id)] && arms == ArmsBelow(e.orelse, rest, parent, index, order, kind)
    requires inTest == Arms(Scan(e.test, tested), parent, index, n)
    requires inBody == Arms(Scan(e.body, before), parent, index, n + Chains(e.test))
    requires below == Arms(ScanBelow(e.orelse, rest), parent, index, n + Chains(e.test) + Chains(e.body))
    requires b' == ExprText(WrapArm(e.body, id, parent, index, n + Chains(e.test)))
    requires t' == ExprText(RowCode.Instrument(e.test, parent, index, n))
    requires o' == ExprText(Follow(e.orelse, parent, index, order, kind, n + Chains(e.test) + Chains(e.body)))
    ensures Becomes(ExprText(e), |before|, all, rewritten)
    decreases e, 0
  {
    ArmIsTold(e.body, before, id, parent, index, n + Chains(e.test));
    ExprIsTold(e.test, tested, parent, index, n);
    RestIsTold(e.orelse, rest, parent, index, order, kind, n + Chains(e.test) + Chains(e.body));
    LinkBecomes(ExprText(e.body), e.ifGap, ExprText(e.test), e.elseGap, ExprText(e.orelse), |before|,
                arm, arms, inTest, inBody, below, b', t', o');
  }

  lemma {:induction false} LinkText(e: Expr, parent: Id, index: nat, order: nat, kind: Kind, n: nat)
    requires e.Choice?
    ensures var m := n + Chains(e.test);
      ExprText(Link(e, parent, index, order, kind, n))
      == ExprText(WrapArm(e.body, ArmAt(parent, index, order, kind), parent, index, m)) + e.ifGap
         + ExprText(RowCode.Instrument(e.test, parent, index, n)) + e.elseGap
         + ExprText(Follow(e.orelse, parent, index, order, kind, m + Chains(e.body)))
  {
  }

  lemma {:induction false} ArmsOfLink(e: Expr, before: string, rest: string, parent: Id, index: nat, order: nat,
                                      kind: Kind)
    requires e.Choice? && rest == before + ExprText(e.body) + e.ifGap + ExprText(e.test) + e.elseGap
    ensures ArmsFrom(e, before, parent, index, order, kind)
        == [ArmOf(e.body, before, ArmAt(parent, index, order, kind))]
            + ArmsBelow(e.orelse, rest, parent, index, order, kind)
  {
  }

  lemma {:induction false} ArmsOfScan(e: Expr, before: string, parent: Id, index: nat, n: nat)
    requires e.Choice?
    ensures var tested := before + ExprText(e.body) + e.ifGap; var m := n + Chains(e.test);
      Arms(ScanBelow(e, before), parent, index, n)
      == Arms(Scan(e.test, tested), parent, index, n) + Arms(Scan(e.body, before), parent, index, m)
         + Arms(ScanBelow(e.orelse, tested + ExprText(e.test) + e.elseGap), parent, index, m + Chains(e.body))
  {
    var tested := before + ExprText(e.body) + e.ifGap;
    var inTest, inBody := Scan(e.test, tested), Scan(e.body, before);
    ArmsJoin(inTest, inBody, parent, index, n);
    ArmsJoin(inTest + inBody, ScanBelow(e.orelse, tested + ExprText(e.test) + e.elseGap), parent, index, n);
  }

  // What stands after a chain's `else`.
  lemma {:induction false} RestIsTold(e: Expr, before: string, parent: Id, index: nat, order: nat, kind: Kind, n: nat)
    requires IsAuthored(e)
    ensures Becomes(ExprText(e), |before|,
                    ArmsBelow(e, before, parent, index, order, kind) + Arms(ScanBelow(e, before), parent, index, n),
                    ExprText(Follow(e, parent, index, order, kind, n)))
    decreases e, 4
  {
    if e.Paren? && IsChain(e) {
      RestIsTold(e.inner, before + e.open, parent, index, order, kind, n);
      AroundBecomes(e.open, ExprText(e.inner), e.close, |before|,
                    ArmsBelow(e.inner, before + e.open, parent, index, order, kind)
                    + Arms(ScanBelow(e.inner, before + e.open), parent, index, n),
                    ExprText(Follow(e.inner, parent, index, order, kind, n)));
    } else if e.Choice? {
      LinkIsTold(e, before, parent, index, order, NextElif(kind), n);
    } else {
      ArmIsTold(e, before, ArmAt(parent, index, order, OfElse), parent, index, n);
      NoChainBelow(e, before);
    }
  }

  // An arm's value is wrapped outside of everything in it, and inside its own parentheses.
  lemma {:induction false} ArmIsTold(e: Expr, before: string, id: Id, parent: Id, index: nat, n: nat)
    requires IsAuthored(e)
    ensures Becomes(ExprText(e), |before|, [ArmOf(e, before, id)] + Arms(Scan(e, before), parent, index, n),
                    ExprText(WrapArm(e, id, parent, index, n)))
    decreases e, 3
  {
    if e.Paren? {
      ArmIsTold(e.inner, before + e.open, id, parent, index, n);
      AroundBecomes(e.open, ExprText(e.inner), e.close, |before|,
                    [ArmOf(e.inner, before + e.open, id)] + Arms(Scan(e.inner, before + e.open), parent, index, n),
                    ExprText(WrapArm(e.inner, id, parent, index, n)));
    } else {
      AuthoredHasText(e);
      ExprIsTold(e, before, parent, index, n);
      var value := RowCode.Instrument(e, parent, index, n);
      ArmBecomes(ExprText(e), |before|, id, Arms(Scan(e, before), parent, index, n), ExprText(value));
      WrapText(id, value);
    }
  }

  lemma {:induction false} WrapText(id: Id, value: Expr)
    ensures ExprText(Reporting(id, value)) == ("(" + RecordText(id) + " or (") + ExprText(value) + "))"
  {
    var inner := Paren("(", value, ")");
    var text, call := ExprText(value), RecordText(id);
    assert ExprText(inner) == "(" + text + ")";
    assert ExprText(Or(Record(id), " or ", inner)) == call + " or " + ("(" + text + ")");
    JoinWrap(call, text);
  }

  lemma JoinWrap(call: string, text: string)
    ensures "(" + (call + " or " + ("(" + text + ")")) + ")" == ("(" + call + " or (") + text + "))"
  {
  }

  // ---------------------------------------------------------------- statements

  lemma {:induction false} StmtHasText(s: Stmt)
    requires StmtIsAuthored(s)
    ensures StmtText(s) != ""
  {
    match s
    case Simple(_, value, _) => AuthoredHasText(value);
    case If(_, test, _, _) => AuthoredHasText(test);
    case Try(_, body, _, _) => BlockHasText(body.block);
    case Inside(_, _, value, _) => AuthoredHasText(value);
    case Definition(_) =>
  }

  lemma {:induction false} BlockHasText(b: Block)
    requires BlockIsAuthored(b)
    ensures BlockText(b) != ""
  {
    StmtHasText(if b.Last? then b.only else b.first);
  }

  lemma {:induction false} AfterHead(head: string, rest: string, at: nat, x: seq<Branch>, rewritten: string)
    requires Becomes(rest, at + |head|, x, rewritten)
    ensures Becomes(head + rest, at, x, head + rewritten)
  {
    UnbranchedStays(head, at);
    PairBecomes(head, rest, at, [], x, head, rewritten);
    assert [] + x == x;
  }

  lemma {:induction false} StmtIsTold(s: Stmt, before: string, parent: Id, index: nat)
    requires StmtIsAuthored(s)
    ensures Becomes(StmtText(s), |before|, InStmt(s, before, parent, index),
                    StmtText(InstrumentStmt(s, before, parent, index)))
    decreases s, 1
  {
    match s
    case Simple(head, value, tail) =>
      ExprIsTold(value, before + head, parent, index, 0);
      AroundBecomes(head, ExprText(value), tail, |before|, Choices(value, before + head, parent, index),
                    ExprText(RowCode.Instrument(value, parent, index, 0)));
    case If(_, _, _, _) => IfIsTold(s, before, parent, index);
    case Try(_, _, _, _) => TryIsTold(s, before, parent, index);
    case Inside(_, head, value, body) =>
      var value' := ExprText(RowCode.Instrument(value, parent, index, 0));
      ExprIsTold(value, before + head, parent, index, 0);
      AfterHead(head, ExprText(value), |before|, Choices(value, before + head, parent, index), value');
      UnbranchedStays(SuiteText(body), |before| + |head + ExprText(value)|);
      PairBecomes(head + ExprText(value), SuiteText(body), |before|, Choices(value, before + head, parent, index), [],
                  head + value', SuiteText(body));
      assert Choices(value, before + head, parent, index) + [] == Choices(value, before + head, parent, index);
    case Definition(text) => UnbranchedStays(text, |before|);
  }

  lemma {:induction false} IfIsTold(s: Stmt, before: string, parent: Id, index: nat)
    requires s.If? && StmtIsAuthored(s)
    ensures Becomes(StmtText(s), |before|, InStmt(s, before, parent, index),
                    StmtText(InstrumentStmt(s, before, parent, index)))
    decreases s, 0
  {
    var tested := before + s.head + ExprText(s.test);
    var rest := tested + SuiteText(s.body);
    var id := SuiteAt(parent, index, OfIf);
    var test' := ExprText(RowCode.Instrument(s.test, parent, index, 0));
    var body', orelse' := SuiteText(InstrumentSuite(s.body, tested, id)),
        OrelseText(InstrumentElif(s.orelse, rest, parent, index, OfIf));
    var own := Choices(s.test, before + s.head, parent, index);
    var inBody, below := InSuite(s.body, tested, id), InElif(s.orelse, rest, parent, index, OfIf);
    ExprIsTold(s.test, before + s.head, parent, index, 0);
    AfterHead(s.head, ExprText(s.test), |before|, own, test');
    SuiteIsTold(s.body, tested, id);
    ElifIsTold(s.orelse, rest, parent, index, OfIf);
    PairBecomes(SuiteText(s.body), OrelseText(s.orelse), |tested|, inBody, below, body', orelse');
    PairBecomes(s.head + ExprText(s.test), SuiteText(s.body) + OrelseText(s.orelse), |before|, own, inBody + below,
                s.head + test', body' + orelse');
  }

  lemma {:induction false} TryIsTold(s: Stmt, before: string, parent: Id, index: nat)
    requires s.Try? && StmtIsAuthored(s)
    ensures Becomes(StmtText(s), |before|, InStmt(s, before, parent, index),
                    StmtText(InstrumentStmt(s, before, parent, index)))
    decreases s, 0
  {
    var tried := before + s.head + SuiteText(s.body);
    var rest := tried + HandlersText(s.handlers);
    var id := SuiteAt(parent, index, OfTry);
    var body' := SuiteText(InstrumentSuite(s.body, before + s.head, id));
    var handlers' := HandlersText(InstrumentHandlers(s.handlers, tried, parent, index, 0));
    var orelse' := OrelseText(InstrumentElse(s.orelse, rest, parent, index));
    var inBody, inHandlers := InSuite(s.body, before + s.head, id), InHandlers(s.handlers, tried, parent, index, 0);
    var inElse := InElse(s.orelse, rest, parent, index);
    SuiteIsTold(s.body, before + s.head, id);
    HandlersAreTold(s.handlers, tried, parent, index, 0);
    ElseIsTold(s.orelse, rest, parent, index);
    PairBecomes(HandlersText(s.handlers), OrelseText(s.orelse), |tried|, inHandlers, inElse, handlers', orelse');
    PairBecomes(SuiteText(s.body), HandlersText(s.handlers) + OrelseText(s.orelse), |before + s.head|,
                inBody, inHandlers + inElse, body', handlers' + orelse');
    AfterHead(s.head, SuiteText(s.body) + (HandlersText(s.handlers) + OrelseText(s.orelse)), |before|,
              inBody + (inHandlers + inElse), body' + (handlers' + orelse'));
  }

  lemma {:induction false} ElifIsTold(o: Orelse, before: string, parent: Id, index: nat, kind: Kind)
    requires OrelseIsAuthored(o)
    ensures Becomes(OrelseText(o), |before|, InElif(o, before, parent, index, kind),
                    OrelseText(InstrumentElif(o, before, parent, index, kind)))
    decreases o, 1
  {
    if o.Else? && IsElif(o.suite.block) {
      ElifTestIsLeft(o, before, parent, index, kind);
    } else {
      ElseIsTold(o, before, parent, index);
    }
  }

  lemma {:induction false} ElifTestIsLeft(o: Orelse, before: string, parent: Id, index: nat, kind: Kind)
    requires OrelseIsAuthored(o) && o.Else? && IsElif(o.suite.block)
    ensures Becomes(OrelseText(o), |before|, InElif(o, before, parent, index, kind),
                    OrelseText(InstrumentElif(o, before, parent, index, kind)))
    decreases o, 0
  {
    var gap, s, next := o.suite.gap, o.suite.block.only, NextElif(kind);
    assert BlockIsAuthored(o.suite.block);
    assert StmtIsAuthored(s);
    var tested := before + gap + s.head + ExprText(s.test);
    var rest := tested + SuiteText(s.body);
    var id := SuiteAt(parent, index, next);
    var body' := SuiteText(InstrumentSuite(s.body, tested, id));
    var orelse' := OrelseText(InstrumentElif(s.orelse, rest, parent, index, next));
    var inBody, below := InSuite(s.body, tested, id), InElif(s.orelse, rest, parent, index, next);
    SuiteIsTold(s.body, tested, id);
    ElifIsTold(s.orelse, rest, parent, index, next);
    PairBecomes(SuiteText(s.body), OrelseText(s.orelse), |tested|, inBody, below, body', orelse');
    AfterHead(s.head + ExprText(s.test), SuiteText(s.body) + OrelseText(s.orelse), |before + gap|, inBody + below,
              body' + orelse');
    AfterHead(gap, (s.head + ExprText(s.test)) + (SuiteText(s.body) + OrelseText(s.orelse)), |before|,
              inBody + below, (s.head + ExprText(s.test)) + (body' + orelse'));
    assert BlockText(o.suite.block) == StmtText(s);
    var s' := If(s.head, s.test, InstrumentSuite(s.body, tested, id),
                 InstrumentElif(s.orelse, rest, parent, index, next));
    assert InstrumentElif(o, before, parent, index, kind) == Else(Suite(gap, Last(s')));
    assert BlockText(Last(s')) == StmtText(s');
  }

  lemma {:induction false} ElseIsTold(o: Orelse, before: string, parent: Id, index: nat)
    requires OrelseIsAuthored(o)
    ensures Becomes(OrelseText(o), |before|, InElse(o, before, parent, index),
                    OrelseText(InstrumentElse(o, before, parent, index)))
    decreases o, 0
  {
    if o.NoElse? {
      UnbranchedStays("", |before|);
    } else {
      SuiteIsTold(o.suite, before, SuiteAt(parent, index, OfElse));
    }
  }

  lemma {:induction false} HandlersAreTold(hs: Handlers, before: string, parent: Id, index: nat, position: nat)
    requires HandlersAreAuthored(hs)
    ensures Becomes(HandlersText(hs), |before|, InHandlers(hs, before, parent, index, position),
                    HandlersText(InstrumentHandlers(hs, before, parent, index, position)))
    decreases hs, 0
  {
    if hs.NoHandlers? {
      UnbranchedStays("", |before|);
    } else {
      var id := SuiteAt(parent, index, OfExcept(position));
      var here := before + hs.head;
      var rest := here + SuiteText(hs.suite);
      var suite' := SuiteText(InstrumentSuite(hs.suite, here, id));
      var more' := HandlersText(InstrumentHandlers(hs.rest, rest, parent, index, position + 1));
      var inSuite, more := InSuite(hs.suite, here, id), InHandlers(hs.rest, rest, parent, index, position + 1);
      SuiteIsTold(hs.suite, here, id);
      HandlersAreTold(hs.rest, rest, parent, index, position + 1);
      PairBecomes(SuiteText(hs.suite), HandlersText(hs.rest), |here|, inSuite, more, suite', more');
      AfterHead(hs.head, SuiteText(hs.suite) + HandlersText(hs.rest), |before|, inSuite + more, suite' + more');
    }
  }

  lemma {:induction false} SuiteIsTold(s: Suite, before: string, id: Id)
    requires SuiteIsAuthored(s)
    ensures Becomes(SuiteText(s), |before|, InSuite(s, before, id), SuiteText(InstrumentSuite(s, before, id)))
    decreases s, 0
  {
    var at := before + s.gap;
    var header := LineBefore(at);
    var inside, block' := InBlock(s.block, at, id, 0), BlockText(InstrumentBlock(s.block, at, id, 0));
    var opener := OpenerOf(SuiteBranch(id, |at|, header));
    BlockHasText(s.block);
    BlockIsTold(s.block, at, id, 0);
    SuiteBecomes(BlockText(s.block), |at|, id, header, inside, block');
    AfterHead(s.gap, BlockText(s.block), |before|, [SuiteBranch(id, |at|, header)] + inside, opener + block');
    OpenedSuiteText(s, before, id);
  }

  lemma {:induction false} OpenedSuiteText(s: Suite, before: string, id: Id)
    ensures var at := before + s.gap;
      SuiteText(InstrumentSuite(s, before, id))
      == s.gap + (OpenerOf(SuiteBranch(id, |at|, LineBefore(at))) + BlockText(InstrumentBlock(s.block, at, id, 0)))
  {
    var at := before + s.gap;
    var header := LineBefore(at);
    var call := Simple("", Record(id), "\n" + Pad(header));
    assert StmtText(call) == "" + RecordText(id) + ("\n" + Pad(header));
    JoinSuite(s.gap, Lead(header), RecordText(id), Pad(header), BlockText(InstrumentBlock(s.block, at, id, 0)));
  }

  lemma JoinSuite(gap: string, lead: string, call: string, pad: string, block: string)
    ensures (gap + lead) + (("" + call + ("\n" + pad)) + block) == gap + ((lead + call + "\n" + pad) + block)
  {
  }

  lemma {:induction false} BlockIsTold(b: Block, before: string, parent: Id, index: nat)
    requires BlockIsAuthored(b)
    ensures Becomes(BlockText(b), |before|, InBlock(b, before, parent, index),
                    BlockText(InstrumentBlock(b, before, parent, index)))
    decreases b, 0
  {
    var s := if b.Last? then b.only else b.first;
    StmtIsTold(s, before, parent, index);
    if b.More? {
      var rest := before + StmtText(s);
      BlockIsTold(b.rest, rest, parent, index + 1);
      PairBecomes(StmtText(s), BlockText(b.rest), |before|,
                  InStmt(s, before, parent, index), InBlock(b.rest, rest, parent, index + 1),
                  StmtText(InstrumentStmt(s, before, parent, index)),
                  BlockText(InstrumentBlock(b.rest, rest, parent, index + 1)));
    }
  }

  lemma {:induction false} ItemIsTold(item: Item, before: string)
    requires ItemIsAuthored(item)
    ensures Becomes(ItemText(item), |before|, InItem(item, before), ItemText(InstrumentItem(item, before)))
  {
    match item
    case Define(f) =>
      var at := before + f.head;
      BlockIsTold(f.body, at, Root(f.name), 0);
      AfterHead(f.head, BlockText(f.body), |before|, InBlock(f.body, at, Root(f.name), 0),
                BlockText(InstrumentBlock(f.body, at, Root(f.name), 0)));
    case Top(s, _) => UnbranchedStays(StmtText(s), |before|);
  }

  // The whole module.
  lemma {:induction false} ModuleIsTold(items: seq<Item>, before: string)
    requires ModuleIsAuthored(items)
    ensures Becomes(ModuleText(items), |before|, InModule(items, before), ModuleText(InstrumentModule(items, before)))
  {
    if items == [] {
      UnbranchedStays("", |before|);
    } else {
      var item, rest := items[0], before + ItemText(items[0]);
      ItemIsTold(item, before);
      ModuleIsTold(items[1..], rest);
      PairBecomes(ItemText(item), ModuleText(items[1..]), |before|, InItem(item, before), InModule(items[1..], rest),
                  ItemText(InstrumentItem(item, before)), ModuleText(InstrumentModule(items[1..], rest)));
      var all := InstrumentModule(items, before);
      assert all[0] == InstrumentItem(item, before) && all[1..] == InstrumentModule(items[1..], rest);
    }
  }
}
