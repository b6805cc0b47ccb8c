/** Putting pieces of text into a source that is otherwise left alone. */
module Splice {
  import opened Seqs

  // What is to be opened before a character and closed after one arrives outermost first; the code collects
  // it in a table keyed by position and splices the table into the lines, last position first.

  // A piece to put at a position: `Opens` goes before the character there, `Closes` after the one before.
  datatype Piece = Opens(at: nat, text: string) | Closes(at: nat, text: string)

  function OpenedBy(piece: Piece, p: nat): string {
    if piece.Opens? && piece.at == p then piece.text else ""
  }

  function ClosedBy(piece: Piece, p: nat): string {
    if piece.Closes? && piece.at == p then piece.text else ""
  }

  // What opens at `p`, outermost first, and what closes there, outermost last.
  function Openers(pieces: seq<Piece>, p: nat): string {
    if pieces == [] then "" else OpenedBy(pieces[0], p) + Openers(pieces[1..], p)
  }

  function Closers(pieces: seq<Piece>, p: nat): string {
    if pieces == [] then "" else Closers(pieces[1..], p) + ClosedBy(pieces[0], p)
  }

  // A text standing at `at`, each character between what opens before it and what closes after it.
  function Weave(text: string, at: nat, pieces: seq<Piece>): string {
    if text == "" then ""
    else Openers(pieces, at) + [text[0]] + Closers(pieces, at + 1) + Weave(text[1..], at + 1, pieces)
  }

  lemma {:induction false} WeaveSplits(a: string, b: string, at: nat, pieces: seq<Piece>)
    ensures Weave(a + b, at, pieces) == Weave(a, at, pieces) + Weave(b, at + |a|, pieces)
  {
    if a == "" {
      assert a + b == b;
    } else {
      var ab, rest := a + b, a[1..];
      assert ab[0] == a[0] && ab[1..] == rest + b;
      WeaveSplits(rest, b, at + 1, pieces);
      Associates(Openers(pieces, at) + [a[0]] + Closers(pieces, at + 1), Weave(rest, at + 1, pieces),
                 Weave(b, at + |a|, pieces));
    }
  }

  lemma {:induction false} OpenersJoin(f: seq<Piece>, g: seq<Piece>, p: nat)
    ensures Openers(f + g, p) == Openers(f, p) + Openers(g, p)
    ensures Closers(f + g, p) == Closers(g, p) + Closers(f, p)
  {
    if f == [] {
      assert f + g == g;
    } else {
      OpenersJoin(f[1..], g, p);
      assert (f + g)[0] == f[0] && (f + g)[1..] == f[1..] + g;
      Associates(OpenedBy(f[0], p), Openers(f[1..], p), Openers(g, p));
      Associates(Closers(g, p), Closers(f[1..], p), ClosedBy(f[0], p));
    }
  }

  // ---------------------------------------------------------------- what lies inside a stretch

  predicate IsInside(piece: Piece, lo: nat, hi: nat) {
    if piece.Opens? then lo <= piece.at < hi else lo < piece.at <= hi
  }

  ghost predicate Outside(pieces: seq<Piece>, lo: nat, hi: nat) {
    forall piece :: piece in pieces ==> !IsInside(piece, lo, hi)
  }

  lemma {:induction false} NothingOpensThere(pieces: seq<Piece>, lo: nat, hi: nat, p: nat)
    requires Outside(pieces, lo, hi) && lo <= p < hi
    ensures Openers(pieces, p) == "" && Closers(pieces, p + 1) == ""
  {
    if pieces != [] {
      assert !IsInside(pieces[0], lo, hi);
      NothingOpensThere(pieces[1..], lo, hi, p);
    }
  }

  lemma {:induction false} MiddleDrops(x: seq<Piece>, y: seq<Piece>, z: seq<Piece>, p: nat)
    ensures Openers(y, p) == "" ==> Openers(x + y + z, p) == Openers(x + z, p)
    ensures Closers(y, p) == "" ==> Closers(x + y + z, p) == Closers(x + z, p)
  {
    JoinThree(x, y, z, p);
    OpenersJoin(x, z, p);
    if Openers(y, p) == "" { assert Openers(x, p) + "" == Openers(x, p); }
    if Closers(y, p) == "" { assert "" + Closers(x, p) == Closers(x, p); }
  }

  lemma {:induction false} JoinThree(x: seq<Piece>, y: seq<Piece>, z: seq<Piece>, p: nat)
    ensures Openers(x + y + z, p) == (Openers(x, p) + Openers(y, p)) + Openers(z, p)
    ensures Closers(x + y + z, p) == Closers(z, p) + (Closers(y, p) + Closers(x, p))
  {
    var xy := x + y;
    OpenersJoin(x, y, p);
    OpenersJoin(xy, z, p);
  }

  // Pieces outside a stretch make no difference to it.
  lemma {:induction false} WeaveIsLocal(text: string, at: nat, x: seq<Piece>, y: seq<Piece>, z: seq<Piece>)
    requires Outside(y, at, at + |text|)
    ensures Weave(text, at, x + y + z) == Weave(text, at, x + z)
  {
    if text != "" {
      NothingOpensThere(y, at, at + |text|, at);
      MiddleDrops(x, y, z, at);
      MiddleDrops(x, y, z, at + 1);
      forall piece | piece in y
        ensures !IsInside(piece, at + 1, at + |text|)
      {
        assert !IsInside(piece, at, at + |text|);
      }
      WeaveIsLocal(text[1..], at + 1, x, y, z);
    }
  }

  lemma {:induction false} WeaveOnly(text: string, at: nat, x: seq<Piece>, y: seq<Piece>)
    requires Outside(y, at, at + |text|)
    ensures Weave(text, at, x + y) == Weave(text, at, x)
    ensures Weave(text, at, y + x) == Weave(text, at, x)
  {
    WeaveIsLocal(text, at, x, y, []);
    WeaveIsLocal(text, at, [], y, x);
    NothingJoined(x, y);
  }

  lemma NothingJoined(x: seq<Piece>, y: seq<Piece>)
    ensures x + y + [] == x + y && x + [] == x && [] + y + x == y + x && [] + x == x
  {
  }

  lemma {:induction false} WeaveNothing(text: string, at: nat, pieces: seq<Piece>)
    requires Outside(pieces, at, at + |text|)
    ensures Weave(text, at, pieces) == text
  {
    if text != "" {
      NothingOpensThere(pieces, at, at + |text|, at);
      forall piece | piece in pieces
        ensures !IsInside(piece, at + 1, at + |text|)
      {
        assert !IsInside(piece, at, at + |text|);
      }
      WeaveNothing(text[1..], at + 1, pieces);
      assert "" + [text[0]] + "" + text[1..] == text;
    }
  }

  lemma {:induction false} WeaveAgrees(text: string, at: nat, f: seq<Piece>, g: seq<Piece>)
    requires forall p: nat :: Openers(f, p) == Openers(g, p) && Closers(f, p) == Closers(g, p)
    ensures Weave(text, at, f) == Weave(text, at, g)
  {
    if text != "" { WeaveAgrees(text[1..], at + 1, f, g); }
  }

  // A piece opened first at the start of a stretch comes before all of it.
  lemma {:induction false} OpensFirst(text: string, at: nat, opener: string, pieces: seq<Piece>)
    requires text != ""
    ensures Weave(text, at, [Opens(at, opener)] + pieces) == opener + Weave(text, at, pieces)
  {
    var one, rest := [Opens(at, opener)], text[1..];
    var all := one + pieces;
    assert all[0] == one[0] && all[1..] == pieces;
    assert Closers(all, at + 1) == Closers(pieces, at + 1) + "";
    WeaveOnly(rest, at + 1, pieces, one);
    Regrouped(opener, Openers(pieces, at), [text[0]], Closers(pieces, at + 1), Weave(rest, at + 1, pieces));
  }

  lemma Regrouped(a: string, b: string, c: string, d: string, e: string)
    ensures (a + b) + c + (d + "") + e == a + (b + c + d + e)
  {
  }

  // A piece closed first at the end of a stretch comes after all of it.
  lemma {:induction false} ClosesLast(text: string, at: nat, closer: string, pieces: seq<Piece>)
    requires text != ""
    ensures Weave(text, at, [Closes(at + |text|, closer)] + pieces) == Weave(text, at, pieces) + closer
  {
    var all := [Closes(at + |text|, closer)] + pieces;
    assert all[0] == Closes(at + |text|, closer) && all[1..] == pieces;
    var rest := text[1..];
    var head := Openers(pieces, at) + [text[0]] + Closers(pieces, at + 1);
    assert Openers(all, at) == Openers(pieces, at) by { OpensNothing(all[0], at, Openers(pieces, at)); }
    if |text| == 1 {
      OneCharacterClosed(text, at, closer, all, pieces);
    } else {
      assert Closers(all, at + 1) == Closers(pieces, at + 1) by { assert ClosedBy(all[0], at + 1) == ""; }
      ClosesLast(rest, at + 1, closer, pieces);
      Associates(head, Weave(rest, at + 1, pieces), closer);
    }
  }

  lemma {:induction false} OneCharacterClosed(text: string, at: nat, closer: string, all: seq<Piece>,
                                              pieces: seq<Piece>)
    requires |text| == 1 && Openers(all, at) == Openers(pieces, at)
    requires Closers(all, at + 1) == Closers(pieces, at + 1) + closer
    ensures Weave(text, at, all) == Weave(text, at, pieces) + closer
  {
    OneCharacter(text, at, all);
    OneCharacter(text, at, pieces);
    Associates(Openers(pieces, at) + [text[0]], Closers(pieces, at + 1), closer);
  }

  lemma OpensNothing(piece: Piece, p: nat, rest: string)
    requires piece.Closes?
    ensures OpenedBy(piece, p) + rest == rest
  {
  }

  lemma {:induction false} OneCharacter(text: string, at: nat, pieces: seq<Piece>)
    requires |text| == 1
    ensures Weave(text, at, pieces) == Openers(pieces, at) + [text[0]] + Closers(pieces, at + 1)
  {
    assert Weave(text[1..], at + 1, pieces) == "";
  }

  // A stretch wrapped first is wrapped outermost, and its own opener goes with its own closer.
  lemma {:induction false} WrapsOutermost(text: string, at: nat, opener: string, closer: string, pieces: seq<Piece>)
    requires text != ""
    ensures Weave(text, at, [Closes(at + |text|, closer), Opens(at, opener)] + pieces)
            == opener + Weave(text, at, pieces) + closer
  {
    var rest := [Opens(at, opener)] + pieces;
    assert [Closes(at + |text|, closer), Opens(at, opener)] + pieces == [Closes(at + |text|, closer)] + rest;
    ClosesLast(text, at, closer, rest);
    OpensFirst(text, at, opener, pieces);
  }

  // ---------------------------------------------------------------- all at once, from a table

  function EditAt(edits: map<nat, string>, p: nat): string {
    if p in edits then edits[p] else ""
  }

  // Every edit put in at its own position of the untouched text, which begins at `at`.
  function Insert(text: string, at: nat, edits: map<nat, string>): string {
    if text == "" then EditAt(edits, at)
    else EditAt(edits, at) + [text[0]] + Insert(text[1..], at + 1, edits)
  }

  ghost predicate IsTableOf(edits: map<nat, string>, pieces: seq<Piece>) {
    forall p: nat :: EditAt(edits, p) == Closers(pieces, p) + Openers(pieces, p)
  }

  lemma {:induction false} InsertIsWeave(text: string, at: nat, edits: map<nat, string>, pieces: seq<Piece>)
    requires IsTableOf(edits, pieces)
    ensures Insert(text, at, edits) == Closers(pieces, at) + Weave(text, at, pieces) + Openers(pieces, at + |text|)
  {
    assert EditAt(edits, at) == Closers(pieces, at) + Openers(pieces, at);
    if text != "" {
      InsertIsWeave(text[1..], at + 1, edits, pieces);
      Regroup(Closers(pieces, at), Openers(pieces, at), [text[0]], Closers(pieces, at + 1),
              Weave(text[1..], at + 1, pieces), Openers(pieces, at + |text|));
    }
  }

  lemma Regroup(a: string, b: string, c: string, d: string, e: string, f: string)
    ensures (a + b) + c + (d + e + f) == a + (b + c + d + e) + f
  {
  }

  // The spliced text, each character marked as the source's own or as put in.
  function Tagged(text: string, at: nat, edits: map<nat, string>): seq<(char, bool)> {
    var put := Tag(EditAt(edits, at), false);
    if text == "" then put else put + [(text[0], true)] + Tagged(text[1..], at + 1, edits)
  }

  function Tag(text: string, own: bool): seq<(char, bool)> {
    if text == "" then [] else [(text[0], own)] + Tag(text[1..], own)
  }

  function Characters(tagged: seq<(char, bool)>): string {
    if tagged == [] then "" else [tagged[0].0] + Characters(tagged[1..])
  }

  function Own(tagged: seq<(char, bool)>): string {
    if tagged == [] then "" else (if tagged[0].1 then [tagged[0].0] else "") + Own(tagged[1..])
  }

  lemma {:induction false} CharactersJoin(a: seq<(char, bool)>, b: seq<(char, bool)>)
    ensures Characters(a + b) == Characters(a) + Characters(b)
    ensures Own(a + b) == Own(a) + Own(b)
  {
    if a == [] {
      assert a + b == b;
    } else {
      CharactersJoin(a[1..], b);
      assert (a + b)[0] == a[0] && (a + b)[1..] == a[1..] + b;
      Associates([a[0].0], Characters(a[1..]), Characters(b));
      Associates(if a[0].1 then [a[0].0] else "", Own(a[1..]), Own(b));
    }
  }

  lemma {:induction false} TagKeeps(text: string, own: bool)
    ensures Characters(Tag(text, own)) == text
    ensures Own(Tag(text, own)) == if own then text else ""
  {
    if text != "" {
      TagKeeps(text[1..], own);
      assert Tag(text, own)[1..] == Tag(text[1..], own);
      assert text == [text[0]] + text[1..];
    }
  }

  lemma OwnCharacter(c: char)
    ensures Characters([(c, true)]) == [c] && Own([(c, true)]) == [c]
  {
    assert [(c, true)][1..] == [];
  }

  // Splicing leaves the source itself alone: without what was put in, the text is the source.
  lemma {:induction false} TheSourceIsUntouched(text: string, at: nat, edits: map<nat, string>)
    ensures Characters(Tagged(text, at, edits)) == Insert(text, at, edits)
    ensures Own(Tagged(text, at, edits)) == text
  {
    var put := Tag(EditAt(edits, at), false);
    TagKeeps(EditAt(edits, at), false);
    if text != "" {
      TheSourceIsUntouched(text[1..], at + 1, edits);
      var one := [(text[0], true)];
      OwnCharacter(text[0]);
      CharactersJoin(put, one);
      CharactersJoin(put + one, Tagged(text[1..], at + 1, edits));
      assert "" + [text[0]] + text[1..] == text;
    }
  }
}
