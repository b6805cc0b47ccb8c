/** The expressions of row code as a grammar reads them, and that it reads what was written. */
module RowReader {
  import opened BranchIds
  import opened RowCode
  import opened Wrappers

  // Of what stands between an expression's words only the words matter: names, operators, parentheses.
  datatype Word =
    | Term(text: string)
    | Later(text: string)
    | Callee(name: string)
    | Op(text: string)
    | OrWord | IfWord | ElseWord | OpenWord | CloseWord

  function Words(e: Expr): seq<Word> {
    match e
    case Atom(text) => [Term(text)]
    case Paren(_, inner, _) => [OpenWord] + Words(inner) + [CloseWord]
    case Binary(l, op, r) => Words(l) + [Op(op)] + Words(r)
    case Or(l, _, r) => Words(l) + [OrWord] + Words(r)
    case Call(callee, _, arg, _) => [Callee(callee), OpenWord] + Words(arg) + [CloseWord]
    case Choice(b, _, t, _, o) => (Words(b) + [IfWord] + Words(t)) + [ElseWord] + Words(o)
    case Deferred(text) => [Later(text)]
    case Record(id) => [Callee(RECORDER), OpenWord] + [Term(Quoted(id))] + [CloseWord]
  }

  // ---------------------------------------------------------------- the grammar

  // A conditional expression, a chain of `or`, a chain of the operators above it, and what stands for itself
  // (sections 6.11 to 6.13 of the Python Language Reference). How the operators bind among themselves is
  // left open: the rewriting puts nothing between them.
  datatype Test = Pick(body: Ors, test: Ors, orelse: Test) | Plain(ors: Ors) | Deferring(text: string)

  datatype Ors = LastOr(c: Chain) | ConsOr(c: Chain, more: Ors)

  datatype Chain = LastTerm(p: Primary) | ConsTerm(p: Primary, op: string, rest: Chain)

  datatype Primary = Name(text: string) | Group(t: Test) | Calling(callee: string, arg: Test)

  function TestWords(t: Test): (s: seq<Word>)
    ensures s != []
    decreases t, 1
  {
    match t
    case Pick(b, c, o) => (OrsWords(b) + [IfWord] + OrsWords(c)) + [ElseWord] + TestWords(o)
    case Plain(ors) => OrsWords(ors)
    case Deferring(text) => [Later(text)]
  }

  function OrsWords(o: Ors): (s: seq<Word>)
    ensures s != []
    decreases o, 1
  {
    match o
    case LastOr(c) => ChainWords(c)
    case ConsOr(c, more) => ChainWords(c) + [OrWord] + OrsWords(more)
  }

  function ChainWords(c: Chain): (s: seq<Word>)
    ensures s != []
    decreases c, 1
  {
    match c
    case LastTerm(p) => PrimaryWords(p)
    case ConsTerm(p, op, rest) => PrimaryWords(p) + [Op(op)] + ChainWords(rest)
  }

  function PrimaryWords(p: Primary): (s: seq<Word>)
    ensures s != [] && !s[0].Later?
    decreases p, 1
  {
    match p
    case Name(text) => [Term(text)]
    case Group(t) => [OpenWord] + TestWords(t) + [CloseWord]
    case Calling(callee, arg) => [Callee(callee), OpenWord] + TestWords(arg) + [CloseWord]
  }

  // ---------------------------------------------------------------- the reader

  function ReadTest(s: seq<Word>): (r: Option<(Test, seq<Word>)>)
    ensures r.Some? ==> s == TestWords(r.value.0) + r.value.1
    decreases |s|, 3
  {
    if s != [] && s[0].Later? then Some((Deferring(s[0].text), s[1..]))
    else
      var (b, rest) :- ReadOrs(s);
      if rest == [] || rest[0] != IfWord then Some((Plain(b), rest))
      else
        var (c, after) :- ReadOrs(rest[1..]);
        if after == [] || after[0] != ElseWord then None
        else
          var (o, tail) :- ReadTest(after[1..]);
          assert s == (OrsWords(b) + [IfWord] + OrsWords(c)) + [ElseWord] + after[1..];
          Some((Pick(b, c, o), tail))
  }

  function ReadOrs(s: seq<Word>): (r: Option<(Ors, seq<Word>)>)
    ensures r.Some? ==> s == OrsWords(r.value.0) + r.value.1
    decreases |s|, 2
  {
    var (c, rest) :- ReadChain(s);
    if rest != [] && rest[0] == OrWord then
      var (more, tail) :- ReadOrs(rest[1..]);
      assert s == ChainWords(c) + [OrWord] + rest[1..];
      Some((ConsOr(c, more), tail))
    else Some((LastOr(c), rest))
  }

  function ReadChain(s: seq<Word>): (r: Option<(Chain, seq<Word>)>)
    ensures r.Some? ==> s == ChainWords(r.value.0) + r.value.1
    decreases |s|, 1
  {
    var (p, rest) :- ReadPrimary(s);
    if rest != [] && rest[0].Op? then
      var (more, tail) :- ReadChain(rest[1..]);
      assert s == PrimaryWords(p) + [rest[0]] + rest[1..];
      Some((ConsTerm(p, rest[0].text, more), tail))
    else Some((LastTerm(p), rest))
  }

  function ReadPrimary(s: seq<Word>): (r: Option<(Primary, seq<Word>)>)
    ensures r.Some? ==> s == PrimaryWords(r.value.0) + r.value.1
    decreases |s|, 0
  {
    if s == [] then None
    else if s[0].Term? then Some((Name(s[0].text), s[1..]))
    else if s[0] == OpenWord then
      var (t, rest) :- ReadTest(s[1..]);
      if rest == [] || rest[0] != CloseWord then None
      else
        assert s == [OpenWord] + TestWords(t) + [CloseWord] + rest[1..];
        Some((Group(t), rest[1..]))
    else if s[0].Callee? && |s| > 1 && s[1] == OpenWord then
      var (t, rest) :- ReadTest(s[2..]);
      if rest == [] || rest[0] != CloseWord then None
      else
        assert s == [s[0], OpenWord] + TestWords(t) + [CloseWord] + rest[1..];
        Some((Calling(s[0].name, t), rest[1..]))
    else None
  }

  // ---------------------------------------------------------------- it reads back what is written

  ghost predicate GoesOn(rest: seq<Word>, level: nat) {
    && rest != []
    && ((rest[0].Op? && level >= 1) || (rest[0] == OrWord && level >= 2) || (rest[0] == IfWord && level >= 3))
  }

  // A word between two texts, with more to come.
  lemma {:induction false} Between(a: seq<Word>, w: Word, b: seq<Word>, rest: seq<Word>)
    ensures (a + [w] + b) + rest == a + ([w] + (b + rest))
    ensures ([w] + (b + rest))[0] == w && ([w] + (b + rest))[1..] == b + rest
  {
  }

  lemma {:induction false} ReadsTest(t: Test, rest: seq<Word>)
    requires !GoesOn(rest, 3)
    ensures ReadTest(TestWords(t) + rest) == Some((t, rest))
    decreases t, 1
  {
    match t
    case Deferring(text) => assert ([Later(text)] + rest)[1..] == rest;
    case Plain(ors) =>
      ReadsOrs(ors, rest);
      NoLambda(ors);
    case Pick(b, c, o) =>
      var more := [ElseWord] + (TestWords(o) + rest);
      Between(OrsWords(b) + [IfWord] + OrsWords(c), ElseWord, TestWords(o), rest);
      Between(OrsWords(b), IfWord, OrsWords(c), more);
      ReadsOrs(b, [IfWord] + (OrsWords(c) + more));
      ReadsOrs(c, more);
      ReadsTest(o, rest);
      NoLambda(b);
  }

  lemma {:induction false} NoLambda(o: Ors)
    ensures !OrsWords(o)[0].Later?
  {
    assert OrsWords(o)[0] == ChainWords(o.c)[0] == PrimaryWords(o.c.p)[0];
  }

  lemma {:induction false} ReadsOrs(o: Ors, rest: seq<Word>)
    requires !GoesOn(rest, 2)
    ensures ReadOrs(OrsWords(o) + rest) == Some((o, rest))
    decreases o, 1
  {
    match o
    case LastOr(c) => ReadsChain(c, rest);
    case ConsOr(c, more) =>
      Between(ChainWords(c), OrWord, OrsWords(more), rest);
      ReadsChain(c, [OrWord] + (OrsWords(more) + rest));
      ReadsOrs(more, rest);
  }

  lemma {:induction false} ReadsChain(c: Chain, rest: seq<Word>)
    requires !GoesOn(rest, 1)
    ensures ReadChain(ChainWords(c) + rest) == Some((c, rest))
    decreases c, 1
  {
    match c
    case LastTerm(p) => ReadsPrimary(p, rest);
    case ConsTerm(p, op, more) =>
      Between(PrimaryWords(p), Op(op), ChainWords(more), rest);
      ReadsPrimary(p, [Op(op)] + (ChainWords(more) + rest));
      ReadsChain(more, rest);
  }

  lemma {:induction false} ReadsPrimary(p: Primary, rest: seq<Word>)
    ensures ReadPrimary(PrimaryWords(p) + rest) == Some((p, rest))
    decreases p, 1
  {
    match p
    case Name(text) => assert ([Term(text)] + rest)[1..] == rest;
    case Group(t) =>
      ReadsTest(t, [CloseWord] + rest);
      Enclosed([OpenWord], TestWords(t), rest);
    case Calling(callee, arg) =>
      ReadsTest(arg, [CloseWord] + rest);
      Enclosed([Callee(callee), OpenWord], TestWords(arg), rest);
  }

  lemma {:induction false} Enclosed(open: seq<Word>, inner: seq<Word>, rest: seq<Word>)
    requires open != []
    ensures var s := open + inner + [CloseWord] + rest;
      s[|open|..] == inner + ([CloseWord] + rest) && |s| > |open| && forall i :: 0 <= i < |open| ==> s[i] == open[i]
    ensures ([CloseWord] + rest)[0] == CloseWord && ([CloseWord] + rest)[1..] == rest
  {
  }

  // ---------------------------------------------------------------- the tree an expression is

  function AsTest(e: Expr): Test
    requires IsGrammatical(e)
    decreases e, 3
  {
    match e
    case Choice(b, _, t, _, o) => Pick(AsOrs(b), AsOrs(t), AsTest(o))
    case Deferred(text) => Deferring(text)
    case _ => Plain(AsOrs(e))
  }

  function AsOrs(e: Expr): Ors
    requires IsGrammatical(e) && Level(e) >= 1
    decreases e, 2
  {
    match e
    case Or(l, _, r) => OrsThen(AsOrs(l), AsChain(r))
    case _ => LastOr(AsChain(e))
  }

  function OrsThen(o: Ors, c: Chain): Ors {
    match o
    case LastOr(first) => ConsOr(first, LastOr(c))
    case ConsOr(first, more) => ConsOr(first, OrsThen(more, c))
  }

  function AsChain(e: Expr): Chain
    requires IsGrammatical(e) && Level(e) >= 2
    decreases e, 1
  {
    match e
    case Binary(l, op, r) => ChainThen(AsChain(l), op, AsChain(r))
    case _ => LastTerm(AsPrimary(e))
  }

  function ChainThen(c: Chain, op: string, d: Chain): Chain {
    match c
    case LastTerm(p) => ConsTerm(p, op, d)
    case ConsTerm(p, first, rest) => ConsTerm(p, first, ChainThen(rest, op, d))
  }

  function AsPrimary(e: Expr): Primary
    requires IsGrammatical(e) && Level(e) >= 3
    decreases e, 0
  {
    match e
    case Atom(text) => Name(text)
    case Paren(_, inner, _) => Group(AsTest(inner))
    case Call(callee, _, arg, _) => Calling(callee, AsTest(arg))
    case Record(id) => Calling(RECORDER, Plain(LastOr(LastTerm(Name(Quoted(id))))))
  }

  lemma {:induction false} OrsThenWords(o: Ors, c: Chain)
    ensures OrsWords(OrsThen(o, c)) == OrsWords(o) + [OrWord] + ChainWords(c)
  {
    if o.ConsOr? {
      OrsThenWords(o.more, c);
      assert ChainWords(o.c) + [OrWord] + (OrsWords(o.more) + [OrWord] + ChainWords(c))
          == (ChainWords(o.c) + [OrWord] + OrsWords(o.more)) + [OrWord] + ChainWords(c);
    }
  }

  lemma {:induction false} ChainThenWords(c: Chain, op: string, d: Chain)
    ensures ChainWords(ChainThen(c, op, d)) == ChainWords(c) + [Op(op)] + ChainWords(d)
  {
    if c.ConsTerm? {
      ChainThenWords(c.rest, op, d);
      assert PrimaryWords(c.p) + [Op(c.op)] + (ChainWords(c.rest) + [Op(op)] + ChainWords(d))
          == (PrimaryWords(c.p) + [Op(c.op)] + ChainWords(c.rest)) + [Op(op)] + ChainWords(d);
    }
  }

  lemma {:induction false} TestIsWritten(e: Expr)
    requires IsGrammatical(e)
    ensures TestWords(AsTest(e)) == Words(e)
    decreases e, 3
  {
    match e
    case Choice(b, _, t, _, o) =>
      OrsAreWritten(b);
      OrsAreWritten(t);
      TestIsWritten(o);
    case Deferred(_) =>
    case _ => OrsAreWritten(e);
  }

  lemma {:induction false} OrsAreWritten(e: Expr)
    requires IsGrammatical(e) && Level(e) >= 1
    ensures OrsWords(AsOrs(e)) == Words(e)
    decreases e, 2
  {
    match e
    case Or(l, _, r) =>
      OrsAreWritten(l);
      ChainIsWritten(r);
      OrsThenWords(AsOrs(l), AsChain(r));
    case _ => ChainIsWritten(e);
  }

  lemma {:induction false} ChainIsWritten(e: Expr)
    requires IsGrammatical(e) && Level(e) >= 2
    ensures ChainWords(AsChain(e)) == Words(e)
    decreases e, 1
  {
    match e
    case Binary(l, op, r) =>
      ChainIsWritten(l);
      ChainIsWritten(r);
      ChainThenWords(AsChain(l), op, AsChain(r));
    case _ => PrimaryIsWritten(e);
  }

  lemma {:induction false} PrimaryIsWritten(e: Expr)
    requires IsGrammatical(e) && Level(e) >= 3
    ensures PrimaryWords(AsPrimary(e)) == Words(e)
    decreases e, 0
  {
    match e
    case Atom(_) =>
    case Paren(_, inner, _) => TestIsWritten(inner);
    case Call(_, _, arg, _) => TestIsWritten(arg);
    case Record(id) =>
      var arg := Plain(LastOr(LastTerm(Name(Quoted(id)))));
      assert TestWords(arg) == OrsWords(arg.ors) == ChainWords(arg.ors.c) == [Term(Quoted(id))];
  }

  // ---------------------------------------------------------------- main results

  function Read(s: seq<Word>): Option<Test> {
    var (t, rest) :- ReadTest(s);
    if rest == [] then Some(t) else None
  }

  // An expression whose operands fit their places is read as the tree it is.
  lemma {:induction false} ReadsWhatIsWritten(e: Expr)
    requires IsGrammatical(e)
    ensures Read(Words(e)) == Some(AsTest(e))
  {
    TestIsWritten(e);
    ReadsTest(AsTest(e), []);
    assert TestWords(AsTest(e)) + [] == Words(e);
  }

  // So is what it is rewritten to; and the words of no other tree are read so.
  lemma {:induction false} RewrittenCodeReadsBack(e: Expr, parent: Id, index: nat, n: nat)
    requires IsGrammatical(e)
    ensures var after := Instrument(e, parent, index, n);
      && IsGrammatical(after) && Read(Words(after)) == Some(AsTest(after))
      && forall other :: IsGrammatical(other) && Words(other) == Words(after) ==> AsTest(other) == AsTest(after)
  {
    var after := Instrument(e, parent, index, n);
    RewritingStaysGrammatical(e, parent, index, n);
    ReadsWhatIsWritten(after);
    forall other | IsGrammatical(other) && Words(other) == Words(after)
      ensures AsTest(other) == AsTest(after)
    {
      ReadsWhatIsWritten(other);
    }
  }
}
