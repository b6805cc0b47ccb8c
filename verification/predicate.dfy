/** The AND/OR/NOT filter dialect, and its rewriting for Python's precedence. */
module Predicate {
  import opened Seqs
  import opened Wrappers

  // The rewriting never parses. It replaces every OR by `) | (`, every AND by `) & (`, every NOT by `not`,
  // and wraps the whole once per operator kind it met, whatever parentheses the author wrote. Python reads the
  // result, to check the filter, and this module gives both grammars a reader and shows that the two readings
  // agree. What runs the filter reads it by another precedence: that is in FilterRun.
  //
  // Text is a sequence of words: an atom (a comparison, a column test, a constant) is one word, and each of
  // AND, OR and NOT stands alone between whitespace.

  datatype Word =
    | Atom(text: string)
    | NotWord | AndWord | OrWord      // the dialect's operators
    | Open | Close
    | PyNot | Bar | Amp               // Python's `not`, `|` and `&`

  type Text = seq<Word>

  // ---------------------------------------------------------------- the rewriting

  function Split(s: Text, sep: Word): (parts: seq<Text>)
    ensures |parts| >= 1
    ensures |parts| == 1 <==> sep !in s
  {
    if s == [] then [[]]
    else
      var rest := Split(s[1..], sep);
      if s[0] == sep then [[]] + rest else [[s[0]] + rest[0]] + rest[1..]
  }

  function JoinWrapped(parts: seq<Text>, joiner: Word): Text
    requires |parts| >= 1
  {
    if |parts| == 1 then [Open] + parts[0] + [Close]
    else [Open] + parts[0] + [Close, joiner] + JoinWrapped(parts[1..], joiner)
  }

  function SplitWrap(s: Text, sep: Word, joiner: Word): Text {
    var parts := Split(s, sep);
    if |parts| <= 1 then s else JoinWrapped(parts, joiner)
  }

  function RewriteNot(s: Text): (r: Text)
    ensures |r| == |s|
    ensures forall i :: 0 <= i < |s| ==> r[i] == if s[i] == NotWord then PyNot else s[i]
  {
    if s == [] then [] else [if s[0] == NotWord then PyNot else s[0]] + RewriteNot(s[1..])
  }

  function Normalize(s: Text): Text {
    SplitWrap(SplitWrap(RewriteNot(s), OrWord, Bar), AndWord, Amp)
  }

  // ---------------------------------------------------------------- both grammars, one tree

  // A nonempty list of alternatives, each a nonempty list of conjuncts, each a unary operand.
  datatype OrList = LastOr(a: AndList) | ConsOr(a: AndList, more: OrList)
  datatype AndList = LastAnd(u: Unary) | ConsAnd(u: Unary, rest: AndList)
  datatype Unary = NotOf(u: Unary) | Leaf(text: string) | Group(o: OrList)

  // What either reading means: both languages nest a chain of one operator to the left.
  datatype Tree = Test(text: string) | Negation(t: Tree) | Both(l: Tree, r: Tree) | Either(l: Tree, r: Tree)

  function UnaryTree(u: Unary): Tree
    decreases u, 0
  {
    match u
    case NotOf(v) => Negation(UnaryTree(v))
    case Leaf(text) => Test(text)
    case Group(o) => OrTree(o)
  }

  function AndTree(a: AndList): Tree
    decreases a, 1
  {
    match a
    case LastAnd(u) => UnaryTree(u)
    case ConsAnd(u, rest) => AndFold(UnaryTree(u), rest)
  }

  function AndFold(left: Tree, a: AndList): Tree
    decreases a, 0
  {
    match a
    case LastAnd(u) => Both(left, UnaryTree(u))
    case ConsAnd(u, rest) => AndFold(Both(left, UnaryTree(u)), rest)
  }

  function OrTree(o: OrList): Tree
    decreases o, 1
  {
    match o
    case LastOr(a) => AndTree(a)
    case ConsOr(a, more) => OrFold(AndTree(a), more)
  }

  function OrFold(left: Tree, o: OrList): Tree
    decreases o, 0
  {
    match o
    case LastOr(a) => Either(left, AndTree(a))
    case ConsOr(a, more) => OrFold(Either(left, AndTree(a)), more)
  }

  // Dialect text: OR loosest, then AND, then NOT; parentheses around a group.
  function OrText(o: OrList): (s: Text)
    ensures |s| > 0
  {
    match o
    case LastOr(a) => AndText(a)
    case ConsOr(a, more) => AndText(a) + [OrWord] + OrText(more)
  }

  function AndText(a: AndList): (s: Text)
    ensures |s| > 0
  {
    match a
    case LastAnd(u) => UnaryText(u)
    case ConsAnd(u, rest) => UnaryText(u) + [AndWord] + AndText(rest)
  }

  function UnaryText(u: Unary): (s: Text)
    ensures |s| > 0
  {
    match u
    case NotOf(v) => [NotWord] + UnaryText(v)
    case Leaf(text) => [Atom(text)]
    case Group(o) => [Open] + OrText(o) + [Close]
  }

  // Python text: `not` is loosest and takes a comparison or a `|` chain, `&` binds tighter than `|`,
  // and an operand of either is a parenthesised test (section 6.17 of the Python Language Reference).
  function PyTestText(u: Unary): (s: Text)
    ensures |s| > 0
    decreases u, 2
  {
    match u
    case NotOf(v) => [PyNot] + PyTestText(v)
    case Leaf(text) => [Atom(text)]
    case Group(o) => PyOrText(o)
  }

  function PyOrText(o: OrList): (s: Text)
    ensures |s| > 0 && s[0] == Open
    decreases o, 1
  {
    match o
    case LastOr(a) => PyAndText(a)
    case ConsOr(a, more) => PyAndText(a) + [Bar] + PyOrText(more)
  }

  function PyAndText(a: AndList): (s: Text)
    ensures |s| > 0 && s[0] == Open
    decreases a, 0
  {
    match a
    case LastAnd(u) => PyOperandText(u)
    case ConsAnd(u, rest) => PyOperandText(u) + [Amp] + PyAndText(rest)
  }

  function PyOperandText(u: Unary): (s: Text)
    ensures |s| > 0 && s[0] == Open
    decreases u, 3
  {
    [Open] + PyTestText(u) + [Close]
  }

  // ---------------------------------------------------------------- the two readers

  function ReadOr(s: Text): (r: Option<(OrList, Text)>)
    ensures r.Some? ==> s == OrText(r.value.0) + r.value.1
    decreases |s|, 2
  {
    var (a, rest) :- ReadAnd(s);
    if rest != [] && rest[0] == OrWord then
      var (more, tail) :- ReadOr(rest[1..]);
      assert s == AndText(a) + [OrWord] + rest[1..];
      Some((ConsOr(a, more), tail))
    else Some((LastOr(a), rest))
  }

  function ReadAnd(s: Text): (r: Option<(AndList, Text)>)
    ensures r.Some? ==> s == AndText(r.value.0) + r.value.1
    decreases |s|, 1
  {
    var (u, rest) :- ReadUnary(s);
    if rest != [] && rest[0] == AndWord then
      var (more, tail) :- ReadAnd(rest[1..]);
      assert s == UnaryText(u) + [AndWord] + rest[1..];
      Some((ConsAnd(u, more), tail))
    else Some((LastAnd(u), rest))
  }

  function ReadUnary(s: Text): (r: Option<(Unary, Text)>)
    ensures r.Some? ==> s == UnaryText(r.value.0) + r.value.1
    decreases |s|, 0
  {
    if s == [] then None
    else match s[0]
      case NotWord =>
        var (u, rest) :- ReadUnary(s[1..]);
        Some((NotOf(u), rest))
      case Atom(text) => Some((Leaf(text), s[1..]))
      case Open =>
        var (o, rest) :- ReadOr(s[1..]);
        if rest != [] && rest[0] == Close then
          assert s == [Open] + OrText(o) + [Close] + rest[1..];
          Some((Group(o), rest[1..]))
        else None
      case _ => None
  }

  function PyReadTest(s: Text): (r: Option<(Unary, Text)>)
    ensures r.Some? ==> s == PyTestText(r.value.0) + r.value.1
    decreases |s|, 3
  {
    if s == [] then None
    else if s[0] == PyNot then
      var (u, rest) :- PyReadTest(s[1..]);
      Some((NotOf(u), rest))
    else if s[0].Atom? then Some((Leaf(s[0].text), s[1..]))
    else if s[0] == Open then
      var (o, rest) :- PyReadOr(s);
      Some((Group(o), rest))
    else None
  }

  function PyReadOr(s: Text): (r: Option<(OrList, Text)>)
    ensures r.Some? ==> s == PyOrText(r.value.0) + r.value.1
    decreases |s|, 2
  {
    var (a, rest) :- PyReadAnd(s);
    if rest != [] && rest[0] == Bar then
      var (more, tail) :- PyReadOr(rest[1..]);
      assert s == PyAndText(a) + [Bar] + rest[1..];
      Some((ConsOr(a, more), tail))
    else Some((LastOr(a), rest))
  }

  function PyReadAnd(s: Text): (r: Option<(AndList, Text)>)
    ensures r.Some? ==> s == PyAndText(r.value.0) + r.value.1
    decreases |s|, 1
  {
    var (u, rest) :- PyReadOperand(s);
    if rest != [] && rest[0] == Amp then
      var (more, tail) :- PyReadAnd(rest[1..]);
      assert s == PyOperandText(u) + [Amp] + rest[1..];
      Some((ConsAnd(u, more), tail))
    else Some((LastAnd(u), rest))
  }

  function PyReadOperand(s: Text): (r: Option<(Unary, Text)>)
    ensures r.Some? ==> s == PyOperandText(r.value.0) + r.value.1
    decreases |s|, 0
  {
    if s == [] || s[0] != Open then None
    else
      var (u, rest) :- PyReadTest(s[1..]);
      if rest == [] || rest[0] != Close then None
      else
        assert s == [Open] + PyTestText(u) + [Close] + rest[1..];
        Some((u, rest[1..]))
  }

  // What an author meant by a filter, and what Python makes of a text.
  function DialectMeaning(s: Text): Option<Tree> {
    var (o, rest) :- ReadOr(s);
    if rest == [] then Some(OrTree(o)) else None
  }

  function PythonMeaning(s: Text): Option<Tree> {
    var (u, rest) :- PyReadTest(s);
    if rest == [] then Some(UnaryTree(u)) else None
  }

  // ---------------------------------------------------------------- the readers are complete

  ghost predicate StopsOr(rest: Text) {
    rest == [] || (rest[0] != OrWord && rest[0] != AndWord)
  }

  lemma {:induction false} ReadsOr(o: OrList, rest: Text)
    requires StopsOr(rest)
    ensures ReadOr(OrText(o) + rest) == Some((o, rest))
    decreases o, 2
  {
    match o
    case LastOr(a) => ReadsAnd(a, rest);
    case ConsOr(a, more) =>
      Between(AndText(a), OrWord, OrText(more), rest);
      ReadsAnd(a, [OrWord] + (OrText(more) + rest));
      ReadsOr(more, rest);
  }

  lemma {:induction false} ReadsAnd(a: AndList, rest: Text)
    requires rest == [] || rest[0] != AndWord
    ensures ReadAnd(AndText(a) + rest) == Some((a, rest))
    decreases a, 1
  {
    match a
    case LastAnd(u) => ReadsUnary(u, rest);
    case ConsAnd(u, more) =>
      Between(UnaryText(u), AndWord, AndText(more), rest);
      ReadsUnary(u, [AndWord] + (AndText(more) + rest));
      ReadsAnd(more, rest);
  }

  lemma {:induction false} ReadsUnary(u: Unary, rest: Text)
    ensures ReadUnary(UnaryText(u) + rest) == Some((u, rest))
    decreases u, 0
  {
    match u
    case NotOf(v) =>
      Between([], NotWord, UnaryText(v), rest);
      ReadsUnary(v, rest);
    case Leaf(text) => Between([], Atom(text), [], rest);
    case Group(o) =>
      Associates([Open], OrText(o), [Close]);
      Between([], Open, OrText(o) + [Close], rest);
      Between(OrText(o), Close, [], rest);
      ReadsOr(o, [Close] + rest);
  }

  // A word between two texts, with more to come.
  lemma {:induction false} Between(a: Text, w: Word, b: Text, rest: Text)
    ensures (a + [w] + b) + rest == a + ([w] + (b + rest))
    ensures ([w] + (b + rest))[0] == w && ([w] + (b + rest))[1..] == b + rest
    ensures a == [] ==> a + [w] + b == [w] + b && a + ([w] + (b + rest)) == [w] + (b + rest)
    ensures b == [] ==> a + [w] + b == a + [w] && b + rest == rest
  {
  }

  lemma {:induction false} PyReadsTest(u: Unary, rest: Text)
    requires rest == [] || (rest[0] != Bar && rest[0] != Amp)
    ensures PyReadTest(PyTestText(u) + rest) == Some((u, rest))
    decreases u, 2
  {
    match u
    case NotOf(v) =>
      PyReadsTest(v, rest);
      assert (PyTestText(u) + rest)[1..] == PyTestText(v) + rest;
    case Leaf(text) => assert (PyTestText(u) + rest)[1..] == rest;
    case Group(o) => PyReadsOr(o, rest);
  }

  lemma {:induction false} PyReadsOr(o: OrList, rest: Text)
    requires rest == [] || (rest[0] != Bar && rest[0] != Amp)
    ensures PyReadOr(PyOrText(o) + rest) == Some((o, rest))
    decreases o, 2
  {
    match o
    case LastOr(a) => PyReadsAnd(a, rest);
    case ConsOr(a, more) =>
      Between(PyAndText(a), Bar, PyOrText(more), rest);
      PyReadsAnd(a, [Bar] + (PyOrText(more) + rest));
      PyReadsOr(more, rest);
  }

  lemma {:induction false} PyReadsAnd(a: AndList, rest: Text)
    requires rest == [] || rest[0] != Amp
    ensures PyReadAnd(PyAndText(a) + rest) == Some((a, rest))
    decreases a, 1
  {
    match a
    case LastAnd(u) => PyReadsOperand(u, rest);
    case ConsAnd(u, more) =>
      Between(PyOperandText(u), Amp, PyAndText(more), rest);
      PyReadsOperand(u, [Amp] + (PyAndText(more) + rest));
      PyReadsAnd(more, rest);
  }

  lemma {:induction false} PyReadsOperand(u: Unary, rest: Text)
    ensures PyReadOperand(PyOperandText(u) + rest) == Some((u, rest))
    decreases u, 3
  {
    PyReadsTest(u, [Close] + rest);
    assert (PyOperandText(u) + rest)[1..] == PyTestText(u) + ([Close] + rest);
    assert ([Close] + rest)[1..] == rest;
  }

  // ---------------------------------------------------------------- what the rewriting does to text

  // The whole rewriting, word by word, before any wrapping.
  function Spread(s: Text): Text {
    if s == [] then [] else SpreadWord(s[0]) + Spread(s[1..])
  }

  function SpreadWord(w: Word): Text {
    match w
    case NotWord => [PyNot]
    case OrWord => [Close, Bar, Open]
    case AndWord => [Close, Amp, Open]
    case _ => [w]
  }

  function Substitute(s: Text, sep: Word, joiner: Word): Text {
    if s == [] then []
    else (if s[0] == sep then [Close, joiner, Open] else [s[0]]) + Substitute(s[1..], sep, joiner)
  }

  lemma {:induction false} SpreadJoins(a: Text, b: Text)
    ensures Spread(a + b) == Spread(a) + Spread(b)
  {
    if a == [] {
      assert a + b == b;
    } else {
      SpreadJoins(a[1..], b);
      assert (a + b)[0] == a[0] && (a + b)[1..] == a[1..] + b;
      Associates(SpreadWord(a[0]), Spread(a[1..]), Spread(b));
    }
  }

  lemma {:induction false} SubstituteJoins(a: Text, b: Text, sep: Word, joiner: Word)
    ensures Substitute(a + b, sep, joiner) == Substitute(a, sep, joiner) + Substitute(b, sep, joiner)
  {
    if a == [] {
      assert a + b == b;
    } else {
      SubstituteJoins(a[1..], b, sep, joiner);
      assert (a + b)[0] == a[0] && (a + b)[1..] == a[1..] + b;
      Associates(if a[0] == sep then [Close, joiner, Open] else [a[0]], Substitute(a[1..], sep, joiner),
                 Substitute(b, sep, joiner));
    }
  }

  lemma {:induction false} JoiningSubstitutes(s: Text, sep: Word, joiner: Word)
    ensures JoinWrapped(Split(s, sep), joiner) == [Open] + Substitute(s, sep, joiner) + [Close]
  {
    if s != [] {
      var rest := Split(s[1..], sep);
      var tail := Substitute(s[1..], sep, joiner);
      JoiningSubstitutes(s[1..], sep, joiner);
      if s[0] == sep {
        assert Split(s, sep)[1..] == rest;
        RegroupFirst(Open, Close, joiner, tail);
      } else {
        JoinWrappedConses(s[0], rest, joiner);
        Bracketed(Open, s[0], tail, Close);
      }
    }
  }

  lemma {:induction false} RegroupFirst<T>(o: T, c: T, j: T, tail: seq<T>)
    ensures [o] + [] + [c, j] + ([o] + tail + [c]) == [o] + ([c, j, o] + tail) + [c]
  {
    assert [c, j, o] == [c, j] + [o];
  }

  lemma {:induction false} Bracketed<T>(o: T, x: T, tail: seq<T>, c: T)
    ensures [o, x] + ([o] + tail + [c])[1..] == [o] + ([x] + tail) + [c]
  {
    assert ([o] + tail + [c])[1..] == tail + [c];
  }

  lemma {:induction false} JoinWrappedConses(w: Word, parts: seq<Text>, joiner: Word)
    requires |parts| >= 1
    ensures JoinWrapped(parts, joiner) != []
    ensures JoinWrapped([[w] + parts[0]] + parts[1..], joiner) == [Open, w] + JoinWrapped(parts, joiner)[1..]
  {
    var longer := [[w] + parts[0]] + parts[1..];
    assert longer[1..] == parts[1..];
  }

  lemma {:induction false} SplitWrapIs(s: Text, sep: Word, joiner: Word)
    ensures SplitWrap(s, sep, joiner) ==
            if sep in s then [Open] + Substitute(s, sep, joiner) + [Close] else s
  {
    JoiningSubstitutes(s, sep, joiner);
  }

  ghost predicate IsDialectWord(w: Word) {
    !w.PyNot? && !w.Bar? && !w.Amp?
  }

  ghost predicate IsDialectText(s: Text) {
    forall i :: 0 <= i < |s| ==> IsDialectWord(s[i])
  }

  // Substituting OR and then AND in the NOT-rewritten text is one word-by-word pass.
  lemma {:induction false} SubstitutingSpreads(s: Text)
    requires IsDialectText(s)
    ensures Substitute(Substitute(RewriteNot(s), OrWord, Bar), AndWord, Amp) == Spread(s)
  {
    if s != [] {
      SubstitutingSpreads(s[1..]);
      var w := if s[0] == NotWord then PyNot else s[0];
      assert RewriteNot(s)[1..] == RewriteNot(s[1..]);
      var head: Text := if w == OrWord then [Close, Bar, Open] else [w];
      SubstituteJoins(head, Substitute(RewriteNot(s[1..]), OrWord, Bar), AndWord, Amp);
      assert Substitute(head, AndWord, Amp) == SpreadWord(s[0]) by {
        if w == OrWord {
          assert head == [Close] + [Bar, Open] && head[1..] == [Bar, Open] && [Bar, Open][1..] == [Open];
        }
      }
    }
  }

  // A separator the text does not hold leaves it as it was.
  lemma {:induction false} SubstitutingNothing(s: Text, sep: Word, joiner: Word)
    requires sep !in s
    ensures Substitute(s, sep, joiner) == s
  {
    if s != [] {
      assert s[0] in s;
      assert forall w :: w in s[1..] ==> w in s;
      SubstitutingNothing(s[1..], sep, joiner);
    }
  }

  lemma {:induction false} SubstitutingKeeps(s: Text, w: Word)
    requires w != OrWord && w != Bar && w != Open && w != Close
    ensures w in Substitute(s, OrWord, Bar) <==> w in s
  {
    if s != [] {
      SubstitutingKeeps(s[1..], w);
      assert s == [s[0]] + s[1..];
    }
  }

  // How many times the rewriting wraps the whole: once per operator kind the text holds.
  function Wrapped(s: Text): Text {
    var once := if OrWord in s then [Open] + s + [Close] else s;
    if AndWord in s then [Open] + once + [Close] else once
  }

  lemma {:induction false} NormalizeSpreads(s: Text)
    requires IsDialectText(s)
    ensures Normalize(s) == Spread(Wrapped(s))
  {
    var bare := RewriteNot(s);
    assert OrWord in bare <==> OrWord in s;
    assert AndWord in bare <==> AndWord in s;
    var ored := Substitute(bare, OrWord, Bar);
    SubstitutingKeeps(bare, AndWord);
    SubstitutingSpreads(s);
    OneWrap(bare, OrWord, Bar);
    var once := if OrWord in s then [Open] + ored + [Close] else ored;
    assert AndWord in once <==> AndWord in ored;
    OneWrap(once, AndWord, Amp);
    SubstituteWraps(ored);
    SpreadWraps(s);
    SpreadWraps(if OrWord in s then [Open] + s + [Close] else s);
  }

  lemma {:induction false} OneWrap(s: Text, sep: Word, joiner: Word)
    ensures SplitWrap(s, sep, joiner) ==
            if sep in s then [Open] + Substitute(s, sep, joiner) + [Close] else Substitute(s, sep, joiner)
  {
    SplitWrapIs(s, sep, joiner);
    if sep !in s { SubstitutingNothing(s, sep, joiner); }
  }

  lemma {:induction false} SubstituteWraps(s: Text)
    ensures Substitute([Open] + s + [Close], AndWord, Amp) == [Open] + Substitute(s, AndWord, Amp) + [Close]
  {
    SubstituteJoins([Open] + s, [Close], AndWord, Amp);
    SubstituteJoins([Open], s, AndWord, Amp);
  }

  lemma {:induction false} SpreadWraps(s: Text)
    ensures Spread([Open] + s + [Close]) == [Open] + Spread(s) + [Close]
  {
    SpreadJoins([Open] + s, [Close]);
    SpreadJoins([Open], s);
  }

  // The trick: the spread text of a unary operand is Python's own text of that operand. A group's
  // parentheses become the outermost pair of its first and last operand.
  lemma {:induction false} SpreadIsPython(u: Unary)
    ensures Spread(UnaryText(u)) == PyTestText(u)
    decreases u, 2
  {
    match u
    case NotOf(v) =>
      SpreadJoins([NotWord], UnaryText(v));
      SpreadIsPython(v);
    case Leaf(text) =>
    case Group(o) =>
      SpreadWraps(OrText(o));
      WrappedOrIsPython(o);
  }

  lemma {:induction false} WrappedOrIsPython(o: OrList)
    ensures [Open] + Spread(OrText(o)) + [Close] == PyOrText(o)
    decreases o, 1
  {
    WrappedAndIsPython(o.a);
    if o.ConsOr? {
      WrappedOrIsPython(o.more);
      SpreadAtAnOperator(AndText(o.a), OrWord, OrText(o.more));
    }
  }

  lemma {:induction false} WrappedAndIsPython(a: AndList)
    ensures [Open] + Spread(AndText(a)) + [Close] == PyAndText(a)
    decreases a, 0
  {
    SpreadIsPython(a.u);
    if a.ConsAnd? {
      WrappedAndIsPython(a.rest);
      SpreadAtAnOperator(UnaryText(a.u), AndWord, AndText(a.rest));
    }
  }

  lemma {:induction false} SpreadAtAnOperator(left: Text, op: Word, right: Text)
    requires op == OrWord || op == AndWord
    ensures [Open] + Spread(left + [op] + right) + [Close]
         == ([Open] + Spread(left) + [Close]) + [if op == OrWord then Bar else Amp] + ([Open] + Spread(right) + [Close])
  {
    SpreadJoins(left + [op], right);
    SpreadJoins(left, [op]);
    SpreadOne(op);
    Regroup(Open, Spread(left), Close, if op == OrWord then Bar else Amp, Spread(right));
  }

  lemma {:induction false} SpreadOne(w: Word)
    ensures Spread([w]) == SpreadWord(w)
  {
    assert [w][1..] == [];
  }

  // Brackets and a separator around two stretches, grouped either way.
  lemma {:induction false} Regroup<T>(o: T, left: seq<T>, c: T, j: T, right: seq<T>)
    ensures [o] + (left + [c, j, o] + right) + [c] == ([o] + left + [c]) + [j] + ([o] + right + [c])
  {
    assert [c, j, o] == [c] + [j] + [o];
  }

  // No two texts spread to one: `|` and `&` occur only where an operator put them.
  lemma {:induction false} SpreadIsInjective(a: Text, b: Text)
    requires IsDialectText(a) && IsDialectText(b)
    requires Spread(a) == Spread(b)
    ensures a == b
  {
    if a != [] { SpreadsToItsFirstWord(a); }
    if b != [] { SpreadsToItsFirstWord(b); }
    if a != [] && b != [] {
      assert Spread(a[1..]) == Spread(a)[|SpreadWord(a[0])|..];
      assert Spread(b[1..]) == Spread(b)[|SpreadWord(b[0])|..];
      SpreadIsInjective(a[1..], b[1..]);
      assert a == [a[0]] + a[1..] && b == [b[0]] + b[1..];
    }
  }

  function FirstSpreadFrom(p: Text): Word
    requires p != []
  {
    match p[0]
    case PyNot => NotWord
    case Close => if |p| > 1 && p[1] == Bar then OrWord else if |p| > 1 && p[1] == Amp then AndWord else Close
    case w => w
  }

  lemma {:induction false} SpreadsToItsFirstWord(s: Text)
    requires s != [] && IsDialectText(s)
    ensures Spread(s) != [] && s[0] == FirstSpreadFrom(Spread(s))
  {
    var p := Spread(s);
    assert p[0] == SpreadWord(s[0])[0];
    if s[0] == Close && |s| > 1 {
      assert IsDialectWord(s[1]);
      assert Spread(s[1..])[0] == SpreadWord(s[1])[0];
    }
  }

  // ---------------------------------------------------------------- main results

  lemma {:induction false} UnaryTextIsDialect(u: Unary)
    ensures IsDialectText(UnaryText(u))
    decreases u, 2
  {
    match u
    case NotOf(v) => UnaryTextIsDialect(v);
    case Leaf(text) =>
    case Group(o) => OrTextIsDialect(o);
  }

  lemma {:induction false} OrTextIsDialect(o: OrList)
    ensures IsDialectText(OrText(o))
    decreases o, 1
  {
    AndTextIsDialect(o.a);
    if o.ConsOr? { OrTextIsDialect(o.more); }
  }

  lemma {:induction false} AndTextIsDialect(a: AndList)
    ensures IsDialectText(AndText(a))
    decreases a, 0
  {
    UnaryTextIsDialect(a.u);
    if a.ConsAnd? { AndTextIsDialect(a.rest); }
  }

  // Reading a text as one unary operand.
  function UnaryMeaning(s: Text): Option<Tree> {
    var (u, rest) :- ReadUnary(s);
    if rest == [] then Some(UnaryTree(u)) else None
  }

  // On ANY text of dialect words, Python's reading of the spread text is the dialect's reading of
  // the text as one operand: neither reader accepts a text the other refuses.
  lemma {:induction false} PythonReadsTheOperand(s: Text)
    requires IsDialectText(s)
    ensures PythonMeaning(Spread(s)) == UnaryMeaning(s)
  {
    var mine := ReadUnary(s);
    if mine.Some? && mine.value.1 == [] {
      var u := mine.value.0;
      assert s == UnaryText(u) + [] == UnaryText(u);
      SpreadIsPython(u);
      PyReadsTest(u, []);
      assert PyTestText(u) + [] == PyTestText(u);
    }
    var pythons := PyReadTest(Spread(s));
    if pythons.Some? && pythons.value.1 == [] {
      var u := pythons.value.0;
      assert Spread(s) == PyTestText(u) + [] == PyTestText(u);
      SpreadIsPython(u);
      UnaryTextIsDialect(u);
      SpreadIsInjective(s, UnaryText(u));
      ReadsUnary(u, []);
      assert UnaryText(u) + [] == UnaryText(u);
    }
  }

  lemma {:induction false} AGroupIsOneOperand(s: Text)
    ensures UnaryMeaning([Open] + s + [Close]) == DialectMeaning(s)
  {
    var t := [Open] + s + [Close];
    assert t[1..] == s + [Close];
    var r := ReadOr(s);
    if r.Some? && r.value.1 == [] {
      assert s == OrText(r.value.0) + [] == OrText(r.value.0);
      ReadsOr(r.value.0, [Close]);
      assert [Close][1..] == [];
    }
    var g := ReadOr(s + [Close]);
    if g.Some? && |g.value.1| == 1 && g.value.1[0] == Close {
      var o := g.value.0;
      assert s == OrText(o) by {
        assert s + [Close] == OrText(o) + [Close];
        assert s == (s + [Close])[..|s|] && OrText(o) == (OrText(o) + [Close])[..|s|];
      }
      ReadsOr(o, []);
      assert OrText(o) + [] == OrText(o);
    }
  }

  // With no operator in sight a dialect text is one operand, and the rewriting does not wrap it.
  lemma {:induction false} WithoutOperatorsItIsOneOperand(s: Text)
    requires OrWord !in s && AndWord !in s
    ensures UnaryMeaning(s) == DialectMeaning(s)
  {
    var r := ReadUnary(s);
    if r.Some? {
      var (u, rest) := r.value;
      if rest != [] {
        assert rest[0] == s[|UnaryText(u)|];
        assert rest[0] in s;
      }
      assert ReadAnd(s) == Some((LastAnd(u), rest));
      assert ReadOr(s) == Some((LastOr(LastAnd(u)), rest));
      assert OrTree(LastOr(LastAnd(u))) == AndTree(LastAnd(u)) == UnaryTree(u);
    } else {
      assert ReadAnd(s) == None;
      assert ReadOr(s) == None;
    }
  }

  lemma {:induction false} AGroupMeansItsContents(o: OrList)
    ensures DialectMeaning(OrText(o)) == Some(OrTree(o))
    ensures DialectMeaning([Open] + OrText(o) + [Close]) == Some(OrTree(o))
  {
    ReadsOr(o, []);
    assert OrText(o) + [] == OrText(o);
    var g := LastOr(LastAnd(Group(o)));
    ReadsOr(g, []);
    assert OrText(g) + [] == OrText(g) == AndText(g.a) == [Open] + OrText(o) + [Close];
    assert OrTree(g) == AndTree(g.a) == UnaryTree(Group(o));
  }

  // The exact meaning of the rewriting, for every text of dialect words, well formed or not. Only
  // where a text holds both operators does an extra pair of parentheses join in.
  lemma {:induction false} NormalizingReads(s: Text)
    requires IsDialectText(s)
    ensures PythonMeaning(Normalize(s)) ==
            DialectMeaning(if OrWord in s && AndWord in s then [Open] + s + [Close] else s)
  {
    NormalizeSpreads(s);
    PythonReadsTheOperand(Wrapped(s));
    if OrWord in s || AndWord in s {
      if OrWord in s && AndWord in s {
        AGroupIsOneOperand([Open] + s + [Close]);
      } else {
        AGroupIsOneOperand(s);
      }
    } else {
      WithoutOperatorsItIsOneOperand(s);
    }
  }

  // Normalisation preserves meaning: a well-formed filter is read by Python as the author meant it.
  lemma {:induction false} NormalizationPreservesMeaning(o: OrList)
    ensures DialectMeaning(OrText(o)) == Some(OrTree(o))
    ensures PythonMeaning(Normalize(OrText(o))) == Some(OrTree(o))
  {
    OrTextIsDialect(o);
    NormalizingReads(OrText(o));
    AGroupMeansItsContents(o);
  }

  // ---------------------------------------------------------------- what it lets through

  function Depth(s: Text): int {
    if s == [] then 0
    else Depth(s[..|s| - 1]) + (if s[|s| - 1] == Open then 1 else if s[|s| - 1] == Close then -1 else 0)
  }

  // Every opening parenthesis is closed, and none closes before it opened.
  ghost predicate Balanced(s: Text) {
    Depth(s) == 0 && forall i :: 0 <= i <= |s| ==> Depth(s[..i]) >= 0
  }

  lemma {:induction false} DepthJoins(a: Text, b: Text)
    ensures Depth(a + b) == Depth(a) + Depth(b)
  {
    if b == [] {
      assert a + b == a;
    } else {
      DepthJoins(a, b[..|b| - 1]);
      assert (a + b)[..|a + b| - 1] == a + b[..|b| - 1];
    }
  }

  lemma {:induction false} BalancedJoins(a: Text, b: Text)
    requires Balanced(a) && Balanced(b)
    ensures Balanced(a + b)
  {
    DepthJoins(a, b);
    forall i | 0 <= i <= |a + b|
      ensures Depth((a + b)[..i]) >= 0
    {
      if i <= |a| {
        assert (a + b)[..i] == a[..i];
      } else {
        assert (a + b)[..i] == a + b[..i - |a|];
        DepthJoins(a, b[..i - |a|]);
      }
    }
  }

  lemma {:induction false} BracketDepths()
    ensures Depth([Open]) == 1 && Depth([Close]) == -1
  {
    assert [Open][..0] == [] && [Close][..0] == [];
  }

  lemma {:induction false} BalancedWraps(s: Text)
    requires Balanced(s)
    ensures Balanced([Open] + s + [Close])
  {
    var t := [Open] + s + [Close];
    DepthJoins([Open] + s, [Close]);
    DepthJoins([Open], s);
    BracketDepths();
    forall i | 0 <= i <= |t|
      ensures Depth(t[..i]) >= 0
    {
      if 0 < i <= |s| + 1 {
        assert t[..i] == [Open] + s[..i - 1];
        DepthJoins([Open], s[..i - 1]);
      } else if i == |t| {
        assert t[..i] == t;
      }
    }
  }

  lemma {:induction false} OneWordIsBalanced(w: Word)
    requires w != Open && w != Close
    ensures Balanced([w])
  {
    assert [w][..0] == [] && [w][..1] == [w];
  }

  lemma {:induction false} UnaryTextIsBalanced(u: Unary)
    ensures Balanced(UnaryText(u))
    decreases u, 2
  {
    match u
    case NotOf(v) =>
      OneWordIsBalanced(NotWord);
      UnaryTextIsBalanced(v);
      BalancedJoins([NotWord], UnaryText(v));
    case Leaf(text) => OneWordIsBalanced(Atom(text));
    case Group(o) =>
      OrTextIsBalanced(o);
      BalancedWraps(OrText(o));
  }

  lemma {:induction false} AndTextIsBalanced(a: AndList)
    ensures Balanced(AndText(a))
    decreases a, 0
  {
    UnaryTextIsBalanced(a.u);
    if a.ConsAnd? {
      OneWordIsBalanced(AndWord);
      AndTextIsBalanced(a.rest);
      BalancedJoins(UnaryText(a.u), [AndWord]);
      BalancedJoins(UnaryText(a.u) + [AndWord], AndText(a.rest));
    }
  }

  lemma {:induction false} OrTextIsBalanced(o: OrList)
    ensures Balanced(OrText(o))
    decreases o, 1
  {
    AndTextIsBalanced(o.a);
    if o.ConsOr? {
      OneWordIsBalanced(OrWord);
      OrTextIsBalanced(o.more);
      BalancedJoins(AndText(o.a), [OrWord]);
      BalancedJoins(AndText(o.a) + [OrWord], OrText(o.more));
    }
  }

  // A balanced text between parentheses can only be read as one group.
  lemma {:induction false} WrappedBalancedTextIsOneGroup(s: Text, o: OrList)
    requires Balanced(s)
    requires OrText(o) == [Open] + s + [Close]
    ensures o.LastOr? && o.a.LastAnd? && o.a.u.Group? && OrText(o.a.u.o) == s
  {
    var t := [Open] + s + [Close];
    if o.ConsOr? || o.a.ConsAnd? {
      var head := if o.a.ConsAnd? then UnaryText(o.a.u) else AndText(o.a);
      UnaryTextIsBalanced(o.a.u);
      AndTextIsBalanced(o.a);
      NoOperandEndsInside(s, head, |head|);
    } else {
      assert OrText(o) == AndText(o.a) == UnaryText(o.a.u);
      assert UnaryText(o.a.u)[0] == t[0] == Open;
      assert OrText(o.a.u.o) == t[1..|t| - 1] == s;
    }
  }

  // The first of two operands would end strictly inside, where the depth is already back at zero.
  lemma {:induction false} NoOperandEndsInside(s: Text, head: Text, n: nat)
    requires Balanced(s) && Balanced(head) && 0 < n < |s| + 2 && n == |head|
    ensures head != ([Open] + s + [Close])[..n]
  {
    var t := [Open] + s + [Close];
    if head == t[..n] {
      assert t[..n] == [Open] + s[..n - 1];
      DepthJoins([Open], s[..n - 1]);
      BracketDepths();
      assert false;
    }
  }

  // The dialect's promise is that anything else is refused. It is kept for every accepted filter
  // that balances its parentheses, and for no other.
  lemma {:induction false} AcceptedFiltersAreWellFormedWhenBalanced(s: Text)
    requires IsDialectText(s)
    requires PythonMeaning(Normalize(s)).Some?
    ensures DialectMeaning(s) == PythonMeaning(Normalize(s)) <==> Balanced(s)
    ensures DialectMeaning(s).Some? <==> Balanced(s)
  {
    NormalizingReads(s);
    var r := ReadOr(s);
    if r.Some? && r.value.1 == [] {
      assert s == OrText(r.value.0) + [] == OrText(r.value.0);
      OrTextIsBalanced(r.value.0);
      NormalizationPreservesMeaning(r.value.0);
    }
    if Balanced(s) && OrWord in s && AndWord in s {
      var t := [Open] + s + [Close];
      var o := ReadOr(t).value.0;
      assert t == OrText(o) + [] == OrText(o);
      WrappedBalancedTextIsOneGroup(s, o);
      ReadsOr(o.a.u.o, []);
      assert OrText(o.a.u.o) + [] == s;
    }
  }

  function OneTest(text: string): OrList { LastOr(LastAnd(Leaf(text))) }

  // `a ) AND ( b OR c` closes before it opens, and is accepted as `a AND (b OR c)`.
  lemma {:induction false} AnUnbalancedFilterIsAccepted(a: string, b: string, c: string)
    ensures var s := [Atom(a), Close, AndWord, Open, Atom(b), OrWord, Atom(c)];
            DialectMeaning(s) == None
            && PythonMeaning(Normalize(s)) == Some(Both(Test(a), Either(Test(b), Test(c))))
  {
    var s := [Atom(a), Close, AndWord, Open, Atom(b), OrWord, Atom(c)];
    var grouped := ItIsAGroup(a, b, c);
    AGroupMeansItsContents(grouped);
    ItMeansAAndBOrC(a, b, c);
    assert s[2] == AndWord && s[5] == OrWord;
    NormalizingReads(s);
    ItIsUnbalanced(a, s);
    AcceptedFiltersAreWellFormedWhenBalanced(s);
  }

  lemma {:induction false} ItIsAGroup(a: string, b: string, c: string) returns (grouped: OrList)
    ensures grouped == LastOr(ConsAnd(Group(OneTest(a)), LastAnd(Group(ConsOr(LastAnd(Leaf(b)), OneTest(c))))))
    ensures OrText(grouped) == [Open] + [Atom(a), Close, AndWord, Open, Atom(b), OrWord, Atom(c)] + [Close]
  {
    var bOrC := ConsOr(LastAnd(Leaf(b)), OneTest(c));
    var right := LastAnd(Group(bOrC));
    grouped := LastOr(ConsAnd(Group(OneTest(a)), right));
    assert OrText(OneTest(a)) == AndText(OneTest(a).a) == [Atom(a)];
    assert OrText(OneTest(c)) == AndText(OneTest(c).a) == [Atom(c)];
    assert OrText(bOrC) == AndText(bOrC.a) + [OrWord] + [Atom(c)] == [Atom(b), OrWord, Atom(c)];
    assert AndText(right) == UnaryText(Group(bOrC)) == [Open, Atom(b), OrWord, Atom(c), Close];
    assert UnaryText(Group(OneTest(a))) == [Open, Atom(a), Close];
    assert OrText(grouped) == AndText(grouped.a);
  }

  lemma {:induction false} ItIsUnbalanced(a: string, s: Text)
    requires |s| >= 2 && s[0] == Atom(a) && s[1] == Close
    ensures !Balanced(s)
  {
    DepthJoins([Atom(a)], [Close]);
    OneWordIsBalanced(Atom(a));
    BracketDepths();
    assert s[..2] == [Atom(a)] + [Close];
    assert Depth(s[..2]) == -1;
  }

  lemma {:induction false} ItMeansAAndBOrC(a: string, b: string, c: string)
    ensures OrTree(LastOr(ConsAnd(Group(OneTest(a)), LastAnd(Group(ConsOr(LastAnd(Leaf(b)), OneTest(c)))))))
         == Both(Test(a), Either(Test(b), Test(c)))
  {
    var bOrC := ConsOr(LastAnd(Leaf(b)), OneTest(c));
    assert OrTree(OneTest(a)) == AndTree(LastAnd(Leaf(a))) == UnaryTree(Leaf(a));
    assert AndTree(LastAnd(Leaf(b))) == UnaryTree(Leaf(b));
    assert AndTree(LastAnd(Leaf(c))) == UnaryTree(Leaf(c));
    assert OrTree(bOrC) == OrFold(Test(b), OneTest(c)) == Either(Test(b), Test(c));
    var right := LastAnd(Group(bOrC));
    assert AndFold(Test(a), right) == Both(Test(a), UnaryTree(Group(bOrC)));
    assert AndTree(ConsAnd(Group(OneTest(a)), right)) == AndFold(UnaryTree(Group(OneTest(a))), right);
  }
}
