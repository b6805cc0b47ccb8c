/** What an accepted filter is run as, which is not what it is read as where NOT negates a group. */
module FilterRun {
  import opened Predicate
  import opened Seqs
  import opened Wrappers

  // A filter is checked by Python's own reading and run by `DataFrame.query` or `.eval`, whose default
  // parser first puts `and` for `&` and `or` for `|`. Those bind less tightly than `not`.

  function SoftenWord(w: Word): Word {
    match w
    case PyNot => NotWord
    case Bar => OrWord
    case Amp => AndWord
    case _ => w
  }

  function Soften(s: Text): (r: Text)
    ensures |r| == |s| && forall i :: 0 <= i < |s| ==> r[i] == SoftenWord(s[i])
  {
    if s == [] then [] else [SoftenWord(s[0])] + Soften(s[1..])
  }

  // That is the dialect's own order of precedence, on the words put in for its operators.
  function RunMeaning(s: Text): Option<Tree> { DialectMeaning(Soften(s)) }

  lemma {:induction false} SoftenJoins(a: Text, b: Text)
    ensures Soften(a + b) == Soften(a) + Soften(b)
  {
  }

  // ---------------------------------------------------------------- the operand that runs

  // `not` takes the first operand only.
  function FirstNegated(o: OrList): OrList {
    match o
    case LastOr(a) => LastOr(FirstOfAndNegated(a))
    case ConsOr(a, more) => ConsOr(FirstOfAndNegated(a), more)
  }

  function FirstOfAndNegated(a: AndList): AndList {
    match a
    case LastAnd(u) => LastAnd(NotOf(u))
    case ConsAnd(u, rest) => ConsAnd(NotOf(u), rest)
  }

  // The filter whose dialect text is the softened text of `u`.
  function AsRun(u: Unary): OrList
    decreases u, 2
  {
    match u
    case NotOf(v) => FirstNegated(AsRun(v))
    case Leaf(_) => LastOr(LastAnd(u))
    case Group(o) => OrAsRun(o)
  }

  function OrAsRun(o: OrList): OrList
    decreases o, 1
  {
    match o
    case LastOr(a) => LastOr(AndAsRun(a))
    case ConsOr(a, more) => ConsOr(AndAsRun(a), OrAsRun(more))
  }

  function AndAsRun(a: AndList): AndList
    decreases a, 0
  {
    match a
    case LastAnd(u) => LastAnd(Group(AsRun(u)))
    case ConsAnd(u, rest) => ConsAnd(Group(AsRun(u)), AndAsRun(rest))
  }

  lemma {:induction false} NegatingTheFirst(o: OrList)
    ensures OrText(FirstNegated(o)) == [NotWord] + OrText(o)
  {
    var a := o.a;
    if a.ConsAnd? {
      assert [NotWord] + UnaryText(a.u) + [AndWord] + AndText(a.rest) == [NotWord] + AndText(a);
    }
    assert AndText(FirstOfAndNegated(a)) == [NotWord] + AndText(a);
    if o.ConsOr? {
      assert [NotWord] + AndText(a) + [OrWord] + OrText(o.more) == [NotWord] + OrText(o);
    }
  }

  lemma {:induction false} SoftenedIsAsRun(u: Unary)
    ensures Soften(PyTestText(u)) == OrText(AsRun(u))
    decreases u, 2
  {
    match u
    case NotOf(v) =>
      SoftenJoins([PyNot], PyTestText(v));
      SoftenedIsAsRun(v);
      NegatingTheFirst(AsRun(v));
      assert Soften([PyNot]) == [NotWord];
    case Leaf(text) =>
      assert OrText(AsRun(u)) == AndText(LastAnd(u)) == UnaryText(u) == [Atom(text)];
      assert Soften([Atom(text)]) == [Atom(text)];
    case Group(o) => SoftenedOrIsAsRun(o);
  }

  lemma {:induction false} SoftenedOrIsAsRun(o: OrList)
    ensures Soften(PyOrText(o)) == OrText(OrAsRun(o))
    decreases o, 1
  {
    SoftenedAndIsAsRun(o.a);
    if o.ConsOr? {
      SoftenedOrIsAsRun(o.more);
      SoftenJoins(PyAndText(o.a) + [Bar], PyOrText(o.more));
      SoftenJoins(PyAndText(o.a), [Bar]);
      assert Soften([Bar]) == [OrWord];
    }
  }

  lemma {:induction false} SoftenedAndIsAsRun(a: AndList)
    ensures Soften(PyAndText(a)) == AndText(AndAsRun(a))
    decreases a, 0
  {
    SoftenedOperandIsAsRun(a.u);
    if a.ConsAnd? {
      SoftenedAndIsAsRun(a.rest);
      SoftenJoins(PyOperandText(a.u) + [Amp], PyAndText(a.rest));
      SoftenJoins(PyOperandText(a.u), [Amp]);
      assert Soften([Amp]) == [AndWord];
    }
  }

  lemma {:induction false} SoftenedOperandIsAsRun(u: Unary)
    ensures Soften(PyOperandText(u)) == UnaryText(Group(AsRun(u)))
    decreases u, 3
  {
    SoftenedIsAsRun(u);
    SoftenJoins([Open] + PyTestText(u), [Close]);
    SoftenJoins([Open], PyTestText(u));
    assert Soften([Open]) == [Open] && Soften([Close]) == [Close];
  }

  // Whatever Python reads runs too, as this.
  lemma {:induction false} WhatIsReadRuns(u: Unary)
    ensures RunMeaning(PyTestText(u)) == Some(OrTree(AsRun(u)))
  {
    SoftenedIsAsRun(u);
    AGroupMeansItsContents(AsRun(u));
  }

  // ---------------------------------------------------------------- where the two trees are one

  predicate IsOne(o: OrList) { o.LastOr? && o.a.LastAnd? }

  // No NOT stands directly before a group that holds an operator at its own level.
  predicate NegatesNoGroup(u: Unary)
    decreases u, 2
  {
    match u
    case NotOf(v) => (v.Group? ==> IsOne(v.o)) && NegatesNoGroup(v)
    case Leaf(_) => true
    case Group(o) => OrNegatesNoGroup(o)
  }

  predicate OrNegatesNoGroup(o: OrList)
    decreases o, 1
  {
    AndNegatesNoGroup(o.a) && (o.ConsOr? ==> OrNegatesNoGroup(o.more))
  }

  predicate AndNegatesNoGroup(a: AndList)
    decreases a, 0
  {
    NegatesNoGroup(a.u) && (a.ConsAnd? ==> AndNegatesNoGroup(a.rest))
  }

  lemma {:induction false} NegatedIsOne(v: Unary)
    requires NegatesNoGroup(NotOf(v))
    ensures IsOne(AsRun(v))
  {
    match v
    case NotOf(u) => NegatedIsOne(u);
    case Leaf(_) =>
    case Group(o) => OneStaysOne(o);
  }

  lemma {:induction false} OneStaysOne(o: OrList)
    ensures IsOne(OrAsRun(o)) <==> IsOne(o)
  {
  }

  lemma {:induction false} RunsAsMeant(u: Unary)
    requires NegatesNoGroup(u)
    ensures OrTree(AsRun(u)) == UnaryTree(u)
    decreases u, 3
  {
    match u
    case NotOf(v) =>
      RunsAsMeant(v);
      NegatedIsOne(v);
      OneTree(AsRun(v));
      OneTree(FirstNegated(AsRun(v)));
    case Leaf(_) => OneTree(LastOr(LastAnd(u)));
    case Group(o) => OrRunsAsMeant(o);
  }

  lemma {:induction false} OneTree(o: OrList)
    requires IsOne(o)
    ensures OrTree(o) == UnaryTree(o.a.u)
  {
    assert OrTree(o) == AndTree(o.a);
  }

  lemma {:induction false} OrRunsAsMeant(o: OrList)
    requires OrNegatesNoGroup(o)
    ensures OrTree(OrAsRun(o)) == OrTree(o)
    ensures forall left :: OrFold(left, OrAsRun(o)) == OrFold(left, o)
    decreases o, 1
  {
    AndRunsAsMeant(o.a);
    if o.ConsOr? { OrRunsAsMeant(o.more); }
  }

  lemma {:induction false} AndRunsAsMeant(a: AndList)
    requires AndNegatesNoGroup(a)
    ensures AndTree(AndAsRun(a)) == AndTree(a)
    ensures forall left :: AndFold(left, AndAsRun(a)) == AndFold(left, a)
    decreases a, 0
  {
    RunsAsMeant(a.u);
    assert UnaryTree(Group(AsRun(a.u))) == UnaryTree(a.u);
    if a.ConsAnd? { AndRunsAsMeant(a.rest); }
  }

  // ---------------------------------------------------------------- and where they are not

  function Leaves(t: Tree): nat {
    match t
    case Test(_) => 1
    case Negation(u) => Leaves(u)
    case Both(l, r) => Leaves(l) + Leaves(r)
    case Either(l, r) => Leaves(l) + Leaves(r)
  }

  // How many tests each negation is over, all together.
  function Negated(t: Tree): nat {
    match t
    case Test(_) => 0
    case Negation(u) => Leaves(u) + Negated(u)
    case Both(l, r) => Negated(l) + Negated(r)
    case Either(l, r) => Negated(l) + Negated(r)
  }

  lemma {:induction false} SomeLeaf(t: Tree)
    ensures Leaves(t) > 0
  {
    match t
    case Test(_) =>
    case Negation(u) => SomeLeaf(u);
    case Both(l, r) => SomeLeaf(l);
    case Either(l, r) => SomeLeaf(l);
  }

  lemma {:induction false} AndFoldCounts(left: Tree, a: AndList)
    ensures Leaves(AndFold(left, a)) == Leaves(left) + Leaves(AndTree(a))
    ensures Negated(AndFold(left, a)) == Negated(left) + Negated(AndTree(a))
    decreases a
  {
    if a.ConsAnd? {
      AndFoldCounts(Both(left, UnaryTree(a.u)), a.rest);
      AndFoldCounts(UnaryTree(a.u), a.rest);
    }
  }

  lemma {:induction false} OrFoldCounts(left: Tree, o: OrList)
    ensures Leaves(OrFold(left, o)) == Leaves(left) + Leaves(OrTree(o))
    ensures Negated(OrFold(left, o)) == Negated(left) + Negated(OrTree(o))
    decreases o
  {
    if o.ConsOr? {
      OrFoldCounts(Either(left, AndTree(o.a)), o.more);
      OrFoldCounts(AndTree(o.a), o.more);
    }
  }

  // Negating the first operand alone is over fewer tests, unless it is the only one.
  lemma {:induction false} NegatingTheFirstCounts(o: OrList)
    ensures Leaves(OrTree(FirstNegated(o))) == Leaves(OrTree(o))
    ensures var over := Leaves(UnaryTree(o.a.u));
      && Negated(OrTree(FirstNegated(o))) == over + Negated(OrTree(o))
      && over <= Leaves(OrTree(o)) && (!IsOne(o) ==> over < Leaves(OrTree(o)))
  {
    var a := o.a;
    FirstOfAndCounts(a);
    if o.ConsOr? {
      OrFoldCounts(AndTree(a), o.more);
      OrFoldCounts(AndTree(FirstOfAndNegated(a)), o.more);
      SomeLeaf(OrTree(o.more));
    }
  }

  lemma {:induction false} FirstOfAndCounts(a: AndList)
    ensures Leaves(AndTree(FirstOfAndNegated(a))) == Leaves(AndTree(a))
    ensures var over := Leaves(UnaryTree(a.u));
      && Negated(AndTree(FirstOfAndNegated(a))) == over + Negated(AndTree(a))
      && over <= Leaves(AndTree(a)) && (a.ConsAnd? ==> over < Leaves(AndTree(a)))
  {
    if a.ConsAnd? {
      AndFoldCounts(UnaryTree(a.u), a.rest);
      AndFoldCounts(Negation(UnaryTree(a.u)), a.rest);
      SomeLeaf(AndTree(a.rest));
    }
  }

  lemma {:induction false} RunningNegatesLess(u: Unary)
    ensures Leaves(OrTree(AsRun(u))) == Leaves(UnaryTree(u))
    ensures Negated(OrTree(AsRun(u))) <= Negated(UnaryTree(u))
    ensures !NegatesNoGroup(u) ==> Negated(OrTree(AsRun(u))) < Negated(UnaryTree(u))
    decreases u, 3
  {
    match u
    case NotOf(v) =>
      RunningNegatesLess(v);
      NegatingTheFirstCounts(AsRun(v));
      if v.Group? { OneStaysOne(v.o); }
    case Leaf(_) => OneTree(LastOr(LastAnd(u)));
    case Group(o) => RunningOrNegatesLess(o);
  }

  lemma {:induction false} RunningOrNegatesLess(o: OrList)
    ensures Leaves(OrTree(OrAsRun(o))) == Leaves(OrTree(o))
    ensures Negated(OrTree(OrAsRun(o))) <= Negated(OrTree(o))
    ensures !OrNegatesNoGroup(o) ==> Negated(OrTree(OrAsRun(o))) < Negated(OrTree(o))
    decreases o, 1
  {
    RunningAndNegatesLess(o.a);
    if o.ConsOr? {
      RunningOrNegatesLess(o.more);
      OrFoldCounts(AndTree(o.a), o.more);
      OrFoldCounts(AndTree(AndAsRun(o.a)), OrAsRun(o.more));
    }
  }

  lemma {:induction false} RunningAndNegatesLess(a: AndList)
    ensures Leaves(AndTree(AndAsRun(a))) == Leaves(AndTree(a))
    ensures Negated(AndTree(AndAsRun(a))) <= Negated(AndTree(a))
    ensures !AndNegatesNoGroup(a) ==> Negated(AndTree(AndAsRun(a))) < Negated(AndTree(a))
    decreases a, 0
  {
    RunningNegatesLess(a.u);
    assert UnaryTree(Group(AsRun(a.u))) == OrTree(AsRun(a.u));
    if a.ConsAnd? {
      RunningAndNegatesLess(a.rest);
      AndFoldCounts(UnaryTree(a.u), a.rest);
      AndFoldCounts(UnaryTree(Group(AsRun(a.u))), AndAsRun(a.rest));
    }
  }

  // An operand runs as the tree it reads as exactly where it negates no such group.
  lemma {:induction false} RunsAsReadExactly(u: Unary)
    ensures RunMeaning(PyTestText(u)) == Some(UnaryTree(u)) <==> NegatesNoGroup(u)
  {
    WhatIsReadRuns(u);
    if NegatesNoGroup(u) { RunsAsMeant(u); } else { RunningNegatesLess(u); }
  }

  // ---------------------------------------------------------------- main results

  // The operand a filter is normalised to: the filter itself, in parentheses once for each kind of
  // operator it holds.
  function Normalized(o: OrList): Unary {
    var s := OrText(o);
    if OrWord !in s && AndWord !in s && IsOne(o) then o.a.u
    else if OrWord in s && AndWord in s then Group(LastOr(LastAnd(Group(o))))
    else Group(o)
  }

  lemma {:induction false} NormalizingWraps(o: OrList)
    ensures Normalize(OrText(o)) == PyTestText(Normalized(o))
    ensures UnaryTree(Normalized(o)) == OrTree(o) && (NegatesNoGroup(Normalized(o)) <==> OrNegatesNoGroup(o))
  {
    var s, u := OrText(o), Normalized(o);
    OrTextIsDialect(o);
    NormalizeSpreads(s);
    SpreadIsPython(u);
    HoldsItsOperators(o);
    if u == o.a.u && IsOne(o) && OrWord !in s && AndWord !in s {
      OneTree(o);
      assert s == AndText(o.a) == UnaryText(u);
    } else if OrWord in s && AndWord in s {
      var g := LastOr(LastAnd(Group(o)));
      OneTree(g);
      assert OrText(g) == AndText(g.a) == UnaryText(Group(o));
      assert OrNegatesNoGroup(g) <==> AndNegatesNoGroup(g.a);
      assert AndNegatesNoGroup(g.a) <==> NegatesNoGroup(Group(o));
    } else {
      assert u == Group(o);
    }
  }

  lemma {:induction false} HoldsItsOperators(o: OrList)
    ensures !IsOne(o) ==> OrWord in OrText(o) || AndWord in OrText(o)
  {
    if o.ConsOr? {
      assert OrText(o)[|AndText(o.a)|] == OrWord;
    } else if o.a.ConsAnd? {
      assert OrText(o) == AndText(o.a) == UnaryText(o.a.u) + [AndWord] + AndText(o.a.rest);
      assert OrText(o)[|UnaryText(o.a.u)|] == AndWord;
    }
  }

  // A filter is run as its author meant it exactly where no NOT stands directly before a group that holds
  // an operator at its own level.
  lemma {:induction false} AFilterRunsAsMeantExactly(o: OrList)
    ensures RunMeaning(Normalize(OrText(o))).Some?
    ensures RunMeaning(Normalize(OrText(o))) == Some(OrTree(o)) <==> OrNegatesNoGroup(o)
  {
    NormalizingWraps(o);
    WhatIsReadRuns(Normalized(o));
    RunsAsReadExactly(Normalized(o));
  }

  // The dialect's tree of the text, if it has one, negates no such group.
  predicate ReadsWithoutNegatedGroups(s: Text) {
    var r := ReadOr(s);
    r.Some? ==> OrNegatesNoGroup(r.value.0)
  }

  // Of everything that is accepted, in the dialect or not.
  lemma {:induction false} AcceptedFiltersRunAsMeantExactly(s: Text)
    requires IsDialectText(s) && PythonMeaning(Normalize(s)).Some?
    ensures RunMeaning(Normalize(s)).Some?
    ensures RunMeaning(Normalize(s)) == DialectMeaning(s) <==> Balanced(s) && ReadsWithoutNegatedGroups(s)
  {
    var u := PyReadTest(Normalize(s)).value.0;
    assert Normalize(s) == PyTestText(u) + [] == PyTestText(u);
    WhatIsReadRuns(u);
    AcceptedFiltersAreWellFormedWhenBalanced(s);
    if Balanced(s) {
      var o := ReadOr(s).value.0;
      assert s == OrText(o) + [] == OrText(o);
      AGroupMeansItsContents(o);
      AFilterRunsAsMeantExactly(o);
    }
  }

  // ---------------------------------------------------------------- one that does not

  predicate Holds(t: Tree, holds: string -> bool) {
    match t
    case Test(text) => holds(text)
    case Negation(u) => !Holds(u, holds)
    case Both(l, r) => Holds(l, holds) && Holds(r, holds)
    case Either(l, r) => Holds(l, holds) || Holds(r, holds)
  }

  // `NOT ( a OR b )` is balanced and accepted, and runs as `(NOT a) OR b`: a row where b holds is kept.
  lemma {:induction false} ANegatedGroupRunsOtherwise(a: string, b: string, holds: string -> bool)
    ensures var s := [NotWord, Open, Atom(a), OrWord, Atom(b), Close];
      var meant, run := Negation(Either(Test(a), Test(b))), Either(Negation(Test(a)), Test(b));
      && Balanced(s) && DialectMeaning(s) == PythonMeaning(Normalize(s)) == Some(meant)
      && RunMeaning(Normalize(s)) == Some(run)
      && (holds(b) ==> Holds(run, holds) && !Holds(meant, holds))
  {
    var o := ItIsNotAOrB(a, b);
    OrTextIsBalanced(o);
    NormalizationPreservesMeaning(o);
    ItMeansNeither(a, b);
    ItIsRun(a, b, o);
    if holds(b) { TheyDiffer(a, b, holds); }
  }

  lemma {:induction false} TheyDiffer(a: string, b: string, holds: string -> bool)
    requires holds(b)
    ensures Holds(Either(Negation(Test(a)), Test(b)), holds) && !Holds(Negation(Either(Test(a), Test(b))), holds)
  {
    assert Holds(Either(Test(a), Test(b)), holds);
  }

  lemma {:induction false} ItIsRun(a: string, b: string, o: OrList)
    requires o == LastOr(LastAnd(NotOf(Group(ConsOr(LastAnd(Leaf(a)), OneTest(b))))))
    requires |OrText(o)| > 3 && OrText(o)[3] == OrWord && AndWord !in OrText(o)
    ensures RunMeaning(Normalize(OrText(o))) == Some(Either(Negation(Test(a)), Test(b)))
  {
    NormalizingWraps(o);
    WhatIsReadRuns(Group(o));
    ItRunsAs(a, b);
  }

  lemma {:induction false} ItIsNotAOrB(a: string, b: string) returns (o: OrList)
    ensures o == LastOr(LastAnd(NotOf(Group(ConsOr(LastAnd(Leaf(a)), OneTest(b))))))
    ensures OrText(o) == [NotWord, Open, Atom(a), OrWord, Atom(b), Close]
  {
    var aOrB := ConsOr(LastAnd(Leaf(a)), OneTest(b));
    var u := NotOf(Group(aOrB));
    o := LastOr(LastAnd(u));
    assert OrText(OneTest(b)) == AndText(OneTest(b).a) == [Atom(b)];
    assert OrText(aOrB) == AndText(aOrB.a) + [OrWord] + [Atom(b)] == [Atom(a), OrWord, Atom(b)];
    assert UnaryText(u) == [NotWord] + UnaryText(Group(aOrB));
    assert OrText(o) == AndText(o.a) == UnaryText(u);
  }

  lemma {:induction false} ItMeansNeither(a: string, b: string)
    ensures OrTree(LastOr(LastAnd(NotOf(Group(ConsOr(LastAnd(Leaf(a)), OneTest(b)))))))
         == Negation(Either(Test(a), Test(b)))
  {
    var aOrB := ConsOr(LastAnd(Leaf(a)), OneTest(b));
    OneTree(LastOr(LastAnd(NotOf(Group(aOrB)))));
    OneTree(OneTest(b));
    assert OrTree(aOrB) == OrFold(AndTree(LastAnd(Leaf(a))), OneTest(b));
    assert AndTree(LastAnd(Leaf(a))) == UnaryTree(Leaf(a)) == Test(a);
    assert AndTree(LastAnd(Leaf(b))) == UnaryTree(Leaf(b)) == Test(b);
  }

  lemma {:induction false} ItRunsAs(a: string, b: string)
    ensures OrTree(AsRun(Group(LastOr(LastAnd(NotOf(Group(ConsOr(LastAnd(Leaf(a)), OneTest(b)))))))))
         == Either(Negation(Test(a)), Test(b))
  {
    var aOrB := ConsOr(LastAnd(Leaf(a)), OneTest(b));
    var o := LastOr(LastAnd(NotOf(Group(aOrB))));
    var first, second := LastAnd(Leaf(a)), LastAnd(Leaf(b));
    var run := OrAsRun(aOrB);
    assert run.a == AndAsRun(first) == LastAnd(Group(AsRun(Leaf(a))));
    assert OrAsRun(OneTest(b)) == LastOr(AndAsRun(second)) == LastOr(LastAnd(Group(AsRun(Leaf(b)))));
    assert run == ConsOr(run.a, OrAsRun(OneTest(b)));
    OneTree(AsRun(Leaf(a)));
    OneTree(AsRun(Leaf(b)));
    var inner := FirstNegated(run);
    assert inner == AsRun(NotOf(Group(aOrB)));
    assert inner == ConsOr(LastAnd(NotOf(run.a.u)), run.more);
    assert OrTree(inner) == OrFold(AndTree(inner.a), run.more) == Either(AndTree(inner.a), AndTree(run.more.a));
    assert AndTree(inner.a) == UnaryTree(NotOf(run.a.u)) == Negation(UnaryTree(run.a.u));
    assert AndTree(run.more.a) == UnaryTree(run.more.a.u);
    assert OrAsRun(o) == LastOr(AndAsRun(o.a)) == LastOr(LastAnd(Group(inner)));
    OneTree(OrAsRun(o));
  }
}
