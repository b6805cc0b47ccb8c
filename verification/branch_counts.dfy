/** Which branches of a body the walk finds, against all that are there. */
module BranchCounts {
  import opened BranchIds
  import opened BranchWalk
  import opened RowCode

  // ---------------------------------------------------------------- all there are

  // The arms of an expression's conditional expressions: one for each value chosen, one for each last `else`.
  function ArmsIn(e: Expr): nat {
    match e
    case Atom(_) => 0
    case Paren(_, inner, _) => ArmsIn(inner)
    case Binary(l, _, r) => ArmsIn(l) + ArmsIn(r)
    case Or(l, _, r) => ArmsIn(l) + ArmsIn(r)
    case Call(_, _, arg, _) => ArmsIn(arg)
    case Choice(b, _, t, _, o) => 1 + ArmsIn(b) + ArmsIn(t) + ArmsIn(o) + (if IsChain(o) then 0 else 1)
    case Deferred(_) => 0
    case Record(_) => 0
  }

  // Those and the suites of a body, at every depth: of its ifs and elifs, its tries and handlers, its elses.
  function BranchesIn(b: Block): nat {
    match b
    case Last(s) => BranchesOf(s)
    case More(s, rest) => BranchesOf(s) + BranchesIn(rest)
  }

  function BranchesOf(s: Stmt): nat {
    match s
    case Simple(_, value, _) => ArmsIn(value)
    case If(_, test, body, orelse) => ArmsIn(test) + (1 + BranchesIn(body.block)) + BranchesAfter(orelse)
    case Try(_, body, handlers, orelse) =>
      (1 + BranchesIn(body.block)) + BranchesHandling(handlers)
          + (if orelse.NoElse? then 0 else 1 + BranchesIn(orelse.suite.block))
    case Inside(_, _, value, body) => ArmsIn(value) + BranchesIn(body.block)
    case Definition(_) => 0
  }

  function BranchesAfter(o: Orelse): nat {
    if o.NoElse? then 0
    else if IsElif(o.suite.block) then BranchesOf(o.suite.block.only)
    else 1 + BranchesIn(o.suite.block)
  }

  function BranchesHandling(hs: Handlers): nat {
    if hs.NoHandlers? then 0 else 1 + BranchesIn(hs.suite.block) + BranchesHandling(hs.rest)
  }

  // ---------------------------------------------------------------- where the walk comes by

  predicate HasChoice(e: Expr) {
    match e
    case Atom(_) => false
    case Paren(_, inner, _) => HasChoice(inner)
    case Binary(l, _, r) => HasChoice(l) || HasChoice(r)
    case Or(l, _, r) => HasChoice(l) || HasChoice(r)
    case Call(_, _, arg, _) => HasChoice(arg)
    case Choice(_, _, _, _, _) => true
    case Deferred(_) => false
    case Record(_) => false
  }

  predicate HasBranch(b: Block) {
    match b
    case Last(s) => StmtHasBranch(s)
    case More(s, rest) => StmtHasBranch(s) || HasBranch(rest)
  }

  predicate StmtHasBranch(s: Stmt) {
    match s
    case Simple(_, value, _) => HasChoice(value)
    case If(_, _, _, _) => true
    case Try(_, _, _, _) => true
    case Inside(_, _, value, body) => HasChoice(value) || HasBranch(body.block)
    case Definition(_) => false
  }

  // No elif's test makes a choice, and no body of a loop or a `with` holds a branch.
  predicate IsAllWalked(b: Block) {
    match b
    case Last(s) => StmtIsAllWalked(s)
    case More(s, rest) => StmtIsAllWalked(s) && IsAllWalked(rest)
  }

  predicate StmtIsAllWalked(s: Stmt) {
    match s
    case Simple(_, _, _) => true
    case If(_, _, body, orelse) => IsAllWalked(body.block) && ElifsAreAllWalked(orelse)
    case Try(_, body, handlers, orelse) =>
      IsAllWalked(body.block) && HandlersAreAllWalked(handlers) && (orelse.NoElse? || IsAllWalked(orelse.suite.block))
    case Inside(_, _, _, body) => !HasBranch(body.block)
    case Definition(_) => true
  }

  predicate ElifsAreAllWalked(o: Orelse) {
    if o.NoElse? then true
    else if IsElif(o.suite.block) then
      var s := o.suite.block.only;
      !HasChoice(s.test) && IsAllWalked(s.body.block) && ElifsAreAllWalked(s.orelse)
    else IsAllWalked(o.suite.block)
  }

  predicate HandlersAreAllWalked(hs: Handlers) {
    hs.NoHandlers? || (IsAllWalked(hs.suite.block) && HandlersAreAllWalked(hs.rest))
  }

  // ---------------------------------------------------------------- arms

  lemma {:induction false} ArmsAreCounted(e: Expr, before: string, parent: Id, index: nat, n: nat)
    ensures |Arms(Scan(e, before), parent, index, n)| == ArmsIn(e)
    ensures ArmsIn(e) > 0 <==> HasChoice(e)
    decreases e, 1
  {
    match e
    case Atom(_) =>
    case Deferred(_) =>
    case Record(_) =>
    case Paren(l, inner, _) => ArmsAreCounted(inner, before + l, parent, index, n);
    case Call(callee, l, arg, _) => ArmsAreCounted(arg, before + (callee + l), parent, index, n);
    case Binary(l, op, r) => SidesAreCounted(e, l, op, r, before, parent, index, n);
    case Or(l, op, r) => SidesAreCounted(e, l, op, r, before, parent, index, n);
    case Choice(_, _, _, _, _) =>
      LinkIsCounted(e, before, parent, index, n, OfIf, n + 1);
      assert Scan(e, before)[0] == Place(e, before) && Scan(e, before)[1..] == ScanBelow(e, before);
  }

  lemma {:induction false} SidesAreCounted(e: Expr, l: Expr, op: string, r: Expr, before: string, parent: Id,
                                           index: nat, n: nat)
    requires e == Binary(l, op, r) || e == Or(l, op, r)
    ensures |Arms(Scan(e, before), parent, index, n)| == ArmsIn(l) + ArmsIn(r)
    ensures ArmsIn(l) > 0 <==> HasChoice(l)
    ensures ArmsIn(r) > 0 <==> HasChoice(r)
    decreases e, 0
  {
    var between := before + ExprText(l) + op;
    ArmsAreCounted(l, before, parent, index, n);
    ArmsAreCounted(r, between, parent, index, n + Chains(l));
    ArmsJoin(Scan(l, before), Scan(r, between), parent, index, n);
  }

  // A link's own arms, and those inside its parts.
  lemma {:induction false} LinkIsCounted(e: Expr, before: string, parent: Id, index: nat, order: nat, kind: Kind,
                                         n: nat)
    requires e.Choice?
    ensures |ArmsFrom(e, before, parent, index, order, kind)| + |Arms(ScanBelow(e, before), parent, index, n)|
        == ArmsIn(e)
    decreases e, 0
  {
    var tested := before + ExprText(e.body) + e.ifGap;
    var rest := tested + ExprText(e.test) + e.elseGap;
    var m := n + Chains(e.test);
    var inTest, inBody := Scan(e.test, tested), Scan(e.body, before);
    ArmsAreCounted(e.test, tested, parent, index, n);
    ArmsAreCounted(e.body, before, parent, index, m);
    RestIsCounted(e.orelse, rest, parent, index, order, kind, m + Chains(e.body));
    ArmsJoin(inTest, inBody, parent, index, n);
    ArmsJoin(inTest + inBody, ScanBelow(e.orelse, rest), parent, index, n);
  }

  lemma {:induction false} RestIsCounted(e: Expr, before: string, parent: Id, index: nat, order: nat, kind: Kind,
                                         n: nat)
    ensures |ArmsBelow(e, before, parent, index, order, kind)| + |Arms(ScanBelow(e, before), parent, index, n)|
         == ArmsIn(e) + (if IsChain(e) then 0 else 1)
    decreases e, 2
  {
    if e.Paren? && IsChain(e) {
      RestIsCounted(e.inner, before + e.open, parent, index, order, kind, n);
    } else if e.Choice? {
      LinkIsCounted(e, before, parent, index, order, NextElif(kind), n);
    } else {
      ArmsAreCounted(e, before, parent, index, n);
      NoChainBelow(e, before);
    }
  }

  // ---------------------------------------------------------------- suites

  // Nothing but branches is found, and all of them exactly where the walk comes by everywhere.
  ghost predicate Counts(found: nat, all: nat, walked: bool) {
    found <= all && (found == all <==> walked)
  }

  lemma {:induction false} BlockIsCounted(b: Block, before: string, parent: Id, index: nat)
    ensures Counts(|InBlock(b, before, parent, index)|, BranchesIn(b), IsAllWalked(b))
    decreases b, 0
  {
    var s := if b.Last? then b.only else b.first;
    StmtIsCounted(s, before, parent, index);
    if b.More? { BlockIsCounted(b.rest, before + StmtText(s), parent, index + 1); }
  }

  lemma {:induction false} SuiteIsCounted(s: Suite, before: string, id: Id)
    ensures Counts(|InSuite(s, before, id)|, 1 + BranchesIn(s.block), IsAllWalked(s.block))
    decreases s, 0
  {
    BlockIsCounted(s.block, before + s.gap, id, 0);
  }

  lemma {:induction false} StmtIsCounted(s: Stmt, before: string, parent: Id, index: nat)
    ensures Counts(|InStmt(s, before, parent, index)|, BranchesOf(s), StmtIsAllWalked(s))
    decreases s, 0
  {
    match s
    case Simple(head, value, _) => ArmsAreCounted(value, before + head, parent, index, 0);
    case If(head, test, body, orelse) =>
      var tested := before + head + ExprText(test);
      ArmsAreCounted(test, before + head, parent, index, 0);
      SuiteIsCounted(body, tested, SuiteAt(parent, index, OfIf));
      ElifIsCounted(orelse, tested + SuiteText(body), parent, index, OfIf);
    case Try(head, body, handlers, orelse) =>
      var tried := before + head + SuiteText(body);
      SuiteIsCounted(body, before + head, SuiteAt(parent, index, OfTry));
      HandlersAreCounted(handlers, tried, parent, index, 0);
      ElseIsCounted(orelse, tried + HandlersText(handlers), parent, index);
    case Inside(_, head, value, body) =>
      ArmsAreCounted(value, before + head, parent, index, 0);
      HasSome(body.block);
    case Definition(_) =>
  }

  lemma {:induction false} ElifIsCounted(o: Orelse, before: string, parent: Id, index: nat, kind: Kind)
    ensures Counts(|InElif(o, before, parent, index, kind)|, BranchesAfter(o), ElifsAreAllWalked(o))
    decreases o, 1
  {
    if o.Else? && IsElif(o.suite.block) {
      var s, next := o.suite.block.only, NextElif(kind);
      var tested := before + o.suite.gap + s.head + ExprText(s.test);
      ArmsAreCounted(s.test, "", parent, index, 0);
      SuiteIsCounted(s.body, tested, SuiteAt(parent, index, next));
      ElifIsCounted(s.orelse, tested + SuiteText(s.body), parent, index, next);
      assert |InElif(o, before, parent, index, kind)|
          == |InSuite(s.body, tested, SuiteAt(parent, index, next))|
              + |InElif(s.orelse, tested + SuiteText(s.body), parent, index, next)|;
    } else {
      ElseIsCounted(o, before, parent, index);
    }
  }

  lemma {:induction false} ElseIsCounted(o: Orelse, before: string, parent: Id, index: nat)
    ensures Counts(|InElse(o, before, parent, index)|, if o.NoElse? then 0 else 1 + BranchesIn(o.suite.block),
                   o.NoElse? || IsAllWalked(o.suite.block))
    decreases o, 0
  {
    if o.Else? { SuiteIsCounted(o.suite, before, SuiteAt(parent, index, OfElse)); }
  }

  lemma {:induction false} HandlersAreCounted(hs: Handlers, before: string, parent: Id, index: nat, position: nat)
    ensures Counts(|InHandlers(hs, before, parent, index, position)|, BranchesHandling(hs), HandlersAreAllWalked(hs))
    decreases hs, 0
  {
    if hs.Handler? {
      SuiteIsCounted(hs.suite, before + hs.head, SuiteAt(parent, index, OfExcept(position)));
      HandlersAreCounted(hs.rest, before + hs.head + SuiteText(hs.suite), parent, index, position + 1);
    }
  }

  lemma {:induction false} HasSome(b: Block)
    ensures BranchesIn(b) > 0 <==> HasBranch(b)
    decreases b, 1
  {
    var s := if b.Last? then b.only else b.first;
    StmtHasSome(s);
    if b.More? { HasSome(b.rest); }
  }

  lemma {:induction false} StmtHasSome(s: Stmt)
    ensures BranchesOf(s) > 0 <==> StmtHasBranch(s)
    decreases s, 0
  {
    match s
    case Simple(_, value, _) => ArmsAreCounted(value, "", Root(""), 0, 0);
    case If(_, _, _, _) =>
    case Try(_, _, _, _) =>
    case Inside(_, _, value, body) =>
      ArmsAreCounted(value, "", Root(""), 0, 0);
      HasSome(body.block);
    case Definition(_) =>
  }

  // Every suite and every arm of a body is found exactly where no elif's test makes a choice and no body of
  // a loop or a `with` holds a branch.
  lemma {:induction false} EveryBranchIsFoundExactlyWhenWalked(b: Block, before: string, path: Id)
    ensures |InBlock(b, before, path, 0)| <= BranchesIn(b)
    ensures |InBlock(b, before, path, 0)| == BranchesIn(b) <==> IsAllWalked(b)
  {
    BlockIsCounted(b, before, path, 0);
  }

  // for x in xs:
  //     if p: pass
  function IfInALoop(): Block {
    Last(Inside(For, "for x in ", Atom("xs"), Suite(":\n    ", Last(
      If("if ", Atom("p"), Suite(": ", Last(Simple("", Atom("pass"), "\n"))), NoElse)))))
  }

  // if p: pass
  // elif a if q else b: pass
  function ChoiceInAnElif(): Block {
    Last(If("if ", Atom("p"), Suite(": ", Last(Simple("", Atom("pass"), "\nel"))), Else(Suite("", Last(
      If("if ", Choice(Atom("a"), " if ", Atom("q"), " else ", Atom("b")),
         Suite(": ", Last(Simple("", Atom("pass"), "\n"))), NoElse))))))
  }

  lemma {:induction false} TheIfIsNotFound(path: Id)
    ensures InBlock(IfInALoop(), "", path, 0) == [] && BranchesIn(IfInALoop()) == 1
  {
    var s := IfInALoop().only;
    assert Scan(s.value, "" + s.head) == [];
    assert BranchesOf(s.body.block.only) == 1;
  }

  lemma {:induction false} TheChoiceIsNotFound(path: Id)
    ensures |InBlock(ChoiceInAnElif(), "", path, 0)| == 2 && BranchesIn(ChoiceInAnElif()) == 4
  {
    var s := ChoiceInAnElif().only;
    var tested := "" + s.head + ExprText(s.test);
    var rest := tested + SuiteText(s.body);
    var elif := s.orelse.suite.block.only;
    var at := rest + s.orelse.suite.gap + elif.head + ExprText(elif.test);
    assert InElif(s.orelse, rest, path, 0, OfIf) == InSuite(elif.body, at, SuiteAt(path, 0, OfElif(0))) + [];
    PassHoldsNone("\nel", tested + s.body.gap, SuiteAt(path, 0, OfIf));
    PassHoldsNone("\n", at + elif.body.gap, SuiteAt(path, 0, OfElif(0)));
    assert Scan(s.test, "" + s.head) == [];
    assert ArmsIn(elif.test) == 2;
    assert BranchesOf(elif) == 3;
    assert BranchesOf(s) == 0 + (1 + BranchesIn(s.body.block)) + BranchesAfter(s.orelse);
    assert InStmt(s, "", path, 0)
        == Choices(s.test, "" + s.head, path, 0)
            + (InSuite(s.body, tested, SuiteAt(path, 0, OfIf)) + InElif(s.orelse, rest, path, 0, OfIf));
  }

  lemma {:induction false} PassHoldsNone(tail: string, before: string, id: Id)
    ensures InBlock(Last(Simple("", Atom("pass"), tail)), before, id, 0) == []
  {
    assert Scan(Atom("pass"), before + "") == [];
  }
}
