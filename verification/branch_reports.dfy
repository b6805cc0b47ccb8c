/** What a row reports is always among the branches its module offers. */
module BranchReports {
  import opened BranchIds
  import opened BranchWalk
  import opened Meaning
  import opened RowCode

  function Ids(branches: seq<Branch>): set<Id> {
    if branches == [] then {} else {branches[0].id} + Ids(branches[1..])
  }

  // The ids of the branches found in a module.
  function Found(items: seq<Item>): set<Id> { Ids(InModule(items, "")) }

  // Whatever a function is offered to report with is among `offered`.
  ghost predicate Offers(fs: seq<Function>, offered: set<Id>) {
    forall i :: 0 <= i < |fs| ==> OffersOne(fs[i], offered)
  }

  ghost predicate OffersOne(f: Function, offered: set<Id>) {
    exists at :: Ids(InBlock(f.body, at, Root(f.name), 0)) <= offered
  }

  ghost predicate Within(log: seq<Id>, ids: set<Id>) {
    forall id :: id in log ==> id in ids
  }

  lemma {:induction false} IdsJoin(a: seq<Branch>, b: seq<Branch>)
    ensures Ids(a + b) == Ids(a) + Ids(b)
  {
    if a == [] {
      assert a + b == b;
    } else {
      IdsJoin(a[1..], b);
      assert (a + b)[0] == a[0] && (a + b)[1..] == a[1..] + b;
    }
  }

  lemma {:induction false} FunctionsAreOffered(items: seq<Item>, before: string, offered: set<Id>)
    requires Ids(InModule(items, before)) <= offered
    ensures Offers(Functions(items), offered)
  {
    if items != [] {
      var rest := before + ItemText(items[0]);
      IdsJoin(InItem(items[0], before), InModule(items[1..], rest));
      FunctionsAreOffered(items[1..], rest, offered);
      if items[0].Define? {
        var f := items[0].def;
        assert Ids(InBlock(f.body, before + f.head, Root(f.name), 0)) <= offered;
        assert OffersOne(f, offered);
      }
    }
  }

  // The ids a walked place has to report with; where the walk does not come, none.
  function Choosing(e: Expr, before: string, w: Walk, index: nat, n: nat): set<Id> {
    if w.Walked? then Ids(Arms(Scan(e, before), w.path, index, n)) else {}
  }

  lemma {:induction false} ArmHasItsId(e: Expr, before: string, id: Id)
    ensures Ids([ArmOf(e, before, id)]) == {id}
  {
    if e.Paren? { ArmHasItsId(e.inner, before + e.open, id); }
    assert [ArmOf(e, before, id)][1..] == [];
  }

  lemma {:induction false} ChoosingJoins(l: Expr, r: Expr, before: string, between: string, w: Walk, index: nat, n: nat)
    requires w.Walked?
    ensures Ids(Arms(Scan(l, before) + Scan(r, between), w.path, index, n))
         == Choosing(l, before, w, index, n) + Choosing(r, between, w, index, n + Chains(l))
  {
    ArmsJoin(Scan(l, before), Scan(r, between), w.path, index, n);
    IdsJoin(Arms(Scan(l, before), w.path, index, n), Arms(Scan(r, between), w.path, index, n + Chains(l)));
  }

  lemma {:induction false} TraceReports<V, S>(m: Machine<V, S>, sc: Scope, offered: set<Id>, depth: nat,
                                              e: Expr, before: string, w: Walk, index: nat, n: nat, s: S)
    requires IsAuthored(e) && AreAuthored(sc.fs) && Offers(sc.fs, offered)
    ensures Within(Trace(m, sc, depth, e, w, index, n, s).log, Choosing(e, before, w, index, n) + offered)
    decreases depth, e, 1
  {
    match e
    case Atom(_) =>
    case Deferred(_) =>
    case Paren(l, inner, _) => TraceReports(m, sc, offered, depth, inner, before + l, w, index, n, s);
    case Binary(l, op, r) => SidesReport(m, sc, offered, depth, e, l, op, r, before, w, index, n, s);
    case Or(l, op, r) => SidesReport(m, sc, offered, depth, e, l, op, r, before, w, index, n, s);
    case Call(_, _, _, _) => CallReports(m, sc, offered, depth, e, before, w, index, n, s);
    case Choice(_, _, _, _, _) =>
      LinkReports(m, sc, offered, depth, e, before, w, index, n, OfIf, n + 1, s);
      if w.Walked? { ChoosingOfChoice(e, before, w, index, n); }
  }

  lemma {:induction false} SidesReport<V, S>(m: Machine<V, S>, sc: Scope, offered: set<Id>, depth: nat, e: Expr,
                                             l: Expr, op: string, r: Expr, before: string, w: Walk, index: nat, n: nat,
                                             s: S)
    requires e == Binary(l, op, r) || e == Or(l, op, r)
    requires IsAuthored(e) && AreAuthored(sc.fs) && Offers(sc.fs, offered)
    ensures Within(Trace(m, sc, depth, e, w, index, n, s).log, Choosing(e, before, w, index, n) + offered)
    decreases depth, e, 0
  {
    var a := Trace(m, sc, depth, l, w, index, n, s);
    TraceReports(m, sc, offered, depth, l, before, w, index, n, s);
    TraceReports(m, sc, offered, depth, r, before + ExprText(l) + op, w, index, n + Chains(l), a.state);
    SidesFit(m, sc, offered, depth, e, l, op, r, before, w, index, n, s);
  }

  lemma {:induction false} SidesFit<V, S>(m: Machine<V, S>, sc: Scope, offered: set<Id>, depth: nat, e: Expr,
                                          l: Expr, op: string, r: Expr, before: string, w: Walk, index: nat, n: nat,
                                          s: S)
    requires e == Binary(l, op, r) || e == Or(l, op, r)
    requires Within(Trace(m, sc, depth, l, w, index, n, s).log, Choosing(l, before, w, index, n) + offered)
    requires Within(Trace(m, sc, depth, r, w, index, n + Chains(l), Trace(m, sc, depth, l, w, index, n, s).state).log,
                    Choosing(r, before + ExprText(l) + op, w, index, n + Chains(l)) + offered)
    ensures Within(Trace(m, sc, depth, e, w, index, n, s).log, Choosing(e, before, w, index, n) + offered)
  {
    var a := Trace(m, sc, depth, l, w, index, n, s);
    SidesChoose(e, l, op, r, before, w, index, n);
    SidesLog(m, sc, depth, e, l, op, r, w, index, n, s);
    SidesJoin(Trace(m, sc, depth, e, w, index, n, s).log, a.log,
              Trace(m, sc, depth, r, w, index, n + Chains(l), a.state).log,
              Choosing(e, before, w, index, n), Choosing(l, before, w, index, n),
              Choosing(r, before + ExprText(l) + op, w, index, n + Chains(l)),
              offered);
  }

  lemma {:induction false} SidesChoose(e: Expr, l: Expr, op: string, r: Expr, before: string, w: Walk, index: nat,
                                       n: nat)
    requires e == Binary(l, op, r) || e == Or(l, op, r)
    ensures Choosing(e, before, w, index, n)
         == Choosing(l, before, w, index, n) + Choosing(r, before + ExprText(l) + op, w, index, n + Chains(l))
  {
    if w.Walked? { ChoosingJoins(l, r, before, before + ExprText(l) + op, w, index, n); }
  }

  lemma {:induction false} SidesLog<V, S>(m: Machine<V, S>, sc: Scope, depth: nat, e: Expr, l: Expr, op: string,
                                          r: Expr, w: Walk, index: nat, n: nat, s: S)
    requires e == Binary(l, op, r) || e == Or(l, op, r)
    ensures var a := Trace(m, sc, depth, l, w, index, n, s);
      var log := Trace(m, sc, depth, e, w, index, n, s).log;
      log == a.log || log == a.log + Trace(m, sc, depth, r, w, index, n + Chains(l), a.state).log
  {
  }

  lemma {:induction false} SidesJoin(log: seq<Id>, a: seq<Id>, b: seq<Id>, whole: set<Id>, x: set<Id>, y: set<Id>,
                                     more: set<Id>)
    requires whole == x + y && (log == a || log == a + b)
    requires Within(a, x + more) && Within(b, y + more)
    ensures Within(log, whole + more)
  {
  }

  lemma {:induction false} CallReports<V, S>(m: Machine<V, S>, sc: Scope, offered: set<Id>, depth: nat, e: Expr,
                                             before: string, w: Walk, index: nat, n: nat, s: S)
    requires e.Call? && IsAuthored(e) && AreAuthored(sc.fs) && Offers(sc.fs, offered)
    ensures Within(Trace(m, sc, depth, e, w, index, n, s).log, Choosing(e, before, w, index, n) + offered)
    decreases depth, e, 0
  {
    TraceReports(m, sc, offered, depth, e.arg, before + (e.callee + e.open), w, index, n, s);
    var a := Trace(m, sc, depth, e.arg, w, index, n, s);
    if EntersAuthored(m, sc, depth, e, w, index, n, s) {
      var i := Resolve(sc, e.callee).i;
      var f := sc.fs[i];
      assert OffersOne(f, offered);
      var at :| Ids(InBlock(f.body, at, Root(f.name), 0)) <= offered;
      var entered := m.enter(e.callee, a.result.value, a.state);
      BlockReports(m, Called(sc, i), offered, depth - 1, f.body, at, Walked(Root(f.name)), 0, entered);
      CallJoins(a.log, TraceBlock(m, Called(sc, i), depth - 1, f.body, Walked(Root(f.name)), 0, entered).log,
                Choosing(e, before, w, index, n), Ids(InBlock(f.body, at, Root(f.name), 0)), offered);
    }
    CallLog(m, sc, depth, e, w, index, n, s);
  }

  lemma {:induction false} CallJoins(a: seq<Id>, b: seq<Id>, x: set<Id>, y: set<Id>, more: set<Id>)
    requires Within(a, x + more) && Within(b, y + more) && y <= more
    ensures Within(a + b, x + more)
  {
  }

  predicate EntersAuthored<V(==), S>(m: Machine<V, S>, sc: Scope, depth: nat, e: Expr, w: Walk, index: nat,
                                     n: nat, s: S)
    requires e.Call?
  {
    Trace(m, sc, depth, e.arg, w, index, n, s).result.Value? && Resolve(sc, e.callee).Defined? && depth > 0
  }

  lemma {:induction false} CallLog<V, S>(m: Machine<V, S>, sc: Scope, depth: nat, e: Expr, w: Walk, index: nat,
                                         n: nat, s: S)
    requires e.Call? && e.callee != RECORDER
    ensures var a := Trace(m, sc, depth, e.arg, w, index, n, s);
      Trace(m, sc, depth, e, w, index, n, s).log
      == if EntersAuthored(m, sc, depth, e, w, index, n, s) then
           var i := Resolve(sc, e.callee).i;
           var f := sc.fs[i];
           a.log + TraceBlock(m, Called(sc, i), depth - 1, f.body, Walked(Root(f.name)), 0,
                              m.enter(e.callee, a.result.value, a.state)).log
         else a.log
  {
  }

  lemma {:induction false} ChoosingOfChoice(e: Expr, before: string, w: Walk, index: nat, n: nat)
    requires e.Choice? && w.Walked?
    ensures Choosing(e, before, w, index, n) == Linking(e, before, w, index, n, OfIf, n + 1)
  {
    assert Scan(e, before)[0] == Place(e, before) && Scan(e, before)[1..] == ScanBelow(e, before);
  }

  // A link reports its own arm, or an arm after it, or what is inside its parts.
  function Linking(e: Expr, before: string, w: Walk, index: nat, order: nat, kind: Kind, n: nat): set<Id> {
    if !w.Walked? then {}
    else Ids(ArmsFrom(e, before, w.path, index, order, kind) + Arms(ScanBelow(e, before), w.path, index, n))
  }

  function Resting(e: Expr, before: string, w: Walk, index: nat, order: nat, kind: Kind, n: nat): set<Id> {
    if !w.Walked? then {}
    else Ids(ArmsBelow(e, before, w.path, index, order, kind) + Arms(ScanBelow(e, before), w.path, index, n))
  }

  lemma {:induction false} LinkHolds(e: Expr, before: string, w: Walk, index: nat, order: nat, kind: Kind, n: nat)
    requires e.Choice? && w.Walked?
    ensures var tested := before + ExprText(e.body) + e.ifGap; var rest := tested + ExprText(e.test) + e.elseGap;
      var m := n + Chains(e.test);
      Linking(e, before, w, index, order, kind, n)
      == {ArmAt(w.path, index, order, kind)} + Choosing(e.test, tested, w, index, n)
          + Choosing(e.body, before, w, index, m)
         + Resting(e.orelse, rest, w, index, order, kind, m + Chains(e.body))
  {
    var tested := before + ExprText(e.body) + e.ifGap;
    var rest := tested + ExprText(e.test) + e.elseGap;
    var m := n + Chains(e.test);
    var arms, below := ArmsBelow(e.orelse, rest, w.path, index, order, kind),
        Arms(ScanBelow(e.orelse, rest), w.path, index, m + Chains(e.body));
    IdsJoin(arms, below);
    IdsJoin(ArmsFrom(e, before, w.path, index, order, kind), Arms(ScanBelow(e, before), w.path, index, n));
    LinkArms(e, before, rest, w, index, order, kind);
    LinkScans(e, before, tested, rest, w, index, n);
  }

  lemma {:induction false} LinkArms(e: Expr, before: string, rest: string, w: Walk, index: nat, order: nat, kind: Kind)
    requires e.Choice? && w.Walked? && rest == before + ExprText(e.body) + e.ifGap + ExprText(e.test) + e.elseGap
    ensures Ids(ArmsFrom(e, before, w.path, index, order, kind))
         == {ArmAt(w.path, index, order, kind)} + Ids(ArmsBelow(e.orelse, rest, w.path, index, order, kind))
  {
    var id := ArmAt(w.path, index, order, kind);
    ArmHasItsId(e.body, before, id);
    IdsJoin([ArmOf(e.body, before, id)], ArmsBelow(e.orelse, rest, w.path, index, order, kind));
  }

  lemma {:induction false} LinkScans(e: Expr, before: string, tested: string, rest: string, w: Walk, index: nat, n: nat)
    requires e.Choice? && w.Walked? && tested == before + ExprText(e.body) + e.ifGap
        && rest == tested + ExprText(e.test) + e.elseGap
    ensures var m := n + Chains(e.test);
      Ids(Arms(ScanBelow(e, before), w.path, index, n))
      == Choosing(e.test, tested, w, index, n) + Choosing(e.body, before, w, index, m)
         + Ids(Arms(ScanBelow(e.orelse, rest), w.path, index, m + Chains(e.body)))
  {
    var both := Scan(e.test, tested) + Scan(e.body, before);
    ChoosingJoins(e.test, e.body, tested, before, w, index, n);
    ArmsJoin(both, ScanBelow(e.orelse, rest), w.path, index, n);
    IdsJoin(Arms(both, w.path, index, n), Arms(ScanBelow(e.orelse, rest), w.path, index, n + |both|));
  }

  function Owning(w: Walk, id: Id): set<Id> {
    if w.Walked? then {id} else {}
  }

  lemma {:induction false} LinkChooses(e: Expr, before: string, w: Walk, index: nat, order: nat, kind: Kind, n: nat)
    requires e.Choice?
    ensures var tested := before + ExprText(e.body) + e.ifGap; var rest := tested + ExprText(e.test) + e.elseGap;
      var m := n + Chains(e.test);
      Linking(e, before, w, index, order, kind, n)
      == Owning(w, ArmAt(Path(w), index, order, kind)) + Choosing(e.test, tested, w, index, n)
          + Choosing(e.body, before, w, index, m)
         + Resting(e.orelse, rest, w, index, order, kind, m + Chains(e.body))
  {
    if w.Walked? { LinkHolds(e, before, w, index, order, kind, n); }
  }

  lemma {:induction false} LinkReports<V, S>(m: Machine<V, S>, sc: Scope, offered: set<Id>, depth: nat, e: Expr,
                                             before: string, w: Walk, index: nat, order: nat, kind: Kind, n: nat, s: S)
    requires e.Choice? && IsAuthored(e) && AreAuthored(sc.fs) && Offers(sc.fs, offered)
    ensures Within(TraceLink(m, sc, depth, e, w, index, order, kind, n, s).log,
                   Linking(e, before, w, index, order, kind, n) + offered)
    decreases depth, e, 0
  {
    var tested := before + ExprText(e.body) + e.ifGap;
    var rest := tested + ExprText(e.test) + e.elseGap;
    var id, k := ArmAt(Path(w), index, order, kind), n + Chains(e.test);
    var a := Trace(m, sc, depth, e.test, w, index, n, s);
    TraceReports(m, sc, offered, depth, e.test, tested, w, index, n, s);
    ArmReports(m, sc, offered, depth, e.body, before, w, index, id, k, a.state);
    RestReports(m, sc, offered, depth, e.orelse, rest, w, index, order, kind, k + Chains(e.body), a.state);
    LinkFits(m, sc, offered, depth, e, before, tested, rest, id, w, index, order, kind, n, k, s);
  }

  lemma {:induction false} LinkFits<V, S>(m: Machine<V, S>, sc: Scope, offered: set<Id>, depth: nat, e: Expr,
                                          before: string, tested: string, rest: string, id: Id, w: Walk, index: nat,
                                          order: nat, kind: Kind, n: nat, k: nat, s: S)
    requires e.Choice? && id == ArmAt(Path(w), index, order, kind) && k == n + Chains(e.test)
    requires tested == before + ExprText(e.body) + e.ifGap && rest == tested + ExprText(e.test) + e.elseGap
    requires var a := Trace(m, sc, depth, e.test, w, index, n, s);
      && Within(a.log, Choosing(e.test, tested, w, index, n) + offered)
      && Within(TraceArm(m, sc, depth, e.body, w, index, id, k, a.state).log,
                Owning(w, id) + Choosing(e.body, before, w, index, k) + offered)
      && Within(TraceRest(m, sc, depth, e.orelse, w, index, order, kind, k + Chains(e.body), a.state).log,
                Resting(e.orelse, rest, w, index, order, kind, k + Chains(e.body)) + offered)
    ensures Within(TraceLink(m, sc, depth, e, w, index, order, kind, n, s).log,
                   Linking(e, before, w, index, order, kind, n) + offered)
  {
    var a := Trace(m, sc, depth, e.test, w, index, n, s);
    LinkChooses(e, before, w, index, order, kind, n);
    LinkLog(m, sc, depth, e, w, index, order, kind, n, s);
    LinkJoins(TraceLink(m, sc, depth, e, w, index, order, kind, n, s).log,
              a.log, TraceArm(m, sc, depth, e.body, w, index, id, k, a.state).log,
              TraceRest(m, sc, depth, e.orelse, w, index, order, kind, k + Chains(e.body), a.state).log,
              Linking(e, before, w, index, order, kind, n),
              Owning(w, id), Choosing(e.test, tested, w, index, n), Choosing(e.body, before, w, index, k),
              Resting(e.orelse, rest, w, index, order, kind, k + Chains(e.body)), offered);
  }

  lemma {:induction false} ArmReports<V, S>(m: Machine<V, S>, sc: Scope, offered: set<Id>, depth: nat, e: Expr,
                                            before: string, w: Walk, index: nat, id: Id, n: nat, s: S)
    requires IsAuthored(e) && AreAuthored(sc.fs) && Offers(sc.fs, offered)
    ensures Within(TraceArm(m, sc, depth, e, w, index, id, n, s).log,
                   Owning(w, id) + Choosing(e, before, w, index, n) + offered)
    decreases depth, e, 2
  {
    TraceReports(m, sc, offered, depth, e, before, w, index, n, s);
    EnteredThen(w, id, Trace(m, sc, depth, e, w, index, n, s).log, Choosing(e, before, w, index, n), offered);
  }

  lemma {:induction false} EnteredThen(w: Walk, id: Id, log: seq<Id>, x: set<Id>, more: set<Id>)
    requires Within(log, x + more)
    ensures Within(Entered(w, id) + log, Owning(w, id) + x + more)
  {
  }

  lemma {:induction false} LinkJoins(log: seq<Id>, a: seq<Id>, b: seq<Id>, c: seq<Id>, whole: set<Id>,
                                     own: set<Id>, x: set<Id>, y: set<Id>, z: set<Id>, more: set<Id>)
    requires whole == own + x + y + z && (log == a || log == a + b || log == a + c)
    requires Within(a, x + more) && Within(b, own + y + more) && Within(c, z + more)
    ensures Within(log, whole + more)
  {
  }

  lemma {:induction false} LinkLog<V, S>(m: Machine<V, S>, sc: Scope, depth: nat, e: Expr, w: Walk,
                                         index: nat, order: nat, kind: Kind, n: nat, s: S)
    requires e.Choice?
    ensures var k := n + Chains(e.test); var a := Trace(m, sc, depth, e.test, w, index, n, s);
      var log := TraceLink(m, sc, depth, e, w, index, order, kind, n, s).log;
      log == if a.result.Raised? then a.log
             else if IsTrue(m, a.result.value)
             then a.log + TraceArm(m, sc, depth, e.body, w, index, ArmAt(Path(w), index, order, kind), k, a.state).log
             else a.log + TraceRest(m, sc, depth, e.orelse, w, index, order, kind, k + Chains(e.body), a.state).log
  {
  }

  lemma {:induction false} RestReports<V, S>(m: Machine<V, S>, sc: Scope, offered: set<Id>, depth: nat, e: Expr,
                                             before: string, w: Walk, index: nat, order: nat, kind: Kind, n: nat, s: S)
    requires IsAuthored(e) && AreAuthored(sc.fs) && Offers(sc.fs, offered)
    ensures Within(TraceRest(m, sc, depth, e, w, index, order, kind, n, s).log,
                   Resting(e, before, w, index, order, kind, n) + offered)
    decreases depth, e, 2
  {
    if e.Paren? && IsChain(e) {
      RestReports(m, sc, offered, depth, e.inner, before + e.open, w, index, order, kind, n, s);
    } else if e.Choice? {
      LinkReports(m, sc, offered, depth, e, before, w, index, order, NextElif(kind), n, s);
    } else {
      TraceReports(m, sc, offered, depth, e, before, w, index, n, s);
      if w.Walked? {
        var id := ArmAt(w.path, index, order, OfElse);
        ArmHasItsId(e, before, id);
        NoChainBelow(e, before);
        IdsJoin([ArmOf(e, before, id)], Arms(Scan(e, before), w.path, index, n));
      }
    }
  }

  // ---------------------------------------------------------------- statements

  function Blocking(b: Block, before: string, w: Walk, index: nat): set<Id> {
    if w.Walked? then Ids(InBlock(b, before, w.path, index)) else {}
  }

  lemma {:induction false} BlockReports<V, S>(m: Machine<V, S>, sc: Scope, offered: set<Id>, depth: nat,
                                              b: Block, before: string, w: Walk, index: nat, s: S)
    requires BlockIsAuthored(b) && AreAuthored(sc.fs) && Offers(sc.fs, offered)
    ensures Within(TraceBlock(m, sc, depth, b, w, index, s).log, Blocking(b, before, w, index) + offered)
    decreases depth, b, 0
  {
    var first := if b.Last? then b.only else b.first;
    StmtReports(m, sc, offered, depth, first, before, w, index, s);
    if b.More? {
      var rest := before + StmtText(first);
      BlockReports(m, sc, offered, depth, b.rest, rest, w, index + 1,
                   TraceStmt(m, sc, depth, first, w, index, s).state);
      if w.Walked? { IdsJoin(InStmt(first, before, w.path, index), InBlock(b.rest, rest, w.path, index + 1)); }
    }
  }

  function Stating(s: Stmt, before: string, w: Walk, index: nat): set<Id> {
    if w.Walked? then Ids(InStmt(s, before, w.path, index)) else {}
  }

  function Opening(s: Suite, before: string, w: Walk, id: Id): set<Id> {
    if w.Walked? then Ids(InSuite(s, before, id)) else {}
  }

  lemma {:induction false} SuiteReports<V, S>(m: Machine<V, S>, sc: Scope, offered: set<Id>, depth: nat,
                                              suite: Suite, before: string, w: Walk, id: Id, s: S)
    requires SuiteIsAuthored(suite) && AreAuthored(sc.fs) && Offers(sc.fs, offered)
    ensures Within(TraceSuite(m, sc, depth, suite.block, w, id, s).log, Opening(suite, before, w, id) + offered)
    decreases depth, suite, 0
  {
    var at := before + suite.gap;
    BlockReports(m, sc, offered, depth, suite.block, at, Below(w, id), 0, s);
    var own := [SuiteBranch(id, |at|, LineBefore(at))];
    assert own[1..] == [];
    IdsJoin(own, InBlock(suite.block, at, id, 0));
  }

  lemma {:induction false} StmtReports<V, S>(m: Machine<V, S>, sc: Scope, offered: set<Id>, depth: nat, s: Stmt,
                                             before: string, w: Walk, index: nat, state: S)
    requires StmtIsAuthored(s) && AreAuthored(sc.fs) && Offers(sc.fs, offered)
    ensures Within(TraceStmt(m, sc, depth, s, w, index, state).log, Stating(s, before, w, index) + offered)
    decreases depth, s, 1
  {
    match s
    case Simple(head, value, _) => TraceReports(m, sc, offered, depth, value, before + head, w, index, 0, state);
    case If(head, test, body, orelse) =>
      var tested := before + head + ExprText(test);
      var id := SuiteAt(Path(w), index, OfIf);
      TraceReports(m, sc, offered, depth, test, before + head, w, index, 0, state);
      var a := Trace(m, sc, depth, test, w, index, 0, state);
      SuiteReports(m, sc, offered, depth, body, tested, w, id, a.state);
      ElifReports(m, sc, offered, depth, orelse, tested + SuiteText(body), w, index, OfIf, a.state);
      if w.Walked? {
        var suites := InSuite(body, tested, id) + InElif(orelse, tested + SuiteText(body), w.path, index, OfIf);
        IdsJoin(Choices(test, before + head, w.path, index), suites);
        IdsJoin(InSuite(body, tested, id), InElif(orelse, tested + SuiteText(body), w.path, index, OfIf));
      }
    case Try(_, _, _, _) => TryReports(m, sc, offered, depth, s, before, w, index, state);
    case Inside(way, head, value, body) =>
      TraceReports(m, sc, offered, depth, value, before + head, w, index, 0, state);
      var a := Trace(m, sc, depth, value, w, index, 0, state);
      if a.result.Value? {
        if way.For? {
          var vs := m.elements(a.result.value, a.state);
          if vs.0.Items? { EachReports(m, sc, offered, depth, head, vs.0.values, body.block, vs.1); }
        } else {
          BlockReports(m, sc, offered, depth, body.block, "", Unwalked, 0,
                       m.enterWith(head, a.result.value, a.state).1);
        }
      }
    case Definition(_) =>
  }

  lemma {:induction false} TryReports<V, S>(m: Machine<V, S>, sc: Scope, offered: set<Id>, depth: nat, s: Stmt,
                                            before: string, w: Walk, index: nat, state: S)
    requires s.Try? && StmtIsAuthored(s) && AreAuthored(sc.fs) && Offers(sc.fs, offered)
    ensures Within(TraceStmt(m, sc, depth, s, w, index, state).log, Stating(s, before, w, index) + offered)
    decreases depth, s, 0
  {
    var tried := before + s.head + SuiteText(s.body);
    var rest := tried + HandlersText(s.handlers);
    var id := SuiteAt(Path(w), index, OfTry);
    SuiteReports(m, sc, offered, depth, s.body, before + s.head, w, id, state);
    var x := TraceSuite(m, sc, depth, s.body.block, w, id, state);
    if x.result.Raise? {
      HandlerReports(m, sc, offered, depth, s.handlers, tried, w, index, 0, x.result.error, x.state);
    } else {
      ElseReports(m, sc, offered, depth, s.orelse, rest, w, index, x.state);
    }
    if w.Walked? {
      var handled, orelse := InHandlers(s.handlers, tried, w.path, index, 0), InElse(s.orelse, rest, w.path, index);
      IdsJoin(InSuite(s.body, before + s.head, id), handled + orelse);
      IdsJoin(handled, orelse);
    }
  }

  lemma {:induction false} EachReports<V, S>(m: Machine<V, S>, sc: Scope, offered: set<Id>, depth: nat,
                                             head: string, vs: seq<V>, body: Block, s: S)
    requires BlockIsAuthored(body) && AreAuthored(sc.fs) && Offers(sc.fs, offered)
    ensures Within(TraceEach(m, sc, depth, head, vs, body, s).log, offered)
    decreases depth, body, 1, |vs|
  {
    if vs != [] {
      var at := m.bind(head, vs[0], s);
      BlockReports(m, sc, offered, depth, body, "", Unwalked, 0, at);
      EachReports(m, sc, offered, depth, head, vs[1..], body, TraceBlock(m, sc, depth, body, Unwalked, 0, at).state);
    }
  }

  function Following(o: Orelse, before: string, w: Walk, index: nat, kind: Kind): set<Id> {
    if w.Walked? then Ids(InElif(o, before, w.path, index, kind)) else {}
  }

  lemma {:induction false} ElifReports<V, S>(m: Machine<V, S>, sc: Scope, offered: set<Id>, depth: nat,
                                             o: Orelse, before: string, w: Walk, index: nat, kind: Kind, s: S)
    requires OrelseIsAuthored(o) && AreAuthored(sc.fs) && Offers(sc.fs, offered)
    ensures Within(TraceElif(m, sc, depth, o, w, index, kind, s).log, Following(o, before, w, index, kind) + offered)
    decreases depth, o, 1
  {
    if o.Else? && IsElif(o.suite.block) {
      var elif, next := o.suite.block.only, NextElif(kind);
      ElifIsAuthored(o);
      var tested := before + o.suite.gap + elif.head + ExprText(elif.test);
      var id := SuiteAt(Path(w), index, next);
      TraceReports(m, sc, offered, depth, elif.test, "", Unwalked, 0, 0, s);
      var a := Trace(m, sc, depth, elif.test, Unwalked, 0, 0, s);
      SuiteReports(m, sc, offered, depth, elif.body, tested, w, id, a.state);
      ElifReports(m, sc, offered, depth, elif.orelse, tested + SuiteText(elif.body), w, index, next, a.state);
      if w.Walked? {
        IdsJoin(InSuite(elif.body, tested, id),
                InElif(elif.orelse, tested + SuiteText(elif.body), w.path, index, next));
      }
    } else {
      ElseReports(m, sc, offered, depth, o, before, w, index, s);
    }
  }

  lemma {:induction false} ElseReports<V, S>(m: Machine<V, S>, sc: Scope, offered: set<Id>, depth: nat,
                                             o: Orelse, before: string, w: Walk, index: nat, s: S)
    requires OrelseIsAuthored(o) && AreAuthored(sc.fs) && Offers(sc.fs, offered)
    ensures Within(TraceElse(m, sc, depth, o, w, index, s).log,
                   (if w.Walked? then Ids(InElse(o, before, w.path, index)) else {}) + offered)
    decreases depth, o, 0
  {
    if o.Else? { SuiteReports(m, sc, offered, depth, o.suite, before, w, SuiteAt(Path(w), index, OfElse), s); }
  }

  lemma {:induction false} HandlerReports<V, S>(m: Machine<V, S>, sc: Scope, offered: set<Id>, depth: nat,
                                                hs: Handlers, before: string, w: Walk, index: nat, position: nat,
                                                error: V, s: S)
    requires HandlersAreAuthored(hs) && AreAuthored(sc.fs) && Offers(sc.fs, offered)
    ensures Within(TraceHandler(m, sc, depth, hs, w, index, position, error, s).log,
                   (if w.Walked? then Ids(InHandlers(hs, before, w.path, index, position)) else {}) + offered)
    decreases depth, hs, 0
  {
    if hs.Handler? {
      var id := SuiteAt(Path(w), index, OfExcept(position));
      var rest := before + hs.head + SuiteText(hs.suite);
      SuiteReports(m, sc, offered, depth, hs.suite, before + hs.head, w, id, s);
      HandlerReports(m, sc, offered, depth, hs.rest, rest, w, index, position + 1, error, s);
      if w.Walked? {
        IdsJoin(InSuite(hs.suite, before + hs.head, id), InHandlers(hs.rest, rest, w.path, index, position + 1));
      }
    }
  }

  // ---------------------------------------------------------------- the row function

  // Whatever a row does, each id it reports is one a branch of the module was given, so it can be looked
  // up among the branches found in the source.
  lemma {:induction false} ReportsAreOffered<V, S>(m: Machine<V, S>, items: seq<Item>, depth: nat, name: string,
                                                   arg: Expr, s: S)
    requires m.rowOpen && ModuleIsAuthored(items) && LeavesTheName(items) && IsAuthored(Call(name, "(", arg, ")"))
    ensures Within(Eval(m, ScopeOf(InstrumentModule(items, "")), depth, Call(name, "(", arg, ")"), s).log, Found(items))
  {
    InstrumentedCodeMeansTheSame(m, items, depth, name, arg, s);
    FunctionsAreAuthored(items);
    FunctionsAreOffered(items, "", Found(items));
    TraceReports(m, ScopeOf(items), Found(items), depth, Call(name, "(", arg, ")"), "", Unwalked, 0, 0, s);
  }
}
