/** What loading a module does: its own statements run, and no row is open yet. */
module Loading {
  import opened BranchIds
  import opened Meaning
  import opened RowCode

  // `sc` are the names bound so far: a statement can call the functions above it.
  function Load<V(==), S>(m: Machine<V, S>, sc: Scope, items: seq<Item>, depth: nat, s: S): Ran<Ending<V>, S>
    decreases items
  {
    if items == [] then Ran(Normal, s, [])
    else if items[0].Define? then Load(m, Bound(sc, items[0]), items[1..], depth, s)
    else
      var x := ExecStmt(m, sc, depth, items[0].stmt, s);
      if !x.result.Normal? then x
      else
        var y := Load(m, Bound(sc, items[0]), items[1..], depth, x.state);
        y.(log := x.log + y.log)
  }

  // The same of authored code, each arm named as it is entered.
  function TraceLoad<V(==), S>(m: Machine<V, S>, sc: Scope, items: seq<Item>, depth: nat, s: S): Ran<Ending<V>, S>
    decreases items
  {
    if items == [] then Ran(Normal, s, [])
    else if items[0].Define? then TraceLoad(m, Bound(sc, items[0]), items[1..], depth, s)
    else
      var x := TraceStmt(m, sc, depth, items[0].stmt, Unwalked, 0, s);
      if !x.result.Normal? then x
      else
        var y := TraceLoad(m, Bound(sc, items[0]), items[1..], depth, x.state);
        y.(log := x.log + y.log)
  }

  lemma {:induction false} BoundIsAuthored(sc: Scope, item: Item)
    requires AreAuthored(sc.fs) && ItemIsAuthored(item)
    ensures AreAuthored(Bound(sc, item).fs)
  {
  }

  lemma {:induction false} LoadIsTrace<V, S>(m: Machine<V, S>, sc: Scope, after: Scope, items: seq<Item>,
                                             before: string, depth: nat, s: S)
    requires IsRewritten(sc, after) && AreAuthored(sc.fs) && ModuleIsAuthored(items) && LeavesTheName(items)
    ensures Load(m, after, InstrumentModule(items, before), depth, s) == TraceLoad(m, sc, items, depth, s)
    decreases items
  {
    if items != [] {
      var rest := before + ItemText(items[0]);
      var all := InstrumentModule(items, before);
      assert all[0] == InstrumentItem(items[0], before) && all[1..] == InstrumentModule(items[1..], rest);
      assert ItemIsAuthored(items[0]) && ItemLeavesTheName(items[0]);
      BoundIsRewritten(sc, after, items[0], before);
      BoundIsAuthored(sc, items[0]);
      var next := s;
      if items[0].Top? {
        UnwalkedStmtIsTrace(m, sc, after, depth, items[0].stmt, 0, s);
        next := TraceStmt(m, sc, depth, items[0].stmt, Unwalked, 0, s).state;
      }
      LoadIsTrace(m, Bound(sc, items[0]), Bound(after, all[0]), items[1..], rest, depth, next);
    }
  }

  lemma {:induction false} TraceIsLoad<V, S>(m: Machine<V, S>, sc: Scope, items: seq<Item>, depth: nat, s: S)
    requires AreAuthored(sc.fs) && ModuleIsAuthored(items)
    ensures Load(m, sc, items, depth, s) == Quiet(TraceLoad(Opened(m), sc, items, depth, s))
    decreases items
  {
    if items != [] {
      assert ItemIsAuthored(items[0]);
      BoundIsAuthored(sc, items[0]);
      var next := s;
      if items[0].Top? {
        StmtIsExec(m, sc, depth, items[0].stmt, Unwalked, 0, s);
        next := TraceStmt(Opened(m), sc, depth, items[0].stmt, Unwalked, 0, s).state;
      }
      TraceIsLoad(m, Bound(sc, items[0]), items[1..], depth, next);
    }
  }

  // ---------------------------------------------------------------- with no row open

  // No handler of the code catches the recorder's refusal, and no `with` swallows it.
  ghost predicate IsUncaught<V(!new), S(!new)>(m: Machine<V, S>) {
    && (forall head: string, s: S :: !m.catches(head, m.recordingError, s))
    && forall head: string, v: V, s: S :: m.leaveWith(head, v, Raise(m.recordingError), s).0 == Raise(m.recordingError)
  }

  // A run `o` with a row open, and `c` with none: until the first report they are the same, and that is
  // where `c` ends.
  ghost predicate Matches<V(!new), S(!new)>(m: Machine<V, S>, o: Ran<Result<V>, S>, c: Ran<Result<V>, S>) {
    && (o.log == [] ==> c == o)
    && (o.log != [] && IsUncaught(m) ==> c.result == Raised(m.recordingError))
  }

  ghost predicate EndsAlike<V(!new), S(!new)>(m: Machine<V, S>, o: Ran<Ending<V>, S>, c: Ran<Ending<V>, S>) {
    && (o.log == [] ==> c == o)
    && (o.log != [] && IsUncaught(m) ==> c.result == Raise(m.recordingError))
  }

  lemma {:induction false} ExprMatches<V(!new), S(!new)>(m: Machine<V, S>, sc: Scope, depth: nat, e: Expr,
                                                         w: Walk, index: nat, n: nat, s: S)
    requires IsAuthored(e) && AreAuthored(sc.fs)
    ensures Matches(m, Trace(Opened(m), sc, depth, e, w, index, n, s), Trace(Closed(m), sc, depth, e, w, index, n, s))
    decreases depth, e, 1
  {
    match e
    case Atom(_) =>
    case Deferred(_) =>
    case Paren(_, inner, _) => ExprMatches(m, sc, depth, inner, w, index, n, s);
    case Binary(l, _, r) => SidesMatch(m, sc, depth, e, l, r, w, index, n, s);
    case Or(l, _, r) => SidesMatch(m, sc, depth, e, l, r, w, index, n, s);
    case Call(_, _, _, _) => CallMatches(m, sc, depth, e, w, index, n, s);
    case Choice(_, _, _, _, _) => LinkMatches(m, sc, depth, e, w, index, n, OfIf, n + 1, s);
  }

  lemma {:induction false} SidesMatch<V(!new), S(!new)>(m: Machine<V, S>, sc: Scope, depth: nat, e: Expr,
                                                        l: Expr, r: Expr, w: Walk, index: nat, n: nat, s: S)
    requires (e.Binary? || e.Or?) && e.lhs == l && e.rhs == r && IsAuthored(e) && AreAuthored(sc.fs)
    ensures Matches(m, Trace(Opened(m), sc, depth, e, w, index, n, s), Trace(Closed(m), sc, depth, e, w, index, n, s))
    decreases depth, e, 0
  {
    ExprMatches(m, sc, depth, l, w, index, n, s);
    ExprMatches(m, sc, depth, r, w, index, n + Chains(l), Trace(Opened(m), sc, depth, l, w, index, n, s).state);
  }

  lemma {:induction false} CallMatches<V(!new), S(!new)>(m: Machine<V, S>, sc: Scope, depth: nat, e: Expr,
                                                         w: Walk, index: nat, n: nat, s: S)
    requires e.Call? && IsAuthored(e) && AreAuthored(sc.fs)
    ensures Matches(m, Trace(Opened(m), sc, depth, e, w, index, n, s), Trace(Closed(m), sc, depth, e, w, index, n, s))
    decreases depth, e, 0
  {
    ExprMatches(m, sc, depth, e.arg, w, index, n, s);
    var a := Trace(Opened(m), sc, depth, e.arg, w, index, n, s);
    var called := Resolve(sc, e.callee);
    if called.Defined? && depth > 0 && a.result.Value? {
      var f := sc.fs[called.i];
      BlockMatches(m, Called(sc, called.i), depth - 1, f.body, Walked(Root(f.name)), 0,
                   m.enter(e.callee, a.result.value, a.state));
    }
    if a.result.Value? {
      var v := a.result.value;
      assert Matches(m, TraceInvoke(Opened(m), sc, depth, e.callee, v, a.state),
                     TraceInvoke(Closed(m), sc, depth, e.callee, v, a.state));
    }
  }

  lemma {:induction false} LinkMatches<V(!new), S(!new)>(m: Machine<V, S>, sc: Scope, depth: nat, e: Expr,
                                                         w: Walk, index: nat, order: nat, kind: Kind, n: nat, s: S)
    requires e.Choice? && IsAuthored(e) && AreAuthored(sc.fs)
    ensures Matches(m, TraceLink(Opened(m), sc, depth, e, w, index, order, kind, n, s),
                    TraceLink(Closed(m), sc, depth, e, w, index, order, kind, n, s))
    decreases depth, e, 0
  {
    ExprMatches(m, sc, depth, e.test, w, index, n, s);
    var a := Trace(Opened(m), sc, depth, e.test, w, index, n, s);
    var k := n + Chains(e.test);
    ArmMatches(m, sc, depth, e.body, w, index, ArmAt(Path(w), index, order, kind), k, a.state);
    RestMatches(m, sc, depth, e.orelse, w, index, order, kind, k + Chains(e.body), a.state);
  }

  lemma {:induction false} RestMatches<V(!new), S(!new)>(m: Machine<V, S>, sc: Scope, depth: nat, e: Expr,
                                                         w: Walk, index: nat, order: nat, kind: Kind, n: nat, s: S)
    requires IsAuthored(e) && AreAuthored(sc.fs)
    ensures Matches(m, TraceRest(Opened(m), sc, depth, e, w, index, order, kind, n, s),
                    TraceRest(Closed(m), sc, depth, e, w, index, order, kind, n, s))
    decreases depth, e, 3
  {
    if e.Paren? && IsChain(e) {
      RestMatches(m, sc, depth, e.inner, w, index, order, kind, n, s);
    } else if e.Choice? {
      LinkMatches(m, sc, depth, e, w, index, order, NextElif(kind), n, s);
    } else {
      ArmMatches(m, sc, depth, e, w, index, ArmAt(Path(w), index, order, OfElse), n, s);
    }
  }

  lemma {:induction false} ArmMatches<V(!new), S(!new)>(m: Machine<V, S>, sc: Scope, depth: nat, e: Expr,
                                                        w: Walk, index: nat, id: Id, n: nat, s: S)
    requires IsAuthored(e) && AreAuthored(sc.fs)
    ensures Matches(m, TraceArm(Opened(m), sc, depth, e, w, index, id, n, s),
                    TraceArm(Closed(m), sc, depth, e, w, index, id, n, s))
    decreases depth, e, 2
  {
    ExprMatches(m, sc, depth, e, w, index, n, s);
  }

  lemma {:induction false} BlockMatches<V(!new), S(!new)>(m: Machine<V, S>, sc: Scope, depth: nat, b: Block,
                                                          w: Walk, index: nat, s: S)
    requires BlockIsAuthored(b) && AreAuthored(sc.fs)
    ensures EndsAlike(m, TraceBlock(Opened(m), sc, depth, b, w, index, s),
                      TraceBlock(Closed(m), sc, depth, b, w, index, s))
    decreases depth, b, 0
  {
    var first := if b.Last? then b.only else b.first;
    StmtMatches(m, sc, depth, first, w, index, s);
    if b.More? {
      BlockMatches(m, sc, depth, b.rest, w, index + 1, TraceStmt(Opened(m), sc, depth, first, w, index, s).state);
    }
  }

  lemma {:induction false} SuiteMatches<V(!new), S(!new)>(m: Machine<V, S>, sc: Scope, depth: nat, b: Block,
                                                          w: Walk, id: Id, s: S)
    requires BlockIsAuthored(b) && AreAuthored(sc.fs)
    ensures EndsAlike(m, TraceSuite(Opened(m), sc, depth, b, w, id, s), TraceSuite(Closed(m), sc, depth, b, w, id, s))
    decreases depth, b, 1
  {
    BlockMatches(m, sc, depth, b, Below(w, id), 0, s);
  }

  lemma {:induction false} StmtMatches<V(!new), S(!new)>(m: Machine<V, S>, sc: Scope, depth: nat, s: Stmt,
                                                         w: Walk, index: nat, state: S)
    requires StmtIsAuthored(s) && AreAuthored(sc.fs)
    ensures EndsAlike(m, TraceStmt(Opened(m), sc, depth, s, w, index, state),
                      TraceStmt(Closed(m), sc, depth, s, w, index, state))
    decreases depth, s, 1
  {
    match s
    case Simple(_, value, _) => ExprMatches(m, sc, depth, value, w, index, 0, state);
    case If(_, test, body, orelse) =>
      ExprMatches(m, sc, depth, test, w, index, 0, state);
      var a := Trace(Opened(m), sc, depth, test, w, index, 0, state);
      SuiteMatches(m, sc, depth, body.block, w, SuiteAt(Path(w), index, OfIf), a.state);
      ElifMatches(m, sc, depth, orelse, w, index, OfIf, a.state);
    case Try(_, _, _, _) => TryMatches(m, sc, depth, s, w, index, state);
    case Inside(way, head, value, body) =>
      ExprMatches(m, sc, depth, value, w, index, 0, state);
      var a := Trace(Opened(m), sc, depth, value, w, index, 0, state);
      if a.result.Value? { InsideMatches(m, sc, depth, way, head, a.result.value, body.block, a.state); }
    case Definition(_) =>
  }

  lemma {:induction false} TryMatches<V(!new), S(!new)>(m: Machine<V, S>, sc: Scope, depth: nat, s: Stmt,
                                                        w: Walk, index: nat, state: S)
    requires s.Try? && StmtIsAuthored(s) && AreAuthored(sc.fs)
    ensures EndsAlike(m, TraceStmt(Opened(m), sc, depth, s, w, index, state),
                      TraceStmt(Closed(m), sc, depth, s, w, index, state))
    decreases depth, s, 0
  {
    var id := SuiteAt(Path(w), index, OfTry);
    SuiteMatches(m, sc, depth, s.body.block, w, id, state);
    var o := TraceSuite(Opened(m), sc, depth, s.body.block, w, id, state);
    var c := TraceSuite(Closed(m), sc, depth, s.body.block, w, id, state);
    if o.result.Raise? {
      HandlerMatches(m, sc, depth, s.handlers, w, index, 0, o.result.error, o.state);
    } else {
      ElseMatches(m, sc, depth, s.orelse, w, index, o.state);
    }
    if o.log != [] && IsUncaught(m) { NoneCatches(m, sc, depth, s.handlers, w, index, 0, c.state); }
  }

  lemma {:induction false} NoneCatches<V(!new), S(!new)>(m: Machine<V, S>, sc: Scope, depth: nat, hs: Handlers,
                                                         w: Walk, index: nat, position: nat, s: S)
    requires IsUncaught(m)
    ensures TraceHandler(Closed(m), sc, depth, hs, w, index, position, m.recordingError, s)
        == Ran(Raise(m.recordingError), s, [])
  {
    if hs.Handler? { NoneCatches(m, sc, depth, hs.rest, w, index, position + 1, s); }
  }

  lemma {:induction false} InsideMatches<V(!new), S(!new)>(m: Machine<V, S>, sc: Scope, depth: nat, way: Way,
                                                           head: string, v: V, body: Block, s: S)
    requires BlockIsAuthored(body) && AreAuthored(sc.fs)
    ensures way.For? ==>
      EndsAlike(m, TraceFor(Opened(m), sc, depth, head, v, body, s), TraceFor(Closed(m), sc, depth, head, v, body, s))
    ensures way.With? ==>
      EndsAlike(m, TraceWith(Opened(m), sc, depth, head, v, body, s), TraceWith(Closed(m), sc, depth, head, v, body, s))
    decreases depth, body, 2, 0
  {
    if way.For? {
      var vs := m.elements(v, s);
      if vs.0.Items? { EachMatches(m, sc, depth, head, vs.0.values, body, vs.1); }
    } else {
      BlockMatches(m, sc, depth, body, Unwalked, 0, m.enterWith(head, v, s).1);
    }
  }

  lemma {:induction false} EachMatches<V(!new), S(!new)>(m: Machine<V, S>, sc: Scope, depth: nat, head: string,
                                                         vs: seq<V>, body: Block, s: S)
    requires BlockIsAuthored(body) && AreAuthored(sc.fs)
    ensures EndsAlike(m, TraceEach(Opened(m), sc, depth, head, vs, body, s),
                      TraceEach(Closed(m), sc, depth, head, vs, body, s))
    decreases depth, body, 1, |vs|
  {
    if vs != [] {
      var at := m.bind(head, vs[0], s);
      BlockMatches(m, sc, depth, body, Unwalked, 0, at);
      EachMatches(m, sc, depth, head, vs[1..], body, TraceBlock(Opened(m), sc, depth, body, Unwalked, 0, at).state);
    }
  }

  lemma {:induction false} ElifMatches<V(!new), S(!new)>(m: Machine<V, S>, sc: Scope, depth: nat, o: Orelse,
                                                         w: Walk, index: nat, kind: Kind, s: S)
    requires OrelseIsAuthored(o) && AreAuthored(sc.fs)
    ensures EndsAlike(m, TraceElif(Opened(m), sc, depth, o, w, index, kind, s),
                      TraceElif(Closed(m), sc, depth, o, w, index, kind, s))
    decreases depth, o, 1
  {
    if o.Else? && IsElif(o.suite.block) {
      var elif, next := o.suite.block.only, NextElif(kind);
      ElifIsAuthored(o);
      ExprMatches(m, sc, depth, elif.test, Unwalked, 0, 0, s);
      var a := Trace(Opened(m), sc, depth, elif.test, Unwalked, 0, 0, s);
      SuiteMatches(m, sc, depth, elif.body.block, w, SuiteAt(Path(w), index, next), a.state);
      ElifMatches(m, sc, depth, elif.orelse, w, index, next, a.state);
    } else {
      ElseMatches(m, sc, depth, o, w, index, s);
    }
  }

  lemma {:induction false} ElseMatches<V(!new), S(!new)>(m: Machine<V, S>, sc: Scope, depth: nat, o: Orelse,
                                                         w: Walk, index: nat, s: S)
    requires OrelseIsAuthored(o) && AreAuthored(sc.fs)
    ensures EndsAlike(m, TraceElse(Opened(m), sc, depth, o, w, index, s),
                      TraceElse(Closed(m), sc, depth, o, w, index, s))
    decreases depth, o, 0
  {
    if o.Else? { SuiteMatches(m, sc, depth, o.suite.block, w, SuiteAt(Path(w), index, OfElse), s); }
  }

  lemma {:induction false} HandlerMatches<V(!new), S(!new)>(m: Machine<V, S>, sc: Scope, depth: nat,
                                                            hs: Handlers, w: Walk, index: nat, position: nat, error: V,
                                                            s: S)
    requires HandlersAreAuthored(hs) && AreAuthored(sc.fs)
    ensures EndsAlike(m, TraceHandler(Opened(m), sc, depth, hs, w, index, position, error, s),
                      TraceHandler(Closed(m), sc, depth, hs, w, index, position, error, s))
    decreases depth, hs, 0
  {
    if hs.Handler? {
      SuiteMatches(m, sc, depth, hs.suite.block, w, SuiteAt(Path(w), index, OfExcept(position)), s);
      HandlerMatches(m, sc, depth, hs.rest, w, index, position + 1, error, s);
    }
  }

  lemma {:induction false} LoadMatches<V(!new), S(!new)>(m: Machine<V, S>, sc: Scope, items: seq<Item>,
                                                         depth: nat, s: S)
    requires AreAuthored(sc.fs) && ModuleIsAuthored(items)
    ensures EndsAlike(m, TraceLoad(Opened(m), sc, items, depth, s), TraceLoad(Closed(m), sc, items, depth, s))
    decreases items
  {
    if items != [] {
      assert ItemIsAuthored(items[0]);
      BoundIsAuthored(sc, items[0]);
      var next := s;
      if items[0].Top? {
        StmtMatches(m, sc, depth, items[0].stmt, Unwalked, 0, s);
        next := TraceStmt(Opened(m), sc, depth, items[0].stmt, Unwalked, 0, s).state;
      }
      LoadMatches(m, Bound(sc, items[0]), items[1..], depth, next);
    }
  }

  // ---------------------------------------------------------------- which modules load

  // No name is bound yet.
  function Nothing(): Scope { Scope([], {}, {}) }

  // The arms entered by the module's own statements, in the functions they call.
  function Entering<V(==), S>(m: Machine<V, S>, items: seq<Item>, depth: nat, s: S): seq<Id> {
    TraceLoad(Opened(m), Nothing(), items, depth, s).log
  }

  function Authored<V(==), S>(m: Machine<V, S>, items: seq<Item>, depth: nat, s: S): Ran<Ending<V>, S> {
    Load(Closed(m), Nothing(), items, depth, s)
  }

  function Loaded<V(==), S>(m: Machine<V, S>, items: seq<Item>, depth: nat, s: S): Ran<Ending<V>, S> {
    Load(Closed(m), Nothing(), InstrumentModule(items, ""), depth, s)
  }

  // A module is loaded before any row is open. Rewritten, it loads as it did authored where its own
  // statements enter no branch; where they enter one, the report is refused and, unless the code catches
  // that, the load fails.
  lemma {:induction false} AModuleLoadsExactlyWhenItEntersNoBranch<V(!new), S(!new)>(m: Machine<V, S>, items: seq<Item>,
          depth: nat, s: S)
    requires ModuleIsAuthored(items) && LeavesTheName(items)
    ensures Entering(m, items, depth, s) == [] ==> Loaded(m, items, depth, s) == Authored(m, items, depth, s)
    ensures Entering(m, items, depth, s) != [] && IsUncaught(m)
        ==> Loaded(m, items, depth, s).result == Raise(m.recordingError)
    ensures IsUncaught(m) && Authored(m, items, depth, s).result != Raise(m.recordingError) ==>
      (Loaded(m, items, depth, s) == Authored(m, items, depth, s) <==> Entering(m, items, depth, s) == [])
  {
    LoadIsTrace(Closed(m), Nothing(), Nothing(), items, "", depth, s);
    TraceIsLoad(Closed(m), Nothing(), items, depth, s);
    LoadMatches(m, Nothing(), items, depth, s);
    assert Opened(Closed(m)) == Opened(m);
  }

  // ---------------------------------------------------------------- one that does not

  // Numbers for values; `n` is read off the state, which is the caller's argument.
  function Small(catching: bool): Machine<int, int> {
    Machine(
      -1, (v: int) => v != 0, -2,
      (text: string, s: int) => (Value(if text == "n" then s else 1), s),
      (op: string, a: int, b: int, s: int) => (Value(a), s),
      (text: string, s: int) => (Value(-1), s),
      (name: string, v: int, s: int) => (Value(v), s),
      (id: Id) => -4,
      (v: int) => Root(""),
      (name: string, v: int, s: int) => v,
      (before: int, after: int) => before,
      (head: string, v: int, s: int) => (if head == "return " then Return(v) else Normal, s),
      (text: string, s: int) => (Normal, s),
      (v: int, s: int) => (Items([]), s),
      (head: string, v: int, s: int) => v,
      (head: string, v: int, s: int) => (Value(v), s),
      (head: string, v: int, ending: Ending<int>, s: int) => (ending, s),
      (head: string, error: int, s: int) => catching,
      true, -3)
  }

  // def pick(n):
  //     if n: return 1
  //     return 2
  function Pick(): Item {
    Define(Function("pick", "def pick(n):\n    ", {"n"},
      More(If("if ", Atom("n"), Suite(": ", Last(Simple("return ", Atom("1"), "\n    "))), NoElse),
           Last(Simple("return ", Atom("2"), "\n")))))
  }

  // LIMIT = pick(1), and the same under `try: .. except: LIMIT = None`.
  function SetLimit(): Stmt { Simple("LIMIT = ", Call("pick", "(", Atom("1"), ")"), "\n") }

  function SetLimitSafely(): Stmt {
    Try("try", Suite(":\n    ", Last(SetLimit())),
        Handler("except", Suite(":\n    ", Last(Simple("LIMIT = ", Atom("None"), "\n"))), NoHandlers), NoElse)
  }

  function LimitIs(stmt: Stmt): Item { Top(stmt, {"LIMIT"}) }

  function WithPick(): Scope { Scope([Pick().def], {}, {}) }

  lemma {:induction false} PickEntersItsIf(catching: bool, open: bool, s: int)
    ensures var m := Small(catching).(rowOpen := open);
      TraceStmt(m, WithPick(), 1, SetLimit(), Unwalked, 0, s)
      == if open then Ran(Normal, s, [SuiteAt(Root("pick"), 0, OfIf)]) else Ran(Raise(m.recordingError), s, [])
  {
    var m := Small(catching).(rowOpen := open);
    var sc, body, id := WithPick(), Pick().def.body, SuiteAt(Root("pick"), 0, OfIf);
    var inner := Called(sc, 0);
    var arm := TraceSuite(m, inner, 0, body.first.body.block, Walked(Root("pick")), id, 1);
    assert TraceStmt(m, inner, 0, body.first.body.block.only, Walked(id), 0, 1) == Ran(Return(1), 1, []);
    assert arm == if open then Ran(Return(1), 1, [id]) else Ran(Raise(m.recordingError), 1, []);
    assert TraceStmt(m, inner, 0, body.first, Walked(Root("pick")), 0, 1) == arm;
    assert TraceBlock(m, inner, 0, body, Walked(Root("pick")), 0, 1) == arm;
    assert Lookup(sc.fs, "pick") == 0 && Resolve(sc, "pick") == Defined(0);
    assert TraceInvoke(m, sc, 1, "pick", 1, s).log == if open then [id] else [];
    var called := Trace(m, sc, 1, SetLimit().value, Unwalked, 0, 0, s);
    assert called == if open then Ran(Value(1), s, [id]) else Ran(Raised(m.recordingError), s, []);
  }

  lemma {:induction false} PickThen(m: Machine<int, int>, stmt: Stmt, s: int)
    ensures var x := TraceStmt(m, WithPick(), 1, stmt, Unwalked, 0, s);
      TraceLoad(m, Nothing(), [Pick(), LimitIs(stmt)], 1, s) == x
  {
    var items, sc := [Pick(), LimitIs(stmt)], WithPick();
    assert items[1..] == [LimitIs(stmt)] && items[1..][1..] == [];
    assert Bound(Nothing(), Pick()) == sc;
    var x := TraceStmt(m, sc, 1, stmt, Unwalked, 0, s);
    assert TraceLoad(m, Bound(sc, items[1]), [], 1, x.state) == Ran(Normal, x.state, []);
    assert TraceLoad(m, sc, items[1..], 1, s) == x;
  }

  // As authored it loads, and rewritten it does not.
  lemma {:induction false} ACallAtTheTopDoesNotLoad()
    ensures var m, items := Small(false), [Pick(), LimitIs(SetLimit())];
      && ModuleIsAuthored(items) && LeavesTheName(items)
      && Authored(m, items, 1, 0).result == Normal
      && Loaded(m, items, 1, 0).result == Raise(m.recordingError)
  {
    var m, t := Small(false), SetLimit();
    PickIsAuthored(t);
    PickEntersItsIf(false, true, 0);
    PickEntersItsIf(false, false, 0);
    BothLoads(m, t, 0);
  }

  // Where the code catches whatever is raised, the refusal passes unseen: entering a branch does not decide.
  lemma {:induction false} ACaughtRefusalIsNotSeen()
    ensures var m, items := Small(true), [Pick(), LimitIs(SetLimitSafely())];
      && ModuleIsAuthored(items) && LeavesTheName(items)
      && Entering(m, items, 1, 0) != []
      && Loaded(m, items, 1, 0) == Authored(m, items, 1, 0)
  {
    var m, t := Small(true), SetLimitSafely();
    PickIsAuthored(t);
    SafelyEitherWay(true);
    SafelyEitherWay(false);
    BothLoads(m, t, 0);
  }

  lemma {:induction false} PickIsAuthored(stmt: Stmt)
    requires StmtIsAuthored(stmt)
    ensures ModuleIsAuthored([Pick(), LimitIs(stmt)]) && LeavesTheName([Pick(), LimitIs(stmt)])
  {
    assert BlockIsAuthored(Pick().def.body);
  }

  lemma {:induction false} BothLoads(m: Machine<int, int>, stmt: Stmt, s: int)
    requires StmtIsAuthored(stmt)
    ensures var items, sc := [Pick(), LimitIs(stmt)], WithPick();
      && Entering(m, items, 1, s) == TraceStmt(Opened(m), sc, 1, stmt, Unwalked, 0, s).log
      && Loaded(m, items, 1, s) == TraceStmt(Closed(m), sc, 1, stmt, Unwalked, 0, s)
      && Authored(m, items, 1, s) == Quiet(TraceStmt(Opened(m), sc, 1, stmt, Unwalked, 0, s))
  {
    var items := [Pick(), LimitIs(stmt)];
    PickIsAuthored(stmt);
    PickThen(Opened(m), stmt, s);
    PickThen(Closed(m), stmt, s);
    TraceIsLoad(Closed(m), Nothing(), items, 1, s);
    LoadIsTrace(Closed(m), Nothing(), Nothing(), items, "", 1, s);
  }

  lemma {:induction false} SafelyEitherWay(open: bool)
    ensures var m := Small(true).(rowOpen := open);
      TraceStmt(m, WithPick(), 1, SetLimitSafely(), Unwalked, 0, 0)
      == Ran(Normal, 0, if open then [SuiteAt(Root("pick"), 0, OfIf)] else [])
  {
    var m, sc, t := Small(true).(rowOpen := open), WithPick(), SetLimitSafely();
    PickEntersItsIf(true, open, 0);
    var body := TraceSuite(m, sc, 1, t.body.block, Unwalked, SuiteAt(Root(""), 0, OfTry), 0);
    assert body == TraceStmt(m, sc, 1, SetLimit(), Unwalked, 0, 0);
    var handled := TraceSuite(m, sc, 1, t.handlers.suite.block, Unwalked, SuiteAt(Root(""), 0, OfExcept(0)), 0);
    assert TraceStmt(m, sc, 1, t.handlers.suite.block.only, Unwalked, 0, 0) == Ran(Normal, 0, []);
    assert handled == Ran(Normal, 0, []);
    if !open {
      assert TraceHandler(m, sc, 1, t.handlers, Unwalked, 0, 0, m.recordingError, 0) == handled;
    }
  }
}
