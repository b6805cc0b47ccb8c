/** What becomes of the reports where a module binds the recorder's own name. */
module Capture {
  import opened BranchIds
  import opened Meaning
  import opened RowCode

  // What is put in is a call by name, as an author would write it: where the name is the recorder's it is
  // heard, and where the module has bound the name to something else that is what is called.
  lemma {:induction false} AReportIsACallByName<V, S>(m: Machine<V, S>, sc: Scope, depth: nat, id: Id, s: S)
    requires m.read(Quoted(id), s) == (Value(m.idText(id)), s) && m.idIn(m.idText(id)) == id
    ensures var call := Call(RECORDER, "(", Atom(Quoted(id)), ")");
      ExprText(Record(id)) == ExprText(call) && Eval(m, sc, depth, Record(id), s) == Eval(m, sc, depth, call, s)
  {
    var call, r := Call(RECORDER, "(", Atom(Quoted(id)), ")"), Invoke(m, sc, depth, RECORDER, m.idText(id), s);
    assert Eval(m, sc, depth, call.arg, s) == Ran(Value(m.idText(id)), s, []);
    assert [] + r.log == r.log;
    assert r.(log := [] + r.log) == r;
  }

  // ---------------------------------------------------------------- a module that takes the name

  // The module itself binds the name, by a function or by a statement of its own.
  ghost predicate IsTaken(sc: Scope) {
    RECORDER in sc.variables || exists f :: f in sc.fs && f.name == RECORDER
  }

  lemma {:induction false} TakenIsNotTheRecorder(sc: Scope)
    requires IsTaken(sc)
    ensures !Resolve(sc, RECORDER).Recorder?
  {
    if RECORDER !in sc.variables {
      var f :| f in sc.fs && f.name == RECORDER;
      Found(sc.fs, f);
    }
  }

  lemma {:induction false} Found(fs: seq<Function>, f: Function)
    requires f in fs
    ensures Lookup(fs, f.name) < |fs|
  {
    var n := |fs| - 1;
    if fs[n].name != f.name {
      assert fs == fs[..n] + [fs[n]];
      Found(fs[..n], f);
    }
  }

  // There no call of the recorder is ever made, in any code.
  lemma {:induction false} EvalIsSilent<V, S>(m: Machine<V, S>, sc: Scope, depth: nat, e: Expr, s: S)
    requires IsTaken(sc)
    ensures Eval(m, sc, depth, e, s).log == []
    decreases depth, 1, e
  {
    match e
    case Atom(_) =>
    case Deferred(_) =>
    case Paren(_, inner, _) => EvalIsSilent(m, sc, depth, inner, s);
    case Binary(l, _, r) => SidesAreSilent(m, sc, depth, e, l, r, s);
    case Or(l, _, r) => SidesAreSilent(m, sc, depth, e, l, r, s);
    case Call(callee, _, arg, _) =>
      EvalIsSilent(m, sc, depth, arg, s);
      var a := Eval(m, sc, depth, arg, s);
      if a.result.Value? { InvokeIsSilent(m, sc, depth, callee, a.result.value, a.state); }
    case Choice(b, _, t, _, o) =>
      EvalIsSilent(m, sc, depth, t, s);
      var a := Eval(m, sc, depth, t, s);
      EvalIsSilent(m, sc, depth, b, a.state);
      EvalIsSilent(m, sc, depth, o, a.state);
    case Record(id) =>
      TakenIsNotTheRecorder(sc);
      InvokeIsSilent(m, sc, depth, RECORDER, m.idText(id), s);
  }

  lemma {:induction false} SidesAreSilent<V, S>(m: Machine<V, S>, sc: Scope, depth: nat, e: Expr, l: Expr, r: Expr,
                                                s: S)
    requires (e.Binary? || e.Or?) && e.lhs == l && e.rhs == r && IsTaken(sc)
    ensures Eval(m, sc, depth, e, s).log == []
    decreases depth, 1, e, 0
  {
    EvalIsSilent(m, sc, depth, l, s);
    EvalIsSilent(m, sc, depth, r, Eval(m, sc, depth, l, s).state);
  }

  lemma {:induction false} InvokeIsSilent<V, S>(m: Machine<V, S>, sc: Scope, depth: nat, name: string, v: V, s: S)
    requires IsTaken(sc)
    ensures Invoke(m, sc, depth, name, v, s).log == []
    decreases depth, 0
  {
    TakenIsNotTheRecorder(sc);
    var called := Resolve(sc, name);
    if called.Defined? && depth > 0 {
      ExecIsSilent(m, Called(sc, called.i), depth - 1, sc.fs[called.i].body, m.enter(name, v, s));
    }
  }

  lemma {:induction false} ExecIsSilent<V, S>(m: Machine<V, S>, sc: Scope, depth: nat, b: Block, s: S)
    requires IsTaken(sc)
    ensures Exec(m, sc, depth, b, s).log == []
    decreases depth, 1, b, 0
  {
    var first := if b.Last? then b.only else b.first;
    StmtIsSilent(m, sc, depth, first, s);
    if b.More? { ExecIsSilent(m, sc, depth, b.rest, ExecStmt(m, sc, depth, first, s).state); }
  }

  lemma {:induction false} StmtIsSilent<V, S>(m: Machine<V, S>, sc: Scope, depth: nat, s: Stmt, state: S)
    requires IsTaken(sc)
    ensures ExecStmt(m, sc, depth, s, state).log == []
    decreases depth, 1, s, 0
  {
    match s
    case Simple(_, value, _) => EvalIsSilent(m, sc, depth, value, state);
    case If(_, test, body, orelse) =>
      EvalIsSilent(m, sc, depth, test, state);
      var a := Eval(m, sc, depth, test, state);
      ExecIsSilent(m, sc, depth, body.block, a.state);
      ElseIsSilent(m, sc, depth, orelse, a.state);
    case Try(_, body, handlers, orelse) =>
      ExecIsSilent(m, sc, depth, body.block, state);
      var x := Exec(m, sc, depth, body.block, state);
      if x.result.Raise? { HandlerIsSilent(m, sc, depth, handlers, x.result.error, x.state); }
      ElseIsSilent(m, sc, depth, orelse, x.state);
    case Inside(way, head, value, body) =>
      EvalIsSilent(m, sc, depth, value, state);
      var a := Eval(m, sc, depth, value, state);
      if a.result.Value? { InsideIsSilent(m, sc, depth, way, head, a.result.value, body.block, a.state); }
    case Definition(_) =>
  }

  lemma {:induction false} InsideIsSilent<V, S>(m: Machine<V, S>, sc: Scope, depth: nat, way: Way, head: string, v: V,
                                                body: Block, s: S)
    requires IsTaken(sc)
    ensures way.For? ==> ExecFor(m, sc, depth, head, v, body, s).log == []
    ensures way.With? ==> ExecWith(m, sc, depth, head, v, body, s).log == []
    decreases depth, 1, body, 2, 0
  {
    if way.For? {
      var vs := m.elements(v, s);
      if vs.0.Items? { EachIsSilent(m, sc, depth, head, vs.0.values, body, vs.1); }
    } else {
      ExecIsSilent(m, sc, depth, body, m.enterWith(head, v, s).1);
    }
  }

  lemma {:induction false} EachIsSilent<V, S>(m: Machine<V, S>, sc: Scope, depth: nat, head: string, vs: seq<V>,
                                              body: Block, s: S)
    requires IsTaken(sc)
    ensures ExecEach(m, sc, depth, head, vs, body, s).log == []
    decreases depth, 1, body, 1, |vs|
  {
    if vs != [] {
      var at := m.bind(head, vs[0], s);
      ExecIsSilent(m, sc, depth, body, at);
      EachIsSilent(m, sc, depth, head, vs[1..], body, Exec(m, sc, depth, body, at).state);
    }
  }

  lemma {:induction false} ElseIsSilent<V, S>(m: Machine<V, S>, sc: Scope, depth: nat, o: Orelse, s: S)
    requires IsTaken(sc)
    ensures ExecElse(m, sc, depth, o, s).log == []
    decreases depth, 1, o, 0
  {
    if o.Else? { ExecIsSilent(m, sc, depth, o.suite.block, s); }
  }

  lemma {:induction false} HandlerIsSilent<V, S>(m: Machine<V, S>, sc: Scope, depth: nat, hs: Handlers, error: V, s: S)
    requires IsTaken(sc)
    ensures ExecHandler(m, sc, depth, hs, error, s).log == []
    decreases depth, 1, hs, 0
  {
    if hs.Handler? {
      ExecIsSilent(m, sc, depth, hs.suite.block, s);
      HandlerIsSilent(m, sc, depth, hs.rest, error, s);
    }
  }

  lemma {:induction false} TakenStaysTaken(items: seq<Item>)
    requires IsTaken(ScopeOf(items))
    ensures IsTaken(ScopeOf(InstrumentModule(items, "")))
  {
    var sc, after := ScopeOf(items), ScopeOf(InstrumentModule(items, ""));
    ScopeIsAlike(items, "");
    if RECORDER !in sc.variables {
      var f :| f in sc.fs && f.name == RECORDER;
      var i :| 0 <= i < |sc.fs| && sc.fs[i] == f;
      assert IsRewrittenFunction(sc.fs[i], after.fs[i]);
      assert after.fs[i] in after.fs;
    }
  }

  // Where the module binds the name, the recorder hears nothing of any row; so a row that enters an arm is
  // never told.
  lemma {:induction false} ATakenNameHearsNothing<V, S>(m: Machine<V, S>, items: seq<Item>, depth: nat, call: Expr,
                                                        s: S)
    requires IsTaken(ScopeOf(items))
    ensures var ran := Eval(m, ScopeOf(InstrumentModule(items, "")), depth, call, s);
      var authored := Trace(m, ScopeOf(items), depth, call, Unwalked, 0, 0, s);
      ran.log == [] && (ran == authored ==> authored.log == [])
  {
    TakenStaysTaken(items);
    EvalIsSilent(m, ScopeOf(InstrumentModule(items, "")), depth, call, s);
  }

  // ---------------------------------------------------------------- one such

  datatype Val = None | Num(n: int) | Text(id: Id)

  // The state is the argument of the function that runs, which the code calls `n`.
  function Small(): Machine<Val, Val> {
    Machine(
      None, (v: Val) => v != Num(0), Num(-1),
      (text: string, s: Val) => (Value(if text == "n" then s else if text == "1" then Num(1) else Num(2)), s),
      (op: string, a: Val, b: Val, s: Val) => (Value(a), s),
      (text: string, s: Val) => (Value(None), s),
      (name: string, v: Val, s: Val) => (Value(v), s),
      (id: Id) => Text(id),
      (v: Val) => if v.Text? then v.id else Root(""),
      (name: string, v: Val, s: Val) => v,
      (before: Val, after: Val) => before,
      (head: string, v: Val, s: Val) => (if head == "return " then Return(v) else Normal, s),
      (text: string, s: Val) => (Normal, s),
      (v: Val, s: Val) => (Items([]), s),
      (head: string, v: Val, s: Val) => v,
      (head: string, v: Val, s: Val) => (Value(v), s),
      (head: string, v: Val, ending: Ending<Val>, s: Val) => (ending, s),
      (head: string, error: Val, s: Val) => false,
      true, Num(-2))
  }

  // def record_branch(n): return n
  function Taker(): Item {
    Define(Function(RECORDER, "def record_branch(n): ", {"n"}, Last(Simple("return ", Atom("n"), "\n"))))
  }

  // def pick(n): return 1 if n else 2
  function Pick(): Item {
    Define(Function("pick", "def pick(n): ", {"n"},
      Last(Simple("return ", Choice(Atom("1"), " if ", Atom("n"), " else ", Atom("2")), "\n"))))
  }

  function Both(pick: Function): Scope { Scope([Taker().def, pick], {}, {}) }

  // `pick` with each of its two arms reporting itself.
  function PickRewritten(): Function {
    var id, other := ArmAt(Root("pick"), 0, 0, OfIf), ArmAt(Root("pick"), 0, 0, OfElse);
    Pick().def.(body := Last(Simple("return ",
      Choice(Reporting(id, Atom("1")), " if ", Atom("n"), " else ", Reporting(other, Atom("2"))), "\n")))
  }

  lemma {:induction false} TheTwoScopes()
    ensures var items := [Taker(), Pick()];
      ScopeOf(items) == Both(Pick().def) && ScopeOf(InstrumentModule(items, "")) == Both(PickRewritten())
  {
    var items := [Taker(), Pick()];
    TwoStatements(items);
    var between := "" + ItemText(Taker());
    var after := InstrumentModule(items, "");
    assert items[1..] == [Pick()] && items[1..][1..] == [];
    assert InstrumentModule(items[1..], between) == [InstrumentItem(Pick(), between)] + [];
    assert after == [InstrumentItem(Taker(), ""), InstrumentItem(Pick(), between)];
    TwoStatements(after);
    TheTwoBodies("" + Taker().def.head, between + Pick().def.head);
  }

  lemma {:induction false} TheTwoBodies(before: string, between: string)
    ensures InstrumentBlock(Taker().def.body, before, Root(RECORDER), 0) == Taker().def.body
    ensures InstrumentBlock(Pick().def.body, between, Root("pick"), 0) == PickRewritten().body
  {
    var taken, picked := Taker().def.body.only, Pick().def.body.only;
    assert InstrumentStmt(taken, before, Root(RECORDER), 0) == taken;
    var at, e, after := Root("pick"), picked.value, PickRewritten().body.only.value;
    assert WrapArm(e.body, ArmAt(at, 0, 0, OfIf), at, 0, 1) == after.body;
    assert Follow(e.orelse, at, 0, 0, OfIf, 1) == after.orelse;
    assert Link(e, at, 0, 0, OfIf, 1) == after;
    assert InstrumentStmt(picked, between, at, 0) == PickRewritten().body.only;
  }

  lemma {:induction false} TwoStatements(items: seq<Item>)
    requires |items| == 2 && items[0].Define? && items[1].Define?
    ensures ScopeOf(items) == Scope([items[0].def, items[1].def], {}, {})
  {
    assert items[..1] == [items[0]] && items[..1][..0] == [];
    assert ScopeOf(items[..1]) == Bound(Scope([], {}, {}), items[0]);
  }

  lemma {:induction false} TheirNames(pick: Function)
    requires pick.name == "pick"
    ensures Resolve(Both(pick), "pick") == Defined(1) && Resolve(Both(pick), RECORDER) == Defined(0)
    ensures Resolve(Called(Both(pick), 1), RECORDER) == Defined(0) || RECORDER in pick.names
  {
    var fs := Both(pick).fs;
    assert fs[..1] == [Taker().def] && Taker().def.name == RECORDER;
    assert |RECORDER| != |"pick"|;
    assert Lookup(fs[..1], RECORDER) == 0;
  }

  // Authored, pick(1) is 1; rewritten it is the text of an id, and nothing is recorded.
  lemma {:induction false} ATakenNameAnswersForTheRow(s: Val)
    ensures var m, items, call := Small(), [Taker(), Pick()], Call("pick", "(", Atom("1"), ")");
      var id := ArmAt(Root("pick"), 0, 0, OfIf);
      && ModuleIsAuthored(items) && !LeavesTheName(items)
      && Trace(m, ScopeOf(items), 2, call, Unwalked, 0, 0, s) == Ran(Value(Num(1)), s, [id])
      && Eval(m, ScopeOf(InstrumentModule(items, "")), 2, call, s) == Ran(Value(Text(id)), s, [])
  {
    var items := [Taker(), Pick()];
    assert !ItemLeavesTheName(items[0]);
    assert BlockIsAuthored(Taker().def.body) && BlockIsAuthored(Pick().def.body);
    TheTwoScopes();
    AsAuthored(s);
    AsRewritten(s);
  }

  lemma {:induction false} AsAuthored(s: Val)
    ensures Trace(Small(), Both(Pick().def), 2, Call("pick", "(", Atom("1"), ")"), Unwalked, 0, 0, s)
         == Ran(Value(Num(1)), s, [ArmAt(Root("pick"), 0, 0, OfIf)])
  {
    var m, sc, at, id := Small(), Both(Pick().def), Num(1), ArmAt(Root("pick"), 0, 0, OfIf);
    var w, stmt := Walked(Root("pick")), Pick().def.body.only;
    TheirNames(Pick().def);
    var inner := Called(sc, 1);
    assert Trace(m, inner, 1, Atom("n"), w, 0, 1, at) == Ran(Value(at), at, []);
    assert TraceArm(m, inner, 1, Atom("1"), w, 0, id, 1, at) == Ran(Value(Num(1)), at, [id]);
    assert TraceLink(m, inner, 1, stmt.value, w, 0, 0, OfIf, 1, at) == Ran(Value(Num(1)), at, [id]);
    assert TraceStmt(m, inner, 1, stmt, w, 0, at) == Ran(Return(Num(1)), at, [id]);
    assert TraceBlock(m, inner, 1, Pick().def.body, w, 0, at) == Ran(Return(Num(1)), at, [id]);
    assert TraceInvoke(m, sc, 2, "pick", at, s) == Ran(Value(Num(1)), s, [id]);
  }

  lemma {:induction false} AsRewritten(s: Val)
    ensures Eval(Small(), Both(PickRewritten()), 2, Call("pick", "(", Atom("1"), ")"), s)
         == Ran(Value(Text(ArmAt(Root("pick"), 0, 0, OfIf))), s, [])
  {
    var m, sc, at, id := Small(), Both(PickRewritten()), Num(1), ArmAt(Root("pick"), 0, 0, OfIf);
    TheirNames(PickRewritten());
    var inner := Called(sc, 1);
    var stmt := PickRewritten().body.only;
    assert Exec(m, Called(inner, 0), 0, Taker().def.body, Text(id))
        == ExecStmt(m, Called(inner, 0), 0, Taker().def.body.only, Text(id)) == Ran(Return(Text(id)), Text(id), []);
    assert Invoke(m, inner, 1, RECORDER, Text(id), at) == Ran(Value(Text(id)), at, []);
    assert Eval(m, inner, 1, Record(id), at) == Ran(Value(Text(id)), at, []);
    assert Eval(m, inner, 1, Or(Record(id), " or ", Paren("(", Atom("1"), ")")), at) == Ran(Value(Text(id)), at, []);
    assert Eval(m, inner, 1, Reporting(id, Atom("1")), at) == Ran(Value(Text(id)), at, []);
    assert Eval(m, inner, 1, stmt.value, at) == Ran(Value(Text(id)), at, []);
    assert ExecStmt(m, inner, 1, stmt, at) == Ran(Return(Text(id)), at, []);
    assert Exec(m, inner, 1, PickRewritten().body, at) == Ran(Return(Text(id)), at, []);
    assert Invoke(m, sc, 2, "pick", at, s) == Ran(Value(Text(id)), s, []);
  }
}
