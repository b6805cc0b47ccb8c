/** What row code does when it runs, and that reporting its branches changes none of it. */
module Meaning {
  import opened BranchIds
  import opened RowCode

  // `Eval` and `Exec` run code as it stands, calls of the recorder included. `Trace` and `TraceBlock` run
  // authored code and, beside, write down each arm the walk names as it is entered.

  datatype Result<V> = Value(value: V) | Raised(error: V)

  // What a loop goes over.
  datatype Items<V> = Items(values: seq<V>) | NotIterable(error: V)

  // How a statement ends.
  datatype Ending<V> = Normal | Return(value: V) | Break | Continue | Raise(error: V)

  // A result, the state left behind, and what was reported on the way.
  datatype Ran<R, S> = Ran(result: R, state: S, log: seq<Id>)

  // The language around the branches: what names, operators, assignments and calls do to a state.
  datatype Machine<!V, !S> = Machine(
    none: V,
    truthy: V -> bool,
    recursionError: V,
    read: (string, S) -> (Result<V>, S),
    combine: (string, V, V, S) -> (Result<V>, S),
    defer: (string, S) -> (Result<V>, S),
    call: (string, V, S) -> (Result<V>, S),
    idText: Id -> V,
    idIn: V -> Id,
    enter: (string, V, S) -> S,
    leave: (S, S) -> S,
    perform: (string, V, S) -> (Ending<V>, S),
    define: (string, S) -> (Ending<V>, S),
    elements: (V, S) -> (Items<V>, S),
    bind: (string, V, S) -> S,
    enterWith: (string, V, S) -> (Result<V>, S),
    leaveWith: (string, V, Ending<V>, S) -> (Ending<V>, S),
    catches: (string, V, S) -> bool,
    rowOpen: bool,
    recordingError: V)

  // The recorder with a row open, and with none.
  function Opened<V, S>(m: Machine<V, S>): Machine<V, S> { m.(rowOpen := true) }

  function Closed<V, S>(m: Machine<V, S>): Machine<V, S> { m.(rowOpen := false) }

  // A call of the recorder answers None, and is refused while no row is open.
  function Report<V, S>(m: Machine<V, S>, id: Id, s: S): Ran<Result<V>, S> {
    if m.rowOpen then Ran(Value(m.none), s, [id]) else Ran(Raised(m.recordingError), s, [])
  }

  // None is false; the machine says which other values are.
  predicate IsTrue<V(==), S>(m: Machine<V, S>, v: V) {
    v != m.none && m.truthy(v)
  }

  // A statement with no head is an expression on its own: its value is dropped.
  function Perform<V, S>(m: Machine<V, S>, head: string, v: V, s: S): (Ending<V>, S) {
    if head == "" then (Normal, s) else m.perform(head, v, s)
  }

  // The last function of a name is the one its callers get.
  function Lookup(fs: seq<Function>, name: string): (i: nat)
    ensures i <= |fs|
    ensures i < |fs| ==> fs[i].name == name
  {
    if fs == [] then 0
    else
      var n := |fs| - 1;
      if fs[n].name == name then n
      else
        var i := Lookup(fs[..n], name);
        if i == n then |fs| else i
  }

  // ---------------------------------------------------------------- what a name is

  // The functions of a module, its names that are bound to something else since, and the names the function
  // that runs binds itself.
  datatype Scope = Scope(fs: seq<Function>, variables: set<string>, locals: set<string>)

  datatype Named = Other | Recorder | Defined(i: nat)

  // The recorder is what its name is where the code binds that name nowhere.
  function Resolve(sc: Scope, name: string): (named: Named)
    ensures named.Defined? ==> named.i < |sc.fs| && sc.fs[named.i].name == name
  {
    if name in sc.locals || name in sc.variables then Other
    else
      var i := Lookup(sc.fs, name);
      if i < |sc.fs| then Defined(i) else if name == RECORDER then Recorder else Other
  }

  // Where the body of function `i` runs.
  function Called(sc: Scope, i: nat): Scope
    requires i < |sc.fs|
  {
    sc.(locals := sc.fs[i].names)
  }

  // After one of a module's own statements.
  function Bound(sc: Scope, item: Item): Scope {
    match item
    case Define(f) => sc.(fs := sc.fs + [f], variables := sc.variables - {f.name})
    case Top(_, names) => sc.(variables := sc.variables + names)
  }

  // Where a loaded module's functions are called from.
  function ScopeOf(items: seq<Item>): (sc: Scope)
    ensures sc.fs == Functions(items) && sc.locals == {}
  {
    if items == [] then Scope([], {}, {})
    else
      FunctionsOfMore(items);
      Bound(ScopeOf(items[..|items| - 1]), items[|items| - 1])
  }

  lemma {:induction false} FunctionsOfMore(items: seq<Item>)
    requires items != []
    ensures var last := items[|items| - 1];
      Functions(items) == Functions(items[..|items| - 1]) + (if last.Define? then [last.def] else [])
  {
    if |items| > 1 {
      FunctionsOfMore(items[1..]);
      assert items[..|items| - 1][1..] == items[1..][..|items| - 2];
    }
  }

  // No function, parameter or statement of the module binds the recorder's name.
  ghost predicate LeavesTheName(items: seq<Item>) {
    forall item :: item in items ==> ItemLeavesTheName(item)
  }

  predicate ItemLeavesTheName(item: Item) {
    match item
    case Define(f) => f.name != RECORDER && RECORDER !in f.names
    case Top(_, names) => RECORDER !in names
  }

  // Wherever this code runs, the recorder's name is the recorder.
  ghost predicate IsFree(sc: Scope) {
    && RECORDER !in sc.locals && RECORDER !in sc.variables
    && forall f :: f in sc.fs ==> f.name != RECORDER && RECORDER !in f.names
  }

  lemma {:induction false} NotDefined(fs: seq<Function>, name: string)
    requires forall f :: f in fs ==> f.name != name
    ensures Lookup(fs, name) == |fs|
  {
    if fs != [] { NotDefined(fs[..|fs| - 1], name); }
  }

  lemma {:induction false} FreeIsTheRecorder(sc: Scope)
    requires IsFree(sc)
    ensures Resolve(sc, RECORDER) == Recorder
  {
    NotDefined(sc.fs, RECORDER);
  }

  // ---------------------------------------------------------------- running code as it stands

  // `depth` is how many calls deep the run may still go.
  function Eval<V(==), S>(m: Machine<V, S>, sc: Scope, depth: nat, e: Expr, s: S): Ran<Result<V>, S>
    decreases depth, 1, e
  {
    match e
    case Atom(text) => var r := m.read(text, s); Ran(r.0, r.1, [])
    case Paren(_, inner, _) => Eval(m, sc, depth, inner, s)
    case Binary(l, op, r) =>
      var a := Eval(m, sc, depth, l, s);
      if a.result.Raised? then a
      else
        var b := Eval(m, sc, depth, r, a.state);
        if b.result.Raised? then b.(log := a.log + b.log)
        else
          var c := m.combine(op, a.result.value, b.result.value, b.state);
          Ran(c.0, c.1, a.log + b.log)
    case Or(l, _, r) =>
      var a := Eval(m, sc, depth, l, s);
      if a.result.Raised? || IsTrue(m, a.result.value) then a
      else
        var b := Eval(m, sc, depth, r, a.state);
        b.(log := a.log + b.log)
    case Call(callee, _, arg, _) =>
      var a := Eval(m, sc, depth, arg, s);
      if a.result.Raised? then a
      else
        var b := Invoke(m, sc, depth, callee, a.result.value, a.state);
        b.(log := a.log + b.log)
    case Choice(b, _, t, _, o) =>
      var a := Eval(m, sc, depth, t, s);
      if a.result.Raised? then a
      else
        var v := Eval(m, sc, depth, if IsTrue(m, a.result.value) then b else o, a.state);
        v.(log := a.log + v.log)
    case Deferred(text) => var r := m.defer(text, s); Ran(r.0, r.1, [])
    case Record(id) =>
      if Resolve(sc, RECORDER).Recorder? then Report(m, id, s)
      else Invoke(m, sc, depth, RECORDER, m.idText(id), s)
  }

  // A call, its argument evaluated: of whatever the name is there.
  function Invoke<V(==), S>(m: Machine<V, S>, sc: Scope, depth: nat, name: string, v: V, s: S): Ran<Result<V>, S>
    decreases depth, 0
  {
    match Resolve(sc, name)
    case Other => var r := m.call(name, v, s); Ran(r.0, r.1, [])
    case Recorder => Report(m, m.idIn(v), s)
    case Defined(i) =>
      if depth == 0 then Ran(Raised(m.recursionError), s, [])
      else
        var b := Exec(m, Called(sc, i), depth - 1, sc.fs[i].body, m.enter(name, v, s));
        Ran(Returned(m, b.result), m.leave(s, b.state), b.log)
  }

  function Returned<V, S>(m: Machine<V, S>, ending: Ending<V>): Result<V> {
    match ending
    case Return(v) => Value(v)
    case Raise(error) => Raised(error)
    case _ => Value(m.none)
  }

  function Exec<V(==), S>(m: Machine<V, S>, sc: Scope, depth: nat, b: Block, s: S): Ran<Ending<V>, S>
    decreases depth, 1, b, 0
  {
    match b
    case Last(only) => ExecStmt(m, sc, depth, only, s)
    case More(first, rest) =>
      var x := ExecStmt(m, sc, depth, first, s);
      if !x.result.Normal? then x
      else
        var y := Exec(m, sc, depth, rest, x.state);
        y.(log := x.log + y.log)
  }

  function ExecStmt<V(==), S>(m: Machine<V, S>, sc: Scope, depth: nat, s: Stmt, state: S): Ran<Ending<V>, S>
    decreases depth, 1, s, 0
  {
    match s
    case Simple(head, value, _) =>
      var a := Eval(m, sc, depth, value, state);
      if a.result.Raised? then Ran(Raise(a.result.error), a.state, a.log)
      else
        var p := Perform(m, head, a.result.value, a.state);
        Ran(p.0, p.1, a.log)
    case If(_, test, body, orelse) =>
      var a := Eval(m, sc, depth, test, state);
      if a.result.Raised? then Ran(Raise(a.result.error), a.state, a.log)
      else
        var x := if IsTrue(m, a.result.value) then Exec(m, sc, depth, body.block, a.state)
                 else ExecElse(m, sc, depth, orelse, a.state);
        x.(log := a.log + x.log)
    case Try(_, body, handlers, orelse) =>
      var x := Exec(m, sc, depth, body.block, state);
      if x.result.Raise? then
        var y := ExecHandler(m, sc, depth, handlers, x.result.error, x.state);
        y.(log := x.log + y.log)
      else if x.result.Normal? then
        var y := ExecElse(m, sc, depth, orelse, x.state);
        y.(log := x.log + y.log)
      else x
    case Inside(way, head, value, body) =>
      var a := Eval(m, sc, depth, value, state);
      if a.result.Raised? then Ran(Raise(a.result.error), a.state, a.log)
      else
        var x := if way.For? then ExecFor(m, sc, depth, head, a.result.value, body.block, a.state)
                 else ExecWith(m, sc, depth, head, a.result.value, body.block, a.state);
        x.(log := a.log + x.log)
    case Definition(text) => var d := m.define(text, state); Ran(d.0, d.1, [])
  }

  function ExecFor<V(==), S>(m: Machine<V, S>, sc: Scope, depth: nat, head: string, v: V, body: Block,
                             s: S): Ran<Ending<V>, S>
    decreases depth, 1, body, 2, 0
  {
    var vs := m.elements(v, s);
    if vs.0.NotIterable? then Ran(Raise(vs.0.error), vs.1, [])
    else ExecEach(m, sc, depth, head, vs.0.values, body, vs.1)
  }

  // However the body ends, what was entered is left.
  function ExecWith<V(==), S>(m: Machine<V, S>, sc: Scope, depth: nat, head: string, v: V, body: Block,
                              s: S): Ran<Ending<V>, S>
    decreases depth, 1, body, 2, 0
  {
    var c := m.enterWith(head, v, s);
    if c.0.Raised? then Ran(Raise(c.0.error), c.1, [])
    else
      var x := Exec(m, sc, depth, body, c.1);
      var e := m.leaveWith(head, v, x.result, x.state);
      Ran(e.0, e.1, x.log)
  }

  function ExecEach<V(==), S>(m: Machine<V, S>, sc: Scope, depth: nat, head: string, vs: seq<V>, body: Block,
                              s: S)
    : Ran<Ending<V>, S>
    decreases depth, 1, body, 1, |vs|
  {
    if vs == [] then Ran(Normal, s, [])
    else
      var x := Exec(m, sc, depth, body, m.bind(head, vs[0], s));
      if x.result.Break? then x.(result := Normal)
      else if x.result.Return? || x.result.Raise? then x
      else
        var y := ExecEach(m, sc, depth, head, vs[1..], body, x.state);
        y.(log := x.log + y.log)
  }

  function ExecElse<V(==), S>(m: Machine<V, S>, sc: Scope, depth: nat, o: Orelse, s: S): Ran<Ending<V>, S>
    decreases depth, 1, o, 0
  {
    if o.NoElse? then Ran(Normal, s, []) else Exec(m, sc, depth, o.suite.block, s)
  }

  // The first handler that catches the error; with none, it goes on up.
  function ExecHandler<V(==), S>(m: Machine<V, S>, sc: Scope, depth: nat, hs: Handlers, error: V,
                                 s: S): Ran<Ending<V>, S>
    decreases depth, 1, hs, 0
  {
    match hs
    case NoHandlers => Ran(Raise(error), s, [])
    case Handler(head, suite, rest) =>
      if m.catches(head, error, s) then Exec(m, sc, depth, suite.block, s)
      else ExecHandler(m, sc, depth, rest, error, s)
  }

  // ---------------------------------------------------------------- running authored code, arms named

  // Where the walk comes by: its statements are `index` and up of `path`. It does not come everywhere.
  datatype Walk = Unwalked | Walked(path: Id)

  function Entered(w: Walk, id: Id): seq<Id> {
    if w.Walked? then [id] else []
  }

  // An arm the walk named reports itself as it is entered, and with no row open gets no further.
  predicate IsRefused<V, S>(m: Machine<V, S>, w: Walk) { w.Walked? && !m.rowOpen }

  function Path(w: Walk): Id {
    if w.Walked? then w.path else Root("")
  }

  function Below(w: Walk, id: Id): Walk {
    if w.Walked? then Walked(id) else Unwalked
  }

  // The chains of `e` are chain `n` and up of statement `index`.
  function Trace<V(==), S>(m: Machine<V, S>, sc: Scope, depth: nat, e: Expr, w: Walk, index: nat, n: nat,
                           s: S): Ran<Result<V>, S>
    decreases depth, 1, e, 1
  {
    match e
    case Atom(text) => var r := m.read(text, s); Ran(r.0, r.1, [])
    case Paren(_, inner, _) => Trace(m, sc, depth, inner, w, index, n, s)
    case Binary(l, op, r) =>
      var a := Trace(m, sc, depth, l, w, index, n, s);
      if a.result.Raised? then a
      else
        var b := Trace(m, sc, depth, r, w, index, n + Chains(l), a.state);
        if b.result.Raised? then b.(log := a.log + b.log)
        else
          var c := m.combine(op, a.result.value, b.result.value, b.state);
          Ran(c.0, c.1, a.log + b.log)
    case Or(l, _, r) =>
      var a := Trace(m, sc, depth, l, w, index, n, s);
      if a.result.Raised? || IsTrue(m, a.result.value) then a
      else
        var b := Trace(m, sc, depth, r, w, index, n + Chains(l), a.state);
        b.(log := a.log + b.log)
    case Call(callee, _, arg, _) =>
      var a := Trace(m, sc, depth, arg, w, index, n, s);
      if a.result.Raised? then a
      else
        var b := TraceInvoke(m, sc, depth, callee, a.result.value, a.state);
        b.(log := a.log + b.log)
    case Choice(_, _, _, _, _) => TraceLink(m, sc, depth, e, w, index, n, OfIf, n + 1, s)
    case Deferred(text) => var r := m.defer(text, s); Ran(r.0, r.1, [])
    case Record(id) => Report(m, id, s)
  }

  function TraceInvoke<V(==), S>(m: Machine<V, S>, sc: Scope, depth: nat, name: string, v: V, s: S): Ran<Result<V>, S>
    decreases depth, 0
  {
    match Resolve(sc, name)
    case Other => var r := m.call(name, v, s); Ran(r.0, r.1, [])
    case Recorder => Report(m, m.idIn(v), s)
    case Defined(i) =>
      if depth == 0 then Ran(Raised(m.recursionError), s, [])
      else
        var b := TraceBlock(m, Called(sc, i), depth - 1, sc.fs[i].body, Walked(Root(sc.fs[i].name)), 0,
                            m.enter(name, v, s));
        Ran(Returned(m, b.result), m.leave(s, b.state), b.log)
  }

  // One link of chain `order`: the test, then the arm it picks.
  function TraceLink<V(==), S>(m: Machine<V, S>, sc: Scope, depth: nat, e: Expr, w: Walk, index: nat,
                           order: nat, kind: Kind, n: nat, s: S): Ran<Result<V>, S>
    requires e.Choice?
    decreases depth, 1, e, 0
  {
    var a := Trace(m, sc, depth, e.test, w, index, n, s);
    if a.result.Raised? then a
    else
      var v := if IsTrue(m, a.result.value)
               then TraceArm(m, sc, depth, e.body, w, index, ArmAt(Path(w), index, order, kind), n + Chains(e.test),
                             a.state)
               else TraceRest(m, sc, depth, e.orelse, w, index, order, kind, n + Chains(e.test) + Chains(e.body),
                              a.state);
      v.(log := a.log + v.log)
  }

  function TraceRest<V(==), S>(m: Machine<V, S>, sc: Scope, depth: nat, e: Expr, w: Walk, index: nat,
                           order: nat, kind: Kind, n: nat, s: S): Ran<Result<V>, S>
    decreases depth, 1, e, 3
  {
    if e.Paren? && IsChain(e) then TraceRest(m, sc, depth, e.inner, w, index, order, kind, n, s)
    else if e.Choice? then TraceLink(m, sc, depth, e, w, index, order, NextElif(kind), n, s)
    else TraceArm(m, sc, depth, e, w, index, ArmAt(Path(w), index, order, OfElse), n, s)
  }

  function TraceArm<V(==), S>(m: Machine<V, S>, sc: Scope, depth: nat, e: Expr, w: Walk, index: nat, id: Id,
                              n: nat, s: S)
    : Ran<Result<V>, S>
    decreases depth, 1, e, 2
  {
    if IsRefused(m, w) then Ran(Raised(m.recordingError), s, [])
    else
      var v := Trace(m, sc, depth, e, w, index, n, s);
      v.(log := Entered(w, id) + v.log)
  }

  function TraceBlock<V(==), S>(m: Machine<V, S>, sc: Scope, depth: nat, b: Block, w: Walk, index: nat,
                                s: S): Ran<Ending<V>, S>
    decreases depth, 1, b, 0
  {
    match b
    case Last(only) => TraceStmt(m, sc, depth, only, w, index, s)
    case More(first, rest) =>
      var x := TraceStmt(m, sc, depth, first, w, index, s);
      if !x.result.Normal? then x
      else
        var y := TraceBlock(m, sc, depth, rest, w, index + 1, x.state);
        y.(log := x.log + y.log)
  }

  function TraceSuite<V(==), S>(m: Machine<V, S>, sc: Scope, depth: nat, b: Block, w: Walk, id: Id,
                                s: S): Ran<Ending<V>, S>
    decreases depth, 1, b, 1
  {
    if IsRefused(m, w) then Ran(Raise(m.recordingError), s, [])
    else
      var x := TraceBlock(m, sc, depth, b, Below(w, id), 0, s);
      x.(log := Entered(w, id) + x.log)
  }

  function TraceStmt<V(==), S>(m: Machine<V, S>, sc: Scope, depth: nat, s: Stmt, w: Walk, index: nat,
                               state: S): Ran<Ending<V>, S>
    decreases depth, 1, s, 0
  {
    match s
    case Simple(head, value, _) =>
      var a := Trace(m, sc, depth, value, w, index, 0, state);
      if a.result.Raised? then Ran(Raise(a.result.error), a.state, a.log)
      else
        var p := Perform(m, head, a.result.value, a.state);
        Ran(p.0, p.1, a.log)
    case If(_, test, body, orelse) =>
      var a := Trace(m, sc, depth, test, w, index, 0, state);
      if a.result.Raised? then Ran(Raise(a.result.error), a.state, a.log)
      else
        var x := if IsTrue(m, a.result.value)
            then TraceSuite(m, sc, depth, body.block, w, SuiteAt(Path(w), index, OfIf), a.state)
                 else TraceElif(m, sc, depth, orelse, w, index, OfIf, a.state);
        x.(log := a.log + x.log)
    case Try(_, body, handlers, orelse) =>
      var x := TraceSuite(m, sc, depth, body.block, w, SuiteAt(Path(w), index, OfTry), state);
      if x.result.Raise? then
        var y := TraceHandler(m, sc, depth, handlers, w, index, 0, x.result.error, x.state);
        y.(log := x.log + y.log)
      else if x.result.Normal? then
        var y := TraceElse(m, sc, depth, orelse, w, index, x.state);
        y.(log := x.log + y.log)
      else x
    case Inside(way, head, value, body) =>
      var a := Trace(m, sc, depth, value, w, index, 0, state);
      if a.result.Raised? then Ran(Raise(a.result.error), a.state, a.log)
      else
        var x := if way.For? then TraceFor(m, sc, depth, head, a.result.value, body.block, a.state)
                 else TraceWith(m, sc, depth, head, a.result.value, body.block, a.state);
        x.(log := a.log + x.log)
    case Definition(text) => var d := m.define(text, state); Ran(d.0, d.1, [])
  }

  // The walk does not go into a loop's body, nor into a with's.
  function TraceFor<V(==), S>(m: Machine<V, S>, sc: Scope, depth: nat, head: string, v: V, body: Block,
                              s: S): Ran<Ending<V>, S>
    decreases depth, 1, body, 2, 0
  {
    var vs := m.elements(v, s);
    if vs.0.NotIterable? then Ran(Raise(vs.0.error), vs.1, [])
    else TraceEach(m, sc, depth, head, vs.0.values, body, vs.1)
  }

  function TraceWith<V(==), S>(m: Machine<V, S>, sc: Scope, depth: nat, head: string, v: V, body: Block,
                               s: S): Ran<Ending<V>, S>
    decreases depth, 1, body, 2, 0
  {
    var c := m.enterWith(head, v, s);
    if c.0.Raised? then Ran(Raise(c.0.error), c.1, [])
    else
      var x := TraceBlock(m, sc, depth, body, Unwalked, 0, c.1);
      var e := m.leaveWith(head, v, x.result, x.state);
      Ran(e.0, e.1, x.log)
  }

  function TraceEach<V(==), S>(m: Machine<V, S>, sc: Scope, depth: nat, head: string, vs: seq<V>, body: Block,
                               s: S)
    : Ran<Ending<V>, S>
    decreases depth, 1, body, 1, |vs|
  {
    if vs == [] then Ran(Normal, s, [])
    else
      var x := TraceBlock(m, sc, depth, body, Unwalked, 0, m.bind(head, vs[0], s));
      if x.result.Break? then x.(result := Normal)
      else if x.result.Return? || x.result.Raise? then x
      else
        var y := TraceEach(m, sc, depth, head, vs[1..], body, x.state);
        y.(log := x.log + y.log)
  }

  // An elif's own test is not walked.
  function TraceElif<V(==), S>(m: Machine<V, S>, sc: Scope, depth: nat, o: Orelse, w: Walk, index: nat,
                               kind: Kind, s: S)
    : Ran<Ending<V>, S>
    decreases depth, 1, o, 1
  {
    if o.Else? && IsElif(o.suite.block) then
      var elif := o.suite.block.only;
      var a := Trace(m, sc, depth, elif.test, Unwalked, 0, 0, s);
      if a.result.Raised? then Ran(Raise(a.result.error), a.state, a.log)
      else
        var next := NextElif(kind);
        var x := if IsTrue(m, a.result.value)
                 then TraceSuite(m, sc, depth, elif.body.block, w, SuiteAt(Path(w), index, next), a.state)
                 else TraceElif(m, sc, depth, elif.orelse, w, index, next, a.state);
        x.(log := a.log + x.log)
    else TraceElse(m, sc, depth, o, w, index, s)
  }

  function TraceElse<V(==), S>(m: Machine<V, S>, sc: Scope, depth: nat, o: Orelse, w: Walk, index: nat,
                               s: S): Ran<Ending<V>, S>
    decreases depth, 1, o, 0
  {
    if o.NoElse? then Ran(Normal, s, [])
    else TraceSuite(m, sc, depth, o.suite.block, w, SuiteAt(Path(w), index, OfElse), s)
  }

  function TraceHandler<V(==), S>(m: Machine<V, S>, sc: Scope, depth: nat, hs: Handlers, w: Walk, index: nat,
                              position: nat, error: V, s: S): Ran<Ending<V>, S>
    decreases depth, 1, hs, 0
  {
    match hs
    case NoHandlers => Ran(Raise(error), s, [])
    case Handler(head, suite, rest) =>
      if m.catches(head, error, s)
      then TraceSuite(m, sc, depth, suite.block, w, SuiteAt(Path(w), index, OfExcept(position)), s)
      else TraceHandler(m, sc, depth, rest, w, index, position + 1, error, s)
  }

  lemma {:induction false} ElifIsAuthored(o: Orelse)
    requires OrelseIsAuthored(o) && o.Else? && IsElif(o.suite.block)
    ensures var s := o.suite.block.only;
      IsAuthored(s.test) && SuiteIsAuthored(s.body) && BlockIsAuthored(s.body.block) && OrelseIsAuthored(s.orelse)
  {
    assert BlockIsAuthored(o.suite.block) && StmtIsAuthored(o.suite.block.only);
  }

  // ---------------------------------------------------------------- naming arms changes nothing

  // The same run, with nothing written down.
  function Quiet<R, S>(r: Ran<R, S>): Ran<R, S> { r.(log := []) }

  lemma {:induction false} TraceIsEval<V, S>(m: Machine<V, S>, sc: Scope, depth: nat, e: Expr, w: Walk,
                                             index: nat, n: nat, s: S)
    requires IsAuthored(e) && AreAuthored(sc.fs)
    ensures Eval(m, sc, depth, e, s) == Quiet(Trace(Opened(m), sc, depth, e, w, index, n, s))
    decreases depth, e, 1
  {
    match e
    case Atom(_) =>
    case Deferred(_) =>
    case Paren(_, inner, _) => TraceIsEval(m, sc, depth, inner, w, index, n, s);
    case Binary(l, _, r) => SidesAreEval(m, sc, depth, e, l, r, w, index, n, s);
    case Or(l, _, r) => SidesAreEval(m, sc, depth, e, l, r, w, index, n, s);
    case Call(_, _, _, _) => CallIsEval(m, sc, depth, e, w, index, n, s);
    case Choice(_, _, _, _, _) => LinkIsEval(m, sc, depth, e, w, index, n, OfIf, n + 1, s);
  }

  lemma {:induction false} SidesAreEval<V, S>(m: Machine<V, S>, sc: Scope, depth: nat, e: Expr, l: Expr,
                                              r: Expr, w: Walk, index: nat, n: nat, s: S)
    requires (e.Binary? || e.Or?) && e.lhs == l && e.rhs == r && IsAuthored(e) && AreAuthored(sc.fs)
    ensures Eval(m, sc, depth, e, s) == Quiet(Trace(Opened(m), sc, depth, e, w, index, n, s))
    decreases depth, e, 0
  {
    TraceIsEval(m, sc, depth, l, w, index, n, s);
    TraceIsEval(m, sc, depth, r, w, index, n + Chains(l), Trace(Opened(m), sc, depth, l, w, index, n, s).state);
  }

  lemma {:induction false} CallIsEval<V, S>(m: Machine<V, S>, sc: Scope, depth: nat, e: Expr, w: Walk,
                                            index: nat, n: nat, s: S)
    requires e.Call? && IsAuthored(e) && AreAuthored(sc.fs)
    ensures Eval(m, sc, depth, e, s) == Quiet(Trace(Opened(m), sc, depth, e, w, index, n, s))
    decreases depth, e, 0
  {
    TraceIsEval(m, sc, depth, e.arg, w, index, n, s);
    var a := Trace(Opened(m), sc, depth, e.arg, w, index, n, s);
    var called := Resolve(sc, e.callee);
    if called.Defined? && depth > 0 && a.result.Value? {
      var f := sc.fs[called.i];
      TraceIsExec(m, Called(sc, called.i), depth - 1, f.body, Walked(Root(f.name)), 0,
                  m.enter(e.callee, a.result.value, a.state));
    }
  }

  lemma {:induction false} LinkIsEval<V, S>(m: Machine<V, S>, sc: Scope, depth: nat, e: Expr, w: Walk,
                                            index: nat, order: nat, kind: Kind, n: nat, s: S)
    requires e.Choice? && IsAuthored(e) && AreAuthored(sc.fs)
    ensures Eval(m, sc, depth, e, s) == Quiet(TraceLink(Opened(m), sc, depth, e, w, index, order, kind, n, s))
    decreases depth, e, 0
  {
    TraceIsEval(m, sc, depth, e.test, w, index, n, s);
    var a := Trace(Opened(m), sc, depth, e.test, w, index, n, s);
    TraceIsEval(m, sc, depth, e.body, w, index, n + Chains(e.test), a.state);
    RestIsEval(m, sc, depth, e.orelse, w, index, order, kind, n + Chains(e.test) + Chains(e.body), a.state);
  }

  lemma {:induction false} RestIsEval<V, S>(m: Machine<V, S>, sc: Scope, depth: nat, e: Expr, w: Walk,
                                            index: nat, order: nat, kind: Kind, n: nat, s: S)
    requires IsAuthored(e) && AreAuthored(sc.fs)
    ensures Eval(m, sc, depth, e, s) == Quiet(TraceRest(Opened(m), sc, depth, e, w, index, order, kind, n, s))
    decreases depth, e, 2
  {
    if e.Paren? && IsChain(e) {
      RestIsEval(m, sc, depth, e.inner, w, index, order, kind, n, s);
    } else if e.Choice? {
      LinkIsEval(m, sc, depth, e, w, index, order, NextElif(kind), n, s);
    } else {
      TraceIsEval(m, sc, depth, e, w, index, n, s);
    }
  }

  lemma {:induction false} TraceIsExec<V, S>(m: Machine<V, S>, sc: Scope, depth: nat, b: Block, w: Walk,
                                             index: nat, s: S)
    requires BlockIsAuthored(b) && AreAuthored(sc.fs)
    ensures Exec(m, sc, depth, b, s) == Quiet(TraceBlock(Opened(m), sc, depth, b, w, index, s))
    decreases depth, b, 0
  {
    var first := if b.Last? then b.only else b.first;
    StmtIsExec(m, sc, depth, first, w, index, s);
    if b.More? {
      TraceIsExec(m, sc, depth, b.rest, w, index + 1, TraceStmt(Opened(m), sc, depth, first, w, index, s).state);
    }
  }

  lemma {:induction false} StmtIsExec<V, S>(m: Machine<V, S>, sc: Scope, depth: nat, s: Stmt, w: Walk,
                                            index: nat, state: S)
    requires StmtIsAuthored(s) && AreAuthored(sc.fs)
    ensures ExecStmt(m, sc, depth, s, state) == Quiet(TraceStmt(Opened(m), sc, depth, s, w, index, state))
    decreases depth, s, 0
  {
    match s
    case Simple(_, value, _) => TraceIsEval(m, sc, depth, value, w, index, 0, state);
    case If(_, test, body, orelse) =>
      TraceIsEval(m, sc, depth, test, w, index, 0, state);
      var a := Trace(Opened(m), sc, depth, test, w, index, 0, state);
      TraceIsExec(m, sc, depth, body.block, Below(w, SuiteAt(Path(w), index, OfIf)), 0, a.state);
      ElifIsExec(m, sc, depth, orelse, w, index, OfIf, a.state);
    case Try(_, body, handlers, orelse) =>
      var id := SuiteAt(Path(w), index, OfTry);
      TraceIsExec(m, sc, depth, body.block, Below(w, id), 0, state);
      var x := TraceSuite(Opened(m), sc, depth, body.block, w, id, state);
      if x.result.Raise? {
        HandlerIsExec(m, sc, depth, handlers, w, index, 0, x.result.error, x.state);
      } else {
        ElseIsExec(m, sc, depth, orelse, w, index, x.state);
      }
    case Inside(way, head, value, body) =>
      TraceIsEval(m, sc, depth, value, w, index, 0, state);
      var a := Trace(Opened(m), sc, depth, value, w, index, 0, state);
      if a.result.Value? {
        if way.For? {
          var vs := m.elements(a.result.value, a.state);
          if vs.0.Items? { EachIsExec(m, sc, depth, head, vs.0.values, body.block, vs.1); }
        } else {
          TraceIsExec(m, sc, depth, body.block, Unwalked, 0, m.enterWith(head, a.result.value, a.state).1);
        }
      }
    case Definition(_) =>
  }

  lemma {:induction false} EachIsExec<V, S>(m: Machine<V, S>, sc: Scope, depth: nat, head: string, vs: seq<V>,
                                            body: Block, s: S)
    requires BlockIsAuthored(body) && AreAuthored(sc.fs)
    ensures ExecEach(m, sc, depth, head, vs, body, s) == Quiet(TraceEach(Opened(m), sc, depth, head, vs, body, s))
    decreases depth, body, 1, |vs|
  {
    if vs != [] {
      var at := m.bind(head, vs[0], s);
      TraceIsExec(m, sc, depth, body, Unwalked, 0, at);
      EachIsExec(m, sc, depth, head, vs[1..], body, TraceBlock(Opened(m), sc, depth, body, Unwalked, 0, at).state);
    }
  }

  lemma {:induction false} ElifIsExec<V, S>(m: Machine<V, S>, sc: Scope, depth: nat, o: Orelse, w: Walk,
                                            index: nat, kind: Kind, s: S)
    requires OrelseIsAuthored(o) && AreAuthored(sc.fs)
    ensures ExecElse(m, sc, depth, o, s) == Quiet(TraceElif(Opened(m), sc, depth, o, w, index, kind, s))
    decreases depth, o, 1
  {
    if o.Else? && IsElif(o.suite.block) {
      var elif, next := o.suite.block.only, NextElif(kind);
      ElifIsAuthored(o);
      TraceIsEval(m, sc, depth, elif.test, Unwalked, 0, 0, s);
      var a := Trace(Opened(m), sc, depth, elif.test, Unwalked, 0, 0, s);
      TraceIsExec(m, sc, depth, elif.body.block, Below(w, SuiteAt(Path(w), index, next)), 0, a.state);
      ElifIsExec(m, sc, depth, elif.orelse, w, index, next, a.state);
      assert Exec(m, sc, depth, o.suite.block, s) == ExecStmt(m, sc, depth, elif, s);
    } else {
      ElseIsExec(m, sc, depth, o, w, index, s);
    }
  }

  lemma {:induction false} ElseIsExec<V, S>(m: Machine<V, S>, sc: Scope, depth: nat, o: Orelse, w: Walk,
                                            index: nat, s: S)
    requires OrelseIsAuthored(o) && AreAuthored(sc.fs)
    ensures ExecElse(m, sc, depth, o, s) == Quiet(TraceElse(Opened(m), sc, depth, o, w, index, s))
    decreases depth, o, 0
  {
    if o.Else? {
      TraceIsExec(m, sc, depth, o.suite.block, Below(w, SuiteAt(Path(w), index, OfElse)), 0, s);
    }
  }

  lemma {:induction false} HandlerIsExec<V, S>(m: Machine<V, S>, sc: Scope, depth: nat, hs: Handlers, w: Walk,
                                               index: nat, position: nat, error: V, s: S)
    requires HandlersAreAuthored(hs) && AreAuthored(sc.fs)
    ensures ExecHandler(m, sc, depth, hs, error, s)
        == Quiet(TraceHandler(Opened(m), sc, depth, hs, w, index, position, error, s))
    decreases depth, hs, 0
  {
    if hs.Handler? {
      TraceIsExec(m, sc, depth, hs.suite.block, Below(w, SuiteAt(Path(w), index, OfExcept(position))), 0, s);
      HandlerIsExec(m, sc, depth, hs.rest, w, index, position + 1, error, s);
    }
  }

  // ---------------------------------------------------------------- the rewritten code is the traced code

  // `after` is `fs` with every function's branches reporting themselves.
  ghost predicate AreRewritten(fs: seq<Function>, after: seq<Function>) {
    && |fs| == |after|
    && forall i :: 0 <= i < |fs| ==> IsRewrittenFunction(fs[i], after[i])
  }

  ghost predicate IsRewrittenFunction(f: Function, after: Function) {
    && after.name == f.name && after.names == f.names
    && exists before :: after.body == InstrumentBlock(f.body, before, Root(f.name), 0)
  }

  // The same names, and the same functions rewritten.
  ghost predicate AreAlike(sc: Scope, after: Scope) {
    AreRewritten(sc.fs, after.fs) && after.variables == sc.variables && after.locals == sc.locals
  }

  // And the recorder within reach.
  ghost predicate IsRewritten(sc: Scope, after: Scope) { AreAlike(sc, after) && IsFree(after) }

  lemma {:induction false} OneMoreRewritten(fs: seq<Function>, after: seq<Function>, f: Function, f': Function)
    requires AreRewritten(fs, after) && IsRewrittenFunction(f, f')
    ensures AreRewritten(fs + [f], after + [f'])
  {
    forall i | 0 <= i < |fs + [f]|
      ensures IsRewrittenFunction((fs + [f])[i], (after + [f'])[i])
    {
      if i < |fs| { assert IsRewrittenFunction(fs[i], after[i]); }
    }
  }

  // One statement more of a module.
  lemma {:induction false} BoundIsAlike(sc: Scope, after: Scope, item: Item, before: string)
    requires AreAlike(sc, after)
    ensures AreAlike(Bound(sc, item), Bound(after, InstrumentItem(item, before)))
  {
    if item.Define? {
      DefinitionIsRewritten(item.def, before);
      OneMoreRewritten(sc.fs, after.fs, item.def, InstrumentItem(item, before).def);
    }
  }

  lemma {:induction false} BoundIsRewritten(sc: Scope, after: Scope, item: Item, before: string)
    requires IsRewritten(sc, after) && ItemLeavesTheName(item)
    ensures IsRewritten(Bound(sc, item), Bound(after, InstrumentItem(item, before)))
  {
    BoundIsAlike(sc, after, item, before);
  }

  lemma {:induction false} ScopeIsAlike(items: seq<Item>, before: string)
    ensures AreAlike(ScopeOf(items), ScopeOf(InstrumentModule(items, before)))
  {
    if items != [] {
      var n := |items| - 1;
      ScopeIsAlike(items[..n], before);
      var at := LastInstrumented(items, before);
      BoundIsAlike(ScopeOf(items[..n]), ScopeOf(InstrumentModule(items[..n], before)), items[n], at);
    }
  }

  lemma {:induction false} ScopeIsFree(items: seq<Item>)
    requires LeavesTheName(items)
    ensures IsFree(ScopeOf(items))
  {
    if items != [] {
      var n := |items| - 1;
      ScopeIsFree(items[..n]);
      assert ItemLeavesTheName(items[n]);
    }
  }

  lemma {:induction false} ScopeIsRewritten(items: seq<Item>, before: string)
    requires LeavesTheName(items)
    ensures IsRewritten(ScopeOf(items), ScopeOf(InstrumentModule(items, before)))
  {
    var sc, after := ScopeOf(items), ScopeOf(InstrumentModule(items, before));
    ScopeIsAlike(items, before);
    ScopeIsFree(items);
    forall f | f in after.fs
      ensures f.name != RECORDER && RECORDER !in f.names
    {
      var i :| 0 <= i < |after.fs| && after.fs[i] == f;
      assert IsRewrittenFunction(sc.fs[i], after.fs[i]) && sc.fs[i] in sc.fs;
    }
  }

  lemma {:induction false} LastInstrumented(items: seq<Item>, before: string) returns (at: string)
    requires items != []
    ensures var n := |items| - 1; var all := InstrumentModule(items, before);
      && |all| == n + 1 && all[..n] == InstrumentModule(items[..n], before) && all[n] == InstrumentItem(items[n], at)
  {
    var rest := before + ItemText(items[0]);
    var all := InstrumentModule(items, before);
    if |items| == 1 {
      at := before;
      assert InstrumentModule(items[1..], rest) == [];
    } else {
      var n := |items| - 1;
      at := LastInstrumented(items[1..], rest);
      assert items[1..][..n - 1] == items[..n][1..];
      assert all == [all[0]] + InstrumentModule(items[1..], rest);
      assert all[..n] == [all[0]] + InstrumentModule(items[1..], rest)[..n - 1];
    }
  }

  lemma {:induction false} DefinitionIsRewritten(f: Function, before: string)
    ensures IsRewrittenFunction(f, InstrumentItem(Define(f), before).def)
  {
    assert InstrumentItem(Define(f), before).def.body == InstrumentBlock(f.body, before + f.head, Root(f.name), 0);
  }

  lemma {:induction false} SameLookup(fs: seq<Function>, after: seq<Function>, name: string)
    requires AreRewritten(fs, after)
    ensures Lookup(after, name) == Lookup(fs, name)
  {
    if fs != [] {
      var n := |fs| - 1;
      assert IsRewrittenFunction(fs[n], after[n]);
      forall i | 0 <= i < n
        ensures IsRewrittenFunction(fs[..n][i], after[..n][i])
      {
        assert IsRewrittenFunction(fs[i], after[i]);
      }
      SameLookup(fs[..n], after[..n], name);
    }
  }

  lemma {:induction false} SameNames(sc: Scope, after: Scope, name: string)
    requires IsRewritten(sc, after)
    ensures Resolve(after, name) == Resolve(sc, name)
  {
    SameLookup(sc.fs, after.fs, name);
  }

  lemma {:induction false} CalledIsRewritten(sc: Scope, after: Scope, i: nat) returns (before: string)
    requires IsRewritten(sc, after) && i < |sc.fs|
    ensures IsRewritten(Called(sc, i), Called(after, i))
    ensures after.fs[i].body == InstrumentBlock(sc.fs[i].body, before, Root(sc.fs[i].name), 0)
    ensures after.fs[i].name == sc.fs[i].name
  {
    assert IsRewrittenFunction(sc.fs[i], after.fs[i]);
    assert after.fs[i] in after.fs;
    before :| after.fs[i].body == InstrumentBlock(sc.fs[i].body, before, Root(sc.fs[i].name), 0);
  }

  // The code as the rewrite leaves it, where the walk came by and where it did not.
  function Rewritten(e: Expr, w: Walk, index: nat, n: nat): Expr {
    if w.Walked? then Instrument(e, w.path, index, n) else e
  }

  lemma {:induction false} EvalIsTrace<V, S>(m: Machine<V, S>, sc: Scope, after: Scope, depth: nat,
                                                         e: Expr, w: Walk, index: nat, n: nat, s: S)
    requires IsRewritten(sc, after) && AreAuthored(sc.fs) && IsAuthored(e)
    ensures Eval(m, after, depth, Rewritten(e, w, index, n), s) == Trace(m, sc, depth, e, w, index, n, s)
    decreases depth, e, 1
  {
    match e
    case Atom(_) =>
    case Deferred(_) =>
    case Paren(_, inner, _) => EvalIsTrace(m, sc, after, depth, inner, w, index, n, s);
    case Binary(l, _, r) => SidesAreTrace(m, sc, after, depth, e, l, r, w, index, n, s);
    case Or(l, _, r) => SidesAreTrace(m, sc, after, depth, e, l, r, w, index, n, s);
    case Call(_, _, _, _) => CallIsTrace(m, sc, after, depth, e, w, index, n, s);
    case Choice(_, _, _, _, _) => LinkIsTrace(m, sc, after, depth, e, w, index, n, OfIf, n + 1, s);
  }

  lemma {:induction false} SidesAreTrace<V, S>(m: Machine<V, S>, sc: Scope, after: Scope, depth: nat,
                                               e: Expr, l: Expr, r: Expr, w: Walk, index: nat, n: nat, s: S)
    requires IsRewritten(sc, after) && AreAuthored(sc.fs) && IsAuthored(e) && (e.Binary? || e.Or?) && e.lhs == l
        && e.rhs == r
    ensures Eval(m, after, depth, Rewritten(e, w, index, n), s) == Trace(m, sc, depth, e, w, index, n, s)
    decreases depth, e, 0
  {
    EvalIsTrace(m, sc, after, depth, l, w, index, n, s);
    EvalIsTrace(m, sc, after, depth, r, w, index, n + Chains(l), Trace(m, sc, depth, l, w, index, n, s).state);
  }

  lemma {:induction false} CallIsTrace<V, S>(m: Machine<V, S>, sc: Scope, after: Scope, depth: nat,
                                                         e: Expr, w: Walk, index: nat, n: nat, s: S)
    requires IsRewritten(sc, after) && AreAuthored(sc.fs) && IsAuthored(e) && e.Call?
    ensures Eval(m, after, depth, Rewritten(e, w, index, n), s) == Trace(m, sc, depth, e, w, index, n, s)
    decreases depth, e, 0
  {
    EvalIsTrace(m, sc, after, depth, e.arg, w, index, n, s);
    var a := Trace(m, sc, depth, e.arg, w, index, n, s);
    SameNames(sc, after, e.callee);
    var called := Resolve(sc, e.callee);
    if called.Defined? && depth > 0 && a.result.Value? {
      var i := called.i;
      var before := CalledIsRewritten(sc, after, i);
      ExecIsTrace(m, Called(sc, i), Called(after, i), depth - 1, sc.fs[i].body, before, Root(sc.fs[i].name), 0,
                  m.enter(e.callee, a.result.value, a.state));
    }
  }

  lemma {:induction false} LinkIsTrace<V, S>(m: Machine<V, S>, sc: Scope, after: Scope, depth: nat,
                                             e: Expr, w: Walk, index: nat, order: nat, kind: Kind, n: nat, s: S)
    requires IsRewritten(sc, after) && AreAuthored(sc.fs) && IsAuthored(e) && e.Choice?
    ensures Eval(m, after, depth, if w.Walked? then Link(e, w.path, index, order, kind, n) else e, s)
         == TraceLink(m, sc, depth, e, w, index, order, kind, n, s)
    decreases depth, e, 0
  {
    EvalIsTrace(m, sc, after, depth, e.test, w, index, n, s);
    var a := Trace(m, sc, depth, e.test, w, index, n, s);
    ArmIsTrace(m, sc, after, depth, e.body, w, index, ArmAt(Path(w), index, order, kind), n + Chains(e.test), a.state);
    RestIsTrace(m, sc, after, depth, e.orelse, w, index, order, kind, n + Chains(e.test) + Chains(e.body), a.state);
  }

  lemma {:induction false} RestIsTrace<V, S>(m: Machine<V, S>, sc: Scope, after: Scope, depth: nat,
                                             e: Expr, w: Walk, index: nat, order: nat, kind: Kind, n: nat, s: S)
    requires IsRewritten(sc, after) && AreAuthored(sc.fs) && IsAuthored(e)
    ensures Eval(m, after, depth, if w.Walked? then Follow(e, w.path, index, order, kind, n) else e, s)
         == TraceRest(m, sc, depth, e, w, index, order, kind, n, s)
    decreases depth, e, 3
  {
    if e.Paren? && IsChain(e) {
      RestIsTrace(m, sc, after, depth, e.inner, w, index, order, kind, n, s);
    } else if e.Choice? {
      LinkIsTrace(m, sc, after, depth, e, w, index, order, NextElif(kind), n, s);
    } else {
      ArmIsTrace(m, sc, after, depth, e, w, index, ArmAt(Path(w), index, order, OfElse), n, s);
    }
  }

  lemma {:induction false} ArmIsTrace<V, S>(m: Machine<V, S>, sc: Scope, after: Scope, depth: nat,
                                                        e: Expr, w: Walk, index: nat, id: Id, n: nat, s: S)
    requires IsRewritten(sc, after) && AreAuthored(sc.fs) && IsAuthored(e)
    ensures Eval(m, after, depth, if w.Walked? then WrapArm(e, id, w.path, index, n) else e, s)
         == TraceArm(m, sc, depth, e, w, index, id, n, s)
    decreases depth, e, 2
  {
    if e.Paren? {
      ArmIsTrace(m, sc, after, depth, e.inner, w, index, id, n, s);
    } else {
      EvalIsTrace(m, sc, after, depth, e, w, index, n, s);
      if w.Walked? { ReportingIsHarmless(m, after, depth, id, Instrument(e, w.path, index, n), s); }
    }
  }

  // With a row open, (record(id) or (value)) is the value, and one report before it.
  lemma {:induction false} ReportingIsHarmless<V, S>(m: Machine<V, S>, sc: Scope, depth: nat, id: Id,
                                                     value: Expr, s: S)
    requires IsFree(sc)
    ensures m.rowOpen ==>
      var v := Eval(m, sc, depth, value, s);
      Eval(m, sc, depth, Reporting(id, value), s) == v.(log := [id] + v.log)
    ensures !m.rowOpen ==> Eval(m, sc, depth, Reporting(id, value), s) == Ran(Raised(m.recordingError), s, [])
  {
    var call, inner := Record(id), Paren("(", value, ")");
    FreeIsTheRecorder(sc);
    assert Eval(m, sc, depth, call, s) == Report(m, id, s);
    assert Eval(m, sc, depth, inner, s) == Eval(m, sc, depth, value, s);
    assert Eval(m, sc, depth, Reporting(id, value), s) == Eval(m, sc, depth, Or(call, " or ", inner), s);
  }

  lemma {:induction false} ExecIsTrace<V, S>(m: Machine<V, S>, sc: Scope, after: Scope, depth: nat,
                                                         b: Block, before: string, path: Id, index: nat, s: S)
    requires IsRewritten(sc, after) && AreAuthored(sc.fs) && BlockIsAuthored(b)
    ensures Exec(m, after, depth, InstrumentBlock(b, before, path, index), s)
        == TraceBlock(m, sc, depth, b, Walked(path), index, s)
    decreases depth, b, 0
  {
    var first := if b.Last? then b.only else b.first;
    StmtIsTrace(m, sc, after, depth, first, before, path, index, s);
    if b.More? {
      ExecIsTrace(m, sc, after, depth, b.rest, before + StmtText(first), path, index + 1,
                  TraceStmt(m, sc, depth, first, Walked(path), index, s).state);
    }
  }

  lemma {:induction false} SuiteIsTrace<V, S>(m: Machine<V, S>, sc: Scope, after: Scope, depth: nat,
                                                          suite: Suite, before: string, path: Id, id: Id, s: S)
    requires IsRewritten(sc, after) && AreAuthored(sc.fs) && SuiteIsAuthored(suite)
    ensures Exec(m, after, depth, InstrumentSuite(suite, before, id).block, s)
        == TraceSuite(m, sc, depth, suite.block, Walked(path), id, s)
    decreases depth, suite, 0
  {
    ExecIsTrace(m, sc, after, depth, suite.block, before + suite.gap, id, 0, s);
    var report := InstrumentSuite(suite, before, id).block.first;
    FreeIsTheRecorder(after);
    assert Eval(m, after, depth, report.value, s) == Report(m, id, s);
    assert m.rowOpen ==> ExecStmt(m, after, depth, report, s) == Ran(Normal, s, [id]);
  }

  lemma {:induction false} StmtIsTrace<V, S>(m: Machine<V, S>, sc: Scope, after: Scope, depth: nat,
                                                         s: Stmt, before: string, path: Id, index: nat, state: S)
    requires IsRewritten(sc, after) && AreAuthored(sc.fs) && StmtIsAuthored(s)
    ensures ExecStmt(m, after, depth, InstrumentStmt(s, before, path, index), state)
         == TraceStmt(m, sc, depth, s, Walked(path), index, state)
    decreases depth, s, 1
  {
    var w := Walked(path);
    match s
    case Simple(_, value, _) => EvalIsTrace(m, sc, after, depth, value, w, index, 0, state);
    case If(head, test, body, orelse) =>
      var tested := before + head + ExprText(test);
      EvalIsTrace(m, sc, after, depth, test, w, index, 0, state);
      var a := Trace(m, sc, depth, test, w, index, 0, state);
      SuiteIsTrace(m, sc, after, depth, body, tested, path, SuiteAt(path, index, OfIf), a.state);
      ElifIsTrace(m, sc, after, depth, orelse, tested + SuiteText(body), path, index, OfIf, a.state);
    case Try(_, _, _, _) => TryIsTrace(m, sc, after, depth, s, before, path, index, state);
    case Inside(way, head, value, body) =>
      EvalIsTrace(m, sc, after, depth, value, w, index, 0, state);
      var a := Trace(m, sc, depth, value, w, index, 0, state);
      if a.result.Value? { InsideIsTrace(m, sc, after, depth, way, head, a.result.value, body.block, a.state); }
    case Definition(_) =>
  }

  lemma {:induction false} TryIsTrace<V, S>(m: Machine<V, S>, sc: Scope, after: Scope, depth: nat,
                                                        s: Stmt, before: string, path: Id, index: nat, state: S)
    requires IsRewritten(sc, after) && AreAuthored(sc.fs) && s.Try? && StmtIsAuthored(s)
    ensures ExecStmt(m, after, depth, InstrumentStmt(s, before, path, index), state)
         == TraceStmt(m, sc, depth, s, Walked(path), index, state)
    decreases depth, s, 0
  {
    var w, id := Walked(path), SuiteAt(path, index, OfTry);
    var tried := before + s.head + SuiteText(s.body);
    var x := TraceSuite(m, sc, depth, s.body.block, w, id, state);
    SuiteIsTrace(m, sc, after, depth, s.body, before + s.head, path, id, state);
    if x.result.Raise? {
      HandlerIsTrace(m, sc, after, depth, s.handlers, tried, path, index, 0, x.result.error, x.state);
    } else {
      ElseIsTrace(m, sc, after, depth, s.orelse, tried + HandlersText(s.handlers), path, index, x.state);
    }
  }

  lemma {:induction false} ElifIsTrace<V, S>(m: Machine<V, S>, sc: Scope, after: Scope, depth: nat,
                                             o: Orelse, before: string, path: Id, index: nat, kind: Kind, s: S)
    requires IsRewritten(sc, after) && AreAuthored(sc.fs) && OrelseIsAuthored(o)
    ensures ExecElse(m, after, depth, InstrumentElif(o, before, path, index, kind), s)
         == TraceElif(m, sc, depth, o, Walked(path), index, kind, s)
    decreases depth, o, 2
  {
    if o.Else? && IsElif(o.suite.block) {
      ElifIsAnIf(m, after, depth, InstrumentElif(o, before, path, index, kind), s);
      NextLinkIsTrace(m, sc, after, depth, o, before, path, index, kind, s);
    } else {
      ElseIsTrace(m, sc, after, depth, o, before, path, index, s);
    }
  }

  lemma {:induction false} NextLinkIsTrace<V, S>(m: Machine<V, S>, sc: Scope, after: Scope, depth: nat,
                                                 o: Orelse, before: string, path: Id, index: nat, kind: Kind, s: S)
    requires IsRewritten(sc, after) && AreAuthored(sc.fs) && OrelseIsAuthored(o) && o.Else? && IsElif(o.suite.block)
    ensures ExecStmt(m, after, depth, InstrumentElif(o, before, path, index, kind).suite.block.only, s)
         == TraceElif(m, sc, depth, o, Walked(path), index, kind, s)
    decreases depth, o, 1
  {
    var elif, next := o.suite.block.only, NextElif(kind);
    ElifIsAuthored(o);
    var tested := before + o.suite.gap + elif.head + ExprText(elif.test);
    EvalIsTrace(m, sc, after, depth, elif.test, Unwalked, 0, 0, s);
    var a := Trace(m, sc, depth, elif.test, Unwalked, 0, 0, s);
    SuiteIsTrace(m, sc, after, depth, elif.body, tested, path, SuiteAt(path, index, next), a.state);
    ElifIsTrace(m, sc, after, depth, elif.orelse, tested + SuiteText(elif.body), path, index, next, a.state);
  }

  lemma {:induction false} ElseIsTrace<V, S>(m: Machine<V, S>, sc: Scope, after: Scope, depth: nat,
                                                         o: Orelse, before: string, path: Id, index: nat, s: S)
    requires IsRewritten(sc, after) && AreAuthored(sc.fs) && OrelseIsAuthored(o)
    ensures ExecElse(m, after, depth, InstrumentElse(o, before, path, index), s)
        == TraceElse(m, sc, depth, o, Walked(path), index, s)
    decreases depth, o, 0
  {
    if o.Else? { SuiteIsTrace(m, sc, after, depth, o.suite, before, path, SuiteAt(path, index, OfElse), s); }
  }

  lemma {:induction false} HandlerIsTrace<V, S>(m: Machine<V, S>, sc: Scope, after: Scope, depth: nat,
                                                hs: Handlers, before: string, path: Id, index: nat, position: nat,
                                                error: V, s: S)
    requires IsRewritten(sc, after) && AreAuthored(sc.fs) && HandlersAreAuthored(hs)
    ensures ExecHandler(m, after, depth, InstrumentHandlers(hs, before, path, index, position), error, s)
         == TraceHandler(m, sc, depth, hs, Walked(path), index, position, error, s)
    decreases depth, hs, 0
  {
    if hs.Handler? {
      SuiteIsTrace(m, sc, after, depth, hs.suite, before + hs.head, path, SuiteAt(path, index, OfExcept(position)), s);
      HandlerIsTrace(m, sc, after, depth, hs.rest, before + hs.head + SuiteText(hs.suite), path, index, position + 1,
                     error, s);
    }
  }

  // ---------------------------------------------------------------- where the walk does not come by

  lemma {:induction false} InsideIsTrace<V, S>(m: Machine<V, S>, sc: Scope, after: Scope, depth: nat,
                                               way: Way, head: string, v: V, body: Block, s: S)
    requires IsRewritten(sc, after) && AreAuthored(sc.fs) && BlockIsAuthored(body)
    ensures way.For? ==> ExecFor(m, after, depth, head, v, body, s) == TraceFor(m, sc, depth, head, v, body, s)
    ensures way.With? ==> ExecWith(m, after, depth, head, v, body, s) == TraceWith(m, sc, depth, head, v, body, s)
    decreases depth, body, 2, 0
  {
    if way.For? {
      var vs := m.elements(v, s);
      if vs.0.Items? { EachIsTrace(m, sc, after, depth, head, vs.0.values, body, vs.1); }
    } else {
      UnwalkedIsTrace(m, sc, after, depth, body, 0, m.enterWith(head, v, s).1);
    }
  }

  lemma {:induction false} EachIsTrace<V, S>(m: Machine<V, S>, sc: Scope, after: Scope, depth: nat,
                                                         head: string, vs: seq<V>, body: Block, s: S)
    requires IsRewritten(sc, after) && AreAuthored(sc.fs) && BlockIsAuthored(body)
    ensures ExecEach(m, after, depth, head, vs, body, s) == TraceEach(m, sc, depth, head, vs, body, s)
    decreases depth, body, 1, |vs|
  {
    if vs != [] {
      var at := m.bind(head, vs[0], s);
      UnwalkedIsTrace(m, sc, after, depth, body, 0, at);
      EachIsTrace(m, sc, after, depth, head, vs[1..], body, TraceBlock(m, sc, depth, body, Unwalked, 0, at).state);
    }
  }

  lemma {:induction false} UnwalkedIsTrace<V, S>(m: Machine<V, S>, sc: Scope, after: Scope, depth: nat,
                                                             b: Block, index: nat, s: S)
    requires IsRewritten(sc, after) && AreAuthored(sc.fs) && BlockIsAuthored(b)
    ensures Exec(m, after, depth, b, s) == TraceBlock(m, sc, depth, b, Unwalked, index, s)
    decreases depth, b, 0
  {
    var first := if b.Last? then b.only else b.first;
    UnwalkedStmtIsTrace(m, sc, after, depth, first, index, s);
    if b.More? {
      UnwalkedIsTrace(m, sc, after, depth, b.rest, index + 1, TraceStmt(m, sc, depth, first, Unwalked, index, s).state);
    }
  }

  lemma {:induction false} UnwalkedStmtIsTrace<V, S>(m: Machine<V, S>, sc: Scope, after: Scope,
                                                     depth: nat, s: Stmt, index: nat, state: S)
    requires IsRewritten(sc, after) && AreAuthored(sc.fs) && StmtIsAuthored(s)
    ensures ExecStmt(m, after, depth, s, state) == TraceStmt(m, sc, depth, s, Unwalked, index, state)
    decreases depth, s, 0
  {
    match s
    case Simple(_, value, _) => EvalIsTrace(m, sc, after, depth, value, Unwalked, index, 0, state);
    case If(_, test, body, orelse) =>
      EvalIsTrace(m, sc, after, depth, test, Unwalked, index, 0, state);
      var a := Trace(m, sc, depth, test, Unwalked, index, 0, state);
      UnwalkedIsTrace(m, sc, after, depth, body.block, 0, a.state);
      UnwalkedElifIsTrace(m, sc, after, depth, orelse, index, OfIf, a.state);
    case Try(_, body, handlers, orelse) =>
      UnwalkedIsTrace(m, sc, after, depth, body.block, 0, state);
      var x := TraceSuite(m, sc, depth, body.block, Unwalked, SuiteAt(Root(""), index, OfTry), state);
      if x.result.Raise? {
        UnwalkedHandlerIsTrace(m, sc, after, depth, handlers, index, 0, x.result.error, x.state);
      } else {
        UnwalkedElseIsTrace(m, sc, after, depth, orelse, index, x.state);
      }
    case Inside(way, head, value, body) =>
      EvalIsTrace(m, sc, after, depth, value, Unwalked, index, 0, state);
      var a := Trace(m, sc, depth, value, Unwalked, index, 0, state);
      if a.result.Value? { InsideIsTrace(m, sc, after, depth, way, head, a.result.value, body.block, a.state); }
    case Definition(_) =>
  }

  lemma {:induction false} UnwalkedElifIsTrace<V, S>(m: Machine<V, S>, sc: Scope, after: Scope,
                                                     depth: nat, o: Orelse, index: nat, kind: Kind, s: S)
    requires IsRewritten(sc, after) && AreAuthored(sc.fs) && OrelseIsAuthored(o)
    ensures ExecElse(m, after, depth, o, s) == TraceElif(m, sc, depth, o, Unwalked, index, kind, s)
    decreases depth, o, 1
  {
    if o.Else? && IsElif(o.suite.block) {
      ElifIsAnIf(m, after, depth, o, s);
      UnwalkedLinkIsTrace(m, sc, after, depth, o, index, kind, s);
    } else {
      UnwalkedElseIsTrace(m, sc, after, depth, o, index, s);
    }
  }

  lemma {:induction false} ElifIsAnIf<V, S>(m: Machine<V, S>, sc: Scope, depth: nat, o: Orelse, s: S)
    requires o.Else? && o.suite.block.Last?
    ensures ExecElse(m, sc, depth, o, s) == ExecStmt(m, sc, depth, o.suite.block.only, s)
  {
  }

  lemma {:induction false} UnwalkedLinkIsTrace<V, S>(m: Machine<V, S>, sc: Scope, after: Scope,
                                                     depth: nat, o: Orelse, index: nat, kind: Kind, s: S)
    requires IsRewritten(sc, after) && AreAuthored(sc.fs) && OrelseIsAuthored(o) && o.Else? && IsElif(o.suite.block)
    ensures ExecStmt(m, after, depth, o.suite.block.only, s) == TraceElif(m, sc, depth, o, Unwalked, index, kind, s)
    decreases depth, o, 0
  {
    var elif := o.suite.block.only;
    ElifIsAuthored(o);
    EvalIsTrace(m, sc, after, depth, elif.test, Unwalked, 0, 0, s);
    var a := Trace(m, sc, depth, elif.test, Unwalked, 0, 0, s);
    UnwalkedIsTrace(m, sc, after, depth, elif.body.block, 0, a.state);
    UnwalkedElifIsTrace(m, sc, after, depth, elif.orelse, index, NextElif(kind), a.state);
  }

  lemma {:induction false} UnwalkedElseIsTrace<V, S>(m: Machine<V, S>, sc: Scope, after: Scope,
                                                     depth: nat, o: Orelse, index: nat, s: S)
    requires IsRewritten(sc, after) && AreAuthored(sc.fs) && OrelseIsAuthored(o)
    ensures ExecElse(m, after, depth, o, s) == TraceElse(m, sc, depth, o, Unwalked, index, s)
    decreases depth, o, 0
  {
    if o.Else? { UnwalkedIsTrace(m, sc, after, depth, o.suite.block, 0, s); }
  }

  lemma {:induction false} UnwalkedHandlerIsTrace<V, S>(m: Machine<V, S>, sc: Scope, after: Scope,
                                                        depth: nat, hs: Handlers, index: nat, position: nat, error: V,
                                                        s: S)
    requires IsRewritten(sc, after) && AreAuthored(sc.fs) && HandlersAreAuthored(hs)
    ensures ExecHandler(m, after, depth, hs, error, s)
        == TraceHandler(m, sc, depth, hs, Unwalked, index, position, error, s)
    decreases depth, hs, 0
  {
    if hs.Handler? {
      UnwalkedIsTrace(m, sc, after, depth, hs.suite.block, 0, s);
      UnwalkedHandlerIsTrace(m, sc, after, depth, hs.rest, index, position + 1, error, s);
    }
  }

  // ---------------------------------------------------------------- the row function

  // A row: calling a function of the module with a row open. For any source that binds and calls nothing by
  // the recorder's name, any state and depth, the rewritten module answers, raises and leaves behind what the
  // authored one does, and reports the arms it entered.
  lemma {:induction false} InstrumentedCodeMeansTheSame<V, S>(m: Machine<V, S>, items: seq<Item>, depth: nat,
                                                              name: string, arg: Expr, s: S)
    requires m.rowOpen && ModuleIsAuthored(items) && LeavesTheName(items) && IsAuthored(Call(name, "(", arg, ")"))
    ensures var call := Call(name, "(", arg, ")");
      var sc, after := ScopeOf(items), ScopeOf(InstrumentModule(items, ""));
      && Quiet(Eval(m, after, depth, call, s)) == Eval(m, sc, depth, call, s)
      && Eval(m, after, depth, call, s) == Trace(m, sc, depth, call, Unwalked, 0, 0, s)
  {
    var call, sc, after := Call(name, "(", arg, ")"), ScopeOf(items), ScopeOf(InstrumentModule(items, ""));
    FunctionsAreAuthored(items);
    ScopeIsRewritten(items, "");
    EvalIsTrace(m, sc, after, depth, call, Unwalked, 0, 0, s);
    TraceIsEval(m, sc, depth, call, Unwalked, 0, 0, s);
  }

  lemma {:induction false} FunctionsAreAuthored(items: seq<Item>)
    requires ModuleIsAuthored(items)
    ensures AreAuthored(Functions(items))
  {
    if items != [] {
      assert ItemIsAuthored(items[0]);
      FunctionsAreAuthored(items[1..]);
    }
  }
}
