/** The run engine: one pass over the stages in dependency order, as a step machine. */
module Engine {
  import opened Wrappers
  import opened Graph

  // A pass blocks everything below a failure or a halt, skips what an earlier session already produced, and
  // stops on a cancel.
  //
  // A stage handler is a function of the session's world (what reviewers had decided by then), the stage,
  // and the tables it reads. `Expected` says what a stage should come to with no mention of records,
  // blocking, skipping or cancels; the results below tie the engine to it.

  datatype Table = Table(content: int)

  datatype Status = Pending | Running | Ok | Warnings | Error | AwaitingReview | Cancelled

  datatype RunStatus = RunOk | RunWarnings | RunErrors | RunAwaitingReview | RunCancelled

  // What a handler came back with, and what the schema checks said of it.
  datatype Answer =
    | Raised
    | Halted
    | Produced(table: Table, inputsPass: bool, outputPasses: bool, failedRows: nat)

  datatype Workflow = Workflow(
    g: Stages,
    order: seq<Id>,                          // what the topological sort returned
    injected: map<Id, Table>,                // outputs a subset run is handed; none in production
    polls: set<Id>,                          // the stages whose row driver looks for a cancel
    handler: (nat, Id, seq<Table>) -> Answer)
  {
    ghost predicate Valid() {
      g.Valid() && IsDependencyOrder(g, order)
    }
  }

  predicate Usable(s: Status) { s == Ok || s == Warnings }

  function Judge(a: Answer): Status {
    match a
    case Raised => Error
    case Halted => AwaitingReview
    case Produced(_, inputsPass, outputPasses, failedRows) =>
      if failedRows > 0 || !outputPasses then Error else if inputsPass then Ok else Warnings
  }

  // ---------------------------------------------------------------- what each stage should come to

  datatype Verdict = Verdict(status: Status, output: Option<Table>)

  ghost function Place(order: seq<Id>, id: Id): (i: nat)
    requires id in order
    ensures i < |order| && order[i] == id
  {
    var i :| 0 <= i < |order| && order[i] == id; i
  }

  lemma {:induction false} InputsArePlacedBefore(wf: Workflow, id: Id)
    requires wf.Valid() && id in wf.g.inputs
    ensures id in wf.order
    ensures forall input :: wf.g.Reads(id, input) ==>
              input in wf.order && Place(wf.order, input) < Place(wf.order, id)
  {
    forall input | wf.g.Reads(id, input)
      ensures input in wf.order && Place(wf.order, input) < Place(wf.order, id)
    {
      assert wf.g.Reads(wf.order[Place(wf.order, id)], input);
    }
  }

  // A stage below one that is not usable waits. Any other stage is what its handler makes of its
  // inputs' expected outputs.
  ghost function Expected(wf: Workflow, world: nat, id: Id): (v: Verdict)
    requires wf.Valid() && id in wf.g.inputs
    ensures Usable(v.status) ==> v.output.Some?
    decreases (InputsArePlacedBefore(wf, id); Place(wf.order, id)), 1
  {
    InputsArePlacedBefore(wf, id);
    if exists input :: wf.g.Reads(id, input) && !Usable(Expected(wf, world, input).status) then
      Verdict(Pending, None)
    else if exists input :: input in wf.g.inputs[id] && input !in wf.g.inputs && input !in wf.injected then
      Verdict(Error, None)
    else
      var answer := wf.handler(world, id, ExpectedInputs(wf, world, id, |wf.g.inputs[id]|));
      Verdict(Judge(answer), if answer.Produced? then Some(answer.table) else None)
  }

  ghost function ExpectedInputs(wf: Workflow, world: nat, id: Id, n: nat): (tables: seq<Table>)
    requires wf.Valid() && id in wf.g.inputs && n <= |wf.g.inputs[id]|
    requires forall input :: wf.g.Reads(id, input) ==>
               (InputsArePlacedBefore(wf, id); Usable(Expected(wf, world, input).status))
    requires forall input :: input in wf.g.inputs[id] ==> input in wf.g.inputs || input in wf.injected
    ensures |tables| == n
    decreases (InputsArePlacedBefore(wf, id); Place(wf.order, id)), 0, n
  {
    InputsArePlacedBefore(wf, id);
    if n == 0 then []
    else
      var input := wf.g.inputs[id][n - 1];
      ExpectedInputs(wf, world, id, n - 1)
      + [if input in wf.g.inputs then Expected(wf, world, input).output.value else wf.injected[input]]
  }

  // ---------------------------------------------------------------- one pass, as a step machine

  // A cancel posted just before a stage is reached, or while it is being handled.
  datatype News = News(before: bool, during: bool)

  datatype Pass = Pass(
    records: map<Id, Status>,
    outputs: map<Id, Table>,
    disk: map<Id, Table>,
    blocked: set<Id>,
    halted: seq<Id>,
    mail: bool,                        // a cancel nobody has consumed yet
    stoppedAt: Option<Id>)

  function Gather(ids: seq<Id>, outputs: map<Id, Table>): (tables: Option<seq<Table>>)
    ensures tables.Some? <==> forall id :: id in ids ==> id in outputs
    ensures tables.Some? ==>
        |tables.value| == |ids| && forall k :: 0 <= k < |ids| ==> tables.value[k] == outputs[ids[k]]
  {
    if ids == [] then Some([])
    else if ids[0] !in outputs then None
    else
      var rest :- Gather(ids[1..], outputs);
      Some([outputs[ids[0]]] + rest)
  }

  predicate AlreadyProduced(id: Id, p: Pass) {
    id in p.outputs && id in p.records && Usable(p.records[id])
  }

  function Step(wf: Workflow, world: nat, id: Id, news: News, p: Pass): Pass
    requires id in wf.g.inputs
  {
    if p.stoppedAt.Some? then p
    else if p.mail || news.before then p.(mail := false, stoppedAt := Some(id))
    else if exists input :: input in wf.g.inputs[id] && input in p.blocked then
      p.(records := p.records[id := Pending], blocked := p.blocked + {id}, outputs := p.outputs - {id},
         mail := news.during)
    else if AlreadyProduced(id, p) then p.(mail := news.during)
    else Execute(wf, world, id, news.during, p)
  }

  function Execute(wf: Workflow, world: nat, id: Id, during: bool, p: Pass): Pass
    requires id in wf.g.inputs
  {
    match Gather(wf.g.inputs[id], p.outputs)
    case None => p.(records := p.records[id := Error], blocked := p.blocked + {id}, mail := during)
    case Some(tables) =>
      if during && id in wf.polls then
        p.(records := p.records[id := Cancelled], stoppedAt := Some(id), mail := false)
      else
        Settle(id, wf.handler(world, id, tables), p.(mail := during))
  }

  function Settle(id: Id, answer: Answer, p: Pass): Pass {
    var status := Judge(answer);
    var recorded := p.(records := p.records[id := status],
                       blocked := if Usable(status) then p.blocked else p.blocked + {id});
    match answer
    case Raised => recorded
    case Halted => recorded.(halted := p.halted + [id])
    case Produced(table, _, _, _) => recorded.(outputs := p.outputs[id := table], disk := p.disk[id := table])
  }

  function Steps(wf: Workflow, world: nat, news: seq<News>, n: nat, p: Pass): Pass
    requires n <= |wf.order| == |news|
    requires forall i :: 0 <= i < |wf.order| ==> wf.order[i] in wf.g.inputs
  {
    if n == 0 then p
    else
      Step(wf, world, wf.order[n - 1], news[n - 1], Steps(wf, world, news, n - 1, p))
  }

  // What a session leaves behind for the next one.
  datatype Stored = Stored(records: map<Id, Status>, disk: map<Id, Table>)

  // A pass starts from the stored outputs of the stages recorded as done, and from nothing else.
  function Start(wf: Workflow, stored: Stored): Pass {
    Pass(stored.records, wf.injected + Reloaded(stored), stored.disk, {}, [], false, None)
  }

  function Reloaded(stored: Stored): map<Id, Table> {
    map id | id in stored.disk && id in stored.records && Usable(stored.records[id]) :: stored.disk[id]
  }

  // ---------------------------------------------------------------- the pass meets expectations

  type Verdicts = map<Id, Verdict>

  ghost function AllExpected(wf: Workflow, world: nat): (m: Verdicts)
    requires wf.Valid()
  {
    map id | id in wf.g.inputs :: Expected(wf, world, id)
  }

  ghost predicate Waits(wf: Workflow, m: Verdicts, id: Id)
    requires m.Keys == wf.g.inputs.Keys
  {
    exists input :: wf.g.Reads(id, input) && !Usable(m[input].status)
  }

  ghost predicate Starved(wf: Workflow, id: Id)
    requires id in wf.g.inputs
  {
    exists input :: input in wf.g.inputs[id] && input !in wf.g.inputs && input !in wf.injected
  }

  // The tables a called stage is handed: its inputs' expected outputs, or what was injected.
  ghost predicate AreDue(wf: Workflow, m: Verdicts, id: Id, tables: seq<Table>)
    requires m.Keys == wf.g.inputs.Keys
  {
    && id in wf.g.inputs
    && |tables| == |wf.g.inputs[id]|
    && forall k :: 0 <= k < |tables| ==> IsSupplied(wf, m, wf.g.inputs[id][k], tables[k])
  }

  ghost predicate IsSupplied(wf: Workflow, m: Verdicts, input: Id, table: Table)
    requires m.Keys == wf.g.inputs.Keys
  {
    if input in wf.g.inputs then Usable(m[input].status) && m[input].output == Some(table)
    else input in wf.injected && wf.injected[input] == table
  }

  // What `Expected` says of one stage, in terms of what it says of the stage's inputs.
  ghost predicate IsCoherent(wf: Workflow, world: nat, m: Verdicts, id: Id)
    requires m.Keys == wf.g.inputs.Keys && id in m
  {
    if Waits(wf, m, id) then m[id] == Verdict(Pending, None)
    else if Starved(wf, id) then m[id] == Verdict(Error, None)
    else forall tables :: AreDue(wf, m, id, tables) ==> m[id] == AnswerVerdict(wf.handler(world, id, tables))
  }

  function AnswerVerdict(a: Answer): Verdict {
    Verdict(Judge(a), if a.Produced? then Some(a.table) else None)
  }

  ghost predicate Coherent(wf: Workflow, world: nat, m: Verdicts) {
    && m.Keys == wf.g.inputs.Keys
    && (forall id :: id in m ==> IsCoherent(wf, world, m, id))
    && (forall id :: id in m && Usable(m[id].status) ==> m[id].output.Some?)
  }

  lemma {:induction false} ExpectedIsCoherent(wf: Workflow, world: nat)
    requires wf.Valid()
    ensures Coherent(wf, world, AllExpected(wf, world))
  {
    var m := AllExpected(wf, world);
    forall id | id in m
      ensures IsCoherent(wf, world, m, id)
    {
      ExpectedIsCoherentAt(wf, world, m, id);
    }
  }

  ghost predicate InputsAreUsable(wf: Workflow, world: nat, id: Id)
    requires wf.Valid()
  {
    forall input :: wf.g.Reads(id, input) ==> Usable(Expected(wf, world, input).status)
  }

  lemma {:induction false} ExpectedIsCoherentAt(wf: Workflow, world: nat, m: Verdicts, id: Id)
    requires wf.Valid() && m == AllExpected(wf, world) && id in m
    ensures IsCoherent(wf, world, m, id)
  {
    WaitsAsExpected(wf, world, m, id);
    if !Waits(wf, m, id) && !Starved(wf, id) {
      forall tables | AreDue(wf, m, id, tables)
        ensures m[id] == AnswerVerdict(wf.handler(world, id, tables))
      {
        DueTablesAreExpected(wf, world, id, tables, |tables|);
        CalledAsExpected(wf, world, id, tables);
      }
    }
  }

  lemma {:induction false} WaitsAsExpected(wf: Workflow, world: nat, m: Verdicts, id: Id)
    requires wf.Valid() && m == AllExpected(wf, world) && id in m
    ensures Waits(wf, m, id) <==> !InputsAreUsable(wf, world, id)
    ensures Waits(wf, m, id) ==> m[id] == Verdict(Pending, None)
    ensures !Waits(wf, m, id) && Starved(wf, id) ==> m[id] == Verdict(Error, None)
  {
    assert forall input :: wf.g.Reads(id, input) ==> m[input] == Expected(wf, world, input);
  }

  lemma {:induction false} CalledAsExpected(wf: Workflow, world: nat, id: Id, tables: seq<Table>)
    requires wf.Valid() && id in wf.g.inputs && InputsAreUsable(wf, world, id) && !Starved(wf, id)
    requires |tables| == |wf.g.inputs[id]|
    requires ExpectedInputs(wf, world, id, |tables|) == tables[..|tables|]
    ensures Expected(wf, world, id) == AnswerVerdict(wf.handler(world, id, tables))
  {
    assert tables[..|tables|] == tables;
  }

  lemma {:induction false} DueTablesAreExpected(wf: Workflow, world: nat, id: Id, tables: seq<Table>, n: nat)
    requires wf.Valid() && id in wf.g.inputs && n <= |wf.g.inputs[id]|
    requires AreDue(wf, AllExpected(wf, world), id, tables)
    requires InputsAreUsable(wf, world, id) && !Starved(wf, id)
    ensures ExpectedInputs(wf, world, id, n) == tables[..n]
  {
    if n > 0 {
      DueTablesAreExpected(wf, world, id, tables, n - 1);
      ExpectedOneMore(wf, world, id, n);
      DueTableIsExpected(wf, world, id, tables, n - 1);
      OneTableMore(tables, n);
    }
  }

  lemma {:induction false} OneTableMore(tables: seq<Table>, n: nat)
    requires 0 < n <= |tables|
    ensures tables[..n] == tables[..n - 1] + [tables[n - 1]]
  {
  }

  lemma {:induction false} ExpectedOneMore(wf: Workflow, world: nat, id: Id, n: nat)
    requires wf.Valid() && id in wf.g.inputs && 0 < n <= |wf.g.inputs[id]|
    requires InputsAreUsable(wf, world, id) && !Starved(wf, id)
    ensures var input := wf.g.inputs[id][n - 1];
      ExpectedInputs(wf, world, id, n) == ExpectedInputs(wf, world, id, n - 1)
        + [if input in wf.g.inputs then Expected(wf, world, input).output.value else wf.injected[input]]
  {
  }

  lemma {:induction false} DueTableIsExpected(wf: Workflow, world: nat, id: Id, tables: seq<Table>, k: nat)
    requires wf.Valid() && AreDue(wf, AllExpected(wf, world), id, tables) && k < |tables|
    ensures var input := wf.g.inputs[id][k];
      if input in wf.g.inputs then Expected(wf, world, input).output == Some(tables[k])
      else input in wf.injected && wf.injected[input] == tables[k]
  {
    assert IsSupplied(wf, AllExpected(wf, world), wf.g.inputs[id][k], tables[k]);
  }

  // One assignment of verdicts is coherent, and it is the expected one.
  lemma {:induction false} ExpectationsAreUnique(wf: Workflow, world: nat, m: Verdicts, m': Verdicts, n: nat)
    requires n <= |wf.order| && Orderly(wf, n)
    requires Coherent(wf, world, m) && Coherent(wf, world, m')
    ensures forall id :: id in Done(wf.order, n) ==> id in m && m[id] == m'[id]
  {
    if n > 0 {
      ExpectationsAreUnique(wf, world, m, m', n - 1);
      var id := wf.order[n - 1];
      assert IsCoherent(wf, world, m, id) && IsCoherent(wf, world, m', id);
      assert Waits(wf, m, id) <==> Waits(wf, m', id);
      if !Waits(wf, m, id) && !Starved(wf, id) {
        var tables := TablesDue(wf, m, id, |wf.g.inputs[id]|);
        forall k | 0 <= k < |tables|
          ensures IsSupplied(wf, m', wf.g.inputs[id][k], tables[k])
        {
          assert IsSupplied(wf, m, wf.g.inputs[id][k], tables[k]);
          if wf.g.inputs[id][k] in wf.g.inputs { assert wf.g.Reads(id, wf.g.inputs[id][k]); }
        }
        assert AreDue(wf, m, id, tables) && AreDue(wf, m', id, tables);
      }
    }
  }

  // A recorded success is the expected one, and so is its output wherever a copy is held.
  ghost predicate Trusted(m: Verdicts, records: map<Id, Status>, copies: map<Id, Table>) {
    forall id :: id in m && id in records && Usable(records[id]) ==>
      m[id].status == records[id] && (id in copies ==> m[id].output == Some(copies[id]))
  }

  ghost predicate Met(m: Verdicts, id: Id, p: Pass)
    requires id in m
  {
    && id in p.records && p.records[id] == m[id].status
    && (id in p.blocked <==> !Usable(m[id].status))
    && (Usable(m[id].status) ==> id in p.outputs)
  }

  ghost predicate SuppliesInjected(wf: Workflow, outputs: map<Id, Table>) {
    forall id :: id !in wf.g.inputs ==>
      && (id in outputs <==> id in wf.injected)
      && (id in outputs ==> outputs[id] == wf.injected[id])
  }

  // An unstopped pass that has dealt with the stages `done`.
  ghost predicate Meets(wf: Workflow, m: Verdicts, done: set<Id>, p: Pass)
    requires m.Keys == wf.g.inputs.Keys
  {
    && Trusted(m, p.records, p.disk)
    && Trusted(m, p.records, p.outputs)
    && (forall id :: id in done ==> id in m && Met(m, id, p))
    && p.blocked <= done
    && SuppliesInjected(wf, p.outputs)
  }

  lemma {:induction false} GathersWhatIsDue(wf: Workflow, m: Verdicts, done: set<Id>, id: Id, p: Pass)
    requires m.Keys == wf.g.inputs.Keys && id in m
    requires Meets(wf, m, done, p)
    requires forall input :: wf.g.Reads(id, input) ==> input in done
    requires !Waits(wf, m, id)
    ensures var g := Gather(wf.g.inputs[id], p.outputs);
            (g.None? <==> Starved(wf, id)) && (g.Some? ==> AreDue(wf, m, id, g.value))
  {
    forall input | input in wf.g.inputs[id]
      ensures input in p.outputs <==> (input in wf.g.inputs || input in wf.injected)
      ensures input in p.outputs ==> IsSupplied(wf, m, input, p.outputs[input])
    {
      if input in wf.g.inputs {
        assert wf.g.Reads(id, input);
        assert Met(m, input, p);
      }
    }
  }

  // Dealing with one stage keeps faith: enough that it came out as expected and nothing else moved.
  lemma {:induction false} Advance(wf: Workflow, m: Verdicts, done: set<Id>, id: Id, p: Pass, q: Pass)
    requires m.Keys == wf.g.inputs.Keys && id in m && id !in done && Meets(wf, m, done, p)
    requires q.records == p.records[id := m[id].status]
    requires q.blocked == if Usable(m[id].status) then p.blocked else p.blocked + {id}
    requires q.outputs - {id} == p.outputs - {id} && q.disk - {id} == p.disk - {id}
    requires Usable(m[id].status) ==> id in q.outputs && m[id].output == Some(q.outputs[id])
    requires Usable(m[id].status) && id in q.disk ==> m[id].output == Some(q.disk[id])
    ensures Meets(wf, m, done + {id}, q)
  {
    forall x | x != id
      ensures x in q.outputs <==> x in p.outputs
      ensures x in p.outputs ==> q.outputs[x] == p.outputs[x]
      ensures x in q.disk <==> x in p.disk
      ensures x in p.disk ==> q.disk[x] == p.disk[x]
    {
      assert x in q.outputs - {id} <==> x in p.outputs - {id};
      assert x in q.disk - {id} <==> x in p.disk - {id};
      if x in p.outputs { assert (q.outputs - {id})[x] == (p.outputs - {id})[x]; }
      if x in p.disk { assert (q.disk - {id})[x] == (p.disk - {id})[x]; }
    }
    forall x | x in done
      ensures Met(m, x, q)
    {
      assert Met(m, x, p);
    }
  }

  // What dealing with one stage leaves, whether or not the pass goes on.
  ghost predicate DealtWith(wf: Workflow, m: Verdicts, done: set<Id>, id: Id, p: Pass, q: Pass)
    requires m.Keys == wf.g.inputs.Keys && id in m
  {
    && Trusted(m, q.records, q.disk)
    && (q.stoppedAt.None? ==>
          && Meets(wf, m, done + {id}, q)
          && q.records == p.records[id := m[id].status]
          && q.halted == p.halted + if m[id].status == AwaitingReview then [id] else [])
  }

  lemma {:induction false} SettleMeets(wf: Workflow, m: Verdicts, done: set<Id>, id: Id, answer: Answer, during: bool,
                                       p: Pass)
    requires m.Keys == wf.g.inputs.Keys && id in m && id !in done && Meets(wf, m, done, p)
    requires m[id] == AnswerVerdict(answer)
    ensures DealtWith(wf, m, done, id, p, Settle(id, answer, p.(mail := during)))
  {
    var q := Settle(id, answer, p.(mail := during));
    Advance(wf, m, done, id, p, q);
  }

  lemma {:induction false} StarvedMeets(wf: Workflow, m: Verdicts, done: set<Id>, id: Id, during: bool, p: Pass)
    requires m.Keys == wf.g.inputs.Keys && id in m && id !in done && Meets(wf, m, done, p)
    requires m[id] == Verdict(Error, None)
    ensures DealtWith(wf, m, done, id, p,
                      p.(records := p.records[id := Error], blocked := p.blocked + {id}, mail := during))
  {
    var q := p.(records := p.records[id := Error], blocked := p.blocked + {id}, mail := during);
    Advance(wf, m, done, id, p, q);
  }

  lemma {:induction false} CancelledMeets(wf: Workflow, m: Verdicts, done: set<Id>, id: Id, p: Pass)
    requires m.Keys == wf.g.inputs.Keys && id in m && Meets(wf, m, done, p)
    ensures DealtWith(wf, m, done, id, p,
                      p.(records := p.records[id := Cancelled], stoppedAt := Some(id), mail := false))
  {
  }

  lemma {:induction false} ExecuteMeets(wf: Workflow, world: nat, m: Verdicts, done: set<Id>, id: Id, during: bool,
                                        p: Pass)
    requires m.Keys == wf.g.inputs.Keys && id in m && id !in done && Meets(wf, m, done, p)
    requires IsCoherent(wf, world, m, id) && !Waits(wf, m, id)
    requires var g := Gather(wf.g.inputs[id], p.outputs);
             (g.None? <==> Starved(wf, id)) && (g.Some? ==> AreDue(wf, m, id, g.value))
    ensures DealtWith(wf, m, done, id, p, Execute(wf, world, id, during, p))
  {
    match Gather(wf.g.inputs[id], p.outputs)
    case None => StarvedMeets(wf, m, done, id, during, p);
    case Some(tables) =>
      CancelledMeets(wf, m, done, id, p);
      assert m[id] == AnswerVerdict(wf.handler(world, id, tables));
      SettleMeets(wf, m, done, id, wf.handler(world, id, tables), during, p);
  }

  lemma {:induction false} StepMeets(wf: Workflow, world: nat, m: Verdicts, done: set<Id>, id: Id, news: News, p: Pass)
    requires Coherent(wf, world, m) && id in m && id !in done && Meets(wf, m, done, p) && p.stoppedAt.None?
    requires forall input :: wf.g.Reads(id, input) ==> input in done
    ensures DealtWith(wf, m, done, id, p, Step(wf, world, id, news, p))
  {
    if !(p.mail || news.before) {
      BlockedMeansWaiting(wf, m, done, id, p);
      if Waits(wf, m, id) || AlreadyProduced(id, p) {
        PassedOverMeets(wf, world, m, done, id, news, p);
      } else {
        GathersWhatIsDue(wf, m, done, id, p);
        ExecuteMeets(wf, world, m, done, id, news.during, p);
      }
    }
  }

  // A stage that waits, or that an earlier session produced.
  lemma {:induction false} PassedOverMeets(wf: Workflow, world: nat, m: Verdicts, done: set<Id>, id: Id, news: News,
                                           p: Pass)
    requires Coherent(wf, world, m) && id in m && id !in done && Meets(wf, m, done, p) && p.stoppedAt.None?
    requires !(p.mail || news.before) && (Waits(wf, m, id) || AlreadyProduced(id, p))
    requires (exists input :: input in wf.g.inputs[id] && input in p.blocked) <==> Waits(wf, m, id)
    ensures DealtWith(wf, m, done, id, p, Step(wf, world, id, news, p))
  {
    var q := Step(wf, world, id, news, p);
    assert IsCoherent(wf, world, m, id);
    if !Waits(wf, m, id) { assert p.records[id := m[id].status] == p.records; }
    Advance(wf, m, done, id, p, q);
  }

  lemma {:induction false} BlockedMeansWaiting(wf: Workflow, m: Verdicts, done: set<Id>, id: Id, p: Pass)
    requires m.Keys == wf.g.inputs.Keys && id in m && Meets(wf, m, done, p)
    requires forall input :: wf.g.Reads(id, input) ==> input in done
    ensures (exists input :: input in wf.g.inputs[id] && input in p.blocked) <==> Waits(wf, m, id)
  {
    if Waits(wf, m, id) {
      var input :| wf.g.Reads(id, input) && !Usable(m[input].status);
      assert Met(m, input, p);
    }
    if input :| input in wf.g.inputs[id] && input in p.blocked {
      assert Met(m, input, p);
      assert wf.g.Reads(id, input);
    }
  }

  // ---------------------------------------------------------------- whole passes

  ghost function Done(order: seq<Id>, n: nat): set<Id>
    requires n <= |order|
  {
    if n == 0 then {} else Done(order, n - 1) + {order[n - 1]}
  }

  // The first `n` stages that should halt for review, in run order.
  ghost function Awaiting(m: Verdicts, order: seq<Id>, n: nat): seq<Id>
    requires n <= |order|
  {
    if n == 0 then []
    else
      var id := order[n - 1];
      Awaiting(m, order, n - 1) + if id in m && m[id].status == AwaitingReview then [id] else []
  }

  // Each of the first `n` stages is new and reads only stages before it.
  ghost predicate Orderly(wf: Workflow, n: nat)
    requires n <= |wf.order|
  {
    n == 0 ||
    (var id := wf.order[n - 1];
     && Orderly(wf, n - 1) && id in wf.g.inputs && id !in Done(wf.order, n - 1)
     && forall input :: wf.g.Reads(id, input) ==> input in Done(wf.order, n - 1))
  }

  lemma {:induction false} DoneIs(order: seq<Id>, n: nat)
    requires n <= |order|
    ensures forall id :: id in Done(order, n) <==> id in order[..n]
  {
    if n > 0 {
      DoneIs(order, n - 1);
      assert order[..n] == order[..n - 1] + [order[n - 1]];
    } else {
      assert order[..0] == [];
    }
  }

  lemma {:induction false} ValidIsOrderly(wf: Workflow, n: nat)
    requires wf.Valid() && n <= |wf.order|
    ensures Orderly(wf, n)
    ensures forall i :: 0 <= i < |wf.order| ==> wf.order[i] in wf.g.inputs
  {
    forall i | 0 <= i < |wf.order|
      ensures wf.order[i] in wf.g.inputs
    {
      assert wf.order[i] in wf.order;
    }
    if n > 0 {
      ValidIsOrderly(wf, n - 1);
      DoneIs(wf.order, n - 1);
    }
  }

  lemma {:induction false} AllAreDone(wf: Workflow)
    requires wf.Valid()
    ensures Done(wf.order, |wf.order|) == wf.g.inputs.Keys
  {
    DoneIs(wf.order, |wf.order|);
    assert wf.order[..|wf.order|] == wf.order;
  }

  // Every stage has a record, and whatever is recorded as done is what it should be.
  ghost predicate CanStart(wf: Workflow, m: Verdicts, stored: Stored) {
    && stored.records.Keys == wf.g.inputs.Keys
    && Trusted(m, stored.records, stored.disk)
    && (wf.injected == map[] || forall id :: id in stored.records ==> !Usable(stored.records[id]))
  }

  lemma {:induction false} StartMeets(wf: Workflow, m: Verdicts, stored: Stored)
    requires m.Keys == wf.g.inputs.Keys && CanStart(wf, m, stored)
    ensures Meets(wf, m, {}, Start(wf, stored))
  {
  }

  lemma {:induction false} StepsMeet(wf: Workflow, world: nat, m: Verdicts, news: seq<News>, n: nat, start: Pass)
    requires n <= |wf.order| == |news|
    requires forall i :: 0 <= i < |wf.order| ==> wf.order[i] in wf.g.inputs
    requires Orderly(wf, n)
    requires Coherent(wf, world, m) && Meets(wf, m, {}, start) && start.halted == [] && start.stoppedAt.None?
    ensures var q := Steps(wf, world, news, n, start);
            && Trusted(m, q.records, q.disk)
            && (q.stoppedAt.None? ==> Meets(wf, m, Done(wf.order, n), q) && q.halted == Awaiting(m, wf.order, n))
  {
    if n > 0 {
      StepsMeet(wf, world, m, news, n - 1, start);
      var p := Steps(wf, world, news, n - 1, start);
      if p.stoppedAt.None? {
        StepMeets(wf, world, m, Done(wf.order, n - 1), wf.order[n - 1], news[n - 1], p);
      }
    }
  }

  lemma {:induction false} StepsKeepKeys(wf: Workflow, world: nat, news: seq<News>, n: nat, start: Pass)
    requires n <= |wf.order| == |news|
    requires forall i :: 0 <= i < |wf.order| ==> wf.order[i] in wf.g.inputs
    requires start.records.Keys == wf.g.inputs.Keys
    ensures Steps(wf, world, news, n, start).records.Keys == wf.g.inputs.Keys
  {
    if n > 0 {
      StepsKeepKeys(wf, world, news, n - 1, start);
      StepKeepsKeys(wf, world, wf.order[n - 1], news[n - 1], Steps(wf, world, news, n - 1, start));
    }
  }

  lemma {:induction false} StepKeepsKeys(wf: Workflow, world: nat, id: Id, news: News, p: Pass)
    requires id in wf.g.inputs && id in p.records
    ensures Step(wf, world, id, news, p).records.Keys == p.records.Keys
  {
  }

  ghost function Statuses(m: Verdicts): map<Id, Status> {
    map id | id in m :: m[id].status
  }

  // The records, halts and usable outputs of a pass are the expected ones, and nothing else.
  ghost predicate IsAsExpected(wf: Workflow, m: Verdicts, p: Pass) {
    && p.records == Statuses(m)
    && p.halted == Awaiting(m, wf.order, |wf.order|)
    && forall id :: id in m && Usable(m[id].status) ==> id in p.outputs && m[id].output == Some(p.outputs[id])
  }

  lemma {:induction false} MeetingAllIsAsExpected(wf: Workflow, m: Verdicts, p: Pass)
    requires m.Keys == wf.g.inputs.Keys && p.records.Keys == m.Keys && Meets(wf, m, m.Keys, p)
    requires p.halted == Awaiting(m, wf.order, |wf.order|)
    ensures IsAsExpected(wf, m, p)
  {
    forall id | id in m
      ensures Met(m, id, p)
    {
    }
  }

  // Wherever a pass starts from, if it runs to its end it comes out as expected; if it is stopped,
  // what it leaves is still what the stages should be.
  lemma {:induction false} PassesAreAsExpected(wf: Workflow, world: nat, m: Verdicts, news: seq<News>, stored: Stored,
                                               n: nat)
    requires wf.Valid() && Coherent(wf, world, m) && CanStart(wf, m, stored)
    requires n <= |news| == |wf.order|
    ensures forall i :: 0 <= i < |wf.order| ==> wf.order[i] in wf.g.inputs
    ensures var q := Steps(wf, world, news, n, Start(wf, stored));
            && Trusted(m, q.records, q.disk)
            && q.records.Keys == wf.g.inputs.Keys
            && (n == |wf.order| && q.stoppedAt.None? ==> IsAsExpected(wf, m, q))
  {
    ValidIsOrderly(wf, n);
    AllAreDone(wf);
    PassIsAsExpected(wf, world, m, news, stored, n);
  }

  lemma {:induction false} PassIsAsExpected(wf: Workflow, world: nat, m: Verdicts, news: seq<News>, stored: Stored,
                                            n: nat)
    requires forall i :: 0 <= i < |wf.order| ==> wf.order[i] in wf.g.inputs
    requires n <= |news| == |wf.order| && Orderly(wf, n) && Done(wf.order, |wf.order|) == wf.g.inputs.Keys
    requires Coherent(wf, world, m) && CanStart(wf, m, stored)
    ensures var q := Steps(wf, world, news, n, Start(wf, stored));
            && Trusted(m, q.records, q.disk)
            && q.records.Keys == wf.g.inputs.Keys
            && (n == |wf.order| && q.stoppedAt.None? ==> IsAsExpected(wf, m, q))
  {
    StartMeets(wf, m, stored);
    StepsMeet(wf, world, m, news, n, Start(wf, stored));
    StepsKeepKeys(wf, world, news, n, Start(wf, stored));
    var q := Steps(wf, world, news, n, Start(wf, stored));
    if n == |wf.order| && q.stoppedAt.None? {
      MeetingAllIsAsExpected(wf, m, q);
    }
  }

  // A handler is only ever called with the expected ok or warning output of every listed input.
  function TablesHanded(wf: Workflow, id: Id, news: News, p: Pass): Option<seq<Table>>
    requires id in wf.g.inputs
  {
    if p.stoppedAt.Some? || p.mail || news.before then None
    else if exists input :: input in wf.g.inputs[id] && input in p.blocked then None
    else if AlreadyProduced(id, p) then None
    else Gather(wf.g.inputs[id], p.outputs)
  }

  ghost predicate HandsWhatIsDue(wf: Workflow, m: Verdicts, id: Id, news: News, p: Pass)
    requires m.Keys == wf.g.inputs.Keys && id in m
  {
    var handed := TablesHanded(wf, id, news, p);
    handed.Some? ==> AreDue(wf, m, id, handed.value)
  }

  // The same of the handler called after `n` steps of a pass over what is stored.
  ghost predicate HandsWhatIsDueAt(wf: Workflow, world: nat, m: Verdicts, news: seq<News>, n: nat, stored: Stored) {
    && n < |wf.order| == |news| && m.Keys == wf.g.inputs.Keys
    && (forall i :: 0 <= i < |wf.order| ==> wf.order[i] in wf.g.inputs)
    && HandsWhatIsDue(wf, m, wf.order[n], news[n], Steps(wf, world, news, n, Start(wf, stored)))
  }

  lemma {:induction false} HandlersAreHandedWhatIsDue(wf: Workflow, world: nat, m: Verdicts, news: seq<News>, n: nat,
                                                      stored: Stored)
    requires wf.Valid() && Coherent(wf, world, m) && CanStart(wf, m, stored)
    requires n < |wf.order| == |news|
    ensures HandsWhatIsDueAt(wf, world, m, news, n, stored)
  {
    ValidIsInOrder(wf, n + 1);
    HandedFromTheStart(wf, world, m, news, n, stored);
  }

  ghost predicate IsInOrder(wf: Workflow, n: nat) {
    n <= |wf.order| && Orderly(wf, n) && forall i :: 0 <= i < |wf.order| ==> wf.order[i] in wf.g.inputs
  }

  lemma {:induction false} ValidIsInOrder(wf: Workflow, n: nat)
    requires wf.Valid() && n <= |wf.order|
    ensures IsInOrder(wf, n)
  {
    ValidIsOrderly(wf, n);
  }

  lemma {:induction false} HandedFromTheStart(wf: Workflow, world: nat, m: Verdicts, news: seq<News>, n: nat,
                                              stored: Stored)
    requires n < |wf.order| == |news|
    requires IsInOrder(wf, n + 1) && Coherent(wf, world, m) && CanStart(wf, m, stored)
    ensures HandsWhatIsDueAt(wf, world, m, news, n, stored)
  {
    StartMeets(wf, m, stored);
    StepsHandWhatIsDue(wf, world, m, news, n, Start(wf, stored));
  }

  lemma {:induction false} StepsHandWhatIsDue(wf: Workflow, world: nat, m: Verdicts, news: seq<News>, n: nat,
                                              start: Pass)
    requires n < |wf.order| == |news|
    requires forall i :: 0 <= i < |wf.order| ==> wf.order[i] in wf.g.inputs
    requires Orderly(wf, n + 1)
    requires Coherent(wf, world, m) && Meets(wf, m, {}, start) && start.halted == [] && start.stoppedAt.None?
    ensures HandsWhatIsDue(wf, m, wf.order[n], news[n], Steps(wf, world, news, n, start))
  {
    StepsMeet(wf, world, m, news, n, start);
    HandedTablesAreDue(wf, m, Done(wf.order, n), wf.order[n], news[n], Steps(wf, world, news, n, start));
  }

  lemma {:induction false} HandedTablesAreDue(wf: Workflow, m: Verdicts, done: set<Id>, id: Id, news: News, p: Pass)
    requires m.Keys == wf.g.inputs.Keys && id in m
    requires p.stoppedAt.None? ==> Meets(wf, m, done, p)
    requires forall input :: wf.g.Reads(id, input) ==> input in done
    ensures HandsWhatIsDue(wf, m, id, news, p)
  {
    if TablesHanded(wf, id, news, p).Some? {
      BlockedMeansWaiting(wf, m, done, id, p);
      GathersWhatIsDue(wf, m, done, id, p);
    }
  }

  // ---------------------------------------------------------------- blocking is exact

  predicate Failed(s: Status) { s == Error || s == AwaitingReview }

  ghost predicate HasFailedAncestor(wf: Workflow, m: Verdicts, id: Id) {
    exists walk :: IsFailingWalk(wf, m, id, walk)
  }

  ghost predicate IsFailingWalk(wf: Workflow, m: Verdicts, id: Id, walk: seq<Id>) {
    && |walk| >= 2 && IsWalk(wf.g, walk) && walk[0] == id
    && walk[|walk| - 1] in m && Failed(m[walk[|walk| - 1]].status)
  }

  lemma {:induction false} AFailingWalkBlocks(wf: Workflow, world: nat, m: Verdicts, id: Id, walk: seq<Id>)
    requires Coherent(wf, world, m) && id in m && IsFailingWalk(wf, m, id, walk)
    ensures m[id].status == Pending
    decreases |walk|
  {
    assert wf.g.Reads(walk[0], walk[1]);
    assert IsCoherent(wf, world, m, id);
    if |walk| > 2 {
      AFailingWalkBlocks(wf, world, m, walk[1], walk[1..]);
    }
    assert !Usable(m[walk[1]].status);
  }

  lemma {:induction false} APendingStageHasAFailingWalk(wf: Workflow, world: nat, m: Verdicts, id: Id, n: nat)
    requires Coherent(wf, world, m) && id in m && m[id].status == Pending
    requires n <= |wf.order| && Orderly(wf, n) && id in Done(wf.order, n)
    ensures HasFailedAncestor(wf, m, id)
    decreases n
  {
    if id in Done(wf.order, n - 1) {
      APendingStageHasAFailingWalk(wf, world, m, id, n - 1);
    } else {
      var input := WaitsOn(wf, world, m, id);
      if m[input].status == Pending {
        APendingStageHasAFailingWalk(wf, world, m, input, n - 1);
      }
      AnAncestorOfAnInput(wf, m, id, input);
    }
  }

  lemma {:induction false} WaitsOn(wf: Workflow, world: nat, m: Verdicts, id: Id) returns (input: Id)
    requires Coherent(wf, world, m) && id in m && m[id].status == Pending
    ensures wf.g.Reads(id, input) && input in m && (m[input].status == Pending || Failed(m[input].status))
  {
    NonPendingIsJudged(wf, world, m, id);
    input :| wf.g.Reads(id, input) && !Usable(m[input].status);
    NonPendingIsJudged(wf, world, m, input);
  }

  lemma {:induction false} AnAncestorOfAnInput(wf: Workflow, m: Verdicts, id: Id, input: Id)
    requires wf.g.Reads(id, input) && input in m
    requires Failed(m[input].status) || HasFailedAncestor(wf, m, input)
    ensures HasFailedAncestor(wf, m, id)
  {
    if Failed(m[input].status) {
      assert IsFailingWalk(wf, m, id, [id, input]);
    } else {
      var walk :| IsFailingWalk(wf, m, input, walk);
      FailingWalkGoesBack(wf, m, id, input, walk);
    }
  }

  lemma {:induction false} FailingWalkGoesBack(wf: Workflow, m: Verdicts, id: Id, input: Id, walk: seq<Id>)
    requires IsFailingWalk(wf, m, input, walk) && wf.g.Reads(id, input)
    ensures IsFailingWalk(wf, m, id, [id] + walk)
  {
  }

  // No stage should end up running or cancelled, and one that is pending waits on an input.
  lemma {:induction false} NonPendingIsJudged(wf: Workflow, world: nat, m: Verdicts, id: Id)
    requires Coherent(wf, world, m) && id in m
    ensures m[id].status != Running && m[id].status != Cancelled
    ensures m[id].status == Pending ==> Waits(wf, m, id)
  {
    assert IsCoherent(wf, world, m, id);
    if !Waits(wf, m, id) && !Starved(wf, id) {
      var tables := TablesDue(wf, m, id, |wf.g.inputs[id]|);
      assert AreDue(wf, m, id, tables);
    }
  }

  ghost function TablesDue(wf: Workflow, m: Verdicts, id: Id, n: nat): (tables: seq<Table>)
    requires m.Keys == wf.g.inputs.Keys && id in m && n <= |wf.g.inputs[id]|
    requires forall x :: x in m && Usable(m[x].status) ==> m[x].output.Some?
    requires !Waits(wf, m, id) && !Starved(wf, id)
    ensures |tables| == n && forall k :: 0 <= k < n ==> IsSupplied(wf, m, wf.g.inputs[id][k], tables[k])
  {
    if n == 0 then []
    else
      var input := wf.g.inputs[id][n - 1];
      assert input in wf.g.inputs ==> wf.g.Reads(id, input);
      TablesDue(wf, m, id, n - 1) + [if input in wf.g.inputs then m[input].output.value else wf.injected[input]]
  }

  // A stage ends pending exactly when some ancestor in the run ended in error or awaiting review.
  lemma {:induction false} BlockingIsExact(wf: Workflow, world: nat, m: Verdicts, id: Id)
    requires wf.Valid() && Coherent(wf, world, m) && id in m
    ensures m[id].status == Pending <==> HasFailedAncestor(wf, m, id)
  {
    ValidIsOrderly(wf, |wf.order|);
    AllAreDone(wf);
    if m[id].status == Pending {
      APendingStageHasAFailingWalk(wf, world, m, id, |wf.order|);
    }
    if HasFailedAncestor(wf, m, id) {
      var walk :| IsFailingWalk(wf, m, id, walk);
      AFailingWalkBlocks(wf, world, m, id, walk);
    }
  }

  // ---------------------------------------------------------------- the run's own status

  function FinalRunStatus(statuses: set<Status>): RunStatus {
    if Error in statuses then RunErrors
    else if AwaitingReview in statuses then RunAwaitingReview
    else if Warnings in statuses then RunWarnings
    else RunOk
  }

  function StatusSet(records: map<Id, Status>, ids: seq<Id>): set<Status> {
    set id | id in ids && id in records :: records[id]
  }

  // No failure hides: the folded status is OK exactly when every stage is, although the fold has no
  // branch for a stage that never ran.
  lemma {:induction false} NoFailureHides(wf: Workflow, world: nat, m: Verdicts)
    requires wf.Valid() && Coherent(wf, world, m)
    ensures RunStatusTells(m, FinalRunStatus(StatusSet(Statuses(m), wf.order)), Awaiting(m, wf.order, |wf.order|))
  {
    ValidIsOrderly(wf, |wf.order|);
    AllAreDone(wf);
    DoneIs(wf.order, |wf.order|);
    AwaitingHolds(m, wf.order, |wf.order|);
    forall id | id in m
      ensures m[id].status != Running && m[id].status != Cancelled
      ensures m[id].status == Pending ==> exists a :: a in m && Failed(m[a].status)
    {
      NonPendingIsJudged(wf, world, m, id);
      if m[id].status == Pending {
        APendingStageHasAFailingWalk(wf, world, m, id, |wf.order|);
        var walk :| IsFailingWalk(wf, m, id, walk);
      }
    }
    StatusesOf(m, wf.order);
    TheFoldTells(m, StatusSet(Statuses(m), wf.order), Awaiting(m, wf.order, |wf.order|));
  }

  ghost predicate RunStatusTells(m: Verdicts, status: RunStatus, halted: seq<Id>) {
    && (status == RunOk <==> forall id :: id in m ==> m[id].status == Ok)
    && (status == RunOk || status == RunWarnings <==> forall id :: id in m ==> Usable(m[id].status))
    && (status == RunErrors <==> exists id :: id in m && m[id].status == Error)
    && (status == RunAwaitingReview <==> halted != [] && forall id :: id in m ==> m[id].status != Error)
  }

  lemma {:induction false} StatusesOf(m: Verdicts, order: seq<Id>)
    requires forall id :: id in m ==> id in order
    ensures forall id :: id in m ==> m[id].status in StatusSet(Statuses(m), order)
    ensures forall s :: s in StatusSet(Statuses(m), order) ==> exists id :: id in m && m[id].status == s
  {
    forall id | id in m
      ensures m[id].status in StatusSet(Statuses(m), order)
    {
      assert Statuses(m)[id] == m[id].status;
    }
  }

  lemma {:induction false} TheFoldTells(m: Verdicts, statuses: set<Status>, halted: seq<Id>)
    requires forall id :: id in m ==> m[id].status in statuses
    requires forall s :: s in statuses ==> exists id :: id in m && m[id].status == s
    requires forall id :: id in m ==> m[id].status != Running && m[id].status != Cancelled
    requires forall id :: id in m && m[id].status == Pending ==> exists a :: a in m && Failed(m[a].status)
    requires forall id :: id in halted <==> id in m && m[id].status == AwaitingReview
    ensures RunStatusTells(m, FinalRunStatus(statuses), halted)
  {
    if halted != [] { assert halted[0] in halted; }
    if AwaitingReview in statuses {
      var id :| id in m && m[id].status == AwaitingReview;
      assert id in halted;
    }
  }

  lemma {:induction false} AwaitingHolds(m: Verdicts, order: seq<Id>, n: nat)
    requires n <= |order|
    ensures forall id ::
        id in Awaiting(m, order, n) <==> id in Done(order, n) && id in m && m[id].status == AwaitingReview
  {
    if n > 0 {
      AwaitingHolds(m, order, n - 1);
    }
  }

  // ---------------------------------------------------------------- sessions: cancels, losses, crashes, resumes

  // Reviewers only add decisions, and a handler that once answered well on some tables answers the
  // same ever after. A halt or a failure may come out differently next time.
  ghost predicate Stable(wf: Workflow) {
    forall w: nat, w': nat, id, tables :: w <= w' && Usable(Judge(wf.handler(w, id, tables))) ==>
      wf.handler(w', id, tables) == wf.handler(w, id, tables)
  }

  // A success stays what it was in every later world.
  lemma {:induction false} SuccessesLast(wf: Workflow, w: nat, w': nat, m: Verdicts, m': Verdicts, n: nat)
    requires Stable(wf) && w <= w'
    requires Coherent(wf, w, m) && Coherent(wf, w', m')
    requires n <= |wf.order| && Orderly(wf, n)
    ensures forall id :: id in Done(wf.order, n) && id in m && Usable(m[id].status) ==> m'[id] == m[id]
  {
    if n > 0 {
      SuccessesLast(wf, w, w', m, m', n - 1);
      var id := wf.order[n - 1];
      if Usable(m[id].status) {
        assert IsCoherent(wf, w, m, id) && IsCoherent(wf, w', m', id);
        assert !Waits(wf, m, id) && !Starved(wf, id);
        var tables := TablesDue(wf, m, id, |wf.g.inputs[id]|);
        forall k | 0 <= k < |tables|
          ensures IsSupplied(wf, m', wf.g.inputs[id][k], tables[k])
        {
          assert IsSupplied(wf, m, wf.g.inputs[id][k], tables[k]);
          if wf.g.inputs[id][k] in wf.g.inputs { assert wf.g.Reads(id, wf.g.inputs[id][k]); }
        }
        assert AreDue(wf, m, id, tables) && AreDue(wf, m', id, tables);
        assert !Waits(wf, m', id);
      }
    }
  }

  // How one session goes: the world it runs in, the stored outputs found missing or unreadable as it
  // starts, the cancels that arrive, and whether the process dies at some stage, and with what of
  // that stage's output on disk.
  datatype Session = Session(world: nat, lost: set<Id>, news: seq<News>, crash: Option<Crash>)
  datatype Crash = Crash(at: nat, written: Option<Table>)

  // The run record between sessions.
  datatype Manifest = Manifest(
    records: map<Id, Status>,
    disk: map<Id, Table>,
    status: RunStatus,
    haltedAt: seq<Id>,
    cancelledAt: Option<Id>)

  predicate FitsRun(wf: Workflow, s: Session) {
    && |s.news| == |wf.order|
    && (s.crash.Some? ==> s.crash.value.at < |wf.order|)
    && forall i :: 0 <= i < |wf.order| ==> wf.order[i] in wf.g.inputs
  }

  function StartOf(wf: Workflow, s: Session, before: Manifest): Pass {
    Start(wf, Stored(before.records, before.disk - s.lost))
  }

  function PassOf(wf: Workflow, s: Session, before: Manifest): Pass
    requires FitsRun(wf, s)
  {
    Steps(wf, s.world, s.news, if s.crash.Some? then s.crash.value.at else |wf.order|, StartOf(wf, s, before))
  }

  function Finalize(wf: Workflow, p: Pass, before: Manifest): Manifest {
    if p.stoppedAt.Some? then Manifest(p.records, p.disk, RunCancelled, [], p.stoppedAt)
    else Manifest(p.records, p.disk, FinalRunStatus(StatusSet(p.records, wf.order)), p.halted, before.cancelledAt)
  }

  // A crash leaves the stage it struck recorded as running, and nothing of the end of the run.
  function After(wf: Workflow, s: Session, before: Manifest): Manifest
    requires FitsRun(wf, s)
  {
    var p := PassOf(wf, s, before);
    if s.crash.Some? && p.stoppedAt.None? then
      var id := wf.order[s.crash.value.at];
      before.(records := p.records[id := Running],
              disk := if s.crash.value.written.Some? then p.disk[id := s.crash.value.written.value] else p.disk,
              haltedAt := [])
    else Finalize(wf, p, before)
  }

  function History(wf: Workflow, ss: seq<Session>, first: Manifest): Manifest
    requires forall i :: 0 <= i < |ss| ==> FitsRun(wf, ss[i])
  {
    if ss == [] then first else After(wf, ss[|ss| - 1], History(wf, ss[..|ss| - 1], first))
  }

  function Prepared(wf: Workflow): Manifest {
    Manifest(map id | id in wf.g.inputs :: Pending, map[], RunOk, [], None)
  }

  ghost predicate CanResume(wf: Workflow, m: Verdicts, before: Manifest) {
    before.records.Keys == wf.g.inputs.Keys && Trusted(m, before.records, before.disk)
  }

  lemma {:induction false} ASessionLeavesWhatCanResume(wf: Workflow, m: Verdicts, s: Session, before: Manifest)
    requires wf.Valid() && wf.injected == map[] && FitsRun(wf, s)
    requires Coherent(wf, s.world, m) && CanResume(wf, m, before)
    ensures CanResume(wf, m, After(wf, s, before))
    ensures s.crash.None? && PassOf(wf, s, before).stoppedAt.None? ==> IsAsExpected(wf, m, PassOf(wf, s, before))
  {
    var stored := Stored(before.records, before.disk - s.lost);
    assert CanStart(wf, m, stored);
    PassesAreAsExpected(wf, s.world, m, s.news, stored, if s.crash.Some? then s.crash.value.at else |wf.order|);
    TrustSurvivesTheEnd(wf, m, s, before, PassOf(wf, s, before));
  }

  lemma {:induction false} TrustSurvivesTheEnd(wf: Workflow, m: Verdicts, s: Session, before: Manifest, p: Pass)
    requires FitsRun(wf, s) && p == PassOf(wf, s, before)
    requires Trusted(m, p.records, p.disk) && p.records.Keys == wf.g.inputs.Keys
    ensures CanResume(wf, m, After(wf, s, before))
  {
    if s.crash.Some? && p.stoppedAt.None? {
      var after := After(wf, s, before);
      assert after.records.Keys == wf.g.inputs.Keys;
      assert !Usable(Running);
    }
  }

  lemma {:induction false} TrustLasts(wf: Workflow, w: nat, w': nat, m: Verdicts, m': Verdicts, before: Manifest)
    requires wf.Valid() && Stable(wf) && w <= w'
    requires Coherent(wf, w, m) && Coherent(wf, w', m')
    requires CanResume(wf, m, before)
    ensures CanResume(wf, m', before)
  {
    ValidIsOrderly(wf, |wf.order|);
    AllAreDone(wf);
    SuccessesLast(wf, w, w', m, m', |wf.order|);
  }

  ghost predicate WorldsAdvance(ss: seq<Session>) {
    forall i, j :: 0 <= i < j < |ss| ==> ss[i].world <= ss[j].world
  }

  lemma {:induction false} EveryHistoryCanResume(wf: Workflow, ss: seq<Session>, w: nat, m: Verdicts)
    requires wf.Valid() && wf.injected == map[] && Stable(wf)
    requires WorldsAdvance(ss) && forall i :: 0 <= i < |ss| ==> FitsRun(wf, ss[i]) && ss[i].world <= w
    requires Coherent(wf, w, m)
    ensures CanResume(wf, m, History(wf, ss, Prepared(wf)))
  {
    if ss != [] {
      var last := ss[|ss| - 1];
      var then' := AllExpected(wf, last.world);
      ExpectedIsCoherent(wf, last.world);
      EveryHistoryCanResume(wf, ss[..|ss| - 1], last.world, then');
      ASessionLeavesWhatCanResume(wf, then', last, History(wf, ss[..|ss| - 1], Prepared(wf)));
      TrustLasts(wf, last.world, w, then', m, History(wf, ss, Prepared(wf)));
    }
  }

  // The stage the run was last cancelled at, which nothing ever clears.
  function LastCancelledAt(wf: Workflow, ss: seq<Session>, first: Manifest): Option<Id>
    requires forall i :: 0 <= i < |ss| ==> FitsRun(wf, ss[i])
  {
    if ss == [] then first.cancelledAt
    else
      var stopped := PassOf(wf, ss[|ss| - 1], History(wf, ss[..|ss| - 1], first)).stoppedAt;
      if stopped.Some? then stopped else LastCancelledAt(wf, ss[..|ss| - 1], first)
  }

  lemma {:induction false} CancelledAtIsTheLast(wf: Workflow, ss: seq<Session>, first: Manifest)
    requires forall i :: 0 <= i < |ss| ==> FitsRun(wf, ss[i])
    ensures History(wf, ss, first).cancelledAt == LastCancelledAt(wf, ss, first)
  {
    if ss != [] {
      CancelledAtIsTheLast(wf, ss[..|ss| - 1], first);
    }
  }

  // One session from scratch that no cancel and no crash interrupts.
  function Uninterrupted(wf: Workflow, world: nat): Session {
    Session(world, {}, seq(|wf.order|, _ => News(false, false)), None)
  }

  lemma {:induction false} NothingStopsIt(wf: Workflow, world: nat, n: nat, start: Pass)
    requires FitsRun(wf, Uninterrupted(wf, world)) && n <= |wf.order|
    requires start.stoppedAt.None? && !start.mail
    ensures var p := Steps(wf, world, Uninterrupted(wf, world).news, n, start); p.stoppedAt.None? && !p.mail
  {
    if n > 0 {
      NothingStopsIt(wf, world, n - 1, start);
    }
  }

  // Resume refines one uninterrupted run. However often the run was cancelled between or inside
  // stages, crashed, lost stored outputs and was resumed, once a session runs to its end the stage
  // statuses, the run status, the halts and the usable outputs are those of one run never stopped.
  // Only `cancelledAt` tells the two apart, exactly when some session was cancelled.
  lemma {:induction false} ResumeRefinesOneRun(wf: Workflow, ss: seq<Session>, m: Verdicts)
    requires wf.Valid() && wf.injected == map[] && Stable(wf)
    requires ss != [] && WorldsAdvance(ss) && forall i :: 0 <= i < |ss| ==> FitsRun(wf, ss[i])
    requires var last := ss[|ss| - 1];
             && last.crash.None?
             && PassOf(wf, last, History(wf, ss[..|ss| - 1], Prepared(wf))).stoppedAt.None?
             && Coherent(wf, last.world, m)
    ensures FitsRun(wf, Uninterrupted(wf, ss[|ss| - 1].world))
    ensures var last := ss[|ss| - 1];
            var once := PassOf(wf, Uninterrupted(wf, last.world), Prepared(wf));
            var resumed := PassOf(wf, last, History(wf, ss[..|ss| - 1], Prepared(wf)));
            && IsAsExpected(wf, m, once) && IsAsExpected(wf, m, resumed)
            && var a := History(wf, ss, Prepared(wf));
               var b := History(wf, [Uninterrupted(wf, last.world)], Prepared(wf));
               && a.records == b.records && a.status == b.status && a.haltedAt == b.haltedAt
               && b.cancelledAt == None && a.cancelledAt == LastCancelledAt(wf, ss, Prepared(wf))
  {
    var last, before := ss[|ss| - 1], History(wf, ss[..|ss| - 1], Prepared(wf));
    var once := Uninterrupted(wf, last.world);
    EveryHistoryCanResume(wf, ss[..|ss| - 1], last.world, m);
    OneRunIsAsExpected(wf, last.world, m);
    ASessionLeavesWhatCanResume(wf, m, last, before);
    AlikeInTheEnd(wf, m, PassOf(wf, once, Prepared(wf)), PassOf(wf, last, before), Prepared(wf), before);
    CancelledAtIsTheLast(wf, ss, Prepared(wf));
  }

  lemma {:induction false} OneRunIsAsExpected(wf: Workflow, world: nat, m: Verdicts)
    requires wf.Valid() && wf.injected == map[] && Coherent(wf, world, m)
    ensures var once := Uninterrupted(wf, world);
      && FitsRun(wf, once)
      && PassOf(wf, once, Prepared(wf)).stoppedAt.None?
      && IsAsExpected(wf, m, PassOf(wf, once, Prepared(wf)))
      && History(wf, [once], Prepared(wf)) == Finalize(wf, PassOf(wf, once, Prepared(wf)), Prepared(wf))
  {
    var once := Uninterrupted(wf, world);
    assert CanResume(wf, m, Prepared(wf));
    NothingStopsIt(wf, world, |wf.order|, StartOf(wf, once, Prepared(wf)));
    ASessionLeavesWhatCanResume(wf, m, once, Prepared(wf));
    assert [once][..0] == [];
  }

  lemma {:induction false} AlikeInTheEnd(wf: Workflow, m: Verdicts, p: Pass, q: Pass, before: Manifest,
                                         before': Manifest)
    requires IsAsExpected(wf, m, p) && IsAsExpected(wf, m, q) && p.stoppedAt.None? && q.stoppedAt.None?
    ensures var a, b := Finalize(wf, p, before), Finalize(wf, q, before');
      && a.records == b.records && a.status == b.status && a.haltedAt == b.haltedAt
          && a.cancelledAt == before.cancelledAt
  {
  }
}
