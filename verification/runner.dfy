/** The run loop itself, over the state it changes. */
module Runner {
  import opened Wrappers
  import opened Graph
  import opened Engine

  // Stage records, the outputs held in memory, the stored outputs, the blocked set and the mailbox cancels
  // arrive in. Each method is tied to the step machine of `Engine`, where the results about whole runs are
  // proved.

  datatype RunKey = RunKey(project: nat, run: nat)

  // Cancel messages, read once: a message consumed is gone.
  class Mailboxes {
    var pending: set<RunKey>

    constructor ()
      ensures pending == {}
    {
      pending := {};
    }

    method RequestCancel(key: RunKey)
      modifies this
      ensures pending == old(pending) + {key}
    {
      pending := pending + {key};
    }

    method ConsumeCancel(key: RunKey) returns (found: bool)
      modifies this
      ensures found == (key in old(pending))
      ensures pending == old(pending) - {key}
    {
      found := key in pending;
      if found {
        pending := pending - {key};
      }
    }

    method DiscardCancel(key: RunKey)
      modifies this
      ensures pending == old(pending) - {key}
    {
      pending := pending - {key};
    }
  }

  class Run {
    const wf: Workflow
    const world: nat
    const key: RunKey
    const mailboxes: Mailboxes
    var records: map<Id, Status>
    var outputs: map<Id, Table>
    var disk: map<Id, Table>
    var blocked: set<Id>
    var halted: seq<Id>
    var stoppedAt: Option<Id>

    ghost function State(): Pass
      reads this, mailboxes
    {
      Pass(records, outputs, disk, blocked, halted, key in mailboxes.pending, stoppedAt)
    }

    // A run that is starting, or starting again from what an earlier session stored. A cancel sent
    // to the last session must not stop this one.
    constructor (wf: Workflow, world: nat, key: RunKey, mailboxes: Mailboxes, stored: Stored)
      requires forall id :: id in stored.records ==> id in wf.order
      modifies mailboxes
      ensures this.wf == wf && this.world == world && this.key == key && this.mailboxes == mailboxes
      ensures mailboxes.pending == old(mailboxes.pending) - {key}
      ensures State() == Start(wf, stored)
    {
      this.wf, this.world, this.key, this.mailboxes := wf, world, key, mailboxes;
      records, disk := stored.records, stored.disk;
      blocked, halted, stoppedAt := {}, [], None;
      var reloaded := ReloadOutputs(wf.order, stored);
      outputs := wf.injected + reloaded;
      new;
      mailboxes.DiscardCancel(key);
    }

    method GatherInputs(ids: seq<Id>) returns (tables: Option<seq<Table>>)
      ensures tables == Gather(ids, outputs)
    {
      var gathered: seq<Table> := [];
      for k := 0 to |ids|
        invariant |gathered| == k
        invariant forall j :: 0 <= j < k ==> ids[j] in outputs && gathered[j] == outputs[ids[j]]
      {
        if ids[k] !in outputs {
          return None;
        }
        gathered := gathered + [outputs[ids[k]]];
      }
      assert Gather(ids, outputs).value == gathered;
      return Some(gathered);
    }

    // Records what a handler came back with; only a table it produced is kept.
    method RecordAnswer(id: Id, answer: Answer)
      modifies this
      ensures State() == Settle(id, answer, old(State()))
    {
      var status := Error;
      match answer {
        case Raised =>
        case Halted =>
          status := AwaitingReview;
          halted := halted + [id];
        case Produced(table, inputsPass, outputPasses, failedRows) =>
          disk := disk[id := table];
          outputs := outputs[id := table];
          if failedRows == 0 && outputPasses {
            status := if inputsPass then Ok else Warnings;
          }
      }
      records := records[id := status];
      if !Usable(status) {
        blocked := blocked + {id};
      }
    }

    // One stage, start to finish. `during` says a cancel arrives while it is being handled; a stage
    // whose row driver polls stops there, any other leaves the message for the next checkpoint.
    method RunStage(id: Id, during: bool)
      requires id in wf.g.inputs && stoppedAt.None? && key !in mailboxes.pending
      modifies this, mailboxes
      ensures State() == Execute(wf, world, id, during, old(State()))
    {
      var gathered := GatherInputs(wf.g.inputs[id]);
      if during {
        mailboxes.RequestCancel(key);
      }
      if gathered.None? {
        records := records[id := Error];
        blocked := blocked + {id};
        return;
      }
      if id in wf.polls {
        var cancelled := mailboxes.ConsumeCancel(key);
        if cancelled {
          records := records[id := Cancelled];
          stoppedAt := Some(id);
          return;
        }
      }
      RecordAnswer(id, wf.handler(world, id, gathered.value));
    }

    // One turn of the loop: the checkpoint, then block, skip or run the stage.
    method TakeStage(id: Id, news: News)
      requires id in wf.g.inputs && stoppedAt.None?
      modifies this, mailboxes
      ensures State() == Step(wf, world, id, news, old(State()))
    {
      if news.before {
        mailboxes.RequestCancel(key);
      }
      var cancelled := mailboxes.ConsumeCancel(key);
      if cancelled {
        stoppedAt := Some(id);
        return;
      }
      if exists input :: input in wf.g.inputs[id] && input in blocked {
        records := records[id := Pending];
        blocked := blocked + {id};
        outputs := outputs - {id};
      } else if !(id in outputs && id in records && Usable(records[id])) {
        RunStage(id, news.during);
        return;
      }
      if news.during {
        mailboxes.RequestCancel(key);
      }
    }

    // One pass over the stages, with cancels arriving as `news` says.
    method RunOrderedStages(news: seq<News>)
      requires |news| == |wf.order| && stoppedAt.None?
      requires forall i :: 0 <= i < |wf.order| ==> wf.order[i] in wf.g.inputs
      modifies this, mailboxes
      ensures State() == Steps(wf, world, news, |wf.order|, old(State()))
    {
      ghost var start := State();
      for i := 0 to |wf.order|
        invariant stoppedAt.None?
        invariant State() == Steps(wf, world, news, i, start)
      {
        TakeStage(wf.order[i], news[i]);
        assert State() == Steps(wf, world, news, i + 1, start);
        if stoppedAt.Some? {
          StoppedStays(wf, world, news, i + 1, |wf.order|, start);
          return;
        }
      }
    }

    // A whole session and the record it leaves.
    method Session(news: seq<News>, before: Manifest) returns (after: Manifest)
      requires |news| == |wf.order| && stoppedAt.None?
      requires forall i :: 0 <= i < |wf.order| ==> wf.order[i] in wf.g.inputs
      modifies this, mailboxes
      ensures after == Finalize(wf, Steps(wf, world, news, |wf.order|, old(State())), before)
    {
      RunOrderedStages(news);
      if stoppedAt.Some? {
        after := Manifest(records, disk, RunCancelled, [], stoppedAt);
      } else {
        after := Manifest(records, disk, FinalRunStatus(StatusSet(records, wf.order)), halted, before.cancelledAt);
      }
    }
  }

  // Reloads what the stages recorded as done had stored; a missing file is simply not reloaded.
  method ReloadOutputs(order: seq<Id>, stored: Stored) returns (reloaded: map<Id, Table>)
    requires forall id :: id in stored.records ==> id in order
    ensures reloaded == Reloaded(stored)
  {
    reloaded := map[];
    for i := 0 to |order|
      invariant forall k :: 0 <= k < i && order[k] in Reloaded(stored) ==> order[k] in reloaded
      invariant forall id :: id in reloaded ==> id in Reloaded(stored) && reloaded[id] == stored.disk[id]
    {
      var id := order[i];
      if id in stored.records && Usable(stored.records[id]) && id in stored.disk {
        reloaded := reloaded[id := stored.disk[id]];
      }
    }
    assert forall id :: id in Reloaded(stored) ==> id in order;
  }

  lemma {:induction false} StoppedStays(wf: Workflow, world: nat, news: seq<News>, i: nat, n: nat, p: Pass)
    requires i <= n <= |wf.order| == |news|
    requires forall k :: 0 <= k < |wf.order| ==> wf.order[k] in wf.g.inputs
    requires Steps(wf, world, news, i, p).stoppedAt.Some?
    ensures Steps(wf, world, news, n, p) == Steps(wf, world, news, i, p)
  {
    if i < n {
      StoppedStays(wf, world, news, i, n - 1, p);
    }
  }

  // A run stopped and resumed any number of times ends with the record one unstopped run leaves:
  // the last session, run by the loop above, is the last step of the history.
  method ResumeToTheEnd(wf: Workflow, key: RunKey, mailboxes: Mailboxes, ss: seq<Engine.Session>, m: Verdicts)
    returns (after: Manifest)
    requires wf.Valid() && wf.injected == map[] && Stable(wf)
    requires ss != [] && WorldsAdvance(ss) && forall i :: 0 <= i < |ss| ==> FitsRun(wf, ss[i])
    requires ss[|ss| - 1].crash.None? && Coherent(wf, ss[|ss| - 1].world, m)
    modifies mailboxes
    ensures after == History(wf, ss, Prepared(wf))
    ensures after.status != RunCancelled ==>
        after.records == Statuses(m) && after.haltedAt == Awaiting(m, wf.order, |wf.order|)
  {
    var last := ss[|ss| - 1];
    var before := History(wf, ss[..|ss| - 1], Prepared(wf));
    EveryHistoryCanResume(wf, ss[..|ss| - 1], last.world, m);
    assert FitsRun(wf, last);
    var run := new Run(wf, last.world, key, mailboxes, Stored(before.records, before.disk - last.lost));
    after := run.Session(last.news, before);
    ASessionLeavesWhatCanResume(wf, m, last, before);
  }
}
