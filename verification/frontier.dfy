/** When an eval may compare rows by their position. */
module Frontier {
  import opened Wrappers

  // A walk back from the target over the stages that would run, and what the answer is worth. Stages are
  // numbered in a run order, so each reads earlier ones.

  type Rows = seq<int>

  // `preserving` is what the stage's type says: one output row per row of `inputs[0]`, in its order.
  datatype Stage = Stage(inputs: seq<nat>, preserving: bool, handler: seq<Rows> -> Rows)

  ghost predicate ReadEarlier(stages: seq<Stage>) {
    forall i :: 0 <= i < |stages| ==> ReadsBelow(stages[i].inputs, i)
  }

  ghost predicate ReadsBelow(inputs: seq<nat>, i: nat) {
    forall input :: input in inputs ==> input < i
  }

  ghost predicate Runs(stages: seq<Stage>, injected: set<nat>, reader: nat, input: nat) {
    reader < |stages| && reader !in injected && input in stages[reader].inputs
  }

  // A path of reads from `path[0]` up to its last stage, on which every stage but the last is run.
  ghost predicate IsPath(stages: seq<Stage>, injected: set<nat>, path: seq<nat>) {
    && path != []
    && (forall i :: 0 <= i < |path| ==> path[i] < |stages|)
    && (forall i, j :: 0 <= i < j < |path| && j == i + 1 ==> Runs(stages, injected, path[i], path[j]))
  }

  ghost predicate Leads(stages: seq<Stage>, injected: set<nat>, from: nat, to: nat) {
    exists path :: IsPath(stages, injected, path) && path[0] == from && path[|path| - 1] == to
  }

  // What runs: reached from the target, and not injected itself.
  ghost predicate IsExecuted(stages: seq<Stage>, injected: set<nat>, target: nat, node: nat) {
    node !in injected && Leads(stages, injected, target, node)
  }

  lemma {:induction false} PathsGrow(stages: seq<Stage>, injected: set<nat>, path: seq<nat>, next: nat)
    requires IsPath(stages, injected, path) && next < |stages|
    requires Runs(stages, injected, path[|path| - 1], next)
    ensures IsPath(stages, injected, path + [next])
  {
  }

  lemma {:induction false} PathsShorten(stages: seq<Stage>, injected: set<nat>, path: seq<nat>, n: nat)
    requires IsPath(stages, injected, path) && n < |path|
    ensures IsPath(stages, injected, path[n..]) && IsPath(stages, injected, path[..n + 1])
  {
  }

  // ---------------------------------------------------------------- the walk

  method ListExecutedFrontier(stages: seq<Stage>, injected: set<nat>, target: nat) returns (frontier: seq<nat>)
    requires ReadEarlier(stages) && target < |stages|
    ensures forall node :: node in frontier <==> IsExecuted(stages, injected, target, node)
    ensures forall i, j :: 0 <= i < j < |frontier| ==> frontier[i] != frontier[j]
  {
    frontier := [];
    var seen: set<nat> := {};
    var stack := [target];
    assert IsPath(stages, injected, [target]);
    while stack != []
      invariant Lists(frontier, seen)
      invariant IsWalking(stages, injected, target, seen, stack)
      decreases Unseen(stages, seen), |stack|
    {
      var node := stack[|stack| - 1];
      ghost var before := stack;
      stack := stack[..|stack| - 1];
      assert before == stack + [node];
      if node in seen || node in injected {
        SkipOne(stages, injected, target, seen, stack, node);
        continue;
      }
      ghost var so := seen;
      ListOneMore(frontier, so, node);
      seen := seen + {node};
      frontier := frontier + [node];
      stack := PushInputs(stages, injected, target, node, so, seen, stack);
      FewerUnseen(stages, so, node);
    }
    forall node | IsExecuted(stages, injected, target, node)
      ensures node in frontier
    {
      ClosedHoldsPaths(stages, injected, target, node, seen);
    }
  }

  ghost predicate Lists(frontier: seq<nat>, seen: set<nat>) {
    && (forall node :: node in frontier <==> node in seen)
    && (forall i, j :: 0 <= i < j < |frontier| ==> frontier[i] != frontier[j])
  }

  lemma {:induction false} ListOneMore(frontier: seq<nat>, seen: set<nat>, node: nat)
    requires Lists(frontier, seen) && node !in seen
    ensures Lists(frontier + [node], seen + {node})
  {
  }

  ghost function Unseen(stages: seq<Stage>, seen: set<nat>): nat {
    |Numbers(|stages|) - seen|
  }

  lemma {:induction false} FewerUnseen(stages: seq<Stage>, seen: set<nat>, node: nat)
    requires node < |stages| && node !in seen
    ensures Unseen(stages, seen + {node}) < Unseen(stages, seen)
  {
    var all := Numbers(|stages|);
    assert all - (seen + {node}) == (all - seen) - {node};
    SmallerSet(all - (seen + {node}), all - seen);
  }

  // What was seen is run, what is stacked is reached, and what a seen stage reads is one or the other.
  ghost predicate IsWalking(stages: seq<Stage>, injected: set<nat>, target: nat, seen: set<nat>, stack: seq<nat>) {
    && (forall node: nat :: node in seen ==> node < |stages| && IsExecuted(stages, injected, target, node))
    && (forall node: nat :: node in stack ==> node < |stages| && Leads(stages, injected, target, node))
    && (target in seen || target in injected || target in stack)
    && (forall node, input ::
          node in seen && input in stages[node].inputs ==> input in seen || input in injected || input in stack)
  }

  lemma {:induction false} SkipOne(stages: seq<Stage>, injected: set<nat>, target: nat, seen: set<nat>, stack: seq<nat>,
                                   node: nat)
    requires IsWalking(stages, injected, target, seen, stack + [node]) && (node in seen || node in injected)
    ensures IsWalking(stages, injected, target, seen, stack)
  {
    assert forall other: nat :: other in stack ==> other in stack + [node];
    assert forall other: nat :: other in stack + [node] ==> other in stack || other == node;
  }

  ghost function Numbers(n: nat): (numbers: set<nat>)
    ensures forall i: nat :: i in numbers <==> i < n
  {
    if n == 0 then {} else Numbers(n - 1) + {n - 1}
  }

  lemma {:induction false} SmallerSet(a: set<nat>, b: set<nat>)
    requires a < b
    ensures |a| < |b|
  {
    assert !(b <= a);
    var x :| x in b && x !in a;
    Fits(a, b - {x});
  }

  lemma {:induction false} Fits(a: set<nat>, b: set<nat>)
    requires a <= b
    ensures |a| <= |b|
  {
    if a != {} {
      var x :| x in a;
      Fits(a - {x}, b - {x});
    }
  }

  method PushInputs(stages: seq<Stage>, injected: set<nat>, ghost target: nat, node: nat, ghost so: set<nat>,
                    seen: set<nat>, stack: seq<nat>) returns (more: seq<nat>)
    requires ReadEarlier(stages) && IsWalking(stages, injected, target, so, stack + [node])
    requires node !in so && node !in injected && seen == so + {node}
    ensures IsWalking(stages, injected, target, seen, more) && node < |stages|
  {
    more := stack;
    assert node in stack + [node];
    var inputs := stages[node].inputs;
    assert ReadsBelow(inputs, node);
    assert forall other: nat :: other in stack ==> other in stack + [node];
    for i := 0 to |inputs|
      invariant forall other: nat :: other in stack ==> other in more
      invariant forall other: nat :: other in more ==> other < |stages| && Leads(stages, injected, target, other)
      invariant forall j :: 0 <= j < i ==> inputs[j] in seen || inputs[j] in injected || inputs[j] in more
    {
      var upstream := inputs[i];
      assert upstream in inputs;
      if upstream !in seen && upstream !in injected {
        assert Runs(stages, injected, node, upstream);
        LeadsFurther(stages, injected, target, node, upstream);
        ghost var before := more;
        more := more + [upstream];
        assert forall other: nat :: other in before ==> other in more;
        assert more[|more| - 1] == upstream;
      }
    }
    assert forall other: nat :: other in stack + [node] ==> other in stack || other == node;
  }

  lemma {:induction false} LeadsFurther(stages: seq<Stage>, injected: set<nat>, from: nat, node: nat, next: nat)
    requires Leads(stages, injected, from, node) && Runs(stages, injected, node, next) && next < |stages|
    ensures Leads(stages, injected, from, next)
  {
    var path :| IsPath(stages, injected, path) && path[0] == from && path[|path| - 1] == node;
    PathsGrow(stages, injected, path, next);
    assert (path + [next])[0] == from && (path + [next])[|path|] == next;
  }

  lemma {:induction false} ClosedHoldsPaths(stages: seq<Stage>, injected: set<nat>, target: nat, node: nat,
                                            seen: set<nat>)
    requires IsExecuted(stages, injected, target, node)
    requires target in seen || target in injected
    requires forall n :: n in seen ==> n < |stages|
    requires forall n, input :: n in seen && input in stages[n].inputs ==> input in seen || input in injected
    ensures node in seen
  {
    var path :| IsPath(stages, injected, path) && path[0] == target && path[|path| - 1] == node;
    PathStaysIn(stages, injected, path, seen);
  }

  lemma {:induction false} PathStaysIn(stages: seq<Stage>, injected: set<nat>, path: seq<nat>, seen: set<nat>)
    requires IsPath(stages, injected, path)
    requires path[0] in seen || path[0] in injected
    requires forall n :: n in seen ==> n < |stages|
    requires forall n, input :: n in seen && input in stages[n].inputs ==> input in seen || input in injected
    ensures path[|path| - 1] in seen || path[|path| - 1] in injected
  {
    if |path| > 1 {
      assert Runs(stages, injected, path[0], path[1]);
      PathsShorten(stages, injected, path, 1);
      PathStaysIn(stages, injected, path[1..], seen);
    }
  }

  // ---------------------------------------------------------------- reading the dataset

  // By recursion, as the code asks it.
  predicate ReadsTheDataset(stages: seq<Stage>, injected: set<nat>, dataset: nat, node: nat)
    decreases node
  {
    node == dataset
    || (node < |stages| && node !in injected
        && exists k | 0 <= k < |stages[node].inputs| ::
             stages[node].inputs[k] < node && ReadsTheDataset(stages, injected, dataset, stages[node].inputs[k]))
  }

  // It is a path of runs that ends at the dataset.
  lemma {:induction false} ReadingIsAPath(stages: seq<Stage>, injected: set<nat>, dataset: nat, node: nat)
    requires ReadEarlier(stages) && node < |stages| && dataset < |stages|
    ensures ReadsTheDataset(stages, injected, dataset, node) <==> Leads(stages, injected, node, dataset)
    decreases node
  {
    if ReadsTheDataset(stages, injected, dataset, node) {
      if node == dataset {
        assert IsPath(stages, injected, [node]);
      } else {
        var k :| 0 <= k < |stages[node].inputs| && stages[node].inputs[k] < node
          && ReadsTheDataset(stages, injected, dataset, stages[node].inputs[k]);
        var next := stages[node].inputs[k];
        ReadingIsAPath(stages, injected, dataset, next);
        var path :| IsPath(stages, injected, path) && path[0] == next && path[|path| - 1] == dataset;
        assert Runs(stages, injected, node, next);
        var longer := [node] + path;
        forall i, j | 0 <= i < j < |longer| && j == i + 1
          ensures Runs(stages, injected, longer[i], longer[j])
        {
          if i > 0 { assert Runs(stages, injected, path[i - 1], path[j - 1]); }
        }
        assert IsPath(stages, injected, longer) && longer[0] == node && longer[|longer| - 1] == dataset;
      }
    }
    if Leads(stages, injected, node, dataset) && node != dataset {
      var path :| IsPath(stages, injected, path) && path[0] == node && path[|path| - 1] == dataset;
      var next := path[1];
      assert Runs(stages, injected, path[0], next);
      assert ReadsBelow(stages[node].inputs, node) && next < node;
      PathsShorten(stages, injected, path, 1);
      assert path[1..][0] == next && path[1..][|path[1..]| - 1] == dataset;
      assert Leads(stages, injected, next, dataset);
      ReadingIsAPath(stages, injected, dataset, next);
      var k :| 0 <= k < |stages[node].inputs| && stages[node].inputs[k] == next;
    }
  }

  // A later input that reads the dataset: a preserving stage lines up with its first input only.
  ghost predicate IsOffSpine(stages: seq<Stage>, injected: set<nat>, dataset: nat, node: nat)
    requires node < |stages|
  {
    exists k :: 0 < k < |stages[node].inputs| && ReadsTheDataset(stages, injected, dataset, stages[node].inputs[k])
  }

  // The stages that stand in the way of scoring by position.
  method FindBlocking(stages: seq<Stage>, injected: set<nat>, dataset: Option<nat>, target: nat)
    returns (blocking: set<nat>)
    requires ReadEarlier(stages) && target < |stages|
    ensures forall node: nat :: node in blocking <==>
      && IsExecuted(stages, injected, target, node) && node < |stages|
      && (!stages[node].preserving || (dataset.Some? && IsOffSpine(stages, injected, dataset.value, node)))
    ensures dataset.Some? ==> (blocking == {} <==> IsClear(stages, injected, dataset.value, target))
  {
    var frontier := ListExecutedFrontier(stages, injected, target);
    blocking := {};
    for i := 0 to |frontier|
      invariant forall node: nat :: node in blocking <==>
        && node in frontier[..i] && node < |stages|
        && (!stages[node].preserving || (dataset.Some? && IsOffSpine(stages, injected, dataset.value, node)))
    {
      var node := frontier[i];
      assert node in frontier && frontier[..i + 1] == frontier[..i] + [node];
      ExecutedIsAStage(stages, injected, target, node);
      var off := dataset.Some? && ReadsOffSpine(stages, injected, dataset.value, node);
      if !stages[node].preserving || off {
        blocking := blocking + {node};
      }
    }
    assert frontier[..|frontier|] == frontier;
  }

  predicate ReadsOffSpine(stages: seq<Stage>, injected: set<nat>, dataset: nat, node: nat): (r: bool)
    requires node < |stages|
    ensures r <==> IsOffSpine(stages, injected, dataset, node)
  {
    exists k | 0 < k < |stages[node].inputs| :: ReadsTheDataset(stages, injected, dataset, stages[node].inputs[k])
  }

  lemma {:induction false} ExecutedIsAStage(stages: seq<Stage>, injected: set<nat>, target: nat, node: nat)
    requires IsExecuted(stages, injected, target, node)
    ensures node < |stages|
  {
    var path :| IsPath(stages, injected, path) && path[0] == target && path[|path| - 1] == node;
  }

  // ---------------------------------------------------------------- what the answer is worth

  // The handler of a stage that keeps the grain: a row for each row of `inputs[0]`, which depends on
  // that row and on the whole of the other inputs.
  ghost predicate KeepsGrain(s: Stage) {
    s.preserving && s.inputs != [] ==>
      forall a, b: seq<Rows> :: |a| == |s.inputs| && |b| == |a| && a[1..] == b[1..] && |a[0]| == |b[0]| ==>
        RowsMatch(a[0], b[0], s.handler(a), s.handler(b))
  }

  // Of as many rows as the inputs, and the same wherever they are.
  ghost predicate RowsMatch(a: Rows, b: Rows, x: Rows, y: Rows) {
    |x| == |a| && |y| == |b| && forall i ::
      0 <= i < |a| && i < |b| && i < |x| && i < |y| && a[i] == b[i] ==> x[i] == y[i]
  }

  // A subset run: an injected stage is its table, any other runs on what it reads.
  function Output(stages: seq<Stage>, tables: map<nat, Rows>, node: nat): Rows
    requires ReadEarlier(stages) && node < |stages|
    decreases node, 0
  {
    if node in tables then tables[node]
    else stages[node].handler(Inputs(stages, tables, node))
  }

  function Inputs(stages: seq<Stage>, tables: map<nat, Rows>, node: nat): (inputs: seq<Rows>)
    requires ReadEarlier(stages) && node < |stages|
    ensures |inputs| == |stages[node].inputs|
    decreases node, -1
  {
    assert ReadsBelow(stages[node].inputs, node);
    seq(|stages[node].inputs|, k requires 0 <= k < |stages[node].inputs| =>
      assert stages[node].inputs[k] in stages[node].inputs;
      Output(stages, tables, stages[node].inputs[k]))
  }

  // ---- the tables of two runs that differ in the dataset alone, and there row by row

  ghost predicate DifferInTheDataset(a: map<nat, Rows>, b: map<nat, Rows>, dataset: nat) {
    && a.Keys == b.Keys && dataset in a
    && |a[dataset]| == |b[dataset]|
    && forall node :: node in a && node != dataset ==> a[node] == b[node]
  }

  // A stage that does not read the dataset does not see the difference.
  lemma {:induction false} OthersAreUntouched(stages: seq<Stage>, a: map<nat, Rows>, b: map<nat, Rows>, dataset: nat,
                                              node: nat)
    requires ReadEarlier(stages) && node < |stages|
    requires a.Keys == b.Keys && forall other :: other in a && other != dataset ==> a[other] == b[other]
    requires !ReadsTheDataset(stages, a.Keys, dataset, node)
    ensures Output(stages, a, node) == Output(stages, b, node)
    decreases node
  {
    if node !in a {
      assert ReadsBelow(stages[node].inputs, node);
      var inputs, inputs' := Inputs(stages, a, node), Inputs(stages, b, node);
      forall k | 0 <= k < |inputs|
        ensures inputs[k] == inputs'[k]
      {
        assert stages[node].inputs[k] in stages[node].inputs;
        OthersAreUntouched(stages, a, b, dataset, stages[node].inputs[k]);
      }
      assert inputs == inputs';
    }
  }

  // What stands on the way is nothing: every stage that runs keeps the grain, and none reads the
  // dataset off its spine.
  ghost predicate IsClear(stages: seq<Stage>, injected: set<nat>, dataset: nat, target: nat) {
    forall node: nat :: node < |stages| && IsExecuted(stages, injected, target, node) ==>
      stages[node].preserving && !IsOffSpine(stages, injected, dataset, node)
  }

  // A stage that runs and reads the dataset reads it by its first input, and lines up with it.
  lemma {:induction false} RowsLineUp(stages: seq<Stage>, a: map<nat, Rows>, b: map<nat, Rows>, dataset: nat,
                                      target: nat, node: nat)
    requires ReadEarlier(stages) && node < |stages| && forall s :: s in stages ==> KeepsGrain(s)
    requires DifferInTheDataset(a, b, dataset) && IsClear(stages, a.Keys, dataset, target)
    requires Leads(stages, a.Keys, target, node) && ReadsTheDataset(stages, a.Keys, dataset, node)
    ensures RowsMatch(a[dataset], b[dataset], Output(stages, a, node), Output(stages, b, node))
    decreases node
  {
    if node !in a {
      assert IsExecuted(stages, a.Keys, target, node);
      assert ReadsBelow(stages[node].inputs, node);
      var s, inputs, inputs' := stages[node], Inputs(stages, a, node), Inputs(stages, b, node);
      forall k | 0 < k < |inputs|
        ensures inputs[k] == inputs'[k]
      {
        assert s.inputs[k] in s.inputs;
        OthersAreUntouched(stages, a, b, dataset, s.inputs[k]);
      }
      var k :| 0 <= k < |s.inputs| && s.inputs[k] < node && ReadsTheDataset(stages, a.Keys, dataset, s.inputs[k]);
      assert k == 0;
      assert s.inputs[0] in s.inputs && Runs(stages, a.Keys, node, s.inputs[0]);
      LeadsFurther(stages, a.Keys, target, node, s.inputs[0]);
      RowsLineUp(stages, a, b, dataset, target, s.inputs[0]);
      assert inputs[1..] == inputs'[1..];
      assert s in stages && KeepsGrain(s);
      assert RowsMatch(inputs[0], inputs'[0], s.handler(inputs), s.handler(inputs'));
      assert inputs[0] == Output(stages, a, s.inputs[0]) && inputs'[0] == Output(stages, b, s.inputs[0]);
    }
  }

  // Scoring by position: with nothing in the way and a target that reads the dataset, the target has a
  // row for each row of the dataset, and a change of dataset row j is seen in target row j alone.
  lemma {:induction false} ScoringByPositionIsSound(stages: seq<Stage>, tables: map<nat, Rows>, dataset: nat,
                                                    target: nat, j: nat, row: int)
    requires ReadEarlier(stages) && target < |stages| && dataset < |stages| && forall s :: s in stages ==> KeepsGrain(s)
    requires dataset in tables && j < |tables[dataset]|
    requires IsClear(stages, tables.Keys, dataset, target) && ReadsTheDataset(stages, tables.Keys, dataset, target)
    ensures var changed := tables[dataset := tables[dataset][j := row]];
      && |Output(stages, tables, target)| == |tables[dataset]| == |Output(stages, changed, target)|
      && forall i :: 0 <= i < |tables[dataset]| && i != j
          ==> Output(stages, changed, target)[i] == Output(stages, tables, target)[i]
  {
    var changed := tables[dataset := tables[dataset][j := row]];
    assert IsPath(stages, tables.Keys, [target]);
    assert changed.Keys == tables.Keys;
    RowsLineUp(stages, tables, changed, dataset, target, target);
    var x, y := Output(stages, tables, target), Output(stages, changed, target);
    assert forall i :: 0 <= i < |tables[dataset]| && i != j ==> tables[dataset][i] == changed[dataset][i];
  }

  ghost predicate IsFirstInput(stages: seq<Stage>, reader: nat, input: nat) {
    reader < |stages| && stages[reader].inputs != [] && stages[reader].inputs[0] == input
  }

  // Every way from the target to the dataset goes by first inputs.
  lemma {:induction false} EveryPathIsTheSpine(stages: seq<Stage>, injected: set<nat>, dataset: nat, path: seq<nat>)
    requires ReadEarlier(stages) && dataset < |stages| && IsPath(stages, injected, path) && path[|path| - 1] == dataset
    requires IsClear(stages, injected, dataset, path[0])
    ensures forall i, j :: 0 <= i < j < |path| && j == i + 1 ==> IsFirstInput(stages, path[i], path[j])
  {
    forall i, j | 0 <= i < j < |path| && j == i + 1
      ensures IsFirstInput(stages, path[i], path[j])
    {
      assert Runs(stages, injected, path[i], path[j]);
      PathsShorten(stages, injected, path, i);
      PathsShorten(stages, injected, path, j);
      assert path[..i + 1][0] == path[0] && path[..i + 1][i] == path[i];
      assert Leads(stages, injected, path[0], path[i]) && IsExecuted(stages, injected, path[0], path[i]);
      assert path[j..][0] == path[j] && path[j..][|path[j..]| - 1] == dataset;
      assert Leads(stages, injected, path[j], dataset);
      ReadingIsAPath(stages, injected, dataset, path[j]);
      var k :| 0 <= k < |stages[path[i]].inputs| && stages[path[i]].inputs[k] == path[j];
      assert !IsOffSpine(stages, injected, dataset, path[i]);
    }
  }

  // With nothing in the way, the counts agree whatever the dataset holds exactly when the target reads
  // it. The settings do not ask: a target that does not read the dataset is offered for scoring too.
  lemma {:induction false} CountsAgreeExactlyWhenRead(stages: seq<Stage>, tables: map<nat, Rows>, dataset: nat,
                                                      target: nat)
    requires ReadEarlier(stages) && target < |stages| && dataset < |stages| && forall s :: s in stages ==> KeepsGrain(s)
    requires dataset in tables && IsClear(stages, tables.Keys, dataset, target)
    ensures ReadsTheDataset(stages, tables.Keys, dataset, target)
       <==> forall rows: Rows :: |Output(stages, tables[dataset := rows], target)| == |rows|
  {
    if ReadsTheDataset(stages, tables.Keys, dataset, target) {
      assert IsPath(stages, tables.Keys, [target]);
      forall rows: Rows
        ensures |Output(stages, tables[dataset := rows], target)| == |rows|
      {
        var given := tables[dataset := rows];
        assert given.Keys == tables.Keys;
        RowsLineUp(stages, given, given, dataset, target, target);
      }
    } else {
      var none, one := tables[dataset := []], tables[dataset := [0]];
      assert none.Keys == tables.Keys == one.Keys;
      OthersAreUntouched(stages, none, one, dataset, target);
      assert |Output(stages, tables[dataset := []], target)| == |Output(stages, tables[dataset := [0]], target)|;
    }
  }

  // ---------------------------------------------------------------- which evals are offered

  // A stage the other one's output goes into, however far on, whatever is injected between.
  ghost predicate IsDescendant(stages: seq<Stage>, stage: nat, node: nat) {
    node < |stages| && node != stage && Leads(stages, {}, node, stage)
  }

  method FindDescendants(stages: seq<Stage>, stage: nat) returns (descendants: set<nat>)
    requires ReadEarlier(stages) && stage < |stages|
    ensures forall node :: node in descendants <==> IsDescendant(stages, stage, node)
  {
    descendants := {};
    var stack := [stage];
    while stack != []
      invariant IsClimbing(stages, stage, descendants, stack)
      decreases Unseen(stages, descendants), |stack|
    {
      var upstream := stack[|stack| - 1];
      assert stack == stack[..|stack| - 1] + [upstream];
      descendants, stack := PushReaders(stages, stage, descendants, stack[..|stack| - 1], upstream);
    }
    forall node | IsDescendant(stages, stage, node)
      ensures node in descendants
    {
      var path :| IsPath(stages, {}, path) && path[0] == node && path[|path| - 1] == stage;
      PathIsClimbed(stages, stage, descendants, path);
    }
  }

  // What was found goes up to the stage, and what is not waiting has had its readers found.
  ghost predicate IsClimbing(stages: seq<Stage>, stage: nat, descendants: set<nat>, stack: seq<nat>) {
    && (forall node :: node in descendants ==> IsDescendant(stages, stage, node))
    && (forall node :: node in stack ==> node == stage || node in descendants)
    && (forall node: nat, reader ::
          (node == stage || node in descendants) && node !in stack && IsReader(stages, node, reader)
          ==> reader in descendants)
  }

  predicate IsReader(stages: seq<Stage>, node: nat, reader: nat) {
    reader < |stages| && node in stages[reader].inputs
  }

  method PushReaders(stages: seq<Stage>, ghost stage: nat, descendants: set<nat>, stack: seq<nat>, upstream: nat)
    returns (more: set<nat>, waiting: seq<nat>)
    requires ReadEarlier(stages) && stage < |stages| && IsClimbing(stages, stage, descendants, stack + [upstream])
    ensures IsClimbing(stages, stage, more, waiting)
    ensures Unseen(stages, more) < Unseen(stages, descendants) || (more == descendants && waiting == stack)
  {
    more, waiting := descendants, stack;
    assert upstream in stack + [upstream];
    for reader := 0 to |stages|
      invariant IsPushing(stages, stage, descendants, stack, upstream, reader, more, waiting)
    {
      if upstream in stages[reader].inputs && reader !in more {
        ReadersDescend(stages, stage, upstream, reader);
        PushOne(stages, stage, descendants, stack, upstream, reader, more, waiting);
        more, waiting := more + {reader}, waiting + [reader];
      }
    }
    PushedAll(stages, stage, descendants, stack, upstream, more, waiting);
  }

  // The first `n` stages have been asked whether they read `upstream`.
  ghost predicate IsPushing(stages: seq<Stage>, stage: nat, descendants: set<nat>, stack: seq<nat>, upstream: nat,
                            n: nat, more: set<nat>, waiting: seq<nat>)
  {
    && descendants <= more && (more == descendants ==> waiting == stack)
    && (forall node :: node in more ==> IsDescendant(stages, stage, node))
    && (forall node :: node in waiting <==> node in stack || (node in more && node !in descendants))
    && (forall other :: 0 <= other < n && IsReader(stages, upstream, other) ==> other in more)
  }

  lemma {:induction false} PushOne(stages: seq<Stage>, stage: nat, descendants: set<nat>, stack: seq<nat>,
                                   upstream: nat, n: nat, more: set<nat>, waiting: seq<nat>)
    requires IsPushing(stages, stage, descendants, stack, upstream, n, more, waiting)
    requires n !in more && IsDescendant(stages, stage, n)
    ensures IsPushing(stages, stage, descendants, stack, upstream, n + 1, more + {n}, waiting + [n])
  {
    assert forall node :: node in waiting + [n] <==> node in waiting || node == n;
  }

  lemma {:induction false} PushedAll(stages: seq<Stage>, stage: nat, descendants: set<nat>, stack: seq<nat>,
                                     upstream: nat, more: set<nat>, waiting: seq<nat>)
    requires IsClimbing(stages, stage, descendants, stack + [upstream])
    requires IsPushing(stages, stage, descendants, stack, upstream, |stages|, more, waiting)
    ensures IsClimbing(stages, stage, more, waiting)
    ensures Unseen(stages, more) < Unseen(stages, descendants) || (more == descendants && waiting == stack)
  {
    assert forall node :: node in stack + [upstream] <==> node in stack || node == upstream;
    if more != descendants {
      var all := Numbers(|stages|);
      var node :| node in more && node !in descendants;
      assert IsDescendant(stages, stage, node) && node in all - descendants;
      assert all - more < all - descendants;
      SmallerSet(all - more, all - descendants);
    }
  }

  lemma {:induction false} ReadersDescend(stages: seq<Stage>, stage: nat, upstream: nat, reader: nat)
    requires ReadEarlier(stages) && stage < |stages| && (upstream == stage || IsDescendant(stages, stage, upstream))
    requires IsReader(stages, upstream, reader)
    ensures IsDescendant(stages, stage, reader)
  {
    if upstream == stage { assert IsPath(stages, {}, [stage]); }
    var path :| IsPath(stages, {}, path) && path[0] == upstream && path[|path| - 1] == stage;
    PathStarts(stages, {}, reader, path);
    PathsGoDown(stages, {}, [reader] + path);
    assert ([reader] + path)[|path|] == stage;
  }

  lemma {:induction false} PathStarts(stages: seq<Stage>, injected: set<nat>, reader: nat, path: seq<nat>)
    requires IsPath(stages, injected, path) && Runs(stages, injected, reader, path[0])
    ensures IsPath(stages, injected, [reader] + path)
  {
    var longer := [reader] + path;
    forall i, j | 0 <= i < j < |longer| && j == i + 1
      ensures Runs(stages, injected, longer[i], longer[j])
    {
      if i > 0 { assert Runs(stages, injected, path[i - 1], path[j - 1]); }
    }
  }

  lemma {:induction false} PathsGoDown(stages: seq<Stage>, injected: set<nat>, path: seq<nat>)
    requires ReadEarlier(stages) && IsPath(stages, injected, path) && |path| > 1
    ensures path[|path| - 1] < path[0]
  {
    assert Runs(stages, injected, path[0], path[1]);
    assert ReadsBelow(stages[path[0]].inputs, path[0]);
    if |path| > 2 {
      PathsShorten(stages, injected, path, 1);
      PathsGoDown(stages, injected, path[1..]);
    }
  }

  lemma {:induction false} PathIsClimbed(stages: seq<Stage>, stage: nat, descendants: set<nat>, path: seq<nat>)
    requires IsPath(stages, {}, path) && path[|path| - 1] == stage && IsClimbing(stages, stage, descendants, [])
    ensures path[0] == stage || path[0] in descendants
  {
    if |path| > 1 {
      assert Runs(stages, {}, path[0], path[1]);
      PathsShorten(stages, {}, path, 1);
      PathIsClimbed(stages, stage, descendants, path[1..]);
      assert IsReader(stages, path[1], path[0]);
    }
  }

  // Offered for scoring by position: the target comes after the override, is not injected itself, and
  // nothing blocks. Whether the override's rows still reach the target is not asked.
  ghost predicate IsOffered(stages: seq<Stage>, references: set<nat>, dataset: nat, target: nat) {
    && IsDescendant(stages, dataset, target)
    && target !in references
    && IsClear(stages, references + {dataset}, dataset, target)
  }

  method CheckCompatibility(stages: seq<Stage>, references: set<nat>, dataset: nat, target: nat) returns (offered: bool)
    requires ReadEarlier(stages) && dataset < |stages| && target < |stages|
    ensures offered <==> IsOffered(stages, references, dataset, target)
  {
    var descendants := FindDescendants(stages, dataset);
    if target !in descendants || target in references {
      return false;
    }
    var blocking := FindBlocking(stages, references + {dataset}, Some(dataset), target);
    return blocking == {};
  }

  // What is offered lines up with the dataset, whatever the dataset holds, exactly when some way from the
  // target to the dataset stage meets no reference override.
  lemma {:induction false} OfferedLinesUpExactlyWhenNotCutOff(stages: seq<Stage>, tables: map<nat, Rows>,
                                                              references: set<nat>, dataset: nat, target: nat)
    requires ReadEarlier(stages) && dataset < |stages| && forall s :: s in stages ==> KeepsGrain(s)
    requires tables.Keys == references + {dataset} && IsOffered(stages, references, dataset, target)
    ensures (forall rows: Rows :: |Output(stages, tables[dataset := rows], target)| == |rows|)
       <==> Leads(stages, references + {dataset}, target, dataset)
  {
    ReadingIsAPath(stages, tables.Keys, dataset, target);
    CountsAgreeExactlyWhenRead(stages, tables, dataset, target);
  }

  // The dataset, a stage with a reference table that reads it, and a target that reads that one.
  lemma {:induction false} ACutOffTargetIsOffered(handler: seq<Rows> -> Rows, reference: Rows)
    ensures var stages := [Stage([], true, handler), Stage([0], true, handler), Stage([1], true, handler)];
      && ReadEarlier(stages)
      && IsOffered(stages, {1}, 0, 2)
      && !Leads(stages, {1} + {0}, 2, 0)
      && Output(stages, map[0 := [], 1 := reference], 2) == Output(stages, map[0 := [7], 1 := reference], 2)
  {
    var stages := [Stage([], true, handler), Stage([0], true, handler), Stage([1], true, handler)];
    var injected := {1} + {0};
    forall i | 0 <= i < |stages|
      ensures ReadsBelow(stages[i].inputs, i)
    {
    }
    assert Runs(stages, {}, 2, 1) && Runs(stages, {}, 1, 0);
    assert IsPath(stages, {}, [2, 1, 0]);
    forall node: nat | node < |stages| && IsExecuted(stages, injected, 2, node)
      ensures stages[node].preserving && !IsOffSpine(stages, injected, 0, node)
    {
    }
    assert !ReadsTheDataset(stages, injected, 0, 1);
    assert !ReadsTheDataset(stages, injected, 0, 2);
    ReadingIsAPath(stages, injected, 0, 2);
    OthersAreUntouched(stages, map[0 := [], 1 := reference], map[0 := [7], 1 := reference], 0, 2);
  }
}
