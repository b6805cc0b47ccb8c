/** Three algorithms over a stage list, which must agree: is the graph of reads acyclic? */
module Graph {
  import opened Wrappers

  // Cycle detection is a three-colour search, the dependency sort peels off layers, and the run order is a
  // depth-first post-order. An input that names no stage of the list is skipped by all three.

  type Id = nat

  // A stage list whose ids are unique: the ids in list order, and what each stage reads.
  datatype Stages = Stages(listed: seq<Id>, inputs: map<Id, seq<Id>>) {
    ghost predicate Valid() {
      Distinct(listed) && forall id :: id in inputs <==> id in listed
    }

    // `reader` and `source` are both stages of the list, and `reader` reads `source`.
    predicate Reads(reader: Id, source: Id) {
      reader in inputs && source in inputs && source in inputs[reader]
    }
  }

  ghost predicate Distinct(ids: seq<Id>) {
    forall i, j :: 0 <= i < j < |ids| ==> ids[i] != ids[j]
  }

  ghost predicate IsWalk(g: Stages, walk: seq<Id>) {
    forall i, j :: 0 <= i < j < |walk| && j == i + 1 ==> g.Reads(walk[i], walk[j])
  }

  ghost predicate IsCycle(g: Stages, walk: seq<Id>) {
    |walk| >= 2 && IsWalk(g, walk) && walk[0] == walk[|walk| - 1]
  }

  ghost predicate HasCycle(g: Stages) {
    exists walk :: IsCycle(g, walk)
  }

  // A walk that comes back to a stage it went through: from there on it is a cycle.
  ghost predicate EndsInACycle(g: Stages, walk: seq<Id>) {
    exists k :: 0 <= k < |walk| && IsCycle(g, walk[k..])
  }

  // Every stage once, and each after every listed stage it reads.
  ghost predicate IsDependencyOrder(g: Stages, order: seq<Id>) {
    && Distinct(order)
    && (forall id :: id in order <==> id in g.listed)
    && InputsComeFirst(g, order)
  }

  ghost predicate InputsComeFirst(g: Stages, order: seq<Id>) {
    forall i, input :: 0 <= i < |order| && g.Reads(order[i], input) ==> input in order[..i]
  }

  // ---------------------------------------------------------------- orders exclude cycles

  // Along a walk, positions in a dependency order only go down.
  lemma {:induction false} WalksGoDown(g: Stages, order: seq<Id>, walk: seq<Id>, i: nat)
    requires InputsComeFirst(g, order)
    requires IsWalk(g, walk) && |walk| >= 2
    requires i < |order| && order[i] == walk[0]
    ensures walk[|walk| - 1] in order[..i]
    decreases |walk|
  {
    assert g.Reads(walk[0], walk[1]);
    if |walk| > 2 {
      var j :| 0 <= j < i && order[j] == walk[1];
      WalksGoDown(g, order, walk[1..], j);
      assert forall id :: id in order[..j] ==> id in order[..i];
    }
  }

  lemma {:induction false} AnOrderMeansNoCycle(g: Stages, order: seq<Id>)
    requires g.Valid() && IsDependencyOrder(g, order)
    ensures !HasCycle(g)
  {
    forall walk | IsCycle(g, walk)
      ensures false
    {
      assert g.Reads(walk[0], walk[1]);
      var i :| 0 <= i < |order| && order[i] == walk[0];
      WalksGoDown(g, order, walk, i);
    }
  }

  // ---------------------------------------------------------------- being stuck means a cycle

  lemma {:induction false} ARepeatIsACycle(g: Stages, path: seq<Id>, next: Id)
    requires IsWalk(g, path + [next]) && next in path
    ensures EndsInACycle(g, path + [next]) && HasCycle(g)
  {
    var k :| 0 <= k < |path| && path[k] == next;
    var walk := path[k..] + [next];
    forall i, j | 0 <= i < j < |walk| && j == i + 1
      ensures g.Reads(walk[i], walk[j])
    {
      assert walk[i] == (path + [next])[k + i] && walk[j] == (path + [next])[k + j];
    }
    assert walk == (path + [next])[k..] && IsCycle(g, walk);
  }

  lemma {:induction false} DistinctFits(ids: seq<Id>, bound: set<Id>)
    requires Distinct(ids) && forall i :: 0 <= i < |ids| ==> ids[i] in bound
    ensures |ids| <= |bound|
  {
    if ids != [] {
      DistinctFits(ids[..|ids| - 1], bound - {ids[|ids| - 1]});
    }
  }

  lemma {:induction false} WalkOn(g: Stages, walk: seq<Id>, next: Id)
    requires walk != [] && IsWalk(g, walk) && g.Reads(walk[|walk| - 1], next)
    ensures IsWalk(g, walk + [next])
  {
  }

  lemma {:induction false} ReadingBackIsACycle(g: Stages, walk: seq<Id>, next: Id)
    requires walk != [] && IsWalk(g, walk) && g.Reads(walk[|walk| - 1], next) && next in walk
    ensures EndsInACycle(g, walk + [next]) && HasCycle(g)
  {
    WalkOn(g, walk, next);
    ARepeatIsACycle(g, walk, next);
  }

  ghost predicate ReadsOneOf(g: Stages, id: Id, sources: set<Id>) {
    exists next :: next in sources && g.Reads(id, next)
  }

  ghost predicate EachReadsOneOf(g: Stages, ids: set<Id>, sources: set<Id>) {
    forall id :: id in ids ==> ReadsOneOf(g, id, sources)
  }

  // A set of stages that each read one of the set: walk on until the walk repeats.
  lemma {:induction false} StuckMeansACycle(g: Stages, stuck: set<Id>, path: seq<Id>)
    requires EachReadsOneOf(g, stuck, stuck)
    requires path != [] && Distinct(path) && IsWalk(g, path)
    requires forall i :: 0 <= i < |path| ==> path[i] in stuck
    ensures HasCycle(g)
    decreases |stuck| - |path|
  {
    assert ReadsOneOf(g, path[|path| - 1], stuck);
    var next :| next in stuck && g.Reads(path[|path| - 1], next);
    WalkOn(g, path, next);
    if next in path {
      ARepeatIsACycle(g, path, next);
    } else {
      StillDistinct(path, next);
      DistinctFits(path + [next], stuck);
      StuckMeansACycle(g, stuck, path + [next]);
    }
  }

  lemma {:induction false} StillDistinct(path: seq<Id>, next: Id)
    requires Distinct(path) && next !in path
    ensures Distinct(path + [next])
  {
  }

  // ---------------------------------------------------------------- the layered sort

  predicate IsReady(g: Stages, id: Id, pending: seq<Id>)
    requires id in g.inputs
  {
    forall input :: input in g.inputs[id] ==> input !in pending
  }

  function Ready(g: Stages, candidates: seq<Id>, pending: seq<Id>): (r: seq<Id>)
    requires forall id :: id in candidates ==> id in g.inputs
    ensures forall id :: id in r <==> id in candidates && IsReady(g, id, pending)
    ensures Distinct(candidates) ==> Distinct(r)
  {
    if candidates == [] then []
    else
      var rest := Ready(g, candidates[1..], pending);
      if IsReady(g, candidates[0], pending) then [candidates[0]] + rest else rest
  }

  function Without(pending: seq<Id>, gone: seq<Id>): (r: seq<Id>)
    ensures forall id :: id in r <==> id in pending && id !in gone
    ensures Distinct(pending) ==> Distinct(r)
    ensures |r| <= |pending|
    ensures pending != [] && pending[0] in gone ==> |r| < |pending|
    ensures (exists id :: id in pending && id in gone) ==> |r| < |pending|
  {
    if pending == [] then []
    else
      var rest := Without(pending[1..], gone);
      if pending[0] in gone then rest else [pending[0]] + rest
  }

  // Some order exactly when there is no cycle; a cycle is refused.
  method SortStagesByDependency(g: Stages) returns (sorted: Option<seq<Id>>)
    requires g.Valid()
    ensures sorted.None? <==> HasCycle(g)
    ensures sorted.Some? ==> IsDependencyOrder(g, sorted.value)
  {
    var pending := g.listed;
    var ordered: seq<Id> := [];
    while pending != []
      invariant Distinct(pending) && Distinct(ordered)
      invariant forall id :: id in g.listed <==> id in pending || id in ordered
      invariant forall id :: id in pending ==> id !in ordered
      invariant InputsComeFirst(g, ordered)
      decreases |pending|
    {
      var ready := Ready(g, pending, pending);
      if ready == [] {
        NoneReadyMeansACycle(g, pending);
        return None;
      }
      LayerKeepsOrder(g, ordered, ready, pending);
      DistinctJoins(ordered, ready);
      assert ready[0] in pending && ready[0] in ready;
      ordered, pending := ordered + ready, Without(pending, ready);
    }
    AnOrderMeansNoCycle(g, ordered);
    return Some(ordered);
  }

  lemma {:induction false} DistinctJoins(a: seq<Id>, b: seq<Id>)
    requires Distinct(a) && Distinct(b) && forall id :: id in b ==> id !in a
    ensures Distinct(a + b)
  {
    forall i, j | 0 <= i < j < |a + b|
      ensures (a + b)[i] != (a + b)[j]
    {
      if i < |a| <= j { assert (a + b)[j] in b; }
    }
  }

  lemma {:induction false} NoneReadyMeansACycle(g: Stages, pending: seq<Id>)
    requires g.Valid() && pending != [] && forall id :: id in pending ==> id in g.listed
    requires Ready(g, pending, pending) == []
    ensures HasCycle(g)
  {
    var stuck := set id | id in pending;
    forall id | id in stuck
      ensures ReadsOneOf(g, id, stuck)
    {
      assert id !in Ready(g, pending, pending);
      var next :| next in g.inputs[id] && next in pending;
      assert g.Reads(id, next);
    }
    StuckMeansACycle(g, stuck, [pending[0]]);
  }

  lemma {:induction false} LayerKeepsOrder(g: Stages, ordered: seq<Id>, ready: seq<Id>, pending: seq<Id>)
    requires g.Valid() && InputsComeFirst(g, ordered)
    requires forall id :: id in ready ==> id in g.inputs && IsReady(g, id, pending)
    requires forall id :: id in g.listed ==> id in pending || id in ordered
    ensures InputsComeFirst(g, ordered + ready)
  {
    var longer := ordered + ready;
    forall i, input | 0 <= i < |longer| && g.Reads(longer[i], input)
      ensures input in longer[..i]
    {
      if i < |ordered| {
        assert longer[..i] == ordered[..i];
      } else {
        assert longer[i] in ready;
        assert longer[..i] == ordered + ready[..i - |ordered|];
      }
    }
  }

  // ---------------------------------------------------------------- the run order

  lemma {:induction false} AppendKeepsOrder(g: Stages, order: seq<Id>, id: Id)
    requires InputsComeFirst(g, order) && Distinct(order) && id !in order
    requires forall input :: g.Reads(id, input) ==> input in order
    ensures InputsComeFirst(g, order + [id]) && Distinct(order + [id])
  {
    var longer := order + [id];
    forall i, input | 0 <= i < |longer| && g.Reads(longer[i], input)
      ensures input in longer[..i]
    {
      assert longer[..i] == order[..i];
      assert order[..|order|] == order;
    }
  }

  class TopologicalSort {
    const g: Stages
    var visited: set<Id>
    var order: seq<Id>

    ghost predicate Valid()
      reads this
    {
      && g.Valid()
      && Distinct(order)
      && (forall id :: id in visited <==> id in order)
      && (forall id :: id in order ==> id in g.inputs)
      && InputsComeFirst(g, order)
    }

    constructor (g: Stages)
      requires g.Valid()
      ensures Valid() && this.g == g && order == []
    {
      this.g := g;
      visited, order := {}, [];
    }

    // Returns the closing walk where it meets a stage it is still visiting.
    method Visit(sid: Id, path: seq<Id>) returns (cycle: Option<seq<Id>>)
      requires Valid() && sid in g.inputs
      requires Distinct(path) && IsWalk(g, path + [sid])
      requires forall p :: p in path ==> p in g.inputs && p !in visited
      modifies this
      ensures Valid()
      ensures old(visited) <= visited
      ensures cycle.None? ==> sid in visited && forall p :: p in path ==> p !in visited
      ensures cycle.Some? ==> EndsInACycle(g, cycle.value)
      decreases |g.inputs| - |path|
    {
      if sid in visited {
        return None;
      }
      if sid in path {
        ARepeatIsACycle(g, path, sid);
        return Some(path + [sid]);
      }
      var here := path + [sid];
      DistinctFits(here, g.inputs.Keys);
      var inputs := g.inputs[sid];
      for k := 0 to |inputs|
        invariant Valid() && old(visited) <= visited
        invariant forall p :: p in here ==> p !in visited
        invariant forall i :: 0 <= i < k && inputs[i] in g.inputs ==> inputs[i] in visited
      {
        if inputs[k] in g.inputs {
          WalkOn(g, here, inputs[k]);
          cycle := Visit(inputs[k], here);
          if cycle.Some? {
            return;
          }
        }
      }
      assert sid in here;
      AppendKeepsOrder(g, order, sid);
      visited := visited + {sid};
      order := order + [sid];
      return None;
    }
  }

  // The order a run executes in: Some exactly when the stages form no cycle.
  method SortTopologically(g: Stages) returns (order: Option<seq<Id>>)
    requires g.Valid()
    ensures order.None? <==> HasCycle(g)
    ensures order.Some? ==> IsDependencyOrder(g, order.value)
  {
    var search := new TopologicalSort(g);
    for k := 0 to |g.listed|
      invariant search.Valid() && search.g == g && fresh(search)
      invariant forall i :: 0 <= i < k ==> g.listed[i] in search.visited
    {
      assert g.listed[k] in g.listed;
      var cycle := search.Visit(g.listed[k], []);
      if cycle.Some? {
        return None;
      }
    }
    AnOrderMeansNoCycle(g, search.order);
    return Some(search.order);
  }

  // ---------------------------------------------------------------- the three-colour search

  datatype Color = White | Gray | Black

  ghost predicate IsSearching(g: Stages, colored: set<Id>, finished: seq<Id>, found: Option<seq<Id>>) {
    && g.Valid()
    && Distinct(finished)
    && (forall id :: id in finished ==> id in g.inputs)
    && InputsComeFirst(g, finished)
    && colored == g.inputs.Keys
    && (found.Some? ==> EndsInACycle(g, found.value))
  }

  // Black is finished, gray is on the path being visited, white is the rest.
  ghost predicate AreColored(g: Stages, color: map<Id, Color>, finished: seq<Id>, path: seq<Id>) {
    && (forall id :: id in path ==> id in g.inputs && id !in finished)
    && (forall id :: id in color ==>
          color[id] == if id in finished then Black else if id in path then Gray else White)
  }

  ghost predicate AllIn(before: seq<Id>, finished: seq<Id>) {
    forall id :: id in before ==> id in finished
  }

  ghost predicate LookedAt(g: Stages, inputs: seq<Id>, n: nat, finished: seq<Id>) {
    forall i :: 0 <= i < n && i < |inputs| && inputs[i] in g.inputs ==> inputs[i] in finished
  }

  lemma {:induction false} StillLookedAt(g: Stages, inputs: seq<Id>, n: nat, before: seq<Id>, finished: seq<Id>)
    requires LookedAt(g, inputs, n, before) && AllIn(before, finished) && n < |inputs| && inputs[n] in finished
    ensures LookedAt(g, inputs, n + 1, finished)
  {
  }

  lemma {:induction false} ReadsAreFinished(g: Stages, node: Id, finished: seq<Id>)
    requires node in g.inputs && LookedAt(g, g.inputs[node], |g.inputs[node]|, finished)
    ensures forall input :: g.Reads(node, input) ==> input in finished
  {
  }

  class CycleDetector {
    const g: Stages
    var color: map<Id, Color>
    var found: Option<seq<Id>>
    ghost var finished: seq<Id>   // the black stages, in the order they turned black

    ghost predicate Valid()
      reads this
    {
      IsSearching(g, color.Keys, finished, found)
    }

    ghost predicate Colored(path: seq<Id>)
      reads this
    {
      AreColored(g, color, finished, path)
    }

    constructor (g: Stages)
      requires g.Valid()
      ensures Valid() && this.g == g && found == None && finished == [] && Colored([])
    {
      this.g := g;
      color := map id | id in g.inputs :: White;
      found := None;
      finished := [];
    }

    method Visit(node: Id, path: seq<Id>)
      requires Valid() && node in color && color[node] == White
      requires found.None? && Colored(path) && Distinct(path) && IsWalk(g, path + [node])
      modifies this
      ensures Valid()
      ensures found.None? ==> Colored(path) && node in finished && AllIn(old(finished), finished)
      decreases |g.inputs| - |path|, 1
    {
      Enter(node, path);
      var here := path + [node];
      DistinctFits(here, g.inputs.Keys);
      LookAtAll(g.inputs[node], here);
      if found.None? {
        ReadsAreFinished(g, node, finished);
        Blacken(node, path);
      }
    }

    // What the stage at the end of `here` reads, one after the other.
    method LookAtAll(inputs: seq<Id>, here: seq<Id>)
      requires Valid() && here != [] && here[|here| - 1] in g.inputs && inputs == g.inputs[here[|here| - 1]]
      requires found.None? && Colored(here) && Distinct(here) && IsWalk(g, here) && |here| <= |g.inputs|
      modifies this
      ensures Valid()
      ensures found.None? ==> Colored(here) && LookedAt(g, inputs, |inputs|, finished) && AllIn(old(finished), finished)
      decreases |g.inputs| - |here|, 3
    {
      for k := 0 to |inputs|
        invariant Valid() && found.None? && Colored(here) && AllIn(old(finished), finished)
        invariant LookedAt(g, inputs, k, finished)
      {
        if inputs[k] in color {
          ghost var before := finished;
          Look(inputs[k], here);
          if found.Some? {
            return;
          }
          StillLookedAt(g, inputs, k, before, finished);
        }
      }
    }

    method Enter(node: Id, ghost path: seq<Id>)
      requires Valid() && node in color && color[node] == White
      requires Colored(path) && Distinct(path)
      modifies this`color
      ensures Valid() && Colored(path + [node]) && Distinct(path + [node])
    {
      color := color[node := Gray];
      assert forall id :: id in path + [node] <==> id in path || id == node;
    }

    // The end of a visit: every stage `node` reads is finished, so it may be too.
    method Blacken(node: Id, ghost path: seq<Id>)
      requires Valid() && Colored(path + [node]) && node !in path
      requires forall input :: g.Reads(node, input) ==> input in finished
      modifies this
      ensures Valid() && Colored(path)
      ensures finished == old(finished) + [node] && found == old(found)
    {
      assert forall id :: id in path + [node] <==> id in path || id == node;
      AppendKeepsOrder(g, finished, node);
      color := color[node := Black];
      finished := finished + [node];
    }

    // One read of the stage at the end of `here`.
    method Look(next: Id, here: seq<Id>)
      requires Valid() && next in color && here != [] && g.Reads(here[|here| - 1], next)
      requires found.None? && Colored(here) && Distinct(here) && IsWalk(g, here)
      modifies this
      ensures Valid()
      ensures found.None? ==> Colored(here) && next in finished && AllIn(old(finished), finished)
      decreases |g.inputs| - |here|, 2
    {
      if color[next] == Gray {
        ReadingBackIsACycle(g, here, next);
        found := Some(here + [next]);
      } else if color[next] == White {
        WalkOn(g, here, next);
        Visit(next, here);
      }
    }
  }

  // A walk that ends in a cycle, or None exactly when the stages form none.
  method DetectCycle(g: Stages) returns (cycle: Option<seq<Id>>)
    requires g.Valid()
    ensures cycle.None? <==> !HasCycle(g)
    ensures cycle.Some? ==> EndsInACycle(g, cycle.value)
  {
    var search := new CycleDetector(g);
    for k := 0 to |g.listed|
      invariant search.Valid() && search.g == g && fresh(search)
      invariant search.found.None? ==> search.Colored([])
      invariant search.found.None? ==> forall i :: 0 <= i < k ==> g.listed[i] in search.finished
    {
      assert g.listed[k] in g.listed && g.listed[k] in g.inputs;
      if search.color[g.listed[k]] == White && search.found.None? {
        search.Visit(g.listed[k], []);
      }
    }
    if search.found.None? {
      AnOrderMeansNoCycle(g, search.finished);
    }
    return search.found;
  }
}
