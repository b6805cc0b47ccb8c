/** The rows a reported row came from, whatever each hop meant. */
module Scope {
  import opened Lineage
  import opened Sidecar
  import opened Trace
  import opened Wrappers

  // Two ways the code walks up a run's record, and how they stand to the trace.

  // A row of a stage's output. Row ordinals are never negative.
  type Ref = (nat, int)

  // Where one row came from: by its recorded parents, or by position where none are recorded. A load's
  // own edge names a file row, not a row of the frame.
  function OneHopUp(run: seq<Record>, ref: Ref): seq<Ref> {
    if ref.0 >= |run| then []
    else
      match LineageHops(run[ref.0], ref.1)
      case Some(hops) => Parents(ref.0, hops)
      case None => if |run[ref.0].inputs| == 1 then [(run[ref.0].inputs[0], ref.1)] else []
  }

  function Parents(stage: nat, hops: seq<RowParent>): (refs: seq<Ref>)
    ensures forall ref :: ref in refs ==> exists p :: p in hops && p.stage != stage && ref == (p.stage, p.row)
    ensures forall p :: p in hops && p.stage != stage ==> (p.stage, p.row) in refs
  {
    if hops == [] then []
    else
      assert hops[0] in hops;
      (if hops[0].stage != stage then [(hops[0].stage, hops[0].row)] else []) + Parents(stage, hops[1..])
  }

  // Every stage's record names earlier stages, and for a load itself.
  ghost predicate RecordsGoUp(run: seq<Record>) {
    forall s :: 0 <= s < |run| ==> RecordGoesUp(run[s], s)
  }

  ghost predicate RecordGoesUp(rec: Record, s: nat) {
    && (forall k :: 0 <= k < |rec.inputs| ==> rec.inputs[k] < s)
    && (rec.lineage.Some? ==> LineageGoesUp(rec.lineage.value, s))
  }

  ghost predicate LineageGoesUp(l: RowLineage, s: nat) {
    forall i :: 0 <= i < |l| ==> EntryGoesUp(l[i], s)
  }

  ghost predicate EntryGoesUp(hops: seq<RowParent>, s: nat) {
    forall p :: p in hops ==> p.stage <= s
  }

  lemma {:induction false} HopsGoUp(run: seq<Record>, ref: Ref, hop: Ref)
    requires RecordsGoUp(run) && hop in OneHopUp(run, ref)
    ensures hop.0 < ref.0
  {
    var rec := run[ref.0];
    assert RecordGoesUp(rec, ref.0);
    var hops := LineageHops(rec, ref.1);
    if hops.Some? {
      assert EntryGoesUp(rec.lineage.value[ref.1], ref.0);
    }
  }

  // ---------------------------------------------------------------- the closure

  // A row and all it came from, by hops.
  ghost predicate CameFrom(run: seq<Record>, path: seq<Ref>) {
    path != [] && forall i, j :: 0 <= i < j < |path| && j == i + 1 ==> path[j] in OneHopUp(run, path[i])
  }

  ghost predicate IsAbove(run: seq<Record>, from: Ref, to: Ref) {
    exists path :: CameFrom(run, path) && path[0] == from && path[|path| - 1] == to
  }

  // The same, gathered stage by stage up.
  ghost function Above(run: seq<Record>, ref: Ref): set<Ref>
    requires RecordsGoUp(run)
    decreases ref.0, 0, 0
  {
    assert forall hop :: hop in OneHopUp(run, ref) ==> hop.0 < ref.0 by {
      forall hop | hop in OneHopUp(run, ref)
        ensures hop.0 < ref.0
      {
        HopsGoUp(run, ref, hop);
      }
    }
    {ref} + AllAbove(run, ref.0, OneHopUp(run, ref))
  }

  ghost function AllAbove(run: seq<Record>, below: nat, refs: seq<Ref>): set<Ref>
    requires RecordsGoUp(run) && forall ref :: ref in refs ==> ref.0 < below
    decreases below, -1, |refs|
  {
    if refs == [] then {} else (assert refs[0] in refs; Above(run, refs[0])) + AllAbove(run, below, refs[1..])
  }

  lemma {:induction false} OneOfAllAbove(run: seq<Record>, below: nat, refs: seq<Ref>, to: Ref)
    requires RecordsGoUp(run) && forall ref :: ref in refs ==> ref.0 < below
    ensures to in AllAbove(run, below, refs) <==> exists ref :: ref in refs && to in Above(run, ref)
  {
    if refs != [] {
      assert refs[0] in refs;
      OneOfAllAbove(run, below, refs[1..], to);
      if to in AllAbove(run, below, refs[1..]) {
        var ref :| ref in refs[1..] && to in Above(run, ref);
        assert ref in refs;
      }
      if ref :| ref in refs && to in Above(run, ref) {
        assert ref == refs[0] || ref in refs[1..];
      }
    }
  }

  // One step of the closure.
  lemma {:induction false} AboveByOneHop(run: seq<Record>, ref: Ref, to: Ref)
    requires RecordsGoUp(run)
    ensures to in Above(run, ref) <==> to == ref || exists hop :: hop in OneHopUp(run, ref) && to in Above(run, hop)
  {
    forall hop | hop in OneHopUp(run, ref)
      ensures hop.0 < ref.0
    {
      HopsGoUp(run, ref, hop);
    }
    OneOfAllAbove(run, ref.0, OneHopUp(run, ref), to);
  }

  // Gathered or by paths, it is the same closure.
  lemma {:induction false} AboveIsTheClosure(run: seq<Record>, from: Ref, to: Ref)
    requires RecordsGoUp(run)
    ensures to in Above(run, from) <==> IsAbove(run, from, to)
  {
    if to in Above(run, from) { AboveHasAPath(run, from, to); }
    if IsAbove(run, from, to) {
      var path :| CameFrom(run, path) && path[0] == from && path[|path| - 1] == to;
      PathsLeadAbove(run, path);
    }
  }

  lemma {:induction false} AboveHasAPath(run: seq<Record>, from: Ref, to: Ref)
    requires RecordsGoUp(run) && to in Above(run, from)
    ensures IsAbove(run, from, to)
  {
    var path := PathTo(run, from, to);
    assert CameFrom(run, path) && path[0] == from && path[|path| - 1] == to;
  }

  lemma {:induction false} PathTo(run: seq<Record>, from: Ref, to: Ref) returns (path: seq<Ref>)
    requires RecordsGoUp(run) && to in Above(run, from)
    ensures CameFrom(run, path) && path[0] == from && path[|path| - 1] == to
    decreases from.0
  {
    AboveByOneHop(run, from, to);
    if to == from {
      path := [from];
    } else {
      var hop :| hop in OneHopUp(run, from) && to in Above(run, hop);
      HopsGoUp(run, from, hop);
      var rest := PathTo(run, hop, to);
      OneHopLonger(run, from, rest);
      path := [from] + rest;
    }
  }

  lemma {:induction false} PathsLeadAbove(run: seq<Record>, path: seq<Ref>)
    requires RecordsGoUp(run) && CameFrom(run, path)
    ensures path[|path| - 1] in Above(run, path[0])
    decreases |path|
  {
    AboveByOneHop(run, path[0], path[|path| - 1]);
    if |path| > 1 {
      assert path[1] in OneHopUp(run, path[0]);
      PathsLeadAbove(run, path[1..]);
      assert path[1..][0] == path[1] && path[1..][|path| - 2] == path[|path| - 1];
    }
  }

  lemma {:induction false} OneHopLonger(run: seq<Record>, from: Ref, path: seq<Ref>)
    requires CameFrom(run, path) && path[0] in OneHopUp(run, from)
    ensures CameFrom(run, [from] + path)
  {
    var longer := [from] + path;
    forall i, j | 0 <= i < j < |longer| && j == i + 1
      ensures longer[j] in OneHopUp(run, longer[i])
    {
      if i > 0 { assert path[j - 1] in OneHopUp(run, path[i - 1]); }
    }
  }

  ghost function AboveAny(run: seq<Record>, rows: seq<Ref>): set<Ref>
    requires RecordsGoUp(run)
  {
    if rows == [] then {} else Above(run, rows[0]) + AboveAny(run, rows[1..])
  }

  lemma {:induction false} OneOfAboveAny(run: seq<Record>, rows: seq<Ref>, to: Ref)
    requires RecordsGoUp(run)
    ensures to in AboveAny(run, rows) <==> exists row :: row in rows && to in Above(run, row)
  {
    if rows != [] {
      OneOfAboveAny(run, rows[1..], to);
      if to in AboveAny(run, rows[1..]) {
        var row :| row in rows[1..] && to in Above(run, row);
        assert row in rows;
      }
      if row :| row in rows && to in Above(run, row) {
        assert row == rows[0] || row in rows[1..];
      }
    }
  }

  // The closure of rows holds what its rows came from.
  lemma {:induction false} ClosureIsClosed(run: seq<Record>, rows: seq<Ref>, ref: Ref, hop: Ref)
    requires RecordsGoUp(run) && ref in AboveAny(run, rows) && hop in OneHopUp(run, ref)
    ensures hop in AboveAny(run, rows)
  {
    OneOfAboveAny(run, rows, ref);
    var row :| row in rows && ref in Above(run, row);
    AboveByOneHop(run, hop, hop);
    AboveByOneHop(run, ref, hop);
    AboveIsTransitive(run, row, ref, hop);
    OneOfAboveAny(run, rows, hop);
  }

  lemma {:induction false} AboveIsTransitive(run: seq<Record>, a: Ref, b: Ref, c: Ref)
    requires RecordsGoUp(run) && b in Above(run, a) && c in Above(run, b)
    ensures c in Above(run, a)
    decreases a.0
  {
    AboveByOneHop(run, a, b);
    AboveByOneHop(run, a, c);
    if b != a {
      var hop :| hop in OneHopUp(run, a) && b in Above(run, hop);
      HopsGoUp(run, a, hop);
      AboveIsTransitive(run, hop, b, c);
    }
  }

  // ---------------------------------------------------------------- the worklist

  // What was seen is found or waits, all of it in `room`, and a found row's hops have been seen.
  ghost predicate IsReaching(run: seq<Record>, rows: seq<Ref>, room: set<Ref>, found: set<Ref>, front: seq<Ref>,
                             seen: set<Ref>) {
    && (forall ref :: ref in seen <==> ref in found || ref in front)
    && seen <= room
    && (forall row :: row in rows ==> row in seen)
    && (forall ref :: ref in found ==> HopsAreIn(run, ref, seen))
  }

  ghost predicate HopsAreIn(run: seq<Record>, ref: Ref, refs: set<Ref>) {
    forall hop :: hop in OneHopUp(run, ref) ==> hop in refs
  }

  lemma {:induction false} HopsAreInScope(run: seq<Record>, rows: seq<Ref>, ref: Ref)
    requires RecordsGoUp(run) && ref in AboveAny(run, rows)
    ensures HopsAreIn(run, ref, AboveAny(run, rows))
  {
    forall hop | hop in OneHopUp(run, ref)
      ensures hop in AboveAny(run, rows)
    {
      ClosureIsClosed(run, rows, ref, hop);
    }
  }

  method ReachUpstream(run: seq<Record>, rows: seq<Ref>) returns (found: set<Ref>)
    requires RecordsGoUp(run)
    ensures found == AboveAny(run, rows)
  {
    found := {};
    var front := rows;
    var seen := set row | row in rows;
    RowsAreInScope(run, rows);
    ghost var room := AboveAny(run, rows);
    while front != []
      invariant room == AboveAny(run, rows)
      invariant IsReaching(run, rows, room, found, front, seen)
      decreases room - found, |front|
    {
      var ref := front[|front| - 1];
      ghost var before := front;
      ghost var so := found;
      front := front[..|front| - 1];
      assert before == front + [ref] && ref in before && ref in seen;
      HopsAreInScope(run, rows, ref);
      found := found + {ref};
      front, seen := PushHops(run, rows, room, ref, so, found, front, seen);
    }
    ClosedIsAll(run, rows, found);
  }

  lemma {:induction false} RowsAreInScope(run: seq<Record>, rows: seq<Ref>)
    requires RecordsGoUp(run)
    ensures forall row :: row in rows ==> row in AboveAny(run, rows)
  {
    forall row | row in rows
      ensures row in AboveAny(run, rows)
    {
      AboveByOneHop(run, row, row);
      OneOfAboveAny(run, rows, row);
    }
  }

  // A row that was found before adds nothing: its hops were seen then.
  method PushHops(run: seq<Record>, ghost rows: seq<Ref>, ghost room: set<Ref>, ref: Ref, ghost so: set<Ref>,
                  ghost found: set<Ref>, front: seq<Ref>, seen: set<Ref>) returns (more: seq<Ref>, seen': set<Ref>)
    requires found == so + {ref} && IsReaching(run, rows, room, so, front + [ref], seen) && HopsAreIn(run, ref, room)
    ensures IsReaching(run, rows, room, found, more, seen')
    ensures ref in so ==> more == front
  {
    more, seen' := front, seen;
    var hops := OneHopUp(run, ref);
    for i := 0 to |hops|
      invariant IsPushing(seen, room, found, front, hops[..i], seen', more)
      invariant ref in so ==> more == front && seen' == seen
    {
      var step := hops[i];
      assert step in hops && step in room;
      assert ref in so ==> step in seen by {
        if ref in so { assert HopsAreIn(run, ref, seen); }
      }
      PushOne(seen, room, found, front, hops, i, seen', more);
      if step !in seen' {
        seen' := seen' + {step};
        more := more + [step];
      }
    }
    assert hops[..|hops|] == hops;
    PushedAll(run, rows, room, so, found, ref, front, seen, more, seen');
  }

  // With `pushed` looked at: all of them are seen, and what is newly seen waits in front.
  ghost predicate IsPushing(seen: set<Ref>, room: set<Ref>, found: set<Ref>, front: seq<Ref>, pushed: seq<Ref>,
                            seen': set<Ref>, more: seq<Ref>)
  {
    && seen <= seen' <= room
    && (forall ref :: ref in pushed ==> ref in seen')
    && (forall ref :: ref in more <==> ref in front || (ref in seen' && ref !in seen))
  }

  lemma {:induction false} PushOne(seen: set<Ref>, room: set<Ref>, found: set<Ref>, front: seq<Ref>, hops: seq<Ref>,
                                   i: nat, seen': set<Ref>, more: seq<Ref>)
    requires i < |hops| && hops[i] in room && IsPushing(seen, room, found, front, hops[..i], seen', more)
    ensures hops[i] in seen' ==> IsPushing(seen, room, found, front, hops[..i + 1], seen', more)
    ensures hops[i] !in seen'
        ==> IsPushing(seen, room, found, front, hops[..i + 1], seen' + {hops[i]}, more + [hops[i]])
  {
    assert hops[..i + 1] == hops[..i] + [hops[i]];
    assert forall ref :: ref in more + [hops[i]] <==> ref in more || ref == hops[i];
  }

  lemma {:induction false} PushedAll(run: seq<Record>, rows: seq<Ref>, room: set<Ref>, so: set<Ref>, found: set<Ref>,
                                     ref: Ref, front: seq<Ref>, seen: set<Ref>, more: seq<Ref>, seen': set<Ref>)
    requires found == so + {ref} && IsReaching(run, rows, room, so, front + [ref], seen)
    requires IsPushing(seen, room, found, front, OneHopUp(run, ref), seen', more)
    ensures IsReaching(run, rows, room, found, more, seen')
  {
    assert forall other :: other in front + [ref] <==> other in front || other == ref;
    forall other | other in found
      ensures HopsAreIn(run, other, seen')
    {
      if other in so { assert HopsAreIn(run, other, seen); }
    }
  }

  // What is closed under hops and holds the rows holds all they came from.
  lemma {:induction false} ClosedIsAll(run: seq<Record>, rows: seq<Ref>, found: set<Ref>)
    requires RecordsGoUp(run) && found <= AboveAny(run, rows)
    requires forall row :: row in rows ==> row in found
    requires forall ref :: ref in found ==> HopsAreIn(run, ref, found)
    ensures found == AboveAny(run, rows)
  {
    forall to | to in AboveAny(run, rows)
      ensures to in found
    {
      OneOfAboveAny(run, rows, to);
      var row :| row in rows && to in Above(run, row);
      ClosedHoldsAbove(run, row, to, found);
    }
  }

  lemma {:induction false} ClosedHoldsAbove(run: seq<Record>, ref: Ref, to: Ref, found: set<Ref>)
    requires RecordsGoUp(run) && ref in found && to in Above(run, ref)
    requires forall ref :: ref in found ==> HopsAreIn(run, ref, found)
    ensures to in found
    decreases ref.0
  {
    AboveByOneHop(run, ref, to);
    if to != ref {
      var hop :| hop in OneHopUp(run, ref) && to in Above(run, hop);
      assert HopsAreIn(run, ref, found);
      HopsGoUp(run, ref, hop);
      ClosedHoldsAbove(run, hop, to, found);
    }
  }

  // ---------------------------------------------------------------- the memo

  ghost function StagesOf(refs: set<Ref>): set<nat> {
    set ref | ref in refs :: ref.0
  }

  // Each row it holds is held with the stages that row came through.
  ghost predicate IsMemo(run: seq<Record>, memo: map<Ref, set<nat>>)
    requires RecordsGoUp(run)
  {
    forall ref :: ref in memo ==> memo[ref] == StagesOf(Above(run, ref))
  }

  // From any memo already filled, the stages one row came through.
  method CameThrough(run: seq<Record>, ref: Ref, memo: map<Ref, set<nat>>)
    returns (stages: set<nat>, filled: map<Ref, set<nat>>)
    requires RecordsGoUp(run) && IsMemo(run, memo)
    ensures stages == StagesOf(Above(run, ref))
    ensures IsMemo(run, filled) && ref in filled && forall other :: other in memo ==> other in filled
    decreases ref.0
  {
    if ref in memo {
      return memo[ref], memo;
    }
    filled := memo;
    stages := {ref.0};
    var hops := OneHopUp(run, ref);
    for i := 0 to |hops|
      invariant IsMemo(run, filled) && forall other :: other in memo ==> other in filled
      invariant stages == {ref.0} + StagesOf(AboveAny(run, hops[..i]))
    {
      var parent := hops[i];
      assert parent in hops;
      HopsGoUp(run, ref, parent);
      var above: set<nat>;
      above, filled := CameThrough(run, parent, filled);
      StagesOfOneMore(run, hops, i);
      stages := stages + above;
    }
    assert hops[..|hops|] == hops;
    StagesOfHops(run, ref);
    filled := filled[ref := stages];
  }

  lemma {:induction false} StagesOfOneMore(run: seq<Record>, hops: seq<Ref>, i: nat)
    requires RecordsGoUp(run) && i < |hops|
    ensures StagesOf(AboveAny(run, hops[..i + 1])) == StagesOf(AboveAny(run, hops[..i])) + StagesOf(Above(run, hops[i]))
  {
    assert hops[..i + 1] == hops[..i] + [hops[i]];
    forall to: Ref
      ensures to in AboveAny(run, hops[..i + 1]) <==> to in AboveAny(run, hops[..i]) || to in Above(run, hops[i])
    {
      OneOfAboveAny(run, hops[..i + 1], to);
      OneOfAboveAny(run, hops[..i], to);
    }
    assert AboveAny(run, hops[..i + 1]) == AboveAny(run, hops[..i]) + Above(run, hops[i]);
  }

  lemma {:induction false} StagesOfHops(run: seq<Record>, ref: Ref)
    requires RecordsGoUp(run)
    ensures StagesOf(Above(run, ref)) == {ref.0} + StagesOf(AboveAny(run, OneHopUp(run, ref)))
  {
    var hops := OneHopUp(run, ref);
    forall to: Ref
      ensures to in Above(run, ref) <==> to == ref || to in AboveAny(run, hops)
    {
      AboveByOneHop(run, ref, to);
      OneOfAboveAny(run, hops, to);
    }
    assert Above(run, ref) == {ref} + AboveAny(run, hops);
  }

  // ---------------------------------------------------------------- the trace stays inside

  // Where a turn of the trace goes is one hop up, by recorded parent and by position alike.
  lemma {:induction false} TurnsAreHops(disk: seq<Record>, lost: set<nat>, sid: nat, r: nat, pending: seq<Choice>)
    requires GoesUp(disk) && sid < |disk| && r < |disk[sid].table|
    ensures var t := TakeTurn(disk, lost, sid, r, pending);
      t.Turn? && t.hop.To? ==> (t.hop.stage, t.hop.row) in OneHopUp(disk, (sid, r))
  {
    var t := TakeTurn(disk, lost, sid, r, pending);
    var hops := LineageHops(disk[sid], r);
    assert TurnGoesUp(disk, sid, t);
    if t.Turn? && t.hop.To? && hops.Some? && FirstDirect(hops.value).None? {
      OnlyContributions(hops.value);
      var sampled := SampleFrom(InRowOrder(hops.value), pending);
      if sampled.Follow? && sampled.parent.Some? {
        assert sampled.parent.value in hops.value;
      }
    }
  }

  // Every row a trace stops at is among those the row came from, whichever rows it is told to sample.
  lemma {:induction false} TracesStayInScope(disk: seq<Record>, lost: set<nat>, sid: nat, r: int, follow: seq<Choice>,
                                             i: nat)
    requires GoesUp(disk) && RecordsGoUp(disk) && sid < |disk|
    requires Walk(disk, lost, sid, r, follow).Traced? && i < |Walk(disk, lost, sid, r, follow).steps|
    ensures Walk(disk, lost, sid, r, follow).steps[i] in Above(disk, (sid, r))
    decreases sid
  {
    AboveByOneHop(disk, (sid, r), (sid, r));
    if i > 0 {
      var t := TakeTurn(disk, lost, sid, r, follow);
      assert TurnGoesUp(disk, sid, t);
      TurnsAreHops(disk, lost, sid, r, follow);
      TracesStayInScope(disk, lost, t.hop.stage, t.hop.row, t.pending, i - 1);
      var step := Walk(disk, lost, sid, r, follow).steps[i];
      AboveByOneHop(disk, (sid, r), step);
    }
  }

  // ---------------------------------------------------------------- every run's record goes up

  ghost predicate Names(hops: seq<RowParent>, stage: nat, inputs: seq<nat>) {
    forall p :: p in hops ==> p.stage == stage || p.stage in inputs
  }

  ghost predicate LineageNames(l: RowLineage, stage: nat, inputs: seq<nat>) {
    forall i :: 0 <= i < |l| ==> Names(l[i], stage, inputs)
  }

  lemma {:induction false} MergedNames(inputs: seq<nat>, ordinals: seq<Option<nat>>, stage: nat, all: seq<nat>)
    requires forall input :: input in inputs ==> input in all
    ensures Names(MergedEntry(inputs, ordinals), stage, all)
  {
    if inputs != [] && ordinals != [] {
      assert inputs[0] in inputs;
      MergedNames(inputs[1..], ordinals[1..], stage, all);
    }
  }

  lemma {:induction false} GroupedNames(input: nat, group: seq<Contributor>, stage: nat, all: seq<nat>)
    requires input in all
    ensures Names(GroupedEntry(input, group), stage, all)
  {
    if group != [] { GroupedNames(input, group[1..], stage, all); }
  }

  lemma {:induction false} FilesName(stage: nat, files: seq<SourceFile>, all: seq<nat>)
    ensures LineageNames(FileLineage(stage, files), stage, all)
  {
    if files != [] { FilesName(stage, files[1..], all); }
  }

  lemma {:induction false} UnionNames(inputs: seq<nat>, counts: seq<nat>, first: nat, stage: nat, all: seq<nat>)
    requires |inputs| == |counts| && forall input :: input in inputs ==> input in all
    ensures LineageNames(Concatenated(inputs, counts, first), stage, all)
  {
    if inputs != [] {
      assert inputs[0] in inputs;
      UnionNames(inputs[1..], counts[1..], first, stage, all);
      var here, rest := seq(counts[0], i => [DirectParent(inputs[0], first + i)]),
          Concatenated(inputs[1..], counts[1..], first);
      forall i | 0 <= i < |here + rest|
        ensures Names((here + rest)[i], stage, all)
      {
        if i >= |here| {
          assert Names(rest[i - |here|], stage, all);
        } else {
          assert here[i] == [DirectParent(inputs[0], first + i)];
        }
      }
    }
  }

  lemma {:induction false} ShiftedNames(l: RowLineage, offset: nat, stage: nat, all: seq<nat>)
    requires LineageNames(l, stage, all)
    ensures LineageNames(Shifted(l, offset), stage, all)
  {
    forall i | 0 <= i < |Shifted(l, offset)|
      ensures Names(Shifted(l, offset)[i], stage, all)
    {
      assert Names(l[i], stage, all);
      if offset > 0 {
        forall p | p in Shifted(l, offset)[i]
          ensures p.stage == stage || p.stage in all
        {
          var k :| 0 <= k < |l[i]| && ShiftedEntry(l[i], offset)[k] == p;
          assert l[i][k] in l[i];
        }
      }
    }
  }

  lemma {:induction false} HandlersName(stage: nat, d: StageDef, inputs: seq<Rows>)
    requires |inputs| == |d.inputs|
    ensures Handle(stage, d, inputs).lineage.Some?
        ==> LineageNames(Handle(stage, d, inputs).lineage.value, stage, d.inputs)
  {
    match d.code
    case Load(files) => FilesName(stage, files, d.inputs);
    case Join(matches) =>
      var ms := matches(AllValues(inputs));
      forall i | 0 <= i < |ms| ensures Names(MergedEntry(d.inputs, ms[i].1), stage, d.inputs) {
        MergedNames(d.inputs, ms[i].1, stage, d.inputs);
      }
    case Aggregate(groups) =>
      if |inputs| == 1 {
        var gs := groups(Values(inputs[0]));
        forall i | 0 <= i < |gs| ensures Names(GroupedEntry(d.inputs[0], gs[i].1), stage, d.inputs) {
          GroupedNames(d.inputs[0], gs[i].1, stage, d.inputs);
        }
      }
    case _ =>
  }

  lemma {:induction false} StagesName(stage: nat, d: StageDef, earlier: seq<Record>)
    requires forall k :: 0 <= k < |d.inputs| ==> d.inputs[k] < |earlier|
    ensures RunStage(stage, d, earlier).lineage.Some?
        ==> LineageNames(RunStage(stage, d, earlier).lineage.value, stage, d.inputs)
  {
    var inputs := Windowed(earlier, d);
    var output := Handle(stage, d, inputs);
    HandlersName(stage, d, inputs);
    if output.lineage.Some? {
      ShiftedNames(output.lineage.value, d.window.start, stage, d.inputs);
    } else if d.code.Union? {
      UnionNames(d.inputs, Counts(inputs), d.window.start, stage, d.inputs);
    }
  }

  lemma {:induction false} NamedGoesUp(l: RowLineage, stage: nat, inputs: seq<nat>)
    requires LineageNames(l, stage, inputs) && forall input :: input in inputs ==> input < stage
    ensures LineageGoesUp(l, stage)
  {
    forall i | 0 <= i < |l|
      ensures EntryGoesUp(l[i], stage)
    {
      assert Names(l[i], stage, inputs);
    }
  }

  lemma {:induction false} RunsRecordUpward(stages: seq<StageDef>, n: nat)
    requires ValidPipeline(stages) && n <= |stages|
    ensures RecordsGoUp(RunUpTo(stages, n))
    decreases n, 1
  {
    if n == 0 {
      assert RunUpTo(stages, n) == [];
    } else {
      NewestRecordsUpward(stages, n);
    }
  }

  lemma {:induction false} NewestRecordsUpward(stages: seq<StageDef>, n: nat)
    requires ValidPipeline(stages) && 0 < n <= |stages|
    ensures RecordsGoUp(RunUpTo(stages, n))
    decreases n, 0
  {
    RunsRecordUpward(stages, n - 1);
    var d, earlier := stages[n - 1], RunUpTo(stages, n - 1);
    assert ReadsEarlier(d, n - 1);
    StageRecordsUpward(d, earlier);
    OneMoreGoesUp(earlier, RunStage(n - 1, d, earlier));
  }

  lemma {:induction false} OneMoreGoesUp(earlier: seq<Record>, rec: Record)
    requires RecordsGoUp(earlier) && RecordGoesUp(rec, |earlier|)
    ensures RecordsGoUp(earlier + [rec])
  {
  }

  lemma {:induction false} StageRecordsUpward(d: StageDef, earlier: seq<Record>)
    requires ReadsEarlier(d, |earlier|)
    ensures RecordGoesUp(RunStage(|earlier|, d, earlier), |earlier|)
  {
    var rec := RunStage(|earlier|, d, earlier);
    StagesName(|earlier|, d, earlier);
    if rec.lineage.Some? { NamedGoesUp(rec.lineage.value, |earlier|, d.inputs); }
    assert rec.inputs == d.inputs;
  }

  // Read back from disk too, with any outputs missing, a trace of any row of any run stays in that row's scope.
  lemma {:induction false} EveryTraceStaysInScope(stages: seq<StageDef>, lost: set<nat>, sid: nat, r: nat,
                                                  follow: seq<Choice>, i: nat)
    requires ValidPipeline(stages) && sid < |stages| && r < |RunAll(stages)[sid].table|
    ensures var disk := OnDisk(RunAll(stages));
      && GoesUp(disk) && RecordsGoUp(disk)
      && (TraceRow(disk, lost, sid, r, follow).Traced? && i < |TraceRow(disk, lost, sid, r, follow).steps| ==>
            TraceRow(disk, lost, sid, r, follow).steps[i] in Above(disk, (sid, r)))
  {
    var run := RunAll(stages);
    var disk := EveryRunIsFaithful(stages);
    RunsRecordUpward(stages, |stages|);
    forall s | 0 <= s < |disk|
      ensures RecordGoesUp(disk[s], s)
    {
      assert RecordGoesUp(run[s], s);
      ReadBackGoesUp(run[s].lineage, s);
    }
    var w := Walk(disk, lost, sid, r, follow);
    if w.Traced? && i < |w.steps| { TracesStayInScope(disk, lost, sid, r, follow, i); }
  }

  lemma {:induction false} ReadBackGoesUp(lineage: Option<RowLineage>, s: nat)
    requires lineage.Some? ==> LineageGoesUp(lineage.value, s)
    ensures ReadBack(lineage).Some? ==> LineageGoesUp(ReadBack(lineage).value, s)
  {
    ReadingUndoesWriting(lineage, None);
    if lineage.Some? {
      forall i | 0 <= i < |lineage.value|
        ensures EntryGoesUp(NormalEntry(lineage.value[i]), s)
      {
        var entry := lineage.value[i];
        assert EntryGoesUp(entry, s);
        forall p | p in NormalEntry(entry)
          ensures p.stage <= s
        {
          var k :| 0 <= k < |entry| && Normal(entry[k]) == p;
          assert entry[k] in entry;
        }
      }
    }
  }
}
