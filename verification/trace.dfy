/** The walk from a row up to its source, off what the run directory holds. */
module Trace {
  import opened Wrappers
  import opened Lineage
  import opened Sidecar

  // By the recorded edge where one was recorded, by position where the stage type promises it, and by
  // sampling one contributor where many rows became one.

  // The run as a reader finds it: every stage's lineage written out and read back.
  function OnDisk(run: seq<Record>): (disk: seq<Record>)
    ensures |disk| == |run|
    ensures forall s :: 0 <= s < |run| ==> disk[s] == run[s].(lineage := ReadBack(run[s].lineage))
  {
    seq(|run|, i requires 0 <= i < |run| => run[i].(lineage := ReadBack(run[i].lineage)))
  }

  function ReadBack(lineage: Option<RowLineage>): Option<RowLineage> {
    ReadSidecar(WriteSidecar(lineage, None)).lineage
  }

  // Which row a caller wants followed where the rows of `stage` were summarized.
  datatype Choice = Choice(stage: nat, row: int)

  datatype End =
    | OutputMissing(stage: nat)
    | ReachedOrigin(stage: nat, row: int, source: Option<Origin>)
    | ParentNotInRun(stage: nat)
    | ParentRowOutOfRange(stage: nat)
    | RowCountDiffers(stage: nat)
    | SummarizesNothing(stage: nat)
    | NoInputEdge(stage: nat)
    | ReshapesRows(stage: nat)

  datatype Hop = To(stage: nat, row: int) | EndsHere(end: End)

  datatype Walked =
    | Traced(steps: seq<(nat, int)>, end: End, left: seq<Choice>)
    | RowOutOfRange
    | ContributorNotInFanIn

  function LineageHops(rec: Record, r: int): Option<seq<RowParent>> {
    if rec.lineage.None? || r < 0 || r >= |rec.lineage.value| then None else Some(rec.lineage.value[r])
  }

  function Contributions(hops: seq<RowParent>): seq<RowParent> {
    if hops == [] then []
    else (if hops[0].kind == Contribution then [hops[0]] else []) + Contributions(hops[1..])
  }

  predicate ComesBefore(a: RowParent, b: RowParent) {
    a.stage < b.stage || (a.stage == b.stage && a.row <= b.row)
  }

  function InsertInOrder(p: RowParent, sorted: seq<RowParent>): (r: seq<RowParent>)
    ensures forall q :: q in r <==> q == p || q in sorted
  {
    if sorted == [] || ComesBefore(p, sorted[0]) then [p] + sorted
    else [sorted[0]] + InsertInOrder(p, sorted[1..])
  }

  function InRowOrder(hops: seq<RowParent>): (r: seq<RowParent>)
    ensures forall q :: q in r <==> q in hops
  {
    if hops == [] then []
    else
      assert hops == hops[..|hops| - 1] + [hops[|hops| - 1]];
      InsertInOrder(hops[|hops| - 1], InRowOrder(hops[..|hops| - 1]))
  }

  // The contributions to choose among, lowest row first, where a row has no single parent to go on to.
  function FindFanIn(code: Code, hops: Option<seq<RowParent>>): Option<seq<RowParent>> {
    if code.Load? || hops.None? || FirstDirect(hops.value).Some? then None
    else Some(InRowOrder(Contributions(hops.value)))
  }

  datatype Sampled = Follow(parent: Option<RowParent>, pending: seq<Choice>) | NotInFanIn

  function FindNamed(fanIn: seq<RowParent>, c: Choice): (p: Option<RowParent>)
    ensures p.Some? ==> p.value in fanIn && p.value.stage == c.stage && p.value.row == c.row
    ensures p.None? ==> forall q :: q in fanIn ==> !(q.stage == c.stage && q.row == c.row)
  {
    if fanIn == [] then None
    else if fanIn[0].stage == c.stage && fanIn[0].row == c.row then Some(fanIn[0])
    else FindNamed(fanIn[1..], c)
  }

  // A pending choice for a stage that contributed decides; with none, the first contribution does.
  function SampleFrom(fanIn: seq<RowParent>, pending: seq<Choice>): Sampled {
    if fanIn == [] then Follow(None, pending)
    else if pending != [] && exists p :: p in fanIn && p.stage == pending[0].stage then
      match FindNamed(fanIn, pending[0])
      case Some(p) => Follow(Some(p), pending[1..])
      case None => NotInFanIn
    else Follow(Some(fanIn[0]), pending)
  }

  // `lost` are the stages whose output file is missing.
  function AdvanceViaLineage(disk: seq<Record>, lost: set<nat>, sid: nat, p: RowParent): Hop {
    if p.stage >= |disk| then EndsHere(ParentNotInRun(sid))
    else if p.stage in lost then EndsHere(OutputMissing(p.stage))
    else if p.row < 0 || p.row >= |disk[p.stage].table| then EndsHere(ParentRowOutOfRange(sid))
    else To(p.stage, p.row)
  }

  function AdvancePositionally(disk: seq<Record>, lost: set<nat>, sid: nat, parent: nat, r: int): Hop
    requires sid < |disk|
  {
    if parent >= |disk| then EndsHere(ParentNotInRun(sid))
    else if parent in lost then EndsHere(OutputMissing(parent))
    else if |disk[parent].table| != |disk[sid].table| then EndsHere(RowCountDiffers(sid))
    else To(parent, r)
  }

  function SourceOf(spine: Option<RowParent>): Option<Origin> {
    if spine.Some? && spine.value.file.Some? && spine.value.file.value != "" && spine.value.row >= 0
    then Some(Origin(spine.value.file.value, spine.value.row)) else None
  }

  function Advance(disk: seq<Record>, lost: set<nat>, sid: nat, r: int, hops: Option<seq<RowParent>>,
                   fanIn: Option<seq<RowParent>>, followed: Option<RowParent>): Hop
    requires sid < |disk|
  {
    var rec := disk[sid];
    var spine := if hops.Some? then FirstDirect(hops.value) else None;
    if rec.code.Load? then EndsHere(ReachedOrigin(sid, r, SourceOf(spine)))
    else if spine.Some? then AdvanceViaLineage(disk, lost, sid, spine.value)
    else if followed.Some? then AdvanceViaLineage(disk, lost, sid, followed.value)
    else if fanIn.Some? then EndsHere(SummarizesNothing(sid))
    else if rec.inputs == [] then EndsHere(NoInputEdge(sid))
    else if !IsRowPreserving(rec.code) || |rec.inputs| != 1 then EndsHere(ReshapesRows(sid))
    else AdvancePositionally(disk, lost, sid, rec.inputs[0], r)
  }

  // One turn of the walk: what to sample here, then where to go.
  datatype Turn = Turn(hop: Hop, pending: seq<Choice>) | Refused

  function TakeTurn(disk: seq<Record>, lost: set<nat>, sid: nat, r: int, pending: seq<Choice>): Turn
    requires sid < |disk|
  {
    var hops := LineageHops(disk[sid], r);
    match FindFanIn(disk[sid].code, hops)
    case None => Turn(Advance(disk, lost, sid, r, hops, None, None), pending)
    case Some(fanIn) =>
      match SampleFrom(fanIn, pending)
      case NotInFanIn => Refused
      case Follow(parent, rest) => Turn(Advance(disk, lost, sid, r, hops, Some(fanIn), parent), rest)
  }

  // Wherever the record sends the walk, it is to an earlier stage.
  ghost predicate GoesUp(disk: seq<Record>) {
    forall lost, s, r, pending :: 0 <= s < |disk| && 0 <= r < |disk[s].table| ==>
      TurnGoesUp(disk, s, TakeTurn(disk, lost, s, r, pending))
  }

  ghost predicate TurnGoesUp(disk: seq<Record>, s: nat, t: Turn) {
    t.Turn? && t.hop.To? ==> t.hop.stage < s && t.hop.stage < |disk|
  }

  ghost function Walk(disk: seq<Record>, lost: set<nat>, sid: nat, r: int, pending: seq<Choice>): Walked
    requires GoesUp(disk) && sid < |disk|
    decreases sid
  {
    if sid in lost then Traced([], OutputMissing(sid), pending)
    else if r < 0 || r >= |disk[sid].table| then RowOutOfRange
    else
      var t := TakeTurn(disk, lost, sid, r, pending);
      if t.Refused? then ContributorNotInFanIn
      else if t.hop.EndsHere? then Traced([(sid, r)], t.hop.end, t.pending)
      else
        assert TurnGoesUp(disk, sid, t);
        After([(sid, r)], Walk(disk, lost, t.hop.stage, t.hop.row, t.pending))
  }

  // A walk that `steps` led up to.
  function After(steps: seq<(nat, int)>, w: Walked): Walked {
    if w.Traced? then w.(steps := steps + w.steps) else w
  }

  lemma {:induction false} AfterJoins(a: seq<(nat, int)>, b: seq<(nat, int)>, w: Walked)
    ensures After(a + b, w) == After(a, After(b, w))
  {
    if w.Traced? { assert (a + b) + w.steps == a + (b + w.steps); }
  }

  // A choice the walk never met is the caller's error.
  ghost function TraceRow(disk: seq<Record>, lost: set<nat>, sid: nat, r: int, follow: seq<Choice>): Walked
    requires GoesUp(disk) && sid < |disk|
  {
    var w := Walk(disk, lost, sid, r, follow);
    if w.Traced? && w.left != [] then ContributorNotInFanIn else w
  }

  // ---------------------------------------------------------------- the walk itself

  // Reads of a run's directory, kept once made.
  class RunFrames {
    const disk: seq<Record>
    const lost: set<nat>
    var outputs: map<nat, Option<Rows>>
    var sidecars: map<nat, Option<RowLineage>>

    ghost predicate Valid()
      reads this
    {
      && (forall s :: s in outputs ==> s < |disk| && outputs[s] == if s in lost then None else Some(disk[s].table))
      && (forall s :: s in sidecars ==> s < |disk| && sidecars[s] == disk[s].lineage)
    }

    constructor (disk: seq<Record>, lost: set<nat>)
      ensures Valid() && this.disk == disk && this.lost == lost
    {
      this.disk, this.lost := disk, lost;
      outputs, sidecars := map[], map[];
    }

    method ReadOutput(s: nat) returns (rows: Option<Rows>)
      requires Valid() && s < |disk|
      modifies this
      ensures Valid() && rows == if s in lost then None else Some(disk[s].table)
    {
      if s !in outputs {
        outputs := outputs[s := if s in lost then None else Some(disk[s].table)];
      }
      return outputs[s];
    }

    method ReadHops(s: nat, r: int) returns (hops: Option<seq<RowParent>>)
      requires Valid() && s < |disk|
      modifies this
      ensures Valid() && hops == LineageHops(disk[s], r)
    {
      if s !in sidecars {
        sidecars := sidecars[s := disk[s].lineage];
      }
      var lineage := sidecars[s];
      if lineage.None? || r < 0 || r >= |lineage.value| {
        return None;
      }
      return Some(lineage.value[r]);
    }
  }

  method TurnAt(frames: RunFrames, sid: nat, r: int, pending: seq<Choice>) returns (t: Turn)
    requires frames.Valid() && sid < |frames.disk|
    modifies frames
    ensures frames.Valid() && t == TakeTurn(frames.disk, frames.lost, sid, r, pending)
  {
    var hops := frames.ReadHops(sid, r);
    var fanIn := FindFanIn(frames.disk[sid].code, hops);
    if fanIn.None? {
      return Turn(Advance(frames.disk, frames.lost, sid, r, hops, None, None), pending);
    }
    match SampleFrom(fanIn.value, pending) {
      case NotInFanIn => return Refused;
      case Follow(parent, rest) => return Turn(Advance(frames.disk, frames.lost, sid, r, hops, fanIn, parent), rest);
    }
  }

  method TraceRowFrom(frames: RunFrames, stage: nat, row: int, follow: seq<Choice>) returns (w: Walked)
    requires frames.Valid() && GoesUp(frames.disk) && stage < |frames.disk|
    modifies frames
    ensures w == TraceRow(frames.disk, frames.lost, stage, row, follow)
  {
    var sid: nat := stage;
    var r, pending := row, follow;
    var steps: seq<(nat, int)> := [];
    ghost var disk, lost := frames.disk, frames.lost;
    assert Walk(disk, lost, stage, row, follow) == After([], Walk(disk, lost, sid, r, pending));
    while true
      invariant frames.Valid() && sid < |frames.disk|
      invariant Walk(disk, lost, stage, row, follow) == After(steps, Walk(disk, lost, sid, r, pending))
      decreases sid
    {
      var table := frames.ReadOutput(sid);
      if table.None? {
        return if pending != [] then ContributorNotInFanIn else Traced(steps, OutputMissing(sid), []);
      }
      if r < 0 || r >= |table.value| {
        return RowOutOfRange;
      }
      var t := TurnAt(frames, sid, r, pending);
      if t.Refused? {
        return ContributorNotInFanIn;
      }
      assert TurnGoesUp(disk, sid, TakeTurn(disk, lost, sid, r, pending));
      if t.hop.EndsHere? {
        return if t.pending != [] then ContributorNotInFanIn else Traced(steps + [(sid, r)], t.hop.end, []);
      }
      AfterJoins(steps, [(sid, r)], Walk(disk, lost, t.hop.stage, t.hop.row, t.pending));
      steps := steps + [(sid, r)];
      sid, r, pending := t.hop.stage, t.hop.row, t.pending;
    }
  }

  // ---------------------------------------------------------------- reading back loses nothing the walk needs

  lemma {:induction false} NormalHops(run: seq<Record>, hops: seq<RowParent>)
    ensures FirstDirect(NormalEntry(hops)) ==
            (if FirstDirect(hops).Some? then Some(Normal(FirstDirect(hops).value)) else None)
    ensures AllOrigins(OnDisk(run), NormalEntry(hops)) == AllOrigins(run, hops)
    ensures HopOrigins(OnDisk(run), NormalEntry(hops)) == HopOrigins(run, hops)
  {
    NormalFirst(hops);
    NormalOrigins(run, hops);
  }

  lemma {:induction false} NormalFirst(hops: seq<RowParent>)
    ensures FirstDirect(NormalEntry(hops)) ==
            (if FirstDirect(hops).Some? then Some(Normal(FirstDirect(hops).value)) else None)
  {
    if hops != [] {
      NormalFirst(hops[1..]);
      assert NormalEntry(hops)[1..] == NormalEntry(hops[1..]);
    }
  }

  lemma {:induction false} NormalOrigins(run: seq<Record>, hops: seq<RowParent>)
    ensures AllOrigins(OnDisk(run), NormalEntry(hops)) == AllOrigins(run, hops)
  {
    if hops != [] {
      NormalOrigins(run, hops[1..]);
      assert NormalEntry(hops)[1..] == NormalEntry(hops[1..]);
    }
  }

  lemma {:induction false} ReadBackIsFaithful(run: seq<Record>, stage: nat)
    requires stage < |run| && RecordIsFaithful(run, stage)
    ensures RecordIsFaithful(OnDisk(run), stage)
  {
    forall r | 0 <= r < |run[stage].table|
      ensures EntryIsFaithful(OnDisk(run), stage, r)
    {
      assert EntryIsFaithful(run, stage, r);
      ReadBackEntryIsFaithful(run, stage, r);
    }
  }

  lemma {:induction false} ReadBackEntryIsFaithful(run: seq<Record>, stage: nat, r: nat)
    requires stage < |run| && r < |run[stage].table| && EntryIsFaithful(run, stage, r)
    ensures EntryIsFaithful(OnDisk(run), stage, r)
  {
    ReadingUndoesWriting(run[stage].lineage, None);
    match run[stage].lineage
    case None => assert OnDisk(run)[stage] == run[stage];
    case Some(l) =>
      assert OnDisk(run)[stage].lineage == Some(NormalLineage(l));
      assert NormalLineage(l)[r] == NormalEntry(l[r]);
      NormalHops(run, l[r]);
      if !run[stage].code.Load? {
        forall p | p in NormalEntry(l[r])
          ensures InRange(OnDisk(run), stage, p)
        {
          var k :| 0 <= k < |l[r]| && p == Normal(l[r][k]);
          assert InRange(run, stage, l[r][k]);
        }
      }
  }

  // ---------------------------------------------------------------- one turn of the walk

  lemma {:induction false} OnlyContributions(hops: seq<RowParent>)
    requires FirstDirect(hops).None?
    ensures Contributions(hops) == hops
  {
    if hops != [] { OnlyContributions(hops[1..]); }
  }

  lemma {:induction false} AHopStandsForSome(run: seq<Record>, hops: seq<RowParent>, p: RowParent)
    requires p in hops
    ensures OriginsAt(run, p) <= AllOrigins(run, hops)
  {
    if p != hops[0] { AHopStandsForSome(run, hops[1..], p); }
  }

  lemma {:induction false} SomeHopStandsFor(run: seq<Record>, hops: seq<RowParent>, o: Origin) returns (p: RowParent)
    requires o in AllOrigins(run, hops)
    ensures p in hops && o in OriginsAt(run, p)
  {
    if o in OriginsAt(run, hops[0]) {
      p := hops[0];
    } else {
      p := SomeHopStandsFor(run, hops[1..], o);
    }
  }

  ghost predicate LandsWithin(disk: seq<Record>, sid: nat, origins: set<Origin>, hop: Hop) {
    && hop.To? && hop.stage < sid && hop.stage < |disk| && 0 <= hop.row < |disk[hop.stage].table|
    && disk[hop.stage].table[hop.row].origins <= origins
  }

  // A turn lands on an existing row of an earlier stage that stands for no more than this row does,
  // or ends at the source row, or at a row nothing is recorded to have fed.
  ghost predicate TurnIsSound(disk: seq<Record>, lost: set<nat>, sid: nat, origins: set<Origin>, pending: seq<Choice>,
                              t: Turn) {
    && (t.Refused? ==> pending != [])
    && (t.Turn? && pending == [] ==> t.pending == [])
    && (t.Turn? && t.hop.To? ==> LandsWithin(disk, sid, origins, t.hop) && t.hop.stage !in lost)
    && (t.Turn? && t.hop.EndsHere? ==> EndIsSound(lost, origins, t.hop.end))
  }

  ghost predicate EndIsSound(lost: set<nat>, origins: set<Origin>, end: End) {
    match end
    case OutputMissing(s) => s in lost
    case ReachedOrigin(_, _, source) => source.Some? && source.value in origins
    case SummarizesNothing(_) => true
    case ReshapesRows(_) => true
    case NoInputEdge(_) => true
    case _ => false
  }

  lemma {:induction false} TurnsAreSound(disk: seq<Record>, lost: set<nat>, sid: nat, r: nat, pending: seq<Choice>)
    requires sid < |disk| && r < |disk[sid].table| && EntryIsFaithful(disk, sid, r)
    ensures TurnIsSound(disk, lost, sid, disk[sid].table[r].origins, pending, TakeTurn(disk, lost, sid, r, pending))
  {
    var hops := LineageHops(disk[sid], r);
    if !disk[sid].code.Load? && hops.Some? && FirstDirect(hops.value).None? {
      FanInTurnsAreSound(disk, lost, sid, r, pending, hops.value);
    } else {
      OtherTurnsAreSound(disk, lost, sid, r, pending);
    }
  }

  lemma {:induction false} FanInTurnsAreSound(disk: seq<Record>, lost: set<nat>, sid: nat, r: nat, pending: seq<Choice>,
                                              hops: seq<RowParent>)
    requires sid < |disk| && r < |disk[sid].table| && EntryIsFaithful(disk, sid, r)
    requires !disk[sid].code.Load? && LineageHops(disk[sid], r) == Some(hops) && FirstDirect(hops).None?
    ensures TurnIsSound(disk, lost, sid, disk[sid].table[r].origins, pending, TakeTurn(disk, lost, sid, r, pending))
  {
    OnlyContributions(hops);
    var sampled := SampleFrom(InRowOrder(hops), pending);
    if sampled.Follow? && sampled.parent.Some? {
      assert sampled.parent.value in hops;
      AHopStandsForSome(disk, hops, sampled.parent.value);
    }
  }

  lemma {:induction false} OtherTurnsAreSound(disk: seq<Record>, lost: set<nat>, sid: nat, r: nat, pending: seq<Choice>)
    requires sid < |disk| && r < |disk[sid].table| && EntryIsFaithful(disk, sid, r)
    requires FindFanIn(disk[sid].code, LineageHops(disk[sid], r)).None?
    ensures TurnIsSound(disk, lost, sid, disk[sid].table[r].origins, pending, TakeTurn(disk, lost, sid, r, pending))
  {
  }

  // Without aggregates and opaque reshapes a turn keeps exactly what the row stands for.
  lemma {:induction false} PlainTurnsAreExact(disk: seq<Record>, lost: set<nat>, sid: nat, r: nat, pending: seq<Choice>)
    requires sid < |disk| && r < |disk[sid].table| && EntryIsFaithful(disk, sid, r)
    requires HasASpine(disk, sid, r)
    ensures var t := TakeTurn(disk, lost, sid, r, pending); var origins := disk[sid].table[r].origins;
            && t.Turn? && t.pending == pending
            && match t.hop {
                 case To(s, k) => LandsWithin(disk, sid, origins, t.hop) && disk[s].table[k].origins == origins
                 case EndsHere(OutputMissing(s)) => s in lost
                 case EndsHere(end) => end.ReachedOrigin? && end.source.Some? && origins == {end.source.value}
               }
  {
  }

  // The row was read from a file, kept its place, or names a spine parent.
  ghost predicate HasASpine(disk: seq<Record>, sid: nat, r: nat)
    requires sid < |disk|
  {
    var hops := LineageHops(disk[sid], r);
    disk[sid].code.Load? || (disk[sid].code.MapRows? && hops.None?) || (hops.Some? && FirstDirect(hops.value).Some?)
  }

  lemma {:induction false} FaithfulGoesUp(disk: seq<Record>)
    requires forall s :: 0 <= s < |disk| ==> RecordIsFaithful(disk, s)
    ensures GoesUp(disk)
  {
    forall lost, s, r, pending | 0 <= s < |disk| && 0 <= r < |disk[s].table|
      ensures TurnGoesUp(disk, s, TakeTurn(disk, lost, s, r, pending))
    {
      assert RecordIsFaithful(disk, s);
      TurnsAreSound(disk, lost, s, r, pending);
    }
  }

  // ---------------------------------------------------------------- the whole walk

  ghost predicate StepsGoUp(steps: seq<(nat, int)>) {
    forall i, j :: 0 <= i < j < |steps| ==> steps[i].0 > steps[j].0
  }

  // What any walk from a row can come to.
  ghost predicate WalkIsSound(disk: seq<Record>, lost: set<nat>, sid: nat, r: int, follow: seq<Choice>, w: Walked)
    requires sid < |disk| && 0 <= r < |disk[sid].table|
  {
    match w
    case RowOutOfRange => false
    case ContributorNotInFanIn => follow != []
    case Traced(steps, end, left) =>
      && |steps| <= sid + 1 && (if sid in lost then steps == [] else steps != [] && steps[0] == (sid, r))
      && StepsGoUp(steps) && (forall i :: 0 <= i < |steps| ==> steps[i].0 !in lost)
      && (follow == [] ==> left == [])
      && EndIsSound(lost, disk[sid].table[r].origins, end)
  }

  lemma {:induction false} WalksAreSound(disk: seq<Record>, lost: set<nat>, sid: nat, r: nat, follow: seq<Choice>)
    requires GoesUp(disk) && sid < |disk| && r < |disk[sid].table|
    requires forall s :: 0 <= s < |disk| ==> RecordIsFaithful(disk, s)
    ensures WalkIsSound(disk, lost, sid, r, follow, Walk(disk, lost, sid, r, follow))
    decreases sid
  {
    assert RecordIsFaithful(disk, sid);
    TurnsAreSound(disk, lost, sid, r, follow);
    var t := TakeTurn(disk, lost, sid, r, follow);
    if sid !in lost && t.Turn? && t.hop.To? {
      WalksAreSound(disk, lost, t.hop.stage, t.hop.row, t.pending);
      SoundAfter(disk, lost, sid, r, follow, t, Walk(disk, lost, t.hop.stage, t.hop.row, t.pending));
    }
  }

  lemma {:induction false} SoundAfter(disk: seq<Record>, lost: set<nat>, sid: nat, r: nat, follow: seq<Choice>, t: Turn,
                                      w: Walked)
    requires sid < |disk| && r < |disk[sid].table| && sid !in lost
    requires TurnIsSound(disk, lost, sid, disk[sid].table[r].origins, follow, t) && t.Turn? && t.hop.To?
    requires WalkIsSound(disk, lost, t.hop.stage, t.hop.row, t.pending, w)
    ensures WalkIsSound(disk, lost, sid, r, follow, After([(sid, r)], w))
  {
    if w.Traced? {
      var steps := [(sid, r)] + w.steps;
      forall i, j | 0 <= i < j < |steps|
        ensures steps[i].0 > steps[j].0
      {
        if i == 0 && j > 1 { assert w.steps[0].0 > w.steps[j - 1].0; }
      }
    }
  }

  // Tracing any row of any run ends within one step per stage, never at an out-of-range or missing
  // parent, and where it reaches a source row it is one the traced row stands for.
  lemma {:induction false} TracesAreSound(stages: seq<StageDef>, lost: set<nat>, sid: nat, r: nat, follow: seq<Choice>)
    requires ValidPipeline(stages) && sid < |stages|
    requires r < |RunAll(stages)[sid].table|
    ensures GoesUp(OnDisk(RunAll(stages)))
    ensures WalkIsSound(OnDisk(RunAll(stages)), lost, sid, r, follow,
                        TraceRow(OnDisk(RunAll(stages)), lost, sid, r, follow))
  {
    var disk := EveryRunIsFaithful(stages);
    WalksAreSound(disk, lost, sid, r, follow);
  }

  lemma {:induction false} EveryRunIsFaithful(stages: seq<StageDef>) returns (disk: seq<Record>)
    requires ValidPipeline(stages)
    ensures disk == OnDisk(RunAll(stages)) && GoesUp(disk)
    ensures forall s :: 0 <= s < |disk| ==> RecordIsFaithful(disk, s)
  {
    disk := OnDisk(RunAll(stages));
    forall s | 0 <= s < |disk|
      ensures RecordIsFaithful(disk, s)
    {
      RunsAreFaithful(stages, |stages|, s);
      ReadBackIsFaithful(RunAll(stages), s);
    }
    FaithfulGoesUp(disk);
  }

  // ---------------------------------------------------------------- outputs that are missing

  // The steps of `full` up to the first stage whose output is missing, and nothing else.
  ghost predicate IsCutAt(lost: set<nat>, full: Walked, cut: Walked, n: nat) {
    && full.Traced? && cut.Traced? && n <= |full.steps|
    && cut.steps == full.steps[..n] && (forall i :: 0 <= i < n ==> full.steps[i].0 !in lost)
    && (n == |full.steps| ==> cut == full)
    && (n < |full.steps| ==> full.steps[n].0 in lost && cut.end == OutputMissing(full.steps[n].0))
  }

  lemma {:induction false} TurnsMeetTheMissing(disk: seq<Record>, lost: set<nat>, sid: nat, r: nat,
                                               pending: seq<Choice>)
    requires sid < |disk| && r < |disk[sid].table| && EntryIsFaithful(disk, sid, r)
    ensures var full, t := TakeTurn(disk, {}, sid, r, pending), TakeTurn(disk, lost, sid, r, pending);
      t == if full.Turn? && full.hop.To? && full.hop.stage in lost
           then full.(hop := EndsHere(OutputMissing(full.hop.stage))) else full
  {
    TurnsAreSound(disk, {}, sid, r, pending);
    TurnsAreSound(disk, lost, sid, r, pending);
  }

  // Missing outputs change nothing of a walk but where it is cut.
  lemma {:induction false} MissingOutputsCutTheWalk(disk: seq<Record>, lost: set<nat>, sid: nat, r: nat,
                                                    follow: seq<Choice>) returns (n: nat)
    requires GoesUp(disk) && sid < |disk| && r < |disk[sid].table|
    requires forall s :: 0 <= s < |disk| ==> RecordIsFaithful(disk, s)
    requires Walk(disk, {}, sid, r, follow).Traced?
    ensures IsCutAt(lost, Walk(disk, {}, sid, r, follow), Walk(disk, lost, sid, r, follow), n)
    decreases sid
  {
    assert RecordIsFaithful(disk, sid);
    WalksAreSound(disk, {}, sid, r, follow);
    if sid in lost {
      n := 0;
    } else {
      TurnsMeetTheMissing(disk, lost, sid, r, follow);
      TurnsAreSound(disk, {}, sid, r, follow);
      var t := TakeTurn(disk, {}, sid, r, follow);
      n := 1;
      if t.hop.To? {
        var full := Walk(disk, {}, t.hop.stage, t.hop.row, t.pending);
        WalksAreSound(disk, {}, t.hop.stage, t.hop.row, t.pending);
        if t.hop.stage !in lost {
          var k := MissingOutputsCutTheWalk(disk, lost, t.hop.stage, t.hop.row, t.pending);
          CutAfter(lost, (sid, r as int), full, Walk(disk, lost, t.hop.stage, t.hop.row, t.pending), k);
          n := k + 1;
        }
      }
    }
  }

  lemma {:induction false} CutAfter(lost: set<nat>, step: (nat, int), full: Walked, cut: Walked, k: nat)
    requires IsCutAt(lost, full, cut, k) && step.0 !in lost
    ensures IsCutAt(lost, After([step], full), After([step], cut), k + 1)
  {
    var steps := [step] + full.steps;
    assert steps[..k + 1] == [step] + full.steps[..k];
    forall i | 0 <= i < k + 1
      ensures steps[i].0 !in lost
    {
      if i > 0 { assert steps[i] == full.steps[i - 1]; }
    }
  }

  // Of every run: what a trace finds with outputs missing is what it finds with all of them, up to the first
  // stage that lost its own.
  lemma {:induction false} MissingOutputsOnlyCutTraces(stages: seq<StageDef>, lost: set<nat>, sid: nat, r: nat)
    returns (n: nat)
    requires ValidPipeline(stages) && sid < |stages|
    requires r < |RunAll(stages)[sid].table|
    ensures var disk := OnDisk(RunAll(stages));
      GoesUp(disk) && IsCutAt(lost, TraceRow(disk, {}, sid, r, []), TraceRow(disk, lost, sid, r, []), n)
  {
    var disk := EveryRunIsFaithful(stages);
    WalksAreSound(disk, {}, sid, r, []);
    WalksAreSound(disk, lost, sid, r, []);
    n := MissingOutputsCutTheWalk(disk, lost, sid, r, []);
  }

  // Every source row a row stands for can be reached by naming the right rows to sample.
  lemma {:induction false} EverySourceIsReached(disk: seq<Record>, sid: nat, r: nat, o: Origin)
    returns (follow: seq<Choice>)
    requires GoesUp(disk) && sid < |disk| && r < |disk[sid].table|
    requires forall s :: 0 <= s < |disk| ==> RecordIsFaithful(disk, s)
    requires o in disk[sid].table[r].origins
    ensures ReachesSource(TraceRow(disk, {}, sid, r, follow), o)
    decreases sid
  {
    assert RecordIsFaithful(disk, sid);
    if HasASpine(disk, sid, r) {
      PlainTurnsAreExact(disk, {}, sid, r, []);
      var hop := TakeTurn(disk, {}, sid, r, []).hop;
      follow := [];
      if hop.To? { follow := EverySourceIsReached(disk, hop.stage, hop.row, o); }
      PlainTurnsAreExact(disk, {}, sid, r, follow);
      HopIgnoresFollow(disk, sid, r, follow);
    } else {
      var p := FanInHolds(disk, sid, r, o);
      var rest := EverySourceIsReached(disk, p.stage, p.row, o);
      follow := [p] + rest;
      NamedTurn(disk, sid, r, p, rest);
    }
  }

  ghost predicate ReachesSource(w: Walked, o: Origin) {
    w.Traced? && w.end.ReachedOrigin? && w.end.source == Some(o)
  }

  lemma {:induction false} HopIgnoresFollow(disk: seq<Record>, sid: nat, r: nat, follow: seq<Choice>)
    requires sid < |disk| && r < |disk[sid].table| && HasASpine(disk, sid, r)
    ensures TakeTurn(disk, {}, sid, r, follow) == Turn(TakeTurn(disk, {}, sid, r, []).hop, follow)
  {
  }

  // Where many rows became one, some contributor stands for each source row this row stands for.
  lemma {:induction false} FanInHolds(disk: seq<Record>, sid: nat, r: nat, o: Origin) returns (c: Choice)
    requires sid < |disk| && r < |disk[sid].table| && EntryIsFaithful(disk, sid, r) && !HasASpine(disk, sid, r)
    requires o in disk[sid].table[r].origins
    ensures c.stage < sid && c.stage < |disk| && 0 <= c.row < |disk[c.stage].table|
    ensures o in disk[c.stage].table[c.row].origins
    ensures IsContributor(disk, sid, r, c)
  {
    var hops := LineageHops(disk[sid], r).value;
    OnlyContributions(hops);
    var p := SomeHopStandsFor(disk, hops, o);
    assert InRange(disk, sid, p);
    c := Choice(p.stage, p.row);
    assert p in InRowOrder(Contributions(hops));
  }

  ghost predicate IsContributor(disk: seq<Record>, sid: nat, r: nat, c: Choice)
    requires sid < |disk|
  {
    var fanIn := FindFanIn(disk[sid].code, LineageHops(disk[sid], r));
    fanIn.Some? && exists p :: p in fanIn.value && p.stage == c.stage && p.row == c.row
  }

  lemma {:induction false} NamedTurn(disk: seq<Record>, sid: nat, r: nat, c: Choice, rest: seq<Choice>)
    requires sid < |disk| && r < |disk[sid].table| && IsContributor(disk, sid, r, c)
    requires c.stage < |disk| && 0 <= c.row < |disk[c.stage].table|
    ensures TakeTurn(disk, {}, sid, r, [c] + rest) == Turn(To(c.stage, c.row), rest)
  {
    var fanIn := FindFanIn(disk[sid].code, LineageHops(disk[sid], r)).value;
    var p :| p in fanIn && p.stage == c.stage && p.row == c.row;
    assert ([c] + rest)[1..] == rest;
    assert FindNamed(fanIn, c).Some?;
  }

  lemma {:induction false} EveryTaggedSourceIsReached(stages: seq<StageDef>, sid: nat, r: nat, o: Origin)
    returns (follow: seq<Choice>)
    requires ValidPipeline(stages) && sid < |stages|
    requires r < |RunAll(stages)[sid].table| && o in RunAll(stages)[sid].table[r].origins
    ensures GoesUp(OnDisk(RunAll(stages)))
    ensures ReachesSource(TraceRow(OnDisk(RunAll(stages)), {}, sid, r, follow), o)
  {
    var disk := EveryRunIsFaithful(stages);
    follow := EverySourceIsReached(disk, sid, r, o);
  }

  // Every stage a walk stops at is a load, a row-by-row stage, a filter, a union or a join.
  ghost predicate StopsAtCarriers(disk: seq<Record>, w: Walked) {
    w.Traced? && forall i :: 0 <= i < |w.steps| ==> w.steps[i].0 < |disk| && CarriesRows(disk[w.steps[i].0].code)
  }

  // On such a walk, whatever the windows, the row stands for exactly one source row and the walk ends there.
  lemma {:induction false} CarriedRowsAreTracedExactly(disk: seq<Record>, sid: nat, r: nat) returns (o: Origin)
    requires GoesUp(disk) && sid < |disk| && r < |disk[sid].table|
    requires forall s :: 0 <= s < |disk| ==> RecordIsFaithful(disk, s)
    requires StopsAtCarriers(disk, Walk(disk, {}, sid, r, []))
    ensures disk[sid].table[r].origins == {o}
    ensures ReachesSource(Walk(disk, {}, sid, r, []), o)
    decreases sid
  {
    var w := Walk(disk, {}, sid, r, []);
    WalksAreSound(disk, {}, sid, r, []);
    assert w.steps[0] == (sid, r);
    assert RecordIsFaithful(disk, sid);
    assert EntryIsFaithful(disk, sid, r);
    PlainTurnsAreExact(disk, {}, sid, r, []);
    var hop := TakeTurn(disk, {}, sid, r, []).hop;
    match hop {
      case EndsHere(end) => o := end.source.value;
      case To(s, k) =>
        var rest := Walk(disk, {}, s, k, []);
        CarriersFurtherUp(disk, (sid, r as int), rest);
        o := CarriedRowsAreTracedExactly(disk, s, k);
    }
  }

  lemma {:induction false} CarriersFurtherUp(disk: seq<Record>, step: (nat, int), rest: Walked)
    requires StopsAtCarriers(disk, After([step], rest))
    ensures StopsAtCarriers(disk, rest)
  {
    var steps := [step] + rest.steps;
    forall i | 0 <= i < |rest.steps|
      ensures rest.steps[i].0 < |disk| && CarriesRows(disk[rest.steps[i].0].code)
    {
      assert rest.steps[i] == steps[i + 1];
    }
  }

  ghost predicate AreCarriers(stages: seq<StageDef>, steps: seq<(nat, int)>) {
    forall i :: 0 <= i < |steps| ==> steps[i].0 < |stages| && CarriesRows(stages[steps[i].0].code)
  }

  // Asked of the stages the trace itself stops at, and of no other.
  lemma {:induction false} TracesOfCarriedRowsAreExact(stages: seq<StageDef>, sid: nat, r: nat) returns (o: Origin)
    requires ValidPipeline(stages) && sid < |stages|
    requires r < |RunAll(stages)[sid].table|
    ensures GoesUp(OnDisk(RunAll(stages)))
    ensures var w := TraceRow(OnDisk(RunAll(stages)), {}, sid, r, []);
      w.Traced? && AreCarriers(stages, w.steps) ==> RunAll(stages)[sid].table[r].origins == {o} && ReachesSource(w, o)
  {
    var disk := EveryRunIsFaithful(stages);
    var w := TraceRow(disk, {}, sid, r, []);
    o := Origin("", 0);
    if w.Traced? && AreCarriers(stages, w.steps) {
      forall i | 0 <= i < |w.steps|
        ensures w.steps[i].0 < |disk| && CarriesRows(disk[w.steps[i].0].code)
      {
        RecordedCode(stages, |stages|, w.steps[i].0);
      }
      o := CarriedRowsAreTracedExactly(disk, sid, r);
    }
  }

  lemma {:induction false} RecordedCode(stages: seq<StageDef>, n: nat, s: nat)
    requires ValidPipeline(stages) && s < n <= |stages|
    ensures RunUpTo(stages, n)[s].code == stages[s].code
  {
    var rec := LastRecord(stages, n);
    if s < n - 1 { RecordedCode(stages, n - 1, s); }
  }

  lemma {:induction false} LastRecord(stages: seq<StageDef>, n: nat) returns (rec: Record)
    requires ValidPipeline(stages) && 0 < n <= |stages|
    ensures RunUpTo(stages, n) == RunUpTo(stages, n - 1) + [rec] && rec.code == stages[n - 1].code
  {
    var earlier, d := RunUpTo(stages, n - 1), stages[n - 1];
    assert ReadsEarlier(d, n - 1);
    rec := RunStage(n - 1, d, earlier);
    RecordsItsCode(n - 1, d, earlier);
  }

  lemma {:induction false} RecordsItsCode(stage: nat, d: StageDef, earlier: seq<Record>)
    requires forall k :: 0 <= k < |d.inputs| ==> d.inputs[k] < |earlier|
    ensures RunStage(stage, d, earlier).code == d.code
  {
  }
}
