/** Row provenance: what each kind of stage records, and what a row window does to it. */
module Lineage {
  import opened Wrappers

  // Stages are named by their place in the run order, so a stage reads only smaller numbers.
  //
  // Every row carries the set of source-file rows it stands for. No stage looks at that set; it is what the
  // recorded provenance is measured against.

  datatype EdgeKind = Direct | Contribution

  // `columns` and the source file are extras; None narrows nothing.
  datatype RowParent = RowParent(
    stage: nat, row: int, kind: EdgeKind, columns: Option<seq<string>>, file: Option<string>, sha: Option<string>)

  // One entry for each row of an output: where the row came from, its spine in front.
  type RowLineage = seq<seq<RowParent>>

  datatype Origin = Origin(file: string, row: nat)

  datatype Row = Row(value: int, origins: set<Origin>)

  type Rows = seq<Row>

  // ---------------------------------------------------------------- windows

  // `start` is the first upstream row read; no cap reads to the end.
  datatype Window = Window(start: nat, cap: Option<nat>)

  function Slice<T>(s: seq<T>, start: nat, end: nat): seq<T> {
    var e := if end > |s| then |s| else end;
    if start >= e then [] else s[start..e]
  }

  function TakeWindow(rows: Rows, w: Window): Rows {
    var rest := if w.start > 0 && |rows| > 0 then Slice(rows, w.start, |rows|) else rows;
    if w.cap.Some? && |rest| > w.cap.value then Slice(rest, 0, w.cap.value) else rest
  }

  // Row k of a windowed table is row start + k of the table.
  lemma {:induction false} WindowedRow(rows: Rows, w: Window, k: nat)
    requires k < |TakeWindow(rows, w)|
    ensures w.start + k < |rows| && TakeWindow(rows, w)[k] == rows[w.start + k]
  {
    var rest := if w.start > 0 && |rows| > 0 then Slice(rows, w.start, |rows|) else rows;
    assert k < |rest| && rest[k] == rows[w.start + k];
    assert TakeWindow(rows, w)[k] == rest[k];
  }

  // ---------------------------------------------------------------- the recorded edges

  function DirectParent(stage: nat, row: int): RowParent {
    RowParent(stage, row, Direct, None, None, None)
  }

  function Shifted(l: RowLineage, offset: nat): RowLineage {
    if offset == 0 then l
    else seq(|l|, i requires 0 <= i < |l| => ShiftedEntry(l[i], offset))
  }

  function ShiftedEntry(entry: seq<RowParent>, offset: nat): seq<RowParent> {
    seq(|entry|, k requires 0 <= k < |entry| => entry[k].(row := entry[k].row + offset))
  }

  // A load has no rows upstream to point at, so its window drops entries and renumbers none.
  function Sliced(l: RowLineage, w: Window): RowLineage {
    Slice(l, w.start, if w.cap.Some? then w.start + w.cap.value else |l|)
  }

  function KeptRows(stage: nat, kept: seq<nat>): RowLineage {
    seq(|kept|, i requires 0 <= i < |kept| => [DirectParent(stage, kept[i])])
  }

  // A union's rows, input by input, each input windowed from the same first row.
  function Concatenated(inputs: seq<nat>, counts: seq<nat>, first: nat): RowLineage
    requires |inputs| == |counts|
  {
    if inputs == [] then []
    else
      seq(counts[0], i => [DirectParent(inputs[0], first + i)]) + Concatenated(inputs[1..], counts[1..], first)
  }

  // A join's rows: one ordinal per input, absent where nothing matched.
  function Merged(inputs: seq<nat>, ordinals: seq<seq<Option<nat>>>): RowLineage {
    seq(|ordinals|, i requires 0 <= i < |ordinals| => MergedEntry(inputs, ordinals[i]))
  }

  function MergedEntry(inputs: seq<nat>, ordinals: seq<Option<nat>>): seq<RowParent> {
    if inputs == [] || ordinals == [] then []
    else
      (if ordinals[0].Some? then [DirectParent(inputs[0], ordinals[0].value)] else [])
      + MergedEntry(inputs[1..], ordinals[1..])
  }

  // An aggregate's rows: every input row totalled into each, in row order, with what it fed.
  function Grouped(stage: nat, groups: seq<seq<Contributor>>): RowLineage {
    seq(|groups|, i requires 0 <= i < |groups| => GroupedEntry(stage, groups[i]))
  }

  function GroupedEntry(stage: nat, group: seq<Contributor>): seq<RowParent> {
    if group == [] then []
    else
      [RowParent(stage, group[0].row, Contribution, Some(group[0].fed), None, None)] + GroupedEntry(stage, group[1..])
  }

  datatype Contributor = Contributor(row: nat, fed: seq<string>)

  // ---------------------------------------------------------------- stages

  datatype SourceFile = SourceFile(path: string, sha: string, values: seq<int>)

  // What a stage's own code does, given its windowed inputs' values: which rows it makes out of
  // which. The values it computes are arbitrary.
  datatype Code =
    | Load(files: seq<SourceFile>)
    | MapRows(each: (seq<int>, nat) -> int)
    | Select(pick: seq<int> -> seq<nat>)                      // filter, dedupe, sort, explode
    | Union
    | Join(matches: seq<seq<int>> -> seq<(int, seq<Option<nat>>)>)
    | Aggregate(groups: seq<int> -> seq<(int, seq<Contributor>)>)
    | FrameFunction(make: seq<seq<int>> -> seq<int>)          // reshapes, and reports nothing

  datatype StageDef = StageDef(code: Code, inputs: seq<nat>, window: Window)

  predicate IsRowPreserving(code: Code) {
    code.Load? || code.MapRows?
  }

  // Each output row is one input row carried on, however it was picked.
  predicate CarriesRows(code: Code) {
    !code.Aggregate? && !code.FrameFunction?
  }

  function Values(rows: Rows): seq<int> {
    seq(|rows|, i requires 0 <= i < |rows| => rows[i].value)
  }

  // The ordinals a handler reports are rows of the inputs it was handed.
  ghost predicate Honest(d: StageDef) {
    match d.code
    case Load(files) => d.inputs == [] && forall f :: f in files ==> f.path != ""
    case MapRows(_) => |d.inputs| == 1
    case Select(pick) => |d.inputs| == 1 && forall vs, o :: o in pick(vs) ==> o < |vs|
    case Union => true
    case Join(matches) =>
      d.inputs != [] && forall vss, m :: |vss| == |d.inputs| && m in matches(vss) ==>
        && |m.1| == |vss| && m.1[0].Some?   // every subject row survives, matched or not
        && forall k :: 0 <= k < |vss| && m.1[k].Some? ==> m.1[k].value < |vss[k]|
    case Aggregate(groups) =>
      |d.inputs| == 1 && forall vs, g, c :: g in groups(vs) && c in g.1 ==> c.row < |vs|
    case FrameFunction(_) => true
  }

  function AllValues(tables: seq<Rows>): (all: seq<seq<int>>)
    ensures |all| == |tables|
  {
    seq(|tables|, k requires 0 <= k < |tables| => Values(tables[k]))
  }

  function Counts(tables: seq<Rows>): (counts: seq<nat>)
    ensures |counts| == |tables|
  {
    seq(|tables|, k requires 0 <= k < |tables| => |tables[k]|)
  }

  function Seconds<A, B>(pairs: seq<(A, B)>): (all: seq<B>)
    ensures |all| == |pairs|
  {
    seq(|pairs|, i requires 0 <= i < |pairs| => pairs[i].1)
  }

  // ---------------------------------------------------------------- running a stage

  datatype Output = Output(table: Rows, lineage: Option<RowLineage>)

  function FileRows(files: seq<SourceFile>): Rows {
    if files == [] then []
    else seq(|files[0].values|, i requires 0 <= i < |files[0].values| =>
               Row(files[0].values[i], {Origin(files[0].path, i)}))
         + FileRows(files[1..])
  }

  // A load names itself and the file: `row` counts within the file.
  function FileLineage(stage: nat, files: seq<SourceFile>): RowLineage {
    if files == [] then []
    else seq(|files[0].values|, i requires 0 <= i < |files[0].values| =>
               [RowParent(stage, i, Direct, None, Some(files[0].path), Some(files[0].sha))])
         + FileLineage(stage, files[1..])
  }

  function Concat(inputs: seq<Rows>): Rows {
    if inputs == [] then [] else inputs[0] + Concat(inputs[1..])
  }

  // The row a join's output row is a version of: the first input it matched.
  function SpineOrigins(ordinals: seq<Option<nat>>, inputs: seq<Rows>): set<Origin> {
    if ordinals == [] || inputs == [] then {}
    else if ordinals[0].Some? then
      if ordinals[0].value < |inputs[0]| then inputs[0][ordinals[0].value].origins else {}
    else SpineOrigins(ordinals[1..], inputs[1..])
  }

  function GroupOrigins(group: seq<Contributor>, input: Rows): set<Origin> {
    if group == [] then {}
    else (if group[0].row < |input| then input[group[0].row].origins else {}) + GroupOrigins(group[1..], input)
  }

  // One handler call on windowed inputs.
  function Handle(stage: nat, d: StageDef, inputs: seq<Rows>): Output
    requires |inputs| == |d.inputs|
  {
    var values := AllValues(inputs);
    match d.code
    case Load(files) => Output(FileRows(files), Some(FileLineage(stage, files)))
    case MapRows(each) =>
      if |inputs| != 1 then Output([], None)
      else Output(seq(|inputs[0]|, i requires 0 <= i < |inputs[0]| => Row(each(values[0], i), inputs[0][i].origins)),
                  None)
    case Select(pick) =>
      if |inputs| != 1 then Output([], None)
      else
        var kept := pick(values[0]);
        Output(seq(|kept|, i requires 0 <= i < |kept| =>
                 if kept[i] < |inputs[0]| then inputs[0][kept[i]] else Row(0, {})),
               Some(KeptRows(d.inputs[0], kept)))
    case Union => Output(Concat(inputs), None)
    case Join(matches) =>
      var ms := matches(values);
      Output(seq(|ms|, i requires 0 <= i < |ms| => Row(ms[i].0, SpineOrigins(ms[i].1, inputs))),
             Some(Merged(d.inputs, Seconds(ms))))
    case Aggregate(groups) =>
      if |inputs| != 1 then Output([], None)
      else
        var gs := groups(values[0]);
        Output(seq(|gs|, i requires 0 <= i < |gs| => Row(gs[i].0, GroupOrigins(gs[i].1, inputs[0]))),
               Some(Grouped(d.inputs[0], Seconds(gs))))
    case FrameFunction(make) =>
      var made := make(values);
      Output(seq(|made|, i requires 0 <= i < |made| => Row(made[i], {})), None)
  }

  // What is recorded for a stage: nothing where rows went straight through, each to its own place.
  function StageRowLineage(d: StageDef, output: Output, inputs: seq<Rows>): Option<RowLineage>
    requires |inputs| == |d.inputs|
  {
    if output.lineage.Some? then
      if d.inputs == [] then Some(Sliced(output.lineage.value, d.window))
      else Some(Shifted(output.lineage.value, d.window.start))
    else if d.code.Union? then
      Some(Concatenated(d.inputs, Counts(inputs), d.window.start))
    else SlicedInputLineage(d, output.table)
  }

  function SlicedInputLineage(d: StageDef, table: Rows): Option<RowLineage> {
    if d.window.start == 0 && d.window.cap.None? then None
    else if !IsRowPreserving(d.code) || |d.inputs| != 1 then None
    else Some(KeptRows(d.inputs[0], seq(|table|, i => d.window.start + i)))
  }

  // What one executed stage leaves in the run directory.
  datatype Record = Record(code: Code, inputs: seq<nat>, table: Rows, lineage: Option<RowLineage>)

  // The tables a stage reads, each through the stage's window.
  function Windowed(run: seq<Record>, d: StageDef): (inputs: seq<Rows>)
    requires forall k :: 0 <= k < |d.inputs| ==> d.inputs[k] < |run|
    ensures |inputs| == |d.inputs|
  {
    seq(|d.inputs|, k requires 0 <= k < |d.inputs| => TakeWindow(run[d.inputs[k]].table, d.window))
  }

  function RunStage(stage: nat, d: StageDef, earlier: seq<Record>): Record
    requires forall k :: 0 <= k < |d.inputs| ==> d.inputs[k] < |earlier|
  {
    var inputs := Windowed(earlier, d);
    var output := Handle(stage, d, inputs);
    // With nothing to read, it is what comes out that is cut.
    var table := if d.inputs == [] then TakeWindow(output.table, d.window) else output.table;
    Record(d.code, d.inputs, table, StageRowLineage(d, output, inputs))
  }

  // Every stage reads only stages before it, and reports only rows it was handed.
  ghost predicate ValidPipeline(stages: seq<StageDef>) {
    forall i :: 0 <= i < |stages| ==> Honest(stages[i]) && ReadsEarlier(stages[i], i)
  }

  ghost predicate ReadsEarlier(d: StageDef, i: nat) {
    forall k :: 0 <= k < |d.inputs| ==> d.inputs[k] < i
  }

  // What the first `n` stages leave.
  ghost function RunUpTo(stages: seq<StageDef>, n: nat): (run: seq<Record>)
    requires ValidPipeline(stages) && n <= |stages|
    ensures |run| == n
  {
    if n == 0 then []
    else
      var earlier := RunUpTo(stages, n - 1);
      assert ReadsEarlier(stages[n - 1], n - 1);
      earlier + [RunStage(n - 1, stages[n - 1], earlier)]
  }

  ghost function RunAll(stages: seq<StageDef>): (run: seq<Record>)
    requires ValidPipeline(stages)
    ensures |run| == |stages|
  {
    RunUpTo(stages, |stages|)
  }

  // ---------------------------------------------------------------- the record is faithful

  predicate InRange(run: seq<Record>, below: nat, p: RowParent) {
    p.stage < below && p.stage < |run| && 0 <= p.row < |run[p.stage].table|
  }

  function OriginsAt(run: seq<Record>, p: RowParent): set<Origin> {
    if p.stage < |run| && 0 <= p.row < |run[p.stage].table| then run[p.stage].table[p.row].origins else {}
  }

  function FirstDirect(hops: seq<RowParent>): (p: Option<RowParent>)
    ensures p.Some? ==> p.value in hops && p.value.kind == Direct
    ensures p.None? ==> forall q :: q in hops ==> q.kind != Direct
  {
    if hops == [] then None else if hops[0].kind == Direct then Some(hops[0]) else FirstDirect(hops[1..])
  }

  function AllOrigins(run: seq<Record>, hops: seq<RowParent>): set<Origin> {
    if hops == [] then {} else OriginsAt(run, hops[0]) + AllOrigins(run, hops[1..])
  }

  // What recorded hops say a row stands for: its spine parent's rows, or every contributor's.
  function HopOrigins(run: seq<Record>, hops: seq<RowParent>): set<Origin> {
    match FirstDirect(hops)
    case Some(p) => OriginsAt(run, p)
    case None => AllOrigins(run, hops)
  }

  // A load's entry is the file row itself.
  ghost predicate IsLoadEntry(stage: nat, row: Row, entry: seq<RowParent>) {
    && |entry| == 1 && entry[0].kind == Direct && entry[0].stage == stage
    && entry[0].file.Some? && entry[0].file.value != "" && entry[0].row >= 0
    && row.origins == {Origin(entry[0].file.value, entry[0].row)}
  }

  // Entry r of stage `stage` names only existing rows of earlier stages, and says what row r stands for.
  ghost predicate EntryIsFaithful(run: seq<Record>, stage: nat, r: nat)
    requires stage < |run| && r < |run[stage].table|
  {
    var rec := run[stage];
    match rec.lineage
    case Some(l) =>
      r < |l| &&
      if rec.code.Load? then IsLoadEntry(stage, rec.table[r], l[r])
      else
        && (forall p :: p in l[r] ==> InRange(run, stage, p))
        && rec.table[r].origins == HopOrigins(run, l[r])
        && (CarriesRows(rec.code) ==> FirstDirect(l[r]).Some?)
    case None =>
      if rec.code.MapRows? then
        |rec.inputs| == 1 && InRange(run, stage, DirectParent(rec.inputs[0], r))
        && |run[rec.inputs[0]].table| == |rec.table|
        && rec.table[r].origins == OriginsAt(run, DirectParent(rec.inputs[0], r))
      else rec.code.FrameFunction? && rec.table[r].origins == {}
  }

  ghost predicate RecordIsFaithful(run: seq<Record>, stage: nat)
    requires stage < |run|
  {
    forall r :: 0 <= r < |run[stage].table| ==> EntryIsFaithful(run, stage, r)
  }

  // ---------------------------------------------------------------- every run records faithfully

  lemma {:induction false} ShiftedAt(l: RowLineage, offset: nat, i: nat)
    requires i < |l|
    ensures |Shifted(l, offset)| == |l| && Shifted(l, offset)[i] == ShiftedEntry(l[i], offset)
  {
    if offset == 0 {
      assert ShiftedEntry(l[i], 0) == l[i];
    }
  }

  // A row of a windowed input, named from outside the window.
  lemma {:induction false} WindowedParent(run: seq<Record>, below: nat, input: nat, w: Window, k: nat)
    requires input < below <= |run|
    requires k < |TakeWindow(run[input].table, w)|
    ensures var p := DirectParent(input, w.start + k);
            InRange(run, below, p) && OriginsAt(run, p) == TakeWindow(run[input].table, w)[k].origins
  {
    WindowedRow(run[input].table, w, k);
  }

  lemma {:induction false} OneHop(run: seq<Record>, p: RowParent)
    requires p.kind == Direct
    ensures HopOrigins(run, [p]) == OriginsAt(run, p)
  {
  }

  lemma {:induction false} UnionRow(inputs: seq<nat>, tables: seq<Rows>, first: nat, r: nat) returns (k: nat, i: nat)
    requires |inputs| == |tables| && r < |Concat(tables)|
    ensures k < |tables| && i < |tables[k]| && Concat(tables)[r] == tables[k][i]
    ensures var l := Concatenated(inputs, Counts(tables), first);
            r < |l| && l[r] == [DirectParent(inputs[k], first + i)]
  {
    var counts := Counts(tables);
    if r < |tables[0]| {
      k, i := 0, r;
    } else {
      k, i := UnionRow(inputs[1..], tables[1..], first, r - |tables[0]|);
      k := k + 1;
      assert counts[1..] == Counts(tables[1..]);
    }
  }

  lemma {:induction false} ShiftedCons(p: RowParent, rest: seq<RowParent>, offset: nat)
    ensures ShiftedEntry([p] + rest, offset) == [p.(row := p.row + offset)] + ShiftedEntry(rest, offset)
  {
  }

  // A newest-first hop list: a direct edge in front decides, a contribution in front joins in.
  lemma {:induction false} HopsCons(run: seq<Record>, p: RowParent, rest: seq<RowParent>)
    ensures p.kind == Direct ==> HopOrigins(run, [p] + rest) == OriginsAt(run, p)
    ensures p.kind == Contribution ==> FirstDirect([p] + rest) == FirstDirect(rest)
    ensures AllOrigins(run, [p] + rest) == OriginsAt(run, p) + AllOrigins(run, rest)
  {
    assert ([p] + rest)[1..] == rest;
  }

  lemma {:induction false} MergedHops(run: seq<Record>, d: StageDef, below: nat, inputs: seq<nat>, tables: seq<Rows>,
                                      ordinals: seq<Option<nat>>)
    requires |inputs| == |tables| == |ordinals| && below <= |run|
    requires forall k :: 0 <= k < |inputs| ==>
        inputs[k] < below && tables[k] == TakeWindow(run[inputs[k]].table, d.window)
    requires forall k :: 0 <= k < |inputs| && ordinals[k].Some? ==> ordinals[k].value < |tables[k]|
    ensures var hops := ShiftedEntry(MergedEntry(inputs, ordinals), d.window.start);
            && (forall p :: p in hops ==> InRange(run, below, p))
            && HopOrigins(run, hops) == SpineOrigins(ordinals, tables)
            && (ordinals != [] && ordinals[0].Some? ==> FirstDirect(hops).Some?)
  {
    if inputs != [] {
      MergedHops(run, d, below, inputs[1..], tables[1..], ordinals[1..]);
      if ordinals[0].Some? {
        var rest := MergedEntry(inputs[1..], ordinals[1..]);
        MergedHop(run, d, below, inputs[0], ordinals[0].value, rest);
      } else {
        assert MergedEntry(inputs, ordinals) == MergedEntry(inputs[1..], ordinals[1..]);
      }
    }
  }

  lemma {:induction false} MergedHop(run: seq<Record>, d: StageDef, below: nat, input: nat, ordinal: nat,
                                     rest: seq<RowParent>)
    requires input < below <= |run| && ordinal < |TakeWindow(run[input].table, d.window)|
    requires forall p :: p in ShiftedEntry(rest, d.window.start) ==> InRange(run, below, p)
    ensures var hops := ShiftedEntry([DirectParent(input, ordinal)] + rest, d.window.start);
      && (forall p :: p in hops ==> InRange(run, below, p))
      && FirstDirect(hops).Some?
      && HopOrigins(run, hops) == TakeWindow(run[input].table, d.window)[ordinal].origins
  {
    WindowedParent(run, below, input, d.window, ordinal);
    ShiftedCons(DirectParent(input, ordinal), rest, d.window.start);
    HopsCons(run, DirectParent(input, d.window.start + ordinal), ShiftedEntry(rest, d.window.start));
  }

  lemma {:induction false} GroupedHops(run: seq<Record>, d: StageDef, below: nat, input: nat, group: seq<Contributor>)
    requires input < below <= |run|
    requires forall k :: 0 <= k < |group| ==> group[k].row < |TakeWindow(run[input].table, d.window)|
    ensures var hops := ShiftedEntry(GroupedEntry(input, group), d.window.start);
            && (forall p :: p in hops ==> InRange(run, below, p))
            && FirstDirect(hops) == None
            && AllOrigins(run, hops) == GroupOrigins(group, TakeWindow(run[input].table, d.window))
  {
    if group != [] {
      GroupedHops(run, d, below, input, group[1..]);
      WindowedParent(run, below, input, d.window, group[0].row);
      var p := RowParent(input, group[0].row, Contribution, Some(group[0].fed), None, None);
      var rest := GroupedEntry(input, group[1..]);
      ShiftedCons(p, rest, d.window.start);
      HopsCons(run, p.(row := p.row + d.window.start), ShiftedEntry(rest, d.window.start));
    }
  }

  lemma {:induction false} FileEntries(stage: nat, files: seq<SourceFile>, r: nat)
    requires r < |FileRows(files)| && forall f :: f in files ==> f.path != ""
    ensures |FileLineage(stage, files)| == |FileRows(files)|
    ensures IsLoadEntry(stage, FileRows(files)[r], FileLineage(stage, files)[r])
  {
    FileLengths(stage, files);
    assert files[0] in files;
    if r >= |files[0].values| {
      FileEntries(stage, files[1..], r - |files[0].values|);
    }
  }

  lemma {:induction false} FileLengths(stage: nat, files: seq<SourceFile>)
    ensures |FileLineage(stage, files)| == |FileRows(files)|
  {
    if files != [] { FileLengths(stage, files[1..]); }
  }

  // The windowed table and the sliced lineage of a stage without inputs keep the same rows.
  lemma {:induction false} SlicedKeepsStep(rows: Rows, l: RowLineage, w: Window, r: nat)
    requires |rows| == |l| && r < |TakeWindow(rows, w)|
    ensures r < |Sliced(l, w)| && Sliced(l, w)[r] == l[w.start + r]
    ensures w.start + r < |rows| && TakeWindow(rows, w)[r] == rows[w.start + r]
  {
    WindowedRow(rows, w, r);
  }

  ghost predicate IsNewest(run: seq<Record>, d: StageDef) {
    && run != [] && Honest(d) && ReadsEarlier(d, |run| - 1)
    && run[|run| - 1] == RunStage(|run| - 1, d, run[..|run| - 1])
  }

  lemma {:induction false} NewestInputs(run: seq<Record>, d: StageDef)
    requires IsNewest(run, d)
    ensures forall k :: 0 <= k < |d.inputs| ==> d.inputs[k] < |run| - 1
    ensures var n := |run| - 1; var output := Handle(n, d, Windowed(run, d));
            run[n] == Record(d.code, d.inputs,
                             if d.inputs == [] then TakeWindow(output.table, d.window) else output.table,
                             StageRowLineage(d, output, Windowed(run, d)))
  {
    var n := |run| - 1;
    assert Windowed(run[..n], d) == Windowed(run, d);
  }

  lemma {:induction false} NewestIsFaithful(run: seq<Record>, d: StageDef, r: nat)
    requires IsNewest(run, d) && r < |run[|run| - 1].table|
    ensures EntryIsFaithful(run, |run| - 1, r)
  {
    NewestInputs(run, d);
    match d.code
    case Load(files) => NewLoad(run, d, files, r);
    case MapRows(_) => NewMap(run, d, r);
    case Select(pick) => NewSelect(run, d, pick, r);
    case Union => NewUnion(run, d, r);
    case Join(matches) => NewJoin(run, d, matches, r);
    case Aggregate(groups) => NewAggregate(run, d, groups, r);
    case FrameFunction(_) => NewFrame(run, d, r);
  }

  lemma {:induction false} NewLoad(run: seq<Record>, d: StageDef, files: seq<SourceFile>, r: nat)
    requires IsNewest(run, d) && r < |run[|run| - 1].table| && d.code == Load(files)
    ensures EntryIsFaithful(run, |run| - 1, r)
  {
    NewestInputs(run, d);
    FileLengths(|run| - 1, files);
    SlicedKeepsStep(FileRows(files), FileLineage(|run| - 1, files), d.window, r);
    FileEntries(|run| - 1, files, d.window.start + r);
  }

  lemma {:induction false} NewMap(run: seq<Record>, d: StageDef, r: nat)
    requires IsNewest(run, d) && r < |run[|run| - 1].table| && d.code.MapRows?
    ensures EntryIsFaithful(run, |run| - 1, r)
  {
    NewestInputs(run, d);
    var n := |run| - 1;
    assert Windowed(run, d)[0] == TakeWindow(run[d.inputs[0]].table, d.window);
    WindowedParent(run, n, d.inputs[0], d.window, r);
    if run[n].lineage.Some? {
      var p := DirectParent(d.inputs[0], d.window.start + r);
      assert run[n].lineage.value[r] == [p];
      OneHop(run, p);
    }
  }

  lemma {:induction false} NewSelect(run: seq<Record>, d: StageDef, pick: seq<int> -> seq<nat>, r: nat)
    requires IsNewest(run, d) && r < |run[|run| - 1].table| && d.code == Select(pick)
    ensures EntryIsFaithful(run, |run| - 1, r)
  {
    NewestInputs(run, d);
    var n := |run| - 1;
    var input := Windowed(run, d)[0];
    var kept := pick(Values(input));
    assert kept[r] in kept;
    WindowedParent(run, n, d.inputs[0], d.window, kept[r]);
    ShiftedAt(KeptRows(d.inputs[0], kept), d.window.start, r);
    var p := DirectParent(d.inputs[0], d.window.start + kept[r]);
    assert run[n].lineage.value[r] == [p];
    OneHop(run, p);
  }

  lemma {:induction false} NewUnion(run: seq<Record>, d: StageDef, r: nat)
    requires IsNewest(run, d) && r < |run[|run| - 1].table| && d.code.Union?
    ensures EntryIsFaithful(run, |run| - 1, r)
  {
    NewestInputs(run, d);
    var n := |run| - 1;
    if d.inputs != [] {
      var k, i := UnionRow(d.inputs, Windowed(run, d), d.window.start, r);
      WindowedParent(run, n, d.inputs[k], d.window, i);
      OneHop(run, DirectParent(d.inputs[k], d.window.start + i));
    }
  }

  lemma {:induction false} NewJoin(run: seq<Record>, d: StageDef,
                                   matches: seq<seq<int>> -> seq<(int, seq<Option<nat>>)>, r: nat)
    requires IsNewest(run, d) && r < |run[|run| - 1].table| && d.code == Join(matches)
    ensures EntryIsFaithful(run, |run| - 1, r)
  {
    NewestInputs(run, d);
    var ordinals := RecordedMatch(run, d, matches, r);
    MergedHops(run, d, |run| - 1, d.inputs, Windowed(run, d), ordinals);
  }

  // A row was put together from the rows `ordinals` names: its origins and its entry say so.
  ghost predicate MatchIsRecorded(rec: Record, d: StageDef, inputs: seq<Rows>, r: nat, ordinals: seq<Option<nat>>)
    requires r < |rec.table|
  {
    && |ordinals| == |d.inputs| == |inputs| && ordinals != [] && ordinals[0].Some? && rec.code == d.code
    && (forall k :: 0 <= k < |ordinals| && ordinals[k].Some? ==> ordinals[k].value < |inputs[k]|)
    && rec.table[r].origins == SpineOrigins(ordinals, inputs)
    && rec.lineage.Some? && r < |rec.lineage.value|
    && rec.lineage.value[r] == ShiftedEntry(MergedEntry(d.inputs, ordinals), d.window.start)
  }

  lemma {:induction false} RecordedMatch(run: seq<Record>, d: StageDef,
                                         matches: seq<seq<int>> -> seq<(int, seq<Option<nat>>)>, r: nat)
    returns (ordinals: seq<Option<nat>>)
    requires IsNewest(run, d) && r < |run[|run| - 1].table| && d.code == Join(matches)
    requires forall k :: 0 <= k < |d.inputs| ==> d.inputs[k] < |run| - 1
    ensures MatchIsRecorded(run[|run| - 1], d, Windowed(run, d), r, ordinals)
  {
    NewestInputs(run, d);
    var inputs := Windowed(run, d);
    var values := AllValues(inputs);
    var ms := matches(values);
    assert ms[r] in ms;
    ordinals := ms[r].1;
    ShiftedAt(Merged(d.inputs, Seconds(ms)), d.window.start, r);
  }

  lemma {:induction false} NewAggregate(run: seq<Record>, d: StageDef, groups: seq<int> -> seq<(int, seq<Contributor>)>,
                                        r: nat)
    requires IsNewest(run, d) && r < |run[|run| - 1].table| && d.code == Aggregate(groups)
    ensures EntryIsFaithful(run, |run| - 1, r)
  {
    NewestInputs(run, d);
    var group := RecordedGroup(run, d, groups, r);
    GroupedHops(run, d, |run| - 1, d.inputs[0], group);
  }

  // A row of the last stage was made from `group`: its origins and its entry say so.
  ghost predicate GroupIsRecorded(run: seq<Record>, d: StageDef, r: nat, group: seq<Contributor>)
    requires run != [] && r < |run[|run| - 1].table|
  {
    var rec := run[|run| - 1];
    && |d.inputs| == 1 && d.inputs[0] < |run| - 1 && rec.code == d.code
    && (forall k :: 0 <= k < |group| ==> group[k].row < |TakeWindow(run[d.inputs[0]].table, d.window)|)
    && rec.table[r].origins == GroupOrigins(group, TakeWindow(run[d.inputs[0]].table, d.window))
    && rec.lineage.Some? && r < |rec.lineage.value|
    && rec.lineage.value[r] == ShiftedEntry(GroupedEntry(d.inputs[0], group), d.window.start)
  }

  lemma {:induction false} RecordedGroup(run: seq<Record>, d: StageDef,
                                         groups: seq<int> -> seq<(int, seq<Contributor>)>, r: nat)
    returns (group: seq<Contributor>)
    requires IsNewest(run, d) && r < |run[|run| - 1].table| && d.code == Aggregate(groups)
    ensures GroupIsRecorded(run, d, r, group)
  {
    NewestInputs(run, d);
    var inputs := Windowed(run, d);
    var gs := groups(Values(inputs[0]));
    AggregateOutput(|run| - 1, d, groups, inputs);
    group := gs[r].1;
    GroupsPickInputRows(d, groups, Values(inputs[0]), gs[r]);
    ShiftedAt(Grouped(d.inputs[0], Seconds(gs)), d.window.start, r);
  }

  lemma {:induction false} AggregateOutput(n: nat, d: StageDef, groups: seq<int> -> seq<(int, seq<Contributor>)>,
                                           inputs: seq<Rows>)
    requires d.code == Aggregate(groups) && |d.inputs| == |inputs| == 1
    ensures var output, gs := Handle(n, d, inputs), groups(Values(inputs[0]));
      && |output.table| == |gs|
          && (forall r :: 0 <= r < |gs| ==> output.table[r].origins == GroupOrigins(gs[r].1, inputs[0]))
      && StageRowLineage(d, output, inputs)
         == Some(Shifted(Grouped(d.inputs[0], Seconds(gs)), d.window.start))
  {
  }

  lemma {:induction false} GroupsPickInputRows(d: StageDef, groups: seq<int> -> seq<(int, seq<Contributor>)>,
                                               values: seq<int>, group: (int, seq<Contributor>))
    requires Honest(d) && d.code == Aggregate(groups) && group in groups(values)
    ensures forall k :: 0 <= k < |group.1| ==> group.1[k].row < |values|
  {
  }

  lemma {:induction false} NewFrame(run: seq<Record>, d: StageDef, r: nat)
    requires IsNewest(run, d) && r < |run[|run| - 1].table| && d.code.FrameFunction?
    ensures EntryIsFaithful(run, |run| - 1, r)
  {
    NewestInputs(run, d);
    if d.inputs == [] { WindowedRow(Handle(|run| - 1, d, Windowed(run, d)).table, d.window, r); }
  }

  // Later records do not disturb what earlier ones say.
  lemma {:induction false} FaithfulGrows(run: seq<Record>, more: Record, stage: nat, r: nat)
    requires stage < |run| && r < |run[stage].table| && EntryIsFaithful(run, stage, r)
    ensures EntryIsFaithful(run + [more], stage, r)
  {
    var longer := run + [more];
    if run[stage].lineage.Some? && !run[stage].code.Load? {
      HopsGrow(run, more, stage, run[stage].lineage.value[r]);
    }
  }

  lemma {:induction false} HopsGrow(run: seq<Record>, more: Record, stage: nat, hops: seq<RowParent>)
    requires stage < |run| && forall p :: p in hops ==> InRange(run, stage, p)
    ensures forall p :: p in hops ==> InRange(run + [more], stage, p)
    ensures HopOrigins(run + [more], hops) == HopOrigins(run, hops)
    ensures AllOrigins(run + [more], hops) == AllOrigins(run, hops)
  {
    if hops != [] {
      assert hops[0] in hops;
      HopsGrow(run, more, stage, hops[1..]);
      assert FirstDirect(hops).Some? ==> FirstDirect(hops).value in hops;
    }
  }

  // Every run of every valid pipeline records, for each output row, only existing rows of earlier
  // stages, and rows that stand for exactly the source rows the output row stands for.
  lemma {:induction false} RunsAreFaithful(stages: seq<StageDef>, n: nat, stage: nat)
    requires ValidPipeline(stages) && stage < n <= |stages|
    ensures RecordIsFaithful(RunUpTo(stages, n), stage)
  {
    var d := stages[n - 1];
    assert Honest(d) && ReadsEarlier(d, n - 1);
    var earlier := RunUpTo(stages, n - 1);
    var more := RunStage(n - 1, d, earlier);
    if stage < n - 1 {
      RunsAreFaithful(stages, n - 1, stage);
      RecordStaysFaithful(earlier, more, stage);
    } else {
      NewRecordIsFaithful(earlier, d);
    }
    assert RunUpTo(stages, n) == earlier + [more];
  }

  lemma {:induction false} RecordStaysFaithful(earlier: seq<Record>, more: Record, stage: nat)
    requires stage < |earlier| && RecordIsFaithful(earlier, stage)
    ensures RecordIsFaithful(earlier + [more], stage)
  {
    forall r | 0 <= r < |earlier[stage].table|
      ensures EntryIsFaithful(earlier + [more], stage, r)
    {
      FaithfulGrows(earlier, more, stage, r);
    }
  }

  lemma {:induction false} NewRecordIsFaithful(earlier: seq<Record>, d: StageDef)
    requires ReadsEarlier(d, |earlier|) && Honest(d)
    ensures RecordIsFaithful(earlier + [RunStage(|earlier|, d, earlier)], |earlier|)
  {
    var run := earlier + [RunStage(|earlier|, d, earlier)];
    assert run[..|run| - 1] == earlier;
    forall r | 0 <= r < |run[|earlier|].table|
      ensures EntryIsFaithful(run, |earlier|, r)
    {
      NewestIsFaithful(run, d, r);
    }
  }
}
