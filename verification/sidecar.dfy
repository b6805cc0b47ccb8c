/** The file beside each stage output that says how its rows came to be. */
module Sidecar {
  import opened Wrappers
  import opened Lineage

  // Row lineage and branches taken, either half optional. Writing encodes; reading decodes one row at a
  // time until someone wants them all.

  // [] for a row that ran and branched nowhere, None for one that did not run.
  type RowBranches = seq<Option<seq<string>>>

  // A column the file does not have is None: a file from before that column existed still reads.
  datatype SidecarTable = SidecarTable(
    rowCount: nat,
    stages: Option<seq<seq<nat>>>,
    rows: Option<seq<seq<int>>>,
    kinds: Option<seq<seq<EdgeKind>>>,
    columns: Option<seq<seq<seq<string>>>>,
    files: Option<seq<seq<string>>>,
    shas: Option<seq<seq<string>>>,
    branches: Option<seq<Option<seq<string>>>>)
  {
    ghost predicate Valid() {
      && Fits(stages) && Fits(rows) && Fits(kinds) && Fits(columns) && Fits(files) && Fits(shas)
      && (branches.Some? ==> |branches.value| == rowCount)
    }

    predicate Fits<T>(column: Option<seq<seq<T>>>) {
      column.Some? ==> |column.value| == rowCount
    }
  }

  // ---------------------------------------------------------------- reading one row's cells

  function NonEmpty<T(==)>(s: seq<T>): Option<seq<T>> {
    if s == [] then None else Some(s)
  }

  // As many parents as both required cells hold; each optional cell may run short.
  function ReadParents(stages: seq<nat>, rows: seq<int>, kinds: seq<EdgeKind>, columns: seq<seq<string>>,
                       files: seq<string>, shas: seq<string>): (parents: seq<RowParent>)
    ensures |parents| == if |stages| < |rows| then |stages| else |rows|
  {
    seq(if |stages| < |rows| then |stages| else |rows|,
        k requires 0 <= k < |stages| && k < |rows| =>
          RowParent(stages[k], rows[k],
                    if k < |kinds| then kinds[k] else Direct,
                    if k < |columns| then NonEmpty(columns[k]) else None,
                    if k < |files| then NonEmpty(files[k]) else None,
                    if k < |shas| then NonEmpty(shas[k]) else None))
  }

  function CellOf<T>(column: Option<seq<seq<T>>>, i: nat): seq<T>
    requires column.Some? ==> i < |column.value|
  {
    if column.Some? then column.value[i] else []
  }

  function ColumnCells<T>(column: Option<seq<seq<T>>>, rowCount: nat): (cells: seq<seq<T>>)
    requires column.Some? ==> |column.value| == rowCount
    ensures |cells| == rowCount
  {
    if column.Some? then column.value else seq(rowCount, _ => [])
  }

  // Decoding the whole table at once.
  function DecodeAll(t: SidecarTable): (l: RowLineage)
    requires t.Valid()
    ensures |l| == t.rowCount
  {
    var stages := ColumnCells(t.stages, t.rowCount);
    var rows := ColumnCells(t.rows, t.rowCount);
    var kinds := ColumnCells(t.kinds, t.rowCount);
    var columns := ColumnCells(t.columns, t.rowCount);
    var files := ColumnCells(t.files, t.rowCount);
    var shas := ColumnCells(t.shas, t.rowCount);
    seq(t.rowCount, i requires 0 <= i < t.rowCount =>
      ReadParents(stages[i], rows[i], kinds[i], columns[i], files[i], shas[i]))
  }

  // Decoding one row on its own.
  function ReadRow(t: SidecarTable, i: nat): seq<RowParent>
    requires t.Valid() && i < t.rowCount
  {
    ReadParents(CellOf(t.stages, i), CellOf(t.rows, i), CellOf(t.kinds, i),
                CellOf(t.columns, i), CellOf(t.files, i), CellOf(t.shas, i))
  }

  lemma {:induction false} OneRowAgrees(t: SidecarTable, i: nat)
    requires t.Valid() && i < t.rowCount
    ensures ReadRow(t, i) == DecodeAll(t)[i]
  {
    SameCell(t.stages, t.rowCount, i);
    SameCell(t.rows, t.rowCount, i);
    SameCell(t.kinds, t.rowCount, i);
    SameCell(t.columns, t.rowCount, i);
    SameCell(t.files, t.rowCount, i);
    SameCell(t.shas, t.rowCount, i);
  }

  lemma SameCell<T>(column: Option<seq<seq<T>>>, rowCount: nat, i: nat)
    requires i < rowCount && (column.Some? ==> |column.value| == rowCount)
    ensures CellOf(column, i) == ColumnCells(column, rowCount)[i]
  {
  }

  // ---------------------------------------------------------------- indexing as the language does

  function At<T>(s: seq<T>, index: int): Option<T> {
    var i := if index < 0 then index + |s| else index;
    if 0 <= i < |s| then Some(s[i]) else None
  }

  function Bound(given: Option<int>, default: nat, length: nat): nat {
    match given
    case None => default
    case Some(v) =>
      if v < 0 then if v + length < 0 then 0 else v + length
      else if v > length then length else v
  }

  function Between<T>(s: seq<T>, start: Option<int>, stop: Option<int>): seq<T> {
    Slice(s, Bound(start, 0, |s|), Bound(stop, |s|, |s|))
  }

  // A decoded sidecar that pays for one row when asked for one, and for all of them once.
  class SidecarParents {
    const table: SidecarTable
    var oneAtATime: map<nat, seq<RowParent>>
    var everyRow: Option<RowLineage>

    ghost predicate Valid()
      reads this
    {
      && table.Valid()
      && (everyRow.Some? ==> everyRow.value == DecodeAll(table))
      && (forall i :: i in oneAtATime ==> i < table.rowCount && oneAtATime[i] == DecodeAll(table)[i])
    }

    constructor (table: SidecarTable)
      requires table.Valid()
      ensures Valid() && this.table == table
    {
      this.table := table;
      oneAtATime, everyRow := map[], None;
    }

    method ReadEveryRow() returns (rows: RowLineage)
      requires Valid()
      modifies this
      ensures Valid() && rows == DecodeAll(table)
    {
      if everyRow.None? {
        everyRow := Some(DecodeAll(table));
      }
      return everyRow.value;
    }

    // None where the index is out of range.
    method GetItem(index: int) returns (entry: Option<seq<RowParent>>)
      requires Valid()
      modifies this
      ensures Valid() && entry == At(DecodeAll(table), index)
    {
      if everyRow.Some? {
        return At(everyRow.value, index);
      }
      var i := if index < 0 then index + table.rowCount else index;
      if i < 0 || i >= table.rowCount {
        return None;
      }
      if i !in oneAtATime {
        OneRowAgrees(table, i);
        oneAtATime := oneAtATime[i := ReadRow(table, i)];
      }
      return Some(oneAtATime[i]);
    }

    method GetSlice(start: Option<int>, stop: Option<int>) returns (entries: RowLineage)
      requires Valid()
      modifies this
      ensures Valid() && entries == Between(DecodeAll(table), start, stop)
    {
      var rows := ReadEveryRow();
      return Between(rows, start, stop);
    }
  }

  // ---------------------------------------------------------------- writing

  datatype Written = NoFile | LengthMismatch | File(table: SidecarTable)

  function WriteSidecar(lineage: Option<RowLineage>, branches: Option<RowBranches>): (w: Written)
    ensures w.File? ==> w.table.Valid()
  {
    if lineage.None? && branches.None? then NoFile
    else if lineage.Some? && branches.Some? && |lineage.value| != |branches.value| then LengthMismatch
    else File(JoinedTable(lineage, branches))
  }

  function JoinedTable(lineage: Option<RowLineage>, branches: Option<RowBranches>): SidecarTable
    requires lineage.Some? || branches.Some?
  {
    match lineage
    case None => SidecarTable(|branches.value|, None, None, None, None, None, None, branches)
    case Some(l) =>
      SidecarTable(
        |l|,
        Some(seq(|l|, i requires 0 <= i < |l| => seq(|l[i]|, k requires 0 <= k < |l[i]| => l[i][k].stage))),
        Some(seq(|l|, i requires 0 <= i < |l| => seq(|l[i]|, k requires 0 <= k < |l[i]| => l[i][k].row))),
        Some(seq(|l|, i requires 0 <= i < |l| => seq(|l[i]|, k requires 0 <= k < |l[i]| => l[i][k].kind))),
        Some(seq(|l|, i requires 0 <= i < |l| => seq(|l[i]|, k requires 0 <= k < |l[i]| => OrEmpty(l[i][k].columns)))),
        Some(seq(|l|, i requires 0 <= i < |l| => seq(|l[i]|, k requires 0 <= k < |l[i]| => OrEmpty(l[i][k].file)))),
        Some(seq(|l|, i requires 0 <= i < |l| => seq(|l[i]|, k requires 0 <= k < |l[i]| => OrEmpty(l[i][k].sha)))),
        branches)
  }

  function OrEmpty<T>(s: Option<seq<T>>): seq<T> {
    if s.Some? then s.value else []
  }

  // ---------------------------------------------------------------- reading

  datatype LineageSidecar = LineageSidecar(lineage: Option<RowLineage>, branches: Option<RowBranches>)

  // A file without lineage columns reports no lineage, not rows from nowhere.
  function ReadSidecar(w: Written): LineageSidecar
    requires w.File? ==> w.table.Valid()
  {
    match w
    case File(t) => LineageSidecar(if t.stages.Some? then Some(DecodeAll(t)) else None, t.branches)
    case _ => LineageSidecar(None, None)
  }

  // ---------------------------------------------------------------- reading undoes writing

  // What a file cannot tell apart: no columns and none listed, no file and an unnamed one.
  function Normal(p: RowParent): RowParent {
    p.(columns := NonEmpty(OrEmpty(p.columns)), file := NonEmpty(OrEmpty(p.file)), sha := NonEmpty(OrEmpty(p.sha)))
  }

  function NormalEntry(entry: seq<RowParent>): seq<RowParent> {
    seq(|entry|, k requires 0 <= k < |entry| => Normal(entry[k]))
  }

  function NormalLineage(l: RowLineage): RowLineage {
    seq(|l|, i requires 0 <= i < |l| => NormalEntry(l[i]))
  }

  lemma {:induction false} DecodingUndoesEncoding(l: RowLineage, branches: Option<RowBranches>)
    requires branches.Some? ==> |branches.value| == |l|
    ensures DecodeAll(JoinedTable(Some(l), branches)) == NormalLineage(l)
  {
    var t := JoinedTable(Some(l), branches);
    forall i | 0 <= i < |l|
      ensures DecodeAll(t)[i] == NormalEntry(l[i])
    {
      assert t.stages.value[i] == seq(|l[i]|, k requires 0 <= k < |l[i]| => l[i][k].stage);
      assert DecodeAll(t)[i] == ReadParents(t.stages.value[i], t.rows.value[i], t.kinds.value[i],
                                            t.columns.value[i], t.files.value[i], t.shas.value[i]);
    }
  }

  // Either half comes back alone or beside the other. A row that took no branch stays apart from a
  // row that never ran, and a lineage of no rows stays apart from no lineage.
  lemma {:induction false} ReadingUndoesWriting(lineage: Option<RowLineage>, branches: Option<RowBranches>)
    ensures WriteSidecar(lineage, branches) == LengthMismatch <==>
            lineage.Some? && branches.Some? && |lineage.value| != |branches.value|
    ensures WriteSidecar(lineage, branches) != LengthMismatch ==>
            ReadSidecar(WriteSidecar(lineage, branches)) ==
            LineageSidecar(if lineage.Some? then Some(NormalLineage(lineage.value)) else None, branches)
  {
    if lineage.Some? && (branches.Some? ==> |branches.value| == |lineage.value|) {
      DecodingUndoesEncoding(lineage.value, branches);
    }
  }

  // What was read back once is read back the same ever after.
  lemma {:induction false} ReadBackIsSettled(l: RowLineage)
    ensures NormalLineage(NormalLineage(l)) == NormalLineage(l)
  {
    forall i | 0 <= i < |l|
      ensures NormalLineage(NormalLineage(l))[i] == NormalLineage(l)[i]
    {
      assert NormalEntry(NormalEntry(l[i])) == NormalEntry(l[i]);
    }
  }
}
