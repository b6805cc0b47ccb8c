/** The migration of stored stage specs to signatures. */
module Signature {
  import opened Schema
  import opened Wrappers

  // A spec that held its whole output schema is given the signature that schema implies, as what it adds to
  // and rewrites in its first input.

  datatype Split = Split(adds: seq<Column>, rewrites: seq<Column>) | Undeterminable(dropped: set<string>)

  // The anchor columns a stored output schema dropped.
  function FindDroppedAnchorColumns(anchor: seq<Column>, outer: seq<Column>): set<string> {
    Names(anchor) - Names(outer)
  }

  function Added(anchor: seq<Column>, outer: seq<Column>): (adds: seq<Column>)
    ensures forall c :: c in adds <==> c in outer && c.name !in Names(anchor)
  {
    if outer == [] then []
    else
      var last := outer[|outer| - 1];
      Added(anchor, outer[..|outer| - 1]) + (if last.name in Names(anchor) then [] else [last])
  }

  // Compared whole, prose and all: these are the stored columns themselves.
  function Revisions(anchor: seq<Column>, outer: seq<Column>): (rewrites: seq<Column>)
    ensures forall c :: c in rewrites <==> c in outer && c.name in Names(anchor) && ByName(anchor, c.name) != Some(c)
  {
    if outer == [] then []
    else
      var last := outer[|outer| - 1];
      Revisions(anchor, outer[..|outer| - 1])
      + (if last.name in Names(anchor) && ByName(anchor, last.name) != Some(last) then [last] else [])
  }

  function SplitOuterAgainstAnchor(anchor: seq<Column>, outer: seq<Column>, allowDrops: bool): Split {
    var dropped := FindDroppedAnchorColumns(anchor, outer);
    if dropped != {} && !allowDrops then Undeterminable(dropped)
    else Split(Added(anchor, outer), Revisions(anchor, outer))
  }

  lemma {:induction false} PartsKeepNamesApart(anchor: seq<Column>, outer: seq<Column>)
    requires NamesDiffer(outer)
    ensures NamesDiffer(Added(anchor, outer)) && NamesDiffer(Revisions(anchor, outer))
  {
    if outer != [] {
      var n: nat := |outer| - 1;
      PartsKeepNamesApart(anchor, outer[..n]);
      forall c | c in outer[..n]
        ensures c.name != outer[n].name
      {
        var i :| 0 <= i < n && outer[i] == c;
      }
      ApartFromLast(Added(anchor, outer[..n]), outer[n]);
      ApartFromLast(Revisions(anchor, outer[..n]), outer[n]);
    }
  }

  lemma {:induction false} ApartFromLast(columns: seq<Column>, last: Column)
    requires NamesDiffer(columns) && forall c :: c in columns ==> c.name != last.name
    ensures NamesDiffer(columns + [last]) && NamesDiffer(columns + [])
  {
    assert columns + [] == columns;
    forall i | 0 <= i < |columns|
      ensures columns[i].name != last.name
    {
      assert columns[i] in columns;
    }
  }

  // In a schema whose names differ, a column is found under its name exactly where it is there.
  lemma {:induction false} FoundWhereItIs(columns: seq<Column>, c: Column)
    requires NamesDiffer(columns)
    ensures c in columns <==> ByName(columns, c.name) == Some(c)
  {
    if c in columns {
      var i :| 0 <= i < |columns| && columns[i] == c;
      NameIsThere(columns, i);
    }
  }

  lemma {:induction false} FoundInAJoin(a: seq<Column>, b: seq<Column>, name: string)
    ensures ByName(a + b, name) == if ByName(b, name).Some? then ByName(b, name) else ByName(a, name)
  {
    if b == [] {
      assert a + b == a;
    } else {
      assert (a + b)[..|a + b| - 1] == a + b[..|b| - 1];
      FoundInAJoin(a, b[..|b| - 1], name);
    }
  }

  lemma {:induction false} FoundRevised(anchor: seq<Column>, rewrites: seq<Column>, name: string)
    ensures ByName(Rewritten(anchor, rewrites), name)
         == if name in Names(anchor) then Some(Revised(ByName(anchor, name).value, rewrites)) else None
  {
    if anchor != [] {
      var n: nat := |anchor| - 1;
      assert Rewritten(anchor, rewrites)[..n] == Rewritten(anchor[..n], rewrites);
      FoundRevised(anchor[..n], rewrites, name);
    }
  }

  // What the output schema has under a name, once the anchor is extended by the parts of the split.
  ghost predicate IsRestored(anchor: seq<Column>, outer: seq<Column>, restored: seq<Column>) {
    forall name: string :: ByName(restored, name) == WhatFlows(anchor, outer, name)
  }

  // The stored column; of a dropped one, the anchor's.
  function WhatFlows(anchor: seq<Column>, outer: seq<Column>, name: string): Option<Column> {
    if name in Names(outer) then ByName(outer, name) else ByName(anchor, name)
  }

  lemma {:induction false} UnderEachName(anchor: seq<Column>, outer: seq<Column>, name: string)
    requires NamesDiffer(anchor) && NamesDiffer(outer)
    ensures ByName(Rewritten(anchor, Revisions(anchor, outer)) + Added(anchor, outer), name)
        == WhatFlows(anchor, outer, name)
  {
    var rewrites, adds := Revisions(anchor, outer), Added(anchor, outer);
    PartsKeepNamesApart(anchor, outer);
    FoundInAJoin(Rewritten(anchor, rewrites), adds, name);
    FoundRevised(anchor, rewrites, name);
    if name in Names(outer) {
      var c := ByName(outer, name).value;
      FoundWhereItIs(adds, c);
      FoundWhereItIs(rewrites, c);
    }
    if ByName(adds, name).Some? { FoundInOuter(outer, ByName(adds, name).value); }
    if ByName(rewrites, name).Some? { FoundInOuter(outer, ByName(rewrites, name).value); }
  }

  lemma {:induction false} FoundInOuter(outer: seq<Column>, c: Column)
    requires NamesDiffer(outer) && c in outer
    ensures c.name in Names(outer) && ByName(outer, c.name) == Some(c)
  {
    FoundWhereItIs(outer, c);
    var i :| 0 <= i < |outer| && outer[i] == c;
    NameIsThere(outer, i);
  }

  lemma {:induction false} ExtensionIsValid(anchor: seq<Column>, outer: seq<Column>, rewrites: seq<Column>,
                                            adds: seq<Column>)
    requires NamesDiffer(anchor) && NamesDiffer(adds) && forall c :: c in adds ==> c.name !in Names(anchor)
    ensures Extend(anchor, rewrites, adds).Some?
  {
    var columns := Rewritten(anchor, rewrites) + adds;
    forall i, j | 0 <= i < j < |columns|
      ensures columns[i].name != columns[j].name
    {
      if i < |anchor| && j >= |anchor| {
        assert adds[j - |anchor|] in adds;
        NameIsThere(anchor, i);
      }
    }
  }

  // The migration of a stage of opaque code: it refuses exactly where a column was dropped. Otherwise,
  // extending the anchor by what it made gives under each name exactly the column that was stored, and
  // where drops are allowed the output is wider by exactly the dropped columns.
  lemma {:induction false} MigrationKeepsTheSchema(anchor: seq<Column>, outer: seq<Column>, allowDrops: bool)
    requires NamesDiffer(anchor) && NamesDiffer(outer)
    ensures var split := SplitOuterAgainstAnchor(anchor, outer, allowDrops);
      var dropped := FindDroppedAnchorColumns(anchor, outer);
      && (split.Undeterminable? <==> dropped != {} && !allowDrops)
      && (split.Split? ==>
            && Extend(anchor, split.rewrites, split.adds).Some?
            && IsRestored(anchor, outer, Extend(anchor, split.rewrites, split.adds).value)
            && Names(Extend(anchor, split.rewrites, split.adds).value) == Names(outer) + dropped)
  {
    var rewrites, adds := Revisions(anchor, outer), Added(anchor, outer);
    PartsKeepNamesApart(anchor, outer);
    ExtensionIsValid(anchor, outer, rewrites, adds);
    var restored := Extend(anchor, rewrites, adds).value;
    forall name: string
      ensures ByName(restored, name) == WhatFlows(anchor, outer, name)
    {
      UnderEachName(anchor, outer, name);
    }
    forall name: string
      ensures name in Names(restored) <==> name in Names(outer) || name in Names(anchor)
    {
      NamedIffFound(restored, name);
      NamedIffFound(outer, name);
      NamedIffFound(anchor, name);
    }
    assert Names(restored) == Names(outer) + FindDroppedAnchorColumns(anchor, outer);
  }

  lemma {:induction false} NamedIffFound(columns: seq<Column>, name: string)
    ensures name in Names(columns) <==> ByName(columns, name).Some?
  {
    if columns != [] { NamedIffFound(columns[..|columns| - 1], name); }
  }

  // The stage types that keep less of the split than opaque code does.
  datatype StageType = RowFunction | LlmTransform | FilterRows

  // An llm stage's signature only adds, and a filter's only reads.
  function KeptSplit(stageType: StageType, split: Split): Split
    requires split.Split?
  {
    match stageType
    case RowFunction => split
    case LlmTransform => split.(rewrites := [])
    case FilterRows => Split([], [])
  }

  // For those the stored schema survives exactly when there was nothing to leave out: an llm stage whose
  // schema restated an anchor column, or a filter's that added one, comes out with another schema.
  lemma {:induction false} WhatTheOtherTypesKeep(anchor: seq<Column>, outer: seq<Column>, stageType: StageType)
    requires NamesDiffer(anchor) && NamesDiffer(outer) && FindDroppedAnchorColumns(anchor, outer) == {}
    ensures var split := SplitOuterAgainstAnchor(anchor, outer, false); var kept := KeptSplit(stageType, split);
      && Extend(anchor, kept.rewrites, kept.adds).Some?
      && (IsRestored(anchor, outer, Extend(anchor, kept.rewrites, kept.adds).value) <==> kept == split)
  {
    MigrationKeepsTheSchema(anchor, outer, false);
    var split := SplitOuterAgainstAnchor(anchor, outer, false);
    var kept := KeptSplit(stageType, split);
    PartsKeepNamesApart(anchor, outer);
    ExtensionIsValid(anchor, outer, kept.rewrites, kept.adds);
    var restored := Extend(anchor, kept.rewrites, kept.adds).value;
    if IsRestored(anchor, outer, restored) {
      if kept.adds != split.adds {
        var c := split.adds[0];
        assert c in split.adds;
        LostColumn(anchor, outer, kept, c);
        assert ByName(restored, c.name) == WhatFlows(anchor, outer, c.name);
        FoundInOuter(outer, c);
      }
      if kept.rewrites != split.rewrites {
        var c := split.rewrites[0];
        assert c in split.rewrites;
        LostColumn(anchor, outer, kept, c);
        assert ByName(restored, c.name) == WhatFlows(anchor, outer, c.name);
        FoundInOuter(outer, c);
      }
    }
  }

  // A column the kept parts leave out is the anchor's, or not there.
  lemma {:induction false} LostColumn(anchor: seq<Column>, outer: seq<Column>, kept: Split, c: Column)
    requires kept.Split? && kept.rewrites == [] && NamesDiffer(anchor) && NamesDiffer(outer) && c in outer
    requires kept.adds == [] || (kept.adds == Added(anchor, outer) && c.name in Names(anchor))
    ensures ByName(Rewritten(anchor, kept.rewrites) + kept.adds, c.name) == ByName(anchor, c.name)
  {
    FoundInAJoin(Rewritten(anchor, kept.rewrites), kept.adds, c.name);
    FoundRevised(anchor, kept.rewrites, c.name);
    NamedIffFound(anchor, c.name);
  }
}
