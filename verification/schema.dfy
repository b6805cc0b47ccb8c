/** Column and table schemas. */
module Schema {
  import opened Seqs
  import opened Wrappers

  // When two columns mean the same, when one schema satisfies another, and what adding columns to a schema
  // or taking some away leaves.

  // `description` and `source` are prose; everything else but the name is the column's spec.
  datatype Column = Column(
    name: string, typ: string, nullable: bool, range: Option<seq<int>>, enum: Option<seq<string>>,
    fields: Fields, valueType: Option<string>, description: string, source: string)

  datatype Fields = NoFields | Fields(columns: seq<Column>)

  // {c.name: c for c in columns}: of two of a name, the later.
  function ByName(columns: seq<Column>, name: string): (found: Option<Column>)
    ensures found.Some? ==> found.value in columns && found.value.name == name
    ensures found.None? <==> name !in Names(columns)
  {
    if columns == [] then None
    else if columns[|columns| - 1].name == name then Some(columns[|columns| - 1])
    else ByName(columns[..|columns| - 1], name)
  }

  function Names(columns: seq<Column>): set<string> {
    if columns == [] then {} else Names(columns[..|columns| - 1]) + {columns[|columns| - 1].name}
  }

  ghost predicate NamesDiffer(columns: seq<Column>) {
    forall i, j :: 0 <= i < j < |columns| ==> columns[i].name != columns[j].name
  }

  lemma {:induction false} NameIsThere(columns: seq<Column>, i: nat)
    requires i < |columns|
    ensures columns[i].name in Names(columns)
    ensures NamesDiffer(columns) ==> ByName(columns, columns[i].name) == Some(columns[i])
  {
    if i < |columns| - 1 { NameIsThere(columns[..|columns| - 1], i); }
  }

  lemma {:induction false} NamedByOne(columns: seq<Column>, name: string) returns (i: nat)
    requires name in Names(columns)
    ensures i < |columns| && columns[i].name == name && ByName(columns, name) == Some(columns[i])
  {
    var n: nat := |columns| - 1;
    if columns[n].name == name {
      i := n;
    } else {
      i := NamedByOne(columns[..n], name);
    }
  }

  lemma {:induction false} NamedByNone(columns: seq<Column>, name: string)
    requires forall i :: 0 <= i < |columns| ==> columns[i].name != name
    ensures name !in Names(columns)
  {
    if columns != [] { NamedByNone(columns[..|columns| - 1], name); }
  }

  // ---------------------------------------------------------------- what two columns differ in

  datatype SpecField = Type | Nullable | Range | Enum | FieldsField | ValueType

  const SPEC_FIELDS := [Type, Nullable, Range, Enum, FieldsField, ValueType]

  predicate DifferIn(a: Column, b: Column, field: SpecField)
    decreases a, 1
  {
    match field
    case Type => a.typ != b.typ
    case Nullable => a.nullable != b.nullable
    case Range => a.range != b.range
    case Enum => a.enum != b.enum
    case FieldsField => !FieldsSpecEqual(a.fields, b.fields)
    case ValueType => a.valueType != b.valueType
  }

  predicate SpecEqual(a: Column, b: Column)
    decreases a, 2
  {
    forall field: SpecField :: !DifferIn(a, b, field)
  }

  // Sub-columns go by name, in whatever order.
  predicate FieldsSpecEqual(a: Fields, b: Fields)
    decreases a, 0
  {
    if a.NoFields? || b.NoFields? then a.NoFields? && b.NoFields?
    else
      && Names(a.columns) == Names(b.columns)
      && forall name | name in Names(a.columns) ::
           SpecEqual(ByName(a.columns, name).value, ByName(b.columns, name).value)
  }

  // The fields of the spec two columns differ in, in the order the model declares them.
  method ColumnSpecDifferences(a: Column, b: Column) returns (diffs: seq<SpecField>)
    ensures forall field :: field in diffs <==> DifferIn(a, b, field)
    ensures diffs == [] <==> SpecEqual(a, b)
  {
    diffs := [];
    for k := 0 to |SPEC_FIELDS|
      invariant forall field :: field in diffs <==> field in SPEC_FIELDS[..k] && DifferIn(a, b, field)
    {
      if DifferIn(a, b, SPEC_FIELDS[k]) {
        diffs := diffs + [SPEC_FIELDS[k]];
      }
    }
    assert SPEC_FIELDS[..|SPEC_FIELDS|] == SPEC_FIELDS;
    forall field
      ensures field in diffs <==> DifferIn(a, b, field)
    {
      EveryFieldIsListed(field);
    }
    if diffs != [] { assert diffs[0] in diffs; }
  }

  lemma EveryFieldIsListed(field: SpecField)
    ensures field in SPEC_FIELDS
  {
    assert SPEC_FIELDS[0] == Type && SPEC_FIELDS[1] == Nullable && SPEC_FIELDS[2] == Range;
    assert SPEC_FIELDS[3] == Enum && SPEC_FIELDS[4] == FieldsField && SPEC_FIELDS[5] == ValueType;
  }

  // ---------------------------------------------------------------- the meaning of a column

  // A column without its name and its prose, its sub-columns a map: what is left to compare.
  datatype Spec = Spec(typ: string, nullable: bool, range: Option<seq<int>>, enum: Option<seq<string>>,
                       fields: SpecFields, valueType: Option<string>)

  datatype SpecFields = NoSpecs | Specs(byName: map<string, Spec>)

  function SpecOf(c: Column): Spec
    decreases c, 1
  {
    Spec(c.typ, c.nullable, c.range, c.enum, SpecOfFields(c.fields), c.valueType)
  }

  function SpecOfFields(fs: Fields): SpecFields
    decreases fs, 0
  {
    if fs.NoFields? then NoSpecs
    else Specs(map name | name in Names(fs.columns) :: SpecOf(ByName(fs.columns, name).value))
  }

  // The recursive comparison is equality of meaning: so it is reflexive, symmetric and transitive, and
  // blind to prose and to the order of sub-columns at every depth.
  lemma {:induction false} SpecEqualIsSameSpec(a: Column, b: Column)
    ensures SpecEqual(a, b) <==> SpecOf(a) == SpecOf(b)
    decreases a, 1
  {
    FieldsAreSameSpec(a.fields, b.fields);
    if SpecEqual(a, b) {
      assert !DifferIn(a, b, Type) && !DifferIn(a, b, Nullable) && !DifferIn(a, b, Range);
      assert !DifferIn(a, b, Enum) && !DifferIn(a, b, FieldsField) && !DifferIn(a, b, ValueType);
    }
  }

  lemma {:induction false} FieldsAreSameSpec(a: Fields, b: Fields)
    ensures FieldsSpecEqual(a, b) <==> SpecOfFields(a) == SpecOfFields(b)
    decreases a, 0
  {
    if a.Fields? && b.Fields? {
      forall name | name in Names(a.columns) && name in Names(b.columns)
        ensures SpecEqual(ByName(a.columns, name).value, ByName(b.columns, name).value)
           <==> SpecOf(ByName(a.columns, name).value) == SpecOf(ByName(b.columns, name).value)
      {
        SpecEqualIsSameSpec(ByName(a.columns, name).value, ByName(b.columns, name).value);
      }
      SpecsByName(a.columns, b.columns);
    }
  }

  lemma {:induction false} SpecsByName(a: seq<Column>, b: seq<Column>)
    ensures SpecOfFields(Fields(a)) == SpecOfFields(Fields(b)) <==>
      && Names(a) == Names(b)
      && forall name :: name in Names(a) && name in Names(b)
          ==> SpecOf(ByName(a, name).value) == SpecOf(ByName(b, name).value)
  {
    var x, y := SpecOfFields(Fields(a)).byName, SpecOfFields(Fields(b)).byName;
    assert x.Keys == Names(a) && y.Keys == Names(b);
    if Names(a) == Names(b) {
      assert x == y <==> forall name :: name in Names(a) ==> x[name] == y[name];
    }
  }

  lemma {:induction false} SpecEqualityIsAnEquivalence(a: Column, b: Column, c: Column)
    ensures SpecEqual(a, a)
    ensures SpecEqual(a, b) ==> SpecEqual(b, a)
    ensures SpecEqual(a, b) && SpecEqual(b, c) ==> SpecEqual(a, c)
  {
    SpecEqualIsSameSpec(a, a);
    SpecEqualIsSameSpec(a, b);
    SpecEqualIsSameSpec(b, a);
    SpecEqualIsSameSpec(b, c);
    SpecEqualIsSameSpec(a, c);
  }

  // Prose and the order of sub-columns say nothing.
  lemma {:induction false} ProseAndOrderSayNothing(c: Column, columns: seq<Column>, name: string, description: string,
                                                   source: string)
    requires c.fields.Fields? && NamesDiffer(c.fields.columns) && NamesDiffer(columns)
    requires forall sub :: sub in columns <==> sub in c.fields.columns
    ensures SpecEqual(c, c.(name := name, description := description, source := source, fields := Fields(columns)))
  {
    var other := c.(name := name, description := description, source := source, fields := Fields(columns));
    forall key: string
      ensures ByName(columns, key) == ByName(c.fields.columns, key)
    {
      SameColumnsSameNames(columns, c.fields.columns, key);
      SameColumnsSameNames(c.fields.columns, columns, key);
    }
    assert Names(columns) == Names(c.fields.columns) by {
      forall key: string
        ensures key in Names(columns) <==> key in Names(c.fields.columns)
      {
        assert ByName(columns, key) == ByName(c.fields.columns, key);
      }
    }
    assert SpecOfFields(c.fields).byName == SpecOfFields(other.fields).byName;
    SpecEqualIsSameSpec(c, other);
  }

  lemma {:induction false} SameColumnsSameNames(a: seq<Column>, b: seq<Column>, name: string)
    requires NamesDiffer(a) && forall c :: c in b ==> c in a
    ensures ByName(b, name).Some? ==> ByName(a, name) == ByName(b, name)
  {
    if name in Names(b) {
      var i := NamedByOne(b, name);
      assert b[i] in b;
      var j :| 0 <= j < |a| && a[j] == b[i];
      NameIsThere(a, j);
    }
  }

  // ---------------------------------------------------------------- satisfaction

  datatype Nullability = Compatible | Exact

  // What one required column gets from the producer's column of its name.
  predicate IsSatisfiedBy(required: Column, supplied: Column, nullability: Nullability) {
    if nullability.Compatible? then
      SpecEqual(required, supplied.(nullable := required.nullable)) && (required.nullable || !supplied.nullable)
    else SpecEqual(required, supplied)
  }

  predicate IsSupplied(required: Column, producer: seq<Column>, nullability: Nullability) {
    var supplied := ByName(producer, required.name);
    supplied.Some? && IsSatisfiedBy(required, supplied.value, nullability)
  }

  ghost predicate Satisfies(columns: seq<Column>, producer: seq<Column>, nullability: Nullability) {
    forall i :: 0 <= i < |columns| ==> IsSupplied(columns[i], producer, nullability)
  }

  // The columns no column of the producer satisfies.
  method FindUnsatisfiedColumns(columns: seq<Column>, producer: seq<Column>, nullability: Nullability)
    returns (unsatisfied: seq<string>)
    ensures unsatisfied == [] <==> Satisfies(columns, producer, nullability)
    ensures forall name :: name in unsatisfied <==>
      exists i :: 0 <= i < |columns| && columns[i].name == name && !IsSupplied(columns[i], producer, nullability)
  {
    unsatisfied := [];
    for i := 0 to |columns|
      invariant forall name :: name in unsatisfied <==>
        exists j :: 0 <= j < i && columns[j].name == name && !IsSupplied(columns[j], producer, nullability)
    {
      var required := columns[i];
      var supplied := ByName(producer, required.name);
      if supplied.None? {
        unsatisfied := unsatisfied + [required.name];
        continue;
      }
      var diffs := ColumnSpecDifferences(required, supplied.value);
      diffs := ForgiveNullable(required, supplied.value, diffs, nullability);
      if diffs != [] {
        unsatisfied := unsatisfied + [required.name];
      }
    }
    if unsatisfied != [] {
      assert unsatisfied[0] in unsatisfied;
    }
    forall i | 0 <= i < |columns| && !IsSupplied(columns[i], producer, nullability)
      ensures unsatisfied != []
    {
      assert columns[i].name in unsatisfied;
    }
  }

  // A producer that never emits null may stand in for one that may.
  method ForgiveNullable(required: Column, supplied: Column, diffs: seq<SpecField>, nullability: Nullability)
    returns (left: seq<SpecField>)
    requires forall field :: field in diffs <==> DifferIn(required, supplied, field)
    ensures left == [] <==> IsSatisfiedBy(required, supplied, nullability)
  {
    left := diffs;
    if nullability.Compatible? && Nullable in diffs {
      left := Without(diffs, Nullable);
      if !required.nullable && supplied.nullable {
        left := left + [Nullable];
      }
    }
    var lent := supplied.(nullable := required.nullable);
    forall field: SpecField
      ensures DifferIn(required, lent, field) <==> field != Nullable && DifferIn(required, supplied, field)
    {
    }
    if nullability.Exact? {
      NoneLeft(required, supplied, left);
    } else {
      assert DifferIn(required, supplied, Nullable) <==> required.nullable != supplied.nullable;
      assert Nullable in left <==> !required.nullable && supplied.nullable;
      forall field: SpecField
        ensures field != Nullable ==> (field in left <==> DifferIn(required, lent, field))
      {
      }
      if Nullable !in left { NoneLeft(required, lent, left); }
    }
  }

  lemma {:induction false} NoneLeft(a: Column, b: Column, left: seq<SpecField>)
    requires forall field: SpecField :: field in left <==> DifferIn(a, b, field)
    ensures left == [] <==> SpecEqual(a, b)
  {
    if left == [] {
      forall field: SpecField
        ensures !DifferIn(a, b, field)
      {
        assert field !in left;
      }
    } else {
      assert left[0] in left;
    }
  }

  function Without(fields: seq<SpecField>, dropped: SpecField): (left: seq<SpecField>)
    ensures forall field :: field in left <==> field in fields && field != dropped
  {
    if fields == [] then []
    else (if fields[0] == dropped then [] else [fields[0]]) + Without(fields[1..], dropped)
  }

  // One link of a chain of producers.
  lemma {:induction false} SatisfactionPassesOn(a: Column, b: Column, c: Column, nullability: Nullability)
    ensures IsSatisfiedBy(a, a, nullability)
    ensures IsSatisfiedBy(a, b, nullability) && IsSatisfiedBy(b, c, nullability) ==> IsSatisfiedBy(a, c, nullability)
  {
    SpecEqualityIsAnEquivalence(a, b, c);
    SpecEqualityIsAnEquivalence(a, a.(nullable := a.nullable), a);
    var lent := b.(nullable := a.nullable);
    SpecEqualIsSameSpec(a, lent);
    SpecEqualIsSameSpec(b, c.(nullable := b.nullable));
    SpecEqualIsSameSpec(a, c.(nullable := a.nullable));
  }

  // Satisfaction is a preorder, both ways of taking nulls: a schema satisfies itself, and what a
  // producer's producer supplies is enough.
  lemma {:induction false} SatisfactionIsAPreorder(a: seq<Column>, b: seq<Column>, c: seq<Column>,
                                                   nullability: Nullability)
    ensures NamesDiffer(a) ==> Satisfies(a, a, nullability)
    ensures Satisfies(a, b, nullability) && Satisfies(b, c, nullability) ==> Satisfies(a, c, nullability)
  {
    if NamesDiffer(a) {
      forall i | 0 <= i < |a|
        ensures IsSupplied(a[i], a, nullability)
      {
        NameIsThere(a, i);
        SatisfactionPassesOn(a[i], a[i], a[i], nullability);
      }
    }
    if Satisfies(a, b, nullability) && Satisfies(b, c, nullability) {
      forall i | 0 <= i < |a|
        ensures IsSupplied(a[i], c, nullability)
      {
        assert IsSupplied(a[i], b, nullability);
        var j := NamedByOne(b, a[i].name);
        assert IsSupplied(b[j], c, nullability);
        SatisfactionPassesOn(a[i], b[j], ByName(c, b[j].name).value, nullability);
      }
    }
  }

  // ---------------------------------------------------------------- extending and taking away

  // What is built is refused when two columns share a name.
  function Validated(columns: seq<Column>): (schema: Option<seq<Column>>)
    ensures schema.Some? ==> schema.value == columns
    ensures schema.Some? <==> NamesDiffer(columns)
  {
    if exists i, j :: 0 <= i < j < |columns| && columns[i].name == columns[j].name then None else Some(columns)
  }

  // Each column, or what rewrites it, in place.
  function Rewritten(columns: seq<Column>, rewrites: seq<Column>): (out: seq<Column>)
    ensures |out| == |columns|
    ensures forall i :: 0 <= i < |columns| ==> out[i] == Revised(columns[i], rewrites)
    ensures forall i :: 0 <= i < |columns| ==> out[i].name == columns[i].name
  {
    seq(|columns|, i requires 0 <= i < |columns| => Revised(columns[i], rewrites))
  }

  function Revised(column: Column, rewrites: seq<Column>): Column {
    match ByName(rewrites, column.name)
    case Some(rewrite) => rewrite
    case None => column
  }

  function Extend(columns: seq<Column>, rewrites: seq<Column>, adds: seq<Column>): Option<seq<Column>> {
    Validated(Rewritten(columns, rewrites) + adds)
  }

  predicate IsMatched(c: Column, other: seq<Column>) {
    var match' := ByName(other, c.name);
    match'.Some? && SpecEqual(c, match'.value)
  }

  function Unmatched(columns: seq<Column>, other: seq<Column>): seq<Column> {
    if columns == [] then []
    else
      var last := columns[|columns| - 1];
      Unmatched(columns[..|columns| - 1], other) + (if IsMatched(last, other) then [] else [last])
  }

  // None where the source raises.
  ghost function Subtract(columns: seq<Column>, other: seq<Column>, strict: bool): Option<seq<Column>> {
    if strict && !Satisfies(other, columns, Exact) then None else Some(Unmatched(columns, other))
  }

  // The columns of a schema whose rewrite changes what they mean.
  function SpecChanging(columns: seq<Column>, rewrites: seq<Column>): seq<Column> {
    if columns == [] then []
    else
      var last := columns[|columns| - 1];
      SpecChanging(columns[..|columns| - 1], rewrites)
      + (if SpecEqual(Revised(last, rewrites), last) then [] else [Revised(last, rewrites)])
  }

  lemma {:induction false} UnmatchedJoins(a: seq<Column>, b: seq<Column>, other: seq<Column>)
    ensures Unmatched(a + b, other) == Unmatched(a, other) + Unmatched(b, other)
  {
    if b == [] {
      assert a + b == a;
    } else {
      var init, last := b[..|b| - 1], b[|b| - 1];
      UnmatchedJoins(a, init, other);
      assert (a + b)[..|a + b| - 1] == a + init && (a + b)[|a + b| - 1] == last;
      Associates(Unmatched(a, other), Unmatched(init, other), if IsMatched(last, other) then [] else [last]);
    }
  }

  ghost predicate NamedByNoneOf(adds: seq<Column>, other: seq<Column>) {
    adds == [] || (adds[|adds| - 1].name !in Names(other) && NamedByNoneOf(adds[..|adds| - 1], other))
  }

  lemma {:induction false} NoneIsNamed(adds: seq<Column>, other: seq<Column>)
    requires forall i :: 0 <= i < |adds| ==> adds[i].name !in Names(other)
    ensures NamedByNoneOf(adds, other)
  {
    if adds != [] { NoneIsNamed(adds[..|adds| - 1], other); }
  }

  lemma {:induction false} NewNamesAreUnmatched(adds: seq<Column>, other: seq<Column>)
    requires NamedByNoneOf(adds, other)
    ensures Unmatched(adds, other) == adds
  {
    if adds != [] {
      var init, last := adds[..|adds| - 1], adds[|adds| - 1];
      NewNamesAreUnmatched(init, other);
      NewIsUnmatched(last, other);
      assert adds == init + [last];
    }
  }

  lemma {:induction false} NewIsUnmatched(c: Column, other: seq<Column>)
    requires c.name !in Names(other)
    ensures !IsMatched(c, other)
  {
    assert ByName(other, c.name).None?;
  }

  lemma {:induction false} RewrittenUnmatched(front: seq<Column>, columns: seq<Column>, rewrites: seq<Column>)
    requires NamesDiffer(columns) && front <= columns
    ensures Unmatched(Rewritten(front, rewrites), columns) == SpecChanging(front, rewrites)
  {
    if front != [] {
      var n: nat := |front| - 1;
      RewrittenUnmatched(front[..n], columns, rewrites);
      assert Rewritten(front, rewrites)[..n] == Rewritten(front[..n], rewrites);
      NameIsThere(columns, n);
      assert front[n] == columns[n];
    }
  }

  // Taking the original from its extension leaves what was added and what was rewritten to mean
  // something else. Asked strictly, it is refused exactly when there is any of the latter.
  lemma {:induction false} SubtractUndoesExtend(columns: seq<Column>, rewrites: seq<Column>, adds: seq<Column>)
    requires NamesDiffer(columns) && Extend(columns, rewrites, adds).Some?
    ensures var extended := Extend(columns, rewrites, adds).value;
      && Subtract(extended, columns, false) == Some(SpecChanging(columns, rewrites) + adds)
      && Subtract(extended, columns, true) == (if SpecChanging(columns, rewrites) == [] then Some(adds) else None)
  {
    var out := Rewritten(columns, rewrites);
    var extended := out + adds;
    forall i | 0 <= i < |adds|
      ensures adds[i].name !in Names(columns)
    {
      forall j | 0 <= j < |columns|
        ensures columns[j].name != adds[i].name
      {
        assert extended[j].name == columns[j].name && extended[|out| + i] == adds[i];
      }
      NamedByNone(columns, adds[i].name);
    }
    NoneIsNamed(adds, columns);
    NewNamesAreUnmatched(adds, columns);
    RewrittenUnmatched(columns, columns, rewrites);
    UnmatchedJoins(out, adds, columns);
    forall i | 0 <= i < |columns|
      ensures IsSupplied(columns[i], extended, Exact) <==> SpecEqual(Revised(columns[i], rewrites), columns[i])
    {
      NameIsThere(extended, i);
      assert extended[i] == Revised(columns[i], rewrites);
      SpecEqualityIsAnEquivalence(columns[i], extended[i], columns[i]);
      SpecEqualityIsAnEquivalence(extended[i], columns[i], extended[i]);
    }
    NoneChanges(columns, rewrites);
    assert SpecChanging(columns, rewrites) == [] ==> [] + adds == adds;
  }

  lemma {:induction false} NoneChanges(columns: seq<Column>, rewrites: seq<Column>)
    ensures SpecChanging(columns, rewrites) == [] <==>
            forall i :: 0 <= i < |columns| ==> SpecEqual(Revised(columns[i], rewrites), columns[i])
  {
    if columns != [] {
      var n: nat := |columns| - 1;
      NoneChanges(columns[..n], rewrites);
      if SpecChanging(columns, rewrites) == [] {
        forall i | 0 <= i < |columns|
          ensures SpecEqual(Revised(columns[i], rewrites), columns[i])
        {
          if i < n { assert columns[..n][i] == columns[i]; }
        }
      }
    }
  }
}
