/** The recorder that the rows of a stage report to, one at a time. */
module Recorder {
  import opened BranchIds
  import opened Loading
  import opened Meaning
  import opened RowCode
  import opened Wrappers

  // The arms of one row, or None for a row no code ran on: [] is a row that ran and entered no arm.
  type Taken = Option<seq<Id>>

  function TakenAt(byInput: map<nat, seq<Id>>, index: nat): Taken {
    if index in byInput then Some(byInput[index]) else None
  }

  // Reindexed onto the rows kept.
  function Kept(byInput: map<nat, seq<Id>>, kept: seq<nat>): (taken: seq<Taken>)
    ensures |taken| == |kept| && forall k :: 0 <= k < |kept| ==> taken[k] == TakenAt(byInput, kept[k])
  {
    seq(|kept|, k requires 0 <= k < |kept| => TakenAt(byInput, kept[k]))
  }

  // Reports go to the row that is open, and there is at most one.
  class BranchRecorder {
    var openRow: Option<nat>
    var taken: seq<Id>
    var byInput: map<nat, seq<Id>>

    constructor ()
      ensures openRow == None && taken == [] && byInput == map[]
    {
      openRow, taken, byInput := None, [], map[];
    }

    // False where the source raises: a row is open already.
    method OpenRow(index: nat) returns (ok: bool)
      modifies this`openRow, this`taken
      ensures ok == old(openRow).None?
      ensures ok ==> openRow == Some(index) && taken == []
      ensures !ok ==> openRow == old(openRow) && taken == old(taken)
    {
      if openRow.Some? {
        return false;
      }
      openRow, taken := Some(index), [];
      return true;
    }

    method Record(id: Id) returns (ok: bool)
      modifies this`taken
      ensures ok == openRow.Some?
      ensures taken == if ok then old(taken) + [id] else old(taken)
    {
      if openRow.None? {
        return false;
      }
      taken := taken + [id];
      return true;
    }

    method CloseRow() returns (ok: bool)
      modifies this
      ensures ok == old(openRow).Some?
      ensures ok ==> openRow == None && taken == [] && byInput == old(byInput)[old(openRow).value := old(taken)]
      ensures !ok ==> openRow == old(openRow) && taken == old(taken) && byInput == old(byInput)
    {
      if openRow.None? {
        return false;
      }
      byInput := byInput[openRow.value := taken];
      openRow, taken := None, [];
      return true;
    }

    // For a row answered by the cache: what was filed with the entry is filed again.
    method ReplayRow(index: nat, branches: Taken)
      modifies this`byInput
      ensures byInput == if branches.Some? then old(byInput)[index := branches.value] else old(byInput)
    {
      if branches.Some? {
        byInput := byInput[index := branches.value];
      }
    }

    // None where every row filed is empty.
    method RowsKept(kept: seq<nat>) returns (rows: Option<seq<Taken>>)
      ensures rows.None? <==> forall index :: index in byInput ==> byInput[index] == []
      ensures rows.Some? ==> rows.value == Kept(byInput, kept)
    {
      var unseen := byInput.Keys;
      var branched := false;
      while unseen != {} && !branched
        invariant unseen <= byInput.Keys
        invariant branched ==> exists index :: index in byInput && byInput[index] != []
        invariant !branched ==> forall index :: index in byInput && index !in unseen ==> byInput[index] == []
        decreases unseen, !branched
      {
        var index :| index in unseen;
        branched := byInput[index] != [];
        unseen := unseen - {index};
      }
      if !branched {
        return None;
      }
      return Some(Kept(byInput, kept));
    }

    // One row's code, with its reports in the order it makes them. However it ends, the row is closed.
    method RunRow<V(==), S>(m: Machine<V, S>, code: Scope, depth: nat, call: Expr, index: nat, state: S)
      returns (result: Result<V>, after: S)
      requires openRow == None
      modifies this
      ensures openRow == None
      ensures var ran := Eval(Opened(m), code, depth, call, state);
        result == ran.result && after == ran.state && byInput == old(byInput)[index := ran.log]
    {
      var opened' := OpenRow(index);
      var ran := Eval(Opened(m), code, depth, call, state);
      for i := 0 to |ran.log|
        invariant openRow == Some(index) && taken == ran.log[..i] && byInput == old(byInput)
      {
        var recorded := Record(ran.log[i]);
        assert ran.log[..i + 1] == ran.log[..i] + [ran.log[i]];
      }
      assert ran.log[..|ran.log|] == ran.log;
      var closed := CloseRow();
      result, after := ran.result, ran.state;
    }
  }

  // A stage's rows: each is a call of the row function from a state of its own.
  datatype Row<S> = Row(index: nat, arg: Expr, state: S)

  ghost predicate IndexesDiffer<S>(rows: seq<Row<S>>) {
    forall i, j :: 0 <= i < j < |rows| ==> rows[i].index != rows[j].index
  }

  function CallFor<S>(name: string, row: Row<S>): Expr { Call(name, "(", row.arg, ")") }

  // What authored code does on a row, and which arms it enters there.
  function AuthoredRun<V(==), S>(m: Machine<V, S>, items: seq<Item>, depth: nat, name: string,
                                 row: Row<S>): Ran<Result<V>, S> {
    Trace(Opened(m), ScopeOf(items), depth, CallFor(name, row), Unwalked, 0, 0, row.state)
  }

  // A stage's code is loaded and its rows run on it, rewritten. Once it has loaded, each row answers as
  // the authored code does, even after rows that raised, and each row kept holds the arms it entered
  // itself.
  method RunStage<V(==, !new), S(!new)>(m: Machine<V, S>, items: seq<Item>, depth: nat, before: S, name: string,
                                        rows: seq<Row<S>>, kept: seq<nat>)
    returns (loading: Ending<V>, results: seq<Result<V>>, branches: Option<seq<Taken>>)
    requires ModuleIsAuthored(items) && LeavesTheName(items) && name != RECORDER
    requires IndexesDiffer(rows) && RowsAreAuthored(rows)
    requires forall k :: k in kept ==> exists i :: 0 <= i < |rows| && rows[i].index == k
    ensures Entering(m, items, depth, before) == [] ==> loading == Authored(m, items, depth, before).result
    ensures Entering(m, items, depth, before) != [] && IsUncaught(m) ==> loading == Raise(m.recordingError)
    ensures !loading.Normal? ==> results == [] && branches == None
    ensures loading.Normal? ==> AnswerAsAuthored(m, items, depth, name, rows, results)
    ensures loading.Normal? ==> HoldWhatTheyEntered(m, items, depth, name, rows, kept, branches)
  {
    AModuleLoadsExactlyWhenItEntersNoBranch(m, items, depth, before);
    loading := Load(Closed(m), Nothing(), InstrumentModule(items, ""), depth, before).result;
    results, branches := [], None;
    if loading.Normal? {
      results, branches := RunRows(m, items, depth, name, rows, kept);
    }
  }

  ghost predicate RowsAreAuthored<S>(rows: seq<Row<S>>) {
    forall row :: row in rows ==> IsAuthored(row.arg)
  }

  ghost predicate AnswerAsAuthored<V, S>(m: Machine<V, S>, items: seq<Item>, depth: nat, name: string,
                                         rows: seq<Row<S>>, results: seq<Result<V>>)
  {
    && |results| == |rows|
    && forall i :: 0 <= i < |rows| ==>
         results[i] == Eval(m, ScopeOf(items), depth, CallFor(name, rows[i]), rows[i].state).result
  }

  // Nothing at all is kept exactly where no row entered an arm.
  ghost predicate HoldWhatTheyEntered<V, S>(m: Machine<V, S>, items: seq<Item>, depth: nat, name: string,
                                            rows: seq<Row<S>>, kept: seq<nat>, branches: Option<seq<Taken>>)
  {
    && (branches.None? <==> forall i :: 0 <= i < |rows| ==> AuthoredRun(m, items, depth, name, rows[i]).log == [])
    && (branches.Some? ==> |branches.value| == |kept|)
    && (branches.Some? ==> forall i, k :: 0 <= i < |rows| && 0 <= k < |kept| && rows[i].index == kept[k] ==>
          branches.value[k] == Some(AuthoredRun(m, items, depth, name, rows[i]).log))
  }

  method RunRows<V(==), S>(m: Machine<V, S>, items: seq<Item>, depth: nat, name: string, rows: seq<Row<S>>,
                           kept: seq<nat>) returns (results: seq<Result<V>>, branches: Option<seq<Taken>>)
    requires ModuleIsAuthored(items) && LeavesTheName(items) && name != RECORDER
    requires IndexesDiffer(rows) && RowsAreAuthored(rows)
    requires forall k :: k in kept ==> exists i :: 0 <= i < |rows| && rows[i].index == k
    ensures AnswerAsAuthored(m, items, depth, name, rows, results)
    ensures HoldWhatTheyEntered(m, items, depth, name, rows, kept, branches)
  {
    var recorder := new BranchRecorder();
    var code := ScopeOf(InstrumentModule(items, ""));
    results := [];
    for i := 0 to |rows|
      invariant fresh(recorder) && recorder.openRow == None
      invariant AnswerAsAuthored(m, items, depth, name, rows[..i], results)
      invariant FiledSoFar(m, items, depth, name, rows, i, recorder.byInput)
    {
      ghost var filed := recorder.byInput;
      ARowIsAuthored(m, items, depth, name, rows[i]);
      var result, _ := recorder.RunRow(m, code, depth, CallFor(name, rows[i]), rows[i].index, rows[i].state);
      OneRowMore(m, items, depth, name, rows, i, filed, results, result);
      results := results + [result];
    }
    assert rows[..|rows|] == rows;
    branches := recorder.RowsKept(kept);
    AllAreFiled(m, items, depth, name, rows, kept, recorder.byInput, branches);
  }

  // Each of the first `n` rows has its own arms filed under its index, and nothing else is filed.
  ghost predicate FiledSoFar<V, S>(m: Machine<V, S>, items: seq<Item>, depth: nat, name: string, rows: seq<Row<S>>,
                                   n: nat, byInput: map<nat, seq<Id>>)
    requires n <= |rows|
  {
    && (forall j :: 0 <= j < n ==>
          rows[j].index in byInput && byInput[rows[j].index] == AuthoredRun(m, items, depth, name, rows[j]).log)
    && forall index :: index in byInput ==> exists j :: 0 <= j < n && rows[j].index == index
  }

  lemma {:induction false} OneRowMore<V, S>(m: Machine<V, S>, items: seq<Item>, depth: nat, name: string,
                                            rows: seq<Row<S>>, i: nat, filed: map<nat, seq<Id>>,
                                            results: seq<Result<V>>, result: Result<V>)
    requires i < |rows| && IndexesDiffer(rows)
    requires FiledSoFar(m, items, depth, name, rows, i, filed)
        && AnswerAsAuthored(m, items, depth, name, rows[..i], results)
    requires result == Eval(m, ScopeOf(items), depth, CallFor(name, rows[i]), rows[i].state).result
    ensures FiledSoFar(m, items, depth, name, rows, i + 1,
                       filed[rows[i].index := AuthoredRun(m, items, depth, name, rows[i]).log])
    ensures AnswerAsAuthored(m, items, depth, name, rows[..i + 1], results + [result])
  {
    OneAnswerMore(m, items, depth, name, rows, i, results, result);
  }

  lemma {:induction false} OneAnswerMore<V, S>(m: Machine<V, S>, items: seq<Item>, depth: nat, name: string,
                                               rows: seq<Row<S>>, i: nat, results: seq<Result<V>>, result: Result<V>)
    requires i < |rows| && AnswerAsAuthored(m, items, depth, name, rows[..i], results)
    requires result == Eval(m, ScopeOf(items), depth, CallFor(name, rows[i]), rows[i].state).result
    ensures AnswerAsAuthored(m, items, depth, name, rows[..i + 1], results + [result])
  {
    assert rows[..i + 1] == rows[..i] + [rows[i]];
  }

  lemma {:induction false} AllAreFiled<V, S>(m: Machine<V, S>, items: seq<Item>, depth: nat, name: string,
                                             rows: seq<Row<S>>, kept: seq<nat>, filed: map<nat, seq<Id>>,
                                             branches: Option<seq<Taken>>)
    requires FiledSoFar(m, items, depth, name, rows, |rows|, filed)
    requires branches.None? <==> forall index :: index in filed ==> filed[index] == []
    requires branches.Some? ==> branches.value == Kept(filed, kept)
    ensures HoldWhatTheyEntered(m, items, depth, name, rows, kept, branches)
  {
  }

  lemma {:induction false} ARowIsAuthored<V, S>(m: Machine<V, S>, items: seq<Item>, depth: nat, name: string,
                                                row: Row<S>)
    requires ModuleIsAuthored(items) && LeavesTheName(items) && name != RECORDER && IsAuthored(row.arg)
    ensures var ran := Eval(Opened(m), ScopeOf(InstrumentModule(items, "")), depth, CallFor(name, row), row.state);
      && ran == AuthoredRun(m, items, depth, name, row)
      && ran.result == Eval(m, ScopeOf(items), depth, CallFor(name, row), row.state).result
  {
    var sc := ScopeOf(items);
    InstrumentedCodeMeansTheSame(Opened(m), items, depth, name, row.arg, row.state);
    FunctionsAreAuthored(items);
    TraceIsEval(m, sc, depth, CallFor(name, row), Unwalked, 0, 0, row.state);
  }
}
