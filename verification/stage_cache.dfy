/** The row cache: one entry a row, under an id put together from its key. */
module StageCache {
  import opened Decimals
  import opened Seqs
  import opened Store
  import opened TextOrder
  import opened Wrappers

  // As long as the parts hold no slash, the ids keep the keys apart, and the store's prefix scan finds a
  // stage's rows.

  // What a row is looked up by. `input` is the fingerprint of the row itself.
  datatype RowKey = RowKey(project: string, stage: string, fingerprint: string, input: string)

  // `body` is the frozen input, the output row and its branches: stored and read back as given.
  datatype Entry = Entry(key: RowKey, body: int)

  const COLLECTION := "stage_cache"
  const CACHE_KEY_VERSION: nat := 4

  function Prefix(project: string, stage: string, fingerprint: string): string {
    "v" + Decimal(CACHE_KEY_VERSION) + "/" + project + "/" + stage + "/" + fingerprint + "/"
  }

  function BuildId(key: RowKey): string {
    Prefix(key.project, key.stage, key.fingerprint) + key.input
  }

  predicate HasNoSlash(text: string) { '/' !in text }

  // The parts before the last may hold no slash; the last may hold anything.
  predicate IsPlain(key: RowKey) {
    HasNoSlash(key.project) && HasNoSlash(key.stage) && HasNoSlash(key.fingerprint)
  }

  // Up to their first slashes two texts agree part by part.
  lemma {:induction false} PartsAgree(a: string, x: string, b: string, y: string)
    requires HasNoSlash(a) && HasNoSlash(b)
    ensures a + "/" + x <= b + "/" + y <==> a == b && x <= y
  {
    var s, t := a + "/" + x, b + "/" + y;
    assert s[|a|] == '/' && t[|b|] == '/';
    if s <= t {
      assert forall i :: 0 <= i < |a| ==> t[i] == a[i];
      assert forall i :: 0 <= i < |b| ==> t[i] == b[i];
      assert t[|a|] == '/';
      assert |a| == |b|;
      assert a == t[..|a|] && b == t[..|b|];
      assert x == s[|a| + 1..] && y == t[|a| + 1..];
    }
  }

  // A prefix is that of an id exactly where the three parts are the same.
  lemma {:induction false} PrefixFindsTheStage(key: RowKey, project: string, stage: string, fingerprint: string)
    requires IsPlain(key) && HasNoSlash(project) && HasNoSlash(stage) && HasNoSlash(fingerprint)
    ensures Prefix(project, stage, fingerprint) <= BuildId(key)
       <==> key.project == project && key.stage == stage && key.fingerprint == fingerprint
  {
    var v := "v" + Decimal(CACHE_KEY_VERSION) + "/";
    var inner, key' := fingerprint + "/" + "", key.fingerprint + "/" + key.input;
    PartsAgree(fingerprint, "", key.fingerprint, key.input);
    PartsAgree(stage, inner, key.stage, key');
    PartsAgree(project, stage + "/" + inner, key.project, key.stage + "/" + key');
    PartsRegroup(v, project, stage, fingerprint, "");
    PartsRegroup(v, key.project, key.stage, key.fingerprint, key.input);
    assert Prefix(project, stage, fingerprint) + "" == Prefix(project, stage, fingerprint);
    PrefixAfter(v, project + "/" + (stage + "/" + inner), key.project + "/" + (key.stage + "/" + key'));
  }

  lemma PartsRegroup(v: string, a: string, b: string, c: string, d: string)
    ensures v + a + "/" + b + "/" + c + "/" + d == v + (a + "/" + (b + "/" + (c + "/" + d)))
  {
  }

  lemma {:induction false} PrefixAfter(start: string, a: string, b: string)
    ensures start + a <= start + b <==> a <= b
  {
    if start + a <= start + b {
      assert a == (start + a)[|start|..] && b == (start + b)[|start|..];
    }
  }

  // Ids keep keys apart.
  lemma {:induction false} IdsKeepKeysApart(a: RowKey, b: RowKey)
    requires IsPlain(a) && IsPlain(b) && BuildId(a) == BuildId(b)
    ensures a == b
  {
    assert Prefix(a.project, a.stage, a.fingerprint) <= BuildId(a);
    PrefixFindsTheStage(b, a.project, a.stage, a.fingerprint);
    var prefix := Prefix(a.project, a.stage, a.fingerprint);
    assert a.input == BuildId(a)[|prefix|..] && b.input == BuildId(b)[|prefix|..];
  }

  // ---------------------------------------------------------------- whose id it is

  function Slashes(text: string): nat {
    if text == "" then 0 else Slashes(text[..|text| - 1]) + (if text[|text| - 1] == '/' then 1 else 0)
  }

  lemma {:induction false} SlashesAdd(a: string, b: string)
    ensures Slashes(a + b) == Slashes(a) + Slashes(b)
  {
    if b == "" {
      assert a + b == a;
    } else {
      SlashesAdd(a, b[..|b| - 1]);
      assert (a + b)[..|a + b| - 1] == a + b[..|b| - 1];
    }
  }

  lemma {:induction false} NoSlashes(text: string)
    ensures Slashes(text) == 0 <==> HasNoSlash(text)
  {
    if text != "" {
      NoSlashes(text[..|text| - 1]);
      assert text == text[..|text| - 1] + [text[|text| - 1]];
    }
  }

  lemma {:induction false} SlashesOfId(key: RowKey)
    ensures Slashes(BuildId(key)) == Slashes("v" + Decimal(CACHE_KEY_VERSION) + "/") + 3
            + Slashes(key.project) + Slashes(key.stage) + Slashes(key.fingerprint) + Slashes(key.input)
  {
    var v := "v" + Decimal(CACHE_KEY_VERSION) + "/";
    assert "/"[..0] == "";
    SlashesAdd(v, key.project);
    SlashesAdd(v + key.project, "/");
    SlashesAdd(v + key.project + "/", key.stage);
    SlashesAdd(v + key.project + "/" + key.stage, "/");
    SlashesAdd(v + key.project + "/" + key.stage + "/", key.fingerprint);
    SlashesAdd(v + key.project + "/" + key.stage + "/" + key.fingerprint, "/");
    SlashesAdd(v + key.project + "/" + key.stage + "/" + key.fingerprint + "/", key.input);
  }

  ghost predicate HasItsOwnId(key: RowKey) {
    forall other :: BuildId(other) == BuildId(key) ==> other == key
  }

  predicate HasNoSlashAnywhere(key: RowKey) { IsPlain(key) && HasNoSlash(key.input) }

  // Among all keys there could be, a key's id is its own exactly when none of its four parts holds a slash.
  lemma {:induction false} AnIdIsItsOwnExactlyWithoutSlashes(key: RowKey)
    ensures HasItsOwnId(key) <==> HasNoSlashAnywhere(key)
  {
    if HasNoSlashAnywhere(key) {
      forall other | BuildId(other) == BuildId(key)
        ensures other == key
      {
        SlashesOfId(key);
        SlashesOfId(other);
        NoSlashes(key.project);
        NoSlashes(key.stage);
        NoSlashes(key.fingerprint);
        NoSlashes(key.input);
        NoSlashes(other.project);
        NoSlashes(other.stage);
        NoSlashes(other.fingerprint);
        IdsKeepKeysApart(other, key);
      }
    } else {
      var other := Regrouped(key);
    }
  }

  // A part with a slash is cut at it, and one side goes to the part beside it.
  lemma {:induction false} Regrouped(key: RowKey) returns (other: RowKey)
    requires !HasNoSlashAnywhere(key)
    ensures other != key && BuildId(other) == BuildId(key)
  {
    var p, s, f, i := key.project, key.stage, key.fingerprint, key.input;
    var v := "v" + Decimal(CACHE_KEY_VERSION) + "/";
    if !HasNoSlash(p) {
      var a, b := CutAtSlash(p);
      other := RowKey(a, b + "/" + s, f, i);
      SameText(v, a, b, s, f, i);
    } else if !HasNoSlash(s) {
      var a, b := CutAtSlash(s);
      other := RowKey(p + "/" + a, b, f, i);
      SameText(v, p, a, b, f, i);
    } else if !HasNoSlash(f) {
      var a, b := CutAtSlash(f);
      other := RowKey(p, s + "/" + a, b, i);
      SameText(v, p, s, a, b, i);
    } else {
      var a, b := CutAtSlash(i);
      other := RowKey(p, s, f + "/" + a, b);
      SameText(v, p, s, f, a, b);
    }
  }

  lemma CutAtSlash(text: string) returns (a: string, b: string)
    requires !HasNoSlash(text)
    ensures text == a + "/" + b
  {
    var k :| 0 <= k < |text| && text[k] == '/';
    a, b := text[..k], text[k + 1..];
  }

  // Five parts, whichever two of them are one part of the key.
  lemma {:induction false} SameText(v: string, a: string, b: string, c: string, d: string, e: string)
    ensures v + (a + "/" + b) + "/" + c + "/" + d + "/" + e == v + a + "/" + b + "/" + c + "/" + d + "/" + e
    ensures v + a + "/" + (b + "/" + c) + "/" + d + "/" + e == v + a + "/" + b + "/" + c + "/" + d + "/" + e
    ensures v + a + "/" + b + "/" + (c + "/" + d) + "/" + e == v + a + "/" + b + "/" + c + "/" + d + "/" + e
    ensures v + a + "/" + b + "/" + c + "/" + (d + "/" + e) == v + a + "/" + b + "/" + c + "/" + d + "/" + e
  {
  }

  // ---------------------------------------------------------------- the cache

  type Documents = map<Key, Entry>

  // Every document of the cache is under the id of its own key.
  ghost predicate IsKeyed(documents: Documents) {
    forall id :: Key(COLLECTION, id) in documents ==>
      IsPlain(documents[Key(COLLECTION, id)].key) && id == BuildId(documents[Key(COLLECTION, id)].key)
  }

  // The cache as a map from keys.
  function Cached(documents: Documents, key: RowKey): Option<Entry> {
    if Key(COLLECTION, BuildId(key)) in documents then Some(documents[Key(COLLECTION, BuildId(key))]) else None
  }

  class RowCache {
    const store: SqliteKvStore<Entry>

    constructor (store: SqliteKvStore<Entry>)
      ensures this.store == store
    {
      this.store := store;
    }

    ghost predicate Valid()
      reads store
    {
      IsKeyed(store.documents)
    }

    method Get(key: RowKey) returns (entry: Option<Entry>)
      requires Valid() && IsPlain(key)
      ensures entry == Cached(store.documents, key)
      ensures entry.Some? ==> entry.value.key == key
    {
      entry := store.Read(COLLECTION, BuildId(key));
      if entry.Some? { IdsKeepKeysApart(entry.value.key, key); }
    }

    // The last entry recorded under a key is the one there.
    method RecordRow(key: RowKey, body: int)
      requires Valid() && IsPlain(key)
      modifies store
      ensures Valid()
      ensures Cached(store.documents, key) == Some(Entry(key, body))
      ensures forall other :: IsPlain(other) && other != key ==>
        Cached(store.documents, other) == Cached(old(store.documents), other)
    {
      store.Write(COLLECTION, BuildId(key), Entry(key, body));
      forall other | IsPlain(other) && other != key
        ensures Cached(store.documents, other) == Cached(old(store.documents), other)
      {
        if BuildId(other) == BuildId(key) { IdsKeepKeysApart(other, key); }
      }
    }

    // One stage's entries, by the fingerprint of their input: those recorded, each under its own.
    method FindRecordedEntries(project: string, stage: string, fingerprint: string)
      returns (entries: map<string, Entry>)
      requires Valid() && HasNoSlash(project) && HasNoSlash(stage) && HasNoSlash(fingerprint)
      ensures forall input :: var cached := Cached(store.documents, RowKey(project, stage, fingerprint, input));
        && (input in entries <==> cached.Some?)
        && (input in entries ==> cached.value == entries[input])
    {
      var prefix := Prefix(project, stage, fingerprint);
      EndsInASlash(project, stage, fingerprint);
      var rows := store.ReadAll(COLLECTION, prefix);
      entries := map[];
      for i := 0 to |rows.value|
        invariant forall input :: input in entries ==>
          Cached(store.documents, RowKey(project, stage, fingerprint, input)) == Some(entries[input])
        invariant forall j :: 0 <= j < i ==> rows.value[j].1.key.input in entries
      {
        var row := rows.value[i];
        assert (row.0, row.1) in rows.value;
        PrefixFindsTheStage(row.1.key, project, stage, fingerprint);
        assert row.1.key == RowKey(project, stage, fingerprint, row.1.key.input);
        entries := entries[row.1.key.input := row.1];
      }
      forall input | Cached(store.documents, RowKey(project, stage, fingerprint, input)).Some?
        ensures input in entries
      {
        var key := RowKey(project, stage, fingerprint, input);
        var entry := Cached(store.documents, key).value;
        PrefixFindsTheStage(key, project, stage, fingerprint);
        assert (BuildId(key), entry) in rows.value;
        IdsKeepKeysApart(entry.key, key);
        var j :| 0 <= j < |rows.value| && rows.value[j] == (BuildId(key), entry);
        assert rows.value[j].1.key.input in entries;
      }
    }

    // An entry carried into another project never takes the place of one that is there.
    method CopyEntryInto(entry: Entry, project: string) returns (copied: bool)
      requires Valid() && IsPlain(entry.key) && HasNoSlash(project)
      modifies store
      ensures Valid()
      ensures var key := entry.key.(project := project);
        && copied == Cached(old(store.documents), key).None?
        && Cached(store.documents, key)
            == (if copied then Some(Entry(key, entry.body)) else Cached(old(store.documents), key))
      ensures forall other :: IsPlain(other) && Cached(old(store.documents), other).Some? ==>
        Cached(store.documents, other) == Cached(old(store.documents), other)
      ensures !copied ==> store.documents == old(store.documents)
    {
      var key := entry.key.(project := project);
      var there := store.Exists(COLLECTION, BuildId(key));
      if there {
        return false;
      }
      store.Write(COLLECTION, BuildId(key), Entry(key, entry.body));
      return true;
    }
  }

  // A stage's prefix always has a range: it ends in a slash.
  lemma {:induction false} EndsInASlash(project: string, stage: string, fingerprint: string)
    ensures var prefix := Prefix(project, stage, fingerprint);
      prefix != "" && prefix[|prefix| - 1] == '/' && UpperBound(prefix).Some?
  {
    var front := "v" + Decimal(CACHE_KEY_VERSION) + "/" + project + "/" + stage + "/" + fingerprint;
    assert Prefix(project, stage, fingerprint) == front + "/";
    assert (front + "/")[|front|] == '/';
  }
}
