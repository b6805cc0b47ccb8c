/** The document store: one table keyed by collection and id. */
module Store {
  import opened TextOrder
  import opened Wrappers

  // It is scanned by id prefix. A document here is whatever was written: a stored one reads back as it was.

  datatype Key = Key(collection: string, id: string)

  predicate Ascending(ids: seq<string>) {
    forall i, j :: 0 <= i < j < |ids| ==> Less(ids[i], ids[j])
  }

  // Into its place among ids already in order.
  method InsertInOrder(ids: seq<string>, id: string) returns (more: seq<string>)
    requires Ascending(ids) && id !in ids
    ensures Ascending(more)
    ensures forall other :: other in more <==> other in ids || other == id
  {
    var at := 0;
    while at < |ids| && Less(ids[at], id)
      invariant 0 <= at <= |ids|
      invariant forall i :: 0 <= i < at ==> Less(ids[i], id)
    {
      at := at + 1;
    }
    if at < |ids| {
      OneOrTheOther(ids[at], id);
      assert ids[at] in ids;
      forall i | at < i < |ids|
        ensures Less(id, ids[i])
      {
        Transitive(id, ids[at], ids[i]);
      }
    }
    more := ids[..at] + [id] + ids[at..];
  }

  class SqliteKvStore<Document(==)> {
    var documents: map<Key, Document>

    constructor ()
      ensures documents == map[]
    {
      documents := map[];
    }

    // Inserts or replaces.
    method Write(collection: string, id: string, data: Document)
      modifies this
      ensures documents == old(documents)[Key(collection, id) := data]
    {
      documents := documents[Key(collection, id) := data];
    }

    // None where the source raises DocumentNotFound.
    method Read(collection: string, id: string) returns (data: Option<Document>)
      ensures data.Some? <==> Key(collection, id) in documents
      ensures data.Some? ==> data.value == documents[Key(collection, id)]
    {
      if Key(collection, id) !in documents {
        return None;
      }
      return Some(documents[Key(collection, id)]);
    }

    method Exists(collection: string, id: string) returns (found: bool)
      ensures found <==> Key(collection, id) in documents
    {
      found := Key(collection, id) in documents;
    }

    method Delete(collection: string, id: string)
      modifies this
      ensures documents == old(documents) - {Key(collection, id)}
    {
      documents := documents - {Key(collection, id)};
    }

    // The ids that begin with `prefix`, in order, found as a range. None where the range has no upper
    // bound to write down: the source raises.
    method ListIds(collection: string, prefix: string) returns (ids: Option<seq<string>>)
      ensures ids.None? <==> prefix != "" && UpperBound(prefix).None?
      ensures ids.Some? ==> Ascending(ids.value)
      ensures ids.Some? ==> forall id :: id in ids.value <==> Key(collection, id) in documents && prefix <= id
    {
      var hi := "";
      if prefix != "" {
        var bound := UpperBound(prefix);
        if bound.None? {
          return None;
        }
        hi := bound.value;
      }
      var found: seq<string> := [];
      var rest := documents.Keys;
      while rest != {}
        invariant rest <= documents.Keys && Ascending(found)
        invariant forall id :: id in found <==>
          Key(collection, id) in documents && Key(collection, id) !in rest && (prefix == "" || InRange(id, prefix, hi))
        decreases rest
      {
        var key :| key in rest;
        if key.collection == collection && (prefix == "" || InRange(key.id, prefix, hi)) {
          found := InsertInOrder(found, key.id);
        }
        rest := rest - {key};
      }
      forall id: string
        ensures prefix == "" || InRange(id, prefix, hi) <==> prefix <= id
      {
        if prefix != "" { RangeIsPrefix(prefix, id); }
      }
      ids := Some(found);
    }

    // The documents whose ids begin with `prefix`, in id order.
    method ReadAll(collection: string, prefix: string) returns (rows: Option<seq<(string, Document)>>)
      ensures rows.None? <==> prefix != "" && UpperBound(prefix).None?
      ensures rows.Some? ==> forall i, j :: 0 <= i < j < |rows.value| ==> Less(rows.value[i].0, rows.value[j].0)
      ensures rows.Some? ==> forall id, data :: (id, data) in rows.value <==>
        Key(collection, id) in documents && prefix <= id && documents[Key(collection, id)] == data
    {
      var ids := ListIds(collection, prefix);
      if ids.None? {
        return None;
      }
      var out: seq<(string, Document)> := [];
      for i := 0 to |ids.value|
        invariant |out| == i
        invariant forall j :: 0 <= j < i ==> Key(collection, ids.value[j]) in documents
        invariant forall j :: 0 <= j < i ==> out[j] == (ids.value[j], documents[Key(collection, ids.value[j])])
      {
        assert ids.value[i] in ids.value;
        out := out + [(ids.value[i], documents[Key(collection, ids.value[i])])];
      }
      forall id, data | Key(collection, id) in documents && prefix <= id && documents[Key(collection, id)] == data
        ensures (id, data) in out
      {
        var j :| 0 <= j < |ids.value| && ids.value[j] == id;
        assert out[j] == (id, data);
      }
      rows := Some(out);
    }
  }
}
