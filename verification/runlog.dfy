/** The per-run event log: one append-only list, kept in fixed-size stored chunks. */
module RunLog {
  import opened Decimals
  import opened Seqs
  import opened TextOrder
  import opened Wrappers

  // Workers' events reach one writer through a queue; it numbers them, batches them, and rewrites chunks.
  // Readers must see one list, whatever the batching and however often the run was reopened.

  const CHUNK_SIZE: nat := 500

  // Where chunk `k` begins, and which chunk a number falls in.
  function Begin(k: nat): nat { k * CHUNK_SIZE }

  function ChunkOf(n: nat): nat { n / CHUNK_SIZE }

  datatype Event = Event(number: nat, body: int)

  // What the writer's queue hands it: an event to log, the flush interval running out, or the end.
  datatype Message = Emit(body: int) | IntervalElapsed | Stop

  // ---------------------------------------------------------------- the list a store stands for

  // Numbered from `first` without a gap.
  ghost predicate Gapless(events: seq<Event>, first: nat) {
    forall i :: 0 <= i < |events| ==> events[i].number == first + i
  }

  // The events chunk `k` may hold.
  function InChunk(events: seq<Event>, k: nat): seq<Event> {
    if events == [] then []
    else
      var rest := InChunk(events[..|events| - 1], k);
      var last := events[|events| - 1];
      if ChunkOf(last.number) == k then rest + [last] else rest
  }

  type Chunks = map<nat, seq<Event>>

  function Stored(chunks: Chunks, k: nat): seq<Event> {
    if k in chunks then chunks[k] else []
  }

  // The store holds exactly the events of `log`, chunk by chunk, and no empty chunk.
  ghost predicate Holds(chunks: Chunks, log: seq<Event>) {
    && (forall k: nat :: Stored(chunks, k) == InChunk(log, k))
    && (forall k :: k in chunks ==> chunks[k] != [])
  }

  lemma {:induction false} InChunkJoins(a: seq<Event>, b: seq<Event>, k: nat)
    ensures InChunk(a + b, k) == InChunk(a, k) + InChunk(b, k)
  {
    if b == [] {
      assert a + b == a;
    } else {
      InChunkJoins(a, b[..|b| - 1], k);
      assert (a + b)[..|a + b| - 1] == a + b[..|b| - 1];
    }
  }

  function Least(a: nat, b: nat): nat { if a < b then a else b }

  // How many of `n` events numbered from `first` come before chunk `k`.
  function Reach(first: nat, n: nat, k: nat): (r: nat)
    ensures r <= n
  {
    if Begin(k) <= first then 0 else Least(Begin(k) - first, n)
  }

  // One event more is in chunk `k`, or leaves the chunk's stretch as it was, or moves an empty one on.
  lemma {:induction false} ReachOfOneMore(first: nat, n: nat, k: nat)
    ensures Reach(first, n, k) <= Reach(first, n, k + 1) && Reach(first, n + 1, k) <= Reach(first, n + 1, k + 1)
    ensures var lo, hi, lo', hi' := Reach(first, n, k), Reach(first, n, k + 1), Reach(first, n + 1, k),
        Reach(first, n + 1, k + 1);
      if ChunkOf(first + n) == k then lo' == lo && hi == n && hi' == n + 1
      else (lo' == lo && hi' == hi) || (lo == hi && lo' == hi')
  {
    ChunkBounds(first + n, k);
  }

  // Of events numbered without a gap, chunk `k` may hold one stretch.
  lemma {:induction false} ChunkTakesAStretch(events: seq<Event>, first: nat, k: nat)
    requires Gapless(events, first)
    ensures Reach(first, |events|, k) <= Reach(first, |events|, k + 1)
    ensures InChunk(events, k) == events[Reach(first, |events|, k)..Reach(first, |events|, k + 1)]
  {
    ReachOfOneMore(first, |events|, k);
    if events != [] {
      var n: nat := |events| - 1;
      ChunkTakesAStretch(events[..n], first, k);
      assert events[n].number == first + n;
      ReachOfOneMore(first, n, k);
      StretchOfOneMore(events, Reach(first, n, k), Reach(first, n, k + 1), Reach(first, n + 1, k),
                       Reach(first, n + 1, k + 1));
    }
  }

  lemma {:induction false} StretchOfOneMore(events: seq<Event>, lo: nat, hi: nat, lo': nat, hi': nat)
    requires events != [] && lo <= hi < |events| && lo' <= hi' <= |events|
    ensures lo' == lo && hi == |events| - 1 && hi' == hi + 1 ==>
      events[lo'..hi'] == events[..|events| - 1][lo..hi] + [events[|events| - 1]]
    ensures (lo' == lo && hi' == hi) || (lo == hi && lo' == hi') ==> events[lo'..hi'] == events[..|events| - 1][lo..hi]
  {
    assert events[..|events| - 1][lo..hi] == events[lo..hi];
    if lo' == lo && hi' == hi + 1 {
      assert events[lo..hi + 1] == events[lo..hi] + [events[hi]];
    }
  }

  // In a gapless log chunk k is the stretch of CHUNK_SIZE numbers from Begin(k), as far as the log goes.
  lemma {:induction false} ChunkIsAStretch(log: seq<Event>, k: nat)
    requires Gapless(log, 0)
    ensures InChunk(log, k) == log[Least(Begin(k), |log|)..Least(Begin(k + 1), |log|)]
  {
    ChunkTakesAStretch(log, 0, k);
  }

  lemma {:induction false} ChunkBounds(n: nat, k: nat)
    ensures ChunkOf(n) == k <==> Begin(k) <= n < Begin(k + 1)
  {
  }

  lemma {:induction false} OneChunkAlone(events: seq<Event>, k: nat, k': nat)
    ensures InChunk(InChunk(events, k), k') == if k == k' then InChunk(events, k) else []
  {
    if events != [] {
      var n := |events| - 1;
      OneChunkAlone(events[..n], k, k');
      if ChunkOf(events[n].number) == k {
        var rest := InChunk(events[..n], k);
        assert InChunk(events, k)[..|rest|] == rest;
      }
    }
  }

  // ---------------------------------------------------------------- the store and its readers

  class EventStore {
    var chunks: Chunks
    ghost var log: seq<Event>

    ghost predicate Valid()
      reads this
    {
      Gapless(log, 0) && Holds(chunks, log)
    }

    constructor ()
      ensures Valid() && log == []
    {
      chunks, log := map[], [];
    }

    // How many events are logged: walk to the first chunk that is absent or not full.
    method CountEvents() returns (count: nat)
      requires Valid()
      ensures count == |log|
    {
      var index: nat := 0;
      while true
        invariant Begin(index) <= |log|
        decreases |log| - Begin(index)
      {
        ChunkIsAStretch(log, index);
        assert Stored(chunks, index) == InChunk(log, index);
        if index !in chunks {
          return Begin(index);
        }
        if |chunks[index]| < CHUNK_SIZE {
          return Begin(index) + |chunks[index]|;
        }
        index := index + 1;
      }
    }

    // The events numbered `fromNumber` and up, going straight to the chunk that can hold the first.
    method ReadEventsSince(fromNumber: int) returns (out: seq<Event>)
      requires Valid()
      ensures out == log[if fromNumber < 0 then 0 else Least(fromNumber, |log|)..]
    {
      out := [];
      var since: nat := if fromNumber < 0 then 0 else fromNumber;
      var index: nat := ChunkOf(since);
      while true
        invariant out == ReadSoFar(log, since, index)
        decreases |log| - Begin(index)
      {
        assert Stored(chunks, index) == InChunk(log, index);
        ReadOn(log, since, index);
        if index !in chunks {
          return;
        }
        out := out + From(chunks[index], since);
        index := index + 1;
      }
    }

    // Rewrites each chunk the batch touches, whole. The writer has `saves` left before it is killed; where
    // that comes between two chunks, what was saved is the front of the batch.
    method Flush(pending: seq<Event>, saves: nat) returns (spare: nat, alive: bool)
      requires Valid() && Gapless(pending, |log|)
      modifies this
      ensures Valid() && Extends(old(log), pending, log)
      ensures alive ==> log == old(log) + pending && spare <= saves <= spare + |pending|
      ensures |pending| <= saves ==> alive
    {
      var indexes, grouped := GroupByChunk(pending);
      ghost var start := log;
      for i := 0 to |indexes|
        invariant Valid() && i <= saves
        invariant log == start + pending[..Reach(|start|, |pending|, ChunkOf(|start|) + i)]
      {
        if i == saves {
          return 0, false;
        }
        SaveOne(indexes[i], grouped[indexes[i]], start, pending);
      }
      AllIsReached(pending, |start|, |indexes|);
      return saves - |indexes|, true;
    }

    method SaveOne(k: nat, events: seq<Event>, ghost start: seq<Event>, ghost pending: seq<Event>)
      requires Valid() && Gapless(pending, |start|) && events != [] && events == InChunk(pending, k)
      requires log == start + pending[..Reach(|start|, |pending|, k)]
      modifies this
      ensures Valid() && log == start + pending[..Reach(|start|, |pending|, k + 1)]
    {
      ChunkTakesAStretch(pending, |start|, k);
      OneChunkMore(chunks, log, pending, k);
      StretchJoins(start, pending, Reach(|start|, |pending|, k), Reach(|start|, |pending|, k + 1));
      chunks := chunks[k := Stored(chunks, k) + events];
      log := log + events;
    }

    // One message from the queue: number it, batch it, and flush when the batch is full, when nothing
    // came for a while, and at the end.
    method Take(item: Message, number: nat, pending: seq<Event>, saves: nat)
      returns (left: seq<Event>, spare: nat, alive: bool)
      requires Valid() && Gapless(pending, |log|) && number == |log| + |pending|
      modifies this
      ensures var batch := Batched(pending, item, number);
        && Valid() && Extends(old(log), batch, log)
        && (alive ==> log + left == old(log) + batch && Gapless(left, |log|))
        && (alive ==> spare <= saves <= spare + |batch| - |left|)
        && (|batch| <= saves ==> alive)
      ensures alive && item.Stop? ==> left == []
    {
      left := Batched(pending, item, number);
      spare, alive := saves, true;
      assert log + [] == log && left[..0] == [];
      if left != [] && (!item.Emit? || |left| >= CHUNK_SIZE) {
        spare, alive := Flush(left, saves);
        left := [];
        assert log + left == log;
      }
    }

    // One writer's life, numbering on from where the last session left off. It ends in order where it is
    // told to stop, and before that where the messages run out or it has made its `saves`: then what it
    // had logged by then stands, and what was pending is lost.
    method Drain(messages: seq<Message>, saves: nat) returns (finished: bool)
      requires Valid()
      modifies this
      ensures Valid() && Extends(old(log), Numbered(BeforeStop(messages), |old(log)|), log)
      ensures finished ==> log == old(log) + Numbered(BeforeStop(messages), |old(log)|)
      ensures Stop in messages && |messages| <= saves ==> finished
    {
      var number: nat := CountEvents();
      var pending: seq<Event> := [];
      var spare: nat := saves;
      var i: nat := 0;
      ghost var bodies: seq<int> := [];
      ghost var start := log;
      NothingYet(start);
      assert messages[0..] == messages && messages[..0] == [];
      while i < |messages|
        invariant i <= |messages| && HasTaken(messages, i, bodies)
        invariant IsUnderWay(number, pending, start, bodies)
        invariant spare <= saves <= spare + |bodies| - |pending|
      {
        var item := messages[i];
        TakenOneMore(messages, i, bodies);
        var alive: bool;
        pending, spare, alive := TakeOne(item, number, pending, spare, start, bodies, RestOf(messages, i));
        bodies := bodies + BodyOf(item);
        if !alive {
          return false;
        }
        if item.Emit? {
          number := number + 1;
        }
        if item.Stop? {
          assert log + pending == log;
          return true;
        }
        i := i + 1;
      }
      TakenAll(messages, bodies);
      LostAtTheEnd(start, log, pending, bodies);
      return false;
    }

    // The log and what is pending are what there was, and `bodies` numbered on from it.
    ghost predicate IsUnderWay(number: nat, pending: seq<Event>, start: seq<Event>, bodies: seq<int>)
      reads this
    {
      && Valid()
      && Gapless(pending, |log|)
      && number == |start| + |bodies|
      && |start| <= |log|
      && log + pending == start + Numbered(bodies, |start|)
    }

    // `more` is what is still to come after this message.
    method TakeOne(item: Message, number: nat, pending: seq<Event>, saves: nat, ghost start: seq<Event>,
                   ghost bodies: seq<int>, ghost more: seq<int>) returns (left: seq<Event>, spare: nat, alive: bool)
      requires IsUnderWay(number, pending, start, bodies)
      modifies this
      ensures alive ==> IsUnderWay(if item.Emit? then number + 1 else number, left, start, bodies + BodyOf(item))
      ensures alive ==> spare <= saves <= spare + |pending| + |BodyOf(item)| - |left|
      ensures alive && item.Stop? ==> left == []
      ensures Valid() && Extends(start, Numbered(bodies + BodyOf(item) + more, |start|), log)
      ensures |pending| + |BodyOf(item)| <= saves ==> alive
    {
      ghost var before := log;
      assert |log + pending| == number;
      left, spare, alive := Take(item, number, pending, saves);
      BatchGoesOn(start, before, pending, item, number, bodies);
      StillExtends(start, before, Batched(pending, item, number), log, bodies + BodyOf(item), more);
    }
  }

  // `log` is `start` and the front of `all`.
  ghost predicate Extends(start: seq<Event>, all: seq<Event>, log: seq<Event>) {
    |start| <= |log| <= |start| + |all| && log == start + all[..|log| - |start|]
  }

  function Batched(pending: seq<Event>, item: Message, number: nat): (batch: seq<Event>)
    ensures |batch| == |pending| + |BodyOf(item)|
  {
    if item.Emit? then pending + [Event(number, item.body)] else pending
  }

  lemma {:induction false} BatchGoesOn(start: seq<Event>, before: seq<Event>, pending: seq<Event>, item: Message,
                                       number: nat, bodies: seq<int>)
    requires before + pending == start + Numbered(bodies, |start|) && number == |start| + |bodies|
    ensures before + Batched(pending, item, number) == start + Numbered(bodies + BodyOf(item), |start|)
  {
    if item.Emit? {
      LogOneMore(start, bodies, |start|, item.body);
      Associates(before, pending, [Event(number, item.body)]);
    } else {
      assert bodies + [] == bodies;
    }
  }

  lemma {:induction false} StillExtends(start: seq<Event>, before: seq<Event>, batch: seq<Event>, log: seq<Event>,
                                        bodies: seq<int>, more: seq<int>)
    requires |start| <= |before| && before + batch == start + Numbered(bodies, |start|) && Extends(before, batch, log)
    ensures Extends(start, Numbered(bodies + more, |start|), log)
  {
    var all := Numbered(bodies + more, |start|);
    NumberedJoins(bodies, more, |start|);
    assert log == (before + batch)[..|log|];
    assert (start + Numbered(bodies, |start|))[..|log|] == start + Numbered(bodies, |start|)[..|log| - |start|];
    assert all[..|log| - |start|] == Numbered(bodies, |start|)[..|log| - |start|];
  }

  lemma {:induction false} LostAtTheEnd(start: seq<Event>, log: seq<Event>, pending: seq<Event>, bodies: seq<int>)
    requires |start| <= |log| && log + pending == start + Numbered(bodies, |start|)
    ensures Extends(start, Numbered(bodies, |start|), log)
    ensures Extends(start, Numbered(bodies + [], |start|), log)
  {
    assert bodies + [] == bodies;
    assert log == (log + pending)[..|log|];
  }

  // `bodies` reached the writer in the first `i` messages, none of them the end.
  ghost predicate HasTaken(messages: seq<Message>, i: nat, bodies: seq<int>)
    requires i <= |messages|
  {
    BeforeStop(messages) == bodies + BeforeStop(messages[i..]) && |bodies| <= i && Stop !in messages[..i]
  }

  function RestOf(messages: seq<Message>, i: nat): seq<int>
    requires i < |messages|
  {
    if messages[i].Stop? then [] else BeforeStop(messages[i + 1..])
  }

  lemma {:induction false} TakenOneMore(messages: seq<Message>, i: nat, bodies: seq<int>)
    requires i < |messages| && HasTaken(messages, i, bodies)
    ensures BeforeStop(messages) == bodies + BodyOf(messages[i]) + RestOf(messages, i)
    ensures messages[i].Stop? ==> BeforeStop(messages) == bodies + BodyOf(messages[i])
    ensures !messages[i].Stop? ==> HasTaken(messages, i + 1, bodies + BodyOf(messages[i]))
  {
    OneMessage(messages, i);
    if messages[i].Stop? {
      assert bodies + [] == bodies;
    } else {
      assert messages[..i + 1] == messages[..i] + [messages[i]];
      Associates(bodies, BodyOf(messages[i]), RestOf(messages, i));
    }
  }

  lemma {:induction false} TakenAll(messages: seq<Message>, bodies: seq<int>)
    requires HasTaken(messages, |messages|, bodies)
    ensures BeforeStop(messages) == bodies && Stop !in messages
  {
    assert messages[|messages|..] == [] && messages[..|messages|] == messages;
  }

  lemma NothingYet(start: seq<Event>)
    ensures start + [] == start && start + Numbered([], |start|) == start
  {
  }

  function BodyOf(item: Message): seq<int> {
    if item.Emit? then [item.body] else []
  }

  lemma {:induction false} OneMessage(messages: seq<Message>, i: nat)
    requires i < |messages|
    ensures BeforeStop(messages[i..]) ==
            if messages[i].Stop? then [] else BodyOf(messages[i]) + BeforeStop(messages[i + 1..])
  {
    assert messages[i..][0] == messages[i] && messages[i..][1..] == messages[i + 1..];
  }

  lemma {:induction false} LogOneMore(before: seq<Event>, bodies: seq<int>, first: nat, body: int)
    ensures before + Numbered(bodies, first) + [Event(first + |bodies|, body)]
        == before + Numbered(bodies + [body], first)
  {
    NumberedOneMore(bodies, body, first);
  }

  lemma {:induction false} OneChunkMore(chunks: Chunks, log: seq<Event>, pending: seq<Event>, k: nat)
    requires Holds(chunks, log) && InChunk(pending, k) != []
    ensures Holds(chunks[k := Stored(chunks, k) + InChunk(pending, k)], log + InChunk(pending, k))
  {
    var events := InChunk(pending, k);
    var after := chunks[k := Stored(chunks, k) + events];
    forall k': nat
      ensures Stored(after, k') == InChunk(log + events, k')
    {
      InChunkJoins(log, events, k');
      OneChunkAlone(pending, k, k');
      assert Stored(chunks, k') == InChunk(log, k');
    }
  }

  lemma {:induction false} StretchJoins(start: seq<Event>, pending: seq<Event>, lo: nat, hi: nat)
    requires lo <= hi <= |pending|
    ensures (start + pending[..lo]) + pending[lo..hi] == start + pending[..hi]
  {
  }

  lemma {:induction false} AllIsReached(pending: seq<Event>, first: nat, n: nat)
    requires pending == [] ==> n == 0
    requires pending != [] ==> n == ChunkOf(first + |pending| - 1) - ChunkOf(first) + 1
    ensures pending[..Reach(first, |pending|, ChunkOf(first) + n)] == pending
    ensures n <= |pending|
  {
    if pending != [] {
      ChunkBounds(first + |pending| - 1, ChunkOf(first + |pending| - 1));
    }
  }

  // What has been read once chunks `index` and up are left.
  ghost function ReadSoFar(log: seq<Event>, since: nat, index: nat): seq<Event> {
    var end := Least(Begin(index), |log|);
    log[Least(since, end)..end]
  }

  lemma {:induction false} ReadOn(log: seq<Event>, since: nat, index: nat)
    requires Gapless(log, 0)
    ensures ReadSoFar(log, since, index + 1) == ReadSoFar(log, since, index) + From(InChunk(log, index), since)
    ensures InChunk(log, index) == [] <==> Begin(index) >= |log|
    ensures InChunk(log, index) == [] ==> ReadSoFar(log, since, index) == log[Least(since, |log|)..]
    ensures index == ChunkOf(since) ==> ReadSoFar(log, since, index) == []
  {
    ChunkIsAStretch(log, index);
    var lo, hi := Least(Begin(index), |log|), Least(Begin(index + 1), |log|);
    StretchFrom(log, since, lo, hi);
    var from := Least(since, lo);
    if since <= lo { assert log[from..hi] == log[from..lo] + log[lo..hi]; }
  }

  lemma {:induction false} SliceSnoc(log: seq<Event>, from: nat, to: nat)
    requires from < to <= |log|
    ensures log[from..to] == log[from..to - 1] + [log[to - 1]]
  {
  }

  function From(events: seq<Event>, since: nat): (r: seq<Event>) {
    if events == [] then []
    else
      var rest := From(events[..|events| - 1], since);
      var last := events[|events| - 1];
      if last.number >= since then rest + [last] else rest
  }

  lemma {:induction false} StretchFrom(log: seq<Event>, since: nat, lo: nat, hi: nat)
    requires Gapless(log, 0) && lo <= hi <= |log|
    ensures From(log[lo..hi], since) == log[Least(if since < lo then lo else since, hi)..hi]
  {
    if lo < hi {
      StretchFrom(log, since, lo, hi - 1);
      FromOneMore(log, since, lo, hi);
      if since < hi { SliceSnoc(log, if since < lo then lo else since, hi); }
    }
  }

  lemma {:induction false} FromOneMore(log: seq<Event>, since: nat, lo: nat, hi: nat)
    requires Gapless(log, 0) && lo < hi <= |log|
    ensures From(log[lo..hi], since) == From(log[lo..hi - 1], since) + (if since < hi then [log[hi - 1]] else [])
  {
    var stretch := log[lo..hi];
    SliceSnoc(log, lo, hi);
    assert stretch[..|stretch| - 1] == log[lo..hi - 1] && stretch[|stretch| - 1] == log[hi - 1];
    assert log[hi - 1].number == hi - 1;
  }

  // Groups a batch by the chunk each event falls in. Numbered without a gap, the batch goes into chunks one
  // after the other.
  method GroupByChunk(events: seq<Event>) returns (indexes: seq<nat>, grouped: Chunks)
    ensures forall k :: k in indexes <==> k in grouped
    ensures forall k :: k in grouped ==> grouped[k] != []
    ensures forall k: nat :: Stored(grouped, k) == InChunk(events, k)
    ensures events == [] ==> indexes == []
    ensures events != [] && Gapless(events, events[0].number) ==> AreInARow(indexes, events[0].number, |events|)
  {
    indexes, grouped := [], map[];
    for i := 0 to |events|
      invariant forall k :: k in indexes <==> k in grouped
      invariant forall k :: k in grouped ==> grouped[k] != []
      invariant forall k: nat :: Stored(grouped, k) == InChunk(events[..i], k)
      invariant i == 0 ==> indexes == []
      invariant i > 0 && Gapless(events, events[0].number) ==> AreInARow(indexes, events[0].number, i)
    {
      var k := ChunkOf(events[i].number);
      assert events[..i + 1][..i] == events[..i];
      if k !in grouped {
        indexes := indexes + [k];
      }
      grouped := grouped[k := Stored(grouped, k) + [events[i]]];
    }
    assert events[..|events|] == events;
  }

  // The chunks of `n` events numbered from `first`.
  ghost predicate AreInARow(indexes: seq<nat>, first: nat, n: nat)
    requires n > 0
  {
    && |indexes| == ChunkOf(first + n - 1) - ChunkOf(first) + 1
    && forall i :: 0 <= i < |indexes| ==> indexes[i] == ChunkOf(first) + i
  }

  // What reached the writer before the end, in queue order.
  function BeforeStop(messages: seq<Message>): seq<int> {
    if messages == [] || messages[0].Stop? then []
    else BodyOf(messages[0]) + BeforeStop(messages[1..])
  }

  function Numbered(bodies: seq<int>, first: nat): (events: seq<Event>)
    ensures |events| == |bodies| && Gapless(events, first)
  {
    seq(|bodies|, i requires 0 <= i < |bodies| => Event(first + i, bodies[i]))
  }

  lemma {:induction false} NumberedOneMore(bodies: seq<int>, body: int, first: nat)
    ensures Numbered(bodies + [body], first) == Numbered(bodies, first) + [Event(first + |bodies|, body)]
  {
  }

  // ---------------------------------------------------------------- sessions and readers

  // A writer's life: the messages it is sent, and how often it saves a chunk before it is killed.
  datatype Life = Life(messages: seq<Message>, saves: nat) {
    // It is told to stop and lives to do so.
    predicate EndsInOrder() { Stop in messages && |messages| <= saves }
  }

  // Of each life's events the first so many, life after life.
  function Survivors(lives: seq<Life>, logged: seq<nat>): seq<int>
    requires |logged| == |lives|
    requires forall i :: 0 <= i < |lives| ==> logged[i] <= |BeforeStop(lives[i].messages)|
  {
    if lives == [] then [] else BeforeStop(lives[0].messages)[..logged[0]] + Survivors(lives[1..], logged[1..])
  }

  lemma {:induction false} NumberedJoins(a: seq<int>, b: seq<int>, first: nat)
    ensures Numbered(a + b, first) == Numbered(a, first) + Numbered(b, first + |a|)
  {
  }

  // However a run's events were batched, however often it was reopened and wherever its writers were killed,
  // the log is one list: of each life the front, and all of it where the life ended in order.
  method RunSessions(store: EventStore, lives: seq<Life>) returns (logged: seq<nat>)
    requires store.Valid()
    modifies store
    decreases |lives|
    ensures store.Valid() && |logged| == |lives|
    ensures forall i :: 0 <= i < |lives| ==> logged[i] <= |BeforeStop(lives[i].messages)|
    ensures forall i :: 0 <= i < |lives| && lives[i].EndsInOrder() ==> logged[i] == |BeforeStop(lives[i].messages)|
    ensures store.log == old(store.log) + Numbered(Survivors(lives, logged), |old(store.log)|)
  {
    ghost var start := store.log;
    if lives == [] {
      NothingYet(start);
      return [];
    }
    var first := RunSession(store, lives[0]);
    ghost var middle := store.log;
    var rest := RunSessions(store, lives[1..]);
    logged := [first] + rest;
    assert logged[1..] == rest;
    SessionsJoin(start, middle, store.log, BeforeStop(lives[0].messages)[..first], Survivors(lives[1..], rest));
  }

  method RunSession(store: EventStore, life: Life) returns (logged: nat)
    requires store.Valid()
    modifies store
    ensures store.Valid() && logged <= |BeforeStop(life.messages)|
    ensures life.EndsInOrder() ==> logged == |BeforeStop(life.messages)|
    ensures store.log == old(store.log) + Numbered(BeforeStop(life.messages)[..logged], |old(store.log)|)
  {
    ghost var start := store.log;
    var before := store.CountEvents();
    var finished := store.Drain(life.messages, life.saves);
    var after := store.CountEvents();
    logged := after - before;
    FrontNumbered(BeforeStop(life.messages), |start|, logged);
  }

  lemma {:induction false} FrontNumbered(bodies: seq<int>, first: nat, n: nat)
    requires n <= |bodies|
    ensures Numbered(bodies, first)[..n] == Numbered(bodies[..n], first)
    ensures n == |bodies| ==> bodies[..n] == bodies
  {
  }

  lemma {:induction false} SessionsJoin(start: seq<Event>, middle: seq<Event>, log: seq<Event>, first: seq<int>,
                                        rest: seq<int>)
    requires middle == start + Numbered(first, |start|) && log == middle + Numbered(rest, |middle|)
    ensures log == start + Numbered(first + rest, |start|)
  {
    NumberedJoins(first, rest, |start|);
    Associates(start, Numbered(first, |start|), Numbered(rest, |middle|));
  }

  // One poll of a tailer: what is new, and where it reads from next.
  method Poll(store: EventStore, cursor: int) returns (new': seq<Event>, next: int)
    requires store.Valid()
    ensures new' == NewSince(store.log, cursor) && next == CursorAfter(store.log, cursor)
  {
    new' := store.ReadEventsSince(cursor);
    next := if new' == [] then cursor else new'[|new'| - 1].number + 1;
  }

  function NewSince(log: seq<Event>, cursor: int): seq<Event> {
    log[if cursor < 0 then 0 else Least(cursor, |log|)..]
  }

  // In a gapless log, past the last event; with nothing new, where it was.
  function CursorAfter(log: seq<Event>, cursor: int): int {
    if NewSince(log, cursor) == [] then cursor else NewSince(log, cursor)[|NewSince(log, cursor)| - 1].number + 1
  }

  // What a tailer sees over a run's growing log, polling at each of `logs`.
  function Seen(logs: seq<seq<Event>>, cursor: int): seq<Event> {
    if logs == [] then [] else NewSince(logs[0], cursor) + Seen(logs[1..], CursorAfter(logs[0], cursor))
  }

  ghost predicate Grows(logs: seq<seq<Event>>) {
    forall i, j :: 0 <= i < j < |logs| ==> logs[i] <= logs[j]
  }

  // Each event once, in order, none missed: all it sees is the log from where it began.
  lemma {:induction false} ATailerSeesEachEventOnce(logs: seq<seq<Event>>, cursor: int)
    requires logs != [] && Grows(logs) && forall log :: log in logs ==> Gapless(log, 0)
    ensures Seen(logs, cursor) == NewSince(logs[|logs| - 1], cursor)
  {
    var first, rest := logs[0], logs[1..];
    if |logs| == 1 {
      assert Seen(rest, CursorAfter(first, cursor)) == [];
    } else {
      var last := rest[|rest| - 1];
      ATailerSeesEachEventOnce(rest, CursorAfter(first, cursor));
      assert first in logs && first <= logs[|logs| - 1];
      ReadThenRead(first, last, cursor);
    }
  }

  // Two reads of a growing log join into one of its end.
  lemma {:induction false} ReadThenRead(first: seq<Event>, last: seq<Event>, cursor: int)
    requires Gapless(first, 0) && first <= last
    ensures NewSince(first, cursor) + NewSince(last, CursorAfter(first, cursor)) == NewSince(last, cursor)
  {
    var from := if cursor < 0 then 0 else Least(cursor, |first|);
    if from < |first| {
      assert NewSince(first, cursor)[|first| - from - 1] == first[|first| - 1];
      assert CursorAfter(first, cursor) == |first|;
      assert last[from..] == last[from..|first|] + last[|first|..];
      assert first[from..] == last[from..|first|];
    } else {
      assert NewSince(first, cursor) == [];
    }
  }

  // ---------------------------------------------------------------- newest chunk first

  // {project}/{run}/{index:06d}
  function ChunkId(run: string, index: nat): string { run + Padded(index) }

  ghost predicate IdsFollowIndexes(run: string, count: nat) {
    forall i, j :: 0 <= i < j < count ==> Less(ChunkId(run, i), ChunkId(run, j))
  }

  // The order ids are listed in is the order of the chunks for exactly a million chunks and no more.
  lemma {:induction false} IdOrderIsChunkOrder(run: string, count: nat)
    ensures IdsFollowIndexes(run, count) <==> count <= 1_000_000
  {
    if count <= 1_000_000 {
      forall i, j | 0 <= i < j < count
        ensures Less(ChunkId(run, i), ChunkId(run, j))
      {
        PaddedAscends(i, j);
        SameStart(run, Padded(i), Padded(j));
      }
    } else {
      AMillionComesTooEarly();
      SameStart(run, Padded(1_000_000), Padded(999_999));
      OneOrTheOther(ChunkId(run, 999_999), ChunkId(run, 1_000_000));
      assert !Less(ChunkId(run, 999_999), ChunkId(run, 1_000_000));
    }
  }

  ghost predicate ListedById(order: seq<nat>, run: string) {
    forall i, j :: 0 <= i < j < |order| ==> Less(ChunkId(run, order[i]), ChunkId(run, order[j]))
  }

  // The stored chunks' indexes, in the order their ids are listed.
  method ListChunks(chunks: Chunks, run: string) returns (order: seq<nat>)
    ensures ListedById(order, run)
    ensures forall k :: k in order <==> k in chunks
  {
    order := [];
    var rest := chunks.Keys;
    while rest != {}
      invariant rest <= chunks.Keys
      invariant ListedById(order, run)
      invariant forall k :: k in order <==> k in chunks && k !in rest
      decreases rest
    {
      var k :| k in rest;
      order := InsertById(order, run, k);
      rest := rest - {k};
    }
  }

  method InsertById(order: seq<nat>, run: string, k: nat) returns (more: seq<nat>)
    requires ListedById(order, run)
    requires k !in order
    ensures ListedById(more, run)
    ensures forall other :: other in more <==> other in order || other == k
  {
    var at := 0;
    while at < |order| && Less(ChunkId(run, order[at]), ChunkId(run, k))
      invariant 0 <= at <= |order|
      invariant forall i :: 0 <= i < at ==> Less(ChunkId(run, order[i]), ChunkId(run, k))
    {
      at := at + 1;
    }
    PutInOrder(order, run, k, at);
    PutIn(order, k, at);
    more := order[..at] + [k] + order[at..];
  }

  lemma {:induction false} IdsAreOrdered(run: string, a: nat, b: nat)
    requires a != b && !Less(ChunkId(run, a), ChunkId(run, b))
    ensures Less(ChunkId(run, b), ChunkId(run, a))
  {
    ChunkIdsDiffer(run, a, b);
    OneOrTheOther(ChunkId(run, a), ChunkId(run, b));
  }

  lemma {:induction false} PutIn(order: seq<nat>, k: nat, at: nat)
    requires at <= |order|
    ensures forall other :: other in order[..at] + [k] + order[at..] <==> other in order || other == k
  {
    assert order == order[..at] + order[at..];
  }

  lemma {:induction false} PutInOrder(order: seq<nat>, run: string, k: nat, at: nat)
    requires ListedById(order, run) && at <= |order|
    requires forall i :: 0 <= i < at ==> Less(ChunkId(run, order[i]), ChunkId(run, k))
    requires k !in order && (at < |order| ==> !Less(ChunkId(run, order[at]), ChunkId(run, k)))
    ensures ListedById(order[..at] + [k] + order[at..], run)
  {
    if at < |order| { IdsAreOrdered(run, order[at], k); }
    var more := order[..at] + [k] + order[at..];
    forall i, j | 0 <= i < j < |more|
      ensures Less(ChunkId(run, more[i]), ChunkId(run, more[j]))
    {
      if i == at && j > at + 1 {
        Transitive(ChunkId(run, k), ChunkId(run, order[at]), ChunkId(run, order[j - 1]));
      }
    }
  }

  lemma {:induction false} ChunkIdsDiffer(run: string, a: nat, b: nat)
    requires a != b
    ensures ChunkId(run, a) != ChunkId(run, b)
  {
    if ChunkId(run, a) == ChunkId(run, b) {
      assert Padded(a) == ChunkId(run, a)[|run|..] && Padded(b) == ChunkId(run, b)[|run|..];
      PaddedDiffer(a, b);
    }
  }

  // The chunks' events, the newest first.
  method ReadEventsBackward(store: EventStore, run: string) returns (out: seq<seq<Event>>)
    requires store.Valid() && |store.log| <= 1_000_000 * CHUNK_SIZE
    ensures Backwards(out) == store.log
    ensures forall i :: 0 <= i < |out| ==> out[i] == InChunk(store.log, |out| - 1 - i)
  {
    var order := ListChunks(store.chunks, run);
    ghost var count := ListedInOrder(order, run, store.chunks, store.log);
    out := LoadInReverse(store.chunks, order);
    forall i | 0 <= i < |out|
      ensures out[i] == InChunk(store.log, |out| - 1 - i)
    {
      assert order[count - 1 - i] in order;
      assert Stored(store.chunks, count - 1 - i) == InChunk(store.log, count - 1 - i);
    }
    BackwardsIsTheLog(store.log, out);
    assert store.log[..|store.log|] == store.log;
  }

  method LoadInReverse(chunks: Chunks, order: seq<nat>) returns (out: seq<seq<Event>>)
    requires forall k :: k in order ==> k in chunks
    ensures |out| == |order| && forall i :: 0 <= i < |out| ==> out[i] == Stored(chunks, order[|order| - 1 - i])
  {
    out := [];
    for i := 0 to |order|
      invariant |out| == i && forall j :: 0 <= j < i ==> out[j] == Stored(chunks, order[|order| - 1 - j])
    {
      out := out + [chunks[order[|order| - 1 - i]]];
    }
  }

  // With no more than a million chunks they are listed as they are numbered.
  lemma {:induction false} ListedInOrder(order: seq<nat>, run: string, chunks: Chunks, log: seq<Event>)
    returns (count: nat)
    requires Gapless(log, 0) && Holds(chunks, log) && |log| <= 1_000_000 * CHUNK_SIZE
    requires ListedById(order, run)
    requires forall k :: k in order <==> k in chunks
    ensures |order| == count && (forall i :: 0 <= i < count ==> order[i] == i)
    ensures Begin(count) >= |log|
  {
    count := (|log| + CHUNK_SIZE - 1) / CHUNK_SIZE;
    forall k: nat
      ensures k in order <==> k < count
    {
      ReadOn(log, 0, k);
      assert Stored(chunks, k) == InChunk(log, k);
      assert Begin(k) < |log| <==> k < count;
    }
    forall i, j | 0 <= i < j < |order|
      ensures order[i] < order[j]
    {
      assert order[i] in order && order[j] in order;
      SameStart(run, Padded(order[i]), Padded(order[j]));
      if order[j] < order[i] {
        PaddedAscends(order[j], order[i]);
        OneOrTheOther(Padded(order[i]), Padded(order[j]));
      } else if order[i] == order[j] {
        NotBelowItself(Padded(order[i]));
      }
    }
    AscendingAll(order, count);
  }

  lemma {:induction false} AscendingAll(order: seq<nat>, count: nat)
    requires forall i, j :: 0 <= i < j < |order| ==> order[i] < order[j]
    requires forall k: nat :: k in order <==> k < count
    ensures |order| == count && forall i :: 0 <= i < count ==> order[i] == i
  {
    var i: nat := 0;
    while i < |order|
      invariant i <= |order|
      invariant forall j :: 0 <= j < i ==> order[j] == j
    {
      assert order[i] in order;
      if i > 0 { assert order[i - 1] < order[i]; }
      assert i in order;
      var j :| 0 <= j < |order| && order[j] == i;
      assert i <= j && order[i] <= order[j];
      i := i + 1;
    }
    assert |order| !in order;
    if order != [] { assert order[|order| - 1] in order; }
  }

  lemma {:induction false} BackwardsIsTheLog(log: seq<Event>, out: seq<seq<Event>>)
    requires Gapless(log, 0)
    requires forall i :: 0 <= i < |out| ==> out[i] == InChunk(log, |out| - 1 - i)
    ensures Backwards(out) == log[..Least(Begin(|out|), |log|)]
  {
    if out != [] {
      var k: nat := |out| - 1;
      forall i | 0 <= i < |out[1..]|
        ensures out[1..][i] == InChunk(log, |out[1..]| - 1 - i)
      {
        assert out[1..][i] == out[i + 1];
      }
      BackwardsIsTheLog(log, out[1..]);
      ChunkIsAStretch(log, k);
      assert out[0] == InChunk(log, k);
      var lo, hi := Least(Begin(k), |log|), Least(Begin(k + 1), |log|);
      assert log[..hi] == log[..lo] + log[lo..hi];
    }
  }

  // A newest-first list of chunks, read from its end.
  function Backwards(chunks: seq<seq<Event>>): seq<Event> {
    if chunks == [] then [] else Backwards(chunks[1..]) + chunks[0]
  }
}
