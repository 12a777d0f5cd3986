/** What the eviction queue keeps: its shape in every reachable state, who gets evicted, and what it costs. */
module RateLimitQueue {
  import opened RateLimitKeys
  import opened RateLimitModel
  import opened FiniteSets

  // ---- Hit lists ----

  ghost predicate Sorted(times: seq<nat>) {
    forall i, j :: 0 <= i < j < |times| ==> times[i] <= times[j]
  }

  lemma {:induction false} RetainMembers(times: seq<nat>, window: nat, now: nat)
    ensures forall t :: t in Retain(times, window, now) <==> t in times && Live(t, window, now)
  {
    if times != [] {
      var init, last := times[..|times| - 1], times[|times| - 1];
      RetainMembers(init, window, now);
      assert times == init + [last];
    }
  }

  lemma {:induction false} RetainSorted(times: seq<nat>, window: nat, now: nat)
    requires Sorted(times)
    ensures Sorted(Retain(times, window, now))
  {
    if times != [] {
      var init, last := times[..|times| - 1], times[|times| - 1];
      RetainSorted(init, window, now);
      RetainMembers(init, window, now);
      var kept := Retain(init, window, now);
      forall i | 0 <= i < |kept| ensures kept[i] <= last { assert kept[i] in init; }
    }
  }

  // ---- The invariant ----

  ghost predicate HitsValid(h: Hits, clock: nat) {
    && Sorted(h.times)
    && (forall t :: t in h.times ==> t <= clock)
    && h.since <= clock
    && (h.since == clock ==> clock in h.times)
  }

  /** Every entry belongs to a tracked key and is no later than that key's window. */
  ghost predicate EntriesTracked(keys: map<Key, Hits>, queue: seq<Entry>) {
    forall i :: 0 <= i < |queue| ==> queue[i].key in keys && queue[i].since <= keys[queue[i].key].since
  }

  /** Every tracked key has an entry for its current window. */
  ghost predicate KeysQueued(keys: map<Key, Hits>, queue: seq<Entry>) {
    forall k :: k in keys ==> Entry(k, keys[k].since) in queue
  }

  ghost predicate Ordered(queue: seq<Entry>) {
    forall i, j :: 0 <= i < j < |queue| ==>
      queue[i].since <= queue[j].since && (queue[i].key == queue[j].key ==> queue[i].since < queue[j].since)
  }

  ghost predicate QueueValid(keys: map<Key, Hits>, queue: seq<Entry>) {
    EntriesTracked(keys, queue) && KeysQueued(keys, queue) && Ordered(queue)
  }

  ghost predicate AllHitsValid(keys: map<Key, Hits>, clock: nat) {
    forall k :: k in keys ==> HitsValid(keys[k], clock)
  }

  ghost predicate Valid(s: State, clock: nat) {
    QueueValid(s.keys, s.queue) && AllHitsValid(s.keys, clock)
  }

  /** Bounds that hold between calls. */
  ghost predicate Bounded(cfg: Config, s: State) {
    |s.keys| <= cfg.maxKeys && |s.queue| <= 2 * |s.keys| + QUEUE_SLACK
  }

  lemma Tick(s: State, clock: nat, now: nat)
    requires Valid(s, clock) && clock <= now
    ensures Valid(s, now)
  {}

  lemma TrimValid(s: State, key: Key, window: nat, now: nat)
    requires Valid(s, now) && window > 0
    ensures Valid(Trim(s, key, window, now), now)
  {
    if key in s.keys {
      RetainMembers(s.keys[key].times, window, now);
      RetainSorted(s.keys[key].times, window, now);
    }
  }

  // ---- Removing keys and entries ----

  /** Popping the front entry, and its key if it matches, keeps the queue's shape. */
  lemma PopValid(keys: map<Key, Hits>, queue: seq<Entry>)
    requires QueueValid(keys, queue) && queue != []
    ensures QueueValid(if Matches(keys, queue[0]) then keys - {queue[0].key} else keys, queue[1..])
  {
    var rest := queue[1..];
    var keys' := if Matches(keys, queue[0]) then keys - {queue[0].key} else keys;
    assert forall i :: 0 <= i < |rest| ==> rest[i] == queue[i + 1];
    forall k | k in keys' ensures Entry(k, keys'[k].since) in rest {
      assert Entry(k, keys[k].since) in queue;
    }
  }

  /** Dropping the keys at the front of the queue keeps its shape, and makes room. */
  lemma {:induction false} EvictValid(keys: map<Key, Hits>, queue: seq<Entry>, maxKeys: nat)
    requires QueueValid(keys, queue)
    ensures var (k', q') := Evict(keys, queue, maxKeys);
      && QueueValid(k', q')
      && |q'| <= |queue|
      && k'.Keys <= keys.Keys
      && (forall k :: k in k' ==> k'[k] == keys[k])
      && (maxKeys > 0 ==> |k'| < maxKeys)
    decreases |queue|
  {
    if |keys| < maxKeys {
    } else if queue == [] {
      NothingQueued(keys);
    } else {
      PopValid(keys, queue);
      var keys' := if Matches(keys, queue[0]) then keys - {queue[0].key} else keys;
      assert Evict(keys, queue, maxKeys) == Evict(keys', queue[1..], maxKeys);
      hide QueueValid;
      EvictValid(keys', queue[1..], maxKeys);
    }
  }

  lemma NothingQueued(keys: map<Key, Hits>)
    requires KeysQueued(keys, [])
    ensures |keys| == 0
  {
    assert forall k :: k in keys ==> Entry(k, keys[k].since) in [];
    assert keys.Keys == {};
  }

  /** Compaction keeps exactly the matching entries, one for each tracked key. */
  lemma {:induction false} DropStaleMembers(keys: map<Key, Hits>, queue: seq<Entry>)
    ensures forall e :: e in DropStale(keys, queue) <==> e in queue && Matches(keys, e)
    ensures |DropStale(keys, queue)| <= |queue|
    ensures Ordered(queue) ==> Ordered(DropStale(keys, queue))
  {
    if queue != [] {
      var init, last := queue[..|queue| - 1], queue[|queue| - 1];
      DropStaleMembers(keys, init);
      assert queue == init + [last];
      assert forall e :: e in queue <==> e in init || e == last;
      if Ordered(queue) {
        assert Ordered(init);
        var kept := DropStale(keys, init);
        forall i | 0 <= i < |kept|
          ensures kept[i].since <= last.since && (kept[i].key == last.key ==> kept[i].since < last.since)
        {
          assert kept[i] in init;
        }
      }
    }
  }

  /** A queue of distinct keys is as long as the set of its keys. */
  lemma {:induction false} DistinctLength(queue: seq<Entry>, names: set<Key>)
    requires forall i, j :: 0 <= i < j < |queue| ==> queue[i].key != queue[j].key
    requires forall i :: 0 <= i < |queue| ==> queue[i].key in names
    requires forall k :: k in names ==> exists i :: 0 <= i < |queue| && queue[i].key == k
    ensures |queue| == |names|
  {
    if queue == [] {
      assert names == {};
    } else {
      var init, last := queue[..|queue| - 1], queue[|queue| - 1];
      forall k | k in names - {last.key} ensures exists i :: 0 <= i < |init| && init[i].key == k {
        var i :| 0 <= i < |queue| && queue[i].key == k;
        assert init[i].key == k;
      }
      DistinctLength(init, names - {last.key});
    }
  }

  lemma DropStaleValid(keys: map<Key, Hits>, queue: seq<Entry>)
    requires KeysQueued(keys, queue) && Ordered(queue)
    ensures QueueValid(keys, DropStale(keys, queue))
    ensures |DropStale(keys, queue)| == |keys|
  {
    DropStaleMembers(keys, queue);
    var q := DropStale(keys, queue);
    forall i | 0 <= i < |q| ensures Matches(keys, q[i]) { assert q[i] in q; }
    forall i, j | 0 <= i < j < |q| ensures q[i].key != q[j].key {
      assert Matches(keys, q[i]) && Matches(keys, q[j]);
    }
    forall k | k in keys.Keys ensures exists i :: 0 <= i < |q| && q[i].key == k {
      var e := Entry(k, keys[k].since);
      assert e in q;
      var i :| 0 <= i < |q| && q[i] == e;
      assert q[i].key == k;
    }
    DistinctLength(q, keys.Keys);
  }

  lemma SweepValid(s: State, now: nat)
    requires Valid(s, now)
    ensures Valid(Sweep(s, now), now)
    ensures SweepDue(s, now) ==> |Sweep(s, now).queue| == |Sweep(s, now).keys|
    ensures Sweep(s, now).keys.Keys <= s.keys.Keys
    ensures |Sweep(s, now).keys| <= |s.keys|
    ensures |Sweep(s, now).queue| <= |s.queue|
  {
    if SweepDue(s, now) {
      var keys := Sweep(s, now).keys;
      SubsetSize(keys.Keys, s.keys.Keys);
      DropStaleValid(keys, s.queue);
      DropStaleMembers(keys, s.queue);
    }
  }

  lemma PrepareValid(cfg: Config, s: State, now: nat)
    requires Valid(s, now) && Bounded(cfg, s)
    ensures Valid(Prepare(cfg, s, now), now) && Bounded(cfg, Prepare(cfg, s, now))
    ensures |Prepare(cfg, s, now).queue| <= |s.queue|
  {
    SweepValid(s, now);
  }

  // ---- Recording ----

  /** Room is made by evicting only at the cap; then there is space for the new key. */
  lemma MakeRoomValid(s: State, key: Key, maxKeys: nat)
    requires QueueValid(s.keys, s.queue) && maxKeys > 0
    ensures var room := MakeRoom(s, key, maxKeys); QueueValid(room.keys, room.queue)
    ensures RoomFor(s, MakeRoom(s, key, maxKeys), key, maxKeys)
  {
    EvictValid(s.keys, s.queue, maxKeys);
  }

  lemma RecordValid(cfg: Config, s: State, key: Key, window: nat, now: nat)
    requires Valid(s, now) && Bounded(cfg, s) && cfg.maxKeys > 0
    ensures Valid(Record(s, key, window, now, cfg.maxKeys), now)
    ensures Bounded(cfg, Record(s, key, window, now, cfg.maxKeys))
    ensures RecordWork(s, key, window, now, cfg.maxKeys) + 2 * |Record(s, key, window, now, cfg.maxKeys).queue|
         <= 2 * |s.queue| + 2
  {
    hide QueueValid, AllHitsValid, Record, RecordWork, MakeRoom, RoomFor, QueueGrowth;
    MakeRoomValid(s, key, cfg.maxKeys);
    RecordQueueValid(s, key, window, now, cfg.maxKeys);
    RecordHitsValid(s, key, window, now, cfg.maxKeys);
    RecordSpace(cfg, s, key, window, now);
  }

  /** What making room leaves behind. */
  ghost predicate RoomFor(s: State, room: State, key: Key, maxKeys: nat) {
    && |room.queue| <= |s.queue|
    && (forall k :: k in room.keys ==> k in s.keys && room.keys[k] == s.keys[k])
    && (key in room.keys <==> key in s.keys)
    && (key in s.keys ==> room == s)
    && (key !in s.keys ==> |room.keys| < maxKeys)
  }

  /** How long the queue may be after a restart: at most one entry longer, and compacted if that is too long. */
  ghost predicate QueueGrowth(s: State, room: State, s': State, key: Key) {
    Restarts(s, key) ==>
      && |s'.queue| <= |room.queue| + 1
      && (|room.queue| + 1 > 2 * |s'.keys| + QUEUE_SLACK ==> |s'.queue| == |s'.keys|)
  }

  lemma RecordQueueValid(s: State, key: Key, window: nat, now: nat, maxKeys: nat)
    requires Valid(s, now) && QueueValid(MakeRoom(s, key, maxKeys).keys, MakeRoom(s, key, maxKeys).queue)
    requires RoomFor(s, MakeRoom(s, key, maxKeys), key, maxKeys)
    ensures var s' := Record(s, key, window, now, maxKeys); QueueValid(s'.keys, s'.queue)
    ensures QueueGrowth(s, MakeRoom(s, key, maxKeys), Record(s, key, window, now, maxKeys), key)
  {
    hide QueueValid, MakeRoom, AllHitsValid;
    var room := MakeRoom(s, key, maxKeys);
    var s' := Record(s, key, window, now, maxKeys);
    if Restarts(s, key) {
      RestartQueueValid(s, room, s', key, now);
    } else {
      SameStarts(s.keys, s'.keys, s.queue);
    }
  }

  lemma SameStarts(keys: map<Key, Hits>, keys': map<Key, Hits>, queue: seq<Entry>)
    requires QueueValid(keys, queue) && keys'.Keys == keys.Keys
    requires forall k :: k in keys ==> keys'[k].since == keys[k].since
    ensures QueueValid(keys', queue)
  {}

  lemma RestartQueueValid(s: State, room: State, s': State, key: Key, now: nat)
    requires Valid(s, now) && QueueValid(room.keys, room.queue) && Restarts(s, key)
    requires key in room.keys <==> key in s.keys
    requires forall k :: k in room.keys ==> k in s.keys && room.keys[k] == s.keys[k]
    requires s'.keys.Keys == room.keys.Keys + {key} && s'.keys[key].since == now
    requires forall k :: k in room.keys && k != key ==> s'.keys[k] == room.keys[k]
    requires s'.queue == Compact(s'.keys, room.queue + [Entry(key, now)])
    ensures QueueValid(s'.keys, s'.queue) && QueueGrowth(s, room, s', key)
  {
    hide QueueValid, Valid, Compact;
    PushValid(s, room, key, s'.keys, now);
    CompactValid(s'.keys, room.queue + [Entry(key, now)]);
  }

  lemma CompactValid(keys: map<Key, Hits>, queue: seq<Entry>)
    requires QueueValid(keys, queue)
    ensures QueueValid(keys, Compact(keys, queue))
    ensures |Compact(keys, queue)| <= |queue|
    ensures |queue| > 2 * |keys| + QUEUE_SLACK ==> |Compact(keys, queue)| == |keys|
  {
    DropStaleMembers(keys, queue);
    DropStaleValid(keys, queue);
  }

  lemma RecordHitsValid(s: State, key: Key, window: nat, now: nat, maxKeys: nat)
    requires AllHitsValid(s.keys, now) && RoomFor(s, MakeRoom(s, key, maxKeys), key, maxKeys)
    ensures AllHitsValid(Record(s, key, window, now, maxKeys).keys, now)
  {
    var keys := Record(s, key, window, now, maxKeys).keys;
    forall k | k in keys ensures HitsValid(keys[k], now) {
      if k != key {
        assert HitsValid(s.keys[k], now);
      } else if k in s.keys {
        assert HitsValid(s.keys[k], now);
        AppendValid(s.keys[k], keys[k], now);
      } else {
        assert keys[k].times == [now];
      }
    }
  }

  lemma AppendValid(h: Hits, h': Hits, now: nat)
    requires HitsValid(h, now) && h'.times == h.times + [now] && h'.since in {h.since, now}
    ensures HitsValid(h', now)
  {
    assert h'.times[|h.times|] == now;
    forall i | 0 <= i < |h.times| ensures h'.times[i] <= now {
      assert h.times[i] in h.times;
    }
  }

  lemma RecordSpace(cfg: Config, s: State, key: Key, window: nat, now: nat)
    requires Bounded(cfg, s) && RoomFor(s, MakeRoom(s, key, cfg.maxKeys), key, cfg.maxKeys)
    requires QueueGrowth(s, MakeRoom(s, key, cfg.maxKeys), Record(s, key, window, now, cfg.maxKeys), key)
    ensures Bounded(cfg, Record(s, key, window, now, cfg.maxKeys))
    ensures RecordWork(s, key, window, now, cfg.maxKeys) + 2 * |Record(s, key, window, now, cfg.maxKeys).queue|
         <= 2 * |s.queue| + 2
  {
    var room := MakeRoom(s, key, cfg.maxKeys);
    var s' := Record(s, key, window, now, cfg.maxKeys);
    assert s'.keys.Keys == room.keys.Keys + {key};
    assert |s'.keys| == |room.keys.Keys + {key}|;
    if key in s.keys {
      assert s'.keys.Keys == s.keys.Keys;
    } else {
      assert |s'.keys| == |room.keys| + 1;
    }
    hide MakeRoom, Evict, DropStale, Compact;
  }

  /** A restarted key's new entry is its last, and the latest of all. */
  lemma PushValid(s: State, room: State, key: Key, keys: map<Key, Hits>, now: nat)
    requires Valid(s, now) && QueueValid(room.keys, room.queue) && Restarts(s, key)
    requires key in room.keys <==> key in s.keys
    requires forall k :: k in room.keys ==> k in s.keys && room.keys[k] == s.keys[k]
    requires keys.Keys == room.keys.Keys + {key} && keys[key].since == now
    requires forall k :: k in room.keys && k != key ==> keys[k] == room.keys[k]
    ensures QueueValid(keys, room.queue + [Entry(key, now)])
  {
    forall i | 0 <= i < |room.queue|
      ensures room.queue[i].since <= now && (room.queue[i].key == key ==> room.queue[i].since < now)
    {
      EntryBefore(s, room, key, now, room.queue[i]);
    }
    hide Valid, Restarts;
    PushTracked(room, key, keys, now);
    PushOrdered(room.queue, Entry(key, now));
  }

  lemma EntryBefore(s: State, room: State, key: Key, now: nat, e: Entry)
    requires Valid(s, now) && QueueValid(room.keys, room.queue) && Restarts(s, key)
    requires key in room.keys <==> key in s.keys
    requires forall k :: k in room.keys ==> k in s.keys && room.keys[k] == s.keys[k]
    requires e in room.queue
    ensures e.since <= now && (e.key == key ==> e.since < now)
  {
    assert e.key in room.keys;
    assert HitsValid(s.keys[e.key], now);
  }

  lemma PushTracked(room: State, key: Key, keys: map<Key, Hits>, now: nat)
    requires EntriesTracked(room.keys, room.queue) && KeysQueued(room.keys, room.queue)
    requires keys.Keys == room.keys.Keys + {key} && keys[key].since == now
    requires forall k :: k in room.keys && k != key ==> keys[k] == room.keys[k]
    requires forall i :: 0 <= i < |room.queue| ==> room.queue[i].since <= now
    ensures EntriesTracked(keys, room.queue + [Entry(key, now)]) && KeysQueued(keys, room.queue + [Entry(key, now)])
  {
    var pushed := room.queue + [Entry(key, now)];
    forall k | k in keys ensures Entry(k, keys[k].since) in pushed {
      if k != key { assert Entry(k, room.keys[k].since) in room.queue; }
      else { assert pushed[|room.queue|] == Entry(k, keys[k].since); }
    }
  }

  lemma PushOrdered(queue: seq<Entry>, e: Entry)
    requires Ordered(queue)
    requires forall i :: 0 <= i < |queue| ==>
      queue[i].since <= e.since && (queue[i].key == e.key ==> queue[i].since < e.since)
    ensures Ordered(queue + [e])
  {}

  // ---- Whole calls and whole runs ----

  lemma LookedValid(cfg: Config, s: State, c: Call)
    requires Valid(s, c.now) && Bounded(cfg, s) && c.window > 0
    ensures Valid(Looked(cfg, s, c), c.now) && Bounded(cfg, Looked(cfg, s, c))
    ensures |Looked(cfg, s, c).queue| <= |s.queue|
  {
    hide Valid, Trim, Prepare, Refuses, Bounded, Cut;
    PrepareValid(cfg, s, c.now);
    var o := Opened(cfg, s, c);
    if c.CheckPair? {
      TrimKeeps(cfg, o, Cut(c.block), c.window, c.now);
      TrimKeeps(cfg, Trim(o, Cut(c.block), c.window, c.now), Cut(c.key), c.window, c.now);
    } else {
      TrimKeeps(cfg, o, Cut(c.key), c.window, c.now);
    }
  }

  lemma TrimKeeps(cfg: Config, s: State, key: Key, window: nat, now: nat)
    requires Valid(s, now) && window > 0 && Bounded(cfg, s)
    ensures Valid(Trim(s, key, window, now), now) && Bounded(cfg, Trim(s, key, window, now))
    ensures Trim(s, key, window, now).queue == s.queue
  {
    TrimValid(s, key, window, now);
    assert Trim(s, key, window, now).keys.Keys == s.keys.Keys;
  }

  ghost predicate WatchValid(cfg: Config, w: Watch, clock: nat) {
    && Valid(w.s, clock)
    && Bounded(cfg, w.s)
    && w.work + 2 * |w.s.queue| <= 2 * w.recorded
  }

  lemma {:induction false} WatchAllValid(cfg: Config, w: Watch, keys: seq<Key>, window: nat, now: nat)
    requires WatchValid(cfg, w, now) && cfg.maxKeys > 0
    ensures WatchValid(cfg, WatchAll(w, keys, window, now, cfg.maxKeys), now)
    decreases |keys|
  {
    if keys != [] {
      RecordValid(cfg, w.s, keys[0], window, now);
      WatchAllValid(cfg, WatchRecord(w, keys[0], window, now, cfg.maxKeys), keys[1..], window, now);
    }
  }

  lemma TimelyPrefix(calls: seq<Call>)
    requires calls != [] && Timely(calls)
    ensures Timely(calls[..|calls| - 1]) && Clock(calls[..|calls| - 1]) <= Clock(calls)
  {}

  lemma {:induction false} RunValid(cfg: Config, calls: seq<Call>)
    requires cfg.maxKeys > 0 && Timely(calls)
    ensures WatchValid(cfg, Run(cfg, calls), Clock(calls))
    decreases |calls|
  {
    if calls != [] {
      var before, c := calls[..|calls| - 1], calls[|calls| - 1];
      TimelyPrefix(calls);
      RunValid(cfg, before);
      var w := Run(cfg, before);
      Tick(w.s, Clock(before), c.now);
      LookedValid(cfg, w.s, c);
      var looked := w.(s := Looked(cfg, w.s, c));
      if Allows(cfg, w.s, c) {
        WatchAllValid(cfg, looked, Targets(c), c.window, c.now);
      }
    }
  }

  // ---- What the invariant says to a reader ----

  /** Where a tracked key's current entry stands: it is the key's last, and its only matching one. */
  ghost predicate CurrentEntryAt(s: State, k: Key, i: nat) {
    && i < |s.queue| && k in s.keys && s.queue[i] == Entry(k, s.keys[k].since)
    && forall j :: 0 <= j < |s.queue| && j != i && s.queue[j].key == k ==> j < i && !Matches(s.keys, s.queue[j])
  }

  /** In every reachable state: each queue entry belongs to a tracked key; a tracked key has exactly one matching
      entry and it is the key's last; starts never decrease along the queue; the cap holds. */
  lemma QueueShape(cfg: Config, calls: seq<Call>)
    requires cfg.maxKeys > 0 && Timely(calls)
    ensures var s := Run(cfg, calls).s;
      && |s.keys| <= cfg.maxKeys
      && (forall e :: e in s.queue ==> e.key in s.keys)
      && (forall i, j :: 0 <= i < j < |s.queue| ==> s.queue[i].since <= s.queue[j].since)
      && (forall k :: k in s.keys ==> exists i: nat :: CurrentEntryAt(s, k, i))
  {
    RunValid(cfg, calls);
    var s := Run(cfg, calls).s;
    hide Run;
    forall k | k in s.keys ensures exists i: nat :: CurrentEntryAt(s, k, i) {
      CurrentEntryExists(s, k);
    }
  }

  lemma CurrentEntryExists(s: State, k: Key)
    requires QueueValid(s.keys, s.queue) && k in s.keys
    ensures exists i: nat :: CurrentEntryAt(s, k, i)
  {
    assert Entry(k, s.keys[k].since) in s.queue;
    var i: nat :| i < |s.queue| && s.queue[i] == Entry(k, s.keys[k].since);
    forall j | 0 <= j < |s.queue| && j != i && s.queue[j].key == k
      ensures j < i && !Matches(s.keys, s.queue[j])
    {
    }
    assert CurrentEntryAt(s, k, i);
  }

  /** The queue never outgrows the live keys by more than its slack, and all eviction pops and compaction scans of a
      run together come to at most two per recorded attempt. */
  lemma AmortisedCost(cfg: Config, calls: seq<Call>)
    requires cfg.maxKeys > 0 && Timely(calls)
    ensures Run(cfg, calls).work <= 2 * Run(cfg, calls).recorded
    ensures |Run(cfg, calls).s.queue| <= 2 * |Run(cfg, calls).s.keys| + 1024
  {
    RunValid(cfg, calls);
  }

  /** No tracked key's window began before `k`'s. */
  ghost predicate Oldest(keys: map<Key, Hits>, k: Key) {
    k in keys && forall other :: other in keys ==> keys[k].since <= keys[other].since
  }

  /** What recording `key` does to the tracked keys, from the state in which it is recorded: it adds the key, and takes
      out another exactly when the key is new and the cap is reached; then just one, and no tracked key's window began
      before that one's. */
  ghost predicate EvictsOldest(s: State, key: Key, maxKeys: nat, s': State) {
    && s'.keys.Keys == s.keys.Keys - Evicted(s, key, maxKeys) + {key}
    && if key !in s.keys && |s.keys| == maxKeys
       then exists k :: Evicted(s, key, maxKeys) == {k} && Oldest(s.keys, k)
       else Evicted(s, key, maxKeys) == {}
  }

  lemma RecordEvicts(cfg: Config, s: State, key: Key, window: nat, now: nat)
    requires QueueValid(s.keys, s.queue) && |s.keys| <= cfg.maxKeys && cfg.maxKeys > 0
    ensures EvictsOldest(s, key, cfg.maxKeys, Record(s, key, window, now, cfg.maxKeys))
  {
    hide QueueValid, Oldest, Compact;
    if key !in s.keys && |s.keys| == cfg.maxKeys {
      var k := EvictOne(s.keys, s.queue, cfg.maxKeys);
      EvictedIsOld(s.keys, k);
      assert Evicted(s, key, cfg.maxKeys) == {k};
    } else {
      assert MakeRoom(s, key, cfg.maxKeys).keys == s.keys;
    }
  }

  lemma EvictedIsOld(keys: map<Key, Hits>, k: Key)
    requires Oldest(keys, k)
    ensures k in keys
  {}

  /** The state in which a call records the `i`-th of its keys: after the sweep and the look at its counters, and, for
      the second key of a pair, after the first was recorded. */
  function Recording(cfg: Config, s: State, c: Call, i: nat): State
    requires i <= |Targets(c)|
  {
    RecordAll(Looked(cfg, s, c), Targets(c)[..i], c.window, c.now, cfg.maxKeys)
  }

  lemma {:induction false} RecordAllValid(cfg: Config, s: State, keys: seq<Key>, window: nat, now: nat)
    requires Valid(s, now) && Bounded(cfg, s) && cfg.maxKeys > 0
    ensures var s' := RecordAll(s, keys, window, now, cfg.maxKeys); Valid(s', now) && Bounded(cfg, s')
    decreases |keys|
  {
    hide Valid, Bounded, Record;
    if keys != [] {
      RecordValid(cfg, s, keys[0], window, now);
      RecordAllValid(cfg, Record(s, keys[0], window, now, cfg.maxKeys), keys[1..], window, now);
    }
  }

  lemma {:induction false} RecordLast(s: State, keys: seq<Key>, window: nat, now: nat, maxKeys: nat)
    requires keys != []
    ensures RecordAll(s, keys, window, now, maxKeys)
      == Record(RecordAll(s, keys[..|keys| - 1], window, now, maxKeys), keys[|keys| - 1], window, now, maxKeys)
    decreases |keys|
  {
    hide Record;
    if |keys| > 1 {
      RecordLast(Record(s, keys[0], window, now, maxKeys), keys[1..], window, now, maxKeys);
      assert keys[1..][..|keys| - 2] == keys[..|keys| - 1][1..];
    } else {
      assert keys[1..] == [] && keys[..0] == [];
    }
  }

  /** After any run, each attempt the next call records evicts a key only if its own key is new and the cap is reached
      in the very state it is recorded in, and then exactly one, whose window began no later than any other's. */
  lemma EvictsTheOldest(cfg: Config, calls: seq<Call>, c: Call, i: nat)
    requires cfg.maxKeys > 0 && Timely(calls) && Clock(calls) <= c.now && c.window > 0 && i < |Targets(c)|
    ensures var s := Run(cfg, calls).s;
      EvictsOldest(Recording(cfg, s, c, i), Targets(c)[i], cfg.maxKeys, Recording(cfg, s, c, i + 1))
  {
    hide Run, Timely, Valid, Bounded, Looked, Record, RecordAll;
    var s := Run(cfg, calls).s;
    ReadyFor(cfg, calls, c);
    LookedValid(cfg, s, c);
    RecordAllValid(cfg, Looked(cfg, s, c), Targets(c)[..i], c.window, c.now);
    ValidQueue(cfg, Recording(cfg, s, c, i), c.now);
    RecordEvicts(cfg, Recording(cfg, s, c, i), Targets(c)[i], c.window, c.now);
    RecordLast(Looked(cfg, s, c), Targets(c)[..i + 1], c.window, c.now, cfg.maxKeys);
    assert Targets(c)[..i + 1][..i] == Targets(c)[..i];
  }

  lemma ReadyFor(cfg: Config, calls: seq<Call>, c: Call)
    requires cfg.maxKeys > 0 && Timely(calls) && Clock(calls) <= c.now
    ensures Valid(Run(cfg, calls).s, c.now) && Bounded(cfg, Run(cfg, calls).s)
  {
    hide Run, Timely;
    RunValid(cfg, calls);
    Tick(Run(cfg, calls).s, Clock(calls), c.now);
  }

  lemma ValidQueue(cfg: Config, s: State, clock: nat)
    requires Valid(s, clock) && Bounded(cfg, s)
    ensures QueueValid(s.keys, s.queue) && |s.keys| <= cfg.maxKeys
  {}

  /** The last of those states is the one an allowed call leaves. */
  lemma RecordingEnds(cfg: Config, s: State, c: Call)
    requires Allows(cfg, s, c)
    ensures Recording(cfg, s, c, |Targets(c)|) == Step(cfg, s, c)
  {
    hide Allows, Looked, RecordAll;
    assert Targets(c)[..|Targets(c)|] == Targets(c);
  }

  lemma {:induction false} EvictOne(keys: map<Key, Hits>, queue: seq<Entry>, maxKeys: nat) returns (k: Key)
    requires QueueValid(keys, queue) && |keys| == maxKeys > 0
    ensures Oldest(keys, k) && Evict(keys, queue, maxKeys).0 == keys - {k}
    decreases |queue|
  {
    hide QueueValid, Oldest, Evict, Matches;
    NotEmptyQueue(keys, queue);
    PopValid(keys, queue);
    if Matches(keys, queue[0]) {
      k := queue[0].key;
      ValidOldest(keys, queue);
      EvictFront(keys, queue, maxKeys);
    } else {
      EvictSkips(keys, queue, maxKeys);
      k := EvictOne(keys, queue[1..], maxKeys);
    }
  }

  lemma NotEmptyQueue(keys: map<Key, Hits>, queue: seq<Entry>)
    requires QueueValid(keys, queue) && |keys| > 0
    ensures queue != []
  {
    if queue == [] { NothingQueued(keys); }
  }

  lemma ValidOldest(keys: map<Key, Hits>, queue: seq<Entry>)
    requires QueueValid(keys, queue) && queue != [] && Matches(keys, queue[0])
    ensures Oldest(keys, queue[0].key)
  {
    FrontIsOldest(keys, queue);
  }

  /** At the cap, a front entry that matches takes its key out, and that is enough. */
  lemma EvictFront(keys: map<Key, Hits>, queue: seq<Entry>, maxKeys: nat)
    requires queue != [] && Matches(keys, queue[0]) && |keys| == maxKeys > 0
    ensures Evict(keys, queue, maxKeys).0 == keys - {queue[0].key}
  {
    var keys' := keys - {queue[0].key};
    assert keys'.Keys == keys.Keys - {queue[0].key};
    assert |keys'| < maxKeys;
    assert Evict(keys', queue[1..], maxKeys).0 == keys';
  }

  lemma EvictSkips(keys: map<Key, Hits>, queue: seq<Entry>, maxKeys: nat)
    requires queue != [] && !Matches(keys, queue[0]) && |keys| >= maxKeys
    ensures Evict(keys, queue, maxKeys) == Evict(keys, queue[1..], maxKeys)
  {}

  lemma FrontIsOldest(keys: map<Key, Hits>, queue: seq<Entry>)
    requires KeysQueued(keys, queue) && Ordered(queue) && queue != [] && Matches(keys, queue[0])
    ensures Oldest(keys, queue[0].key)
  {
    forall other | other in keys ensures keys[queue[0].key].since <= keys[other].since {
      assert Entry(other, keys[other].since) in queue;
    }
  }
}
