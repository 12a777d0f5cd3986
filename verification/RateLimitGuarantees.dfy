/** What callers may rely on over whole runs of the limiter. */
module RateLimitGuarantees {
  import opened RateLimitKeys
  import opened RateLimitModel
  import opened RateLimitQueue
  import opened FiniteSets
  import opened RateLimitHistory

  // ---- With nothing evicted, the limiter is the one that never forgets ----

  lemma PrefixFixed(calls: seq<Call>, windowOf: Key -> nat)
    requires calls != [] && FixedWindows(calls, windowOf)
    ensures FixedWindows(calls[..|calls| - 1], windowOf)
    ensures forall k :: k in Names(calls[|calls| - 1]) ==> calls[|calls| - 1].window == windowOf(k)
  {
    hide Names;
    var before := calls[..|calls| - 1];
    forall i, k | 0 <= i < |before| && k in Names(before[i]) ensures before[i].window == windowOf(k) {
      assert before[i] == calls[i];
    }
  }

  lemma {:induction false} WatchAllLogs(w: Watch, keys: seq<Key>, window: nat, now: nat, maxKeys: nat)
    ensures WatchAll(w, keys, window, now, maxKeys).full == NaiveRecord(w.full, keys, now)
    ensures w.evicted <= WatchAll(w, keys, window, now, maxKeys).evicted
    decreases |keys|
  {
    hide Record, RecordWork, Evicted;
    if keys != [] {
      WatchAllLogs(WatchRecord(w, keys[0], window, now, maxKeys), keys[1..], window, now, maxKeys);
    }
  }

  lemma StepLogs(cfg: Config, w: Watch, c: Call)
    ensures WatchStep(cfg, w, c).full == if Allows(cfg, w.s, c) then NaiveRecord(w.full, Targets(c), c.now) else w.full
    ensures w.evicted <= WatchStep(cfg, w, c).evicted
  {
    hide Allows, Looked, Targets, NaiveRecord;
    WatchAllLogs(w.(s := Looked(cfg, w.s, c)), Targets(c), c.window, c.now, cfg.maxKeys);
  }

  /** In a run that evicts nothing, every decision is the naive limiter's and so is the record of what was accepted.
      The sweep threshold and the cap do not appear: sweeping cannot be observed. */
  lemma {:induction false} RefinesNaive(cfg: Config, calls: seq<Call>, windowOf: Key -> nat)
    requires cfg.maxKeys > 0 && Timely(calls) && FixedWindows(calls, windowOf)
    requires Run(cfg, calls).evicted == {}
    ensures Run(cfg, calls).full == NaiveRun(calls)
    ensures calls != [] ==> var before, c := calls[..|calls| - 1], calls[|calls| - 1];
      Allows(cfg, Run(cfg, before).s, c) == NaiveAllows(NaiveRun(before), c)
    decreases |calls|
  {
    hide Allows, NaiveAllows, WatchStep, Refines, Names, Targets, NaiveRecord, Valid, Bounded;
    if calls != [] {
      var before, c := calls[..|calls| - 1], calls[|calls| - 1];
      TimelyPrefix(calls);
      PrefixFixed(calls, windowOf);
      var w := Run(cfg, before);
      StepLogs(cfg, w, c);
      RefinesNaive(cfg, before, windowOf);
      RunReady(cfg, before, windowOf, c.now);
      DecideAt(cfg, w, windowOf, c);
    }
  }

  /** Two limiters with different caps and sweep thresholds answer every call alike, so long as neither evicts. */
  lemma SweepingIsUnobservable(a: Config, b: Config, calls: seq<Call>, windowOf: Key -> nat, n: nat)
    requires a.maxKeys > 0 && b.maxKeys > 0 && Timely(calls) && FixedWindows(calls, windowOf) && n < |calls|
    requires Run(a, calls).evicted == {} && Run(b, calls).evicted == {}
    ensures Allows(a, Run(a, calls[..n]).s, calls[n]) == Allows(b, Run(b, calls[..n]).s, calls[n])
  {
    hide Allows, NaiveAllows, Names, Run;
    var upTo := calls[..n + 1];
    assert upTo[..n] == calls[..n] && upTo[n] == calls[n];
    forall i, k | 0 <= i < |upTo| && k in Names(upTo[i]) ensures upTo[i].window == windowOf(k) {
      assert upTo[i] == calls[i];
    }
    EvictedGrows(a, calls, n + 1);
    EvictedGrows(b, calls, n + 1);
    RefinesNaive(a, upTo, windowOf);
    RefinesNaive(b, upTo, windowOf);
  }

  lemma {:induction false} EvictedGrows(cfg: Config, calls: seq<Call>, n: nat)
    requires n <= |calls|
    ensures Run(cfg, calls[..n]).evicted <= Run(cfg, calls).evicted
    decreases |calls|
  {
    hide WatchStep;
    if n == |calls| {
      assert calls[..n] == calls;
    } else {
      var before := calls[..|calls| - 1];
      assert before[..n] == calls[..n];
      EvictedGrows(cfg, before, n);
      StepLogs(cfg, Run(cfg, before), calls[|calls| - 1]);
    }
  }

  // ---- A sufficient reason for no evictions: fewer names than places ----

  ghost predicate NamesWithin(calls: seq<Call>, names: set<Key>) {
    forall i :: 0 <= i < |calls| ==> Names(calls[i]) <= names
  }

  lemma {:induction false} RecordsWithin(w: Watch, keys: seq<Key>, window: nat, now: nat, maxKeys: nat, names: set<Key>)
    requires w.s.keys.Keys <= names && w.evicted == {} && |names| <= maxKeys && forall k :: k in keys ==> k in names
    ensures var w' := WatchAll(w, keys, window, now, maxKeys); w'.s.keys.Keys <= names && w'.evicted == {}
    decreases |keys|
  {
    hide RecordWork, Compact;
    if keys != [] {
      var key := keys[0];
      assert key in keys;
      SubsetSize(w.s.keys.Keys, names);
      assert MakeRoom(w.s, key, maxKeys) == w.s;
      RecordsWithin(WatchRecord(w, key, window, now, maxKeys), keys[1..], window, now, maxKeys, names);
    }
  }

  /** A limiter asked about no more names than it has places never evicts, so it is exactly the naive one. */
  lemma {:induction false} RoomForAll(cfg: Config, calls: seq<Call>, names: set<Key>)
    requires NamesWithin(calls, names) && |names| <= cfg.maxKeys
    ensures Run(cfg, calls).s.keys.Keys <= names && Run(cfg, calls).evicted == {}
    decreases |calls|
  {
    hide Names, Refuses, Retain, Sweep, WatchAll;
    if calls != [] {
      var before, c := calls[..|calls| - 1], calls[|calls| - 1];
      RoomForAll(cfg, before, names);
      var w := Run(cfg, before);
      LookedKeys(cfg, w.s, c);
      forall k | k in Targets(c) ensures k in names { TargetsNamed(c, k); }
      RecordsWithin(w.(s := Looked(cfg, w.s, c)), Targets(c), c.window, c.now, cfg.maxKeys, names);
    }
  }

  lemma TargetsNamed(c: Call, k: Key)
    requires k in Targets(c)
    ensures k in Names(c)
  {}

  lemma LookedKeys(cfg: Config, s: State, c: Call)
    ensures Looked(cfg, s, c).keys.Keys <= s.keys.Keys
  {
    hide Retain, DropStale, Cut, Unexpired;
  }

  // ---- No window is ever overfull ----

  /** Any attempt comes at least a window after the one `max` places before it. */
  ghost predicate SpreadOut(times: seq<nat>, max: nat, window: nat) {
    && (max == 0 ==> times == [])
    && forall i, j :: 0 <= i < j < |times| && j - i >= max ==> times[j] - times[i] >= window
  }

  /** Every key keeps one limit, and a pair names two different counters. */
  ghost predicate FixedLimit(c: Call, maxOf: Key -> nat) {
    && (!c.Spent? ==> c.max == maxOf(Cut(c.key)))
    && (c.CheckPair? ==> c.blockMax == maxOf(Cut(c.block)) && Cut(c.block) != Cut(c.key))
  }

  ghost predicate FixedLimits(calls: seq<Call>, maxOf: Key -> nat) {
    forall i :: 0 <= i < |calls| ==> FixedLimit(calls[i], maxOf)
  }

  lemma {:induction false} CountTail(times: seq<nat>, from: int, to: int, n: nat)
    requires n <= |times|
    requires forall i :: n <= i < |times| ==> from < times[i] <= to
    ensures Count(times, from, to) >= |times| - n
  {
    if n < |times| {
      CountTail(times[..|times| - 1], from, to, n);
    }
  }

  lemma {:induction false} CountAtMost(times: seq<nat>, from: int, to: int, n: nat)
    requires n <= |times|
    requires forall i :: 0 <= i < n ==> !(from < times[i] <= to)
    ensures Count(times, from, to) <= |times| - n
  {
    if times != [] {
      var init := times[..|times| - 1];
      CountAtMost(init, from, to, if n == |times| then n - 1 else n);
    }
  }

  lemma SpreadAppend(times: seq<nat>, max: nat, window: nat, now: nat)
    requires Sorted(times) && SpreadOut(times, max, window) && forall t :: t in times ==> t <= now
    requires Count(times, now - window, now) < max
    ensures SpreadOut(times + [now], max, window)
  {
    var all := times + [now];
    forall i | 0 <= i < |times| && |times| - i >= max ensures now - times[i] >= window {
      if now - times[i] < window {
        forall j | i <= j < |times| ensures now - window < times[j] <= now { assert times[j] in times; }
        CountTail(times, now - window, now, i);
      }
    }
  }

  lemma {:induction false} SpreadCounts(times: seq<nat>, max: nat, window: nat, to: int)
    requires Sorted(times) && SpreadOut(times, max, window)
    ensures Count(times, to - window, to) <= max
    decreases |times|
  {
    if times != [] {
      var init, last := times[..|times| - 1], times[|times| - 1];
      if to - window < last <= to {
        CountAtMost(times, to - window, to, if |times| < max then 0 else |times| - max);
      } else {
        SpreadCounts(init, max, window, to);
      }
    }
  }

  ghost predicate AllSpread(w: Watch, windowOf: Key -> nat, maxOf: Key -> nat) {
    forall k :: SpreadOut(At(w.kept, k), maxOf(k), windowOf(k))
  }

  lemma SpreadRecord(w: Watch, windowOf: Key -> nat, maxOf: Key -> nat, key: Key, now: nat, maxKeys: nat)
    requires Refines(w, windowOf, now) && AllSpread(w, windowOf, maxOf) && RoomOnly(w.s, key, maxKeys)
    requires HasRoom(w.kept, key, maxOf(key), windowOf(key), now)
    ensures AllSpread(WatchRecord(w, key, windowOf(key), now, maxKeys), windowOf, maxOf)
  {
    hide WatchRecord, RoomOnly, SpreadOut;
    var w' := WatchRecord(w, key, windowOf(key), now, maxKeys);
    forall k ensures SpreadOut(At(w'.kept, k), maxOf(k), windowOf(k)) {
      assert Agrees(w, windowOf, now, k);
      RecordTimes(w, windowOf, key, now, maxKeys, k);
      if k == key { SpreadAppend(At(w.kept, k), maxOf(k), windowOf(k), now); }
      SpreadEmpty(maxOf(k), windowOf(k));
      assert At(w'.kept, k) in {At(w.kept, k), [], At(w.kept, k) + [now]};
    }
  }

  lemma SpreadEmpty(max: nat, window: nat)
    ensures SpreadOut([], max, window)
  {}

  lemma SpreadStep(cfg: Config, w: Watch, windowOf: Key -> nat, maxOf: Key -> nat, c: Call)
    requires cfg.maxKeys > 0 && Refines(w, windowOf, c.now) && WatchValid(cfg, w, c.now) && Windowed(c, windowOf)
    requires AllSpread(w, windowOf, maxOf) && FixedLimit(c, maxOf)
    ensures AllSpread(WatchStep(cfg, w, c), windowOf, maxOf)
  {
    hide Refines, Bounded, QueueValid, AllHitsValid, Looked, Allows, WatchRecord, RoomOnly, Cut, AllSpread;
    var looked := w.(s := Looked(cfg, w.s, c));
    SameKept(w, looked, windowOf, maxOf);
    if Allows(cfg, w.s, c) && !c.Spent? {
      assert Cut(c.key) in Names(c);
      StepDecides(cfg, w, windowOf, c);
      LookedValid(cfg, w.s, c);
      RefinesLooked(cfg, w, windowOf, c);
      var first := Targets(c)[0];
      assert first in Names(c);
      RoomKeys(looked.s, first, cfg.maxKeys);
      SpreadRecord(looked, windowOf, maxOf, first, c.now, cfg.maxKeys);
      var w1 := WatchRecord(looked, first, c.window, c.now, cfg.maxKeys);
      if c.CheckPair? {
        var key := Cut(c.key);
        WatchAllValid(cfg, looked, Targets(c)[..1], c.window, c.now);
        OneRecord(looked, Targets(c), c.window, c.now, cfg.maxKeys);
        RefinesRecord(looked, windowOf, first, c.now, cfg.maxKeys);
        OtherKeyRoom(looked, windowOf, first, c.now, cfg.maxKeys, key, c.max);
        RoomKeys(w1.s, key, cfg.maxKeys);
        SpreadRecord(w1, windowOf, maxOf, key, c.now, cfg.maxKeys);
        PairRecords(looked, first, key, c.window, c.now, cfg.maxKeys);
      } else {
        OneRecord(looked, Targets(c), c.window, c.now, cfg.maxKeys);
      }
    }
  }

  lemma SameKept(w: Watch, w': Watch, windowOf: Key -> nat, maxOf: Key -> nat)
    requires w'.kept == w.kept
    ensures AllSpread(w', windowOf, maxOf) == AllSpread(w, windowOf, maxOf)
  {}

  lemma PairRecords(w: Watch, a: Key, b: Key, window: nat, now: nat, maxKeys: nat)
    ensures WatchAll(w, [a, b], window, now, maxKeys)
         == WatchRecord(WatchRecord(w, a, window, now, maxKeys), b, window, now, maxKeys)
  {
    hide WatchRecord;
    assert [a, b][1..] == [b] && [b][1..] == [];
    var w1 := WatchRecord(w, a, window, now, maxKeys);
    assert WatchAll(w1, [b], window, now, maxKeys)
        == WatchAll(WatchRecord(w1, b, window, now, maxKeys), [], window, now, maxKeys);
  }

  /** Recording one counter of a pair leaves room in the other (unless it evicts it, which only makes more). */
  lemma OtherKeyRoom(w: Watch, windowOf: Key -> nat, key: Key, now: nat, maxKeys: nat, other: Key, max: nat)
    requires RoomOnly(w.s, key, maxKeys) && other != key
    requires HasRoom(w.kept, other, max, windowOf(other), now)
    ensures HasRoom(WatchRecord(w, key, windowOf(key), now, maxKeys).kept, other, max, windowOf(other), now)
  {
    hide WatchRecord, RoomOnly;
    RecordTimes(w, windowOf, key, now, maxKeys, other);
  }

  lemma {:induction false} RunSpread(cfg: Config, calls: seq<Call>, windowOf: Key -> nat, maxOf: Key -> nat)
    requires cfg.maxKeys > 0 && Timely(calls) && FixedWindows(calls, windowOf) && FixedLimits(calls, maxOf)
    ensures AllSpread(Run(cfg, calls), windowOf, maxOf)
    decreases |calls|
  {
    hide WatchStep, Refines, WatchValid, AllSpread, Names, FixedLimit;
    if calls == [] {
      StartSpread(windowOf, maxOf);
    } else {
      var before, c := calls[..|calls| - 1], calls[|calls| - 1];
      TimelyPrefix(calls);
      PrefixFixed(calls, windowOf);
      RunSpread(cfg, before, windowOf, maxOf);
      RunReady(cfg, before, windowOf, c.now);
      SpreadStep(cfg, Run(cfg, before), windowOf, maxOf, c);
    }
  }

  lemma StartSpread(windowOf: Key -> nat, maxOf: Key -> nat)
    ensures AllSpread(START, windowOf, maxOf)
  {}

  /** No half-open interval one window long, wherever it ends, ever holds more than a key's limit of accepted
      attempts (counting from the key's last eviction, hence all of them for a key never evicted). */
  lemma NeverOverfull(cfg: Config, calls: seq<Call>, windowOf: Key -> nat, maxOf: Key -> nat, k: Key, to: int)
    requires cfg.maxKeys > 0 && Timely(calls) && FixedWindows(calls, windowOf) && FixedLimits(calls, maxOf)
    ensures var w := Run(cfg, calls);
      && Count(At(w.kept, k), to - windowOf(k), to) <= maxOf(k)
      && (k !in w.evicted ==> Count(At(w.full, k), to - windowOf(k), to) <= maxOf(k))
  {
    hide Run, SpreadOut, Valid, Bounded;
    RunSpread(cfg, calls, windowOf, maxOf);
    RunReady(cfg, calls, windowOf, Clock(calls));
    assert Agrees(Run(cfg, calls), windowOf, Clock(calls), k);
    SpreadCounts(At(Run(cfg, calls).kept, k), maxOf(k), windowOf(k), to);
  }

  /** Why the two names of a pair must differ: on a fresh limiter a pair naming one counter twice, each time with a
      limit of one, is allowed and puts two attempts into it. */
  lemma PairOnOneName(cfg: Config, key: Key, window: nat, now: nat)
    requires cfg.maxKeys > 0 && window > 0
    ensures var calls := [CheckPair(key, 1, key, 1, window, now)];
      At(Run(cfg, calls).full, Cut(key)) == [now, now]
  {
    hide Cut, Evict, Compact, RecordWork;
    var c := CheckPair(key, 1, key, 1, window, now);
    var calls := [c];
    var k := Cut(key);
    assert calls[..0] == [] && Run(cfg, calls) == WatchStep(cfg, START, c);
    assert Looked(cfg, EMPTY, c) == EMPTY && Allows(cfg, EMPTY, c);
    PairRecords(START, k, k, window, now, cfg.maxKeys);
    assert At(WatchRecord(START, k, window, now, cfg.maxKeys).full, k) == [now];
  }

  /** Attempts kept for a key in the window ending now. */
  function Within(w: Watch, key: Key, window: nat, now: nat): nat { Count(At(w.kept, key), now - window, now) }

  /** A pair call keeps both counters within their limits exactly when it does not name, after cutting, one counter
      twice with a single attempt left in it. */
  lemma PairOverfillsExactlyWhen(cfg: Config, calls: seq<Call>, windowOf: Key -> nat, c: Call)
    requires cfg.maxKeys > 0 && Timely(calls + [c]) && FixedWindows(calls + [c], windowOf) && c.CheckPair?
    requires Within(Run(cfg, calls), Cut(c.block), c.window, c.now) <= c.blockMax
    requires Within(Run(cfg, calls), Cut(c.key), c.window, c.now) <= c.max
    ensures var (w, w') := (Run(cfg, calls), WatchStep(cfg, Run(cfg, calls), c));
      var left := (if c.blockMax < c.max then c.blockMax else c.max) - Within(w, Cut(c.key), c.window, c.now);
      (Within(w', Cut(c.block), c.window, c.now) <= c.blockMax && Within(w', Cut(c.key), c.window, c.now) <= c.max)
      <==> !(Cut(c.block) == Cut(c.key) && left == 1)
  {
    hide Run, Names, QueueValid, AllHitsValid, Bounded, Looked, Allows, Cut, Refines, Within, WatchStep, WatchValid;
    var all := calls + [c];
    assert all[..|calls|] == calls && all[|calls|] == c;
    TimelyPrefix(all);
    PrefixFixed(all, windowOf);
    assert Windowed(c, windowOf) by { assert all[|calls|].window > 0; }
    RunReady(cfg, calls, windowOf, c.now);
    var w := Run(cfg, calls);
    PairDecides(cfg, w, windowOf, c);
    if Allows(cfg, w.s, c) {
      PairGrows(cfg, w, windowOf, c);
    }
  }

  lemma PairDecides(cfg: Config, w: Watch, windowOf: Key -> nat, c: Call)
    requires Refines(w, windowOf, c.now) && WatchValid(cfg, w, c.now) && Windowed(c, windowOf) && c.CheckPair?
    ensures Allows(cfg, w.s, c) <==>
      Within(w, Cut(c.key), c.window, c.now) < c.max && Within(w, Cut(c.block), c.window, c.now) < c.blockMax
    ensures !Allows(cfg, w.s, c) ==>
      forall k :: Within(WatchStep(cfg, w, c), k, c.window, c.now) == Within(w, k, c.window, c.now)
  {
    hide Refines, Allows, Looked, Cut, Count, WatchValid, Windowed;
    DecideAt(cfg, w, windowOf, c);
  }

  /** What an allowed pair call does to its two counters: one more attempt in each, two if they are the same; recording
      the key may evict the block's counter, which empties it. */
  lemma PairGrows(cfg: Config, w: Watch, windowOf: Key -> nat, c: Call)
    requires cfg.maxKeys > 0 && Refines(w, windowOf, c.now) && WatchValid(cfg, w, c.now) && Windowed(c, windowOf)
    requires c.CheckPair? && Allows(cfg, w.s, c)
    ensures var w' := WatchStep(cfg, w, c);
      var grown := Within(w', Cut(c.block), c.window, c.now);
      && (Cut(c.block) == Cut(c.key) ==> grown == Within(w, Cut(c.key), c.window, c.now) + 2)
      && (Cut(c.block) != Cut(c.key) ==> grown in {0, Within(w, Cut(c.block), c.window, c.now) + 1})
      && (Cut(c.block) != Cut(c.key) ==>
            Within(w', Cut(c.key), c.window, c.now) in {1, Within(w, Cut(c.key), c.window, c.now) + 1})
  {
    hide QueueValid, AllHitsValid, Bounded, Looked, Allows, Cut, Refines, WatchRecord, Within, RoomOnly;
    var looked := w.(s := Looked(cfg, w.s, c));
    var block, key := Cut(c.block), Cut(c.key);
    assert block in Names(c) && key in Names(c);
    LookedValid(cfg, w.s, c);
    RefinesLooked(cfg, w, windowOf, c);
    RoomKeys(looked.s, block, cfg.maxKeys);
    var w1 := WatchRecord(looked, block, c.window, c.now, cfg.maxKeys);
    WatchAllValid(cfg, looked, Targets(c)[..1], c.window, c.now);
    OneRecord(looked, Targets(c), c.window, c.now, cfg.maxKeys);
    RoomKeys(w1.s, key, cfg.maxKeys);
    PairRecords(looked, block, key, c.window, c.now, cfg.maxKeys);
    RecordGrows(looked, windowOf, block, c.now, cfg.maxKeys, block);
    RecordGrows(looked, windowOf, block, c.now, cfg.maxKeys, key);
    RecordGrows(w1, windowOf, key, c.now, cfg.maxKeys, block);
    RecordGrows(w1, windowOf, key, c.now, cfg.maxKeys, key);
    SameWithin(w, looked, c.window, c.now);
  }

  lemma SameWithin(w: Watch, w': Watch, window: nat, now: nat)
    requires w'.kept == w.kept
    ensures forall k :: Within(w', k, window, now) == Within(w, k, window, now)
  {}

  lemma RecordGrows(w: Watch, windowOf: Key -> nat, key: Key, now: nat, maxKeys: nat, k: Key)
    requires RoomOnly(w.s, key, maxKeys) && windowOf(key) > 0
    ensures var w' := WatchRecord(w, key, windowOf(key), now, maxKeys);
      Within(w', k, windowOf(key), now)
      in if k == key then {Within(w, k, windowOf(key), now) + 1} else {0, Within(w, k, windowOf(key), now)}
  {
    hide WatchRecord, RoomOnly, Count;
    RecordTimes(w, windowOf, key, now, maxKeys, k);
    OneMore(At(w.kept, k), windowOf(key), now);
  }

  lemma OneMore(times: seq<nat>, window: nat, now: nat)
    requires window > 0
    ensures Count(times + [now], now - window, now) == Count(times, now - window, now) + 1
    ensures Count([], now - window, now) == 0
  {
    assert (times + [now])[..|times|] == times;
  }

  // ---- A block's attempts are its keys' attempts ----

  /** Attempts of these keys in (from, to], added up. */
  function Total(log: map<Key, seq<nat>>, keys: seq<Key>, from: int, to: int): nat {
    if keys == [] then 0
    else Total(log, keys[..|keys| - 1], from, to) + Count(At(log, keys[|keys| - 1]), from, to)
  }

  ghost predicate Distinct(keys: seq<Key>) {
    forall i, j :: 0 <= i < j < |keys| ==> keys[i] != keys[j]
  }

  /** The call records the block together with one of its keys, or records neither the block nor any of them. */
  ghost predicate OnlyAsPair(c: Call, block: Key, keys: seq<Key>) {
    || (c.CheckPair? && Cut(c.block) == block && Cut(c.key) in keys)
    || (forall k :: k in Targets(c) ==> k != block && k !in keys)
  }

  lemma {:induction false} TotalSame(log: map<Key, seq<nat>>, log': map<Key, seq<nat>>, keys: seq<Key>,
                                    from: int, to: int)
    requires forall k :: k in keys ==> At(log', k) == At(log, k)
    ensures Total(log', keys, from, to) == Total(log, keys, from, to)
  {
    if keys != [] {
      var init := keys[..|keys| - 1];
      assert keys[|keys| - 1] in keys && forall k :: k in init ==> k in keys;
      TotalSame(log, log', init, from, to);
    }
  }

  lemma {:induction false} TotalAppend(log: map<Key, seq<nat>>, keys: seq<Key>, key: Key, now: nat, from: int, to: int)
    requires Distinct(keys) && key in keys
    ensures Total(log[key := At(log, key) + [now]], keys, from, to)
         == Total(log, keys, from, to) + if from < now <= to then 1 else 0
  {
    var log' := log[key := At(log, key) + [now]];
    var init, last := keys[..|keys| - 1], keys[|keys| - 1];
    assert (At(log, key) + [now])[..|At(log, key)|] == At(log, key);
    if last == key {
      forall k | k in init ensures k != key { assert exists i :: 0 <= i < |init| && keys[i] == k; }
      TotalSame(log, log', init, from, to);
    } else {
      TotalAppend(log, init, key, now, from, to);
    }
  }

  lemma {:induction false} RecordedElsewhere(log: map<Key, seq<nat>>, targets: seq<Key>, now: nat, k: Key)
    requires k !in targets
    ensures At(NaiveRecord(log, targets, now), k) == At(log, k)
    decreases |targets|
  {
    if targets != [] {
      assert targets[0] in targets && forall x :: x in targets[1..] ==> x in targets;
      RecordedElsewhere(log[targets[0] := At(log, targets[0]) + [now]], targets[1..], now, k);
    }
  }

  lemma {:induction false} PairsConserve(cfg: Config, calls: seq<Call>, block: Key, keys: seq<Key>, from: int, to: int)
    requires Distinct(keys) && block !in keys
    requires forall i :: 0 <= i < |calls| ==> OnlyAsPair(calls[i], block, keys)
    ensures var log := Run(cfg, calls).full; Count(At(log, block), from, to) == Total(log, keys, from, to)
    decreases |calls|
  {
    hide Allows, WatchStep, Cut, Distinct;
    if calls == [] {
      TotalSame(map[], map[], keys, from, to);
      TotalEmpty(keys, from, to);
    } else {
      var before, c := calls[..|calls| - 1], calls[|calls| - 1];
      PairsConserve(cfg, before, block, keys, from, to);
      StepLogs(cfg, Run(cfg, before), c);
      if Allows(cfg, Run(cfg, before).s, c) {
        ConserveRecord(Run(cfg, before).full, c, block, keys, from, to);
      }
    }
  }

  lemma {:induction false} TotalEmpty(keys: seq<Key>, from: int, to: int)
    ensures Total(map[], keys, from, to) == 0
  {
    if keys != [] { TotalEmpty(keys[..|keys| - 1], from, to); }
  }

  lemma ConserveRecord(log: map<Key, seq<nat>>, c: Call, block: Key, keys: seq<Key>, from: int, to: int)
    requires Distinct(keys) && block !in keys && OnlyAsPair(c, block, keys)
    requires Count(At(log, block), from, to) == Total(log, keys, from, to)
    ensures var log' := NaiveRecord(log, Targets(c), c.now);
      Count(At(log', block), from, to) == Total(log', keys, from, to)
  {
    hide Distinct, Cut;
    var log' := NaiveRecord(log, Targets(c), c.now);
    if c.CheckPair? && Cut(c.block) == block && Cut(c.key) in keys {
      var key := Cut(c.key);
      var log1 := log[block := At(log, block) + [c.now]];
      assert Targets(c)[1..] == [key] && [key][1..] == [];
      var log2 := log1[key := At(log1, key) + [c.now]];
      assert NaiveRecord(log1, [key], c.now) == NaiveRecord(log2, [], c.now);
      assert (At(log, block) + [c.now])[..|At(log, block)|] == At(log, block);
      TotalSame(log, log1, keys, from, to);
      TotalAppend(log1, keys, key, c.now, from, to);
    } else {
      RecordedElsewhere(log, Targets(c), c.now, block);
      forall k | k in keys ensures At(log', k) == At(log, k) { RecordedElsewhere(log, Targets(c), c.now, k); }
      TotalSame(log, log', keys, from, to);
    }
  }

  /** How many attempts the limiter itself still counts for a key at `now`. */
  function Counted(s: State, k: Key, window: nat, now: nat): nat { |Retain(TimesOf(s, k), window, now)| }

  function CountedTotal(s: State, keys: seq<Key>, window: nat, now: nat): nat {
    if keys == [] then 0
    else CountedTotal(s, keys[..|keys| - 1], window, now) + Counted(s, keys[|keys| - 1], window, now)
  }

  /** When a block and its keys are only ever counted together, in one window and with none of them evicted, what the
      limiter counts for the block at any moment is the sum of what it counts for the keys. */
  lemma BlockCountsItsKeys(cfg: Config, calls: seq<Call>, windowOf: Key -> nat, block: Key, keys: seq<Key>, now: nat)
    requires cfg.maxKeys > 0 && Timely(calls) && FixedWindows(calls, windowOf) && Clock(calls) <= now
    requires Distinct(keys) && block !in keys && forall k :: k in keys ==> windowOf(k) == windowOf(block)
    requires forall i :: 0 <= i < |calls| ==> OnlyAsPair(calls[i], block, keys)
    requires block !in Run(cfg, calls).evicted && forall k :: k in keys ==> k !in Run(cfg, calls).evicted
    ensures var s := Run(cfg, calls).s;
      Counted(s, block, windowOf(block), now) == CountedTotal(s, keys, windowOf(block), now)
  {
    hide Run, OnlyAsPair, Valid, Bounded, Names, Refines, Distinct;
    RunReady(cfg, calls, windowOf, now);
    var w := Run(cfg, calls);
    PairsConserve(cfg, calls, block, keys, now - windowOf(block), now);
    CountedIsLogged(w, windowOf, now, block);
    CountedTotalIsLogged(w, windowOf, now, keys, windowOf(block));
  }

  lemma CountedIsLogged(w: Watch, windowOf: Key -> nat, now: nat, k: Key)
    requires Refines(w, windowOf, now) && k !in w.evicted
    ensures Counted(w.s, k, windowOf(k), now) == Count(At(w.full, k), now - windowOf(k), now)
  {
    assert Agrees(w, windowOf, now, k);
    RetainCounts(At(w.kept, k), windowOf(k), now);
  }

  lemma {:induction false} CountedTotalIsLogged(w: Watch, windowOf: Key -> nat, now: nat, keys: seq<Key>, window: nat)
    requires Refines(w, windowOf, now) && forall k :: k in keys ==> k !in w.evicted && windowOf(k) == window
    ensures CountedTotal(w.s, keys, window, now) == Total(w.full, keys, now - window, now)
    decreases |keys|
  {
    hide Refines, Counted, At, Count;
    if keys != [] {
      var init, last := keys[..|keys| - 1], keys[|keys| - 1];
      assert last in keys;
      assert forall k :: k in init ==> k in keys;
      CountedIsLogged(w, windowOf, now, last);
      CountedTotalIsLogged(w, windowOf, now, init, window);
    }
  }

  /** A refused call changes neither record, and what is counted for any key at that moment stays as it was. */
  lemma RefusalCountsNothing(cfg: Config, calls: seq<Call>, windowOf: Key -> nat, c: Call, k: Key)
    requires cfg.maxKeys > 0 && Timely(calls + [c]) && FixedWindows(calls + [c], windowOf)
    requires !Allows(cfg, Run(cfg, calls).s, c)
    ensures var (w, w') := (Run(cfg, calls), WatchStep(cfg, Run(cfg, calls), c));
      && w'.full == w.full && w'.kept == w.kept && w'.evicted == w.evicted
      && Counted(w'.s, k, windowOf(k), c.now) == Counted(w.s, k, windowOf(k), c.now)
  {
    hide Run, Names, QueueValid, AllHitsValid, Bounded, Looked, Allows;
    var all := calls + [c];
    assert all[..|calls|] == calls && all[|calls|] == c;
    TimelyPrefix(all);
    PrefixFixed(all, windowOf);
    assert Windowed(c, windowOf) by { assert all[|calls|].window > 0; }
    RunReady(cfg, calls, windowOf, c.now);
    var w := Run(cfg, calls);
    RefinesLooked(cfg, w, windowOf, c);
    assert Agrees(w, windowOf, c.now, k) && Agrees(w.(s := Looked(cfg, w.s, c)), windowOf, c.now, k);
  }

  // ---- What holds with no assumption on clocks or windows ----

  ghost predicate Covered(cfg: Config, s: State) {
    KeysQueued(s.keys, s.queue) && |s.keys| <= cfg.maxKeys
  }

  lemma {:induction false} EvictCovers(keys: map<Key, Hits>, queue: seq<Entry>, maxKeys: nat)
    requires KeysQueued(keys, queue) && maxKeys > 0
    ensures var (k', q') := Evict(keys, queue, maxKeys);
      KeysQueued(k', q') && |k'| < maxKeys && k'.Keys <= keys.Keys
    decreases |queue|
  {
    if |keys| < maxKeys {
    } else if queue == [] {
      NothingQueued(keys);
    } else {
      var keys' := if Matches(keys, queue[0]) then keys - {queue[0].key} else keys;
      forall k | k in keys' ensures Entry(k, keys'[k].since) in queue[1..] { assert Entry(k, keys[k].since) in queue; }
      assert Evict(keys, queue, maxKeys) == Evict(keys', queue[1..], maxKeys);
      EvictCovers(keys', queue[1..], maxKeys);
    }
  }

  lemma RecordCovers(cfg: Config, s: State, key: Key, window: nat, now: nat)
    requires Covered(cfg, s) && cfg.maxKeys > 0
    ensures Covered(cfg, Record(s, key, window, now, cfg.maxKeys))
  {
    hide Evict, DropStale;
    var room := MakeRoom(s, key, cfg.maxKeys);
    if key !in s.keys { EvictCovers(s.keys, s.queue, cfg.maxKeys); }
    var s' := Record(s, key, window, now, cfg.maxKeys);
    assert s'.keys.Keys == room.keys.Keys + {key};
    if Restarts(s, key) {
      var pushed := room.queue + [Entry(key, now)];
      DropStaleMembers(s'.keys, pushed);
      forall k | k in s'.keys ensures Entry(k, s'.keys[k].since) in s'.queue {
        if k == key { assert pushed[|room.queue|] == Entry(k, now); }
        else { assert Entry(k, room.keys[k].since) in room.queue; }
      }
    } else {
      assert s'.keys.Keys == s.keys.Keys;
      forall k | k in s'.keys ensures Entry(k, s'.keys[k].since) in s'.queue {
        assert Entry(k, s.keys[k].since) in s.queue;
      }
    }
  }

  lemma LookedCovers(cfg: Config, s: State, c: Call)
    requires Covered(cfg, s)
    ensures Covered(cfg, Looked(cfg, s, c))
  {
    hide Covered, Trim, Sweep, Refuses, Cut;
    SweepCovers(cfg, s, c.now);
    var o := Opened(cfg, s, c);
    TrimCovers(cfg, o, Cut(c.key), c.window, c.now);
    if c.CheckPair? {
      TrimCovers(cfg, o, Cut(c.block), c.window, c.now);
      TrimCovers(cfg, Trim(o, Cut(c.block), c.window, c.now), Cut(c.key), c.window, c.now);
    }
  }

  lemma TrimCovers(cfg: Config, s: State, key: Key, window: nat, now: nat)
    requires Covered(cfg, s)
    ensures Covered(cfg, Trim(s, key, window, now))
  {
    var s' := Trim(s, key, window, now);
    assert s'.keys.Keys == s.keys.Keys;
    forall k | k in s'.keys ensures Entry(k, s'.keys[k].since) in s'.queue {
      assert Entry(k, s.keys[k].since) in s.queue;
    }
  }

  lemma SweepCovers(cfg: Config, s: State, now: nat)
    requires Covered(cfg, s)
    ensures Covered(cfg, Sweep(s, now))
  {
    hide DropStale;
    var s' := Sweep(s, now);
    SubsetSize(s'.keys.Keys, s.keys.Keys);
    DropStaleMembers(s'.keys, s.queue);
    forall k | k in s'.keys ensures Entry(k, s'.keys[k].since) in s'.queue {
      assert Entry(k, s.keys[k].since) in s.queue;
    }
  }

  lemma {:induction false} AllCovers(cfg: Config, s: State, keys: seq<Key>, window: nat, now: nat)
    requires Covered(cfg, s) && cfg.maxKeys > 0
    ensures Covered(cfg, RecordAll(s, keys, window, now, cfg.maxKeys))
    decreases |keys|
  {
    hide Covered, Record;
    if keys != [] {
      RecordCovers(cfg, s, keys[0], window, now);
      AllCovers(cfg, Record(s, keys[0], window, now, cfg.maxKeys), keys[1..], window, now);
    }
  }

  /** Whatever the clock and the windows do, the cap holds and every tracked key can be evicted: it has a queue entry
      for its current window. */
  lemma {:induction false} CapAlwaysHolds(cfg: Config, calls: seq<Call>)
    requires cfg.maxKeys > 0
    ensures Covered(cfg, Run(cfg, calls).s)
    decreases |calls|
  {
    hide Looked, Allows, RecordAll, WatchStep, Targets;
    if calls != [] {
      var before, c := calls[..|calls| - 1], calls[|calls| - 1];
      CapAlwaysHolds(cfg, before);
      var s := Run(cfg, before).s;
      LookedCovers(cfg, s, c);
      AllCovers(cfg, Looked(cfg, s, c), Targets(c), c.window, c.now);
      assert Run(cfg, calls).s == Step(cfg, s, c);
    }
  }
}
