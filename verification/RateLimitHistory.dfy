/** The limiter against the obvious one: keep every accepted attempt for ever and count those in the window. */
module RateLimitHistory {
  import opened RateLimitKeys
  import opened RateLimitModel
  import opened RateLimitQueue

  /** How many of `times` lie in (from, to]. */
  function Count(times: seq<nat>, from: int, to: int): nat {
    if times == [] then 0
    else Count(times[..|times| - 1], from, to) + if from < times[|times| - 1] <= to then 1 else 0
  }

  predicate HasRoom(log: map<Key, seq<nat>>, key: Key, max: nat, window: nat, now: nat) {
    Count(At(log, key), now - window, now) < max
  }

  predicate NaiveAllows(log: map<Key, seq<nat>>, c: Call) {
    && HasRoom(log, Cut(c.key), c.max, c.window, c.now)
    && (c.CheckPair? ==> HasRoom(log, Cut(c.block), c.blockMax, c.window, c.now))
  }

  function NaiveRecord(log: map<Key, seq<nat>>, keys: seq<Key>, now: nat): map<Key, seq<nat>>
    decreases |keys|
  {
    if keys == [] then log else NaiveRecord(log[keys[0] := At(log, keys[0]) + [now]], keys[1..], now)
  }

  function NaiveStep(log: map<Key, seq<nat>>, c: Call): map<Key, seq<nat>> {
    if NaiveAllows(log, c) then NaiveRecord(log, Targets(c), c.now) else log
  }

  /** The limiter that never forgets, over a whole run. */
  function NaiveRun(calls: seq<Call>): map<Key, seq<nat>> {
    if calls == [] then map[] else NaiveStep(NaiveRun(calls[..|calls| - 1]), calls[|calls| - 1])
  }

  // ---- Forgetting expired attempts loses nothing ----

  lemma {:induction false} RetainTwice(times: seq<nat>, window: nat, now: nat, later: nat)
    requires now <= later
    ensures Retain(Retain(times, window, now), window, later) == Retain(times, window, later)
  {
    if times != [] {
      var init, last := times[..|times| - 1], times[|times| - 1];
      RetainTwice(init, window, now, later);
      var kept := Retain(init, window, now);
      if Live(last, window, now) { assert (kept + [last])[..|kept|] == kept; }
      else { assert kept + [] == kept; }
    }
  }

  lemma {:induction false} RetainCounts(times: seq<nat>, window: nat, now: nat)
    requires forall t :: t in times ==> t <= now
    ensures |Retain(times, window, now)| == Count(times, now - window, now)
  {
    if times != [] {
      var init := times[..|times| - 1];
      assert times[|times| - 1] in times && forall t :: t in init ==> t in times;
      RetainCounts(init, window, now);
    }
  }

  lemma RetainAppend(times: seq<nat>, window: nat, now: nat)
    requires window > 0
    ensures Retain(times + [now], window, now) == Retain(times, window, now) + [now]
  {
    assert (times + [now])[..|times|] == times;
  }

  lemma {:induction false} AllExpired(times: seq<nat>, window: nat, now: nat)
    requires Sorted(times) && (times != [] ==> !Live(times[|times| - 1], window, now))
    ensures Retain(times, window, now) == []
  {
    if times != [] {
      AllExpired(times[..|times| - 1], window, now);
    }
  }

  // ---- The refinement invariant ----

  /** What the limiter still holds for `k` answers every question its kept history answers. */
  ghost predicate Agrees(w: Watch, windowOf: Key -> nat, clock: nat, k: Key) {
    && (k in w.s.keys ==> w.s.keys[k].window == windowOf(k))
    && Retain(TimesOf(w.s, k), windowOf(k), clock) == Retain(At(w.kept, k), windowOf(k), clock)
    && Sorted(At(w.kept, k))
    && (forall t :: t in At(w.kept, k) ==> t <= clock)
    && (k !in w.evicted ==> At(w.kept, k) == At(w.full, k))
  }

  ghost predicate Refines(w: Watch, windowOf: Key -> nat, clock: nat) {
    forall k :: Agrees(w, windowOf, clock, k)
  }

  lemma RefinesLater(w: Watch, windowOf: Key -> nat, clock: nat, now: nat)
    requires Refines(w, windowOf, clock) && clock <= now
    ensures Refines(w, windowOf, now)
  {
    forall k ensures Agrees(w, windowOf, now, k) {
      assert Agrees(w, windowOf, clock, k);
      RetainTwice(TimesOf(w.s, k), windowOf(k), clock, now);
      RetainTwice(At(w.kept, k), windowOf(k), clock, now);
    }
  }

  lemma RefinesTrim(w: Watch, windowOf: Key -> nat, key: Key, now: nat)
    requires Refines(w, windowOf, now)
    ensures Refines(w.(s := Trim(w.s, key, windowOf(key), now)), windowOf, now)
  {
    var w' := w.(s := Trim(w.s, key, windowOf(key), now));
    forall k ensures Agrees(w', windowOf, now, k) {
      assert Agrees(w, windowOf, now, k);
      if k == key { RetainTwice(TimesOf(w.s, k), windowOf(k), now, now); }
      else { assert TimesOf(w'.s, k) == TimesOf(w.s, k); }
    }
  }

  /** A sweep drops only keys with nothing left to count. */
  lemma RefinesSweep(w: Watch, windowOf: Key -> nat, now: nat)
    requires Refines(w, windowOf, now) && AllHitsValid(w.s.keys, now)
    ensures Refines(w.(s := Sweep(w.s, now)), windowOf, now)
  {
    var w' := w.(s := Sweep(w.s, now));
    forall k ensures Agrees(w', windowOf, now, k) {
      assert Agrees(w, windowOf, now, k);
      if k in w.s.keys && k !in w'.s.keys {
        assert HitsValid(w.s.keys[k], now);
        AllExpired(w.s.keys[k].times, windowOf(k), now);
      }
    }
  }

  lemma RefinesRecord(w: Watch, windowOf: Key -> nat, key: Key, now: nat, maxKeys: nat)
    requires Refines(w, windowOf, now) && windowOf(key) > 0 && maxKeys > 0
    requires QueueValid(w.s.keys, w.s.queue)
    ensures Refines(WatchRecord(w, key, windowOf(key), now, maxKeys), windowOf, now)
  {
    hide QueueValid, WatchRecord, RoomOnly;
    RoomKeys(w.s, key, maxKeys);
    forall k ensures Agrees(WatchRecord(w, key, windowOf(key), now, maxKeys), windowOf, now, k) {
      assert Agrees(w, windowOf, now, k);
      AgreesRecord(w, windowOf, key, now, maxKeys, k);
    }
  }

  lemma AgreesRecord(w: Watch, windowOf: Key -> nat, key: Key, now: nat, maxKeys: nat, k: Key)
    requires Agrees(w, windowOf, now, k) && windowOf(key) > 0 && RoomOnly(w.s, key, maxKeys)
    ensures Agrees(WatchRecord(w, key, windowOf(key), now, maxKeys), windowOf, now, k)
  {
    hide MakeRoom, RoomOnly, Record, RecordWork, Retain;
    RecordTimes(w, windowOf, key, now, maxKeys, k);
    if k == key {
      RetainAppend(TimesOf(w.s, k), windowOf(k), now);
      RetainAppend(At(w.kept, k), windowOf(k), now);
      SortedAppend(At(w.kept, k), now);
    }
  }

  /** What making room does to the keys themselves. */
  ghost predicate RoomOnly(s: State, key: Key, maxKeys: nat) {
    var room := MakeRoom(s, key, maxKeys);
    && (forall k :: k in room.keys ==> k in s.keys && room.keys[k] == s.keys[k])
    && (key in room.keys <==> key in s.keys)
  }

  lemma RoomKeys(s: State, key: Key, maxKeys: nat)
    requires QueueValid(s.keys, s.queue) && maxKeys > 0
    ensures RoomOnly(s, key, maxKeys)
  {
    hide QueueValid, MakeRoom;
    MakeRoomValid(s, key, maxKeys);
  }

  lemma RecordTimes(w: Watch, windowOf: Key -> nat, key: Key, now: nat, maxKeys: nat, k: Key)
    requires RoomOnly(w.s, key, maxKeys)
    ensures var w' := WatchRecord(w, key, windowOf(key), now, maxKeys);
      var gone := k in Evicted(w.s, key, maxKeys);
      && (k == key ==> TimesOf(w'.s, k) == TimesOf(w.s, k) + [now] && !gone)
      && (k == key ==> At(w'.kept, k) == At(w.kept, k) + [now] && At(w'.full, k) == At(w.full, k) + [now])
      && (k != key && gone ==> k !in w'.s.keys && At(w'.kept, k) == [])
      && (k != key && !gone ==> TimesOf(w'.s, k) == TimesOf(w.s, k) && At(w'.kept, k) == At(w.kept, k))
      && (k != key ==> At(w'.full, k) == At(w.full, k))
      && (k == key ==> k in w'.s.keys && w'.s.keys[k].window == windowOf(key))
      && (k != key && k in w'.s.keys ==> k in w.s.keys && w'.s.keys[k].window == w.s.keys[k].window)
  {
    hide Evict, Compact, MakeRoom, RecordWork;
  }

  lemma SortedAppend(times: seq<nat>, now: nat)
    requires Sorted(times) && forall t :: t in times ==> t <= now
    ensures Sorted(times + [now]) && forall t :: t in times + [now] ==> t <= now
  {
    forall i | 0 <= i < |times| ensures times[i] <= now { assert times[i] in times; }
  }

  // ---- Whole calls and whole runs ----

  ghost predicate Windowed(c: Call, windowOf: Key -> nat) {
    c.window > 0 && forall k :: k in Names(c) ==> c.window == windowOf(k)
  }

  lemma RefinesOpened(cfg: Config, w: Watch, windowOf: Key -> nat, c: Call)
    requires Refines(w, windowOf, c.now) && AllHitsValid(w.s.keys, c.now)
    ensures Refines(w.(s := Opened(cfg, w.s, c)), windowOf, c.now)
  {
    hide Refines, Sweep, AllHitsValid;
    RefinesSweep(w, windowOf, c.now);
  }

  lemma RefinesLooked(cfg: Config, w: Watch, windowOf: Key -> nat, c: Call)
    requires Refines(w, windowOf, c.now) && AllHitsValid(w.s.keys, c.now) && Windowed(c, windowOf)
    ensures Refines(w.(s := Looked(cfg, w.s, c)), windowOf, c.now)
  {
    hide Refines, Sweep, AllHitsValid, Trim, Refuses, Opened, Cut;
    RefinesOpened(cfg, w, windowOf, c);
    var o := w.(s := Opened(cfg, w.s, c));
    assert Cut(c.key) in Names(c);
    if c.CheckPair? {
      assert Cut(c.block) in Names(c);
      RefinesTrim(o, windowOf, Cut(c.block), c.now);
      RefinesTrim(o.(s := Trim(o.s, Cut(c.block), c.window, c.now)), windowOf, Cut(c.key), c.now);
    } else {
      RefinesTrim(o, windowOf, Cut(c.key), c.now);
    }
  }

  lemma {:induction false} RefinesAll(
    cfg: Config, w: Watch, windowOf: Key -> nat, keys: seq<Key>, window: nat, now: nat)
    requires Refines(w, windowOf, now) && WatchValid(cfg, w, now) && cfg.maxKeys > 0 && window > 0
    requires forall k :: k in keys ==> windowOf(k) == window
    ensures Refines(WatchAll(w, keys, window, now, cfg.maxKeys), windowOf, now)
    decreases |keys|
  {
    hide Refines, Record, RecordWork, Evicted, WatchRecord, QueueValid, AllHitsValid, Bounded;
    if keys != [] {
      assert keys[0] in keys;
      RefinesRecord(w, windowOf, keys[0], now, cfg.maxKeys);
      WatchAllValid(cfg, w, keys[..1], window, now);
      OneRecord(w, keys, window, now, cfg.maxKeys);
      RefinesAll(cfg, WatchRecord(w, keys[0], window, now, cfg.maxKeys), windowOf, keys[1..], window, now);
    }
  }

  lemma OneRecord(w: Watch, keys: seq<Key>, window: nat, now: nat, maxKeys: nat)
    requires keys != []
    ensures WatchAll(w, keys[..1], window, now, maxKeys) == WatchRecord(w, keys[0], window, now, maxKeys)
  {
    hide WatchRecord;
    var w1 := WatchRecord(w, keys[0], window, now, maxKeys);
    assert keys[..1][1..] == [];
    assert WatchAll(w1, keys[..1][1..], window, now, maxKeys) == w1;
  }

  lemma RefinesStep(cfg: Config, w: Watch, windowOf: Key -> nat, c: Call)
    requires cfg.maxKeys > 0 && Refines(w, windowOf, c.now) && WatchValid(cfg, w, c.now) && Windowed(c, windowOf)
    ensures Refines(WatchStep(cfg, w, c), windowOf, c.now)
  {
    hide Refines, Looked, Allows, QueueValid, AllHitsValid, Bounded, WatchAll, Cut;
    RefinesLooked(cfg, w, windowOf, c);
    LookedValid(cfg, w.s, c);
    forall k | k in Targets(c) ensures windowOf(k) == c.window { assert k in Names(c); }
    RefinesAll(cfg, w.(s := Looked(cfg, w.s, c)), windowOf, Targets(c), c.window, c.now);
  }

  lemma {:induction false} RunRefines(cfg: Config, calls: seq<Call>, windowOf: Key -> nat)
    requires cfg.maxKeys > 0 && Timely(calls) && FixedWindows(calls, windowOf)
    ensures Refines(Run(cfg, calls), windowOf, Clock(calls))
    decreases |calls|
  {
    hide Refines, WatchStep, Valid, Bounded, Names;
    if calls == [] {
      StartRefines(windowOf);
    } else {
      var before, c := calls[..|calls| - 1], calls[|calls| - 1];
      TimelyPrefix(calls);
      RunRefines(cfg, before, windowOf);
      RunValid(cfg, before);
      var w := Run(cfg, before);
      Tick(w.s, Clock(before), c.now);
      RefinesLater(w, windowOf, Clock(before), c.now);
      RefinesStep(cfg, w, windowOf, c);
    }
  }

  lemma StartRefines(windowOf: Key -> nat)
    ensures Refines(START, windowOf, 0)
  {}

  // ---- Decisions ----

  lemma RefusesCounts(w: Watch, windowOf: Key -> nat, key: Key, max: nat, now: nat)
    requires Refines(w, windowOf, now)
    ensures Refuses(w.s, key, max, windowOf(key), now) <==> !HasRoom(w.kept, key, max, windowOf(key), now)
  {
    assert Agrees(w, windowOf, now, key);
    RetainCounts(At(w.kept, key), windowOf(key), now);
  }

  lemma StepDecides(cfg: Config, w: Watch, windowOf: Key -> nat, c: Call)
    requires Refines(w, windowOf, c.now) && AllHitsValid(w.s.keys, c.now) && Windowed(c, windowOf)
    ensures Allows(cfg, w.s, c) <==> NaiveAllows(w.kept, c)
  {
    hide Refines, AllHitsValid, Trim, Refuses, Opened, Cut, HasRoom;
    RefinesOpened(cfg, w, windowOf, c);
    var o := w.(s := Opened(cfg, w.s, c));
    assert Cut(c.key) in Names(c);
    if c.CheckPair? {
      assert Cut(c.block) in Names(c);
      RefusesCounts(o, windowOf, Cut(c.block), c.blockMax, c.now);
      RefinesTrim(o, windowOf, Cut(c.block), c.now);
      RefusesCounts(o.(s := Trim(o.s, Cut(c.block), c.window, c.now)), windowOf, Cut(c.key), c.max, c.now);
    } else {
      RefusesCounts(o, windowOf, Cut(c.key), c.max, c.now);
    }
  }

  /** After any run, a call is allowed exactly when fewer than its limit of the attempts accepted for its key since
      the key was last evicted lie in (now - window, now]; for a pair, on both counters. Keys never evicted are
      judged on everything ever accepted. */
  lemma DecidesByHistory(cfg: Config, calls: seq<Call>, windowOf: Key -> nat, c: Call)
    requires cfg.maxKeys > 0 && Timely(calls + [c]) && FixedWindows(calls + [c], windowOf)
    ensures var w := Run(cfg, calls);
      && (Allows(cfg, w.s, c) <==> NaiveAllows(w.kept, c))
      && (Names(c) !! w.evicted ==> (Allows(cfg, w.s, c) <==> NaiveAllows(w.full, c)))
  {
    var all := calls + [c];
    assert all[..|calls|] == calls && all[|calls|] == c;
    TimelyPrefix(all);
    assert FixedWindows(calls, windowOf) by {
      forall i, k | 0 <= i < |calls| && k in Names(calls[i]) ensures calls[i].window == windowOf(k) {
        assert all[i] == calls[i];
      }
    }
    assert Windowed(c, windowOf);
    RunReady(cfg, calls, windowOf, c.now);
    DecideAt(cfg, Run(cfg, calls), windowOf, c);
  }

  lemma RunReady(cfg: Config, calls: seq<Call>, windowOf: Key -> nat, now: nat)
    requires cfg.maxKeys > 0 && Timely(calls) && FixedWindows(calls, windowOf) && Clock(calls) <= now
    ensures Refines(Run(cfg, calls), windowOf, now) && WatchValid(cfg, Run(cfg, calls), now)
  {
    hide Refines, Run, Bounded, Valid;
    RunValid(cfg, calls);
    RunRefines(cfg, calls, windowOf);
    Tick(Run(cfg, calls).s, Clock(calls), now);
    RefinesLater(Run(cfg, calls), windowOf, Clock(calls), now);
  }

  lemma DecideAt(cfg: Config, w: Watch, windowOf: Key -> nat, c: Call)
    requires Refines(w, windowOf, c.now) && WatchValid(cfg, w, c.now) && Windowed(c, windowOf)
    ensures Allows(cfg, w.s, c) <==> NaiveAllows(w.kept, c)
    ensures Names(c) !! w.evicted ==> (Allows(cfg, w.s, c) <==> NaiveAllows(w.full, c))
  {
    hide Allows, Cut, QueueValid, AllHitsValid, Bounded;
    StepDecides(cfg, w, windowOf, c);
    if Names(c) !! w.evicted {
      assert Cut(c.key) in Names(c) && Agrees(w, windowOf, c.now, Cut(c.key));
      if c.CheckPair? {
        assert Cut(c.block) in Names(c) && Agrees(w, windowOf, c.now, Cut(c.block));
      }
    }
  }
}
