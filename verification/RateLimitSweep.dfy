/** When the limiter sweeps, what a sweep leaves, and what a key's window start says about its history. */
module RateLimitSweeps {
  import opened Options
  import opened RateLimitKeys
  import opened RateLimitModel
  import opened RateLimitQueue
  import opened RateLimitHistory
  import opened RateLimitGuarantees

  // ---- The schedule ----

  predicate Due(last: Option<nat>, now: nat) { last.None? || now >= last.value + 10 }

  /** Whether the call finds more keys than the threshold and no sweep in the last ten seconds. */
  predicate SweepsBefore(cfg: Config, s: State, last: Option<nat>, c: Call) {
    !c.Spent? && |s.keys| > cfg.sweepAbove && Due(last, c.now)
  }

  /** When a run last swept, from its calls and the number of keys each found. */
  function LastSwept(cfg: Config, calls: seq<Call>): Option<nat> {
    if calls == [] then None
    else
      var before, c := calls[..|calls| - 1], calls[|calls| - 1];
      if SweepsBefore(cfg, Run(cfg, before).s, LastSwept(cfg, before), c) then Some(c.now) else LastSwept(cfg, before)
  }

  lemma OpenedSweeps(cfg: Config, s: State, c: Call)
    ensures Opened(cfg, s, c).lastSweep == if SweepsBefore(cfg, s, s.lastSweep, c) then Some(c.now) else s.lastSweep
    ensures !SweepsBefore(cfg, s, s.lastSweep, c) ==> Opened(cfg, s, c) == s
  {}

  lemma LookedSweeps(cfg: Config, s: State, c: Call)
    ensures Looked(cfg, s, c).lastSweep == Opened(cfg, s, c).lastSweep
    ensures Looked(cfg, s, c).keys.Keys == Opened(cfg, s, c).keys.Keys
  {
    hide Retain, Cut, Opened, Refuses;
  }

  lemma {:induction false} RecordingSweepsNothing(s: State, keys: seq<Key>, window: nat, now: nat, maxKeys: nat)
    ensures RecordAll(s, keys, window, now, maxKeys).lastSweep == s.lastSweep
    decreases |keys|
  {
    hide Evict, Compact;
    if keys != [] {
      RecordingSweepsNothing(Record(s, keys[0], window, now, maxKeys), keys[1..], window, now, maxKeys);
    }
  }

  /** The limiter sweeps at exactly the calls that find more keys than the threshold, at most once in ten seconds. */
  lemma {:induction false} SweepsOnSchedule(cfg: Config, calls: seq<Call>)
    ensures Run(cfg, calls).s.lastSweep == LastSwept(cfg, calls)
    decreases |calls|
  {
    hide Looked, Opened, Allows, RecordAll, SweepsBefore, Targets;
    if calls != [] {
      var before, c := calls[..|calls| - 1], calls[|calls| - 1];
      SweepsOnSchedule(cfg, before);
      var s := Run(cfg, before).s;
      OpenedSweeps(cfg, s, c);
      LookedSweeps(cfg, s, c);
      RecordingSweepsNothing(Looked(cfg, s, c), Targets(c), c.window, c.now, cfg.maxKeys);
    }
  }

  // ---- What a sweep leaves ----

  /** The key has an accepted attempt inside its own window. */
  ghost predicate Busy(w: Watch, windowOf: Key -> nat, k: Key, now: nat) {
    Count(At(w.kept, k), now - windowOf(k), now) >= 1
  }

  lemma {:induction false} LastLive(times: seq<nat>, window: nat, now: nat)
    requires times != [] && Live(times[|times| - 1], window, now)
    ensures Retain(times, window, now) != []
  {}

  lemma UnexpiredIsBusy(w: Watch, windowOf: Key -> nat, k: Key, now: nat)
    requires Agrees(w, windowOf, now, k) && k in w.s.keys && HitsValid(w.s.keys[k], now)
    ensures Unexpired(w.s.keys[k], now) <==> Busy(w, windowOf, k, now)
  {
    var times := w.s.keys[k].times;
    RetainCounts(At(w.kept, k), windowOf(k), now);
    if Unexpired(w.s.keys[k], now) {
      LastLive(times, windowOf(k), now);
    } else {
      AllExpired(times, windowOf(k), now);
    }
  }

  /** After any run, a call that sweeps keeps exactly the tracked keys with an accepted attempt inside their own
      windows; a call that does not sweep drops none. */
  lemma SweepKeepsExactlyTheBusy(cfg: Config, calls: seq<Call>, windowOf: Key -> nat, c: Call, k: Key)
    requires cfg.maxKeys > 0 && Timely(calls + [c]) && FixedWindows(calls + [c], windowOf)
    ensures var w := Run(cfg, calls);
      k in Opened(cfg, w.s, c).keys
      <==> (k in w.s.keys && (SweepsBefore(cfg, w.s, LastSwept(cfg, calls), c) ==> Busy(w, windowOf, k, c.now)))
  {
    hide Run, Names, QueueValid, Bounded, LastSwept, Timely, FixedWindows, Refines;
    var w := Run(cfg, calls);
    LastCall(cfg, calls, windowOf, c);
    SweepsOnSchedule(cfg, calls);
    if k in w.s.keys {
      AgreesOn(w, windowOf, c.now, k);
      UnexpiredIsBusy(w, windowOf, k, c.now);
    }
  }

  lemma AgreesOn(w: Watch, windowOf: Key -> nat, now: nat, k: Key)
    requires Refines(w, windowOf, now)
    ensures Agrees(w, windowOf, now, k)
  {}

  lemma LastCall(cfg: Config, calls: seq<Call>, windowOf: Key -> nat, c: Call)
    requires cfg.maxKeys > 0 && Timely(calls + [c]) && FixedWindows(calls + [c], windowOf)
    ensures Refines(Run(cfg, calls), windowOf, c.now) && WatchValid(cfg, Run(cfg, calls), c.now)
    ensures Windowed(c, windowOf)
  {
    hide Run, Names, Refines, WatchValid;
    var all := calls + [c];
    assert all[..|calls|] == calls && all[|calls|] == c;
    TimelyPrefix(all);
    PrefixFixed(all, windowOf);
    assert all[|calls|].window > 0;
    RunReady(cfg, calls, windowOf, c.now);
  }

  // ---- What is evicted after a sweep ----

  ghost predicate AllBusy(w: Watch, windowOf: Key -> nat, now: nat) {
    forall k :: k in w.s.keys ==> Busy(w, windowOf, k, now)
  }

  lemma CountsNow(times: seq<nat>, window: nat, now: nat)
    requires window > 0
    ensures Count(times + [now], now - window, now) >= 1
  {
    assert (times + [now])[..|times|] == times;
  }

  lemma BusyRecord(w: Watch, windowOf: Key -> nat, key: Key, now: nat, maxKeys: nat)
    requires AllBusy(w, windowOf, now) && RoomOnly(w.s, key, maxKeys) && windowOf(key) > 0
    ensures AllBusy(WatchRecord(w, key, windowOf(key), now, maxKeys), windowOf, now)
  {
    hide WatchRecord, RoomOnly, Count;
    var w' := WatchRecord(w, key, windowOf(key), now, maxKeys);
    forall k | k in w'.s.keys ensures Busy(w', windowOf, k, now) {
      RecordTimes(w, windowOf, key, now, maxKeys, k);
      if k == key { CountsNow(At(w.kept, k), windowOf(k), now); }
    }
  }

  lemma {:induction false} BusyAll(cfg: Config, w: Watch, windowOf: Key -> nat, keys: seq<Key>, window: nat, now: nat)
    requires AllBusy(w, windowOf, now) && WatchValid(cfg, w, now) && cfg.maxKeys > 0 && window > 0
    requires forall k :: k in keys ==> windowOf(k) == window
    ensures AllBusy(WatchAll(w, keys, window, now, cfg.maxKeys), windowOf, now)
    ensures WatchValid(cfg, WatchAll(w, keys, window, now, cfg.maxKeys), now)
    decreases |keys|
  {
    hide AllBusy, Record, RecordWork, Evicted, WatchRecord, QueueValid, AllHitsValid, Bounded;
    if keys != [] {
      assert keys[0] in keys && forall k :: k in keys[1..] ==> k in keys;
      RoomKeys(w.s, keys[0], cfg.maxKeys);
      BusyRecord(w, windowOf, keys[0], now, cfg.maxKeys);
      WatchAllValid(cfg, w, keys[..1], window, now);
      OneRecord(w, keys, window, now, cfg.maxKeys);
      BusyAll(cfg, WatchRecord(w, keys[0], window, now, cfg.maxKeys), windowOf, keys[1..], window, now);
    }
  }

  /** The run at the point where a call records the `i`-th of its keys. */
  function WatchRecording(cfg: Config, w: Watch, c: Call, i: nat): (r: Watch)
    requires i <= |Targets(c)|
    ensures r.s == Recording(cfg, w.s, c, i)
  {
    WatchAll(w.(s := Looked(cfg, w.s, c)), Targets(c)[..i], c.window, c.now, cfg.maxKeys)
  }

  /** A call that sweeps evicts a key only where, after the sweep, the cap is reached by keys that all have accepted
      attempts inside their own windows: an expired key never costs a live one its place. */
  lemma SweptCallsEvictOnlyAmongBusy(cfg: Config, calls: seq<Call>, windowOf: Key -> nat, c: Call, i: nat)
    requires cfg.maxKeys > 0 && Timely(calls + [c]) && FixedWindows(calls + [c], windowOf) && i < |Targets(c)|
    requires SweepsBefore(cfg, Run(cfg, calls).s, LastSwept(cfg, calls), c)
    ensures var w := WatchRecording(cfg, Run(cfg, calls), c, i);
      && (forall k :: k in w.s.keys ==> Busy(w, windowOf, k, c.now))
      && (Evicted(w.s, Targets(c)[i], cfg.maxKeys) != {} ==> |w.s.keys| == cfg.maxKeys)
  {
    hide Run, Names, QueueValid, AllHitsValid, Bounded, LastSwept, Opened, Looked, Refines, Cut, SweepsBefore, WatchAll;
    hide Timely, FixedWindows, Recording, Evicted, EvictsOldest, Busy;
    var w := Run(cfg, calls);
    LastCall(cfg, calls, windowOf, c);
    var looked := w.(s := Looked(cfg, w.s, c));
    LookedSweeps(cfg, w.s, c);
    forall k | k in looked.s.keys ensures Busy(looked, windowOf, k, c.now) {
      SweepKeepsExactlyTheBusy(cfg, calls, windowOf, c, k);
      SameBusy(w, looked, windowOf, k, c.now);
    }
    LookedValid(cfg, w.s, c);
    TargetWindows(c, windowOf, i);
    BusyAll(cfg, looked, windowOf, Targets(c)[..i], c.window, c.now);
    var at := WatchRecording(cfg, w, c, i);
    ValidQueue(cfg, at.s, c.now);
    RecordEvicts(cfg, at.s, Targets(c)[i], c.window, c.now);
    EvictsAtCap(at.s, Targets(c)[i], cfg.maxKeys, Record(at.s, Targets(c)[i], c.window, c.now, cfg.maxKeys));
  }

  lemma EvictsAtCap(s: State, key: Key, maxKeys: nat, s': State)
    requires EvictsOldest(s, key, maxKeys, s')
    ensures Evicted(s, key, maxKeys) != {} ==> |s.keys| == maxKeys
  {}

  lemma SameBusy(w: Watch, w': Watch, windowOf: Key -> nat, k: Key, now: nat)
    requires w'.kept == w.kept
    ensures Busy(w', windowOf, k, now) == Busy(w, windowOf, k, now)
  {}

  lemma TargetWindows(c: Call, windowOf: Key -> nat, i: nat)
    requires Windowed(c, windowOf) && i <= |Targets(c)|
    ensures forall k :: k in Targets(c)[..i] ==> windowOf(k) == c.window
  {
    forall k | k in Targets(c)[..i] ensures windowOf(k) == c.window { assert k in Names(c); }
  }

  // ---- Where a key's window began ----

  /** The attempt that began the latest stretch of attempts, each less than a window after the one before. */
  function StretchStart(times: seq<nat>, window: nat): nat
    requires times != []
  {
    var last := times[|times| - 1];
    if |times| == 1 || last >= times[|times| - 2] + window then last
    else StretchStart(times[..|times| - 1], window)
  }

  ghost predicate Started(w: Watch, windowOf: Key -> nat) {
    forall k :: k in w.s.keys ==> At(w.kept, k) != [] && w.s.keys[k].since == StretchStart(At(w.kept, k), windowOf(k))
  }

  /** Nothing of the key's hit list has left its window. */
  predicate Trimmed(s: State, key: Key, window: nat, now: nat) {
    Retain(TimesOf(s, key), window, now) == TimesOf(s, key)
  }

  lemma RestartsAfterPause(w: Watch, windowOf: Key -> nat, key: Key, now: nat)
    requires Agrees(w, windowOf, now, key) && Trimmed(w.s, key, windowOf(key), now)
    ensures var kept := At(w.kept, key);
      Restarts(w.s, key) <==> kept == [] || now >= kept[|kept| - 1] + windowOf(key)
  {
    var kept := At(w.kept, key);
    if kept != [] {
      assert kept[|kept| - 1] in kept;
      if Live(kept[|kept| - 1], windowOf(key), now) {
        LastLive(kept, windowOf(key), now);
      } else {
        AllExpired(kept, windowOf(key), now);
      }
    }
  }

  lemma StartedRecord(w: Watch, windowOf: Key -> nat, key: Key, now: nat, maxKeys: nat)
    requires Started(w, windowOf) && Refines(w, windowOf, now) && RoomOnly(w.s, key, maxKeys) && windowOf(key) > 0
    requires Trimmed(w.s, key, windowOf(key), now)
    ensures Started(WatchRecord(w, key, windowOf(key), now, maxKeys), windowOf)
  {
    hide Refines, Agrees, RecordWork, Evict, Compact, Retain;
    var w' := WatchRecord(w, key, windowOf(key), now, maxKeys);
    AgreesOn(w, windowOf, now, key);
    RestartsAfterPause(w, windowOf, key, now);
    forall k | k in w'.s.keys
      ensures At(w'.kept, k) != [] && w'.s.keys[k].since == StretchStart(At(w'.kept, k), windowOf(k))
    {
      RecordTimes(w, windowOf, key, now, maxKeys, k);
      if k == key {
        var kept := At(w.kept, key);
        assert (kept + [now])[..|kept|] == kept;
      }
    }
  }

  lemma TrimTrims(s: State, key: Key, window: nat, now: nat)
    ensures Trimmed(Trim(s, key, window, now), key, window, now)
  {
    hide Retain;
    RetainTwice(TimesOf(s, key), window, now, now);
    NothingRetained(window, now);
  }

  lemma NothingRetained(window: nat, now: nat)
    ensures Retain([], window, now) == []
  {}

  lemma TrimKeepsTrimmed(s: State, key: Key, window: nat, now: nat, other: Key)
    requires Trimmed(s, other, window, now)
    ensures Trimmed(Trim(s, key, window, now), other, window, now)
  {
    hide Retain;
    TrimTrims(s, key, window, now);
  }

  lemma RecordKeepsTrimmed(w: Watch, windowOf: Key -> nat, key: Key, now: nat, maxKeys: nat, other: Key)
    requires RoomOnly(w.s, key, maxKeys) && windowOf(key) == windowOf(other) > 0
    requires Trimmed(w.s, key, windowOf(key), now) && Trimmed(w.s, other, windowOf(other), now)
    ensures Trimmed(WatchRecord(w, key, windowOf(key), now, maxKeys).s, other, windowOf(other), now)
  {
    hide Retain, WatchRecord, RoomOnly;
    RecordTimes(w, windowOf, key, now, maxKeys, other);
    RetainAppend(TimesOf(w.s, key), windowOf(key), now);
    NothingRetained(windowOf(other), now);
  }

  lemma LookedTrims(cfg: Config, s: State, c: Call)
    requires Allows(cfg, s, c) && !c.Spent?
    ensures forall k :: k in Targets(c) ==> Trimmed(Looked(cfg, s, c), k, c.window, c.now)
  {
    hide Opened, Refuses, Trimmed, Trim, Cut;
    var o := Opened(cfg, s, c);
    TrimTrims(o, Cut(c.key), c.window, c.now);
    if c.CheckPair? {
      var o1 := Trim(o, Cut(c.block), c.window, c.now);
      TrimTrims(o, Cut(c.block), c.window, c.now);
      TrimTrims(o1, Cut(c.key), c.window, c.now);
      TrimKeepsTrimmed(o1, Cut(c.key), c.window, c.now, Cut(c.block));
    }
  }

  lemma LookedStarts(cfg: Config, w: Watch, windowOf: Key -> nat, c: Call)
    requires Started(w, windowOf)
    ensures Started(w.(s := Looked(cfg, w.s, c)), windowOf)
  {
    hide StretchStart, Looked;
    LookedSince(cfg, w.s, c);
  }

  ghost predicate SameSince(s: State, s': State) {
    forall k :: k in s'.keys ==> k in s.keys && s'.keys[k].since == s.keys[k].since
  }

  lemma TrimSince(s: State, key: Key, window: nat, now: nat)
    ensures SameSince(s, Trim(s, key, window, now))
  {
    hide Retain;
  }

  lemma OpenedSince(cfg: Config, s: State, c: Call)
    ensures SameSince(s, Opened(cfg, s, c))
  {
    hide DropStale, SweepDue, Unexpired;
  }

  lemma LookedSince(cfg: Config, s: State, c: Call)
    ensures SameSince(s, Looked(cfg, s, c))
  {
    hide Opened, Trim, Refuses, Cut;
    var o := Opened(cfg, s, c);
    OpenedSince(cfg, s, c);
    if c.CheckPair? {
      TrimSince(o, Cut(c.block), c.window, c.now);
      TrimSince(Trim(o, Cut(c.block), c.window, c.now), Cut(c.key), c.window, c.now);
    } else {
      TrimSince(o, Cut(c.key), c.window, c.now);
    }
  }

  lemma {:induction false} StartedAll(
    cfg: Config, w: Watch, windowOf: Key -> nat, keys: seq<Key>, window: nat, now: nat)
    requires Started(w, windowOf) && Refines(w, windowOf, now) && WatchValid(cfg, w, now)
    requires cfg.maxKeys > 0 && window > 0
    requires forall k :: k in keys ==> windowOf(k) == window && Trimmed(w.s, k, window, now)
    ensures Started(WatchAll(w, keys, window, now, cfg.maxKeys), windowOf)
    decreases |keys|
  {
    hide Started, Refines, Trimmed, Record, RecordWork, Evicted, WatchRecord, QueueValid, AllHitsValid, Bounded;
    if keys != [] {
      assert keys[0] in keys && forall k :: k in keys[1..] ==> k in keys;
      RoomKeys(w.s, keys[0], cfg.maxKeys);
      StartedRecord(w, windowOf, keys[0], now, cfg.maxKeys);
      RefinesRecord(w, windowOf, keys[0], now, cfg.maxKeys);
      WatchAllValid(cfg, w, keys[..1], window, now);
      OneRecord(w, keys, window, now, cfg.maxKeys);
      var w1 := WatchRecord(w, keys[0], window, now, cfg.maxKeys);
      forall k | k in keys[1..] ensures Trimmed(w1.s, k, window, now) {
        RecordKeepsTrimmed(w, windowOf, keys[0], now, cfg.maxKeys, k);
      }
      StartedAll(cfg, w1, windowOf, keys[1..], window, now);
    }
  }

  /** In every run a tracked key's window began with the attempt that began its latest stretch: each attempt a full
      window after the last one accepted, and only such an attempt, moves the key to the back of the eviction order. */
  lemma {:induction false} WindowsBeginStretches(cfg: Config, calls: seq<Call>, windowOf: Key -> nat)
    requires cfg.maxKeys > 0 && Timely(calls) && FixedWindows(calls, windowOf)
    ensures Started(Run(cfg, calls), windowOf)
    decreases |calls|
  {
    hide Started, Refines, WatchValid, Looked, Allows, Names, WatchAll, Trimmed, Valid, Bounded;
    if calls == [] {
      StartStarted(windowOf);
    } else {
      var before, c := calls[..|calls| - 1], calls[|calls| - 1];
      assert before + [c] == calls;
      TimelyPrefix(calls);
      PrefixFixed(calls, windowOf);
      WindowsBeginStretches(cfg, before, windowOf);
      LastCall(cfg, before, windowOf, c);
      var w := Run(cfg, before);
      LookedStarts(cfg, w, windowOf, c);
      if Allows(cfg, w.s, c) {
        var looked := w.(s := Looked(cfg, w.s, c));
        LookedReady(cfg, w, windowOf, c);
        if c.Spent? {
          NothingRecorded(looked, c.window, c.now, cfg.maxKeys);
        } else {
          LookedTrims(cfg, w.s, c);
          assert Targets(c)[..|Targets(c)|] == Targets(c);
          TargetWindows(c, windowOf, |Targets(c)|);
          StartedAll(cfg, looked, windowOf, Targets(c), c.window, c.now);
        }
      }
    }
  }

  lemma NothingRecorded(w: Watch, window: nat, now: nat, maxKeys: nat)
    ensures WatchAll(w, [], window, now, maxKeys) == w
  {}

  lemma LookedReady(cfg: Config, w: Watch, windowOf: Key -> nat, c: Call)
    requires Refines(w, windowOf, c.now) && WatchValid(cfg, w, c.now) && Windowed(c, windowOf)
    ensures Refines(w.(s := Looked(cfg, w.s, c)), windowOf, c.now)
    ensures WatchValid(cfg, w.(s := Looked(cfg, w.s, c)), c.now)
  {
    hide Refines, Looked, QueueValid, AllHitsValid, Bounded;
    RefinesLooked(cfg, w, windowOf, c);
    LookedValid(cfg, w.s, c);
  }

  lemma StartStarted(windowOf: Key -> nat)
    ensures Started(START, windowOf)
  {}
}
