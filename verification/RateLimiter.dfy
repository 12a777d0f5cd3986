/** The limiter as it runs: two independent maps, changed in place. */
module RateLimiters {
  import opened Options
  import opened RateLimitKeys
  import opened RateLimitModel

  const MAX_KEYS: nat := 100_000
  const SWEEP_ABOVE: nat := 10_000

  /** One map of hit lists with its eviction queue. */
  class Inner {
    var keys: map<Key, Hits>
    var queue: seq<Entry>
    var lastSweep: Option<nat>
    /** Queue entries popped by eviction or scanned by compaction inside `Record`, over this object's life. */
    ghost var work: int

    ghost function View(): State
      reads this
    {
      State(keys, queue, lastSweep)
    }

    constructor ()
      ensures View() == EMPTY && work == 0
    {
      keys, queue, lastSweep, work := map[], [], None, 0;
    }

    /** Look at one counter: the hit list loses what no longer counts, and an unknown key stays unknown. */
    method Spent(key: Key, max: nat, window: nat, now: nat) returns (spent: bool)
      modifies this
      ensures View() == Trim(old(View()), key, window, now)
      ensures spent == Refuses(old(View()), key, max, window, now)
      ensures work == old(work)
    {
      if key in keys {
        var times := Retain(keys[key].times, window, now);
        keys := keys[key := keys[key].(times := times)];
        spent := |times| >= max;
      } else {
        spent := max == 0;
      }
    }

    /** Add an attempt to a counter; a counter with an empty hit list begins a window and queues up again. */
    method Record(key: Key, window: nat, now: nat, maxKeys: nat)
      modifies this
      ensures View() == RateLimitModel.Record(old(View()), key, window, now, maxKeys)
      ensures work == old(work) + RecordWork(old(View()), key, window, now, maxKeys)
    {
      hide Evict, DropStale;
      var restarting := true;
      if key in keys {
        restarting := keys[key].times == [];
      } else {
        EvictOldestWhileFull(maxKeys);
      }
      var hits := if key in keys then keys[key] else Hits([], window, now);
      hits := hits.(times := hits.times + [now], window := window);
      if restarting {
        hits := hits.(since := now);
      }
      ghost var room := keys;
      keys := keys[key := hits];
      assert keys.Keys == room.Keys + {key};
      if restarting {
        queue := queue + [Entry(key, now)];
        if |queue| > 2 * |keys| + QUEUE_SLACK {
          work := work + |queue|;
          DropStaleQueueEntries();
        }
      }
    }

    /** Pop from the front of the queue, with the keys matched there, while the map is at the cap. */
    method EvictOldestWhileFull(maxKeys: nat)
      modifies `keys, `queue, `work
      ensures (keys, queue) == Evict(old(keys), old(queue), maxKeys)
      ensures work == old(work) + |old(queue)| - |queue|
    {
      while |keys| >= maxKeys && queue != []
        invariant Evict(keys, queue, maxKeys) == Evict(old(keys), old(queue), maxKeys)
        invariant work == old(work) + |old(queue)| - |queue|
        decreases |queue|
      {
        var e := queue[0];
        queue, work := queue[1..], work + 1;
        if Matches(keys, e) {
          keys := keys - {e.key};
        }
      }
    }

    /** Compaction: the queue loses every entry that stands for no window any more. */
    method DropStaleQueueEntries()
      modifies `queue
      ensures queue == DropStale(keys, old(queue))
    {
      var kept: seq<Entry> := [];
      for i := 0 to |queue|
        invariant kept == DropStale(keys, queue[..i])
        invariant queue == old(queue)
      {
        assert queue[..i + 1][..i] == queue[..i];
        if Matches(keys, queue[i]) {
          kept := kept + [queue[i]];
        }
      }
      assert queue[..|queue|] == queue;
      queue := kept;
    }

    /** The rate-limited sweep over the whole map. */
    method SweepExpired(now: nat)
      modifies this
      ensures View() == Sweep(old(View()), now)
      ensures work == old(work)
    {
      if lastSweep.Some? && Elapsed(now, lastSweep.value) < SWEEP_INTERVAL {
        return;
      }
      lastSweep := Some(now);
      keys := map k | k in keys && Unexpired(keys[k], now) :: keys[k];
      DropStaleQueueEntries();
    }
  }

  datatype KeyMap = User | Unauth

  class RateLimiter {
    const user: Inner
    const unauth: Inner
    const maxKeys: nat
    const sweepAbove: nat

    ghost predicate Valid()
    {
      user != unauth
    }

    ghost function Limits(): Config {
      Config(maxKeys, sweepAbove)
    }

    ghost function ViewOf(m: KeyMap): State
      reads user, unauth
    {
      if m.User? then user.View() else unauth.View()
    }

    constructor WithLimits(maxKeys: nat, sweepAbove: nat)
      ensures Valid() && fresh(user) && fresh(unauth)
      ensures Limits() == Config(maxKeys, sweepAbove)
      ensures forall m :: ViewOf(m) == EMPTY
    {
      user := new Inner();
      unauth := new Inner();
      this.maxKeys := maxKeys;
      this.sweepAbove := sweepAbove;
    }

    function Map(m: KeyMap): Inner {
      if m.User? then user else unauth
    }

    function Other(m: KeyMap): KeyMap {
      if m.User? then Unauth else User
    }

    /** Refuse or count an attempt in one map; the other map stays as it is. */
    method CheckAt(m: KeyMap, key: Key, max: nat, window: nat, now: nat) returns (allowed: bool)
      requires Valid()
      modifies Map(m)
      ensures var c := Check(key, max, window, now);
        && ViewOf(m) == Step(Limits(), old(ViewOf(m)), c)
        && allowed == Allows(Limits(), old(ViewOf(m)), c)
      ensures ViewOf(Other(m)) == old(ViewOf(Other(m)))
    {
      var cut := TruncateKey(key);
      var inner := Map(m);
      ghost var c := Check(key, max, window, now);
      ghost var start := inner.View();
      if |inner.keys| > sweepAbove {
        inner.SweepExpired(now);
      }
      var spent := inner.Spent(cut, max, window, now);
      if spent {
        return false;
      }
      assert inner.View() == Looked(Limits(), start, c);
      inner.Record(cut, window, now, maxKeys);
      assert RecordAll(Looked(Limits(), start, c), [cut], window, now, maxKeys) == inner.View() by {
        assert [cut][1..] == [];
      }
      return true;
    }

    /** Refuse an attempt, or count it in two counters at once. */
    method CheckPairAt(m: KeyMap, block: Key, blockMax: nat, key: Key, max: nat, window: nat, now: nat)
      returns (allowed: bool)
      requires Valid()
      modifies Map(m)
      ensures var c := CheckPair(block, blockMax, key, max, window, now);
        && ViewOf(m) == Step(Limits(), old(ViewOf(m)), c)
        && allowed == Allows(Limits(), old(ViewOf(m)), c)
      ensures ViewOf(Other(m)) == old(ViewOf(Other(m)))
    {
      var cutBlock := TruncateKey(block);
      var cutKey := TruncateKey(key);
      var inner := Map(m);
      ghost var c := CheckPair(block, blockMax, key, max, window, now);
      ghost var start := inner.View();
      if |inner.keys| > sweepAbove {
        inner.SweepExpired(now);
      }
      var spent := inner.Spent(cutBlock, blockMax, window, now);
      if !spent {
        spent := inner.Spent(cutKey, max, window, now);
      }
      if spent {
        return false;
      }
      ghost var looked := inner.View();
      assert looked == Looked(Limits(), start, c);
      inner.Record(cutBlock, window, now, maxKeys);
      assert RecordAll(looked, [cutBlock, cutKey], window, now, maxKeys)
          == RecordAll(inner.View(), [cutKey], window, now, maxKeys);
      inner.Record(cutKey, window, now, maxKeys);
      assert RecordAll(inner.View(), [], window, now, maxKeys) == inner.View();
      return true;
    }

    /** The same question with nothing counted. */
    method SpentUnauth(key: Key, max: nat, window: nat, now: nat) returns (spent: bool)
      requires Valid()
      modifies unauth
      ensures var c := RateLimitModel.Spent(key, max, window, now);
        && ViewOf(Unauth) == Step(Limits(), old(ViewOf(Unauth)), c)
        && spent == !Allows(Limits(), old(ViewOf(Unauth)), c)
      ensures ViewOf(User) == old(ViewOf(User))
    {
      var cut := TruncateKey(key);
      spent := unauth.Spent(cut, max, window, now);
    }
  }
}
