/** The sliding-window limiter as a state machine: one map of hit lists, its eviction queue, and what one call
    does to them. The classes in RateLimiter.dfy carry these functions out in place. */
module RateLimitModel {
  import opened Options
  import opened RateLimitKeys

  const QUEUE_SLACK: nat := 1024
  const SWEEP_INTERVAL: nat := 10

  /** What is remembered of one key: when its attempts came, how long they count, and its window's start. */
  datatype Hits = Hits(times: seq<nat>, window: nat, since: nat)

  datatype Entry = Entry(key: Key, since: nat)

  datatype State = State(keys: map<Key, Hits>, queue: seq<Entry>, lastSweep: Option<nat>)

  datatype Config = Config(maxKeys: nat, sweepAbove: nat)

  const EMPTY := State(map[], [], None)

  /** Elapsed time, saturating at zero when the clock reads earlier than `t`. */
  function Elapsed(now: nat, t: nat): nat { if now >= t then now - t else 0 }

  predicate Live(t: nat, window: nat, now: nat) { Elapsed(now, t) < window }

  /** The attempts still inside the window, in order. */
  function Retain(times: seq<nat>, window: nat, now: nat): seq<nat> {
    if times == [] then []
    else
      var last := times[|times| - 1];
      Retain(times[..|times| - 1], window, now) + if Live(last, window, now) then [last] else []
  }

  function Trim(s: State, key: Key, window: nat, now: nat): State {
    if key in s.keys
    then s.(keys := s.keys[key := s.keys[key].(times := Retain(s.keys[key].times, window, now))])
    else s
  }

  /** Whether `key` has used its attempts. */
  predicate Refuses(s: State, key: Key, max: nat, window: nat, now: nat) {
    if key in s.keys then |Retain(s.keys[key].times, window, now)| >= max else max == 0
  }

  /** Whether a queue entry still stands for its key's current window. */
  predicate Matches(keys: map<Key, Hits>, e: Entry) {
    e.key in keys && keys[e.key].since == e.since
  }

  /** Pop queue entries from the front, and the keys they match with them, while the map is at the cap. */
  function Evict(keys: map<Key, Hits>, queue: seq<Entry>, maxKeys: nat): (map<Key, Hits>, seq<Entry>)
    decreases |queue|
  {
    if |keys| < maxKeys || queue == [] then (keys, queue)
    else Evict(if Matches(keys, queue[0]) then keys - {queue[0].key} else keys, queue[1..], maxKeys)
  }

  function DropStale(keys: map<Key, Hits>, queue: seq<Entry>): seq<Entry> {
    if queue == [] then []
    else
      var last := queue[|queue| - 1];
      DropStale(keys, queue[..|queue| - 1]) + if Matches(keys, last) then [last] else []
  }

  function Compact(keys: map<Key, Hits>, queue: seq<Entry>): seq<Entry> {
    if |queue| > 2 * |keys| + QUEUE_SLACK then DropStale(keys, queue) else queue
  }

  predicate Restarts(s: State, key: Key) { key !in s.keys || s.keys[key].times == [] }

  /** The state once an untracked key has been given room. */
  function MakeRoom(s: State, key: Key, maxKeys: nat): State {
    if key in s.keys then s
    else var (keys, queue) := Evict(s.keys, s.queue, maxKeys); s.(keys := keys, queue := queue)
  }

  function Record(s: State, key: Key, window: nat, now: nat, maxKeys: nat): State {
    var room := MakeRoom(s, key, maxKeys);
    var restarting := Restarts(s, key);
    var was := if key in room.keys then room.keys[key] else Hits([], window, now);
    var hits := Hits(was.times + [now], window, if restarting then now else was.since);
    var keys := room.keys[key := hits];
    State(keys, if restarting then Compact(keys, room.queue + [Entry(key, now)]) else room.queue, s.lastSweep)
  }

  /** Keys a `Record` evicts. */
  function Evicted(s: State, key: Key, maxKeys: nat): set<Key> {
    s.keys.Keys - MakeRoom(s, key, maxKeys).keys.Keys
  }

  /** Queue entries a `Record` pops, plus those its compaction scans. */
  function RecordWork(s: State, key: Key, window: nat, now: nat, maxKeys: nat): int {
    var room := MakeRoom(s, key, maxKeys);
    var pushed := |room.queue| + 1;
    |s.queue| - |room.queue| +
    if Restarts(s, key) && pushed > 2 * |room.keys.Keys + {key}| + QUEUE_SLACK then pushed else 0
  }

  /** Whether a key has an attempt inside its own window. */
  predicate Unexpired(h: Hits, now: nat) {
    h.times != [] && Live(h.times[|h.times| - 1], h.window, now)
  }

  predicate SweepDue(s: State, now: nat) {
    !(s.lastSweep.Some? && Elapsed(now, s.lastSweep.value) < SWEEP_INTERVAL)
  }

  function Sweep(s: State, now: nat): State {
    if !SweepDue(s, now) then s
    else
      var keys := map k | k in s.keys && Unexpired(s.keys[k], now) :: s.keys[k];
      State(keys, DropStale(keys, s.queue), Some(now))
  }

  function Prepare(cfg: Config, s: State, now: nat): State {
    if |s.keys| > cfg.sweepAbove then Sweep(s, now) else s
  }

  /** A call as its caller writes it, before keys are cut. */
  datatype Call =
    | Check(key: Key, max: nat, window: nat, now: nat)
    | CheckPair(block: Key, blockMax: nat, key: Key, max: nat, window: nat, now: nat)
    | Spent(key: Key, max: nat, window: nat, now: nat)

  /** The state in which a call looks at its first counter. */
  function Opened(cfg: Config, s: State, c: Call): State {
    if c.Spent? then s else Prepare(cfg, s, c.now)
  }

  /** Whether the call is allowed (for `Spent`: whether the key still has attempts left). */
  predicate Allows(cfg: Config, s: State, c: Call) {
    var s := Opened(cfg, s, c);
    if c.CheckPair?
    then !Refuses(s, Cut(c.block), c.blockMax, c.window, c.now)
      && !Refuses(Trim(s, Cut(c.block), c.window, c.now), Cut(c.key), c.max, c.window, c.now)
    else !Refuses(s, Cut(c.key), c.max, c.window, c.now)
  }

  /** The state after the counters have been looked at and before any attempt is recorded. */
  function Looked(cfg: Config, s: State, c: Call): State {
    var s := Opened(cfg, s, c);
    if c.CheckPair? then
      var s1 := Trim(s, Cut(c.block), c.window, c.now);
      if Refuses(s, Cut(c.block), c.blockMax, c.window, c.now) then s1 else Trim(s1, Cut(c.key), c.window, c.now)
    else Trim(s, Cut(c.key), c.window, c.now)
  }

  /** The keys an allowed call records, in order. */
  function Targets(c: Call): seq<Key> {
    match c
    case Check(key, _, _, _) => [Cut(key)]
    case CheckPair(block, _, key, _, _, _) => [Cut(block), Cut(key)]
    case Spent(_, _, _, _) => []
  }

  function RecordAll(s: State, keys: seq<Key>, window: nat, now: nat, maxKeys: nat): State
    decreases |keys|
  {
    if keys == [] then s
    else RecordAll(Record(s, keys[0], window, now, maxKeys), keys[1..], window, now, maxKeys)
  }

  function Step(cfg: Config, s: State, c: Call): State {
    if Allows(cfg, s, c) then RecordAll(Looked(cfg, s, c), Targets(c), c.window, c.now, cfg.maxKeys)
    else Looked(cfg, s, c)
  }

  /** A run watched from outside: the limiter's state beside every attempt ever accepted for a key (`full`), those
      accepted since the key was last evicted (`kept`), the keys evicted so far, and the queue work done. */
  datatype Watch = Watch(s: State, full: map<Key, seq<nat>>, kept: map<Key, seq<nat>>, evicted: set<Key>,
                         recorded: nat, work: int)

  const START := Watch(EMPTY, map[], map[], {}, 0, 0)

  function At(m: map<Key, seq<nat>>, k: Key): seq<nat> { if k in m then m[k] else [] }

  function TimesOf(s: State, k: Key): seq<nat> { if k in s.keys then s.keys[k].times else [] }

  function WatchRecord(w: Watch, key: Key, window: nat, now: nat, maxKeys: nat): Watch {
    var gone := Evicted(w.s, key, maxKeys);
    var kept := w.kept - gone;
    Watch(Record(w.s, key, window, now, maxKeys),
          w.full[key := At(w.full, key) + [now]],
          kept[key := At(kept, key) + [now]],
          w.evicted + gone,
          w.recorded + 1,
          w.work + RecordWork(w.s, key, window, now, maxKeys))
  }

  function WatchAll(w: Watch, keys: seq<Key>, window: nat, now: nat, maxKeys: nat): (r: Watch)
    ensures r.s == RecordAll(w.s, keys, window, now, maxKeys)
    decreases |keys|
  {
    if keys == [] then w else WatchAll(WatchRecord(w, keys[0], window, now, maxKeys), keys[1..], window, now, maxKeys)
  }

  function WatchStep(cfg: Config, w: Watch, c: Call): (r: Watch)
    ensures r.s == Step(cfg, w.s, c)
  {
    var looked := w.(s := Looked(cfg, w.s, c));
    if Allows(cfg, w.s, c) then WatchAll(looked, Targets(c), c.window, c.now, cfg.maxKeys) else looked
  }

  function Run(cfg: Config, calls: seq<Call>): Watch {
    if calls == [] then START
    else WatchStep(cfg, Run(cfg, calls[..|calls| - 1]), calls[|calls| - 1])
  }

  /** The clock never runs backwards and every window is positive. */
  predicate Timely(calls: seq<Call>) {
    && (forall i, j :: 0 <= i < j < |calls| ==> calls[i].now <= calls[j].now)
    && (forall i :: 0 <= i < |calls| ==> calls[i].window > 0)
  }

  function Names(c: Call): set<Key> {
    if c.CheckPair? then {Cut(c.block), Cut(c.key)} else {Cut(c.key)}
  }

  /** Every key is always used with the same window. */
  ghost predicate FixedWindows(calls: seq<Call>, windowOf: Key -> nat) {
    forall i, k :: 0 <= i < |calls| && k in Names(calls[i]) ==> calls[i].window == windowOf(k)
  }

  function Clock(calls: seq<Call>): nat {
    if calls == [] then 0 else calls[|calls| - 1].now
  }
}
