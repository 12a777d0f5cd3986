/** When a burn that reported success leaves no key behind, so that the next launch is a first run. */
module VaultBurn {
  import opened Options
  import opened VaultHex
  import opened VaultModel
  import opened VaultInvariant
  import opened VaultPromises

  const EMPTY := Disk(Missing, Missing, Missing, NoEntry)

  /** Whoever is inside the unlock cell's initialisation is a thread still at work there. */
  ghost predicate Attended(s: State) {
    s.world.memory.initializer.Some? ==>
      && s.world.memory.initializer.value in s.threads
      && Initializing(s.threads[s.world.memory.initializer.value])
  }

  predicate Panics(e: Entry) { e.Stored? && FromHex(e.text).Panicked? }

  /** A thread inside the initialisation that cannot come to create a key any more: it has one, or it has seen a sealed
      file, without which none is created. */
  predicate PastCreating(w: World, pc: Pc) {
    pc.Opening? || (pc.Reading? && pc.found && !Panics(w.disk.keychain))
  }

  /** The unlock has its answer, or can only get one that creates no key. */
  ghost predicate Answered(s: State) {
    || s.world.memory.cell != Unset
    || (s.world.memory.initializer.Some? && s.world.memory.initializer.value in s.threads
        && PastCreating(s.world, s.threads[s.world.memory.initializer.value]))
  }

  ghost predicate Gone(s: State) {
    Answered(s) && (s.world.history.burnOk ==> s.world.disk.keychain.NoEntry?)
  }

  // ---- What one move does to the unlock cell and the keychain ----

  /** The cell stays as it was, no key is stored, a burn that reports success leaves none, and the thread becomes the
      initializer at most from asking. */
  predicate CellKept(w: World, t: Tid, pc: Pc, m: Moved) {
    && m.world.memory.cell == w.memory.cell
    && (m.world.disk.keychain == w.disk.keychain || m.world.disk.keychain.NoEntry?)
    && (m.world.history.burnOk && !w.history.burnOk ==> m.world.disk.keychain.NoEntry?)
    && (m.next.Some? && Initializing(m.next.value) ==>
          pc.Asking? && w.memory.initializer == None && m.world.memory.initializer == Some(t))
    && (m.next.None? || !Initializing(m.next.value) ==> m.world.memory.initializer == w.memory.initializer)
  }

  lemma UnlocksLeaveTheCell(w: World, t: Tid, pc: Pc, ok: bool, alt: bool, key: Key)
    requires CanMove(w, pc, key) && Unlocks(pc) && !Initializing(pc)
    ensures CellKept(w, t, pc, MoveUnlock(w, t, pc, ok, alt, key))
  {
    hide FromHex, ToHex, ReadKey, OpenSealed;
  }

  lemma WritesLeaveTheCell(w: World, t: Tid, pc: Pc, ok: bool, alt: bool)
    requires Writes(pc)
    ensures CellKept(w, t, pc, MoveWrite(w, t, pc, ok, alt))
  {}

  lemma BurnsLeaveTheCell(w: World, t: Tid, pc: Pc, ok: bool)
    requires Burns(pc)
    ensures CellKept(w, t, pc, MoveBurn(w, t, pc, ok))
  {}

  lemma ResetsLeaveTheCell(w: World, t: Tid, pc: Pc, ok: bool)
    requires pc.Targeting? || Resets(pc)
    ensures CellKept(w, t, pc, MoveReset(w, pc, ok))
  {
    hide FromHex, Usable;
  }

  /** Only the initialisation moves the cell and its initializer; a key is stored only there. */
  lemma OthersLeaveTheCell(w: World, t: Tid, pc: Pc, ok: bool, alt: bool, key: Key)
    requires CanMove(w, pc, key) && !Initializing(pc)
    ensures CellKept(w, t, pc, Move(w, t, pc, ok, alt, key))
  {
    hide MoveUnlock, MoveWrite, MoveBurn, MoveReset, CanMove;
    if Unlocks(pc) { UnlocksLeaveTheCell(w, t, pc, ok, alt, key); }
    else if Writes(pc) { WritesLeaveTheCell(w, t, pc, ok, alt); }
    else if Burns(pc) { BurnsLeaveTheCell(w, t, pc, ok); }
    else if !pc.Copying? { ResetsLeaveTheCell(w, t, pc, ok); }
  }

  lemma InitializerMoves(w: World, t: Tid, pc: Pc, ok: bool, alt: bool, key: Key)
    requires WorldValid(w) && PcValid(w, t, pc) && CanMove(w, pc, key) && Initializing(pc)
    ensures w.memory.initializer == Some(t) && w.memory.cell == Unset
    ensures var m := Move(w, t, pc, ok, alt, key);
      && m.world.history.burnOk == w.history.burnOk
      && (m.world.memory.initializer.Some? ==>
            m.world.memory.initializer == Some(t) && m.next.Some? && Initializing(m.next.value))
      && (PastCreating(w, pc) ==>
            && m.world.disk == w.disk
            && (m.world.memory.cell != Unset
                || (m.world.memory.initializer == Some(t) && m.next.Some? && m.next.value.Opening?)))
  {
    hide FromHex, ToHex, Usable;
  }

  lemma StepAttended(s: State, step: Step)
    requires Valid(s) && Attended(s) && Enabled(s, step)
    ensures Attended(Apply(s, step))
  {
    hide Move, PcValid, WorldValid, CanMove;
    if step.Go? {
      var t, pc := step.tid, s.threads[step.tid];
      if Initializing(pc) { InitializerMoves(s.world, t, pc, step.ok, step.alt, step.key); }
      else {
        OthersLeaveTheCell(s.world, t, pc, step.ok, step.alt, step.key);
        NewcomerIsNot(s, t);
      }
    }
  }

  /** A thread that is not inside the initialisation is not its initializer. */
  lemma NewcomerIsNot(s: State, t: Tid)
    requires Attended(s) && t in s.threads && !Initializing(s.threads[t])
    ensures s.world.memory.initializer != Some(t)
  {}

  lemma StepGone(s: State, step: Step)
    requires Valid(s) && Attended(s) && Gone(s) && Enabled(s, step) && !step.Crash?
    ensures Gone(Apply(s, step))
  {
    hide Move, PcValid, WorldValid, CanMove, FromHex;
    if step.Go? {
      var t, pc := step.tid, s.threads[step.tid];
      if Initializing(pc) { InitializerMoves(s.world, t, pc, step.ok, step.alt, step.key); }
      else {
        OthersLeaveTheCell(s.world, t, pc, step.ok, step.alt, step.key);
        NewcomerIsNot(s, t);
      }
    }
  }

  lemma {:induction false} RunAttended(s: State, steps: seq<Step>)
    requires Valid(s) && Attended(s) && Legal(s, steps)
    ensures Valid(Run(s, steps)) && Attended(Run(s, steps))
    decreases |steps|
  {
    hide Valid, Attended, Apply, Enabled;
    if steps != [] {
      StepValid(s, steps[0]);
      StepAttended(s, steps[0]);
      RunAttended(Apply(s, steps[0]), steps[1..]);
    }
  }

  lemma {:induction false} RunGone(s: State, steps: seq<Step>)
    requires Valid(s) && Attended(s) && Gone(s) && Legal(s, steps) && NoCrash(steps)
    ensures Gone(Run(s, steps))
    decreases |steps|
  {
    hide Valid, Attended, Gone, Apply, Enabled;
    if steps != [] {
      assert steps[0] in steps && forall x :: x in steps[1..] ==> x in steps;
      StepValid(s, steps[0]);
      StepAttended(s, steps[0]);
      StepGone(s, steps[0]);
      RunGone(Apply(s, steps[0]), steps[1..]);
    }
  }

  lemma ReachAttended(disk: Disk, steps: seq<Step>)
    requires Legal(Boot(disk, NO_PAST), steps)
    ensures Valid(Run(Boot(disk, NO_PAST), steps)) && Attended(Run(Boot(disk, NO_PAST), steps))
  {
    hide Run, Legal, Valid;
    BootValid(disk, NO_PAST);
    RunAttended(Boot(disk, NO_PAST), steps);
  }

  // ---- A way to a stored key ----

  lemma {:induction false} FreshTid(tids: set<Tid>) returns (t: Tid)
    ensures forall u :: u in tids ==> u < t
  {
    t := 0;
    if tids != {} {
      var u :| u in tids;
      var v := FreshTid(tids - {u});
      assert forall x :: x in tids ==> x == u || x in tids - {u};
      t := u + v + 1;
    }
  }

  function BurnRank(pc: Pc): nat {
    match pc
    case Flagging => 5
    case Seeking => 4
    case DeletingSealed(_) => 3
    case DeletingTemp(_, _) => 2
    case DeletingAside(_, _) => 1
    case _ => 0
  }

  /** A burn on its way, every deletion so far done, with no vault unlocked. */
  predicate Burning(w: World, pc: Pc) {
    && w.memory.cell.Unset?
    && (pc.Flagging? || w.memory.burned)
    && match pc
       case Flagging => true
       case Seeking => true
       case DeletingSealed(guarded) => !guarded
       case DeletingTemp(guarded, gone) => !guarded && gone && w.disk.sealed.Missing?
       case DeletingAside(guarded, gone) => !guarded && gone && w.disk.sealed.Missing? && w.disk.temp.Missing?
       case DroppingKey(gone) => gone && w.disk.sealed.Missing? && w.disk.temp.Missing? && w.disk.aside.Missing?
       case _ => false
  }

  /** What such a burn ends in, beside whatever other threads there are. */
  predicate BurnedOut(s: State, b: Tid, s': State) {
    && s'.threads == s.threads - {b}
    && s'.world.disk == EMPTY && s'.world.memory == s.world.memory.(burned := true) && s'.world.history.burnOk
  }

  lemma BurnMoves(w: World, b: Tid, pc: Pc)
    requires Burning(w, pc)
    ensures CanMove(w, pc, [])
    ensures var m := Move(w, b, pc, true, false, []);
      && m.world.memory == w.memory.(burned := true)
      && (m.next.Some? ==> Burning(m.world, m.next.value) && BurnRank(m.next.value) < BurnRank(pc))
      && (m.next.None? ==> m.world.disk == EMPTY && m.world.history.burnOk)
  {}

  lemma {:induction false} BurnRuns(s: State, b: Tid) returns (steps: seq<Step>)
    requires b in s.threads && Burning(s.world, s.threads[b])
    ensures Legal(s, steps) && NoCrash(steps) && BurnedOut(s, b, Run(s, steps))
    decreases BurnRank(s.threads[b])
  {
    hide Move, CanMove, Burning, Legal, Run, BurnRank;
    var go := Go(b, true, false, []);
    BurnMoves(s.world, b, s.threads[b]);
    var s1 := Apply(s, go);
    if b in s1.threads {
      var rest := BurnRuns(s1, b);
      Then(s, go, rest);
      steps := [go] + rest;
      assert s1.threads - {b} == s.threads - {b};
    } else {
      Ends(s1);
      Then(s, go, []);
      steps := [go] + [];
    }
  }

  /** An unlock that has not looked past a missing file for a key. */
  predicate MayCreate(w: World, pc: Pc) {
    && w.memory.cell.Unset?
    && (pc.Asking? ==> w.memory.initializer == None)
    && (pc.Asking? || pc.Looking? || (pc.Reading? && !pc.found) || pc.Storing?)
  }

  lemma UnlockMoves(w: World, t: Tid, pc: Pc, key: Key)
    requires MayCreate(w, pc) && w.disk == EMPTY && |key| == KEY_BYTES
    ensures CanMove(w, pc, key)
    ensures var m := Move(w, t, pc, true, false, key);
      && m.world.history == w.history && m.next.Some?
      && (pc.Storing? ==> m.world.disk == EMPTY.(keychain := Stored(ToHex(key))))
      && (!pc.Storing? ==> m.world.disk == EMPTY && MayCreate(m.world, m.next.value) && Rank(m.next.value) < Rank(pc))
  {
    hide FromHex, ToHex;
  }

  lemma {:induction false} UnlockRuns(s: State, t: Tid, key: Key) returns (steps: seq<Step>)
    requires t in s.threads && MayCreate(s.world, s.threads[t]) && s.world.disk == EMPTY && |key| == KEY_BYTES
    ensures Legal(s, steps) && NoCrash(steps)
    ensures var w := Run(s, steps).world;
      w.disk == EMPTY.(keychain := Stored(ToHex(key))) && w.history == s.world.history
    decreases Rank(s.threads[t])
  {
    hide Move, CanMove, MayCreate, ToHex, Legal, Run, Rank;
    var go := Go(t, true, false, key);
    UnlockMoves(s.world, t, s.threads[t], key);
    var s1 := Apply(s, go);
    if s.threads[t].Storing? {
      Ends(s1);
      Then(s, go, []);
      steps := [go] + [];
    } else {
      var rest := UnlockRuns(s1, t, key);
      Then(s, go, rest);
      steps := [go] + rest;
    }
  }

  /** A burn succeeds, and then an unlock stores a key. */
  ghost predicate StoresAfterBurn(s: State, steps: seq<Step>, key: Key) {
    && Legal(s, steps) && NoCrash(steps)
    && Run(s, steps).world.disk == EMPTY.(keychain := Stored(ToHex(key)))
    && Run(s, steps).world.history.burnOk
  }

  lemma BurnSucceeds(s: State) returns (b: Tid, steps: seq<Step>)
    requires s.world.memory.cell.Unset?
    ensures b !in s.threads && Legal(s, steps) && NoCrash(steps) && BurnedOut(s, b, Run(s, steps))
  {
    hide Move, CanMove, Legal, Run;
    b := FreshTid(s.threads.Keys);
    var begun := Apply(s, Spawn(b, Burn));
    var rest := BurnRuns(begun, b);
    Then(s, Spawn(b, Burn), rest);
    steps := [Spawn(b, Burn)] + rest;
    assert begun.threads - {b} == s.threads;
    assert s.threads - {b} == s.threads;
  }

  /** With an unlock under way that may still create a key, a burn can succeed and the unlock store one after it. */
  lemma LateUnlockStores(s: State, t: Tid, key: Key) returns (later: seq<Step>)
    requires t in s.threads && MayCreate(s.world, s.threads[t]) && |key| == KEY_BYTES
    ensures StoresAfterBurn(s, later, key)
  {
    hide Move, CanMove, Legal, Run, ToHex;
    var b, burning := BurnSucceeds(s);
    var burned := Run(s, burning);
    assert burned.threads[t] == s.threads[t] && MayCreate(burned.world, burned.threads[t]);
    var storing := UnlockRuns(burned, t, key);
    RunJoin(s, burning, storing);
    later := burning + storing;
  }

  /** So it can when nobody has begun to unlock: a launch or a snapshot after the burn begins then. */
  lemma NewUnlockStores(s: State, key: Key) returns (later: seq<Step>)
    requires s.world.memory.cell.Unset? && s.world.memory.initializer == None && |key| == KEY_BYTES
    ensures StoresAfterBurn(s, later, key)
  {
    hide Move, CanMove, Legal, Run, ToHex;
    var u := FreshTid(s.threads.Keys);
    var spawn := Spawn(u, Launch);
    var begun := Apply(s, spawn);
    var rest := LateUnlockStores(begun, u, key);
    Then(s, spawn, rest);
    later := [spawn] + rest;
  }

  lemma UnansweredStores(s: State, key: Key) returns (later: seq<Step>)
    requires Valid(s) && Attended(s) && !Answered(s) && |key| == KEY_BYTES
    ensures StoresAfterBurn(s, later, key)
  {
    hide Move, CanMove, Legal, Run, ToHex, FromHex, Valid;
    if s.world.memory.initializer == None {
      later := NewUnlockStores(s, key);
    } else {
      var t := s.world.memory.initializer.value;
      if s.threads[t].Reading? && s.threads[t].found {
        var go := Go(t, true, false, key);
        PanicFrees(s.world, t, s.threads[t], key);
        var freed := Apply(s, go);
        var rest := NewUnlockStores(freed, key);
        Then(s, go, rest);
        later := [go] + rest;
      } else {
        later := LateUnlockStores(s, t, key);
      }
    }
  }

  /** A reader that panics leaves the cell as it was, for another to initialise. */
  lemma PanicFrees(w: World, t: Tid, pc: Pc, key: Key)
    requires pc.Reading? && Panics(w.disk.keychain)
    ensures CanMove(w, pc, key)
    ensures Move(w, t, pc, true, false, key) == Moved(w.(memory := w.memory.(initializer := None)), None)
  {
    hide FromHex;
  }

  // ---- The theorem ----

  /** A way on from here, in the same process, to a burn that reported success and yet a key in the keychain. */
  ghost predicate EndsWithKey(s: State, later: seq<Step>) {
    && Legal(s, later) && NoCrash(later)
    && Run(s, later).world.history.burnOk && Run(s, later).world.disk.keychain.Stored?
  }

  /** From any reachable state, no way on in that process has a burn report success and a key in the keychain, if and
      only if the unlock has its answer or can only get one that creates no key (and a burn that has already succeeded
      has left none). */
  lemma BurnLeavesNoKeyExactlyWhen(disk: Disk, steps: seq<Step>)
    requires Legal(Boot(disk, NO_PAST), steps)
    ensures var s := Run(Boot(disk, NO_PAST), steps); (forall later :: !EndsWithKey(s, later)) <==> Gone(s)
  {
    hide Run, Legal, Valid, Attended, Answered, ToHex;
    ReachAttended(disk, steps);
    var s := Run(Boot(disk, NO_PAST), steps);
    if Gone(s) {
      forall later ensures !EndsWithKey(s, later) {
        if Legal(s, later) && NoCrash(later) { RunGone(s, later); }
      }
    } else if Answered(s) {
      Ends(s);
      assert EndsWithKey(s, []);
    } else {
      var key := SomeKey(KEY_BYTES);
      var later := UnansweredStores(s, key);
      assert EndsWithKey(s, later);
    }
  }

  function SomeKey(n: nat): (key: Key)
    ensures |key| == n
  {
    if n == 0 then [] else SomeKey(n - 1) + [0]
  }

  /** In that case a burn that then reports success is followed by a first run: the next launch finds nothing, makes a
      new key, and the vault it unlocks is empty. */
  lemma BurnThenFirstRun(disk: Disk, steps: seq<Step>, later: seq<Step>, key: Key)
    requires Legal(Boot(disk, NO_PAST), steps) && |key| == KEY_BYTES
    requires var s := Run(Boot(disk, NO_PAST), steps);
      Gone(s) && Legal(s, later) && NoCrash(later) && Run(s, later).world.history.burnOk
    ensures var s := Run(Run(Boot(disk, NO_PAST), steps), later);
      var booted := Apply(s, Crash);
      && s.world.disk == EMPTY
      && Legal(booted, LaunchSteps(s.world.disk, key))
      && var w := Run(booted, LaunchSteps(s.world.disk, key)).world;
         && w.memory.cell == Unlocked(key) && w.memory.ram == map[]
         && w.disk == EMPTY.(keychain := Stored(ToHex(key)))
  {
    hide Run, Legal, PcValid, Answered, Attended, FromHex, ToHex, Moves;
    ReachAttended(disk, steps);
    var before := Run(Boot(disk, NO_PAST), steps);
    RunGone(before, later);
    RunValid(before, later);
    var s := Run(before, later);
    LaunchDecides(s.world.disk, s.world.history.past, key);
  }

  /** The failing case from a first run: an unlock has seen that no sealed file exists; a burn comes and reports
      success; the unlock finds no key and stores one. (The next launch is empty all the same, and nothing was sealed
      under that key.) */
  lemma LateUnlockStoresAKey(key: Key) returns (steps: seq<Step>)
    requires |key| == KEY_BYTES
    ensures Legal(FIRST_RUN, steps) && Run(FIRST_RUN, steps).world.history.burnOk
    ensures Run(FIRST_RUN, steps).world.disk == EMPTY.(keychain := Stored(ToHex(key)))
  {
    hide FromHex, ToHex, Legal, Run;
    var go := Go(1, true, false, key);
    var spawn := Spawn(1, Launch);
    var started := Apply(FIRST_RUN, spawn);
    var looking := Apply(started, go);
    var reading := Apply(looking, go);
    var later := LateUnlockStores(reading, 1, key);
    Then(looking, go, later);
    Then(started, go, [go] + later);
    Then(FIRST_RUN, spawn, [go] + ([go] + later));
    steps := [spawn] + ([go] + ([go] + later));
  }
}
