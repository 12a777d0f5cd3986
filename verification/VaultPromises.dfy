/** What the vault promises: nothing readable after a burn, nothing lost by a crash, no key made over saved keys. */
module VaultPromises {
  import opened Options
  import opened VaultHex
  import opened VaultModel
  import opened VaultInvariant
  import opened VaultConsistency

  /** Any process: started on whatever disk and keychain, after any interleaving of its threads and any crashes. */
  lemma Reach(disk: Disk, steps: seq<Step>)
    requires Legal(Boot(disk, NO_PAST), steps)
    ensures Valid(Run(Boot(disk, NO_PAST), steps))
  {
    BootValid(disk, NO_PAST);
    RunValid(Boot(disk, NO_PAST), steps);
  }

  /** Any installation: first run to now, with no outside tampering. */
  lemma ReachUntampered(steps: seq<Step>)
    requires Legal(FIRST_RUN, steps)
    ensures Valid(Run(FIRST_RUN, steps)) && Agrees(Run(FIRST_RUN, steps))
  {
    FirstRunAgrees();
    RunValid(FIRST_RUN, steps);
    RunAgrees(FIRST_RUN, steps);
  }

  // ---- Burn ----

  ghost predicate NoCrash(steps: seq<Step>) { forall step :: step in steps ==> !step.Crash? }

  lemma MoveKeepsBurn(w: World, t: Tid, pc: Pc, ok: bool, alt: bool, key: Key)
    requires w.history.localBurn
    ensures Move(w, t, pc, ok, alt, key).world.history.localBurn
  {
    hide FromHex, ToHex;
    if Unlocks(pc) { assert MoveUnlock(w, t, pc, ok, alt, key).world.history.localBurn; }
    else if Writes(pc) { assert MoveWrite(w, t, pc, ok, alt).world.history.localBurn; }
    else if Burns(pc) { assert MoveBurn(w, t, pc, ok).world.history.localBurn; }
  }

  lemma {:induction false} LocalBurnStays(s: State, steps: seq<Step>)
    requires Legal(s, steps) && NoCrash(steps) && s.world.history.localBurn
    ensures Run(s, steps).world.history.localBurn
    decreases |steps|
  {
    hide CanMove, Move;
    if steps != [] {
      var step := steps[0];
      assert step in steps && forall x :: x in steps[1..] ==> x in steps;
      if step.Go? { MoveKeepsBurn(s.world, step.tid, s.threads[step.tid], step.ok, step.alt, step.key); }
      LocalBurnStays(Apply(s, step), steps[1..]);
    }
  }

  /** Once a burn's local part has returned with its deletions done, no vault file exists in any later state of that
      process: not from a write already past its burn check, nor from an unlock that finishes afterwards. */
  lemma BurnIsFinal(disk: Disk, steps: seq<Step>, later: seq<Step>)
    requires Legal(Boot(disk, NO_PAST), steps) && Run(Boot(disk, NO_PAST), steps).world.history.localBurn
    requires Legal(Run(Boot(disk, NO_PAST), steps), later) && NoCrash(later)
    ensures var d := Run(Run(Boot(disk, NO_PAST), steps), later).world.disk;
      d.sealed.Missing? && d.temp.Missing? && d.aside.Missing?
  {
    hide Run, Legal, PcValid, Boot;
    Reach(disk, steps);
    var s := Run(Boot(disk, NO_PAST), steps);
    LocalBurnStays(s, later);
    RunValid(s, later);
  }

  /** A snapshot begun with the burn flag up hands over exactly what the edits made since then add up to. */
  lemma LateSnapshotIsPostBurn(disk: Disk, steps: seq<Step>, step: Step)
    requires Legal(Boot(disk, NO_PAST), steps)
    requires var s := Run(Boot(disk, NO_PAST), steps);
      Enabled(s, step) && step.Go? && s.threads[step.tid].Copying? && s.threads[step.tid].late
    ensures var s := Run(Boot(disk, NO_PAST), steps); ReplyOf(s, step) == Some(s.world.history.after)
  {
    hide Run, Legal, Boot;
    Reach(disk, steps);
    var s := Run(Boot(disk, NO_PAST), steps);
    assert PcValid(s.world, step.tid, s.threads[step.tid]);
  }

  predicate PutsSecret(edit: Edit, secret: string) { edit.Put? && edit.value == secret }

  /** No edit that is waiting to run, and no edit made since the flag rose, holds the secret. */
  ghost predicate Unmentioned(s: State, secret: string) {
    && s.world.memory.burned
    && (forall name :: name in s.world.history.after ==> s.world.history.after[name] != secret)
    && (forall t :: t in s.threads && s.threads[t].Entering? ==> !PutsSecret(s.threads[t].edit, secret))
  }

  ghost predicate Lacks(w: World, secret: string) {
    w.memory.burned && forall name :: name in w.history.after ==> w.history.after[name] != secret
  }

  lemma WriteLacks(w: World, t: Tid, pc: Pc, ok: bool, alt: bool, secret: string)
    requires Lacks(w, secret) && Writes(pc) && (pc.Entering? ==> !PutsSecret(pc.edit, secret))
    ensures var m := MoveWrite(w, t, pc, ok, alt); Lacks(m.world, secret) && (m.next.Some? ==> !m.next.value.Entering?)
  {}

  lemma OtherLacks(w: World, t: Tid, pc: Pc, ok: bool, alt: bool, key: Key, secret: string)
    requires Lacks(w, secret) && !Writes(pc)
    ensures var m := Move(w, t, pc, ok, alt, key); Lacks(m.world, secret) && (m.next.Some? ==> !m.next.value.Entering?)
  {
    hide FromHex, ToHex, MoveWrite;
    if Unlocks(pc) { assert Lacks(MoveUnlock(w, t, pc, ok, alt, key).world, secret); }
    else if Burns(pc) { assert Lacks(MoveBurn(w, t, pc, ok).world, secret); }
  }

  lemma StepUnmentioned(s: State, step: Step, secret: string)
    requires Unmentioned(s, secret) && Enabled(s, step) && !step.Crash?
    requires step.Spawn? && step.command.Write? ==> !PutsSecret(step.command.edit, secret)
    ensures Unmentioned(Apply(s, step), secret)
  {
    hide CanMove, MoveUnlock, MoveWrite, MoveBurn, MoveReset, PutsSecret;
    if step.Go? {
      var pc := s.threads[step.tid];
      if Writes(pc) { WriteLacks(s.world, step.tid, pc, step.ok, step.alt, secret); }
      else { OtherLacks(s.world, step.tid, pc, step.ok, step.alt, step.key, secret); }
    }
  }

  lemma {:induction false} RunUnmentioned(s: State, steps: seq<Step>, secret: string)
    requires Unmentioned(s, secret) && Legal(s, steps) && NoCrash(steps)
    requires forall step :: step in steps && step.Spawn? && step.command.Write? ==>
      !PutsSecret(step.command.edit, secret)
    ensures Unmentioned(Run(s, steps), secret)
    decreases |steps|
  {
    hide Unmentioned, Enabled, Apply, PutsSecret;
    if steps != [] {
      assert steps[0] in steps && forall x :: x in steps[1..] ==> x in steps;
      StepUnmentioned(s, steps[0], secret);
      RunUnmentioned(Apply(s, steps[0]), steps[1..], secret);
    }
  }

  lemma {:induction false} RunJoin(s: State, first: seq<Step>, rest: seq<Step>)
    requires Legal(s, first) && Legal(Run(s, first), rest)
    ensures Legal(s, first + rest) && Run(s, first + rest) == Run(Run(s, first), rest)
    decreases |first|
  {
    hide Enabled, Apply;
    if first == [] {
      assert first + rest == rest;
    } else {
      assert (first + rest)[1..] == first[1..] + rest;
      RunJoin(Apply(s, first[0]), first[1..], rest);
    }
  }

  /** From the moment a burn raises its flag, a value that nobody is still waiting to write is never handed to a
      snapshot begun afterwards, wherever it was before: in RAM, on disk, or in the hands of a late unlock. */
  lemma BurnedSecretsStayGone(disk: Disk, steps: seq<Step>, t: Tid, later: seq<Step>, step: Step, secret: string)
    requires Legal(Boot(disk, NO_PAST), steps) && t in Run(Boot(disk, NO_PAST), steps).threads
    requires var s := Run(Boot(disk, NO_PAST), steps);
      && s.threads[t].Flagging? && !s.world.memory.burned
      && (forall u :: u in s.threads && s.threads[u].Entering? ==> !PutsSecret(s.threads[u].edit, secret))
    requires var s := Apply(Run(Boot(disk, NO_PAST), steps), Go(t, true, true, []));
      && Legal(s, later) && NoCrash(later)
      && Enabled(Run(s, later), step) && step.Go?
      && Run(s, later).threads[step.tid].Copying? && Run(s, later).threads[step.tid].late
    requires forall x :: x in later && x.Spawn? && x.command.Write? ==> !PutsSecret(x.command.edit, secret)
    ensures var s := Apply(Run(Boot(disk, NO_PAST), steps), Go(t, true, true, []));
      var reply := ReplyOf(Run(s, later), step);
      reply.Some? && secret !in reply.value.Values
  {
    hide Run, Legal, Valid, Boot, PutsSecret;
    var s0 := Run(Boot(disk, NO_PAST), steps);
    var raise := Go(t, true, true, []);
    var s := Apply(s0, raise);
    Reach(disk, steps);
    StepValid(s0, raise);
    RaisedUnmentioned(s0, t, secret);
    RunUnmentioned(s, later, secret);
    RunValid(s, later);
    LateReply(Run(s, later), step);
  }

  lemma RaisedUnmentioned(s: State, t: Tid, secret: string)
    requires t in s.threads && s.threads[t].Flagging? && !s.world.memory.burned
    requires forall u :: u in s.threads && s.threads[u].Entering? ==> !PutsSecret(s.threads[u].edit, secret)
    ensures Unmentioned(Apply(s, Go(t, true, true, [])), secret)
  {
    hide PutsSecret;
  }

  lemma LateReply(s: State, step: Step)
    requires Valid(s) && Enabled(s, step) && step.Go? && s.threads[step.tid].Copying? && s.threads[step.tid].late
    ensures ReplyOf(s, step) == Some(s.world.history.after)
  {
    assert PcValid(s.world, step.tid, s.threads[step.tid]);
  }

  // ---- Saved keys ----

  /** In every state of an untampered installation, a sealed file whose key no burn has dropped opens under the current
      keychain key and holds the RAM contents of the last successful write. */
  lemma SealedFileOpens(steps: seq<Step>)
    requires Legal(FIRST_RUN, steps)
    ensures var w := Run(FIRST_RUN, steps).world;
      w.disk.sealed.Holds? && !w.history.past.orphaned ==>
        exists k :: KeyIs(w.disk.keychain, k) && w.history.past.saved.Some?
          && w.disk.sealed == Holds(Sealed(k, w.history.past.saved.value))
  {
    hide Run, Legal, Valid;
    ReachUntampered(steps);
    var w := Run(FIRST_RUN, steps).world;
    if w.disk.sealed.Holds? && !w.history.past.orphaned {
      assert KeyIs(w.disk.keychain, w.disk.sealed.blob.key);
    }
  }

  /** No path creates a key while a sealed file exists, on any disk and in any interleaving. */
  lemma NoKeyOverSavedKeys(disk: Disk, steps: seq<Step>, step: Step)
    requires Legal(Boot(disk, NO_PAST), steps) && Enabled(Run(Boot(disk, NO_PAST), steps), step)
    ensures var before := Run(Boot(disk, NO_PAST), steps).world.disk;
      var after := Apply(Run(Boot(disk, NO_PAST), steps), step).world.disk;
      after.keychain.Stored? && after.keychain != before.keychain ==> before.sealed.Missing? && after.sealed.Missing?
  {
    hide Run, Legal, FromHex, ToHex, Move, PcValid, WorldValid, CanMove;
    Reach(disk, steps);
    var s := Run(Boot(disk, NO_PAST), steps);
    if step.Go? {
      assert PcValid(s.world, step.tid, s.threads[step.tid]);
      MoveStoresKey(s.world, step.tid, s.threads[step.tid], step.ok, step.alt, step.key);
    }
  }

  lemma MoveStoresKey(w: World, t: Tid, pc: Pc, ok: bool, alt: bool, key: Key)
    requires PcValid(w, t, pc)
    ensures var after := Move(w, t, pc, ok, alt, key).world.disk;
      after.keychain.Stored? && after.keychain != w.disk.keychain ==> w.disk.sealed.Missing? && after.sealed.Missing?
  {
    hide FromHex, ToHex, Usable;
  }

  /** What a step may do to the sealed path, given where the thread that moved stood: only a burn deletes it; only a
      reset moves it, and then the same bytes stand aside; only a write's rename changes it, at once from the old bytes
      to a whole file sealing RAM, which is then the last save. */
  predicate Whole(w: World, mover: Option<Pc>, w': World) {
    || w'.disk.sealed == w.disk.sealed
    || (mover.Some? && mover.value.DeletingSealed? && w'.disk.sealed.Missing?)
    || (mover == Some(Moving) && w'.disk.sealed.Missing? && w'.disk.aside == w.disk.sealed)
    || (mover.Some? && mover.value.Renaming? && w.memory.cell.Unlocked? && !w.history.deleting
        && w'.disk.sealed == Holds(Sealed(w.memory.cell.master, w.memory.ram))
        && w'.history.past.saved == Some(w.memory.ram))
  }

  lemma MoveWhole(w: World, t: Tid, pc: Pc, ok: bool, alt: bool, key: Key)
    requires PcValid(w, t, pc)
    ensures Whole(w, Some(pc), Move(w, t, pc, ok, alt, key).world)
  {
    hide FromHex, ToHex;
    if Unlocks(pc) { assert MoveUnlock(w, t, pc, ok, alt, key).world.disk.sealed == w.disk.sealed; }
    else if Writes(pc) { assert Whole(w, Some(pc), MoveWrite(w, t, pc, ok, alt).world); }
    else if Burns(pc) { assert Whole(w, Some(pc), MoveBurn(w, t, pc, ok).world); }
    else if !pc.Copying? { assert Whole(w, Some(pc), MoveReset(w, pc, ok).world); }
  }

  /** Where the thread that takes the step stands, if the step is a thread's. */
  function Mover(s: State, step: Step): Option<Pc> {
    if step.Go? && step.tid in s.threads then Some(s.threads[step.tid]) else None
  }

  /** The sealed path is always wholly the old bytes or wholly the new, in every interleaving and from any disk, and
      nothing but a burn or a reset ever leaves it empty. */
  lemma SealedFileIsNeverPartial(disk: Disk, steps: seq<Step>, step: Step)
    requires Legal(Boot(disk, NO_PAST), steps) && Enabled(Run(Boot(disk, NO_PAST), steps), step)
    ensures var s := Run(Boot(disk, NO_PAST), steps); Whole(s.world, Mover(s, step), Apply(s, step).world)
  {
    hide Run, Legal, PcValid, Move, Whole;
    Reach(disk, steps);
    var s := Run(Boot(disk, NO_PAST), steps);
    match step
    case Go(t, ok, alt, key) => MoveWhole(s.world, t, s.threads[t], ok, alt, key);
    case _ => UntouchedWhole(s.world, Apply(s, step).world);
  }

  lemma UntouchedWhole(w: World, w': World)
    requires w'.disk == w.disk
    ensures Whole(w, None, w')
  {}

  // ---- Launching again ----

  /** A launch that has the process to itself, no burn yet. */
  predicate Launching(w: World, pc: Pc, key: Key) {
    && |key| == KEY_BYTES
    && !w.memory.burned && w.memory.mutex.None?
    && Unlocks(pc) && !pc.Wiping? && !pc.snapshot
    && (pc.Asking? ==> w.memory.initializer == None)
  }

  function Rank(pc: Pc): nat {
    match pc
    case Asking(_, _) => 5
    case Looking(_, _) => 4
    case Reading(_, _, _) => 3
    case Storing(_, _) => 2
    case Opening(_, _, _) => 1
    case _ => 0
  }

  /** Its remaining moves, the keychain and the disk answering each time. */
  function Moves(w: World, pc: Pc, key: Key): seq<Step>
    requires Launching(w, pc, key)
    decreases Rank(pc)
  {
    var m := MoveUnlock(w, 0, pc, true, false, key);
    [Go(0, true, false, key)] + if m.next.None? then [] else Moves(m.world, m.next.value, key)
  }

  /** Where they lead. */
  function Final(w: World, pc: Pc, key: Key): World
    requires Launching(w, pc, key)
    decreases Rank(pc)
  {
    var m := MoveUnlock(w, 0, pc, true, false, key);
    if m.next.None? then m.world else Final(m.world, m.next.value, key)
  }

  lemma {:induction false} RunMoves(w: World, pc: Pc, key: Key)
    requires Launching(w, pc, key)
    ensures Legal(State(w, map[0 := pc]), Moves(w, pc, key))
    ensures Run(State(w, map[0 := pc]), Moves(w, pc, key)) == State(Final(w, pc, key), map[])
    decreases Rank(pc)
  {
    hide MoveUnlock;
    var s := State(w, map[0 := pc]);
    var m := MoveUnlock(w, 0, pc, true, false, key);
    var steps := Moves(w, pc, key);
    LaunchMove(w, pc, key);
    assert Enabled(s, steps[0]);
    var s' := Apply(s, steps[0]);
    if m.next.None? {
      assert s'.threads == map[];
      assert steps[1..] == [];
    } else {
      assert s' == State(m.world, map[0 := m.next.value]);
      assert steps[1..] == Moves(m.world, m.next.value, key);
      RunMoves(m.world, m.next.value, key);
    }
  }

  lemma LaunchMove(w: World, pc: Pc, key: Key)
    requires Launching(w, pc, key)
    ensures CanMove(w, pc, key)
    ensures Move(w, 0, pc, true, false, key) == MoveUnlock(w, 0, pc, true, false, key)
    ensures var m := MoveUnlock(w, 0, pc, true, false, key);
      m.next.Some? ==> Launching(m.world, m.next.value, key) && Rank(m.next.value) < Rank(pc)
  {
    hide FromHex, ToHex;
  }

  function LaunchSteps(disk: Disk, key: Key): seq<Step>
    requires |key| == KEY_BYTES
  {
    [Spawn(0, Launch)] + Moves(Boot(disk, NO_PAST).world, Asking(false, false), key)
  }

  /** How such a launch ends. */
  function LaunchResult(disk: Disk, key: Key): (Cell, Contents) {
    match disk.keychain
    case NoEntry => if disk.sealed.Holds? then (LockedOut(Vault), map[]) else (Unlocked(key), map[])
    case Stored(text) =>
      match FromHex(text)
      case Malformed => (LockedOut(Vault), map[])
      case Panicked => (Unset, map[])
      case Parsed(k) =>
        match disk.sealed
        case Missing => (Unlocked(k), map[])
        case Holds(Torn) => (LockedOut(Vault), map[])
        case Holds(Sealed(k', contents)) => if k == k' then (Unlocked(k), contents) else (LockedOut(Vault), map[])
  }

  /** A launch reads the keychain and the disk and ends exactly as the table above says, for every disk, every stored
      value and every fresh key; the disk is untouched, and a key is stored only when there was none and nothing sealed.
      */
  lemma LaunchDecides(disk: Disk, past: Past, key: Key)
    requires |key| == KEY_BYTES
    ensures var s := Boot(disk, past);
      Legal(s, LaunchSteps(disk, key)) && Launched(disk, key, Run(s, LaunchSteps(disk, key)))
  {
    hide Moves, Final, Run, Legal;
    var s := Boot(disk, past);
    var first := Asking(false, false);
    MovesIgnoreHistory(Boot(disk, NO_PAST).world, s.world, first, key);
    RunMoves(s.world, first, key);
    LaunchFinal(s.world, key);
    SpawnThen(s, LaunchSteps(disk, key));
  }

  /** The launch thread has ended and left what the table says. */
  ghost predicate Launched(disk: Disk, key: Key, s: State) {
    && s.threads == map[]
    && (s.world.memory.cell, s.world.memory.ram) == LaunchResult(disk, key)
    && s.world.disk ==
         if disk.keychain.NoEntry? && disk.sealed.Missing? then disk.(keychain := Stored(ToHex(key))) else disk
  }

  lemma SpawnThen(s: State, steps: seq<Step>)
    requires s.threads == map[] && !s.world.memory.burned && steps != [] && steps[0] == Spawn(0, Launch)
    requires Legal(State(s.world, map[0 := Asking(false, false)]), steps[1..])
    ensures Legal(s, steps) && Run(s, steps) == Run(State(s.world, map[0 := Asking(false, false)]), steps[1..])
  {
    assert Apply(s, steps[0]) == State(s.world, map[0 := Asking(false, false)]);
  }

  /** A launch's moves depend on the disk and the memory only. */
  lemma {:induction false} MovesIgnoreHistory(a: World, b: World, pc: Pc, key: Key)
    requires Launching(a, pc, key) && Launching(b, pc, key) && a.disk == b.disk && a.memory == b.memory
    ensures Moves(a, pc, key) == Moves(b, pc, key)
    decreases Rank(pc)
  {
    hide FromHex, ToHex;
    var m, n := MoveUnlock(a, 0, pc, true, false, key), MoveUnlock(b, 0, pc, true, false, key);
    assert m.next == n.next && m.world.disk == n.world.disk && m.world.memory == n.world.memory;
    if m.next.Some? {
      MovesIgnoreHistory(m.world, n.world, m.next.value, key);
    }
  }

  lemma LaunchFinal(w: World, key: Key)
    requires w.memory == Memory(Unset, None, map[], None, false) && |key| == KEY_BYTES
    ensures Launched(w.disk, key, State(Final(w, Asking(false, false), key), map[]))
  {
    hide FromHex, ToHex, Final;
    var w1 := w.(memory := w.memory.(initializer := Some(0)));
    FinalStep(w, Asking(false, false), key);
    FinalStep(w1, Looking(false, false), key);
    var reading := Reading(false, false, w.disk.sealed.Holds?);
    FinalStep(w1, reading, key);
    var m := ReadKey(w1, reading);
    if m.next.Some? {
      FinalStep(m.world, m.next.value, key);
      if m.next.value.Storing? {
        var w2 := WithKeychain(w1, Stored(ToHex(key)));
        FinalStep(w2, Opening(false, false, key), key);
        var loaded := OpenSealed(w2, Opening(false, false, key));
        FinalStep(loaded.world, Checking(false, false), key);
      } else if m.next.value.Opening? {
        FinalStep(OpenSealed(w1, m.next.value).world, Checking(false, false), key);
      }
    }
  }

  lemma FinalStep(w: World, pc: Pc, key: Key)
    requires Launching(w, pc, key)
    ensures var m := MoveUnlock(w, 0, pc, true, false, key);
      Final(w, pc, key) == if m.next.None? then m.world else Final(m.world, m.next.value, key)
  {}

  /** After a crash at any moment, the next launch brings back exactly the last successful write, unless a burn or a
      reset has taken it away since (then, or if nothing was ever written, an empty vault). The one other case: a burn
      has dropped the key and failed to delete the file under it; then, and only then, the launch finds the vault
      locked. */
  lemma CrashLosesNothingSaved(steps: seq<Step>, key: Key)
    requires Legal(FIRST_RUN, steps) && |key| == KEY_BYTES
    ensures var s := Run(FIRST_RUN, steps); var h := s.world.history.past;
      var booted := Apply(s, Crash);
      && Legal(booted, LaunchSteps(s.world.disk, key))
      && var w := Run(booted, LaunchSteps(s.world.disk, key)).world;
         if h.orphaned then w.memory.cell == LockedOut(Vault) && w.disk == s.world.disk
         else
           && w.memory.cell.Unlocked?
           && KeyIs(w.disk.keychain, w.memory.cell.master)
           && w.memory.ram == (if h.saved.Some? && !h.removed then h.saved.value else map[])
  {
    hide Run, Legal, Valid, FromHex, ToHex, Moves;
    ReachUntampered(steps);
    var s := Run(FIRST_RUN, steps);
    LaunchDecides(s.world.disk, s.world.history.past, key);
    HexRoundTrip(key);
  }

  predicate Takes(pc: Pc) { Burns(pc) || Resets(pc) || pc.Targeting? }

  /** No burn or reset is under way, and none has ever taken the file. */
  ghost predicate Untouched(s: State) {
    && !s.world.history.past.removed && !s.world.history.past.orphaned
    && forall t :: t in s.threads ==> !Takes(s.threads[t])
  }

  lemma MoveUntouched(w: World, t: Tid, pc: Pc, ok: bool, alt: bool, key: Key)
    requires !w.history.past.removed && !w.history.past.orphaned && !Takes(pc)
    ensures var m := Move(w, t, pc, ok, alt, key);
      && !m.world.history.past.removed && !m.world.history.past.orphaned
      && (m.next.Some? ==> !Takes(m.next.value))
  {
    hide MoveUnlock, MoveWrite, MoveBurn, MoveReset;
    if Unlocks(pc) { UnlockUntouched(w, t, pc, ok, alt, key); }
    else if Writes(pc) { WriteUntouched(w, t, pc, ok, alt); }
  }

  lemma UnlockUntouched(w: World, t: Tid, pc: Pc, ok: bool, alt: bool, key: Key)
    requires Unlocks(pc)
    ensures var m := MoveUnlock(w, t, pc, ok, alt, key);
      m.world.history.past == w.history.past && (m.next.Some? ==> !Takes(m.next.value))
  {
    hide FromHex, ToHex;
  }

  lemma WriteUntouched(w: World, t: Tid, pc: Pc, ok: bool, alt: bool)
    requires Writes(pc) && !w.history.past.removed && !w.history.past.orphaned
    ensures var m := MoveWrite(w, t, pc, ok, alt);
      && !m.world.history.past.removed && !m.world.history.past.orphaned
      && (m.next.Some? ==> !Takes(m.next.value))
  {}

  lemma {:induction false} RunUntouched(s: State, steps: seq<Step>)
    requires Untouched(s) && Legal(s, steps)
    requires forall step :: step in steps && step.Spawn? ==> !step.command.Burn? && !step.command.Reset?
    ensures Untouched(Run(s, steps))
    decreases |steps|
  {
    hide Move, CanMove, Takes;
    if steps != [] {
      var step := steps[0];
      assert step in steps && forall x :: x in steps[1..] ==> x in steps;
      if step.Go? { MoveUntouched(s.world, step.tid, s.threads[step.tid], step.ok, step.alt, step.key); }
      if step.Spawn? { FirstTakesNot(step.command, s.world.memory.burned); }
      RunUntouched(Apply(s, step), steps[1..]);
    }
  }

  lemma FirstTakesNot(command: Command, burned: bool)
    requires !command.Burn? && !command.Reset?
    ensures !Takes(FirstPc(command, burned))
  {}

  /** Where nobody ever burns or resets, whatever else runs, fails or crashes, the next launch brings back exactly the
      last successful write. */
  lemma WithoutBurnOrResetNothingIsLost(steps: seq<Step>, key: Key)
    requires Legal(FIRST_RUN, steps) && |key| == KEY_BYTES
    requires forall step :: step in steps && step.Spawn? ==> !step.command.Burn? && !step.command.Reset?
    ensures var s := Run(FIRST_RUN, steps); var saved := s.world.history.past.saved;
      var booted := Apply(s, Crash);
      && Legal(booted, LaunchSteps(s.world.disk, key))
      && var w := Run(booted, LaunchSteps(s.world.disk, key)).world;
         w.memory.cell.Unlocked? && w.memory.ram == if saved.Some? then saved.value else map[]
  {
    hide Run, Legal, Moves;
    RunUntouched(FIRST_RUN, steps);
    CrashLosesNothingSaved(steps, key);
  }

  // ---- Reset ----

  /** In every state of an untampered installation, the file a reset last moved aside, if no burn has since deleted it
      or dropped its key, is whole, holds what was the last save when it was moved, and opens under the key the keychain
      still has. */
  lemma ResetKeepsTheSavedKeys(steps: seq<Step>)
    requires Legal(FIRST_RUN, steps)
    ensures var w := Run(FIRST_RUN, steps).world; var past := w.history.past;
      past.moved.Some? && !past.asideOrphaned ==>
        exists k :: KeyIs(w.disk.keychain, k) && w.disk.aside == Holds(Sealed(k, past.moved.value))
  {
    hide Run, Legal, Valid;
    ReachUntampered(steps);
    var w := Run(FIRST_RUN, steps).world;
    if w.history.past.moved.Some? && !w.history.past.asideOrphaned {
      assert KeyIs(w.disk.keychain, w.disk.aside.blob.key);
    }
  }

  /** What a step may do to a stored key: only a burn deletes it, and a reset only if it is malformed; no step puts
      another in its place. */
  predicate KeyKept(w: World, mover: Option<Pc>, w': World) {
    || w'.disk.keychain == w.disk.keychain
    || (w'.disk.keychain.NoEntry? && mover.Some? && mover.value.DroppingKey?)
    || (w'.disk.keychain.NoEntry? && mover == Some(Unkeying)
        && w.disk.keychain.Stored? && FromHex(w.disk.keychain.text).Malformed?)
    || (w.disk.keychain.NoEntry? && mover.Some? && mover.value.Storing?)
  }

  lemma MoveKeepsKey(w: World, t: Tid, pc: Pc, ok: bool, alt: bool, key: Key)
    requires PcValid(w, t, pc)
    ensures KeyKept(w, Some(pc), Move(w, t, pc, ok, alt, key).world)
  {
    hide FromHex, ToHex, Usable;
  }

  /** From any disk and keychain, in every interleaving, a well-formed key goes only by a burn: a reset keeps it. */
  lemma ResetKeepsTheKey(disk: Disk, steps: seq<Step>, step: Step)
    requires Legal(Boot(disk, NO_PAST), steps) && Enabled(Run(Boot(disk, NO_PAST), steps), step)
    ensures var s := Run(Boot(disk, NO_PAST), steps); KeyKept(s.world, Mover(s, step), Apply(s, step).world)
  {
    hide Run, Legal, PcValid, WorldValid, Move, CanMove, FromHex;
    Reach(disk, steps);
    var s := Run(Boot(disk, NO_PAST), steps);
    match step
    case Go(t, ok, alt, key) => MoveKeepsKey(s.world, t, s.threads[t], ok, alt, key);
    case _ => assert Apply(s, step).world.disk == s.world.disk;
  }

  /** After a reset has reported success, from whatever disk and keychain, the next launch unlocks to an empty vault;
      the same after a successful burn. It makes a new key exactly when the keychain then has none. */
  lemma ResetOrBurnThenRelaunch(disk: Disk, steps: seq<Step>, key: Key)
    requires Legal(Boot(disk, NO_PAST), steps) && |key| == KEY_BYTES
    requires var h := Run(Boot(disk, NO_PAST), steps).world.history; h.resetOk || h.burnOk
    ensures var s := Run(Boot(disk, NO_PAST), steps);
      var booted := Apply(s, Crash);
      && Legal(booted, LaunchSteps(s.world.disk, key))
      && var w := Run(booted, LaunchSteps(s.world.disk, key)).world;
         && w.memory.cell.Unlocked? && w.memory.ram == map[]
         && (s.world.disk.keychain.NoEntry? ==> w.memory.cell.master == key && w.disk.keychain == Stored(ToHex(key)))
         && (s.world.disk.keychain.Stored? ==> w.disk == s.world.disk)
  {
    hide Run, Legal, PcValid, FromHex, ToHex, Moves;
    Reach(disk, steps);
    var s := Run(Boot(disk, NO_PAST), steps);
    LaunchDecides(s.world.disk, s.world.history.past, key);
  }

  /** Why a burn must delete the sealed file before its key may go: a file left behind with no key locks the next
      launch, whatever the file holds. */
  lemma LeftoverFileLocksOut(blob: Blob, past: Past, key: Key)
    requires |key| == KEY_BYTES
    ensures var disk := Disk(Holds(blob), Missing, Missing, NoEntry);
      var s := Boot(disk, past);
      Legal(s, LaunchSteps(disk, key)) && Run(s, LaunchSteps(disk, key)).world.memory.cell == LockedOut(Vault)
  {
    hide Run, Legal;
    LaunchDecides(Disk(Holds(blob), Missing, Missing, NoEntry), past, key);
  }

  lemma Then(s: State, step: Step, rest: seq<Step>)
    requires Enabled(s, step) && Legal(Apply(s, step), rest)
    ensures Legal(s, [step] + rest) && Run(s, [step] + rest) == Run(Apply(s, step), rest)
  {
    assert ([step] + rest)[1..] == rest;
  }

  lemma Ends(s: State)
    ensures Legal(s, []) && Run(s, []) == s
  {}
}
