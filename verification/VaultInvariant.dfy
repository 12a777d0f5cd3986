/** What every interleaving of vault threads keeps, from any disk and keychain whatever. */
module VaultInvariant {
  import opened Options
  import opened VaultHex
  import opened VaultModel

  /** Inside the initializer of the unlock cell. */
  predicate Initializing(pc: Pc) { pc.Looking? || pc.Reading? || pc.Storing? || pc.Opening? }

  /** Past the burn check of a write: this thread is going to replace the sealed file. */
  predicate PastCheck(pc: Pc) { pc.Sealing? || pc.Creating? || pc.Filling? || pc.Renaming? }

  predicate WritesUnderLock(pc: Pc) { pc.Persisting? || PastCheck(pc) }

  predicate Guarded(pc: Pc) {
    (pc.DeletingSealed? || pc.DeletingTemp? || pc.DeletingAside?) && pc.guarded
  }

  predicate BurnDeletes(pc: Pc) { pc.DeletingSealed? || pc.DeletingTemp? || pc.DeletingAside? || pc.DroppingKey? }

  predicate Resets(pc: Pc) { pc.Moving? || pc.Tidying? || pc.Consulting? || pc.Unkeying? }

  /** What a thread's position says about who else may move. */
  predicate Excludes(w: World, t: Tid, pc: Pc) {
    && (Initializing(pc) ==> w.memory.initializer == Some(t))
    && (WritesUnderLock(pc) || Guarded(pc) ==> w.memory.mutex == Some(t))
    && (PastCheck(pc) ==> !w.history.deleting)
    && (BurnDeletes(pc) ==> w.history.deleting)
  }

  /** ... about the unlock and the burn flag ... */
  predicate Knows(w: World, pc: Pc) {
    && (WritesUnderLock(pc) || pc.Clearing? || pc.Wiping? || pc.Copying? ==> w.memory.cell.Unlocked?)
    && (pc.Checking? ==> w.memory.cell != Unset)
    && (pc.Seeking? || pc.Clearing? || pc.Wiping? ==> w.memory.burned)
    && (Unlocks(pc) && pc.late ==> w.memory.burned)
    && (pc.Copying? && pc.late ==> w.history.clean)
    && (Resets(pc) ==> w.memory.cell == LockedOut(Vault))
  }

  /** ... and about the files. */
  predicate Files(w: World, pc: Pc) {
    && ((pc.Reading? && !pc.found) || pc.Storing? ==> w.disk.sealed.Missing?)
    && (pc.Creating? || pc.Filling? || pc.Renaming? ==>
          w.memory.cell.Unlocked? && pc.blob == Sealed(w.memory.cell.master, w.memory.ram))
    && (pc.Renaming? ==> w.disk.temp == Holds(pc.blob))
    && (pc.Storing? ==> w.disk.keychain.NoEntry?)
    && (pc.Unkeying? && w.disk.keychain.Stored? ==> FromHex(w.disk.keychain.text).Malformed?)
    && (pc.DeletingTemp? && pc.gone ==> w.disk.sealed.Missing?)
    && (pc.DeletingAside? && pc.gone ==> w.disk.sealed.Missing? && w.disk.temp.Missing?)
    && (pc.DroppingKey? && pc.gone ==> w.history.localBurn)
    && (pc.Tidying? || pc.Consulting? || pc.Unkeying? ==> w.disk.sealed.Missing?)
  }

  predicate PcValid(w: World, t: Tid, pc: Pc) { Excludes(w, t, pc) && Knows(w, pc) && Files(w, pc) }

  predicate WorldValid(w: World) {
    && (w.memory.initializer.Some? ==> w.memory.cell == Unset)
    && (w.history.deleting ==> w.memory.burned)
    && (w.history.clean ==> w.memory.burned && w.memory.cell.Unlocked? && w.memory.ram == w.history.after)
    && (w.history.localBurn ==>
          w.history.deleting && w.disk.sealed.Missing? && w.disk.temp.Missing? && w.disk.aside.Missing?)
    && (w.history.burnOk ==> w.history.localBurn && Usable(w.disk.keychain))
    && (w.history.resetOk ==>
          w.memory.cell == LockedOut(Vault) && w.disk.sealed.Missing? && Usable(w.disk.keychain))
  }

  ghost predicate Valid(s: State) {
    && WorldValid(s.world)
    && forall t :: t in s.threads ==> PcValid(s.world, t, s.threads[t])
  }

  // ---- Each step keeps it ----

  lemma BootValid(disk: Disk, past: Past)
    ensures Valid(Boot(disk, past))
  {}

  lemma UnlockValid(w: World, t: Tid, pc: Pc, ok: bool, alt: bool, key: Key)
    requires WorldValid(w) && PcValid(w, t, pc) && CanMove(w, pc, key) && Unlocks(pc)
    ensures var m := MoveUnlock(w, t, pc, ok, alt, key);
      WorldValid(m.world) && (m.next.Some? ==> PcValid(m.world, t, m.next.value))
  {
    hide FromHex, ToHex, ReadKey, OpenSealed, Usable, WorldValid, PcValid, MoveUnlock, CanMove;
    if pc.Reading? || pc.Opening? { InitializerValid(w, t, pc, ok, alt, key); }
    else if pc.Checking? || pc.Wiping? { CheckingValid(w, t, pc, ok, alt, key); }
    else { AskingValid(w, t, pc, ok, alt, key); }
  }

  lemma InitializerValid(w: World, t: Tid, pc: Pc, ok: bool, alt: bool, key: Key)
    requires WorldValid(w) && PcValid(w, t, pc) && (pc.Reading? || pc.Opening?)
    ensures var m := MoveUnlock(w, t, pc, ok, alt, key);
      WorldValid(m.world) && (m.next.Some? ==> PcValid(m.world, t, m.next.value))
  {
    hide FromHex, ToHex, ReadKey, OpenSealed, Usable;
    if pc.Reading? { ReadKeyValid(w, t, pc); } else { OpenSealedValid(w, t, pc); }
  }

  lemma CheckingValid(w: World, t: Tid, pc: Pc, ok: bool, alt: bool, key: Key)
    requires WorldValid(w) && PcValid(w, t, pc) && CanMove(w, pc, key) && (pc.Checking? || pc.Wiping?)
    ensures var m := MoveUnlock(w, t, pc, ok, alt, key);
      WorldValid(m.world) && (m.next.Some? ==> PcValid(m.world, t, m.next.value))
  {
    hide FromHex, ToHex, Usable;
  }

  lemma AskingValid(w: World, t: Tid, pc: Pc, ok: bool, alt: bool, key: Key)
    requires WorldValid(w) && PcValid(w, t, pc) && CanMove(w, pc, key) && (pc.Asking? || pc.Looking? || pc.Storing?)
    ensures var m := MoveUnlock(w, t, pc, ok, alt, key);
      WorldValid(m.world) && (m.next.Some? ==> PcValid(m.world, t, m.next.value))
  {
    hide FromHex, ToHex, Usable;
    if pc.Storing? { StoredIsUsable(key); }
  }

  lemma StoredIsUsable(key: Key)
    requires |key| == KEY_BYTES
    ensures Usable(Stored(ToHex(key)))
  {
    HexRoundTrip(key);
  }

  lemma ReadKeyValid(w: World, t: Tid, pc: Pc)
    requires WorldValid(w) && PcValid(w, t, pc) && pc.Reading?
    ensures var m := ReadKey(w, pc); WorldValid(m.world) && (m.next.Some? ==> PcValid(m.world, t, m.next.value))
  {
    hide FromHex, ToHex;
  }

  lemma OpenSealedValid(w: World, t: Tid, pc: Pc)
    requires WorldValid(w) && PcValid(w, t, pc) && pc.Opening?
    ensures var m := OpenSealed(w, pc); WorldValid(m.world) && (m.next.Some? ==> PcValid(m.world, t, m.next.value))
  {
    hide FromHex, ToHex;
  }

  lemma UnlockSpares(w: World, t: Tid, pc: Pc, ok: bool, alt: bool, key: Key, u: Tid, other: Pc)
    requires WorldValid(w) && PcValid(w, t, pc) && CanMove(w, pc, key) && Unlocks(pc)
    requires u != t && PcValid(w, u, other)
    ensures PcValid(MoveUnlock(w, t, pc, ok, alt, key).world, u, other)
  {
    hide FromHex, ToHex;
  }

  lemma WriteValid(w: World, t: Tid, pc: Pc, ok: bool, alt: bool, key: Key)
    requires WorldValid(w) && PcValid(w, t, pc) && CanMove(w, pc, key) && Writes(pc)
    ensures var m := MoveWrite(w, t, pc, ok, alt);
      WorldValid(m.world) && (m.next.Some? ==> PcValid(m.world, t, m.next.value))
  {
    hide FromHex, ToHex;
  }

  lemma WriteSpares(w: World, t: Tid, pc: Pc, ok: bool, alt: bool, key: Key, u: Tid, other: Pc)
    requires WorldValid(w) && PcValid(w, t, pc) && CanMove(w, pc, key) && Writes(pc)
    requires u != t && PcValid(w, u, other)
    ensures PcValid(MoveWrite(w, t, pc, ok, alt).world, u, other)
  {
    hide FromHex, ToHex;
  }

  lemma BurnValid(w: World, t: Tid, pc: Pc, ok: bool, alt: bool, key: Key)
    requires WorldValid(w) && PcValid(w, t, pc) && CanMove(w, pc, key) && Burns(pc)
    ensures var m := MoveBurn(w, t, pc, ok); WorldValid(m.world) && (m.next.Some? ==> PcValid(m.world, t, m.next.value))
  {
    hide FromHex, ToHex, Usable, WorldValid, PcValid, MoveBurn, CanMove;
    if pc.Flagging? || pc.Seeking? || pc.Clearing? { BurnBeginsValid(w, t, pc, ok, alt, key); }
    else { BurnDeletesValid(w, t, pc, ok, alt, key); }
  }

  lemma BurnBeginsValid(w: World, t: Tid, pc: Pc, ok: bool, alt: bool, key: Key)
    requires WorldValid(w) && PcValid(w, t, pc) && CanMove(w, pc, key) && (pc.Flagging? || pc.Seeking? || pc.Clearing?)
    ensures var m := MoveBurn(w, t, pc, ok); WorldValid(m.world) && (m.next.Some? ==> PcValid(m.world, t, m.next.value))
  {
    hide FromHex, ToHex, Usable;
  }

  lemma BurnDeletesValid(w: World, t: Tid, pc: Pc, ok: bool, alt: bool, key: Key)
    requires WorldValid(w) && PcValid(w, t, pc) && CanMove(w, pc, key) && BurnDeletes(pc)
    ensures var m := MoveBurn(w, t, pc, ok); WorldValid(m.world) && (m.next.Some? ==> PcValid(m.world, t, m.next.value))
  {
    hide FromHex, ToHex;
  }

  lemma BurnSpares(w: World, t: Tid, pc: Pc, ok: bool, alt: bool, key: Key, u: Tid, other: Pc)
    requires WorldValid(w) && PcValid(w, t, pc) && CanMove(w, pc, key) && Burns(pc)
    requires u != t && PcValid(w, u, other)
    ensures PcValid(MoveBurn(w, t, pc, ok).world, u, other)
  {
    hide FromHex, ToHex, Usable, WorldValid, Excludes, Knows, Files, MoveBurn, CanMove;
    BurnSparesOrder(w, t, pc, ok, key, u, other);
    BurnSparesFiles(w, t, pc, ok, key, u, other);
  }

  lemma BurnSparesOrder(w: World, t: Tid, pc: Pc, ok: bool, key: Key, u: Tid, other: Pc)
    requires PcValid(w, t, pc) && CanMove(w, pc, key) && Burns(pc) && u != t && PcValid(w, u, other)
    ensures var w' := MoveBurn(w, t, pc, ok).world; Excludes(w', u, other) && Knows(w', other)
  {
    hide FromHex, ToHex, Usable, Files;
  }

  lemma BurnSparesFiles(w: World, t: Tid, pc: Pc, ok: bool, key: Key, u: Tid, other: Pc)
    requires WorldValid(w) && PcValid(w, t, pc) && CanMove(w, pc, key) && Burns(pc)
    requires u != t && PcValid(w, u, other)
    ensures Files(MoveBurn(w, t, pc, ok).world, other)
  {
    hide FromHex, ToHex, Usable;
  }

  lemma ResetValid(w: World, t: Tid, pc: Pc, ok: bool, alt: bool, key: Key)
    requires WorldValid(w) && PcValid(w, t, pc) && CanMove(w, pc, key)
    requires !Unlocks(pc) && !Writes(pc) && !Burns(pc) && !pc.Copying?
    ensures var m := MoveReset(w, pc, ok); WorldValid(m.world) && (m.next.Some? ==> PcValid(m.world, t, m.next.value))
  {
    hide FromHex, ToHex;
  }

  lemma ResetSpares(w: World, t: Tid, pc: Pc, ok: bool, alt: bool, key: Key, u: Tid, other: Pc)
    requires WorldValid(w) && PcValid(w, t, pc) && CanMove(w, pc, key)
    requires !Unlocks(pc) && !Writes(pc) && !Burns(pc) && !pc.Copying?
    requires u != t && PcValid(w, u, other)
    ensures PcValid(MoveReset(w, pc, ok).world, u, other)
  {
    hide FromHex, ToHex;
  }

  lemma MoveValid(w: World, t: Tid, pc: Pc, ok: bool, alt: bool, key: Key)
    requires WorldValid(w) && PcValid(w, t, pc) && CanMove(w, pc, key)
    ensures var m := Move(w, t, pc, ok, alt, key);
      WorldValid(m.world) && (m.next.Some? ==> PcValid(m.world, t, m.next.value))
  {
    hide WorldValid, PcValid, CanMove, MoveUnlock, MoveWrite, MoveBurn, MoveReset;
    if Unlocks(pc) { UnlockValid(w, t, pc, ok, alt, key); }
    else if Writes(pc) { WriteValid(w, t, pc, ok, alt, key); }
    else if Burns(pc) { BurnValid(w, t, pc, ok, alt, key); }
    else if !pc.Copying? { ResetValid(w, t, pc, ok, alt, key); }
  }

  lemma MoveSpares(w: World, t: Tid, pc: Pc, ok: bool, alt: bool, key: Key, u: Tid, other: Pc)
    requires WorldValid(w) && PcValid(w, t, pc) && CanMove(w, pc, key)
    requires u != t && PcValid(w, u, other)
    ensures PcValid(Move(w, t, pc, ok, alt, key).world, u, other)
  {
    hide WorldValid, PcValid, CanMove, MoveUnlock, MoveWrite, MoveBurn, MoveReset;
    if Unlocks(pc) { UnlockSpares(w, t, pc, ok, alt, key, u, other); }
    else if Writes(pc) { WriteSpares(w, t, pc, ok, alt, key, u, other); }
    else if Burns(pc) { BurnSpares(w, t, pc, ok, alt, key, u, other); }
    else if !pc.Copying? { ResetSpares(w, t, pc, ok, alt, key, u, other); }
  }

  lemma StepValid(s: State, step: Step)
    requires Valid(s) && Enabled(s, step)
    ensures Valid(Apply(s, step))
  {
    hide WorldValid, PcValid, CanMove, Move;
    var s' := Apply(s, step);
    match step
    case Spawn(t, command) =>
      SpawnValid(s.world, t, command);
    case Crash => BootValid(s.world.disk, s.world.history.past);
    case Go(t, ok, alt, key) =>
      MoveValid(s.world, t, s.threads[t], ok, alt, key);
      forall u | u in s'.threads && u != t ensures PcValid(s'.world, u, s'.threads[u]) {
        MoveSpares(s.world, t, s.threads[t], ok, alt, key, u, s.threads[u]);
      }
  }

  lemma SpawnValid(w: World, t: Tid, command: Command)
    ensures PcValid(w, t, FirstPc(command, w.memory.burned))
  {}

  lemma {:induction false} RunValid(s: State, steps: seq<Step>)
    requires Valid(s) && Legal(s, steps)
    ensures Valid(Run(s, steps))
    decreases |steps|
  {
    hide Valid, Apply, Enabled;
    if steps != [] {
      StepValid(s, steps[0]);
      RunValid(Apply(s, steps[0]), steps[1..]);
    }
  }
}
