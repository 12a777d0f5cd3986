/** Disk, keychain and RAM agree over whole runs that start from nothing, crashes included. */
module VaultConsistency {
  import opened Options
  import opened VaultHex
  import opened VaultModel
  import opened VaultInvariant

  predicate KeyIs(e: Entry, k: Key) { e.Stored? && FromHex(e.text) == Parsed(k) }

  /** A sealed file whose key no burn has dropped opens under the keychain's key and holds the last save. */
  predicate SealedAgrees(w: World) {
    w.disk.sealed.Holds? && !w.history.past.orphaned ==>
      && w.disk.sealed.blob.Sealed?
      && KeyIs(w.disk.keychain, w.disk.sealed.blob.key)
      && w.history.past.saved == Some(w.disk.sealed.blob.contents)
  }

  /** A file a reset moved aside, unless a burn has dropped its key, opens under the keychain's key and holds what was
      the last save then. */
  predicate AsideAgrees(w: World) {
    && (w.history.past.moved.Some? ==> w.disk.aside.Holds?)
    && (w.disk.aside.Holds? && !w.history.past.asideOrphaned ==>
          && w.disk.aside.blob.Sealed?
          && KeyIs(w.disk.keychain, w.disk.aside.blob.key)
          && w.history.past.moved == Some(w.disk.aside.blob.contents))
  }

  /** What was saved stays until a burn or a reset takes it away. */
  predicate SavedStays(w: World) {
    w.disk.sealed.Holds? <==> w.history.past.saved.Some? && !w.history.past.removed
  }

  predicate WorldAgrees(w: World) {
    && SealedAgrees(w)
    && AsideAgrees(w)
    && SavedStays(w)
    && (w.disk.sealed.Holds? ==> w.disk.sealed.blob.Sealed?)
    && (w.memory.cell.Unlocked? && !w.history.keyDropped ==> KeyIs(w.disk.keychain, w.memory.cell.master))
    && (w.history.keyDropped ==> w.history.deleting && (w.history.past.orphaned || w.disk.sealed.Missing?))
    && (w.history.keyDropped ==> w.history.past.asideOrphaned || w.disk.aside.Missing?)
    && (w.history.past.orphaned ==> w.disk.sealed.Holds? && w.disk.keychain.NoEntry?)
    && Usable(w.disk.keychain)
  }

  predicate PcAgrees(w: World, pc: Pc) {
    && (pc.Opening? && !w.history.keyDropped ==> KeyIs(w.disk.keychain, pc.key))
    && !pc.Unkeying?
  }

  ghost predicate Agrees(s: State) {
    WorldAgrees(s.world) && forall t :: t in s.threads ==> PcAgrees(s.world, s.threads[t])
  }

  lemma UnlockAgrees(w: World, t: Tid, pc: Pc, ok: bool, alt: bool, key: Key)
    requires WorldValid(w) && PcValid(w, t, pc) && CanMove(w, pc, key) && Unlocks(pc)
    requires WorldAgrees(w) && PcAgrees(w, pc)
    ensures var m := MoveUnlock(w, t, pc, ok, alt, key);
      WorldAgrees(m.world) && (m.next.Some? ==> PcAgrees(m.world, m.next.value))
  {
    hide FromHex, ToHex;
    if pc.Storing? { HexRoundTrip(key); }
  }

  lemma UnlockSparesAgreement(w: World, t: Tid, pc: Pc, ok: bool, alt: bool, key: Key, u: Tid, other: Pc)
    requires PcValid(w, t, pc) && CanMove(w, pc, key) && Unlocks(pc)
    requires u != t && PcValid(w, u, other) && PcAgrees(w, other)
    ensures PcAgrees(MoveUnlock(w, t, pc, ok, alt, key).world, other)
  {
    hide FromHex, ToHex;
  }

  lemma WriteAgrees(w: World, t: Tid, pc: Pc, ok: bool, alt: bool)
    requires WorldValid(w) && PcValid(w, t, pc) && Writes(pc) && WorldAgrees(w)
    ensures var m := MoveWrite(w, t, pc, ok, alt);
      WorldAgrees(m.world) && (m.next.Some? ==> PcAgrees(m.world, m.next.value))
  {
    hide FromHex, ToHex, Usable;
  }

  lemma WriteSparesAgreement(w: World, t: Tid, pc: Pc, ok: bool, alt: bool, u: Tid, other: Pc)
    requires PcValid(w, t, pc) && Writes(pc)
    requires u != t && PcValid(w, u, other) && PcAgrees(w, other)
    ensures PcAgrees(MoveWrite(w, t, pc, ok, alt).world, other)
  {
    hide FromHex, ToHex;
  }

  lemma BurnAgrees(w: World, t: Tid, pc: Pc, ok: bool)
    requires WorldValid(w) && PcValid(w, t, pc) && Burns(pc) && WorldAgrees(w) && PcAgrees(w, pc)
    ensures var m := MoveBurn(w, t, pc, ok); WorldAgrees(m.world) && (m.next.Some? ==> PcAgrees(m.world, m.next.value))
  {
    hide FromHex, ToHex;
  }

  lemma BurnSparesAgreement(w: World, t: Tid, pc: Pc, ok: bool, u: Tid, other: Pc)
    requires PcValid(w, t, pc) && Burns(pc) && u != t && PcValid(w, u, other) && PcAgrees(w, other)
    ensures PcAgrees(MoveBurn(w, t, pc, ok).world, other)
  {
    hide FromHex, ToHex;
  }

  lemma ResetAgrees(w: World, t: Tid, pc: Pc, ok: bool, u: Tid, other: Pc)
    requires WorldValid(w) && PcValid(w, t, pc) && !Unlocks(pc) && !Writes(pc) && !Burns(pc) && !pc.Copying?
    requires WorldAgrees(w) && PcAgrees(w, pc)
    ensures var m := MoveReset(w, pc, ok); WorldAgrees(m.world) && (m.next.Some? ==> PcAgrees(m.world, m.next.value))
    ensures u != t && PcValid(w, u, other) && PcAgrees(w, other) ==> PcAgrees(MoveReset(w, pc, ok).world, other)
  {
    hide FromHex, ToHex;
  }

  lemma MoveAgrees(w: World, t: Tid, pc: Pc, ok: bool, alt: bool, key: Key)
    requires WorldValid(w) && PcValid(w, t, pc) && CanMove(w, pc, key) && WorldAgrees(w) && PcAgrees(w, pc)
    ensures var m := Move(w, t, pc, ok, alt, key);
      WorldAgrees(m.world) && (m.next.Some? ==> PcAgrees(m.world, m.next.value))
  {
    hide WorldValid, PcValid, CanMove, WorldAgrees, PcAgrees, MoveUnlock, MoveWrite, MoveBurn, MoveReset;
    if Unlocks(pc) { UnlockAgrees(w, t, pc, ok, alt, key); }
    else if Writes(pc) { WriteAgrees(w, t, pc, ok, alt); }
    else if Burns(pc) { BurnAgrees(w, t, pc, ok); }
    else if !pc.Copying? { ResetAgrees(w, t, pc, ok, t, pc); }
  }

  lemma MoveSparesAgreement(w: World, t: Tid, pc: Pc, ok: bool, alt: bool, key: Key, u: Tid, other: Pc)
    requires WorldValid(w) && PcValid(w, t, pc) && CanMove(w, pc, key) && WorldAgrees(w) && PcAgrees(w, pc)
    requires u != t && PcValid(w, u, other) && PcAgrees(w, other)
    ensures PcAgrees(Move(w, t, pc, ok, alt, key).world, other)
  {
    hide WorldValid, PcValid, CanMove, WorldAgrees, PcAgrees, MoveUnlock, MoveWrite, MoveBurn, MoveReset;
    if Unlocks(pc) { UnlockSparesAgreement(w, t, pc, ok, alt, key, u, other); }
    else if Writes(pc) { WriteSparesAgreement(w, t, pc, ok, alt, u, other); }
    else if Burns(pc) { BurnSparesAgreement(w, t, pc, ok, u, other); }
    else if !pc.Copying? { ResetAgrees(w, t, pc, ok, u, other); }
  }

  lemma StepAgrees(s: State, step: Step)
    requires Valid(s) && Agrees(s) && Enabled(s, step)
    ensures Agrees(Apply(s, step))
  {
    hide WorldValid, PcValid, CanMove, Move, WorldAgrees, PcAgrees;
    var s' := Apply(s, step);
    match step
    case Spawn(t, command) => SpawnAgrees(s.world, command);
    case Crash => CrashAgrees(s);
    case Go(t, ok, alt, key) =>
      MoveAgrees(s.world, t, s.threads[t], ok, alt, key);
      forall u | u in s'.threads && u != t ensures PcAgrees(s'.world, s'.threads[u]) {
        MoveSparesAgreement(s.world, t, s.threads[t], ok, alt, key, u, s.threads[u]);
      }
  }

  lemma SpawnAgrees(w: World, command: Command)
    ensures PcAgrees(w, FirstPc(command, w.memory.burned))
  {}

  lemma CrashAgrees(s: State)
    requires WorldAgrees(s.world)
    ensures Agrees(Boot(s.world.disk, s.world.history.past))
  {
    hide FromHex;
  }

  lemma {:induction false} RunAgrees(s: State, steps: seq<Step>)
    requires Valid(s) && Agrees(s) && Legal(s, steps)
    ensures Agrees(Run(s, steps))
    decreases |steps|
  {
    hide Valid, Agrees, Apply, Enabled;
    if steps != [] {
      StepAgrees(s, steps[0]);
      StepValid(s, steps[0]);
      RunAgrees(Apply(s, steps[0]), steps[1..]);
    }
  }

  lemma FirstRunAgrees()
    ensures Valid(FIRST_RUN) && Agrees(FIRST_RUN)
  {}
}
