/** What the vault holds, told from the edits made to it, and that its operations get done when nothing fails. */
module VaultContents {
  import opened Options
  import opened VaultHex
  import opened VaultModel
  import opened VaultInvariant
  import opened VaultPromises

  function Lookup(contents: Contents, name: string): Option<string> {
    if name in contents then Some(contents[name]) else None
  }

  /** What an edit makes of a name: a put gives it the value, a drop takes it out, any other edit leaves it. */
  function NameAfter(was: Option<string>, edit: Edit, name: string): Option<string> {
    match edit
    case Put(n, value) => if n == name then Some(value) else was
    case Drop(names) => if name in names then None else was
  }

  // ---- What a sequence of edits says ----

  /** What was there at the start, and the edits since. */
  datatype Told = Told(start: Contents, edits: seq<Edit>)

  /** What the last edit that mentions a name says of it; if none does, what was there at the start. */
  function Says(told: Told, name: string): Option<string>
    decreases |told.edits|
  {
    if told.edits == [] then Lookup(told.start, name)
    else
      NameAfter(Says(Told(told.start, told.edits[..|told.edits| - 1]), name), told.edits[|told.edits| - 1], name)
  }

  ghost predicate Tells(contents: Contents, told: Told) { forall name :: Lookup(contents, name) == Says(told, name) }

  lemma EditSays(contents: Contents, told: Told, edit: Edit)
    requires Tells(contents, told)
    ensures Tells(Edited(contents, edit), told.(edits := told.edits + [edit]))
  {
    var after := told.(edits := told.edits + [edit]);
    forall name ensures Lookup(Edited(contents, edit), name) == Says(after, name) {
      assert after.edits[..|told.edits|] == told.edits;
      assert Lookup(contents, name) == Says(told, name);
    }
  }

  /** A write that goes through changes exactly what it names: a put name has the value, dropped names are gone, every
      other name is as it was. */
  lemma EditChangesWhatItNames(w: World, t: Tid, edit: Edit, alt: bool, name: string)
    requires w.memory.cell.Unlocked?
    ensures var after := MoveWrite(w, t, Entering(edit), true, alt).world.memory.ram;
      Lookup(after, name) == NameAfter(Lookup(w.memory.ram, name), edit, name)
  {}

  // ---- Over runs ----

  /** What a sealed file holds; nothing, if there is none. */
  function Loaded(file: File): Contents { if file.Holds? && file.blob.Sealed? then file.blob.contents else map[] }

  /** How a step changes the telling: an unlock that succeeds starts it from the sealed file, a wipe from nothing, a
      write that gets in adds its edit. */
  function ToldNext(s: State, step: Step, told: Told): Told
    requires Enabled(s, step)
  {
    match step
    case Crash => Told(map[], [])
    case Spawn(_, _) => told
    case Go(t, ok, _, _) =>
      var pc := s.threads[t];
      if s.world.memory.cell == Unset && Apply(s, step).world.memory.cell.Unlocked?
      then Told(Loaded(s.world.disk.sealed), [])
      else if pc.Wiping? || pc.Clearing? then Told(map[], [])
      else if pc.Entering? && s.world.memory.cell.Unlocked? && (pc.edit.Put? ==> ok)
      then told.(edits := told.edits + [pc.edit])
      else told
  }

  ghost function ToldAfter(s: State, steps: seq<Step>, told: Told): Told
    requires Legal(s, steps)
    decreases |steps|
  {
    if steps == [] then told else ToldAfter(Apply(s, steps[0]), steps[1..], ToldNext(s, steps[0], told))
  }

  lemma UnlockTold(w: World, t: Tid, pc: Pc, ok: bool, alt: bool, key: Key)
    requires Unlocks(pc) && WorldValid(w) && PcValid(w, t, pc)
    ensures var w' := MoveUnlock(w, t, pc, ok, alt, key).world;
      w'.memory.ram ==
        if pc.Wiping? then map[]
        else if w.memory.cell == Unset && w'.memory.cell.Unlocked? then Loaded(w.disk.sealed)
        else w.memory.ram
    ensures pc.Wiping? ==> MoveUnlock(w, t, pc, ok, alt, key).world.memory.cell == w.memory.cell
  {
    hide FromHex, ToHex, Usable;
  }

  lemma OtherTold(w: World, t: Tid, pc: Pc, ok: bool, alt: bool, key: Key)
    requires !Unlocks(pc)
    ensures var w' := Move(w, t, pc, ok, alt, key).world;
      w'.memory.cell == w.memory.cell
      && w'.memory.ram ==
           if pc.Clearing? then map[]
           else if pc.Entering? && w.memory.cell.Unlocked? && (pc.edit.Put? ==> ok) then Edited(w.memory.ram, pc.edit)
           else w.memory.ram
  {
    hide FromHex, Edited, MoveUnlock;
  }

  lemma StepTold(s: State, step: Step, told: Told)
    requires Valid(s) && Enabled(s, step) && Tells(s.world.memory.ram, told)
    ensures Tells(Apply(s, step).world.memory.ram, ToldNext(s, step, told))
  {
    hide Move, CanMove, WorldValid, Edited, Says;
    NothingTold();
    if step.Go? {
      var t, pc := step.tid, s.threads[step.tid];
      assert PcValid(s.world, t, pc);
      hide PcValid;
      LoadedTold(s.world.disk.sealed);
      if Unlocks(pc) {
        MoveIsUnlock(s.world, t, pc, step.ok, step.alt, step.key);
        UnlockTold(s.world, t, pc, step.ok, step.alt, step.key);
      } else {
        OtherTold(s.world, t, pc, step.ok, step.alt, step.key);
        if pc.Entering? { EditSays(s.world.memory.ram, told, pc.edit); }
      }
    }
  }

  lemma MoveIsUnlock(w: World, t: Tid, pc: Pc, ok: bool, alt: bool, key: Key)
    requires Unlocks(pc)
    ensures Move(w, t, pc, ok, alt, key) == MoveUnlock(w, t, pc, ok, alt, key)
  {}

  lemma NothingTold()
    ensures Tells(map[], Told(map[], []))
  {}

  lemma LoadedTold(file: File)
    ensures Tells(Loaded(file), Told(Loaded(file), []))
  {}

  lemma {:induction false} RunTold(s: State, steps: seq<Step>, told: Told)
    requires Valid(s) && Legal(s, steps) && Tells(s.world.memory.ram, told)
    ensures Tells(Run(s, steps).world.memory.ram, ToldAfter(s, steps, told))
    decreases |steps|
  {
    hide Valid, Enabled, Apply, Tells, ToldNext;
    if steps != [] {
      StepTold(s, steps[0], told);
      StepValid(s, steps[0]);
      RunTold(Apply(s, steps[0]), steps[1..], ToldNext(s, steps[0], told));
    }
  }

  /** Every snapshot, in every interleaving and from any disk, holds a name exactly as the edits say: with the value of
      the last edit that put it, gone if the last edit that mentions it dropped it, and otherwise as the sealed file had
      it when the vault was unlocked (or not at all, after a wipe). */
  lemma SnapshotSays(disk: Disk, steps: seq<Step>, step: Step, name: string)
    requires Legal(Boot(disk, NO_PAST), steps)
    requires var s := Run(Boot(disk, NO_PAST), steps); Enabled(s, step) && step.Go? && s.threads[step.tid].Copying?
    ensures var s := Run(Boot(disk, NO_PAST), steps); var reply := ReplyOf(s, step);
      reply.Some? && Lookup(reply.value, name) == Says(ToldAfter(Boot(disk, NO_PAST), steps, Told(map[], [])), name)
  {
    hide Run, Legal, Valid, Says;
    BootValid(disk, NO_PAST);
    NothingTold();
    RunTold(Boot(disk, NO_PAST), steps, Told(map[], []));
  }

  // ---- Operations get done ----

  function WriteRank(pc: Pc): nat {
    match pc
    case Entering(_) => 5
    case Persisting => 4
    case Sealing => 3
    case Creating(_) => 2
    case Filling(_) => 1
    case _ => 0
  }

  /** One move of a write that nothing hinders: on to the next, or, at the rename, the vault saved as it is in RAM. */
  lemma WriteMoves(w: World, t: Tid, pc: Pc)
    requires WorldValid(w) && PcValid(w, t, pc) && Writes(pc) && !pc.Entering? && !w.memory.burned
    ensures CanMove(w, pc, [])
    ensures var m := Move(w, t, pc, true, false, []);
      && m.world.memory.(mutex := None) == w.memory.(mutex := None) && m.world.disk.keychain == w.disk.keychain
      && (m.next.Some? ==> Writes(m.next.value) && !m.next.value.Entering? && WriteRank(m.next.value) < WriteRank(pc))
      && (m.next.None? ==>
            m.world.disk.sealed == Holds(Sealed(w.memory.cell.master, w.memory.ram)) && m.world.disk.temp.Missing?
            && m.world.memory.mutex == None && m.world.history.past.saved == Some(w.memory.ram))
  {}

  lemma {:induction false} WriteRuns(s: State, t: Tid) returns (steps: seq<Step>)
    requires Valid(s) && t in s.threads && Writes(s.threads[t]) && !s.threads[t].Entering? && !s.world.memory.burned
    requires s.world.memory.cell.Unlocked?
    ensures Legal(s, steps) && forall x :: x in steps ==> x == Go(t, true, false, [])
    ensures var s' := Run(s, steps); var w := s.world;
      && s'.threads == s.threads - {t}
      && s'.world.disk.sealed == Holds(Sealed(w.memory.cell.master, w.memory.ram))
      && s'.world.disk.keychain == w.disk.keychain && s'.world.disk.temp.Missing?
      && s'.world.memory == w.memory.(mutex := None) && s'.world.history.past.saved == Some(w.memory.ram)
    decreases WriteRank(s.threads[t])
  {
    var go := Go(t, true, false, []);
    assert PcValid(s.world, t, s.threads[t]);
    WriteMoves(s.world, t, s.threads[t]);
    StepValid(s, go);
    hide Move, CanMove, Valid, PcValid, Legal, Run, WriteRank, Writes;
    var s1 := Apply(s, go);
    if t in s1.threads {
      var rest := WriteRuns(s1, t);
      Then(s, go, rest);
      steps := [go] + rest;
      assert s1.threads - {t} == s.threads - {t};
    } else {
      Ends(s1);
      Then(s, go, []);
      steps := [go] + [];
    }
  }

  /** A write to an unlocked, unburned vault is saved when its own operations succeed: the sealed file then holds, under
      the vault's key, what the edit says and everything else as it was in RAM. */
  lemma WriteIsSaved(disk: Disk, steps: seq<Step>, t: Tid) returns (way: seq<Step>)
    requires Legal(Boot(disk, NO_PAST), steps)
    requires var s := Run(Boot(disk, NO_PAST), steps);
      t in s.threads && s.threads[t].Entering? && s.world.memory.cell.Unlocked? && s.world.memory.mutex == None
      && !s.world.memory.burned
    ensures var s := Run(Boot(disk, NO_PAST), steps);
      && Legal(s, way) && (forall x :: x in way ==> x == Go(t, true, false, []))
      && var file := Run(s, way).world.disk.sealed;
         && file.Holds? && file.blob.Sealed? && file.blob.key == s.world.memory.cell.master
         && Run(s, way).world.memory.ram == file.blob.contents
         && forall name :: Lookup(file.blob.contents, name)
                        == NameAfter(Lookup(s.world.memory.ram, name), s.threads[t].edit, name)
  {
    hide Run, Legal;
    Reach(disk, steps);
    var s := Run(Boot(disk, NO_PAST), steps);
    var go := Go(t, true, false, []);
    var edit := s.threads[t].edit;
    forall name ensures Lookup(MoveWrite(s.world, t, Entering(edit), true, false).world.memory.ram, name)
                     == NameAfter(Lookup(s.world.memory.ram, name), edit, name)
    {
      EditChangesWhatItNames(s.world, t, edit, false, name);
    }
    EnterMoves(s.world, t, edit);
    StepValid(s, go);
    hide Move, CanMove, Valid, MoveWrite, Lookup;
    var s1 := Apply(s, go);
    var rest := WriteRuns(s1, t);
    Then(s, go, rest);
    way := [go] + rest;
  }

  lemma EnterMoves(w: World, t: Tid, edit: Edit)
    requires w.memory.cell.Unlocked? && w.memory.mutex == None
    ensures CanMove(w, Entering(edit), [])
    ensures Move(w, t, Entering(edit), true, false, []) == MoveWrite(w, t, Entering(edit), true, false)
    ensures var m := MoveWrite(w, t, Entering(edit), true, false);
      m.next == Some(Persisting) && m.world.memory.cell == w.memory.cell && m.world.memory.burned == w.memory.burned
  {}

  /** A write that fails before the rename leaves the sealed file alone and, if the temp file can be deleted, none
      behind. */
  lemma FailedWriteCleansUp(w: World, t: Tid, pc: Pc)
    requires pc.Creating? || pc.Filling?
    ensures var m := MoveWrite(w, t, pc, false, true);
      m.next.None? && m.world.disk == w.disk.(temp := Missing) && m.world.memory == w.memory.(mutex := None)
  {}

  // ---- The lock ----

  predicate HoldsLock(pc: Pc) { WritesUnderLock(pc) || Guarded(pc) }

  /** Whoever holds the mutex is a thread on its way to giving it back. */
  ghost predicate LockHeld(s: State) {
    s.world.memory.mutex.Some? ==>
      s.world.memory.mutex.value in s.threads && HoldsLock(s.threads[s.world.memory.mutex.value])
  }

  lemma WriteHolds(w: World, t: Tid, pc: Pc, ok: bool, alt: bool)
    requires Writes(pc) && (HoldsLock(pc) ==> w.memory.mutex == Some(t)) && CanMove(w, pc, [])
    ensures var m := MoveWrite(w, t, pc, ok, alt);
      if m.next.Some? && HoldsLock(m.next.value) then m.world.memory.mutex == Some(t)
      else if HoldsLock(pc) then m.world.memory.mutex == None else m.world.memory.mutex == w.memory.mutex
  {}

  lemma BurnHolds(w: World, t: Tid, pc: Pc, ok: bool)
    requires Burns(pc) && (HoldsLock(pc) ==> w.memory.mutex == Some(t)) && CanMove(w, pc, [])
    ensures var m := MoveBurn(w, t, pc, ok);
      if m.next.Some? && HoldsLock(m.next.value) then m.world.memory.mutex == Some(t)
      else if HoldsLock(pc) then m.world.memory.mutex == None else m.world.memory.mutex == w.memory.mutex
  {}

  lemma OthersLeaveLock(w: World, t: Tid, pc: Pc, ok: bool, alt: bool, key: Key)
    requires !Writes(pc) && !Burns(pc)
    ensures var m := Move(w, t, pc, ok, alt, key);
      m.world.memory.mutex == w.memory.mutex && (m.next.Some? ==> !HoldsLock(m.next.value)) && !HoldsLock(pc)
  {
    hide FromHex, ToHex, Usable;
  }

  lemma SameMove(w: World, pc: Pc, key: Key)
    requires (Writes(pc) || Burns(pc)) && CanMove(w, pc, key)
    ensures CanMove(w, pc, [])
  {}

  lemma StepLock(s: State, step: Step)
    requires Valid(s) && LockHeld(s) && Enabled(s, step)
    ensures LockHeld(Apply(s, step))
  {
    hide MoveUnlock, MoveWrite, MoveBurn, MoveReset, CanMove, WorldValid;
    if step.Go? {
      var t, pc := step.tid, s.threads[step.tid];
      assert PcValid(s.world, t, pc);
      hide PcValid, Valid;
      LockIsMine(s.world, t, pc);
      if Writes(pc) {
        SameMove(s.world, pc, step.key);
        WriteHolds(s.world, t, pc, step.ok, step.alt);
      } else if Burns(pc) {
        SameMove(s.world, pc, step.key);
        BurnHolds(s.world, t, pc, step.ok);
      } else {
        OthersLeaveLock(s.world, t, pc, step.ok, step.alt, step.key);
      }
    }
  }

  lemma LockIsMine(w: World, t: Tid, pc: Pc)
    requires PcValid(w, t, pc)
    ensures HoldsLock(pc) ==> w.memory.mutex == Some(t)
  {}

  lemma {:induction false} RunLock(s: State, steps: seq<Step>)
    requires Valid(s) && LockHeld(s) && Legal(s, steps)
    ensures LockHeld(Run(s, steps))
    decreases |steps|
  {
    hide Valid, LockHeld, Enabled, Apply;
    if steps != [] {
      StepLock(s, steps[0]);
      StepValid(s, steps[0]);
      RunLock(Apply(s, steps[0]), steps[1..]);
    }
  }

  /** In every interleaving the mutex is never left behind: it is held only by a write between its edit and its end, or
      by a burn between its wipe and its last deletion, and each of those can go on without waiting. */
  lemma LockIsNeverLeft(disk: Disk, steps: seq<Step>)
    requires Legal(Boot(disk, NO_PAST), steps)
    ensures var s := Run(Boot(disk, NO_PAST), steps); var holder := s.world.memory.mutex;
      holder.Some? ==>
        holder.value in s.threads && HoldsLock(s.threads[holder.value])
        && Enabled(s, Go(holder.value, true, true, []))
  {
    hide Run, Legal, Valid;
    BootValid(disk, NO_PAST);
    RunLock(Boot(disk, NO_PAST), steps);
  }

  // ---- Unlocking that fails ----

  /** What a failure inside the unlock leaves: the keychain's refusal locks on the keychain, an unreadable file on the
      vault; a vault file that cannot be ruled out counts as one, so that no key is made. Nothing on disk changes. */
  lemma UnlockFailures(w: World, t: Tid, pc: Pc, alt: bool, key: Key)
    requires Initializing(pc)
    ensures var m := MoveUnlock(w, t, pc, false, alt, key);
      && m.world.memory.cell == LockedOut(if pc.Opening? then Vault else Keychain)
      && m.world.disk == w.disk && m.world.memory.initializer == None && m.world.memory.ram == w.memory.ram
    ensures pc.Looking? ==>
      MoveUnlock(w, t, pc, true, alt, key).next == Some(Reading(pc.snapshot, pc.late, w.disk.sealed.Holds? || alt))
    ensures pc.Reading? && pc.found && w.disk.keychain.NoEntry? ==>
      MoveUnlock(w, t, pc, true, alt, key).world.memory.cell == LockedOut(Vault)
  {}

  // ---- Snapshots ----

  /** A snapshot of an unlocked vault is answered: with RAM as it is, or with nothing if the vault was burned. */
  lemma SnapshotIsAnswered(s: State, t: Tid) returns (way: seq<Step>)
    requires t in s.threads && s.threads[t].Asking? && s.threads[t].snapshot
    requires s.world.memory.cell.Unlocked? && s.world.memory.mutex == None
    ensures Legal(s, way) && Enabled(Run(s, way), Go(t, true, false, []))
    ensures ReplyOf(Run(s, way), Go(t, true, false, []))
         == Some(if s.world.memory.burned then map[] else s.world.memory.ram)
  {
    hide Legal, Run;
    var go := Go(t, true, false, []);
    var s1 := Apply(s, go);
    assert s1.world == s.world && s1.threads[t].Checking?;
    var s2 := Apply(s1, go);
    if s.world.memory.burned {
      assert s2.threads[t].Wiping?;
      var s3 := Apply(s2, go);
      Ends(s3);
      Then(s2, go, []);
      Then(s1, go, [go] + []);
      Then(s, go, [go] + ([go] + []));
      way := [go] + ([go] + ([go] + []));
    } else {
      Ends(s2);
      Then(s1, go, []);
      Then(s, go, [go] + []);
      way := [go] + ([go] + []);
    }
  }

  // ---- Reset ----

  function ResetRank(pc: Pc): nat {
    match pc
    case Targeting => 4
    case Moving => 3
    case Tidying => 2
    case Consulting => 1
    case _ => 0
  }

  /** The file to be found aside afterwards. */
  function MovedFile(disk: Disk): File { if disk.sealed.Holds? then disk.sealed else disk.aside }

  /** What a stored key becomes by a reset: gone if it is malformed, otherwise kept. */
  function KeyAfterReset(e: Entry): Entry { if e.Stored? && FromHex(e.text).Malformed? then NoEntry else e }

  predicate Readable(e: Entry) { e.Stored? ==> !FromHex(e.text).Panicked? }

  /** A reset on its way, everything so far done. */
  predicate Resetting(w: World, pc: Pc) {
    && w.memory.cell == LockedOut(Vault)
    && (pc.Targeting? || Resets(pc))
    && (pc.Tidying? || pc.Consulting? || pc.Unkeying? ==> w.disk.sealed.Missing?)
    && (pc.Consulting? || pc.Unkeying? ==> w.disk.temp.Missing?)
    && (pc.Unkeying? ==> w.disk.keychain.Stored? && FromHex(w.disk.keychain.text).Malformed?)
  }

  ghost predicate ResetDone(before: World, after: World) {
    && after.disk == Disk(Missing, Missing, MovedFile(before.disk), KeyAfterReset(before.disk.keychain))
    && after.history.resetOk && after.memory == before.memory
  }

  /** How a reset that nothing hinders ends. */
  ghost predicate ResetEnds(before: World, after: World) {
    if Readable(before.disk.keychain) then ResetDone(before, after)
    else after.history.resetOk == before.history.resetOk
  }

  lemma ResetMoves(w: World, t: Tid, pc: Pc)
    requires Resetting(w, pc)
    ensures CanMove(w, pc, [])
    ensures var m := Move(w, t, pc, true, false, []);
      && m.world.memory == w.memory && MovedFile(m.world.disk) == MovedFile(w.disk)
      && KeyAfterReset(m.world.disk.keychain) == KeyAfterReset(w.disk.keychain)
      && (m.next.Some? ==> Resetting(m.world, m.next.value) && ResetRank(m.next.value) < ResetRank(pc))
      && (m.next.Some? ==>
            m.world.history.resetOk == w.history.resetOk && m.world.disk.keychain == w.disk.keychain)
      && (m.next.None? ==> ResetEnds(w, m.world))
  {
    hide FromHex, ToHex, MoveUnlock, MoveWrite, MoveBurn;
  }

  lemma {:induction false} ResetRuns(s: State, t: Tid) returns (steps: seq<Step>)
    requires t in s.threads && Resetting(s.world, s.threads[t])
    ensures Legal(s, steps) && forall x :: x in steps ==> x == Go(t, true, false, [])
    ensures ResetEnds(s.world, Run(s, steps).world) && Run(s, steps).threads == s.threads - {t}
    decreases ResetRank(s.threads[t])
  {
    var go := Go(t, true, false, []);
    ResetMoves(s.world, t, s.threads[t]);
    hide Move, CanMove, Resetting, Legal, Run, ResetRank, MovedFile, KeyAfterReset, Readable;
    var s1 := Apply(s, go);
    if t in s1.threads {
      var rest := ResetRuns(s1, t);
      Then(s, go, rest);
      steps := [go] + rest;
      assert s1.threads - {t} == s.threads - {t};
    } else {
      Ends(s1);
      Then(s, go, []);
      steps := [go] + [];
    }
  }

  /** Where the stored file or key is what locks the vault and disk and keychain answer, a reset succeeds: the sealed
      file stands aside, the temp file is gone, a malformed key is gone and any other key is kept. A stored value that
      makes its reader panic is the one exception: then the reset ends without success. */
  lemma ResetSucceedsExactlyWhen(disk: Disk, steps: seq<Step>, t: Tid) returns (way: seq<Step>)
    requires Legal(Boot(disk, NO_PAST), steps)
    requires var s := Run(Boot(disk, NO_PAST), steps);
      t in s.threads && s.threads[t].Targeting? && s.world.memory.cell == LockedOut(Vault)
    ensures var s := Run(Boot(disk, NO_PAST), steps);
      && Legal(s, way) && (forall x :: x in way ==> x == Go(t, true, false, []))
      && t !in Run(s, way).threads
      && (if Readable(s.world.disk.keychain) then ResetDone(s.world, Run(s, way).world)
          else Run(s, way).world.history.resetOk == s.world.history.resetOk)
  {
    hide Legal, Run, ResetDone, Readable;
    way := ResetRuns(Run(Boot(disk, NO_PAST), steps), t);
  }

  // ---- Burn ----

  function FullBurnRank(pc: Pc): nat {
    match pc
    case Flagging => 6
    case Seeking => 5
    case Clearing => 4
    case DeletingSealed(_) => 3
    case DeletingTemp(_, _) => 2
    case DeletingAside(_, _) => 1
    case _ => 0
  }

  /** A burn on its way, everything so far done: RAM wiped under the lock if there is a vault to wipe. */
  predicate BurnGoing(w: World, b: Tid, pc: Pc) {
    && Burns(pc) && (pc.Flagging? || w.memory.burned)
    && (pc.Flagging? || pc.Seeking? || pc.Clearing? ==> w.memory.mutex == None)
    && (pc.Clearing? ==> w.memory.cell.Unlocked?)
    && (pc.DeletingSealed? ==> Wiping(w, b, pc.guarded))
    && (pc.DeletingTemp? ==> Wiping(w, b, pc.guarded) && pc.gone && w.disk.sealed.Missing?)
    && (pc.DeletingAside? ==> Wiping(w, b, pc.guarded) && pc.gone && w.disk.sealed.Missing? && w.disk.temp.Missing?)
    && (pc.DroppingKey? ==>
          pc.gone && w.disk.sealed.Missing? && w.disk.temp.Missing? && w.disk.aside.Missing? && w.memory.mutex == None
          && (w.memory.cell.Unlocked? ==> w.memory.ram == map[]))
  }

  predicate Wiping(w: World, b: Tid, guarded: bool) {
    && (guarded <==> w.memory.cell.Unlocked?)
    && w.memory.mutex == (if guarded then Some(b) else None)
    && (guarded ==> w.memory.ram == map[])
  }

  /** The memory as the burn leaves it. */
  function Burnt(m: Memory): Memory {
    m.(burned := true, mutex := None, ram := if m.cell.Unlocked? then map[] else m.ram)
  }

  ghost predicate BurnDone(before: World, after: World) {
    && after.disk == Disk(Missing, Missing, Missing, NoEntry)
    && after.history.burnOk && after.memory == Burnt(before.memory)
  }

  lemma BurnBegins(w: World, b: Tid, pc: Pc)
    requires BurnGoing(w, b, pc) && (pc.Flagging? || pc.Seeking? || pc.Clearing?)
    ensures var m := MoveBurn(w, b, pc, true);
      Burnt(m.world.memory) == Burnt(w.memory)
      && m.next.Some? && BurnGoing(m.world, b, m.next.value) && FullBurnRank(m.next.value) < FullBurnRank(pc)
  {}

  lemma BurnDeletesOn(w: World, b: Tid, pc: Pc)
    requires BurnGoing(w, b, pc) && (pc.DeletingSealed? || pc.DeletingTemp? || pc.DeletingAside?)
    ensures var m := MoveBurn(w, b, pc, true);
      Burnt(m.world.memory) == Burnt(w.memory)
      && m.next.Some? && BurnGoing(m.world, b, m.next.value) && FullBurnRank(m.next.value) < FullBurnRank(pc)
  {}

  lemma BurnDropsKey(w: World, b: Tid, pc: Pc)
    requires BurnGoing(w, b, pc) && pc.DroppingKey?
    ensures var m := MoveBurn(w, b, pc, true);
      m.next.None? && BurnDone(w, m.world)
  {}

  lemma FullBurnMoves(w: World, b: Tid, pc: Pc)
    requires BurnGoing(w, b, pc)
    ensures CanMove(w, pc, [])
    ensures var m := Move(w, b, pc, true, false, []);
      && (m.next.Some? ==>
            Burnt(m.world.memory) == Burnt(w.memory)
            && BurnGoing(m.world, b, m.next.value) && FullBurnRank(m.next.value) < FullBurnRank(pc))
      && (m.next.None? ==> BurnDone(w, m.world))
  {
    hide MoveBurn, Burnt, FullBurnRank, Wiping;
    if pc.Flagging? || pc.Seeking? || pc.Clearing? { BurnBegins(w, b, pc); }
    else if pc.DroppingKey? { BurnDropsKey(w, b, pc); }
    else { BurnDeletesOn(w, b, pc); }
  }

  lemma {:induction false} FullBurnRuns(s: State, b: Tid) returns (steps: seq<Step>)
    requires b in s.threads && BurnGoing(s.world, b, s.threads[b])
    ensures Legal(s, steps) && forall x :: x in steps ==> x == Go(b, true, false, [])
    ensures BurnDone(s.world, Run(s, steps).world) && Run(s, steps).threads == s.threads - {b}
    decreases FullBurnRank(s.threads[b])
  {
    var go := Go(b, true, false, []);
    FullBurnMoves(s.world, b, s.threads[b]);
    hide Move, CanMove, BurnGoing, Legal, Run, FullBurnRank, Burnt;
    var s1 := Apply(s, go);
    if b in s1.threads {
      var rest := FullBurnRuns(s1, b);
      Then(s, go, rest);
      steps := [go] + rest;
      assert s1.threads - {b} == s.threads - {b};
    } else {
      Ends(s1);
      Then(s, go, []);
      steps := [go] + [];
    }
  }

  /** A burn reports success exactly if every file was gone when it tried and the key is gone in the end, deleted or not
      there. */
  lemma BurnReportsExactlyWhen(w: World, t: Tid, gone: bool, ok: bool)
    requires PcValid(w, t, DroppingKey(gone))
    ensures var w' := MoveBurn(w, t, DroppingKey(gone), ok).world;
      && (w'.history.burnOk <==> w.history.burnOk || (gone && w'.disk.keychain.NoEntry?))
      && (w'.disk.keychain.NoEntry? <==> ok || w.disk.keychain.NoEntry?)
      && (gone ==> w.history.localBurn)
  {}

  /** A burn whose deletions succeed reports success, from whatever state and disk: every vault file and the key are
      gone, and an unlocked vault's RAM is empty. */
  lemma BurnSucceeds(s: State, b: Tid) returns (way: seq<Step>)
    requires b in s.threads && s.threads[b].Flagging? && s.world.memory.mutex == None
    ensures Legal(s, way) && forall x :: x in way ==> x == Go(b, true, false, [])
    ensures BurnDone(s.world, Run(s, way).world) && b !in Run(s, way).threads
  {
    hide Legal, Run, BurnDone;
    way := FullBurnRuns(s, b);
  }
}
