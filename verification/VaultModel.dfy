/** The key vault as interleaved threads over a disk, a keychain, one mutex, a burn flag and an unlock that may finish
    late. Sealing is an injective pairing of a key and the contents; a crash keeps disk and keychain only. */
module VaultModel {
  import opened Options
  import opened Utf8
  import opened VaultHex

  type Key = seq<byte>
  type Contents = map<string, string>
  type Tid = nat

  /** Bytes in a vault file: a whole sealed vault, or anything that is not one. */
  datatype Blob = Sealed(key: Key, contents: Contents) | Torn

  datatype File = Missing | Holds(blob: Blob)

  datatype Entry = NoEntry | Stored(text: Text)

  /** Which of the two refused: the keychain, or what is stored. */
  datatype LockKind = Keychain | Vault

  datatype Cell = Unset | Unlocked(master: Key) | LockedOut(kind: LockKind)

  datatype Edit = Put(name: string, value: string) | Drop(names: set<string>)

  datatype Command = Launch | Snapshot | Write(edit: Edit) | Burn | Reset

  /** Where a thread stands. `late` marks an unlock or snapshot begun when the burn flag was already up; `gone` says
      that every file a burn has tried to delete so far is missing. */
  datatype Pc =
    // unlock_once, and the snapshot that waits for it
    | Asking(snapshot: bool, late: bool)
    | Looking(snapshot: bool, late: bool)
    | Reading(snapshot: bool, late: bool, found: bool)
    | Storing(snapshot: bool, late: bool)
    | Opening(snapshot: bool, late: bool, key: Key)
    | Checking(snapshot: bool, late: bool)
    | Wiping(snapshot: bool, late: bool)
    | Copying(late: bool)
    // a write: change RAM, then persist under the same mutex guard
    | Entering(edit: Edit)
    | Persisting
    | Sealing
    | Creating(blob: Blob)
    | Filling(blob: Blob)
    | Renaming(blob: Blob)
    // burn
    | Flagging
    | Seeking
    | Clearing
    | DeletingSealed(guarded: bool)
    | DeletingTemp(guarded: bool, gone: bool)
    | DeletingAside(guarded: bool, gone: bool)
    | DroppingKey(gone: bool)
    // reset
    | Targeting
    | Moving
    | Tidying
    | Consulting
    | Unkeying

  datatype Disk = Disk(sealed: File, temp: File, aside: File, keychain: Entry)

  /** The process's shared memory; `initializer` is the thread inside the unlock cell's one-time initialisation. */
  datatype Memory = Memory(cell: Cell, initializer: Option<Tid>, ram: Contents, mutex: Option<Tid>, burned: bool)

  /** What has happened to the installation, over all its processes, kept only to be talked about: the RAM contents of
      the last successful write; whether a burn or a reset has taken the sealed file away since; whether a burn has
      dropped the key of the file now at the sealed path; the last save when a reset last moved the file aside, until a
      burn deletes the moved file; whether a burn has dropped the key of the file now aside. */
  datatype Past = Past(
    saved: Option<Contents>, removed: bool, orphaned: bool, moved: Option<Contents>, asideOrphaned: bool)

  const NO_PAST := Past(None, false, false, None, false)

  /** History of this process, and of the installation: what the edits made since the burn flag rose, and since the last
      wipe, add up to; whether a wipe has happened since the flag rose; whether a burn has begun deleting, has dropped
      the key, or has returned from its local part with every file gone; whether a burn or a reset has reported
      success. */
  datatype History = History(
    past: Past, after: Contents, clean: bool, deleting: bool, keyDropped: bool, localBurn: bool, burnOk: bool,
    resetOk: bool)

  datatype World = World(disk: Disk, memory: Memory, history: History)

  datatype State = State(world: World, threads: map<Tid, Pc>)

  /** What a thread's move does: the world after it, and where the thread then stands, if it has not ended. */
  datatype Moved = Moved(world: World, next: Option<Pc>)

  /** A step of the world: a thread starts, a thread moves (with the answer the outside gives it), or the process dies.
      `ok` is whether the operation succeeds; `alt` is a second answer some operations need; `key` a fresh random key.
      */
  datatype Step = Spawn(tid: Tid, command: Command) | Go(tid: Tid, ok: bool, alt: bool, key: Key) | Crash

  /** A process starting on this disk and keychain. */
  function Boot(disk: Disk, past: Past): State {
    State(World(disk, Memory(Unset, None, map[], None, false),
                History(past, map[], false, false, false, false, false, false)), map[])
  }

  const FIRST_RUN := Boot(Disk(Missing, Missing, Missing, NoEntry), NO_PAST)

  function Edited(contents: Contents, edit: Edit): Contents {
    match edit
    case Put(name, value) => contents[name := value]
    case Drop(names) => contents - names
  }

  function FirstPc(command: Command, burned: bool): Pc {
    match command
    case Launch => Asking(false, burned)
    case Snapshot => Asking(true, burned)
    case Write(edit) => Entering(edit)
    case Burn => Flagging
    case Reset => Targeting
  }

  predicate Unlocks(pc: Pc) {
    pc.Asking? || pc.Looking? || pc.Reading? || pc.Storing? || pc.Opening? || pc.Checking? || pc.Wiping?
  }

  predicate Writes(pc: Pc) {
    pc.Entering? || pc.Persisting? || pc.Sealing? || pc.Creating? || pc.Filling? || pc.Renaming?
  }

  predicate Burns(pc: Pc) {
    pc.Flagging? || pc.Seeking? || pc.Clearing? || pc.DeletingSealed? || pc.DeletingTemp? || pc.DeletingAside?
    || pc.DroppingKey?
  }

  /** An entry the next launch can work with. */
  predicate Usable(e: Entry) { e.Stored? ==> FromHex(e.text).Parsed? }

  /** A delete: the file is gone afterwards, or it was there and stayed. */
  function Deleted(file: File, ok: bool): File { if ok then Missing else file }

  // ---- Small changes of the world ----

  function WithTemp(w: World, temp: File): World { w.(disk := w.disk.(temp := temp)) }

  function WithKeychain(w: World, e: Entry): World { w.(disk := w.disk.(keychain := e)) }

  function Released(w: World): World { w.(memory := w.memory.(mutex := None)) }

  function Wiped(w: World): World {
    World(w.disk, w.memory.(ram := map[]), w.history.(after := map[], clean := w.memory.burned))
  }

  /** The unlock has its answer: everyone waiting gets it. */
  function Publish(w: World, pc: Pc, cell: Cell, ram: Contents): Moved
    requires Unlocks(pc)
  {
    Moved(w.(memory := w.memory.(cell := cell, ram := ram, initializer := None)), Some(Checking(pc.snapshot, pc.late)))
  }

  // ---- unlock_once and the snapshot ----

  function ReadKey(w: World, pc: Pc): Moved
    requires pc.Reading?
  {
    match w.disk.keychain
    case NoEntry =>
      if pc.found then Publish(w, pc, LockedOut(Vault), w.memory.ram) else Moved(w, Some(Storing(pc.snapshot, pc.late)))
    case Stored(text) =>
      match FromHex(text)
      case Parsed(key) => Moved(w, Some(Opening(pc.snapshot, pc.late, key)))
      case Malformed => Publish(w, pc, LockedOut(Vault), w.memory.ram)
      case Panicked => Moved(w.(memory := w.memory.(initializer := None)), None)
  }

  /** What the sealed file gives: with no file there, nothing; otherwise the contents, or a lock-out. */
  function OpenSealed(w: World, pc: Pc): Moved
    requires pc.Opening?
  {
    match w.disk.sealed
    case Missing => Publish(w, pc, Unlocked(pc.key), map[])
    case Holds(Sealed(k, contents)) =>
      if k == pc.key then Publish(w, pc, Unlocked(k), contents) else Publish(w, pc, LockedOut(Vault), w.memory.ram)
    case Holds(Torn) => Publish(w, pc, LockedOut(Vault), w.memory.ram)
  }

  function AfterUnlock(w: World, pc: Pc): Moved
    requires Unlocks(pc)
  {
    Moved(w, if pc.snapshot && w.memory.cell.Unlocked? then Some(Copying(pc.late)) else None)
  }

  function MoveUnlock(w: World, t: Tid, pc: Pc, ok: bool, alt: bool, key: Key): Moved
    requires Unlocks(pc)
  {
    match pc
    case Asking(snapshot, late) =>
      if w.memory.cell != Unset then Moved(w, Some(Checking(snapshot, late)))
      else Moved(w.(memory := w.memory.(initializer := Some(t))), Some(Looking(snapshot, late)))
    case Looking(snapshot, late) =>
      if !ok then Publish(w, pc, LockedOut(Keychain), w.memory.ram)
      else Moved(w, Some(Reading(snapshot, late, w.disk.sealed.Holds? || alt)))
    case Reading(_, _, _) => if !ok then Publish(w, pc, LockedOut(Keychain), w.memory.ram) else ReadKey(w, pc)
    case Storing(snapshot, late) =>
      if !ok then Publish(w, pc, LockedOut(Keychain), w.memory.ram)
      else Moved(WithKeychain(w, Stored(ToHex(key))), Some(Opening(snapshot, late, key)))
    case Opening(_, _, _) => if !ok then Publish(w, pc, LockedOut(Vault), w.memory.ram) else OpenSealed(w, pc)
    case Checking(snapshot, late) =>
      if w.memory.burned && w.memory.cell.Unlocked? then Moved(w, Some(Wiping(snapshot, late))) else AfterUnlock(w, pc)
    case Wiping(_, _) => AfterUnlock(Wiped(w), pc)
  }

  // ---- a write, under the mutex from the edit to the rename ----

  function MoveWrite(w: World, t: Tid, pc: Pc, ok: bool, alt: bool): Moved
    requires Writes(pc)
  {
    match pc
    case Entering(edit) =>
      if !w.memory.cell.Unlocked? || (edit.Put? && !ok) then Moved(w, None)
      else Moved(World(w.disk, w.memory.(mutex := Some(t), ram := Edited(w.memory.ram, edit)),
                       w.history.(after := if w.memory.burned then Edited(w.history.after, edit) else w.history.after)),
                 Some(Persisting))
    case Persisting => if w.memory.burned then Moved(Released(w), None) else Moved(w, Some(Sealing))
    case Sealing =>
      if ok && w.memory.cell.Unlocked? then Moved(w, Some(Creating(Sealed(w.memory.cell.master, w.memory.ram))))
      else Moved(Released(w), None)
    case Creating(blob) =>
      if ok then Moved(WithTemp(w, Holds(Torn)), Some(Filling(blob)))
      else Moved(Released(WithTemp(w, Deleted(w.disk.temp, alt))), None)
    case Filling(blob) =>
      if ok then Moved(WithTemp(w, Holds(blob)), Some(Renaming(blob)))
      else Moved(Released(WithTemp(w, Deleted(w.disk.temp, alt))), None)
    case Renaming(_) =>
      if ok && w.disk.temp.Holds?
      then Moved(World(w.disk.(sealed := w.disk.temp, temp := Missing), w.memory.(mutex := None),
                       w.history.(past := Renamed(w.history.past, w.memory.ram))), None)
      else Moved(Released(w), None)
  }

  function Renamed(past: Past, ram: Contents): Past { past.(saved := Some(ram), removed := false, orphaned := false) }

  // ---- burn ----

  /** A burn has tried to delete the sealed file, and left this. */
  function SealedTried(past: Past, file: File): Past {
    past.(removed := past.removed || file.Missing?, orphaned := past.orphaned && file.Holds?)
  }

  /** A burn has tried to delete the moved-aside file, and left this. */
  function AsideTried(past: Past, file: File): Past {
    past.(moved := if file.Missing? then None else past.moved, asideOrphaned := past.asideOrphaned && file.Holds?)
  }

  /** A burn has dropped the key, with these files still there. */
  function KeyDropped(past: Past, disk: Disk): Past {
    past.(orphaned := past.orphaned || disk.sealed.Holds?, asideOrphaned := past.asideOrphaned || disk.aside.Holds?)
  }

  function MoveBurn(w: World, t: Tid, pc: Pc, ok: bool): Moved
    requires Burns(pc)
  {
    match pc
    case Flagging =>
      Moved(World(w.disk, w.memory.(burned := true),
                  w.history.(after := if w.memory.burned then w.history.after else map[])), Some(Seeking))
    case Seeking =>
      if w.memory.cell.Unlocked? then Moved(w, Some(Clearing))
      else Moved(w.(history := w.history.(deleting := true)), Some(DeletingSealed(false)))
    case Clearing =>
      Moved(World(w.disk, w.memory.(ram := map[], mutex := Some(t)),
                  w.history.(after := map[], clean := w.memory.burned, deleting := true)), Some(DeletingSealed(true)))
    case DeletingSealed(guarded) =>
      var file := Deleted(w.disk.sealed, ok);
      Moved(World(w.disk.(sealed := file), w.memory, w.history.(past := SealedTried(w.history.past, file))),
            Some(DeletingTemp(guarded, file.Missing?)))
    case DeletingTemp(guarded, gone) =>
      var file := Deleted(w.disk.temp, ok);
      Moved(WithTemp(w, file), Some(DeletingAside(guarded, gone && file.Missing?)))
    case DeletingAside(guarded, gone) =>
      var file := Deleted(w.disk.aside, ok);
      var all := gone && file.Missing?;
      Moved(World(w.disk.(aside := file), w.memory.(mutex := if guarded then None else w.memory.mutex),
                  w.history.(past := AsideTried(w.history.past, file), localBurn := w.history.localBurn || all)),
            Some(DroppingKey(all)))
    case DroppingKey(gone) =>
      Moved(World(w.disk.(keychain := if ok then NoEntry else w.disk.keychain), w.memory,
                  w.history.(past := if ok then KeyDropped(w.history.past, w.disk) else w.history.past,
                             keyDropped := w.history.keyDropped || ok,
                             burnOk := w.history.burnOk || (gone && (ok || w.disk.keychain.NoEntry?)))), None)
  }

  // ---- reset ----

  function MovedAside(past: Past): Past {
    past.(removed := true, orphaned := false, moved := past.saved, asideOrphaned := past.orphaned)
  }

  function MoveReset(w: World, pc: Pc, ok: bool): Moved
    requires pc.Targeting? || pc.Moving? || pc.Tidying? || pc.Consulting? || pc.Unkeying?
  {
    match pc
    case Targeting => Moved(w, if w.memory.cell == LockedOut(Vault) then Some(Moving) else None)
    case Moving =>
      if w.disk.sealed.Missing? then Moved(w, Some(Tidying))
      else if ok then
        Moved(World(w.disk.(aside := w.disk.sealed, sealed := Missing), w.memory,
                    w.history.(past := MovedAside(w.history.past))), Some(Tidying))
      else Moved(w, None)
    case Tidying => Moved(WithTemp(w, Deleted(w.disk.temp, ok)), Some(Consulting))
    case Consulting =>
      if !ok then Moved(w, None)
      else if Usable(w.disk.keychain) then Moved(w.(history := w.history.(resetOk := true)), None)
      else if FromHex(w.disk.keychain.text).Malformed? then Moved(w, Some(Unkeying))
      else Moved(w, None)
    case Unkeying =>
      if ok && w.disk.keychain.Stored?
      then Moved(World(w.disk.(keychain := NoEntry), w.memory, w.history.(resetOk := true)), None)
      else Moved(w, None)
  }

  // ---- The transition system ----

  /** Whether a thread can move at all: it may be waiting for the unlock, or for the mutex. */
  predicate CanMove(w: World, pc: Pc, key: Key) {
    match pc
    case Asking(_, _) => w.memory.cell != Unset || w.memory.initializer == None
    case Storing(_, _) => |key| == KEY_BYTES
    case Wiping(_, _) => w.memory.mutex == None
    case Copying(_) => w.memory.mutex == None
    case Entering(_) => w.memory.cell.Unlocked? ==> w.memory.mutex == None
    case Clearing => w.memory.mutex == None
    case _ => true
  }

  function Move(w: World, t: Tid, pc: Pc, ok: bool, alt: bool, key: Key): Moved {
    if Unlocks(pc) then MoveUnlock(w, t, pc, ok, alt, key)
    else if Writes(pc) then MoveWrite(w, t, pc, ok, alt)
    else if Burns(pc) then MoveBurn(w, t, pc, ok)
    else if pc.Copying? then Moved(w, None)
    else MoveReset(w, pc, ok)
  }

  predicate Enabled(s: State, step: Step) {
    match step
    case Spawn(t, _) => t !in s.threads
    case Go(t, _, _, key) => t in s.threads && CanMove(s.world, s.threads[t], key)
    case Crash => true
  }

  function Apply(s: State, step: Step): State
    requires Enabled(s, step)
  {
    match step
    case Spawn(t, command) => s.(threads := s.threads[t := FirstPc(command, s.world.memory.burned)])
    case Go(t, ok, alt, key) =>
      var m := Move(s.world, t, s.threads[t], ok, alt, key);
      State(m.world, if m.next.Some? then s.threads[t := m.next.value] else s.threads - {t})
    case Crash => Boot(s.world.disk, s.world.history.past)
  }

  /** What a finishing snapshot hands to the webview. */
  function ReplyOf(s: State, step: Step): Option<Contents>
    requires Enabled(s, step)
  {
    if step.Go? && s.threads[step.tid].Copying? then Some(s.world.memory.ram) else None
  }

  ghost predicate Legal(s: State, steps: seq<Step>)
    decreases |steps|
  {
    steps == [] || (Enabled(s, steps[0]) && Legal(Apply(s, steps[0]), steps[1..]))
  }

  ghost function Run(s: State, steps: seq<Step>): State
    requires Legal(s, steps)
    decreases |steps|
  {
    if steps == [] then s else Run(Apply(s, steps[0]), steps[1..])
  }
}
