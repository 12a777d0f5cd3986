/** Private human control over one shared browser, as the atomic steps its event loop takes between awaits.

    Two coroutine families share the state: `execute` runs one model action at a time in a task of its own, and
    `call` moves a durable fence between the model and a human, holding one lock across its awaits. A restart keeps
    the database and loses everything else. */
module BrowserModel {
  import opened Options

  type Session = string
  type Owner = string
  type RequestId = string
  type Identity = string

  const CACHE_CAP: nat := 32 * 1024 * 1024
  const JSON_LIMIT: nat := 7_000_000
  const MAX_RECORDS: nat := 1024

  datatype Phase = Agent | TakingOver | Human | InputUncertain

  datatype Row = Row(session: Session, owner: Owner, phase: Phase)

  /** What survives a restart: the fence, the inputs ever recorded, the sessions ever handed back. */
  datatype Db = Db(row: Option<Row>, inputs: set<RequestId>, returned: set<Session>)

  /** An action's result and the size of its encoding. */
  datatype Output = Output(body: string, size: nat)

  datatype Outcome = InFlight | Completed(output: Output) | NotCompleted

  /** The record kept for an identity, and which task ran it. */
  datatype Record = Record(terms: string, state: Outcome, task: nat)

  /** How far `perform` has come. */
  datatype Progress = Running | Finished(output: Output) | Failed

  /** Where the `execute` that started a task stands. */
  datatype Waiter = Awaiting | Closing | Done

  datatype Task = Task(key: Identity, terms: string, progress: Progress, waiter: Waiter)

  /** Who holds the lock, and where that call stands. `Fenced`, `Recorded` and `Retired` are points with no await
      before the next step: only that step, or a crash, can follow. */
  datatype Lock =
    | Free
    | Fenced
    | Draining(task: nat)
    | Capturing
    | Recorded(id: RequestId)
    | Dispatching(id: RequestId)
    | Retired(session: Session)

  /** `dispatched` is the history of inputs sent to the page, over all restarts. */
  datatype State = State(
    db: Db, lock: Lock, ready: bool, records: map<Identity, Record>, active: Option<nat>, tasks: seq<Task>,
    cachedBytes: nat, dispatched: seq<RequestId>)

  datatype Step =
    | Execute(key: Identity, terms: string)
    | PerformEnds(task: nat, result: Option<Output>)
    | Resume(task: nat, interrupted: bool)
    | Close(task: nat)
    | Cancelled(key: Identity)   // a cancel request answers; what it asked for is a `PerformEnds(task, None)`
    | TakeOver(session: Session, owner: Owner)
    | Settle(timedOut: bool, connected: bool)
    | GiveBack(session: Session, owner: Owner)
    | Release
    | Frame(session: Session, owner: Owner)
    | FrameDone
    | Input(session: Session, owner: Owner, id: RequestId, wellFormed: bool)
    | Dispatch
    | InputDone(ok: bool)
    | Stop
    | Restart(up: bool)

  datatype Refusal =
    | PrivateControl | TermsMismatch | Unresolved | Unavailable | Full
    | AlreadyReturned | OtherSession | SessionMismatch | NotHuman | InvalidInput | AlreadyDispatched
    | UnknownIdentity | UnknownOutcome

  /** What the caller of the coroutine that took the step hears. */
  datatype Reply = Waiting | Gives(output: Output) | Refused(why: Refusal) | InPhase(phase: Phase) | Picture
                 | Answer(completed: bool)

  predicate Private(s: State) { s.db.row.Some? && s.db.row.value.phase != Agent }

  function PhaseOf(s: State): Phase { if s.db.row.Some? then s.db.row.value.phase else Agent }

  predicate Holds(s: State, session: Session, owner: Owner) {
    s.db.row.Some? && s.db.row.value.session == session && s.db.row.value.owner == owner
  }

  function WithPhase(s: State, phase: Phase): State
    requires s.db.row.Some?
  {
    s.(db := s.db.(row := Some(s.db.row.value.(phase := phase))))
  }

  // ---- execute and cancel ----

  function ExecuteReply(s: State, key: Identity, terms: string): Reply {
    if Private(s) then Refused(PrivateControl)
    else if key in s.records then
      if s.records[key].terms != terms then Refused(TermsMismatch)
      else if s.records[key].state.Completed? then Gives(s.records[key].state.output)
      else Refused(Unresolved)
    else if !s.ready || s.active.Some? then Refused(Unavailable)
    else if |s.records| >= MAX_RECORDS || s.cachedBytes >= CACHE_CAP then Refused(Full)
    else Waiting
  }

  function Started(s: State, key: Identity, terms: string): State {
    if ExecuteReply(s, key, terms) != Waiting then s
    else s.(records := s.records[key := Record(terms, InFlight, |s.tasks|)],
            active := Some(|s.tasks|),
            tasks := s.tasks + [Task(key, terms, Running, Awaiting)])
  }

  function WithRecord(s: State, task: nat, state: Outcome): State
    requires task < |s.tasks| && s.tasks[task].key in s.records
  {
    var key := s.tasks[task].key;
    s.(records := s.records[key := s.records[key].(state := state)])
  }

  function WithWaiter(s: State, task: nat, waiter: Waiter): State
    requires task < |s.tasks|
  {
    s.(tasks := s.tasks[task := s.tasks[task].(waiter := waiter)])
  }

  /** Whether a resumed `execute` has an output it may release. */
  predicate Releases(s: State, task: nat, interrupted: bool)
    requires task < |s.tasks|
  {
    && !interrupted && s.tasks[task].progress.Finished? && !Private(s)
    && s.tasks[task].progress.output.size <= JSON_LIMIT
  }

  /** Whether the output was drained: computed, but private control has begun since. */
  predicate Suppresses(s: State, task: nat, interrupted: bool)
    requires task < |s.tasks|
  {
    !interrupted && s.tasks[task].progress.Finished? && Private(s)
  }

  function Resumed(s: State, task: nat, interrupted: bool): State
    requires task < |s.tasks| && s.tasks[task].key in s.records
  {
    if Releases(s, task, interrupted) then
      var output := s.tasks[task].progress.output;
      WithWaiter(WithRecord(s, task, Completed(output)), task, Done)
        .(active := None, cachedBytes := s.cachedBytes + output.size)
    else if Suppresses(s, task, interrupted) then
      WithWaiter(WithRecord(s, task, NotCompleted), task, Done).(active := None)
    else
      WithWaiter(WithRecord(s, task, NotCompleted), task, Closing).(ready := false)
  }

  function ResumeReply(s: State, task: nat, interrupted: bool): Reply
    requires task < |s.tasks|
  {
    if Releases(s, task, interrupted) then Gives(s.tasks[task].progress.output)
    else if Suppresses(s, task, interrupted) then Refused(PrivateControl)
    else Waiting
  }

  // ---- take over ----

  function TakeOverReply(s: State, session: Session, owner: Owner): Reply {
    if session in s.db.returned then Refused(AlreadyReturned)
    else if Holds(s, session, owner) && s.db.row.value.phase == Agent then Refused(AlreadyReturned)
    else if !Holds(s, session, owner) && Private(s) then Refused(OtherSession)
    else Waiting
  }

  function TakenOver(s: State, session: Session, owner: Owner): State {
    if TakeOverReply(s, session, owner) != Waiting then s
    else
      var fenced := if Holds(s, session, owner) then s
                    else s.(db := s.db.(row := Some(Row(session, owner, TakingOver))));
      fenced.(lock := if s.active.Some? then Draining(s.active.value) else Fenced)
  }

  /** Whether the drain ended with a usable browser. */
  predicate Settles(s: State, timedOut: bool, connected: bool) {
    && s.ready && connected && s.db.row.Some?
    && (s.lock.Draining? ==> !timedOut && s.lock.task < |s.tasks| && s.tasks[s.lock.task].progress.Finished?)
  }

  function Settled(s: State, timedOut: bool, connected: bool): State {
    (if Settles(s, timedOut, connected) then WithPhase(s, Human) else s).(lock := Free)
  }

  // ---- the other private commands ----

  function GiveBackReply(s: State, session: Session, owner: Owner): Reply {
    if Holds(s, session, owner) then Waiting else Refused(SessionMismatch)
  }

  function Retiring(s: State, session: Session, owner: Owner): State {
    if GiveBackReply(s, session, owner) != Waiting then s
    else s.(db := s.db.(returned := s.db.returned + {session}), lock := Retired(session))
  }

  function FrameReply(s: State, session: Session, owner: Owner): Reply {
    if !Holds(s, session, owner) then Refused(SessionMismatch)
    else if s.db.row.value.phase != Human then Refused(NotHuman)
    else Waiting
  }

  function InputReply(s: State, session: Session, owner: Owner, id: RequestId, wellFormed: bool): Reply {
    if FrameReply(s, session, owner) != Waiting then FrameReply(s, session, owner)
    else if !wellFormed then Refused(InvalidInput)
    else if id in s.db.inputs then Refused(AlreadyDispatched)
    else Waiting
  }

  function Recording(s: State, session: Session, owner: Owner, id: RequestId, wellFormed: bool): State {
    if InputReply(s, session, owner, id, wellFormed) != Waiting then s
    else s.(db := s.db.(inputs := s.db.inputs + {id}), lock := Recorded(id))
  }

  /** A fresh process over the same database. */
  function Restarted(s: State, up: bool): State {
    State(s.db, Free, up, map[], None, [], 0, s.dispatched)
  }

  // ---- The transition system ----

  predicate Enabled(s: State, step: Step) {
    match step
    case Execute(_, _) => !s.lock.Fenced? && !s.lock.Recorded? && !s.lock.Retired?
    case PerformEnds(task, _) => !s.lock.Fenced? && !s.lock.Recorded? && !s.lock.Retired?
      && task < |s.tasks| && s.tasks[task].progress.Running?
    case Resume(task, _) => !s.lock.Fenced? && !s.lock.Recorded? && !s.lock.Retired?
      && task < |s.tasks| && s.tasks[task].waiter.Awaiting? && !s.tasks[task].progress.Running?
      && s.tasks[task].key in s.records
    case Close(task) => !s.lock.Fenced? && !s.lock.Recorded? && !s.lock.Retired?
      && task < |s.tasks| && s.tasks[task].waiter.Closing?
    case Cancelled(key) => !s.lock.Fenced? && !s.lock.Recorded? && !s.lock.Retired?
      && (key in s.records ==> !s.records[key].state.InFlight? || s.active.None?)
    case TakeOver(_, _) => s.lock.Free?
    case Settle(timedOut, _) => s.lock.Fenced?
      || (s.lock.Draining? && s.lock.task < |s.tasks| && (timedOut || !s.tasks[s.lock.task].progress.Running?))
    case GiveBack(_, _) => s.lock.Free?
    case Release => s.lock.Retired? && s.db.row.Some?
    case Frame(_, _) => s.lock.Free?
    case FrameDone => s.lock.Capturing?
    case Input(_, _, _, _) => s.lock.Free?
    case Dispatch => s.lock.Recorded?
    case InputDone(_) => s.lock.Dispatching? && s.db.row.Some?
    case Stop => !s.lock.Fenced? && !s.lock.Recorded? && !s.lock.Retired?
    case Restart(_) => true
  }

  function Apply(s: State, step: Step): State
    requires Enabled(s, step)
  {
    match step
    case Execute(key, terms) => Started(s, key, terms)
    case PerformEnds(task, result) =>
      s.(tasks := s.tasks[task := s.tasks[task].(
        progress := if result.Some? then Finished(result.value) else Failed)])
    case Resume(task, interrupted) => Resumed(s, task, interrupted)
    case Close(task) => WithWaiter(s, task, Done).(active := None)
    case Cancelled(_) => s
    case TakeOver(session, owner) => TakenOver(s, session, owner)
    case Settle(timedOut, connected) => Settled(s, timedOut, connected)
    case GiveBack(session, owner) => Retiring(s, session, owner)
    case Release => WithPhase(s, Agent).(lock := Free)
    case Frame(session, owner) => if FrameReply(s, session, owner) == Waiting then s.(lock := Capturing) else s
    case FrameDone => s.(lock := Free)
    case Input(session, owner, id, wellFormed) => Recording(s, session, owner, id, wellFormed)
    case Dispatch => s.(dispatched := s.dispatched + [s.lock.id], lock := Dispatching(s.lock.id))
    case InputDone(ok) => (if ok then s else WithPhase(s, InputUncertain)).(lock := Free)
    case Stop => s.(ready := false)
    case Restart(up) => Restarted(s, up)
  }

  function ReplyOf(s: State, step: Step): Reply
    requires Enabled(s, step)
  {
    match step
    case Execute(key, terms) => ExecuteReply(s, key, terms)
    case Resume(task, interrupted) => ResumeReply(s, task, interrupted)
    case Close(_) => Refused(UnknownOutcome)
    case Cancelled(key) =>
      if key !in s.records then Refused(UnknownIdentity) else Answer(s.records[key].state.Completed?)
    case TakeOver(session, owner) => TakeOverReply(s, session, owner)
    case Settle(timedOut, connected) => if Settles(s, timedOut, connected) then InPhase(Human) else Refused(Unavailable)
    case GiveBack(session, owner) => GiveBackReply(s, session, owner)
    case Release => InPhase(Agent)
    case Frame(session, owner) => FrameReply(s, session, owner)
    case FrameDone => Picture
    case Input(session, owner, id, wellFormed) => InputReply(s, session, owner, id, wellFormed)
    case InputDone(ok) => if ok then InPhase(PhaseOf(s)) else Refused(UnknownOutcome)
    case PerformEnds(_, _) => Waiting
    case Dispatch => Waiting
    case Stop => Waiting
    case Restart(_) => Waiting
  }

  /** A first start on an empty database. */
  const START := State(Db(None, {}, {}), Free, false, map[], None, [], 0, [])

  ghost predicate Legal(s: State, steps: seq<Step>)
    decreases |steps|
  {
    steps == [] || (Enabled(s, steps[0]) && Legal(Apply(s, steps[0]), steps[1..]))
  }

  ghost function Run(s: State, steps: seq<Step>): State
    requires Legal(s, steps)
    decreases |steps|
  {
    if steps == [] then s else Run(Apply(s, steps[0]), steps[1..])
  }
}
