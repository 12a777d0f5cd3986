/** The engine and its private control as objects: each method is one stretch of a coroutine between awaits. */
module BrowserService {
  import opened Options
  import opened BrowserModel
  import opened BrowserFence

  class BrowserControl {
    // The durable tables.
    var row: Option<Row>
    var inputs: set<RequestId>
    var returned: set<Session>
    // Where the call holding the lock stands.
    var lock: Lock
    /** Inputs sent to the page so far. */
    ghost var dispatched: seq<RequestId>

    constructor (row: Option<Row>, inputs: set<RequestId>, returned: set<Session>, ghost dispatched: seq<RequestId>)
      ensures this.row == row && this.inputs == inputs && this.returned == returned
      ensures this.lock == Free && this.dispatched == dispatched
    {
      this.row, this.inputs, this.returned := row, inputs, returned;
      this.lock, this.dispatched := Free, dispatched;
    }

    function IsPrivate(): (private: bool)
      reads this
    {
      row.Some? && row.value.phase != Agent
    }

    function Matches(session: Session, owner: Owner): bool
      reads this
    {
      row.Some? && row.value.session == session && row.value.owner == owner
    }

    method SetPhase(phase: Phase)
      modifies `row
      ensures row == if old(row).Some? then Some(old(row).value.(phase := phase)) else None
    {
      if row.Some? {
        row := Some(row.value.(phase := phase));
      }
    }

    /** Fence first, then drain: the wait for the running action begins once this returns `Waiting`. */
    method TakeOver(engine: Engine, session: Session, owner: Owner) returns (reply: Reply)
      requires engine.control == this && Enabled(engine.View(), Step.TakeOver(session, owner))
      modifies this
      ensures engine.View() == Apply(old(engine.View()), Step.TakeOver(session, owner))
      ensures reply == ReplyOf(old(engine.View()), Step.TakeOver(session, owner))
      ensures Valid(old(engine.View())) ==> Valid(engine.View())
    {
      hide Valid;
      StepKeeps(engine.View(), Step.TakeOver(session, owner));
      if session in returned {
        return Refused(AlreadyReturned);
      }
      if Matches(session, owner) {
        if row.value.phase == Agent {
          return Refused(AlreadyReturned);
        }
      } else if IsPrivate() {
        return Refused(OtherSession);
      } else {
        row := Some(Row(session, owner, TakingOver));
      }
      lock := if engine.active.Some? then Draining(engine.active.value) else Fenced;
      return Waiting;
    }

    /** The drain is over, one way or another; control passes only with a finished action and a usable browser. */
    method Settle(engine: Engine, timedOut: bool, connected: bool) returns (reply: Reply)
      requires engine.control == this && Enabled(engine.View(), Step.Settle(timedOut, connected))
      requires row.Some?
      modifies this
      ensures engine.View() == Apply(old(engine.View()), Step.Settle(timedOut, connected))
      ensures reply == ReplyOf(old(engine.View()), Step.Settle(timedOut, connected))
      ensures Valid(old(engine.View())) ==> Valid(engine.View())
    {
      hide Valid;
      StepKeeps(engine.View(), Step.Settle(timedOut, connected));
      var drained := lock.Draining? ==> !timedOut && engine.tasks[lock.task].progress.Finished?;
      lock := Free;
      if !drained || !engine.ready || !connected {
        return Refused(Unavailable);
      }
      SetPhase(Human);
      return InPhase(Human);
    }

    /** First commit of a handback. */
    method GiveBack(engine: Engine, session: Session, owner: Owner) returns (reply: Reply)
      requires engine.control == this && Enabled(engine.View(), Step.GiveBack(session, owner))
      modifies this
      ensures engine.View() == Apply(old(engine.View()), Step.GiveBack(session, owner))
      ensures reply == ReplyOf(old(engine.View()), Step.GiveBack(session, owner))
      ensures Valid(old(engine.View())) ==> Valid(engine.View())
    {
      hide Valid;
      StepKeeps(engine.View(), Step.GiveBack(session, owner));
      if !Matches(session, owner) {
        return Refused(SessionMismatch);
      }
      returned := returned + {session};
      lock := Retired(session);
      return Waiting;
    }

    /** Second commit of a handback. */
    method Release(engine: Engine) returns (reply: Reply)
      requires engine.control == this && Enabled(engine.View(), Step.Release)
      modifies this
      ensures engine.View() == Apply(old(engine.View()), Step.Release)
      ensures reply == ReplyOf(old(engine.View()), Step.Release)
      ensures Valid(old(engine.View())) ==> Valid(engine.View())
    {
      hide Valid;
      StepKeeps(engine.View(), Step.Release);
      SetPhase(Agent);
      lock := Free;
      return InPhase(Agent);
    }

    method Frame(engine: Engine, session: Session, owner: Owner) returns (reply: Reply)
      requires engine.control == this && Enabled(engine.View(), Step.Frame(session, owner))
      modifies this
      ensures engine.View() == Apply(old(engine.View()), Step.Frame(session, owner))
      ensures reply == ReplyOf(old(engine.View()), Step.Frame(session, owner))
      ensures Valid(old(engine.View())) ==> Valid(engine.View())
    {
      hide Valid;
      StepKeeps(engine.View(), Step.Frame(session, owner));
      if !Matches(session, owner) {
        return Refused(SessionMismatch);
      }
      if row.value.phase != Human {
        return Refused(NotHuman);
      }
      lock := Capturing;
      return Waiting;
    }

    /** Record an input's identity before it is sent; an identity already recorded is never sent again. */
    method Input(engine: Engine, session: Session, owner: Owner, id: RequestId, wellFormed: bool) returns (reply: Reply)
      requires engine.control == this && Enabled(engine.View(), Step.Input(session, owner, id, wellFormed))
      modifies this
      ensures engine.View() == Apply(old(engine.View()), Step.Input(session, owner, id, wellFormed))
      ensures reply == ReplyOf(old(engine.View()), Step.Input(session, owner, id, wellFormed))
      ensures Valid(old(engine.View())) ==> Valid(engine.View())
    {
      hide Valid;
      StepKeeps(engine.View(), Step.Input(session, owner, id, wellFormed));
      if !Matches(session, owner) {
        return Refused(SessionMismatch);
      }
      if row.value.phase != Human {
        return Refused(NotHuman);
      }
      if !wellFormed {
        return Refused(InvalidInput);
      }
      if id in inputs {
        return Refused(AlreadyDispatched);
      }
      inputs := inputs + {id};
      lock := Recorded(id);
      return Waiting;
    }

    method Dispatch(engine: Engine)
      requires engine.control == this && Enabled(engine.View(), Step.Dispatch)
      modifies this
      ensures engine.View() == Apply(old(engine.View()), Step.Dispatch)
      ensures Valid(old(engine.View())) ==> Valid(engine.View())
    {
      hide Valid;
      StepKeeps(engine.View(), Step.Dispatch);
      dispatched := dispatched + [lock.id];
      lock := Dispatching(lock.id);
    }

    /** The page call returned, or raised and left its effect uncertain. */
    method InputDone(engine: Engine, ok: bool) returns (reply: Reply)
      requires engine.control == this && Enabled(engine.View(), Step.InputDone(ok))
      modifies this
      ensures engine.View() == Apply(old(engine.View()), Step.InputDone(ok))
      ensures reply == ReplyOf(old(engine.View()), Step.InputDone(ok))
      ensures Valid(old(engine.View())) ==> Valid(engine.View())
    {
      hide Valid;
      StepKeeps(engine.View(), Step.InputDone(ok));
      lock := Free;
      if !ok {
        SetPhase(InputUncertain);
        return Refused(UnknownOutcome);
      }
      return InPhase(row.value.phase);
    }
  }

  class Engine {
    const control: BrowserControl
    var records: map<Identity, Record>
    var active: Option<nat>
    var tasks: seq<Task>
    var ready: bool
    var cachedBytes: nat

    ghost function View(): State
      reads this, control
    {
      State(Db(control.row, control.inputs, control.returned), control.lock, ready, records, active, tasks,
            cachedBytes, control.dispatched)
    }

    /** A process starting over the tables an earlier one left. */
    constructor Restart(earlier: BrowserControl, up: bool, ghost before: State)
      requires before.db == Db(earlier.row, earlier.inputs, earlier.returned)
      requires before.dispatched == earlier.dispatched
      ensures fresh(control)
      ensures View() == Apply(before, Step.Restart(up))
    {
      control := new BrowserControl(earlier.row, earlier.inputs, earlier.returned, earlier.dispatched);
      records, active, tasks, ready, cachedBytes := map[], None, [], up, 0;
    }

    /** Admit a call: refuse it, answer it from its record, or start the one run its identity gets. */
    method Execute(key: Identity, terms: string) returns (reply: Reply)
      requires Enabled(View(), Step.Execute(key, terms))
      modifies this
      ensures View() == Apply(old(View()), Step.Execute(key, terms))
      ensures reply == ReplyOf(old(View()), Step.Execute(key, terms))
      ensures Valid(old(View())) ==> Valid(View())
    {
      hide Valid;
      StepKeeps(View(), Step.Execute(key, terms));
      if control.IsPrivate() {
        return Refused(PrivateControl);
      }
      if key in records {
        if records[key].terms != terms {
          return Refused(TermsMismatch);
        }
        if !records[key].state.Completed? {
          return Refused(Unresolved);
        }
        return Gives(records[key].state.output);
      }
      if !ready || active.Some? {
        return Refused(Unavailable);
      }
      if |records| >= MAX_RECORDS || cachedBytes >= CACHE_CAP {
        return Refused(Full);
      }
      records := records[key := Record(terms, InFlight, |tasks|)];
      active := Some(|tasks|);
      tasks := tasks + [Task(key, terms, Running, Awaiting)];
      return Waiting;
    }

    /** The task has ended and `execute` runs again, possibly interrupted by a timeout or a cancellation. */
    method Resume(task: nat, interrupted: bool) returns (reply: Reply)
      requires Enabled(View(), Step.Resume(task, interrupted))
      modifies this
      ensures View() == Apply(old(View()), Step.Resume(task, interrupted))
      ensures reply == ReplyOf(old(View()), Step.Resume(task, interrupted))
      ensures Valid(old(View())) ==> Valid(View())
    {
      hide Valid;
      StepKeeps(View(), Step.Resume(task, interrupted));
      var t := tasks[task];
      var outcome := NotCompleted;
      var next := Closing;
      reply := Waiting;
      if !interrupted && t.progress.Finished? {
        if control.IsPrivate() {
          next := Done;
          reply := Refused(PrivateControl);
        } else if t.progress.output.size <= JSON_LIMIT {
          cachedBytes := cachedBytes + t.progress.output.size;
          outcome := Completed(t.progress.output);
          next := Done;
          reply := Gives(t.progress.output);
        }
      }
      records := records[t.key := records[t.key].(state := outcome)];
      tasks := tasks[task := t.(waiter := next)];
      if next.Done? {
        active := None;
      } else {
        ready := false;
      }
    }

    /** The page is closed after a failure; the slot is free again. */
    method Close(task: nat)
      requires Enabled(View(), Step.Close(task))
      modifies this
      ensures View() == Apply(old(View()), Step.Close(task))
      ensures Valid(old(View())) ==> Valid(View())
    {
      hide Valid;
      StepKeeps(View(), Step.Close(task));
      tasks := tasks[task := tasks[task].(waiter := Done)];
      active := None;
    }
  }

  /** What every step keeps, in the objects as in the transition system. */
  lemma StepKeeps(s: State, step: Step)
    requires Enabled(s, step)
    ensures Valid(s) ==> Valid(Apply(s, step))
  {
    hide Valid, Apply;
    if Valid(s) { StepValid(s, step); }
  }
}
