/** What the model and the human may each rely on, over every run with any number of restarts. */
module BrowserPromises {
  import opened Options
  import opened BrowserModel
  import opened BrowserFence

  lemma StartValid()
    ensures Valid(START)
  {}

  lemma Reach(steps: seq<Step>)
    requires Legal(START, steps)
    ensures Valid(Run(START, steps))
  {
    StartValid();
    RunValid(START, steps);
  }

  lemma {:induction false} RunJoin(s: State, first: seq<Step>, rest: seq<Step>)
    requires Legal(s, first) && Legal(Run(s, first), rest)
    ensures Legal(s, first + rest) && Run(s, first + rest) == Run(Run(s, first), rest)
    decreases |first|
  {
    hide Enabled, Apply;
    if first == [] {
      assert first + rest == rest;
    } else {
      assert (first + rest)[1..] == first[1..] + rest;
      RunJoin(Apply(s, first[0]), first[1..], rest);
    }
  }

  // ---- The model never runs beside a human ----

  /** No action is running while a human has control, nor while an input's effect is uncertain; nothing the model asks
      for can start then, and the input in flight is the human's own. */
  lemma NeverBesideAHuman(steps: seq<Step>, key: Identity, terms: string)
    requires Legal(START, steps)
    ensures var s := Run(START, steps);
      PhaseOf(s) in {Human, InputUncertain} ==>
        && Idle(s)
        && ExecuteReply(s, key, terms) == Refused(PrivateControl) && Started(s, key, terms) == s
    ensures Run(START, steps).lock.Dispatching? ==> PhaseOf(Run(START, steps)) == Human && Idle(Run(START, steps))
  {
    hide TasksValid, InputsValid, CacheValid;
    Reach(steps);
  }

  /** Every output released, fresh or cached, is released at an instant when the model has control, and is what the one
      run of that identity, under exactly those terms, returned. */
  lemma ReleasedOnlyToTheAgent(steps: seq<Step>, step: Step)
    requires Legal(START, steps) && Enabled(Run(START, steps), step)
    requires ReplyOf(Run(START, steps), step).Gives?
    ensures var s := Run(START, steps);
      && PhaseOf(s) == Agent
      && (step.Execute? || step.Resume?)
      && exists i: nat :: i < |s.tasks| && s.tasks[i].progress == Finished(ReplyOf(s, step).output)
           && (step.Execute? ==> s.tasks[i].key == step.key && s.tasks[i].terms == step.terms)
           && (step.Resume? ==> i == step.task)
  {
    hide Run;
    Reach(steps);
    var s := Run(START, steps);
    if step.Execute? {
      var i := s.records[step.key].task;
      assert TaskValid(s, i);
    } else {
      assert s.tasks[step.task].progress == Finished(ReplyOf(s, step).output);
    }
  }

  /** An unfinished record belongs to the one active task; there is never a second. */
  lemma OneInFlight(steps: seq<Step>, key: Identity)
    requires Legal(START, steps)
    ensures var s := Run(START, steps);
      key in s.records && s.records[key].state.InFlight? ==> s.active == Some(s.records[key].task)
    ensures var s := Run(START, steps);
      forall i: nat :: i < |s.tasks| && s.tasks[i].progress.Running? ==> s.active == Some(i)
  {
    hide Run;
    Reach(steps);
    var s := Run(START, steps);
    RunningIsActive(s);
    if key in s.records {
      assert TaskValid(s, s.records[key].task);
    }
  }

  /** Within one process no identity is ever performed twice. */
  lemma PerformedOnce(steps: seq<Step>)
    requires Legal(START, steps)
    ensures var tasks := Run(START, steps).tasks;
      forall i, j :: 0 <= i < j < |tasks| ==> tasks[i].key != tasks[j].key
  {
    hide Run;
    Reach(steps);
    var s := Run(START, steps);
    forall i: nat, j: nat | i < j < |s.tasks| ensures s.tasks[i].key != s.tasks[j].key {
      assert TaskValid(s, i) && TaskValid(s, j);
    }
  }

  // ---- What is decided stays decided ----

  lemma StepKeepsOutcome(s: State, step: Step, key: Identity)
    requires Valid(s) && Enabled(s, step) && !step.Restart?
    requires key in s.records && !s.records[key].state.InFlight?
    ensures key in Apply(s, step).records && Apply(s, step).records[key] == s.records[key]
  {
    hide FenceValid, InputsValid, CacheValid;
    if step.Resume? { assert TaskValid(s, step.task); }
  }

  /** Until the process restarts, a completed record keeps its output, and a record that did not complete (a drained
      result, say) never gives one. */
  lemma {:induction false} OutcomesAreFinal(s: State, steps: seq<Step>, key: Identity)
    requires Valid(s) && Legal(s, steps) && forall step :: step in steps ==> !step.Restart?
    requires key in s.records && !s.records[key].state.InFlight?
    ensures key in Run(s, steps).records && Run(s, steps).records[key] == s.records[key]
    ensures s.records[key].state.NotCompleted? ==> forall terms :: !ExecuteReply(Run(s, steps), key, terms).Gives?
    decreases |steps|
  {
    hide Valid, Apply, Enabled;
    if steps != [] {
      assert steps[0] in steps && forall x :: x in steps[1..] ==> x in steps;
      StepKeepsOutcome(s, steps[0], key);
      StepValid(s, steps[0]);
      OutcomesAreFinal(Apply(s, steps[0]), steps[1..], key);
    }
  }

  /** A result that finished while control passed to a human is suppressed, and no later call in this process gets it.
      */
  lemma DrainedResultIsNeverReleased(steps: seq<Step>, task: nat, later: seq<Step>, terms: string)
    requires Legal(START, steps) && Enabled(Run(START, steps), Resume(task, false))
    requires Private(Run(START, steps)) && Run(START, steps).tasks[task].progress.Finished?
    requires Legal(Resumed(Run(START, steps), task, false), later)
    requires forall step :: step in later ==> !step.Restart?
    ensures var s := Run(START, steps);
      && ReplyOf(s, Resume(task, false)) == Refused(PrivateControl)
      && !ExecuteReply(Run(Resumed(s, task, false), later), s.tasks[task].key, terms).Gives?
  {
    hide Run, Legal, Valid;
    Reach(steps);
    var s := Run(START, steps);
    StepValid(s, Resume(task, false));
    OutcomesAreFinal(Resumed(s, task, false), later, s.tasks[task].key);
  }

  // ---- Inputs happen at most once, ever ----

  /** Over all restarts no input identity is sent to the page twice; each was recorded before it was sent. */
  lemma InputsAtMostOnce(steps: seq<Step>)
    requires Legal(START, steps)
    ensures var s := Run(START, steps);
      && (forall i, j :: 0 <= i < j < |s.dispatched| ==> s.dispatched[i] != s.dispatched[j])
      && (forall id :: id in s.dispatched ==> id in s.db.inputs)
  {
    hide Run, TasksValid, FenceValid, CacheValid;
    Reach(steps);
  }

  // ---- The fence moves only by an explicit handback ----

  /** The one step that ends private control is the release that follows a matching give-back; closing a client, failed
      drains, stopping and crashing do not. */
  lemma OnlyGiveBackFrees(steps: seq<Step>, step: Step)
    requires Legal(START, steps) && Enabled(Run(START, steps), step)
    requires Private(Run(START, steps)) && !Private(Apply(Run(START, steps), step))
    ensures var s := Run(START, steps);
      && step == Release
      && s.lock == Retired(s.db.row.value.session)
      && s.db.row.value.session in s.db.returned
  {
    hide Run, TasksValid, InputsValid, CacheValid;
    Reach(steps);
  }

  /** A row in phase agent always names a retired session, so the second "already returned" refusal of a take-over can
      never be the one that fires. */
  lemma AgentRowIsRetired(steps: seq<Step>, session: Session, owner: Owner)
    requires Legal(START, steps)
    ensures var s := Run(START, steps);
      Holds(s, session, owner) && s.db.row.value.phase == Agent ==> session in s.db.returned
  {
    hide Run, TasksValid, InputsValid, CacheValid;
    Reach(steps);
  }

  /** The session was handed back and does not hold the fence. */
  predicate Done(s: State, session: Session) {
    session in s.db.returned && !(Private(s) && s.db.row.value.session == session)
  }

  lemma StepStaysDone(s: State, step: Step, session: Session)
    requires FenceValid(s) && Done(s, session) && Enabled(s, step)
    ensures Done(Apply(s, step), session)
  {
    hide Idle, ExecuteReply, Releases, Suppresses, FrameReply, InputReply;
  }

  lemma {:induction false} RunStaysDone(s: State, steps: seq<Step>, session: Session)
    requires Valid(s) && Done(s, session) && Legal(s, steps)
    ensures Done(Run(s, steps), session)
    decreases |steps|
  {
    hide Done, Apply, Enabled, TasksValid, InputsValid, CacheValid, FenceValid;
    if steps != [] {
      StepStaysDone(s, steps[0], session);
      StepValid(s, steps[0]);
      RunStaysDone(Apply(s, steps[0]), steps[1..], session);
    }
  }

  /** Once released, a session never holds private control again, across any number of restarts. */
  lemma NeverPrivateAgain(steps: seq<Step>, later: seq<Step>, session: Session)
    requires Legal(START, steps) && Enabled(Run(START, steps), Release) && Run(START, steps).lock.session == session
    requires Legal(Apply(Run(START, steps), Release), later)
    ensures Done(Run(Apply(Run(START, steps), Release), later), session)
  {
    hide Run, Legal, TasksValid, InputsValid, CacheValid;
    Reach(steps);
    StepValid(Run(START, steps), Release);
    RunStaysDone(Apply(Run(START, steps), Release), later, session);
  }

  /** A crash at any moment leaves the fence exactly where it was. Between the two commits of a handback that means
      still fenced: nobody can take over, and a matching give-back completes the release. */
  lemma CrashBetweenCommitsStaysFenced(steps: seq<Step>, up: bool, session: Session, owner: Owner)
    requires Legal(START, steps) && Run(START, steps).lock.Retired? && Private(Run(START, steps))
    ensures var s := Restarted(Run(START, steps), up);
      && s.db == Run(START, steps).db && Private(s)
      && TakeOverReply(s, session, owner).Refused?
      && (Holds(s, session, owner) ==> GiveBackReply(s, session, owner) == Waiting)
  {
    hide Run, TasksValid, InputsValid, CacheValid;
    Reach(steps);
  }

  /** The steps that let go of the lock, whoever holds it. */
  function LetGo(lock: Lock): seq<Step> {
    match lock
    case Free => []
    case Fenced => [Settle(true, false)]
    case Draining(_) => [Settle(true, false)]
    case Capturing => [FrameDone]
    case Recorded(_) => [Dispatch, InputDone(true)]
    case Dispatching(_) => [InputDone(true)]
    case Retired(_) => [Release]
  }

  /** Letting go keeps the fence, unless a handback was already under way. */
  lemma LettingGo(s: State)
    requires Valid(s)
    ensures Legal(s, LetGo(s.lock))
    ensures var s' := Run(s, LetGo(s.lock));
      && s'.lock.Free?
      && (if s.lock.Retired? then PhaseOf(s') == Agent else s'.db.row == s.db.row)
  {
    hide TasksValid, InputsValid, CacheValid;
    var way := LetGo(s.lock);
    if way != [] {
      var s1 := Apply(s, way[0]);
      if |way| == 2 {
        assert way[1..] == [InputDone(true)] && way[1..][1..] == [];
        assert Enabled(s1, InputDone(true)) && Legal(Apply(s1, InputDone(true)), []);
        assert Run(s1, way[1..]) == Run(Apply(s1, InputDone(true)), []);
      } else {
        assert way[1..] == [];
      }
    }
  }

  /** There is no dead end: from every reachable private state, once the call holding the lock ends, one matching
      give-back returns control to the model. */
  lemma AlwaysAWayBack(steps: seq<Step>) returns (way: seq<Step>)
    requires Legal(START, steps) && Private(Run(START, steps))
    ensures Legal(Run(START, steps), way) && PhaseOf(Run(Run(START, steps), way)) == Agent
    ensures var s := Run(START, steps);
      way == LetGo(s.lock)
        + if s.lock.Retired? then [] else [GiveBack(s.db.row.value.session, s.db.row.value.owner), Release]
  {
    Reach(steps);
    var s := Run(START, steps);
    LettingGo(s);
    if s.lock.Retired? {
      way := LetGo(s.lock) + [];
      assert way == LetGo(s.lock);
    } else {
      var free := Run(s, LetGo(s.lock));
      var give := [GiveBack(s.db.row.value.session, s.db.row.value.owner), Release];
      HandBack(free, s.db.row.value.session, s.db.row.value.owner);
      RunJoin(s, LetGo(s.lock), give);
      way := LetGo(s.lock) + give;
    }
  }

  lemma HandBack(s: State, session: Session, owner: Owner)
    requires s.lock.Free? && Holds(s, session, owner)
    ensures Legal(s, [GiveBack(session, owner), Release])
    ensures PhaseOf(Run(s, [GiveBack(session, owner), Release])) == Agent
  {
    var give := [GiveBack(session, owner), Release];
    var s1 := Apply(s, give[0]);
    assert give[1..] == [Release] && [Release][1..] == [];
    assert Run(s1, [Release]) == Run(Apply(s1, Release), []);
  }

  /** The identity table and its cached output stay bounded: one completion at most overshoots the cap. */
  lemma CacheIsBounded(steps: seq<Step>)
    requires Legal(START, steps)
    ensures |Run(START, steps).records| <= 1024
    ensures Run(START, steps).cachedBytes < 33_554_432 + 7_000_000
  {
    hide Run, TasksValid, FenceValid, InputsValid;
    Reach(steps);
  }
}
