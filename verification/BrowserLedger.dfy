/** What the browser service answers, told from the history of a run: which outputs were released, whether the engine is
    up, who holds the fence, which inputs were accepted. */
module BrowserLedger {
  import opened Options
  import opened BrowserModel
  import opened BrowserFence
  import opened BrowserPromises

  // ---- Outputs ----

  /** The step is an `execute` that comes back with this output in time, the model in control, and the output not too
      long. */
  ghost predicate ComesBack(s: State, step: Step, output: Output) {
    && step.Resume? && !step.interrupted && step.task < |s.tasks|
    && s.tasks[step.task].progress == Finished(output) && PhaseOf(s) == Agent && output.size <= 7_000_000
  }

  ghost function BackAfter(s: State, step: Step, key: Identity, terms: string, was: Option<Output>): Option<Output> {
    if step.Restart? then None
    else if step.Resume? && step.task < |s.tasks| && s.tasks[step.task].key == key
         && s.tasks[step.task].terms == terms && s.tasks[step.task].progress.Finished?
         && ComesBack(s, step, s.tasks[step.task].progress.output)
    then Some(s.tasks[step.task].progress.output)
    else was
  }

  /** The output with which the action of that identity and those terms last came back, since the last restart. */
  ghost function CameBack(s: State, steps: seq<Step>, key: Identity, terms: string, was: Option<Output>): Option<Output>
    requires Legal(s, steps)
    decreases |steps|
  {
    if steps == [] then was
    else CameBack(Apply(s, steps[0]), steps[1..], key, terms, BackAfter(s, steps[0], key, terms, was))
  }

  ghost predicate Recalls(s: State, key: Identity, terms: string, was: Option<Output>) {
    forall output ::
      was == Some(output)
      <==> key in s.records && s.records[key].terms == terms && s.records[key].state == Completed(output)
  }

  lemma RecallStep(s: State, step: Step, key: Identity, terms: string, was: Option<Output>)
    requires TasksValid(s) && Enabled(s, step) && Recalls(s, key, terms, was)
    ensures Recalls(Apply(s, step), key, terms, BackAfter(s, step, key, terms, was))
  {
    match step
    case Resume(task, interrupted) => RecallResume(s, task, interrupted, key, terms, was);
    case Execute(k, t) => RecallExecute(s, k, t, key, terms, was);
    case Restart(_) =>
    case PerformEnds(_, _) => assert Apply(s, step).records == s.records;
    case Close(_) => assert Apply(s, step).records == s.records;
    case _ => assert Apply(s, step).records == s.records;
  }

  lemma RecallExecute(s: State, k: Identity, t: string, key: Identity, terms: string, was: Option<Output>)
    requires Recalls(s, key, terms, was)
    ensures Recalls(Started(s, k, t), key, terms, was)
  {}

  lemma RecallResume(
    s: State, task: nat, interrupted: bool, key: Identity, terms: string, was: Option<Output>)
    requires TasksValid(s) && Enabled(s, Resume(task, interrupted)) && Recalls(s, key, terms, was)
    ensures Recalls(Resumed(s, task, interrupted), key, terms,
                    BackAfter(s, Resume(task, interrupted), key, terms, was))
  {
    assert TaskValid(s, task);
    hide TasksValid;
    var s' := Resumed(s, task, interrupted);
    if s.tasks[task].key != key {
      assert key in s'.records <==> key in s.records;
    }
  }

  lemma {:induction false} RunRecalls(s: State, steps: seq<Step>, key: Identity, terms: string, was: Option<Output>)
    requires Valid(s) && Legal(s, steps) && Recalls(s, key, terms, was)
    ensures Recalls(Run(s, steps), key, terms, CameBack(s, steps, key, terms, was))
    decreases |steps|
  {
    hide Recalls, FenceValid, InputsValid, CacheValid, Enabled, Apply, BackAfter;
    if steps != [] {
      var step := steps[0];
      RecallStep(s, step, key, terms, was);
      StepValid(s, step);
      RunRecalls(Apply(s, step), steps[1..], key, terms, BackAfter(s, step, key, terms, was));
    }
  }

  // ---- Whether the engine is up, and how much it keeps ----

  /** A process is up as it started, until it is stopped or an action fails: is interrupted, raises, or gives too much.
      */
  ghost function UpAfter(s: State, steps: seq<Step>, was: bool): bool
    requires Legal(s, steps)
    decreases |steps|
  {
    if steps == [] then was
    else
      var step := steps[0];
      UpAfter(Apply(s, step), steps[1..],
        match step
        case Restart(up) => up
        case Stop => false
        case Resume(task, interrupted) =>
          was && !interrupted && task < |s.tasks| && s.tasks[task].progress.Finished?
          && (PhaseOf(s) == Agent ==> s.tasks[task].progress.output.size <= 7_000_000)
        case _ => was)
  }

  lemma {:induction false} RunUp(s: State, steps: seq<Step>)
    requires Legal(s, steps)
    ensures Run(s, steps).ready == UpAfter(s, steps, s.ready)
    decreases |steps|
  {
    hide ExecuteReply, TakeOverReply, FrameReply, InputReply, GiveBackReply, Settles;
    if steps != [] { RunUp(Apply(s, steps[0]), steps[1..]); }
  }

  /** The sizes of the outputs that came back since the last restart, added up. */
  ghost function KeptAfter(s: State, steps: seq<Step>, was: nat): nat
    requires Legal(s, steps)
    decreases |steps|
  {
    if steps == [] then was
    else
      var step := steps[0];
      KeptAfter(Apply(s, step), steps[1..],
        if step.Restart? then 0
        else if step.Resume? && step.task < |s.tasks| && s.tasks[step.task].progress.Finished?
             && ComesBack(s, step, s.tasks[step.task].progress.output)
        then was + s.tasks[step.task].progress.output.size
        else was)
  }

  lemma {:induction false} RunKept(s: State, steps: seq<Step>)
    requires Legal(s, steps)
    ensures Run(s, steps).cachedBytes == KeptAfter(s, steps, s.cachedBytes)
    decreases |steps|
  {
    hide ExecuteReply, TakeOverReply, FrameReply, InputReply, GiveBackReply, Settles;
    if steps != [] { RunKept(Apply(s, steps[0]), steps[1..]); }
  }

  // ---- execute ----

  /** The identity was started in this process, under these terms. */
  predicate StartedAs(s: State, key: Identity, terms: string) {
    exists i :: 0 <= i < |s.tasks| && s.tasks[i].key == key && s.tasks[i].terms == terms
  }

  predicate NeverStarted(s: State, key: Identity) { forall i :: 0 <= i < |s.tasks| ==> s.tasks[i].key != key }

  predicate Busy(s: State) { exists i :: 0 <= i < |s.tasks| && s.tasks[i].waiter != Done }

  /** The answers of `execute`, by the history of the process. */
  ghost predicate Answers(
    s: State, key: Identity, terms: string, up: bool, kept: nat, back: Option<Output>, reply: Reply) {
    reply ==
      if PhaseOf(s) != Agent then Refused(PrivateControl)
      else if !NeverStarted(s, key) then
        if !StartedAs(s, key, terms) then Refused(TermsMismatch)
        else if back.Some? then Gives(back.value)
        else Refused(Unresolved)
      else if !up || Busy(s) then Refused(Unavailable)
      else if |s.tasks| >= 1024 || kept >= 33_554_432 then Refused(Full)
      else Waiting
  }

  lemma RecordsAreTasks(s: State, key: Identity)
    requires TasksValid(s)
    ensures key in s.records <==> !NeverStarted(s, key)
    ensures key in s.records ==> forall terms :: s.records[key].terms == terms <==> StartedAs(s, key, terms)
    ensures s.active.Some? <==> Busy(s)
    ensures |s.records| == |s.tasks|
  {
    OneRecordEach(s, |s.tasks|);
    RecordTask(s, key);
    ActiveIsBusy(s);
  }

  lemma RecordTask(s: State, key: Identity)
    requires TasksValid(s)
    ensures key in s.records <==> !NeverStarted(s, key)
    ensures key in s.records ==> forall terms :: s.records[key].terms == terms <==> StartedAs(s, key, terms)
  {
    if key in s.records {
      var i := s.records[key].task;
      assert s.tasks[i].key == key && TaskValid(s, i);
      forall terms ensures s.records[key].terms == terms <==> StartedAs(s, key, terms) {
        if StartedAs(s, key, terms) {
          var j :| 0 <= j < |s.tasks| && s.tasks[j].key == key && s.tasks[j].terms == terms;
          assert TaskValid(s, j);
        }
      }
    } else {
      forall i: nat | i < |s.tasks| ensures s.tasks[i].key != key { assert TaskValid(s, i); }
    }
  }

  lemma ActiveIsBusy(s: State)
    requires TasksValid(s)
    ensures s.active.Some? <==> Busy(s)
  {
    if s.active.Some? { assert TaskValid(s, s.active.value); }
    if Busy(s) {
      var i :| 0 <= i < |s.tasks| && s.tasks[i].waiter != Done;
      assert TaskValid(s, i);
    }
  }

  lemma {:induction false} OneRecordEach(s: State, n: nat)
    requires TasksValid(s) && n <= |s.tasks|
    ensures |set k | k in s.records && s.records[k].task < n| == n
    ensures n == |s.tasks| ==> |s.records| == n
    decreases n
  {
    var these := set k | k in s.records && s.records[k].task < n;
    if n == 0 {
      assert these == {};
    } else {
      var fewer := set k | k in s.records && s.records[k].task < n - 1;
      OneRecordEach(s, n - 1);
      assert TaskValid(s, n - 1);
      var last := s.tasks[n - 1].key;
      assert these == fewer + {last} && last !in fewer;
    }
    if n == |s.tasks| {
      assert these == s.records.Keys;
    }
  }

  /** Over every run, with any number of restarts, `execute` answers by the history alone: a completed identity is given
      its output back whenever the model has control and asks under the same terms, an identity that started and did not
      come back is never given one nor started again, and a new one is started exactly if the engine is up, idle and has
      room. */
  lemma ExecuteAnswers(steps: seq<Step>, key: Identity, terms: string)
    requires Legal(START, steps) && Enabled(Run(START, steps), Execute(key, terms))
    ensures var s := Run(START, steps);
      Answers(s, key, terms, UpAfter(START, steps, false), KeptAfter(START, steps, 0),
              CameBack(START, steps, key, terms, None), ReplyOf(s, Execute(key, terms)))
  {
    hide Run, Legal, FenceValid, InputsValid, CacheValid, TasksValid, StartedAs, NeverStarted, Busy;
    Reach(steps);
    var s := Run(START, steps);
    RunUp(START, steps);
    RunKept(START, steps);
    StartValid();
    RunRecalls(START, steps, key, terms, None);
    RecordsAreTasks(s, key);
    assert Recalls(s, key, terms, CameBack(START, steps, key, terms, None));
    if key in s.records && s.records[key].terms == terms && s.records[key].state.Completed? {
      assert CameBack(START, steps, key, terms, None) == Some(s.records[key].state.output);
    }
  }

  /** A cancel request, once it answers, says whether the action came back; it knows every identity that was started. */
  lemma CancelAnswers(steps: seq<Step>, key: Identity, terms: string)
    requires Legal(START, steps) && Enabled(Run(START, steps), Cancelled(key))
    ensures var s := Run(START, steps); var reply := ReplyOf(s, Cancelled(key));
      && (NeverStarted(s, key) <==> reply == Refused(UnknownIdentity))
      && (StartedAs(s, key, terms) ==> reply == Answer(CameBack(START, steps, key, terms, None).Some?))
      && Apply(s, Cancelled(key)) == s
  {
    hide Run, Legal, FenceValid, InputsValid, CacheValid, TasksValid, StartedAs, NeverStarted;
    Reach(steps);
    var s := Run(START, steps);
    StartValid();
    RunRecalls(START, steps, key, terms, None);
    RecordTask(s, key);
    StartedIsKnown(s, key, terms);
    RecallsWhether(s, key, terms, CameBack(START, steps, key, terms, None));
  }

  lemma RecallsWhether(s: State, key: Identity, terms: string, was: Option<Output>)
    requires Recalls(s, key, terms, was)
    ensures was.Some? <==> key in s.records && s.records[key].terms == terms && s.records[key].state.Completed?
  {
    if was.None? && key in s.records && s.records[key].terms == terms {
      assert forall output :: s.records[key].state != Completed(output);
    }
  }

  lemma StartedIsKnown(s: State, key: Identity, terms: string)
    ensures StartedAs(s, key, terms) ==> !NeverStarted(s, key)
  {}

  /** A retry after the output came back gets that output, until the process restarts. */
  lemma RetryGetsTheOutput(steps: seq<Step>, task: nat, output: Output, later: seq<Step>, terms: string)
    requires Legal(START, steps) && Enabled(Run(START, steps), Resume(task, false))
    requires ComesBack(Run(START, steps), Resume(task, false), output)
    requires Legal(Apply(Run(START, steps), Resume(task, false)), later) && forall x :: x in later ==> !x.Restart?
    ensures var s := Run(START, steps); var t := s.tasks[task];
      var now := Run(Apply(s, Resume(task, false)), later);
      && ReplyOf(s, Resume(task, false)) == Gives(output)
      && (PhaseOf(now) == Agent ==> ExecuteReply(now, t.key, t.terms) == Gives(output))
      && (PhaseOf(now) == Agent && terms != t.terms ==> ExecuteReply(now, t.key, terms) == Refused(TermsMismatch))
  {
    hide Run, Legal;
    Reach(steps);
    var s := Run(START, steps);
    assert TaskValid(s, task);
    StepValid(s, Resume(task, false));
    hide Valid, Enabled, Apply;
    OutcomesAreFinal(Resumed(s, task, false), later, s.tasks[task].key);
  }

  /** Exactly one running action is added, under those terms, where the answer is to wait; otherwise nothing changes. */
  lemma ExecuteStartsOne(steps: seq<Step>, key: Identity, terms: string)
    requires Legal(START, steps) && Enabled(Run(START, steps), Execute(key, terms))
    ensures var s := Run(START, steps); var s' := Apply(s, Execute(key, terms));
      if ReplyOf(s, Execute(key, terms)) == Waiting
      then s'.tasks == s.tasks + [Task(key, terms, Running, Awaiting)] && s'.active == Some(|s.tasks|)
           && s'.db == s.db && s'.ready == s.ready
      else s' == s
  {
    hide Run, Legal;
  }

  // ---- The fence ----

  /** The session given back by the step, if its holder gives one back. */
  ghost function GivesBack(s: State, step: Step): set<Session> {
    if step.GiveBack? && s.db.row.Some? && s.db.row.value.session == step.session && s.db.row.value.owner == step.owner
    then {step.session} else {}
  }

  /** The sessions whose holder has given control back, ever. */
  ghost function GivenBack(s: State, steps: seq<Step>): set<Session>
    requires Legal(s, steps)
    decreases |steps|
  {
    if steps == [] then {} else GivesBack(s, steps[0]) + GivenBack(Apply(s, steps[0]), steps[1..])
  }

  lemma StepGivenBack(s: State, step: Step)
    requires Enabled(s, step)
    ensures Apply(s, step).db.returned == s.db.returned + GivesBack(s, step)
  {
    hide ExecuteReply, TakeOverReply, FrameReply, InputReply, Settles, Releases, Suppresses;
  }

  lemma {:induction false} RunGivenBack(s: State, steps: seq<Step>)
    requires Legal(s, steps)
    ensures Run(s, steps).db.returned == s.db.returned + GivenBack(s, steps)
    decreases |steps|
  {
    hide Enabled, Apply, GivesBack;
    if steps != [] {
      StepGivenBack(s, steps[0]);
      RunGivenBack(Apply(s, steps[0]), steps[1..]);
    }
  }

  /** A take-over is admitted if and only if its session was never given back and nobody else holds the fence. Then the
      fence is that session's and owner's, in the phase it had if it was theirs already, and the wait is for the one
      unfinished action. */
  lemma TakeOverExactlyWhen(steps: seq<Step>, session: Session, owner: Owner)
    requires Legal(START, steps) && Enabled(Run(START, steps), TakeOver(session, owner))
    ensures var s := Run(START, steps); var s' := Apply(s, TakeOver(session, owner));
      var mine := PhaseOf(s) != Agent && s.db.row == Some(Row(session, owner, PhaseOf(s)));
      && (ReplyOf(s, TakeOver(session, owner)) == Waiting
          <==> session !in GivenBack(START, steps) && (PhaseOf(s) == Agent || mine))
      && (if ReplyOf(s, TakeOver(session, owner)) == Waiting
          then s'.db == s.db.(row := Some(Row(session, owner, if mine then PhaseOf(s) else TakingOver)))
               && s'.lock == (if s.active.Some? then Draining(s.active.value) else Fenced)
          else s' == s)
  {
    hide Run, Legal;
    Reach(steps);
    hide TasksValid, InputsValid, CacheValid;
    RunGivenBack(START, steps);
  }

  /** Control reaches the human if and only if the wait ended with a finished action, or none was waited for, and the
      browser is usable; otherwise the fence stays as it was. */
  lemma HumanExactlyWhen(steps: seq<Step>, timedOut: bool, connected: bool)
    requires Legal(START, steps) && Enabled(Run(START, steps), Settle(timedOut, connected))
    ensures var s := Run(START, steps); var s' := Apply(s, Settle(timedOut, connected));
      var drained := s.lock.Fenced? || (!timedOut && s.tasks[s.lock.task].progress.Finished?);
      && s'.lock == Free && s.db.row.Some?
      && s'.db == (if drained && s.ready && connected
                   then s.db.(row := Some(Row(s.db.row.value.session, s.db.row.value.owner, Human))) else s.db)
      && ReplyOf(s, Settle(timedOut, connected))
           == (if drained && s.ready && connected then InPhase(Human) else Refused(Unavailable))
  {
    hide Run, Legal;
    Reach(steps);
    hide TasksValid, InputsValid, CacheValid;
  }

  /** From agent control, on an idle engine that is up, a take-over by a new session ends in human control. */
  lemma TakeOverSucceeds(steps: seq<Step>, session: Session, owner: Owner)
    requires Legal(START, steps) && Run(START, steps).lock.Free? && PhaseOf(Run(START, steps)) == Agent
    requires session !in GivenBack(START, steps) && Run(START, steps).ready && !Busy(Run(START, steps))
    ensures var s := Run(START, steps); var way := [TakeOver(session, owner), Settle(false, true)];
      Legal(s, way) && Run(s, way).db.row == Some(Row(session, owner, Human))
  {
    hide Legal, Run, FenceValid, InputsValid, CacheValid, TasksValid, Busy, GivenBack, Enabled, Apply, ReplyOf;
    Reach(steps);
    var s := Run(START, steps);
    ActiveIsBusy(s);
    FreeIsOpen(s, session, owner);
    TakeOverExactlyWhen(steps, session, owner);
    var s1 := Apply(s, TakeOver(session, owner));
    TakeOverKeepsUp(s, session, owner);
    IdleSettles(s1);
    TwoSteps(s, TakeOver(session, owner), Settle(false, true));
  }

  lemma FreeIsOpen(s: State, session: Session, owner: Owner)
    requires s.lock.Free?
    ensures Enabled(s, TakeOver(session, owner))
  {}

  lemma TakeOverKeepsUp(s: State, session: Session, owner: Owner)
    requires Enabled(s, TakeOver(session, owner))
    ensures Apply(s, TakeOver(session, owner)).ready == s.ready
  {}

  lemma IdleSettles(s: State)
    requires s.lock.Fenced? && s.ready && s.db.row.Some?
    ensures Enabled(s, Settle(false, true))
    ensures Apply(s, Settle(false, true)).db.row == Some(s.db.row.value.(phase := Human))
  {}

  lemma TwoSteps(s: State, a: Step, b: Step)
    requires Enabled(s, a) && Enabled(Apply(s, a), b)
    ensures Legal(s, [a, b]) && Run(s, [a, b]) == Apply(Apply(s, a), b)
  {
    hide Enabled, Apply;
    assert [a, b][1..] == [b] && [b][1..] == [];
    var s1 := Apply(s, a);
    assert Legal(Apply(s1, b), []);
    assert Legal(s1, [b]) && Run(s1, [b]) == Run(Apply(s1, b), []);
  }

  /** A frame, an input or a give-back is answered as a mismatch if and only if the row is not exactly this session's
      and this owner's; a frame is taken exactly while its holder has human control. */
  lemma HolderExactlyWhen(s: State, session: Session, owner: Owner)
    requires Enabled(s, GiveBack(session, owner))
    ensures var row := s.db.row; var mine := row.Some? && row.value == Row(session, owner, row.value.phase);
      && (ReplyOf(s, GiveBack(session, owner)) == if mine then Waiting else Refused(SessionMismatch))
      && (ReplyOf(s, Frame(session, owner)) ==
          if !mine then Refused(SessionMismatch)
          else if row.value.phase == Human then Waiting
          else Refused(NotHuman))
      && (mine ==> Apply(s, GiveBack(session, owner)).lock == Retired(session))
      && (!mine ==> Apply(s, GiveBack(session, owner)) == s)
  {}

  // ---- Inputs ----

  /** The identities of the inputs accepted so far, over all restarts: well formed, from the holder, while a human has
      control, and new. */
  ghost function AcceptedInputs(s: State, steps: seq<Step>, was: seq<RequestId>): seq<RequestId>
    requires Legal(s, steps)
    decreases |steps|
  {
    if steps == [] then was
    else
      var step := steps[0];
      AcceptedInputs(Apply(s, step), steps[1..],
        if step.Input? && step.wellFormed && step.id !in was && s.db.row == Some(Row(step.session, step.owner, Human))
        then was + [step.id] else was)
  }

  ghost predicate KeepsInputs(s: State, was: seq<RequestId>) {
    && (forall id :: id in was <==> id in s.db.inputs)
    && (s.lock.Recorded? ==> was != [] && s.lock.id == was[|was| - 1])
  }

  lemma {:induction false} RunAccepted(s: State, steps: seq<Step>, was: seq<RequestId>)
    requires Legal(s, steps) && KeepsInputs(s, was)
    ensures KeepsInputs(Run(s, steps), AcceptedInputs(s, steps, was))
    decreases |steps|
  {
    if steps != [] {
      var step := steps[0];
      var now := if step.Input? && step.wellFormed && step.id !in was
                    && s.db.row == Some(Row(step.session, step.owner, Human)) then was + [step.id] else was;
      StepAccepted(s, step, was, now);
      hide Enabled, Apply, KeepsInputs;
      RunAccepted(Apply(s, step), steps[1..], now);
    }
  }

  lemma StepAccepted(s: State, step: Step, was: seq<RequestId>, now: seq<RequestId>)
    requires Enabled(s, step) && KeepsInputs(s, was)
    requires now == if step.Input? && step.wellFormed && step.id !in was
                       && s.db.row == Some(Row(step.session, step.owner, Human)) then was + [step.id] else was
    ensures KeepsInputs(Apply(s, step), now)
  {
    hide ExecuteReply, TakeOverReply, GiveBackReply, Settles, Releases, Suppresses;
  }

  /** An input is accepted if and only if it is well formed, comes from the holder while a human has control, and its
      identity was never accepted before, in any process. The next thing that happens is that it is sent. */
  lemma InputExactlyWhen(
    steps: seq<Step>, session: Session, owner: Owner, id: RequestId, wellFormed: bool)
    requires Legal(START, steps) && Enabled(Run(START, steps), Input(session, owner, id, wellFormed))
    ensures var s := Run(START, steps); var step := Input(session, owner, id, wellFormed); var s' := Apply(s, step);
      && (ReplyOf(s, step) == Waiting
          <==> wellFormed && s.db.row == Some(Row(session, owner, Human)) && id !in AcceptedInputs(START, steps, []))
      && (ReplyOf(s, step) == Waiting ==>
            && Enabled(s', Dispatch) && Apply(s', Dispatch).dispatched == s.dispatched + [id]
            && forall other :: Enabled(s', other) ==> other == Dispatch || other.Restart?)
      && (ReplyOf(s, step) != Waiting ==> s' == s)
  {
    hide Run, Legal;
    RunAccepted(START, steps, []);
  }

  /** A failed page call, and only that, leaves the effect of an input uncertain. */
  lemma UncertainExactlyWhen(s: State, step: Step)
    requires FenceValid(s) && Enabled(s, step) && PhaseOf(s) != InputUncertain
    ensures PhaseOf(Apply(s, step)) == InputUncertain <==> step == InputDone(false)
  {
    hide ExecuteReply, TakeOverReply, FrameReply, GiveBackReply, InputReply, Releases, Suppresses, Settles;
  }

  // ---- Restart ----

  /** A new process keeps the database and nothing else: an identity that was performed is performed anew if it is asked
      for again. */
  lemma RestartForgets(steps: seq<Step>, up: bool, key: Identity, terms: string)
    requires Legal(START, steps)
    ensures var s := Run(START, steps); var s' := Apply(s, Restart(up));
      && s'.db == s.db && s'.dispatched == s.dispatched && s'.ready == up && s'.lock == Free
      && (PhaseOf(s) == Agent && up ==>
            ReplyOf(s', Execute(key, terms)) == Waiting
            && Apply(s', Execute(key, terms)).tasks == [Task(key, terms, Running, Awaiting)])
  {
    hide Run, Legal;
  }
}
