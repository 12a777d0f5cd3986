/** What every run of the shared browser keeps. */
module BrowserFence {
  import opened Options
  import opened BrowserModel

  // ---- The invariant ----

  /** The task table and the identity records describe each other, and `active` is the one unfinished execute. */
  ghost predicate TaskValid(s: State, i: nat)
    requires i < |s.tasks|
  {
    var t := s.tasks[i];
    && t.key in s.records
    && s.records[t.key].task == i
    && s.records[t.key].terms == t.terms
    && (t.progress.Running? ==> t.waiter.Awaiting?)
    && (t.waiter.Done? <==> s.active != Some(i))
    && (t.waiter.Awaiting? <==> s.records[t.key].state.InFlight?)
    && (s.records[t.key].state.Completed? ==> t.waiter.Done? && t.progress == Finished(s.records[t.key].state.output))
  }

  ghost predicate TasksValid(s: State) {
    && (forall i: nat :: i < |s.tasks| ==> TaskValid(s, i))
    && (forall k :: k in s.records ==> s.records[k].task < |s.tasks| && s.tasks[s.records[k].task].key == k)
    && (s.active.Some? ==> s.active.value < |s.tasks|)
  }

  ghost predicate Idle(s: State) {
    forall i :: 0 <= i < |s.tasks| ==> !s.tasks[i].progress.Running?
  }

  ghost predicate FenceValid(s: State) {
    && (s.db.row.Some? && s.db.row.value.phase == Agent ==> s.db.row.value.session in s.db.returned)
    && (PhaseOf(s) in {Human, InputUncertain} ==> Idle(s))
    && match s.lock
       case Free => true
       case Fenced => Private(s) && s.active.None?
       case Draining(task) => Private(s) && task < |s.tasks| && s.active in {None, Some(task)}
       case Capturing => PhaseOf(s) == Human
       case Recorded(_) => PhaseOf(s) == Human
       case Dispatching(_) => PhaseOf(s) == Human
       case Retired(session) => s.db.row.Some? && s.db.row.value.session == session && session in s.db.returned
  }

  ghost predicate InputsValid(s: State) {
    && (forall i, j :: 0 <= i < j < |s.dispatched| ==> s.dispatched[i] != s.dispatched[j])
    && (forall id :: id in s.dispatched ==> id in s.db.inputs)
    && (s.lock.Recorded? ==> s.lock.id in s.db.inputs && s.lock.id !in s.dispatched)
  }

  ghost predicate CacheValid(s: State) {
    && |s.records| <= MAX_RECORDS
    && s.cachedBytes < CACHE_CAP + JSON_LIMIT
    && (s.active.Some? && s.active.value < |s.tasks| && s.tasks[s.active.value].waiter.Awaiting? ==>
          s.cachedBytes < CACHE_CAP)
  }

  ghost predicate Valid(s: State) {
    TasksValid(s) && FenceValid(s) && InputsValid(s) && CacheValid(s)
  }

  // ---- Each step keeps it ----

  lemma StartTasks(s: State, key: Identity, terms: string)
    requires TasksValid(s)
    ensures TasksValid(Started(s, key, terms))
  {
    var s' := Started(s, key, terms);
    if ExecuteReply(s, key, terms) == Waiting {
      hide ExecuteReply;
      forall i: nat | i < |s'.tasks| ensures TaskValid(s', i) {
        if i < |s.tasks| { assert TaskValid(s, i); }
      }
    }
  }

  /** One task moves on; its record and `active` move with it. */
  lemma TaskMoves(s: State, s': State, task: nat)
    requires TasksValid(s) && task < |s.tasks|
    requires |s'.tasks| == |s.tasks| && forall i :: 0 <= i < |s.tasks| && i != task ==> s'.tasks[i] == s.tasks[i]
    requires s'.tasks[task].key == s.tasks[task].key && s'.tasks[task].terms == s.tasks[task].terms
    requires s'.records.Keys == s.records.Keys
    requires forall k :: k in s.records && k != s.tasks[task].key ==> s'.records[k] == s.records[k]
    requires s'.active == s.active || (s.active == Some(task) && s'.active == None)
    requires TaskValid(s', task)
    ensures TasksValid(s')
  {
    assert TaskValid(s, task);
    forall i: nat | i < |s'.tasks| ensures TaskValid(s', i) {
      assert TaskValid(s, i);
    }
  }

  lemma ResumeTasks(s: State, task: nat, interrupted: bool)
    requires TasksValid(s) && Enabled(s, Resume(task, interrupted))
    ensures TasksValid(Resumed(s, task, interrupted))
  {
    assert TaskValid(s, task);
    var s' := Resumed(s, task, interrupted);
    assert s'.records.Keys == s.records.Keys;
    TaskMoves(s, s', task);
  }

  lemma StepTasks(s: State, step: Step)
    requires TasksValid(s) && Enabled(s, step)
    ensures TasksValid(Apply(s, step))
  {
    var s' := Apply(s, step);
    match step
    case Execute(key, terms) => StartTasks(s, key, terms);
    case PerformEnds(task, result) => assert TaskValid(s, task); TaskMoves(s, s', task);
    case Resume(task, interrupted) => ResumeTasks(s, task, interrupted);
    case Close(task) => assert TaskValid(s, task); TaskMoves(s, s', task);
    case Restart(_) =>
    case _ => SameTasks(s, s');
  }

  lemma SameTasks(s: State, s': State)
    requires TasksValid(s) && s'.tasks == s.tasks && s'.records == s.records && s'.active == s.active
    ensures TasksValid(s')
  {
    forall i: nat | i < |s'.tasks| ensures TaskValid(s', i) { assert TaskValid(s, i); }
  }

  lemma RunningIsActive(s: State)
    requires TasksValid(s)
    ensures forall i: nat :: i < |s.tasks| && s.tasks[i].progress.Running? ==> s.active == Some(i)
  {
    forall i: nat | i < |s.tasks| && s.tasks[i].progress.Running? ensures s.active == Some(i) {
      assert TaskValid(s, i);
    }
  }

  lemma StepFence(s: State, step: Step)
    requires TasksValid(s) && FenceValid(s) && Enabled(s, step)
    ensures FenceValid(Apply(s, step))
  {
    hide TasksValid, FenceValid, Enabled, Apply;
    match step
    case Execute(_, _) => ModelStepFence(s, step);
    case PerformEnds(_, _) => ModelStepFence(s, step);
    case Resume(_, _) => ModelStepFence(s, step);
    case Close(_) => ModelStepFence(s, step);
    case Cancelled(_) => ModelStepFence(s, step);
    case _ => PrivateStepFence(s, step);
  }

  predicate OfTheModel(step: Step) {
    step.Execute? || step.PerformEnds? || step.Resume? || step.Close? || step.Cancelled?
  }

  lemma ModelStepFence(s: State, step: Step)
    requires TasksValid(s) && FenceValid(s) && Enabled(s, step) && OfTheModel(step)
    ensures FenceValid(Apply(s, step))
  {
    RunningIsActive(s);
    hide TasksValid;
  }

  lemma PrivateStepFence(s: State, step: Step)
    requires TasksValid(s) && FenceValid(s) && Enabled(s, step) && !OfTheModel(step)
    ensures FenceValid(Apply(s, step))
  {
    RunningIsActive(s);
    hide TasksValid, TakeOverReply;
  }

  lemma StepInputs(s: State, step: Step)
    requires InputsValid(s) && Enabled(s, step)
    ensures InputsValid(Apply(s, step))
  {
    hide ExecuteReply, Releases, Suppresses, Settles, TakeOverReply, FrameReply, GiveBackReply;
  }

  lemma StepCache(s: State, step: Step)
    requires TasksValid(s) && CacheValid(s) && Enabled(s, step)
    ensures CacheValid(Apply(s, step))
  {
    hide TasksValid, CacheValid, Enabled, Apply;
    match step
    case Resume(task, interrupted) => ResumeCache(s, task, interrupted);
    case Close(_) => EndCache(s, step);
    case PerformEnds(_, _) => EndCache(s, step);
    case _ => OtherCache(s, step);
  }

  lemma ResumeCache(s: State, task: nat, interrupted: bool)
    requires TasksValid(s) && CacheValid(s) && Enabled(s, Resume(task, interrupted))
    ensures CacheValid(Apply(s, Resume(task, interrupted)))
  {
    assert TaskValid(s, task);
    assert Apply(s, Resume(task, interrupted)).records.Keys == s.records.Keys;
    hide TasksValid;
  }

  lemma EndCache(s: State, step: Step)
    requires TasksValid(s) && CacheValid(s) && Enabled(s, step) && (step.Close? || step.PerformEnds?)
    ensures CacheValid(Apply(s, step))
  {
    assert TaskValid(s, step.task);
  }

  lemma OtherCache(s: State, step: Step)
    requires CacheValid(s) && Enabled(s, step) && !step.Resume? && !step.Close? && !step.PerformEnds?
    ensures CacheValid(Apply(s, step))
  {
    hide TakeOverReply, FrameReply, InputReply, GiveBackReply, Settles;
  }

  lemma StepValid(s: State, step: Step)
    requires Valid(s) && Enabled(s, step)
    ensures Valid(Apply(s, step))
  {
    hide TasksValid, FenceValid, InputsValid, CacheValid, Apply, Enabled;
    StepTasks(s, step);
    StepFence(s, step);
    StepInputs(s, step);
    StepCache(s, step);
  }

  lemma {:induction false} RunValid(s: State, steps: seq<Step>)
    requires Valid(s) && Legal(s, steps)
    ensures Valid(Run(s, steps))
    decreases |steps|
  {
    hide Valid, Apply, Enabled;
    if steps != [] {
      StepValid(s, steps[0]);
      RunValid(Apply(s, steps[0]), steps[1..]);
    }
  }
}
