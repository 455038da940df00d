/** Every atomic step of a run keeps the invariant of `WorkflowRuns`. */
module WorkflowInvariant {
  import opened Prelude
  import opened Sums
  import opened WorkflowTypes
  import opened WorkflowReplay
  import opened WorkflowMachine
  import opened WorkflowRuns

  // ---------------------------------------------------------------- small facts

  lemma UndoStepsSnoc(jobs: seq<Job>, job: Job)
    ensures UndoSteps(jobs + [job]) == UndoSteps(jobs) + if job.kind.UndoJob? then [job.kind.step] else []
  {
  }

  lemma {:induction false} UndoStepsKinds(jobs: seq<Job>, other: seq<Job>)
    requires |jobs| == |other| && forall j :: 0 <= j < |jobs| ==> jobs[j].kind == other[j].kind
    ensures UndoSteps(jobs) == UndoSteps(other)
  {
    if jobs != [] {
      UndoStepsKinds(jobs[..|jobs| - 1], other[..|jobs| - 1]);
    }
  }

  lemma {:induction false} DescendingSame(steps: seq<StepRow>, other: seq<StepRow>, n: nat)
    requires n <= |steps| && n <= |other|
    requires forall i :: 0 <= i < n ==> Undoable(steps[i]) == Undoable(other[i])
    ensures Descending(steps, n) == Descending(other, n)
  {
    if n > 0 {
      DescendingSame(steps, other, n - 1);
    }
  }

  lemma {:induction false} DescendingNone(steps: seq<StepRow>, lo: nat, hi: nat)
    requires lo <= hi <= |steps| && forall i :: lo <= i < hi ==> !Undoable(steps[i])
    ensures Descending(steps, hi) == Descending(steps, lo)
  {
    if lo < hi {
      DescendingNone(steps, lo, hi - 1);
    }
  }

  lemma FindStepIs(r: Run, n: nat)
    requires Linked(r) && n < |r.steps|
    ensures FindStep(r.steps, n) == n
  {
    assert StepInv(r, n);
    var i := FindStep(r.steps, n);
    if i < |r.steps| {
      assert StepInv(r, i);
    }
  }

  // ---------------------------------------------------------------- one job changes phase

  /** Phase changes that neither settle a step nor end an unwind token. */
  predicate HarmlessPhase(r: Run, j: nat, p: Phase)
    requires j < |r.jobs|
  {
    var job := r.jobs[j];
    || (!Internal(job.kind) && !job.phase.Delivered? && !p.Delivered?)
    || (p.Delivered? && (job.kind.AdvanceJob? || job.kind.NotifyJob?))
    || (p.Delivered? && job.kind.ForwardJob? && job.kind.gen < r.wf.generationNumber)
  }

  lemma PhaseKeepsLinks(r: Run, j: nat, p: Phase)
    requires Linked(r) && j < |r.jobs| && HarmlessPhase(r, j, p)
    ensures Linked(SetPhase(r, j, p))
  {
    var s := SetPhase(r, j, p);
    assert JobInv(r, j);
    forall i | 0 <= i < |s.steps| ensures StepInv(s, i) {
      assert StepInv(r, i);
    }
    forall k | 0 <= k < |s.jobs| ensures JobInv(s, k) {
      assert JobInv(r, k);
    }
  }

  lemma PhaseKeepsSaga(r: Run, j: nat, p: Phase)
    requires Linked(r) && SagaOk(r) && j < |r.jobs| && HarmlessPhase(r, j, p)
    ensures SagaOk(SetPhase(r, j, p))
  {
    UndoStepsKinds(r.jobs, SetPhase(r, j, p).jobs);
    assert Frontier(r) < |r.steps| ==> StepInv(r, Frontier(r));
  }

  lemma PhaseKeepsCore(r: Run, j: nat, p: Phase)
    requires Core(r) && j < |r.jobs| && HarmlessPhase(r, j, p)
    ensures Core(SetPhase(r, j, p))
  {
    PhaseKeepsLinks(r, j, p);
    PhaseKeepsSaga(r, j, p);
    SumUpdate(r.jobs, j, SetPhase(r, j, p).jobs[j], TokenWeight());
    SumUpdate(r.jobs, j, SetPhase(r, j, p).jobs[j], NoticeWeight());
  }

  lemma PhaseKeepsInv(h: Handler, r: Run, j: nat, p: Phase)
    requires Inv(h, r) && j < |r.jobs|
    requires (!Internal(r.jobs[j].kind) && !r.jobs[j].phase.Delivered? && !p.Delivered?)
          || (p.Delivered? && r.jobs[j].kind.NotifyJob?)
    ensures Inv(h, SetPhase(r, j, p))
  {
    PhaseKeepsCore(r, j, p);
    if r.wf.state.Running? && Settled(r.steps) {
      var k :| 0 <= k < |r.jobs| && r.jobs[k].kind.AdvanceJob? && r.jobs[k].phase.Queued?;
      assert SetPhase(r, j, p).jobs[k] == r.jobs[k];
    }
  }

  /** An internal job is appended: nothing in the core but the token and notice counts can change. */
  lemma EnqueueInternal(r: Run, job: Job)
    requires Linked(r) && SagaOk(r) && Internal(job.kind) && job.phase.Queued?
    ensures Linked(Enqueue(r, job)) && SagaOk(Enqueue(r, job))
    ensures Sum(Enqueue(r, job).jobs, TokenWeight()) == Sum(r.jobs, TokenWeight()) + TokenWeight()(job)
    ensures Sum(Enqueue(r, job).jobs, NoticeWeight()) == Sum(r.jobs, NoticeWeight()) + NoticeWeight()(job)
  {
    var s := Enqueue(r, job);
    SumSnoc(r.jobs, job, TokenWeight());
    SumSnoc(r.jobs, job, NoticeWeight());
    UndoStepsSnoc(r.jobs, job);
    forall i | 0 <= i < |s.steps| ensures StepInv(s, i) {
      assert StepInv(r, i);
    }
    forall k | 0 <= k < |s.jobs| ensures JobInv(s, k) {
      if k < |r.jobs| {
        assert JobInv(r, k);
      }
    }
  }

  /** A queued `_advance` keeps a run from being stranded. */
  lemma AdvanceQueued(r: Run)
    requires |r.jobs| > 0 && r.jobs[|r.jobs| - 1] == ADVANCE
    ensures NotStranded(r)
  {
  }

  // ---------------------------------------------------------------- dispatching new steps

  ghost predicate Dispatchable(ns: NewStep) {
    ns.kind.WaitForEvent? ==> ns.opts.compensateFnPath.None?
  }

  /** While a run is running nothing has been compensated. */
  lemma {:induction false} NoUndoJobs(r: Run, n: nat)
    requires Linked(r) && r.wf.state.Running? && n <= |r.jobs|
    ensures UndoSteps(r.jobs[..n]) == []
  {
    if n > 0 {
      assert JobInv(r, n - 1);
      assert r.jobs[..n][..n - 1] == r.jobs[..n - 1];
      NoUndoJobs(r, n - 1);
    }
  }

  predicate Untouched(steps: seq<StepRow>) {
    forall i :: 0 <= i < |steps| ==> steps[i].compensationJobId.None? && !steps[i].compensated
  }

  lemma RunningIsUntouched(r: Run)
    requires Linked(r) && r.wf.state.Running?
    ensures UndoSteps(r.jobs) == [] && Untouched(r.steps)
  {
    NoUndoJobs(r, |r.jobs|);
    assert r.jobs[..|r.jobs|] == r.jobs;
    forall i | 0 <= i < |r.steps| ensures r.steps[i].compensationJobId.None? && !r.steps[i].compensated {
      assert StepInv(r, i);
      assert r.steps[i].compensationJobId.Some? ==> JobInv(r, r.steps[i].compensationJobId.value);
    }
  }

  lemma UntouchedIsSagaOk(r: Run)
    requires UndoSteps(r.jobs) == [] && Untouched(r.steps)
    ensures SagaOk(r)
  {
  }

  /** Adding a row, with or without its job, keeps the counts of waiting events and parked steps equal. */
  lemma StartStepPairs(r: Run, ns: NewStep)
    requires Paired(r)
    ensures Paired(StartStep(r, ns))
  {
  }

  lemma StartStepLinks(r: Run, ns: NewStep)
    requires Linked(r) && r.wf.state.Running? && ns.stepNumber == |r.steps| && Dispatchable(ns)
    ensures Linked(StartStep(r, ns))
  {
    var s := StartStep(r, ns);
    forall i | 0 <= i < |s.steps| ensures StepInv(s, i) {
      if i < |r.steps| {
        assert StepInv(r, i);
      }
    }
    forall k | 0 <= k < |s.jobs| ensures JobInv(s, k) {
      if k < |r.jobs| {
        assert JobInv(r, k);
      }
    }
  }

  lemma StartStepKeepsCore(r: Run, ns: NewStep)
    requires Core(r) && r.wf.state.Running? && ns.stepNumber == |r.steps| && Dispatchable(ns)
    ensures Core(StartStep(r, ns))
  {
    var s := StartStep(r, ns);
    StartStepPairs(r, ns);
    StartStepLinks(r, ns);
    RunningIsUntouched(s);
    UntouchedIsSagaOk(s);
    if !ns.kind.WaitForEvent? {
      var job := ForwardFor(ns, r.wf.generationNumber);
      SumSnoc(r.jobs, job, TokenWeight());
      SumSnoc(r.jobs, job, NoticeWeight());
    }
  }

  /** What the dispatch loop appends to the journal. */
  lemma {:induction false} StartStepsRows(r: Run, ns: seq<NewStep>)
    ensures var s := StartSteps(r, ns);
            && s.wf == r.wf && |s.steps| == |r.steps| + |ns| && s.steps[..|r.steps|] == r.steps
            && (forall i :: 0 <= i < |ns| ==> AnswersTo(s.steps[|r.steps| + i], ns[i]))
    decreases |ns|
  {
    if ns == [] {
      assert r.steps[..|r.steps|] == r.steps;
    } else {
      var front := ns[..|ns| - 1];
      StartStepsRows(r, front);
      var mid, s := StartSteps(r, front), StartSteps(r, ns);
      assert s.steps[..|mid.steps|] == mid.steps;
      assert s.steps[..|r.steps|] == mid.steps[..|r.steps|];
      forall i | 0 <= i < |ns| ensures AnswersTo(s.steps[|r.steps| + i], ns[i]) {
        if i < |front| {
          assert front[i] == ns[i] && s.steps[|r.steps| + i] == mid.steps[|r.steps| + i];
        }
      }
    }
  }

  /** Dispatching a batch of consecutively numbered steps. */
  lemma {:induction false} StartStepsKeepsCore(r: Run, ns: seq<NewStep>)
    requires Core(r) && r.wf.state.Running?
    requires forall i :: 0 <= i < |ns| ==> ns[i].stepNumber == |r.steps| + i && Dispatchable(ns[i])
    ensures Core(StartSteps(r, ns))
    decreases |ns|
  {
    if ns != [] {
      var front := ns[..|ns| - 1];
      StartStepsKeepsCore(r, front);
      StartStepsRows(r, front);
      StartStepKeepsCore(StartSteps(r, front), ns[|ns| - 1]);
    }
  }

  /** A freshly journaled row stands for the new step. */
  predicate AnswersTo(row: StepRow, ns: NewStep) {
    row.name == ns.name && row.kind == ns.kind && row.args == ns.args && row.state.Pending?
  }

  // ---------------------------------------------------------------- the journal keeps its shape

  lemma {:induction false} EmittedStepsAreDispatchable(h: Handler, journal: seq<StepRow>, pos: nat, now: int)
    requires pos <= |journal| && SettledTo(journal, pos)
    ensures var out := ReplayFrom(h, journal, pos, now);
            out.Suspended? ==> forall i :: 0 <= i < |out.newSteps| ==> Dispatchable(out.newSteps[i])
    decreases |journal| - pos
  {
    var a := h(Seen(journal, pos));
    if a.Await? && |journal| >= pos + |Wave(a)| && SettledTo(journal, pos + |Wave(a)|) {
      EmittedStepsAreDispatchable(h, journal, pos + |Wave(a)|, now);
    }
  }

  /** Journaling any leading part of what a replay emits keeps the shape. */
  lemma {:induction false} ExtendShape(h: Handler, journal: seq<StepRow>, longer: seq<StepRow>, pos: nat, now: int)
    requires pos <= |journal| <= |longer| && SettledTo(journal, pos) && ShapeFrom(h, journal, pos)
    requires longer[..|journal|] == journal
    requires var out := ReplayFrom(h, journal, pos, now);
             && out.Suspended? && |longer| - |journal| <= |out.newSteps|
             && forall i :: 0 <= i < |longer| - |journal| ==> AnswersTo(longer[|journal| + i], out.newSteps[i])
    ensures SettledTo(longer, pos) && ShapeFrom(h, longer, pos)
    decreases |journal| - pos
  {
    assert forall i :: 0 <= i < |journal| ==> longer[i] == longer[..|journal|][i];
    assert Seen(longer, pos) == Seen(journal, pos);
    var a := h(Seen(journal, pos));
    if a.Await? {
      var reqs, end := Wave(a), pos + |Wave(a)|;
      if |journal| >= end && SettledTo(journal, end) {
        ExtendShape(h, journal, longer, end, now);
      } else {
        var have := Journaled(reqs, journal, pos);
        forall i | 0 <= i < Journaled(reqs, longer, pos) ensures Matches(longer[pos + i], reqs[i]) {
          if i < have {
            assert Matches(journal[pos + i], reqs[i]);
          } else {
            assert AnswersTo(longer[|journal| + (i - have)], NewStepFor(reqs[i], pos + i, now));
          }
        }
        if |longer| > |journal| {
          assert AnswersTo(longer[|journal| + 0], NewStepFor(reqs[have], pos + have, now));
        }
        if |longer| >= end && SettledTo(longer, end) {
          assert SettledTo(journal, |journal|);
        }
      }
    }
  }

  /** Settling a pending row keeps the shape: only the wave the run is blocked on has pending rows. */
  lemma {:induction false} SettleShape(h: Handler, journal: seq<StepRow>, i: nat, st: StepState, pos: nat)
    requires pos <= |journal| && SettledTo(journal, pos) && ShapeFrom(h, journal, pos)
    requires i < |journal| && journal[i].state.Pending? && !st.Pending?
    ensures var longer := journal[i := journal[i].(state := st)];
            SettledTo(longer, pos) && ShapeFrom(h, longer, pos)
    decreases |journal| - pos
  {
    var after := journal[i := journal[i].(state := st)];
    assert pos <= i;
    assert Seen(after, pos) == Seen(journal, pos);
    var a := h(Seen(journal, pos));
    if a.Await? {
      var reqs, end := Wave(a), pos + |Wave(a)|;
      forall k | 0 <= k < Journaled(reqs, after, pos) ensures Matches(after[pos + k], reqs[k]) {
        assert Matches(journal[pos + k], reqs[k]);
      }
      if |journal| >= end && SettledTo(journal, end) {
        SettleShape(h, journal, i, st, end);
      }
    }
  }

  /** Fields other than name, kind, arguments and state do not matter to the shape. */
  lemma {:induction false} ShapeSame(h: Handler, journal: seq<StepRow>, other: seq<StepRow>, pos: nat)
    requires pos <= |journal| == |other| && SettledTo(journal, pos) && ShapeFrom(h, journal, pos)
    requires forall i :: 0 <= i < |journal| ==>
               journal[i].name == other[i].name && journal[i].kind == other[i].kind
               && journal[i].args == other[i].args && journal[i].state == other[i].state
    ensures SettledTo(other, pos) && ShapeFrom(h, other, pos)
    decreases |journal| - pos
  {
    assert Seen(other, pos) == Seen(journal, pos);
    var a := h(Seen(journal, pos));
    if a.Await? {
      var reqs, end := Wave(a), pos + |Wave(a)|;
      forall k | 0 <= k < Journaled(reqs, other, pos) ensures Matches(other[pos + k], reqs[k]) {
        assert Matches(journal[pos + k], reqs[k]);
      }
      if |journal| >= end && SettledTo(journal, end) {
        ShapeSame(h, journal, other, end);
      }
    }
  }

  // ---------------------------------------------------------------- leaving `running`

  /** A run stops running: with every step settled, or under a new generation. */
  lemma LeaveRunning(r: Run, wf: Workflow)
    requires Core(r) && r.wf.state.Running? && !wf.state.Running?
    requires (wf.generationNumber == r.wf.generationNumber && Settled(r.steps))
          || wf.generationNumber == r.wf.generationNumber + 1
    ensures var s := r.(wf := wf); Linked(s) && SagaOk(s)
  {
    var s := r.(wf := wf);
    RunningIsUntouched(r);
    UntouchedIsSagaOk(s);
    forall i | 0 <= i < |s.steps| ensures StepInv(s, i) {
      assert StepInv(r, i);
    }
    forall k | 0 <= k < |s.jobs| ensures JobInv(s, k) {
      assert JobInv(r, k);
      if r.jobs[k].kind.ForwardJob? {
        assert StepInv(r, r.jobs[k].kind.step);
      }
    }
  }

  /** The run's own callback is enqueued as it turns terminal. */
  lemma NotifyKeepsCore(r: Run, notice: Notice, now: int)
    requires Linked(r) && SagaOk(r) && Paired(r) && Terminal(r.wf.state)
    requires Sum(r.jobs, TokenWeight()) == 0 && Sum(r.jobs, NoticeWeight()) == 0
    ensures Core(Notify(r, notice, now))
  {
    if r.wf.onComplete.Some? {
      EnqueueInternal(r, Job(NotifyJob(r.wf.onComplete.value, notice), r.wf.onComplete.value, NoArgs, Some(now), None, Queued));
    }
  }

  lemma FailOrCompensateKeepsCore(r: Run, error: WfError, target: Target, now: int)
    requires Core(r) && r.wf.state.Running? && Settled(r.steps)
    ensures Core(FailOrCompensate(r, error, target, now))
  {
    if !AnyOwed(r.steps) {
      var wf := r.wf.(state := TerminalFor(target), error := Some(error));
      LeaveRunning(r, wf);
      NotifyKeepsCore(r.(wf := wf), NoticeFor(target, error), now);
    } else {
      var wf := r.wf.(state := Compensating, error := Some(error), compensationTarget := Some(target));
      LeaveRunning(r, wf);
      EnqueueInternal(r.(wf := wf), UNWIND);
    }
  }

  // ---------------------------------------------------------------- the mutations

  /** What a suspended replay hands to the dispatch loop. */
  lemma BatchIsFresh(h: Handler, maxParallelism: nat, journal: seq<StepRow>, now: int)
    requires Shape(h, journal) && Replay(h, journal, now).Suspended?
    ensures var batch := Capped(Replay(h, journal, now).newSteps, maxParallelism);
            forall i :: 0 <= i < |batch| ==> batch[i].stepNumber == |journal| + i && Dispatchable(batch[i])
  {
    ReplayOfShape(h, journal, 0, now);
    EmittedStepsAreDispatchable(h, journal, 0, now);
  }

  /** The journal after the dispatch loop. */
  lemma BatchKeepsShape(h: Handler, maxParallelism: nat, journal: seq<StepRow>, longer: seq<StepRow>, now: int)
    requires Shape(h, journal) && Replay(h, journal, now).Suspended? && |journal| <= |longer|
    requires longer[..|journal|] == journal
    requires var batch := Capped(Replay(h, journal, now).newSteps, maxParallelism);
             |longer| == |journal| + |batch| && forall i :: 0 <= i < |batch| ==> AnswersTo(longer[|journal| + i], batch[i])
    ensures Shape(h, longer)
    ensures !Settled(journal) ==> !Settled(longer)
    ensures Replay(h, journal, now).newSteps != [] && maxParallelism >= 1 ==> !Settled(longer)
  {
    var batch := Capped(Replay(h, journal, now).newSteps, maxParallelism);
    assert forall i :: 0 <= i < |journal| ==> longer[i] == longer[..|journal|][i];
    ExtendShape(h, journal, longer, 0, now);
    if batch != [] {
      assert AnswersTo(longer[|journal| + 0], batch[0]);
    }
  }

  lemma DispatchKeepsCore(h: Handler, maxParallelism: nat, r: Run, now: int)
    requires Core(r) && Shape(h, r.steps) && r.wf.state.Running? && Replay(h, r.steps, now).Suspended?
    ensures Core(StartSteps(r, Capped(Replay(h, r.steps, now).newSteps, maxParallelism)))
  {
    BatchIsFresh(h, maxParallelism, r.steps, now);
    StartStepsKeepsCore(r, Capped(Replay(h, r.steps, now).newSteps, maxParallelism));
  }

  lemma DispatchKeepsShape(h: Handler, maxParallelism: nat, r: Run, now: int)
    requires Shape(h, r.steps) && Replay(h, r.steps, now).Suspended?
    ensures var s := StartSteps(r, Capped(Replay(h, r.steps, now).newSteps, maxParallelism));
            && Shape(h, s.steps)
            && (!Settled(r.steps) ==> !Settled(s.steps))
            && (Replay(h, r.steps, now).newSteps != [] && maxParallelism >= 1 ==> !Settled(s.steps))
  {
    var batch := Capped(Replay(h, r.steps, now).newSteps, maxParallelism);
    StartStepsRows(r, batch);
    BatchKeepsShape(h, maxParallelism, r.steps, StartSteps(r, batch).steps, now);
  }

  lemma CompleteKeepsCore(r: Run, v: Json, now: int)
    requires Core(r) && r.wf.state.Running? && Settled(r.steps)
    ensures Core(Notify(r.(wf := r.wf.(state := Completed, result := Some(v))), SucceededWith(v), now))
  {
    var wf := r.wf.(state := Completed, result := Some(v));
    LeaveRunning(r, wf);
    NotifyKeepsCore(r.(wf := wf), SucceededWith(v), now);
  }

  lemma AdvanceKeepsCore(h: Handler, maxParallelism: nat, r: Run, now: int)
    requires Core(r) && Shape(h, r.steps)
    ensures Core(Advance(h, maxParallelism, r, now))
  {
    if r.wf.state.Running? {
      ReplayOfShape(h, r.steps, 0, now);
      match Replay(h, r.steps, now)
      case Finished(v) => CompleteKeepsCore(r, v, now);
      case Threw(e) => FailOrCompensateKeepsCore(r, e, ToFailed, now);
      case Suspended(ns) =>
        if ns == [] && Settled(r.steps) {
          FailOrCompensateKeepsCore(r, StalledOnForeignAwait, ToFailed, now);
        } else {
          DispatchKeepsCore(h, maxParallelism, r, now);
        }
    }
  }

  lemma AdvanceKeepsShape(h: Handler, maxParallelism: nat, r: Run, now: int)
    requires Shape(h, r.steps) && maxParallelism >= 1
    ensures var s := Advance(h, maxParallelism, r, now);
            Shape(h, s.steps) && (s.wf.state.Running? ==> !Settled(s.steps))
  {
    if r.wf.state.Running? {
      var out := Replay(h, r.steps, now);
      if out.Suspended? && !(out.newSteps == [] && Settled(r.steps)) {
        DispatchKeepsShape(h, maxParallelism, r, now);
      }
    }
  }

  /** `_advance`, once its own job is out of the way. */
  lemma AdvanceKeepsInv(h: Handler, maxParallelism: nat, r: Run, now: int)
    requires Core(r) && Shape(h, r.steps) && maxParallelism >= 1
    ensures Inv(h, Advance(h, maxParallelism, r, now))
  {
    AdvanceKeepsCore(h, maxParallelism, r, now);
    AdvanceKeepsShape(h, maxParallelism, r, now);
  }

  /** A step's report under the current generation: the row settles and `_advance` is queued. */
  lemma StepDoneKeepsInv(h: Handler, r: Run, j: nat)
    requires Inv(h, r) && j < |r.jobs| && r.jobs[j].phase.Reported? && r.jobs[j].kind.ForwardJob?
    ensures var job := r.jobs[j].kind;
            Inv(h, StepDone(SetPhase(r, j, Delivered), job.step, job.gen, r.jobs[j].phase.result))
  {
    var n, gen, result := r.jobs[j].kind.step, r.jobs[j].kind.gen, r.jobs[j].phase.result;
    assert JobInv(r, j) && StepInv(r, n);
    var done := SetPhase(r, j, Delivered);
    if gen != r.wf.generationNumber {
      PhaseKeepsCore(r, j, Delivered);
    } else {
      FindStepIs(r, n);
      var s := StepDone(done, n, gen, result);
      SettledStepLinks(r, j, StateFor(result));
      SettleShape(h, r.steps, n, StateFor(result), 0);
      AdvanceQueued(s);
      RunningIsUntouched(s);
      UntouchedIsSagaOk(s);
      SumUpdate(r.jobs, j, done.jobs[j], TokenWeight());
      SumSnoc(done.jobs, ADVANCE, TokenWeight());
      SumUpdate(r.jobs, j, done.jobs[j], NoticeWeight());
      SumSnoc(done.jobs, ADVANCE, NoticeWeight());
      forall name ensures Sum(s.events, WaitingWeight(name)) == Sum(s.steps, ParkedWeight(name)) {
        SumUpdate(r.steps, n, s.steps[n], ParkedWeight(name));
      }
    }
  }

  lemma SettledStepLinks(r: Run, j: nat, st: StepState)
    requires Linked(r) && r.wf.state.Running? && !st.Pending?
    requires j < |r.jobs| && !r.jobs[j].phase.Delivered? && r.jobs[j].kind.ForwardJob?
    requires r.jobs[j].kind.step < |r.steps|
    ensures var n := r.jobs[j].kind.step;
            Linked(Enqueue(SetPhase(r, j, Delivered).(steps := r.steps[n := r.steps[n].(state := st)]), ADVANCE))
  {
    var n := r.jobs[j].kind.step;
    var s := Enqueue(SetPhase(r, j, Delivered).(steps := r.steps[n := r.steps[n].(state := st)]), ADVANCE);
    assert JobInv(r, j);
    forall i | 0 <= i < |s.steps| ensures StepInv(s, i) {
      assert StepInv(r, i);
      assert r.steps[i].compensationJobId.Some? ==> JobInv(r, r.steps[i].compensationJobId.value);
    }
    forall k | 0 <= k < |s.jobs| ensures JobInv(s, k) {
      if k < |r.jobs| {
        assert JobInv(r, k);
      }
    }
  }

  /** An undelivered compensation is the token, and it is for the frontier. */
  lemma UndoIsFrontier(r: Run, j: nat)
    requires Core(r) && j < |r.jobs| && r.jobs[j].kind.UndoJob? && !r.jobs[j].phase.Delivered?
    ensures r.wf.state.Compensating? && r.jobs[j].kind == UndoJob(Frontier(r), r.wf.generationNumber)
    ensures Frontier(r) < |r.steps| && r.steps[Frontier(r)].compensationJobId == Some(j)
  {
    SumBound(r.jobs, TokenWeight(), j);
    assert JobInv(r, j) && StepInv(r, r.jobs[j].kind.step);
  }

  lemma CompensatedKeepsCore(r: Run, j: nat)
    requires Core(r) && j < |r.jobs| && r.jobs[j].kind.UndoJob? && !r.jobs[j].phase.Delivered?
    requires r.jobs[j].kind.step < |r.steps|
    ensures var n := r.jobs[j].kind.step;
            Core(Enqueue(SetPhase(r, j, Delivered).(steps := r.steps[n := r.steps[n].(compensated := true)]), UNWIND))
  {
    var n := r.jobs[j].kind.step;
    UndoIsFrontier(r, j);
    var s := SetPhase(r, j, Delivered).(steps := r.steps[n := r.steps[n].(compensated := true)]);
    SumUpdate(r.jobs, j, s.jobs[j], TokenWeight());
    SumUpdate(r.jobs, j, s.jobs[j], NoticeWeight());
    CompensatedLinks(r, j);
    CompensatedSaga(r, j);
    EnqueueInternal(s, UNWIND);
    SameParked(r, s, n);
  }

  lemma HaltedKeepsCore(r: Run, j: nat, cause: string, now: int)
    requires Core(r) && j < |r.jobs| && r.jobs[j].kind.UndoJob? && !r.jobs[j].phase.Delivered?
    ensures var n := r.jobs[j].kind.step;
            var wf := r.wf.(state := Failed, error := Some(UndoFailed(n, cause, r.wf.error)));
            Core(Notify(SetPhase(r, j, Delivered).(wf := wf), FailedWith(UndoFailedAt(n)), now))
  {
    var n := r.jobs[j].kind.step;
    UndoIsFrontier(r, j);
    var s := SetPhase(r, j, Delivered).(wf := r.wf.(state := Failed, error := Some(UndoFailed(n, cause, r.wf.error))));
    SumUpdate(r.jobs, j, s.jobs[j], TokenWeight());
    SumUpdate(r.jobs, j, s.jobs[j], NoticeWeight());
    UndoStepsKinds(r.jobs, s.jobs);
    HaltedLinks(r, j, s.wf);
    NotifyKeepsCore(s, FailedWith(UndoFailedAt(n)), now);
  }

  /** The report of a compensation: mark the row and go on, or halt. */
  lemma UnwindDoneKeepsCore(r: Run, j: nat, now: int)
    requires Core(r) && j < |r.jobs| && r.jobs[j].phase.Reported? && r.jobs[j].kind.UndoJob?
    ensures var job := r.jobs[j].kind;
            Core(UnwindDone(SetPhase(r, j, Delivered), job.step, job.gen, r.jobs[j].phase.result, now))
  {
    UndoIsFrontier(r, j);
    FindStepIs(r, r.jobs[j].kind.step);
    if r.jobs[j].phase.result.JobOk? {
      CompensatedKeepsCore(r, j);
    } else {
      HaltedKeepsCore(r, j, CauseOf(r.jobs[j].phase.result), now);
    }
  }

  /** Rewriting a row without changing what it waits for. */
  lemma SameParked(r: Run, s: Run, n: nat)
    requires Paired(r) && s.events == r.events && n < |r.steps| == |s.steps| && s.steps == r.steps[n := s.steps[n]]
    requires s.steps[n].kind == r.steps[n].kind && s.steps[n].name == r.steps[n].name
    requires s.steps[n].state == r.steps[n].state
    ensures Paired(s)
  {
    forall name ensures Sum(s.events, WaitingWeight(name)) == Sum(s.steps, ParkedWeight(name)) {
      SumUpdate(r.steps, n, s.steps[n], ParkedWeight(name));
    }
  }

  lemma CompensatedSaga(r: Run, j: nat)
    requires Core(r) && j < |r.jobs| && r.jobs[j].kind.UndoJob? && !r.jobs[j].phase.Delivered?
    ensures var n := r.jobs[j].kind.step;
            n < |r.steps| && SagaOk(SetPhase(r, j, Delivered).(steps := r.steps[n := r.steps[n].(compensated := true)]))
  {
    var n := r.jobs[j].kind.step;
    UndoIsFrontier(r, j);
    var s := SetPhase(r, j, Delivered).(steps := r.steps[n := r.steps[n].(compensated := true)]);
    UndoStepsKinds(r.jobs, s.jobs);
    DescendingSame(r.steps, s.steps, n);
    DescendingSame(r.steps, s.steps, |r.steps|);
  }

  lemma CompensatedLinks(r: Run, j: nat)
    requires Linked(r) && j < |r.jobs| && r.jobs[j].kind.UndoJob? && r.jobs[j].kind.step < |r.steps|
    requires r.steps[r.jobs[j].kind.step].compensationJobId == Some(j)
    ensures var n := r.jobs[j].kind.step;
            Linked(SetPhase(r, j, Delivered).(steps := r.steps[n := r.steps[n].(compensated := true)]))
  {
    var n := r.jobs[j].kind.step;
    var s := SetPhase(r, j, Delivered).(steps := r.steps[n := r.steps[n].(compensated := true)]);
    forall i | 0 <= i < |s.steps| ensures StepInv(s, i) {
      assert StepInv(r, i);
    }
    forall k | 0 <= k < |s.jobs| ensures JobInv(s, k) {
      assert JobInv(r, k);
    }
  }

  lemma HaltedLinks(r: Run, j: nat, wf: Workflow)
    requires Linked(r) && j < |r.jobs| && r.jobs[j].kind.UndoJob? && r.wf.state.Compensating?
    requires wf.state.Failed? && wf.generationNumber == r.wf.generationNumber
    ensures Linked(SetPhase(r, j, Delivered).(wf := wf))
  {
    var s := SetPhase(r, j, Delivered).(wf := wf);
    forall i | 0 <= i < |s.steps| ensures StepInv(s, i) {
      assert StepInv(r, i);
    }
    forall k | 0 <= k < |s.jobs| ensures JobInv(s, k) {
      assert JobInv(r, k);
    }
  }

  // ---------------------------------------------------------------- the unwind driver

  /** When the unwind driver is queued, everything from the frontier up has been compensated. */
  lemma UnwindAtFrontier(r: Run, j: nat)
    requires Core(r) && j < |r.jobs| && r.jobs[j].kind.UnwindJob? && r.jobs[j].phase.Queued?
    ensures r.wf.state.Compensating?
    ensures forall i :: Frontier(r) <= i < |r.steps| && Undoable(r.steps[i]) ==> r.steps[i].compensated
  {
    SumBound(r.jobs, TokenWeight(), j);
    var f := Frontier(r);
    if f < |r.steps| && !r.steps[f].compensated {
      assert StepInv(r, f);
      var k := r.steps[f].compensationJobId.value;
      assert UnwindToken(r.jobs[k]) && UnwindToken(r.jobs[j]);
      SumPair(r.jobs, TokenWeight(), if j < k then j else k, if j < k then k else j);
    }
  }

  lemma UnwindDriverLinks(r: Run, j: nat, wf: Workflow)
    requires Linked(r) && j < |r.jobs| && r.jobs[j].kind.UnwindJob? && r.wf.state.Compensating?
    requires (wf.state.Failed? || wf.state.Canceled? || wf.state.Compensating?)
    requires wf.generationNumber == r.wf.generationNumber
    ensures Linked(SetPhase(r, j, Delivered).(wf := wf))
  {
    var s := SetPhase(r, j, Delivered).(wf := wf);
    forall i | 0 <= i < |s.steps| ensures StepInv(s, i) {
      assert StepInv(r, i);
    }
    forall k | 0 <= k < |s.jobs| ensures JobInv(s, k) {
      assert JobInv(r, k);
    }
  }

  /** The next compensation is for the highest step below the frontier that needs one. */
  lemma NextUndo(r: Run, m: nat)
    requires Core(r) && HighestOwed(r.steps) == Some(m)
    requires forall i :: Frontier(r) <= i < |r.steps| && Undoable(r.steps[i]) ==> r.steps[i].compensated
    ensures m < Frontier(r) && Descending(r.steps, Frontier(r)) == [m] + Descending(r.steps, m)
    ensures forall i :: m < i < Frontier(r) ==> !Undoable(r.steps[i])
  {
    var f := Frontier(r);
    assert StepInv(r, m);
    forall i | m < i < f ensures !Undoable(r.steps[i]) {
      assert StepInv(r, i);
    }
    DescendingNone(r.steps, m + 1, f);
  }

  lemma UndoDispatchLinks(r: Run, m: nat)
    requires Linked(r) && m < |r.steps| && Owed(r.steps[m]) && r.steps[m].compensationJobId.None?
    requires r.wf.state.Compensating?
    ensures Linked(r.(jobs := r.jobs + [UndoFor(r.steps[m], r.wf.generationNumber)],
                      steps := r.steps[m := r.steps[m].(compensationJobId := Some(|r.jobs|))]))
  {
    var s := r.(jobs := r.jobs + [UndoFor(r.steps[m], r.wf.generationNumber)],
                steps := r.steps[m := r.steps[m].(compensationJobId := Some(|r.jobs|))]);
    forall i | 0 <= i < |s.steps| ensures StepInv(s, i) {
      assert StepInv(r, i);
    }
    assert StepInv(r, m);
    forall k | 0 <= k < |s.jobs| ensures JobInv(s, k) {
      if k < |r.jobs| {
        assert JobInv(r, k);
      }
    }
  }

  lemma UnwindKeepsCore(r: Run, j: nat, now: int)
    requires Core(r) && j < |r.jobs| && r.jobs[j].kind.UnwindJob? && r.jobs[j].phase.Queued?
    ensures Core(Unwind(SetPhase(r, j, Delivered), now))
  {
    UnwindAtFrontier(r, j);
    var done := SetPhase(r, j, Delivered);
    SumUpdate(r.jobs, j, done.jobs[j], TokenWeight());
    SumUpdate(r.jobs, j, done.jobs[j], NoticeWeight());
    UndoStepsKinds(r.jobs, done.jobs);
    var next := HighestOwed(r.steps);
    if next.None? {
      var target := if r.wf.compensationTarget == Some(ToCanceled) then ToCanceled else ToFailed;
      var wf := r.wf.(state := TerminalFor(target));
      UnwindDriverLinks(r, j, wf);
      NotifyKeepsCore(done.(wf := wf), if target.ToCanceled? then WasCanceled else FailedWith(ErrorOf(wf)), now);
    } else {
      DispatchUndoKeepsCore(r, j, next.value);
      assert done.(wf := r.wf) == done;
    }
  }

  function DispatchedUndo(r: Run, j: nat, m: nat): Run
    requires j < |r.jobs| && m < |r.steps| && Owed(r.steps[m])
  {
    r.(jobs := r.jobs[j := r.jobs[j].(phase := Delivered)] + [UndoFor(r.steps[m], r.wf.generationNumber)],
       steps := r.steps[m := r.steps[m].(compensationJobId := Some(|r.jobs|))])
  }

  /** Dispatching the compensation of `m` appends `m` to the dispatched ones and owes the same steps. */
  lemma DispatchedOrder(r: Run, j: nat, m: nat)
    requires j < |r.jobs| && m < |r.steps| && Owed(r.steps[m]) && r.jobs[j].kind.UnwindJob?
    requires r.steps[m].stepNumber == m
    ensures var s := DispatchedUndo(r, j, m);
            && UndoSteps(s.jobs) == UndoSteps(r.jobs) + [m]
            && Descending(s.steps, m) == Descending(r.steps, m)
            && Descending(s.steps, |s.steps|) == Descending(r.steps, |r.steps|)
  {
    var s := DispatchedUndo(r, j, m);
    var done := SetPhase(r, j, Delivered);
    UndoStepsKinds(r.jobs, done.jobs);
    UndoStepsSnoc(done.jobs, UndoFor(r.steps[m], r.wf.generationNumber));
    DescendingSame(r.steps, s.steps, m);
    DescendingSame(r.steps, s.steps, |r.steps|);
  }

  lemma DispatchedSaga(r: Run, j: nat, m: nat)
    requires Core(r) && j < |r.jobs| && r.jobs[j].kind.UnwindJob? && r.jobs[j].phase.Queued?
    requires HighestOwed(r.steps) == Some(m)
    ensures SagaOk(DispatchedUndo(r, j, m))
  {
    UnwindAtFrontier(r, j);
    NextUndo(r, m);
    assert StepInv(r, m);
    DispatchedOrder(r, j, m);
    RegroupSaga(UndoSteps(r.jobs), m, Descending(r.steps, m));
  }

  lemma RegroupSaga(undone: seq<nat>, m: nat, below: seq<nat>)
    ensures undone + ([m] + below) == undone + [m] + below
  {
  }

  lemma DispatchUndoKeepsCore(r: Run, j: nat, m: nat)
    requires Core(r) && j < |r.jobs| && r.jobs[j].kind.UnwindJob? && r.jobs[j].phase.Queued?
    requires HighestOwed(r.steps) == Some(m)
    ensures Core(DispatchedUndo(r, j, m))
  {
    var s := DispatchedUndo(r, j, m);
    var done := SetPhase(r, j, Delivered);
    var undo := UndoFor(r.steps[m], r.wf.generationNumber);
    DispatchedSaga(r, j, m);
    SameParked(r, s, m);
    UnwindAtFrontier(r, j);
    NextUndo(r, m);
    UnwindDriverLinks(r, j, r.wf);
    assert done.(wf := r.wf) == done;
    UndoDispatchLinks(done, m);
    SumUpdate(r.jobs, j, done.jobs[j], TokenWeight());
    SumUpdate(r.jobs, j, done.jobs[j], NoticeWeight());
    SumSnoc(done.jobs, undo, TokenWeight());
    SumSnoc(done.jobs, undo, NoticeWeight());
  }

  // ---------------------------------------------------------------- cancel

  /** What a cancel's cascade may do to a job: report it canceled if nobody has claimed it. */
  predicate CanceledOrSame(before: Job, after: Job) {
    after == before || (before.kind.ForwardJob? && before.phase.Queued? && after == before.(phase := Reported(JobCanceled)))
  }

  lemma {:induction false} CascadeCancelsForwardJobs(r: Run, n: nat)
    requires Linked(r) && r.wf.state.Running? && n <= |r.steps|
    ensures var jobs := CancelJobsOf(r.steps, n, r.jobs);
            |jobs| == |r.jobs| && forall k :: 0 <= k < |jobs| ==> CanceledOrSame(r.jobs[k], jobs[k])
  {
    if n > 0 {
      CascadeCancelsForwardJobs(r, n - 1);
      RunningIsUntouched(r);
      assert StepInv(r, n - 1);
    }
  }

  lemma CanceledLinks(r: Run, jobs: seq<Job>, wf: Workflow)
    requires Core(r) && r.wf.state.Running? && |jobs| == |r.jobs|
    requires forall k :: 0 <= k < |jobs| ==> CanceledOrSame(r.jobs[k], jobs[k])
    requires !wf.state.Running? && wf.generationNumber == r.wf.generationNumber + 1
    ensures var s := r.(jobs := jobs, wf := wf);
            && Linked(s) && SagaOk(s)
            && Sum(jobs, TokenWeight()) == 0 && Sum(jobs, NoticeWeight()) == 0
  {
    var s := r.(jobs := jobs, wf := wf);
    SumSame(r.jobs, jobs, TokenWeight());
    SumSame(r.jobs, jobs, NoticeWeight());
    UndoStepsKinds(r.jobs, jobs);
    RunningIsUntouched(r);
    UntouchedIsSagaOk(s);
    forall i | 0 <= i < |s.steps| ensures StepInv(s, i) {
      assert StepInv(r, i);
    }
    forall k | 0 <= k < |s.jobs| ensures JobInv(s, k) {
      assert JobInv(r, k) && CanceledOrSame(r.jobs[k], jobs[k]);
      assert r.jobs[k].kind.ForwardJob? ==> StepInv(r, r.jobs[k].kind.step);
    }
  }

  lemma CanceledOutrightKeepsCore(r: Run, jobs: seq<Job>, wf: Workflow, now: int)
    requires Core(r) && r.wf.state.Running? && |jobs| == |r.jobs|
    requires forall k :: 0 <= k < |jobs| ==> CanceledOrSame(r.jobs[k], jobs[k])
    requires wf.state.Canceled? && wf.generationNumber == r.wf.generationNumber + 1
    ensures Core(Notify(r.(jobs := jobs, wf := wf), WasCanceled, now))
  {
    CanceledLinks(r, jobs, wf);
    NotifyKeepsCore(r.(jobs := jobs, wf := wf), WasCanceled, now);
  }

  lemma CanceledUnwindKeepsCore(r: Run, jobs: seq<Job>, wf: Workflow)
    requires Core(r) && r.wf.state.Running? && |jobs| == |r.jobs|
    requires forall k :: 0 <= k < |jobs| ==> CanceledOrSame(r.jobs[k], jobs[k])
    requires wf.state.Compensating? && wf.generationNumber == r.wf.generationNumber + 1
    ensures Core(Enqueue(r.(jobs := jobs, wf := wf), UNWIND))
  {
    CanceledLinks(r, jobs, wf);
    EnqueueInternal(r.(jobs := jobs, wf := wf), UNWIND);
  }

  lemma CancelKeepsCore(r: Run, compensate: bool, now: int)
    requires Core(r) && r.wf.state.Running?
    ensures Core(CancelRun(r, compensate, now))
  {
    CascadeCancelsForwardJobs(r, |r.steps|);
    var jobs := CancelJobsOf(r.steps, |r.steps|, r.jobs);
    var next := r.wf.(generationNumber := r.wf.generationNumber + 1);
    if !compensate || !AnyOwed(r.steps) {
      CanceledOutrightKeepsCore(r, jobs, next.(state := Canceled), now);
    } else {
      CanceledUnwindKeepsCore(r, jobs, next.(state := Compensating, error := Some(CanceledByRequest), compensationTarget := Some(ToCanceled)));
    }
  }

  lemma CancelKeepsInv(h: Handler, r: Run, compensate: bool, now: int)
    requires Inv(h, r)
    ensures Inv(h, CancelRun(r, compensate, now))
  {
    if r.wf.state.Running? {
      CancelKeepsCore(r, compensate, now);
    }
  }

  // ---------------------------------------------------------------- events

  /** A waiting event always has a parked step to wake. */
  lemma WaitingHasParked(r: Run, name: string)
    requires Paired(r) && FindWaiting(r.events, name) < |r.events|
    ensures FindParked(r.steps, name) < |r.steps|
  {
    SumBound(r.events, WaitingWeight(name), FindWaiting(r.events, name));
    var i := SumWitness(r.steps, ParkedWeight(name));
  }

  /** A delivered event: its row and the first parked step of that name. */
  function Woken(r: Run, e: nat, i: nat, payload: Json): Run
    requires e < |r.events| && i < |r.steps|
  {
    r.(events := r.events[e := r.events[e].(state := Received(payload))],
       steps := r.steps[i := r.steps[i].(state := Success(payload))])
  }

  lemma WokenPairs(r: Run, e: nat, i: nat, name: string, payload: Json)
    requires Paired(r) && e < |r.events| && i < |r.steps| && IsWaiting(r.events[e], name) && IsParked(r.steps[i], name)
    ensures Paired(Woken(r, e, i, payload))
  {
    var s := Woken(r, e, i, payload);
    forall other ensures Sum(s.events, WaitingWeight(other)) == Sum(s.steps, ParkedWeight(other)) {
      SumUpdate(r.events, e, s.events[e], WaitingWeight(other));
      SumUpdate(r.steps, i, s.steps[i], ParkedWeight(other));
    }
  }

  lemma WokenLinks(r: Run, e: nat, i: nat, payload: Json)
    requires Linked(r) && SagaOk(r) && e < |r.events| && i < |r.steps| && r.steps[i].kind.WaitForEvent?
    ensures Linked(Woken(r, e, i, payload)) && SagaOk(Woken(r, e, i, payload))
  {
    var s := Woken(r, e, i, payload);
    assert StepInv(r, i);
    forall k | 0 <= k < |s.steps| ensures StepInv(s, k) {
      assert StepInv(r, k);
    }
    forall k | 0 <= k < |s.jobs| ensures JobInv(s, k) {
      assert JobInv(r, k);
    }
    DescendingSame(r.steps, s.steps, Frontier(r));
    DescendingSame(r.steps, s.steps, |r.steps|);
  }

  lemma SendEventKeepsInv(h: Handler, r: Run, name: string, payload: Json)
    requires Inv(h, r)
    ensures Inv(h, SendEvent(r, name, payload))
  {
    var e := FindWaiting(r.events, name);
    if e < |r.events| {
      WaitingHasParked(r, name);
      var i := FindParked(r.steps, name);
      var s := Woken(r, e, i, payload);
      WokenPairs(r, e, i, name, payload);
      WokenLinks(r, e, i, payload);
      SettleShape(h, r.steps, i, Success(payload), 0);
      EnqueueInternal(s, ADVANCE);
      AdvanceQueued(Enqueue(s, ADVANCE));
    }
  }

  // ---------------------------------------------------------------- any step

  lemma UnwindKeepsShape(h: Handler, r: Run, j: nat, now: int)
    requires Shape(h, r.steps) && j < |r.jobs| && r.wf.state.Compensating?
    ensures var s := Unwind(SetPhase(r, j, Delivered), now);
            Shape(h, s.steps) && !s.wf.state.Running?
  {
    ShapeSame(h, r.steps, Unwind(SetPhase(r, j, Delivered), now).steps, 0);
  }

  lemma UnwindDoneKeepsShape(h: Handler, r: Run, j: nat, n: nat, gen: nat, result: JobResult, now: int)
    requires Shape(h, r.steps) && j < |r.jobs| && r.wf.state.Compensating?
    ensures var s := UnwindDone(SetPhase(r, j, Delivered), n, gen, result, now);
            Shape(h, s.steps) && !s.wf.state.Running?
  {
    ShapeSame(h, r.steps, UnwindDone(SetPhase(r, j, Delivered), n, gen, result, now).steps, 0);
  }

  lemma StepKeepsInv(h: Handler, maxParallelism: nat, r: Run, l: Label)
    requires Inv(h, r) && maxParallelism >= 1
    ensures Inv(h, Step(h, maxParallelism, r, l))
  {
    if Enabled(r, l) {
      match l
      case RunJob(j, now) =>
        match r.jobs[j].kind {
          case AdvanceJob =>
            PhaseKeepsCore(r, j, Delivered);
            AdvanceKeepsInv(h, maxParallelism, SetPhase(r, j, Delivered), now);
          case UnwindJob =>
            UnwindAtFrontier(r, j);
            UnwindKeepsCore(r, j, now);
            UnwindKeepsShape(h, r, j, now);
          case _ =>
            PhaseKeepsInv(h, r, j, Delivered);
        }
      case ClaimJob(j) => PhaseKeepsInv(h, r, j, Claimed);
      case ReportJob(j, result) =>
        assert JobInv(r, j);
        PhaseKeepsInv(h, r, j, Reported(result));
      case DeliverReport(j, now) =>
        assert JobInv(r, j);
        if r.jobs[j].kind.ForwardJob? {
          StepDoneKeepsInv(h, r, j);
        } else {
          UndoIsFrontier(r, j);
          UnwindDoneKeepsCore(r, j, now);
          UnwindDoneKeepsShape(h, r, j, r.jobs[j].kind.step, r.jobs[j].kind.gen, r.jobs[j].phase.result, now);
        }
      case RequestCancel(compensate, now) => CancelKeepsInv(h, r, compensate, now);
      case Signal(name, payload) => SendEventKeepsInv(h, r, name, payload);
    }
  }
}
