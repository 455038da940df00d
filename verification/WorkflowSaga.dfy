/** The reverse unwind of a saga: order, completeness and halting. */
module WorkflowSaga {
  import opened Prelude
  import opened WorkflowTypes
  import opened WorkflowReplay
  import opened WorkflowMachine
  import opened WorkflowRuns
  import opened WorkflowInvariant

  /** `s` is the unwinding run `r` some steps later: still unwinding, done, or halted. */
  ghost predicate UnwindsTo(r: Run, s: Run) {
    && s.wf.compensationTarget == r.wf.compensationTarget
    && |s.steps| == |r.steps|
    && (forall i :: 0 <= i < |r.steps| ==> Undoable(s.steps[i]) == Undoable(r.steps[i]))
    && (|| (s.wf.state.Compensating? && s.wf.error == r.wf.error)
        || (s.wf.state == TerminalFor(UnwindTarget(r)) && s.wf.error == r.wf.error && !AnyOwed(s.steps))
        || (s.wf.state.Failed? && Halted(s, r.wf.error)))
  }

  function UnwindTarget(r: Run): Target {
    if r.wf.compensationTarget == Some(ToCanceled) then ToCanceled else ToFailed
  }

  /** The unwind stopped at its frontier, whose compensation failed; the original error is kept inside. */
  ghost predicate Halted(s: Run, original: Option<WfError>) {
    && s.wf.error.Some? && s.wf.error.value.UndoFailed?
    && s.wf.error.value.step == Frontier(s) < |s.steps|
    && s.wf.error.value.original == original
    && !s.steps[Frontier(s)].compensated
  }

  lemma UnwindStep(r: Run, s: Run, j: nat, now: int)
    requires Core(s) && UnwindsTo(r, s) && j < |s.jobs| && s.jobs[j].kind.UnwindJob? && s.jobs[j].phase.Queued?
    ensures UnwindsTo(r, Unwind(SetPhase(s, j, Delivered), now))
  {
    UnwindAtFrontier(s, j);
  }

  lemma HaltStep(r: Run, s: Run, j: nat, cause: string, now: int)
    requires UnwindsTo(r, s) && s.wf.state.Compensating? && j < |s.jobs| && Frontier(s) < |s.steps|
    requires !s.steps[Frontier(s)].compensated
    ensures var n := Frontier(s);
            UnwindsTo(r, Notify(SetPhase(s, j, Delivered).(wf := s.wf.(state := Failed, error := Some(UndoFailed(n, cause, s.wf.error)))),
                                FailedWith(UndoFailedAt(n)), now))
  {
    var n := Frontier(s);
    var halted := SetPhase(s, j, Delivered).(wf := s.wf.(state := Failed, error := Some(UndoFailed(n, cause, s.wf.error))));
    UndoStepsKinds(s.jobs, halted.jobs);
    if s.wf.onComplete.Some? {
      UndoStepsSnoc(halted.jobs, Notify(halted, FailedWith(UndoFailedAt(n)), now).jobs[|s.jobs|]);
    }
  }

  lemma UnwindDoneStep(r: Run, s: Run, j: nat, now: int)
    requires Core(s) && UnwindsTo(r, s) && j < |s.jobs| && s.jobs[j].kind.UndoJob? && s.jobs[j].phase.Reported?
    ensures UnwindsTo(r, UnwindDone(SetPhase(s, j, Delivered), s.jobs[j].kind.step, s.jobs[j].kind.gen, s.jobs[j].phase.result, now))
  {
    var n, result := Frontier(s), s.jobs[j].phase.result;
    UndoIsFrontier(s, j);
    FindStepIs(s, n);
    assert StepInv(s, n);
    if !result.JobOk? {
      HaltStep(r, s, j, CauseOf(result), now);
    }
  }

  /** Steps that do not touch the unwind: they append internal jobs at most, and wake event steps at most. */
  lemma OtherStep(r: Run, s: Run, t: Run)
    requires UnwindsTo(r, s) && t.wf == s.wf && |t.steps| == |s.steps|
    requires UndoSteps(t.jobs) == UndoSteps(s.jobs)
    requires forall i :: 0 <= i < |s.steps| ==>
               && Undoable(t.steps[i]) == Undoable(s.steps[i])
               && t.steps[i].compensated == s.steps[i].compensated
    ensures UnwindsTo(r, t)
  {
  }

  lemma SignalStep(r: Run, s: Run, name: string, payload: Json)
    requires Core(s) && UnwindsTo(r, s)
    ensures UnwindsTo(r, SendEvent(s, name, payload))
  {
    var e := FindWaiting(s.events, name);
    if e < |s.events| {
      WaitingHasParked(s, name);
      assert StepInv(s, FindParked(s.steps, name));
      UndoStepsSnoc(s.jobs, ADVANCE);
      OtherStep(r, s, SendEvent(s, name, payload));
    }
  }

  lemma PhaseStep(r: Run, s: Run, j: nat, p: Phase)
    requires UnwindsTo(r, s) && j < |s.jobs|
    ensures UnwindsTo(r, SetPhase(s, j, p))
  {
    UndoStepsKinds(s.jobs, SetPhase(s, j, p).jobs);
  }

  /** A step report that lands during or after an unwind is of an older generation, and is dropped. */
  lemma StaleReport(r: Run, s: Run, j: nat)
    requires Linked(s) && UnwindsTo(r, s) && j < |s.jobs| && s.jobs[j].kind.ForwardJob? && s.jobs[j].phase.Reported?
    ensures UnwindsTo(r, StepDone(SetPhase(s, j, Delivered), s.jobs[j].kind.step, s.jobs[j].kind.gen, s.jobs[j].phase.result))
  {
    assert JobInv(s, j);
    PhaseStep(r, s, j, Delivered);
  }

  lemma UnwindsToStep(h: Handler, maxParallelism: nat, r: Run, s: Run, l: Label)
    requires Core(s) && UnwindsTo(r, s)
    ensures UnwindsTo(r, Step(h, maxParallelism, s, l))
  {
    if Enabled(s, l) {
      match l
      case RunJob(j, now) =>
        if s.jobs[j].kind.UnwindJob? {
          UnwindStep(r, s, j, now);
        } else {
          PhaseStep(r, s, j, Delivered);
        }
      case ClaimJob(j) => PhaseStep(r, s, j, Claimed);
      case ReportJob(j, result) => PhaseStep(r, s, j, Reported(result));
      case DeliverReport(j, now) =>
        if s.jobs[j].kind.UndoJob? {
          UnwindDoneStep(r, s, j, now);
        } else if s.jobs[j].kind.ForwardJob? {
          StaleReport(r, s, j);
        } else {
          PhaseStep(r, s, j, Delivered);
        }
      case RequestCancel(compensate, now) =>
      case Signal(name, payload) => SignalStep(r, s, name, payload);
    }
  }

  lemma {:induction false} UnwindsToExec(h: Handler, maxParallelism: nat, r: Run, labels: seq<Label>)
    requires Inv(h, r) && r.wf.state.Compensating? && maxParallelism >= 1
    ensures Inv(h, Exec(h, maxParallelism, r, labels)) && UnwindsTo(r, Exec(h, maxParallelism, r, labels))
  {
    if labels != [] {
      var front := labels[..|labels| - 1];
      UnwindsToExec(h, maxParallelism, r, front);
      UnwindsToStep(h, maxParallelism, r, Exec(h, maxParallelism, r, front), labels[|labels| - 1]);
      StepKeepsInv(h, maxParallelism, Exec(h, maxParallelism, r, front), labels[|labels| - 1]);
    }
  }

  lemma {:induction false} DescendingDecreases(steps: seq<StepRow>, n: nat)
    requires n <= |steps|
    ensures var d := Descending(steps, n);
            && (forall a :: 0 <= a < |d| ==> d[a] < n && Undoable(steps[d[a]]))
            && (forall a, b :: 0 <= a < b < |d| ==> d[a] > d[b])
            && (forall i :: 0 <= i < n && Undoable(steps[i]) ==> i in d)
  {
    if n > 0 {
      DescendingDecreases(steps, n - 1);
    }
  }

  /** The compensations dispatched so far are a leading part of the steps that owe one, highest first. */
  lemma DispatchedInOrder(s: Run)
    requires Core(s)
    ensures var undone, owing := UndoSteps(s.jobs), Descending(s.steps, |s.steps|);
            && undone <= owing
            && (forall a, b :: 0 <= a < b < |undone| ==> undone[a] > undone[b])
            && (forall i :: i in undone ==> i < |s.steps| && DispatchedFor(s, i))
  {
    var undone, owing := UndoSteps(s.jobs), Descending(s.steps, |s.steps|);
    DescendingDecreases(s.steps, |s.steps|);
    assert undone == owing[..|undone|];
    forall i | i in undone ensures i < |s.steps| && DispatchedFor(s, i) {
      assert i in owing;
      UndoneIsDispatched(s, i);
    }
  }

  /** When nothing is owed any more, everything has been dispatched and compensated. */
  lemma NothingOwed(s: Run)
    requires Core(s) && !AnyOwed(s.steps)
    ensures UndoSteps(s.jobs) == Descending(s.steps, |s.steps|)
    ensures forall i :: 0 <= i < |s.steps| && Undoable(s.steps[i]) ==> s.steps[i].compensated
  {
    DescendingNone(s.steps, 0, Frontier(s));
  }

  /**
   Saga order. From any unwinding run, however the unwind goes on:
   - the compensations dispatched so far are the highest of the steps that owe one, each once, in
     strictly decreasing step order, each with its own step's arguments and result;
   - if the run ends without a failing compensation, that is all of them, every one succeeded, and
     the row is in the target state with the original error;
   - otherwise it halted in `failed` at the last one dispatched, the original error is kept, and no
     lower step has been touched.
   */
  lemma ReverseSaga(h: Handler, maxParallelism: nat, r: Run, labels: seq<Label>)
    requires Inv(h, r) && r.wf.state.Compensating? && maxParallelism >= 1
    ensures var s := Exec(h, maxParallelism, r, labels);
            var owing, undone := Descending(s.steps, |s.steps|), UndoSteps(s.jobs);
            && owing == Descending(r.steps, |r.steps|)
            && undone <= owing
            && (forall a, b :: 0 <= a < b < |undone| ==> undone[a] > undone[b])
            && (forall i :: i in undone ==> i < |s.steps| && DispatchedFor(s, i))
            && (Terminal(s.wf.state) ==> UnwoundFully(r, s) || HaltedUntouched(r, s))
  {
    var s := Exec(h, maxParallelism, r, labels);
    UnwindsToExec(h, maxParallelism, r, labels);
    DescendingSame(s.steps, r.steps, |r.steps|);
    DispatchedInOrder(s);
    if !AnyOwed(s.steps) {
      NothingOwed(s);
    }
  }

  /** Every owed compensation ran and succeeded. */
  ghost predicate UnwoundFully(r: Run, s: Run) {
    && UndoSteps(s.jobs) == Descending(s.steps, |s.steps|)
    && s.wf.state == TerminalFor(UnwindTarget(r)) && s.wf.error == r.wf.error
    && (forall i :: 0 <= i < |s.steps| && Undoable(s.steps[i]) ==> s.steps[i].compensated)
  }

  /** A compensation failed: the run is `failed`, and no step below the failing one has been touched. */
  ghost predicate HaltedUntouched(r: Run, s: Run) {
    && UndoSteps(s.jobs) != [] && s.wf.state.Failed? && Halted(s, r.wf.error)
    && (forall i :: 0 <= i < Frontier(s) ==> !s.steps[i].compensated && s.steps[i].compensationJobId.None?)
  }

  /** The compensation job of step `i`: its handler, its own arguments and its own result. */
  ghost predicate DispatchedFor(s: Run, i: nat)
    requires i < |s.steps|
  {
    var row := s.steps[i];
    && Undoable(row) && row.compensationJobId.Some? && row.compensationJobId.value < |s.jobs|
    && var job := s.jobs[row.compensationJobId.value];
    && job.kind.UndoJob? && job.kind.step == i
    && job.fnPath == row.compensateFnPath.value && job.args == UndoArgs(row.args, row.state.result)
  }

  lemma UndoneIsDispatched(s: Run, i: nat)
    requires Core(s) && i in UndoSteps(s.jobs) && i < |s.steps|
    ensures DispatchedFor(s, i)
  {
    UndoneHasJob(s.jobs, i);
    var j :| 0 <= j < |s.jobs| && s.jobs[j].kind.UndoJob? && s.jobs[j].kind.step == i;
    assert JobInv(s, j) && StepInv(s, i);
  }

  lemma {:induction false} UndoneHasJob(jobs: seq<Job>, i: nat)
    requires i in UndoSteps(jobs)
    ensures exists j :: 0 <= j < |jobs| && jobs[j].kind.UndoJob? && jobs[j].kind.step == i
  {
    var n := |jobs| - 1;
    if !(jobs[n].kind.UndoJob? && jobs[n].kind.step == i) {
      UndoneHasJob(jobs[..n], i);
      var j :| 0 <= j < n && jobs[..n][j].kind.UndoJob? && jobs[..n][j].kind.step == i;
      assert jobs[j].kind.UndoJob?;
    }
  }
}
