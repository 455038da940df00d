/**
 What becomes of a run when one of its own driver jobs is dead-lettered. `_advance` and `_compensate`
 are enqueued with the default retry budget and without a callback, so that nobody is told.
 */
module WorkflowDeadLetter {
  import opened Prelude
  import opened Sums
  import opened WorkflowTypes
  import opened WorkflowMachine
  import opened WorkflowReplay
  import opened WorkflowRuns
  import opened WorkflowInvariant

  /** The job is over and had no effect. */
  function DeadLetter(r: Run, j: nat): Run
    requires j < |r.jobs|
  {
    SetPhase(r, j, Delivered)
  }

  predicate QueuedAdvance(job: Job) {
    job.kind.AdvanceJob? && job.phase.Queued?
  }

  predicate HasAdvance(r: Run) {
    exists j :: 0 <= j < |r.jobs| && QueuedAdvance(r.jobs[j])
  }

  predicate OtherAdvance(r: Run, j: nat) {
    exists k :: 0 <= k < |r.jobs| && k != j && QueuedAdvance(r.jobs[k])
  }

  predicate NoCancel(labels: seq<Label>) {
    forall i :: 0 <= i < |labels| ==> !labels[i].RequestCancel?
  }

  /** Whatever happens, short of a cancel: the row and the journal stay as they are, and there is no poll to come. */
  ghost predicate Stranded(h: Handler, maxParallelism: nat, r: Run) {
    forall labels :: NoCancel(labels) ==>
      var e := Exec(h, maxParallelism, r, labels); e.wf == r.wf && e.steps == r.steps && !HasAdvance(e)
  }

  // ---------------------------------------------------------------- a poll that is dead-lettered

  /** Running, with nothing outstanding. */
  predicate Stuck(r: Run) {
    r.wf.state.Running? && Settled(r.steps) && !HasAdvance(r)
  }

  /** In a stuck run the jobs of all steps are over. */
  lemma StepJobsOver(r: Run, j: nat)
    requires Core(r) && Stuck(r) && j < |r.jobs|
    ensures r.jobs[j].phase.Delivered? || (Internal(r.jobs[j].kind) && r.jobs[j].phase.Queued?)
  {
    assert JobInv(r, j);
    if r.jobs[j].kind.ForwardJob? {
      assert StepInv(r, r.jobs[j].kind.step);
    }
  }

  /** No report can arrive, and no event can wake it: only the run's own callback may be left. */
  lemma NothingOutstanding(r: Run, l: Label)
    requires Core(r) && Stuck(r) && Enabled(r, l) && !l.RequestCancel?
    ensures l.RunJob? && r.jobs[l.job].kind.NotifyJob?
  {
    if l.Signal? {
      WaitingHasParked(r, l.name);
    } else {
      StepJobsOver(r, l.job);
      SumBound(r.jobs, TokenWeight(), l.job);
    }
  }

  lemma StuckStep(h: Handler, maxParallelism: nat, r: Run, l: Label)
    requires Core(r) && Stuck(r) && !l.RequestCancel?
    ensures var s := Step(h, maxParallelism, r, l); Core(s) && Stuck(s) && s.wf == r.wf && s.steps == r.steps
  {
    if Enabled(r, l) {
      NothingOutstanding(r, l);
      PhaseKeepsCore(r, l.job, Delivered);
      assert forall k :: 0 <= k < |r.jobs| ==> !QueuedAdvance(r.jobs[k]);
    }
  }

  lemma {:induction false} StuckStays(h: Handler, maxParallelism: nat, r: Run, labels: seq<Label>)
    requires Core(r) && Stuck(r) && NoCancel(labels)
    ensures var e := Exec(h, maxParallelism, r, labels); Core(e) && Stuck(e) && e.wf == r.wf && e.steps == r.steps
  {
    if labels != [] {
      var front := labels[..|labels| - 1];
      StuckStays(h, maxParallelism, r, front);
      StuckStep(h, maxParallelism, Exec(h, maxParallelism, r, front), labels[|labels| - 1]);
    }
  }

  // ---------------------------------------------------------------- a pending step brings the next poll

  lemma {:induction false} ExecFirst(h: Handler, maxParallelism: nat, r: Run, l: Label, labels: seq<Label>)
    ensures Exec(h, maxParallelism, r, [l] + labels) == Exec(h, maxParallelism, Step(h, maxParallelism, r, l), labels)
  {
    var all := [l] + labels;
    if labels == [] {
      assert all[..0] == [];
    } else {
      assert all[..|all| - 1] == [l] + labels[..|labels| - 1];
      ExecFirst(h, maxParallelism, r, l, labels[..|labels| - 1]);
    }
  }

  lemma ExecOne(h: Handler, maxParallelism: nat, r: Run, l: Label)
    ensures Exec(h, maxParallelism, r, [l]) == Step(h, maxParallelism, r, l)
  {
    assert [l][..0] == [];
    assert Exec(h, maxParallelism, r, []) == r;
  }

  function StepsToGo(p: Phase): nat {
    match p
    case Queued => 2
    case Claimed => 1
    case _ => 0
  }

  /** Some way for the job of a pending step to end, and queue a poll. */
  lemma {:induction false} JobBringsPoll(h: Handler, maxParallelism: nat, r: Run, i: nat) returns (labels: seq<Label>)
    requires Core(r) && r.wf.state.Running? && i < |r.steps| && r.steps[i].state.Pending? && !r.steps[i].kind.WaitForEvent?
    ensures NoCancel(labels) && HasAdvance(Exec(h, maxParallelism, r, labels))
    decreases var id := r.steps[i].scheduledJobId; if id.Some? && id.value < |r.jobs| then StepsToGo(r.jobs[id.value].phase) else 0
  {
    assert StepInv(r, i);
    var j := r.steps[i].scheduledJobId.value;
    var l := if r.jobs[j].phase.Queued? then ClaimJob(j) else if r.jobs[j].phase.Claimed? then ReportJob(j, JobFailed("")) else DeliverReport(j, 0);
    var s := Step(h, maxParallelism, r, l);
    if l.DeliverReport? {
      DeliveryQueuesPoll(h, maxParallelism, r, i);
      ExecOne(h, maxParallelism, r, l);
      labels := [l];
    } else {
      PhaseKeepsCore(r, j, s.jobs[j].phase);
      var rest := JobBringsPoll(h, maxParallelism, s, i);
      ExecFirst(h, maxParallelism, r, l, rest);
      labels := [l] + rest;
    }
  }

  lemma DeliveryQueuesPoll(h: Handler, maxParallelism: nat, r: Run, i: nat)
    requires Core(r) && r.wf.state.Running? && i < |r.steps| && r.steps[i].state.Pending? && StepInv(r, i)
    requires !r.steps[i].kind.WaitForEvent? && r.jobs[r.steps[i].scheduledJobId.value].phase.Reported?
    ensures HasAdvance(Step(h, maxParallelism, r, DeliverReport(r.steps[i].scheduledJobId.value, 0)))
  {
    var s := Step(h, maxParallelism, r, DeliverReport(r.steps[i].scheduledJobId.value, 0));
    FindStepIs(r, i);
    assert QueuedAdvance(s.jobs[|r.jobs|]);
  }

  lemma EventBringsPoll(h: Handler, maxParallelism: nat, r: Run, i: nat) returns (labels: seq<Label>)
    requires Core(r) && i < |r.steps| && r.steps[i].state.Pending? && r.steps[i].kind.WaitForEvent?
    ensures NoCancel(labels) && HasAdvance(Exec(h, maxParallelism, r, labels))
  {
    var name := r.steps[i].name;
    assert IsParked(r.steps[i], name);
    SumBound(r.steps, ParkedWeight(name), i);
    var e := SumWitness(r.events, WaitingWeight(name));
    labels := [Signal(name, "")];
    ExecOne(h, maxParallelism, r, Signal(name, ""));
    assert QueuedAdvance(Step(h, maxParallelism, r, Signal(name, "")).jobs[|r.jobs|]);
  }

  lemma StrandedIffStuck(h: Handler, maxParallelism: nat, r: Run)
    requires Core(r) && r.wf.state.Running?
    ensures Stranded(h, maxParallelism, r) <==> Stuck(r)
  {
    if Stuck(r) {
      forall labels | NoCancel(labels)
        ensures var e := Exec(h, maxParallelism, r, labels); e.wf == r.wf && e.steps == r.steps && !HasAdvance(e)
      {
        StuckStays(h, maxParallelism, r, labels);
      }
    } else if HasAdvance(r) {
      assert NoCancel([]) && Exec(h, maxParallelism, r, []) == r;
    } else {
      var i :| 0 <= i < |r.steps| && r.steps[i].state.Pending?;
      var labels;
      if r.steps[i].kind.WaitForEvent? {
        labels := EventBringsPoll(h, maxParallelism, r, i);
      } else {
        labels := JobBringsPoll(h, maxParallelism, r, i);
      }
    }
  }

  lemma DeadAdvanceKeepsCore(h: Handler, r: Run, j: nat)
    requires Inv(h, r) && j < |r.jobs| && QueuedAdvance(r.jobs[j])
    ensures var dead := DeadLetter(r, j); Core(dead) && Shape(h, dead.steps) && (HasAdvance(dead) <==> OtherAdvance(r, j))
  {
    var dead := DeadLetter(r, j);
    PhaseKeepsCore(r, j, Delivered);
    if HasAdvance(dead) {
      var k :| 0 <= k < |dead.jobs| && QueuedAdvance(dead.jobs[k]);
      assert k != j && QueuedAdvance(r.jobs[k]);
    }
    if OtherAdvance(r, j) {
      var k :| 0 <= k < |r.jobs| && k != j && QueuedAdvance(r.jobs[k]);
      assert QueuedAdvance(dead.jobs[k]);
    }
  }

  /**
   A poll that is dead-lettered strands a running run if and only if every step has settled and no other
   poll is queued. Otherwise the run goes on as if nothing had happened: it keeps the invariant.
   */
  lemma DeadAdvanceStrandsIff(h: Handler, maxParallelism: nat, r: Run, j: nat)
    requires Inv(h, r) && r.wf.state.Running? && j < |r.jobs| && QueuedAdvance(r.jobs[j])
    ensures Stranded(h, maxParallelism, DeadLetter(r, j)) <==> Settled(r.steps) && !OtherAdvance(r, j)
    ensures (Settled(r.steps) && !OtherAdvance(r, j)) || Inv(h, DeadLetter(r, j))
  {
    var dead := DeadLetter(r, j);
    DeadAdvanceKeepsCore(h, r, j);
    StrandedIffStuck(h, maxParallelism, dead);
    if HasAdvance(dead) {
      var k :| 0 <= k < |dead.jobs| && QueuedAdvance(dead.jobs[k]);
      assert dead.jobs[k].kind.AdvanceJob? && dead.jobs[k].phase.Queued?;
    }
  }

  /** A cancel is the way out: after it the run keeps the invariant again. */
  lemma CancelFrees(h: Handler, r: Run, j: nat, compensate: bool, now: int)
    requires Inv(h, r) && r.wf.state.Running? && j < |r.jobs| && QueuedAdvance(r.jobs[j])
    ensures var freed := CancelRun(DeadLetter(r, j), compensate, now); Inv(h, freed) && !freed.wf.state.Running?
  {
    DeadAdvanceKeepsCore(h, r, j);
    CancelKeepsCore(DeadLetter(r, j), compensate, now);
  }

  // ---------------------------------------------------------------- a dead-lettered unwind

  /** Compensating, with no token left and no forward report that would count. */
  predicate TokenLost(r: Run) {
    && r.wf.state.Compensating?
    && forall k :: 0 <= k < |r.jobs| ==>
         && !UnwindToken(r.jobs[k])
         && (r.jobs[k].kind.ForwardJob? && !r.jobs[k].phase.Delivered? ==> r.jobs[k].kind.gen < r.wf.generationNumber)
  }

  lemma TokenLostStep(h: Handler, maxParallelism: nat, r: Run, l: Label)
    requires TokenLost(r)
    ensures var s := Step(h, maxParallelism, r, l); TokenLost(s) && s.wf == r.wf
  {
  }

  lemma {:induction false} TokenLostStays(h: Handler, maxParallelism: nat, r: Run, labels: seq<Label>)
    requires TokenLost(r)
    ensures var e := Exec(h, maxParallelism, r, labels); TokenLost(e) && e.wf == r.wf
  {
    if labels != [] {
      var front := labels[..|labels| - 1];
      TokenLostStays(h, maxParallelism, r, front);
      TokenLostStep(h, maxParallelism, Exec(h, maxParallelism, r, front), labels[|labels| - 1]);
    }
  }

  /**
   A step of the unwind that is dead-lettered always strands the run: whatever happens afterwards, a cancel
   included, it stays compensating.
   */
  lemma DeadUnwindStrands(h: Handler, maxParallelism: nat, r: Run, j: nat, labels: seq<Label>)
    requires Inv(h, r) && j < |r.jobs| && r.jobs[j].kind.UnwindJob? && r.jobs[j].phase.Queued?
    ensures r.wf.state.Compensating? && Exec(h, maxParallelism, DeadLetter(r, j), labels).wf == r.wf
  {
    var dead := DeadLetter(r, j);
    SumBound(r.jobs, TokenWeight(), j);
    SumUpdate(r.jobs, j, dead.jobs[j], TokenWeight());
    forall k | 0 <= k < |dead.jobs|
      ensures !UnwindToken(dead.jobs[k])
      ensures dead.jobs[k].kind.ForwardJob? && !dead.jobs[k].phase.Delivered? ==> dead.jobs[k].kind.gen < r.wf.generationNumber
    {
      SumBound(dead.jobs, TokenWeight(), k);
      assert JobInv(r, k);
    }
    TokenLostStays(h, maxParallelism, dead, labels);
  }
}
