/**
 The scheduler's driver loop: one pass at a time, woken by commits and by one timer. Everything
 between two awaits is one step; the steps of the driver interleave freely with commits, with the
 delivery of their notifications, with the clock and with `stop`, `start` and crashes.
 */
module SchedulerDriver {
  import opened Prelude
  import opened SchedulerTable

  /** Where the pass in flight stands. `Settling`: it has returned or thrown, its `finally` has not run yet. */
  datatype Pc =
    | Idle
    | Peeking
    | Dispatching(queue: seq<JobId>, earliest: Option<int>)
    | Working(id: JobId, queue: seq<JobId>, earliest: Option<int>)
    | Settling

  /** The driver's variables. A timer that has fired is `None`. */
  datatype Loop = Loop(stopped: bool, running: bool, pendingWake: bool, timer: Option<int>, pc: Pc)

  /** When each pending job is due. */
  type Pending = map<JobId, int>

  predicate AllPending(p: Pending, q: seq<JobId>) {
    forall i :: 0 <= i < |q| ==> q[i] in p
  }

  /** `earliest` is the smallest due time, if any job is pending. */
  ghost predicate IsEarliest(p: Pending, earliest: Option<int>) {
    if earliest.None? then p == map[]
    else (exists j :: j in p && p[j] == earliest.value) && forall j :: j in p ==> earliest.value <= p[j]
  }

  function After(p: Pending, now: int): Pending {
    map j | j in p && p[j] > now :: p[j]
  }

  /** `scheduler:_peekDue`: the jobs due first, at most a batch of them, and the earliest due time in the future. */
  ghost predicate IsPeek(p: Pending, now: int, due: seq<JobId>, earliest: Option<int>) {
    && AllPending(p, due) && |due| <= BATCH_CAP
    && (forall i, j :: 0 <= i < j < |due| ==> due[i] != due[j] && p[due[i]] <= p[due[j]])
    && (forall i :: 0 <= i < |due| ==> p[due[i]] <= now)
    && (forall j :: j in p && p[j] <= now && j !in due ==> |due| == BATCH_CAP && forall i :: 0 <= i < |due| ==> p[due[i]] <= p[j])
    && IsEarliest(After(p, now), earliest)
  }

  // ---------------------------------------------------------------- the driver's own steps

  /** `iterate`: start a pass, or leave a mark for the one in flight. */
  function Iterated(d: Loop): Loop {
    if d.running then d.(pendingWake := true) else d.(running := true, pendingWake := false, pc := Peeking)
  }

  function Woken(d: Loop): Loop {
    if d.stopped then d else Iterated(d)
  }

  /** The end of one pass: go round again, or set the timer and return. */
  function PassEnded(d: Loop): Loop
    requires d.pc.Dispatching?
  {
    if d.pendingWake then d.(pendingWake := false, pc := Peeking)
    else d.(timer := if d.stopped then None else d.pc.earliest, pc := Settling)
  }

  function Finished(d: Loop): Loop {
    var idle := d.(running := false, pc := Idle);
    if d.pendingWake then Woken(idle) else idle
  }

  function Halted(d: Loop): Loop {
    d.(stopped := true, timer := None)
  }

  function Started(d: Loop): Loop {
    Woken(d.(stopped := false))
  }

  /** The driver object, one method for each stretch of code between awaits. */
  class DriverLoop {
    var stopped: bool
    var running: bool
    var pendingWake: bool
    var timer: Option<int>
    var pc: Pc

    constructor ()
      ensures View() == Loop(true, false, false, None, Idle)
    {
      stopped, running, pendingWake, timer, pc := true, false, false, None, Idle;
    }

    function View(): Loop
      reads this
    {
      Loop(stopped, running, pendingWake, timer, pc)
    }

    method Iterate()
      modifies this
      ensures View() == Iterated(old(View()))
    {
      if running {
        pendingWake := true;
        return;
      }
      running := true;
      BeginPass();
    }

    method BeginPass()
      modifies this
      ensures View() == old(View()).(pendingWake := false, pc := Peeking)
    {
      pendingWake := false;
      pc := Peeking;
    }

    method Wake()
      modifies this
      ensures View() == Woken(old(View()))
    {
      if stopped {
        return;
      }
      Iterate();
    }

    method EndPass()
      requires pc.Dispatching?
      modifies this
      ensures View() == PassEnded(old(View()))
    {
      if pendingWake {
        BeginPass();
        return;
      }
      if timer.Some? {
        timer := None;
      }
      if !stopped && pc.earliest.Some? {
        timer := pc.earliest;
      }
      pc := Settling;
    }

    method Finally()
      modifies this
      ensures View() == Finished(old(View()))
    {
      running, pc := false, Idle;
      if pendingWake {
        Wake();
      }
    }

    method Start()
      modifies this
      ensures View() == Started(old(View()))
    {
      stopped := false;
      Wake();
    }

    method Stop()
      modifies this
      ensures View() == Halted(old(View()))
    {
      stopped := true;
      if timer.Some? {
        timer := None;
      }
    }
  }

  // ---------------------------------------------------------------- the driver in its world

  /**
   `undelivered` counts the commits whose notification is still on its way. Three history variables:
   `dirty`, a commit came after the last peek; `threw`, since the last peek a pass has thrown at its
   peek, or before anything was committed after it; `atThrow`, what was pending then and the timer.
   */
  datatype World = World(now: int, pending: Pending, undelivered: nat, loop: Loop, dirty: bool, threw: bool, atThrow: Arming)

  datatype Arming = Arming(pending: Pending, timer: Option<int>)

  datatype Label =
    | Clock(now: int)
    | Commit(pending: Pending)
    | Deliver
    | Fire
    | Peek(due: seq<JobId>, earliest: Option<int>)
    | ClaimNext
    | CompleteJob(written: Option<Pending>)
    | End
    | Settle
    | Throw
    | Stopping
    | Starting
    | Crash

  const INITIAL := World(0, map[], 0, Loop(true, false, false, None, Idle), false, false, Arming(map[], None))

  function Committed(w: World, p: Pending): World {
    w.(pending := p, undelivered := w.undelivered + 1, dirty := true)
  }

  ghost predicate Enabled(w: World, l: Label) {
    match l
    case Clock(now) => w.now <= now
    case Commit(_) => true
    case Deliver => w.undelivered > 0
    case Fire => w.loop.timer.Some? && w.loop.timer.value <= w.now
    case Peek(due, earliest) => w.loop.pc.Peeking? && IsPeek(w.pending, w.now, due, earliest)
    case ClaimNext => w.loop.pc.Dispatching? && w.loop.pc.queue != []
    case CompleteJob(_) => w.loop.pc.Working?
    case End => w.loop.pc.Dispatching? && w.loop.pc.queue == []
    case Settle => w.loop.pc.Settling?
    case Throw => w.loop.pc.Peeking? || w.loop.pc.Working? || (w.loop.pc.Dispatching? && w.loop.pc.queue != [])
    case Stopping => !w.loop.stopped
    case Starting => w.loop.stopped
    case Crash => true
  }

  /**
   A claim of a job that is no longer pending writes nothing. A completion that finds its job
   reclaimed writes nothing (`None`); otherwise it may leave a retry or a callback pending.
   */
  function Step(w: World, l: Label): World
    requires Enabled(w, l)
  {
    match l
    case Clock(now) => w.(now := now)
    case Commit(p) => Committed(w, p)
    case Deliver => w.(undelivered := w.undelivered - 1, loop := Woken(w.loop))
    case Fire => w.(loop := Woken(w.loop.(timer := None)))
    case Peek(due, earliest) => w.(loop := w.loop.(pc := Dispatching(due, earliest)), dirty := false, threw := false)
    case ClaimNext =>
      var id, rest := w.loop.pc.queue[0], w.loop.pc.queue[1..];
      if id in w.pending
      then Committed(w, w.pending - {id}).(loop := w.loop.(pc := Working(id, rest, w.loop.pc.earliest)))
      else w.(loop := w.loop.(pc := Dispatching(rest, w.loop.pc.earliest)))
    case CompleteJob(p) =>
      (if p.Some? then Committed(w, p.value) else w).(loop := w.loop.(pc := Dispatching(w.loop.pc.queue, w.loop.pc.earliest)))
    case End => w.(loop := PassEnded(w.loop))
    case Settle => w.(loop := Finished(w.loop))
    case Throw =>
      var settling := w.(loop := w.loop.(pc := Settling));
      if w.loop.pc.Peeking? || !w.dirty then settling.(threw := true, atThrow := Arming(w.pending, w.loop.timer)) else settling
    case Stopping => w.(loop := Halted(w.loop))
    case Starting => w.(loop := Started(w.loop))
    case Crash => w.(loop := Loop(true, false, false, None, Idle))
  }

  datatype Trace = Empty | Then(before: Trace, step: Label, after: World)

  function Last(tr: Trace): World {
    if tr.Empty? then INITIAL else tr.after
  }

  ghost predicate Valid(tr: Trace) {
    tr.Then? ==> Valid(tr.before) && Enabled(Last(tr.before), tr.step) && tr.after == Step(Last(tr.before), tr.step)
  }

  // ---------------------------------------------------------------- no lost wake

  /** A commit the loop has not seen is on its way, or the pass in flight will go round again. */
  predicate Owed(w: World) {
    w.undelivered > 0 || w.loop.pendingWake
  }

  ghost predicate Inv(w: World) {
    var d := w.loop;
    && (d.running <==> !d.pc.Idle?)
    && (d.stopped ==> d.timer.None?)
    && (d.pc.Idle? && !d.stopped ==> !d.pendingWake)
    && (!d.stopped && !d.pc.Peeking? && !w.threw && w.dirty ==> Owed(w))
    && (d.pc.Dispatching? && !w.dirty ==>
          if d.pc.queue == [] then IsEarliest(w.pending, d.pc.earliest) else AllPending(w.pending, d.pc.queue))
    && (d.pc.Working? ==> w.dirty)
    && (!d.stopped && (d.pc.Idle? || d.pc.Settling?) && !w.threw && !w.dirty ==> d.pendingWake || IsEarliest(w.pending, d.timer))
    && (d.pc.Dispatching? || d.pc.Working? ==> !w.threw)
    && (!d.stopped && (d.pc.Idle? || d.pc.Settling?) && w.threw ==> Owed(w) || w.atThrow == Arming(w.pending, d.timer))
  }

  lemma StepKeepsInv(w: World, l: Label)
    requires Inv(w) && Enabled(w, l)
    ensures Inv(Step(w, l))
  {
    if l.Peek? || l.ClaimNext? || l.CompleteJob? || l.End? {
      PassKeepsInv(w, l);
    }
  }

  lemma PassKeepsInv(w: World, l: Label)
    requires Inv(w) && Enabled(w, l) && (l.Peek? || l.ClaimNext? || l.CompleteJob? || l.End?)
    ensures Inv(Step(w, l))
  {
    if l.Peek? && l.due == [] {
      assert After(w.pending, w.now) == w.pending;
    }
  }

  lemma {:induction false} ReachedInv(tr: Trace)
    requires Valid(tr)
    ensures Inv(Last(tr))
  {
    if tr.Then? {
      ReachedInv(tr.before);
      StepKeepsInv(Last(tr.before), tr.step);
    }
  }

  /**
   No lost wake: whenever the driver is started and idle, no notification is undelivered and no pass
   since the last peek threw before a commit, the timer is set to the smallest due time of a pending
   job, or there is neither. This holds whatever the size of the backlog, wherever wakes, stops and
   starts fell, and whatever else threw.
   */
  lemma NoLostWake(tr: Trace)
    requires Valid(tr) && Last(tr).loop.pc.Idle? && !Last(tr).loop.stopped && Last(tr).undelivered == 0
    requires !Last(tr).threw
    ensures IsEarliest(Last(tr).pending, Last(tr).loop.timer)
  {
    ReachedInv(tr);
  }

  /** `later` continues `tr`. */
  ghost predicate Continues(tr: Trace, later: Trace) {
    later == tr || (later.Then? && Continues(tr, later.before))
  }

  lemma {:induction false} ThrewAt(tr: Trace) returns (at: Trace)
    requires Valid(tr) && Last(tr).threw
    ensures Continues(at, tr) && at.Then? && at.step.Throw?
    ensures var w := Last(at.before); (w.loop.pc.Peeking? || !w.dirty) && Last(tr).atThrow == Arming(w.pending, w.loop.timer)
  {
    var w := Last(tr.before);
    if tr.step.Throw? && (w.loop.pc.Peeking? || !w.dirty) {
      at := tr;
    } else {
      at := ThrewAt(tr.before);
    }
  }

  /**
   The other case, exactly. If such a pass threw and nothing has woken the driver since, pending jobs
   and timer are those just before that throw, so the timer is right if and only if it was right then.
   */
  lemma TimerAfterThrowIff(tr: Trace) returns (at: Trace)
    requires Valid(tr) && Last(tr).loop.pc.Idle? && !Last(tr).loop.stopped && Last(tr).undelivered == 0
    requires Last(tr).threw
    ensures Continues(at, tr) && at.Then? && at.step.Throw? && (Last(at.before).loop.pc.Peeking? || !Last(at.before).dirty)
    ensures Last(tr).pending == Last(at.before).pending && Last(tr).loop.timer == Last(at.before).loop.timer
    ensures IsEarliest(Last(tr).pending, Last(tr).loop.timer) <==> IsEarliest(Last(at.before).pending, Last(at.before).loop.timer)
  {
    ReachedInv(tr);
    at := ThrewAt(tr);
  }

  /** It need not have been right: a first peek that throws leaves whatever jobs are pending without timer or wake. */
  lemma ThrownPeekStrands(p: Pending) returns (tr: Trace)
    requires p != map[]
    ensures Valid(tr) && Last(tr).loop.pc.Idle? && !Last(tr).loop.stopped && Last(tr).undelivered == 0 && Last(tr).threw
    ensures Last(tr).pending == p && Last(tr).loop.timer.None?
  {
    tr := StartedOn(p);
    tr := Extend(Extend(tr, Throw), Settle);
  }

  /** The first pass is about to peek at the jobs that were there before the driver was started. */
  lemma StartedOn(p: Pending) returns (tr: Trace)
    ensures Valid(tr) && Last(tr).pending == p && Last(tr).undelivered == 0 && Last(tr).loop == Loop(false, true, false, None, Peeking)
  {
    tr := Extend(Empty, Commit(p));
    tr := Extend(tr, Deliver);
    assert Last(tr).loop.stopped && !Last(tr).loop.running;
    tr := Extend(tr, Starting);
  }

  ghost function Extend(tr: Trace, l: Label): (longer: Trace)
    requires Enabled(Last(tr), l)
  {
    Then(tr, l, Step(Last(tr), l))
  }

  /** Once stopped, the driver sets no timer, and as soon as it is idle it stays so until it is started again. */
  lemma StoppedStaysQuiet(tr: Trace)
    requires Valid(tr) && tr.Then? && !tr.step.Starting? && Last(tr.before).loop.stopped
    ensures tr.after.loop.stopped && tr.after.loop.timer.None?
    ensures Last(tr.before).loop.pc.Idle? ==> tr.after.loop.pc.Idle?
  {
    ReachedInv(tr.before);
    StoppedStep(Last(tr.before), tr.step);
  }

  lemma StoppedStep(w: World, l: Label)
    requires Enabled(w, l) && !l.Starting? && w.loop.stopped && w.loop.timer.None?
    ensures Step(w, l).loop.stopped && Step(w, l).loop.timer.None?
    ensures w.loop.pc.Idle? ==> Step(w, l).loop.pc.Idle?
  {
  }
}
