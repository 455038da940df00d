/**
 Replay: a poll re-runs the handler from the top, answering each step from the journal.
 The module holds the replay loop, the function that specifies it, what it means to run a
 handler once directly, and the proof that the first agrees with the second.
 */
module WorkflowReplay {
  import opened Prelude
  import opened WorkflowTypes

  datatype ReplayOutcome =
    | Finished(result: Json)
    | Threw(error: WfError)
    | Suspended(newSteps: seq<NewStep>)

  /** The first `n` rows of the journal have all settled. */
  predicate SettledTo(rows: seq<StepRow>, n: nat)
    requires n <= |rows|
  {
    forall i :: 0 <= i < n ==> !rows[i].state.Pending?
  }

  predicate Settled(rows: seq<StepRow>) {
    SettledTo(rows, |rows|)
  }

  function OutcomeOf(s: StepState): Outcome
    requires !s.Pending?
  {
    match s
    case Success(v) => Resolved(v)
    case Failure(e) => Rejected(e)
  }

  /** What the handler has seen once the first `n` rows have settled. */
  function Seen(rows: seq<StepRow>, n: nat): (outs: seq<Outcome>)
    requires n <= |rows| && SettledTo(rows, n)
    ensures |outs| == n
    ensures forall i :: 0 <= i < n ==> outs[i] == OutcomeOf(rows[i].state)
  {
    seq(n, i requires 0 <= i < n => OutcomeOf(rows[i].state))
  }

  /** A journal row answers the request it was journaled for: same name, kind and arguments. */
  predicate Matches(row: StepRow, q: Request) {
    row.name == NameOf(q) && row.kind == KindOf(q) && row.args == ArgsOf(q)
  }

  function NewStepFor(q: Request, n: nat, now: int): NewStep {
    NewStep(n, NameOf(q), KindOf(q), ArgsOf(q), OptsOf(q, now))
  }

  /** The steps numbered `from`, `from + 1`, … that the tail of a wave still has to start. */
  function NewSteps(reqs: seq<Request>, from: nat, now: int): (ns: seq<NewStep>)
    ensures |ns| == |reqs|
    ensures forall i :: 0 <= i < |ns| ==> ns[i] == NewStepFor(reqs[i], from + i, now)
  {
    seq(|reqs|, i requires 0 <= i < |reqs| => NewStepFor(reqs[i], from + i, now))
  }

  /** How many rows the journal already has for the wave `reqs` that starts at step `pos`. */
  function Journaled(reqs: seq<Request>, journal: seq<StepRow>, pos: nat): nat
    requires pos <= |journal|
  {
    if |journal| - pos < |reqs| then |journal| - pos else |reqs|
  }

  predicate WaveMatches(reqs: seq<Request>, journal: seq<StepRow>, pos: nat)
    requires pos <= |journal|
  {
    forall i :: 0 <= i < Journaled(reqs, journal, pos) ==> Matches(journal[pos + i], reqs[i])
  }

  /** The specification of `runReplay` from step `pos` on, everything before it having settled. */
  function ReplayFrom(h: Handler, journal: seq<StepRow>, pos: nat, now: int): ReplayOutcome
    requires pos <= |journal| && SettledTo(journal, pos)
    decreases |journal| - pos
  {
    var a := h(Seen(journal, pos));
    match a
    case Return(v) => Finished(v)
    case Throw(e) => Threw(HandlerError(e))
    case Foreign => Suspended([])
    case Await(_, _) =>
      var reqs := Wave(a);
      var have := Journaled(reqs, journal, pos);
      if !WaveMatches(reqs, journal, pos) then Threw(JournalMismatch)
      else if have == |reqs| && SettledTo(journal, pos + |reqs|) then ReplayFrom(h, journal, pos + |reqs|, now)
      else Suspended(NewSteps(reqs[have..], pos + have, now))
  }

  function Replay(h: Handler, journal: seq<StepRow>, now: int): ReplayOutcome {
    ReplayFrom(h, journal, 0, now)
  }

  /**
   The `requestStep` calls of one wave: `cursor` numbers them, cached rows are checked and
   inspected, and requests that fall off the end of the journal become new steps.
   */
  method RequestWave(reqs: seq<Request>, journal: seq<StepRow>, start: nat, now: int)
    returns (mismatch: bool, newSteps: seq<NewStep>, blocked: bool)
    requires start <= |journal| && SettledTo(journal, start)
    ensures mismatch <==> !WaveMatches(reqs, journal, start)
    ensures !mismatch ==> newSteps == NewSteps(reqs[Journaled(reqs, journal, start)..], start + Journaled(reqs, journal, start), now)
    ensures !mismatch ==> (!blocked <==> start + |reqs| <= |journal| && SettledTo(journal, start + |reqs|))
  {
    ghost var have := Journaled(reqs, journal, start);
    newSteps, blocked, mismatch := [], false, false;
    var cursor := start;
    for i := 0 to |reqs|
      invariant cursor == start + i
      invariant forall k :: 0 <= k < i && k < have ==> Matches(journal[start + k], reqs[k])
      invariant i <= have ==> newSteps == [] && (blocked <==> !SettledTo(journal, start + i))
      invariant have < i ==> blocked && |newSteps| == i - have
      invariant have < i ==> forall k :: 0 <= k < |newSteps| ==> newSteps[k] == NewStepFor(reqs[have + k], start + have + k, now)
    {
      var idx := cursor;
      cursor := cursor + 1;
      if idx < |journal| {
        var cached := journal[idx];
        if !(cached.name == NameOf(reqs[i]) && cached.kind == KindOf(reqs[i]) && cached.args == ArgsOf(reqs[i])) {
          assert !Matches(journal[start + i], reqs[i]);
          mismatch := true;
          return;
        }
        if cached.state.Pending? {
          blocked := true;
        }
      } else {
        newSteps := newSteps + [NewStepFor(reqs[i], idx, now)];
        blocked := true;
      }
    }
    assert !mismatch ==> newSteps == NewSteps(reqs[have..], start + have, now);
  }

  /** The drive loop of `runReplay`: race through settled waves until the handler settles or blocks. */
  method RunReplay(h: Handler, journal: seq<StepRow>, now: int) returns (outcome: ReplayOutcome)
    ensures outcome == Replay(h, journal, now)
  {
    var cursor := 0;
    while true
      invariant cursor <= |journal| && SettledTo(journal, cursor)
      invariant Replay(h, journal, now) == ReplayFrom(h, journal, cursor, now)
      decreases |journal| - cursor
    {
      var a := h(Seen(journal, cursor));
      match a
      case Return(v) => return Finished(v);
      case Throw(e) => return Threw(HandlerError(e));
      case Foreign => return Suspended([]);
      case Await(_, _) =>
        var reqs := Wave(a);
        var mismatch, newSteps, blocked := RequestWave(reqs, journal, cursor, now);
        if mismatch {
          return Threw(JournalMismatch);
        }
        if blocked {
          return Suspended(newSteps);
        }
        cursor := cursor + |reqs|;
    }
  }

  // ---------------------------------------------------------------- running a handler directly

  /** The outcome of every step, by step number. */
  type Oracle = nat -> Outcome

  function History(o: Oracle, n: nat): (outs: seq<Outcome>)
    ensures |outs| == n
    ensures forall i :: 0 <= i < n ==> outs[i] == o(i)
  {
    seq(n, i requires 0 <= i < n => o(i))
  }

  datatype DirectRun = Ended(last: Act, taken: nat) | OutOfBudget

  /** Running the handler once, in one go: every wave is answered at once from the oracle. */
  function RunDirect(h: Handler, o: Oracle, pos: nat, budget: nat): (d: DirectRun)
    ensures d.Ended? ==> !d.last.Await? && pos <= d.taken && d.last == h(History(o, d.taken))
    decreases if pos <= budget then budget - pos + 1 else 0
  {
    var a := h(History(o, pos));
    if !a.Await? then Ended(a, pos)
    else if pos + |Wave(a)| > budget then OutOfBudget
    else RunDirect(h, o, pos + |Wave(a)|, budget)
  }

  /** The journal's settled rows are answered by the oracle. */
  ghost predicate Consistent(o: Oracle, rows: seq<StepRow>) {
    forall i :: 0 <= i < |rows| && !rows[i].state.Pending? ==> OutcomeOf(rows[i].state) == o(i)
  }

  /** A larger budget does not change how a direct run ends. */
  lemma {:induction false} BudgetMonotone(h: Handler, o: Oracle, pos: nat, budget: nat, more: nat)
    requires budget <= more && RunDirect(h, o, pos, budget).Ended?
    ensures RunDirect(h, o, pos, more) == RunDirect(h, o, pos, budget)
    decreases if pos <= budget then budget - pos + 1 else 0
  {
    var a := h(History(o, pos));
    if a.Await? {
      BudgetMonotone(h, o, pos + |Wave(a)|, budget, more);
    }
  }

  /** What the handler sees in a settled prefix is what the oracle says. */
  lemma SeenIsHistory(o: Oracle, rows: seq<StepRow>, n: nat)
    requires n <= |rows| && SettledTo(rows, n) && Consistent(o, rows)
    ensures Seen(rows, n) == History(o, n)
  {
  }

  // ---------------------------------------------------------------- the shape of a journal

  /**
   The journal from step `pos` on is what the handler emits: whole settled waves, then a prefix
   of the wave it is blocked on, and nothing after a return, a throw or a foreign await.
   */
  predicate ShapeFrom(h: Handler, journal: seq<StepRow>, pos: nat)
    requires pos <= |journal| && SettledTo(journal, pos)
    decreases |journal| - pos
  {
    var a := h(Seen(journal, pos));
    if !a.Await? then |journal| == pos
    else
      var end := pos + |Wave(a)|;
      && WaveMatches(Wave(a), journal, pos)
      && (|journal| > end ==> SettledTo(journal, end))
      && (|journal| >= end && SettledTo(journal, end) ==> ShapeFrom(h, journal, end))
  }

  predicate Shape(h: Handler, journal: seq<StepRow>) {
    ShapeFrom(h, journal, 0)
  }

  /** The step a replay from `pos` comes to a stop at: where the first wave starts that has not settled, if any. */
  function StopsAt(h: Handler, journal: seq<StepRow>, pos: nat): (stop: nat)
    requires pos <= |journal| && SettledTo(journal, pos)
    ensures pos <= stop <= |journal| && SettledTo(journal, stop)
    decreases |journal| - pos
  {
    var a := h(Seen(journal, pos));
    if a.Await? && pos + |Wave(a)| <= |journal| && SettledTo(journal, pos + |Wave(a)|) then StopsAt(h, journal, pos + |Wave(a)|)
    else pos
  }

  /** What a suspended replay emits: the requests of the wave it stopped at, from the end of the journal on. */
  ghost predicate EmitsRest(h: Handler, journal: seq<StepRow>, stop: nat, newSteps: seq<NewStep>, now: int)
    requires stop <= |journal| && SettledTo(journal, stop)
  {
    var a := h(Seen(journal, stop));
    if a.Await? then |journal| - stop <= |Wave(a)| && newSteps == NewSteps(Wave(a)[|journal| - stop..], |journal|, now)
    else a.Foreign? && newSteps == []
  }

  /**
   In a well-shaped journal a replay never runs into a mismatch; it settles only when every row
   has; and the steps it emits are, in name, kind, arguments and options, the requests of the wave
   it stopped at that are not journaled yet, numbered on from the end of the journal.
   */
  lemma {:induction false} ReplayOfShape(h: Handler, journal: seq<StepRow>, pos: nat, now: int)
    requires pos <= |journal| && SettledTo(journal, pos) && ShapeFrom(h, journal, pos)
    ensures var out := ReplayFrom(h, journal, pos, now);
            && (out.Threw? ==> out.error.HandlerError?)
            && (!out.Suspended? ==> Settled(journal))
            && (out.Suspended? ==> EmitsRest(h, journal, StopsAt(h, journal, pos), out.newSteps, now))
            && (out.Suspended? ==> forall i :: 0 <= i < |out.newSteps| ==> out.newSteps[i].stepNumber == |journal| + i)
    decreases |journal| - pos
  {
    var a := h(Seen(journal, pos));
    if a.Await? && |journal| >= pos + |Wave(a)| && SettledTo(journal, pos + |Wave(a)|) {
      ReplayOfShape(h, journal, pos + |Wave(a)|, now);
    }
  }

  /**
   Replay preserves meaning: whatever oracle agrees with a well-shaped journal, a replay
   finishes (or throws) exactly when every row has settled and running the handler once
   directly, for as many steps as are journaled, returns (or throws), with the same value.
   */
  lemma {:induction false} ReplayIsDirect(h: Handler, journal: seq<StepRow>, pos: nat, o: Oracle, now: int)
    requires pos <= |journal| && SettledTo(journal, pos) && ShapeFrom(h, journal, pos)
    requires Consistent(o, journal)
    ensures var out := ReplayFrom(h, journal, pos, now);
            var run := RunDirect(h, o, pos, |journal|);
            && (forall v :: out == Finished(v) <==> Settled(journal) && run == Ended(Return(v), |journal|))
            && (forall e :: out == Threw(HandlerError(e)) <==> Settled(journal) && run == Ended(Throw(e), |journal|))
            && (out == Suspended([]) && Settled(journal) <==> Settled(journal) && run == Ended(Foreign, |journal|))
    decreases |journal| - pos
  {
    SeenIsHistory(o, journal, pos);
    var a := h(Seen(journal, pos));
    if a.Await? && |journal| >= pos + |Wave(a)| {
      if SettledTo(journal, pos + |Wave(a)|) {
        ReplayIsDirect(h, journal, pos + |Wave(a)|, o, now);
      }
    }
  }
}
