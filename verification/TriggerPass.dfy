/**
 The cursor row of a trigger, the mutations on it, and one attempt of the driver to drain the log up
 to the bound it saw when it began.
 */
module TriggerPass {
  import opened Prelude
  import opened TriggerLog

  datatype CursorRow = CursorRow(
    cursorTs: nat,
    running: bool,
    failureCount: nat,
    lastError: Option<string>,
    pausedReason: Option<string>)

  type Row = Option<CursorRow>

  const MAX_CONSECUTIVE_FAILURES := 8
  const BREAKER_WINDOW_MS := 10000

  // ---------------------------------------------------------------- the mutations

  function InitCursor(row: Row, cursorTs: nat): Row {
    if row.Some? then row else Some(CursorRow(cursorTs, true, 0, None, None))
  }

  /** The compare-and-set: a driver whose idea of the cursor is out of date changes nothing. */
  function AdvanceCursor(row: Row, newCursorTs: nat, expectedPrev: nat): Row {
    if row.None? || row.value.cursorTs != expectedPrev then row
    else Some(row.value.(cursorTs := newCursorTs, failureCount := 0, lastError := None))
  }

  function RecordFailure(row: Row, error: string): Row {
    if row.None? then row
    else
      var failed := row.value.(failureCount := row.value.failureCount + 1, lastError := Some(error));
      Some(if failed.failureCount >= MAX_CONSECUTIVE_FAILURES
           then failed.(running := false, pausedReason := Some("max-failures")) else failed)
  }

  function Pause(row: Row, reason: string): Row {
    if row.None? || !row.value.running then row
    else Some(row.value.(running := false, pausedReason := Some(reason)))
  }

  function Resume(row: Row): Row {
    if row.None? then row
    else Some(row.value.(running := true, failureCount := 0, lastError := None, pausedReason := None))
  }

  class CursorTable {
    var row: Row

    constructor ()
      ensures row.None?
    {
      row := None;
    }

    method Init(cursorTs: nat) returns (created: CursorRow)
      modifies this
      ensures row == InitCursor(old(row), cursorTs) && row == Some(created)
    {
      if row.None? {
        row := Some(CursorRow(cursorTs, true, 0, None, None));
      }
      created := row.value;
    }

    method Advance(newCursorTs: nat, expectedPrev: nat)
      modifies this
      ensures row == AdvanceCursor(old(row), newCursorTs, expectedPrev)
    {
      if row.None? {
        return;
      }
      var current := row.value;
      if current.cursorTs != expectedPrev {
        return;
      }
      row := Some(current.(cursorTs := newCursorTs, failureCount := 0, lastError := None));
    }

    method Fail(error: string) returns (paused: bool)
      modifies this
      ensures row == RecordFailure(old(row), error)
      ensures paused <==> row.Some? && row.value.failureCount >= 8
    {
      if row.None? {
        return false;
      }
      var failureCount := row.value.failureCount + 1;
      paused := failureCount >= MAX_CONSECUTIVE_FAILURES;
      row := Some(row.value.(failureCount := failureCount, lastError := Some(error)));
      if paused {
        row := Some(row.value.(running := false, pausedReason := Some("max-failures")));
      }
    }

    method PauseWith(reason: string)
      modifies this
      ensures row == Pause(old(row), reason)
    {
      if row.Some? && row.value.running {
        row := Some(row.value.(running := false, pausedReason := Some(reason)));
      }
    }
  }

  // ---------------------------------------------------------------- one attempt

  /**
   What the world does while the driver waits: the handler's outcome, the clock, and new commits, the driver's
   own among them.
   */
  datatype Turn = Turn(now: int, ok: bool, error: string, delay: nat, more: seq<Entry>, bound: nat)

  datatype Breaker = Breaker(windowStart: int, count: nat)

  datatype PassEnd = BackingOff | WasPaused | Drained | Tripped | DeliveryFailed

  function Counted(w: Option<Breaker>, now: int): Breaker {
    if w.None? || now - w.value.windowStart >= BREAKER_WINDOW_MS then Breaker(now, 1)
    else w.value.(count := w.value.count + 1)
  }

  class TriggerDriver {
    const name: string
    const fromStart: bool
    const batchSize: nat
    const maxPerWindow: nat
    const world: nat -> Turn
    const cursors: CursorTable
    var log: Log
    var turn: nat
    var now: int
    var breaker: Option<Breaker>
    var nextAttemptAt: Option<int>
    var retryTimer: Option<int>
    /** What successful handler calls were given, in order. */
    var delivered: seq<Entry>

    constructor (name: string, fromStart: bool, batchSize: nat, maxPerWindow: nat, world: nat -> Turn, cursors: CursorTable, log: Log)
      ensures this.name == name && this.fromStart == fromStart && this.batchSize == batchSize && this.cursors == cursors
      ensures this.log == log && delivered == [] && nextAttemptAt.None?
    {
      this.name, this.fromStart, this.batchSize, this.maxPerWindow := name, fromStart, batchSize, maxPerWindow;
      this.world, this.cursors, this.log := world, cursors, log;
      turn, now, breaker, nextAttemptAt, retryTimer, delivered := 0, 0, None, None, None, [];
    }

    /** An await: others run, the log grows. */
    method Await() returns (seen: Turn)
      requires LogOk(log)
      modifies this`log, this`turn, this`now
      ensures LogOk(log) && Extends(old(log), log)
    {
      seen := world(turn);
      GrowExtends(log, seen.more, seen.bound);
      log := Grow(log, seen.more, seen.bound);
      turn, now := turn + 1, seen.now;
    }

    method RecordDelivery() returns (tripped: bool)
      modifies this`breaker
      ensures breaker == Some(Counted(old(breaker), now)) && (tripped <==> breaker.value.count > maxPerWindow)
      ensures if old(breaker).Some? && now < old(breaker).value.windowStart + 10000
              then breaker == Some(Breaker(old(breaker).value.windowStart, old(breaker).value.count + 1)) else breaker == Some(Breaker(now, 1))
    {
      var w := if breaker.None? || now - breaker.value.windowStart >= BREAKER_WINDOW_MS then Breaker(now, 0) else breaker.value;
      w := w.(count := w.count + 1);
      breaker := Some(w);
      return w.count > maxPerWindow;
    }

    method EnsureCursor(tipIfNew: nat) returns (cursor: CursorRow)
      modifies cursors
      ensures cursors.row == InitCursor(old(cursors.row), if fromStart then 0 else tipIfNew) && cursors.row == Some(cursor)
    {
      if cursors.row.Some? {
        return cursors.row.value;
      }
      cursor := cursors.Init(if fromStart then 0 else tipIfNew);
    }

    /** The cursor at which an attempt begins: the row's, or that of the row it inserts. */
    function StartTs(): nat
      reads this, cursors
    {
      if cursors.row.Some? then cursors.row.value.cursorTs else if fromStart then 0 else log.bound
    }

    /** The row as a failed delivery leaves it. */
    predicate FailureKept()
      reads this, cursors
    {
      cursors.row.Some?
      && var row := cursors.row.value;
         && row.failureCount > 0 && row.lastError.Some?
         && (row.running <==> row.failureCount < MAX_CONSECUTIVE_FAILURES)
         && (if row.running then nextAttemptAt.Some? && retryTimer == nextAttemptAt else nextAttemptAt.None?)
    }

    predicate BreakerKept()
      reads cursors
    {
      cursors.row.Some? && !cursors.row.value.running && cursors.row.value.pausedReason == Some("circuit-breaker")
    }

    /** One read, and its delivery: the loop body of `runOnePass`. `None` means go on from `next`. */
    method ReadAndDeliver(cursorTs: nat) returns (end: Option<PassEnd>, next: nat)
      requires LogOk(log) && cursorTs < log.bound
      requires cursors.row.Some? && cursors.row.value.running && cursors.row.value.cursorTs == cursorTs
      modifies this, cursors
      ensures LogOk(log) && Extends(old(log), log)
      ensures cursors.row.Some? && cursors.row.value.cursorTs == next
      ensures end.None? ==>
                && cursorTs < next <= old(log).bound && cursors.row.value.running && cursors.row.value.failureCount == 0
                && (batchSize > 0 ==> delivered == old(delivered) + Window(log, name, cursorTs, next))
      ensures end.Some? ==>
                && next == cursorTs && delivered == old(delivered)
                && ((end.value.Tripped? && BreakerKept()) || (end.value.DeliveryFailed? && FailureKept()))
    {
      var changes, maxScannedTs := ReadLog(log, cursorTs, name, batchSize);
      if changes == [] {
        var _ := Await();
        WindowStable(old(log), log, name, cursorTs, maxScannedTs);
        cursors.Advance(maxScannedTs, cursorTs);
        return None, maxScannedTs;
      }
      var batch, advanceTs := CutToByteBudget(changes, maxScannedTs);
      CutIsWindow(log, name, cursorTs, changes, maxScannedTs, batch, advanceTs);
      end, next := Deliver(cursorTs, batch, advanceTs);
      WindowStable(old(log), log, name, cursorTs, advanceTs);
    }

    method Deliver(cursorTs: nat, batch: seq<Entry>, advanceTs: nat) returns (end: Option<PassEnd>, next: nat)
      requires LogOk(log)
      requires cursors.row.Some? && cursors.row.value.running && cursors.row.value.cursorTs == cursorTs
      modifies this, cursors
      ensures LogOk(log) && Extends(old(log), log)
      ensures cursors.row.Some? && cursors.row.value.cursorTs == next
      ensures end.None? ==>
                && next == advanceTs && cursors.row.value.running && cursors.row.value.failureCount == 0
                && delivered == old(delivered) + batch
      ensures end.Some? ==>
                && next == cursorTs && delivered == old(delivered)
                && ((end.value.Tripped? && BreakerKept()) || (end.value.DeliveryFailed? && FailureKept()))
    {
      var tripped := RecordDelivery();
      if tripped {
        cursors.PauseWith("circuit-breaker");
        return Some(Tripped), cursorTs;
      }
      var seen := Await();
      if !seen.ok {
        var paused := cursors.Fail(seen.error);
        if paused {
          nextAttemptAt := None;
        } else {
          nextAttemptAt := Some(now + seen.delay);
          retryTimer := nextAttemptAt;
        }
        return Some(DeliveryFailed), cursorTs;
      }
      delivered := delivered + batch;
      cursors.Advance(advanceTs, cursorTs);
      nextAttemptAt := None;
      return None, advanceTs;
    }

    /** The loop of `runOnePass`: read and deliver until the cursor is at the target. */
    method DrainTo(startTs: nat, targetBound: nat) returns (end: PassEnd)
      requires LogOk(log) && targetBound <= log.bound
      requires cursors.row.Some? && cursors.row.value.running && cursors.row.value.cursorTs == startTs
      modifies this, cursors
      ensures LogOk(log) && Extends(old(log), log) && cursors.row.Some? && startTs <= cursors.row.value.cursorTs
      ensures batchSize > 0 ==> delivered == old(delivered) + Window(log, name, startTs, cursors.row.value.cursorTs)
      ensures (end.Drained? && cursors.row.value.running && targetBound <= cursors.row.value.cursorTs)
              || (end.Tripped? && BreakerKept()) || (end.DeliveryFailed? && FailureKept())
    {
      var cursorTs := startTs;
      WindowEmpty(log, name, cursorTs);
      while cursorTs < targetBound
        invariant LogOk(log) && Extends(old(log), log)
        invariant cursors.row.Some? && cursors.row.value.running && cursors.row.value.cursorTs == cursorTs && startTs <= cursorTs
        invariant batchSize > 0 ==> delivered == old(delivered) + Window(log, name, startTs, cursorTs)
        decreases if cursorTs < targetBound then targetBound - cursorTs else 0
      {
        ghost var log0 := log;
        var stop, next := ReadAndDeliver(cursorTs);
        Chain(log0, log, name, startTs, cursorTs, next);
        if stop.Some? {
          return stop.value;
        }
        Regroup(old(delivered), Window(log, name, startTs, cursorTs), Window(log, name, cursorTs, next));
        WindowStable(log0, log, name, cursorTs, next);
        cursorTs := next;
      }
      return Drained;
    }

    /**
     `runOnePass`, alone on its cursor. It ends, however the log grows meanwhile. The cursor only moves
     forward, and what the handler was given successfully is exactly what the table has between the
     old cursor and the new one, in order, each change once. If nothing went wrong the whole log up to
     the bound at the start has been drained. A failed delivery leaves the cursor where it was, and the
     trigger retries or, after too many failures in a row, is paused.
     */
    method RunOnePass() returns (end: PassEnd)
      requires LogOk(log)
      modifies this, cursors
      ensures LogOk(log) && Extends(old(log), log)
      ensures end.BackingOff? <==> old(nextAttemptAt).Some? && old(now) < old(nextAttemptAt).value
      ensures end.BackingOff? ==> cursors.row == old(cursors.row) && delivered == old(delivered)
      ensures !end.BackingOff? ==> cursors.row.Some? && old(StartTs()) <= cursors.row.value.cursorTs
      ensures !end.BackingOff? && batchSize > 0 ==>
                delivered == old(delivered) + Window(log, name, old(StartTs()), cursors.row.value.cursorTs)
      ensures end.Drained? ==> cursors.row.value.running && old(log).bound <= cursors.row.value.cursorTs
      ensures end.WasPaused? ==> cursors.row == old(cursors.row) && delivered == old(delivered)
      ensures end.Tripped? ==> BreakerKept()
      ensures end.DeliveryFailed? ==> FailureKept()
    {
      if nextAttemptAt.Some? && now < nextAttemptAt.value {
        return BackingOff;
      }
      var _, targetBound := ReadLog(log, 0, name, 0);
      var cursor := EnsureCursor(targetBound);
      if !cursor.running {
        WindowEmpty(log, name, cursor.cursorTs);
        return WasPaused;
      }
      var _ := Await();
      end := DrainTo(cursor.cursorTs, targetBound);
    }
  }

  lemma Regroup(a: seq<Entry>, b: seq<Entry>, c: seq<Entry>)
    ensures a + b + c == a + (b + c)
  {
  }

  lemma Chain(log: Log, later: Log, name: string, start: nat, mid: nat, next: nat)
    requires LogOk(later) && Extends(log, later) && start <= mid <= next && mid <= log.bound
    ensures Window(later, name, start, mid) == Window(log, name, start, mid)
    ensures Window(later, name, start, next) == Window(later, name, start, mid) + Window(later, name, mid, next)
  {
    WindowStable(log, later, name, start, mid);
    WindowSplits(later, name, start, mid, next);
  }

  lemma WindowEmpty(log: Log, name: string, ts: nat)
    ensures Window(log, name, ts, ts) == []
  {
    BetweenNone(log.entries, ts, ts);
  }
}
