/**
 The arithmetic of a cron tick. A tick that runs late has to decide what to fire, where to
 re-anchor and when to run next, without stepping through the backlog; it is proved to give what
 stepping one occurrence at a time gives.
 */
module CronCatchUp {

  /** The fire times of a cron expression in its time zone, with the parser's two queries. */
  datatype Calendar = Calendar(occurs: int -> bool, next: int -> int, prev: int -> int)

  /** `next` is the least occurrence strictly after a time, `prev` the greatest at or before it. */
  ghost predicate CalendarOk(c: Calendar) {
    && (forall t :: t < c.next(t) && c.occurs(c.next(t)))
    && (forall t, u :: t < u < c.next(t) ==> !c.occurs(u))
    && (forall t :: c.prev(t) <= t && c.occurs(c.prev(t)))
    && (forall t, u :: c.prev(t) < u <= t ==> !c.occurs(u))
  }

  datatype CronSpec = Interval(ms: int) | Cron(calendar: Calendar)

  ghost predicate SpecOk(spec: CronSpec) {
    match spec
    case Interval(ms) => ms > 0
    case Cron(c) => CalendarOk(c)
  }

  datatype CatchUp = Skip | FireOnce | FireAll

  const CATCHUP_CAP: nat := 1000

  function ComputeNextRun(spec: CronSpec, after: int): int {
    match spec
    case Interval(ms) => after + ms
    case Cron(c) => c.next(after)
  }

  // ---------------------------------------------------------------- stepping one at a time

  /** The occurrences in `(anchor, now]`, found by stepping. */
  ghost function Missed(spec: CronSpec, anchor: int, now: int): seq<int>
    requires SpecOk(spec)
    decreases if anchor <= now then now - anchor + 1 else 0
  {
    var first := ComputeNextRun(spec, anchor);
    if first > now then [] else [first] + Missed(spec, first, now)
  }

  ghost function LastOf(anchor: int, occurrences: seq<int>): int {
    if occurrences == [] then anchor else occurrences[|occurrences| - 1]
  }

  predicate Increasing(s: seq<int>) {
    forall i, j :: 0 <= i < j < |s| ==> s[i] < s[j]
  }

  /** One occurrence is always fired; what a backlog fires is the policy's choice. */
  ghost function Chosen(catchUp: CatchUp, missed: seq<int>): seq<int> {
    if |missed| <= 1 then missed
    else match catchUp
      case Skip => []
      case FireOnce => [missed[|missed| - 1]]
      case FireAll => if |missed| <= CATCHUP_CAP then missed else missed[..CATCHUP_CAP]
  }

  // ---------------------------------------------------------------- the tick

  /** The bounded computation of `_cronTick`. */
  method Tick(spec: CronSpec, catchUp: CatchUp, anchor: int, now: int)
    returns (toFire: seq<int>, next: int, newLast: int)
    requires SpecOk(spec)
    ensures toFire == Chosen(catchUp, Missed(spec, anchor, now))
    ensures newLast == LastOf(anchor, Missed(spec, anchor, now))
    ensures next == ComputeNextRun(spec, newLast)
  {
    match spec {
      case Interval(period) =>
        toFire, next, newLast := TickInterval(period, catchUp, anchor, now);
      case Cron(c) =>
        toFire, next, newLast := TickCron(c, catchUp, anchor, now);
    }
  }

  method TickInterval(period: int, catchUp: CatchUp, anchor: int, now: int)
    returns (toFire: seq<int>, next: int, newLast: int)
    requires period > 0
    ensures toFire == Chosen(catchUp, Missed(Interval(period), anchor, now))
    ensures newLast == LastOf(anchor, Missed(Interval(period), anchor, now))
    ensures next == newLast + period
  {
    var elapsed := now - anchor;
    var n := if elapsed >= 0 then elapsed / period else 0;
    ghost var missed := Missed(Interval(period), anchor, now);
    IntervalBacklog(period, anchor, now);
    assert |missed| == n;
    if n == 0 {
      toFire, next, newLast := [], anchor + period, anchor;
    } else if n == 1 {
      var only := anchor + period;
      assert missed[0] == anchor + (0 + 1) * period;
      toFire, next, newLast := [only], only + period, only;
    } else {
      var lastOccurrence := anchor + n * period;
      assert missed[n - 1] == anchor + (n - 1 + 1) * period;
      next, newLast := lastOccurrence + period, lastOccurrence;
      match catchUp {
        case FireAll =>
          var fireCount := if n < CATCHUP_CAP then n else CATCHUP_CAP;
          toFire := [];
          for i := 0 to fireCount
            invariant toFire == missed[..i]
          {
            toFire := toFire + [anchor + (i + 1) * period];
          }
          assert missed[..n] == missed;
        case FireOnce => toFire := [lastOccurrence];
        case Skip => toFire := [];
      }
    }
  }

  method TickCron(c: Calendar, catchUp: CatchUp, anchor: int, now: int)
    returns (toFire: seq<int>, next: int, newLast: int)
    requires CalendarOk(c)
    ensures toFire == Chosen(catchUp, Missed(Cron(c), anchor, now))
    ensures newLast == LastOf(anchor, Missed(Cron(c), anchor, now))
    ensures next == c.next(newLast)
  {
    ghost var missed := Missed(Cron(c), anchor, now);
    var first := c.next(anchor);
    if first > now {
      return [], first, anchor;
    }
    var second := c.next(first);
    if second > now {
      return [first], second, first;
    }
    next := c.next(now);
    newLast := c.prev(now);
    CronBacklogEnd(c, anchor, now);
    assert missed == [first] + ([second] + Missed(Cron(c), second, now));
    match catchUp {
      case FireAll => toFire := FireFrom(c, anchor, now);
      case FireOnce => toFire := [newLast];
      case Skip => toFire := [];
    }
  }

  lemma TakeFront(s: seq<int>, t: seq<int>)
    ensures (s + t)[..|s|] == s && (t == [] ==> s + t == s)
  {
  }

  lemma OneMoreMissed(c: Calendar, last: int, now: int, fired: seq<int>)
    requires CalendarOk(c) && c.next(last) <= now
    ensures fired + Missed(Cron(c), last, now) == fired + [c.next(last)] + Missed(Cron(c), c.next(last), now)
  {
    var rest := Missed(Cron(c), c.next(last), now);
    assert Missed(Cron(c), last, now) == [c.next(last)] + rest;
    assert fired + ([c.next(last)] + rest) == fired + [c.next(last)] + rest;
  }

  /** The materialization loop of `fireAll`: the oldest missed occurrences, up to the cap. */
  method FireFrom(c: Calendar, anchor: int, now: int) returns (toFire: seq<int>)
    requires CalendarOk(c)
    ensures var missed := Missed(Cron(c), anchor, now);
            toFire == if |missed| <= CATCHUP_CAP then missed else missed[..CATCHUP_CAP]
  {
    toFire := [];
    var cursor := c.next(anchor);
    ghost var missed, last := Missed(Cron(c), anchor, now), anchor;
    while cursor <= now
      invariant |toFire| <= CATCHUP_CAP && cursor == c.next(last)
      invariant missed == toFire + Missed(Cron(c), last, now)
      decreases now - cursor
    {
      if |toFire| >= CATCHUP_CAP {
        assert |Missed(Cron(c), last, now)| > 0;
        break;
      }
      OneMoreMissed(c, last, now, toFire);
      toFire, last := toFire + [cursor], cursor;
      cursor := c.next(cursor);
    }
    TakeFront(toFire, Missed(Cron(c), last, now));
  }

  // ---------------------------------------------------------------- why the shortcuts are right

  /** The backlog of an interval, in closed form. */
  lemma {:induction false} IntervalBacklog(period: int, anchor: int, now: int)
    requires period > 0
    ensures var missed := Missed(Interval(period), anchor, now);
            && |missed| == (if now >= anchor then (now - anchor) / period else 0)
            && forall i :: 0 <= i < |missed| ==> missed[i] == anchor + (i + 1) * period
    decreases if anchor <= now then now - anchor + 1 else 0
  {
    var first := anchor + period;
    if first <= now {
      IntervalBacklog(period, first, now);
      DivStep(now - anchor, period);
      var missed, rest := Missed(Interval(period), anchor, now), Missed(Interval(period), first, now);
      forall i | 0 <= i < |missed| ensures missed[i] == anchor + (i + 1) * period {
        if i > 0 {
          assert missed[i] == rest[i - 1] == first + (i - 1 + 1) * period;
        }
      }
    } else if now >= anchor {
      DivSmall(now - anchor, period);
    }
  }

  lemma DivStep(x: int, d: int)
    requires d > 0 && x >= d
    ensures x / d == (x - d) / d + 1
  {
    var q, r := (x - d) / d, (x - d) % d;
    assert x == (q + 1) * d + r;
    DivUnique(x, d, q + 1, r);
  }

  lemma DivSmall(x: int, d: int)
    requires 0 <= x < d
    ensures x / d == 0
  {
    DivUnique(x, d, 0, x);
  }

  lemma DivUnique(x: int, d: int, q: int, r: int)
    requires d > 0 && 0 <= r < d && x == q * d + r
    ensures x / d == q
  {
    var p := x / d;
    assert x == p * d + x % d;
    Distribute(p, q, d);
    BetweenMultiples(p - q, d);
    BetweenMultiples(q - p, d);
  }

  lemma Distribute(p: int, q: int, d: int)
    ensures (p - q) * d == p * d - q * d && (q - p) * d == q * d - p * d
  {
  }

  lemma BetweenMultiples(k: int, d: int)
    requires d > 0
    ensures k >= 1 ==> k * d >= d
    ensures k <= 0 ==> k * d <= 0
  {
    if k >= 1 {
      MulGrows(k, d);
    }
  }

  lemma MulGrows(k: int, d: int)
    requires k >= 1 && d > 0
    ensures k * d >= d
  {
    assert (k - 1) * d >= 0;
    assert k * d == (k - 1) * d + d;
  }

  /** The last missed occurrence is the greatest one at or before `now`. */
  lemma {:induction false} CronBacklogEnd(c: Calendar, anchor: int, now: int)
    requires CalendarOk(c)
    ensures var missed := Missed(Cron(c), anchor, now);
            missed != [] ==> LastOf(anchor, missed) == c.prev(now) && c.next(LastOf(anchor, missed)) == c.next(now)
    decreases if anchor <= now then now - anchor + 1 else 0
  {
    var first := c.next(anchor);
    if first <= now {
      CronBacklogEnd(c, first, now);
      if c.next(first) > now {
        CronNeighbours(c, first, now);
      }
    }
  }

  lemma CronNeighbours(c: Calendar, t: int, now: int)
    requires CalendarOk(c) && c.occurs(t) && t <= now < c.next(t)
    ensures c.prev(now) == t && c.next(now) == c.next(t)
  {
    var p, n := c.prev(now), c.next(now);
    assert !(p < t <= now);
    assert !(t < p < c.next(t));
    assert !(t < n < c.next(t));
    assert !(now < c.next(t) < n);
  }

  // ---------------------------------------------------------------- what the backlog is

  /** `x` is a fire time of the schedule anchored at `anchor`. */
  ghost predicate Occurs(spec: CronSpec, anchor: int, x: int)
    requires SpecOk(spec)
  {
    match spec
    case Interval(ms) => exists k: int :: x == anchor + k * ms
    case Cron(c) => c.occurs(x)
  }

  /** The next run is the least occurrence strictly after a time that is itself on the schedule's grid. */
  lemma NextRunIsLeast(spec: CronSpec, t: int, x: int)
    requires SpecOk(spec)
    ensures t < ComputeNextRun(spec, t) && Occurs(spec, t, ComputeNextRun(spec, t))
    ensures t < x < ComputeNextRun(spec, t) ==> !Occurs(spec, t, x)
  {
    if spec.Interval? {
      assert ComputeNextRun(spec, t) == t + 1 * spec.ms;
      if Occurs(spec, t, x) && t < x < t + spec.ms {
        var k: int :| x == t + k * spec.ms;
        BetweenMultiples(k, spec.ms);
      }
    }
  }

  /** Anchoring at an occurrence does not change the schedule: phase never drifts. */
  lemma SamePhase(spec: CronSpec, anchor: int, t: int, x: int)
    requires SpecOk(spec) && (t == anchor || Occurs(spec, anchor, t))
    ensures Occurs(spec, anchor, x) == Occurs(spec, t, x)
  {
    if spec.Interval? {
      var ms := spec.ms;
      assert anchor == anchor + 0 * ms;
      var j: int :| t == anchor + j * ms;
      if Occurs(spec, anchor, x) {
        var k: int :| x == anchor + k * ms;
        assert x == t + (k - j) * ms;
      }
      if Occurs(spec, t, x) {
        var k: int :| x == t + k * ms;
        assert x == anchor + (k + j) * ms;
      }
    }
  }

  /** The missed occurrences are exactly those in `(anchor, now]`, in order. */
  lemma {:induction false} MissedIsExact(spec: CronSpec, anchor: int, now: int)
    requires SpecOk(spec)
    ensures Increasing(Missed(spec, anchor, now))
    ensures forall x :: x in Missed(spec, anchor, now) <==> anchor < x <= now && Occurs(spec, anchor, x)
    decreases if anchor <= now then now - anchor + 1 else 0
  {
    var first := ComputeNextRun(spec, anchor);
    var missed := Missed(spec, anchor, now);
    NextRunIsLeast(spec, anchor, 0);
    if first <= now {
      MissedIsExact(spec, first, now);
      var rest := Missed(spec, first, now);
      forall i, j | 0 <= i < j < |missed| ensures missed[i] < missed[j] {
        assert missed[j] == rest[j - 1] && rest[j - 1] in rest;
        if i > 0 {
          assert missed[i] == rest[i - 1];
        }
      }
    }
    forall x ensures x in missed <==> anchor < x <= now && Occurs(spec, anchor, x) {
      NextRunIsLeast(spec, anchor, x);
      SamePhase(spec, anchor, first, x);
    }
  }

  /**
   What a tick means. `newLast` is the greatest occurrence in `(anchor, now]`, or the anchor if
   there is none; `next` is the least occurrence after `now` (after the anchor, should the clock
   stand before it).
   */
  lemma TickIsExact(spec: CronSpec, anchor: int, now: int, x: int)
    requires SpecOk(spec)
    ensures var missed := Missed(spec, anchor, now);
            var newLast := LastOf(anchor, missed);
            var next := ComputeNextRun(spec, newLast);
            var from := if anchor <= now then now else anchor;
            && (newLast == anchor || (anchor < newLast <= now && Occurs(spec, anchor, newLast)))
            && (newLast < x <= now ==> !Occurs(spec, anchor, x))
            && from < next && Occurs(spec, anchor, next)
            && (from < x < next ==> !Occurs(spec, anchor, x))
  {
    var missed := Missed(spec, anchor, now);
    var newLast := LastOf(anchor, missed);
    MissedIsExact(spec, anchor, now);
    MissedEnds(spec, anchor, now);
    NextRunIsLeast(spec, newLast, x);
    if missed != [] {
      assert newLast in missed;
      if x in missed {
        var i :| 0 <= i < |missed| && missed[i] == x;
      }
    }
    SamePhase(spec, anchor, newLast, x);
    SamePhase(spec, anchor, newLast, ComputeNextRun(spec, newLast));
  }

  lemma {:induction false} MissedEnds(spec: CronSpec, anchor: int, now: int)
    requires SpecOk(spec)
    ensures ComputeNextRun(spec, LastOf(anchor, Missed(spec, anchor, now))) > now
    decreases if anchor <= now then now - anchor + 1 else 0
  {
    if ComputeNextRun(spec, anchor) <= now {
      MissedEnds(spec, ComputeNextRun(spec, anchor), now);
    }
  }

  /** An occurrence that a tick at `now` finds since its anchor. */
  ghost predicate InWindow(spec: CronSpec, anchor: int, now: int, x: int)
    requires SpecOk(spec)
  {
    anchor < x <= now && Occurs(spec, anchor, x)
  }

  /** What each catch-up policy fires of the occurrences in the window; a single one is always fired. */
  ghost predicate PolicyFires(spec: CronSpec, catchUp: CatchUp, anchor: int, now: int, x: int)
    requires SpecOk(spec)
  {
    && InWindow(spec, anchor, now, x)
    && match catchUp
       case Skip => forall y :: InWindow(spec, anchor, now, y) ==> y == x
       case FireOnce => forall y :: InWindow(spec, anchor, now, y) ==> y <= x
       case FireAll => |Missed(spec, anchor, x)| <= 1000
  }

  /** Up to the occurrence at index `i` there are `i + 1`. */
  lemma MissedUpTo(spec: CronSpec, anchor: int, now: int, i: nat)
    requires SpecOk(spec) && i < |Missed(spec, anchor, now)|
    ensures |Missed(spec, anchor, Missed(spec, anchor, now)[i])| == i + 1
  {
    var missed := Missed(spec, anchor, now);
    var x := missed[i];
    MissedIsExact(spec, anchor, now);
    assert x in missed;
    MissedSplits(spec, anchor, x, now);
    var first := Missed(spec, anchor, x);
    MissedIsExact(spec, anchor, x);
    assert x in first;
    var k :| 0 <= k < |first| && first[k] == x;
    assert missed[k] == x && k == i;
    assert first[|first| - 1] in first;
  }

  /** The occurrences a tick fires are those its catch-up policy picks. */
  lemma ChosenMeans(spec: CronSpec, catchUp: CatchUp, anchor: int, now: int, x: int)
    requires SpecOk(spec)
    ensures x in Chosen(catchUp, Missed(spec, anchor, now)) <==> PolicyFires(spec, catchUp, anchor, now, x)
  {
    var missed := Missed(spec, anchor, now);
    MissedIsExact(spec, anchor, now);
    assert forall y :: InWindow(spec, anchor, now, y) <==> y in missed;
    if x in missed {
      var i :| 0 <= i < |missed| && missed[i] == x;
      MissedUpTo(spec, anchor, now, i);
      assert missed[0] in missed && missed[|missed| - 1] in missed;
      if catchUp.FireAll? && |missed| > CATCHUP_CAP {
        assert x in missed[..CATCHUP_CAP] <==> i < CATCHUP_CAP by {
          if i < CATCHUP_CAP {
            assert missed[..CATCHUP_CAP][i] == x;
          }
        }
      }
    }
    if x in Chosen(catchUp, missed) {
      ChosenIsPart(catchUp, missed);
    }
  }

  /** `next` is the least occurrence after `now`, on the grid of `anchor`. */
  ghost predicate LeastAfter(spec: CronSpec, anchor: int, now: int, next: int)
    requires SpecOk(spec)
  {
    now < next && Occurs(spec, anchor, next) && forall x :: now < x < next ==> !Occurs(spec, anchor, x)
  }

  /**
   A clock that stands before the anchor: nothing is missed, and the next run is the least
   occurrence after `now` if and only if no occurrence lies in `(now, anchor]`. The anchor of a fixed
   interval is itself one, so for an interval it never is.
   */
  lemma NextAfterClockStepBack(spec: CronSpec, anchor: int, now: int)
    requires SpecOk(spec) && now < anchor
    ensures Missed(spec, anchor, now) == []
    ensures LeastAfter(spec, anchor, now, ComputeNextRun(spec, anchor)) <==> forall x :: now < x <= anchor ==> !Occurs(spec, anchor, x)
    ensures spec.Interval? ==> !LeastAfter(spec, anchor, now, ComputeNextRun(spec, anchor))
  {
    var next := ComputeNextRun(spec, anchor);
    forall x | anchor < x < next ensures !Occurs(spec, anchor, x) {
      NextRunIsLeast(spec, anchor, x);
    }
    NextRunIsLeast(spec, anchor, anchor);
    if spec.Interval? {
      assert anchor == anchor + 0 * spec.ms && Occurs(spec, anchor, anchor);
    }
  }

  // ---------------------------------------------------------------- many ticks

  /** The latest of a series of clock readings, but no earlier than `anchor`. */
  ghost function Latest(anchor: int, clocks: seq<int>): int {
    if clocks == [] then anchor
    else
      var before := Latest(anchor, clocks[..|clocks| - 1]);
      if clocks[|clocks| - 1] > before then clocks[|clocks| - 1] else before
  }

  /** The anchor after ticks at the given clock readings. */
  ghost function AnchorAfter(spec: CronSpec, anchor: int, clocks: seq<int>): int
    requires SpecOk(spec)
  {
    if clocks == [] then anchor
    else
      var a := AnchorAfter(spec, anchor, clocks[..|clocks| - 1]);
      LastOf(a, Missed(spec, a, clocks[|clocks| - 1]))
  }

  /** What each of those ticks found missed, one after the other. */
  ghost function AllMissed(spec: CronSpec, anchor: int, clocks: seq<int>): seq<int>
    requires SpecOk(spec)
  {
    if clocks == [] then []
    else AllMissed(spec, anchor, clocks[..|clocks| - 1])
         + Missed(spec, AnchorAfter(spec, anchor, clocks[..|clocks| - 1]), clocks[|clocks| - 1])
  }

  /** What each of them fired. */
  ghost function AllFired(spec: CronSpec, catchUp: CatchUp, anchor: int, clocks: seq<int>): seq<int>
    requires SpecOk(spec)
  {
    if clocks == [] then []
    else AllFired(spec, catchUp, anchor, clocks[..|clocks| - 1])
         + Chosen(catchUp, Missed(spec, AnchorAfter(spec, anchor, clocks[..|clocks| - 1]), clocks[|clocks| - 1]))
  }

  lemma {:induction false} MissedSplits(spec: CronSpec, anchor: int, mid: int, now: int)
    requires SpecOk(spec) && mid <= now
    ensures var first := Missed(spec, anchor, mid);
            Missed(spec, anchor, now) == first + Missed(spec, LastOf(anchor, first), now)
    decreases if anchor <= mid then mid - anchor + 1 else 0
  {
    var a := ComputeNextRun(spec, anchor);
    if a <= mid {
      MissedSplits(spec, a, mid, now);
      var first, rest := Missed(spec, anchor, mid), Missed(spec, a, mid);
      assert first == [a] + rest && LastOf(anchor, first) == LastOf(a, rest);
      assert [a] + (rest + Missed(spec, LastOf(a, rest), now)) == [a] + rest + Missed(spec, LastOf(a, rest), now);
    } else {
      assert [] + Missed(spec, anchor, now) == Missed(spec, anchor, now);
    }
  }

  /**
   Ticks tile time. However many ticks run, at whatever clock readings, the intervals they account
   for join without gap or overlap: together they find exactly the occurrences that a single tick
   at the latest reading would have found, and leave its anchor.
   */
  lemma {:induction false} TicksTileTime(spec: CronSpec, anchor: int, clocks: seq<int>)
    requires SpecOk(spec)
    ensures AllMissed(spec, anchor, clocks) == Missed(spec, anchor, Latest(anchor, clocks))
    ensures AnchorAfter(spec, anchor, clocks) == LastOf(anchor, Missed(spec, anchor, Latest(anchor, clocks)))
  {
    if clocks == [] {
      NextRunIsLeast(spec, anchor, 0);
    } else {
      var front, now := clocks[..|clocks| - 1], clocks[|clocks| - 1];
      TicksTileTime(spec, anchor, front);
      var mid, a := Latest(anchor, front), AnchorAfter(spec, anchor, front);
      if now > mid {
        MissedSplits(spec, anchor, mid, now);
      } else {
        MissedEnds(spec, anchor, mid);
        assert Missed(spec, a, now) == [];
      }
    }
  }

  /** Each tick fires a part of what it found: no occurrence is fired twice, none is invented. */
  lemma {:induction false} FiredOnceAtMost(spec: CronSpec, catchUp: CatchUp, anchor: int, clocks: seq<int>)
    requires SpecOk(spec)
    ensures Increasing(AllFired(spec, catchUp, anchor, clocks))
    ensures forall x :: x in AllFired(spec, catchUp, anchor, clocks) ==>
              anchor < x <= AnchorAfter(spec, anchor, clocks) && Occurs(spec, anchor, x)
  {
    if clocks != [] {
      var front, now := clocks[..|clocks| - 1], clocks[|clocks| - 1];
      FiredOnceAtMost(spec, catchUp, anchor, front);
      AnchorOnGrid(spec, anchor, front);
      var a := AnchorAfter(spec, anchor, front);
      var earlier, missed := AllFired(spec, catchUp, anchor, front), Missed(spec, a, now);
      var chosen := Chosen(catchUp, missed);
      TickFires(spec, catchUp, anchor, a, now);
      forall i | 0 <= i < |earlier| ensures earlier[i] <= a {
        assert earlier[i] in earlier;
      }
      forall i | 0 <= i < |chosen| ensures a < chosen[i] {
        assert chosen[i] in chosen;
      }
    }
  }

  /** What one tick fires lies between its anchor and its new anchor. */
  lemma TickFires(spec: CronSpec, catchUp: CatchUp, origin: int, anchor: int, now: int)
    requires SpecOk(spec) && (anchor == origin || Occurs(spec, origin, anchor))
    ensures var missed := Missed(spec, anchor, now);
            var chosen := Chosen(catchUp, missed);
            && anchor <= LastOf(anchor, missed)
            && Increasing(chosen)
            && (forall x :: x in chosen ==> anchor < x <= LastOf(anchor, missed) && Occurs(spec, origin, x))
  {
    var missed := Missed(spec, anchor, now);
    var chosen := Chosen(catchUp, missed);
    MissedIsExact(spec, anchor, now);
    ChosenIsPart(catchUp, missed);
    assert missed != [] ==> LastOf(anchor, missed) in missed;
    forall x | x in chosen ensures anchor < x <= LastOf(anchor, missed) && Occurs(spec, origin, x) {
      assert x in missed;
      SamePhase(spec, origin, anchor, x);
      var i :| 0 <= i < |missed| && missed[i] == x;
    }
  }

  lemma ChosenIsPart(catchUp: CatchUp, missed: seq<int>)
    requires Increasing(missed)
    ensures Increasing(Chosen(catchUp, missed))
    ensures forall x :: x in Chosen(catchUp, missed) ==> x in missed
  {
  }

  lemma {:induction false} AnchorOnGrid(spec: CronSpec, anchor: int, clocks: seq<int>)
    requires SpecOk(spec)
    ensures var a := AnchorAfter(spec, anchor, clocks); a >= anchor && (a == anchor || Occurs(spec, anchor, a))
  {
    TicksTileTime(spec, anchor, clocks);
    TickIsExact(spec, anchor, Latest(anchor, clocks), 0);
  }

  /** No tick found more than the cap. */
  ghost predicate NoneTruncated(spec: CronSpec, anchor: int, clocks: seq<int>)
    requires SpecOk(spec)
  {
    clocks == []
    || (NoneTruncated(spec, anchor, clocks[..|clocks| - 1])
        && |Missed(spec, AnchorAfter(spec, anchor, clocks[..|clocks| - 1]), clocks[|clocks| - 1])| <= CATCHUP_CAP)
  }

  /** Under `fireAll` every occurrence is fired, late or not, if and only if no backlog exceeded the cap. */
  lemma FireAllFiresAll(spec: CronSpec, anchor: int, clocks: seq<int>)
    requires SpecOk(spec)
    ensures AllFired(spec, FireAll, anchor, clocks) == Missed(spec, anchor, Latest(anchor, clocks))
            <==> NoneTruncated(spec, anchor, clocks)
  {
    FireAllVersusMissed(spec, anchor, clocks);
    TicksTileTime(spec, anchor, clocks);
  }

  lemma {:induction false} FireAllVersusMissed(spec: CronSpec, anchor: int, clocks: seq<int>)
    requires SpecOk(spec)
    ensures |AllFired(spec, FireAll, anchor, clocks)| <= |AllMissed(spec, anchor, clocks)|
    ensures NoneTruncated(spec, anchor, clocks) ==> AllFired(spec, FireAll, anchor, clocks) == AllMissed(spec, anchor, clocks)
    ensures !NoneTruncated(spec, anchor, clocks) ==> |AllFired(spec, FireAll, anchor, clocks)| < |AllMissed(spec, anchor, clocks)|
  {
    if clocks != [] {
      FireAllVersusMissed(spec, anchor, clocks[..|clocks| - 1]);
    }
  }
}
