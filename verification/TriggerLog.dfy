/**
 The commit log as a trigger reads it: the scan that never splits a commit, and the cut to the
 byte budget that does not either.
 */
module TriggerLog {
  import opened Prelude

  /** One revision in the log. `table` is the resolved table name, `size` the length of the change as JSON. */
  datatype Entry = Entry(ts: nat, table: Option<string>, id: string, doc: Option<Json>, size: nat)

  /** The readable log: every entry up to the stable bound. Later commits land above it. */
  datatype Log = Log(entries: seq<Entry>, bound: nat)

  predicate Ascending(s: seq<Entry>) {
    forall i, j :: 0 <= i < j < |s| ==> s[i].ts <= s[j].ts
  }

  predicate LogOk(log: Log) {
    Ascending(log.entries) && forall i :: 0 <= i < |log.entries| ==> 0 < log.entries[i].ts <= log.bound
  }

  /** The bound rises and the entries up to the new bound become readable. */
  predicate CanGrow(log: Log, more: seq<Entry>, bound: nat) {
    log.bound <= bound && Ascending(more) && forall i :: 0 <= i < |more| ==> log.bound < more[i].ts <= bound
  }

  function Grow(log: Log, more: seq<Entry>, bound: nat): Log {
    if CanGrow(log, more, bound) then Log(log.entries + more, bound) else log
  }

  // ---------------------------------------------------------------- windows of the log

  /** The entries with `lo < ts <= hi`. */
  function Between(s: seq<Entry>, lo: nat, hi: nat): seq<Entry> {
    if s == [] then []
    else Between(s[..|s| - 1], lo, hi) + if lo < s[|s| - 1].ts <= hi then [s[|s| - 1]] else []
  }

  /** A trigger sees its own table; component tables and system tables are never shown. */
  predicate Watches(name: string, e: Entry) {
    e.table == Some(name) && '/' !in name && !("_" <= name)
  }

  function Matching(s: seq<Entry>, name: string): seq<Entry> {
    if s == [] then []
    else Matching(s[..|s| - 1], name) + if Watches(name, s[|s| - 1]) then [s[|s| - 1]] else []
  }

  /** What a trigger has to see between two cursors. */
  function Window(log: Log, name: string, lo: nat, hi: nat): seq<Entry> {
    Matching(Between(log.entries, lo, hi), name)
  }

  lemma {:induction false} BetweenMembers(s: seq<Entry>, lo: nat, hi: nat, e: Entry)
    ensures e in Between(s, lo, hi) <==> e in s && lo < e.ts <= hi
  {
    if s != [] {
      var n := |s| - 1;
      BetweenMembers(s[..n], lo, hi, e);
      assert e in s <==> e in s[..n] || e == s[n];
    }
  }

  lemma {:induction false} MatchingMembers(s: seq<Entry>, name: string, e: Entry)
    ensures e in Matching(s, name) <==> e in s && Watches(name, e)
  {
    if s != [] {
      var n := |s| - 1;
      MatchingMembers(s[..n], name, e);
      assert e in s <==> e in s[..n] || e == s[n];
    }
  }

  lemma WindowMembers(log: Log, name: string, lo: nat, hi: nat, e: Entry)
    ensures e in Window(log, name, lo, hi) <==> e in log.entries && lo < e.ts <= hi && Watches(name, e)
  {
    BetweenMembers(log.entries, lo, hi, e);
    MatchingMembers(Between(log.entries, lo, hi), name, e);
  }

  lemma {:induction false} BetweenAscending(s: seq<Entry>, lo: nat, hi: nat)
    requires Ascending(s)
    ensures Ascending(Between(s, lo, hi))
  {
    if s != [] {
      var n := |s| - 1;
      BetweenAscending(s[..n], lo, hi);
      var front := Between(s[..n], lo, hi);
      forall i | 0 <= i < |front| ensures front[i].ts <= s[n].ts {
        BetweenMembers(s[..n], lo, hi, front[i]);
        var k :| 0 <= k < n && s[..n][k] == front[i];
        assert s[k].ts <= s[n].ts;
      }
    }
  }

  lemma {:induction false} MatchingAscending(s: seq<Entry>, name: string)
    requires Ascending(s)
    ensures Ascending(Matching(s, name))
  {
    if s != [] {
      var n := |s| - 1;
      MatchingAscending(s[..n], name);
      var front := Matching(s[..n], name);
      forall i | 0 <= i < |front| ensures front[i].ts <= s[n].ts {
        MatchingMembers(s[..n], name, front[i]);
        var k :| 0 <= k < n && s[..n][k] == front[i];
        assert s[k].ts <= s[n].ts;
      }
    }
  }

  lemma WindowAscending(log: Log, name: string, lo: nat, hi: nat)
    requires LogOk(log)
    ensures Ascending(Window(log, name, lo, hi))
  {
    BetweenAscending(log.entries, lo, hi);
    MatchingAscending(Between(log.entries, lo, hi), name);
  }

  lemma {:induction false} BetweenAppend(s: seq<Entry>, t: seq<Entry>, lo: nat, hi: nat)
    ensures Between(s + t, lo, hi) == Between(s, lo, hi) + Between(t, lo, hi)
  {
    if t == [] {
      assert s + t == s;
    } else {
      assert (s + t)[..|s + t| - 1] == s + t[..|t| - 1];
      BetweenAppend(s, t[..|t| - 1], lo, hi);
    }
  }

  lemma {:induction false} MatchingAppend(s: seq<Entry>, t: seq<Entry>, name: string)
    ensures Matching(s + t, name) == Matching(s, name) + Matching(t, name)
  {
    if t == [] {
      assert s + t == s;
    } else {
      assert (s + t)[..|s + t| - 1] == s + t[..|t| - 1];
      MatchingAppend(s, t[..|t| - 1], name);
    }
  }

  lemma {:induction false} BetweenNone(s: seq<Entry>, lo: nat, hi: nat)
    requires forall i :: 0 <= i < |s| ==> !(lo < s[i].ts <= hi)
    ensures Between(s, lo, hi) == []
  {
    if s != [] {
      BetweenNone(s[..|s| - 1], lo, hi);
    }
  }

  /** Adjacent windows join. */
  lemma {:induction false} BetweenSplits(s: seq<Entry>, lo: nat, mid: nat, hi: nat)
    requires Ascending(s) && lo <= mid <= hi
    ensures Between(s, lo, hi) == Between(s, lo, mid) + Between(s, mid, hi)
  {
    if s != [] {
      var n := |s| - 1;
      BetweenSplits(s[..n], lo, mid, hi);
      if s[n].ts <= mid {
        BetweenNone(s[..n], mid, hi);
      }
    }
  }

  lemma WindowSplits(log: Log, name: string, lo: nat, mid: nat, hi: nat)
    requires LogOk(log) && lo <= mid <= hi
    ensures Window(log, name, lo, hi) == Window(log, name, lo, mid) + Window(log, name, mid, hi)
  {
    BetweenSplits(log.entries, lo, mid, hi);
    MatchingAppend(Between(log.entries, lo, mid), Between(log.entries, mid, hi), name);
  }

  /** `later` is `log` some commits later. */
  predicate Extends(log: Log, later: Log) {
    && log.bound <= later.bound && log.entries <= later.entries
    && forall i :: |log.entries| <= i < |later.entries| ==> log.bound < later.entries[i].ts
  }

  lemma GrowExtends(log: Log, more: seq<Entry>, bound: nat)
    requires LogOk(log)
    ensures LogOk(Grow(log, more, bound)) && Extends(log, Grow(log, more, bound))
  {
  }

  /** What is readable does not change as the log grows. */
  lemma WindowStable(log: Log, later: Log, name: string, lo: nat, hi: nat)
    requires Extends(log, later) && hi <= log.bound
    ensures Window(later, name, lo, hi) == Window(log, name, lo, hi)
  {
    var more := later.entries[|log.entries|..];
    assert later.entries == log.entries + more;
    BetweenAppend(log.entries, more, lo, hi);
    BetweenNone(more, lo, hi);
    assert Between(log.entries, lo, hi) + [] == Between(log.entries, lo, hi);
  }

  // ---------------------------------------------------------------- reading

  /** An ascending scan of `(lo, hi]`, cut after `limit` rows if there is one. */
  method LoadDocuments(log: Log, lo: nat, hi: nat, limit: Option<nat>) returns (rows: seq<Entry>)
    requires limit.Some? ==> limit.value > 0
    ensures rows <= Between(log.entries, lo, hi) && (limit.Some? ==> |rows| <= limit.value)
    ensures rows == Between(log.entries, lo, hi) || (limit.Some? && |rows| == limit.value)
  {
    rows := [];
    for i := 0 to |log.entries|
      invariant rows == Between(log.entries[..i], lo, hi)
      invariant limit.Some? ==> |rows| < limit.value
    {
      var e := log.entries[i];
      assert log.entries[..i + 1][..i] == log.entries[..i];
      assert log.entries == log.entries[..i + 1] + log.entries[i + 1..];
      BetweenAppend(log.entries[..i + 1], log.entries[i + 1..], lo, hi);
      if lo < e.ts <= hi {
        rows := rows + [e];
      }
      if limit.Some? && |rows| == limit.value {
        return;
      }
    }
    assert log.entries[..|log.entries|] == log.entries;
  }

  /** The `changes` part: rows of the watched table. */
  method Filter(rows: seq<Entry>, name: string) returns (changes: seq<Entry>)
    ensures changes == Matching(rows, name)
  {
    changes := [];
    for i := 0 to |rows|
      invariant changes == Matching(rows[..i], name)
    {
      assert rows[..i + 1][..i] == rows[..i];
      if Watches(name, rows[i]) {
        changes := changes + [rows[i]];
      }
    }
    assert rows[..|rows|] == rows;
  }

  /** Rows below the last, possibly cut, commit. */
  method DropLastGroup(rows: seq<Entry>, lastTs: nat) returns (kept: seq<Entry>)
    requires Ascending(rows) && rows != [] && rows[|rows| - 1].ts == lastTs
    ensures kept <= rows && (forall i :: 0 <= i < |kept| ==> kept[i].ts < lastTs)
    ensures |kept| < |rows| && rows[|kept|].ts == lastTs
  {
    kept := [];
    for i := 0 to |rows|
      invariant |kept| <= i && kept == rows[..|kept|]
      invariant forall k :: 0 <= k < |kept| ==> rows[k].ts < lastTs
      invariant forall k :: |kept| <= k < i ==> rows[k].ts == lastTs
      invariant |kept| < i ==> rows[|kept|].ts == lastTs
    {
      assert rows[i].ts <= lastTs && forall k :: 0 <= k < i ==> rows[k].ts <= rows[i].ts;
      if rows[i].ts < lastTs {
        kept := kept + [rows[i]];
      }
    }
  }

  /**
   What `readLog` promises. A read that is not a mere peek (`limit` 0) makes progress, and returns
   every change of the table up to the point it reports, in order, and nothing else.
   */
  predicate ReadOk(log: Log, afterTs: nat, name: string, limit: nat, changes: seq<Entry>, maxScannedTs: nat) {
    if log.bound <= afterTs then changes == [] && maxScannedTs == afterTs
    else if limit == 0 then changes == [] && maxScannedTs == log.bound
    else afterTs < maxScannedTs <= log.bound && changes == Window(log, name, afterTs, maxScannedTs)
  }

  method ReadLog(log: Log, afterTs: nat, name: string, limit: nat) returns (changes: seq<Entry>, maxScannedTs: nat)
    requires LogOk(log)
    ensures ReadOk(log, afterTs, name, limit, changes, maxScannedTs)
  {
    if log.bound <= afterTs {
      return [], afterTs;
    }
    if limit == 0 {
      return [], log.bound;
    }
    var rows := LoadDocuments(log, afterTs, log.bound, Some(limit));
    if |rows| < limit {
      maxScannedTs := log.bound;
    } else {
      rows, maxScannedTs := WholeCommits(log, afterTs, rows);
    }
    changes := Filter(rows, name);
  }

  /** A limit may cut a commit: stop just below it, or, if it is the only one scanned, read all of it. */
  method WholeCommits(log: Log, afterTs: nat, rows: seq<Entry>) returns (whole: seq<Entry>, maxScannedTs: nat)
    requires LogOk(log) && rows != [] && rows <= Between(log.entries, afterTs, log.bound)
    ensures afterTs < maxScannedTs <= log.bound && whole == Between(log.entries, afterTs, maxScannedTs)
  {
    BetweenAscending(log.entries, afterTs, log.bound);
    BetweenBounds(log.entries, afterTs, log.bound);
    var lastTs := rows[|rows| - 1].ts;
    if lastTs > afterTs + 1 {
      maxScannedTs := lastTs - 1;
      whole := DropLastGroup(rows, lastTs);
      PrefixIsWindow(log, afterTs, maxScannedTs, whole);
    } else {
      maxScannedTs := lastTs;
      whole := LoadDocuments(log, lastTs - 1, lastTs, None);
    }
  }

  /** A prefix of the scan that stops at a change of timestamp is a window. */
  lemma PrefixIsWindow(log: Log, lo: nat, hi: nat, kept: seq<Entry>)
    requires LogOk(log) && lo <= hi <= log.bound
    requires var all := Between(log.entries, lo, log.bound);
             kept <= all && |kept| < |all| && all[|kept|].ts > hi && forall i :: 0 <= i < |kept| ==> kept[i].ts <= hi
    ensures kept == Between(log.entries, lo, hi)
  {
    var all := Between(log.entries, lo, log.bound);
    var a, b := Between(log.entries, lo, hi), Between(log.entries, hi, log.bound);
    BetweenSplits(log.entries, lo, hi, log.bound);
    BetweenBounds(log.entries, lo, hi);
    BetweenBounds(log.entries, hi, log.bound);
    SplitPoint(a, b, hi, |kept|);
  }

  lemma BetweenBounds(s: seq<Entry>, lo: nat, hi: nat)
    ensures forall i :: 0 <= i < |Between(s, lo, hi)| ==> lo < Between(s, lo, hi)[i].ts <= hi
  {
  }

  lemma WindowBounds(log: Log, name: string, lo: nat, hi: nat)
    ensures forall i :: 0 <= i < |Window(log, name, lo, hi)| ==> lo < Window(log, name, lo, hi)[i].ts <= hi
  {
    forall i | 0 <= i < |Window(log, name, lo, hi)| ensures lo < Window(log, name, lo, hi)[i].ts <= hi {
      WindowMembers(log, name, lo, hi, Window(log, name, lo, hi)[i]);
    }
  }

  lemma SplitPoint(a: seq<Entry>, b: seq<Entry>, hi: nat, n: nat)
    requires forall i :: 0 <= i < |a| ==> a[i].ts <= hi
    requires forall i :: 0 <= i < |b| ==> hi < b[i].ts
    requires n <= |a + b| && (n < |a + b| ==> (a + b)[n].ts > hi) && forall i :: 0 <= i < n ==> (a + b)[i].ts <= hi
    ensures n == |a|
  {
    if b != [] {
      assert (a + b)[|a|] == b[0];
    }
    assert forall i :: 0 <= i < |a| ==> (a + b)[i].ts <= hi;
  }

  // ---------------------------------------------------------------- cutting

  const BYTE_BUDGET: nat := 1000000

  function Size(s: seq<Entry>): nat {
    if s == [] then 0 else Size(s[..|s| - 1]) + s[|s| - 1].size
  }

  /** No commit is split at `n`. */
  predicate AtCommit(s: seq<Entry>, n: nat) {
    n <= |s| && (0 < n < |s| ==> s[n - 1].ts != s[n].ts)
  }

  predicate OneCommit(s: seq<Entry>) {
    forall i :: 0 <= i < |s| ==> s[i].ts == s[0].ts
  }

  /**
   The cut takes whole commits, at least one; they fit the budget or are the first commit alone; no
   longer prefix of whole commits would fit. The cursor may advance to the last commit taken, or to
   the end of the scan if nothing was cut.
   */
  ghost predicate CutOk(changes: seq<Entry>, maxScannedTs: nat, batch: seq<Entry>, advanceTs: nat) {
    && batch <= changes && AtCommit(changes, |batch|) && (changes != [] ==> batch != [])
    && (Size(batch) <= BYTE_BUDGET || OneCommit(batch))
    && (forall n: nat :: AtCommit(changes, n) && Size(changes[..n]) <= BYTE_BUDGET ==> n <= |batch|)
    && (if |batch| < |changes| then advanceTs == batch[|batch| - 1].ts
        else advanceTs == maxScannedTs || (batch != [] && advanceTs == batch[|batch| - 1].ts))
  }

  lemma {:induction false} SizeMonotone(s: seq<Entry>, m: nat, n: nat)
    requires m <= n <= |s|
    ensures Size(s[..m]) <= Size(s[..n])
  {
    if m < n {
      SizeMonotone(s, m, n - 1);
      assert s[..n][..n - 1] == s[..n - 1];
    }
  }

  /** The first change that does not fit any more, after the first. */
  method FirstOver(changes: seq<Entry>) returns (cutIndex: nat)
    ensures cutIndex <= |changes|
    ensures cutIndex < |changes| ==> 0 < cutIndex && Size(changes[..cutIndex + 1]) > BYTE_BUDGET
    ensures cutIndex <= 1 || Size(changes[..cutIndex]) <= BYTE_BUDGET
  {
    var size := 0;
    for i := 0 to |changes|
      invariant size == Size(changes[..i])
      invariant i <= 1 || size <= BYTE_BUDGET
    {
      assert changes[..i + 1][..i] == changes[..i];
      if i > 0 && size + changes[i].size > BYTE_BUDGET {
        return i;
      }
      size := size + changes[i].size;
    }
    return |changes|;
  }

  method GroupStart(changes: seq<Entry>, cutIndex: nat) returns (groupStart: nat)
    requires cutIndex < |changes|
    ensures groupStart <= cutIndex && AtCommit(changes, groupStart)
    ensures forall k :: groupStart < k <= cutIndex ==> !AtCommit(changes, k)
  {
    groupStart := cutIndex;
    while groupStart > 0 && changes[groupStart - 1].ts == changes[cutIndex].ts
      invariant 0 <= groupStart <= cutIndex
      invariant forall k :: groupStart <= k <= cutIndex ==> changes[k].ts == changes[cutIndex].ts
    {
      groupStart := groupStart - 1;
    }
  }

  method FirstGroupEnd(changes: seq<Entry>) returns (groupEnd: nat)
    requires changes != []
    ensures 1 <= groupEnd <= |changes| && OneCommit(changes[..groupEnd]) && AtCommit(changes, groupEnd)
  {
    groupEnd := 1;
    while groupEnd < |changes| && changes[groupEnd].ts == changes[0].ts
      invariant 1 <= groupEnd <= |changes|
      invariant forall k :: 0 <= k < groupEnd ==> changes[k].ts == changes[0].ts
    {
      groupEnd := groupEnd + 1;
    }
  }

  /** `cutToByteBudget`. */
  method CutToByteBudget(changes: seq<Entry>, maxScannedTs: nat) returns (batch: seq<Entry>, advanceTs: nat)
    ensures CutOk(changes, maxScannedTs, batch, advanceTs)
  {
    var cutIndex := FirstOver(changes);
    if cutIndex == |changes| {
      assert changes[..|changes|] == changes;
      return changes, maxScannedTs;
    }
    var groupStart := GroupStart(changes, cutIndex);
    NoLongerFits(changes, cutIndex, groupStart);
    if groupStart == 0 {
      var groupEnd := FirstGroupEnd(changes);
      batch, advanceTs := changes[..groupEnd], changes[0].ts;
    } else {
      batch := changes[..groupStart];
      advanceTs := batch[|batch| - 1].ts;
      SizeMonotone(changes, groupStart, cutIndex);
    }
  }

  lemma NoLongerFits(changes: seq<Entry>, cutIndex: nat, groupStart: nat)
    requires groupStart <= cutIndex < |changes| && Size(changes[..cutIndex + 1]) > BYTE_BUDGET
    requires forall k :: groupStart < k <= cutIndex ==> !AtCommit(changes, k)
    ensures forall n: nat :: AtCommit(changes, n) && Size(changes[..n]) <= BYTE_BUDGET ==> n <= groupStart
  {
    forall n: nat | AtCommit(changes, n) && Size(changes[..n]) <= BYTE_BUDGET ensures n <= groupStart {
      if n > cutIndex {
        SizeMonotone(changes, cutIndex + 1, n);
      }
    }
  }

  /**
   The cut loses nothing: the batch is the window up to where the cursor will advance, which is further than
   it was.
   */
  lemma CutIsWindow(log: Log, name: string, afterTs: nat, changes: seq<Entry>, maxScannedTs: nat,
                    batch: seq<Entry>, advanceTs: nat)
    requires LogOk(log) && afterTs < maxScannedTs && changes == Window(log, name, afterTs, maxScannedTs)
    requires changes != []
    requires CutOk(changes, maxScannedTs, batch, advanceTs)
    ensures afterTs < advanceTs <= maxScannedTs
    ensures batch == Window(log, name, afterTs, advanceTs)
  {
    WindowBounds(log, name, afterTs, maxScannedTs);
    WindowAscending(log, name, afterTs, maxScannedTs);
    assert batch[|batch| - 1] == changes[|batch| - 1];
    WindowSplits(log, name, afterTs, advanceTs, maxScannedTs);
    WindowBounds(log, name, afterTs, advanceTs);
    WindowBounds(log, name, advanceTs, maxScannedTs);
    SplitPoint(Window(log, name, afterTs, advanceTs), Window(log, name, advanceTs, maxScannedTs), advanceTs, |batch|);
  }
}
