/** Conservation over whole runs of the digest: no buffered item is mailed twice, and which ones are lost. */
module DigestRuns {
  import opened Prelude
  import opened CronKeys
  import opened NotificationDigest

  datatype Label =
    | Buffering(it: Item)
    | Flushing(prefs: Preferences, r: string, c: string, now: int)
    | OtherReceipt(key: string)

  datatype Trace = Empty | Then(before: Trace, step: Label, after: State)

  function Last(tr: Trace): State {
    if tr.Empty? then State([], {}, [], {}) else tr.after
  }

  /** Items are buffered unflushed. The app has receipts of its own, under any keys. */
  ghost predicate Allowed(cfg: Config, tr: Trace, l: Label, s': State) {
    match l
    case Buffering(it) => it.flushedAt.None? && s' == Buffer(Last(tr), it)
    case Flushing(prefs, r, c, now) => s' == Flush(cfg, prefs, Last(tr), r, c, now)
    case OtherReceipt(key) => s' == Last(tr).(receipts := Last(tr).receipts + {key})
  }

  ghost predicate Valid(cfg: Config, tr: Trace) {
    tr.Then? ==> Valid(cfg, tr.before) && Allowed(cfg, tr.before, tr.step, tr.after)
  }

  // ---------------------------------------------------------------- keys

  lemma FirstColonSplits(r: string, x: string, q: string, y: string)
    requires ColonFree(r) && ColonFree(q) && r + (":" + x) == q + (":" + y)
    ensures r == q && x == y
  {
    var a := r + (":" + x);
    assert a[|r|] == ':' && a[..|r|] == r && a[|q|] == ':' && a[..|q|] == q;
    assert forall i :: 0 <= i < |r| ==> a[i] == r[i] && r[i] in r;
    assert forall i :: 0 <= i < |q| ==> a[i] == q[i] && q[i] in q;
    assert |r| == |q|;
    assert a[|r| + 1..] == x && a[|q| + 1..] == y;
  }

  lemma DigestKeyInjective(r: string, c: string, x: int, q: string, d: string, y: int)
    requires ColonFree(r) && ColonFree(q) && FlushKey(r, c, x) == FlushKey(q, d, y)
    ensures r == q && c == d && x == y
  {
    var a, b := r + (":" + CronKey(c, x)), q + (":" + CronKey(d, y));
    assert a == FlushKey(r, c, x)[7..] && b == FlushKey(q, d, y)[7..];
    FirstColonSplits(r, CronKey(c, x), q, CronKey(d, y));
    KeyInjective(c, x, d, y);
  }

  /** With a colon in an address, the group of another address and category has the same keys. */
  lemma DigestKeysCollide(a: string, b: string, c: string, oldest: int)
    ensures FlushKey(a + ":" + b, c, oldest) == FlushKey(a, b + ":" + c, oldest)
  {
    Regroup(a, b, c, ShowInt(oldest));
  }

  lemma Regroup(a: string, b: string, c: string, time: string)
    ensures (a + ":" + b) + (":" + (c + ":" + time)) == a + (":" + ((b + ":" + c) + ":" + time))
  {
  }

  // ---------------------------------------------------------------- conservation

  /** Email `e` contains item `id`. */
  predicate MailedIn(s: State, id: ItemId, e: nat) {
    e < |s.emails| && id in s.emails[e].parts
  }

  /** No item is in two emails, or mailed and dropped, or mailed or dropped while it is waiting. */
  ghost predicate AtMostOnce(s: State, id: ItemId)
    requires id < |s.items|
  {
    && (forall e, f :: MailedIn(s, id, e) && MailedIn(s, id, f) ==> e == f)
    && (s.items[id].flushedAt.None? || id in s.dropped ==> forall e :: !MailedIn(s, id, e))
    && (s.items[id].flushedAt.None? ==> id !in s.dropped)
  }

  /** Claimed, and neither mailed nor dropped by preference. */
  ghost predicate Lost(s: State, id: ItemId) {
    && id < |s.items| && s.items[id].flushedAt.Some?
    && id !in s.dropped && forall e :: !MailedIn(s, id, e)
  }

  ghost predicate NothingLost(s: State) {
    forall id: ItemId :: !Lost(s, id)
  }

  ghost predicate Bounded(s: State) {
    && (forall id :: id in s.dropped ==> id < |s.items|)
    && (forall id: ItemId, e: nat :: MailedIn(s, id, e) ==> id < |s.items|)
  }

  ghost predicate Inv(s: State) {
    Bounded(s) && forall id :: 0 <= id < |s.items| ==> AtMostOnce(s, id)
  }

  /** A combined email is made from items of one group, oldest first, and says what the template says of them. */
  ghost predicate MailOk(cfg: Config, s: State, mail: Email) {
    && mail.parts != [] && IdsOk(s.items, mail.parts) && ByAge(s.items, mail.parts)
    && (forall i :: 0 <= i < |mail.parts| ==> s.items[mail.parts[i]].email == mail.to && s.items[mail.parts[i]].category == mail.category)
    && mail.userId == s.items[mail.parts[0]].userId
    && cfg.template(mail.category, AsBuffered(s.items, mail.parts)) == Some(mail.content)
  }

  /** The items as they were when they were buffered. */
  function AsBuffered(items: seq<Item>, ids: seq<ItemId>): seq<Item>
    requires IdsOk(items, ids)
  {
    seq(|ids|, i requires 0 <= i < |ids| => items[ids[i]].(flushedAt := None))
  }

  lemma BufferKeeps(s: State, it: Item, id: ItemId)
    requires Inv(s) && it.flushedAt.None?
    ensures Inv(Buffer(s, it)) && (Lost(Buffer(s, it), id) <==> Lost(s, id))
  {
    var t := Buffer(s, it);
    forall j: ItemId, e: nat ensures MailedIn(t, j, e) == MailedIn(s, j, e) {
    }
    forall j | 0 <= j < |t.items| ensures AtMostOnce(t, j) {
      if j < |s.items| {
        assert AtMostOnce(s, j);
      }
    }
  }

  lemma ReceiptKeeps(s: State, key: string, id: ItemId)
    requires Inv(s)
    ensures var t := s.(receipts := s.receipts + {key}); Inv(t) && (Lost(t, id) <==> Lost(s, id))
  {
    var t := s.(receipts := s.receipts + {key});
    forall j: ItemId, e: nat ensures MailedIn(t, j, e) == MailedIn(s, j, e) {
    }
    forall j | 0 <= j < |t.items| ensures AtMostOnce(t, j) {
      assert AtMostOnce(s, j);
    }
  }

  lemma GroupIsExact(items: seq<Item>, r: string, c: string, id: ItemId)
    ensures id in Group(items, r, c) <==> id < |items| && InGroup(items[id], r, c)
    ensures ByAge(items, Group(items, r, c))
  {
    var ids := GroupIds(items, r, c, |items|);
    GroupMembers(items, r, c, |items|);
    OldestFirstSorts(items, ids);
    assert id in Group(items, r, c) <==> id in multiset(Group(items, r, c));
    assert id in ids <==> id in multiset(ids);
  }

  /** The flush gets as far as the receipts, and finds its key among them. */
  predicate KeyFound(cfg: Config, prefs: Preferences, s: State, r: string, c: string, now: int) {
    && Due(cfg, s, r, c, now)
    && var ids := Group(s.items, r, c);
       && cfg.template(c, Parts(s.items, ids)).Some? && !Suppressed(cfg, prefs, s.items[ids[0]], c)
       && FlushKey(r, c, s.items[ids[0]].createdAt) in s.receipts
  }

  /** Claimed and dropped. */
  lemma DropKeeps(s: State, r: string, c: string, now: int, id: ItemId)
    requires Inv(s)
    ensures var t := s.(items := Claimed(s.items, r, c, now), dropped := s.dropped + set i | i in Group(s.items, r, c));
            Inv(t) && (Lost(t, id) <==> Lost(s, id))
  {
    var t := s.(items := Claimed(s.items, r, c, now), dropped := s.dropped + set i | i in Group(s.items, r, c));
    forall j: ItemId, e: nat ensures MailedIn(t, j, e) == MailedIn(s, j, e) {
    }
    forall j | 0 <= j < |t.items| ensures AtMostOnce(t, j) {
      assert AtMostOnce(s, j);
      GroupIsExact(s.items, r, c, j);
    }
    forall j | j in t.dropped ensures j < |t.items| {
      GroupIsExact(s.items, r, c, j);
    }
    GroupIsExact(s.items, r, c, id);
  }

  /** Claimed and mailed. */
  lemma MailKeeps(s: State, r: string, c: string, now: int, key: string, mail: Email, id: ItemId)
    requires Inv(s) && mail.parts == Group(s.items, r, c)
    ensures var t := s.(items := Claimed(s.items, r, c, now), receipts := s.receipts + {key}, emails := s.emails + [mail]);
            Inv(t) && (Lost(t, id) <==> Lost(s, id))
  {
    var t := s.(items := Claimed(s.items, r, c, now), receipts := s.receipts + {key}, emails := s.emails + [mail]);
    forall j: ItemId, e: nat ensures MailedIn(t, j, e) <==> MailedIn(s, j, e) || (e == |s.emails| && j < |s.items| && InGroup(s.items[j], r, c)) {
      GroupIsExact(s.items, r, c, j);
    }
    forall j | 0 <= j < |t.items| ensures AtMostOnce(t, j) {
      assert AtMostOnce(s, j);
    }
    if id < |s.items| && InGroup(s.items[id], r, c) {
      assert MailedIn(t, id, |s.emails|);
    }
  }

  /** Claimed, and nothing more. */
  lemma ClaimLoses(s: State, r: string, c: string, now: int, id: ItemId)
    requires Inv(s)
    ensures var t := s.(items := Claimed(s.items, r, c, now));
            Inv(t) && (Lost(t, id) <==> Lost(s, id) || (id < |s.items| && InGroup(s.items[id], r, c)))
  {
    var t := s.(items := Claimed(s.items, r, c, now));
    forall j: ItemId, e: nat ensures MailedIn(t, j, e) == MailedIn(s, j, e) {
    }
    forall j | 0 <= j < |t.items| ensures AtMostOnce(t, j) {
      assert AtMostOnce(s, j);
    }
    if id < |s.items| {
      assert AtMostOnce(s, id);
    }
  }

  /** What a flush loses: its group, if it finds its key, and nothing otherwise. */
  lemma FlushLoses(cfg: Config, prefs: Preferences, s: State, r: string, c: string, now: int, id: ItemId)
    requires Inv(s)
    ensures Inv(Flush(cfg, prefs, s, r, c, now))
    ensures Lost(Flush(cfg, prefs, s, r, c, now), id) <==>
            Lost(s, id) || (KeyFound(cfg, prefs, s, r, c, now) && id < |s.items| && InGroup(s.items[id], r, c))
  {
    if Flush(cfg, prefs, s, r, c, now) != s || KeyFound(cfg, prefs, s, r, c, now) {
      var ids := Group(s.items, r, c);
      var first := s.items[ids[0]];
      if Suppressed(cfg, prefs, first, c) {
        DropKeeps(s, r, c, now, id);
      } else if FlushKey(r, c, first.createdAt) in s.receipts {
        ClaimLoses(s, r, c, now, id);
      } else {
        var mail := Email(first.email, first.userId, c, cfg.template(c, Parts(s.items, ids)).value, ids);
        MailKeeps(s, r, c, now, FlushKey(r, c, first.createdAt), mail, id);
      }
    }
  }

  /**
   Any flush, whatever its state: every item stays accounted for if and only if the flush does not
   find its key among the receipts.
   */
  lemma LostIffKeyCollides(cfg: Config, prefs: Preferences, s: State, r: string, c: string, now: int)
    requires Inv(s) && NothingLost(s)
    ensures NothingLost(Flush(cfg, prefs, s, r, c, now)) <==> !KeyFound(cfg, prefs, s, r, c, now)
  {
    forall id: ItemId ensures Lost(Flush(cfg, prefs, s, r, c, now), id) <==>
                              KeyFound(cfg, prefs, s, r, c, now) && id < |s.items| && InGroup(s.items[id], r, c) {
      FlushLoses(cfg, prefs, s, r, c, now, id);
    }
    if KeyFound(cfg, prefs, s, r, c, now) {
      var id := Group(s.items, r, c)[0];
      assert id in Group(s.items, r, c);
      GroupIsExact(s.items, r, c, id);
    }
  }

  /** Some flush of the run found its key while it had item `id` in its group. */
  ghost predicate KeyFoundFor(cfg: Config, tr: Trace, id: ItemId) {
    tr.Then? &&
    var s := Last(tr.before);
    || KeyFoundFor(cfg, tr.before, id)
    || (tr.step.Flushing? && KeyFound(cfg, tr.step.prefs, s, tr.step.r, tr.step.c, tr.step.now)
        && id < |s.items| && InGroup(s.items[id], tr.step.r, tr.step.c))
  }

  lemma {:induction false} LostIffKeyFound(cfg: Config, tr: Trace, id: ItemId)
    requires Valid(cfg, tr)
    ensures Inv(Last(tr)) && (Lost(Last(tr), id) <==> KeyFoundFor(cfg, tr, id))
  {
    if tr.Then? {
      LostIffKeyFound(cfg, tr.before, id);
      var s := Last(tr.before);
      match tr.step
      case Buffering(it) => BufferKeeps(s, it, id);
      case Flushing(prefs, r, c, now) => FlushLoses(cfg, prefs, s, r, c, now, id);
      case OtherReceipt(key) => ReceiptKeeps(s, key, id);
    }
  }

  /**
   Conservation: over every run, template throws included, whatever its clock, addresses and receipts,
   a buffered item is waiting, or in exactly one combined email, or was dropped by preference, and
   only one of these; or it is lost, which happens exactly to the items of a flush that found its
   key among the receipts.
   */
  lemma NoItemLostOrMailedTwice(cfg: Config, tr: Trace, id: ItemId)
    requires Valid(cfg, tr) && id < |Last(tr).items|
    ensures var s := Last(tr);
            var mailed := set e | 0 <= e < |s.emails| && MailedIn(s, id, e);
            (if s.items[id].flushedAt.None? then 1 else 0) + (if id in s.dropped then 1 else 0) + |mailed|
            == if KeyFoundFor(cfg, tr, id) then 0 else 1
  {
    LostIffKeyFound(cfg, tr, id);
    var s := Last(tr);
    assert AtMostOnce(s, id);
    var mailed := set e | 0 <= e < |s.emails| && MailedIn(s, id, e);
    if e: nat :| MailedIn(s, id, e) {
      assert forall f :: f in mailed ==> f == e;
      assert e in mailed;
      assert mailed == {e};
    } else {
      assert mailed == {};
    }
  }

  /** `later` continues `tr`. */
  ghost predicate Continues(tr: Trace, later: Trace) {
    later == tr || (later.Then? && Continues(tr, later.before))
  }

  /**
   Behind every dropped item is a flush that claimed it, at which the oldest item's user had the category's
   email turned off.
   */
  lemma {:induction false} DroppedByPreference(cfg: Config, tr: Trace, id: ItemId) returns (at: Trace)
    requires Valid(cfg, tr) && id in Last(tr).dropped
    ensures Continues(at, tr) && at.Then? && at.step.Flushing?
    ensures var s, l := Last(at.before), at.step;
            && id in Group(s.items, l.r, l.c)
            && var first := s.items[Group(s.items, l.r, l.c)[0]];
            first.userId.Some? && l.c !in cfg.critical && !l.prefs(first.userId.value, l.c)
  {
    if id in Last(tr.before).dropped {
      at := DroppedByPreference(cfg, tr.before, id);
    } else {
      at := tr;
    }
  }

  lemma MailStays(cfg: Config, s: State, t: State, mail: Email)
    requires MailOk(cfg, s, mail) && |s.items| <= |t.items|
    requires forall i :: 0 <= i < |s.items| ==> t.items[i].(flushedAt := None) == s.items[i].(flushedAt := None)
    ensures MailOk(cfg, t, mail)
  {
    assert AsBuffered(t.items, mail.parts) == AsBuffered(s.items, mail.parts);
    forall i | 0 <= i < |mail.parts|
      ensures t.items[mail.parts[i]].(flushedAt := None) == s.items[mail.parts[i]].(flushedAt := None)
    {
    }
  }

  lemma NewMailOk(cfg: Config, prefs: Preferences, s: State, r: string, c: string, now: int)
    requires var t := Flush(cfg, prefs, s, r, c, now); t.emails != s.emails
    ensures var t := Flush(cfg, prefs, s, r, c, now);
            |t.emails| == |s.emails| + 1 && t.emails[..|s.emails|] == s.emails && MailOk(cfg, t, t.emails[|s.emails|])
  {
    var t := Flush(cfg, prefs, s, r, c, now);
    var ids := Group(s.items, r, c);
    GroupIsExact(s.items, r, c, 0);
    forall i | 0 <= i < |ids| ensures InGroup(s.items[ids[i]], r, c) {
      assert ids[i] in ids;
      GroupIsExact(s.items, r, c, ids[i]);
    }
    assert AsBuffered(t.items, ids) == Parts(s.items, ids);
  }

  /**
   Every combined email is made from items of one recipient and category, oldest first, by that category's
   template.
   */
  lemma {:induction false} MailsAreDigests(cfg: Config, tr: Trace, e: nat)
    requires Valid(cfg, tr) && e < |Last(tr).emails|
    ensures MailOk(cfg, Last(tr), Last(tr).emails[e])
  {
    var s := Last(tr.before);
    MailsStep(cfg, tr.before, tr.step, tr.after);
    if e < |s.emails| {
      MailsAreDigests(cfg, tr.before, e);
      MailStays(cfg, s, tr.after, s.emails[e]);
    }
  }

  /** A step keeps the items as they were buffered and the emails there are; an email it adds is right. */
  lemma MailsStep(cfg: Config, tr: Trace, l: Label, t: State)
    requires Allowed(cfg, tr, l, t)
    ensures var s := Last(tr);
            && |s.items| <= |t.items| && (forall i :: 0 <= i < |s.items| ==> t.items[i].(flushedAt := None) == s.items[i].(flushedAt := None))
            && |s.emails| <= |t.emails| <= |s.emails| + 1 && t.emails[..|s.emails|] == s.emails
            && (|t.emails| > |s.emails| ==> MailOk(cfg, t, t.emails[|s.emails|]))
  {
    if l.Flushing? && t.emails != Last(tr).emails {
      NewMailOk(cfg, l.prefs, Last(tr), l.r, l.c, l.now);
    }
  }

  // ---------------------------------------------------------------- when a flush acts, and on what

  /** An item has waited out the window of its category: an hour, a day or a week. */
  predicate Waited(f: Frequency, it: Item, now: int) {
    match f
    case Hourly => now - it.createdAt >= 3600000
    case Daily => now - it.createdAt >= 86400000
    case Weekly => now - it.createdAt >= 604800000
  }

  /** The category digests, and one of the group's items has waited long enough. */
  ghost predicate Ripe(cfg: Config, s: State, r: string, c: string, now: int) {
    c in cfg.digests && exists id :: 0 <= id < |s.items| && InGroup(s.items[id], r, c) && Waited(cfg.digests[c], s.items[id], now)
  }

  lemma RipeIsDue(cfg: Config, s: State, r: string, c: string, now: int)
    ensures Ripe(cfg, s, r, c, now) <==> Due(cfg, s, r, c, now)
  {
    var ids := Group(s.items, r, c);
    if Ripe(cfg, s, r, c, now) {
      var id :| 0 <= id < |s.items| && InGroup(s.items[id], r, c) && Waited(cfg.digests[c], s.items[id], now);
      GroupIsExact(s.items, r, c, id);
      var k :| 0 <= k < |ids| && ids[k] == id;
      assert s.items[ids[0]].createdAt <= s.items[ids[k]].createdAt;
    }
    if Due(cfg, s, r, c, now) {
      assert ids[0] in ids;
      GroupIsExact(s.items, r, c, ids[0]);
    }
  }

  /** Exactly the items of the group are marked as flushed. */
  predicate ClaimsGroup(s: State, t: State, r: string, c: string, now: int) {
    && |t.items| == |s.items|
    && forall id :: 0 <= id < |s.items| ==> t.items[id] == if InGroup(s.items[id], r, c) then s.items[id].(flushedAt := Some(now)) else s.items[id]
  }

  /** One more email, to the recipient, made from exactly the items of the group; its key is recorded. */
  ghost predicate SendsGroup(s: State, t: State, r: string, c: string) {
    && |t.emails| == |s.emails| + 1 && t.emails[..|s.emails|] == s.emails && t.dropped == s.dropped
    && var mail := t.emails[|s.emails|];
    && mail.to == r && mail.category == c
    && (forall id: ItemId :: id in mail.parts <==> id < |s.items| && InGroup(s.items[id], r, c))
    && mail.parts != [] && mail.parts[0] < |s.items|
    && t.receipts == s.receipts + {FlushKey(r, c, s.items[mail.parts[0]].createdAt)}
  }

  /** The group's items are dropped, and nothing is sent. */
  ghost predicate DropsGroup(s: State, t: State, r: string, c: string) {
    && t.emails == s.emails && t.receipts == s.receipts
    && forall id: ItemId :: id in t.dropped <==> id in s.dropped || (id < |s.items| && InGroup(s.items[id], r, c))
  }

  /**
   What a flush does, from any state. It acts only once an item of the group has waited out the window,
   and then, unless the template throws or there is no channel to send on, it claims the whole group and
   drops it, sends it as one email, or, if it finds its key in use, does neither.
   */
  lemma FlushEffect(cfg: Config, prefs: Preferences, s: State, r: string, c: string, now: int)
    ensures var t, ids := Flush(cfg, prefs, s, r, c, now), Group(s.items, r, c);
            if !Ripe(cfg, s, r, c, now) || cfg.template(c, Parts(s.items, ids)).None? then t == s
            else
              && ids != []
              && var first := s.items[ids[0]];
              if first.userId.Some? && c !in cfg.critical && !prefs(first.userId.value, c) then ClaimsGroup(s, t, r, c, now) && DropsGroup(s, t, r, c)
                 else if KeyFound(cfg, prefs, s, r, c, now) then
                   ClaimsGroup(s, t, r, c, now) && t.emails == s.emails && t.receipts == s.receipts && t.dropped == s.dropped
                 else if !cfg.emailConfigured then t == s
                 else ClaimsGroup(s, t, r, c, now) && SendsGroup(s, t, r, c)
  {
    RipeIsDue(cfg, s, r, c, now);
    forall id: ItemId ensures id in Group(s.items, r, c) <==> id < |s.items| && InGroup(s.items[id], r, c) {
      GroupIsExact(s.items, r, c, id);
    }
  }

  // ---------------------------------------------------------------- runs in which no key is found

  /** The latest time read. */
  function Clock(tr: Trace): Option<int> {
    match tr
    case Empty => None
    case Then(_, Buffering(it), _) => Some(it.createdAt)
    case Then(_, Flushing(_, _, _, now), _) => Some(now)
    case Then(before, OtherReceipt(_), _) => Clock(before)
  }

  ghost predicate ClockForward(tr: Trace) {
    tr.Then? ==>
      && ClockForward(tr.before)
      && (tr.step.Buffering? ==> Later(Clock(tr.before), tr.step.it.createdAt))
      && (tr.step.Flushing? ==> Later(Clock(tr.before), tr.step.now))
  }

  ghost predicate NoColons(tr: Trace) {
    tr.Then? ==> NoColons(tr.before) && (tr.step.Buffering? ==> ColonFree(tr.step.it.email))
  }

  /** The app's own receipts are not under digest keys. */
  ghost predicate NoDigestReceipts(tr: Trace) {
    tr.Then? ==>
      && NoDigestReceipts(tr.before)
      && (tr.step.OtherReceipt? ==> forall r, c, oldest :: tr.step.key != FlushKey(r, c, oldest))
  }

  /** Receipts of digests are older than everything that is still waiting in their group, and than the clock. */
  ghost predicate ReceiptsOk(s: State, clock: Option<int>) {
    forall r, c, oldest :: ColonFree(r) && FlushKey(r, c, oldest) in s.receipts ==>
      && clock.Some? && oldest < clock.value
      && forall id :: 0 <= id < |s.items| && InGroup(s.items[id], r, c) ==> oldest < s.items[id].createdAt
  }

  ghost predicate AddressesOk(s: State) {
    forall id :: 0 <= id < |s.items| ==> ColonFree(s.items[id].email)
  }

  /** The key of a due group has no receipt yet. */
  lemma KeyUnused(cfg: Config, s: State, clock: Option<int>, r: string, c: string, now: int)
    requires ReceiptsOk(s, clock) && AddressesOk(s) && Due(cfg, s, r, c, now)
    ensures ColonFree(r) && FlushKey(r, c, s.items[Group(s.items, r, c)[0]].createdAt) !in s.receipts
  {
    var first := Group(s.items, r, c)[0];
    GroupIsExact(s.items, r, c, first);
    assert first in Group(s.items, r, c);
  }

  lemma ClaimKeepsReceipts(s: State, clock: Option<int>, r: string, c: string, now: int, oldest: int, t: State)
    requires ReceiptsOk(s, clock) && Later(clock, now) && ColonFree(r) && oldest < now
    requires t.items == Claimed(s.items, r, c, now) && t.receipts <= s.receipts + {FlushKey(r, c, oldest)}
    ensures ReceiptsOk(t, Some(now))
  {
    forall q, d, x | ColonFree(q) && FlushKey(q, d, x) in t.receipts
      ensures x < now && forall id :: 0 <= id < |t.items| && InGroup(t.items[id], q, d) ==> x < t.items[id].createdAt
    {
      if FlushKey(q, d, x) !in s.receipts {
        DigestKeyInjective(q, d, x, r, c, oldest);
      }
      forall id | 0 <= id < |t.items| && InGroup(t.items[id], q, d) ensures InGroup(s.items[id], q, d) {
      }
    }
  }

  lemma FlushKeepsReceipts(cfg: Config, s: State, clock: Option<int>, prefs: Preferences, r: string, c: string, now: int)
    requires ReceiptsOk(s, clock) && AddressesOk(s) && Later(clock, now)
    ensures var t := Flush(cfg, prefs, s, r, c, now); ReceiptsOk(t, Some(now)) && AddressesOk(t)
    ensures !KeyFound(cfg, prefs, s, r, c, now)
  {
    var t := Flush(cfg, prefs, s, r, c, now);
    if Due(cfg, s, r, c, now) {
      KeyUnused(cfg, s, clock, r, c, now);
    }
    if t != s {
      ClaimKeepsReceipts(s, clock, r, c, now, s.items[Group(s.items, r, c)[0]].createdAt, t);
      assert forall id :: 0 <= id < |t.items| ==> t.items[id].email == s.items[id].email;
    }
  }

  /**
   If the clock does not step back, no address has a colon, and the app keeps off the digests' keys, no
   flush ever finds its key, so that no item is lost.
   */
  lemma {:induction false} OrderlyLosesNothing(cfg: Config, tr: Trace, id: ItemId)
    requires Valid(cfg, tr) && ClockForward(tr) && NoColons(tr) && NoDigestReceipts(tr)
    ensures !KeyFoundFor(cfg, tr, id) && ReceiptsOk(Last(tr), Clock(tr)) && AddressesOk(Last(tr))
  {
    if tr.Then? {
      OrderlyLosesNothing(cfg, tr.before, id);
      if tr.step.Flushing? {
        FlushKeepsReceipts(cfg, Last(tr.before), Clock(tr.before), tr.step.prefs, tr.step.r, tr.step.c, tr.step.now);
      }
    }
  }

  // ---------------------------------------------------------------- runs that lose an item

  /** The only waiting item of its group. */
  predicate Alone(s: State, id: ItemId) {
    && id < |s.items| && s.items[id].flushedAt.None?
    && forall j :: 0 <= j < |s.items| && j != id ==> !InGroup(s.items[j], s.items[id].email, s.items[id].category)
  }

  /** An item that is sent as a digest of its own as soon as its window is over, whatever the preferences. */
  predicate Sendable(cfg: Config, it: Item, now: int) {
    && it.flushedAt.None? && it.userId.None? && it.category in cfg.digests
    && now - it.createdAt >= WindowMs(cfg.digests[it.category]) && cfg.template(it.category, [it]).Some?
  }

  function KeyOf(it: Item): string {
    FlushKey(it.email, it.category, it.createdAt)
  }

  lemma AloneGroup(s: State, id: ItemId)
    requires Alone(s, id)
    ensures Group(s.items, s.items[id].email, s.items[id].category) == [id]
  {
    var ids := Group(s.items, s.items[id].email, s.items[id].category);
    var unsorted := GroupIds(s.items, s.items[id].email, s.items[id].category, |s.items|);
    GroupMembers(s.items, s.items[id].email, s.items[id].category, |s.items|);
    assert |unsorted| > 1 ==> unsorted[0] < unsorted[1];
    forall i | 0 <= i < |unsorted| ensures unsorted[i] == id {
      assert unsorted[i] in unsorted;
    }
    assert id in unsorted;
    assert unsorted == [id];
    OldestFirstSorts(s.items, unsorted);
    assert |ids| == |multiset(ids)| == 1 && ids[0] in multiset(ids);
  }

  /** The flush of an item that is alone: it claims the item, and leaves its key or finds it. */
  lemma FlushAlone(cfg: Config, prefs: Preferences, s: State, id: ItemId, now: int)
    requires Alone(s, id) && Sendable(cfg, s.items[id], now) && cfg.emailConfigured
    ensures var it := s.items[id];
            var t := Flush(cfg, prefs, s, it.email, it.category, now);
            && KeyOf(it) in t.receipts && t.items == s.items[id := it.(flushedAt := Some(now))]
            && (KeyFound(cfg, prefs, s, it.email, it.category, now) <==> KeyOf(it) in s.receipts)
  {
    var it := s.items[id];
    AloneGroup(s, id);
    assert Parts(s.items, [id]) == [it];
    assert Claimed(s.items, it.email, it.category, now) == s.items[id := it.(flushedAt := Some(now))];
  }

  function After(cfg: Config, tr: Trace, l: Label): Trace {
    Then(tr, l, match l
                case Buffering(it) => Buffer(Last(tr), it)
                case Flushing(prefs, r, c, now) => Flush(cfg, prefs, Last(tr), r, c, now)
                case OtherReceipt(key) => Last(tr).(receipts := Last(tr).receipts + {key}))
  }

  function FlushOf(prefs: Preferences, it: Item, now: int): Label {
    Flushing(prefs, it.email, it.category, now)
  }

  predicate Reads(l: Label, now: int) {
    (l.Buffering? ==> l.it.createdAt == now) && (l.Flushing? ==> l.now == now)
  }

  lemma StepOn(cfg: Config, tr: Trace, l: Label, now: int)
    requires Reads(l, now) && (l.Buffering? ==> l.it.flushedAt.None?)
    ensures var on := After(cfg, tr, l);
            && (Valid(cfg, tr) ==> Valid(cfg, on))
            && (ClockForward(tr) && Later(Clock(tr), now) ==> ClockForward(on) && Later(Clock(on), now))
            && (NoColons(tr) && (l.Buffering? ==> ColonFree(l.it.email)) ==> NoColons(on))
            && (NoDigestReceipts(tr) && !l.OtherReceipt? ==> NoDigestReceipts(on))
  {
  }

  /** A clock that steps back: a second item is buffered at the time of one already sent. */
  lemma StepBackLoses(cfg: Config, prefs: Preferences, it: Item, now: int) returns (tr: Trace)
    requires Sendable(cfg, it, now) && cfg.emailConfigured && ColonFree(it.email)
    ensures Valid(cfg, tr) && NoColons(tr) && NoDigestReceipts(tr) && |Last(tr).items| == 2 && Lost(Last(tr), 1)
  {
    var first := After(cfg, Empty, Buffering(it));
    StepOn(cfg, Empty, Buffering(it), it.createdAt);
    FlushAlone(cfg, prefs, Last(first), 0, now);
    var sent := After(cfg, first, FlushOf(prefs, it, now));
    StepOn(cfg, first, FlushOf(prefs, it, now), now);
    var second := After(cfg, sent, Buffering(it));
    StepOn(cfg, sent, Buffering(it), it.createdAt);
    tr := FindsKey(cfg, prefs, second, 1, now);
  }

  /** The last flush of a losing run. */
  lemma FindsKey(cfg: Config, prefs: Preferences, tr: Trace, id: ItemId, now: int) returns (longer: Trace)
    requires Valid(cfg, tr) && Alone(Last(tr), id) && Sendable(cfg, Last(tr).items[id], now) && cfg.emailConfigured
    requires KeyOf(Last(tr).items[id]) in Last(tr).receipts
    ensures Valid(cfg, longer) && Lost(Last(longer), id) && |Last(longer).items| == |Last(tr).items|
    ensures ClockForward(tr) && Later(Clock(tr), now) ==> ClockForward(longer)
    ensures NoColons(tr) ==> NoColons(longer)
    ensures NoDigestReceipts(tr) ==> NoDigestReceipts(longer)
  {
    var l := FlushOf(prefs, Last(tr).items[id], now);
    longer := After(cfg, tr, l);
    StepOn(cfg, tr, l, now);
    FlushAlone(cfg, prefs, Last(tr), id, now);
    LostIffKeyFound(cfg, longer, id);
  }

  /** Two groups that share a key: the item that is flushed second is lost. */
  lemma SharedKeyLoses(cfg: Config, prefs: Preferences, i0: Item, i1: Item, now: int) returns (tr: Trace)
    requires Sendable(cfg, i0, now) && Sendable(cfg, i1, now) && cfg.emailConfigured
    requires i0.email != i1.email && i0.createdAt == i1.createdAt && KeyOf(i0) == KeyOf(i1)
    ensures Valid(cfg, tr) && ClockForward(tr) && NoDigestReceipts(tr) && |Last(tr).items| == 2 && Lost(Last(tr), 1)
  {
    var t0 := i0.createdAt;
    var one := After(cfg, Empty, Buffering(i0));
    StepOn(cfg, Empty, Buffering(i0), t0);
    var both := After(cfg, one, Buffering(i1));
    StepOn(cfg, one, Buffering(i1), t0);
    FlushAlone(cfg, prefs, Last(both), 0, now);
    var sent := After(cfg, both, FlushOf(prefs, i0, now));
    StepOn(cfg, both, FlushOf(prefs, i0, now), now);
    tr := FindsKey(cfg, prefs, sent, 1, now);
  }

  /** A colon in an address. */
  lemma ColonLoses(cfg: Config, prefs: Preferences, a: string, b: string, c: string, it: Item, now: int) returns (tr: Trace)
    requires Sendable(cfg, it.(email := a + ":" + b, category := c), now) && Sendable(cfg, it.(email := a, category := b + ":" + c), now)
    requires cfg.emailConfigured
    ensures Valid(cfg, tr) && ClockForward(tr) && NoDigestReceipts(tr) && |Last(tr).items| == 2 && Lost(Last(tr), 1)
  {
    DigestKeysCollide(a, b, c, it.createdAt);
    assert |a + ":" + b| > |a|;
    tr := SharedKeyLoses(cfg, prefs, it.(email := a + ":" + b, category := c), it.(email := a, category := b + ":" + c), now);
  }

  /** A receipt of the app's own under the key. */
  lemma AppReceiptLoses(cfg: Config, prefs: Preferences, it: Item, now: int) returns (tr: Trace)
    requires Sendable(cfg, it, now) && cfg.emailConfigured && ColonFree(it.email)
    ensures Valid(cfg, tr) && ClockForward(tr) && NoColons(tr) && |Last(tr).items| == 1 && Lost(Last(tr), 0)
  {
    var recorded := After(cfg, Empty, OtherReceipt(KeyOf(it)));
    StepOn(cfg, Empty, OtherReceipt(KeyOf(it)), it.createdAt);
    var ready := After(cfg, recorded, Buffering(it));
    StepOn(cfg, recorded, Buffering(it), it.createdAt);
    tr := FindsKey(cfg, prefs, ready, 0, now);
  }

  // ---------------------------------------------------------------- whose preference counts

  /**
   The preference that is asked is that of the oldest item's user: an item whose own user takes the
   category's email is dropped if it shares its address with an older item whose user does not.
   */
  lemma OthersPreferenceDecides(cfg: Config, prefs: Preferences, s: State, r: string, c: string, now: int, id: ItemId)
    requires Due(cfg, s, r, c, now) && cfg.template(c, Parts(s.items, Group(s.items, r, c))).Some? && Inv(s)
    requires id < |s.items| && InGroup(s.items[id], r, c)
    ensures id in Flush(cfg, prefs, s, r, c, now).dropped <==> Suppressed(cfg, prefs, s.items[Group(s.items, r, c)[0]], c)
  {
    GroupIsExact(s.items, r, c, id);
    assert AtMostOnce(s, id);
  }
}
