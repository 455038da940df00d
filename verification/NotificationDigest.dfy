/**
 The notification digest: email on a digesting category is buffered, and a recipient's buffered items
 are later claimed and combined into one email, in one transaction.
 */
module NotificationDigest {
  import opened Prelude
  import opened CronKeys

  datatype Content = Content(subject: string, text: string, html: Option<string>)

  /** A buffered send. The grouping key of a recipient is the email address. */
  datatype Item = Item(
    email: string,
    userId: Option<string>,
    category: string,
    content: Content,
    createdAt: int,
    flushedAt: Option<int>)

  type ItemId = nat

  /** A combined email; `parts` are the items it was made from. */
  datatype Email = Email(to: string, userId: Option<string>, category: string, content: Content, parts: seq<ItemId>)

  datatype Frequency = Hourly | Daily | Weekly

  function WindowMs(f: Frequency): int {
    match f
    case Hourly => 3600000
    case Daily => 86400000
    case Weekly => 604800000
  }

  /** `digests` has the digesting categories. A template may throw (`None`). */
  datatype Config = Config(digests: map<string, Frequency>, critical: set<string>, template: (string, seq<Item>) -> Option<Content>, emailConfigured: bool)

  /** Whether a user takes email on a category. */
  type Preferences = (string, string) -> bool

  /** `dropped` is history: the items that were claimed and then suppressed. */
  datatype State = State(items: seq<Item>, receipts: set<string>, emails: seq<Email>, dropped: set<ItemId>)

  // ---------------------------------------------------------------- a group, oldest first

  predicate InGroup(it: Item, r: string, c: string) {
    it.email == r && it.category == c && it.flushedAt.None?
  }

  /** The unflushed items of a recipient and category among the first `n`. */
  function GroupIds(items: seq<Item>, r: string, c: string, n: nat): seq<ItemId>
    requires n <= |items|
  {
    if n == 0 then []
    else GroupIds(items, r, c, n - 1) + if InGroup(items[n - 1], r, c) then [n - 1] else []
  }

  predicate IdsOk(items: seq<Item>, ids: seq<ItemId>) {
    forall i :: 0 <= i < |ids| ==> ids[i] < |items|
  }

  /** Puts `id` behind everything that is not newer. */
  function Place(items: seq<Item>, sorted: seq<ItemId>, id: ItemId): seq<ItemId>
    requires id < |items| && IdsOk(items, sorted)
  {
    if sorted == [] || items[sorted[|sorted| - 1]].createdAt <= items[id].createdAt then sorted + [id]
    else Place(items, sorted[..|sorted| - 1], id) + [sorted[|sorted| - 1]]
  }

  /** The stable sort by age. */
  function OldestFirst(items: seq<Item>, ids: seq<ItemId>): (s: seq<ItemId>)
    requires IdsOk(items, ids)
    ensures IdsOk(items, s)
  {
    if ids == [] then []
    else
      var front := OldestFirst(items, ids[..|ids| - 1]);
      PlaceKeeps(items, front, ids[|ids| - 1]);
      Place(items, front, ids[|ids| - 1])
  }

  predicate ByAge(items: seq<Item>, ids: seq<ItemId>)
    requires IdsOk(items, ids)
  {
    forall i, j :: 0 <= i < j < |ids| ==> items[ids[i]].createdAt <= items[ids[j]].createdAt
  }

  lemma {:induction false} PlaceKeeps(items: seq<Item>, sorted: seq<ItemId>, id: ItemId)
    requires id < |items| && IdsOk(items, sorted)
    ensures IdsOk(items, Place(items, sorted, id))
    ensures multiset(Place(items, sorted, id)) == multiset(sorted) + multiset{id}
  {
    if sorted != [] && items[sorted[|sorted| - 1]].createdAt > items[id].createdAt {
      PlaceKeeps(items, sorted[..|sorted| - 1], id);
      assert sorted == sorted[..|sorted| - 1] + [sorted[|sorted| - 1]];
    }
  }

  lemma {:induction false} PlaceSorts(items: seq<Item>, sorted: seq<ItemId>, id: ItemId)
    requires id < |items| && IdsOk(items, sorted) && ByAge(items, sorted)
    ensures IdsOk(items, Place(items, sorted, id)) && ByAge(items, Place(items, sorted, id))
  {
    PlaceKeeps(items, sorted, id);
    if sorted != [] && items[sorted[|sorted| - 1]].createdAt > items[id].createdAt {
      var last := sorted[|sorted| - 1];
      var front := sorted[..|sorted| - 1];
      PlaceSorts(items, front, id);
      PlaceKeeps(items, front, id);
      forall i | 0 <= i < |Place(items, front, id)| ensures items[Place(items, front, id)[i]].createdAt <= items[last].createdAt {
        assert Place(items, front, id)[i] in multiset(Place(items, front, id));
        assert Place(items, front, id)[i] in multiset(front) + multiset{id};
        if Place(items, front, id)[i] in front {
          var k :| 0 <= k < |front| && front[k] == Place(items, front, id)[i];
          assert sorted[k] == front[k];
        }
      }
    }
  }

  lemma {:induction false} OldestFirstSorts(items: seq<Item>, ids: seq<ItemId>)
    requires IdsOk(items, ids)
    ensures ByAge(items, OldestFirst(items, ids)) && multiset(OldestFirst(items, ids)) == multiset(ids)
  {
    if ids != [] {
      OldestFirstSorts(items, ids[..|ids| - 1]);
      PlaceSorts(items, OldestFirst(items, ids[..|ids| - 1]), ids[|ids| - 1]);
      PlaceKeeps(items, OldestFirst(items, ids[..|ids| - 1]), ids[|ids| - 1]);
      assert ids == ids[..|ids| - 1] + [ids[|ids| - 1]];
    }
  }

  lemma {:induction false} GroupMembers(items: seq<Item>, r: string, c: string, n: nat)
    requires n <= |items|
    ensures IdsOk(items, GroupIds(items, r, c, n))
    ensures forall id :: id in GroupIds(items, r, c, n) <==> 0 <= id < n && InGroup(items[id], r, c)
    ensures forall i, j :: 0 <= i < j < |GroupIds(items, r, c, n)| ==> GroupIds(items, r, c, n)[i] < GroupIds(items, r, c, n)[j]
  {
    if n > 0 {
      GroupMembers(items, r, c, n - 1);
      var front := GroupIds(items, r, c, n - 1);
      forall i | 0 <= i < |front| ensures front[i] < n - 1 {
        assert front[i] in front;
      }
    }
  }

  // ---------------------------------------------------------------- the mutations

  function Group(items: seq<Item>, r: string, c: string): (ids: seq<ItemId>)
    ensures IdsOk(items, ids)
  {
    GroupMembers(items, r, c, |items|);
    OldestFirst(items, GroupIds(items, r, c, |items|))
  }

  function Claimed(items: seq<Item>, r: string, c: string, now: int): seq<Item> {
    seq(|items|, i requires 0 <= i < |items| => if InGroup(items[i], r, c) then items[i].(flushedAt := Some(now)) else items[i])
  }

  function FlushKey(r: string, c: string, oldest: int): string {
    "digest:" + (r + (":" + CronKey(c, oldest)))
  }

  function Parts(items: seq<Item>, ids: seq<ItemId>): seq<Item>
    requires IdsOk(items, ids)
  {
    seq(|ids|, i requires 0 <= i < |ids| => items[ids[i]])
  }

  /** The group has items, and the oldest has waited out the window. */
  predicate Due(cfg: Config, s: State, r: string, c: string, now: int) {
    && c in cfg.digests && Group(s.items, r, c) != []
    && now - s.items[Group(s.items, r, c)[0]].createdAt >= WindowMs(cfg.digests[c])
  }

  /** The preference that counts is that of the oldest item's user. */
  predicate Suppressed(cfg: Config, prefs: Preferences, first: Item, c: string) {
    first.userId.Some? && c !in cfg.critical && !prefs(first.userId.value, c)
  }

  /** `_flushGroup`. A throw from the template, or a missing email channel, rolls everything back. */
  function Flush(cfg: Config, prefs: Preferences, s: State, r: string, c: string, now: int): State {
    if !Due(cfg, s, r, c, now) then s
    else
      var ids := Group(s.items, r, c);
      var first := s.items[ids[0]];
      var content := cfg.template(c, Parts(s.items, ids));
      if content.None? then s
      else
        var claimed := s.(items := Claimed(s.items, r, c, now));
        if Suppressed(cfg, prefs, first, c) then claimed.(dropped := s.dropped + set id | id in ids)
        else RecordDigest(cfg, s, claimed, FlushKey(r, c, first.createdAt), Email(first.email, first.userId, c, content.value, ids))
  }

  /** `recordSend` for a combined email: a receipt under the same key makes it do nothing. */
  function RecordDigest(cfg: Config, s: State, claimed: State, key: string, mail: Email): State {
    if key in s.receipts then claimed
    else if !cfg.emailConfigured then s
    else claimed.(receipts := s.receipts + {key}, emails := s.emails + [mail])
  }

  /** A send that is buffered. */
  function Buffer(s: State, it: Item): State {
    s.(items := s.items + [it])
  }

  class DigestDb {
    const cfg: Config
    var items: seq<Item>
    var receipts: set<string>
    var emails: seq<Email>
    var dropped: set<ItemId>

    constructor (cfg: Config)
      ensures this.cfg == cfg && Rows() == State([], {}, [], {})
    {
      this.cfg := cfg;
      items, receipts, emails, dropped := [], {}, [], {};
    }

    function Rows(): State
      reads this
    {
      State(items, receipts, emails, dropped)
    }

    /** The unflushed items of a group, in table order. */
    method Unflushed(r: string, c: string) returns (ids: seq<ItemId>)
      ensures ids == GroupIds(items, r, c, |items|) && IdsOk(items, ids)
    {
      ids := [];
      for i := 0 to |items|
        invariant ids == GroupIds(items, r, c, i)
      {
        if InGroup(items[i], r, c) {
          ids := ids + [i];
        }
      }
      GroupMembers(items, r, c, |items|);
    }

    method SortByAge(ids: seq<ItemId>) returns (sorted: seq<ItemId>)
      requires IdsOk(items, ids)
      ensures sorted == OldestFirst(items, ids)
    {
      sorted := [];
      for i := 0 to |ids|
        invariant sorted == OldestFirst(items, ids[..i])
      {
        assert ids[..i + 1][..i] == ids[..i];
        sorted := Place(items, sorted, ids[i]);
      }
      assert ids[..|ids|] == ids;
    }

    method Oldest(ids: seq<ItemId>) returns (oldest: int)
      requires IdsOk(items, ids) && ids != []
      ensures exists i :: 0 <= i < |ids| && items[ids[i]].createdAt == oldest
      ensures forall i :: 0 <= i < |ids| ==> oldest <= items[ids[i]].createdAt
    {
      oldest := items[ids[0]].createdAt;
      for i := 1 to |ids|
        invariant exists k :: 0 <= k < |ids| && items[ids[k]].createdAt == oldest
        invariant forall k :: 0 <= k < i ==> oldest <= items[ids[k]].createdAt
      {
        if items[ids[i]].createdAt < oldest {
          oldest := items[ids[i]].createdAt;
        }
      }
    }

    /** Marks the items of a group as flushed. */
    method Claim(r: string, c: string, ids: seq<ItemId>, now: int)
      requires ids == GroupIds(items, r, c, |items|)
      modifies this`items
      ensures items == Claimed(old(items), r, c, now)
    {
      ghost var before := items;
      GroupMembers(items, r, c, |items|);
      for i := 0 to |ids|
        invariant |items| == |before|
        invariant forall k :: 0 <= k < |items| ==>
                    items[k] == if k in ids[..i] then before[k].(flushedAt := Some(now)) else before[k]
      {
        assert ids[..i + 1] == ids[..i] + [ids[i]];
        assert ids[i] !in ids[..i];
        items := items[ids[i] := items[ids[i]].(flushedAt := Some(now))];
      }
      assert ids[..|ids|] == ids;
      assert items == Claimed(before, r, c, now);
    }

    method FlushGroup(prefs: Preferences, r: string, c: string, now: int) returns (flushed: bool)
      modifies this
      ensures Rows() == Flush(cfg, prefs, old(Rows()), r, c, now)
    {
      if c !in cfg.digests {
        return false;
      }
      var ids := Unflushed(r, c);
      if ids == [] {
        return false;
      }
      var sorted := SortByAge(ids);
      var oldest := Oldest(ids);
      OldestIsFirst(items, ids, oldest);
      if now - oldest < WindowMs(cfg.digests[c]) {
        return false;
      }
      var saved := items;
      Claim(r, c, ids, now);
      var content := cfg.template(c, Parts(saved, sorted));
      if content.None? {
        items := saved;
        return false;
      }
      var first := saved[sorted[0]];
      if first.userId.Some? && c !in cfg.critical && !prefs(first.userId.value, c) {
        dropped := dropped + set id | id in sorted;
        return true;
      }
      var key := FlushKey(r, c, oldest);
      if key in receipts {
        return true;
      }
      if !cfg.emailConfigured {
        items := saved;
        return false;
      }
      receipts := receipts + {key};
      emails := emails + [Email(first.email, first.userId, c, content.value, sorted)];
      return true;
    }

    /** `_peekDueGroups` over the rows it scanned: the groups with an item that has waited out its window. */
    method PeekDueGroups(scanned: seq<ItemId>, now: int) returns (due: set<(string, string)>)
      requires IdsOk(items, scanned)
      ensures forall r, c :: (r, c) in due <==>
                c in cfg.digests && exists i :: 0 <= i < |scanned| && InGroup(items[scanned[i]], r, c) && now - items[scanned[i]].createdAt >= WindowMs(cfg.digests[c])
    {
      due := {};
      for n := 0 to |scanned|
        invariant forall r, c :: (r, c) in due <==>
                    c in cfg.digests && exists i :: 0 <= i < n && InGroup(items[scanned[i]], r, c) && now - items[scanned[i]].createdAt >= WindowMs(cfg.digests[c])
      {
        var it := items[scanned[n]];
        if it.flushedAt.None? && it.category in cfg.digests && now - it.createdAt >= WindowMs(cfg.digests[it.category]) {
          due := due + {(it.email, it.category)};
        }
      }
    }
  }

  lemma OldestIsFirst(items: seq<Item>, ids: seq<ItemId>, oldest: int)
    requires IdsOk(items, ids) && ids != []
    requires exists i :: 0 <= i < |ids| && items[ids[i]].createdAt == oldest
    requires forall i :: 0 <= i < |ids| ==> oldest <= items[ids[i]].createdAt
    ensures OldestFirst(items, ids) != [] && items[OldestFirst(items, ids)[0]].createdAt == oldest
  {
    var sorted := OldestFirst(items, ids);
    OldestFirstSorts(items, ids);
    var i :| 0 <= i < |ids| && items[ids[i]].createdAt == oldest;
    assert ids[i] in multiset(ids) && ids[i] in multiset(sorted);
    var k :| 0 <= k < |sorted| && sorted[k] == ids[i];
    assert sorted[0] in multiset(sorted) && sorted[0] in multiset(ids);
    var j :| 0 <= j < |ids| && ids[j] == sorted[0];
    assert items[sorted[0]].createdAt <= items[sorted[k]].createdAt;
  }
}
