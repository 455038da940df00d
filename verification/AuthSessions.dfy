/**
 Sessions and the rotation of refresh tokens. Only hashes are stored; tokens are drawn fresh and the
 hash has no collisions.
 */
module AuthSessions {
  import opened Prelude

  type Token = nat
  type SessionId = nat

  datatype Config = Config(accessTtlMs: int, refreshTtlMs: int, sessionTotalTtlMs: int, refreshGraceMs: int, hash: Token -> string)

  ghost predicate ConfigOk(cfg: Config) {
    cfg.sessionTotalTtlMs >= 0 && forall a, b :: cfg.hash(a) == cfg.hash(b) ==> a == b
  }

  datatype Session = Session(
    userId: string,
    tokenHash: string,
    expiresAt: int,
    refreshTokenHash: string,
    prevRefreshTokenHash: Option<string>,
    refreshExpiresAt: int,
    absoluteExpiresAt: int,
    lastRefreshAt: int)

  /** Tokens below `nextToken` have been drawn. */
  datatype State = State(sessions: map<SessionId, Session>, nextId: SessionId, nextToken: Token)

  datatype Minted = Minted(token: Token, refreshToken: Token, sessionId: SessionId, expiresAt: int)

  datatype Outcome = Rotated(pair: Minted) | RefreshExpired | RefreshStale | RefreshReused | InvalidToken

  // ---------------------------------------------------------------- the mutations

  function NewSession(cfg: Config, userId: string, token: Token, refreshToken: Token, now: int): Session {
    Session(userId, cfg.hash(token), now + cfg.accessTtlMs, cfg.hash(refreshToken), None,
            now + cfg.refreshTtlMs, now + cfg.sessionTotalTtlMs, now)
  }

  function Rotate(cfg: Config, s: Session, token: Token, refreshToken: Token, now: int): Session {
    s.(tokenHash := cfg.hash(token), expiresAt := now + cfg.accessTtlMs, prevRefreshTokenHash := Some(s.refreshTokenHash),
       refreshTokenHash := cfg.hash(refreshToken), refreshExpiresAt := now + cfg.refreshTtlMs, lastRefreshAt := now)
  }

  predicate IsCurrent(cfg: Config, s: State, id: SessionId, t: Token) {
    id in s.sessions && s.sessions[id].refreshTokenHash == cfg.hash(t)
  }

  predicate IsPrevious(cfg: Config, s: State, id: SessionId, t: Token) {
    id in s.sessions && s.sessions[id].prevRefreshTokenHash == Some(cfg.hash(t))
  }

  predicate Alive(s: Session, now: int) {
    now <= s.absoluteExpiresAt && now <= s.refreshExpiresAt
  }

  /** `refresh`, seen from the session whose row the presented token found. */
  ghost predicate RefreshStep(cfg: Config, s: State, t: Token, now: int, out: Outcome, s': State) {
    if exists id :: IsCurrent(cfg, s, id, t) then
      exists id :: IsCurrent(cfg, s, id, t)
        && if !Alive(s.sessions[id], now) then out == RefreshExpired && s' == s
           else
             && out == Rotated(Minted(s.nextToken, s.nextToken + 1, id, now + cfg.accessTtlMs))
             && s' == State(s.sessions[id := Rotate(cfg, s.sessions[id], s.nextToken, s.nextToken + 1, now)], s.nextId, s.nextToken + 2)
    else if exists id :: IsPrevious(cfg, s, id, t) then
      exists id :: IsPrevious(cfg, s, id, t)
        && if now - s.sessions[id].lastRefreshAt <= cfg.refreshGraceMs then out == RefreshStale && s' == s
           else out == RefreshReused && s' == s.(sessions := s.sessions - {id})
    else out == InvalidToken && s' == s
  }

  function Mint(cfg: Config, s: State, userId: string, now: int): State {
    State(s.sessions[s.nextId := NewSession(cfg, userId, s.nextToken, s.nextToken + 1, now)], s.nextId + 1, s.nextToken + 2)
  }

  /** The session an access token resolves to. */
  predicate Resolves(cfg: Config, s: State, id: SessionId, t: Token) {
    id in s.sessions && s.sessions[id].tokenHash == cfg.hash(t)
  }

  ghost predicate SignOutStep(cfg: Config, s: State, t: Token, s': State) {
    if exists id :: Resolves(cfg, s, id, t)
    then exists id :: Resolves(cfg, s, id, t) && s' == s.(sessions := s.sessions - {id})
    else s' == s
  }

  class SessionDb {
    const cfg: Config
    var sessions: map<SessionId, Session>
    var nextId: SessionId
    var nextToken: Token

    constructor (cfg: Config)
      ensures this.cfg == cfg && Rows() == State(map[], 0, 0)
    {
      this.cfg := cfg;
      sessions, nextId, nextToken := map[], 0, 0;
    }

    function Rows(): State
      reads this
    {
      State(sessions, nextId, nextToken)
    }

    method GenerateToken() returns (t: Token)
      modifies this`nextToken
      ensures t == old(nextToken) && nextToken == t + 1
    {
      t := nextToken;
      nextToken := nextToken + 1;
    }

    method MintSession(userId: string, now: int) returns (m: Minted)
      modifies this
      ensures Rows() == Mint(cfg, old(Rows()), userId, now)
      ensures m == Minted(old(nextToken), old(nextToken) + 1, old(nextId), now + cfg.accessTtlMs)
    {
      var token := GenerateToken();
      var refreshToken := GenerateToken();
      sessions := sessions[nextId := NewSession(cfg, userId, token, refreshToken, now)];
      m := Minted(token, refreshToken, nextId, now + cfg.accessTtlMs);
      nextId := nextId + 1;
    }

    method Refresh(refreshToken: Token, now: int) returns (out: Outcome)
      modifies this
      ensures RefreshStep(cfg, old(Rows()), refreshToken, now, out, Rows())
    {
      var presented := cfg.hash(refreshToken);
      var matching := set id | id in sessions && sessions[id].refreshTokenHash == presented;
      if matching != {} {
        var id :| id in matching;
        assert IsCurrent(cfg, Rows(), id, refreshToken);
        var current := sessions[id];
        if now > current.absoluteExpiresAt || now > current.refreshExpiresAt {
          return RefreshExpired;
        }
        var newToken := GenerateToken();
        var newRefresh := GenerateToken();
        sessions := sessions[id := Rotate(cfg, current, newToken, newRefresh, now)];
        return Rotated(Minted(newToken, newRefresh, id, now + cfg.accessTtlMs));
      }
      assert forall id :: IsCurrent(cfg, Rows(), id, refreshToken) ==> id in matching;
      var reused := set id | id in sessions && sessions[id].prevRefreshTokenHash == Some(presented);
      if reused != {} {
        var id :| id in reused;
        assert IsPrevious(cfg, Rows(), id, refreshToken);
        if now - sessions[id].lastRefreshAt <= cfg.refreshGraceMs {
          return RefreshStale;
        }
        sessions := sessions - {id};
        return RefreshReused;
      }
      assert forall id :: IsPrevious(cfg, Rows(), id, refreshToken) ==> id in reused;
      return InvalidToken;
    }

    method ResolveSession(token: Token) returns (id: Option<SessionId>)
      ensures id.Some? ==> Resolves(cfg, Rows(), id.value, token)
      ensures id.None? ==> forall k :: !Resolves(cfg, Rows(), k, token)
    {
      var matching := set k | k in sessions && sessions[k].tokenHash == cfg.hash(token);
      if matching == {} {
        assert forall k :: Resolves(cfg, Rows(), k, token) ==> k in matching;
        return None;
      }
      var k :| k in matching;
      return Some(k);
    }

    method SignOut(token: Token)
      modifies this
      ensures SignOutStep(cfg, old(Rows()), token, Rows())
    {
      var id := ResolveSession(token);
      if id.Some? {
        sessions := sessions - {id.value};
      }
    }

    method GetUserId(token: Token, now: int) returns (userId: Option<string>)
      ensures userId.Some? ==> exists id :: Resolves(cfg, Rows(), id, token) && now <= sessions[id].expiresAt && userId == Some(sessions[id].userId)
      ensures userId.None? ==> (forall id :: !Resolves(cfg, Rows(), id, token)) || exists id :: Resolves(cfg, Rows(), id, token) && sessions[id].expiresAt < now
    {
      var id := ResolveSession(token);
      if id.None? || now > sessions[id.value].expiresAt {
        return None;
      }
      return Some(sessions[id.value].userId);
    }
  }

  // ---------------------------------------------------------------- runs

  datatype Label =
    | Minting(userId: string, now: int, pair: Minted)
    | Refreshing(t: Token, now: int, out: Outcome)
    | SigningOut(t: Token)
    | Revoking(id: SessionId)

  ghost predicate Allowed(cfg: Config, s: State, l: Label, s': State) {
    match l
    case Minting(userId, now, pair) =>
      s' == Mint(cfg, s, userId, now) && pair == Minted(s.nextToken, s.nextToken + 1, s.nextId, now + cfg.accessTtlMs)
    case Refreshing(t, now, out) => RefreshStep(cfg, s, t, now, out, s')
    case SigningOut(t) => SignOutStep(cfg, s, t, s')
    case Revoking(id) => s' == s.(sessions := s.sessions - {id})
  }

  datatype Trace = Empty | Then(before: Trace, step: Label, after: State)

  function Last(tr: Trace): State {
    if tr.Empty? then State(map[], 0, 0) else tr.after
  }

  ghost predicate Valid(cfg: Config, tr: Trace) {
    tr.Then? ==> Valid(cfg, tr.before) && Allowed(cfg, Last(tr.before), tr.step, tr.after)
  }

  /** The pair of tokens a step hands out for a session, if any. */
  function PairOf(l: Label, id: SessionId): Option<Minted> {
    if l.Minting? && l.pair.sessionId == id then Some(l.pair)
    else if l.Refreshing? && l.out.Rotated? && l.out.pair.sessionId == id then Some(l.out.pair)
    else None
  }

  /** The refresh token a step hands out for a session, if any. */
  function Added(l: Label, id: SessionId): seq<Token> {
    if PairOf(l, id).Some? then [PairOf(l, id).value.refreshToken] else []
  }

  /** The refresh tokens handed out for a session, in order. */
  function Chain(tr: Trace, id: SessionId): seq<Token> {
    if tr.Empty? then [] else Chain(tr.before, id) + Added(tr.step, id)
  }

  /** What one step does to one session: nothing, an end, a beginning or a rotation. */
  predicate Moves(cfg: Config, s: State, s': State, id: SessionId, added: seq<Token>) {
    && s.nextToken <= s'.nextToken && s.nextId <= s'.nextId
    && (added == [] ==> id in s'.sessions ==> id in s.sessions && s'.sessions[id] == s.sessions[id])
    && (added != [] ==>
          && |added| == 1 && s.nextToken <= added[0] < s'.nextToken && id < s'.nextId && id in s'.sessions
          && s'.sessions[id].refreshTokenHash == cfg.hash(added[0])
          && (if id == s.nextId then s'.sessions[id].prevRefreshTokenHash == None
              else id in s.sessions && s'.sessions[id].prevRefreshTokenHash == Some(s.sessions[id].refreshTokenHash)))
  }

  lemma StepMoves(cfg: Config, s: State, l: Label, s': State, id: SessionId)
    requires Allowed(cfg, s, l, s') && forall k :: k in s.sessions ==> k < s.nextId
    ensures Moves(cfg, s, s', id, Added(l, id)) && forall k :: k in s'.sessions ==> k < s'.nextId
  {
  }

  /** A live session stores the hashes of the last and the next to last token of its chain. */
  ghost predicate ChainOk(cfg: Config, s: State, id: SessionId, chain: seq<Token>) {
    && (forall i :: 0 <= i < |chain| ==> chain[i] < s.nextToken)
    && (forall i, j :: 0 <= i < j < |chain| ==> chain[i] < chain[j])
    && (id >= s.nextId ==> chain == [] && id !in s.sessions)
    && (id in s.sessions ==> chain != [] && Stores(cfg, s.sessions[id], chain))
  }

  predicate Stores(cfg: Config, session: Session, chain: seq<Token>)
    requires chain != []
  {
    && session.refreshTokenHash == cfg.hash(chain[|chain| - 1])
    && session.prevRefreshTokenHash == if |chain| == 1 then None else Some(cfg.hash(chain[|chain| - 2]))
  }

  lemma MoveKeepsChain(cfg: Config, s: State, s': State, id: SessionId, chain: seq<Token>, added: seq<Token>)
    requires ChainOk(cfg, s, id, chain) && Moves(cfg, s, s', id, added)
    ensures ChainOk(cfg, s', id, chain + added)
  {
  }

  /** No token is in the chains of two sessions. */
  ghost predicate Disjoint(a: seq<Token>, b: seq<Token>) {
    forall t :: t in a ==> t !in b
  }

  ghost predicate Inv(cfg: Config, tr: Trace) {
    && (forall id :: ChainOk(cfg, Last(tr), id, Chain(tr, id)))
    && (forall id, k :: id != k ==> Disjoint(Chain(tr, id), Chain(tr, k)))
  }

  lemma StepKeepsDisjoint(cfg: Config, s: State, l: Label, id: SessionId, k: SessionId, a: seq<Token>, b: seq<Token>)
    requires ChainOk(cfg, s, id, a) && ChainOk(cfg, s, k, b) && Disjoint(a, b) && id != k
    requires |Added(l, id)| > 0 ==> Added(l, id)[0] >= s.nextToken
    requires |Added(l, k)| > 0 ==> Added(l, k)[0] >= s.nextToken
    ensures Disjoint(a + Added(l, id), b + Added(l, k))
  {
  }

  lemma IdsBelow(cfg: Config, tr: Trace)
    requires Inv(cfg, tr)
    ensures forall k :: k in Last(tr).sessions ==> k < Last(tr).nextId
  {
    forall k | k in Last(tr).sessions ensures k < Last(tr).nextId {
      assert ChainOk(cfg, Last(tr), k, Chain(tr, k));
    }
  }

  lemma {:induction false} ChainsHold(cfg: Config, tr: Trace)
    requires Valid(cfg, tr)
    ensures Inv(cfg, tr)
  {
    if tr.Then? {
      ChainsHold(cfg, tr.before);
      IdsBelow(cfg, tr.before);
      var s := Last(tr.before);
      forall id ensures ChainOk(cfg, tr.after, id, Chain(tr, id)) {
        StepMoves(cfg, s, tr.step, tr.after, id);
        MoveKeepsChain(cfg, s, tr.after, id, Chain(tr.before, id), Added(tr.step, id));
      }
      forall id, k | id != k ensures Disjoint(Chain(tr, id), Chain(tr, k)) {
        StepMoves(cfg, s, tr.step, tr.after, id);
        StepMoves(cfg, s, tr.step, tr.after, k);
        StepKeepsDisjoint(cfg, s, tr.step, id, k, Chain(tr.before, id), Chain(tr.before, k));
      }
    }
  }

  // ---------------------------------------------------------------- what a presented token does

  /** Only the newest token of a live session is its current one, only the one before it its previous one. */
  lemma WhoseToken(cfg: Config, tr: Trace, id: SessionId, i: nat, k: SessionId)
    requires ConfigOk(cfg) && Valid(cfg, tr) && i < |Chain(tr, id)|
    ensures IsCurrent(cfg, Last(tr), k, Chain(tr, id)[i]) <==> k == id && id in Last(tr).sessions && i == |Chain(tr, id)| - 1
    ensures IsPrevious(cfg, Last(tr), k, Chain(tr, id)[i]) <==> k == id && id in Last(tr).sessions && i + 2 == |Chain(tr, id)|
  {
    ChainsHold(cfg, tr);
    var t := Chain(tr, id)[i];
    assert t in Chain(tr, id);
    assert ChainOk(cfg, Last(tr), id, Chain(tr, id));
    HashesOf(cfg, Last(tr), k, Chain(tr, k), t);
    if k != id {
      assert Disjoint(Chain(tr, id), Chain(tr, k));
    }
  }

  /** The stored hashes match the last and the next to last token, and no others. */
  lemma HashesOf(cfg: Config, s: State, k: SessionId, chain: seq<Token>, t: Token)
    requires ConfigOk(cfg) && ChainOk(cfg, s, k, chain)
    ensures IsCurrent(cfg, s, k, t) <==> k in s.sessions && t == chain[|chain| - 1]
    ensures IsPrevious(cfg, s, k, t) <==> k in s.sessions && |chain| > 1 && t == chain[|chain| - 2]
  {
  }

  /**
   A rotated session: the new pair is stored by its hashes and the old refresh token's hash is kept, the
   access and refresh deadlines slide, and the user and the fixed deadline stay.
   */
  predicate RotatedTo(cfg: Config, before: Session, after: Session, pair: Minted, now: int) {
    && after.tokenHash == cfg.hash(pair.token) && after.refreshTokenHash == cfg.hash(pair.refreshToken)
    && after.prevRefreshTokenHash == Some(before.refreshTokenHash)
    && after.expiresAt == pair.expiresAt == now + cfg.accessTtlMs && after.refreshExpiresAt == now + cfg.refreshTtlMs
    && after.lastRefreshAt == now && after.userId == before.userId && after.absoluteExpiresAt == before.absoluteExpiresAt
  }

  /**
   Refresh rotation. The tokens of a session form a chain. Presented while the session lives, the newest
   is rotated, or refused without effect once the session has expired; the one before it is refused
   without effect within grace, and after it ends the session; older ones change nothing. Once the
   session has ended, all its tokens are invalid.
   */
  lemma PresentedToken(cfg: Config, tr: Trace, id: SessionId, i: nat, now: int, out: Outcome, s': State)
    requires ConfigOk(cfg) && Valid(cfg, tr) && i < |Chain(tr, id)|
    requires RefreshStep(cfg, Last(tr), Chain(tr, id)[i], now, out, s')
    ensures var s, n := Last(tr), |Chain(tr, id)|;
            if id !in s.sessions || i + 2 < n then out == InvalidToken && s' == s
            else if i + 1 == n then
              if now <= s.sessions[id].absoluteExpiresAt && now <= s.sessions[id].refreshExpiresAt
              then out.Rotated? && out.pair.sessionId == id && s'.sessions.Keys == s.sessions.Keys
                   && RotatedTo(cfg, s.sessions[id], s'.sessions[id], out.pair, now)
                   && forall k :: k in s.sessions && k != id ==> s'.sessions[k] == s.sessions[k]
              else out == RefreshExpired && s' == s
            else if now - s.sessions[id].lastRefreshAt <= cfg.refreshGraceMs then out == RefreshStale && s' == s
            else out == RefreshReused && s'.sessions == s.sessions - {id}
  {
    var s, t := Last(tr), Chain(tr, id)[i];
    var newest, previous := id in s.sessions && i + 1 == |Chain(tr, id)|, id in s.sessions && i + 2 == |Chain(tr, id)|;
    forall k ensures IsCurrent(cfg, s, k, t) <==> k == id && newest {
      WhoseToken(cfg, tr, id, i, k);
    }
    forall k ensures IsPrevious(cfg, s, k, t) <==> k == id && previous {
      WhoseToken(cfg, tr, id, i, k);
    }
    RefreshOfOne(cfg, s, t, id, newest, previous, now, out, s');
  }

  /** A refresh whose token can only be of one session. */
  lemma RefreshOfOne(cfg: Config, s: State, t: Token, id: SessionId, newest: bool, previous: bool, now: int,
                     out: Outcome, s': State)
    requires RefreshStep(cfg, s, t, now, out, s')
    requires forall k :: IsCurrent(cfg, s, k, t) <==> k == id && newest
    requires forall k :: IsPrevious(cfg, s, k, t) <==> k == id && previous
    ensures newest || previous ==> id in s.sessions
    ensures newest ==>
              if Alive(s.sessions[id], now)
              then out.Rotated? && out.pair.sessionId == id && s'.sessions.Keys == s.sessions.Keys
                   && RotatedTo(cfg, s.sessions[id], s'.sessions[id], out.pair, now)
                   && forall k :: k in s.sessions && k != id ==> s'.sessions[k] == s.sessions[k]
              else out == RefreshExpired && s' == s
    ensures !newest && previous ==>
              if now - s.sessions[id].lastRefreshAt <= cfg.refreshGraceMs then out == RefreshStale && s' == s
              else out == RefreshReused && s'.sessions == s.sessions - {id}
    ensures !newest && !previous ==> out == InvalidToken && s' == s
  {
    assert IsCurrent(cfg, s, id, t) <==> newest;
    assert IsPrevious(cfg, s, id, t) <==> previous;
  }

  /** `later` continues `tr`. */
  ghost predicate Continues(tr: Trace, later: Trace) {
    later == tr || (later.Then? && Continues(tr, later.before))
  }

  /** A session that has ended does not come back, and gets no further token. */
  lemma {:induction false} EndedStaysEnded(cfg: Config, tr: Trace, later: Trace, id: SessionId)
    requires Valid(cfg, later) && Continues(tr, later) && id < Last(tr).nextId && id !in Last(tr).sessions
    ensures id !in Last(later).sessions && id < Last(later).nextId && Chain(later, id) == Chain(tr, id)
  {
    if later != tr {
      EndedStaysEnded(cfg, tr, later.before, id);
      ChainsHold(cfg, later.before);
      IdsBelow(cfg, later.before);
      StepMoves(cfg, Last(later.before), later.step, later.after, id);
    }
  }

  // ---------------------------------------------------------------- how long access lasts

  /** When a session was minted. */
  function MintedAt(tr: Trace, id: SessionId): Option<int> {
    if tr.Empty? then None
    else if tr.step.Minting? && Last(tr.before).nextId == id then Some(tr.step.now)
    else MintedAt(tr.before, id)
  }

  ghost predicate AccessOk(cfg: Config, tr: Trace, id: SessionId) {
    id in Last(tr).sessions ==>
      var session := Last(tr).sessions[id];
      && MintedAt(tr, id) == Some(session.absoluteExpiresAt - cfg.sessionTotalTtlMs)
      && session.expiresAt <= session.absoluteExpiresAt + cfg.accessTtlMs
  }

  lemma {:induction false} AccessBounded(cfg: Config, tr: Trace, id: SessionId)
    requires ConfigOk(cfg) && Valid(cfg, tr)
    ensures AccessOk(cfg, tr, id)
  {
    if tr.Then? {
      AccessBounded(cfg, tr.before, id);
      ChainsHold(cfg, tr.before);
      IdsBelow(cfg, tr.before);
      StepKeepsAccess(cfg, tr, id);
    }
  }

  lemma StepKeepsAccess(cfg: Config, tr: Trace, id: SessionId)
    requires ConfigOk(cfg) && tr.Then? && Allowed(cfg, Last(tr.before), tr.step, tr.after)
    requires AccessOk(cfg, tr.before, id)
    requires forall k :: k in Last(tr.before).sessions ==> k < Last(tr.before).nextId
    ensures AccessOk(cfg, tr, id)
  {
  }

  /**
   However often it is refreshed, a session accepts no access token later than its lifetime plus one
   access period after it was minted.
   */
  lemma AccessEnds(cfg: Config, tr: Trace, id: SessionId, t: Token, now: int)
    requires ConfigOk(cfg) && Valid(cfg, tr) && Resolves(cfg, Last(tr), id, t) && now <= Last(tr).sessions[id].expiresAt
    ensures MintedAt(tr, id).Some?
    ensures now <= Last(tr).sessions[id].absoluteExpiresAt + cfg.accessTtlMs
    ensures now <= MintedAt(tr, id).value + cfg.sessionTotalTtlMs + cfg.accessTtlMs
  {
    AccessBounded(cfg, tr, id);
  }

  // ---------------------------------------------------------------- the pair that was handed out last

  /** A pair of tokens and when it was handed out. */
  datatype Issue = Issue(pair: Minted, at: int)

  /** The pair handed out last for a session. */
  function LastIssue(tr: Trace, id: SessionId): Option<Issue> {
    if tr.Empty? then None
    else if PairOf(tr.step, id).Some? then Some(Issue(PairOf(tr.step, id).value, tr.step.now))
    else LastIssue(tr.before, id)
  }

  /** Who a session was minted for. */
  function MintedFor(tr: Trace, id: SessionId): Option<string> {
    if tr.Empty? then None
    else if tr.step.Minting? && tr.step.pair.sessionId == id then Some(tr.step.userId)
    else MintedFor(tr.before, id)
  }

  /** The access tokens handed out for a session, in order. */
  function AccessChain(tr: Trace, id: SessionId): seq<Token> {
    if tr.Empty? then []
    else AccessChain(tr.before, id) + if PairOf(tr.step, id).Some? then [PairOf(tr.step, id).value.token] else []
  }

  /** The row of a live session is that of the pair handed out last: its user, its hashes and its deadlines. */
  ghost predicate HoldsIssue(cfg: Config, tr: Trace, id: SessionId) {
    id in Last(tr).sessions ==>
      var session, issue := Last(tr).sessions[id], LastIssue(tr, id);
      && issue.Some? && MintedFor(tr, id) == Some(session.userId) && MintedAt(tr, id).Some?
      && issue.value.pair.sessionId == id && issue.value.pair.expiresAt == issue.value.at + cfg.accessTtlMs
      && session.tokenHash == cfg.hash(issue.value.pair.token) && session.refreshTokenHash == cfg.hash(issue.value.pair.refreshToken)
      && session.expiresAt == issue.value.pair.expiresAt
      && session.refreshExpiresAt == issue.value.at + cfg.refreshTtlMs && session.lastRefreshAt == issue.value.at
      && session.absoluteExpiresAt == MintedAt(tr, id).value + cfg.sessionTotalTtlMs
  }

  lemma StepHoldsIssue(cfg: Config, tr: Trace, id: SessionId)
    requires tr.Then? && Allowed(cfg, Last(tr.before), tr.step, tr.after) && HoldsIssue(cfg, tr.before, id)
    requires forall k :: k in Last(tr.before).sessions ==> k < Last(tr.before).nextId
    ensures HoldsIssue(cfg, tr, id)
  {
  }

  lemma {:induction false} IssueHeld(cfg: Config, tr: Trace, id: SessionId)
    requires Valid(cfg, tr)
    ensures HoldsIssue(cfg, tr, id)
  {
    if tr.Then? {
      IssueHeld(cfg, tr.before, id);
      ChainsHold(cfg, tr.before);
      IdsBelow(cfg, tr.before);
      StepHoldsIssue(cfg, tr, id);
    }
  }

  /** The tokens of a pair are drawn together. */
  lemma {:induction false} ChainsPaired(cfg: Config, tr: Trace, id: SessionId)
    requires Valid(cfg, tr)
    ensures |AccessChain(tr, id)| == |Chain(tr, id)|
    ensures forall i :: 0 <= i < |Chain(tr, id)| ==> Chain(tr, id)[i] == AccessChain(tr, id)[i] + 1
    ensures LastIssue(tr, id).Some? ==> Chain(tr, id) != [] && Chain(tr, id)[|Chain(tr, id)| - 1] == LastIssue(tr, id).value.pair.token + 1
  {
    if tr.Then? {
      ChainsPaired(cfg, tr.before, id);
    }
  }

  /** An access token is accepted for a user. */
  ghost predicate Accepts(cfg: Config, s: State, t: Token, now: int, userId: string) {
    exists id :: Resolves(cfg, s, id, t) && now <= s.sessions[id].expiresAt && s.sessions[id].userId == userId
  }

  /** A live session's access token is the one drawn with the newest token of its chain. */
  lemma ResolvesNewest(cfg: Config, tr: Trace, k: SessionId, t: Token)
    requires ConfigOk(cfg) && Valid(cfg, tr) && k in Last(tr).sessions
    ensures Chain(tr, k) != [] && (Resolves(cfg, Last(tr), k, t) <==> t + 1 == Chain(tr, k)[|Chain(tr, k)| - 1])
  {
    ChainsPaired(cfg, tr, k);
    IssueHeld(cfg, tr, k);
  }

  lemma NewestOfChain(mine: seq<Token>, others: seq<Token>, i: nat, same: bool)
    requires i < |mine| && others != [] && (if same then others == mine else Disjoint(mine, others))
    requires forall a, b :: 0 <= a < b < |mine| ==> mine[a] < mine[b]
    ensures mine[i] == others[|others| - 1] <==> same && i == |mine| - 1
  {
    assert mine[i] in mine && others[|others| - 1] in others;
  }

  lemma ChainsApart(cfg: Config, tr: Trace, id: SessionId, k: SessionId)
    requires Valid(cfg, tr)
    ensures forall a, b :: 0 <= a < b < |Chain(tr, id)| ==> Chain(tr, id)[a] < Chain(tr, id)[b]
    ensures id != k ==> Disjoint(Chain(tr, id), Chain(tr, k))
  {
    ChainsHold(cfg, tr);
    assert ChainOk(cfg, Last(tr), id, Chain(tr, id));
  }

  lemma NewestAgainst(cfg: Config, tr: Trace, id: SessionId, i: nat, k: SessionId)
    requires Valid(cfg, tr) && i < |Chain(tr, id)| && Chain(tr, k) != []
    ensures Chain(tr, id)[i] == Chain(tr, k)[|Chain(tr, k)| - 1] <==> k == id && i == |Chain(tr, id)| - 1
  {
    ChainsApart(cfg, tr, id, k);
    NewestOfChain(Chain(tr, id), Chain(tr, k), i, id == k);
  }

  /** Only the access token handed out last for a session resolves, and only to that session. */
  lemma WhoseAccess(cfg: Config, tr: Trace, id: SessionId, i: nat, k: SessionId)
    requires ConfigOk(cfg) && Valid(cfg, tr) && i < |AccessChain(tr, id)|
    ensures Resolves(cfg, Last(tr), k, AccessChain(tr, id)[i]) <==> k == id && id in Last(tr).sessions && i == |AccessChain(tr, id)| - 1
  {
    assert |AccessChain(tr, id)| == |Chain(tr, id)| && Chain(tr, id)[i] == AccessChain(tr, id)[i] + 1 by {
      ChainsPaired(cfg, tr, id);
    }
    if k in Last(tr).sessions {
      ResolvesNewest(cfg, tr, k, AccessChain(tr, id)[i]);
      NewestAgainst(cfg, tr, id, i, k);
    }
  }

  lemma AcceptsOne(cfg: Config, s: State, t: Token, id: SessionId, newest: bool, now: int, userId: string)
    requires newest ==> id in s.sessions
    requires forall k :: Resolves(cfg, s, k, t) <==> k == id && newest
    ensures Accepts(cfg, s, t, now, userId) <==> newest && now <= s.sessions[id].expiresAt && s.sessions[id].userId == userId
  {
    assert Resolves(cfg, s, id, t) <==> newest;
  }

  /** What is known of a live session's last pair. */
  ghost predicate PairKnown(cfg: Config, tr: Trace, id: SessionId) {
    && id in Last(tr).sessions && LastIssue(tr, id).Some? && MintedAt(tr, id).Some? && AccessChain(tr, id) != []
    && LastIssue(tr, id).value.pair.token == AccessChain(tr, id)[|AccessChain(tr, id)| - 1]
    && Last(tr).sessions[id].expiresAt == LastIssue(tr, id).value.pair.expiresAt
    && MintedFor(tr, id) == Some(Last(tr).sessions[id].userId)
    && Last(tr).sessions[id].refreshExpiresAt == LastIssue(tr, id).value.at + cfg.refreshTtlMs
    && Last(tr).sessions[id].absoluteExpiresAt == MintedAt(tr, id).value + cfg.sessionTotalTtlMs
  }

  lemma LivePairKnown(cfg: Config, tr: Trace, id: SessionId)
    requires Valid(cfg, tr) && id in Last(tr).sessions
    ensures PairKnown(cfg, tr, id)
  {
    IssueHeld(cfg, tr, id);
    ChainsPaired(cfg, tr, id);
  }

  /**
   What a pair is good for. The access token that a mint or a refresh handed out last for a live session is
   accepted for the user the session was minted for, up to the time that was returned with it and no
   longer; every earlier one is refused. Each refresh slides the refresh deadline to a refresh period
   after it, while the session's own deadline stays where the mint put it.
   */
  lemma PairsWork(cfg: Config, tr: Trace, id: SessionId, i: nat, now: int, userId: string)
    requires ConfigOk(cfg) && Valid(cfg, tr) && i < |AccessChain(tr, id)|
    ensures id in Last(tr).sessions ==> PairKnown(cfg, tr, id)
    ensures Accepts(cfg, Last(tr), AccessChain(tr, id)[i], now, userId) <==>
              && id in Last(tr).sessions && i == |AccessChain(tr, id)| - 1
              && LastIssue(tr, id).Some? && now <= LastIssue(tr, id).value.pair.expiresAt && MintedFor(tr, id) == Some(userId)
  {
    var newest := id in Last(tr).sessions && i == |AccessChain(tr, id)| - 1;
    forall k ensures Resolves(cfg, Last(tr), k, AccessChain(tr, id)[i]) <==> k == id && newest {
      WhoseAccess(cfg, tr, id, i, k);
    }
    AcceptsOne(cfg, Last(tr), AccessChain(tr, id)[i], id, newest, now, userId);
    if id in Last(tr).sessions {
      LivePairKnown(cfg, tr, id);
    }
  }

  /**
   Signing out with an access token that was handed out ends its session if it is the last one of a live
   session, and otherwise changes nothing.
   */
  lemma SignOutEnds(cfg: Config, tr: Trace, id: SessionId, i: nat)
    requires ConfigOk(cfg) && Valid(cfg, tr) && tr.Then? && i < |AccessChain(tr.before, id)|
    requires tr.step == SigningOut(AccessChain(tr.before, id)[i])
    ensures var s := Last(tr.before);
            if id in s.sessions && i == |AccessChain(tr.before, id)| - 1
            then tr.after.sessions.Keys == s.sessions.Keys - {id} && forall k :: k in tr.after.sessions ==> tr.after.sessions[k] == s.sessions[k]
            else tr.after == s
  {
    var s, t := Last(tr.before), AccessChain(tr.before, id)[i];
    var newest := id in s.sessions && i == |AccessChain(tr.before, id)| - 1;
    forall k ensures Resolves(cfg, s, k, t) <==> k == id && newest {
      WhoseAccess(cfg, tr.before, id, i, k);
    }
    SignOutOfOne(cfg, s, t, id, newest, tr.after);
  }

  lemma SignOutOfOne(cfg: Config, s: State, t: Token, id: SessionId, newest: bool, s': State)
    requires SignOutStep(cfg, s, t, s') && forall k :: Resolves(cfg, s, k, t) <==> k == id && newest
    ensures if newest then s'.sessions == s.sessions - {id} else s' == s
  {
    assert Resolves(cfg, s, id, t) <==> newest;
  }
}
