/** Whole runs of the authorization component: role edits across reboots, assignments, revocations, rebuilds. */
module AuthzRuns {
  import opened Prelude
  import opened AuthzRoles
  import opened AuthzPermissions
  import opened AuthzIndex
  import opened AuthzRebuild

  /** The actions an app declares for its resources. They are hashed with the roles, and nothing else reads them here. */
  type Permissions = map<string, seq<string>>

  datatype Op =
    | Boot(roles: Roles, permissions: Permissions)
    | AssignRole(caller: Option<string>, a: Assign)
    | RevokeRole(caller: Option<string>, a: Assign)
    | BootstrapFirstAdmin(a: Assign)
    | Rebuild(caller: Option<string>)

  /** The configuration that is running and its tables. */
  datatype Sys = Sys(roles: Roles, permissions: Permissions, s: State) {
    function Hash(hash: (Roles, Permissions) -> string): string {
      hash(roles, permissions)
    }
  }

  function ScopeArg(scope: Scope): Option<Scope> {
    if scope == GLOBAL then None else Some(scope)
  }

  predicate MayManage(s: State, caller: Option<string>, scope: Scope) {
    ScopeOk(ScopeArg(scope)) && Can(s.eff, caller, MANAGE_PERMISSION, ScopeArg(scope))
  }

  /** What a rebuild leaves: nothing new if the stored hash is current, otherwise an index made from the assignments. */
  ghost predicate Rebuilt(roles: Roles, hash: string, s: State, s': State) {
    if s.meta == Some(hash) then s' == s
    else s'.assigns == s.assigns && s'.meta == Some(hash) && RebuildsTo(roles, s.assigns, s.eff, s'.eff)
  }

  predicate CanRebuild(roles: Roles, hash: string, s: State) {
    s.meta == Some(hash) || AllExpand(roles, RolesIn(s.assigns))
  }

  /** A boot whose reconciliation throws does not come up; every other call that throws changes nothing. */
  ghost predicate Step(hash: (Roles, Permissions) -> string, x: Sys, op: Op, y: Sys) {
    match op
    case Boot(roles, permissions) =>
      && y.roles == roles && y.permissions == permissions
      && CanRebuild(roles, y.Hash(hash), x.s) && Rebuilt(roles, y.Hash(hash), x.s, y.s)
    case AssignRole(caller, a) =>
      y == if MayManage(x.s, caller, a.scope) && !TooMany(x.roles, a.role) then x.(s := WithRole(x.roles, x.s, a)) else x
    case RevokeRole(caller, a) =>
      y == if MayManage(x.s, caller, a.scope) && AllExpand(x.roles, RolesAt(x.s.assigns - {a}, a.userId, a.scope))
           then x.(s := WithoutRole(x.roles, x.s, a)) else x
    case BootstrapFirstAdmin(a) =>
      y == if a.scope == GLOBAL && RoleGrants(x.roles, a.role, MANAGE_PERMISSION) && !TooMany(x.roles, a.role)
              && forall e :: e in x.s.eff ==> e.permission !in CandidateKeys(MANAGE_PERMISSION)
           then x.(s := WithRole(x.roles, x.s, a)) else x
    case Rebuild(caller) =>
      y.roles == x.roles && y.permissions == x.permissions
      && if Can(x.s.eff, caller, MANAGE_PERMISSION, None) && CanRebuild(x.roles, x.Hash(hash), x.s)
         then Rebuilt(x.roles, x.Hash(hash), x.s, y.s) else y == x
  }

  datatype Trace = Empty | Then(before: Trace, op: Op, after: Sys)

  function Last(tr: Trace): Sys {
    if tr.Empty? then Sys(map[], map[], State({}, {}, None)) else tr.after
  }

  ghost predicate Valid(hash: (Roles, Permissions) -> string, tr: Trace) {
    tr.Then? ==> Valid(hash, tr.before) && Step(hash, Last(tr.before), tr.op, tr.after)
  }

  /** The step makes the index anew. */
  predicate Rebuilds(hash: (Roles, Permissions) -> string, x: Sys, op: Op) {
    || (op.Boot? && x.s.meta != Some(hash(op.roles, op.permissions)))
    || (op.Rebuild? && x.s.meta != Some(x.Hash(hash)) && Can(x.s.eff, op.caller, MANAGE_PERMISSION, None))
  }

  /** No edit of the roles leaves their hash as it was. */
  ghost predicate HashTells(hash: (Roles, Permissions) -> string, tr: Trace) {
    tr.Then? ==>
      && HashTells(hash, tr.before)
      && (tr.op.Boot? && Last(tr.before).s.meta == Some(hash(tr.op.roles, tr.op.permissions)) ==> tr.op.roles == Last(tr.before).roles)
  }

  /** Whenever the index is made anew, no two users and scopes with assignments share a key. */
  ghost predicate RebuiltApart(hash: (Roles, Permissions) -> string, tr: Trace) {
    tr.Then? ==>
      && RebuiltApart(hash, tr.before)
      && (Rebuilds(hash, Last(tr.before), tr.op) ==> AssignsApart(Last(tr.before).s.assigns))
  }

  /** No NUL in the user ids and scope types of assignments. */
  ghost predicate NoNul(tr: Trace) {
    tr.Then? ==>
      NoNul(tr.before) && (tr.op.AssignRole? || tr.op.BootstrapFirstAdmin? ==> Plain(tr.op.a.userId, tr.op.a.scope))
  }

  ghost predicate AllPlain(assigns: set<Assign>) {
    forall a :: a in assigns ==> Plain(a.userId, a.scope)
  }

  lemma PlainApart(assigns: set<Assign>)
    requires AllPlain(assigns)
    ensures AssignsApart(assigns)
  {
    forall a, b | a in assigns && b in assigns && KeyOf(a.userId, a.scope) == KeyOf(b.userId, b.scope)
      ensures a.userId == b.userId && a.scope == b.scope
    {
      KeysDistinct(a.userId, a.scope, b.userId, b.scope);
    }
  }

  lemma StepStaysPlain(hash: (Roles, Permissions) -> string, x: Sys, op: Op, y: Sys)
    requires Step(hash, x, op, y) && AllPlain(x.s.assigns)
    requires op.AssignRole? || op.BootstrapFirstAdmin? ==> Plain(op.a.userId, op.a.scope)
    ensures AllPlain(y.s.assigns)
  {
  }

  /** Without NUL all keys are apart, at any time. */
  lemma {:induction false} NoNulSuffices(hash: (Roles, Permissions) -> string, tr: Trace)
    requires Valid(hash, tr) && NoNul(tr)
    ensures AllPlain(Last(tr).s.assigns) && RebuiltApart(hash, tr) && AssignsApart(Last(tr).s.assigns)
  {
    if tr.Then? {
      NoNulSuffices(hash, tr.before);
      StepStaysPlain(hash, Last(tr.before), tr.op, tr.after);
    }
    PlainApart(Last(tr).s.assigns);
  }

  // ---------------------------------------------------------------- the index refines the assignments

  lemma GrantKeepsRefines(roles: Roles, s: State, a: Assign)
    requires Refines(roles, s)
    ensures Refines(roles, WithRole(roles, s, a))
  {
  }

  lemma WithdrawKeepsRefines(roles: Roles, s: State, a: Assign)
    requires Refines(roles, s)
    ensures Refines(roles, WithoutRole(roles, s, a))
  {
  }

  /** An index that is right has no row that could be taken for another's. */
  lemma RefinedApart(roles: Roles, s: State)
    requires Refines(roles, s) && AssignsApart(s.assigns)
    ensures KeysApart(s.assigns, s.eff)
  {
    forall a, e | a in s.assigns && e in s.eff && KeyOf(a.userId, a.scope) == KeyOf(e.userId, e.scope)
      ensures a.userId == e.userId && a.scope == e.scope
    {
      assert Entitled(roles, s.assigns, e);
    }
  }

  lemma RebuiltKeepsRefines(former: Roles, roles: Roles, hash: string, s: State, s': State)
    requires Refines(former, s) && Rebuilt(roles, hash, s, s') && s.meta != Some(hash) && AssignsApart(s.assigns)
    ensures Refines(roles, s')
  {
    RefinedApart(former, s);
    RebuildRefines(roles, s', s.eff);
  }

  /**
   In every reachable state the index holds exactly the patterns that the assignments entitle to under
   the running configuration, and carries its hash.
   */
  lemma {:induction false} IndexRefinesAssignments(hash: (Roles, Permissions) -> string, tr: Trace)
    requires Valid(hash, tr) && HashTells(hash, tr) && RebuiltApart(hash, tr)
    ensures Refines(Last(tr).roles, Last(tr).s)
    ensures Last(tr).s.meta.Some? ==> Last(tr).s.meta.value == Last(tr).Hash(hash)
  {
    if tr.Then? {
      IndexRefinesAssignments(hash, tr.before);
      var x := Last(tr.before);
      match tr.op
      case Boot(roles, permissions) =>
        if x.s.meta != Some(hash(roles, permissions)) {
          RebuiltKeepsRefines(x.roles, roles, hash(roles, permissions), x.s, tr.after.s);
        }
      case AssignRole(_, a) => GrantKeepsRefines(x.roles, x.s, a);
      case RevokeRole(_, a) => WithdrawKeepsRefines(x.roles, x.s, a);
      case BootstrapFirstAdmin(a) => GrantKeepsRefines(x.roles, x.s, a);
      case Rebuild(_) =>
        if x.s.meta != Some(x.Hash(hash)) && tr.after != x {
          RebuiltKeepsRefines(x.roles, x.roles, x.Hash(hash), x.s, tr.after.s);
        }
    }
  }

  /**
   The condition on keys is the exact one at each boot with edited roles: from a state whose index is right,
   every rebuild is right if and only if no two users and scopes with assignments share a key.
   */
  lemma NextRebuildIff(x: Sys)
    requires Refines(x.roles, x.s)
    ensures RebuildsRight(x.s.assigns, x.s.eff) <==> AssignsApart(x.s.assigns)
  {
    RebuildRefinesIff(x.s.assigns, x.s.eff);
    if AssignsApart(x.s.assigns) {
      RefinedApart(x.roles, x.s);
    }
  }

  // ---------------------------------------------------------------- asking the index

  /** `assignedRoles`: the roles a user has in a scope, the global ones included. */
  function AssignedRoles(assigns: set<Assign>, userId: string, scope: Option<Scope>): set<string> {
    RolesAt(assigns, userId, if scope.Some? then scope.value else GLOBAL) + RolesAt(assigns, userId, GLOBAL)
  }

  predicate SomeRoleGrants(roles: Roles, names: set<string>, permission: string) {
    exists role :: role in names && RoleGrants(roles, role, permission)
  }

  lemma HeldIsRoleCheck(roles: Roles, s: State, userId: string, permission: string, scope: Scope)
    requires Refines(roles, s) && ColonFreeRoles(roles) && WellFormed(permission)
    ensures Held(s.eff, scope, userId, CandidateKeys(permission)) <==> SomeRoleGrants(roles, RolesAt(s.assigns, userId, scope), permission)
  {
    var names := RolesAt(s.assigns, userId, scope);
    if Held(s.eff, scope, userId, CandidateKeys(permission)) {
      var key :| key in CandidateKeys(permission) && Effective(userId, scope, key) in s.eff;
      EntitledAt(roles, s.assigns, Effective(userId, scope, key));
      var role :| role in names && key in Patterns(roles, role);
      AgreeOnRole(roles, role, permission);
    }
    if SomeRoleGrants(roles, names, permission) {
      var role :| role in names && RoleGrants(roles, role, permission);
      AgreeOnRole(roles, role, permission);
      var key :| key in CandidateKeys(permission) && key in Expand(roles, role, {}).out;
      EntitledAt(roles, s.assigns, Effective(userId, scope, key));
      assert Effective(userId, scope, key) in s.eff;
    }
  }

  /** `can` answers what checking every role assigned in the scope or globally would answer. */
  lemma CanIsRoleCheck(hash: (Roles, Permissions) -> string, tr: Trace, userId: string, permission: string, scope: Option<Scope>)
    requires Valid(hash, tr) && HashTells(hash, tr) && RebuiltApart(hash, tr) && ColonFreeRoles(Last(tr).roles) && WellFormed(permission)
    ensures var x := Last(tr);
            Can(x.s.eff, Some(userId), permission, scope) <==>
            SomeRoleGrants(x.roles, AssignedRoles(x.s.assigns, userId, scope), permission)
  {
    IndexRefinesAssignments(hash, tr);
    var x := Last(tr);
    var at := if scope.Some? then scope.value else GLOBAL;
    HeldIsRoleCheck(x.roles, x.s, userId, permission, at);
    HeldIsRoleCheck(x.roles, x.s, userId, permission, GLOBAL);
    GrantsInUnion(x.roles, RolesAt(x.s.assigns, userId, at), RolesAt(x.s.assigns, userId, GLOBAL), permission);
  }

  lemma GrantsInUnion(roles: Roles, a: set<string>, b: set<string>, permission: string)
    ensures SomeRoleGrants(roles, a + b, permission) <==> SomeRoleGrants(roles, a, permission) || SomeRoleGrants(roles, b, permission)
  {
  }

  /** `scopesWith`: ids of the scopes, of one kind or any, where the index holds a candidate key. */
  method ScopesWith(s: State, userId: Option<string>, permission: string,
                    kind: Option<string>) returns (out: set<string>)
    ensures forall id :: id in out <==>
              userId.Some? && exists k :: (kind.None? || kind == Some(k)) && Held(s.eff, Scope(k, id), userId.value, CandidateKeys(permission))
  {
    out := {};
    if userId.None? {
      return;
    }
    var keys := CandidateKeys(permission);
    var rest := set e | e in s.eff && e.userId == userId.value;
    ghost var rows := rest;
    while rest != {}
      invariant rest <= rows
      invariant forall id :: id in out <==> exists e :: e in rows && e !in rest && e.scope.id == id && Counts(e, kind, keys)
      decreases rest
    {
      var e :| e in rest;
      rest := rest - {e};
      if kind.Some? && e.scope.kind != kind.value {
        continue;
      }
      if e.permission in keys {
        out := out + {e.scope.id};
      }
    }
    forall id ensures id in out <==> exists k :: (kind.None? || kind == Some(k)) && Held(s.eff, Scope(k, id), userId.value, keys) {
      if id in out {
        var e :| e in rows && e.scope.id == id && Counts(e, kind, keys);
        assert e == Effective(userId.value, Scope(e.scope.kind, id), e.permission);
        assert Held(s.eff, Scope(e.scope.kind, id), userId.value, keys);
      }
      if exists k :: (kind.None? || kind == Some(k)) && Held(s.eff, Scope(k, id), userId.value, keys) {
        var k :| (kind.None? || kind == Some(k)) && Held(s.eff, Scope(k, id), userId.value, keys);
        var key :| key in keys && Effective(userId.value, Scope(k, id), key) in s.eff;
        var e := Effective(userId.value, Scope(k, id), key);
        assert e in rows && Counts(e, kind, keys);
      }
    }
  }

  predicate Counts(e: Effective, kind: Option<string>, keys: set<string>) {
    (kind.None? || e.scope.kind == kind.value) && e.permission in keys
  }

  /** A scope is listed exactly if a role assigned in it grants the permission; global roles list no scope of a kind. */
  lemma ScopeListedIff(hash: (Roles, Permissions) -> string, tr: Trace, userId: string, permission: string, scope: Scope)
    requires Valid(hash, tr) && HashTells(hash, tr) && RebuiltApart(hash, tr) && ColonFreeRoles(Last(tr).roles) && WellFormed(permission)
    ensures Held(Last(tr).s.eff, scope, userId, CandidateKeys(permission)) <==>
            SomeRoleGrants(Last(tr).roles, RolesAt(Last(tr).s.assigns, userId, scope), permission)
  {
    IndexRefinesAssignments(hash, tr);
    HeldIsRoleCheck(Last(tr).roles, Last(tr).s, userId, permission, scope);
  }

  // ---------------------------------------------------------------- what a grant and a revocation do

  /** The call is entitled to its effect. */
  predicate Succeeds(x: Sys, op: Op) {
    match op
    case AssignRole(caller, a) => MayManage(x.s, caller, a.scope) && !TooMany(x.roles, a.role)
    case RevokeRole(caller, a) =>
      MayManage(x.s, caller, a.scope) && AllExpand(x.roles, RolesAt(x.s.assigns - {a}, a.userId, a.scope))
    case BootstrapFirstAdmin(a) =>
      && a.scope == GLOBAL && RoleGrants(x.roles, a.role, MANAGE_PERMISSION) && !TooMany(x.roles, a.role)
      && forall e :: e in x.s.eff ==> e.permission !in CandidateKeys(MANAGE_PERMISSION)
    case _ => false
  }

  /**
   What a call does. A grant that succeeds adds its assignment and its role's patterns, a revocation that
   succeeds takes its assignment away and leaves its user exactly what the remaining roles of that
   scope expand to; neither touches anyone or anything else, and a call that fails changes nothing.
   */
  lemma CallsTakeEffect(hash: (Roles, Permissions) -> string, x: Sys, op: Op, y: Sys)
    requires Step(hash, x, op, y) && (op.AssignRole? || op.RevokeRole? || op.BootstrapFirstAdmin?)
    ensures if !Succeeds(x, op) then y == x
            else y.roles == x.roles && if op.RevokeRole? then RevokedFrom(x.roles, x.s, y.s, op.a) else GrantedTo(x.roles, x.s, y.s, op.a)
  {
    WithRoleGrants(x.roles, x.s, op.a);
    WithoutRoleRevokes(x.roles, x.s, op.a);
  }

  /**
   After a revocation `can` answers for the revoked user by the roles that are left, so that a permission that
   only the revoked role granted is gone; after a grant it answers yes for what the granted role grants.
   */
  lemma CanAfterCall(hash: (Roles, Permissions) -> string, tr: Trace, permission: string)
    requires Valid(hash, tr) && HashTells(hash, tr) && RebuiltApart(hash, tr) && ColonFreeRoles(Last(tr).roles) && WellFormed(permission)
    requires tr.Then? && (tr.op.AssignRole? || tr.op.RevokeRole? || tr.op.BootstrapFirstAdmin?) && Succeeds(Last(tr.before), tr.op)
    ensures var x, y, a := Last(tr.before), tr.after, tr.op.a;
            var allowed := Can(y.s.eff, Some(a.userId), permission, Some(a.scope));
            if tr.op.RevokeRole?
            then allowed <==> SomeRoleGrants(x.roles, AssignedRoles(x.s.assigns - {a}, a.userId, Some(a.scope)), permission)
            else RoleGrants(x.roles, a.role, permission) ==> allowed
  {
    var x, y, a := Last(tr.before), tr.after, tr.op.a;
    CallsTakeEffect(hash, x, tr.op, y);
    CanIsRoleCheck(hash, tr, a.userId, permission, Some(a.scope));
    if tr.op.RevokeRole? {
      assert y.s.assigns == x.s.assigns - {a};
    } else {
      assert a in y.s.assigns && a.role in RolesAt(y.s.assigns, a.userId, a.scope);
    }
  }

  /** There is never a second bootstrap: once anyone holds the manage permission in the index, it is refused. */
  lemma BootstrapOnlyOnce(hash: (Roles, Permissions) -> string, tr: Trace, userId: string, a: Assign)
    requires Valid(hash, tr) && tr.Then? && tr.op == BootstrapFirstAdmin(a)
    requires HashTells(hash, tr) && RebuiltApart(hash, tr) && ColonFreeRoles(Last(tr.before).roles)
    requires exists x :: x in Last(tr.before).s.assigns && RoleGrants(Last(tr.before).roles, x.role, MANAGE_PERMISSION)
    ensures tr.after == Last(tr.before)
  {
    IndexRefinesAssignments(hash, tr.before);
    var x := Last(tr.before);
    var held :| held in x.s.assigns && RoleGrants(x.roles, held.role, MANAGE_PERMISSION);
    ManageWellFormed();
    assert held.role in RolesAt(x.s.assigns, held.userId, held.scope);
    HeldIsRoleCheck(x.roles, x.s, held.userId, MANAGE_PERMISSION, held.scope);
    var key :| key in CandidateKeys(MANAGE_PERMISSION) && Effective(held.userId, held.scope, key) in x.s.eff;
  }

  lemma OneColon(a: string, b: string, permission: string)
    requires ColonFree(a) && ColonFree(b) && permission == Pattern(a, b)
    ensures WellFormed(permission)
  {
    ColonAt(a, b);
  }

  lemma ManageWellFormed()
    ensures WellFormed(MANAGE_PERMISSION)
  {
    OneColon("authz", "manage", MANAGE_PERMISSION);
  }
}
