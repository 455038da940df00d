/**
 The materialised permission index and the mutations that maintain it beside the role assignments.
 The tables are sets of rows; a second row with the same columns would change no answer.
 */
module AuthzIndex {
  import opened Prelude
  import opened AuthzRoles
  import opened AuthzPermissions

  datatype Scope = Scope(kind: string, id: string)

  const GLOBAL := Scope("", "")

  datatype Assign = Assign(userId: string, role: string, scope: Scope)
  datatype Effective = Effective(userId: string, scope: Scope, permission: string)

  datatype State = State(assigns: set<Assign>, eff: set<Effective>, meta: Option<string>)

  datatype Outcome = Done | BadScope | Forbidden | TooManyPatterns | NotAnAdminRole | AdminExists

  const MAX_PATTERNS_PER_ROLE: nat := 1000
  const MANAGE_PERMISSION := "authz:manage"

  // ---------------------------------------------------------------- what the index should hold

  function Patterns(roles: Roles, role: string): set<string> {
    Expand(roles, role, {}).out
  }

  predicate TooMany(roles: Roles, role: string) {
    |Patterns(roles, role)| > MAX_PATTERNS_PER_ROLE
  }

  /** The user is granted the pattern in the scope by one of the roles assigned there. */
  predicate Entitled(roles: Roles, assigns: set<Assign>, e: Effective) {
    exists a :: a in assigns && a.userId == e.userId && a.scope == e.scope && e.permission in Patterns(roles, a.role)
  }

  /** The index is exactly what the assignments and the inheritance of roles entitle to. */
  ghost predicate Refines(roles: Roles, s: State) {
    forall e :: e in s.eff <==> Entitled(roles, s.assigns, e)
  }

  function RolesAt(assigns: set<Assign>, userId: string, scope: Scope): set<string> {
    set a | a in assigns && a.userId == userId && a.scope == scope :: a.role
  }

  // ---------------------------------------------------------------- the mutations as functions

  predicate Held(eff: set<Effective>, scope: Scope, userId: string, keys: set<string>) {
    exists key :: key in keys && Effective(userId, scope, key) in eff
  }

  /** `can`. */
  predicate Can(eff: set<Effective>, userId: Option<string>, permission: string, scope: Option<Scope>) {
    && userId.Some?
    && var at := if scope.Some? then scope.value else GLOBAL;
       Held(eff, at, userId.value, CandidateKeys(permission))
       || (at != GLOBAL && Held(eff, GLOBAL, userId.value, CandidateKeys(permission)))
  }

  predicate ScopeOk(scope: Option<Scope>) {
    scope.Some? ==> scope.value.kind != "" && scope.value.id != ""
  }

  /** The assignment was added, with the patterns of its role, and nothing else changed. */
  ghost predicate GrantedTo(roles: Roles, s: State, s': State, a: Assign) {
    && (forall x :: x in s'.assigns <==> x in s.assigns || x == a)
    && (forall e :: e in s'.eff <==> e in s.eff || (e.userId == a.userId && e.scope == a.scope && e.permission in Patterns(roles, a.role)))
    && s'.meta == s.meta
  }

  /** The assignment is gone, its user's rows in the scope are what the roles left there expand to, and nothing else changed. */
  ghost predicate RevokedFrom(roles: Roles, s: State, s': State, a: Assign) {
    && (forall x :: x in s'.assigns <==> x in s.assigns && x != a)
    && (forall e :: e in s'.eff <==> if e.userId == a.userId && e.scope == a.scope then Entitled(roles, s'.assigns, e) else e in s.eff)
    && s'.meta == s.meta
  }

  lemma WithRoleGrants(roles: Roles, s: State, a: Assign)
    ensures GrantedTo(roles, s, WithRole(roles, s, a), a)
  {
    var s' := WithRole(roles, s, a);
    forall e ensures e in s'.eff <==> e in s.eff || (e.userId == a.userId && e.scope == a.scope && e.permission in Patterns(roles, a.role)) {
      assert e == Effective(e.userId, e.scope, e.permission);
    }
  }

  lemma WithoutRoleRevokes(roles: Roles, s: State, a: Assign)
    ensures RevokedFrom(roles, s, WithoutRole(roles, s, a), a)
  {
    var s' := WithoutRole(roles, s, a);
    forall e ensures e in s'.eff <==> if e.userId == a.userId && e.scope == a.scope then Entitled(roles, s'.assigns, e) else e in s.eff {
      EntitledAt(roles, s'.assigns, e);
      assert e == Effective(e.userId, e.scope, e.permission);
    }
  }

  function WithRole(roles: Roles, s: State, a: Assign): State {
    s.(assigns := s.assigns + {a},
       eff := s.eff + set p | p in Patterns(roles, a.role) :: Effective(a.userId, a.scope, p))
  }

  /** `reconcileScope`: the rows of one user in one scope become what the given roles expand to. */
  function Reconciled(roles: Roles, eff: set<Effective>, userId: string, scope: Scope,
                      remaining: set<string>): set<Effective> {
    (set e | e in eff && (e.userId != userId || e.scope != scope))
    + set role, p | role in remaining && p in Patterns(roles, role) :: Effective(userId, scope, p)
  }

  predicate AllExpand(roles: Roles, names: set<string>) {
    forall role :: role in names ==> !TooMany(roles, role)
  }

  function WithoutRole(roles: Roles, s: State, a: Assign): State {
    var left := s.assigns - {a};
    s.(assigns := left, eff := Reconciled(roles, s.eff, a.userId, a.scope, RolesAt(left, a.userId, a.scope)))
  }

  // ---------------------------------------------------------------- the mutations as methods

  class AuthzDb {
    const roles: Roles
    const configHash: string
    var assigns: set<Assign>
    var eff: set<Effective>
    var meta: Option<string>

    constructor (roles: Roles, configHash: string, s: State)
      ensures this.roles == roles && this.configHash == configHash && Rows() == s
    {
      this.roles, this.configHash := roles, configHash;
      assigns, eff, meta := s.assigns, s.eff, s.meta;
    }

    function Rows(): State
      reads this
    {
      State(assigns, eff, meta)
    }

    method HeldAt(scope: Scope, userId: string, keys: set<string>) returns (hit: bool)
      ensures hit == Held(eff, scope, userId, keys)
    {
      var rest := keys;
      while rest != {}
        invariant rest <= keys && forall k :: k in keys && k !in rest ==> Effective(userId, scope, k) !in eff
        decreases rest
      {
        var key :| key in rest;
        rest := rest - {key};
        if Effective(userId, scope, key) in eff {
          return true;
        }
      }
      return false;
    }

    method CanDo(userId: Option<string>, permission: string, scope: Option<Scope>) returns (allowed: bool)
      ensures allowed == Can(eff, userId, permission, scope)
    {
      if userId.None? {
        return false;
      }
      var keys := CandidateKeys(permission);
      var at := if scope.Some? then scope.value else GLOBAL;
      allowed := HeldAt(at, userId.value, keys);
      if !allowed && (at.kind != "" || at.id != "") {
        allowed := HeldAt(GLOBAL, userId.value, keys);
      }
    }

    method ExpandRolePatterns(role: string) returns (patterns: set<string>, tooMany: bool)
      ensures patterns == Patterns(roles, role) && tooMany == TooMany(roles, role)
    {
      var seen := new SeenSet();
      patterns := ExpandRole(roles, role, seen);
      tooMany := |patterns| > MAX_PATTERNS_PER_ROLE;
    }

    method InsertPatterns(userId: string, scope: Scope, patterns: set<string>)
      modifies this`eff
      ensures eff == old(eff) + set p | p in patterns :: Effective(userId, scope, p)
    {
      var have := set e | e in eff && e.userId == userId && e.scope == scope :: e.permission;
      var rest := patterns;
      while rest != {}
        invariant rest <= patterns
        invariant forall e :: e in eff <==> e in old(eff) || (e.userId == userId && e.scope == scope && e.permission in patterns && e.permission !in rest)
        decreases rest
      {
        var p :| p in rest;
        rest := rest - {p};
        if p !in have {
          eff := eff + {Effective(userId, scope, p)};
        } else {
          ghost var e :| e in old(eff) && e.userId == userId && e.scope == scope && e.permission == p;
          assert e == Effective(userId, scope, p);
        }
      }
    }

    method AssignRole(caller: Option<string>, userId: string, role: string, scope: Option<Scope>) returns (r: Outcome)
      modifies this
      ensures r.Done? <==> ScopeOk(scope) && Can(old(eff), caller, MANAGE_PERMISSION, scope) && !TooMany(roles, role)
      ensures Rows() == if r.Done? then WithRole(roles, old(Rows()), Assign(userId, role, if scope.Some? then scope.value else GLOBAL)) else old(Rows())
      ensures r.Done? ==> GrantedTo(roles, old(Rows()), Rows(), Assign(userId, role, if scope.Some? then scope.value else GLOBAL))
    {
      if scope.Some? && (scope.value.kind == "" || scope.value.id == "") {
        return BadScope;
      }
      var allowed := CanDo(caller, MANAGE_PERMISSION, scope);
      if !allowed {
        return Forbidden;
      }
      var at := if scope.Some? then scope.value else GLOBAL;
      r := Grant(Assign(userId, role, at));
    }

    /** The assignment, unless it is there, and the patterns; a throw rolls both back. */
    method Grant(a: Assign) returns (r: Outcome)
      modifies this`assigns, this`eff
      ensures r == if TooMany(roles, a.role) then TooManyPatterns else Done
      ensures Rows() == if r.Done? then WithRole(roles, old(Rows()), a) else old(Rows())
      ensures r.Done? ==> GrantedTo(roles, old(Rows()), Rows(), a)
    {
      WithRoleGrants(roles, Rows(), a);
      var patterns, tooMany := ExpandRolePatterns(a.role);
      if tooMany {
        return TooManyPatterns;
      }
      if a !in assigns {
        assigns := assigns + {a};
      }
      InsertPatterns(a.userId, a.scope, patterns);
      return Done;
    }

    /** The union of what the roles expand to, or nothing if one expands too far. */
    method DesiredPatterns(remaining: set<string>) returns (desired: set<string>, tooMany: bool)
      ensures tooMany <==> !AllExpand(roles, remaining)
      ensures !tooMany ==> desired == set role, p | role in remaining && p in Patterns(roles, role) :: p
    {
      desired := {};
      var rest := remaining;
      while rest != {}
        invariant rest <= remaining
        invariant forall role :: role in remaining && role !in rest ==> !TooMany(roles, role)
        invariant forall p :: p in desired <==> exists role :: role in remaining && role !in rest && p in Patterns(roles, role)
        decreases rest
      {
        var role :| role in rest;
        rest := rest - {role};
        var patterns;
        patterns, tooMany := ExpandRolePatterns(role);
        if tooMany {
          return {}, true;
        }
        desired := desired + patterns;
      }
      tooMany := false;
    }

    /** `reconcileScope`, once the desired patterns are known. */
    method WriteScope(userId: string, scope: Scope, remaining: set<string>, desired: set<string>)
      requires desired == set role, p | role in remaining && p in Patterns(roles, role) :: p
      modifies this`eff
      ensures eff == Reconciled(roles, old(eff), userId, scope, remaining)
    {
      ghost var before := eff;
      var rest := set e | e in eff && e.userId == userId && e.scope == scope;
      while rest != {}
        invariant forall e :: e in rest ==> e in eff && e.userId == userId && e.scope == scope
        invariant forall e :: e in eff <==> e in before && (e.userId != userId || e.scope != scope || e in rest || e.permission in desired)
        decreases rest
      {
        var e :| e in rest;
        rest := rest - {e};
        if e.permission !in desired {
          eff := eff - {e};
        }
      }
      InsertPatterns(userId, scope, desired);
      ReconciledIs(roles, before, userId, scope, remaining, desired, eff);
    }

    /** The assignment goes; the patterns its user keeps in the scope are those of the roles left there. */
    method Withdraw(a: Assign) returns (r: Outcome)
      modifies this`assigns, this`eff
      ensures r == if AllExpand(roles, RolesAt(old(assigns) - {a}, a.userId, a.scope)) then Done else TooManyPatterns
      ensures Rows() == if r.Done? then WithoutRole(roles, old(Rows()), a) else old(Rows())
      ensures r.Done? ==> RevokedFrom(roles, old(Rows()), Rows(), a)
    {
      WithoutRoleRevokes(roles, Rows(), a);
      var rows := set x | x in assigns && x.userId == a.userId && x.scope == a.scope;
      var remaining := set x | x in rows && x.role != a.role :: x.role;
      assert remaining == RolesAt(assigns - {a}, a.userId, a.scope);
      var desired, tooMany := DesiredPatterns(remaining);
      if tooMany {
        return TooManyPatterns;
      }
      assigns := assigns - {a};
      WriteScope(a.userId, a.scope, remaining, desired);
      return Done;
    }

    method RevokeRole(caller: Option<string>, userId: string, role: string, scope: Option<Scope>) returns (r: Outcome)
      modifies this
      ensures var a := Assign(userId, role, if scope.Some? then scope.value else GLOBAL);
              && (r.Done? <==>
                    && ScopeOk(scope) && Can(old(eff), caller, MANAGE_PERMISSION, scope)
                    && AllExpand(roles, RolesAt(old(assigns) - {a}, userId, a.scope)))
              && (r.Done? ==> RevokedFrom(roles, old(Rows()), Rows(), a))
              && Rows() == if r.Done? then WithoutRole(roles, old(Rows()), a) else old(Rows())
    {
      if scope.Some? && (scope.value.kind == "" || scope.value.id == "") {
        return BadScope;
      }
      var allowed := CanDo(caller, MANAGE_PERMISSION, scope);
      if !allowed {
        return Forbidden;
      }
      var at := if scope.Some? then scope.value else GLOBAL;
      r := Withdraw(Assign(userId, role, at));
    }

    method BootstrapFirstAdmin(userId: string, role: string) returns (r: Outcome)
      modifies this
      ensures r.Done? <==>
                && RoleGrants(roles, role, MANAGE_PERMISSION) && !TooMany(roles, role)
                && forall e :: e in old(eff) ==> e.permission !in CandidateKeys(MANAGE_PERMISSION)
      ensures Rows() == if r.Done? then WithRole(roles, old(Rows()), Assign(userId, role, GLOBAL)) else old(Rows())
      ensures r.Done? ==> GrantedTo(roles, old(Rows()), Rows(), Assign(userId, role, GLOBAL))
    {
      var grants := CheckRole(roles, role, MANAGE_PERMISSION);
      if !grants {
        return NotAnAdminRole;
      }
      var admins := set e | e in eff && e.permission in CandidateKeys(MANAGE_PERMISSION);
      if admins != {} {
        assert exists e :: e in admins;
        return AdminExists;
      }
      assert forall e :: e in eff && e.permission in CandidateKeys(MANAGE_PERMISSION) ==> e in admins;
      r := Grant(Assign(userId, role, GLOBAL));
    }

    /** Groups the assignments by their key; a group's user and scope are those of the first row read. */
    method GroupAssignments() returns (groups: map<string, Group>)
      ensures GroupsOk(assigns, groups)
    {
      groups := map[];
      var rest := assigns;
      ghost var read: set<Assign> := {};
      while rest != {}
        invariant rest !! read && rest + read == assigns && GroupsOk(read, groups)
        decreases rest
      {
        var a :| a in rest;
        rest := rest - {a};
        var key := KeyOf(a.userId, a.scope);
        AddToGroups(read, groups, a);
        if key in groups {
          groups := groups[key := groups[key].(names := groups[key].names + {a.role})];
        } else {
          groups := groups[key := Group(a.userId, a.scope, {a.role})];
        }
        read := read + {a};
      }
      assert read == assigns;
    }

    /** Drops the rows whose key has no group. */
    method DropOrphans(groups: map<string, Group>)
      modifies this`eff
      ensures eff == Kept(groups, old(eff))
    {
      var rest := eff;
      while rest != {}
        invariant forall e :: e in eff <==> e in old(eff) && (KeyOf(e.userId, e.scope) in groups || e in rest)
        decreases rest
      {
        var e :| e in rest;
        rest := rest - {e};
        if KeyOf(e.userId, e.scope) !in groups {
          eff := eff - {e};
        }
      }
    }

    method ReconcileGroups(groups: map<string, Group>) returns (r: Outcome)
      requires GroupsOk(assigns, groups)
      modifies this`eff
      ensures r == if forall key :: key in groups ==> AllExpand(roles, groups[key].names) then Done else TooManyPatterns
      ensures r.Done? ==> Corrected(roles, groups, groups.Keys, old(eff), eff)
    {
      var rest := groups.Keys;
      ghost var ready: set<string> := {};
      while rest != {}
        invariant rest !! ready && rest + ready == groups.Keys
        invariant forall key :: key in ready ==> AllExpand(roles, groups[key].names)
        invariant Corrected(roles, groups, ready, old(eff), eff)
        decreases rest
      {
        var key :| key in rest;
        rest := rest - {key};
        var g := groups[key];
        var desired, tooMany := DesiredPatterns(g.names);
        if tooMany {
          return TooManyPatterns;
        }
        ghost var mid := eff;
        WriteScope(g.userId, g.scope, g.names, desired);
        OneGroupMore(roles, assigns, groups, ready, key, old(eff), mid, eff);
        ready := ready + {key};
      }
      assert ready == groups.Keys;
      return Done;
    }

    /** `reconcileEffectivePermissions`, at boot and behind `rebuild`. A throw rolls everything back. */
    method ReconcileEffectivePermissions() returns (r: Outcome)
      modifies this
      ensures old(meta) == Some(configHash) ==> r.Done? && Rows() == old(Rows())
      ensures old(meta) != Some(configHash) ==>
                && r == (if AllExpand(roles, RolesIn(old(assigns))) then Done else TooManyPatterns)
                && (r.Done? ==> assigns == old(assigns) && meta == Some(configHash) && RebuildsTo(roles, assigns, old(eff), eff))
                && (r.Done? && KeysApart(old(assigns), old(eff)) ==> Refines(roles, Rows()))
                && (!r.Done? ==> Rows() == old(Rows()))
    {
      if meta == Some(configHash) {
        return Done;
      }
      var saved := eff;
      var groups := GroupAssignments();
      DropOrphans(groups);
      r := ReconcileGroups(groups);
      GroupsCover(roles, assigns, groups);
      if !r.Done? {
        eff := saved;
        return;
      }
      CorrectedIsRebuilt(roles, assigns, groups, saved, eff);
      meta := Some(configHash);
      if KeysApart(assigns, saved) {
        RebuildRefines(roles, Rows(), saved);
      }
    }

    method Rebuild(caller: Option<string>) returns (r: Outcome)
      modifies this
      ensures !Can(old(eff), caller, MANAGE_PERMISSION, None) ==> r.Forbidden? && Rows() == old(Rows())
      ensures Can(old(eff), caller, MANAGE_PERMISSION, None) && old(meta) == Some(configHash) ==> r.Done? && Rows() == old(Rows())
      ensures Can(old(eff), caller, MANAGE_PERMISSION, None) && old(meta) != Some(configHash) ==>
                && r == (if AllExpand(roles, RolesIn(old(assigns))) then Done else TooManyPatterns)
                && (r.Done? ==> assigns == old(assigns) && meta == Some(configHash) && RebuildsTo(roles, assigns, old(eff), eff))
                && (r.Done? && KeysApart(old(assigns), old(eff)) ==> Refines(roles, Rows()))
                && (!r.Done? ==> Rows() == old(Rows()))
    {
      var allowed := CanDo(caller, MANAGE_PERMISSION, None);
      if !allowed {
        return Forbidden;
      }
      r := ReconcileEffectivePermissions();
    }
  }

  // ---------------------------------------------------------------- the rebuild

  /** The assignments under one key. */
  datatype Group = Group(userId: string, scope: Scope, names: set<string>)

  /** The key a rebuild groups by: the parts joined with NUL. */
  function KeyOf(userId: string, scope: Scope): string {
    userId + ['\0'] + (scope.kind + ['\0'] + scope.id)
  }

  function RolesIn(assigns: set<Assign>): set<string> {
    set a | a in assigns :: a.role
  }

  /** The roles assigned under a key, to whichever user in whichever scope. */
  function RolesUnder(assigns: set<Assign>, key: string): set<string> {
    set a | a in assigns && KeyOf(a.userId, a.scope) == key :: a.role
  }

  /** Row `a` was the first to be read under the key of group `g`. */
  predicate LedBy(g: Group, a: Assign) {
    a.userId == g.userId && a.scope == g.scope
  }

  /** The group has the roles of all the rows under its key, and the user and scope of one of them. */
  ghost predicate GroupOk(read: set<Assign>, key: string, g: Group) {
    && key == KeyOf(g.userId, g.scope) && g.names == RolesUnder(read, key)
    && exists a :: a in read && LedBy(g, a)
  }

  ghost predicate GroupsOk(read: set<Assign>, groups: map<string, Group>) {
    && (forall key :: key in groups ==> GroupOk(read, key, groups[key]))
    && (forall a :: a in read ==> KeyOf(a.userId, a.scope) in groups)
  }

  function WithRow(groups: map<string, Group>, a: Assign): map<string, Group> {
    var key := KeyOf(a.userId, a.scope);
    groups[key := if key in groups then groups[key].(names := groups[key].names + {a.role}) else Group(a.userId, a.scope, {a.role})]
  }

  lemma AddToGroups(read: set<Assign>, groups: map<string, Group>, a: Assign)
    requires GroupsOk(read, groups)
    ensures GroupsOk(read + {a}, WithRow(groups, a))
  {
    forall k | k in WithRow(groups, a) ensures GroupOk(read + {a}, k, WithRow(groups, a)[k]) {
      AddToGroup(read, groups, a, k);
    }
  }

  lemma AddToGroup(read: set<Assign>, groups: map<string, Group>, a: Assign, k: string)
    requires GroupsOk(read, groups) && k in WithRow(groups, a)
    ensures GroupOk(read + {a}, k, WithRow(groups, a)[k])
  {
    UnderMore(read, a);
    if k in groups {
      var b :| b in read && LedBy(groups[k], b);
      assert b in read + {a} && LedBy(WithRow(groups, a)[k], b);
    } else {
      assert RolesUnder(read, k) == {};
      assert a in read + {a} && LedBy(WithRow(groups, a)[k], a);
    }
  }

  lemma UnderMore(read: set<Assign>, a: Assign)
    ensures RolesUnder(read + {a}, KeyOf(a.userId, a.scope)) == RolesUnder(read, KeyOf(a.userId, a.scope)) + {a.role}
    ensures forall key :: key != KeyOf(a.userId, a.scope) ==> RolesUnder(read + {a}, key) == RolesUnder(read, key)
  {
  }

  /** The row's user and scope are those of the group under its key. */
  predicate Leads(groups: map<string, Group>, e: Effective) {
    var key := KeyOf(e.userId, e.scope);
    key in groups && groups[key].userId == e.userId && groups[key].scope == e.scope
  }

  predicate GroupGrants(roles: Roles, g: Group, permission: string) {
    exists role :: role in g.names && permission in Patterns(roles, role)
  }

  /** What dropping the orphans keeps. */
  function Kept(groups: map<string, Group>, eff: set<Effective>): set<Effective> {
    set e | e in eff && KeyOf(e.userId, e.scope) in groups
  }

  /** `after` is `before` with the rows of the groups under `keys` replaced by what the groups' roles expand to. */
  ghost predicate Corrected(roles: Roles, groups: map<string, Group>, keys: set<string>,
                            before: set<Effective>, after: set<Effective>) {
    forall e :: e in after <==>
      if KeyOf(e.userId, e.scope) in keys && Leads(groups, e) then GroupGrants(roles, groups[KeyOf(e.userId, e.scope)], e.permission)
      else e in before
  }

  /**
   The index a rebuild leaves: for the user and scope of each group what all the roles under its key expand
   to, and for another user and scope with that key the rows that were there.
   */
  function RebuiltRows(roles: Roles, groups: map<string, Group>, eff: set<Effective>): set<Effective> {
    (set e | e in Kept(groups, eff) && !Leads(groups, e))
    + set key, role, p | key in groups && role in groups[key].names && p in Patterns(roles, role) ::
        Effective(groups[key].userId, groups[key].scope, p)
  }

  /** Whatever order the assignments are read in. */
  ghost predicate RebuildsTo(roles: Roles, assigns: set<Assign>, eff: set<Effective>, after: set<Effective>) {
    exists groups :: GroupsOk(assigns, groups) && after == RebuiltRows(roles, groups, eff)
  }

  lemma OneGroupMore(roles: Roles, assigns: set<Assign>, groups: map<string, Group>, keys: set<string>, key: string,
                     before: set<Effective>, mid: set<Effective>, after: set<Effective>)
    requires GroupsOk(assigns, groups) && key in groups && Corrected(roles, groups, keys, before, mid)
    requires after == Reconciled(roles, mid, groups[key].userId, groups[key].scope, groups[key].names)
    ensures Corrected(roles, groups, keys + {key}, before, after)
  {
  }

  lemma InRebuilt(roles: Roles, assigns: set<Assign>, groups: map<string, Group>, eff: set<Effective>, e: Effective)
    requires GroupsOk(assigns, groups)
    ensures e in RebuiltRows(roles, groups, eff) <==>
            if Leads(groups, e) then GroupGrants(roles, groups[KeyOf(e.userId, e.scope)], e.permission) else e in Kept(groups, eff)
  {
    if Leads(groups, e) && GroupGrants(roles, groups[KeyOf(e.userId, e.scope)], e.permission) {
      var g := groups[KeyOf(e.userId, e.scope)];
      var role :| role in g.names && e.permission in Patterns(roles, role);
      assert e == Effective(g.userId, g.scope, e.permission);
    }
  }

  lemma CorrectedIsRebuilt(roles: Roles, assigns: set<Assign>, groups: map<string, Group>, eff: set<Effective>, after: set<Effective>)
    requires GroupsOk(assigns, groups) && Corrected(roles, groups, groups.Keys, Kept(groups, eff), after)
    ensures RebuildsTo(roles, assigns, eff, after)
  {
    forall e ensures e in after <==> e in RebuiltRows(roles, groups, eff) {
      InRebuilt(roles, assigns, groups, eff, e);
    }
    assert after == RebuiltRows(roles, groups, eff);
  }

  lemma GroupsCover(roles: Roles, assigns: set<Assign>, groups: map<string, Group>)
    requires GroupsOk(assigns, groups)
    ensures (forall key :: key in groups ==> AllExpand(roles, groups[key].names)) <==> AllExpand(roles, RolesIn(assigns))
  {
    if forall key :: key in groups ==> AllExpand(roles, groups[key].names) {
      forall role | role in RolesIn(assigns) ensures !TooMany(roles, role) {
        var a :| a in assigns && a.role == role;
        assert role in groups[KeyOf(a.userId, a.scope)].names;
      }
    }
    if AllExpand(roles, RolesIn(assigns)) {
      forall key, role | key in groups && role in groups[key].names ensures !TooMany(roles, role) {
        assert role in RolesIn(assigns);
      }
    }
  }

  /** No two different users and scopes that have assignments share a key. */
  ghost predicate AssignsApart(assigns: set<Assign>) {
    forall a, b :: a in assigns && b in assigns && KeyOf(a.userId, a.scope) == KeyOf(b.userId, b.scope) ==>
      a.userId == b.userId && a.scope == b.scope
  }

  /** Nor does a row of the index share its key with the assignments of another user or scope. */
  ghost predicate KeysApart(assigns: set<Assign>, eff: set<Effective>) {
    && AssignsApart(assigns)
    && forall a, e :: a in assigns && e in eff && KeyOf(a.userId, a.scope) == KeyOf(e.userId, e.scope) ==>
         a.userId == e.userId && a.scope == e.scope
  }

  lemma RebuildRefines(roles: Roles, s: State, before: set<Effective>)
    requires RebuildsTo(roles, s.assigns, before, s.eff) && KeysApart(s.assigns, before)
    ensures Refines(roles, s)
  {
    var groups :| GroupsOk(s.assigns, groups) && s.eff == RebuiltRows(roles, groups, before);
    forall e ensures e in s.eff <==> Entitled(roles, s.assigns, e) {
      InRebuilt(roles, s.assigns, groups, before, e);
      if KeyOf(e.userId, e.scope) in groups {
        ApartEntitled(roles, s.assigns, groups, e);
        KeptLeads(s.assigns, groups, before, e);
      }
    }
  }

  lemma KeptLeads(assigns: set<Assign>, groups: map<string, Group>, eff: set<Effective>, e: Effective)
    requires GroupsOk(assigns, groups) && KeysApart(assigns, eff)
    ensures e in Kept(groups, eff) ==> Leads(groups, e)
  {
    if e in Kept(groups, eff) {
      var lead :| lead in assigns && LedBy(groups[KeyOf(e.userId, e.scope)], lead);
    }
  }

  /** Where keys are apart, a row that leads is entitled exactly if its group grants it, and one that does not is not entitled. */
  lemma ApartEntitled(roles: Roles, assigns: set<Assign>, groups: map<string, Group>, e: Effective)
    requires GroupsOk(assigns, groups) && AssignsApart(assigns) && KeyOf(e.userId, e.scope) in groups
    ensures Entitled(roles, assigns, e) <==> Leads(groups, e) && GroupGrants(roles, groups[KeyOf(e.userId, e.scope)], e.permission)
  {
    var key := KeyOf(e.userId, e.scope);
    var lead :| lead in assigns && LedBy(groups[key], lead);
    if Entitled(roles, assigns, e) {
      var a :| a in assigns && a.userId == e.userId && a.scope == e.scope && e.permission in Patterns(roles, a.role);
      assert a.role in groups[key].names;
    }
    if Leads(groups, e) && GroupGrants(roles, groups[key], e.permission) {
      var role :| role in groups[key].names && e.permission in Patterns(roles, role);
      var a :| a in assigns && KeyOf(a.userId, a.scope) == key && a.role == role;
    }
  }

  lemma EntitledAt(roles: Roles, assigns: set<Assign>, e: Effective)
    ensures Entitled(roles, assigns, e) <==> exists role :: role in RolesAt(assigns, e.userId, e.scope) && e.permission in Patterns(roles, role)
  {
  }

  lemma ReconciledIs(roles: Roles, before: set<Effective>, userId: string, scope: Scope, remaining: set<string>,
                     desired: set<string>, after: set<Effective>)
    requires desired == set role, p | role in remaining && p in Patterns(roles, role) :: p
    requires forall e :: e in after <==>
               || (e in before && (e.userId != userId || e.scope != scope || e.permission in desired))
               || (e.userId == userId && e.scope == scope && e.permission in desired)
    ensures after == Reconciled(roles, before, userId, scope, remaining)
  {
  }
}
