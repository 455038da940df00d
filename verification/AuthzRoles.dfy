/**
 Roles, their inheritance, and the permission patterns they expand to. The inheritance graph may have
 diamonds and cycles; one visited set is shared by the whole walk.
 */
module AuthzRoles {

  /** `inherits` in list form, and the actions granted on each resource. */
  datatype RoleDef = RoleDef(inherits: seq<string>, grants: map<string, set<string>>)

  type Roles = map<string, RoleDef>

  function Pattern(resource: string, action: string): string {
    resource + ":" + action
  }

  /** The patterns a role grants itself. */
  function Direct(def: RoleDef): set<string> {
    set resource, action | resource in def.grants && action in def.grants[resource] :: Pattern(resource, action)
  }

  datatype Walk = Walk(out: set<string>, seen: set<string>)

  // ---------------------------------------------------------------- the walk

  /** `expandRole`: what it returns, and the visited set it leaves. */
  function Expand(roles: Roles, role: string, seen: set<string>): (w: Walk)
    ensures seen <= w.seen
    decreases roles.Keys - seen, 0
  {
    if role !in roles || role in seen then Walk({}, seen)
    else
      assert roles.Keys - (seen + {role}) < roles.Keys - seen by {
        assert role in roles.Keys - seen && role !in roles.Keys - (seen + {role});
      }
      var w := ExpandParents(roles, roles[role].inherits, seen + {role});
      Walk(w.out + Direct(roles[role]), w.seen)
  }

  function ExpandParents(roles: Roles, parents: seq<string>, seen: set<string>): (w: Walk)
    ensures seen <= w.seen
    decreases roles.Keys - seen, 1 + |parents|
  {
    if parents == [] then Walk({}, seen)
    else
      var before := ExpandParents(roles, parents[..|parents| - 1], seen);
      assert roles.Keys - before.seen <= roles.Keys - seen;
      var w := Expand(roles, parents[|parents| - 1], before.seen);
      Walk(before.out + w.out, w.seen)
  }

  class SeenSet {
    var names: set<string>

    constructor ()
      ensures names == {}
    {
      names := {};
    }

    method Add(name: string)
      modifies this
      ensures names == old(names) + {name}
    {
      names := names + {name};
    }
  }

  method ExpandRole(roles: Roles, role: string, seen: SeenSet) returns (out: set<string>)
    modifies seen
    ensures Walk(out, seen.names) == Expand(roles, role, old(seen.names))
    decreases roles.Keys - seen.names
  {
    if role !in roles || role in seen.names {
      return {};
    }
    ghost var before := seen.names;
    seen.Add(role);
    assert roles.Keys - seen.names < roles.Keys - before by {
      assert role in roles.Keys - before && role !in roles.Keys - seen.names;
    }
    var inherits := roles[role].inherits;
    out := {};
    for i := 0 to |inherits|
      invariant before + {role} <= seen.names
      invariant Walk(out, seen.names) == ExpandParents(roles, inherits[..i], before + {role})
    {
      assert inherits[..i + 1][..i] == inherits[..i];
      assert roles.Keys - seen.names < roles.Keys - before by {
        assert role in roles.Keys - before && role !in roles.Keys - seen.names;
      }
      var more := ExpandRole(roles, inherits[i], seen);
      out := out + more;
    }
    assert inherits[..|inherits|] == inherits;
    out := out + Direct(roles[role]);
  }

  // ---------------------------------------------------------------- what the walk returns

  /** `path` leads from `role` along `inherits` to its last name; all the names are roles. */
  predicate IsPath(roles: Roles, role: string, path: seq<string>) {
    && path != [] && path[0] == role
    && (forall i :: 0 <= i < |path| ==> path[i] in roles)
    && (forall i :: 0 <= i < |path| - 1 ==> path[i + 1] in roles[path[i]].inherits)
  }

  ghost predicate Reaches(roles: Roles, role: string, r: string) {
    exists path :: IsPath(roles, role, path) && path[|path| - 1] == r
  }

  /** The union over all roles that `role` inherits from, directly or not, itself included. */
  ghost predicate Granted(roles: Roles, role: string, p: string) {
    exists r :: Reaches(roles, role, r) && r in roles && p in Direct(roles[r])
  }

  lemma ReachesSelf(roles: Roles, role: string)
    requires role in roles
    ensures Reaches(roles, role, role)
  {
    assert IsPath(roles, role, [role]);
  }

  lemma ReachesFurther(roles: Roles, role: string, parent: string, r: string)
    requires role in roles && parent in roles[role].inherits && Reaches(roles, parent, r)
    ensures Reaches(roles, role, r)
  {
    var path :| IsPath(roles, parent, path) && path[|path| - 1] == r;
    var longer := [role] + path;
    assert IsPath(roles, role, longer) by {
      forall i | 0 <= i < |longer| - 1 ensures longer[i + 1] in roles[longer[i]].inherits {
        if i > 0 {
          assert path[i - 1 + 1] in roles[path[i - 1]].inherits;
        }
      }
    }
  }

  /** What an inner call promises, whatever has been visited: the roles it visits, and exactly their patterns. */
  ghost predicate Fresh(roles: Roles, seen: set<string>, w: Walk) {
    && seen <= w.seen
    && (forall r :: r in w.seen && r !in seen ==> r in roles && forall p :: p in roles[r].inherits && p in roles ==> p in w.seen)
    && (forall p :: p in w.out <==> exists r :: r in w.seen && r !in seen && r in roles && p in Direct(roles[r]))
  }

  lemma FreshJoin(roles: Roles, seen: set<string>, a: Walk, b: Walk)
    requires Fresh(roles, seen, a) && Fresh(roles, a.seen, b)
    ensures Fresh(roles, seen, Walk(a.out + b.out, b.seen))
  {
  }

  /** The role itself joins what its parents gave. */
  lemma FreshRole(roles: Roles, role: string, seen: set<string>, w: Walk)
    requires role in roles && role !in seen && Fresh(roles, seen + {role}, w)
    requires forall p :: p in roles[role].inherits && p in roles ==> p in w.seen
    ensures Fresh(roles, seen, Walk(w.out + Direct(roles[role]), w.seen))
  {
  }

  lemma {:induction false} ExpandFresh(roles: Roles, role: string, seen: set<string>)
    ensures Fresh(roles, seen, Expand(roles, role, seen))
    ensures role in roles ==> role in Expand(roles, role, seen).seen
    decreases roles.Keys - seen, 0
  {
    if role in roles && role !in seen {
      assert roles.Keys - (seen + {role}) < roles.Keys - seen by {
        assert role in roles.Keys - seen && role !in roles.Keys - (seen + {role});
      }
      ParentsFresh(roles, roles[role].inherits, seen + {role});
      FreshRole(roles, role, seen, ExpandParents(roles, roles[role].inherits, seen + {role}));
    }
  }

  lemma {:induction false} ParentsFresh(roles: Roles, parents: seq<string>, seen: set<string>)
    ensures Fresh(roles, seen, ExpandParents(roles, parents, seen))
    ensures forall p :: p in parents && p in roles ==> p in ExpandParents(roles, parents, seen).seen
    decreases roles.Keys - seen, 1 + |parents|
  {
    if parents != [] {
      var n := |parents| - 1;
      var before := ExpandParents(roles, parents[..n], seen);
      assert roles.Keys - before.seen <= roles.Keys - seen;
      ParentsFresh(roles, parents[..n], seen);
      ExpandFresh(roles, parents[n], before.seen);
      FreshJoin(roles, seen, before, Expand(roles, parents[n], before.seen));
      forall p | p in parents && p in roles ensures p in ExpandParents(roles, parents, seen).seen {
        assert p in parents[..n] || p == parents[n];
      }
    }
  }

  /** Every role a call visits can be reached from its role. */
  lemma {:induction false} VisitedReachable(roles: Roles, role: string, seen: set<string>, r: string)
    requires r in Expand(roles, role, seen).seen && r !in seen
    ensures Reaches(roles, role, r)
    decreases roles.Keys - seen, 0
  {
    ReachesSelf(roles, role);
    if r != role {
      assert roles.Keys - (seen + {role}) < roles.Keys - seen by {
        assert role in roles.Keys - seen && role !in roles.Keys - (seen + {role});
      }
      var parent := ParentsReachable(roles, roles[role].inherits, seen + {role}, r);
      ReachesFurther(roles, role, parent, r);
    }
  }

  lemma {:induction false} ParentsReachable(roles: Roles, parents: seq<string>, seen: set<string>,
                                            r: string) returns (parent: string)
    requires r in ExpandParents(roles, parents, seen).seen && r !in seen
    ensures parent in parents && Reaches(roles, parent, r)
    decreases roles.Keys - seen, 1 + |parents|
  {
    var n := |parents| - 1;
    var before := ExpandParents(roles, parents[..n], seen);
    assert roles.Keys - before.seen <= roles.Keys - seen;
    if r in before.seen {
      parent := ParentsReachable(roles, parents[..n], seen, r);
    } else {
      parent := parents[n];
      VisitedReachable(roles, parent, before.seen, r);
    }
  }

  /** A walk that starts with nothing visited visits everything along a path. */
  lemma {:induction false} PathVisited(roles: Roles, role: string, w: Walk, path: seq<string>)
    requires Fresh(roles, {}, w) && role in w.seen && IsPath(roles, role, path)
    ensures path[|path| - 1] in w.seen
    decreases |path|
  {
    var n := |path| - 1;
    if n > 0 {
      var front := path[..n];
      assert forall i :: 0 <= i < n ==> front[i] == path[i];
      assert IsPath(roles, role, front) by {
        forall i | 0 <= i < |front| - 1 ensures front[i + 1] in roles[front[i]].inherits {
          assert path[i + 1] in roles[path[i]].inherits;
        }
      }
      PathVisited(roles, role, w, front);
      assert path[n - 1 + 1] in roles[path[n - 1]].inherits;
    }
  }

  /**
   Called with an empty visited set, `expandRole` returns exactly the union of the direct patterns of
   all roles that can be reached through `inherits`, on any graph, though the inner calls return only
   what had not been visited before.
   */
  lemma ExpandIsUnion(roles: Roles, role: string, p: string)
    ensures p in Expand(roles, role, {}).out <==> Granted(roles, role, p)
  {
    var w := Expand(roles, role, {});
    ExpandFresh(roles, role, {});
    if p in w.out {
      var r :| r in w.seen && r !in {} && r in roles && p in Direct(roles[r]);
      VisitedReachable(roles, role, {}, r);
    }
    if Granted(roles, role, p) {
      var r :| Reaches(roles, role, r) && r in roles && p in Direct(roles[r]);
      var path :| IsPath(roles, role, path) && path[|path| - 1] == r;
      PathVisited(roles, role, w, path);
    }
  }
}
