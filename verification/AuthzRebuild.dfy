/**
 When a rebuild of the permission index is right. It groups assignments by a key in which user, scope type
 and scope id are joined with NUL, and nothing keeps NUL out of them.
 */
module AuthzRebuild {
  import opened Prelude
  import opened AuthzRoles
  import opened AuthzIndex

  /** Every rebuild of the index from these assignments and rows is right, for every role table that expands. */
  ghost predicate RebuildsRight(assigns: set<Assign>, eff: set<Effective>) {
    forall roles, after :: AllExpand(roles, RolesIn(assigns)) && RebuildsTo(roles, assigns, eff, after) ==>
      Refines(roles, State(assigns, after, None))
  }

  // ---------------------------------------------------------------- groups with a chosen first row

  ghost function SomeUnder(assigns: set<Assign>, key: string): (a: Assign)
    requires exists a :: a in assigns && KeyOf(a.userId, a.scope) == key
    ensures a in assigns && KeyOf(a.userId, a.scope) == key
  {
    var a :| a in assigns && KeyOf(a.userId, a.scope) == key;
    a
  }

  ghost function LeaderUnder(assigns: set<Assign>, first: Assign, key: string): (a: Assign)
    requires first in assigns && exists a :: a in assigns && KeyOf(a.userId, a.scope) == key
    ensures a in assigns && KeyOf(a.userId, a.scope) == key
  {
    if KeyOf(first.userId, first.scope) == key then first else SomeUnder(assigns, key)
  }

  function KeysIn(assigns: set<Assign>): set<string> {
    set a | a in assigns :: KeyOf(a.userId, a.scope)
  }

  /** The groups if row `first` is read before the others. */
  ghost function GroupsFrom(assigns: set<Assign>, first: Assign): map<string, Group>
    requires first in assigns
  {
    map key | key in KeysIn(assigns) ::
      var a := LeaderUnder(assigns, first, key); Group(a.userId, a.scope, RolesUnder(assigns, key))
  }

  lemma GroupsFromOk(assigns: set<Assign>, first: Assign)
    requires first in assigns
    ensures GroupsOk(assigns, GroupsFrom(assigns, first))
    ensures KeyOf(first.userId, first.scope) in GroupsFrom(assigns, first)
    ensures LedBy(GroupsFrom(assigns, first)[KeyOf(first.userId, first.scope)], first)
  {
    var groups := GroupsFrom(assigns, first);
    forall key | key in groups ensures GroupOk(assigns, key, groups[key]) {
      assert LedBy(groups[key], LeaderUnder(assigns, first, key));
    }
  }

  // ---------------------------------------------------------------- a pattern the index does not have

  function Only(role: string, action: string): Roles {
    map[role := RoleDef([], map["r" := {action}])]
  }

  lemma OnlyExpands(role: string, action: string)
    ensures Patterns(Only(role, action), role) == {Pattern("r", action)}
    ensures forall other :: other != role ==> Patterns(Only(role, action), other) == {}
    ensures forall names :: AllExpand(Only(role, action), names)
  {
    var roles := Only(role, action);
    var direct := Direct(roles[role]);
    assert "r" in roles[role].grants && action in roles[role].grants["r"] && direct == {Pattern("r", action)};
    assert ExpandParents(roles, [], {role}) == Walk({}, {role}) && {} + {role} == {role};
    assert Expand(roles, role, {}).out == {} + direct;
    assert Patterns(roles, role) == {Pattern("r", action)};
    forall other ensures !TooMany(roles, other) {
      assert |Patterns(roles, other)| <= 1;
    }
  }

  /** A pattern longer than all in the index. */
  lemma {:induction false} FreshAction(eff: set<Effective>) returns (action: string)
    ensures forall e :: e in eff ==> |e.permission| <= |action|
    decreases eff
  {
    action := "";
    if e :| e in eff {
      var rest := FreshAction(eff - {e});
      action := rest + seq(|e.permission|, _ => 'x');
    }
  }

  // ---------------------------------------------------------------- the two ways it goes wrong

  /** Two users and scopes with assignments share a key: the one that does not come first gets none of its new rows. */
  lemma SharedKeyMisses(assigns: set<Assign>, eff: set<Effective>, first: Assign, other: Assign)
    requires first in assigns && other in assigns && (first.userId != other.userId || first.scope != other.scope)
    requires KeyOf(first.userId, first.scope) == KeyOf(other.userId, other.scope)
    ensures !RebuildsRight(assigns, eff)
  {
    var action := FreshAction(eff);
    var roles, groups := Only(other.role, action), GroupsFrom(assigns, first);
    OnlyExpands(other.role, action);
    GroupsFromOk(assigns, first);
    var e := Effective(other.userId, other.scope, Pattern("r", action));
    var after := RebuiltRows(roles, groups, eff);
    InRebuilt(roles, assigns, groups, eff, e);
    assert e !in eff && !Leads(groups, e) && e !in after;
    assert Entitled(roles, assigns, e);
    assert RebuildsTo(roles, assigns, eff, after) && !Refines(roles, State(assigns, after, None));
  }

  /** A row of a user and scope without assignments that shares a key with one that has some is not dropped. */
  lemma OrphanStays(assigns: set<Assign>, eff: set<Effective>, a: Assign, e: Effective)
    requires a in assigns && e in eff && KeyOf(a.userId, a.scope) == KeyOf(e.userId, e.scope)
    requires forall x :: x in assigns ==> x.userId != e.userId || x.scope != e.scope
    ensures !RebuildsRight(assigns, eff)
  {
    var roles: Roles, groups := map[], GroupsFrom(assigns, a);
    GroupsFromOk(assigns, a);
    var after := RebuiltRows(roles, groups, eff);
    InRebuilt(roles, assigns, groups, eff, e);
    assert e in Kept(groups, eff) && !Leads(groups, e) && e in after;
    assert !Entitled(roles, assigns, e);
    assert forall role :: Patterns(roles, role) == {};
    assert RebuildsTo(roles, assigns, eff, after) && !Refines(roles, State(assigns, after, None));
  }

  /**
   A rebuild of the index is right, for every role table and in whatever order the assignments are read, if
   and only if no user and scope with assignments shares its key with another that occurs in the
   assignments or in the index.
   */
  lemma RebuildRefinesIff(assigns: set<Assign>, eff: set<Effective>)
    ensures RebuildsRight(assigns, eff) <==> KeysApart(assigns, eff)
  {
    if KeysApart(assigns, eff) {
      forall roles, after | RebuildsTo(roles, assigns, eff, after) ensures Refines(roles, State(assigns, after, None)) {
        RebuildRefines(roles, State(assigns, after, None), eff);
      }
    } else if !AssignsApart(assigns) {
      var a, b :| a in assigns && b in assigns && KeyOf(a.userId, a.scope) == KeyOf(b.userId, b.scope)
                  && (a.userId != b.userId || a.scope != b.scope);
      SharedKeyMisses(assigns, eff, a, b);
    } else {
      var a, e :| a in assigns && e in eff && KeyOf(a.userId, a.scope) == KeyOf(e.userId, e.scope)
                  && (a.userId != e.userId || a.scope != e.scope);
      OrphanStays(assigns, eff, a, e);
    }
  }

  // ---------------------------------------------------------------- NUL

  predicate Plain(userId: string, scope: Scope) {
    '\0' !in userId && '\0' !in scope.kind
  }

  lemma JoinInjective(a: string, b: string, c: string, d: string)
    requires '\0' !in a && '\0' !in c && a + ['\0'] + b == c + ['\0'] + d
    ensures a == c && b == d
  {
    var s := a + ['\0'] + b;
    assert s[|a|] == '\0' && s[|c|] == '\0' && s[..|a|] == a && s[..|c|] == c;
    assert forall i :: 0 <= i < |a| ==> s[i] == a[i] && s[i] in a;
    assert forall i :: 0 <= i < |c| ==> s[i] == c[i] && s[i] in c;
    assert |a| == |c|;
    assert s[|a| + 1..] == b && s[|c| + 1..] == d;
  }

  /** Without NUL in users and scope types the key tells users and scopes apart. */
  lemma KeysDistinct(u: string, s: Scope, v: string, t: Scope)
    requires Plain(u, s) && Plain(v, t) && KeyOf(u, s) == KeyOf(v, t)
    ensures u == v && s == t
  {
    JoinInjective(u, s.kind + ['\0'] + s.id, v, t.kind + ['\0'] + t.id);
    JoinInjective(s.kind, s.id, t.kind, t.id);
  }

  /** With one it does not: the parts can be cut in another place. */
  lemma KeysCollide(a: string, b: string, c: string, d: string)
    ensures KeyOf(a + ['\0'] + b, Scope(c, d)) == KeyOf(a, Scope(b, c + ['\0'] + d))
  {
    assert a + ['\0'] + b + (['\0'] + (c + (['\0'] + d))) == a + (['\0'] + (b + (['\0'] + (c + (['\0'] + d)))));
  }

  /**
   A rebuild that goes wrong, for every role table: of two users whose keys collide the first gets the
   patterns of both roles, and the second gets none.
   */
  lemma CollidingRebuild(roles: Roles, a: string, b: string, c: string, d: string, r0: string, r1: string)
    returns (after: set<Effective>)
    ensures var x, y := Assign(a + ['\0'] + b, r0, Scope(c, d)), Assign(a, r1, Scope(b, c + ['\0'] + d));
            && RebuildsTo(roles, {x, y}, {}, after)
            && (forall p :: Effective(x.userId, x.scope, p) in after <==> p in Patterns(roles, r0) || p in Patterns(roles, r1))
            && (forall p :: Effective(y.userId, y.scope, p) !in after)
  {
    var x, y := Assign(a + ['\0'] + b, r0, Scope(c, d)), Assign(a, r1, Scope(b, c + ['\0'] + d));
    KeysCollide(a, b, c, d);
    assert |x.userId| > |y.userId|;
    var key, groups := KeyOf(x.userId, x.scope), GroupsFrom({x, y}, x);
    GroupsFromOk({x, y}, x);
    assert x.role in RolesUnder({x, y}, key) && y.role in RolesUnder({x, y}, key);
    assert groups[key].names == {r0, r1};
    after := RebuiltRows(roles, groups, {});
    forall p ensures Effective(x.userId, x.scope, p) in after <==> p in Patterns(roles, r0) || p in Patterns(roles, r1) {
      InRebuilt(roles, {x, y}, groups, {}, Effective(x.userId, x.scope, p));
    }
    forall p ensures Effective(y.userId, y.scope, p) !in after {
      InRebuilt(roles, {x, y}, groups, {}, Effective(y.userId, y.scope, p));
    }
  }
}
