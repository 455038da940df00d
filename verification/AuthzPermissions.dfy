/**
 Two ways to test a permission against the patterns of a role: splitting both at colons, and looking
 up the four stored patterns that could grant it.
 */
module AuthzPermissions {
  import opened Prelude
  import opened AuthzRoles

  /** The position of the first colon, or the length. */
  function Colon(s: string): (i: nat)
    ensures i <= |s| && ':' !in s[..i] && (i < |s| ==> s[i] == ':')
  {
    if s == [] then 0 else if s[0] == ':' then 0
    else
      var i := 1 + Colon(s[1..]);
      assert s[..i] == [s[0]] + s[1..][..i - 1];
      i
  }

  function Head(s: string): string {
    s[..Colon(s)]
  }

  /** What follows the first colon, if there is one. */
  function Tail(s: string): Option<string> {
    if Colon(s) == |s| then None else Some(s[Colon(s) + 1..])
  }

  /** The second piece of a split at colons. */
  function Second(s: string): Option<string> {
    if Tail(s).None? then None else Some(Head(Tail(s).value))
  }

  /** The test in `roleGrants`. */
  predicate Matches(pattern: string, permission: string) {
    && (Head(pattern) == Head(permission) || Head(pattern) == "*")
    && (Second(pattern) == Second(permission) || Second(pattern) == Some("*"))
  }

  predicate RoleGrants(roles: Roles, role: string, permission: string) {
    exists p :: p in Expand(roles, role, {}).out && Matches(p, permission)
  }

  /** `roleGrants`. */
  method CheckRole(roles: Roles, role: string, permission: string) returns (granted: bool)
    ensures granted == RoleGrants(roles, role, permission)
  {
    var seen := new SeenSet();
    var perms := ExpandRole(roles, role, seen);
    var rest := perms;
    while rest != {}
      invariant rest <= perms && forall p :: p in perms && p !in rest ==> !Matches(p, permission)
      decreases rest
    {
      var p :| p in rest;
      rest := rest - {p};
      if Matches(p, permission) {
        return true;
      }
    }
    return false;
  }

  /** The stored patterns that would grant a permission. */
  function CandidateKeys(permission: string): set<string> {
    var res := Head(permission);
    var act := if Tail(permission).None? then "" else Tail(permission).value;
    {Pattern(res, act), Pattern(res, "*"), Pattern("*", act), Pattern("*", "*")}
  }

  ghost predicate ColonFreeRoles(roles: Roles) {
    forall role, resource, action :: role in roles && resource in roles[role].grants && action in roles[role].grants[resource] ==>
      ColonFree(resource) && ColonFree(action)
  }

  // ---------------------------------------------------------------- when the two tests agree

  lemma {:induction false} FirstColon(a: string, rest: string)
    requires ColonFree(a) && (rest != "" ==> rest[0] == ':')
    ensures Colon(a + rest) == |a|
  {
    if a == "" {
      assert a + rest == rest;
    } else {
      FirstColon(a[1..], rest);
      assert (a + rest)[1..] == a[1..] + rest;
      assert a[0] in a;
    }
  }

  lemma ColonAt(a: string, b: string)
    requires ColonFree(a)
    ensures Colon(Pattern(a, b)) == |a| && Head(Pattern(a, b)) == a && Tail(Pattern(a, b)) == Some(b)
  {
    FirstColon(a, ":" + b);
    assert Pattern(a, b) == a + (":" + b);
    assert Pattern(a, b)[..|a|] == a && Pattern(a, b)[|a| + 1..] == b;
  }

  lemma HeadOfColonFree(a: string)
    requires ColonFree(a)
    ensures Head(a) == a && Tail(a).None?
  {
  }

  lemma PatternInjective(a: string, b: string, c: string, d: string)
    requires ColonFree(a) && ColonFree(c) && Pattern(a, b) == Pattern(c, d)
    ensures a == c && b == d
  {
    ColonAt(a, b);
    ColonAt(c, d);
  }

  /** The two tests on a pattern without further colons, side by side. */
  lemma TestsCompared(r: string, a: string, permission: string)
    requires ColonFree(r) && ColonFree(a)
    ensures Matches(Pattern(r, a), permission) <==> (r == Head(permission) || r == "*") && (Second(permission) == Some(a) || a == "*")
    ensures Pattern(r, a) in CandidateKeys(permission) <==>
              (r == Head(permission) || r == "*") && (a == (if Tail(permission).None? then "" else Tail(permission).value) || a == "*")
  {
    ColonAt(r, a);
    HeadOfColonFree(a);
    var res := Head(permission);
    var act := if Tail(permission).None? then "" else Tail(permission).value;
    assert ColonFree("*") && ColonFree(res);
    if Pattern(r, a) == Pattern(res, act) { PatternInjective(r, a, res, act); }
    if Pattern(r, a) == Pattern(res, "*") { PatternInjective(r, a, res, "*"); }
    if Pattern(r, a) == Pattern("*", act) { PatternInjective(r, a, "*", act); }
    if Pattern(r, a) == Pattern("*", "*") { PatternInjective(r, a, "*", "*"); }
  }

  /** One colon; or several, with a wildcard between the first two. */
  predicate WellFormed(permission: string) {
    Tail(permission).Some? && (ColonFree(Tail(permission).value) || Head(Tail(permission).value) == "*")
  }

  ghost predicate TestsAgree(permission: string) {
    forall r, a :: ColonFree(r) && ColonFree(a) ==> (Matches(Pattern(r, a), permission) <==> Pattern(r, a) in CandidateKeys(permission))
  }

  lemma TestsAgreeIff(permission: string)
    ensures TestsAgree(permission) <==> WellFormed(permission)
  {
    var t := if Tail(permission).None? then "" else Tail(permission).value;
    HeadOrColon(t);
    forall r, a | WellFormed(permission) && ColonFree(r) && ColonFree(a)
      ensures Matches(Pattern(r, a), permission) <==> Pattern(r, a) in CandidateKeys(permission)
    {
      TestsCompared(r, a, permission);
    }
    if !WellFormed(permission) {
      TestsCompared(Head(permission), if Tail(permission).None? then "" else Head(t), permission);
      assert !TestsAgree(permission);
    }
  }

  lemma HeadOrColon(t: string)
    ensures ColonFree(t) ==> Head(t) == t
    ensures !ColonFree(t) ==> Head(t) != t
    ensures ColonFree(Head(t))
  {
  }

  /** Some stored pattern of the role is among the candidate keys. */
  predicate KeyGranted(roles: Roles, role: string, permission: string) {
    exists k :: k in CandidateKeys(permission) && k in Expand(roles, role, {}).out
  }

  /** Expanded patterns are what some role grants itself. */
  lemma ExpandedShape(roles: Roles, role: string, p: string) returns (r: string, a: string)
    requires ColonFreeRoles(roles) && p in Expand(roles, role, {}).out
    ensures p == Pattern(r, a) && ColonFree(r) && ColonFree(a)
  {
    ExpandIsUnion(roles, role, p);
    var source :| Reaches(roles, role, source) && source in roles && p in Direct(roles[source]);
    var resource, action :| resource in roles[source].grants && action in roles[source].grants[resource] && p == Pattern(resource, action);
    assert ColonFree(resource) && ColonFree(action);
    r, a := resource, action;
  }

  lemma AgreeOnRole(roles: Roles, role: string, permission: string)
    requires ColonFreeRoles(roles) && WellFormed(permission)
    ensures RoleGrants(roles, role, permission) <==> KeyGranted(roles, role, permission)
  {
    TestsAgreeIff(permission);
    if RoleGrants(roles, role, permission) {
      var p :| p in Expand(roles, role, {}).out && Matches(p, permission);
      var r, a := ExpandedShape(roles, role, p);
      assert p in CandidateKeys(permission);
    }
    if KeyGranted(roles, role, permission) {
      var k :| k in CandidateKeys(permission) && k in Expand(roles, role, {}).out;
      var r, a := ExpandedShape(roles, role, k);
      assert Matches(k, permission);
    }
  }

  ghost predicate AgreeEverywhere(permission: string) {
    forall roles, role :: ColonFreeRoles(roles) ==> (RoleGrants(roles, role, permission) <==> KeyGranted(roles, role, permission))
  }

  /** A role that grants one pattern. */
  function OneGrant(r: string, a: string): Roles {
    map["only" := RoleDef([], map[r := {a}])]
  }

  lemma OneGrantExpands(r: string, a: string)
    ensures Expand(OneGrant(r, a), "only", {}).out == {Pattern(r, a)}
  {
  }

  /**
   For roles whose resources and actions have no colon, looking up the candidate keys gives the answer
   of `roleGrants` on every configuration if and only if the permission has one colon, or several with
   a wildcard between the first two.
   */
  lemma LookupAgreesIff(permission: string)
    ensures AgreeEverywhere(permission) <==> WellFormed(permission)
  {
    if WellFormed(permission) {
      forall roles, role | ColonFreeRoles(roles)
        ensures RoleGrants(roles, role, permission) <==> KeyGranted(roles, role, permission)
      {
        AgreeOnRole(roles, role, permission);
      }
    } else {
      TestsAgreeIff(permission);
      var r, a :| ColonFree(r) && ColonFree(a) && !(Matches(Pattern(r, a), permission) <==> Pattern(r, a) in CandidateKeys(permission));
      OneGrantExpands(r, a);
      assert ColonFreeRoles(OneGrant(r, a));
      assert RoleGrants(OneGrant(r, a), "only", permission) <==> Matches(Pattern(r, a), permission);
      assert KeyGranted(OneGrant(r, a), "only", permission) <==> Pattern(r, a) in CandidateKeys(permission);
    }
  }
}
