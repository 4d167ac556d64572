/** internal/rbac/rbac.go: deny-override evaluation of a request against the caller's roles. */
module Policies {
  import opened Prelude
  import opened Glob

  const CLUSTER_SCOPE := "__cluster__"

  /** Empty lists match everything; `clusterScoped` unset leaves scoping to the namespaces. */
  datatype Rule = Rule(namespaces: seq<string>, clusterScoped: Option<bool>,
                       resources: seq<string>, actions: seq<string>)
  datatype Role = Role(allow: seq<Rule>, deny: seq<Rule>)
  datatype Policy = Policy(
    defaultRoles: seq<string>,
    roles: map<string, Role>,
    users: map<string, seq<string>>,
    groups: map<string, seq<string>>,
    deny: seq<Rule>)

  const VIEWER := Role([Rule([], None, [], ["get", "list", "watch"])], [])
  const ADMIN := Role([Rule([], None, [], [])], [])

  // ---- what rules mean ----

  ghost predicate MatchesOne(patterns: seq<string>, value: string) {
    patterns == [] || exists p :: p in patterns && Matches(p, value)
  }

  ghost predicate MatchesSome(patterns: seq<string>, values: seq<string>) {
    patterns == [] || exists v :: v in values && MatchesOne(patterns, v)
  }

  ghost predicate InScope(r: Rule, scope: string) {
    if scope == CLUSTER_SCOPE then
      r.clusterScoped == Some(true) || (r.clusterScoped == None && r.namespaces == [])
    else
      r.clusterScoped != Some(true) && MatchesOne(r.namespaces, scope)
  }

  ghost predicate Covers(r: Rule, scope: string, resources: seq<string>, action: string) {
    InScope(r, scope) && MatchesOne(r.actions, action) && MatchesSome(r.resources, resources)
  }

  ghost predicate SomeCovers(rules: seq<Rule>, scope: string, resources: seq<string>, action: string) {
    exists r :: r in rules && Covers(r, scope, resources, action)
  }

  function RoleNamed(p: Policy, name: string): Role {
    if name in p.roles then p.roles[name] else Role([], [])
  }

  ghost predicate Denied(p: Policy, names: set<string>, scope: string, resources: seq<string>, action: string) {
    || SomeCovers(p.deny, scope, resources, action)
    || exists name :: name in names && SomeCovers(RoleNamed(p, name).deny, scope, resources, action)
  }

  ghost predicate Granted(p: Policy, names: set<string>, scope: string, resources: seq<string>, action: string) {
    exists name :: name in names && SomeCovers(RoleNamed(p, name).allow, scope, resources, action)
  }

  /** The roles acting for a caller. */
  function RolesOf(p: Policy, user: string, groups: seq<string>): set<string> {
    (set n | n in p.defaultRoles) + (set n | user in p.users && n in p.users[user]) +
    (set g, n | g in groups && g in p.groups && n in p.groups[g] :: n)
  }

  /** Some allow rule of the caller's roles covers the request and no deny rule does. */
  ghost predicate Permits(p: Policy, user: string, groups: seq<string>, scope: string, resources: seq<string>,
                          action: string)
  {
    var names := RolesOf(p, user, groups);
    Granted(p, names, scope, resources, action) && !Denied(p, names, scope, resources, action)
  }

  // ---- evaluation ----

  method MatchAny(patterns: seq<string>, value: string) returns (ok: bool)
    ensures ok <==> MatchesOne(patterns, value)
  {
    if |patterns| == 0 {
      return true;
    }
    for i := 0 to |patterns|
      invariant forall p :: p in patterns[..i] ==> !Matches(p, value)
    {
      assert patterns[..i + 1] == patterns[..i] + [patterns[i]];
      var hit := GlobMatch(patterns[i], value);
      if hit {
        return true;
      }
    }
    assert patterns[..|patterns|] == patterns;
    return false;
  }

  method MatchAnyValue(patterns: seq<string>, values: seq<string>) returns (ok: bool)
    ensures ok <==> MatchesSome(patterns, values)
  {
    if |patterns| == 0 {
      return true;
    }
    for i := 0 to |values|
      invariant forall v :: v in values[..i] ==> !MatchesOne(patterns, v)
    {
      assert values[..i + 1] == values[..i] + [values[i]];
      var hit := MatchAny(patterns, values[i]);
      if hit {
        return true;
      }
    }
    assert values[..|values|] == values;
    return false;
  }

  method MatchesScope(r: Rule, scope: string) returns (ok: bool)
    ensures ok <==> InScope(r, scope)
  {
    if scope == CLUSTER_SCOPE {
      if r.clusterScoped.Some? {
        return r.clusterScoped.value;
      }
      return |r.namespaces| == 0;
    }
    if r.clusterScoped.Some? && r.clusterScoped.value {
      return false;
    }
    ok := MatchAny(r.namespaces, scope);
  }

  method RuleMatches(r: Rule, scope: string, resources: seq<string>, action: string) returns (ok: bool)
    ensures ok <==> Covers(r, scope, resources, action)
  {
    ok := MatchesScope(r, scope);
    if ok {
      ok := MatchAny(r.actions, action);
    }
    if ok {
      ok := MatchAnyValue(r.resources, resources);
    }
  }

  method AnyMatches(rules: seq<Rule>, scope: string, resources: seq<string>, action: string) returns (ok: bool)
    ensures ok <==> SomeCovers(rules, scope, resources, action)
  {
    for i := 0 to |rules|
      invariant forall r :: r in rules[..i] ==> !Covers(r, scope, resources, action)
    {
      assert rules[..i + 1] == rules[..i] + [rules[i]];
      var hit := RuleMatches(rules[i], scope, resources, action);
      if hit {
        return true;
      }
    }
    assert rules[..|rules|] == rules;
    return false;
  }

  method RoleSet(p: Policy, user: string, groups: seq<string>) returns (names: set<string>)
    ensures names == RolesOf(p, user, groups)
  {
    names := set n | n in p.defaultRoles;
    if user in p.users {
      names := names + set n | n in p.users[user];
    }
    ghost var start := names;
    for i := 0 to |groups|
      invariant names == start + set g, n | g in groups[..i] && g in p.groups && n in p.groups[g] :: n
    {
      assert groups[..i + 1] == groups[..i] + [groups[i]];
      if groups[i] in p.groups {
        names := names + set n | n in p.groups[groups[i]];
      }
    }
    assert groups[..|groups|] == groups;
  }

  /** Goes over the caller's roles in whatever order the map yields them: it cannot change the answer. */
  method Decide(p: Policy, user: string, groups: seq<string>, scope: string, resources: seq<string>, action: string)
    returns (ok: bool)
    ensures ok <==> Permits(p, user, groups, scope, resources, action)
  {
    var denied := AnyMatches(p.deny, scope, resources, action);
    if denied {
      return false;
    }
    var names := RoleSet(p, user, groups);
    denied := AnyRoleDenies(p, names, scope, resources, action);
    if denied {
      return false;
    }
    ok := AnyRoleAllows(p, names, scope, resources, action);
  }

  method AnyRoleDenies(p: Policy, names: set<string>, scope: string, resources: seq<string>, action: string)
    returns (ok: bool)
    ensures ok <==> exists name :: name in names && SomeCovers(RoleNamed(p, name).deny, scope, resources, action)
  {
    var left := names;
    while left != {}
      invariant left <= names
      invariant forall name :: name in names - left ==> !SomeCovers(RoleNamed(p, name).deny, scope, resources, action)
    {
      var name :| name in left;
      var hit := AnyMatches(RoleNamed(p, name).deny, scope, resources, action);
      if hit {
        return true;
      }
      left := left - {name};
    }
    return false;
  }

  method AnyRoleAllows(p: Policy, names: set<string>, scope: string, resources: seq<string>, action: string)
    returns (ok: bool)
    ensures ok <==> Granted(p, names, scope, resources, action)
  {
    var left := names;
    while left != {}
      invariant left <= names
      invariant forall name :: name in names - left ==> !SomeCovers(RoleNamed(p, name).allow, scope, resources, action)
    {
      var name :| name in left;
      var hit := AnyMatches(RoleNamed(p, name).allow, scope, resources, action);
      if hit {
        return true;
      }
      left := left - {name};
    }
    return false;
  }

  class Enforcer {
    var policy: Policy

    constructor (p: Policy)
      ensures policy == p
    {
      policy := p;
    }

    /** A hot reload: requests decided from here on see the new policy only. */
    method Replace(p: Policy)
      modifies this
      ensures policy == p
    {
      policy := p;
    }

    method EnforceAny(user: string, groups: seq<string>, namespace: string, resources: seq<string>, action: string)
      returns (ok: bool)
      ensures ok <==> Permits(policy, user, groups, namespace, resources, action)
    {
      ok := Decide(policy, user, groups, namespace, resources, action);
    }

    method Enforce(user: string, groups: seq<string>, namespace: string, resource: string, action: string)
      returns (ok: bool)
      ensures ok <==> Permits(policy, user, groups, namespace, [resource], action)
    {
      ok := EnforceAny(user, groups, namespace, [resource], action);
    }
  }

  // ---- laws of the evaluation ----

  lemma SomeIsOneOf(patterns: seq<string>, values: seq<string>)
    requires values != []
    ensures MatchesSome(patterns, values) <==> exists v :: v in values && MatchesSome(patterns, [v])
  {
    assert values[0] in values;
    forall v | v in values ensures MatchesSome(patterns, [v]) <==> MatchesOne(patterns, v) {
      assert v in [v];
    }
  }

  lemma CoversByClass(rules: seq<Rule>, scope: string, resources: seq<string>, action: string)
    requires resources != []
    ensures SomeCovers(rules, scope, resources, action)
       <==> exists c :: c in resources && SomeCovers(rules, scope, [c], action)
  {
    forall r | r in rules
      ensures Covers(r, scope, resources, action) <==> exists c :: c in resources && Covers(r, scope, [c], action)
    {
      SomeIsOneOf(r.resources, resources);
    }
    if c :| c in resources && SomeCovers(rules, scope, [c], action) {
      var r :| r in rules && Covers(r, scope, [c], action);
    }
    if SomeCovers(rules, scope, resources, action) {
      var r :| r in rules && Covers(r, scope, resources, action);
      var c :| c in resources && Covers(r, scope, [c], action);
      assert SomeCovers(rules, scope, [c], action);
    }
  }

  lemma DeniedByClass(p: Policy, names: set<string>, scope: string, resources: seq<string>, action: string)
    requires resources != []
    ensures Denied(p, names, scope, resources, action)
            <==> exists c :: c in resources && Denied(p, names, scope, [c], action)
  {
    CoversByClass(p.deny, scope, resources, action);
    forall name | name in names
      ensures SomeCovers(RoleNamed(p, name).deny, scope, resources, action)
         <==> exists c :: c in resources && SomeCovers(RoleNamed(p, name).deny, scope, [c], action)
    {
      CoversByClass(RoleNamed(p, name).deny, scope, resources, action);
    }
  }

  lemma GrantedByClass(p: Policy, names: set<string>, scope: string, resources: seq<string>, action: string)
    requires resources != []
    ensures Granted(p, names, scope, resources, action)
            <==> exists c :: c in resources && Granted(p, names, scope, [c], action)
  {
    forall name | name in names
      ensures SomeCovers(RoleNamed(p, name).allow, scope, resources, action)
         <==> exists c :: c in resources && SomeCovers(RoleNamed(p, name).allow, scope, [c], action)
    {
      CoversByClass(RoleNamed(p, name).allow, scope, resources, action);
    }
  }

  /** Asking about several classes: one of them is permitted on its own and none of them is denied. */
  lemma PermitsByClass(p: Policy, user: string, groups: seq<string>, scope: string, resources: seq<string>,
                       action: string)
    requires resources != []
    ensures Permits(p, user, groups, scope, resources, action)
       <==> (exists c :: c in resources && Permits(p, user, groups, scope, [c], action)) &&
            forall c :: c in resources ==> !Denied(p, RolesOf(p, user, groups), scope, [c], action)
  {
    var names := RolesOf(p, user, groups);
    DeniedByClass(p, names, scope, resources, action);
    GrantedByClass(p, names, scope, resources, action);
    if Permits(p, user, groups, scope, resources, action) {
      var c :| c in resources && Granted(p, names, scope, [c], action);
      assert Permits(p, user, groups, scope, [c], action);
    }
    if c :| c in resources && Permits(p, user, groups, scope, [c], action) {
      assert Granted(p, names, scope, [c], action);
    }
  }

  /** Some rule covers the scope and action whatever the class. */
  ghost predicate SomeCoversAll(rules: seq<Rule>, scope: string, action: string) {
    exists r :: r in rules && r.resources == [] && InScope(r, scope) && MatchesOne(r.actions, action)
  }

  lemma NoClassNeedsAll(rules: seq<Rule>, scope: string, action: string)
    ensures SomeCovers(rules, scope, [], action) <==> SomeCoversAll(rules, scope, action)
  {
    if r :| r in rules && r.resources == [] && InScope(r, scope) && MatchesOne(r.actions, action) {
      assert Covers(r, scope, [], action);
    }
  }

  /** With no class at all the law by classes would deny; what is decided instead is the request for every class:
      some allow rule without resources covers it and no deny rule without resources does. */
  lemma NoClassAsksForAll(p: Policy, user: string, groups: seq<string>, scope: string, action: string)
    ensures
      var names := RolesOf(p, user, groups);
      Permits(p, user, groups, scope, [], action) <==>
        && (exists name :: name in names && SomeCoversAll(RoleNamed(p, name).allow, scope, action))
        && !SomeCoversAll(p.deny, scope, action)
        && forall name :: name in names ==> !SomeCoversAll(RoleNamed(p, name).deny, scope, action)
  {
    NoClassNeedsAll(p.deny, scope, action);
    forall name
      ensures SomeCovers(RoleNamed(p, name).allow, scope, [], action)
         <==> SomeCoversAll(RoleNamed(p, name).allow, scope, action)
      ensures SomeCovers(RoleNamed(p, name).deny, scope, [], action)
         <==> SomeCoversAll(RoleNamed(p, name).deny, scope, action)
    {
      NoClassNeedsAll(RoleNamed(p, name).allow, scope, action);
      NoClassNeedsAll(RoleNamed(p, name).deny, scope, action);
    }
  }

  lemma MoreGroupsMoreRoles(p: Policy, user: string, groups: seq<string>, more: seq<string>)
    ensures RolesOf(p, user, groups) <= RolesOf(p, user, groups + more)
  {
  }

  /** Joining groups never gets a caller past a deny that already applies. */
  lemma MoreGroupsStayDenied(p: Policy, user: string, groups: seq<string>, more: seq<string>,
                             scope: string, resources: seq<string>, action: string)
    requires Denied(p, RolesOf(p, user, groups), scope, resources, action)
    ensures !Permits(p, user, groups + more, scope, resources, action)
  {
    MoreGroupsMoreRoles(p, user, groups, more);
    MoreRolesStayDenied(p, RolesOf(p, user, groups), RolesOf(p, user, groups + more), scope, resources, action);
  }

  lemma MoreRolesStayDenied(p: Policy, names: set<string>, more: set<string>, scope: string, resources: seq<string>,
                            action: string)
    requires names <= more && Denied(p, names, scope, resources, action)
    ensures Denied(p, more, scope, resources, action)
  {
    if !SomeCovers(p.deny, scope, resources, action) {
      var name :| name in names && SomeCovers(RoleNamed(p, name).deny, scope, resources, action);
      assert name in more;
    }
  }

  /** Joining groups whose roles deny nothing never takes access away. */
  lemma DenyFreeGroupsKeepAccess(p: Policy, user: string, groups: seq<string>, more: seq<string>,
                                 scope: string, resources: seq<string>, action: string)
    requires Permits(p, user, groups, scope, resources, action)
    requires forall g, n :: g in more && g in p.groups && n in p.groups[g] ==> RoleNamed(p, n).deny == []
    ensures Permits(p, user, groups + more, scope, resources, action)
  {
    var names, wider := RolesOf(p, user, groups), RolesOf(p, user, groups + more);
    MoreGroupsMoreRoles(p, user, groups, more);
    var name :| name in names && SomeCovers(RoleNamed(p, name).allow, scope, resources, action);
    assert name in wider;
    forall n | n in wider ensures !SomeCovers(RoleNamed(p, n).deny, scope, resources, action) {
      assert n !in names ==> RoleNamed(p, n).deny == [];
      assert n in names ==> !SomeCovers(RoleNamed(p, n).deny, scope, resources, action);
    }
  }

  /** A guardrail that names no scope cannot be sidestepped, through cluster-scoped resources included. */
  lemma BareDenyBindsEveryone(p: Policy, r: Rule, user: string, groups: seq<string>, scope: string,
                              resources: seq<string>, action: string)
    requires r in p.deny && r.namespaces == [] && r.clusterScoped == None
    requires MatchesOne(r.actions, action) && MatchesSome(r.resources, resources)
    ensures !Permits(p, user, groups, scope, resources, action)
  {
    assert Covers(r, scope, resources, action);
  }

  /** Namespace globs never see the cluster scope, not even "*". */
  lemma NamespacesNeverReachCluster(p: Policy, user: string, groups: seq<string>, resources: seq<string>,
                                    action: string)
    requires forall name, r :: name in RolesOf(p, user, groups) && r in RoleNamed(p, name).allow
                               ==> r.namespaces != [] && r.clusterScoped != Some(true)
    ensures !Permits(p, user, groups, CLUSTER_SCOPE, resources, action)
  {
    forall name, r | name in RolesOf(p, user, groups) && r in RoleNamed(p, name).allow
      ensures !Covers(r, CLUSTER_SCOPE, resources, action)
    {
    }
  }

  lemma ViewerCovers(scope: string, resources: seq<string>, action: string)
    ensures Covers(VIEWER.allow[0], scope, resources, action) <==> action in VIEWER.allow[0].actions
  {
    var r := VIEWER.allow[0];
    forall a | a in r.actions ensures Matches(a, action) <==> a == action {
      NoStarMatchesItself(a, action);
    }
    assert MatchesOne(r.actions, action) <==> action in r.actions;
  }

  /** The built-in viewer role grants reading, everywhere, and nothing else. */
  lemma ViewerOnlyReads(p: Policy, names: set<string>, scope: string, resources: seq<string>, action: string)
    requires names == {"viewer"} && RoleNamed(p, "viewer") == VIEWER
    ensures Granted(p, names, scope, resources, action) <==> action in ["get", "list", "watch"]
  {
    ViewerCovers(scope, resources, action);
    assert VIEWER.allow[0] in VIEWER.allow && "viewer" in names;
    assert SomeCovers(VIEWER.allow, scope, resources, action) <==> action in VIEWER.allow[0].actions;
  }

  /** The built-in admin role grants everything in every scope, for any classes or none. */
  lemma AdminGrantsEverything(p: Policy, names: set<string>, scope: string, resources: seq<string>, action: string)
    requires names == {"admin"} && RoleNamed(p, "admin") == ADMIN
    ensures Granted(p, names, scope, resources, action)
  {
    assert ADMIN.allow[0] in ADMIN.allow && Covers(ADMIN.allow[0], scope, resources, action);
    assert SomeCovers(ADMIN.allow, scope, resources, action) && "admin" in names;
  }

  // ---- the decision read off the policy ----

  /** A role acts for a caller when it is a default, or listed for the user or for one of the groups. */
  ghost predicate Acts(p: Policy, user: string, groups: seq<string>, name: string) {
    || name in p.defaultRoles
    || (user in p.users && name in p.users[user])
    || exists g :: g in groups && g in p.groups && name in p.groups[g]
  }

  /** A request is permitted exactly when some role that acts for the caller allows it, no such role denies it and no
      global rule does; a role that the policy does not define does neither. */
  lemma PermitsByListing(p: Policy, user: string, groups: seq<string>, scope: string, resources: seq<string>,
                         action: string)
    ensures Permits(p, user, groups, scope, resources, action) <==>
            && (exists name :: Acts(p, user, groups, name) && name in p.roles &&
                               exists r :: r in p.roles[name].allow && Covers(r, scope, resources, action))
            && (forall name, r :: Acts(p, user, groups, name) && name in p.roles && r in p.roles[name].deny ==>
                                    !Covers(r, scope, resources, action))
            && (forall r :: r in p.deny ==> !Covers(r, scope, resources, action))
  {
    var names := RolesOf(p, user, groups);
    forall name ensures name in names <==> Acts(p, user, groups, name) {
    }
    forall name
      ensures SomeCovers(RoleNamed(p, name).allow, scope, resources, action)
         <==> name in p.roles && exists r :: r in p.roles[name].allow && Covers(r, scope, resources, action)
    {
    }
    if Permits(p, user, groups, scope, resources, action) {
      forall name, r | Acts(p, user, groups, name) && name in p.roles && r in p.roles[name].deny
        ensures !Covers(r, scope, resources, action)
      {
        assert !SomeCovers(RoleNamed(p, name).deny, scope, resources, action);
      }
    }
  }

  /** A role assigned to the user alone grants what its rules cover ... */
  lemma UserRoleGrants(p: Policy, user: string, groups: seq<string>, name: string, r: Rule, scope: string,
                       resources: seq<string>, action: string)
    requires user in p.users && name in p.users[user] && name in p.roles && r in p.roles[name].allow
    requires Covers(r, scope, resources, action) && p.deny == [] && forall n :: n in p.roles ==> p.roles[n].deny == []
    ensures Permits(p, user, groups, scope, resources, action)
  {
    assert Acts(p, user, groups, name);
    PermitsByListing(p, user, groups, scope, resources, action);
  }

  /** ... so does one assigned to a group of the caller ... */
  lemma GroupRoleGrants(p: Policy, user: string, groups: seq<string>, g: string, name: string, r: Rule, scope: string,
                        resources: seq<string>, action: string)
    requires g in groups && g in p.groups && name in p.groups[g] && name in p.roles && r in p.roles[name].allow
    requires Covers(r, scope, resources, action) && p.deny == [] && forall n :: n in p.roles ==> p.roles[n].deny == []
    ensures Permits(p, user, groups, scope, resources, action)
  {
    assert Acts(p, user, groups, name);
    PermitsByListing(p, user, groups, scope, resources, action);
  }

  /** ... and one that everybody has. */
  lemma DefaultRoleGrants(p: Policy, user: string, groups: seq<string>, name: string, r: Rule, scope: string,
                          resources: seq<string>, action: string)
    requires name in p.defaultRoles && name in p.roles && r in p.roles[name].allow
    requires Covers(r, scope, resources, action) && p.deny == [] && forall n :: n in p.roles ==> p.roles[n].deny == []
    ensures Permits(p, user, groups, scope, resources, action)
  {
    assert Acts(p, user, groups, name);
    PermitsByListing(p, user, groups, scope, resources, action);
  }

  /** A deny of any role that acts for the caller cannot be overridden. */
  lemma ActingRoleDenies(p: Policy, user: string, groups: seq<string>, name: string, r: Rule, scope: string,
                         resources: seq<string>, action: string)
    requires Acts(p, user, groups, name) && name in p.roles && r in p.roles[name].deny
    requires Covers(r, scope, resources, action)
    ensures !Permits(p, user, groups, scope, resources, action)
  {
    PermitsByListing(p, user, groups, scope, resources, action);
  }

  /** What a single rule lets a caller do who has no other: the cluster scope when it says so, or names no scope at all;
      a namespace that one of its globs matches, or any when it lists none, unless it is for the cluster scope; and of
      actions and classes those that its globs match, or all where it lists none. */
  lemma OneRuleDecides(p: Policy, user: string, groups: seq<string>, name: string, r: Rule, scope: string,
                       resources: seq<string>, action: string)
    requires p == Policy([name], map[name := Role([r], [])], map[], map[], [])
    ensures Permits(p, user, groups, scope, resources, action) <==>
            && (if scope == CLUSTER_SCOPE
                then r.clusterScoped == Some(true) || (r.clusterScoped == None && |r.namespaces| == 0)
                else r.clusterScoped != Some(true) &&
                     (|r.namespaces| == 0 || exists g :: g in r.namespaces && Matches(g, scope)))
            && (|r.actions| == 0 || exists g :: g in r.actions && Matches(g, action))
            && (|r.resources| == 0 || exists g, c :: g in r.resources && c in resources && Matches(g, c))
  {
    assert Acts(p, user, groups, name);
    assert forall n :: Acts(p, user, groups, n) ==> n == name;
    PermitsByListing(p, user, groups, scope, resources, action);
    assert r in p.roles[name].allow;
    if |r.resources| > 0 && Covers(r, scope, resources, action) {
      var c :| c in resources && MatchesOne(r.resources, c);
    }
  }
}
