/** internal/kube/store/snapshot.go, appendRideAlong: the cluster-scoped objects that come along with a namespace. */
module RideAlong {
  import opened Prelude

  datatype Subject = Subject(kind: string, ns: string, name: string)

  /** What the ride-along reads of an object; only unstructured objects take part. */
  datatype Obj = Obj(uid: string, kind: string, ns: string, name: string, unstructured: bool, owners: seq<string>,
                     volumeName: string, roleRefKind: string, roleRefName: string, subjects: seq<Subject>)

  /** One informer and what its indexer holds. */
  datatype Resource = Resource(kind: string, namespaced: bool, objs: seq<Obj>)

  function ClusterRoleRefName(o: Obj): string {
    if o.roleRefKind != "ClusterRole" then "" else o.roleRefName
  }

  predicate BindsServiceAccount(o: Obj, saKeys: set<string>) {
    exists i :: 0 <= i < |o.subjects| && o.subjects[i].kind == "ServiceAccount" &&
      o.subjects[i].ns + "/" + o.subjects[i].name in saKeys
  }

  /** The entry under a cluster-scoped name. */
  function ByKey(objs: seq<Obj>, name: string): (r: Option<Obj>)
    ensures r.Some? ==> r.value in objs && r.value.ns == "" && r.value.name == name
    ensures r.None? ==> forall o :: o in objs ==> o.ns != "" || o.name != name
  {
    if objs == [] then None
    else if objs[|objs| - 1].ns == "" && objs[|objs| - 1].name == name then Some(objs[|objs| - 1])
    else ByKey(objs[..|objs| - 1], name)
  }

  // ---- what the objects at hand refer to ----

  function Had(out: seq<Obj>): set<string> {
    set o | o in out && o.unstructured && o.uid != "" :: o.uid
  }

  function OwnerUIDs(out: seq<Obj>): set<string> {
    set o, y | o in out && o.unstructured && y in o.owners && y != "" :: y
  }

  function VolumeNames(out: seq<Obj>): set<string> {
    set o | o in out && o.unstructured && o.kind == "PersistentVolumeClaim" && o.volumeName != "" :: o.volumeName
  }

  function AccountKeys(out: seq<Obj>): set<string> {
    set o | o in out && o.unstructured && o.kind == "ServiceAccount" :: o.ns + "/" + o.name
  }

  function BoundRoles(out: seq<Obj>): set<string> {
    set o | o in out && o.unstructured && o.kind == "RoleBinding" &&
      ClusterRoleRefName(o) != "" :: ClusterRoleRefName(o)
  }

  datatype Wants = Wants(uids: set<string>, volumes: set<string>, roles: set<string>, accounts: set<string>)

  function WantsOf(out: seq<Obj>): Wants {
    Wants(OwnerUIDs(out), VolumeNames(out), BoundRoles(out), AccountKeys(out))
  }

  // ---- what rides along ----

  predicate Named(r: Resource, names: set<string>, o: Obj) {
    o.name in names && ByKey(r.objs, o.name) == Some(o)
  }

  predicate IsBinding(w: Wants, r: Resource, o: Obj) {
    !r.namespaced && r.kind == "ClusterRoleBinding" && o in r.objs && o.unstructured &&
      BindsServiceAccount(o, w.accounts)
  }

  /** One hop: owners, claimed volumes, and the bindings of the namespace's service accounts. */
  predicate InFirstHop(w: Wants, r: Resource, o: Obj) {
    && !r.namespaced && o in r.objs && o.unstructured
    && (o.uid in w.uids || (r.kind == "PersistentVolume" && Named(r, w.volumes, o)) || IsBinding(w, r, o))
  }

  /** Roles named by a role binding at hand, or by a binding that rides along. */
  ghost predicate IsRoleName(w: Wants, resources: seq<Resource>, name: string) {
    || name in w.roles
    || exists r, o :: r in resources && o in r.objs && IsBinding(w, r, o) && ClusterRoleRefName(o) == name != ""
  }

  ghost predicate InSecondHop(w: Wants, resources: seq<Resource>, r: Resource, o: Obj) {
    !r.namespaced && r.kind == "ClusterRole" && o in r.objs && o.unstructured && IsRoleName(w, resources, o.name) &&
      ByKey(r.objs, o.name) == Some(o)
  }

  ghost predicate RidesAlong(out: seq<Obj>, resources: seq<Resource>, o: Obj) {
    exists r :: r in resources && (InFirstHop(WantsOf(out), r, o) || InSecondHop(WantsOf(out), resources, r, o))
  }

  /** Appended to what was there: each UID that rides along and was not there already, once. */
  ghost predicate Completes(out: seq<Obj>, resources: seq<Resource>, all: seq<Obj>) {
    && |out| <= |all| && all[..|out|] == out
    && (forall k :: |out| <= k < |all| ==> RidesAlong(out, resources, all[k]) && all[k].uid !in Had(out))
    && (forall j, k :: |out| <= j < k < |all| ==> all[j].uid != all[k].uid)
    && (forall o :: RidesAlong(out, resources, o) && o.uid !in Had(out) ==> UIDAdded(out, all, o.uid))
  }

  ghost predicate UIDAdded(out: seq<Obj>, all: seq<Obj>, uid: string) {
    exists k :: |out| <= k < |all| && all[k].uid == uid
  }

  function Binders(objs: seq<Obj>, accounts: set<string>): set<Obj> {
    set o | o in objs && o.unstructured && BindsServiceAccount(o, accounts)
  }

  function RolesGranted(objs: seq<Obj>, accounts: set<string>): set<string> {
    set o | o in Binders(objs, accounts) && ClusterRoleRefName(o) != "" :: ClusterRoleRefName(o)
  }

  lemma OneMoreBinder(objs: seq<Obj>, i: nat, accounts: set<string>)
    requires i < |objs|
    ensures var o, binds := objs[i], objs[i].unstructured && BindsServiceAccount(objs[i], accounts);
            && Binders(objs[..i + 1], accounts) == Binders(objs[..i], accounts) + (if binds then {o} else {})
            && RolesGranted(objs[..i + 1], accounts)
               == RolesGranted(objs[..i], accounts) +
                  if binds && ClusterRoleRefName(o) != "" then {ClusterRoleRefName(o)} else {}
  {
    assert objs[..i + 1] == objs[..i] + [objs[i]];
  }

  // ---- the closure ----

  class Collector {
    var out: seq<Obj>
    var have: set<string>
    ghost const base: seq<Obj>
    /** Every object offered so far. */
    ghost var offered: set<Obj>

    ghost predicate Valid()
      reads this
    {
      && |base| <= |out| && out[..|base|] == base
      && (forall uid :: uid in have <==> uid in Had(base) || UIDAdded(base, out, uid))
      && (forall k :: |base| <= k < |out| ==> out[k] in offered && out[k].uid !in Had(base))
      && (forall j, k :: |base| <= j < k < |out| ==> out[j].uid != out[k].uid)
      && (forall o :: o in offered ==> o.uid in have && o.unstructured)
    }

    constructor (start: seq<Obj>)
      ensures Valid() && out == start && base == start && offered == {}
    {
      out, have, base, offered := start, set o | o in start && o.unstructured && o.uid != "" :: o.uid, start, {};
    }

    method Add(o: Obj)
      requires Valid()
      modifies this
      ensures Valid() && offered == old(offered) + if o.unstructured then {o} else {}
    {
      if !o.unstructured {
        return;
      }
      offered := offered + {o};
      if o.uid in have {
        return;
      }
      ghost var before := out;
      have := have + {o.uid};
      out := out + [o];
      forall uid ensures UIDAdded(base, out, uid) <==> UIDAdded(base, before, uid) || uid == o.uid {
        OneMoreAdded(base, before, o, uid);
      }
      assert !UIDAdded(base, before, o.uid);
    }

    /** Everything in an informer that a wanted owner UID names. */
    method AddOwners(r: Resource, uids: set<string>)
      requires Valid()
      modifies this
      ensures Valid() && offered == old(offered) + set o | o in r.objs && o.unstructured && o.uid in uids
    {
      for i := 0 to |r.objs|
        invariant Valid() && offered == old(offered) + set o | o in r.objs[..i] && o.unstructured && o.uid in uids
      {
        assert r.objs[..i + 1] == r.objs[..i] + [r.objs[i]];
        if r.objs[i].uid in uids {
          Add(r.objs[i]);
        }
      }
      assert r.objs[..|r.objs|] == r.objs;
    }

    /** Everything in an informer under one of some names, in whatever order the names come. */
    method AddNamed(r: Resource, names: set<string>)
      requires Valid()
      modifies this
      ensures Valid() && offered == old(offered) + set o | o in r.objs && o.unstructured && Named(r, names, o)
    {
      var left := names;
      while left != {}
        invariant Valid() && left <= names
        invariant offered == old(offered) + set o | o in r.objs && o.unstructured && Named(r, names - left, o)
      {
        var name :| name in left;
        var found := ByKey(r.objs, name);
        if found.Some? {
          Add(found.value);
        }
        left := left - {name};
      }
      assert names - left == names;
    }

    /** The bindings of known service accounts, and the roles they grant. */
    method AddBindings(r: Resource, accounts: set<string>) returns (roles: set<string>)
      requires Valid()
      modifies this
      ensures Valid() && offered == old(offered) + Binders(r.objs, accounts)
      ensures roles == RolesGranted(r.objs, accounts)
    {
      roles := {};
      for i := 0 to |r.objs|
        invariant Valid() && offered == old(offered) + Binders(r.objs[..i], accounts)
        invariant roles == RolesGranted(r.objs[..i], accounts)
      {
        var o := r.objs[i];
        OneMoreBinder(r.objs, i, accounts);
        if o.unstructured && BindsServiceAccount(o, accounts) {
          Add(o);
          if ClusterRoleRefName(o) != "" {
            roles := roles + {ClusterRoleRefName(o)};
          }
        }
      }
      assert r.objs[..|r.objs|] == r.objs;
    }

    method FirstHop(w: Wants, r: Resource) returns (roles: set<string>)
      requires Valid()
      modifies this
      ensures Valid() && offered == old(offered) + set o | o in r.objs && InFirstHop(w, r, o)
      ensures roles == set o | o in r.objs && IsBinding(w, r, o) && ClusterRoleRefName(o) != "" :: ClusterRoleRefName(o)
    {
      roles := {};
      if r.namespaced {
        return;
      }
      AddOwners(r, w.uids);
      if r.kind == "PersistentVolume" {
        AddNamed(r, w.volumes);
      }
      if r.kind == "ClusterRoleBinding" && |w.accounts| > 0 {
        roles := AddBindings(r, w.accounts);
      }
    }
  }

  lemma OneMoreAdded(base: seq<Obj>, before: seq<Obj>, o: Obj, uid: string)
    requires |base| <= |before|
    ensures UIDAdded(base, before + [o], uid) <==> UIDAdded(base, before, uid) || uid == o.uid
  {
    var after := before + [o];
    assert after[|before|] == o;
    if k :| |base| <= k < |before| && before[k].uid == uid {
      assert after[k].uid == uid;
    }
  }

  // ---- the two phases ----

  method ScanWants(out: seq<Obj>) returns (w: Wants)
    ensures w == WantsOf(out)
  {
    w := Wants({}, {}, {}, {});
    for i := 0 to |out|
      invariant w == WantsOf(out[..i])
    {
      OneMoreWants(out, i);
      var o := out[i];
      if !o.unstructured {
        continue;
      }
      w := w.(uids := w.uids + set y | y in o.owners && y != "");
      match o.kind {
        case "PersistentVolumeClaim" =>
          if o.volumeName != "" {
            w := w.(volumes := w.volumes + {o.volumeName});
          }
        case "ServiceAccount" =>
          w := w.(accounts := w.accounts + {o.ns + "/" + o.name});
        case "RoleBinding" =>
          if ClusterRoleRefName(o) != "" {
            w := w.(roles := w.roles + {ClusterRoleRefName(o)});
          }
        case _ =>
      }
    }
    assert out[..|out|] == out;
  }

  /** The volume that a claim is bound to. */
  function ClaimedVolume(o: Obj): set<string> {
    if o.kind == "PersistentVolumeClaim" && o.volumeName != "" then {o.volumeName} else {}
  }

  /** The cluster role that a role binding grants. */
  function BoundRole(o: Obj): set<string> {
    if o.kind == "RoleBinding" && ClusterRoleRefName(o) != "" then {ClusterRoleRefName(o)} else {}
  }

  lemma OneMoreWants(out: seq<Obj>, i: nat)
    requires i < |out|
    ensures var w, next, o := WantsOf(out[..i]), WantsOf(out[..i + 1]), out[i];
            if !o.unstructured then next == w
            else
              && next.uids == w.uids + (set y | y in o.owners && y != "")
              && next.volumes == w.volumes + ClaimedVolume(o)
              && next.accounts == w.accounts + (if o.kind == "ServiceAccount" then {o.ns + "/" + o.name} else {})
              && next.roles == w.roles + BoundRole(o)
  {
    assert out[..i + 1] == out[..i] + [out[i]];
  }

  function FirstRiders(w: Wants, resources: seq<Resource>): set<Obj> {
    set r, o | r in resources && o in r.objs && InFirstHop(w, r, o) :: o
  }

  function BindingRoles(w: Wants, resources: seq<Resource>): set<string> {
    set r, o | r in resources && o in r.objs && IsBinding(w, r, o) &&
      ClusterRoleRefName(o) != "" :: ClusterRoleRefName(o)
  }

  function SecondRiders(roles: set<string>, resources: seq<Resource>): set<Obj> {
    set r, o | r in resources && o in r.objs && !r.namespaced && r.kind == "ClusterRole" && o.unstructured &&
      Named(r, roles, o) :: o
  }

  method FirstPhase(c: Collector, w: Wants, resources: seq<Resource>) returns (roles: set<string>)
    requires c.Valid()
    modifies c
    ensures c.Valid() && c.offered == old(c.offered) + FirstRiders(w, resources)
    ensures roles == w.roles + BindingRoles(w, resources)
  {
    roles := w.roles;
    for i := 0 to |resources|
      invariant c.Valid() && c.offered == old(c.offered) + FirstRiders(w, resources[..i])
      invariant roles == w.roles + BindingRoles(w, resources[..i])
    {
      assert resources[..i + 1] == resources[..i] + [resources[i]];
      var more := c.FirstHop(w, resources[i]);
      roles := roles + more;
    }
    assert resources[..|resources|] == resources;
  }

  method SecondPhase(c: Collector, roles: set<string>, resources: seq<Resource>)
    requires c.Valid()
    modifies c
    ensures c.Valid() && c.offered == old(c.offered) + SecondRiders(roles, resources)
  {
    for i := 0 to |resources|
      invariant c.Valid() && c.offered == old(c.offered) + SecondRiders(roles, resources[..i])
    {
      var r := resources[i];
      assert resources[..i + 1] == resources[..i] + [r];
      if r.namespaced || r.kind != "ClusterRole" {
        continue;
      }
      c.AddNamed(r, roles);
    }
    assert resources[..|resources|] == resources;
  }

  lemma RidersAreRiders(out: seq<Obj>, resources: seq<Resource>, o: Obj)
    ensures var w := WantsOf(out);
            o in FirstRiders(w, resources) + SecondRiders(w.roles + BindingRoles(w, resources), resources) <==>
            RidesAlong(out, resources, o)
  {
    var w := WantsOf(out);
    forall name ensures name in w.roles + BindingRoles(w, resources) <==> IsRoleName(w, resources, name) {
    }
  }

  lemma NothingRides(out: seq<Obj>, resources: seq<Resource>)
    requires WantsOf(out) == Wants({}, {}, {}, {})
    ensures Completes(out, resources, out)
  {
    assert out[..|out|] == out;
    forall o ensures !RidesAlong(out, resources, o) {
    }
  }

  method Collect(out: seq<Obj>, w: Wants, resources: seq<Resource>) returns (c: Collector)
    requires w == WantsOf(out)
    ensures fresh(c) && c.Valid() && c.base == out
    ensures c.offered == FirstRiders(w, resources) + SecondRiders(w.roles + BindingRoles(w, resources), resources)
  {
    c := new Collector(out);
    var roles := FirstPhase(c, w, resources);
    ghost var first := c.offered;
    NoRolesNoRiders(resources);
    if |roles| > 0 {
      SecondPhase(c, roles, resources);
    }
    assert c.offered == first + SecondRiders(roles, resources);
  }

  lemma NoRolesNoRiders(resources: seq<Resource>)
    ensures SecondRiders({}, resources) == {}
  {
  }

  lemma CollectedCompletes(c: Collector, resources: seq<Resource>)
    requires c.Valid()
    requires var w := WantsOf(c.base);
             c.offered == FirstRiders(w, resources) + SecondRiders(w.roles + BindingRoles(w, resources), resources)
    ensures Completes(c.base, resources, c.out)
  {
    forall o ensures o in c.offered <==> RidesAlong(c.base, resources, o) {
      RidersAreRiders(c.base, resources, o);
    }
  }

  /** Adds exactly the UIDs that ride along, none twice, whatever the order of resources and maps. */
  method AppendRideAlong(out: seq<Obj>, resources: seq<Resource>) returns (all: seq<Obj>)
    ensures Completes(out, resources, all)
  {
    if |out| == 0 {
      NothingRides(out, resources);
      return out;
    }
    var w := ScanWants(out);
    if |w.uids| == 0 && |w.volumes| == 0 && |w.roles| == 0 && |w.accounts| == 0 {
      NothingRides(out, resources);
      return out;
    }
    var c := Collect(out, w, resources);
    CollectedCompletes(c, resources);
    all := c.out;
  }

  // ---- order does not matter ----

  lemma SameRiders(out: seq<Obj>, a: seq<Resource>, b: seq<Resource>, o: Obj)
    requires forall r :: r in a <==> r in b
    ensures RidesAlong(out, a, o) <==> RidesAlong(out, b, o)
  {
    forall name ensures IsRoleName(WantsOf(out), a, name) <==> IsRoleName(WantsOf(out), b, name) {
    }
  }

  /** Over the same informers in any order, the same UIDs come along. */
  lemma OrderDoesNotMatter(out: seq<Obj>, a: seq<Resource>, b: seq<Resource>, x: seq<Obj>, y: seq<Obj>, uid: string)
    requires forall r :: r in a <==> r in b
    requires Completes(out, a, x) && Completes(out, b, y)
    ensures UIDAdded(out, x, uid) <==> UIDAdded(out, y, uid)
  {
    SameUIDs(out, a, b, x, y, uid);
    SameUIDs(out, b, a, y, x, uid);
  }

  lemma SameUIDs(out: seq<Obj>, a: seq<Resource>, b: seq<Resource>, x: seq<Obj>, y: seq<Obj>, uid: string)
    requires forall r :: r in a <==> r in b
    requires Completes(out, a, x) && Completes(out, b, y)
    ensures UIDAdded(out, x, uid) ==> UIDAdded(out, y, uid)
  {
    if UIDAdded(out, x, uid) {
      var k :| |out| <= k < |x| && x[k].uid == uid;
      SameRiders(out, a, b, x[k]);
    }
  }

  /** If one UID is one object, the same objects come along. */
  lemma OrderKeepsObjects(out: seq<Obj>, a: seq<Resource>, b: seq<Resource>, x: seq<Obj>, y: seq<Obj>, o: Obj)
    requires forall r :: r in a <==> r in b
    requires Completes(out, a, x) && Completes(out, b, y)
    requires forall p, q :: RidesAlong(out, a, p) && RidesAlong(out, a, q) && p.uid == q.uid ==> p == q
    ensures o in x[|out|..] ==> o in y[|out|..]
  {
    if o in x[|out|..] {
      var k :| |out| <= k < |x| && x[k] == o;
      OrderDoesNotMatter(out, a, b, x, y, o.uid);
      var j :| |out| <= j < |y| && y[j].uid == o.uid;
      SameRiders(out, a, b, y[j]);
      assert y[|out|..][j - |out|] == y[j];
    }
  }

  // ---- what rides along, on the fields ----

  /** `o` is what the informer holds under its name. */
  ghost predicate IsEntry(r: Resource, o: Obj) {
    o in r.objs && o.ns == "" && ByKey(r.objs, o.name) == Some(o)
  }

  /** A binding names a service account at hand, by namespace and name. */
  ghost predicate NamesAccount(out: seq<Obj>, o: Obj) {
    exists i, a :: 0 <= i < |o.subjects| && a in out && a.unstructured && a.kind == "ServiceAccount" &&
                   o.subjects[i].kind == "ServiceAccount" && o.subjects[i].ns == a.ns && o.subjects[i].name == a.name
  }

  /** Namespaces hold no slash. */
  ghost predicate PlainNamespaces(out: seq<Obj>, o: Obj) {
    (forall a :: a in out ==> '/' !in a.ns) && forall i :: 0 <= i < |o.subjects| ==> '/' !in o.subjects[i].ns
  }

  lemma AccountsAreNamed(out: seq<Obj>, o: Obj)
    requires PlainNamespaces(out, o)
    ensures BindsServiceAccount(o, AccountKeys(out)) <==> NamesAccount(out, o)
  {
    if BindsServiceAccount(o, AccountKeys(out)) {
      var i :| 0 <= i < |o.subjects| && o.subjects[i].kind == "ServiceAccount" &&
               o.subjects[i].ns + "/" + o.subjects[i].name in AccountKeys(out);
      var s := o.subjects[i];
      var a :| a in out && a.unstructured && a.kind == "ServiceAccount" && a.ns + "/" + a.name == s.ns + "/" + s.name;
      assert a.ns + ['/'] + a.name == s.ns + ['/'] + s.name;
      SplitAtSeparator(a.ns, s.ns, '/', a.name, s.name);
    }
    if i, a :| 0 <= i < |o.subjects| && a in out && a.unstructured && a.kind == "ServiceAccount" &&
               o.subjects[i].kind == "ServiceAccount" && o.subjects[i].ns == a.ns && o.subjects[i].name == a.name {
      assert a.ns + "/" + a.name in AccountKeys(out);
    }
  }

  /** A cluster-scoped binding that names a service account at hand. */
  ghost predicate IsRidingBinding(out: seq<Obj>, resources: seq<Resource>, o: Obj) {
    exists r :: r in resources && !r.namespaced && r.kind == "ClusterRoleBinding" && o in r.objs && o.unstructured &&
                NamesAccount(out, o)
  }

  /** What rides along is a cluster-scoped, unstructured object that owns an object at hand; or a volume that a claim at
      hand is bound to; or a cluster role binding of a service account at hand; or a cluster role that is granted by a
      role binding at hand or by such a cluster role binding. A reference to a role that is not a cluster role grants
      none. */
  lemma RidesOnFields(out: seq<Obj>, resources: seq<Resource>, o: Obj)
    requires forall r, x :: r in resources && x in r.objs ==> PlainNamespaces(out, x)
    ensures RidesAlong(out, resources, o) <==>
            exists r :: r in resources && !r.namespaced && o in r.objs && o.unstructured &&
              RideReason(out, resources, r, o)
  {
    forall r | r in resources
      ensures InFirstHop(WantsOf(out), r, o) || InSecondHop(WantsOf(out), resources, r, o) <==>
              !r.namespaced && o in r.objs && o.unstructured && RideReason(out, resources, r, o)
    {
      HopsOnFields(out, resources, r, o);
    }
  }

  ghost predicate RideReason(out: seq<Obj>, resources: seq<Resource>, r: Resource, o: Obj) {
    || (exists x :: x in out && x.unstructured && o.uid != "" && o.uid in x.owners)
    || (r.kind == "PersistentVolume" && IsEntry(r, o) &&
        exists x :: x in out && x.unstructured && x.kind == "PersistentVolumeClaim" && x.volumeName == o.name != "")
    || (r.kind == "ClusterRoleBinding" && NamesAccount(out, o))
    || (r.kind == "ClusterRole" && IsEntry(r, o) && o.name != "" && IsGranted(out, resources, o.name))
  }

  /** A role binding at hand, or a cluster role binding that rides along, refers to the cluster role. */
  ghost predicate IsGranted(out: seq<Obj>, resources: seq<Resource>, role: string) {
    || (exists x :: x in out && x.unstructured && x.kind == "RoleBinding" &&
                    x.roleRefKind == "ClusterRole" && x.roleRefName == role)
    || (exists x :: IsRidingBinding(out, resources, x) && x.roleRefKind == "ClusterRole" && x.roleRefName == role)
  }

  lemma GrantedOnFields(out: seq<Obj>, resources: seq<Resource>, role: string)
    requires forall r, x :: r in resources && x in r.objs ==> PlainNamespaces(out, x)
    ensures IsRoleName(WantsOf(out), resources, role) <==> role != "" && IsGranted(out, resources, role)
  {
    forall r, x | r in resources && x in r.objs
      ensures BindsServiceAccount(x, AccountKeys(out)) <==> NamesAccount(out, x)
    {
      AccountsAreNamed(out, x);
    }
    if r, x :| r in resources && x in r.objs && IsBinding(WantsOf(out), r, x) && ClusterRoleRefName(x) == role != "" {
      assert IsRidingBinding(out, resources, x);
    }
    if x :| IsRidingBinding(out, resources, x) && x.roleRefKind == "ClusterRole" && x.roleRefName == role != "" {
      var r :| r in resources && !r.namespaced && r.kind == "ClusterRoleBinding" && x in r.objs && x.unstructured &&
               NamesAccount(out, x);
      assert IsBinding(WantsOf(out), r, x);
    }
  }

  lemma HopsOnFields(out: seq<Obj>, resources: seq<Resource>, r: Resource, o: Obj)
    requires r in resources && forall s, x :: s in resources && x in s.objs ==> PlainNamespaces(out, x)
    ensures InFirstHop(WantsOf(out), r, o) || InSecondHop(WantsOf(out), resources, r, o) <==>
            !r.namespaced && o in r.objs && o.unstructured && RideReason(out, resources, r, o)
  {
    if o in r.objs {
      AccountsAreNamed(out, o);
      GrantedOnFields(out, resources, o.name);
    }
  }
}
