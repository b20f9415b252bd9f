/** The grants in a workspace that belong to a token AccessRequest: roles, bindings and the objects that
    credentials are issued from, all labelled with the request's uid. */
module WorkspaceGrants {
  import opened Kube

  const OWNER_LABEL := "workspace.openmcp.cloud/access-uid"
  const CONTROLLER := "controller"
  const ISSUER := "credential-issuer"

  datatype Kind = Role | ClusterRole | RoleBinding | ClusterRoleBinding | Namespace | ServiceAccount | Secret

  datatype Id = Id(kind: Kind, namespace: string, name: string)

  datatype Subject = Subject(name: string, namespace: string)

  datatype Content =
    | Rules(rules: seq<string>)
    | Binding(refKind: Kind, refName: string, subjects: seq<Subject>)
    | IssuerToken(serviceAccount: string)
    | Nothing

  /** `owner` is the APIBinding that the object is garbage-collected with. */
  datatype Item = Item(labels: Labels, owner: string, content: Content)

  type Store = map<Id, Item>

  datatype Permission = Permission(name: string, namespace: string, rules: seq<string>, disableNamespaceCreation: bool)

  datatype RoleRef = RoleRef(kind: string, name: string, namespace: string)

  datatype Token = Token(permissions: seq<Permission>, roleRefs: seq<RoleRef>)

  datatype AccessRequest = AccessRequest(uid: string, token: Option<Token>)

  /** `digest` stands for the shortened hash of the token configuration. */
  datatype Environment = Environment(digest: Token -> string, binding: string)

  predicate IsRBAC(k: Kind) {
    k in {Role, ClusterRole, RoleBinding, ClusterRoleBinding}
  }

  predicate OwnedBy(o: Item, uid: string) {
    OWNER_LABEL in o.labels && o.labels[OWNER_LABEL] == uid
  }

  // ---------- the desired objects ----------

  function Decimal(n: nat): string {
    if n < 10 then ["0123456789"[n]] else Decimal(n / 10) + ["0123456789"[n % 10]]
  }

  function Prefix(env: Environment, ar: AccessRequest): string
    requires ar.token.Some?
  {
    "openmcp-" + ar.uid + "-" + env.digest(ar.token.value)
  }

  function AccessNamespace(ar: AccessRequest): string {
    "openmcp-access-" + ar.uid
  }

  datatype Grant = Grant(id: Id, item: Item)

  function Labelled(env: Environment, ar: AccessRequest, content: Content): Item {
    Item(map[OWNER_LABEL := ar.uid], env.binding, content)
  }

  function Bind(env: Environment, ar: AccessRequest, name: string, namespace: string, refKind: Kind, refName: string, subject: string): Grant {
    Grant(Id(if namespace == "" then ClusterRoleBinding else RoleBinding, namespace, name),
          Labelled(env, ar, Binding(refKind, refName, [Subject(subject, AccessNamespace(ar))])))
  }

  /** A permission leads to a role with its rules and a binding to it. */
  function PermissionGrants(env: Environment, ar: AccessRequest, i: nat): seq<Grant>
    requires ar.token.Some? && i < |ar.token.value.permissions|
  {
    var p := ar.token.value.permissions[i];
    var own := Prefix(env, ar) + "-p" + Decimal(i);
    var name := if p.name == "" then own else p.name;
    var kind := if p.namespace == "" then ClusterRole else Role;
    [Grant(Id(kind, p.namespace, name), Labelled(env, ar, Rules(p.rules))),
     Bind(env, ar, own, p.namespace, kind, name, CONTROLLER)]
  }

  predicate ValidRef(r: RoleRef) {
    r.name != "" && (r.kind == "Role" || r.kind == "ClusterRole")
  }

  function RefGrant(env: Environment, ar: AccessRequest, i: nat): Grant
    requires ar.token.Some? && i < |ar.token.value.roleRefs|
  {
    var r := ar.token.value.roleRefs[i];
    Bind(env, ar, Prefix(env, ar) + "-r" + Decimal(i), r.namespace, if r.kind == "Role" then Role else ClusterRole, r.name, CONTROLLER)
  }

  function IssuerGrants(env: Environment, ar: AccessRequest): seq<Grant>
    requires ar.token.Some?
  {
    var name := Prefix(env, ar) + "-issuer";
    [Grant(Id(Role, AccessNamespace(ar), name), Labelled(env, ar, Rules(["create serviceaccounts/token controller"]))),
     Grant(Id(RoleBinding, AccessNamespace(ar), name),
           Labelled(env, ar, Binding(Role, name, [Subject(ISSUER, AccessNamespace(ar))])))]
  }

  function FirstPermissions(env: Environment, ar: AccessRequest, n: nat): seq<Grant>
    requires ar.token.Some? && n <= |ar.token.value.permissions|
  {
    if n == 0 then [] else FirstPermissions(env, ar, n - 1) + PermissionGrants(env, ar, n - 1)
  }

  function FirstRefs(env: Environment, ar: AccessRequest, n: nat): seq<Grant>
    requires ar.token.Some? && n <= |ar.token.value.roleRefs|
  {
    if n == 0 then [] else FirstRefs(env, ar, n - 1) + [RefGrant(env, ar, n - 1)]
  }

  /** A request without uid or token, or with an invalid role reference, has no grants. */
  predicate ValidSpec(ar: AccessRequest) {
    && ar.uid != "" && ar.token.Some?
    && forall r :: r in ar.token.value.roleRefs ==> ValidRef(r)
  }

  function Grants(env: Environment, ar: AccessRequest): seq<Grant>
    requires ValidSpec(ar)
  {
    FirstPermissions(env, ar, |ar.token.value.permissions|) + FirstRefs(env, ar, |ar.token.value.roleRefs|) + IssuerGrants(env, ar)
  }

  predicate DistinctIds(gs: seq<Grant>) {
    forall i, j :: 0 <= i < j < |gs| ==> gs[i].id != gs[j].id
  }

  function IdsOf(gs: seq<Grant>): set<Id> {
    set g | g in gs :: g.id
  }

  /** The objects that credentials are issued from. */
  function IssuingObjects(env: Environment, ar: AccessRequest): seq<Grant> {
    var ns := AccessNamespace(ar);
    [Grant(Id(Namespace, "", ns), Labelled(env, ar, Nothing)),
     Grant(Id(ServiceAccount, ns, CONTROLLER), Labelled(env, ar, Nothing)),
     Grant(Id(ServiceAccount, ns, ISSUER), Labelled(env, ar, Nothing)),
     Grant(Id(Secret, ns, "issuer-token-" + ar.uid), Labelled(env, ar, IssuerToken(ISSUER)))]
  }

  // ---------- changes to the store ----------

  /** The grants of the owner that are not to be kept. */
  function Obsolete(store: Store, uid: string, keep: set<Id>): set<Id> {
    set k | k in store && IsRBAC(k.kind) && OwnedBy(store[k], uid) && k !in keep
  }

  /** An object with the desired id belongs to somebody else. */
  predicate Foreign(store: Store, g: Grant, uid: string) {
    g.id in store && !OwnedBy(store[g.id], uid)
  }

  function Upserted(store: Store, gs: seq<Grant>, n: nat): Store
    requires n <= |gs|
  {
    if n == 0 then store else Upserted(store, gs, n - 1)[gs[n - 1].id := gs[n - 1].item]
  }

  lemma {:induction false} UpsertedAt(store: Store, gs: seq<Grant>, n: nat, k: Id)
    requires n <= |gs| && DistinctIds(gs)
    ensures forall i :: 0 <= i < n && gs[i].id == k ==> k in Upserted(store, gs, n) && Upserted(store, gs, n)[k] == gs[i].item
    ensures (forall i :: 0 <= i < n ==> gs[i].id != k) ==> (k in Upserted(store, gs, n) <==> k in store)
    ensures (forall i :: 0 <= i < n ==> gs[i].id != k) && k in store ==> Upserted(store, gs, n)[k] == store[k]
  {
    if n > 0 {
      UpsertedAt(store, gs, n - 1, k);
    }
  }

  /** Nothing of kind role or binding has changed. */
  ghost predicate SameGrants(a: Store, b: Store) {
    forall k: Id :: IsRBAC(k.kind) ==> (k in a <==> k in b) && (k in a ==> a[k] == b[k])
  }

  /** Grants of others, and those without an owner, are as before. */
  ghost predicate OthersUntouched(before: Store, after: Store, uid: string) {
    forall k :: k in before && IsRBAC(k.kind) && !OwnedBy(before[k], uid) ==> k in after && after[k] == before[k]
  }

  /** Objects of others, of any kind, are as before. */
  ghost predicate NoForeignTouched(before: Store, after: Store, uid: string) {
    forall k :: k in before && !OwnedBy(before[k], uid) ==> k in after && after[k] == before[k]
  }

  /** The grants labelled with the owner are exactly the desired ones. */
  ghost predicate Exactly(store: Store, gs: seq<Grant>, uid: string) {
    && (forall k :: k in store && IsRBAC(k.kind) && OwnedBy(store[k], uid) ==> k in IdsOf(gs))
    && (forall g :: g in gs ==> g.id in store && store[g.id] == g.item)
  }

  lemma GrantsAreRBAC(env: Environment, ar: AccessRequest)
    requires ValidSpec(ar)
    ensures forall g :: g in Grants(env, ar) ==> IsRBAC(g.id.kind) && OwnedBy(g.item, ar.uid)
  {
    PermissionsAreRBAC(env, ar, |ar.token.value.permissions|);
    RefsAreRBAC(env, ar, |ar.token.value.roleRefs|);
  }

  lemma {:induction false} PermissionsAreRBAC(env: Environment, ar: AccessRequest, n: nat)
    requires ar.token.Some? && n <= |ar.token.value.permissions|
    ensures forall g :: g in FirstPermissions(env, ar, n) ==> IsRBAC(g.id.kind) && OwnedBy(g.item, ar.uid)
  {
    if n > 0 {
      PermissionsAreRBAC(env, ar, n - 1);
    }
  }

  lemma {:induction false} RefsAreRBAC(env: Environment, ar: AccessRequest, n: nat)
    requires ar.token.Some? && n <= |ar.token.value.roleRefs|
    ensures forall g :: g in FirstRefs(env, ar, n) ==> IsRBAC(g.id.kind) && OwnedBy(g.item, ar.uid)
  {
    if n > 0 {
      RefsAreRBAC(env, ar, n - 1);
    }
  }

  /** Upserting all desired grants after the obsolete ones have been pruned gives exactly the desired ones. */
  lemma PruneAndUpsertIsExact(before: Store, pruned: Store, gs: seq<Grant>, uid: string)
    requires DistinctIds(gs) && (forall g :: g in gs ==> IsRBAC(g.id.kind) && OwnedBy(g.item, uid))
    requires SameGrants(pruned, before - Obsolete(before, uid, IdsOf(gs)))
    ensures Exactly(Upserted(pruned, gs, |gs|), gs, uid)
  {
    var after := Upserted(pruned, gs, |gs|);
    forall k | k in after && IsRBAC(k.kind) && OwnedBy(after[k], uid) ensures k in IdsOf(gs) {
      UpsertedAt(pruned, gs, |gs|, k);
      if k !in IdsOf(gs) {
        forall i | 0 <= i < |gs| ensures gs[i].id != k {
          assert gs[i] in gs;
        }
      }
    }
    forall g | g in gs ensures g.id in after && after[g.id] == g.item {
      UpsertedAt(pruned, gs, |gs|, g.id);
    }
  }

  class Workspace {
    var store: Store
    const env: Environment
    ghost var faults: nat

    constructor (env: Environment, store: Store)
      ensures this.env == env && this.store == store
    {
      this.env, this.store := env, store;
    }

    method Call() returns (ok: bool)
      modifies `faults
      ensures faults == old(faults) + if ok then 0 else 1
    {
      ok := *;
      if !ok {
        faults := faults + 1;
      }
    }

    method PermissionObjects(ar: AccessRequest) returns (out: seq<Grant>)
      requires ar.token.Some?
      ensures out == FirstPermissions(env, ar, |ar.token.value.permissions|)
    {
      out := [];
      for i := 0 to |ar.token.value.permissions|
        invariant out == FirstPermissions(env, ar, i)
      {
        out := out + PermissionGrants(env, ar, i);
      }
    }

    method RefObjects(ar: AccessRequest) returns (res: Option<seq<Grant>>)
      requires ar.token.Some?
      ensures res.Some? <==> forall r :: r in ar.token.value.roleRefs ==> ValidRef(r)
      ensures res.Some? ==> res.value == FirstRefs(env, ar, |ar.token.value.roleRefs|)
    {
      var out, refs := [], ar.token.value.roleRefs;
      for i := 0 to |refs|
        invariant out == FirstRefs(env, ar, i)
        invariant forall j :: 0 <= j < i ==> ValidRef(refs[j])
      {
        if !ValidRef(refs[i]) {
          assert refs[i] in refs;
          return None;
        }
        out := out + [RefGrant(env, ar, i)];
      }
      return Some(out);
    }

    /** Computes the desired grants; `None` if the request does not allow for any. */
    method WorkspaceGrantObjects(ar: AccessRequest) returns (res: Option<seq<Grant>>)
      ensures res.Some? <==> ValidSpec(ar)
      ensures res.Some? ==> res.value == Grants(env, ar)
    {
      if ar.uid == "" || ar.token.None? {
        return None;
      }
      var permissions := PermissionObjects(ar);
      var refs := RefObjects(ar);
      if refs.None? {
        return None;
      }
      return Some(permissions + refs.value + IssuerGrants(env, ar));
    }

    /** Deletes the owner's grants that are not to be kept, one kind after the other, until a call fails. */
    method PruneWorkspaceGrants(uid: string, keep: set<Id>) returns (ok: bool, ghost gone: set<Id>)
      modifies `store, `faults
      ensures gone <= Obsolete(old(store), uid, keep) && store == old(store) - gone
      ensures ok ==> gone == Obsolete(old(store), uid, keep)
      ensures faults >= old(faults) && (ok <==> faults == old(faults))
    {
      gone := {};
      var kinds := [RoleBinding, ClusterRoleBinding, Role, ClusterRole];
      assert old(store) - {} == old(store);
      for i := 0 to |kinds|
        invariant gone <= Obsolete(old(store), uid, keep) && store == old(store) - gone
        invariant forall k :: k in Obsolete(old(store), uid, keep) && k.kind in kinds[..i] ==> k in gone
        invariant faults == old(faults)
      {
        assert kinds[..i + 1] == kinds[..i] + [kinds[i]];
        ok := Call();
        if !ok {
          return;
        }
        var todo := set k | k in store && k.kind == kinds[i] && OwnedBy(store[k], uid) && k !in keep;
        while todo != {}
          invariant todo <= Obsolete(old(store), uid, keep) && gone <= Obsolete(old(store), uid, keep) && store == old(store) - gone
          invariant forall k :: k in Obsolete(old(store), uid, keep) && (k.kind in kinds[..i] || (k.kind == kinds[i] && k !in todo)) ==> k in gone
          invariant faults == old(faults)
        {
          var k :| k in todo;
          ok := Call();
          if !ok {
            return;
          }
          store, gone, todo := store - {k}, gone + {k}, todo - {k};
        }
      }
      ok := true;
      forall k | k in Obsolete(old(store), uid, keep) ensures k in gone {
        assert kinds[..|kinds|] == kinds && kinds[0] == RoleBinding && kinds[1] == ClusterRoleBinding;
        assert kinds[2] == Role && kinds[3] == ClusterRole;
        assert k.kind in kinds;
      }
    }

    /** Creates or updates one object, but does not adopt objects of others. */
    method OwnedUpsert(g: Grant, uid: string) returns (ok: bool)
      modifies `store, `faults
      ensures store == if ok then old(store)[g.id := g.item] else old(store)
      ensures faults >= old(faults) && (ok ==> faults == old(faults) && !Foreign(old(store), g, uid))
      ensures !ok && faults == old(faults) ==> Foreign(old(store), g, uid)
    {
      ok := Call();
      if !ok {
        return;
      }
      if g.id in store && !OwnedBy(store[g.id], uid) {
        return false;
      }
      ok := Call();
      if ok {
        store := store[g.id := g.item];
      }
    }

    /** Upserts the objects one after the other, until one of them fails. */
    method UpsertAll(gs: seq<Grant>, uid: string) returns (ok: bool, ghost n: nat)
      requires forall g :: g in gs ==> OwnedBy(g.item, uid)
      modifies `store, `faults
      ensures n <= |gs| && store == Upserted(old(store), gs, n) && (ok ==> n == |gs|)
      ensures NoForeignTouched(old(store), store, uid)
      ensures ok ==> forall i :: 0 <= i < |gs| ==> !Foreign(old(store), gs[i], uid)
      ensures faults >= old(faults) && (ok ==> faults == old(faults))
      ensures !ok && faults == old(faults) ==> exists i :: 0 <= i < |gs| && Foreign(old(store), gs[i], uid)
    {
      ok, n := true, 0;
      ghost var before := store;
      for i := 0 to |gs|
        invariant n == i && store == Upserted(before, gs, i) && faults == old(faults) && ok
        invariant NoForeignTouched(before, store, uid)
        invariant forall k :: k in store && !OwnedBy(store[k], uid) ==> k in before && !OwnedBy(before[k], uid)
        invariant forall j :: 0 <= j < i ==> !Foreign(before, gs[j], uid)
      {
        assert gs[i] in gs;
        assert Foreign(store, gs[i], uid) <==> Foreign(before, gs[i], uid) by {
          if Foreign(before, gs[i], uid) {
            assert gs[i].id in store;
          }
        }
        ok := OwnedUpsert(gs[i], uid);
        if !ok {
          return;
        }
        n := i + 1;
      }
    }

    /** Creates the namespaces of namespaced permissions, unless this is disabled. */
    method EnsureNamespaces(permissions: seq<Permission>) returns (ok: bool)
      modifies `store, `faults
      ensures SameGrants(store, old(store))
      ensures ok ==> NamespacesExist(store, permissions)
      ensures forall k :: k in store && k !in old(store) ==> IsNewNamespace(k, permissions)
      ensures faults >= old(faults) && (ok <==> faults == old(faults))
      ensures forall k :: k in old(store) ==> k in store && store[k] == old(store)[k]
    {
      for i := 0 to |permissions|
        invariant SameGrants(store, old(store)) && faults == old(faults)
        invariant forall k :: k in old(store) ==> k in store && store[k] == old(store)[k]
        invariant NamespacesExist(store, permissions[..i])
        invariant forall k :: k in store && k !in old(store) ==> IsNewNamespace(k, permissions)
      {
        var p := permissions[i];
        assert permissions[..i + 1] == permissions[..i] + [p];
        assert p in permissions;
        if p.namespace != "" {
          ok := Call();
          if !ok {
            return;
          }
          var id := Id(Namespace, "", p.namespace);
          if id !in store && !p.disableNamespaceCreation {
            ok := Call();
            if !ok {
              return;
            }
            store := store[id := Item(map[], "", Nothing)];
          }
        }
      }
      assert permissions[..|permissions|] == permissions;
      ok := true;
    }

    /** Prunes obsolete grants and ensures the objects that credentials are issued from and the namespaces. */
    method Prepare(ar: AccessRequest, keep: set<Id>) returns (ok: bool)
      requires ar.token.Some?
      modifies `store, `faults
      ensures OthersUntouched(old(store), store, ar.uid)
      ensures ok ==> SameGrants(store, old(store) - Obsolete(old(store), ar.uid, keep)) && !IssuingConflict(env, old(store), ar)
      ensures ok ==> Prepared(env, store, ar) && NamespacesExist(store, ar.token.value.permissions)
      ensures faults >= old(faults) && (ok ==> faults == old(faults))
      ensures !ok && faults == old(faults) ==> IssuingConflict(env, old(store), ar)
    {
      ghost var before, gone;
      before := store;
      ok, gone := PruneWorkspaceGrants(ar.uid, keep);
      if !ok {
        return;
      }
      ghost var pruned, n := store, 0;
      IssuingConflictAfterPruning(env, ar, before, pruned, gone, keep);
      ok, n := UpsertAll(IssuingObjects(env, ar), ar.uid);
      IssuingIsNotRBAC(env, ar, pruned, n);
      if !ok {
        return;
      }
      IssuingIsPrepared(env, ar, pruned);
      ok := EnsureNamespaces(ar.token.value.permissions);
    }

    /** Brings the grants of a request into the desired state. Without a valid request nothing is granted. */
    method EnsureWorkspaceAccess(ar: AccessRequest) returns (ok: bool)
      modifies `store, `faults
      ensures OthersUntouched(old(store), store, ar.uid)
      ensures ok ==> ValidSpec(ar) && (DistinctIds(Grants(env, ar)) ==> Exactly(store, Grants(env, ar), ar.uid))
      ensures ok ==> Prepared(env, store, ar) && NamespacesExist(store, ar.token.value.permissions)
      ensures faults == old(faults) ==>
                (ok <==> ValidSpec(ar) && !IssuingConflict(env, old(store), ar) && !GrantConflict(env, old(store), ar))
      ensures !ValidSpec(ar) && faults == old(faults) && ar.uid != "" ==> Obsolete(store, ar.uid, {}) == {}
    {
      var objects := WorkspaceGrantObjects(ar);
      if objects.None? {
        if ar.uid != "" {
          var pruned, gone := PruneWorkspaceGrants(ar.uid, {});
        }
        return false;
      }
      var gs := objects.value;
      GrantsAreRBAC(env, ar);
      ghost var before := store;
      ok := Prepare(ar, IdsOf(gs));
      if !ok {
        return;
      }
      ghost var prepared, n := store, 0;
      GrantConflictAfterPreparing(before, prepared, gs, ar.uid);
      ok, n := UpsertAll(gs, ar.uid);
      GrantsKeepOthers(env, ar, prepared, gs, n);
      if ok && DistinctIds(gs) {
        PruneAndUpsertIsExact(before, prepared, gs, ar.uid);
      }
    }
  }

  /** The objects that credentials are issued from are there. */
  ghost predicate Prepared(env: Environment, store: Store, ar: AccessRequest) {
    forall g :: g in IssuingObjects(env, ar) ==> g.id in store && store[g.id] == g.item
  }

  /** All namespaces that are wanted for permissions are there. */
  ghost predicate NamespacesExist(store: Store, permissions: seq<Permission>) {
    forall p :: p in permissions && p.namespace != "" && !p.disableNamespaceCreation ==> Id(Namespace, "", p.namespace) in store
  }

  ghost predicate IsNewNamespace(k: Id, permissions: seq<Permission>) {
    k.kind.Namespace? && exists p :: p in permissions && k.name == p.namespace != "" && !p.disableNamespaceCreation
  }

  lemma IssuingIsPrepared(env: Environment, ar: AccessRequest, store: Store)
    ensures Prepared(env, Upserted(store, IssuingObjects(env, ar), |IssuingObjects(env, ar)|), ar)
  {
    var gs := IssuingObjects(env, ar);
    assert CONTROLLER[2] != ISSUER[2];
    assert DistinctIds(gs);
    forall g | g in gs ensures g.id in Upserted(store, gs, |gs|) && Upserted(store, gs, |gs|)[g.id] == g.item {
      UpsertedAt(store, gs, |gs|, g.id);
    }
  }

  lemma {:induction false} UpsertedElsewhere(store: Store, gs: seq<Grant>, n: nat, k: Id)
    requires n <= |gs| && forall i :: 0 <= i < |gs| ==> gs[i].id != k
    ensures At(Upserted(store, gs, n), k) == At(store, k)
  {
    if n > 0 {
      UpsertedElsewhere(store, gs, n - 1, k);
    }
  }

  /** Writing roles and bindings leaves all other objects alone. */
  lemma GrantsKeepOthers(env: Environment, ar: AccessRequest, store: Store, gs: seq<Grant>, n: nat)
    requires n <= |gs| && ar.token.Some? && forall g :: g in gs ==> IsRBAC(g.id.kind)
    ensures Prepared(env, store, ar) ==> Prepared(env, Upserted(store, gs, n), ar)
    ensures NamespacesExist(store, ar.token.value.permissions) ==> NamespacesExist(Upserted(store, gs, n), ar.token.value.permissions)
  {
    forall k: Id | !IsRBAC(k.kind) ensures At(Upserted(store, gs, n), k) == At(store, k) {
      forall i | 0 <= i < |gs| ensures gs[i].id != k {
        assert gs[i] in gs;
      }
      UpsertedElsewhere(store, gs, n, k);
    }
    forall g | g in IssuingObjects(env, ar) ensures !IsRBAC(g.id.kind) {
    }
  }

  /** An object that would have to be created or updated belongs to somebody else. */
  predicate IssuingConflict(env: Environment, store: Store, ar: AccessRequest) {
    exists i :: 0 <= i < |IssuingObjects(env, ar)| && Foreign(store, IssuingObjects(env, ar)[i], ar.uid)
  }

  predicate GrantConflict(env: Environment, store: Store, ar: AccessRequest)
    requires ValidSpec(ar)
  {
    exists i :: 0 <= i < |Grants(env, ar)| && Foreign(store, Grants(env, ar)[i], ar.uid)
  }

  lemma IssuingIsNotRBAC(env: Environment, ar: AccessRequest, store: Store, n: nat)
    requires n <= |IssuingObjects(env, ar)|
    ensures SameGrants(store, Upserted(store, IssuingObjects(env, ar), n))
  {
    var gs := IssuingObjects(env, ar);
    forall k: Id | IsRBAC(k.kind)
      ensures k in store <==> k in Upserted(store, gs, n)
      ensures k in store ==> store[k] == Upserted(store, gs, n)[k]
    {
      UpsertedAt(store, gs, n, k);
    }
  }

  lemma IssuingConflictAfterPruning(env: Environment, ar: AccessRequest, before: Store, pruned: Store, gone: set<Id>, keep: set<Id>)
    requires pruned == before - gone && gone <= Obsolete(before, ar.uid, keep)
    ensures IssuingConflict(env, pruned, ar) <==> IssuingConflict(env, before, ar)
  {
    var gs := IssuingObjects(env, ar);
    forall i | 0 <= i < |gs| ensures Foreign(pruned, gs[i], ar.uid) <==> Foreign(before, gs[i], ar.uid) {
    }
  }

  lemma GrantConflictAfterPreparing(before: Store, prepared: Store, gs: seq<Grant>, uid: string)
    requires forall g :: g in gs ==> IsRBAC(g.id.kind)
    requires SameGrants(prepared, before - Obsolete(before, uid, IdsOf(gs)))
    ensures forall i :: 0 <= i < |gs| ==> (Foreign(prepared, gs[i], uid) <==> Foreign(before, gs[i], uid))
  {
    forall i | 0 <= i < |gs| ensures Foreign(prepared, gs[i], uid) <==> Foreign(before, gs[i], uid) {
      assert gs[i] in gs;
    }
  }

  /** Aligning the grants again finds nothing to prune: what is desired is what is there. */
  lemma ExactlyIsStable(store: Store, gs: seq<Grant>, uid: string)
    requires Exactly(store, gs, uid) && DistinctIds(gs)
    ensures Obsolete(store, uid, IdsOf(gs)) == {} && Upserted(store, gs, |gs|) == store
  {
    forall k ensures k in Upserted(store, gs, |gs|) <==> k in store {
      UpsertedAt(store, gs, |gs|, k);
    }
    forall k | k in store ensures Upserted(store, gs, |gs|)[k] == store[k] {
      UpsertedAt(store, gs, |gs|, k);
    }
  }
}
