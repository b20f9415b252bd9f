/** What the grants of a token AccessRequest allow, by the rules of RBAC: a subject may do what is in a role that a
    binding gives to it, in the namespace of the binding. */
module WorkspaceRights {
  import opened Kube
  import opened WorkspaceGrants

  /** The rules of a role that is referred to by a binding in the namespace; an empty one means all namespaces. */
  function RulesOf(store: Store, kind: Kind, name: string, namespace: string): seq<string> {
    var id := Id(kind, if kind.ClusterRole? then "" else namespace, name);
    if id in store && store[id].content.Rules? then store[id].content.rules else []
  }

  /** A binding that belongs to the request gives the rule to the subject. */
  predicate Gives(store: Store, b: Id, uid: string, subject: Subject, namespace: string, rule: string) {
    && b in store && b.kind == (if namespace == "" then ClusterRoleBinding else RoleBinding) && b.namespace == namespace
    && "workspace.openmcp.cloud/access-uid" in store[b].labels && store[b].labels["workspace.openmcp.cloud/access-uid"] == uid
    && store[b].content.Binding? && subject in store[b].content.subjects
    && rule in RulesOf(store, store[b].content.refKind, store[b].content.refName, namespace)
  }

  ghost predicate May(store: Store, uid: string, subject: Subject, namespace: string, rule: string) {
    exists b :: Gives(store, b, uid, subject, namespace, rule)
  }

  /** The service account that credentials are issued for, and the one that issues them. */
  function Controller(ar: AccessRequest): Subject {
    Subject("controller", "openmcp-access-" + ar.uid)
  }

  function Issuer(ar: AccessRequest): Subject {
    Subject("credential-issuer", "openmcp-access-" + ar.uid)
  }

  function RefKind(r: RoleRef): Kind {
    if r.kind == "Role" then Role else ClusterRole
  }

  /** What the token asks for: the rules of its permissions in their namespaces, and those of the roles that it
      refers to. */
  ghost predicate AskedFor(store: Store, t: Token, namespace: string, rule: string) {
    || (exists p :: p in t.permissions && p.namespace == namespace && rule in p.rules)
    || (exists r :: r in t.roleRefs && r.namespace == namespace && rule in RulesOf(store, RefKind(r), r.name, namespace))
  }

  // ---------- which grants there are ----------

  lemma {:induction false} PermissionsIn(env: Environment, ar: AccessRequest, n: nat, g: Grant)
    requires ar.token.Some? && n <= |ar.token.value.permissions|
    ensures g in FirstPermissions(env, ar, n) <==> exists i :: 0 <= i < n && g in PermissionGrants(env, ar, i)
  {
    hide PermissionGrants;
    if n > 0 {
      PermissionsIn(env, ar, n - 1, g);
    }
  }

  lemma {:induction false} RefsIn(env: Environment, ar: AccessRequest, n: nat, g: Grant)
    requires ar.token.Some? && n <= |ar.token.value.roleRefs|
    ensures g in FirstRefs(env, ar, n) <==> exists i :: 0 <= i < n && g == RefGrant(env, ar, i)
  {
    hide RefGrant;
    if n > 0 {
      RefsIn(env, ar, n - 1, g);
    }
  }

  function BindingOf(env: Environment, ar: AccessRequest, i: nat): Grant
    requires ar.token.Some? && i < |ar.token.value.permissions|
  {
    PermissionGrants(env, ar, i)[1]
  }

  function IssuerBinding(env: Environment, ar: AccessRequest): Grant
    requires ar.token.Some?
  {
    IssuerGrants(env, ar)[1]
  }

  /** A binding for the subject belongs to a permission or a role reference of the controller, or is the one of the
      issuer. */
  lemma BindingComesFrom(env: Environment, ar: AccessRequest, g: Grant, subject: Subject)
    requires ValidSpec(ar) && g in Grants(env, ar) && g.item.content.Binding? && subject in g.item.content.subjects
    ensures
      || (subject == Controller(ar) && exists i :: 0 <= i < |ar.token.value.permissions| && g == BindingOf(env, ar, i))
      || (subject == Controller(ar) && exists i :: 0 <= i < |ar.token.value.roleRefs| && g == RefGrant(env, ar, i))
      || (subject == Issuer(ar) && g == IssuerBinding(env, ar))
  {
    var t := ar.token.value;
    PermissionsIn(env, ar, |t.permissions|, g);
    RefsIn(env, ar, |t.roleRefs|, g);
    if i :| 0 <= i < |t.permissions| && g in PermissionGrants(env, ar, i) {
      assert g == BindingOf(env, ar, i);
    }
  }

  lemma PermissionIsGranted(env: Environment, ar: AccessRequest, i: nat)
    requires ValidSpec(ar) && i < |ar.token.value.permissions|
    ensures PermissionGrants(env, ar, i)[0] in Grants(env, ar) && BindingOf(env, ar, i) in Grants(env, ar)
  {
    var gs := PermissionGrants(env, ar, i);
    assert gs[0] in gs && gs[1] in gs;
    PermissionsIn(env, ar, |ar.token.value.permissions|, gs[0]);
    PermissionsIn(env, ar, |ar.token.value.permissions|, gs[1]);
  }

  lemma RefIsGranted(env: Environment, ar: AccessRequest, i: nat)
    requires ValidSpec(ar) && i < |ar.token.value.roleRefs|
    ensures RefGrant(env, ar, i) in Grants(env, ar)
  {
    RefsIn(env, ar, |ar.token.value.roleRefs|, RefGrant(env, ar, i));
  }

  /** The binding of a permission gives exactly its rules, in its namespace. */
  lemma PermissionGives(env: Environment, ar: AccessRequest, store: Store, i: nat, namespace: string, rule: string)
    requires ValidSpec(ar) && Exactly(store, Grants(env, ar), ar.uid) && i < |ar.token.value.permissions|
    ensures
      var p := ar.token.value.permissions[i];
      Gives(store, BindingOf(env, ar, i).id, ar.uid, Controller(ar), namespace, rule) <==>
      p.namespace == namespace && rule in p.rules
  {
    hide Prefix, Decimal;
    PermissionIsGranted(env, ar, i);
    assert OWNER_LABEL == "workspace.openmcp.cloud/access-uid";
    assert AccessNamespace(ar) == "openmcp-access-" + ar.uid;
    PermissionBinding(env, ar, i);
  }

  lemma PermissionBinding(env: Environment, ar: AccessRequest, i: nat)
    requires ar.token.Some? && i < |ar.token.value.permissions|
    ensures
      var p, gs := ar.token.value.permissions[i], PermissionGrants(env, ar, i);
      var kind := if p.namespace == "" then ClusterRole else Role;
      && |gs| == 2
      && gs[0].id.kind == kind && gs[0].id.namespace == p.namespace && gs[0].item.content == Rules(p.rules)
      && gs[1].id.kind == (if p.namespace == "" then ClusterRoleBinding else RoleBinding) && gs[1].id.namespace == p.namespace
      && gs[1].item.labels == map[OWNER_LABEL := ar.uid]
      && gs[1].item.content == Binding(kind, gs[0].id.name, [Subject(CONTROLLER, AccessNamespace(ar))])
  {
    hide Prefix, Decimal;
  }

  /** The binding of a role reference gives exactly the rules of that role, in the namespace of the reference. */
  lemma RefGives(env: Environment, ar: AccessRequest, store: Store, i: nat, namespace: string, rule: string)
    requires ValidSpec(ar) && Exactly(store, Grants(env, ar), ar.uid) && i < |ar.token.value.roleRefs|
    ensures
      var r := ar.token.value.roleRefs[i];
      Gives(store, RefGrant(env, ar, i).id, ar.uid, Controller(ar), namespace, rule) <==>
      r.namespace == namespace && rule in RulesOf(store, RefKind(r), r.name, namespace)
  {
    hide Prefix, Decimal;
    RefIsGranted(env, ar, i);
    assert OWNER_LABEL == "workspace.openmcp.cloud/access-uid";
    assert AccessNamespace(ar) == "openmcp-access-" + ar.uid;
  }

  lemma IssuerGives(env: Environment, ar: AccessRequest, store: Store, namespace: string, rule: string)
    requires ValidSpec(ar) && Exactly(store, Grants(env, ar), ar.uid)
    ensures Gives(store, IssuerBinding(env, ar).id, ar.uid, Issuer(ar), namespace, rule) <==>
            namespace == "openmcp-access-" + ar.uid && rule == "create serviceaccounts/token controller"
  {
    hide Prefix;
    var gs := IssuerGrants(env, ar);
    assert gs[0] in gs && gs[1] in gs;
    assert OWNER_LABEL == "workspace.openmcp.cloud/access-uid";
    assert AccessNamespace(ar) == "openmcp-access-" + ar.uid;
    assert store[gs[0].id] == gs[0].item && store[gs[1].id] == gs[1].item;
  }

  lemma GivenByGrant(env: Environment, ar: AccessRequest, store: Store, b: Id, subject: Subject, namespace: string, rule: string)
    requires ValidSpec(ar) && Exactly(store, Grants(env, ar), ar.uid) && Gives(store, b, ar.uid, subject, namespace, rule)
    ensures exists g :: g in Grants(env, ar) && g.id == b && g.item.content.Binding? && subject in g.item.content.subjects
  {
    hide Grants;
    assert OWNER_LABEL == "workspace.openmcp.cloud/access-uid";
    assert IsRBAC(b.kind) && OwnedBy(store[b], ar.uid);
    var g :| g in Grants(env, ar) && g.id == b;
  }

  // ---------- the rights ----------

  /** By the grants of the request the controller may do exactly what the token asks for, the issuer may do
      nothing but issue tokens for the controller, and nobody else may do anything. */
  lemma RightsAreExact(env: Environment, ar: AccessRequest, store: Store, subject: Subject, namespace: string, rule: string)
    requires ValidSpec(ar) && Exactly(store, Grants(env, ar), ar.uid)
    ensures
      May(store, ar.uid, subject, namespace, rule) <==>
      || (subject == Controller(ar) && AskedFor(store, ar.token.value, namespace, rule))
      || (subject == Issuer(ar) && namespace == "openmcp-access-" + ar.uid && rule == "create serviceaccounts/token controller")
  {
    hide Gives, Grants, Exactly, BindingOf, RefGrant, IssuerBinding, RulesOf;
    var t := ar.token.value;
    forall i | 0 <= i < |t.permissions| && subject == Controller(ar) && t.permissions[i].namespace == namespace && rule in t.permissions[i].rules
      ensures May(store, ar.uid, subject, namespace, rule)
    {
      PermissionGives(env, ar, store, i, namespace, rule);
      assert Gives(store, BindingOf(env, ar, i).id, ar.uid, subject, namespace, rule);
    }
    forall i | 0 <= i < |t.roleRefs| && subject == Controller(ar) && t.roleRefs[i].namespace == namespace
               && rule in RulesOf(store, RefKind(t.roleRefs[i]), t.roleRefs[i].name, namespace)
      ensures May(store, ar.uid, subject, namespace, rule)
    {
      RefGives(env, ar, store, i, namespace, rule);
      assert Gives(store, RefGrant(env, ar, i).id, ar.uid, subject, namespace, rule);
    }
    IssuerGives(env, ar, store, namespace, rule);
    if May(store, ar.uid, subject, namespace, rule) {
      RightsComeFromToken(env, ar, store, subject, namespace, rule);
    }
  }

  lemma RightsComeFromToken(env: Environment, ar: AccessRequest, store: Store, subject: Subject, namespace: string, rule: string)
    requires ValidSpec(ar) && Exactly(store, Grants(env, ar), ar.uid) && May(store, ar.uid, subject, namespace, rule)
    ensures
      || (subject == Controller(ar) && AskedFor(store, ar.token.value, namespace, rule))
      || (subject == Issuer(ar) && namespace == "openmcp-access-" + ar.uid && rule == "create serviceaccounts/token controller")
  {
    hide Gives, Grants, Exactly, BindingOf, RefGrant, IssuerBinding, RulesOf;
    var t := ar.token.value;
    var b :| Gives(store, b, ar.uid, subject, namespace, rule);
    GivenByGrant(env, ar, store, b, subject, namespace, rule);
    var g :| g in Grants(env, ar) && g.id == b && g.item.content.Binding? && subject in g.item.content.subjects;
    BindingComesFrom(env, ar, g, subject);
    if subject == Controller(ar) && exists i :: 0 <= i < |t.permissions| && g == BindingOf(env, ar, i) {
      var i :| 0 <= i < |t.permissions| && g == BindingOf(env, ar, i);
      PermissionGives(env, ar, store, i, namespace, rule);
    } else if subject == Controller(ar) && exists i :: 0 <= i < |t.roleRefs| && g == RefGrant(env, ar, i) {
      var i :| 0 <= i < |t.roleRefs| && g == RefGrant(env, ar, i);
      RefGives(env, ar, store, i, namespace, rule);
    } else {
      IssuerGives(env, ar, store, namespace, rule);
    }
  }

  /** Credentials can be issued: the namespace of the request and both service accounts are there, and so is a
      token of the issuer. */
  lemma CredentialsCanBeIssued(env: Environment, ar: AccessRequest, store: Store)
    requires Prepared(env, store, ar)
    ensures
      var namespace := "openmcp-access-" + ar.uid;
      && Id(Namespace, "", namespace) in store
      && Id(ServiceAccount, namespace, "controller") in store && Id(ServiceAccount, namespace, "credential-issuer") in store
      && Id(Secret, namespace, "issuer-token-" + ar.uid) in store
      && store[Id(Secret, namespace, "issuer-token-" + ar.uid)].content == IssuerToken("credential-issuer")
  {
    var gs := IssuingObjects(env, ar);
    assert gs[0] in gs && gs[1] in gs && gs[2] in gs && gs[3] in gs;
    assert AccessNamespace(ar) == "openmcp-access-" + ar.uid;
  }

  // ---------- who is left alone, and when it works ----------

  /** The object is labelled with the request. */
  predicate BelongsTo(o: Item, uid: string) {
    At(o.labels, "workspace.openmcp.cloud/access-uid") == Some(uid)
  }

  lemma OwnershipIsAgreed(o: Item, uid: string)
    ensures OwnedBy(o, uid) <==> BelongsTo(o, uid)
  {
    assert OWNER_LABEL == "workspace.openmcp.cloud/access-uid";
  }

  /** Roles and bindings that are not labelled with the request are as before. */
  lemma GrantsOfOthersStay(before: Store, after: Store, uid: string, k: Id)
    requires OthersUntouched(before, after, uid)
    requires k in before && k.kind in {Role, ClusterRole, RoleBinding, ClusterRoleBinding} && !BelongsTo(before[k], uid)
    ensures At(after, k) == Some(before[k])
  {
    OwnershipIsAgreed(before[k], uid);
  }

  /** What belongs to the request afterwards is what it asks for. */
  lemma OwnGrantsAreDesired(store: Store, gs: seq<Grant>, uid: string, k: Id)
    requires Exactly(store, gs, uid) && k in store && BelongsTo(store[k], uid)
    requires k.kind in {Role, ClusterRole, RoleBinding, ClusterRoleBinding}
    ensures exists g :: g in gs && g.id == k && store[k] == g.item
  {
    OwnershipIsAgreed(store[k], uid);
  }

  /** A request can be served exactly if it is identified, asks for a token, and all roles it refers to have a
      name and a kind that can be bound. */
  lemma ValidSpecIff(ar: AccessRequest)
    ensures ValidSpec(ar) <==>
              && ar.uid != "" && ar.token.Some?
              && forall r :: r in ar.token.value.roleRefs ==> r.name != "" && r.kind in {"Role", "ClusterRole"}
  {
  }

  /** Aligning the grants once more cannot fail for objects of others, if it has worked once. */
  lemma WorksAgain(env: Environment, ar: AccessRequest, store: Store)
    requires ValidSpec(ar) && Exactly(store, Grants(env, ar), ar.uid) && Prepared(env, store, ar)
    ensures !IssuingConflict(env, store, ar) && !GrantConflict(env, store, ar)
  {
    GrantsAreRBAC(env, ar);
    forall i | 0 <= i < |Grants(env, ar)| ensures !Foreign(store, Grants(env, ar)[i], ar.uid) {
      assert Grants(env, ar)[i] in Grants(env, ar);
    }
    forall i | 0 <= i < |IssuingObjects(env, ar)| ensures !Foreign(store, IssuingObjects(env, ar)[i], ar.uid) {
      assert IssuingObjects(env, ar)[i] in IssuingObjects(env, ar);
    }
  }

  /** It fails for any object of others with the id of a grant. */
  lemma OthersAreNotAdopted(env: Environment, ar: AccessRequest, store: Store, g: Grant)
    requires ValidSpec(ar) && g in Grants(env, ar) && g.id in store && !BelongsTo(store[g.id], ar.uid)
    ensures GrantConflict(env, store, ar)
  {
    OwnershipIsAgreed(store[g.id], ar.uid);
    var i :| 0 <= i < |Grants(env, ar)| && Grants(env, ar)[i] == g;
    assert Foreign(store, Grants(env, ar)[i], ar.uid);
  }
}
