/** When the grants of a token AccessRequest have different ids: generated names never clash with each other,
    so that this depends only on the names that the user gives to permissions. */
module WorkspaceGrantNames {
  import opened Kube
  import opened WorkspaceGrants

  // ---------- generated names ----------

  lemma {:induction false} DecimalInjective(a: nat, b: nat)
    ensures Decimal(a) == Decimal(b) ==> a == b
  {
    if Decimal(a) == Decimal(b) {
      LastDigit(a);
      LastDigit(b);
      if a >= 10 && b >= 10 {
        assert Decimal(a / 10) == Decimal(a)[..|Decimal(a)| - 1] == Decimal(b)[..|Decimal(b)| - 1] == Decimal(b / 10);
        DecimalInjective(a / 10, b / 10);
      }
    }
  }

  lemma LastDigit(n: nat)
    ensures Decimal(n) != [] && (|Decimal(n)| == 1 <==> n < 10)
    ensures Decimal(n)[|Decimal(n)| - 1] == "0123456789"[n % 10]
    ensures forall d: nat :: d < 10 && "0123456789"[d] == "0123456789"[n % 10] ==> d == n % 10
  {
  }

  /** The generated name with this mark and number. */
  function Generated(env: Environment, ar: AccessRequest, mark: string, i: nat): string
    requires ar.token.Some?
  {
    Prefix(env, ar) + mark + Decimal(i)
  }

  function IssuerName(env: Environment, ar: AccessRequest): string
    requires ar.token.Some?
  {
    Prefix(env, ar) + "-issuer"
  }

  lemma GeneratedDiffer(env: Environment, ar: AccessRequest, i: nat, j: nat)
    requires ar.token.Some?
    ensures Generated(env, ar, "-p", i) == Generated(env, ar, "-p", j) ==> i == j
    ensures Generated(env, ar, "-r", i) == Generated(env, ar, "-r", j) ==> i == j
    ensures Generated(env, ar, "-p", i) != Generated(env, ar, "-r", j)
    ensures IssuerName(env, ar) !in {Generated(env, ar, "-p", i), Generated(env, ar, "-r", j)}
  {
    var prefix := Prefix(env, ar);
    PrefixInjective(prefix + "-p", Decimal(i), Decimal(j));
    PrefixInjective(prefix + "-r", Decimal(i), Decimal(j));
    DecimalInjective(i, j);
    assert Generated(env, ar, "-p", i)[|prefix| + 1] == 'p' && Generated(env, ar, "-r", j)[|prefix| + 1] == 'r';
    assert IssuerName(env, ar)[|prefix| + 1] == 'i';
  }

  // ---------- ids ----------

  function RoleName(env: Environment, ar: AccessRequest, i: nat): string
    requires ar.token.Some? && i < |ar.token.value.permissions|
  {
    var p := ar.token.value.permissions[i];
    if p.name == "" then Generated(env, ar, "-p", i) else p.name
  }

  function RoleId(env: Environment, ar: AccessRequest, i: nat): Id
    requires ar.token.Some? && i < |ar.token.value.permissions|
  {
    var namespace := ar.token.value.permissions[i].namespace;
    Id(if namespace == "" then ClusterRole else Role, namespace, RoleName(env, ar, i))
  }

  function BindingId(namespace: string, name: string): Id {
    Id(if namespace == "" then ClusterRoleBinding else RoleBinding, namespace, name)
  }

  predicate IsBinding(id: Id) {
    id.kind.RoleBinding? || id.kind.ClusterRoleBinding?
  }

  lemma PermissionIds(env: Environment, ar: AccessRequest, i: nat)
    requires ar.token.Some? && i < |ar.token.value.permissions|
    ensures
      var gs := PermissionGrants(env, ar, i);
      |gs| == 2 && gs[0].id == RoleId(env, ar, i)
      && gs[1].id == BindingId(ar.token.value.permissions[i].namespace, Generated(env, ar, "-p", i))
  {
  }

  lemma {:induction false} IdsOfPermissions(env: Environment, ar: AccessRequest, n: nat, id: Id)
    requires ar.token.Some? && n <= |ar.token.value.permissions| && id in IdsOf(FirstPermissions(env, ar, n))
    ensures exists i :: 0 <= i < n &&
              (id == RoleId(env, ar, i) || (IsBinding(id) && id.name == Generated(env, ar, "-p", i)))
  {
    var g :| g in FirstPermissions(env, ar, n) && g.id == id;
    if g in PermissionGrants(env, ar, n - 1) {
      PermissionIds(env, ar, n - 1);
    } else {
      assert g in FirstPermissions(env, ar, n - 1);
      IdsOfPermissions(env, ar, n - 1, id);
    }
  }

  lemma {:induction false} RolesAreThere(env: Environment, ar: AccessRequest, n: nat, i: nat)
    requires ar.token.Some? && i < n <= |ar.token.value.permissions|
    ensures RoleId(env, ar, i) in IdsOf(FirstPermissions(env, ar, n))
  {
    var gs := PermissionGrants(env, ar, n - 1);
    if i == n - 1 {
      PermissionIds(env, ar, i);
      assert gs[0] in FirstPermissions(env, ar, n);
    } else {
      RolesAreThere(env, ar, n - 1, i);
      var g :| g in FirstPermissions(env, ar, n - 1) && g.id == RoleId(env, ar, i);
      assert g in FirstPermissions(env, ar, n);
    }
  }

  lemma {:induction false} IdsOfRefs(env: Environment, ar: AccessRequest, n: nat, id: Id)
    requires ar.token.Some? && n <= |ar.token.value.roleRefs| && id in IdsOf(FirstRefs(env, ar, n))
    ensures IsBinding(id) && exists i :: 0 <= i < n && id.name == Generated(env, ar, "-r", i)
  {
    var g :| g in FirstRefs(env, ar, n) && g.id == id;
    if g == RefGrant(env, ar, n - 1) {
      assert g.id.name == Generated(env, ar, "-r", n - 1);
    } else {
      assert g in FirstRefs(env, ar, n - 1);
      IdsOfRefs(env, ar, n - 1, id);
    }
  }

  lemma DistinctConcat(a: seq<Grant>, b: seq<Grant>)
    ensures DistinctIds(a + b) <==> DistinctIds(a) && DistinctIds(b) && IdsOf(a) !! IdsOf(b)
  {
    var c := a + b;
    if DistinctIds(c) {
      forall i, j | 0 <= i < j < |a| ensures a[i].id != a[j].id {
        assert c[i] == a[i] && c[j] == a[j];
      }
      forall i, j | 0 <= i < j < |b| ensures b[i].id != b[j].id {
        assert c[|a| + i] == b[i] && c[|a| + j] == b[j];
      }
      forall id | id in IdsOf(a) ensures id !in IdsOf(b) {
        var i :| 0 <= i < |a| && a[i].id == id;
        forall j | 0 <= j < |b| ensures b[j].id != id {
          assert c[i] == a[i] && c[|a| + j] == b[j];
        }
      }
    }
    if DistinctIds(a) && DistinctIds(b) && IdsOf(a) !! IdsOf(b) {
      forall i, j | 0 <= i < j < |c| ensures c[i].id != c[j].id {
        if i < |a| <= j {
          assert c[i].id in IdsOf(a) && c[j] == b[j - |a|] && c[j].id in IdsOf(b);
        } else if |a| <= i {
          assert c[i] == b[i - |a|] && c[j] == b[j - |a|];
        }
      }
    }
  }

  // ---------- when ids are different ----------

  ghost predicate RolesDiffer(env: Environment, ar: AccessRequest, n: nat)
    requires ar.token.Some? && n <= |ar.token.value.permissions|
  {
    forall i, j :: 0 <= i < j < n ==> RoleId(env, ar, i) != RoleId(env, ar, j)
  }

  lemma {:induction false} PermissionsDifferIff(env: Environment, ar: AccessRequest, n: nat)
    requires ar.token.Some? && n <= |ar.token.value.permissions|
    ensures DistinctIds(FirstPermissions(env, ar, n)) <==> RolesDiffer(env, ar, n)
  {
    hide RoleId, Generated, PermissionGrants;
    if n > 0 {
      var before, gs := FirstPermissions(env, ar, n - 1), PermissionGrants(env, ar, n - 1);
      PermissionsDifferIff(env, ar, n - 1);
      DistinctConcat(before, gs);
      PermissionIds(env, ar, n - 1);
      RolesAreNoBindings(env, ar, n - 1);
      OneMorePermission(env, ar, n - 1);
    }
  }

  lemma RolesAreNoBindings(env: Environment, ar: AccessRequest, i: nat)
    requires ar.token.Some? && i < |ar.token.value.permissions|
    ensures !IsBinding(RoleId(env, ar, i))
  {
  }

  lemma BindingIsNew(env: Environment, ar: AccessRequest, n: nat)
    requires ar.token.Some? && n < |ar.token.value.permissions|
    ensures PermissionGrants(env, ar, n)[1].id !in IdsOf(FirstPermissions(env, ar, n))
  {
    hide RoleId, Generated, PermissionGrants, FirstPermissions;
    PermissionIds(env, ar, n);
    var id := PermissionGrants(env, ar, n)[1].id;
    if id in IdsOf(FirstPermissions(env, ar, n)) {
      IdsOfPermissions(env, ar, n, id);
      var i :| 0 <= i < n && (id == RoleId(env, ar, i) || id.name == Generated(env, ar, "-p", i));
      RolesAreNoBindings(env, ar, i);
      GeneratedDiffer(env, ar, i, n);
    }
  }

  lemma RoleIsNewIff(env: Environment, ar: AccessRequest, n: nat)
    requires ar.token.Some? && n < |ar.token.value.permissions|
    ensures RoleId(env, ar, n) !in IdsOf(FirstPermissions(env, ar, n)) <==>
            forall i :: 0 <= i < n ==> RoleId(env, ar, i) != RoleId(env, ar, n)
  {
    hide RoleId, Generated, FirstPermissions, IdsOf;
    var id := RoleId(env, ar, n);
    if id in IdsOf(FirstPermissions(env, ar, n)) {
      IdsOfPermissions(env, ar, n, id);
      RolesAreNoBindings(env, ar, n);
    } else {
      forall i | 0 <= i < n ensures RoleId(env, ar, i) != id {
        RolesAreThere(env, ar, n, i);
      }
    }
  }

  lemma OneMorePermission(env: Environment, ar: AccessRequest, n: nat)
    requires ar.token.Some? && n < |ar.token.value.permissions|
    ensures IdsOf(FirstPermissions(env, ar, n)) !! IdsOf(PermissionGrants(env, ar, n)) <==>
            forall i :: 0 <= i < n ==> RoleId(env, ar, i) != RoleId(env, ar, n)
  {
    hide RoleId, Generated, PermissionGrants, FirstPermissions;
    PermissionIds(env, ar, n);
    BindingIsNew(env, ar, n);
    RoleIsNewIff(env, ar, n);
    TwoIds(PermissionGrants(env, ar, n));
  }

  lemma TwoIds(gs: seq<Grant>)
    requires |gs| == 2
    ensures IdsOf(gs) == {gs[0].id, gs[1].id}
  {
    assert gs[0] in gs && gs[1] in gs;
  }

  lemma {:induction false} RefsDiffer(env: Environment, ar: AccessRequest, n: nat)
    requires ar.token.Some? && n <= |ar.token.value.roleRefs|
    ensures DistinctIds(FirstRefs(env, ar, n))
  {
    if n > 0 {
      RefsDiffer(env, ar, n - 1);
      var before, g := FirstRefs(env, ar, n - 1), RefGrant(env, ar, n - 1);
      DistinctConcat(before, [g]);
      assert g.id.name == Generated(env, ar, "-r", n - 1);
      if g.id in IdsOf(before) {
        IdsOfRefs(env, ar, n - 1, g.id);
        var i :| 0 <= i < n - 1 && g.id.name == Generated(env, ar, "-r", i);
        GeneratedDiffer(env, ar, i, n - 1);
      }
    }
  }

  /** No permission has been given the id of the issuer's role. */
  predicate IssuerIsFree(env: Environment, ar: AccessRequest)
    requires ar.token.Some?
  {
    forall i :: 0 <= i < |ar.token.value.permissions| ==> RoleId(env, ar, i) != Id(Role, AccessNamespace(ar), IssuerName(env, ar))
  }

  lemma IssuerDiffersIff(env: Environment, ar: AccessRequest)
    requires ar.token.Some?
    ensures
      IdsOf(FirstPermissions(env, ar, |ar.token.value.permissions|)) !! IdsOf(IssuerGrants(env, ar)) <==> IssuerIsFree(env, ar)
  {
    hide Generated, RoleName;
    var n, gs := |ar.token.value.permissions|, IssuerGrants(env, ar);
    var ids := IdsOf(FirstPermissions(env, ar, n));
    assert gs[0] in gs && gs[1] in gs;
    assert gs[0].id == Id(Role, AccessNamespace(ar), IssuerName(env, ar));
    assert IdsOf(gs) == {gs[0].id, gs[1].id};
    forall i | 0 <= i < n ensures RoleId(env, ar, i) in ids {
      RolesAreThere(env, ar, n, i);
    }
    forall id | id in ids && id in IdsOf(gs) ensures exists i :: 0 <= i < n && id == gs[0].id == RoleId(env, ar, i) {
      IdsOfPermissions(env, ar, n, id);
      var i :| 0 <= i < n && (id == RoleId(env, ar, i) || (IsBinding(id) && id.name == Generated(env, ar, "-p", i)));
      GeneratedDiffer(env, ar, i, i);
      RolesAreNoBindings(env, ar, i);
    }
  }

  lemma RefsDifferFromOthers(env: Environment, ar: AccessRequest)
    requires ar.token.Some?
    ensures
      var refs := IdsOf(FirstRefs(env, ar, |ar.token.value.roleRefs|));
      refs !! IdsOf(FirstPermissions(env, ar, |ar.token.value.permissions|)) && refs !! IdsOf(IssuerGrants(env, ar))
  {
    hide Generated, RoleId;
    var n, m := |ar.token.value.permissions|, |ar.token.value.roleRefs|;
    forall id | id in IdsOf(FirstRefs(env, ar, m)) ensures id !in IdsOf(FirstPermissions(env, ar, n)) && id !in IdsOf(IssuerGrants(env, ar)) {
      IdsOfRefs(env, ar, m, id);
      var j :| 0 <= j < m && id.name == Generated(env, ar, "-r", j);
      GeneratedDiffer(env, ar, j, j);
      if id in IdsOf(FirstPermissions(env, ar, n)) {
        IdsOfPermissions(env, ar, n, id);
        var i :| 0 <= i < n && (id == RoleId(env, ar, i) || id.name == Generated(env, ar, "-p", i));
        RolesAreNoBindings(env, ar, i);
        GeneratedDiffer(env, ar, i, j);
      }
    }
  }

  /** What the user has to observe: in one namespace, no name is given twice, and none is given that is
      generated for a permission without a name or for the issuer. */
  predicate NamesDiffer(env: Environment, ar: AccessRequest)
    requires ar.token.Some?
  {
    var ps := ar.token.value.permissions;
    && (forall i, j :: 0 <= i < |ps| && 0 <= j < |ps| && i != j && ps[i].name != "" && ps[i].namespace == ps[j].namespace ==>
          ps[i].name != if ps[j].name == "" then Generated(env, ar, "-p", j) else ps[j].name)
    && (forall i :: 0 <= i < |ps| && ps[i].namespace == AccessNamespace(ar) ==> ps[i].name != IssuerName(env, ar))
  }

  lemma NamesDifferIffRolesDiffer(env: Environment, ar: AccessRequest)
    requires ar.token.Some?
    ensures NamesDiffer(env, ar) <==> RolesDiffer(env, ar, |ar.token.value.permissions|) && IssuerIsFree(env, ar)
  {
    hide Generated, IssuerName;
    var ps := ar.token.value.permissions;
    forall i, j | 0 <= i < |ps| && 0 <= j < |ps|
      ensures Generated(env, ar, "-p", i) == Generated(env, ar, "-p", j) ==> i == j
      ensures IssuerName(env, ar) != Generated(env, ar, "-p", i) && IssuerName(env, ar) != ""
    {
      GeneratedDiffer(env, ar, i, j);
      IssuerHasName(env, ar);
    }
    assert AccessNamespace(ar) != "";
    if NamesDiffer(env, ar) {
      forall i, j | 0 <= i < j < |ps| ensures RoleId(env, ar, i) != RoleId(env, ar, j) {
        assert ps[i].namespace == ps[j].namespace ==> RoleName(env, ar, i) != RoleName(env, ar, j);
      }
    }
    if RolesDiffer(env, ar, |ps|) && IssuerIsFree(env, ar) {
      forall i, j | 0 <= i < |ps| && 0 <= j < |ps| && i != j && ps[i].name != "" && ps[i].namespace == ps[j].namespace
        ensures ps[i].name != if ps[j].name == "" then Generated(env, ar, "-p", j) else ps[j].name
      {
        assert RoleId(env, ar, if i < j then i else j) != RoleId(env, ar, if i < j then j else i);
      }
      forall i | 0 <= i < |ps| && ps[i].namespace == AccessNamespace(ar) ensures ps[i].name != IssuerName(env, ar) {
        assert RoleId(env, ar, i) != Id(Role, AccessNamespace(ar), IssuerName(env, ar));
      }
    }
  }

  lemma IssuerHasName(env: Environment, ar: AccessRequest)
    requires ar.token.Some?
    ensures IssuerName(env, ar) != ""
  {
  }

  /** The grants have different ids exactly if the names that the user gives to permissions are different from
      each other and from the generated ones. */
  lemma DistinctIdsIff(env: Environment, ar: AccessRequest)
    requires ValidSpec(ar)
    ensures DistinctIds(Grants(env, ar)) <==> NamesDiffer(env, ar)
  {
    hide NamesDiffer, IssuerGrants, RolesDiffer, IssuerIsFree, DistinctIds, IdsOf;
    var n, m := |ar.token.value.permissions|, |ar.token.value.roleRefs|;
    var permissions, refs, issuer := FirstPermissions(env, ar, n), FirstRefs(env, ar, m), IssuerGrants(env, ar);
    DistinctConcat(permissions + refs, issuer);
    DistinctConcat(permissions, refs);
    IdsOfBoth(permissions, refs);
    PermissionsDifferIff(env, ar, n);
    RefsDiffer(env, ar, m);
    RefsDifferFromOthers(env, ar);
    IssuerDiffersIff(env, ar);
    IssuerGrantsDiffer(env, ar);
    NamesDifferIffRolesDiffer(env, ar);
  }

  lemma IdsOfBoth(a: seq<Grant>, b: seq<Grant>)
    ensures IdsOf(a + b) == IdsOf(a) + IdsOf(b)
  {
    forall id ensures id in IdsOf(a + b) <==> id in IdsOf(a) + IdsOf(b) {
      if id in IdsOf(a) {
        var g :| g in a && g.id == id;
        assert g in a + b;
      }
      if id in IdsOf(b) {
        var g :| g in b && g.id == id;
        assert g in a + b;
      }
    }
  }

  lemma IssuerGrantsDiffer(env: Environment, ar: AccessRequest)
    requires ar.token.Some?
    ensures DistinctIds(IssuerGrants(env, ar))
  {
  }
}
