/** What access a ControlPlane is given, in terms of the fields of the ControlPlane and the configuration. */
module ControlPlaneWishes {
  import opened Kube
  import opened ControlPlaneAccess

  // ---------- which providers are desired ----------

  /** The default provider is configured, and the ControlPlane has role bindings for it. */
  predicate UsesDefault(env: Environment) {
    env.defaultProvider.Some? && env.cp.oidc.Some? && env.cp.oidc.value.defaultBindings != []
  }

  function ExtraProviders(env: Environment): seq<Provider> {
    if env.cp.oidc.Some? then env.cp.oidc.value.extraProviders else []
  }

  /** A ControlPlane is given access for the default provider, for its extra providers and for its tokens, and for
      nothing else. One that is being deleted is given none. */
  lemma DesiredIff(env: Environment, p: string)
    ensures
      p in Desired(env) <==>
      && !env.cp.deleting
      && (|| (UsesDefault(env) && p == "oidc_openmcp")
          || (exists x :: x in ExtraProviders(env) && p == "oidc_" + x.name)
          || (exists t :: t in env.cp.tokens && p == "token_" + t.name))
  {
    hide Wishes, NameOf, UsesDefault, DefaultWish, ExtraProviders;
    if !env.cp.deleting {
      DefaultIsNamed(env);
      if UsesDefault(env) {
        WishedIsDesired(env, DefaultWish(env));
      }
      forall x | x in ExtraProviders(env) ensures "oidc_" + x.name in Desired(env) {
        WishedIsDesired(env, WishOidc(x));
      }
      forall t | t in env.cp.tokens ensures "token_" + t.name in Desired(env) {
        WishedIsDesired(env, WishToken(t));
      }
      if p in Desired(env) {
        DesiredIsWished(env, p);
      }
    } else {
      DeletedDesiresNothing(env);
    }
  }

  lemma DeletedDesiresNothing(env: Environment)
    requires env.cp.deleting
    ensures Desired(env) == {}
  {
  }

  lemma DefaultIsNamed(env: Environment)
    ensures NameOf(DefaultWish(env)) == "oidc_openmcp"
  {
    assert "oidc_" + "openmcp" == "oidc_openmcp";
  }

  predicate Wished(env: Environment, w: Wish) {
    || (UsesDefault(env) && w == DefaultWish(env))
    || (w.WishOidc? && w.provider in ExtraProviders(env))
    || (w.WishToken? && w.token in env.cp.tokens)
  }

  lemma WishedIsDesired(env: Environment, w: Wish)
    requires !env.cp.deleting && Wished(env, w)
    ensures NameOf(w) in Desired(env)
    ensures NameOf(w) == if w.WishOidc? then "oidc_" + w.provider.name else "token_" + w.token.name
  {
    hide Wished, Wishes, DefaultWish;
    WishesIn(env, w);
  }

  lemma DesiredIsWished(env: Environment, p: string)
    requires !env.cp.deleting && p in Desired(env)
    ensures || (UsesDefault(env) && p == "oidc_openmcp")
            || (exists x :: x in ExtraProviders(env) && p == "oidc_" + x.name)
            || (exists t :: t in env.cp.tokens && p == "token_" + t.name)
  {
    hide Wishes, UsesDefault, DefaultWish, ExtraProviders;
    DefaultIsNamed(env);
    var w :| w in Wishes(env) && NameOf(w) == p;
    WishesIn(env, w);
  }

  function DefaultWish(env: Environment): Wish {
    WishOidc(Provider("openmcp", if env.defaultProvider.Some? then env.defaultProvider.value else "",
                      if env.cp.oidc.Some? then env.cp.oidc.value.defaultBindings else []))
  }

  /** The place of the first extra provider among the wishes. */
  function FirstExtra(env: Environment): nat {
    if UsesDefault(env) then 1 else 0
  }

  /** How many OIDC providers are wished for, and which one comes first. */
  lemma OidcWishesAre(env: Environment)
    ensures |OidcWishes(env)| == FirstExtra(env) + |ExtraProviders(env)|
    ensures UsesDefault(env) ==> OidcWishes(env)[0] == DefaultWish(env)
  {
  }

  lemma ExtraWishIs(env: Environment, i: nat)
    requires i < |ExtraProviders(env)|
    ensures |OidcWishes(env)| == FirstExtra(env) + |ExtraProviders(env)|
    ensures OidcWishes(env)[FirstExtra(env) + i] == WishOidc(ExtraProviders(env)[i])
  {
    OidcWishesAre(env);
  }

  /** The default provider comes first, then the extra providers, then the tokens. */
  lemma WishesAre(env: Environment)
    requires !env.cp.deleting
    ensures
      var ws, xs, base := Wishes(env), ExtraProviders(env), FirstExtra(env);
      && |ws| == base + |xs| + |env.cp.tokens|
      && (UsesDefault(env) ==> ws[0] == DefaultWish(env))
      && (forall i :: 0 <= i < |xs| ==> ws[base + i] == WishOidc(xs[i]))
      && (forall i :: 0 <= i < |env.cp.tokens| ==> ws[base + |xs| + i] == WishToken(env.cp.tokens[i]))
  {
    hide OidcWishes, UsesDefault, DefaultWish, ExtraProviders;
    var xs, base := ExtraProviders(env), FirstExtra(env);
    OidcWishesAre(env);
    forall i | 0 <= i < |xs| ensures Wishes(env)[base + i] == WishOidc(xs[i]) {
      ExtraWishIs(env, i);
    }
  }

  lemma WishesIn(env: Environment, w: Wish)
    requires !env.cp.deleting
    ensures w in Wishes(env) <==> Wished(env, w)
  {
    hide Wishes, UsesDefault, DefaultWish, ExtraProviders;
    var ws, xs, ts, base := Wishes(env), ExtraProviders(env), env.cp.tokens, FirstExtra(env);
    WishesAre(env);
    if w.WishOidc? && w.provider in xs {
      var i :| 0 <= i < |xs| && xs[i] == w.provider;
      assert ws[base + i] == w;
    }
    if w.WishToken? && w.token in ts {
      var i :| 0 <= i < |ts| && ts[i] == w.token;
      assert ws[base + |xs| + i] == w;
    }
    if w in ws {
      var i :| 0 <= i < |ws| && ws[i] == w;
      if base <= i < base + |xs| {
        assert w == ws[base + (i - base)] == WishOidc(xs[i - base]);
      } else if base + |xs| <= i {
        assert w == ws[base + |xs| + (i - base - |xs|)] == WishToken(ts[i - base - |xs|]);
      }
    }
  }

  // ---------- what their AccessRequests contain ----------

  /** The AccessRequest is labelled as one of the ControlPlane and refers to its ClusterRequest. */
  predicate BelongsTo(env: Environment, ar: AccessRequest) {
    && HasLabel(ar.labels, "core.openmcp.cloud/mcp-name", env.cp.name)
    && HasLabel(ar.labels, "core.openmcp.cloud/mcp-namespace", env.cp.namespace)
    && HasLabel(ar.labels, "openmcp.cloud/managed-by", "ManagedControlPlane")
    && ar.spec.request == env.request
  }

  predicate GivesOidc(env: Environment, ar: AccessRequest, p: Provider) {
    BelongsTo(env, ar) && ar.spec.oidc == Some(p) && HasLabel(ar.labels, "core.openmcp.cloud/oidc-provider", p.name)
  }

  predicate GivesToken(env: Environment, ar: AccessRequest, t: Provider) {
    BelongsTo(env, ar) && ar.spec.token == Some(t) && HasLabel(ar.labels, "core.openmcp.cloud/token-provider", t.name)
  }

  predicate Gives(env: Environment, ar: AccessRequest, w: Wish) {
    match w
    case WishOidc(p) => GivesOidc(env, ar, p)
    case WishToken(t) => GivesToken(env, ar, t)
  }

  lemma WishIsGiven(env: Environment, existing: Option<AccessRequest>, w: Wish)
    ensures Gives(env, WithWish(env, existing, w), w)
    ensures
      var ar := WithWish(env, existing, w);
      match existing
      case None =>
        && ar.finalizers == [] && !ar.deleting && !ar.spec.granted && ar.spec.secret.None?
        && (if w.WishOidc? then ar.spec.token.None? else ar.spec.oidc.None?)
      case Some(o) =>
        && ar.finalizers == o.finalizers && ar.deleting == o.deleting && ar.spec.granted == o.spec.granted && ar.spec.secret == o.spec.secret
        && (if w.WishOidc? then ar.spec.token == o.spec.token else ar.spec.oidc == o.spec.oidc)
  {
    DistinctLabels();
    assert MCP_NAME_LABEL == "core.openmcp.cloud/mcp-name" && MCP_NAMESPACE_LABEL == "core.openmcp.cloud/mcp-namespace";
    assert OIDC_PROVIDER_LABEL == "core.openmcp.cloud/oidc-provider" && TOKEN_PROVIDER_LABEL == "core.openmcp.cloud/token-provider";
    assert MANAGED_BY_LABEL == "openmcp.cloud/managed-by" && CONTROLLER_NAME == "ManagedControlPlane";
  }

  /** The last wish for a provider decides. */
  lemma {:induction false} LastWishIsServed(env: Environment, accesses: map<string, AccessRequest>, ws: seq<Wish>, n: nat, j: nat)
    requires j < n <= |ws| && forall i :: j < i < n ==> NameOf(ws[i]) != NameOf(ws[j])
    ensures var updated := Serve(env, accesses, ws, n).1; NameOf(ws[j]) in updated && Gives(env, updated[NameOf(ws[j])], ws[j])
  {
    hide Gives;
    if j == n - 1 {
      WishIsGiven(env, At(Serve(env, accesses, ws, n - 1).0, env.accessName(NameOf(ws[j]))), ws[j]);
    } else {
      LastWishIsServed(env, accesses, ws, n - 1, j);
    }
  }

  /** After a ready result the wish has an AccessRequest that can be used. */
  predicate IsGiven(env: Environment, w: World, x: Wish) {
    && env.accessName(NameOf(x)) in w.accesses
    && var ar := w.accesses[env.accessName(NameOf(x))];
    Gives(env, ar, x) && ar.spec.granted && ar.spec.secret.Some? && (ar.spec.oidc.None? || ar.spec.token.None?)
  }

  lemma ReadyGives(env: Environment, platform: map<string, string>, w: World, synced: World, end: World, j: nat)
    requires ReadyPhases(env, platform, w, synced, end) && Orderly(env, w)
    requires j < |Wishes(env)| && forall i :: j < i < |Wishes(env)| ==> NameOf(Wishes(env)[i]) != NameOf(Wishes(env)[j])
    ensures IsGiven(env, end, Wishes(env)[j])
  {
    hide Gives, Orderly, Listed;
    var ws, p := Wishes(env), NameOf(Wishes(env)[j]);
    var (served, updated) := AllWishesServed(env, w);
    LastWishIsServed(env, w.accesses, ws, |ws|, j);
    ReadyDeletesNothing(env, platform, w, synced, end);
    AlignedIsGood(env, w);
    assert p in Desired(env) && ServedAs(env, p, served, updated[p]) && StandsFor(env, updated[p], p);
    assert Usable(updated[p]);
  }

  /** A later wish that is not for an OIDC provider of this name has another name. */
  lemma OtherName(env: Environment, j: nat, name: string)
    requires !env.cp.deleting && FirstExtra(env) <= j < |Wishes(env)|
    requires j - FirstExtra(env) < |ExtraProviders(env)| ==> ExtraProviders(env)[j - FirstExtra(env)].name != name
    ensures NameOf(Wishes(env)[j]) != "oidc_" + name
  {
    WishesAre(env);
    var w := Wishes(env)[j];
    if w.WishToken? {
      PrefixesDiffer(name, w.token.name);
    } else {
      var i := j - FirstExtra(env);
      assert i < |ExtraProviders(env)|;
      assert w == WishOidc(ExtraProviders(env)[i]);
      PrefixInjective(OIDC_PREFIX, w.provider.name, name);
    }
  }

  lemma ReadyGivesDefault(env: Environment, platform: map<string, string>, w: World, synced: World, end: World)
    requires ReadyPhases(env, platform, w, synced, end) && Orderly(env, w) && !env.cp.deleting
    requires UsesDefault(env) && forall x :: x in ExtraProviders(env) ==> x.name != "openmcp"
    ensures IsGiven(env, end, DefaultWish(env))
  {
    hide IsGiven, ReadyPhases, Orderly, Wishes;
    var ws := Wishes(env);
    WishesAre(env);
    forall i | 0 < i < |ws| ensures NameOf(ws[i]) != NameOf(ws[0]) {
      OtherName(env, i, "openmcp");
    }
    ReadyGives(env, platform, w, synced, end, 0);
  }

  lemma ReadyGivesExtra(env: Environment, platform: map<string, string>, w: World, synced: World, end: World, i: nat)
    requires ReadyPhases(env, platform, w, synced, end) && Orderly(env, w) && !env.cp.deleting
    requires var xs := ExtraProviders(env); i < |xs| && forall j :: i < j < |xs| ==> xs[j].name != xs[i].name
    ensures IsGiven(env, end, WishOidc(ExtraProviders(env)[i]))
  {
    hide IsGiven, ReadyPhases, Orderly, Wishes;
    var xs, base, ws := ExtraProviders(env), FirstExtra(env), Wishes(env);
    WishesAre(env);
    forall j | base + i < j < |ws| ensures NameOf(ws[j]) != NameOf(ws[base + i]) {
      assert j < base + |xs| ==> xs[j - base].name != xs[i].name;
      OtherName(env, j, xs[i].name);
    }
    ReadyGives(env, platform, w, synced, end, base + i);
  }

  lemma ReadyGivesTokenOf(env: Environment, platform: map<string, string>, w: World, synced: World, end: World, i: nat)
    requires ReadyPhases(env, platform, w, synced, end) && Orderly(env, w) && !env.cp.deleting
    requires var ts := env.cp.tokens; i < |ts| && forall j :: i < j < |ts| ==> ts[j].name != ts[i].name
    ensures IsGiven(env, end, WishToken(env.cp.tokens[i]))
  {
    hide IsGiven, ReadyPhases, Orderly, Wishes;
    var ts, ws := env.cp.tokens, Wishes(env);
    var first := FirstExtra(env) + |ExtraProviders(env)|;
    WishesAre(env);
    forall j | first + i < j < |ws| ensures NameOf(ws[j]) != NameOf(ws[first + i]) {
      assert ws[j] == WishToken(ts[j - first]);
      PrefixInjective(TOKEN_PREFIX, ts[j - first].name, ts[i].name);
    }
    ReadyGives(env, platform, w, synced, end, first + i);
  }

  /** A ready result means that every provider of the ControlPlane has a usable AccessRequest with exactly its
      configuration and bindings, which refers to the ControlPlane's ClusterRequest: the default provider, unless
      it is overridden by an extra one of this name, and of several extra providers or tokens of one name the
      last one. */
  lemma ReadyGivesConfiguration(env: Environment, platform: map<string, string>, w: World, synced: World, end: World)
    requires ReadyPhases(env, platform, w, synced, end) && Orderly(env, w) && !env.cp.deleting
    ensures
      var xs, ts := ExtraProviders(env), env.cp.tokens;
      && (UsesDefault(env) && (forall x :: x in xs ==> x.name != "openmcp") ==> IsGiven(env, end, DefaultWish(env)))
      && (forall i :: 0 <= i < |xs| && (forall j :: i < j < |xs| ==> xs[j].name != xs[i].name) ==> IsGiven(env, end, WishOidc(xs[i])))
      && (forall i :: 0 <= i < |ts| && (forall j :: i < j < |ts| ==> ts[j].name != ts[i].name) ==> IsGiven(env, end, WishToken(ts[i])))
  {
    hide IsGiven, ReadyPhases, Orderly, Wishes, UsesDefault, DefaultWish;
    var xs, ts := ExtraProviders(env), env.cp.tokens;
    if UsesDefault(env) && forall x :: x in xs ==> x.name != "openmcp" {
      ReadyGivesDefault(env, platform, w, synced, end);
    }
    forall i | 0 <= i < |xs| && (forall j :: i < j < |xs| ==> xs[j].name != xs[i].name) ensures IsGiven(env, end, WishOidc(xs[i])) {
      ReadyGivesExtra(env, platform, w, synced, end, i);
    }
    forall i | 0 <= i < |ts| && (forall j :: i < j < |ts| ==> ts[j].name != ts[i].name) ensures IsGiven(env, end, WishToken(ts[i])) {
      ReadyGivesTokenOf(env, platform, w, synced, end, i);
    }
  }

  // ---------- which objects are the ControlPlane's ----------

  /** The labels are those of the ControlPlane and of at least one provider. */
  predicate IsOf(env: Environment, labels: Labels) {
    && At(labels, "core.openmcp.cloud/mcp-name") == Some(env.cp.name)
    && At(labels, "core.openmcp.cloud/mcp-namespace") == Some(env.cp.namespace)
    && At(labels, "openmcp.cloud/managed-by") == Some("ManagedControlPlane")
    && ("core.openmcp.cloud/oidc-provider" in labels || "core.openmcp.cloud/token-provider" in labels)
  }

  lemma ListedIff(env: Environment, labels: Labels)
    ensures Listed(env, labels) <==> IsOf(env, labels)
  {
    AgreedLabels();
  }

  lemma AgreedLabels()
    ensures MCP_NAME_LABEL == "core.openmcp.cloud/mcp-name" && MCP_NAMESPACE_LABEL == "core.openmcp.cloud/mcp-namespace"
    ensures OIDC_PROVIDER_LABEL == "core.openmcp.cloud/oidc-provider" && TOKEN_PROVIDER_LABEL == "core.openmcp.cloud/token-provider"
    ensures MANAGED_BY_LABEL == "openmcp.cloud/managed-by" && CONTROLLER_NAME == "ManagedControlPlane"
  {
  }

  /** A secret stands for the one provider that its labels name; with none or two it stands for nobody. */
  predicate StandsForOidc(s: Secret, name: string) {
    && name != "" && At(s.labels, "core.openmcp.cloud/oidc-provider") == Some(name)
    && At(s.labels, "core.openmcp.cloud/token-provider") in {None, Some("")}
  }

  predicate StandsForToken(s: Secret, name: string) {
    && name != "" && At(s.labels, "core.openmcp.cloud/token-provider") == Some(name)
    && At(s.labels, "core.openmcp.cloud/oidc-provider") in {None, Some("")}
  }

  lemma ProviderOfSecretIff(s: Secret, name: string)
    ensures ProviderOfSecret(s) == Some("oidc_" + name) <==> StandsForOidc(s, name)
    ensures ProviderOfSecret(s) == Some("token_" + name) <==> StandsForToken(s, name)
  {
    AgreedLabels();
    assert OIDC_PREFIX == "oidc_" && TOKEN_PREFIX == "token_";
    var oidc, token := LabelOf(s.labels, OIDC_PROVIDER_LABEL), LabelOf(s.labels, TOKEN_PROVIDER_LABEL);
    PrefixesDiffer(oidc, name);
    PrefixesDiffer(name, token);
    PrefixInjective(OIDC_PREFIX, oidc, name);
    PrefixInjective(TOKEN_PREFIX, token, name);
  }

  /** Converged access in plain terms: each desired provider has a granted AccessRequest, a copy of its secret
      under the name that is made of the provider and the ControlPlane, and a reference to this copy. */
  lemma ConvergedGivesCredentials(env: Environment, platform: map<string, string>, w: World, p: string)
    requires Converged(env, platform, w) && p in Desired(env)
    ensures
      var n := env.shorten(Dashed(p) + "." + env.cp.name) + ".kubeconfig";
      && At(w.status, p) == Some(n) && n in w.secrets && env.accessName(p) in w.accesses
      && var s, ar := w.secrets[n], w.accesses[env.accessName(p)];
      && IsOf(env, s.labels) && ProviderOfSecret(s) == Some(p)
      && IsOf(env, ar.labels) && ar.spec.granted && ar.spec.secret.Some? && At(platform, ar.spec.secret.value) == Some(s.spec)
  {
    hide Desired, Listed, Dashed, IsOf;
    assert ProviderConverged(env, platform, w, p);
    assert SECRET_SUFFIX == ".kubeconfig";
    ListedIff(env, w.secrets[SecretName(env, p)].labels);
    ListedIff(env, w.accesses[env.accessName(p)].labels);
  }

  /** And there is nothing else: all other AccessRequests and secrets of the ControlPlane are gone, and so are
      references. */
  lemma ConvergedGivesNothingElse(env: Environment, platform: map<string, string>, w: World, n: string)
    requires Converged(env, platform, w)
    ensures n in w.accesses && IsOf(env, w.accesses[n].labels) ==> ProviderOf(w.accesses[n]) in Desired(env)
    ensures n in w.secrets && IsOf(env, w.secrets[n].labels) && ProviderOfSecret(w.secrets[n]).Some? ==>
              ProviderOfSecret(w.secrets[n]).value in Desired(env)
    ensures n in w.status ==> n in Desired(env)
  {
    hide Desired, Listed, IsOf, ProviderOf, ProviderOfSecret;
    if n in w.accesses {
      ListedIff(env, w.accesses[n].labels);
      assert n !in UndesiredAccesses(env, w.accesses, Desired(env));
    }
    if n in w.secrets {
      ListedIff(env, w.secrets[n].labels);
      assert n !in UndesiredSecrets(env, w.secrets, Desired(env));
    }
  }

  /** The provider that an AccessRequest stands for, if it has one configuration only. */
  lemma ProviderOfIs(env: Environment, ar: AccessRequest, name: string)
    ensures ar.spec.token.None? && ar.spec.oidc.Some? ==> ProviderOf(ar) == "oidc_" + ar.spec.oidc.value.name
    ensures ar.spec.token.Some? && At(ar.labels, "core.openmcp.cloud/token-provider") == Some(name) ==> ProviderOf(ar) == "token_" + name
  {
    AgreedLabels();
    assert OIDC_PREFIX == "oidc_" && TOKEN_PREFIX == "token_";
  }

  lemma {:induction false} DashedAt(s: string, i: nat)
    requires i < |s|
    ensures Dashed(s)[i] == if s[i] == '_' then '-' else s[i]
  {
    if i > 0 {
      DashedAt(s[1..], i - 1);
    }
  }

  // ---------- what a pass leaves alone ----------

  /** The object is marked, or gone if nobody held it. */
  ghost predicate IsDeleted<S>(o: Object<S>, o': Option<Object<S>>) {
    if o'.None? then o.finalizers == [] else o'.value == o.(deleting := true)
  }

  lemma UndesiredIff(env: Environment, accesses: map<string, AccessRequest>, secrets: map<string, Secret>, desired: set<string>, n: string)
    ensures n in UndesiredAccesses(env, accesses, desired) <==>
              n in accesses && IsOf(env, accesses[n].labels) && ProviderOf(accesses[n]) !in desired
    ensures n in UndesiredSecrets(env, secrets, desired) <==>
              n in secrets && IsOf(env, secrets[n].labels) && ProviderOfSecret(secrets[n]).Some? && ProviderOfSecret(secrets[n]).value !in desired
  {
    hide Listed, IsOf;
    if n in accesses {
      ListedIff(env, accesses[n].labels);
    }
    if n in secrets {
      ListedIff(env, secrets[n].labels);
    }
  }

  lemma {:induction false} ServingElsewhere(env: Environment, accesses: map<string, AccessRequest>, ws: seq<Wish>, n: nat, x: string)
    requires n <= |ws| && forall j :: 0 <= j < n ==> env.accessName(NameOf(ws[j])) != x
    ensures At(Serve(env, accesses, ws, n).0, x) == At(accesses, x)
  {
    if n > 0 {
      ServingElsewhere(env, accesses, ws, n - 1, x);
    }
  }

  /** The name belongs to a provider that is desired. */
  ghost predicate IsWanted(env: Environment, n: string) {
    exists p :: p in Desired(env) && env.accessName(p) == n
  }

  lemma ServingOnlyWanted(env: Environment, accesses: map<string, AccessRequest>, n: nat, x: string)
    requires n <= |Wishes(env)| && !IsWanted(env, x)
    ensures At(Serve(env, accesses, Wishes(env), n).0, x) == At(accesses, x)
  {
    forall j | 0 <= j < n ensures env.accessName(NameOf(Wishes(env)[j])) != x {
      assert NameOf(Wishes(env)[j]) in Desired(env);
    }
    ServingElsewhere(env, accesses, Wishes(env), n, x);
  }

  /** Wherever a pass stops: an AccessRequest whose name does not belong to a desired provider is left alone,
      unless it is the ControlPlane's and for a provider that is not desired. Then it may be deleted. */
  lemma OnlyUndesiredAreDeleted(env: Environment, platform: map<string, string>, w: World, w': World, n: string)
    requires PassStep(env, platform, w, w') && !IsWanted(env, n) && At(w'.accesses, n) != At(w.accesses, n)
    ensures
      && n in w.accesses && IsOf(env, w.accesses[n].labels) && ProviderOf(w.accesses[n]) !in Desired(env)
      && IsDeleted(w.accesses[n], At(w'.accesses, n))
  {
    hide Desired, UndesiredAccesses, UndesiredSecrets, IsOf, Serve, Wishes, SyncProgress, IsWanted, ProviderOf;
    var stop :| StoppedAt(env, platform, w, w', stop);
    var served := AllWishesServed(env, w).0;
    ServingOnlyWanted(env, w.accesses, |Wishes(env)|, n);
    if stop.Serving? {
      ServingOnlyWanted(env, w.accesses, stop.n, n);
      assert false;
    }
    AccessesOfStop(env, platform, w, w', stop, n);
    UndesiredIff(env, served, map[], Desired(env), n);
  }

  lemma AccessesOfStop(env: Environment, platform: map<string, string>, w: World, w': World, stop: Stop, n: string)
    requires StoppedAt(env, platform, w, w', stop) && !stop.Serving?
    ensures
      var served := AllWishesServed(env, w).0;
      At(w'.accesses, n) != At(served, n) ==>
        n in UndesiredAccesses(env, served, Desired(env)) && n in served && IsDeleted(served[n], At(w'.accesses, n))
  {
    hide Desired, UndesiredAccesses, UndesiredSecrets, Serve, Wishes;
  }

  /** The name of the secret belongs to a provider that is desired. */
  ghost predicate IsWantedSecret(env: Environment, n: string) {
    exists p :: p in Desired(env) && n == env.shorten(Dashed(p) + "." + env.cp.name) + ".kubeconfig"
  }

  /** The same for secrets. */
  lemma OnlyUndesiredSecretsAreDeleted(env: Environment, platform: map<string, string>, w: World, w': World, n: string)
    requires PassStep(env, platform, w, w') && !IsWantedSecret(env, n) && At(w'.secrets, n) != At(w.secrets, n)
    ensures
      && n in w.secrets && IsOf(env, w.secrets[n].labels)
      && ProviderOfSecret(w.secrets[n]).Some? && ProviderOfSecret(w.secrets[n]).value !in Desired(env)
      && IsDeleted(w.secrets[n], At(w'.secrets, n))
  {
    hide Desired, UndesiredAccesses, UndesiredSecrets, IsOf, Serve, Wishes, SyncProgress, IsWantedSecret, ProviderOfSecret;
    var stop :| StoppedAt(env, platform, w, w', stop);
    var updated := AllWishesServed(env, w).1;
    if stop.Syncing? {
      SyncedElsewhere(env, stop.done, updated, platform, Aligned(env, w), w', n);
    } else if !stop.Serving? && !stop.DeletingAccesses? {
      SyncedElsewhere(env, Desired(env), updated, platform, Aligned(env, w), stop.synced, n);
      UndesiredIff(env, map[], stop.synced.secrets, Desired(env), n);
    }
  }

  lemma SyncedElsewhere(env: Environment, done: set<string>, updated: map<string, AccessRequest>, platform: map<string, string>,
                        before: World, w: World, n: string)
    requires SyncProgress(env, done, updated, platform, before, w) && done <= Desired(env) && !IsWantedSecret(env, n)
    ensures At(w.secrets, n) == At(before.secrets, n)
  {
    hide Desired, CopyLabels, NoClash, AllCopied, StatusBacked, WellNamedSecrets, Syncable;
    assert SECRET_SUFFIX == ".kubeconfig";
    assert forall p :: p in done ==> SecretName(env, p) != n;
  }

  /** A granted AccessRequest refers to a secret that is not there. */
  lemma MissesSecretIff(updated: map<string, AccessRequest>, platform: map<string, string>)
    ensures MissesSecret(updated, platform) <==>
              exists p :: p in updated && updated[p].spec.granted && updated[p].spec.secret.Some?
                          && At(platform, updated[p].spec.secret.value) == None
  {
    if p :| p in updated && updated[p].spec.granted && updated[p].spec.secret.Some? && At(platform, updated[p].spec.secret.value) == None {
      assert Usable(updated[p]);
    }
  }

  /** A copied secret has the content of the original, and the labels of ControlPlane and provider. A new one is
      alive and held by nobody; nothing else is changed on one that is there. */
  lemma CopyIs(env: Environment, existing: Option<Secret>, ar: AccessRequest, data: string)
    ensures
      var s := CopiedSecret(env, existing, ar, data);
      && s.spec == data
      && (if existing.None? then s.finalizers == [] && !s.deleting
          else s.finalizers == existing.value.finalizers && s.deleting == existing.value.deleting && s.annotations == existing.value.annotations)
      && (existing.None? && ar.spec.oidc.Some? && ar.spec.token.None? && ar.spec.oidc.value.name != "" ==>
            StandsForOidc(s, ar.spec.oidc.value.name))
      && (existing.None? && ar.spec.oidc.None? && ar.spec.token.Some? && At(ar.labels, "core.openmcp.cloud/token-provider") !in {None, Some("")} ==>
            StandsForToken(s, ar.labels["core.openmcp.cloud/token-provider"]))
  {
    AgreedLabels();
    DistinctLabels();
  }
}
