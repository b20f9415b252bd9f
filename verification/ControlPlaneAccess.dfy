/** Access to a ControlPlane: AccessRequests on the platform cluster, copies of their secrets on the
    onboarding cluster, and the references to these in the ControlPlane's status, in four phases. */
module ControlPlaneAccess {
  import opened Kube

  const MCP_NAME_LABEL := "core.openmcp.cloud/mcp-name"
  const MCP_NAMESPACE_LABEL := "core.openmcp.cloud/mcp-namespace"
  const OIDC_PROVIDER_LABEL := "core.openmcp.cloud/oidc-provider"
  const TOKEN_PROVIDER_LABEL := "core.openmcp.cloud/token-provider"
  const MANAGED_BY_LABEL := "openmcp.cloud/managed-by"
  const CONTROLLER_NAME := "ManagedControlPlane"
  const DEFAULT_PROVIDER := "openmcp"
  const OIDC_PREFIX := "oidc_"
  const TOKEN_PREFIX := "token_"
  const SECRET_SUFFIX := ".kubeconfig"
  const MAX_NAME_LENGTH := 63

  datatype Provider = Provider(name: string, config: string, bindings: seq<string>)

  datatype Oidc = Oidc(defaultBindings: seq<string>, extraProviders: seq<Provider>)

  datatype ControlPlane = ControlPlane(name: string, namespace: string, deleting: bool, oidc: Option<Oidc>, tokens: seq<Provider>)

  datatype AccessData = AccessData(oidc: Option<Provider>, token: Option<Provider>, request: Option<Key>, granted: bool, secret: Option<string>)

  /** AccessRequests and secrets are identified by their names; each kind is in one namespace. */
  type AccessRequest = Object<AccessData>
  type Secret = Object<string>

  /** The ControlPlane, the configured default provider, the ClusterRequest (there is none during deletion),
      the hash that names AccessRequests, and the function that shortens names of secrets. */
  datatype Environment = Environment(
    cp: ControlPlane, defaultProvider: Option<string>, request: Option<Key>,
    accessName: string -> string, shorten: string -> string)

  datatype World = World(accesses: map<string, AccessRequest>, secrets: map<string, Secret>, status: map<string, string>)

  // ---------- what is desired ----------

  datatype Wish = WishOidc(provider: Provider) | WishToken(token: Provider)

  function NameOf(w: Wish): string {
    match w
    case WishOidc(p) => OIDC_PREFIX + p.name
    case WishToken(t) => TOKEN_PREFIX + t.name
  }

  function OidcWishes(env: Environment): seq<Wish> {
    if env.cp.oidc.None? then []
    else
      var extra := env.cp.oidc.value.extraProviders;
      (if env.defaultProvider.Some? && env.cp.oidc.value.defaultBindings != []
       then [WishOidc(Provider(DEFAULT_PROVIDER, env.defaultProvider.value, env.cp.oidc.value.defaultBindings))] else [])
      + seq(|extra|, i requires 0 <= i < |extra| => WishOidc(extra[i]))
  }

  /** A ControlPlane that is being deleted wishes for nothing. */
  function Wishes(env: Environment): seq<Wish> {
    if env.cp.deleting then []
    else OidcWishes(env) + seq(|env.cp.tokens|, i requires 0 <= i < |env.cp.tokens| => WishToken(env.cp.tokens[i]))
  }

  function NamesOf(ws: seq<Wish>): set<string> {
    set w | w in ws :: NameOf(w)
  }

  function Desired(env: Environment): set<string> {
    NamesOf(Wishes(env))
  }

  // ---------- objects ----------

  function WithOwnLabels(env: Environment, labels: Labels): Labels {
    labels[MCP_NAME_LABEL := env.cp.name][MCP_NAMESPACE_LABEL := env.cp.namespace][MANAGED_BY_LABEL := CONTROLLER_NAME]
  }

  predicate HasLabel(labels: Labels, k: string, v: string) {
    k in labels && labels[k] == v
  }

  predicate Owned(env: Environment, labels: Labels) {
    && HasLabel(labels, MCP_NAME_LABEL, env.cp.name) && HasLabel(labels, MCP_NAMESPACE_LABEL, env.cp.namespace)
    && HasLabel(labels, MANAGED_BY_LABEL, CONTROLLER_NAME)
  }

  /** The four kinds of labels do not get in each other's way. */
  lemma DistinctLabels()
    ensures MCP_NAME_LABEL != MCP_NAMESPACE_LABEL && MCP_NAME_LABEL != OIDC_PROVIDER_LABEL && MCP_NAME_LABEL != TOKEN_PROVIDER_LABEL
    ensures MCP_NAMESPACE_LABEL != OIDC_PROVIDER_LABEL && MCP_NAMESPACE_LABEL != TOKEN_PROVIDER_LABEL
    ensures OIDC_PROVIDER_LABEL != TOKEN_PROVIDER_LABEL
    ensures MANAGED_BY_LABEL !in {MCP_NAME_LABEL, MCP_NAMESPACE_LABEL, OIDC_PROVIDER_LABEL, TOKEN_PROVIDER_LABEL}
  {
    assert |MCP_NAME_LABEL| == 27 && |MCP_NAMESPACE_LABEL| == 32 && |OIDC_PROVIDER_LABEL| == 32 && |TOKEN_PROVIDER_LABEL| == 33;
    assert |MANAGED_BY_LABEL| == 24;
    assert MCP_NAMESPACE_LABEL[19] == 'm' && OIDC_PROVIDER_LABEL[19] == 'o';
  }

  /** The object is found when the ControlPlane's objects are listed. */
  predicate Listed(env: Environment, labels: Labels) {
    Owned(env, labels) && (OIDC_PROVIDER_LABEL in labels || TOKEN_PROVIDER_LABEL in labels)
  }

  function LabelOf(labels: Labels, k: string): string {
    if k in labels then labels[k] else ""
  }

  /** The provider that an AccessRequest stands for. */
  function ProviderOf(ar: AccessRequest): string {
    if ar.spec.token.Some? then TOKEN_PREFIX + LabelOf(ar.labels, TOKEN_PROVIDER_LABEL)
    else if ar.spec.oidc.Some? then OIDC_PREFIX + ar.spec.oidc.value.name
    else "<unknown>"
  }

  /** The provider that a copied secret stands for; secrets with no or two such labels are skipped. */
  function ProviderOfSecret(s: Secret): Option<string> {
    var oidc, token := LabelOf(s.labels, OIDC_PROVIDER_LABEL), LabelOf(s.labels, TOKEN_PROVIDER_LABEL);
    if (oidc == "") == (token == "") then None
    else if token != "" then Some(TOKEN_PREFIX + token) else Some(OIDC_PREFIX + oidc)
  }

  function WithWish(env: Environment, existing: Option<AccessRequest>, w: Wish): AccessRequest {
    var o := if existing.Some? then existing.value else Object([], false, map[], map[], AccessData(None, None, None, false, None));
    match w
    case WishOidc(p) =>
      o.(labels := WithOwnLabels(env, o.labels)[OIDC_PROVIDER_LABEL := p.name],
         spec := o.spec.(oidc := Some(p), request := env.request))
    case WishToken(t) =>
      o.(labels := WithOwnLabels(env, o.labels)[TOKEN_PROVIDER_LABEL := t.name],
         spec := o.spec.(token := Some(t), request := env.request))
  }

  function CopiedSecret(env: Environment, existing: Option<Secret>, ar: AccessRequest, data: string): Secret {
    var o := if existing.Some? then existing.value else Object([], false, map[], map[], "");
    var labels := WithOwnLabels(env, o.labels);
    var withOidc := if ar.spec.oidc.Some? then labels[OIDC_PROVIDER_LABEL := ar.spec.oidc.value.name] else labels;
    var withToken := if ar.spec.token.Some? then withOidc[TOKEN_PROVIDER_LABEL := LabelOf(ar.labels, TOKEN_PROVIDER_LABEL)] else withOidc;
    o.(labels := withToken, spec := data)
  }

  // ---------- names of secrets ----------

  /** The name of a copied secret replaces underscores, so that names of providers may become the same. */
  function Dashed(s: string): (r: string)
    ensures |r| == |s|
  {
    if s == "" then "" else [if s[0] == '_' then '-' else s[0]] + Dashed(s[1..])
  }

  function CompositeName(env: Environment, p: string): string {
    Dashed(p) + "." + env.cp.name
  }

  function SecretName(env: Environment, p: string): string {
    env.shorten(CompositeName(env, p)) + SECRET_SUFFIX
  }

  predicate Fits(env: Environment, p: string) {
    |CompositeName(env, p)| <= MAX_NAME_LENGTH - |SECRET_SUFFIX|
  }

  /** Shortening leaves names alone that fit, and always keeps the first character. */
  ghost predicate Shortens(f: string -> string) {
    forall s :: (|s| <= MAX_NAME_LENGTH - |SECRET_SUFFIX| ==> f(s) == s) && (s != "" ==> f(s) != "" && f(s)[0] == s[0])
  }

  /** So secrets of OIDC providers and of tokens have different names. */
  lemma NameKeepsKind(env: Environment, p: string)
    requires Shortens(env.shorten) && p != "" && p[0] != '_'
    ensures SecretName(env, p) != "" && SecretName(env, p)[0] == p[0]
  {
    var composite := CompositeName(env, p);
    assert composite[0] == Dashed(p)[0] == p[0];
    assert env.shorten(composite)[0] == p[0];
  }

  predicate SameUpToDashes(a: string, b: string) {
    |a| == |b| && forall i :: 0 <= i < |a| ==> a[i] == b[i] || (a[i] in "_-" && b[i] in "_-")
  }

  lemma {:induction false} DashedIsInjectiveIff(a: string, b: string)
    ensures Dashed(a) == Dashed(b) <==> SameUpToDashes(a, b)
  {
    if a != "" && b != "" {
      DashedIsInjectiveIff(a[1..], b[1..]);
      var same := |a| == |b| && forall i :: 0 <= i < |a| ==> a[i] == b[i] || (a[i] in "_-" && b[i] in "_-");
      var rest := |a| == |b| && forall i :: 0 <= i < |a| - 1 ==> a[1..][i] == b[1..][i] || (a[1..][i] in "_-" && b[1..][i] in "_-");
      if rest && (a[0] == b[0] || (a[0] in "_-" && b[0] in "_-")) {
        forall i | 0 <= i < |a| ensures a[i] == b[i] || (a[i] in "_-" && b[i] in "_-") {
          if i > 0 {
            assert a[1..][i - 1] == a[i] && b[1..][i - 1] == b[i];
          }
        }
      }
      if same {
        forall i | 0 <= i < |a| - 1 ensures a[1..][i] == b[1..][i] || (a[1..][i] in "_-" && b[1..][i] in "_-") {
          assert a[1..][i] == a[i + 1] && b[1..][i] == b[i + 1];
        }
      }
      assert Dashed(a)[0] == Dashed(b)[0] <==> a[0] == b[0] || (a[0] in "_-" && b[0] in "_-");
      assert Dashed(a)[1..] == Dashed(a[1..]) && Dashed(b)[1..] == Dashed(b[1..]);
    }
  }

  /** Two names that need not be shortened give the same secret name exactly if they differ only in dashes
      and underscores. */
  lemma SameSecretNameIff(env: Environment, a: string, b: string)
    requires Shortens(env.shorten) && Fits(env, a) && Fits(env, b)
    ensures SecretName(env, a) == SecretName(env, b) <==> SameUpToDashes(a, b)
  {
    hide Dashed;
    var x, y := CompositeName(env, a), CompositeName(env, b);
    assert env.shorten(x) == x && env.shorten(y) == y;
    SuffixInjective(x, y, SECRET_SUFFIX);
    SuffixInjective(Dashed(a), Dashed(b), "." + env.cp.name);
    assert x == Dashed(a) + ("." + env.cp.name) && y == Dashed(b) + ("." + env.cp.name);
    DashedIsInjectiveIff(a, b);
  }

  lemma SuffixInjective(a: string, b: string, suffix: string)
    ensures a + suffix == b + suffix <==> a == b
  {
    if a + suffix == b + suffix {
      assert |a| == |b|;
      assert a == (a + suffix)[..|a|] == (b + suffix)[..|b|] == b;
    }
  }

  // ---------- the phases ----------

  ghost predicate DistinctOn(f: string -> string, ps: set<string>) {
    forall a, b :: a in ps && b in ps && f(a) == f(b) ==> a == b
  }

  /** The ControlPlane's AccessRequests have the name that belongs to their provider and stand for one
      provider only, and nobody else uses a name that is wished for. */
  ghost predicate WellNamed(env: Environment, accesses: map<string, AccessRequest>) {
    && (forall n :: n in accesses && Listed(env, accesses[n].labels) ==>
          env.accessName(ProviderOf(accesses[n])) == n && !(accesses[n].spec.oidc.Some? && accesses[n].spec.token.Some?))
    && (forall p :: p in Desired(env) && env.accessName(p) in accesses ==>
          Listed(env, accesses[env.accessName(p)].labels) && ProviderOf(accesses[env.accessName(p)]) == p)
  }

  lemma PrefixesDiffer(a: string, b: string)
    ensures OIDC_PREFIX + a != TOKEN_PREFIX + b
  {
    assert (OIDC_PREFIX + a)[0] == 'o' && (TOKEN_PREFIX + b)[0] == 't';
  }

  /** The AccessRequest of a wish, created or updated, stands for the wished provider. */
  lemma WishIsServed(env: Environment, existing: Option<AccessRequest>, w: Wish)
    requires existing.Some? ==> ProviderOf(existing.value) == NameOf(w) && !(existing.value.spec.oidc.Some? && existing.value.spec.token.Some?)
    ensures
      var ar := WithWish(env, existing, w);
      Listed(env, ar.labels) && ProviderOf(ar) == NameOf(w) && !(ar.spec.oidc.Some? && ar.spec.token.Some?)
  {
    DistinctLabels();
    if existing.Some? {
      var e := existing.value;
      if w.WishOidc? && e.spec.token.Some? {
        PrefixesDiffer(w.provider.name, LabelOf(e.labels, TOKEN_PROVIDER_LABEL));
      }
      if w.WishToken? && e.spec.oidc.Some? {
        PrefixesDiffer(e.spec.oidc.value.name, w.token.name);
      }
    }
  }

  /** The copied secrets have the name that belongs to their provider, and nobody else uses a name that is
      wished for. Different providers may have the same name. */
  ghost predicate WellNamedSecrets(env: Environment, secrets: map<string, Secret>) {
    && (forall n :: n in secrets && Listed(env, secrets[n].labels) ==>
          ProviderOfSecret(secrets[n]).Some? && SecretName(env, ProviderOfSecret(secrets[n]).value) == n)
    && (forall p :: p in Desired(env) && SecretName(env, p) in secrets ==> Listed(env, secrets[SecretName(env, p)].labels))
  }

  /** Every reference in the status has a secret that stands for its provider. */
  predicate StatusBacked(env: Environment, w: World) {
    forall p :: p in w.status ==>
      exists n :: n in w.secrets && Listed(env, w.secrets[n].labels) && ProviderOfSecret(w.secrets[n]) == Some(p)
  }

  function UndesiredAccesses(env: Environment, accesses: map<string, AccessRequest>, desired: set<string>): set<string> {
    set n | n in accesses && Listed(env, accesses[n].labels) && ProviderOf(accesses[n]) !in desired
  }

  function UndesiredSecrets(env: Environment, secrets: map<string, Secret>, desired: set<string>): set<string> {
    set n | n in secrets && Listed(env, secrets[n].labels) && ProviderOfSecret(secrets[n]).Some?
            && ProviderOfSecret(secrets[n]).value !in desired
  }

  function ProvidersOfSecrets(secrets: map<string, Secret>, names: set<string>): set<string> {
    set n | n in names && n in secrets && ProviderOfSecret(secrets[n]).Some? :: ProviderOfSecret(secrets[n]).value
  }

  function AccessNames(env: Environment, names: set<string>): set<string> {
    set p | p in names :: env.accessName(p)
  }

  /** What the first phase has achieved for the wishes seen so far. */
  ghost predicate Served(env: Environment, names: set<string>, before: map<string, AccessRequest>,
                         after: map<string, AccessRequest>, updated: map<string, AccessRequest>)
  {
    && updated.Keys == names
    && (forall p :: p in names ==> ServedAs(env, p, after, updated[p]))
    && (forall n :: n !in AccessNames(env, names) ==> At(after, n) == At(before, n))
  }

  predicate ServedAs(env: Environment, p: string, accesses: map<string, AccessRequest>, ar: AccessRequest) {
    At(accesses, env.accessName(p)) == Some(ar) && Listed(env, ar.labels) && ProviderOf(ar) == p
  }

  // ---------- the third phase ----------

  predicate Usable(ar: AccessRequest) {
    ar.spec.granted && ar.spec.secret.Some?
  }

  /** The AccessRequest stands for a provider with a name. */
  predicate StandsFor(env: Environment, ar: AccessRequest, p: string) {
    && Listed(env, ar.labels) && ProviderOf(ar) == p && !(ar.spec.oidc.Some? && ar.spec.token.Some?)
    && ((ar.spec.oidc.Some? && ar.spec.oidc.value.name != "") || (ar.spec.token.Some? && LabelOf(ar.labels, TOKEN_PROVIDER_LABEL) != ""))
  }

  /** Both are OIDC providers, or both are tokens. */
  predicate SameKind(p: string, q: string) {
    p != "" && q != "" && p[0] == q[0]
  }

  /** The copy of a secret stands for its provider, whichever provider of the same kind had the name before. */
  lemma CopyStandsFor(env: Environment, existing: Option<Secret>, ar: AccessRequest, data: string, p: string)
    requires StandsFor(env, ar, p)
    requires existing.Some? ==> ProviderOfSecret(existing.value).Some? && SameKind(ProviderOfSecret(existing.value).value, p)
    ensures
      var s := CopiedSecret(env, existing, ar, data);
      Listed(env, s.labels) && ProviderOfSecret(s) == Some(p) && s.spec == data
  {
    DistinctLabels();
    if existing.Some? {
      var labels := existing.value.labels;
      var oidc, token := LabelOf(labels, OIDC_PROVIDER_LABEL), LabelOf(labels, TOKEN_PROVIDER_LABEL);
      assert (OIDC_PREFIX + oidc)[0] == 'o' && (TOKEN_PREFIX + token)[0] == 't';
      assert ar.spec.token.Some? ==> p[0] == 't';
      assert ar.spec.token.None? ==> p[0] == 'o';
    }
  }

  /** The secret of the provider is a copy, and the status refers to it. */
  predicate Copied(env: Environment, w: World, p: string, data: string) {
    && At(w.status, p) == Some(SecretName(env, p))
    && SecretName(env, p) in w.secrets
    && var s := w.secrets[SecretName(env, p)];
    Listed(env, s.labels) && ProviderOfSecret(s) == Some(p) && s.spec == data
  }

  function AfterCopy(env: Environment, w: World, p: string, ar: AccessRequest, data: string): World {
    var n := SecretName(env, p);
    w.(secrets := w.secrets[n := CopiedSecret(env, At(w.secrets, n), ar, data)], status := w.status[p := n])
  }

  /** The labels of a secret that has been copied for the AccessRequest. */
  predicate CopyLabels(env: Environment, labels: Labels, ar: AccessRequest) {
    && Owned(env, labels)
    && (ar.spec.oidc.Some? ==> LabelOf(labels, OIDC_PROVIDER_LABEL) == ar.spec.oidc.value.name)
    && (ar.spec.token.Some? ==> LabelOf(labels, TOKEN_PROVIDER_LABEL) == LabelOf(ar.labels, TOKEN_PROVIDER_LABEL))
  }

  ghost predicate Rewritten(env: Environment, done: set<string>, updated: map<string, AccessRequest>, n: string, s: Secret) {
    exists p :: p in done && p in updated && SecretName(env, p) == n && CopyLabels(env, s.labels, updated[p])
  }

  /** What the third phase changes at most, whatever the names are. */
  ghost predicate SyncFrame(env: Environment, done: set<string>, updated: map<string, AccessRequest>, before: World, w: World) {
    && w.accesses == before.accesses && (done == {} ==> w == before)
    && (forall p :: p !in done ==> At(w.status, p) == At(before.status, p))
    && (forall p :: p in before.status ==> p in w.status)
    && (forall p :: p in done && p in updated && Usable(updated[p]) ==> p in w.status)
    && (forall n :: n in before.secrets ==> n in w.secrets)
    && (forall n :: n in w.secrets ==> At(before.secrets, n) == Some(w.secrets[n]) || Rewritten(env, done, updated, n, w.secrets[n]))
  }

  /** No provider that is desired shares its secret name with another one that is desired or referred to. */
  ghost predicate NoClash(env: Environment, w: World) {
    forall p, q :: p in Desired(env) && (q in Desired(env) || q in w.status) && SecretName(env, p) == SecretName(env, q) ==> p == q
  }

  predicate CopiedIfUsable(env: Environment, updated: map<string, AccessRequest>, platform: map<string, string>, w: World, p: string) {
    p in updated && Usable(updated[p]) ==>
      updated[p].spec.secret.value in platform && Copied(env, w, p, platform[updated[p].spec.secret.value])
  }

  ghost predicate AllCopied(env: Environment, done: set<string>, updated: map<string, AccessRequest>, platform: map<string, string>, w: World)
  {
    forall p :: p in done ==> CopiedIfUsable(env, updated, platform, w, p)
  }

  lemma CopyHasLabels(env: Environment, existing: Option<Secret>, ar: AccessRequest, data: string)
    ensures CopyLabels(env, CopiedSecret(env, existing, ar, data).labels, ar)
  {
    DistinctLabels();
  }

  lemma CopyKeepsFrame(env: Environment, done: set<string>, updated: map<string, AccessRequest>, before: World, w: World,
                       p: string, data: string)
    requires SyncFrame(env, done, updated, before, w) && p in updated
    ensures SyncFrame(env, done + {p}, updated, before, AfterCopy(env, w, p, updated[p], data))
  {
    hide CopyLabels, CopiedSecret, SecretName;
    var n := SecretName(env, p);
    var w' := AfterCopy(env, w, p, updated[p], data);
    CopyHasLabels(env, At(w.secrets, n), updated[p], data);
    forall x | x in w'.secrets
      ensures At(before.secrets, x) == Some(w'.secrets[x]) || Rewritten(env, done + {p}, updated, x, w'.secrets[x])
    {
      if x == n {
        assert p in done + {p};
      } else if At(before.secrets, x) != Some(w.secrets[x]) {
        var q :| q in done && q in updated && SecretName(env, q) == x && CopyLabels(env, w.secrets[x].labels, updated[q]);
        assert q in done + {p};
      }
    }
  }

  lemma SkippingKeepsFrame(env: Environment, done: set<string>, updated: map<string, AccessRequest>, before: World, w: World, p: string)
    requires SyncFrame(env, done, updated, before, w) && p in updated && !Usable(updated[p])
    ensures SyncFrame(env, done + {p}, updated, before, w)
  {
    forall x | x in w.secrets
      ensures At(before.secrets, x) == Some(w.secrets[x]) || Rewritten(env, done + {p}, updated, x, w.secrets[x])
    {
      if At(before.secrets, x) != Some(w.secrets[x]) {
        var q :| q in done && q in updated && SecretName(env, q) == x && CopyLabels(env, w.secrets[x].labels, updated[q]);
        assert q in done + {p};
      }
    }
  }

  lemma CopyKeepsWellNamed(env: Environment, secrets: map<string, Secret>, p: string, s: Secret)
    requires WellNamedSecrets(env, secrets) && Listed(env, s.labels) && ProviderOfSecret(s) == Some(p)
    ensures WellNamedSecrets(env, secrets[SecretName(env, p) := s])
  {
  }

  lemma SecretsHaveKind(s: Secret)
    ensures ProviderOfSecret(s).Some? ==> ProviderOfSecret(s).value != "" && ProviderOfSecret(s).value[0] != '_'
  {
    assert OIDC_PREFIX[0] == 'o' && TOKEN_PREFIX[0] == 't';
  }

  lemma WishesHaveKind(env: Environment, p: string)
    requires p in Desired(env)
    ensures p != "" && p[0] != '_'
  {
    assert OIDC_PREFIX[0] == 'o' && TOKEN_PREFIX[0] == 't';
  }

  /** The secret that has the name of a provider stands for a provider of the same kind. */
  lemma SecretFits(env: Environment, secrets: map<string, Secret>, p: string)
    requires Shortens(env.shorten) && WellNamedSecrets(env, secrets) && p in Desired(env)
    ensures
      var existing := At(secrets, SecretName(env, p));
      existing.Some? ==> ProviderOfSecret(existing.value).Some? && SameKind(ProviderOfSecret(existing.value).value, p)
  {
    hide Shortens, SecretName, Desired, ProviderOfSecret, Listed;
    var n := SecretName(env, p);
    WishesHaveKind(env, p);
    NameKeepsKind(env, p);
    if n in secrets {
      SecretsHaveKind(secrets[n]);
      NameKeepsKind(env, ProviderOfSecret(secrets[n]).value);
    }
  }

  /** The secret that is written for a provider stands for it. */
  lemma CopyFits(env: Environment, secrets: map<string, Secret>, p: string, ar: AccessRequest, data: string)
    requires Shortens(env.shorten) && WellNamedSecrets(env, secrets) && p in Desired(env) && StandsFor(env, ar, p)
    ensures
      var s := CopiedSecret(env, At(secrets, SecretName(env, p)), ar, data);
      && Listed(env, s.labels) && ProviderOfSecret(s) == Some(p) && s.spec == data
      && WellNamedSecrets(env, secrets[SecretName(env, p) := s])
  {
    hide Shortens, WellNamedSecrets, StandsFor, CopiedSecret, Desired, SecretName, Listed, ProviderOfSecret;
    var existing := At(secrets, SecretName(env, p));
    SecretFits(env, secrets, p);
    CopyStandsFor(env, existing, ar, data, p);
    CopyKeepsWellNamed(env, secrets, p, CopiedSecret(env, existing, ar, data));
  }

  lemma CopyIsCopied(env: Environment, updated: map<string, AccessRequest>, platform: map<string, string>, w: World, p: string)
    requires Shortens(env.shorten) && WellNamedSecrets(env, w.secrets) && p in Desired(env) && p in updated && StandsFor(env, updated[p], p)
    requires Usable(updated[p]) && updated[p].spec.secret.value in platform
    ensures CopiedIfUsable(env, updated, platform, AfterCopy(env, w, p, updated[p], platform[updated[p].spec.secret.value]), p)
  {
    CopyFits(env, w.secrets, p, updated[p], platform[updated[p].spec.secret.value]);
  }

  lemma OthersStayCopied(env: Environment, updated: map<string, AccessRequest>, platform: map<string, string>, w: World, p: string,
                         ar: AccessRequest, data: string, q: string)
    requires SecretName(env, q) != SecretName(env, p) && CopiedIfUsable(env, updated, platform, w, q)
    ensures CopiedIfUsable(env, updated, platform, AfterCopy(env, w, p, ar, data), q)
  {
    var w' := AfterCopy(env, w, p, ar, data);
    assert At(w'.secrets, SecretName(env, q)) == At(w.secrets, SecretName(env, q)) && At(w'.status, q) == At(w.status, q);
  }

  lemma CopyGrows(env: Environment, done: set<string>, updated: map<string, AccessRequest>, platform: map<string, string>, w: World, p: string)
    requires Shortens(env.shorten) && WellNamedSecrets(env, w.secrets) && NoClash(env, w) && AllCopied(env, done, updated, platform, w)
    requires done <= Desired(env) && p in updated && p in Desired(env) && StandsFor(env, updated[p], p)
    requires Usable(updated[p]) && updated[p].spec.secret.value in platform
    ensures AllCopied(env, done + {p}, updated, platform, AfterCopy(env, w, p, updated[p], platform[updated[p].spec.secret.value]))
  {
    hide Shortens, WellNamedSecrets, StandsFor, CopiedIfUsable, AfterCopy, Desired, SecretName;
    var data := platform[updated[p].spec.secret.value];
    CopyIsCopied(env, updated, platform, w, p);
    forall q | q in done + {p} ensures CopiedIfUsable(env, updated, platform, AfterCopy(env, w, p, updated[p], data), q) {
      if q != p {
        assert q in done && CopiedIfUsable(env, updated, platform, w, q);
        OthersStayCopied(env, updated, platform, w, p, updated[p], data, q);
      }
    }
  }

  lemma SkippingKeepsCopied(env: Environment, done: set<string>, updated: map<string, AccessRequest>, platform: map<string, string>, w: World, p: string)
    requires AllCopied(env, done, updated, platform, w) && p in updated && !Usable(updated[p])
    ensures AllCopied(env, done + {p}, updated, platform, w)
  {
    hide Copied;
    forall q | q in done + {p} ensures CopiedIfUsable(env, updated, platform, w, q) {
      if q != p {
        assert q in done;
      }
    }
  }

  lemma SecretKeepsBacked(env: Environment, w: World, p: string, s: Secret)
    requires StatusBacked(env, w) && WellNamedSecrets(env, w.secrets) && NoClash(env, w) && p in Desired(env)
    requires Listed(env, s.labels) && ProviderOfSecret(s) == Some(p)
    ensures StatusBacked(env, w.(secrets := w.secrets[SecretName(env, p) := s], status := w.status[p := SecretName(env, p)]))
  {
    var n := SecretName(env, p);
    var w' := w.(secrets := w.secrets[n := s], status := w.status[p := n]);
    forall q | q in w'.status
      ensures exists x :: x in w'.secrets && Listed(env, w'.secrets[x].labels) && ProviderOfSecret(w'.secrets[x]) == Some(q)
    {
      if q == p {
        assert n in w'.secrets;
      } else {
        var x :| x in w.secrets && Listed(env, w.secrets[x].labels) && ProviderOfSecret(w.secrets[x]) == Some(q);
        assert SecretName(env, q) == x;
        assert x in w'.secrets && w'.secrets[x] == w.secrets[x];
      }
    }
  }

  ghost predicate Syncable(env: Environment, updated: map<string, AccessRequest>, secrets: map<string, Secret>) {
    && Shortens(env.shorten) && WellNamedSecrets(env, secrets)
    && forall p :: p in updated ==> p in Desired(env) && StandsFor(env, updated[p], p)
  }

  predicate AllUsable(updated: map<string, AccessRequest>, ps: set<string>) {
    forall p :: p in ps && p in updated ==> Usable(updated[p])
  }

  lemma WishKeepsAlive(env: Environment, accesses: map<string, AccessRequest>, n: string, w: Wish)
    requires Alive(accesses)
    ensures Alive(accesses[n := WithWish(env, At(accesses, n), w)])
  {
  }

  /** No object has come up or has been relabelled. */
  predicate NothingNew<S>(m: map<string, Object<S>>, m': map<string, Object<S>>) {
    forall n :: n in m' ==> n in m && m'[n].labels == m[n].labels
  }

  lemma MarkAddsNothing<S>(m: map<string, Object<S>>, names: set<string>)
    ensures NothingNew(m, Mark(m, names))
  {
  }

  /** The secret of a granted AccessRequest does not exist. */
  ghost predicate MissesSecret(updated: map<string, AccessRequest>, platform: map<string, string>) {
    exists p :: p in updated && Usable(updated[p]) && updated[p].spec.secret.value !in platform
  }

  class AccessManager {
    var accesses: map<string, AccessRequest>
    var platformSecrets: map<string, string>
    var secrets: map<string, Secret>
    /** The references in the status of the ControlPlane. */
    var status: map<string, string>
    const env: Environment
    ghost var faults: nat

    constructor (env: Environment, w: World, platformSecrets: map<string, string>)
      requires Alive(w.accesses) && Alive(w.secrets)
      ensures Valid() && this.env == env && State() == w
    {
      this.env := env;
      accesses, secrets, status := w.accesses, w.secrets, w.status;
      this.platformSecrets := platformSecrets;
    }

    function State(): World
      reads this
    {
      World(accesses, secrets, status)
    }

    ghost predicate Valid()
      reads this
    {
      Alive(accesses) && Alive(secrets)
    }

    method Call() returns (ok: bool)
      modifies `faults
      ensures faults == old(faults) + if ok then 0 else 1
    {
      ok := *;
      if !ok {
        faults := faults + 1;
      }
    }

    /** Creates or updates the AccessRequest for one wish. */
    method ServeWish(w: Wish) returns (ar: AccessRequest, ok: bool)
      requires Valid()
      modifies `accesses, `faults
      ensures Valid() && (!ok ==> accesses == old(accesses))
      ensures ok ==> ar == WithWish(env, At(old(accesses), env.accessName(NameOf(w))), w)
                     && accesses == old(accesses)[env.accessName(NameOf(w)) := ar]
      ensures faults == old(faults) + if ok then 0 else 1
    {
      var name := env.accessName(NameOf(w));
      ar := WithWish(env, At(accesses, name), w);
      WishKeepsAlive(env, accesses, name, w);
      ok := Call();
      if ok {
        accesses := accesses[name := ar];
      }
    }

    /** First phase: creates or updates the AccessRequests that are wished for. */
    method CreateOrUpdateDesiredAccessRequests() returns (updated: map<string, AccessRequest>, ok: bool, ghost n: nat)
      requires Valid()
      modifies `accesses, `faults
      ensures Valid()
      ensures n <= |Wishes(env)| && (accesses, updated) == Serve(env, old(accesses), Wishes(env), n)
      ensures ok ==> n == |Wishes(env)|
      ensures faults >= old(faults) && (ok <==> faults == old(faults))
    {
      updated, ok, n := map[], true, 0;
      var wishes := Wishes(env);
      ghost var before := accesses;
      for i := 0 to |wishes|
        invariant Valid() && ok && n == i && faults == old(faults)
        invariant (accesses, updated) == Serve(env, before, wishes, i)
      {
        var ar;
        ar, ok := ServeWish(wishes[i]);
        if !ok {
          return;
        }
        updated := updated[NameOf(wishes[i]) := ar];
        n := i + 1;
      }
    }

    /** Deletes the given AccessRequests, carrying on after failures. */
    method DeleteAccesses(names: set<string>) returns (ok: bool, ghost marked: set<string>)
      requires Valid() && names <= accesses.Keys
      modifies `accesses, `faults
      ensures Valid() && marked <= names && (ok ==> marked == names)
      ensures accesses == Mark(old(accesses), marked)
      ensures faults >= old(faults) && (ok <==> faults == old(faults))
    {
      ok, marked := true, {};
      var todo := names;
      assert accesses == Mark(accesses, {});
      while todo != {}
        invariant Valid() && todo <= names && marked <= names - todo && (ok ==> marked == names - todo)
        invariant accesses == Mark(old(accesses), marked)
        invariant faults >= old(faults) && (ok <==> faults == old(faults))
      {
        var n :| n in todo;
        MarkMore(old(accesses), marked, n);
        if accesses[n].deleting {
          MarkMarked(old(accesses), marked, n);
          marked := marked + {n};
        } else {
          var done := Call();
          if done {
            accesses := if accesses[n].finalizers == [] then accesses - {n} else accesses[n := accesses[n].(deleting := true)];
            assert accesses == Mark(old(accesses), marked + {n});
            marked := marked + {n};
          }
          ok := ok && done;
        }
        todo := todo - {n};
      }
    }

    /** Second phase: deletes the AccessRequests of providers that are not wished for any more. */
    method DeleteUndesiredAccessRequests(desired: set<string>) returns (inDeletion: set<string>, ok: bool, ghost marked: set<string>)
      requires Valid()
      modifies `accesses, `faults
      ensures Valid() && marked <= UndesiredAccesses(env, old(accesses), desired) && accesses == Mark(old(accesses), marked)
      ensures ok ==> marked == UndesiredAccesses(env, old(accesses), desired)
      ensures ok ==> (inDeletion == {} <==> UndesiredAccesses(env, old(accesses), desired) == {})
      ensures faults >= old(faults) && (ok <==> faults == old(faults))
    {
      inDeletion, marked := {}, {};
      assert accesses == Mark(accesses, {});
      ok := Call();
      if !ok {
        return;
      }
      ok := Call();
      if !ok {
        return;
      }
      var undesired := UndesiredAccesses(env, accesses, desired);
      inDeletion := set n | n in undesired :: ProviderOf(accesses[n]);
      assert forall n :: n in undesired ==> ProviderOf(accesses[n]) in inDeletion;
      ok, marked := DeleteAccesses(undesired);
    }

    /** Copies the secret of one granted AccessRequest and refers to it in the status. */
    method CopySecret(p: string, ar: AccessRequest) returns (ok: bool)
      requires Valid() && Usable(ar)
      modifies `secrets, `status, `faults
      ensures Valid()
      ensures ok ==> ar.spec.secret.value in platformSecrets
                     && State() == AfterCopy(env, old(State()), p, ar, platformSecrets[ar.spec.secret.value])
      ensures !ok ==> State() == old(State())
      ensures faults >= old(faults) && (ok ==> faults == old(faults))
      ensures !ok ==> faults > old(faults) || ar.spec.secret.value !in platformSecrets
    {
      ok := Call();
      if !ok || ar.spec.secret.value !in platformSecrets {
        return false;
      }
      ok := Call();
      if !ok {
        return;
      }
      var n := SecretName(env, p);
      var copy := CopiedSecret(env, At(secrets, n), ar, platformSecrets[ar.spec.secret.value]);
      secrets, status := secrets[n := copy], status[p := n];
    }

    /** Third phase: copies the secrets of all granted AccessRequests, in any order. */
    method SyncAccessSecrets(updated: map<string, AccessRequest>) returns (ready: bool, ok: bool, ghost done: set<string>)
      requires Valid()
      modifies `secrets, `status, `faults
      ensures Valid()
      ensures ok ==> done == updated.Keys && (ready <==> AllUsable(updated, updated.Keys))
      ensures done <= updated.Keys && SyncProgress(env, done, updated, platformSecrets, old(State()), State())
      ensures faults >= old(faults) && (!ok ==> faults > old(faults) || MissesSecret(updated, platformSecrets))
    {
      hide SyncProgress;
      ready, ok, done := true, true, {};
      ghost var before := State();
      SyncStarts(env, updated, platformSecrets, before);
      var todo := updated.Keys;
      while todo != {}
        invariant Valid() && ok && todo <= updated.Keys && done == updated.Keys - todo
        invariant ready <==> AllUsable(updated, done)
        invariant SyncProgress(env, done, updated, platformSecrets, before, State())
        invariant faults >= old(faults)
      {
        var p :| p in todo;
        ghost var w := State();
        UsableGrows(updated, done, p);
        if !Usable(updated[p]) {
          ready := false;
          SkippingProgresses(env, done, updated, platformSecrets, before, w, p);
        } else {
          ok := CopySecret(p, updated[p]);
          if !ok {
            return;
          }
          CopyProgresses(env, done, updated, platformSecrets, before, w, p, updated[p]);
        }
        todo, done := todo - {p}, done + {p};
      }
      assert done == updated.Keys;
    }

    /** Deletes the given secrets, carrying on after failures. */
    method DeleteSecrets(names: set<string>) returns (ok: bool, ghost marked: set<string>)
      requires Valid() && names <= secrets.Keys
      modifies `secrets, `faults
      ensures Valid() && marked <= names && (ok <==> marked == names)
      ensures secrets == Mark(old(secrets), marked)
      ensures faults >= old(faults) && (ok <==> faults == old(faults))
    {
      ok, marked := true, {};
      var todo := names;
      assert secrets == Mark(secrets, {});
      while todo != {}
        invariant Valid() && todo <= names && marked <= names - todo && (ok <==> marked == names - todo)
        invariant secrets == Mark(old(secrets), marked)
        invariant faults >= old(faults) && (ok <==> faults == old(faults))
      {
        var n :| n in todo;
        MarkMore(old(secrets), marked, n);
        if secrets[n].deleting {
          MarkMarked(old(secrets), marked, n);
          marked := marked + {n};
        } else {
          var done := Call();
          if done {
            secrets := if secrets[n].finalizers == [] then secrets - {n} else secrets[n := secrets[n].(deleting := true)];
            assert secrets == Mark(old(secrets), marked + {n});
            marked := marked + {n};
          }
          ok := ok && done;
        }
        todo := todo - {n};
      }
    }

    /** Fourth phase: deletes the copies for providers that are not wished for any more, and if this has been
        requested for all of them, removes their references from the status. */
    method DeleteUndesiredAccessSecrets(desired: set<string>) returns (inDeletion: set<string>, ok: bool, ghost marked: set<string>)
      requires Valid()
      modifies `secrets, `status, `faults
      ensures Valid() && marked <= UndesiredSecrets(env, old(secrets), desired) && secrets == Mark(old(secrets), marked)
      ensures ok ==> marked == UndesiredSecrets(env, old(secrets), desired)
      ensures ok ==> inDeletion == ProvidersOfSecrets(old(secrets), marked)
      ensures !ok ==> marked == {} || marked != UndesiredSecrets(env, old(secrets), desired)
      ensures status == if ok then old(status) - inDeletion else old(status)
      ensures faults >= old(faults) && (ok <==> faults == old(faults))
    {
      inDeletion, marked := {}, {};
      assert secrets == Mark(secrets, {});
      ok := Call();
      if !ok {
        return;
      }
      ok := Call();
      if !ok {
        return;
      }
      var undesired := UndesiredSecrets(env, secrets, desired);
      inDeletion := ProvidersOfSecrets(secrets, undesired);
      ok, marked := DeleteSecrets(undesired);
      if ok {
        status := status - inDeletion;
      }
    }

    /** The first two phases. `gone` says that there was no AccessRequest to delete. */
    method AlignAccessRequests() returns (updated: map<string, AccessRequest>, gone: bool, ok: bool, ghost stop: Stop)
      requires Valid()
      modifies `accesses, `faults
      ensures Valid()
      ensures ok ==> updated == AllWishesServed(env, old(State())).1 && State() == Aligned(env, old(State()))
      ensures ok ==> (gone <==> UndesiredAccesses(env, AllWishesServed(env, old(State())).0, Desired(env)) == {})
      ensures !ok ==> (stop.Serving? || stop.DeletingAccesses?) && StoppedAt(env, platformSecrets, old(State()), State(), stop)
      ensures Wishes(env) == [] ==> NothingNew(old(accesses), accesses)
      ensures faults >= old(faults) && (ok <==> faults == old(faults))
    {
      UpdatedAreDesired(env, accesses);
      ghost var n;
      updated, ok, n := CreateOrUpdateDesiredAccessRequests();
      gone, stop := false, Serving(n);
      if !ok {
        return;
      }
      ghost var served := accesses;
      var inDeletion;
      ghost var marked;
      inDeletion, ok, marked := DeleteUndesiredAccessRequests(updated.Keys);
      MarkAddsNothing(served, marked);
      gone, stop := inDeletion == {}, DeletingAccesses(marked);
    }

    /** The four phases, one after the other, until one of them fails. */
    method RunPhases() returns (ready: bool, ok: bool, ghost synced: World, ghost stop: Stop)
      requires Valid()
      modifies `accesses, `secrets, `status, `faults
      ensures Valid() && StoppedAt(env, platformSecrets, old(State()), State(), stop)
      ensures ok <==> stop == Nowhere(synced)
      ensures ok ==> (ready <==> ReadyPhases(env, platformSecrets, old(State()), synced, State()))
      ensures faults >= old(faults)
      ensures !ok ==> faults > old(faults) || MissesSecret(AllWishesServed(env, old(State())).1, platformSecrets)
      ensures Wishes(env) == [] ==> NothingNew(old(accesses), accesses) && NothingNew(old(secrets), secrets)
    {
      hide SyncProgress, StoppedAt, ReadyPhases;
      ready, synced := false, State();
      ghost var w := State();
      var updated, accessesGone;
      UpdatedAreDesired(env, accesses);
      updated, accessesGone, ok, stop := AlignAccessRequests();
      if !ok {
        return;
      }
      ghost var before := State();
      var allReady;
      ghost var done;
      allReady, ok, done := SyncAccessSecrets(updated);
      WithoutWishesNothingIsCopied(env, done, updated, platformSecrets, before, State());
      stop := Syncing(done);
      StopsSyncing(env, platformSecrets, w, done, State());
      if !ok {
        return;
      }
      synced := State();
      var secretsInDeletion;
      ghost var marked;
      secretsInDeletion, ok, marked := DeleteUndesiredAccessSecrets(updated.Keys);
      MarkAddsNothing(synced.secrets, marked);
      stop := if ok then Nowhere(synced) else DeletingSecrets(synced, marked);
      StopsDeletingSecrets(env, platformSecrets, w, synced, marked, ok, State());
      ready := ok && accessesGone && secretsInDeletion == {} && allReady;
    }

    /** Aligns AccessRequests, secrets and references with what is desired. `ready` says that nothing is left
        to do. */
    method ManageAccessRequests() returns (ready: bool, ok: bool)
      requires Valid()
      modifies `accesses, `secrets, `status, `faults
      ensures Valid()
      ensures ok && ready && Sane(env, old(State())) ==> (Converged(env, platformSecrets, State()) <==> NoClash(env, old(State())))
      ensures ok && ready ==> (status.Keys == Desired(env) <==> old(status).Keys <= Desired(env))
      ensures ok && Sane(env, old(State())) && NoClash(env, old(State())) ==> Sane(env, State())
      ensures ok && ready && Desired(env) == {} ==> UndesiredAccesses(env, accesses, {}) == {} && UndesiredSecrets(env, secrets, {}) == {}
      ensures Wishes(env) == [] ==> NothingNew(old(accesses), accesses) && NothingNew(old(secrets), secrets)
      ensures PassStep(env, platformSecrets, old(State()), State())
      ensures ok ==> exists synced ::
                && Phases(env, platformSecrets, old(State()), synced, State())
                && (ready <==> ReadyPhases(env, platformSecrets, old(State()), synced, State()))
      ensures faults >= old(faults)
      ensures !ok && faults == old(faults) ==> MissesSecret(AllWishesServed(env, old(State())).1, platformSecrets)
    {
      ghost var w, synced, stop := State(), State(), Serving(0);
      ready, ok, synced, stop := RunPhases();
      if !ok {
        return;
      }
      PhasesKeepSane(env, platformSecrets, w, synced, State());
      if ready {
        ReadyDeletesNothing(env, platformSecrets, w, synced, State());
        ReadyReferences(env, platformSecrets, w, synced, State());
        if Sane(env, w) {
          ReadyConvergesIff(env, platformSecrets, w, synced, State());
        }
      }
    }
  }

  // ---------- the four phases together ----------

  /** Names are distinct, and all objects are as the controller itself would have made them. */
  ghost predicate Orderly(env: Environment, w: World) {
    && DistinctOn(env.accessName, Desired(env)) && Shortens(env.shorten)
    && WellNamed(env, w.accesses) && WellNamedSecrets(env, w.secrets)
    && (forall x :: x in Wishes(env) ==> (match x case WishOidc(p) => p.name != "" case WishToken(t) => t.name != ""))
  }

  ghost predicate Sane(env: Environment, w: World) {
    Orderly(env, w) && StatusBacked(env, w)
  }

  /** The provider has a granted AccessRequest, a copy of its secret, and a reference to that. */
  ghost predicate ProviderConverged(env: Environment, platform: map<string, string>, w: World, p: string) {
    && env.accessName(p) in w.accesses
    && var ar := w.accesses[env.accessName(p)];
    && StandsFor(env, ar, p) && Usable(ar) && ar.spec.secret.value in platform
    && Copied(env, w, p, platform[ar.spec.secret.value])
  }

  /** The AccessRequests, secrets and references are exactly those of the desired providers, all requests are
      granted, and all secrets are copies. */
  ghost predicate Converged(env: Environment, platform: map<string, string>, w: World) {
    && UndesiredAccesses(env, w.accesses, Desired(env)) == {}
    && UndesiredSecrets(env, w.secrets, Desired(env)) == {}
    && (forall p :: p in Desired(env) ==> ProviderConverged(env, platform, w, p))
    && w.status.Keys == Desired(env)
  }

  lemma UsableGrows(updated: map<string, AccessRequest>, ps: set<string>, p: string)
    requires p in updated
    ensures AllUsable(updated, ps + {p}) <==> AllUsable(updated, ps) && Usable(updated[p])
  {
    if AllUsable(updated, ps + {p}) {
      forall q | q in ps && q in updated ensures Usable(updated[q]) {
        assert q in ps + {p};
      }
      assert p in ps + {p};
    }
  }

  /** What holds during the third phase for the providers in `done`: secrets are as well named as before, and
      if no names clash they are copies and references keep their secrets. */
  ghost predicate SyncProgress(env: Environment, done: set<string>, updated: map<string, AccessRequest>,
                               platform: map<string, string>, before: World, w: World)
  {
    && SyncFrame(env, done, updated, before, w)
    && (Syncable(env, updated, before.secrets) && done <= updated.Keys ==>
          && WellNamedSecrets(env, w.secrets)
          && (NoClash(env, before) ==>
                && NoClash(env, w) && AllCopied(env, done, updated, platform, w)
                && (StatusBacked(env, before) ==> StatusBacked(env, w))))
  }

  lemma SyncStarts(env: Environment, updated: map<string, AccessRequest>, platform: map<string, string>, w: World)
    ensures SyncProgress(env, {}, updated, platform, w, w)
  {
  }

  lemma CopyProgresses(env: Environment, done: set<string>, updated: map<string, AccessRequest>, platform: map<string, string>,
                       before: World, w: World, p: string, ar: AccessRequest)
    requires SyncProgress(env, done, updated, platform, before, w) && p in updated && updated[p] == ar
    requires Usable(ar) && ar.spec.secret.value in platform
    ensures SyncProgress(env, done + {p}, updated, platform, before, AfterCopy(env, w, p, ar, platform[ar.spec.secret.value]))
  {
    var data := platform[ar.spec.secret.value];
    CopyKeepsFrame(env, done, updated, before, w, p, data);
    if Syncable(env, updated, before.secrets) && done + {p} <= updated.Keys {
      assert done <= done + {p};
      CopyFits(env, w.secrets, p, ar, data);
      if NoClash(env, before) {
        CopyGrows(env, done, updated, platform, w, p);
        if StatusBacked(env, before) {
          SecretKeepsBacked(env, w, p, CopiedSecret(env, At(w.secrets, SecretName(env, p)), ar, data));
        }
      }
    }
  }

  lemma SkippingProgresses(env: Environment, done: set<string>, updated: map<string, AccessRequest>, platform: map<string, string>,
                           before: World, w: World, p: string)
    requires SyncProgress(env, done, updated, platform, before, w) && p in updated && !Usable(updated[p])
    ensures SyncProgress(env, done + {p}, updated, platform, before, w)
  {
    hide SyncFrame, Syncable, NoClash, StatusBacked, WellNamedSecrets, AllCopied, Usable;
    SkippingKeepsFrame(env, done, updated, before, w, p);
    if Syncable(env, updated, before.secrets) && done + {p} <= updated.Keys {
      assert done <= done + {p};
      if NoClash(env, before) {
        SkippingKeepsCopied(env, done, updated, platform, w, p);
      }
    }
  }

  /** The AccessRequests after the first `n` wishes have been served one after the other, and those that
      are remembered for the later phases. */
  function Serve(env: Environment, accesses: map<string, AccessRequest>, ws: seq<Wish>, n: nat)
    : (map<string, AccessRequest>, map<string, AccessRequest>)
    requires n <= |ws|
  {
    if n == 0 then (accesses, map[])
    else
      var (served, updated) := Serve(env, accesses, ws, n - 1);
      var name := env.accessName(NameOf(ws[n - 1]));
      var ar := WithWish(env, At(served, name), ws[n - 1]);
      (served[name := ar], updated[NameOf(ws[n - 1]) := ar])
  }

  function FirstNames(ws: seq<Wish>, n: nat): set<string>
    requires n <= |ws|
  {
    if n == 0 then {} else FirstNames(ws, n - 1) + {NameOf(ws[n - 1])}
  }

  lemma {:induction false} FirstNamesAre(ws: seq<Wish>, n: nat, p: string)
    requires n <= |ws|
    ensures p in FirstNames(ws, n) <==> exists i :: 0 <= i < n && NameOf(ws[i]) == p
  {
    if n > 0 {
      FirstNamesAre(ws, n - 1, p);
    }
  }

  lemma AllNames(ws: seq<Wish>)
    ensures FirstNames(ws, |ws|) == NamesOf(ws)
  {
    forall p ensures p in FirstNames(ws, |ws|) <==> p in NamesOf(ws) {
      FirstNamesAre(ws, |ws|, p);
    }
  }

  ghost predicate GoodAfter(env: Environment, accesses: map<string, AccessRequest>, ws: seq<Wish>, n: nat) {
    n <= |ws| &&
    var step := Serve(env, accesses, ws, n);
    WellNamed(env, step.0) && Served(env, FirstNames(ws, n), accesses, step.0, step.1)
  }

  lemma GoodAfterOneMore(env: Environment, accesses: map<string, AccessRequest>, ws: seq<Wish>, n: nat)
    requires n < |ws| && GoodAfter(env, accesses, ws, n) && DistinctOn(env.accessName, Desired(env)) && NamesOf(ws) <= Desired(env)
    ensures GoodAfter(env, accesses, ws, n + 1)
  {
    var w, step := ws[n], Serve(env, accesses, ws, n);
    assert w in ws;
    assert NameOf(w) in Desired(env);
    assert FirstNames(ws, n) <= Desired(env) by {
      forall p | p in FirstNames(ws, n) ensures p in Desired(env) {
        FirstNamesAre(ws, n, p);
      }
    }
    WishGrows(env, FirstNames(ws, n), accesses, step.0, step.1, w);
  }

  lemma AllServed(env: Environment, accesses: map<string, AccessRequest>, ws: seq<Wish>, n: nat)
    requires n <= |ws| && WellNamed(env, accesses) && DistinctOn(env.accessName, Desired(env)) && NamesOf(ws) <= Desired(env)
    ensures GoodAfter(env, accesses, ws, n)
  {
    for i := 0 to n
      invariant GoodAfter(env, accesses, ws, i)
    {
      GoodAfterOneMore(env, accesses, ws, i);
    }
  }

  lemma WishGrows(env: Environment, names: set<string>, before: map<string, AccessRequest>, accesses: map<string, AccessRequest>,
                  updated: map<string, AccessRequest>, w: Wish)
    requires WellNamed(env, accesses) && DistinctOn(env.accessName, Desired(env)) && Served(env, names, before, accesses, updated)
    requires NameOf(w) in Desired(env) && names <= Desired(env)
    ensures
      var name := env.accessName(NameOf(w));
      var ar := WithWish(env, At(accesses, name), w);
      WellNamed(env, accesses[name := ar]) && Served(env, names + {NameOf(w)}, before, accesses[name := ar], updated[NameOf(w) := ar])
  {
    var p := NameOf(w);
    var existing := At(accesses, env.accessName(p));
    ExistingFits(env, accesses, p);
    WishIsServed(env, existing, w);
    ServedKeepsWellNamed(env, accesses, p, WithWish(env, existing, w));
    ServedGrows(env, names, before, accesses, updated, p, WithWish(env, existing, w));
  }

  lemma ExistingFits(env: Environment, accesses: map<string, AccessRequest>, p: string)
    requires WellNamed(env, accesses) && p in Desired(env)
    ensures
      var existing := At(accesses, env.accessName(p));
      existing.Some? ==> ProviderOf(existing.value) == p && !(existing.value.spec.oidc.Some? && existing.value.spec.token.Some?)
  {
  }

  lemma ServedKeepsWellNamed(env: Environment, accesses: map<string, AccessRequest>, p: string, ar: AccessRequest)
    requires WellNamed(env, accesses) && DistinctOn(env.accessName, Desired(env)) && p in Desired(env)
    requires Listed(env, ar.labels) && ProviderOf(ar) == p && !(ar.spec.oidc.Some? && ar.spec.token.Some?)
    ensures WellNamed(env, accesses[env.accessName(p) := ar])
  {
  }

  lemma ServedGrows(env: Environment, names: set<string>, before: map<string, AccessRequest>, accesses: map<string, AccessRequest>,
                    updated: map<string, AccessRequest>, p: string, ar: AccessRequest)
    requires DistinctOn(env.accessName, Desired(env)) && Served(env, names, before, accesses, updated)
    requires Listed(env, ar.labels) && ProviderOf(ar) == p && p in Desired(env) && names <= Desired(env)
    ensures Served(env, names + {p}, before, accesses[env.accessName(p) := ar], updated[p := ar])
  {
    hide Listed, ProviderOf, Desired;
    var after := accesses[env.accessName(p) := ar];
    NamesGrow(env, names, p);
    forall q | q in names + {p} ensures ServedAs(env, q, after, updated[p := ar][q]) {
      if q != p {
        assert ServedAs(env, q, accesses, updated[q]);
        OtherStaysServed(env, accesses, p, ar, q, updated[q]);
      }
    }
    forall n | n !in AccessNames(env, names + {p}) ensures At(after, n) == At(before, n) {
      assert n !in AccessNames(env, names) && n != env.accessName(p);
    }
  }

  lemma NamesGrow(env: Environment, names: set<string>, p: string)
    ensures AccessNames(env, names + {p}) == AccessNames(env, names) + {env.accessName(p)}
  {
    forall n ensures n in AccessNames(env, names + {p}) <==> n in AccessNames(env, names) + {env.accessName(p)} {
      if n in AccessNames(env, names) {
        var q :| q in names && env.accessName(q) == n;
        assert q in names + {p};
      }
      assert p in names + {p};
    }
  }

  lemma OtherStaysServed(env: Environment, accesses: map<string, AccessRequest>, p: string, ar: AccessRequest, q: string, other: AccessRequest)
    requires env.accessName(p) != env.accessName(q) && ServedAs(env, q, accesses, other)
    ensures ServedAs(env, q, accesses[env.accessName(p) := ar], other)
  {
  }

  lemma UpdatedAreDesired(env: Environment, accesses: map<string, AccessRequest>)
    ensures Serve(env, accesses, Wishes(env), |Wishes(env)|).1.Keys == Desired(env)
  {
    AllNames(Wishes(env));
    UpdatedKeys(env, accesses, Wishes(env), |Wishes(env)|);
  }

  lemma {:induction false} UpdatedKeys(env: Environment, accesses: map<string, AccessRequest>, ws: seq<Wish>, n: nat)
    requires n <= |ws|
    ensures Serve(env, accesses, ws, n).1.Keys == FirstNames(ws, n)
  {
    if n > 0 {
      UpdatedKeys(env, accesses, ws, n - 1);
    }
  }

  lemma UpdatedStandFor(env: Environment, accesses: map<string, AccessRequest>, updated: map<string, AccessRequest>, p: string)
    requires WellNamed(env, accesses) && p in updated && ServedAs(env, p, accesses, updated[p])
    requires exists w :: w in Wishes(env) && NameOf(w) == p && (match w case WishOidc(x) => x.name != "" case WishToken(t) => t.name != "")
    ensures StandsFor(env, updated[p], p)
  {
    var w :| w in Wishes(env) && NameOf(w) == p && (match w case WishOidc(x) => x.name != "" case WishToken(t) => t.name != "");
    var ar := updated[p];
    assert p[0] == 'o' || p[0] == 't';
    assert "<unknown>"[0] == '<';
    if ar.spec.token.Some? {
      var name := LabelOf(ar.labels, TOKEN_PROVIDER_LABEL);
      if w.WishOidc? {
        PrefixesDiffer(w.provider.name, name);
      } else {
        PrefixInjective(TOKEN_PREFIX, w.token.name, name);
      }
    } else {
      var name := ar.spec.oidc.value.name;
      if w.WishOidc? {
        PrefixInjective(OIDC_PREFIX, w.provider.name, name);
      }
    }
  }

  lemma FirstPhaseIsGood(env: Environment, w: World, served: map<string, AccessRequest>, updated: map<string, AccessRequest>)
    requires Orderly(env, w) && (served, updated) == Serve(env, w.accesses, Wishes(env), |Wishes(env)|)
    ensures WellNamed(env, served) && Served(env, Desired(env), w.accesses, served, updated)
    ensures Syncable(env, updated, w.secrets)
  {
    AllServed(env, w.accesses, Wishes(env), |Wishes(env)|);
    AllNames(Wishes(env));
    forall p | p in updated ensures StandsFor(env, updated[p], p) {
      var x :| x in Wishes(env) && NameOf(x) == p;
      UpdatedStandFor(env, served, updated, p);
    }
  }

  // ---------- where a pass stops ----------

  /** The AccessRequests when all wishes have been served, and those that are remembered for the later phases. */
  function AllWishesServed(env: Environment, w: World): (map<string, AccessRequest>, map<string, AccessRequest>) {
    Serve(env, w.accesses, Wishes(env), |Wishes(env)|)
  }

  /** The state after the first two phases. */
  function Aligned(env: Environment, w: World): World {
    var served := AllWishesServed(env, w).0;
    w.(accesses := Mark(served, UndesiredAccesses(env, served, Desired(env))))
  }

  /** The phase in which a pass has failed, with what it had achieved until then, or none. */
  datatype Stop =
    | Serving(n: nat)
    | DeletingAccesses(marked: set<string>)
    | Syncing(done: set<string>)
    | DeletingSecrets(synced: World, marked: set<string>)
    | Nowhere(synced: World)

  ghost predicate StoppedAt(env: Environment, platform: map<string, string>, w: World, w': World, stop: Stop) {
    var (served, updated) := AllWishesServed(env, w);
    match stop
    case Serving(n) =>
      n <= |Wishes(env)| && w' == w.(accesses := Serve(env, w.accesses, Wishes(env), n).0)
    case DeletingAccesses(marked) =>
      marked <= UndesiredAccesses(env, served, Desired(env)) && w' == w.(accesses := Mark(served, marked))
    case Syncing(done) =>
      done <= Desired(env) && SyncProgress(env, done, updated, platform, Aligned(env, w), w')
    case DeletingSecrets(synced, marked) =>
      && SyncProgress(env, Desired(env), updated, platform, Aligned(env, w), synced)
      && marked <= UndesiredSecrets(env, synced.secrets, Desired(env))
      && (marked == {} || marked != UndesiredSecrets(env, synced.secrets, Desired(env)))
      && w' == synced.(secrets := Mark(synced.secrets, marked))
    case Nowhere(synced) =>
      Phases(env, platform, w, synced, w')
  }

  ghost predicate PassStep(env: Environment, platform: map<string, string>, w: World, w': World) {
    exists stop :: StoppedAt(env, platform, w, w', stop)
  }

  /** All four phases, with the state after the third one. */
  ghost predicate Phases(env: Environment, platform: map<string, string>, w: World, synced: World, end: World) {
    && SyncProgress(env, Desired(env), AllWishesServed(env, w).1, platform, Aligned(env, w), synced)
    && end == synced.(secrets := Mark(synced.secrets, UndesiredSecrets(env, synced.secrets, Desired(env))),
                      status := synced.status - ProvidersOfSecrets(synced.secrets, UndesiredSecrets(env, synced.secrets, Desired(env))))
  }

  lemma StopsSyncing(env: Environment, platform: map<string, string>, w: World, done: set<string>, synced: World)
    requires SyncProgress(env, done, AllWishesServed(env, w).1, platform, Aligned(env, w), synced) && done <= Desired(env)
    ensures StoppedAt(env, platform, w, synced, Syncing(done))
  {
  }

  lemma StopsDeletingSecrets(env: Environment, platform: map<string, string>, w: World, synced: World, marked: set<string>,
                             ok: bool, end: World)
    requires SyncProgress(env, Desired(env), AllWishesServed(env, w).1, platform, Aligned(env, w), synced)
    requires
      var undesired := UndesiredSecrets(env, synced.secrets, Desired(env));
      && marked <= undesired && (ok ==> marked == undesired) && (!ok ==> marked == {} || marked != undesired)
      && end == synced.(secrets := Mark(synced.secrets, marked),
                        status := if ok then synced.status - ProvidersOfSecrets(synced.secrets, marked) else synced.status)
    ensures StoppedAt(env, platform, w, end, if ok then Nowhere(synced) else DeletingSecrets(synced, marked))
    ensures
      ok ==> (ReadyPhases(env, platform, w, synced, end) <==>
                && AllUsable(AllWishesServed(env, w).1, Desired(env))
                && UndesiredAccesses(env, AllWishesServed(env, w).0, Desired(env)) == {}
                && ProvidersOfSecrets(synced.secrets, marked) == {})
  {
    hide SyncProgress;
  }

  lemma WithoutWishesNothingIsCopied(env: Environment, done: set<string>, updated: map<string, AccessRequest>,
                                     platform: map<string, string>, before: World, w: World)
    requires SyncProgress(env, done, updated, platform, before, w)
    ensures done == {} ==> w == before
  {
  }

  lemma DeletingKeepsBacked(env: Environment, w: World)
    requires StatusBacked(env, w)
    ensures
      var undesired := UndesiredSecrets(env, w.secrets, Desired(env));
      StatusBacked(env, w.(secrets := Mark(w.secrets, undesired), status := w.status - ProvidersOfSecrets(w.secrets, undesired)))
  {
    var undesired := UndesiredSecrets(env, w.secrets, Desired(env));
    var secrets := Mark(w.secrets, undesired);
    forall p | p in w.status - ProvidersOfSecrets(w.secrets, undesired)
      ensures exists n :: n in secrets && Listed(env, secrets[n].labels) && ProviderOfSecret(secrets[n]) == Some(p)
    {
      var n :| n in w.secrets && Listed(env, w.secrets[n].labels) && ProviderOfSecret(w.secrets[n]) == Some(p);
      assert n !in undesired;
      assert n in secrets && secrets[n] == w.secrets[n];
    }
  }

  lemma MarkKeepsWellNamed(env: Environment, accesses: map<string, AccessRequest>, names: set<string>)
    requires WellNamed(env, accesses)
    ensures WellNamed(env, Mark(accesses, names))
  {
  }

  lemma MarkKeepsWellNamedSecrets(env: Environment, secrets: map<string, Secret>, names: set<string>)
    requires WellNamedSecrets(env, secrets)
    ensures WellNamedSecrets(env, Mark(secrets, names))
  {
  }

  lemma BackedBefore(env: Environment, w: World, before: World)
    requires StatusBacked(env, w) && before.secrets == w.secrets && before.status == w.status
    ensures StatusBacked(env, before)
  {
  }

  /** The first phase prepares the third. */
  lemma AlignedIsGood(env: Environment, w: World)
    requires Orderly(env, w)
    ensures
      var (served, updated) := AllWishesServed(env, w);
      && WellNamed(env, Aligned(env, w).accesses) && Served(env, Desired(env), w.accesses, served, updated)
      && Syncable(env, updated, w.secrets) && updated.Keys == Desired(env)
  {
    var (served, updated) := AllWishesServed(env, w);
    FirstPhaseIsGood(env, w, served, updated);
    UpdatedAreDesired(env, w.accesses);
    MarkKeepsWellNamed(env, served, UndesiredAccesses(env, served, Desired(env)));
  }

  /** Wherever a pass stops, the objects stay as well named as they were. */
  lemma StoppedIsOrderly(env: Environment, platform: map<string, string>, w: World, w': World, stop: Stop)
    requires Orderly(env, w) && StoppedAt(env, platform, w, w', stop)
    ensures Orderly(env, w')
  {
    var (served, updated) := AllWishesServed(env, w);
    AlignedIsGood(env, w);
    match stop
    case Serving(n) =>
      WishesAreDesired(env);
      AllServed(env, w.accesses, Wishes(env), n);
    case DeletingAccesses(marked) =>
      FirstPhaseIsGood(env, w, served, updated);
      MarkKeepsWellNamed(env, served, marked);
    case Syncing(done) =>
    case DeletingSecrets(synced, marked) =>
      MarkKeepsWellNamedSecrets(env, synced.secrets, marked);
    case Nowhere(synced) =>
      MarkKeepsWellNamedSecrets(env, synced.secrets, UndesiredSecrets(env, synced.secrets, Desired(env)));
  }

  lemma WishesAreDesired(env: Environment)
    ensures NamesOf(Wishes(env)) <= Desired(env)
  {
  }

  /** If no names clash, the third phase keeps a secret for every reference, wherever it stops. */
  lemma SyncKeepsSane(env: Environment, platform: map<string, string>, w: World, done: set<string>, synced: World)
    requires Sane(env, w) && NoClash(env, w) && done <= Desired(env)
    requires SyncProgress(env, done, AllWishesServed(env, w).1, platform, Aligned(env, w), synced)
    ensures Sane(env, synced) && NoClash(env, synced)
  {
    AlignedIsGood(env, w);
    BackedBefore(env, w, Aligned(env, w));
    assert NoClash(env, Aligned(env, w));
  }

  /** If no names clash, a pass that succeeds or fails in one of the first three phases keeps a secret for
      every reference, and no names clash afterwards. */
  lemma StoppedIsSane(env: Environment, platform: map<string, string>, w: World, w': World, stop: Stop)
    requires Sane(env, w) && NoClash(env, w) && StoppedAt(env, platform, w, w', stop) && !stop.DeletingSecrets?
    ensures Sane(env, w') && NoClash(env, w')
  {
    StoppedIsOrderly(env, platform, w, w', stop);
    match stop
    case Serving(_) =>
      BackedBefore(env, w, w');
    case DeletingAccesses(_) =>
      BackedBefore(env, w, w');
    case Syncing(done) =>
      SyncKeepsSane(env, platform, w, done, w');
    case Nowhere(synced) =>
      SyncKeepsSane(env, platform, w, Desired(env), synced);
      DeletingKeepsBacked(env, synced);
  }

  lemma PhasesKeepSane(env: Environment, platform: map<string, string>, w: World, synced: World, end: World)
    requires Phases(env, platform, w, synced, end)
    ensures Sane(env, w) && NoClash(env, w) ==> Sane(env, end) && NoClash(env, end)
  {
    if Sane(env, w) && NoClash(env, w) {
      StoppedIsSane(env, platform, w, end, Nowhere(synced));
    }
  }

  lemma UndesiredCounts(env: Environment, secrets: map<string, Secret>, n: string)
    requires n in UndesiredSecrets(env, secrets, Desired(env))
    ensures ProvidersOfSecrets(secrets, UndesiredSecrets(env, secrets, Desired(env))) != {}
  {
    assert ProviderOfSecret(secrets[n]).value in ProvidersOfSecrets(secrets, UndesiredSecrets(env, secrets, Desired(env)));
  }

  /** A phase that found nothing to delete has changed nothing. */
  lemma NothingDeleted(env: Environment, synced: World, end: World)
    requires ProvidersOfSecrets(synced.secrets, UndesiredSecrets(env, synced.secrets, Desired(env))) == {}
    requires end == synced.(secrets := Mark(synced.secrets, UndesiredSecrets(env, synced.secrets, Desired(env))),
                            status := synced.status - {})
    ensures UndesiredSecrets(env, synced.secrets, Desired(env)) == {} && end == synced
  {
    var undesired := UndesiredSecrets(env, synced.secrets, Desired(env));
    forall n ensures n !in undesired {
      if n in undesired {
        UndesiredCounts(env, synced.secrets, n);
      }
    }
    assert undesired == {};
    assert Mark(synced.secrets, {}) == synced.secrets;
    assert synced.status - {} == synced.status;
  }

  /** The references after the third phase are the old ones and those of the desired providers. */
  lemma ReferencesAfterSync(env: Environment, updated: map<string, AccessRequest>, before: World, synced: World)
    requires SyncFrame(env, updated.Keys, updated, before, synced) && AllUsable(updated, updated.Keys)
    ensures synced.status.Keys == before.status.Keys + updated.Keys
  {
    forall p ensures p in synced.status <==> p in before.status || p in updated {
      if p in synced.status && p !in updated {
        assert At(synced.status, p) == At(before.status, p);
      }
      if p in updated {
        assert Usable(updated[p]);
      }
    }
  }

  lemma ServedIsUsable(env: Environment, platform: map<string, string>, updated: map<string, AccessRequest>,
                       accesses: map<string, AccessRequest>, synced: World, p: string)
    requires AllCopied(env, updated.Keys, updated, platform, synced) && AllUsable(updated, updated.Keys)
    requires p in updated && ServedAs(env, p, accesses, updated[p]) && StandsFor(env, updated[p], p) && synced.accesses == accesses
    ensures ProviderConverged(env, platform, synced, p)
  {
    assert Usable(updated[p]) && CopiedIfUsable(env, updated, platform, synced, p);
  }

  /** The third phase found nothing to wait for, and the others nothing to delete. */
  ghost predicate ReadyPhases(env: Environment, platform: map<string, string>, w: World, synced: World, end: World) {
    && Phases(env, platform, w, synced, end) && AllUsable(AllWishesServed(env, w).1, Desired(env))
    && UndesiredAccesses(env, AllWishesServed(env, w).0, Desired(env)) == {}
    && ProvidersOfSecrets(synced.secrets, UndesiredSecrets(env, synced.secrets, Desired(env))) == {}
  }

  /** Without wishes only objects that have to be deleted are waited for. */
  lemma SomethingToDelete(env: Environment, platform: map<string, string>, w: World, end: World)
    requires Wishes(env) == []
    requires exists synced :: Phases(env, platform, w, synced, end) && !ReadyPhases(env, platform, w, synced, end)
    ensures UndesiredAccesses(env, w.accesses, {}) != {} || UndesiredSecrets(env, w.secrets, {}) != {}
  {
    var synced :| Phases(env, platform, w, synced, end) && !ReadyPhases(env, platform, w, synced, end);
    UpdatedAreDesired(env, w.accesses);
    assert AllWishesServed(env, w) == (w.accesses, map[]) && Desired(env) == {};
    assert synced == Aligned(env, w) && synced.secrets == w.secrets;
    assert UndesiredSecrets(env, w.secrets, {}) == {} ==> ProvidersOfSecrets(w.secrets, UndesiredSecrets(env, w.secrets, {})) == {};
  }

  lemma ReadyDeletesNothing(env: Environment, platform: map<string, string>, w: World, synced: World, end: World)
    requires ReadyPhases(env, platform, w, synced, end)
    ensures Aligned(env, w) == w.(accesses := AllWishesServed(env, w).0)
    ensures end == synced && synced.accesses == AllWishesServed(env, w).0 && UndesiredSecrets(env, synced.secrets, Desired(env)) == {}
  {
    var served := AllWishesServed(env, w).0;
    assert Mark(served, {}) == served;
    NothingDeleted(env, synced, end);
  }

  /** After a ready result the references are those of the desired providers exactly if there were no others
      before. */
  lemma ReadyReferences(env: Environment, platform: map<string, string>, w: World, synced: World, end: World)
    requires ReadyPhases(env, platform, w, synced, end)
    ensures end.status.Keys == w.status.Keys + Desired(env)
    ensures end.status.Keys == Desired(env) <==> w.status.Keys <= Desired(env)
  {
    ReadyDeletesNothing(env, platform, w, synced, end);
    UpdatedAreDesired(env, w.accesses);
    ReferencesAfterSync(env, AllWishesServed(env, w).1, Aligned(env, w), synced);
    UnionIsSecond(w.status.Keys, Desired(env));
  }

  lemma UnionIsSecond(a: set<string>, b: set<string>)
    ensures a + b == b <==> a <= b
  {
    if a + b == b {
      forall x | x in a ensures x in b {
        assert x in a + b;
      }
    }
  }

  /** Two providers cannot both have the secret of one name. */
  lemma ConvergedHasNoClash(env: Environment, platform: map<string, string>, w: World, end: World)
    requires Converged(env, platform, end) && w.status.Keys <= end.status.Keys
    ensures NoClash(env, w)
  {
    forall p, q | p in Desired(env) && (q in Desired(env) || q in w.status) && SecretName(env, p) == SecretName(env, q) ensures p == q {
      assert ProviderConverged(env, platform, end, p) && ProviderConverged(env, platform, end, q);
    }
  }

  lemma BackedHasNoClash(env: Environment, w: World, end: World)
    requires StatusBacked(env, end) && WellNamedSecrets(env, end.secrets) && Desired(env) + w.status.Keys <= end.status.Keys
    ensures NoClash(env, w)
  {
    forall p, q | p in Desired(env) && (q in Desired(env) || q in w.status) && SecretName(env, p) == SecretName(env, q) ensures p == q {
      assert p in end.status && q in end.status;
      var x :| x in end.secrets && Listed(env, end.secrets[x].labels) && ProviderOfSecret(end.secrets[x]) == Some(p);
      var y :| y in end.secrets && Listed(env, end.secrets[y].labels) && ProviderOfSecret(end.secrets[y]) == Some(q);
      assert SecretName(env, p) == x && SecretName(env, q) == y;
    }
  }

  /** If no names clash and nothing is left to delete, there were only references of desired providers. */
  lemma ReadyMeansDesired(env: Environment, updated: map<string, AccessRequest>, w: World, synced: World)
    requires StatusBacked(env, w) && WellNamedSecrets(env, w.secrets) && NoClash(env, w)
    requires SyncFrame(env, Desired(env), updated, w, synced.(accesses := w.accesses))
    requires UndesiredSecrets(env, synced.secrets, Desired(env)) == {}
    ensures w.status.Keys <= Desired(env)
  {
    forall q | q in w.status ensures q in Desired(env) {
      var x :| x in w.secrets && Listed(env, w.secrets[x].labels) && ProviderOfSecret(w.secrets[x]) == Some(q);
      assert SecretName(env, q) == x && x in synced.secrets;
      if At(w.secrets, x) == Some(synced.secrets[x]) {
        assert x !in UndesiredSecrets(env, synced.secrets, Desired(env));
      } else {
        var p :| p in Desired(env) && p in updated && SecretName(env, p) == x && CopyLabels(env, synced.secrets[x].labels, updated[p]);
        assert p == q;
      }
    }
  }

  lemma ReadyConverges(env: Environment, platform: map<string, string>, w: World, synced: World, end: World)
    requires ReadyPhases(env, platform, w, synced, end) && Sane(env, w) && NoClash(env, w)
    ensures Converged(env, platform, end)
  {
    hide Listed, NoClash, WellNamed, WellNamedSecrets, StatusBacked, Served, Converged;
    var (served, updated) := AllWishesServed(env, w);
    ReadyDeletesNothing(env, platform, w, synced, end);
    ReadyReferences(env, platform, w, synced, end);
    AlignedIsGood(env, w);
    ServedOneByOne(env, Desired(env), w.accesses, served, updated);
    SameReferencesSameClashes(env, w, Aligned(env, w));
    ReadyMeansDesired(env, updated, w, synced);
    SyncedIsConverged(env, platform, served, updated, synced);
  }

  lemma ServedOneByOne(env: Environment, names: set<string>, before: map<string, AccessRequest>, after: map<string, AccessRequest>,
                       updated: map<string, AccessRequest>)
    requires Served(env, names, before, after, updated)
    ensures forall p :: p in updated ==> ServedAs(env, p, after, updated[p])
  {
  }

  lemma SameReferencesSameClashes(env: Environment, w: World, w': World)
    requires w'.status == w.status && NoClash(env, w)
    ensures NoClash(env, w')
  {
  }

  /** A ready result means convergence exactly if no desired provider shares its secret name with another
      desired one or with one that the status refers to, and then no reference has lost its secret. */
  lemma ReadyConvergesIff(env: Environment, platform: map<string, string>, w: World, synced: World, end: World)
    requires ReadyPhases(env, platform, w, synced, end) && Sane(env, w)
    ensures Converged(env, platform, end) <==> NoClash(env, w)
    ensures StatusBacked(env, end) <==> NoClash(env, w)
  {
    hide StatusBacked, NoClash, Converged, ReadyPhases, Orderly, WellNamedSecrets;
    ReadyReferences(env, platform, w, synced, end);
    OrderlyStays(env, platform, w, synced, end);
    if NoClash(env, w) {
      ReadyConverges(env, platform, w, synced, end);
      ReadyIsSane(env, platform, w, synced, end);
    }
    if Converged(env, platform, end) {
      ConvergedHasNoClash(env, platform, w, end);
    }
    if StatusBacked(env, end) {
      BackedHasNoClash(env, w, end);
    }
  }

  lemma OrderlyStays(env: Environment, platform: map<string, string>, w: World, synced: World, end: World)
    requires ReadyPhases(env, platform, w, synced, end) && Orderly(env, w)
    ensures WellNamedSecrets(env, end.secrets)
  {
    hide WellNamedSecrets;
    StoppedIsOrderly(env, platform, w, end, Nowhere(synced));
  }

  lemma ReadyIsSane(env: Environment, platform: map<string, string>, w: World, synced: World, end: World)
    requires ReadyPhases(env, platform, w, synced, end) && Sane(env, w) && NoClash(env, w)
    ensures StatusBacked(env, end)
  {
    hide StatusBacked, NoClash, Orderly;
    StoppedIsSane(env, platform, w, end, Nowhere(synced));
  }

  lemma SyncedIsConverged(env: Environment, platform: map<string, string>, served: map<string, AccessRequest>,
                          updated: map<string, AccessRequest>, synced: World)
    requires updated.Keys == Desired(env) && AllUsable(updated, updated.Keys) && synced.status.Keys == Desired(env)
    requires forall p :: p in updated ==> ServedAs(env, p, served, updated[p]) && StandsFor(env, updated[p], p)
    requires AllCopied(env, updated.Keys, updated, platform, synced) && synced.accesses == served
    requires UndesiredAccesses(env, served, Desired(env)) == {} && UndesiredSecrets(env, synced.secrets, Desired(env)) == {}
    ensures Converged(env, platform, synced)
  {
    forall p | p in Desired(env) ensures ProviderConverged(env, platform, synced, p) {
      ServedIsUsable(env, platform, updated, served, synced, p);
    }
  }

  /** Without shortening, names clash exactly if they differ in dashes and underscores only. */
  lemma NoClashIff(env: Environment, w: World)
    requires Shortens(env.shorten) && forall p :: p in Desired(env) || p in w.status ==> Fits(env, p)
    ensures NoClash(env, w) <==>
            forall p, q :: p in Desired(env) && (q in Desired(env) || q in w.status) && SameUpToDashes(p, q) ==> p == q
  {
    hide Shortens, SecretName, Desired, Fits, SameUpToDashes;
    forall p, q | p in Desired(env) && (q in Desired(env) || q in w.status)
      ensures SecretName(env, p) == SecretName(env, q) <==> SameUpToDashes(p, q)
    {
      SameSecretNameIff(env, p, q);
    }
  }

  lemma TokenIsDesired(env: Environment, i: nat)
    requires !env.cp.deleting && i < |env.cp.tokens|
    ensures TOKEN_PREFIX + env.cp.tokens[i].name in Desired(env)
  {
    var ws, n := Wishes(env), |OidcWishes(env)|;
    assert ws[n + i] == WishToken(env.cp.tokens[i]);
    assert NameOf(ws[n + i]) in NamesOf(ws);
  }

  /** Two tokens whose names differ in a dash: their secrets have the same name, so that access to this
      ControlPlane never converges. */
  lemma TokensClash(env: Environment, platform: map<string, string>, w: World)
    requires Shortens(env.shorten) && |env.cp.name| <= 20 && !env.cp.deleting
    requires |env.cp.tokens| == 2 && env.cp.tokens[0].name == "a_b" && env.cp.tokens[1].name == "a-b"
    ensures {"token_a_b", "token_a-b"} <= Desired(env) && SecretName(env, "token_a_b") == SecretName(env, "token_a-b")
    ensures !NoClash(env, w) && !Converged(env, platform, w)
  {
    hide Shortens, SecretName, Desired, Converged, Dashed;
    var p, q := "token_a_b", "token_a-b";
    assert p[7] != q[7];
    TokenIsDesired(env, 0);
    TokenIsDesired(env, 1);
    assert p == TOKEN_PREFIX + "a_b" && q == TOKEN_PREFIX + "a-b";
    assert Fits(env, p) && Fits(env, q);
    SameSecretNameIff(env, p, q);
    if Converged(env, platform, w) {
      ConvergedHasNoClash(env, platform, w, w);
    }
  }

  // ---------- failures of the fourth phase ----------

  /** Some deletions have been requested and others have failed: all references keep a secret exactly if none
      of them has lost its own, that is, if each still has a listed secret that was not deleted or is held back
      by a finalizer. */
  lemma FailedDeletionKeepsBackedIff(env: Environment, w: World, marked: set<string>)
    ensures
      StatusBacked(env, w.(secrets := Mark(w.secrets, marked))) <==>
      forall p :: p in w.status ==>
        exists n :: n in w.secrets && Listed(env, w.secrets[n].labels) && ProviderOfSecret(w.secrets[n]) == Some(p)
                    && !(n in marked && w.secrets[n].finalizers == [])
  {
    var secrets := Mark(w.secrets, marked);
    assert forall n :: n in secrets <==> n in w.secrets && !(n in marked && w.secrets[n].finalizers == []);
    assert forall n :: n in secrets ==> secrets[n].labels == w.secrets[n].labels;
  }

  /** The secrets that are gone as soon as their deletion is requested. */
  function Vanishing(secrets: map<string, Secret>, marked: set<string>): set<string> {
    set n | n in marked && n in secrets && secrets[n].finalizers == []
  }

  /** For well named secrets this is about the names that the references have. */
  lemma FailedPassIsSaneIff(env: Environment, platform: map<string, string>, w: World, w': World, synced: World, marked: set<string>)
    requires Sane(env, w) && NoClash(env, w) && StoppedAt(env, platform, w, w', DeletingSecrets(synced, marked))
    ensures Sane(env, w') <==>
            forall p :: p in synced.status ==> !(SecretName(env, p) in Vanishing(synced.secrets, marked))
  {
    hide Listed, ProviderOfSecret, SecretName, NoClash, Desired;
    StoppedIsOrderly(env, platform, w, w', DeletingSecrets(synced, marked));
    SyncKeepsSane(env, platform, w, Desired(env), synced);
    FailedDeletionKeepsBackedIff(env, synced, marked);
    forall p | p in synced.status
      ensures SecretName(env, p) in synced.secrets && Listed(env, synced.secrets[SecretName(env, p)].labels)
              && ProviderOfSecret(synced.secrets[SecretName(env, p)]) == Some(p)
    {
      var n :| n in synced.secrets && Listed(env, synced.secrets[n].labels) && ProviderOfSecret(synced.secrets[n]) == Some(p);
      assert SecretName(env, p) == n;
    }
  }

  /** Two secrets have to be deleted, and one of the calls fails: the reference to the other one is left
      without a secret. */
  lemma PartialFailureLosesBacking(env: Environment, platform: map<string, string>)
    requires env.cp.deleting
    ensures
      exists w: World, w': World, marked: set<string> ::
        && marked < UndesiredSecrets(env, w.secrets, Desired(env)) && |marked| == 1
        && StoppedAt(env, platform, w, w', DeletingSecrets(w, marked)) && w'.status == w.status
        && StatusBacked(env, w) && !StatusBacked(env, w')
  {
    hide StoppedAt, StatusBacked, UndesiredSecrets;
    var (w, w') := TwoReferences(env);
    TwoReferencesAreBacked(env);
    TwoSecretsAreUndesired(env);
    FailingAfterTheFirst(env, platform, w);
    assert {"a"} < {"a", "b"} by {
      assert "b" !in {"a"};
    }
  }

  function OidcSecret(env: Environment, name: string): Secret {
    Object([], false, WithOwnLabels(env, map[])[OIDC_PROVIDER_LABEL := name], map[], "")
  }

  /** Two secrets with references, before and after the first one has been deleted. */
  function TwoReferences(env: Environment): (World, World) {
    var b := map["b" := OidcSecret(env, "b")];
    var w := World(map[], b["a" := OidcSecret(env, "a")], map["oidc_a" := "a", "oidc_b" := "b"]);
    (w, w.(secrets := b))
  }

  lemma OidcSecretStandsFor(env: Environment, name: string)
    requires name != ""
    ensures var s := OidcSecret(env, name); Listed(env, s.labels) && ProviderOfSecret(s) == Some(OIDC_PREFIX + name)
  {
    DistinctLabels();
  }

  lemma TwoReferencesAreBacked(env: Environment)
    ensures var (w, w') := TwoReferences(env); StatusBacked(env, w) && !StatusBacked(env, w')
  {
    hide Listed, ProviderOfSecret, OidcSecret;
    var (w, w') := TwoReferences(env);
    OidcSecretStandsFor(env, "a");
    OidcSecretStandsFor(env, "b");
    assert OIDC_PREFIX + "a" == "oidc_a" && OIDC_PREFIX + "b" == "oidc_b";
    assert "oidc_a"[5] != "oidc_b"[5];
    assert "a" in w.secrets && "b" in w.secrets;
    assert "oidc_a" in w'.status;
  }

  lemma TwoSecretsAreUndesired(env: Environment)
    requires env.cp.deleting
    ensures UndesiredSecrets(env, TwoReferences(env).0.secrets, Desired(env)) == {"a", "b"}
  {
    hide Listed, ProviderOfSecret, OidcSecret;
    OidcSecretStandsFor(env, "a");
    OidcSecretStandsFor(env, "b");
    assert Desired(env) == {};
  }

  lemma FailingAfterTheFirst(env: Environment, platform: map<string, string>, w: World)
    requires env.cp.deleting && w == TwoReferences(env).0 && UndesiredSecrets(env, w.secrets, Desired(env)) == {"a", "b"}
    ensures StoppedAt(env, platform, w, TwoReferences(env).1, DeletingSecrets(w, {"a"}))
  {
    hide UndesiredSecrets, SyncProgress;
    NothingToAlign(env, w);
    SyncStarts(env, map[], platform, w);
    assert "b" !in {"a"} && "b" in {"a", "b"};
    FirstIsGone(env);
  }

  lemma NothingToAlign(env: Environment, w: World)
    requires Wishes(env) == [] && w.accesses == map[]
    ensures AllWishesServed(env, w) == (map[], map[]) && Desired(env) == {} && Aligned(env, w) == w
  {
  }

  lemma FirstIsGone(env: Environment)
    ensures var (w, w') := TwoReferences(env); w' == w.(secrets := Mark(w.secrets, {"a"}))
  {
    var (w, w') := TwoReferences(env);
    assert "b" !in {"a"};
    assert w'.secrets == Mark(w.secrets, {"a"});
  }
}
