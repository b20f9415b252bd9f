/** Access to a ControlPlane over many passes: what a failed deletion of a secret leaves behind. */
module ControlPlaneAccessRuns {
  import opened Kube
  import opened ControlPlaneAccess

  /** One step of a run: a pass, for the ControlPlane and the configuration as they are then, or changes by
      others, who neither write references nor create or relabel secrets. */
  datatype Event = Pass(env: Environment, platform: map<string, string>) | Others

  ghost predicate Next(w: World, e: Event, w': World) {
    match e
    case Pass(env, platform) => PassStep(env, platform, w, w')
    case Others => w'.status == w.status && NothingNew(w.secrets, w'.secrets)
  }

  ghost predicate StepAt(ws: seq<World>, es: seq<Event>, i: nat)
    requires |ws| == |es| + 1 && i < |es|
  {
    Next(ws[i], es[i], ws[i + 1])
  }

  ghost predicate Run(ws: seq<World>, es: seq<Event>) {
    |ws| == |es| + 1 && forall i :: 0 <= i < |es| ==> StepAt(ws, es, i)
  }

  /** The pass is for this ControlPlane, all whose providers have names, and does not desire the provider. */
  ghost predicate Undesiring(e: Event, cp: ControlPlane, p: string) {
    e.Pass? ==>
      && e.env.cp.name == cp.name && e.env.cp.namespace == cp.namespace && p !in Desired(e.env)
      && AllNamed(e.env)
  }

  ghost predicate AllNamed(env: Environment) {
    forall x :: x in Wishes(env) ==> (match x case WishOidc(p) => p.name != "" case WishToken(t) => t.name != "")
  }

  /** The secret is listed for the provider. */
  predicate SecretOf(cp: ControlPlane, s: Secret, p: string) {
    && HasLabel(s.labels, MCP_NAME_LABEL, cp.name) && HasLabel(s.labels, MCP_NAMESPACE_LABEL, cp.namespace)
    && HasLabel(s.labels, MANAGED_BY_LABEL, CONTROLLER_NAME) && ProviderOfSecret(s) == Some(p)
  }

  /** The status refers to the provider, but no secret stands for it. */
  ghost predicate Unbacked(cp: ControlPlane, w: World, p: string) {
    p in w.status && forall n :: n in w.secrets ==> !SecretOf(cp, w.secrets[n], p)
  }

  /** An AccessRequest after it has been written for the wish carries the name of the wished provider. */
  predicate NamedFor(ar: AccessRequest, p: string) {
    || (ar.spec.oidc.Some? && ar.spec.oidc.value.name != "" && OIDC_PREFIX + ar.spec.oidc.value.name == p)
    || (ar.spec.token.Some? && LabelOf(ar.labels, TOKEN_PROVIDER_LABEL) != "" && TOKEN_PREFIX + LabelOf(ar.labels, TOKEN_PROVIDER_LABEL) == p)
  }

  lemma WishNames(env: Environment, existing: Option<AccessRequest>, w: Wish)
    requires match w case WishOidc(p) => p.name != "" case WishToken(t) => t.name != ""
    ensures NamedFor(WithWish(env, existing, w), NameOf(w))
  {
  }

  lemma {:induction false} ServedAreNamed(env: Environment, accesses: map<string, AccessRequest>, n: nat, p: string)
    requires n <= |Wishes(env)| && AllNamed(env)
    ensures
      var updated := Serve(env, accesses, Wishes(env), n).1;
      p in updated ==> NamedFor(updated[p], p)
  {
    if n > 0 {
      var w := Wishes(env)[n - 1];
      ServedAreNamed(env, accesses, n - 1, p);
      assert w in Wishes(env);
      WishNames(env, At(Serve(env, accesses, Wishes(env), n - 1).0, env.accessName(NameOf(w))), w);
    }
  }

  /** A copied secret stands for the provider it was copied for or for none. */
  lemma CopyStandsForNobodyElse(env: Environment, s: Secret, ar: AccessRequest, p: string)
    requires NamedFor(ar, p) && CopyLabels(env, s.labels, ar)
    ensures ProviderOfSecret(s) in {None, Some(p)}
  {
  }

  /** The third phase does not bring secrets of other providers. */
  lemma SyncBringsNoOther(env: Environment, platform: map<string, string>, w: World, done: set<string>, synced: World, p: string)
    requires SyncFrame(env, done, AllWishesServed(env, w).1, Aligned(env, w), synced)
    requires done <= Desired(env) && p !in Desired(env) && AllNamed(env) && Unbacked(env.cp, w, p)
    ensures Unbacked(env.cp, synced, p)
  {
    hide ProviderOfSecret, CopyLabels, NamedFor, AllNamed, Desired;
    var updated := AllWishesServed(env, w).1;
    assert At(synced.status, p) == At(w.status, p);
    forall n | n in synced.secrets ensures !SecretOf(env.cp, synced.secrets[n], p) {
      if At(w.secrets, n) != Some(synced.secrets[n]) {
        var q :| q in done && q in updated && SecretName(env, q) == n && CopyLabels(env, synced.secrets[n].labels, updated[q]);
        ServedAreNamed(env, w.accesses, |Wishes(env)|, q);
        CopyStandsForNobodyElse(env, synced.secrets[n], updated[q], q);
      }
    }
  }

  /** Deleting secrets keeps the reference: it goes only together with a secret. */
  lemma DeletingKeepsUnbacked(cp: ControlPlane, w: World, marked: set<string>, p: string)
    requires Unbacked(cp, w, p)
    ensures Unbacked(cp, w.(secrets := Mark(w.secrets, marked)), p)
  {
  }

  lemma NotCollected(env: Environment, w: World, p: string)
    requires Unbacked(env.cp, w, p)
    ensures p !in ProvidersOfSecrets(w.secrets, UndesiredSecrets(env, w.secrets, Desired(env)))
  {
    hide ProviderOfSecret, Desired;
  }

  lemma PassKeepsUnbacked(env: Environment, platform: map<string, string>, w: World, w': World, stop: Stop, p: string)
    requires StoppedAt(env, platform, w, w', stop) && p !in Desired(env) && AllNamed(env) && Unbacked(env.cp, w, p)
    ensures Unbacked(env.cp, w', p)
  {
    hide SecretOf, AllNamed, UndesiredSecrets, ProvidersOfSecrets, SyncFrame, Syncable, Desired;
    match stop
    case Serving(_) =>
    case DeletingAccesses(_) =>
    case Syncing(done) =>
      SyncBringsNoOther(env, platform, w, done, w', p);
    case DeletingSecrets(synced, marked) =>
      SyncBringsNoOther(env, platform, w, Desired(env), synced, p);
      DeletingKeepsUnbacked(env.cp, synced, marked, p);
    case Nowhere(synced) =>
      SyncBringsNoOther(env, platform, w, Desired(env), synced, p);
      DeletingKeepsUnbacked(env.cp, synced, UndesiredSecrets(env, synced.secrets, Desired(env)), p);
      NotCollected(env, synced, p);
  }

  lemma StepKeepsUnbacked(w: World, e: Event, w': World, cp: ControlPlane, p: string)
    requires Next(w, e, w') && Undesiring(e, cp, p) && Unbacked(cp, w, p)
    ensures Unbacked(cp, w', p)
  {
    match e
    case Pass(env, platform) =>
      var stop :| StoppedAt(env, platform, w, w', stop);
      SameOwner(env.cp, cp, w, p);
      PassKeepsUnbacked(env, platform, w, w', stop, p);
      SameOwner(env.cp, cp, w', p);
    case Others =>
      forall n | n in w'.secrets ensures !SecretOf(cp, w'.secrets[n], p) {
        assert n in w.secrets && w'.secrets[n].labels == w.secrets[n].labels;
        assert !SecretOf(cp, w.secrets[n], p);
      }
  }

  lemma SameOwner(cp: ControlPlane, cp': ControlPlane, w: World, p: string)
    requires cp.name == cp'.name && cp.namespace == cp'.namespace
    ensures Unbacked(cp, w, p) <==> Unbacked(cp', w, p)
  {
    forall n | n in w.secrets ensures SecretOf(cp, w.secrets[n], p) == SecretOf(cp', w.secrets[n], p) {
    }
  }

  /** A reference that has lost its secret stays in the status through all passes, successful or not, until its
      provider is desired again, and as long as it is there, access has not converged. */
  lemma {:induction false} UnbackedReferenceStays(ws: seq<World>, es: seq<Event>, cp: ControlPlane, p: string, k: nat)
    requires Run(ws, es) && k <= |es| && Unbacked(cp, ws[0], p)
    requires forall i :: 0 <= i < k ==> Undesiring(es[i], cp, p)
    ensures Unbacked(cp, ws[k], p)
    ensures forall env, platform :: p !in Desired(env) ==> !Converged(env, platform, ws[k])
  {
    if k > 0 {
      UnbackedReferenceStays(ws, es, cp, p, k - 1);
      assert StepAt(ws, es, k - 1);
      StepKeepsUnbacked(ws[k - 1], es[k - 1], ws[k], cp, p);
    }
  }

  lemma SecretsOfProvidersAreListed(env: Environment, s: Secret, p: string)
    ensures SecretOf(env.cp, s, p) <==> Listed(env, s.labels) && ProviderOfSecret(s) == Some(p)
  {
  }

  /** Such references are there exactly if not all references have a secret: what a failed deletion leaves. */
  lemma UnbackedIffNotBacked(env: Environment, w: World)
    ensures StatusBacked(env, w) <==> forall p :: !Unbacked(env.cp, w, p)
  {
    hide ProviderOfSecret, Listed, SecretOf;
    forall p | p in w.status
      ensures Unbacked(env.cp, w, p) <==>
              !exists n :: n in w.secrets && Listed(env, w.secrets[n].labels) && ProviderOfSecret(w.secrets[n]) == Some(p)
    {
      forall n | n in w.secrets
        ensures SecretOf(env.cp, w.secrets[n], p) <==> Listed(env, w.secrets[n].labels) && ProviderOfSecret(w.secrets[n]) == Some(p)
      {
        SecretsOfProvidersAreListed(env, w.secrets[n], p);
      }
    }
  }
}
