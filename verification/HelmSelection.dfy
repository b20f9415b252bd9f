/** Which clusters a HelmDeployment is deployed to and which ones are cleaned up, in terms of deletion, selectors,
    labels and finalizers. */
module HelmSelection {
  import opened Kube
  import opened HelmTeardown
  import Selectors = PurposeSelectors
  import Labeling = LabelSelectors

  /** The cluster is alive and matches the selector: a list of identities decides alone, otherwise labels and
      purposes do, and without a selector all clusters match. */
  ghost predicate Chosen(env: Environment, k: Key, c: Cluster) {
    && !c.deleting
    && (env.selector.Some? ==>
          var s := env.selector.value;
          if s.identities.Some? then k in s.identities.value
          else
            && (s.labels.Some? ==> Labeling.Valid(s.labels.value) && Labeling.Matches(s.labels.value, c.labels))
            && forall r :: r in s.purposes ==> Selectors.Holds(r, Selectors.SetOf(c.spec)))
  }

  lemma ChosenIffSelected(env: Environment, k: Key, c: Cluster)
    ensures Chosen(env, k, c) <==> IsSelected(env, k, c)
  {
    if env.selector.Some? {
      Selectors.SelectorDecision(env.selector.value, Selectors.Subject(k, c.labels, c.spec));
    }
  }

  /** The finalizer that the deployment puts on clusters. */
  predicate Holds(env: Environment, w: World, k: Key) {
    k in w.clusters && "helm.open-control-plane.io/" + env.uid in w.clusters[k].finalizers
  }

  lemma HoldsIff(env: Environment, w: World, k: Key)
    ensures Holds(env, w, k) <==> HasFinalizer(env, w.clusters, k)
  {
    assert GROUP_NAME + "/" == "helm.open-control-plane.io/";
  }

  /** The object carries the deployment's labels and the name of the cluster, and is in its namespace. */
  predicate IsFor(env: Environment, f: FluxKey, o: Flux, k: Key) {
    && (forall l :: l in env.labels ==> l in o.labels && o.labels[l] == env.labels[l])
    && f.namespace == k.namespace
    && "helm.open-control-plane.io/cluster-name" in o.labels && o.labels["helm.open-control-plane.io/cluster-name"] == k.name
  }

  lemma ListedIff(env: Environment, f: FluxKey, o: Flux, k: Key)
    ensures Listed(env, Some(k), f, o) <==> IsFor(env, f, o, k)
  {
    assert CLUSTER_NAME_LABEL == "helm.open-control-plane.io/cluster-name";
  }

  // ---------- clusters that are not chosen ----------

  /** A step on a cluster that is being deleted or does not match brings nothing: no finalizer of the deployment
      comes up on any cluster, and no Flux object is created or relabelled. */
  lemma NothingComesUp(env: Environment, w: World, k: Key, w': World)
    requires Next(env, w, OnCluster(k), w') && k in w.clusters && !Chosen(env, k, w.clusters[k])
    ensures forall x :: Holds(env, w', x) ==> Holds(env, w, x)
    ensures forall f :: f in w'.flux ==> f in w.flux && w'.flux[f].labels == w.flux[f].labels
  {
    hide IsSelected, Released, Chosen;
    ChosenIffSelected(env, k, w.clusters[k]);
    var marked :| CleanUp(env, k, w, w', marked);
    forall x | Holds(env, w', x) ensures Holds(env, w, x) {
      HoldsIff(env, w, x);
      HoldsIff(env, w', x);
      if w'.clusters != w.clusters {
        ReleasedElsewhere(env, w.clusters, {k}, x);
      }
    }
  }

  /** The object is gone or is being deleted. */
  predicate Going(flux: map<FluxKey, Flux>, f: FluxKey) {
    f in flux ==> flux[f].deleting
  }

  /** What the clean-up of a cluster achieves: the releases for the cluster are going, and so are the sources if
      there are no releases. If there was neither, the cluster is free. */
  ghost predicate CleanedUp(env: Environment, k: Key, w: World, w': World) {
    var mine := set f | f in w.flux && IsFor(env, f, w.flux[f], k);
    && (forall f :: f in mine && f.kind.HelmRelease? ==> Going(w'.flux, f))
    && ((forall f :: f in mine ==> !f.kind.HelmRelease?) ==> forall f :: f in mine ==> Going(w'.flux, f))
    && (mine == {} ==> !Holds(env, w', k))
  }

  /** The step for such a cluster achieves this if no call fails. */
  lemma FullCleanUpIsRight(env: Environment, k: Key, w: World, w': World)
    requires FullCleanUp(env, k, w, w')
    ensures CleanedUp(env, k, w, w')
  {
    hide Listed, IsFor, IsSelected, Released;
    var marked :| CleanUp(env, k, w, w', marked) && marked == ToCleanUp(env, k, w.flux);
    var mine := set f | f in w.flux && IsFor(env, f, w.flux[f], k);
    var releases, sources := ReleasesOf(env, Some(k), w.flux), SourcesOf(env, Some(k), w.flux);
    forall f | f in w.flux ensures f in mine <==> f in releases || f in sources {
      ListedIff(env, f, w.flux[f], k);
    }
    forall f | f in marked ensures Going(w'.flux, f) {
    }
    HoldsIff(env, w', k);
    if forall f :: f in mine ==> !f.kind.HelmRelease? {
      assert releases == {};
      assert ClustersOf(w.flux, releases) == {};
    }
    if mine == {} {
      assert releases == {} && sources == {};
    }
  }

  // ---------- clusters that are chosen ----------

  /** A step on a live cluster that matches takes nothing away that is needed: the cluster keeps the deployment's
      finalizer, and no release is deleted. */
  lemma NothingIsCleanedUp(env: Environment, w: World, k: Key, w': World)
    requires Next(env, w, OnCluster(k), w') && k in w.clusters && Chosen(env, k, w.clusters[k])
    ensures forall x :: Holds(env, w, x) ==> Holds(env, w', x)
    ensures forall f :: f in w.flux && f.kind.HelmRelease? ==> f in w'.flux && w'.flux[f].deleting == w.flux[f].deleting
  {
    hide IsSelected, Chosen;
    ChosenIffSelected(env, k, w.clusters[k]);
    assert Deploy(env, k, w, w');
    forall f | f in w.flux && f.kind.HelmRelease? ensures f in w'.flux && w'.flux[f].deleting == w.flux[f].deleting {
      if w'.flux != w.flux {
        ReleaseSurvives(env, k, w.flux, w'.flux, f);
      }
    }
  }

  lemma ReleaseSurvives(env: Environment, k: Key, flux: map<FluxKey, Flux>, flux': map<FluxKey, Flux>, f: FluxKey)
    requires env.sourceKind.Some? && DeployedFlux(env, k, flux, flux') && f in flux && f.kind.HelmRelease?
    ensures f in flux' && flux'[f].deleting == flux[f].deleting
  {
    hide Listed;
  }

  /** Whatever such a step writes is for this cluster: objects that are created or relabelled are in its
      namespace, have the name of the deployment's objects for the cluster, and carry the labels by which they
      are found again. Only sources for the cluster are deleted. All other objects stay as they are. */
  lemma DeployedForCluster(env: Environment, w: World, k: Key, w': World, f: FluxKey)
    requires Next(env, w, OnCluster(k), w') && k in w.clusters && Chosen(env, k, w.clusters[k])
    requires "helm.open-control-plane.io/cluster-name" !in env.labels
    requires At(w'.flux, f) != At(w.flux, f)
    ensures
      || (&& f.namespace == k.namespace && f.name == env.fluxName(k.name) && f in w'.flux && IsFor(env, f, w'.flux[f], k)
          && w'.flux[f] == (if f in w.flux then w.flux[f].(labels := w'.flux[f].labels) else Object([], false, w'.flux[f].labels, map[], ()))
          && env.sourceKind.Some? && f.kind in {HelmRelease, env.sourceKind.value})
      || (!f.kind.HelmRelease? && f in w.flux && IsFor(env, f, w.flux[f], k) && Going(w'.flux, f))
  {
    hide IsSelected, Chosen;
    ChosenIffSelected(env, k, w.clusters[k]);
    assert Deploy(env, k, w, w') && w'.flux != w.flux;
    WrittenForCluster(env, k, w.flux, w'.flux, f);
  }

  lemma DeployedIsFor(env: Environment, k: Key, flux: map<FluxKey, Flux>, f: FluxKey)
    requires "helm.open-control-plane.io/cluster-name" !in env.labels && f.namespace == k.namespace
    ensures IsFor(env, f, Deployed(env, k, flux, f), k)
    ensures var o := Deployed(env, k, flux, f);
            o == if f in flux then flux[f].(labels := o.labels) else Object([], false, o.labels, map[], ())
  {
    assert CLUSTER_NAME_LABEL == "helm.open-control-plane.io/cluster-name";
  }

  lemma WrittenForCluster(env: Environment, k: Key, flux: map<FluxKey, Flux>, flux': map<FluxKey, Flux>, f: FluxKey)
    requires env.sourceKind.Some? && DeployedFlux(env, k, flux, flux') && At(flux', f) != At(flux, f)
    requires "helm.open-control-plane.io/cluster-name" !in env.labels
    ensures
      || (&& f.namespace == k.namespace && f.name == env.fluxName(k.name) && f in flux' && IsFor(env, f, flux'[f], k)
          && flux'[f] == (if f in flux then flux[f].(labels := flux'[f].labels) else Object([], false, flux'[f].labels, map[], ()))
          && f.kind in {HelmRelease, env.sourceKind.value})
      || (!f.kind.HelmRelease? && f in flux && IsFor(env, f, flux[f], k) && Going(flux', f))
  {
    hide Listed, IsFor, Deployed;
    var source, release := DeployedKey(env, k, env.sourceKind.value), DeployedKey(env, k, HelmRelease);
    var withSource := WithDeployed(env, k, flux, source);
    var gone :| gone <= Obsolete(env, k, flux, source)
      && (|| flux' == Mark(withSource, gone)
          || (gone == Obsolete(env, k, flux, source) && flux' == WithDeployed(env, k, Mark(withSource, gone), release)));
    if f == release && flux' == WithDeployed(env, k, Mark(withSource, gone), release) {
      var marked := Mark(withSource, gone);
      assert f !in gone && At(marked, f) == At(withSource, f);
      DeployedIsFor(env, k, flux, source);
      DeployedIsFor(env, k, marked, f);
    } else if f == source {
      DeployedIsFor(env, k, flux, f);
    } else {
      assert f in gone;
      ListedIff(env, f, flux[f], k);
    }
  }

  // ---------- objects of others ----------

  /** A deletion pass and the clean-up of a cluster leave Flux objects without the deployment's labels alone. */
  lemma OthersAreLeftAlone(env: Environment, w: World, e: Event, w': World, f: FluxKey)
    requires Next(env, w, e, w') && f in w.flux
    requires e.Deleting? || (e.OnCluster? && e.key in w.clusters && !Chosen(env, e.key, w.clusters[e.key]))
    requires !forall l :: l in env.labels ==> l in w.flux[f].labels && w.flux[f].labels[l] == env.labels[l]
    ensures f in w'.flux && w'.flux[f] == w.flux[f]
  {
    hide IsSelected, Released, Chosen;
    if e.OnCluster? {
      ChosenIffSelected(env, e.key, w.clusters[e.key]);
      var marked :| CleanUp(env, e.key, w, w', marked);
      assert f !in marked;
    }
  }

  // ---------- deployments that are deleted ----------

  /** The object carries the deployment's labels. */
  predicate IsMine(env: Environment, o: Flux) {
    forall l :: l in env.labels ==> At(o.labels, l) == Some(env.labels[l])
  }

  lemma MineIff(env: Environment, f: FluxKey, o: Flux)
    ensures IsMine(env, o) <==> Mine(env, o)
    ensures IsMine(env, o) <==> Listed(env, None, f, o)
  {
  }

  lemma ClusterOfIff(f: FluxKey, o: Flux, k: Key)
    ensures ClusterOf(f, o) == Some(k) <==>
              k.name != "" && f.namespace == k.namespace && At(o.labels, "helm.open-control-plane.io/cluster-name") == Some(k.name)
  {
    assert CLUSTER_NAME_LABEL == "helm.open-control-plane.io/cluster-name";
  }

  predicate IsHeldBack(d: Option<Object<()>>) {
    d.Some? && "helm.open-control-plane.io/finalizer" in d.value.finalizers
  }

  /** The deployer's own finalizer goes last: there was no object with the deployment's labels any more, and no
      cluster has its finalizer after that. */
  lemma OwnFinalizerGoesLast(env: Environment, w: World, w': World, i: DeleteInfo)
    requires DeletePass(env, w, w', i) && IsHeldBack(w.deployment) && !IsHeldBack(w'.deployment)
    ensures forall f :: f in w.flux ==> !IsMine(env, w.flux[f])
    ensures forall x :: !Holds(env, w', x)
  {
    hide Listed, Released;
    forall f | f in w.flux ensures !IsMine(env, w.flux[f]) {
      MineIff(env, f, w.flux[f]);
      assert f !in ReleasesOf(env, None, w.flux) && f !in SourcesOf(env, None, w.flux);
    }
    forall x ensures !Holds(env, w', x) {
      HoldsIff(env, w', x);
      HoldsIff(env, w, x);
      ReleasedElsewhere(env, w.clusters, i.released, x);
      assert HasFinalizer(env, w.clusters, x) ==> x in ToRelease(env, w, {});
    }
  }

  /** A cluster keeps the deployment's finalizer as long as there was an object for it, provided that the list
      with this object has been read. */
  lemma HeldWhileNeeded(env: Environment, w: World, w': World, i: DeleteInfo, f: FluxKey, x: Key)
    requires DeletePass(env, w, w', i) && Holds(env, w, x) && x.name != ""
    requires f in w.flux && IsFor(env, f, w.flux[f], x) && (if f.kind.HelmRelease? then i.releasesListed else i.sourcesListed)
    ensures Holds(env, w', x)
  {
    hide Listed, Released;
    MineIff(env, f, w.flux[f]);
    ClusterOfIff(f, w.flux[f], x);
    HoldsIff(env, w, x);
    HoldsIff(env, w', x);
    ReleasedElsewhere(env, w.clusters, i.released, x);
    if f.kind.HelmRelease? {
      assert f in ReleasesOf(env, None, w.flux);
    } else {
      assert f in SourcesOf(env, None, w.flux);
    }
  }

  /** A deletion pass takes nothing from clusters and from the deployment but its own finalizers, and they vanish
      only without others. Clusters without the deployment's finalizer stay as they are. */
  lemma OnlyOwnFinalizersGo(env: Environment, w: World, w': World, i: DeleteInfo, x: Key, fin: string)
    requires DeletePass(env, w, w', i)
    ensures
      var own := "helm.open-control-plane.io/" + env.uid;
      && (x in w'.clusters ==>
            && x in w.clusters && w'.clusters[x] == w.clusters[x].(finalizers := w'.clusters[x].finalizers)
            && (fin != own ==> (fin in w'.clusters[x].finalizers <==> fin in w.clusters[x].finalizers)))
      && (x in w.clusters && x !in w'.clusters ==> w.clusters[x].deleting && (fin in w.clusters[x].finalizers ==> fin == own))
      && (x in w.clusters && !Holds(env, w, x) ==> At(w'.clusters, x) == Some(w.clusters[x]))
  {
    hide Listed, Released;
    assert GROUP_NAME + "/" == "helm.open-control-plane.io/";
    HoldsIff(env, w, x);
    ReleasedAt(env, w.clusters, i.released, x, fin);
  }

  lemma ReleasedAt(env: Environment, clusters: map<Key, Cluster>, ks: set<Key>, x: Key, fin: string)
    ensures
      var after := Released(env, clusters, ks);
      && (x in after ==>
            && x in clusters && after[x] == clusters[x].(finalizers := after[x].finalizers)
            && (fin != ClusterFinalizer(env) ==> (fin in after[x].finalizers <==> fin in clusters[x].finalizers)))
      && (x in clusters && x !in after ==> clusters[x].deleting && (fin in clusters[x].finalizers ==> fin == ClusterFinalizer(env)))
      && (x in clusters && x !in ks ==> At(after, x) == Some(clusters[x]))
  {
  }

  lemma DeploymentOutlivesOthers(env: Environment, w: World, w': World, i: DeleteInfo, fin: string)
    requires DeletePass(env, w, w', i) && w.deployment.Some?
    ensures
      var d, own := w.deployment.value, "helm.open-control-plane.io/finalizer";
      && (w'.deployment.None? ==> d.deleting && (fin in d.finalizers ==> fin == own))
      && (w'.deployment.Some? ==>
            && w'.deployment.value == d.(finalizers := w'.deployment.value.finalizers)
            && (fin != own ==> (fin in w'.deployment.value.finalizers <==> fin in d.finalizers)))
  {
    hide Listed, Released, ToRelease;
    assert FINALIZER == "helm.open-control-plane.io/finalizer";
  }

  // ---------- the two kinds of passes ----------

  /** For a deployment that is being deleted nothing comes up any more. */
  lemma NothingForDeleted(env: Environment, w: World, e: Event, w': World)
    requires Next(env, w, e, w') && !e.Others? && w.deployment.Some? && w.deployment.value.deleting
    ensures forall x :: Holds(env, w', x) ==> Holds(env, w, x)
    ensures forall f :: f in w'.flux ==> f in w.flux && w'.flux[f].labels == w.flux[f].labels
  {
    hide Listed, Released;
    forall x | Holds(env, w', x) ensures Holds(env, w, x) {
      HoldsIff(env, w, x);
      HoldsIff(env, w', x);
      ReleasedElsewhere(env, w.clusters, e.info.released, x);
    }
  }

  /** As long as the deployment is alive its releases are deleted only where the cluster is not chosen. */
  lemma ReleasesStayForLive(env: Environment, w: World, e: Event, w': World, f: FluxKey)
    requires Next(env, w, e, w') && !e.Others? && w.deployment.Some? && !w.deployment.value.deleting
    requires f in w.flux && f.kind.HelmRelease? && !w.flux[f].deleting && Going(w'.flux, f)
    ensures e.OnCluster? && e.key in w.clusters && !Chosen(env, e.key, w.clusters[e.key]) && IsFor(env, f, w.flux[f], e.key)
  {
    hide IsSelected, Released, Chosen, Listed, IsFor;
    if e.OnCluster? {
      assert e.key in w.clusters;
      ChosenIffSelected(env, e.key, w.clusters[e.key]);
      if Chosen(env, e.key, w.clusters[e.key]) {
        NothingIsCleanedUp(env, w, e.key, w');
        assert false;
      }
      var marked :| CleanUp(env, e.key, w, w', marked);
      assert f in marked;
      ListedIff(env, f, w.flux[f], e.key);
    }
  }

  /** The invariant of all runs in plain terms: an object with the deployment's labels that is for a cluster
      means that the cluster exists and has the deployment's finalizer, and this that the deployment exists and
      has the deployer's one. */
  lemma ProtectedInRuns(env: Environment, ws: seq<World>, es: seq<Event>, i: nat, f: FluxKey, k: Key)
    requires Run(env, ws, es) && i < |ws| && ws[0].flux == map[] && forall x :: !Holds(env, ws[0], x)
    requires forall j {:trigger es[j]} :: 0 <= j < |es| && es[j].Deleting? ==> es[j].info.releasesListed && es[j].info.sourcesListed
    ensures f in ws[i].flux && IsFor(env, f, ws[i].flux[f], k) && k.name != "" ==> Holds(env, ws[i], k)
    ensures Holds(env, ws[i], k) ==> IsHeldBack(ws[i].deployment)
  {
    hide Listed, Run, IsFor;
    forall x ensures !HasFinalizer(env, ws[0].clusters, x) {
      HoldsIff(env, ws[0], x);
    }
    FinalizersProtectEverything(env, ws, es, i);
    HoldsIff(env, ws[i], k);
    assert FINALIZER == "helm.open-control-plane.io/finalizer";
    if f in ws[i].flux && IsFor(env, f, ws[i].flux[f], k) && k.name != "" {
      ForMeansMine(env, ws[i].flux, f, k);
    }
  }

  lemma ForMeansMine(env: Environment, flux: map<FluxKey, Flux>, f: FluxKey, k: Key)
    requires f in flux && IsFor(env, f, flux[f], k) && k.name != ""
    ensures MineFor(env, flux, f, k)
  {
    MineIff(env, f, flux[f]);
    ClusterOfIff(f, flux[f], k);
  }
}
