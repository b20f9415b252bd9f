/** The Helm deployer's handling of one HelmDeployment: Flux objects are kept on the clusters it selects and
    taken away elsewhere, in this order: HelmReleases, chart sources, the deployment's finalizer on the
    cluster, and at last the deployer's finalizer on the deployment. */
module HelmTeardown {
  import opened Kube
  import Selectors = PurposeSelectors

  const GROUP_NAME := "helm.open-control-plane.io"
  const FINALIZER := GROUP_NAME + "/finalizer"
  const CLUSTER_NAME_LABEL := GROUP_NAME + "/cluster-name"

  type Cluster = Object<seq<string>>  // with its purposes
  type Flux = Object<()>

  datatype Kind = HelmRelease | HelmRepository | GitRepository | OCIRepository

  datatype FluxKey = FluxKey(kind: Kind, namespace: string, name: string)

  datatype World = World(clusters: map<Key, Cluster>, flux: map<FluxKey, Flux>, deployment: Option<Object<()>>)

  /** The HelmDeployment: the labels on its Flux objects, its selector, the kind of its chart source if one
      is configured, and the names of its Flux objects for a cluster. */
  datatype Environment = Environment(
    uid: string, labels: Labels, selector: Option<Selectors.Selector>, sourceKind: Option<Kind>, fluxName: string -> string)

  function ClusterFinalizer(env: Environment): string {
    GROUP_NAME + "/" + env.uid
  }

  predicate HasLabels(labels: Labels, expected: Labels) {
    forall k :: k in expected ==> k in labels && labels[k] == expected[k]
  }

  /** The object belongs to the deployment. */
  predicate Mine(env: Environment, o: Flux) {
    HasLabels(o.labels, env.labels)
  }

  /** The cluster a Flux object is for; objects are in the namespace of their cluster. */
  function ClusterOf(f: FluxKey, o: Flux): Option<Key> {
    if CLUSTER_NAME_LABEL in o.labels && o.labels[CLUSTER_NAME_LABEL] != ""
    then Some(Key(f.namespace, o.labels[CLUSTER_NAME_LABEL])) else None
  }

  predicate MineFor(env: Environment, flux: map<FluxKey, Flux>, f: FluxKey, k: Key) {
    f in flux && Mine(env, flux[f]) && ClusterOf(f, flux[f]) == Some(k)
  }

  /** The object is found when the deployment's objects are listed, for one cluster or for all. */
  predicate Listed(env: Environment, scope: Option<Key>, f: FluxKey, o: Flux) {
    && Mine(env, o)
    && (scope.Some? ==> f.namespace == scope.value.namespace && CLUSTER_NAME_LABEL in o.labels
                        && o.labels[CLUSTER_NAME_LABEL] == scope.value.name)
  }

  function ReleasesOf(env: Environment, scope: Option<Key>, flux: map<FluxKey, Flux>): set<FluxKey> {
    set f | f in flux && f.kind.HelmRelease? && Listed(env, scope, f, flux[f])
  }

  function SourcesOf(env: Environment, scope: Option<Key>, flux: map<FluxKey, Flux>): set<FluxKey> {
    set f | f in flux && !f.kind.HelmRelease? && Listed(env, scope, f, flux[f])
  }

  function ClustersOf(flux: map<FluxKey, Flux>, fs: set<FluxKey>): set<Option<Key>>
    requires fs <= flux.Keys
  {
    set f | f in fs :: ClusterOf(f, flux[f])
  }

  /** The sources that may be deleted: none that shares its cluster with a remaining release. */
  function Deletable(env: Environment, scope: Option<Key>, flux: map<FluxKey, Flux>, blocked: set<Option<Key>>): set<FluxKey> {
    set f | f in SourcesOf(env, scope, flux) && ClusterOf(f, flux[f]) !in blocked
  }

  /** The deployment's finalizer is removed from the clusters in `ks`. */
  function Released(env: Environment, clusters: map<Key, Cluster>, ks: set<Key>): map<Key, Cluster> {
    map k | k in clusters && !(k in ks && Vanishes(env, clusters[k])) ::
      if k in ks then WithoutFinalizer(env, clusters[k]) else clusters[k]
  }

  function WithoutFinalizer(env: Environment, c: Cluster): Cluster {
    c.(finalizers := RemoveFinalizer(c.finalizers, ClusterFinalizer(env)))
  }

  predicate Vanishes(env: Environment, c: Cluster) {
    c.deleting && WithoutFinalizer(env, c).finalizers == []
  }

  predicate HasFinalizer(env: Environment, clusters: map<Key, Cluster>, k: Key) {
    k in clusters && ClusterFinalizer(env) in clusters[k].finalizers
  }

  predicate HasOwnFinalizer(w: World) {
    w.deployment.Some? && FINALIZER in w.deployment.value.finalizers
  }

  /** Deleting releases does not change what there is to do about sources. */
  lemma SourcesUnaffected(env: Environment, scope: Option<Key>, flux: map<FluxKey, Flux>, releases: set<FluxKey>, blocked: set<Option<Key>>)
    requires releases <= ReleasesOf(env, scope, flux)
    ensures SourcesOf(env, scope, Mark(flux, releases)) == SourcesOf(env, scope, flux)
    ensures Deletable(env, scope, Mark(flux, releases), blocked) == Deletable(env, scope, flux, blocked)
    ensures releases !! SourcesOf(env, scope, flux)
  {
  }

  function Items(flux: map<FluxKey, Flux>, fs: set<FluxKey>): map<FluxKey, Flux> {
    map f | f in fs && f in flux :: flux[f]
  }

  function ClustersIn(items: map<FluxKey, Flux>): set<Option<Key>> {
    set f | f in items :: ClusterOf(f, items[f])
  }

  lemma ReleaseMore(env: Environment, clusters: map<Key, Cluster>, ks: set<Key>, k: Key)
    requires k in clusters && k !in ks
    ensures k in Released(env, clusters, ks) && Released(env, clusters, ks)[k] == clusters[k]
    ensures Released(env, clusters, ks + {k}) == Stored(Released(env, clusters, ks), k, WithoutFinalizer(env, clusters[k]))
  {
  }

  // ---------- a pass over a deleted deployment ----------

  /** The clusters that lose the deployment's finalizer if nothing remains to wait for. */
  function ToRelease(env: Environment, w: World, keep: set<Option<Key>>): set<Key> {
    set k | k in w.clusters && HasFinalizer(env, w.clusters, k) && Some(k) !in keep
  }

  function WithoutOwnFinalizer(d: Option<Object<()>>): Option<Object<()>> {
    if d.None? then None
    else
      var fins := RemoveFinalizer(d.value.finalizers, FINALIZER);
      if d.value.deleting && fins == [] then None else Some(d.value.(finalizers := fins))
  }

  /** The end of a pass in which no call failed except possibly the listing of releases or of sources. A
      failed list leaves an empty one behind, and what follows is done nevertheless. */
  function DeleteResult(env: Environment, w: World, releasesListed: bool, sourcesListed: bool): World {
    var releases := if releasesListed then ReleasesOf(env, None, w.flux) else {};
    var blocked := ClustersOf(w.flux, releases);
    var sources := if sourcesListed then SourcesOf(env, None, w.flux) else {};
    var deletable := if sourcesListed then Deletable(env, None, w.flux, blocked) else {};
    var marked := w.(flux := Mark(w.flux, releases + deletable));
    if sourcesListed && releases + sources != {} then marked
    else
      var released := marked.(clusters := Released(env, w.clusters, ToRelease(env, w, blocked)));
      if releasesListed && sourcesListed then released.(deployment := WithoutOwnFinalizer(w.deployment)) else released
  }

  datatype DeleteInfo = DeleteInfo(
    releasesListed: bool, sourcesListed: bool, marked: set<FluxKey>, released: set<Key>, finalized: bool)

  /** How a pass may end, whichever calls fail. */
  ghost predicate DeletePass(env: Environment, w: World, w': World, i: DeleteInfo) {
    var releases := if i.releasesListed then ReleasesOf(env, None, w.flux) else {};
    var blocked := ClustersOf(w.flux, releases);
    var sources := if i.sourcesListed then SourcesOf(env, None, w.flux) else {};
    && i.marked <= releases + (if i.sourcesListed then Deletable(env, None, w.flux, blocked) else {})
    && w'.flux == Mark(w.flux, i.marked)
    && i.released <= ToRelease(env, w, blocked + ClustersOf(w.flux, sources))
    && w'.clusters == Released(env, w.clusters, i.released)
    && (i.finalized ==>
          i.releasesListed && i.sourcesListed && releases == {} && sources == {} && i.released == ToRelease(env, w, {}))
    && w'.deployment == if i.finalized then WithoutOwnFinalizer(w.deployment) else w.deployment
  }

  // ---------- one cluster in a pass over a deployment that is kept ----------

  predicate IsSelected(env: Environment, k: Key, c: Cluster) {
    Selectors.Matches(env.selector, Selectors.Subject(k, c.labels, c.spec)) && !c.deleting
  }

  /** Taking the deployment's objects away from a cluster that is not selected. */
  ghost predicate CleanUp(env: Environment, k: Key, w: World, w': World, marked: set<FluxKey>) {
    var releases, sources := ReleasesOf(env, Some(k), w.flux), SourcesOf(env, Some(k), w.flux);
    && k in w.clusters && !IsSelected(env, k, w.clusters[k])
    && marked <= releases + Deletable(env, Some(k), w.flux, ClustersOf(w.flux, releases))
    && w'.flux == Mark(w.flux, marked) && w'.deployment == w.deployment
    && (w'.clusters == w.clusters || (releases == {} && sources == {} && w'.clusters == Released(env, w.clusters, {k})))
  }

  /** All that a clean-up of the cluster may mark. */
  function ToCleanUp(env: Environment, k: Key, flux: map<FluxKey, Flux>): set<FluxKey> {
    var releases := ReleasesOf(env, Some(k), flux);
    releases + Deletable(env, Some(k), flux, ClustersOf(flux, releases))
  }

  /** A clean-up without faults. */
  ghost predicate FullCleanUp(env: Environment, k: Key, w: World, w': World) {
    && (exists marked :: CleanUp(env, k, w, w', marked) && marked == ToCleanUp(env, k, w.flux))
    && (ReleasesOf(env, Some(k), w.flux) == {} && SourcesOf(env, Some(k), w.flux) == {} ==> !HasFinalizer(env, w'.clusters, k))
  }

  function LabelsFor(env: Environment, k: Key): Labels {
    env.labels[CLUSTER_NAME_LABEL := k.name]
  }

  function Deployed(env: Environment, k: Key, flux: map<FluxKey, Flux>, f: FluxKey): Flux {
    if f in flux then flux[f].(labels := flux[f].labels + LabelsFor(env, k))
    else Object([], false, LabelsFor(env, k), map[], ())
  }

  function DeployedKey(env: Environment, k: Key, kind: Kind): FluxKey {
    FluxKey(kind, k.namespace, env.fluxName(k.name))
  }

  function WithDeployed(env: Environment, k: Key, flux: map<FluxKey, Flux>, f: FluxKey): map<FluxKey, Flux> {
    flux[f := Deployed(env, k, flux, f)]
  }

  /** The objects that become obsolete once the source `keep` is in place. */
  function Obsolete(env: Environment, k: Key, flux: map<FluxKey, Flux>, keep: FluxKey): set<FluxKey> {
    SourcesOf(env, Some(k), flux) - {keep}
  }

  /** Deploying to a selected cluster: first the finalizer, then the source and the removal of obsolete ones,
      then the release. The step may end after any of its writes. */
  ghost predicate Deploy(env: Environment, k: Key, w: World, w': World) {
    && k in w.clusters && IsSelected(env, k, w.clusters[k]) && w'.deployment == w.deployment
    && (|| w' == w
        || (&& w'.clusters == w.clusters[k := w.clusters[k].(finalizers := AddFinalizer(w.clusters[k].finalizers, ClusterFinalizer(env)))]
            && (w'.flux == w.flux || (env.sourceKind.Some? && DeployedFlux(env, k, w.flux, w'.flux)))))
  }

  ghost predicate DeployedFlux(env: Environment, k: Key, flux: map<FluxKey, Flux>, flux': map<FluxKey, Flux>)
    requires env.sourceKind.Some?
  {
    var source, release := DeployedKey(env, k, env.sourceKind.value), DeployedKey(env, k, HelmRelease);
    var withSource := WithDeployed(env, k, flux, source);
    exists gone :: gone <= Obsolete(env, k, flux, source)
      && (|| flux' == Mark(withSource, gone)
          || (gone == Obsolete(env, k, flux, source)
              && flux' == WithDeployed(env, k, Mark(withSource, gone), release)))
  }

  // ---------- runs ----------

  datatype Event =
    | Deleting(info: DeleteInfo)
    | OwnFinalizer
    | OnCluster(key: Key)
    | Others

  /** What others may do: Flux removes marked objects, clusters and the deployment change or are deleted. Nobody
      else puts objects of the deployment anywhere, or touches its finalizers. */
  ghost predicate OthersStep(env: Environment, w: World, w': World) {
    && (forall f, k :: MineFor(env, w'.flux, f, k) ==> MineFor(env, w.flux, f, k))
    && (forall k :: HasFinalizer(env, w'.clusters, k) <==> HasFinalizer(env, w.clusters, k))
    && (HasOwnFinalizer(w') <==> HasOwnFinalizer(w))
    && (w.deployment.Some? && w.deployment.value.deleting && w'.deployment.Some? ==> w'.deployment.value.deleting)
  }

  ghost predicate Next(env: Environment, w: World, e: Event, w': World) {
    match e
    case Deleting(info) =>
      w.deployment.Some? && w.deployment.value.deleting && DeletePass(env, w, w', info)
    case OwnFinalizer =>
      && w.deployment.Some? && !w.deployment.value.deleting
      && w' == w.(deployment := Some(w.deployment.value.(finalizers := AddFinalizer(w.deployment.value.finalizers, FINALIZER))))
    case OnCluster(k) =>
      && HasOwnFinalizer(w) && !w.deployment.value.deleting
      && (Deploy(env, k, w, w') || exists marked :: CleanUp(env, k, w, w', marked))
    case Others =>
      OthersStep(env, w, w')
  }

  /** Wherever an object of the deployment is, the cluster carries the deployment's finalizer. */
  ghost predicate NoOrphans(env: Environment, w: World) {
    forall f, k :: MineFor(env, w.flux, f, k) ==> HasFinalizer(env, w.clusters, k)
  }

  /** As long as a cluster carries it, the deployment exists and has the deployer's finalizer. */
  ghost predicate Anchored(env: Environment, w: World) {
    (exists k :: HasFinalizer(env, w.clusters, k)) ==> HasOwnFinalizer(w)
  }

  lemma MarkKeepsOwners(env: Environment, flux: map<FluxKey, Flux>, fs: set<FluxKey>, f: FluxKey, k: Key)
    ensures MineFor(env, Mark(flux, fs), f, k) ==> MineFor(env, flux, f, k)
  {
  }

  lemma ReleasedElsewhere(env: Environment, clusters: map<Key, Cluster>, ks: set<Key>, k: Key)
    ensures k !in ks ==> HasFinalizer(env, Released(env, clusters, ks), k) == HasFinalizer(env, clusters, k)
    ensures k in ks ==> !HasFinalizer(env, Released(env, clusters, ks), k)
    ensures HasFinalizer(env, Released(env, clusters, ks), k) ==> HasFinalizer(env, clusters, k)
  {
  }

  lemma DeletePassKeepsNoOrphans(env: Environment, w: World, w': World, i: DeleteInfo)
    requires NoOrphans(env, w) && DeletePass(env, w, w', i) && i.releasesListed && i.sourcesListed
    ensures NoOrphans(env, w')
  {
    forall f, k | MineFor(env, w'.flux, f, k) ensures HasFinalizer(env, w'.clusters, k) {
      MarkKeepsOwners(env, w.flux, i.marked, f, k);
      assert f in ReleasesOf(env, None, w.flux) || f in SourcesOf(env, None, w.flux);
      assert ClusterOf(f, w.flux[f]) == Some(k);
      ReleasedElsewhere(env, w.clusters, i.released, k);
    }
  }

  lemma DeletePassKeepsAnchored(env: Environment, w: World, w': World, i: DeleteInfo)
    requires Anchored(env, w) && DeletePass(env, w, w', i)
    ensures Anchored(env, w')
  {
    forall k | HasFinalizer(env, w'.clusters, k) ensures HasFinalizer(env, w.clusters, k) && !i.finalized {
      ReleasedElsewhere(env, w.clusters, i.released, k);
    }
  }

  lemma OwnedIsListed(env: Environment, flux: map<FluxKey, Flux>, f: FluxKey, k: Key)
    requires MineFor(env, flux, f, k)
    ensures f in ReleasesOf(env, Some(k), flux) || f in SourcesOf(env, Some(k), flux)
  {
  }

  lemma CleanUpKeepsNoOrphans(env: Environment, k: Key, w: World, w': World, marked: set<FluxKey>)
    requires NoOrphans(env, w) && CleanUp(env, k, w, w', marked)
    ensures NoOrphans(env, w')
  {
    forall f, x | MineFor(env, w'.flux, f, x) ensures HasFinalizer(env, w'.clusters, x) {
      MarkKeepsOwners(env, w.flux, marked, f, x);
      assert HasFinalizer(env, w.clusters, x);
      if w'.clusters != w.clusters && x == k {
        OwnedIsListed(env, w.flux, f, k);
      } else if w'.clusters != w.clusters {
        ReleasedElsewhere(env, w.clusters, {k}, x);
      }
    }
  }

  lemma DeployedFluxOwners(env: Environment, k: Key, flux: map<FluxKey, Flux>, flux': map<FluxKey, Flux>, f: FluxKey, x: Key)
    requires env.sourceKind.Some? && DeployedFlux(env, k, flux, flux') && MineFor(env, flux', f, x)
    ensures MineFor(env, flux, f, x) || x == k
  {
    var source, release := DeployedKey(env, k, env.sourceKind.value), DeployedKey(env, k, HelmRelease);
    if f != source && f != release {
      assert MineFor(env, flux, f, x);
    } else {
      assert f.namespace == k.namespace;
    }
  }

  lemma DeployKeepsNoOrphans(env: Environment, k: Key, w: World, w': World)
    requires NoOrphans(env, w) && Deploy(env, k, w, w')
    ensures NoOrphans(env, w')
  {
    if w' != w {
      forall f, x | MineFor(env, w'.flux, f, x) ensures HasFinalizer(env, w'.clusters, x) {
        if w'.flux != w.flux {
          DeployedFluxOwners(env, k, w.flux, w'.flux, f, x);
        }
        assert x == k || HasFinalizer(env, w.clusters, x);
      }
    }
  }

  lemma NextKeepsInv(env: Environment, w: World, e: Event, w': World)
    requires NoOrphans(env, w) && Anchored(env, w) && Next(env, w, e, w')
    requires e.Deleting? ==> e.info.releasesListed && e.info.sourcesListed
    ensures NoOrphans(env, w') && Anchored(env, w')
  {
    match e
    case Deleting(i) =>
      DeletePassKeepsNoOrphans(env, w, w', i);
      DeletePassKeepsAnchored(env, w, w', i);
    case OwnFinalizer =>
    case OnCluster(k) =>
      if Deploy(env, k, w, w') {
        DeployKeepsNoOrphans(env, k, w, w');
      } else {
        var marked :| CleanUp(env, k, w, w', marked);
        CleanUpKeepsNoOrphans(env, k, w, w', marked);
      }
    case Others =>
  }

  ghost predicate StepAt(env: Environment, ws: seq<World>, es: seq<Event>, i: nat)
    requires |ws| == |es| + 1 && i < |es|
  {
    Next(env, ws[i], es[i], ws[i + 1])
  }

  ghost predicate Run(env: Environment, ws: seq<World>, es: seq<Event>) {
    |ws| == |es| + 1 && forall i: nat :: i < |es| ==> StepAt(env, ws, es, i)
  }

  lemma RunOn(env: Environment, ws: seq<World>, es: seq<Event>, e: Event, w': World) returns (ws': seq<World>, es': seq<Event>)
    requires Run(env, ws, es) && Next(env, ws[|es|], e, w')
    ensures ws' == ws + [w'] && es' == es + [e] && Run(env, ws', es')
    ensures forall x :: x in es' <==> x in es || x == e
  {
    ws', es' := ws + [w'], es + [e];
    forall i: nat | i < |es'| ensures StepAt(env, ws', es', i) {
      if i < |es| {
        assert StepAt(env, ws, es, i);
        assert es'[i] == es[i] && ws'[i] == ws[i] && ws'[i + 1] == ws[i + 1];
      }
    }
  }

  /** In every run in which the deletion passes succeed in listing releases and sources, whichever other calls
      fail: an object of the deployment for a cluster implies the deployment's finalizer on the cluster, and
      that implies the deployer's finalizer on the deployment. So a finalizer goes only after all that it
      stands for is gone. */
  lemma {:induction false} FinalizersProtectEverything(env: Environment, ws: seq<World>, es: seq<Event>, i: nat)
    requires Run(env, ws, es) && i < |ws|
    requires NoOrphans(env, ws[0]) && Anchored(env, ws[0])
    requires forall j {:trigger es[j]} :: 0 <= j < |es| && es[j].Deleting? ==> es[j].info.releasesListed && es[j].info.sourcesListed
    ensures NoOrphans(env, ws[i]) && Anchored(env, ws[i])
  {
    if i > 0 {
      FinalizersProtectEverything(env, ws, es, i - 1);
      assert StepAt(env, ws, es, i - 1);
      NextKeepsInv(env, ws[i - 1], es[i - 1], ws[i]);
    }
  }

  // ---------- failed lists ----------

  lemma DeleteResultIsPass(env: Environment, w: World, releasesListed: bool, sourcesListed: bool)
    ensures exists i: DeleteInfo :: i.releasesListed == releasesListed && i.sourcesListed == sourcesListed
              && DeletePass(env, w, DeleteResult(env, w, releasesListed, sourcesListed), i)
  {
    var releases := if releasesListed then ReleasesOf(env, None, w.flux) else {};
    var blocked := ClustersOf(w.flux, releases);
    var sources := if sourcesListed then SourcesOf(env, None, w.flux) else {};
    var deletable := if sourcesListed then Deletable(env, None, w.flux, blocked) else {};
    var waits := sourcesListed && releases + sources != {};
    var released := if waits then {} else ToRelease(env, w, blocked);
    var i := DeleteInfo(releasesListed, sourcesListed, releases + deletable, released, !waits && releasesListed && sourcesListed);
    assert Released(env, w.clusters, {}) == w.clusters;
    assert !waits && sourcesListed ==> sources == {} && releases == {} && blocked == {};
    assert ClustersOf(w.flux, {}) == {};
    assert blocked + {} == blocked;
    assert DeletePass(env, w, DeleteResult(env, w, releasesListed, sourcesListed), i);
  }

  /** The releases that a pass sees. */
  function SeenReleases(env: Environment, w: World, releasesListed: bool): set<FluxKey> {
    if releasesListed then ReleasesOf(env, None, w.flux) else {}
  }

  /** The object was not listed, and no release that was listed is for the same cluster. */
  predicate Overlooked(env: Environment, w: World, releasesListed: bool, sourcesListed: bool, f: FluxKey, k: Key) {
    && MineFor(env, w.flux, f, k)
    && (if f.kind.HelmRelease? then !releasesListed else !sourcesListed)
    && Some(k) !in ClustersOf(w.flux, SeenReleases(env, w, releasesListed))
  }

  /** The pass sees something that it has to wait for. */
  predicate Waits(env: Environment, w: World, releasesListed: bool, sourcesListed: bool) {
    sourcesListed && SeenReleases(env, w, releasesListed) + SourcesOf(env, None, w.flux) != {}
  }

  lemma OrphanIsOverlooked(env: Environment, w: World, releasesListed: bool, sourcesListed: bool, f: FluxKey, k: Key)
    requires NoOrphans(env, w)
    requires
      var w' := DeleteResult(env, w, releasesListed, sourcesListed);
      MineFor(env, w'.flux, f, k) && !HasFinalizer(env, w'.clusters, k)
    ensures !Waits(env, w, releasesListed, sourcesListed) && Overlooked(env, w, releasesListed, sourcesListed, f, k)
  {
    hide Released, Mark, HasLabels, HasFinalizer;
    var blocked := ClustersOf(w.flux, SeenReleases(env, w, releasesListed));
    var deletable := if sourcesListed then Deletable(env, None, w.flux, blocked) else {};
    MarkKeepsOwners(env, w.flux, SeenReleases(env, w, releasesListed) + deletable, f, k);
    ReleasedElsewhere(env, w.clusters, ToRelease(env, w, blocked), k);
    assert HasFinalizer(env, w.clusters, k);
    assert f in ReleasesOf(env, None, w.flux) || f in SourcesOf(env, None, w.flux);
    assert ClusterOf(f, w.flux[f]) == Some(k);
  }

  lemma OverlookedIsOrphan(env: Environment, w: World, releasesListed: bool, sourcesListed: bool, f: FluxKey, k: Key)
    requires NoOrphans(env, w)
    requires !Waits(env, w, releasesListed, sourcesListed) && Overlooked(env, w, releasesListed, sourcesListed, f, k)
    ensures
      var w' := DeleteResult(env, w, releasesListed, sourcesListed);
      MineFor(env, w'.flux, f, k) && !HasFinalizer(env, w'.clusters, k)
  {
    hide Released, HasLabels, HasFinalizer;
    var blocked := ClustersOf(w.flux, SeenReleases(env, w, releasesListed));
    ReleasedElsewhere(env, w.clusters, ToRelease(env, w, blocked), k);
    assert HasFinalizer(env, w.clusters, k);
    InClusters(env, w.clusters, k);
  }

  lemma InClusters(env: Environment, clusters: map<Key, Cluster>, k: Key)
    requires HasFinalizer(env, clusters, k)
    ensures k in clusters
  {
  }

  /** When a pass whose other calls succeed leaves something behind: exactly if it has nothing to wait for and
      overlooks an object. */
  lemma OrphansIff(env: Environment, w: World, releasesListed: bool, sourcesListed: bool)
    requires NoOrphans(env, w)
    ensures NoOrphans(env, DeleteResult(env, w, releasesListed, sourcesListed)) <==>
            || Waits(env, w, releasesListed, sourcesListed)
            || forall f, k :: !Overlooked(env, w, releasesListed, sourcesListed, f, k)
  {
    hide Waits, Overlooked, DeleteResult, MineFor, HasFinalizer;
    var w' := DeleteResult(env, w, releasesListed, sourcesListed);
    forall f, k | MineFor(env, w'.flux, f, k) && !HasFinalizer(env, w'.clusters, k)
      ensures !Waits(env, w, releasesListed, sourcesListed) && Overlooked(env, w, releasesListed, sourcesListed, f, k)
    {
      OrphanIsOverlooked(env, w, releasesListed, sourcesListed, f, k);
    }
    if !Waits(env, w, releasesListed, sourcesListed) {
      forall f, k | Overlooked(env, w, releasesListed, sourcesListed, f, k)
        ensures MineFor(env, w'.flux, f, k) && !HasFinalizer(env, w'.clusters, k)
      {
        OverlookedIsOrphan(env, w, releasesListed, sourcesListed, f, k);
      }
    }
  }

  /** A deletion pass leaves nothing behind in all cases exactly if both lists succeed: after a failed list it
      takes the finalizer off clusters on which releases or sources still are. */
  lemma ListErrorsOrphan(releasesListed: bool, sourcesListed: bool)
    ensures releasesListed && sourcesListed <==>
            forall env, w :: NoOrphans(env, w) ==> NoOrphans(env, DeleteResult(env, w, releasesListed, sourcesListed))
  {
    if releasesListed && sourcesListed {
      forall env, w | NoOrphans(env, w) ensures NoOrphans(env, DeleteResult(env, w, true, true)) {
        DeleteResultIsPass(env, w, true, true);
        var i: DeleteInfo :| i.releasesListed && i.sourcesListed && DeletePass(env, w, DeleteResult(env, w, true, true), i);
        DeletePassKeepsNoOrphans(env, w, DeleteResult(env, w, true, true), i);
      }
    } else {
      var env := Environment("uid", map[], None, None, (s: string) => s);
      OrphaningExample(env, releasesListed, sourcesListed);
      assert exists w :: NoOrphans(env, w) && !NoOrphans(env, DeleteResult(env, w, releasesListed, sourcesListed));
    }
  }

  /** One cluster with one object of the kind whose list fails. */
  lemma OrphaningExample(env: Environment, releasesListed: bool, sourcesListed: bool)
    requires env.labels == map[] && !(releasesListed && sourcesListed)
    ensures exists w :: NoOrphans(env, w) && !NoOrphans(env, DeleteResult(env, w, releasesListed, sourcesListed))
  {
    var k := Key("ns", "c");
    var f := FluxKey(if releasesListed then HelmRepository else HelmRelease, "ns", "f");
    var o: Flux := Object(["flux"], false, map[CLUSTER_NAME_LABEL := "c"], map[], ());
    var c: Cluster := Object([ClusterFinalizer(env), "other"], false, map[], map[], []);
    var w := World(map[k := c], map[f := o], None);
    var w' := DeleteResult(env, w, releasesListed, sourcesListed);
    assert MineFor(env, w.flux, f, k);
    assert c.finalizers[0] == ClusterFinalizer(env);
    assert NoOrphans(env, w);
    NothingListed(env, w, releasesListed, sourcesListed, f, k);
    assert MineFor(env, w'.flux, f, k);
    assert !NoOrphans(env, w');
  }

  lemma NothingListed(env: Environment, w: World, releasesListed: bool, sourcesListed: bool, f: FluxKey, k: Key)
    requires !(releasesListed && sourcesListed)
    requires w.flux.Keys == {f} && f.kind == (if releasesListed then HelmRepository else HelmRelease)
    requires MineFor(env, w.flux, f, k) && HasFinalizer(env, w.clusters, k)
    ensures
      var w' := DeleteResult(env, w, releasesListed, sourcesListed);
      w'.flux == w.flux && !HasFinalizer(env, w'.clusters, k)
  {
    var releases := if releasesListed then ReleasesOf(env, None, w.flux) else {};
    var sources := if sourcesListed then SourcesOf(env, None, w.flux) else {};
    assert releases == {} && sources == {};
    assert ClustersOf(w.flux, releases) == {};
    assert Deletable(env, None, w.flux, {}) <= SourcesOf(env, None, w.flux);
    assert Mark(w.flux, {}) == w.flux;
    assert k in ToRelease(env, w, {});
    ReleasedElsewhere(env, w.clusters, ToRelease(env, w, {}), k);
  }

  // ---------- order and progress ----------

  /** With a successful list, no source is deleted while a release for the same cluster is there. */
  lemma SourcesAfterReleases(env: Environment, w: World, w': World, i: DeleteInfo, s: FluxKey, r: FluxKey)
    requires DeletePass(env, w, w', i) && i.releasesListed
    requires s in w.flux && !s.kind.HelmRelease? && (s !in w'.flux || w'.flux[s] != w.flux[s])
    requires r in w.flux && r.kind.HelmRelease? && Mine(env, w.flux[r])
    ensures ClusterOf(r, w.flux[r]) != ClusterOf(s, w.flux[s])
  {
    assert s in i.marked;
    assert r in ReleasesOf(env, None, w.flux);
    assert ClusterOf(r, w.flux[r]) in ClustersOf(w.flux, ReleasesOf(env, None, w.flux));
  }

  /** The clean-up of one cluster, which gives up after a failed list, leaves all sources alone as long as any
      release of the deployment is there for the cluster. */
  lemma SourcesAfterReleasesOnCluster(env: Environment, k: Key, w: World, w': World, marked: set<FluxKey>, s: FluxKey, r: FluxKey)
    requires CleanUp(env, k, w, w', marked)
    requires s in w.flux && !s.kind.HelmRelease?
    requires r in w.flux && r.kind.HelmRelease? && Listed(env, Some(k), r, w.flux[r])
    ensures s in w'.flux && w'.flux[s] == w.flux[s]
  {
    assert r in ReleasesOf(env, Some(k), w.flux);
    assert ClusterOf(r, w.flux[r]) in ClustersOf(w.flux, ReleasesOf(env, Some(k), w.flux));
    assert s !in marked;
  }

  /** Without a list of the releases it may be. */
  lemma ListErrorDeletesSources(env: Environment, w: World, s: FluxKey)
    requires s in SourcesOf(env, None, w.flux) && !w.flux[s].deleting
    ensures
      var w' := DeleteResult(env, w, false, true);
      s !in w'.flux || w'.flux[s].deleting
  {
    assert ClustersOf(w.flux, {}) == {};
    assert s in Deletable(env, None, w.flux, {});
  }

  /** Flux has removed everything that was marked. */
  function FluxDone(w: World): World {
    w.(flux := map f | f in w.flux && !w.flux[f].deleting :: w.flux[f])
  }

  /** A pass without failing calls, after which Flux does its work. */
  function Round(env: Environment, w: World): World {
    FluxDone(DeleteResult(env, w, true, true))
  }

  /** If no calls fail and Flux removes what is marked, the deployment's finalizer is gone after three passes,
      whatever there was before: one for the releases, one for the sources, one for the finalizers. */
  lemma ThreePassesSuffice(env: Environment, w: World)
    ensures !HasOwnFinalizer(Round(env, Round(env, Round(env, w))))
    ensures forall k :: !HasFinalizer(env, Round(env, Round(env, Round(env, w))).clusters, k)
  {
    var a := Round(env, w);
    ReleasesGoFirst(env, w);
    var b := Round(env, a);
    ReleasesGoFirst(env, a);
    SourcesGoNext(env, a);
    FinalizersGoLast(env, b);
  }

  lemma ReleasesGoFirst(env: Environment, w: World)
    ensures ReleasesOf(env, None, Round(env, w).flux) == {}
  {
    forall f ensures f !in ReleasesOf(env, None, Round(env, w).flux) {
      var releases := ReleasesOf(env, None, w.flux);
      if f in releases {
        assert f in releases + Deletable(env, None, w.flux, ClustersOf(w.flux, releases));
      }
    }
  }

  lemma SourcesGoNext(env: Environment, w: World)
    requires ReleasesOf(env, None, w.flux) == {}
    ensures SourcesOf(env, None, Round(env, w).flux) == {}
  {
    assert ClustersOf(w.flux, {}) == {};
    forall f ensures f !in SourcesOf(env, None, Round(env, w).flux) {
      if f in SourcesOf(env, None, w.flux) {
        assert f in Deletable(env, None, w.flux, {});
      }
    }
  }

  lemma FinalizersGoLast(env: Environment, w: World)
    requires ReleasesOf(env, None, w.flux) == {} && SourcesOf(env, None, w.flux) == {}
    ensures !HasOwnFinalizer(Round(env, w))
    ensures forall k :: !HasFinalizer(env, Round(env, w).clusters, k)
  {
    assert ClustersOf(w.flux, {}) == {};
    forall k ensures !HasFinalizer(env, Round(env, w).clusters, k) {
      ReleasedElsewhere(env, w.clusters, ToRelease(env, w, {}), k);
    }
  }

  // ---------- the controller ----------

  class Deployer {
    var clusters: map<Key, Cluster>
    var flux: map<FluxKey, Flux>
    var deployment: Option<Object<()>>
    const env: Environment
    /** Failed calls, apart from lists of Flux objects, which are counted on their own. */
    ghost var faults: nat
    ghost var listFaults: nat

    /** The API server keeps objects that are being deleted only as long as they have finalizers. */
    ghost predicate Valid()
      reads this
    {
      && Alive(flux)
      && (deployment.Some? && deployment.value.deleting ==> deployment.value.finalizers != [])
    }

    constructor (env: Environment, w: World)
      requires Alive(w.flux)
      requires w.deployment.Some? && w.deployment.value.deleting ==> w.deployment.value.finalizers != []
      ensures Valid() && this.env == env && State() == w
    {
      this.env := env;
      clusters, flux, deployment := w.clusters, w.flux, w.deployment;
    }

    function State(): World
      reads this
    {
      World(clusters, flux, deployment)
    }

    method Call() returns (ok: bool)
      modifies `faults
      ensures faults == old(faults) + if ok then 0 else 1
    {
      ok := *;
      if !ok {
        faults := faults + 1;
      }
    }

    /** Lists the deployment's objects of the given kinds. Each kind needs a call of its own. */
    method List(scope: Option<Key>, kinds: seq<Kind>) returns (res: Option<map<FluxKey, Flux>>)
      modifies `listFaults
      ensures listFaults == old(listFaults) + if res.None? then 1 else 0
      ensures res.Some? ==> res.value == map f | f in flux && f.kind in kinds && Listed(env, scope, f, flux[f]) :: flux[f]
    {
      var items := map[];
      for i := 0 to |kinds|
        invariant items == map f | f in flux && f.kind in kinds[..i] && Listed(env, scope, f, flux[f]) :: flux[f]
      {
        var fails: bool := *;
        if fails {
          listFaults := listFaults + 1;
          return None;
        }
        assert kinds[..i + 1] == kinds[..i] + [kinds[i]];
        items := items + map f | f in flux && f.kind == kinds[i] && Listed(env, scope, f, flux[f]) :: flux[f];
      }
      assert kinds[..|kinds|] == kinds;
      return Some(items);
    }

    /** Deletes one object, unless this has been done before. */
    method DeleteObject(f: FluxKey) returns (ok: bool)
      requires Valid() && f in flux
      modifies `flux, `faults
      ensures Valid()
      ensures flux == if ok then Mark(old(flux), {f}) else old(flux)
      ensures faults == old(faults) + if ok then 0 else 1
    {
      if flux[f].deleting {
        MarkMarked(flux, {}, f);
        assert Mark(flux, {}) == flux;
        assert {} + {f} == {f};
        return true;
      }
      ok := Call();
      if ok {
        flux := if flux[f].finalizers == [] then flux - {f} else flux[f := flux[f].(deleting := true)];
        assert flux == Mark(old(flux), {f});
      }
    }

    /** Deletes the given objects, carrying on after failures. */
    method DeleteObjects(fs: set<FluxKey>) returns (ok: bool, ghost marked: set<FluxKey>)
      requires Valid() && fs <= flux.Keys
      modifies `flux, `faults
      ensures Valid() && marked <= fs && (ok ==> marked == fs)
      ensures flux == Mark(old(flux), marked)
      ensures faults >= old(faults) && (ok <==> faults == old(faults))
    {
      ok, marked := true, {};
      var todo := fs;
      assert flux == Mark(flux, {});
      while todo != {}
        invariant Valid() && marked <= fs - todo && todo <= fs && (ok ==> marked == fs - todo)
        invariant flux == Mark(old(flux), marked)
        invariant faults >= old(faults) && (ok <==> faults == old(faults))
      {
        var f :| f in todo;
        MarkMore(old(flux), marked, f);
        ghost var before := flux;
        var done := DeleteObject(f);
        if done {
          assert flux == Mark(old(flux), marked + {f});
          marked := marked + {f};
        }
        ok, todo := ok && done, todo - {f};
      }
    }

    /** All releases that were found remain until they have been seen to be gone. */
    method DeleteMultipleHelmReleases(scope: Option<Key>)
      returns (remaining: Option<map<FluxKey, Flux>>, ok: bool, ghost marked: set<FluxKey>)
      requires Valid()
      modifies `flux, `faults, `listFaults
      ensures Valid() && flux == Mark(old(flux), marked) && (remaining.None? ==> marked == {} && !ok && faults == old(faults))
      ensures remaining.Some? ==> remaining.value == Items(old(flux), ReleasesOf(env, scope, old(flux)))
      ensures marked <= ReleasesOf(env, scope, old(flux)) && (ok ==> remaining.Some? && marked == ReleasesOf(env, scope, old(flux)))
      ensures faults >= old(faults) && (remaining.Some? ==> (ok <==> faults == old(faults)))
      ensures listFaults == old(listFaults) + if remaining.None? then 1 else 0
    {
      remaining := List(scope, [HelmRelease]);
      if remaining.None? {
        assert flux == Mark(flux, {});
        return remaining, false, {};
      }
      assert remaining.value.Keys == ReleasesOf(env, scope, flux);
      ok, marked := DeleteObjects(remaining.value.Keys);
    }

    /** Deletes the sources for clusters without remaining releases. Those that are skipped remain, too. */
    method DeleteMultipleHelmChartSources(scope: Option<Key>, remainingReleases: map<FluxKey, Flux>)
      returns (remaining: Option<map<FluxKey, Flux>>, ok: bool, ghost marked: set<FluxKey>)
      requires Valid()
      modifies `flux, `faults, `listFaults
      ensures Valid() && flux == Mark(old(flux), marked) && (remaining.None? ==> marked == {} && !ok && faults == old(faults))
      ensures remaining.Some? ==> remaining.value == Items(old(flux), SourcesOf(env, scope, old(flux)))
      ensures marked <= Deletable(env, scope, old(flux), ClustersIn(remainingReleases))
      ensures ok ==> remaining.Some? && marked == Deletable(env, scope, old(flux), ClustersIn(remainingReleases))
      ensures faults >= old(faults) && (remaining.Some? ==> (ok <==> faults == old(faults)))
      ensures listFaults == old(listFaults) + if remaining.None? then 1 else 0
    {
      remaining := List(scope, [HelmRepository, GitRepository, OCIRepository]);
      if remaining.None? {
        assert flux == Mark(flux, {});
        return remaining, false, {};
      }
      assert remaining.value.Keys == SourcesOf(env, scope, flux);
      var blocked := ClustersIn(remainingReleases);
      var deletable := set f | f in remaining.value && ClusterOf(f, remaining.value[f]) !in blocked;
      assert deletable == Deletable(env, scope, flux, blocked);
      ok, marked := DeleteObjects(deletable);
    }

    /** Removes the deployment's finalizer from one cluster. */
    method ReleaseOne(k: Key) returns (ok: bool)
      requires k in clusters && HasFinalizer(env, clusters, k)
      modifies `clusters, `faults
      ensures clusters == if ok then Stored(old(clusters), k, WithoutFinalizer(env, old(clusters)[k])) else old(clusters)
      ensures faults == old(faults) + if ok then 0 else 1
    {
      ok := Call();
      if ok {
        clusters := Stored(clusters, k, clusters[k].(finalizers := RemoveFinalizer(clusters[k].finalizers, ClusterFinalizer(env))));
      }
    }

    /** Removes the deployment's finalizer from all clusters but those to keep. */
    method ReleaseClusters(keep: set<Option<Key>>) returns (ok: bool, ghost released: set<Key>)
      modifies `clusters, `faults
      ensures released <= ToRelease(env, old(State()), keep) && (ok ==> released == ToRelease(env, old(State()), keep))
      ensures clusters == Released(env, old(clusters), released)
      ensures faults >= old(faults) && (ok <==> faults == old(faults))
    {
      ok, released := true, {};
      var all := set k | k in clusters && ClusterFinalizer(env) in clusters[k].finalizers && Some(k) !in keep;
      assert all == ToRelease(env, State(), keep);
      var todo := all;
      assert clusters == Released(env, clusters, {});
      while todo != {}
        invariant todo <= all && released <= all - todo && (ok ==> released == all - todo)
        invariant clusters == Released(env, old(clusters), released)
        invariant faults >= old(faults) && (ok <==> faults == old(faults))
      {
        var k :| k in todo;
        ReleaseMore(env, old(clusters), released, k);
        var done := ReleaseOne(k);
        if done {
          released := released + {k};
        }
        ok, todo := ok && done, todo - {k};
      }
    }

    /** Deletes releases and then sources on one cluster. `clear` says that none of them was found. */
    method DeleteFluxOn(k: Key) returns (ok: bool, clear: bool, ghost marked: set<FluxKey>)
      requires Valid()
      modifies `flux, `faults, `listFaults
      ensures Valid() && flux == Mark(old(flux), marked)
      ensures
        var releases := ReleasesOf(env, Some(k), old(flux));
        var due := releases + Deletable(env, Some(k), old(flux), ClustersOf(old(flux), releases));
        marked <= due && (ok ==> marked == due)
      ensures ok <==> faults == old(faults) && listFaults == old(listFaults)
      ensures faults >= old(faults) && listFaults >= old(listFaults)
      ensures ok ==> (clear <==> ReleasesOf(env, Some(k), old(flux)) == {} && SourcesOf(env, Some(k), old(flux)) == {})
      ensures clear ==> ok
    {
      hide Listed;
      ghost var before := flux;
      var releases, sources;
      clear := false;
      releases, ok, marked := DeleteMultipleHelmReleases(Some(k));
      if !ok {
        return;
      }
      SourcesUnaffected(env, Some(k), before, marked, ClustersIn(releases.value));
      ItemsOf(before, ReleasesOf(env, Some(k), before));
      ghost var between := flux;
      ghost var more;
      sources, ok, more := DeleteMultipleHelmChartSources(Some(k), releases.value);
      MarkBoth(before, marked, more);
      marked := marked + more;
      if !ok {
        return;
      }
      ItemsOf(between, SourcesOf(env, Some(k), between));
      clear := |releases.value| + |sources.value| == 0;
    }

    /** Takes the deployment's objects away from a cluster that is not selected. */
    method CleanUpCluster(k: Key) returns (ok: bool, ghost marked: set<FluxKey>)
      requires Valid() && k in clusters && !IsSelected(env, k, clusters[k])
      modifies `clusters, `flux, `faults, `listFaults
      ensures Valid() && CleanUp(env, k, old(State()), State(), marked)
      ensures forall x :: x != k ==> (x in clusters <==> x in old(clusters)) && (x in clusters ==> clusters[x] == old(clusters)[x])
      ensures ok && ReleasesOf(env, Some(k), old(flux)) == {} && SourcesOf(env, Some(k), old(flux)) == {} ==> !HasFinalizer(env, clusters, k)
      ensures
        var releases := ReleasesOf(env, Some(k), old(flux));
        ok ==> marked == releases + Deletable(env, Some(k), old(flux), ClustersOf(old(flux), releases))
      ensures ok <==> faults == old(faults) && listFaults == old(listFaults)
      ensures faults >= old(faults) && listFaults >= old(listFaults)
    {
      var clear;
      ok, clear, marked := DeleteFluxOn(k);
      if clear && ClusterFinalizer(env) in clusters[k].finalizers {
        assert Released(env, clusters, {}) == clusters;
        ReleaseMore(env, clusters, {}, k);
        assert {} + {k} == {k};
        ok := ReleaseOne(k);
      }
    }

    /** Deletes objects one after the other until a call fails. */
    method DeleteObsolete(obsolete: set<FluxKey>) returns (ok: bool, ghost gone: set<FluxKey>)
      requires Valid() && obsolete <= flux.Keys
      modifies `flux, `faults
      ensures Valid() && gone <= obsolete && (ok ==> gone == obsolete)
      ensures flux == Mark(old(flux), gone)
      ensures faults >= old(faults) && (ok <==> faults == old(faults))
    {
      ok, gone := true, {};
      var todo := obsolete;
      assert flux == Mark(flux, {});
      while todo != {}
        invariant Valid() && ok && todo <= obsolete && gone == obsolete - todo && faults == old(faults)
        invariant flux == Mark(old(flux), gone)
      {
        var f :| f in todo;
        MarkMore(old(flux), gone, f);
        ok := DeleteObject(f);
        if !ok {
          return;
        }
        assert flux == Mark(old(flux), gone + {f});
        todo, gone := todo - {f}, gone + {f};
      }
    }

    /** Creates or updates the chart source and removes obsolete ones. `done` says that this has worked. */
    method DeployHelmChartSource(k: Key) returns (done: bool, ghost gone: set<FluxKey>)
      requires Valid()
      modifies `flux, `faults, `listFaults
      ensures Valid()
      ensures flux == old(flux) ||
              (env.sourceKind.Some? && gone <= Obsolete(env, k, old(flux), DeployedKey(env, k, env.sourceKind.value))
               && flux == Mark(WithDeployed(env, k, old(flux), DeployedKey(env, k, env.sourceKind.value)), gone))
      ensures done ==> env.sourceKind.Some? && gone == Obsolete(env, k, old(flux), DeployedKey(env, k, env.sourceKind.value))
                       && flux == Mark(WithDeployed(env, k, old(flux), DeployedKey(env, k, env.sourceKind.value)), gone)
      ensures done <==> env.sourceKind.Some? && faults == old(faults) && listFaults == old(listFaults)
      ensures faults >= old(faults) && listFaults >= old(listFaults)
    {
      gone := {};
      var existing := List(Some(k), [HelmRepository, GitRepository, OCIRepository]);
      if existing.None? || env.sourceKind.None? {
        return false, gone;
      }
      assert existing.value.Keys == SourcesOf(env, Some(k), flux);
      var source := DeployedKey(env, k, env.sourceKind.value);
      var obsolete := existing.value.Keys - {source};
      var ok := Call();
      if !ok {
        return false, gone;
      }
      flux := flux[source := Deployed(env, k, flux, source)];
      done, gone := DeleteObsolete(obsolete);
    }

    method DeployHelmRelease(k: Key) returns (ok: bool)
      requires Valid()
      modifies `flux, `faults
      ensures Valid()
      ensures flux == if ok then WithDeployed(env, k, old(flux), DeployedKey(env, k, HelmRelease)) else old(flux)
      ensures faults == old(faults) + if ok then 0 else 1
    {
      var release := DeployedKey(env, k, HelmRelease);
      ok := Call();
      if ok {
        flux := flux[release := Deployed(env, k, flux, release)];
      }
    }

    /** Deploys to a selected cluster, as far as it is possible at the moment. `access` says that there are
        credentials for the cluster, `sourceReady` that Flux can use the chart source. */
    method DeployToCluster(k: Key, access: bool, sourceReady: bool)
      requires Valid() && k in clusters && IsSelected(env, k, clusters[k])
      modifies `clusters, `flux, `faults, `listFaults
      ensures Valid() && Deploy(env, k, old(State()), State())
      ensures forall x :: x != k ==> (x in clusters <==> x in old(clusters)) && (x in clusters ==> clusters[x] == old(clusters)[x])
      ensures faults >= old(faults) && listFaults >= old(listFaults)
      ensures faults == old(faults) ==> HasFinalizer(env, clusters, k)
      ensures !access ==> flux == old(flux)
      ensures access && faults == old(faults) && listFaults == old(listFaults) && env.sourceKind.Some? ==>
                DeployedKey(env, k, env.sourceKind.value) in flux && (sourceReady ==> DeployedKey(env, k, HelmRelease) in flux)
    {
      var c := clusters[k];
      if ClusterFinalizer(env) !in c.finalizers {
        var ok := Call();
        if !ok {
          return;
        }
        clusters := clusters[k := c.(finalizers := c.finalizers + [ClusterFinalizer(env)])];
      }
      if !access {
        return;
      }
      ghost var before := flux;
      var done;
      ghost var gone;
      done, gone := DeployHelmChartSource(k);
      if done && sourceReady {
        var ok := DeployHelmRelease(k);
      }
      assert flux != before ==> DeployedFlux(env, k, before, flux);
    }

    /** The step for one cluster: deployment or clean-up. */
    method HandleCluster(k: Key, access: bool, sourceReady: bool)
      requires Valid() && HasOwnFinalizer(State()) && !deployment.value.deleting && k in clusters
      modifies `clusters, `flux, `faults, `listFaults
      ensures Valid() && Next(env, old(State()), OnCluster(k), State())
      ensures forall x :: x != k ==> (x in clusters <==> x in old(clusters)) && (x in clusters ==> clusters[x] == old(clusters)[x])
      ensures forall x :: x != k ==> HasFinalizer(env, clusters, x) == HasFinalizer(env, old(clusters), x)
      ensures faults >= old(faults)
      ensures faults == old(faults) && IsSelected(env, k, old(clusters)[k]) ==> HasFinalizer(env, clusters, k)
      ensures faults == old(faults) && listFaults == old(listFaults) && !IsSelected(env, k, old(clusters)[k]) ==>
                FullCleanUp(env, k, old(State()), State())
    {
      if IsSelected(env, k, clusters[k]) {
        DeployToCluster(k, access, sourceReady);
      } else {
        var clean, marked := CleanUpCluster(k);
      }
    }

    /** All clusters, in any order, carrying on after failures. */
    method HandleClusters(access: set<Key>, ready: set<Key>, ghost ws: seq<World>, ghost es: seq<Event>)
      returns (ghost ws': seq<World>, ghost es': seq<Event>)
      requires Valid() && HasOwnFinalizer(State()) && !deployment.value.deleting
      requires Run(env, ws, es) && ws[|es|] == State()
      modifies `clusters, `flux, `faults, `listFaults
      ensures Valid() && Run(env, ws', es') && ws'[0] == ws[0] && ws'[|es'|] == State()
      ensures forall e :: e in es' <==> e in es || (e.OnCluster? && e.key in old(clusters))
      ensures faults >= old(faults)
      ensures faults == old(faults) ==>
                forall k :: k in old(clusters) && IsSelected(env, k, old(clusters)[k]) ==> HasFinalizer(env, clusters, k)
    {
      ws', es' := ws, es;
      var todo := clusters.Keys;
      ghost var list := clusters;
      while todo != {}
        invariant Valid() && HasOwnFinalizer(State()) && !deployment.value.deleting
        invariant todo <= list.Keys && forall k :: k in todo ==> k in clusters && clusters[k] == list[k]
        invariant Run(env, ws', es') && ws'[0] == ws[0] && ws'[|es'|] == State()
        invariant forall e :: e in es' <==> e in es || (e.OnCluster? && e.key in list && e.key !in todo)
        invariant faults >= old(faults)
        invariant faults == old(faults) ==>
                    forall k :: k in list && k !in todo && IsSelected(env, k, list[k]) ==> HasFinalizer(env, clusters, k)
      {
        var k :| k in todo;
        HandleCluster(k, k in access, k in ready);
        ws', es' := RunOn(env, ws', es', OnCluster(k), State());
        todo := todo - {k};
      }
    }

    method EnsureOwnFinalizer() returns (ok: bool)
      requires deployment.Some? && !deployment.value.deleting
      modifies `deployment, `faults
      ensures if ok then HasOwnFinalizer(State()) && Next(env, old(State()), OwnFinalizer, State()) else State() == old(State())
      ensures deployment.Some? && !deployment.value.deleting
      ensures faults == old(faults) + if ok then 0 else 1
    {
      var d := deployment.value;
      if FINALIZER in d.finalizers {
        return true;
      }
      ok := Call();
      if ok {
        deployment := Some(d.(finalizers := d.finalizers + [FINALIZER]));
      }
    }

    /** The pass over a deployment that is kept. It is a run of single steps. For which clusters there are
        credentials and usable sources is decided by others. */
    method HandleCreateOrUpdate(access: set<Key>, ready: set<Key>) returns (ghost ws: seq<World>, ghost es: seq<Event>)
      requires Valid() && deployment.Some? && !deployment.value.deleting
      modifies `clusters, `flux, `deployment, `faults, `listFaults
      ensures Valid() && Run(env, ws, es) && ws[0] == old(State()) && ws[|es|] == State()
      ensures forall e :: e in es ==> e.OwnFinalizer? || e.OnCluster?
      ensures faults == old(faults) ==>
                && HasOwnFinalizer(State())
                && (forall k :: k in old(clusters) ==> OnCluster(k) in es)
                && (forall k :: k in old(clusters) && IsSelected(env, k, old(clusters)[k]) ==> HasFinalizer(env, clusters, k))
    {
      ws, es := [State()], [];
      var ok := EnsureOwnFinalizer();
      if !ok {
        return;
      }
      ws, es := RunOn(env, ws, es, OwnFinalizer, State());
      ok := Call();
      if ok {
        ws, es := HandleClusters(access, ready, ws, es);
      }
    }

    method RemoveOwnFinalizer() returns (ok: bool)
      requires deployment.Some?
      modifies `deployment, `faults
      ensures deployment == if ok then WithoutOwnFinalizer(old(deployment)) else old(deployment)
      ensures faults >= old(faults) && (!ok ==> faults > old(faults))
    {
      ok := Call();
      if ok {
        var fins := RemoveFinalizer(deployment.value.finalizers, FINALIZER);
        deployment := if deployment.value.deleting && fins == [] then None else Some(deployment.value.(finalizers := fins));
      }
    }

    /** Deletes releases and then sources, over all clusters. `wait` says that the pass is to end here. */
    method DeleteFlux() returns (keep: set<Option<Key>>, ok: bool, wait: bool, ghost i: DeleteInfo)
      requires Valid()
      modifies `flux, `faults, `listFaults
      ensures Valid() && FluxDeleted(env, old(flux), flux, i) && faults >= old(faults)
      ensures keep == KeepAfter(env, old(flux), i)
      ensures ok ==> i.releasesListed && i.sourcesListed && faults == old(faults)
      ensures wait ==> i.sourcesListed
      ensures !wait && ok ==> ReleasesOf(env, None, old(flux)) == {} && SourcesOf(env, None, old(flux)) == {}
      ensures faults == old(faults) ==> AllMarked(env, old(flux), i) && (wait <==> i.sourcesListed && Remaining(env, old(flux), i) != {})
      ensures faults == old(faults) && !wait ==> (ok <==> i.releasesListed && i.sourcesListed)
      ensures listFaults == old(listFaults) ==> i.releasesListed && i.sourcesListed
    {
      ghost var before := flux;
      ghost var marked, more;
      var releases, releasesDone, sources, sourcesDone;
      releases, releasesDone, marked := DeleteMultipleHelmReleases(None);
      var remainingReleases := if releases.Some? then releases.value else map[];
      sources, sourcesDone, more := DeleteMultipleHelmChartSources(None, remainingReleases);
      var remainingSources := if sources.Some? then sources.value else map[];
      i := DeleteInfo(releases.Some?, sources.Some?, marked + more, {}, false);
      FluxDeletion(env, before, i, remainingReleases, remainingSources, marked, more);
      keep := ClustersIn(remainingReleases) + ClustersIn(remainingSources);
      ok := releasesDone && sourcesDone;
      wait := sourcesDone && |remainingReleases| + |remainingSources| > 0;
    }

    /** The pass over a deployment that is being deleted. */
    method HandleDelete() returns (ghost i: DeleteInfo)
      requires Valid() && deployment.Some? && deployment.value.deleting
      modifies `clusters, `flux, `deployment, `faults, `listFaults
      ensures DeletePass(env, old(State()), State(), i)
      ensures faults == old(faults) ==> State() == DeleteResult(env, old(State()), i.releasesListed, i.sourcesListed)
      ensures listFaults == old(listFaults) ==> i.releasesListed && i.sourcesListed
    {
      ghost var w := State();
      var keep, ok, wait;
      keep, ok, wait, i := DeleteFlux();
      WaitingPass(env, w, i);
      if wait {
        return;
      }
      var listed := Call();
      if !listed {
        return;
      }
      ghost var first := i;
      var done;
      ghost var released;
      done, released := ReleaseClusters(keep);
      var removed := false;
      if ok && done {
        removed := RemoveOwnFinalizer();
      }
      i := first.(released := released, finalized := removed);
      ReleasingPass(env, w, State(), first, i);
    }
  }

  /** A pass that only deletes Flux objects. */
  lemma WaitingPass(env: Environment, w: World, i: DeleteInfo)
    requires FluxDeleted(env, w.flux, Mark(w.flux, i.marked), i)
    ensures DeletePass(env, w, w.(flux := Mark(w.flux, i.marked)), i)
    ensures AllMarked(env, w.flux, i) && i.sourcesListed && Remaining(env, w.flux, i) != {} ==>
              w.(flux := Mark(w.flux, i.marked)) == DeleteResult(env, w, i.releasesListed, i.sourcesListed)
  {
    assert Released(env, w.clusters, {}) == w.clusters;
  }

  /** A pass that goes on to the finalizers. */
  lemma ReleasingPass(env: Environment, w: World, w': World, first: DeleteInfo, i: DeleteInfo)
    requires FluxDeleted(env, w.flux, w'.flux, first) && i == first.(released := i.released, finalized := i.finalized)
    requires i.released <= ToRelease(env, w, KeepAfter(env, w.flux, i)) && w'.clusters == Released(env, w.clusters, i.released)
    requires w'.deployment == if i.finalized then WithoutOwnFinalizer(w.deployment) else w.deployment
    requires i.finalized ==>
               && i.releasesListed && i.sourcesListed && Remaining(env, w.flux, i) == {}
               && i.released == ToRelease(env, w, KeepAfter(env, w.flux, i))
    ensures DeletePass(env, w, w', i)
    ensures && AllMarked(env, w.flux, i) && !(i.sourcesListed && Remaining(env, w.flux, i) != {})
            && i.released == ToRelease(env, w, KeepAfter(env, w.flux, i)) && (i.finalized <==> i.releasesListed && i.sourcesListed) ==>
              w' == DeleteResult(env, w, i.releasesListed, i.sourcesListed)
  {
    ClustersOfBoth(w.flux, ReleasesSeen(env, w.flux, i), SourcesSeen(env, w.flux, i));
    BothEmpty(ReleasesSeen(env, w.flux, i), SourcesSeen(env, w.flux, i));
    assert Remaining(env, w.flux, i) == ReleasesSeen(env, w.flux, i) + SourcesSeen(env, w.flux, i);
    assert ClustersOf(w.flux, {}) == {};
  }

  // ---------- the parts of a deletion pass ----------

  function Remaining(env: Environment, flux: map<FluxKey, Flux>, i: DeleteInfo): set<FluxKey> {
    (if i.releasesListed then ReleasesOf(env, None, flux) else {}) + (if i.sourcesListed then SourcesOf(env, None, flux) else {})
  }

  function KeepAfter(env: Environment, flux: map<FluxKey, Flux>, i: DeleteInfo): set<Option<Key>> {
    ClustersOf(flux, Remaining(env, flux, i))
  }

  function ToMark(env: Environment, flux: map<FluxKey, Flux>, i: DeleteInfo): set<FluxKey> {
    var releases := if i.releasesListed then ReleasesOf(env, None, flux) else {};
    releases + (if i.sourcesListed then Deletable(env, None, flux, ClustersOf(flux, releases)) else {})
  }

  predicate AllMarked(env: Environment, flux: map<FluxKey, Flux>, i: DeleteInfo) {
    i.marked == ToMark(env, flux, i)
  }

  predicate FluxDeleted(env: Environment, flux: map<FluxKey, Flux>, flux': map<FluxKey, Flux>, i: DeleteInfo) {
    flux' == Mark(flux, i.marked) && i.marked <= ToMark(env, flux, i) && i.released == {} && !i.finalized
  }

  function ReleasesSeen(env: Environment, flux: map<FluxKey, Flux>, i: DeleteInfo): set<FluxKey> {
    if i.releasesListed then ReleasesOf(env, None, flux) else {}
  }

  function SourcesSeen(env: Environment, flux: map<FluxKey, Flux>, i: DeleteInfo): set<FluxKey> {
    if i.sourcesListed then SourcesOf(env, None, flux) else {}
  }

  lemma ItemsOf(flux: map<FluxKey, Flux>, fs: set<FluxKey>)
    requires fs <= flux.Keys
    ensures Items(flux, fs).Keys == fs
    ensures ClustersIn(Items(flux, fs)) == ClustersOf(flux, fs)
    ensures |Items(flux, fs)| > 0 <==> fs != {}
  {
    var items := Items(flux, fs);
    assert items.Keys == fs;
    assert |items| == |items.Keys|;
    forall c ensures c in ClustersIn(items) <==> c in ClustersOf(flux, fs) {
    }
  }

  lemma ItemsRemain(env: Environment, flux: map<FluxKey, Flux>, i: DeleteInfo, releases: map<FluxKey, Flux>, sources: map<FluxKey, Flux>)
    requires releases == Items(flux, ReleasesSeen(env, flux, i)) && sources == Items(flux, SourcesSeen(env, flux, i))
    ensures |releases| + |sources| > 0 <==> Remaining(env, flux, i) != {}
  {
    var a, b := ReleasesSeen(env, flux, i), SourcesSeen(env, flux, i);
    ItemsOf(flux, a);
    ItemsOf(flux, b);
    assert Remaining(env, flux, i) == a + b;
    BothEmpty(a, b);
  }

  lemma BothEmpty(a: set<FluxKey>, b: set<FluxKey>)
    ensures a + b == {} <==> a == {} && b == {}
  {
    if a + b == {} {
      forall x ensures x !in a && x !in b {
        assert x !in a + b;
      }
    }
  }

  lemma ItemsAreKept(env: Environment, flux: map<FluxKey, Flux>, i: DeleteInfo, releases: map<FluxKey, Flux>, sources: map<FluxKey, Flux>)
    requires releases == Items(flux, ReleasesSeen(env, flux, i)) && sources == Items(flux, SourcesSeen(env, flux, i))
    ensures ClustersIn(releases) + ClustersIn(sources) == KeepAfter(env, flux, i)
  {
    ItemsOf(flux, ReleasesSeen(env, flux, i));
    ItemsOf(flux, SourcesSeen(env, flux, i));
    ClustersOfBoth(flux, ReleasesSeen(env, flux, i), SourcesSeen(env, flux, i));
  }

  lemma MarkedAsDue(env: Environment, flux: map<FluxKey, Flux>, i: DeleteInfo, releases: map<FluxKey, Flux>, marked: set<FluxKey>, more: set<FluxKey>)
    requires releases == Items(flux, ReleasesSeen(env, flux, i)) && i.marked == marked + more
    requires marked <= ReleasesSeen(env, flux, i)
    requires more <= if i.sourcesListed then Deletable(env, None, flux, ClustersIn(releases)) else {}
    ensures i.marked <= ToMark(env, flux, i)
    ensures marked == ReleasesSeen(env, flux, i) && (i.sourcesListed ==> more == Deletable(env, None, flux, ClustersIn(releases))) ==>
              i.marked == ToMark(env, flux, i)
  {
    ItemsOf(flux, ReleasesSeen(env, flux, i));
    assert ToMark(env, flux, i) ==
           ReleasesSeen(env, flux, i) + if i.sourcesListed then Deletable(env, None, flux, ClustersIn(releases)) else {};
  }

  lemma ClustersOfBoth(flux: map<FluxKey, Flux>, a: set<FluxKey>, b: set<FluxKey>)
    requires a <= flux.Keys && b <= flux.Keys
    ensures ClustersOf(flux, a + b) == ClustersOf(flux, a) + ClustersOf(flux, b)
  {
    forall c ensures c in ClustersOf(flux, a + b) <==> c in ClustersOf(flux, a) + ClustersOf(flux, b) {
      if c in ClustersOf(flux, a) {
        var f :| f in a && ClusterOf(f, flux[f]) == c;
        assert f in a + b;
      }
      if c in ClustersOf(flux, b) {
        var f :| f in b && ClusterOf(f, flux[f]) == c;
        assert f in a + b;
      }
    }
  }

  /** What deleting first releases and then sources amounts to. */
  lemma FluxDeletion(env: Environment, flux: map<FluxKey, Flux>, i: DeleteInfo, releases: map<FluxKey, Flux>,
                     sources: map<FluxKey, Flux>, marked: set<FluxKey>, more: set<FluxKey>)
    requires releases == Items(flux, ReleasesSeen(env, flux, i)) && marked <= ReleasesSeen(env, flux, i)
    requires
      var between := Mark(flux, marked);
      && sources == (if i.sourcesListed then Items(between, SourcesOf(env, None, between)) else map[])
      && more <= (if i.sourcesListed then Deletable(env, None, between, ClustersIn(releases)) else {})
    requires i.marked == marked + more && i.released == {} && !i.finalized
    ensures FluxDeleted(env, flux, Mark(Mark(flux, marked), more), i)
    ensures ClustersIn(releases) + ClustersIn(sources) == KeepAfter(env, flux, i)
    ensures |releases| + |sources| > 0 <==> Remaining(env, flux, i) != {}
    ensures
      var all := i.sourcesListed ==> more == Deletable(env, None, Mark(flux, marked), ClustersIn(releases));
      marked == ReleasesSeen(env, flux, i) && all ==> AllMarked(env, flux, i)
  {
    SourcesUnaffected(env, None, flux, marked, ClustersIn(releases));
    var between := Mark(flux, marked);
    assert sources == Items(flux, SourcesSeen(env, flux, i)) by {
      assert forall f :: f in SourcesOf(env, None, flux) ==> f in between && between[f] == flux[f];
    }
    MarkBoth(flux, marked, more);
    ItemsRemain(env, flux, i, releases, sources);
    ItemsAreKept(env, flux, i, releases, sources);
    MarkedAsDue(env, flux, i, releases, marked, more);
  }
}
