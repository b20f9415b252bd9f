/** What a pass of the cluster scheduler decides and which writes it makes, over the state of the
    platform cluster's API server. */
module SchedulerModel {
  import opened Kube
  import opened LabelSelectors
  import opened SchedulerConfiguration

  const GROUP_NAME := "clusters.openmcp.cloud"
  const REQUEST_FINALIZER := GROUP_NAME + "/request"
  const REQUEST_FINALIZER_PREFIX := "request." + GROUP_NAME + "/"
  const DELETE_WITHOUT_REQUESTS_LABEL := GROUP_NAME + "/delete-without-requests"
  const RANDOMIZE_CLUSTER_NAME_LABEL := GROUP_NAME + "/randomize-cluster-name"
  const METADATA_PREFIX := "metadata.open-control-plane.io/"
  const MAX_NAME_LENGTH := 63

  type Cluster = Object<ClusterSpec>

  /** The kind-specific part of a ClusterRequest; `cluster` is the reference in its status. */
  datatype RequestData = RequestData(uid: string, purpose: string, cluster: Option<Key>)

  type ClusterRequest = Object<RequestData>

  datatype World = World(clusters: map<Key, Cluster>, requests: map<Key, ClusterRequest>)

  /** The completed configuration, and the function that turns a request's key into a name suffix of
      at most the given length (or fails). */
  datatype Environment = Environment(config: Config, suffix: (Key, int) -> Option<string>)

  // ---------- back references from clusters to requests ----------

  function FinalizerForCluster(uid: string): string {
    REQUEST_FINALIZER_PREFIX + uid
  }

  /** The uids of all requests that have a finalizer on the cluster. */
  function RequestUIDs(c: Cluster): set<string> {
    Suffixes(c.finalizers, REQUEST_FINALIZER_PREFIX)
  }

  function TenancyCount(c: Cluster): nat {
    |RequestUIDs(c)|
  }

  function WithRequest(c: Cluster, uid: string): Cluster {
    c.(finalizers := AddFinalizer(c.finalizers, FinalizerForCluster(uid)))
  }

  function WithoutRequest(c: Cluster, uid: string): Cluster {
    c.(finalizers := RemoveFinalizer(c.finalizers, FinalizerForCluster(uid)))
  }

  lemma UIDIn(c: Cluster, uid: string)
    ensures uid in RequestUIDs(c) <==> FinalizerForCluster(uid) in c.finalizers
  {
    SuffixIn(c.finalizers, REQUEST_FINALIZER_PREFIX, uid);
  }

  lemma UIDsWith(c: Cluster, uid: string)
    ensures RequestUIDs(WithRequest(c, uid)) == RequestUIDs(c) + {uid}
  {
    SuffixesAfterAdd(c.finalizers, REQUEST_FINALIZER_PREFIX, uid);
  }

  lemma UIDsWithout(c: Cluster, uid: string)
    ensures RequestUIDs(WithoutRequest(c, uid)) == RequestUIDs(c) - {uid}
  {
    SuffixesAfterRemove(c.finalizers, REQUEST_FINALIZER_PREFIX, uid);
  }

  // ---------- which clusters qualify ----------

  /** The namespace to search; empty means all. */
  function ListNamespace(config: Config, d: Definition, requestNamespace: string): string {
    if config.scope == ClusterScope then ""
    else if d.template.namespace != "" then d.template.namespace
    else requestNamespace
  }

  /** The cluster is one of those that are fetched for a request of this purpose and namespace. */
  predicate Relevant(config: Config, purpose: string, requestNamespace: string, k: Key, c: Cluster) {
    && purpose in config.purposeMappings
    && var d := config.purposeMappings[purpose];
    && var ns := ListNamespace(config, d, requestNamespace);
    && (ns == "" || k.namespace == ns)
    && Matches(d.selector, c.labels)
    && purpose in c.spec.purposes
  }

  predicate RelevantFor(env: Environment, w: World, rk: Key, k: Key)
    requires rk in w.requests
  {
    k in w.clusters && Relevant(env.config, w.requests[rk].spec.purpose, rk.namespace, k, w.clusters[k])
  }

  /** The cluster may take one more request of its definition. */
  predicate Candidate(env: Environment, w: World, rk: Key, k: Key)
    requires rk in w.requests
  {
    && RelevantFor(env, w, rk, k)
    && !w.clusters[k].deleting
    && var d := env.config.purposeMappings[w.requests[rk].spec.purpose];
    && (d.tenancyCount > 0 ==> TenancyCount(w.clusters[k]) < d.tenancyCount)
  }

  predicate HoldsRequest(env: Environment, w: World, rk: Key, k: Key)
    requires rk in w.requests
  {
    RelevantFor(env, w, rk, k) && FinalizerForCluster(w.requests[rk].spec.uid) in w.clusters[k].finalizers
  }

  // ---------- new clusters ----------

  datatype NameChoice = FixedName(name: string) | GeneratedName(prefix: string) | NoName

  function GenerateClusterName(env: Environment, prefix: string, rk: Key): NameChoice {
    match env.suffix(rk, MAX_NAME_LENGTH - |prefix|)
    case None => NoName
    case Some(s) => FixedName(prefix + s)
  }

  predicate HasLabel(labels: Labels, key: string, value: string) {
    key in labels && labels[key] == value
  }

  function ChooseName(env: Environment, rk: Key, r: ClusterRequest, d: Definition, lost: Option<Key>): NameChoice {
    var randomize := HasLabel(r.labels, RANDOMIZE_CLUSTER_NAME_LABEL, "true");
    if lost.Some? && lost.value.name != "" then FixedName(lost.value.name)
    else if d.template.spec.tenancy == Shared && d.tenancyCount == 0 then
      if d.template.generateName != "" then
        if randomize then GeneratedName(d.template.generateName)
        else GenerateClusterName(env, d.template.generateName, rk)
      else if d.template.name != "" then FixedName(d.template.name)
      else FixedName(r.spec.purpose)
    else
      var prefix := if d.template.generateName != "" then d.template.generateName else r.spec.purpose + "-";
      if randomize then GeneratedName(prefix) else GenerateClusterName(env, prefix, rk)
  }

  function ChooseNamespace(rk: Key, d: Definition, lost: Option<Key>): string {
    if lost.Some? && lost.value.namespace != "" then lost.value.namespace
    else if d.template.namespace != "" then d.template.namespace
    else rk.namespace
  }

  /** The entries that are propagated from a request to an exclusive cluster. */
  function MetadataOf(entries: Labels): Labels {
    map k | k in entries && HasPrefix(k, METADATA_PREFIX) :: entries[k]
  }

  function WithDefaultLabel(labels: Labels): Labels {
    if DELETE_WITHOUT_REQUESTS_LABEL in labels then labels else labels[DELETE_WITHOUT_REQUESTS_LABEL := "true"]
  }

  function PurposesWith(purposes: seq<string>, purpose: string): seq<string> {
    if purpose in purposes then purposes else purposes + [purpose]
  }

  function NewCluster(r: ClusterRequest, d: Definition): Cluster {
    var exclusive := d.template.spec.tenancy == Exclusive;
    Object([FinalizerForCluster(r.spec.uid)], false,
           WithDefaultLabel(d.template.labels) + (if exclusive then MetadataOf(r.labels) else map[]),
           d.template.annotations + (if exclusive then MetadataOf(r.annotations) else map[]),
           d.template.spec.(purposes := PurposesWith(d.template.spec.purposes, r.spec.purpose)))
  }

  // ---------- conflicts with a cluster that has the chosen name ----------

  /** The finalizers of all requests that exist. */
  function LiveFinalizers(w: World): set<string> {
    set rk | rk in w.requests :: FinalizerForCluster(w.requests[rk].spec.uid)
  }

  /** The first finalizer of another request, unless the own one comes earlier. */
  function FirstForeign(fins: seq<string>, own: string): Option<string> {
    if fins == [] || fins[0] == own then None
    else if HasPrefix(fins[0], REQUEST_FINALIZER_PREFIX) then Some(fins[0])
    else FirstForeign(fins[1..], own)
  }

  /** The conflict the code reports: only the first foreign finalizer is looked up. */
  predicate ReportsConflict(fins: seq<string>, own: string, live: set<string>) {
    own !in fins && var first := FirstForeign(fins, own); first.Some? && first.value in live
  }

  /** The finalizers the code drops when it takes a cluster over, whether or not they are stale. */
  function DroppedFinalizers(fins: seq<string>, own: string): set<string> {
    match FirstForeign(fins, own)
    case None => {}
    case Some(f) => {f}
  }

  /** `c` is what `existing` becomes when it is taken over. The order of its finalizers is left open. */
  ghost predicate TakenOver(existing: Cluster, created: Cluster, own: string, c: Cluster) {
    && (forall f :: f in c.finalizers <==>
          (f in existing.finalizers && f !in DroppedFinalizers(existing.finalizers, own)) || f in created.finalizers)
    && c.deleting == existing.deleting
    && c.labels == existing.labels + created.labels
    && c.annotations == existing.annotations + created.annotations
    && c.spec == created.spec
  }

  // ---------- the decision of a pass ----------

  datatype Reason = ApiFault | UnknownPurpose | UnknownStrategy | NameGenerationFailed | ClusterConflict

  datatype Decision =
    | Keep(key: Key)                         // the referenced cluster exists
    | Recover(key: Key)                      // the status was lost, a cluster still has the finalizer
    | Join(key: Key)                         // an existing cluster qualifies
    | Create(key: Key, cluster: Cluster)     // a new cluster is needed
    | TakeOver(key: Key, cluster: Cluster)   // a cluster with the chosen name exists
    | Reject(reason: Reason)

  /** The strategy's choice among the candidates. A single candidate is taken whatever the strategy is. */
  ghost predicate Selects(env: Environment, w: World, rk: Key, d: Decision)
    requires rk in w.requests
  {
    var strategy := env.config.strategy;
    || (&& d.Join? && Candidate(env, w, rk, d.key)
        && (strategy in {Balanced, UnsetStrategy} ==>
              forall k :: Candidate(env, w, rk, k) ==> TenancyCount(w.clusters[d.key]) <= TenancyCount(w.clusters[k]))
        && (strategy.OtherStrategy? ==> forall k :: Candidate(env, w, rk, k) ==> k == d.key))
    || (&& d == Reject(UnknownStrategy) && strategy.OtherStrategy?
        && exists a, b :: a != b && Candidate(env, w, rk, a) && Candidate(env, w, rk, b))
  }

  ghost predicate Places(env: Environment, w: World, rk: Key, d: Decision)
    requires rk in w.requests && w.requests[rk].spec.purpose in env.config.purposeMappings
  {
    var r := w.requests[rk];
    var definition := env.config.purposeMappings[r.spec.purpose];
    var created := NewCluster(r, definition);
    var own := FinalizerForCluster(r.spec.uid);
    var ns := ChooseNamespace(rk, definition, r.spec.cluster);
    match ChooseName(env, rk, r, definition, r.spec.cluster)
    case NoName => d == Reject(NameGenerationFailed)
    case GeneratedName(prefix) =>
      d.Create? && d.cluster == created && d.key.namespace == ns && HasPrefix(d.key.name, prefix) && d.key !in w.clusters
    case FixedName(name) =>
      var k := Key(ns, name);
      if k !in w.clusters then d == Create(k, created)
      else if ReportsConflict(w.clusters[k].finalizers, own, LiveFinalizers(w)) then d == Reject(ClusterConflict)
      else d.TakeOver? && d.key == k && TakenOver(w.clusters[k], created, own, d.cluster)
  }

  /** `d` is a decision the scheduler may come to. */
  ghost predicate Decides(env: Environment, w: World, rk: Key, d: Decision)
    requires rk in w.requests
  {
    var r := w.requests[rk];
    if r.spec.cluster.Some? && r.spec.cluster.value in w.clusters then d == Keep(r.spec.cluster.value)
    else if r.spec.purpose !in env.config.purposeMappings then d == Reject(UnknownPurpose)
    else if r.spec.cluster.None? && exists k :: HoldsRequest(env, w, rk, k) then
      d.Recover? && HoldsRequest(env, w, rk, d.key)
    else if && r.spec.cluster.None?
            && env.config.purposeMappings[r.spec.purpose].template.spec.tenancy == Shared
            && exists k :: Candidate(env, w, rk, k) then
      Selects(env, w, rk, d)
    else
      Places(env, w, rk, d)
  }

  /** What a pass reports: the cluster reference for the request's status, or an error. */
  datatype PassResult = PassResult(ref: Option<Key>, err: Option<Reason>)

  // ---------- the writes of a pass ----------

  /** The number of cluster writes a decision leads to. Keeping a cluster first ensures the finalizer
      and then propagates metadata. */
  function ClusterWrites(d: Decision): nat {
    match d
    case Keep(_) => 2
    case Join(_) => 1
    case Create(_, _) => 1
    case TakeOver(_, _) => 1
    case _ => 0
  }

  /** The value of an entry, where missing and empty are the same. */
  function Lookup(entries: Labels, key: string): string {
    if key in entries then entries[key] else ""
  }

  /** Missing and outdated metadata entries are set, all other entries stay. */
  function Propagated(entries: Labels, wanted: Labels): Labels {
    entries + map k | k in wanted && HasPrefix(k, METADATA_PREFIX) && Lookup(entries, k) != wanted[k] :: wanted[k]
  }

  function WithMetadata(c: Cluster, r: ClusterRequest): Cluster {
    if c.spec.tenancy == Exclusive then
      c.(annotations := Propagated(c.annotations, r.annotations), labels := Propagated(c.labels, r.labels))
    else c
  }

  function AfterClusterWrites(w: World, rk: Key, d: Decision, writes: nat): map<Key, Cluster>
    requires rk in w.requests
    requires d.Keep? || d.Join? ==> d.key in w.clusters
  {
    var r := w.requests[rk];
    if writes == 0 then w.clusters
    else
      match d
      case Keep(k) =>
        var c := WithRequest(w.clusters[k], r.spec.uid);
        w.clusters[k := if writes == 1 then c else WithMetadata(c, r)]
      case Join(k) => w.clusters[k := WithRequest(w.clusters[k], r.spec.uid)]
      case Create(k, c) => w.clusters[k := c]
      case TakeOver(k, c) => w.clusters[k := c]
      case _ => w.clusters
  }

  /** The API server accepts the finalizer that the decision adds. */
  predicate Accepted(w: World, rk: Key, d: Decision)
    requires rk in w.requests
  {
    d.Keep? || d.Join? || d.TakeOver? ==>
      d.key in w.clusters &&
      (w.clusters[d.key].deleting ==> FinalizerForCluster(w.requests[rk].spec.uid) in w.clusters[d.key].finalizers)
  }

  /** The world after the scheduler has put its own finalizer on the request. */
  function Marked(w: World, rk: Key): World
    requires rk in w.requests
  {
    var r := w.requests[rk];
    w.(requests := w.requests[rk := r.(finalizers := AddFinalizer(r.finalizers, REQUEST_FINALIZER))])
  }

  /** How a pass over a marked request may end: the state it leaves, and what it reports. `faultFree`
      says that no call to the API server failed on its own account. */
  ghost predicate Outcome(env: Environment, w: World, after: World, rk: Key, d: Decision, writes: nat,
                          res: PassResult, faultFree: bool)
  {
    && rk in w.requests
    && (d == Reject(ApiFault) || Decides(env, w, rk, d))
    && (d.Keep? || d.Join? ==> d.key in w.clusters)
    && writes <= ClusterWrites(d)
    && (writes > 0 ==> Accepted(w, rk, d))
    && after == World(AfterClusterWrites(w, rk, d, writes), w.requests)
    && (res.err.None? ==> !d.Reject? && writes == ClusterWrites(d) && res.ref == Some(d.key))
    && (res.err.Some? ==> res.ref == w.requests[rk].spec.cluster)
    && (d.Reject? ==> res.err == Some(d.reason))
    && (faultFree ==> d != Reject(ApiFault))
    && (faultFree && !d.Reject? ==> (res.err.None? <==> Accepted(w, rk, d)))
  }

  /** A pass that ends without a decision, or with the reason why there is none. */
  lemma RejectedOutcome(env: Environment, w: World, rk: Key, reason: Reason, faultFree: bool)
    requires rk in w.requests
    requires if reason.ApiFault? then !faultFree else Decides(env, w, rk, Reject(reason))
    ensures Outcome(env, w, w, rk, Reject(reason), 0, PassResult(w.requests[rk].spec.cluster, Some(reason)), faultFree)
  {
    hide Decides;
  }

  /** A pass that keeps the referenced cluster, after the given number of writes. */
  lemma KeptOutcome(env: Environment, w: World, rk: Key, k: Key, writes: nat, ok: bool, after: World, faultFree: bool)
    requires rk in w.requests && k in w.clusters && w.requests[rk].spec.cluster == Some(k)
    requires writes <= 2 && (ok ==> writes == 2) && (writes > 0 ==> Accepted(w, rk, Keep(k)))
    requires after == World(AfterClusterWrites(w, rk, Keep(k), writes), w.requests)
    requires faultFree ==> (ok <==> Accepted(w, rk, Keep(k)))
    ensures Outcome(env, w, after, rk, Keep(k), writes, PassResult(Some(k), if ok then None else Some(ApiFault)), faultFree)
  {
    assert Decides(env, w, rk, Keep(k));
  }

  /** A pass that writes one cluster, or fails to. */
  lemma WrittenOutcome(env: Environment, w: World, rk: Key, d: Decision, ok: bool, after: World, faultFree: bool)
    requires rk in w.requests && Decides(env, w, rk, d) && (d.Join? || d.Create? || d.TakeOver?)
    requires d.Join? ==> d.key in w.clusters
    requires after == World(AfterClusterWrites(w, rk, d, if ok then 1 else 0), w.requests)
    requires (ok ==> Accepted(w, rk, d)) && (faultFree ==> (ok <==> Accepted(w, rk, d)))
    ensures
      var res := if ok then PassResult(Some(d.key), None) else PassResult(w.requests[rk].spec.cluster, Some(ApiFault));
      Outcome(env, w, after, rk, d, if ok then 1 else 0, res, faultFree)
  {
    hide Decides, Accepted;
  }

  /** A pass that finds the cluster that the status had referred to. */
  lemma RecoveredOutcome(env: Environment, w: World, rk: Key, k: Key, faultFree: bool)
    requires rk in w.requests && Decides(env, w, rk, Recover(k))
    ensures Outcome(env, w, w, rk, Recover(k), 0, PassResult(Some(k), None), faultFree)
  {
    hide Decides;
  }

  function WithStatus(requests: map<Key, ClusterRequest>, rk: Key, ref: Option<Key>): map<Key, ClusterRequest>
    requires rk in requests
  {
    var r := requests[rk];
    requests[rk := r.(spec := r.spec.(cluster := ref))]
  }

  // ---------- releasing the clusters of a deleted request ----------

  /** The cluster has the request's finalizer and is found by the deletion handler. */
  predicate HeldBy(env: Environment, c: Cluster, uid: string) {
    Matches(env.config.clusterSelector, c.labels) && FinalizerForCluster(uid) in c.finalizers
  }

  /** Without this request the cluster has no requests left and is to be deleted then. */
  predicate DeletedWithout(c: Cluster, uid: string) {
    TenancyCount(WithoutRequest(c, uid)) == 0 && HasLabel(c.labels, DELETE_WITHOUT_REQUESTS_LABEL, "true")
  }

  /** A cluster after its finalizer patch and its delete call, each of which may have failed. */
  function ReleaseResult(c: Cluster, uid: string, patched: bool, deleted: bool): Option<Cluster> {
    var c' := if patched then WithoutRequest(c, uid) else c;
    if c'.finalizers == [] && (c'.deleting || deleted) then None
    else Some(c'.(deleting := c.deleting || deleted))
  }

  /** What a held cluster may have become. The delete call is made even if the patch failed. */
  ghost predicate ReleasedTo(c: Cluster, uid: string, after: Option<Cluster>, clean: bool) {
    exists patched: bool, deleted: bool ::
      && after == ReleaseResult(c, uid, patched, deleted)
      && (deleted ==> DeletedWithout(c, uid))
      && (clean ==> patched && (DeletedWithout(c, uid) ==> deleted))
  }

  /** The end of a deletion pass over the clusters. `clean` says that every call succeeded. */
  ghost predicate ClustersReleased(env: Environment, before: map<Key, Cluster>, after: map<Key, Cluster>, uid: string, clean: bool) {
    forall k ::
      if k in before && HeldBy(env, before[k], uid) then ReleasedTo(before[k], uid, At(after, k), clean)
      else At(after, k) == At(before, k)
  }

  /** How a pass over a deleted request may end. Its own finalizer goes only if all clusters were released. */
  ghost predicate ReleaseOutcome(env: Environment, w: World, after: World, rk: Key, clean: bool, finalized: bool)
  {
    && rk in w.requests
    && var r := w.requests[rk];
    && ClustersReleased(env, w.clusters, after.clusters, r.spec.uid, clean)
    && (finalized ==> clean)
    && after.requests ==
       if finalized then Stored(w.requests, rk, r.(finalizers := RemoveFinalizer(r.finalizers, REQUEST_FINALIZER)))
       else w.requests
  }
}
