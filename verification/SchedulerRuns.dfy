/** Runs of the platform cluster: passes of the scheduler interleaved with everything users and other
    controllers do to requests and clusters. */
module SchedulerRuns {
  import opened Kube
  import opened LabelSelectors
  import opened SchedulerConfiguration
  import opened SchedulerModel

  const OPERATION_ANNOTATION := "openmcp.cloud/operation"
  const OPERATION_IGNORE := "ignore"
  const OPERATION_RECONCILE := "reconcile"

  /** The request is annotated to be left alone. */
  predicate Ignored(r: ClusterRequest) {
    HasLabel(r.annotations, OPERATION_ANNOTATION, OPERATION_IGNORE)
  }

  /** The request is annotated to be reconciled. */
  predicate Triggered(r: ClusterRequest) {
    HasLabel(r.annotations, OPERATION_ANNOTATION, OPERATION_RECONCILE)
  }

  datatype Event =
    // the scheduler
    | Schedule(request: Key, decision: Decision, writes: nat, result: PassResult, recorded: bool, faultFree: bool)
    | Release(request: Key, clean: bool, finalized: bool)
    | ClearOperation(request: Key)
    // everybody else
    | CreateRequest(request: Key, data: ClusterRequest)
    | DeleteRequest(request: Key)
    | LoseStatus(request: Key)
    | ChangeRequest(request: Key, data: ClusterRequest)
    | CreateCluster(cluster: Key, state: Cluster)
    | DeleteCluster(cluster: Key)
    | ChangeCluster(cluster: Key, state: Cluster)

  /** The state after a scheduling pass. `recorded` says that the status was written. */
  function AfterSchedule(w: World, rk: Key, d: Decision, writes: nat, res: PassResult, recorded: bool): World
    requires rk in w.requests && (d.Keep? || d.Join? ==> d.key in w.clusters)
  {
    var marked := Marked(w, rk);
    World(AfterClusterWrites(marked, rk, d, writes),
          if recorded then WithStatus(marked.requests, rk, res.ref) else marked.requests)
  }

  /** What others may do to a cluster: anything that leaves the request finalizers, the spec and the
      verdicts of the configured selectors alone. */
  ghost predicate HarmlessChange(config: Config, before: Cluster, after: Cluster) {
    && RequestUIDs(after) == RequestUIDs(before)
    && after.deleting == before.deleting
    && after.spec == before.spec
    && (Matches(config.clusterSelector, after.labels) <==> Matches(config.clusterSelector, before.labels))
    && forall p :: p in config.purposeMappings ==>
         var selector := config.purposeMappings[p].selector;
         Matches(selector, after.labels) <==> Matches(selector, before.labels)
  }

  ghost predicate Next(env: Environment, w: World, e: Event, w': World) {
    match e
    case Schedule(rk, d, writes, res, recorded, faultFree) =>
      && rk in w.requests && !w.requests[rk].deleting
      && (d.Keep? || d.Join? ==> d.key in w.clusters)
      && Outcome(env, Marked(w, rk), AfterSchedule(w, rk, d, writes, res, false), rk, d, writes, res, faultFree)
      && (faultFree ==> recorded)
      && w' == AfterSchedule(w, rk, d, writes, res, recorded)
    case Release(rk, clean, finalized) =>
      && rk in w.requests && w.requests[rk].deleting
      && ReleaseOutcome(env, w, w', rk, clean, finalized)
    case ClearOperation(rk) =>
      && rk in w.requests
      && w' == w.(requests := w.requests[rk := w.requests[rk].(annotations := w.requests[rk].annotations - {OPERATION_ANNOTATION})])
    case CreateRequest(rk, r) =>
      && rk !in w.requests && !r.deleting && r.spec.cluster == None
      && (forall x :: x in w.requests ==> w.requests[x].spec.uid != r.spec.uid)
      && w' == w.(requests := w.requests[rk := r])
    case DeleteRequest(rk) =>
      w' == w.(requests := Deleted(w.requests, rk))
    case LoseStatus(rk) =>
      rk in w.requests && w' == w.(requests := WithStatus(w.requests, rk, None))
    case ChangeRequest(rk, r) =>
      && rk in w.requests
      && r.spec == w.requests[rk].spec && r.deleting == w.requests[rk].deleting
      && (REQUEST_FINALIZER in r.finalizers <==> REQUEST_FINALIZER in w.requests[rk].finalizers)
      && w' == w.(requests := Stored(w.requests, rk, r))
    case CreateCluster(k, c) =>
      && k !in w.clusters && RequestUIDs(c) == {} && UniformLimit(env.config, c)
      && w' == w.(clusters := w.clusters[k := c])
    case DeleteCluster(k) =>
      w' == w.(clusters := Deleted(w.clusters, k))
    case ChangeCluster(k, c) =>
      && k in w.clusters && HarmlessChange(env.config, w.clusters[k], c)
      && w' == w.(clusters := Stored(w.clusters, k, c))
  }

  // ---------- how many requests a cluster may carry ----------

  /** The number of requests a cluster of this definition may carry, if there is a limit. */
  function Limit(d: Definition): Option<nat> {
    if d.template.spec.tenancy == Exclusive then Some(1)
    else if d.tenancyCount > 0 then Some(d.tenancyCount)
    else None
  }

  /** All purposes of the cluster that are configured have the same limit. */
  predicate UniformLimit(config: Config, c: Cluster) {
    forall p, q :: p in c.spec.purposes && q in c.spec.purposes && p in config.purposeMappings && q in config.purposeMappings ==>
      Limit(config.purposeMappings[p]) == Limit(config.purposeMappings[q])
  }

  predicate WithinLimit(config: Config, c: Cluster) {
    forall p :: p in c.spec.purposes && p in config.purposeMappings ==>
      var limit := Limit(config.purposeMappings[p]);
      limit.Some? ==> TenancyCount(c) <= limit.value
  }

  // ---------- a validated and completed configuration ----------

  /** The selector gives the same verdict whatever the scheduler itself adds to a cluster's labels. */
  predicate IgnoresAddedLabels(s: LabelSelector) {
    && (forall k :: k in s.matchLabels ==> k != DELETE_WITHOUT_REQUESTS_LABEL && !HasPrefix(k, METADATA_PREFIX))
    && (forall r :: r in s.matchExpressions ==> r.key != DELETE_WITHOUT_REQUESTS_LABEL && !HasPrefix(r.key, METADATA_PREFIX))
  }

  /** Wherever the selector excludes labels or values, the given labels set a value. */
  predicate ExclusionsDecided(s: LabelSelector, labels: Labels) {
    forall r :: r in s.matchExpressions && r.operator in [NotIn, DoesNotExist] ==> r.key in labels
  }

  /** A cluster that is taken over keeps its labels underneath those of the template. The result is
      selected whatever labels it had before exactly if the template decides all exclusions. */
  lemma TakenOverIsSelectedIff(s: LabelSelector, labels: Labels)
    requires Valid(s) && Matches(s, labels)
    ensures ExclusionsDecided(s, labels) <==> forall earlier: Labels :: Matches(s, earlier + labels)
  {
    if ExclusionsDecided(s, labels) {
      forall earlier: Labels ensures Matches(s, earlier + labels) {
        MergedLabelsSelected(s, labels, earlier);
      }
    } else {
      var r :| r in s.matchExpressions && r.operator in [NotIn, DoesNotExist] && r.key !in labels;
      assert ValidRequirement(r);
      var earlier: Labels := map[r.key := if r.operator == NotIn then r.values[0] else ""];
      assert r.key in earlier + labels && (earlier + labels)[r.key] == earlier[r.key];
      assert !RequirementMatches(r, earlier + labels);
      assert !Matches(s, earlier + labels);
    }
  }

  lemma MergedLabelsSelected(s: LabelSelector, labels: Labels, earlier: Labels)
    requires Matches(s, labels) && ExclusionsDecided(s, labels)
    ensures Matches(s, earlier + labels)
  {
    forall r | r in s.matchExpressions ensures RequirementMatches(r, earlier + labels) {
      assert RequirementMatches(r, labels);
    }
  }

  /** What validation and completion establish for every definition, and what is asked of the
      configuration beyond that: selectors do not look at labels the scheduler adds, templates decide
      the exclusions of their selector, and their purposes lead to definitions with the same limit. */
  ghost predicate Sound(config: Config) {
    && IgnoresAddedLabels(config.clusterSelector)
    && forall p :: p in config.purposeMappings ==>
         var d := config.purposeMappings[p];
         && d.tenancyCount >= 0
         && d.template.spec.tenancy in {Exclusive, Shared}
         && Matches(d.selector, d.template.labels)
         && (forall labels :: Matches(d.selector, labels) ==> Matches(config.clusterSelector, labels))
         && IgnoresAddedLabels(d.selector)
         && ExclusionsDecided(d.selector, d.template.labels)
         && forall q :: q in d.template.spec.purposes && q in config.purposeMappings ==> Limit(config.purposeMappings[q]) == Limit(d)
  }

  /** Validation and completion give a sound configuration, up to the additional demands. */
  lemma ValidatedConfigIsSound(scope: Scope, strategy: Strategy, global: LabelSelector, requests: LabelSelector,
                               written: map<string, Option<Definition>>, config: Config)
    requires GeneralErrors(scope, strategy, global, requests) + MappingErrors(written, global) == {}
    requires config.clusterSelector == global && config.purposeMappings.Keys == written.Keys
    requires forall p :: p in written && written[p].Some? ==>
               config.purposeMappings[p] == CompletedDefinition(written[p].value, global)
    requires IgnoresAddedLabels(global)
    requires forall p :: p in written && written[p].Some? ==>
               && IgnoresAddedLabels(written[p].value.selector)
               && ExclusionsDecided(CompletedDefinition(written[p].value, global).selector, written[p].value.template.labels)
               && forall q :: q in written[p].value.template.spec.purposes && q in written && written[q].Some? ==>
                    Limit(written[q].value) == Limit(written[p].value)
    ensures Sound(config)
  {
    hide CompletedDefinition, IgnoresAddedLabels, ExclusionsDecided, Limit, SoundDefinition, Matches;
    ValidIffSound(scope, strategy, global, requests, written);
    forall p | p in config.purposeMappings
      ensures CompletedAsSound(written[p].value, config.purposeMappings[p], global)
    {
      CompletionIsSound(written[p].value, global);
    }
  }

  /** What validation and completion make of one definition. */
  ghost predicate CompletedAsSound(d: Definition, completed: Definition, global: LabelSelector) {
    && completed.tenancyCount >= 0 && completed.template.spec.tenancy in {Exclusive, Shared}
    && Matches(completed.selector, completed.template.labels)
    && (forall labels :: Matches(completed.selector, labels) ==> Matches(global, labels))
    && IgnoresAddedLabels(completed.selector)
    && completed.template == d.template && Limit(completed) == Limit(d)
  }

  lemma CompletionIsSound(d: Definition, global: LabelSelector)
    requires SoundDefinition(d, global) && IgnoresAddedLabels(d.selector) && IgnoresAddedLabels(global)
    ensures CompletedAsSound(d, CompletedDefinition(d, global), global)
  {
    CompletedDefinitionFindsItsTemplate(d, global);
  }

  /** A cluster created for a request is found again when clusters for the request's definition are listed. */
  lemma NewClusterIsRelevant(env: Environment, rk: Key, r: ClusterRequest, k: Key)
    requires Sound(env.config) && r.spec.purpose in env.config.purposeMappings
    requires k.namespace == ChooseNamespace(rk, env.config.purposeMappings[r.spec.purpose], None)
    ensures Relevant(env.config, r.spec.purpose, rk.namespace, k, NewCluster(r, env.config.purposeMappings[r.spec.purpose]))
  {
    var d := env.config.purposeMappings[r.spec.purpose];
    var labels := NewCluster(r, d).labels;
    assert Matches(d.selector, d.template.labels);
    forall x | x != DELETE_WITHOUT_REQUESTS_LABEL && !HasPrefix(x, METADATA_PREFIX)
      ensures x in labels <==> x in d.template.labels
      ensures x in labels ==> labels[x] == d.template.labels[x]
    {
    }
    SameVerdict(d.selector, d.template.labels, labels);
  }

  lemma TakenOverIsRelevant(env: Environment, rk: Key, r: ClusterRequest, k: Key, existing: Cluster, c: Cluster)
    requires Sound(env.config) && r.spec.purpose in env.config.purposeMappings
    requires k.namespace == ChooseNamespace(rk, env.config.purposeMappings[r.spec.purpose], None)
    requires c.labels == existing.labels + NewCluster(r, env.config.purposeMappings[r.spec.purpose]).labels
    requires c.spec == NewCluster(r, env.config.purposeMappings[r.spec.purpose]).spec
    ensures Relevant(env.config, r.spec.purpose, rk.namespace, k, c)
  {
    var d := env.config.purposeMappings[r.spec.purpose];
    NewClusterIsRelevant(env, rk, r, k);
    MergedLabelsSelected(d.selector, NewCluster(r, d).labels, existing.labels);
  }

  lemma SameVerdict(s: LabelSelector, a: Labels, b: Labels)
    requires IgnoresAddedLabels(s)
    requires forall k :: k != DELETE_WITHOUT_REQUESTS_LABEL && !HasPrefix(k, METADATA_PREFIX) ==>
               (k in a <==> k in b) && (k in a ==> a[k] == b[k])
    ensures Matches(s, a) <==> Matches(s, b)
  {
    forall r | r in s.matchExpressions ensures RequirementMatches(r, a) <==> RequirementMatches(r, b) {
    }
  }
}
