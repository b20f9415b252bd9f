/** What holds in every reachable state of the platform cluster: the tenancy limits, the uniqueness and
    recoverability of assignments, and reference-counted deletion. */
module SchedulerSafety {
  import opened Kube
  import opened LabelSelectors
  import opened SchedulerConfiguration
  import opened SchedulerModel
  import opened SchedulerRuns

  // ---------- the invariant ----------

  ghost predicate HasOwner(w: World, uid: string) {
    exists rk :: rk in w.requests && w.requests[rk].spec.uid == uid
  }

  ghost predicate DistinctUIDs(w: World) {
    forall a, b :: a in w.requests && b in w.requests && w.requests[a].spec.uid == w.requests[b].spec.uid ==> a == b
  }

  /** Every request finalizer on a cluster belongs to an existing request. */
  ghost predicate Owned(w: World) {
    forall k, u :: k in w.clusters && u in RequestUIDs(w.clusters[k]) ==> HasOwner(w, u)
  }

  /** A cluster with a request's finalizer is one that the scheduler finds for the request, and the
      request cannot vanish without the scheduler. */
  ghost predicate Findable(env: Environment, w: World) {
    forall k, rk :: k in w.clusters && rk in w.requests && w.requests[rk].spec.uid in RequestUIDs(w.clusters[k]) ==>
      REQUEST_FINALIZER in w.requests[rk].finalizers && RelevantFor(env, w, rk, k)
  }

  /** No request has its finalizer on two clusters. */
  ghost predicate AtMostOneCluster(w: World) {
    forall a, b, u ::
      a in w.clusters && b in w.clusters && u in RequestUIDs(w.clusters[a]) && u in RequestUIDs(w.clusters[b]) ==> a == b
  }

  /** A reference in the status of a live request points to a cluster with the request's finalizer. */
  ghost predicate Backed(w: World) {
    forall rk :: rk in w.requests && !w.requests[rk].deleting && w.requests[rk].spec.cluster.Some? ==>
      var k := w.requests[rk].spec.cluster.value;
      k in w.clusters && w.requests[rk].spec.uid in RequestUIDs(w.clusters[k])
  }

  ghost predicate WithinLimits(env: Environment, w: World) {
    forall k :: k in w.clusters ==> UniformLimit(env.config, w.clusters[k]) && WithinLimit(env.config, w.clusters[k])
  }

  ghost predicate Inv(env: Environment, w: World) {
    DistinctUIDs(w) && Owned(w) && Findable(env, w) && AtMostOneCluster(w) && Backed(w) && WithinLimits(env, w)
  }

  // ---------- putting a request on a cluster ----------

  /** Request `rk`, which no cluster carries, is put on cluster `k`, which thereby becomes `c`. */
  ghost predicate Assigns(env: Environment, w: World, rk: Key, k: Key, c: Cluster) {
    && rk in w.requests && REQUEST_FINALIZER in w.requests[rk].finalizers
    && (forall x :: x in w.clusters ==> w.requests[rk].spec.uid !in RequestUIDs(w.clusters[x]))
    && RequestUIDs(c) == CarriedBy(w, k) + {w.requests[rk].spec.uid}
    && Relevant(env.config, w.requests[rk].spec.purpose, rk.namespace, k, c)
    && (forall x :: x in w.requests && w.requests[x].spec.uid in CarriedBy(w, k) ==>
          Relevant(env.config, w.requests[x].spec.purpose, x.namespace, k, c))
    && UniformLimit(env.config, c) && WithinLimit(env.config, c)
  }

  function CarriedBy(w: World, k: Key): set<string> {
    if k in w.clusters then RequestUIDs(w.clusters[k]) else {}
  }

  lemma AssignKeepsOwned(env: Environment, w: World, rk: Key, k: Key, c: Cluster, w': World)
    requires Owned(w) && Assigns(env, w, rk, k, c) && w' == w.(clusters := w.clusters[k := c])
    ensures Owned(w')
  {
    forall x, v | x in w'.clusters && v in RequestUIDs(w'.clusters[x]) ensures HasOwner(w', v) {
      if v != w.requests[rk].spec.uid {
        assert x in w.clusters && v in RequestUIDs(w.clusters[x]);
        assert HasOwner(w, v);
      }
    }
  }

  lemma AssignKeepsFindable(env: Environment, w: World, rk: Key, k: Key, c: Cluster, w': World)
    requires DistinctUIDs(w) && Findable(env, w) && Assigns(env, w, rk, k, c) && w' == w.(clusters := w.clusters[k := c])
    ensures Findable(env, w')
  {
    forall x, y | x in w'.clusters && y in w'.requests && w'.requests[y].spec.uid in RequestUIDs(w'.clusters[x])
      ensures REQUEST_FINALIZER in w'.requests[y].finalizers && RelevantFor(env, w', y, x)
    {
      if x == k {
        assert y == rk || w.requests[y].spec.uid in CarriedBy(w, k);
      } else {
        assert RelevantFor(env, w, y, x);
      }
    }
  }

  lemma AssignKeepsInv(env: Environment, w: World, rk: Key, k: Key, c: Cluster, w': World)
    requires Inv(env, w) && Assigns(env, w, rk, k, c) && w' == w.(clusters := w.clusters[k := c])
    ensures Inv(env, w')
  {
    hide Owned, Findable;
    AssignKeepsOwned(env, w, rk, k, c, w');
    AssignKeepsFindable(env, w, rk, k, c, w');
  }

  // ---------- changes that leave the request finalizers alone ----------

  lemma ChangeKeepsFindable(env: Environment, w: World, k: Key, c: Cluster, w': World)
    requires Findable(env, w) && k in w.clusters && HarmlessChange(env.config, w.clusters[k], c)
    requires w' == w.(clusters := w.clusters[k := c])
    ensures Findable(env, w')
  {
    forall x, y | x in w'.clusters && y in w'.requests && w'.requests[y].spec.uid in RequestUIDs(w'.clusters[x])
      ensures REQUEST_FINALIZER in w'.requests[y].finalizers && RelevantFor(env, w', y, x)
    {
      assert w.requests[y].spec.uid in RequestUIDs(w.clusters[x]);
      assert RelevantFor(env, w, y, x);
    }
  }

  lemma ChangeKeepsOwned(env: Environment, w: World, k: Key, c: Cluster, w': World)
    requires Owned(w) && k in w.clusters && HarmlessChange(env.config, w.clusters[k], c)
    requires w' == w.(clusters := w.clusters[k := c])
    ensures Owned(w')
  {
    forall x, v | x in w'.clusters && v in RequestUIDs(w'.clusters[x]) ensures HasOwner(w', v) {
      assert v in RequestUIDs(w.clusters[x]);
      assert HasOwner(w, v);
    }
  }

  lemma ChangeKeepsInv(env: Environment, w: World, k: Key, c: Cluster, w': World)
    requires Inv(env, w) && k in w.clusters && HarmlessChange(env.config, w.clusters[k], c)
    requires w' == w.(clusters := w.clusters[k := c])
    ensures Inv(env, w')
  {
    ChangeKeepsOwned(env, w, k, c, w');
    ChangeKeepsFindable(env, w, k, c, w');
  }

  lemma MetadataIsHarmless(config: Config, c: Cluster, r: ClusterRequest)
    requires Sound(config)
    ensures HarmlessChange(config, c, WithMetadata(c, r))
  {
    var c' := WithMetadata(c, r);
    SameVerdict(config.clusterSelector, c.labels, c'.labels);
    forall p | p in config.purposeMappings
      ensures Matches(config.purposeMappings[p].selector, c'.labels) <==> Matches(config.purposeMappings[p].selector, c.labels)
    {
      SameVerdict(config.purposeMappings[p].selector, c.labels, c'.labels);
    }
  }

  // ---------- the decisions of the scheduler ----------

  /** A request for which no cluster is found is on no cluster. */
  lemma NotFoundIsNotCarried(env: Environment, w: World, rk: Key, k: Key)
    requires Findable(env, w) && rk in w.requests && k in w.clusters
    requires !HoldsRequest(env, w, rk, k)
    ensures w.requests[rk].spec.uid !in RequestUIDs(w.clusters[k])
  {
    UIDIn(w.clusters[k], w.requests[rk].spec.uid);
  }

  /** Whoever has to be placed or joined has no cluster yet. */
  lemma UnplacedIsNotCarried(env: Environment, w: World, rk: Key, d: Decision)
    requires Inv(env, w) && rk in w.requests && !w.requests[rk].deleting
    requires Decides(env, w, rk, d) && (d.Join? || d.Create? || d.TakeOver?)
    ensures w.requests[rk].spec.cluster == None
    ensures w.requests[rk].spec.purpose in env.config.purposeMappings
    ensures forall x :: x in w.clusters ==> w.requests[rk].spec.uid !in RequestUIDs(w.clusters[x])
    ensures d.Join? ==> Selects(env, w, rk, d) && env.config.purposeMappings[w.requests[rk].spec.purpose].template.spec.tenancy == Shared
    ensures !d.Join? ==> Places(env, w, rk, d)
  {
    forall x | x in w.clusters ensures w.requests[rk].spec.uid !in RequestUIDs(w.clusters[x]) {
      NotFoundIsNotCarried(env, w, rk, x);
    }
  }

  lemma KeepIsReferred(env: Environment, w: World, rk: Key, d: Decision)
    requires rk in w.requests && Decides(env, w, rk, d) && d.Keep?
    ensures w.requests[rk].spec.cluster == Some(d.key)
  {
  }

  lemma KeepKeepsInv(env: Environment, w: World, rk: Key, d: Decision, writes: nat, w': World)
    requires Sound(env.config) && Inv(env, w) && rk in w.requests && !w.requests[rk].deleting
    requires Decides(env, w, rk, d) && d.Keep? && d.key in w.clusters
    requires w' == w.(clusters := AfterClusterWrites(w, rk, d, writes))
    ensures Inv(env, w')
  {
    hide Sound, Decides;
    var r, c := w.requests[rk], w.clusters[d.key];
    KeepIsReferred(env, w, rk, d);
    UIDIn(c, r.spec.uid);
    assert WithRequest(c, r.spec.uid) == c;
    if writes >= 2 {
      MetadataIsHarmless(env.config, c, r);
      ChangeKeepsInv(env, w, d.key, WithMetadata(c, r), w');
    } else {
      assert w' == w;
    }
  }

  lemma JoinKeepsInv(env: Environment, w: World, rk: Key, d: Decision, w': World)
    requires Sound(env.config) && Inv(env, w) && rk in w.requests && !w.requests[rk].deleting
    requires REQUEST_FINALIZER in w.requests[rk].finalizers
    requires Decides(env, w, rk, d) && d.Join? && d.key in w.clusters
    requires w' == w.(clusters := AfterClusterWrites(w, rk, d, 1))
    ensures Inv(env, w')
  {
    UnplacedIsNotCarried(env, w, rk, d);
    var c' := WithRequest(w.clusters[d.key], w.requests[rk].spec.uid);
    UIDsWith(w.clusters[d.key], w.requests[rk].spec.uid);
    JoinWithinLimits(env, w, rk, d);
    JoinKeepsRelevance(env, w, rk, d.key);
    AssignKeepsInv(env, w, rk, d.key, c', w');
  }

  lemma JoinKeepsRelevance(env: Environment, w: World, rk: Key, k: Key)
    requires Findable(env, w) && rk in w.requests && RelevantFor(env, w, rk, k)
    ensures Relevant(env.config, w.requests[rk].spec.purpose, rk.namespace, k, WithRequest(w.clusters[k], w.requests[rk].spec.uid))
    ensures forall x :: x in w.requests && w.requests[x].spec.uid in CarriedBy(w, k) ==>
              Relevant(env.config, w.requests[x].spec.purpose, x.namespace, k, WithRequest(w.clusters[k], w.requests[rk].spec.uid))
  {
    forall x | x in w.requests && w.requests[x].spec.uid in CarriedBy(w, k)
      ensures Relevant(env.config, w.requests[x].spec.purpose, x.namespace, k, WithRequest(w.clusters[k], w.requests[rk].spec.uid))
    {
      assert RelevantFor(env, w, x, k);
    }
  }

  lemma JoinWithinLimits(env: Environment, w: World, rk: Key, d: Decision)
    requires rk in w.requests && d.Join? && Candidate(env, w, rk, d.key)
    requires w.requests[rk].spec.purpose in env.config.purposeMappings
    requires env.config.purposeMappings[w.requests[rk].spec.purpose].template.spec.tenancy == Shared
    requires WithinLimits(env, w)
    requires w.requests[rk].spec.uid !in RequestUIDs(w.clusters[d.key])
    ensures UniformLimit(env.config, WithRequest(w.clusters[d.key], w.requests[rk].spec.uid))
    ensures WithinLimit(env.config, WithRequest(w.clusters[d.key], w.requests[rk].spec.uid))
  {
    var r, c := w.requests[rk], w.clusters[d.key];
    var c' := WithRequest(c, r.spec.uid);
    UIDsWith(c, r.spec.uid);
    assert UniformLimit(env.config, c);
    assert TenancyCount(c') == TenancyCount(c) + 1;
  }

  lemma NewClusterWithinLimits(env: Environment, r: ClusterRequest, c: Cluster)
    requires Sound(env.config) && r.spec.purpose in env.config.purposeMappings
    requires c.spec == NewCluster(r, env.config.purposeMappings[r.spec.purpose]).spec
    requires RequestUIDs(c) == {r.spec.uid}
    ensures UniformLimit(env.config, c) && WithinLimit(env.config, c)
  {
    var d := env.config.purposeMappings[r.spec.purpose];
    forall p | p in c.spec.purposes && p in env.config.purposeMappings
      ensures Limit(env.config.purposeMappings[p]) == Limit(d)
    {
    }
  }

  lemma CreateKeepsInv(env: Environment, w: World, rk: Key, d: Decision, w': World)
    requires Sound(env.config) && Inv(env, w) && rk in w.requests && !w.requests[rk].deleting
    requires REQUEST_FINALIZER in w.requests[rk].finalizers
    requires Decides(env, w, rk, d) && d.Create?
    requires w' == w.(clusters := AfterClusterWrites(w, rk, d, 1))
    ensures Inv(env, w') && d.key !in w.clusters
  {
    hide Sound;
    UnplacedIsNotCarried(env, w, rk, d);
    var r := w.requests[rk];
    assert d.key !in w.clusters && d.cluster == NewCluster(r, env.config.purposeMappings[r.spec.purpose]);
    OnlyRequest(d.cluster, r.spec.uid);
    NewClusterIsRelevant(env, rk, r, d.key);
    NewClusterWithinLimits(env, r, d.cluster);
    AssignKeepsInv(env, w, rk, d.key, d.cluster, w');
  }

  lemma OnlyRequest(c: Cluster, uid: string)
    requires FinalizerForCluster(uid) in c.finalizers
    requires forall f :: f in c.finalizers && HasPrefix(f, REQUEST_FINALIZER_PREFIX) ==> f == FinalizerForCluster(uid)
    ensures RequestUIDs(c) == {uid}
  {
    forall v ensures v in RequestUIDs(c) <==> v == uid {
      UIDIn(c, v);
      PrefixInjective(REQUEST_FINALIZER_PREFIX, v, uid);
    }
  }

  /** Without the own finalizer and without any foreign one there is no request finalizer at all. */
  lemma {:induction false} NoForeign(fins: seq<string>, own: string)
    requires own !in fins
    ensures FirstForeign(fins, own).None? <==> forall f :: f in fins ==> !HasPrefix(f, REQUEST_FINALIZER_PREFIX)
    ensures FirstForeign(fins, own).Some? ==> FirstForeign(fins, own).value in fins
    ensures FirstForeign(fins, own).Some? ==> HasPrefix(FirstForeign(fins, own).value, REQUEST_FINALIZER_PREFIX)
  {
    if fins != [] && !HasPrefix(fins[0], REQUEST_FINALIZER_PREFIX) {
      NoForeign(fins[1..], own);
      assert fins == [fins[0]] + fins[1..];
    }
  }

  lemma RequestFinalizerIsLive(w: World, k: Key, f: string)
    requires Owned(w) && k in w.clusters && f in w.clusters[k].finalizers && HasPrefix(f, REQUEST_FINALIZER_PREFIX)
    ensures f in LiveFinalizers(w)
  {
    var u := f[|REQUEST_FINALIZER_PREFIX|..];
    assert u in RequestUIDs(w.clusters[k]);
    assert HasOwner(w, u);
    var owner :| owner in w.requests && w.requests[owner].spec.uid == u;
    assert FinalizerForCluster(u) == f;
  }

  /** In a reachable state only clusters without requests are taken over. */
  lemma TakenOverHasNoRequests(env: Environment, w: World, rk: Key, d: Decision)
    requires Inv(env, w) && rk in w.requests && !w.requests[rk].deleting
    requires Decides(env, w, rk, d) && d.TakeOver?
    ensures d.key in w.clusters && RequestUIDs(w.clusters[d.key]) == {}
    ensures RequestUIDs(d.cluster) == {w.requests[rk].spec.uid}
  {
    UnplacedIsNotCarried(env, w, rk, d);
    var r, c := w.requests[rk], w.clusters[d.key];
    var own := FinalizerForCluster(r.spec.uid);
    UIDIn(c, r.spec.uid);
    NoForeign(c.finalizers, own);
    var first := FirstForeign(c.finalizers, own);
    if first.Some? {
      RequestFinalizerIsLive(w, d.key, first.value);
    }
    OnlyRequest(d.cluster, r.spec.uid);
  }

  lemma TakeOverKeepsInv(env: Environment, w: World, rk: Key, d: Decision, w': World)
    requires Sound(env.config) && Inv(env, w) && rk in w.requests && !w.requests[rk].deleting
    requires REQUEST_FINALIZER in w.requests[rk].finalizers
    requires Decides(env, w, rk, d) && d.TakeOver?
    requires w' == w.(clusters := AfterClusterWrites(w, rk, d, 1))
    ensures Inv(env, w')
  {
    hide Sound;
    UnplacedIsNotCarried(env, w, rk, d);
    TakenOverHasNoRequests(env, w, rk, d);
    var r := w.requests[rk];
    TakenOverIsRelevant(env, rk, r, d.key, w.clusters[d.key], d.cluster);
    NewClusterWithinLimits(env, r, d.cluster);
    AssignKeepsInv(env, w, rk, d.key, d.cluster, w');
  }

  // ---------- whole scheduling passes ----------

  /** `w'` has the same clusters as `w` and the same requests, up to finalizers, labels, annotations and status. */
  ghost predicate SameRequests(w: World, w': World) {
    && w'.clusters == w.clusters && w'.requests.Keys == w.requests.Keys
    && forall x :: x in w.requests ==>
         && w'.requests[x].spec.uid == w.requests[x].spec.uid
         && w'.requests[x].spec.purpose == w.requests[x].spec.purpose
         && w'.requests[x].deleting == w.requests[x].deleting
         && (REQUEST_FINALIZER in w.requests[x].finalizers ==> REQUEST_FINALIZER in w'.requests[x].finalizers)
  }

  lemma SameRequestsKeepInv(env: Environment, w: World, w': World)
    requires Inv(env, w) && SameRequests(w, w') && Backed(w')
    ensures Inv(env, w')
  {
    forall k, u | k in w'.clusters && u in RequestUIDs(w'.clusters[k]) ensures HasOwner(w', u) {
      assert HasOwner(w, u);
      var rk :| rk in w.requests && w.requests[rk].spec.uid == u;
      assert rk in w'.requests;
    }
    forall k, rk | k in w'.clusters && rk in w'.requests && w'.requests[rk].spec.uid in RequestUIDs(w'.clusters[k])
      ensures REQUEST_FINALIZER in w'.requests[rk].finalizers && RelevantFor(env, w', rk, k)
    {
      assert RelevantFor(env, w, rk, k);
    }
  }

  lemma ClusterWritesKeepInv(env: Environment, w: World, rk: Key, d: Decision, writes: nat, w': World)
    requires Sound(env.config) && Inv(env, w) && rk in w.requests && !w.requests[rk].deleting
    requires REQUEST_FINALIZER in w.requests[rk].finalizers
    requires Decides(env, w, rk, d) && (d.Keep? || d.Join? ==> d.key in w.clusters)
    requires w' == w.(clusters := AfterClusterWrites(w, rk, d, writes))
    ensures Inv(env, w')
    ensures writes > 0 && (d.Join? || d.Create? || d.TakeOver?) ==>
              d.key in w'.clusters && w.requests[rk].spec.uid in RequestUIDs(w'.clusters[d.key])
  {
    var u := w.requests[rk].spec.uid;
    if writes == 0 || d.Reject? || d.Recover? {
      assert w' == w;
    } else if d.Keep? {
      KeepKeepsInv(env, w, rk, d, writes, w');
    } else if d.Join? {
      JoinKeepsInv(env, w, rk, d, w');
      UIDsWith(w.clusters[d.key], u);
    } else if d.Create? {
      CreateKeepsInv(env, w, rk, d, w');
      UnplacedIsNotCarried(env, w, rk, d);
      UIDIn(d.cluster, u);
    } else {
      TakeOverKeepsInv(env, w, rk, d, w');
      TakenOverHasNoRequests(env, w, rk, d);
    }
  }

  lemma MarkingKeepsInv(env: Environment, w: World, rk: Key)
    requires Inv(env, w) && rk in w.requests
    ensures Inv(env, Marked(w, rk)) && REQUEST_FINALIZER in Marked(w, rk).requests[rk].finalizers
  {
    SameRequestsKeepInv(env, w, Marked(w, rk));
  }

  lemma ScheduleKeepsInv(env: Environment, w: World, e: Event, w': World)
    requires Sound(env.config) && Inv(env, w) && e.Schedule? && Next(env, w, e, w')
    ensures Inv(env, w')
  {
    var rk, d, writes := e.request, e.decision, e.writes;
    var marked := Marked(w, rk);
    MarkingKeepsInv(env, w, rk);
    var placed := AfterSchedule(w, rk, d, writes, e.result, false);
    if d == Reject(ApiFault) {
      assert placed == marked;
    } else {
      ClusterWritesKeepInv(env, marked, rk, d, writes, placed);
    }
    if e.recorded {
      if e.result.err.None? {
        GrantedIsCarried(env, marked, rk, d, placed);
      }
      SetStatusKeepsInv(env, placed, rk, e.result.ref, w');
    }
  }

  lemma RecoveredIsCarried(env: Environment, w: World, rk: Key, d: Decision)
    requires rk in w.requests && Decides(env, w, rk, d) && d.Recover?
    ensures d.key in w.clusters && w.requests[rk].spec.uid in RequestUIDs(w.clusters[d.key])
  {
    UIDIn(w.clusters[d.key], w.requests[rk].spec.uid);
  }

  lemma KeptIsCarried(w: World, rk: Key, d: Decision, w': World)
    requires rk in w.requests && d.Keep? && d.key in w.clusters
    requires w' == w.(clusters := AfterClusterWrites(w, rk, d, 2))
    ensures d.key in w'.clusters && w.requests[rk].spec.uid in RequestUIDs(w'.clusters[d.key])
  {
    UIDIn(w'.clusters[d.key], w.requests[rk].spec.uid);
  }

  /** The cluster of a granted request carries the request. */
  lemma GrantedIsCarried(env: Environment, w: World, rk: Key, d: Decision, w': World)
    requires Sound(env.config) && Inv(env, w) && rk in w.requests && !w.requests[rk].deleting
    requires REQUEST_FINALIZER in w.requests[rk].finalizers
    requires Decides(env, w, rk, d) && !d.Reject? && (d.Keep? || d.Join? ==> d.key in w.clusters)
    requires w' == w.(clusters := AfterClusterWrites(w, rk, d, ClusterWrites(d)))
    ensures d.key in w'.clusters && w.requests[rk].spec.uid in RequestUIDs(w'.clusters[d.key])
  {
    if d.Recover? {
      RecoveredIsCarried(env, w, rk, d);
    } else if d.Keep? {
      KeptIsCarried(w, rk, d, w');
    } else {
      ClusterWritesKeepInv(env, w, rk, d, 1, w');
    }
  }

  lemma SetStatusKeepsInv(env: Environment, w: World, rk: Key, ref: Option<Key>, w': World)
    requires Inv(env, w) && rk in w.requests
    requires ref.Some? && ref != w.requests[rk].spec.cluster ==>
               ref.value in w.clusters && w.requests[rk].spec.uid in RequestUIDs(w.clusters[ref.value])
    requires w' == w.(requests := WithStatus(w.requests, rk, ref))
    ensures Inv(env, w')
  {
    SameRequestsKeepInv(env, w, w');
  }

  // ---------- releasing passes ----------

  lemma ReleasedUIDs(c: Cluster, uid: string, after: Option<Cluster>, clean: bool)
    requires ReleasedTo(c, uid, after, clean)
    ensures after.Some? ==> after.value.spec == c.spec && after.value.labels == c.labels
    ensures after.Some? ==> RequestUIDs(c) - {uid} <= RequestUIDs(after.value) <= RequestUIDs(c)
    ensures after.Some? && clean ==> uid !in RequestUIDs(after.value)
    ensures after.None? ==> RequestUIDs(c) <= {uid}
  {
    UIDsWithout(c, uid);
    var patched: bool, deleted: bool :|
      && after == ReleaseResult(c, uid, patched, deleted)
      && (deleted ==> DeletedWithout(c, uid))
      && (clean ==> patched && (DeletedWithout(c, uid) ==> deleted));
    if after.Some? {
      assert after.value.finalizers == (if patched then WithoutRequest(c, uid) else c).finalizers;
      assert RequestUIDs(after.value) == RequestUIDs(if patched then WithoutRequest(c, uid) else c);
    }
  }

  /** What a releasing pass does to the clusters, in terms of the requests they carry. */
  lemma AfterRelease(env: Environment, w: World, after: map<Key, Cluster>, uid: string, clean: bool, k: Key)
    requires ClustersReleased(env, w.clusters, after, uid, clean)
    ensures k in after ==> k in w.clusters && after[k].spec == w.clusters[k].spec && after[k].labels == w.clusters[k].labels
    ensures k in after ==> RequestUIDs(w.clusters[k]) - {uid} <= RequestUIDs(after[k]) <= RequestUIDs(w.clusters[k])
    ensures k in after && clean && Matches(env.config.clusterSelector, after[k].labels) ==> uid !in RequestUIDs(after[k])
    ensures k in w.clusters && k !in after ==> RequestUIDs(w.clusters[k]) <= {uid}
  {
    if k in w.clusters && HeldBy(env, w.clusters[k], uid) {
      ReleasedUIDs(w.clusters[k], uid, At(after, k), clean);
    } else {
      assert At(after, k) == At(w.clusters, k);
      if k in w.clusters {
        UIDIn(w.clusters[k], uid);
      }
    }
  }

  /** After a clean pass no cluster carries the request any more. */
  lemma CleanReleaseIsComplete(env: Environment, w: World, after: map<Key, Cluster>, rk: Key, k: Key)
    requires Sound(env.config) && Findable(env, w) && rk in w.requests
    requires ClustersReleased(env, w.clusters, after, w.requests[rk].spec.uid, true)
    requires k in after
    ensures w.requests[rk].spec.uid !in RequestUIDs(after[k])
  {
    var u := w.requests[rk].spec.uid;
    AfterRelease(env, w, after, u, true, k);
    if u in RequestUIDs(w.clusters[k]) {
      assert RelevantFor(env, w, rk, k);
      assert Matches(env.config.clusterSelector, w.clusters[k].labels);
    }
  }

  lemma ReleaseKeepsOwned(env: Environment, w: World, rk: Key, clean: bool, finalized: bool, w': World)
    requires Sound(env.config) && Inv(env, w) && ReleaseOutcome(env, w, w', rk, clean, finalized)
    ensures Owned(w')
  {
    var u := w.requests[rk].spec.uid;
    forall k, v | k in w'.clusters && v in RequestUIDs(w'.clusters[k]) ensures HasOwner(w', v) {
      AfterRelease(env, w, w'.clusters, u, clean, k);
      assert HasOwner(w, v);
      var owner :| owner in w.requests && w.requests[owner].spec.uid == v;
      if finalized {
        CleanReleaseIsComplete(env, w, w'.clusters, rk, k);
        assert owner != rk;
      }
      assert owner in w'.requests && w'.requests[owner].spec.uid == v;
    }
  }

  lemma ReleaseKeepsFindable(env: Environment, w: World, rk: Key, clean: bool, finalized: bool, w': World)
    requires Sound(env.config) && Inv(env, w) && ReleaseOutcome(env, w, w', rk, clean, finalized)
    ensures Findable(env, w')
  {
    var u := w.requests[rk].spec.uid;
    forall k, y | k in w'.clusters && y in w'.requests && w'.requests[y].spec.uid in RequestUIDs(w'.clusters[k])
      ensures REQUEST_FINALIZER in w'.requests[y].finalizers && RelevantFor(env, w', y, k)
    {
      AfterRelease(env, w, w'.clusters, u, clean, k);
      assert y in w.requests && w'.requests[y].spec == w.requests[y].spec;
      assert RelevantFor(env, w, y, k);
      if finalized {
        CleanReleaseIsComplete(env, w, w'.clusters, rk, k);
      }
    }
  }

  lemma FewerWithinLimits(config: Config, c: Cluster, c': Cluster)
    requires UniformLimit(config, c) && WithinLimit(config, c)
    requires c'.spec == c.spec && RequestUIDs(c') <= RequestUIDs(c)
    ensures UniformLimit(config, c') && WithinLimit(config, c')
  {
    SubsetCardinality(RequestUIDs(c'), RequestUIDs(c));
  }

  lemma SubsetCardinality<T>(a: set<T>, b: set<T>)
    requires a <= b
    ensures |a| <= |b|
  {
    assert b == a + (b - a);
  }

  lemma ReleaseKeepsInv(env: Environment, w: World, rk: Key, clean: bool, finalized: bool, w': World)
    requires Sound(env.config) && Inv(env, w) && ReleaseOutcome(env, w, w', rk, clean, finalized)
    requires w.requests[rk].deleting
    ensures Inv(env, w')
  {
    var u := w.requests[rk].spec.uid;
    forall k ensures k in w'.clusters ==>
                       k in w.clusters && RequestUIDs(w.clusters[k]) - {u} <= RequestUIDs(w'.clusters[k]) <= RequestUIDs(w.clusters[k])
                       && UniformLimit(env.config, w'.clusters[k]) && WithinLimit(env.config, w'.clusters[k])
    {
      AfterRelease(env, w, w'.clusters, u, clean, k);
      if k in w'.clusters {
        FewerWithinLimits(env.config, w.clusters[k], w'.clusters[k]);
      }
    }
    ReleaseKeepsOwned(env, w, rk, clean, finalized, w');
    ReleaseKeepsFindable(env, w, rk, clean, finalized, w');
    ReleaseKeepsBacked(env, w, rk, clean, finalized, w');
  }

  lemma ReleaseKeepsBacked(env: Environment, w: World, rk: Key, clean: bool, finalized: bool, w': World)
    requires DistinctUIDs(w) && Backed(w) && ReleaseOutcome(env, w, w', rk, clean, finalized)
    requires w.requests[rk].deleting
    ensures Backed(w')
  {
    forall y | y in w'.requests && !w'.requests[y].deleting && w'.requests[y].spec.cluster.Some?
      ensures
        var k := w'.requests[y].spec.cluster.value;
        k in w'.clusters && w'.requests[y].spec.uid in RequestUIDs(w'.clusters[k])
    {
      assert y in w.requests && w'.requests[y].spec == w.requests[y].spec && y != rk;
      AfterRelease(env, w, w'.clusters, w.requests[rk].spec.uid, clean, w'.requests[y].spec.cluster.value);
    }
  }

  // ---------- everybody else ----------

  lemma NewRequestKeepsOwned(w: World, rk: Key, r: ClusterRequest, w': World)
    requires Owned(w) && rk !in w.requests && w' == w.(requests := w.requests[rk := r])
    ensures Owned(w')
  {
    forall k, u | k in w'.clusters && u in RequestUIDs(w'.clusters[k]) ensures HasOwner(w', u) {
      assert HasOwner(w, u);
      var y :| y in w.requests && w.requests[y].spec.uid == u;
      assert y in w'.requests && w'.requests[y].spec.uid == u;
    }
  }

  lemma NewRequestKeepsFindable(env: Environment, w: World, rk: Key, r: ClusterRequest, w': World)
    requires Owned(w) && Findable(env, w) && !HasOwner(w, r.spec.uid)
    requires rk !in w.requests && w' == w.(requests := w.requests[rk := r])
    ensures Findable(env, w')
  {
    forall k, y | k in w'.clusters && y in w'.requests && w'.requests[y].spec.uid in RequestUIDs(w'.clusters[k])
      ensures REQUEST_FINALIZER in w'.requests[y].finalizers && RelevantFor(env, w', y, k)
    {
      assert HasOwner(w, w'.requests[y].spec.uid);
      assert y in w.requests;
      assert RelevantFor(env, w, y, k);
    }
  }

  lemma CreateRequestKeepsInv(env: Environment, w: World, rk: Key, r: ClusterRequest, w': World)
    requires Inv(env, w) && rk !in w.requests && r.spec.cluster == None && !HasOwner(w, r.spec.uid)
    requires w' == w.(requests := w.requests[rk := r])
    ensures Inv(env, w')
  {
    NewRequestKeepsOwned(w, rk, r, w');
    NewRequestKeepsFindable(env, w, rk, r, w');
  }

  lemma RequestGoneKeepsOwned(env: Environment, w: World, rk: Key, w': World)
    requires Owned(w) && Findable(env, w) && rk in w.requests && REQUEST_FINALIZER !in w.requests[rk].finalizers
    requires w' == w.(requests := w.requests - {rk})
    ensures Owned(w')
  {
    forall k, u | k in w'.clusters && u in RequestUIDs(w'.clusters[k]) ensures HasOwner(w', u) {
      assert HasOwner(w, u);
      var y :| y in w.requests && w.requests[y].spec.uid == u;
      assert y != rk && y in w'.requests;
    }
  }

  lemma RequestGoneKeepsFindable(env: Environment, w: World, rk: Key, w': World)
    requires Findable(env, w) && w' == w.(requests := w.requests - {rk})
    ensures Findable(env, w')
  {
    forall k, y | k in w'.clusters && y in w'.requests && w'.requests[y].spec.uid in RequestUIDs(w'.clusters[k])
      ensures REQUEST_FINALIZER in w'.requests[y].finalizers && RelevantFor(env, w', y, k)
    {
      assert RelevantFor(env, w, y, k);
    }
  }

  /** A request that vanishes without the scheduler is on no cluster. */
  lemma RequestGoneKeepsInv(env: Environment, w: World, rk: Key, w': World)
    requires Inv(env, w) && rk in w.requests && REQUEST_FINALIZER !in w.requests[rk].finalizers
    requires w' == w.(requests := w.requests - {rk})
    ensures Inv(env, w')
  {
    RequestGoneKeepsOwned(env, w, rk, w');
    RequestGoneKeepsFindable(env, w, rk, w');
  }

  lemma ReplaceRequestKeepsOwned(w: World, rk: Key, r: ClusterRequest, w': World)
    requires Owned(w) && rk in w.requests && r.spec == w.requests[rk].spec
    requires w' == w.(requests := w.requests[rk := r])
    ensures Owned(w')
  {
    forall k, u | k in w'.clusters && u in RequestUIDs(w'.clusters[k]) ensures HasOwner(w', u) {
      assert HasOwner(w, u);
      var y :| y in w.requests && w.requests[y].spec.uid == u;
      assert y in w'.requests && w'.requests[y].spec.uid == u;
    }
  }

  lemma ReplaceRequestKeepsFindable(env: Environment, w: World, rk: Key, r: ClusterRequest, w': World)
    requires Findable(env, w) && rk in w.requests && r.spec == w.requests[rk].spec
    requires REQUEST_FINALIZER in w.requests[rk].finalizers ==> REQUEST_FINALIZER in r.finalizers
    requires w' == w.(requests := w.requests[rk := r])
    ensures Findable(env, w')
  {
    forall k, y | k in w'.clusters && y in w'.requests && w'.requests[y].spec.uid in RequestUIDs(w'.clusters[k])
      ensures REQUEST_FINALIZER in w'.requests[y].finalizers && RelevantFor(env, w', y, k)
    {
      assert RelevantFor(env, w, y, k);
    }
  }

  lemma ReplaceRequestKeepsInv(env: Environment, w: World, rk: Key, r: ClusterRequest, w': World)
    requires Inv(env, w) && rk in w.requests && r.spec == w.requests[rk].spec
    requires w.requests[rk].deleting ==> r.deleting
    requires REQUEST_FINALIZER in w.requests[rk].finalizers ==> REQUEST_FINALIZER in r.finalizers
    requires w' == w.(requests := w.requests[rk := r])
    ensures Inv(env, w')
  {
    ReplaceRequestKeepsOwned(w, rk, r, w');
    ReplaceRequestKeepsFindable(env, w, rk, r, w');
  }

  /** A cluster without requests may come or go. */
  lemma UnusedClusterKeepsInv(env: Environment, w: World, k: Key, w': World)
    requires Inv(env, w) && w'.requests == w.requests
    requires forall x :: x != k ==> At(w'.clusters, x) == At(w.clusters, x)
    requires k in w.clusters ==> RequestUIDs(w.clusters[k]) == {}
    requires k in w'.clusters ==> RequestUIDs(w'.clusters[k]) == {} && UniformLimit(env.config, w'.clusters[k])
    ensures Inv(env, w')
  {
    forall x, u | x in w'.clusters && u in RequestUIDs(w'.clusters[x]) ensures HasOwner(w', u) {
      assert At(w'.clusters, x) == At(w.clusters, x);
      assert HasOwner(w, u);
    }
    forall x, y | x in w'.clusters && y in w'.requests && w'.requests[y].spec.uid in RequestUIDs(w'.clusters[x])
      ensures REQUEST_FINALIZER in w'.requests[y].finalizers && RelevantFor(env, w', y, x)
    {
      assert At(w'.clusters, x) == At(w.clusters, x);
      assert RelevantFor(env, w, y, x);
    }
    forall x | x in w'.clusters ensures UniformLimit(env.config, w'.clusters[x]) && WithinLimit(env.config, w'.clusters[x]) {
      assert At(w'.clusters, x) == At(w.clusters, x) || RequestUIDs(w'.clusters[x]) == {};
    }
    OthersStayBacked(w, k, w');
  }

  lemma OthersStayBacked(w: World, k: Key, w': World)
    requires Backed(w) && AtMostOneCluster(w) && w'.requests == w.requests
    requires forall x :: x != k ==> At(w'.clusters, x) == At(w.clusters, x)
    requires k in w.clusters ==> RequestUIDs(w.clusters[k]) == {}
    requires k in w'.clusters ==> RequestUIDs(w'.clusters[k]) == {}
    ensures Backed(w') && AtMostOneCluster(w')
  {
    forall rk | rk in w'.requests && !w'.requests[rk].deleting && w'.requests[rk].spec.cluster.Some?
      ensures
        var c := w'.requests[rk].spec.cluster.value;
        c in w'.clusters && w'.requests[rk].spec.uid in RequestUIDs(w'.clusters[c])
    {
      var c := w.requests[rk].spec.cluster.value;
      assert c != k && At(w'.clusters, c) == At(w.clusters, c);
    }
    forall a, b, u | a in w'.clusters && b in w'.clusters && u in RequestUIDs(w'.clusters[a]) && u in RequestUIDs(w'.clusters[b])
      ensures a == b
    {
      assert At(w'.clusters, a) == At(w.clusters, a) && At(w'.clusters, b) == At(w.clusters, b);
    }
  }

  lemma NoFinalizersNoRequests(c: Cluster)
    requires c.finalizers == []
    ensures RequestUIDs(c) == {}
  {
  }

  lemma OthersKeepInv(env: Environment, w: World, e: Event, w': World)
    requires Inv(env, w) && Next(env, w, e, w') && !e.Schedule? && !e.Release?
    ensures Inv(env, w')
  {
    match e
    case ClearOperation(rk) =>
      ReplaceRequestKeepsInv(env, w, rk, w'.requests[rk], w');
    case CreateRequest(rk, r) =>
      CreateRequestKeepsInv(env, w, rk, r, w');
    case DeleteRequest(rk) =>
      if rk !in w.requests {
      } else if w.requests[rk].finalizers == [] {
        RequestGoneKeepsInv(env, w, rk, w');
      } else {
        ReplaceRequestKeepsInv(env, w, rk, w'.requests[rk], w');
      }
    case LoseStatus(rk) =>
      SetStatusKeepsInv(env, w, rk, None, w');
    case ChangeRequest(rk, r) =>
      if r.deleting && r.finalizers == [] {
        RequestGoneKeepsInv(env, w, rk, w');
      } else {
        ReplaceRequestKeepsInv(env, w, rk, r, w');
      }
    case CreateCluster(k, c) =>
      UnusedClusterKeepsInv(env, w, k, w');
    case DeleteCluster(k) =>
      if k !in w.clusters {
      } else if w.clusters[k].finalizers == [] {
        NoFinalizersNoRequests(w.clusters[k]);
        UnusedClusterKeepsInv(env, w, k, w');
      } else {
        DeletingKeepsInv(env, w, k, w');
      }
    case ChangeCluster(k, c) =>
      if c.deleting && c.finalizers == [] {
        NoFinalizersNoRequests(c);
        UnusedClusterKeepsInv(env, w, k, w');
      } else {
        ChangeKeepsInv(env, w, k, c, w');
      }
  }

  lemma DeletingKeepsOwned(w: World, k: Key, w': World)
    requires Owned(w) && k in w.clusters && w' == w.(clusters := w.clusters[k := w.clusters[k].(deleting := true)])
    ensures Owned(w')
  {
    forall x, u | x in w'.clusters && u in RequestUIDs(w'.clusters[x]) ensures HasOwner(w', u) {
      assert u in RequestUIDs(w.clusters[x]);
      assert HasOwner(w, u);
    }
  }

  lemma DeletingKeepsFindable(env: Environment, w: World, k: Key, w': World)
    requires Findable(env, w) && k in w.clusters && w' == w.(clusters := w.clusters[k := w.clusters[k].(deleting := true)])
    ensures Findable(env, w')
  {
    forall x, y | x in w'.clusters && y in w'.requests && w'.requests[y].spec.uid in RequestUIDs(w'.clusters[x])
      ensures REQUEST_FINALIZER in w'.requests[y].finalizers && RelevantFor(env, w', y, x)
    {
      assert w.requests[y].spec.uid in RequestUIDs(w.clusters[x]);
      assert RelevantFor(env, w, y, x);
    }
  }

  lemma DeletingKeepsInv(env: Environment, w: World, k: Key, w': World)
    requires Inv(env, w) && k in w.clusters
    requires w' == w.(clusters := w.clusters[k := w.clusters[k].(deleting := true)])
    ensures Inv(env, w')
  {
    hide Owned, Findable;
    DeletingKeepsOwned(w, k, w');
    DeletingKeepsFindable(env, w, k, w');
  }

  // ---------- every reachable state ----------

  lemma NextKeepsInv(env: Environment, w: World, e: Event, w': World)
    requires Sound(env.config) && Inv(env, w) && Next(env, w, e, w')
    ensures Inv(env, w')
  {
    if e.Schedule? {
      ScheduleKeepsInv(env, w, e, w');
    } else if e.Release? {
      ReleaseKeepsInv(env, w, e.request, e.clean, e.finalized, w');
    } else {
      OthersKeepInv(env, w, e, w');
    }
  }

  ghost predicate StepAt(env: Environment, ws: seq<World>, es: seq<Event>, i: nat)
    requires |ws| == |es| + 1 && i < |es|
  {
    Next(env, ws[i], es[i], ws[i + 1])
  }

  /** A run: a sequence of states, each obtained from the one before by an event. */
  ghost predicate Run(env: Environment, ws: seq<World>, es: seq<Event>) {
    |ws| == |es| + 1 && forall i: nat :: i < |es| ==> StepAt(env, ws, es, i)
  }

  lemma RunAt(env: Environment, ws: seq<World>, es: seq<Event>, i: nat)
    requires Run(env, ws, es) && i < |es|
    ensures Next(env, ws[i], es[i], ws[i + 1])
  {
    assert StepAt(env, ws, es, i);
  }

  lemma StepOf(env: Environment, ws: seq<World>, es: seq<Event>, i: nat) returns (w: World, e: Event, w': World)
    requires Run(env, ws, es) && i < |es|
    ensures w == ws[i] && e == es[i] && w' == ws[i + 1] && Next(env, w, e, w')
  {
    RunAt(env, ws, es, i);
    w, e, w' := ws[i], es[i], ws[i + 1];
  }

  lemma {:induction false} RunKeepsInv(env: Environment, ws: seq<World>, es: seq<Event>, i: nat)
    requires Sound(env.config) && Run(env, ws, es) && Inv(env, ws[0]) && i < |ws|
    ensures Inv(env, ws[i])
  {
    if i > 0 {
      RunKeepsInv(env, ws, es, i - 1);
      var w, e, w' := StepOf(env, ws, es, i - 1);
      NextKeepsInv(env, w, e, w');
    }
  }
}
