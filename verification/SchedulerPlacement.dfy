/** Where requests are placed, in terms of namespaces, labels and finalizers: which clusters are found, what new
    ones are called and contain, and which ones are deleted. */
module SchedulerPlacement {
  import opened Kube
  import opened LabelSelectors
  import opened SchedulerConfiguration
  import opened SchedulerModel
  import opened SchedulerRuns
  import opened SchedulerSafety

  /** The finalizers that are agreed upon with other controllers. */
  lemma AgreedFinalizers()
    ensures REQUEST_FINALIZER_PREFIX == "request.clusters.openmcp.cloud/" && REQUEST_FINALIZER == "clusters.openmcp.cloud/request"
  {
  }

  /** The labels that are agreed upon with users. */
  lemma AgreedLabels()
    ensures DELETE_WITHOUT_REQUESTS_LABEL == "clusters.openmcp.cloud/delete-without-requests"
    ensures METADATA_PREFIX == "metadata.open-control-plane.io/"
  {
  }

  lemma AgreedNameLabel()
    ensures RANDOMIZE_CLUSTER_NAME_LABEL == "clusters.openmcp.cloud/randomize-cluster-name"
  {
  }

  // ---------- which clusters are found ----------

  /** The annotation by which users and other controllers stop or trigger passes. */
  lemma AgreedOperation(r: ClusterRequest)
    ensures Ignored(r) <==> At(r.annotations, "openmcp.cloud/operation") == Some("ignore")
    ensures Triggered(r) <==> At(r.annotations, "openmcp.cloud/operation") == Some("reconcile")
  {
    assert OPERATION_ANNOTATION == "openmcp.cloud/operation" && OPERATION_IGNORE == "ignore" && OPERATION_RECONCILE == "reconcile";
  }

  /** In cluster scope all namespaces are searched, otherwise the one of the template or, if there is none, of
      the request. */
  predicate InReach(config: Config, d: Definition, rk: Key, k: Key) {
    config.scope == ClusterScope || k.namespace == if d.template.namespace == "" then rk.namespace else d.template.namespace
  }

  /** The cluster can be found for the request. */
  ghost predicate Fits(env: Environment, w: World, rk: Key, k: Key) {
    && rk in w.requests && k in w.clusters && w.requests[rk].spec.purpose in env.config.purposeMappings
    && var d := env.config.purposeMappings[w.requests[rk].spec.purpose];
    && InReach(env.config, d, rk, k)
    && (forall x :: x in d.selector.matchLabels ==> HasLabel(w.clusters[k].labels, x, d.selector.matchLabels[x]))
    && (forall r :: r in d.selector.matchExpressions ==> RequirementMatches(r, w.clusters[k].labels))
    && w.requests[rk].spec.purpose in w.clusters[k].spec.purposes
  }

  /** The uids behind the request finalizers on the cluster. */
  ghost function UIDsOn(c: Cluster): set<string> {
    set f | f in c.finalizers && REQUEST_FINALIZER_PREFIX <= f :: f[|REQUEST_FINALIZER_PREFIX|..]
  }

  /** It can take one more request. */
  ghost predicate HasSpace(env: Environment, w: World, rk: Key, k: Key) {
    && Fits(env, w, rk, k) && !w.clusters[k].deleting
    && var limit := env.config.purposeMappings[w.requests[rk].spec.purpose].tenancyCount;
    limit > 0 ==> |UIDsOn(w.clusters[k])| < limit
  }

  /** It carries the request already. */
  ghost predicate Carries(env: Environment, w: World, rk: Key, k: Key) {
    Fits(env, w, rk, k) && REQUEST_FINALIZER_PREFIX + w.requests[rk].spec.uid in w.clusters[k].finalizers
  }

  lemma FitsIffRelevant(env: Environment, w: World, rk: Key, k: Key)
    requires rk in w.requests && rk.namespace != ""
    ensures Fits(env, w, rk, k) <==> RelevantFor(env, w, rk, k)
  {
  }

  lemma SameUIDs(c: Cluster)
    ensures UIDsOn(c) == RequestUIDs(c)
  {
  }

  lemma HasSpaceIffCandidate(env: Environment, w: World, rk: Key, k: Key)
    requires rk in w.requests && rk.namespace != ""
    ensures HasSpace(env, w, rk, k) <==> Candidate(env, w, rk, k)
    ensures Carries(env, w, rk, k) <==> HoldsRequest(env, w, rk, k)
  {
    hide Fits, Relevant;
    FitsIffRelevant(env, w, rk, k);
    if k in w.clusters {
      SameUIDs(w.clusters[k]);
    }
  }

  /** Which of the clusters with space is joined: with the balanced strategy one with the fewest requests. With
      an unknown strategy there must be only one. */
  ghost predicate SelectedRightly(env: Environment, w: World, rk: Key, d: Decision) {
    if env.config.strategy in {Balanced, UnsetStrategy, Random, Simple} then
      && d.Join? && HasSpace(env, w, rk, d.key)
      && (env.config.strategy in {Balanced, UnsetStrategy} ==>
            forall k :: HasSpace(env, w, rk, k) ==>
              d.key in w.clusters && k in w.clusters && |UIDsOn(w.clusters[d.key])| <= |UIDsOn(w.clusters[k])|)
    else if exists a, b :: a != b && HasSpace(env, w, rk, a) && HasSpace(env, w, rk, b) then d == Reject(UnknownStrategy)
    else d.Join? && HasSpace(env, w, rk, d.key)
  }

  /** A reference to a cluster that exists is honoured. A cluster that was lost is created again, if it can be. */
  lemma ReferenceIsHonoured(env: Environment, w: World, rk: Key, d: Decision, k: Key)
    requires rk in w.requests && Decides(env, w, rk, d) && w.requests[rk].spec.cluster == Some(k)
    ensures k in w.clusters ==> d == Keep(k)
    ensures k !in w.clusters ==>
              if w.requests[rk].spec.purpose !in env.config.purposeMappings then d == Reject(UnknownPurpose)
              else d.Create? || d.TakeOver? || d in {Reject(NameGenerationFailed), Reject(ClusterConflict)}
  {
    hide Places;
    if w.requests[rk].spec.purpose in env.config.purposeMappings {
      PlacesIsPlacing(env, w, rk, d);
    }
  }

  /** What a pass decides for a request without reference. If a cluster that fits carries the request, such a
      cluster is referred to. Otherwise, if sharing is allowed and a cluster has space, such a cluster is
      joined, with the balanced strategy one with the fewest requests. Only otherwise a cluster is created or
      taken over. */
  lemma DecisionIsRight(env: Environment, w: World, rk: Key, d: Decision)
    requires rk in w.requests && rk.namespace != "" && Decides(env, w, rk, d)
    requires w.requests[rk].spec.cluster == None && w.requests[rk].spec.purpose in env.config.purposeMappings
    ensures
      var shared := env.config.purposeMappings[w.requests[rk].spec.purpose].template.spec.tenancy == Shared;
      if exists k :: Carries(env, w, rk, k) then d.Recover? && Carries(env, w, rk, d.key)
      else if shared && exists k :: HasSpace(env, w, rk, k) then
        SelectedRightly(env, w, rk, d)
      else
        d.Create? || d.TakeOver? || d in {Reject(NameGenerationFailed), Reject(ClusterConflict)}
  {
    hide HasSpace, Carries, Candidate, HoldsRequest, UIDsOn, RequestUIDs, Places, SelectedRightly;
    forall k
      ensures HasSpace(env, w, rk, k) <==> Candidate(env, w, rk, k)
      ensures Carries(env, w, rk, k) <==> HoldsRequest(env, w, rk, k)
      ensures k in w.clusters ==> UIDsOn(w.clusters[k]) == RequestUIDs(w.clusters[k])
    {
      HasSpaceIffCandidate(env, w, rk, k);
      if k in w.clusters {
        SameUIDs(w.clusters[k]);
      }
    }
    PlacesIsPlacing(env, w, rk, d);
    if k :| Carries(env, w, rk, k) {
      assert HoldsRequest(env, w, rk, k);
    } else if env.config.purposeMappings[w.requests[rk].spec.purpose].template.spec.tenancy == Shared {
      assert forall k :: !HoldsRequest(env, w, rk, k);
      if k :| HasSpace(env, w, rk, k) {
        assert Candidate(env, w, rk, k);
        SelectionIsRight(env, w, rk, d);
      }
    }
  }

  lemma SelectionIsRight(env: Environment, w: World, rk: Key, d: Decision)
    requires rk in w.requests && rk.namespace != "" && Selects(env, w, rk, d)
    ensures SelectedRightly(env, w, rk, d)
  {
    hide HasSpace, Candidate, UIDsOn, RequestUIDs;
    forall k ensures HasSpace(env, w, rk, k) <==> Candidate(env, w, rk, k) {
      HasSpaceIffCandidate(env, w, rk, k);
    }
    if d.Join? {
      SpaceIsInClusters(env, w, rk, d.key);
      SameUIDs(w.clusters[d.key]);
      forall k | HasSpace(env, w, rk, k) && env.config.strategy in {Balanced, UnsetStrategy}
        ensures k in w.clusters && |UIDsOn(w.clusters[d.key])| <= |UIDsOn(w.clusters[k])|
      {
        SpaceIsInClusters(env, w, rk, k);
        SameUIDs(w.clusters[k]);
      }
    }
  }

  lemma SpaceIsInClusters(env: Environment, w: World, rk: Key, k: Key)
    requires HasSpace(env, w, rk, k)
    ensures k in w.clusters
  {
  }

  lemma PlacesIsPlacing(env: Environment, w: World, rk: Key, d: Decision)
    requires rk in w.requests && w.requests[rk].spec.purpose in env.config.purposeMappings
    ensures Places(env, w, rk, d) ==> d.Create? || d.TakeOver? || d in {Reject(NameGenerationFailed), Reject(ClusterConflict)}
  {
  }

  /** In every reachable state the reference of a live request is to a cluster that fits: in reach, selected by
      the definition, and with its purpose. So outside of cluster scope nobody is given a cluster of another
      namespace. */
  lemma ReferencesFitInRuns(env: Environment, ws: seq<World>, es: seq<Event>, i: nat, rk: Key)
    requires Sound(env.config) && Run(env, ws, es) && ws[0] == World(map[], map[]) && i < |ws|
    requires rk in ws[i].requests && rk.namespace != "" && !ws[i].requests[rk].deleting && ws[i].requests[rk].spec.cluster.Some?
    ensures Carries(env, ws[i], rk, ws[i].requests[rk].spec.cluster.value)
  {
    hide Sound, Fits, Relevant;
    assert Inv(env, World(map[], map[]));
    RunKeepsInv(env, ws, es, i);
    var w, k := ws[i], ws[i].requests[rk].spec.cluster.value;
    assert w.requests[rk].spec.uid in RequestUIDs(w.clusters[k]);
    UIDIn(w.clusters[k], w.requests[rk].spec.uid);
    HasSpaceIffCandidate(env, w, rk, k);
  }

  // ---------- what new clusters are called ----------

  /** There is to be only one cluster of the definition. */
  predicate Singleton(d: Definition) {
    d.template.spec.tenancy == Shared && d.tenancyCount == 0
  }

  predicate Randomized(r: ClusterRequest) {
    HasLabel(r.labels, RANDOMIZE_CLUSTER_NAME_LABEL, "true")
  }

  /** A cluster that was lost is created again under the same key. A first one is in the namespace of the
      template or of the request. If there is to be only one and the template has no generateName, it is named
      like the template or the purpose. All other names start with generateName or the purpose, and unless
      they are randomized, they are given by a function of the request's key. */
  lemma NewClusterIsNamed(env: Environment, w: World, rk: Key, d: Decision)
    requires rk in w.requests && Decides(env, w, rk, d) && (d.Create? || d.TakeOver?)
    ensures
      var r := w.requests[rk];
      r.spec.purpose in env.config.purposeMappings
      && var definition := env.config.purposeMappings[r.spec.purpose];
      var t := definition.template;
      var prefix := if t.generateName != "" then t.generateName else r.spec.purpose + "-";
      var lost := if r.spec.cluster.Some? then r.spec.cluster.value else Key("", "");
      && d.key.namespace == (if lost.namespace != "" then lost.namespace else if t.namespace == "" then rk.namespace else t.namespace)
      && (if lost.name != "" then d.key.name == lost.name
          else if Singleton(definition) && t.generateName == "" then d.key.name == if t.name == "" then r.spec.purpose else t.name
          else
            && prefix <= d.key.name
            && (!Randomized(r) ==> env.suffix(rk, 63 - |prefix|) == Some(d.key.name[|prefix|..])))
  {
    hide NewCluster, TakenOver, Candidate, HoldsRequest, FirstForeign;
    var r := w.requests[rk];
    var t := env.config.purposeMappings[r.spec.purpose].template;
    var prefix := if t.generateName != "" then t.generateName else r.spec.purpose + "-";
    var suffix := env.suffix(rk, 63 - |prefix|);
    assert suffix.Some? ==> (prefix + suffix.value)[|prefix|..] == suffix.value;
  }

  /** So without randomization a request is always given the same name. */
  lemma SameNameAgain(env: Environment, w: World, w': World, rk: Key, d: Decision, d': Decision)
    requires rk in w.requests && Decides(env, w, rk, d) && (d.Create? || d.TakeOver?)
    requires rk in w'.requests && Decides(env, w', rk, d') && (d'.Create? || d'.TakeOver?)
    requires w.requests[rk].spec == w'.requests[rk].spec && w.requests[rk].spec.cluster == None
    requires !Randomized(w.requests[rk]) && !Randomized(w'.requests[rk])
    ensures d.key == d'.key
  {
    hide Decides;
    NewClusterIsNamed(env, w, rk, d);
    NewClusterIsNamed(env, w', rk, d');
    var r := w.requests[rk];
    var t := env.config.purposeMappings[r.spec.purpose].template;
    var prefix := if t.generateName != "" then t.generateName else r.spec.purpose + "-";
    if prefix <= d.key.name && prefix <= d'.key.name {
      assert d.key.name == prefix + d.key.name[|prefix|..] && d'.key.name == prefix + d'.key.name[|prefix|..];
    }
  }

  /** What a pass does to requests: it puts its own finalizer on its request and, if it can, writes the reference
      into its status. Nothing else is changed, and other requests are left alone. */
  lemma OnlyStatusIsWritten(env: Environment, w: World, e: Event, w': World, rk: Key)
    requires Next(env, w, e, w') && e.Schedule? && rk in w.requests
    ensures rk in w'.requests && w'.requests.Keys == w.requests.Keys
    ensures rk != e.request ==> w'.requests[rk] == w.requests[rk]
    ensures rk == e.request ==>
              var r, r' := w.requests[rk], w'.requests[rk];
              && r' == r.(finalizers := r'.finalizers, spec := r.spec.(cluster := if e.recorded then e.result.ref else r.spec.cluster))
              && r.finalizers <= r'.finalizers
              && (forall f :: f in r'.finalizers <==> f in r.finalizers || f == "clusters.openmcp.cloud/request")
  {
    hide Outcome;
    AgreedFinalizers();
  }

  // ---------- what new clusters contain ----------

  /** The entry of a new cluster: metadata of the request goes to exclusive clusters only and comes first, then
      what the template says, and then the default. */
  function EntryOf(own: Labels, template: Labels, exclusive: bool, defaults: Labels, x: string): Option<string> {
    if exclusive && METADATA_PREFIX <= x && x in own then Some(own[x])
    else if x in template then Some(template[x])
    else At(defaults, x)
  }

  lemma NewClusterHasContent(env: Environment, w: World, rk: Key, d: Decision, x: string, p: string)
    requires rk in w.requests && Decides(env, w, rk, d) && d.Create?
    ensures
      var r, c := w.requests[rk], d.cluster;
      r.spec.purpose in env.config.purposeMappings
      && var t := env.config.purposeMappings[r.spec.purpose].template;
      && d.key !in w.clusters && !c.deleting && c.finalizers == [REQUEST_FINALIZER_PREFIX + r.spec.uid]
      && At(c.labels, x) == EntryOf(r.labels, t.labels, t.spec.tenancy == Exclusive, map[DELETE_WITHOUT_REQUESTS_LABEL := "true"], x)
      && At(c.annotations, x) == EntryOf(r.annotations, t.annotations, t.spec.tenancy == Exclusive, map[], x)
      && c.spec.profile == t.spec.profile && c.spec.tenancy == t.spec.tenancy
      && (p in c.spec.purposes <==> p in t.spec.purposes || p == r.spec.purpose)
  {
    hide NewCluster, EntryOf;
    PlacedAsDefined(env, w, rk, d);
    ContentOfNew(w.requests[rk], env.config.purposeMappings[w.requests[rk].spec.purpose], x, p);
  }

  lemma PlacedAsDefined(env: Environment, w: World, rk: Key, d: Decision)
    requires rk in w.requests && Decides(env, w, rk, d) && (d.Create? || d.TakeOver?)
    ensures
      var r := w.requests[rk];
      r.spec.purpose in env.config.purposeMappings
      && var created := NewCluster(r, env.config.purposeMappings[r.spec.purpose]);
      if d.Create? then d.key !in w.clusters && d.cluster == created
      else d.key in w.clusters && TakenOver(w.clusters[d.key], created, FinalizerForCluster(r.spec.uid), d.cluster)
  {
    hide NewCluster, TakenOver;
  }

  lemma ContentOfNew(r: ClusterRequest, definition: Definition, x: string, p: string)
    ensures
      var c, t := NewCluster(r, definition), definition.template;
      && !c.deleting && c.finalizers == [REQUEST_FINALIZER_PREFIX + r.spec.uid]
      && At(c.labels, x) == EntryOf(r.labels, t.labels, t.spec.tenancy == Exclusive, map[DELETE_WITHOUT_REQUESTS_LABEL := "true"], x)
      && At(c.annotations, x) == EntryOf(r.annotations, t.annotations, t.spec.tenancy == Exclusive, map[], x)
      && c.spec.profile == t.spec.profile && c.spec.tenancy == t.spec.tenancy
      && (p in c.spec.purposes <==> p in t.spec.purposes || p == r.spec.purpose)
  {
  }

  /** A cluster that is taken over becomes like a new one, but keeps its other labels and annotations.
      It also keeps its finalizers, except for the first one for a request. */
  lemma TakenOverHasContent(env: Environment, w: World, rk: Key, d: Decision, x: string, p: string)
    requires rk in w.requests && Decides(env, w, rk, d) && d.TakeOver?
    ensures
      var r, c := w.requests[rk], d.cluster;
      r.spec.purpose in env.config.purposeMappings && d.key in w.clusters
      && var t, before := env.config.purposeMappings[r.spec.purpose].template, w.clusters[d.key];
      var wanted := EntryOf(r.labels, t.labels, t.spec.tenancy == Exclusive, map[DELETE_WITHOUT_REQUESTS_LABEL := "true"], x);
      var annotation := EntryOf(r.annotations, t.annotations, t.spec.tenancy == Exclusive, map[], x);
      && c.deleting == before.deleting
      && REQUEST_FINALIZER_PREFIX + r.spec.uid in c.finalizers
      && (x in c.finalizers <==>
            x == REQUEST_FINALIZER_PREFIX + r.spec.uid || (x in before.finalizers && FirstRequest(before.finalizers) != Some(x)))
      && At(c.labels, x) == (if wanted.Some? then wanted else At(before.labels, x))
      && At(c.annotations, x) == (if annotation.Some? then annotation else At(before.annotations, x))
      && c.spec.profile == t.spec.profile && c.spec.tenancy == t.spec.tenancy
      && (p in c.spec.purposes <==> p in t.spec.purposes || p == r.spec.purpose)
  {
    hide NewCluster, EntryOf, DroppedFinalizers, Decides;
    PlacedAsDefined(env, w, rk, d);
    ContentOfNew(w.requests[rk], env.config.purposeMappings[w.requests[rk].spec.purpose], x, p);
    DroppedIsFirst(w.clusters[d.key].finalizers, FinalizerForCluster(w.requests[rk].spec.uid));
  }

  /** The first finalizer that stands for a request. */
  function FirstRequest(fins: seq<string>): Option<string> {
    if fins == [] then None else if REQUEST_FINALIZER_PREFIX <= fins[0] then Some(fins[0]) else FirstRequest(fins[1..])
  }

  lemma {:induction false} DroppedIsFirst(fins: seq<string>, own: string)
    requires REQUEST_FINALIZER_PREFIX <= own
    ensures forall f :: f in DroppedFinalizers(fins, own) <==> f != own && FirstRequest(fins) == Some(f)
  {
    if fins == [] || fins[0] == own {
      assert DroppedFinalizers(fins, own) == {};
    } else if HasPrefix(fins[0], REQUEST_FINALIZER_PREFIX) {
      assert DroppedFinalizers(fins, own) == {fins[0]};
    } else {
      DroppedIsFirst(fins[1..], own);
      assert DroppedFinalizers(fins, own) == DroppedFinalizers(fins[1..], own);
    }
  }

  /** A completed pass that keeps a referenced cluster: the cluster has the request's finalizer, and, if it is
      exclusive, the metadata of the request. Everything else is as before. */
  lemma KeptHasContent(w: World, rk: Key, k: Key, x: string)
    requires rk in w.requests && k in w.clusters
    ensures
      var r, before, after := w.requests[rk], w.clusters[k], AfterClusterWrites(w, rk, Keep(k), 2);
      && (forall o :: o != k ==> At(after, o) == At(w.clusters, o))
      && k in after && after[k].spec == before.spec && after[k].deleting == before.deleting
      && (x in after[k].finalizers <==> x in before.finalizers || x == REQUEST_FINALIZER_PREFIX + r.spec.uid)
      && before.finalizers <= after[k].finalizers
      && var propagates := before.spec.tenancy == Exclusive && METADATA_PREFIX <= x;
      && (if propagates && x in r.labels then Lookup(after[k].labels, x) == r.labels[x] else At(after[k].labels, x) == At(before.labels, x))
      && (if propagates && x in r.annotations then Lookup(after[k].annotations, x) == r.annotations[x]
          else At(after[k].annotations, x) == At(before.annotations, x))
  {
  }

  // ---------- which clusters are deleted ----------

  /** The request is the only one on the cluster, and the cluster is labelled to go with its last request. */
  predicate GoesWith(c: Cluster, uid: string) {
    && HasLabel(c.labels, DELETE_WITHOUT_REQUESTS_LABEL, "true")
    && forall f :: f in c.finalizers && REQUEST_FINALIZER_PREFIX <= f ==> f == REQUEST_FINALIZER_PREFIX + uid
  }

  lemma GoesWithIff(c: Cluster, uid: string)
    ensures DeletedWithout(c, uid) <==> GoesWith(c, uid)
  {
    UIDsWithout(c, uid);
    var others := RequestUIDs(WithoutRequest(c, uid));
    if others == {} {
      forall f | f in c.finalizers && REQUEST_FINALIZER_PREFIX <= f ensures f == REQUEST_FINALIZER_PREFIX + uid {
        var v := f[|REQUEST_FINALIZER_PREFIX|..];
        assert v in RequestUIDs(c) && v !in others;
      }
    } else {
      var v :| v in others;
      UIDIn(c, v);
      assert FinalizerForCluster(v) in c.finalizers;
      PrefixInjective(REQUEST_FINALIZER_PREFIX, v, uid);
      assert REQUEST_FINALIZER_PREFIX <= FinalizerForCluster(v);
    }
  }

  /** The cluster is found when the request is released. */
  ghost predicate IsHeld(env: Environment, c: Cluster, uid: string) {
    Matches(env.config.clusterSelector, c.labels) && REQUEST_FINALIZER_PREFIX + uid in c.finalizers
  }

  /** What a releasing pass does to a cluster, whichever calls fail. Clusters that are not found are left alone.
      A cluster begins to be deleted only if the request is the last one on it and its label asks for it, and
      vanishes only without other finalizers and if it is being deleted. If all calls succeed, the request is
      off the clusters that are found, and those that go with it are deleted. */
  lemma ReleaseDeletesIff(env: Environment, w: World, rk: Key, clean: bool, finalized: bool, w': World, k: Key)
    requires ReleaseOutcome(env, w, w', rk, clean, finalized) && k in w.clusters
    ensures
      var c, uid := w.clusters[k], w.requests[rk].spec.uid;
      && (!IsHeld(env, c, uid) ==> At(w'.clusters, k) == Some(c))
      && (k in w'.clusters ==>
            && w'.clusters[k] == c.(finalizers := w'.clusters[k].finalizers, deleting := w'.clusters[k].deleting)
            && (c.deleting ==> w'.clusters[k].deleting)
            && (w'.clusters[k].deleting && !c.deleting ==> GoesWith(c, uid))
            && (IsHeld(env, c, uid) && w'.clusters[k].deleting ==> w'.clusters[k].finalizers != []))
      && (k !in w'.clusters ==>
            (c.deleting || GoesWith(c, uid)) && forall f :: f in c.finalizers ==> f == REQUEST_FINALIZER_PREFIX + uid)
      && (clean && IsHeld(env, c, uid) && k in w'.clusters ==>
            && REQUEST_FINALIZER_PREFIX + uid !in w'.clusters[k].finalizers
            && (w'.clusters[k].deleting <==> c.deleting || GoesWith(c, uid)))
  {
    hide Matches, GoesWith, DeletedWithout;
    var c, uid := w.clusters[k], w.requests[rk].spec.uid;
    GoesWithIff(c, uid);
    if HeldBy(env, c, uid) {
      ReleasedIsRight(c, uid, At(w'.clusters, k), clean);
    } else {
      assert At(w'.clusters, k) == At(w.clusters, k);
    }
  }

  lemma ReleasedIsRight(c: Cluster, uid: string, after: Option<Cluster>, clean: bool)
    requires ReleasedTo(c, uid, after, clean)
    ensures after.Some? ==>
              && after.value == c.(finalizers := after.value.finalizers, deleting := after.value.deleting)
              && (c.deleting ==> after.value.deleting)
              && (after.value.deleting && !c.deleting ==> DeletedWithout(c, uid))
              && (after.value.deleting ==> after.value.finalizers != [])
              && (clean ==> FinalizerForCluster(uid) !in after.value.finalizers
                            && (after.value.deleting <==> c.deleting || DeletedWithout(c, uid)))
    ensures after.None? ==> (c.deleting || DeletedWithout(c, uid)) && forall f :: f in c.finalizers ==> f == FinalizerForCluster(uid)
  {
    hide DeletedWithout;
  }
}
