/** The cluster scheduler's reconcile passes as they run against the API server. Every call to the API
    server may fail; a failed call changes nothing and is counted. */
module Scheduler {
  import opened Kube
  import opened LabelSelectors
  import opened SchedulerConfiguration
  import opened SchedulerModel
  import opened SchedulerRuns

  datatype ReadResult<T> = Found(item: T) | NotFound | ReadError

  datatype DeleteResult = DeleteAccepted | AlreadyGone | DeleteError

  class PlatformCluster {
    var clusters: map<Key, Cluster>
    var requests: map<Key, ClusterRequest>
    /** How many calls have failed although the API server had no reason to refuse them. */
    ghost var faults: nat
    /** The clusters for which a delete call was issued, in order. */
    ghost var deleteCalls: seq<Key>

    constructor (clusters: map<Key, Cluster>, requests: map<Key, ClusterRequest>)
      ensures this.clusters == clusters && this.requests == requests
    {
      this.clusters := clusters;
      this.requests := requests;
    }

    function State(): World
      reads this
    {
      World(clusters, requests)
    }

    method GetRequest(rk: Key) returns (res: ReadResult<ClusterRequest>)
      modifies `faults
      ensures res.Found? ==> rk in requests && res.item == requests[rk]
      ensures res.NotFound? ==> rk !in requests
      ensures faults == old(faults) + if res.ReadError? then 1 else 0
    {
      var fails: bool := *;
      if fails {
        faults := faults + 1;
        return ReadError;
      }
      res := if rk in requests then Found(requests[rk]) else NotFound;
    }

    method GetCluster(k: Key) returns (res: ReadResult<Cluster>)
      modifies `faults
      ensures res.Found? ==> k in clusters && res.item == clusters[k]
      ensures res.NotFound? ==> k !in clusters
      ensures faults == old(faults) + if res.ReadError? then 1 else 0
    {
      var fails: bool := *;
      if fails {
        faults := faults + 1;
        return ReadError;
      }
      res := if k in clusters then Found(clusters[k]) else NotFound;
    }

    /** Lists clusters by namespace (empty for all) and labels. The order is up to the API server. */
    method ListClusters(namespace: string, selector: LabelSelector) returns (res: Option<seq<Key>>)
      modifies `faults
      ensures res.Some? ==> forall k :: k in res.value <==>
                k in clusters && (namespace == "" || k.namespace == namespace) && Matches(selector, clusters[k].labels)
      ensures res.Some? ==> forall i, j :: 0 <= i < j < |res.value| ==> res.value[i] != res.value[j]
      ensures faults == old(faults) + if res.None? then 1 else 0
    {
      var fails: bool := *;
      if fails {
        faults := faults + 1;
        return None;
      }
      var todo, list := clusters.Keys, [];
      while todo != {}
        invariant todo <= clusters.Keys
        invariant forall k :: k in list <==>
                    k in clusters && k !in todo && (namespace == "" || k.namespace == namespace) && Matches(selector, clusters[k].labels)
        invariant forall i, j :: 0 <= i < j < |list| ==> list[i] != list[j]
      {
        var k :| k in todo;
        if (namespace == "" || k.namespace == namespace) && MatchesAll(selector, clusters[k].labels) {
          list := list + [k];
        }
        todo := todo - {k};
      }
      return Some(list);
    }

    method ListRequestFinalizers() returns (res: Option<set<string>>)
      modifies `faults
      ensures res.Some? ==> res.value == LiveFinalizers(State())
      ensures faults == old(faults) + if res.None? then 1 else 0
    {
      var fails: bool := *;
      if fails {
        faults := faults + 1;
        return None;
      }
      return Some(set rk | rk in requests :: FinalizerForCluster(requests[rk].spec.uid));
    }

    method WriteCluster(k: Key, c: Cluster) returns (ok: bool)
      requires k in clusters
      modifies `clusters, `faults
      ensures ok ==> Acceptable(old(clusters)[k], c) && clusters == Stored(old(clusters), k, c)
      ensures !ok ==> clusters == old(clusters)
      ensures ok ==> faults == old(faults)
      ensures !ok ==> faults == old(faults) + if Acceptable(old(clusters)[k], c) then 1 else 0
    {
      if !MayStore(clusters[k], c) {
        return false;
      }
      ok := *;
      if ok {
        clusters := Stored(clusters, k, c);
      } else {
        faults := faults + 1;
      }
    }

    static predicate MayStore<S>(before: Object<S>, after: Object<S>)
      ensures MayStore(before, after) <==> Acceptable(before, after)
    {
      && after.deleting == before.deleting
      && (before.deleting ==> forall i :: 0 <= i < |after.finalizers| ==> after.finalizers[i] in before.finalizers)
    }

    method CreateCluster(k: Key, c: Cluster) returns (ok: bool)
      requires k !in clusters
      modifies `clusters, `faults
      ensures clusters == if ok then old(clusters)[k := c] else old(clusters)
      ensures faults == old(faults) + if ok then 0 else 1
    {
      ok := *;
      if ok {
        clusters := clusters[k := c];
      } else {
        faults := faults + 1;
      }
    }

    /** Creates a cluster whose name the API server generates from a prefix. */
    method CreateClusterWithGeneratedName(namespace: string, prefix: string, c: Cluster) returns (k: Key, ok: bool)
      modifies `clusters, `faults
      ensures ok ==> k !in old(clusters) && k.namespace == namespace && HasPrefix(k.name, prefix)
      ensures clusters == if ok then old(clusters)[k := c] else old(clusters)
      ensures faults == old(faults) + if ok then 0 else 1
    {
      var suffix: string := *;
      k := Key(namespace, prefix + suffix);
      ok := *;
      if ok && k !in clusters {
        clusters := clusters[k := c];
      } else {
        ok := false;
        faults := faults + 1;
      }
    }

    method DeleteCluster(k: Key) returns (res: DeleteResult)
      modifies `clusters, `faults, `deleteCalls
      ensures deleteCalls == old(deleteCalls) + [k]
      ensures clusters == if res.DeleteError? then old(clusters) else Deleted(old(clusters), k)
      ensures faults == old(faults) + if res.DeleteError? then 1 else 0
      ensures res.AlreadyGone? ==> k !in old(clusters)
    {
      deleteCalls := deleteCalls + [k];
      var fails: bool := *;
      if fails {
        faults := faults + 1;
        return DeleteError;
      }
      res := if k in clusters then DeleteAccepted else AlreadyGone;
      clusters := Deleted(clusters, k);
    }

    /** Patches the metadata of a request. */
    method PatchRequest(rk: Key, r: ClusterRequest) returns (ok: bool)
      requires rk in requests && Acceptable(requests[rk], r)
      modifies `requests, `faults
      ensures requests == if ok then Stored(old(requests), rk, r) else old(requests)
      ensures faults == old(faults) + if ok then 0 else 1
    {
      ok := *;
      if ok {
        requests := Stored(requests, rk, r);
      } else {
        faults := faults + 1;
      }
    }

    method PatchRequestStatus(rk: Key, ref: Option<Key>) returns (ok: bool)
      requires rk in requests
      modifies `requests, `faults
      ensures requests == if ok then WithStatus(old(requests), rk, ref) else old(requests)
      ensures faults == old(faults) + if ok then 0 else 1
    {
      ok := *;
      if ok {
        requests := WithStatus(requests, rk, ref);
      } else {
        faults := faults + 1;
      }
    }
  }

  class ClusterScheduler {
    const api: PlatformCluster
    const env: Environment

    constructor (api: PlatformCluster, env: Environment)
      ensures this.api == api && this.env == env
    {
      this.api := api;
      this.env := env;
    }

    /** Collects the uids behind the request finalizers of a cluster. */
    method GetRequestUIDs(c: Cluster) returns (uids: set<string>)
      ensures uids == RequestUIDs(c)
    {
      uids := {};
      for i := 0 to |c.finalizers|
        invariant uids == Suffixes(c.finalizers[..i], REQUEST_FINALIZER_PREFIX)
      {
        var f := c.finalizers[i];
        assert c.finalizers[..i + 1] == c.finalizers[..i] + [f];
        if HasPrefix(f, REQUEST_FINALIZER_PREFIX) {
          uids := uids + {f[|REQUEST_FINALIZER_PREFIX|..]};
        }
      }
      assert c.finalizers[..|c.finalizers|] == c.finalizers;
    }

    /** The clusters that could qualify for the request. */
    method FetchRelevantClusters(rk: Key) returns (res: Option<seq<Key>>)
      requires rk in api.requests && api.requests[rk].spec.purpose in env.config.purposeMappings
      modifies api`faults
      ensures res.Some? ==> forall k :: k in res.value <==> RelevantFor(env, api.State(), rk, k)
      ensures res.Some? ==> forall i, j :: 0 <= i < j < |res.value| ==> res.value[i] != res.value[j]
      ensures api.faults == old(api.faults) + if res.None? then 1 else 0
    {
      var purpose := api.requests[rk].spec.purpose;
      var d := env.config.purposeMappings[purpose];
      var namespace := rk.namespace;
      if env.config.scope == ClusterScope {
        namespace := "";
      } else if d.template.namespace != "" {
        namespace := d.template.namespace;
      }
      var list := api.ListClusters(namespace, d.selector);
      if list.None? {
        return None;
      }
      var clusters: seq<Key> := [];
      for i := 0 to |list.value|
        invariant forall k :: k in clusters <==> k in list.value[..i] && purpose in api.clusters[k].spec.purposes
        invariant forall a, b :: 0 <= a < b < |clusters| ==> clusters[a] != clusters[b]
      {
        assert list.value[..i + 1] == list.value[..i] + [list.value[i]];
        assert list.value[i] !in list.value[..i];
        if purpose in api.clusters[list.value[i]].spec.purposes {
          clusters := clusters + [list.value[i]];
        }
      }
      assert list.value[..|list.value|] == list.value;
      return Some(clusters);
    }

    /** The first cluster of the list with the fewest requests. */
    method LeastTenants(clusters: seq<Key>) returns (k: Key)
      requires clusters != [] && forall c :: c in clusters ==> c in api.clusters
      ensures exists i :: 0 <= i < |clusters| && k == clusters[i]
                && (forall j :: 0 <= j < |clusters| ==> TenancyCount(api.clusters[k]) <= TenancyCount(api.clusters[clusters[j]]))
                && (forall j :: 0 <= j < i ==> TenancyCount(api.clusters[k]) < TenancyCount(api.clusters[clusters[j]]))
    {
      k := clusters[0];
      var uids := GetRequestUIDs(api.clusters[k]);
      var count := |uids|;
      ghost var best := 0;
      for i := 1 to |clusters|
        invariant 0 <= best < i && k == clusters[best] && count == TenancyCount(api.clusters[k])
        invariant forall j :: 0 <= j < i ==> count <= TenancyCount(api.clusters[clusters[j]])
        invariant forall j :: 0 <= j < best ==> count < TenancyCount(api.clusters[clusters[j]])
      {
        uids := GetRequestUIDs(api.clusters[clusters[i]]);
        if |uids| < count {
          count, k, best := |uids|, clusters[i], i;
        }
      }
    }

    /** Drops the clusters that are being deleted and those at their tenancy limit. */
    method FilterCandidates(rk: Key, relevant: seq<Key>) returns (clusters: seq<Key>)
      requires rk in api.requests && api.requests[rk].spec.purpose in env.config.purposeMappings
      requires forall k :: k in relevant <==> RelevantFor(env, api.State(), rk, k)
      requires forall i, j :: 0 <= i < j < |relevant| ==> relevant[i] != relevant[j]
      ensures forall k :: k in clusters <==> Candidate(env, api.State(), rk, k)
      ensures forall i, j :: 0 <= i < j < |clusters| ==> clusters[i] != clusters[j]
    {
      var d := env.config.purposeMappings[api.requests[rk].spec.purpose];
      clusters := [];
      for i := 0 to |relevant|
        invariant forall k :: k in clusters <==> k in relevant[..i] && Candidate(env, api.State(), rk, k)
        invariant forall a, b :: 0 <= a < b < |clusters| ==> clusters[a] != clusters[b]
      {
        var k := relevant[i];
        assert relevant[..i + 1] == relevant[..i] + [k];
        assert k !in relevant[..i] && k in relevant;
        if !api.clusters[k].deleting {
          var full := false;
          if d.tenancyCount > 0 {
            var uids := GetRequestUIDs(api.clusters[k]);
            full := |uids| >= d.tenancyCount;
          }
          if !full {
            clusters := clusters + [k];
          }
        }
      }
      assert relevant[..|relevant|] == relevant;
    }

    /** Chooses among the candidates; `Reject` if the strategy is unknown. */
    method ChooseCandidate(rk: Key, clusters: seq<Key>) returns (d: Decision)
      requires rk in api.requests && clusters != []
      requires forall k :: k in clusters <==> Candidate(env, api.State(), rk, k)
      requires forall i, j :: 0 <= i < j < |clusters| ==> clusters[i] != clusters[j]
      ensures Selects(env, api.State(), rk, d)
    {
      if |clusters| == 1 {
        assert clusters[0] in clusters;
        return Join(clusters[0]);
      }
      match env.config.strategy
      case Simple =>
        assert clusters[0] in clusters;
        return Join(clusters[0]);
      case Random =>
        var i: int := *;
        i := if 0 <= i < |clusters| then i else 0;
        assert clusters[i] in clusters;
        return Join(clusters[i]);
      case UnsetStrategy =>
        var k := LeastTenants(clusters);
        return Join(k);
      case Balanced =>
        var k := LeastTenants(clusters);
        return Join(k);
      case OtherStrategy(_) =>
        assert clusters[0] in clusters && clusters[1] in clusters && clusters[0] != clusters[1];
        return Reject(UnknownStrategy);
    }

    /** The search for a conflicting finalizer. `found` is never set, so the first foreign finalizer is
        always among those to be removed. */
    method ScanForConflict(fins: seq<string>, own: string) returns (res: Option<(bool, set<string>)>)
      modifies api`faults
      ensures res.Some? ==>
                res.value == (ReportsConflict(fins, own, LiveFinalizers(api.State())), DroppedFinalizers(fins, own))
      ensures api.faults == old(api.faults) + if res.None? then 1 else 0
    {
      var conflict, remove := false, {};
      var listed: Option<set<string>> := None;
      var i := 0;
      ghost var live := LiveFinalizers(api.State());
      while i < |fins|
        invariant 0 <= i <= |fins|
        invariant own !in fins[..i]
        invariant api.faults == old(api.faults)
        invariant listed.None? ==> FirstForeign(fins, own) == FirstForeign(fins[i..], own)
        invariant listed.None? ==> !conflict && remove == {}
        invariant listed.Some? ==> listed.value == live && FirstForeign(fins, own).Some?
        invariant listed.Some? ==> conflict == (FirstForeign(fins, own).value in live)
        invariant listed.Some? ==> remove == {FirstForeign(fins, own).value}
      {
        var f := fins[i];
        if f == own {
          conflict := false;
          break;
        }
        if !conflict && HasPrefix(f, REQUEST_FINALIZER_PREFIX) {
          if listed.None? {
            listed := api.ListRequestFinalizers();
            if listed.None? {
              return None;
            }
            var found := false;
            conflict := f in listed.value;
            if !found {
              remove := remove + {f};
            }
          }
        }
        i := i + 1;
      }
      assert fins[..|fins|] == fins;
      return Some((conflict, remove));
    }

    /** A list of the finalizers without duplicates. */
    method AsList(fins: set<string>) returns (list: seq<string>)
      ensures forall f :: f in list <==> f in fins
    {
      list := [];
      var todo := fins;
      while todo != {}
        invariant todo <= fins
        invariant forall f :: f in list <==> f in fins - todo
      {
        var f :| f in todo;
        list, todo := list + [f], todo - {f};
      }
    }

    // ---------- creation and update ----------

    /** Sets missing and outdated metadata entries. */
    method PropagateEntries(entries: Labels, wanted: Labels) returns (res: Labels)
      ensures res == Propagated(entries, wanted)
    {
      res := entries;
      var todo := wanted.Keys;
      while todo != {}
        invariant todo <= wanted.Keys
        invariant forall k :: k !in wanted || k in todo ==> (k in res <==> k in entries) && (k in res ==> res[k] == entries[k])
        invariant forall k :: k in wanted && k !in todo ==> PropagatedAt(entries, wanted, res, k)
      {
        var k :| k in todo;
        if HasPrefix(k, METADATA_PREFIX) && Lookup(res, k) != wanted[k] {
          res := res[k := wanted[k]];
        }
        todo := todo - {k};
      }
      assert forall k :: k in wanted ==> PropagatedAt(entries, wanted, res, k);
    }

    ghost predicate PropagatedAt(entries: Labels, wanted: Labels, res: Labels, k: string)
      requires k in wanted
    {
      if HasPrefix(k, METADATA_PREFIX) && Lookup(entries, k) != wanted[k] then k in res && res[k] == wanted[k]
      else (k in res <==> k in entries) && (k in res ==> res[k] == entries[k])
    }

    /** Ensures the request's finalizer on an existing cluster. */
    method EnsureClusterFinalizer(rk: Key, k: Key) returns (ok: bool)
      requires rk in api.requests && k in api.clusters
      modifies api`clusters, api`faults
      ensures ok ==> api.clusters == old(api.clusters)[k := WithRequest(old(api.clusters)[k], api.requests[rk].spec.uid)]
      ensures !ok ==> api.clusters == old(api.clusters)
      ensures ok ==> Accepted(old(api.State()), rk, Keep(k)) && api.faults == old(api.faults)
      ensures !ok ==> api.faults > old(api.faults) || !Accepted(old(api.State()), rk, Keep(k))
      ensures api.faults >= old(api.faults)
    {
      var c := api.clusters[k];
      var fin := FinalizerForCluster(api.requests[rk].spec.uid);
      ok := true;
      if fin !in c.finalizers {
        ok := api.WriteCluster(k, c.(finalizers := c.finalizers + [fin]));
      }
    }

    /** Ensures the metadata of an exclusive cluster. */
    method EnsureMetadata(rk: Key, k: Key) returns (ok: bool)
      requires rk in api.requests && k in api.clusters && api.clusters[k].finalizers != []
      modifies api`clusters, api`faults
      ensures api.clusters == if ok then old(api.clusters)[k := WithMetadata(old(api.clusters)[k], api.requests[rk])] else old(api.clusters)
      ensures api.faults == old(api.faults) + if ok then 0 else 1
    {
      var r, c := api.requests[rk], api.clusters[k];
      ok := true;
      if c.spec.tenancy == Exclusive {
        var annotations := PropagateEntries(c.annotations, r.annotations);
        var labels := PropagateEntries(c.labels, r.labels);
        if annotations != c.annotations || labels != c.labels {
          ok := api.WriteCluster(k, c.(annotations := annotations, labels := labels));
        }
      }
    }

    /** The referenced cluster exists: ensure the finalizer, then the metadata of an exclusive cluster. */
    method KeepCluster(rk: Key, k: Key) returns (res: PassResult, ghost writes: nat)
      requires rk in api.requests && k in api.clusters
      requires api.requests[rk].spec.cluster == Some(k)
      modifies api`clusters, api`faults
      ensures Outcome(env, old(api.State()), api.State(), rk, Keep(k), writes, res, api.faults == old(api.faults))
      ensures api.faults >= old(api.faults)
    {
      hide Outcome, Accepted, WithMetadata;
      ghost var w := api.State();
      var ok := EnsureClusterFinalizer(rk, k);
      if !ok {
        KeptOutcome(env, w, rk, k, 0, false, api.State(), api.faults == old(api.faults));
        return PassResult(Some(k), Some(ApiFault)), 0;
      }
      ok := EnsureMetadata(rk, k);
      writes := if ok then 2 else 1;
      KeptOutcome(env, w, rk, k, writes, ok, api.State(), api.faults == old(api.faults));
      return PassResult(Some(k), if ok then None else Some(ApiFault)), writes;
    }

    /** Adds the request's finalizer to a candidate. */
    method JoinCluster(rk: Key, d: Decision) returns (res: PassResult, ghost writes: nat)
      requires rk in api.requests && d.Join? && d.key in api.clusters
      requires Decides(env, api.State(), rk, d)
      modifies api`clusters, api`faults
      ensures Outcome(env, old(api.State()), api.State(), rk, d, writes, res, api.faults == old(api.faults))
      ensures api.faults >= old(api.faults)
    {
      var ok := EnsureClusterFinalizer(rk, d.key);
      if !ok {
        return PassResult(api.requests[rk].spec.cluster, Some(ApiFault)), 0;
      }
      return PassResult(Some(d.key), None), 1;
    }

    /** No existing cluster can be used for the request, so it has to be placed on a cluster of its own. */
    ghost predicate NeedsPlacing(rk: Key)
      reads api
    {
      && rk in api.requests
      && var r := api.requests[rk];
      && r.spec.purpose in env.config.purposeMappings
      && (r.spec.cluster.Some? ==> r.spec.cluster.value !in api.clusters)
      && (r.spec.cluster.None? ==>
            && (forall k :: !HoldsRequest(env, api.State(), rk, k))
            && (env.config.purposeMappings[r.spec.purpose].template.spec.tenancy == Shared ==>
                  forall k :: !Candidate(env, api.State(), rk, k)))
    }

    /** What an existing cluster becomes when it is taken over. */
    method TakeOverObject(existing: Cluster, created: Cluster, own: string, remove: set<string>) returns (c: Cluster)
      requires created.finalizers == [own] && remove == DroppedFinalizers(existing.finalizers, own)
      ensures TakenOver(existing, created, own, c)
    {
      var fins := set f | f in existing.finalizers;
      var list := AsList((fins - remove) + {own});
      c := existing.(finalizers := list, labels := existing.labels + created.labels,
        annotations := existing.annotations + created.annotations, spec := created.spec);
    }

    /** A cluster with the chosen name exists: report a conflict or take it over. */
    method TakeOverCluster(rk: Key, k: Key) returns (res: PassResult, ghost d: Decision, ghost writes: nat)
      requires NeedsPlacing(rk) && k in api.clusters
      requires var r, definition := api.requests[rk], env.config.purposeMappings[api.requests[rk].spec.purpose];
               && ChooseName(env, rk, r, definition, r.spec.cluster) == FixedName(k.name)
               && ChooseNamespace(rk, definition, r.spec.cluster) == k.namespace
      modifies api`clusters, api`faults
      ensures Outcome(env, old(api.State()), api.State(), rk, d, writes, res, api.faults == old(api.faults))
      ensures api.faults >= old(api.faults)
    {
      hide Outcome;
      ghost var w := api.State();
      var r := api.requests[rk];
      var own := FinalizerForCluster(r.spec.uid);
      var created := NewCluster(r, env.config.purposeMappings[r.spec.purpose]);
      var existing := api.clusters[k];
      var scan := ScanForConflict(existing.finalizers, own);
      if scan.None? {
        RejectedOutcome(env, w, rk, ApiFault, false);
        return PassResult(r.spec.cluster, Some(ApiFault)), Reject(ApiFault), 0;
      }
      var (conflict, remove) := scan.value;
      if conflict {
        RejectedOutcome(env, w, rk, ClusterConflict, api.faults == old(api.faults));
        return PassResult(r.spec.cluster, Some(ClusterConflict)), Reject(ClusterConflict), 0;
      }
      var c := TakeOverObject(existing, created, own, remove);
      d := TakeOver(k, c);
      assert Places(env, api.State(), rk, d);
      assert Acceptable(existing, c) <==> Accepted(api.State(), rk, d);
      var ok := api.WriteCluster(k, c);
      WrittenOutcome(env, w, rk, d, ok, api.State(), api.faults == old(api.faults));
      if !ok {
        return PassResult(r.spec.cluster, Some(ApiFault)), d, 0;
      }
      return PassResult(Some(k), None), d, 1;
    }

    /** Creates a cluster for the request, or takes over one that has the same name. */
    method PlaceCluster(rk: Key) returns (res: PassResult, ghost d: Decision, ghost writes: nat)
      requires NeedsPlacing(rk)
      modifies api`clusters, api`faults
      ensures Outcome(env, old(api.State()), api.State(), rk, d, writes, res, api.faults == old(api.faults))
      ensures api.faults >= old(api.faults)
    {
      var r := api.requests[rk];
      var definition := env.config.purposeMappings[r.spec.purpose];
      var created := NewCluster(r, definition);
      var namespace := ChooseNamespace(rk, definition, r.spec.cluster);
      match ChooseName(env, rk, r, definition, r.spec.cluster)
      case NoName =>
        return PassResult(r.spec.cluster, Some(NameGenerationFailed)), Reject(NameGenerationFailed), 0;
      case GeneratedName(prefix) =>
        var k, ok := api.CreateClusterWithGeneratedName(namespace, prefix, created);
        if !ok {
          return PassResult(r.spec.cluster, Some(ApiFault)), Reject(ApiFault), 0;
        }
        return PassResult(Some(k), None), Create(k, created), 1;
      case FixedName(name) =>
        var k := Key(namespace, name);
        var existing := api.GetCluster(k);
        if existing.ReadError? {
          return PassResult(r.spec.cluster, Some(ApiFault)), Reject(ApiFault), 0;
        }
        if existing.Found? {
          res, d, writes := TakeOverCluster(rk, k);
          return;
        }
        d := Create(k, created);
        var ok := api.CreateCluster(k, created);
        if !ok {
          return PassResult(r.spec.cluster, Some(ApiFault)), d, 0;
        }
        return PassResult(Some(k), None), d, 1;
    }

    /** The pass over a request whose status does not refer to a cluster: one that has the request's finalizer
        already, or a candidate, or a new one. */
    method AssignAnew(rk: Key) returns (res: PassResult, ghost d: Decision, ghost writes: nat)
      requires rk in api.requests && api.requests[rk].spec.cluster == None
      requires api.requests[rk].spec.purpose in env.config.purposeMappings
      modifies api`clusters, api`faults
      ensures Outcome(env, old(api.State()), api.State(), rk, d, writes, res, api.faults == old(api.faults))
      ensures api.faults >= old(api.faults)
    {
      hide Outcome;
      ghost var w := api.State();
      var r := api.requests[rk];
      var relevant := FetchRelevantClusters(rk);
      if relevant.None? {
        RejectedOutcome(env, w, rk, ApiFault, false);
        return PassResult(None, Some(ApiFault)), Reject(ApiFault), 0;
      }
      for i := 0 to |relevant.value|
        invariant forall j :: 0 <= j < i ==> !HoldsRequest(env, api.State(), rk, relevant.value[j])
      {
        var k := relevant.value[i];
        assert k in relevant.value;
        if FinalizerForCluster(r.spec.uid) in api.clusters[k].finalizers {
          assert HoldsRequest(env, api.State(), rk, k);
          RecoveredOutcome(env, w, rk, k, api.faults == old(api.faults));
          return PassResult(Some(k), None), Recover(k), 0;
        }
      }
      assert forall k :: !HoldsRequest(env, api.State(), rk, k);
      if env.config.purposeMappings[r.spec.purpose].template.spec.tenancy == Shared {
        var candidates := FilterCandidates(rk, relevant.value);
        if candidates != [] {
          assert candidates[0] in candidates;
          var choice := ChooseCandidate(rk, candidates);
          d := choice;
          if choice.Reject? {
            RejectedOutcome(env, w, rk, choice.reason, api.faults == old(api.faults));
            return PassResult(None, Some(choice.reason)), d, 0;
          }
          res, writes := JoinCluster(rk, choice);
          return;
        }
      }
      res, d, writes := PlaceCluster(rk);
    }

    /** The pass over a request that is not being deleted and has the scheduler's finalizer. */
    method Assign(rk: Key) returns (res: PassResult, ghost d: Decision, ghost writes: nat)
      requires rk in api.requests
      modifies api`clusters, api`faults
      ensures Outcome(env, old(api.State()), api.State(), rk, d, writes, res, api.faults == old(api.faults))
      ensures api.faults >= old(api.faults)
    {
      hide Outcome;
      ghost var w := api.State();
      var r := api.requests[rk];
      if r.spec.cluster.Some? {
        var existing := api.GetCluster(r.spec.cluster.value);
        if existing.Found? {
          d := Keep(r.spec.cluster.value);
          res, writes := KeepCluster(rk, r.spec.cluster.value);
          return;
        } else if existing.ReadError? {
          RejectedOutcome(env, w, rk, ApiFault, false);
          return PassResult(r.spec.cluster, Some(ApiFault)), Reject(ApiFault), 0;
        }
      }
      if r.spec.purpose !in env.config.purposeMappings {
        RejectedOutcome(env, w, rk, UnknownPurpose, api.faults == old(api.faults));
        return PassResult(r.spec.cluster, Some(UnknownPurpose)), Reject(UnknownPurpose), 0;
      }
      if r.spec.cluster.None? {
        res, d, writes := AssignAnew(rk);
      } else {
        res, d, writes := PlaceCluster(rk);
      }
    }

    /** Ensures the scheduler's finalizer on the request and then assigns a cluster. */
    method HandleCreateOrUpdate(rk: Key) returns (res: PassResult, ghost marked: bool, ghost d: Decision, ghost writes: nat)
      requires rk in api.requests && !api.requests[rk].deleting
      modifies api`clusters, api`requests, api`faults
      ensures !marked ==> api.State() == old(api.State()) && res == PassResult(old(api.requests)[rk].spec.cluster, Some(ApiFault))
      ensures !marked ==> api.faults > old(api.faults)
      ensures marked ==>
                Outcome(env, Marked(old(api.State()), rk), api.State(), rk, d, writes, res, api.faults == old(api.faults))
      ensures api.faults >= old(api.faults)
    {
      var r := api.requests[rk];
      d, writes := Reject(ApiFault), 0;
      if REQUEST_FINALIZER !in r.finalizers {
        var ok := api.PatchRequest(rk, r.(finalizers := r.finalizers + [REQUEST_FINALIZER]));
        if !ok {
          marked := false;
          return PassResult(r.spec.cluster, Some(ApiFault)), marked, d, writes;
        }
      }
      assert api.State() == Marked(old(api.State()), rk);
      marked := true;
      res, d, writes := Assign(rk);
    }

    // ---------- deletion ----------

    /** The clusters that carry the request's finalizer and match the global selector. */
    method FetchHeldClusters(uid: string) returns (res: Option<seq<Key>>)
      modifies api`faults
      ensures res.Some? ==> forall k :: k in res.value <==> k in api.clusters && HeldBy(env, api.clusters[k], uid)
      ensures res.Some? ==> forall i, j :: 0 <= i < j < |res.value| ==> res.value[i] != res.value[j]
      ensures api.faults == old(api.faults) + if res.None? then 1 else 0
    {
      var list := api.ListClusters("", env.config.clusterSelector);
      if list.None? {
        return None;
      }
      var held: seq<Key> := [];
      for i := 0 to |list.value|
        invariant forall k :: k in held <==> k in list.value[..i] && FinalizerForCluster(uid) in api.clusters[k].finalizers
        invariant forall a, b :: 0 <= a < b < |held| ==> held[a] != held[b]
      {
        assert list.value[..i + 1] == list.value[..i] + [list.value[i]];
        assert list.value[i] !in list.value[..i];
        if FinalizerForCluster(uid) in api.clusters[list.value[i]].finalizers {
          held := held + [list.value[i]];
        }
      }
      assert list.value[..|list.value|] == list.value;
      return Some(held);
    }

    /** Removes the finalizer from one cluster and deletes the cluster if no request is left on it. The
        decision is made on the object in memory, so it does not depend on the patch having worked. */
    method ReleaseCluster(k: Key, uid: string) returns (ok: bool)
      requires k in api.clusters && HeldBy(env, api.clusters[k], uid)
      modifies api`clusters, api`faults, api`deleteCalls
      ensures forall x :: x != k ==> At(api.clusters, x) == At(old(api.clusters), x)
      ensures ReleasedTo(old(api.clusters)[k], uid, At(api.clusters, k), ok)
      ensures api.deleteCalls == old(api.deleteCalls) + if DeletedWithout(old(api.clusters)[k], uid) then [k] else []
      ensures ok <==> api.faults == old(api.faults)
      ensures api.faults >= old(api.faults)
    {
      var before := api.clusters[k];
      var c := WithoutRequest(before, uid);
      var patched := api.WriteCluster(k, c);
      ok := patched;
      ghost var deleted := false;
      var uids := GetRequestUIDs(c);
      if |uids| == 0 && HasLabel(c.labels, DELETE_WITHOUT_REQUESTS_LABEL, "true") {
        var res := api.DeleteCluster(k);
        if res.DeleteError? {
          ok := false;
        } else {
          deleted := true;
        }
      }
      assert At(api.clusters, k) == ReleaseResult(before, uid, patched, deleted);
    }

    /** Releases all listed clusters, carrying on after errors. */
    method ReleaseClusters(list: seq<Key>, uid: string) returns (ok: bool, ghost calls: seq<Key>)
      requires forall k :: k in list <==> k in api.clusters && HeldBy(env, api.clusters[k], uid)
      requires forall i, j :: 0 <= i < j < |list| ==> list[i] != list[j]
      modifies api`clusters, api`faults, api`deleteCalls
      ensures ClustersReleased(env, old(api.clusters), api.clusters, uid, ok)
      ensures api.deleteCalls == old(api.deleteCalls) + calls
      ensures forall k :: k in calls <==> k in list && DeletedWithout(old(api.clusters)[k], uid)
      ensures ok <==> api.faults == old(api.faults)
      ensures api.faults >= old(api.faults)
    {
      ok, calls := true, [];
      ghost var before := api.clusters;
      for i := 0 to |list|
        invariant forall k :: k !in list[..i] ==> At(api.clusters, k) == At(before, k)
        invariant forall k :: k in list[..i] ==> ReleasedTo(before[k], uid, At(api.clusters, k), ok)
        invariant api.deleteCalls == old(api.deleteCalls) + calls
        invariant forall k :: k in calls <==> k in list[..i] && DeletedWithout(before[k], uid)
        invariant ok <==> api.faults == old(api.faults)
        invariant api.faults >= old(api.faults)
      {
        var k := list[i];
        assert list[..i + 1] == list[..i] + [k];
        assert k !in list[..i] && k in list;
        assert At(api.clusters, k) == Some(before[k]);
        ghost var wasOk := ok;
        var released := ReleaseCluster(k, uid);
        ok := ok && released;
        forall x | x in list[..i + 1] ensures ReleasedTo(before[x], uid, At(api.clusters, x), ok) {
          if x == k {
            ReleasedWeaken(before[x], uid, At(api.clusters, x), released, ok);
          } else {
            ReleasedWeaken(before[x], uid, At(api.clusters, x), wasOk, ok);
          }
        }
        calls := calls + if DeletedWithout(before[k], uid) then [k] else [];
      }
      assert list[..|list|] == list;
    }

    lemma ReleasedWeaken(c: Cluster, uid: string, after: Option<Cluster>, clean: bool, weaker: bool)
      requires ReleasedTo(c, uid, after, clean) && (weaker ==> clean)
      ensures ReleasedTo(c, uid, after, weaker)
    {
    }

    /** The pass over a request that is being deleted. `clean` says that all clusters were released,
        `calls` are the clusters for which a delete call was issued. */
    method HandleDelete(rk: Key) returns (failed: bool, ghost clean: bool, ghost calls: set<Key>)
      requires rk in api.requests && api.requests[rk].deleting && api.requests[rk].finalizers != []
      modifies api
      ensures ReleaseOutcome(env, old(api.State()), api.State(), rk, clean, !failed)
              || (failed && calls == {} && api.State() == old(api.State()))
      ensures forall k :: k in api.deleteCalls <==> k in old(api.deleteCalls) || k in calls
      ensures calls != {} || !failed ==>
                calls == set k | k in old(api.clusters) && HeldBy(env, old(api.clusters)[k], old(api.requests)[rk].spec.uid)
                                 && DeletedWithout(old(api.clusters)[k], old(api.requests)[rk].spec.uid)
      ensures failed <==> api.faults > old(api.faults)
      ensures api.faults >= old(api.faults)
    {
      hide ReleasedTo, DeletedWithout;
      var r := api.requests[rk];
      clean, calls := false, {};
      var held := FetchHeldClusters(r.spec.uid);
      if held.None? {
        return true, clean, calls;
      }
      ghost var before := api.clusters;
      var released;
      ghost var issued;
      released, issued := ReleaseClusters(held.value, r.spec.uid);
      clean, failed := released, !released;
      calls := set k | k in issued;
      assert calls == set k | k in before && HeldBy(env, before[k], r.spec.uid) && DeletedWithout(before[k], r.spec.uid);
      if failed {
        return;
      }
      if REQUEST_FINALIZER in r.finalizers {
        var ok := api.PatchRequest(rk, r.(finalizers := RemoveFinalizer(r.finalizers, REQUEST_FINALIZER)));
        failed := !ok;
      } else {
        WithoutNothing(r.finalizers, {REQUEST_FINALIZER});
      }
    }

    // ---------- whole passes ----------

    /** One reconcile pass: possibly the removal of the operation annotation, which leads to state `mid`, and
        then a scheduling or releasing step, if the pass gets that far. */
    method Reconcile(rk: Key) returns (failed: bool, ghost mid: World, ghost e: Option<Event>)
      requires rk in api.requests && api.requests[rk].deleting ==> api.requests[rk].finalizers != []
      modifies api
      ensures mid == old(api.State()) || Next(env, old(api.State()), ClearOperation(rk), mid)
      ensures e.None? ==> api.State() == mid
      ensures e.Some? ==> (e.value.Schedule? || e.value.Release?) && e.value.request == rk && Next(env, mid, e.value, api.State())
      ensures rk !in old(api.requests) || Ignored(old(api.requests)[rk]) ==> mid == old(api.State()) && e.None?
      ensures mid != old(api.State()) ==> Triggered(old(api.requests)[rk])
      ensures api.faults == old(api.faults) && rk in old(api.requests) && Triggered(old(api.requests)[rk]) ==>
                rk in mid.requests && !Triggered(mid.requests[rk])
      ensures api.faults == old(api.faults) && rk in old(api.requests) && !Ignored(old(api.requests)[rk]) ==>
                && e.Some?
                && (e.value.Schedule? ==> e.value.faultFree && (failed <==> e.value.result.err.Some?))
                && (e.value.Release? ==> e.value.clean && e.value.finalized && !failed)
    {
      mid, e := api.State(), None;
      var read := api.GetRequest(rk);
      if !read.Found? {
        return read.ReadError?, mid, e;
      }
      var r := read.item;
      if OPERATION_ANNOTATION in r.annotations {
        if r.annotations[OPERATION_ANNOTATION] == OPERATION_IGNORE {
          return false, mid, e;
        } else if r.annotations[OPERATION_ANNOTATION] == OPERATION_RECONCILE {
          var ok := api.PatchRequest(rk, r.(annotations := r.annotations - {OPERATION_ANNOTATION}));
          if !ok {
            return true, mid, e;
          }
          mid := api.State();
        }
      }
      if api.requests[rk].deleting {
        failed, e := ReleasingPass(rk);
      } else {
        failed, e := SchedulingPass(rk);
      }
    }

    method ReleasingPass(rk: Key) returns (failed: bool, ghost e: Option<Event>)
      requires rk in api.requests && api.requests[rk].deleting && api.requests[rk].finalizers != []
      modifies api
      ensures e.None? ==> api.State() == old(api.State()) && api.faults > old(api.faults)
      ensures e.Some? ==> e.value.Release? && e.value.request == rk && Next(env, old(api.State()), e.value, api.State())
      ensures api.faults == old(api.faults) ==> !failed && e.Some? && e.value.clean && e.value.finalized
      ensures api.faults >= old(api.faults)
    {
      ghost var before, clean, calls := api.State(), false, {};
      failed, clean, calls := HandleDelete(rk);
      e := if ReleaseOutcome(env, before, api.State(), rk, clean, !failed) then Some(Release(rk, clean, !failed)) else None;
    }

    method SchedulingPass(rk: Key) returns (failed: bool, ghost e: Option<Event>)
      requires rk in api.requests && !api.requests[rk].deleting
      modifies api`clusters, api`requests, api`faults
      ensures e.None? ==> api.State() == old(api.State()) && api.faults > old(api.faults)
      ensures e.Some? ==> e.value.Schedule? && e.value.request == rk && Next(env, old(api.State()), e.value, api.State())
      ensures api.faults == old(api.faults) ==> e.Some? && e.value.faultFree && (failed <==> e.value.result.err.Some?)
      ensures api.faults >= old(api.faults)
    {
      ghost var before, faultsBefore := api.State(), api.faults;
      var res;
      ghost var marked, d, writes;
      res, marked, d, writes := HandleCreateOrUpdate(rk);
      ghost var placed, quiet := api.State(), api.faults == faultsBefore;
      assert marked ==> placed == AfterSchedule(before, rk, d, writes, res, false);
      var recorded := api.PatchRequestStatus(rk, res.ref);
      failed := res.err.Some? || !recorded;
      e := if marked then Some(Schedule(rk, d, writes, res, recorded, quiet && recorded)) else None;
      if !marked {
        StatusUnchanged(before, rk);
      }
    }

    /** Writing the reference that a request has already changes nothing. */
    lemma StatusUnchanged(w: World, rk: Key)
      requires rk in w.requests
      ensures WithStatus(w.requests, rk, w.requests[rk].spec.cluster) == w.requests
    {
    }
  }
}
