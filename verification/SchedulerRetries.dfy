/** Packing when calls fail and passes are repeated, with deterministic and with generated names: no pass ever
    opens a cluster too many. */
module SchedulerRetries {
  import opened Kube
  import opened LabelSelectors
  import opened SchedulerConfiguration
  import opened SchedulerModel
  import opened SchedulerRuns
  import opened SchedulerSafety
  import opened SchedulerPacking

  /** Passes over these requests, in any order and as often as needed, whichever calls fail. */
  ghost predicate Retries(env: Environment, ws: seq<World>, es: seq<Event>, rks: seq<Key>) {
    Run(env, ws, es) && forall i {:trigger es[i]} :: 0 <= i < |es| ==> es[i].Schedule? && es[i].request in rks
  }

  /** The uids of all requests that are on a cluster. */
  ghost function PlacedUIDs(clusters: map<Key, Cluster>): set<string> {
    set k, u | k in clusters && u in RequestUIDs(clusters[k]) :: u
  }

  ghost function UIDsOf(w: World, rks: seq<Key>): set<string> {
    set rk | rk in rks && rk in w.requests :: w.requests[rk].spec.uid
  }

  /** The clusters carry `n` requests, and are no more than needed: with a limit all are full except perhaps
      `last`, and without one there is only one. */
  ghost predicate Economical(limit: int, clusters: map<Key, Cluster>, n: nat, last: Key) {
    if limit > 0 then Filled(limit, clusters, n, last) else clusters.Keys <= {last}
  }

  /** The requests are those of the start, except for finalizers and references. */
  ghost predicate Kept(w0: World, w: World, rks: seq<Key>) {
    forall rk :: rk in rks && rk in w0.requests ==>
      && rk in w.requests && !w.requests[rk].deleting
      && w.requests[rk].spec == w0.requests[rk].spec.(cluster := w.requests[rk].spec.cluster)
  }

  ghost predicate Usable(env: Environment, purpose: string, w: World, rks: seq<Key>) {
    forall k :: k in w.clusters ==> Ready(env, purpose, rks, k, w.clusters[k]) && w.clusters[k].spec.tenancy == Shared
  }

  ghost predicate Thrifty(env: Environment, purpose: string, w0: World, w: World, rks: seq<Key>, last: Key)
    requires Alike(env, purpose, w0, rks)
  {
    && Kept(w0, w, rks) && Usable(env, purpose, w, rks) && PlacedUIDs(w.clusters) <= UIDsOf(w0, rks)
    && Economical(env.config.purposeMappings[purpose].tenancyCount, w.clusters, |PlacedUIDs(w.clusters)|, last)
  }

  // ---------- counting ----------

  lemma PlacingCounts(clusters: map<Key, Cluster>, k: Key, c: Cluster, uid: string)
    requires RequestUIDs(c) == (if k in clusters then RequestUIDs(clusters[k]) else {}) + {uid}
    requires uid !in PlacedUIDs(clusters)
    ensures PlacedUIDs(clusters[k := c]) == PlacedUIDs(clusters) + {uid}
    ensures |PlacedUIDs(clusters[k := c])| == |PlacedUIDs(clusters)| + 1
  {
    hide PlacedUIDs, RequestUIDs;
    var before, after := PlacedUIDs(clusters), PlacedUIDs(clusters[k := c]);
    forall u ensures u in after <==> u in before + {uid} {
      PlacedAfter(clusters, k, c, uid, u);
    }
    assert after == before + {uid};
  }

  lemma PlacedAfter(clusters: map<Key, Cluster>, k: Key, c: Cluster, uid: string, u: string)
    requires RequestUIDs(c) == (if k in clusters then RequestUIDs(clusters[k]) else {}) + {uid}
    ensures u in PlacedUIDs(clusters[k := c]) <==> u in PlacedUIDs(clusters) || u == uid
  {
    hide RequestUIDs;
    var after := clusters[k := c];
    if u in PlacedUIDs(clusters) {
      var x :| x in clusters && u in RequestUIDs(clusters[x]);
      assert x in after && u in RequestUIDs(after[x]);
    } else if u == uid {
      assert k in after && u in RequestUIDs(after[k]);
    }
  }

  lemma JoiningIsEconomical(limit: int, clusters: map<Key, Cluster>, n: nat, last: Key, k: Key, c: Cluster)
    requires Economical(limit, clusters, n, last) && k in clusters
    requires TenancyCount(c) == TenancyCount(clusters[k]) + 1 && (limit > 0 ==> TenancyCount(c) <= limit)
    ensures Economical(limit, clusters[k := c], n + 1, last)
  {
    if limit > 0 {
      JoinKeepsFilled(limit, clusters, n, last, c);
    }
  }

  lemma CreatingIsEconomical(limit: int, clusters: map<Key, Cluster>, n: nat, last: Key, k: Key, c: Cluster)
    requires Economical(limit, clusters, n, last) && k !in clusters && TenancyCount(c) == 1
    requires forall x :: x in clusters ==> limit > 0 && TenancyCount(clusters[x]) >= limit
    ensures Economical(limit, clusters[k := c], n + 1, k)
  {
    if limit > 0 {
      CreateKeepsFilled(limit, clusters, n, last, k, c);
    } else {
      assert clusters == map[];
    }
  }

  // ---------- what one pass does ----------

  lemma MarkedIsKept(w0: World, w: World, rks: seq<Key>, rk: Key)
    requires Kept(w0, w, rks) && rk in w.requests
    ensures Kept(w0, Marked(w, rk), rks) && Marked(w, rk).clusters == w.clusters
  {
  }

  lemma SameClustersUsable(env: Environment, purpose: string, w: World, w': World, rks: seq<Key>)
    requires Usable(env, purpose, w, rks) && w'.clusters == w.clusters
    ensures Usable(env, purpose, w', rks)
  {
    hide Ready;
  }

  /** Only the cluster that is joined or created can change. */
  lemma OnlyPlacingChanges(env: Environment, m: World, rk: Key, d: Decision, writes: nat)
    requires Inv(env, m) && rk in m.requests && !m.requests[rk].deleting && writes <= ClusterWrites(d)
    requires d == Reject(ApiFault) || Decides(env, m, rk, d)
    requires d.Keep? || d.Join? ==> d.key in m.clusters
    requires forall k :: k in m.clusters ==> m.clusters[k].spec.tenancy == Shared && TenancyCount(m.clusters[k]) >= 1
    ensures !d.TakeOver?
    ensures AfterClusterWrites(m, rk, d, writes) == m.clusters || ((d.Join? || d.Create?) && writes == 1)
  {
    hide Sound;
    if d.Keep? {
      KeepIsReferred(env, m, rk, d);
      UIDIn(m.clusters[d.key], m.requests[rk].spec.uid);
      KeepingShared(m, rk, d, writes);
    } else if d.TakeOver? {
      TakenOverHasNoRequests(env, m, rk, d);
    }
  }

  lemma KeepingShared(m: World, rk: Key, d: Decision, writes: nat)
    requires rk in m.requests && d.Keep? && d.key in m.clusters && m.clusters[d.key].spec.tenancy == Shared
    requires FinalizerForCluster(m.requests[rk].spec.uid) in m.clusters[d.key].finalizers
    ensures AfterClusterWrites(m, rk, d, writes) == m.clusters
  {
    var c := m.clusters[d.key];
    assert WithRequest(c, m.requests[rk].spec.uid) == c && WithMetadata(c, m.requests[rk]) == c;
  }

  /** Whoever is given a cluster of its own has had no candidate. */
  lemma NobodyHasRoom(env: Environment, purpose: string, m: World, rks: seq<Key>, rk: Key, d: Decision, k: Key)
    requires rk in m.requests && rk in rks && Decides(env, m, rk, d) && d.Create? && k in m.clusters
    requires m.requests[rk].spec.purpose == purpose && purpose in env.config.purposeMappings && m.requests[rk].spec.cluster == None
    requires env.config.purposeMappings[purpose].template.spec.tenancy == Shared
    requires Ready(env, purpose, rks, k, m.clusters[k])
    ensures var limit := env.config.purposeMappings[purpose].tenancyCount; limit > 0 && TenancyCount(m.clusters[k]) >= limit
  {
    assert !Candidate(env, m, rk, k);
  }

  lemma JoinedHasRoom(env: Environment, purpose: string, m: World, rk: Key, d: Decision)
    requires rk in m.requests && Selects(env, m, rk, d) && d.Join? && d.key in m.clusters
    requires m.requests[rk].spec.purpose == purpose && purpose in env.config.purposeMappings
    ensures var limit := env.config.purposeMappings[purpose].tenancyCount; limit > 0 ==> TenancyCount(m.clusters[d.key]) < limit
  {
    assert Candidate(env, m, rk, d.key);
  }

  lemma UsableAfter(env: Environment, purpose: string, m: World, rks: seq<Key>, k: Key, c: Cluster)
    requires Usable(env, purpose, m, rks) && Ready(env, purpose, rks, k, c) && c.spec.tenancy == Shared
    ensures Usable(env, purpose, m.(clusters := m.clusters[k := c]), rks)
  {
    hide Ready;
  }

  lemma UsableAt(env: Environment, purpose: string, m: World, rks: seq<Key>, k: Key)
    requires Usable(env, purpose, m, rks) && k in m.clusters
    ensures Ready(env, purpose, rks, k, m.clusters[k]) && m.clusters[k].spec.tenancy == Shared
  {
    hide Ready;
  }

  lemma NotPlaced(clusters: map<Key, Cluster>, uid: string)
    requires forall k :: k in clusters ==> uid !in RequestUIDs(clusters[k])
    ensures uid !in PlacedUIDs(clusters)
  {
  }

  lemma JoinStaysThrifty(env: Environment, purpose: string, w0: World, m: World, rks: seq<Key>, last: Key, rk: Key, d: Decision,
                         clusters: map<Key, Cluster>)
    requires Alike(env, purpose, w0, rks) && Thrifty(env, purpose, w0, m, rks, last) && Inv(env, m)
    requires rk in rks && rk in m.requests && d.Join? && d.key in m.clusters && Decides(env, m, rk, d)
    requires clusters == AfterClusterWrites(m, rk, d, 1)
    ensures Usable(env, purpose, m.(clusters := clusters), rks)
    ensures Economical(env.config.purposeMappings[purpose].tenancyCount, clusters, |PlacedUIDs(clusters)|, last)
    ensures PlacedUIDs(clusters) <= UIDsOf(w0, rks)
  {
    hide Inv, Sound, Decides, Selects, PlacedUIDs, Economical, Ready, Relevant, Usable;
    var uid, c := m.requests[rk].spec.uid, m.clusters[d.key];
    assert rk in w0.requests && m.requests[rk].spec.purpose == purpose;
    UnplacedIsNotCarried(env, m, rk, d);
    JoinedHasRoom(env, purpose, m, rk, d);
    UIDsWith(c, uid);
    NotPlaced(m.clusters, uid);
    PlacingCounts(m.clusters, d.key, WithRequest(c, uid), uid);
    JoiningIsEconomical(env.config.purposeMappings[purpose].tenancyCount, m.clusters, |PlacedUIDs(m.clusters)|, last, d.key, WithRequest(c, uid));
    UsableAt(env, purpose, m, rks, d.key);
    JoinKeepsReady(env, purpose, rks, d.key, c, uid);
    UsableAfter(env, purpose, m, rks, d.key, WithRequest(c, uid));
  }

  lemma CreateStaysThrifty(env: Environment, purpose: string, w0: World, m: World, rks: seq<Key>, last: Key, rk: Key, d: Decision,
                           clusters: map<Key, Cluster>)
    requires Alike(env, purpose, w0, rks) && Thrifty(env, purpose, w0, m, rks, last) && Inv(env, m)
    requires rk in rks && rk in m.requests && REQUEST_FINALIZER in m.requests[rk].finalizers && d.Create? && Decides(env, m, rk, d)
    requires clusters == AfterClusterWrites(m, rk, d, 1)
    ensures Usable(env, purpose, m.(clusters := clusters), rks)
    ensures Economical(env.config.purposeMappings[purpose].tenancyCount, clusters, |PlacedUIDs(clusters)|, d.key)
    ensures PlacedUIDs(clusters) <= UIDsOf(w0, rks)
  {
    hide Inv, Sound, Decides, PlacedUIDs, Economical, Ready, Relevant, Matches, Usable, Places, NewCluster;
    var r, definition := m.requests[rk], env.config.purposeMappings[purpose];
    assert rk in w0.requests && r.spec.purpose == purpose;
    UnplacedIsNotCarried(env, m, rk, d);
    CreatedByPlacing(env, m, rk, d);
    OnlyRequest(d.cluster, r.spec.uid);
    NotPlaced(m.clusters, r.spec.uid);
    forall k | k in m.clusters ensures definition.tenancyCount > 0 && TenancyCount(m.clusters[k]) >= definition.tenancyCount {
      UsableAt(env, purpose, m, rks, k);
      NobodyHasRoom(env, purpose, m, rks, rk, d, k);
    }
    PlacingCounts(m.clusters, d.key, d.cluster, r.spec.uid);
    CreatingIsEconomical(definition.tenancyCount, m.clusters, |PlacedUIDs(m.clusters)|, last, d.key, d.cluster);
    var n :| 0 <= n < |rks| && rks[n] == rk;
    CreatedIsReady(env, purpose, w0, rks, n, r, d.key);
    UsableAfter(env, purpose, m, rks, d.key, d.cluster);
  }

  lemma CreatedByPlacing(env: Environment, m: World, rk: Key, d: Decision)
    requires rk in m.requests && m.requests[rk].spec.purpose in env.config.purposeMappings && m.requests[rk].spec.cluster == None
    requires Places(env, m, rk, d) && d.Create?
    ensures var definition := env.config.purposeMappings[m.requests[rk].spec.purpose];
            && d.key !in m.clusters && d.cluster == NewCluster(m.requests[rk], definition)
            && d.key.namespace == ChooseNamespace(rk, definition, None)
            && d.cluster.spec.tenancy == definition.template.spec.tenancy
            && d.cluster.finalizers == [FinalizerForCluster(m.requests[rk].spec.uid)]
  {
  }

  /** A pass, whichever of its calls fail, keeps the clusters thrifty. */
  lemma PassStaysThrifty(env: Environment, purpose: string, w0: World, w: World, rks: seq<Key>, last: Key, e: Event, w': World)
    returns (next: Key)
    requires Alike(env, purpose, w0, rks) && Thrifty(env, purpose, w0, w, rks, last) && Inv(env, w)
    requires Next(env, w, e, w') && e.Schedule? && e.request in rks
    ensures Thrifty(env, purpose, w0, w', rks, next)
  {
    hide Inv, Sound, Decides, Economical, PlacedUIDs, Ready, Usable, Marked;
    var rk, m := e.request, Marked(w, e.request);
    MarkingKeepsInv(env, w, rk);
    MarkedIsKept(w0, w, rks, rk);
    SameClustersUsable(env, purpose, w, m, rks);
    ScheduleIsOutcome(env, w, e, w');
    UsableHasRequests(env, purpose, m, rks);
    OnlyPlacingChanges(env, m, rk, e.decision, e.writes);
    next := last;
    SameClustersUsable(env, purpose, m, m.(requests := w'.requests), rks);
    if w'.clusters != m.clusters {
      if e.decision.Join? {
        JoinStaysThrifty(env, purpose, w0, m, rks, last, rk, e.decision, w'.clusters);
        SameClustersUsable(env, purpose, m.(clusters := w'.clusters), w', rks);
      } else {
        CreateStaysThrifty(env, purpose, w0, m, rks, last, rk, e.decision, w'.clusters);
        SameClustersUsable(env, purpose, m.(clusters := w'.clusters), w', rks);
        next := e.decision.key;
      }
    }
  }

  lemma UsableHasRequests(env: Environment, purpose: string, w: World, rks: seq<Key>)
    requires Usable(env, purpose, w, rks)
    ensures forall k :: k in w.clusters ==> w.clusters[k].spec.tenancy == Shared && TenancyCount(w.clusters[k]) >= 1
  {
  }

  lemma ScheduleIsOutcome(env: Environment, w: World, e: Event, w': World)
    requires Next(env, w, e, w') && e.Schedule?
    ensures
      var rk, d, m := e.request, e.decision, Marked(w, e.request);
      && (d == Reject(ApiFault) || Decides(env, m, rk, d)) && e.writes <= ClusterWrites(d)
      && (d.Keep? || d.Join? ==> d.key in m.clusters)
      && w'.clusters == AfterClusterWrites(m, rk, d, e.writes)
      && w'.requests in {m.requests, WithStatus(m.requests, rk, e.result.ref)}
      && !m.requests[rk].deleting
  {
    hide Decides;
  }

  // ---------- runs ----------

  ghost predicate ThriftyAt(env: Environment, purpose: string, ws: seq<World>, rks: seq<Key>, i: nat, last: Key) {
    i < |ws| && Alike(env, purpose, ws[0], rks) && Thrifty(env, purpose, ws[0], ws[i], rks, last)
  }

  lemma ThriftyAtFirst(env: Environment, purpose: string, w: World, rks: seq<Key>, last: Key)
    requires Alike(env, purpose, w, rks) && w.clusters == map[]
    ensures Thrifty(env, purpose, w, w, rks, last)
  {
    assert PlacedUIDs(map[]) == {};
  }

  lemma {:induction false} RetriesStayThrifty(env: Environment, purpose: string, ws: seq<World>, es: seq<Event>, rks: seq<Key>, i: nat)
    returns (last: Key)
    requires Retries(env, ws, es, rks) && i < |ws| && Inv(env, ws[0])
    requires Alike(env, purpose, ws[0], rks) && ws[0].clusters == map[]
    ensures ThriftyAt(env, purpose, ws, rks, i, last)
  {
    hide Thrifty, Alike, Inv;
    if i == 0 {
      last := Key("", "");
      ThriftyAtFirst(env, purpose, ws[0], rks, last);
    } else {
      var before := RetriesStayThrifty(env, purpose, ws, es, rks, i - 1);
      last := OneMore(env, purpose, ws, es, rks, i - 1, before);
    }
  }

  lemma OneMore(env: Environment, purpose: string, ws: seq<World>, es: seq<Event>, rks: seq<Key>, i: nat, before: Key)
    returns (last: Key)
    requires Retries(env, ws, es, rks) && i < |es| && Inv(env, ws[0]) && ThriftyAt(env, purpose, ws, rks, i, before)
    ensures ThriftyAt(env, purpose, ws, rks, i + 1, last)
  {
    hide Inv, Thrifty;
    RunKeepsInv(env, ws, es, i);
    RunAt(env, ws, es, i);
    last := PassStaysThrifty(env, purpose, ws[0], ws[i], rks, before, es[i], ws[i + 1]);
  }

  lemma {:induction false} AsManyUIDs(w: World, rks: seq<Key>)
    requires DistinctUIDs(w) && (forall rk :: rk in rks ==> rk in w.requests)
    requires forall i, j :: 0 <= i < j < |rks| ==> rks[i] != rks[j]
    ensures |UIDsOf(w, rks)| == |rks|
  {
    if rks == [] {
      assert UIDsOf(w, rks) == {};
    } else {
      var rest, rk := rks[1..], rks[0];
      assert forall x :: x in rest ==> x in rks;
      AsManyUIDs(w, rest);
      forall u ensures u in UIDsOf(w, rks) <==> u in UIDsOf(w, rest) + {w.requests[rk].spec.uid} {
      }
      assert UIDsOf(w, rks) == UIDsOf(w, rest) + {w.requests[rk].spec.uid};
    }
  }

  /** All requests that are granted are placed. */
  lemma AllGrantedAllPlaced(env: Environment, w0: World, w: World, rks: seq<Key>)
    requires Inv(env, w) && Kept(w0, w, rks) && forall rk :: rk in rks ==> rk in w0.requests && Granted(w, rk)
    ensures UIDsOf(w0, rks) <= PlacedUIDs(w.clusters)
  {
    forall u | u in UIDsOf(w0, rks) ensures u in PlacedUIDs(w.clusters) {
      var rk :| rk in rks && rk in w0.requests && w0.requests[rk].spec.uid == u;
      var k := w.requests[rk].spec.cluster.value;
      ReferredIsPlaced(env, w, rk, k);
      assert k in w.clusters && u in RequestUIDs(w.clusters[k]);
    }
  }

  lemma ReferredIsPlaced(env: Environment, w: World, rk: Key, k: Key)
    requires Inv(env, w) && rk in w.requests && !w.requests[rk].deleting && w.requests[rk].spec.cluster == Some(k)
    ensures k in w.clusters && w.requests[rk].spec.uid in RequestUIDs(w.clusters[k])
  {
  }

  /** Starting without clusters, in every state of every run of passes over the requests of one purpose, in
      any order, repeated at will, with any calls failing, and whatever names clusters are given: there are as
      few clusters as can carry the requests that have been placed, all of them full except for at most one.
      Once all requests are granted, these are all of them. */
  lemma RetriesPackOptimally(env: Environment, purpose: string, ws: seq<World>, es: seq<Event>, rks: seq<Key>, i: nat)
    returns (last: Key)
    requires Retries(env, ws, es, rks) && i < |ws| && Inv(env, ws[0])
    requires Alike(env, purpose, ws[0], rks) && ws[0].clusters == map[] && env.config.purposeMappings[purpose].tenancyCount > 0
    ensures
      var limit, clusters := env.config.purposeMappings[purpose].tenancyCount, ws[i].clusters;
      && |clusters| == ClustersNeeded(|PlacedUIDs(clusters)|, limit)
      && (forall k :: k in clusters && k != last ==> TenancyCount(clusters[k]) == limit)
      && (forall k :: k in clusters ==> 1 <= TenancyCount(clusters[k]) <= limit)
      && ((forall rk :: rk in rks ==> Granted(ws[i], rk)) ==> |PlacedUIDs(clusters)| == |rks|)
  {
    hide Inv, Sound, Relevant;
    last := RetriesStayThrifty(env, purpose, ws, es, rks, i);
    var limit, clusters := env.config.purposeMappings[purpose].tenancyCount, ws[i].clusters;
    UsableHasRequests(env, purpose, ws[i], rks);
    FilledNeedsNoMore(limit, clusters, |PlacedUIDs(clusters)|, last);
    if forall rk :: rk in rks ==> Granted(ws[i], rk) {
      EveryonePlaced(env, purpose, ws, es, rks, i);
    }
  }

  lemma EveryonePlaced(env: Environment, purpose: string, ws: seq<World>, es: seq<Event>, rks: seq<Key>, i: nat)
    requires Retries(env, ws, es, rks) && i < |ws| && Inv(env, ws[0])
    requires Alike(env, purpose, ws[0], rks) && ws[0].clusters == map[]
    requires forall rk :: rk in rks ==> Granted(ws[i], rk)
    ensures |PlacedUIDs(ws[i].clusters)| == |rks|
  {
    hide Sound, Economical, Usable, PlacedUIDs;
    var last := RetriesStayThrifty(env, purpose, ws, es, rks, i);
    RunKeepsInv(env, ws, es, i);
    AllGrantedAllPlaced(env, ws[0], ws[i], rks);
    AsManyUIDs(ws[0], rks);
    assert PlacedUIDs(ws[i].clusters) == UIDsOf(ws[0], rks);
  }

  /** Without a limit there is never more than one cluster, and all requests that are granted refer to it. */
  lemma RetriesShareOneCluster(env: Environment, purpose: string, ws: seq<World>, es: seq<Event>, rks: seq<Key>, i: nat)
    returns (only: Key)
    requires Retries(env, ws, es, rks) && i < |ws| && Inv(env, ws[0])
    requires Alike(env, purpose, ws[0], rks) && ws[0].clusters == map[] && env.config.purposeMappings[purpose].tenancyCount == 0
    ensures ws[i].clusters.Keys <= {only}
    ensures forall rk :: rk in rks && Granted(ws[i], rk) ==> ws[i].requests[rk].spec.cluster == Some(only)
  {
    hide Sound, Inv, Usable, PlacedUIDs;
    only := RetriesStayThrifty(env, purpose, ws, es, rks, i);
    RunKeepsInv(env, ws, es, i);
    forall rk | rk in rks && Granted(ws[i], rk) ensures ws[i].requests[rk].spec.cluster == Some(only) {
      ReferredIsPlaced(env, ws[i], rk, ws[i].requests[rk].spec.cluster.value);
    }
  }
}
