/** How requests spread over clusters: full packing under a tenancy limit, a single cluster without one,
    and balance. */
module SchedulerPacking {
  import opened Kube
  import opened LabelSelectors
  import opened SchedulerConfiguration
  import opened SchedulerModel
  import opened SchedulerRuns
  import opened SchedulerSafety

  /** Different live requests of one shared purpose, without references, that look for clusters in the
      same place. */
  ghost predicate Alike(env: Environment, purpose: string, w: World, rks: seq<Key>) {
    && Sound(env.config) && !env.config.strategy.OtherStrategy?
    && purpose in env.config.purposeMappings
    && var d := env.config.purposeMappings[purpose];
    && d.template.spec.tenancy == Shared
    && (forall a, b :: a in rks && b in rks ==> ListNamespace(env.config, d, a.namespace) == ListNamespace(env.config, d, b.namespace))
    && (forall i, j :: 0 <= i < j < |rks| ==> rks[i] != rks[j])
    && (forall rk :: rk in rks ==>
          && rk in w.requests && !w.requests[rk].deleting
          && w.requests[rk].spec.purpose == purpose && w.requests[rk].spec.cluster == None)
  }

  /** Such requests that, in addition, are given different deterministic names. */
  ghost predicate Batch(env: Environment, purpose: string, w: World, rks: seq<Key>) {
    && Alike(env, purpose, w, rks)
    && var d := env.config.purposeMappings[purpose];
    && (forall rk :: rk in rks ==>
          && !HasLabel(w.requests[rk].labels, RANDOMIZE_CLUSTER_NAME_LABEL, "true")
          && env.suffix(rk, NameRoom(d, purpose)).Some?)
    && (forall a, b :: a in rks && b in rks && env.suffix(a, NameRoom(d, purpose)) == env.suffix(b, NameRoom(d, purpose)) ==> a == b)
  }

  function NamePrefix(d: Definition, purpose: string): string {
    if d.template.generateName != "" then d.template.generateName else purpose + "-"
  }

  function NameRoom(d: Definition, purpose: string): int {
    MAX_NAME_LENGTH - |NamePrefix(d, purpose)|
  }

  /** The name a cluster gets if it is created for the request. */
  function GivenKey(env: Environment, purpose: string, rk: Key): Key
    requires purpose in env.config.purposeMappings
    requires env.suffix(rk, NameRoom(env.config.purposeMappings[purpose], purpose)).Some?
  {
    var d := env.config.purposeMappings[purpose];
    Key(ChooseNamespace(rk, d, None), NamePrefix(d, purpose) + env.suffix(rk, NameRoom(d, purpose)).value)
  }

  /** Passes without failing calls over the requests of the batch, one after the other. */
  ghost predicate Passes(env: Environment, ws: seq<World>, es: seq<Event>, rks: seq<Key>) {
    && |es| == |rks| && Run(env, ws, es)
    && forall i {:trigger es[i]} :: 0 <= i < |rks| ==> es[i].Schedule? && es[i].request == rks[i] && es[i].faultFree
  }

  // ---------- the packing invariant ----------

  /** The cluster carries at least one request, and is a candidate for everyone in the batch as long as it
      has room. */
  ghost predicate Ready(env: Environment, purpose: string, rks: seq<Key>, k: Key, c: Cluster) {
    && !c.deleting && TenancyCount(c) >= 1
    && (forall rk :: rk in rks ==> Relevant(env.config, purpose, rk.namespace, k, c))
  }

  /** The names for the requests that have not had their pass yet are not in use. */
  ghost predicate NamesFree(env: Environment, purpose: string, w: World, rks: seq<Key>, n: nat)
    requires purpose in env.config.purposeMappings
    requires forall rk :: rk in rks ==> env.suffix(rk, NameRoom(env.config.purposeMappings[purpose], purpose)).Some?
  {
    forall j :: n <= j < |rks| ==> GivenKey(env, purpose, rks[j]) !in w.clusters
  }

  /** The requests that have not had their pass yet are as they were and on no cluster. */
  ghost predicate Waiting(w0: World, w: World, rks: seq<Key>, n: nat)
    requires forall rk :: rk in rks ==> rk in w0.requests
  {
    forall j :: n <= j < |rks| ==>
      && rks[j] in w.requests && w.requests[rks[j]] == w0.requests[rks[j]]
      && forall k :: k in w.clusters ==> w.requests[rks[j]].spec.uid !in RequestUIDs(w.clusters[k])
  }

  /** How many requests the given number of full clusters carry. */
  function Carried(clusters: nat, limit: nat): nat {
    if clusters == 0 then 0 else limit + Carried(clusters - 1, limit)
  }

  /** After `n` passes all clusters are full, except perhaps `last`, and they carry `n` requests. */
  ghost predicate Filled(limit: nat, clusters: map<Key, Cluster>, n: nat, last: Key) {
    && (n == 0 <==> clusters == map[])
    && (n > 0 ==>
          && last in clusters
          && TenancyCount(clusters[last]) <= limit
          && (forall k :: k in clusters && k != last ==> TenancyCount(clusters[k]) == limit)
          && |clusters| >= 1 && n == Carried(|clusters| - 1, limit) + TenancyCount(clusters[last]))
  }

  ghost predicate Packed(env: Environment, purpose: string, w0: World, w: World, rks: seq<Key>, n: nat, last: Key)
    requires Batch(env, purpose, w0, rks) && n <= |rks|
    requires env.config.purposeMappings[purpose].tenancyCount > 0
  {
    && (forall k :: k in w.clusters ==> Ready(env, purpose, rks, k, w.clusters[k]))
    && Waiting(w0, w, rks, n)
    && NamesFree(env, purpose, w, rks, n)
    && Filled(env.config.purposeMappings[purpose].tenancyCount, w.clusters, n, last)
  }

  // ---------- what a pass decides in a packed state ----------

  /** Whether a cluster is a candidate for the next request depends only on its room. */
  lemma CandidateIffRoom(env: Environment, purpose: string, w0: World, w: World, rks: seq<Key>, n: nat, last: Key, k: Key)
    requires Batch(env, purpose, w0, rks) && n < |rks| && env.config.purposeMappings[purpose].tenancyCount > 0
    requires Packed(env, purpose, w0, w, rks, n, last)
    ensures Candidate(env, Marked(w, rks[n]), rks[n], k) <==>
            n > 0 && k == last && TenancyCount(w.clusters[k]) < env.config.purposeMappings[purpose].tenancyCount
  {
    var m, rk := Marked(w, rks[n]), rks[n];
    assert m.clusters == w.clusters && m.requests[rk].spec == w0.requests[rk].spec;
    if k in w.clusters {
      assert Ready(env, purpose, rks, k, w.clusters[k]);
    }
  }

  /** The next request is on no cluster. */
  lemma NothingHeld(env: Environment, purpose: string, w0: World, w: World, rks: seq<Key>, n: nat, k: Key)
    requires Alike(env, purpose, w0, rks) && n < |rks| && Waiting(w0, w, rks, n)
    ensures !HoldsRequest(env, Marked(w, rks[n]), rks[n], k)
  {
    if k in w.clusters {
      UIDIn(w.clusters[k], w.requests[rks[n]].spec.uid);
    }
  }

  /** A request of the batch without reference and without candidates is given a cluster of its own. */
  lemma PlacesOwnCluster(env: Environment, purpose: string, w: World, rk: Key, d: Decision)
    requires rk in w.requests && Places.requires(env, w, rk, d) && Places(env, w, rk, d)
    requires w.requests[rk].spec.purpose == purpose && w.requests[rk].spec.cluster == None
    requires purpose in env.config.purposeMappings && env.config.purposeMappings[purpose].tenancyCount > 0
    requires !HasLabel(w.requests[rk].labels, RANDOMIZE_CLUSTER_NAME_LABEL, "true")
    requires env.suffix(rk, NameRoom(env.config.purposeMappings[purpose], purpose)).Some?
    requires GivenKey(env, purpose, rk) !in w.clusters
    ensures d == Create(GivenKey(env, purpose, rk), NewCluster(w.requests[rk], env.config.purposeMappings[purpose]))
  {
  }

  /** A request that no cluster carries joins the only candidate there is. */
  lemma JoinsOnlyCandidate(env: Environment, w: World, rk: Key, last: Key, d: Decision)
    requires rk in w.requests && w.requests[rk].spec.cluster == None && w.requests[rk].spec.purpose in env.config.purposeMappings
    requires env.config.purposeMappings[w.requests[rk].spec.purpose].template.spec.tenancy == Shared
    requires forall k :: !HoldsRequest(env, w, rk, k)
    requires forall k :: Candidate(env, w, rk, k) <==> k == last
    requires Decides(env, w, rk, d)
    ensures d == Join(last)
  {
    assert Candidate(env, w, rk, last);
  }

  lemma PlacedWithoutCandidates(env: Environment, w: World, rk: Key, d: Decision)
    requires rk in w.requests && w.requests[rk].spec.cluster == None && w.requests[rk].spec.purpose in env.config.purposeMappings
    requires forall k :: !HoldsRequest(env, w, rk, k) && !Candidate(env, w, rk, k)
    requires Decides(env, w, rk, d)
    ensures Places(env, w, rk, d)
  {
  }

  /** There is room exactly if `last` is not full. */
  predicate HasRoom(limit: nat, w: World, n: nat, last: Key) {
    n > 0 && last in w.clusters && TenancyCount(w.clusters[last]) < limit
  }

  lemma WithRoomJoinsLast(env: Environment, purpose: string, w0: World, w: World, rks: seq<Key>, n: nat, last: Key, d: Decision)
    requires Batch(env, purpose, w0, rks) && n < |rks| && env.config.purposeMappings[purpose].tenancyCount > 0
    requires Packed(env, purpose, w0, w, rks, n, last)
    requires Decides(env, Marked(w, rks[n]), rks[n], d)
    requires HasRoom(env.config.purposeMappings[purpose].tenancyCount, w, n, last)
    ensures d == Join(last)
  {
    var m, rk := Marked(w, rks[n]), rks[n];
    forall k ensures !HoldsRequest(env, m, rk, k) && (Candidate(env, m, rk, k) <==> k == last) {
      NothingHeld(env, purpose, w0, w, rks, n, k);
      CandidateIffRoom(env, purpose, w0, w, rks, n, last, k);
    }
    WaitingRequest(env, purpose, w0, w, rks, n);
    JoinsOnlyCandidate(env, m, rk, last, d);
  }

  lemma WithoutRoomCreates(env: Environment, purpose: string, w0: World, w: World, rks: seq<Key>, n: nat, last: Key, d: Decision)
    requires Batch(env, purpose, w0, rks) && n < |rks| && env.config.purposeMappings[purpose].tenancyCount > 0
    requires Packed(env, purpose, w0, w, rks, n, last)
    requires Decides(env, Marked(w, rks[n]), rks[n], d)
    requires !HasRoom(env.config.purposeMappings[purpose].tenancyCount, w, n, last)
    ensures d == Create(GivenKey(env, purpose, rks[n]), NewCluster(Marked(w, rks[n]).requests[rks[n]], env.config.purposeMappings[purpose]))
    ensures d.key !in w.clusters
  {
    var m, rk := Marked(w, rks[n]), rks[n];
    forall k ensures !HoldsRequest(env, m, rk, k) && !Candidate(env, m, rk, k) {
      NothingHeld(env, purpose, w0, w, rks, n, k);
      CandidateIffRoom(env, purpose, w0, w, rks, n, last, k);
    }
    WaitingRequest(env, purpose, w0, w, rks, n);
    PlacedWithoutCandidates(env, m, rk, d);
    PlacesOwnCluster(env, purpose, m, rk, d);
  }

  /** What is known about the next request. */
  lemma WaitingRequest(env: Environment, purpose: string, w0: World, w: World, rks: seq<Key>, n: nat)
    requires Batch(env, purpose, w0, rks) && n < |rks| && Waiting(w0, w, rks, n)
    ensures
      var rk, d := rks[n], env.config.purposeMappings[purpose];
      && rk in w.requests && w.requests[rk].spec.purpose == purpose && w.requests[rk].spec.cluster == None
      && !w.requests[rk].deleting
      && !HasLabel(w.requests[rk].labels, RANDOMIZE_CLUSTER_NAME_LABEL, "true")
      && d.template.spec.tenancy == Shared && env.suffix(rk, NameRoom(d, purpose)).Some?
  {
    assert rks[n] in rks;
  }

  lemma SameGivenKey(env: Environment, purpose: string, a: Key, b: Key)
    requires purpose in env.config.purposeMappings
    requires var room := NameRoom(env.config.purposeMappings[purpose], purpose); env.suffix(a, room).Some? && env.suffix(b, room).Some?
    requires GivenKey(env, purpose, a).name == GivenKey(env, purpose, b).name
    ensures var room := NameRoom(env.config.purposeMappings[purpose], purpose); env.suffix(a, room) == env.suffix(b, room)
  {
    var d := env.config.purposeMappings[purpose];
    PrefixInjective(NamePrefix(d, purpose), env.suffix(a, NameRoom(d, purpose)).value, env.suffix(b, NameRoom(d, purpose)).value);
  }

  // ---------- one pass keeps the clusters packed ----------

  /** A pass without failing calls grants the request. */
  lemma PassGrants(env: Environment, w: World, e: Event, w': World, key: Key)
    requires e.Schedule? && Next(env, w, e, w') && e.faultFree
    requires e.decision.Join? || e.decision.Create?
    requires e.decision.Join? ==> e.decision.key in w.clusters && !w.clusters[e.decision.key].deleting
    requires key == e.decision.key
    ensures e.result == PassResult(Some(key), None)
    ensures w'.requests == WithStatus(Marked(w, e.request).requests, e.request, Some(key))
    ensures w'.clusters == w.clusters[key :=
              if e.decision.Create? then e.decision.cluster else WithRequest(w.clusters[key], w.requests[e.request].spec.uid)]
  {
  }

  /** Request `rk`, which no cluster carried, now is on `key`; all other requests and clusters are as before. */
  ghost predicate Placed(w: World, rk: Key, key: Key, c: Cluster, w': World) {
    && rk in w.requests
    && w'.clusters == w.clusters[key := c]
    && RequestUIDs(c) == CarriedBy(w, key) + {w.requests[rk].spec.uid}
    && w.requests[rk].spec.uid !in CarriedBy(w, key)
    && rk in w'.requests && w'.requests[rk].spec.cluster == Some(key)
    && forall x :: x != rk ==> At(w'.requests, x) == At(w.requests, x)
  }

  lemma PlacedKeepsWaiting(env: Environment, w0: World, w: World, rks: seq<Key>, n: nat, key: Key, c: Cluster, w': World)
    requires forall rk :: rk in rks ==> rk in w0.requests
    requires forall i, j :: 0 <= i < j < |rks| ==> rks[i] != rks[j]
    requires n < |rks| && Waiting(w0, w, rks, n) && DistinctUIDs(w) && Placed(w, rks[n], key, c, w')
    ensures Waiting(w0, w', rks, n + 1)
  {
    forall j | n + 1 <= j < |rks|
      ensures rks[j] in w'.requests && w'.requests[rks[j]] == w0.requests[rks[j]]
      ensures forall k :: k in w'.clusters ==> w'.requests[rks[j]].spec.uid !in RequestUIDs(w'.clusters[k])
    {
      assert rks[n] != rks[j];
      assert At(w'.requests, rks[j]) == At(w.requests, rks[j]);
      forall k | k in w'.clusters ensures w'.requests[rks[j]].spec.uid !in RequestUIDs(w'.clusters[k]) {
        assert rks[n] in w.requests && rks[j] in w.requests;
        assert w.requests[rks[n]].spec.uid != w.requests[rks[j]].spec.uid;
      }
    }
  }

  lemma JoinKeepsFilled(limit: nat, clusters: map<Key, Cluster>, n: nat, last: Key, c: Cluster)
    requires Filled(limit, clusters, n, last) && n > 0
    requires TenancyCount(c) == TenancyCount(clusters[last]) + 1 <= limit
    ensures Filled(limit, clusters[last := c], n + 1, last)
  {
    assert clusters[last := c].Keys == clusters.Keys;
  }

  lemma CreateKeepsFilled(limit: nat, clusters: map<Key, Cluster>, n: nat, last: Key, key: Key, c: Cluster)
    requires Filled(limit, clusters, n, last) && limit > 0
    requires n > 0 ==> TenancyCount(clusters[last]) == limit
    requires key !in clusters && TenancyCount(c) == 1
    ensures Filled(limit, clusters[key := c], n + 1, key)
  {
    var after := clusters[key := c];
    assert after.Keys == clusters.Keys + {key};
    assert |after| == |clusters| + 1;
    assert n == 0 ==> |clusters| == 0;
  }

  lemma JoinKeepsReady(env: Environment, purpose: string, rks: seq<Key>, k: Key, c: Cluster, uid: string)
    requires Ready(env, purpose, rks, k, c)
    ensures Ready(env, purpose, rks, k, WithRequest(c, uid))
  {
    UIDsWith(c, uid);
    SubsetCardinality(RequestUIDs(c), RequestUIDs(WithRequest(c, uid)));
    forall rk | rk in rks ensures Relevant(env.config, purpose, rk.namespace, k, WithRequest(c, uid)) {
      assert Relevant(env.config, purpose, rk.namespace, k, c);
    }
  }

  lemma CreatedIsReady(env: Environment, purpose: string, w0: World, rks: seq<Key>, n: nat, r: ClusterRequest, k: Key)
    requires Alike(env, purpose, w0, rks) && n < |rks| && r.spec.purpose == purpose
    requires k.namespace == ChooseNamespace(rks[n], env.config.purposeMappings[purpose], None)
    ensures Ready(env, purpose, rks, k, NewCluster(r, env.config.purposeMappings[purpose]))
  {
    var d := env.config.purposeMappings[purpose];
    var c := NewCluster(r, d);
    OnlyRequest(c, r.spec.uid);
    NewClusterIsRelevant(env, rks[n], r, k);
    assert rks[n] in rks;
    forall rk | rk in rks ensures Relevant(env.config, purpose, rk.namespace, k, c) {
      assert ListNamespace(env.config, d, rk.namespace) == ListNamespace(env.config, d, rks[n].namespace);
    }
  }

  /** The cluster that the next pass fills. */
  function NextLast(env: Environment, purpose: string, w: World, rks: seq<Key>, n: nat, last: Key): Key
    requires purpose in env.config.purposeMappings && env.config.purposeMappings[purpose].tenancyCount > 0 && n < |rks|
    requires env.suffix(rks[n], NameRoom(env.config.purposeMappings[purpose], purpose)).Some?
  {
    if HasRoom(env.config.purposeMappings[purpose].tenancyCount, w, n, last) then last
    else GivenKey(env, purpose, rks[n])
  }

  lemma JoinPlaces(env: Environment, w: World, e: Event, w': World, last: Key)
    requires e.Schedule? && Next(env, w, e, w') && e.faultFree && e.decision == Join(last)
    requires last in w.clusters && !w.clusters[last].deleting && w.requests[e.request].spec.uid !in RequestUIDs(w.clusters[last])
    ensures Placed(w, e.request, last, WithRequest(w.clusters[last], w.requests[e.request].spec.uid), w')
  {
    PassGrants(env, w, e, w', last);
    UIDsWith(w.clusters[last], w.requests[e.request].spec.uid);
  }

  lemma CreatePlaces(env: Environment, w: World, e: Event, w': World, key: Key, d: Definition)
    requires e.Schedule? && Next(env, w, e, w') && e.faultFree
    requires e.decision == Create(key, NewCluster(Marked(w, e.request).requests[e.request], d)) && key !in w.clusters
    ensures Placed(w, e.request, key, NewCluster(Marked(w, e.request).requests[e.request], d), w')
  {
    PassGrants(env, w, e, w', key);
    OnlyRequest(e.decision.cluster, w.requests[e.request].spec.uid);
  }

  lemma EventDecides(env: Environment, w: World, e: Event, w': World)
    requires e.Schedule? && Next(env, w, e, w') && e.faultFree
    ensures Decides(env, Marked(w, e.request), e.request, e.decision)
  {
  }

  lemma LastIsUsable(env: Environment, purpose: string, w0: World, w: World, rks: seq<Key>, n: nat, last: Key)
    requires Batch(env, purpose, w0, rks) && n < |rks| && env.config.purposeMappings[purpose].tenancyCount > 0
    requires Packed(env, purpose, w0, w, rks, n, last)
    requires HasRoom(env.config.purposeMappings[purpose].tenancyCount, w, n, last)
    ensures rks[n] in w.requests && !w.clusters[last].deleting
    ensures w.requests[rks[n]].spec.uid !in RequestUIDs(w.clusters[last])
  {
    WaitingRequest(env, purpose, w0, w, rks, n);
    assert Ready(env, purpose, rks, last, w.clusters[last]);
  }

  /** The name used by the next request is not the name of a later one. */
  lemma NamesStayFree(env: Environment, purpose: string, w0: World, w: World, rks: seq<Key>, n: nat, w': World)
    requires Batch(env, purpose, w0, rks) && n < |rks| && NamesFree(env, purpose, w, rks, n)
    requires w'.clusters.Keys <= w.clusters.Keys + {GivenKey(env, purpose, rks[n])}
    ensures NamesFree(env, purpose, w', rks, n + 1)
  {
    forall j | n + 1 <= j < |rks| ensures GivenKey(env, purpose, rks[j]) !in w'.clusters {
      if GivenKey(env, purpose, rks[j]) == GivenKey(env, purpose, rks[n]) {
        SameGivenKey(env, purpose, rks[j], rks[n]);
        assert rks[j] in rks && rks[n] in rks;
      }
    }
  }

  lemma JoiningKeepsPacked(env: Environment, purpose: string, w0: World, w: World, rks: seq<Key>, n: nat, last: Key, w': World)
    requires Batch(env, purpose, w0, rks) && n < |rks| && env.config.purposeMappings[purpose].tenancyCount > 0
    requires Packed(env, purpose, w0, w, rks, n, last) && DistinctUIDs(w) && rks[n] in w.requests
    requires HasRoom(env.config.purposeMappings[purpose].tenancyCount, w, n, last)
    requires Placed(w, rks[n], last, WithRequest(w.clusters[last], w.requests[rks[n]].spec.uid), w')
    ensures Packed(env, purpose, w0, w', rks, n + 1, last)
  {
    hide DistinctUIDs, Ready;
    var uid := w.requests[rks[n]].spec.uid;
    PlacedKeepsWaiting(env, w0, w, rks, n, last, WithRequest(w.clusters[last], uid), w');
    JoinKeepsFilled(env.config.purposeMappings[purpose].tenancyCount, w.clusters, n, last, WithRequest(w.clusters[last], uid));
    JoinKeepsReady(env, purpose, rks, last, w.clusters[last], uid);
    NamesStayFree(env, purpose, w0, w, rks, n, w');
  }

  lemma ReadyAfterCreate(env: Environment, purpose: string, w0: World, clusters: map<Key, Cluster>, rks: seq<Key>, n: nat, r: ClusterRequest)
    requires Batch(env, purpose, w0, rks) && n < |rks| && r.spec.purpose == purpose
    requires forall k :: k in clusters ==> Ready(env, purpose, rks, k, clusters[k])
    ensures
      var after := clusters[GivenKey(env, purpose, rks[n]) := NewCluster(r, env.config.purposeMappings[purpose])];
      forall k :: k in after ==> Ready(env, purpose, rks, k, after[k])
  {
    CreatedIsReady(env, purpose, w0, rks, n, r, GivenKey(env, purpose, rks[n]));
  }

  lemma CreatingKeepsPacked(env: Environment, purpose: string, w0: World, w: World, rks: seq<Key>, n: nat, last: Key, w': World)
    requires Batch(env, purpose, w0, rks) && n < |rks| && env.config.purposeMappings[purpose].tenancyCount > 0
    requires Packed(env, purpose, w0, w, rks, n, last) && DistinctUIDs(w) && rks[n] in w.requests
    requires !HasRoom(env.config.purposeMappings[purpose].tenancyCount, w, n, last)
    requires GivenKey(env, purpose, rks[n]) !in w.clusters
    requires Placed(w, rks[n], GivenKey(env, purpose, rks[n]),
                    NewCluster(Marked(w, rks[n]).requests[rks[n]], env.config.purposeMappings[purpose]), w')
    ensures Packed(env, purpose, w0, w', rks, n + 1, GivenKey(env, purpose, rks[n]))
  {
    var r := Marked(w, rks[n]).requests[rks[n]];
    var key, c := GivenKey(env, purpose, rks[n]), NewCluster(r, env.config.purposeMappings[purpose]);
    PlacedKeepsWaiting(env, w0, w, rks, n, key, c, w');
    CreateKeepsFilled(env.config.purposeMappings[purpose].tenancyCount, w.clusters, n, last, key, c);
    WaitingRequest(env, purpose, w0, w, rks, n);
    ReadyAfterCreate(env, purpose, w0, w.clusters, rks, n, r);
    NamesStayFree(env, purpose, w0, w, rks, n, w');
  }

  lemma PassKeepsPacked(env: Environment, purpose: string, w0: World, w: World, rks: seq<Key>, n: nat, last: Key, e: Event, w': World)
    requires Batch(env, purpose, w0, rks) && n < |rks| && env.config.purposeMappings[purpose].tenancyCount > 0
    requires Packed(env, purpose, w0, w, rks, n, last) && DistinctUIDs(w)
    requires Next(env, w, e, w') && e.Schedule? && e.request == rks[n] && e.faultFree
    ensures Packed(env, purpose, w0, w', rks, n + 1, NextLast(env, purpose, w, rks, n, last))
    ensures Granted(w', rks[n])
  {
    EventDecides(env, w, e, w');
    if HasRoom(env.config.purposeMappings[purpose].tenancyCount, w, n, last) {
      WithRoomJoinsLast(env, purpose, w0, w, rks, n, last, e.decision);
      LastIsUsable(env, purpose, w0, w, rks, n, last);
      JoinPlaces(env, w, e, w', last);
      JoiningKeepsPacked(env, purpose, w0, w, rks, n, last, w');
    } else {
      WithoutRoomCreates(env, purpose, w0, w, rks, n, last, e.decision);
      CreatePlaces(env, w, e, w', GivenKey(env, purpose, rks[n]), env.config.purposeMappings[purpose]);
      CreatingKeepsPacked(env, purpose, w0, w, rks, n, last, w');
    }
  }

  /** The status of the request refers to a cluster. */
  predicate Granted(w: World, rk: Key) {
    rk in w.requests && w.requests[rk].spec.cluster.Some?
  }

  /** After its pass the `i`-th request of the batch has a cluster. */
  predicate GrantedAfter(ws: seq<World>, rks: seq<Key>, i: nat) {
    i < |rks| && i + 1 < |ws| && Granted(ws[i + 1], rks[i])
  }

  /** The clusters are packed after `n` passes. */
  ghost predicate PackedAt(env: Environment, purpose: string, ws: seq<World>, rks: seq<Key>, n: nat, last: Key) {
    && n <= |rks| && n < |ws|
    && Batch(env, purpose, ws[0], rks) && env.config.purposeMappings[purpose].tenancyCount > 0
    && Packed(env, purpose, ws[0], ws[n], rks, n, last)
  }

  lemma NextIsPacked(env: Environment, purpose: string, ws: seq<World>, es: seq<Event>, rks: seq<Key>, i: nat, last: Key)
    returns (next: Key)
    requires Passes(env, ws, es, rks) && i < |rks| && Inv(env, ws[0])
    requires PackedAt(env, purpose, ws, rks, i, last)
    ensures PackedAt(env, purpose, ws, rks, i + 1, next)
    ensures GrantedAfter(ws, rks, i)
  {
    RunKeepsInv(env, ws, es, i);
    RunAt(env, ws, es, i);
    PassKeepsPacked(env, purpose, ws[0], ws[i], rks, i, last, es[i], ws[i + 1]);
    next := NextLast(env, purpose, ws[i], rks, i, last);
  }

  lemma PassesKeepPacked(env: Environment, purpose: string, ws: seq<World>, es: seq<Event>, rks: seq<Key>, first: Key, n: nat)
    returns (last: Key)
    requires Passes(env, ws, es, rks) && n <= |rks| && Inv(env, ws[0])
    requires PackedAt(env, purpose, ws, rks, 0, first)
    ensures PackedAt(env, purpose, ws, rks, n, last)
  {
    last := first;
    for i := 0 to n
      invariant PackedAt(env, purpose, ws, rks, i, last)
    {
      last := NextIsPacked(env, purpose, ws, es, rks, i, last);
    }
  }

  lemma PackedAtFirst(env: Environment, purpose: string, w0: World, rks: seq<Key>, last: Key)
    requires Batch(env, purpose, w0, rks) && env.config.purposeMappings[purpose].tenancyCount > 0
    requires Inv(env, w0) && w0.clusters == map[]
    ensures Packed(env, purpose, w0, w0, rks, 0, last)
  {
    AllWait(env, purpose, w0, rks);
  }

  /** The smallest number of clusters of the given capacity that can carry `n` requests. */
  function ClustersNeeded(n: nat, capacity: nat): nat
    requires capacity > 0
  {
    (n + capacity - 1) / capacity
  }

  lemma FilledNeedsNoMore(limit: nat, clusters: map<Key, Cluster>, n: nat, last: Key)
    requires Filled(limit, clusters, n, last) && limit > 0
    requires n > 0 ==> TenancyCount(clusters[last]) >= 1
    ensures |clusters| == ClustersNeeded(n, limit)
  {
    if n == 0 {
      QuotientIs(n + limit - 1, limit, 0);
    } else {
      CarriedIsProduct(|clusters| - 1, limit);
      assert (|clusters| - 1) * limit + limit == |clusters| * limit;
      QuotientIs(n + limit - 1, limit, |clusters|);
    }
  }

  lemma {:induction false} CarriedIsProduct(clusters: nat, limit: nat)
    ensures Carried(clusters, limit) == clusters * limit
  {
    if clusters > 0 {
      CarriedIsProduct(clusters - 1, limit);
      assert clusters * limit == (clusters - 1) * limit + limit;
    }
  }

  lemma QuotientIs(x: nat, d: nat, q: nat)
    requires d > 0 && q * d <= x < q * d + d
    ensures x / d == q
  {
    var r := x / d;
    assert x == d * r + x % d;
    assert r < q ==> d * (r + 1) <= d * q;
    assert q < r ==> d * (q + 1) <= d * r;
  }

  /** Starting without clusters, passes over `n` requests of one purpose with a tenancy limit, in any order
      and with any known strategy, grant all of them, and lead to the smallest possible number of clusters:
      all of them are full, except for at most one. */
  lemma PackingIsOptimal(env: Environment, purpose: string, ws: seq<World>, es: seq<Event>, rks: seq<Key>)
    returns (last: Key)
    requires Passes(env, ws, es, rks)
    requires Batch(env, purpose, ws[0], rks) && env.config.purposeMappings[purpose].tenancyCount > 0
    requires Inv(env, ws[0]) && ws[0].clusters == map[]
    ensures
      var limit, clusters := env.config.purposeMappings[purpose].tenancyCount, ws[|rks|].clusters;
      && |clusters| == ClustersNeeded(|rks|, limit)
      && (forall k :: k in clusters && k != last ==> TenancyCount(clusters[k]) == limit)
      && (forall k :: k in clusters ==> 1 <= TenancyCount(clusters[k]) <= limit)
      && (forall i :: 0 <= i < |rks| ==> GrantedAfter(ws, rks, i))
  {
    var first := Key("", "");
    PackedAtFirst(env, purpose, ws[0], rks, first);
    forall i | 0 <= i < |rks| ensures GrantedAfter(ws, rks, i) {
      var before := PassesKeepPacked(env, purpose, ws, es, rks, first, i);
      var _ := NextIsPacked(env, purpose, ws, es, rks, i, before);
    }
    last := PassesKeepPacked(env, purpose, ws, es, rks, first, |rks|);
    var limit, w := env.config.purposeMappings[purpose].tenancyCount, ws[|rks|];
    forall k | k in w.clusters ensures 1 <= TenancyCount(w.clusters[k]) <= limit {
      assert Ready(env, purpose, rks, k, w.clusters[k]);
    }
    FilledNeedsNoMore(limit, w.clusters, |rks|, last);
  }

  // ---------- a single cluster without a limit ----------

  /** After `n` passes all requests are on one cluster. */
  ghost predicate OnOneCluster(env: Environment, purpose: string, w0: World, w: World, rks: seq<Key>, n: nat, only: Key)
    requires Alike(env, purpose, w0, rks)
  {
    && Waiting(w0, w, rks, n)
    && (n == 0 ==> w.clusters == map[])
    && (n > 0 ==> w.clusters.Keys == {only} && Ready(env, purpose, rks, only, w.clusters[only]))
  }

  /** A name can be given to every request. */
  ghost predicate Nameable(env: Environment, purpose: string, w: World, rks: seq<Key>)
    requires Alike(env, purpose, w, rks)
  {
    forall rk :: rk in rks ==> !ChooseName(env, rk, w.requests[rk], env.config.purposeMappings[purpose], None).NoName?
  }

  lemma FirstCreates(env: Environment, purpose: string, w0: World, w: World, rks: seq<Key>, d: Decision)
    requires Alike(env, purpose, w0, rks) && rks != [] && Nameable(env, purpose, w0, rks)
    requires Waiting(w0, w, rks, 0) && w.clusters == map[]
    requires Decides(env, Marked(w, rks[0]), rks[0], d)
    ensures d.Create? && d.cluster == NewCluster(Marked(w, rks[0]).requests[rks[0]], env.config.purposeMappings[purpose])
    ensures d.key.namespace == ChooseNamespace(rks[0], env.config.purposeMappings[purpose], None)
  {
    hide Decides;
    var m, rk := Marked(w, rks[0]), rks[0];
    assert rk in rks;
    assert m.requests[rk].spec == w0.requests[rk].spec && m.requests[rk].labels == w0.requests[rk].labels;
    assert ChooseName(env, rk, m.requests[rk], env.config.purposeMappings[purpose], None) ==
           ChooseName(env, rk, w0.requests[rk], env.config.purposeMappings[purpose], None);
    PlacedWithoutCandidates(env, m, rk, d);
  }

  lemma LaterJoins(env: Environment, purpose: string, w0: World, w: World, rks: seq<Key>, n: nat, only: Key, d: Decision)
    requires Alike(env, purpose, w0, rks) && 0 < n < |rks| && env.config.purposeMappings[purpose].tenancyCount == 0
    requires OnOneCluster(env, purpose, w0, w, rks, n, only)
    requires Decides(env, Marked(w, rks[n]), rks[n], d)
    ensures d == Join(only)
    ensures rks[n] in w.requests && w.requests[rks[n]].spec.uid !in RequestUIDs(w.clusters[only])
  {
    var m, rk := Marked(w, rks[n]), rks[n];
    assert rk in rks;
    assert m.requests[rk].spec == w0.requests[rk].spec;
    forall k ensures !HoldsRequest(env, m, rk, k) && (Candidate(env, m, rk, k) <==> k == only) {
      NothingHeld(env, purpose, w0, w, rks, n, k);
    }
    JoinsOnlyCandidate(env, m, rk, only, d);
  }

  lemma FirstPassOpensCluster(env: Environment, purpose: string, w0: World, w: World, rks: seq<Key>, e: Event, w': World)
    requires Alike(env, purpose, w0, rks) && rks != [] && Nameable(env, purpose, w0, rks)
    requires Waiting(w0, w, rks, 0) && w.clusters == map[] && DistinctUIDs(w)
    requires Next(env, w, e, w') && e.Schedule? && e.request == rks[0] && e.faultFree
    ensures e.decision.Create? && OnOneCluster(env, purpose, w0, w', rks, 1, e.decision.key)
    ensures e.result == PassResult(Some(e.decision.key), None)
  {
    EventDecides(env, w, e, w');
    FirstCreates(env, purpose, w0, w, rks, e.decision);
    var d, r := env.config.purposeMappings[purpose], Marked(w, rks[0]).requests[rks[0]];
    CreatePlaces(env, w, e, w', e.decision.key, d);
    PassGrants(env, w, e, w', e.decision.key);
    PlacedKeepsWaiting(env, w0, w, rks, 0, e.decision.key, e.decision.cluster, w');
    assert rks[0] in rks;
    CreatedIsReady(env, purpose, w0, rks, 0, r, e.decision.key);
  }

  lemma PlacingKeepsOneCluster(env: Environment, purpose: string, w0: World, w: World, rks: seq<Key>, n: nat, only: Key, w': World)
    requires Alike(env, purpose, w0, rks) && 0 < n < |rks|
    requires OnOneCluster(env, purpose, w0, w, rks, n, only) && DistinctUIDs(w)
    requires rks[n] in w.requests
    requires Placed(w, rks[n], only, WithRequest(w.clusters[only], w.requests[rks[n]].spec.uid), w')
    requires w'.clusters == w.clusters[only := WithRequest(w.clusters[only], w.requests[rks[n]].spec.uid)]
    ensures OnOneCluster(env, purpose, w0, w', rks, n + 1, only)
  {
    var uid := w.requests[rks[n]].spec.uid;
    PlacedKeepsWaiting(env, w0, w, rks, n, only, WithRequest(w.clusters[only], uid), w');
    JoinKeepsReady(env, purpose, rks, only, w.clusters[only], uid);
  }

  lemma LaterPassJoins(env: Environment, purpose: string, w0: World, w: World, rks: seq<Key>, n: nat, only: Key, e: Event, w': World)
    requires Alike(env, purpose, w0, rks) && 0 < n < |rks| && env.config.purposeMappings[purpose].tenancyCount == 0
    requires OnOneCluster(env, purpose, w0, w, rks, n, only) && DistinctUIDs(w)
    requires Next(env, w, e, w') && e.Schedule? && e.request == rks[n] && e.faultFree
    ensures OnOneCluster(env, purpose, w0, w', rks, n + 1, only)
    ensures e.result == PassResult(Some(only), None)
  {
    EventDecides(env, w, e, w');
    LaterJoins(env, purpose, w0, w, rks, n, only, e.decision);
    JoinPlaces(env, w, e, w', only);
    PassGrants(env, w, e, w', only);
    PlacingKeepsOneCluster(env, purpose, w0, w, rks, n, only, w');
  }

  ghost predicate OnOneClusterAt(env: Environment, purpose: string, ws: seq<World>, rks: seq<Key>, n: nat, only: Key) {
    && 0 < n <= |rks| && n < |ws|
    && Alike(env, purpose, ws[0], rks) && env.config.purposeMappings[purpose].tenancyCount == 0
    && OnOneCluster(env, purpose, ws[0], ws[n], rks, n, only)
  }

  lemma {:induction false} PassesStayOnOneCluster(env: Environment, purpose: string, ws: seq<World>, es: seq<Event>, rks: seq<Key>,
                                                  i: nat, only: Key, n: nat)
    requires Passes(env, ws, es, rks) && 0 < i <= n <= |rks| && Inv(env, ws[0])
    requires OnOneClusterAt(env, purpose, ws, rks, i, only)
    ensures OnOneClusterAt(env, purpose, ws, rks, n, only)
    ensures forall j :: i <= j < n ==> es[j].result == PassResult(Some(only), None)
    decreases n - i
  {
    hide OnOneCluster, Inv, Sound;
    if i < n {
      RunKeepsInv(env, ws, es, i);
      RunAt(env, ws, es, i);
      LaterPassJoins(env, purpose, ws[0], ws[i], rks, i, only, es[i], ws[i + 1]);
      PassesStayOnOneCluster(env, purpose, ws, es, rks, i + 1, only, n);
    }
  }

  lemma AllWait(env: Environment, purpose: string, w0: World, rks: seq<Key>)
    requires Alike(env, purpose, w0, rks) && w0.clusters == map[]
    ensures Waiting(w0, w0, rks, 0)
  {
    forall j | 0 <= j < |rks| ensures rks[j] in w0.requests {
      assert rks[j] in rks;
    }
  }

  lemma OpensCluster(env: Environment, purpose: string, ws: seq<World>, es: seq<Event>, rks: seq<Key>)
    requires Passes(env, ws, es, rks) && rks != []
    requires Alike(env, purpose, ws[0], rks) && Nameable(env, purpose, ws[0], rks)
    requires env.config.purposeMappings[purpose].tenancyCount == 0
    requires Inv(env, ws[0]) && ws[0].clusters == map[]
    ensures es[0].decision.Create? && OnOneClusterAt(env, purpose, ws, rks, 1, es[0].decision.key)
    ensures es[0].result == PassResult(Some(es[0].decision.key), None)
  {
    var w, e, w' := StepOf(env, ws, es, 0);
    AllWait(env, purpose, w, rks);
    FirstPassOpensCluster(env, purpose, w, w, rks, e, w');
  }

  /** Without a tenancy limit passes over any number of requests, but at least one, lead to exactly one
      cluster, and all requests are given a reference to it. */
  lemma OneClusterForAll(env: Environment, purpose: string, ws: seq<World>, es: seq<Event>, rks: seq<Key>)
    returns (only: Key)
    requires Passes(env, ws, es, rks) && rks != []
    requires Alike(env, purpose, ws[0], rks) && Nameable(env, purpose, ws[0], rks)
    requires env.config.purposeMappings[purpose].tenancyCount == 0
    requires Inv(env, ws[0]) && ws[0].clusters == map[]
    ensures ws[|rks|].clusters.Keys == {only}
    ensures forall i :: 0 <= i < |rks| ==> es[i].result == PassResult(Some(only), None)
  {
    OpensCluster(env, purpose, ws, es, rks);
    only := es[0].decision.key;
    PassesStayOnOneCluster(env, purpose, ws, es, rks, 1, only, |rks|);
  }

  // ---------- balance ----------

  /** The numbers of requests on any two of the clusters differ by at most `m`. */
  ghost predicate SpreadWithin(clusters: map<Key, Cluster>, keys: set<Key>, m: int) {
    && keys <= clusters.Keys
    && forall a, b :: a in keys && b in keys ==> TenancyCount(clusters[a]) - TenancyCount(clusters[b]) <= m
  }

  /** A pass that has exactly these candidates. */
  ghost predicate PassAmong(env: Environment, w: World, e: Event, keys: set<Key>) {
    && e.Schedule? && e.request in w.requests
    && (e.decision != Reject(ApiFault) ==> e.decision.Join?)
    && forall k :: Candidate(env, Marked(w, e.request), e.request, k) <==> k in keys
  }

  lemma JoinKeepsSpread(clusters: map<Key, Cluster>, keys: set<Key>, m: int, k: Key, uid: string)
    requires SpreadWithin(clusters, keys, m) && m >= 1 && k in keys
    requires forall x :: x in keys ==> TenancyCount(clusters[k]) <= TenancyCount(clusters[x])
    ensures SpreadWithin(clusters[k := WithRequest(clusters[k], uid)], keys, m)
  {
    UIDsWith(clusters[k], uid);
    var before, after := RequestUIDs(clusters[k]), RequestUIDs(WithRequest(clusters[k], uid));
    assert after == before + {uid};
    if uid in before {
      assert after == before;
    } else {
      assert |after| == |before| + 1;
    }
  }

  lemma BalancedPassKeepsSpread(env: Environment, w: World, e: Event, w': World, keys: set<Key>, m: int)
    requires env.config.strategy in {Balanced, UnsetStrategy}
    requires Inv(env, w) && Next(env, w, e, w') && PassAmong(env, w, e, keys)
    requires SpreadWithin(w.clusters, keys, m) && m >= 1
    ensures SpreadWithin(w'.clusters, keys, m)
  {
    var marked, rk := Marked(w, e.request), e.request;
    if e.decision.Join? {
      MarkingKeepsInv(env, w, rk);
      assert Decides(env, marked, rk, e.decision);
      UnplacedIsNotCarried(env, marked, rk, e.decision);
      assert Candidate(env, marked, rk, e.decision.key);
      JoinKeepsSpread(w.clusters, keys, m, e.decision.key, w.requests[rk].spec.uid);
    }
  }

  /** With the balanced strategy any number of passes that join one of the same candidates, failing or
      not, never drives the numbers of requests further apart than they were at first, or than one. */
  lemma BalancedRunsKeepSpread(env: Environment, ws: seq<World>, es: seq<Event>, keys: set<Key>, m: int, n: nat)
    requires Sound(env.config) && env.config.strategy in {Balanced, UnsetStrategy}
    requires Run(env, ws, es) && Inv(env, ws[0]) && n < |ws|
    requires forall i {:trigger es[i]} :: 0 <= i < |es| ==> PassAmong(env, ws[i], es[i], keys)
    requires SpreadWithin(ws[0].clusters, keys, m) && m >= 1
    ensures SpreadWithin(ws[n].clusters, keys, m)
  {
    for i := 0 to n
      invariant SpreadWithin(ws[i].clusters, keys, m)
    {
      RunKeepsInv(env, ws, es, i);
      var w, e, w' := StepOf(env, ws, es, i);
      BalancedPassKeepsSpread(env, w, e, w', keys, m);
    }
  }
}
