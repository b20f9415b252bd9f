/** The promises of the cluster scheduler. */
module SchedulerTheorems {
  import opened Kube
  import opened LabelSelectors
  import opened SchedulerConfiguration
  import opened SchedulerModel
  import opened SchedulerRuns
  import opened SchedulerSafety

  // ---------- tenancy limits ----------

  lemma EmptyWorldHasInv(env: Environment)
    ensures Inv(env, World(map[], map[]))
  {
  }

  /** Whatever happens to requests and clusters and whichever calls fail: a cluster of a limited shared
      definition never carries more requests than allowed, and an exclusive one never more than one. */
  lemma LimitsHoldInEveryRun(env: Environment, ws: seq<World>, es: seq<Event>, i: nat, k: Key, p: string)
    requires Sound(env.config) && Run(env, ws, es) && ws[0] == World(map[], map[]) && i < |ws|
    requires k in ws[i].clusters && p in ws[i].clusters[k].spec.purposes && p in env.config.purposeMappings
    ensures
      var d := env.config.purposeMappings[p];
      && (d.template.spec.tenancy == Exclusive ==> TenancyCount(ws[i].clusters[k]) <= 1)
      && (d.template.spec.tenancy == Shared && d.tenancyCount > 0 ==> TenancyCount(ws[i].clusters[k]) <= d.tenancyCount)
  {
    EmptyWorldHasInv(env);
    RunKeepsInv(env, ws, es, i);
    assert WithinLimit(env.config, ws[i].clusters[k]);
  }

  /** A pass over a request that has a reference does not look at limits. It keeps within them exactly
      if the cluster carries the request already or has room for one more. */
  lemma KeepingRespectsLimitIff(config: Config, c: Cluster, uid: string)
    requires WithinLimit(config, c)
    ensures WithinLimit(config, WithRequest(c, uid)) <==>
            uid in RequestUIDs(c) ||
            forall p :: p in c.spec.purposes && p in config.purposeMappings ==>
              var limit := Limit(config.purposeMappings[p]);
              limit.Some? ==> TenancyCount(c) < limit.value
  {
    UIDsWith(c, uid);
    if uid in RequestUIDs(c) {
      assert RequestUIDs(c) + {uid} == RequestUIDs(c);
    } else {
      assert |RequestUIDs(c) + {uid}| == |RequestUIDs(c)| + 1;
    }
  }

  /** Without the rule that clusters vanish only with empty finalizers the limit can be exceeded: the
      cluster was lost and re-created, its place is taken, and then an old reference is honoured. */
  lemma LostClusterBreaksLimit(env: Environment, w: World, old_: Key, k: Key)
    requires var spec := ClusterSpec("gcp", ["workload"], Shared);
             && env.config.purposeMappings ==
                map["workload" := Definition(1, Template("", "", "", map[], map[], spec), EVERYTHING)]
             && w.clusters == map[k := Object([FinalizerForCluster("new")], false, map[], map[], spec)]
             && w.requests == map[old_ := Object([REQUEST_FINALIZER], false, map[], map[], RequestData("old", "workload", Some(k)))]
    ensures Decides(env, w, old_, Keep(k)) && Accepted(w, old_, Keep(k))
    ensures !WithinLimit(env.config, AfterClusterWrites(w, old_, Keep(k), 2)[k])
    ensures !Backed(w)
  {
    var c := w.clusters[k];
    UIDsWith(c, "old");
    OnlyRequest(c, "new");
    assert "old"[0] != "new"[0];
    assert RequestUIDs(WithRequest(c, "old")) == {"new", "old"};
    assert |{"new", "old"}| == 2;
    assert "workload" in c.spec.purposes;
  }

  // ---------- unique and recoverable assignments ----------

  /** No request ever has its finalizer on two clusters, and every request finalizer on a cluster belongs
      to a request that exists. */
  lemma AssignmentsAreUnique(env: Environment, ws: seq<World>, es: seq<Event>, i: nat, a: Key, b: Key, uid: string)
    requires Sound(env.config) && Run(env, ws, es) && ws[0] == World(map[], map[]) && i < |ws|
    requires a in ws[i].clusters && FinalizerForCluster(uid) in ws[i].clusters[a].finalizers
    ensures b in ws[i].clusters && FinalizerForCluster(uid) in ws[i].clusters[b].finalizers ==> a == b
    ensures exists rk :: rk in ws[i].requests && ws[i].requests[rk].spec.uid == uid
  {
    EmptyWorldHasInv(env);
    RunKeepsInv(env, ws, es, i);
    UIDIn(ws[i].clusters[a], uid);
    assert HasOwner(ws[i], uid);
    if b in ws[i].clusters {
      UIDIn(ws[i].clusters[b], uid);
    }
  }

  /** A reference in a request's status is never changed by the scheduler, even if the cluster it points
      to does not exist any more and is created again. This needs nothing but proper references. */
  lemma ReferenceIsNeverChanged(env: Environment, w: World, e: Event, w': World, rk: Key)
    requires Next(env, w, e, w') && e != LoseStatus(rk)
    requires rk in w.requests && rk in w'.requests && w.requests[rk].spec.cluster.Some?
    requires w.requests[rk].spec.cluster.value.name != "" && w.requests[rk].spec.cluster.value.namespace != ""
    ensures w'.requests[rk].spec.cluster == w.requests[rk].spec.cluster
  {
  }

  lemma ReferenceStaysInStep(env: Environment, ws: seq<World>, es: seq<Event>, rk: Key, n: nat, ref: Option<Key>)
    requires Run(env, ws, es) && n < |es| && es[n] != LoseStatus(rk)
    requires rk in ws[n].requests && rk in ws[n + 1].requests && ws[n].requests[rk].spec.cluster == ref
    requires ref.Some? && ref.value.name != "" && ref.value.namespace != ""
    ensures ws[n + 1].requests[rk].spec.cluster == ref
  {
    var w, e, w' := StepOf(env, ws, es, n);
    ReferenceIsNeverChanged(env, w, e, w', rk);
  }

  /** In every run in which its status is not lost by others, a request keeps the reference it has. */
  lemma {:induction false} ReferenceIsStableInRuns(env: Environment, ws: seq<World>, es: seq<Event>, rk: Key, i: nat, j: nat)
    requires Run(env, ws, es) && i <= j < |ws|
    requires forall n :: i <= n < j ==> es[n] != LoseStatus(rk)
    requires forall n :: i <= n <= j ==> rk in ws[n].requests
    requires
      var ref := ws[i].requests[rk].spec.cluster;
      ref.Some? && ref.value.name != "" && ref.value.namespace != ""
    ensures ws[j].requests[rk].spec.cluster == ws[i].requests[rk].spec.cluster
  {
    for n := i to j
      invariant ws[n].requests[rk].spec.cluster == ws[i].requests[rk].spec.cluster
    {
      ReferenceStaysInStep(env, ws, es, rk, n, ws[i].requests[rk].spec.cluster);
    }
  }

  /** If the status of a request is lost while a cluster carries the request, a pass that decides anything
      decides for this cluster. */
  lemma LostStatusIsRecovered(env: Environment, w: World, rk: Key, k: Key, d: Decision)
    requires Inv(env, w) && rk in w.requests && !w.requests[rk].deleting
    requires w.requests[rk].spec.cluster == None
    requires k in w.clusters && w.requests[rk].spec.uid in RequestUIDs(w.clusters[k])
    requires Decides(env, w, rk, d)
    ensures d == Recover(k)
  {
    UIDIn(w.clusters[k], w.requests[rk].spec.uid);
    assert HoldsRequest(env, w, rk, k);
    UIDIn(w.clusters[d.key], w.requests[rk].spec.uid);
  }

  lemma ReferenceIsBacked(env: Environment, w: World, rk: Key, k: Key)
    requires Inv(env, w) && rk in w.requests && !w.requests[rk].deleting && w.requests[rk].spec.cluster == Some(k)
    ensures k in w.clusters && w.requests[rk].spec.uid in RequestUIDs(w.clusters[k])
  {
  }

  /** In every run: if the reference of a live request is wiped, the next pass without failing calls
      restores exactly the same reference and changes no cluster. */
  lemma WipedReferenceIsRestored(env: Environment, ws: seq<World>, es: seq<Event>, i: nat, rk: Key, k: Key)
    requires Sound(env.config) && Run(env, ws, es) && ws[0] == World(map[], map[]) && i + 1 < |es|
    requires rk in ws[i].requests && !ws[i].requests[rk].deleting && ws[i].requests[rk].spec.cluster == Some(k)
    requires es[i] == LoseStatus(rk)
    requires es[i + 1].Schedule? && es[i + 1].request == rk && es[i + 1].faultFree
    ensures rk in ws[i + 2].requests && ws[i + 2].requests[rk].spec.cluster == Some(k)
    ensures ws[i + 2].clusters == ws[i].clusters
  {
    hide Sound, Inv, Decides;
    EmptyWorldHasInv(env);
    RunKeepsInv(env, ws, es, i);
    RunKeepsInv(env, ws, es, i + 1);
    ReferenceIsBacked(env, ws[i], rk, k);
    var w, lose, w' := StepOf(env, ws, es, i);
    var wiped, e, after := StepOf(env, ws, es, i + 1);
    var marked := Marked(wiped, rk);
    MarkingKeepsInv(env, wiped, rk);
    LostStatusIsRecovered(env, marked, rk, k, e.decision);
  }

  // ---------- deletion ----------

  /** The request's own finalizer goes only if afterwards no globally selected cluster carries the
      request's finalizer. This needs no assumption about the state. */
  lemma OwnFinalizerGoesLast(env: Environment, w: World, rk: Key, clean: bool, finalized: bool, w': World, k: Key)
    requires ReleaseOutcome(env, w, w', rk, clean, finalized)
    requires REQUEST_FINALIZER in w.requests[rk].finalizers
    requires rk !in w'.requests || REQUEST_FINALIZER !in w'.requests[rk].finalizers
    ensures k in w'.clusters && Matches(env.config.clusterSelector, w'.clusters[k].labels) ==>
              FinalizerForCluster(w.requests[rk].spec.uid) !in w'.clusters[k].finalizers
  {
    assert finalized;
    AfterRelease(env, w, w'.clusters, w.requests[rk].spec.uid, clean, k);
    if k in w'.clusters {
      UIDIn(w'.clusters[k], w.requests[rk].spec.uid);
    }
  }

  /** In a reachable state it goes only if no cluster at all carries the request any more. */
  lemma NoClusterLeftBehind(env: Environment, w: World, rk: Key, clean: bool, finalized: bool, w': World, k: Key)
    requires Sound(env.config) && Inv(env, w) && ReleaseOutcome(env, w, w', rk, clean, finalized)
    requires REQUEST_FINALIZER in w.requests[rk].finalizers
    requires rk !in w'.requests || REQUEST_FINALIZER !in w'.requests[rk].finalizers
    ensures k in w'.clusters ==> FinalizerForCluster(w.requests[rk].spec.uid) !in w'.clusters[k].finalizers
  {
    assert finalized;
    if k in w'.clusters {
      CleanReleaseIsComplete(env, w, w'.clusters, rk, k);
      UIDIn(w'.clusters[k], w.requests[rk].spec.uid);
    }
  }

  /** Without this request the cluster has no requests left, so it had no others. */
  lemma DeletedWithoutOthers(c: Cluster, uid: string, f: string)
    requires DeletedWithout(c, uid) && f in c.finalizers && HasPrefix(f, REQUEST_FINALIZER_PREFIX)
    ensures f == FinalizerForCluster(uid)
  {
    UIDsWithout(c, uid);
    var v := f[|REQUEST_FINALIZER_PREFIX|..];
    assert v in RequestUIDs(c) && v !in RequestUIDs(WithoutRequest(c, uid));
    assert f == FinalizerForCluster(v);
  }

  lemma ReleasedKeepsOthers(c: Cluster, uid: string, after: Option<Cluster>, clean: bool)
    requires ReleasedTo(c, uid, after, clean)
    ensures
      var fin := FinalizerForCluster(uid);
      && (after.Some? ==> RemoveFinalizer(after.value.finalizers, fin) == RemoveFinalizer(c.finalizers, fin))
      && (after.None? ==> forall f :: f in c.finalizers ==> f == fin)
      && (after.Some? && after.value.deleting && !c.deleting ==> DeletedWithout(c, uid))
  {
    var fin := FinalizerForCluster(uid);
    WithoutNothing(RemoveFinalizer(c.finalizers, fin), {fin});
  }

  /** All other finalizers of a cluster survive a releasing pass in their order, whichever calls fail, a
      cluster vanishes only if it had no other finalizers, and it is deleted only if it had no other request. */
  lemma OtherFinalizersSurvive(env: Environment, w: World, rk: Key, clean: bool, finalized: bool, w': World, k: Key)
    requires ReleaseOutcome(env, w, w', rk, clean, finalized) && k in w.clusters
    ensures
      var fin := FinalizerForCluster(w.requests[rk].spec.uid);
      && (k in w'.clusters ==>
            RemoveFinalizer(w'.clusters[k].finalizers, fin) == RemoveFinalizer(w.clusters[k].finalizers, fin))
      && (k !in w'.clusters ==> forall f :: f in w.clusters[k].finalizers ==> f == fin)
      && (k in w'.clusters && w'.clusters[k].deleting && !w.clusters[k].deleting ==>
            forall f :: f in w.clusters[k].finalizers && HasPrefix(f, REQUEST_FINALIZER_PREFIX) ==> f == fin)
  {
    var c, uid := w.clusters[k], w.requests[rk].spec.uid;
    if HeldBy(env, c, uid) {
      ReleasedKeepsOthers(c, uid, At(w'.clusters, k), clean);
      if DeletedWithout(c, uid) {
        forall f | f in c.finalizers && HasPrefix(f, REQUEST_FINALIZER_PREFIX) ensures f == FinalizerForCluster(uid) {
          DeletedWithoutOthers(c, uid, f);
        }
      }
    } else {
      assert At(w'.clusters, k) == At(w.clusters, k);
    }
  }

  // ---------- the conflict check ----------

  /** The conflict that the comments and the documentation describe: another request that exists has its
      finalizer on the cluster, and this request has not. */
  predicate DocumentedConflict(fins: seq<string>, own: string, live: set<string>) {
    own !in fins && exists i :: 0 <= i < |fins| && HasPrefix(fins[i], REQUEST_FINALIZER_PREFIX) && fins[i] in live
  }

  /** Only the first foreign finalizer is looked up. The check is as documented exactly if the cluster has
      the own finalizer, no live foreign one, or a live one in first place. */
  lemma ConflictCheckExact(fins: seq<string>, own: string, live: set<string>)
    ensures (ReportsConflict(fins, own, live) <==> DocumentedConflict(fins, own, live)) <==>
            || own in fins
            || (forall f :: f in fins && HasPrefix(f, REQUEST_FINALIZER_PREFIX) ==> f !in live)
            || (FirstForeign(fins, own).Some? && FirstForeign(fins, own).value in live)
  {
    if own !in fins {
      NoForeign(fins, own);
    }
  }

  /** A stale finalizer in first place hides a live request: its cluster is taken over. */
  lemma StaleFinalizerHidesConflict(own: string, stale: string, live: string)
    requires own != stale && own != live && stale != live
    ensures
      var o, s, l := FinalizerForCluster(own), FinalizerForCluster(stale), FinalizerForCluster(live);
      && DocumentedConflict([s, l], o, {o, l})
      && !ReportsConflict([s, l], o, {o, l})
  {
    var o, s, l := FinalizerForCluster(own), FinalizerForCluster(stale), FinalizerForCluster(live);
    PrefixInjective(REQUEST_FINALIZER_PREFIX, own, stale);
    PrefixInjective(REQUEST_FINALIZER_PREFIX, own, live);
    PrefixInjective(REQUEST_FINALIZER_PREFIX, stale, live);
    assert [s, l][1] == l;
  }

  /** Finalizers are to be dropped only if their request does not exist. A take-over that is not reported
      as a conflict drops a live one exactly if a live foreign finalizer comes first and before the own one. */
  lemma LiveFinalizerDroppedIff(fins: seq<string>, own: string, live: set<string>)
    requires !ReportsConflict(fins, own, live)
    ensures (exists f :: f in DroppedFinalizers(fins, own) && f in live) <==>
            own in fins && FirstForeign(fins, own).Some? && FirstForeign(fins, own).value in live
  {
    var first := FirstForeign(fins, own);
    if first.Some? {
      assert first.value in DroppedFinalizers(fins, own);
    }
  }

  lemma LiveFinalizerDropped(own: string, other: string)
    requires own != other
    ensures
      var o, f := FinalizerForCluster(own), FinalizerForCluster(other);
      !ReportsConflict([f, o], o, {o, f}) && f in DroppedFinalizers([f, o], o)
  {
    var o, f := FinalizerForCluster(own), FinalizerForCluster(other);
    PrefixInjective(REQUEST_FINALIZER_PREFIX, own, other);
    assert [f, o][1] == o;
  }

  /** In every reachable state neither happens: a reported conflict is a documented one and vice versa, and
      nothing is dropped. */
  lemma ConflictCheckIsRightInRuns(env: Environment, w: World, rk: Key, k: Key)
    requires Inv(env, w) && rk in w.requests && k in w.clusters
    requires !HoldsRequest(env, w, rk, k)
    ensures
      var fins, own := w.clusters[k].finalizers, FinalizerForCluster(w.requests[rk].spec.uid);
      && (ReportsConflict(fins, own, LiveFinalizers(w)) <==> DocumentedConflict(fins, own, LiveFinalizers(w)))
      && (!ReportsConflict(fins, own, LiveFinalizers(w)) ==> DroppedFinalizers(fins, own) == {})
  {
    var c, uid := w.clusters[k], w.requests[rk].spec.uid;
    NotFoundIsNotCarried(env, w, rk, k);
    UIDIn(c, uid);
    var own := FinalizerForCluster(uid);
    NoForeign(c.finalizers, own);
    var first := FirstForeign(c.finalizers, own);
    if first.Some? {
      RequestFinalizerIsLive(w, k, first.value);
    }
  }
}
