/** Access of the Helm deployer to clusters: a second controller that the deployer triggers. It requests
    access to a cluster as long as HelmDeployments have their finalizers on it, and marks the cluster with
    a finalizer of its own in the meantime. */
module HelmAccess {
  import opened Kube
  import Access = ClusterAccess

  const GROUP_NAME := "helm.open-control-plane.io"
  const PREFIX := GROUP_NAME + "/"
  const ACCESS_FINALIZER := GROUP_NAME + "/access"
  const CLUSTER_ACCESS_ID := "cluster"
  const OPERATION_ANNOTATION := "openmcp.cloud/operation"
  /** The one role that the deployer's token is bound to, by kind and name. */
  const CLUSTER_ADMIN := "ClusterRole/cluster-admin"

  type Cluster = Object<()>

  datatype Status = Waiting | Ready | InDeletion | DeletingButRequired

  /** The controller's name for objects and its labels; `names` shortens and hashes. */
  datatype Environment = Environment(names: Key -> string, labels: Key -> Labels)

  /** The one registration of the controller: access with a token to the cluster that is reconciled. */
  function Registration(env: Environment, k: Key): Access.Registrations {
    map[CLUSTER_ACCESS_ID := Parameters(env, k)]
  }

  function Parameters(env: Environment, k: Key): Access.Params {
    Access.Params(Some(k.namespace), env.names(k), env.labels(k), true, false, Access.Nothing,
                  Some(Access.ToCluster(k)), Access.Something(CLUSTER_ADMIN), Access.Nothing)
  }

  /** The uids of the HelmDeployments that have their finalizer on the cluster. */
  function HelmDeployments(c: Cluster): set<string> {
    Suffixes(c.finalizers, PREFIX) - {"access"}
  }

  /** What the controller knows and what is on the platform cluster. */
  datatype View = View(clusters: map<Key, Cluster>, known: map<Key, Status>, platform: Access.State, inDeletion: set<Key>)

  predicate IsBeingDeleted(known: map<Key, Status>, k: Key) {
    k in known && known[k] in {InDeletion, DeletingButRequired}
  }

  predicate HasAccessFinalizer(clusters: map<Key, Cluster>, k: Key) {
    k in clusters && ACCESS_FINALIZER in clusters[k].finalizers
  }

  /** Which of the two functions of the cluster access library was called. */
  datatype Call = NoCall | Keep(result: Access.Result) | Delete(result: Access.Result, deletions: seq<Access.Deletion>)

  /** The cluster is annotated to be left alone. */
  predicate Ignored(c: Cluster) {
    OPERATION_ANNOTATION in c.annotations && c.annotations[OPERATION_ANNOTATION] == "ignore"
  }

  /** The cluster is annotated to be reconciled. */
  predicate Triggered(c: Cluster) {
    OPERATION_ANNOTATION in c.annotations && c.annotations[OPERATION_ANNOTATION] == "reconcile"
  }

  lemma AgreedAnnotation(c: Cluster)
    ensures Ignored(c) <==> At(c.annotations, "openmcp.cloud/operation") == Some("ignore")
    ensures Triggered(c) <==> At(c.annotations, "openmcp.cloud/operation") == Some("reconcile")
  {
    assert OPERATION_ANNOTATION == "openmcp.cloud/operation";
  }

  function WithAccessFinalizer(c: Cluster): Cluster {
    c.(finalizers := AddFinalizer(c.finalizers, ACCESS_FINALIZER))
  }

  function WithoutAccessFinalizer(c: Cluster): Cluster {
    c.(finalizers := RemoveFinalizer(c.finalizers, ACCESS_FINALIZER))
  }

  // ---------- what a pass may do ----------

  /** Access is kept: never while a deletion is under way, and only with the finalizer in place. */
  ghost predicate Keeps(env: Environment, k: Key, v: View, v': View, res: Access.Result, call: Access.Result) {
    && k in v.clusters && HelmDeployments(v.clusters[k]) != {} && !IsBeingDeleted(v.known, k)
    && v'.clusters == v.clusters[k := WithAccessFinalizer(v.clusters[k])]
    && (v.clusters[k].deleting ==> HasAccessFinalizer(v.clusters, k))
    && Access.ReconcilePass(Registration(env, k), 5, k in v.inDeletion, v.platform, v'.platform, call)
    && v'.inDeletion == v.inDeletion
    && v'.known == (if Access.Completed(call) then v.known[k := Ready] else if k in v.known then v.known else v.known[k := Waiting])
    && res == call
  }

  /** Somebody needs access while it is being deleted. */
  predicate RequiredAgain(k: Key, v: View)
    requires k in v.clusters
  {
    || (HelmDeployments(v.clusters[k]) != {} && k in v.known && v.known[k] == InDeletion)
    || (k in v.known && v.known[k] == DeletingButRequired)
  }

  /** The annotation that triggers a pass is removed. */
  predicate OperationCleared(k: Key, v: View, v': View) {
    && k in v.clusters
    && v' == v.(clusters := v.clusters[k := v.clusters[k].(annotations := v.clusters[k].annotations - {OPERATION_ANNOTATION})])
  }

  /** Access is deleted: started only if no HelmDeployment needs it, and always carried through. Whoever
      needs it again by the end is served by a requeue. */
  ghost predicate Deletes(env: Environment, k: Key, v: View, v': View, res: Access.Result, call: Access.Result, deletions: seq<Access.Deletion>) {
    && HasAccessFinalizer(v.clusters, k) && (HelmDeployments(v.clusters[k]) == {} || IsBeingDeleted(v.known, k))
    && Access.DeletePass(Registration(env, k), 5, v.platform, v'.platform, call, deletions)
    && v'.inDeletion == (if Access.Completed(call) then v.inDeletion - {k} else v.inDeletion + {k})
    && (if Access.Completed(call) && !res.failed then
          && v'.clusters == Stored(v.clusters, k, WithoutAccessFinalizer(v.clusters[k]))
          && v'.known == v.known - {k}
          && res == Access.Result(if RequiredAgain(k, v) then 1 else 0, false)
        else
          && v'.clusters == v.clusters && v'.known == v.known[k := InDeletion]
          && (Access.Completed(call) || res == call))
  }

  /** Nothing is done: the cluster does not exist or is to be ignored, a call failed, or there is no access
      that would have to be deleted. */
  ghost predicate DoesNothing(k: Key, v: View, v': View, res: Access.Result) {
    && v'.clusters == v.clusters && v'.platform == v.platform && v'.inDeletion == v.inDeletion
    && (|| v'.known == v.known
        || (res.failed && k in v.clusters && HelmDeployments(v.clusters[k]) != {} && k !in v.known && v'.known == v.known[k := Waiting])
        || (k in v.clusters && !HasAccessFinalizer(v.clusters, k) && v'.known == v.known - {k} && res == Access.Result(0, false)
            && (HelmDeployments(v.clusters[k]) == {} || IsBeingDeleted(v.known, k))))
  }

  /** There is no access and none is needed, or the API server would not accept the access finalizer. */
  predicate NothingToDo(k: Key, v: View)
    requires k in v.clusters
  {
    && !HasAccessFinalizer(v.clusters, k)
    && (HelmDeployments(v.clusters[k]) == {} || IsBeingDeleted(v.known, k) || v.clusters[k].deleting)
  }

  ghost predicate Pass(env: Environment, k: Key, v: View, v': View, res: Access.Result, call: Call) {
    match call
    case NoCall => DoesNothing(k, v, v', res)
    case Keep(r) => Keeps(env, k, v, v', res, r)
    case Delete(r, deletions) => Deletes(env, k, v, v', res, r, deletions)
  }

  /** A pass does the same if it first notes that access is required again. */
  lemma NotingRequirement(env: Environment, k: Key, v: View, noted: View, v': View, res: Access.Result, call: Call)
    requires k in v.clusters && noted in {v, v.(known := v.known[k := DeletingButRequired])}
    requires noted != v ==> HelmDeployments(v.clusters[k]) != {} && k in v.known && v.known[k] == InDeletion
    requires !call.Keep? && Pass(env, k, noted, v', res, call)
    requires call.NoCall? ==> !HasAccessFinalizer(v.clusters, k) && k !in v'.known && res == Access.Result(0, false)
    ensures Pass(env, k, v, v', res, call)
  {
    assert v.known[k := DeletingButRequired] - {k} == v.known - {k};
    assert v.known[k := DeletingButRequired][k := InDeletion] == v.known[k := InDeletion];
  }

  class AccessController {
    var clusters: map<Key, Cluster>
    var clustersWithAccess: map<Key, Status>
    const car: Access.Reconciler
    const env: Environment
    ghost var faults: nat

    ghost predicate Valid()
      reads this, car
    {
      car.interval == 5
    }

    constructor (env: Environment, car: Access.Reconciler, clusters: map<Key, Cluster>)
      requires car.interval == 5
      ensures Valid() && this.env == env && this.car == car && this.clusters == clusters && clustersWithAccess == map[]
    {
      this.env, this.car, this.clusters, clustersWithAccess := env, car, clusters, map[];
    }

    ghost function State(): View
      reads this, car
    {
      View(clusters, clustersWithAccess, car.Platform(), car.requestsInDeletion)
    }

    method Call() returns (ok: bool)
      modifies `faults
      ensures faults == old(faults) + if ok then 0 else 1
    {
      ok := *;
      if !ok {
        faults := faults + 1;
      }
    }

    /** Collects the finalizers with the prefix of the group, except for the access finalizer. */
    static method HelmDeploymentsOnCluster(c: Cluster) returns (uids: set<string>)
      ensures uids == HelmDeployments(c)
    {
      uids := {};
      for i := 0 to |c.finalizers|
        invariant uids == Suffixes(c.finalizers[..i], PREFIX) - {"access"}
      {
        var f := c.finalizers[i];
        assert c.finalizers[..i + 1] == c.finalizers[..i] + [f];
        if f != ACCESS_FINALIZER && HasPrefix(f, PREFIX) {
          uids := uids + {f[|PREFIX|..]};
          assert f == PREFIX + f[|PREFIX|..];
        } else if f == ACCESS_FINALIZER {
          assert f[|PREFIX|..] == "access";
        }
      }
      assert c.finalizers[..|c.finalizers|] == c.finalizers;
    }

    /** Keeps access ready. */
    method KeepAccess(k: Key) returns (res: Access.Result, ghost call: Call)
      requires Valid() && k in clusters && HelmDeployments(clusters[k]) != {} && !IsBeingDeleted(clustersWithAccess, k)
      modifies this`clusters, this`clustersWithAccess, this`faults, car
      ensures Pass(env, k, old(State()), State(), res, call)
      ensures !call.Delete? && (call.NoCall? ==> res.failed)
      ensures faults >= old(faults) && (faults == old(faults) ==> (call.NoCall? <==> NothingToDo(k, old(State()))))
    {
      hide Access.ReconcilePass, Access.DeletePass, Access.SomeBlocked, Access.Excused, Registration, Deletes;
      if k !in clustersWithAccess {
        clustersWithAccess := clustersWithAccess[k := Waiting];
      }
      var c := clusters[k];
      if ACCESS_FINALIZER !in c.finalizers {
        if c.deleting {
          return Access.Result(0, true), NoCall;
        }
        var ok := Call();
        if !ok {
          return Access.Result(0, true), NoCall;
        }
        clusters := clusters[k := c.(finalizers := c.finalizers + [ACCESS_FINALIZER])];
      }
      res := car.Reconcile(k, Registration(env, k));
      if Access.Completed(res) {
        clustersWithAccess := clustersWithAccess[k := Ready];
      }
      call := Keep(res);
    }

    /** Deletes access, unless this has been finished already. */
    method DeleteAccess(k: Key, status: Option<Status>) returns (res: Access.Result, ghost call: Call)
      requires Valid() && k in clusters && (HelmDeployments(clusters[k]) == {} || IsBeingDeleted(clustersWithAccess, k))
      requires status == Some(DeletingButRequired) <==> RequiredAgain(k, State())
      modifies this`clusters, this`clustersWithAccess, this`faults, car
      ensures Pass(env, k, old(State()), State(), res, call)
      ensures !call.Keep? && (call.NoCall? <==> !HasAccessFinalizer(old(clusters), k))
      ensures call.NoCall? ==> res == Access.Result(0, false) && k !in clustersWithAccess
      ensures faults >= old(faults)
      ensures call.Delete? && Access.Completed(call.result) && faults == old(faults) ==> !res.failed
    {
      hide Access.ReconcilePass, Access.DeletePass, Registration, Keeps;
      var c := clusters[k];
      if ACCESS_FINALIZER !in c.finalizers {
        clustersWithAccess := clustersWithAccess - {k};
        return Access.Result(0, false), NoCall;
      }
      clustersWithAccess := clustersWithAccess[k := InDeletion];
      ghost var deletions;
      res, deletions := car.ReconcileDelete(k, Registration(env, k));
      call := Delete(res, deletions);
      if !Access.Completed(res) {
        return;
      }
      var ok := Call();
      if !ok {
        return Access.Result(0, true), call;
      }
      clusters := Stored(clusters, k, c.(finalizers := RemoveFinalizer(c.finalizers, ACCESS_FINALIZER)));
      clustersWithAccess := clustersWithAccess - {k};
      if status == Some(DeletingButRequired) {
        res := Access.Result(1, false);
      }
    }

    /** Removes the annotation that triggers a pass. `go` says whether the pass is to continue. */
    method HandleOperation(k: Key) returns (go: bool, failed: bool)
      requires k in clusters
      modifies this`clusters, this`faults
      ensures k in clusters && (State() == old(State()) || (Triggered(old(clusters)[k]) && OperationCleared(k, old(State()), State())))
      ensures Ignored(old(clusters)[k]) ==> !go
      ensures !go ==> State() == old(State())
      ensures faults >= old(faults)
      ensures faults == old(faults) ==> (go <==> !Ignored(old(clusters)[k]))
    {
      var annotations := clusters[k].annotations;
      if OPERATION_ANNOTATION in annotations {
        if annotations[OPERATION_ANNOTATION] == "ignore" {
          return false, false;
        } else if annotations[OPERATION_ANNOTATION] == "reconcile" {
          var ok := Call();
          if !ok {
            return false, true;
          }
          clusters := clusters[k := clusters[k].(annotations := annotations - {OPERATION_ANNOTATION})];
        }
      }
      return true, false;
    }

    /** Keeps or deletes access, whichever is due. */
    method KeepOrDelete(k: Key) returns (res: Access.Result, ghost call: Call)
      requires Valid() && k in clusters
      modifies this`clusters, this`clustersWithAccess, this`faults, car
      ensures Pass(env, k, old(State()), State(), res, call)
      ensures faults >= old(faults) && (faults == old(faults) ==> (call.NoCall? <==> NothingToDo(k, old(State()))))
      ensures call.Delete? && Access.Completed(call.result) && faults == old(faults) ==> !res.failed
    {
      ghost var before := State();
      var uids := HelmDeploymentsOnCluster(clusters[k]);
      var status := if k in clustersWithAccess then Some(clustersWithAccess[k]) else None;
      if |uids| > 0 && status == Some(InDeletion) {
        status := Some(DeletingButRequired);
        clustersWithAccess := clustersWithAccess[k := DeletingButRequired];
      }
      ghost var noted := State();
      if |uids| > 0 && status != Some(InDeletion) && status != Some(DeletingButRequired) {
        assert HelmDeployments(clusters[k]) != {};
        res, call := KeepAccess(k);
      } else {
        res, call := DeleteAccess(k, status);
        NotingRequirement(env, k, before, noted, State(), res, call);
      }
    }

    /** One reconcile pass over a cluster. */
    method Reconcile(k: Key) returns (res: Access.Result, ghost before: View, ghost call: Call)
      requires Valid()
      modifies this`clusters, this`clustersWithAccess, this`faults, car
      ensures before == old(State()) || OperationCleared(k, old(State()), before)
      ensures Pass(env, k, before, State(), res, call)
      ensures k !in old(clusters) ==> State() == old(State())
      ensures faults == old(faults) && k in old(clusters) && At(old(clusters)[k].annotations, "openmcp.cloud/operation") != Some("ignore") ==>
                k in before.clusters && (call.NoCall? <==> NothingToDo(k, before))
      ensures k in old(clusters) && At(old(clusters)[k].annotations, "openmcp.cloud/operation") == Some("ignore") ==> State() == old(State())
      ensures before != old(State()) ==> At(old(clusters)[k].annotations, "openmcp.cloud/operation") == Some("reconcile")
      ensures call.Delete? && Access.Completed(call.result) && faults == old(faults) ==> !res.failed
    {
      before, call := State(), NoCall;
      var ok := Call();
      if !ok || k !in clusters {
        return Access.Result(0, !ok), before, call;
      }
      AgreedAnnotation(clusters[k]);
      var go, failed := HandleOperation(k);
      if !go {
        return Access.Result(0, failed), before, call;
      }
      before := State();
      res, call := KeepOrDelete(k);
    }

    /** Credentials are handed out only if access is ready and granted. */
    method GetAccessForCluster(k: Key) returns (access: Option<Access.AccessRequest>)
      requires Valid()
      modifies this`faults
      ensures access.Some? ==>
                && k in clustersWithAccess && clustersWithAccess[k] == Ready
                && access.value.spec.granted
                && At(car.accesses, Access.KeyOf(Parameters(env, k))) == access
      ensures access.None? && faults == old(faults) && k in clustersWithAccess && clustersWithAccess[k] == Ready ==>
                var key := Access.KeyOf(Parameters(env, k));
                key !in car.accesses || !car.accesses[key].spec.granted
      ensures faults >= old(faults)
    {
      if k !in clustersWithAccess || clustersWithAccess[k] != Ready {
        return None;
      }
      var ok := Call();
      var key := Access.KeyOf(Parameters(env, k));
      if !ok || key !in car.accesses || !car.accesses[key].spec.granted {
        return None;
      }
      return Some(car.accesses[key]);
    }
  }

  // ---------- runs ----------

  datatype Event =
    | Reconciled(key: Key, res: Access.Result, call: Call)
    | ClearOperation(key: Key)
    | Restart
    | Others

  /** What others may do: anything to clusters that leaves the access finalizer alone, and anything to the
      access objects except for creating ones that look like managed ones. */
  ghost predicate OthersStep(env: Environment, v: View, v': View) {
    && v'.known == v.known && v'.inDeletion == v.inDeletion
    && (forall k :: HasAccessFinalizer(v'.clusters, k) <==> HasAccessFinalizer(v.clusters, k))
    && (forall k :: HasAccess(env, v', k) ==> HasAccess(env, v, k))
  }

  ghost predicate Next(env: Environment, v: View, e: Event, v': View) {
    match e
    case Reconciled(k, res, call) => Pass(env, k, v, v', res, call)
    case ClearOperation(k) => OperationCleared(k, v, v')
    case Restart => v' == v.(known := map[], inDeletion := {})
    case Others => OthersStep(env, v, v')
  }

  ghost predicate Run(env: Environment, vs: seq<View>, es: seq<Event>) {
    |vs| == |es| + 1 && forall i {:trigger es[i]} :: 0 <= i < |es| ==> Next(env, vs[i], es[i], vs[i + 1])
  }

  /** The access object of a cluster exists. */
  predicate HasAccess(env: Environment, v: View, k: Key) {
    Access.ManagedAt(v.platform.accesses, Parameters(env, k))
  }

  predicate DistinctNames(env: Environment, a: Key, b: Key) {
    Access.KeyOf(Parameters(env, a)) == Access.KeyOf(Parameters(env, b)) ==> a == b
  }

  /** What holds for a cluster in every reachable state. */
  ghost predicate Inv(env: Environment, v: View, k: Key) {
    && (k in v.known && v.known[k] in {Ready, InDeletion} ==> HasAccessFinalizer(v.clusters, k))
    && (k in v.known ==> v.known[k] != DeletingButRequired)
    && (k in v.inDeletion ==> IsBeingDeleted(v.known, k))
    && (HasAccess(env, v, k) ==> HasAccessFinalizer(v.clusters, k))
  }

  lemma OwnAccessTouched(env: Environment, k: Key, v: View, v': View, res: Access.Result, call: Call, key: Key)
    requires Pass(env, k, v, v', res, call)
    requires At(v'.platform.accesses, key) != At(v.platform.accesses, key)
    ensures key == Access.KeyOf(Parameters(env, k))
  {
    assert forall id :: id in Registration(env, k) ==> Registration(env, k)[id] == Parameters(env, k);
  }

  /** Passes over one cluster do not touch the access object of another one. */
  lemma OtherAccessUntouched(env: Environment, k: Key, other: Key, v: View, v': View, res: Access.Result, call: Call)
    requires Pass(env, k, v, v', res, call) && k != other && DistinctNames(env, k, other)
    ensures HasAccess(env, v', other) ==> HasAccess(env, v, other)
  {
    var key := Access.KeyOf(Parameters(env, other));
    if At(v'.platform.accesses, key) != At(v.platform.accesses, key) {
      OwnAccessTouched(env, k, v, v', res, call, key);
    }
  }

  lemma PassKeepsInv(env: Environment, k: Key, v: View, v': View, res: Access.Result, call: Call)
    requires Inv(env, v, k) && Pass(env, k, v, v', res, call)
    ensures Inv(env, v', k)
  {
    match call
    case NoCall =>
    case Keep(_) =>
    case Delete(r, deletions) =>
      if Access.Completed(r) {
        assert CLUSTER_ACCESS_ID in Registration(env, k);
        assert Access.Cleared(v'.platform, Parameters(env, k));
      } else {
        assert HasAccessFinalizer(v'.clusters, k);
      }
  }

  lemma NextKeepsInv(env: Environment, v: View, e: Event, v': View, k: Key)
    requires Inv(env, v, k) && Next(env, v, e, v')
    requires e.Reconciled? ==> DistinctNames(env, e.key, k)
    ensures Inv(env, v', k)
  {
    if e.Reconciled? {
      if e.key == k {
        PassKeepsInv(env, k, v, v', e.res, e.call);
      } else {
        OtherAccessUntouched(env, e.key, k, v, v', e.res, e.call);
        assert HasAccessFinalizer(v.clusters, k) ==> HasAccessFinalizer(v'.clusters, k);
      }
    }
  }

  lemma {:induction false} RunKeepsInv(env: Environment, vs: seq<View>, es: seq<Event>, k: Key, i: nat)
    requires Run(env, vs, es) && i < |vs| && Inv(env, vs[0], k)
    requires forall j {:trigger es[j]} :: 0 <= j < |es| && es[j].Reconciled? ==> DistinctNames(env, es[j].key, k)
    ensures Inv(env, vs[i], k)
  {
    if i > 0 {
      RunKeepsInv(env, vs, es, k, i - 1);
      NextKeepsInv(env, vs[i - 1], es[i - 1], vs[i], k);
    }
  }

  /** In every run, over restarts and failing calls: a cluster whose access object exists carries the access
      finalizer and so cannot vanish, ready access implies this finalizer, and between passes no cluster is
      in the state "deleting but required". */
  lemma AccessIsNeverOrphaned(env: Environment, vs: seq<View>, es: seq<Event>, k: Key, i: nat)
    requires Run(env, vs, es) && i < |vs|
    requires vs[0].known == map[] && vs[0].inDeletion == {} && !HasAccess(env, vs[0], k)
    requires forall j {:trigger es[j]} :: 0 <= j < |es| && es[j].Reconciled? ==> DistinctNames(env, es[j].key, k)
    ensures HasAccess(env, vs[i], k) ==> k in vs[i].clusters && "helm.open-control-plane.io/access" in vs[i].clusters[k].finalizers
    ensures k in vs[i].known ==> vs[i].known[k] in {Waiting, Ready, InDeletion}
    ensures k in vs[i].known && vs[i].known[k] == Ready ==>
              k in vs[i].clusters && "helm.open-control-plane.io/access" in vs[i].clusters[k].finalizers
  {
    RunKeepsInv(env, vs, es, k, i);
    assert ACCESS_FINALIZER == "helm.open-control-plane.io/access";
  }

  /** In every run access is kept only for clusters that the cluster access library does not consider to be
      in deletion, so missing objects are created again. */
  lemma KeepingMayCreate(env: Environment, vs: seq<View>, es: seq<Event>, k: Key, i: nat)
    requires Run(env, vs, es) && i < |es| && Inv(env, vs[0], k)
    requires forall j {:trigger es[j]} :: 0 <= j < |es| && es[j].Reconciled? ==> DistinctNames(env, es[j].key, k)
    requires es[i].Reconciled? && es[i].key == k && es[i].call.Keep?
    ensures k !in vs[i].inDeletion && !IsBeingDeleted(vs[i].known, k)
    ensures HasAccessFinalizer(vs[i + 1].clusters, k)
  {
    RunKeepsInv(env, vs, es, k, i);
    assert Next(env, vs[i], es[i], vs[i + 1]);
  }

  /** What the AccessRequest for a cluster asks for: a token with the rights of an administrator of the cluster. */
  predicate AsksForAdmin(spec: Access.AccessData) {
    spec.token == Some("ClusterRole/cluster-admin") && spec.oidc == None
  }

  /** A cluster becomes ready only with the access finalizer on it, and if its access object exists in the
      namespace of the cluster, is granted and up to date and asks for the rights of an administrator, or is
      being deleted by somebody else (then it is not looked at any further). */
  lemma ReadyMeansUsable(env: Environment, k: Key, v: View, v': View, res: Access.Result, call: Call)
    requires Inv(env, v, k) && Pass(env, k, v, v', res, call)
    requires k in v'.known && v'.known[k] == Ready && (k in v.known ==> v.known[k] != Ready)
    ensures
      var key := Key(k.namespace, env.names(k));
      key in v'.platform.accesses
      && var ar := v'.platform.accesses[key];
      && (ar.deleting || (ar.spec.granted && ar.spec.upToDate && AsksForAdmin(ar.spec) && Access.FINALIZER in ar.finalizers))
      && forall l :: l in env.labels(k) ==> l in ar.labels && ar.labels[l] == env.labels(k)[l]
    ensures k in v'.clusters && "helm.open-control-plane.io/access" in v'.clusters[k].finalizers
  {
    assert call.Keep? && k !in v.inDeletion && Access.Completed(call.result);
    KeepMeansUsable(env, k, v, v', call.result);
    assert ACCESS_FINALIZER == "helm.open-control-plane.io/access";
  }

  lemma OneRegistration(env: Environment, k: Key)
    ensures Access.DistinctKeys(Registration(env, k)) && Registration(env, k).Keys == {CLUSTER_ACCESS_ID}
    ensures
      var p := Registration(env, k)[CLUSTER_ACCESS_ID];
      && Access.HasKey(p) && Access.KeyOf(p) == Key(k.namespace, env.names(k)) && p.labels == env.labels(k)
      && p.accessAvailable && !p.requestAvailable && !p.requestSpec.Something? && p.reference == Some(Access.ToCluster(k))
      && p.token == Access.Something("ClusterRole/cluster-admin") && p.oidc.Nothing?
  {
  }

  lemma KeepMeansUsable(env: Environment, k: Key, v: View, v': View, res: Access.Result)
    requires Access.ReconcilePass(Registration(env, k), 5, false, v.platform, v'.platform, res) && Access.Completed(res)
    ensures
      var key := Key(k.namespace, env.names(k));
      key in v'.platform.accesses
      && var ar := v'.platform.accesses[key];
      && (ar.deleting || (ar.spec.granted && ar.spec.upToDate && AsksForAdmin(ar.spec) && Access.FINALIZER in ar.finalizers))
      && forall l :: l in env.labels(k) ==> l in ar.labels && ar.labels[l] == env.labels(k)[l]
  {
    hide Access.ReconcilePass, Access.DistinctKeys, Registration;
    OneRegistration(env, k);
    Access.CompletedMeansUsable(Registration(env, k), 5, v.platform, v'.platform, res, CLUSTER_ACCESS_ID);
  }

  lemma KeptAccess(env: Environment, k: Key, inDeletion: bool, s: Access.State, s': Access.State, res: Access.Result, key: Key)
    requires Access.ReconcilePass(Registration(env, k), 5, inDeletion, s, s', res)
    ensures s'.requests == s.requests
    ensures key in s'.accesses && key !in s.accesses ==>
              && key == Key(k.namespace, env.names(k)) && !inDeletion
              && var ar := s'.accesses[key];
              && ar.spec.target == Access.ToCluster(k) && AsksForAdmin(ar.spec) && !ar.spec.granted && ar.labels == env.labels(k)
  {
    hide Registration, Access.LocalStep;
    OneRegistration(env, k);
    var regs := Registration(env, k);
    assert s'.requests == s.requests;
    if key in s'.accesses && key !in s.accesses {
      assert Access.KeyOf(regs[CLUSTER_ACCESS_ID]) == key;
      NewAccessLocal(regs[CLUSTER_ACCESS_ID], inDeletion, s, s');
    }
  }

  lemma NewAccessLocal(p: Access.Params, inDeletion: bool, s: Access.State, s': Access.State)
    requires Access.HasKey(p) && Access.LocalStep(p, inDeletion, s, s')
    requires Access.KeyOf(p) in s'.accesses && Access.KeyOf(p) !in s.accesses
    ensures !inDeletion && Access.AccessComesUp(p, Access.KeyOf(p), Some(s'.accesses[Access.KeyOf(p)]))
  {
  }

  /** A pass makes no AccessRequest but one: it refers to the cluster itself, lies in the namespace of the
      cluster, has the name and labels of the controller and asks for the rights of an administrator. It comes
      up only when a HelmDeployment has its finalizer on the cluster. ClusterRequests are left alone. */
  lemma NewAccessIsForCluster(env: Environment, k: Key, v: View, v': View, res: Access.Result, call: Call, key: Key)
    requires Pass(env, k, v, v', res, call)
    ensures v'.platform.requests == v.platform.requests
    ensures key in v'.platform.accesses && key !in v.platform.accesses ==>
              && key == Key(k.namespace, env.names(k))
              && var ar := v'.platform.accesses[key];
              && ar.spec.target == Access.ToCluster(k) && AsksForAdmin(ar.spec) && !ar.spec.granted && ar.labels == env.labels(k)
              && k in v.clusters && exists uid :: uid != "access" && "helm.open-control-plane.io/" + uid in v.clusters[k].finalizers
  {
    hide Access.ReconcilePass, HelmDeployments;
    if call.Keep? {
      KeptAccess(env, k, k in v.inDeletion, v.platform, v'.platform, call.result, key);
      var uid :| uid in HelmDeployments(v.clusters[k]);
      HelmDeploymentsAre(v.clusters[k], uid);
    } else if call.Delete? {
      OneRegistration(env, k);
      forall x ensures At(v'.platform.requests, x) == At(v.platform.requests, x) {
      }
      SameMaps(v.platform.requests, v'.platform.requests);
    }
  }

  lemma SameMaps<T>(m: map<Key, T>, m': map<Key, T>)
    requires forall k :: At(m', k) == At(m, k)
    ensures m' == m
  {
    forall k ensures k in m' <==> k in m {
      assert At(m', k) == At(m, k);
    }
    forall k | k in m ensures m'[k] == m[k] {
      assert At(m', k) == At(m, k);
    }
  }

  /** The access object of a cluster is the one with the controller's name for it and all labels of the
      controller, in the namespace of the cluster. */
  lemma HasAccessIff(env: Environment, v: View, k: Key)
    ensures HasAccess(env, v, k) <==>
              var key := Key(k.namespace, env.names(k));
              && key in v.platform.accesses
              && forall l :: l in env.labels(k) ==> At(v.platform.accesses[key].labels, l) == Some(env.labels(k)[l])
  {
    OneRegistration(env, k);
  }

  /** What is known of the cluster after a pass. It is ready if the pass has been completed, and a deletion is
      forgotten once it has been completed; the pass is repeated then exactly if somebody has asked for access
      in the meantime. Results of the library are passed on. */
  lemma StatusFollows(env: Environment, k: Key, v: View, v': View, res: Access.Result, call: Call)
    requires Pass(env, k, v, v', res, call)
    ensures forall x :: x != k ==> At(v'.known, x) == At(v.known, x)
    ensures call.Keep? ==>
              && res == call.result
              && At(v'.known, k) == if res == Access.Result(0, false) then Some(Ready) else if k in v.known then At(v.known, k) else Some(Waiting)
    ensures call.Delete? && call.result != Access.Result(0, false) ==>
              res == call.result && At(v'.known, k) == Some(InDeletion) && v'.clusters == v.clusters
    ensures call.Delete? && call.result == Access.Result(0, false) ==>
              if res.failed then At(v'.known, k) == Some(InDeletion) && v'.clusters == v.clusters
              else
                && k !in v'.known && k in v.clusters
                && (res.requeueAfter > 0 <==> || At(v.known, k) == Some(DeletingButRequired)
                                              || (At(v.known, k) == Some(InDeletion) && HelmDeployments(v.clusters[k]) != {}))
  {
    hide Access.ReconcilePass, Access.DeletePass, HelmDeployments;
  }

  /** A pass changes nothing on clusters but the access finalizer of the one that is reconciled, and a cluster
      vanishes only with its last finalizer. A cluster in deletion is not marked anew. */
  lemma OnlyAccessFinalizerChanges(env: Environment, k: Key, v: View, v': View, res: Access.Result, call: Call, x: Key)
    requires Pass(env, k, v, v', res, call)
    ensures x != k ==> At(v'.clusters, x) == At(v.clusters, x)
    ensures x in v'.clusters ==>
              && x in v.clusters && v'.clusters[x] == v.clusters[x].(finalizers := v'.clusters[x].finalizers)
              && (forall f :: f != "helm.open-control-plane.io/access" ==> (f in v'.clusters[x].finalizers <==> f in v.clusters[x].finalizers))
              && (v.clusters[x].deleting && "helm.open-control-plane.io/access" in v'.clusters[x].finalizers ==>
                    "helm.open-control-plane.io/access" in v.clusters[x].finalizers)
    ensures x in v.clusters && x !in v'.clusters ==>
              v.clusters[x].deleting && forall f :: f in v.clusters[x].finalizers ==> f == "helm.open-control-plane.io/access"
  {
    hide Access.ReconcilePass, Access.DeletePass, HelmDeployments;
    assert ACCESS_FINALIZER == "helm.open-control-plane.io/access";
  }

  /** The uids are what follows the group's prefix in the finalizers, except for the access finalizer. */
  lemma HelmDeploymentsAre(c: Cluster, uid: string)
    ensures uid in HelmDeployments(c) <==> uid != "access" && "helm.open-control-plane.io/" + uid in c.finalizers
  {
    assert PREFIX == "helm.open-control-plane.io/";
    SuffixIn(c.finalizers, PREFIX, uid);
  }

  /** A deletion is begun only if no HelmDeployment has its finalizer on the cluster, and the access finalizer
      goes only if the access object is gone. */
  lemma DeletionBeginsAndEndsInOrder(env: Environment, k: Key, v: View, v': View, res: Access.Result, call: Call)
    requires Pass(env, k, v, v', res, call) && k in v.clusters
    ensures call.Delete? && !IsBeingDeleted(v.known, k) ==> HelmDeployments(v.clusters[k]) == {}
    ensures "helm.open-control-plane.io/access" in v.clusters[k].finalizers && HasAccess(env, v', k) ==>
              k in v'.clusters && "helm.open-control-plane.io/access" in v'.clusters[k].finalizers
    ensures HasAccessFinalizer(v.clusters, k) && !HasAccessFinalizer(v'.clusters, k) ==> call.Delete? && !HasAccess(env, v', k)
  {
    assert ACCESS_FINALIZER == "helm.open-control-plane.io/access";
    if call.Delete? && Access.Completed(call.result) {
      assert CLUSTER_ACCESS_ID in Registration(env, k);
      assert Access.Cleared(v'.platform, Parameters(env, k));
    }
  }

  /** A pass that ends a deletion while HelmDeployments have their finalizers on the cluster asks to be called
      again exactly if it found the access finalizer in place. */
  lemma RequiredAccessIsRequestedAgainIff(env: Environment, k: Key, v: View, v': View, res: Access.Result, call: Call)
    requires Pass(env, k, v, v', res, call) && k in v.clusters
    requires IsBeingDeleted(v.known, k) && HelmDeployments(v.clusters[k]) != {}
    requires k !in v'.known
    ensures res.requeueAfter > 0 <==> HasAccessFinalizer(v.clusters, k)
  {
  }

  /** In a reachable state it does. */
  lemma RequiredAccessIsRequestedAgain(env: Environment, k: Key, v: View, v': View, res: Access.Result, call: Call)
    requires Inv(env, v, k) && Pass(env, k, v, v', res, call) && k in v.clusters
    requires k in v.known && k !in v'.known && HelmDeployments(v.clusters[k]) != {}
    ensures res.requeueAfter > 0
  {
  }
}
