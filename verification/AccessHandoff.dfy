/** The hand-off of AccessRequests between the generic controller, which finds out who is responsible, and
    the ClusterProviders. */
module AccessHandoff {
  import opened Kube

  const PROVIDER_LABEL := "clusters.openmcp.cloud/provider"
  const PROFILE_LABEL := "clusters.openmcp.cloud/profile"
  const OPERATION_ANNOTATION := "openmcp.cloud/operation"

  datatype Phase = Unset | Pending | Granted | Denied | OtherPhase(name: string)

  datatype Status = Status(phase: Phase, observedGeneration: nat)

  /** `expired` says whether the time to live is over, if there is one. */
  datatype AccessRequest = AccessRequest(
    labels: Labels, annotations: Labels, clusterRef: Option<Key>, requestRef: Option<Key>, expired: Option<bool>,
    generation: nat, status: Status, deleting: bool, finalizers: seq<string>)

  datatype ClusterRequest = ClusterRequest(granted: bool, cluster: Option<Key>)

  /** The objects that an AccessRequest leads to: ClusterRequests, the profiles of Clusters, and the
      providers of profiles. */
  datatype Platform = Platform(requests: map<Key, ClusterRequest>, clusters: map<Key, string>, profiles: map<string, string>)

  // ---------- who is responsible ----------

  /** Whether the provider with this name may act; an empty name stands for any provider. */
  predicate IsProviderResponsible(ar: AccessRequest, provider: string) {
    && PROVIDER_LABEL in ar.labels && (provider == "" || ar.labels[PROVIDER_LABEL] == provider)
    && PROFILE_LABEL in ar.labels
    && (ar.status.phase.Granted? || ar.status.phase.Pending?)
    && (ar.status.phase.Granted? ==> ar.status.observedGeneration == ar.generation)
  }

  predicate HasBothLabels(ar: AccessRequest) {
    PROVIDER_LABEL in ar.labels && PROFILE_LABEL in ar.labels
  }

  // ---------- finding the responsible provider ----------

  /** The cluster that the request refers to, directly or by way of a granted ClusterRequest. */
  function ClusterOf(p: Platform, ar: AccessRequest): Option<Key> {
    if ar.clusterRef.Some? then ar.clusterRef
    else if ar.requestRef.Some? && ar.requestRef.value in p.requests && p.requests[ar.requestRef.value].granted then
      p.requests[ar.requestRef.value].cluster
    else None
  }

  predicate Resolvable(p: Platform, ar: AccessRequest) {
    var c := ClusterOf(p, ar);
    c.Some? && c.value in p.clusters && p.clusters[c.value] in p.profiles
  }

  function ProfileOf(p: Platform, ar: AccessRequest): string
    requires Resolvable(p, ar)
  {
    p.clusters[ClusterOf(p, ar).value]
  }

  function ProviderOf(p: Platform, ar: AccessRequest): string
    requires Resolvable(p, ar)
  {
    p.profiles[ProfileOf(p, ar)]
  }

  /** A label is set to something else already. */
  predicate Conflicts(p: Platform, ar: AccessRequest)
    requires Resolvable(p, ar)
  {
    || (PROVIDER_LABEL in ar.labels && ar.labels[PROVIDER_LABEL] != ProviderOf(p, ar))
    || (PROFILE_LABEL in ar.labels && ar.labels[PROFILE_LABEL] != ProfileOf(p, ar))
  }

  /** Labels and reference as they are needed by the provider. A changed spec is a new generation. */
  function Resolved(p: Platform, ar: AccessRequest): AccessRequest
    requires Resolvable(p, ar)
  {
    ar.(labels := ar.labels[PROVIDER_LABEL := ProviderOf(p, ar)][PROFILE_LABEL := ProfileOf(p, ar)],
        clusterRef := ClusterOf(p, ar),
        generation := if ar.clusterRef.None? then ar.generation + 1 else ar.generation)
  }

  function WithPending(ar: AccessRequest): AccessRequest {
    ar.(status := Status(Pending, ar.generation))
  }

  predicate IsIgnored(ar: AccessRequest) {
    OPERATION_ANNOTATION in ar.annotations && ar.annotations[OPERATION_ANNOTATION] == "ignore"
  }

  predicate MustExpire(ar: AccessRequest) {
    ar.expired == Some(true) && !ar.deleting
  }

  function WithoutOperation(ar: AccessRequest): AccessRequest {
    if OPERATION_ANNOTATION in ar.annotations && ar.annotations[OPERATION_ANNOTATION] == "reconcile"
    then ar.(annotations := ar.annotations - {OPERATION_ANNOTATION}) else ar
  }

  class GenericController {
    /** `None` if the AccessRequest does not exist. */
    var request: Option<AccessRequest>
    const platform: Platform
    ghost var faults: nat

    constructor (platform: Platform, request: Option<AccessRequest>)
      ensures this.platform == platform && this.request == request
    {
      this.platform, this.request := platform, request;
    }

    method Call() returns (ok: bool)
      modifies `faults
      ensures faults == old(faults) + if ok then 0 else 1
    {
      ok := *;
      if !ok {
        faults := faults + 1;
      }
    }

    method Delete() returns (ok: bool)
      requires request.Some?
      modifies `request, `faults
      ensures request == if !ok then old(request)
                         else if old(request).value.finalizers == [] then None else Some(old(request).value.(deleting := true))
      ensures faults == old(faults) + if ok then 0 else 1
    {
      ok := Call();
      if ok {
        request := if request.value.finalizers == [] then None else Some(request.value.(deleting := true));
      }
    }

    /** Looks up cluster, profile and provider, sets the labels and the cluster reference. */
    method Resolve() returns (ok: bool)
      requires request.Some?
      modifies `request, `faults
      ensures request == old(request) ||
              (Resolvable(platform, old(request).value) && !Conflicts(platform, old(request).value)
               && request == Some(Resolved(platform, old(request).value)))
      ensures faults >= old(faults)
      ensures faults == old(faults) && Resolvable(platform, old(request).value) && !Conflicts(platform, old(request).value) ==>
                request == Some(Resolved(platform, old(request).value))
    {
      var ar := request.value;
      var key;
      if ar.clusterRef.Some? {
        key := ar.clusterRef.value;
      } else if ar.requestRef.Some? {
        ok := Call();
        if !ok || ar.requestRef.value !in platform.requests {
          return false;
        }
        var cr := platform.requests[ar.requestRef.value];
        if !cr.granted || cr.cluster.None? {
          return false;
        }
        key := cr.cluster.value;
      } else {
        return false;
      }
      ok := Call();
      if !ok || key !in platform.clusters {
        return false;
      }
      var profile := platform.clusters[key];
      ok := Call();
      if !ok || profile !in platform.profiles {
        return false;
      }
      var labels := ar.labels;
      if PROVIDER_LABEL in labels && labels[PROVIDER_LABEL] != platform.profiles[profile] {
        return true;
      }
      labels := labels[PROVIDER_LABEL := platform.profiles[profile]];
      assert PROVIDER_LABEL[|PROVIDER_LABEL| - 1] != PROFILE_LABEL[|PROFILE_LABEL| - 1];
      if PROFILE_LABEL in labels && labels[PROFILE_LABEL] != profile {
        return true;
      }
      labels := labels[PROFILE_LABEL := profile];
      ok := Call();
      if !ok {
        return false;
      }
      request := Some(ar.(labels := labels, clusterRef := Some(key),
        generation := if ar.clusterRef.None? then ar.generation + 1 else ar.generation));
    }

    /** The status is updated even if the pass has failed. */
    method UpdateStatus()
      requires request.Some?
      modifies `request, `faults
      ensures request in {old(request), Some(WithPending(old(request).value))}
      ensures faults >= old(faults) && (faults == old(faults) ==> request == Some(WithPending(old(request).value)))
    {
      var ok := Call();
      if ok {
        request := Some(WithPending(request.value));
      }
    }

    /** One pass of the generic controller. */
    method Reconcile()
      modifies `request, `faults
      ensures old(request).None? ==> request.None?
      ensures old(request).Some? ==> Pass(platform, old(request).value, request, faults == old(faults))
      ensures faults >= old(faults)
    {
      var ok := Call();
      if !ok || request.None? {
        return;
      }
      var responsible := IsProviderResponsible(request.value, "");
      if responsible && request.value.expired.None? {
        return;
      }
      if IsIgnored(request.value) {
        return;
      }
      if !responsible && WithoutOperation(request.value) != request.value {
        ok := Call();
        if !ok {
          return;
        }
        request := Some(WithoutOperation(request.value));
      }
      if MustExpire(request.value) {
        ok := Delete();
        if responsible || request.None? {
          return;
        }
      } else if responsible {
        return;
      } else if !(HasBothLabels(request.value) && request.value.clusterRef.Some?) {
        ok := Resolve();
      }
      UpdateStatus();
    }
  }

  /** How a pass over an existing request may end. */
  ghost predicate Pass(p: Platform, ar: AccessRequest, after: Option<AccessRequest>, faultFree: bool) {
    if IsProviderResponsible(ar, "") || IsIgnored(ar) then
      // the provider's requests are only deleted when their time is over
      || (after == Some(ar) && (faultFree ==> IsIgnored(ar) || !MustExpire(ar)))
      || (!IsIgnored(ar) && MustExpire(ar) && after == (if ar.finalizers == [] then None else Some(ar.(deleting := true))))
    else if MustExpire(ar) then
      if after.None? then ar.finalizers == []
      else
        && var expired := WithoutOperation(ar).(deleting := true);
        && after.value in {ar, WithPending(ar), WithoutOperation(ar), WithPending(WithoutOperation(ar)), expired, WithPending(expired)}
        && (faultFree ==> after.value == WithPending(expired) && ar.finalizers != [])
    else
      && after.Some?
      && var cleared := WithoutOperation(ar);
      && after.value.deleting == ar.deleting
      && (|| after.value in {ar, cleared, WithPending(cleared)}
          || (Resolvable(p, ar) && !Conflicts(p, ar) && after.value in {Resolved(p, cleared), WithPending(Resolved(p, cleared))}))
      && (faultFree ==>
            after.value == WithPending(
              if !(HasBothLabels(ar) && ar.clusterRef.Some?) && Resolvable(p, ar) && !Conflicts(p, ar) then Resolved(p, cleared) else cleared))
  }

  // ---------- the promises ----------

  /** A request that is granted and up to date and has both labels is never written by the generic
      controller; only its deletion is requested when its time is over. */
  lemma GrantedIsLeftAlone(p: Platform, ar: AccessRequest, after: Option<AccessRequest>, faultFree: bool)
    requires Pass(p, ar, after, faultFree)
    requires HasBothLabels(ar) && ar.status == Status(Granted, ar.generation)
    ensures after.Some? ==> after.value in {ar, ar.(deleting := true)}
    ensures after != Some(ar) ==> MustExpire(ar)
  {
  }

  /** From any other live request, one pass without failing calls hands over to a provider exactly if the
      labels are there already, or can be found out and do not contradict those that are set. */
  lemma HandedOverIff(p: Platform, ar: AccessRequest, after: Option<AccessRequest>)
    requires Pass(p, ar, after, true) && !IsProviderResponsible(ar, "") && !IsIgnored(ar) && !MustExpire(ar)
    ensures after.Some?
    ensures IsProviderResponsible(after.value, "") <==> HasBothLabels(ar) || (Resolvable(p, ar) && !Conflicts(p, ar))
    ensures IsProviderResponsible(after.value, "") && Resolvable(p, ar) && !Conflicts(p, ar) ==>
              IsProviderResponsible(after.value, ProviderOf(p, ar))
    ensures Resolvable(p, ar) && !Conflicts(p, ar) ==> after.value.clusterRef == ClusterOf(p, ar)
  {
  }

  /** A changed spec of a granted request takes it away from the provider, and the next pass gives it back,
      in phase Pending and with the same labels. */
  lemma ChangedSpecIsHandedOverAgain(p: Platform, ar: AccessRequest, changed: AccessRequest, after: Option<AccessRequest>)
    requires HasBothLabels(ar) && ar.status == Status(Granted, ar.generation)
    requires changed == ar.(generation := ar.generation + 1)
    requires Pass(p, changed, after, true) && !IsIgnored(changed) && !MustExpire(changed)
    ensures IsProviderResponsible(ar, "") && !IsProviderResponsible(changed, "")
    ensures after.Some? && after.value.status == Status(Pending, after.value.generation) && after.value.labels == ar.labels
    ensures IsProviderResponsible(after.value, ar.labels[PROVIDER_LABEL])
    ensures after.value.generation == changed.generation + if after.value.clusterRef == ar.clusterRef then 0 else 1
  {
    if Resolvable(p, changed) && !Conflicts(p, changed) {
      assert Resolved(p, WithoutOperation(changed)).labels == ar.labels;
    }
  }

  /** A pass never changes a label or a reference that is set, whatever calls fail. */
  lemma SetEntriesStay(p: Platform, ar: AccessRequest, after: Option<AccessRequest>, faultFree: bool)
    requires Pass(p, ar, after, faultFree) && after.Some?
    ensures forall k :: k in ar.labels ==> k in after.value.labels && after.value.labels[k] == ar.labels[k]
    ensures ar.clusterRef.Some? ==> after.value.clusterRef == ar.clusterRef
  {
  }

  /** Whether a request that is left alone is deleted is decided by its time to live and the annotation alone:
      a live one is deleted exactly if its time is over and it is not to be ignored. It vanishes at once
      exactly if nobody has a finalizer on it. */
  lemma ExpiredAreDeletedIff(p: Platform, ar: AccessRequest, after: Option<AccessRequest>)
    requires Pass(p, ar, after, true) && !ar.deleting
    ensures after.None? || after.value.deleting <==> ar.expired == Some(true) && At(ar.annotations, "openmcp.cloud/operation") != Some("ignore")
    ensures after.None? ==> ar.finalizers == []
    ensures after.Some? && after.value.deleting ==> ar.finalizers != []
  {
    assert OPERATION_ANNOTATION == "openmcp.cloud/operation";
  }

  /** Whichever calls fail, a request is only deleted when its time is over, and one that is to be ignored is
      not written at all. */
  lemma OnlyExpiredAreDeleted(p: Platform, ar: AccessRequest, after: Option<AccessRequest>, faultFree: bool)
    requires Pass(p, ar, after, faultFree)
    ensures after.None? || (after.value.deleting && !ar.deleting) ==> ar.expired == Some(true) && !ar.deleting
    ensures At(ar.annotations, "openmcp.cloud/operation") == Some("ignore") ==> after == Some(ar)
  {
    assert OPERATION_ANNOTATION == "openmcp.cloud/operation";
  }

  /** The request refers to the cluster, or to a granted ClusterRequest that refers to it. A reference to a
      cluster takes precedence. */
  predicate LeadsTo(p: Platform, ar: AccessRequest, k: Key) {
    match ar.clusterRef
    case Some(c) => c == k
    case None => ar.requestRef.Some? && At(p.requests, ar.requestRef.value) == Some(ClusterRequest(true, Some(k)))
  }

  /** Labels come from the platform: they are only ever added together, as the profile of the cluster that the
      request leads to and the provider of this profile, and the request refers to this cluster then. */
  lemma LabelsNameTheProvider(p: Platform, ar: AccessRequest, after: Option<AccessRequest>, faultFree: bool)
    requires Pass(p, ar, after, faultFree) && after.Some?
    requires after.value.labels != ar.labels || after.value.clusterRef != ar.clusterRef
    ensures after.value.clusterRef.Some?
    ensures
      var k := after.value.clusterRef.value;
      && LeadsTo(p, ar, k) && k in p.clusters && p.clusters[k] in p.profiles
      && After(ar.labels, after.value.labels, p.clusters[k], p.profiles[p.clusters[k]])
  {
    assert PROVIDER_LABEL == "clusters.openmcp.cloud/provider" && PROFILE_LABEL == "clusters.openmcp.cloud/profile";
    assert PROVIDER_LABEL[|PROVIDER_LABEL| - 1] != PROFILE_LABEL[|PROFILE_LABEL| - 1];
  }

  /** The labels are as before, but for the two that name the responsible provider. */
  ghost predicate After(labels: Labels, labels': Labels, profile: string, provider: string) {
    && At(labels', "clusters.openmcp.cloud/profile") == Some(profile)
    && At(labels', "clusters.openmcp.cloud/provider") == Some(provider)
    && forall l :: l != "clusters.openmcp.cloud/profile" && l != "clusters.openmcp.cloud/provider" ==> At(labels', l) == At(labels, l)
  }

  /** A new request for a cluster whose profile is known goes to the provider of this profile, and to no other,
      unless one of its labels says something else already. */
  lemma NewRequestGoesToProvider(p: Platform, ar: AccessRequest, after: Option<AccessRequest>, k: Key, provider: string)
    requires Pass(p, ar, after, true) && !ar.deleting && ar.expired != Some(true)
    requires At(ar.annotations, "openmcp.cloud/operation") != Some("ignore")
    requires ar.status.phase.Unset? && LeadsTo(p, ar, k) && k in p.clusters && p.clusters[k] in p.profiles
    requires At(ar.labels, "clusters.openmcp.cloud/profile") in {None, Some(p.clusters[k])}
    requires At(ar.labels, "clusters.openmcp.cloud/provider") in {None, Some(p.profiles[p.clusters[k]])}
    ensures after.Some? && after.value.clusterRef == Some(k) && after.value.status == Status(Pending, after.value.generation)
    ensures After(ar.labels, after.value.labels, p.clusters[k], p.profiles[p.clusters[k]])
    ensures provider != "" ==> (IsProviderResponsible(after.value, provider) <==> provider == p.profiles[p.clusters[k]])
  {
    assert OPERATION_ANNOTATION == "openmcp.cloud/operation";
    assert ClusterOf(p, ar) == Some(k);
    assert Resolvable(p, ar) && !Conflicts(p, ar);
    if after.value.clusterRef != ar.clusterRef || after.value.labels != ar.labels {
      LabelsNameTheProvider(p, ar, after, true);
    }
  }

  /** A pass changes the spec only to add the reference, and this makes a new generation. */
  lemma OnlyReferenceIsAdded(p: Platform, ar: AccessRequest, after: Option<AccessRequest>, faultFree: bool)
    requires Pass(p, ar, after, faultFree) && after.Some?
    ensures after.value.generation == ar.generation + if after.value.clusterRef == ar.clusterRef then 0 else 1
    ensures after.value.requestRef == ar.requestRef && after.value.finalizers == ar.finalizers && after.value.expired == ar.expired
    ensures after.value.status in {ar.status, Status(Pending, after.value.generation)}
  {
  }

  /** Annotations stay, but for the one that triggers a pass. Without failing calls this one goes, unless a
      provider is responsible already or the request is to be deleted. */
  lemma OnlyTriggerGoes(p: Platform, ar: AccessRequest, after: Option<AccessRequest>, faultFree: bool)
    requires Pass(p, ar, after, faultFree) && after.Some? && ar.expired != Some(true)
    ensures after.value.annotations != ar.annotations ==>
              && At(ar.annotations, "openmcp.cloud/operation") == Some("reconcile")
              && after.value.annotations == ar.annotations - {"openmcp.cloud/operation"}
    ensures faultFree && !IsProviderResponsible(ar, "") ==> At(after.value.annotations, "openmcp.cloud/operation") != Some("reconcile")
  {
    assert OPERATION_ANNOTATION == "openmcp.cloud/operation";
    assert "ignore"[0] != "reconcile"[0];
  }

  /** A provider may act exactly if both labels are set and name it, and the request is pending, or granted for
      the current spec. */
  lemma ResponsibleIff(ar: AccessRequest, provider: string)
    requires provider != ""
    ensures IsProviderResponsible(ar, provider) <==>
              && At(ar.labels, "clusters.openmcp.cloud/provider") == Some(provider) && "clusters.openmcp.cloud/profile" in ar.labels
              && (ar.status.phase == Pending || ar.status == Status(Granted, ar.generation))
  {
    assert PROVIDER_LABEL == "clusters.openmcp.cloud/provider" && PROFILE_LABEL == "clusters.openmcp.cloud/profile";
  }

  // ---------- runs ----------

  datatype Event = GenericPass(faultFree: bool) | ProviderWrite(provider: string) | SpecChange

  /** A provider reports a phase for the current generation, and only if it is responsible. Users may change
      the spec, but not the reference. */
  ghost predicate Next(p: Platform, ar: AccessRequest, e: Event, ar': AccessRequest) {
    match e
    case GenericPass(faultFree) => Pass(p, ar, Some(ar'), faultFree)
    case ProviderWrite(provider) =>
      && provider != "" && IsProviderResponsible(ar, provider)
      && (ar'.status.phase.Granted? || ar'.status.phase.Pending? || ar'.status.phase.Denied?)
      && ar' == ar.(status := Status(ar'.status.phase, ar.generation))
    case SpecChange => ar' == ar.(generation := ar.generation + 1)
  }

  ghost predicate Run(p: Platform, ars: seq<AccessRequest>, es: seq<Event>) {
    |ars| == |es| + 1 && forall i {:trigger es[i]} :: 0 <= i < |es| ==> Next(p, ars[i], es[i], ars[i + 1])
  }

  lemma {:induction false} LabelStays(p: Platform, ars: seq<AccessRequest>, es: seq<Event>, i: nat, j: nat, k: string)
    requires Run(p, ars, es) && i <= j < |ars| && k in ars[i].labels
    ensures k in ars[j].labels && ars[j].labels[k] == ars[i].labels[k]
    decreases j - i
  {
    if i < j {
      LabelStays(p, ars, es, i, j - 1, k);
      var ar, e, ar' := ars[j - 1], es[j - 1], ars[j];
      assert Next(p, ar, e, ar');
      if e.GenericPass? {
        SetEntriesStay(p, ar, Some(ar'), e.faultFree);
      }
    }
  }

  /** In every run at most one provider ever writes the request. */
  lemma OneProviderWrites(p: Platform, ars: seq<AccessRequest>, es: seq<Event>, i: nat, j: nat)
    requires Run(p, ars, es) && i <= j < |es| && es[i].ProviderWrite? && es[j].ProviderWrite?
    ensures es[i].provider == es[j].provider
  {
    assert Next(p, ars[i], es[i], ars[i + 1]) && Next(p, ars[j], es[j], ars[j + 1]);
    LabelStays(p, ars, es, i, j, PROVIDER_LABEL);
  }

  /** A denied request is returned to the provider by the next pass, so it is tried again. */
  lemma DeniedIsHandedOverAgain(p: Platform, ar: AccessRequest, after: Option<AccessRequest>)
    requires Pass(p, ar, after, true) && HasBothLabels(ar) && ar.status.phase.Denied? && !IsIgnored(ar) && !MustExpire(ar)
    ensures after.Some? && after.value.status.phase.Pending? && IsProviderResponsible(after.value, "")
  {
    HandedOverIff(p, ar, after);
  }
}
