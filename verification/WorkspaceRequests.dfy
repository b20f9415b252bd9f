/** The requests in the platform namespace of a workspace: the runtime answers ClusterRequests with the one
    cluster that stands for the workspace, and releases everything when the workspace is cleaned up. */
module WorkspaceRequests {
  import opened Kube

  const REQUEST_PREFIX := "request.clusters.openmcp.cloud/"
  const REQUEST_FINALIZER := "workspace.openmcp.cloud/request"
  const ACCESS_FINALIZER := "workspace.openmcp.cloud/access"
  const PURPOSE_ONBOARDING := "onboarding"
  const PURPOSE_MCP := "mcp"

  /** `granted` says that the status refers to the cluster of the workspace. */
  datatype RequestData = RequestData(uid: string, purpose: string, granted: bool)

  type Request = Object<RequestData>

  /** What is in the namespace. There is at most one cluster. */
  datatype State = State(cluster: Option<Object<()>>, requests: map<Key, Request>, accesses: map<Key, Object<()>>)

  predicate Relevant(r: Request) {
    r.spec.purpose in {PURPOSE_ONBOARDING, PURPOSE_MCP}
  }

  /** The uids of the requests that have their finalizer on the cluster. */
  function BackReferences(s: State): set<string> {
    if s.cluster.None? then {} else Suffixes(s.cluster.value.finalizers, REQUEST_PREFIX)
  }

  // ---------- single writes ----------

  function WithBack(s: State, uid: string): State
    requires s.cluster.Some?
  {
    var c := s.cluster.value;
    s.(cluster := Some(c.(finalizers := AddFinalizer(c.finalizers, REQUEST_PREFIX + uid))))
  }

  /** A cluster that is being deleted vanishes with its last finalizer. */
  function WithoutBack(s: State, uid: string): State {
    if s.cluster.None? || REQUEST_PREFIX + uid !in s.cluster.value.finalizers then s
    else
      var c := s.cluster.value.(finalizers := RemoveFinalizer(s.cluster.value.finalizers, REQUEST_PREFIX + uid));
      s.(cluster := if c.deleting && c.finalizers == [] then None else Some(c))
  }

  function WithoutOwn(s: State, k: Key): State
    requires k in s.requests
  {
    var r := s.requests[k];
    s.(requests := Stored(s.requests, k, r.(finalizers := RemoveFinalizer(r.finalizers, REQUEST_FINALIZER))))
  }

  function WithoutCluster(s: State): State {
    s.(cluster := if s.cluster.None? || s.cluster.value.finalizers == [] then None else Some(s.cluster.value.(deleting := true)))
  }

  function NewCluster(): Object<()> {
    Object([], false, map[], map[], ())
  }

  lemma BackAdded(s: State, uid: string)
    requires s.cluster.Some?
    ensures BackReferences(WithBack(s, uid)) == BackReferences(s) + {uid}
  {
    SuffixesAfterAdd(s.cluster.value.finalizers, REQUEST_PREFIX, uid);
  }

  lemma BackRemoved(s: State, uid: string)
    ensures BackReferences(WithoutBack(s, uid)) == BackReferences(s) - {uid}
  {
    if s.cluster.Some? {
      SuffixesAfterRemove(s.cluster.value.finalizers, REQUEST_PREFIX, uid);
      SuffixIn(s.cluster.value.finalizers, REQUEST_PREFIX, uid);
    }
  }

  lemma BackIn(s: State, uid: string)
    ensures uid in BackReferences(s) <==> s.cluster.Some? && REQUEST_PREFIX + uid in s.cluster.value.finalizers
  {
    if s.cluster.Some? {
      SuffixIn(s.cluster.value.finalizers, REQUEST_PREFIX, uid);
    }
  }

  // ---------- events ----------

  /** The writes of the runtime, one by one, and what others do. `releasing` tells the release of a whole
      namespace from the ordinary passes. */
  datatype Event =
    | AddOwn(key: Key)
    | AddBack(key: Key)
    | Grant(key: Key)
    | DropBack(key: Key, releasing: bool)
    | DropOwn(key: Key, releasing: bool)
    | DeleteRequest(key: Key)
    | DeleteCluster
    | CreateCluster
    | DropAccess(key: Key)
    | DeleteAccess(key: Key)
    | Others

  /** No AccessRequest is held by the runtime, and the deletion of all of them has been requested. */
  predicate AccessReleased(s: State) {
    forall a :: a in s.accesses ==> s.accesses[a].deleting && ACCESS_FINALIZER !in s.accesses[a].finalizers
  }

  predicate Released(s: State, k: Key) {
    k in s.requests ==> s.requests[k].deleting && REQUEST_FINALIZER !in s.requests[k].finalizers
  }

  predicate RequestsReleased(s: State) {
    forall k :: k in s.requests ==> Released(s, k)
  }

  /** Live requests are turned to the cluster only once they are held, and are granted only once the cluster
      refers to them. Requests are let go only once the cluster does not refer to them. */
  ghost predicate Next(s: State, e: Event, s': State) {
    match e
    case AddOwn(k) =>
      && k in s.requests && Relevant(s.requests[k]) && !s.requests[k].deleting
      && var r := s.requests[k];
      && s' == s.(requests := s.requests[k := r.(finalizers := AddFinalizer(r.finalizers, REQUEST_FINALIZER))])
    case AddBack(k) =>
      && k in s.requests && !s.requests[k].deleting && REQUEST_FINALIZER in s.requests[k].finalizers
      && s.cluster.Some? && !s.cluster.value.deleting
      && s' == WithBack(s, s.requests[k].spec.uid)
    case Grant(k) =>
      && k in s.requests && !s.requests[k].deleting && s.requests[k].spec.uid in BackReferences(s)
      && s' == s.(requests := s.requests[k := s.requests[k].(spec := s.requests[k].spec.(granted := true))])
    case DropBack(k, releasing) =>
      && k in s.requests && (if releasing then AccessReleased(s) else s.requests[k].deleting)
      && s' == WithoutBack(s, s.requests[k].spec.uid)
    case DropOwn(k, releasing) =>
      && k in s.requests && (if releasing then AccessReleased(s) else s.requests[k].deleting)
      && s.requests[k].spec.uid !in BackReferences(s)
      && s' == WithoutOwn(s, k)
    case DeleteRequest(k) =>
      && k in s.requests && REQUEST_FINALIZER !in s.requests[k].finalizers && AccessReleased(s)
      && s' == s.(requests := Deleted(s.requests, k))
    case DeleteCluster =>
      && AccessReleased(s) && RequestsReleased(s)
      && s' == WithoutCluster(s)
    case CreateCluster =>
      && s.cluster.None?
      && s' == s.(cluster := Some(NewCluster()))
    case DropAccess(k) =>
      && k in s.accesses
      && s' == s.(accesses := Stored(s.accesses, k, s.accesses[k].(finalizers := RemoveFinalizer(s.accesses[k].finalizers, ACCESS_FINALIZER))))
    case DeleteAccess(k) =>
      && k in s.accesses && ACCESS_FINALIZER !in s.accesses[k].finalizers
      && s' == s.(accesses := Deleted(s.accesses, k))
    case Others => OthersStep(s, s')
  }

  /** What others may do: create requests and a cluster, delete both, and change anything but the uids, the
      purposes, the status and the finalizers of the runtime. */
  ghost predicate OthersStep(s: State, s': State) {
    && BackReferences(s') == BackReferences(s)
    && (forall k :: k in s.requests && k !in s'.requests ==> REQUEST_FINALIZER !in s.requests[k].finalizers)
    && (forall k :: k in s'.requests && k in s.requests ==> SameRequest(s.requests[k], s'.requests[k]))
    && (forall k :: k in s'.requests && k !in s.requests ==>
          && !s'.requests[k].spec.granted
          && (forall x :: x in s.requests ==> s.requests[x].spec.uid != s'.requests[k].spec.uid))
    && DistinctUIDs(s')
  }

  predicate SameRequest(r: Request, r': Request) {
    && r'.spec == r.spec
    && (r.deleting ==> r'.deleting)
    && (REQUEST_FINALIZER in r'.finalizers <==> REQUEST_FINALIZER in r.finalizers)
  }

  ghost predicate StepAt(ss: seq<State>, es: seq<Event>, i: nat)
    requires |ss| == |es| + 1 && i < |es|
  {
    Next(ss[i], es[i], ss[i + 1])
  }

  ghost predicate Run(ss: seq<State>, es: seq<Event>) {
    |ss| == |es| + 1 && forall i: nat :: i < |es| ==> StepAt(ss, es, i)
  }

  lemma RunOn(ss: seq<State>, es: seq<Event>, e: Event, s': State)
    requires Run(ss, es) && Next(ss[|es|], e, s')
    ensures Run(ss + [s'], es + [e])
  {
    var ss', es' := ss + [s'], es + [e];
    forall i: nat | i < |es'| ensures StepAt(ss', es', i) {
      if i < |es| {
        assert StepAt(ss, es, i);
        assert ss'[i] == ss[i] && ss'[i + 1] == ss[i + 1] && es'[i] == es[i];
      } else {
        assert ss'[i] == ss[|es|] && ss'[i + 1] == s' && es'[i] == e;
      }
    }
  }

  // ---------- what holds in every reachable state ----------

  ghost predicate DistinctUIDs(s: State) {
    forall a, b :: a in s.requests && b in s.requests && s.requests[a].spec.uid == s.requests[b].spec.uid ==> a == b
  }

  /** A request with this uid exists and is held by the runtime. */
  ghost predicate IsHeld(s: State, uid: string) {
    exists k :: k in s.requests && s.requests[k].spec.uid == uid && REQUEST_FINALIZER in s.requests[k].finalizers
  }

  ghost predicate NothingDangles(s: State) {
    forall u :: u in BackReferences(s) ==> IsHeld(s, u)
  }

  /** Live granted requests are on the cluster, which therefore exists. */
  ghost predicate GrantsCovered(s: State) {
    forall k :: k in s.requests && s.requests[k].spec.granted && !s.requests[k].deleting ==>
      s.requests[k].spec.uid in BackReferences(s)
  }

  lemma HeldStays(s: State, s': State, uid: string)
    requires IsHeld(s, uid)
    requires forall k :: k in s.requests && s.requests[k].spec.uid == uid && REQUEST_FINALIZER in s.requests[k].finalizers ==>
               k in s'.requests && s'.requests[k].spec.uid == uid && REQUEST_FINALIZER in s'.requests[k].finalizers
    ensures IsHeld(s', uid)
  {
    var k :| k in s.requests && s.requests[k].spec.uid == uid && REQUEST_FINALIZER in s.requests[k].finalizers;
    assert k in s'.requests;
  }

  lemma ClusterWritesKeepHeld(s: State, e: Event, s': State)
    requires NothingDangles(s) && Next(s, e, s') && (e.AddBack? || e.DropBack? || e.DeleteCluster?)
    ensures NothingDangles(s')
  {
    if e.DeleteCluster? {
      assert BackReferences(s') <= BackReferences(s);
    } else {
      var r := s.requests[e.key];
      if e.AddBack? {
        BackAdded(s, r.spec.uid);
        assert IsHeld(s, r.spec.uid);
      } else {
        BackRemoved(s, r.spec.uid);
      }
    }
    forall u | u in BackReferences(s') ensures IsHeld(s', u) {
      HeldStays(s, s', u);
    }
  }

  lemma NextKeepsDistinct(s: State, e: Event, s': State)
    requires DistinctUIDs(s) && Next(s, e, s')
    ensures DistinctUIDs(s')
  {
  }

  lemma NextKeepsHeld(s: State, e: Event, s': State)
    requires DistinctUIDs(s) && NothingDangles(s) && Next(s, e, s')
    ensures DistinctUIDs(s') && NothingDangles(s')
  {
    hide DistinctUIDs;
    NextKeepsDistinct(s, e, s');
    if e.AddBack? || e.DropBack? || e.DeleteCluster? {
      ClusterWritesKeepHeld(s, e, s');
    } else {
      forall u | u in BackReferences(s') ensures IsHeld(s', u) {
        HeldStays(s, s', u);
      }
    }
  }

  /** In every run, wherever passes stop and whatever others do, the cluster refers only to requests that exist
      and that the runtime holds. So no request vanishes while the cluster refers to it. */
  lemma {:induction false} NoReferenceDangles(ss: seq<State>, es: seq<Event>, i: nat)
    requires Run(ss, es) && i < |ss| && DistinctUIDs(ss[0]) && NothingDangles(ss[0])
    ensures DistinctUIDs(ss[i]) && NothingDangles(ss[i])
  {
    if i > 0 {
      NoReferenceDangles(ss, es, i - 1);
      assert StepAt(ss, es, i - 1);
      NextKeepsHeld(ss[i - 1], es[i - 1], ss[i]);
    }
  }

  predicate IsRelease(e: Event) {
    e.DropBack? && e.releasing
  }

  lemma NextKeepsCovered(s: State, e: Event, s': State)
    requires DistinctUIDs(s) && GrantsCovered(s) && Next(s, e, s') && !IsRelease(e)
    ensures GrantsCovered(s')
  {
    if e.AddBack? {
      BackAdded(s, s.requests[e.key].spec.uid);
    } else if e.DropBack? {
      BackRemoved(s, s.requests[e.key].spec.uid);
    } else if e.DeleteCluster? {
      assert BackReferences(s') == BackReferences(s);
    }
  }

  /** In every run without a release: a granted request that is not being deleted is on the cluster, which
      exists and cannot vanish. */
  lemma {:induction false} GrantedRequestsHaveCluster(ss: seq<State>, es: seq<Event>, i: nat, k: Key)
    requires Run(ss, es) && i < |ss| && DistinctUIDs(ss[0]) && NothingDangles(ss[0]) && GrantsCovered(ss[0])
    requires forall j :: 0 <= j < i ==> !IsRelease(es[j])
    ensures GrantsCovered(ss[i])
    ensures k in ss[i].requests && ss[i].requests[k].spec.granted && !ss[i].requests[k].deleting ==>
              && ss[i].cluster.Some?
              && REQUEST_PREFIX + ss[i].requests[k].spec.uid in ss[i].cluster.value.finalizers
  {
    if i > 0 {
      GrantedRequestsHaveCluster(ss, es, i - 1, k);
      NoReferenceDangles(ss, es, i - 1);
      assert StepAt(ss, es, i - 1);
      NextKeepsCovered(ss[i - 1], es[i - 1], ss[i]);
    }
    if k in ss[i].requests {
      BackIn(ss[i], ss[i].requests[k].spec.uid);
    }
  }

  /** A step breaks this exactly if it is the release of a granted request that is not being deleted. */
  lemma NextUncoversGrantIff(s: State, e: Event, s': State)
    requires DistinctUIDs(s) && GrantsCovered(s) && Next(s, e, s')
    ensures GrantsCovered(s') <==> !(IsRelease(e) && s.requests[e.key].spec.granted && !s.requests[e.key].deleting)
  {
    if IsRelease(e) {
      BackRemoved(s, s.requests[e.key].spec.uid);
      assert e.key in s'.requests && s'.requests == s.requests;
    } else {
      NextKeepsCovered(s, e, s');
    }
  }

  /** Such a release is possible in every state without AccessRequests. */
  lemma ReleaseUncoversGrant(s: State, k: Key)
    requires DistinctUIDs(s) && GrantsCovered(s) && s.accesses == map[]
    requires k in s.requests && s.requests[k].spec.granted && !s.requests[k].deleting
    ensures exists s' :: Next(s, DropBack(k, true), s') && !GrantsCovered(s')
  {
    var s' := WithoutBack(s, s.requests[k].spec.uid);
    assert Next(s, DropBack(k, true), s');
    NextUncoversGrantIff(s, DropBack(k, true), s');
  }

  // ---------- what passes achieve ----------

  /** There is nothing left to do about the request. */
  predicate Settled(s: State, k: Key) {
    k in s.requests && Relevant(s.requests[k]) ==>
      var r := s.requests[k];
      if r.deleting then REQUEST_FINALIZER !in r.finalizers && r.spec.uid !in BackReferences(s)
      else REQUEST_FINALIZER in r.finalizers && r.spec.uid in BackReferences(s) && r.spec.granted
  }

  /** The same in plain terms, for a request `r` of which `r'` is left: a deleted one is let go and off the
      cluster, and a live one is held, on the cluster and granted. Requests with other purposes stay. */
  predicate Done(r: Request, r': Option<Request>, cluster: Option<Object<()>>) {
    var ref := "request.clusters.openmcp.cloud/" + r.spec.uid;
    var isRef := cluster.Some? && ref in cluster.value.finalizers;
    if r.spec.purpose != "onboarding" && r.spec.purpose != "mcp" then r' == Some(r)
    else if r.deleting then !isRef && (r'.Some? ==> "workspace.openmcp.cloud/request" !in r'.value.finalizers)
    else
      && r'.Some? && r'.value.spec == r.spec.(granted := true) && !r'.value.deleting
      && "workspace.openmcp.cloud/request" in r'.value.finalizers && isRef
  }

  /** Neither who a request is from nor what it is for is changed. It can vanish only if it is being deleted. */
  predicate StaysWhatItIs(r: Request, r': Option<Request>) {
    match r'
    case Some(x) => x.spec.uid == r.spec.uid && x.spec.purpose == r.spec.purpose && x.deleting == r.deleting
    case None => r.deleting
  }

  lemma SettledIsDone(s: State, k: Key, r: Request)
    requires Finished(r, s, k) && StaysWhatItIs(r, At(s.requests, k)) && (!Relevant(r) ==> At(s.requests, k) == Some(r))
    ensures Done(r, At(s.requests, k), s.cluster)
  {
    AgreedNames();
    BackIn(s, r.spec.uid);
  }

  /** The request is settled, and if it has vanished it is off the cluster as well. */
  predicate Finished(r: Request, s: State, k: Key) {
    Settled(s, k) && (k !in s.requests ==> r.spec.uid !in BackReferences(s))
  }

  /** The object is being deleted and the runtime does not hold it. */
  predicate LetGo<S>(o: Object<S>, finalizer: string) {
    o.deleting && finalizer !in o.finalizers
  }

  lemma AgreedNames()
    ensures REQUEST_PREFIX == "request.clusters.openmcp.cloud/" && REQUEST_FINALIZER == "workspace.openmcp.cloud/request"
    ensures ACCESS_FINALIZER == "workspace.openmcp.cloud/access"
    ensures PURPOSE_ONBOARDING == "onboarding" && PURPOSE_MCP == "mcp"
  {
  }

  /** The cluster refers to the request. */
  predicate RefersTo(s: State, k: Key)
    requires k in s.requests
  {
    s.cluster.Some? && "request.clusters.openmcp.cloud/" + s.requests[k].spec.uid in s.cluster.value.finalizers
  }

  predicate Holds(r: Request) {
    "workspace.openmcp.cloud/request" in r.finalizers
  }

  predicate AccessesLetGo(s: State) {
    forall a :: a in s.accesses ==> LetGo(s.accesses[a], "workspace.openmcp.cloud/access")
  }

  /** In which order the runtime writes. A request is held before the cluster refers to it, and this before it is
      granted; only live requests are served, and only for the two purposes, and only by a live cluster. A live
      request is taken off the cluster only in a release, after all AccessRequests have been let go; it is let go
      only when the cluster does not refer to it, and is deleted only after that. */
  lemma RequestsAreWrittenInOrder(s: State, e: Event, s': State, k: Key)
    requires Next(s, e, s') && !e.Others? && DistinctUIDs(s) && k in s.requests
    ensures k in s'.requests ==>
              var r, r' := s.requests[k], s'.requests[k];
              && (Holds(r') && !Holds(r) ==> !r.deleting && r.spec.purpose in {"onboarding", "mcp"})
              && (RefersTo(s', k) && !RefersTo(s, k) ==> Holds(r) && !r.deleting && !s.cluster.value.deleting)
              && (r'.spec != r.spec ==> r'.spec == r.spec.(granted := true) && !r.deleting && RefersTo(s, k))
              && (RefersTo(s, k) && !RefersTo(s', k) ==> r.deleting || (IsRelease(e) && AccessesLetGo(s)))
              && (Holds(r) && !Holds(r') ==> !RefersTo(s, k) && (r.deleting || AccessesLetGo(s)))
              && (r'.deleting && !r.deleting ==> !Holds(r) && AccessesLetGo(s))
    ensures k !in s'.requests ==> !RefersTo(s, k) || (!Holds(s.requests[k]) && AccessesLetGo(s))
  {
    AgreedNames();
    BackIn(s, s.requests[k].spec.uid);
    if k in s'.requests {
      BackIn(s', s'.requests[k].spec.uid);
    }
    if e.AddBack? {
      BackAdded(s, s.requests[e.key].spec.uid);
    } else if e.DropBack? {
      BackRemoved(s, s.requests[e.key].spec.uid);
    }
  }

  /** The cluster is created only if there is none. Its deletion is the last step of a release: all
      AccessRequests and all requests have been let go. */
  lemma ClusterGoesLast(s: State, e: Event, s': State)
    requires Next(s, e, s') && !e.Others?
    ensures s'.cluster.Some? && s.cluster.None? ==> !s'.cluster.value.deleting && s'.cluster.value.finalizers == []
    ensures s.cluster.Some? && !s.cluster.value.deleting && (s'.cluster.None? || s'.cluster.value.deleting) ==>
              AccessesLetGo(s) && forall k :: k in s.requests ==> LetGo(s.requests[k], "workspace.openmcp.cloud/request")
  {
    AgreedNames();
  }

  // ---------- how a pass ends ----------

  /** A live request cannot be put on the cluster, because this is being deleted. */
  predicate Blocks(s: State, k: Key) {
    && k in s.requests && Relevant(s.requests[k]) && !s.requests[k].deleting
    && s.cluster.Some? && s.cluster.value.deleting && s.requests[k].spec.uid !in BackReferences(s)
  }

  /** All that stops a pass whose calls succeed: the cluster has vanished, or it is being deleted and cannot
      take a request. */
  ghost predicate Blocked(s: State) {
    s.cluster.None? || exists k :: Blocks(s, k)
  }

  lemma BlockedMeans(s: State)
    ensures Blocked(s) <==>
              || s.cluster.None?
              || (s.cluster.value.deleting && exists k :: k in s.requests && s.requests[k].spec.purpose in {"onboarding", "mcp"}
                                                          && !s.requests[k].deleting && !RefersTo(s, k))
  {
    AgreedNames();
    forall k | k in s.requests && s.cluster.Some?
      ensures Blocks(s, k) <==> s.cluster.value.deleting && s.requests[k].spec.purpose in {"onboarding", "mcp"}
                                && !s.requests[k].deleting && !RefersTo(s, k)
    {
      BackIn(s, s.requests[k].spec.uid);
    }
  }

  /** What is known about a pass with the requests in `todo` left; `clean` says that no call has failed. */
  ghost predicate PassOutcome(before: State, s: State, todo: set<Key>, ok: bool, clean: bool) {
    && (before.cluster.None? ==>
          && s == before
          && (ok ==> forall k :: k in s.requests && k !in todo ==> !Relevant(s.requests[k]))
          && (!ok && clean ==> exists k :: k in s.requests && Relevant(s.requests[k])))
    && (before.cluster.Some? && !before.cluster.value.deleting ==> s.cluster.Some? && !s.cluster.value.deleting && (ok <==> clean))
    && (!ok && clean ==> Blocked(s))
  }

  lemma FrameAtStart(s: State, todo: set<Key>)
    requires todo <= s.requests.Keys
    ensures PassFrame(s, s, todo) && (todo == s.requests.Keys ==> PassSettled(s, s, todo))
  {
  }

  lemma FrameForFewer(before: State, s: State, todo: set<Key>)
    requires PassFrame(before, s, todo)
    ensures PassFrame(before, s, {}) && todo <= s.requests.Keys
  {
  }

  lemma FrameAtEnd(before: State, s: State, ok: bool)
    requires PassFrame(before, s, {}) && (ok ==> PassSettled(before, s, {}))
    ensures s.accesses == before.accesses && s.requests.Keys <= before.requests.Keys
    ensures forall k :: k in before.requests && !Relevant(before.requests[k]) ==> At(s.requests, k) == At(before.requests, k)
    ensures ok ==> forall k :: k in before.requests ==> Settled(s, k) && Done(before.requests[k], At(s.requests, k), s.cluster)
  {
    hide Done, Settled;
    if ok {
      forall k | k in before.requests ensures Settled(s, k) && Done(before.requests[k], At(s.requests, k), s.cluster) {
        assert Finished(before.requests[k], s, k);
        SettledIsDone(s, k, before.requests[k]);
      }
    }
  }

  lemma OutcomeAtStart(before: State, todo: set<Key>, ok: bool)
    requires ok ==> todo == before.requests.Keys
    ensures PassOutcome(before, before, todo, ok, ok)
  {
  }

  lemma OutcomeAfterVisit(before: State, s: State, todo: set<Key>, k: Key, s': State, ok: bool, clean: bool, clean': bool)
    requires PassOutcome(before, s, todo, true, clean) && k in todo && k in s.requests && (clean' ==> clean)
    requires !Relevant(s.requests[k]) ==> ok && s' == s && clean' == clean
    requires Relevant(s.requests[k]) && s.cluster.None? ==> !ok && s' == s
    requires s.cluster.Some? && !s.cluster.value.deleting ==>
               s'.cluster.Some? && !s'.cluster.value.deleting && (clean ==> (ok <==> clean'))
    requires !ok && clean' ==> Blocked(s')
    ensures PassOutcome(before, s', if ok then todo - {k} else {}, ok, clean')
  {
  }

  lemma OutcomeAtEnd(before: State, s: State, ok: bool, clean: bool)
    requires PassOutcome(before, s, {}, ok, clean)
    ensures before.cluster.None? ==> s == before && (clean ==> (ok <==> forall k :: k in s.requests ==> !Relevant(s.requests[k])))
    ensures before.cluster.Some? && !before.cluster.value.deleting ==> (ok <==> clean)
    ensures !ok && clean ==> Blocked(s)
  {
  }

  lemma LastOnesGo(f: string, g: string)
    requires f != g
    ensures RemoveFinalizer([f, g], g) == [f] && RemoveFinalizer([f], f) == []
  {
    WithoutConcat([f], [g], {g});
    assert [f] + [g] == [f, g];
    assert Without([f][1..], {f}) == [] && Without([g][1..], {g}) == [] && Without([f][1..], {g}) == [];
  }

  /** A cluster that is being deleted may vanish before all requests are let go: here both have been taken off
      it, one of them by a pass that failed then. */
  lemma ClusterMayVanishFirst(s: State, a: Key, b: Key)
    requires a in s.requests && b in s.requests && s.requests[a].deleting && s.requests[b].deleting
    requires Relevant(s.requests[b]) && REQUEST_FINALIZER in s.requests[b].finalizers
    requires s.requests[a].spec.uid != s.requests[b].spec.uid && s.cluster.Some? && s.cluster.value.deleting
    requires s.cluster.value.finalizers == [REQUEST_PREFIX + s.requests[a].spec.uid, REQUEST_PREFIX + s.requests[b].spec.uid]
    ensures exists s', s'' :: Next(s, DropBack(b, false), s') && Next(s', DropBack(a, false), s'') && s''.cluster.None? && !Settled(s'', b)
  {
    var x, y := s.requests[a].spec.uid, s.requests[b].spec.uid;
    PrefixInjective(REQUEST_PREFIX, x, y);
    LastOnesGo(REQUEST_PREFIX + x, REQUEST_PREFIX + y);
    var s' := WithoutBack(s, y);
    var s'' := WithoutBack(s', x);
    assert s'.cluster == Some(s.cluster.value.(finalizers := [REQUEST_PREFIX + x]));
    assert Next(s, DropBack(b, false), s') && Next(s', DropBack(a, false), s'');
  }

  lemma OthersStaySettled(s: State, s': State, k: Key, x: Key)
    requires k in s.requests && x != k && Settled(s, x)
    requires x in s.requests ==> s.requests[x].spec.uid != s.requests[k].spec.uid
    requires OnlyAt(s.requests, s'.requests, k)
    requires forall u :: u != s.requests[k].spec.uid ==> (u in BackReferences(s') <==> u in BackReferences(s))
    ensures Settled(s', x)
  {
  }

  /** If no request is on the cluster any more and nothing dangles, the cluster refers to nobody. */
  lemma NothingLeft(before: State, after: State)
    requires NothingDangles(before) && BackReferences(after) <= BackReferences(before)
    requires forall k :: k in before.requests ==> before.requests[k].spec.uid !in BackReferences(after)
    ensures BackReferences(after) == {}
  {
    forall u | u in BackReferences(before) ensures u !in BackReferences(after) {
      assert IsHeld(before, u);
      var k :| k in before.requests && before.requests[k].spec.uid == u;
    }
  }

  /** What a pass leaves alone that has dealt with all requests but those in `todo`. */
  ghost predicate PassFrame(before: State, s: State, todo: set<Key>) {
    && s.accesses == before.accesses
    && todo <= s.requests.Keys && s.requests.Keys <= before.requests.Keys
    && (forall k :: k in todo ==> s.requests[k] == before.requests[k])
    && (forall k :: k in before.requests ==> StaysWhatItIs(before.requests[k], At(s.requests, k)))
    && (forall k :: k in before.requests && !Relevant(before.requests[k]) ==> At(s.requests, k) == At(before.requests, k))
  }

  ghost predicate PassSettled(before: State, s: State, todo: set<Key>) {
    forall k :: k in before.requests && k !in todo ==> Finished(before.requests[k], s, k)
  }

  lemma ServingKeepsFrame(before: State, s: State, todo: set<Key>, k: Key, s': State)
    requires PassFrame(before, s, todo) && k in todo && Relevant(s.requests[k]) && Confined(s, s', k)
    ensures PassFrame(before, s', todo - {k})
  {
  }

  lemma ServingSettles(before: State, s: State, todo: set<Key>, k: Key, s': State)
    requires DistinctUIDs(before) && PassFrame(before, s, todo) && PassSettled(before, s, todo)
    requires k in todo && Confined(s, s', k) && Finished(s.requests[k], s', k)
    ensures PassSettled(before, s', todo - {k})
  {
    forall x | x in before.requests && x !in todo - {k} ensures Finished(before.requests[x], s', x) {
      if x != k {
        OthersStaySettled(s, s', k, x);
      }
    }
  }

  ghost predicate OnlyAt<T>(m: map<Key, T>, m': map<Key, T>, k: Key) {
    forall x :: x != k ==> (x in m' <==> x in m) && (x in m' ==> m'[x] == m[x])
  }

  /** Dealing with one request changes nothing but the request and its reference on the cluster. */
  ghost predicate Confined(s: State, s': State, k: Key)
    requires k in s.requests
  {
    && s'.accesses == s.accesses
    && OnlyAt(s.requests, s'.requests, k)
    && StaysWhatItIs(s.requests[k], At(s'.requests, k))
    && (forall u :: u != s.requests[k].spec.uid ==> (u in BackReferences(s') <==> u in BackReferences(s)))
  }

  class WorkspaceNamespace {
    var cluster: Option<Object<()>>
    var requests: map<Key, Request>
    var accesses: map<Key, Object<()>>
    ghost var faults: nat
    /** All states so far, and the writes in between. */
    ghost var states: seq<State>
    ghost var events: seq<Event>

    constructor (s: State)
      ensures View() == s && History() && states == [s] && events == []
    {
      cluster, requests, accesses := s.cluster, s.requests, s.accesses;
      states, events := [s], [];
    }

    function View(): State
      reads this
    {
      State(cluster, requests, accesses)
    }

    ghost predicate History()
      reads this
    {
      Run(states, events) && states[|events|] == View()
    }

    method Call() returns (ok: bool)
      modifies `faults
      ensures faults == old(faults) + if ok then 0 else 1
    {
      ok := *;
      if !ok {
        faults := faults + 1;
      }
    }

    ghost method Record(e: Event)
      requires Run(states, events) && Next(states[|events|], e, View())
      modifies `states, `events
      ensures History() && states == old(states) + [View()] && events == old(events) + [e]
    {
      RunOn(states, events, e, View());
      states, events := states + [View()], events + [e];
    }

    // ---------- ordinary passes ----------

    /** Puts the runtime's finalizer on a live request. */
    method HoldRequest(k: Key) returns (ok: bool)
      requires History() && k in requests && Relevant(requests[k]) && !requests[k].deleting
      modifies `requests, `faults, `states, `events
      ensures History() && old(states) <= states && old(events) <= events
      ensures requests.Keys == old(requests).Keys && OnlyAt(old(requests), requests, k)
      ensures requests[k].spec == old(requests)[k].spec && !requests[k].deleting
      ensures ok ==> REQUEST_FINALIZER in requests[k].finalizers
      ensures faults == old(faults) + if ok then 0 else 1
    {
      var r := requests[k];
      if REQUEST_FINALIZER in r.finalizers {
        return true;
      }
      ok := Call();
      if ok {
        requests := requests[k := r.(finalizers := r.finalizers + [REQUEST_FINALIZER])];
        Record(AddOwn(k));
      }
    }

    /** Puts a live request that is held on the cluster. A cluster that is being deleted takes none. */
    method AddBackReference(k: Key) returns (ok: bool)
      requires History() && k in requests && !requests[k].deleting && REQUEST_FINALIZER in requests[k].finalizers && cluster.Some?
      modifies `cluster, `faults, `states, `events
      ensures History() && old(states) <= states && old(events) <= events
      ensures cluster.Some? && cluster.value.deleting == old(cluster).value.deleting
      ensures BackReferences(View()) == BackReferences(old(View())) + if ok then {requests[k].spec.uid} else {}
      ensures faults >= old(faults) && (ok ==> faults == old(faults))
      ensures !ok && faults == old(faults) ==> cluster.value.deleting && View() == old(View()) && requests[k].spec.uid !in BackReferences(View())
    {
      var c, uid := cluster.value, requests[k].spec.uid;
      BackIn(View(), uid);
      if REQUEST_PREFIX + uid in c.finalizers {
        return true;
      }
      if c.deleting {
        return false;
      }
      ok := Call();
      if ok {
        BackAdded(View(), uid);
        cluster := Some(c.(finalizers := c.finalizers + [REQUEST_PREFIX + uid]));
        Record(AddBack(k));
      }
    }

    /** Grants a live request that is on the cluster. */
    method GrantRequest(k: Key) returns (ok: bool)
      requires History() && k in requests && !requests[k].deleting && requests[k].spec.uid in BackReferences(View())
      modifies `requests, `faults, `states, `events
      ensures History() && old(states) <= states && old(events) <= events
      ensures requests == if ok then old(requests)[k := old(requests)[k].(spec := old(requests)[k].spec.(granted := true))]
                          else old(requests)
      ensures faults == old(faults) + if ok then 0 else 1
    {
      ok := Call();
      if ok {
        requests := requests[k := requests[k].(spec := requests[k].spec.(granted := true))];
        Record(Grant(k));
      }
    }

    /** Holds a live request, puts it on the cluster, and grants it, in this order. */
    method AttachRequest(k: Key) returns (ok: bool)
      requires History() && k in requests && Relevant(requests[k]) && !requests[k].deleting && cluster.Some?
      modifies this
      ensures History() && old(states) <= states && old(events) <= events
      ensures ok ==> Settled(View(), k)
      ensures Confined(old(View()), View(), k)
      ensures cluster.Some? && cluster.value.deleting == old(cluster).value.deleting
      ensures faults >= old(faults) && (!old(cluster).value.deleting ==> (ok <==> faults == old(faults)))
      ensures !ok && faults == old(faults) ==> Blocks(View(), k)
    {
      ok := HoldRequest(k);
      if !ok {
        return;
      }
      ok := AddBackReference(k);
      if !ok {
        return;
      }
      ok := GrantRequest(k);
    }

    /** Takes the request off the cluster, if it is on it. */
    method DropBackReference(k: Key, releasing: bool) returns (ok: bool)
      requires History() && k in requests && (if releasing then AccessReleased(View()) else requests[k].deleting)
      modifies `cluster, `faults, `states, `events
      ensures History() && old(states) <= states && old(events) <= events
      ensures View() == if ok then WithoutBack(old(View()), requests[k].spec.uid) else old(View())
      ensures ok ==> requests[k].spec.uid !in BackReferences(View())
      ensures BackReferences(View()) <= BackReferences(old(View()))
      ensures BackReferences(View()) >= BackReferences(old(View())) - {requests[k].spec.uid}
      ensures faults == old(faults) + if ok then 0 else 1
    {
      var uid := requests[k].spec.uid;
      BackRemoved(View(), uid);
      if cluster.None? || REQUEST_PREFIX + uid !in cluster.value.finalizers {
        return true;
      }
      ok := Call();
      if !ok {
        return;
      }
      var c := cluster.value.(finalizers := RemoveFinalizer(cluster.value.finalizers, REQUEST_PREFIX + uid));
      cluster := if c.deleting && c.finalizers == [] then None else Some(c);
      Record(DropBack(k, releasing));
    }

    /** Lets a request go that is not on the cluster. */
    method DropOwnFinalizer(k: Key, releasing: bool) returns (ok: bool)
      requires History() && k in requests && (if releasing then AccessReleased(View()) else requests[k].deleting)
      requires requests[k].spec.uid !in BackReferences(View())
      modifies `requests, `faults, `states, `events
      ensures History() && old(states) <= states && old(events) <= events
      ensures ok ==> k in requests ==>
                REQUEST_FINALIZER !in requests[k].finalizers && requests[k].deleting == old(requests)[k].deleting
                && requests[k].spec == old(requests)[k].spec
      ensures k !in requests ==> old(requests)[k].deleting
      ensures !ok ==> requests == old(requests)
      ensures OnlyAt(old(requests), requests, k)
      ensures faults == old(faults) + if ok then 0 else 1
    {
      var r := requests[k];
      if REQUEST_FINALIZER !in r.finalizers {
        return true;
      }
      ok := Call();
      if !ok {
        return;
      }
      requests := Stored(requests, k, r.(finalizers := RemoveFinalizer(r.finalizers, REQUEST_FINALIZER)));
      Record(DropOwn(k, releasing));
    }

    /** Deals with one request. The cluster is read anew for each of them. */
    method ServeRequest(k: Key) returns (ok: bool)
      requires History() && k in requests && Relevant(requests[k])
      modifies this
      ensures History() && old(states) <= states && old(events) <= events
      ensures ok ==> Finished(old(requests)[k], View(), k)
      ensures Confined(old(View()), View(), k)
      ensures old(cluster).None? ==> !ok && View() == old(View())
      ensures old(cluster).Some? && !old(cluster).value.deleting ==>
                cluster.Some? && !cluster.value.deleting && (ok <==> faults == old(faults))
      ensures faults >= old(faults) && (!ok && faults == old(faults) ==> Blocked(View()))
    {
      ok := Call();
      if !ok || cluster.None? {
        return false;
      }
      if !requests[k].deleting {
        ok := AttachRequest(k);
        return;
      }
      ok := DropBackReference(k, false);
      if ok {
        ok := DropOwnFinalizer(k, false);
      }
    }

    /** The part of a pass that deals with request `k`, if it is relevant. */
    method VisitRequest(k: Key, ghost before: State, ghost todo: set<Key>) returns (ok: bool)
      requires History() && DistinctUIDs(before) && k in todo
      requires PassFrame(before, View(), todo) && PassSettled(before, View(), todo)
      modifies this
      ensures History() && old(states) <= states && old(events) <= events
      ensures PassFrame(before, View(), todo - {k})
      ensures ok ==> PassSettled(before, View(), todo - {k})
      ensures !Relevant(old(requests)[k]) ==> ok && View() == old(View()) && faults == old(faults)
      ensures Relevant(old(requests)[k]) && old(cluster).None? ==> !ok && View() == old(View())
      ensures old(cluster).Some? && !old(cluster).value.deleting ==>
                cluster.Some? && !cluster.value.deleting && (ok <==> faults == old(faults))
      ensures faults >= old(faults) && (!ok && faults == old(faults) ==> Blocked(View()))
    {
      if !Relevant(requests[k]) {
        return true;
      }
      ghost var mid := View();
      ok := ServeRequest(k);
      ServingKeepsFrame(before, mid, todo, k, View());
      if ok {
        ServingSettles(before, mid, todo, k, View());
      }
    }

    /** Deals with all requests of the namespace, in any order, until a call fails. Without a cluster nothing
        is done, not even for requests that are being deleted. */
    method ReconcileClusterRequests() returns (ok: bool)
      requires History() && DistinctUIDs(View())
      modifies this
      ensures History() && old(states) <= states && old(events) <= events
      ensures ok ==> forall k :: k in old(requests) ==> Settled(View(), k) && Done(old(requests)[k], At(requests, k), cluster)
      ensures requests.Keys <= old(requests).Keys && accesses == old(accesses)
      ensures forall k :: k in old(requests) && !Relevant(old(requests)[k]) ==> At(requests, k) == At(old(requests), k)
      ensures old(cluster).None? ==>
                && View() == old(View())
                && (faults == old(faults) ==> (ok <==> forall k :: k in requests ==> !Relevant(requests[k])))
      ensures old(cluster).Some? && !old(cluster).value.deleting ==> (ok <==> faults == old(faults))
      ensures faults >= old(faults) && (!ok && faults == old(faults) ==> Blocked(View()))
    {
      hide Run, DistinctUIDs, Settled, Done, Finished, Blocked, PassOutcome, PassFrame, PassSettled;
      ghost var before := View();
      ok := Call();
      var todo := if ok then requests.Keys else {};
      FrameAtStart(before, todo);
      OutcomeAtStart(before, todo, ok);
      while todo != {}
        invariant History() && old(states) <= states && old(events) <= events
        invariant PassFrame(before, View(), todo) && todo <= requests.Keys
        invariant ok ==> PassSettled(before, View(), todo)
        invariant !ok ==> todo == {}
        invariant faults >= old(faults) && PassOutcome(before, View(), todo, ok, faults == old(faults))
        decreases todo
      {
        var k :| k in todo;
        ghost var s, clean := View(), faults == old(faults);
        ok := VisitRequest(k, before, todo);
        OutcomeAfterVisit(before, s, todo, k, View(), ok, clean, faults == old(faults));
        FrameForFewer(before, View(), todo - {k});
        todo := if ok then todo - {k} else {};
      }
      FrameAtEnd(before, View(), ok);
      OutcomeAtEnd(before, View(), ok, faults == old(faults));
    }

    /** Creates the cluster if there is none, also if it has vanished since the last pass. */
    method EnsureCluster() returns (ok: bool)
      requires History()
      modifies `cluster, `faults, `states, `events
      ensures History() && old(states) <= states && old(events) <= events
      ensures BackReferences(View()) == BackReferences(old(View()))
      ensures old(cluster).Some? ==> cluster == old(cluster)
      ensures ok ==> cluster.Some? && (old(cluster).None? ==> !cluster.value.deleting)
      ensures faults >= old(faults) && (ok <==> faults == old(faults))
    {
      ok := Call();
      if ok && cluster.None? {
        ok := Call();
        if ok {
          cluster := Some(NewCluster());
          Record(CreateCluster);
        }
      }
    }

    /** A whole pass: the cluster first, and then the requests. Without faults it settles all requests, unless
        the cluster is being deleted; what stops it then is that the cluster vanishes on the way, so that the
        next pass creates it anew and settles the rest, or that it cannot take a request. */
    method Reconcile() returns (ok: bool)
      requires History() && DistinctUIDs(View())
      modifies this
      ensures History() && old(states) <= states && old(events) <= events
      ensures ok ==> forall k :: k in old(requests) ==> Settled(View(), k) && Done(old(requests)[k], At(requests, k), cluster)
      ensures requests.Keys <= old(requests).Keys && accesses == old(accesses)
      ensures faults >= old(faults)
      ensures faults == old(faults) && (old(cluster).Some? ==> !old(cluster).value.deleting) ==> ok
      ensures !ok && faults == old(faults) ==> Blocked(View())
    {
      ok := EnsureCluster();
      if ok {
        ok := ReconcileClusterRequests();
      }
    }

    // ---------- release ----------

    method ReleaseAccess(k: Key) returns (ok: bool)
      requires History() && k in accesses
      modifies `accesses, `faults, `states, `events
      ensures History() && old(states) <= states && old(events) <= events
      ensures ok && k in accesses ==> accesses[k].deleting && ACCESS_FINALIZER !in accesses[k].finalizers
      ensures OnlyAt(old(accesses), accesses, k)
      ensures faults >= old(faults) && (ok <==> faults == old(faults))
    {
      var a := accesses[k];
      if ACCESS_FINALIZER in a.finalizers {
        ok := Call();
        if !ok {
          return;
        }
        accesses := Stored(accesses, k, a.(finalizers := RemoveFinalizer(a.finalizers, ACCESS_FINALIZER)));
        Record(DropAccess(k));
      }
      ok := Call();
      if ok && k in accesses {
        accesses := Deleted(accesses, k);
        Record(DeleteAccess(k));
      }
    }

    method ReleaseRequest(k: Key) returns (ok: bool)
      requires History() && k in requests && AccessReleased(View())
      modifies `cluster, `requests, `faults, `states, `events
      ensures History() && old(states) <= states && old(events) <= events
      ensures ok ==> Released(View(), k) && old(requests)[k].spec.uid !in BackReferences(View())
      ensures BackReferences(View()) <= BackReferences(old(View()))
      ensures OnlyAt(old(requests), requests, k)
      ensures faults >= old(faults) && (ok <==> faults == old(faults))
    {
      ok := DropBackReference(k, true);
      if !ok {
        return;
      }
      ok := DropOwnFinalizer(k, true);
      if !ok {
        return;
      }
      ok := Call();
      if ok && k in requests {
        requests := Deleted(requests, k);
        Record(DeleteRequest(k));
      }
    }

    method ReleaseAccesses() returns (ok: bool)
      requires History()
      modifies `accesses, `faults, `states, `events
      ensures History() && old(states) <= states && old(events) <= events
      ensures ok ==> AccessReleased(View())
      ensures faults >= old(faults) && (ok <==> faults == old(faults))
    {
      ok := Call();
      var todo := if ok then accesses.Keys else {};
      while todo != {}
        invariant History() && old(states) <= states && old(events) <= events
        invariant todo <= accesses.Keys && (ok ==> faults == old(faults)) && (!ok ==> todo == {})
        invariant ok ==> forall a :: a in accesses && a !in todo ==> accesses[a].deleting && ACCESS_FINALIZER !in accesses[a].finalizers
        invariant faults >= old(faults) && (!ok ==> faults > old(faults))
        decreases todo
      {
        var k :| k in todo;
        ok := ReleaseAccess(k);
        todo := if ok then todo - {k} else {};
      }
    }

    method ReleaseRequests() returns (ok: bool)
      requires History() && AccessReleased(View())
      modifies `cluster, `requests, `faults, `states, `events
      ensures History() && old(states) <= states && old(events) <= events
      ensures ok ==> RequestsReleased(View())
      ensures ok ==> forall k :: k in old(requests) ==> old(requests)[k].spec.uid !in BackReferences(View())
      ensures BackReferences(View()) <= BackReferences(old(View()))
      ensures faults >= old(faults) && (ok <==> faults == old(faults))
    {
      ok := Call();
      ghost var before := View();
      var todo := if ok then requests.Keys else {};
      while todo != {}
        invariant History() && old(states) <= states && old(events) <= events
        invariant accesses == before.accesses && BackReferences(View()) <= BackReferences(before)
        invariant todo <= requests.Keys && requests.Keys <= before.requests.Keys
        invariant forall k :: k in todo ==> requests[k] == before.requests[k]
        invariant ok ==> faults == old(faults)
        invariant !ok ==> todo == {} && faults > old(faults)
        invariant ok ==> forall k :: k in before.requests && k !in todo ==>
                    Released(View(), k) && before.requests[k].spec.uid !in BackReferences(View())
        decreases todo
      {
        var k :| k in todo;
        ok := ReleaseRequest(k);
        todo := if ok then todo - {k} else {};
      }
    }

    method DeleteWorkspaceCluster() returns (ok: bool)
      requires History() && AccessReleased(View()) && RequestsReleased(View())
      modifies `cluster, `faults, `states, `events
      ensures History() && old(states) <= states && old(events) <= events
      ensures ok ==> cluster.Some? ==> cluster.value.deleting
      ensures BackReferences(View()) <= BackReferences(old(View()))
      ensures faults >= old(faults) && (ok <==> faults == old(faults))
    {
      ok := true;
      if cluster.Some? {
        ok := Call();
        if ok {
          var c := cluster.value;
          cluster := if c.finalizers == [] then None else Some(c.(deleting := true));
          Record(DeleteCluster);
        }
      }
    }

    /** Releases the namespace: AccessRequests first, then ClusterRequests, and then the cluster, until a call
        fails. At the end the runtime holds nothing any more, and no request is on the cluster. */
    method ReleasePlatformRequests() returns (ok: bool)
      requires History()
      modifies this
      ensures History() && old(states) <= states && old(events) <= events
      ensures ok ==> AccessReleased(View()) && RequestsReleased(View()) && (cluster.Some? ==> cluster.value.deleting)
      ensures ok ==> forall a :: a in accesses ==> LetGo(accesses[a], "workspace.openmcp.cloud/access")
      ensures ok ==> forall k :: k in requests ==> LetGo(requests[k], "workspace.openmcp.cloud/request")
      ensures ok && NothingDangles(old(View())) ==> BackReferences(View()) == {}
      ensures faults >= old(faults) && (ok <==> faults == old(faults))
    {
      ghost var before := View();
      ok := ReleaseAccesses();
      if !ok {
        return;
      }
      ok := Call();
      if !ok {
        return;
      }
      ok := ReleaseRequests();
      if !ok {
        return;
      }
      if NothingDangles(before) {
        NothingLeft(before, View());
      }
      ok := DeleteWorkspaceCluster();
    }
  }

}
