/** The cluster access library: for every registration of a controller it keeps a ClusterRequest and an
    AccessRequest on the platform cluster, and takes them away again in this order: first the
    AccessRequest, then the ClusterRequest. */
module ClusterAccess {
  import opened Kube

  const FINALIZER := "clusters.openmcp.cloud/clusteraccess"

  datatype Target = ToCluster(key: Key) | ToRequest(key: Key)

  /** What a registration computes; it may also decide that there is nothing, or fail. */
  datatype Generated<+T> = Failure | Nothing | Something(value: T)

  /** A registration after it has been parameterized for a request. `name` and `labels` are those of all
      objects that are managed for it. */
  datatype Params = Params(
    namespace: Option<string>, name: string, labels: Labels,
    accessAvailable: bool, requestAvailable: bool,
    requestSpec: Generated<string>, reference: Option<Target>,
    token: Generated<string>, oidc: Generated<string>)

  datatype RequestData = RequestData(content: string, granted: bool)

  /** `upToDate` says that the observed generation is the current one. */
  datatype AccessData = AccessData(
    target: Target, token: Option<string>, oidc: Option<string>, granted: bool, upToDate: bool)

  type ClusterRequest = Object<RequestData>
  type AccessRequest = Object<AccessData>

  datatype State = State(namespaces: set<string>, requests: map<Key, ClusterRequest>, accesses: map<Key, AccessRequest>)

  type Registrations = map<string, Params>

  predicate HasKey(p: Params) {
    p.namespace.Some?
  }

  function KeyOf(p: Params): Key
    requires HasKey(p)
  {
    Key(p.namespace.value, p.name)
  }

  predicate Managed<S>(o: Object<S>, expected: Labels) {
    forall k :: k in expected ==> k in o.labels && o.labels[k] == expected[k]
  }

  predicate ManagedAt<S>(m: map<Key, Object<S>>, p: Params) {
    HasKey(p) && KeyOf(p) in m && Managed(m[KeyOf(p)], p.labels)
  }

  // ---------- taking one object away ----------

  datatype Progress = Gone | Pending | Failed

  /** Mark the object, and remove the own finalizer if it is the only one that is left. */
  function AfterDeletion<S>(m: map<Key, Object<S>>, k: Key): map<Key, Object<S>>
    requires k in m
  {
    if m[k].finalizers == [FINALIZER] then m - {k} else if m[k].deleting then m else Deleted(m, k)
  }

  /** How taking away the object of a registration may end. Objects of others are left alone. */
  ghost predicate DeletionOutcome<S>(m: map<Key, Object<S>>, p: Params, m': map<Key, Object<S>>, res: Progress)
    requires HasKey(p)
  {
    var k := KeyOf(p);
    match res
    case Gone => if ManagedAt(m, p) then m[k].finalizers == [FINALIZER] && m' == AfterDeletion(m, k) else m' == m
    case Pending => ManagedAt(m, p) && m[k].finalizers != [FINALIZER] && m' == AfterDeletion(m, k)
    case Failed => m' == m || (ManagedAt(m, p) && m' == Deleted(m, k))
  }

  /** Nothing is created, objects that others hold stay, labels and the order of finalizers stay. */
  ghost predicate OnlyTakesAway<S>(m: map<Key, Object<S>>, m': map<Key, Object<S>>) {
    && (forall k :: k in m' ==> k in m && m'[k] in {m[k], m[k].(deleting := true)})
    && (forall k :: k in m && k !in m' ==> m[k].finalizers == [] || m[k].finalizers == [FINALIZER])
  }

  lemma DeletionTakesAway<S>(m: map<Key, Object<S>>, p: Params, m': map<Key, Object<S>>, res: Progress)
    requires HasKey(p) && DeletionOutcome(m, p, m', res)
    ensures OnlyTakesAway(m, m')
    ensures res.Gone? ==> !ManagedAt(m', p)
    ensures res.Pending? ==> KeyOf(p) in m' ==> m'[KeyOf(p)].deleting
    ensures forall k :: k != KeyOf(p) || !ManagedAt(m, p) ==> At(m', k) == At(m, k)
  {
  }

  // ---------- a deletion pass ----------

  /** The objects of the registration that a deletion pass is in charge of do not exist. */
  predicate Cleared(s: State, p: Params) {
    (p.accessAvailable ==> !ManagedAt(s.accesses, p)) && (p.requestAvailable ==> !ManagedAt(s.requests, p))
  }

  /** Nobody else holds the objects of the registration. */
  predicate OnlyOwnFinalizer(s: State, p: Params) {
    && (ManagedAt(s.accesses, p) ==> s.accesses[KeyOf(p)].finalizers == [FINALIZER])
    && (ManagedAt(s.requests, p) ==> s.requests[KeyOf(p)].finalizers == [FINALIZER])
  }

  datatype Result = Result(requeueAfter: int, failed: bool)

  /** The ClusterRequest of registration `id` is going to be deleted in state `s`. */
  datatype Deletion = Deletion(id: string, s: State)

  predicate DeletionInOrder(regs: Registrations, d: Deletion) {
    d.id in regs && (regs[d.id].accessAvailable ==> !ManagedAt(d.s.accesses, regs[d.id]))
  }

  predicate Completed(res: Result) {
    !res.failed && res.requeueAfter == 0
  }

  /** Which changes a deletion pass makes, wherever it stops. `deletions` are the ClusterRequests that it
      starts to delete. */
  ghost predicate DeletePassFrame(regs: Registrations, interval: int, s: State, s': State, deletions: seq<Deletion>) {
    && s'.namespaces == s.namespaces
    && OnlyTakesAway(s.accesses, s'.accesses) && OnlyTakesAway(s.requests, s'.requests)
    && (forall k :: At(s'.accesses, k) != At(s.accesses, k) ==>
          exists id :: id in regs && regs[id].accessAvailable && ManagedAt(s.accesses, regs[id]) && KeyOf(regs[id]) == k)
    && (forall k :: At(s'.requests, k) != At(s.requests, k) ==>
          exists d :: d in deletions && d.id in regs && regs[d.id].requestAvailable && ManagedAt(s.requests, regs[d.id]) && KeyOf(regs[d.id]) == k)
    && (forall d :: d in deletions ==> OnlyTakesAway(d.s.accesses, s'.accesses))
    && (interval > 0 ==> forall d :: d in deletions ==> DeletionInOrder(regs, d))
  }

  /** With a positive interval a pass that neither fails nor asks to be called again has cleared all
      registrations, and a pass that does not fail has requested the deletion of all AccessRequests. */
  ghost predicate DeletePass(regs: Registrations, interval: int, s: State, s': State, res: Result, deletions: seq<Deletion>) {
    && DeletePassFrame(regs, interval, s, s', deletions)
    && (interval > 0 && Completed(res) ==> forall id :: id in regs ==> Cleared(s', regs[id]))
    && (!res.failed ==> forall id :: id in regs ==>
          regs[id].accessAvailable && ManagedAt(s'.accesses, regs[id]) ==> s'.accesses[KeyOf(regs[id])].deleting)
    && (res.requeueAfter == 0 || res.requeueAfter == interval)
  }

  lemma TakesAwayTransitive<S>(a: map<Key, Object<S>>, b: map<Key, Object<S>>, c: map<Key, Object<S>>)
    requires OnlyTakesAway(a, b) && OnlyTakesAway(b, c)
    ensures OnlyTakesAway(a, c)
  {
  }

  /** The object belongs to the registration: it has its key and all of its labels. */
  predicate IsOwn<S>(m: map<Key, Object<S>>, p: Params, k: Key) {
    && p.namespace == Some(k.namespace) && p.name == k.name && k in m
    && forall l :: l in p.labels ==> At(m[k].labels, l) == Some(p.labels[l])
  }

  lemma IsOwnIff<S>(m: map<Key, Object<S>>, p: Params, k: Key)
    ensures IsOwn(m, p, k) <==> ManagedAt(m, p) && KeyOf(p) == k
  {
  }

  /** Deletion marks the object, and it vanishes only if nobody else holds it. */
  ghost predicate TakenAway<S>(o: Object<S>, o': Option<Object<S>>) {
    match o'
    case Some(x) => x == o.(deleting := true)
    case None => forall f :: f in o.finalizers ==> f == "clusters.openmcp.cloud/clusteraccess"
  }

  /** What a deletion pass does, wherever it stops, in terms of keys, labels and finalizers. */
  lemma OnlyOwnAreTakenAway(regs: Registrations, interval: int, s: State, s': State, res: Result, deletions: seq<Deletion>, k: Key)
    requires DeletePass(regs, interval, s, s', res, deletions)
    ensures s'.namespaces == s.namespaces
    ensures At(s'.accesses, k) != At(s.accesses, k) ==>
              && k in s.accesses && TakenAway(s.accesses[k], At(s'.accesses, k))
              && exists id :: id in regs && regs[id].accessAvailable && IsOwn(s.accesses, regs[id], k)
    ensures At(s'.requests, k) != At(s.requests, k) ==>
              && k in s.requests && TakenAway(s.requests[k], At(s'.requests, k))
              && exists id :: id in regs && regs[id].requestAvailable && IsOwn(s.requests, regs[id], k)
  {
    hide Managed, IsOwn;
    assert FINALIZER == "clusters.openmcp.cloud/clusteraccess";
    if At(s'.accesses, k) != At(s.accesses, k) {
      var id :| id in regs && regs[id].accessAvailable && ManagedAt(s.accesses, regs[id]) && KeyOf(regs[id]) == k;
      IsOwnIff(s.accesses, regs[id], k);
    }
    if At(s'.requests, k) != At(s.requests, k) {
      var d :| d in deletions && d.id in regs && regs[d.id].requestAvailable && ManagedAt(s.requests, regs[d.id]) && KeyOf(regs[d.id]) == k;
      IsOwnIff(s.requests, regs[d.id], k);
    }
  }

  /** After a complete deletion pass with a positive interval no own object is left, and after any pass without
      error the deletion of all AccessRequests has been requested. */
  lemma CompletedMeansGone(regs: Registrations, interval: int, s: State, s': State, res: Result, deletions: seq<Deletion>, id: string, k: Key)
    requires DeletePass(regs, interval, s, s', res, deletions) && interval > 0 && id in regs
    ensures res == Result(0, false) ==>
              && (regs[id].accessAvailable ==> !IsOwn(s'.accesses, regs[id], k))
              && (regs[id].requestAvailable ==> !IsOwn(s'.requests, regs[id], k))
    ensures !res.failed && regs[id].accessAvailable && IsOwn(s'.accesses, regs[id], k) ==> s'.accesses[k].deleting
  {
    hide DeletePassFrame, IsOwn;
    IsOwnIff(s'.accesses, regs[id], k);
    IsOwnIff(s'.requests, regs[id], k);
  }

  /** A delete call for a ClusterRequest is made only when the AccessRequest of its registration is gone. */
  lemma RequestGoesAfterAccess(regs: Registrations, interval: int, s: State, s': State, res: Result, deletions: seq<Deletion>, d: Deletion, k: Key)
    requires DeletePass(regs, interval, s, s', res, deletions) && interval > 0 && d in deletions
    ensures d.id in regs && (regs[d.id].accessAvailable ==> !IsOwn(d.s.accesses, regs[d.id], k) && !IsOwn(s'.accesses, regs[d.id], k))
  {
    hide IsOwn;
    IsOwnIff(d.s.accesses, regs[d.id], k);
    IsOwnIff(s'.accesses, regs[d.id], k);
  }

  // ---------- a pass that keeps the objects ----------

  function NewRequest(p: Params): ClusterRequest
    requires p.requestSpec.Something?
  {
    Object([FINALIZER], false, p.labels, map[], RequestData(p.requestSpec.value, false))
  }

  function Value<T>(g: Generated<T>): Option<T> {
    if g.Something? then Some(g.value) else None
  }

  /** The configuration and labels that the registration asks for. A changed configuration makes the
      object outdated until it has been observed. */
  function WithConfig(ar: AccessRequest, p: Params): AccessRequest {
    var changed := ar.spec.token != Value(p.token) || ar.spec.oidc != Value(p.oidc);
    ar.(finalizers := AddFinalizer(ar.finalizers, FINALIZER), labels := ar.labels + p.labels,
        spec := ar.spec.(token := Value(p.token), oidc := Value(p.oidc), upToDate := ar.spec.upToDate && !changed))
  }

  /** What an AccessRequest of the registration refers to: its own ClusterRequest, if it has one. */
  function TargetOf(p: Params): Option<Target>
    requires HasKey(p)
  {
    if p.requestSpec.Something? then Some(ToRequest(KeyOf(p))) else p.reference
  }

  function NewAccess(p: Params, target: Target): AccessRequest {
    Object([FINALIZER], false, p.labels, map[], AccessData(target, Value(p.token), Value(p.oidc), false, false))
  }

  predicate GrantedRequest(s: State, p: Params) {
    ManagedAt(s.requests, p) && s.requests[KeyOf(p)].spec.granted
  }

  /** The AccessRequest can be used. One that is being deleted is not looked at any further. */
  predicate UsableAccess(s: State, p: Params) {
    && ManagedAt(s.accesses, p)
    && var ar := s.accesses[KeyOf(p)];
    && (!ar.deleting ==>
          && ar.spec.granted && ar.spec.upToDate && FINALIZER in ar.finalizers
          && ar.spec.token == Value(p.token) && ar.spec.oidc == Value(p.oidc))
  }

  /** The registration has everything it asks for, and nothing that it does not ask for any more. */
  predicate Ready(s: State, p: Params) {
    && HasKey(p) && p.namespace.value in s.namespaces
    && p.requestSpec != Failure
    && (p.requestSpec.Something? ==> GrantedRequest(s, p))
    && (if p.accessAvailable then UsableAccess(s, p) else !ManagedAt(s.accesses, p))
  }

  /** The registration cannot be served: it fails itself, objects of others are in the way, or it does not
      say what access is wanted to. */
  predicate Blocked(s: State, p: Params) {
    || !HasKey(p) || p.requestSpec.Failure?
    || (p.requestSpec.Something? && KeyOf(p) in s.requests && !ManagedAt(s.requests, p))
    || (p.accessAvailable &&
          (|| p.token.Failure? || p.oidc.Failure?
           || (KeyOf(p) in s.accesses && !ManagedAt(s.accesses, p))
           || (KeyOf(p) !in s.accesses && TargetOf(p).None?)))
  }

  /** Everything has been done for the registration, but others have not granted or removed its objects yet. */
  predicate Waits(before: State, s: State, p: Params) {
    && HasKey(p)
    && (|| (p.requestSpec.Something? && ManagedAt(s.requests, p) && !s.requests[KeyOf(p)].spec.granted)
        || (p.accessAvailable && ManagedAt(s.accesses, p) && FINALIZER in s.accesses[KeyOf(p)].finalizers
            && !(s.accesses[KeyOf(p)].spec.granted && s.accesses[KeyOf(p)].spec.upToDate)
            && s.accesses[KeyOf(p)].spec.token == Value(p.token) && s.accesses[KeyOf(p)].spec.oidc == Value(p.oidc))
        || (!p.accessAvailable && ManagedAt(before.accesses, p) && (ManagedAt(s.accesses, p) ==> s.accesses[KeyOf(p)].deleting)))
  }

  lemma OtherStaysWaiting(before: State, p: Params, q: Params, interval: int, inDeletion: bool, s: State, s': State, out: Outcome)
    requires OneReconciled(q, interval, inDeletion, s, s', out) && Waits(before, s, p)
    requires HasKey(q) ==> KeyOf(q) != KeyOf(p)
    ensures Waits(before, s', p)
  {
    if s'.accesses != s.accesses {
      assert At(s'.accesses, KeyOf(p)) == At(s.accesses, KeyOf(p));
    }
  }

  datatype Outcome = Proceed | RequeueLater | ReturnNow | Error

  ghost predicate AccessStep(p: Params, creating: bool, a: map<Key, AccessRequest>, a': map<Key, AccessRequest>)
    requires HasKey(p)
  {
    var k := KeyOf(p);
    if p.accessAvailable then
      || a' == a
      || (creating && k !in a && TargetOf(p).Some? && a' == a[k := NewAccess(p, TargetOf(p).value)])
      || (ManagedAt(a, p) && !a[k].deleting && a' == a[k := WithConfig(a[k], p)])
    else exists res :: DeletionOutcome(a, p, a', res)
  }

  /** What a pass may do for one registration. It creates objects only if the request is not in deletion,
      and it turns to the AccessRequest only after the ClusterRequest is granted. */
  ghost predicate OneReconciled(p: Params, interval: int, inDeletion: bool, s: State, s': State, out: Outcome) {
    && (s'.namespaces == s.namespaces || (!inDeletion && HasKey(p) && s'.namespaces == s.namespaces + {p.namespace.value}))
    && (s'.requests == s.requests
        || (!inDeletion && HasKey(p) && KeyOf(p) !in s.requests && p.requestSpec.Something?
            && s'.requests == s.requests[KeyOf(p) := NewRequest(p)]))
    && (s'.accesses == s.accesses
        || (HasKey(p) && AccessStep(p, !inDeletion, s.accesses, s'.accesses)
            && (p.requestSpec.Something? ==> GrantedRequest(s', p))))
    && (out.Proceed? && !inDeletion && interval > 0 ==> Ready(s', p))
    && (out.ReturnNow? || (out.RequeueLater? && p.accessAvailable) ==> !Ready(s', p))
  }

  ghost predicate DistinctKeys(regs: Registrations) {
    forall a, b :: a in regs && b in regs && HasKey(regs[a]) && HasKey(regs[b]) && KeyOf(regs[a]) == KeyOf(regs[b]) ==> a == b
  }

  ghost predicate AllReady(regs: Registrations, ids: set<string>, s: State) {
    ids <= regs.Keys && forall id :: id in ids ==> Ready(s, regs[id])
  }

  /** Which changes a pass makes, wherever it stops: no ClusterRequest is ever changed, objects of others
      are left alone, everything new belongs to a registration, and an AccessRequest is created only for a
      registration whose ClusterRequest, if it asks for one, is granted and referred to. */
  ghost predicate ReconcileFrame(regs: Registrations, inDeletion: bool, s: State, s': State) {
    && s.namespaces <= s'.namespaces
    && (forall k :: k in s.requests ==> k in s'.requests && s'.requests[k] == s.requests[k])
    && (forall k :: k in s'.requests && k !in s.requests ==>
          exists id :: id in regs && regs[id].requestSpec.Something? && HasKey(regs[id]) && KeyOf(regs[id]) == k)
    && (forall k :: k in s.accesses && At(s'.accesses, k) != At(s.accesses, k) ==>
          exists id :: id in regs && ManagedAt(s.accesses, regs[id]) && KeyOf(regs[id]) == k)
    && (forall k :: k in s'.accesses && k !in s.accesses ==>
          exists id :: id in regs && regs[id].accessAvailable && Justified(s', regs[id], k, s'.accesses[k].spec.target))
    && (inDeletion ==> s'.namespaces == s.namespaces && s'.requests == s.requests && s'.accesses.Keys <= s.accesses.Keys)
  }

  predicate Justified(s: State, p: Params, k: Key, target: Target) {
    && HasKey(p) && KeyOf(p) == k && TargetOf(p) == Some(target)
    && (p.requestSpec.Something? ==> GrantedRequest(s, p))
  }

  // ---------- what may become of the objects of one registration ----------

  /** A ClusterRequest can only come up, with the content that the registration asks for, the own finalizer and
      the labels of the registration. */
  predicate RequestChange(p: Params, inDeletion: bool, cr: Option<ClusterRequest>, cr': Option<ClusterRequest>) {
    || cr' == cr
    || (!inDeletion && cr.None? && p.requestSpec.Something?
        && cr' == Some(Object(["clusters.openmcp.cloud/clusteraccess"], false, p.labels, map[], RequestData(p.requestSpec.value, false))))
  }

  /** An AccessRequest comes up for the registration's own ClusterRequest, or, if it has none, for what the
      registration refers to. It gets the configuration of the registration. */
  predicate AccessComesUp(p: Params, k: Key, ar': Option<AccessRequest>) {
    && ar'.Some? && p.accessAvailable
    && var ar := ar'.value;
    && ar.finalizers == ["clusters.openmcp.cloud/clusteraccess"] && !ar.deleting && ar.labels == p.labels
    && (if p.requestSpec.Something? then ar.spec.target == ToRequest(k) else p.reference == Some(ar.spec.target))
    && HasConfig(p, ar) && !ar.spec.granted && !ar.spec.upToDate
  }

  predicate HasConfig(p: Params, ar: AccessRequest) {
    && ar.spec.token == (if p.token.Something? then Some(p.token.value) else None)
    && ar.spec.oidc == (if p.oidc.Something? then Some(p.oidc.value) else None)
  }

  /** A live one that is managed gets the current configuration, labels and finalizer. What it refers to and
      all other labels and finalizers stay. */
  ghost predicate AccessIsUpdated(p: Params, ar: AccessRequest, ar': Option<AccessRequest>) {
    && ar'.Some? && p.accessAvailable && !ar.deleting && !ar'.value.deleting && HasConfig(p, ar'.value)
    && ar'.value.spec.target == ar.spec.target && ar'.value.spec.granted == ar.spec.granted
    && (ar'.value.spec.upToDate <==> ar.spec.upToDate && HasConfig(p, ar))
    && ar'.value.labels == ar.labels + p.labels && ar'.value.annotations == ar.annotations
    && (forall f :: f in ar'.value.finalizers <==> f in ar.finalizers || f == "clusters.openmcp.cloud/clusteraccess")
  }

  /** One that is not asked for any more is deleted. The own finalizer goes only as the last one. */
  predicate AccessIsDeleted(p: Params, ar: AccessRequest, ar': Option<AccessRequest>) {
    && !p.accessAvailable
    && (if ar'.None? then ar.finalizers in [[], ["clusters.openmcp.cloud/clusteraccess"]] else ar'.value == ar.(deleting := true))
  }

  /** Nothing happens to the AccessRequest before the ClusterRequest is granted. */
  ghost predicate LocalStep(p: Params, inDeletion: bool, s: State, s': State)
    requires HasKey(p)
  {
    var k := KeyOf(p);
    var ar, ar' := At(s.accesses, k), At(s'.accesses, k);
    && RequestChange(p, inDeletion, At(s.requests, k), At(s'.requests, k))
    && (ar' != ar ==>
          && (p.requestSpec.Something? ==> ManagedAt(s'.requests, p) && s'.requests[k].spec.granted)
          && (if ar.None? then !inDeletion && AccessComesUp(p, k, ar')
              else ManagedAt(s.accesses, p) && (AccessIsUpdated(p, ar.value, ar') || AccessIsDeleted(p, ar.value, ar'))))
  }

  ghost predicate Local(regs: Registrations, inDeletion: bool, s: State, s': State) {
    forall id :: id in regs && HasKey(regs[id]) ==> LocalStep(regs[id], inDeletion, s, s')
  }

  lemma OneIsLocal(p: Params, interval: int, inDeletion: bool, s: State, s': State, out: Outcome)
    requires HasKey(p) && OneReconciled(p, interval, inDeletion, s, s', out)
    ensures LocalStep(p, inDeletion, s, s')
  {
    var k := KeyOf(p);
    assert FINALIZER == "clusters.openmcp.cloud/clusteraccess";
    if At(s'.accesses, k) != At(s.accesses, k) {
      AccessStepIsLocal(p, inDeletion, s.accesses, s'.accesses);
    }
  }

  lemma AccessStepIsLocal(p: Params, inDeletion: bool, a: map<Key, AccessRequest>, a': map<Key, AccessRequest>)
    requires HasKey(p) && AccessStep(p, !inDeletion, a, a') && At(a', KeyOf(p)) != At(a, KeyOf(p))
    ensures
      var k := KeyOf(p);
      if k !in a then !inDeletion && AccessComesUp(p, k, At(a', k))
      else ManagedAt(a, p) && (AccessIsUpdated(p, a[k], At(a', k)) || AccessIsDeleted(p, a[k], At(a', k)))
  {
    assert FINALIZER == "clusters.openmcp.cloud/clusteraccess";
  }

  /** What one part of a pass does leaves the objects of other registrations alone. */
  ghost predicate Untouched(p: Params, s: State, s': State)
    requires HasKey(p)
  {
    At(s'.requests, KeyOf(p)) == At(s.requests, KeyOf(p)) && At(s'.accesses, KeyOf(p)) == At(s.accesses, KeyOf(p))
  }

  lemma OthersUntouched(p: Params, q: Params, interval: int, inDeletion: bool, s: State, s': State, out: Outcome)
    requires HasKey(p) && OneReconciled(q, interval, inDeletion, s, s', out) && (HasKey(q) ==> KeyOf(q) != KeyOf(p))
    ensures Untouched(p, s, s')
  {
  }

  lemma LocalBetween(p: Params, inDeletion: bool, a: State, b: State, c: State, d: State)
    requires HasKey(p) && LocalStep(p, inDeletion, b, c) && Untouched(p, a, b) && Untouched(p, c, d)
    ensures LocalStep(p, inDeletion, a, d)
  {
  }

  ghost predicate LocalSoFar(regs: Registrations, todo: set<string>, inDeletion: bool, s: State, s': State) {
    forall id :: id in regs && HasKey(regs[id]) ==>
      LocalStep(regs[id], inDeletion, s, s') && (id in todo ==> Untouched(regs[id], s, s'))
  }

  lemma LocalStarts(regs: Registrations, todo: set<string>, inDeletion: bool, s: State)
    ensures LocalSoFar(regs, todo, inDeletion, s, s) && Local(regs, inDeletion, s, s)
  {
  }

  lemma LocalGrows(regs: Registrations, todo: set<string>, interval: int, inDeletion: bool, s: State, mid: State, s': State, id: string, out: Outcome)
    requires DistinctKeys(regs) && LocalSoFar(regs, todo, inDeletion, s, mid) && id in regs && id in todo
    requires OneReconciled(regs[id], interval, inDeletion, mid, s', out)
    ensures LocalSoFar(regs, todo - {id}, inDeletion, s, s') && Local(regs, inDeletion, s, s')
  {
    hide LocalStep, Untouched, OneReconciled;
    forall x | x in regs && HasKey(regs[x])
      ensures LocalStep(regs[x], inDeletion, s, s') && (x in todo - {id} ==> Untouched(regs[x], s, s'))
    {
      if x == id {
        OneIsLocal(regs[id], interval, inDeletion, mid, s', out);
        SameUntouched(regs[id], s');
        LocalBetween(regs[id], inDeletion, s, mid, s', s');
      } else {
        OthersUntouched(regs[x], regs[id], interval, inDeletion, mid, s', out);
        SameUntouched(regs[x], s);
        LocalBetween(regs[x], inDeletion, s, s, mid, s');
        if x in todo {
          UntouchedTwice(regs[x], s, mid, s');
        }
      }
    }
  }

  lemma SameUntouched(p: Params, s: State)
    requires HasKey(p)
    ensures Untouched(p, s, s)
  {
  }

  lemma UntouchedTwice(p: Params, a: State, b: State, c: State)
    requires HasKey(p) && Untouched(p, a, b) && Untouched(p, b, c)
    ensures Untouched(p, a, c)
  {
  }

  /** With a positive interval, a pass that neither fails nor asks to be called again, for a request that is
      not in deletion, leaves all registrations ready. */
  ghost predicate ReconcilePass(regs: Registrations, interval: int, inDeletion: bool, s: State, s': State, res: Result) {
    && ReconcileFrame(regs, inDeletion, s, s')
    && (DistinctKeys(regs) ==> Local(regs, inDeletion, s, s'))
    && (interval > 0 && Completed(res) && !inDeletion && DistinctKeys(regs) ==> AllReady(regs, regs.Keys, s'))
  }

  /** Different registrations never get in each other's way: what a pass makes of the objects of a registration
      depends on this registration only. An AccessRequest that comes up refers to the registration's own
      ClusterRequest, which is granted, or to what the registration refers to. */
  lemma NewAccessRefersRightly(regs: Registrations, interval: int, inDeletion: bool, s: State, s': State, res: Result, id: string)
    requires ReconcilePass(regs, interval, inDeletion, s, s', res) && DistinctKeys(regs)
    requires id in regs && HasKey(regs[id]) && KeyOf(regs[id]) in s'.accesses && KeyOf(regs[id]) !in s.accesses
    ensures
      var p, k := regs[id], KeyOf(regs[id]);
      var ar := s'.accesses[k];
      && !inDeletion && p.accessAvailable && HasConfig(p, ar) && ar.finalizers == ["clusters.openmcp.cloud/clusteraccess"]
      && match p.requestSpec
         case Something(spec) => ar.spec.target == ToRequest(k) && k in s'.requests && s'.requests[k].spec.granted
         case _ => p.reference == Some(ar.spec.target)
  {
    assert LocalStep(regs[id], inDeletion, s, s');
  }

  /** A ClusterRequest that comes up is the one that the registration asks for. */
  lemma NewRequestAsAsked(regs: Registrations, interval: int, inDeletion: bool, s: State, s': State, res: Result, k: Key)
    requires ReconcilePass(regs, interval, inDeletion, s, s', res) && DistinctKeys(regs)
    requires k in s'.requests && k !in s.requests
    ensures
      !inDeletion
      && exists id :: id in regs && HasKey(regs[id]) && KeyOf(regs[id]) == k && regs[id].requestSpec.Something?
           && s'.requests[k] == Object(["clusters.openmcp.cloud/clusteraccess"], false, regs[id].labels, map[],
                                       RequestData(regs[id].requestSpec.value, false))
  {
    var id :| id in regs && regs[id].requestSpec.Something? && HasKey(regs[id]) && KeyOf(regs[id]) == k;
    assert LocalStep(regs[id], inDeletion, s, s');
  }

  /** A complete pass with a positive interval means: the ClusterRequest is there and granted, and the
      AccessRequest is there, granted, up to date and configured as asked for, unless it is being deleted. */
  lemma CompletedMeansUsable(regs: Registrations, interval: int, s: State, s': State, res: Result, id: string)
    requires ReconcilePass(regs, interval, false, s, s', res) && DistinctKeys(regs) && interval > 0
    requires res == Result(0, false) && id in regs
    ensures
      var p := regs[id];
      p.namespace.Some?
      && var k := Key(p.namespace.value, p.name);
      && p.namespace.value in s'.namespaces && !p.requestSpec.Failure?
      && (p.requestSpec.Something? ==> k in s'.requests && s'.requests[k].spec.granted)
      && (p.accessAvailable ==>
            && k in s'.accesses && (forall l :: l in p.labels ==> l in s'.accesses[k].labels && s'.accesses[k].labels[l] == p.labels[l])
            && (s'.accesses[k].deleting
                || (s'.accesses[k].spec.granted && s'.accesses[k].spec.upToDate && HasConfig(p, s'.accesses[k])
                    && FINALIZER in s'.accesses[k].finalizers)))
      && (!p.accessAvailable && k in s'.accesses ==>
            exists l :: l in p.labels && (l !in s'.accesses[k].labels || s'.accesses[k].labels[l] != p.labels[l]))
  {
    assert Ready(s', regs[id]);
  }

  /** When a registration cannot be served, in terms of its own entries and of keys and labels. */
  lemma BlockedIff(s: State, p: Params)
    ensures
      Blocked(s, p) <==>
      || p.namespace.None? || p.requestSpec.Failure?
      || var k := Key(p.namespace.value, p.name);
         || (p.requestSpec.Something? && k in s.requests && !IsOwn(s.requests, p, k))
         || (p.accessAvailable && (p.token.Failure? || p.oidc.Failure?))
         || (p.accessAvailable && k in s.accesses && !IsOwn(s.accesses, p, k))
         || (p.accessAvailable && k !in s.accesses && !p.requestSpec.Something? && p.reference.None?)
  {
    hide IsOwn;
    if HasKey(p) {
      IsOwnIff(s.requests, p, KeyOf(p));
      IsOwnIff(s.accesses, p, KeyOf(p));
    }
  }

  /** What a registration is waiting for: its ClusterRequest to be granted, its AccessRequest, which is as it asks
      for, to be granted and observed, or the one that it does not ask for any more to vanish. */
  lemma WaitsIff(before: State, s: State, p: Params)
    ensures
      Waits(before, s, p) <==>
      && p.namespace.Some?
      && var k := Key(p.namespace.value, p.name);
         || (p.requestSpec.Something? && IsOwn(s.requests, p, k) && !s.requests[k].spec.granted)
         || (p.accessAvailable && IsOwn(s.accesses, p, k) && HasConfig(p, s.accesses[k])
             && "clusters.openmcp.cloud/clusteraccess" in s.accesses[k].finalizers
             && !(s.accesses[k].spec.granted && s.accesses[k].spec.upToDate))
         || (!p.accessAvailable && IsOwn(before.accesses, p, k) && (IsOwn(s.accesses, p, k) ==> s.accesses[k].deleting))
  {
    hide IsOwn;
    assert FINALIZER == "clusters.openmcp.cloud/clusteraccess";
    if HasKey(p) {
      var k := KeyOf(p);
      IsOwnIff(s.requests, p, k);
      IsOwnIff(s.accesses, p, k);
      IsOwnIff(before.accesses, p, k);
    }
  }

  /** When one deletion pass without failing calls is complete: every object of a registration has the own
      finalizer and no other one. */
  lemma HeldByNobodyElseIff(regs: Registrations, s: State)
    ensures HeldByNobodyElse(regs, s) <==>
              forall id :: id in regs ==>
                && regs[id].namespace.Some?
                && var k := Key(regs[id].namespace.value, regs[id].name);
                && (IsOwn(s.accesses, regs[id], k) ==> s.accesses[k].finalizers == ["clusters.openmcp.cloud/clusteraccess"])
                && (IsOwn(s.requests, regs[id], k) ==> s.requests[k].finalizers == ["clusters.openmcp.cloud/clusteraccess"])
  {
    hide IsOwn;
    assert FINALIZER == "clusters.openmcp.cloud/clusteraccess";
    forall id | id in regs && HasKey(regs[id])
      ensures IsOwn(s.accesses, regs[id], KeyOf(regs[id])) <==> ManagedAt(s.accesses, regs[id])
      ensures IsOwn(s.requests, regs[id], KeyOf(regs[id])) <==> ManagedAt(s.requests, regs[id])
    {
      IsOwnIff(s.accesses, regs[id], KeyOf(regs[id]));
      IsOwnIff(s.requests, regs[id], KeyOf(regs[id]));
    }
  }

  lemma ReconcileStarts(regs: Registrations, inDeletion: bool, s: State)
    ensures ReconcileFrame(regs, inDeletion, s, s) && AllReady(regs, {}, s)
  {
  }

  lemma ReconcileFrameGrows(regs: Registrations, interval: int, inDeletion: bool, s: State, mid: State, s': State, id: string, out: Outcome)
    requires ReconcileFrame(regs, inDeletion, s, mid) && id in regs
    requires OneReconciled(regs[id], interval, inDeletion, mid, s', out)
    ensures ReconcileFrame(regs, inDeletion, s, s')
  {
    forall k | k in s.accesses && At(s'.accesses, k) != At(s.accesses, k)
      ensures exists x :: x in regs && ManagedAt(s.accesses, regs[x]) && KeyOf(regs[x]) == k
    {
      if At(mid.accesses, k) == At(s.accesses, k) {
        AccessStepTouchesManaged(regs[id], !inDeletion, mid.accesses, s'.accesses, k);
        assert ManagedAt(s.accesses, regs[id]) && KeyOf(regs[id]) == k;
      }
    }
    forall k | k in s'.accesses && k !in s.accesses
      ensures exists x :: x in regs && regs[x].accessAvailable && Justified(s', regs[x], k, s'.accesses[k].spec.target)
    {
      if k in mid.accesses {
        var x :| x in regs && regs[x].accessAvailable && Justified(mid, regs[x], k, mid.accesses[k].spec.target);
        AccessStepKeepsTarget(regs[id], !inDeletion, mid.accesses, s'.accesses, k);
        assert Justified(s', regs[x], k, s'.accesses[k].spec.target);
      } else {
        AccessStepCreates(regs[id], !inDeletion, mid.accesses, s'.accesses, k);
        assert Justified(s', regs[id], k, s'.accesses[k].spec.target);
      }
    }
    forall k | k in s'.requests && k !in s.requests
      ensures exists x :: x in regs && regs[x].requestSpec.Something? && HasKey(regs[x]) && KeyOf(regs[x]) == k
    {
      if k !in mid.requests {
        assert KeyOf(regs[id]) == k;
      }
    }
    if inDeletion && s'.accesses != mid.accesses {
      forall k | k in s'.accesses ensures k in s.accesses {
        if k !in mid.accesses {
          AccessStepCreates(regs[id], false, mid.accesses, s'.accesses, k);
        }
      }
    }
  }

  lemma WaitsFromStart(regs: Registrations, inDeletion: bool, s: State, mid: State, s': State, id: string)
    requires DistinctKeys(regs) && ReconcileFrame(regs, inDeletion, s, mid) && id in regs && Waits(mid, s', regs[id])
    ensures Waits(s, s', regs[id])
  {
  }

  /** Some registration is waiting for others. */
  ghost predicate Excused(regs: Registrations, before: State, s: State) {
    exists id :: id in regs && Waits(before, s, regs[id])
  }

  ghost predicate SomeBlocked(regs: Registrations, s: State) {
    exists id :: id in regs && Blocked(s, regs[id])
  }

  lemma StillExcused(regs: Registrations, ids: set<string>, before: State, mid: State, s': State, id: string,
                     interval: int, inDeletion: bool, out: Outcome)
    returns (still: set<string>)
    requires DistinctKeys(regs) && ReconcileFrame(regs, inDeletion, before, mid) && id in regs && id !in ids && ids <= regs.Keys
    requires OneReconciled(regs[id], interval, inDeletion, mid, s', out)
    requires forall x :: x in ids ==> Waits(before, mid, regs[x])
    requires out in {ReturnNow, RequeueLater} ==> Waits(mid, s', regs[id])
    ensures still == if out in {ReturnNow, RequeueLater} then ids + {id} else ids
    ensures forall x :: x in still ==> Waits(before, s', regs[x])
  {
    forall x | x in ids ensures Waits(before, s', regs[x]) {
      OtherStaysWaiting(before, regs[x], regs[id], interval, inDeletion, mid, s', out);
    }
    still := ids;
    if out in {ReturnNow, RequeueLater} {
      WaitsFromStart(regs, inDeletion, before, mid, s', id);
      still := ids + {id};
    }
  }

  lemma AccessStepTouchesManaged(p: Params, creating: bool, a: map<Key, AccessRequest>, a': map<Key, AccessRequest>, k: Key)
    requires HasKey(p) && AccessStep(p, creating, a, a') && k in a && At(a', k) != At(a, k)
    ensures ManagedAt(a, p) && KeyOf(p) == k
  {
  }

  lemma AccessStepKeepsTarget(p: Params, creating: bool, a: map<Key, AccessRequest>, a': map<Key, AccessRequest>, k: Key)
    requires a' == a || (HasKey(p) && AccessStep(p, creating, a, a'))
    requires k in a && k in a'
    ensures a'[k].spec.target == a[k].spec.target
  {
  }

  lemma AccessStepCreates(p: Params, creating: bool, a: map<Key, AccessRequest>, a': map<Key, AccessRequest>, k: Key)
    requires HasKey(p) && AccessStep(p, creating, a, a') && k !in a && k in a'
    ensures creating && p.accessAvailable && KeyOf(p) == k && TargetOf(p) == Some(a'[k].spec.target)
  {
  }

  lemma OthersStayReady(regs: Registrations, ids: set<string>, interval: int, s: State, s': State, id: string, out: Outcome)
    requires DistinctKeys(regs) && ids <= regs.Keys && id in regs && id !in ids
    requires OneReconciled(regs[id], interval, false, s, s', out)
    ensures AllReady(regs, ids, s) ==> AllReady(regs, ids, s')
    ensures out.Proceed? && interval > 0 && AllReady(regs, ids, s) ==> AllReady(regs, ids + {id}, s')
  {
    if AllReady(regs, ids, s) {
      forall x | x in ids ensures Ready(s', regs[x]) {
        OtherStaysReady(regs[x], regs[id], interval, s, s', out);
      }
    }
  }

  lemma OtherStaysReady(p: Params, q: Params, interval: int, s: State, s': State, out: Outcome)
    requires OneReconciled(q, interval, false, s, s', out) && Ready(s, p)
    requires HasKey(q) ==> KeyOf(q) != KeyOf(p)
    ensures Ready(s', p)
  {
    assert At(s'.requests, KeyOf(p)) == At(s.requests, KeyOf(p));
    assert At(s'.accesses, KeyOf(p)) == At(s.accesses, KeyOf(p));
  }

  // ---------- without failing calls ----------

  /** How taking away an object ends if no call fails. */
  function Taken<S>(m: map<Key, Object<S>>, p: Params): (r: (map<Key, Object<S>>, Progress))
    requires HasKey(p)
    ensures DeletionOutcome(m, p, r.0, r.1)
  {
    if !ManagedAt(m, p) then (m, Gone)
    else (AfterDeletion(m, KeyOf(p)), if m[KeyOf(p)].finalizers == [FINALIZER] then Gone else Pending)
  }

  /** The part of a deletion pass for one registration if no call fails. */
  function Undisturbed(p: Params, interval: int, s: State): (State, int)
    requires HasKey(p)
  {
    var (accesses, access) := if p.accessAvailable then Taken(s.accesses, p) else (s.accesses, Gone);
    if access.Pending? && interval > 0 then (s.(accesses := accesses), interval)
    else
      var (requests, request) := if p.requestAvailable then Taken(s.requests, p) else (s.requests, Gone);
      (s.(accesses := accesses, requests := requests), if request.Pending? then interval else 0)
  }

  /** The ClusterRequest is left alone as long as the AccessRequest is there. */
  predicate InOrder(p: Params, s: State, s': State) {
    s'.requests != s.requests && p.accessAvailable ==> !ManagedAt(s'.accesses, p)
  }

  /** The AccessRequest goes first in all cases exactly if the retry interval is positive. */
  lemma InOrderIffPositiveInterval(interval: int)
    ensures interval > 0 <==> forall p, s :: HasKey(p) ==> InOrder(p, s, Undisturbed(p, interval, s).0)
  {
    if interval > 0 {
      forall p, s | HasKey(p) ensures InOrder(p, s, Undisturbed(p, interval, s).0) {
        if p.accessAvailable {
          var taken := Taken(s.accesses, p);
          DeletionTakesAway(s.accesses, p, taken.0, taken.1);
        }
      }
    } else {
      var k := Key("ns", "name");
      var p := Params(Some("ns"), "name", map[], true, true, Nothing, None, Nothing, Nothing);
      var s := State({}, map[k := Object([FINALIZER], false, map[], map[], RequestData("", true))],
                     map[k := Object(["other", FINALIZER], true, map[], map[], AccessData(ToRequest(k), None, None, true, true))]);
      assert HasKey(p) && KeyOf(p) == k;
      assert ManagedAt(s.accesses, p) && ManagedAt(s.requests, p);
      assert |s.accesses[k].finalizers| == 2;
      var s' := Undisturbed(p, interval, s).0;
      assert k in s.requests && k !in s'.requests;
      assert !InOrder(p, s, s');
    }
  }

  /** A pass that is done with a registration has taken its AccessRequest away exactly if the registration
      still asks for one: a left-over one from an earlier version of the registration stays. */
  lemma LeftOverAccessStays(p: Params, interval: int, s: State)
    requires HasKey(p) && interval > 0 && Undisturbed(p, interval, s).1 == 0
    ensures ManagedAt(Undisturbed(p, interval, s).0.accesses, p) <==> !p.accessAvailable && ManagedAt(s.accesses, p)
  {
    if p.accessAvailable {
      var taken := Taken(s.accesses, p);
      DeletionTakesAway(s.accesses, p, taken.0, taken.1);
    }
  }

  // ---------- the reconciler ----------

  class Reconciler {
    var namespaces: set<string>
    var requests: map<Key, ClusterRequest>
    var accesses: map<Key, AccessRequest>
    /** The requests that are in deletion; kept in memory only. */
    var requestsInDeletion: set<Key>
    const interval: int
    ghost var faults: nat
    ghost var deletions: seq<Deletion>

    constructor (interval: int, s: State)
      ensures this.interval == interval && Platform() == s && requestsInDeletion == {}
    {
      this.interval := interval;
      namespaces, requests, accesses := s.namespaces, s.requests, s.accesses;
      requestsInDeletion := {};
    }

    function Platform(): State
      reads this
    {
      State(namespaces, requests, accesses)
    }

    /** A call to the API server, which may fail. */
    method Call() returns (ok: bool)
      modifies `faults
      ensures faults == old(faults) + if ok then 0 else 1
    {
      ok := *;
      if !ok {
        faults := faults + 1;
      }
    }

    static predicate IsManaged(labels: Labels, expected: Labels) {
      forall k :: k in expected ==> k in labels && labels[k] == expected[k]
    }

    method EnsureAccessRequestDeletion(p: Params) returns (res: Progress)
      requires HasKey(p)
      modifies `accesses, `faults
      ensures DeletionOutcome(old(accesses), p, accesses, res)
      ensures res.Failed? <==> faults > old(faults)
      ensures faults >= old(faults)
    {
      var k := KeyOf(p);
      var ok := Call();
      if !ok {
        return Failed;
      }
      if k !in accesses || !IsManaged(accesses[k].labels, p.labels) {
        return Gone;
      }
      var ar := accesses[k];
      if !ar.deleting {
        ok := Call();
        if !ok {
          return Failed;
        }
        accesses := Deleted(accesses, k);
      }
      if |ar.finalizers| == 1 && ar.finalizers[0] == FINALIZER {
        ok := Call();
        if !ok {
          return Failed;
        }
        accesses := accesses - {k};
        return Gone;
      }
      return Pending;
    }

    method EnsureClusterRequestDeletion(id: string, p: Params) returns (res: Progress)
      requires HasKey(p)
      modifies `requests, `faults, `deletions
      ensures DeletionOutcome(old(requests), p, requests, res)
      ensures res.Failed? <==> faults > old(faults)
      ensures faults >= old(faults)
      ensures deletions == old(deletions) + if requests == old(requests) then [] else [Deletion(id, old(Platform()))]
    {
      var k := KeyOf(p);
      var ok := Call();
      if !ok {
        return Failed;
      }
      if k !in requests || !IsManaged(requests[k].labels, p.labels) {
        return Gone;
      }
      var cr := requests[k];
      ghost var before := Platform();
      if !cr.deleting {
        ok := Call();
        if !ok {
          return Failed;
        }
        requests := Deleted(requests, k);
        assert At(requests, k) != At(before.requests, k);
        deletions := deletions + [Deletion(id, before)];
      }
      if |cr.finalizers| == 1 && cr.finalizers[0] == FINALIZER {
        ok := Call();
        if !ok {
          return Failed;
        }
        requests := requests - {k};
        if cr.deleting {
          assert k in before.requests;
          deletions := deletions + [Deletion(id, before)];
        }
        return Gone;
      }
      return Pending;
    }

    /** The part of a deletion pass that deals with one registration. The ClusterRequest is only touched
        if the AccessRequest does not lead to a requeue. */
    method DeleteOne(id: string, p: Params) returns (requeueAfter: int, failed: bool)
      modifies `requests, `accesses, `faults, `deletions
      ensures OneDeleted(id, p, interval, old(Platform()), Platform(), requeueAfter, failed)
      ensures !failed ==> HasKey(p) && (Platform(), requeueAfter) == Undisturbed(p, interval, old(Platform()))
      ensures deletions == old(deletions) +
                           if requests == old(requests) then [] else [Deletion(id, State(namespaces, old(requests), accesses))]
      ensures faults >= old(faults)
      ensures failed <==> faults > old(faults) || !HasKey(p)
    {
      if p.namespace.None? {
        return 0, true;
      }
      if p.accessAvailable {
        var res := EnsureAccessRequestDeletion(p);
        DeletionTakesAway(old(accesses), p, accesses, res);
        if res.Failed? {
          return 0, true;
        }
        if res.Pending? && interval > 0 {
          return interval, false;
        }
      }
      if p.requestAvailable {
        var res := EnsureClusterRequestDeletion(id, p);
        DeletionTakesAway(old(requests), p, requests, res);
        return if res.Pending? then interval else 0, res.Failed?;
      }
      return 0, false;
    }

    // ---------- keeping objects ----------

    method EnsureNamespace(p: Params, inDeletion: bool) returns (out: Outcome)
      requires HasKey(p)
      modifies `namespaces, `faults
      ensures namespaces == if !inDeletion && out.Proceed? then old(namespaces) + {p.namespace.value} else old(namespaces)
      ensures out.Proceed? ==> p.namespace.value in namespaces
      ensures out in {Proceed, RequeueLater, Error}
      ensures out.RequeueLater? ==> inDeletion
      ensures faults >= old(faults) && (out.Error? <==> faults > old(faults))
    {
      var ok := Call();
      if !ok {
        return Error;
      }
      if p.namespace.value !in namespaces {
        if inDeletion {
          return RequeueLater;
        }
        ok := Call();
        if !ok {
          return Error;
        }
        namespaces := namespaces + {p.namespace.value};
      }
      return Proceed;
    }

    /** Ensures the ClusterRequest. `Proceed` means that it is granted. */
    method EnsureClusterRequest(p: Params, inDeletion: bool) returns (out: Outcome, skipped: bool)
      requires HasKey(p) && p.requestSpec.Something?
      modifies `requests, `faults
      ensures requests == old(requests) ||
              (!inDeletion && KeyOf(p) !in old(requests) && requests == old(requests)[KeyOf(p) := NewRequest(p)])
      ensures out.Proceed? && !skipped ==> GrantedRequest(Platform(), p)
      ensures out.ReturnNow? ==> !GrantedRequest(Platform(), p)
      ensures skipped ==> inDeletion && out.Proceed?
      ensures out in {Proceed, ReturnNow, Error}
      ensures out.ReturnNow? ==> Waits(old(Platform()), Platform(), p)
      ensures faults >= old(faults) && (out.Error? ==> faults > old(faults) || Blocked(Platform(), p))
    {
      var k := KeyOf(p);
      skipped := false;
      var ok := Call();
      if !ok {
        return Error, skipped;
      }
      if k !in requests {
        if inDeletion {
          return Proceed, true;
        }
        ok := Call();
        if !ok {
          return Error, skipped;
        }
        requests := requests[k := NewRequest(p)];
      } else if !IsManaged(requests[k].labels, p.labels) {
        return Error, skipped;
      }
      out := if requests[k].spec.granted then Proceed else ReturnNow;
    }

    /** Creates or updates the AccessRequest. */
    method EnsureAccessRequest(p: Params, inDeletion: bool) returns (out: Outcome)
      requires HasKey(p) && p.accessAvailable
      modifies `accesses, `faults
      ensures AccessStep(p, !inDeletion, old(accesses), accesses)
      ensures out.Proceed? && !inDeletion ==> UsableAccess(Platform(), p)
      ensures out.RequeueLater? ==> !UsableAccess(Platform(), p) && Waits(old(Platform()), Platform(), p)
      ensures out in {Proceed, RequeueLater, Error}
      ensures faults >= old(faults) && (out.Error? ==> faults > old(faults) || Blocked(Platform(), p))
    {
      var k := KeyOf(p);
      var ok := Call();
      if !ok {
        return Error;
      }
      var target := None;
      if k !in accesses {
        if inDeletion {
          return Proceed;
        }
        target := TargetOf(p);
        if target.None? {
          return Error;
        }
      } else if !IsManaged(accesses[k].labels, p.labels) {
        return Error;
      } else if accesses[k].deleting {
        return Proceed;
      }
      if p.token.Failure? || p.oidc.Failure? {
        return Error;
      }
      ok := Call();
      if !ok {
        return Error;
      }
      if k !in accesses {
        accesses := accesses[k := NewAccess(p, target.value)];
      } else {
        accesses := accesses[k := WithConfig(accesses[k], p)];
      }
      out := if accesses[k].spec.granted && accesses[k].spec.upToDate then Proceed else RequeueLater;
    }

    method ReconcileOne(p: Params, inDeletion: bool) returns (out: Outcome)
      modifies `namespaces, `requests, `accesses, `faults
      ensures OneReconciled(p, interval, inDeletion, old(Platform()), Platform(), out)
      ensures out in {ReturnNow, RequeueLater} ==> Waits(old(Platform()), Platform(), p)
      ensures faults >= old(faults) && (out.Error? ==> faults > old(faults) || Blocked(Platform(), p))
    {
      if p.namespace.None? {
        return Error;
      }
      var there := EnsureNamespace(p, inDeletion);
      if there.Error? {
        return Error;
      }
      if there.RequeueLater? {
        return Proceed;
      }
      if p.requestSpec.Failure? {
        return Error;
      }
      if p.requestSpec.Something? {
        var skipped;
        out, skipped := EnsureClusterRequest(p, inDeletion);
        if !out.Proceed? || skipped {
          return;
        }
      }
      if p.accessAvailable {
        out := EnsureAccessRequest(p, inDeletion);
      } else {
        var progress := EnsureAccessRequestDeletion(p);
        DeletionTakesAway(old(accesses), p, accesses, progress);
        out := if progress.Failed? then Error else if progress.Pending? && interval > 0 then RequeueLater else Proceed;
      }
    }

    /** A pass over all registrations, in any order. It stops at the first one whose ClusterRequest is not
        granted. Without faults there is always a registration that is the reason for an error or a requeue. */
    method Reconcile(request: Key, regs: Registrations) returns (res: Result)
      modifies `namespaces, `requests, `accesses, `faults
      ensures ReconcilePass(regs, interval, request in requestsInDeletion, old(Platform()), Platform(), res)
      ensures faults >= old(faults)
      ensures res.failed ==> faults > old(faults) || SomeBlocked(regs, Platform())
      ensures !res.failed && !Completed(res) && DistinctKeys(regs) ==> Excused(regs, old(Platform()), Platform())
    {
      hide ReconcileFrame, Waits, DistinctKeys, AllReady, Ready, OneReconciled, LocalSoFar, Local;
      var inDeletion := request in requestsInDeletion;
      res := Result(0, false);
      ReconcileStarts(regs, inDeletion, Platform());
      LocalStarts(regs, regs.Keys, inDeletion, Platform());
      ghost var before, done, waiting := Platform(), {}, {};
      var todo := regs.Keys;
      while todo != {}
        invariant todo <= regs.Keys && done == regs.Keys - todo && waiting <= done
        invariant ReconcileFrame(regs, inDeletion, before, Platform())
        invariant DistinctKeys(regs) ==> LocalSoFar(regs, todo, inDeletion, before, Platform()) && Local(regs, inDeletion, before, Platform())
        invariant !res.failed && (res.requeueAfter == 0 || res.requeueAfter == interval)
        invariant interval > 0 && res.requeueAfter == 0 && !inDeletion && DistinctKeys(regs) ==> AllReady(regs, done, Platform())
        invariant DistinctKeys(regs) ==> forall x :: x in waiting ==> Waits(before, Platform(), regs[x])
        invariant DistinctKeys(regs) && res.requeueAfter != 0 ==> waiting != {}
        invariant faults >= old(faults)
      {
        var id :| id in todo;
        ghost var mid := Platform();
        var out := ReconcileOne(regs[id], inDeletion);
        if DistinctKeys(regs) {
          waiting := StillExcused(regs, waiting, before, mid, Platform(), id, interval, inDeletion, out);
          LocalGrows(regs, todo, interval, inDeletion, before, mid, Platform(), id, out);
        }
        ReconcileFrameGrows(regs, interval, inDeletion, before, mid, Platform(), id, out);
        if out.Error? {
          return Result(0, true);
        }
        if out.ReturnNow? {
          return Result(interval, false);
        }
        if !inDeletion && DistinctKeys(regs) {
          OthersStayReady(regs, done, interval, mid, Platform(), id, out);
        }
        if out.RequeueLater? {
          res := res.(requeueAfter := interval);
        }
        todo, done := todo - {id}, done + {id};
      }
      assert done == regs.Keys;
    }

    // ---------- taking objects away ----------

    /** A deletion pass over all registrations, in any order. */
    method ReconcileDelete(request: Key, regs: Registrations) returns (res: Result, ghost calls: seq<Deletion>)
      modifies this
      ensures DeletePass(regs, interval, old(Platform()), Platform(), res, calls)
      ensures requestsInDeletion == if Completed(res) then old(requestsInDeletion) - {request} else old(requestsInDeletion) + {request}
      ensures deletions == old(deletions) + calls
      ensures faults == old(faults) && HeldByNobodyElse(regs, old(Platform())) ==> Completed(res)
    {
      requestsInDeletion := requestsInDeletion + {request};
      res, calls := DeleteAll(regs);
      if Completed(res) {
        requestsInDeletion := requestsInDeletion - {request};
      }
    }

    method DeleteAll(regs: Registrations) returns (res: Result, ghost calls: seq<Deletion>)
      modifies `requests, `accesses, `faults, `deletions
      ensures DeletePass(regs, interval, old(Platform()), Platform(), res, calls)
      ensures deletions == old(deletions) + calls
      ensures faults == old(faults) && HeldByNobodyElse(regs, old(Platform())) ==> Completed(res)
    {
      hide DeletePassFrame, HeldByNobodyElse, OnlyOwnFinalizer, Cleared;
      res, calls := Result(0, false), [];
      ghost var before, done := Platform(), {};
      DeletePassStarts(regs, interval, before);
      var todo := regs.Keys;
      while todo != {}
        invariant todo <= regs.Keys && done == regs.Keys - todo
        invariant DeletePassSoFar(regs, interval, done, before, Platform(), res.requeueAfter, calls)
        invariant !res.failed && faults >= old(faults)
        invariant deletions == old(deletions) + calls
        invariant HeldByNobodyElse(regs, before) ==> res.requeueAfter == 0
      {
        var id :| id in todo;
        ghost var mid, earlier := Platform(), calls;
        var requeueAfter, failed := DeleteOne(id, regs[id]);
        calls := earlier + if requests == mid.requests then [] else [Deletion(id, State(namespaces, mid.requests, accesses))];
        DeletePassGrows(regs, interval, done, before, mid, Platform(), res.requeueAfter, earlier, id, requeueAfter, failed, calls);
        NobodyElseStill(regs, interval, before, mid, earlier, id);
        if failed {
          return Result(0, true), calls;
        }
        if requeueAfter != 0 {
          res := res.(requeueAfter := requeueAfter);
        }
        todo, done := todo - {id}, done + {id};
      }
      assert done == regs.Keys;
    }
  }

  /** All objects of the registrations have the own finalizer and no other one. */
  ghost predicate HeldByNobodyElse(regs: Registrations, s: State) {
    forall id :: id in regs ==> HasKey(regs[id]) && OnlyOwnFinalizer(s, regs[id])
  }

  lemma DeletePassStarts(regs: Registrations, interval: int, s: State)
    ensures DeletePassSoFar(regs, interval, {}, s, s, 0, [])
  {
  }

  lemma NobodyElseStill(regs: Registrations, interval: int, s: State, s': State, deletions: seq<Deletion>, id: string)
    requires DeletePassFrame(regs, interval, s, s', deletions) && id in regs
    ensures HeldByNobodyElse(regs, s) ==> HasKey(regs[id]) && OnlyOwnFinalizer(s', regs[id])
  {
  }

  /** The deletion pass after the registrations in `ids`. */
  ghost predicate DeletePassSoFar(regs: Registrations, interval: int, ids: set<string>, s: State, s': State,
                                  requeueAfter: int, deletions: seq<Deletion>)
  {
    && ids <= regs.Keys
    && DeletePassFrame(regs, interval, s, s', deletions)
    && (interval > 0 && requeueAfter == 0 ==> forall id :: id in ids ==> Cleared(s', regs[id]))
    && (forall id :: id in ids ==>
          regs[id].accessAvailable && ManagedAt(s'.accesses, regs[id]) ==> s'.accesses[KeyOf(regs[id])].deleting)
    && (requeueAfter == 0 || requeueAfter == interval)
  }

  lemma StillCleared(s: State, s': State, p: Params)
    requires OnlyTakesAway(s.accesses, s'.accesses) && OnlyTakesAway(s.requests, s'.requests) && Cleared(s, p)
    ensures Cleared(s', p)
  {
  }

  lemma TakesAwayNothing<S>(m: map<Key, Object<S>>)
    ensures OnlyTakesAway(m, m)
  {
  }

  lemma OwnBefore<S>(m: map<Key, Object<S>>, m': map<Key, Object<S>>, p: Params)
    requires OnlyTakesAway(m, m')
    ensures ManagedAt(m', p) ==> ManagedAt(m, p)
  {
  }

  lemma FrameGrows(regs: Registrations, interval: int, s: State, mid: State, s': State, deletions: seq<Deletion>,
                   id: string, requeueAfter: int, failed: bool, deletions': seq<Deletion>)
    requires DeletePassFrame(regs, interval, s, mid, deletions) && id in regs
    requires OneDeleted(id, regs[id], interval, mid, s', requeueAfter, failed)
    requires deletions' == deletions +
               if s'.requests == mid.requests then [] else [Deletion(id, State(mid.namespaces, mid.requests, s'.accesses))]
    ensures DeletePassFrame(regs, interval, s, s', deletions')
  {
    hide OnlyTakesAway;
    TakesAwayTransitive(s.accesses, mid.accesses, s'.accesses);
    TakesAwayTransitive(s.requests, mid.requests, s'.requests);
    TakesAwayNothing(s'.accesses);
    OwnBefore(s.accesses, mid.accesses, regs[id]);
    OwnBefore(s.requests, mid.requests, regs[id]);
    forall d | d in deletions' ensures OnlyTakesAway(d.s.accesses, s'.accesses) {
      if d in deletions {
        TakesAwayTransitive(d.s.accesses, mid.accesses, s'.accesses);
      }
    }
    forall k | At(s'.requests, k) != At(s.requests, k)
      ensures exists d :: d in deletions' && d.id in regs && regs[d.id].requestAvailable && ManagedAt(s.requests, regs[d.id]) && KeyOf(regs[d.id]) == k
    {
      if At(s'.requests, k) != At(mid.requests, k) {
        var d := Deletion(id, State(mid.namespaces, mid.requests, s'.accesses));
        assert d in deletions';
      } else {
        var d :| d in deletions && d.id in regs && regs[d.id].requestAvailable && ManagedAt(s.requests, regs[d.id]) && KeyOf(regs[d.id]) == k;
        assert d in deletions';
      }
    }
    forall k | At(s'.accesses, k) != At(s.accesses, k)
      ensures exists x :: x in regs && regs[x].accessAvailable && ManagedAt(s.accesses, regs[x]) && KeyOf(regs[x]) == k
    {
      if At(s'.accesses, k) != At(mid.accesses, k) {
        assert regs[id].accessAvailable && ManagedAt(s.accesses, regs[id]) && KeyOf(regs[id]) == k;
      }
    }
  }

  lemma DeletePassGrows(regs: Registrations, interval: int, ids: set<string>, s: State, mid: State, s': State,
                        sofar: int, deletions: seq<Deletion>, id: string, requeueAfter: int, failed: bool, deletions': seq<Deletion>)
    requires DeletePassSoFar(regs, interval, ids, s, mid, sofar, deletions) && id in regs
    requires OneDeleted(id, regs[id], interval, mid, s', requeueAfter, failed)
    requires deletions' == deletions +
               if s'.requests == mid.requests then [] else [Deletion(id, State(mid.namespaces, mid.requests, s'.accesses))]
    ensures DeletePassFrame(regs, interval, s, s', deletions')
    ensures !failed ==>
              DeletePassSoFar(regs, interval, ids + {id}, s, s', if requeueAfter != 0 then requeueAfter else sofar, deletions')
  {
    FrameGrows(regs, interval, s, mid, s', deletions, id, requeueAfter, failed, deletions');
    if interval > 0 && requeueAfter == 0 && sofar == 0 {
      forall x | x in ids ensures Cleared(s', regs[x]) {
        StillCleared(mid, s', regs[x]);
      }
    }
  }

  /** What the part of a deletion pass for one registration may do. */
  ghost predicate OneDeleted(id: string, p: Params, interval: int, s: State, s': State, requeueAfter: int, failed: bool) {
    && s'.namespaces == s.namespaces
    && OnlyTakesAway(s.accesses, s'.accesses) && OnlyTakesAway(s.requests, s'.requests)
    && (forall k :: At(s'.accesses, k) != At(s.accesses, k) ==> p.accessAvailable && ManagedAt(s.accesses, p) && KeyOf(p) == k)
    && (forall k :: At(s'.requests, k) != At(s.requests, k) ==> p.requestAvailable && ManagedAt(s.requests, p) && KeyOf(p) == k)
    && (interval > 0 && s'.requests != s.requests && p.accessAvailable ==> !ManagedAt(s'.accesses, p))
    && (interval > 0 && !failed && requeueAfter == 0 ==> Cleared(s', p))
    && (!failed && p.accessAvailable && ManagedAt(s'.accesses, p) ==> s'.accesses[KeyOf(p)].deleting)
    && (requeueAfter == 0 || requeueAfter == interval)
    && (!failed && OnlyOwnFinalizer(s, p) ==> requeueAfter == 0)
  }

  // ---------- runs ----------

  datatype Event = Deleting(res: Result, deletions: seq<Deletion>) | Keeping(res: Result) | Restart | Others

  /** What is known to the controller and what is on the platform cluster, for one request. */
  datatype RunState = RunState(s: State, inDeletion: bool)

  ghost predicate NothingNew(regs: Registrations, s: State, s': State) {
    forall id :: id in regs ==>
      && (ManagedAt(s'.accesses, regs[id]) ==> ManagedAt(s.accesses, regs[id]))
      && (ManagedAt(s'.requests, regs[id]) ==> ManagedAt(s.requests, regs[id]))
  }

  /** Passes of the controller for the request, restarts, with which it forgets what it knows, and anything that others do except for creating objects
      that look like managed ones. */
  ghost predicate Next(regs: Registrations, interval: int, r: RunState, e: Event, r': RunState) {
    match e
    case Deleting(res, deletions) =>
      DeletePass(regs, interval, r.s, r'.s, res, deletions) && r'.inDeletion == !Completed(res)
    case Keeping(res) =>
      ReconcilePass(regs, interval, r.inDeletion, r.s, r'.s, res) && r'.inDeletion == r.inDeletion
    case Restart =>
      r' == r.(inDeletion := false)
    case Others =>
      NothingNew(regs, r.s, r'.s) && r'.inDeletion == r.inDeletion
  }

  ghost predicate Run(regs: Registrations, interval: int, rs: seq<RunState>, es: seq<Event>) {
    |rs| == |es| + 1 && forall i {:trigger es[i]} :: 0 <= i < |es| ==> Next(regs, interval, rs[i], es[i], rs[i + 1])
  }

  lemma NextBringsNothingNew(regs: Registrations, interval: int, r: RunState, e: Event, r': RunState)
    requires DistinctKeys(regs) && Next(regs, interval, r, e, r')
    requires e.Keeping? ==> r.inDeletion
    ensures NothingNew(regs, r.s, r'.s)
  {
    forall id | id in regs && ManagedAt(r'.s.accesses, regs[id]) ensures ManagedAt(r.s.accesses, regs[id]) {
      if e.Keeping? && At(r'.s.accesses, KeyOf(regs[id])) != At(r.s.accesses, KeyOf(regs[id])) {
        var x :| x in regs && ManagedAt(r.s.accesses, regs[x]) && KeyOf(regs[x]) == KeyOf(regs[id]);
        assert x == id;
      }
    }
  }

  /** Between events `i` and `j` there was a deletion pass, and no restart after it. */
  ghost predicate Knows(es: seq<Event>, i: nat, j: nat) {
    exists m: nat :: i <= m < j && DeletedSince(es, m, j)
  }

  ghost predicate DeletedSince(es: seq<Event>, m: nat, j: nat) {
    m < j <= |es| && es[m].Deleting? && forall n :: m < n < j ==> !es[n].Restart?
  }

  lemma KnowsLater(es: seq<Event>, i: nat, j: nat)
    requires i <= j < |es|
    ensures Knows(es, i, j + 1) <==> es[j].Deleting? || (!es[j].Restart? && Knows(es, i, j))
  {
    var n := j + 1;
    if es[j].Deleting? {
      assert DeletedSince(es, j, n);
    } else if Knows(es, i, n) {
      var m: nat :| i <= m < n && DeletedSince(es, m, n);
      assert DeletedSince(es, m, j);
    } else if Knows(es, i, j) && !es[j].Restart? {
      var m: nat :| i <= m < j && DeletedSince(es, m, j);
      assert DeletedSince(es, m, n);
    }
  }

  /** No pass that keeps the objects comes between a restart and the next deletion pass. */
  ghost predicate DeletesFirst(es: seq<Event>, i: nat, j: nat) {
    forall n :: i <= n < j && n < |es| && es[n].Keeping? ==> Knows(es, i, n)
  }

  /** From its first deletion pass on, until a deletion pass is complete, the request is known to be in deletion
      exactly if there was no restart since the last deletion pass. */
  lemma {:induction false} InDeletionIffKnown(regs: Registrations, interval: int, rs: seq<RunState>, es: seq<Event>, i: nat, j: nat)
    requires Run(regs, interval, rs, es) && i < j < |rs| && es[i].Deleting?
    requires forall n :: i <= n < j ==> !(es[n].Deleting? && Completed(es[n].res))
    ensures rs[j].inDeletion <==> Knows(es, i, j)
    decreases j - i
  {
    assert Next(regs, interval, rs[j - 1], es[j - 1], rs[j]);
    KnowsLater(es, i, j - 1);
    if i < j - 1 {
      InDeletionIffKnown(regs, interval, rs, es, i, j - 1);
    }
  }

  /** In this time no object comes up for any of its registrations, however passes of both kinds, restarts and
      other controllers are interleaved and whichever calls fail, provided that after each restart a deletion
      pass comes first. */
  lemma {:induction false} DeletionNeverGoesBack(regs: Registrations, interval: int, rs: seq<RunState>, es: seq<Event>, i: nat, j: nat)
    requires DistinctKeys(regs) && Run(regs, interval, rs, es) && i < j < |rs|
    requires es[i].Deleting? && DeletesFirst(es, i, j)
    requires forall n :: i <= n < j ==> !(es[n].Deleting? && Completed(es[n].res))
    ensures NothingNew(regs, rs[i].s, rs[j].s)
    decreases j - i
  {
    var r, e, r' := rs[j - 1], es[j - 1], rs[j];
    assert Next(regs, interval, r, e, r');
    if i < j - 1 {
      DeletionNeverGoesBack(regs, interval, rs, es, i, j - 1);
      InDeletionIffKnown(regs, interval, rs, es, i, j - 1);
    }
    NextBringsNothingNew(regs, interval, r, e, r');
  }

  /** Without the proviso it does: after a failed deletion pass and a restart, a pass that keeps the objects
      creates the ClusterRequest of a registration again. */
  lemma RestartForgetsDeletion(p: Params, id: string, interval: int)
    requires HasKey(p) && p.requestSpec.Something?
    ensures
      exists rs: seq<RunState>, es: seq<Event> ::
        && Run(map[id := p], interval, rs, es) && |es| == 3
        && es[0] == Deleting(Result(0, true), []) && es[1] == Restart && es[2].Keeping?
        && !NothingNew(map[id := p], rs[0].s, rs[3].s)
  {
    var regs, k := map[id := p], KeyOf(p);
    var s := State({p.namespace.value}, map[], map[]);
    var s' := s.(requests := map[k := NewRequest(p)]);
    var rs := [RunState(s, false), RunState(s, true), RunState(s, false), RunState(s', false)];
    var res := Result(0, true);
    var es := [Deleting(Result(0, true), []), Restart, Keeping(res)];
    assert ReconcilePass(regs, interval, false, s, s', res) by {
      assert id in regs && regs[id] == p;
    }
    assert DeletePass(regs, interval, s, s, Result(0, true), []);
    assert Run(regs, interval, rs, es);
    assert id in regs && ManagedAt(s'.requests, regs[id]) && !ManagedAt(s.requests, regs[id]);
  }

  /** With a positive interval and under the same proviso, once the deletion of a registration's ClusterRequest
      has been started there is no AccessRequest of that registration any more, up to and including the end of the deletion. At the
      end nothing is left of any registration. */
  lemma AccessGoesFirstInRuns(regs: Registrations, interval: int, rs: seq<RunState>, es: seq<Event>, i: nat, j: nat, d: Deletion)
    requires DistinctKeys(regs) && Run(regs, interval, rs, es) && i < j < |rs| && interval > 0
    requires es[i].Deleting? && d in es[i].deletions && regs.Keys >= {d.id} && regs[d.id].accessAvailable
    requires forall n :: i <= n < j - 1 ==> !(es[n].Deleting? && Completed(es[n].res))
    requires DeletesFirst(es, i, j)
    ensures !ManagedAt(rs[j].s.accesses, regs[d.id])
    ensures es[j - 1].Deleting? && Completed(es[j - 1].res) ==> forall id :: id in regs ==> Cleared(rs[j].s, regs[id])
  {
    var r, e, r' := rs[j - 1], es[j - 1], rs[j];
    assert Next(regs, interval, r, e, r');
    assert Next(regs, interval, rs[i], es[i], rs[i + 1]);
    assert DeletionInOrder(regs, d) && OnlyTakesAway(d.s.accesses, rs[i + 1].s.accesses);
    assert !ManagedAt(rs[i + 1].s.accesses, regs[d.id]);
    if i + 1 < j {
      StaysGone(regs, interval, rs, es, i, j, d.id);
    }
  }

  lemma {:induction false} StaysGone(regs: Registrations, interval: int, rs: seq<RunState>, es: seq<Event>, i: nat, j: nat, id: string)
    requires DistinctKeys(regs) && Run(regs, interval, rs, es) && i < j < |rs| && id in regs
    requires es[i].Deleting? && !ManagedAt(rs[i + 1].s.accesses, regs[id])
    requires forall n :: i <= n < j - 1 ==> !(es[n].Deleting? && Completed(es[n].res))
    requires DeletesFirst(es, i, j)
    ensures !ManagedAt(rs[j].s.accesses, regs[id])
    decreases j - i
  {
    if i + 1 < j {
      StaysGone(regs, interval, rs, es, i, j - 1, id);
      var r, e, r' := rs[j - 1], es[j - 1], rs[j];
      assert Next(regs, interval, r, e, r');
      InDeletionIffKnown(regs, interval, rs, es, i, j - 1);
      NextBringsNothingNew(regs, interval, r, e, r');
    }
  }
}
