/** Installation of providers: for every generation of a provider an init job has to succeed before the
    provider's Deployment is written. */
module ProviderInstall {
  import opened Kube

  /** The generation annotation of a job. */
  datatype Annotation = Missing | Malformed | Generation(value: int)

  datatype Condition = Condition(kind: string, holds: bool)

  /** `id` tells jobs of the same name apart, and `createdFor` is the generation for which the job was
      created. `held` says that the job does not vanish at once when it is deleted. */
  datatype Job = Job(
    id: nat, createdFor: nat, annotation: Annotation, conditions: seq<Condition>, succeeded: nat, held: bool, deleting: bool)

  /** The provider's generation and finalizer, its init job, and the generation for which its Deployment was
      written last. */
  datatype State = State(generation: nat, finalizer: bool, job: Option<Job>, deployment: Option<nat>, nextId: nat)

  predicate IsFailed(j: Job) {
    Condition("Failed", true) in j.conditions
  }

  predicate IsUpToDate(j: Job, generation: nat) {
    j.annotation == Generation(generation)
  }

  /** The job cannot count for the generation and has to be replaced. */
  predicate IsUnusable(j: Job, generation: nat) {
    !IsUpToDate(j, generation) || IsFailed(j)
  }

  predicate IsCompleted(s: State) {
    s.job.Some? && !IsUnusable(s.job.value, s.generation) && s.job.value.succeeded > 0
  }

  function WithNewJob(s: State, held: bool): State {
    s.(job := Some(Job(s.nextId, s.generation, Generation(s.generation), [], 0, held, false)), nextId := s.nextId + 1)
  }

  function WithJobDeleted(s: State): State
    requires s.job.Some?
  {
    s.(job := if s.job.value.held then Some(s.job.value.(deleting := true)) else None)
  }

  /** A job that still exists is updated instead of created, if the API server accepts this. */
  function WithJobUpdated(s: State): State
    requires s.job.Some?
  {
    s.(job := Some(s.job.value.(annotation := Generation(s.generation))))
  }

  /** How a pass may change the state. `wrote` says that the Deployment was written. */
  ghost predicate Pass(s: State, s': State, wrote: bool) {
    if wrote then IsCompleted(s) && s' == s.(deployment := Some(s.generation))
    else
      || s' == s
      || (s.job.None? && exists held :: s' == WithNewJob(s, held))
      || (s.job.Some? && IsUnusable(s.job.value, s.generation) &&
          var d := WithJobDeleted(s);
          || s' == d
          || (d.job.None? && exists held :: s' == WithNewJob(d, held))
          || (d.job.Some? && s' == WithJobUpdated(d)))
  }

  /** A new job, which has not run yet. */
  predicate IsNewFor(job: Option<Job>, generation: nat, id: nat) {
    && job.Some? && job.value.id == id && job.value.createdFor == generation && job.value.annotation == Generation(generation)
    && job.value.conditions == [] && job.value.succeeded == 0 && !job.value.deleting
  }

  class ProviderReconciler {
    var generation: nat
    var finalizer: bool
    var job: Option<Job>
    var deployment: Option<nat>
    /** The API server gives every object an identity of its own. */
    var nextId: nat
    ghost var faults: nat

    constructor (s: State)
      ensures View() == s
    {
      generation, finalizer, job, deployment, nextId := s.generation, s.finalizer, s.job, s.deployment, s.nextId;
    }

    function View(): State
      reads this
    {
      State(generation, finalizer, job, deployment, nextId)
    }

    method Call() returns (ok: bool)
      modifies `faults
      ensures faults == old(faults) + if ok then 0 else 1
    {
      ok := *;
      if !ok {
        faults := faults + 1;
      }
    }

    /** Looks for a condition that says that the job has failed. */
    static method IsJobFailed(j: Job) returns (failed: bool)
      ensures failed <==> IsFailed(j)
    {
      for i := 0 to |j.conditions|
        invariant Condition("Failed", true) !in j.conditions[..i]
      {
        if j.conditions[i].kind == "Failed" && j.conditions[i].holds {
          assert j.conditions[i] == Condition("Failed", true);
          return true;
        }
      }
      assert j.conditions[..|j.conditions|] == j.conditions;
      return false;
    }

    static method IsGenerationUpToDate(j: Job, generation: nat) returns (upToDate: bool)
      ensures upToDate <==> IsUpToDate(j, generation)
    {
      match j.annotation
      case Missing => return false;
      case Malformed => return false;
      case Generation(value) => return value == generation;
    }

    /** Creates the job, or updates it if there still is one. */
    method CreateOrUpdateJob() returns (ok: bool)
      modifies `job, `nextId, `faults
      ensures !ok ==> View() == old(View())
      ensures ok && old(job).None? ==> exists held :: View() == WithNewJob(old(View()), held)
      ensures ok && old(job).Some? ==> View() == WithJobUpdated(old(View()))
      ensures faults >= old(faults) && (old(job).None? ==> (ok <==> faults == old(faults)))
    {
      ok := Call();
      if !ok {
        return;
      }
      if job.Some? {
        ok := *;
        if ok {
          job := Some(job.value.(annotation := Generation(generation)));
        }
        return;
      }
      var held: bool := *;
      job := Some(Job(nextId, generation, Generation(generation), [], 0, held, false));
      nextId := nextId + 1;
      assert View() == WithNewJob(old(View()), held);
    }

    method DeleteJob() returns (ok: bool)
      modifies `job, `faults
      ensures !ok ==> View() == old(View()) && faults > old(faults)
      ensures ok ==> faults == old(faults) && View() == if old(job).Some? then WithJobDeleted(old(View())) else old(View())
    {
      ok := Call();
      if ok && job.Some? {
        job := if job.value.held then Some(job.value.(deleting := true)) else None;
      }
    }

    /** Ensures that the init job for the current generation exists. A failed or outdated one is deleted
        before it is created again. */
    method InstallInitJob() returns (completed: bool, ok: bool)
      modifies `job, `nextId, `faults
      ensures Pass(old(View()), View(), false)
      ensures ok && completed ==> View() == old(View()) && IsCompleted(View())
      ensures ok && !completed ==> job.Some? && (job.value.deleting || !IsUnusable(job.value, generation))
      ensures ok ==> (completed <==> IsCompleted(old(View())))
      ensures faults >= old(faults)
      // without failing calls a missing job is created, and a failed or outdated one is replaced
      ensures ok && old(job).None? ==> IsNewFor(job, generation, old(nextId))
      ensures ok && old(job).Some? && !old(job).value.held && (old(job).value.annotation != Generation(generation) || Condition("Failed", true) in old(job).value.conditions) ==>
                IsNewFor(job, generation, old(nextId))
      ensures old(job).Some? && old(job).value.annotation == Generation(generation) && Condition("Failed", true) !in old(job).value.conditions ==>
                job == old(job) && (ok ==> (completed <==> old(job).value.succeeded > 0))
      // one that lingers is marked and annotated anew
      ensures ok && old(job).Some? && old(job).value.held && (old(job).value.annotation != Generation(generation) || Condition("Failed", true) in old(job).value.conditions) ==>
                job == Some(old(job).value.(deleting := true, annotation := Generation(generation)))
      // only the update of a job that lingers can be refused
      ensures !ok ==> faults > old(faults) || (old(job).Some? && old(job).value.held && IsUnusable(old(job).value, generation))
    {
      // namespace, service account, roles and bindings come first
      ok := Call();
      if !ok {
        return false, false;
      }
      ok := Call();
      if !ok {
        return false, false;
      }
      if job.None? {
        ok := CreateOrUpdateJob();
        return false, ok;
      }
      var upToDate := IsGenerationUpToDate(job.value, generation);
      var failed := IsJobFailed(job.value);
      if !upToDate || failed {
        ok := DeleteJob();
        if !ok {
          return false, false;
        }
        ok := CreateOrUpdateJob();
        return false, ok;
      }
      return job.value.succeeded > 0, true;
    }

    /** Writes the Deployment, after its service account and bindings. */
    method InstallProvider() returns (ok: bool)
      modifies `deployment, `faults
      ensures View() == old(View()) || View() == old(View()).(deployment := Some(generation))
      ensures ok ==> deployment == Some(generation)
      ensures faults >= old(faults) && (ok <==> faults == old(faults))
    {
      ok := Call();
      if !ok {
        return;
      }
      ok := Call();
      if ok {
        deployment := Some(generation);
        ok := Call();
      }
    }

    /** The pass over a provider that is not being deleted. */
    method Install() returns (ready: bool, ghost wrote: bool)
      modifies `job, `nextId, `deployment, `faults
      ensures Pass(old(View()), View(), wrote)
      ensures ready ==> deployment == Some(generation)
      ensures deployment != old(deployment) ==> wrote
      ensures faults == old(faults) ==>
                (wrote <==> && old(job).Some? && old(job).value.annotation == Generation(generation)
                            && Condition("Failed", true) !in old(job).value.conditions && old(job).value.succeeded > 0)
    {
      wrote := false;
      var completed, ok := InstallInitJob();
      if !ok || !completed {
        return false, wrote;
      }
      ghost var before := View();
      ok := InstallProvider();
      wrote := View() != before || ok;
      ready := *;
      ready := ready && ok;
    }

    /** The pass over a provider that is being deleted. The finalizer goes last. */
    method HandleDelete() returns (deleted: bool)
      modifies `job, `deployment, `finalizer, `faults
      ensures old(finalizer) && !finalizer ==> deployment == None && (job.Some? ==> job.value.deleting)
      ensures deleted <==> faults == old(faults)
      ensures deleted ==> !finalizer
      ensures faults >= old(faults)
      ensures deployment in {None, old(deployment)} && (job != old(job) ==> deployment == None)
    {
      var ok := Call();
      if !ok {
        return false;
      }
      deployment := None;
      // bindings and service account
      ok := Call();
      if !ok {
        return false;
      }
      ok := DeleteJob();
      if !ok {
        return false;
      }
      ok := Call();
      if !ok {
        return false;
      }
      if finalizer {
        ok := Call();
        if !ok {
          return false;
        }
        finalizer := false;
      }
      return true;
    }
  }

  // ---------- runs ----------

  datatype Event = Reconcile(wrote: bool) | SpecChange | JobRuns | JobVanishes

  /** A job only makes progress: what has succeeded or failed stays so. */
  predicate Progress(j: Job, j': Job) {
    && j' == j.(conditions := j'.conditions, succeeded := j'.succeeded, deleting := j'.deleting)
    && j'.succeeded >= j.succeeded && (IsFailed(j) ==> IsFailed(j')) && (j.deleting ==> j'.deleting)
  }

  ghost predicate Next(s: State, e: Event, s': State) {
    match e
    case Reconcile(wrote) => Pass(s, s', wrote)
    case SpecChange => s' == s.(generation := s.generation + 1)
    case JobRuns => s.job.Some? && s'.job.Some? && Progress(s.job.value, s'.job.value) && s' == s.(job := s'.job)
    case JobVanishes => s' == s.(job := None)
  }

  ghost predicate Run(ss: seq<State>, es: seq<Event>) {
    |ss| == |es| + 1 && forall i {:trigger es[i]} :: 0 <= i < |es| ==> Next(ss[i], es[i], ss[i + 1])
  }

  /** The annotation of a job is the generation it was created for, and this is not in the future. */
  predicate Inv(s: State) {
    s.job.Some? ==>
      && s.job.value.annotation == Generation(s.job.value.createdFor)
      && s.job.value.createdFor <= s.generation && s.job.value.id < s.nextId
  }

  /** The pass finds an outdated job that lingers after its deletion, and annotates it with the current
      generation. */
  predicate Relabels(s: State, s': State) {
    s.job.Some? && s.job.value.held && !IsUpToDate(s.job.value, s.generation) && s' == WithJobUpdated(WithJobDeleted(s))
  }

  /** A pass breaks the invariant exactly if it relabels a job. */
  lemma PassBreaksInvIff(s: State, s': State, wrote: bool)
    requires Inv(s) && Pass(s, s', wrote)
    ensures Inv(s') <==> !Relabels(s, s')
  {
  }

  /** What holds whether jobs are relabelled or not. */
  predicate Sound(s: State) {
    s.job.Some? ==>
      && s.job.value.annotation.Generation? && s.job.value.createdFor <= s.job.value.annotation.value <= s.generation
      && s.job.value.id < s.nextId
  }

  lemma NextKeepsSound(s: State, e: Event, s': State)
    requires Sound(s) && Next(s, e, s')
    ensures Sound(s') && s'.nextId >= s.nextId && s'.generation >= s.generation
  {
  }

  lemma {:induction false} RunKeepsSound(ss: seq<State>, es: seq<Event>, i: nat)
    requires Run(ss, es) && Sound(ss[0]) && i < |ss|
    ensures Sound(ss[i])
  {
    if i > 0 {
      RunKeepsSound(ss, es, i - 1);
      NextKeepsSound(ss[i - 1], es[i - 1], ss[i]);
    }
  }

  /** The job with this identity has been relabelled by a step from one of the states from `i` on, before
      state `j`. */
  predicate Relabelled(ss: seq<State>, i: nat, j: nat, id: nat) {
    exists k {:trigger ss[k]} :: i <= k < j && k + 1 < |ss| && Relabels(ss[k], ss[k + 1]) && ss[k].job.value.id == id
  }

  lemma RelabelledLater(ss: seq<State>, i: nat, j: nat, id: nat)
    requires i <= j && j + 1 < |ss|
    ensures Relabelled(ss, i, j + 1, id) <==> Relabelled(ss, i, j, id) || (Relabels(ss[j], ss[j + 1]) && ss[j].job.value.id == id)
  {
    if Relabelled(ss, i, j, id) {
      var k :| i <= k < j && k + 1 < |ss| && Relabels(ss[k], ss[k + 1]) && ss[k].job.value.id == id;
      assert i <= k < j + 1 && ss[k] == ss[k];
    }
    if Relabels(ss[j], ss[j + 1]) && ss[j].job.value.id == id {
      assert ss[j].job.Some?;
    }
  }

  /** How far the annotation can be trusted: it is the generation that the job was created for exactly if the
      job has not been relabelled. Identities are not used again. */
  ghost predicate Trusted(ss: seq<State>, i: nat)
    requires i < |ss|
  {
    && Sound(ss[i]) && (forall id: nat :: Relabelled(ss, 0, i, id) ==> id < ss[i].nextId)
    && (ss[i].job.Some? ==>
          var j := ss[i].job.value;
          j.annotation.value == j.createdFor <==> !Relabelled(ss, 0, i, j.id))
  }

  /** One step: which job there is, and whether its annotation changes. */
  lemma StepOfJob(s: State, e: Event, s': State)
    requires Sound(s) && Next(s, e, s') && s'.job.Some?
    ensures
      var j' := s'.job.value;
      if j'.id == s.nextId then !Relabels(s, s') && j'.annotation == Generation(j'.createdFor)
      else
        && s.job.Some? && j'.id == s.job.value.id && j'.createdFor == s.job.value.createdFor
        && (if Relabels(s, s') then j'.annotation.Generation? && j'.annotation.value > j'.createdFor
            else j'.annotation == s.job.value.annotation)
  {
  }

  lemma TrustedStays(ss: seq<State>, es: seq<Event>, i: nat)
    requires Run(ss, es) && i < |es| && Trusted(ss, i)
    ensures Trusted(ss, i + 1)
  {
    hide Relabels, Relabelled, Next, Progress, IsFailed;
    var s, s' := ss[i], ss[i + 1];
    assert Next(s, es[i], s') by {
      assert es[i] == es[i];
    }
    NextKeepsSound(s, es[i], s');
    var n := i + 1;
    forall id: nat ensures Relabelled(ss, 0, n, id) <==> Relabelled(ss, 0, i, id) || (Relabels(s, s') && OfJob(s, id)) {
      OneMoreRelabelled(ss, i, id);
    }
    if s'.job.Some? {
      StepOfJob(s, es[i], s');
    }
  }

  predicate OfJob(s: State, id: nat) {
    s.job.Some? && s.job.value.id == id
  }

  lemma OneMoreRelabelled(ss: seq<State>, i: nat, id: nat)
    requires i + 1 < |ss|
    ensures Relabelled(ss, 0, i + 1, id) <==> Relabelled(ss, 0, i, id) || (Relabels(ss[i], ss[i + 1]) && OfJob(ss[i], id))
  {
    RelabelledLater(ss, 0, i, id);
  }

  lemma {:induction false} RunIsTrusted(ss: seq<State>, es: seq<Event>, i: nat)
    requires Run(ss, es) && Inv(ss[0]) && i < |ss|
    ensures Trusted(ss, i)
  {
    if i > 0 {
      RunIsTrusted(ss, es, i - 1);
      TrustedStays(ss, es, i - 1);
    }
  }

  /** In every run, whichever calls fail: when the Deployment is written for a generation, the init job has
      succeeded and has not failed. It was created for this very generation exactly if no pass has relabelled
      it before. */
  lemma InitBeforeRun(ss: seq<State>, es: seq<Event>, i: nat)
    requires Run(ss, es) && Inv(ss[0]) && i < |es| && es[i] == Reconcile(true)
    ensures ss[i + 1].deployment == Some(ss[i].generation)
    ensures
      && ss[i].job.Some? && ss[i].job.value.succeeded > 0 && Condition("Failed", true) !in ss[i].job.value.conditions
      && ss[i].job.value.annotation == Generation(ss[i].generation)
    ensures ss[i].job.value.createdFor == ss[i].generation <==> !Relabelled(ss, 0, i, ss[i].job.value.id)
  {
    RunIsTrusted(ss, es, i);
    assert Next(ss[i], es[i], ss[i + 1]);
  }

  /** If deleted jobs vanish at once, no job is ever relabelled. */
  lemma ImmediateDeletionNeverRelabels(ss: seq<State>, i: nat, j: nat, id: nat)
    requires forall k {:trigger ss[k]} :: 0 <= k < |ss| && ss[k].job.Some? ==> !ss[k].job.value.held
    ensures !Relabelled(ss, i, j, id)
  {
  }

  /** The job with the given identity is gone, or still cannot count. */
  predicate Discarded(s: State, id: nat) {
    id < s.nextId && (OfJob(s, id) ==> IsUnusable(s.job.value, s.generation))
  }

  /** The job with the given identity is gone, or has failed. */
  predicate FailedOrGone(s: State, id: nat) {
    id < s.nextId && (OfJob(s, id) ==> IsFailed(s.job.value))
  }

  lemma NextKeepsDiscarded(s: State, e: Event, s': State, id: nat)
    requires Sound(s) && Discarded(s, id) && Next(s, e, s') && !(Relabels(s, s') && OfJob(s, id))
    ensures Discarded(s', id)
  {
  }

  lemma NextKeepsFailed(s: State, e: Event, s': State, id: nat)
    requires FailedOrGone(s, id) && Next(s, e, s')
    ensures FailedOrGone(s', id)
  {
  }

  lemma {:induction false} StaysDiscarded(ss: seq<State>, es: seq<Event>, i: nat, j: nat, id: nat)
    requires Run(ss, es) && Inv(ss[0]) && i <= j < |ss| && Discarded(ss[i], id) && !Relabelled(ss, i, j, id)
    ensures Discarded(ss[j], id)
    decreases j - i
  {
    if i < j {
      RelabelledLater(ss, i, j - 1, id);
      StaysDiscarded(ss, es, i, j - 1, id);
      RunKeepsSound(ss, es, j - 1);
      NextKeepsDiscarded(ss[j - 1], es[j - 1], ss[j], id);
    }
  }

  lemma {:induction false} StaysFailed(ss: seq<State>, es: seq<Event>, i: nat, j: nat, id: nat)
    requires Run(ss, es) && i <= j < |ss| && FailedOrGone(ss[i], id)
    ensures FailedOrGone(ss[j], id)
    decreases j - i
  {
    if i < j {
      StaysFailed(ss, es, i, j - 1, id);
      NextKeepsFailed(ss[j - 1], es[j - 1], ss[j], id);
    }
  }

  /** A job that has failed is replaced by another one before the Deployment is written again, and so is one
      that is outdated, unless it is relabelled. */
  lemma ReplacedBeforeWrite(ss: seq<State>, es: seq<Event>, i: nat, j: nat)
    requires Run(ss, es) && Inv(ss[0]) && i <= j < |es| && es[j] == Reconcile(true)
    requires ss[i].job.Some?
    requires Condition("Failed", true) in ss[i].job.value.conditions || ss[i].job.value.annotation != Generation(ss[i].generation)
    ensures ss[j].job.Some?
    ensures ss[j].job.value.id == ss[i].job.value.id ==>
              Condition("Failed", true) !in ss[i].job.value.conditions && Relabelled(ss, i, j, ss[i].job.value.id)
  {
    var id := ss[i].job.value.id;
    RunKeepsSound(ss, es, i);
    assert Next(ss[j], es[j], ss[j + 1]);
    if IsFailed(ss[i].job.value) {
      StaysFailed(ss, es, i, j, id);
    }
    if !Relabelled(ss, i, j, id) {
      StaysDiscarded(ss, es, i, j, id);
    }
  }

  /** If a deleted job does not vanish at once, it is annotated with the new generation instead of being
      replaced, provided that the API server accepts this. Then its old success counts. */
  lemma HeldJobCountsForNewGeneration(j: Job)
    requires j.annotation == Generation(1) && j.createdFor == 1 && j.conditions == [] && j.succeeded > 0 && j.held && !j.deleting
    ensures exists ss: seq<State>, es: seq<Event> ::
              && Run(ss, es) && |es| == 3 && Inv(ss[0]) && ss[0].job == Some(j)
              && es[2] == Reconcile(true) && ss[3].deployment == Some(2) && ss[2].job.Some? && ss[2].job.value.createdFor == 1
  {
    var s0 := State(1, true, Some(j), None, j.id + 1);
    var s1 := s0.(generation := 2);
    var s2 := WithJobUpdated(WithJobDeleted(s1));
    var s3 := s2.(deployment := Some(2));
    var ss, es := [s0, s1, s2, s3], [SpecChange, Reconcile(false), Reconcile(true)];
    assert Next(s0, SpecChange, s1);
    assert Pass(s1, s2, false);
    assert IsCompleted(s2) && Pass(s2, s3, true);
    assert Run(ss, es);
  }
}
