# Verified model of the openMCP operator's controllers

The operator is a set of Kubernetes controllers that share nothing but objects on API servers. They
agree with each other through finalizers used as reference counts, labels, phases and deletion
timestamps. This project models these protocols and proves what they promise over all runs: passes of
the controllers interleaved with users and other controllers, with calls that fail at any point.

All modules follow the same pattern.

- The state of the API server is a set of maps from keys to objects (`Kube`). An object that is being
  deleted vanishes with its last finalizer; a delete call only marks an object that has finalizers.
- A controller is a class. Its methods follow the branches and loops of the source. Each call to the
  API server may fail; failed calls are counted in a ghost field, so contracts can speak of passes
  without faults as well as of arbitrary ones.
- What a pass may do is a relation between the states before and after it (`Outcome`, `DeletePass`,
  `Pass`, `Next`). Methods are proved against these relations, and the theorems are lemmas about runs
  of them. A pass is one step of a run. It may stop after any prefix of its writes.

| modules | subject |
|---|---|
| `Kube` | objects, finalizer lists, what the API server does |
| `LabelSelectors`, `SchedulerConfiguration`, `PurposeSelectors` | selectors and the scheduler's configuration |
| `SchedulerModel`, `Scheduler`, `SchedulerRuns` | the cluster scheduler: its decisions, its passes, its runs |
| `SchedulerSafety`, `SchedulerTheorems`, `SchedulerPacking`, `SchedulerRetries` | the invariant of the scheduler and what follows from it |
| `SchedulerPlacement`, `SchedulerTemplates` | where requests are placed, what new clusters are named and contain, and which clusters are deleted, in terms of namespaces, labels and finalizers; templates that stay in memory |
| `ClusterAccess` | the library that requests clusters and access to them |
| `HelmAccess`, `HelmTeardown`, `HelmSelection` | the Helm deployer, its controller for access to clusters, and which clusters it serves and cleans up |
| `ControlPlaneAccess`, `ControlPlaneWishes`, `ControlPlaneAccessRuns`, `ControlPlaneLifecycle` | access to ControlPlanes, what they ask for and are given, their creation and deletion |
| `WorkspaceRuntime`, `WorkspaceRequests`, `WorkspaceGrants`, `WorkspaceGrantNames`, `WorkspaceRights` | kcp workspaces: engagement, requests, RBAC grants and what they allow |
| `AccessHandoff` | AccessRequests between the generic controller and the cluster providers |
| `ProviderInstall` | init job and Deployment of a provider |

The relations are written with functions that name parts of a controller's decisions. What these
functions mean is proved separately, from the fields of objects alone: `SchedulerPlacement`,
`ControlPlaneWishes`, `HelmSelection`, `WorkspaceRights`, and sections of the other modules, spell out
labels, finalizers, namespaces and annotations, and none of their statements goes through the function
it is about.

`dafny verify dfyconfig.toml` checks the whole project.

## Where the code does not do what its documentation says

The model follows the code. The lemmas named below give concrete inputs, and say for all inputs when the
code does what is expected of it.

- The scheduler's conflict check looks up only the first foreign finalizer, and `found` is never set, so
  that finalizer is always scheduled for removal (`StaleFinalizerHidesConflict`, `LiveFinalizerDropped`,
  `ConflictCheckExact`, `LiveFinalizerDroppedIff`). In reachable states this has no effect
  (`ConflictCheckIsRightInRuns`).
- A new cluster shares the maps for its labels and annotations with the template of its definition. If the
  configuration is kept in memory, metadata that is propagated to one exclusive cluster stays in the template
  and gets to the next ones, which the documentation does not say. All clusters of a definition are made as from
  a new template exactly if they are shared or the template has no such map (`AllClustersAreCleanIff`,
  `NextClusterIsCleanIff`, `EntryOfNextCluster`).
- Combining two label selectors is not a conjunction if both constrain the same label key differently
  (`OverwrittenLocalRequirement`, `ConjunctionExactlyIfAgreeing`). A validated configuration has no such pair.
- The purpose operator `Equals` compares with the length of the list, so repeated values count, and
  `ContainsAll` with an empty list matches everything (`RepeatedValueBreaksEquals`,
  `RequirementAsDocumentedIff`).
- A failed list of HelmReleases or chart sources does not end the deletion pass of a HelmDeployment. It
  goes on with an empty list (`ListErrorsOrphan`, `ListErrorDeletesSources`), and leaves an object behind
  exactly if it has nothing to wait for and overlooks one (`OrphansIff`).
- The order of deletion of the cluster access library needs a positive retry interval
  (`InOrderIffPositiveInterval`), and an AccessRequest that a registration does not ask for any more is not
  deleted with the others (`LeftOverAccessStays`). What is in deletion is known in memory only, so that a
  pass between a restart and the next deletion pass may bring objects back (`RestartForgetsDeletion`,
  `InDeletionIffKnown`).
- Secret names of providers replace underscores by dashes, so that two tokens may share one secret
  (`TokensClash`). Access converges exactly if no desired provider shares its name with another one
  (`ReadyConvergesIff`), and without shortening names are shared exactly if they differ in dashes and
  underscores only (`SameSecretNameIff`, `NoClashIff`).
- If the deletion of access secrets of a ControlPlane fails for some of them, references stay in the status
  without a secret (`PartialFailureLosesBacking`): exactly those whose secret was deleted and had no
  finalizers (`FailedDeletionKeepsBackedIff`, `FailedPassIsSaneIff`). No later pass removes them, until the
  provider is desired again (`UnbackedReferenceStays`).
- Workspace generations restart after a cleanup (`OutOfOrderTimerForgetsClient`). A timer forgets a later
  client exactly if there was another cleanup in between and as many engagements since as its generation
  says (`ForgetsLaterClientIff`).
- An init job that does not vanish at once when it is deleted may be annotated with a new generation and
  counted for it (`HeldJobCountsForNewGeneration`); the job that counts was created for the generation exactly
  if no pass has done this to it (`InitBeforeRun`).
- Without the workspace's cluster no ClusterRequest is dealt with, not even one that is being deleted, which
  may happen within a pass (`ClusterMayVanishFirst`). The next pass creates the cluster anew and goes on
  (`Reconcile` of `WorkspaceNamespace`).

## What the theorems rest on

- The tenancy theorems need that clusters vanish only with empty finalizers, which is the rule of the API
  server; `LostClusterBreaksLimit` shows why. They start from an empty platform.
- Beyond validation, the scheduler's configuration is asked for selectors that ignore the labels the
  scheduler itself adds, for templates that decide the exclusions of their selectors, and for purposes
  of one template that share a limit (`Sound`, `ValidatedConfigIsSound`). `TakenOverIsSelectedIff`
  shows that the second demand is exactly what is needed.
- ClusterRequests have a namespace, as all namespaced objects do.
- Others may do anything to requests and clusters except for touching the finalizers of the controllers,
  specs of clusters, and the verdicts of selectors (`Next` in each module lists it).
- Hashes and shortened names are functions. Names of AccessRequests, which are hashes, have to be distinct for
  the providers that a ControlPlane desires. Shortening keeps the first character and leaves names alone
  that fit (`Shortens`).

## Model

| member | source | states |
|---|---|---|
| SchedulerTheorems.LimitsHoldInEveryRun | internal/controllers/scheduler/controller.go:152-401 | in every run from an empty platform, over creations, deletions, lost status and failing calls, a cluster of a limited shared definition never carries more requests than its tenancy count, and one of an exclusive definition never more than one |
| SchedulerPacking.PackingIsOptimal | internal/controllers/scheduler/controller.go:244-409 | n requests of one limited purpose end up on exactly ceil(n/k) clusters, all granted, all clusters full except for at most one, whatever the strategy |
| SchedulerPacking.OneClusterForAll | internal/controllers/scheduler/controller.go:599-625 | without a limit any number of requests leads to exactly one cluster, to which all of them are referred |
| SchedulerRetries.RetriesPackOptimally | internal/controllers/scheduler/controller.go:152-409 | in every state of every run of passes over requests of one limited purpose, repeated in any order, with any calls failing and any names: exactly as many clusters as the placed requests need, all full except for at most one; once all requests are granted these are all of them |
| SchedulerRetries.RetriesShareOneCluster | internal/controllers/scheduler/controller.go:152-409 | the same without a limit: never more than one cluster, to which all granted requests refer |
| SchedulerRetries.PassStaysThrifty | internal/controllers/scheduler/controller.go:152-409 | one pass, stopped anywhere, opens a cluster only if no other has room |
| SchedulerPacking.BalancedRunsKeepSpread | internal/controllers/scheduler/controller.go:278-291 | balanced assignment among fixed candidates never drives the numbers of requests further apart than they were, or than one |
| SchedulerTheorems.AssignmentsAreUnique | internal/controllers/scheduler/controller.go:228-241 | in every reachable state a request has its finalizer on at most one cluster, and each request finalizer belongs to an existing request |
| SchedulerTheorems.ReferenceIsStableInRuns | api/clusters/v1alpha1/clusterrequest_types.go:36-40 | as long as its status is not wiped by others, a request's cluster reference keeps its value, also when the cluster is lost and created again |
| SchedulerTheorems.ReferenceIsNeverChanged | internal/controllers/scheduler/controller.go:590-595 | one step of any kind leaves a proper reference alone |
| SchedulerTheorems.LostStatusIsRecovered | internal/controllers/scheduler/controller.go:228-241 | a request without reference that a cluster carries is referred to this very cluster by every pass that decides anything |
| SchedulerTheorems.WipedReferenceIsRestored | internal/controllers/scheduler/controller.go:200-241 | in every run, after a wipe the next fault-free pass restores exactly the same reference and changes no cluster |
| SchedulerTheorems.OwnFinalizerGoesLast | internal/controllers/scheduler/controller.go:420-477 | the request's own finalizer goes only when no globally selected cluster carries the request's finalizer, in any state |
| SchedulerTheorems.NoClusterLeftBehind | internal/controllers/scheduler/controller.go:420-477 | in a reachable state it goes only when no cluster at all carries the request: the deletion handler looks everywhere it has to |
| SchedulerTheorems.OtherFinalizersSurvive | internal/controllers/scheduler/controller.go:444-464 | all other finalizers survive a releasing pass in their order; a cluster vanishes or is deleted by it only if it has no other request |
| SchedulerTheorems.KeepingRespectsLimitIff | internal/controllers/scheduler/controller.go:152-170 | honouring a reference does not look at limits; it keeps within them exactly if the cluster carries the request already or has room |
| SchedulerTheorems.LostClusterBreaksLimit | internal/controllers/scheduler/controller.go:152-170 | a concrete state, outside of the reachable ones, in which an old reference overfills a cluster that was lost and re-created |
| SchedulerTheorems.ConflictCheckExact | internal/controllers/scheduler/controller.go:321-363 | the conflict check agrees with its documentation exactly if the own finalizer is there, no foreign one is live, or a live one comes first |
| SchedulerTheorems.StaleFinalizerHidesConflict | internal/controllers/scheduler/controller.go:335-363 | a stale finalizer in front of a live one hides a documented conflict |
| SchedulerTheorems.LiveFinalizerDroppedIff | internal/controllers/scheduler/controller.go:350-360 | a take-over drops the finalizer of a live request exactly if a live foreign one comes before the own one |
| SchedulerTheorems.LiveFinalizerDropped | internal/controllers/scheduler/controller.go:350-360 | a concrete list of finalizers for which this happens |
| SchedulerTheorems.ConflictCheckIsRightInRuns | internal/controllers/scheduler/controller.go:321-374 | in every reachable state neither happens: reported and documented conflicts coincide, and nothing is dropped |
| SchedulerPlacement.DecisionIsRight | internal/controllers/scheduler/controller.go:205-312 | for a request without reference, in terms of namespaces, selectors, purposes, finalizers and deletion: a fitting cluster that carries the request is referred to; otherwise, if sharing is allowed and a cluster has space, such a one is joined, with the balanced strategy one with the fewest requests, with an unknown one only if there is no other; only otherwise a cluster is created or taken over |
| SchedulerPlacement.ReferenceIsHonoured | internal/controllers/scheduler/controller.go:152-205 | a reference to a cluster that exists is honoured; a cluster that was lost is created again or taken over, unless the purpose is unknown, there is no name, or there is a conflict |
| SchedulerPlacement.FitsIffRelevant | internal/controllers/scheduler/controller.go:548-582 | a cluster is found exactly if it is selected, has the purpose, and, outside of cluster scope, lies in the namespace of the template or else of the request |
| SchedulerPlacement.HasSpaceIffCandidate | internal/controllers/scheduler/controller.go:244-263 | a cluster is a candidate exactly if it fits, is not in deletion and carries fewer requests than the limit, if there is one |
| SchedulerPlacement.ReferencesFitInRuns | internal/controllers/scheduler/controller.go:134-409 | in every reachable state the reference of a live request is to a cluster that fits and carries it, so outside of cluster scope never to one of another namespace |
| SchedulerPlacement.NewClusterIsNamed | internal/controllers/scheduler/controller.go:588-656 | key of a new cluster: that of a lost one; otherwise the namespace of template or request, and the name of template or purpose for a singleton, or a prefix with a suffix that depends on the request only |
| SchedulerPlacement.SameNameAgain | internal/controllers/scheduler/controller.go:694-702 | without randomization a request is given the same name again in whatever state |
| SchedulerPlacement.NewClusterHasContent | internal/controllers/scheduler/controller.go:657-691 | finalizers, every label, every annotation, purposes, profile and tenancy of a new cluster, in terms of request and template |
| SchedulerPlacement.TakenOverHasContent | internal/controllers/scheduler/controller.go:384-400 | the same for a cluster that is taken over, which keeps all other entries, and all its finalizers but the first one for a request |
| SchedulerPlacement.KeptHasContent | internal/controllers/scheduler/controller.go:152-195 | a kept cluster has the finalizer of the request and, if it is exclusive, its metadata; everything else is as before |
| SchedulerPlacement.OnlyStatusIsWritten | internal/controllers/scheduler/controller.go:96-150 | a pass changes nothing of its request but its own finalizer and the reference in the status, which is the reported one, and nothing of other requests |
| SchedulerPlacement.ReleaseDeletesIff | internal/controllers/scheduler/controller.go:420-468 | whichever calls fail, a cluster begins to be deleted only if it has the label with the value "true" and no finalizer of another request, and vanishes only without other finalizers; if all calls succeed exactly those clusters are deleted; clusters that are not held stay as they are |
| SchedulerPlacement.GoesWithIff | internal/controllers/scheduler/controller.go:448-454 | when a cluster goes with a request, in terms of its label and its finalizers |
| SchedulerTemplates.AllClustersAreCleanIff | internal/controllers/scheduler/controller.go:657-677 | all clusters that are made from a template in memory are made as from a new one exactly if they are shared or the template has no map for the entries |
| SchedulerTemplates.NextClusterIsCleanIff | internal/controllers/scheduler/controller.go:657-677 | the next cluster after given earlier ones is made so exactly if it is shared, or there is no map, or no metadata that only earlier requests have differs from the template |
| SchedulerTemplates.EntryOfNextCluster | internal/controllers/scheduler/controller.go:657-677 | every label or annotation of the next cluster: the value of the request, of the latest earlier request, of the template, or the default |
| SchedulerTemplates.FirstClusterIsAsDecided | internal/controllers/scheduler/controller.go:657-677 | the first cluster from a template is the one of the scheduler's decisions |
| SchedulerTemplates.Template.NewClusterMetadata | internal/controllers/scheduler/controller.go:657-677 | labels and annotations of a new cluster and what they leave in the template, whose maps they are |
| SchedulerSafety.NextKeepsInv | internal/controllers/scheduler/controller.go:134-481 | every single event, of the scheduler or of others, keeps the invariant that the theorems rest on |
| SchedulerSafety.RunKeepsInv | internal/controllers/scheduler/controller.go:134-481 | the invariant holds in every state of every run |
| SchedulerSafety.TakenOverHasNoRequests | internal/controllers/scheduler/controller.go:384-400 | in a reachable state only clusters without requests are taken over |
| SchedulerSafety.ClusterWritesKeepInv | internal/controllers/scheduler/controller.go:152-409 | all cluster writes of a pass, stopped after any of them, keep the invariant, and the chosen cluster carries the request |
| SchedulerPacking.PassKeepsPacked | internal/controllers/scheduler/controller.go:244-409 | one fault-free pass keeps all clusters but the last one full and grants the request |
| SchedulerRuns.ValidatedConfigIsSound | internal/config/config_scheduler.go:87-178 | a configuration that passes validation is, after completion, sound: each template is found by its own selector and by the global one |
| SchedulerRuns.NewClusterIsRelevant | internal/controllers/scheduler/controller.go:548-691 | a cluster created for a request is found again for every request that searches for its purpose in its namespace |
| SchedulerRuns.TakenOverIsSelectedIff | internal/controllers/scheduler/controller.go:386-394 | a cluster that is taken over is selected whatever its earlier labels, exactly if the template decides all exclusions of the selector |
| Scheduler.ClusterScheduler.Reconcile | internal/controllers/scheduler/controller.go:96-131 | a pass is at most an annotation removal followed by one scheduling or releasing event of a run; ignored requests are left alone; without faults it fails only with a documented reason |
| Scheduler.ClusterScheduler.HandleCreateOrUpdate | internal/controllers/scheduler/controller.go:134-409 | the pass puts the own finalizer first and then ends in one of the states the decision relation allows |
| Scheduler.ClusterScheduler.Assign | internal/controllers/scheduler/controller.go:152-409 | the decision, the writes and the reported reference or error for a held request, whichever calls fail |
| Scheduler.ClusterScheduler.KeepCluster | internal/controllers/scheduler/controller.go:152-195 | finalizer first, then metadata of exclusive clusters, each possibly the last write |
| Scheduler.ClusterScheduler.FetchRelevantClusters | internal/controllers/scheduler/controller.go:548-582 | the list holds exactly the clusters that match namespace, selector and purpose, each once; what matching means is `FitsIffRelevant` |
| Scheduler.ClusterScheduler.FilterCandidates | internal/controllers/scheduler/controller.go:244-263 | what remains are exactly the candidates: not in deletion and below the limit |
| Scheduler.ClusterScheduler.LeastTenants | internal/controllers/scheduler/controller.go:281-290 | the first cluster of minimal tenancy count |
| Scheduler.ClusterScheduler.ChooseCandidate | internal/controllers/scheduler/controller.go:264-295 | the strategy's choice; an unknown strategy is an error only if there is a choice |
| Scheduler.ClusterScheduler.JoinCluster | internal/controllers/scheduler/controller.go:300-312 | the request's finalizer is added to the chosen candidate |
| Scheduler.ClusterScheduler.ScanForConflict | internal/controllers/scheduler/controller.go:327-363 | what the loop reports and what it wants removed, as functions of the finalizer list |
| Scheduler.ClusterScheduler.TakeOverObject | internal/controllers/scheduler/controller.go:386-394 | finalizers, labels, annotations and spec of a cluster that is taken over |
| Scheduler.ClusterScheduler.TakeOverCluster | internal/controllers/scheduler/controller.go:327-400 | conflict or take-over of an existing cluster with the chosen name |
| Scheduler.ClusterScheduler.PlaceCluster | internal/controllers/scheduler/controller.go:313-401 | creation under a fixed or generated name, or take-over |
| Scheduler.ClusterScheduler.PropagateEntries | internal/controllers/scheduler/controller.go:171-186 | missing and outdated metadata entries are set, all others stay |
| Scheduler.ClusterScheduler.GetRequestUIDs | api/clusters/v1alpha1/cluster_types.go:171-184 | the set of uids behind the request finalizers |
| Scheduler.ClusterScheduler.FetchHeldClusters | internal/controllers/scheduler/controller.go:427-442 | exactly the globally selected clusters with the request's finalizer |
| Scheduler.ClusterScheduler.ReleaseCluster | internal/controllers/scheduler/controller.go:446-463 | a delete call is issued exactly if no request is left and the label asks for it, whether or not the patch worked; when this is the case is `GoesWithIff` |
| Scheduler.ClusterScheduler.ReleaseClusters | internal/controllers/scheduler/controller.go:444-468 | all listed clusters are treated, carrying on after errors, and all others stay as they are |
| Scheduler.ClusterScheduler.HandleDelete | internal/controllers/scheduler/controller.go:411-481 | the pass ends in a state of the release relation; delete calls are issued exactly for held clusters that lose their last request |
| SchedulerModel.UIDIn | api/clusters/v1alpha1/cluster_types.go:176-184 | a uid is counted exactly if the request's finalizer is on the cluster |
| SchedulerModel.UIDsWith | internal/controllers/scheduler/controller.go:303-312 | adding the finalizer adds exactly this request |
| SchedulerModel.UIDsWithout | internal/controllers/scheduler/controller.go:448-454 | removing it removes exactly this request |
| LabelSelectors.ConjunctionExactlyIfAgreeing | internal/config/selector.go:52-100 | a satisfiable combination is the documented conjunction on all label sets exactly if shared label keys agree |
| LabelSelectors.MergedIsConjunction | internal/config/selector.go:57-100 | with agreeing keys the combination is the conjunction |
| LabelSelectors.MergedImpliesGlobal | internal/config/selector.go:57-100 | whatever the combination selects is selected by the second selector |
| LabelSelectors.OverwrittenLocalRequirement | internal/config/selector.go:78-85 | a concrete label set that the combination selects and the local selector excludes |
| LabelSelectors.CombiningTwiceChangesNothing | internal/config/selector.go:57-100 | combining again with the same selector selects the same |
| LabelSelectors.OperatorsRelate | internal/config/selector.go:27-41 | each operator and its negation exclude each other on all label sets, In lists alternatives, and Exists is any of them |
| LabelSelectors.UsableRequirementsDecide | internal/config/selector.go:27-41 | a requirement with values is valid exactly if some labels match and some do not; the other operators have no values; unknown ones are invalid |
| LabelSelectors.SelectorIsConjunction | internal/config/selector.go:27-41 | a selector is the conjunction of its parts, and without any it selects everything |
| LabelSelectors.Selector.Complete | internal/config/selector.go:27-41 | parses the selector; an invalid one completes nothing; nothing written means everything |
| LabelSelectors.Selector.Combine | internal/config/selector.go:57-100 | a fresh, completed selector for the combination, nil only if nothing is written on either side |
| SchedulerConfiguration.ValidIffSound | internal/config/config_scheduler.go:87-158 | no error is reported exactly if scope, strategy and selectors are usable and every purpose has a name and a sound definition |
| SchedulerConfiguration.NoErrorsIffSound | internal/config/config_scheduler.go:122-155 | the same for a single definition |
| SchedulerConfiguration.CompletedDefinitionFindsItsTemplate | internal/config/config_scheduler.go:142-178 | after completion a definition finds its own template, and what it selects is globally selected |
| SchedulerConfiguration.CheckDefinition | internal/config/config_scheduler.go:122-155 | the checks on one definition, including the two early ends |
| SchedulerConfiguration.SchedulerConfig.Default | internal/config/config_scheduler.go:74-85 | unset scope and strategy become Cluster and Balanced, others stay |
| SchedulerConfiguration.SchedulerConfig.Validate | internal/config/config_scheduler.go:87-158 | exactly the deserved errors |
| SchedulerConfiguration.SchedulerConfig.ValidateMappings | internal/config/config_scheduler.go:113-157 | independent of the order in which purposes are visited |
| SchedulerConfiguration.SchedulerConfig.Complete | internal/config/config_scheduler.go:160-178 | succeeds on valid selectors; then the global selectors are parsed and every definition is combined with the global one |
| PurposeSelectors.EqualsIffNoDuplicates | api/clusters/v1alpha1/selectors.go:308-337 | comparison by number and inclusion is equality of sets on all objects exactly if no value is listed twice |
| PurposeSelectors.RepeatedValueBreaksEquals | api/clusters/v1alpha1/selectors.go:326-333 | a wrong rejection and a wrong acceptance for a repeated value |
| PurposeSelectors.RequirementAsDocumentedIff | api/clusters/v1alpha1/selectors.go:96-125 | each operator does what is documented on all objects exactly if Equals has no repetition and ContainsAll has a value |
| PurposeSelectors.SelectorMeaning | api/clusters/v1alpha1/selectors.go:133-141 | identities override everything; otherwise labels and all documented purpose relations are ANDed; no selector matches everything |
| PurposeSelectors.SelectorDecision | api/clusters/v1alpha1/selectors.go:133-141 | the same decision for one selector, in terms of its three parts |
| PurposeSelectors.PurposesAreASet | api/clusters/v1alpha1/selectors.go:308-337 | order and repetition of an object's purposes do not matter |
| PurposeSelectors.MatchesPurposesIsConjunction | api/clusters/v1alpha1/selectors.go:308-337 | the loop with early returns is a conjunction |
| ClusterAccess.AccessGoesFirstInRuns | lib/clusteraccess/advanced/clusteraccess.go:566-672 | in every run with a positive interval, in which restarts are followed by a deletion pass first, once the deletion of a ClusterRequest is started its AccessRequest is gone for good; a complete deletion leaves nothing of any registration |
| ClusterAccess.DeletionNeverGoesBack | lib/clusteraccess/advanced/clusteraccess.go:344-672 | from its first deletion pass to the complete one nothing comes up for a request, however passes and restarts are interleaved, provided that after each restart a deletion pass comes first |
| ClusterAccess.InDeletionIffKnown | lib/clusteraccess/advanced/clusteraccess.go:566-672 | in this time the request is known to be in deletion exactly if there was no restart since the last deletion pass |
| ClusterAccess.RestartForgetsDeletion | lib/clusteraccess/advanced/clusteraccess.go:344-672 | a run in which a pass after a restart creates a ClusterRequest again that is to be deleted |
| ClusterAccess.InOrderIffPositiveInterval | lib/clusteraccess/advanced/clusteraccess.go:594-662 | the order is kept in all states exactly if the retry interval is positive |
| ClusterAccess.LeftOverAccessStays | lib/clusteraccess/advanced/clusteraccess.go:594-611 | a finished registration leaves an AccessRequest exactly if it does not ask for one any more but once did |
| ClusterAccess.NewAccessRefersRightly | lib/clusteraccess/advanced/clusteraccess.go:447-500 | an AccessRequest that comes up refers to the registration's own ClusterRequest, which is granted, or, if it has none, to what the registration refers to; it has the finalizer, the token and the OIDC configuration asked for, and comes up only outside of deletion |
| ClusterAccess.NewRequestAsAsked | lib/clusteraccess/advanced/clusteraccess.go:392-432 | a ClusterRequest that comes up has content, labels and finalizer of the registration that asks for it, and comes up only outside of deletion |
| ClusterAccess.CompletedMeansUsable | lib/clusteraccess/advanced/clusteraccess.go:344-561 | a complete pass means, for every registration: the ClusterRequest is granted, and the AccessRequest is labelled, granted, up to date and configured as asked for, unless it is being deleted; one that is not asked for is gone |
| ClusterAccess.OnlyOwnAreTakenAway | lib/clusteraccess/advanced/clusteraccess.go:566-672 | a deletion pass, wherever it stops, marks or removes only objects with key and labels of a registration that has them; they vanish only if nobody else has a finalizer on them |
| ClusterAccess.CompletedMeansGone | lib/clusteraccess/advanced/clusteraccess.go:566-672 | after a complete deletion pass no object with key and labels of a registration is left, and after any pass without error the deletion of all AccessRequests has been requested |
| ClusterAccess.RequestGoesAfterAccess | lib/clusteraccess/advanced/clusteraccess.go:594-662 | a delete call for a ClusterRequest is made only when the AccessRequest of its registration is gone |
| ClusterAccess.BlockedIff | lib/clusteraccess/advanced/clusteraccess.go:344-540 | when a registration cannot be served, in terms of its entries and of keys and labels of the objects in its way |
| ClusterAccess.WaitsIff | lib/clusteraccess/advanced/clusteraccess.go:392-556 | what a registration is waiting for: its ClusterRequest to be granted, its AccessRequest to be granted and observed, or one that it does not ask for any more to vanish |
| ClusterAccess.HeldByNobodyElseIff | lib/clusteraccess/advanced/clusteraccess.go:566-672 | when one deletion pass without failing calls is complete |
| ClusterAccess.Reconciler.Reconcile | lib/clusteraccess/advanced/clusteraccess.go:344-561 | what a pass may change wherever it stops; without error and requeue all registrations are ready; otherwise a call failed, a registration is blocked, or one is waiting for others |
| ClusterAccess.Reconciler.ReconcileOne | lib/clusteraccess/advanced/clusteraccess.go:358-556 | the part of a pass for one registration |
| ClusterAccess.Reconciler.EnsureClusterRequest | lib/clusteraccess/advanced/clusteraccess.go:392-445 | creation only outside of deletion; goes on only when granted |
| ClusterAccess.Reconciler.EnsureAccessRequest | lib/clusteraccess/advanced/clusteraccess.go:447-540 | creation only outside of deletion, updates only of managed live objects; goes on only when usable; what is created is `NewAccessRefersRightly` |
| ClusterAccess.Reconciler.EnsureNamespace | lib/clusteraccess/advanced/clusteraccess.go:370-390 | the namespace exists afterwards, and is not created in deletion |
| ClusterAccess.Reconciler.ReconcileDelete | lib/clusteraccess/advanced/clusteraccess.go:566-672 | membership in the in-deletion set follows completion; without faults and foreign finalizers one pass completes |
| ClusterAccess.Reconciler.DeleteOne | lib/clusteraccess/advanced/clusteraccess.go:574-665 | the ClusterRequest is touched only if the AccessRequest asks for no requeue |
| ClusterAccess.Reconciler.EnsureAccessRequestDeletion | lib/clusteraccess/advanced/clusteraccess.go:771-817 | objects of others are skipped; own ones are marked and lose the own finalizer only if it is the last one |
| ClusterAccess.Reconciler.EnsureClusterRequestDeletion | lib/clusteraccess/advanced/clusteraccess.go:613-662 | the same for ClusterRequests, with a log of started deletions |
| HelmAccess.AccessIsNeverOrphaned | internal/controllers/helm/controller_cluster.go:126-238 | in every run with restarts: existing access implies the access finalizer, ready access implies it, and between passes no cluster is in the fourth state |
| HelmAccess.KeepingMayCreate | internal/controllers/helm/controller_cluster.go:161-199 | access is kept only while the library does not consider the cluster in deletion |
| HelmAccess.ReadyMeansUsable | internal/controllers/helm/controller_cluster.go:184-199 | a cluster becomes ready only with the access finalizer on it and an AccessRequest in its namespace, with the controller's name and labels, that is granted, up to date and asks for a token of a cluster-admin, or is being deleted by others |
| HelmAccess.NewAccessIsForCluster | internal/controllers/helm/controller_cluster.go:36-56 | the only AccessRequest that comes up refers to the cluster itself, lies in its namespace, has name and labels of the controller and asks for a token of a cluster-admin; it comes up only with a HelmDeployment's finalizer on the cluster; ClusterRequests are left alone |
| HelmAccess.StatusFollows | internal/controllers/helm/controller_cluster.go:151-237 | the status after a pass: ready exactly if access was completed or had been ready, forgotten exactly after a complete deletion, which is repeated exactly if access has been asked for in the meantime; results of the library are passed on |
| HelmAccess.OnlyAccessFinalizerChanges | internal/controllers/helm/controller_cluster.go:177-226 | nothing but the access finalizer of the reconciled cluster is changed, and a cluster vanishes only with its last finalizer |
| HelmAccess.HelmDeploymentsAre | internal/controllers/helm/controller_cluster.go:243-259 | a uid counts exactly if the group's finalizer with it is on the cluster, except for the access finalizer |
| HelmAccess.HasAccessIff | internal/controllers/helm/controller_cluster.go:36-56 | which object is the access object of a cluster |
| HelmAccess.DeletionBeginsAndEndsInOrder | internal/controllers/helm/controller_cluster.go:200-230 | a deletion begins only without HelmDeployments, and the finalizer goes only after the access object |
| HelmAccess.RequiredAccessIsRequestedAgainIff | internal/controllers/helm/controller_cluster.go:200-236 | a pass that ends a deletion although access is required asks to be called again exactly if it found the access finalizer |
| HelmAccess.RequiredAccessIsRequestedAgain | internal/controllers/helm/controller_cluster.go:156-236 | in a reachable state it always does |
| HelmAccess.AccessController.Reconcile | internal/controllers/helm/controller_cluster.go:126-238 | a pass is one of: nothing, keep, delete, after an optional annotation removal; without faults it does nothing only if there is nothing to do |
| HelmAccess.AccessController.KeepAccess | internal/controllers/helm/controller_cluster.go:166-199 | the status is ready exactly after a completed keep; the finalizer comes first |
| HelmAccess.AccessController.DeleteAccess | internal/controllers/helm/controller_cluster.go:200-237 | status, finalizer and requeue after a deletion pass |
| HelmAccess.AccessController.HelmDeploymentsOnCluster | internal/controllers/helm/controller_cluster.go:243-259 | the uids behind the group's finalizers, without the access finalizer |
| HelmAccess.AccessController.GetAccessForCluster | internal/controllers/helm/controller_cluster.go:261-281 | credentials are handed out only for ready clusters with a granted request, and for these unless a call fails |
| HelmTeardown.FinalizersProtectEverything | internal/controllers/helm/controller.go:248-480 | in every run with successful lists: a Flux object implies the cluster finalizer, and this implies the deployment's own finalizer |
| HelmTeardown.ThreePassesSuffice | internal/controllers/helm/controller.go:390-480 | if nothing fails and Flux removes what is marked, three passes end any teardown |
| HelmTeardown.ListErrorsOrphan | internal/controllers/helm/controller.go:396-446 | a deletion pass leaves nothing behind in all states exactly if both lists succeed |
| HelmTeardown.OrphansIff | internal/controllers/helm/controller.go:396-446 | for every state and every failed list: the pass leaves something behind exactly if it sees nothing to wait for and there is an object that was not listed, on a cluster without a listed release |
| HelmTeardown.SourcesAfterReleases | internal/controllers/helm/helm.go:351-439 | with a successful list no source is deleted while a release of its cluster is there |
| HelmTeardown.SourcesAfterReleasesOnCluster | internal/controllers/helm/controller.go:354-369 | the clean-up of one cluster leaves all sources alone as long as a release is there for the cluster |
| HelmTeardown.ListErrorDeletesSources | internal/controllers/helm/controller.go:397-403 | without the list of releases sources are deleted nevertheless |
| HelmSelection.NothingComesUp | internal/controllers/helm/controller.go:286-383 | a step on a cluster that is being deleted or does not match brings no finalizer of the deployment and no Flux object |
| HelmSelection.FullCleanUpIsRight | internal/controllers/helm/controller.go:354-383 | without faults such a step marks all releases for the cluster, and all sources if there are no releases, and takes the finalizer off if there was neither |
| HelmSelection.NothingIsCleanedUp | internal/controllers/helm/controller.go:288-353 | a live matching cluster keeps the finalizer, and no release is deleted by a step on it |
| HelmSelection.DeployedForCluster | internal/controllers/helm/controller.go:278-353 | whatever a step on a live matching cluster writes is in its namespace, has the deployment's name for it and the labels by which it is found again; only sources for the cluster are deleted |
| HelmSelection.OthersAreLeftAlone | internal/controllers/helm/helm.go:304-439 | Flux objects without the deployment's labels are never deleted or changed by deletion and clean-up |
| HelmSelection.ChosenIffSelected | internal/controllers/helm/controller.go:286-289 | a cluster is selected exactly if it is alive and its identity, or else its labels and purposes match |
| HelmSelection.ReleasesStayForLive | internal/controllers/helm/controller.go:286-383 | releases of a live deployment are marked only for clusters that are being deleted or do not match |
| HelmSelection.NothingForDeleted | internal/controllers/helm/controller.go:390-480 | for a deployment in deletion no finalizer and no Flux object comes up |
| HelmSelection.HeldWhileNeeded | internal/controllers/helm/controller.go:405-446 | a cluster keeps the deployment's finalizer as long as there was an object for it on a list that could be read |
| HelmSelection.OwnFinalizerGoesLast | internal/controllers/helm/controller.go:405-480 | the deployer's own finalizer goes only if there was no object with the deployment's labels, and no cluster has the deployment's finalizer afterwards |
| HelmSelection.OnlyOwnFinalizersGo | internal/controllers/helm/controller.go:410-446 | clusters lose nothing but the deployment's finalizer, and vanish only without others |
| HelmSelection.DeploymentOutlivesOthers | internal/controllers/helm/controller.go:448-480 | so does the deployment with the deployer's finalizer |
| HelmSelection.ProtectedInRuns | internal/controllers/helm/controller.go:248-480 | the invariant of all runs in plain terms: an object with the deployment's labels for a cluster means the finalizer on the cluster, and this means the one on the deployment |
| HelmTeardown.Deployer.HandleCreateOrUpdate | internal/controllers/helm/controller.go:248-387 | the pass is a run of single steps; without faults every cluster is visited, every selected one has the finalizer, and every other one is cleaned up as far as possible; what selected means is `ChosenIffSelected` |
| HelmTeardown.Deployer.HandleDelete | internal/controllers/helm/controller.go:390-480 | the pass ends in a state of the deletion relation; without faults in exactly the expected one |
| HelmTeardown.Deployer.DeleteMultipleHelmReleases | internal/controllers/helm/helm.go:304-345 | all found releases remain and are marked, carrying on after failures |
| HelmTeardown.Deployer.DeleteMultipleHelmChartSources | internal/controllers/helm/helm.go:351-439 | sources of clusters with remaining releases are skipped and remain |
| HelmTeardown.Deployer.ReleaseClusters | internal/controllers/helm/controller.go:410-446 | the finalizer goes from all clusters but those that are still referred to |
| HelmTeardown.Deployer.CleanUpCluster | internal/controllers/helm/controller.go:354-383 | objects first, the finalizer only when none of them was found |
| HelmTeardown.Deployer.DeployToCluster | internal/controllers/helm/controller.go:288-353 | the finalizer is on the cluster before any object is created for it; without faults source and release are in place as soon as access and source are usable |
| HelmTeardown.Deployer.DeployHelmChartSource | internal/controllers/helm/helm.go:35-157 | obsolete sources are deleted only after the current one is in place |
| ControlPlaneAccess.ReadyConvergesIff | internal/controllers/controlplane/access.go:29-79 | a ready result means that AccessRequests, secrets and references are exactly those of the desired providers, all granted and all copied, exactly if no desired provider shares its secret name with another desired one or one referred to |
| ControlPlaneAccess.ReadyReferences | internal/controllers/controlplane/access.go:29-79 | after a ready result the references are the old ones and those of the desired providers, so they are exact exactly if no undesired one was there before; this needs no assumption on names or state |
| ControlPlaneAccess.PhasesKeepSane | internal/controllers/controlplane/access.go:29-404 | without shared names, successful passes keep the invariant that every reference has a secret |
| ControlPlaneAccess.StoppedIsSane | internal/controllers/controlplane/access.go:29-404 | so do passes that fail in one of the first three phases, wherever they stop |
| ControlPlaneAccess.StoppedIsOrderly | internal/controllers/controlplane/access.go:29-404 | wherever a pass fails, objects keep the names that belong to their providers, whether names are shared or not |
| ControlPlaneAccess.FailedDeletionKeepsBackedIff | internal/controllers/controlplane/access.go:265-340 | after some deletions every reference still has a secret exactly if each has a listed one that was not deleted or has a finalizer |
| ControlPlaneAccess.FailedPassIsSaneIff | internal/controllers/controlplane/access.go:265-340 | the same for a whole pass that fails in the fourth phase, in terms of the secret names of the references |
| ControlPlaneAccess.PartialFailureLosesBacking | internal/controllers/controlplane/access.go:265-340 | two secrets are to be deleted and one deletion fails: a state from which a failing pass leaves a reference without a secret |
| ControlPlaneAccessRuns.UnbackedReferenceStays | internal/controllers/controlplane/access.go:29-404 | in every run of passes, successful or not, a reference without a secret stays as long as its provider is not desired, and access has not converged |
| ControlPlaneAccessRuns.StepKeepsUnbacked | internal/controllers/controlplane/access.go:265-404 | one pass, stopped anywhere, or a change by others neither removes such a reference nor gives it a secret |
| ControlPlaneAccessRuns.UnbackedIffNotBacked | internal/controllers/controlplane/access.go:302-340 | such references are there exactly if the invariant does not hold |
| ControlPlaneAccess.AllServed | internal/controllers/controlplane/access.go:84-192 | serving the wishes one after the other gives every desired provider its own AccessRequest and leaves the others alone |
| ControlPlaneWishes.DesiredIff | internal/controllers/controlplane/access.go:96-121 | a provider is desired exactly if the ControlPlane is not being deleted and it is the default one, with a configured provider and role bindings for it, or an extra one, or a token |
| ControlPlaneWishes.WishesAre | internal/controllers/controlplane/access.go:96-121 | the wishes in their order: default provider, extra providers, tokens |
| ControlPlaneWishes.WishIsGiven | internal/controllers/controlplane/access.go:123-190 | an AccessRequest that is created or updated for a wish has its configuration, its bindings, the labels of ControlPlane and provider, and the reference to the ClusterRequest |
| ControlPlaneWishes.LastWishIsServed | internal/controllers/controlplane/access.go:84-192 | of several wishes for one provider the last one counts |
| ControlPlaneWishes.ReadyGivesConfiguration | internal/controllers/controlplane/access.go:29-192 | a ready result means a usable AccessRequest with exactly its configuration, its bindings and the reference to the ClusterRequest for the default provider, every extra provider and every token, unless a later one has its name |
| ControlPlaneWishes.ConvergedGivesCredentials | internal/controllers/controlplane/access.go:29-404 | converged access in plain terms: for each desired provider a granted AccessRequest with the labels of the ControlPlane, a copy of its secret under the name made of both, and a reference to it |
| ControlPlaneWishes.ConvergedGivesNothingElse | internal/controllers/controlplane/access.go:197-340 | and no other AccessRequest, secret or reference of the ControlPlane |
| ControlPlaneWishes.OnlyUndesiredAreDeleted | internal/controllers/controlplane/access.go:29-260 | wherever a pass stops, an AccessRequest without the name of a desired provider is left alone, unless it has the labels of the ControlPlane and is for a provider that is not desired; then it may be deleted |
| ControlPlaneWishes.OnlyUndesiredSecretsAreDeleted | internal/controllers/controlplane/access.go:265-404 | the same for secrets, in every phase that a pass may stop in |
| ControlPlaneWishes.CopyIs | internal/controllers/controlplane/access.go:360-395 | a copied secret has the content of the original and stands for the provider; nothing else is changed on one that is there |
| ControlPlaneWishes.UndesiredIff | internal/controllers/controlplane/access.go:197-340 | which AccessRequests and secrets are to be deleted, in terms of their labels |
| ControlPlaneWishes.ListedIff | internal/controllers/controlplane/access.go:197-214 | which objects are the ControlPlane's, in terms of their labels |
| ControlPlaneWishes.ProviderOfSecretIff | internal/controllers/controlplane/access.go:285-300 | which provider a secret stands for, in terms of its labels |
| ControlPlaneAccess.DashedIsInjectiveIff | internal/controllers/controlplane/access.go:409-415 | two provider names are dashed to the same exactly if they differ only in dashes and underscores |
| ControlPlaneAccess.SameSecretNameIff | internal/controllers/controlplane/access.go:406-415 | the same for whole secret names that need not be shortened |
| ControlPlaneAccess.NoClashIff | internal/controllers/controlplane/access.go:406-415 | without shortening no names are shared exactly if no two of the providers in question differ in dashes and underscores only |
| ControlPlaneAccess.TokensClash | internal/controllers/controlplane/access.go:409-415 | the tokens a_b and a-b share one secret name, so access never converges |
| ControlPlaneAccess.AccessManager.ManageAccessRequests | internal/controllers/controlplane/access.go:29-79 | the four phases, exactly, or where the pass has stopped; when ready, convergence exactly if no names are shared; the invariant kept; nothing new for a ControlPlane without wishes; without faults an error only for a missing secret |
| ControlPlaneAccess.AccessManager.CreateOrUpdateDesiredAccessRequests | internal/controllers/controlplane/access.go:84-192 | the first n wishes are served; all of them on success; what the wishes are is `DesiredIff` and `WishesAre` |
| ControlPlaneAccess.AccessManager.DeleteUndesiredAccessRequests | internal/controllers/controlplane/access.go:197-260 | exactly the undesired objects of the ControlPlane are deleted on success, only such on failure |
| ControlPlaneAccess.AccessManager.SyncAccessSecrets | internal/controllers/controlplane/access.go:344-404 | ready exactly if all requests are usable; secrets of these are copied and referred to |
| ControlPlaneAccess.AccessManager.DeleteUndesiredAccessSecrets | internal/controllers/controlplane/access.go:265-340 | references are removed exactly if all deletions succeed; if not, not all secrets have been deleted |
| ControlPlaneLifecycle.NothingIsLeftBehind | internal/controllers/controlplane/controller.go:195-559 | in every run of creation and deletion passes: a ClusterRequest exists only while the finalizer with its name is on the ControlPlane, and the own finalizer is there as long as anything is |
| ControlPlaneLifecycle.DeletingKeepsGuarded | internal/controllers/controlplane/controller.go:376-559 | a deletion pass, wherever it stops, keeps this |
| ControlPlaneLifecycle.Controller.DeletionStep | internal/controllers/controlplane/controller.go:376-559 | the deletion pass is a step of the runs, in which nothing comes up |
| ControlPlaneLifecycle.OnlyOwnFinalizersGo | internal/controllers/controlplane/controller.go:471-495 | finalizers of others and of remaining ClusterRequests survive in their order |
| ControlPlaneLifecycle.FinalizersComeFirst | internal/controllers/controlplane/controller.go:195-373 | a creation pass takes nothing away; whatever comes up is preceded by both finalizers, and access by the primary ClusterRequest |
| ControlPlaneLifecycle.WhatIsRemoved | internal/controllers/controlplane/controller.go:471-495 | a finalizer for a ClusterRequest is removed exactly if this does not remain, and no other one is |
| ControlPlaneLifecycle.PrimaryIsDeletedLast | internal/controllers/controlplane/clusters.go:62-106 | delete calls are for tracked ClusterRequests only, and when the primary one is deleted no other tracked one exists |
| ControlPlaneLifecycle.DeletionIsRequested | internal/controllers/controlplane/clusters.go:20-107 | which ClusterRequests are being deleted after a pass, in terms of the finalizers |
| ControlPlaneLifecycle.RegisteredIff | internal/controllers/controlplane/services.go:33-71 | a kind is registered exactly if some provider lists it |
| ControlPlaneLifecycle.Controller.HandleDelete | internal/controllers/controlplane/controller.go:376-559 | each phase is entered only after the ones before are complete, and without faults a pass ends in the first phase with something left to wait for; the primary ClusterRequest is deleted last for every iteration order; finalizers go only for what is gone |
| ControlPlaneLifecycle.Controller.HandleCreateOrUpdate | internal/controllers/controlplane/controller.go:195-373 | finalizers before namespace, ClusterRequest and access, all in place without faults; a ready result means converged access exactly if no secret names are shared |
| ControlPlaneLifecycle.Controller.DeleteRest | internal/controllers/controlplane/controller.go:446-549 | ClusterRequests, namespace and own finalizer in this order |
| ControlPlaneLifecycle.Controller.DeleteRelatedClusterRequests | internal/controllers/controlplane/clusters.go:20-107 | what may remain is reported; deletion is requested for all others, and for the primary one if it is alone |
| ControlPlaneLifecycle.Controller.VisitRequests | internal/controllers/controlplane/clusters.go:62-106 | the map shrinks during the loop; the primary one goes only when it is the last tracked one |
| ControlPlaneLifecycle.Controller.RemoveRequestFinalizers | internal/controllers/controlplane/controller.go:471-495 | exactly the finalizers of ClusterRequests that do not remain are removed |
| ControlPlaneLifecycle.Controller.DeleteDependingServices | internal/controllers/controlplane/services.go:23-108 | every registered resource that exists is reported as remaining and is being deleted |
| ControlPlaneLifecycle.Controller.FetchServices | internal/controllers/controlplane/services.go:33-71 | all providers are tried; what is found is registered |
| WorkspaceRuntime.RegisteredWhileEngaged | cmd/openmcp-operator/app/mcp/workspace_runtime.go:87-103 | with timers in order a workspace is registered, with its latest client, exactly as long as the timer of its latest engagement has not gone off |
| WorkspaceRuntime.CleansUpIffLatest | cmd/openmcp-operator/app/mcp/workspace_runtime.go:434-457 | with timers in order, a timer cleans up exactly if there was no later engagement |
| WorkspaceRuntime.CleansUpIffNoneLater | cmd/openmcp-operator/app/mcp/workspace_runtime.go:434-457 | in whatever order timers go off: if nothing has cleaned up the workspace since its engagement, a timer cleans up exactly if there was no later engagement |
| WorkspaceRuntime.CleansUpAgainIff | cmd/openmcp-operator/app/mcp/workspace_runtime.go:434-457 | if something has, it cleans up exactly if the number of engagements since the last cleanup is its generation |
| WorkspaceRuntime.ForgetsLaterClientIff | cmd/openmcp-operator/app/mcp/workspace_runtime.go:434-457 | a timer forgets a later client exactly in the second case |
| WorkspaceRuntime.NobodyStaysBehind | cmd/openmcp-operator/app/mcp/workspace_runtime.go:434-457 | when the timer of the latest engagement has gone off the workspace is not registered, in whatever order the others went off |
| WorkspaceRuntime.KeysCoincide | cmd/openmcp-operator/app/mcp/workspace_runtime.go:434-457 | generations and clients are kept for the same workspaces |
| WorkspaceRuntime.OutOfOrderTimerForgetsClient | cmd/openmcp-operator/app/mcp/workspace_runtime.go:434-442 | a schedule of five events in which a timer that is out of order forgets a later client |
| WorkspaceRuntime.Runtime.Engage | cmd/openmcp-operator/app/mcp/workspace_runtime.go:87-103 | the new generation and client |
| WorkspaceRuntime.Runtime.Cleanup | cmd/openmcp-operator/app/mcp/workspace_runtime.go:434-444 | both entries go exactly if the generation is current |
| WorkspaceRequests.NoReferenceDangles | cmd/openmcp-operator/app/mcp/workspace_runtime.go:385-576 | in every run the workspace's cluster refers only to requests that exist and are held by the runtime |
| WorkspaceRequests.GrantedRequestsHaveCluster | cmd/openmcp-operator/app/mcp/workspace_runtime.go:385-432 | in every run without a release, a granted live request is on the cluster, which therefore cannot vanish |
| WorkspaceRequests.ReleaseUncoversGrant | cmd/openmcp-operator/app/mcp/workspace_runtime.go:549-568 | in every state without AccessRequests a release can take a granted live request off the cluster |
| WorkspaceRequests.NextUncoversGrantIff | cmd/openmcp-operator/app/mcp/workspace_runtime.go:385-576 | a step leaves a granted live request without cluster exactly if it is the release of a granted live request |
| WorkspaceRequests.ClusterMayVanishFirst | cmd/openmcp-operator/app/mcp/workspace_runtime.go:395-411 | a cluster that is being deleted may vanish while a request is still held |
| WorkspaceRequests.NothingLeft | cmd/openmcp-operator/app/mcp/workspace_runtime.go:549-574 | after all requests have been taken off, the cluster refers to nobody |
| WorkspaceRequests.RequestsAreWrittenInOrder | cmd/openmcp-operator/app/mcp/workspace_runtime.go:385-576 | for every write: held before the cluster refers to the request, and this before it is granted; only live requests for the two purposes are served, by a live cluster; a live one is taken off only in a release and after all AccessRequests have been let go; let go only when off the cluster, and deleted only after that |
| WorkspaceRequests.ClusterGoesLast | cmd/openmcp-operator/app/mcp/workspace_runtime.go:528-576 | the cluster is created only if there is none, and its deletion comes after all AccessRequests and all requests have been let go |
| WorkspaceRequests.SettledIsDone | cmd/openmcp-operator/app/mcp/workspace_runtime.go:385-432 | what settled means: a deleted request is let go and off the cluster, a live one is held, on the cluster and granted, and requests for other purposes stay |
| WorkspaceRequests.BlockedMeans | cmd/openmcp-operator/app/mcp/workspace_runtime.go:395-411 | a pass without faults is stopped only by a cluster that has vanished, or is being deleted and does not have a live request yet |
| WorkspaceRequests.WorkspaceNamespace.ReconcileClusterRequests | cmd/openmcp-operator/app/mcp/workspace_runtime.go:385-432 | success settles every request for "onboarding" or "mcp": a deleted one is let go and off the cluster, a live one is held, on the cluster and granted; others stay as they are; without a cluster nothing is done, not even for requests in deletion; a live cluster and no fault mean success |
| WorkspaceRequests.WorkspaceNamespace.Reconcile | cmd/openmcp-operator/app/mcp/workspace_runtime.go:230-432 | the cluster is created if there is none; without faults all requests are settled if there was no cluster or a live one, and otherwise the pass stops only because the cluster has vanished or cannot take a live request |
| WorkspaceRequests.WorkspaceNamespace.EnsureCluster | cmd/openmcp-operator/app/mcp/workspace_runtime.go:243-258 | an existing cluster keeps its finalizers and stays in deletion; a missing one is created live and without finalizers |
| WorkspaceRequests.WorkspaceNamespace.ServeRequest | cmd/openmcp-operator/app/mcp/workspace_runtime.go:391-429 | one request is settled, and nothing else is touched |
| WorkspaceRequests.WorkspaceNamespace.AttachRequest | cmd/openmcp-operator/app/mcp/workspace_runtime.go:413-428 | held, put on the cluster, and granted, in this order |
| WorkspaceRequests.WorkspaceNamespace.ReleasePlatformRequests | cmd/openmcp-operator/app/mcp/workspace_runtime.go:528-576 | AccessRequests, then ClusterRequests, then the cluster; at the end nothing is held and the cluster refers to nobody |
| WorkspaceGrants.PruneAndUpsertIsExact | cmd/openmcp-operator/app/mcp/workspace_access.go:273-334 | pruning and upserting leaves exactly the desired grants labelled with the request |
| WorkspaceGrants.ExactlyIsStable | cmd/openmcp-operator/app/mcp/workspace_access.go:273-334 | aligning once more changes nothing |
| WorkspaceGrantNames.DistinctIdsIff | cmd/openmcp-operator/app/mcp/workspace_access.go:161-216 | the desired grants have different ids exactly if, in one namespace, no permission name is given twice, and none is one that is generated for an unnamed permission or for the issuer |
| WorkspaceGrantNames.GeneratedDiffer | cmd/openmcp-operator/app/mcp/workspace_access.go:161-216 | generated names never clash with each other |
| WorkspaceRights.RightsAreExact | cmd/openmcp-operator/app/mcp/workspace_access.go:161-216 | by the rules of RBAC, the grants of a request allow its controller account exactly what the permissions and role references of the token ask for, each in its namespace, and the issuer account exactly to issue tokens for the controller account |
| WorkspaceRights.RightsComeFromToken | cmd/openmcp-operator/app/mcp/workspace_access.go:161-216 | nothing else is allowed to anybody by them |
| WorkspaceRights.PermissionGives | cmd/openmcp-operator/app/mcp/workspace_access.go:183-197 | the binding of a permission gives exactly its rules in its namespace |
| WorkspaceRights.RefGives | cmd/openmcp-operator/app/mcp/workspace_access.go:198-203 | the binding of a role reference gives exactly the rules of the referenced Role or ClusterRole, in the namespace of the reference |
| WorkspaceRights.CredentialsCanBeIssued | cmd/openmcp-operator/app/mcp/workspace_access.go:273-334 | namespace, both service accounts and the issuer's token are in place after success |
| WorkspaceRights.ValidSpecIff | cmd/openmcp-operator/app/mcp/workspace_access.go:161-203 | which requests can be served |
| WorkspaceRights.WorksAgain | cmd/openmcp-operator/app/mcp/workspace_access.go:222-249 | if aligning the grants has worked once, objects of others are not in its way the next time |
| WorkspaceRights.OthersAreNotAdopted | cmd/openmcp-operator/app/mcp/workspace_access.go:222-249 | an object of others with the id of a grant makes it fail |
| WorkspaceRights.GrantsOfOthersStay | cmd/openmcp-operator/app/mcp/workspace_access.go:251-271 | roles and bindings that are not labelled with the request are as before |
| WorkspaceRights.OwnGrantsAreDesired | cmd/openmcp-operator/app/mcp/workspace_access.go:251-271 | those labelled with it are desired ones |
| WorkspaceGrants.Workspace.EnsureWorkspaceAccess | cmd/openmcp-operator/app/mcp/workspace_access.go:273-334 | on success exactly the desired grants and everything that credentials are issued from, on success and failure grants of others untouched; fault-free success exactly if the spec is valid and no object belongs to others; an invalid spec leaves no grants |
| WorkspaceGrants.Workspace.WorkspaceGrantObjects | cmd/openmcp-operator/app/mcp/workspace_access.go:161-216 | the desired grants; an error exactly for a missing uid or token or an invalid role reference |
| WorkspaceGrants.Workspace.PruneWorkspaceGrants | cmd/openmcp-operator/app/mcp/workspace_access.go:251-271 | exactly the obsolete grants go on success, only such on failure |
| WorkspaceGrants.Workspace.OwnedUpsert | cmd/openmcp-operator/app/mcp/workspace_access.go:222-249 | objects of others are not adopted |
| WorkspaceGrants.Workspace.UpsertAll | cmd/openmcp-operator/app/mcp/workspace_access.go:288-333 | a prefix of the objects is stored; all of them on success |
| AccessHandoff.GrantedIsLeftAlone | internal/controllers/accessrequest/controller.go:78-249 | a granted, up-to-date request with both labels is never written; at most its deletion is requested when its time is over |
| AccessHandoff.HandedOverIff | internal/controllers/accessrequest/controller.go:78-249 | one fault-free pass hands over any other live request exactly if its labels are there or can be resolved without contradiction |
| AccessHandoff.ChangedSpecIsHandedOverAgain | lib/utils/provider.go:46-76 | a changed spec takes a granted request from the provider; the next pass gives it back in phase Pending with the same labels, also if the cluster still has to be looked up |
| AccessHandoff.DeniedIsHandedOverAgain | internal/controllers/accessrequest/controller.go:61-75 | a denied request is returned to the provider |
| AccessHandoff.SetEntriesStay | internal/controllers/accessrequest/controller.go:156-249 | labels and references that are set never change |
| AccessHandoff.ExpiredAreDeletedIff | internal/controllers/accessrequest/controller.go:103-146 | without faults a live request is deleted exactly if its time is over and it is not annotated to be ignored |
| AccessHandoff.OnlyExpiredAreDeleted | internal/controllers/accessrequest/controller.go:103-146 | whichever calls fail, nothing else is deleted, and a request that is to be ignored is not written |
| AccessHandoff.LabelsNameTheProvider | internal/controllers/accessrequest/controller.go:160-249 | labels are only ever added together: profile of the cluster that the request leads to, directly or by way of a granted ClusterRequest, and provider of this profile |
| AccessHandoff.NewRequestGoesToProvider | internal/controllers/accessrequest/controller.go:156-249 | a new request for a cluster with a known profile is handed over to the provider of this profile and to no other |
| AccessHandoff.OnlyReferenceIsAdded | internal/controllers/accessrequest/controller.go:220-248 | the spec is changed only to add the reference to the cluster; the status only becomes pending |
| AccessHandoff.OnlyTriggerGoes | internal/controllers/accessrequest/controller.go:103-122 | annotations stay, but for the one that triggers a pass |
| AccessHandoff.ResponsibleIff | lib/utils/provider.go:46-76 | when a provider may act, in terms of labels, phase and generation |
| AccessHandoff.OneProviderWrites | lib/utils/provider.go:46-76 | in every run at most one provider writes a request |
| AccessHandoff.LabelStays | internal/controllers/accessrequest/controller.go:156-249 | in every run labels keep their values |
| AccessHandoff.GenericController.Reconcile | internal/controllers/accessrequest/controller.go:61-249 | a pass with its status update ends in a state of the pass relation |
| AccessHandoff.GenericController.Resolve | internal/controllers/accessrequest/controller.go:161-249 | labels and reference are written only if everything can be resolved and nothing contradicts |
| ProviderInstall.InitBeforeRun | internal/controllers/provider/controller.go:139-165 | in every run, when the Deployment is written for a generation, the init job is annotated with it, has succeeded and has no condition "Failed", and it was created for this generation exactly if no pass has relabelled it before |
| ProviderInstall.PassBreaksInvIff | internal/controllers/provider/install/installer.go:68-106 | a pass makes the annotation of a job differ from the generation it was created for exactly if it finds the job outdated, lingering after its deletion, and updates it |
| ProviderInstall.ImmediateDeletionNeverRelabels | internal/controllers/provider/install/installer.go:91-104 | this never happens if deleted jobs vanish at once |
| ProviderInstall.ReplacedBeforeWrite | internal/controllers/provider/install/installer.go:68-106 | before the Deployment is written again a failed job is replaced by another one, and an outdated job is replaced or relabelled |
| ProviderInstall.HeldJobCountsForNewGeneration | internal/controllers/provider/install/installer.go:91-104 | if a deleted job lingers it can be annotated with the new generation, and its old success counts |
| ProviderInstall.ProviderReconciler.InstallInitJob | internal/controllers/provider/install/installer.go:44-106 | completed exactly if the current job is up to date and has succeeded; without faults a missing job is created and a failed or outdated one is replaced by a new one for the current generation, or, if it lingers, marked and annotated anew; a usable one is left alone |
| ProviderInstall.ProviderReconciler.InstallProvider | internal/controllers/provider/install/installer.go:108-149 | the Deployment is written for the current generation or nothing changes |
| ProviderInstall.ProviderReconciler.Install | internal/controllers/provider/controller.go:120-182 | the Deployment is written only for a completed job; without faults exactly for one that has the current generation, no condition "Failed" and a success |
| ProviderInstall.ProviderReconciler.HandleDelete | internal/controllers/provider/controller.go:184-214 | Deployment first, then job, then finalizer |
| ProviderInstall.ProviderReconciler.IsJobFailed | internal/controllers/provider/install/installer.go:194-203 | failed exactly if some condition says so |

## Left out

- Interleaving of two passes over the same object, and merge patches based on outdated reads: passes are atomic up to stopping early. Only the deletion of a ControlPlane lets others remove objects during a pass.
- Clients, caches, contexts, logging, events, conditions, requeue intervals and the status updater: calls are reads and writes of the state that may fail.
- Loading of configuration, also from a ConfigMap at run time: the completed configuration is a constant of each run, and errors of the getter are not modelled.
- Order and text of error lists: validation reports a set of errors.
- Maps of labels and annotations in the scheduler's runs: nil maps are empty ones, so writing to them cannot fail, and each cluster is made from a new template. `SchedulerTemplates` models the maps in memory, nil or shared, and says when this makes a difference.
- Label selectors with other operators than In, NotIn, Exists and DoesNotExist: they are invalid, as in the library.
- Order of finalizers after a cluster has been taken over: it is left open, since nothing depends on it.
- Get of an object with an empty name, which the scheduler does for generated names: it is taken as "not found".
- Hashing and shortening of names: functions, with no more properties than the assumptions above.
- Wrap-around of 64-bit generations: generations are unbounded.
- Getters of the cluster access library, faking callbacks, and endpoints of clusters: they read or are meant for tests.
- Copying of secrets by the Helm deployer, its Helm values and its conditions.
- `deployHelmRelease` beyond the creation of the object: its content does not matter for the teardown.
- Metadata labels of a ControlPlane's ClusterRequest, its purpose, and the conditions and endpoints copied from its Cluster.
- Credentials of workspaces: minting, renewal and the cleanup of grants after a workspace is gone, and the deployment of providers for workspaces.
- Readiness, labels and endpoints of a workspace's cluster: only its existence, its deletion and its finalizers matter.
- Finalizing the ControlPlanes of a workspace that is gone: it removes a fixed set of finalizers after its namespace is gone.
- RBAC objects with finalizers: grants are deleted at once.
- Contents of init jobs, service accounts and roles of providers: only existence, annotation and outcome of the job matter.
