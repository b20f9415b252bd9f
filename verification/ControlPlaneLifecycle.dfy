/** The life of a ControlPlane. Its creation puts finalizers on it before anything else is created. Its
    deletion takes away first the resources of services, then access, then the ClusterRequests with the
    primary one last, then the namespace on the platform cluster, and at last the own finalizer. Others may
    remove objects at any time. */
module ControlPlaneLifecycle {
  import opened Kube
  import Access = ControlPlaneAccess

  const MCP_FINALIZER := "core.openmcp.cloud/mcp"
  const REQUEST_PREFIX := "request.clusters.openmcp.cloud/"

  /** A service provider and the kinds of resources it has registered. */
  datatype ServiceProvider = ServiceProvider(name: string, kinds: seq<string>)

  /** A delete call for a ClusterRequest, with the names of the ClusterRequests that existed at this time. */
  datatype Deletion = Deletion(name: string, existing: set<string>)

  predicate Registered(providers: seq<ServiceProvider>, kind: string) {
    exists i :: 0 <= i < |providers| && kind in providers[i].kinds
  }

  /** The ClusterRequests for which the ControlPlane has finalizers. */
  function Tracked(finalizers: seq<string>): set<string> {
    Suffixes(finalizers, REQUEST_PREFIX)
  }

  /** The primary ClusterRequest is deleted only when it is the last one of those that are tracked. */
  predicate PrimaryLast(primary: string, tracked: set<string>, d: Deletion) {
    d.name in tracked && (d.name == primary ==> tracked * d.existing <= {primary})
  }

  class Controller {
    const access: Access.AccessManager
    const providers: seq<ServiceProvider>
    /** Instances for this ControlPlane, by kind; at most one of each kind. */
    var services: map<string, Object<()>>
    /** The ClusterRequests in the ControlPlane's namespace, by name. */
    var requests: map<string, Object<()>>
    var namespace: Option<Object<()>>
    /** The finalizers of the ControlPlane. */
    var finalizers: seq<string>
    ghost var faults: nat
    ghost var deletions: seq<Deletion>
    ghost var serviceDeletions: seq<string>

    constructor (access: Access.AccessManager, providers: seq<ServiceProvider>, services: map<string, Object<()>>,
                 requests: map<string, Object<()>>, namespace: Option<Object<()>>, finalizers: seq<string>)
      ensures this.access == access && this.providers == providers && this.services == services && this.requests == requests
      ensures this.namespace == namespace && this.finalizers == finalizers && deletions == [] && serviceDeletions == []
    {
      this.access, this.providers, this.services, this.requests := access, providers, services, requests;
      this.namespace, this.finalizers, deletions, serviceDeletions := namespace, finalizers, [], [];
    }

    method Call() returns (ok: bool)
      modifies `faults
      ensures faults == old(faults) + if ok then 0 else 1
    {
      ok := *;
      if !ok {
        faults := faults + 1;
      }
    }

    /** Others have taken away some ClusterRequests or service resources in the meantime. */
    method OthersRemove()
      modifies `requests, `services
      ensures requests.Keys <= old(requests).Keys && services.Keys <= old(services).Keys
      ensures forall n :: n in requests ==> requests[n] == old(requests)[n]
      ensures forall k :: k in services ==> services[k] == old(services)[k]
    {
      var rs: set<string> := *;
      var ss: set<string> := *;
      requests, services := requests - rs, services - ss;
    }

    // ---------- services ----------

    /** Looks for the registered resources of all service providers. All of them are tried. */
    method FetchServices() returns (resources: map<string, Object<()>>, ok: bool)
      modifies `requests, `services, `faults
      ensures requests.Keys <= old(requests).Keys && services.Keys <= old(services).Keys
      ensures ok ==> forall k :: k in services && Registered(providers, k) ==> k in resources
      ensures forall k :: k in resources ==> Registered(providers, k) && (k in services ==> services[k] == resources[k])
      ensures resources.Keys <= old(services).Keys
      ensures faults >= old(faults) && (ok <==> faults == old(faults))
    {
      resources := map[];
      ok := Call();
      if !ok {
        return;
      }
      for i := 0 to |providers|
        invariant requests.Keys <= old(requests).Keys && services.Keys <= old(services).Keys
        invariant ok ==> forall k :: k in services && Registered(providers[..i], k) ==> k in resources
        invariant resources.Keys <= old(services).Keys
        invariant faults >= old(faults) && (ok <==> faults == old(faults))
        invariant forall k :: k in resources ==> Registered(providers, k) && (k in services ==> services[k] == resources[k])
      {
        var kinds := providers[i].kinds;
        for j := 0 to |kinds|
          invariant requests.Keys <= old(requests).Keys && services.Keys <= old(services).Keys
          invariant ok ==> forall k :: k in services && (Registered(providers[..i], k) || k in kinds[..j]) ==> k in resources
          invariant resources.Keys <= old(services).Keys
          invariant faults >= old(faults) && (ok <==> faults == old(faults))
          invariant forall k :: k in resources ==> Registered(providers, k) && (k in services ==> services[k] == resources[k])
        {
          OthersRemove();
          var read := Call();
          if !read {
            ok := false;
          } else if kinds[j] in services {
            resources := resources[kinds[j] := services[kinds[j]]];
          }
        }
        RegisteredSoFar(providers, i);
      }
      assert providers[..|providers|] == providers;
    }

    /** Deletes the resources that were found. What had vanished already does not remain. */
    method DeleteServices(resources: map<string, Object<()>>) returns (remaining: set<string>, ok: bool)
      requires forall k :: k in resources ==> Registered(providers, k) && (k in services ==> services[k] == resources[k])
      modifies `requests, `services, `faults, `serviceDeletions
      ensures requests.Keys <= old(requests).Keys && services.Keys <= old(services).Keys
      ensures remaining <= resources.Keys
      ensures faults >= old(faults) && (ok <==> faults == old(faults))
      ensures ok ==> forall k :: k in resources && k in services ==> k in remaining && services[k].deleting
    {
      remaining, ok := {}, true;
      var todo := resources.Keys;
      while todo != {}
        invariant todo <= resources.Keys && remaining <= resources.Keys - todo
        invariant faults >= old(faults) && (ok <==> faults == old(faults))
        invariant forall k :: k in todo && k in services ==> services[k] == resources[k]
        invariant requests.Keys <= old(requests).Keys && services.Keys <= old(services).Keys
        invariant ok ==> forall k :: k in resources.Keys - todo && k in services ==> k in remaining && services[k].deleting
      {
        var k :| k in todo;
        OthersRemove();
        if resources[k].deleting {
          remaining := remaining + {k};
        } else {
          serviceDeletions := serviceDeletions + [k];
          var done := Call();
          if !done {
            ok := false;
          } else if k in services {
            services := if services[k].finalizers == [] then services - {k} else services[k := services[k].(deleting := true)];
            remaining := remaining + {k};
          }
        }
        todo := todo - {k};
      }
    }

    /** Deletes the resources of all registered services, and tells which ones may be left. */
    method DeleteDependingServices() returns (remaining: set<string>, ok: bool)
      modifies `requests, `services, `faults, `serviceDeletions
      ensures requests.Keys <= old(requests).Keys && services.Keys <= old(services).Keys
      ensures ok ==> forall k :: k in services && Registered(providers, k) ==> k in remaining && services[k].deleting
      ensures forall k :: k in remaining ==> k in old(services) && Registered(providers, k)
      ensures faults >= old(faults) && (ok <==> faults == old(faults))
    {
      var resources;
      resources, ok := FetchServices();
      if !ok {
        return {}, false;
      }
      remaining, ok := DeleteServices(resources);
    }

    // ---------- ClusterRequests ----------

    /** Reads the tracked ClusterRequests. All of them are tried. */
    method FetchRequests(names: set<string>) returns (resources: map<string, Object<()>>, ok: bool)
      modifies `requests, `services, `faults
      ensures requests.Keys <= old(requests).Keys && services.Keys <= old(services).Keys
      ensures ok ==> resources.Keys <= names * old(requests).Keys && names * requests.Keys <= resources.Keys
      ensures ok ==> forall n :: n in resources && n in requests ==> resources[n] == requests[n]
      ensures faults >= old(faults) && (ok <==> faults == old(faults))
    {
      resources, ok := map[], true;
      var todo := names;
      while todo != {}
        invariant todo <= names && resources.Keys <= (names - todo) * old(requests).Keys
        invariant faults >= old(faults) && (ok <==> faults == old(faults))
        invariant ok ==> (names - todo) * requests.Keys <= resources.Keys
        invariant forall n :: n in resources && n in requests ==> resources[n] == requests[n]
        invariant requests.Keys <= old(requests).Keys && services.Keys <= old(services).Keys
      {
        var n :| n in todo;
        OthersRemove();
        var read := Call();
        if !read {
          ok := false;
        } else if n in requests {
          resources := resources[n := requests[n]];
        }
        todo := todo - {n};
      }
    }

    /** Issues one delete call. `found` is false if the ClusterRequest had vanished already. */
    method DeleteRequest(n: string) returns (ok: bool, found: bool)
      modifies `requests, `services, `faults, `deletions
      ensures requests.Keys <= old(requests).Keys && services.Keys <= old(services).Keys
      ensures forall x :: x in requests && x != n ==> requests[x] == old(requests)[x]
      ensures |deletions| == |old(deletions)| + 1 && deletions[..|old(deletions)|] == old(deletions)
      ensures var d := deletions[|old(deletions)|]; d.name == n && d.existing <= old(requests).Keys && requests.Keys <= d.existing
      ensures ok && n in requests ==> found && requests[n].deleting
      ensures ok && !found ==> n !in requests
      ensures faults >= old(faults) && (ok <==> faults == old(faults))
    {
      OthersRemove();
      deletions := deletions + [Deletion(n, requests.Keys)];
      ok := Call();
      found := n in requests;
      if ok && found {
        requests := if requests[n].finalizers == [] then requests - {n} else requests[n := requests[n].(deleting := true)];
      }
    }

    /** Visits one of the ClusterRequests that were found: the primary one is skipped as long as there are
        others, and one that has vanished leaves the map. */
    method VisitRequest(n: string, primary: string, names: set<string>, resources: map<string, Object<()>>)
      returns (left: map<string, Object<()>>, ok: bool)
      requires n in resources && resources.Keys <= names && (n in requests ==> resources[n] == requests[n])
      requires forall x :: x in names && x in requests ==> x in resources
      modifies `requests, `services, `faults, `deletions
      ensures left == resources || left == resources - {n}
      ensures faults >= old(faults) && (ok <==> faults == old(faults))
      ensures requests.Keys <= old(requests).Keys && services.Keys <= old(services).Keys
      ensures forall x :: x in names && x in requests ==> x in left
      ensures forall x :: x in requests && x != n ==> requests[x] == old(requests)[x]
      ensures ok && n in requests && (n != primary || resources.Keys <= {primary}) ==> requests[n].deleting
      ensures deletions == old(deletions) ||
              (|deletions| == |old(deletions)| + 1 && deletions[..|old(deletions)|] == old(deletions)
               && PrimaryLast(primary, names, deletions[|old(deletions)|]))
    {
      left, ok := resources, true;
      if n == primary && |resources| > 1 {
        AtMostOne(resources.Keys, n);
        return;
      }
      if resources[n].deleting {
        return;
      }
      if n == primary {
        OnlyOne(resources.Keys, n);
      }
      var found;
      ok, found := DeleteRequest(n);
      if ok && !found {
        left := resources - {n};
      }
    }

    /** Visits all ClusterRequests that were found, in any order. The map may shrink on the way. */
    method VisitRequests(found: map<string, Object<()>>, primary: string, names: set<string>)
      returns (resources: map<string, Object<()>>, ok: bool)
      requires found.Keys <= names && forall n :: n in requests && n in found ==> found[n] == requests[n]
      requires forall n :: n in names && n in requests ==> n in found
      modifies `requests, `services, `faults, `deletions
      ensures requests.Keys <= old(requests).Keys && services.Keys <= old(services).Keys
      ensures resources.Keys <= names && forall n :: n in names && n in requests ==> n in resources
      ensures resources.Keys <= found.Keys
      ensures faults >= old(faults) && (ok <==> faults == old(faults))
      ensures Extends(deletions, old(deletions), primary, names)
      ensures ok ==> AllDeleting(requests, names, primary, found.Keys <= {primary})
    {
      resources, ok := found, true;
      ghost var calls := deletions;
      var todo := found.Keys;
      while todo != {}
        invariant todo <= resources.Keys <= found.Keys
        invariant faults >= old(faults) && (ok <==> faults == old(faults))
        invariant forall n :: n in names && n in requests ==> n in resources
        invariant requests.Keys <= old(requests).Keys && services.Keys <= old(services).Keys
        invariant forall n :: n in todo && n in requests ==> resources[n] == requests[n]
        invariant ok ==> AllDeleting(requests, resources.Keys - todo, primary, found.Keys <= {primary})
        invariant Extends(deletions, calls, primary, names)
      {
        var n :| n in todo;
        todo := todo - {n};
        var left, done := VisitRequest(n, primary, names, resources);
        resources, ok := left, ok && done;
      }
    }

    /** Deletes the tracked ClusterRequests, the primary one only if no other one is left. */
    method DeleteRelatedClusterRequests(primary: string) returns (remaining: set<string>, ok: bool)
      modifies `requests, `services, `faults, `deletions
      ensures requests.Keys <= old(requests).Keys && services.Keys <= old(services).Keys
      ensures Extends(deletions, old(deletions), primary, Tracked(finalizers))
      ensures ok ==> remaining <= Tracked(finalizers) && Tracked(finalizers) * requests.Keys <= remaining
      ensures ok ==> remaining <= old(requests).Keys
      ensures faults >= old(faults) && (ok <==> faults == old(faults))
      ensures ok ==> AllDeleting(requests, Tracked(finalizers), primary, Tracked(finalizers) * old(requests).Keys <= {primary})
    {
      var names := Tracked(finalizers);
      if names == {} {
        return {}, true;
      }
      var resources;
      resources, ok := FetchRequests(names);
      if !ok {
        return {}, false;
      }
      resources, ok := VisitRequests(resources, primary, names);
      remaining := resources.Keys;
    }

    // ---------- the whole pass ----------

    /** No instance of what any provider has registered is left. */
    ghost predicate NoServices()
      reads this
      ensures NoServices() <==> forall k, i :: k in services && 0 <= i < |providers| ==> k !in providers[i].kinds
    {
      forall k :: k in services ==> !Registered(providers, k)
    }

    /** No AccessRequest for a provider of the ControlPlane is left, and no secret with a single provider. */
    ghost predicate NoAccess()
      reads access
    {
      && Access.UndesiredAccesses(access.env, access.accesses, {}) == {}
      && Access.UndesiredSecrets(access.env, access.secrets, {}) == {}
    }

    static method WithoutFinalizers(fins: seq<string>, drop: set<string>) returns (left: seq<string>)
      ensures left == Without(fins, drop)
    {
      left := [];
      for i := 0 to |fins|
        invariant left == Without(fins[..i], drop)
      {
        assert fins[..i + 1] == fins[..i] + [fins[i]];
        WithoutConcat(fins[..i], [fins[i]], drop);
        if fins[i] !in drop {
          left := left + [fins[i]];
        }
      }
      assert fins[..|fins|] == fins;
    }

    /** Removes the finalizers for ClusterRequests that do not remain; the others keep their order. */
    method RemoveRequestFinalizers(remaining: set<string>) returns (ok: bool)
      modifies `finalizers, `faults
      ensures finalizers == if ok then Without(old(finalizers), FinalizersToRemove(old(finalizers), remaining)) else old(finalizers)
      ensures faults >= old(faults) && (ok <==> faults == old(faults))
    {
      ok := true;
      var drop := FinalizersToRemove(finalizers, remaining);
      if drop == {} {
        WithoutNothing(finalizers, drop);
        return;
      }
      var left := WithoutFinalizers(finalizers, drop);
      ok := Call();
      if ok {
        finalizers := left;
      }
    }

    /** Deletes the namespace if it is the ControlPlane's own. `gone` says that it does not exist. */
    method DeleteNamespace() returns (gone: bool, ok: bool)
      modifies `namespace, `faults
      ensures ok && gone ==> namespace == None
      ensures ok && !gone ==> old(namespace).Some?
      ensures faults >= old(faults) && (ok <==> faults == old(faults))
      ensures ok && !gone && namespace.Some? ==>
                if Access.Owned(access.env, namespace.value.labels) then namespace.value.deleting else namespace == old(namespace)
      ensures namespace.Some? ==> old(namespace).Some? && namespace.value.labels == old(namespace).value.labels
    {
      gone := false;
      ok := Call();
      if !ok {
        return;
      }
      if namespace.None? {
        return true, true;
      }
      var ns := namespace.value;
      if Access.Owned(access.env, ns.labels) && !ns.deleting {
        ok := Call();
        if ok {
          namespace := if ns.finalizers == [] then None else Some(ns.(deleting := true));
        }
      }
    }

    /** The last phases: ClusterRequests, namespace, own finalizer. `drop` are the finalizers removed. */
    method DeleteRest() returns (phase: Phase, ok: bool, ghost drop: set<string>)
      modifies `services, `requests, `namespace, `finalizers, `faults, `deletions
      ensures requests.Keys <= old(requests).Keys && services.Keys <= old(services).Keys
      ensures phase in {InRequests, InNamespace, Finished}
      ensures ok && phase.InRequests? ==> Tracked(old(finalizers)) * old(requests).Keys != {}
      ensures ok && phase.InNamespace? ==> old(namespace).Some?
      ensures faults >= old(faults) && (ok <==> faults == old(faults))
      ensures phase != InRequests ==> Tracked(old(finalizers)) * requests.Keys == {} && Tracked(finalizers) == {}
      ensures phase.Finished? ==> namespace == None && (ok ==> MCP_FINALIZER !in finalizers)
      ensures namespace.Some? ==> old(namespace).Some? && namespace.value.labels == old(namespace).value.labels
      ensures Extends(deletions, old(deletions), access.env.cp.name, Tracked(old(finalizers)))
      ensures finalizers == Without(old(finalizers), drop) && MayDrop(drop, requests.Keys, phase.Finished?)
    {
      phase, drop := InRequests, {};
      WithoutNothing(finalizers, {});
      var remaining;
      remaining, ok := DeleteRelatedClusterRequests(access.env.cp.name);
      if !ok {
        return;
      }
      ok := RemoveRequestFinalizers(remaining);
      if !ok {
        return;
      }
      drop := FinalizersToRemove(old(finalizers), remaining);
      DroppedAreGone(old(finalizers), remaining, requests.Keys);
      if remaining != {} {
        return;
      }
      phase := InNamespace;
      NoneTracked(old(finalizers), drop);
      var gone;
      gone, ok := DeleteNamespace();
      if !ok || !gone {
        return;
      }
      phase := Finished;
      if MCP_FINALIZER in finalizers {
        ok := Call();
        if ok {
          WithoutBoth(old(finalizers), drop, {MCP_FINALIZER});
          NoneTracked(old(finalizers), drop + {MCP_FINALIZER});
          finalizers, drop := RemoveFinalizer(finalizers, MCP_FINALIZER), drop + {MCP_FINALIZER};
        }
      }
    }

    /** The access phase of the deletion: nothing is desired any more. */
    method DeleteAccess() returns (gone: bool, ok: bool)
      requires access.Valid() && access.env.cp.deleting
      modifies access
      ensures access.Valid() && access.faults >= old(access.faults) && (gone ==> ok)
      ensures !ok ==> access.faults > old(access.faults)
      ensures ok && !gone ==> !old(NoAccess())
      ensures gone ==> NoAccess() && NothingListed(access.env, access.accesses, access.secrets)
      ensures gone && old(Access.Sane(access.env, access.State())) ==> access.status == map[]
      ensures Access.NothingNew(old(access.accesses), access.accesses) && Access.NothingNew(old(access.secrets), access.secrets)
    {
      ghost var w := access.State();
      assert Access.Desired(access.env) == {};
      gone, ok := access.ManageAccessRequests();
      gone := gone && ok;
      if gone {
        NothingIsListed(access.env, access.accesses, access.secrets);
      }
      if ok && !gone {
        Access.SomethingToDelete(access.env, access.platformSecrets, w, access.State());
      }
    }

    /** The pass over a ControlPlane that is being deleted. */
    method HandleDelete() returns (phase: Phase, ok: bool, ghost drop: set<string>)
      requires access.Valid() && access.env.cp.deleting
      modifies this`services, this`requests, this`namespace, this`finalizers, this`faults, this`deletions, this`serviceDeletions, access
      ensures access.Valid()
      // each phase is entered only after the ones before have been seen to be complete
      // without faults a pass ends in the first phase in which something is left to wait for
      ensures faults >= old(faults) && access.faults >= old(access.faults)
      ensures !ok ==> faults > old(faults) || access.faults > old(access.faults)
      ensures ok && phase.InServices? ==> !old(NoServices())
      ensures ok && phase.InAccess? ==> !old(NoAccess())
      ensures ok && phase.InRequests? ==> Tracked(old(finalizers)) * old(requests).Keys != {}
      ensures ok && phase.InNamespace? ==> old(namespace).Some?
      ensures !phase.InServices? ==> NoServices()
      ensures phase.InServices? ==> access.State() == old(access.State())
      ensures phase in {InRequests, InNamespace, Finished} ==> NoAccess() && NothingListed(access.env, access.accesses, access.secrets)
      ensures phase in {InRequests, InNamespace, Finished} && old(Access.Sane(access.env, access.State())) ==> access.status == map[]
      ensures phase in {InServices, InAccess} ==> deletions == old(deletions) && finalizers == old(finalizers)
      ensures phase in {InNamespace, Finished} ==> Tracked(old(finalizers)) * requests.Keys == {} && Tracked(finalizers) == {}
      ensures phase.Finished? ==> namespace == None && (ok ==> MCP_FINALIZER !in finalizers)
      // the primary ClusterRequest goes last, and finalizers go only for what is gone
      ensures Extends(deletions, old(deletions), access.env.cp.name, Tracked(old(finalizers)))
      ensures finalizers == Without(old(finalizers), drop) && MayDrop(drop, requests.Keys, phase.Finished?)
      // nothing comes up
      ensures requests.Keys <= old(requests).Keys
      ensures namespace.Some? ==> old(namespace).Some? && namespace.value.labels == old(namespace).value.labels
      ensures Access.NothingNew(old(access.accesses), access.accesses) && Access.NothingNew(old(access.secrets), access.secrets)
    {
      hide Access.Sane;
      phase, drop := InServices, {};
      WithoutNothing(finalizers, {});
      var remaining;
      remaining, ok := DeleteDependingServices();
      if !ok || remaining != {} {
        return;
      }
      phase := InAccess;
      var gone;
      gone, ok := DeleteAccess();
      if !gone {
        return;
      }
      phase, ok, drop := DeleteRest();
    }

    // ---------- creation ----------

    /** Both finalizers are put on the ControlPlane with one call. */
    method EnsureFinalizers() returns (ok: bool)
      modifies `finalizers, `faults
      ensures finalizers == if ok then WithFinalizers(old(finalizers), access.env.cp.name) else old(finalizers)
      ensures faults >= old(faults) && (ok <==> faults == old(faults))
    {
      ok := true;
      var primary := REQUEST_PREFIX + access.env.cp.name;
      if MCP_FINALIZER !in finalizers || primary !in finalizers {
        ok := Call();
        if ok {
          var fins := if MCP_FINALIZER in finalizers then finalizers else finalizers + [MCP_FINALIZER];
          finalizers := if primary in fins then fins else fins + [primary];
        }
      }
    }

    /** The namespace may exist already; then it gets the ControlPlane's labels. */
    method EnsureNamespace() returns (ok: bool)
      modifies `namespace, `faults
      ensures ok ==> namespace.Some? && Access.Owned(access.env, namespace.value.labels)
      ensures !ok ==> namespace == old(namespace)
      ensures faults >= old(faults) && (ok <==> faults == old(faults))
    {
      ok := Call();
      if !ok {
        return;
      }
      Access.DistinctLabels();
      var ns := if namespace.Some? then namespace.value else Object([], false, map[], map[], ());
      namespace := Some(ns.(labels := Access.WithOwnLabels(access.env, ns.labels)));
    }

    /** The primary ClusterRequest is named after the ControlPlane. Only its existence matters here. */
    method EnsurePrimaryRequest() returns (ok: bool)
      modifies `requests, `faults
      ensures requests.Keys == old(requests).Keys + if ok then {access.env.cp.name} else {}
      ensures forall n :: n in old(requests) ==> n in requests && requests[n] == old(requests)[n]
      ensures faults >= old(faults) && (ok <==> faults == old(faults))
    {
      ok := Call();
      if ok && access.env.cp.name !in requests {
        ok := Call();
        if ok {
          requests := requests[access.env.cp.name := Object([], false, map[], map[], ())];
        }
      }
    }

    /** Finalizers, namespace and ClusterRequest, in this order. */
    method EnsurePrerequisites() returns (ok: bool)
      modifies this`requests, this`namespace, this`finalizers, this`faults
      ensures CreatePass(access.env.cp.name, old(Now()), Now())
      ensures ok ==> access.env.cp.name in requests && finalizers == WithFinalizers(old(finalizers), access.env.cp.name)
      ensures ok ==> namespace.Some? && Access.Owned(access.env, namespace.value.labels)
      ensures faults >= old(faults) && (ok <==> faults == old(faults))
    {
      ok := EnsureFinalizers();
      if !ok {
        return;
      }
      ok := EnsureNamespace();
      if !ok {
        return;
      }
      ok := EnsurePrimaryRequest();
    }

    /** The pass over a ControlPlane that is not being deleted: the prerequisites, and, as soon as the
        ClusterRequest is granted, access. Whether it is granted is decided by others. */
    method HandleCreateOrUpdate(granted: bool) returns (ready: bool, ok: bool)
      requires access.Valid() && !access.env.cp.deleting
      modifies this`requests, this`namespace, this`finalizers, this`faults, access
      ensures access.Valid()
      ensures CreatePass(access.env.cp.name, old(Now()), Now())
      ensures ready ==> ok && access.env.cp.name in requests && MCP_FINALIZER in finalizers
      ensures ready && old(Access.Sane(access.env, access.State())) ==>
                (Access.Converged(access.env, access.platformSecrets, access.State()) <==> old(Access.NoClash(access.env, access.State())))
      ensures faults == old(faults) ==>
                && access.env.cp.name in requests && finalizers == WithFinalizers(old(finalizers), access.env.cp.name)
                && namespace.Some? && Access.Owned(access.env, namespace.value.labels)
      ensures ok && granted ==> exists synced ::
                var env, w, end := access.env, old(access.State()), access.State();
                && Access.Phases(env, access.platformSecrets, w, synced, end)
                && (ready <==> Access.ReadyPhases(env, access.platformSecrets, w, synced, end))
    {
      ready := false;
      ok := EnsurePrerequisites();
      if !ok {
        return;
      }
      if !granted {
        return;
      }
      ok := Call();
      if ok {
        ready, ok := access.ManageAccessRequests();
        ready := ready && ok;
      }
    }

    /** The deletion pass as a step of a run. */
    method DeletionStep() returns (phase: Phase, ghost drop: set<string>)
      requires access.Valid() && access.env.cp.deleting
      modifies this`services, this`requests, this`namespace, this`finalizers, this`faults, this`deletions, this`serviceDeletions, access
      ensures access.Valid() && DeletePass(old(Now()), Now(), drop, phase.Finished?)
    {
      var ok;
      phase, ok, drop := HandleDelete();
      NothingNewIsHeld(access.env, old(access.State()), access.State());
    }

    /** What is there for the ControlPlane. */
    ghost function Now(): Snapshot
      reads this, access
    {
      Snapshot(finalizers, requests.Keys, namespace.Some? && Access.Owned(access.env, namespace.value.labels), !NoAccess())
    }
  }

  // ---------- runs ----------

  /** `access` says that there are AccessRequests or secrets of the ControlPlane, `ownNamespace` that there is
      a namespace with its labels. */
  datatype Snapshot = Snapshot(finalizers: seq<string>, requests: set<string>, ownNamespace: bool, access: bool)

  function WithFinalizers(fins: seq<string>, primary: string): seq<string> {
    AddFinalizer(AddFinalizer(fins, MCP_FINALIZER), REQUEST_PREFIX + primary)
  }

  lemma NothingNewIsHeld(env: Access.Environment, w: Access.World, w': Access.World)
    requires Access.NothingNew(w.accesses, w'.accesses) && Access.NothingNew(w.secrets, w'.secrets)
    ensures Access.UndesiredAccesses(env, w.accesses, {}) == {} ==> Access.UndesiredAccesses(env, w'.accesses, {}) == {}
    ensures Access.UndesiredSecrets(env, w.secrets, {}) == {} ==> Access.UndesiredSecrets(env, w'.secrets, {}) == {}
  {
  }

  /** Nothing is created before both finalizers are in place. */
  predicate CreatePass(primary: string, s: Snapshot, s': Snapshot) {
    && (s' == s || s'.finalizers == WithFinalizers(s.finalizers, primary))
    && (s'.requests == s.requests || s'.requests == s.requests + {primary})
    && (s'.access != s.access ==> primary in s'.requests)
  }

  /** Nothing comes up, and finalizers go only for what is gone. */
  predicate DeletePass(s: Snapshot, s': Snapshot, drop: set<string>, finished: bool) {
    && s'.requests <= s.requests && (s'.ownNamespace ==> s.ownNamespace) && (s'.access ==> s.access)
    && s'.finalizers == Without(s.finalizers, drop) && MayDrop(drop, s'.requests, finished)
    && (finished ==> Tracked(s.finalizers) * s'.requests == {} && !s'.ownNamespace && !s'.access)
  }

  /** Others take away anything but the two kinds of finalizers, and put up ClusterRequests only for a
      ControlPlane that is held, and with a finalizer for each of them. */
  predicate OthersStep(s: Snapshot, s': Snapshot) {
    && (s'.ownNamespace ==> s.ownNamespace) && (s'.access ==> s.access)
    && (MCP_FINALIZER in s'.finalizers <==> MCP_FINALIZER in s.finalizers)
    && (forall n :: n in s'.requests && n in s.requests && REQUEST_PREFIX + n in s.finalizers ==> REQUEST_PREFIX + n in s'.finalizers)
    && (forall n :: n in s'.requests && n !in s.requests ==> REQUEST_PREFIX + n in s'.finalizers && MCP_FINALIZER in s'.finalizers)
  }

  datatype Event = Creating | Deleting(drop: set<string>, finished: bool) | Others

  ghost predicate Next(primary: string, s: Snapshot, e: Event, s': Snapshot) {
    match e
    case Creating => CreatePass(primary, s, s')
    case Deleting(drop, finished) => DeletePass(s, s', drop, finished)
    case Others => OthersStep(s, s')
  }

  ghost predicate StepAt(primary: string, ss: seq<Snapshot>, es: seq<Event>, i: nat)
    requires |ss| == |es| + 1 && i < |es|
  {
    Next(primary, ss[i], es[i], ss[i + 1])
  }

  ghost predicate Run(primary: string, ss: seq<Snapshot>, es: seq<Event>) {
    |ss| == |es| + 1 && forall i: nat :: i < |es| ==> StepAt(primary, ss, es, i)
  }

  /** The ControlPlane has a finalizer for each of its ClusterRequests, and its own one as long as there is
      anything of it. */
  predicate Guarded(s: Snapshot) {
    && (forall n :: n in s.requests ==> REQUEST_PREFIX + n in s.finalizers)
    && (s.requests != {} || s.ownNamespace || s.access ==> MCP_FINALIZER in s.finalizers)
  }

  /** The finalizer of the ControlPlane is not one for a ClusterRequest. */
  lemma OwnIsNotTracking()
    ensures !HasPrefix(MCP_FINALIZER, REQUEST_PREFIX)
  {
    assert MCP_FINALIZER[0] != REQUEST_PREFIX[0];
  }

  lemma AgreedFinalizers()
    ensures MCP_FINALIZER == "core.openmcp.cloud/mcp" && REQUEST_PREFIX == "request.clusters.openmcp.cloud/"
  {
  }

  lemma TrackedIff(finalizers: seq<string>, n: string)
    ensures n in Tracked(finalizers) <==> "request.clusters.openmcp.cloud/" + n in finalizers
  {
    AgreedFinalizers();
    SuffixIn(finalizers, REQUEST_PREFIX, n);
  }

  /** A creation pass takes nothing away. Whatever comes up is preceded by both finalizers, and access by the
      primary ClusterRequest, which is the only one to come up. */
  lemma FinalizersComeFirst(primary: string, s: Snapshot, s': Snapshot, f: string)
    requires CreatePass(primary, s, s')
    ensures f in s'.finalizers ==> f in s.finalizers || f in {"core.openmcp.cloud/mcp", "request.clusters.openmcp.cloud/" + primary}
    ensures f in s.finalizers ==> f in s'.finalizers
    ensures s' != s ==> "core.openmcp.cloud/mcp" in s'.finalizers && "request.clusters.openmcp.cloud/" + primary in s'.finalizers
    ensures s.requests <= s'.requests <= s.requests + {primary}
    ensures s'.access && !s.access ==> primary in s'.requests
  {
    AgreedFinalizers();
  }

  /** Finalizers for ClusterRequests are removed exactly if these do not remain, and no others are. */
  lemma WhatIsRemoved(fins: seq<string>, remaining: set<string>, f: string, n: string)
    ensures f == "request.clusters.openmcp.cloud/" + n ==>
              (f in Without(fins, FinalizersToRemove(fins, remaining)) <==> f in fins && n in remaining)
    ensures !("request.clusters.openmcp.cloud/" <= f) ==> (f in Without(fins, FinalizersToRemove(fins, remaining)) <==> f in fins)
  {
    AgreedFinalizers();
  }

  /** The delete calls of a pass are for tracked ClusterRequests, and when the primary one is deleted no other
      tracked one exists. */
  lemma PrimaryIsDeletedLast(calls: seq<Deletion>, before: seq<Deletion>, primary: string, finalizers: seq<string>, i: nat, n: string)
    requires Extends(calls, before, primary, Tracked(finalizers)) && |before| <= i < |calls|
    ensures before <= calls && "request.clusters.openmcp.cloud/" + calls[i].name in finalizers
    ensures calls[i].name == primary && n in calls[i].existing && "request.clusters.openmcp.cloud/" + n in finalizers ==> n == primary
  {
    TrackedIff(finalizers, n);
    TrackedIff(finalizers, calls[i].name);
    assert PrimaryLast(primary, Tracked(finalizers), calls[i]);
    if n in calls[i].existing && n in Tracked(finalizers) {
      assert n in Tracked(finalizers) * calls[i].existing;
    }
  }

  /** Which ClusterRequests are being deleted after a pass without faults. */
  lemma DeletionIsRequested(requests: map<string, Object<()>>, finalizers: seq<string>, primary: string, alone: bool, n: string)
    requires AllDeleting(requests, Tracked(finalizers), primary, alone)
    requires n in requests && "request.clusters.openmcp.cloud/" + n in finalizers && (n == primary ==> alone)
    ensures requests[n].deleting
  {
    TrackedIff(finalizers, n);
  }

  /** No AccessRequest for a provider of the ControlPlane is left, and no secret for one. */
  ghost predicate NothingListed(env: Access.Environment, accesses: map<string, Access.AccessRequest>, secrets: map<string, Access.Secret>) {
    && (forall n :: n in accesses ==> !Access.Listed(env, accesses[n].labels))
    && (forall n :: n in secrets && Access.Listed(env, secrets[n].labels) ==> Access.ProviderOfSecret(secrets[n]).None?)
  }

  lemma NothingIsListed(env: Access.Environment, accesses: map<string, Access.AccessRequest>, secrets: map<string, Access.Secret>)
    requires Access.UndesiredAccesses(env, accesses, {}) == {} && Access.UndesiredSecrets(env, secrets, {}) == {}
    ensures NothingListed(env, accesses, secrets)
  {
    forall n | n in accesses ensures !Access.Listed(env, accesses[n].labels) {
      assert n !in Access.UndesiredAccesses(env, accesses, {});
    }
    forall n | n in secrets && Access.Listed(env, secrets[n].labels) ensures Access.ProviderOfSecret(secrets[n]).None? {
      assert n !in Access.UndesiredSecrets(env, secrets, {});
    }
  }

  lemma RegisteredIff(providers: seq<ServiceProvider>, kind: string)
    ensures Registered(providers, kind) <==> exists p :: p in providers && kind in p.kinds
  {
    if p :| p in providers && kind in p.kinds {
      var i :| 0 <= i < |providers| && providers[i] == p;
      assert kind in providers[i].kinds;
    }
  }

  lemma DeletingKeepsGuarded(s: Snapshot, s': Snapshot, drop: set<string>, finished: bool)
    requires Guarded(s) && DeletePass(s, s', drop, finished)
    ensures Guarded(s')
  {
    OwnIsNotTracking();
    forall n | n in s'.requests ensures REQUEST_PREFIX + n in s'.finalizers && n in Tracked(s.finalizers) {
      var f := REQUEST_PREFIX + n;
      assert f in s.finalizers && f[|REQUEST_PREFIX|..] == n;
      SuffixIn(s.finalizers, REQUEST_PREFIX, n);
    }
    assert finished ==> s'.requests <= Tracked(s.finalizers) * s'.requests;
  }

  /** In every run of creation and deletion passes, wherever they stop and whatever others do: a ClusterRequest
      exists only while the ControlPlane has a finalizer for it, and as long as any ClusterRequest, the
      namespace, or any access object exists the ControlPlane has its own finalizer. So it leaves nothing
      behind, whatever the order in which it is created, updated and deleted. */
  lemma {:induction false} NothingIsLeftBehind(primary: string, ss: seq<Snapshot>, es: seq<Event>, i: nat)
    requires Run(primary, ss, es) && i < |ss| && Guarded(ss[0])
    ensures Guarded(ss[i])
    ensures forall n :: n in ss[i].requests ==> "request.clusters.openmcp.cloud/" + n in ss[i].finalizers
    ensures ss[i].requests != {} || ss[i].ownNamespace || ss[i].access ==> "core.openmcp.cloud/mcp" in ss[i].finalizers
  {
    AgreedFinalizers();
    if i > 0 {
      NothingIsLeftBehind(primary, ss, es, i - 1);
      assert StepAt(primary, ss, es, i - 1);
      var s, e, s' := ss[i - 1], es[i - 1], ss[i];
      if e.Deleting? {
        DeletingKeepsGuarded(s, s', e.drop, e.finished);
      }
    }
  }

  /** The finalizers for ClusterRequests that do not exist, and at the end the own one. */
  predicate MayDrop(drop: set<string>, requests: set<string>, finished: bool) {
    forall f :: f in drop ==> (HasPrefix(f, REQUEST_PREFIX) && f[|REQUEST_PREFIX|..] !in requests) || (f == MCP_FINALIZER && finished)
  }

  lemma DroppedAreGone(finalizers: seq<string>, remaining: set<string>, requests: set<string>)
    requires Tracked(finalizers) * requests <= remaining
    ensures MayDrop(FinalizersToRemove(finalizers, remaining), requests, false)
  {
    forall f | f in FinalizersToRemove(finalizers, remaining) ensures f[|REQUEST_PREFIX|..] !in requests {
      assert f[|REQUEST_PREFIX|..] in Tracked(finalizers);
    }
  }

  /** If all finalizers for ClusterRequests are removed, none is tracked any more. */
  lemma NoneTracked(finalizers: seq<string>, drop: set<string>)
    requires FinalizersToRemove(finalizers, {}) <= drop
    ensures Tracked(Without(finalizers, drop)) == {}
  {
    forall f | f in Without(finalizers, drop) ensures !HasPrefix(f, REQUEST_PREFIX) {
      assert HasPrefix(f, REQUEST_PREFIX) ==> f in FinalizersToRemove(finalizers, {});
    }
  }

  /** Removing finalizers in two steps is removing them at once. */
  lemma {:induction false} WithoutBoth(fins: seq<string>, a: set<string>, b: set<string>)
    ensures Without(Without(fins, a), b) == Without(fins, a + b)
  {
    if fins != [] {
      WithoutBoth(fins[1..], a, b);
      if fins[0] !in a {
        assert ([fins[0]] + Without(fins[1..], a))[1..] == Without(fins[1..], a);
      }
    }
  }

  /** What a ControlPlane can rely on: when its own finalizer goes, nothing is left of it, and the finalizers
      of others are still there in their order. */
  lemma OnlyOwnFinalizersGo(fins: seq<string>, drop: set<string>, requests: set<string>, finished: bool, f: string)
    requires MayDrop(drop, requests, finished) && f in fins && f != MCP_FINALIZER
    requires HasPrefix(f, REQUEST_PREFIX) ==> f[|REQUEST_PREFIX|..] in requests
    ensures f in Without(fins, drop)
    ensures Without(Without(fins, drop), {f}) == Without(fins, drop + {f})
  {
    WithoutBoth(fins, drop, {f});
  }

  /** How far a deletion pass gets. */
  datatype Phase = InServices | InAccess | InRequests | InNamespace | Finished

  /** The finalizers for ClusterRequests that do not remain. */
  function FinalizersToRemove(finalizers: seq<string>, remaining: set<string>): set<string> {
    set f | f in finalizers && HasPrefix(f, REQUEST_PREFIX) && f[|REQUEST_PREFIX|..] !in remaining
  }

  /** Deletion of the ClusterRequests has been requested, of the primary one if it is on its own. */
  predicate AllDeleting(requests: map<string, Object<()>>, names: set<string>, primary: string, alone: bool) {
    forall n :: n in names && n in requests && (n != primary || alone) ==> requests[n].deleting
  }

  /** The log of delete calls has grown, and the new calls keep the primary ClusterRequest for the end. */
  predicate Extends(calls: seq<Deletion>, before: seq<Deletion>, primary: string, tracked: set<string>) {
    && |calls| >= |before| && calls[..|before|] == before
    && forall i :: |before| <= i < |calls| ==> PrimaryLast(primary, tracked, calls[i])
  }

  lemma RegisteredSoFar(providers: seq<ServiceProvider>, i: nat)
    requires i < |providers|
    ensures forall k :: Registered(providers[..i + 1], k) <==> Registered(providers[..i], k) || k in providers[i].kinds[..|providers[i].kinds|]
  {
    assert providers[i].kinds[..|providers[i].kinds|] == providers[i].kinds;
    forall k ensures Registered(providers[..i + 1], k) <==> Registered(providers[..i], k) || k in providers[i].kinds {
      if Registered(providers[..i], k) {
        var j :| 0 <= j < i && k in providers[..i][j].kinds;
        assert providers[..i + 1][j] == providers[j];
      }
      if k in providers[i].kinds {
        assert providers[..i + 1][i] == providers[i];
      }
      if Registered(providers[..i + 1], k) {
        var j :| 0 <= j < i + 1 && k in providers[..i + 1][j].kinds;
        assert j < i ==> providers[..i][j] == providers[j];
      }
    }
  }

  lemma OnlyOne(s: set<string>, x: string)
    requires x in s && |s| <= 1
    ensures s == {x}
  {
    assert |s - {x}| == |s| - 1;
    assert s - {x} == {};
  }

  lemma AtMostOne(s: set<string>, x: string)
    ensures s <= {x} ==> |s| <= 1
  {
    assert s <= {x} ==> s == {} || s == {x};
  }
}
