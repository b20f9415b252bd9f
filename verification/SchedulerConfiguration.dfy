/** The scheduler configuration: defaulting, validation and completion, and the completed form in
    which the scheduler uses it. */
module SchedulerConfiguration {
  import opened Kube
  import opened LabelSelectors

  datatype Scope = UnsetScope | ClusterScope | NamespacedScope | OtherScope(scopeName: string)

  datatype Strategy = UnsetStrategy | Balanced | Random | Simple | OtherStrategy(strategyName: string)

  datatype Tenancy = UnsetTenancy | Exclusive | Shared | OtherTenancy(tenancyName: string)

  datatype ClusterSpec = ClusterSpec(profile: string, purposes: seq<string>, tenancy: Tenancy)

  datatype Template = Template(
    name: string, generateName: string, namespace: string,
    labels: Labels, annotations: Labels, spec: ClusterSpec)

  /** A cluster definition with a usable selector. */
  datatype Definition = Definition(tenancyCount: int, template: Template, selector: LabelSelector)

  /** A completed configuration. */
  datatype Config = Config(
    scope: Scope, strategy: Strategy, clusterSelector: LabelSelector, purposeMappings: map<string, Definition>)

  datatype ConfigError =
    | UnsupportedScope
    | UnsupportedStrategy
    | InvalidClusterSelector
    | InvalidRequestSelector
    | EmptyPurpose
    | NilDefinition(purpose: string)
    | NegativeTenancyCount(purpose: string)
    | MissingProfile(purpose: string)
    | MissingTenancy(purpose: string)
    | UnsupportedTenancy(purpose: string)
    | TenancyCountOnExclusive(purpose: string)
    | TemplateMissesGlobalSelector(purpose: string)
    | InvalidLocalSelector(purpose: string)
    | TemplateMissesLocalSelector(purpose: string)

  // ---------- which errors a configuration deserves ----------

  function Report(condition: bool, e: ConfigError): set<ConfigError> {
    if condition then {e} else {}
  }

  /** The errors of one definition, with `global` the selector all clusters have to match. Without a
      usable tenancy the remaining checks are not made. */
  function DefinitionErrors(p: string, d: Definition, global: LabelSelector): set<ConfigError> {
    var tenancy := d.template.spec.tenancy;
    var base := Report(d.tenancyCount < 0, NegativeTenancyCount(p)) + Report(d.template.spec.profile == "", MissingProfile(p));
    if tenancy == UnsetTenancy then base + {MissingTenancy(p)}
    else if tenancy !in {Exclusive, Shared} then base + {UnsupportedTenancy(p)}
    else
      base
      + Report(tenancy == Exclusive && d.tenancyCount != 0, TenancyCountOnExclusive(p))
      + Report(IsValid(global) && !MatchesAll(global, d.template.labels), TemplateMissesGlobalSelector(p))
      + Report(!IsValid(d.selector), InvalidLocalSelector(p))
      + Report(IsValid(d.selector) && !MatchesAll(d.selector, d.template.labels), TemplateMissesLocalSelector(p))
  }

  /** What a definition without errors looks like. */
  predicate SoundDefinition(d: Definition, global: LabelSelector) {
    && d.tenancyCount >= 0
    && d.template.spec.profile != ""
    && d.template.spec.tenancy in {Exclusive, Shared}
    && (d.template.spec.tenancy == Exclusive ==> d.tenancyCount == 0)
    && Valid(d.selector)
    && Matches(d.selector, d.template.labels)
    && Matches(global, d.template.labels)
  }

  lemma NoErrorsIffSound(p: string, d: Definition, global: LabelSelector)
    requires Valid(global)
    ensures DefinitionErrors(p, d, global) == {} <==> SoundDefinition(d, global)
  {
    var errs := DefinitionErrors(p, d, global);
    if errs == {} {
      assert NegativeTenancyCount(p) !in errs && MissingProfile(p) !in errs && MissingTenancy(p) !in errs;
      assert UnsupportedTenancy(p) !in errs && TenancyCountOnExclusive(p) !in errs;
      assert TemplateMissesGlobalSelector(p) !in errs && InvalidLocalSelector(p) !in errs;
      assert TemplateMissesLocalSelector(p) !in errs;
    }
  }

  /** All errors of one entry of the purpose mappings; `None` stands for a nil definition. */
  function EntryErrors(p: string, d: Option<Definition>, global: LabelSelector): set<ConfigError> {
    Report(p == "", EmptyPurpose) + (if d.None? then {NilDefinition(p)} else DefinitionErrors(p, d.value, global))
  }

  ghost function MappingErrors(mappings: map<string, Option<Definition>>, global: LabelSelector): set<ConfigError> {
    set p, e | p in mappings && e in EntryErrors(p, mappings[p], global) :: e
  }

  function GeneralErrors(scope: Scope, strategy: Strategy, global: LabelSelector, requests: LabelSelector): set<ConfigError> {
    Report(scope !in {ClusterScope, NamespacedScope}, UnsupportedScope)
    + Report(strategy !in {Balanced, Random, Simple}, UnsupportedStrategy)
    + Report(!IsValid(global), InvalidClusterSelector)
    + Report(!IsValid(requests), InvalidRequestSelector)
  }

  /** The entries that are not in `todo`. */
  ghost function Visited(mappings: map<string, Option<Definition>>, todo: set<string>): map<string, Option<Definition>> {
    map p | p in mappings && p !in todo :: mappings[p]
  }

  lemma MappingErrorsGrow(mappings: map<string, Option<Definition>>, todo: set<string>, p: string, global: LabelSelector)
    requires p in todo && todo <= mappings.Keys
    ensures MappingErrors(Visited(mappings, todo - {p}), global) ==
            MappingErrors(Visited(mappings, todo), global) + EntryErrors(p, mappings[p], global)
  {
    var before, after := Visited(mappings, todo), Visited(mappings, todo - {p});
    forall e
      ensures e in MappingErrors(after, global) <==>
              e in MappingErrors(before, global) + EntryErrors(p, mappings[p], global)
    {
      if e in MappingErrors(after, global) {
        var q :| q in after && e in EntryErrors(q, after[q], global);
        assert q == p || q in before;
      }
      if e in MappingErrors(before, global) {
        var q :| q in before && e in EntryErrors(q, before[q], global);
        assert q in after;
      }
      if e in EntryErrors(p, mappings[p], global) {
        assert p in after;
      }
    }
  }

  /** A configuration is free of errors exactly if scope, strategy and selectors are usable and every
      purpose is named and has a sound definition. */
  lemma ValidIffSound(scope: Scope, strategy: Strategy, global: LabelSelector, requests: LabelSelector,
                      mappings: map<string, Option<Definition>>)
    ensures GeneralErrors(scope, strategy, global, requests) + MappingErrors(mappings, global) == {} <==>
            && scope in {ClusterScope, NamespacedScope}
            && strategy in {Balanced, Random, Simple}
            && Valid(global) && Valid(requests)
            && forall p :: p in mappings ==> p != "" && mappings[p].Some? && SoundDefinition(mappings[p].value, global)
  {
    var general, inMappings := GeneralErrors(scope, strategy, global, requests), MappingErrors(mappings, global);
    if general + inMappings == {} {
      assert UnsupportedScope !in general && UnsupportedStrategy !in general;
      assert InvalidClusterSelector !in general && InvalidRequestSelector !in general;
      forall p | p in mappings
        ensures p != "" && mappings[p].Some? && SoundDefinition(mappings[p].value, global)
      {
        assert EntryErrors(p, mappings[p], global) <= inMappings;
        assert EmptyPurpose !in EntryErrors(p, mappings[p], global);
        assert NilDefinition(p) !in EntryErrors(p, mappings[p], global);
        NoErrorsIffSound(p, mappings[p].value, global);
      }
    } else if && scope in {ClusterScope, NamespacedScope} && strategy in {Balanced, Random, Simple}
        && Valid(global) && Valid(requests)
        && forall p :: p in mappings ==> p != "" && mappings[p].Some? && SoundDefinition(mappings[p].value, global)
    {
      assert general == {};
      var e :| e in inMappings;
      var p :| p in mappings && e in EntryErrors(p, mappings[p], global);
      NoErrorsIffSound(p, mappings[p].value, global);
    }
  }

  /** What completion makes of a definition. */
  function CompletedDefinition(d: Definition, global: LabelSelector): Definition {
    d.(selector := Merged(d.selector, global))
  }

  /** A validated definition can find the clusters it creates again after completion, and whatever it
      selects is also selected globally, which is where the deletion handler looks. */
  lemma CompletedDefinitionFindsItsTemplate(d: Definition, global: LabelSelector)
    requires SoundDefinition(d, global)
    ensures Matches(CompletedDefinition(d, global).selector, d.template.labels)
    ensures forall labels :: Matches(CompletedDefinition(d, global).selector, labels) ==> Matches(global, labels)
    ensures Agree(d.selector, global)
  {
    BothImplyMerged(d.selector, global, d.template.labels);
    forall labels | Matches(Merged(d.selector, global), labels) ensures Matches(global, labels) {
      MergedImpliesGlobal(d.selector, global, labels);
    }
  }

  /** The checks on one definition, in the order in which they are made. */
  method CheckDefinition(p: string, d: Definition, global: LabelSelector) returns (errs: set<ConfigError>)
    ensures errs == DefinitionErrors(p, d, global)
  {
    errs := Report(d.tenancyCount < 0, NegativeTenancyCount(p));
    errs := errs + Report(d.template.spec.profile == "", MissingProfile(p));
    if d.template.spec.tenancy == UnsetTenancy {
      return errs + {MissingTenancy(p)};
    } else if d.template.spec.tenancy !in {Exclusive, Shared} {
      return errs + {UnsupportedTenancy(p)};
    }
    errs := errs + Report(d.template.spec.tenancy == Exclusive && d.tenancyCount != 0, TenancyCountOnExclusive(p));
    if IsValid(global) {
      errs := errs + Report(!MatchesAll(global, d.template.labels), TemplateMissesGlobalSelector(p));
    }
    if !IsValid(d.selector) {
      errs := errs + {InvalidLocalSelector(p)};
    } else {
      errs := errs + Report(!MatchesAll(d.selector, d.template.labels), TemplateMissesLocalSelector(p));
    }
  }

  // ---------- the configuration object ----------

  /** A definition as it is read from the configuration file. */
  datatype RawDefinition = RawDefinition(tenancyCount: int, template: Template, selector: Selector?)

  ghost function AsWritten(d: RawDefinition): Definition
    reads d.selector
  {
    Definition(d.tenancyCount, d.template, Written(ViewOf(d.selector)))
  }

  ghost function AsUsed(d: RawDefinition): Definition
    reads d.selector
  {
    Definition(d.tenancyCount, d.template, CompletedView(ViewOf(d.selector)))
  }

  predicate AllValid(written: map<string, Option<Definition>>) {
    forall p :: p in written ==> written[p].Some? && Valid(written[p].value.selector)
  }

  /** Merges a completed global selector into one definition. */
  method CompleteDefinition(d: RawDefinition, global: Selector?) returns (r: RawDefinition, ok: bool)
    requires Fresh(ViewOf(d.selector))
    requires global != null ==> CompletedView(ViewOf(global)) == Written(ViewOf(global))
    ensures r.selector != null ==> fresh(r.selector)
    ensures ok ==> AsUsed(r) == CompletedDefinition(AsWritten(d), Written(ViewOf(global)))
    ensures Valid(AsWritten(d).selector) && Valid(Written(ViewOf(global))) ==> ok
  {
    var combined, done := Selector.Combine(d.selector, global);
    r, ok := d.(selector := combined), done;
  }

  class SchedulerConfig {
    var scope: Scope
    var strategy: Strategy
    var clusters: Selector?
    var requests: Selector?
    /** `None` stands for a nil definition. */
    var purposeMappings: map<string, Option<RawDefinition>>

    /** Just read from a file: nothing is completed, and no local selector is one of the global ones. */
    ghost predicate JustRead()
      reads this, clusters, requests
      reads set p | p in purposeMappings && purposeMappings[p].Some? :: purposeMappings[p].value.selector
    {
      && Fresh(ViewOf(clusters))
      && Fresh(ViewOf(requests))
      && (forall p :: p in purposeMappings && purposeMappings[p].Some? ==>
            var sel := purposeMappings[p].value.selector;
            && Fresh(ViewOf(sel))
            && (sel != null ==> sel != clusters && sel != requests))
    }

    constructor (scope: Scope, strategy: Strategy, clusters: Selector?, requests: Selector?,
                 purposeMappings: map<string, Option<RawDefinition>>)
      ensures this.scope == scope && this.strategy == strategy
      ensures this.clusters == clusters && this.requests == requests
      ensures this.purposeMappings == purposeMappings
    {
      this.scope := scope;
      this.strategy := strategy;
      this.clusters := clusters;
      this.requests := requests;
      this.purposeMappings := purposeMappings;
    }

    method Default()
      modifies this`scope, this`strategy
      ensures scope == if old(scope) == UnsetScope then ClusterScope else old(scope)
      ensures strategy == if old(strategy) == UnsetStrategy then Balanced else old(strategy)
    {
      if scope == UnsetScope {
        scope := ClusterScope;
      }
      if strategy == UnsetStrategy {
        strategy := Balanced;
      }
    }

    /** The value form of what `Validate` looks at. */
    ghost function WrittenMappings(): map<string, Option<Definition>>
      reads this
      reads set p | p in purposeMappings && purposeMappings[p].Some? :: purposeMappings[p].value.selector
    {
      map p | p in purposeMappings ::
        if purposeMappings[p].None? then None else Some(AsWritten(purposeMappings[p].value))
    }

    method ValidateGeneral() returns (errs: set<ConfigError>)
      ensures errs == GeneralErrors(scope, strategy, Written(ViewOf(clusters)), Written(ViewOf(requests)))
    {
      errs := Report(scope !in {ClusterScope, NamespacedScope}, UnsupportedScope);
      errs := errs + Report(strategy !in {Balanced, Random, Simple}, UnsupportedStrategy);
      if clusters != null && clusters.labelSelector.Some? {
        errs := errs + Report(!IsValid(clusters.labelSelector.value), InvalidClusterSelector);
      }
      if requests != null && requests.labelSelector.Some? {
        errs := errs + Report(!IsValid(requests.labelSelector.value), InvalidRequestSelector);
      }
    }

    method ValidateEntry(p: string) returns (errs: set<ConfigError>)
      requires p in purposeMappings
      ensures errs == EntryErrors(p, WrittenMappings()[p], Written(ViewOf(clusters)))
    {
      errs := Report(p == "", EmptyPurpose);
      if purposeMappings[p].None? {
        return errs + {NilDefinition(p)};
      }
      var d := purposeMappings[p].value;
      var local, global := EVERYTHING, EVERYTHING;
      if d.selector != null && d.selector.labelSelector.Some? {
        local := d.selector.labelSelector.value;
      }
      if clusters != null && clusters.labelSelector.Some? {
        global := clusters.labelSelector.value;
      }
      var found := CheckDefinition(p, Definition(d.tenancyCount, d.template, local), global);
      errs := errs + found;
    }

    /** Adds the errors of the purpose mappings, whatever the order in which the purposes are visited. */
    method ValidateMappings(general: set<ConfigError>) returns (errs: set<ConfigError>)
      ensures errs == general + MappingErrors(WrittenMappings(), Written(ViewOf(clusters)))
    {
      errs := general;
      ghost var written, global := WrittenMappings(), Written(ViewOf(clusters));
      ghost var inMappings: set<ConfigError> := {};
      var todo := purposeMappings.Keys;
      while todo != {}
        invariant todo <= written.Keys == purposeMappings.Keys
        invariant inMappings == MappingErrors(Visited(written, todo), global)
        invariant errs == general + inMappings
      {
        var p :| p in todo;
        var more := ValidateEntry(p);
        MappingErrorsGrow(written, todo, p, global);
        errs := errs + more;
        inMappings := inMappings + more;
        todo := todo - {p};
      }
      assert Visited(written, {}) == written;
    }

    /** Reports exactly the deserved errors. */
    method Validate() returns (errs: set<ConfigError>)
      ensures errs == GeneralErrors(scope, strategy, Written(ViewOf(clusters)), Written(ViewOf(requests)))
                      + MappingErrors(WrittenMappings(), Written(ViewOf(clusters)))
    {
      errs := ValidateGeneral();
      errs := ValidateMappings(errs);
    }

    /** Completes the global selectors and merges the global cluster selector into every definition. */
    method Complete() returns (ok: bool)
      requires forall p :: p in purposeMappings ==> purposeMappings[p].Some?
      requires JustRead()
      modifies this`purposeMappings
      modifies (if clusters == null then {} else {clusters}), (if requests == null then {} else {requests})
      ensures ok ==> CompletedView(ViewOf(clusters)) == old(Written(ViewOf(clusters)))
      ensures ok ==> CompletedView(ViewOf(requests)) == old(Written(ViewOf(requests)))
      ensures ok ==> AllCompleted(old(WrittenMappings()), old(Written(ViewOf(clusters))))
      ensures ok ==> forall p :: p in old(WrittenMappings()) ==>
                && p in purposeMappings && purposeMappings[p].Some? && old(WrittenMappings())[p].Some?
                && AsUsed(purposeMappings[p].value) == CompletedDefinition(old(WrittenMappings())[p].value, old(Written(ViewOf(clusters))))
      ensures old(Valid(Written(ViewOf(clusters))) && Valid(Written(ViewOf(requests))) && AllValid(WrittenMappings())) ==> ok
    {
      ok := CompleteGlobal();
      if ok {
        assert WrittenMappings() == old(WrittenMappings());
        ok := CompleteMappings();
      }
    }

    /** Every definition is the completed form of what was written. */
    ghost predicate AllCompleted(written: map<string, Option<Definition>>, global: LabelSelector)
      reads this
      reads set p | p in purposeMappings && purposeMappings[p].Some? :: purposeMappings[p].value.selector
    {
      && purposeMappings.Keys == written.Keys
      && forall p :: p in written ==>
           && written[p].Some? && purposeMappings[p].Some?
           && AsUsed(purposeMappings[p].value) == CompletedDefinition(written[p].value, global)
    }

    method CompleteMappings() returns (ok: bool)
      requires forall p :: p in purposeMappings ==>
                 purposeMappings[p].Some? && Fresh(ViewOf(purposeMappings[p].value.selector))
      requires clusters != null ==> CompletedView(ViewOf(clusters)) == Written(ViewOf(clusters))
      modifies this`purposeMappings
      ensures ok ==> AllCompleted(old(WrittenMappings()), Written(ViewOf(clusters)))
      ensures Valid(Written(ViewOf(clusters))) && AllValid(old(WrittenMappings())) ==> ok
    {
      hide CompletedDefinition, Valid, Written, AsWritten, ViewOf;
      ghost var written, global := WrittenMappings(), Written(ViewOf(clusters));
      var todo, completed := purposeMappings.Keys, purposeMappings;
      ok := true;
      while todo != {} && ok
        invariant todo <= purposeMappings.Keys == completed.Keys == written.Keys
        invariant unchanged(this) && Written(ViewOf(clusters)) == global
        invariant forall p :: p in todo ==> purposeMappings[p].Some? && written[p] == Some(AsWritten(purposeMappings[p].value))
        invariant forall p :: p in completed ==> completed[p].Some?
        invariant forall p :: p in todo ==> completed[p] == purposeMappings[p]
        invariant ok ==> forall p :: p in completed && p !in todo ==>
                  AsUsed(completed[p].value) == CompletedDefinition(written[p].value, global)
        invariant Valid(global) && AllValid(written) ==> ok
        decreases todo, ok
      {
        var p :| p in todo;
        var d, done := CompleteDefinition(purposeMappings[p].value, clusters);
        assert done ==> AsUsed(d) == CompletedDefinition(written[p].value, global);
        completed, ok, todo := completed[p := Some(d)], done, todo - {p};
      }
      purposeMappings := completed;
    }

    method CompleteGlobal() returns (ok: bool)
      requires Fresh(ViewOf(clusters)) && Fresh(ViewOf(requests))
      modifies (if clusters == null then {} else {clusters}), (if requests == null then {} else {requests})
      ensures unchanged(this)
      ensures Written(ViewOf(clusters)) == old(Written(ViewOf(clusters)))
      ensures Written(ViewOf(requests)) == old(Written(ViewOf(requests)))
      ensures ok <==> Valid(Written(ViewOf(clusters))) && Valid(Written(ViewOf(requests)))
      ensures ok && clusters != null ==> clusters.completed == Some(Written(ViewOf(clusters)))
      ensures ok && requests != null ==> requests.completed == Some(Written(ViewOf(requests)))
    {
      if clusters != null {
        ok := clusters.Complete();
        if !ok {
          return;
        }
      }
      ok := true;
      if requests != null {
        ok := requests.Complete();
      }
    }

    /** The configuration as the scheduler reads it. */
    ghost function View(): Config
      requires forall p :: p in purposeMappings ==> purposeMappings[p].Some?
      reads this, clusters
      reads set p | p in purposeMappings && purposeMappings[p].Some? :: purposeMappings[p].value.selector
    {
      Config(scope, strategy, CompletedView(ViewOf(clusters)),
             map p | p in purposeMappings :: AsUsed(purposeMappings[p].value))
    }
  }
}
