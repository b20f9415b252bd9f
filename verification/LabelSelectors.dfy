/** Label selectors of the scheduler configuration: parsing, completion, and the combination of a
    local selector with the global one. */
module LabelSelectors {
  import opened Kube

  datatype Operator = In | NotIn | Exists | DoesNotExist | OtherOperator(name: string)

  datatype Requirement = Requirement(key: string, operator: Operator, values: seq<string>)

  datatype LabelSelector = LabelSelector(matchLabels: Labels, matchExpressions: seq<Requirement>)

  const EVERYTHING := LabelSelector(map[], [])

  // ---------- what a selector means ----------

  predicate ValidRequirement(r: Requirement) {
    match r.operator
    case In => r.values != []
    case NotIn => r.values != []
    case Exists => r.values == []
    case DoesNotExist => r.values == []
    case OtherOperator(_) => false
  }

  /** Whether the selector can be parsed at all. */
  predicate Valid(s: LabelSelector) {
    forall r :: r in s.matchExpressions ==> ValidRequirement(r)
  }

  predicate RequirementMatches(r: Requirement, labels: Labels) {
    match r.operator
    case In => r.key in labels && labels[r.key] in r.values
    case NotIn => r.key !in labels || labels[r.key] !in r.values
    case Exists => r.key in labels
    case DoesNotExist => r.key !in labels
    case OtherOperator(_) => false
  }

  /** How the operators relate: each one and its negation exclude each other on all label sets, `In` lists
      alternatives, and `Exists` is any of them. */
  lemma OperatorsRelate(key: string, values: seq<string>, labels: Labels)
    ensures RequirementMatches(Requirement(key, NotIn, values), labels) <==> !RequirementMatches(Requirement(key, In, values), labels)
    ensures RequirementMatches(Requirement(key, DoesNotExist, []), labels) <==> !RequirementMatches(Requirement(key, Exists, []), labels)
    ensures RequirementMatches(Requirement(key, In, values), labels) <==>
            exists v :: v in values && Matches(LabelSelector(map[key := v], []), labels)
    ensures RequirementMatches(Requirement(key, Exists, []), labels) <==>
            exists v :: Matches(LabelSelector(map[key := v], []), labels)
  {
    forall v ensures Matches(LabelSelector(map[key := v], []), labels) <==> key in labels && labels[key] == v {
      assert key in map[key := v];
    }
    if key in labels {
      assert Matches(LabelSelector(map[key := labels[key]], []), labels);
    }
  }

  /** Operators with a list of values are usable exactly if they make a difference: some labels match and some
      do not. The other two have no values. */
  lemma UsableRequirementsDecide(r: Requirement)
    ensures r.operator.In? || r.operator.NotIn? ==>
              (ValidRequirement(r) <==> (exists l :: RequirementMatches(r, l)) && (exists l :: !RequirementMatches(r, l)))
    ensures r.operator.Exists? || r.operator.DoesNotExist? ==> (ValidRequirement(r) <==> |r.values| == 0)
    ensures r.operator.OtherOperator? ==> !ValidRequirement(r) && forall l :: !RequirementMatches(r, l)
  {
    if (r.operator.In? || r.operator.NotIn?) && r.values != [] {
      var some, none: Labels := map[r.key := r.values[0]], map[];
      assert RequirementMatches(r, some) || RequirementMatches(r, none);
      assert !RequirementMatches(r, some) || !RequirementMatches(r, none);
    }
  }

  /** A selector is the conjunction of its parts, and without any it selects everything. */
  lemma SelectorIsConjunction(s: LabelSelector, t: LabelSelector, labels: Labels)
    requires s.matchLabels.Keys !! t.matchLabels.Keys
    ensures Matches(LabelSelector(s.matchLabels + t.matchLabels, s.matchExpressions + t.matchExpressions), labels) <==>
            Matches(s, labels) && Matches(t, labels)
    ensures Matches(EVERYTHING, labels)
  {
    var both := LabelSelector(s.matchLabels + t.matchLabels, s.matchExpressions + t.matchExpressions);
    if Matches(both, labels) {
      forall k | k in s.matchLabels ensures k in labels && labels[k] == s.matchLabels[k] {
        assert k in both.matchLabels;
      }
      forall k | k in t.matchLabels ensures k in labels && labels[k] == t.matchLabels[k] {
        assert k in both.matchLabels;
      }
      assert forall r :: r in s.matchExpressions || r in t.matchExpressions ==> r in both.matchExpressions;
    }
  }

  predicate LabelsMatch(wanted: Labels, labels: Labels) {
    forall k :: k in wanted ==> k in labels && labels[k] == wanted[k]
  }

  predicate Matches(s: LabelSelector, labels: Labels) {
    && LabelsMatch(s.matchLabels, labels)
    && forall r :: r in s.matchExpressions ==> RequirementMatches(r, labels)
  }

  /** `Valid` and `Matches` as loops over the requirements. */
  predicate IsValid(s: LabelSelector)
    ensures IsValid(s) <==> Valid(s)
  {
    forall i :: 0 <= i < |s.matchExpressions| ==> ValidRequirement(s.matchExpressions[i])
  }

  predicate MatchesAll(s: LabelSelector, labels: Labels)
    ensures MatchesAll(s, labels) <==> Matches(s, labels)
  {
    && LabelsMatch(s.matchLabels, labels)
    && forall i :: 0 <= i < |s.matchExpressions| ==> RequirementMatches(s.matchExpressions[i], labels)
  }

  // ---------- the combination of two selectors ----------

  /** Entries of the second selector win where both constrain the same label key. */
  function Merged(local: LabelSelector, global: LabelSelector): LabelSelector {
    LabelSelector(local.matchLabels + global.matchLabels, local.matchExpressions + global.matchExpressions)
  }

  /** The two selectors demand the same value for every label key they share. */
  predicate Agree(a: LabelSelector, b: LabelSelector) {
    forall k :: k in a.matchLabels && k in b.matchLabels ==> a.matchLabels[k] == b.matchLabels[k]
  }

  lemma MergedImpliesGlobal(local: LabelSelector, global: LabelSelector, labels: Labels)
    requires Matches(Merged(local, global), labels)
    ensures Matches(global, labels)
  {
    var m := Merged(local, global);
    forall k | k in global.matchLabels ensures k in labels && labels[k] == global.matchLabels[k] {
      assert k in m.matchLabels;
    }
    forall r | r in global.matchExpressions ensures RequirementMatches(r, labels) {
      assert r in m.matchExpressions;
    }
  }

  lemma BothImplyMerged(local: LabelSelector, global: LabelSelector, labels: Labels)
    requires Matches(local, labels) && Matches(global, labels)
    ensures Matches(Merged(local, global), labels)
    ensures Agree(local, global)
  {
  }

  lemma MergedImpliesLocal(local: LabelSelector, global: LabelSelector, labels: Labels)
    requires Agree(local, global)
    requires Matches(Merged(local, global), labels)
    ensures Matches(local, labels)
  {
    var m := Merged(local, global);
    forall k | k in local.matchLabels ensures k in labels && labels[k] == local.matchLabels[k] {
      assert k in m.matchLabels;
    }
    forall r | r in local.matchExpressions ensures RequirementMatches(r, labels) {
      assert r in m.matchExpressions;
    }
  }

  /** With agreeing label maps the combination is exactly the conjunction. */
  lemma MergedIsConjunction(local: LabelSelector, global: LabelSelector, labels: Labels)
    requires Agree(local, global)
    ensures Matches(Merged(local, global), labels) <==> Matches(local, labels) && Matches(global, labels)
  {
    if Matches(Merged(local, global), labels) {
      MergedImpliesLocal(local, global, labels);
      MergedImpliesGlobal(local, global, labels);
    }
    if Matches(local, labels) && Matches(global, labels) {
      BothImplyMerged(local, global, labels);
    }
  }

  /** The requirements are documented to be ANDed. For a combination that some label set satisfies,
      this is so on every label set exactly if the shared label keys agree. */
  lemma ConjunctionExactlyIfAgreeing(local: LabelSelector, global: LabelSelector, witnessLabels: Labels)
    requires Matches(Merged(local, global), witnessLabels)
    ensures Agree(local, global) <==>
            forall labels :: Matches(Merged(local, global), labels) <==> Matches(local, labels) && Matches(global, labels)
  {
    if Agree(local, global) {
      forall labels
        ensures Matches(Merged(local, global), labels) <==> Matches(local, labels) && Matches(global, labels)
      {
        MergedIsConjunction(local, global, labels);
      }
    } else {
      var k :| k in local.matchLabels && k in global.matchLabels && local.matchLabels[k] != global.matchLabels[k];
      assert k in Merged(local, global).matchLabels;
      assert witnessLabels[k] == global.matchLabels[k];
      assert !Matches(local, witnessLabels);
    }
  }

  /** A label set for which the combination selects a cluster that the local selector excludes. */
  lemma OverwrittenLocalRequirement()
    ensures
      var local := LabelSelector(map["team" := "blue"], []);
      var global := LabelSelector(map["team" := "red"], []);
      var labels := map["team" := "red"];
      Matches(Merged(local, global), labels) && Matches(global, labels) && !Matches(local, labels)
  {
    var local := LabelSelector(map["team" := "blue"], []);
    var labels := map["team" := "red"];
    assert "team" in local.matchLabels;
    assert "blue"[0] != "red"[0];
  }

  /** Combining with the same global selector once more selects the same label sets. */
  lemma CombiningTwiceChangesNothing(local: LabelSelector, global: LabelSelector, labels: Labels)
    ensures Matches(Merged(Merged(local, global), global), labels) <==> Matches(Merged(local, global), labels)
  {
    var once := Merged(local, global);
    assert Agree(once, global);
    MergedIsConjunction(once, global, labels);
    if Matches(once, labels) {
      MergedImpliesGlobal(local, global, labels);
    }
  }

  // ---------- selector objects ----------

  /** What a (possibly nil) selector object holds. */
  datatype View = View(labelSelector: Option<LabelSelector>, completed: Option<LabelSelector>)

  ghost function ViewOf(s: Selector?): Option<View>
    reads s
  {
    if s == null then None else Some(View(s.labelSelector, s.completed))
  }

  /** The parsed selector to use: nil, empty and uncompleted selectors match everything. */
  function CompletedView(v: Option<View>): LabelSelector {
    if v.Some? && v.value.completed.Some? then v.value.completed.value else EVERYTHING
  }

  /** The selector that was written in the configuration; nil and empty ones match everything. */
  function Written(v: Option<View>): LabelSelector {
    if v.Some? && v.value.labelSelector.Some? then v.value.labelSelector.value else EVERYTHING
  }

  /** No selector of the configuration is completed before the configuration is. */
  predicate Fresh(v: Option<View>) {
    v.Some? ==> v.value.completed == None
  }

  class Selector {
    var labelSelector: Option<LabelSelector>
    var completed: Option<LabelSelector>

    constructor (labelSelector: Option<LabelSelector>, completed: Option<LabelSelector>)
      ensures this.labelSelector == labelSelector && this.completed == completed
    {
      this.labelSelector := labelSelector;
      this.completed := completed;
    }

    /** Parses the selector. An invalid one leaves nothing completed and reports an error. */
    method Complete() returns (ok: bool)
      modifies this`completed
      ensures ok <==> (labelSelector.Some? ==> Valid(labelSelector.value))
      ensures ok ==> completed == Some(if labelSelector.Some? then labelSelector.value else EVERYTHING)
      ensures !ok ==> completed == None
    {
      if labelSelector.None? {
        completed := Some(EVERYTHING);
        return true;
      }
      if IsValid(labelSelector.value) {
        completed := labelSelector;
        return true;
      }
      completed := None;
      return false;
    }

    /** Combines a local selector with another one. Neither of the two is modified. The returned
        selector is completed and selects what `Merged` selects. */
    static method Combine(s: Selector?, other: Selector?) returns (res: Selector?, ok: bool)
      ensures res != null ==> fresh(res)
      ensures res == null <==> (s == null || s.labelSelector.None?) && (other == null || other.labelSelector.None?)
      ensures res != null ==> res.labelSelector.Some?
      ensures ok && Fresh(ViewOf(s)) ==>
                (other != null && other.completed.Some? ==> other.completed.value == Written(ViewOf(other))) ==>
                CompletedView(ViewOf(res)) == Merged(Written(ViewOf(s)), Written(ViewOf(other)))
      ensures Valid(Written(ViewOf(s))) && Valid(Written(ViewOf(other))) ==> ok
    {
      if s == null || s.labelSelector.None? {
        if other == null || other.labelSelector.None? {
          return null, true;
        }
        res := new Selector(other.labelSelector, other.completed);
        ok := true;
        if res.completed.None? {
          ok := res.Complete();
        }
        assert [] + other.labelSelector.value.matchExpressions == other.labelSelector.value.matchExpressions;
        return;
      }
      res := new Selector(s.labelSelector, s.completed);
      if other == null || other.labelSelector.None? {
        ok := true;
        if res.completed.None? {
          ok := res.Complete();
        }
        assert s.labelSelector.value.matchExpressions + [] == s.labelSelector.value.matchExpressions;
        return;
      }
      var mine, theirs := s.labelSelector.value, other.labelSelector.value;
      var labels := mine.matchLabels;
      if labels == map[] {
        labels := theirs.matchLabels;
      } else {
        labels := labels + theirs.matchLabels;
      }
      var expressions := mine.matchExpressions;
      for i := 0 to |theirs.matchExpressions|
        invariant expressions == mine.matchExpressions + theirs.matchExpressions[..i]
      {
        expressions := expressions + [theirs.matchExpressions[i]];
      }
      assert theirs.matchExpressions[..|theirs.matchExpressions|] == theirs.matchExpressions;
      assert LabelSelector(labels, expressions) == Merged(mine, theirs);
      res.labelSelector := Some(LabelSelector(labels, expressions));
      ok := res.Complete();
    }
  }
}
