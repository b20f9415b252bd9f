/** Selectors over the identity, the labels and the purposes of clusters. */
module PurposeSelectors {
  import opened Kube
  import Labeling = LabelSelectors

  datatype Operator = ContainsAll | ContainsAny | ContainsNone | Equals | OtherOperator(name: string)

  datatype Requirement = Requirement(operator: Operator, values: seq<string>)

  /** Nil parts of a selector are `None`; a nil list of purposes is empty. */
  datatype Selector = Selector(
    identities: Option<seq<Key>>, labels: Option<Labeling.LabelSelector>, purposes: seq<Requirement>)

  datatype Subject = Subject(key: Key, labels: Labels, purposes: seq<string>)

  function SetOf(s: seq<string>): set<string> {
    set x | x in s
  }

  // ---------- how the code decides ----------

  predicate HasAll(purposes: set<string>, values: seq<string>) {
    values == [] || (values[0] in purposes && HasAll(purposes, values[1..]))
  }

  predicate HasAny(purposes: set<string>, values: seq<string>) {
    values != [] && (values[0] in purposes || HasAny(purposes, values[1..]))
  }

  predicate Holds(r: Requirement, purposes: set<string>) {
    match r.operator
    case ContainsAll => HasAll(purposes, r.values)
    case ContainsAny => HasAny(purposes, r.values)
    case ContainsNone => |purposes * SetOf(r.values)| == 0
    case Equals => |purposes| == |r.values| && HasAll(purposes, r.values)
    case OtherOperator(_) => false
  }

  predicate MatchesPurposes(rs: seq<Requirement>, purposes: seq<string>) {
    rs == [] || (Holds(rs[0], SetOf(purposes)) && MatchesPurposes(rs[1..], purposes))
  }

  /** An invalid label selector matches nothing. */
  predicate MatchesLabels(s: Option<Labeling.LabelSelector>, labels: Labels) {
    s.Some? ==> Labeling.IsValid(s.value) && Labeling.MatchesAll(s.value, labels)
  }

  predicate MatchesIdentities(ids: seq<Key>, key: Key) {
    ids != [] && (ids[0] == key || MatchesIdentities(ids[1..], key))
  }

  predicate Matches(s: Option<Selector>, o: Subject) {
    if s.None? then true
    else if s.value.identities.Some? then MatchesIdentities(s.value.identities.value, o.key)
    else MatchesPurposes(s.value.purposes, o.purposes) && MatchesLabels(s.value.labels, o.labels)
  }

  // ---------- what the operators are documented to mean ----------

  /** The relation between the purposes of an object and the values of a requirement. For an empty list of
      values `ContainsAll` is documented to match nothing. */
  predicate Documented(r: Requirement, purposes: set<string>) {
    match r.operator
    case ContainsAll => r.values != [] && SetOf(r.values) <= purposes
    case ContainsAny => SetOf(r.values) * purposes != {}
    case ContainsNone => SetOf(r.values) !! purposes
    case Equals => purposes == SetOf(r.values)
    case OtherOperator(_) => false
  }

  predicate NoDuplicates(s: seq<string>) {
    forall i, j :: 0 <= i < j < |s| ==> s[i] != s[j]
  }

  lemma {:induction false} HasAllIsSuperset(purposes: set<string>, values: seq<string>)
    ensures HasAll(purposes, values) <==> SetOf(values) <= purposes
  {
    if values != [] {
      HasAllIsSuperset(purposes, values[1..]);
      assert values == [values[0]] + values[1..];
      assert values[0] in SetOf(values);
    }
  }

  lemma {:induction false} HasAnyIsIntersection(purposes: set<string>, values: seq<string>)
    ensures HasAny(purposes, values) <==> SetOf(values) * purposes != {}
  {
    if values == [] {
      assert SetOf(values) == {};
    } else {
      HasAnyIsIntersection(purposes, values[1..]);
      assert values == [values[0]] + values[1..];
      assert SetOf(values) == {values[0]} + SetOf(values[1..]);
      if values[0] in purposes {
        assert values[0] in SetOf(values) * purposes;
      } else {
        assert SetOf(values) * purposes == SetOf(values[1..]) * purposes;
      }
    }
  }

  /** A list has as many different values as elements exactly if nothing is repeated. */
  lemma {:induction false} CountsDistinct(s: seq<string>)
    ensures |SetOf(s)| <= |s|
    ensures |SetOf(s)| == |s| <==> NoDuplicates(s)
  {
    if s == [] {
      assert SetOf(s) == {};
    } else {
      CountsDistinct(s[1..]);
      assert s == [s[0]] + s[1..];
      assert SetOf(s) == {s[0]} + SetOf(s[1..]);
      if s[0] in s[1..] {
        assert SetOf(s) == SetOf(s[1..]);
        var j :| 0 <= j < |s[1..]| && s[1..][j] == s[0];
        assert s[j + 1] == s[0];
      } else {
        assert |SetOf(s)| == 1 + |SetOf(s[1..])|;
        if NoDuplicates(s[1..]) {
          forall i, j | 0 <= i < j < |s| ensures s[i] != s[j] {
            assert s[j] == s[1..][j - 1];
            assert i > 0 ==> s[i] == s[1..][i - 1];
          }
        } else {
          var i, j :| 0 <= i < j < |s[1..]| && s[1..][i] == s[1..][j];
          assert s[i + 1] == s[j + 1];
        }
      }
    }
  }

  lemma SubsetOfSameSize(a: set<string>, b: set<string>)
    requires a <= b && |a| == |b|
    ensures a == b
  {
    assert |b - a| == |b| - |a|;
    assert b == a + (b - a);
  }

  /** The purposes of `Equals` are compared by number and inclusion. That is the same as equality of the
      sets, on all objects, exactly if the requirement lists no value twice. */
  lemma EqualsIffNoDuplicates(values: seq<string>)
    ensures (forall purposes :: Holds(Requirement(Equals, values), purposes) <==> purposes == SetOf(values)) <==> NoDuplicates(values)
  {
    CountsDistinct(values);
    forall purposes ensures HasAll(purposes, values) <==> SetOf(values) <= purposes {
      HasAllIsSuperset(purposes, values);
    }
    if NoDuplicates(values) {
      forall purposes ensures Holds(Requirement(Equals, values), purposes) <==> purposes == SetOf(values) {
        if Holds(Requirement(Equals, values), purposes) {
          SubsetOfSameSize(SetOf(values), purposes);
        }
      }
    } else {
      assert !Holds(Requirement(Equals, values), SetOf(values));
    }
  }

  /** With a repeated value, an object with exactly the listed purpose is rejected, and one with another
      purpose in addition is accepted. */
  lemma RepeatedValueBreaksEquals(a: string, b: string)
    requires a != b
    ensures !Holds(Requirement(Equals, [a, a]), {a}) && Holds(Requirement(Equals, [a, a]), {a, b})
  {
    assert |{a, b}| == 2;
    assert [a, a][1..] == [a];
  }

  /** A requirement does what is documented on all objects exactly if `Equals` lists no value twice and
      `ContainsAll` lists any value at all. */
  lemma RequirementAsDocumentedIff(r: Requirement)
    ensures (forall purposes :: Holds(r, purposes) <==> Documented(r, purposes)) <==>
            (r.operator.Equals? ==> NoDuplicates(r.values)) && (r.operator.ContainsAll? ==> r.values != [])
  {
    match r.operator
    case ContainsAll =>
      forall purposes ensures HasAll(purposes, r.values) <==> SetOf(r.values) <= purposes {
        HasAllIsSuperset(purposes, r.values);
      }
      assert Holds(r, SetOf(r.values));
    case ContainsAny =>
      forall purposes ensures Holds(r, purposes) <==> Documented(r, purposes) {
        HasAnyIsIntersection(purposes, r.values);
      }
    case ContainsNone =>
      forall purposes ensures Holds(r, purposes) <==> Documented(r, purposes) {
        var common := purposes * SetOf(r.values);
        if common == {} {
          forall x ensures !(x in SetOf(r.values) && x in purposes) {
            assert x !in common;
          }
        }
        assert |common| == 0 <==> common == {};
      }
    case Equals =>
      EqualsIffNoDuplicates(r.values);
      assert r == Requirement(Equals, r.values);
      assert forall purposes :: Documented(r, purposes) <==> purposes == SetOf(r.values);
    case OtherOperator(_) =>
  }

  predicate WellFormed(rs: seq<Requirement>) {
    forall r :: r in rs ==> (r.operator.Equals? ==> NoDuplicates(r.values)) && (r.operator.ContainsAll? ==> r.values != [])
  }

  /** The requirements are ANDed. */
  lemma {:induction false} MatchesPurposesIsConjunction(rs: seq<Requirement>, purposes: seq<string>)
    ensures MatchesPurposes(rs, purposes) <==> forall r :: r in rs ==> Holds(r, SetOf(purposes))
  {
    if rs != [] {
      MatchesPurposesIsConjunction(rs[1..], purposes);
      assert rs == [rs[0]] + rs[1..];
    }
  }

  lemma {:induction false} MatchesIdentitiesIsMembership(ids: seq<Key>, key: Key)
    ensures MatchesIdentities(ids, key) <==> key in ids
  {
    if ids != [] {
      MatchesIdentitiesIsMembership(ids[1..], key);
      assert ids == [ids[0]] + ids[1..];
    }
  }

  /** The whole selector: without one everything matches, a list of identities overrides everything else, and
      otherwise the object has to satisfy the label selector and all documented relations between purposes and
      values. */
  lemma SelectorMeaning(s: Option<Selector>, o: Subject)
    requires s.Some? ==> WellFormed(s.value.purposes)
    ensures
      Matches(s, o) <==>
      s.Some? ==>
        if s.value.identities.Some? then o.key in s.value.identities.value
        else
          && (s.value.labels.Some? ==> Labeling.Valid(s.value.labels.value) && Labeling.Matches(s.value.labels.value, o.labels))
          && forall r :: r in s.value.purposes ==> Documented(r, SetOf(o.purposes))
  {
    if s.Some? {
      SelectorDecision(s.value, o);
      forall r | r in s.value.purposes ensures Holds(r, SetOf(o.purposes)) <==> Documented(r, SetOf(o.purposes)) {
        RequirementAsDocumentedIff(r);
      }
    }
  }

  /** The same for any list of purposes, in terms of the operators as they are. */
  lemma SelectorDecision(s: Selector, o: Subject)
    ensures Matches(Some(s), o) <==>
            if s.identities.Some? then o.key in s.identities.value
            else
              && (s.labels.Some? ==> Labeling.Valid(s.labels.value) && Labeling.Matches(s.labels.value, o.labels))
              && forall r :: r in s.purposes ==> Holds(r, SetOf(o.purposes))
  {
    if s.identities.Some? {
      MatchesIdentitiesIsMembership(s.identities.value, o.key);
    } else {
      MatchesPurposesIsConjunction(s.purposes, o.purposes);
    }
  }

  /** Order and repetition of an object's purposes do not matter. */
  lemma PurposesAreASet(s: Option<Selector>, a: Subject, b: Subject)
    requires a.key == b.key && a.labels == b.labels
    requires forall p :: p in a.purposes <==> p in b.purposes
    ensures Matches(s, a) <==> Matches(s, b)
  {
    assert SetOf(a.purposes) == SetOf(b.purposes);
    if s.Some? {
      MatchesPurposesIsConjunction(s.value.purposes, a.purposes);
      MatchesPurposesIsConjunction(s.value.purposes, b.purposes);
    }
  }
}
