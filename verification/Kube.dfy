/** Kubernetes conventions that every controller of this repository relies on: object keys,
    finalizer lists, and what the API server does with objects that are being deleted. */
module Kube {

  datatype Option<+T> = None | Some(value: T)

  datatype Key = Key(namespace: string, name: string)

  type Labels = map<string, string>

  /** The metadata the controllers read and write, plus a kind-specific part.
      `deleting` stands for a non-zero deletion timestamp. */
  datatype Object<+S> = Object(
    finalizers: seq<string>,
    deleting: bool,
    labels: Labels,
    annotations: Labels,
    spec: S)

  // ---------- finalizer lists ----------

  function AddFinalizer(fins: seq<string>, f: string): (r: seq<string>)
    ensures f in r
    ensures forall g :: g in r <==> g in fins || g == f
    ensures fins <= r
  {
    if f in fins then fins else fins + [f]
  }

  /** The finalizers that survive when all occurrences of those in `drop` are removed, in order. */
  function Without(fins: seq<string>, drop: set<string>): (r: seq<string>)
    ensures forall g :: g in r <==> g in fins && g !in drop
  {
    if fins == [] then []
    else if fins[0] in drop then Without(fins[1..], drop)
    else [fins[0]] + Without(fins[1..], drop)
  }

  function RemoveFinalizer(fins: seq<string>, f: string): seq<string> {
    Without(fins, {f})
  }

  /** Removal works piecewise, so what survives keeps its order. */
  lemma {:induction false} WithoutConcat(a: seq<string>, b: seq<string>, drop: set<string>)
    ensures Without(a + b, drop) == Without(a, drop) + Without(b, drop)
  {
    if a == [] {
      assert a + b == b;
    } else {
      assert (a + b)[1..] == a[1..] + b;
      WithoutConcat(a[1..], b, drop);
    }
  }

  lemma {:induction false} WithoutNothing(fins: seq<string>, drop: set<string>)
    requires forall f :: f in fins ==> f !in drop
    ensures Without(fins, drop) == fins
  {
    if fins != [] {
      WithoutNothing(fins[1..], drop);
    }
  }

  // ---------- finalizers that carry an identity behind a prefix ----------

  predicate HasPrefix(s: string, prefix: string) {
    prefix <= s
  }

  /** The values found behind `prefix` in a finalizer list. */
  function Suffixes(fins: seq<string>, prefix: string): set<string> {
    set f | f in fins && HasPrefix(f, prefix) :: f[|prefix|..]
  }

  lemma SuffixIn(fins: seq<string>, prefix: string, value: string)
    ensures value in Suffixes(fins, prefix) <==> prefix + value in fins
  {
    var f := prefix + value;
    assert f[|prefix|..] == value;
    if value in Suffixes(fins, prefix) {
      var g :| g in fins && HasPrefix(g, prefix) && g[|prefix|..] == value;
      assert g == g[..|prefix|] + g[|prefix|..] == f;
    }
  }

  lemma SuffixesAfterAdd(fins: seq<string>, prefix: string, value: string)
    ensures Suffixes(AddFinalizer(fins, prefix + value), prefix) == Suffixes(fins, prefix) + {value}
  {
    var after := AddFinalizer(fins, prefix + value);
    forall v ensures v in Suffixes(after, prefix) <==> v in Suffixes(fins, prefix) + {value} {
      SuffixIn(fins, prefix, v);
      SuffixIn(after, prefix, v);
      PrefixInjective(prefix, v, value);
    }
  }

  lemma SuffixesAfterRemove(fins: seq<string>, prefix: string, value: string)
    ensures Suffixes(RemoveFinalizer(fins, prefix + value), prefix) == Suffixes(fins, prefix) - {value}
  {
    var after := RemoveFinalizer(fins, prefix + value);
    forall v ensures v in Suffixes(after, prefix) <==> v in Suffixes(fins, prefix) - {value} {
      SuffixIn(fins, prefix, v);
      SuffixIn(after, prefix, v);
      PrefixInjective(prefix, v, value);
    }
  }

  lemma PrefixInjective(prefix: string, a: string, b: string)
    ensures prefix + a == prefix + b <==> a == b
  {
    if prefix + a == prefix + b {
      assert a == (prefix + a)[|prefix|..] == (prefix + b)[|prefix|..] == b;
    }
  }

  // ---------- what the API server does ----------

  /** An update is refused if it adds finalizers to an object that is being deleted. */
  predicate Acceptable<S>(before: Object<S>, after: Object<S>) {
    && after.deleting == before.deleting
    && (before.deleting ==> forall f :: f in after.finalizers ==> f in before.finalizers)
  }

  /** Storing an object: one that is being deleted vanishes with its last finalizer. */
  function Stored<S>(objects: map<Key, Object<S>>, k: Key, o: Object<S>): map<Key, Object<S>> {
    if o.deleting && o.finalizers == [] then objects - {k} else objects[k := o]
  }

  /** A delete call: objects with finalizers are only marked, the others vanish. */
  function Deleted<S>(objects: map<Key, Object<S>>, k: Key): map<Key, Object<S>> {
    if k !in objects then objects
    else if objects[k].finalizers == [] then objects - {k}
    else objects[k := objects[k].(deleting := true)]
  }

  // ---------- maps of objects ----------

  function At<K, T>(m: map<K, T>, k: K): Option<T> {
    if k in m then Some(m[k]) else None
  }

  /** Delete calls for all objects in `ks`. */
  function Mark<K, S>(m: map<K, Object<S>>, ks: set<K>): map<K, Object<S>> {
    map k | k in m && !(k in ks && m[k].finalizers == []) :: if k in ks then m[k].(deleting := true) else m[k]
  }

  /** Objects that are being deleted stay only as long as they have finalizers. */
  predicate Alive<K, S>(m: map<K, Object<S>>) {
    forall k :: k in m && m[k].deleting ==> m[k].finalizers != []
  }

  lemma MarkMore<K, S>(m: map<K, Object<S>>, ks: set<K>, k: K)
    requires k in m && k !in ks
    ensures k in Mark(m, ks) && Mark(m, ks)[k] == m[k]
    ensures Mark(m, ks + {k}) ==
            if m[k].finalizers == [] then Mark(m, ks) - {k} else Mark(m, ks)[k := m[k].(deleting := true)]
  {
  }

  lemma MarkMarked<K, S>(m: map<K, Object<S>>, ks: set<K>, k: K)
    requires k in m && k !in ks && m[k].deleting && m[k].finalizers != []
    ensures Mark(m, ks + {k}) == Mark(m, ks)
  {
  }

  lemma MarkBoth<K, S>(m: map<K, Object<S>>, a: set<K>, b: set<K>)
    requires a !! b
    ensures Mark(Mark(m, a), b) == Mark(m, a + b)
  {
  }
}
