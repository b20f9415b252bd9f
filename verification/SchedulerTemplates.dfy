/** New clusters and the template they are made from, in memory. A new cluster shares the maps for its labels
    and annotations with the template, so whatever is written into them stays in the template as long as the
    configuration is kept from pass to pass. */
module SchedulerTemplates {
  import opened Kube
  import opened SchedulerConfiguration
  import opened SchedulerModel

  const DEFAULT_LABELS: Labels := map[DELETE_WITHOUT_REQUESTS_LABEL := "true"]

  function Content(entries: Option<Labels>): Labels {
    if entries.Some? then entries.value else map[]
  }

  /** The labels or annotations of a new cluster: metadata of the request, if the cluster is exclusive, comes
      first, then the template's map, where `None` stands for a map that is not there, and then defaults. */
  function EntriesOfNew(template: Option<Labels>, defaults: Labels, wanted: Labels, exclusive: bool): Labels {
    defaults + Content(template) + if exclusive then MetadataOf(wanted) else map[]
  }

  /** The template's map after a cluster has been made. */
  function Used(template: Option<Labels>, defaults: Labels, wanted: Labels, exclusive: bool): Option<Labels> {
    if template.Some? then Some(EntriesOfNew(template, defaults, wanted, exclusive)) else None
  }

  /** The template's map after clusters have been made for requests with these labels or annotations. */
  function UsedFor(template: Option<Labels>, defaults: Labels, earlier: seq<Labels>, exclusive: bool): Option<Labels> {
    if earlier == [] then template
    else Used(UsedFor(template, defaults, earlier[..|earlier| - 1], exclusive), defaults, earlier[|earlier| - 1], exclusive)
  }

  // ---------- maps in memory ----------

  class Entries {
    var content: Labels

    constructor (content: Labels)
      ensures this.content == content
    {
      this.content := content;
    }
  }

  function ContentOf(e: Entries?): Option<Labels>
    reads e
  {
    if e == null then None else Some(e.content)
  }

  /** Writes an entry into the map that is there, or into a new one. */
  method SetEntry(e: Entries?, key: string, value: string) returns (e': Entries)
    modifies e
    ensures e'.content == Content(old(ContentOf(e)))[key := value]
    ensures if e != null then e' == e else fresh(e')
  {
    if e == null {
      e' := new Entries(map[key := value]);
    } else {
      e.content := e.content[key := value];
      e' := e;
    }
  }

  function MetadataAmong(entries: Labels, keys: set<string>): Labels {
    map k | k in entries && k in keys && HasPrefix(k, METADATA_PREFIX) :: entries[k]
  }

  lemma AmongNoneOrAll(content: Labels, wanted: Labels)
    ensures content + MetadataAmong(wanted, {}) == content
    ensures MetadataAmong(wanted, wanted.Keys) == MetadataOf(wanted)
  {
  }

  lemma OneMoreEntry(content: Labels, wanted: Labels, done: set<string>, k: string)
    requires k in wanted && k !in done
    ensures content + MetadataAmong(wanted, done + {k}) ==
            if HasPrefix(k, METADATA_PREFIX) then (content + MetadataAmong(wanted, done))[k := wanted[k]]
            else content + MetadataAmong(wanted, done)
  {
  }

  /** Writes the entries with the metadata prefix, one by one. */
  method SetMetadata(e: Entries?, wanted: Labels) returns (e': Entries?)
    modifies e
    ensures Content(ContentOf(e')) == Content(old(ContentOf(e))) + MetadataOf(wanted)
    ensures if e != null then e' == e else e' == null || fresh(e')
  {
    hide MetadataAmong;
    e' := e;
    ghost var content := Content(ContentOf(e));
    var todo := wanted.Keys;
    AmongNoneOrAll(content, wanted);
    assert wanted.Keys - todo == {};
    while todo != {}
      invariant todo <= wanted.Keys
      invariant if e != null then e' == e else e' == null || fresh(e')
      invariant Content(ContentOf(e')) == content + MetadataAmong(wanted, wanted.Keys - todo)
      decreases todo
    {
      var k :| k in todo;
      OneMoreEntry(content, wanted, wanted.Keys - todo, k);
      assert wanted.Keys - (todo - {k}) == wanted.Keys - todo + {k};
      if HasPrefix(k, METADATA_PREFIX) {
        e' := SetEntry(e', k, wanted[k]);
      }
      todo := todo - {k};
    }
    assert wanted.Keys - {} == wanted.Keys;
  }

  /** Sets the label that lets a cluster go with its last request, unless it is set already. */
  method EnsureDefaultLabel(e: Entries?) returns (e': Entries)
    modifies e
    ensures e'.content == DEFAULT_LABELS + Content(old(ContentOf(e)))
    ensures if e != null then e' == e else fresh(e')
  {
    if e != null && DELETE_WITHOUT_REQUESTS_LABEL in e.content {
      assert e.content == DEFAULT_LABELS + e.content;
      e' := e;
    } else {
      ghost var before := Content(ContentOf(e));
      e' := SetEntry(e, DELETE_WITHOUT_REQUESTS_LABEL, "true");
      assert before[DELETE_WITHOUT_REQUESTS_LABEL := "true"] == DEFAULT_LABELS + before;
    }
  }

  /** Only exclusive clusters get metadata of their request. */
  method PropagateMetadata(e: Entries?, wanted: Labels, exclusive: bool) returns (e': Entries?)
    modifies e
    ensures Content(ContentOf(e')) == Content(old(ContentOf(e))) + if exclusive then MetadataOf(wanted) else map[]
    ensures if e != null then e' == e else e' == null || fresh(e')
  {
    hide MetadataOf;
    e' := e;
    if exclusive {
      e' := SetMetadata(e, wanted);
    }
  }

  class Template {
    const labels: Entries?
    const annotations: Entries?
    const exclusive: bool

    ghost predicate Valid() {
      labels != null ==> labels != annotations
    }

    constructor (labels: Entries?, annotations: Entries?, exclusive: bool)
      requires labels != null ==> labels != annotations
      ensures Valid() && this.labels == labels && this.annotations == annotations && this.exclusive == exclusive
    {
      this.labels, this.annotations, this.exclusive := labels, annotations, exclusive;
    }

    /** The labels and annotations of a new cluster, which are the template's maps if there are such. */
    method NewClusterMetadata(r: ClusterRequest) returns (clusterLabels: Entries, clusterAnnotations: Entries?)
      requires Valid()
      modifies labels, annotations
      ensures clusterLabels.content == EntriesOfNew(old(ContentOf(labels)), DEFAULT_LABELS, r.labels, exclusive)
      ensures Content(ContentOf(clusterAnnotations)) == EntriesOfNew(old(ContentOf(annotations)), map[], r.annotations, exclusive)
      ensures ContentOf(labels) == Used(old(ContentOf(labels)), DEFAULT_LABELS, r.labels, exclusive)
      ensures ContentOf(annotations) == Used(old(ContentOf(annotations)), map[], r.annotations, exclusive)
      ensures labels != null ==> clusterLabels == labels
      ensures annotations != null ==> clusterAnnotations == annotations
    {
      hide MetadataOf, DEFAULT_LABELS;
      ghost var l, a := ContentOf(labels), ContentOf(annotations);
      clusterLabels := EnsureDefaultLabel(labels);
      assert ContentOf(annotations) == a && map[] + Content(a) == Content(a);
      clusterAnnotations := PropagateMetadata(annotations, r.annotations, exclusive);
      assert clusterLabels.content == DEFAULT_LABELS + Content(l);
      clusterLabels := PropagateMetadata(clusterLabels, r.labels, exclusive);
    }
  }

  // ---------- clusters made one after the other ----------

  /** The value of the last one of the requests that have the key. */
  function Latest(earlier: seq<Labels>, x: string): Option<string> {
    if earlier == [] then None
    else if x in earlier[|earlier| - 1] then Some(earlier[|earlier| - 1][x])
    else Latest(earlier[..|earlier| - 1], x)
  }

  predicate IsMetadata(x: string) {
    "metadata.open-control-plane.io/" <= x
  }

  lemma AgreedPrefix()
    ensures METADATA_PREFIX == "metadata.open-control-plane.io/"
  {
  }

  lemma {:induction false} TemplateCollects(template: Option<Labels>, defaults: Labels, earlier: seq<Labels>, exclusive: bool, x: string)
    ensures
      var after := UsedFor(template, defaults, earlier, exclusive);
      && (after.Some? <==> template.Some?)
      && At(defaults + Content(after), x) ==
         if template.Some? && exclusive && IsMetadata(x) && Latest(earlier, x).Some? then Latest(earlier, x)
         else At(defaults + Content(template), x)
  {
    AgreedPrefix();
    if earlier != [] {
      TemplateCollects(template, defaults, earlier[..|earlier| - 1], exclusive, x);
    }
  }

  /** What a new cluster gets, over all clusters that have been made from the template in memory: for metadata
      of exclusive clusters the value of the request itself, or else, if the template has a map, that of the
      latest earlier request which had one; for all other keys what the template says, or the default. */
  lemma EntryOfNextCluster(template: Option<Labels>, defaults: Labels, earlier: seq<Labels>, wanted: Labels, exclusive: bool, x: string)
    ensures
      At(EntriesOfNew(UsedFor(template, defaults, earlier, exclusive), defaults, wanted, exclusive), x) ==
      if exclusive && IsMetadata(x) && x in wanted then Some(wanted[x])
      else if exclusive && IsMetadata(x) && template.Some? && Latest(earlier, x).Some? then Latest(earlier, x)
      else if template.Some? && x in template.value then Some(template.value[x])
      else At(defaults, x)
  {
    hide Latest, UsedFor;
    AgreedPrefix();
    TemplateCollects(template, defaults, earlier, exclusive, x);
  }

  /** Metadata of an earlier request, which the new one does not have, and which the template has otherwise
      or not at all. */
  predicate Strange(template: Option<Labels>, earlier: seq<Labels>, wanted: Labels, x: string) {
    IsMetadata(x) && x !in wanted && Latest(earlier, x).Some? && At(Content(template), x) != Latest(earlier, x)
  }

  lemma NoneBefore(template: Option<Labels>, defaults: Labels, exclusive: bool)
    ensures UsedFor(template, defaults, [], exclusive) == template
    ensures forall x :: Latest([], x) == None
  {
  }

  /** A new cluster is made as if its template were new exactly if it is shared, or the template has no map, or
      there is no metadata that only earlier requests have. */
  lemma NextClusterIsCleanIff(template: Option<Labels>, defaults: Labels, earlier: seq<Labels>, wanted: Labels, exclusive: bool)
    requires forall x :: x in defaults ==> !IsMetadata(x)
    ensures
      && EntriesOfNew(UsedFor(template, defaults, earlier, exclusive), defaults, wanted, exclusive)
         == EntriesOfNew(template, defaults, wanted, exclusive)
      <==> !exclusive || template.None? || forall x :: !Strange(template, earlier, wanted, x)
  {
    hide Latest, UsedFor, EntriesOfNew;
    var next := EntriesOfNew(UsedFor(template, defaults, earlier, exclusive), defaults, wanted, exclusive);
    var first := EntriesOfNew(template, defaults, wanted, exclusive);
    NoneBefore(template, defaults, exclusive);
    forall x ensures At(next, x) == At(first, x) <==> !exclusive || template.None? || !Strange(template, earlier, wanted, x) {
      EntryOfNextCluster(template, defaults, earlier, wanted, exclusive, x);
      EntryOfNextCluster(template, defaults, [], wanted, exclusive, x);
    }
    if forall x :: At(next, x) == At(first, x) {
      SameEntries(next, first);
    }
  }

  lemma SameEntries(m: Labels, m': Labels)
    requires forall x :: At(m, x) == At(m', x)
    ensures m == m'
  {
    forall x ensures x in m <==> x in m' {
      assert At(m, x) == At(m', x);
    }
    forall x | x in m ensures m[x] == m'[x] {
      assert At(m, x) == At(m', x);
    }
  }

  /** All clusters of a definition are made as if the template were new exactly if the clusters are shared or
      the template has no map. */
  lemma AllClustersAreCleanIff(template: Option<Labels>, defaults: Labels, exclusive: bool)
    requires forall x :: x in defaults ==> !IsMetadata(x)
    ensures
      && (forall earlier, wanted ::
            EntriesOfNew(UsedFor(template, defaults, earlier, exclusive), defaults, wanted, exclusive)
            == EntriesOfNew(template, defaults, wanted, exclusive))
      <==> !exclusive || template.None?
  {
    hide UsedFor, EntriesOfNew;
    if !exclusive || template.None? {
      forall earlier, wanted {
        NextClusterIsCleanIff(template, defaults, earlier, wanted, exclusive);
      }
    } else {
      var x := "metadata.open-control-plane.io/";
      var value := if At(template.value, x) == Some("") then "other" else "";
      NextClusterIsCleanIff(template, defaults, [map[x := value]], map[], exclusive);
      assert Strange(template, [map[x := value]], map[], x);
    }
  }

  /** The first cluster that is made from a template is the one that the scheduler's decisions are about. */
  lemma FirstClusterIsAsDecided(r: ClusterRequest, d: Definition)
    ensures
      var exclusive := d.template.spec.tenancy == Exclusive;
      && NewCluster(r, d).labels == EntriesOfNew(Some(d.template.labels), DEFAULT_LABELS, r.labels, exclusive)
      && NewCluster(r, d).annotations == EntriesOfNew(Some(d.template.annotations), map[], r.annotations, exclusive)
      && (d.template.labels == map[] ==> NewCluster(r, d).labels == EntriesOfNew(None, DEFAULT_LABELS, r.labels, exclusive))
      && (d.template.annotations == map[] ==> NewCluster(r, d).annotations == EntriesOfNew(None, map[], r.annotations, exclusive))
  {
    DefaultsFirst(d.template.labels);
    var exclusive := d.template.spec.tenancy == Exclusive;
    assert NewCluster(r, d).labels == WithDefaultLabel(d.template.labels) + if exclusive then MetadataOf(r.labels) else map[];
    assert map[] + d.template.annotations == d.template.annotations;
  }

  lemma DefaultsFirst(labels: Labels)
    ensures WithDefaultLabel(labels) == DEFAULT_LABELS + labels
  {
  }

  /** The one default label is no metadata. */
  lemma DefaultIsNoMetadata(x: string)
    requires x in DEFAULT_LABELS
    ensures x == "clusters.openmcp.cloud/delete-without-requests" && DEFAULT_LABELS[x] == "true" && !IsMetadata(x)
  {
    AgreedPrefix();
    assert METADATA_PREFIX[0] != DELETE_WITHOUT_REQUESTS_LABEL[0];
  }
}
