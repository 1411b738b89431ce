/**
 * The data model of the current simulator (pkg/metrics/metrics.go): a
 * Collection owns Metrics, a Metric owns MetricItems.
 *
 * Collection and Metric are classes because the source updates them in place
 * through pointers (AddMetric appends to Collection.Metrics, AddItem appends
 * to Metric.Items and may set Metric.Labels, the converter assigns
 * Metric.Type). A MetricItem is never changed once stored, so it is a value.
 * Each class has a value view (`Value()`); the guarded constructors are
 * specified by pure functions on those values (AddMetricTo, AddItemTo), and
 * the properties of the data model are lemmas about the pure functions.
 */
module MetricsModel {
  import opened GoText
  import opened GoSort
  import opened Common

  /**
   * One label assignment and the rule generating its value. Min and Max are
   * float64 in the source (IEEE rounding is not modelled); Interval is a
   * time.Duration, a count of nanoseconds.
   */
  datatype MetricItem = MetricItem(min: real, max: real, func: string, interval: int, labels: map<string, string>)

  /**
   * The value of a Metric. `kind` is the source's Type field. `labels` is
   * None for a nil slice: AddItem distinguishes nil from a non-nil slice.
   */
  datatype MetricValue = MetricValue(name: string, help: string, kind: string, labels: Option<seq<string>>, items: seq<MetricItem>)

  datatype CollectionValue = CollectionValue(version: string, metrics: seq<MetricValue>)

  /** The errors AddMetric and AddItem return. */
  datatype ModelError =
    | NameRequired
    | AlreadyInCollection(name: string)
    | LabelMismatch(want: seq<string>, got: seq<string>)

  /** A nil slice reads as an empty one wherever the source takes its length or ranges over it. */
  function Flat(labels: Option<seq<string>>): seq<string>
  {
    if labels.Some? then labels.value else []
  }

  /** The position GetMetric's loop stops at: the first metric with the name. */
  function IndexOfName(metrics: seq<MetricValue>, n: string): (r: Option<nat>)
    ensures r.Some? ==> r.value < |metrics| && metrics[r.value].name == n
    ensures r.Some? ==> forall j :: 0 <= j < r.value ==> metrics[j].name != n
    ensures r.None? <==> forall j :: 0 <= j < |metrics| ==> metrics[j].name != n
  {
    if |metrics| == 0 then None
    else if metrics[0].name == n then Some(0)
    else
      var rest := IndexOfName(metrics[1..], n);
      assert forall j :: 1 <= j < |metrics| ==> metrics[j] == metrics[1..][j - 1];
      if rest.Some? then Some(rest.value + 1) else None
  }

  /** The metric names of a collection are pairwise distinct. */
  ghost predicate DistinctNames(metrics: seq<MetricValue>)
  {
    forall i, j :: 0 <= i < j < |metrics| ==> metrics[i].name != metrics[j].name
  }

  /** Collection.AddMetric on values. */
  function AddMetricTo(c: CollectionValue, m: MetricValue): Result<CollectionValue, ModelError>
  {
    if m.name == "" then Err(NameRequired)
    else if IndexOfName(c.metrics, m.name).Some? then Err(AlreadyInCollection(m.name))
    else Ok(c.(metrics := c.metrics + [m]))
  }

  /**
   * AddMetric fails exactly on an empty name or a name already present; on
   * success it appends the metric at the end and leaves the version and the
   * earlier metrics as they were.
   */
  lemma AddMetricSpec(c: CollectionValue, m: MetricValue)
    ensures AddMetricTo(c, m).Err? <==> m.name == "" || exists j :: 0 <= j < |c.metrics| && c.metrics[j].name == m.name
    ensures AddMetricTo(c, m).Ok? ==>
      var c' := AddMetricTo(c, m).value;
      c'.version == c.version && |c'.metrics| == |c.metrics| + 1 &&
      c'.metrics[..|c.metrics|] == c.metrics && c'.metrics[|c.metrics|] == m
  {
    if AddMetricTo(c, m).Ok? {
      assert (c.metrics + [m])[..|c.metrics|] == c.metrics;
    }
  }

  /**
   * Names added through AddMetric stay pairwise distinct, and afterwards
   * GetMetric finds the new metric (at the end).
   */
  lemma {:induction false} AddMetricKeepsNamesDistinct(c: CollectionValue, m: MetricValue)
    requires DistinctNames(c.metrics)
    requires AddMetricTo(c, m).Ok?
    ensures DistinctNames(AddMetricTo(c, m).value.metrics)
    ensures IndexOfName(AddMetricTo(c, m).value.metrics, m.name) == Some(|c.metrics|)
  {
    var ms := c.metrics + [m];
    assert AddMetricTo(c, m).value.metrics == ms;
    assert forall j :: 0 <= j < |c.metrics| ==> ms[j].name != m.name;
    assert ms[|c.metrics|].name == m.name;
    assert forall i, j :: 0 <= i < j < |ms| ==> ms[i].name != ms[j].name by {
      forall i, j | 0 <= i < j < |ms| ensures ms[i].name != ms[j].name {
        if j < |c.metrics| {
          assert ms[i] == c.metrics[i] && ms[j] == c.metrics[j];
        }
      }
    }
  }

  /** The label names of an item, collected from its map and sorted. */
  ghost function ItemLabelNames(item: MetricItem): (names: seq<string>)
    ensures Sorted(names) && multiset(names) == multiset(item.labels.Keys)
  {
    SortedKeys(item.labels.Keys)
  }

  /**
   * Metric.AddItem on values. `var labelNames []string` stays nil when the
   * item has no labels, so a metric without labels keeps a nil Labels.
   */
  ghost function AddItemTo(m: MetricValue, item: MetricItem): Result<MetricValue, ModelError>
  {
    var names := ItemLabelNames(item);
    if m.labels.None? then
      Ok(m.(labels := if names == [] then None else Some(names), items := m.items + [item]))
    else if !StringSlicesEqual(m.labels.value, names) then
      Err(LabelMismatch(m.labels.value, names))
    else
      Ok(m.(items := m.items + [item]))
  }

  /**
   * AddItem: a metric without labels adopts the item's sorted label names; a
   * metric with labels accepts exactly the items whose label keys, sorted, are
   * its label list element for element, that is, when the list is sorted and
   * holds exactly the keys. A refused item changes nothing; on success exactly
   * one item is appended and name, help and type are untouched.
   */
  lemma AddItemSpec(m: MetricValue, item: MetricItem)
    ensures m.labels.Some? ==>
      (AddItemTo(m, item).Ok? <==> Sorted(m.labels.value) && multiset(m.labels.value) == multiset(item.labels.Keys))
    ensures m.labels.None? ==> AddItemTo(m, item).Ok?
    ensures AddItemTo(m, item).Ok? ==>
      var m' := AddItemTo(m, item).value;
      m'.items == m.items + [item] && m'.name == m.name && m'.help == m.help && m'.kind == m.kind &&
      (m.labels.Some? ==> m'.labels == m.labels) &&
      (m.labels.None? ==> multiset(Flat(m'.labels)) == multiset(item.labels.Keys) && Sorted(Flat(m'.labels)))
  {
    if m.labels.Some? {
      var names := ItemLabelNames(item);
      StringSlicesEqualIsEquality(m.labels.value, names);
      if Sorted(m.labels.value) && multiset(m.labels.value) == multiset(item.labels.Keys) {
        SortedUnique(m.labels.value, names);
      }
    }
  }

  /**
   * An item without labels does not establish the metric's label list: the
   * next item, whatever labels it has, is adopted instead of being checked.
   */
  lemma UnlabelledItemLeavesLabelsOpen(m: MetricValue, first: MetricItem, second: MetricItem)
    requires m.labels.None? && first.labels == map[]
    ensures AddItemTo(m, first).Ok? && AddItemTo(m, first).value.labels.None?
    ensures AddItemTo(AddItemTo(m, first).value, second).Ok?
  {
    assert ItemLabelNames(first) == [] by {
      assert multiset(ItemLabelNames(first)) == multiset{};
    }
  }

  /**
   * The label invariant AddItem keeps: the label list, once set, is sorted
   * and every item that has labels carries exactly those label names; items
   * without labels may precede the first labelled one.
   */
  ghost predicate LabelsAgree(m: MetricValue)
  {
    match m.labels
    case None => forall k :: 0 <= k < |m.items| ==> m.items[k].labels == map[]
    case Some(names) =>
      Sorted(names) &&
      forall k :: 0 <= k < |m.items| ==>
        m.items[k].labels == map[] || multiset(names) == multiset(m.items[k].labels.Keys)
  }

  lemma AddItemKeepsLabelsAgree(m: MetricValue, item: MetricItem)
    requires LabelsAgree(m) && AddItemTo(m, item).Ok?
    ensures LabelsAgree(AddItemTo(m, item).value)
  {
    AddItemSpec(m, item);
    var m' := AddItemTo(m, item).value;
    var names := ItemLabelNames(item);
    if m.labels.None? && names == [] {
      assert item.labels.Keys == {} by {
        assert multiset(item.labels.Keys) == multiset{};
      }
      assert item.labels == map[];
    }
    assert m'.items[..|m.items|] == m.items;
    forall k | 0 <= k < |m'.items|
      ensures m'.items[k] == (if k < |m.items| then m.items[k] else item)
    {
    }
  }

  /** Metrics with the same names at the same positions have the same lookups and the same distinctness. */
  lemma SameNames(ms: seq<MetricValue>, ms': seq<MetricValue>, n: string)
    requires |ms| == |ms'| && forall k :: 0 <= k < |ms| ==> ms[k].name == ms'[k].name
    ensures IndexOfName(ms, n) == IndexOfName(ms', n)
    ensures DistinctNames(ms) <==> DistinctNames(ms')
  {
    var a, b := IndexOfName(ms, n), IndexOfName(ms', n);
    if a.Some? {
      assert ms'[a.value].name == n;
      assert b.Some? && b.value <= a.value;
    }
    if b.Some? {
      assert ms[b.value].name == n;
      assert a.Some? && a.value <= b.value;
    }
  }

  /**
   * Ranging over a label map to collect its keys, in whatever order the map
   * yields them, and sorting them with sort.Strings.
   */
  method CollectLabelNames(labels: map<string, string>) returns (names: seq<string>)
    ensures names == SortedKeys(labels.Keys)
  {
    names := [];
    var rest := labels.Keys;
    while rest != {}
      invariant multiset(names) + multiset(rest) == multiset(labels.Keys)
      decreases |rest|
    {
      var k :| k in rest;
      assert multiset(rest) == multiset(rest - {k}) + multiset{k};
      names := names + [k];
      rest := rest - {k};
    }
    SortAnyListing(names, labels.Keys);
    names := Sort(names);
  }

  /** The value of one element of a sequence of Metric objects. */
  function Values(ms: seq<Metric>): (vs: seq<MetricValue>)
    reads ms
    ensures |vs| == |ms| && forall i :: 0 <= i < |ms| ==> vs[i] == ms[i].Value()
  {
    if ms == [] then [] else [ms[0].Value()] + Values(ms[1..])
  }

  /** A sequence of Metric objects whose values are, one by one, the given values. */
  lemma ValuesAre(ms: seq<Metric>, vs: seq<MetricValue>)
    requires |ms| == |vs| && forall k :: 0 <= k < |ms| ==> ms[k].Value() == vs[k]
    ensures Values(ms) == vs
  {
  }

  /** A Metric; the source's `parent` back-pointer and registry handles are not modelled. */
  class Metric {
    var name: string
    var help: string
    var kind: string
    var labels: Option<seq<string>>
    var items: seq<MetricItem>

    function Value(): MetricValue
      reads this
    {
      MetricValue(name, help, kind, labels, items)
    }

    /** &m for a Metric value m: a new object holding that value */
    constructor (v: MetricValue)
      ensures Value() == v
    {
      name, help, kind, labels, items := v.name, v.help, v.kind, v.labels, v.items;
    }

    /** Metric.AddItem */
    method AddItem(item: MetricItem) returns (err: Option<ModelError>)
      modifies this
      ensures AddItemTo(old(Value()), item).Ok? ==> err.None? && Value() == AddItemTo(old(Value()), item).value
      ensures AddItemTo(old(Value()), item).Err? ==> err == Some(AddItemTo(old(Value()), item).error) && Value() == old(Value())
    {
      var labelNames := CollectLabelNames(item.labels);
      if labels.None? {
        labels := if labelNames == [] then None else Some(labelNames);
      } else if !StringSlicesEqual(labels.value, labelNames) {
        return Some(LabelMismatch(labels.value, labelNames));
      }
      items := items + [item];
      return None;
    }
  }

  /** A Collection: the root of the model. */
  class Collection {
    var version: string
    var metrics: seq<Metric>

    /** Every Metric object is held once. */
    ghost predicate Valid()
      reads this
    {
      forall i, j :: 0 <= i < j < |metrics| ==> metrics[i] != metrics[j]
    }

    function Value(): CollectionValue
      reads this, metrics
    {
      CollectionValue(version, Values(metrics))
    }

    constructor (version: string)
      ensures Valid() && this.version == version && metrics == []
      ensures Value() == CollectionValue(version, [])
    {
      this.version := version;
      metrics := [];
    }

    /**
     * GetMetric: the first metric bearing the name, or nothing exactly when
     * no metric bears it.
     */
    function GetMetric(n: string): (r: Option<Metric>)
      reads this, metrics
      ensures r.None? <==> forall j :: 0 <= j < |metrics| ==> metrics[j].name != n
      ensures r.Some? ==> exists i :: 0 <= i < |metrics| && r.value == metrics[i] && metrics[i].name == n &&
                                   forall j :: 0 <= j < i ==> metrics[j].name != n
      ensures r.Some? <==> IndexOfName(Value().metrics, n).Some?
      ensures r.Some? ==> r.value == metrics[IndexOfName(Value().metrics, n).value]
    {
      var i := IndexOfName(Values(metrics), n);
      if i.Some? then Some(metrics[i.value]) else None
    }

    /** Collection.AddMetric: appends a new Metric object holding m. */
    method AddMetric(m: MetricValue) returns (err: Option<ModelError>, added: Metric?)
      requires Valid()
      modifies this
      ensures Valid() && version == old(version)
      ensures AddMetricTo(old(Value()), m).Ok? ==>
        err.None? && added != null && fresh(added) && metrics == old(metrics) + [added] &&
        Value() == AddMetricTo(old(Value()), m).value
      ensures AddMetricTo(old(Value()), m).Err? ==>
        err == Some(AddMetricTo(old(Value()), m).error) && added == null && metrics == old(metrics)
    {
      if m.name == "" {
        return Some(NameRequired), null;
      }
      var existing := GetMetric(m.name);
      if existing.Some? {
        return Some(AlreadyInCollection(m.name)), null;
      }
      ghost var vs := Values(metrics);
      added := new Metric(m);
      metrics := metrics + [added];
      err := None;
      ValuesAre(metrics, vs + [m]);
    }
  }
}
