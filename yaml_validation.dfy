/**
 * Loading a simulation from YAML (pkg/metrics/metrics.go, FromYamlFile): after
 * the document has been decoded into a Collection, every metric and item is
 * checked, all problems are collected (validation does not stop at the first
 * one), and the collection is accepted only when none was found.
 *
 * Reading the file and decoding the YAML are not modelled: the method starts
 * from the decoded Collection. Decoding bypasses AddMetric and AddItem, which
 * is why the checks are repeated here.
 */
module YamlValidation {
  import opened GoText
  import opened GoSort
  import opened Common
  import opened MetricsModel
  import opened Waveform

  /** One problem found in a decoded collection, in the order they are reported. */
  datatype Finding =
    | MissingVersion
    | NoMetrics
    | UnknownType(metric: string, kind: string)
    | NoItems(metric: string)
    | MinAboveMax(metric: string)
    | UnknownFunc(metric: string, func: string)
    | InvalidInterval(metric: string)
    | LabelsDiffer(metric: string, itemKeys: seq<string>, metricLabels: seq<string>)

  /** fmt's %q, without escaping of special characters */
  function Quote(s: string): string
  {
    "\"" + s + "\""
  }

  /** fmt's %v of a []string */
  function ListText(s: seq<string>): string
  {
    "[" + Join(s, " ") + "]"
  }

  /** The message of each finding. */
  function Text(f: Finding): string
  {
    match f
    case MissingVersion => "missing version"
    case NoMetrics => "metrics must have one or more elements"
    case UnknownType(m, k) => "metric " + m + ": Unknown type " + Quote(k) + ". Must be one of gauge, counter, summary, histogram"
    case NoItems(m) => "metric " + m + ": Must have at least one metricitem"
    case MinAboveMax(m) => "metric " + m + ": min > max"
    case UnknownFunc(m, fn) => "metric " + m + ": Unknown func " + Quote(fn) + ". Must be one of rand, asc, desc, sin"
    case InvalidInterval(m) => "metric " + m + ": Invalid interval. Must be 1s or longer"
    case LabelsDiffer(m, keys, labels) => "metric " + m + ": Label mismatch. Item=" + ListText(keys) + ", matric=" + ListText(labels)
  }

  function Texts(fs: seq<Finding>): (ts: seq<string>)
    ensures |ts| == |fs| && forall i :: 0 <= i < |fs| ==> ts[i] == Text(fs[i])
  {
    if fs == [] then [] else [Text(fs[0])] + Texts(fs[1..])
  }

  /** The error FromYamlFile returns when findings were collected. */
  function ErrorMessage(fs: seq<Finding>): string
  {
    "input has " + Itoa(|fs|) + " validation errors: " + Numbered(Texts(fs), 1)
  }

  /** sort.Strings on a possibly nil slice: nil stays nil. */
  function SortLabels(labels: Option<seq<string>>): Option<seq<string>>
  {
    if labels.Some? then Some(Sort(labels.value)) else None
  }

  /**
   * Sorting keeps nil as nil and a present list present, sorts it, keeps its
   * contents, and a second sort changes nothing.
   */
  lemma SortLabelsIdempotent(labels: Option<seq<string>>)
    ensures SortLabels(labels).None? <==> labels.None?
    ensures Sorted(Flat(SortLabels(labels))) && multiset(Flat(SortLabels(labels))) == multiset(Flat(labels))
    ensures SortLabels(SortLabels(labels)) == SortLabels(labels)
    ensures Flat(SortLabels(labels)) == Sort(Flat(labels))
  {
    if labels.Some? {
      SortOfSorted(Sort(labels.value));
    }
  }

  /**
   * The checks of one item, in the order the source makes them; `labels` is
   * the metric's label list after sorting.
   */
  ghost function ItemFindings(name: string, labels: seq<string>, item: MetricItem): seq<Finding>
  {
    var keys := ItemLabelNames(item);
    (if item.min > item.max then [MinAboveMax(name)] else []) +
    (if !IsInSlice(item.func, ValidFunctions) then [UnknownFunc(name, item.func)] else []) +
    (if item.interval == 0 then [InvalidInterval(name)] else []) +
    (if !StringSlicesEqual(keys, labels) then [LabelsDiffer(name, keys, labels)] else [])
  }

  /** The checks of each element of xs, one after the other. */
  ghost function Flatten<T>(check: T -> seq<Finding>, xs: seq<T>): seq<Finding>
    decreases |xs|
  {
    if xs == [] then [] else Flatten(check, xs[..|xs| - 1]) + check(xs[|xs| - 1])
  }

  ghost function ItemCheck(name: string, labels: seq<string>): MetricItem -> seq<Finding>
  {
    item => ItemFindings(name, labels, item)
  }

  /** The checks of all items of a metric, in order. */
  ghost function ItemsFindings(name: string, labels: seq<string>, items: seq<MetricItem>): seq<Finding>
  {
    Flatten(ItemCheck(name, labels), items)
  }

  ghost function TypeFindings(m: MetricValue): seq<Finding>
  {
    if !IsInSlice(m.kind, ValidMetricTypes) then [UnknownType(m.name, m.kind)] else []
  }

  ghost function MetricFindings(m: MetricValue): seq<Finding>
  {
    TypeFindings(m) +
    (if |m.items| == 0 then [NoItems(m.name)] else ItemsFindings(m.name, Sort(Flat(m.labels)), m.items))
  }

  ghost function MetricCheck(): MetricValue -> seq<Finding>
  {
    m => MetricFindings(m)
  }

  /** The checks of all metrics, in order. */
  ghost function MetricsFindings(ms: seq<MetricValue>): seq<Finding>
  {
    Flatten(MetricCheck(), ms)
  }

  ghost function HeadFindings(c: CollectionValue): seq<Finding>
  {
    (if c.version == "" then [MissingVersion] else []) +
    (if |c.metrics| == 0 then [NoMetrics] else [])
  }

  /** Everything FromYamlFile reports about a decoded collection, in order. */
  ghost function Findings(c: CollectionValue): seq<Finding>
  {
    HeadFindings(c) + MetricsFindings(c.metrics)
  }

  /** The one change validation makes: the label list of every metric that has items gets sorted. */
  function Validated(m: MetricValue): MetricValue
  {
    if |m.items| == 0 then m else m.(labels := SortLabels(m.labels))
  }

  function ValidatedAll(ms: seq<MetricValue>): (r: seq<MetricValue>)
    ensures |r| == |ms| && forall i :: 0 <= i < |ms| ==> r[i] == Validated(ms[i])
  {
    if ms == [] then [] else [Validated(ms[0])] + ValidatedAll(ms[1..])
  }

  /** An item passes its checks, stated without the sort: labels are compared as a multiset. */
  ghost predicate ItemOk(labels: Option<seq<string>>, item: MetricItem)
  {
    item.min <= item.max && IsInSlice(item.func, ValidFunctions) && item.interval != 0 &&
    multiset(Flat(labels)) == multiset(item.labels.Keys)
  }

  ghost predicate MetricOk(m: MetricValue)
  {
    IsInSlice(m.kind, ValidMetricTypes) && |m.items| > 0 &&
    forall j :: 0 <= j < |m.items| ==> ItemOk(m.labels, m.items[j])
  }

  /** What a collection must satisfy to be loaded. */
  ghost predicate WellFormed(c: CollectionValue)
  {
    c.version != "" && |c.metrics| > 0 && forall i :: 0 <= i < |c.metrics| ==> MetricOk(c.metrics[i])
  }

  lemma ItemFindingsEmpty(name: string, labels: Option<seq<string>>, item: MetricItem)
    ensures ItemFindings(name, Sort(Flat(labels)), item) == [] <==> ItemOk(labels, item)
  {
    var keys := ItemLabelNames(item);
    StringSlicesEqualIsEquality(keys, Sort(Flat(labels)));
    SortedKeysMatch(item.labels.Keys, Flat(labels));
  }

  lemma {:induction false} FlattenEmpty<T>(check: T -> seq<Finding>, xs: seq<T>)
    ensures Flatten(check, xs) == [] <==> forall i :: 0 <= i < |xs| ==> check(xs[i]) == []
    decreases |xs|
  {
    if xs != [] {
      var init := xs[..|xs| - 1];
      FlattenEmpty(check, init);
      assert forall i :: 0 <= i < |init| ==> init[i] == xs[i];
    }
  }

  lemma {:induction false} FlattenIncludes<T>(check: T -> seq<Finding>, xs: seq<T>, i: int, f: Finding)
    requires 0 <= i < |xs| && f in check(xs[i])
    ensures f in Flatten(check, xs)
    decreases |xs|
  {
    if i < |xs| - 1 {
      var init := xs[..|xs| - 1];
      assert init[i] == xs[i];
      FlattenIncludes(check, init, i, f);
    }
  }

  lemma FlattenStep<T>(check: T -> seq<Finding>, xs: seq<T>, j: int)
    requires 0 <= j < |xs|
    ensures Flatten(check, xs[..j + 1]) == Flatten(check, xs[..j]) + check(xs[j])
  {
    assert xs[..j + 1][..j] == xs[..j];
  }

  lemma {:induction false} FlattenPointwise<T>(check: T -> seq<Finding>, xs: seq<T>, ys: seq<T>)
    requires |xs| == |ys| && forall i :: 0 <= i < |xs| ==> check(xs[i]) == check(ys[i])
    ensures Flatten(check, xs) == Flatten(check, ys)
    decreases |xs|
  {
    if xs != [] {
      FlattenPointwise(check, xs[..|xs| - 1], ys[..|ys| - 1]);
    }
  }

  lemma ItemsFindingsEmpty(name: string, labels: Option<seq<string>>, items: seq<MetricItem>)
    ensures ItemsFindings(name, Sort(Flat(labels)), items) == [] <==> forall j :: 0 <= j < |items| ==> ItemOk(labels, items[j])
  {
    var check := ItemCheck(name, Sort(Flat(labels)));
    FlattenEmpty(check, items);
    forall j | 0 <= j < |items|
      ensures check(items[j]) == [] <==> ItemOk(labels, items[j])
    {
      ItemFindingsEmpty(name, labels, items[j]);
    }
  }

  lemma MetricFindingsEmpty(m: MetricValue)
    ensures MetricFindings(m) == [] <==> MetricOk(m)
  {
    ItemsFindingsEmpty(m.name, m.labels, m.items);
  }

  lemma MetricsFindingsEmpty(ms: seq<MetricValue>)
    ensures MetricsFindings(ms) == [] <==> forall i :: 0 <= i < |ms| ==> MetricOk(ms[i])
  {
    FlattenEmpty(MetricCheck(), ms);
    forall i | 0 <= i < |ms|
      ensures MetricCheck()(ms[i]) == [] <==> MetricOk(ms[i])
    {
      MetricFindingsEmpty(ms[i]);
    }
  }

  /**
   * A collection is accepted exactly when it has a version and at least one
   * metric, every metric has a known type and at least one item, and every
   * item has Min <= Max, a known function, a nonzero interval and label keys
   * that are the metric's label names.
   */
  lemma FindingsEmptyIff(c: CollectionValue)
    ensures Findings(c) == [] <==> WellFormed(c)
  {
    MetricsFindingsEmpty(c.metrics);
  }

  /**
   * Validation does not stop at the first problem: every failing check of
   * every metric and item appears among the findings.
   */
  lemma EveryMetricProblemReported(c: CollectionValue, i: int)
    requires 0 <= i < |c.metrics|
    ensures !IsInSlice(c.metrics[i].kind, ValidMetricTypes) ==>
      UnknownType(c.metrics[i].name, c.metrics[i].kind) in Findings(c)
    ensures |c.metrics[i].items| == 0 ==> NoItems(c.metrics[i].name) in Findings(c)
  {
    var m := c.metrics[i];
    if !IsInSlice(m.kind, ValidMetricTypes) {
      assert UnknownType(m.name, m.kind) in MetricFindings(m);
      FlattenIncludes(MetricCheck(), c.metrics, i, UnknownType(m.name, m.kind));
    }
    if |m.items| == 0 {
      assert NoItems(m.name) in MetricFindings(m);
      FlattenIncludes(MetricCheck(), c.metrics, i, NoItems(m.name));
    }
  }

  lemma ItemFindingReported(c: CollectionValue, i: int, j: int, f: Finding)
    requires 0 <= i < |c.metrics| && 0 <= j < |c.metrics[i].items|
    requires f in ItemFindings(c.metrics[i].name, Sort(Flat(c.metrics[i].labels)), c.metrics[i].items[j])
    ensures f in Findings(c)
  {
    var m := c.metrics[i];
    FlattenIncludes(ItemCheck(m.name, Sort(Flat(m.labels))), m.items, j, f);
    assert f in MetricFindings(m);
    FlattenIncludes(MetricCheck(), c.metrics, i, f);
  }

  lemma EveryItemProblemReported(c: CollectionValue, i: int, j: int)
    requires 0 <= i < |c.metrics| && 0 <= j < |c.metrics[i].items|
    ensures var m := c.metrics[i];
      var item := m.items[j];
      (item.min > item.max ==> MinAboveMax(m.name) in Findings(c)) &&
      (!IsInSlice(item.func, ValidFunctions) ==> UnknownFunc(m.name, item.func) in Findings(c)) &&
      (item.interval == 0 ==> InvalidInterval(m.name) in Findings(c)) &&
      (multiset(Flat(m.labels)) != multiset(item.labels.Keys) ==>
         LabelsDiffer(m.name, ItemLabelNames(item), Sort(Flat(m.labels))) in Findings(c))
  {
    var m := c.metrics[i];
    var item := m.items[j];
    var labels := Sort(Flat(m.labels));
    var fs := ItemFindings(m.name, labels, item);
    if item.min > item.max {
      assert MinAboveMax(m.name) in fs;
      ItemFindingReported(c, i, j, MinAboveMax(m.name));
    }
    if !IsInSlice(item.func, ValidFunctions) {
      assert UnknownFunc(m.name, item.func) in fs;
      ItemFindingReported(c, i, j, UnknownFunc(m.name, item.func));
    }
    if item.interval == 0 {
      assert InvalidInterval(m.name) in fs;
      ItemFindingReported(c, i, j, InvalidInterval(m.name));
    }
    if multiset(Flat(m.labels)) != multiset(item.labels.Keys) {
      var f := LabelsDiffer(m.name, ItemLabelNames(item), labels);
      StringSlicesEqualIsEquality(ItemLabelNames(item), labels);
      SortedKeysMatch(item.labels.Keys, Flat(m.labels));
      assert f in fs;
      ItemFindingReported(c, i, j, f);
    }
  }

  /**
   * Validating the collection it leaves behind finds the same problems and
   * changes nothing more.
   */
  lemma {:induction false} ValidationIdempotent(c: CollectionValue)
    ensures ValidatedAll(ValidatedAll(c.metrics)) == ValidatedAll(c.metrics)
    ensures Findings(c.(metrics := ValidatedAll(c.metrics))) == Findings(c)
  {
    var vs := ValidatedAll(c.metrics);
    forall i | 0 <= i < |c.metrics|
      ensures Validated(vs[i]) == vs[i] && MetricFindings(vs[i]) == MetricFindings(c.metrics[i])
    {
      ValidatedTwice(c.metrics[i]);
    }
    assert ValidatedAll(vs) == vs;
    FlattenPointwise(MetricCheck(), vs, c.metrics);
    assert c.(metrics := vs).metrics == vs;
  }

  /** Validating one metric twice is validating it once, with the same findings. */
  lemma ValidatedTwice(m: MetricValue)
    ensures Validated(Validated(m)) == Validated(m)
    ensures MetricFindings(Validated(m)) == MetricFindings(m)
  {
    SortLabelsIdempotent(m.labels);
  }

  /**
   * After a successful load each metric with labels holds them sorted, and
   * AddItem accepts every one of its items again: validation and the guarded
   * constructor agree.
   */
  lemma LoadedMetricAcceptsItsItems(c: CollectionValue, i: int, j: int)
    requires Findings(c) == [] && 0 <= i < |c.metrics|
    requires 0 <= j < |c.metrics[i].items|
    ensures Sorted(Flat(Validated(c.metrics[i]).labels))
    ensures AddItemTo(Validated(c.metrics[i]), c.metrics[i].items[j]).Ok?
  {
    FindingsEmptyIff(c);
    var m := c.metrics[i];
    assert ItemOk(m.labels, m.items[j]);
    AddItemSpec(Validated(m), m.items[j]);
  }

  /**
   * A loaded item whose interval is positive only ever generates values
   * within [Min, Max] (refreshes at or after the start, rand.Float64 in
   * [0, 1)).
   */
  lemma LoadedItemStaysInRange(c: CollectionValue, i: int, j: int, start: int, now: int, draw: real, sinTurns: real -> real)
    requires Findings(c) == [] && 0 <= i < |c.metrics| && 0 <= j < |c.metrics[i].items|
    requires c.metrics[i].items[j].interval > 0
    requires now >= start && 0.0 <= draw < 1.0 && SineLike(sinTurns)
    ensures GenerateValue(c.metrics[i].items[j], start, now, draw, sinTurns).Value?
    ensures c.metrics[i].items[j].min <= GenerateValue(c.metrics[i].items[j], start, now, draw, sinTurns).v <= c.metrics[i].items[j].max
  {
    FindingsEmptyIff(c);
    assert ItemOk(c.metrics[i].labels, c.metrics[i].items[j]);
    ValueWithinRange(c.metrics[i].items[j], start, now, draw, sinTurns);
  }

  /** The example of a room temperature gauge: one metric labelled by room, one item. */
  function RoomItem(min: real, max: real): MetricItem
  {
    MetricItem(min, max, "rand", 60 * Second, map["room" := "a"])
  }

  function RoomMetric(min: real, max: real): MetricValue
  {
    MetricValue("temp", "", "gauge", Some(["room"]), [RoomItem(min, max)])
  }

  lemma RoomLabelNames(min: real, max: real)
    ensures ItemLabelNames(RoomItem(min, max)) == ["room"]
    ensures Sort(["room"]) == ["room"]
  {
    var r := ItemLabelNames(RoomItem(min, max));
    assert map["room" := "a"].Keys == {"room"};
    assert multiset(r) == multiset{"room"};
    assert |r| == 1 && r[0] in multiset(r);
  }

  /** A constant item loads, and every value it generates is its constant. */
  lemma ConstantRoomLoads(start: int, now: int, draw: real, sinTurns: real -> real)
    ensures Findings(CollectionValue("1", [RoomMetric(10.0, 10.0)])) == []
    ensures GenerateValue(RoomItem(10.0, 10.0), start, now, draw, sinTurns) == Value(10.0)
  {
    var c := CollectionValue("1", [RoomMetric(10.0, 10.0)]);
    RoomLabelNames(10.0, 10.0);
    assert map["room" := "a"].Keys == {"room"};
    assert ItemOk(Some(["room"]), RoomItem(10.0, 10.0));
    assert WellFormed(c);
    FindingsEmptyIff(c);
  }

  /** The same metric with Min above Max is refused with exactly one finding. */
  lemma MinAboveMaxRoomRefused()
    ensures Findings(CollectionValue("1", [RoomMetric(20.0, 10.0)])) == [MinAboveMax("temp")]
  {
    var m := RoomMetric(20.0, 10.0);
    RoomLabelNames(20.0, 10.0);
    assert ItemFindings("temp", ["room"], RoomItem(20.0, 10.0)) == [MinAboveMax("temp")];
    assert ItemsFindings("temp", ["room"], m.items) == [MinAboveMax("temp")];
    assert MetricFindings(m) == [MinAboveMax("temp")];
    assert [m][..0] == [];
    assert MetricCheck()(m) == [MinAboveMax("temp")];
    assert Flatten(MetricCheck(), [m]) == Flatten(MetricCheck(), [m][..0]) + MetricCheck()([m][0]);
    assert MetricsFindings([m]) == [MinAboveMax("temp")];
  }

  /**
   * Metric names are not checked for uniqueness: two metrics with the same
   * name load, and only AddMetric would have refused the second.
   */
  lemma DuplicateNamesLoad()
    ensures Findings(CollectionValue("1", [RoomMetric(10.0, 10.0), RoomMetric(10.0, 10.0)])) == []
  {
    var c := CollectionValue("1", [RoomMetric(10.0, 10.0), RoomMetric(10.0, 10.0)]);
    RoomLabelNames(10.0, 10.0);
    assert map["room" := "a"].Keys == {"room"};
    assert ItemOk(Some(["room"]), RoomItem(10.0, 10.0));
    assert WellFormed(c);
    FindingsEmptyIff(c);
  }

  /**
   * As written, only a zero interval is refused although the message asks
   * for one second or longer: a ramp with a negative interval loads, and
   * five seconds after the start it generates a value below its Min.
   */
  lemma NegativeIntervalLoads(sinTurns: real -> real)
    ensures var item := MetricItem(0.0, 10.0, "asc", -10 * Second, map[]);
      Findings(CollectionValue("1", [MetricValue("ramp", "", "gauge", None, [item])])) == [] &&
      GenerateValue(item, 0, 5 * Second, 0.0, sinTurns) == Value(-5.0)
  {
    NegativeRampPasses();
    NegativeRampBelowMin(sinTurns);
  }

  /** The ramp with a negative interval passes every check. */
  lemma NegativeRampPasses()
    ensures var item := MetricItem(0.0, 10.0, "asc", -10 * Second, map[]);
      Findings(CollectionValue("1", [MetricValue("ramp", "", "gauge", None, [item])])) == []
  {
    var item := MetricItem(0.0, 10.0, "asc", -10 * Second, map[]);
    var c := CollectionValue("1", [MetricValue("ramp", "", "gauge", None, [item])]);
    assert item.labels.Keys == {};
    assert ItemOk(None, item);
    assert WellFormed(c);
    FindingsEmptyIff(c);
  }

  /** Five seconds in, the ramp with a negative interval is half a span below its Min. */
  lemma NegativeRampBelowMin(sinTurns: real -> real)
    ensures GenerateValue(MetricItem(0.0, 10.0, "asc", -10 * Second, map[]), 0, 5 * Second, 0.0, sinTurns) == Value(-5.0)
  {
    assert Interval(0, -10 * Second, 5 * Second) == Ok(5 * Second);
    assert Phase(5 * Second, -10 * Second) == -0.5;
  }

  /** The interval check the message describes: one second or longer. */
  predicate IntervalAccepted(interval: int)
  {
    interval >= Second
  }

  /** An item passes the checks with the interval check as intended. */
  ghost predicate IntendedItemOk(labels: Option<seq<string>>, item: MetricItem)
  {
    ItemOk(labels, item) && IntervalAccepted(item.interval)
  }

  /**
   * With the intended interval check the negative interval is refused, and
   * every item that passes generates values within [Min, Max] at every
   * refresh from the start on.
   */
  lemma IntendedIntervalCheckKeepsRange(labels: Option<seq<string>>, item: MetricItem, start: int, now: int, draw: real, sinTurns: real -> real)
    requires IntendedItemOk(labels, item)
    requires now >= start && 0.0 <= draw < 1.0 && SineLike(sinTurns)
    ensures !IntervalAccepted(-10 * Second)
    ensures GenerateValue(item, start, now, draw, sinTurns).Value?
    ensures item.min <= GenerateValue(item, start, now, draw, sinTurns).v <= item.max
  {
    ValueWithinRange(item, start, now, draw, sinTurns);
  }

  /** The checks of one item against the (sorted) label list of its metric. */
  method CheckItem(name: string, labels: seq<string>, item: MetricItem) returns (found: seq<Finding>)
    ensures found == ItemFindings(name, labels, item)
  {
    found := [];
    if item.min > item.max {
      found := found + [MinAboveMax(name)];
    }
    ghost var range := found;
    if !IsInSlice(item.func, ValidFunctions) {
      found := found + [UnknownFunc(name, item.func)];
    }
    ghost var func := found[|range|..];
    assert found == range + func;
    if item.interval == 0 {
      found := found + [InvalidInterval(name)];
    }
    ghost var interval := found[|range + func|..];
    assert found == range + func + interval;
    var keys := CollectLabelNames(item.labels);
    if !StringSlicesEqual(keys, labels) {
      found := found + [LabelsDiffer(name, keys, labels)];
    }
  }

  /**
   * The checks of the items of a metric. The metric's label list is sorted in
   * place once per item; only the first sort changes anything.
   */
  method CheckItems(metric: Metric) returns (found: seq<Finding>)
    modifies metric
    ensures found == ItemsFindings(old(metric.name), Sort(Flat(old(metric.labels))), old(metric.items))
    ensures metric.Value() == old(metric.Value()).(labels := if |metric.items| == 0 then old(metric.labels) else SortLabels(old(metric.labels)))
  {
    ghost var mv := metric.Value();
    ghost var labels := Sort(Flat(mv.labels));
    SortLabelsIdempotent(mv.labels);
    found := [];
    var j := 0;
    while j < |metric.items|
      invariant 0 <= j <= |metric.items|
      invariant metric.Value() == mv.(labels := if j == 0 then mv.labels else SortLabels(mv.labels))
      invariant found == ItemsFindings(mv.name, labels, mv.items[..j])
    {
      metric.labels := SortLabels(metric.labels);
      var f := CheckItem(metric.name, Flat(metric.labels), metric.items[j]);
      FlattenStep(ItemCheck(mv.name, labels), mv.items, j);
      found := found + f;
      j := j + 1;
    }
    assert mv.items[..j] == mv.items;
  }

  /** The checks of one metric; a metric without items is left untouched. */
  method CheckMetric(metric: Metric) returns (found: seq<Finding>)
    modifies metric
    ensures found == MetricFindings(old(metric.Value()))
    ensures metric.Value() == Validated(old(metric.Value()))
  {
    found := if !IsInSlice(metric.kind, ValidMetricTypes) then [UnknownType(metric.name, metric.kind)] else [];
    if |metric.items| == 0 {
      found := found + [NoItems(metric.name)];
    } else {
      var f := CheckItems(metric);
      found := found + f;
    }
  }

  /** The checks of every metric, in order. */
  method CheckMetrics(c: Collection) returns (found: seq<Finding>)
    requires c.Valid()
    modifies c.metrics
    ensures found == MetricsFindings(old(c.Value()).metrics)
    ensures c.Value() == old(c.Value()).(metrics := ValidatedAll(old(c.Value()).metrics))
  {
    ghost var v := c.Value();
    var metrics := c.metrics;
    found := [];
    var i := 0;
    while i < |metrics|
      invariant 0 <= i <= |metrics|
      invariant forall a, b :: 0 <= a < b < |metrics| ==> metrics[a] != metrics[b]
      invariant forall k :: 0 <= k < i ==> metrics[k].Value() == Validated(v.metrics[k])
      invariant forall k :: i <= k < |metrics| ==> metrics[k].Value() == v.metrics[k]
      invariant found == MetricsFindings(v.metrics[..i])
    {
      label before:
      var f := CheckMetric(metrics[i]);
      forall k | 0 <= k < |metrics| && k != i
        ensures metrics[k].Value() == old@before(metrics[k].Value())
      {
        assert metrics[k] != metrics[i];
      }
      FlattenStep(MetricCheck(), v.metrics, i);
      found := found + f;
      i := i + 1;
    }
    assert v.metrics[..i] == v.metrics;
    ValuesValidated(metrics, v.metrics);
  }

  lemma ValuesValidated(ms: seq<Metric>, vs: seq<MetricValue>)
    requires |ms| == |vs| && forall k :: 0 <= k < |ms| ==> ms[k].Value() == Validated(vs[k])
    ensures Values(ms) == ValidatedAll(vs)
  {
  }

  /**
   * FromYamlFile, from the decoded collection on: collects the findings and
   * sorts the label list of every metric that has items. It returns the
   * collection (no error) exactly when nothing was found, and otherwise an
   * error listing every finding, numbered.
   */
  method FromYaml(c: Collection) returns (err: Option<string>)
    requires c.Valid()
    modifies c.metrics
    ensures c.Value() == old(c.Value()).(metrics := ValidatedAll(old(c.Value()).metrics))
    ensures err.None? <==> Findings(old(c.Value())) == []
    ensures err.Some? ==> err.value == ErrorMessage(Findings(old(c.Value())))
  {
    ghost var v := c.Value();
    var found: seq<Finding> := [];
    if c.version == "" {
      found := found + [MissingVersion];
    }
    if |c.metrics| == 0 {
      found := found + [NoMetrics];
    }
    assert found == HeadFindings(v);
    var f := CheckMetrics(c);
    found := found + f;
    assert found == Findings(v);
    if |found| > 0 {
      var errorMessage := BuildMessage(Texts(found));
      return Some("input has " + Itoa(|found|) + " validation errors: " + errorMessage);
    }
    return None;
  }
}
