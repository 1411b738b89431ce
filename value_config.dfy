/**
 * The value-string configuration of the earlier simulator
 * (internal/metrics/configuration.go). An item carries its value as text, a
 * constant `from` or a range `from-to`; ConfigurationMetric.Init parses that
 * text into the item's unexported fields and generateValue reads them back.
 * LoadAndValidateConfiguration checks the decoded configuration and collects
 * every finding.
 *
 * cmd/configuration.go repeats these types, parseValue, Init and the checks
 * with other message texts; module CmdConfig holds what differs there.
 *
 * regexpValueRange is abstracted to the submatches it finds in a text
 * (groups: the whole match, "from", the unnamed "-to" group, "to");
 * strconv.ParseFloat and units.FromHumanSize are partial functions. Reading
 * and decoding the YAML file are not modelled. Go ranges over a map in an
 * unspecified order: the checks pick the next key with `:|`, so the order of
 * the findings is left open and their multiset is what the contracts state.
 */
module ValueConfig {
  import opened GoText
  import opened Common
  import Waveform

  /**
   * `value`, `rangeFrom` and `rangeTo` are the unexported null.Float fields
   * (None for an invalid null.Float; *float64 nil in cmd/configuration.go).
   */
  datatype ConfigurationMetricItem = ConfigurationMetricItem(
    valueText: string,
    value: Option<real>,
    rangeFrom: Option<real>,
    rangeTo: Option<real>,
    labels: map<string, string>)

  /** `kind` is the source's Type field. */
  datatype ConfigurationMetric = ConfigurationMetric(
    name: string, help: string, kind: string, labels: seq<string>, items: seq<ConfigurationMetricItem>)

  datatype Configuration = Configuration(version: string, metrics: map<string, ConfigurationMetric>)

  /** An item as the YAML decoder leaves it: the unexported fields unset. */
  function Decoded(valueText: string, labels: map<string, string>): ConfigurationMetricItem
  {
    ConfigurationMetricItem(valueText, None, None, None, labels)
  }

  /** The submatches of regexpValueRange, strconv.ParseFloat and units.FromHumanSize. */
  datatype ValueEnv = ValueEnv(
    submatches: string -> seq<string>,
    parseFloat: string -> Option<real>,
    fromHumanSize: string -> Option<int>)

  /** The groups of regexpValueRange: the whole match, "from", the unnamed "-to" group, "to". */
  const ValueGroups: seq<string> := ["", "from", "", "to"]

  /**
   * createMatchMap(regexpValueRange, value); an answer that is neither empty
   * nor one entry per group cannot come from the expression and reads as no match.
   */
  function ValueMatch(env: ValueEnv, text: string): map<string, string>
  {
    var sub := env.submatches(text);
    if |sub| == |ValueGroups| then CreateMatchMap(ValueGroups, sub) else map[]
  }

  /** A match gives exactly the "from" and "to" captures; the unnamed group is not a key. */
  lemma ValueMatchSpec(env: ValueEnv, text: string)
    ensures var sub := env.submatches(text);
      ValueMatch(env, text) == if |sub| == 4 then map["from" := sub[1], "to" := sub[3]] else map[]
  {
    var sub := env.submatches(text);
    if |sub| == 4 {
      assert MatchMapUpTo(ValueGroups, sub, 1) == map[];
      assert MatchMapUpTo(ValueGroups, sub, 2) == map["from" := sub[1]];
      assert MatchMapUpTo(ValueGroups, sub, 3) == map["from" := sub[1]];
    }
  }

  datatype ValueError = NotParsable(text: string) | NumberSyntax(text: string)

  /** parseFloatFromString: a float literal, else a human-readable size such as "20GB". */
  function ParseFloatFromString(env: ValueEnv, text: string): Result<real, ValueError>
  {
    match env.parseFloat(text)
    case Some(x) => Ok(x)
    case None =>
      match env.fromHumanSize(text)
      case Some(n) => Ok(n as real)
      case None => Err(NumberSyntax(text))
  }

  /** the text is a number parseFloatFromString accepts */
  predicate Parses(env: ValueEnv, text: string)
  {
    ParseFloatFromString(env, text).Ok?
  }

  /**
   * ConfigurationMetricItem.parseValue: an empty "to" capture makes the item
   * a constant, otherwise a range; the fields are assigned only once every
   * number has parsed.
   */
  function ParseValue(env: ValueEnv, item: ConfigurationMetricItem): Result<ConfigurationMetricItem, ValueError>
  {
    var mm := ValueMatch(env, item.valueText);
    if |mm| >= 1 then
      match ParseFloatFromString(env, Get(mm, "from"))
      case Err(e) => Err(e)
      case Ok(from) =>
        if Get(mm, "to") == "" then Ok(item.(value := Some(from)))
        else
          match ParseFloatFromString(env, Get(mm, "to"))
          case Err(e) => Err(e)
          case Ok(to) => Ok(item.(rangeFrom := Some(from), rangeTo := Some(to)))
    else Err(NotParsable(item.valueText))
  }

  /**
   * parseValue fails exactly when the text does not match, the "from"
   * number does not parse, or a non-empty "to" number does not parse. On
   * success an empty "to" sets the constant and leaves the range alone; a
   * non-empty one sets both range ends and leaves the constant alone; the
   * text and the labels never change.
   */
  lemma ParseValueSpec(env: ValueEnv, item: ConfigurationMetricItem)
    ensures var sub := env.submatches(item.valueText);
      ParseValue(env, item).Err? <==>
        |sub| != 4 || !Parses(env, sub[1]) || (sub[3] != "" && !Parses(env, sub[3]))
    ensures var sub := env.submatches(item.valueText);
      var r := ParseValue(env, item);
      r.Ok? ==>
        r.value.valueText == item.valueText && r.value.labels == item.labels &&
        (sub[3] == "" ==> r.value == item.(value := Some(ParseFloatFromString(env, sub[1]).value))) &&
        (sub[3] != "" ==> r.value == item.(rangeFrom := Some(ParseFloatFromString(env, sub[1]).value),
                                           rangeTo := Some(ParseFloatFromString(env, sub[3]).value)))
    ensures ValueMatch(env, item.valueText) == map[] ==> ParseValue(env, item) == Err(NotParsable(item.valueText))
  {
    ValueMatchSpec(env, item.valueText);
  }

  /**
   * generateValue: the constant if set, else a draw between the range ends
   * if both are set, else an invalid (null) float. `draw` is rand.Float64.
   */
  function GenerateValue(item: ConfigurationMetricItem, draw: real): Option<real>
  {
    if item.value.Some? then item.value
    else if item.rangeFrom.Some? && item.rangeTo.Some? then
      Some(draw * (item.rangeTo.value - item.rangeFrom.value) + item.rangeFrom.value)
    else None
  }

  /**
   * A decoded item whose text parses generates a value: the constant for a
   * constant, and for a range `from-to` with from <= to a value in
   * [from, to] for every draw in [0, 1). A decoded item that was never parsed
   * generates the null float.
   */
  lemma ParsedItemGenerates(env: ValueEnv, valueText: string, labels: map<string, string>, draw: real)
    requires 0.0 <= draw < 1.0
    ensures GenerateValue(Decoded(valueText, labels), draw).None?
    ensures var sub := env.submatches(valueText);
      ParseValue(env, Decoded(valueText, labels)).Ok? ==>
        |sub| == 4 && Parses(env, sub[1]) && (sub[3] != "" ==> Parses(env, sub[3]))
    ensures var sub := env.submatches(valueText);
      var r := ParseValue(env, Decoded(valueText, labels));
      r.Ok? && sub[3] == "" ==> GenerateValue(r.value, draw) == Some(ParseFloatFromString(env, sub[1]).value)
    ensures var sub := env.submatches(valueText);
      var r := ParseValue(env, Decoded(valueText, labels));
      r.Ok? && sub[3] != "" ==>
        var from := ParseFloatFromString(env, sub[1]).value;
        var to := ParseFloatFromString(env, sub[3]).value;
        GenerateValue(r.value, draw).Some? &&
        (from <= to ==> from <= GenerateValue(r.value, draw).value <= to)
  {
    var item := Decoded(valueText, labels);
    var r := ParseValue(env, item);
    ParseValueSpec(env, item);
    if r.Ok? && r.value.value.None? {
      var from := r.value.rangeFrom.value;
      var to := r.value.rangeTo.value;
      if from <= to {
        Waveform.ScaledWithin(to - from, draw);
      }
    }
  }

  /* ---------------------------------------------------------------------- */
  /* ConfigurationMetric.Init                                                */
  /* ---------------------------------------------------------------------- */

  /** What Init does to one item: parse a non-empty text, leave an empty one alone. */
  function InitItem(env: ValueEnv, item: ConfigurationMetricItem): Result<ConfigurationMetricItem, ValueError>
  {
    if item.valueText != "" then ParseValue(env, item) else Ok(item)
  }

  /** The items after Init, and its error: items in order, stopping at the first error. */
  function InitFrom(env: ValueEnv, items: seq<ConfigurationMetricItem>): (r: (seq<ConfigurationMetricItem>, Option<ValueError>))
    ensures |r.0| == |items|
  {
    if |items| == 0 then ([], None)
    else
      match InitItem(env, items[0])
      case Err(e) => (items, Some(e))
      case Ok(it) =>
        var rest := InitFrom(env, items[1..]);
        ([it] + rest.0, rest.1)
  }

  /** the first item Init cannot parse */
  function FirstFailure(env: ValueEnv, items: seq<ConfigurationMetricItem>): (r: Option<nat>)
    ensures r.Some? ==> r.value < |items| && InitItem(env, items[r.value]).Err? &&
                        forall k :: 0 <= k < r.value ==> InitItem(env, items[k]).Ok?
    ensures r.None? ==> forall k :: 0 <= k < |items| ==> InitItem(env, items[k]).Ok?
  {
    if |items| == 0 then None
    else if InitItem(env, items[0]).Err? then Some(0)
    else
      var rest := FirstFailure(env, items[1..]);
      assert forall k :: 1 <= k < |items| ==> items[k] == items[1..][k - 1];
      if rest.Some? then Some(rest.value + 1) else None
  }

  /**
   * Init parses the items in order and stops at the first error, which it
   * returns: the items before it are parsed, that item and all after it are
   * untouched. Without an error every item is parsed, and an item with an
   * empty text is untouched either way.
   */
  lemma {:induction false} InitFromSpec(env: ValueEnv, items: seq<ConfigurationMetricItem>)
    ensures var r := InitFrom(env, items);
      var f := FirstFailure(env, items);
      (r.1.Some? <==> f.Some?) &&
      (f.Some? ==> r.1 == Some(InitItem(env, items[f.value]).error) && r.0[f.value..] == items[f.value..]) &&
      (forall k :: 0 <= k < |items| && (f.None? || k < f.value) ==> r.0[k] == InitItem(env, items[k]).value) &&
      (forall k :: 0 <= k < |items| && items[k].valueText == "" ==> r.0[k] == items[k])
  {
    var r := InitFrom(env, items);
    var f := FirstFailure(env, items);
    InitFromError(env, items);
    forall k | 0 <= k < |items|
      ensures (f.None? || k < f.value) ==> r.0[k] == InitItem(env, items[k]).value
      ensures items[k].valueText == "" ==> r.0[k] == items[k]
    {
      InitFromAt(env, items, k);
    }
    if f.Some? {
      InitFromSuffix(env, items, f.value);
    }
  }

  /** From the first failure on, Init leaves the items as they are. */
  lemma InitFromSuffix(env: ValueEnv, items: seq<ConfigurationMetricItem>, first: nat)
    requires FirstFailure(env, items) == Some(first)
    ensures first <= |items| && InitFrom(env, items).0[first..] == items[first..]
  {
    var r := InitFrom(env, items).0;
    forall j | 0 <= j < |items| - first
      ensures r[first..][j] == items[first..][j]
    {
      InitFromAt(env, items, first + j);
    }
  }

  /** Init's error is the error of the first item that does not parse, and only then is there one. */
  lemma {:induction false} InitFromError(env: ValueEnv, items: seq<ConfigurationMetricItem>)
    ensures var r := InitFrom(env, items);
      var f := FirstFailure(env, items);
      (r.1.Some? <==> f.Some?) &&
      (f.Some? ==> r.1 == Some(InitItem(env, items[f.value]).error))
    decreases |items|
  {
    if |items| > 0 && InitItem(env, items[0]).Ok? {
      InitFromError(env, items[1..]);
      var f := FirstFailure(env, items[1..]);
      if f.Some? {
        assert items[1..][f.value] == items[f.value + 1];
      }
    }
  }

  /** Item k after Init: parsed when it comes before the first failure, untouched from it on. */
  lemma {:induction false} InitFromAt(env: ValueEnv, items: seq<ConfigurationMetricItem>, k: nat)
    requires k < |items|
    ensures var r := InitFrom(env, items);
      var f := FirstFailure(env, items);
      ((f.None? || k < f.value) ==> InitItem(env, items[k]).Ok? && r.0[k] == InitItem(env, items[k]).value) &&
      (f.Some? && f.value <= k ==> r.0[k] == items[k])
    decreases k
  {
    if k > 0 && InitItem(env, items[0]).Ok? {
      InitFromAt(env, items[1..], k - 1);
      assert items[1..][k - 1] == items[k];
    }
  }

  /**
   * Init as its loop runs: `done` holds the items already replaced by their
   * parsed form, `rest` those still to come; the first one that does not
   * parse stops it, and it and the items after it stay as they are.
   */
  function InitAt(env: ValueEnv, done: seq<ConfigurationMetricItem>, rest: seq<ConfigurationMetricItem>): (seq<ConfigurationMetricItem>, Option<ValueError>)
    decreases |rest|
  {
    if |rest| == 0 then (done, None)
    else
      match InitItem(env, rest[0])
      case Err(e) => (done + rest, Some(e))
      case Ok(it) => InitAt(env, done + [it], rest[1..])
  }

  /** The loop's form agrees with the recursive one: `done` stays in front of what InitFrom makes of `rest`. */
  lemma {:induction false} InitAtFrom(env: ValueEnv, done: seq<ConfigurationMetricItem>, rest: seq<ConfigurationMetricItem>)
    ensures InitAt(env, done, rest) == (done + InitFrom(env, rest).0, InitFrom(env, rest).1)
    decreases |rest|
  {
    if |rest| == 0 {
      assert done + [] == done;
    } else if InitItem(env, rest[0]).Ok? {
      var it := InitItem(env, rest[0]).value;
      InitAtFrom(env, done + [it], rest[1..]);
      assert (done + [it]) + InitFrom(env, rest[1..]).0 == done + ([it] + InitFrom(env, rest[1..]).0);
    }
  }

  /** One pass of Init's loop: an item that parses is replaced and the loop goes on. */
  lemma InitAtNext(env: ValueEnv, done: seq<ConfigurationMetricItem>, rest: seq<ConfigurationMetricItem>, it: ConfigurationMetricItem)
    requires |rest| > 0 && InitItem(env, rest[0]) == Ok(it)
    ensures InitAt(env, done, rest) == InitAt(env, done + [it], rest[1..])
  {
  }

  /** The last pass of Init's loop: an item that does not parse ends it with that item's error. */
  lemma InitAtStop(env: ValueEnv, done: seq<ConfigurationMetricItem>, rest: seq<ConfigurationMetricItem>, e: ValueError)
    requires |rest| > 0 && InitItem(env, rest[0]) == Err(e)
    ensures InitAt(env, done, rest) == (done + rest, Some(e))
  {
  }

  /**
   * One pass of Init's loop over item i: an item that parses is replaced by
   * its parsed form and the loop goes on; one that does not leaves the array
   * as it was and ends the loop with its error.
   */
  method InitStep(items: array<ConfigurationMetricItem>, env: ValueEnv, i: nat) returns (stop: Option<ValueError>)
    requires i < items.Length
    modifies items
    ensures stop.Some? ==> items[..] == old(items[..]) && InitAt(env, old(items[..i]), old(items[i..])) == (items[..], stop)
    ensures stop.None? ==> InitAt(env, old(items[..i]), old(items[i..])) == InitAt(env, items[..i + 1], items[i + 1..])
  {
    ghost var done := items[..i];
    ghost var rest := items[i..];
    var item := items[i];
    assert rest[0] == item;
    if item.valueText != "" {
      var r := ParseValue(env, item);
      if r.Err? {
        InitAtStop(env, done, rest, r.error);
        assert done + rest == items[..];
        return Some(r.error);
      }
      item := r.value;
    }
    InitAtNext(env, done, rest, item);
    items[i] := item;
    assert items[..i + 1] == done + [item];
    assert items[i + 1..] == rest[1..];
    return None;
  }

  /** ConfigurationMetric.Init, on the metric's item array, updated in place. */
  method Init(items: array<ConfigurationMetricItem>, env: ValueEnv) returns (err: Option<ValueError>)
    modifies items
    ensures (items[..], err) == InitFrom(env, old(items[..]))
  {
    InitAtFrom(env, [], items[..]);
    assert [] + InitFrom(env, items[..]).0 == InitFrom(env, items[..]).0;
    ghost var target := InitAt(env, [], items[..]);
    assert items[..0] == [] && items[0..] == items[..];
    var i := 0;
    while i < items.Length
      invariant 0 <= i <= items.Length
      invariant InitAt(env, items[..i], items[i..]) == target
    {
      var stop := InitStep(items, env, i);
      if stop.Some? {
        return stop;
      }
      i := i + 1;
    }
    assert items[..i] == items[..];
    return None;
  }

  /* ---------------------------------------------------------------------- */
  /* The checks of LoadAndValidateConfiguration                              */
  /* ---------------------------------------------------------------------- */

  datatype Finding =
    | NoMetrics
    | UnknownType(metric: string, kind: string)
    | NoItems(metric: string)
    | UndeclaredLabel(metric: string, labelName: string)
    | MissingLabel(metric: string, labelName: string)

  /** The four kinds, spelled out in the check as in the source. */
  predicate IsMetricType(kind: string)
  {
    kind == "gauge" || kind == "counter" || kind == "summary" || kind == "histogram"
  }

  /** The item labels the metric does not declare, one finding each, in whatever order the map is ranged over. */
  ghost function Undeclared(name: string, declared: seq<string>, keys: set<string>): multiset<Finding>
    decreases keys
  {
    if keys == {} then multiset{}
    else
      var l :| l in keys;
      Undeclared(name, declared, keys - {l}) + (if l !in declared then multiset{UndeclaredLabel(name, l)} else multiset{})
  }

  /** The declared labels the item lacks, in the order they are declared. */
  function Missing(name: string, declared: seq<string>, keys: set<string>): seq<Finding>
  {
    if |declared| == 0 then []
    else
      Missing(name, declared[..|declared| - 1], keys) +
      (if declared[|declared| - 1] in keys then [] else [MissingLabel(name, declared[|declared| - 1])])
  }

  ghost function ItemFindings(name: string, declared: seq<string>, item: ConfigurationMetricItem): multiset<Finding>
  {
    Undeclared(name, declared, item.labels.Keys) + multiset(Missing(name, declared, item.labels.Keys))
  }

  ghost function ItemsFindings(name: string, declared: seq<string>, items: seq<ConfigurationMetricItem>): multiset<Finding>
  {
    if |items| == 0 then multiset{}
    else ItemsFindings(name, declared, items[..|items| - 1]) + ItemFindings(name, declared, items[|items| - 1])
  }

  /** The findings about one metric: its type, its items, and (when it declares labels) its items' labels. */
  ghost function MetricFindings(name: string, m: ConfigurationMetric): multiset<Finding>
  {
    (if !IsMetricType(m.kind) then multiset{UnknownType(name, m.kind)} else multiset{}) +
    (if |m.items| == 0 then multiset{NoItems(name)} else multiset{}) +
    (if |m.labels| > 0 then ItemsFindings(name, m.labels, m.items) else multiset{})
  }

  /** The findings about the metrics under the given keys, in whatever order the map is ranged over. */
  ghost function KeysFindings(metrics: map<string, ConfigurationMetric>, keys: set<string>): multiset<Finding>
    requires keys <= metrics.Keys
    decreases keys
  {
    if keys == {} then multiset{}
    else
      var k :| k in keys;
      MetricFindings(k, metrics[k]) + KeysFindings(metrics, keys - {k})
  }

  /** Every finding of a configuration. */
  ghost function AllFindings(c: Configuration): multiset<Finding>
  {
    (if |c.metrics| == 0 then multiset{NoMetrics} else multiset{}) + KeysFindings(c.metrics, c.metrics.Keys)
  }

  /** The findings do not depend on the key taken first. */
  lemma {:induction false} KeysFindingsAny(metrics: map<string, ConfigurationMetric>, keys: set<string>, k: string)
    requires keys <= metrics.Keys && k in keys
    ensures KeysFindings(metrics, keys) == MetricFindings(k, metrics[k]) + KeysFindings(metrics, keys - {k})
    decreases keys
  {
    var k0 :| k0 in keys && KeysFindings(metrics, keys) == MetricFindings(k0, metrics[k0]) + KeysFindings(metrics, keys - {k0});
    if k0 != k {
      KeysFindingsAny(metrics, keys - {k0}, k);
      KeysFindingsAny(metrics, keys - {k}, k0);
      assert keys - {k0} - {k} == keys - {k} - {k0};
    }
  }

  /** The undeclared labels do not depend on the key taken first. */
  lemma {:induction false} UndeclaredRemove(name: string, declared: seq<string>, keys: set<string>, l: string)
    requires l in keys
    ensures Undeclared(name, declared, keys) ==
      Undeclared(name, declared, keys - {l}) + (if l !in declared then multiset{UndeclaredLabel(name, l)} else multiset{})
    decreases keys
  {
    var l0 :| l0 in keys && Undeclared(name, declared, keys) ==
      Undeclared(name, declared, keys - {l0}) + (if l0 !in declared then multiset{UndeclaredLabel(name, l0)} else multiset{});
    if l0 != l {
      UndeclaredRemove(name, declared, keys - {l0}, l);
      UndeclaredRemove(name, declared, keys - {l}, l0);
      assert keys - {l0} - {l} == keys - {l} - {l0};
    }
  }

  lemma {:induction false} UndeclaredHas(name: string, declared: seq<string>, keys: set<string>, f: Finding)
    ensures f in Undeclared(name, declared, keys) <==>
      f.UndeclaredLabel? && f.metric == name && f.labelName in keys && f.labelName !in declared
    decreases keys
  {
    if keys != {} {
      var l :| l in keys;
      UndeclaredRemove(name, declared, keys, l);
      UndeclaredHas(name, declared, keys - {l}, f);
    }
  }

  /** The first loop over one item: its label names, collected, and those the metric does not declare. */
  method CheckUndeclared(name: string, declared: seq<string>, item: ConfigurationMetricItem)
    returns (g: seq<Finding>, itemLabelSlice: seq<string>)
    ensures multiset(g) == Undeclared(name, declared, item.labels.Keys)
    ensures forall l :: l in itemLabelSlice <==> l in item.labels
  {
    g := [];
    itemLabelSlice := [];
    var keys := item.labels.Keys;
    while keys != {}
      invariant keys <= item.labels.Keys
      invariant forall l :: l in itemLabelSlice <==> l in item.labels.Keys && l !in keys
      invariant multiset(g) + Undeclared(name, declared, keys) == Undeclared(name, declared, item.labels.Keys)
      decreases keys
    {
      var l :| l in keys;
      itemLabelSlice := itemLabelSlice + [l];
      UndeclaredRemove(name, declared, keys, l);
      if IsNotInSlice(l, declared) {
        g := g + [UndeclaredLabel(name, l)];
      }
      keys := keys - {l};
    }
  }

  /** The second loop over one item: the declared labels it lacks, in declared order. */
  method CheckMissing(name: string, declared: seq<string>, itemLabelSlice: seq<string>, keys: set<string>) returns (g: seq<Finding>)
    requires forall l :: l in itemLabelSlice <==> l in keys
    ensures g == Missing(name, declared, keys)
  {
    g := [];
    var j := 0;
    while j < |declared|
      invariant 0 <= j <= |declared|
      invariant g == Missing(name, declared[..j], keys)
    {
      assert declared[..j + 1][..j] == declared[..j];
      if IsNotInSlice(declared[j], itemLabelSlice) {
        g := g + [MissingLabel(name, declared[j])];
      }
      j := j + 1;
    }
    assert declared[..j] == declared;
  }

  /** The label checks of one item. */
  method CheckItemLabels(name: string, declared: seq<string>, item: ConfigurationMetricItem) returns (g: seq<Finding>)
    ensures multiset(g) == ItemFindings(name, declared, item)
  {
    var undeclared, itemLabelSlice := CheckUndeclared(name, declared, item);
    var missing := CheckMissing(name, declared, itemLabelSlice, item.labels.Keys);
    g := undeclared + missing;
  }

  /** The label checks of every item, in order. */
  method CheckItems(name: string, declared: seq<string>, items: seq<ConfigurationMetricItem>) returns (f: seq<Finding>)
    ensures multiset(f) == ItemsFindings(name, declared, items)
  {
    f := [];
    var i := 0;
    while i < |items|
      invariant 0 <= i <= |items|
      invariant multiset(f) == ItemsFindings(name, declared, items[..i])
    {
      assert items[..i + 1][..i] == items[..i];
      var g := CheckItemLabels(name, declared, items[i]);
      f := f + g;
      i := i + 1;
    }
    assert items[..i] == items;
  }

  /** The checks of one metric. */
  method CheckMetric(name: string, m: ConfigurationMetric) returns (f: seq<Finding>)
    ensures multiset(f) == MetricFindings(name, m)
  {
    f := [];
    ghost var typeFindings := if !IsMetricType(m.kind) then multiset{UnknownType(name, m.kind)} else multiset{};
    ghost var itemFindings := if |m.items| == 0 then multiset{NoItems(name)} else multiset{};
    if !(m.kind == "gauge" || m.kind == "counter" || m.kind == "summary" || m.kind == "histogram") {
      f := f + [UnknownType(name, m.kind)];
    }
    assert multiset(f) == typeFindings;
    if |m.items| == 0 {
      f := f + [NoItems(name)];
    }
    assert multiset(f) == typeFindings + itemFindings;
    if |m.labels| > 0 {
      var g := CheckItems(name, m.labels, m.items);
      f := f + g;
    }
  }

  /** The checks of the whole configuration, ranging over the metrics map. */
  method ValidateConfiguration(c: Configuration) returns (findings: seq<Finding>)
    ensures multiset(findings) == AllFindings(c)
  {
    findings := [];
    if |c.metrics| == 0 {
      findings := findings + [NoMetrics];
    }
    var keys := c.metrics.Keys;
    while keys != {}
      invariant keys <= c.metrics.Keys
      invariant multiset(findings) + KeysFindings(c.metrics, keys) == AllFindings(c)
      decreases keys
    {
      var name :| name in keys;
      KeysFindingsAny(c.metrics, keys, name);
      var f := CheckMetric(name, c.metrics[name]);
      findings := findings + f;
      keys := keys - {name};
    }
  }

  /* ---------------------------------------------------------------------- */
  /* What the findings say                                                   */
  /* ---------------------------------------------------------------------- */

  lemma {:induction false} MissingHas(name: string, declared: seq<string>, keys: set<string>, f: Finding)
    ensures f in Missing(name, declared, keys) <==>
      f.MissingLabel? && f.metric == name && f.labelName in declared && f.labelName !in keys
  {
    if |declared| > 0 {
      var init := declared[..|declared| - 1];
      MissingHas(name, init, keys, f);
      assert declared == init + [declared[|declared| - 1]];
    }
  }

  lemma ItemFindingsHas(name: string, declared: seq<string>, item: ConfigurationMetricItem, f: Finding)
    ensures f in ItemFindings(name, declared, item) <==>
      (f.UndeclaredLabel? && f.metric == name && f.labelName in item.labels && f.labelName !in declared) ||
      (f.MissingLabel? && f.metric == name && f.labelName in declared && f.labelName !in item.labels)
  {
    MissingHas(name, declared, item.labels.Keys, f);
    UndeclaredHas(name, declared, item.labels.Keys, f);
  }

  /** Every finding about a list of items is a label finding about the metric. */
  lemma {:induction false} ItemsFindingsNamed(name: string, declared: seq<string>, items: seq<ConfigurationMetricItem>, f: Finding)
    requires f in ItemsFindings(name, declared, items)
    ensures (f.UndeclaredLabel? || f.MissingLabel?) && f.metric == name
  {
    var last := |items| - 1;
    if f in ItemsFindings(name, declared, items[..last]) {
      ItemsFindingsNamed(name, declared, items[..last], f);
    } else {
      ItemFindingsHas(name, declared, items[last], f);
    }
  }

  /** Some item carries the label. */
  predicate SomeCarries(items: seq<ConfigurationMetricItem>, l: string)
  {
    exists j :: 0 <= j < |items| && l in items[j].labels
  }

  /** Some item lacks the label. */
  predicate SomeLacks(items: seq<ConfigurationMetricItem>, l: string)
  {
    exists j :: 0 <= j < |items| && l !in items[j].labels
  }

  lemma SomeSnoc(items: seq<ConfigurationMetricItem>, l: string)
    requires |items| > 0
    ensures SomeCarries(items, l) <==> SomeCarries(items[..|items| - 1], l) || l in items[|items| - 1].labels
    ensures SomeLacks(items, l) <==> SomeLacks(items[..|items| - 1], l) || l !in items[|items| - 1].labels
  {
    var init := items[..|items| - 1];
    assert forall j :: 0 <= j < |init| ==> init[j] == items[j];
  }

  /** A label is reported undeclared when the metric does not declare it and some item carries it. */
  lemma {:induction false} ItemsUndeclared(name: string, declared: seq<string>, items: seq<ConfigurationMetricItem>, l: string)
    ensures UndeclaredLabel(name, l) in ItemsFindings(name, declared, items) <==> l !in declared && SomeCarries(items, l)
  {
    if |items| > 0 {
      var last := |items| - 1;
      ItemsUndeclared(name, declared, items[..last], l);
      ItemFindingsHas(name, declared, items[last], UndeclaredLabel(name, l));
      SomeSnoc(items, l);
    }
  }

  /** A declared label is reported missing when some item lacks it. */
  lemma {:induction false} ItemsMissing(name: string, declared: seq<string>, items: seq<ConfigurationMetricItem>, l: string)
    ensures MissingLabel(name, l) in ItemsFindings(name, declared, items) <==> l in declared && SomeLacks(items, l)
  {
    if |items| > 0 {
      var last := |items| - 1;
      ItemsMissing(name, declared, items[..last], l);
      ItemFindingsHas(name, declared, items[last], MissingLabel(name, l));
      SomeSnoc(items, l);
    }
  }

  lemma MetricFindingsNamed(name: string, m: ConfigurationMetric, f: Finding)
    requires f in MetricFindings(name, m)
    ensures !f.NoMetrics? && f.metric == name
  {
    if f in ItemsFindings(name, m.labels, m.items) {
      ItemsFindingsNamed(name, m.labels, m.items, f);
    }
  }

  lemma {:induction false} KeysFindingsHas(metrics: map<string, ConfigurationMetric>, keys: set<string>, f: Finding)
    requires keys <= metrics.Keys
    ensures f in KeysFindings(metrics, keys) <==> exists k :: k in keys && f in MetricFindings(k, metrics[k])
    decreases keys
  {
    if keys != {} {
      var k :| k in keys;
      KeysFindingsAny(metrics, keys, k);
      KeysFindingsHas(metrics, keys - {k}, f);
    }
  }

  /** A finding about the named metric is among all findings exactly when it is among that metric's. */
  lemma AllFindingsHas(c: Configuration, f: Finding)
    ensures f.NoMetrics? ==> (f in AllFindings(c) <==> |c.metrics| == 0)
    ensures !f.NoMetrics? ==> (f in AllFindings(c) <==> f.metric in c.metrics && f in MetricFindings(f.metric, c.metrics[f.metric]))
  {
    KeysFindingsHas(c.metrics, c.metrics.Keys, f);
    if f in KeysFindings(c.metrics, c.metrics.Keys) {
      var k :| k in c.metrics.Keys && f in MetricFindings(k, c.metrics[k]);
      MetricFindingsNamed(k, c.metrics[k], f);
    }
  }

  /** The findings about the configuration as a whole and about each metric's type and items. */
  lemma FindingsSpec(c: Configuration, n: string, t: string)
    ensures NoMetrics in AllFindings(c) <==> |c.metrics| == 0
    ensures UnknownType(n, t) in AllFindings(c) <==> n in c.metrics && c.metrics[n].kind == t && !IsMetricType(t)
    ensures NoItems(n) in AllFindings(c) <==> n in c.metrics && |c.metrics[n].items| == 0
  {
    AllFindingsHas(c, NoMetrics);
    assert UnknownType(n, t) in AllFindings(c) <==> n in c.metrics && c.metrics[n].kind == t && !IsMetricType(t) by {
      AllFindingsHas(c, UnknownType(n, t));
      if n in c.metrics && UnknownType(n, t) in ItemsFindings(n, c.metrics[n].labels, c.metrics[n].items) {
        ItemsFindingsNamed(n, c.metrics[n].labels, c.metrics[n].items, UnknownType(n, t));
      }
    }
    assert NoItems(n) in AllFindings(c) <==> n in c.metrics && |c.metrics[n].items| == 0 by {
      AllFindingsHas(c, NoItems(n));
      if n in c.metrics && NoItems(n) in ItemsFindings(n, c.metrics[n].labels, c.metrics[n].items) {
        ItemsFindingsNamed(n, c.metrics[n].labels, c.metrics[n].items, NoItems(n));
      }
    }
  }

  /**
   * The label findings run only for a metric that declares labels: an item
   * label it does not declare, or a declared label some item lacks.
   */
  lemma LabelFindingsSpec(c: Configuration, n: string, l: string)
    ensures UndeclaredLabel(n, l) in AllFindings(c) <==>
      n in c.metrics && |c.metrics[n].labels| > 0 &&
      exists j :: 0 <= j < |c.metrics[n].items| && l in c.metrics[n].items[j].labels && l !in c.metrics[n].labels
    ensures MissingLabel(n, l) in AllFindings(c) <==>
      n in c.metrics && l in c.metrics[n].labels &&
      exists j :: 0 <= j < |c.metrics[n].items| && l !in c.metrics[n].items[j].labels
  {
    AllFindingsHas(c, UndeclaredLabel(n, l));
    AllFindingsHas(c, MissingLabel(n, l));
    if n in c.metrics {
      var m := c.metrics[n];
      ItemsUndeclared(n, m.labels, m.items, l);
      ItemsMissing(n, m.labels, m.items, l);
    }
  }

  /**
   * A configuration the checks accept: some metric, and every metric of a
   * known type, with items, and, when it declares labels, every item
   * labelled with exactly the declared names.
   */
  ghost predicate Acceptable(c: Configuration)
  {
    |c.metrics| > 0 &&
    forall n :: n in c.metrics ==>
      IsMetricType(c.metrics[n].kind) && |c.metrics[n].items| > 0 &&
      (|c.metrics[n].labels| > 0 ==>
        forall j :: 0 <= j < |c.metrics[n].items| ==>
          forall l :: l in c.metrics[n].items[j].labels <==> l in c.metrics[n].labels)
  }

  /** There is no finding exactly when the configuration is acceptable. */
  lemma NoFindingsIffAcceptable(c: Configuration)
    ensures AllFindings(c) == multiset{} <==> Acceptable(c)
  {
    if AllFindings(c) == multiset{} {
      NoFindingsAcceptable(c);
    } else {
      var f :| f in AllFindings(c);
      FindingRefutes(c, f);
    }
  }

  /** Without a finding, every condition of Acceptable holds. */
  lemma NoFindingsAcceptable(c: Configuration)
    requires AllFindings(c) == multiset{}
    ensures Acceptable(c)
  {
    FindingsSpec(c, "", "");
    forall n | n in c.metrics
      ensures IsMetricType(c.metrics[n].kind) && |c.metrics[n].items| > 0
    {
      FindingsSpec(c, n, c.metrics[n].kind);
    }
    forall n, j, l | n in c.metrics && |c.metrics[n].labels| > 0 && 0 <= j < |c.metrics[n].items|
      ensures l in c.metrics[n].items[j].labels <==> l in c.metrics[n].labels
    {
      LabelFindingsSpec(c, n, l);
    }
  }

  /** Any one finding breaks a condition of Acceptable. */
  lemma FindingRefutes(c: Configuration, f: Finding)
    requires f in AllFindings(c)
    ensures !Acceptable(c)
  {
    AllFindingsHas(c, f);
    if f.UnknownType? || f.NoItems? {
      FindingsSpec(c, f.metric, if f.UnknownType? then f.kind else "");
    } else if f.UndeclaredLabel? || f.MissingLabel? {
      LabelFindingsSpec(c, f.metric, f.labelName);
    }
  }

  /* ---------------------------------------------------------------------- */
  /* The error message                                                       */
  /* ---------------------------------------------------------------------- */

  /** fmt's %q, without escaping of special characters */
  function Quote(s: string): string
  {
    "\"" + s + "\""
  }

  /**
   * The text of a finding; `quote` is how the type and label names are
   * quoted (Quote here, single quotes in cmd/configuration.go).
   */
  function Text(f: Finding, quote: string -> string): string
  {
    match f
    case NoMetrics => "metrics must have one or more elements"
    case UnknownType(m, k) => "metrics." + m + ".type: Unknown metric type " + quote(k) + ". Must be one of gauge, counter, summary, histogram"
    case NoItems(m) => "metrics." + m + ".items: Must have at least one element"
    case UndeclaredLabel(m, l) => "metrics." + m + ".items: Item label " + quote(l) + " not declared in metric labels"
    case MissingLabel(m, l) => "metrics." + m + ".items: Metric label " + quote(l) + " missing from item labels"
  }

  function Texts(fs: seq<Finding>, quote: string -> string): (ts: seq<string>)
    ensures |ts| == |fs| && forall i :: 0 <= i < |fs| ==> ts[i] == Text(fs[i], quote)
  {
    if fs == [] then [] else [Text(fs[0], quote)] + Texts(fs[1..], quote)
  }

  /** The error of a failed validation: the file name and the numbered findings. */
  function ErrorMessage(filename: string, fs: seq<Finding>, quote: string -> string): string
  {
    filename + " has validation errors: " + Numbered(Texts(fs, quote), 1)
  }

  /**
   * LoadAndValidateConfiguration once the file is decoded: the configuration
   * back when there is no finding, otherwise the numbered list of all the
   * findings, in the order the maps were ranged over.
   */
  method LoadAndValidateConfiguration(filename: string, c: Configuration) returns (r: Result<Configuration, string>)
    ensures r.Ok? <==> Acceptable(c)
    ensures r.Ok? ==> r.value == c
    ensures r.Err? ==> exists fs :: multiset(fs) == AllFindings(c) && |fs| > 0 && r.error == ErrorMessage(filename, fs, Quote)
  {
    NoFindingsIffAcceptable(c);
    var findings := ValidateConfiguration(c);
    if |findings| > 0 {
      var errorMessage := BuildMessage(Texts(findings, Quote));
      return Err(filename + " has validation errors: " + errorMessage);
    }
    assert multiset(findings) == multiset{};
    return Ok(c);
  }
}
