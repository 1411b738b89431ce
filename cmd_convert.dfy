/**
 * The older converter from a Prometheus scrape (text exposition format) to a
 * value-string configuration (cmd/convert.go, buildConfig and
 * generateValueRange).
 *
 * The configuration is the one of module ValueConfig: metrics in a map keyed
 * by the HELP name, each item a value text and labels. Its state machine has
 * the flags of module ScrapeConvert, but a TYPE leaves expectHelp as it was,
 * a blank line is a sample line, a repeated HELP replaces the metric and a
 * sample overwrites the metric's label names without any check.
 *
 * From outside come the submatches of regexpMetricItem, strconv.ParseFloat,
 * the draw of crypto/rand.Int for the sample on a given line (None when the
 * random source fails; the draw is taken modulo the maximum, so that any
 * draw stands for one below it), and fmt.Sprintf applied to one number.
 */
module CmdConvert {
  import opened GoText
  import ValueConfig
  import CmdConfig
  import ScrapeConvert

  type ConfigurationMetric = ValueConfig.ConfigurationMetric
  type Configuration = ValueConfig.Configuration
  type ScrapeState = ScrapeConvert.ScrapeState

  datatype BuildEnv = BuildEnv(
    submatches: string -> seq<string>,
    parseFloat: string -> Option<real>,
    randInt: nat -> Option<nat>,
    sprintf: (string, real) -> string)

  /* ---------------------------------------------------------------------- */
  /* generateValueRange                                                      */
  /* ---------------------------------------------------------------------- */

  /** The verb for a number: no decimals below 10000, three-decimal scientific notation from there on. */
  function FormatFor(v: real): string
  {
    if v < 10000.0 then "%.0f" else "%.3e"
  }

  /** the value less the deviation, a percentage of it */
  function Lower(v: real, deviation: int): real
  {
    v - v * (deviation as real) / 100.0
  }

  /** the value plus the deviation, a percentage of it */
  function Upper(v: real, deviation: int): real
  {
    v + v * (deviation as real) / 100.0
  }

  /**
   * generateValueRange: None where ParseFloat fails (the source returns "0"
   * with the error, and its caller skips the line). Otherwise the value,
   * formatted, when the deviation is 0 or the two ends format alike, else
   * `lower-upper`, both ends in the format chosen for the lower one.
   */
  function GenerateValueRange(env: BuildEnv, value: string, deviation: int): Option<string>
  {
    match env.parseFloat(value)
    case None => None
    case Some(v) =>
      if deviation == 0 then Some(env.sprintf(FormatFor(v), v))
      else
        var lower := Lower(v, deviation);
        var upper := Upper(v, deviation);
        if env.sprintf(FormatFor(lower), lower) == env.sprintf(FormatFor(upper), upper) then
          Some(env.sprintf(FormatFor(v), v))
        else
          Some(env.sprintf(FormatFor(lower), lower) + "-" + env.sprintf(FormatFor(lower), upper))
  }

  lemma ProductNonNegative(a: real, b: real)
    requires a >= 0.0 && b >= 0.0
    ensures a * b >= 0.0
  {
  }

  lemma ProductNonPositive(a: real, b: real)
    requires a <= 0.0 && b >= 0.0
    ensures a * b <= 0.0
  {
  }

  /**
   * The range is the deviation around the value: it contains a non-negative
   * value, turns round for a negative one (from above to), and shrinks to
   * the value itself for a deviation of 0.
   */
  lemma RangeAroundValue(v: real, deviation: int)
    requires deviation >= 0
    ensures v >= 0.0 ==> Lower(v, deviation) <= v <= Upper(v, deviation)
    ensures v < 0.0 ==> Upper(v, deviation) <= v <= Lower(v, deviation)
    ensures deviation == 0 ==> Lower(v, deviation) == v == Upper(v, deviation)
  {
    if v >= 0.0 {
      ProductNonNegative(v, deviation as real);
    } else {
      ProductNonPositive(v, deviation as real);
    }
  }

  /**
   * What generateValueRange answers: nothing exactly when the value does not
   * parse; the value itself for a deviation of 0. Otherwise its ends a and b
   * lie symmetrically around the value, a at or below and b at or above a
   * non-negative value for a positive deviation (the other way round for a
   * negative value); the answer is the value when the two ends print alike,
   * and else the text "a-b", both ends printed with the verb chosen for a.
   */
  lemma GenerateValueRangeSpec(env: BuildEnv, value: string, deviation: int)
    ensures GenerateValueRange(env, value, deviation).None? <==> env.parseFloat(value).None?
    ensures env.parseFloat(value).Some? && deviation == 0 ==>
      var v := env.parseFloat(value).value;
      GenerateValueRange(env, value, deviation) == Some(env.sprintf(FormatFor(v), v))
    ensures env.parseFloat(value).Some? && deviation != 0 ==>
      var v := env.parseFloat(value).value;
      var a := Lower(v, deviation);
      var b := Upper(v, deviation);
      var f := FormatFor(a);
      a + b == 2.0 * v &&
      (deviation > 0 && v >= 0.0 ==> a <= v <= b) &&
      (deviation > 0 && v < 0.0 ==> b <= v <= a) &&
      (env.sprintf(f, a) == env.sprintf(FormatFor(b), b) ==>
        GenerateValueRange(env, value, deviation) == Some(env.sprintf(FormatFor(v), v))) &&
      (env.sprintf(f, a) != env.sprintf(FormatFor(b), b) ==>
        GenerateValueRange(env, value, deviation) == Some(env.sprintf(f, a) + "-" + env.sprintf(f, b)))
  {
    if env.parseFloat(value).Some? && deviation > 0 {
      RangeAroundValue(env.parseFloat(value).value, deviation);
    }
  }

  /* ---------------------------------------------------------------------- */
  /* Labels                                                                  */
  /* ---------------------------------------------------------------------- */

  /**
   * The label names of a sample in order of appearance, and its label map,
   * from the `key=value` pieces; None once a piece has no '=' (the source
   * indexes kv[1] anyway and panics).
   */
  function NamesAndLabels(pieces: seq<string>): Option<(seq<string>, map<string, string>)>
  {
    if |pieces| == 0 then Some(([], map[]))
    else
      match NamesAndLabels(pieces[..|pieces| - 1])
      case None => None
      case Some(nl) =>
        match ScrapeConvert.LabelPair(pieces[|pieces| - 1])
        case None => None
        case Some(kv) => Some((nl.0 + [kv.0], nl.1[kv.0 := kv.1]))
  }

  /**
   * The names and the map are there exactly when the current converter's
   * label map is; the map is that map, and the names are the pieces' keys,
   * one per piece, in the order of the pieces (repeats kept).
   */
  lemma {:induction false} NamesAndLabelsSpec(pieces: seq<string>)
    ensures NamesAndLabels(pieces).None? <==> ScrapeConvert.LabelsFrom(pieces).None?
    ensures NamesAndLabels(pieces).Some? ==>
      var nl := NamesAndLabels(pieces).value;
      nl.1 == ScrapeConvert.LabelsFrom(pieces).value && |nl.0| == |pieces| &&
      forall i :: 0 <= i < |pieces| ==>
        ScrapeConvert.LabelPair(pieces[i]).Some? && nl.0[i] == ScrapeConvert.LabelPair(pieces[i]).value.0
  {
    if |pieces| > 0 {
      var init := pieces[..|pieces| - 1];
      NamesAndLabelsSpec(init);
      if NamesAndLabels(pieces).Some? {
        var nl := NamesAndLabels(pieces).value;
        forall i | 0 <= i < |pieces|
          ensures ScrapeConvert.LabelPair(pieces[i]).Some? && nl.0[i] == ScrapeConvert.LabelPair(pieces[i]).value.0
        {
          if i < |init| {
            assert pieces[i] == init[i];
          }
        }
      }
    }
  }

  /** Every name is a key of the map and every key one of the names. */
  lemma {:induction false} NamesAreKeys(pieces: seq<string>)
    requires NamesAndLabels(pieces).Some?
    ensures var nl := NamesAndLabels(pieces).value;
      (forall i :: 0 <= i < |nl.0| ==> nl.0[i] in nl.1) &&
      (forall k :: k in nl.1 ==> k in nl.0)
  {
    if |pieces| > 0 {
      NamesAreKeys(pieces[..|pieces| - 1]);
    }
  }

  /** A piece without '=' anywhere makes the whole label text fail, however it continues. */
  lemma {:induction false} NamesAndLabelsStaysNone(pieces: seq<string>, j: nat)
    requires j <= |pieces| && NamesAndLabels(pieces[..j]).None?
    ensures NamesAndLabels(pieces).None?
    decreases |pieces| - j
  {
    if j < |pieces| {
      assert pieces[..j + 1][..j] == pieces[..j];
      NamesAndLabelsStaysNone(pieces, j + 1);
    } else {
      assert pieces[..j] == pieces;
    }
  }

  /** The loop over the pieces of a sample's label text. */
  method ReadLabels(text: string) returns (r: Option<(seq<string>, map<string, string>)>)
    ensures r == NamesAndLabels(Split(text, ','))
  {
    var pieces := Split(text, ',');
    var labelNames: seq<string> := [];
    var labels: map<string, string> := map[];
    var i := 0;
    while i < |pieces|
      invariant 0 <= i <= |pieces|
      invariant NamesAndLabels(pieces[..i]) == Some((labelNames, labels))
    {
      assert pieces[..i + 1][..i] == pieces[..i];
      var kvList := Split(pieces[i], '=');
      if |kvList| < 2 {
        NamesAndLabelsStaysNone(pieces, i + 1);
        return None;
      }
      labelNames := labelNames + [ScrapeConvert.StripQuotes(kvList[0])];
      labels := labels[ScrapeConvert.StripQuotes(kvList[0]) := ScrapeConvert.StripQuotes(kvList[1])];
      i := i + 1;
    }
    assert pieces[..i] == pieces;
    return Some((labelNames, labels));
  }

  /* ---------------------------------------------------------------------- */
  /* buildConfig                                                             */
  /* ---------------------------------------------------------------------- */

  /**
   * Why buildConfig fails, with the index of the line. IndexOutOfRange is
   * the panic of fields[2], fields[3] or kvList[1]; RandomPanic that of
   * crypto/rand.Int for a maximum deviation that is not positive.
   */
  datatype BuildError =
    | UnexpectedHelp(lineno: nat)
    | UnexpectedType(lineno: nat)
    | OutOfOrderType(lineno: nat, line: string, expected: string)
    | UnexpectedSample(lineno: nat, line: string)
    | CannotGenerate(lineno: nat)
    | IndexOutOfRange(lineno: nat)
    | RandomPanic(lineno: nat)

  /** The SimulationError buildConfig returns, or None for a panic. `%q` is taken without escaping. */
  function ErrorOf(e: BuildError): (r: Option<CmdConfig.SimulationError>)
    ensures r.None? <==> e.IndexOutOfRange? || e.RandomPanic?
    ensures r.Some? ==> HasPrefix(r.value.Error(), "Line " + Itoa(e.lineno) + ": ")
  {
    var at := "Line " + Itoa(e.lineno) + ": ";
    match e
    case UnexpectedHelp(_) => Some(CmdConfig.SimulationError(at + "Unexpected 'HELP' (no 'TYPE' since last 'HELP')"))
    case UnexpectedType(_) => Some(CmdConfig.SimulationError(at + "Unexpected 'TYPE' (not preceded by 'HELP')"))
    case OutOfOrderType(_, line, expected) =>
      Some(CmdConfig.SimulationError(at + "Out-of-order line " + ValueConfig.Quote(line) + " (expecting 'TYPE " + expected + " ...')"))
    case UnexpectedSample(_, line) => Some(CmdConfig.SimulationError(at + "Unexpected " + ValueConfig.Quote(line) + " (not preceded by 'HELP')"))
    case CannotGenerate(_) => Some(CmdConfig.SimulationError(at + "Cannot generate random number"))
    case IndexOutOfRange(_) => None
    case RandomPanic(_) => None
  }

  datatype Progress = Progress(st: ScrapeState, c: Configuration)

  const Initial: Progress := Progress(ScrapeConvert.Start, ValueConfig.Configuration("1", map[]))

  /** the zero ConfigurationMetric */
  const NoMetric: ConfigurationMetric := ValueConfig.ConfigurationMetric("", "", "", [], [])

  /** Go's read of a map: the entry, or the zero value for a missing key. */
  function Lookup(metrics: map<string, ConfigurationMetric>, name: string): ConfigurationMetric
  {
    if name in metrics then metrics[name] else NoMetric
  }

  /** createMatchMap(regexpMetricItem, line) */
  function ItemMatch(env: BuildEnv, line: string): map<string, string>
  {
    ScrapeConvert.SubmatchMap(env.submatches(line))
  }

  /** A `# HELP name text` line. */
  function HelpStep(lineno: nat, line: string, p: Progress): Result<Progress, BuildError>
  {
    if !p.st.expectHelp then Err(UnexpectedHelp(lineno))
    else
      var fields := Split(line, ' ');
      if |fields| < 3 then Err(IndexOutOfRange(lineno))
      else
        var name := fields[2];
        var st := p.st.(expectHelp := false, expectType := true, skipMetric := ScrapeConvert.IsInternal(name), metricName := name);
        if ScrapeConvert.IsInternal(name) then Ok(Progress(st, p.c))
        else
          var metric := ValueConfig.ConfigurationMetric(name, Join(fields[3..], " "), "", [], []);
          Ok(Progress(st, p.c.(metrics := p.c.metrics[name := metric])))
  }

  /** A `# TYPE name kind` line. */
  function TypeStep(lineno: nat, line: string, p: Progress): Result<Progress, BuildError>
  {
    if !p.st.expectType then Err(UnexpectedType(lineno))
    else
      var st := p.st.(expectType := false, expectMetric := true);
      var fields := Split(line, ' ');
      if |fields| < 3 then Err(IndexOutOfRange(lineno))
      else if fields[2] != p.st.metricName then Err(OutOfOrderType(lineno, line, p.st.metricName))
      else if p.st.skipMetric then Ok(Progress(st, p.c))
      else if |fields| < 4 then Err(IndexOutOfRange(lineno))
      else
        var metric := Lookup(p.c.metrics, p.st.metricName).(kind := fields[3]);
        Ok(Progress(st, p.c.(metrics := p.c.metrics[p.st.metricName := metric])))
  }

  /** The metric with one more item, and the sample's label names when it has any. */
  function WithSample(metric: ConfigurationMetric, text: string, labelsText: string): Option<ConfigurationMetric>
  {
    if labelsText == "" then Some(metric.(items := metric.items + [ValueConfig.Decoded(text, map[])]))
    else
      match NamesAndLabels(Split(labelsText, ','))
      case None => None
      case Some(nl) => Some(metric.(labels := nl.0, items := metric.items + [ValueConfig.Decoded(text, nl.1)]))
  }

  /** A sample line, and every line that is neither a HELP nor a TYPE. */
  function SampleStep(maxDeviation: int, env: BuildEnv, lineno: nat, line: string, p: Progress): Result<Progress, BuildError>
  {
    if !p.st.expectMetric then Err(UnexpectedSample(lineno, line))
    else
      var st := p.st.(expectType := false, expectHelp := true);
      var mm := ItemMatch(env, line);
      if p.st.skipMetric || |mm| == 0 || Get(mm, "name") != p.st.metricName then Ok(Progress(st, p.c))
      else if maxDeviation <= 0 then Err(RandomPanic(lineno))
      else
        match env.randInt(lineno)
        case None => Err(CannotGenerate(lineno))
        case Some(draw) =>
          match GenerateValueRange(env, Get(mm, "value"), draw % maxDeviation)
          case None => Ok(Progress(st, p.c))
          case Some(text) =>
            match WithSample(Lookup(p.c.metrics, p.st.metricName), text, Get(mm, "labels"))
            case None => Err(IndexOutOfRange(lineno))
            case Some(metric) => Ok(Progress(st, p.c.(metrics := p.c.metrics[p.st.metricName := metric])))
  }

  /** One line of the scrape. */
  function LineStep(maxDeviation: int, env: BuildEnv, lineno: nat, line: string, p: Progress): Result<Progress, BuildError>
  {
    if HasPrefix(line, "# HELP") then HelpStep(lineno, line, p)
    else if HasPrefix(line, "# TYPE") then TypeStep(lineno, line, p)
    else SampleStep(maxDeviation, env, lineno, line, p)
  }

  /** The lines from index `lineno` on, each taken in turn, stopping at the first error. */
  function RunFrom(maxDeviation: int, env: BuildEnv, lineno: nat, lines: seq<string>, p: Progress): Result<Progress, BuildError>
    decreases |lines|
  {
    if |lines| == 0 then Ok(p)
    else
      match LineStep(maxDeviation, env, lineno, lines[0], p)
      case Err(e) => Err(e)
      case Ok(p') => RunFrom(maxDeviation, env, lineno + 1, lines[1..], p')
  }

  /** buildConfig on values. */
  function Build(maxDeviation: int, env: BuildEnv, lines: seq<string>): Result<Configuration, BuildError>
  {
    match RunFrom(maxDeviation, env, 0, lines, Initial)
    case Ok(p) => Ok(p.c)
    case Err(e) => Err(e)
  }

  /** The sample branch of buildConfig. */
  method SampleLine(maxDeviation: int, env: BuildEnv, lineno: nat, line: string, p: Progress)
    returns (r: Result<Progress, BuildError>)
    ensures r == SampleStep(maxDeviation, env, lineno, line, p)
  {
    if !p.st.expectMetric {
      return Err(UnexpectedSample(lineno, line));
    }
    var st := p.st.(expectType := false, expectHelp := true);
    if p.st.skipMetric {
      return Ok(Progress(st, p.c));
    }
    var matchMap := ItemMatch(env, line);
    if |matchMap| == 0 || Get(matchMap, "name") != p.st.metricName {
      return Ok(Progress(st, p.c));
    }
    var tmpMetric := Lookup(p.c.metrics, p.st.metricName);
    if maxDeviation <= 0 {
      return Err(RandomPanic(lineno));
    }
    var randInt := env.randInt(lineno);
    if randInt.None? {
      return Err(CannotGenerate(lineno));
    }
    var value := GenerateValueRange(env, Get(matchMap, "value"), randInt.value % maxDeviation);
    if value.None? {
      return Ok(Progress(st, p.c));
    }
    var itemLabels: map<string, string> := map[];
    if Get(matchMap, "labels") != "" {
      var nl := ReadLabels(Get(matchMap, "labels"));
      if nl.None? {
        return Err(IndexOutOfRange(lineno));
      }
      tmpMetric := tmpMetric.(labels := nl.value.0);
      itemLabels := nl.value.1;
    }
    tmpMetric := tmpMetric.(items := tmpMetric.items + [ValueConfig.Decoded(value.value, itemLabels)]);
    return Ok(Progress(st, p.c.(metrics := p.c.metrics[p.st.metricName := tmpMetric])));
  }

  /**
   * buildConfig: a configuration of version "1" built line by line, or the
   * first error.
   */
  method BuildConfig(scrapeLines: seq<string>, maxDeviation: int, env: BuildEnv)
    returns (r: Result<Configuration, BuildError>)
    ensures r == Build(maxDeviation, env, scrapeLines)
  {
    var config := ValueConfig.Configuration("1", map[]);
    var st := ScrapeConvert.Start;
    var lineno := 0;
    while lineno < |scrapeLines|
      invariant 0 <= lineno <= |scrapeLines|
      invariant RunFrom(maxDeviation, env, lineno, scrapeLines[lineno..], Progress(st, config)) ==
                RunFrom(maxDeviation, env, 0, scrapeLines, Initial)
    {
      assert scrapeLines[lineno..][1..] == scrapeLines[lineno + 1..];
      var line := scrapeLines[lineno];
      if HasPrefix(line, "# HELP") {
        if !st.expectHelp {
          return Err(UnexpectedHelp(lineno));
        }
        var fields := Split(line, ' ');
        if |fields| < 3 {
          return Err(IndexOutOfRange(lineno));
        }
        var metricName := fields[2];
        st := st.(expectHelp := false, expectType := true, skipMetric := ScrapeConvert.IsInternal(metricName), metricName := metricName);
        if !st.skipMetric {
          config := config.(metrics := config.metrics[metricName := ValueConfig.ConfigurationMetric(metricName, Join(fields[3..], " "), "", [], [])]);
        }
      } else if HasPrefix(line, "# TYPE") {
        if !st.expectType {
          return Err(UnexpectedType(lineno));
        }
        var fields := Split(line, ' ');
        if |fields| < 3 {
          return Err(IndexOutOfRange(lineno));
        }
        if fields[2] != st.metricName {
          return Err(OutOfOrderType(lineno, line, st.metricName));
        }
        if !st.skipMetric {
          if |fields| < 4 {
            return Err(IndexOutOfRange(lineno));
          }
          var tmpMetric := Lookup(config.metrics, st.metricName).(kind := fields[3]);
          config := config.(metrics := config.metrics[st.metricName := tmpMetric]);
        }
        st := st.(expectType := false, expectMetric := true);
      } else {
        var next := SampleLine(maxDeviation, env, lineno, line, Progress(st, config));
        if next.Err? {
          return Err(next.error);
        }
        st, config := next.value.st, next.value.c;
      }
      lineno := lineno + 1;
    }
    return Ok(config);
  }

  /* ---------------------------------------------------------------------- */
  /* What every conversion keeps                                             */
  /* ---------------------------------------------------------------------- */

  /** items as the YAML decoder would leave them: a value text and labels, nothing parsed */
  predicate AllDecoded(items: seq<ValueConfig.ConfigurationMetricItem>)
  {
    forall j :: 0 <= j < |items| ==> items[j] == ValueConfig.Decoded(items[j].valueText, items[j].labels)
  }

  /**
   * The invariant of buildConfig: version "1", every metric under its own
   * name, none of them Prometheus-internal, their items unparsed; skipping
   * exactly for internal names; a TYPE expected only right after a HELP;
   * and, from a HELP of a metric that is not skipped on, that metric in the
   * map.
   */
  ghost predicate Kept(p: Progress)
  {
    p.c.version == "1" &&
    (forall k :: k in p.c.metrics ==>
      p.c.metrics[k].name == k && !ScrapeConvert.IsInternal(k) && AllDecoded(p.c.metrics[k].items)) &&
    p.st.skipMetric == ScrapeConvert.IsInternal(p.st.metricName) &&
    (p.st.expectType ==> !p.st.expectHelp) &&
    ((p.st.expectType || p.st.expectMetric) && !p.st.skipMetric ==> p.st.metricName in p.c.metrics)
  }

  lemma InitialKept()
    ensures Kept(Initial)
  {
  }

  /**
   * A sample added to a metric: the name, help and type stay, one item is
   * appended with the value text and the sample's labels, and the label
   * names become the sample's, in order, when it has any. Only a label piece
   * without '=' makes it fail.
   */
  lemma WithSampleSpec(metric: ConfigurationMetric, text: string, labelsText: string)
    ensures WithSample(metric, text, labelsText).None? <==>
      labelsText != "" && ScrapeConvert.LabelsFrom(Split(labelsText, ',')).None?
    ensures WithSample(metric, text, labelsText).Some? ==>
      var m := WithSample(metric, text, labelsText).value;
      var pieces := Split(labelsText, ',');
      m.name == metric.name && m.help == metric.help && m.kind == metric.kind &&
      (labelsText == "" ==> m.labels == metric.labels && m.items == metric.items + [ValueConfig.Decoded(text, map[])]) &&
      (labelsText != "" ==>
        m.items == metric.items + [ValueConfig.Decoded(text, ScrapeConvert.LabelsFrom(pieces).value)] &&
        |m.labels| == |pieces| &&
        forall i :: 0 <= i < |pieces| ==>
          ScrapeConvert.LabelPair(pieces[i]).Some? && m.labels[i] == ScrapeConvert.LabelPair(pieces[i]).value.0)
  {
    NamesAndLabelsSpec(Split(labelsText, ','));
  }

  lemma HelpStepKeeps(lineno: nat, line: string, p: Progress)
    requires Kept(p) && HelpStep(lineno, line, p).Ok?
    ensures Kept(HelpStep(lineno, line, p).value)
  {
  }

  lemma TypeStepKeeps(lineno: nat, line: string, p: Progress)
    requires Kept(p) && TypeStep(lineno, line, p).Ok?
    ensures Kept(TypeStep(lineno, line, p).value)
  {
  }

  lemma SampleStepKeeps(maxDeviation: int, env: BuildEnv, lineno: nat, line: string, p: Progress)
    requires Kept(p) && SampleStep(maxDeviation, env, lineno, line, p).Ok?
    ensures Kept(SampleStep(maxDeviation, env, lineno, line, p).value)
  {
    var p' := SampleStep(maxDeviation, env, lineno, line, p).value;
    if p'.c != p.c {
      var mm := ItemMatch(env, line);
      var text := GenerateValueRange(env, Get(mm, "value"), env.randInt(lineno).value % maxDeviation).value;
      var metric := Lookup(p.c.metrics, p.st.metricName);
      WithSampleSpec(metric, text, Get(mm, "labels"));
      var m := WithSample(metric, text, Get(mm, "labels")).value;
      assert p'.c.metrics == p.c.metrics[p.st.metricName := m];
      assert AllDecoded(m.items) by {
        assert AllDecoded(metric.items);
        forall j | 0 <= j < |m.items|
          ensures m.items[j] == ValueConfig.Decoded(m.items[j].valueText, m.items[j].labels)
        {
          if j < |metric.items| {
            assert m.items[j] == metric.items[j];
          }
        }
      }
    }
  }

  lemma LineStepKeeps(maxDeviation: int, env: BuildEnv, lineno: nat, line: string, p: Progress)
    requires Kept(p) && LineStep(maxDeviation, env, lineno, line, p).Ok?
    ensures Kept(LineStep(maxDeviation, env, lineno, line, p).value)
  {
    if HasPrefix(line, "# HELP") {
      HelpStepKeeps(lineno, line, p);
    } else if HasPrefix(line, "# TYPE") {
      TypeStepKeeps(lineno, line, p);
    } else {
      SampleStepKeeps(maxDeviation, env, lineno, line, p);
    }
  }

  lemma {:induction false} RunFromKeeps(maxDeviation: int, env: BuildEnv, lineno: nat, lines: seq<string>, p: Progress)
    requires Kept(p)
    ensures RunFrom(maxDeviation, env, lineno, lines, p).Ok? ==> Kept(RunFrom(maxDeviation, env, lineno, lines, p).value)
    decreases |lines|
  {
    if |lines| > 0 {
      var r := LineStep(maxDeviation, env, lineno, lines[0], p);
      if r.Ok? {
        LineStepKeeps(maxDeviation, env, lineno, lines[0], p);
        RunFromKeeps(maxDeviation, env, lineno + 1, lines[1..], r.value);
      }
    }
  }

  /**
   * What every conversion yields: version "1", each metric under its own
   * name, no Prometheus-internal metric, and items that carry only a value
   * text and labels.
   */
  lemma BuildResult(maxDeviation: int, env: BuildEnv, lines: seq<string>)
    ensures Build(maxDeviation, env, lines).Ok? ==>
      var c := Build(maxDeviation, env, lines).value;
      c.version == "1" &&
      forall k :: k in c.metrics ==> c.metrics[k].name == k && !ScrapeConvert.IsInternal(k) && AllDecoded(c.metrics[k].items)
  {
    InitialKept();
    RunFromKeeps(maxDeviation, env, 0, lines, Initial);
  }

  /* ---------------------------------------------------------------------- */
  /* Ordering: HELP, then TYPE, then samples                                 */
  /* ---------------------------------------------------------------------- */

  /** a HELP or a TYPE line */
  predicate IsHeader(line: string)
  {
    HasPrefix(line, "# HELP") || HasPrefix(line, "# TYPE")
  }

  /**
   * The order rules of one line: a HELP, a TYPE or a sample line arriving
   * when it is not expected is refused, and a TYPE must name the metric of
   * the HELP before it. An accepted HELP expects its TYPE next; an accepted
   * TYPE allows samples and leaves expectHelp as it was; an accepted sample
   * allows more samples and a new HELP, but no TYPE.
   */
  lemma StepOrdering(maxDeviation: int, env: BuildEnv, lineno: nat, line: string, p: Progress)
    ensures HasPrefix(line, "# HELP") && !p.st.expectHelp ==>
      LineStep(maxDeviation, env, lineno, line, p) == Err(UnexpectedHelp(lineno))
    ensures HasPrefix(line, "# TYPE") && !p.st.expectType ==>
      LineStep(maxDeviation, env, lineno, line, p) == Err(UnexpectedType(lineno))
    ensures HasPrefix(line, "# TYPE") && p.st.expectType && |Split(line, ' ')| >= 3 && Split(line, ' ')[2] != p.st.metricName ==>
      LineStep(maxDeviation, env, lineno, line, p) == Err(OutOfOrderType(lineno, line, p.st.metricName))
    ensures !IsHeader(line) && !p.st.expectMetric ==>
      LineStep(maxDeviation, env, lineno, line, p) == Err(UnexpectedSample(lineno, line))
    ensures HasPrefix(line, "# HELP") && LineStep(maxDeviation, env, lineno, line, p).Ok? ==>
      var st := LineStep(maxDeviation, env, lineno, line, p).value.st;
      !st.expectHelp && st.expectType && st.expectMetric == p.st.expectMetric && st.metricName == Split(line, ' ')[2]
    ensures HasPrefix(line, "# TYPE") && LineStep(maxDeviation, env, lineno, line, p).Ok? ==>
      var st := LineStep(maxDeviation, env, lineno, line, p).value.st;
      st.expectHelp == p.st.expectHelp && !st.expectType && st.expectMetric && st.metricName == p.st.metricName
    ensures !IsHeader(line) && LineStep(maxDeviation, env, lineno, line, p).Ok? ==>
      var st := LineStep(maxDeviation, env, lineno, line, p).value.st;
      st.expectHelp && !st.expectType && st.expectMetric && st.metricName == p.st.metricName
  {
    ScrapeConvert.LineKinds(line);
  }

  /**
   * Between two HELP lines there must be a sample line: once a HELP is
   * accepted, a later HELP reached through HELP and TYPE lines only is
   * refused. (A metric without samples cannot be converted.)
   */
  lemma {:induction false} SampleNeededBetweenHelps(maxDeviation: int, env: BuildEnv, lineno: nat, lines: seq<string>, p: Progress, k: nat)
    requires !p.st.expectHelp
    requires k < |lines| && HasPrefix(lines[k], "# HELP")
    requires forall j :: 0 <= j < k ==> IsHeader(lines[j])
    ensures RunFrom(maxDeviation, env, lineno, lines, p).Err?
    decreases k
  {
    var r := LineStep(maxDeviation, env, lineno, lines[0], p);
    StepOrdering(maxDeviation, env, lineno, lines[0], p);
    if k > 0 && r.Ok? {
      assert !r.value.st.expectHelp;
      forall j | 0 <= j < k - 1 ensures IsHeader(lines[1..][j]) {
        assert lines[1..][j] == lines[j + 1];
      }
      SampleNeededBetweenHelps(maxDeviation, env, lineno + 1, lines[1..], r.value, k - 1);
    }
  }

  /** So a scrape whose metric has a HELP and a TYPE but no sample, and then another HELP, fails. */
  lemma MetricWithoutSamplesRefused(maxDeviation: int, env: BuildEnv, help: string, typ: string, next: string, rest: seq<string>)
    requires HasPrefix(help, "# HELP") && HasPrefix(typ, "# TYPE") && HasPrefix(next, "# HELP")
    ensures Build(maxDeviation, env, [help, typ, next] + rest).Err?
  {
    var lines := [help, typ, next] + rest;
    var r := LineStep(maxDeviation, env, 0, help, Initial);
    if r.Ok? {
      StepOrdering(maxDeviation, env, 0, help, Initial);
      SampleNeededBetweenHelps(maxDeviation, env, 1, lines[1..], r.value, 1);
    }
  }

  /**
   * Until some TYPE line has been accepted no sample is: a sample line, a
   * blank one included, that comes before every TYPE line fails the
   * conversion.
   */
  lemma {:induction false} SampleBeforeTypeRefused(maxDeviation: int, env: BuildEnv, lineno: nat, lines: seq<string>, p: Progress, k: nat)
    requires !p.st.expectMetric
    requires k < |lines| && !IsHeader(lines[k])
    requires forall j :: 0 <= j < k ==> !HasPrefix(lines[j], "# TYPE")
    ensures RunFrom(maxDeviation, env, lineno, lines, p).Err?
    decreases k
  {
    var r := LineStep(maxDeviation, env, lineno, lines[0], p);
    StepOrdering(maxDeviation, env, lineno, lines[0], p);
    if k > 0 && r.Ok? {
      assert !r.value.st.expectMetric;
      forall j | 0 <= j < k - 1 ensures !HasPrefix(lines[1..][j], "# TYPE") {
        assert lines[1..][j] == lines[j + 1];
      }
      SampleBeforeTypeRefused(maxDeviation, env, lineno + 1, lines[1..], r.value, k - 1);
    }
  }

  /** A scrape cannot open with a TYPE or a sample line, nor with a blank line. */
  lemma MustStartWithHelp(maxDeviation: int, env: BuildEnv, lines: seq<string>)
    requires |lines| > 0 && !HasPrefix(lines[0], "# HELP")
    ensures HasPrefix(lines[0], "# TYPE") ==> Build(maxDeviation, env, lines) == Err(UnexpectedType(0))
    ensures !HasPrefix(lines[0], "# TYPE") ==> Build(maxDeviation, env, lines) == Err(UnexpectedSample(0, lines[0]))
  {
  }

  /**
   * A blank line is not skipped: it is a sample line, refused where no
   * sample is expected, and otherwise a line that does not match the sample
   * syntax.
   */
  lemma BlankLineIsSample(maxDeviation: int, env: BuildEnv, lineno: nat, p: Progress)
    ensures !p.st.expectMetric ==> LineStep(maxDeviation, env, lineno, "", p) == Err(UnexpectedSample(lineno, ""))
    ensures p.st.expectMetric && ItemMatch(env, "") == map[] ==>
      LineStep(maxDeviation, env, lineno, "", p) == Ok(Progress(p.st.(expectHelp := true, expectType := false), p.c))
  {
  }

  /* ---------------------------------------------------------------------- */
  /* HELP and TYPE lines                                                     */
  /* ---------------------------------------------------------------------- */

  /**
   * An expected HELP of a metric that is not internal puts a fresh metric
   * with the name and help text under its name, replacing whatever was there
   * (a repeated HELP drops the metric's type, labels and items); all other
   * metrics stay.
   */
  lemma HelpReplacesEntry(lineno: nat, line: string, p: Progress)
    requires p.st.expectHelp && |Split(line, ' ')| >= 3 && !ScrapeConvert.IsInternal(Split(line, ' ')[2])
    ensures HelpStep(lineno, line, p).Ok?
    ensures var fields := Split(line, ' ');
      var c := HelpStep(lineno, line, p).value.c;
      c.version == p.c.version && c.metrics.Keys == p.c.metrics.Keys + {fields[2]} &&
      c.metrics[fields[2]] == ValueConfig.ConfigurationMetric(fields[2], Join(fields[3..], " "), "", [], []) &&
      forall k :: k in p.c.metrics && k != fields[2] ==> c.metrics[k] == p.c.metrics[k]
  {
  }

  /** A HELP for go_, process_ or promhttp_ metrics adds nothing and switches skipping on. */
  lemma InternalHelpSkipped(lineno: nat, line: string, p: Progress)
    requires p.st.expectHelp && |Split(line, ' ')| >= 3 && ScrapeConvert.IsInternal(Split(line, ' ')[2])
    ensures HelpStep(lineno, line, p).Ok?
    ensures HelpStep(lineno, line, p).value.c == p.c && HelpStep(lineno, line, p).value.st.skipMetric
  {
  }

  /**
   * While skipping, the TYPE and sample lines of the internal metric change
   * nothing in the configuration, up to the next HELP.
   */
  lemma {:induction false} SkippedBlockAddsNothing(maxDeviation: int, env: BuildEnv, lineno: nat, lines: seq<string>, p: Progress)
    requires p.st.skipMetric
    requires forall j :: 0 <= j < |lines| ==> !HasPrefix(lines[j], "# HELP")
    ensures RunFrom(maxDeviation, env, lineno, lines, p).Ok? ==>
      RunFrom(maxDeviation, env, lineno, lines, p).value.c == p.c && RunFrom(maxDeviation, env, lineno, lines, p).value.st.skipMetric
    decreases |lines|
  {
    if |lines| > 0 {
      var r := LineStep(maxDeviation, env, lineno, lines[0], p);
      if r.Ok? {
        assert r.value.c == p.c && r.value.st.skipMetric;
        forall j | 0 <= j < |lines| - 1 ensures !HasPrefix(lines[1..][j], "# HELP") {
          assert lines[1..][j] == lines[j + 1];
        }
        SkippedBlockAddsNothing(maxDeviation, env, lineno + 1, lines[1..], r.value);
      }
    }
  }

  /**
   * An expected TYPE naming the current metric, not skipped, sets that
   * metric's type and changes nothing else.
   */
  lemma TypeSetsKind(lineno: nat, line: string, p: Progress)
    requires Kept(p) && p.st.expectType && !p.st.skipMetric
    requires var fields := Split(line, ' '); |fields| >= 4 && fields[2] == p.st.metricName
    ensures TypeStep(lineno, line, p).Ok?
    ensures var c := TypeStep(lineno, line, p).value.c;
      var m := p.c.metrics[p.st.metricName];
      c.metrics.Keys == p.c.metrics.Keys &&
      c.metrics[p.st.metricName] == m.(kind := Split(line, ' ')[3]) &&
      forall k :: k in p.c.metrics && k != p.st.metricName ==> c.metrics[k] == p.c.metrics[k]
  {
  }

  /* ---------------------------------------------------------------------- */
  /* Sample lines                                                            */
  /* ---------------------------------------------------------------------- */

  /**
   * Expected sample lines that do not match the sample syntax, that name
   * another metric, or whose value does not parse, are skipped: they change
   * nothing but the flags.
   */
  lemma UnusableSampleSkipped(maxDeviation: int, env: BuildEnv, lineno: nat, line: string, p: Progress)
    requires !IsHeader(line) && p.st.expectMetric
    requires var mm := ItemMatch(env, line);
      mm == map[] || Get(mm, "name") != p.st.metricName ||
      (maxDeviation > 0 && env.randInt(lineno).Some? && env.parseFloat(Get(mm, "value")).None?)
    ensures LineStep(maxDeviation, env, lineno, line, p) == Ok(Progress(p.st.(expectHelp := true, expectType := false), p.c))
  {
  }

  /** the sample line is expected, names the current metric, which is not skipped, and has a value that parses */
  ghost predicate UsableSample(env: BuildEnv, line: string, p: Progress)
  {
    var mm := ItemMatch(env, line);
    !IsHeader(line) && p.st.expectMetric && !p.st.skipMetric &&
    mm != map[] && Get(mm, "name") == p.st.metricName && env.parseFloat(Get(mm, "value")).Some?
  }

  /**
   * A usable sample: with a maximum deviation that is not positive it is
   * the panic of crypto/rand.Int, without a random number it is refused;
   * otherwise it appends one item to the current metric, whose value text is
   * the value widened by a deviation below the maximum, with the sample's
   * labels, and the metric's label names become the sample's in order. No
   * other metric changes, and nothing checks the labels against earlier
   * samples; a label piece without '=' is the index-out-of-range panic.
   */
  lemma UsableSampleAppends(maxDeviation: int, env: BuildEnv, lineno: nat, line: string, p: Progress)
    requires Kept(p) && UsableSample(env, line, p)
    ensures maxDeviation <= 0 ==> LineStep(maxDeviation, env, lineno, line, p) == Err(RandomPanic(lineno))
    ensures maxDeviation > 0 && env.randInt(lineno).None? ==> LineStep(maxDeviation, env, lineno, line, p) == Err(CannotGenerate(lineno))
    ensures maxDeviation > 0 && env.randInt(lineno).Some? ==>
      var mm := ItemMatch(env, line);
      var pieces := Split(Get(mm, "labels"), ',');
      var r := LineStep(maxDeviation, env, lineno, line, p);
      var name := p.st.metricName;
      var old_ := p.c.metrics[name];
      var d := env.randInt(lineno).value % maxDeviation;
      0 <= d < maxDeviation &&
      (r.Err? <==> Get(mm, "labels") != "" && ScrapeConvert.LabelsFrom(pieces).None?) &&
      (r.Err? ==> r.error == IndexOutOfRange(lineno)) &&
      (r.Ok? ==>
        var m := r.value.c.metrics[name];
        var text := GenerateValueRange(env, Get(mm, "value"), d).value;
        r.value.c.metrics.Keys == p.c.metrics.Keys &&
        (forall k :: k in p.c.metrics && k != name ==> r.value.c.metrics[k] == p.c.metrics[k]) &&
        m.name == old_.name && m.help == old_.help && m.kind == old_.kind &&
        (Get(mm, "labels") == "" ==> m.labels == old_.labels && m.items == old_.items + [ValueConfig.Decoded(text, map[])]) &&
        (Get(mm, "labels") != "" ==>
          m.items == old_.items + [ValueConfig.Decoded(text, ScrapeConvert.LabelsFrom(pieces).value)] &&
          |m.labels| == |pieces| &&
          forall i :: 0 <= i < |pieces| ==>
            ScrapeConvert.LabelPair(pieces[i]).Some? && m.labels[i] == ScrapeConvert.LabelPair(pieces[i]).value.0))
  {
    if maxDeviation > 0 && env.randInt(lineno).Some? {
      var mm := ItemMatch(env, line);
      var d := env.randInt(lineno).value % maxDeviation;
      GenerateValueRangeSpec(env, Get(mm, "value"), d);
      var text := GenerateValueRange(env, Get(mm, "value"), d).value;
      WithSampleSpec(p.c.metrics[p.st.metricName], text, Get(mm, "labels"));
      assert LineStep(maxDeviation, env, lineno, line, p) == SampleStep(maxDeviation, env, lineno, line, p);
    }
  }
}
