/**
 * The current converter from a Prometheus scrape (text exposition format) to
 * a Collection (pkg/metrics/convert.go).
 *
 * The argument helpers (stripQuotes, isPercent, randomFunc, randomDuration,
 * randomRange) are functions; the random draws they make are parameters:
 * `pick` for rand.Intn (any natural number, of which the draw is the
 * remainder modulo the bound) and `draw` for rand.Float64. time.ParseDuration
 * is a partial function from text to nanoseconds, strconv.ParseFloat one from
 * text to a real, and the regular expression for sample lines is its
 * FindStringSubmatch answer.
 *
 * convertScrapeToConfig is a method over the Collection and Metric classes,
 * proved against RunFrom, a fold of the line step over the lines.
 */
module ScrapeConvert {
  import opened GoText
  import opened GoSort
  import opened Common
  import opened MetricsModel
  import opened Waveform

  /* ---------------------------------------------------------------------- */
  /* Argument helpers                                                        */
  /* ---------------------------------------------------------------------- */

  /** stripQuotes: drops one leading and one trailing double quote, where present. */
  function StripQuotes(s: string): (r: string)
    ensures |s| - 2 <= |r| <= |s|
    ensures OccursAt(s, r, 0) || OccursAt(s, r, 1)
    ensures (|s| == 0 || (s[0] != '"' && s[|s| - 1] != '"')) ==> r == s
  {
    var a := if |s| > 0 && s[0] == '"' then s[1..] else s;
    var r := if |a| > 0 && a[|a| - 1] == '"' then a[..|a| - 1] else a;
    assert OccursAt(s, r, if |s| > 0 && s[0] == '"' then 1 else 0);
    r
  }

  /** A string wrapped in a pair of quotes comes back unwrapped, whatever it holds. */
  lemma StripQuotesOfQuoted(s: string)
    ensures StripQuotes("\"" + s + "\"") == s
  {
    var q := "\"" + s + "\"";
    assert q[1..] == s + "\"";
    assert (s + "\"")[..|s|] == s;
  }

  /** The cases of the source's table of examples. */
  lemma StripQuotesExamples()
    ensures StripQuotes("") == ""
    ensures StripQuotes("\"") == ""
    ensures StripQuotes("\"test") == "test"
    ensures StripQuotes("test\"") == "test"
    ensures StripQuotes("\"test\"") == "test"
  {
    StripQuotesOfQuoted("test");
    assert "\"test"[1..] == "test";
    assert "test\""[..4] == "test";
  }

  /** some piece is a substring of the name */
  function AnyContained(name: string, pieces: seq<string>): (found: bool)
    ensures found <==> exists i :: 0 <= i < |pieces| && Contains(name, pieces[i])
  {
    if |pieces| == 0 then false
    else if Contains(name, pieces[0]) then true
    else
      var rest := AnyContained(name, pieces[1..]);
      assert forall i :: 1 <= i < |pieces| ==> pieces[i] == pieces[1..][i - 1];
      rest
  }

  /**
   * isPercent: the metric holds a percentage when one of the comma-separated
   * pieces of honorpct occurs in its name.
   */
  predicate IsPercent(metricName: string, honorpct: string)
  {
    AnyContained(metricName, Split(honorpct, ','))
  }

  /** isPercent holds exactly when some piece of honorpct occurs in the name. */
  lemma IsPercentSpec(metricName: string, honorpct: string)
    ensures IsPercent(metricName, honorpct) <==> exists p :: p in Split(honorpct, ',') && Contains(metricName, p)
  {
    var pieces := Split(honorpct, ',');
    if IsPercent(metricName, honorpct) {
      var i :| 0 <= i < |pieces| && Contains(metricName, pieces[i]);
      assert pieces[i] in Split(honorpct, ',');
    }
  }

  /**
   * An empty piece occurs in every name: an empty honorpct, or one with a
   * leading, trailing or doubled comma, makes every metric a percentage.
   */
  lemma EmptyPieceMatchesEveryName(metricName: string, honorpct: string)
    requires "" in Split(honorpct, ',')
    ensures IsPercent(metricName, honorpct)
  {
    var i :| 0 <= i < |Split(honorpct, ',')| && Split(honorpct, ',')[i] == "";
    ContainsEmpty(metricName);
  }

  lemma EmptyHonorpctMatchesEveryName(metricName: string)
    ensures IsPercent(metricName, "")
  {
    assert Split("", ',') == [""];
    EmptyPieceMatchesEveryName(metricName, "");
  }

  /** The refused case of the source's table of examples: neither "foo" nor "bar" occurs in "brabaz". */
  lemma IsPercentRefuses(metricName: string, honorpct: string)
    requires metricName == "brabaz" && honorpct == "foo,bar"
    ensures !IsPercent(metricName, honorpct)
  {
    assert Join(["foo", "bar"], [',']) == honorpct;
    JoinThenSplit(["foo", "bar"], ',');
    assert forall j :: 0 <= j < 6 ==> "brabaz"[j] != 'f';
    assert forall j :: 2 <= j < 6 ==> "brabaz"[j] != 'r';
    forall i | 0 <= i <= 6 ensures !OccursAt(metricName, "foo", i) && !OccursAt(metricName, "bar", i) {
      if i <= 3 {
        assert metricName[i..i + 3][0] == metricName[i];
        assert metricName[i..i + 3][2] == metricName[i + 2];
      }
    }
    IsPercentSpec(metricName, honorpct);
  }

  /** A piece of honorpct occurring in the name makes the metric a percentage. */
  lemma IsPercentByPiece(metricName: string, honorpct: string, piece: string, at: int)
    requires piece in Split(honorpct, ',') && OccursAt(metricName, piece, at)
    ensures IsPercent(metricName, honorpct)
  {
    IsPercentSpec(metricName, honorpct);
  }

  lemma OccursInBrabaz()
    ensures OccursAt("brabaz", "baz", 3)
  {
    assert "brabaz"[3..6] == "baz";
  }

  lemma OccursInMeabaran()
    ensures OccursAt("meabaran", "bar", 3)
  {
    assert "meabaran"[3..6] == "bar";
  }

  lemma OccursInFooMet()
    ensures OccursAt("foo_met", "foo", 0)
  {
    assert "foo_met"[0..3] == "foo";
  }

  /** Accepted cases of the source's table of examples: "baz" occurs in "brabaz". */
  lemma IsPercentAcceptsLastPiece()
    ensures IsPercent("brabaz", "foo,bar,baz")
  {
    assert Join(["foo", "bar", "baz"], [',']) == "foo,bar,baz";
    JoinThenSplit(["foo", "bar", "baz"], ',');
    OccursInBrabaz();
    IsPercentByPiece("brabaz", "foo,bar,baz", "baz", 3);
  }

  /** Accepted cases of the source's table of examples: "bar" occurs inside "meabaran". */
  lemma IsPercentAcceptsInside()
    ensures IsPercent("meabaran", "foo,bar")
  {
    assert Join(["foo", "bar"], [',']) == "foo,bar";
    JoinThenSplit(["foo", "bar"], ',');
    OccursInMeabaran();
    IsPercentByPiece("meabaran", "foo,bar", "bar", 3);
  }

  /** Accepted cases of the source's table of examples: "foo" starts "foo_met". */
  lemma IsPercentAcceptsPrefix()
    ensures IsPercent("foo_met", "foo")
  {
    SplitWithoutSeparator("foo", ',');
    OccursInFooMet();
    IsPercentByPiece("foo_met", "foo", "foo", 0);
  }

  /** The argument errors of randomFunc and randomDuration. */
  datatype ArgumentError =
    | UnknownFunction(name: string)
    | IntervalSyntax
    | DurationSyntax(text: string)
    | MinimumTooSmall(text: string)
    | MinimumAboveMaximum

  /** the first piece that is not a valid function, if any */
  function FirstInvalidFunction(pieces: seq<string>): (r: Option<string>)
    ensures r.None? <==> forall i :: 0 <= i < |pieces| ==> IsInSlice(pieces[i], ValidFunctions)
    ensures r.Some? ==> exists i :: 0 <= i < |pieces| && pieces[i] == r.value && !IsInSlice(r.value, ValidFunctions) &&
                                  forall j :: 0 <= j < i ==> IsInSlice(pieces[j], ValidFunctions)
  {
    if |pieces| == 0 then None
    else if !IsInSlice(pieces[0], ValidFunctions) then Some(pieces[0])
    else
      var rest := FirstInvalidFunction(pieces[1..]);
      assert forall i :: 1 <= i < |pieces| ==> pieces[i] == pieces[1..][i - 1];
      if rest.Some? then
        var i :| 0 <= i < |pieces[1..]| && pieces[1..][i] == rest.value && !IsInSlice(rest.value, ValidFunctions) &&
                 forall j :: 0 <= j < i ==> IsInSlice(pieces[1..][j], ValidFunctions);
        assert pieces[i + 1] == rest.value;
        rest
      else rest
  }

  /**
   * randomFunc: every comma-separated piece must be a valid function (the
   * first that is not is reported); the result is one of the pieces, chosen
   * by rand.Intn. strings.Split never returns fewer than one piece, so the
   * source's "specify one or more functions" error cannot arise.
   */
  function RandomFunc(functions: string, pick: nat): (r: Result<string, ArgumentError>)
    ensures r.Err? <==> exists p :: p in Split(functions, ',') && !IsInSlice(p, ValidFunctions)
    ensures r.Err? ==> r.error.UnknownFunction? && r.error.name in Split(functions, ',')
    ensures r.Err? ==> FirstInvalidFunction(Split(functions, ',')) == Some(r.error.name)
    ensures r.Ok? ==> r.value in Split(functions, ',') && IsInSlice(r.value, ValidFunctions)
  {
    var pieces := Split(functions, ',');
    match FirstInvalidFunction(pieces)
    case Some(name) =>
      assert name in Split(functions, ',') && !IsInSlice(name, ValidFunctions);
      Err(UnknownFunction(name))
    case None => Ok(pieces[pick % |pieces|])
  }

  /**
   * Any non-empty comma-joined list of valid functions is accepted, and the
   * function picked is one of them.
   */
  lemma RandomFuncAcceptsValid(functions: seq<string>, pick: nat)
    requires |functions| >= 1 && forall i :: 0 <= i < |functions| ==> IsInSlice(functions[i], ValidFunctions)
    ensures RandomFunc(Join(functions, ","), pick).Ok?
    ensures RandomFunc(Join(functions, ","), pick).value in functions
  {
    var text := Join(functions, ",");
    assert Split(text, ',') == functions by {
      forall i | 0 <= i < |functions|
        ensures ',' !in functions[i]
      {
        ValidFunctionWithoutComma(functions[i]);
      }
      JoinThenSplit(functions, ',');
      assert [','] == ",";
    }
    RandomFuncValidPieces(text, pick);
  }

  /** A text whose every piece is a valid function is accepted. */
  lemma RandomFuncValidPieces(functions: string, pick: nat)
    requires forall i :: 0 <= i < |Split(functions, ',')| ==> IsInSlice(Split(functions, ',')[i], ValidFunctions)
    ensures RandomFunc(functions, pick).Ok?
  {
    var pieces := Split(functions, ',');
    forall p | p in pieces
      ensures IsInSlice(p, ValidFunctions)
    {
      var i :| 0 <= i < |pieces| && pieces[i] == p;
    }
  }

  lemma ValidFunctionWithoutComma(name: string)
    requires IsInSlice(name, ValidFunctions)
    ensures ',' !in name
  {
    IsInSliceIsMembership(name, ValidFunctions);
    assert name == "rand" || name == "asc" || name == "desc" || name == "sin";
  }

  /** An accepted case of the source's table of examples: all four functions. */
  lemma RandomFuncAcceptsAll(pick: nat)
    ensures RandomFunc("rand,asc,desc,sin", pick).Ok?
  {
    assert Join(ValidFunctions, ",") == "rand,asc,desc,sin";
    RandomFuncAcceptsValid(ValidFunctions, pick);
  }

  /**
   * A single valid function is accepted and is the only choice, as the
   * source's table of examples expects for "sin" and "rand".
   */
  lemma RandomFuncAcceptsOne(functions: string, pick: nat)
    requires IsInSlice(functions, ValidFunctions)
    ensures RandomFunc(functions, pick) == Ok(functions)
  {
    ValidFunctionWithoutComma(functions);
    SplitWithoutSeparator(functions, ',');
  }

  /** A piece that is not a valid function makes randomFunc fail. */
  lemma RandomFuncRefusesPiece(functions: string, name: string, pick: nat)
    requires name in Split(functions, ',') && !IsInSlice(name, ValidFunctions)
    ensures RandomFunc(functions, pick).Err?
  {
  }

  /**
   * The refused cases of the source's table of examples, each with the piece
   * the error names: "foo" for an unknown name, "" for an empty piece after
   * a trailing comma or for the empty text.
   */
  lemma RandomFuncRefusedExamples(functions: string, pick: nat)
    requires functions in {"sin,foo", "foo", "rand,desc,", "rand,", ""}
    ensures RandomFunc(functions, pick) ==
      Err(UnknownFunction(if functions == "sin,foo" || functions == "foo" then "foo" else ""))
  {
    if functions == "sin,foo" {
      assert Join(["sin", "foo"], [',']) == functions;
      RefusedAt(["sin", "foo"], functions, 1, pick);
    } else if functions == "rand,desc," {
      assert Join(["rand", "desc", ""], [',']) == functions;
      RefusedAt(["rand", "desc", ""], functions, 2, pick);
    } else if functions == "rand," {
      assert Join(["rand", ""], [',']) == functions;
      RefusedAt(["rand", ""], functions, 1, pick);
    } else {
      assert Join([functions], [',']) == functions;
      RefusedAt([functions], functions, 0, pick);
    }
  }

  /**
   * A comma-joined list of comma-free pieces is refused with the error
   * naming piece k, when k is invalid and every piece before it is valid.
   */
  lemma RefusedAt(pieces: seq<string>, functions: string, k: nat, pick: nat)
    requires |pieces| > 0 && Join(pieces, [',']) == functions
    requires forall i :: 0 <= i < |pieces| ==> ',' !in pieces[i]
    requires k < |pieces| && !(pieces[k] in ValidFunctions)
    requires forall j :: 0 <= j < k ==> pieces[j] in ValidFunctions
    ensures RandomFunc(functions, pick) == Err(UnknownFunction(pieces[k]))
  {
    JoinThenSplit(pieces, ',');
    FirstInvalidAt(pieces, k);
  }

  lemma {:induction false} FirstInvalidAt(pieces: seq<string>, k: nat)
    requires k < |pieces| && !(pieces[k] in ValidFunctions)
    requires forall j :: 0 <= j < k ==> pieces[j] in ValidFunctions
    ensures FirstInvalidFunction(pieces) == Some(pieces[k])
    decreases k
  {
    IsInSliceIsMembership(pieces[0], ValidFunctions);
    if k > 0 {
      assert pieces[1..][k - 1] == pieces[k];
      forall j | 0 <= j < k - 1 ensures pieces[1..][j] in ValidFunctions {
        assert pieces[1..][j] == pieces[j + 1];
      }
      FirstInvalidAt(pieces[1..], k - 1);
    }
  }

  /** time.Duration.Seconds */
  function Seconds(d: int): real
  {
    d as real / Second as real
  }

  /**
   * randomDuration: the text must split on '-' into exactly two durations,
   * the first at least 15s and not above the second. The result lies at the
   * fraction `draw` between the two, truncated to whole seconds.
   */
  function RandomDuration(interval: string, parseDuration: string -> Option<int>, draw: real): (r: Result<int, ArgumentError>)
    ensures r.Ok? <==>
      |Split(interval, '-')| == 2 &&
      parseDuration(Split(interval, '-')[0]).Some? && parseDuration(Split(interval, '-')[0]).value >= 15 * Second &&
      parseDuration(Split(interval, '-')[1]).Some? &&
      parseDuration(Split(interval, '-')[0]).value <= parseDuration(Split(interval, '-')[1]).value
  {
    var times := Split(interval, '-');
    if |times| != 2 then Err(IntervalSyntax)
    else match parseDuration(times[0])
      case None => Err(DurationSyntax(times[0]))
      case Some(from) =>
        if from < 15 * Second then Err(MinimumTooSmall(times[0]))
        else match parseDuration(times[1])
          case None => Err(DurationSyntax(times[1]))
          case Some(to) =>
            if from > to then Err(MinimumAboveMaximum)
            else Ok(DurationBetween(from, to, draw))
  }

  /** The duration at the fraction `draw` between the bounds, truncated to whole seconds. */
  function DurationBetween(from: int, to: int, draw: real): int
  {
    WholeSeconds(SecondsBetween(from, to, draw))
  }

  /** the seconds at the fraction `draw` of the way from `from` to `to` */
  function SecondsBetween(from: int, to: int, draw: real): real
  {
    Seconds(from) + Span(Seconds(from), Seconds(to)) * draw
  }

  /** time.Duration(int64(d)) * time.Second; int64 truncates toward zero, which is Floor for the d >= 15 that reach it */
  function WholeSeconds(d: real): int
  {
    d.Floor * Second
  }

  /** Texts that do not split into two pieces on '-' are refused with the syntax error, whatever the durations. */
  lemma RandomDurationSyntax(interval: string, parseDuration: string -> Option<int>, draw: real)
    requires |Split(interval, '-')| != 2
    ensures RandomDuration(interval, parseDuration, draw) == Err(IntervalSyntax)
  {
  }

  /** The empty text of the source's table of examples, and a single duration, are syntax errors. */
  lemma RandomDurationSyntaxExamples(interval: string, parseDuration: string -> Option<int>, draw: real)
    requires interval == "" || interval == "20s"
    ensures RandomDuration(interval, parseDuration, draw) == Err(IntervalSyntax)
  {
    SplitWithoutSeparator(interval, '-');
    RandomDurationSyntax(interval, parseDuration, draw);
  }

  /**
   * For a draw in [0, 1) a duration is a whole number of seconds, never
   * below 15s nor above the upper bound, and never below the lower bound
   * when that is a whole number of seconds.
   */
  lemma RandomDurationWithin(interval: string, parseDuration: string -> Option<int>, draw: real)
    requires 0.0 <= draw < 1.0
    requires RandomDuration(interval, parseDuration, draw).Ok?
    ensures var times := Split(interval, '-');
      var from := parseDuration(times[0]).value;
      var to := parseDuration(times[1]).value;
      var r := RandomDuration(interval, parseDuration, draw).value;
      15 * Second <= r <= to && r % Second == 0 && (from % Second == 0 ==> from <= r)
  {
    var times := Split(interval, '-');
    var from := parseDuration(times[0]).value;
    var to := parseDuration(times[1]).value;
    assert RandomDuration(interval, parseDuration, draw) == Ok(DurationBetween(from, to, draw));
    DurationBetweenWithin(from, to, draw);
  }

  /** The bounds of DurationBetween for a draw in [0, 1) and bounds from 15s up. */
  lemma DurationBetweenWithin(from: int, to: int, draw: real)
    requires 0.0 <= draw < 1.0 && 15 * Second <= from <= to
    ensures 15 * Second <= DurationBetween(from, to, draw) <= to
    ensures DurationBetween(from, to, draw) % Second == 0
    ensures from % Second == 0 ==> from <= DurationBetween(from, to, draw)
  {
    SecondsBetweenWithin(from, to, draw);
    assert 15.0 <= Seconds(from);
    WholeSecondsBetween(SecondsBetween(from, to, draw), from, to);
  }

  /** A draw in [0, 1) lands between the bounds. */
  lemma SecondsBetweenWithin(from: int, to: int, draw: real)
    requires 0.0 <= draw < 1.0 && from <= to
    ensures Seconds(from) <= SecondsBetween(from, to, draw) <= Seconds(to)
  {
    var a, b := Seconds(from), Seconds(to);
    assert a <= b;
    ScaledWithin(Span(a, b), draw);
  }

  lemma WholeSecondsBetween(d: real, from: int, to: int)
    requires 15.0 <= Seconds(from) <= d <= Seconds(to)
    ensures 15 * Second <= WholeSeconds(d) <= to
    ensures WholeSeconds(d) % Second == 0
    ensures from % Second == 0 ==> from <= WholeSeconds(d)
  {
    assert d.Floor as real <= d;
    assert (d.Floor * Second) as real == d.Floor as real * Second as real;
    assert Seconds(to) * Second as real == to as real;
    assert d.Floor as real * Second as real <= Seconds(to) * Second as real;
    assert d.Floor >= 15;
    if from % Second == 0 {
      var k := from / Second;
      assert from == k * Second;
      assert Seconds(from) == k as real;
      assert k <= d.Floor;
    }
  }

  /** The bounds of a converted value. */
  datatype Bounds = Bounds(min: real, max: real)

  /** value · pct / 100 */
  function Deviation(value: real, pct: real): real
  {
    value * pct / 100.0
  }

  /**
   * randomRange: value ∓ value · pct / 100, for a percentage pct drawn from
   * [0, maxDeviation).
   */
  function RandomRange(value: real, maxDeviation: int, draw: real): Bounds
  {
    var pct := draw * maxDeviation as real;
    Bounds(value - Deviation(value, pct), value + Deviation(value, pct))
  }

  /**
   * randomRange is centred on the value; for a non-negative value and
   * deviation and a draw in [0, 1) it brackets the value and stays within
   * maxDeviation percent of it, and a zero deviation gives the value itself.
   */
  lemma RandomRangeAround(value: real, maxDeviation: int, draw: real)
    requires value >= 0.0 && maxDeviation >= 0 && 0.0 <= draw < 1.0
    ensures var b := RandomRange(value, maxDeviation, draw);
      b.min + b.max == 2.0 * value &&
      value - Deviation(value, maxDeviation as real) <= b.min <= value <= b.max <= value + Deviation(value, maxDeviation as real) &&
      (maxDeviation == 0 ==> b.min == value == b.max) &&
      (maxDeviation <= 100 ==> 0.0 <= b.min)
  {
    var dev := maxDeviation as real;
    var pct := draw * dev;
    ScaledWithin(dev, draw);
    DeviationMonotonic(value, pct, dev);
    DeviationMonotonic(value, 0.0, pct);
    if maxDeviation <= 100 {
      DeviationMonotonic(value, dev, 100.0);
    }
  }

  lemma DeviationMonotonic(value: real, p: real, q: real)
    requires value >= 0.0 && 0.0 <= p <= q
    ensures 0.0 <= Deviation(value, p) <= Deviation(value, q)
    ensures Deviation(value, 100.0) == value && Deviation(value, 0.0) == 0.0
  {
    assert value * p <= value * q;
  }

  /** The cases of the source's table of examples: 10±100% within [0, 20], 10±10% within [9, 11]. */
  lemma RandomRangeExamples(draw: real)
    requires 0.0 <= draw < 1.0
    ensures 0.0 <= RandomRange(10.0, 100, draw).min && RandomRange(10.0, 100, draw).max <= 20.0
    ensures 9.0 <= RandomRange(10.0, 10, draw).min && RandomRange(10.0, 10, draw).max <= 11.0
    ensures RandomRange(42.0, 0, draw) == Bounds(42.0, 42.0)
    ensures RandomRange(0.0, 0, draw) == Bounds(0.0, 0.0)
  {
    RandomRangeAround(10.0, 100, draw);
    RandomRangeAround(10.0, 10, draw);
    RandomRangeAround(42.0, 0, draw);
    RandomRangeAround(0.0, 0, draw);
  }

  function RealMax(a: real, b: real): real { if a >= b then a else b }

  function RealMin(a: real, b: real): real { if a <= b then a else b }

  /** The bounds of a percentage: math.Max(0, v - dev) and math.Min(100, v + dev). */
  function PercentRange(value: real, maxDeviation: int): Bounds
  {
    Bounds(RealMax(0.0, value - maxDeviation as real), RealMin(100.0, value + maxDeviation as real))
  }

  /** A percentage in [0, 100] gets bounds within [0, 100] that bracket it. */
  lemma PercentRangeWithin(value: real, maxDeviation: int)
    requires 0.0 <= value <= 100.0 && maxDeviation >= 0
    ensures var b := PercentRange(value, maxDeviation);
      0.0 <= b.min <= value <= b.max <= 100.0 &&
      value - maxDeviation as real <= b.min && b.max <= value + maxDeviation as real
  {
  }

  /** A "percentage" above 100 + deviation gets inverted bounds. */
  lemma PercentRangeAboveHundred()
    ensures PercentRange(200.0, 10) == Bounds(190.0, 100.0)
  {
  }

  /* ---------------------------------------------------------------------- */
  /* Sample labels                                                           */
  /* ---------------------------------------------------------------------- */

  /**
   * One `key=value` piece of a sample's label text: kv[0] and kv[1] of its
   * split on '=', unquoted; None where kv[1] does not exist (the source
   * indexes it anyway and panics).
   */
  function LabelPair(piece: string): (r: Option<(string, string)>)
    ensures r.None? <==> '=' !in piece
  {
    var kv := Split(piece, '=');
    if |kv| < 2 then
      assert '=' !in piece by { if '=' in piece { SplitWithSeparator(piece, '='); } }
      None
    else
      assert '=' in piece by { if '=' !in piece { SplitWithoutSeparator(piece, '='); } }
      Some((StripQuotes(kv[0]), StripQuotes(kv[1])))
  }

  /** A quoted value after a plain key reads back as that key and value. */
  lemma LabelPairOfQuoted(key: string, value: string)
    requires '=' !in key && '=' !in value
    requires |key| == 0 || (key[0] != '"' && key[|key| - 1] != '"')
    ensures LabelPair(key + "=\"" + value + "\"") == Some((key, value))
  {
    var quoted := "\"" + value + "\"";
    assert '=' !in quoted;
    assert key + "=\"" + value + "\"" == key + ['='] + quoted;
    SplitPair(key, quoted, '=');
    StripQuotesOfQuoted(value);
  }

  /** The label map the pieces build, left to right; None once a piece has no '='. */
  function LabelsFrom(pieces: seq<string>): Option<map<string, string>>
  {
    if |pieces| == 0 then Some(map[])
    else
      match LabelsFrom(pieces[..|pieces| - 1])
      case None => None
      case Some(m) =>
        match LabelPair(pieces[|pieces| - 1])
        case None => None
        case Some(kv) => Some(m[kv.0 := kv.1])
  }

  /**
   * The labels of a sample build a map exactly when every piece holds '=';
   * its keys are then exactly the pieces' keys, and the last piece's value
   * wins for its key.
   */
  lemma LabelsFromSpec(pieces: seq<string>)
    ensures LabelsFrom(pieces).None? <==> exists q :: q in pieces && '=' !in q
    ensures LabelsFrom(pieces).Some? ==>
      (forall q :: q in pieces ==> LabelPair(q).value.0 in LabelsFrom(pieces).value) &&
      (forall k :: k in LabelsFrom(pieces).value ==> exists q :: q in pieces && LabelPair(q).value.0 == k)
    ensures LabelsFrom(pieces).Some? && |pieces| > 0 ==>
      var last := LabelPair(pieces[|pieces| - 1]).value;
      LabelsFrom(pieces).value[last.0] == last.1
  {
    LabelsFromNone(pieces);
    if LabelsFrom(pieces).Some? {
      LabelsFromKeys(pieces);
    }
  }

  /** The labels fail exactly when some piece has no '='. */
  lemma {:induction false} LabelsFromNone(pieces: seq<string>)
    ensures LabelsFrom(pieces).None? <==> exists q :: q in pieces && '=' !in q
    decreases |pieces|
  {
    if |pieces| > 0 {
      var init := pieces[..|pieces| - 1];
      var last := pieces[|pieces| - 1];
      LabelsFromNone(init);
      assert pieces == init + [last];
      if LabelsFrom(pieces).None? && LabelsFrom(init).Some? {
        assert last in pieces && '=' !in last;
      }
      if LabelsFrom(init).None? {
        var q :| q in init && '=' !in q;
        assert q in pieces;
      }
    }
  }

  /** When the labels build a map, its keys are exactly the keys of the pieces. */
  lemma {:induction false} LabelsFromKeys(pieces: seq<string>)
    requires LabelsFrom(pieces).Some?
    ensures forall q :: q in pieces ==> LabelPair(q).Some? && LabelPair(q).value.0 in LabelsFrom(pieces).value
    ensures forall k :: k in LabelsFrom(pieces).value ==> exists q :: q in pieces && LabelPair(q).Some? && LabelPair(q).value.0 == k
    decreases |pieces|
  {
    if |pieces| > 0 {
      var init := pieces[..|pieces| - 1];
      var last := pieces[|pieces| - 1];
      LabelsFromKeys(init);
      var m := LabelsFrom(init).value;
      var kv := LabelPair(last).value;
      assert LabelsFrom(pieces).value == m[kv.0 := kv.1];
      assert pieces == init + [last];
      forall q | q in pieces
        ensures LabelPair(q).Some? && LabelPair(q).value.0 in LabelsFrom(pieces).value
      {
        if q != last {
          assert q in init;
        }
      }
      forall k | k in LabelsFrom(pieces).value
        ensures exists q :: q in pieces && LabelPair(q).Some? && LabelPair(q).value.0 == k
      {
        if k == kv.0 {
          assert last in pieces;
        } else {
          var q :| q in init && LabelPair(q).Some? && LabelPair(q).value.0 == k;
          assert q in pieces;
        }
      }
    }
  }

  /** A piece without '=' anywhere makes the whole label text fail, however it continues. */
  lemma {:induction false} LabelsFromStaysNone(pieces: seq<string>, j: nat)
    requires j <= |pieces| && LabelsFrom(pieces[..j]).None?
    ensures LabelsFrom(pieces).None?
    decreases |pieces| - j
  {
    if j < |pieces| {
      assert pieces[..j + 1][..j] == pieces[..j];
      LabelsFromStaysNone(pieces, j + 1);
    } else {
      assert pieces[..j] == pieces;
    }
  }

  /** the labels of a sample, from the text of its labels group */
  function SampleLabels(text: string): Option<map<string, string>>
  {
    if text == "" then Some(map[]) else LabelsFrom(Split(text, ','))
  }

  /** The loop that fills the label map of a sample from its label text. */
  method ParseLabels(text: string) returns (labels: Option<map<string, string>>)
    ensures labels == LabelsFrom(Split(text, ','))
  {
    var pieces := Split(text, ',');
    var m: map<string, string> := map[];
    var i := 0;
    while i < |pieces|
      invariant 0 <= i <= |pieces|
      invariant LabelsFrom(pieces[..i]) == Some(m)
    {
      assert pieces[..i + 1][..i] == pieces[..i];
      var kv := Split(pieces[i], '=');
      if |kv| < 2 {
        LabelsFromStaysNone(pieces, i + 1);
        return None;
      }
      m := m[StripQuotes(kv[0]) := StripQuotes(kv[1])];
      i := i + 1;
    }
    assert pieces[..i] == pieces;
    return Some(m);
  }

  /* ---------------------------------------------------------------------- */
  /* The line-by-line conversion                                             */
  /* ---------------------------------------------------------------------- */

  /** The arguments of the conversion. */
  datatype Settings = Settings(maxDeviation: int, functions: string, interval: string, honorpct: string)

  /**
   * What the conversion takes from outside: the submatches regexpMetricItem
   * finds in a line, strconv.ParseFloat, time.ParseDuration, and the draws
   * made for the sample on a given line (rand.Intn in randomFunc,
   * rand.Float64 in randomDuration and in randomRange).
   */
  datatype ScrapeEnv = ScrapeEnv(
    submatches: string -> seq<string>,
    parseFloat: string -> Option<real>,
    parseDuration: string -> Option<int>,
    funcPick: nat -> nat,
    durationDraw: nat -> real,
    rangeDraw: nat -> real)

  /** The groups of regexpMetricItem: the whole match, then name, labels and value. */
  const ItemGroups: seq<string> := ["", "name", "labels", "value"]

  /**
   * createMatchMap over the submatches of a sample-line expression (this one
   * and the one of cmd/convert.go have the same groups). A match has four
   * submatches; an answer of any other length cannot come from the
   * expression and reads as no match.
   */
  function SubmatchMap(sub: seq<string>): map<string, string>
  {
    if |sub| == |ItemGroups| then CreateMatchMap(ItemGroups, sub) else map[]
  }

  /** A match gives its name, labels and value groups; anything else an empty map. */
  lemma SubmatchMapSpec(sub: seq<string>)
    ensures SubmatchMap(sub) == if |sub| == 4 then map["name" := sub[1], "labels" := sub[2], "value" := sub[3]] else map[]
  {
    if |sub| == 4 {
      assert MatchMapUpTo(ItemGroups, sub, 1) == map[];
      assert MatchMapUpTo(ItemGroups, sub, 2) == map["name" := sub[1]];
      assert MatchMapUpTo(ItemGroups, sub, 3) == map["name" := sub[1], "labels" := sub[2]];
    }
  }

  /** createMatchMap(regexpMetricItem, line) */
  function ItemMatch(env: ScrapeEnv, line: string): map<string, string>
  {
    SubmatchMap(env.submatches(line))
  }

  /** The parser's flags and the name of the metric announced by the last HELP. */
  datatype ScrapeState = ScrapeState(expectHelp: bool, expectType: bool, expectMetric: bool, skipMetric: bool, metricName: string)

  const Start: ScrapeState := ScrapeState(true, false, false, false, "")

  /**
   * Why a conversion fails, with the index of the line. IndexOutOfRange is
   * the panic of fields[2], fields[3] or kv[1] on a line too short for it;
   * BadArgument an argument refused before any line is read.
   */
  datatype ConvertError =
    | UnexpectedHelp(lineno: nat)
    | UnexpectedType(lineno: nat)
    | OutOfOrderType(lineno: nat, line: string, expected: string)
    | UnknownMetric(lineno: nat, name: string)
    | UnexpectedSample(lineno: nat, line: string)
    | Refused(lineno: nat, err: ModelError)
    | IndexOutOfRange(lineno: nat)
    | BadArgument(argErr: ArgumentError)

  datatype Progress = Progress(st: ScrapeState, c: CollectionValue)

  const Initial: Progress := Progress(Start, CollectionValue("1", []))

  /** Prometheus' own metrics, which the conversion drops. */
  predicate IsInternal(name: string)
  {
    HasPrefix(name, "go_") || HasPrefix(name, "process_") || HasPrefix(name, "promhttp_")
  }

  /** a line that is neither blank, nor HELP, nor TYPE */
  predicate IsSampleLine(line: string)
  {
    line != "" && !HasPrefix(line, "# HELP") && !HasPrefix(line, "# TYPE")
  }

  /** A `# HELP name text` line. */
  function HelpStep(lineno: nat, line: string, p: Progress): Result<Progress, ConvertError>
  {
    if !p.st.expectHelp then Err(UnexpectedHelp(lineno))
    else
      var fields := Split(line, ' ');
      if |fields| < 3 then Err(IndexOutOfRange(lineno))
      else
        var name := fields[2];
        var st := p.st.(expectHelp := false, expectType := true, skipMetric := IsInternal(name), metricName := name);
        if IsInternal(name) then Ok(Progress(st, p.c))
        else
          match AddMetricTo(p.c, MetricValue(name, Join(fields[3..], " "), "", None, []))
          case Err(e) => Err(Refused(lineno, e))
          case Ok(c) => Ok(Progress(st, c))
  }

  /** A `# TYPE name kind` line. */
  function TypeStep(lineno: nat, line: string, p: Progress): Result<Progress, ConvertError>
  {
    if !p.st.expectType then Err(UnexpectedType(lineno))
    else
      var st := p.st.(expectHelp := true, expectType := false, expectMetric := true);
      var fields := Split(line, ' ');
      if |fields| < 3 then Err(IndexOutOfRange(lineno))
      else if fields[2] != p.st.metricName then Err(OutOfOrderType(lineno, line, p.st.metricName))
      else if p.st.skipMetric then Ok(Progress(st, p.c))
      else if |fields| < 4 then Err(IndexOutOfRange(lineno))
      else
        match IndexOfName(p.c.metrics, p.st.metricName)
        case None => Err(UnknownMetric(lineno, p.st.metricName))
        case Some(i) => Ok(Progress(st, p.c.(metrics := p.c.metrics[i := p.c.metrics[i].(kind := fields[3])])))
  }

  /**
   * The item a kept sample becomes: a function chosen by randomFunc and a
   * duration by randomDuration (their errors ignored, leaving "" and 0),
   * bounds from the value, and the sample's labels.
   */
  function SampleItem(s: Settings, env: ScrapeEnv, lineno: nat, name: string, value: real, labels: map<string, string>): MetricItem
  {
    var f := match RandomFunc(s.functions, env.funcPick(lineno)) case Ok(f) => f case Err(_) => "";
    var d := match RandomDuration(s.interval, env.parseDuration, env.durationDraw(lineno)) case Ok(d) => d case Err(_) => 0;
    var b := if IsPercent(name, s.honorpct) then PercentRange(value, s.maxDeviation)
             else RandomRange(value, s.maxDeviation, env.rangeDraw(lineno));
    MetricItem(b.min, b.max, f, d, labels)
  }

  /** A sample line. */
  ghost function SampleStep(s: Settings, env: ScrapeEnv, lineno: nat, line: string, p: Progress): Result<Progress, ConvertError>
  {
    if !p.st.expectMetric then Err(UnexpectedSample(lineno, line))
    else
      var st := p.st.(expectHelp := true, expectType := false, expectMetric := true);
      var mm := ItemMatch(env, line);
      if p.st.skipMetric || mm == map[] || Get(mm, "name") != p.st.metricName then Ok(Progress(st, p.c))
      else
        match IndexOfName(p.c.metrics, p.st.metricName)
        case None => Err(UnknownMetric(lineno, p.st.metricName))
        case Some(i) =>
          match env.parseFloat(Get(mm, "value"))
          case None => Ok(Progress(st, p.c))
          case Some(v) =>
            match SampleLabels(Get(mm, "labels"))
            case None => Err(IndexOutOfRange(lineno))
            case Some(labels) =>
              match AddItemTo(p.c.metrics[i], SampleItem(s, env, lineno, p.st.metricName, v, labels))
              case Err(e) => Err(Refused(lineno, e))
              case Ok(m) => Ok(Progress(st, p.c.(metrics := p.c.metrics[i := m])))
  }

  /** One line of the scrape. */
  ghost function LineStep(s: Settings, env: ScrapeEnv, lineno: nat, line: string, p: Progress): Result<Progress, ConvertError>
  {
    if line == "" then Ok(p)
    else if HasPrefix(line, "# HELP") then HelpStep(lineno, line, p)
    else if HasPrefix(line, "# TYPE") then TypeStep(lineno, line, p)
    else SampleStep(s, env, lineno, line, p)
  }

  /** The lines from index `lineno` on, each taken in turn, stopping at the first error. */
  ghost function RunFrom(s: Settings, env: ScrapeEnv, lineno: nat, lines: seq<string>, p: Progress): Result<Progress, ConvertError>
    decreases |lines|
  {
    if |lines| == 0 then Ok(p)
    else
      match LineStep(s, env, lineno, lines[0], p)
      case Err(e) => Err(e)
      case Ok(p') => RunFrom(s, env, lineno + 1, lines[1..], p')
  }

  /** convertScrapeToConfig on values. */
  ghost function Convert(s: Settings, env: ScrapeEnv, lines: seq<string>): Result<CollectionValue, ConvertError>
  {
    var r := RunFrom(s, env, 0, lines, Initial);
    if r.Ok? then Ok(r.value.c) else Err(r.error)
  }

  /**
   * ScrapefileToCollection once the file is read: the function and interval
   * arguments are checked first (their draws do not decide the outcome).
   */
  ghost function ScrapefileToCollection(s: Settings, env: ScrapeEnv, lines: seq<string>): Result<CollectionValue, ConvertError>
  {
    match RandomFunc(s.functions, 0)
    case Err(e) => Err(BadArgument(e))
    case Ok(_) =>
      match RandomDuration(s.interval, env.parseDuration, 0.0)
      case Err(e) => Err(BadArgument(e))
      case Ok(_) => Convert(s, env, lines)
  }

  /* ---------------------------------------------------------------------- */
  /* The conversion on the Collection and Metric objects                     */
  /* ---------------------------------------------------------------------- */

  method HelpLine(c: Collection, st: ScrapeState, lineno: nat, line: string) returns (st': ScrapeState, err: Option<ConvertError>)
    requires c.Valid()
    modifies c
    ensures c.Valid()
    ensures |old(c.metrics)| <= |c.metrics| && c.metrics[..|old(c.metrics)|] == old(c.metrics)
    ensures forall k :: |old(c.metrics)| <= k < |c.metrics| ==> fresh(c.metrics[k])
    ensures var r := HelpStep(lineno, line, Progress(st, old(c.Value())));
      (r.Ok? ==> err.None? && st' == r.value.st && c.Value() == r.value.c) &&
      (r.Err? ==> err == Some(r.error))
  {
    if !st.expectHelp {
      return st, Some(UnexpectedHelp(lineno));
    }
    var fields := Split(line, ' ');
    if |fields| < 3 {
      return st, Some(IndexOutOfRange(lineno));
    }
    var name := fields[2];
    st' := st.(expectHelp := false, expectType := true, skipMetric := IsInternal(name), metricName := name);
    if IsInternal(name) {
      return st', None;
    }
    var e, added := c.AddMetric(MetricValue(name, Join(fields[3..], " "), "", None, []));
    if e.Some? {
      return st', Some(Refused(lineno, e.value));
    }
    err := None;
  }

  method TypeLine(c: Collection, st: ScrapeState, lineno: nat, line: string) returns (st': ScrapeState, err: Option<ConvertError>)
    requires c.Valid()
    modifies c.metrics
    ensures var r := TypeStep(lineno, line, Progress(st, old(c.Value())));
      (r.Ok? ==> err.None? && st' == r.value.st && c.Value() == r.value.c) &&
      (r.Err? ==> err == Some(r.error))
  {
    if !st.expectType {
      return st, Some(UnexpectedType(lineno));
    }
    st' := st.(expectHelp := true, expectType := false, expectMetric := true);
    var fields := Split(line, ' ');
    if |fields| < 3 {
      return st', Some(IndexOutOfRange(lineno));
    }
    if fields[2] != st.metricName {
      return st', Some(OutOfOrderType(lineno, line, st.metricName));
    }
    if st.skipMetric {
      return st', None;
    }
    if |fields| < 4 {
      return st', Some(IndexOutOfRange(lineno));
    }
    var found := c.GetMetric(st.metricName);
    if found.None? {
      return st', Some(UnknownMetric(lineno, st.metricName));
    }
    ghost var v := c.Value();
    ghost var i := IndexOfName(v.metrics, st.metricName).value;
    found.value.kind := fields[3];
    forall k | 0 <= k < |c.metrics| && k != i
      ensures c.metrics[k].Value() == old(c.metrics[k].Value())
    {
      assert c.metrics[k] != c.metrics[i];
    }
    ValuesAre(c.metrics, v.metrics[i := v.metrics[i].(kind := fields[3])]);
    err := None;
  }

  /**
   * The item added to the metric the collection holds under `name`: the
   * metric at that index changes as AddItemTo says, and no other.
   */
  method AddItemToMetric(c: Collection, name: string, item: MetricItem) returns (err: Option<ModelError>)
    requires c.Valid() && IndexOfName(c.Value().metrics, name).Some?
    modifies c.metrics
    ensures var i := IndexOfName(old(c.Value()).metrics, name).value;
      var r := AddItemTo(old(c.Value()).metrics[i], item);
      (r.Ok? ==> err.None? && c.Value() == old(c.Value()).(metrics := old(c.Value()).metrics[i := r.value])) &&
      (r.Err? ==> err == Some(r.error))
  {
    ghost var v := c.Value();
    ghost var i := IndexOfName(v.metrics, name).value;
    var m := c.GetMetric(name).value;
    err := m.AddItem(item);
    if err.None? {
      forall k | 0 <= k < |c.metrics| && k != i
        ensures c.metrics[k].Value() == old(c.metrics[k].Value())
      {
        assert c.metrics[k] != c.metrics[i];
      }
      ValuesAre(c.metrics, v.metrics[i := AddItemTo(v.metrics[i], item).value]);
    }
  }

  /** The labels of a sample: none for an empty labels group, else ParseLabels. */
  method ReadSampleLabels(text: string) returns (labels: Option<map<string, string>>)
    ensures labels == SampleLabels(text)
  {
    if text == "" {
      return Some(map[]);
    }
    labels := ParseLabels(text);
  }

  method SampleLine(c: Collection, s: Settings, env: ScrapeEnv, st: ScrapeState, lineno: nat, line: string)
    returns (st': ScrapeState, err: Option<ConvertError>)
    requires c.Valid()
    modifies c.metrics
    ensures var r := SampleStep(s, env, lineno, line, Progress(st, old(c.Value())));
      (r.Ok? ==> err.None? && st' == r.value.st && c.Value() == r.value.c) &&
      (r.Err? ==> err == Some(r.error))
  {
    ghost var v := c.Value();
    ghost var r := SampleStep(s, env, lineno, line, Progress(st, v));
    if !st.expectMetric {
      assert r == Err(UnexpectedSample(lineno, line));
      return st, Some(UnexpectedSample(lineno, line));
    }
    st' := st.(expectHelp := true, expectType := false, expectMetric := true);
    var mm := ItemMatch(env, line);
    if st.skipMetric || mm == map[] || Get(mm, "name") != st.metricName {
      assert r == Ok(Progress(st', v));
      return st', None;
    }
    if c.GetMetric(st.metricName).None? {
      assert r == Err(UnknownMetric(lineno, st.metricName));
      return st', Some(UnknownMetric(lineno, st.metricName));
    }
    ghost var i := IndexOfName(v.metrics, st.metricName).value;
    var value := env.parseFloat(Get(mm, "value"));
    if value.None? {
      assert r == Ok(Progress(st', v));
      return st', None;
    }
    var labels := ReadSampleLabels(Get(mm, "labels"));
    if labels.None? {
      assert r == Err(IndexOutOfRange(lineno));
      return st', Some(IndexOutOfRange(lineno));
    }
    var item := SampleItem(s, env, lineno, st.metricName, value.value, labels.value);
    assert r ==
      match AddItemTo(v.metrics[i], item)
      case Err(e) => Err(Refused(lineno, e))
      case Ok(m) => Ok(Progress(st', v.(metrics := v.metrics[i := m])));
    var e := AddItemToMetric(c, st.metricName, item);
    if e.Some? {
      assert r == Err(Refused(lineno, e.value));
      return st', Some(Refused(lineno, e.value));
    }
    assert r == Ok(Progress(st', c.Value()));
    err := None;
  }


  /** One line of the loop of convertScrapeToConfig: blank lines are passed over, the rest dispatched on their prefix. */
  method ConvertLine(c: Collection, s: Settings, env: ScrapeEnv, st: ScrapeState, lineno: nat, line: string)
    returns (st': ScrapeState, err: Option<ConvertError>)
    requires c.Valid()
    modifies c, c.metrics
    ensures c.Valid()
    ensures |old(c.metrics)| <= |c.metrics| && c.metrics[..|old(c.metrics)|] == old(c.metrics)
    ensures forall k :: |old(c.metrics)| <= k < |c.metrics| ==> fresh(c.metrics[k])
    ensures var r := LineStep(s, env, lineno, line, Progress(st, old(c.Value())));
      (r.Ok? ==> err.None? && st' == r.value.st && c.Value() == r.value.c) &&
      (r.Err? ==> err == Some(r.error))
  {
    if line == "" {
      return st, None;
    } else if HasPrefix(line, "# HELP") {
      st', err := HelpLine(c, st, lineno, line);
    } else if HasPrefix(line, "# TYPE") {
      st', err := TypeLine(c, st, lineno, line);
    } else {
      st', err := SampleLine(c, s, env, st, lineno, line);
    }
  }

  /**
   * convertScrapeToConfig: builds a new Collection, version "1", line by
   * line; it returns the collection, or the first error.
   */
  /** One line of the loop, stated as the rest of the run it leaves. */
  method ConvertNext(c: Collection, s: Settings, env: ScrapeEnv, st: ScrapeState, lineno: nat, lines: seq<string>)
    returns (st': ScrapeState, err: Option<ConvertError>)
    requires c.Valid() && |lines| > 0
    modifies c, c.metrics
    ensures c.Valid()
    ensures |old(c.metrics)| <= |c.metrics| && c.metrics[..|old(c.metrics)|] == old(c.metrics)
    ensures forall k :: |old(c.metrics)| <= k < |c.metrics| ==> fresh(c.metrics[k])
    ensures var r := RunFrom(s, env, lineno, lines, Progress(st, old(c.Value())));
      if err.Some? then r == Err(err.value)
      else r == RunFrom(s, env, lineno + 1, lines[1..], Progress(st', c.Value()))
  {
    st', err := ConvertLine(c, s, env, st, lineno, lines[0]);
  }

  method ConvertScrapeToConfig(s: Settings, env: ScrapeEnv, lines: seq<string>) returns (result: Result<Collection, ConvertError>)
    ensures var r := Convert(s, env, lines);
      (r.Ok? ==> result.Ok? && fresh(result.value) && result.value.Value() == r.value) &&
      (r.Err? ==> result == Err(r.error))
  {
    var c := new Collection("1");
    var st := Start;
    var i := 0;
    while i < |lines|
      invariant 0 <= i <= |lines|
      invariant fresh(c) && c.Valid()
      invariant forall k :: 0 <= k < |c.metrics| ==> fresh(c.metrics[k])
      invariant RunFrom(s, env, i, lines[i..], Progress(st, c.Value())) == RunFrom(s, env, 0, lines, Initial)
    {
      assert lines[i..][1..] == lines[i + 1..];
      var err;
      st, err := ConvertNext(c, s, env, st, i, lines[i..]);
      if err.Some? {
        return Err(err.value);
      }
      i := i + 1;
    }
    return Ok(c);
  }

  /* ---------------------------------------------------------------------- */
  /* What every conversion keeps                                             */
  /* ---------------------------------------------------------------------- */

  /** a metric the conversion can have built: named, not internal, its labels in agreement */
  ghost predicate KeptMetric(m: MetricValue)
  {
    m.name != "" && !IsInternal(m.name) && LabelsAgree(m)
  }

  /**
   * The invariant of the conversion: version "1", distinct names, kept
   * metrics only, and, between a HELP and the next HELP of a metric that is
   * not skipped, that metric present in the collection.
   */
  ghost predicate Reachable(p: Progress)
  {
    p.c.version == "1" && DistinctNames(p.c.metrics) &&
    (forall k :: 0 <= k < |p.c.metrics| ==> KeptMetric(p.c.metrics[k])) &&
    ((p.st.expectType || p.st.expectMetric) && !p.st.skipMetric ==> IndexOfName(p.c.metrics, p.st.metricName).Some?)
  }

  lemma InitialReachable()
    ensures Reachable(Initial)
  {
  }

  lemma HelpStepKeeps(lineno: nat, line: string, p: Progress)
    requires Reachable(p) && HelpStep(lineno, line, p).Ok?
    ensures Reachable(HelpStep(lineno, line, p).value)
  {
    var fields := Split(line, ' ');
    var name := fields[2];
    if !IsInternal(name) {
      var m := MetricValue(name, Join(fields[3..], " "), "", None, []);
      AddMetricSpec(p.c, m);
      AddMetricKeepsNamesDistinct(p.c, m);
      var c' := AddMetricTo(p.c, m).value;
      forall k | 0 <= k < |c'.metrics| ensures KeptMetric(c'.metrics[k]) {
        if k < |p.c.metrics| {
          assert c'.metrics[k] == c'.metrics[..|p.c.metrics|][k];
        }
      }
    }
  }

  lemma TypeStepKeeps(lineno: nat, line: string, p: Progress)
    requires Reachable(p) && TypeStep(lineno, line, p).Ok?
    ensures Reachable(TypeStep(lineno, line, p).value)
  {
    var p' := TypeStep(lineno, line, p).value;
    if !p.st.skipMetric {
      SameNames(p.c.metrics, p'.c.metrics, p.st.metricName);
    }
  }

  lemma SampleStepKeeps(s: Settings, env: ScrapeEnv, lineno: nat, line: string, p: Progress)
    requires Reachable(p) && SampleStep(s, env, lineno, line, p).Ok?
    ensures Reachable(SampleStep(s, env, lineno, line, p).value)
  {
    var p' := SampleStep(s, env, lineno, line, p).value;
    if p'.c != p.c {
      var i := IndexOfName(p.c.metrics, p.st.metricName).value;
      var mm := ItemMatch(env, line);
      var v := env.parseFloat(Get(mm, "value")).value;
      var labels := SampleLabels(Get(mm, "labels")).value;
      var item := SampleItem(s, env, lineno, p.st.metricName, v, labels);
      AddItemSpec(p.c.metrics[i], item);
      AddItemKeepsLabelsAgree(p.c.metrics[i], item);
      ReplacedMetricKeeps(p, p'.st, i, AddItemTo(p.c.metrics[i], item).value);
    }
  }

  /** Replacing the current metric by a kept one of the same name keeps the invariant. */
  lemma ReplacedMetricKeeps(p: Progress, st: ScrapeState, i: nat, m: MetricValue)
    requires Reachable(p) && i < |p.c.metrics| && IndexOfName(p.c.metrics, st.metricName).Some?
    requires m.name == p.c.metrics[i].name && KeptMetric(m)
    ensures Reachable(Progress(st, p.c.(metrics := p.c.metrics[i := m])))
  {
    SameNames(p.c.metrics, p.c.metrics[i := m], st.metricName);
  }

  lemma LineStepKeeps(s: Settings, env: ScrapeEnv, lineno: nat, line: string, p: Progress)
    requires Reachable(p) && LineStep(s, env, lineno, line, p).Ok?
    ensures Reachable(LineStep(s, env, lineno, line, p).value)
  {
    if line == "" {
    } else if HasPrefix(line, "# HELP") {
      HelpStepKeeps(lineno, line, p);
    } else if HasPrefix(line, "# TYPE") {
      TypeStepKeeps(lineno, line, p);
    } else {
      SampleStepKeeps(s, env, lineno, line, p);
    }
  }

  /** No line of a reachable state reports an unknown metric: GetMetric always finds the current one. */
  lemma LineStepNeverUnknown(s: Settings, env: ScrapeEnv, lineno: nat, line: string, p: Progress)
    requires Reachable(p)
    ensures !LineStep(s, env, lineno, line, p).Err? || !LineStep(s, env, lineno, line, p).error.UnknownMetric?
  {
  }

  lemma {:induction false} RunFromKeeps(s: Settings, env: ScrapeEnv, lineno: nat, lines: seq<string>, p: Progress)
    requires Reachable(p)
    ensures RunFrom(s, env, lineno, lines, p).Ok? ==> Reachable(RunFrom(s, env, lineno, lines, p).value)
    ensures RunFrom(s, env, lineno, lines, p).Err? ==> !RunFrom(s, env, lineno, lines, p).error.UnknownMetric?
    decreases |lines|
  {
    if |lines| > 0 {
      LineStepNeverUnknown(s, env, lineno, lines[0], p);
      var r := LineStep(s, env, lineno, lines[0], p);
      if r.Ok? {
        LineStepKeeps(s, env, lineno, lines[0], p);
        RunFromKeeps(s, env, lineno + 1, lines[1..], r.value);
      }
    }
  }

  /**
   * What every conversion yields: version "1", metric names that are
   * distinct, non-empty and not Prometheus-internal, and in each metric a
   * sorted label list that every labelled item carries; and the "unknown
   * metric" errors of the source are never raised.
   */
  lemma ConvertResult(s: Settings, env: ScrapeEnv, lines: seq<string>)
    ensures Convert(s, env, lines).Ok? ==>
      var c := Convert(s, env, lines).value;
      c.version == "1" && DistinctNames(c.metrics) &&
      forall k :: 0 <= k < |c.metrics| ==> KeptMetric(c.metrics[k])
    ensures Convert(s, env, lines).Err? ==> !Convert(s, env, lines).error.UnknownMetric?
  {
    InitialReachable();
    RunFromKeeps(s, env, 0, lines, Initial);
  }

  /* ---------------------------------------------------------------------- */
  /* Ordering: HELP, then TYPE, then samples                                 */
  /* ---------------------------------------------------------------------- */

  /** A line is blank, a HELP, a TYPE or a sample line, and only one of them. */
  lemma LineKinds(line: string)
    ensures !(HasPrefix(line, "# HELP") && HasPrefix(line, "# TYPE"))
    ensures HasPrefix(line, "# HELP") || HasPrefix(line, "# TYPE") ==> line != ""
  {
  }

  /**
   * The order rules of one line: a HELP, a TYPE or a sample line arriving
   * when it is not expected is refused, and a TYPE must name the metric of
   * the HELP before it. An accepted HELP expects the TYPE of its metric next;
   * an accepted TYPE or sample allows samples and a new HELP, but no TYPE.
   * A HELP leaves expectMetric as it was.
   */
  lemma StepOrdering(s: Settings, env: ScrapeEnv, lineno: nat, line: string, p: Progress)
    ensures HasPrefix(line, "# HELP") && !p.st.expectHelp ==> LineStep(s, env, lineno, line, p) == Err(UnexpectedHelp(lineno))
    ensures HasPrefix(line, "# TYPE") && !p.st.expectType ==> LineStep(s, env, lineno, line, p) == Err(UnexpectedType(lineno))
    ensures HasPrefix(line, "# TYPE") && p.st.expectType && |Split(line, ' ')| >= 3 && Split(line, ' ')[2] != p.st.metricName ==>
      LineStep(s, env, lineno, line, p) == Err(OutOfOrderType(lineno, line, p.st.metricName))
    ensures IsSampleLine(line) && !p.st.expectMetric ==> LineStep(s, env, lineno, line, p) == Err(UnexpectedSample(lineno, line))
    ensures HasPrefix(line, "# HELP") && LineStep(s, env, lineno, line, p).Ok? ==>
      var st := LineStep(s, env, lineno, line, p).value.st;
      !st.expectHelp && st.expectType && st.expectMetric == p.st.expectMetric && st.metricName == Split(line, ' ')[2]
    ensures (HasPrefix(line, "# TYPE") || IsSampleLine(line)) && LineStep(s, env, lineno, line, p).Ok? ==>
      var st := LineStep(s, env, lineno, line, p).value.st;
      st.expectHelp && !st.expectType && st.expectMetric && st.metricName == p.st.metricName
  {
    LineKinds(line);
  }

  /** Blank lines are ignored. */
  lemma BlankLineIgnored(s: Settings, env: ScrapeEnv, lineno: nat, p: Progress)
    ensures LineStep(s, env, lineno, "", p) == Ok(p)
  {
  }

  /**
   * Until some TYPE line has been accepted no sample is: a sample line that
   * comes before every TYPE line fails the conversion.
   */
  lemma {:induction false} SampleBeforeTypeRefused(s: Settings, env: ScrapeEnv, lineno: nat, lines: seq<string>, p: Progress, k: nat)
    requires !p.st.expectMetric
    requires k < |lines| && IsSampleLine(lines[k])
    requires forall j :: 0 <= j < k ==> !HasPrefix(lines[j], "# TYPE")
    ensures RunFrom(s, env, lineno, lines, p).Err?
    decreases k
  {
    LineKinds(lines[0]);
    var r := LineStep(s, env, lineno, lines[0], p);
    if k > 0 && r.Ok? {
      assert r.value.st.expectMetric == p.st.expectMetric;
      forall j | 0 <= j < k - 1 ensures !HasPrefix(lines[1..][j], "# TYPE") {
        assert lines[1..][j] == lines[j + 1];
      }
      SampleBeforeTypeRefused(s, env, lineno + 1, lines[1..], r.value, k - 1);
    }
  }

  /** The source's examples: a scrape cannot open with a sample, nor with a TYPE. */
  lemma MustStartWithHelp(s: Settings, env: ScrapeEnv, lines: seq<string>)
    requires |lines| > 0 && lines[0] != "" && !HasPrefix(lines[0], "# HELP")
    ensures Convert(s, env, lines).Err?
    ensures HasPrefix(lines[0], "# TYPE") ==> Convert(s, env, lines) == Err(UnexpectedType(0))
    ensures !HasPrefix(lines[0], "# TYPE") ==> Convert(s, env, lines) == Err(UnexpectedSample(0, lines[0]))
  {
  }

  /**
   * A scrape without HELP lines yields no metrics: an empty collection when
   * every line is blank, an error as soon as any line is not.
   */
  lemma {:induction false} WithoutHelpNothing(s: Settings, env: ScrapeEnv, lineno: nat, lines: seq<string>, p: Progress)
    requires !p.st.expectType && !p.st.expectMetric
    requires forall j :: 0 <= j < |lines| ==> !HasPrefix(lines[j], "# HELP")
    ensures RunFrom(s, env, lineno, lines, p).Ok? <==> forall j :: 0 <= j < |lines| ==> lines[j] == ""
    ensures RunFrom(s, env, lineno, lines, p).Ok? ==> RunFrom(s, env, lineno, lines, p).value == p
    decreases |lines|
  {
    if |lines| > 0 {
      if lines[0] == "" {
        forall j | 0 <= j < |lines| - 1 ensures !HasPrefix(lines[1..][j], "# HELP") {
          assert lines[1..][j] == lines[j + 1];
        }
        WithoutHelpNothing(s, env, lineno + 1, lines[1..], p);
        assert forall j :: 1 <= j < |lines| ==> lines[j] == lines[1..][j - 1];
      }
    }
  }

  /* ---------------------------------------------------------------------- */
  /* Lines that are skipped                                                  */
  /* ---------------------------------------------------------------------- */

  /** A HELP for go_, process_ or promhttp_ metrics adds nothing and switches skipping on. */
  lemma InternalHelpSkipped(lineno: nat, line: string, p: Progress)
    requires p.st.expectHelp && |Split(line, ' ')| >= 3 && IsInternal(Split(line, ' ')[2])
    ensures HelpStep(lineno, line, p).Ok?
    ensures HelpStep(lineno, line, p).value.c == p.c && HelpStep(lineno, line, p).value.st.skipMetric
  {
  }

  /**
   * While skipping, the TYPE and sample lines of the internal metric change
   * nothing in the collection, nor the metric being read, up to the next HELP.
   */
  lemma {:induction false} SkippedBlockAddsNothing(s: Settings, env: ScrapeEnv, lineno: nat, lines: seq<string>, p: Progress)
    requires p.st.skipMetric
    requires forall j :: 0 <= j < |lines| ==> !HasPrefix(lines[j], "# HELP")
    ensures RunFrom(s, env, lineno, lines, p).Ok? ==>
      RunFrom(s, env, lineno, lines, p).value.c == p.c && RunFrom(s, env, lineno, lines, p).value.st.skipMetric &&
      RunFrom(s, env, lineno, lines, p).value.st.metricName == p.st.metricName
    decreases |lines|
  {
    if |lines| > 0 {
      var r := LineStep(s, env, lineno, lines[0], p);
      if r.Ok? {
        assert r.value.c == p.c && r.value.st.skipMetric && r.value.st.metricName == p.st.metricName;
        forall j | 0 <= j < |lines| - 1 ensures !HasPrefix(lines[1..][j], "# HELP") {
          assert lines[1..][j] == lines[j + 1];
        }
        SkippedBlockAddsNothing(s, env, lineno + 1, lines[1..], r.value);
      }
    }
  }

  /**
   * Expected sample lines that do not match the sample syntax, that name
   * another metric, or whose value does not parse, are skipped: they change
   * nothing but the flags.
   */
  lemma UnusableSampleSkipped(s: Settings, env: ScrapeEnv, lineno: nat, line: string, p: Progress)
    requires IsSampleLine(line) && p.st.expectMetric
    requires var mm := ItemMatch(env, line);
      mm == map[] || Get(mm, "name") != p.st.metricName ||
      (IndexOfName(p.c.metrics, p.st.metricName).Some? && env.parseFloat(Get(mm, "value")).None?)
    ensures LineStep(s, env, lineno, line, p) == Ok(Progress(p.st.(expectHelp := true, expectType := false), p.c))
  {
  }

  /* ---------------------------------------------------------------------- */
  /* Kept samples                                                            */
  /* ---------------------------------------------------------------------- */

  /** the sample line is expected and names the current metric, present, with a value that parses */
  ghost predicate KeptSample(env: ScrapeEnv, line: string, p: Progress)
  {
    var mm := ItemMatch(env, line);
    IsSampleLine(line) && p.st.expectMetric && !p.st.skipMetric &&
    mm != map[] && Get(mm, "name") == p.st.metricName &&
    IndexOfName(p.c.metrics, p.st.metricName).Some? && env.parseFloat(Get(mm, "value")).Some?
  }

  /** A kept sample with a label piece lacking '=' is the index-out-of-range panic. */
  lemma SampleLabelsPanic(s: Settings, env: ScrapeEnv, lineno: nat, line: string, p: Progress)
    requires KeptSample(env, line, p) && SampleLabels(Get(ItemMatch(env, line), "labels")).None?
    ensures LineStep(s, env, lineno, line, p) == Err(IndexOutOfRange(lineno))
  {
  }

  /**
   * A kept sample: its item is appended to the current metric, and to no
   * other, when its label names agree with the metric's; the line is refused
   * with the label-mismatch error otherwise.
   */
  lemma SampleKeptAppends(s: Settings, env: ScrapeEnv, lineno: nat, line: string, p: Progress, labels: map<string, string>)
    requires KeptSample(env, line, p) && SampleLabels(Get(ItemMatch(env, line), "labels")) == Some(labels)
    ensures var i := IndexOfName(p.c.metrics, p.st.metricName).value;
      var m := p.c.metrics[i];
      var r := LineStep(s, env, lineno, line, p);
      var item := SampleItem(s, env, lineno, p.st.metricName, env.parseFloat(Get(ItemMatch(env, line), "value")).value, labels);
      (r.Ok? <==> m.labels.None? || (Sorted(m.labels.value) && multiset(m.labels.value) == multiset(labels.Keys))) &&
      (r.Ok? ==> r.value.c.version == p.c.version && |r.value.c.metrics| == |p.c.metrics| &&
                 r.value.c.metrics[i].items == m.items + [item] &&
                 forall k :: 0 <= k < |p.c.metrics| && k != i ==> r.value.c.metrics[k] == p.c.metrics[k]) &&
      (r.Err? ==> r.error.Refused? && r.error.err.LabelMismatch?)
  {
    var i := IndexOfName(p.c.metrics, p.st.metricName).value;
    var item := SampleItem(s, env, lineno, p.st.metricName, env.parseFloat(Get(ItemMatch(env, line), "value")).value, labels);
    KeptSampleStep(s, env, lineno, line, p, labels);
    AddItemSpec(p.c.metrics[i], item);
  }

  /** The step of a kept sample is the outcome of adding its item to the current metric. */
  lemma KeptSampleStep(s: Settings, env: ScrapeEnv, lineno: nat, line: string, p: Progress, labels: map<string, string>)
    requires KeptSample(env, line, p) && SampleLabels(Get(ItemMatch(env, line), "labels")) == Some(labels)
    ensures var i := IndexOfName(p.c.metrics, p.st.metricName).value;
      var item := SampleItem(s, env, lineno, p.st.metricName, env.parseFloat(Get(ItemMatch(env, line), "value")).value, labels);
      var st' := p.st.(expectHelp := true, expectType := false, expectMetric := true);
      LineStep(s, env, lineno, line, p) ==
        match AddItemTo(p.c.metrics[i], item)
        case Err(e) => Err(Refused(lineno, e))
        case Ok(m) => Ok(Progress(st', p.c.(metrics := p.c.metrics[i := m])))
  {
    assert LineStep(s, env, lineno, line, p) == SampleStep(s, env, lineno, line, p);
  }

  /** A second HELP for a metric already in the collection is refused by AddMetric. */
  lemma RepeatedHelpRefused(lineno: nat, line: string, p: Progress)
    requires Reachable(p) && p.st.expectHelp && |Split(line, ' ')| >= 3
    requires var name := Split(line, ' ')[2];
      !IsInternal(name) && exists k :: 0 <= k < |p.c.metrics| && p.c.metrics[k].name == name
    ensures HelpStep(lineno, line, p) == Err(Refused(lineno, AlreadyInCollection(Split(line, ' ')[2])))
  {
    var k :| 0 <= k < |p.c.metrics| && p.c.metrics[k].name == Split(line, ' ')[2];
    assert KeptMetric(p.c.metrics[k]);
  }

  /** what the conversion promises of each item it builds */
  predicate ItemWithin(item: MetricItem)
  {
    IsInSlice(item.func, ValidFunctions) && item.interval >= 15 * Second && item.interval % Second == 0
  }

  /**
   * The arguments ScrapefileToCollection lets through, with draws in [0, 1),
   * give every item a valid function and a whole number of seconds, at least
   * 15, no more than the maximum of the interval. A percent-honoured metric
   * gets bounds within [0, 100] that bracket a value in [0, 100]; any other
   * metric, for a value and a deviation that are not negative, bounds that
   * bracket the value.
   */
  lemma SampleItemWithin(s: Settings, env: ScrapeEnv, lineno: nat, name: string, value: real, labels: map<string, string>)
    requires RandomFunc(s.functions, 0).Ok? && RandomDuration(s.interval, env.parseDuration, 0.0).Ok?
    requires 0.0 <= env.durationDraw(lineno) < 1.0
    ensures var item := SampleItem(s, env, lineno, name, value, labels);
      ItemWithin(item) && item.labels == labels &&
      item.interval <= env.parseDuration(Split(s.interval, '-')[1]).value
    ensures var item := SampleItem(s, env, lineno, name, value, labels);
      IsPercent(name, s.honorpct) && 0.0 <= value <= 100.0 && s.maxDeviation >= 0 ==>
        0.0 <= item.min <= value <= item.max <= 100.0
    ensures var item := SampleItem(s, env, lineno, name, value, labels);
      !IsPercent(name, s.honorpct) && value >= 0.0 && s.maxDeviation >= 0 && 0.0 <= env.rangeDraw(lineno) < 1.0 ==>
        item.min <= value <= item.max
  {
    RandomDurationWithin(s.interval, env.parseDuration, env.durationDraw(lineno));
    if IsPercent(name, s.honorpct) && 0.0 <= value <= 100.0 && s.maxDeviation >= 0 {
      PercentRangeWithin(value, s.maxDeviation);
    }
    if !IsPercent(name, s.honorpct) && value >= 0.0 && s.maxDeviation >= 0 && 0.0 <= env.rangeDraw(lineno) < 1.0 {
      RandomRangeAround(value, s.maxDeviation, env.rangeDraw(lineno));
    }
  }

  /** every item of every metric is within what the conversion promises */
  ghost predicate ItemsWithin(c: CollectionValue)
  {
    forall k, j :: 0 <= k < |c.metrics| && 0 <= j < |c.metrics[k].items| ==> ItemWithin(c.metrics[k].items[j])
  }

  /** the duration draws for the lines from `lineno` on, as many as there are lines */
  ghost predicate DrawsFrom(env: ScrapeEnv, lineno: nat, count: nat)
  {
    forall n :: lineno <= n < lineno + count ==> 0.0 <= env.durationDraw(n) < 1.0
  }

  lemma LineStepItemsWithin(s: Settings, env: ScrapeEnv, lineno: nat, line: string, p: Progress)
    requires RandomFunc(s.functions, 0).Ok? && RandomDuration(s.interval, env.parseDuration, 0.0).Ok?
    requires 0.0 <= env.durationDraw(lineno) < 1.0
    requires ItemsWithin(p.c) && LineStep(s, env, lineno, line, p).Ok?
    ensures ItemsWithin(LineStep(s, env, lineno, line, p).value.c)
  {
    if line == "" {
    } else if HasPrefix(line, "# HELP") {
      HelpStepItemsWithin(lineno, line, p);
    } else if HasPrefix(line, "# TYPE") {
      TypeStepItemsWithin(lineno, line, p);
    } else {
      SampleStepItemsWithin(s, env, lineno, line, p);
    }
  }

  /** A HELP line adds a metric without items. */
  lemma HelpStepItemsWithin(lineno: nat, line: string, p: Progress)
    requires ItemsWithin(p.c) && HelpStep(lineno, line, p).Ok?
    ensures ItemsWithin(HelpStep(lineno, line, p).value.c)
  {
    var c' := HelpStep(lineno, line, p).value.c;
    if c' != p.c {
      var fields := Split(line, ' ');
      AddMetricSpec(p.c, MetricValue(fields[2], Join(fields[3..], " "), "", None, []));
      forall k, j | 0 <= k < |c'.metrics| && 0 <= j < |c'.metrics[k].items| ensures ItemWithin(c'.metrics[k].items[j]) {
        assert c'.metrics[k] == c'.metrics[..|p.c.metrics|][k];
      }
    }
  }

  /** A TYPE line changes a metric's kind only. */
  lemma TypeStepItemsWithin(lineno: nat, line: string, p: Progress)
    requires ItemsWithin(p.c) && TypeStep(lineno, line, p).Ok?
    ensures ItemsWithin(TypeStep(lineno, line, p).value.c)
  {
  }

  /** A sample line adds one item, within what SampleItemWithin promises. */
  lemma SampleStepItemsWithin(s: Settings, env: ScrapeEnv, lineno: nat, line: string, p: Progress)
    requires RandomFunc(s.functions, 0).Ok? && RandomDuration(s.interval, env.parseDuration, 0.0).Ok?
    requires 0.0 <= env.durationDraw(lineno) < 1.0
    requires ItemsWithin(p.c) && SampleStep(s, env, lineno, line, p).Ok?
    ensures ItemsWithin(SampleStep(s, env, lineno, line, p).value.c)
  {
    var c' := SampleStep(s, env, lineno, line, p).value.c;
    if c' != p.c {
      var mm := ItemMatch(env, line);
      var i := IndexOfName(p.c.metrics, p.st.metricName).value;
      var v := env.parseFloat(Get(mm, "value")).value;
      var labels := SampleLabels(Get(mm, "labels")).value;
      var item := SampleItem(s, env, lineno, p.st.metricName, v, labels);
      AddItemSpec(p.c.metrics[i], item);
      SampleItemWithin(s, env, lineno, p.st.metricName, v, labels);
      forall k, j | 0 <= k < |c'.metrics| && 0 <= j < |c'.metrics[k].items| ensures ItemWithin(c'.metrics[k].items[j]) {
        if k == i && j == |p.c.metrics[i].items| {
          assert c'.metrics[k].items[j] == item;
        }
      }
    }
  }


  lemma {:induction false} RunFromItemsWithin(s: Settings, env: ScrapeEnv, lineno: nat, lines: seq<string>, p: Progress)
    requires RandomFunc(s.functions, 0).Ok? && RandomDuration(s.interval, env.parseDuration, 0.0).Ok?
    requires DrawsFrom(env, lineno, |lines|) && ItemsWithin(p.c)
    ensures RunFrom(s, env, lineno, lines, p).Ok? ==> ItemsWithin(RunFrom(s, env, lineno, lines, p).value.c)
    decreases |lines|
  {
    if |lines| > 0 {
      var r := LineStep(s, env, lineno, lines[0], p);
      if r.Ok? {
        LineStepItemsWithin(s, env, lineno, lines[0], p);
        RunFromItemsWithin(s, env, lineno + 1, lines[1..], r.value);
      }
    }
  }

  /**
   * ScrapefileToCollection refuses the arguments randomFunc and
   * randomDuration refuse, before reading a line; once it has accepted them,
   * every item of the collection it returns has a valid function and an
   * interval of whole seconds, at least 15.
   */
  lemma ScrapefileItemsWithin(s: Settings, env: ScrapeEnv, lines: seq<string>)
    requires DrawsFrom(env, 0, |lines|)
    ensures RandomFunc(s.functions, 0).Err? ==> ScrapefileToCollection(s, env, lines) == Err(BadArgument(RandomFunc(s.functions, 0).error))
    ensures ScrapefileToCollection(s, env, lines).Ok? ==>
      ItemsWithin(ScrapefileToCollection(s, env, lines).value) &&
      ScrapefileToCollection(s, env, lines) == Convert(s, env, lines)
  {
    if RandomFunc(s.functions, 0).Ok? && RandomDuration(s.interval, env.parseDuration, 0.0).Ok? {
      RunFromItemsWithin(s, env, 0, lines, Initial);
    }
  }
}
