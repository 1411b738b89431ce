/**
 * How the current simulator computes the value of a metric item at a point
 * in time (pkg/metrics/metrics.go, interval and generateValue).
 *
 * Time is a count of nanoseconds. The clock (time.Since), the random source
 * (rand.Float64) and math.Sin are parameters: `now` is the instant of the
 * refresh, `draw` the number rand.Float64 returned, and `sinTurns(x)` stands
 * for math.Sin(2·π·x). Floating point is modelled by real arithmetic.
 */
module Waveform {
  import opened GoText
  import opened Common
  import opened MetricsModel

  /** time.Second in nanoseconds */
  const Second: int := 1_000_000_000

  /** Go's / on int64: truncates toward zero. */
  function GoQuo(a: int, b: int): int
    requires b != 0
  {
    if a >= 0 then a / b else -((-a) / b)
  }

  /**
   * Go's % on int64: truncates toward zero, so the result has the sign of the
   * dividend and a == GoQuo(a, b) * b + GoRem(a, b).
   */
  function GoRem(a: int, b: int): (r: int)
    requires b != 0
    ensures a >= 0 ==> 0 <= r < (if b > 0 then b else -b)
    ensures a < 0 ==> -(if b > 0 then b else -b) < r <= 0
    ensures a == GoQuo(a, b) * b + r
  {
    if a >= 0 then a % b else -((-a) % b)
  }

  datatype IntervalError = IntervalIsZero

  /**
   * interval(start, interval): the time passed since start, modulo the
   * interval, so that the interval repeats endlessly. A zero interval is an
   * error. For a clock that has not gone backwards and a positive interval
   * the result lies in [0, interval).
   */
  function Interval(start: int, interval: int, now: int): (r: Result<int, IntervalError>)
    ensures r.Err? <==> interval == 0
    ensures r.Ok? ==> now - start == GoQuo(now - start, interval) * interval + r.value
    ensures r.Ok? && now >= start && interval > 0 ==> 0 <= r.value < interval
    ensures r.Ok? && now >= start && now - start < interval ==> r.value == now - start
  {
    if interval == 0 then Err(IntervalIsZero) else Ok(GoRem(now - start, interval))
  }

  /** The cases of the source's table of examples for interval(), with the start that many seconds ago. */
  lemma IntervalExamples()
    ensures Interval(0, 100 * Second, 123456789 * Second) == Ok(89 * Second)
    ensures Interval(0, 9 * Second, 10 * Second) == Ok(1 * Second)
    ensures Interval(0, 60 * Second, 60 * Second) == Ok(0)
    ensures Interval(0, 100 * Second, 60 * Second) == Ok(60 * Second)
    ensures Interval(0, 0, 120 * Second) == Err(IntervalIsZero)
  {
  }

  /** Go's % keeps the dividend's sign: 5s into a negative interval of -10s the remainder is 5s. */
  lemma IntervalNegative()
    ensures Interval(0, -10 * Second, 5 * Second) == Ok(5 * Second)
  {
  }

  /** The outcome of generateValue: a value, the interval error, or the panic on an unknown function. */
  datatype Generated = Value(v: real) | IntervalFailed(err: IntervalError) | UnknownFunctionPanic(func: string)

  /** The position within the interval, 0 at its start and approaching 1 at its end. */
  function Phase(elapsed: int, interval: int): real
    requires interval != 0
  {
    elapsed as real / interval as real
  }

  /** What math.Sin must satisfy for the bounds below: sin 0 = 0 and |sin x| <= 1. */
  ghost predicate SineLike(sinTurns: real -> real)
  {
    sinTurns(0.0) == 0.0 && forall x :: -1.0 <= sinTurns(x) <= 1.0
  }

  /** The width of the range, Max - Min. */
  function Span(min: real, max: real): real
  {
    max - min
  }

  /** The switch on the item's function, at a given phase of the interval. */
  function Wave(func: string, min: real, max: real, phase: real, draw: real, sinTurns: real -> real): Generated
  {
    if func == "rand" then Value(min + Span(min, max) * draw)
    else if func == "asc" then Value(min + Span(min, max) * phase)
    else if func == "desc" then Value(max - Span(min, max) * phase)
    else if func == "sin" then Value((min + max) / 2.0 + Span(min, max) / 2.0 * sinTurns(phase))
    else UnknownFunctionPanic(func)
  }

  /** MetricItem.generateValue(start), refreshed at `now`. */
  function GenerateValue(item: MetricItem, start: int, now: int, draw: real, sinTurns: real -> real): Generated
  {
    if item.min == item.max then Value(item.min)
    else
      match Interval(start, item.interval, now)
      case Err(e) => IntervalFailed(e)
      case Ok(elapsed) => Wave(item.func, item.min, item.max, Phase(elapsed, item.interval), draw, sinTurns)
  }

  /** Min == Max gives Min, whatever the function, the interval or the time. */
  lemma ConstantItem(item: MetricItem, start: int, now: int, draw: real, sinTurns: real -> real)
    requires item.min == item.max
    ensures GenerateValue(item, start, now, draw, sinTurns) == Value(item.min)
  {
  }

  /**
   * Which outcome an item produces: a value exactly for a valid function and
   * a nonzero interval (or Min == Max), the interval error for a zero
   * interval, the panic for any other function name.
   */
  lemma GenerateOutcome(item: MetricItem, start: int, now: int, draw: real, sinTurns: real -> real)
    ensures GenerateValue(item, start, now, draw, sinTurns).Value? <==>
      item.min == item.max || (item.interval != 0 && IsInSlice(item.func, ValidFunctions))
    ensures GenerateValue(item, start, now, draw, sinTurns).IntervalFailed? <==>
      item.min != item.max && item.interval == 0
    ensures GenerateValue(item, start, now, draw, sinTurns).UnknownFunctionPanic? <==>
      item.min != item.max && item.interval != 0 && !IsInSlice(item.func, ValidFunctions)
  {
  }

  /** At the start of each interval asc is at Min, desc at Max and sin at the midpoint. */
  lemma StartOfInterval(item: MetricItem, start: int, k: nat, draw: real, sinTurns: real -> real)
    requires item.min != item.max && item.interval > 0
    requires sinTurns(0.0) == 0.0
    ensures item.func == "asc" ==> GenerateValue(item, start, start + k * item.interval, draw, sinTurns) == Value(item.min)
    ensures item.func == "desc" ==> GenerateValue(item, start, start + k * item.interval, draw, sinTurns) == Value(item.max)
    ensures item.func == "sin" ==>
      GenerateValue(item, start, start + k * item.interval, draw, sinTurns) == Value((item.min + item.max) / 2.0)
  {
    MultipleOfPositive(k, item.interval);
    var e := Interval(start, item.interval, start + k * item.interval).value;
    var q := GoQuo(k * item.interval, item.interval);
    assert e == k * item.interval - q * item.interval;
    assert e == (k - q) * item.interval;
    MultipleOfPositive(k - q, item.interval);
    assert e == 0;
  }

  /** A multiple m·b of a positive b is 0 or at least b away from zero. */
  lemma {:induction false} MultipleOfPositive(m: int, b: int)
    requires b > 0
    ensures m >= 1 ==> m * b >= b
    ensures m <= -1 ==> m * b <= -b
    ensures m == 0 ==> m * b == 0
    ensures m >= 0 ==> m * b >= 0
    decreases if m >= 0 then m else -m
  {
    if m > 1 {
      MultipleOfPositive(m - 1, b);
      assert m * b == (m - 1) * b + b;
    } else if m < -1 {
      MultipleOfPositive(m + 1, b);
      assert m * b == (m + 1) * b - b;
    }
  }

  /** asc and desc mirror each other: at every instant their values add up to Min + Max. */
  lemma AscDescMirror(item: MetricItem, start: int, now: int, draw: real, sinTurns: real -> real)
    requires item.interval != 0
    ensures GenerateValue(item.(func := "asc"), start, now, draw, sinTurns).Value?
    ensures GenerateValue(item.(func := "desc"), start, now, draw, sinTurns).Value?
    ensures GenerateValue(item.(func := "asc"), start, now, draw, sinTurns).v
          + GenerateValue(item.(func := "desc"), start, now, draw, sinTurns).v == item.min + item.max
  {
  }

  lemma ScaledWithin(d: real, f: real)
    requires d >= 0.0 && 0.0 <= f <= 1.0
    ensures 0.0 <= d * f <= d
  {
    assert d * f <= d * 1.0;
  }

  lemma ScaledSymmetric(d: real, s: real)
    requires d >= 0.0 && -1.0 <= s <= 1.0
    ensures -d <= d * s <= d
  {
    assert d * s <= d * 1.0;
    assert d * (-1.0) <= d * s;
  }

  /** Within an interval the phase runs from 0 up to, but not including, 1. */
  lemma PhaseWithin(e: int, interval: int)
    requires 0 <= e < interval
    ensures 0.0 <= Phase(e, interval) < 1.0
  {
    var f := Phase(e, interval);
    assert f * interval as real == e as real;
  }

  /** Each waveform, at a phase in [0, 1] and a draw in [0, 1), lies in [Min, Max]. */
  lemma WaveWithin(func: string, min: real, max: real, phase: real, draw: real, sinTurns: real -> real)
    requires min <= max && 0.0 <= phase <= 1.0 && 0.0 <= draw < 1.0 && SineLike(sinTurns)
    requires func == "rand" || func == "asc" || func == "desc" || func == "sin"
    ensures Wave(func, min, max, phase, draw, sinTurns).Value?
    ensures min <= Wave(func, min, max, phase, draw, sinTurns).v <= max
  {
    if func == "rand" {
      RisingWithin(min, max, draw);
    } else if func == "asc" {
      RisingWithin(min, max, phase);
    } else if func == "desc" {
      FallingWithin(min, max, phase);
    } else {
      SwingWithin(min, max, sinTurns(phase));
    }
  }

  lemma RisingWithin(min: real, max: real, f: real)
    requires min <= max && 0.0 <= f <= 1.0
    ensures min <= min + Span(min, max) * f <= max
  {
    ScaledWithin(Span(min, max), f);
  }

  lemma FallingWithin(min: real, max: real, f: real)
    requires min <= max && 0.0 <= f <= 1.0
    ensures min <= max - Span(min, max) * f <= max
  {
    ScaledWithin(Span(min, max), f);
  }

  lemma SwingWithin(min: real, max: real, s: real)
    requires min <= max && -1.0 <= s <= 1.0
    ensures min <= (min + max) / 2.0 + Span(min, max) / 2.0 * s <= max
  {
    ScaledSymmetric(Span(min, max), s);
    assert Span(min, max) / 2.0 * s == (Span(min, max) * s) / 2.0;
  }

  /**
   * Every waveform stays within [Min, Max] when Min <= Max, the interval is
   * positive, the refresh does not precede the start and rand.Float64 keeps
   * to [0, 1).
   */
  lemma ValueWithinRange(item: MetricItem, start: int, now: int, draw: real, sinTurns: real -> real)
    requires item.min <= item.max && item.interval > 0 && now >= start
    requires IsInSlice(item.func, ValidFunctions)
    requires 0.0 <= draw < 1.0 && SineLike(sinTurns)
    ensures GenerateValue(item, start, now, draw, sinTurns).Value?
    ensures item.min <= GenerateValue(item, start, now, draw, sinTurns).v <= item.max
  {
    if item.min != item.max {
      var e := Interval(start, item.interval, now).value;
      PhaseWithin(e, item.interval);
      assert item.func == "rand" || item.func == "asc" || item.func == "desc" || item.func == "sin" by {
        var i :| 0 <= i < |ValidFunctions| && ValidFunctions[i] == item.func;
      }
      WaveWithin(item.func, item.min, item.max, Phase(e, item.interval), draw, sinTurns);
    }
  }
}
