/**
 * What cmd/configuration.go and cmd/common.go add to the value-string
 * configuration of module ValueConfig. The types, parseValue, Init and the
 * checks there are the same code as in internal/metrics/configuration.go
 * (a nil *float64 is None), so this module reuses them; it holds what
 * differs: GenerateValue, which yields 0 for an item that was never parsed,
 * the check messages, which quote names in single quotes, and the
 * SimulationError that carries a handled failure.
 */
module CmdConfig {
  import opened GoText
  import ValueConfig
  import Waveform

  /** SimulationError: a handled failure and its message. */
  datatype SimulationError = SimulationError(err: string)
  {
    function Error(): string
    {
      err
    }
  }

  /**
   * ConfigurationMetricItem.GenerateValue: the constant if set, else a draw
   * between the range ends if both are set, else 0. `draw` is rand.Float64.
   */
  function GenerateValue(item: ValueConfig.ConfigurationMetricItem, draw: real): real
  {
    if item.value.Some? then item.value.value
    else if item.rangeFrom.Some? && item.rangeTo.Some? then
      draw * (item.rangeTo.value - item.rangeFrom.value) + item.rangeFrom.value
    else 0.0
  }

  /** A draw below 1 scaled to a positive span from `from` stays below the span's end. */
  lemma DrawBelow(draw: real, span: real, from: real, to: real)
    requires 0.0 <= draw < 1.0 && span > 0.0 && to == span + from
    ensures draw * span + from < to
  {
    assert draw * span < 1.0 * span;
  }

  /**
   * GenerateValue reads back what parseValue set: the constant; for a range
   * with from <= to a value in [from, to], below `to` when from < to; and 0
   * where the earlier copy gives the null float. It agrees with that copy
   * wherever the latter gives a value.
   */
  lemma GenerateValueSpec(item: ValueConfig.ConfigurationMetricItem, draw: real)
    requires 0.0 <= draw < 1.0
    ensures item.value.Some? ==> GenerateValue(item, draw) == item.value.value
    ensures item.value.None? && item.rangeFrom.Some? && item.rangeTo.Some? ==>
      var from := item.rangeFrom.value;
      var to := item.rangeTo.value;
      (from <= to ==> from <= GenerateValue(item, draw) <= to) &&
      (from < to ==> GenerateValue(item, draw) < to)
    ensures item.value.None? && (item.rangeFrom.None? || item.rangeTo.None?) ==> GenerateValue(item, draw) == 0.0
    ensures ValueConfig.GenerateValue(item, draw).Some? ==>
      GenerateValue(item, draw) == ValueConfig.GenerateValue(item, draw).value
    ensures ValueConfig.GenerateValue(item, draw).None? ==> GenerateValue(item, draw) == 0.0
  {
    if item.value.None? && item.rangeFrom.Some? && item.rangeTo.Some? {
      var from := item.rangeFrom.value;
      var to := item.rangeTo.value;
      if from <= to {
        Waveform.ScaledWithin(to - from, draw);
      }
      if from < to {
        DrawBelow(draw, to - from, from, to);
      }
    }
  }

  /** fmt's '%v' inside single quotes */
  function SingleQuote(s: string): string
  {
    "'" + s + "'"
  }

  /**
   * loadAndValidateConfiguration once the file is decoded: the same checks
   * as the earlier copy, the configuration back when there is no finding,
   * otherwise a SimulationError with the numbered list of the findings.
   */
  method LoadAndValidateConfiguration(filename: string, c: ValueConfig.Configuration)
    returns (r: Result<ValueConfig.Configuration, SimulationError>)
    ensures r.Ok? <==> ValueConfig.Acceptable(c)
    ensures r.Ok? ==> r.value == c
    ensures r.Err? ==>
      exists fs :: multiset(fs) == ValueConfig.AllFindings(c) && |fs| > 0 &&
                   r.error.Error() == ValueConfig.ErrorMessage(filename, fs, SingleQuote)
  {
    ValueConfig.NoFindingsIffAcceptable(c);
    var findings := ValueConfig.ValidateConfiguration(c);
    if |findings| > 0 {
      var errorMessage := BuildMessage(ValueConfig.Texts(findings, SingleQuote));
      return Err(SimulationError(filename + " has validation errors: " + errorMessage));
    }
    assert multiset(findings) == multiset{};
    return Ok(c);
  }
}
