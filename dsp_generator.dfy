/** dsp/generator.py: the Generator object, which owns one Signal and
    rewrites it on every sinewave call, and its linspace time grid. The
    discrete builders of the same file are those of module SignalsGenerator. */
module DspGenerator {
  import opened Common
  import opened Ranges
  import opened DspSignal

  class Generator {
    var signal: Signal

    /** Generator(): a new Signal in its default state. */
    constructor ()
      ensures fresh(signal) && signal.HasDefaults()
    {
      signal := new Signal();
    }

    /** The signal property's setter: the generator now owns the given
        object, shared with the caller. */
    method SetSignal(s: Signal)
      modifies this
      ensures signal == s
    {
      signal := s;
    }

    /** sinewave: writes the three fundamentals into the owned Signal, then
        its time grid, [f] as frequency array, the wave values and the
        one-element amplitude and phase arrays (as attributes attached from
        outside, not the declared amplitude and spectrum arrays), and a
        description; and returns that same Signal. A zero frequency fails
        in 1 / f after the fundamentals are written. The time grid, the
        sine values and the frequency text are parameters. */
    method Sinewave(fundamentalFrequency: Num, fundamentalAmplitude: Num, fundamentalPhase: Num,
                    description: Option<string>,
                    arangeTimeArray: real -> seq<real>,
                    sinewaveAmplitude: (seq<real>, real, real, real) -> seq<real>,
                    prettyFrequency: Num -> string)
      returns (r: Result<Signal>)
      modifies signal
      ensures signal.fundamentalFrequency == fundamentalFrequency
      ensures signal.fundamentalAmplitude == fundamentalAmplitude
      ensures signal.fundamentalPhase == fundamentalPhase
      ensures signal.amplitudeArray == old(signal.amplitudeArray)
      ensures signal.xMagnitudeArray == old(signal.xMagnitudeArray)
      ensures signal.xPhaseArray == old(signal.xPhaseArray)
      ensures fundamentalFrequency.Value() == 0.0 ==>
                r == Err(ZeroDivisionError) &&
                signal.timeArray == old(signal.timeArray) &&
                signal.frequencyArray == old(signal.frequencyArray) &&
                signal.description == old(signal.description) &&
                signal.extraAttributes == old(signal.extraAttributes)
      ensures fundamentalFrequency.Value() != 0.0 ==>
                var f := fundamentalFrequency.Value();
                var t := arangeTimeArray(f);
                r == Ok(signal) &&
                signal.timeArray == t &&
                signal.frequencyArray == [f] &&
                signal.extraAttributes == old(signal.extraAttributes)
                  ["x_amplitude_array" := sinewaveAmplitude(t, f, fundamentalAmplitude.Value(), fundamentalPhase.Value())]
                  ["X_amplitude_array" := [fundamentalAmplitude.Value()]]
                  ["phase_array" := [fundamentalPhase.Value()]] &&
                signal.description == (if description.None? then "sin" + prettyFrequency(fundamentalFrequency)
                                       else description.value)
    {
      signal.fundamentalFrequency := fundamentalFrequency;
      signal.fundamentalAmplitude := fundamentalAmplitude;
      signal.fundamentalPhase := fundamentalPhase;
      var f := fundamentalFrequency.Value();
      if f == 0.0 {
        return Err(ZeroDivisionError);
      }
      signal.timeArray := arangeTimeArray(f);
      signal.frequencyArray := [f];
      signal.extraAttributes := signal.extraAttributes
        ["x_amplitude_array" := sinewaveAmplitude(signal.timeArray, f, fundamentalAmplitude.Value(), fundamentalPhase.Value())];
      signal.extraAttributes := signal.extraAttributes["X_amplitude_array" := [fundamentalAmplitude.Value()]];
      signal.extraAttributes := signal.extraAttributes["phase_array" := [fundamentalPhase.Value()]];
      var d := if description.None? then "sin" + prettyFrequency(fundamentalFrequency) else description.value;
      signal.description := d;
      return Ok(signal);
    }
  }

  /** Two sinewave calls on one generator hand back one and the same
      Signal, which then holds the second call's wave. */
  method SinewaveTwice(g: Generator, f1: Num, f2: Num,
                       arangeTimeArray: real -> seq<real>,
                       sinewaveAmplitude: (seq<real>, real, real, real) -> seq<real>,
                       prettyFrequency: Num -> string)
    returns (first: Result<Signal>, second: Result<Signal>)
    requires f1.Value() != 0.0 && f2.Value() != 0.0
    modifies g.signal
    ensures first.Ok? && second.Ok? && first.value == second.value == g.signal
    ensures first.value.fundamentalFrequency == f2
    ensures first.value.frequencyArray == [f2.Value()]
  {
    first := g.Sinewave(f1, IntNum(1), IntNum(0), None, arangeTimeArray, sinewaveAmplitude, prettyFrequency);
    second := g.Sinewave(f2, IntNum(1), IntNum(0), None, arangeTimeArray, sinewaveAmplitude, prettyFrequency);
  }

  /** linspace_time_array: one period 1 / f cut into int(rate / f)
      samples from 0, the period's end included when the interval is
      closed. A zero frequency fails in 1 / f; a negative count fails in
      np.linspace. */
  function LinspaceTimeArray(waveFrequency: real, samplingRate: real, closed: bool): (r: Result<seq<real>>)
    ensures r == Err(ZeroDivisionError) <==> waveFrequency == 0.0
    ensures waveFrequency != 0.0 && Trunc(samplingRate / waveFrequency) < 0 ==> r == Err(NegativeSize)
    ensures r.Ok? <==> waveFrequency != 0.0 && Trunc(samplingRate / waveFrequency) >= 0
    ensures r.Ok? ==> |r.value| == Trunc(samplingRate / waveFrequency)
    ensures r.Ok? ==> forall k :: 0 <= k < |r.value| ==>
              r.value[k] == k as real * Spacing(0.0, 1.0 / waveFrequency, |r.value|, closed)
    ensures r.Ok? && !closed && |r.value| >= 1 ==>
              r.value[|r.value| - 1] + Spacing(0.0, 1.0 / waveFrequency, |r.value|, closed) == 1.0 / waveFrequency
    ensures r.Ok? && |r.value| > 0 ==> r.value[0] == 0.0
    ensures r.Ok? && closed && |r.value| >= 2 ==> r.value[|r.value| - 1] == 1.0 / waveFrequency
  {
    if waveFrequency == 0.0 then Err(ZeroDivisionError)
    else Linspace(0.0, 1.0 / waveFrequency, Trunc(samplingRate / waveFrequency), closed)
  }

  /** When the rate is a whole multiple n of a positive frequency and the
      interval is open, the grid is n samples k / rate: one period at the
      sampling rate's own spacing. */
  lemma LinspaceTimeArrayAtRate(waveFrequency: real, samplingRate: real, n: nat)
    requires waveFrequency > 0.0 && n > 0 && samplingRate == n as real * waveFrequency
    ensures var r := LinspaceTimeArray(waveFrequency, samplingRate, false);
            r.Ok? && |r.value| == n &&
            forall k :: 0 <= k < n ==> r.value[k] == k as real / samplingRate
  {
    assert samplingRate / waveFrequency == n as real;
    assert Trunc(n as real) == n;
    var step := Spacing(0.0, 1.0 / waveFrequency, n, false);
    assert step == (1.0 / waveFrequency) / n as real;
    assert step == 1.0 / samplingRate;
  }
}
