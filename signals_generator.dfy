/** signals/generator.py (and the identical discrete builders of
    dsp/generator.py): the integer sample domain, the unit impulse, the unit
    step, the square and triangular pulses, and the bookkeeping of
    sinewaves_list. Every builder checks its parameters, then fills an
    array whose length is that of the domain it is given. */
module SignalsGenerator {
  import opened Common
  import opened DspFunctions

  // ---------------------------------------------------------------------
  // samples_array

  function ClosedBonus(closed: bool): int {
    if closed then 1 else 0
  }

  /** samples_array(start, end, closed): the integers from start up to end,
      end included exactly when the interval is closed. */
  function SamplesArray(start: int, end: int, closed: bool): (r: Result<seq<int>>)
    ensures r.Err? <==> end <= start
    ensures r.Err? ==> r.error == RangeOrder
    ensures r.Ok? ==> |r.value| == end - start + ClosedBonus(closed)
    ensures r.Ok? ==> forall k :: 0 <= k < |r.value| ==> r.value[k] == start + k
    ensures r.Ok? ==> forall v :: v in r.value <==> start <= v < end + ClosedBonus(closed)
  {
    if end <= start then Err(RangeOrder)
    else
      var s := seq(end + ClosedBonus(closed) - start, k => start + k);
      SamplesMembership(s, start, end + ClosedBonus(closed));
      Ok(s)
  }

  lemma SamplesMembership(s: seq<int>, start: int, stop: int)
    requires start <= stop && |s| == stop - start
    requires forall k :: 0 <= k < |s| ==> s[k] == start + k
    ensures forall v :: v in s <==> start <= v < stop
  {
    forall v | start <= v < stop
      ensures v in s
    {
      assert s[v - start] == v;
    }
  }

  // ---------------------------------------------------------------------
  // unit_impulse

  /** Zeros of length n with a single one at position p. */
  function ImpulseAt(n: nat, p: int): (r: seq<real>)
    ensures |r| == n && forall k :: 0 <= k < n ==> r[k] == if k == p then 1.0 else 0.0
  {
    seq(n, k => if k == p then 1.0 else 0.0)
  }

  /** unit_impulse: only an index beyond the length is refused by the
      check, so the length itself and indices below -len reach the write
      and fail there; a negative index in range counts from the end. */
  method UnitImpulse(samples: seq<int>, impulseSample: int) returns (r: Result<seq<real>>)
    ensures impulseSample > |samples| ==> r == Err(SampleOutOfRange)
    ensures impulseSample == |samples| ==> r == Err(IndexError)
    ensures impulseSample < -|samples| ==> r == Err(IndexError)
    ensures ValidIndex(impulseSample, |samples|) ==>
              r == Ok(ImpulseAt(|samples|, Resolve(impulseSample, |samples|)))
  {
    if impulseSample > |samples| {
      return Err(SampleOutOfRange);
    }
    var signal := new real[|samples|](_ => 0.0);
    if !ValidIndex(impulseSample, signal.Length) {
      return Err(IndexError);
    }
    var p := Resolve(impulseSample, signal.Length);
    signal[p] := 1.0;
    assert forall k :: 0 <= k < signal.Length ==> signal[..][k] == ImpulseAt(signal.Length, p)[k];
    assert signal[..] == ImpulseAt(|samples|, p);
    return Ok(signal[..]);
  }

  /** The impulse holds a total of 1 when its position is inside. */
  lemma {:induction false} ImpulseSum(n: nat, p: int)
    ensures Sum(ImpulseAt(n, p)) == if 0 <= p < n then 1.0 else 0.0
  {
    if n > 0 {
      ImpulseSum(n - 1, p);
      assert ImpulseAt(n, p)[..n - 1] == ImpulseAt(n - 1, p);
    }
  }

  // ---------------------------------------------------------------------
  // unit_step and square_pulse

  /** unit_step: step_sample zeros followed by ones up to the length of the
      domain; numpy refuses the zeros of a negative step sample. */
  function UnitStep(samples: seq<int>, stepSample: int): (r: Result<seq<real>>)
    ensures r.Ok? <==> 0 <= stepSample <= |samples|
    ensures stepSample > |samples| ==> r == Err(SampleOutOfRange)
    ensures stepSample < 0 ==> r == Err(NegativeSize)
    ensures r.Ok? ==> (|r.value| == |samples| &&
              forall k :: 0 <= k < |samples| ==> r.value[k] == if k < stepSample then 0.0 else 1.0)
  {
    if |samples| < stepSample then Err(SampleOutOfRange)
    else if stepSample < 0 then Err(NegativeSize)
    else Ok(Zeros(stepSample) + Ones(|samples| - stepSample))
  }

  /** The pulse width as a percentage of the domain. */
  function DutyCycle(n: nat, turnOn: int, turnOff: int): real
    requires n > 0
  {
    ((turnOff - turnOn) * 100) as real / n as real
  }

  lemma DutyCycleAbove100(n: nat, width: int)
    requires n > 0
    ensures (width * 100) as real / n as real > 100.0 <==> width > n
  {
    var q := (width * 100) as real / n as real;
    assert q * n as real == (width * 100) as real;
    if width > n {
      assert (width * 100) as real > (n * 100) as real;
      assert q > 100.0 by {
        if q <= 100.0 { MulLeReal(q, 100.0, n as real); }
      }
    } else {
      assert (width * 100) as real <= (n * 100) as real;
      assert q <= 100.0 by {
        if q > 100.0 { MulLtReal(100.0, q, n as real); }
      }
    }
  }

  lemma MulLeReal(a: real, b: real, c: real)
    requires a <= b && c > 0.0
    ensures a * c <= b * c
  {
  }

  lemma MulLtReal(a: real, b: real, c: real)
    requires a < b && c > 0.0
    ensures a * c < b * c
  {
  }

  /** square_pulse: the duty-cycle check divides by the length of the
      domain and refuses only a pulse wider than the domain; a pulse of
      exactly 100% passes. Pulses reaching outside the domain are refused
      by numpy's array sizes. */
  function SquarePulse(samples: seq<int>, turnOn: int, turnOff: int): (r: Result<seq<real>>)
    ensures |samples| == 0 ==> r == Err(ZeroDivisionError)
    ensures |samples| > 0 ==> (r == Err(DutyCycleExceeded) <==> turnOff - turnOn > |samples|)
    ensures r.Ok? <==> |samples| > 0 && 0 <= turnOn <= turnOff <= |samples|
    ensures r.Err? && r.error != ZeroDivisionError && r.error != DutyCycleExceeded ==> r.error == NegativeSize
    ensures r.Ok? ==> (|r.value| == |samples| &&
              forall k :: 0 <= k < |samples| ==> r.value[k] == if turnOn <= k < turnOff then 1.0 else 0.0)
  {
    if |samples| == 0 then Err(ZeroDivisionError)
    else
      DutyCycleAbove100(|samples|, turnOff - turnOn);
      if 100.0 < DutyCycle(|samples|, turnOn, turnOff) then Err(DutyCycleExceeded)
      else if turnOn < 0 || turnOff - turnOn < 0 || |samples| - turnOff < 0 then Err(NegativeSize)
      else Ok(Zeros(turnOn) + Ones(turnOff - turnOn) + Zeros(|samples| - turnOff))
  }

  /** An impulse at k is the step at k minus the step at k + 1. */
  lemma ImpulseIsStepDifference(samples: seq<int>, k: int)
    requires 0 <= k < |samples|
    ensures UnitStep(samples, k).Ok? && UnitStep(samples, k + 1).Ok?
    ensures forall j :: 0 <= j < |samples| ==>
              ImpulseAt(|samples|, k)[j] == UnitStep(samples, k).value[j] - UnitStep(samples, k + 1).value[j]
  {
  }

  /** A square pulse is the step at turn-on minus the step at turn-off. */
  lemma SquareIsStepDifference(samples: seq<int>, turnOn: int, turnOff: int)
    requires SquarePulse(samples, turnOn, turnOff).Ok?
    ensures UnitStep(samples, turnOn).Ok? && UnitStep(samples, turnOff).Ok?
    ensures forall j :: 0 <= j < |samples| ==>
              SquarePulse(samples, turnOn, turnOff).value[j] ==
              UnitStep(samples, turnOn).value[j] - UnitStep(samples, turnOff).value[j]
  {
  }

  // ---------------------------------------------------------------------
  // triangular_pulse

  /** The writes of the triangle loop from i on: position int(half + i)
      receives 1 - |i| / half_base, the last write to a position wins, and
      the first index Python refuses ends the loop with an IndexError. */
  function TriangleFill(s: seq<real>, half: real, halfBase: int, i: int): (r: Result<seq<real>>)
    requires halfBase > 0
    ensures r.Ok? ==> |r.value| == |s|
    ensures r.Err? ==> r.error == IndexError
    decreases halfBase - i
  {
    if i >= halfBase then Ok(s)
    else
      match Store(s, Trunc(half + i as real), 1.0 - Abs(i as real * (1.0 / halfBase as real)))
      case Err(e) => Err(e)
      case Ok(s') => TriangleFill(s', half, halfBase, i + 1)
  }

  predicate HalfBaseRefused(n: nat, halfBase: int) {
    halfBase <= 0 || halfBase as real > n as real / 2.0
  }

  /** triangular_pulse, as a value: the check on half_base, then the writes
      into zeros around (end - start) / 2 -- a centre computed from the
      bounds passed in, not from the domain array. */
  function TriangularPulseOf(samples: seq<int>, start: int, end: int, halfBase: int): Result<seq<real>> {
    if HalfBaseRefused(|samples|, halfBase) then Err(HalfBaseOutOfRange)
    else TriangleFill(Zeros(|samples|), (end - start) as real / 2.0, halfBase, -halfBase)
  }

  /** The loop of triangular_pulse over a zeros array. */
  method TriangularPulse(samples: seq<int>, start: int, end: int, halfBase: int) returns (r: Result<seq<real>>)
    ensures r == TriangularPulseOf(samples, start, end, halfBase)
  {
    if halfBase <= 0 || halfBase as real > |samples| as real / 2.0 {
      return Err(HalfBaseOutOfRange);
    }
    var signal := new real[|samples|](_ => 0.0);
    var half := (end - start) as real / 2.0;
    ghost var goal := TriangleFill(Zeros(|samples|), half, halfBase, -halfBase);
    assert signal[..] == Zeros(|samples|);
    for i := -halfBase to halfBase
      invariant TriangleFill(signal[..], half, halfBase, i) == goal
    {
      var sample := Trunc(half + i as real);
      if !ValidIndex(sample, signal.Length) {
        TriangleFillRefused(signal[..], half, halfBase, i);
        return Err(IndexError);
      }
      ghost var before := signal[..];
      var v := 1.0 - Abs(i as real * (1.0 / halfBase as real));
      signal[Resolve(sample, signal.Length)] := v;
      assert signal[..] == before[Resolve(sample, |before|) := v];
      TriangleFillWrite(before, half, halfBase, i);
    }
    return Ok(signal[..]);
  }

  /** One pass of the triangle loop: a refused index ends it with an
      IndexError, an accepted one is written and the loop goes on. */
  lemma TriangleFillRefused(s: seq<real>, half: real, halfBase: int, i: int)
    requires halfBase > 0 && i < halfBase && !ValidIndex(Trunc(half + i as real), |s|)
    ensures TriangleFill(s, half, halfBase, i) == Err(IndexError)
  {
  }

  lemma TriangleFillWrite(s: seq<real>, half: real, halfBase: int, i: int)
    requires halfBase > 0 && i < halfBase && ValidIndex(Trunc(half + i as real), |s|)
    ensures TriangleFill(s, half, halfBase, i) ==
              TriangleFill(s[Resolve(Trunc(half + i as real), |s|) := 1.0 - Abs(i as real * (1.0 / halfBase as real))],
                           half, halfBase, i + 1)
  {
  }

  /** The triangle of half base h centred on c, at position j. */
  function Triangle(c: int, h: int, j: int): real
    requires h > 0
  {
    if c - h <= j < c + h then 1.0 - Abs((j - c) as real * (1.0 / h as real)) else 0.0
  }

  /** s with the triangle written on [c + i, c + h). */
  function Shaped(s: seq<real>, c: int, h: int, i: int): (r: seq<real>)
    requires h > 0
    ensures |r| == |s|
    ensures forall j :: 0 <= j < |s| ==> r[j] == if c + i <= j < c + h then Triangle(c, h, j) else s[j]
  {
    seq(|s|, j requires 0 <= j < |s| => if c + i <= j < c + h then Triangle(c, h, j) else s[j])
  }

  /** With an integral centre and the whole base inside the array, the
      writes from i on put the triangle on [c + i, c + h) and leave the
      rest of the array as it was. */
  lemma {:induction false} TriangleFillShape(s: seq<real>, c: int, h: int, i: int)
    requires h > 0 && -h <= i <= h && 0 <= c - h && c + h <= |s|
    ensures TriangleFill(s, c as real, h, i) == Ok(Shaped(s, c, h, i))
    decreases h - i
  {
    if i >= h {
      assert Shaped(s, c, h, i) == s;
    } else {
      var v := 1.0 - Abs(i as real * (1.0 / h as real));
      TriangleFillStep(s, c, h, i);
      TriangleFillShape(s[c + i := v], c, h, i + 1);
      ShapedStep(s, c, h, i);
    }
  }

  /** One write of the loop: position c + i receives its triangle value. */
  lemma TriangleFillStep(s: seq<real>, c: int, h: int, i: int)
    requires h > 0 && -h <= i < h && 0 <= c - h && c + h <= |s|
    ensures TriangleFill(s, c as real, h, i) ==
              TriangleFill(s[c + i := 1.0 - Abs(i as real * (1.0 / h as real))], c as real, h, i + 1)
  {
    assert Trunc(c as real + i as real) == c + i;
    var v := 1.0 - Abs(i as real * (1.0 / h as real));
    assert Store(s, c + i, v) == Ok(s[c + i := v]);
  }

  lemma ShapedStep(s: seq<real>, c: int, h: int, i: int)
    requires h > 0 && -h <= i < h && 0 <= c - h && c + h <= |s|
    ensures Shaped(s[c + i := 1.0 - Abs(i as real * (1.0 / h as real))], c, h, i + 1) == Shaped(s, c, h, i)
  {
    var v := 1.0 - Abs(i as real * (1.0 / h as real));
    assert Triangle(c, h, c + i) == v;
    var a := Shaped(s[c + i := v], c, h, i + 1);
    var b := Shaped(s, c, h, i);
    forall j | 0 <= j < |s|
      ensures a[j] == b[j]
    {
    }
  }

  /** On a domain built from the same bounds, with an even span, every
      accepted half base gives the full triangle centred on the middle
      sample (end - start) / 2, whose value there is 1. */
  lemma TriangleOnOwnDomain(start: int, end: int, closed: bool, halfBase: int)
    requires start < end && (end - start) % 2 == 0
    requires !HalfBaseRefused(|SamplesArray(start, end, closed).value|, halfBase)
    ensures var samples := SamplesArray(start, end, closed).value;
            var c := (end - start) / 2;
            var r := TriangularPulseOf(samples, start, end, halfBase);
            r.Ok? && |r.value| == |samples| &&
            (forall j :: 0 <= j < |samples| ==> r.value[j] == Triangle(c, halfBase, j)) &&
            samples[c] == (start + end) / 2 && Triangle(c, halfBase, c) == 1.0
  {
    var samples := SamplesArray(start, end, closed).value;
    var n := |samples|;
    var c := (end - start) / 2;
    assert n == end - start + ClosedBonus(closed);
    HalfBaseFits(n, halfBase);
    CentredBaseFits(end - start, ClosedBonus(closed), halfBase);
    assert (end - start) as real / 2.0 == c as real;
    TriangleFillShape(Zeros(n), c, halfBase, -halfBase);
    assert samples[c] == start + c;
  }

  lemma HalfBaseFits(n: nat, halfBase: int)
    requires !HalfBaseRefused(n, halfBase)
    ensures 0 < 2 * halfBase <= n
  {
  }

  /** An even span leaves room for the whole base on both sides of its
      middle, with or without the closing sample. */
  lemma CentredBaseFits(span: int, bonus: int, h: int)
    requires span > 0 && span % 2 == 0 && 0 <= bonus <= 1 && 0 < 2 * h <= span + bonus
    ensures 0 <= span / 2 - h && span / 2 + h <= span
  {
    assert 2 * (span / 2) == span;
  }

  /** The centre comes from the bounds, not from the array: with the
      default bounds -10 and 10, a four-sample domain passes the half-base
      check for half base 2 and then indexes position 8. */
  lemma TriangleCentreFromBounds()
    ensures SamplesArray(0, 4, false) == Ok([0, 1, 2, 3])
    ensures !HalfBaseRefused(4, 2)
    ensures TriangularPulseOf([0, 1, 2, 3], -10, 10, 2) == Err(IndexError)
  {
    var s := SamplesArray(0, 4, false).value;
    assert s[0] == 0 && s[1] == 1 && s[2] == 2 && s[3] == 3;
    assert s == [0, 1, 2, 3];
    assert Trunc(10.0 + (-2) as real) == 8;
  }

  /** An odd span puts the centre between two samples; int() truncates
      -0.5 and 0.5 to the same index, so the foot of the left flank is
      overwritten and the peak sits left of the middle. */
  lemma TriangleOddSpan()
    ensures TriangularPulseOf([0, 1, 2, 3], 0, 3, 2) == Ok([0.5, 1.0, 0.5, 0.0])
  {
    var z := Zeros(4);
    assert Trunc(1.5 + (-2) as real) == 0;
    assert Trunc(1.5 + (-1) as real) == 0;
    assert Trunc(1.5 + 0 as real) == 1;
    assert Trunc(1.5 + 1 as real) == 2;
    var s1 := z[0 := 0.0];
    var s2 := s1[0 := 0.5];
    var s3 := s2[1 := 1.0];
    var s4 := s3[2 := 0.5];
    assert TriangleFill(s4, 1.5, 2, 2) == Ok(s4);
    assert TriangleFill(s3, 1.5, 2, 1) == Ok(s4);
    assert TriangleFill(s2, 1.5, 2, 0) == Ok(s4);
    assert TriangleFill(s1, 1.5, 2, -1) == Ok(s4);
    assert TriangleFill(z, 1.5, 2, -2) == Ok(s4);
    assert s4 == [0.5, 1.0, 0.5, 0.0];
  }

  // ---------------------------------------------------------------------
  // sinewaves_list

  /** One tuple of sinewaves_list: time array, wave and legend. */
  datatype SineEntry = SineEntry(time: seq<real>, wave: seq<real>, legend: string)

  function Legend(show: real -> string, frequency: real, isAverage: bool): string {
    "sin_" + show(frequency) + "_Hz" + (if isAverage then "_ave" else "")
  }

  /** sinewaves_list: the time grid is built once for the frequency closest
      to the average, shared by every entry, one entry per frequency in
      order, and the legend marks with "_ave" exactly the entries whose
      frequency equals that average frequency. The floating-point grid, the
      sine samples and str() of a frequency are the parameters
      arangeTimeArray, sinewave and show; the grid's divisions by the
      frequency and by the sampling rate are kept. */
  method SinewavesList(frequencies: seq<real>, samplingRate: real, closed: bool,
                       arangeTimeArray: (real, real, bool) -> seq<real>,
                       sinewave: (seq<real>, real) -> seq<real>,
                       show: real -> string)
    returns (r: Result<seq<SineEntry>>)
    ensures r.Ok? <==> frequencies != [] && ClosestToAverageOf(frequencies).value != 0.0 && samplingRate != 0.0
    ensures r.Err? ==> r.error == ZeroDivisionError
    ensures r.Ok? ==>
              var ave := ClosestToAverageOf(frequencies).value;
              |r.value| == |frequencies| &&
              forall i :: 0 <= i < |frequencies| ==>
                r.value[i].time == arangeTimeArray(ave, samplingRate, closed) &&
                r.value[i].wave == sinewave(r.value[i].time, frequencies[i]) &&
                r.value[i].legend == Legend(show, frequencies[i], frequencies[i] == ave) &&
                (EndsWith(r.value[i].legend, "_ave") <==> frequencies[i] == ave)
    ensures r.Ok? ==> exists i :: 0 <= i < |r.value| && EndsWith(r.value[i].legend, "_ave")
  {
    var aveFrequency := ClosestToAverage(frequencies);
    if aveFrequency.Err? {
      return Err(aveFrequency.error);
    }
    var ave := aveFrequency.value;
    if ave == 0.0 || samplingRate == 0.0 {
      return Err(ZeroDivisionError);
    }
    var timeArray := arangeTimeArray(ave, samplingRate, closed);
    var list: seq<SineEntry> := [];
    for i := 0 to |frequencies|
      invariant |list| == i
      invariant forall k :: 0 <= k < i ==>
                  list[k] == SineEntry(timeArray, sinewave(timeArray, frequencies[k]),
                                       Legend(show, frequencies[k], frequencies[k] == ave))
    {
      var wave := sinewave(timeArray, frequencies[i]);
      var legend := if frequencies[i] == ave then Legend(show, frequencies[i], true)
                    else Legend(show, frequencies[i], false);
      list := list + [SineEntry(timeArray, wave, legend)];
    }
    forall i | 0 <= i < |frequencies|
      ensures EndsWith(list[i].legend, "_ave") <==> frequencies[i] == ave
    {
      LegendSuffix(show, frequencies[i], frequencies[i] == ave);
    }
    var k := AverageIsListed(frequencies);
    LegendSuffix(show, frequencies[k], true);
    return Ok(list);
  }

  lemma LegendSuffix(show: real -> string, frequency: real, isAverage: bool)
    ensures EndsWith(Legend(show, frequency, isAverage), "_ave") <==> isAverage
  {
    var l := Legend(show, frequency, isAverage);
    if !isAverage {
      assert l[|l| - 1] == 'z';
    }
  }

  /** A non-zero average frequency is one of the frequencies. */
  lemma AverageIsListed(frequencies: seq<real>) returns (k: nat)
    requires frequencies != [] && ClosestToAverageOf(frequencies).value != 0.0
    ensures k < |frequencies| && frequencies[k] == ClosestToAverageOf(frequencies).value
  {
    var ave := ClosestToAverageOf(frequencies).value;
    ClosestToAverageIsNearest(frequencies);
    if Mean(frequencies) in frequencies {
      k :| k < |frequencies| && frequencies[k] == ave;
    } else {
      var cs := [0.0] + frequencies;
      var j: nat :| FirstNearest(Mean(frequencies), ave, cs, j);
      assert j != 0 by { assert cs[0] == 0.0; }
      k := j - 1;
    }
  }
}
