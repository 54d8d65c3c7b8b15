/** dsp/signal.py: the Signal record, its field-by-field copy and its
    in-place extension to a longer duration. */
module DspSignal {
  import opened Common

  /** What Signal.extend leaves behind: the two arrays it rebinds, and the
      exception it stopped on, if any. */
  datatype Extension = Extension(time: seq<real>, amplitude: seq<real>, error: Option<Error>)

  /** The time samples extend appends: each one the previous last time plus
      the second sample time t[1], which is the step of a grid starting at 0. */
  function TimeTail(t: seq<real>, count: nat): (r: seq<real>)
    requires |t| >= 2
    ensures |r| == count
  {
    seq(count, k requires 0 <= k < count => t[|t| - 1] + (k + 1) as real * t[1])
  }

  /** The amplitudes extend appends: the k-th one is a[k + 1] of the growing
      array, which comes to a periodic repetition of a[1..] (period |a| - 1). */
  function AmplitudeTail(a: seq<real>, count: nat): (r: seq<real>)
    requires |a| >= 2
    ensures |r| == count
  {
    seq(count, k requires 0 <= k < count => a[1 + k % (|a| - 1)])
  }

  /** Signal.extend(new_duration) on the arrays t and a of a signal whose
      fundamental frequency is ff. */
  function Extended(t: seq<real>, a: seq<real>, ff: Num, newDuration: real): (r: Extension)
    // the signal's own period asks for nothing
    ensures ff.Value() != 0.0 && newDuration == 1.0 / ff.Value() ==> r == Extension(t, a, None)
    // the original samples are never touched
    ensures t <= r.time && a <= r.amplitude
    // on success both arrays grow by max(0, int(d * n / t[-1]) - n) with n = len(t)
    ensures r.error.None? && !(ff.Value() != 0.0 && newDuration == 1.0 / ff.Value()) ==>
              |t| > 0 && t[|t| - 1] != 0.0 &&
              var grow := SamplesAfter(t, newDuration) - |t|;
              |r.time| == |t| + (if grow > 0 then grow else 0) &&
              |r.amplitude| == |a| + (if grow > 0 then grow else 0)
    // the one partial update: a time is appended before a[1] is found missing
    ensures r.error.Some? ==> r.amplitude == a && |r.time| <= |t| + 1
  {
    if ff.Value() == 0.0 then Extension(t, a, Some(ZeroDivisionError))
    else if newDuration == 1.0 / ff.Value() then Extension(t, a, None)
    else if |t| == 0 then Extension(t, a, Some(IndexError))
    else if t[|t| - 1] == 0.0 then Extension(t, a, Some(ZeroDivisionError))
    else Grown(t, a, SamplesAfter(t, newDuration) - |t|)
  }

  /** int(new_duration * len(t) / t[-1]): the length extend aims for. */
  function SamplesAfter(t: seq<real>, newDuration: real): int
    requires |t| > 0 && t[|t| - 1] != 0.0
  {
    Trunc(newDuration * |t| as real / t[|t| - 1])
  }

  /** The loop of extend, run `grow` times. */
  function Grown(t: seq<real>, a: seq<real>, grow: int): (r: Extension)
    ensures t <= r.time && a <= r.amplitude
    ensures r.error.None? ==> |r.time| == |t| + (if grow > 0 then grow else 0) &&
                              |r.amplitude| == |a| + (if grow > 0 then grow else 0)
    ensures r.error.Some? ==> r.amplitude == a && |r.time| <= |t| + 1
  {
    if grow <= 0 then Extension(t, a, None)
    else if |t| < 2 then Extension(t, a, Some(IndexError))
    else if |a| < 2 then Extension(t + TimeTail(t, 1), a, Some(IndexError))
    else Extension(t + TimeTail(t, grow), a + AmplitudeTail(a, grow), None)
  }

  /** One more turn of the loop appends the last time plus t[1]. */
  lemma TimeTailStep(t: seq<real>, i: nat)
    requires |t| >= 2
    ensures var s := t + TimeTail(t, i);
            TimeTail(t, i + 1) == TimeTail(t, i) + [s[|s| - 1] + s[1]]
  {
    var s := t + TimeTail(t, i);
    assert s[1] == t[1];
    var x := s[|s| - 1] + s[1];
    if i > 0 {
      assert s[|s| - 1] == TimeTail(t, i)[i - 1];
    }
    assert x == t[|t| - 1] + (i + 1) as real * t[1];
    assert TimeTail(t, i + 1)[i] == x;
    assert forall k :: 0 <= k < i ==> TimeTail(t, i + 1)[k] == TimeTail(t, i)[k];
  }

  /** One more turn of the loop appends a[1 + i % (|a| - 1)], which is the
      element i + 1 of the array grown so far. */
  lemma AmplitudeTailStep(a: seq<real>, i: nat)
    requires |a| >= 2
    ensures (a + AmplitudeTail(a, i))[i + 1] == a[1 + i % (|a| - 1)]
    ensures AmplitudeTail(a, i + 1) == AmplitudeTail(a, i) + [a[1 + i % (|a| - 1)]]
  {
    var p := |a| - 1;
    if i + 1 >= |a| {
      assert (a + AmplitudeTail(a, i))[i + 1] == AmplitudeTail(a, i)[i + 1 - |a|];
      ModShift(i - p, p);
    }
  }

  /** A successful extension that added samples appended TimeTail and
      AmplitudeTail to the original arrays. */
  lemma ExtendedGrew(t: seq<real>, a: seq<real>, ff: Num, d: real)
    requires var r := Extended(t, a, ff, d); r.error.None? && |r.time| > |t|
    ensures |t| >= 2 && |a| >= 2
    ensures var r := Extended(t, a, ff, d);
            |r.time| - |t| == |r.amplitude| - |a| &&
            r.time == t + TimeTail(t, |r.time| - |t|) &&
            r.amplitude == a + AmplitudeTail(a, |r.time| - |t|)
  {
  }

  /** After a successful extension the time grid keeps stepping by t[1]. */
  lemma ExtendedTimeStep(t: seq<real>, a: seq<real>, ff: Num, d: real, j: nat)
    requires var r := Extended(t, a, ff, d); r.error.None? && |t| <= j + 1 < |r.time|
    ensures |t| >= 2
    ensures Extended(t, a, ff, d).time[j + 1] == Extended(t, a, ff, d).time[j] + t[1]
  {
    ExtendedGrew(t, a, ff, d);
    var r := Extended(t, a, ff, d);
    var tail := TimeTail(t, |r.time| - |t|);
    if j + 1 == |t| {
      assert r.time[j] == t[|t| - 1];
    } else {
      assert r.time[j] == tail[j - |t|];
    }
    assert r.time[j + 1] == tail[j + 1 - |t|];
  }

  /** After a successful extension every appended amplitude repeats the one
      |a| - 1 places earlier: the waveform is continued periodically, skipping
      the duplicated endpoint a[|a| - 1] == a[0] of a closed period. */
  lemma ExtendedAmplitudePeriodic(t: seq<real>, a: seq<real>, ff: Num, d: real, j: nat)
    requires var r := Extended(t, a, ff, d); r.error.None? && |a| <= j < |r.amplitude|
    ensures |a| >= 2
    ensures Extended(t, a, ff, d).amplitude[j] == Extended(t, a, ff, d).amplitude[j - (|a| - 1)]
  {
    ExtendedGrew(t, a, ff, d);
    var r := Extended(t, a, ff, d);
    TailPeriodic(a, |r.amplitude| - |a|, j);
  }

  lemma TailPeriodic(a: seq<real>, count: nat, j: nat)
    requires |a| >= 2 && |a| <= j < |a| + count
    ensures (a + AmplitudeTail(a, count))[j] == (a + AmplitudeTail(a, count))[j - (|a| - 1)]
  {
    var s := a + AmplitudeTail(a, count);
    var p := |a| - 1;
    var k := j - |a|;
    assert s[j] == AmplitudeTail(a, count)[k] == a[1 + k % p];
    var i := j - p;
    if i < |a| {
      assert i == k + 1 && k < p;
      ModOfSmall(k, p);
      assert s[i] == a[i];
    } else {
      var k' := i - |a|;
      assert k' + p == k;
      assert s[i] == AmplitudeTail(a, count)[k'] == a[1 + k' % p];
      ModShift(k', p);
    }
  }

  lemma ModOfSmall(k: nat, p: int)
    requires k < p
    ensures k % p == k
  {
  }

  lemma ModShift(x: nat, p: int)
    requires p > 0
    ensures (x + p) % p == x % p
  {
    var q, r := x / p, x % p;
    assert x + p == (q + 1) * p + r;
    ModUnique(x + p, p, q + 1, r);
  }

  /** n % p is the only remainder r in [0, p) with n == q * p + r. */
  lemma ModUnique(n: int, p: int, q: int, r: int)
    requires p > 0 && 0 <= r < p && n == q * p + r
    ensures n % p == r
  {
    var q', r' := n / p, n % p;
    assert (q - q') * p == r' - r;
    if q - q' >= 1 {
      MulMonotone(q - q', p);
    } else if q' - q >= 1 {
      MulMonotone(q' - q, p);
    }
  }

  lemma MulMonotone(m: int, p: int)
    requires m >= 1 && p > 0
    ensures m * p >= p
  {
  }

  class Signal {
    var fundamentalFrequency: Num
    var fundamentalAmplitude: Num
    var fundamentalPhase: Num
    var timeArray: seq<real>
    var amplitudeArray: seq<real>
    var frequencyArray: seq<real>
    var xMagnitudeArray: seq<real>
    var xPhaseArray: seq<real>
    var description: string
    /** Attributes that code outside the class attaches to an instance
        (Python lets any assignment create one); none exist at first. */
    var extraAttributes: map<string, seq<real>>

    /** The state of a new signal: -1 for the three fundamentals, empty
        arrays, "N/A", no attribute attached from outside. */
    predicate HasDefaults()
      reads this
    {
      fundamentalFrequency == IntNum(-1) && fundamentalAmplitude == IntNum(-1) &&
      fundamentalPhase == IntNum(-1) &&
      timeArray == [] && amplitudeArray == [] && frequencyArray == [] &&
      xMagnitudeArray == [] && xPhaseArray == [] &&
      description == "N/A" && extraAttributes == map[]
    }

    constructor ()
      ensures HasDefaults()
    {
      fundamentalFrequency := IntNum(-1);
      fundamentalAmplitude := IntNum(-1);
      fundamentalPhase := IntNum(-1);
      timeArray := [];
      amplitudeArray := [];
      frequencyArray := [];
      xMagnitudeArray := [];
      xPhaseArray := [];
      description := "N/A";
      extraAttributes := map[];
    }

    /** copy_from: the nine declared fields take origin's values; origin is
        not written, and attributes attached from outside are not copied. */
    method CopyFrom(origin: Signal)
      modifies this
      ensures fundamentalFrequency == old(origin.fundamentalFrequency)
      ensures fundamentalAmplitude == old(origin.fundamentalAmplitude)
      ensures fundamentalPhase == old(origin.fundamentalPhase)
      ensures timeArray == old(origin.timeArray) && amplitudeArray == old(origin.amplitudeArray)
      ensures frequencyArray == old(origin.frequencyArray)
      ensures xMagnitudeArray == old(origin.xMagnitudeArray) && xPhaseArray == old(origin.xPhaseArray)
      ensures description == old(origin.description)
      ensures extraAttributes == old(extraAttributes)
      ensures origin != this ==> unchanged(origin)
    {
      fundamentalFrequency := origin.fundamentalFrequency;
      fundamentalAmplitude := origin.fundamentalAmplitude;
      fundamentalPhase := origin.fundamentalPhase;
      timeArray := origin.timeArray;
      amplitudeArray := origin.amplitudeArray;
      frequencyArray := origin.frequencyArray;
      xMagnitudeArray := origin.xMagnitudeArray;
      xPhaseArray := origin.xPhaseArray;
      description := origin.description;
    }

    /** extend(new_duration): appends samples one at a time until the time
        array reaches int(new_duration * n / t[-1]) samples; returns the
        exception it stops on, if any. Only the two arrays change. */
    method Extend(newDuration: real) returns (err: Option<Error>)
      modifies this`timeArray, this`amplitudeArray
      ensures Extension(timeArray, amplitudeArray, err)
              == Extended(old(timeArray), old(amplitudeArray), fundamentalFrequency, newDuration)
    {
      if fundamentalFrequency.Value() == 0.0 {
        return Some(ZeroDivisionError);
      }
      if newDuration != 1.0 / fundamentalFrequency.Value() {
        var samplesBefore := |timeArray|;
        if samplesBefore == 0 {
          return Some(IndexError);
        }
        if timeArray[samplesBefore - 1] == 0.0 {
          return Some(ZeroDivisionError);
        }
        var samplesAfter := SamplesAfter(timeArray, newDuration);
        err := AppendSamples(samplesAfter - samplesBefore);
        assert Extended(old(timeArray), old(amplitudeArray), fundamentalFrequency, newDuration)
            == Grown(old(timeArray), old(amplitudeArray), samplesAfter - samplesBefore);
        return;
      }
      return None;
    }

    /** The loop of extend: each turn appends t[-1] + t[1] to the time array
        and a[i + 1] to the amplitude array. */
    method AppendSamples(samplesIncrement: int) returns (err: Option<Error>)
      modifies this`timeArray, this`amplitudeArray
      ensures Extension(timeArray, amplitudeArray, err)
              == Grown(old(timeArray), old(amplitudeArray), samplesIncrement)
    {
      ghost var t0, a0 := timeArray, amplitudeArray;
      var i := 0;
      while i < samplesIncrement
        invariant 0 <= i <= (if samplesIncrement > 0 then samplesIncrement else 0)
        invariant i == 0 ==> timeArray == t0 && amplitudeArray == a0
        invariant i > 0 ==> |t0| >= 2 && |a0| >= 2
        invariant i > 0 ==> timeArray == t0 + TimeTail(t0, i) && amplitudeArray == a0 + AmplitudeTail(a0, i)
      {
        if |timeArray| < 2 {
          return Some(IndexError);
        }
        var stepsLength := timeArray[1];
        var timeIncrement := timeArray[|timeArray| - 1] + stepsLength;
        TimeTailStep(t0, i);
        timeArray := timeArray + [timeIncrement];
        if i + 1 >= |amplitudeArray| {
          return Some(IndexError);
        }
        AmplitudeTailStep(a0, i);
        amplitudeArray := amplitudeArray + [amplitudeArray[i + 1]];
        i := i + 1;
      }
      assert samplesIncrement > 0 ==> i == samplesIncrement;
      return None;
    }
  }

  /** The aliasing hazard of copy_from does not bite: extending the origin
      rebinds its arrays, so a signal copied from it keeps the old samples. */
  method CopyThenExtend(copy: Signal, origin: Signal, newDuration: real) returns (err: Option<Error>)
    requires copy != origin
    modifies copy, origin
    ensures copy.timeArray == old(origin.timeArray) && copy.amplitudeArray == old(origin.amplitudeArray)
    ensures Extension(origin.timeArray, origin.amplitudeArray, err)
            == Extended(old(origin.timeArray), old(origin.amplitudeArray), old(origin.fundamentalFrequency), newDuration)
  {
    copy.CopyFrom(origin);
    err := origin.Extend(newDuration);
  }
}
