/** dsp/functions.py: list coercion, the value nearest to the mean, the
    period bookkeeping that extends signals before they are combined, and
    the two bubble sorts over three parallel arrays. */
module DspFunctions {
  import opened Common
  import opened DspSignal

  /** A Python list object: code holding the same object sees its updates. */
  class PyList {
    var items: seq<int>

    constructor (items: seq<int>)
      ensures this.items == items
    {
      this.items := items;
    }
  }

  /** The array-like values the helpers accept. */
  datatype ArrayLike =
    | ListObject(list: PyList)
    | NdArray(elements: seq<int>)
    | OtherIterable(elements: seq<int>)

  /** to_list (and signals/functions.py's make_list): a list comes back as
      the very same object, anything else as a new list of its elements. */
  method ToList(v: ArrayLike) returns (l: PyList)
    ensures v.ListObject? ==> l == v.list
    ensures !v.ListObject? ==> fresh(l) && l.items == v.elements
  {
    match v
    case ListObject(list) => l := list;
    case NdArray(elements) => l := new PyList(elements);
    case OtherIterable(elements) => l := new PyList(elements);
  }

  // ---------------------------------------------------------------------
  // closest_to_average

  /** Python's sum(): left to right from 0. */
  function Sum(xs: seq<real>): real {
    if xs == [] then 0.0 else Sum(xs[..|xs| - 1]) + xs[|xs| - 1]
  }

  function Mean(xs: seq<real>): real
    requires |xs| > 0
  {
    Sum(xs) / |xs| as real
  }

  /** The scan of closest_to_average: an element replaces the running
      candidate only when it is strictly nearer to the mean. */
  function NearestFrom(mean: real, closest: real, xs: seq<real>): real
    decreases |xs|
  {
    if xs == [] then closest
    else NearestFrom(mean, if Abs(mean - xs[0]) < Abs(mean - closest) then xs[0] else closest, xs[1..])
  }

  /** closest_to_average on the list it converts its argument to. */
  function ClosestToAverageOf(xs: seq<real>): Result<real> {
    if |xs| == 0 then Err(ZeroDivisionError)
    else if Mean(xs) in xs then Ok(Mean(xs))
    else Ok(NearestFrom(Mean(xs), 0.0, xs))
  }

  /** The loop of closest_to_average, seeded with 0. */
  method ClosestToAverage(xs: seq<real>) returns (r: Result<real>)
    ensures r == ClosestToAverageOf(xs)
  {
    if |xs| == 0 {
      return Err(ZeroDivisionError);
    }
    var average := Sum(xs) / |xs| as real;
    var closest := 0.0;
    if average in xs {
      closest := average;
    } else {
      for i := 0 to |xs|
        invariant NearestFrom(average, closest, xs[i..]) == NearestFrom(average, 0.0, xs)
      {
        assert xs[i..][1..] == xs[i + 1..];
        var difference := Abs(average - xs[i]);
        if difference < Abs(average - closest) {
          closest := xs[i];
        }
      }
    }
    return Ok(closest);
  }

  /** Among the candidates cs, r = cs[k] is at the least distance from the
      mean, and every candidate before position k is strictly farther. */
  predicate FirstNearest(mean: real, r: real, cs: seq<real>, k: nat) {
    k < |cs| && cs[k] == r &&
    (forall j :: 0 <= j < k ==> Abs(mean - r) < Abs(mean - cs[j])) &&
    (forall j :: 0 <= j < |cs| ==> Abs(mean - r) <= Abs(mean - cs[j]))
  }

  /** What the scan finds: among the candidates [closest] + xs, the first one
      at the least distance from the mean; k is its position. */
  lemma {:induction false} NearestFromIndex(mean: real, closest: real, xs: seq<real>) returns (k: nat)
    ensures FirstNearest(mean, NearestFrom(mean, closest, xs), [closest] + xs, k)
    decreases |xs|
  {
    var r := NearestFrom(mean, closest, xs);
    if xs == [] {
      assert ([closest] + xs)[0] == closest == r;
      return 0;
    }
    var x, rest := xs[0], xs[1..];
    assert xs == [x] + rest;
    if Abs(mean - x) < Abs(mean - closest) {
      assert r == NearestFrom(mean, x, rest);
      var k' := NearestFromIndex(mean, x, rest);
      k := NearestStepReplaced(mean, closest, xs, r, k');
    } else {
      assert r == NearestFrom(mean, closest, rest);
      var k' := NearestFromIndex(mean, closest, rest);
      k := NearestStepKept(mean, closest, x, rest, r, k');
    }
  }

  /** A strictly nearer first element replaces the candidate: the candidate
      is pushed in front of the remaining scan. */
  lemma NearestStepReplaced(mean: real, closest: real, xs: seq<real>, r: real, k': nat) returns (k: nat)
    requires xs != [] && Abs(mean - xs[0]) < Abs(mean - closest)
    requires FirstNearest(mean, r, xs, k')
    ensures FirstNearest(mean, r, [closest] + xs, k)
  {
    var cs := [closest] + xs;
    k := k' + 1;
    forall j | 0 <= j < |cs|
      ensures Abs(mean - r) <= Abs(mean - cs[j])
      ensures j < k ==> Abs(mean - r) < Abs(mean - cs[j])
    {
      if j >= 1 {
        assert cs[j] == xs[j - 1];
      } else {
        assert Abs(mean - r) <= Abs(mean - xs[0]);
      }
    }
  }

  /** An element no nearer than the candidate is skipped. */
  lemma NearestStepKept(mean: real, closest: real, x: real, rest: seq<real>, r: real, k': nat) returns (k: nat)
    requires Abs(mean - closest) <= Abs(mean - x)
    requires FirstNearest(mean, r, [closest] + rest, k')
    ensures FirstNearest(mean, r, [closest] + ([x] + rest), k)
  {
    var cs := [closest] + ([x] + rest);
    var cs' := [closest] + rest;
    k := if k' == 0 then 0 else k' + 1;
    assert Abs(mean - r) <= Abs(mean - closest) by { assert cs'[0] == closest; }
    if k' > 0 {
      assert Abs(mean - r) < Abs(mean - closest) by { assert cs'[0] == closest; }
    }
    forall j | 0 <= j < |cs|
      ensures Abs(mean - r) <= Abs(mean - cs[j])
      ensures j < k ==> Abs(mean - r) < Abs(mean - cs[j])
    {
      if j >= 2 {
        assert cs[j] == cs'[j - 1];
      }
    }
    assert cs[k] == r by {
      if k' == 0 { assert cs'[0] == r; } else { assert cs[k] == cs'[k']; }
    }
  }

  /** closest_to_average raises on an empty input, returns the mean when the
      mean is an element, and otherwise returns the first of 0, xs[0], xs[1],
      ... that is nearest to the mean -- which can be 0 even though 0 is not
      an element. */
  lemma ClosestToAverageIsNearest(xs: seq<real>)
    ensures ClosestToAverageOf(xs).Err? <==> xs == []
    ensures xs != [] && Mean(xs) in xs ==> ClosestToAverageOf(xs) == Ok(Mean(xs))
    ensures xs != [] && Mean(xs) !in xs ==>
              var r := ClosestToAverageOf(xs).value;
              exists k :: FirstNearest(Mean(xs), r, [0.0] + xs, k)
  {
    if xs != [] && Mean(xs) !in xs {
      var k := NearestFromIndex(Mean(xs), 0.0, xs);
    }
  }

  /** The mean of [1, 2, 3, 100] is 26.5; 3 is the element nearest to it. */
  lemma ClosestToAverageExample()
    ensures ClosestToAverageOf([1.0, 2.0, 3.0, 100.0]) == Ok(3.0)
  {
    var xs := [1.0, 2.0, 3.0, 100.0];
    assert Sum([1.0]) == 1.0 by { assert [1.0][..0] == []; }
    assert Sum([1.0, 2.0]) == 3.0 by { assert [1.0, 2.0][..1] == [1.0]; }
    assert Sum([1.0, 2.0, 3.0]) == 6.0 by { assert [1.0, 2.0, 3.0][..2] == [1.0, 2.0]; }
    assert Sum(xs) == 106.0 by { assert xs[..3] == [1.0, 2.0, 3.0]; }
    assert Mean(xs) == 26.5;
    assert xs[1..] == [2.0, 3.0, 100.0];
    assert xs[1..][1..] == [3.0, 100.0];
    assert xs[1..][1..][1..] == [100.0];
  }

  /** The seed 0 wins when it is strictly nearer than every element: for
      [-1, 2] the mean is 0.5 and the result is 0, which is not an element. */
  lemma ClosestToAverageCanBeZero()
    ensures ClosestToAverageOf([-1.0, 2.0]) == Ok(0.0)
    ensures 0.0 !in [-1.0, 2.0]
  {
    var xs := [-1.0, 2.0];
    assert Sum(xs) == 1.0 by { assert xs[..1] == [-1.0]; assert [-1.0][..0] == []; }
    assert Mean(xs) == 0.5;
    assert xs[1..] == [2.0];
  }

  // ---------------------------------------------------------------------
  // get_lower_frequency, get_sum_period and the two extend_to_* helpers

  /** get_lower_frequency(self, *signals): `self` takes the first signal, so
      only the others are scanned; with none of them signals[0] fails. */
  method GetLowerFrequency(self: Signal, signals: seq<Signal>) returns (r: Result<Num>)
    ensures r.Err? <==> signals == []
    ensures r.Err? ==> r.error == IndexError
    ensures r.Ok? ==> exists k :: 0 <= k < |signals| && r.value == signals[k].fundamentalFrequency
    ensures r.Ok? ==> forall k :: 0 <= k < |signals| ==>
              r.value.Value() <= signals[k].fundamentalFrequency.Value()
  {
    if signals == [] {
      return Err(IndexError);
    }
    var fundamentalFrequency := signals[0].fundamentalFrequency;
    ghost var at := 0;
    for i := 1 to |signals|
      invariant 0 <= at < i && fundamentalFrequency == signals[at].fundamentalFrequency
      invariant forall k :: 0 <= k < i ==> fundamentalFrequency.Value() <= signals[k].fundamentalFrequency.Value()
    {
      if signals[i].fundamentalFrequency.Value() < fundamentalFrequency.Value() {
        fundamentalFrequency := signals[i].fundamentalFrequency;
        at := i;
      }
    }
    return Ok(fundamentalFrequency);
  }

  ghost predicate Distinct(signals: seq<Signal>) {
    forall i, j :: 0 <= i < j < |signals| ==> signals[i] != signals[j]
  }

  /** Every field that extend does not write keeps its value, for every
      signal of the list. */
  twostate predicate OtherFieldsKept(signals: seq<Signal>)
    reads set s | s in signals
  {
    forall s :: s in signals ==>
      s.fundamentalFrequency == old(s.fundamentalFrequency) &&
      s.fundamentalAmplitude == old(s.fundamentalAmplitude) &&
      s.fundamentalPhase == old(s.fundamentalPhase) &&
      s.frequencyArray == old(s.frequencyArray) &&
      s.xMagnitudeArray == old(s.xMagnitudeArray) && s.xPhaseArray == old(s.xPhaseArray) &&
      s.description == old(s.description) && s.extraAttributes == old(s.extraAttributes)
  }

  /** The outcome of `for s in signals: s.extend(d)` stopped at position
      `failed` with exception `err` (|signals| and None when nothing fails):
      the signals before it hold `Extended` of their old arrays, the one at
      it holds what its failed extend left, those after it are untouched. */
  twostate predicate ExtendedUpTo(signals: seq<Signal>, newDuration: real, err: Option<Error>, failed: nat)
    reads set s | s in signals
  {
    failed <= |signals| && (err.None? <==> failed == |signals|) &&
    forall k :: 0 <= k < |signals| ==>
      var before := Extended(old(signals[k].timeArray), old(signals[k].amplitudeArray),
                             old(signals[k].fundamentalFrequency), newDuration);
      (k < failed ==> before.error.None? &&
                      signals[k].timeArray == before.time && signals[k].amplitudeArray == before.amplitude) &&
      (k == failed ==> before.error == err &&
                       signals[k].timeArray == before.time && signals[k].amplitudeArray == before.amplitude) &&
      (k > failed ==> signals[k].timeArray == old(signals[k].timeArray) &&
                      signals[k].amplitudeArray == old(signals[k].amplitudeArray))
  }

  /** `for s in signals: s.extend(d)`, stopping at the first exception;
      `failed` is the position it stopped at. With distinct signals the
      outcome is `ExtendedUpTo`; in every case only the two arrays change. */
  method ExtendAll(signals: seq<Signal>, newDuration: real) returns (err: Option<Error>, ghost failed: nat)
    modifies set s | s in signals
    ensures failed <= |signals| && (err.None? <==> failed == |signals|)
    ensures Distinct(signals) ==> ExtendedUpTo(signals, newDuration, err, failed)
    ensures OtherFieldsKept(signals)
  {
    var i := 0;
    while i < |signals|
      invariant 0 <= i <= |signals|
      invariant OtherFieldsKept(signals)
      invariant Distinct(signals) ==> forall k :: 0 <= k < |signals| ==>
                  var before := Extended(old(signals[k].timeArray), old(signals[k].amplitudeArray),
                                         old(signals[k].fundamentalFrequency), newDuration);
                  (k < i ==> before.error.None? &&
                             signals[k].timeArray == before.time && signals[k].amplitudeArray == before.amplitude) &&
                  (k >= i ==> signals[k].timeArray == old(signals[k].timeArray) &&
                              signals[k].amplitudeArray == old(signals[k].amplitudeArray))
    {
      var e := signals[i].Extend(newDuration);
      if e.Some? {
        return e, i;
      }
      i := i + 1;
    }
    return None, |signals|;
  }

  /** extend_to_min(*signals): extends every signal to the period 1 / lowest
      of the lowest frequency get_lower_frequency finds, which never looks
      at the first signal; a zero lowest frequency fails in the division
      before any signal changes. A single signal fails, and no signal at all
      is a call of get_lower_frequency without its `self`. */
  method ExtendToMin(signals: seq<Signal>) returns (err: Option<Error>, ghost failed: nat, ghost lowest: real)
    modifies set s | s in signals
    ensures signals == [] ==> err == Some(TypeError) && failed == 0
    ensures |signals| == 1 ==> err == Some(IndexError) && failed == 0
    ensures |signals| < 2 ==> forall s :: s in signals ==> unchanged(s)
    ensures |signals| >= 2 ==>
              (exists m :: 1 <= m < |signals| && lowest == old(signals[m].fundamentalFrequency.Value())) &&
              forall k :: 1 <= k < |signals| ==> lowest <= old(signals[k].fundamentalFrequency.Value())
    ensures |signals| >= 2 && lowest == 0.0 ==>
              err == Some(ZeroDivisionError) && failed == 0 && forall s :: s in signals ==> unchanged(s)
    ensures |signals| >= 2 && lowest != 0.0 ==>
              failed <= |signals| && (err.None? <==> failed == |signals|) &&
              (Distinct(signals) ==> ExtendedUpTo(signals, 1.0 / lowest, err, failed))
    ensures OtherFieldsKept(signals)
  {
    if signals == [] {
      return Some(TypeError), 0, 0.0;
    }
    var lower := GetLowerFrequency(signals[0], signals[1..]);
    if lower.Err? {
      return Some(lower.error), 0, 0.0;
    }
    var lowerValue := lower.value.Value();
    lowest := lowerValue;
    if lowerValue == 0.0 {
      return Some(ZeroDivisionError), 0, lowest;
    }
    var maxPeriod := 1.0 / lowerValue;
    err, failed := ExtendAll(signals, maxPeriod);
  }

  /** Euclid's algorithm, as math.gcd computes it on non-negative ints. */
  function Gcd(a: nat, b: nat): nat
    decreases b
  {
    if b == 0 then a else Gcd(b, a % b)
  }

  function IntAbs(x: int): nat {
    if x < 0 then -x else x
  }

  /** math.gcd(*xs): 0 for no argument, folded left over the absolute values. */
  function GcdAll(xs: seq<int>): nat {
    if xs == [] then 0 else Gcd(GcdAll(xs[..|xs| - 1]), IntAbs(xs[|xs| - 1]))
  }

  /** d divides n, for a positive d. */
  predicate Divides(d: nat, n: int)
    requires d > 0
  {
    n % d == 0
  }

  lemma DividesCombination(d: nat, a: int, b: int, q: int)
    requires d > 0 && Divides(d, a) && Divides(d, b)
    ensures Divides(d, a - q * b)
  {
    var x, y := a / d, b / d;
    assert a == x * d && b == y * d;
    assert q * b == (q * y) * d;
    assert a - q * b == (x - q * y) * d;
    ModUnique(a - q * b, d, x - q * y, 0);
  }

  lemma DividesSum(d: nat, a: int, b: int, q: int)
    requires d > 0 && Divides(d, a) && Divides(d, b)
    ensures Divides(d, q * a + b)
  {
    var x, y := a / d, b / d;
    assert a == x * d && b == y * d;
    assert q * a == (q * x) * d;
    assert q * a + b == (q * x + y) * d;
    ModUnique(q * a + b, d, q * x + y, 0);
  }

  /** Gcd divides both arguments, and every common divisor divides it. */
  lemma {:induction false} GcdIsGreatest(a: nat, b: nat)
    ensures Gcd(a, b) > 0 ==> Divides(Gcd(a, b), a) && Divides(Gcd(a, b), b)
    ensures forall d :: d > 0 && Divides(d, a) && Divides(d, b) ==> Divides(d, Gcd(a, b))
    decreases b
  {
    if b != 0 {
      GcdIsGreatest(b, a % b);
      var g := Gcd(a, b);
      assert g == Gcd(b, a % b);
      assert a == (a / b) * b + a % b;
      if g > 0 {
        DividesSum(g, b, a % b, a / b);
      }
      forall d | d > 0 && Divides(d, a) && Divides(d, b)
        ensures Divides(d, g)
      {
        DividesCombination(d, a, b, a / b);
        assert a % b == a - (a / b) * b;
      }
    } else {
      assert forall d :: d > 0 ==> Divides(d, 0);
    }
  }

  lemma DividesAbs(d: nat, x: int)
    requires d > 0
    ensures Divides(d, x) <==> Divides(d, IntAbs(x))
  {
    if x < 0 {
      if Divides(d, x) {
        DividesCombination(d, 0, x, 1);
      } else if Divides(d, -x) {
        DividesCombination(d, 0, -x, 1);
      }
    }
  }

  /** math.gcd(*xs) divides every argument, and every common divisor of the
      arguments divides it. */
  lemma {:induction false} GcdAllIsGreatest(xs: seq<int>)
    ensures GcdAll(xs) > 0 ==> forall k :: 0 <= k < |xs| ==> Divides(GcdAll(xs), xs[k])
    ensures forall d :: d > 0 && (forall k :: 0 <= k < |xs| ==> Divides(d, xs[k])) ==> Divides(d, GcdAll(xs))
  {
    if xs != [] {
      var init, x := xs[..|xs| - 1], xs[|xs| - 1];
      GcdAllIsGreatest(init);
      var g0 := GcdAll(init);
      var g := GcdAll(xs);
      GcdIsGreatest(g0, IntAbs(x));
      if g > 0 {
        forall k | 0 <= k < |xs|
          ensures Divides(g, xs[k])
        {
          if k < |xs| - 1 {
            assert xs[k] == init[k];
            if g0 > 0 {
              DividesTransitive(g, g0, xs[k]);
            } else {
              assert 0 % IntAbs(x) == 0;
              assert g == Gcd(IntAbs(x), 0) == IntAbs(x);
              GcdAllZero(init, k);
            }
          } else {
            DividesAbs(g, x);
          }
        }
      }
      forall d | d > 0 && (forall k :: 0 <= k < |xs| ==> Divides(d, xs[k]))
        ensures Divides(d, g)
      {
        assert forall k :: 0 <= k < |init| ==> init[k] == xs[k];
        DividesAbs(d, x);
      }
    }
  }

  lemma DividesTransitive(d: nat, e: nat, n: int)
    requires d > 0 && e > 0 && Divides(d, e) && Divides(e, n)
    ensures Divides(d, n)
  {
    var x, y := e / d, n / e;
    assert e == x * d && n == y * e;
    assert n == (y * x) * d;
    ModUnique(n, d, y * x, 0);
  }

  /** A gcd of 0 means every argument was 0. */
  lemma {:induction false} GcdAllZero(xs: seq<int>, k: nat)
    requires GcdAll(xs) == 0 && k < |xs|
    ensures xs[k] == 0
  {
    var init := xs[..|xs| - 1];
    GcdZero(GcdAll(init), IntAbs(xs[|xs| - 1]));
    if k < |xs| - 1 {
      GcdAllZero(init, k);
    }
  }

  lemma {:induction false} GcdZero(a: nat, b: nat)
    requires Gcd(a, b) == 0
    ensures a == 0 && b == 0
    decreases b
  {
    if b != 0 {
      GcdZero(b, a % b);
    }
  }

  function Frequencies(signals: seq<Signal>): (r: seq<Num>)
    reads set s | s in signals
    ensures |r| == |signals|
    ensures forall k :: 0 <= k < |signals| ==> r[k] == signals[k].fundamentalFrequency
  {
    if signals == [] then []
    else Frequencies(signals[..|signals| - 1]) + [signals[|signals| - 1].fundamentalFrequency]
  }

  function IntValues(xs: seq<Num>): (r: seq<int>)
    requires forall k :: 0 <= k < |xs| ==> xs[k].IntNum?
    ensures |r| == |xs| && forall k :: 0 <= k < |xs| ==> r[k] == xs[k].i
  {
    seq(|xs|, k requires 0 <= k < |xs| && xs[k].IntNum? => xs[k].i)
  }

  /** get_sum_period on the fundamental frequencies: 1 / math.gcd(*fs). */
  function SumPeriod(fs: seq<Num>): Result<real> {
    if exists k :: 0 <= k < |fs| && fs[k].FloatNum? then Err(TypeError)
    else if GcdAll(IntValues(fs)) == 0 then Err(ZeroDivisionError)
    else Ok(1.0 / GcdAll(IntValues(fs)) as real)
  }

  /** The combination period T0 = 1 / gcd(f_1 .. f_n): every f_i * T0 is a
      whole number of cycles, and the period 1 / d of every other common
      divisor d is a whole multiple of T0. */
  lemma SumPeriodIsCommonPeriod(fs: seq<Num>)
    requires SumPeriod(fs).Ok?
    ensures forall k :: 0 <= k < |fs| ==>
              (fs[k].IntNum? && fs[k].i as real * SumPeriod(fs).value == (fs[k].i / GcdAll(IntValues(fs))) as real)
    ensures forall d: nat :: d > 0 && (forall k :: 0 <= k < |fs| ==> Divides(d, fs[k].i)) ==>
              (1.0 / d as real) / SumPeriod(fs).value == (GcdAll(IntValues(fs)) / d) as real
  {
    var xs := IntValues(fs);
    var g := GcdAll(xs);
    GcdAllIsGreatest(xs);
    forall k | 0 <= k < |fs|
      ensures fs[k].i as real * SumPeriod(fs).value == (fs[k].i / g) as real
    {
      assert Divides(g, xs[k]);
      assert fs[k].i == (fs[k].i / g) * g;
      assert fs[k].i as real == (fs[k].i / g) as real * g as real;
    }
    forall d: nat | d > 0 && (forall k :: 0 <= k < |fs| ==> Divides(d, fs[k].i))
      ensures (1.0 / d as real) / SumPeriod(fs).value == (g / d) as real
    {
      assert forall k :: 0 <= k < |xs| ==> Divides(d, xs[k]);
      assert Divides(d, g);
      assert g == (g / d) * d;
      assert g as real == (g / d) as real * d as real;
    }
  }

  /** get_sum_period(*signals): collects the fundamental frequencies in a
      list and returns 1 / math.gcd of them. */
  method GetSumPeriod(signals: seq<Signal>) returns (r: Result<real>)
    ensures r == SumPeriod(Frequencies(signals))
  {
    var frequenciesList: seq<Num> := [];
    for i := 0 to |signals|
      invariant frequenciesList == Frequencies(signals[..i])
    {
      assert signals[..i + 1] == signals[..i] + [signals[i]];
      frequenciesList := frequenciesList + [signals[i].fundamentalFrequency];
    }
    assert signals[..|signals|] == signals;
    if exists k :: 0 <= k < |frequenciesList| && frequenciesList[k].FloatNum? {
      return Err(TypeError);
    }
    var gcdResult := GcdAll(IntValues(frequenciesList));
    if gcdResult == 0 {
      return Err(ZeroDivisionError);
    }
    return Ok(1.0 / gcdResult as real);
  }

  /** extend_to_sum(*signals): extends every signal to four times the
      combination period (the factor 4 is left in the source). */
  method ExtendToSum(signals: seq<Signal>) returns (err: Option<Error>, ghost failed: nat, ghost period: real)
    modifies set s | s in signals
    ensures SumPeriod(old(Frequencies(signals))).Err? ==>
              err == Some(SumPeriod(old(Frequencies(signals))).error) && failed == 0 &&
              forall s :: s in signals ==> unchanged(s)
    ensures SumPeriod(old(Frequencies(signals))).Ok? ==>
              period == SumPeriod(old(Frequencies(signals))).value * 4.0 &&
              failed <= |signals| && (err.None? <==> failed == |signals|) &&
              (Distinct(signals) ==> ExtendedUpTo(signals, period, err, failed))
    ensures OtherFieldsKept(signals)
  {
    var sumPeriod := GetSumPeriod(signals);
    if sumPeriod.Err? {
      return Some(sumPeriod.error), 0, 0.0;
    }
    var fourPeriods := sumPeriod.value * 4.0;
    period := fourPeriods;
    err, failed := ExtendAll(signals, fourPeriods);
  }

  // ---------------------------------------------------------------------
  // buble_decreasing_sort and buble_increasing_sort

  /** One entry of the three parallel arrays: the key and its two slaves. */
  type Row = (real, real, real)

  function Rows(m: seq<real>, s1: seq<real>, s2: seq<real>): (r: seq<Row>)
    requires |m| <= |s1| && |m| <= |s2|
    ensures |r| == |m| && forall k :: 0 <= k < |m| ==> r[k] == (m[k], s1[k], s2[k])
  {
    seq(|m|, k requires 0 <= k < |m| => (m[k], s1[k], s2[k]))
  }

  /** x may stand before y: x >= y in the decreasing sort, x <= y in the
      increasing one. */
  predicate InOrder(x: real, y: real, descending: bool) {
    if descending then x >= y else x <= y
  }

  predicate Sorted(keys: seq<real>, descending: bool) {
    forall p, q :: 0 <= p < q < |keys| ==> InOrder(keys[p], keys[q], descending)
  }

  function Swap<T>(s: seq<T>, j: int): (r: seq<T>)
    requires 0 <= j < |s| - 1
    ensures |r| == |s| && r[j] == s[j + 1] && r[j + 1] == s[j]
    ensures forall k :: 0 <= k < |s| && k != j && k != j + 1 ==> r[k] == s[k]
  {
    s[j := s[j + 1]][j + 1 := s[j]]
  }

  /** rows is rows0 rearranged by perm (row k came from position perm[k]),
      and rows with equal keys kept their original relative order. */
  ghost predicate StablyReordered(rows: seq<Row>, rows0: seq<Row>, perm: seq<int>) {
    |rows| == |rows0| && |perm| == |rows0| &&
    (forall k :: 0 <= k < |perm| ==> 0 <= perm[k] < |rows0| && rows[k] == rows0[perm[k]]) &&
    (forall p, q :: 0 <= p < q < |perm| ==> perm[p] != perm[q]) &&
    (forall p, q :: 0 <= p < q < |rows| && rows[p].0 == rows[q].0 ==> perm[p] < perm[q])
  }

  lemma SwapMultiset<T>(s: seq<T>, j: int)
    requires 0 <= j < |s| - 1
    ensures multiset(Swap(s, j)) == multiset(s)
  {
    assert s == s[..j] + [s[j], s[j + 1]] + s[j + 2..];
    assert Swap(s, j) == s[..j] + [s[j + 1], s[j]] + s[j + 2..];
  }

  /** Swapping two neighbours whose keys differ keeps the reordering stable. */
  lemma SwapKeepsStable(rows: seq<Row>, rows0: seq<Row>, perm: seq<int>, j: int)
    requires StablyReordered(rows, rows0, perm)
    requires 0 <= j < |rows| - 1 && rows[j].0 != rows[j + 1].0
    ensures StablyReordered(Swap(rows, j), rows0, Swap(perm, j))
  {
    var rows', perm' := Swap(rows, j), Swap(perm, j);
    forall p, q | 0 <= p < q < |perm'|
      ensures perm'[p] != perm'[q]
    {
      var p0 := if p == j then j + 1 else if p == j + 1 then j else p;
      var q0 := if q == j then j + 1 else if q == j + 1 then j else q;
      assert perm'[p] == perm[p0] && perm'[q] == perm[q0] && p0 != q0;
      if p0 < q0 { assert perm[p0] != perm[q0]; } else { assert perm[q0] != perm[p0]; }
    }
    forall p, q | 0 <= p < q < |rows'| && rows'[p].0 == rows'[q].0
      ensures perm'[p] < perm'[q]
    {
      var p0 := if p == j then j + 1 else if p == j + 1 then j else p;
      var q0 := if q == j then j + 1 else if q == j + 1 then j else q;
      assert rows'[p] == rows[p0] && rows'[q] == rows[q0];
      assert perm'[p] == perm[p0] && perm'[q] == perm[q0];
      assert p0 < q0;
    }
  }

  /** Exchanges entries j and j + 1 of all three arrays, as the sorts do. */
  method SwapRows(master: array<real>, slave1: array<real>, slave2: array<real>, j: int)
    requires master != slave1 && master != slave2 && slave1 != slave2
    requires master.Length <= slave1.Length && master.Length <= slave2.Length
    requires 0 <= j < master.Length - 1
    modifies master, slave1, slave2
    ensures master[..] == Swap(old(master[..]), j)
    ensures Rows(master[..], slave1[..], slave2[..]) == Swap(old(Rows(master[..], slave1[..], slave2[..])), j)
    ensures slave1[master.Length..] == old(slave1[master.Length..])
    ensures slave2[master.Length..] == old(slave2[master.Length..])
  {
    master[j], master[j + 1] := master[j + 1], master[j];
    slave1[j], slave1[j + 1] := slave1[j + 1], slave1[j];
    slave2[j], slave2[j + 1] := slave2[j + 1], slave2[j];
  }

  function Identity(n: nat): (r: seq<int>)
    ensures |r| == n && forall k :: 0 <= k < n ==> r[k] == k
  {
    seq(n, k => k)
  }

  /** After i passes the last i keys are in place: each is in order with
      every key before it. */
  ghost predicate SuffixPlaced(ks: seq<real>, i: int, descending: bool) {
    forall p, q :: 0 <= p < q < |ks| && q >= |ks| - i ==> InOrder(ks[p], ks[q], descending)
  }

  /** Inside pass i at step j: the key at j is in order with every key
      before it, and once j reaches |ks| - i - 1 that key is in place. */
  ghost predicate PassState(ks: seq<real>, i: int, j: int, descending: bool) {
    SuffixPlaced(ks, i, descending) &&
    (0 <= j < |ks| ==> forall p :: 0 <= p <= j ==> InOrder(ks[p], ks[j], descending)) &&
    (0 <= i && j >= |ks| - i - 1 ==> forall p :: 0 <= p < |ks| - i - 1 ==> InOrder(ks[p], ks[|ks| - i - 1], descending))
  }

  /** One comparison of a pass: swapping the neighbours when they are out of
      order carries the pass state from j to j + 1. */
  lemma PassStep(ks: seq<real>, i: int, j: int, descending: bool)
    requires 0 <= i < |ks| && 0 <= j < |ks| - 1 && PassState(ks, i, j, descending)
    ensures var ks' := if InOrder(ks[j], ks[j + 1], descending) then ks else Swap(ks, j);
            PassState(ks', i, j + 1, descending)
  {
    if !InOrder(ks[j], ks[j + 1], descending) {
      // the placed suffix is never touched: every key before it is in order with it
      assert j + 1 < |ks| - i;
      var ks' := Swap(ks, j);
      forall p, q | 0 <= p < q < |ks'| && q >= |ks'| - i
        ensures InOrder(ks'[p], ks'[q], descending)
      {
        assert ks'[q] == ks[q];
        if p == j { assert InOrder(ks[j + 1], ks[q], descending); }
        else if p == j + 1 { assert InOrder(ks[j], ks[q], descending); }
      }
      forall p | 0 <= p <= j + 1
        ensures InOrder(ks'[p], ks'[j + 1], descending)
      {
        if p < j { assert InOrder(ks[p], ks[j], descending); }
      }
    }
  }

  /** A full pass places one more key. */
  lemma PassEnd(ks: seq<real>, i: int, descending: bool)
    requires 0 <= i && PassState(ks, i, if |ks| > 0 then |ks| - 1 else 0, descending)
    ensures SuffixPlaced(ks, i + 1, descending)
  {
  }

  /** Pass i of the nested loops: the inner loop over j. */
  method BubblePass(master: array<real>, slave1: array<real>, slave2: array<real>, descending: bool, i: int,
                    ghost rows0: seq<Row>, ghost perm0: seq<int>)
    returns (ghost perm: seq<int>)
    requires master != slave1 && master != slave2 && slave1 != slave2
    requires master.Length <= slave1.Length && master.Length <= slave2.Length
    requires 0 <= i < master.Length
    requires StablyReordered(Rows(master[..], slave1[..], slave2[..]), rows0, perm0)
    requires multiset(Rows(master[..], slave1[..], slave2[..])) == multiset(rows0)
    requires SuffixPlaced(master[..], i, descending)
    modifies master, slave1, slave2
    ensures StablyReordered(Rows(master[..], slave1[..], slave2[..]), rows0, perm)
    ensures multiset(Rows(master[..], slave1[..], slave2[..])) == multiset(rows0)
    ensures SuffixPlaced(master[..], i + 1, descending)
    ensures slave1[master.Length..] == old(slave1[master.Length..])
    ensures slave2[master.Length..] == old(slave2[master.Length..])
  {
    var size := master.Length;
    ghost var rows := Rows(master[..], slave1[..], slave2[..]);
    perm := perm0;
    var j := 0;
    while j < size - 1
      invariant 0 <= j <= size - 1
      invariant rows == Rows(master[..], slave1[..], slave2[..])
      invariant multiset(rows) == multiset(rows0) && StablyReordered(rows, rows0, perm)
      invariant slave1[size..] == old(slave1[size..]) && slave2[size..] == old(slave2[size..])
      invariant PassState(master[..], i, j, descending)
    {
      PassStep(master[..], i, j, descending);
      if !InOrder(master[j], master[j + 1], descending) {
        SwapMultiset(rows, j);
        SwapKeepsStable(rows, rows0, perm, j);
        SwapRows(master, slave1, slave2, j);
        rows, perm := Swap(rows, j), Swap(perm, j);
      }
      j := j + 1;
    }
    PassEnd(master[..], i, descending);
  }

  /** The nested loops both sorts share: pass i bubbles the entry that
      belongs at position size - 1 - i down to it, swapping neighbours that
      are out of order in the key array and in both slaves. */
  method BubbleSortRows(master: array<real>, slave1: array<real>, slave2: array<real>, descending: bool)
    returns (ghost perm: seq<int>)
    requires master != slave1 && master != slave2 && slave1 != slave2
    requires master.Length <= slave1.Length && master.Length <= slave2.Length
    modifies master, slave1, slave2
    ensures Sorted(master[..], descending)
    ensures multiset(Rows(master[..], slave1[..], slave2[..])) == multiset(old(Rows(master[..], slave1[..], slave2[..])))
    ensures StablyReordered(Rows(master[..], slave1[..], slave2[..]), old(Rows(master[..], slave1[..], slave2[..])), perm)
    ensures slave1[master.Length..] == old(slave1[master.Length..])
    ensures slave2[master.Length..] == old(slave2[master.Length..])
  {
    var size := master.Length;
    ghost var rows0 := Rows(master[..], slave1[..], slave2[..]);
    perm := Identity(size);
    for i := 0 to size
      invariant multiset(Rows(master[..], slave1[..], slave2[..])) == multiset(rows0)
      invariant StablyReordered(Rows(master[..], slave1[..], slave2[..]), rows0, perm)
      invariant slave1[size..] == old(slave1[size..]) && slave2[size..] == old(slave2[size..])
      invariant SuffixPlaced(master[..], i, descending)
    {
      perm := BubblePass(master, slave1, slave2, descending, i, rows0, perm);
    }
  }

  /** buble_decreasing_sort: returns its three arguments, now ordered by
      non-increasing master value, rows moved together, equal keys in their
      original order. */
  method BubbleDecreasingSort(master: array<real>, slave1: array<real>, slave2: array<real>)
    returns (m: array<real>, s1: array<real>, s2: array<real>, ghost perm: seq<int>)
    requires master != slave1 && master != slave2 && slave1 != slave2
    requires master.Length <= slave1.Length && master.Length <= slave2.Length
    modifies master, slave1, slave2
    ensures m == master && s1 == slave1 && s2 == slave2
    ensures Sorted(master[..], true)
    ensures multiset(Rows(master[..], slave1[..], slave2[..])) == multiset(old(Rows(master[..], slave1[..], slave2[..])))
    ensures StablyReordered(Rows(master[..], slave1[..], slave2[..]), old(Rows(master[..], slave1[..], slave2[..])), perm)
    ensures slave1[master.Length..] == old(slave1[master.Length..])
    ensures slave2[master.Length..] == old(slave2[master.Length..])
  {
    perm := BubbleSortRows(master, slave1, slave2, true);
    return master, slave1, slave2, perm;
  }

  /** buble_increasing_sort: the same with non-decreasing master values. */
  method BubbleIncreasingSort(master: array<real>, slave1: array<real>, slave2: array<real>)
    returns (m: array<real>, s1: array<real>, s2: array<real>, ghost perm: seq<int>)
    requires master != slave1 && master != slave2 && slave1 != slave2
    requires master.Length <= slave1.Length && master.Length <= slave2.Length
    modifies master, slave1, slave2
    ensures m == master && s1 == slave1 && s2 == slave2
    ensures Sorted(master[..], false)
    ensures multiset(Rows(master[..], slave1[..], slave2[..])) == multiset(old(Rows(master[..], slave1[..], slave2[..])))
    ensures StablyReordered(Rows(master[..], slave1[..], slave2[..]), old(Rows(master[..], slave1[..], slave2[..])), perm)
    ensures slave1[master.Length..] == old(slave1[master.Length..])
    ensures slave2[master.Length..] == old(slave2[master.Length..])
  {
    perm := BubbleSortRows(master, slave1, slave2, false);
    return master, slave1, slave2, perm;
  }
}
