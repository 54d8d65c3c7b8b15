/** dsp/ticks.py: the axis ticks of the plots -- a sine period in quarters,
    phase degrees, octave bands with their labels, zero to the maximum, and
    the evenly spread selection of discrete samples. */
module Ticks {
  import opened Common
  import opened Ranges
  import opened DspFunctions

  // ---------------------------------------------------------------------
  // sinewave_ticks, degrees_ticks, zero_to_max_ticks

  /** sinewave_ticks(f): five ticks splitting one period 1/f into quarters. */
  function SinewaveTicks(frequency: real): (r: Result<seq<real>>)
    ensures r.Err? <==> frequency == 0.0
    ensures r.Err? ==> r.error == ZeroDivisionError
    ensures r.Ok? ==> (|r.value| == 5 &&
              forall k :: 0 <= k < 5 ==> r.value[k] == k as real / (4.0 * frequency))
  {
    if frequency == 0.0 then Err(ZeroDivisionError)
    else
      var r := Linspace(0.0, 1.0 / frequency, 5, true);
      QuarterTicks(frequency, r.value);
      r
  }

  lemma QuarterTicks(frequency: real, s: seq<real>)
    requires frequency != 0.0 && |s| == 5
    requires forall k :: 0 <= k < 5 ==> s[k] == 0.0 + k as real * Spacing(0.0, 1.0 / frequency, 5, true)
    ensures forall k :: 0 <= k < 5 ==> s[k] == k as real / (4.0 * frequency)
  {
    assert Spacing(0.0, 1.0 / frequency, 5, true) == (1.0 / frequency) / 4.0;
    assert (1.0 / frequency) / 4.0 == 1.0 / (4.0 * frequency);
  }

  /** degrees_ticks(interval): from -180 in steps of interval, stopping
      before 180 + interval. */
  function DegreesTicks(interval: real): (r: Result<seq<real>>)
    ensures r.Err? <==> interval == 0.0
    ensures r.Err? ==> r.error == ZeroDivisionError
    ensures r.Ok? ==> forall k :: 0 <= k < |r.value| ==> r.value[k] == -180.0 + k as real * interval
    // the last tick is at least 180 and less than 180 + interval: it is 180
    // itself only when interval divides 360
    ensures r.Ok? && interval > 0.0 ==>
              |r.value| > 0 && 180.0 <= r.value[|r.value| - 1] < 180.0 + interval
  {
    Arange(-180.0, 180.0 + interval, interval)
  }

  /** With the default interval of 30 the ticks run from -180 to 180. */
  lemma DegreesTicksDefault()
    ensures DegreesTicks(30.0).Ok? && |DegreesTicks(30.0).value| == 13
    ensures DegreesTicks(30.0).value[12] == 180.0
  {
    assert Ceil((180.0 + 30.0 - -180.0) / 30.0) == 13;
  }

  /** An interval that does not divide 360 overshoots 180: for 50 the last
      tick is 220. */
  lemma DegreesTicksOvershoot()
    ensures DegreesTicks(50.0).Ok? && |DegreesTicks(50.0).value| == 9
    ensures DegreesTicks(50.0).value[8] == 220.0
  {
    assert Ceil((180.0 + 50.0 - -180.0) / 50.0) == 9;
  }

  /** np.max: the largest element; numpy refuses an empty array. */
  function Max(xs: seq<real>): (r: Result<real>)
    ensures r.Err? <==> xs == []
    ensures r.Err? ==> r.error == EmptyReduction
    ensures r.Ok? ==> r.value in xs && forall k :: 0 <= k < |xs| ==> xs[k] <= r.value
  {
    if xs == [] then Err(EmptyReduction)
    else if |xs| == 1 then Ok(xs[0])
    else
      var m := Max(xs[1..]).value;
      assert forall k :: 1 <= k < |xs| ==> xs[k] == xs[1..][k - 1];
      Ok(if xs[0] >= m then xs[0] else m)
  }

  /** zero_to_max_ticks(array, interval): from 0 in steps of interval; with
      a positive interval the last tick reaches the maximum of the values
      and stays below maximum + interval. */
  function ZeroToMaxTicks(values: seq<real>, interval: real): (r: Result<seq<real>>)
    ensures values == [] ==> r == Err(EmptyReduction)
    ensures values != [] ==> (r.Err? <==> interval == 0.0)
    ensures r.Ok? ==> forall k :: 0 <= k < |r.value| ==> r.value[k] == k as real * interval
    ensures r.Ok? && interval > 0.0 && Max(values).value + interval > 0.0 ==>
              |r.value| > 0 && r.value[0] == 0.0 &&
              (forall k :: 0 <= k < |values| ==> values[k] <= r.value[|r.value| - 1]) &&
              r.value[|r.value| - 1] < Max(values).value + interval
  {
    match Max(values)
    case Err(e) => Err(e)
    case Ok(m) => Arange(0.0, m + interval, interval)
  }

  // ---------------------------------------------------------------------
  // octaves_ticks and octaves_labels

  /** The centre of octave band i, from 31.25 Hz. */
  function OctaveTick(i: nat): real {
    31.25 * Pow2(i) as real
  }

  /** Its label: the integer part below 1000, otherwise the integer part of
      the value in thousands followed by "k". */
  function OctaveLabel(i: nat): string {
    if OctaveTick(i) < 1000.0 then IntToString(Trunc(OctaveTick(i)))
    else IntToString(Trunc((31.25 / 1000.0) * Pow2(i) as real)) + "k"
  }

  lemma {:induction false} OctaveTickIncreasing(i: nat)
    ensures OctaveTick(i) < OctaveTick(i + 1)
  {
    assert Pow2(i + 1) == 2 * Pow2(i);
  }

  /** octaves_ticks: the ten band centres 31.25 * 2^i, from 31.25 to 16000,
      strictly increasing. */
  method OctavesTicks() returns (ticks: seq<real>)
    ensures |ticks| == 10 && forall i :: 0 <= i < 10 ==> ticks[i] == OctaveTick(i)
    ensures ticks[0] == 31.25 && ticks[9] == 16000.0
    ensures forall i, j :: 0 <= i < j < 10 ==> ticks[i] < ticks[j]
  {
    ticks := [];
    for i := 0 to 10
      invariant |ticks| == i && forall k :: 0 <= k < i ==> ticks[k] == OctaveTick(k)
    {
      ticks := ticks + [31.25 * Pow2(i) as real];
    }
    OctaveTicksSorted(ticks);
    assert Pow2(9) == 512 by { Pow2Values(); }
  }

  lemma Pow2Values()
    ensures Pow2(0) == 1 && Pow2(1) == 2 && Pow2(2) == 4 && Pow2(3) == 8 && Pow2(4) == 16
    ensures Pow2(5) == 32 && Pow2(6) == 64 && Pow2(7) == 128 && Pow2(8) == 256 && Pow2(9) == 512
  {
  }

  lemma OctaveTicksSorted(ticks: seq<real>)
    requires |ticks| == 10 && forall i :: 0 <= i < 10 ==> ticks[i] == OctaveTick(i)
    ensures forall i, j :: 0 <= i < j < 10 ==> ticks[i] < ticks[j]
  {
    forall i, j | 0 <= i < j < 10
      ensures ticks[i] < ticks[j]
    {
      var k := i;
      while k < j
        invariant i <= k <= j && OctaveTick(i) <= OctaveTick(k)
        invariant k > i ==> OctaveTick(i) < OctaveTick(k)
      {
        OctaveTickIncreasing(k);
        k := k + 1;
      }
    }
  }

  /** The labels of the ten bands, as the plots print them. */
  const OctaveLabelList: seq<string> := ["31", "62", "125", "250", "500", "1k", "2k", "4k", "8k", "16k"]

  lemma OctaveLabelsBelowThousand()
    ensures OctaveLabel(0) == "31" && OctaveLabel(1) == "62" && OctaveLabel(2) == "125"
    ensures OctaveLabel(3) == "250" && OctaveLabel(4) == "500"
  {
    Pow2Values();
    assert Trunc(31.25) == 31 && Trunc(62.5) == 62;
    assert Trunc(125.0) == 125 && Trunc(250.0) == 250 && Trunc(500.0) == 500;
    assert NatToString(31) == NatToString(3) + [DigitChar(1)] == "31";
    assert NatToString(62) == NatToString(6) + [DigitChar(2)] == "62";
    assert NatToString(12) == NatToString(1) + [DigitChar(2)] == "12";
    assert NatToString(125) == NatToString(12) + [DigitChar(5)] == "125";
    assert NatToString(25) == NatToString(2) + [DigitChar(5)] == "25";
    assert NatToString(250) == NatToString(25) + [DigitChar(0)] == "250";
    assert NatToString(50) == NatToString(5) + [DigitChar(0)] == "50";
    assert NatToString(500) == NatToString(50) + [DigitChar(0)] == "500";
  }

  lemma OctaveLabelsThousands()
    ensures OctaveLabel(5) == "1k" && OctaveLabel(6) == "2k" && OctaveLabel(7) == "4k"
    ensures OctaveLabel(8) == "8k" && OctaveLabel(9) == "16k"
  {
    Pow2Values();
    assert Trunc(1.0) == 1 && Trunc(2.0) == 2 && Trunc(4.0) == 4 && Trunc(8.0) == 8 && Trunc(16.0) == 16;
    assert NatToString(1) == "1" && NatToString(2) == "2" && NatToString(4) == "4" && NatToString(8) == "8";
    assert NatToString(16) == NatToString(1) + [DigitChar(6)] == "16";
  }

  lemma OctaveLabelValues()
    ensures forall i :: 0 <= i < 10 ==> OctaveLabel(i) == OctaveLabelList[i]
  {
    assert OctaveLabelList[0] == "31" && OctaveLabelList[1] == "62" && OctaveLabelList[2] == "125";
    assert OctaveLabelList[3] == "250" && OctaveLabelList[4] == "500" && OctaveLabelList[5] == "1k";
    assert OctaveLabelList[6] == "2k" && OctaveLabelList[7] == "4k" && OctaveLabelList[8] == "8k";
    assert OctaveLabelList[9] == "16k";
    forall i | 0 <= i < 10
      ensures OctaveLabel(i) == OctaveLabelList[i]
    {
      if i < 5 {
        OctaveLabelsBelowThousand();
        assert i == 0 || i == 1 || i == 2 || i == 3 || i == 4;
      } else {
        OctaveLabelsThousands();
        assert i == 5 || i == 6 || i == 7 || i == 8 || i == 9;
      }
    }
  }

  /** octaves_labels: "31", "62", "125", "250", "500", "1k" .. "16k". */
  method OctavesLabels() returns (labels: seq<string>)
    ensures |labels| == 10 && forall i :: 0 <= i < 10 ==> labels[i] == OctaveLabel(i)
    ensures labels == OctaveLabelList
  {
    labels := [];
    for i := 0 to 10
      invariant |labels| == i && forall k :: 0 <= k < i ==> labels[k] == OctaveLabel(k)
    {
      if 31.25 * Pow2(i) as real < 1000.0 {
        labels := labels + [IntToString(Trunc(31.25 * Pow2(i) as real))];
      } else {
        labels := labels + [IntToString(Trunc((31.25 / 1000.0) * Pow2(i) as real)) + "k"];
      }
    }
    OctaveLabelValues();
  }

  // ---------------------------------------------------------------------
  // discrete_ticks

  /** An odd-length list loses its last element. */
  function Trimmed(items: seq<int>): (r: seq<int>)
    ensures |r| % 2 == 0 && r <= items && |items| <= |r| + 1
  {
    if |items| % 2 != 0 then items[..|items| - 1] else items
  }

  /** The tick count the while loop settles on: counting down from d, the
      first value dividing n. */
  function DivisorAtMost(n: nat, d: int): (r: int)
    requires n > 0 && d >= 1
    ensures 1 <= r <= d && n % r == 0
    ensures forall e :: r < e <= d ==> n % e != 0
    decreases d
  {
    if n % d == 0 then d else DivisorAtMost(n, d - 1)
  }

  lemma MulBound(i: int, k: int, d: int)
    requires 1 <= i <= d && k >= 1
    ensures k <= i * k <= d * k
  {
  }

  lemma DivExact(n: int, d: int)
    requires d > 0 && n % d == 0
    ensures (n / d) * d == n && d * (n / d) == n
  {
  }

  /** The position of tick i when every k-th element is taken. */
  function TickIndex(i: int, k: int): int {
    (i + 1) * k - 1
  }

  lemma TickIndexInRange(n: int, d: int, i: int)
    requires n > 0 && 1 <= d && n % d == 0 && 0 <= i < d
    ensures 0 <= TickIndex(i, n / d) < n
  {
    DivExact(n, d);
    MulBound(i + 1, n / d, d);
  }

  /** Every (n / d)-th element of t, ending with the last. */
  function Selection(t: seq<int>, d: int): (r: seq<int>)
    requires |t| > 0 && d >= 1 && |t| % d == 0
    ensures |r| == d
    ensures forall i :: 0 <= i < d ==> 0 <= TickIndex(i, |t| / d) < |t| && r[i] == t[TickIndex(i, |t| / d)]
  {
    assert forall i :: 0 <= i < d ==> 0 <= TickIndex(i, |t| / d) < |t| by {
      forall i | 0 <= i < d
        ensures 0 <= TickIndex(i, |t| / d) < |t|
      {
        TickIndexInRange(|t|, d, i);
      }
    }
    seq(d, i requires 0 <= i < d => t[TickIndex(i, |t| / d)])
  }

  /** The selection applied to the trimmed list: a zero count divides by
      zero, a negative count gives no tick, an empty trimmed list is indexed
      at -1. */
  function SelectionOf(t: seq<int>, amount: int): Result<seq<int>> {
    if amount == 0 then Err(ZeroDivisionError)
    else if amount < 0 then Ok([])
    else if |t| == 0 then Err(IndexError)
    else Ok(Selection(t, DivisorAtMost(|t|, amount)))
  }

  /** discrete_ticks on the elements of its argument. */
  function TicksOf(items: seq<int>, amount: int): (r: Result<seq<int>>)
    ensures items == [] ==> r == Ok([])
    ensures items != [] && amount == 0 ==> r == Err(ZeroDivisionError)
    ensures items != [] && amount < 0 ==> r == Ok([])
    ensures |items| == 1 && amount > 0 ==> r == Err(IndexError)
    ensures |items| >= 2 && amount > 0 ==> r.Ok?
  {
    if items == [] then Ok([]) else SelectionOf(Trimmed(items), amount)
  }

  /** What the ticks are: their count is the largest divisor of the trimmed
      length not above the requested amount, they are taken every K-th
      element of the input in input order (K = trimmed length / count), and
      the last one is the last element kept. */
  lemma TicksAreEvenlySpread(items: seq<int>, amount: int)
    requires |items| >= 2 && amount > 0
    ensures var ts := TicksOf(items, amount).value;
            var t := Trimmed(items);
            var d := |ts|;
            1 <= d <= amount && |t| % d == 0 &&
            (forall e :: d < e <= amount ==> |t| % e != 0) &&
            (forall i :: 0 <= i < d ==> 0 <= TickIndex(i, |t| / d) < |t| && ts[i] == items[TickIndex(i, |t| / d)]) &&
            ts[d - 1] == items[|t| - 1]
  {
    var t := Trimmed(items);
    var d := DivisorAtMost(|t|, amount);
    var ts := Selection(t, d);
    assert TicksOf(items, amount).value == ts;
    DivExact(|t|, d);
    assert TickIndex(d - 1, |t| / d) == |t| - 1;
  }

  /** The while loop of discrete_ticks: counting down from amount_of_ticks
      to the first value that divides the length. */
  method CountTicks(n: nat, amount: int) returns (count: int)
    requires amount != 0 && CountTerminates(n, amount)
    ensures count != 0 && n % count == 0
    ensures amount > 0 && n > 0 ==> count == DivisorAtMost(n, amount)
    ensures amount > 0 && n == 0 ==> count == amount
    ensures amount < 0 ==> count < 0
  {
    count := amount;
    ModZero(count);
    while n % count != 0
      invariant count != 0
      invariant amount > 0 ==> 1 <= count <= amount && (n > 0 ==> DivisorAtMost(n, amount) == DivisorAtMost(n, count))
      invariant amount > 0 && n == 0 ==> count == amount
      invariant amount < 0 ==> count < 0 && (n > 0 ==> -(n as int) <= count)
      decreases if count > 0 then count else count + n
    {
      if count == 1 || count + n == 0 {
        DividesItself(n, count);
      }
      count := count - 1;
    }
  }

  /** The count loop ends unless the amount is below -n for a non-empty
      list. */
  predicate CountTerminates(n: nat, amount: int) {
    n == 0 || amount >= -(n as int)
  }

  /** Below -n nothing divides n, so the count loop never ends there. */
  lemma CountDiverges(n: nat, amount: int)
    requires !CountTerminates(n, amount)
    ensures forall c :: c <= amount ==> n % c != 0
  {
    forall c | c <= amount
      ensures n % c != 0
    {
      ModSmall(n, c);
    }
  }

  lemma ModSmall(n: nat, c: int)
    requires 0 < n < -c
    ensures n % c == n
  {
  }

  lemma ModZero(count: int)
    requires count != 0
    ensures 0 % count == 0
  {
  }

  lemma DividesItself(n: nat, count: int)
    requires count == 1 || count + n == 0
    requires count != 0
    ensures n % count == 0
  {
    if count != 1 {
      assert n == (-1) * count;
    }
  }

  /** The fill loop of discrete_ticks: tick i - 1 is element K * i - 1. */
  method FillTicks(samples: seq<int>, count: int) returns (r: Result<seq<int>>)
    requires count >= 1 && |samples| % count == 0
    ensures |samples| == 0 ==> r == Err(IndexError)
    ensures |samples| > 0 ==> r == Ok(Selection(samples, count))
  {
    var n := |samples|;
    var ticks := new int[count];
    var k := n / count;
    for i := 1 to count + 1
      invariant n > 0 ==> forall j :: 0 <= j < i - 1 ==> ticks[j] == Selection(samples, count)[j]
      invariant n == 0 ==> i == 1
    {
      var index := k * i - 1;
      if !ValidIndex(index, n) {
        return Err(IndexError);
      }
      if n > 0 {
        TickIndexInRange(n, count, i - 1);
        assert index == TickIndex(i - 1, k);
      } else {
        assert false;
      }
      ticks[i - 1] := samples[Resolve(index, n)];
    }
    if n == 0 {
      // the first index, -1, is refused
      assert false;
    }
    assert ticks[..] == Selection(samples, count);
    return Ok(ticks[..]);
  }

  /** Tick counting and filling after the list has been trimmed. */
  method SelectTicks(samples: seq<int>, amount: int) returns (r: Result<seq<int>>)
    requires CountTerminates(|samples|, amount)
    ensures r == SelectionOf(samples, amount)
  {
    if amount == 0 {
      // len(samples_array) % 0
      return Err(ZeroDivisionError);
    }
    var count := CountTicks(|samples|, amount);
    if count < 0 {
      // [None] * count is empty and so is the fill loop's range
      return Ok([]);
    }
    r := FillTicks(samples, count);
  }

  /** The elements an array-like argument holds. */
  function Items(v: ArrayLike): seq<int>
    reads if v.ListObject? then {v.list} else {}
  {
    if v.ListObject? then v.list.items else v.elements
  }

  /** discrete_ticks(samples_array, amount_of_ticks): a list argument is
      the caller's own list, so deleting its odd last element changes the
      caller's list. */
  method DiscreteTicks(v: ArrayLike, amount: int) returns (r: Result<seq<int>>)
    requires CountTerminates(|Trimmed(Items(v))|, amount)
    modifies if v.ListObject? then {v.list} else {}
    ensures r == TicksOf(old(Items(v)), amount)
    ensures v.ListObject? ==> v.list.items == Trimmed(old(v.list.items))
  {
    var samplesArray := ToList(v);
    if samplesArray.items != [] {
      if |samplesArray.items| % 2 != 0 {
        samplesArray.items := samplesArray.items[..|samplesArray.items| - 1];
      }
      r := SelectTicks(samplesArray.items, amount);
    } else {
      r := Ok([]);
    }
  }
}
