/** numpy's two range builders, np.arange and np.linspace, on exact reals.
    Every time grid, tick array and sample domain of the core is one of them. */
module Ranges {
  import opened Common

  /** np.arange(start, stop, step): ceil((stop - start) / step) samples
      start + k * step, none when that count is not positive. */
  function Arange(start: real, stop: real, step: real): (r: Result<seq<real>>)
    ensures r.Err? <==> step == 0.0
    ensures r.Err? ==> r.error == ZeroDivisionError
    ensures r.Ok? ==> forall k :: 0 <= k < |r.value| ==> r.value[k] == start + k as real * step
    // every sample stops short of stop, and the first one past the last reaches it
    ensures r.Ok? && step > 0.0 ==> forall k :: 0 <= k < |r.value| ==> r.value[k] < stop
    ensures r.Ok? && step > 0.0 && start < stop ==>
              |r.value| > 0 && stop <= r.value[|r.value| - 1] + step
  {
    if step == 0.0 then Err(ZeroDivisionError)
    else
      var n := Ceil((stop - start) / step);
      var s := Samples(start, step, if n > 0 then n else 0);
      ArangeBounds(start, stop, step, s);
      Ok(s)
  }

  function Samples(start: real, step: real, n: nat): (s: seq<real>)
    ensures |s| == n
    ensures forall k :: 0 <= k < n ==> s[k] == start + k as real * step
  {
    seq(n, k => start + k as real * step)
  }

  lemma ArangeBounds(start: real, stop: real, step: real, s: seq<real>)
    requires step > 0.0 || step < 0.0
    requires var n := Ceil((stop - start) / step); s == Samples(start, step, if n > 0 then n else 0)
    ensures step > 0.0 ==> forall k :: 0 <= k < |s| ==> s[k] < stop
    ensures step > 0.0 && start < stop ==> |s| > 0 && stop <= s[|s| - 1] + step
  {
    var n := Ceil((stop - start) / step);
    if step > 0.0 {
      forall k | 0 <= k < |s|
        ensures s[k] < stop
      {
        assert s[k] == start + k as real * step;
        BelowStop(start, stop, step, k as real);
      }
      if start < stop {
        assert (stop - start) / step > 0.0 by { DivPositive(stop - start, step); }
        assert n > 0 && |s| == n;
        assert s[n - 1] + step == start + n as real * step by {
          assert s[n - 1] == start + (n - 1) as real * step;
          assert (n - 1) as real * step + step == n as real * step;
        }
        ReachesStop(start, stop, step, n as real);
      }
    }
  }

  /** A sample start + k * step with k below (stop - start) / step lies
      below stop. */
  lemma BelowStop(start: real, stop: real, step: real, k: real)
    requires step > 0.0 && k < (stop - start) / step
    ensures start + k * step < stop
  {
    var q := (stop - start) / step;
    assert q * step == stop - start;
    MulStrict(k, q, step);
  }

  /** From (stop - start) / step samples on, stop is reached. */
  lemma ReachesStop(start: real, stop: real, step: real, n: real)
    requires step > 0.0 && (stop - start) / step <= n
    ensures stop <= start + n * step
  {
    var q := (stop - start) / step;
    assert q * step == stop - start;
    MulLe(q, n, step);
  }

  lemma MulStrict(a: real, b: real, c: real)
    requires a < b && c > 0.0
    ensures a * c < b * c
  {
  }

  lemma MulLe(a: real, b: real, c: real)
    requires a <= b && c > 0.0
    ensures a * c <= b * c
  {
  }

  lemma DivPositive(a: real, b: real)
    requires a > 0.0 && b > 0.0
    ensures a / b > 0.0
  {
  }

  /** np.linspace(start, stop, num, endpoint): num evenly spaced samples
      from start; the last one is stop when endpoint is set, and one more
      step would reach stop when it is not. */
  function Linspace(start: real, stop: real, num: int, endpoint: bool): (r: Result<seq<real>>)
    ensures r.Err? <==> num < 0
    ensures r.Err? ==> r.error == NegativeSize
    ensures r.Ok? ==> |r.value| == num
    ensures r.Ok? && num > 0 ==> r.value[0] == start
    ensures r.Ok? ==> forall k :: 0 <= k < |r.value| ==> r.value[k] == start + k as real * Spacing(start, stop, num, endpoint)
    ensures r.Ok? ==> forall k :: 0 <= k < |r.value| - 1 ==> r.value[k + 1] - r.value[k] == Spacing(start, stop, num, endpoint)
    ensures r.Ok? && endpoint && num >= 2 ==> r.value[num - 1] == stop
    ensures r.Ok? && !endpoint && num >= 1 ==> r.value[num - 1] + Spacing(start, stop, num, endpoint) == stop
  {
    if num < 0 then Err(NegativeSize)
    else
      var step := Spacing(start, stop, num, endpoint);
      var s := Samples(start, step, num);
      LinspaceBounds(start, stop, num, endpoint, s);
      Ok(s)
  }

  lemma LinspaceBounds(start: real, stop: real, num: nat, endpoint: bool, s: seq<real>)
    requires s == Samples(start, Spacing(start, stop, num, endpoint), num)
    ensures forall k :: 0 <= k < |s| - 1 ==> s[k + 1] - s[k] == Spacing(start, stop, num, endpoint)
    ensures endpoint && num >= 2 ==> s[num - 1] == stop
    ensures !endpoint && num >= 1 ==> s[num - 1] + Spacing(start, stop, num, endpoint) == stop
  {
    var step := Spacing(start, stop, num, endpoint);
    forall k | 0 <= k < |s| - 1
      ensures s[k + 1] - s[k] == step
    {
      assert (k + 1) as real * step == k as real * step + step;
    }
    if endpoint && num >= 2 {
      assert step == (stop - start) / (num - 1) as real;
      assert step * (num - 1) as real == stop - start;
      assert s[num - 1] == start + (num - 1) as real * step;
    }
    if !endpoint && num >= 1 {
      assert step * num as real == stop - start;
      assert (num - 1) as real * step + step == num as real * step;
    }
  }

  /** The distance np.linspace puts between consecutive samples. */
  function Spacing(start: real, stop: real, num: int, endpoint: bool): real {
    var div := if endpoint then num - 1 else num;
    if div > 0 then (stop - start) / div as real else 0.0
  }
}
