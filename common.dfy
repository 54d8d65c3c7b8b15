/** Python and numpy semantics shared by every module of the model:
    the errors the core raises, a Result wrapper for them, Python's
    number kinds, int() truncation, negative list indices and str(int). */
module Common {

  /** The exceptions the core raises. The first five are the ValueErrors
      the repository raises itself; the rest come from Python or numpy. */
  datatype Error =
    | RangeOrder         // ending sample not after starting sample
    | SampleOutOfRange   // impulse or step sample beyond the domain
    | DutyCycleExceeded  // square pulse wider than the domain
    | HalfBaseOutOfRange // triangular half base <= 0 or > len / 2
    | InvalidInput       // unknown signal name
    | IndexError
    | ZeroDivisionError
    | NegativeSize       // numpy refusing a negative array size or sample count
    | TypeError
    | EmptyReduction     // numpy max of an empty array
    | InhomogeneousShape // numpy array of a ragged nested list

  datatype Result<+T> = Ok(value: T) | Err(error: Error)

  datatype Option<+T> = None | Some(value: T)

  /** A Python number: whether it is an int or a float matters to
      math.gcd, which refuses floats. */
  datatype Num = IntNum(i: int) | FloatNum(f: real) {
    function Value(): real {
      match this
      case IntNum(i) => i as real
      case FloatNum(f) => f
    }
  }

  function Abs(x: real): real {
    if x < 0.0 then -x else x
  }

  /** Python's int() on a float: truncation toward zero. */
  function Trunc(x: real): (r: int)
    ensures 0.0 <= x ==> r as real <= x < r as real + 1.0
    ensures x < 0.0 ==> r as real - 1.0 < x <= r as real
  {
    if x >= 0.0 then x.Floor else -((-x).Floor)
  }

  /** math.ceil on a float. */
  function Ceil(x: real): (r: int)
    ensures r as real - 1.0 < x <= r as real
  {
    -((-x).Floor)
  }

  function Pow2(i: nat): (r: nat)
    ensures r >= 1
  {
    if i == 0 then 1 else 2 * Pow2(i - 1)
  }

  /** Python accepts an index i into a sequence of length n when -n <= i < n. */
  predicate ValidIndex(i: int, n: int) {
    -n <= i < n
  }

  /** The position a valid Python index refers to: negative indices wrap. */
  function Resolve(i: int, n: int): (p: int)
    requires ValidIndex(i, n)
    ensures 0 <= p < n
    ensures p == i || p == i + n
  {
    if i < 0 then i + n else i
  }

  /** `s[i] = v` on a Python list or numpy array. */
  function Store(s: seq<real>, i: int, v: real): (r: Result<seq<real>>)
    ensures r.Ok? <==> ValidIndex(i, |s|)
    ensures r.Err? ==> r.error == IndexError
    ensures r.Ok? ==> |r.value| == |s|
    ensures r.Ok? ==> forall k :: 0 <= k < |s| ==>
              r.value[k] == if k == Resolve(i, |s|) then v else s[k]
  {
    if ValidIndex(i, |s|) then Ok(s[Resolve(i, |s|) := v]) else Err(IndexError)
  }

  function DigitChar(d: int): char
    requires 0 <= d < 10
  {
    "0123456789"[d]
  }

  function NatToString(n: nat): string
    decreases n
  {
    if n < 10 then [DigitChar(n)] else NatToString(n / 10) + [DigitChar(n % 10)]
  }

  /** Python's str() of an int. */
  function IntToString(n: int): string {
    if n < 0 then "-" + NatToString(-n) else NatToString(n)
  }

  function Zeros(n: nat): (r: seq<real>)
    ensures |r| == n && forall k :: 0 <= k < n ==> r[k] == 0.0
  {
    seq(n, k => 0.0)
  }

  function Ones(n: nat): (r: seq<real>)
    ensures |r| == n && forall k :: 0 <= k < n ==> r[k] == 1.0
  {
    seq(n, k => 1.0)
  }

  predicate EndsWith(s: string, suffix: string) {
    |suffix| <= |s| && s[|s| - |suffix|..] == suffix
  }
}
