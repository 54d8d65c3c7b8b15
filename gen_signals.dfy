/** functions/gen_signals.py: the validation and waveform selection of
    gen_discrete_signals, which builds a domain and one named waveform on
    it. The waveforms are the builders of module SignalsGenerator. */
module GenSignals {
  import opened Common
  import opened SignalsGenerator

  /** The sample domain n and the amplitudes x on it. */
  datatype DiscreteSignal = DiscreteSignal(n: seq<int>, x: seq<real>)

  /** gen_discrete_signals without its plot: the bounds are checked first,
      then the name picks the waveform; an unknown name is refused. The
      random generator is the parameter normal(mu, sigma, count). */
  method GenDiscreteSignals(signalName: string, nStart: int, nEnd: int, closed: bool,
                            n0: int, on: int, off: int, m: int, mu: real, sigma: real,
                            normal: (real, real, nat) -> seq<real>)
    returns (r: Result<DiscreteSignal>)
    ensures nStart >= nEnd ==> r == Err(RangeOrder)
    ensures r.Ok? ==> r.value.n == SamplesArray(nStart, nEnd, closed).value
    ensures r.Ok? && signalName != "rnd" ==> |r.value.x| == |r.value.n|
    ensures nStart < nEnd && signalName !in {"unitImpulse", "unitStep", "sqPulse", "triangPulse", "rnd"} ==>
              r == Err(InvalidInput)
    ensures nStart < nEnd && signalName == "unitImpulse" ==>
              var len := |SamplesArray(nStart, nEnd, closed).value|;
              (n0 > len ==> r == Err(SampleOutOfRange)) &&
              (ValidIndex(n0, len) ==> r.Ok? && r.value.x == ImpulseAt(len, Resolve(n0, len))) &&
              (n0 <= len && !ValidIndex(n0, len) ==> r == Err(IndexError))
    ensures nStart < nEnd && signalName == "unitStep" ==>
              var len := |SamplesArray(nStart, nEnd, closed).value|;
              (r.Ok? <==> 0 <= n0 <= len) &&
              (n0 > len ==> r == Err(SampleOutOfRange)) &&
              (r.Ok? ==> forall k :: 0 <= k < len ==> r.value.x[k] == if k < n0 then 0.0 else 1.0)
    ensures nStart < nEnd && signalName == "sqPulse" ==>
              var len := |SamplesArray(nStart, nEnd, closed).value|;
              (r == Err(DutyCycleExceeded) <==> off - on > len) &&
              (r.Ok? <==> 0 <= on <= off <= len) &&
              (r.Ok? ==> forall k :: 0 <= k < len ==> r.value.x[k] == if on <= k < off then 1.0 else 0.0)
    ensures nStart < nEnd && signalName == "triangPulse" ==>
              var len := |SamplesArray(nStart, nEnd, closed).value|;
              (HalfBaseRefused(len, m) ==> r == Err(HalfBaseOutOfRange)) &&
              ((nEnd - nStart) % 2 == 0 && !HalfBaseRefused(len, m) ==>
                 var c := (nEnd - nStart) / 2;
                 r.Ok? && (forall j :: 0 <= j < len ==> r.value.x[j] == Triangle(c, m, j)) &&
                 r.value.x[c] == 1.0)
    ensures nStart < nEnd && signalName == "triangPulse" ==>
              var pulse := TriangularPulseOf(SamplesArray(nStart, nEnd, closed).value, nStart, nEnd, m);
              (r.Ok? <==> pulse.Ok?) && (r.Ok? ==> r.value.x == pulse.value) &&
              (r.Err? ==> r.error == pulse.error)
    ensures nStart < nEnd && signalName == "rnd" ==>
              r == Ok(DiscreteSignal(SamplesArray(nStart, nEnd, closed).value,
                                     normal(mu, sigma, |SamplesArray(nStart, nEnd, closed).value|)))
  {
    var domain := SamplesArray(nStart, nEnd, closed);
    if domain.Err? {
      return Err(domain.error);
    }
    var n := domain.value;
    var x: Result<seq<real>>;
    if signalName == "unitImpulse" {
      x := UnitImpulse(n, n0);
    } else if signalName == "unitStep" {
      x := UnitStep(n, n0);
    } else if signalName == "sqPulse" {
      x := SquarePulse(n, on, off);
    } else if signalName == "triangPulse" {
      x := TriangularPulse(n, nStart, nEnd, m);
      if (nEnd - nStart) % 2 == 0 && !HalfBaseRefused(|n|, m) {
        TriangleOnOwnDomain(nStart, nEnd, closed, m);
      }
    } else if signalName == "rnd" {
      x := Ok(normal(mu, sigma, |n|));
    } else {
      return Err(InvalidInput);
    }
    if x.Err? {
      return Err(x.error);
    }
    return Ok(DiscreteSignal(n, x.value));
  }
}
