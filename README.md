# dsp-package: the exact core, in Dafny

This project models the index-level and bookkeeping layer of a Python DSP
package. The floating-point signal processing around it is not modelled. The
modelled layer covers:

- the discrete waveform builders: sample domain, unit impulse, unit step,
  square pulse, triangular pulse;
- the `Signal` record and its in-place `extend`;
- the `Generator` object that rewrites its one shared `Signal`;
- the period helpers that extend groups of signals;
- the two three-array bubble sorts;
- `closest_to_average`;
- `list_udim`;
- the axis-tick helpers of the plotting classes.

Amplitudes and times are exact `real`s. Indices are unbounded `int`s. Python
semantics are written out where they matter:

- `int()` truncates toward zero (`Common.Trunc`);
- negative indices wrap (`Common.ValidIndex`, `Common.Resolve`, `Common.Store`);
- `math.gcd` takes only integers (`Common.Num` tells int from float);
- numpy refuses negative sizes (`NegativeSize`) and `np.max` of nothing (`EmptyReduction`).

Every exception the code can raise becomes an `Err` value of `Common.Result`
or a `Some` error of `Common.Option`.

Files and modules:

- `common.dfy` (`Common`): errors, `Result`/`Option`, Python numbers, truncation, indexing, `str()` of an int.
- `ranges.dfy` (`Ranges`): `np.arange` and `np.linspace` on exact reals.
- `dsp_signal.dfy` (`DspSignal`): the `Signal` class with `copy_from` and `extend`, and the value-level function `Extended` it is proved against.
- `dsp_functions.dfy` (`DspFunctions`): `to_list`, `closest_to_average`, `get_lower_frequency`, `extend_to_min`, `get_sum_period`, `extend_to_sum` and the two bubble sorts over `array`s.
- `dsp_generator.dfy` (`DspGenerator`): the `Generator` class, `sinewave` and `linspace_time_array`.
- `signals_generator.dfy` (`SignalsGenerator`): the discrete builders of `signals/generator.py`. The same builders appear in `dsp/generator.py` under `*_amplitude` names. This module also holds `sinewaves_list`.
- `gen_signals.dfy` (`GenSignals`): validation and waveform choice of `gen_discrete_signals`.
- `signals_functions.dfy` (`SignalsFunctions`): `list_udim`.
- `ticks.dfy` (`Ticks`): `dsp/ticks.py`.
- `signals_graph.dfy` (`Graph`) and `dsp_grapher.dfy` (`DspGrapher`): the tick helpers of the two plotting classes.

## Model

| member | source | states |
|---|---|---|
| Common.Trunc | dsp/signal.py:148 | `int()` of a real is the integer next to it toward zero |
| Common.Store | signals/generator.py:167 | `s[i] = v` succeeds iff `-len <= i < len`; it writes only the wrapped position; otherwise IndexError |
| Ranges.Arange | dsp/ticks.py:19 | `np.arange`: element k is `start + k*step`; zero step fails; with a positive step every element is below stop and one more step reaches stop |
| Ranges.Linspace | dsp/generator.py:94 | `np.linspace`: exactly num samples from start with constant spacing; the last is stop (endpoint) or one spacing short of it; a negative count fails |
| DspSignal.Signal.constructor | dsp/signal.py:6-15 | a new signal has -1 for the three fundamentals, five empty arrays and description "N/A" |
| DspSignal.Signal.CopyFrom | dsp/signal.py:101-112 | all nine declared fields take origin's values; origin is unchanged |
| DspSignal.Signal.Extend | dsp/signal.py:135-157 | the new arrays and any exception are exactly `Extended` of the old arrays; only the two arrays change |
| DspSignal.Signal.AppendSamples | dsp/signal.py:151-155 | the loop leaves the arrays and exception `Grown` describes: each turn appends `t[-1] + t[1]` and `a[i+1]` |
| DspSignal.Extended | dsp/signal.py:146-155 | the signal's own period changes nothing; original prefixes are kept; on success both arrays grow by `max(0, int(d*n/t[-1]) - n)`; the only partial update is one time appended before `a[1]` is missing |
| DspSignal.Grown | dsp/signal.py:151-155 | the appended loop either finishes with both arrays longer by the increment or stops on IndexError with the amplitudes untouched |
| DspSignal.TimeTail | dsp/signal.py:152-154 | the appended times number exactly the requested count |
| DspSignal.AmplitudeTail | dsp/signal.py:155 | the appended amplitudes number exactly the requested count |
| DspSignal.TimeTailStep | dsp/signal.py:152-154 | one more turn appends the current last time plus `t[1]` |
| DspSignal.AmplitudeTailStep | dsp/signal.py:155 | one more turn appends element `i+1` of the grown array, which is `a[1 + i mod (n-1)]` |
| DspSignal.ExtendedGrew | dsp/signal.py:147-155 | a growing extension needs at least two samples in each array; both arrays grow by the same count |
| DspSignal.ExtendedTimeStep | dsp/signal.py:152-154 | after extension each appended time is the previous one plus `t[1]` |
| DspSignal.ExtendedAmplitudePeriodic | dsp/signal.py:155 | after extension `a[j] == a[j-(n-1)]` for every appended j: periodic continuation skipping the duplicated endpoint |
| DspSignal.TailPeriodic | dsp/signal.py:155 | the appended tail repeats with period `n-1` |
| DspSignal.CopyThenExtend | dsp/signal.py:105-155 | a signal copied from another keeps the old samples when the origin is extended, because extend rebinds the arrays |
| DspFunctions.ToList | dsp/functions.py:71-91 | a list comes back as the same object; any other array-like comes back as a new list of its elements; also signals/functions.py:136-160: `make_list` is the same conversion: identity on a list, a new list otherwise |
| DspFunctions.ClosestToAverage | dsp/functions.py:149-173 | the loop returns `ClosestToAverageOf`: error on empty input, the mean if it is an element, otherwise the strict-`<` scan seeded with 0; also signals/functions.py:235-246: the `signals` copy is the same computation and has the same result |
| DspFunctions.NearestFromIndex | dsp/functions.py:166-171 | the scan returns the first candidate of `[seed] + xs` at least distance from the mean; all earlier candidates are strictly farther |
| DspFunctions.NearestStepReplaced | dsp/functions.py:170-171 | a strictly nearer element replaces the candidate and stays first-nearest |
| DspFunctions.NearestStepKept | dsp/functions.py:170 | an element that is no nearer leaves the candidate in place |
| DspFunctions.ClosestToAverageIsNearest | dsp/functions.py:160-173 | fails iff the input is empty; gives the mean when it is an element; otherwise gives the first value of `0, xs[0], xs[1], ...` with least distance to the mean |
| DspFunctions.ClosestToAverageExample | dsp/functions.py:160-173 | for [1, 2, 3, 100] the mean is 26.5 and the result is 3 |
| DspFunctions.ClosestToAverageCanBeZero | dsp/functions.py:162 | for [-1, 2] the result is 0, which is not an element |
| DspFunctions.GetLowerFrequency | dsp/functions.py:176-183 | fails with IndexError iff there is no signal after `self`; otherwise gives the frequency of one of those signals that is at most every other one |
| DspFunctions.ExtendAll | dsp/functions.py:189-190 | signals are extended in order up to the first exception; earlier ones hold `Extended`, the failing one holds its partial state and the exception, later ones are untouched; no field other than the two arrays changes on any signal |
| DspFunctions.ExtendToMin | dsp/functions.py:176-192 | no signal is a TypeError (missing `self`); one signal is an IndexError (nothing after `self`); otherwise the duration is `1/lowest` for the lowest frequency of `signals[1..]` (the first signal is skipped); a zero lowest frequency is a ZeroDivisionError with no signal changed; else each signal is extended to that duration in order up to the first exception; no other field changes |
| DspFunctions.GcdIsGreatest | dsp/functions.py:201 | `gcd(a, b)` divides both and every common divisor divides it |
| DspFunctions.GcdAllIsGreatest | dsp/functions.py:201 | `math.gcd(*xs)` divides every argument and every common divisor divides it |
| DspFunctions.GcdAllZero | dsp/functions.py:201-202 | a gcd of 0 (the division by zero) happens only when every frequency is 0 |
| DspFunctions.GcdZero | dsp/functions.py:201 | `gcd(a, b) == 0` only for `a == b == 0` |
| DspFunctions.DividesAbs | dsp/functions.py:201 | divisibility ignores sign, as `math.gcd` does |
| DspFunctions.Frequencies | dsp/functions.py:198-199 | the collected list holds each signal's fundamental frequency, in order |
| DspFunctions.SumPeriodIsCommonPeriod | dsp/functions.py:195-204 | `T0 = 1/gcd` makes every `f_k * T0` a whole number of cycles; the period `1/d` of any common divisor d is a whole multiple of T0 |
| DspFunctions.GetSumPeriod | dsp/functions.py:195-204 | returns `SumPeriod` of the fundamentals: TypeError for a float frequency, ZeroDivisionError for gcd 0, else `1/gcd` |
| DspFunctions.ExtendToSum | dsp/functions.py:207-213 | a failing period changes no signal; otherwise signals are extended to 4 * T0 in order up to the first exception, the failing one keeps its partial state, later ones are untouched; no other field changes |
| DspFunctions.SwapMultiset | dsp/functions.py:221-232 | swapping two neighbours keeps the multiset |
| DspFunctions.SwapKeepsStable | dsp/functions.py:221-232 | swapping neighbours with different keys keeps the rows a stable reordering |
| DspFunctions.SwapRows | dsp/functions.py:222-232 | master, slave_1 and slave_2 swap at the same index, so the rows swap as units |
| DspFunctions.PassStep | dsp/functions.py:220-221 | one comparison of the inner loop carries the running maximum (or minimum) forward |
| DspFunctions.PassEnd | dsp/functions.py:220 | after a full inner pass one more suffix position holds its final key |
| DspFunctions.BubblePass | dsp/functions.py:220-232 | one inner pass keeps the row multiset and stable order and places one more key |
| DspFunctions.BubbleSortRows | dsp/functions.py:219-232 | the nested loops leave master sorted and the rows a stable permutation of the old rows; slave tails past the master length are unchanged |
| DspFunctions.BubbleDecreasingSort | dsp/functions.py:216-234 | returns the same three arrays; master is non-increasing; rows are permuted as units, stably; the row multiset is preserved |
| DspFunctions.BubbleIncreasingSort | dsp/functions.py:237-255 | returns the same three arrays; master is non-decreasing; rows are permuted as units, stably; the row multiset is preserved |
| DspGenerator.Generator.constructor | dsp/generator.py:8-9 | the generator owns a fresh default Signal |
| DspGenerator.Generator.SetSignal | dsp/generator.py:15-17 | the setter makes the given object the owned signal |
| DspGenerator.Generator.Sinewave | dsp/generator.py:20-35 | writes the three fundamentals; frequency 0 fails after that; otherwise sets the time grid, `[f]`, three attached arrays and the description, leaves the declared amplitude and spectrum arrays alone, and returns the owned Signal itself |
| DspGenerator.SinewaveTwice | dsp/generator.py:21-35 | two calls return one object, which holds the second call's frequency |
| DspGenerator.LinspaceTimeArray | dsp/generator.py:80-96 | fails iff f is 0 (ZeroDivisionError) or `int(rate/f) < 0` (negative size); otherwise `int(rate/f)` samples `k * step` from 0; the last is `1/f` on a closed interval, one step short of it on an open one |
| DspGenerator.LinspaceTimeArrayAtRate | dsp/generator.py:93-94 | for rate = N*f and an open interval the grid is `k/rate` for k < N |
| SignalsGenerator.SamplesArray | signals/generator.py:17-35 | fails iff end <= start; otherwise element k is `start+k`; length `end-start+[closed]`; holds exactly the integers of the interval; also dsp/generator.py:38-56: the `dsp` copy has the same guard and range; also functions/gen_signals.py:91-94: the domain check and domain of `gen_discrete_signals` |
| SignalsGenerator.ImpulseAt | signals/generator.py:95-96 | zeros with a single 1 at the given position |
| SignalsGenerator.UnitImpulse | signals/generator.py:78-98 | index > len is refused; index == len or < -len is an IndexError; otherwise a single 1 at the wrapped index; also dsp/generator.py:99-119: `unit_impulse_amplitude` is the same guard and write |
| SignalsGenerator.ImpulseSum | signals/generator.py:95-96 | an impulse inside the array sums to 1 |
| SignalsGenerator.UnitStep | signals/generator.py:101-120 | Ok iff `0 <= step <= len`; then 0 before step and 1 from it on; a too-large step is refused; a negative one fails in `np.zeros`; also dsp/generator.py:122-141: `unit_step_amplitude` is the same guard and concatenation |
| SignalsGenerator.DutyCycleAbove100 | signals/generator.py:136-138 | the duty cycle exceeds 100 exactly when the pulse is wider than the domain |
| SignalsGenerator.SquarePulse | signals/generator.py:123-143 | an empty domain divides by 0; width > len is refused (100% passes); Ok iff `0 <= on <= off <= len`, with ones exactly on `[on, off)`; also dsp/generator.py:144-164: `square_pulse_amplitude` is the same guard and concatenation |
| SignalsGenerator.ImpulseIsStepDifference | signals/generator.py:95-118 | the impulse at k is the step at k minus the step at k+1 |
| SignalsGenerator.SquareIsStepDifference | signals/generator.py:118-141 | a square pulse is the step at turn-on minus the step at turn-off |
| SignalsGenerator.TriangleFill | signals/generator.py:165-167 | the loop's writes keep the length; a refused index stops with IndexError |
| SignalsGenerator.TriangleFillRefused | signals/generator.py:166-167 | an index out of range ends the loop with IndexError |
| SignalsGenerator.TriangleFillWrite | signals/generator.py:166-167 | an accepted index writes `1 - abs(i/half_base)` there, then the loop continues |
| SignalsGenerator.TriangularPulse | signals/generator.py:146-169 | the array loop returns `TriangularPulseOf`: the half-base guard, then the writes around `(end-start)/2`; also dsp/generator.py:167-190: `triangular_pulse_amplitude` is the same guard and loop |
| SignalsGenerator.Shaped | signals/generator.py:165-167 | the array with the triangle written on `[c+i, c+h)` and the rest as it was |
| SignalsGenerator.TriangleFillShape | signals/generator.py:165-167 | with an integral centre and the base inside the array, the writes from i on put the triangle on `[c+i, c+h)` |
| SignalsGenerator.TriangleFillStep | signals/generator.py:166-167 | one write puts the triangle value at `c + i` |
| SignalsGenerator.ShapedStep | signals/generator.py:165-167 | writing position `c+i` turns the shape from `i+1` into the shape from i |
| SignalsGenerator.TriangleOnOwnDomain | signals/generator.py:160-167 | on a domain built from the same bounds with an even span, an accepted half base gives the full triangle centred on the middle sample, with peak 1 |
| SignalsGenerator.HalfBaseFits | signals/generator.py:160 | an accepted half base is positive and at most half the length |
| SignalsGenerator.CentredBaseFits | signals/generator.py:160-166 | with an even span the base fits on both sides of the middle |
| SignalsGenerator.TriangleCentreFromBounds | signals/generator.py:146-167 | the centre comes from the bounds: a 4-sample domain with default bounds -10 and 10 passes the guard and then fails on index 8 |
| SignalsGenerator.TriangleOddSpan | signals/generator.py:165-167 | for an odd span `int()` truncation overwrites the left foot: [0,1,2,3], 0, 3, 2 gives [0.5, 1, 0.5, 0] |
| SignalsGenerator.SinewavesList | signals/generator.py:210-238 | one entry per frequency, in order; all entries share the grid of the average frequency; the legend ends in "_ave" iff the frequency equals `closest_to_average`; some entry is tagged; a zero average or rate fails |
| SignalsGenerator.LegendSuffix | signals/generator.py:230-233 | a legend ends in "_ave" iff it was built for the average |
| SignalsGenerator.AverageIsListed | signals/generator.py:223 | a non-zero `closest_to_average` is one of the frequencies |
| GenSignals.GenDiscreteSignals | functions/gen_signals.py:91-137 | bounds are checked first; each name builds its waveform with the builders' guards and contents (the triangle is exactly `triangular_pulse`'s result, also on an odd span); the triangle on an even span is the full centred triangle; an unknown name is refused |
| SignalsFunctions.SquareFlatten | signals/functions.py:326-328 | the nested loops read `n` rows of `n` entries: the output has `rows * n` entries |
| SignalsFunctions.SquareFlattenAt | signals/functions.py:326-328 | `out[x*n + y] == list_in[x][y]` for `x, y < n` |
| SignalsFunctions.ListUdim | signals/functions.py:322-332 | a 1-D input comes back as is; a square or wider matrix flattens to its first n columns; a narrower one is an IndexError; ragged rows are refused by numpy |
| Ticks.SinewaveTicks | dsp/ticks.py:11-14 | five ticks `k/(4f)`; frequency 0 fails |
| Ticks.QuarterTicks | dsp/ticks.py:12 | the linspace spacing is a quarter period |
| Ticks.DegreesTicks | dsp/ticks.py:17-21 | from -180 in steps of the interval; the last tick is in `[180, 180+interval)`; interval 0 fails |
| Ticks.DegreesTicksDefault | dsp/ticks.py:17-21 | interval 30 gives 13 ticks ending at 180 |
| Ticks.DegreesTicksOvershoot | dsp/ticks.py:17-21 | interval 50 gives 9 ticks ending at 220, past 180 |
| Ticks.Max | dsp/ticks.py:48 | `np.max` is an element at least every element; empty input fails |
| Ticks.ZeroToMaxTicks | dsp/ticks.py:46-50 | from 0 in steps of the interval; the last tick is at least every value and below max + interval; empty input fails |
| Ticks.OctaveTickIncreasing | dsp/ticks.py:28 | each band centre is above the previous one |
| Ticks.OctavesTicks | dsp/ticks.py:24-30 | ten ticks `31.25 * 2^i`, strictly increasing from 31.25 to 16000 |
| Ticks.OctaveTicksSorted | dsp/ticks.py:27-28 | the ten centres are strictly increasing |
| Ticks.OctaveLabelsBelowThousand | dsp/ticks.py:38-39 | the first five labels are "31", "62", "125", "250", "500" |
| Ticks.OctaveLabelsThousands | dsp/ticks.py:40-41 | the last five labels are "1k", "2k", "4k", "8k", "16k" |
| Ticks.OctaveLabelValues | dsp/ticks.py:37-41 | label i is entry i of the list "31" .. "16k" |
| Ticks.OctavesLabels | dsp/ticks.py:33-43 | the loop returns exactly "31", "62", "125", "250", "500", "1k", "2k", "4k", "8k", "16k" |
| Ticks.Trimmed | dsp/ticks.py:59-60 | an odd-length list loses its last element; the result has even length |
| Ticks.DivisorAtMost | dsp/ticks.py:62-63 | the largest divisor of n that is at most the amount |
| Ticks.Selection | dsp/ticks.py:65-69 | tick i is element `K*(i+1) - 1` with `K = len/count` |
| Ticks.TicksOf | dsp/ticks.py:53-71 | empty input gives no tick; amount 0 divides by zero; a negative amount from `-len` up gives none (below `-len` this is the corrected result, see Findings); a single element fails; two or more succeed |
| Ticks.TicksAreEvenlySpread | dsp/ticks.py:59-69 | the count is the largest divisor of the trimmed length at most the amount; ticks are every K-th element in input order; the last tick is the last kept element |
| Ticks.CountTicks | dsp/ticks.py:62-63 | the count-down loop stops at a divisor of the length; for a positive amount it is the largest one at most the amount |
| Ticks.CountDiverges | dsp/ticks.py:62-63 | for an amount below `-len` on a non-empty list no value the loop reaches divides the length |
| Ticks.FillTicks | dsp/ticks.py:65-69 | the fill loop produces the selection; an empty list fails on index -1 |
| Ticks.SelectTicks | dsp/ticks.py:62-69 | counting then filling gives `SelectionOf` the trimmed list |
| Ticks.DiscreteTicks | dsp/ticks.py:53-71 | the ticks are `TicksOf` the argument's elements; a list argument is trimmed in the caller's own object |
| Graph.GenerateTicks | signals/graph.py:160-176 | the same result and the same trimming of the caller's list as `discrete_ticks` |
| Graph.GenerateOctaves | signals/graph.py:188-198 | ten index-aligned pairs: tick `31.25 * 2^i`, labels "31" .. "16k"; ticks strictly increasing |
| DspGrapher.Grapher.constructor | dsp/grapher.py:8-13 | with no argument the markers default to the fixed black-circle dictionary; a fresh default Signal |
| DspGrapher.Grapher.GenerateTicks | dsp/grapher.py:168-184 | the same result and the same trimming of the caller's list as `discrete_ticks` |
| DspGrapher.Grapher.GenerateOctaves | dsp/grapher.py:196-207 | ten index-aligned ticks and labels "31" .. "16k"; ticks strictly increasing |

## Left out

- `functions/filters.py` is not part of this model. It covers octave-band formulas with irrational powers, SPL with logarithms, and scipy filters and FFT: all floating-point numerics or foreign calls.
- Float formatting is not modelled. `pretty_frequency` is the parameter `prettyFrequency` of `DspGenerator.Generator.Sinewave`. Python's `str()` of a float in `sinewaves_list` legends is the parameter `show`.
- Sine values are not modelled; `sinewave_amplitude` and `sinewave` are function parameters. `arange_time_array` is a parameter too, because its length depends on floating-point accumulation. Its divisions by the frequency and by the sampling rate are kept as ZeroDivisionError cases.
- `random_signal`, `random_signal_amplitude` and the 'rnd' branch are the parameter `normal`. `GenSignals.GenDiscreteSignals` does not state the length of its 'rnd' output, because that length is numpy's promise, not this code's.
- Plotting, the plotting tail of `gen_discrete_signals`, file and OS I/O, `Signal.load_spectrum`, `info`, the transform scripts and `main.py` are not modelled.
- Reals are exact. Float rounding, NaN and infinities are not modelled. One consequence: `extend` on a signal whose last time is 0 divides a numpy float by zero. numpy gives an infinity or NaN there, and `int()` of it raises OverflowError or ValueError. `DspSignal.Extended` reports this one error as ZeroDivisionError.
- Error kinds are the package's own: each `ValueError` message becomes its own `Common.Error` constructor. The text of the messages is not kept.
- DspFunctions.BubbleDecreasingSort: requires three distinct arrays. When two of them alias, Python swaps the shared array twice per step. It also requires slaves at least as long as master; the source raises IndexError on a shorter slave partway through sorting. Neither case is modelled.
- DspFunctions.BubbleIncreasingSort: the same two requirements as the decreasing sort, for the same reasons.
- DspFunctions.ExtendAll: states per-signal results only for distinct signals. A signal passed twice is extended twice in Python.
- DspFunctions.ExtendToMin: states per-signal results only for distinct signals, as `DspFunctions.ExtendAll` does.
- DspFunctions.ExtendToSum: states per-signal results only for distinct signals, as `DspFunctions.ExtendAll` does.
- Ticks.DiscreteTicks: requires `amount_of_ticks >= -len` for a non-empty trimmed list. Below that, the count-down loop never ends; `Ticks.CountDiverges` proves that no value it reaches divides the length.
- Ticks.SelectTicks: the same termination requirement as `Ticks.DiscreteTicks`.
- Ticks.CountTicks: the same termination requirement as `Ticks.DiscreteTicks`.
- Ticks.TicksOf: for an amount below `-len` on a non-empty trimmed list it gives `Ok([])`, the corrected result, where `discrete_ticks` never returns (see Findings).
- Graph.GenerateTicks: the same termination requirement as `Ticks.DiscreteTicks`.
- DspGrapher.Grapher.GenerateTicks: the same termination requirement as `Ticks.DiscreteTicks`.
- Array-like arguments hold integers, the samples that tick selection receives. `list_udim` holds reals. Mixed element types are not modelled.
- `signals/graph.py` imports `to_list` from a top-level `functions` module, and that module is not part of this model. It is taken to be the `to_list` of `dsp/functions.py`, which is `DspFunctions.ToList`.
- SignalsFunctions.ListUdim: modern numpy refuses ragged rows while building the shape, and the model follows that. Older numpy built an object array there and returned the input unchanged; that behaviour is not modelled.
- DspGrapher.Grapher.constructor: a caller's dictionary is kept, and sharing it with the caller is not modelled. The dictionary is a value here.
- DspGenerator.Generator.Sinewave: Python reads the frequency back from the owned signal. The model uses the argument itself, which is the same value because the method has just written it.
- Ticks.ZeroToMaxTicks: takes a list of reals and does not model multi-dimensional arrays.
- The `Ticks` class and the Graph class have no state, so their methods are module-level members here.

## Findings

| source | as written | input that shows it | evidently intended | confidence | as-written member | corrected member |
|---|---|---|---|---|---|---|
| dsp/ticks.py:62-63 | `discrete_ticks` counts `amount_of_ticks` down until it divides the trimmed length; below `-len` no value it reaches divides the length, so the loop never ends | `discrete_ticks([1, 2], -3)` | the count-down stops at a divisor for every amount a caller can pass | not executed | Ticks.CountDiverges | Ticks.CountTicks, Ticks.TicksOf |
