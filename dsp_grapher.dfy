/** dsp/grapher.py: the Grapher keeps the marker settings of discrete plots
    and a Signal; its tick helpers are those of the Graph class. */
module DspGrapher {
  import opened Common
  import opened DspSignal
  import opened DspFunctions
  import opened Ticks
  import Graph

  /** A value of the matplotlib keyword dictionary. */
  datatype KwValue = IntValue(i: int) | StringValue(s: string)

  /** The settings used when none are given: opaque black circle markers
      without connecting lines. */
  const DefaultDiscreteKwargs: map<string, KwValue> :=
    map["alpha" := IntValue(1), "color" := StringValue("black"), "linestyle" := StringValue(""),
        "linewidth" := IntValue(1), "marker" := StringValue("o")]

  class Grapher {
    var discreteKwargs: map<string, KwValue>
    var signal: Signal

    /** Grapher(discrete_kwargs): the given settings or the default ones,
        and a new Signal. */
    constructor (discreteKwargs: Option<map<string, KwValue>>)
      ensures discreteKwargs.None? ==> this.discreteKwargs == DefaultDiscreteKwargs
      ensures discreteKwargs.Some? ==> this.discreteKwargs == discreteKwargs.value
      ensures fresh(signal) && signal.HasDefaults()
    {
      this.discreteKwargs := if discreteKwargs.None? then DefaultDiscreteKwargs else discreteKwargs.value;
      signal := new Signal();
    }

    /** Grapher.generate_ticks: discrete_ticks again; the Grapher's own
        state is not involved. */
    method GenerateTicks(v: ArrayLike, amount: int) returns (r: Result<seq<int>>)
      requires CountTerminates(|Trimmed(Items(v))|, amount)
      modifies if v.ListObject? then {v.list} else {}
      ensures r == TicksOf(old(Items(v)), amount)
      ensures v.ListObject? ==> v.list.items == Trimmed(old(v.list.items))
    {
      r := DiscreteTicks(v, amount);
    }

    /** Grapher.generate_octaves: the ten aligned band centres and labels. */
    method GenerateOctaves() returns (ticksList: seq<real>, tickLabels: seq<string>)
      ensures |ticksList| == 10 && |tickLabels| == 10
      ensures forall i :: 0 <= i < 10 ==> ticksList[i] == OctaveTick(i) && tickLabels[i] == OctaveLabel(i)
      ensures forall i, j :: 0 <= i < j < 10 ==> ticksList[i] < ticksList[j]
      ensures tickLabels == OctaveLabelList
    {
      ticksList, tickLabels := Graph.GenerateOctaves();
    }
  }
}
