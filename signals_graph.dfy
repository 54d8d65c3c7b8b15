/** signals/graph.py: the tick helpers of the Graph plotting class, which
    keeps no state of its own; the plotting methods are not modelled. */
module Graph {
  import opened Common
  import opened DspFunctions
  import opened Ticks

  /** Graph.generate_ticks: the same steps as discrete_ticks, including the
      deletion from a caller's list. */
  method GenerateTicks(v: ArrayLike, amount: int) returns (r: Result<seq<int>>)
    requires CountTerminates(|Trimmed(Items(v))|, amount)
    modifies if v.ListObject? then {v.list} else {}
    ensures r == TicksOf(old(Items(v)), amount)
    ensures v.ListObject? ==> v.list.items == Trimmed(old(v.list.items))
  {
    r := DiscreteTicks(v, amount);
  }

  /** generate_octaves: one loop appending each band centre and its label,
      so the two lists are index-aligned. */
  method GenerateOctaves() returns (ticksList: seq<real>, tickLabels: seq<string>)
    ensures |ticksList| == 10 && |tickLabels| == 10
    ensures forall i :: 0 <= i < 10 ==> ticksList[i] == OctaveTick(i) && tickLabels[i] == OctaveLabel(i)
    ensures forall i, j :: 0 <= i < j < 10 ==> ticksList[i] < ticksList[j]
    ensures tickLabels == OctaveLabelList
  {
    ticksList, tickLabels := [], [];
    for i := 0 to 10
      invariant |ticksList| == i && |tickLabels| == i
      invariant forall k :: 0 <= k < i ==> ticksList[k] == OctaveTick(k) && tickLabels[k] == OctaveLabel(k)
    {
      ticksList := ticksList + [31.25 * Pow2(i) as real];
      if 31.25 * Pow2(i) as real < 1000.0 {
        tickLabels := tickLabels + [IntToString(Trunc(31.25 * Pow2(i) as real))];
      } else {
        tickLabels := tickLabels + [IntToString(Trunc((31.25 / 1000.0) * Pow2(i) as real)) + "k"];
      }
    }
    OctaveTicksSorted(ticksList);
    OctaveLabelValues();
  }
}
