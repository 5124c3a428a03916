/** The colorbar tick scale of `set_ticks`: five tick values, five tick labels and the colour range. */
module Ticks {
  import opened ChoroTypes

  /** A tick label: "No Data", or a tick value followed by its caption
      (the number's text rendering is not modelled). */
  datatype TickLabel = NoData | Labeled(value: real, caption: string)

  /** The sentinel tick and colour-range bound used when placeholder rows are shown. */
  const NoDataTick: real := -1.0

  /** The five tick values: the first tick, median - std, median, median + std, maximum.
      The first tick is the minimum, or the sentinel when placeholders are shown. */
  function TickValues(s: Stats, showNoData: bool): (t: seq<real>)
    ensures |t| == 5
    ensures s.std >= 0.0 ==> t[1] <= t[2] <= t[3]
    ensures t[3] - t[2] == t[2] - t[1]
  {
    [if showNoData then NoDataTick else s.min, s.median - s.std, s.median, s.median + s.std, s.max]
  }

  /** The five tick labels, one per tick value. */
  function TickTexts(s: Stats, showNoData: bool): (l: seq<TickLabel>)
    ensures |l| == 5
    ensures l[0] == NoData <==> showNoData
    ensures forall i :: 1 <= i < 5 ==> l[i].Labeled? && l[i].value == TickValues(s, showNoData)[i]
  {
    [ if showNoData then NoData else Labeled(s.min, "\tminimum"),
      Labeled(s.median - s.std, "\tmedian - std"),
      Labeled(s.median, "\tmedian"),
      Labeled(s.median + s.std, "\tmedian + std"),
      Labeled(s.max, "\tmaximum") ]
  }

  /** The colour range: from the minimum (or the sentinel) to the maximum. */
  function ZMin(s: Stats, showNoData: bool): (z: real)
    ensures z == TickValues(s, showNoData)[0]
  {
    if showNoData then NoDataTick else s.min
  }

  function ZMax(s: Stats, showNoData: bool): (z: real)
    ensures z == TickValues(s, showNoData)[4]
  {
    s.max
  }

  /** Each label shows its own tick's value; only the first label of the no-data scale is "No Data". */
  lemma LabelsMatchValues(s: Stats, showNoData: bool)
    ensures forall i :: 0 <= i < 5 ==>
              (TickTexts(s, showNoData)[i] == NoData <==> showNoData && i == 0)
    ensures forall i :: 0 <= i < 5 && TickTexts(s, showNoData)[i].Labeled? ==>
              TickTexts(s, showNoData)[i].value == TickValues(s, showNoData)[i]
  {
  }

  /** The colour range runs exactly from the first tick to the last one. */
  lemma RangeSpansTicks(s: Stats, showNoData: bool)
    ensures ZMin(s, showNoData) == TickValues(s, showNoData)[0]
    ensures ZMax(s, showNoData) == TickValues(s, showNoData)[4]
  {
  }

  /** The no-data scale differs from the plain one only in its first tick, label and lower bound. */
  lemma NoDataScaleRelation(s: Stats)
    ensures TickValues(s, true)[1..] == TickValues(s, false)[1..]
    ensures TickTexts(s, true)[1..] == TickTexts(s, false)[1..]
    ensures TickValues(s, true)[0] == NoDataTick && TickTexts(s, true)[0] == NoData
    ensures ZMin(s, true) == NoDataTick && ZMax(s, true) == ZMax(s, false)
    ensures TickValues(s, false)[0] == ZMin(s, false) == s.min
  {
  }

  /** The mean is computed but never used: the scale does not depend on it. */
  lemma ScaleIgnoresMean(s: Stats, otherMean: real, showNoData: bool)
    ensures TickValues(s.(mean := otherMean), showNoData) == TickValues(s, showNoData)
    ensures TickTexts(s.(mean := otherMean), showNoData) == TickTexts(s, showNoData)
    ensures ZMin(s.(mean := otherMean), showNoData) == ZMin(s, showNoData)
    ensures ZMax(s.(mean := otherMean), showNoData) == ZMax(s, showNoData)
  {
  }

  /** The ticks are in ascending order exactly when the first tick is at most median - std,
      std is not negative and median + std is at most the maximum. */
  lemma TicksAscendingIff(s: Stats, showNoData: bool)
    ensures var t := TickValues(s, showNoData);
            (forall i, j :: 0 <= i < j < 5 ==> t[i] <= t[j])
            <==> t[0] <= s.median - s.std && s.std >= 0.0 && s.median + s.std <= s.max
  {
    var t := TickValues(s, showNoData);
    if forall i, j :: 0 <= i < j < 5 ==> t[i] <= t[j] {
      assert t[0] <= t[1] && t[1] <= t[2] && t[3] <= t[4];
    }
  }

  /** Values 10, 20, 30, 40, 100 (median 30, sample std sqrt(1250) rounded to 35.36):
      the second tick falls below the first. */
  lemma WideSpreadBreaksOrder()
    ensures var t := TickValues(Stats(40.0, 30.0, 100.0, 10.0, 35.36), false);
            t == [10.0, -5.36, 30.0, 65.36, 100.0] && t[0] > t[1]
  {
  }
}
