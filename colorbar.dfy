/** The computed colorscale of `data_col_bar`: each statistic is divided by ten until it is at
    most one, and the scaled values become the positions of five black colour stops. */
module ColorBar {
  import opened ChoroTypes

  /** A colour stop: a position on the colorbar and the colour at that position. */
  datatype ColorStop = ColorStop(pos: real, color: string)

  /** A colorscale: a named built-in palette, or an explicit list of colour stops. */
  datatype Colorscale = Named(name: string) | Stops(stops: seq<ColorStop>)

  /** The colour of every computed stop. */
  const StopColor: string := "black"

  function Pow10(k: nat): (p: real)
    ensures p >= 1.0
  {
    if k == 0 then 1.0 else 10.0 * Pow10(k - 1)
  }

  /** Dividing a value above one by ten lowers its integer part. */
  lemma FloorDrops(x: real)
    requires x > 1.0
    ensures (x / 10.0).Floor < x.Floor
  {
    assert (x / 10.0).Floor as real <= x / 10.0;
    assert x.Floor as real > x - 1.0;
  }

  /** The value left when `x` is divided by ten for as long as it exceeds one. */
  function Shrink(x: real): (y: real)
    ensures y <= 1.0
    ensures x <= 1.0 ==> y == x
    ensures x > 1.0 ==> 0.1 < y
    decreases if x > 1.0 then x.Floor else 0
  {
    if x > 1.0 then
      FloorDrops(x);
      Shrink(x / 10.0)
    else
      x
  }

  /** The number of divisions by ten the loop performs on `x`. */
  function Divisions(x: real): nat
    decreases if x > 1.0 then x.Floor else 0
  {
    if x > 1.0 then
      FloorDrops(x);
      1 + Divisions(x / 10.0)
    else
      0
  }

  /** The shrunk value is the original divided by ten once per division. */
  lemma {:induction false} ShrinkDividesByPowerOfTen(x: real)
    ensures Shrink(x) * Pow10(Divisions(x)) == x
    decreases if x > 1.0 then x.Floor else 0
  {
    if x > 1.0 {
      FloorDrops(x);
      ShrinkDividesByPowerOfTen(x / 10.0);
      var y, p := Shrink(x / 10.0), Pow10(Divisions(x / 10.0));
      assert Shrink(x) == y && Pow10(Divisions(x)) == 10.0 * p;
      assert y * (10.0 * p) == 10.0 * (y * p);
    }
  }

  /** The `while x > 1: x /= 10` loop of `data_col_bar`. */
  method ScaleDown(x: real) returns (y: real)
    ensures y == Shrink(x)
  {
    y := x;
    while y > 1.0
      invariant Shrink(y) == Shrink(x)
      decreases if y > 1.0 then y.Floor else 0
    {
      FloorDrops(y);
      y := y / 10.0;
    }
  }

  /** The computed colorscale: a stop at 0, then the scaled median - std, median, median + std and maximum. */
  function ComputedStops(raw: Stats): (c: seq<ColorStop>)
    ensures |c| == 5 && c[0].pos == 0.0
    ensures forall i :: 0 <= i < |c| ==> c[i].color == StopColor
    ensures c[2].pos <= 1.0 && c[4].pos <= 1.0 && c[3].pos <= 2.0
    ensures c[3].pos - c[2].pos == c[2].pos - c[1].pos
    ensures raw.max > 1.0 ==> 0.1 < c[4].pos
  {
    var median, std, max := Shrink(raw.median), Shrink(raw.std), Shrink(raw.max);
    [ ColorStop(0.0, StopColor),
      ColorStop(median - std, StopColor),
      ColorStop(median, StopColor),
      ColorStop(median + std, StopColor),
      ColorStop(max, StopColor) ]
  }

  /** The mean is scaled but never used: the colorscale does not depend on it. */
  lemma StopsIgnoreMean(raw: Stats, otherMean: real)
    ensures ComputedStops(raw.(mean := otherMean)) == ComputedStops(raw)
  {
  }

  /** The stop positions need not ascend nor stay within [0, 1]: median 50, std 30 and maximum 60
      give positions 0, 0.2, 0.5, 0.8, 0.6; median 2 and std 5 put the second stop at -0.3. */
  lemma StopsCanLeaveOrder()
    ensures var c := ComputedStops(Stats(45.0, 50.0, 60.0, 10.0, 30.0));
            c[3].pos == 0.8 && c[4].pos == 0.6 && c[3].pos > c[4].pos
    ensures ComputedStops(Stats(3.0, 2.0, 9.0, 0.0, 5.0))[1].pos == -0.3
  {
    assert Shrink(50.0) == Shrink(5.0) == 0.5;
    assert Shrink(30.0) == Shrink(3.0) == 0.3;
    assert Shrink(60.0) == Shrink(6.0) == 0.6;
    assert Shrink(2.0) == 0.2;
    assert Shrink(5.0) == 0.5;
  }
}
