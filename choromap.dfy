/** The ChoroMap class: per-keyword datasets, the no-data completions it caches, and the
    colorscale, ticks and colour range that each plot call leaves in its fields. */
module ChoroMaps {
  import opened ChoroTypes
  import opened Completion
  import opened Ticks
  import opened ColorBar

  /** The failures a plot call reports before drawing anything. */
  datatype PlotError =
    | KeyNotFound(key: string)   // KeyError: no dataset under this keyword
    | BadDtype(key: string)      // the dtype guard fired (the raise there fails with a TypeError)

  datatype Result<T> = Ok(value: T) | Err(error: PlotError)

  /** The named colorscale a plot uses unless told otherwise. */
  const DefaultColorscale: string := "Viridis"

  class ChoroMap {
    /** The loaded datasets by keyword; never reassigned after construction. */
    const datasets: map<string, Dataset>
    /** The country registry. */
    const registry: seq<CountryEntry>

    var noData: map<string, Dataset>
    var colorscale: Colorscale
    var tickvals: seq<real>
    var ticktext: seq<TickLabel>
    var zmin: real
    var zmax: real
    var showNoData: bool

    /** Ticks come as five values with five labels (or none before the first plot), and every
        cached completion is the completion of the dataset under the same keyword. */
    ghost predicate Valid()
      reads this
    {
      && |tickvals| == |ticktext|
      && (|tickvals| == 0 || |tickvals| == 5)
      && forall k :: k in noData ==> k in datasets && noData[k] == CompleteAsWritten(datasets[k], registry)
    }

    /** A ChoroMap over datasets already loaded (those that failed to load are absent). */
    constructor (loaded: map<string, Dataset>, countries: seq<CountryEntry>)
      ensures Valid()
      ensures datasets == loaded && registry == countries
      ensures noData == map[] && colorscale == Stops([])
      ensures tickvals == [] && ticktext == [] && zmin == 0.0 && zmax == 0.0
      ensures !showNoData
    {
      datasets := loaded;
      registry := countries;
      noData := map[];
      colorscale := Stops([]);
      tickvals, ticktext := [], [];
      zmin, zmax := 0.0, 0.0;
      showNoData := false;
    }

    /** `with_no_data`: store the completion of the dataset under `keyword`; KeyError if there is none. */
    method WithNoData(keyword: string) returns (found: bool)
      requires Valid()
      modifies this`noData
      ensures Valid()
      ensures found <==> keyword in datasets
      ensures !found ==> noData == old(noData)
      ensures found ==> noData == old(noData)[keyword := CompleteAsWritten(datasets[keyword], registry)]
    {
      if keyword !in datasets {
        return false;
      }
      var ds := datasets[keyword];
      var present := PresentAsWritten(ds.data.codeLabel);
      noData := noData[keyword := CompleteWith(ds, registry, present)];
      found := true;
    }

    /** `set_ticks`: the tick values, labels and colour range from the rounded statistics
        `rounded` of the indicator column of the dataset under `keyword`. */
    method SetTicks(keyword: string, rounded: Stats, show: bool := false) returns (found: bool)
      requires Valid()
      modifies this`tickvals, this`ticktext, this`zmin, this`zmax
      ensures Valid()
      ensures found <==> keyword in datasets
      ensures !found ==> tickvals == old(tickvals) && ticktext == old(ticktext)
                         && zmin == old(zmin) && zmax == old(zmax)
      ensures found ==> tickvals == TickValues(rounded, show) && ticktext == TickTexts(rounded, show)
                        && zmin == ZMin(rounded, show) && zmax == ZMax(rounded, show)
    {
      if keyword !in datasets {
        return false;
      }
      tickvals := TickValues(rounded, show);
      ticktext := TickTexts(rounded, show);
      if show {
        zmin := NoDataTick;
      } else {
        zmin := rounded.min;
      }
      zmax := rounded.max;
      found := true;
    }

    /** `data_col_bar`: the computed colorscale from the statistics `raw` of the indicator column
        of the dataset under `keyword`. */
    method DataColBar(keyword: string, raw: Stats) returns (found: bool)
      requires Valid()
      modifies this`colorscale
      ensures Valid()
      ensures found <==> keyword in datasets
      ensures !found ==> colorscale == old(colorscale)
      ensures found ==> colorscale == Stops(ComputedStops(raw))
    {
      if keyword !in datasets {
        return false;
      }
      var median := ScaleDown(raw.median);
      var mean := ScaleDown(raw.mean);
      var max := ScaleDown(raw.max);
      var std := ScaleDown(raw.std);
      colorscale := Stops([
        ColorStop(0.0, StopColor),
        ColorStop(median - std, StopColor),
        ColorStop(median, StopColor),
        ColorStop(median + std, StopColor),
        ColorStop(max, StopColor)]);
      found := true;
    }

    /** `plot_choropleth` up to building the figure: checks the keyword and the dtype guard
        (`badDtype`), completes the dataset when `show` is set, picks the computed or the named
        colorscale, sets the ticks, and returns the table the figure would be drawn from. */
    method PlotChoropleth(keyword: string, badDtype: bool, raw: Stats, rounded: Stats,
                          show: bool := false, dataBasedColorbar: bool := false,
                          colorscaleName: string := DefaultColorscale) returns (r: Result<Dataset>)
      requires Valid()
      modifies this
      ensures Valid()
      ensures showNoData == show
      ensures keyword !in datasets ==> r == Err(KeyNotFound(keyword))
      ensures keyword in datasets && badDtype ==> r == Err(BadDtype(keyword))
      ensures r.Err? ==> noData == old(noData) && colorscale == old(colorscale)
                         && tickvals == old(tickvals) && ticktext == old(ticktext)
                         && zmin == old(zmin) && zmax == old(zmax)
      ensures keyword in datasets && !badDtype ==>
                && r == Ok(if show then CompleteAsWritten(datasets[keyword], registry) else datasets[keyword])
                && noData == (if show then old(noData)[keyword := CompleteAsWritten(datasets[keyword], registry)]
                              else old(noData))
                && colorscale == (if dataBasedColorbar then Stops(ComputedStops(raw)) else Named(colorscaleName))
                && tickvals == TickValues(rounded, show) && ticktext == TickTexts(rounded, show)
                && zmin == ZMin(rounded, show) && zmax == ZMax(rounded, show)
    {
      showNoData := show;
      if keyword !in datasets {
        return Err(KeyNotFound(keyword));
      }
      if badDtype {
        return Err(BadDtype(keyword));
      }
      var source: map<string, Dataset>;
      if showNoData {
        var _ := WithNoData(keyword);
        source := noData;
      } else {
        source := datasets;
      }
      if dataBasedColorbar {
        var _ := DataColBar(keyword, raw);
      } else {
        colorscale := Named(colorscaleName);
      }
      var _ := SetTicks(keyword, rounded, showNoData);
      r := Ok(source[keyword]);
    }
  }

  /** A plot call that leaves every option at its default: the original table, the Viridis
      palette, and the plain scale from the minimum to the maximum. */
  method PlotWithDefaults(m: ChoroMap, keyword: string, raw: Stats, rounded: Stats) returns (r: Result<Dataset>)
    requires m.Valid() && keyword in m.datasets
    modifies m
    ensures m.Valid()
    ensures r == Ok(m.datasets[keyword])
    ensures m.colorscale == Named("Viridis") && !m.showNoData
    ensures m.tickvals == TickValues(rounded, false) && m.ticktext == TickTexts(rounded, false)
    ensures m.zmin == rounded.min && m.zmax == rounded.max
  {
    r := m.PlotChoropleth(keyword, false, raw, rounded);
  }
}
