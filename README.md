# ChoroMap bookkeeping, modelled in Dafny

This project models the bookkeeping of the `ChoroMap` class of `choromap/choromap.py`: what it does
before it hands a choropleth map to the charting library. It covers four steps:

- the **no-data completion** (`with_no_data`). Every country of the country registry whose code is
  not in a "present" set gets a placeholder row: name, code, missing year, indicator `-1`. These
  rows are appended after the dataset's own rows and the result is cached under the keyword.
- the **tick scale** (`set_ticks`): five tick values, five tick labels and the colour range
  `zmin`/`zmax`, with or without a "No Data" tick.
- the **computed colorscale** (`data_col_bar`). Each statistic is divided by ten while it exceeds
  one. The scaled values become the positions of five black colour stops.
- the **pre-render decisions of `plot_choropleth`**: the keyword check, the dtype guard, the choice
  of the completed or the original table, the choice of the computed or the named colorscale, and
  the tick update.

Files:

- `types.dfy` (module `ChoroTypes`): rows, tables, metadata, datasets, registry entries and
  statistics, as values.
- `completion.dfy` (module `Completion`): the completion as functions, and the lemmas about it.
- `ticks.dfy` (module `Ticks`): the tick lists and colour range as functions, and their lemmas.
- `colorbar.dfy` (module `ColorBar`): the divide-by-ten loop as a method, proved against the
  function `Shrink`, and the colour stops.
- `choromap.dfy` (module `ChoroMaps`): class `ChoroMap`. Its fields are `datasets`, `noData`,
  `colorscale`, `tickvals`, `ticktext`, `zmin`, `zmax` and `showNoData`. Its methods assign them the
  way the Python methods do. `Valid()` states that every cached completion is the completion of the
  dataset under the same keyword, and that the tick values and tick labels come in matching lists
  of five (or are empty before the first plot).

The country registry is a value given to the constructor. The source reads it into a
process-wide table (line 10). The statistics of the indicator column are inputs of type `Stats`:
`raw` for `data_col_bar` and `rounded` for `set_ticks`.

The model follows the code as written, including these details:

- **The present set.** Line 160 applies `set()` to the Code column's *label*. That gives the
  label's characters, each a one-character string, and not the codes in the column. The model
  computes it that way (`PresentAsWritten`); see Findings.
- **Placeholder order.** Placeholder rows come out in registry order, not in sorted-code order.
  The sorted list from lines 162-164 is read only by the `isin` membership test at line 166, which
  keeps the registry's order.
- **The trailing slice.** The `iloc[-1:-1]` slice concatenated at line 175 is empty, so it adds no
  rows (`ILoc`).
- **The keyword check.** `plot_choropleth` assigns `show_no_data` (line 83) before it checks the
  keyword. So a failed call still changes that one field, and nothing else.
- **The dtype guard.** The guard at line 90 raises by calling the keyword string. That fails with a
  TypeError instead. The model reports it as the error `BadDtype`.

## Model

| member | source | states |
|---|---|---|
| `Completion.PresentAsWritten` | choromap/choromap.py:160 | the present set holds exactly the one-character strings made of the Code label's characters |
| `Completion.MissingCodes` | choromap/choromap.py:158-163 | the missing codes are registry codes, none of them in the present set, and they include the code of every registry entry that is not present |
| `Completion.Placeholder` | choromap/choromap.py:166-173 | a placeholder row gives back its registry entry's name and code, has no year and has indicator -1 |
| `Completion.KeepIsin` | choromap/choromap.py:166 | the `isin` filter keeps exactly the entries whose code is in the given set, and never adds entries |
| `Completion.KeepIsinConcat` | choromap/choromap.py:166 | the filter keeps order: filtering a concatenation equals concatenating the filtered parts |
| `Completion.MissingEntryIff` | choromap/choromap.py:158-166 | a registry entry gets a placeholder if and only if its code is not in the present set; the sorted list matters only as a set |
| `Completion.MissingEntriesCodes` | choromap/choromap.py:158-166 | the codes given placeholder rows are exactly the registry codes minus the present set |
| `Completion.KeepIsinCount` | choromap/choromap.py:166 | with unique registry codes, the filter keeps one entry per registry code in the set |
| `Completion.MissingEntriesCount` | choromap/choromap.py:158-166 | with unique registry codes, the number of placeholder rows is the number of missing codes |
| `Completion.ILoc` | choromap/choromap.py:175 | a Python-style slice is no longer than the sequence, holds only its elements, and is empty when start equals stop, so `iloc[-1:-1]` adds nothing |
| `Completion.CompleteWith` | choromap/choromap.py:166-177 | the completed table keeps the Code label and the metadata; its first rows are the original rows in order; its length is the original length plus the number of missing entries; row `n+i` is the placeholder of the i-th missing entry, with its name, its code, no year and indicator -1 |
| `Completion.CompleteAsWritten` | choromap/choromap.py:158-177 | the completion as the code computes it keeps the dataset's metadata and its rows in order at the front; every registry country whose code is not one character long gets a placeholder, whatever the data holds |
| `Completion.CompletedRows` | choromap/choromap.py:166-176 | a row is in the completed table if and only if it is an original row or the placeholder of a registry entry whose code is not present |
| `Completion.NothingMissing` | choromap/choromap.py:162-166 | when every registry code is present, no placeholder row is added |
| `Completion.AsWrittenDuplicatesCoveredCountry` | choromap/choromap.py:160 | with the label-derived present set, a dataset that covers AFG still receives a -1 placeholder for AFG, so AFG is listed twice |
| `Completion.ByCodesNoDuplicate` | choromap/choromap.py:159-166 | with the present set taken from the whole Code column, no placeholder repeats a code that the dataset already covers |
| `Completion.ByCodesIdempotent` | choromap/choromap.py:159-176 | with the present set taken from the whole Code column, completing an already completed dataset adds no rows |
| `Completion.ByCodesCount` | choromap/choromap.py:158-166 | with that present set, unique registry codes and every covered code in the registry, the number of placeholder rows is the registry size minus the number of covered codes |
| `Ticks.TickValues` | choromap/choromap.py:59-71 | there are five tick values; median - std, median, median + std are evenly spaced, and ascending when std is not negative |
| `Ticks.TickTexts` | choromap/choromap.py:61-62 | five labels; the first is "No Data" exactly when placeholders are shown; labels 2-5 each carry the value of their own tick |
| `Ticks.ZMin` | choromap/choromap.py:63 | the lower colour bound is the first tick: the minimum, or -1 when placeholders are shown (line 70) |
| `Ticks.ZMax` | choromap/choromap.py:64 | the upper colour bound is the last tick, the maximum, in both branches (line 71) |
| `Ticks.LabelsMatchValues` | choromap/choromap.py:60-69 | a label is "No Data" exactly for the first tick of the no-data scale; every other label shows its own tick's value |
| `Ticks.RangeSpansTicks` | choromap/choromap.py:59-71 | `zmin` is the first tick and `zmax` the last, in both branches |
| `Ticks.NoDataScaleRelation` | choromap/choromap.py:59-71 | the no-data scale has first tick -1, first label "No Data" and `zmin = -1`; ticks 2-5, labels 2-5 and `zmax` equal the plain scale's; the plain scale starts at the minimum |
| `Ticks.ScaleIgnoresMean` | choromap/choromap.py:52-71 | the mean is computed but never used: tick values, labels and colour range do not depend on it |
| `Ticks.TicksAscendingIff` | choromap/choromap.py:60 | the five ticks ascend if and only if the first tick is at most median - std, std is not negative, and median + std is at most the maximum |
| `Ticks.WideSpreadBreaksOrder` | choromap/choromap.py:60 | for the values 10, 20, 30, 40, 100 (median 30, sample standard deviation 35.36 after rounding) the ticks are [10, -5.36, 30, 65.36, 100], so the second tick lies below the first |
| `ColorBar.Shrink` | choromap/choromap.py:131-138 | after the divide-by-ten loop the value is at most 1; it is unchanged if it started at most 1, and it lies in (0.1, 1] if it started above 1 |
| `ColorBar.ShrinkDividesByPowerOfTen` | choromap/choromap.py:131-138 | the result times ten to the number of divisions is the original value |
| `ColorBar.ScaleDown` | choromap/choromap.py:131-138 | over reals, the `while x > 1: x /= 10` loop terminates with the value `Shrink` describes |
| `ColorBar.ComputedStops` | choromap/choromap.py:139-145 | five stops, the first at 0.0, all black; the median and maximum stops are at most 1, the median + std stop at most 2; the stops on either side of the median are equally far from it; the maximum stop is above 0.1 when the maximum exceeds 1 |
| `ColorBar.StopsIgnoreMean` | choromap/choromap.py:128-145 | the mean is scaled but never used: the stops do not depend on it |
| `ColorBar.StopsCanLeaveOrder` | choromap/choromap.py:139-145 | the stop positions need not ascend (median 50, std 30, max 60 gives ..., 0.8, 0.6) nor stay within [0, 1] (median 2, std 5 gives -0.3) |
| `ChoroMaps.ChoroMap.constructor` | choromap/choromap.py:22-31 | no cached completions, an empty colorscale, no ticks, and a colour range of 0 to 0 |
| `ChoroMaps.ChoroMap.WithNoData` | choromap/choromap.py:147-177 | an unknown keyword is a KeyError and leaves `noData` unchanged; otherwise only `noData[keyword]` changes, to the completion of that dataset; `datasets` is constant |
| `ChoroMaps.ChoroMap.SetTicks` | choromap/choromap.py:44-71 | `show` defaults to false; an unknown keyword is a KeyError and changes nothing; otherwise the tick values, tick labels, `zmin` and `zmax` become those of the chosen branch |
| `ChoroMaps.ChoroMap.DataColBar` | choromap/choromap.py:122-145 | an unknown keyword is a KeyError and changes nothing; otherwise the colorscale becomes the computed five stops |
| `ChoroMaps.ChoroMap.PlotChoropleth` | choromap/choromap.py:74-104 | the options default to no placeholders, no computed colorbar and the palette "Viridis"; `showNoData` is always set; an unknown keyword is a KeyError and a failed dtype guard an error, and either leaves every other field unchanged; otherwise the returned table is the completion (with `show`) or the original dataset, the colorscale is the computed one or the given name, and the ticks and colour range are those of `set_ticks` |
| `ChoroMaps.PlotWithDefaults` | choromap/choromap.py:74-78 | a plot call that leaves every option at its default returns the original table, leaves the palette "Viridis" in `colorscale`, and sets the plain scale from the minimum to the maximum |

## Findings

| source | as written | input that shows it | evidently intended | confidence | as-written member | corrected member |
|---|---|---|---|---|---|---|
| choromap/choromap.py:160 | the present set is `set()` of the Code column's label, i.e. the characters C, o, d, e | a dataset labelled "Code" with a row for AFG, and a registry holding AFG: the completed table holds AFG twice, once with its value and once with -1 | the present set is the set of codes in the Code column (as the comment on line 159 says), so covered countries get no placeholder | high; not executed | `Completion.AsWrittenDuplicatesCoveredCountry` | `Completion.ByCodesNoDuplicate` |

The completion takes the present set as a parameter. `CompleteAsWritten` passes the set that the
code builds. `CompleteByCodes` passes the corrected set, and `ByCodesNoDuplicate`,
`ByCodesIdempotent` and `ByCodesCount` are proved about it. The class keeps the as-written set,
because it models what `with_no_data` does.

## Left out

- Loading the CSV and JSON files, and skipping a dataset whose files fail to load (lines 34-41).
  The constructor receives the datasets that loaded.
- Loading the registry from `data/countries.json` (line 10). The registry is a constructor value.
  Only the columns the code reads are kept: the name (column 1) and the code (column 4).
- Computing mean, median, maximum, minimum and standard deviation with pandas (lines 52-56,
  127-130). They are inputs, and nothing ties them to the rows. So "the statistics ignore
  placeholder rows" cannot be stated. The code does read them from `datasets`, never from the
  completion.
- Statistics of an empty column, and the standard deviation of a one-row column (pandas divides by
  n - 1), are NaN in pandas. The ticks (lines 60 and 67) and the stops (lines 141 and 143) then hold
  NaN. `Stats` holds reals only, so these cases are not modelled.
- Floating point: all arithmetic is exact over reals, including the divisions by ten. An infinite
  statistic makes `while x > 1: x /= 10` (lines 131-138) loop forever, because infinity divided by
  ten is infinity. `ScaleDown` terminates only because reals are finite.
- ChoroMaps.ChoroMap.SetTicks: the statistics are taken as already rounded to two decimals, and
  median - std and median + std are not rounded again to two decimals (lines 60-62 and 67-69).
- Ticks.TickTexts: a label carries the tick value as a number. Its rendering as text by the
  f-string is not modelled.
- ChoroMaps.ChoroMap.PlotChoropleth: the dtype test on the indicator and Code columns (lines 88-89)
  is the boolean input `badDtype`.
- Building the plotly figure and calling `iplot` (lines 107-119). The method returns the table the
  figure would be drawn from.
- `plot_bar` (lines 180-203): matplotlib and seaborn plotting over pandas counts.
- Column names. A table has exactly four columns (Entity, Code, Year, indicator) and only the Code
  label is kept. The renaming at line 169, the literal column name "Year" at line 171, extra
  columns, and the dtype changes caused by concatenation are not modelled.
- Before the first plot, the Python object has no `show_no_data` attribute. The model starts it
  at false.
