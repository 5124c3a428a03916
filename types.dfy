/** Values the ChoroMap class works on: data tables, metadata, the country registry and the summary statistics of an indicator column. */
module ChoroTypes {

  datatype Option<T> = None | Some(value: T)

  /** One row of a data table, in the fixed column order Entity, Code, Year, indicator.
      A missing year (NaN in the table) is None. */
  datatype Row = Row(entity: string, code: string, year: Option<int>, indicator: real)

  /** A data table: the label of its Code column (the table's second column) and its rows in order. */
  datatype Table = Table(codeLabel: string, rows: seq<Row>)

  /** The metadata table of a dataset: the chart title and the indicator's display label. */
  datatype Metadata = Metadata(chartTitle: string, indicatorLabel: string)

  /** A loaded dataset: its data table and its metadata table. */
  datatype Dataset = Dataset(data: Table, metadata: Metadata)

  /** An entry of the country registry: the country name (its column 1) and its alpha-3 code (its column 4). */
  datatype CountryEntry = CountryEntry(name: string, code: string)

  /** Summary statistics of a dataset's indicator column. */
  datatype Stats = Stats(mean: real, median: real, max: real, min: real, std: real)
}
