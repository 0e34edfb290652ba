/** Shared vocabulary of the parsers: optional values, results with the
    parser's failure kinds, raw spreadsheet rows and the two system types. */
module Common {

  datatype Option<+T> = None | Some(value: T)

  datatype Result<+T, +E> = Ok(value: T) | Err(error: E)

  /** The ways a parse of one row can fail.
      MissingColumn: a required column is absent from the row (a KeyError on
      the row lookup in the source).
      PanelTokenOutOfRange: the OfflineTrends branch of the panel classifier
      asked for a token two places after the marker that the point name does
      not have (an IndexError in the source). */
  datatype ParseError =
    | MissingColumn(column: string)
    | PanelTokenOutOfRange(pointName: string)

  /** One spreadsheet row: column name to cell text. */
  type Row = map<string, string>

  const Apogee: string := "apogee"
  const Bacnet: string := "bacnet"

  /** The system types the decoder and the aggregator know how to read. */
  predicate IsKnownSystemType(systemType: string)
  {
    systemType == Apogee || systemType == Bacnet
  }
}
