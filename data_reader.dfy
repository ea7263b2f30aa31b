/** `DataReaderAgent.get_data_info`: the summary of a loaded table that the
    user interface shows and that the language-model prompt is built from. */
module DataReader {
  import opened Table

  /** How many leading rows `DataFrame.head()` keeps. */
  const SampleRows: nat := 5

  /** The dictionary `get_data_info` returns: either the error entry alone, or
      the six summary entries. `sampleData` maps each column to its leading
      cells, `head().to_dict()` keyed by column. */
  datatype DataInfo =
    | NoData(error: string)
    | Info(rows: nat, columns: nat, columnNames: seq<string>, dataTypes: map<string, Kind>,
           missingValues: map<string, nat>, sampleData: map<string, seq<Option<Value>>>)

  function GetDataInfo(d: Dataset): (r: DataInfo)
    requires WellFormed(d)
    ensures r.NoData? <==> Empty(d)
    ensures r.NoData? ==> r.error == "No data available"
    ensures r.Info? ==>
      && r.rows == d.rows && r.columns == |d.columns|
      && r.columnNames == Names(d) && |r.columnNames| == r.columns
      && r.dataTypes.Keys == r.missingValues.Keys == r.sampleData.Keys
      && r.dataTypes.Keys == set i | 0 <= i < |d.columns| :: d.columns[i].name
    ensures r.Info? ==> forall i :: 0 <= i < |d.columns| ==>
      var c := d.columns[i];
      && r.dataTypes[c.name] == c.kind
      && r.missingValues[c.name] == |set row | 0 <= row < r.rows && c.cells[row].None?| <= r.rows
      && r.sampleData[c.name] == c.cells[..Min(SampleRows, r.rows)]
  {
    if Empty(d) then NoData("No data available")
    else
      var cols := d.columns;
      var names := Names(d);
      assert NoDuplicates(names);
      forall i | 0 <= i < |cols|
        ensures MissingCount(cols[i].cells) == |set row | 0 <= row < d.rows && cols[i].cells[row].None?|
      {
        MissingCountIsMissingRows(cols[i].cells);
      }
      Info(
        d.rows,
        |cols|,
        names,
        Keyed(names, seq(|cols|, i requires 0 <= i < |cols| => cols[i].kind)),
        Keyed(names, seq(|cols|, i requires 0 <= i < |cols| => MissingCount(cols[i].cells))),
        Keyed(names, seq(|cols|, i requires 0 <= i < |cols| => cols[i].cells[..Min(SampleRows, d.rows)])))
  }
}
