/**
  The table renderer (`createTable`): a heading row, then either one value
  cell per heading or a single spanning placeholder cell.
 */
module Tables {
  import opened JsValues

  /** A table cell: what its text shows, and how many columns it spans. */
  datatype Cell = Cell(content: Value, colSpan: nat)

  /** A rendered table; `displayBlock` records `style.display = "block"`. */
  datatype Table = Table(rows: seq<seq<Cell>>, displayBlock: bool)

  const NotAvailable := "Data not available"
  const RainfallHeading := "Rainfall Probability"

  /** The default heading-to-property map of `createTable`. */
  const HeadingMap: map<string, string> := map[
    "Location" := "location",
    "Region" := "region",
    "Country" := "country",
    "Latitude" := "lat",
    "Longitude" := "lon",
    "Time of Day" := "time",
    "Temperature" := "temp_c",
    "Humidity" := "humidity",
    "Wind Speed" := "wind_kph",
    "Cloud Cover" := "cloud",
    "Rainfall Probability" := "rain_prob",
    "CO (\U{00B5}g/m\U{00B3})" := "co",
    "NO2 (\U{00B5}g/m\U{00B3})" := "no2",
    "O3 (\U{00B5}g/m\U{00B3})" := "o3",
    "SO2 (\U{00B5}g/m\U{00B3})" := "so2",
    "PM2.5 (\U{00B5}g/m\U{00B3})" := "pm2_5",
    "PM10 (\U{00B5}g/m\U{00B3})" := "pm10",
    "US EPA Index" := "us-epa-index",
    "GB DEFRA Index" := "gb-defra-index"
  ]

  /** `headingMap[heading]`, with `None` for a heading the map lacks. */
  function MapHeading(headingMap: map<string, string>, heading: string): Option<string> {
    if heading in headingMap then Some(headingMap[heading]) else None
  }

  /** `values[index]`, with `None` past the end of the array. */
  function ValueAt(values: seq<Value>, index: nat): Option<Value> {
    if index < |values| then Some(values[index]) else None
  }

  /** Whether the property a heading maps to is `in` the data object. */
  predicate MappedKeyPresent(data: JsObject, headingMap: map<string, string>, heading: string) {
    MapHeading(headingMap, heading).Some? && MapHeading(headingMap, heading).value in Keys(data)
  }

  /** The successive assignments to the text of the value cell in column
      `index`: the whole `values` array first when the heading is the
      rainfall one, then the value the fallback chain picks. */
  function ValueCellWrites(data: JsObject, headingMap: map<string, string>, values: seq<Value>,
                           heading: string, index: nat): (ws: seq<Value>)
    ensures |ws| == (if heading == RainfallHeading then 2 else 1)
    ensures heading == RainfallHeading ==> ws[0] == List(values)
    ensures forall i :: 0 <= i < |ws| - 1 ==> ws[i] == List(values)
  {
    var early := if heading == RainfallHeading then [List(values)] else [];
    var last :=
      if MappedKeyPresent(data, headingMap, heading) then
        var v := Get(data, headingMap[heading]);
        if v.Some? && v.value != Null then v.value else Str(NotAvailable)
      else
        if index < |values| && values[index] != Null then values[index] else Str(NotAvailable);
    early + [last]
  }

  /** The value cell in column `index`: its text is the last assignment.
      The contract is the fallback chain: the mapped property when the data
      has it and it is not null, the placeholder when it is null, and
      otherwise the positional entry of `values` unless that is missing or
      null. */
  function ValueCell(data: JsObject, headingMap: map<string, string>, values: seq<Value>,
                     heading: string, index: nat): (c: Cell)
    ensures c.colSpan == 1
    ensures MappedKeyPresent(data, headingMap, heading)
            && Get(data, headingMap[heading]) != Some(Null)
            ==> Some(c.content) == Get(data, headingMap[heading])
    ensures MappedKeyPresent(data, headingMap, heading)
            && Get(data, headingMap[heading]) == Some(Null)
            ==> c.content == Str(NotAvailable)
    ensures !MappedKeyPresent(data, headingMap, heading) && ValueAt(values, index).Some?
            && ValueAt(values, index) != Some(Null)
            ==> Some(c.content) == ValueAt(values, index)
    ensures !MappedKeyPresent(data, headingMap, heading)
            && (ValueAt(values, index).None? || ValueAt(values, index) == Some(Null))
            ==> c.content == Str(NotAvailable)
  {
    var ws := ValueCellWrites(data, headingMap, values, heading, index);
    Cell(ws[|ws| - 1], 1)
  }

  /** The rainfall heading's early write never survives. Under the
      program's heading map the "Rainfall Probability" cell gets two writes,
      the `values` array and then the fallback-chain value, and shows the
      second: the `rain_prob` property when the data has it and it is not
      null. It never shows an array unless the chain itself picks one. */
  lemma RainfallWriteOverwritten(data: JsObject, values: seq<Value>, index: nat)
    ensures var c := ValueCell(data, HeadingMap, values, RainfallHeading, index);
            ValueCellWrites(data, HeadingMap, values, RainfallHeading, index) == [List(values), c.content]
    ensures "rain_prob" in Keys(data) && Get(data, "rain_prob") != Some(Null)
            ==> Some(ValueCell(data, HeadingMap, values, RainfallHeading, index).content) == Get(data, "rain_prob")
    ensures (forall k :: k in Keys(data) ==> !Get(data, k).value.List?)
            && (forall i :: 0 <= i < |values| ==> !values[i].List?)
            ==> !ValueCell(data, HeadingMap, values, RainfallHeading, index).content.List?
  {
    assert HeadingMap[RainfallHeading] == "rain_prob";
  }

  /** The heading row: one cell per heading, in order. */
  function HeadingRow(headings: seq<string>): (row: seq<Cell>)
    ensures |row| == |headings|
    ensures forall i :: 0 <= i < |headings| ==> row[i] == Cell(Str(headings[i]), 1)
    decreases |headings|
  {
    if |headings| == 0 then []
    else HeadingRow(headings[..|headings| - 1]) + [Cell(Str(headings[|headings| - 1]), 1)]
  }

  /** The value cells for the first `n` headings, inserted left to right. */
  function ValueRowPrefix(data: JsObject, headingMap: map<string, string>, values: seq<Value>,
                          headings: seq<string>, n: nat): (row: seq<Cell>)
    requires n <= |headings|
    ensures |row| == n
    ensures forall i :: 0 <= i < n ==> row[i] == ValueCell(data, headingMap, values, headings[i], i)
    decreases n
  {
    if n == 0 then []
    else ValueRowPrefix(data, headingMap, values, headings, n - 1)
         + [ValueCell(data, headingMap, values, headings[n - 1], n - 1)]
  }

  function CreateTable(data: Option<JsObject>, headings: seq<string>, values: seq<Value>,
                       headingMap: map<string, string>): (t: Table)
    ensures |t.rows| == 2 && !t.displayBlock
    ensures |t.rows[0]| == |headings|
    ensures forall i :: 0 <= i < |headings| ==> t.rows[0][i] == Cell(Str(headings[i]), 1)
    ensures data.None? ==> t.rows[1] == [Cell(Str(NotAvailable), |headings|)]
    ensures data.Some? ==> |t.rows[1]| == |headings|
    ensures data.Some? ==>
              forall i :: 0 <= i < |headings| ==>
                t.rows[1][i] == ValueCell(data.value, headingMap, values, headings[i], i)
  {
    var head := HeadingRow(headings);
    match data
    case Some(obj) => Table([head, ValueRowPrefix(obj, headingMap, values, headings, |headings|)], false)
    case None => Table([head, [Cell(Str(NotAvailable), |headings|)]], false)
  }

  /** A value cell depends only on its own heading and column: changing the
      other headings leaves it as it was. */
  lemma CellIsLocal(data: JsObject, headingMap: map<string, string>, values: seq<Value>,
                    headings: seq<string>, headings': seq<string>, i: nat)
    requires |headings| == |headings'| && i < |headings| && headings[i] == headings'[i]
    ensures CreateTable(Some(data), headings, values, headingMap).rows[1][i]
            == CreateTable(Some(data), headings', values, headingMap).rows[1][i]
  {
  }
}
