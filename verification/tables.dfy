/** The `table` block renderer shared by the blog layouts
    (components/blog/shared/PortableTextTable.tsx). */
module PortableTextTable {
  import opened Wrappers

  /** One row of an authored table: a stable key and its cells, in order. */
  datatype TableRow = TableRow(key: string, cells: seq<string>)

  /** The table block's payload; `rows` may be missing from the payload. */
  datatype TableValue = TableValue(rows: Option<seq<TableRow>>)

  /** A header cell and a body cell, each keyed by its column position. */
  datatype HeaderCell = Th(key: nat, text: string)
  datatype DataCell = Td(key: nat, text: string)

  /** A body row, keyed by the authored row key, with its cells. */
  datatype BodyRow = Tr(key: string, cells: seq<DataCell>)

  /** What the component renders: the `<thead>` row and the `<tbody>` rows. */
  datatype TableView = TableView(header: seq<HeaderCell>, body: seq<BodyRow>)

  /** The header row: one cell per entry of the first row, keyed by its position. */
  function HeaderCells(cells: seq<string>): (r: seq<HeaderCell>)
    ensures |r| == |cells|
    ensures forall i :: 0 <= i < |r| ==> r[i] == Th(i, cells[i])
  {
    seq(|cells|, i requires 0 <= i < |cells| => Th(i, cells[i]))
  }

  /** A body row: one cell per entry, keyed by its position, under the row's own key. */
  function RenderRow(row: TableRow): (r: BodyRow)
    ensures r.key == row.key && |r.cells| == |row.cells|
    ensures forall i :: 0 <= i < |r.cells| ==> r.cells[i] == Td(i, row.cells[i])
  {
    Tr(row.key, seq(|row.cells|, i requires 0 <= i < |row.cells| => Td(i, row.cells[i])))
  }

  /** The body rows: one output row per input row, in order. */
  function RenderRows(rows: seq<TableRow>): (r: seq<BodyRow>)
    ensures |r| == |rows|
    ensures forall j :: 0 <= j < |r| ==> r[j] == RenderRow(rows[j])
  {
    if rows == [] then [] else [RenderRow(rows[0])] + RenderRows(rows[1..])
  }

  /** True when the value, its rows, or every row is absent: the component renders nothing. */
  predicate NoRows(value: Option<TableValue>) {
    value.None? || value.value.rows.None? || |value.value.rows.value| == 0
  }

  /** The component: no output for a missing value, missing rows or zero rows;
      otherwise the first row is the header and the remaining rows the body. */
  function RenderTable(value: Option<TableValue>): (r: Option<TableView>)
    ensures r.None? <==> NoRows(value)
    ensures r.Some? ==>
      var rows := value.value.rows.value;
      |r.value.header| == |rows[0].cells| && |r.value.body| == |rows| - 1
  {
    if NoRows(value) then None
    else
      var rows := value.value.rows.value;
      Some(TableView(HeaderCells(rows[0].cells), RenderRows(rows[1..])))
  }

  /** The texts of a rendered row of cells, read back in order. */
  function HeaderTexts(cells: seq<HeaderCell>): (r: seq<string>)
    ensures |r| == |cells|
  {
    seq(|cells|, i requires 0 <= i < |cells| => cells[i].text)
  }

  function DataTexts(cells: seq<DataCell>): (r: seq<string>)
    ensures |r| == |cells|
  {
    seq(|cells|, i requires 0 <= i < |cells| => cells[i].text)
  }

  /** The grid of cell texts a reader sees: the header row, then every body row. */
  function ViewGrid(v: TableView): (g: seq<seq<string>>)
    ensures |g| == 1 + |v.body|
  {
    [HeaderTexts(v.header)] + seq(|v.body|, j requires 0 <= j < |v.body| => DataTexts(v.body[j].cells))
  }

  /** The grid of cell texts the author wrote. */
  function Grid(rows: seq<TableRow>): (g: seq<seq<string>>)
    ensures |g| == |rows|
  {
    seq(|rows|, j requires 0 <= j < |rows| => rows[j].cells)
  }

  /** Reading the rendered table back gives exactly the authored grid: rows and cells keep
      their order, the header is emitted once (not repeated in the body), and every row
      has exactly its own cells, with no padding or truncation to the header's width. */
  lemma RenderedGridIsAuthoredGrid(rows: seq<TableRow>)
    requires |rows| > 0
    ensures RenderTable(Some(TableValue(Some(rows)))).Some?
    ensures ViewGrid(RenderTable(Some(TableValue(Some(rows)))).value) == Grid(rows)
  {
    var v := RenderTable(Some(TableValue(Some(rows)))).value;
    var g, h := ViewGrid(v), Grid(rows);
    forall j | 0 <= j < |rows| ensures g[j] == h[j] {
      if j == 0 {
        assert v.header == HeaderCells(rows[0].cells);
      } else {
        assert v.body[j - 1] == RenderRow(rows[j]);
        assert g[j] == DataTexts(v.body[j - 1].cells);
      }
    }
  }

  /** Body rows carry the keys of rows[1..], in order: the header row's key is not among
      the rendered body rows unless a later row shares it. */
  lemma BodyRowsAreTail(rows: seq<TableRow>)
    requires |rows| > 0
    ensures var v := RenderTable(Some(TableValue(Some(rows)))).value;
      |v.body| == |rows| - 1 &&
      forall j :: 0 <= j < |v.body| ==> v.body[j].key == rows[j + 1].key
  {
  }

  /** A one-row table renders a header and an empty body. */
  lemma SingleRowTable(row: TableRow)
    ensures RenderTable(Some(TableValue(Some([row])))) == Some(TableView(HeaderCells(row.cells), []))
  {
  }

  /** Example: a header ["Metric","Value"] and one row ["SOH","92%"] give exactly one
      header row and one body row, in that order. */
  lemma MetricTableExample()
    ensures var v := RenderTable(Some(TableValue(Some([TableRow("h", ["Metric", "Value"]), TableRow("r1", ["SOH", "92%"])])))).value;
      HeaderTexts(v.header) == ["Metric", "Value"] && |v.body| == 1 &&
      v.body[0].key == "r1" && DataTexts(v.body[0].cells) == ["SOH", "92%"]
  {
    var rows := [TableRow("h", ["Metric", "Value"]), TableRow("r1", ["SOH", "92%"])];
    RenderedGridIsAuthoredGrid(rows);
    var v := RenderTable(Some(TableValue(Some(rows)))).value;
    assert ViewGrid(v)[0] == ["Metric", "Value"];
    assert ViewGrid(v)[1] == ["SOH", "92%"];
  }
}
