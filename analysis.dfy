/** The read-only views of `csvapp/views.py`: the row preview, the column
    statistics with their diagnostic messages, and the heatmap decision. */
module Analysis {
  import opened DataTable
  import opened Statistics

  // ---------------------------------------------------------------------------
  // display_first_10_rows
  // ---------------------------------------------------------------------------

  /** One entry of a `to_dict('records')` row: column name and cell, in column order. */
  datatype Field = Field(name: string, value: Cell)
  type Row = seq<Field>

  /** `df.head(n)`: every column cut to its first min(n, rows) cells. */
  function Head(t: Table, n: nat): (r: Table)
    requires WellFormed(t)
    ensures WellFormed(r)
    ensures r.rows == Min(n, t.rows) && |r.columns| == |t.columns|
    ensures forall j :: 0 <= j < |t.columns| ==>
      r.columns[j].name == t.columns[j].name && r.columns[j].kind == t.columns[j].kind &&
      r.columns[j].cells == t.columns[j].cells[..r.rows]
  {
    var m := Min(n, t.rows);
    Table(seq(|t.columns|, j requires 0 <= j < |t.columns| => t.columns[j].(cells := t.columns[j].cells[..m])), m)
  }

  /** The values at position `j` of every row: a column read back from the records. */
  function FieldValues(rows: seq<Row>, j: nat): seq<Cell>
    requires forall i :: 0 <= i < |rows| ==> j < |rows[i]|
  {
    seq(|rows|, i requires 0 <= i < |rows| => rows[i][j].value)
  }

  /** `df.to_dict('records')`: one row per index position, keyed by the column
      names in column order; reading the records back column by column gives
      the table's columns again. */
  function Records(t: Table): (rows: seq<Row>)
    requires WellFormed(t)
    ensures |rows| == t.rows
    ensures forall i :: 0 <= i < |rows| ==>
      (|rows[i]| == |t.columns| && forall j :: 0 <= j < |t.columns| ==> rows[i][j].name == t.columns[j].name)
    ensures forall j :: 0 <= j < |t.columns| ==> FieldValues(rows, j) == t.columns[j].cells
  {
    seq(t.rows, i requires 0 <= i < t.rows =>
      seq(|t.columns|, j requires 0 <= j < |t.columns| => Field(t.columns[j].name, t.columns[j].cells[i])))
  }

  /** The preview is the first min(10, rows) rows of the table, in order. */
  function DisplayFirst10Rows(t: Table): (rows: seq<Row>)
    requires WellFormed(t)
    ensures |rows| == Min(10, t.rows)
    ensures rows == Records(t)[..|rows|]
  {
    var head := Head(t, 10);
    var rows := Records(head);
    assert rows == Records(t)[..|rows|] by {
      forall i | 0 <= i < |rows| ensures rows[i] == Records(t)[i] {
        assert forall j :: 0 <= j < |t.columns| ==> head.columns[j].cells[i] == t.columns[j].cells[i];
      }
    }
    rows
  }

  // ---------------------------------------------------------------------------
  // calculate_mean_median_std
  // ---------------------------------------------------------------------------

  /** One `results[column]` entry; the results dict keeps insertion order. */
  datatype StatsEntry = StatsEntry(column: string, stats: ColumnStats)

  function NonNumericMessage(name: string): string {
    "Column '" + name + "' contains non-numeric data and cannot be processed."
  }

  /** The results the loop has built after visiting `cols`, in column order. */
  function StatsEntries(cols: seq<Column>): seq<StatsEntry> {
    if cols == [] then []
    else
      var c := cols[|cols| - 1];
      var init := StatsEntries(cols[..|cols| - 1]);
      if IsNumericDtype(c.kind) then init + [StatsEntry(c.name, Describe(c.cells))] else init
  }

  /** The messages the loop has built after visiting `cols`, in column order. */
  function StatsMessages(cols: seq<Column>): seq<string> {
    if cols == [] then []
    else
      var c := cols[|cols| - 1];
      var init := StatsMessages(cols[..|cols| - 1]);
      if IsNumericDtype(c.kind) then init else init + [NonNumericMessage(c.name)]
  }

  method CalculateMeanMedianStd(t: Table) returns (results: seq<StatsEntry>, messages: seq<string>)
    ensures results == StatsEntries(t.columns)
    ensures messages == StatsMessages(t.columns)
  {
    results, messages := [], [];
    var j := 0;
    while j < |t.columns|
      invariant j <= |t.columns|
      invariant results == StatsEntries(t.columns[..j])
      invariant messages == StatsMessages(t.columns[..j])
    {
      var column := t.columns[j];
      assert t.columns[..j + 1][..j] == t.columns[..j];
      if IsNumericDtype(column.kind) {
        results := results + [StatsEntry(column.name, Describe(column.cells))];
      } else {
        messages := messages + [NonNumericMessage(column.name)];
      }
      j := j + 1;
    }
    assert t.columns[..j] == t.columns;
  }

  /** Every column lands in exactly one place: a results entry or a message. */
  lemma {:induction false} StatsPartition(cols: seq<Column>)
    ensures |StatsEntries(cols)| + |StatsMessages(cols)| == |cols|
  {
    if cols != [] {
      StatsPartition(cols[..|cols| - 1]);
    }
  }

  /** The results hold exactly the numeric columns, each with its own statistics. */
  lemma {:induction false} StatsEntriesExact(cols: seq<Column>)
    ensures forall j :: 0 <= j < |cols| && IsNumericDtype(cols[j].kind) ==>
      StatsEntry(cols[j].name, Describe(cols[j].cells)) in StatsEntries(cols)
    ensures forall e :: e in StatsEntries(cols) ==>
      exists j :: 0 <= j < |cols| && IsNumericDtype(cols[j].kind) &&
        e == StatsEntry(cols[j].name, Describe(cols[j].cells))
  {
    if cols != [] {
      var init := cols[..|cols| - 1];
      StatsEntriesExact(init);
      forall e | e in StatsEntries(cols)
        ensures exists j :: (0 <= j < |cols| && IsNumericDtype(cols[j].kind) &&
                             e == StatsEntry(cols[j].name, Describe(cols[j].cells)))
      {
        if e in StatsEntries(init) {
          var j :| 0 <= j < |init| && IsNumericDtype(init[j].kind) &&
            e == StatsEntry(init[j].name, Describe(init[j].cells));
          assert cols[j] == init[j];
        }
      }
      forall j | 0 <= j < |cols| && IsNumericDtype(cols[j].kind)
        ensures StatsEntry(cols[j].name, Describe(cols[j].cells)) in StatsEntries(cols)
      {
        if j < |init| {
          assert cols[j] == init[j];
        }
      }
    }
  }

  /** The messages are exactly one diagnostic per non-numeric column. */
  lemma {:induction false} StatsMessagesExact(cols: seq<Column>)
    ensures forall m :: m in StatsMessages(cols) <==>
      exists j :: 0 <= j < |cols| && !IsNumericDtype(cols[j].kind) && m == NonNumericMessage(cols[j].name)
  {
    if cols != [] {
      var init := cols[..|cols| - 1];
      StatsMessagesExact(init);
      forall m ensures m in StatsMessages(cols) <==>
        exists j :: 0 <= j < |cols| && !IsNumericDtype(cols[j].kind) && m == NonNumericMessage(cols[j].name)
      {
        if m in StatsMessages(init) {
          var j :| 0 <= j < |init| && !IsNumericDtype(init[j].kind) && m == NonNumericMessage(init[j].name);
          assert cols[j] == init[j];
        }
        if j :| 0 <= j < |cols| && !IsNumericDtype(cols[j].kind) && m == NonNumericMessage(cols[j].name) {
          if j < |init| {
            assert cols[j] == init[j];
          }
        }
      }
    }
  }

  /** With unique column names the results have unique keys: one result per column. */
  lemma {:induction false} StatsKeysUnique(cols: seq<Column>)
    requires UniqueNames(cols)
    ensures forall a, b :: 0 <= a < b < |StatsEntries(cols)| ==>
      StatsEntries(cols)[a].column != StatsEntries(cols)[b].column
  {
    if cols != [] {
      var init := cols[..|cols| - 1];
      var c := cols[|cols| - 1];
      assert UniqueNames(init);
      StatsKeysUnique(init);
      StatsEntriesExact(init);
      var es := StatsEntries(init);
      forall a | 0 <= a < |es| ensures es[a].column != c.name {
        assert es[a] in es;
        var j :| 0 <= j < |init| && IsNumericDtype(init[j].kind) &&
          es[a] == StatsEntry(init[j].name, Describe(init[j].cells));
        assert init[j] == cols[j];
      }
    }
  }

  // ---------------------------------------------------------------------------
  // generate_heatmap
  // ---------------------------------------------------------------------------

  datatype ChartKind = Heatmap | Histograms | ScatterPlotMatrix | ViolinPlot

  /** An encoded image, identified by the kind of chart and the table drawn. */
  datatype Chart = Chart(kind: ChartKind, data: Table)

  /** `df.select_dtypes(include=['float64', 'int64']).columns`, in column order. */
  function HeatmapColumns(cols: seq<Column>): (r: seq<Column>)
    ensures forall c :: c in r <==> c in cols && IsHeatmapDtype(c.kind)
  {
    if cols == [] then []
    else
      var c := cols[|cols| - 1];
      var init := HeatmapColumns(cols[..|cols| - 1]);
      assert cols == cols[..|cols| - 1] + [c];
      if IsHeatmapDtype(c.kind) then init + [c] else init
  }

  /** No image exactly when the int64/float64 part of the table is empty:
      no such column, or no rows at all. */
  function GenerateHeatmap(t: Table): (r: Option<Chart>)
    ensures r.None? <==> t.rows == 0 || forall c :: c in t.columns ==> !IsHeatmapDtype(c.kind)
    ensures r.Some? ==> (r.value.kind == Heatmap && r.value.data.rows == t.rows &&
                         forall c :: c in r.value.data.columns <==> c in t.columns && IsHeatmapDtype(c.kind))
  {
    var numeric := Table(HeatmapColumns(t.columns), t.rows);
    if numeric.columns == [] || numeric.rows == 0 then None
    else
      assert numeric.columns[0] in numeric.columns;
      Some(Chart(Heatmap, numeric))
  }

  /** Every column the heatmap draws also gets a statistics entry. */
  lemma HeatmapColumnsHaveStats(t: Table, c: Column)
    requires GenerateHeatmap(t).Some? && c in GenerateHeatmap(t).value.data.columns
    ensures StatsEntry(c.name, Describe(c.cells)) in StatsEntries(t.columns)
  {
    StatsEntriesExact(t.columns);
    var j :| 0 <= j < |t.columns| && t.columns[j] == c;
  }

  /** The two numeric tests differ: a boolean column gets statistics but no heatmap. */
  lemma BoolColumnGetsStatsButNoHeatmap()
    ensures var t := Table([Column("flag", Bool, [Flag(true), Flag(false)])], 2);
      WellFormed(t) && |StatsEntries(t.columns)| == 1 && GenerateHeatmap(t).None?
  {
    var t := Table([Column("flag", Bool, [Flag(true), Flag(false)])], 2);
    assert t.columns[..0] == [];
  }
}
