/** `identify_missing_data` and `handle_missing_data`: counting the missing
    cells of each column, and filling them in place on the DataFrame. */
module MissingData {
  import opened DataTable
  import opened Statistics

  // ---------------------------------------------------------------------------
  // identify_missing_data
  // ---------------------------------------------------------------------------

  /** `series.isnull().sum()`, counted from the last cell backwards. */
  function NullCount(cells: seq<Cell>): nat {
    if cells == [] then 0
    else NullCount(cells[..|cells| - 1]) + (if cells[|cells| - 1].Null? then 1 else 0)
  }

  /** The positions of the missing cells of a column. */
  function NullPositions(cells: seq<Cell>): set<nat> {
    set k: nat | k < |cells| && cells[k].Null?
  }

  /** `series.isnull().any()`. */
  predicate HasNull(cells: seq<Cell>) {
    exists k :: 0 <= k < |cells| && cells[k].Null?
  }

  /** The count is the number of missing cells. */
  lemma {:induction false} NullCountIsNullPositions(cells: seq<Cell>)
    ensures NullCount(cells) == |NullPositions(cells)|
    ensures NullCount(cells) > 0 <==> HasNull(cells)
  {
    if cells != [] {
      var n := |cells| - 1;
      var init := cells[..n];
      NullCountIsNullPositions(init);
      if cells[n].Null? {
        assert NullPositions(cells) == NullPositions(init) + {n};
        assert n in NullPositions(cells);
      } else {
        assert NullPositions(cells) == NullPositions(init);
      }
      if HasNull(init) {
        var k :| 0 <= k < |init| && init[k].Null?;
        assert cells[k] == init[k];
      }
      if HasNull(cells) {
        var k :| 0 <= k < |cells| && cells[k].Null?;
        if k < n { assert init[k] == cells[k]; }
      }
    }
  }

  /** `df.isnull().sum().to_dict()`: the missing-cell count of every column, by name. */
  function IdentifyMissingData(t: Table): (report: map<string, nat>)
    requires WellFormed(t)
    ensures report.Keys == set j | 0 <= j < |t.columns| :: t.columns[j].name
    ensures forall j :: 0 <= j < |t.columns| ==> report[t.columns[j].name] == |NullPositions(t.columns[j].cells)|
  {
    forall j | 0 <= j < |t.columns| ensures NullCount(t.columns[j].cells) == |NullPositions(t.columns[j].cells)| {
      NullCountIsNullPositions(t.columns[j].cells);
    }
    map j | 0 <= j < |t.columns| :: t.columns[j].name := NullCount(t.columns[j].cells)
  }

  // ---------------------------------------------------------------------------
  // handle_missing_data
  // ---------------------------------------------------------------------------

  /** `df.isnull().sum().sum()`. */
  function TotalNulls(cols: seq<Column>): nat {
    if cols == [] then 0
    else TotalNulls(cols[..|cols| - 1]) + NullCount(cols[|cols| - 1].cells)
  }

  const NoMissingMessage := "No missing values to handle."

  function NumericFillMessage(name: string): string {
    "Missing values in numeric column '" + name + "' replaced with mean value."
  }

  function StringFillMessage(name: string): string {
    "Missing values in string column '" + name + "' replaced with 'unknown'."
  }

  /** The message emitted for a column that had missing cells. */
  function FillMessage(c: Column): string {
    if IsNumericDtype(c.kind) then NumericFillMessage(c.name) else StringFillMessage(c.name)
  }

  /** `series.mean()` as a cell: the mean of no values is NaN, which is still missing. */
  function MeanCell(cells: seq<Cell>): Cell {
    match Mean(NumericValues(cells))
    case None => Null
    case Some(m) => Num(m)
  }

  /** What `fillna` puts into the missing cells of the column. */
  function FillValue(c: Column): Cell {
    if IsNumericDtype(c.kind) then MeanCell(c.cells) else Str("unknown")
  }

  /** `series.fillna(v)`: missing cells become `v`, the others stay. */
  function FillNulls(cells: seq<Cell>, v: Cell): (r: seq<Cell>)
    ensures |r| == |cells|
  {
    seq(|cells|, k requires 0 <= k < |cells| => if cells[k].Null? then v else cells[k])
  }

  /** One turn of the loop of `handle_missing_data`. */
  function ImputeColumn(c: Column): Column {
    if HasNull(c.cells) then c.(cells := FillNulls(c.cells, FillValue(c))) else c
  }

  /** The messages the loop has emitted after visiting `cols`. */
  function FillMessages(cols: seq<Column>): seq<string> {
    if cols == [] then []
    else
      var c := cols[|cols| - 1];
      var init := FillMessages(cols[..|cols| - 1]);
      if HasNull(c.cells) then init + [FillMessage(c)] else init
  }

  /** The table `handle_missing_data` leaves behind. */
  function Imputed(t: Table): Table {
    if TotalNulls(t.columns) == 0 then t
    else Table(seq(|t.columns|, j requires 0 <= j < |t.columns| => ImputeColumn(t.columns[j])), t.rows)
  }

  /** The messages `handle_missing_data` returns. */
  function HandleMessages(t: Table): seq<string> {
    if TotalNulls(t.columns) == 0 then [NoMissingMessage] else FillMessages(t.columns)
  }

  /** The DataFrame `df` itself, which `fillna(..., inplace=True)` updates. */
  class Frame {
    var columns: seq<Column>
    const rows: nat

    function Value(): Table
      reads this
    {
      Table(columns, rows)
    }

    /** `pd.DataFrame(csv_instance.csv_data)`. */
    constructor (t: Table)
      ensures Value() == t
    {
      columns := t.columns;
      rows := t.rows;
    }

    /** `df[column].fillna(v, inplace=True)` on the column at position `j`. */
    method FillNa(j: nat, v: Cell)
      requires j < |columns|
      modifies this
      ensures columns == old(columns)[j := old(columns)[j].(cells := FillNulls(old(columns)[j].cells, v))]
    {
      var column := columns[j];
      columns := columns[j := column.(cells := FillNulls(column.cells, v))];
    }

    /** Fills every missing cell in place and reports, column by column, what was filled. */
    method HandleMissingData() returns (messages: seq<string>)
      modifies this
      ensures Value() == Imputed(old(Value()))
      ensures messages == HandleMessages(old(Value()))
    {
      messages := [];
      if TotalNulls(columns) == 0 {
        messages := messages + [NoMissingMessage];
        return;
      }
      var j := 0;
      while j < |columns|
        invariant j <= |columns| == |old(columns)|
        invariant forall i :: 0 <= i < j ==> columns[i] == ImputeColumn(old(columns)[i])
        invariant forall i :: j <= i < |columns| ==> columns[i] == old(columns)[i]
        invariant messages == FillMessages(old(columns)[..j])
      {
        var column := columns[j];
        assert old(columns)[..j + 1][..j] == old(columns)[..j];
        if HasNull(column.cells) {
          if IsNumericDtype(column.kind) {
            FillNa(j, MeanCell(column.cells));
            messages := messages + [NumericFillMessage(column.name)];
          } else {
            FillNa(j, Str("unknown"));
            messages := messages + [StringFillMessage(column.name)];
          }
        }
        j := j + 1;
      }
      assert old(columns)[..j] == old(columns);
    }
  }

  // ---------------------------------------------------------------------------
  // Properties of handle_missing_data
  // ---------------------------------------------------------------------------

  lemma {:induction false} TotalNullsZero(cols: seq<Column>)
    ensures TotalNulls(cols) == 0 <==> forall j :: 0 <= j < |cols| ==> !HasNull(cols[j].cells)
  {
    if cols != [] {
      var init := cols[..|cols| - 1];
      TotalNullsZero(init);
      NullCountIsNullPositions(cols[|cols| - 1].cells);
      assert forall j :: 0 <= j < |init| ==> init[j] == cols[j];
    }
  }

  /** A message for a column is emitted exactly when that column has a missing cell. */
  lemma {:induction false} FillMessagesExact(cols: seq<Column>)
    ensures forall m :: m in FillMessages(cols) <==>
      exists j :: 0 <= j < |cols| && HasNull(cols[j].cells) && m == FillMessage(cols[j])
  {
    if cols != [] {
      var init := cols[..|cols| - 1];
      FillMessagesExact(init);
      forall m ensures m in FillMessages(cols) <==>
        exists j :: 0 <= j < |cols| && HasNull(cols[j].cells) && m == FillMessage(cols[j])
      {
        if m in FillMessages(init) {
          var j :| 0 <= j < |init| && HasNull(init[j].cells) && m == FillMessage(init[j]);
          assert cols[j] == init[j];
        }
        if j :| 0 <= j < |cols| && HasNull(cols[j].cells) && m == FillMessage(cols[j]) {
          if j < |init| {
            assert cols[j] == init[j];
          }
        }
      }
    }
  }

  /** The positions of the columns that have a missing cell. */
  function ColumnsWithNulls(cols: seq<Column>): set<nat> {
    set j: nat | j < |cols| && HasNull(cols[j].cells)
  }

  /** Exactly one message per column that had a missing cell. */
  lemma {:induction false} FillMessagesCount(cols: seq<Column>)
    ensures |FillMessages(cols)| == |ColumnsWithNulls(cols)|
  {
    if cols != [] {
      var n := |cols| - 1;
      var init := cols[..n];
      FillMessagesCount(init);
      assert forall j :: 0 <= j < n ==> init[j] == cols[j];
      if HasNull(cols[n].cells) {
        assert ColumnsWithNulls(cols) == ColumnsWithNulls(init) + {n};
      } else {
        assert ColumnsWithNulls(cols) == ColumnsWithNulls(init);
      }
    }
  }

  lemma FillMessageIsNotNoMissing(c: Column)
    ensures FillMessage(c) != NoMissingMessage
  {
    assert FillMessage(c)[0] == 'M';
  }

  /** The table has no missing cell exactly when the single "No missing values"
      message comes back, and then the table is left as it was. */
  lemma NoMissingValues(t: Table)
    ensures TotalNulls(t.columns) == 0 <==> HandleMessages(t) == [NoMissingMessage]
    ensures TotalNulls(t.columns) == 0 ==> Imputed(t) == t
  {
    if TotalNulls(t.columns) != 0 {
      TotalNullsZero(t.columns);
      var j :| 0 <= j < |t.columns| && HasNull(t.columns[j].cells);
      FillMessagesExact(t.columns);
      var m := FillMessage(t.columns[j]);
      assert m in HandleMessages(t);
      FillMessageIsNotNoMissing(t.columns[j]);
    }
  }

  /** Which value each former missing cell holds afterwards; nothing else changes. */
  lemma ImputedCells(t: Table)
    ensures Imputed(t).rows == t.rows && |Imputed(t).columns| == |t.columns|
    ensures forall j :: 0 <= j < |t.columns| ==>
      Imputed(t).columns[j].name == t.columns[j].name && Imputed(t).columns[j].kind == t.columns[j].kind &&
      |Imputed(t).columns[j].cells| == |t.columns[j].cells|
    ensures forall j, k :: 0 <= j < |t.columns| && 0 <= k < |t.columns[j].cells| ==>
      var before := t.columns[j];
      var after := Imputed(t).columns[j].cells[k];
      var values := NumericValues(before.cells);
      && (!before.cells[k].Null? ==> after == before.cells[k])
      && (before.cells[k].Null? && !IsNumericDtype(before.kind) ==> after == Str("unknown"))
      && (before.cells[k].Null? && IsNumericDtype(before.kind) && values != [] ==>
            after == Num(Sum(values) / |values| as real))
      && (before.cells[k].Null? && IsNumericDtype(before.kind) && values == [] ==> after.Null?)
  {
    if TotalNulls(t.columns) == 0 {
      TotalNullsZero(t.columns);
    }
  }

  /** After the fill the report counts no missing cell anywhere, except in a
      numeric column that had no value at all, which stays entirely missing. */
  lemma ImputedReport(t: Table)
    requires WellFormed(t)
    ensures WellFormed(Imputed(t))
    ensures |Imputed(t).columns| == |t.columns|
    ensures forall j :: 0 <= j < |t.columns| ==> Imputed(t).columns[j].name == t.columns[j].name
    ensures forall j :: 0 <= j < |t.columns| ==>
      IdentifyMissingData(Imputed(t))[t.columns[j].name] ==
        if IsNumericDtype(t.columns[j].kind) && NumericValues(t.columns[j].cells) == [] then t.rows else 0
  {
    ImputedWellFormed(t);
    ImputedCells(t);
    var t' := Imputed(t);
    forall j | 0 <= j < |t.columns|
      ensures IdentifyMissingData(t')[t.columns[j].name] ==
        if IsNumericDtype(t.columns[j].kind) && NumericValues(t.columns[j].cells) == [] then t.rows else 0
    {
      var c, c' := t.columns[j], t'.columns[j];
      assert IdentifyMissingData(t')[t'.columns[j].name] == |NullPositions(c'.cells)|;
      NullCountIsNullPositions(c'.cells);
      NumericValuesEmpty(c.cells);
      if IsNumericDtype(c.kind) && NumericValues(c.cells) == [] {
        assert forall k :: 0 <= k < t.rows ==> c.cells[k].Null?;
        AllNullCount(c'.cells);
      }
    }
  }

  lemma {:induction false} AllNullCount(cells: seq<Cell>)
    requires forall k :: 0 <= k < |cells| ==> cells[k].Null?
    ensures NullCount(cells) == |cells|
  {
    if cells != [] {
      AllNullCount(cells[..|cells| - 1]);
    }
  }

  /** The filled table is still a well-formed DataFrame: a float column is filled
      with a number or left missing, any other column with the string. */
  lemma ImputedWellFormed(t: Table)
    requires WellFormed(t)
    ensures WellFormed(Imputed(t))
  {
    ImputedCells(t);
  }

  lemma FillNullsTwice(cells: seq<Cell>, v: Cell)
    ensures FillNulls(FillNulls(cells, v), v) == FillNulls(cells, v)
    ensures v.Null? ==> FillNulls(cells, v) == cells
    ensures !v.Null? ==> !HasNull(FillNulls(cells, v))
  {
  }

  lemma ImputeColumnTwice(c: Column)
    ensures ImputeColumn(ImputeColumn(c)) == ImputeColumn(c)
  {
    if HasNull(c.cells) {
      FillNullsTwice(c.cells, FillValue(c));
    }
  }

  /** Handling the missing data a second time changes nothing more. */
  lemma ImputedIdempotent(t: Table)
    ensures Imputed(Imputed(t)) == Imputed(t)
  {
    if TotalNulls(t.columns) != 0 {
      var t' := Imputed(t);
      forall j | 0 <= j < |t.columns| ensures ImputeColumn(t'.columns[j]) == t'.columns[j] {
        ImputeColumnTwice(t.columns[j]);
      }
    }
  }
}
