/** The abstract table that stands in for the pandas DataFrame the views work on.

    A table is an ordered sequence of uniquely named columns that all hold the
    same number of cells. Each column carries the dtype pandas inferred for it
    when the stored JSON records were loaded; that dtype is taken as given. */
module DataTable {

  datatype Option<+T> = None | Some(value: T)

  /** The dtypes a DataFrame built from JSON records can carry. */
  datatype Kind = Int64 | Float64 | Bool | Object

  /** A cell: null (None or NaN), a number, a boolean or a string. */
  datatype Cell = Null | Num(x: real) | Flag(b: bool) | Str(s: string)

  datatype Column = Column(name: string, kind: Kind, cells: seq<Cell>)

  /** `rows` is the length of the DataFrame's index. */
  datatype Table = Table(columns: seq<Column>, rows: nat)

  /** The `pd.api.types.is_numeric_dtype` test: integers, floats and booleans. */
  predicate IsNumericDtype(k: Kind) {
    k != Object
  }

  /** The `select_dtypes(include=['float64', 'int64'])` test used by the heatmap. */
  predicate IsHeatmapDtype(k: Kind) {
    k == Int64 || k == Float64
  }

  /** Which cells a column of dtype `k` can hold: an int64 or bool column has
      no missing values (pandas would have widened it to float64 or object). */
  predicate CellFits(k: Kind, c: Cell) {
    match k
    case Int64 => c.Num? && c.x.Floor as real == c.x
    case Float64 => c.Null? || c.Num?
    case Bool => c.Flag?
    case Object => true
  }

  predicate ColumnWellFormed(c: Column, rows: nat) {
    |c.cells| == rows && forall k :: 0 <= k < rows ==> CellFits(c.kind, c.cells[k])
  }

  predicate UniqueNames(cols: seq<Column>) {
    forall i, j :: 0 <= i < j < |cols| ==> cols[i].name != cols[j].name
  }

  /** The shape every DataFrame has. */
  predicate WellFormed(t: Table) {
    && UniqueNames(t.columns)
    && forall j :: 0 <= j < |t.columns| ==> ColumnWellFormed(t.columns[j], t.rows)
  }

  function Min(a: nat, b: nat): nat {
    if a <= b then a else b
  }
}
