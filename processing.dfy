/** `data_processing_options`: choose the most recent upload, run the selected
    tasks in their fixed order, save one result record per statistics entry,
    and collect what the page shows. */
module Processing {
  import opened DataTable
  import opened Statistics
  import opened Analysis
  import opened MissingData

  /** A stored upload (`CSVFileData`): its primary key and its parsed records. */
  datatype CsvRecord = CsvRecord(id: nat, data: Table)

  /** A saved `ProcessedResults` row. */
  datatype ProcessedResult = ProcessedResult(columnName: string, stats: ColumnStats)

  /** `CSVFileData.objects.order_by('-id').first()`: the record with the highest id, if any. */
  function Latest(store: seq<CsvRecord>): (r: Option<CsvRecord>)
    ensures r.None? <==> store == []
    ensures r.Some? ==> r.value in store && forall x :: x in store ==> x.id <= r.value.id
  {
    if store == [] then None
    else
      var rest := Latest(store[1..]);
      assert forall x :: x in store ==> x == store[0] || x in store[1..];
      if rest.None? || rest.value.id <= store[0].id then Some(store[0]) else rest
  }

  /** The `ProcessedResults` table: rows are only ever appended. */
  class ResultSink {
    var saved: seq<ProcessedResult>

    constructor ()
      ensures saved == []
    {
      saved := [];
    }

    /** `processed_result.save()`. */
    method Save(r: ProcessedResult)
      modifies this
      ensures saved == old(saved) + [r]
    {
      saved := saved + [r];
    }
  }

  /** The rows saved for a statistics result, one per entry and in its order. */
  function SavedResults(results: seq<StatsEntry>): (r: seq<ProcessedResult>)
    ensures |r| == |results|
  {
    seq(|results|, i requires 0 <= i < |results| => ProcessedResult(results[i].column, results[i].stats))
  }

  /** The loop over `mean_median_std_results.items()` that saves one row per entry. */
  method SaveResults(results: seq<StatsEntry>, sink: ResultSink)
    modifies sink
    ensures sink.saved == old(sink.saved) + SavedResults(results)
  {
    var i := 0;
    while i < |results|
      invariant i <= |results|
      invariant sink.saved == old(sink.saved) + SavedResults(results[..i])
    {
      assert SavedResults(results[..i + 1]) == SavedResults(results[..i]) + [ProcessedResult(results[i].column, results[i].stats)];
      sink.Save(ProcessedResult(results[i].column, results[i].stats));
      i := i + 1;
    }
    assert results[..i] == results;
  }

  /** The task identifiers the options page offers. */
  datatype Task =
    | ShowFirstRows | ComputeStats | ShowHeatmap | ReportMissing
    | FillMissing | PlotHistograms | PlotScatterMatrix | PlotViolin

  function TaskName(task: Task): string {
    match task
    case ShowFirstRows => "display_first_10_rows"
    case ComputeStats => "calculate_mean_median_std"
    case ShowHeatmap => "display_heatmap"
    case ReportMissing => "identify_missing_data"
    case FillMissing => "handle_missing_data"
    case PlotHistograms => "generate_histograms"
    case PlotScatterMatrix => "generate_scatter_plot_matrix"
    case PlotViolin => "generate_violin_plot"
  }

  /** `'<task>' in selected_tasks`: identifiers that name no task are never looked at. */
  predicate Selected(tasks: seq<string>, task: Task) {
    TaskName(task) in tasks
  }

  /** The request: whether it is a POST and its `tasks` list. */
  datatype Request = Request(isPost: bool, tasks: seq<string>)

  /** The template context; None stands for a key the page shows as empty. */
  datatype Context = Context(
    firstRows: Option<seq<Row>>,
    heatmap: Option<Chart>,
    missingDataInfo: Option<map<string, nat>>,
    histograms: Option<Chart>,
    scatterPlotMatrix: Option<Chart>,
    violinPlot: Option<Chart>,
    meanMedianStd: Option<seq<StatsEntry>>,
    messages: seq<string>)

  const EmptyContext := Context(None, None, None, None, None, None, None, [])

  const NoCsvMessage := "No CSV file uploaded yet."

  method DataProcessingOptions(request: Request, store: seq<CsvRecord>, sink: ResultSink) returns (context: Context)
    requires forall r :: r in store ==> WellFormed(r.data)
    modifies sink
    ensures !request.isPost ==> context == EmptyContext && sink.saved == old(sink.saved)
    ensures request.isPost && store == [] ==>
      context == EmptyContext.(messages := [NoCsvMessage]) && sink.saved == old(sink.saved)
    ensures request.isPost && store != [] ==>
      var t := Latest(store).value.data;
      var stats := Selected(request.tasks, ComputeStats);
      && context == TaskResults(t, request.tasks)
      && sink.saved == old(sink.saved) + (if stats then SavedResults(StatsEntries(t.columns)) else [])
  {
    if !request.isPost {
      return EmptyContext;
    }
    var latest := Latest(store);
    if latest.None? {
      return EmptyContext.(messages := [NoCsvMessage]);
    }
    var df := new Frame(latest.value.data);
    context := RunTasks(df, request.tasks, sink);
  }

  /** What the page receives when the tasks run on table `t`: the preview, the
      statistics, the heatmap and the report are those of `t`; the three plots
      see the filled table when `handle_missing_data` ran. */
  function TaskResults(t: Table, tasks: seq<string>): (context: Context)
    requires WellFormed(t)
    ensures var stats := Selected(tasks, ComputeStats);
      var handle := Selected(tasks, FillMissing);
      var plotted := if handle then Imputed(t) else t;
      && context.firstRows == (if Selected(tasks, ShowFirstRows) then Some(DisplayFirst10Rows(t)) else None)
      && context.meanMedianStd == (if stats then Some(StatsEntries(t.columns)) else None)
      && context.missingDataInfo == (if Selected(tasks, ReportMissing) then Some(IdentifyMissingData(t)) else None)
      && context.heatmap == (if Selected(tasks, ShowHeatmap) then GenerateHeatmap(t) else None)
      && (context.heatmap.Some? ==> t.rows > 0)
      && (context.histograms.Some? <==> Selected(tasks, PlotHistograms))
      && (context.scatterPlotMatrix.Some? <==> Selected(tasks, PlotScatterMatrix))
      && (context.violinPlot.Some? <==> Selected(tasks, PlotViolin))
      && (context.histograms.Some? ==> context.histograms.value.data == plotted)
      && (context.scatterPlotMatrix.Some? ==> context.scatterPlotMatrix.value.data == plotted)
      && (context.violinPlot.Some? ==> context.violinPlot.value.data == plotted)
      && context.messages ==
           (if stats then StatsMessages(t.columns) else []) + (if handle then HandleMessages(t) else [])
  {
    var stats := Selected(tasks, ComputeStats);
    var handle := Selected(tasks, FillMissing);
    var plotted := if handle then Imputed(t) else t;
    Context(
      if Selected(tasks, ShowFirstRows) then Some(DisplayFirst10Rows(t)) else None,
      if Selected(tasks, ShowHeatmap) then GenerateHeatmap(t) else None,
      if Selected(tasks, ReportMissing) then Some(IdentifyMissingData(t)) else None,
      if Selected(tasks, PlotHistograms) then Some(Chart(Histograms, plotted)) else None,
      if Selected(tasks, PlotScatterMatrix) then Some(Chart(ScatterPlotMatrix, plotted)) else None,
      if Selected(tasks, PlotViolin) then Some(Chart(ViolinPlot, plotted)) else None,
      if stats then Some(StatsEntries(t.columns)) else None,
      (if stats then StatsMessages(t.columns) else []) + (if handle then HandleMessages(t) else []))
  }

  /** The selected tasks, in the order the view runs them, on the DataFrame `df`. */
  method RunTasks(df: Frame, tasks: seq<string>, sink: ResultSink) returns (context: Context)
    requires WellFormed(df.Value())
    modifies df, sink
    ensures context == TaskResults(old(df.Value()), tasks)
    ensures sink.saved == old(sink.saved) +
      (if Selected(tasks, ComputeStats) then SavedResults(StatsEntries(old(df.Value()).columns)) else [])
  {
    ghost var t := df.Value();
    var firstRows: Option<seq<Row>> := None;
    var heatmap: Option<Chart> := None;
    var missingDataInfo: Option<map<string, nat>> := None;
    var histograms: Option<Chart> := None;
    var scatterPlotMatrix: Option<Chart> := None;
    var violinPlot: Option<Chart> := None;
    var meanMedianStd: Option<seq<StatsEntry>> := None;
    var messages: seq<string> := [];

    if Selected(tasks, ShowFirstRows) {
      firstRows := Some(DisplayFirst10Rows(df.Value()));
    }

    if Selected(tasks, ComputeStats) {
      var results, taskMessages := CalculateMeanMedianStd(df.Value());
      meanMedianStd := Some(results);
      messages := messages + taskMessages;
      SaveResults(results, sink);
    }
    assert df.Value() == t;
    assert messages == if Selected(tasks, ComputeStats) then StatsMessages(t.columns) else [];
    assert sink.saved == old(sink.saved) +
      (if Selected(tasks, ComputeStats) then SavedResults(StatsEntries(t.columns)) else []);

    if Selected(tasks, ShowHeatmap) {
      heatmap := GenerateHeatmap(df.Value());
    }

    if Selected(tasks, ReportMissing) {
      missingDataInfo := Some(IdentifyMissingData(df.Value()));
    }

    if Selected(tasks, FillMissing) {
      var handleMessages := df.HandleMissingData();
      messages := messages + handleMessages;
    }
    ghost var plotted := if Selected(tasks, FillMissing) then Imputed(t) else t;
    assert df.Value() == plotted;
    assert messages ==
      (if Selected(tasks, ComputeStats) then StatsMessages(t.columns) else []) +
      (if Selected(tasks, FillMissing) then HandleMessages(t) else []);

    if Selected(tasks, PlotHistograms) {
      histograms := Some(Chart(Histograms, df.Value()));
    }

    if Selected(tasks, PlotScatterMatrix) {
      scatterPlotMatrix := Some(Chart(ScatterPlotMatrix, df.Value()));
    }

    if Selected(tasks, PlotViolin) {
      violinPlot := Some(Chart(ViolinPlot, df.Value()));
    }

    context := Context(firstRows, heatmap, missingDataInfo, histograms, scatterPlotMatrix, violinPlot,
                       meanMedianStd, messages);
  }

  /** A worked example: A = [1, 2, missing] (float), B = ["x", "y", "z"] (text). */
  function ExampleTable(): Table {
    Table([Column("A", Float64, [Num(1.0), Num(2.0), Null]),
           Column("B", Object, [Str("x"), Str("y"), Str("z")])], 3)
  }

  lemma ExampleCounts()
    ensures NullCount(ExampleTable().columns[0].cells) == 1
    ensures NullCount(ExampleTable().columns[1].cells) == 0
    ensures TotalNulls(ExampleTable().columns) == 1
  {
    var t := ExampleTable();
    var a, b := t.columns[0].cells, t.columns[1].cells;
    assert a[..2] == [Num(1.0), Num(2.0)] && a[..2][..1] == [Num(1.0)] && a[..2][..1][..0] == [];
    assert NullCount(a[..2][..1]) == 0;
    assert NullCount(a[..2]) == 0;
    assert b[..2] == [Str("x"), Str("y")] && b[..2][..1] == [Str("x")] && b[..2][..1][..0] == [];
    assert NullCount(b[..2][..1]) == 0;
    assert NullCount(b[..2]) == 0;
    assert t.columns[..1] == [t.columns[0]] && t.columns[..1][..0] == [];
  }

  lemma ExampleWellFormed()
    ensures WellFormed(ExampleTable())
  {
    var t := ExampleTable();
    assert ColumnWellFormed(t.columns[0], 3);
    assert ColumnWellFormed(t.columns[1], 3);
  }

  /** In the example the report counts one missing cell in A and none in B. */
  lemma ExampleReport()
    ensures WellFormed(ExampleTable())
    ensures IdentifyMissingData(ExampleTable()) == map["A" := 1, "B" := 0]
  {
    var t := ExampleTable();
    ExampleWellFormed();
    ExampleCounts();
    NullCountIsNullPositions(t.columns[0].cells);
    NullCountIsNullPositions(t.columns[1].cells);
    var report := IdentifyMissingData(t);
    assert report.Keys == {"A", "B"} by {
      assert t.columns[0].name == "A" && t.columns[1].name == "B";
    }
    assert report["A"] == 1 && report["B"] == 0 by {
      assert report[t.columns[0].name] == |NullPositions(t.columns[0].cells)|;
      assert report[t.columns[1].name] == |NullPositions(t.columns[1].cells)|;
    }
  }

  /** In the example only A gets statistics (mean 1.5, median 1.5, variance 0.5), and B a message. */
  lemma ExampleStats()
    ensures StatsEntries(ExampleTable().columns) == [StatsEntry("A", ColumnStats(Some(1.5), Some(1.5), Some(0.5)))]
    ensures StatsMessages(ExampleTable().columns) == [NonNumericMessage("B")]
  {
    var t := ExampleTable();
    var a := t.columns[0];
    assert NumericValues(a.cells) == [1.0, 2.0];
    assert Sort([1.0, 2.0]) == [1.0, 2.0];
    assert t.columns[..1] == [a] && [a][..0] == [];
  }

  /** In the example the missing cell of A becomes 1.5 and one message names A. */
  lemma ExampleHandle()
    ensures Imputed(ExampleTable()).columns[0].cells == [Num(1.0), Num(2.0), Num(1.5)]
    ensures Imputed(ExampleTable()).columns[1] == ExampleTable().columns[1]
    ensures HandleMessages(ExampleTable()) == [NumericFillMessage("A")]
  {
    var t := ExampleTable();
    var a, b := t.columns[0], t.columns[1];
    ExampleCounts();
    NullCountIsNullPositions(a.cells);
    NullCountIsNullPositions(b.cells);
    assert NumericValues(a.cells) == [1.0, 2.0];
    assert t.columns[..1] == [a] && [a][..0] == [];
    assert FillMessages(t.columns[..1]) == [NumericFillMessage("A")];
  }
}
