# CSV-Processor table pipeline, modelled in Dafny

This project models the data-processing core of the CSV-Processor web application
(`CSVProcessor/csvapp/views.py`). A user uploads a CSV file. The view
`data_processing_options` then loads the most recent upload into a DataFrame and runs
the analysis tasks the user selected. The tasks are: a preview of the first ten rows,
mean/median/std per numeric column, a correlation heatmap, a missing-value report,
filling the missing values, and three plots.

pandas is replaced by an explicit table (`DataTable.Table`). A table is a sequence of
uniquely named columns of equal length. Each column carries the dtype pandas gave it
(`Int64`, `Float64`, `Bool` or `Object`), and each cell is `Null`, a number, a boolean
or a string. `WellFormed` states the shape every DataFrame has. An int64 or bool
column holds no missing cell, because pandas widens such a column to float64 or object.

Modules:

- `DataTable` (`table.dfy`): the table, the dtypes, and the two numeric tests the
  source uses. `is_numeric_dtype` accepts int, float and bool columns. The heatmap's
  `select_dtypes(include=['float64', 'int64'])` accepts only int64 and float64.
- `Statistics` (`statistics.dfy`): `Series.mean`, `Series.median` and the square of
  `Series.std`, over exact reals. Missing values are skipped, and a statistic is
  `None` (NaN) when too few values remain.
- `Analysis` (`analysis.dfy`): `display_first_10_rows`, `calculate_mean_median_std`
  (a method with a loop, proved against the functions `StatsEntries` and
  `StatsMessages`), and the decision of `generate_heatmap` between `None` and an image.
- `MissingData` (`missing_data.dfy`): `identify_missing_data`, and
  `handle_missing_data` as a method of the class `Frame`. `Frame` is the DataFrame
  that `fillna(..., inplace=True)` updates column by column. The method is proved
  against the functions `Imputed` and `HandleMessages`, and the lemmas state what
  those guarantee.
- `Processing` (`processing.dfy`): `data_processing_options`. It picks the stored
  upload with the highest id and runs the selected tasks in the source's order. It
  appends one `ProcessedResults` row per statistics entry to an append-only
  `ResultSink`. It also holds a worked example.

An image is modelled as `Chart(kind, data)`: the kind of chart and the table it was
drawn from. This is enough to state which table each plot sees.

Decisions where the source leaves room:

- A numeric column with no value at all has no mean. `fillna` is then called with NaN
  and leaves the cells missing. The model keeps those cells `Null`, and the column's
  message is still emitted, as in the code. This is the policy for a column whose dtype
  is float64 as given; a column that reaches the DataFrame entirely as `None` through
  the stored JSON records (views.py:58) would be of object dtype instead and be filled
  with 'unknown'.
- The heatmap returns `None` when the int64/float64 part of the table is empty. That
  happens when there is no such column, and also when the table has no rows. A boolean
  column gets statistics but is never drawn in the heatmap
  (`BoolColumnGetsStatsButNoHeatmap`).
- `handle_missing_data` changes the DataFrame in place, not a copy. So the three plots
  that run after it see the filled table. The preview, the statistics, the heatmap and
  the report run before it and see the original table.
- The statistics results are a Python dict, which keeps insertion order. They are
  modelled as an ordered sequence of `StatsEntry` with unique keys
  (`StatsKeysUnique`), and the result rows are saved in that order. The missing-value report
  (`df.isnull().sum().to_dict()`) is also a dict in column order, but it is modelled as an
  unordered map from column name to count, so its order is not captured.

## Model

| member | source | states |
|---|---|---|
| `Statistics.Mean` | CSVProcessor/csvapp/views.py:123 | the mean exists exactly when the column has a value, and times the number of values it gives back their sum |
| `Statistics.Median` | CSVProcessor/csvapp/views.py:124 | the median exists exactly when the column has a value, and lies between two of the values (the smallest and the largest) |
| `Statistics.Describe` | CSVProcessor/csvapp/views.py:123-126 | mean and median are missing together, exactly when the column holds no number or boolean; the std is missing whenever the mean is |
| `Statistics.MeanBounds` | CSVProcessor/csvapp/views.py:123 | the mean of a column's values exists exactly when there is a value, and lies between any lower and upper bound of the values |
| `Statistics.Sort` | CSVProcessor/csvapp/views.py:124 | the values the median is taken from are in ascending order and are a permutation of the column's values |
| `Statistics.SampleVariance` | CSVProcessor/csvapp/views.py:125 | the squared standard deviation exists exactly when there are at least two values, and is never negative |
| `Analysis.Head` | CSVProcessor/csvapp/views.py:114 | `head(n)` keeps every column, its name and dtype, and cuts it to its first min(n, rows) cells; the result is still a well-formed table |
| `Analysis.Records` | CSVProcessor/csvapp/views.py:114 | `to_dict('records')` gives one row per index position, each keyed by the column names in column order; reading position j of every row gives back column j |
| `Analysis.DisplayFirst10Rows` | CSVProcessor/csvapp/views.py:113-115 | the preview has min(10, rows) rows and is exactly that prefix of the table's rows, in order |
| `Analysis.CalculateMeanMedianStd` | CSVProcessor/csvapp/views.py:117-131 | the loop builds exactly the results `StatsEntries` and the messages `StatsMessages` of the table's columns, in column order |
| `Analysis.StatsPartition` | CSVProcessor/csvapp/views.py:120-130 | every column lands in exactly one place: the number of results plus the number of messages is the number of columns |
| `Analysis.StatsEntriesExact` | CSVProcessor/csvapp/views.py:121-126 | every numeric column has a result holding its own mean, median and std, and every result is such a column's |
| `Analysis.StatsMessagesExact` | CSVProcessor/csvapp/views.py:129-130 | a message is produced if and only if it is "Column '<name>' contains non-numeric data and cannot be processed." for a non-numeric column |
| `Analysis.StatsKeysUnique` | CSVProcessor/csvapp/views.py:126 | with unique column names, no two results share a column name |
| `Analysis.HeatmapColumns` | CSVProcessor/csvapp/views.py:136-137 | the heatmap's columns are exactly the int64 and float64 columns |
| `Analysis.GenerateHeatmap` | CSVProcessor/csvapp/views.py:134-157 | no image exactly when the table has no rows or no int64/float64 column; otherwise a heatmap drawn from exactly those columns |
| `Analysis.HeatmapColumnsHaveStats` | CSVProcessor/csvapp/views.py:121-136 | every column the heatmap draws also has a statistics result |
| `Analysis.BoolColumnGetsStatsButNoHeatmap` | CSVProcessor/csvapp/views.py:121-140 | the two numeric tests differ: a table with one boolean column gets one statistics result and no heatmap |
| `MissingData.NullCountIsNullPositions` | CSVProcessor/csvapp/views.py:161 | a column's count is the number of its missing cells, and it is positive exactly when `isnull().any()` holds |
| `MissingData.IdentifyMissingData` | CSVProcessor/csvapp/views.py:160-162 | the report has exactly the table's column names as keys, and each value is the number of missing cells of that column |
| `MissingData.Frame.constructor` | CSVProcessor/csvapp/views.py:58 | the DataFrame is built holding exactly the stored table |
| `MissingData.Frame.FillNa` | CSVProcessor/csvapp/views.py:172-175 | `fillna(v, inplace=True)` replaces the missing cells of one column by `v` and changes no other column |
| `MissingData.Frame.HandleMissingData` | CSVProcessor/csvapp/views.py:164-177 | the DataFrame afterwards is `Imputed` of the one before, and the messages are `HandleMessages` of it |
| `MissingData.TotalNullsZero` | CSVProcessor/csvapp/views.py:166 | the table-wide count is zero exactly when no column has a missing cell |
| `MissingData.NoMissingValues` | CSVProcessor/csvapp/views.py:166-167 | the table has no missing cell if and only if the messages are exactly ["No missing values to handle."], and then the table is unchanged |
| `MissingData.FillMessagesExact` | CSVProcessor/csvapp/views.py:169-176 | a fill message is emitted if and only if it is the numeric or string message of a column that has a missing cell |
| `MissingData.FillMessagesCount` | CSVProcessor/csvapp/views.py:169-176 | exactly one fill message per column that has a missing cell |
| `MissingData.ImputedCells` | CSVProcessor/csvapp/views.py:169-176 | names, dtypes and sizes are kept and present cells are unchanged; a missing text cell becomes 'unknown'; a missing numeric cell becomes the mean of the column's original values, or stays missing when the column has none |
| `MissingData.ImputedReport` | CSVProcessor/csvapp/views.py:160-176 | after the fill, the report counts zero for every column except a numeric column with no value, which stays entirely missing |
| `MissingData.ImputedWellFormed` | CSVProcessor/csvapp/views.py:171-175 | the filled table is still a well-formed DataFrame with the same dtypes |
| `MissingData.ImputedIdempotent` | CSVProcessor/csvapp/views.py:164-177 | filling a second time changes nothing more |
| `MissingData.FillMessageIsNotNoMissing` | CSVProcessor/csvapp/views.py:167-176 | no per-column fill message equals the "No missing values to handle." message |
| `Processing.Latest` | CSVProcessor/csvapp/views.py:56 | no record exactly when nothing was stored; otherwise a stored record whose id is the highest |
| `Processing.ResultSink.Save` | CSVProcessor/csvapp/views.py:77 | saving appends one row and keeps every earlier one |
| `Processing.SaveResults` | CSVProcessor/csvapp/views.py:70-77 | one `ProcessedResults` row is appended per statistics entry, in the entries' order |
| `Processing.TaskResults` | CSVProcessor/csvapp/views.py:63-97 | the preview, statistics, report and heatmap are those of the original table, each present exactly when its task was selected, except that the heatmap is also absent on a table with no rows or no int64/float64 column; each plot is present exactly when its task was selected and draws the filled table when `handle_missing_data` was selected and the original otherwise; the messages are the statistics messages followed by the fill messages, each list present only when its task was selected |
| `Processing.RunTasks` | CSVProcessor/csvapp/views.py:63-97 | running the selected tasks on the DataFrame yields `TaskResults` of the table as it was before any task, and saves the statistics rows only when statistics were selected |
| `Processing.DataProcessingOptions` | CSVProcessor/csvapp/views.py:44-110 | a GET renders an empty context; with no upload only the message "No CSV file uploaded yet." and nothing is saved; otherwise the tasks run on the record with the highest id |
| `Processing.ExampleReport` | CSVProcessor/csvapp/views.py:160-162 | for A = [1, 2, missing] and B = ["x", "y", "z"] the report is {A: 1, B: 0} |
| `Processing.ExampleStats` | CSVProcessor/csvapp/views.py:117-131 | for the same table only A has statistics (mean 1.5, median 1.5, variance 0.5), and B has the non-numeric message |
| `Processing.ExampleHandle` | CSVProcessor/csvapp/views.py:164-177 | for the same table the missing cell of A becomes 1.5, B is unchanged, and the one message names A |

## Left out

- `Statistics.Describe`: records the sample variance where the source records the standard deviation. The standard deviation is the square root of that variance, and real numbers in the model have no square root. Mean and median are exact.
- `Analysis.CalculateMeanMedianStd`: never omits a numeric column. The source catches a failing computation, prints it and skips the column (views.py:127-128). With exact reals no computation fails, so that path is not modelled.
- Floating-point arithmetic: mean, median and variance are exact reals, not IEEE doubles.
- `upload_csv` (views.py:21-42): CSV parsing, pandas dtype inference, and the JSON round trip of the records. These are library behaviour, so the dtype of each column is taken as given, as is the fact that missing markers become `Null`.
- The rendering and base64 encoding in `get_base64_image`, `generate_histograms`, `generate_scatter_plot_matrix`, `generate_violin_plot` and the body of `generate_heatmap`. They call matplotlib and seaborn. A chart is modelled only by its kind and the table it draws.
- Django: request parsing, `render`, `redirect`, URL routing, the upload form and the ORM. The store of uploads is a sequence of records, and the results table is an append-only sequence.
- `MissingData.Frame.FillNa`: models `df[column].fillna(..., inplace=True)` as updating `df`, which is what pandas does without copy-on-write. Under copy-on-write that chained call would leave `df` unchanged.
- `Processing.TaskResults`, `Processing.RunTasks`, `Processing.DataProcessingOptions`: every chart call is assumed to succeed. On a table with no numeric column, `df.hist` (views.py:181) and `sns.pairplot` (views.py:187) raise a ValueError that nothing in `data_processing_options` catches, so the request fails, while the `ProcessedResults` rows already saved at views.py:77 stay saved. The model returns a context holding the chart for such a table.
- Concurrent uploads: the "current" record is simply the highest id at the time of the request.
