# Multi-Source Data Analysis Agent — a verified model of its decision logic

The agents of this application read a table (pandas DataFrame), describe it,
look for patterns in it and pick charts for it. Under the pandas, plotly and
OpenAI calls sit three small, deterministic procedures over a typed table,
and this project models them and proves what they promise:

- `AnalyzerAgent.find_trends`, the pattern detector. Three rules each add
  one note, in a fixed order: time series, strong correlation, heavy
  missingness. When none fires, a single "nothing found" note is returned.
  Alongside it, `AnalyzerAgent.basic_statistics` builds the statistical
  profile.
- `VisualizerAgent.auto_visualize`, the chart selector. Five guarded
  steps (bar, histogram, scatter, line, heatmap) share one chart counter
  capped by `max_charts`. Alongside it, `create_custom_chart` dispatches
  on the requested chart type and builds its title.
- `DataReaderAgent.get_data_info`, the summary of a loaded table.

A DataFrame is modelled as `Table.Dataset`:

- a row count;
- a sequence of columns, each with a name, the storage kind that
  `select_dtypes` filters on (`Numeric`, `Object`, `Datetime`, `Other`)
  and its cells. A missing cell is `None`.

`Table.WellFormed` says every column has one cell per row and no two
columns share a name.

Floating-point statistics are not modelled:

- The Pearson correlation matrix of the numeric columns is an input of the
  analyzer, `None` standing for NaN.
- The threshold `abs(r) > 0.7` is compared with the exact rational 7/10.
  No double lies strictly between the double nearest 0.7 and 7/10, so
  this agrees with the floating-point test.
- The missingness threshold `missing > len(data) * 0.1` is written
  `10 * missing > rows`.

A plotly figure is modelled as `Visualizer.ChartSpec`: its kind, the
columns it plots (x first), its title and, for a bar chart of value
counts, the frequencies it plots.

The files follow the source:

- `table.dfy`: the table and the pandas selections the agents use.
- `frequencies.dfy`: `value_counts().head(k)`.
- `analyzer.dfy`, `visualizer.dfy`, `data_reader.dfy`: one per agent.

The imperative parts are methods proved equal to specification functions.
The properties are proved about those functions:

- `FindTrends` with its nested loop over the upper triangle (`StrongPairNames`, `ScanRow`) is proved equal to `Trends`.
- `AutoVisualize` with its five counted steps is proved equal to `Plan`.

On a table with no rows `find_trends` still runs the time-series rule and
reports a time series whenever a date column and a numeric column exist;
`Analyzer.EmptyTableTrends` states the outcome.

## Model

| member | source | states |
|---|---|---|
| Table.IndicesOfKind | agents/analyzer.py:20-21 | `select_dtypes`: the positions it returns are columns of the requested kind, in strictly increasing (declaration) order |
| Table.KindComplete | agents/analyzer.py:20-21 | every column of the requested kind is selected, at the returned position |
| Table.NamesAtKind | agents/visualizer.py:22-24 | the names of the selected columns are exactly the names of the columns of that kind |
| Table.FirstOfKind | agents/visualizer.py:30 | the first selected column is the leftmost column of the kind, and there is one exactly when the table has a column of the kind |
| Table.SecondOfKind | agents/visualizer.py:57-58 | the second selected column is the next column of the kind after the leftmost, and exists exactly when two such columns exist |
| Table.ThreeOfKind | agents/visualizer.py:78 | more than two columns are selected exactly when three distinct columns of the kind exist |
| Table.Names | agents/data_reader.py:71 | `columns.tolist()`: one name per column, in declaration order |
| Table.MissingCount | agents/analyzer.py:84 | `isnull().sum()` of one column is at most its number of cells |
| Table.MissingCountIsMissingRows | agents/data_reader.py:73 | the missing count of a column is the size of its set of missing rows |
| Table.PresentRows | agents/analyzer.py:24 | cells minus missing cells is the size of the set of present rows (the `count` of `describe()`) |
| Table.OccursIffPresent | agents/analyzer.py:25 | a value has a positive occurrence count exactly when some cell holds it |
| Table.DistinctComplete | agents/analyzer.py:25 | every present value is among the distinct values of the column |
| Frequencies.TopCountsCorrect | agents/analyzer.py:25 | `value_counts().head(k)` has at most k entries; each is a distinct present value with its exact count; counts do not increase; a value is left out only if all k places hold values at least as frequent; its length is min(k, distinct values) |
| Frequencies.AllCounts | agents/visualizer.py:97 | `value_counts()` without a cut lists every present value, and only those, each with its exact count, counts not increasing |
| Frequencies.PickDistinct | agents/analyzer.py:25 | the selection by repeated maximum never lists a value twice |
| Frequencies.PickOrdered | agents/analyzer.py:25 | the selection by repeated maximum lists counts in non-increasing order |
| Frequencies.PickLeavesOutLessFrequent | agents/analyzer.py:25 | a value left out of the selection is no more frequent than the last one selected, and all k places are filled |
| Frequencies.PickChoosesAll | agents/visualizer.py:97 | with room for every entry, every entry is selected |
| Analyzer.NumericSummaries | agents/analyzer.py:24 | `numeric_summary` has an entry for every numeric column and nothing else, so it is empty when there is no numeric column |
| Analyzer.NumericSummaryCount | agents/analyzer.py:24 | the `count` of a numeric column is its number of present cells |
| Analyzer.CategoricalSummaries | agents/analyzer.py:25-26 | `categorical_summary` has one entry per object column and nothing else; each entry is a correct top-5 frequency table of that column |
| Analyzer.NumericNames | agents/analyzer.py:20-27 | the names of the numeric columns: the k-th is the name of the k-th numeric column (so row and column k of the matrix are keyed by it), all different, exactly the numeric column names |
| Analyzer.CorrelationColumn | agents/analyzer.py:27 | one column of `corr().to_dict()`: keyed by every row name, holding the coefficient of that row |
| Analyzer.CorrelationTable | agents/analyzer.py:27 | `corr().to_dict()`: keyed by every column name, each entry the dictionary of that column |
| Analyzer.CorrelationEntry | agents/analyzer.py:27 | the entry under column b and row a is the coefficient at (a, b), and both levels are keyed by all numeric names |
| Analyzer.BasicStatistics | agents/analyzer.py:15-29 | an error exactly on an empty table, with the text "No data to analyze"; otherwise the numeric and categorical summaries, and correlations only when there are at least two numeric columns (empty otherwise) |
| Analyzer.RowPairsAt | agents/analyzer.py:76-78 | each pair the inner loop collects is in row i, right of the diagonal, left of the current column, and strong |
| Analyzer.RowPairsComplete | agents/analyzer.py:76-78 | every strong entry of the row right of the diagonal and left of the current column is collected |
| Analyzer.RowPairsOrdered | agents/analyzer.py:76-78 | the inner loop collects its pairs from left to right |
| Analyzer.PairsBeforeAt | agents/analyzer.py:75-78 | each pair collected from the rows before i lies in such a row, above the diagonal, and is strong |
| Analyzer.PairsBeforeComplete | agents/analyzer.py:75-78 | every strong entry above the diagonal in the rows before i is collected |
| Analyzer.PairsBeforeOrdered | agents/analyzer.py:75-78 | the pairs are collected in row-major order |
| Analyzer.HighMissingIndices | agents/analyzer.py:84-85 | the selected columns have more than a tenth of their cells missing, in declaration order |
| Analyzer.HeavyComplete | agents/analyzer.py:84-85 | every column with more than a tenth of its cells missing is selected |
| Analyzer.CollectStep | agents/analyzer.py:77-78 | one step of the inner loop appends the names of entry (i, j) exactly when it is strong |
| Analyzer.ScanRow | agents/analyzer.py:76-78 | the inner loop over row i extends the names found so far by the names of the strong pairs of that row |
| Analyzer.StrongPairNames | agents/analyzer.py:74-78 | the nested loop yields the names of all strong pairs above the diagonal, in row-major order |
| Analyzer.CorrelationRule | agents/analyzer.py:72-81 | with more than one numeric column, the single note naming the strong pairs if there is any; otherwise nothing |
| Analyzer.FindTrends | agents/analyzer.py:60-89 | the method appends the time-series, correlation and missing-data notes when their rules fire and falls back to the "nothing found" note; its result is `Trends` |
| Analyzer.TimeNoteIff | agents/analyzer.py:65-69 | the time-series note is emitted exactly when the table has a date column and a numeric column |
| Analyzer.StrongPairsExact | agents/analyzer.py:72-81 | the strong pairs are exactly the (a, b) with a < b and a coefficient beyond 0.7 in absolute value, in row-major order; no self or reversed pairs, and NaN never qualifies |
| Analyzer.CorrelationNoteIff | agents/analyzer.py:72-81 | the correlation note is emitted exactly when two different numeric columns are strongly correlated; at most one such note; none with fewer than two numeric columns |
| Analyzer.NamedStrongPairs | agents/analyzer.py:74-78 | by name, the pairs collected are strongly correlated pairs of different columns, and every such pair is collected |
| Analyzer.CorrelationNoteNames | agents/analyzer.py:78-81 | the correlation note names every strongly correlated pair of numeric columns and nothing else |
| Analyzer.MissingNoteIff | agents/analyzer.py:84-87 | the missing-data note is emitted exactly when some column has more than a tenth of its cells missing; at most one such note |
| Analyzer.MissingNoteNames | agents/analyzer.py:84-87 | the missing-data note names each heavily missing column once, whatever its kind, and nothing else |
| Analyzer.ReportShape | agents/analyzer.py:62-89 | a report built from the rules' notes has 1 to 3 notes in rule order, each kind at most once, and the "nothing found" note only alone |
| Analyzer.ReportContents | agents/analyzer.py:62-89 | each note is in the report exactly when its rule contributed it, and the "nothing found" note exactly when no rule did |
| Analyzer.TrendNotes | agents/analyzer.py:68-87 | each rule contributes nothing or one note of its own kind |
| Analyzer.TrendsShape | agents/analyzer.py:60-89 | `find_trends` is never empty, has 1 to 3 notes in the order time, correlation, missing, and holds the sentinel only alone |
| Analyzer.TrendsReport | agents/analyzer.py:60-89 | each note appears exactly when its rule's condition holds on the table, and the sentinel exactly when no condition holds |
| Analyzer.EmptyTableTrends | agents/analyzer.py:65-89 | on a table with no rows the result is the time-series note if a date and a numeric column exist, else the sentinel |
| Visualizer.BarChartMeaning | agents/visualizer.py:29-39 | the bar step applies exactly when an object column exists; it plots the leftmost one, titled "Distribution of" its name, with a correct top-10 frequency table |
| Visualizer.HistogramChartMeaning | agents/visualizer.py:42-51 | the histogram step applies exactly when a numeric column exists; it plots the leftmost one, titled "Distribution of" its name |
| Visualizer.ScatterChartMeaning | agents/visualizer.py:54-63 | the scatter step applies exactly when two numeric columns exist; it plots the second leftmost against the leftmost, titled "a vs b" |
| Visualizer.LineChartMeaning | agents/visualizer.py:66-75 | the line step applies exactly when a date and a numeric column exist; x is the leftmost date column, y the leftmost numeric column, titled "y over time" |
| Visualizer.HeatmapChartMeaning | agents/visualizer.py:78-86 | the heatmap step applies exactly when more than two numeric columns exist; it covers every numeric column once, titled "Correlation Heatmap" |
| Visualizer.FillTruncates | agents/visualizer.py:26-86 | taking the guarded steps keeps the charts drawn so far and adds the charts of the applicable steps in order until the cap is reached |
| Visualizer.FillFromNothing | agents/visualizer.py:26-86 | from no charts, the result is the applicable charts in step order, cut off after `max_charts` |
| Visualizer.PlanIsCappedCandidates | agents/visualizer.py:18-86 | `auto_visualize` is empty on an empty table, else the charts of the applicable steps in step order, cut off after `max_charts` |
| Visualizer.PlanCapped | agents/visualizer.py:26-86 | the result under any cap is the leading part of the result under the default cap of five: later charts are dropped, never replaced |
| Visualizer.SomesInOrder | agents/visualizer.py:28-86 | steps that each yield only their own kind produce charts in strictly increasing step order |
| Visualizer.FillInOrder | agents/visualizer.py:26-86 | five steps of the five kinds draw at most `max_charts` and at most five charts, at most one of each kind, in step order |
| Visualizer.PlanShape | agents/visualizer.py:16-88 | at most `max_charts` and five charts, kinds in the order bar, histogram, scatter, line, heatmap, each at most once; none on an empty table; with the default cap every applicable chart |
| Visualizer.PlanOfSteps | agents/visualizer.py:28-86 | the five guarded steps taken in order produce the plan |
| Visualizer.DrawBar | agents/visualizer.py:29-39 | the bar block adds its chart and counts it when an object column exists and the cap allows; the counter stays equal to the number of charts |
| Visualizer.DrawHistogram | agents/visualizer.py:42-51 | the histogram block adds its chart and counts it when a numeric column exists and the cap allows |
| Visualizer.DrawScatter | agents/visualizer.py:54-63 | the scatter block adds its chart and counts it when two numeric columns exist and the cap allows |
| Visualizer.DrawLine | agents/visualizer.py:66-75 | the line block adds its chart and counts it when a date and a numeric column exist and the cap allows |
| Visualizer.DrawHeatmap | agents/visualizer.py:78-86 | the heatmap block adds its chart and counts it when more than two numeric columns exist and the cap allows |
| Visualizer.AutoVisualize | agents/visualizer.py:16-88 | the method with its shared counter returns `Plan`, whose properties are stated above |
| Visualizer.TitleCase | agents/visualizer.py:114 | `str.title()`: a letter following no letter is upper-cased, every other letter lower-cased, other characters kept; the length is unchanged |
| Visualizer.TitleCaseIdempotent | agents/visualizer.py:114 | title-casing a title-cased string changes nothing |
| Visualizer.CapitalisedWord | agents/visualizer.py:114 | a lower-case word such as "bar" or "scatter" becomes its capitalised form |
| Visualizer.ColumnIndex | agents/visualizer.py:97 | `data[x_col]` finds a column with the requested name |
| Visualizer.CustomTitle | agents/visualizer.py:113-116 | the title starts with the title-cased chart type, followed by " Chart: ", x, and " vs " y when y is non-empty |
| Visualizer.CustomChart | agents/visualizer.py:90-118 | "histogram", "line" and "scatter" map to their kinds and every other type to a bar chart; the histogram ignores y; a bar chart without y plots the value counts of x (every present value, exact counts); the title is the custom title, fallback included |
| DataReader.GetDataInfo | agents/data_reader.py:63-76 | an error exactly on an empty table (no rows or no columns), with the text "No data available"; otherwise the row and column counts, the names in order, and per column its kind, its missing count (at most the row count) and its first min(5, rows) cells |

## Left out

- The file, database and HTTP readers of the data reader are not modelled: they are I/O with printed side effects.
- `ai_insights` and the OpenAI client are not modelled: they are a network call to an external model.
- `create_dashboard` is not modelled, and neither are plotly colours, templates and layout: they are rendering only.
- pandas dtype inference is not modelled: each column's kind is given.
- The correlation matrix is an input, not computed: Pearson coefficients are floating-point numerics.
- Analyzer.NumericSummaries: keeps only the `count` statistic of `describe()`. Mean, standard deviation and percentiles are floating-point results.
- Analyzer.HeavilyMissing: `missing > len * 0.1` is compared in exact arithmetic as `10 * missing > rows`. The two agree unless the rounding error of `len * 0.1` reaches a tenth, which takes row counts far beyond any table in memory.
- Frequencies.TopCountsCorrect: does not fix the order among values of equal count, because `value_counts` does not.
- The note texts of `find_trends` (agents/analyzer.py:69,81,87,89) are not rendered: the model returns each note as a structured value (`Analyzer.Trend`) carrying the pairs or column names the text lists, and the string formatting, including Python's rendering of a list of names, is left out.
- Visualizer.TitleCase: `str.title()` is modelled for ASCII letters only. Unicode case mapping is not modelled.
- Visualizer.CustomChart: requires `x_col` to name a column of the table, as the only caller guarantees by picking it from the table's columns. For any other name the source raises: pandas `KeyError` from `data[x_col]` in the bar-without-y branch, plotly express `ValueError` in every other branch. `y_col` is `None` or the name of a numeric column, as the caller passes it; a `y_col` that names no column, for which plotly express raises `ValueError`, is not modelled as an error: the model returns a chart.
- Table.WellFormed: excludes tables with duplicate column names, which pandas allows. The dictionaries built by the agents would then collapse entries.
- DataReader.GetDataInfo: `dtypes` are reported as the kind `select_dtypes` sees, not the full pandas dtype name. `head().to_dict()` is keyed by column, with the leading cells in row order and the index labels left out.
- Analyzer.NameOf: returns the empty name for a position past the end. No pair of the model reaches such a position.
- Analyzer.FindTrends: its nested loop is split into `StrongPairNames` and `ScanRow`, with the same iteration order and the same appends.
- Visualizer.AutoVisualize: its five guarded blocks are split into the `Draw*` step methods, with the same guards, order and counter.
