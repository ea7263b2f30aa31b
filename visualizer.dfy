/** `VisualizerAgent`: which charts are drawn for a table (`auto_visualize`)
    and the chart the user asks for (`create_custom_chart`).

    A plotly figure is reduced to what the agent decides about it: the kind of
    chart, the columns it plots (the x column first), its title, and for a bar
    chart of value counts the frequencies it plots. Colours, templates and
    rendering are presentation only. */
module Visualizer {
  import opened Table
  import opened Frequencies

  datatype ChartKind = Bar | Histogram | Scatter | Line | Heatmap

  datatype ChartSpec = ChartSpec(kind: ChartKind, columns: seq<string>, title: string,
                                 frequencies: seq<(Value, nat)>)

  /** The default `max_charts` of `auto_visualize`. */
  const DefaultMaxCharts: int := 5

  /** The bar chart of `auto_visualize` plots `value_counts().head(10)`. */
  const BarEntries: nat := 10

  // ----- auto_visualize -----

  /** The title of a single-column distribution chart. */
  function DistributionTitle(name: string): string {
    "Distribution of " + name
  }

  /** The title of the scatter chart of `y` against `x`. */
  function VersusTitle(x: string, y: string): string {
    x + " vs " + y
  }

  /** The title of the line chart of `y` over the date column. */
  function OverTimeTitle(y: string): string {
    y + " over time"
  }

  const HeatmapTitle: string := "Correlation Heatmap"

  /** Step 1: the value counts of the leftmost object column. */
  function BarChart(d: Dataset): (r: Option<ChartSpec>)
    ensures r.Some? ==> r.value.kind == Bar
  {
    var obj := IndicesOfKind(d, Object);
    if |obj| > 0 then
      var c := d.columns[obj[0]];
      Some(ChartSpec(Bar, [c.name], DistributionTitle(c.name), TopCounts(c.cells, BarEntries)))
    else None
  }

  /** Step 2: the histogram of the leftmost numeric column. */
  function HistogramChart(d: Dataset): (r: Option<ChartSpec>)
    ensures r.Some? ==> r.value.kind == Histogram
  {
    var num := IndicesOfKind(d, Numeric);
    if |num| > 0 then
      var n0 := d.columns[num[0]].name;
      Some(ChartSpec(Histogram, [n0], DistributionTitle(n0), []))
    else None
  }

  /** Step 3: the first two numeric columns against each other. */
  function ScatterChart(d: Dataset): (r: Option<ChartSpec>)
    ensures r.Some? ==> r.value.kind == Scatter
  {
    var num := IndicesOfKind(d, Numeric);
    if |num| >= 2 then
      var n0 := d.columns[num[0]].name;
      var n1 := d.columns[num[1]].name;
      Some(ChartSpec(Scatter, [n0, n1], VersusTitle(n0, n1), []))
    else None
  }

  /** Step 4: the first numeric column over the first date column. */
  function LineChart(d: Dataset): (r: Option<ChartSpec>)
    ensures r.Some? ==> r.value.kind == Line
  {
    var num := IndicesOfKind(d, Numeric);
    var dates := IndicesOfKind(d, Datetime);
    if |dates| > 0 && |num| > 0 then
      var n0 := d.columns[num[0]].name;
      Some(ChartSpec(Line, [d.columns[dates[0]].name, n0], OverTimeTitle(n0), []))
    else None
  }

  /** Step 5: the correlation heatmap of all numeric columns. */
  function HeatmapChart(d: Dataset): (r: Option<ChartSpec>)
    ensures r.Some? ==> r.value.kind == Heatmap
  {
    var num := IndicesOfKind(d, Numeric);
    if |num| > 2 then Some(ChartSpec(Heatmap, NamesAt(d, num), HeatmapTitle, []))
    else None
  }

  /** The bar chart is drawn exactly when the table has an object column; it
      plots the ten most frequent values of the leftmost one. */
  lemma BarChartMeaning(d: Dataset)
    ensures BarChart(d).Some? <==> exists i :: 0 <= i < |d.columns| && d.columns[i].kind == Object
    ensures BarChart(d).Some? ==> exists i: nat :: (
      && Leftmost(d, Object, i)
      && var c := d.columns[i];
      && BarChart(d).value.kind == Bar && BarChart(d).value.columns == [c.name]
      && BarChart(d).value.title == "Distribution of " + c.name
      && IsTopCounts(c.cells, BarEntries, BarChart(d).value.frequencies))
  {
    FirstOfKind(d, Object);
    var obj := IndicesOfKind(d, Object);
    if |obj| > 0 {
      var c := d.columns[obj[0]];
      TopCountsCorrect(c.cells, BarEntries);
      assert Leftmost(d, Object, obj[0]);
    }
  }

  /** The histogram is drawn exactly when the table has a numeric column; it
      shows the leftmost one. */
  lemma HistogramChartMeaning(d: Dataset)
    ensures HistogramChart(d).Some? <==> exists i :: 0 <= i < |d.columns| && d.columns[i].kind == Numeric
    ensures HistogramChart(d).Some? ==> exists i: nat :: (
      && Leftmost(d, Numeric, i)
      && var name := d.columns[i].name;
      HistogramChart(d).value == ChartSpec(Histogram, [name], "Distribution of " + name, []))
  {
    FirstOfKind(d, Numeric);
    var num := IndicesOfKind(d, Numeric);
    if |num| > 0 {
      assert Leftmost(d, Numeric, num[0]);
    }
  }

  /** The scatter plot is drawn exactly when the table has two numeric
      columns; it plots the second of them against the first. */
  lemma ScatterChartMeaning(d: Dataset)
    ensures ScatterChart(d).Some? <==>
      exists i, j :: 0 <= i < j < |d.columns| && d.columns[i].kind == Numeric && d.columns[j].kind == Numeric
    ensures ScatterChart(d).Some? ==> exists i: nat, j: nat :: (
      && Leftmost(d, Numeric, i) && NextOfKind(d, Numeric, i, j)
      && var x := d.columns[i].name;
      var y := d.columns[j].name;
      ScatterChart(d).value == ChartSpec(Scatter, [x, y], x + " vs " + y, []))
  {
    FirstOfKind(d, Numeric);
    SecondOfKind(d, Numeric);
    var num := IndicesOfKind(d, Numeric);
    if |num| >= 2 {
      assert Leftmost(d, Numeric, num[0]) && NextOfKind(d, Numeric, num[0], num[1]);
    }
  }

  /** The line chart is drawn exactly when the table has a date column and a
      numeric column; it plots the leftmost numeric column over the leftmost
      date column. */
  lemma LineChartMeaning(d: Dataset)
    ensures LineChart(d).Some? <==>
      (exists i :: 0 <= i < |d.columns| && d.columns[i].kind == Datetime) &&
      (exists j :: 0 <= j < |d.columns| && d.columns[j].kind == Numeric)
    ensures LineChart(d).Some? ==> exists i: nat, j: nat :: (
      && Leftmost(d, Datetime, i) && Leftmost(d, Numeric, j)
      && var y := d.columns[j].name;
      LineChart(d).value == ChartSpec(Line, [d.columns[i].name, y], y + " over time", []))
  {
    FirstOfKind(d, Numeric);
    FirstOfKind(d, Datetime);
    var num := IndicesOfKind(d, Numeric);
    var dates := IndicesOfKind(d, Datetime);
    if |dates| > 0 && |num| > 0 {
      assert Leftmost(d, Datetime, dates[0]) && Leftmost(d, Numeric, num[0]);
    }
  }

  /** The correlation heatmap is drawn exactly when the table has three
      numeric columns; it covers every numeric column, once each. */
  lemma HeatmapChartMeaning(d: Dataset)
    requires WellFormed(d)
    ensures HeatmapChart(d).Some? <==> exists i, j, l :: (
      && 0 <= i < j < l < |d.columns|
      && d.columns[i].kind == Numeric && d.columns[j].kind == Numeric && d.columns[l].kind == Numeric)
    ensures HeatmapChart(d).Some? ==>
      var r := HeatmapChart(d).value;
      && r.kind == Heatmap && r.title == "Correlation Heatmap" && r.frequencies == []
      && NoDuplicates(r.columns)
      && Elements(r.columns) == NamesOfKind(d, Numeric)
  {
    ThreeOfKind(d, Numeric);
    NamesAtKind(d, Numeric);
    assert NoDuplicates(IndicesOfKind(d, Numeric));
  }

  /** The five steps, in the order `auto_visualize` takes them. */
  function Candidates(d: Dataset): seq<Option<ChartSpec>> {
    [BarChart(d), HistogramChart(d), ScatterChart(d), LineChart(d), HeatmapChart(d)]
  }

  /** The charts of the steps that apply, in step order. */
  function Somes(opts: seq<Option<ChartSpec>>): (r: seq<ChartSpec>)
    ensures |r| <= |opts|
  {
    if opts == [] then []
    else (if opts[0].Some? then [opts[0].value] else []) + Somes(opts[1..])
  }

  /** One step: a step that applies adds its chart while fewer than
      `maxCharts` charts have been drawn. */
  function Admit(charts: seq<ChartSpec>, step: Option<ChartSpec>, maxCharts: int): seq<ChartSpec> {
    if step.Some? && |charts| < maxCharts then charts + [step.value] else charts
  }

  /** Takes the steps in order. */
  function Fill(charts: seq<ChartSpec>, steps: seq<Option<ChartSpec>>, maxCharts: int): seq<ChartSpec>
    decreases |steps|
  {
    if steps == [] then charts
    else Fill(Admit(charts, steps[0], maxCharts), steps[1..], maxCharts)
  }

  /** Five steps taken one after the other. */
  lemma FillFive(s: seq<Option<ChartSpec>>, m: int)
    requires |s| == 5
    ensures Fill([], s, m) == Admit(Admit(Admit(Admit(Admit([], s[0], m), s[1], m), s[2], m), s[3], m), s[4], m)
  {
    var c1 := Admit([], s[0], m);
    var c2 := Admit(c1, s[1], m);
    var c3 := Admit(c2, s[2], m);
    var c4 := Admit(c3, s[3], m);
    var c5 := Admit(c4, s[4], m);
    assert Fill(c5, s[5..], m) == c5;
    assert Fill(c4, s[4..], m) == Fill(c5, s[5..], m);
    assert Fill(c3, s[3..], m) == Fill(c4, s[4..], m);
    assert Fill(c2, s[2..], m) == Fill(c3, s[3..], m);
    assert Fill(c1, s[1..], m) == Fill(c2, s[2..], m);
  }

  /** What `auto_visualize` draws. */
  function Plan(d: Dataset, maxCharts: int): seq<ChartSpec> {
    if Empty(d) then [] else Fill([], Candidates(d), maxCharts)
  }

  /** `max_charts` as a number of charts: a bound below zero admits none. */
  function Cap(maxCharts: int): nat {
    if maxCharts < 0 then 0 else maxCharts
  }

  /** Taking the steps keeps the charts drawn so far and adds the charts of
      the steps that apply, in order, until `maxCharts` charts are drawn. */
  lemma {:induction false} FillTruncates(charts: seq<ChartSpec>, steps: seq<Option<ChartSpec>>, m: int)
    requires |charts| <= Cap(m)
    ensures Fill(charts, steps, m) == (charts + Somes(steps))[..Min(Cap(m), |charts| + |Somes(steps)|)]
    decreases |steps|
  {
    if steps == [] {
      assert charts + Somes(steps) == charts;
    } else {
      var next := Admit(charts, steps[0], m);
      var rest := Somes(steps[1..]);
      FillTruncates(next, steps[1..], m);
      if steps[0].Some? {
        assert Somes(steps) == [steps[0].value] + rest;
        if |charts| < m {
          assert next + rest == charts + Somes(steps);
        } else {
          assert (charts + Somes(steps))[..|charts|] == charts == (next + rest)[..|charts|];
        }
      } else {
        assert Somes(steps) == rest;
      }
    }
  }

  /** Taking the steps from no charts draws the charts of the steps that
      apply, in order, cut off after `maxCharts` of them. */
  lemma FillFromNothing(steps: seq<Option<ChartSpec>>, m: int)
    ensures Fill([], steps, m) == Somes(steps)[..Min(Cap(m), |Somes(steps)|)]
  {
    FillTruncates([], steps, m);
    assert [] + Somes(steps) == Somes(steps);
  }

  /** `auto_visualize` draws the charts of the steps that apply, in step
      order, cut off after `maxCharts` of them. */
  lemma PlanIsCappedCandidates(d: Dataset, m: int)
    ensures Plan(d, m) == if Empty(d) then [] else
      Somes(Candidates(d))[..Min(Cap(m), |Somes(Candidates(d))|)]
  {
    FillFromNothing(Candidates(d), m);
  }

  /** Lowering the bound keeps the leading charts of the default plan and
      drops the later ones: no step takes the place of one cut off. */
  lemma PlanCapped(d: Dataset, m: int)
    ensures var full := Plan(d, DefaultMaxCharts);
      Plan(d, m) == full[..Min(Cap(m), |full|)]
  {
    PlanIsCappedCandidates(d, m);
    PlanIsCappedCandidates(d, DefaultMaxCharts);
  }

  /** The position of each step in `auto_visualize`. */
  function Step(k: ChartKind): nat {
    match k
    case Bar => 0
    case Histogram => 1
    case Scatter => 2
    case Line => 3
    case Heatmap => 4
  }

  /** When each step at position `k` can only yield a chart of step
      `base + k`, the charts that apply come out in strictly increasing step
      order. */
  lemma {:induction false} SomesInOrder(opts: seq<Option<ChartSpec>>, base: nat)
    requires forall k :: 0 <= k < |opts| && opts[k].Some? ==> Step(opts[k].value.kind) == base + k
    ensures forall i :: 0 <= i < |Somes(opts)| ==> base <= Step(Somes(opts)[i].kind)
    ensures forall i, j :: 0 <= i < j < |Somes(opts)| ==> Step(Somes(opts)[i].kind) < Step(Somes(opts)[j].kind)
  {
    if opts != [] {
      var tail := opts[1..];
      forall k | 0 <= k < |tail| && tail[k].Some? ensures Step(tail[k].value.kind) == base + 1 + k {
        assert tail[k] == opts[k + 1];
      }
      SomesInOrder(tail, base + 1);
      var head := if opts[0].Some? then [opts[0].value] else [];
      assert Somes(opts) == head + Somes(tail);
    }
  }

  /** Each chart kind comes after the kinds of the charts before it. */
  predicate InStepOrder(p: seq<ChartSpec>) {
    forall i, j :: 0 <= i < j < |p| ==> Step(p[i].kind) < Step(p[j].kind)
  }

  /** Five steps that can only yield a bar chart, a histogram, a scatter
      plot, a line chart and a heatmap, in that order, draw at most
      `maxCharts` charts, at most one of each kind, in step order. */
  lemma FillInOrder(bar: Option<ChartSpec>, histogram: Option<ChartSpec>, scatter: Option<ChartSpec>,
                    line: Option<ChartSpec>, heatmap: Option<ChartSpec>, m: int)
    requires bar.Some? ==> bar.value.kind == Bar
    requires histogram.Some? ==> histogram.value.kind == Histogram
    requires scatter.Some? ==> scatter.value.kind == Scatter
    requires line.Some? ==> line.value.kind == Line
    requires heatmap.Some? ==> heatmap.value.kind == Heatmap
    ensures var p := Fill([], [bar, histogram, scatter, line, heatmap], m);
      |p| <= Cap(m) && |p| <= 5 && InStepOrder(p)
  {
    var steps := [bar, histogram, scatter, line, heatmap];
    FillFromNothing(steps, m);
    SomesInOrder(steps, 0);
  }

  /** At most `maxCharts` charts and at most one of each kind, in step order;
      on an empty table none; with the default bound every chart that
      applies. */
  lemma PlanShape(d: Dataset, m: int)
    ensures var p := Plan(d, m);
      && |p| <= Cap(m) && |p| <= 5 && InStepOrder(p)
      && (Empty(d) ==> p == [])
      && (!Empty(d) && m == DefaultMaxCharts ==> p == Somes(Candidates(d)))
  {
    if !Empty(d) {
      PlanIsCappedCandidates(d, m);
      FillInOrder(BarChart(d), HistogramChart(d), ScatterChart(d), LineChart(d), HeatmapChart(d), m);
    }
  }

  /** The five steps taken one after the other are the plan. */
  lemma PlanOfSteps(d: Dataset, m: int, c1: seq<ChartSpec>, c2: seq<ChartSpec>, c3: seq<ChartSpec>,
                    c4: seq<ChartSpec>, c5: seq<ChartSpec>)
    requires !Empty(d)
    requires c1 == Admit([], BarChart(d), m) && c2 == Admit(c1, HistogramChart(d), m)
    requires c3 == Admit(c2, ScatterChart(d), m) && c4 == Admit(c3, LineChart(d), m)
    requires c5 == Admit(c4, HeatmapChart(d), m)
    ensures c5 == Plan(d, m)
  {
    FillFive(Candidates(d), m);
  }

  // The five guarded blocks of `auto_visualize`, one method each: a block
  // adds its chart and counts it when its columns exist and fewer than
  // `maxCharts` charts have been drawn.

  method DrawBar(d: Dataset, charts: seq<ChartSpec>, chartCount: int, maxCharts: int)
    returns (charts': seq<ChartSpec>, chartCount': int)
    requires chartCount == |charts|
    ensures charts' == Admit(charts, BarChart(d), maxCharts) && chartCount' == |charts'|
  {
    charts', chartCount' := charts, chartCount;
    var categoricalCols := IndicesOfKind(d, Object);
    if |categoricalCols| > 0 && chartCount < maxCharts {
      var col := d.columns[categoricalCols[0]];
      var valueCounts := TopCounts(col.cells, BarEntries);
      charts' := charts + [ChartSpec(Bar, [col.name], DistributionTitle(col.name), valueCounts)];
      chartCount' := chartCount + 1;
    }
  }

  method DrawHistogram(d: Dataset, charts: seq<ChartSpec>, chartCount: int, maxCharts: int)
    returns (charts': seq<ChartSpec>, chartCount': int)
    requires chartCount == |charts|
    ensures charts' == Admit(charts, HistogramChart(d), maxCharts) && chartCount' == |charts'|
  {
    charts', chartCount' := charts, chartCount;
    var numericCols := IndicesOfKind(d, Numeric);
    if |numericCols| > 0 && chartCount < maxCharts {
      var col := d.columns[numericCols[0]].name;
      charts' := charts + [ChartSpec(Histogram, [col], DistributionTitle(col), [])];
      chartCount' := chartCount + 1;
    }
  }

  method DrawScatter(d: Dataset, charts: seq<ChartSpec>, chartCount: int, maxCharts: int)
    returns (charts': seq<ChartSpec>, chartCount': int)
    requires chartCount == |charts|
    ensures charts' == Admit(charts, ScatterChart(d), maxCharts) && chartCount' == |charts'|
  {
    charts', chartCount' := charts, chartCount;
    var numericCols := IndicesOfKind(d, Numeric);
    if |numericCols| >= 2 && chartCount < maxCharts {
      var n0 := d.columns[numericCols[0]].name;
      var n1 := d.columns[numericCols[1]].name;
      charts' := charts + [ChartSpec(Scatter, [n0, n1], VersusTitle(n0, n1), [])];
      chartCount' := chartCount + 1;
    }
  }

  method DrawLine(d: Dataset, charts: seq<ChartSpec>, chartCount: int, maxCharts: int)
    returns (charts': seq<ChartSpec>, chartCount': int)
    requires chartCount == |charts|
    ensures charts' == Admit(charts, LineChart(d), maxCharts) && chartCount' == |charts'|
  {
    charts', chartCount' := charts, chartCount;
    var numericCols := IndicesOfKind(d, Numeric);
    var dateCols := IndicesOfKind(d, Datetime);
    if |dateCols| > 0 && |numericCols| > 0 && chartCount < maxCharts {
      var n0 := d.columns[numericCols[0]].name;
      charts' := charts + [ChartSpec(Line, [d.columns[dateCols[0]].name, n0], OverTimeTitle(n0), [])];
      chartCount' := chartCount + 1;
    }
  }

  method DrawHeatmap(d: Dataset, charts: seq<ChartSpec>, chartCount: int, maxCharts: int)
    returns (charts': seq<ChartSpec>, chartCount': int)
    requires chartCount == |charts|
    ensures charts' == Admit(charts, HeatmapChart(d), maxCharts) && chartCount' == |charts'|
  {
    charts', chartCount' := charts, chartCount;
    var numericCols := IndicesOfKind(d, Numeric);
    if |numericCols| > 2 && chartCount < maxCharts {
      charts' := charts + [ChartSpec(Heatmap, NamesAt(d, numericCols), HeatmapTitle, [])];
      chartCount' := chartCount + 1;
    }
  }

  /** `auto_visualize`: nothing for an empty table, otherwise the five
      guarded steps in order, sharing one chart count. */
  method AutoVisualize(d: Dataset, maxCharts: int) returns (charts: seq<ChartSpec>)
    ensures charts == Plan(d, maxCharts)
  {
    if Empty(d) {
      return [];
    }
    var chartCount := 0;
    var c1, c2, c3, c4;
    c1, chartCount := DrawBar(d, [], chartCount, maxCharts);
    c2, chartCount := DrawHistogram(d, c1, chartCount, maxCharts);
    c3, chartCount := DrawScatter(d, c2, chartCount, maxCharts);
    c4, chartCount := DrawLine(d, c3, chartCount, maxCharts);
    charts, chartCount := DrawHeatmap(d, c4, chartCount, maxCharts);
    PlanOfSteps(d, maxCharts, c1, c2, c3, c4, charts);
  }

  // ----- create_custom_chart -----

  predicate IsUpper(c: char) { 'A' <= c <= 'Z' }

  predicate IsLower(c: char) { 'a' <= c <= 'z' }

  /** A cased character: an ASCII letter. */
  predicate IsLetter(c: char) { IsUpper(c) || IsLower(c) }

  function Upper(c: char): (u: char)
    ensures IsLetter(u) == IsLetter(c) && !IsLower(u)
  {
    if IsLower(c) then (c as int - 32) as char else c
  }

  function Lower(c: char): (l: char)
    ensures IsLetter(l) == IsLetter(c) && !IsUpper(l)
  {
    if IsUpper(c) then (c as int + 32) as char else c
  }

  /** `str.title()` on the rest of a string, `afterLetter` telling whether
      the character before it is cased. */
  function TitleFrom(s: string, afterLetter: bool): (r: string)
    ensures |r| == |s|
    ensures forall i :: 0 <= i < |s| ==>
      r[i] == if (if i == 0 then afterLetter else IsLetter(s[i - 1])) then Lower(s[i]) else Upper(s[i])
  {
    if s == [] then []
    else [if afterLetter then Lower(s[0]) else Upper(s[0])] + TitleFrom(s[1..], IsLetter(s[0]))
  }

  /** `str.title()`: a letter that starts a word (follows no letter) is
      upper-cased, every other letter lower-cased, and the rest kept. */
  function TitleCase(s: string): (r: string)
    ensures |r| == |s|
    ensures forall i :: 0 <= i < |s| ==>
      r[i] == if i > 0 && IsLetter(s[i - 1]) then Lower(s[i]) else Upper(s[i])
  {
    TitleFrom(s, false)
  }

  /** Title-casing a title-cased string changes nothing. */
  lemma TitleCaseIdempotent(s: string)
    ensures TitleCase(TitleCase(s)) == TitleCase(s)
  {
    var t := TitleCase(s);
    forall i | 0 <= i < |s| ensures TitleCase(t)[i] == t[i] {
      if i > 0 {
        assert t[i - 1] == if i > 1 && IsLetter(s[i - 2]) then Lower(s[i - 1]) else Upper(s[i - 1]);
      }
    }
  }

  /** A word of lower-case letters, such as each chart type the user
      interface offers, is title-cased by capitalising its first letter. */
  lemma CapitalisedWord(s: string)
    requires |s| > 0 && forall i :: 0 <= i < |s| ==> IsLower(s[i])
    ensures TitleCase(s) == [Upper(s[0])] + s[1..]
  {
    var t := TitleCase(s);
    forall i | 0 <= i < |s| ensures t[i] == ([Upper(s[0])] + s[1..])[i] {
      if i > 0 {
        assert IsLetter(s[i - 1]);
      }
    }
  }

  /** `if y_col:` holds: a name was given and it is not empty. */
  predicate Given(y: Option<string>) {
    y.Some? && y.value != ""
  }

  /** The `y` argument handed to plotly, as a list of at most one column. */
  function YColumns(y: Option<string>): (ys: seq<string>)
    ensures y.Some? ==> ys == [y.value]
    ensures y.None? ==> ys == []
  {
    if y.Some? then [y.value] else []
  }

  /** `data[name]`: the position of the column called `name`. */
  function ColumnIndex(cols: seq<Column>, name: string): (i: nat)
    requires exists j :: 0 <= j < |cols| && cols[j].name == name
    ensures i < |cols| && cols[i].name == name
  {
    if cols[0].name == name then 0
    else
      assert exists j :: 0 <= j < |cols[1..]| && cols[1..][j].name == name by {
        var j :| 0 <= j < |cols| && cols[j].name == name;
        assert cols[1..][j - 1] == cols[j];
      }
      1 + ColumnIndex(cols[1..], name)
  }

  /** The title `create_custom_chart` sets: the title-cased chart type,
      " Chart: ", the x column, and " vs " with the y column when one was
      given. */
  function CustomTitle(chartType: string, x: string, y: Option<string>): (t: string)
    ensures |t| >= |chartType| && t[..|chartType|] == TitleCase(chartType)
    ensures t[|chartType|..] == " Chart: " + x + (if Given(y) then " vs " + y.value else "")
  {
    TitleCase(chartType) + " Chart: " + x + (if Given(y) then " vs " + y.value else "")
  }

  /** `create_custom_chart`: the chart of the requested type over `x` (and
      `y`). An unknown type falls back to a bar chart of `x` against `y`; a
      bar chart without `y` plots the value counts of `x`. */
  function CustomChart(d: Dataset, chartType: string, x: string, y: Option<string>): (r: ChartSpec)
    requires WellFormed(d)
    requires exists j :: 0 <= j < |d.columns| && d.columns[j].name == x
    ensures r.kind == Histogram <==> chartType == "histogram"
    ensures r.kind == Line <==> chartType == "line"
    ensures r.kind == Scatter <==> chartType == "scatter"
    ensures r.kind == Bar <==> chartType != "histogram" && chartType != "line" && chartType != "scatter"
    ensures r.columns == if chartType == "histogram" || (chartType == "bar" && !Given(y)) then [x] else [x] + YColumns(y)
    ensures chartType == "bar" && !Given(y) ==> forall j :: 0 <= j < |d.columns| && d.columns[j].name == x ==>
      var cells := d.columns[j].cells;
      IsTopCounts(cells, |cells|, r.frequencies) && forall v :: Some(v) in cells <==> Listed(r.frequencies, v)
    ensures !(chartType == "bar" && !Given(y)) ==> r.frequencies == []
    ensures r.title == CustomTitle(chartType, x, y)
  {
    var title := CustomTitle(chartType, x, y);
    var plain := ChartSpec(Bar, [x] + YColumns(y), title, []);
    if chartType == "bar" then
      if Given(y) then plain
      else
        var i := ColumnIndex(d.columns, x);
        ChartSpec(Bar, [x], title, AllCounts(d.columns[i].cells))
    else if chartType == "line" then plain.(kind := Line)
    else if chartType == "scatter" then plain.(kind := Scatter)
    else if chartType == "histogram" then plain.(kind := Histogram, columns := [x])
    else plain
  }
}
