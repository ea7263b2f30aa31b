/** `AnalyzerAgent`: the statistical profile of a table (`basic_statistics`)
    and the rule-based pattern notes (`find_trends`).

    Pearson coefficients are floating-point results of pandas; the model takes
    the correlation matrix of the numeric columns as an input, `None` standing
    for NaN (a column with fewer than two values or no spread). */
module Analyzer {
  import opened Table
  import opened Frequencies

  /** A correlation matrix, row and column `a` belonging to the `a`-th numeric
      column. */
  type Matrix = seq<seq<Option<real>>>

  /** `corr` has one row and one column per numeric column of the table. */
  predicate Fits(d: Dataset, corr: Matrix) {
    |corr| == |IndicesOfKind(d, Numeric)| && Square(corr)
  }

  /** Every row of `corr` has one entry per row. */
  predicate Square(corr: Matrix) {
    forall a :: 0 <= a < |corr| ==> |corr[a]| == |corr|
  }

  // ----- basic_statistics -----

  /** The exact part of `describe()` for one numeric column: `count`, the
      number of cells that are not missing. */
  datatype NumericSummary = NumericSummary(count: nat)

  /** The dictionary `basic_statistics` returns. `correlations` is
      `corr().to_dict()`: outer key the column of the matrix, inner key the
      row. */
  datatype Statistics =
    | NoDataToAnalyze(error: string)
    | Profile(numericSummary: map<string, NumericSummary>,
              categoricalSummary: map<string, seq<(Value, nat)>>,
              correlations: map<string, map<string, Option<real>>>)

  /** `Series.head()` keeps five entries. */
  const CategoryEntries: nat := 5

  /** `describe().to_dict()` of the numeric columns: one entry per numeric
      column, holding its number of present cells (`NumericSummaryCount`). */
  function NumericSummaries(d: Dataset): (m: map<string, NumericSummary>)
    requires WellFormed(d)
    ensures m.Keys == NamesOfKind(d, Numeric)
  {
    var num := IndicesOfKind(d, Numeric);
    assert NoDuplicates(num);
    NamesAtKind(d, Numeric);
    Keyed(NamesAt(d, num), seq(|num|, k requires 0 <= k < |num| =>
            NumericSummary(d.rows - MissingCount(d.columns[num[k]].cells))))
  }

  /** The `count` of a numeric column is its number of present cells. */
  lemma NumericSummaryCount(d: Dataset, i: nat)
    requires WellFormed(d) && i < |d.columns| && d.columns[i].kind == Numeric
    ensures var c := d.columns[i];
      && c.name in NumericSummaries(d)
      && NumericSummaries(d)[c.name].count == |set row | 0 <= row < |c.cells| && c.cells[row].Some?|
  {
    var c := d.columns[i];
    var num := IndicesOfKind(d, Numeric);
    var k := KindComplete(d, Numeric, i);
    assert NamesAt(d, num)[k] == c.name;
    PresentRows(c.cells);
  }

  /** The `categorical_summary` entry: the five most frequent values of each
      object column. */
  function CategoricalSummaries(d: Dataset): (m: map<string, seq<(Value, nat)>>)
    requires WellFormed(d)
    ensures m.Keys == NamesOfKind(d, Object)
    ensures forall i :: 0 <= i < |d.columns| && d.columns[i].kind == Object ==>
      IsTopCounts(d.columns[i].cells, CategoryEntries, m[d.columns[i].name])
  {
    var obj := IndicesOfKind(d, Object);
    assert NoDuplicates(obj);
    NamesAtKind(d, Object);
    var m := Keyed(NamesAt(d, obj), seq(|obj|, k requires 0 <= k < |obj| =>
               TopCounts(d.columns[obj[k]].cells, CategoryEntries)));
    forall i | 0 <= i < |d.columns| && d.columns[i].kind == Object
      ensures IsTopCounts(d.columns[i].cells, CategoryEntries, m[d.columns[i].name])
    {
      var k := KindComplete(d, Object, i);
      TopCountsCorrect(d.columns[i].cells, CategoryEntries);
    }
    m
  }

  /** Column `b` of the matrix as a dictionary from row names. */
  function CorrelationColumn(names: seq<string>, corr: Matrix, b: nat): (col: map<string, Option<real>>)
    requires |names| == |corr| && NoDuplicates(names)
    requires b < |corr| && Square(corr)
    ensures col.Keys == Elements(names)
    ensures forall a :: 0 <= a < |names| ==> col[names[a]] == corr[a][b]
  {
    Keyed(names, seq(|names|, a requires 0 <= a < |names| => corr[a][b]))
  }

  /** `corr().to_dict()` for a matrix whose rows and columns carry `names`:
      for each column `b`, the dictionary from the row names to column `b`
      (`CorrelationEntry` states what it holds). */
  function CorrelationTable(names: seq<string>, corr: Matrix): (m: map<string, map<string, Option<real>>>)
    requires |names| == |corr| && NoDuplicates(names)
    requires Square(corr)
    ensures m.Keys == Elements(names)
    ensures forall b :: 0 <= b < |names| ==> m[names[b]] == CorrelationColumn(names, corr, b)
  {
    Keyed(names, seq(|names|, b requires 0 <= b < |names| => CorrelationColumn(names, corr, b)))
  }

  /** The table is keyed by the column names twice over, and the entry under
      column `b` and row `a` is the coefficient at (`a`, `b`). */
  lemma CorrelationEntry(names: seq<string>, corr: Matrix, a: nat, b: nat)
    requires |names| == |corr| && NoDuplicates(names)
    requires Square(corr)
    requires a < |names| && b < |names|
    ensures var m := CorrelationTable(names, corr);
      && names[b] in m && m[names[b]].Keys == m.Keys
      && m[names[b]][names[a]] == corr[a][b]
  {
  }

  /** The names of the numeric columns, in declaration order. */
  function NumericNames(d: Dataset): (names: seq<string>)
    requires WellFormed(d)
    ensures |names| == |IndicesOfKind(d, Numeric)|
    ensures NoDuplicates(names)
    ensures Elements(names) == NamesOfKind(d, Numeric)
    ensures forall k :: 0 <= k < |names| ==> names[k] == d.columns[IndicesOfKind(d, Numeric)[k]].name
  {
    var num := IndicesOfKind(d, Numeric);
    assert NoDuplicates(num);
    NamesAtKind(d, Numeric);
    NamesAt(d, num)
  }

  function BasicStatistics(d: Dataset, corr: Matrix): (r: Statistics)
    requires WellFormed(d) && Fits(d, corr)
    ensures r.NoDataToAnalyze? <==> Empty(d)
    ensures r.NoDataToAnalyze? ==> r.error == "No data to analyze"
    ensures r.Profile? ==>
      && r.numericSummary == NumericSummaries(d)
      && r.categoricalSummary == CategoricalSummaries(d)
    ensures r.Profile? ==>
      && (|NumericNames(d)| < 2 ==> r.correlations == map[])
      && (|NumericNames(d)| >= 2 ==> r.correlations == CorrelationTable(NumericNames(d), corr))
  {
    if Empty(d) then NoDataToAnalyze("No data to analyze")
    else
      var names := NumericNames(d);
      Profile(NumericSummaries(d), CategoricalSummaries(d),
              if |names| < 2 then map[] else CorrelationTable(names, corr))
  }

  // ----- find_trends -----

  /** The four kinds of pattern note, with what each one lists. */
  datatype Trend =
    | TimeSeries
    | StrongCorrelation(pairs: seq<(string, string)>)
    | HighMissing(columns: seq<string>)
    | NoTrends

  /** `abs(r) > 0.7`; NaN compares false. The real literal is exact, and no
      double lies strictly between the double nearest 0.7 and 7/10, so the
      comparison agrees with the floating-point one. */
  predicate Strong(c: Option<real>) {
    c.Some? && (c.value > 0.7 || c.value < -0.7)
  }

  /** Pair `p` comes before pair `q` in row-major order. */
  predicate Before(p: (nat, nat), q: (nat, nat)) {
    p.0 < q.0 || (p.0 == q.0 && p.1 < q.1)
  }

  /** The strong entries of row `a` to the right of the diagonal and left of
      column `j`, as (row, column) pairs from left to right; `RowPairsAt`
      states what each entry is. */
  function RowPairs(corr: Matrix, a: nat, j: nat): seq<(nat, nat)>
    requires a < |corr| && j <= |corr[a]|
  {
    if j <= a + 1 then []
    else RowPairs(corr, a, j - 1) + (if Strong(corr[a][j - 1]) then [(a, j - 1)] else [])
  }

  /** Every entry `RowPairs` lists is a strong entry of row `a` between the
      diagonal and column `j`. */
  lemma {:induction false} RowPairsAt(corr: Matrix, a: nat, j: nat, k: nat)
    requires a < |corr| && j <= |corr[a]|
    requires k < |RowPairs(corr, a, j)|
    ensures var p := RowPairs(corr, a, j)[k];
      p.0 == a && a < p.1 < j && Strong(corr[a][p.1])
  {
    var prev := RowPairs(corr, a, j - 1);
    if k < |prev| {
      RowPairsAt(corr, a, j - 1, k);
      assert RowPairs(corr, a, j)[k] == prev[k];
    }
  }

  /** Every strong entry of the row between the diagonal and column `j` is
      listed, at the returned position. */
  lemma {:induction false} RowPairsComplete(corr: Matrix, a: nat, j: nat, b: nat) returns (q: nat)
    requires a < |corr| && j <= |corr[a]|
    requires a < b < j && Strong(corr[a][b])
    ensures q < |RowPairs(corr, a, j)| && RowPairs(corr, a, j)[q] == (a, b)
  {
    var prev := RowPairs(corr, a, j - 1);
    if b < j - 1 {
      q := RowPairsComplete(corr, a, j - 1, b);
      assert RowPairs(corr, a, j)[q] == prev[q];
    } else {
      q := |prev|;
    }
  }

  /** `RowPairs` lists its entries from left to right. */
  lemma {:induction false} RowPairsOrdered(corr: Matrix, a: nat, j: nat, k: nat, m: nat)
    requires a < |corr| && j <= |corr[a]|
    requires k < m < |RowPairs(corr, a, j)|
    ensures RowPairs(corr, a, j)[k].1 < RowPairs(corr, a, j)[m].1
  {
    var ps := RowPairs(corr, a, j);
    var prev := RowPairs(corr, a, j - 1);
    assert ps[k] == prev[k];
    if m < |prev| {
      RowPairsOrdered(corr, a, j - 1, k, m);
      assert ps[m] == prev[m];
    } else {
      RowPairsAt(corr, a, j - 1, k);
    }
  }

  /** The strong entries above the diagonal in the rows before row `i`, in
      row-major order; the lemmas below state that these are exactly the
      strong pairs and that they are in order. */
  function PairsBefore(corr: Matrix, i: nat): seq<(nat, nat)>
    requires i <= |corr| && Square(corr)
  {
    if i == 0 then []
    else PairsBefore(corr, i - 1) + RowPairs(corr, i - 1, |corr|)
  }

  /** Every pair `PairsBefore` lists is a strong entry above the diagonal in
      a row before row `i`. */
  lemma {:induction false} PairsBeforeAt(corr: Matrix, i: nat, k: nat)
    requires i <= |corr| && Square(corr)
    requires k < |PairsBefore(corr, i)|
    ensures var p := PairsBefore(corr, i)[k];
      p.0 < i && p.0 < p.1 < |corr| && Strong(corr[p.0][p.1])
  {
    var prev := PairsBefore(corr, i - 1);
    var row := RowPairs(corr, i - 1, |corr|);
    if k < |prev| {
      PairsBeforeAt(corr, i - 1, k);
      assert PairsBefore(corr, i)[k] == prev[k];
    } else {
      RowPairsAt(corr, i - 1, |corr|, k - |prev|);
      assert PairsBefore(corr, i)[k] == row[k - |prev|];
    }
  }

  /** Every strong pair above the diagonal in the rows before row `i` is
      listed, at the returned position. */
  lemma {:induction false} PairsBeforeComplete(corr: Matrix, i: nat, a: nat, b: nat) returns (k: nat)
    requires i <= |corr| && Square(corr)
    requires a < i && a < b < |corr| && Strong(corr[a][b])
    ensures k < |PairsBefore(corr, i)| && PairsBefore(corr, i)[k] == (a, b)
  {
    var prev := PairsBefore(corr, i - 1);
    var row := RowPairs(corr, i - 1, |corr|);
    if a < i - 1 {
      k := PairsBeforeComplete(corr, i - 1, a, b);
      assert PairsBefore(corr, i)[k] == prev[k];
    } else {
      var q := RowPairsComplete(corr, a, |corr|, b);
      k := |prev| + q;
      assert PairsBefore(corr, i)[k] == row[q];
    }
  }

  /** `PairsBefore` lists its pairs in row-major order. */
  lemma {:induction false} PairsBeforeOrdered(corr: Matrix, i: nat, k: nat, m: nat)
    requires i <= |corr| && Square(corr)
    requires k < m < |PairsBefore(corr, i)|
    ensures Before(PairsBefore(corr, i)[k], PairsBefore(corr, i)[m])
  {
    var ps := PairsBefore(corr, i);
    var prev := PairsBefore(corr, i - 1);
    var row := RowPairs(corr, i - 1, |corr|);
    if m < |prev| {
      PairsBeforeOrdered(corr, i - 1, k, m);
      assert ps[k] == prev[k] && ps[m] == prev[m];
    } else if k >= |prev| {
      RowPairsOrdered(corr, i - 1, |corr|, k - |prev|, m - |prev|);
      RowPairsAt(corr, i - 1, |corr|, k - |prev|);
      RowPairsAt(corr, i - 1, |corr|, m - |prev|);
      assert ps[k] == row[k - |prev|] && ps[m] == row[m - |prev|];
    } else {
      PairsBeforeAt(corr, i - 1, k);
      RowPairsAt(corr, i - 1, |corr|, m - |prev|);
      assert ps[k] == prev[k] && ps[m] == row[m - |prev|];
    }
  }

  /** Every strong pair above the diagonal, in row-major order. */
  function StrongPairs(corr: Matrix): seq<(nat, nat)>
    requires Square(corr)
  {
    PairsBefore(corr, |corr|)
  }

  /** The name at position `k`; a position past the end, which no pair of
      the model reaches, names nothing. */
  function NameOf(names: seq<string>, k: nat): string {
    if k < |names| then names[k] else ""
  }

  /** Index pairs turned into pairs of names. */
  function NamePairs(names: seq<string>, ps: seq<(nat, nat)>): (r: seq<(string, string)>)
    ensures |r| == |ps|
  {
    seq(|ps|, k requires 0 <= k < |ps| => (NameOf(names, ps[k].0), NameOf(names, ps[k].1)))
  }

  /** `missing_data > len(data) * 0.1`, in exact arithmetic: more than a tenth
      of the rows are missing. */
  predicate HeavilyMissing(d: Dataset, c: Column) {
    10 * MissingCount(c.cells) > d.rows
  }

  /** The positions of the heavily missing columns, left to right. */
  function HighMissingIndices(d: Dataset): (r: seq<nat>)
    ensures forall k :: 0 <= k < |r| ==> r[k] < |d.columns| && HeavilyMissing(d, d.columns[r[k]])
    ensures forall k, l :: 0 <= k < l < |r| ==> r[k] < r[l]
  {
    Where(d.columns, (c: Column) => HeavilyMissing(d, c))
  }

  /** Every heavily missing column is selected, at the returned position. */
  lemma HeavyComplete(d: Dataset, i: nat) returns (k: nat)
    requires i < |d.columns| && HeavilyMissing(d, d.columns[i])
    ensures k < |HighMissingIndices(d)| && HighMissingIndices(d)[k] == i
  {
    k := WhereComplete(d.columns, (c: Column) => HeavilyMissing(d, c), i);
  }

  /** The time-series note: the table has a date column and a numeric
      column. */
  function TimeNote(d: Dataset): seq<Trend> {
    if |IndicesOfKind(d, Datetime)| > 0 && |IndicesOfKind(d, Numeric)| > 0 then [TimeSeries] else []
  }

  /** The correlation note: there are two numeric columns and some pair of
      them is strongly correlated. */
  function CorrelationNote(d: Dataset, corr: Matrix): seq<Trend>
    requires Fits(d, corr)
  {
    var num := IndicesOfKind(d, Numeric);
    if |num| > 1 && StrongPairs(corr) != [] then [StrongCorrelation(NamePairs(NamesAt(d, num), StrongPairs(corr)))]
    else []
  }

  /** The missing-data note: some column is heavily missing. */
  function MissingNote(d: Dataset): seq<Trend> {
    var heavy := HighMissingIndices(d);
    if heavy != [] then [HighMissing(NamesAt(d, heavy))] else []
  }

  /** What `find_trends` reports: the notes whose rule fires, in rule order,
      or the single "nothing found" note. */
  function Trends(d: Dataset, corr: Matrix): seq<Trend>
    requires Fits(d, corr)
  {
    Report(TimeNote(d), CorrelationNote(d, corr), MissingNote(d))
  }

  /** The notes of the three rules in order, or the "nothing found" note
      when none fired. */
  function Report(time: seq<Trend>, strong: seq<Trend>, missing: seq<Trend>): seq<Trend> {
    var found := time + strong + missing;
    if found == [] then [NoTrends] else found
  }

  /** Appending a pair appends its names. */
  lemma NamePairsAppend(names: seq<string>, ps: seq<(nat, nat)>, p: (nat, nat))
    requires p.0 < |names| && p.1 < |names|
    ensures NamePairs(names, ps + [p]) == NamePairs(names, ps) + [(names[p.0], names[p.1])]
  {
    assert NamePairs(names, ps + [p])[|ps|] == (names[p.0], names[p.1]);
  }

  /** Looking one entry further along row `i` appends that entry's pair when
      it is strong. */
  lemma RowPairsExtend(corr: Matrix, i: nat, j: nat)
    requires Square(corr)
    requires i < j < |corr|
    ensures var step := if Strong(corr[i][j]) then [(i, j)] else [];
      PairsBefore(corr, i) + RowPairs(corr, i, j + 1) == PairsBefore(corr, i) + RowPairs(corr, i, j) + step
  {
    assert RowPairs(corr, i, j + 1) == RowPairs(corr, i, j) + (if Strong(corr[i][j]) then [(i, j)] else []);
  }

  /** One step of the inner loop: looking at entry (`i`, `j`) extends the
      names of the pairs found so far exactly as `RowPairs` extends. */
  lemma CollectStep(corr: Matrix, names: seq<string>, i: nat, j: nat, found: seq<(string, string)>)
    requires |names| == |corr| && Square(corr)
    requires i < j < |corr|
    requires found == NamePairs(names, PairsBefore(corr, i) + RowPairs(corr, i, j))
    ensures Strong(corr[i][j]) ==>
      found + [(names[i], names[j])] == NamePairs(names, PairsBefore(corr, i) + RowPairs(corr, i, j + 1))
    ensures !Strong(corr[i][j]) ==>
      found == NamePairs(names, PairsBefore(corr, i) + RowPairs(corr, i, j + 1))
  {
    RowPairsExtend(corr, i, j);
    if Strong(corr[i][j]) {
      NamePairsAppend(names, PairsBefore(corr, i) + RowPairs(corr, i, j), (i, j));
    }
  }

  /** One pass of the inner loop of `find_trends`, over row `i` to the right
      of the diagonal: appends the names of the row's strong pairs. */
  method ScanRow(corr: Matrix, names: seq<string>, i: nat, found: seq<(string, string)>)
    returns (highCorr: seq<(string, string)>)
    requires |names| == |corr| && Square(corr) && i < |corr|
    requires found == NamePairs(names, PairsBefore(corr, i))
    ensures highCorr == NamePairs(names, PairsBefore(corr, i + 1))
  {
    var n := |corr|;
    highCorr := found;
    assert PairsBefore(corr, i) + RowPairs(corr, i, i + 1) == PairsBefore(corr, i);
    for j := i + 1 to n
      invariant highCorr == NamePairs(names, PairsBefore(corr, i) + RowPairs(corr, i, j))
    {
      CollectStep(corr, names, i, j, highCorr);
      if Strong(corr[i][j]) {
        highCorr := highCorr + [(names[i], names[j])];
      }
    }
    assert PairsBefore(corr, i + 1) == PairsBefore(corr, i) + RowPairs(corr, i, n);
  }

  /** The loop of `find_trends` over the upper triangle of the matrix: the
      names of the strong pairs, as "`a` and `b`" is built from them. */
  method StrongPairNames(corr: Matrix, names: seq<string>) returns (highCorr: seq<(string, string)>)
    requires |names| == |corr| && Square(corr)
    ensures highCorr == NamePairs(names, StrongPairs(corr))
  {
    var n := |corr|;
    highCorr := [];
    for i := 0 to n
      invariant highCorr == NamePairs(names, PairsBefore(corr, i))
    {
      highCorr := ScanRow(corr, names, i, highCorr);
    }
  }

  /** The correlation rule of `find_trends`: with two or more numeric
      columns, the note naming every strong pair, if there is one. */
  method CorrelationRule(d: Dataset, corr: Matrix) returns (note: seq<Trend>)
    requires Fits(d, corr)
    ensures note == CorrelationNote(d, corr)
  {
    note := [];
    var numeric := IndicesOfKind(d, Numeric);
    if |numeric| > 1 {
      var highCorr := StrongPairNames(corr, NamesAt(d, numeric));
      if highCorr != [] {
        note := [StrongCorrelation(highCorr)];
      }
    }
  }

  /** `find_trends`: each rule appends its note when it fires. */
  method FindTrends(d: Dataset, corr: Matrix) returns (trends: seq<Trend>)
    requires Fits(d, corr)
    ensures trends == Trends(d, corr)
  {
    trends := [];
    var dates := IndicesOfKind(d, Datetime);
    var numeric := IndicesOfKind(d, Numeric);
    if |dates| > 0 && |numeric| > 0 {
      trends := trends + [TimeSeries];
    }
    var correlation := CorrelationRule(d, corr);
    trends := trends + correlation;
    var heavy := HighMissingIndices(d);
    if heavy != [] {
      trends := trends + [HighMissing(NamesAt(d, heavy))];
    }
    if trends == [] {
      trends := [NoTrends];
    }
  }

  // ----- what find_trends reports -----

  /** The table has a date column and a numeric column. */
  predicate HasTimeSeries(d: Dataset) {
    && (exists i :: 0 <= i < |d.columns| && d.columns[i].kind == Datetime)
    && (exists i :: 0 <= i < |d.columns| && d.columns[i].kind == Numeric)
  }

  /** Two different numeric columns are strongly correlated. */
  predicate HasStrongPair(corr: Matrix)
    requires Square(corr)
  {
    exists a, b :: 0 <= a < b < |corr| && Strong(corr[a][b])
  }

  /** More than a tenth of the cells of some column are missing. */
  predicate HasHeavyMissing(d: Dataset) {
    exists i :: 0 <= i < |d.columns| && HeavilyMissing(d, d.columns[i])
  }

  /** The time-series note is reported exactly when the table has a date
      column and a numeric column. */
  lemma TimeNoteIff(d: Dataset)
    ensures TimeNote(d) != [] <==> HasTimeSeries(d)
  {
    FirstOfKind(d, Datetime);
    FirstOfKind(d, Numeric);
  }

  /** `StrongPairs` lists exactly the strong entries above the diagonal, in
      row-major order. */
  lemma StrongPairsExact(corr: Matrix)
    requires Square(corr)
    ensures var ps := StrongPairs(corr);
      && (forall k :: 0 <= k < |ps| ==> ps[k].0 < ps[k].1 < |corr| && Strong(corr[ps[k].0][ps[k].1]))
      && (forall a, b :: 0 <= a < b < |corr| && Strong(corr[a][b]) ==> (a, b) in ps)
      && (forall k, m :: 0 <= k < m < |ps| ==> Before(ps[k], ps[m]))
  {
    var n := |corr|;
    forall k | 0 <= k < |StrongPairs(corr)|
      ensures StrongPairs(corr)[k].0 < StrongPairs(corr)[k].1 < n && Strong(corr[StrongPairs(corr)[k].0][StrongPairs(corr)[k].1])
    {
      PairsBeforeAt(corr, n, k);
    }
    forall a, b | 0 <= a < b < n && Strong(corr[a][b]) ensures (a, b) in StrongPairs(corr) {
      var k := PairsBeforeComplete(corr, n, a, b);
    }
    forall k, m | 0 <= k < m < |StrongPairs(corr)| ensures Before(StrongPairs(corr)[k], StrongPairs(corr)[m]) {
      PairsBeforeOrdered(corr, n, k, m);
    }
  }

  /** The correlation note is reported exactly when two numeric columns are
      strongly correlated, and it is a single note. */
  lemma CorrelationNoteIff(d: Dataset, corr: Matrix)
    requires Fits(d, corr)
    ensures CorrelationNote(d, corr) != [] <==> HasStrongPair(corr)
    ensures |CorrelationNote(d, corr)| <= 1
    ensures |IndicesOfKind(d, Numeric)| < 2 ==> CorrelationNote(d, corr) == []
  {
    if HasStrongPair(corr) {
      var a, b :| 0 <= a < b < |corr| && Strong(corr[a][b]);
      var k := PairsBeforeComplete(corr, |corr|, a, b);
    }
    if StrongPairs(corr) != [] {
      PairsBeforeAt(corr, |corr|, 0);
    }
  }

  /** `p` is a strongly correlated pair of different columns, by name. */
  predicate NamesStrongPair(names: seq<string>, corr: Matrix, p: (string, string))
    requires |names| == |corr| && Square(corr)
  {
    exists a, b :: 0 <= a < b < |corr| && Strong(corr[a][b]) && p == (names[a], names[b])
  }

  /** Named by `names`, the strong pairs are every strongly correlated pair of
      different columns and nothing else. */
  lemma NamedStrongPairs(names: seq<string>, corr: Matrix)
    requires |names| == |corr| && Square(corr)
    ensures var pairs := NamePairs(names, StrongPairs(corr));
      && (forall q :: 0 <= q < |pairs| ==> NamesStrongPair(names, corr, pairs[q]))
      && (forall a, b :: 0 <= a < b < |corr| && Strong(corr[a][b]) ==> (names[a], names[b]) in pairs)
  {
    var ps := StrongPairs(corr);
    var pairs := NamePairs(names, ps);
    forall q | 0 <= q < |pairs| ensures NamesStrongPair(names, corr, pairs[q]) {
      PairsBeforeAt(corr, |corr|, q);
      var a, b := ps[q].0, ps[q].1;
      assert 0 <= a < b < |corr| && Strong(corr[a][b]) && pairs[q] == (names[a], names[b]);
    }

    forall a, b | 0 <= a < b < |corr| && Strong(corr[a][b]) ensures (names[a], names[b]) in pairs {
      var k := PairsBeforeComplete(corr, |corr|, a, b);
      assert pairs[k] == (names[a], names[b]);
    }
  }

  /** The correlation note names every strongly correlated pair of different
      numeric columns, by the columns' names, and nothing else. */
  lemma CorrelationNoteNames(d: Dataset, corr: Matrix)
    requires Fits(d, corr) && CorrelationNote(d, corr) != []
    ensures var pairs := CorrelationNote(d, corr)[0].pairs;
      var names := NamesAt(d, IndicesOfKind(d, Numeric));
      && (forall q :: 0 <= q < |pairs| ==> NamesStrongPair(names, corr, pairs[q]))
      && (forall a, b :: 0 <= a < b < |corr| && Strong(corr[a][b]) ==> (names[a], names[b]) in pairs)
  {
    var names := NamesAt(d, IndicesOfKind(d, Numeric));
    assert CorrelationNote(d, corr)[0].pairs == NamePairs(names, StrongPairs(corr));
    NamedStrongPairs(names, corr);
  }

  /** The missing-data note is reported exactly when some column is heavily
      missing, and then it is a single note. */
  lemma MissingNoteIff(d: Dataset)
    ensures MissingNote(d) != [] <==> HasHeavyMissing(d)
    ensures |MissingNote(d)| <= 1
  {
    var heavy := HighMissingIndices(d);
    if HasHeavyMissing(d) {
      var i :| 0 <= i < |d.columns| && HeavilyMissing(d, d.columns[i]);
      var k := HeavyComplete(d, i);
    }
    if heavy != [] {
      assert heavy[0] < |d.columns| && HeavilyMissing(d, d.columns[heavy[0]]);
    }
  }

  /** `name` is the name of a heavily missing column. */
  predicate NamesHeavyColumn(d: Dataset, name: string) {
    exists i :: 0 <= i < |d.columns| && HeavilyMissing(d, d.columns[i]) && name == d.columns[i].name
  }

  /** The missing-data note names every heavily missing column, once each,
      and nothing else. */
  lemma MissingNoteNames(d: Dataset)
    requires WellFormed(d)
    requires MissingNote(d) != []
    ensures
      var columns := MissingNote(d)[0].columns;
      && NoDuplicates(columns)
      && (forall q :: 0 <= q < |columns| ==> NamesHeavyColumn(d, columns[q]))
      && (forall i :: 0 <= i < |d.columns| && HeavilyMissing(d, d.columns[i]) ==> d.columns[i].name in columns)
  {
    var heavy := HighMissingIndices(d);
    var columns := NamesAt(d, heavy);
    assert MissingNote(d)[0].columns == columns;
    assert NoDuplicates(heavy);
    forall q | 0 <= q < |columns| ensures NamesHeavyColumn(d, columns[q]) {
      var i := heavy[q];
      assert i < |d.columns| && HeavilyMissing(d, d.columns[i]) && columns[q] == d.columns[i].name;
    }
    forall i | 0 <= i < |d.columns| && HeavilyMissing(d, d.columns[i]) ensures d.columns[i].name in columns {
      var k := HeavyComplete(d, i);
      assert columns[k] == d.columns[i].name;
    }
  }

  /** The position of each kind of note in the report. */
  function Rank(t: Trend): nat {
    match t
    case TimeSeries => 0
    case StrongCorrelation(_) => 1
    case HighMissing(_) => 2
    case NoTrends => 3
  }

  /** The notes each rule can contribute: none, or one of its own kind. */
  predicate Notes(time: seq<Trend>, strong: seq<Trend>, missing: seq<Trend>) {
    && (time == [] || time == [TimeSeries])
    && (strong == [] || (|strong| == 1 && strong[0].StrongCorrelation?))
    && (missing == [] || (|missing| == 1 && missing[0].HighMissing?))
  }

  /** Assembled from such notes, the report is never empty, holds each note
      at most once, in rule order, and holds the "nothing found" note only
      alone. */
  lemma ReportShape(time: seq<Trend>, strong: seq<Trend>, missing: seq<Trend>)
    requires Notes(time, strong, missing)
    ensures var r := Report(time, strong, missing);
      && 1 <= |r| <= 3
      && (forall k, m :: 0 <= k < m < |r| ==> Rank(r[k]) < Rank(r[m]))
      && (NoTrends in r <==> r == [NoTrends])
  {
    var found := time + strong + missing;
    var s := if strong == [] then [] else [Rank(strong[0])];
    var m := if missing == [] then [] else [Rank(missing[0])];
    var ranks := (if time == [] then [] else [0]) + s + m;
    assert |found| == |ranks|;
    forall k | 0 <= k < |found| ensures Rank(found[k]) == ranks[k] && found[k] != NoTrends {
      if k < |time| {
        assert found[k] == time[k];
      } else if k < |time| + |strong| {
        assert found[k] == strong[k - |time|];
      } else {
        assert found[k] == missing[k - |time| - |strong|];
      }
    }
  }

  /** Each note is in the report exactly when its rule contributed it, and
      the "nothing found" note exactly when no rule did. */
  lemma ReportContents(time: seq<Trend>, strong: seq<Trend>, missing: seq<Trend>)
    requires Notes(time, strong, missing)
    ensures var r := Report(time, strong, missing);
      && (TimeSeries in r <==> time != [])
      && ((exists k :: 0 <= k < |r| && r[k].StrongCorrelation?) <==> strong != [])
      && ((exists k :: 0 <= k < |r| && r[k].HighMissing?) <==> missing != [])
      && (r == [NoTrends] <==> time == [] && strong == [] && missing == [])
  {
    var found := time + strong + missing;
    forall k | 0 <= k < |found|
      ensures k < |time| ==> found[k] == TimeSeries
      ensures |time| <= k < |time| + |strong| ==> found[k] == strong[k - |time|]
      ensures |time| + |strong| <= k ==> found[k] == missing[k - |time| - |strong|]
    {
    }
    if strong != [] {
      assert found[|time|].StrongCorrelation?;
    }
    if missing != [] {
      assert found[|time| + |strong|].HighMissing?;
    }
  }

  /** The rules of `find_trends` contribute notes of their own kinds. */
  lemma TrendNotes(d: Dataset, corr: Matrix)
    requires Fits(d, corr)
    ensures Notes(TimeNote(d), CorrelationNote(d, corr), MissingNote(d))
  {
  }

  /** What `find_trends` reports is never empty, holds each note at most
      once, in rule order, and holds the "nothing found" note only alone. */
  lemma TrendsShape(d: Dataset, corr: Matrix)
    requires Fits(d, corr)
    ensures var r := Trends(d, corr);
      && 1 <= |r| <= 3
      && (forall k, m :: 0 <= k < m < |r| ==> Rank(r[k]) < Rank(r[m]))
      && (NoTrends in r <==> r == [NoTrends])
  {
    TrendNotes(d, corr);
    ReportShape(TimeNote(d), CorrelationNote(d, corr), MissingNote(d));
  }

  /** Each note of `find_trends` is reported exactly when its rule fires,
      and the "nothing found" note exactly when no rule fires. */
  lemma TrendsReport(d: Dataset, corr: Matrix)
    requires WellFormed(d) && Fits(d, corr)
    ensures var r := Trends(d, corr);
      && (TimeSeries in r <==> HasTimeSeries(d))
      && ((exists k :: 0 <= k < |r| && r[k].StrongCorrelation?) <==> HasStrongPair(corr))
      && ((exists k :: 0 <= k < |r| && r[k].HighMissing?) <==> HasHeavyMissing(d))
      && (r == [NoTrends] <==> !HasTimeSeries(d) && !HasStrongPair(corr) && !HasHeavyMissing(d))
  {
    TimeNoteIff(d);
    CorrelationNoteIff(d, corr);
    MissingNoteIff(d);
    TrendNotes(d, corr);
    ReportContents(TimeNote(d), CorrelationNote(d, corr), MissingNote(d));
  }

  /** On a table without rows every coefficient is NaN and nothing is missing,
      yet the time-series note is still reported when the table has a date
      column and a numeric column. */
  lemma EmptyTableTrends(d: Dataset, corr: Matrix)
    requires WellFormed(d) && Fits(d, corr) && d.rows == 0
    requires forall a, b :: 0 <= a < |corr| && 0 <= b < |corr| ==> corr[a][b].None?
    ensures Trends(d, corr) == if HasTimeSeries(d) then [TimeSeries] else [NoTrends]
  {
    TimeNoteIff(d);
    CorrelationNoteIff(d, corr);
    MissingNoteIff(d);
    forall i | 0 <= i < |d.columns| ensures !HeavilyMissing(d, d.columns[i]) {
      assert |d.columns[i].cells| == 0;
    }
  }
}
