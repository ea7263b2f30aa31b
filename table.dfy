/** The typed table that the three agents read.

    A pandas DataFrame is reduced to what their decision logic looks at: an
    ordered sequence of named columns, each with the storage kind pandas reports
    (what `select_dtypes` filters on) and its cells, a missing cell (NaN, None,
    NaT) being `None`. The row count is kept apart from the columns because a
    DataFrame can have rows and no columns. */
module Table {

  datatype Option<+T> = None | Some(value: T)

  /** `select_dtypes(include=['number'])`, `['object']` and `['datetime64']`
      pick the first three; booleans, categoricals and the rest are `Other`. */
  datatype Kind = Numeric | Object | Datetime | Other

  /** A cell value. The core only ever compares cells for equality. */
  datatype Value = Number(n: real) | Text(s: string) | Stamp(t: int) | Flag(b: bool)

  datatype Column = Column(name: string, kind: Kind, cells: seq<Option<Value>>)

  datatype Dataset = Dataset(rows: nat, columns: seq<Column>)

  /** Every column holds one cell per row, and no two columns share a name. */
  predicate WellFormed(d: Dataset) {
    && (forall i :: 0 <= i < |d.columns| ==> |d.columns[i].cells| == d.rows)
    && (forall i, j :: 0 <= i < j < |d.columns| ==> d.columns[i].name != d.columns[j].name)
  }

  /** pandas `DataFrame.empty`: no rows or no columns. */
  predicate Empty(d: Dataset) {
    d.rows == 0 || |d.columns| == 0
  }

  function Min(a: int, b: int): int {
    if a <= b then a else b
  }

  predicate NoDuplicates<T(==)>(s: seq<T>) {
    forall i, j :: 0 <= i < j < |s| ==> s[i] != s[j]
  }

  /** The column names, in declaration order. */
  function Names(d: Dataset): (r: seq<string>)
    ensures |r| == |d.columns|
    ensures forall i :: 0 <= i < |d.columns| ==> r[i] == d.columns[i].name
  {
    seq(|d.columns|, i requires 0 <= i < |d.columns| => d.columns[i].name)
  }

  /** The names of the columns at the given positions, in the order given;
      distinct positions of a well-formed table give distinct names. */
  function NamesAt(d: Dataset, idx: seq<nat>): (r: seq<string>)
    requires forall k :: 0 <= k < |idx| ==> idx[k] < |d.columns|
    ensures |r| == |idx|
    ensures forall k :: 0 <= k < |idx| ==> r[k] == d.columns[idx[k]].name
    ensures WellFormed(d) && NoDuplicates(idx) ==> NoDuplicates(r)
  {
    seq(|idx|, k requires 0 <= k < |idx| => d.columns[idx[k]].name)
  }

  /** The names of the columns of kind `k`. */
  function NamesOfKind(d: Dataset, k: Kind): set<string> {
    set i | 0 <= i < |d.columns| && d.columns[i].kind == k :: d.columns[i].name
  }

  /** The elements of a sequence, as a set. */
  function Elements<T>(s: seq<T>): set<T> {
    set k | 0 <= k < |s| :: s[k]
  }

  /** A dictionary from distinct keys to the values at the same positions, as
      `to_dict()` builds it from a Series indexed by column name. */
  function Keyed<T>(keys: seq<string>, vals: seq<T>): (m: map<string, T>)
    requires |keys| == |vals| && NoDuplicates(keys)
    ensures m.Keys == Elements(keys)
    ensures forall k :: 0 <= k < |keys| ==> keys[k] in m && m[keys[k]] == vals[k]
  {
    map k | 0 <= k < |keys| :: keys[k] := vals[k]
  }

  /** The positions of the columns that satisfy `p`, left to right: a boolean
      column mask turned into the index it selects. `WhereComplete` states
      that no such column is left out. */
  function Where(cols: seq<Column>, p: Column -> bool): (r: seq<nat>)
    ensures forall k :: 0 <= k < |r| ==> r[k] < |cols| && p(cols[r[k]])
    ensures forall k, l :: 0 <= k < l < |r| ==> r[k] < r[l]
  {
    if cols == [] then []
    else
      var n := |cols| - 1;
      Where(cols[..n], p) + (if p(cols[n]) then [n] else [])
  }

  /** Every column that satisfies `p` is selected, at the returned position. */
  lemma {:induction false} WhereComplete(cols: seq<Column>, p: Column -> bool, i: nat) returns (k: nat)
    requires i < |cols| && p(cols[i])
    ensures k < |Where(cols, p)| && Where(cols, p)[k] == i
  {
    var n := |cols| - 1;
    var prefix := Where(cols[..n], p);
    if i < n {
      assert cols[..n][i] == cols[i];
      k := WhereComplete(cols[..n], p, i);
      assert Where(cols, p)[k] == prefix[k];
    } else {
      k := |prefix|;
    }
  }

  /** `select_dtypes(include=[kind]).columns`, as positions; `KindComplete`
      states that no column of the kind is left out. */
  function IndicesOfKind(d: Dataset, k: Kind): (r: seq<nat>)
    ensures forall m :: 0 <= m < |r| ==> r[m] < |d.columns| && d.columns[r[m]].kind == k
    ensures forall m, l :: 0 <= m < l < |r| ==> r[m] < r[l]
  {
    Where(d.columns, (c: Column) => c.kind == k)
  }

  /** Every column of kind `k` is selected, at the returned position. */
  lemma KindComplete(d: Dataset, k: Kind, i: nat) returns (m: nat)
    requires i < |d.columns| && d.columns[i].kind == k
    ensures m < |IndicesOfKind(d, k)| && IndicesOfKind(d, k)[m] == i
  {
    m := WhereComplete(d.columns, (c: Column) => c.kind == k, i);
  }

  /** The names at the positions of a kind are the names of that kind. */
  lemma NamesAtKind(d: Dataset, k: Kind)
    ensures var names := NamesAt(d, IndicesOfKind(d, k));
      Elements(names) == NamesOfKind(d, k)
  {
    var r := IndicesOfKind(d, k);
    var names := NamesAt(d, r);
    forall x | x in NamesOfKind(d, k) ensures x in Elements(names) {
      var i :| 0 <= i < |d.columns| && d.columns[i].kind == k && d.columns[i].name == x;
      var m := KindComplete(d, k, i);
      assert names[m] == x;
    }
    forall x | x in Elements(names) ensures x in NamesOfKind(d, k) {
      var m :| 0 <= m < |names| && names[m] == x;
      assert d.columns[r[m]].kind == k;
    }
  }

  /** Column `i` is the leftmost column of kind `k`. */
  predicate Leftmost(d: Dataset, k: Kind, i: nat) {
    i < |d.columns| && d.columns[i].kind == k && forall j :: 0 <= j < i ==> d.columns[j].kind != k
  }

  /** Column `j` is the next column of kind `k` to the right of column `i`. */
  predicate NextOfKind(d: Dataset, k: Kind, i: nat, j: nat) {
    i < j < |d.columns| && d.columns[j].kind == k && forall m :: i < m < j ==> d.columns[m].kind != k
  }

  /** The first position of a kind is its leftmost column, and there is one
      exactly when the table has a column of that kind. */
  lemma FirstOfKind(d: Dataset, k: Kind)
    ensures var r := IndicesOfKind(d, k);
      && (|r| > 0 ==> Leftmost(d, k, r[0]))
      && (|r| > 0 <==> exists i :: 0 <= i < |d.columns| && d.columns[i].kind == k)
  {
    var r := IndicesOfKind(d, k);
    forall i | 0 <= i < |d.columns| && d.columns[i].kind == k ensures |r| > 0 && r[0] <= i {
      var m := KindComplete(d, k, i);
      if m > 0 {
        assert r[0] < r[m];
      }
    }
  }

  /** The second position of a kind is the next column of that kind after the
      leftmost, and there is one exactly when the table has two such columns. */
  lemma SecondOfKind(d: Dataset, k: Kind)
    ensures var r := IndicesOfKind(d, k);
      && (|r| > 1 ==> NextOfKind(d, k, r[0], r[1]))
      && (|r| > 1 <==> exists i, j :: 0 <= i < j < |d.columns| && d.columns[i].kind == k && d.columns[j].kind == k)
  {
    var r := IndicesOfKind(d, k);
    forall j | 0 <= j < |d.columns| && d.columns[j].kind == k && |r| > 1 && r[0] < j ensures r[1] <= j {
      var m := KindComplete(d, k, j);
      if m > 1 {
        assert r[1] < r[m];
      }
    }
    forall i, j | 0 <= i < j < |d.columns| && d.columns[i].kind == k && d.columns[j].kind == k
      ensures |r| > 1
    {
      var a := KindComplete(d, k, i);
      var b := KindComplete(d, k, j);
      assert a != b;
    }
  }

  /** There are three positions of a kind exactly when the table has three
      columns of that kind. */
  lemma ThreeOfKind(d: Dataset, k: Kind)
    ensures var r := IndicesOfKind(d, k);
      |r| > 2 <==> exists i, j, l :: 0 <= i < j < l < |d.columns|
                     && d.columns[i].kind == k && d.columns[j].kind == k && d.columns[l].kind == k
  {
    var r := IndicesOfKind(d, k);
    forall i, j, l | 0 <= i < j < l < |d.columns|
        && d.columns[i].kind == k && d.columns[j].kind == k && d.columns[l].kind == k
      ensures |r| > 2
    {
      var a := KindComplete(d, k, i);
      var b := KindComplete(d, k, j);
      var c := KindComplete(d, k, l);
      assert a != b && b != c && a != c;
    }
    if |r| > 2 {
      assert r[0] < r[1] < r[2];
    }
  }

  /** `isnull().sum()` for one column. */
  function MissingCount(cells: seq<Option<Value>>): (r: nat)
    ensures r <= |cells|
  {
    if cells == [] then 0
    else
      var n := |cells| - 1;
      MissingCount(cells[..n]) + (if cells[n].None? then 1 else 0)
  }

  /** The missing count is the number of row positions holding no value. */
  lemma {:induction false} MissingCountIsMissingRows(cells: seq<Option<Value>>)
    ensures MissingCount(cells) == |set i | 0 <= i < |cells| && cells[i].None?|
  {
    if cells != [] {
      var n := |cells| - 1;
      var prefix := cells[..n];
      MissingCountIsMissingRows(prefix);
      var s := set i | 0 <= i < |cells| && cells[i].None?;
      var t := set i | 0 <= i < |prefix| && prefix[i].None?;
      if cells[n].None? {
        assert s == t + {n};
      } else {
        assert s == t;
      }
    }
  }

  /** The cells that are not missing are the rest: `count()`. */
  lemma {:induction false} PresentRows(cells: seq<Option<Value>>)
    ensures |cells| - MissingCount(cells) == |set i | 0 <= i < |cells| && cells[i].Some?|
  {
    if cells != [] {
      var n := |cells| - 1;
      var prefix := cells[..n];
      PresentRows(prefix);
      var s := set i | 0 <= i < |cells| && cells[i].Some?;
      var t := set i | 0 <= i < |prefix| && prefix[i].Some?;
      if cells[n].Some? {
        assert s == t + {n};
      } else {
        assert s == t;
      }
    }
  }

  /** How often `v` occurs among the cells; a missing cell never matches. */
  function Occurrences(cells: seq<Option<Value>>, v: Value): (r: nat)
    ensures r <= |cells|
  {
    if cells == [] then 0
    else (if cells[0] == Some(v) then 1 else 0) + Occurrences(cells[1..], v)
  }

  /** A value occurs at least once exactly when some cell holds it. */
  lemma {:induction false} OccursIffPresent(cells: seq<Option<Value>>, v: Value)
    ensures Occurrences(cells, v) > 0 <==> Some(v) in cells
  {
    if cells != [] {
      OccursIffPresent(cells[1..], v);
      assert cells == [cells[0]] + cells[1..];
    }
  }

  /** The distinct values present in the cells, in order of first appearance;
      `DistinctComplete` states that no present value is left out. */
  function Distinct(cells: seq<Option<Value>>): (r: seq<Value>)
    ensures NoDuplicates(r)
    ensures |r| <= |cells|
    ensures forall q :: 0 <= q < |r| ==> Some(r[q]) in cells
  {
    if cells == [] then []
    else
      var n := |cells| - 1;
      var prefix := Distinct(cells[..n]);
      assert cells == cells[..n] + [cells[n]];
      if cells[n].Some? && cells[n].value !in prefix then prefix + [cells[n].value] else prefix
  }

  /** Every value present in the cells is listed, at the returned position. */
  lemma {:induction false} DistinctComplete(cells: seq<Option<Value>>, v: Value) returns (q: nat)
    requires Some(v) in cells
    ensures q < |Distinct(cells)| && Distinct(cells)[q] == v
  {
    var n := |cells| - 1;
    var prefix := Distinct(cells[..n]);
    assert cells == cells[..n] + [cells[n]];
    if Some(v) in cells[..n] {
      q := DistinctComplete(cells[..n], v);
      assert Distinct(cells)[q] == prefix[q];
    } else {
      assert cells[n] == Some(v);
      forall j | 0 <= j < |prefix| ensures prefix[j] != v {
        assert Some(prefix[j]) in cells[..n];
      }
      q := |prefix|;
    }
  }
}
