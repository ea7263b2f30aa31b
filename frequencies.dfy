/** Frequency tables of a column: pandas `value_counts()` followed by
    `head(k)`. Missing cells are not counted. The order among values of equal
    frequency is not fixed by pandas, so the contracts leave it open; the
    function below happens to keep first appearance among ties. */
module Frequencies {
  import opened Table

  /** The frequency table `e` has an entry for `v`. */
  predicate Listed(e: seq<(Value, nat)>, v: Value) {
    exists i :: 0 <= i < |e| && e[i].0 == v
  }

  /** `e` is a correct answer to `value_counts().head(k)` on `cells`: at most
      `k` distinct present values, each with its exact number of occurrences,
      in non-increasing order of count, and no value left out unless all `k`
      places are taken by values at least as frequent. */
  ghost predicate IsTopCounts(cells: seq<Option<Value>>, k: nat, e: seq<(Value, nat)>) {
    && |e| <= k
    && (forall i :: 0 <= i < |e| ==> e[i].1 == Occurrences(cells, e[i].0) && e[i].1 > 0)
    && (forall i, j :: 0 <= i < j < |e| ==> e[i].0 != e[j].0)
    && (forall i, j :: 0 <= i < j < |e| ==> e[i].1 >= e[j].1)
    && (forall v :: Some(v) in cells && !Listed(e, v) ==>
          |e| == k && (k > 0 ==> Occurrences(cells, v) <= e[k - 1].1))
  }

  /** Every entry's value appears in no other entry. */
  predicate DistinctLabels(e: seq<(Value, nat)>) {
    forall i, j :: 0 <= i < j < |e| ==> e[i].0 != e[j].0
  }

  /** Each of `vals` paired with its number of occurrences. */
  function Counted(cells: seq<Option<Value>>, vals: seq<Value>): (e: seq<(Value, nat)>)
    ensures |e| == |vals|
    ensures forall i :: 0 <= i < |vals| ==> e[i] == (vals[i], Occurrences(cells, vals[i]))
  {
    seq(|vals|, i requires 0 <= i < |vals| => (vals[i], Occurrences(cells, vals[i])))
  }

  /** The position of an entry with the highest count, the first one among
      equals. */
  function ArgMax(e: seq<(Value, nat)>): (m: nat)
    requires e != []
    ensures m < |e|
  {
    if |e| == 1 then 0
    else
      var n := |e| - 1;
      var m := ArgMax(e[..n]);
      if e[n].1 > e[m].1 then n else m
  }

  /** No entry has a higher count than the one `ArgMax` picks. */
  lemma {:induction false} ArgMaxIsMax(e: seq<(Value, nat)>, j: nat)
    requires j < |e|
    ensures e[j].1 <= e[ArgMax(e)].1
  {
    if |e| > 1 {
      var n := |e| - 1;
      if j < n {
        ArgMaxIsMax(e[..n], j);
        assert e[..n][j] == e[j];
      }
    }
  }

  /** `e` without its entry at position `m`. */
  function RemoveAt(e: seq<(Value, nat)>, m: nat): (rest: seq<(Value, nat)>)
    requires m < |e|
    ensures |rest| == |e| - 1
  {
    e[..m] + e[m + 1..]
  }

  /** Position `i` of what is left is position `Skip(i, m)` of `e`. */
  lemma RemoveAtIndex(e: seq<(Value, nat)>, m: nat, i: nat)
    requires m < |e| && i < |e| - 1
    ensures RemoveAt(e, m)[i] == e[Skip(i, m)]
  {
  }

  lemma RemoveAtKeepsDistinct(e: seq<(Value, nat)>, m: nat)
    requires DistinctLabels(e) && m < |e|
    ensures DistinctLabels(RemoveAt(e, m))
  {
    var rest := RemoveAt(e, m);
    forall i, j | 0 <= i < j < |rest| ensures rest[i].0 != rest[j].0 {
      RemoveAtIndex(e, m, i);
      RemoveAtIndex(e, m, j);
    }
  }

  /** The position in the original sequence of position `i` after removing
      position `m`. */
  function Skip(i: nat, m: nat): (j: nat)
    ensures j != m
  {
    if i < m then i else i + 1
  }

  /** Repeatedly takes an entry with the highest count out of `e`, `k` times
      or until none is left. The lemmas below state what it chooses. */
  function Pick(e: seq<(Value, nat)>, k: nat): (p: seq<(Value, nat)>)
    ensures |p| == Min(k, |e|)
    decreases k
  {
    if k == 0 || e == [] then []
    else
      var m := ArgMax(e);
      [e[m]] + Pick(RemoveAt(e, m), k - 1)
  }

  /** `Pick` first chooses an entry with the highest count, then picks from
      the rest. */
  lemma PickStep(e: seq<(Value, nat)>, k: nat, i: nat)
    requires k > 0 && e != [] && i < |Pick(e, k)|
    ensures Pick(e, k)[i] == if i == 0 then e[ArgMax(e)] else Pick(RemoveAt(e, ArgMax(e)), k - 1)[i - 1]
  {
  }

  /** Every entry `Pick` chooses comes from `e`, at the returned position. */
  lemma {:induction false} PickEntry(e: seq<(Value, nat)>, k: nat, i: nat) returns (q: nat)
    requires i < |Pick(e, k)|
    ensures q < |e| && e[q] == Pick(e, k)[i]
    decreases k
  {
    var m := ArgMax(e);
    PickStep(e, k, i);
    if i == 0 {
      q := m;
    } else {
      var q' := PickEntry(RemoveAt(e, m), k - 1, i - 1);
      RemoveAtIndex(e, m, q');
      q := Skip(q', m);
    }
  }

  /** Every entry `Pick` chooses after its first comes from `e` at a position
      other than that of its first choice. */
  lemma PickLater(e: seq<(Value, nat)>, k: nat, j: nat) returns (q: nat)
    requires 0 < j < |Pick(e, k)|
    ensures q < |e| && q != ArgMax(e) && e[q] == Pick(e, k)[j]
  {
    var m := ArgMax(e);
    var rest := RemoveAt(e, m);
    var q' := PickEntry(rest, k - 1, j - 1);
    PickStep(e, k, j);
    RemoveAtIndex(e, m, q');
    q := Skip(q', m);
  }

  /** `Pick` never chooses two entries with the same value. */
  lemma {:induction false} PickDistinct(e: seq<(Value, nat)>, k: nat, i: nat, j: nat)
    requires DistinctLabels(e)
    requires i < j < |Pick(e, k)|
    ensures Pick(e, k)[i].0 != Pick(e, k)[j].0
    decreases k
  {
    var m := ArgMax(e);
    PickStep(e, k, i);
    if i == 0 {
      var q := PickLater(e, k, j);
      assert e[q].0 != e[m].0;
    } else {
      var rest := RemoveAt(e, m);
      PickStep(e, k, j);
      RemoveAtKeepsDistinct(e, m);
      PickDistinct(rest, k - 1, i - 1, j - 1);
    }
  }

  /** `Pick` chooses entries in non-increasing order of count. */
  lemma {:induction false} PickOrdered(e: seq<(Value, nat)>, k: nat, i: nat, j: nat)
    requires i < j < |Pick(e, k)|
    ensures Pick(e, k)[i].1 >= Pick(e, k)[j].1
    decreases k
  {
    var m := ArgMax(e);
    PickStep(e, k, i);
    if i == 0 {
      var q := PickLater(e, k, j);
      ArgMaxIsMax(e, q);
    } else {
      var rest := RemoveAt(e, m);
      PickStep(e, k, j);
      PickOrdered(rest, k - 1, i - 1, j - 1);
    }
  }

  /** A value `Pick` leaves out is also left out after its first choice. */
  lemma PickOmitsInTail(e: seq<(Value, nat)>, k: nat, v: Value)
    requires k > 0 && e != [] && !Listed(Pick(e, k), v)
    ensures !Listed(Pick(RemoveAt(e, ArgMax(e)), k - 1), v)
  {
    var tail := Pick(RemoveAt(e, ArgMax(e)), k - 1);
    forall i | 0 <= i < |tail| ensures tail[i].0 != v {
      PickStep(e, k, i + 1);
    }
  }

  /** An entry of `e` whose value `Pick` leaves out has no higher count than
      the last entry it chooses, and it leaves one out only when all `k`
      places are taken. */
  lemma {:induction false} PickLeavesOutLessFrequent(e: seq<(Value, nat)>, k: nat, q: nat)
    requires q < |e| && !Listed(Pick(e, k), e[q].0)
    ensures |Pick(e, k)| == k
    ensures k > 0 ==> e[q].1 <= Pick(e, k)[k - 1].1
    decreases k
  {
    if k != 0 {
      var p := Pick(e, k);
      var m := ArgMax(e);
      PickStep(e, k, 0);
      assert p[0].0 != e[q].0;
      ArgMaxIsMax(e, q);
      if k > 1 {
        var rest := RemoveAt(e, m);
        var tail := Pick(rest, k - 1);
        var q' := if q < m then q else q - 1;
        assert q != m && Skip(q', m) == q;
        RemoveAtIndex(e, m, q');
        PickOmitsInTail(e, k, e[q].0);
        PickLeavesOutLessFrequent(rest, k - 1, q');
        PickStep(e, k, k - 1);
      }
    }
  }

  /** With room for all of them, `Pick` chooses every entry of `e`. */
  lemma {:induction false} PickChoosesAll(e: seq<(Value, nat)>, k: nat, q: nat) returns (i: nat)
    requires k >= |e| && q < |e|
    ensures i < |Pick(e, k)| && Pick(e, k)[i] == e[q]
    decreases k
  {
    var m := ArgMax(e);
    var p := Pick(e, k);
    if q == m {
      i := 0;
    } else {
      var rest := RemoveAt(e, m);
      var q' := if q < m then q else q - 1;
      RemoveAtIndex(e, m, q');
      var i' := PickChoosesAll(rest, k - 1, q');
      i := i' + 1;
      assert p[i] == Pick(rest, k - 1)[i'];
    }
  }

  /** `value_counts().head(k)`; `TopCountsCorrect` states what it lists. */
  function TopCounts(cells: seq<Option<Value>>, k: nat): (r: seq<(Value, nat)>)
    ensures |r| <= k
  {
    Pick(Counted(cells, Distinct(cells)), k)
  }

  /** `TopCounts` answers `value_counts().head(k)` correctly, has as many
      entries as there are distinct values up to `k`, and lists every present
      value when there is room for all of them. */
  lemma TopCountsCorrect(cells: seq<Option<Value>>, k: nat)
    ensures IsTopCounts(cells, k, TopCounts(cells, k))
    ensures |TopCounts(cells, k)| == Min(k, |Distinct(cells)|)
    ensures k >= |Distinct(cells)| ==> forall v :: Some(v) in cells ==> Listed(TopCounts(cells, k), v)
  {
    var vals := Distinct(cells);
    var e := Counted(cells, vals);
    var r := Pick(e, k);
    forall i | 0 <= i < |r| ensures r[i].1 == Occurrences(cells, r[i].0) && r[i].1 > 0 {
      var q := PickEntry(e, k, i);
      assert vals[q] in vals;
      OccursIffPresent(cells, vals[q]);
    }
    forall i, j | 0 <= i < j < |r| ensures r[i].0 != r[j].0 && r[i].1 >= r[j].1 {
      PickDistinct(e, k, i, j);
      PickOrdered(e, k, i, j);
    }
    forall v | Some(v) in cells && !Listed(r, v)
      ensures |r| == k && (k > 0 ==> Occurrences(cells, v) <= r[k - 1].1)
    {
      var q := DistinctComplete(cells, v);
      PickLeavesOutLessFrequent(e, k, q);
    }
    forall v | k >= |vals| && Some(v) in cells
      ensures Listed(r, v)
    {
      var q := DistinctComplete(cells, v);
      var i := PickChoosesAll(e, k, q);
    }
  }

  /** The whole of `value_counts()`: every present value is listed. */
  function AllCounts(cells: seq<Option<Value>>): (r: seq<(Value, nat)>)
    ensures IsTopCounts(cells, |cells|, r)
    ensures forall v :: Some(v) in cells <==> Listed(r, v)
  {
    var r := TopCounts(cells, |cells|);
    TopCountsCorrect(cells, |cells|);
    forall v | Listed(r, v) ensures Some(v) in cells {
      OccursIffPresent(cells, v);
    }
    r
  }
}
