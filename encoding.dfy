/** Label encodings shared by both classification layers: the label dictionary
    `dict(zip(keys, range(len(keys))))`, the one-hot table
    `[[1 if j == i else 0 for j in range(n)] for i in range(n)]`, Python list
    indexing, numpy's `argmax` of one row, and the per-label counts
    `[ys.count(table[i]) for i in range(n)]`. */
module Encoding {

  datatype Option<T> = None | Some(value: T)

  predicate Distinct<T(==)>(s: seq<T>)
  {
    forall i, j :: 0 <= i < j < |s| ==> s[i] != s[j]
  }

  // ---------------------------------------------------------------------------
  // Python list indexing
  // ---------------------------------------------------------------------------

  /** `table[i]` with Python's rules: a negative index counts from the end, and an
      index outside `-len(table) <= i < len(table)` raises `IndexError` (None). */
  function PyIndex<T>(table: seq<T>, i: int): (r: Option<T>)
    ensures r.Some? <==> -|table| <= i < |table|
    ensures 0 <= i < |table| ==> r == Some(table[i])
    ensures -|table| <= i < 0 ==> r == Some(table[|table| + i])
  {
    if 0 <= i < |table| then Some(table[i])
    else if -|table| <= i < 0 then Some(table[|table| + i])
    else None
  }

  // ---------------------------------------------------------------------------
  // The one-hot table
  // ---------------------------------------------------------------------------

  /** Row `i` of the one-hot table of width `n`: 1 at position `i`, 0 elsewhere. */
  predicate IsOneHot(v: seq<int>, i: int)
  {
    forall j :: 0 <= j < |v| ==> v[j] == (if j == i then 1 else 0)
  }

  /** `[[1 if j == i else 0 for j in range(n)] for i in range(n)]`; `range` of a
      negative number is empty. */
  function OneHotTable(n: int): (t: seq<seq<int>>)
    ensures |t| == (if n > 0 then n else 0)
    ensures forall i :: 0 <= i < |t| ==> |t[i]| == |t| && IsOneHot(t[i], i)
  {
    if n <= 0 then []
    else seq(n, i requires 0 <= i < n => seq(n, j requires 0 <= j < n => if j == i then 1 else 0))
  }

  /** Different labels get different rows: the encoding loses nothing. */
  lemma OneHotRowsDistinct(n: int)
    ensures Distinct(OneHotTable(n))
  {
    var t := OneHotTable(n);
    forall i, j | 0 <= i < j < |t| ensures t[i] != t[j] {
      assert t[i][i] == 1 && t[j][i] == 0;
    }
  }

  // ---------------------------------------------------------------------------
  // numpy.argmax of one row
  // ---------------------------------------------------------------------------

  /** `np.argmax(v)`: the first position holding the largest value. numpy raises
      on an empty array, so `v` must have an element. */
  function ArgMax(v: seq<int>): (k: nat)
    requires |v| > 0
    ensures k < |v|
    ensures forall j :: 0 <= j < |v| ==> v[j] <= v[k]
    ensures forall j :: 0 <= j < k ==> v[j] < v[k]
    decreases |v|
  {
    if |v| == 1 then 0
    else
      var k := ArgMax(v[..|v| - 1]);
      if v[|v| - 1] > v[k] then |v| - 1 else k
  }

  /** argmax of row `i` of the one-hot table is `i`, so turning one-hot targets into
      class indices (regressor mode) recovers the index exactly. */
  lemma ArgMaxOneHot(n: int, i: int)
    requires 0 <= i < n
    ensures ArgMax(OneHotTable(n)[i]) == i
  {
    var row := OneHotTable(n)[i];
    var k := ArgMax(row);
    assert row[i] == 1;
  }

  /** `[np.argmax(x) for x in ys]` */
  function ClassIndices(ys: seq<seq<int>>): (r: seq<nat>)
    requires forall k :: 0 <= k < |ys| ==> |ys[k]| > 0
    ensures |r| == |ys|
    ensures forall k :: 0 <= k < |ys| ==> r[k] < |ys[k]| && forall j :: 0 <= j < |ys[k]| ==> ys[k][j] <= ys[k][r[k]]
  {
    seq(|ys|, k requires 0 <= k < |ys| => ArgMax(ys[k]))
  }

  /** Targets drawn from the one-hot table of width `n` convert back to the
      indices they were drawn with. */
  lemma {:induction false} ClassIndicesOfOneHot(n: int, idx: seq<int>, ys: seq<seq<int>>)
    requires |idx| == |ys|
    requires forall k :: 0 <= k < |idx| ==> 0 <= idx[k] < n && ys[k] == OneHotTable(n)[idx[k]]
    ensures forall k :: 0 <= k < |ys| ==> |ys[k]| > 0
    ensures ClassIndices(ys) == idx
  {
    forall k | 0 <= k < |ys| ensures |ys[k]| > 0 && ArgMax(ys[k]) == idx[k] {
      ArgMaxOneHot(n, idx[k]);
    }
  }

  // ---------------------------------------------------------------------------
  // The label dictionary
  // ---------------------------------------------------------------------------

  /** `dict(zip(keys, range(len(keys))))`: a repeated key keeps the index of its
      last occurrence, as a later pair overwrites an earlier one. */
  function LabelDict(keys: seq<string>): (d: map<string, int>)
    ensures forall k :: k in d <==> k in keys
    ensures forall k :: k in d ==> 0 <= d[k] < |keys| && keys[d[k]] == k
    decreases |keys|
  {
    if |keys| == 0 then map[]
    else LabelDict(keys[..|keys| - 1])[keys[|keys| - 1] := |keys| - 1]
  }

  /** With distinct keys (configuration option names always are), the i-th key maps
      to i and the dictionary has one entry per key. */
  lemma {:induction false} LabelDictOfDistinct(keys: seq<string>)
    requires Distinct(keys)
    ensures |LabelDict(keys)| == |keys|
    ensures forall i :: 0 <= i < |keys| ==> LabelDict(keys)[keys[i]] == i
    decreases |keys|
  {
    if |keys| > 0 {
      var init := keys[..|keys| - 1];
      LabelDictOfDistinct(init);
      assert keys[|keys| - 1] !in init;
      assert keys[|keys| - 1] !in LabelDict(init);
    }
  }

  /** The classification layers build `outputs` from the dictionary they look labels
      up in; every index the dictionary yields then picks a row of `outputs`, and
      that row is the one-hot vector of the index. */
  lemma LabelSetup(keys: seq<string>)
    requires Distinct(keys)
    ensures var d := LabelDict(keys); var t := OneHotTable(|d|);
      |t| == |keys| &&
      forall key :: key in d ==> 0 <= d[key] < |t| && |t[d[key]]| == |keys| && IsOneHot(t[d[key]], d[key])
  {
    LabelDictOfDistinct(keys);
  }

  // ---------------------------------------------------------------------------
  // label_count
  // ---------------------------------------------------------------------------

  /** `ys.count(v)` */
  function Count(ys: seq<seq<int>>, v: seq<int>): nat
    decreases |ys|
  {
    if |ys| == 0 then 0
    else Count(ys[..|ys| - 1], v) + (if ys[|ys| - 1] == v then 1 else 0)
  }

  /** `[ys.count(table[i]) for i in range(n)]` */
  function LabelCount(ys: seq<seq<int>>, table: seq<seq<int>>, n: int): (c: seq<nat>)
    requires n <= |table|
    ensures |c| == (if n > 0 then n else 0)
    ensures forall i :: 0 <= i < |c| ==> c[i] == Count(ys, table[i])
  {
    if n <= 0 then [] else seq(n, i requires 0 <= i < n => Count(ys, table[i]))
  }

  function Sum(s: seq<nat>): nat
    decreases |s|
  {
    if |s| == 0 then 0 else Sum(s[..|s| - 1]) + s[|s| - 1]
  }

  lemma {:induction false} SumPointwise(a: seq<nat>, b: seq<nat>, c: seq<nat>)
    requires |a| == |b| == |c|
    requires forall i :: 0 <= i < |c| ==> c[i] == a[i] + b[i]
    ensures Sum(c) == Sum(a) + Sum(b)
    decreases |c|
  {
    if |c| > 0 {
      var n := |c| - 1;
      SumPointwise(a[..n], b[..n], c[..n]);
    }
  }

  lemma {:induction false} SumIndicator(s: seq<nat>, k: int)
    requires forall i :: 0 <= i < |s| ==> s[i] == (if i == k then 1 else 0)
    ensures Sum(s) == (if 0 <= k < |s| then 1 else 0)
    decreases |s|
  {
    if |s| > 0 {
      SumIndicator(s[..|s| - 1], k);
    }
  }

  /** `v` is one of the first `n` rows of `table`. */
  predicate IsRowOf(v: seq<int>, table: seq<seq<int>>, n: int)
  {
    exists i :: 0 <= i < n && i < |table| && v == table[i]
  }

  /** Every target is one of the first `n` rows of `table`. */
  predicate DrawnFrom(ys: seq<seq<int>>, table: seq<seq<int>>, n: int)
  {
    forall k :: 0 <= k < |ys| ==> IsRowOf(ys[k], table, n)
  }

  /** When every target is one of the first `n` rows of a table of distinct rows,
      the per-label counts add up to the number of targets. */
  lemma {:induction false} LabelCountSum(ys: seq<seq<int>>, table: seq<seq<int>>, n: int)
    requires n <= |table| && Distinct(table)
    requires DrawnFrom(ys, table, n)
    ensures Sum(LabelCount(ys, table, n)) == |ys|
    decreases |ys|
  {
    if |ys| == 0 {
      var c := LabelCount(ys, table, n);
      SumIndicator(c, -1);
    } else {
      var m := |ys| - 1;
      var init := ys[..m];
      assert forall k :: 0 <= k < m ==> init[k] == ys[k];
      LabelCountSum(init, table, n);
      var i0 :| 0 <= i0 < n && i0 < |table| && ys[m] == table[i0];
      var before := LabelCount(init, table, n);
      var after := LabelCount(ys, table, n);
      var hit := seq(|after|, i requires 0 <= i < |after| => if i == i0 then 1 else 0);
      forall i | 0 <= i < |after| ensures after[i] == before[i] + hit[i] {
        assert ys[..m] == init;
        assert (ys[m] == table[i]) <==> i == i0;
      }
      SumPointwise(before, hit, after);
      SumIndicator(hit, i0);
    }
  }
}
