/**
 * groupby and the other aggregations the transforms use: the sort order of group keys,
 * sorted distinct keys, per-group sums and distinct counts, cumulative sums, the trailing
 * rolling mean, pd.cut binning, and monthly bins with month-end labels.
 */
module Grouping {
  import opened Results
  import opened Frames

  // ----- the order groupby sorts keys in -----

  /** Lexicographic order on text by code point. */
  predicate StrLess(a: string, b: string)
    decreases |a|
  {
    if |a| == 0 then |b| > 0
    else if |b| == 0 then false
    else a[0] < b[0] || (a[0] == b[0] && StrLess(a[1..], b[1..]))
  }

  lemma {:induction false} StrLessIrreflexive(a: string)
    ensures !StrLess(a, a)
  {
    if |a| > 0 {
      StrLessIrreflexive(a[1..]);
    }
  }

  lemma {:induction false} StrLessTransitive(a: string, b: string, c: string)
    requires StrLess(a, b) && StrLess(b, c)
    ensures StrLess(a, c)
  {
    if |a| > 0 && a[0] == b[0] && b[0] == c[0] {
      StrLessTransitive(a[1..], b[1..], c[1..]);
    }
  }

  lemma {:induction false} StrLessTotal(a: string, b: string)
    ensures a == b || StrLess(a, b) || StrLess(b, a)
  {
    if |a| > 0 && |b| > 0 && a[0] == b[0] {
      StrLessTotal(a[1..], b[1..]);
      if a[1..] == b[1..] {
        assert a == [a[0]] + a[1..] && b == [b[0]] + b[1..];
      }
    }
  }

  predicate DateLess(a: DateTime, b: DateTime) {
    a.year < b.year || (a.year == b.year &&
    (a.month < b.month || (a.month == b.month &&
    (a.day < b.day || (a.day == b.day &&
    (a.hour < b.hour || (a.hour == b.hour &&
    (a.minute < b.minute || (a.minute == b.minute && a.second < b.second)))))))))
  }

  function Rank(v: Value): int {
    match v
    case Null => 0
    case Bool(_) => 1
    case Int(_) => 2
    case Real(_) => 2
    case Str(_) => 3
    case Date(_) => 4
  }

  /** The order of cells: by kind, then numbers by value, text lexicographically, dates chronologically. */
  predicate ValueLess(a: Value, b: Value) {
    if Rank(a) != Rank(b) then Rank(a) < Rank(b)
    else match a
      case Null => false
      case Bool(x) => !x && b.b
      case Int(_) => AsReal(a) < AsReal(b) || (AsReal(a) == AsReal(b) && b.Real?)
      case Real(_) => AsReal(a) < AsReal(b)
      case Str(x) => StrLess(x, b.s)
      case Date(x) => DateLess(x, b.d)
  }

  lemma ValueLessIrreflexive(a: Value)
    ensures !ValueLess(a, a)
  {
    if a.Str? {
      StrLessIrreflexive(a.s);
    }
  }

  lemma ValueLessTransitive(a: Value, b: Value, c: Value)
    requires ValueLess(a, b) && ValueLess(b, c)
    ensures ValueLess(a, c)
  {
    if a.Str? && b.Str? && c.Str? {
      StrLessTransitive(a.s, b.s, c.s);
    }
  }

  lemma ValueLessTotal(a: Value, b: Value)
    ensures a == b || ValueLess(a, b) || ValueLess(b, a)
  {
    if a.Str? && b.Str? {
      StrLessTotal(a.s, b.s);
    }
  }

  /** Lexicographic order on multi-column keys. */
  predicate KeyLess(a: seq<Value>, b: seq<Value>)
    decreases |a|
  {
    if |a| == 0 then |b| > 0
    else if |b| == 0 then false
    else ValueLess(a[0], b[0]) || (a[0] == b[0] && KeyLess(a[1..], b[1..]))
  }

  lemma {:induction false} KeyLessIrreflexive(a: seq<Value>)
    ensures !KeyLess(a, a)
  {
    if |a| > 0 {
      ValueLessIrreflexive(a[0]);
      KeyLessIrreflexive(a[1..]);
    }
  }

  lemma {:induction false} KeyLessTransitive(a: seq<Value>, b: seq<Value>, c: seq<Value>)
    requires KeyLess(a, b) && KeyLess(b, c)
    ensures KeyLess(a, c)
  {
    if |a| > 0 && |c| > 0 {
      if ValueLess(a[0], b[0]) && ValueLess(b[0], c[0]) {
        ValueLessTransitive(a[0], b[0], c[0]);
      } else if a[0] == b[0] && b[0] == c[0] {
        KeyLessTransitive(a[1..], b[1..], c[1..]);
      }
    }
  }

  lemma {:induction false} KeyLessTotal(a: seq<Value>, b: seq<Value>)
    ensures a == b || KeyLess(a, b) || KeyLess(b, a)
  {
    if |a| > 0 && |b| > 0 {
      ValueLessTotal(a[0], b[0]);
      if a[0] == b[0] {
        KeyLessTotal(a[1..], b[1..]);
        if a[1..] == b[1..] {
          assert a == [a[0]] + a[1..] && b == [b[0]] + b[1..];
        }
      }
    }
  }

  // ----- sorted distinct keys -----

  predicate StrictlySorted(ks: seq<seq<Value>>) {
    forall i, j :: 0 <= i < j < |ks| ==> KeyLess(ks[i], ks[j])
  }

  /** Inserts a key into a strictly sorted sequence of keys, unless it is already there. */
  function Insert(ks: seq<seq<Value>>, k: seq<Value>): (r: seq<seq<Value>>)
    requires StrictlySorted(ks)
    ensures StrictlySorted(r)
    ensures forall x :: x in r <==> x in ks || x == k
  {
    if ks == [] then [k]
    else if k == ks[0] then ks
    else if KeyLess(k, ks[0]) then
      assert forall j :: 0 < j < |ks| ==> KeyLess(k, ks[j]) by {
        forall j | 0 < j < |ks| ensures KeyLess(k, ks[j]) {
          KeyLessTransitive(k, ks[0], ks[j]);
        }
      }
      [k] + ks
    else
      KeyLessTotal(k, ks[0]);
      var rest := Insert(ks[1..], k);
      assert forall x :: x in rest ==> KeyLess(ks[0], x);
      [ks[0]] + rest
  }

  /** The key of row i: its cells in the grouping columns. */
  function RowKey(t: Frame, i: int, keys: seq<string>): seq<Value>
    requires 0 <= i < |t.rows| && AllIn(keys, t.columns)
  {
    seq(|keys|, k requires 0 <= k < |keys| => Cell(t, i, keys[k]))
  }

  /** groupby drops rows whose key has a missing cell. */
  predicate KeyPresent(key: seq<Value>) {
    forall k :: 0 <= k < |key| ==> key[k] != Null
  }

  function KeysFrom(t: Frame, keys: seq<string>, n: nat): (ks: seq<seq<Value>>)
    requires n <= |t.rows| && AllIn(keys, t.columns)
    ensures StrictlySorted(ks)
    ensures forall x :: x in ks ==> |x| == |keys|
    ensures forall x :: x in ks <==> exists i :: 0 <= i < n && KeyPresent(RowKey(t, i, keys)) && x == RowKey(t, i, keys)
  {
    if n == 0 then []
    else
      var ks := KeysFrom(t, keys, n - 1);
      var key := RowKey(t, n - 1, keys);
      if KeyPresent(key) then Insert(ks, key) else ks
  }

  /** The distinct complete keys of the table, in ascending order: the rows of a groupby result. */
  function GroupKeys(t: Frame, keys: seq<string>): (ks: seq<seq<Value>>)
    requires AllIn(keys, t.columns)
  {
    KeysFrom(t, keys, |t.rows|)
  }

  /** GroupKeys lists every complete key exactly once, in ascending order. */
  lemma GroupKeysSpec(t: Frame, keys: seq<string>)
    requires AllIn(keys, t.columns)
    ensures StrictlySorted(GroupKeys(t, keys))
    ensures forall i, j :: 0 <= i < j < |GroupKeys(t, keys)| ==> GroupKeys(t, keys)[i] != GroupKeys(t, keys)[j]
    ensures forall x :: x in GroupKeys(t, keys) <==>
      exists i :: 0 <= i < |t.rows| && KeyPresent(RowKey(t, i, keys)) && x == RowKey(t, i, keys)
  {
    var ks := GroupKeys(t, keys);
    forall i, j | 0 <= i < j < |ks| ensures ks[i] != ks[j] {
      KeyLessIrreflexive(ks[i]);
    }
  }

  // ----- sums -----

  /** Sum of the numeric cells of a column, skipping missing ones. */
  function SumReal(xs: seq<Value>): real
    requires AllNumOrNull(xs)
  {
    if xs == [] then 0.0
    else (if xs[0].Null? then 0.0 else AsReal(xs[0])) + SumReal(xs[1..])
  }

  function SumInt(xs: seq<Value>): int
    requires forall i :: 0 <= i < |xs| ==> xs[i].Int?
  {
    if xs == [] then 0 else xs[0].i + SumInt(xs[1..])
  }

  /** A column with a cell in every row, all of them integers: an int64 column, whose sums stay integers. */
  predicate AllInt(xs: seq<Value>) {
    forall i :: 0 <= i < |xs| ==> xs[i].Int?
  }

  /** The sum of the cells of xs, as an integer when the whole column is integral. */
  function Total(xs: seq<Value>, integral: bool): (v: Value)
    requires AllNumOrNull(xs)
    requires integral ==> AllInt(xs)
    ensures IsNum(v) && AsReal(v) == SumReal(xs)
  {
    if integral then
      SumIntIsSumReal(xs);
      Int(SumInt(xs))
    else Real(SumReal(xs))
  }

  lemma {:induction false} SumIntIsSumReal(xs: seq<Value>)
    requires AllInt(xs)
    ensures SumInt(xs) as real == SumReal(xs)
  {
    if xs != [] {
      SumIntIsSumReal(xs[1..]);
    }
  }

  lemma {:induction false} SumRealNonNegative(xs: seq<Value>)
    requires AllNumOrNull(xs)
    requires forall i :: 0 <= i < |xs| && IsNum(xs[i]) ==> AsReal(xs[i]) >= 0.0
    ensures SumReal(xs) >= 0.0
  {
    if xs != [] {
      SumRealNonNegative(xs[1..]);
    }
  }

  lemma {:induction false} SumRealAppend(xs: seq<Value>, ys: seq<Value>)
    requires AllNumOrNull(xs) && AllNumOrNull(ys)
    ensures AllNumOrNull(xs + ys) && SumReal(xs + ys) == SumReal(xs) + SumReal(ys)
  {
    if xs != [] {
      assert (xs + ys)[1..] == xs[1..] + ys;
      SumRealAppend(xs[1..], ys);
    } else {
      assert xs + ys == ys;
    }
  }

  /** A sum of non-negative cells is at least each of its cells. */
  lemma {:induction false} SumRealAtLeast(xs: seq<Value>, k: int)
    requires AllNumOrNull(xs) && 0 <= k < |xs| && IsNum(xs[k])
    requires forall i :: 0 <= i < |xs| && IsNum(xs[i]) ==> AsReal(xs[i]) >= 0.0
    ensures SumReal(xs) >= AsReal(xs[k])
  {
    if k == 0 {
      SumRealNonNegative(xs[1..]);
    } else {
      SumRealAtLeast(xs[1..], k - 1);
    }
  }

  /** A sum of non-negative cells is at least the sum of any prefix. */
  lemma SumRealPrefix(xs: seq<Value>, k: int)
    requires AllNumOrNull(xs) && 0 <= k <= |xs|
    requires forall i :: 0 <= i < |xs| && IsNum(xs[i]) ==> AsReal(xs[i]) >= 0.0
    ensures SumReal(xs[..k]) <= SumReal(xs)
  {
    assert xs == xs[..k] + xs[k..];
    SumRealAppend(xs[..k], xs[k..]);
    SumRealNonNegative(xs[k..]);
  }

  /** The cells of column c in the rows whose key is `key`. */
  function GroupCells(t: Frame, keys: seq<string>, key: seq<Value>, c: string): (g: seq<Value>)
    requires AllIn(keys, t.columns) && c in t.columns
    ensures AllNumOrNull(Col(t, c)) ==> AllNumOrNull(g)
    ensures AllInt(Col(t, c)) ==> AllInt(g)
    ensures forall v :: v in g ==> v in Col(t, c)
  {
    var keep := seq(|t.rows|, i requires 0 <= i < |t.rows| => RowKey(t, i, keys) == key);
    PickKeeps(Col(t, c), keep);
    PickWithin(Col(t, c), keep);
    Pick(Col(t, c), keep)
  }

  /** groupby(by, as_index=False).agg(name=(c, "sum")): one row per sorted key, holding the key's cells and the
      sum of c over that key's rows; relabelled 0..n-1. KeyError for a missing column, TypeError for text. */
  function GroupSum(t: Frame, keys: seq<string>, c: string, name: string): (r: Result<Frame>)
  {
    if !AllIn(keys, t.columns) then Err(KeyError(FirstMissing(keys, t.columns)))
    else if c !in t.columns then Err(KeyError(c))
    else if !AllNumOrNull(Col(t, c)) then Err(TypeError("sum of non-numeric column"))
    else
      var ks := GroupKeys(t, keys);
      var integral := AllInt(Col(t, c));
      var rows := seq(|ks|, j requires 0 <= j < |ks| => ks[j] + [GroupTotal(t, keys, ks[j], c, integral)]);
      assert forall j :: 0 <= j < |ks| ==> ks[j] in ks;
      Ok(Table(keys + [name], Range(|ks|), rows))
  }

  /** The rows of a groupby sum: one per group key, the key followed by the key's total. */
  lemma GroupSumRows(t: Frame, keys: seq<string>, c: string, name: string)
    requires GroupSum(t, keys, c, name).Ok?
    ensures AllIn(keys, t.columns) && c in t.columns && AllNumOrNull(Col(t, c))
    ensures var g := GroupSum(t, keys, c, name).value; var ks := GroupKeys(t, keys);
      && g.columns == keys + [name] && g.index == Range(|g.rows|) && |g.rows| == |ks|
      && forall j :: 0 <= j < |ks| ==> g.rows[j] == ks[j] + [GroupTotal(t, keys, ks[j], c, AllInt(Col(t, c)))]
  {
  }

  /** Each row of a groupby sum is a complete key followed by the sum of c over that key's rows. */
  lemma GroupSumTotals(t: Frame, keys: seq<string>, c: string, name: string)
    requires GroupSum(t, keys, c, name).Ok?
    ensures AllIn(keys, t.columns) && c in t.columns && AllNumOrNull(Col(t, c))
    ensures var g := GroupSum(t, keys, c, name).value;
      forall j :: 0 <= j < |g.rows| ==>
        && |g.rows[j]| == |keys| + 1 && KeyPresent(g.rows[j][..|keys|])
        && IsNum(g.rows[j][|keys|]) && AsReal(g.rows[j][|keys|]) == SumReal(GroupCells(t, keys, g.rows[j][..|keys|], c))
  {
    GroupSumRows(t, keys, c, name);
    var ks := GroupKeys(t, keys);
    GroupKeysSpec(t, keys);
    var g := GroupSum(t, keys, c, name).value;
    var integral := AllInt(Col(t, c));
    forall j | 0 <= j < |ks|
      ensures g.rows[j][..|keys|] == ks[j] && g.rows[j][|keys|] == GroupTotal(t, keys, ks[j], c, integral)
      ensures KeyPresent(ks[j]) && |ks[j]| == |keys|
    {
      assert ks[j] in ks;
    }
  }

  /** No key has two rows in a groupby sum. */
  lemma GroupSumDistinct(t: Frame, keys: seq<string>, c: string, name: string)
    requires GroupSum(t, keys, c, name).Ok?
    ensures var g := GroupSum(t, keys, c, name).value;
      forall j, k :: 0 <= j < k < |g.rows| ==> g.rows[j][..|keys|] != g.rows[k][..|keys|]
  {
    GroupSumRows(t, keys, c, name);
    var ks := GroupKeys(t, keys);
    GroupKeysSpec(t, keys);
    var g := GroupSum(t, keys, c, name).value;
    forall j | 0 <= j < |ks|
      ensures g.rows[j][..|keys|] == ks[j]
    {
      assert ks[j] in ks;
    }
  }

  /** Every row of the table with a complete key is counted under a row of the groupby sum. */
  lemma GroupSumCovers(t: Frame, keys: seq<string>, c: string, name: string)
    requires GroupSum(t, keys, c, name).Ok?
    ensures AllIn(keys, t.columns)
    ensures var g := GroupSum(t, keys, c, name).value;
      forall i :: 0 <= i < |t.rows| && KeyPresent(RowKey(t, i, keys)) ==>
        exists j :: 0 <= j < |g.rows| && g.rows[j][..|keys|] == RowKey(t, i, keys)
  {
    GroupSumRows(t, keys, c, name);
    var ks := GroupKeys(t, keys);
    GroupKeysSpec(t, keys);
    var g := GroupSum(t, keys, c, name).value;
    forall i | 0 <= i < |t.rows| && KeyPresent(RowKey(t, i, keys))
      ensures exists j :: 0 <= j < |g.rows| && g.rows[j][..|keys|] == RowKey(t, i, keys)
    {
      assert RowKey(t, i, keys) in ks;
      var j :| 0 <= j < |ks| && ks[j] == RowKey(t, i, keys);
      assert ks[j] in ks;
      assert g.rows[j][..|keys|] == ks[j];
    }
  }

  function GroupTotal(t: Frame, keys: seq<string>, key: seq<Value>, c: string, integral: bool): (v: Value)
    requires AllIn(keys, t.columns) && c in t.columns && AllNumOrNull(Col(t, c))
    requires integral ==> AllInt(Col(t, c))
    ensures IsNum(v) && AsReal(v) == SumReal(GroupCells(t, keys, key, c))
  {
    Total(GroupCells(t, keys, key, c), integral)
  }

  /** Picking keeps every property that holds of each element. */
  lemma {:induction false} PickKeeps(xs: seq<Value>, keep: seq<bool>)
    requires |keep| == |xs|
    ensures AllNumOrNull(xs) ==> AllNumOrNull(Pick(xs, keep))
    ensures AllInt(xs) ==> AllInt(Pick(xs, keep))
  {
    if xs != [] {
      PickKeeps(xs[1..], keep[1..]);
      var head := if keep[0] then [xs[0]] else [];
      assert Pick(xs, keep) == head + Pick(xs[1..], keep[1..]);
    }
  }

  /** Series.nunique(): the number of distinct non-missing cells. */
  function DistinctCount(xs: seq<Value>): (n: nat)
    ensures n <= |xs|
  {
    var present := set x | x in xs && x != Null;
    SeqSetBound(xs);
    SubsetCard(present, set x | x in xs);
    |present|
  }

  lemma SubsetCard<T>(a: set<T>, b: set<T>)
    requires a <= b
    ensures |a| <= |b|
  {
    if a != {} {
      var x :| x in a;
      SubsetCard(a - {x}, b - {x});
    }
  }

  lemma {:induction false} SeqSetBound<T>(xs: seq<T>)
    ensures |set x | x in xs| <= |xs|
  {
    if xs != [] {
      SeqSetBound(xs[1..]);
      assert (set x | x in xs) == {xs[0]} + (set x | x in xs[1..]);
    }
  }

  // ----- cumulative sums -----

  /** Series.cumsum(): the running sum, skipping missing cells, which stay missing. */
  function CumSum(xs: seq<Value>, integral: bool): (r: seq<Value>)
    requires AllNumOrNull(xs)
    requires integral ==> AllInt(xs)
    ensures |r| == |xs|
    ensures forall i :: 0 <= i < |xs| ==> (r[i].Null? <==> xs[i].Null?)
    ensures forall i :: 0 <= i < |xs| && xs[i] != Null ==> IsNum(r[i]) && AsReal(r[i]) == SumReal(xs[..i + 1])
    ensures !integral ==> forall i :: 0 <= i < |xs| && xs[i] != Null ==> r[i].Real?
    decreases |xs|
  {
    if xs == [] then []
    else
      var prev := CumSum(xs[..|xs| - 1], integral);
      var last := if xs[|xs| - 1].Null? then Null else Total(xs, integral);
      assert xs[..|xs|] == xs;
      var init := xs[..|xs| - 1];
      assert forall j :: 0 <= j <= |init| ==> init[..j] == xs[..j];
      prev + [last]
  }

  // ----- rolling mean -----

  /** The window of rows max(0, i-w+1)..i. */
  function Window(xs: seq<Value>, i: int, w: nat): (win: seq<Value>)
    requires 0 <= i < |xs| && w >= 1
  {
    xs[if i - w + 1 < 0 then 0 else i - w + 1..i + 1]
  }

  function CountNum(xs: seq<Value>): nat {
    if xs == [] then 0 else (if IsNum(xs[0]) then 1 else 0) + CountNum(xs[1..])
  }

  /** The mean of the numeric cells, or missing when there are none. */
  function Mean(xs: seq<Value>): (v: Value)
    requires AllNumOrNull(xs)
  {
    if CountNum(xs) == 0 then Null else Real(SumReal(xs) / CountNum(xs) as real)
  }

  /** rolling(window=w, min_periods=1).mean(): each row's mean over its trailing window; TypeError for text. */
  function RollingMean(xs: seq<Value>, w: nat): (r: Result<seq<Value>>)
    requires w >= 1
    ensures r.Ok? ==> |r.value| == |xs|
  {
    if !AllNumOrNull(xs) then Err(TypeError("rolling mean of non-numeric column"))
    else Ok(seq(|xs|, i requires 0 <= i < |xs| => Mean(Window(xs, i, w))))
  }

  /** A mean of non-negative cells is non-negative or missing. */
  lemma MeanNonNegative(xs: seq<Value>)
    requires AllNumOrNull(xs)
    requires forall i :: 0 <= i < |xs| && IsNum(xs[i]) ==> AsReal(xs[i]) >= 0.0
    ensures Mean(xs).Null? || (Mean(xs).Real? && Mean(xs).r >= 0.0)
  {
    SumRealNonNegative(xs);
  }

  /** A window whose newest cell is a number has a mean. */
  lemma {:induction false} CountNumLast(xs: seq<Value>)
    requires |xs| > 0 && IsNum(xs[|xs| - 1])
    ensures CountNum(xs) > 0
  {
    if |xs| > 1 {
      assert xs[1..][|xs[1..]| - 1] == xs[|xs| - 1];
      CountNumLast(xs[1..]);
    }
  }

  // ----- pd.cut -----

  /** pd.cut(x, bins=edges (+ an open last bin when unbounded), labels, right=True): label k for x in
      (edges[k], edges[k+1]]; missing for missing cells and cells outside every bin; TypeError for text. */
  function CutValue(v: Value, edges: seq<real>, unbounded: bool, labels: seq<string>): Value
    requires |edges| >= 1 && |labels| == |edges| - 1 + (if unbounded then 1 else 0)
    requires IsNum(v) || v.Null?
    decreases |edges|
  {
    if v.Null? || AsReal(v) <= edges[0] then Null
    else if |edges| == 1 then (if unbounded then Str(labels[0]) else Null)
    else if AsReal(v) <= edges[1] then Str(labels[0])
    else CutValue(v, edges[1..], unbounded, labels[1..])
  }

  function Cut(xs: seq<Value>, edges: seq<real>, unbounded: bool, labels: seq<string>): (r: Result<seq<Value>>)
    requires |edges| >= 1 && |labels| == |edges| - 1 + (if unbounded then 1 else 0)
    ensures r.Ok? ==> |r.value| == |xs|
  {
    if !AllNumOrNull(xs) then Err(TypeError("cut of non-numeric column"))
    else Ok(seq(|xs|, i requires 0 <= i < |xs| => CutValue(xs[i], edges, unbounded, labels)))
  }

  // ----- monthly bins -----

  predicate IsLeap(y: int) {
    y % 4 == 0 && (y % 100 != 0 || y % 400 == 0)
  }

  function DaysInMonth(y: int, m: MonthNum): DayNum {
    if m == 2 then (if IsLeap(y) then 29 else 28)
    else if m == 4 || m == 6 || m == 9 || m == 11 then 30
    else 31
  }

  /** Months counted from year 0: the month of a date, as one number. */
  function MonthNumber(d: DateTime): int {
    d.year * 12 + (d.month - 1)
  }

  /** The month-end timestamp a freq="M" bin is labelled with. */
  function MonthEnd(k: int): (d: DateTime)
    ensures MonthNumber(d) == k
  {
    var y := k / 12;
    var m := k % 12 + 1;
    DateTime(y, m, DaysInMonth(y, m), 0, 0, 0)
  }

  /** The months of the parsed dates, in row order. */
  function DateMonths(dates: seq<Value>): (ms: seq<int>)
    ensures forall m :: m in ms <==> exists i :: 0 <= i < |dates| && dates[i].Date? && m == MonthNumber(dates[i].d)
    ensures forall i :: 0 <= i < |dates| && dates[i].Date? ==> MonthNumber(dates[i].d) in ms
  {
    if dates == [] then []
    else
      var rest := DateMonths(dates[1..]);
      assert forall i :: 1 <= i < |dates| ==> dates[i] == dates[1..][i - 1];
      (if dates[0].Date? then [MonthNumber(dates[0].d)] else []) + rest
  }

  function Lowest(ms: seq<int>): (m: int)
    requires |ms| > 0
    ensures m in ms && forall x :: x in ms ==> m <= x
  {
    if |ms| == 1 then ms[0]
    else
      var m := Lowest(ms[1..]);
      assert forall x :: x in ms ==> x == ms[0] || x in ms[1..];
      if ms[0] <= m then ms[0] else m
  }

  function Highest(ms: seq<int>): (m: int)
    requires |ms| > 0
    ensures m in ms && forall x :: x in ms ==> x <= m
  {
    if |ms| == 1 then ms[0]
    else
      var m := Highest(ms[1..]);
      assert forall x :: x in ms ==> x == ms[0] || x in ms[1..];
      if ms[0] >= m then ms[0] else m
  }

  /** The bins of groupby(Grouper(key, freq="M")): every month from the earliest date's to the latest
      date's, empty months included; none when no date parsed. */
  function MonthSpan(dates: seq<Value>): (ks: seq<int>)
  {
    var ms := DateMonths(dates);
    if ms == [] then []
    else
      var lo, hi := Lowest(ms), Highest(ms);
      seq(hi - lo + 1, j requires 0 <= j <= hi - lo => lo + j)
  }

  /** The span has no gaps, begins at the earliest date's month, ends at the latest's, and so holds the
      month of every parsed date. */
  lemma MonthSpanSpec(dates: seq<Value>)
    ensures var ks := MonthSpan(dates);
      && (ks == [] <==> forall i :: 0 <= i < |dates| ==> !dates[i].Date?)
      && (forall j :: 0 < j < |ks| ==> ks[j] == ks[j - 1] + 1)
      && (forall i :: 0 <= i < |dates| && dates[i].Date? ==> MonthNumber(dates[i].d) in ks)
      && (ks != [] ==>
            && (exists i :: 0 <= i < |dates| && dates[i].Date? && MonthNumber(dates[i].d) == ks[0])
            && (exists i :: 0 <= i < |dates| && dates[i].Date? && MonthNumber(dates[i].d) == ks[|ks| - 1]))
  {
    var ms := DateMonths(dates);
    var ks := MonthSpan(dates);
    if ms != [] {
      var lo, hi := Lowest(ms), Highest(ms);
      forall i | 0 <= i < |dates| && dates[i].Date? ensures MonthNumber(dates[i].d) in ks {
        var m := MonthNumber(dates[i].d);
        assert m in ms;
        assert ks[m - lo] == m;
      }
    }
  }

  /** The rows whose date falls in month k. */
  function InMonth(dates: seq<Value>, k: int): (keep: seq<bool>)
    ensures |keep| == |dates|
  {
    seq(|dates|, i requires 0 <= i < |dates| => dates[i].Date? && MonthNumber(dates[i].d) == k)
  }

  /** The cells of xs in the rows whose date falls in month k. */
  function MonthCells(xs: seq<Value>, dates: seq<Value>, k: int): (g: seq<Value>)
    requires |dates| == |xs|
    ensures AllNumOrNull(xs) ==> AllNumOrNull(g)
    ensures AllInt(xs) ==> AllInt(g)
  {
    PickKeeps(xs, InMonth(dates, k));
    Pick(xs, InMonth(dates, k))
  }

  /** The rows whose date falls in the months lo..hi-1. */
  function InMonths(dates: seq<Value>, lo: int, hi: int): (keep: seq<bool>)
    ensures |keep| == |dates|
  {
    seq(|dates|, i requires 0 <= i < |dates| => dates[i].Date? && lo <= MonthNumber(dates[i].d) < hi)
  }

  /** Summing what two disjoint masks pick is summing what their union picks. */
  lemma {:induction false} PickSumSplit(xs: seq<Value>, a: seq<bool>, b: seq<bool>, c: seq<bool>)
    requires AllNumOrNull(xs) && |a| == |b| == |c| == |xs|
    requires forall i :: 0 <= i < |xs| ==> c[i] == (a[i] || b[i]) && !(a[i] && b[i])
    ensures AllNumOrNull(Pick(xs, a)) && AllNumOrNull(Pick(xs, b)) && AllNumOrNull(Pick(xs, c))
    ensures SumReal(Pick(xs, c)) == SumReal(Pick(xs, a)) + SumReal(Pick(xs, b))
  {
    PickKeeps(xs, a);
    PickKeeps(xs, b);
    PickKeeps(xs, c);
    if xs != [] {
      PickSumSplit(xs[1..], a[1..], b[1..], c[1..]);
      var ha := if a[0] then [xs[0]] else [];
      var hb := if b[0] then [xs[0]] else [];
      var hc := if c[0] then [xs[0]] else [];
      assert Pick(xs, a) == ha + Pick(xs[1..], a[1..]);
      assert Pick(xs, b) == hb + Pick(xs[1..], b[1..]);
      assert Pick(xs, c) == hc + Pick(xs[1..], c[1..]);
      PickKeeps(xs[1..], a[1..]);
      PickKeeps(xs[1..], b[1..]);
      PickKeeps(xs[1..], c[1..]);
      SumRealAppend(ha, Pick(xs[1..], a[1..]));
      SumRealAppend(hb, Pick(xs[1..], b[1..]));
      SumRealAppend(hc, Pick(xs[1..], c[1..]));
    }
  }

  /** The month-by-month sums over lo..lo+n-1 add up to the sum over those months together. */
  lemma {:induction false} MonthSums(xs: seq<Value>, dates: seq<Value>, lo: int, n: nat)
    requires AllNumOrNull(xs) && |dates| == |xs|
    ensures AllNumOrNull(Pick(xs, InMonths(dates, lo, lo + n)))
    ensures MonthlySum(xs, dates, lo, n) == SumReal(Pick(xs, InMonths(dates, lo, lo + n)))
  {
    PickKeeps(xs, InMonths(dates, lo, lo + n));
    if n == 0 {
      NothingPicked(xs, InMonths(dates, lo, lo));
    } else {
      MonthSums(xs, dates, lo, n - 1);
      PickSumSplit(xs, InMonths(dates, lo, lo + n - 1), InMonth(dates, lo + n - 1), InMonths(dates, lo, lo + n));
    }
  }

  lemma {:induction false} NothingPicked(xs: seq<Value>, keep: seq<bool>)
    requires |keep| == |xs| && forall i :: 0 <= i < |keep| ==> !keep[i]
    ensures Pick(xs, keep) == []
  {
    if xs != [] {
      NothingPicked(xs[1..], keep[1..]);
    }
  }

  /** The sum of the month-by-month sums over months lo..lo+n-1. */
  function MonthlySum(xs: seq<Value>, dates: seq<Value>, lo: int, n: nat): real
    requires AllNumOrNull(xs) && |dates| == |xs|
  {
    if n == 0 then 0.0
    else MonthlySum(xs, dates, lo, n - 1) + SumReal(MonthCells(xs, dates, lo + n - 1))
  }

  /** The rows whose date parsed. */
  function Dated(dates: seq<Value>): (keep: seq<bool>)
    ensures |keep| == |dates|
  {
    seq(|dates|, i requires 0 <= i < |dates| => dates[i].Date?)
  }

  /** A sum of monthly totals over a month span sums to the sum of xs over the rows whose date parsed:
      every dated row falls in exactly one month of the span. */
  lemma {:induction false} SpanTotals(col: seq<Value>, xs: seq<Value>, dates: seq<Value>)
    requires AllNumOrNull(xs) && |dates| == |xs| && |col| == |MonthSpan(dates)|
    requires forall j :: 0 <= j < |col| ==> IsNum(col[j]) && AsReal(col[j]) == SumReal(MonthCells(xs, dates, MonthSpan(dates)[j]))
    ensures AllNumOrNull(col) && AllNumOrNull(Pick(xs, Dated(dates)))
    ensures SumReal(col) == SumReal(Pick(xs, Dated(dates)))
  {
    PickKeeps(xs, Dated(dates));
    var ks := MonthSpan(dates);
    if ks == [] {
      MonthSpanSpec(dates);
      NothingPicked(xs, Dated(dates));
    } else {
      var ms := DateMonths(dates);
      var lo, hi := Lowest(ms), Highest(ms);
      forall j | 0 <= j < |col| ensures IsNum(col[j]) && AsReal(col[j]) == SumReal(MonthCells(xs, dates, lo + j)) {
        assert ks[j] == lo + j;
      }
      SumOfMonthTotals(col, xs, dates, lo);
      MonthSums(xs, dates, lo, |col|);
      assert InMonths(dates, lo, lo + |col|) == Dated(dates);
    }
  }

  /** A column of monthly totals sums to the sum over all its months. */
  lemma {:induction false} SumOfMonthTotals(col: seq<Value>, xs: seq<Value>, dates: seq<Value>, lo: int)
    requires AllNumOrNull(xs) && |dates| == |xs|
    requires forall j :: 0 <= j < |col| ==> IsNum(col[j]) && AsReal(col[j]) == SumReal(MonthCells(xs, dates, lo + j))
    ensures AllNumOrNull(col) && SumReal(col) == MonthlySum(xs, dates, lo, |col|)
  {
    var n := |col|;
    if n > 0 {
      SumOfMonthTotals(col[..n - 1], xs, dates, lo);
      SumRealAppend(col[..n - 1], [col[n - 1]]);
      assert col[..n - 1] + [col[n - 1]] == col;
      assert SumReal([col[n - 1]]) == AsReal(col[n - 1]);
    }
  }
}
