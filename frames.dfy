/**
 * The tables the pipelines pass between stages, and the dataframe operations they use:
 * column lookup, relabelling, row selection (dropna, boolean masks, drop_duplicates),
 * projection, column assignment, element-wise arithmetic and comparison, date parsing
 * with coercion, and joins.
 *
 * A table has labelled columns, an integer row index and rows of cells. A missing cell
 * (NaN, NaT, None) is `Null`. Numbers are unbounded integers and exact reals.
 */
module Frames {
  import opened Results

  type MonthNum = m: int | 1 <= m <= 12 witness 1
  type DayNum = d: int | 1 <= d <= 31 witness 1
  type HourNum = h: int | 0 <= h <= 23
  type MinuteNum = m: int | 0 <= m <= 59
  type SecondNum = s: int | 0 <= s <= 59

  datatype DateTime = DateTime(year: int, month: MonthNum, day: DayNum, hour: HourNum, minute: MinuteNum, second: SecondNum)

  /** The formats the transforms hand to the date parser. */
  datatype DateFormat =
    | DayMonthYear   // format='%d-%m-%y'
    | Mixed          // format="mixed": the format is inferred per value
    | Coerced        // a schema's coerce=True conversion to a datetime column

  /** A date parser: the parsed date, or None when the text does not parse (never an exception). */
  type Parser = (DateFormat, string) -> Option<DateTime>

  datatype Value = Null | Int(i: int) | Real(r: real) | Str(s: string) | Bool(b: bool) | Date(d: DateTime)

  datatype Table = Table(columns: seq<string>, index: seq<int>, rows: seq<seq<Value>>)

  predicate WellFormed(t: Table) {
    |t.index| == |t.rows| && forall i :: 0 <= i < |t.rows| ==> |t.rows[i]| == |t.columns|
  }

  /** A table whose rows all have one cell per column and one index label each. */
  type Frame = t: Table | WellFormed(t) witness Table([], [], [])

  /** DataFrame.empty: no rows or no columns. */
  predicate Empty(t: Table) {
    |t.rows| == 0 || |t.columns| == 0
  }

  function Range(n: nat): (r: seq<int>)
    ensures |r| == n && forall i :: 0 <= i < n ==> r[i] == i
  {
    seq(n, i requires 0 <= i < n => i)
  }

  /** Position of the first column with this label; |cols| when there is none. */
  function IndexOf(cols: seq<string>, name: string): (k: nat)
    ensures k <= |cols|
    ensures k < |cols| ==> cols[k] == name
    ensures forall j :: 0 <= j < k ==> cols[j] != name
  {
    if |cols| == 0 then 0
    else if cols[0] == name then 0
    else 1 + IndexOf(cols[1..], name)
  }

  /** The cell of row i in the (first) column with this label. */
  function Cell(t: Frame, i: int, name: string): Value
    requires 0 <= i < |t.rows| && name in t.columns
  {
    t.rows[i][IndexOf(t.columns, name)]
  }

  /** Whether more than one column carries this label: df[name] is then a DataFrame, not a Series. */
  predicate Repeated(cols: seq<string>, name: string) {
    exists a, b :: 0 <= a < b < |cols| && cols[a] == name && cols[b] == name
  }

  /** A label that is not repeated sits at IndexOf and nowhere else. */
  lemma SingleLabel(cols: seq<string>, name: string, k: int)
    requires !Repeated(cols, name) && 0 <= k < |cols| && cols[k] == name
    ensures IndexOf(cols, name) == k
  {
    FirstOccurrence(cols, name, k);
  }

  /** df[name] as a sequence of cells. */
  function Col(t: Frame, name: string): (c: seq<Value>)
    requires name in t.columns
    ensures |c| == |t.rows| && forall i :: 0 <= i < |t.rows| ==> c[i] == Cell(t, i, name)
  {
    seq(|t.rows|, i requires 0 <= i < |t.rows| => Cell(t, i, name))
  }

  predicate NoNull(row: seq<Value>) {
    forall k :: 0 <= k < |row| ==> row[k] != Null
  }

  // ----- row selection -----

  /** The elements of xs whose flag is set, in their original order. */
  function Pick<T>(xs: seq<T>, keep: seq<bool>): (r: seq<T>)
    requires |keep| == |xs|
    ensures |r| <= |xs|
  {
    if xs == [] then []
    else (if keep[0] then [xs[0]] else []) + Pick(xs[1..], keep[1..])
  }

  /** Picking takes elements of the sequence and nothing else. */
  lemma {:induction false} PickWithin<T>(xs: seq<T>, keep: seq<bool>)
    requires |keep| == |xs|
    ensures forall x :: x in Pick(xs, keep) ==> x in xs
  {
    if xs != [] {
      PickWithin(xs[1..], keep[1..]);
    }
  }

  /** df[mask]: the rows whose flag is set, with their index labels. */
  function Where(t: Frame, keep: seq<bool>): (r: Frame)
    requires |keep| == |t.rows|
    ensures r.columns == t.columns
    ensures forall row :: row in r.rows ==> row in t.rows
  {
    PickRowsWellFormed(t.rows, keep, |t.columns|);
    PickLength(t.index, t.rows, keep);
    PickWithin(t.rows, keep);
    Table(t.columns, Pick(t.index, keep), Pick(t.rows, keep))
  }

  lemma {:induction false} PickRowsWellFormed(rows: seq<seq<Value>>, keep: seq<bool>, w: nat)
    requires |keep| == |rows|
    requires forall i :: 0 <= i < |rows| ==> |rows[i]| == w
    ensures forall i :: 0 <= i < |Pick(rows, keep)| ==> |Pick(rows, keep)[i]| == w
  {
    if rows != [] {
      PickRowsWellFormed(rows[1..], keep[1..], w);
    }
  }

  /** Picking with one mask from two sequences of the same length picks equally many. */
  lemma {:induction false} PickLength<A, B>(xs: seq<A>, ys: seq<B>, keep: seq<bool>)
    requires |xs| == |ys| == |keep|
    ensures |Pick(xs, keep)| == |Pick(ys, keep)|
  {
    if xs != [] {
      PickLength(xs[1..], ys[1..], keep[1..]);
    }
  }

  /** Picking from a sequence extended by one element extends the result by that element when it is kept. */
  lemma {:induction false} PickSnoc<T>(xs: seq<T>, keep: seq<bool>, i: int)
    requires |keep| == |xs| && 0 <= i < |xs|
    ensures Pick(xs[..i + 1], keep[..i + 1]) == Pick(xs[..i], keep[..i]) + (if keep[i] then [xs[i]] else [])
    decreases i
  {
    if i > 0 {
      PickSnoc(xs[1..], keep[1..], i - 1);
      assert xs[1..][..i] == xs[..i + 1][1..] && keep[1..][..i] == keep[..i + 1][1..];
      assert xs[1..][..i - 1] == xs[..i][1..] && keep[1..][..i - 1] == keep[..i][1..];
    }
  }

  /** A kept element appears in the picked sequence. */
  lemma {:induction false} PickIncludes<T>(xs: seq<T>, keep: seq<bool>, i: int)
    requires |keep| == |xs| && 0 <= i < |xs| && keep[i]
    ensures xs[i] in Pick(xs, keep)
  {
    var head := if keep[0] then [xs[0]] else [];
    assert Pick(xs, keep) == head + Pick(xs[1..], keep[1..]);
    if i > 0 {
      PickIncludes(xs[1..], keep[1..], i - 1);
    }
  }

  /** Position p of the picked sequence holds a kept element of xs. */
  lemma {:induction false} PickAt<T>(xs: seq<T>, keep: seq<bool>, p: int) returns (i: int)
    requires |keep| == |xs| && 0 <= p < |Pick(xs, keep)|
    ensures 0 <= i < |xs| && keep[i] && Pick(xs, keep)[p] == xs[i]
  {
    var head := if keep[0] then [xs[0]] else [];
    assert Pick(xs, keep) == head + Pick(xs[1..], keep[1..]);
    if keep[0] && p == 0 {
      i := 0;
    } else {
      var k := PickAt(xs[1..], keep[1..], p - |head|);
      i := k + 1;
    }
  }

  /** Picking keeps the original order: earlier positions come from earlier elements. */
  lemma {:induction false} PickOrder<T>(xs: seq<T>, keep: seq<bool>, p: int, q: int) returns (i: int, j: int)
    requires |keep| == |xs| && 0 <= p < q < |Pick(xs, keep)|
    ensures 0 <= i < j < |xs| && keep[i] && keep[j]
    ensures Pick(xs, keep)[p] == xs[i] && Pick(xs, keep)[q] == xs[j]
  {
    var head := if keep[0] then [xs[0]] else [];
    assert Pick(xs, keep) == head + Pick(xs[1..], keep[1..]);
    if keep[0] && p == 0 {
      i := 0;
      var k := PickAt(xs[1..], keep[1..], q - 1);
      j := k + 1;
    } else {
      var a, b := PickOrder(xs[1..], keep[1..], p - |head|, q - |head|);
      i, j := a + 1, b + 1;
    }
  }

  /** The positions whose flag is set, ascending: where each picked element comes from. */
  function Kept(keep: seq<bool>): (ps: seq<int>)
    ensures forall p :: 0 <= p < |ps| ==> 0 <= ps[p] < |keep|
  {
    if keep == [] then []
    else Kept(keep[..|keep| - 1]) + (if keep[|keep| - 1] then [|keep| - 1] else [])
  }

  /** Pick(xs, keep)[p] is xs[Kept(keep)[p]]: the picked elements are exactly the flagged ones, in their order. */
  lemma {:induction false} KeptSpec<T>(xs: seq<T>, keep: seq<bool>)
    requires |keep| == |xs|
    ensures |Kept(keep)| == |Pick(xs, keep)|
    ensures forall p :: 0 <= p < |Kept(keep)| ==> keep[Kept(keep)[p]] && Pick(xs, keep)[p] == xs[Kept(keep)[p]]
    ensures forall p, q :: 0 <= p < q < |Kept(keep)| ==> Kept(keep)[p] < Kept(keep)[q]
    ensures forall i :: 0 <= i < |xs| && keep[i] ==> i in Kept(keep)
  {
    KeptPick(xs, keep);
    KeptAscending(keep);
    KeptCovers(keep);
  }

  lemma {:induction false} KeptPick<T>(xs: seq<T>, keep: seq<bool>)
    requires |keep| == |xs|
    ensures |Kept(keep)| == |Pick(xs, keep)|
    ensures forall p :: 0 <= p < |Kept(keep)| ==> keep[Kept(keep)[p]] && Pick(xs, keep)[p] == xs[Kept(keep)[p]]
  {
    var n := |xs|;
    if n > 0 {
      var xs', keep' := xs[..n - 1], keep[..n - 1];
      KeptPick(xs', keep');
      PickSnoc(xs, keep, n - 1);
      assert xs[..n] == xs && keep[..n] == keep;
      var ks, ps := Kept(keep'), Pick(xs', keep');
      assert Kept(keep) == ks + (if keep[n - 1] then [n - 1] else []);
      assert Pick(xs, keep) == ps + (if keep[n - 1] then [xs[n - 1]] else []);
      KeptPickStep(xs, keep, ks, ps);
    }
  }

  /** The inductive step of KeptPick, on the positions ks and elements ps picked from all but the last. */
  lemma KeptPickStep<T>(xs: seq<T>, keep: seq<bool>, ks: seq<int>, ps: seq<T>)
    requires |keep| == |xs| > 0 && |ks| == |ps|
    requires forall p :: 0 <= p < |ks| ==>
      0 <= ks[p] < |xs| - 1 && keep[..|xs| - 1][ks[p]] && ps[p] == xs[..|xs| - 1][ks[p]]
    ensures var n := |xs|; var ks', ps' := ks + (if keep[n - 1] then [n - 1] else []), ps + (if keep[n - 1] then [xs[n - 1]] else []);
      |ks'| == |ps'| && forall p :: 0 <= p < |ks'| ==> keep[ks'[p]] && ps'[p] == xs[ks'[p]]
  {
  }

  lemma {:induction false} KeptAscending(keep: seq<bool>)
    ensures forall p, q :: 0 <= p < q < |Kept(keep)| ==> Kept(keep)[p] < Kept(keep)[q]
  {
    if keep != [] {
      KeptAscending(keep[..|keep| - 1]);
    }
  }

  lemma {:induction false} KeptCovers(keep: seq<bool>)
    ensures forall i :: 0 <= i < |keep| && keep[i] ==> i in Kept(keep)
  {
    if keep != [] {
      var n := |keep|;
      KeptCovers(keep[..n - 1]);
      forall i | 0 <= i < n && keep[i] ensures i in Kept(keep) {
        if i < n - 1 {
          assert keep[..n - 1][i] == keep[i];
        }
      }
    }
  }

  /** Filtering by a, then by a mask b that tests each picked element's witness ws[i] with q, picks
      from xs what one filter by c = "a and q" picks. */
  lemma {:induction false} PickTwice<T, W>(xs: seq<T>, ws: seq<W>, a: seq<bool>, b: seq<bool>, q: W -> bool, c: seq<bool>)
    requires |xs| == |ws| == |a| == |c| && |b| == |Pick(ws, a)|
    requires forall p :: 0 <= p < |b| ==> b[p] == q(Pick(ws, a)[p])
    requires forall i :: 0 <= i < |c| ==> c[i] == (a[i] && q(ws[i]))
    ensures |Pick(xs, a)| == |b|
    ensures Pick(Pick(xs, a), b) == Pick(xs, c)
  {
    PickLength(xs, ws, a);
    if xs != [] {
      var xs', ws', a', c' := xs[1..], ws[1..], a[1..], c[1..];
      assert Pick(xs, c) == (if c[0] then [xs[0]] else []) + Pick(xs', c');
      if a[0] {
        assert Pick(ws, a) == [ws[0]] + Pick(ws', a');
        var b' := b[1..];
        forall p | 0 <= p < |b'| ensures b'[p] == q(Pick(ws', a')[p]) {
          assert Pick(ws, a)[p + 1] == Pick(ws', a')[p];
        }
        PickTwice(xs', ws', a', b', q, c');
        var ys := Pick(xs, a);
        assert ys == [xs[0]] + Pick(xs', a');
        assert ys[1..] == Pick(xs', a');
        assert Pick(ys, b) == (if b[0] then [ys[0]] else []) + Pick(ys[1..], b');
      } else {
        assert Pick(ws, a) == Pick(ws', a');
        assert Pick(xs, a) == Pick(xs', a');
        PickTwice(xs', ws', a', b, q, c');
      }
    }
  }

  /** df[a][b], where b tests each remaining row with q: the rows and index labels df[c] keeps, for
      c = "a and q". */
  lemma WhereTwice(t: Frame, a: seq<bool>, b: seq<bool>, q: seq<Value> -> bool, c: seq<bool>)
    requires |a| == |t.rows| == |c| && |b| == |Where(t, a).rows|
    requires forall p :: 0 <= p < |b| ==> b[p] == q(Where(t, a).rows[p])
    requires forall i :: 0 <= i < |c| ==> c[i] == (a[i] && q(t.rows[i]))
    ensures Where(Where(t, a), b) == Where(t, c)
  {
    PickTwice(t.rows, t.rows, a, b, q, c);
    PickTwice(t.index, t.rows, a, b, q, c);
  }

  /** Position p of df[keep] holds row Kept(keep)[p] of df, with its index label and its cells. */
  lemma WhereAt(t: Frame, keep: seq<bool>, p: int)
    requires |keep| == |t.rows| && 0 <= p < |Where(t, keep).rows|
    ensures |Kept(keep)| == |Where(t, keep).rows| && 0 <= Kept(keep)[p] < |t.rows| && keep[Kept(keep)[p]]
    ensures Where(t, keep).rows[p] == t.rows[Kept(keep)[p]] && Where(t, keep).index[p] == t.index[Kept(keep)[p]]
    ensures forall c :: c in t.columns ==> Cell(Where(t, keep), p, c) == Cell(t, Kept(keep)[p], c)
  {
    KeptSpec(t.rows, keep);
    KeptSpec(t.index, keep);
  }

  /** After a row filter, a column holds only numbers and missing cells exactly when it did on the kept rows. */
  lemma WhereNumOrNull(n: Frame, keep: seq<bool>, c: string)
    requires |keep| == |n.rows| && c in n.columns
    ensures AllNumOrNull(Col(Where(n, keep), c)) <==> forall i :: 0 <= i < |n.rows| && keep[i] ==> NumOrNull(Cell(n, i, c))
  {
    var e := Where(n, keep);
    KeptSpec(n.rows, keep);
    forall p | 0 <= p < |e.rows| ensures Cell(e, p, c) == Cell(n, Kept(keep)[p], c) {
      WhereAt(n, keep, p);
    }
    forall i | 0 <= i < |n.rows| && keep[i] ensures exists p :: 0 <= p < |e.rows| && Kept(keep)[p] == i {
      assert i in Kept(keep);
    }
  }

  /** dropna(): the rows without a missing cell. */
  function DropNa(t: Frame): (r: Frame)
    ensures r.columns == t.columns
  {
    Where(t, seq(|t.rows|, i requires 0 <= i < |t.rows| => NoNull(t.rows[i])))
  }

  /** dropna() keeps a row exactly when it has no missing cell, in the original order. */
  lemma DropNaSpec(t: Frame)
    ensures forall p :: 0 <= p < |DropNa(t).rows| ==> NoNull(DropNa(t).rows[p])
    ensures forall i :: 0 <= i < |t.rows| && NoNull(t.rows[i]) ==> t.rows[i] in DropNa(t).rows
  {
    var keep := seq(|t.rows|, i requires 0 <= i < |t.rows| => NoNull(t.rows[i]));
    forall p | 0 <= p < |DropNa(t).rows| ensures NoNull(DropNa(t).rows[p]) {
      var i := PickAt(t.rows, keep, p);
    }
    forall i | 0 <= i < |t.rows| && NoNull(t.rows[i]) ensures t.rows[i] in DropNa(t).rows {
      PickIncludes(t.rows, keep, i);
    }
  }

  predicate AllIn(names: seq<string>, cols: seq<string>) {
    forall k :: 0 <= k < |names| ==> names[k] in cols
  }

  /** The first label of names that is not a column. */
  function FirstMissing(names: seq<string>, cols: seq<string>): (m: string)
    requires !AllIn(names, cols)
    ensures m in names && m !in cols
  {
    if names[0] !in cols then names[0] else FirstMissing(names[1..], cols)
  }

  predicate NonNullIn(t: Frame, i: int, subset: seq<string>)
    requires 0 <= i < |t.rows| && AllIn(subset, t.columns)
  {
    forall k :: 0 <= k < |subset| ==> Cell(t, i, subset[k]) != Null
  }

  /** dropna(subset=...): the rows with no missing cell among the named columns. */
  function DropNaSubset(t: Frame, subset: seq<string>): (r: Result<Frame>)
    ensures r.Ok? <==> AllIn(subset, t.columns)
    ensures r.Ok? ==> r.value.columns == t.columns && forall c :: c in subset ==> c in r.value.columns
  {
    if !AllIn(subset, t.columns) then Err(KeyError(FirstMissing(subset, t.columns)))
    else Ok(Where(t, seq(|t.rows|, i requires 0 <= i < |t.rows| => NonNullIn(t, i, subset))))
  }

  /** Row p of dropna(subset=...) is an input row, with its index label, whose subset cells are all present. */
  lemma DropNaSubsetRow(t: Frame, subset: seq<string>, p: int) returns (q: int)
    requires DropNaSubset(t, subset).Ok? && 0 <= p < |DropNaSubset(t, subset).value.rows|
    ensures 0 <= q < |t.rows|
    ensures DropNaSubset(t, subset).value.rows[p] == t.rows[q] && DropNaSubset(t, subset).value.index[p] == t.index[q]
    ensures forall c :: c in subset ==> c in t.columns && Cell(t, q, c) != Null
  {
    var keep := seq(|t.rows|, i requires 0 <= i < |t.rows| => NonNullIn(t, i, subset));
    KeptSpec(t.rows, keep);
    KeptSpec(t.index, keep);
    q := Kept(keep)[p];
    assert keep[q];
    forall c | c in subset ensures c in t.columns && Cell(t, q, c) != Null {
      var k :| 0 <= k < |subset| && subset[k] == c;
    }
  }

  /** dropna(subset=...) keeps every row whose subset cells are all present. */
  lemma DropNaSubsetKeeps(t: Frame, subset: seq<string>, q: int)
    requires AllIn(subset, t.columns) && 0 <= q < |t.rows|
    requires forall c :: c in subset ==> Cell(t, q, c) != Null
    ensures DropNaSubset(t, subset).Ok? && t.rows[q] in DropNaSubset(t, subset).value.rows
  {
    var keep := seq(|t.rows|, i requires 0 <= i < |t.rows| => NonNullIn(t, i, subset));
    assert keep[q];
    PickIncludes(t.rows, keep, q);
  }

  /** Which of the duplicated rows drop_duplicates keeps. */
  datatype Keep = KeepFirst | KeepLast | KeepNone

  /** The cells of row i that decide duplication: the subset columns, or the whole row. */
  function DupKey(t: Frame, i: int, subset: Option<seq<string>>): seq<Value>
    requires 0 <= i < |t.rows|
    requires subset.Some? ==> AllIn(subset.value, t.columns)
  {
    match subset
    case None => t.rows[i]
    case Some(names) => seq(|names|, k requires 0 <= k < |names| => Cell(t, i, names[k]))
  }

  predicate Survives(t: Frame, i: int, subset: Option<seq<string>>, keep: Keep)
    requires 0 <= i < |t.rows|
    requires subset.Some? ==> AllIn(subset.value, t.columns)
  {
    match keep
    case KeepFirst => forall j :: 0 <= j < i ==> DupKey(t, j, subset) != DupKey(t, i, subset)
    case KeepLast => forall j :: i < j < |t.rows| ==> DupKey(t, j, subset) != DupKey(t, i, subset)
    case KeepNone => forall j :: 0 <= j < |t.rows| && j != i ==> DupKey(t, j, subset) != DupKey(t, i, subset)
  }

  /** drop_duplicates(subset, keep): KeyError for an unknown subset column. */
  function DropDuplicates(t: Frame, subset: Option<seq<string>>, keep: Keep): (r: Result<Frame>)
    ensures r.Ok? ==> r.value.columns == t.columns
  {
    if subset.Some? && !AllIn(subset.value, t.columns) then Err(KeyError(FirstMissing(subset.value, t.columns)))
    else Ok(Where(t, seq(|t.rows|, i requires 0 <= i < |t.rows| => Survives(t, i, subset, keep))))
  }

  /** Some surviving row at or before row i shares its key: the first row with that key. */
  lemma {:induction false} FirstOfKey(t: Frame, subset: Option<seq<string>>, i: int) returns (j: int)
    requires 0 <= i < |t.rows| && (subset.Some? ==> AllIn(subset.value, t.columns))
    ensures 0 <= j <= i && Survives(t, j, subset, KeepFirst) && DupKey(t, j, subset) == DupKey(t, i, subset)
    decreases i
  {
    if Survives(t, i, subset, KeepFirst) {
      j := i;
    } else {
      var k :| 0 <= k < i && DupKey(t, k, subset) == DupKey(t, i, subset);
      j := FirstOfKey(t, subset, k);
    }
  }

  /** Two tables with the same labels and the same row have the same duplication key. */
  lemma SameRowSameKey(t: Frame, i: int, u: Frame, p: int, subset: Option<seq<string>>)
    requires 0 <= i < |t.rows| && 0 <= p < |u.rows| && u.columns == t.columns && u.rows[p] == t.rows[i]
    requires subset.Some? ==> AllIn(subset.value, t.columns)
    ensures DupKey(u, p, subset) == DupKey(t, i, subset)
  {
  }

  /** Some row of r has the given key. */
  predicate HasKey(r: Frame, key: seq<Value>, subset: Option<seq<string>>)
    requires subset.Some? ==> AllIn(subset.value, r.columns)
  {
    exists p :: 0 <= p < |r.rows| && DupKey(r, p, subset) == key
  }

  /** Two remaining rows come from two surviving rows of t, in order, so their keys differ. */
  lemma DropKeysDiffer(t: Frame, subset: Option<seq<string>>, p: int, q: int)
    requires subset.Some? ==> AllIn(subset.value, t.columns)
    requires DropDuplicates(t, subset, KeepFirst).Ok? && 0 <= p < q < |DropDuplicates(t, subset, KeepFirst).value.rows|
    ensures DupKey(DropDuplicates(t, subset, KeepFirst).value, p, subset) != DupKey(DropDuplicates(t, subset, KeepFirst).value, q, subset)
  {
    var keep := seq(|t.rows|, i requires 0 <= i < |t.rows| => Survives(t, i, subset, KeepFirst));
    var r := DropDuplicates(t, subset, KeepFirst).value;
    assert r == Where(t, keep);
    var i, j := PickOrder(t.rows, keep, p, q);
    SameRowSameKey(t, i, r, p, subset);
    SameRowSameKey(t, j, r, q, subset);
  }

  /** The key of row i of t remains: the first row j with that key survives. */
  lemma DropKeyKept(t: Frame, subset: Option<seq<string>>, i: int)
    requires subset.Some? ==> AllIn(subset.value, t.columns)
    requires 0 <= i < |t.rows|
    ensures DropDuplicates(t, subset, KeepFirst).Ok?
    ensures HasKey(DropDuplicates(t, subset, KeepFirst).value, DupKey(t, i, subset), subset)
  {
    var keep := seq(|t.rows|, i requires 0 <= i < |t.rows| => Survives(t, i, subset, KeepFirst));
    var r := DropDuplicates(t, subset, KeepFirst).value;
    assert r == Where(t, keep);
    var j := FirstOfKey(t, subset, i);
    PickIncludes(t.rows, keep, j);
    var p :| 0 <= p < |r.rows| && r.rows[p] == t.rows[j];
    SameRowSameKey(t, j, r, p, subset);
  }

  /** drop_duplicates(subset, keep="first"): no two remaining rows share a key and every key of the input
      remains. */
  lemma DropDuplicatesSpec(t: Frame, subset: Option<seq<string>>)
    requires subset.Some? ==> AllIn(subset.value, t.columns)
    ensures DropDuplicates(t, subset, KeepFirst).Ok?
    ensures var r := DropDuplicates(t, subset, KeepFirst).value;
      && (forall p, q :: 0 <= p < q < |r.rows| ==> DupKey(r, p, subset) != DupKey(r, q, subset))
      && (forall i :: 0 <= i < |t.rows| ==> HasKey(r, DupKey(t, i, subset), subset))
  {
    var r := DropDuplicates(t, subset, KeepFirst).value;
    forall p, q | 0 <= p < q < |r.rows| ensures DupKey(r, p, subset) != DupKey(r, q, subset) {
      DropKeysDiffer(t, subset, p, q);
    }
    forall i | 0 <= i < |t.rows| ensures HasKey(r, DupKey(t, i, subset), subset) {
      DropKeyKept(t, subset, i);
    }
  }

  /** reset_index(drop=True): the rows are relabelled 0..n-1. */
  function ResetIndex(t: Frame): (r: Frame) {
    Table(t.columns, Range(|t.rows|), t.rows)
  }

  // ----- columns -----

  /** df.columns = names */
  function SetColumns(t: Frame, names: seq<string>): (r: Frame)
    requires |names| == |t.columns|
  {
    Table(names, t.index, t.rows)
  }

  /** df.columns = [f(c) for c in df.columns]: every label rewritten by f, the cells untouched. */
  function Relabel(t: Frame, f: string -> string): (r: Frame)
    ensures r.rows == t.rows && r.index == t.index && |r.columns| == |t.columns|
    ensures forall k :: 0 <= k < |t.columns| ==> r.columns[k] == f(t.columns[k])
  {
    SetColumns(t, seq(|t.columns|, k requires 0 <= k < |t.columns| => f(t.columns[k])))
  }

  /** rename(columns={from: to}): every column labelled `from` is relabelled `to`. */
  function Rename(t: Frame, from: string, to: string): (r: Frame) {
    SetColumns(t, seq(|t.columns|, k requires 0 <= k < |t.columns| => if t.columns[k] == from then to else t.columns[k]))
  }

  /** df[name] = values: overwrites the (first) column with that label, or appends a new last column. */
  function Assign(t: Frame, name: string, values: seq<Value>): (r: Frame)
    requires |values| == |t.rows|
    ensures name in r.columns && |r.rows| == |t.rows| && r.index == t.index
    ensures forall c :: c in t.columns ==> c in r.columns
  {
    if name in t.columns then
      var k := IndexOf(t.columns, name);
      Table(t.columns, t.index, seq(|t.rows|, i requires 0 <= i < |t.rows| => t.rows[i][k := values[i]]))
    else
      Table(t.columns + [name], t.index, seq(|t.rows|, i requires 0 <= i < |t.rows| => t.rows[i] + [values[i]]))
  }

  /** df[name] = values adds no label but name. */
  lemma AssignLabels(t: Frame, name: string, values: seq<Value>)
    requires |values| == |t.rows|
    ensures forall c :: c in Assign(t, name, values).columns ==> c in t.columns || c == name
  {
  }

  /** The first occurrence of a label is unique: any position holding it with no earlier occurrence is IndexOf. */
  lemma FirstOccurrence(cols: seq<string>, name: string, k: int)
    requires 0 <= k < |cols| && cols[k] == name && forall j :: 0 <= j < k ==> cols[j] != name
    ensures IndexOf(cols, name) == k
  {
  }

  /** Appending labels does not move the first occurrence of a label already present, and a label only
      in the appended part is found after all the others. */
  lemma IndexOfAppend(a: seq<string>, b: seq<string>, c: string)
    requires c in a || c in b
    ensures c in a ==> IndexOf(a + b, c) == IndexOf(a, c)
    ensures c !in a ==> IndexOf(a + b, c) == |a| + IndexOf(b, c)
  {
    if c in a {
      FirstOccurrence(a + b, c, IndexOf(a, c));
    } else {
      FirstOccurrence(a + b, c, |a| + IndexOf(b, c));
    }
  }

  /** After df[name] = values the column holds values and every other column keeps its cells. */
  lemma AssignCell(t: Frame, name: string, values: seq<Value>, c: string, i: int)
    requires |values| == |t.rows| && 0 <= i < |t.rows| && (c in t.columns || c == name)
    ensures c in Assign(t, name, values).columns
    ensures Cell(Assign(t, name, values), i, c) == if c == name then values[i] else Cell(t, i, c)
  {
    var r := Assign(t, name, values);
    if name !in t.columns {
      if c == name {
        FirstOccurrence(r.columns, name, |t.columns|);
      } else {
        FirstOccurrence(r.columns, c, IndexOf(t.columns, c));
      }
    }
  }

  /** b has every row and label of a, and every column of a but `name` keeps its cells. */
  predicate KeepsCells(a: Frame, b: Frame, name: string) {
    && |b.rows| == |a.rows| && b.index == a.index
    && (forall c :: c in a.columns ==> c in b.columns)
    && forall i, c :: 0 <= i < |a.rows| && c in a.columns && c != name ==> Cell(b, i, c) == Cell(a, i, c)
  }

  /** df[name] = values writes values into name and keeps every other column; an existing label keeps
      the labels as they were. */
  lemma AssignKeeps(t: Frame, name: string, values: seq<Value>)
    requires |values| == |t.rows|
    ensures KeepsCells(t, Assign(t, name, values), name)
    ensures name in t.columns ==> Assign(t, name, values).columns == t.columns
    ensures forall i :: 0 <= i < |t.rows| ==> Cell(Assign(t, name, values), i, name) == values[i]
  {
    forall i, c | 0 <= i < |t.rows| && (c in t.columns || c == name)
      ensures Cell(Assign(t, name, values), i, c) == if c == name then values[i] else Cell(t, i, c)
    {
      AssignCell(t, name, values, c, i);
    }
  }

  /** df[names]: the named columns in the given order; KeyError for the first one missing. */
  function Project(t: Frame, names: seq<string>): (r: Result<Frame>)
  {
    if !AllIn(names, t.columns) then Err(KeyError(FirstMissing(names, t.columns)))
    else Ok(Table(names, t.index,
      seq(|t.rows|, i requires 0 <= i < |t.rows| =>
        seq(|names|, k requires 0 <= k < |names| => Cell(t, i, names[k])))))
  }

  /** A projected cell is the cell of the same row and label in the original table. */
  lemma ProjectCell(t: Frame, names: seq<string>, i: int, c: string)
    requires AllIn(names, t.columns) && 0 <= i < |t.rows| && c in names
    ensures Project(t, names).Ok? && c in Project(t, names).value.columns
    ensures |Project(t, names).value.rows| == |t.rows| && Project(t, names).value.index == t.index
    ensures Cell(Project(t, names).value, i, c) == Cell(t, i, c)
  {
    var k := IndexOf(names, c);
    assert Project(t, names).value.rows[i][k] == Cell(t, i, names[k]);
  }

  /** set_index(name) followed by reset_index(): the column moves to the front and the rows are relabelled 0..n-1. */
  function MoveToFront(t: Frame, name: string): (r: Frame)
    requires name in t.columns
  {
    var k := IndexOf(t.columns, name);
    Table([name] + t.columns[..k] + t.columns[k + 1..], Range(|t.rows|),
      seq(|t.rows|, i requires 0 <= i < |t.rows| => [t.rows[i][k]] + t.rows[i][..k] + t.rows[i][k + 1..]))
  }

  /** Moving a column to the front keeps every row's cell under every label. */
  lemma MoveToFrontCell(t: Frame, name: string, i: int, c: string)
    requires name in t.columns && 0 <= i < |t.rows| && c in t.columns
    ensures c in MoveToFront(t, name).columns && |MoveToFront(t, name).rows| == |t.rows|
    ensures Cell(MoveToFront(t, name), i, c) == Cell(t, i, c)
  {
    var k := IndexOf(t.columns, name);
    var j := IndexOf(t.columns, c);
    var m := MovedIndex(t.columns, name, c);
    MovedCell(t.rows[i], k, j, m);
    MovedRow(t, name, i);
    var u := MoveToFront(t, name);
    assert IndexOf(u.columns, c) == m;
    assert u.rows[i][m] == t.rows[i][j];
  }

  /** Row i of the moved frame, and its labels, spelled out. */
  lemma MovedRow(t: Frame, name: string, i: int)
    requires name in t.columns && 0 <= i < |t.rows|
    ensures var k := IndexOf(t.columns, name); var u := MoveToFront(t, name);
      && u.columns == [name] + t.columns[..k] + t.columns[k + 1..] && |u.rows| == |t.rows|
      && u.rows[i] == [t.rows[i][k]] + t.rows[i][..k] + t.rows[i][k + 1..]
  {
  }

  /** Where the first c lands once the first name is moved to the front of cols. */
  lemma MovedIndex(cols: seq<string>, name: string, c: string) returns (m: int)
    requires name in cols && c in cols
    ensures var k := IndexOf(cols, name); var j := IndexOf(cols, c);
      && c in [name] + cols[..k] + cols[k + 1..]
      && m == (if j == k then 0 else if j < k then j + 1 else j)
      && IndexOf([name] + cols[..k] + cols[k + 1..], c) == m
  {
    var k := IndexOf(cols, name);
    var j := IndexOf(cols, c);
    var r := [name] + cols[..k] + cols[k + 1..];
    if j == k {
      m := 0;
      FirstOccurrence(r, c, 0);
    } else if j < k {
      m := j + 1;
      assert r[j + 1] == c;
      FirstOccurrence(r, c, j + 1);
    } else {
      m := j;
      assert r[j] == c;
      forall p | 0 <= p < j ensures r[p] != c {
        if p > 0 && p - 1 < k {
          assert r[p] == cols[p - 1];
        } else if p > k {
          assert r[p] == cols[p];
        }
      }
      FirstOccurrence(r, c, j);
    }
  }

  /** The cell at j of a row lands at m once the cell at k is moved to the front. */
  lemma MovedCell(row: seq<Value>, k: int, j: int, m: int)
    requires 0 <= k < |row| && 0 <= j < |row|
    requires m == (if j == k then 0 else if j < k then j + 1 else j)
    ensures 0 <= m < |row| && ([row[k]] + row[..k] + row[k + 1..])[m] == row[j]
  {
  }

  // ----- cells -----

  predicate IsNum(v: Value) { v.Int? || v.Real? }

  predicate NumOrNull(v: Value) { v.Null? || IsNum(v) }

  function AsReal(v: Value): real
    requires IsNum(v)
  {
    if v.Int? then v.i as real else v.r
  }

  predicate AllNumOrNull(xs: seq<Value>) {
    forall i :: 0 <= i < |xs| ==> NumOrNull(xs[i])
  }

  /** a * b on two numeric-or-missing cells: missing propagates; int times int stays int. */
  function Times(a: Value, b: Value): (v: Value)
    requires NumOrNull(a) && NumOrNull(b)
    ensures v.Null? <==> a.Null? || b.Null?
    ensures !v.Null? ==> IsNum(v) && AsReal(v) == AsReal(a) * AsReal(b)
  {
    if a.Null? || b.Null? then Null
    else if a.Int? && b.Int? then Int(a.i * b.i)
    else Real(AsReal(a) * AsReal(b))
  }

  /** a / b: missing propagates; a zero divisor gives a missing cell. */
  function Divide(a: Value, b: Value): Value
    requires NumOrNull(a) && NumOrNull(b)
  {
    if a.Null? || b.Null? || AsReal(b) == 0.0 then Null
    else Real(AsReal(a) / AsReal(b))
  }

  /** a - b: missing propagates; int minus int stays int. */
  function Minus(a: Value, b: Value): (v: Value)
    requires NumOrNull(a) && NumOrNull(b)
    ensures v.Null? <==> a.Null? || b.Null?
    ensures !v.Null? ==> IsNum(v) && AsReal(v) == AsReal(a) - AsReal(b)
  {
    if a.Null? || b.Null? then Null
    else if a.Int? && b.Int? then Int(a.i - b.i)
    else Real(AsReal(a) - AsReal(b))
  }

  /** Element-wise a * b over two columns; TypeError when a cell is neither a number nor missing. */
  function MulCols(xs: seq<Value>, ys: seq<Value>): (r: Result<seq<Value>>)
    requires |xs| == |ys|
    ensures r.Ok? ==> |r.value| == |xs|
  {
    if AllNumOrNull(xs) && AllNumOrNull(ys) then Ok(seq(|xs|, i requires 0 <= i < |xs| => Times(xs[i], ys[i])))
    else Err(TypeError("unsupported operand type for *"))
  }

  /** Element-wise a / b over two columns. */
  function DivCols(xs: seq<Value>, ys: seq<Value>): (r: Result<seq<Value>>)
    requires |xs| == |ys|
    ensures r.Ok? ==> |r.value| == |xs|
  {
    if AllNumOrNull(xs) && AllNumOrNull(ys) then Ok(seq(|xs|, i requires 0 <= i < |xs| => Divide(xs[i], ys[i])))
    else Err(TypeError("unsupported operand type for /"))
  }

  /** col > c: a missing cell compares false; TypeError for a non-numeric cell. */
  function GreaterMask(xs: seq<Value>, c: real): (r: Result<seq<bool>>)
    ensures r.Ok? ==> |r.value| == |xs|
  {
    if AllNumOrNull(xs) then Ok(seq(|xs|, i requires 0 <= i < |xs| => IsNum(xs[i]) && AsReal(xs[i]) > c))
    else Err(TypeError("'>' not supported"))
  }

  /** A number greater than zero: what `col > 0` keeps. */
  predicate Positive(v: Value) {
    IsNum(v) && AsReal(v) > 0.0
  }

  /** col < c: a missing cell compares false; TypeError for a non-numeric cell. */
  function LessMask(xs: seq<Value>, c: real): (r: Result<seq<bool>>)
    ensures r.Ok? ==> |r.value| == |xs|
  {
    if AllNumOrNull(xs) then Ok(seq(|xs|, i requires 0 <= i < |xs| => IsNum(xs[i]) && AsReal(xs[i]) < c))
    else Err(TypeError("'<' not supported"))
  }

  function And(xs: seq<bool>, ys: seq<bool>): (r: seq<bool>)
    requires |xs| == |ys|
    ensures |r| == |xs| && forall i :: 0 <= i < |xs| ==> r[i] == (xs[i] && ys[i])
  {
    seq(|xs|, i requires 0 <= i < |xs| => xs[i] && ys[i])
  }

  /** pd.to_datetime(..., errors='coerce') on one cell: a date stays, text is parsed, anything else is missing. */
  function ToDate(v: Value, fmt: DateFormat, parse: Parser): (r: Value)
    ensures r.Null? || r.Date?
    ensures v.Date? ==> r == v
  {
    match v
    case Date(_) => v
    case Str(s) => (match parse(fmt, s) case Some(d) => Date(d) case None => Null)
    case _ => Null
  }

  /** Whether a column read from a file has pandas' object dtype, the only one whose `.str` accessor
      exists. The model reads the dtype off the cells: a column with a text cell, or with no cells at all
      (a header-only file), is an object column; one of numbers, dates or missing cells only is not. */
  predicate TextColumn(xs: seq<Value>) {
    |xs| == 0 || exists i :: 0 <= i < |xs| && xs[i].Str?
  }

  /** The message of the AttributeError the `.str` accessor raises on a column without text. */
  const NoStrAccessor := "Can only use .str accessor with string values!"

  /** Assigning one column leaves every other column, and so its dtype, as it was. */
  lemma AssignTextColumn(t: Frame, name: string, values: seq<Value>, c: string)
    requires |values| == |t.rows| && c in t.columns && c != name
    ensures c in Assign(t, name, values).columns
    ensures Col(Assign(t, name, values), c) == Col(t, c)
  {
    AssignKeeps(t, name, values);
    assert c in Assign(t, name, values).columns;
    var a := Assign(t, name, values);
    assert forall i :: 0 <= i < |t.rows| ==> Col(a, c)[i] == Col(t, c)[i];
  }

  /** Series.str.<f>(): text is rewritten by f; a missing or non-text cell comes out missing. The caller
      checks TextColumn first: on any other column the accessor raises. */
  function StrApply(xs: seq<Value>, f: string -> string): (r: seq<Value>)
    ensures |r| == |xs|
  {
    seq(|xs|, i requires 0 <= i < |xs| => if xs[i].Str? then Str(f(xs[i].s)) else Null)
  }

  /** pd.to_datetime(column, format, errors='coerce') */
  function ToDates(xs: seq<Value>, fmt: DateFormat, parse: Parser): (r: seq<Value>)
    ensures |r| == |xs|
  {
    seq(|xs|, i requires 0 <= i < |xs| => ToDate(xs[i], fmt, parse))
  }

  /** The cell a series holds under an index label: the first position carrying the label, or a missing
      cell when no position does (assigning a series to a column aligns it by label this way). */
  function AtLabel(values: seq<Value>, index: seq<int>, at: int): (v: Value)
    requires |values| == |index|
    ensures at !in index ==> v == Null
    ensures forall k :: 0 <= k < |index| && index[k] == at && at !in index[..k] ==> v == values[k]
  {
    if index == [] then Null
    else if index[0] == at then values[0]
    else
      var v := AtLabel(values[1..], index[1..], at);
      assert forall k :: 1 <= k < |index| ==> index[1..][k - 1] == index[k] && values[1..][k - 1] == values[k] && index[1..][..k - 1] == index[1..k];
      v
  }

  // ----- joins -----

  datatype How = Inner | LeftOuter

  /** The right-hand column positions a join keeps: all but the key when both keys share a label. */
  function KeptRight(r: Frame, rk: string, shared: bool): (ks: seq<nat>)
    requires rk in r.columns
    ensures forall j :: 0 <= j < |ks| ==> ks[j] < |r.columns|
  {
    var ri := IndexOf(r.columns, rk);
    if shared then Range(ri) + seq(|r.columns| - ri - 1, j requires 0 <= j < |r.columns| - ri - 1 => ri + 1 + j)
    else Range(|r.columns|)
  }

  function Gather<T>(row: seq<T>, ks: seq<nat>): (g: seq<T>)
    requires forall j :: 0 <= j < |ks| ==> ks[j] < |row|
    ensures |g| == |ks|
  {
    seq(|ks|, j requires 0 <= j < |ks| => row[ks[j]])
  }

  function Nulls(n: nat): (g: seq<Value>)
    ensures |g| == n && forall j :: 0 <= j < n ==> g[j] == Null
  {
    seq(n, j requires 0 <= j < n => Null)
  }

  /** One left row joined with every right row whose key cell equals its key cell, in right order. */
  function Matches(lrow: seq<Value>, li: nat, rrows: seq<seq<Value>>, ri: nat, ks: seq<nat>, rw: nat): (m: seq<seq<Value>>)
    requires li < |lrow|
    requires forall j :: 0 <= j < |rrows| ==> |rrows[j]| == rw
    requires ri < rw && forall j :: 0 <= j < |ks| ==> ks[j] < rw
    ensures forall x :: x in m ==> |x| == |lrow| + |ks|
  {
    if rrows == [] then []
    else
      var here := if rrows[0][ri] == lrow[li] then [lrow + Gather(rrows[0], ks)] else [];
      here + Matches(lrow, li, rrows[1..], ri, ks, rw)
  }

  /** The joined rows, left row by left row; a left join pads an unmatched left row with missing cells. */
  function JoinRows(lrows: seq<seq<Value>>, lw: nat, li: nat, rrows: seq<seq<Value>>, ri: nat, ks: seq<nat>, rw: nat, how: How): (m: seq<seq<Value>>)
    requires li < lw && forall j :: 0 <= j < |lrows| ==> |lrows[j]| == lw
    requires forall j :: 0 <= j < |rrows| ==> |rrows[j]| == rw
    requires ri < rw && forall j :: 0 <= j < |ks| ==> ks[j] < rw
    ensures forall x :: x in m ==> |x| == lw + |ks|
  {
    if lrows == [] then []
    else
      var ms := Matches(lrows[0], li, rrows, ri, ks, rw);
      var block := if ms == [] && how == LeftOuter then [lrows[0] + Nulls(|ks|)] else ms;
      block + JoinRows(lrows[1..], lw, li, rrows, ri, ks, rw, how)
  }

  /** The labels of a join's result: overlapping non-key labels get the suffixes _x and _y. */
  function JoinLabels(lcols: seq<string>, rnames: seq<string>, key: Option<string>): (names: seq<string>)
    ensures |names| == |lcols| + |rnames|
  {
    seq(|lcols|, k requires 0 <= k < |lcols| =>
        if lcols[k] in rnames && key != Some(lcols[k]) then lcols[k] + "_x" else lcols[k])
    + seq(|rnames|, k requires 0 <= k < |rnames| => if rnames[k] in lcols then rnames[k] + "_y" else rnames[k])
  }

  /** left.merge(right, left_on=lk, right_on=rk, how=how); the result is relabelled 0..n-1. */
  function Merge(l: Frame, r: Frame, lk: string, rk: string, how: How): (m: Result<Frame>)
  {
    if lk !in l.columns then Err(KeyError(lk))
    else if rk !in r.columns then Err(KeyError(rk))
    else
      var shared := lk == rk;
      var ks := KeptRight(r, rk, shared);
      var li := IndexOf(l.columns, lk);
      var ri := IndexOf(r.columns, rk);
      var rows := JoinRows(l.rows, |l.columns|, li, r.rows, ri, ks, |r.columns|, how);
      var names := JoinLabels(l.columns, Gather(r.columns, ks), if shared then Some(lk) else None);
      assert forall j :: 0 <= j < |rows| ==> rows[j] in rows;
      Ok(Table(names, Range(|rows|), rows))
  }

  /** A left row's matches are exactly the right rows with an equal key cell. */
  lemma {:induction false} MatchesSpec(lrow: seq<Value>, li: nat, rrows: seq<seq<Value>>, ri: nat, ks: seq<nat>, rw: nat, x: seq<Value>)
    requires li < |lrow|
    requires forall j :: 0 <= j < |rrows| ==> |rrows[j]| == rw
    requires ri < rw && forall j :: 0 <= j < |ks| ==> ks[j] < rw
    ensures x in Matches(lrow, li, rrows, ri, ks, rw) <==>
      exists j :: 0 <= j < |rrows| && rrows[j][ri] == lrow[li] && x == lrow + Gather(rrows[j], ks)
  {
    if rrows != [] {
      MatchesSpec(lrow, li, rrows[1..], ri, ks, rw, x);
      if exists j :: 0 <= j < |rrows[1..]| && rrows[1..][j][ri] == lrow[li] && x == lrow + Gather(rrows[1..][j], ks) {
        var j :| 0 <= j < |rrows[1..]| && rrows[1..][j][ri] == lrow[li] && x == lrow + Gather(rrows[1..][j], ks);
        assert rrows[j + 1] == rrows[1..][j];
      }
      if exists j :: 0 <= j < |rrows| && rrows[j][ri] == lrow[li] && x == lrow + Gather(rrows[j], ks) {
        var j :| 0 <= j < |rrows| && rrows[j][ri] == lrow[li] && x == lrow + Gather(rrows[j], ks);
        if j > 0 {
          assert rrows[1..][j - 1] == rrows[j];
        }
      }
    }
  }

  /** Row x joins left row i with right row j. */
  predicate JoinedPair(lrows: seq<seq<Value>>, li: nat, rrows: seq<seq<Value>>, ri: nat, ks: seq<nat>, x: seq<Value>, i: int, j: int) {
    0 <= i < |lrows| && 0 <= j < |rrows| && li < |lrows[i]| && ri < |rrows[j]|
    && (forall k :: 0 <= k < |ks| ==> ks[k] < |rrows[j]|)
    && lrows[i][li] == rrows[j][ri] && x == lrows[i] + Gather(rrows[j], ks)
  }

  /** An inner join holds exactly the concatenations of a left row and a right row with equal key cells. */
  lemma {:induction false} InnerJoinRowsSpec(lrows: seq<seq<Value>>, lw: nat, li: nat, rrows: seq<seq<Value>>, ri: nat, ks: seq<nat>, rw: nat, x: seq<Value>)
    requires li < lw && forall j :: 0 <= j < |lrows| ==> |lrows[j]| == lw
    requires forall j :: 0 <= j < |rrows| ==> |rrows[j]| == rw
    requires ri < rw && forall j :: 0 <= j < |ks| ==> ks[j] < rw
    ensures x in JoinRows(lrows, lw, li, rrows, ri, ks, rw, Inner) <==>
      exists i, j :: JoinedPair(lrows, li, rrows, ri, ks, x, i, j)
  {
    if lrows != [] {
      var head := Matches(lrows[0], li, rrows, ri, ks, rw);
      var tail := JoinRows(lrows[1..], lw, li, rrows, ri, ks, rw, Inner);
      assert JoinRows(lrows, lw, li, rrows, ri, ks, rw, Inner) == head + tail;
      MatchesSpec(lrows[0], li, rrows, ri, ks, rw, x);
      InnerJoinRowsSpec(lrows[1..], lw, li, rrows, ri, ks, rw, x);
      if x in head {
        var j :| 0 <= j < |rrows| && rrows[j][ri] == lrows[0][li] && x == lrows[0] + Gather(rrows[j], ks);
        assert JoinedPair(lrows, li, rrows, ri, ks, x, 0, j);
      }
      if x in tail {
        var i, j :| JoinedPair(lrows[1..], li, rrows, ri, ks, x, i, j);
        assert JoinedPair(lrows, li, rrows, ri, ks, x, i + 1, j);
      }
      if exists i, j :: JoinedPair(lrows, li, rrows, ri, ks, x, i, j) {
        var i, j :| JoinedPair(lrows, li, rrows, ri, ks, x, i, j);
        if i > 0 {
          assert JoinedPair(lrows[1..], li, rrows, ri, ks, x, i - 1, j);
        }
      }
    }
  }

  /** A left join keeps every left row: matched with each right row of equal key, or padded with missing cells. */
  lemma {:induction false} LeftJoinKeepsLeftRows(lrows: seq<seq<Value>>, lw: nat, li: nat, rrows: seq<seq<Value>>, ri: nat, ks: seq<nat>, rw: nat, i: int)
    requires li < lw && forall j :: 0 <= j < |lrows| ==> |lrows[j]| == lw
    requires forall j :: 0 <= j < |rrows| ==> |rrows[j]| == rw
    requires ri < rw && forall j :: 0 <= j < |ks| ==> ks[j] < rw
    requires 0 <= i < |lrows|
    ensures (forall j :: 0 <= j < |rrows| ==> rrows[j][ri] != lrows[i][li]) ==>
      lrows[i] + Nulls(|ks|) in JoinRows(lrows, lw, li, rrows, ri, ks, rw, LeftOuter)
    ensures forall j :: 0 <= j < |rrows| && rrows[j][ri] == lrows[i][li] ==>
      lrows[i] + Gather(rrows[j], ks) in JoinRows(lrows, lw, li, rrows, ri, ks, rw, LeftOuter)
  {
    var ms := Matches(lrows[0], li, rrows, ri, ks, rw);
    var block := if ms == [] then [lrows[0] + Nulls(|ks|)] else ms;
    assert JoinRows(lrows, lw, li, rrows, ri, ks, rw, LeftOuter) == block + JoinRows(lrows[1..], lw, li, rrows, ri, ks, rw, LeftOuter);
    if i == 0 {
      forall j | 0 <= j < |rrows| && rrows[j][ri] == lrows[0][li]
        ensures lrows[0] + Gather(rrows[j], ks) in block
      {
        MatchesSpec(lrows[0], li, rrows, ri, ks, rw, lrows[0] + Gather(rrows[j], ks));
      }
      if forall j :: 0 <= j < |rrows| ==> rrows[j][ri] != lrows[0][li] {
        if ms != [] {
          MatchesSpec(lrows[0], li, rrows, ri, ks, rw, ms[0]);
        }
      }
    } else {
      LeftJoinKeepsLeftRows(lrows[1..], lw, li, rrows, ri, ks, rw, i - 1);
      assert lrows[1..][i - 1] == lrows[i];
    }
  }

  /** Every row of a left join is left row i joined with a matching right row j, or (j = -1) the
      unmatched left row i padded with missing cells. */
  lemma {:induction false} LeftJoinRowsFrom(lrows: seq<seq<Value>>, lw: nat, li: nat, rrows: seq<seq<Value>>, ri: nat, ks: seq<nat>, rw: nat, x: seq<Value>)
    returns (i: int, j: int)
    requires li < lw && forall j :: 0 <= j < |lrows| ==> |lrows[j]| == lw
    requires forall j :: 0 <= j < |rrows| ==> |rrows[j]| == rw
    requires ri < rw && forall j :: 0 <= j < |ks| ==> ks[j] < rw
    requires x in JoinRows(lrows, lw, li, rrows, ri, ks, rw, LeftOuter)
    ensures 0 <= i < |lrows| && -1 <= j < |rrows|
    ensures j >= 0 ==> JoinedPair(lrows, li, rrows, ri, ks, x, i, j)
    ensures j < 0 ==> x == lrows[i] + Nulls(|ks|)
    decreases |lrows|, 1
  {
    var ms := Matches(lrows[0], li, rrows, ri, ks, rw);
    var block := if ms == [] then [lrows[0] + Nulls(|ks|)] else ms;
    var tail := JoinRows(lrows[1..], lw, li, rrows, ri, ks, rw, LeftOuter);
    assert JoinRows(lrows, lw, li, rrows, ri, ks, rw, LeftOuter) == block + tail;
    if x in block {
      i := 0;
      j := LeftBlockFrom(lrows[0], li, rrows, ri, ks, rw, x);
    } else {
      assert x in tail;
      i, j := LeftJoinTailFrom(lrows, lw, li, rrows, ri, ks, rw, x);
    }
  }

  /** A row of the left join of the left rows after the first: the same pair, or the same padded row, one
      position on among all of them. */
  lemma {:induction false} LeftJoinTailFrom(lrows: seq<seq<Value>>, lw: nat, li: nat, rrows: seq<seq<Value>>, ri: nat, ks: seq<nat>, rw: nat, x: seq<Value>)
    returns (i: int, j: int)
    requires lrows != []
    requires li < lw && forall j :: 0 <= j < |lrows| ==> |lrows[j]| == lw
    requires forall j :: 0 <= j < |rrows| ==> |rrows[j]| == rw
    requires ri < rw && forall j :: 0 <= j < |ks| ==> ks[j] < rw
    requires forall k :: 0 <= k < |lrows[1..]| ==> |lrows[1..][k]| == lw
    requires x in JoinRows(lrows[1..], lw, li, rrows, ri, ks, rw, LeftOuter)
    ensures 0 <= i < |lrows| && -1 <= j < |rrows|
    ensures j >= 0 ==> JoinedPair(lrows, li, rrows, ri, ks, x, i, j)
    ensures j < 0 ==> x == lrows[i] + Nulls(|ks|)
    decreases |lrows|, 0
  {
    var i', j' := LeftJoinRowsFrom(lrows[1..], lw, li, rrows, ri, ks, rw, x);
    i, j := i' + 1, j';
    if j >= 0 {
      JoinedPairShift(lrows, li, rrows, ri, ks, x, i', j);
    } else {
      assert lrows[1..][i'] == lrows[i];
    }
  }

  /** A row of one left row's block in a left join: a match of that row, or the row padded with missing
      cells when no right row matches. */
  lemma LeftBlockFrom(lrow: seq<Value>, li: nat, rrows: seq<seq<Value>>, ri: nat, ks: seq<nat>, rw: nat, x: seq<Value>)
    returns (j: int)
    requires li < |lrow|
    requires forall j :: 0 <= j < |rrows| ==> |rrows[j]| == rw
    requires ri < rw && forall j :: 0 <= j < |ks| ==> ks[j] < rw
    requires var ms := Matches(lrow, li, rrows, ri, ks, rw); x in (if ms == [] then [lrow + Nulls(|ks|)] else ms)
    ensures -1 <= j < |rrows|
    ensures j >= 0 ==> rrows[j][ri] == lrow[li] && x == lrow + Gather(rrows[j], ks)
    ensures j < 0 ==> x == lrow + Nulls(|ks|)
  {
    if Matches(lrow, li, rrows, ri, ks, rw) == [] {
      j := -1;
    } else {
      MatchesSpec(lrow, li, rrows, ri, ks, rw, x);
      j :| 0 <= j < |rrows| && rrows[j][ri] == lrow[li] && x == lrow + Gather(rrows[j], ks);
    }
  }

  /** A pair found among the left rows after the first is the same pair, one position on, among all of them. */
  lemma JoinedPairShift(lrows: seq<seq<Value>>, li: nat, rrows: seq<seq<Value>>, ri: nat, ks: seq<nat>, x: seq<Value>, i: int, j: int)
    requires lrows != [] && JoinedPair(lrows[1..], li, rrows, ri, ks, x, i, j)
    ensures JoinedPair(lrows, li, rrows, ri, ks, x, i + 1, j)
  {
    assert lrows[1..][i] == lrows[i + 1];
  }

  /** With pairwise distinct right key cells, a left row has at most one match. */
  lemma {:induction false} MatchesUnique(lrow: seq<Value>, li: nat, rrows: seq<seq<Value>>, ri: nat, ks: seq<nat>, rw: nat)
    requires li < |lrow|
    requires forall j :: 0 <= j < |rrows| ==> |rrows[j]| == rw
    requires ri < rw && forall j :: 0 <= j < |ks| ==> ks[j] < rw
    requires forall j, k :: 0 <= j < k < |rrows| ==> rrows[j][ri] != rrows[k][ri]
    ensures |Matches(lrow, li, rrows, ri, ks, rw)| <= 1
  {
    if rrows != [] {
      var rest := Matches(lrow, li, rrows[1..], ri, ks, rw);
      MatchesUnique(lrow, li, rrows[1..], ri, ks, rw);
      if rrows[0][ri] == lrow[li] && rest != [] {
        MatchesSpec(lrow, li, rrows[1..], ri, ks, rw, rest[0]);
        assert false;
      }
    }
  }

  /** With pairwise distinct right key cells, a left join starts with exactly one row for the first left row. */
  lemma LeftJoinFirst(lrows: seq<seq<Value>>, lw: nat, li: nat, rrows: seq<seq<Value>>, ri: nat, ks: seq<nat>, rw: nat) returns (b: seq<Value>)
    requires li < lw && forall j :: 0 <= j < |lrows| ==> |lrows[j]| == lw
    requires forall j :: 0 <= j < |rrows| ==> |rrows[j]| == rw
    requires ri < rw && forall j :: 0 <= j < |ks| ==> ks[j] < rw
    requires forall j, k :: 0 <= j < k < |rrows| ==> rrows[j][ri] != rrows[k][ri]
    requires lrows != []
    ensures JoinRows(lrows, lw, li, rrows, ri, ks, rw, LeftOuter) == [b] + JoinRows(lrows[1..], lw, li, rrows, ri, ks, rw, LeftOuter)
    ensures |b| == lw + |ks| && b[..lw] == lrows[0]
  {
    var ms := Matches(lrows[0], li, rrows, ri, ks, rw);
    var block := if ms == [] then [lrows[0] + Nulls(|ks|)] else ms;
    assert JoinRows(lrows, lw, li, rrows, ri, ks, rw, LeftOuter) == block + JoinRows(lrows[1..], lw, li, rrows, ri, ks, rw, LeftOuter);
    MatchesUnique(lrows[0], li, rrows, ri, ks, rw);
    b := block[0];
    assert block == [b];
    if ms != [] {
      MatchesSpec(lrows[0], li, rrows, ri, ks, rw, b);
    }
  }

  /** With pairwise distinct right key cells, a left join has one row per left row, in left order:
      row q extends left row q. */
  lemma {:induction false} LeftJoinUnique(lrows: seq<seq<Value>>, lw: nat, li: nat, rrows: seq<seq<Value>>, ri: nat, ks: seq<nat>, rw: nat)
    requires li < lw && forall j :: 0 <= j < |lrows| ==> |lrows[j]| == lw
    requires forall j :: 0 <= j < |rrows| ==> |rrows[j]| == rw
    requires ri < rw && forall j :: 0 <= j < |ks| ==> ks[j] < rw
    requires forall j, k :: 0 <= j < k < |rrows| ==> rrows[j][ri] != rrows[k][ri]
    ensures var m := JoinRows(lrows, lw, li, rrows, ri, ks, rw, LeftOuter);
      |m| == |lrows| && forall q :: 0 <= q < |lrows| ==> |m[q]| == lw + |ks| && m[q][..lw] == lrows[q]
  {
    if lrows != [] {
      var m := JoinRows(lrows, lw, li, rrows, ri, ks, rw, LeftOuter);
      var b := LeftJoinFirst(lrows, lw, li, rrows, ri, ks, rw);
      var tail := JoinRows(lrows[1..], lw, li, rrows, ri, ks, rw, LeftOuter);
      assert m == [b] + tail;
      LeftJoinUnique(lrows[1..], lw, li, rrows, ri, ks, rw);
      forall q | 0 <= q < |lrows| ensures |m[q]| == lw + |ks| && m[q][..lw] == lrows[q] {
        if q > 0 {
          assert m[q] == tail[q - 1] && lrows[1..][q - 1] == lrows[q];
        }
      }
    }
  }

  /** The rows and labels Merge produces when both keys are present. */
  lemma MergeParts(l: Frame, r: Frame, lk: string, rk: string, how: How)
    requires lk in l.columns && rk in r.columns
    ensures Merge(l, r, lk, rk, how).Ok?
    ensures var ks := KeptRight(r, rk, lk == rk);
      var m := Merge(l, r, lk, rk, how).value;
      m.rows == JoinRows(l.rows, |l.columns|, IndexOf(l.columns, lk), r.rows, IndexOf(r.columns, rk), ks, |r.columns|, how)
      && m.columns == JoinLabels(l.columns, Gather(r.columns, ks), if lk == rk then Some(lk) else None)
      && m.index == Range(|m.rows|)
  {
  }

  /** left.merge(right, on=key, how="inner"): every result row joins a left row and a right row that agree on the key,
      and every such pair appears; the result keeps the left columns and adds the right ones but the key. */
  lemma MergeInnerSpec(l: Frame, r: Frame, key: string, x: seq<Value>)
    requires key in l.columns && key in r.columns
    ensures Merge(l, r, key, key, Inner).Ok?
    ensures var m := Merge(l, r, key, key, Inner).value;
      |m.columns| == |l.columns| + |r.columns| - 1 && m.index == Range(|m.rows|)
      && (x in m.rows <==> exists i, j :: JoinedPair(l.rows, IndexOf(l.columns, key), r.rows, IndexOf(r.columns, key), KeptRight(r, key, true), x, i, j))
  {
    var ks := KeptRight(r, key, true);
    var li := IndexOf(l.columns, key);
    var ri := IndexOf(r.columns, key);
    MergeParts(l, r, key, key, Inner);
    InnerJoinRowsSpec(l.rows, |l.columns|, li, r.rows, ri, ks, |r.columns|, x);
  }
}
