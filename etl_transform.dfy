/**
 * The transform step of the ETL exercise pipeline: cleaning each extracted frame in place
 * (labels, one optional rename, day-month-year dates), dropping duplicate rows, chaining
 * joins, and writing derived and classification columns into the merged frame.
 */
module EtlTransform {
  import opened Results
  import opened Text
  import opened Frames
  import opened Grouping
  import opened DataFrames

  /** The columns clean_data parses as dates, in the order it parses them. */
  const DateColumns: seq<string> := ["order_date", "signup_date", "delivery_date"]

  // ----- clean_data -----

  /** Every label stripped, lower-cased and with blanks turned into underscores. */
  function NormalizeLabels(t: Frame): (r: Frame)
    ensures r.rows == t.rows && r.index == t.index && |r.columns| == |t.columns|
    ensures forall k :: 0 <= k < |t.columns| ==> r.columns[k] == SnakeLabel(t.columns[k])
  {
    SetColumns(t, seq(|t.columns|, k requires 0 <= k < |t.columns| => SnakeLabel(t.columns[k])))
  }

  /** The rename is applied only when its old label is present. */
  function RenameIfPresent(t: Frame, rename: Option<(string, string)>): (r: Frame)
    ensures r.rows == t.rows && r.index == t.index && |r.columns| == |t.columns|
    ensures rename.None? || rename.value.0 !in t.columns ==> r == t
    ensures rename.Some? && rename.value.0 in t.columns ==>
      forall k :: 0 <= k < |t.columns| ==>
        r.columns[k] == (if t.columns[k] == rename.value.0 then rename.value.1 else t.columns[k])
  {
    if rename.Some? && rename.value.0 in t.columns then Rename(t, rename.value.0, rename.value.1) else t
  }

  /** What pandas reports when to_datetime is handed a DataFrame (df[col] of a repeated label) instead of a column. */
  const AssembleMessage := "cannot assemble with duplicate keys"

  /** One date column parsed day-month-year when present; an unparsable cell becomes missing. A label carried by two
      columns hands to_datetime a DataFrame, which raises ValueError. */
  function ParseDateColumn(t: Frame, col: string, parse: Parser): (r: Result<Frame>)
    ensures r.Ok? <==> !Repeated(t.columns, col)
    ensures r.Ok? ==> r.value.columns == t.columns && r.value.index == t.index && |r.value.rows| == |t.rows|
    ensures r.Err? ==> r.error.ValueError?
  {
    if col !in t.columns then Ok(t)
    else if Repeated(t.columns, col) then Err(ValueError(AssembleMessage))
    else Ok(Assign(t, col, ToDates(Col(t, col), DayMonthYear, parse)))
  }

  /** The date loop of clean_data: the state the frame is left in and the error raised, if any. Each column is
      written as soon as it is parsed, so a later ValueError leaves the earlier ones parsed. */
  function ParseDateColumns(t: Frame, cols: seq<string>, parse: Parser): (r: (Frame, Option<Error>))
    ensures r.0.columns == t.columns && r.0.index == t.index && |r.0.rows| == |t.rows|
    decreases |cols|
  {
    if cols == [] then (t, None)
    else match ParseDateColumn(t, cols[0], parse)
      case Err(e) => (t, Some(e))
      case Ok(u) => ParseDateColumns(u, cols[1..], parse)
  }

  /** Parsing distinct date columns fails, with ValueError, exactly when one of them labels two columns; otherwise it
      converts the cells under those labels and leaves every other cell alone. */
  lemma {:induction false} ParseDateColumnsSpec(t: Frame, cols: seq<string>, parse: Parser)
    requires forall a, b :: 0 <= a < b < |cols| ==> cols[a] != cols[b]
    ensures var r := ParseDateColumns(t, cols, parse);
      && (r.1.None? <==> forall c :: c in cols ==> !Repeated(t.columns, c))
      && (r.1.Some? ==> r.1.value.ValueError?)
      && (r.1.None? ==> forall i, k :: 0 <= i < |t.rows| && 0 <= k < |t.columns| ==>
            r.0.rows[i][k] == if t.columns[k] in cols then ToDate(t.rows[i][k], DayMonthYear, parse) else t.rows[i][k])
    decreases |cols|
  {
    if cols != [] {
      var r := ParseDateColumns(t, cols, parse);
      if Repeated(t.columns, cols[0]) {
        assert r.1 == Some(ValueError(AssembleMessage));
      } else {
        var u := ParseDateColumn(t, cols[0], parse).value;
        ParseDateColumnsSpec(u, cols[1..], parse);
        assert r == ParseDateColumns(u, cols[1..], parse);
        assert forall c :: c in cols <==> c == cols[0] || c in cols[1..];
        if r.1.None? {
          forall i, k | 0 <= i < |t.rows| && 0 <= k < |t.columns|
            ensures r.0.rows[i][k] == if t.columns[k] in cols then ToDate(t.rows[i][k], DayMonthYear, parse) else t.rows[i][k]
          {
            ParsedCell(t, cols[0], parse, i, k);
            if t.columns[k] in cols[1..] {
              assert t.columns[k] != cols[0] by {
                var a :| 1 <= a < |cols| && cols[a] == t.columns[k];
              }
            }
          }
        }
      }
    }
  }

  /** Parsing a label that is not repeated rewrites the cells of that one column. */
  lemma ParsedCell(t: Frame, col: string, parse: Parser, i: int, k: int)
    requires !Repeated(t.columns, col) && 0 <= i < |t.rows| && 0 <= k < |t.columns|
    ensures ParseDateColumn(t, col, parse).value.rows[i][k] ==
      if t.columns[k] == col then ToDate(t.rows[i][k], DayMonthYear, parse) else t.rows[i][k]
  {
    if t.columns[k] == col {
      SingleLabel(t.columns, col, k);
    }
  }

  /** What clean_data does to one frame that is present and not empty: the state it leaves and the error it raises. */
  function CleanFrame(t: Frame, rename: Option<(string, string)>, parse: Parser): (Frame, Option<Error>) {
    ParseDateColumns(RenameIfPresent(NormalizeLabels(t), rename), DateColumns, parse)
  }

  /** A cleaned frame keeps its rows and index; its labels are the normalised ones, renamed when the old label is
      among them. Cleaning raises ValueError exactly when one of the date labels is carried by two columns (two
      labels that normalise alike, or a rename onto a label already there); otherwise the cells under the date
      labels are parsed and every other cell is unchanged. */
  lemma CleanFrameSpec(t: Frame, rename: Option<(string, string)>, parse: Parser)
    ensures var c := CleanFrame(t, rename, parse);
      var r := c.0;
      var n := NormalizeLabels(t).columns;
      && |r.rows| == |t.rows| && r.index == t.index && |r.columns| == |t.columns|
      && (forall k :: 0 <= k < |t.columns| ==>
            r.columns[k] == if rename.Some? && rename.value.0 in n && n[k] == rename.value.0 then rename.value.1 else n[k])
      && (c.1.None? <==> forall d :: d in DateColumns ==> !Repeated(r.columns, d))
      && (c.1.Some? ==> c.1.value.ValueError?)
      && (c.1.None? ==> forall i, k :: 0 <= i < |t.rows| && 0 <= k < |t.columns| ==>
            r.rows[i][k] == if r.columns[k] in DateColumns then ToDate(t.rows[i][k], DayMonthYear, parse) else t.rows[i][k])
  {
    ParseDateColumnsSpec(RenameIfPresent(NormalizeLabels(t), rename), DateColumns, parse);
  }

  /** A frame whose " Order Date" and "order_date" columns both become order_date makes clean_data raise ValueError. */
  lemma CollidingDatesRaise(parse: Parser)
    ensures var t := Table([" Order Date", "order_date"], [0], [[Str("01-02-24"), Str("03-04-24")]]);
      WellFormed(t) && CleanFrame(t, None, parse).1 == Some(ValueError(AssembleMessage))
  {
    var t := Table([" Order Date", "order_date"], [0], [[Str("01-02-24"), Str("03-04-24")]]);
    var n := NormalizeLabels(t);
    OrderDateLabels();
    assert n.columns == ["order_date", "order_date"];
    assert 0 <= 0 < 1 < |n.columns| && n.columns[0] == "order_date" && n.columns[1] == "order_date";
  }

  /** " Order Date" and "order_date" both normalise to order_date. */
  lemma OrderDateLabels()
    ensures SnakeLabel(" Order Date") == "order_date" && SnakeLabel("order_date") == "order_date"
  {
    assert SnakeLabel(" Order Date") == "order_date";
  }

  /** A present, non-empty frame is cleaned; a missing or empty one is skipped. */
  predicate Skipped(d: DataFrame?)
    reads d
  {
    d == null || Empty(Table(d.columns, d.index, d.rows))
  }

  function KeepMask(dfs: seq<DataFrame?>): (m: seq<bool>)
    reads set d | d in dfs
    ensures |m| == |dfs| && forall i :: 0 <= i < |dfs| ==> (m[i] <==> !Skipped(dfs[i]))
  {
    seq(|dfs|, i reads set d | d in dfs requires 0 <= i < |dfs| => !Skipped(dfs[i]))
  }

  /** The per-frame body of clean_data: relabel, rename when present, and parse the date columns, all in place;
      the error is the one that escapes the body, which leaves the frame as far as it got. */
  method CleanFrameInPlace(df: DataFrame, rename: Option<(string, string)>, parse: Parser) returns (err: Option<Error>)
    requires df.Valid()
    modifies df
    ensures df.Valid() && df.Snapshot() == CleanFrame(old(df.Snapshot()), rename, parse).0
    ensures err == CleanFrame(old(df.Snapshot()), rename, parse).1
  {
    ghost var t0 := df.Snapshot();
    var names := seq(|df.columns|, k requires 0 <= k < |df.columns| reads df => SnakeLabel(df.columns[k]));
    df.SetLabels(names);
    if rename.Some? && rename.value.0 in df.columns {
      df.RenameInPlace(rename.value.0, rename.value.1);
    }
    assert df.Snapshot() == RenameIfPresent(NormalizeLabels(t0), rename);
    var k := 0;
    while k < |DateColumns|
      invariant 0 <= k <= |DateColumns| && df.Valid()
      invariant ParseDateColumns(df.Snapshot(), DateColumns[k..], parse) == CleanFrame(t0, rename, parse)
    {
      var col := DateColumns[k];
      assert DateColumns[k..][1..] == DateColumns[k + 1..];
      var parsed := ParseDateColumn(df.Snapshot(), col, parse);
      if parsed.Err? {
        return Some(parsed.error);
      }
      if col in df.columns {
        df.SetColumn(col, ToDates(Col(df.Snapshot(), col), DayMonthYear, parse));
      }
      k := k + 1;
    }
    err := None;
  }

  /** Whether cleaning this frame raises: it is not empty, and its cleaning fails. */
  predicate Fails(t: Frame, rename: Option<(string, string)>, parse: Parser) {
    !Empty(t) && CleanFrame(t, rename, parse).1.Some?
  }

  /** The position of the first frame whose cleaning raises; |olds| when none does. */
  function FirstFailure(olds: seq<Frame>, rename: Option<(string, string)>, parse: Parser): (f: nat)
    ensures f <= |olds|
    ensures forall j :: 0 <= j < f ==> !Fails(olds[j], rename, parse)
    ensures f < |olds| ==> Fails(olds[f], rename, parse)
  {
    if olds == [] then 0
    else if Fails(olds[0], rename, parse) then 0
    else 1 + FirstFailure(olds[1..], rename, parse)
  }

  /** clean_data(dfs, old, new): each present, non-empty frame is cleaned in place and returned, in input order;
      missing and empty frames are skipped and left as they were. The first frame whose cleaning raises ends the
      call with that error: the frames before it stay cleaned, it keeps what its cleaning did before the raise,
      and the frames after it are untouched. */
  method CleanData(dfs: seq<DataFrame?>, rename: Option<(string, string)>, parse: Parser) returns (r: Result<seq<DataFrame>>)
    requires forall i :: 0 <= i < |dfs| && dfs[i] != null ==> dfs[i].Valid()
    requires forall i, j :: 0 <= i < j < |dfs| && dfs[i] != null ==> dfs[i] != dfs[j]
    modifies set d | d in dfs
    ensures var f := FirstFailure(old(Snapshots(dfs)), rename, parse);
      && (r.Ok? <==> f == |dfs|)
      && (r.Ok? ==> r.value == Pick(dfs, old(KeepMask(dfs))))
      && (r.Err? ==> f < |dfs| && Some(r.error) == CleanFrame(old(Snapshots(dfs))[f], rename, parse).1)
      && Visited(dfs, old(Snapshots(dfs)), if f < |dfs| then f + 1 else f, rename, parse)
  {
    ghost var mask := KeepMask(dfs);
    ghost var olds := Snapshots(dfs);
    var cleaned := [];
    var i := 0;
    while i < |dfs|
      invariant Visited(dfs, olds, i, rename, parse)
      invariant cleaned == Pick(dfs[..i], mask[..i])
      invariant i <= FirstFailure(olds, rename, parse)
    {
      var err;
      cleaned, err := CleanStep(dfs, olds, mask, i, cleaned, rename, parse);
      if err.Some? {
        return Err(err.value);
      }
      i := i + 1;
    }
    assert dfs[..|dfs|] == dfs && mask[..|dfs|] == mask;
    r := Ok(cleaned);
  }

  /** The states of the frames in dfs, an empty table standing in for a missing frame. */
  ghost function Snapshots(dfs: seq<DataFrame?>): (s: seq<Frame>)
    reads set d | d in dfs
    requires forall i :: 0 <= i < |dfs| && dfs[i] != null ==> dfs[i].Valid()
    ensures |s| == |dfs|
    ensures forall i :: 0 <= i < |dfs| && dfs[i] != null ==> s[i] == dfs[i].Snapshot()
    ensures forall i :: 0 <= i < |dfs| ==> (Skipped(dfs[i]) <==> dfs[i] == null || Empty(s[i]))
    ensures forall i :: 0 <= i < |dfs| && dfs[i] == null ==> Empty(s[i])
  {
    if dfs == [] then []
    else [if dfs[0] != null then dfs[0].Snapshot() else Table([], [], [])] + Snapshots(dfs[1..])
  }

  /** The loop state of clean_data after its first i frames: each present frame is valid, and holds its outcome when
      already visited and its entry state otherwise. */
  ghost predicate Visited(dfs: seq<DataFrame?>, olds: seq<Frame>, i: int, rename: Option<(string, string)>, parse: Parser)
    reads set d | d in dfs
  {
    && |olds| == |dfs| && 0 <= i <= |dfs|
    && forall j :: 0 <= j < |dfs| && dfs[j] != null ==>
      && dfs[j].Valid()
      && dfs[j].Snapshot() == if j < i then Outcome(olds[j], rename, parse) else olds[j]
  }

  /** One pass of clean_data's loop: frame i is cleaned in place and appended to the result unless it is missing
      or empty; the error its cleaning raises, if any, is handed back. */
  method CleanStep(dfs: seq<DataFrame?>, ghost olds: seq<Frame>, ghost mask: seq<bool>, i: int, cleaned: seq<DataFrame>,
                   rename: Option<(string, string)>, parse: Parser)
    returns (next: seq<DataFrame>, err: Option<Error>)
    requires 0 <= i < |dfs| && Visited(dfs, olds, i, rename, parse)
    requires forall i, j :: 0 <= i < j < |dfs| && dfs[i] != null ==> dfs[i] != dfs[j]
    requires |mask| == |dfs| && (mask[i] <==> dfs[i] != null && !Empty(olds[i]))
    requires dfs[i] == null ==> Empty(olds[i])
    requires cleaned == Pick(dfs[..i], mask[..i])
    requires i <= FirstFailure(olds, rename, parse)
    modifies set d | d in dfs
    ensures next == Pick(dfs[..i + 1], mask[..i + 1])
    ensures Visited(dfs, olds, i + 1, rename, parse)
    ensures err.Some? <==> Fails(olds[i], rename, parse)
    ensures err.Some? ==> err == CleanFrame(olds[i], rename, parse).1
    ensures if err.Some? then FirstFailure(olds, rename, parse) == i else i < FirstFailure(olds, rename, parse)
  {
    PickSnoc(dfs, mask, i);
    var df := dfs[i];
    next := cleaned;
    err := None;
    if df != null && !Empty(df.Snapshot()) {
      err := CleanFrameInPlace(df, rename, parse);
      next := cleaned + [df];
    }
  }

  /** The state clean_data leaves a present frame in: an empty frame untouched, any other cleaned as far as its
      cleaning got. */
  function Outcome(t: Frame, rename: Option<(string, string)>, parse: Parser): (r: Frame)
    ensures Empty(t) ==> r == t
    ensures !Empty(t) ==> r == CleanFrame(t, rename, parse).0
  {
    if Empty(t) then t else CleanFrame(t, rename, parse).0
  }

  // ----- remove_duplicates -----

  /** drop_duplicates(subset, keep) followed by reset_index(drop=True). */
  function Dedup(t: Frame, subset: Option<seq<string>>, keep: Keep): (r: Result<Frame>)
    ensures r.Ok? ==> r.value.columns == t.columns && r.value.index == Range(|r.value.rows|)
    ensures r.Err? <==> subset.Some? && !AllIn(subset.value, t.columns)
  {
    match DropDuplicates(t, subset, keep)
    case Ok(u) => Ok(ResetIndex(u))
    case Err(e) => Err(e)
  }

  /** The frames remove_duplicates returns: each present, non-empty frame de-duplicated, in order; the first failure aborts. */
  function Deduplicated(dfs: seq<Option<Frame>>, subset: Option<seq<string>>, keep: Keep): (r: Result<seq<Frame>>)
    ensures r.Ok? ==> |r.value| <= |dfs|
  {
    if dfs == [] then Ok([])
    else
      var rest := Deduplicated(dfs[1..], subset, keep);
      if dfs[0].None? || Empty(dfs[0].value) then rest
      else match Dedup(dfs[0].value, subset, keep)
        case Err(e) => Err(e)
        case Ok(u) => if rest.Err? then rest else Ok([u] + rest.value)
  }

  function Prepend(done: seq<Frame>, rest: Result<seq<Frame>>): Result<seq<Frame>> {
    if rest.Err? then rest else Ok(done + rest.value)
  }

  lemma PrependNothing(r: Result<seq<Frame>>)
    ensures Prepend([], r) == r
  {
    if r.Ok? {
      assert [] + r.value == r.value;
    }
  }

  /** One step of remove_duplicates: frame i is skipped, aborts the loop, or joins the frames cleaned so far. */
  lemma DeduplicatedStep(cleaned: seq<Frame>, dfs: seq<Option<Frame>>, i: int, subset: Option<seq<string>>, keep: Keep)
    requires 0 <= i < |dfs|
    ensures Prepend(cleaned, Deduplicated(dfs[i..], subset, keep)) ==
      if dfs[i].None? || Empty(dfs[i].value) then Prepend(cleaned, Deduplicated(dfs[i + 1..], subset, keep))
      else match Dedup(dfs[i].value, subset, keep)
        case Err(e) => Err(e)
        case Ok(u) => Prepend(cleaned + [u], Deduplicated(dfs[i + 1..], subset, keep))
  {
    var rest := Deduplicated(dfs[i + 1..], subset, keep);
    assert dfs[i..][0] == dfs[i] && dfs[i..][1..] == dfs[i + 1..];
    if dfs[i].Some? && !Empty(dfs[i].value) && Dedup(dfs[i].value, subset, keep).Ok? && rest.Ok? {
      var u := Dedup(dfs[i].value, subset, keep).value;
      assert cleaned + ([u] + rest.value) == (cleaned + [u]) + rest.value;
    }
  }

  /** remove_duplicates(dfs, subset, keep) */
  method RemoveDuplicates(dfs: seq<Option<Frame>>, subset: Option<seq<string>>, keep: Keep) returns (r: Result<seq<Frame>>)
    ensures r == Deduplicated(dfs, subset, keep)
  {
    var cleaned: seq<Frame> := [];
    var i := 0;
    assert dfs[0..] == dfs;
    PrependNothing(Deduplicated(dfs, subset, keep));
    while i < |dfs|
      invariant 0 <= i <= |dfs|
      invariant Deduplicated(dfs, subset, keep) == Prepend(cleaned, Deduplicated(dfs[i..], subset, keep))
    {
      DeduplicatedStep(cleaned, dfs, i, subset, keep);
      if dfs[i].Some? && !Empty(dfs[i].value) {
        var d := Dedup(dfs[i].value, subset, keep);
        if d.Err? {
          return Err(d.error);
        }
        cleaned := cleaned + [d.value];
      }
      i := i + 1;
    }
    assert dfs[i..] == [] && cleaned + [] == cleaned;
    r := Ok(cleaned);
  }

  /** With keep="first", a de-duplicated frame has no two rows sharing a key, keeps every key of its input,
      and is numbered 0..n-1. */
  lemma DedupFirstSpec(t: Frame, subset: Option<seq<string>>)
    requires subset.Some? ==> AllIn(subset.value, t.columns)
    ensures Dedup(t, subset, KeepFirst).Ok?
    ensures var r := Dedup(t, subset, KeepFirst).value;
      && r.index == Range(|r.rows|)
      && (forall p, q :: 0 <= p < q < |r.rows| ==> DupKey(r, p, subset) != DupKey(r, q, subset))
      && (forall i :: 0 <= i < |t.rows| ==> HasKey(r, DupKey(t, i, subset), subset))
  {
    var r := Dedup(t, subset, KeepFirst).value;
    forall p, q | 0 <= p < q < |r.rows| ensures DupKey(r, p, subset) != DupKey(r, q, subset) {
      DedupKeysDiffer(t, subset, p, q);
    }
    forall i | 0 <= i < |t.rows| ensures HasKey(r, DupKey(t, i, subset), subset) {
      DedupKeyKept(t, subset, i);
    }
  }

  /** Two rows of the de-duplicated frame are two remaining rows of drop_duplicates, so their keys differ. */
  lemma DedupKeysDiffer(t: Frame, subset: Option<seq<string>>, p: int, q: int)
    requires subset.Some? ==> AllIn(subset.value, t.columns)
    requires Dedup(t, subset, KeepFirst).Ok? && 0 <= p < q < |Dedup(t, subset, KeepFirst).value.rows|
    ensures DupKey(Dedup(t, subset, KeepFirst).value, p, subset) != DupKey(Dedup(t, subset, KeepFirst).value, q, subset)
  {
    var u := DropDuplicates(t, subset, KeepFirst).value;
    var r := Dedup(t, subset, KeepFirst).value;
    assert r == ResetIndex(u);
    DropKeysDiffer(t, subset, p, q);
    SameRowSameKey(u, p, r, p, subset);
    SameRowSameKey(u, q, r, q, subset);
  }

  /** The key of row i of t is the key of a row of the de-duplicated frame: reset_index moves no row. */
  lemma DedupKeyKept(t: Frame, subset: Option<seq<string>>, i: int)
    requires subset.Some? ==> AllIn(subset.value, t.columns)
    requires 0 <= i < |t.rows|
    ensures Dedup(t, subset, KeepFirst).Ok?
    ensures HasKey(Dedup(t, subset, KeepFirst).value, DupKey(t, i, subset), subset)
  {
    var u := DropDuplicates(t, subset, KeepFirst).value;
    var r := Dedup(t, subset, KeepFirst).value;
    assert r == ResetIndex(u);
    DropKeyKept(t, subset, i);
    var p :| 0 <= p < |u.rows| && DupKey(u, p, subset) == DupKey(t, i, subset);
    SameRowSameKey(u, p, r, p, subset);
  }

  // ----- merge_data -----

  /** Folds the remaining frames into the accumulated join, using one key pair per frame. */
  function MergeFold(acc: Frame, rest: seq<Frame>, keys: seq<(string, string)>, how: How): Result<Frame>
    decreases |rest|
  {
    if rest == [] then Ok(acc)
    else if |keys| == 0 then Err(IndexError)
    else match Merge(acc, rest[0], keys[0].0, keys[0].1, how)
      case Err(e) => Err(e)
      case Ok(m) => MergeFold(m, rest[1..], keys[1..], how)
  }

  /** What merge_data returns. */
  function MergedAll(dfs: seq<Frame>, keys: seq<(string, string)>, how: How): Result<Frame> {
    if |dfs| < 2 then Err(ValueError("At least two DataFrames are required for merging."))
    else MergeFold(dfs[0], dfs[1..], keys, how)
  }

  /** One step of merge_data: frame i+1 joins on merge_columns[i], or there is no such key pair. */
  lemma MergeFoldStep(acc: Frame, dfs: seq<Frame>, keys: seq<(string, string)>, i: int, how: How)
    requires 0 <= i < |dfs| - 1 && i <= |keys|
    ensures MergeFold(acc, dfs[i + 1..], keys[i..], how) ==
      if i == |keys| then Err(IndexError)
      else match Merge(acc, dfs[i + 1], keys[i].0, keys[i].1, how)
        case Err(e) => Err(e)
        case Ok(m) => MergeFold(m, dfs[i + 2..], keys[i + 1..], how)
  {
    assert dfs[i + 1..][0] == dfs[i + 1] && dfs[i + 1..][1..] == dfs[i + 2..];
    if i < |keys| {
      assert keys[i..][0] == keys[i] && keys[i..][1..] == keys[i + 1..];
    }
  }

  /** merge_data(dfs, merge_columns, how): frame i+1 joins the running result on merge_columns[i]. */
  method MergeData(dfs: seq<Frame>, keys: seq<(string, string)>, how: How) returns (r: Result<Frame>)
    ensures r == MergedAll(dfs, keys, how)
  {
    if |dfs| < 2 {
      return Err(ValueError("At least two DataFrames are required for merging."));
    }
    var merged := dfs[0];
    var i := 0;
    while i < |dfs| - 1
      invariant 0 <= i <= |dfs| - 1 && i <= |keys|
      invariant MergeFold(merged, dfs[i + 1..], keys[i..], how) == MergedAll(dfs, keys, how)
    {
      MergeFoldStep(merged, dfs, keys, i, how);
      if i >= |keys| {
        return Err(IndexError);
      }
      var m := Merge(merged, dfs[i + 1], keys[i].0, keys[i].1, how);
      if m.Err? {
        return Err(m.error);
      }
      merged := m.value;
      i := i + 1;
    }
    assert dfs[i + 1..] == [];
    r := Ok(merged);
  }

  /** Fewer than two frames is a ValueError; too few key pairs an IndexError; two frames are one join. */
  lemma MergedAllSpec(dfs: seq<Frame>, keys: seq<(string, string)>, how: How)
    ensures |dfs| < 2 ==> MergedAll(dfs, keys, how).Err? && MergedAll(dfs, keys, how).error.ValueError?
    ensures |dfs| >= 2 && keys == [] ==> MergedAll(dfs, keys, how) == Err(IndexError)
    ensures |dfs| == 2 && |keys| >= 1 ==> MergedAll(dfs, keys, how) == Merge(dfs[0], dfs[1], keys[0].0, keys[0].1, how)
  {
    if |dfs| == 2 && |keys| >= 1 {
      assert dfs[1..][1..] == [];
      match Merge(dfs[0], dfs[1], keys[0].0, keys[0].1, how)
      case Err(_) =>
      case Ok(m) => assert MergeFold(m, [], keys[1..], how) == Ok(m);
    }
  }

  // ----- compute_derived_columns -----

  const DerivedInputs: seq<string> := ["quantity", "amount", "profit", "discount"]

  /** amount * (1 - discount / 100) on one row. */
  function DiscountedPrice(amount: Value, discount: Value): (v: Value)
    requires NumOrNull(amount) && NumOrNull(discount)
    ensures NumOrNull(v)
  {
    Times(amount, Minus(Int(1), Divide(discount, Int(100))))
  }

  /** A discount in [0, 100] on a non-negative amount gives a price between 0 and the amount; 0 keeps the amount. */
  lemma DiscountedPriceSpec(amount: Value, discount: Value)
    requires IsNum(amount) && IsNum(discount)
    ensures IsNum(DiscountedPrice(amount, discount))
    ensures AsReal(DiscountedPrice(amount, discount)) == AsReal(amount) * (1.0 - AsReal(discount) / 100.0)
    ensures AsReal(amount) >= 0.0 && 0.0 <= AsReal(discount) <= 100.0 ==>
      0.0 <= AsReal(DiscountedPrice(amount, discount)) <= AsReal(amount)
    ensures AsReal(discount) == 0.0 ==> AsReal(DiscountedPrice(amount, discount)) == AsReal(amount)
  {
    var a := AsReal(amount);
    var f := 1.0 - AsReal(discount) / 100.0;
    assert AsReal(Minus(Int(1), Divide(discount, Int(100)))) == f;
    assert AsReal(DiscountedPrice(amount, discount)) == a * f;
    if a >= 0.0 && 0.0 <= AsReal(discount) <= 100.0 {
      assert 0.0 <= f <= 1.0;
      assert a * f <= a * 1.0 by {
        assert a * (1.0 - f) >= 0.0;
      }
    }
  }

  lemma DerivedInputsPresent(cols: seq<string>)
    requires AllIn(DerivedInputs, cols)
    ensures "quantity" in cols && "amount" in cols && "profit" in cols && "discount" in cols
  {
    assert DerivedInputs[0] in cols && DerivedInputs[1] in cols && DerivedInputs[2] in cols && DerivedInputs[3] in cols;
  }

  /** The state compute_derived_columns leaves the frame in and the error it raises, if any: each column is
      written as soon as it is computed, so a later TypeError leaves the earlier columns written. */
  function Derived(t: Frame): (Frame, Option<Error>) {
    if !AllIn(DerivedInputs, t.columns) then (t, Some(KeyError(FirstMissing(DerivedInputs, t.columns))))
    else
      DerivedInputsPresent(t.columns);
      match MulCols(Col(t, "quantity"), Col(t, "amount"))
      case Err(e) => (t, Some(e))
      case Ok(revenue) =>
        var t1 := Assign(t, "total_revenue", revenue);
        match DivCols(Col(t1, "profit"), Col(t1, "total_revenue"))
        case Err(e) => (t1, Some(e))
        case Ok(margin) =>
          var t2 := Assign(t1, "profit_margin", margin);
          var amount := Col(t2, "amount");
          var discount := Col(t2, "discount");
          if !AllNumOrNull(amount) || !AllNumOrNull(discount) then (t2, Some(TypeError("unsupported operand type")))
          else (Assign(t2, "discounted_price", seq(|t2.rows|, i requires 0 <= i < |t2.rows| => DiscountedPrice(amount[i], discount[i]))), None)
  }

  /** compute_derived_columns(merged_df), writing total_revenue, profit_margin and discounted_price in place. */
  method ComputeDerivedColumns(df: DataFrame) returns (r: Result<DataFrame>)
    requires df.Valid()
    modifies df
    ensures df.Valid() && df.Snapshot() == Derived(old(df.Snapshot())).0
    ensures r.Ok? <==> Derived(old(df.Snapshot())).1.None?
    ensures r.Ok? ==> r.value == df
    ensures r.Err? ==> Some(r.error) == Derived(old(df.Snapshot())).1
  {
    var t := df.Snapshot();
    if !AllIn(DerivedInputs, t.columns) {
      return Err(KeyError(FirstMissing(DerivedInputs, t.columns)));
    }
    DerivedInputsPresent(t.columns);
    var revenue := MulCols(Col(t, "quantity"), Col(t, "amount"));
    if revenue.Err? {
      return Err(revenue.error);
    }
    df.SetColumn("total_revenue", revenue.value);
    var t1 := df.Snapshot();
    var margin := DivCols(Col(t1, "profit"), Col(t1, "total_revenue"));
    if margin.Err? {
      return Err(margin.error);
    }
    df.SetColumn("profit_margin", margin.value);
    var t2 := df.Snapshot();
    var amount := Col(t2, "amount");
    var discount := Col(t2, "discount");
    if !AllNumOrNull(amount) || !AllNumOrNull(discount) {
      return Err(TypeError("unsupported operand type"));
    }
    df.SetColumn("discounted_price", seq(|t2.rows|, i requires 0 <= i < |t2.rows| => DiscountedPrice(amount[i], discount[i])));
    r := Ok(df);
  }

  /** On success every row holds total_revenue = quantity * amount, profit_margin = profit / total_revenue
      (missing when the revenue is zero or missing) and its discounted price; a missing input column is a
      KeyError. */
  lemma DerivedSpec(t: Frame)
    ensures !AllIn(DerivedInputs, t.columns) ==> Derived(t) == (t, Some(KeyError(FirstMissing(DerivedInputs, t.columns))))
    ensures Derived(t).1.None? ==>
      var r := Derived(t).0;
      && "quantity" in t.columns && "amount" in t.columns && "profit" in t.columns && "discount" in t.columns
      && "total_revenue" in r.columns && "discounted_price" in r.columns && "profit_margin" in r.columns
      && |r.rows| == |t.rows|
      && forall i :: 0 <= i < |t.rows| ==>
           && NumOrNull(Cell(t, i, "quantity")) && NumOrNull(Cell(t, i, "amount")) && NumOrNull(Cell(t, i, "discount"))
           && NumOrNull(Cell(t, i, "profit"))
           && Cell(r, i, "total_revenue") == Times(Cell(t, i, "quantity"), Cell(t, i, "amount"))
           && Cell(r, i, "profit_margin") == Divide(Cell(t, i, "profit"), Times(Cell(t, i, "quantity"), Cell(t, i, "amount")))
           && Cell(r, i, "discounted_price") == DiscountedPrice(Cell(t, i, "amount"), Cell(t, i, "discount"))
  {
    if Derived(t).1.None? {
      DerivedInputsPresent(t.columns);
      DerivedShape(t);
      var r := Derived(t).0;
      forall i | 0 <= i < |t.rows|
        ensures NumOrNull(Cell(t, i, "quantity")) && NumOrNull(Cell(t, i, "amount")) && NumOrNull(Cell(t, i, "discount"))
        ensures NumOrNull(Cell(t, i, "profit"))
        ensures Cell(r, i, "total_revenue") == Times(Cell(t, i, "quantity"), Cell(t, i, "amount"))
        ensures Cell(r, i, "profit_margin") == Divide(Cell(t, i, "profit"), Times(Cell(t, i, "quantity"), Cell(t, i, "amount")))
        ensures Cell(r, i, "discounted_price") == DiscountedPrice(Cell(t, i, "amount"), Cell(t, i, "discount"))
      {
        DerivedRow(t, i);
      }
    }
  }

  /** The three intermediate frames of a successful compute_derived_columns. */
  lemma DerivedShape(t: Frame)
    requires Derived(t).1.None?
    ensures AllIn(DerivedInputs, t.columns)
    ensures "quantity" in t.columns && "amount" in t.columns && "profit" in t.columns && "discount" in t.columns
    ensures var r := Derived(t).0;
      && "total_revenue" in r.columns && "discounted_price" in r.columns && "profit_margin" in r.columns
      && |r.rows| == |t.rows|
  {
    DerivedInputsPresent(t.columns);
  }

  /** Row i of a successful compute_derived_columns. */
  lemma DerivedRow(t: Frame, i: int)
    requires Derived(t).1.None? && 0 <= i < |t.rows|
    ensures "quantity" in t.columns && "amount" in t.columns && "profit" in t.columns && "discount" in t.columns
    ensures var r := Derived(t).0;
      && "total_revenue" in r.columns && "discounted_price" in r.columns && "profit_margin" in r.columns
      && |r.rows| == |t.rows|
      && NumOrNull(Cell(t, i, "quantity")) && NumOrNull(Cell(t, i, "amount")) && NumOrNull(Cell(t, i, "discount"))
      && NumOrNull(Cell(t, i, "profit"))
      && Cell(r, i, "total_revenue") == Times(Cell(t, i, "quantity"), Cell(t, i, "amount"))
      && Cell(r, i, "profit_margin") == Divide(Cell(t, i, "profit"), Times(Cell(t, i, "quantity"), Cell(t, i, "amount")))
      && Cell(r, i, "discounted_price") == DiscountedPrice(Cell(t, i, "amount"), Cell(t, i, "discount"))
  {
    DerivedInputsPresent(t.columns);
    var revenue := MulCols(Col(t, "quantity"), Col(t, "amount")).value;
    var t1 := Assign(t, "total_revenue", revenue);
    var margin := DivCols(Col(t1, "profit"), Col(t1, "total_revenue")).value;
    var t2 := Assign(t1, "profit_margin", margin);
    var amount := Col(t2, "amount");
    var discount := Col(t2, "discount");
    var prices := seq(|t2.rows|, i requires 0 <= i < |t2.rows| => DiscountedPrice(amount[i], discount[i]));
    var r := Assign(t2, "discounted_price", prices);
    assert r == Derived(t).0;
    assert Col(t, "quantity")[i] == Cell(t, i, "quantity") && Col(t, "amount")[i] == Cell(t, i, "amount");
    AssignCell(t, "total_revenue", revenue, "profit", i);
    AssignCell(t, "total_revenue", revenue, "total_revenue", i);
    AssignCell(t, "total_revenue", revenue, "amount", i);
    AssignCell(t, "total_revenue", revenue, "discount", i);
    assert Col(t1, "profit")[i] == Cell(t, i, "profit") && Col(t1, "total_revenue")[i] == revenue[i];
    AssignCell(t1, "profit_margin", margin, "profit_margin", i);
    AssignCell(t1, "profit_margin", margin, "total_revenue", i);
    AssignCell(t1, "profit_margin", margin, "amount", i);
    AssignCell(t1, "profit_margin", margin, "discount", i);
    assert amount[i] == Cell(t, i, "amount") && discount[i] == Cell(t, i, "discount");
    AssignCell(t2, "discounted_price", prices, "profit_margin", i);
    AssignCell(t2, "discounted_price", prices, "total_revenue", i);
    AssignCell(t2, "discounted_price", prices, "discounted_price", i);
  }

  // ----- segment_deliveries -----

  /** The delivery category of one day count: the first of the two conditions that holds wins, "standard" otherwise. */
  function DeliveryCategory(days: Value, fast: int, slow: int): string
    requires NumOrNull(days)
  {
    if IsNum(days) && AsReal(days) < fast as real then "fast"
    else if IsNum(days) && AsReal(days) > slow as real then "slow"
    else "standard"
  }

  function Speed(category: string): int {
    if category == "fast" then 0 else if category == "standard" then 1 else 2
  }

  /** "fast" exactly below the fast threshold, "slow" exactly above the slow one and not fast, "standard" otherwise
      (a missing day count included); with fast <= slow the category never gets faster as the days grow. */
  lemma DeliveryCategorySpec(a: Value, b: Value, fast: int, slow: int)
    requires NumOrNull(a) && NumOrNull(b)
    ensures DeliveryCategory(a, fast, slow) == "fast" <==> IsNum(a) && AsReal(a) < fast as real
    ensures DeliveryCategory(a, fast, slow) == "slow" <==> IsNum(a) && fast as real <= AsReal(a) && AsReal(a) > slow as real
    ensures DeliveryCategory(a, fast, slow) == "standard" <==> a.Null? || fast as real <= AsReal(a) <= slow as real
    ensures fast <= slow && IsNum(a) && IsNum(b) && AsReal(a) <= AsReal(b) ==>
      Speed(DeliveryCategory(a, fast, slow)) <= Speed(DeliveryCategory(b, fast, slow))
  {
  }

  /** segment_deliveries(merged_df, fast, slow): writes delivery_category in place. */
  method SegmentDeliveries(df: DataFrame, fast: int, slow: int) returns (r: Result<DataFrame>)
    requires df.Valid()
    modifies df
    ensures r.Err? <==> "shipping_days" !in old(df.columns) || !AllNumOrNull(Col(old(df.Snapshot()), "shipping_days"))
    ensures r.Err? ==> unchanged(df) && (r.error == KeyError("shipping_days") || r.error.TypeError?)
    ensures r.Ok? ==>
      && r.value == df && df.Valid()
      && var t := old(df.Snapshot());
      var days := Col(t, "shipping_days");
      df.Snapshot() == Assign(t, "delivery_category", seq(|days|, i requires 0 <= i < |days| => Str(DeliveryCategory(days[i], fast, slow))))
  {
    var t := df.Snapshot();
    if "shipping_days" !in t.columns {
      return Err(KeyError("shipping_days"));
    }
    var days := Col(t, "shipping_days");
    if !AllNumOrNull(days) {
      return Err(TypeError("'<' not supported"));
    }
    df.SetColumn("delivery_category", seq(|days|, i requires 0 <= i < |days| => Str(DeliveryCategory(days[i], fast, slow))));
    r := Ok(df);
  }

  // ----- categorize_products -----

  /** The product category of one amount, by right-closed bands with edges 0, 50 and 200. */
  function ProductCategory(amount: Value): Value
    requires NumOrNull(amount)
  {
    CutValue(amount, [0.0, 50.0, 200.0], true, ["low", "medium", "high"])
  }

  /** "low" for (0, 50], "medium" for (50, 200], "high" above 200, missing for a missing amount or one <= 0. */
  lemma ProductCategorySpec(amount: Value)
    requires NumOrNull(amount)
    ensures ProductCategory(amount) == Str("low") <==> IsNum(amount) && 0.0 < AsReal(amount) <= 50.0
    ensures ProductCategory(amount) == Str("medium") <==> IsNum(amount) && 50.0 < AsReal(amount) <= 200.0
    ensures ProductCategory(amount) == Str("high") <==> IsNum(amount) && 200.0 < AsReal(amount)
    ensures ProductCategory(amount) == Null <==> amount.Null? || AsReal(amount) <= 0.0
  {
  }

  /** categorize_products(merged_df): writes product_category in place. */
  method CategorizeProducts(df: DataFrame) returns (r: Result<DataFrame>)
    requires df.Valid()
    modifies df
    ensures r.Err? <==> "amount" !in old(df.columns) || !AllNumOrNull(Col(old(df.Snapshot()), "amount"))
    ensures r.Err? ==> unchanged(df)
    ensures r.Ok? ==>
      && r.value == df && df.Valid()
      && var t := old(df.Snapshot());
      var amount := Col(t, "amount");
      df.Snapshot() == Assign(t, "product_category", seq(|amount|, i requires 0 <= i < |amount| => ProductCategory(amount[i])))
  {
    var t := df.Snapshot();
    if "amount" !in t.columns {
      return Err(KeyError("amount"));
    }
    var amount := Col(t, "amount");
    if !AllNumOrNull(amount) {
      return Err(TypeError("cut of non-numeric column"));
    }
    df.SetColumn("product_category", seq(|amount|, i requires 0 <= i < |amount| => ProductCategory(amount[i])));
    r := Ok(df);
  }
}
