/**
 * A dataframe object that the transforms change in place: relabelling its columns,
 * dropping rows, writing a column, and moving a column into and back out of the index.
 * Each mutation leaves the object holding the table the matching pure operation of
 * module Frames computes from its previous contents.
 */
module DataFrames {
  import opened Results
  import opened Frames

  class DataFrame {
    var columns: seq<string>
    var index: seq<int>
    var rows: seq<seq<Value>>

    ghost predicate Valid()
      reads this
    {
      WellFormed(Table(columns, index, rows))
    }

    /** The contents of the object as a table value. */
    function Snapshot(): (t: Frame)
      reads this
      requires Valid()
      ensures t.columns == columns && t.rows == rows
    {
      Table(columns, index, rows)
    }

    constructor (t: Frame)
      ensures Valid() && Snapshot() == t
    {
      columns := t.columns;
      index := t.index;
      rows := t.rows;
    }

    /** df.columns = names */
    method SetLabels(names: seq<string>)
      requires Valid() && |names| == |columns|
      modifies this
      ensures Valid() && Snapshot() == SetColumns(old(Snapshot()), names)
    {
      columns := names;
    }

    /** df.columns = df.columns.str...: every label rewritten by f */
    method RelabelWith(f: string -> string)
      requires Valid()
      modifies this
      ensures Valid() && Snapshot() == Relabel(old(Snapshot()), f)
    {
      var cs := columns;
      columns := seq(|cs|, k requires 0 <= k < |cs| => f(cs[k]));
    }

    /** df.rename(columns={from: to}, inplace=True) */
    method RenameInPlace(from: string, to: string)
      requires Valid()
      modifies this
      ensures Valid() && Snapshot() == Rename(old(Snapshot()), from, to)
    {
      var t := Rename(Snapshot(), from, to);
      columns := t.columns;
    }

    /** df.dropna(inplace=True) */
    method DropNaInPlace()
      requires Valid()
      modifies this
      ensures Valid() && Snapshot() == DropNa(old(Snapshot()))
    {
      var t := DropNa(Snapshot());
      index := t.index;
      rows := t.rows;
    }

    /** df[name] = values */
    method SetColumn(name: string, values: seq<Value>)
      requires Valid() && |values| == |rows|
      modifies this
      ensures Valid() && Snapshot() == Assign(old(Snapshot()), name, values)
    {
      var t := Assign(Snapshot(), name, values);
      columns := t.columns;
      rows := t.rows;
    }

    /** df.set_index(name, inplace=True) and, once the other columns are written, df.reset_index(inplace=True). */
    method IndexRoundTrip(name: string)
      requires Valid() && name in columns
      modifies this
      ensures Valid() && Snapshot() == MoveToFront(old(Snapshot()), name)
    {
      var t := MoveToFront(Snapshot(), name);
      columns := t.columns;
      index := t.index;
      rows := t.rows;
    }
  }
}
