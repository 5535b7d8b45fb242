/** Columns of a parquet row group read through a forward cursor: whole spans, or scattered records. */
module ParquetColumns {
  import opened Wrappers

  /** A column's cells: a value or nothing. A required column has a value in every cell. */
  datatype Column<T> = Column(cells: seq<Option<T>>, required: bool)

  predicate Sound<T>(c: Column<T>) {
    c.required ==> forall i :: 0 <= i < |c.cells| ==> c.cells[i].Some?
  }

  /** The values of the cells that have one, in order. */
  function Present<T>(cells: seq<Option<T>>): seq<T> {
    if cells == [] then []
    else Present(cells[..|cells| - 1]) + (if cells[|cells| - 1].Some? then [cells[|cells| - 1].value] else [])
  }

  lemma {:induction false} PresentJoins<T>(a: seq<Option<T>>, b: seq<Option<T>>)
    ensures Present(a + b) == Present(a) + Present(b)
  {
    if b == [] {
      assert a + b == a;
    } else {
      var n := |b| - 1;
      PresentJoins(a, b[..n]);
      assert (a + b)[..|a + b| - 1] == a + b[..n];
    }
  }

  /** Which value belongs to cell `i`: as many come before it as cells before it have one. */
  lemma PresentAt<T>(cells: seq<Option<T>>, i: nat)
    requires i < |cells|
    ensures |Present(cells[..i])| <= |Present(cells)|
    ensures cells[i].Some? ==> |Present(cells[..i])| < |Present(cells)| && Present(cells)[|Present(cells[..i])|] == cells[i].value
    ensures |Present(cells[..i + 1])| == |Present(cells[..i])| + (if cells[i].Some? then 1 else 0)
  {
    assert cells == cells[..i + 1] + cells[i + 1..];
    PresentJoins(cells[..i + 1], cells[i + 1..]);
    assert cells[..i + 1][..i] == cells[..i];
  }

  /** A column reader: forward only, handing out records as value presence flags and values. */
  class Cursor<T> {
    const column: Column<T>
    var pos: nat

    ghost predicate Valid()
      reads this
    {
      Sound(column) && pos <= |column.cells|
    }

    constructor (column: Column<T>)
      requires Sound(column)
      ensures Valid() && this.column == column && pos == 0
    {
      this.column, pos := column, 0;
    }

    method SkipRecords(n: nat)
      requires Valid()
      modifies this
      ensures Valid() && pos == if old(pos) + n < |column.cells| then old(pos) + n else |column.cells|
    {
      pos := if pos + n < |column.cells| then pos + n else |column.cells|;
    }

    /** Some of the next records, at least one while any are left and no more than asked for. A required
        column fills in no flags. */
    method ReadRecords(max: nat) returns (records: nat, defs: seq<bool>, vals: seq<T>)
      requires Valid()
      modifies this
      ensures Valid() && pos == old(pos) + records && records <= max && (records == 0 <==> max == 0 || old(pos) == |column.cells|)
      ensures vals == Present(column.cells[old(pos)..pos])
      ensures defs == if column.required then [] else Flags(column.cells[old(pos)..pos])
    {
      var left := |column.cells| - pos;
      var most := if max < left then max else left;
      var least := if most == 0 then 0 else 1;
      records :| least <= records <= most;
      var next := column.cells[pos..pos + records];
      vals := Present(next);
      defs := if column.required then [] else Flags(next);
      pos := pos + records;
    }
  }

  function Flags<T>(cells: seq<Option<T>>): (r: seq<bool>)
    ensures |r| == |cells| && forall i :: 0 <= i < |cells| ==> r[i] == cells[i].Some?
  {
    seq(|cells|, i requires 0 <= i < |cells| => cells[i].Some?)
  }

  /** Flags as the reader leaves them, filled up for a required column: then they say what is present. */
  function Resized(defs: seq<bool>, records: nat): (r: seq<bool>)
    ensures |r| == records && forall i :: 0 <= i < records ==> r[i] == if i < |defs| then defs[i] else true
  {
    seq(records, i requires 0 <= i < records => if i < |defs| then defs[i] else true)
  }

  lemma ResizedIsFlags<T>(c: Column<T>, from: nat, to: nat, defs: seq<bool>)
    requires Sound(c) && from <= to <= |c.cells|
    requires defs == if c.required then [] else Flags(c.cells[from..to])
    ensures Resized(defs, to - from) == Flags(c.cells[from..to])
  {
    forall i | 0 <= i < to - from
      ensures Resized(defs, to - from)[i] == c.cells[from..to][i].Some?
    {
      assert c.cells[from..to][i] == c.cells[from + i];
    }
  }

  /** Flags and values put back together: the records as cells. */
  method Unpack<T>(defs: seq<bool>, vals: seq<T>, ghost cells: seq<Option<T>>) returns (out: seq<Option<T>>)
    requires defs == Flags(cells) && vals == Present(cells)
    ensures out == cells
  {
    out := [];
    var vi := 0;
    var i := 0;
    while i < |defs|
      invariant 0 <= i <= |defs| && vi == |Present(cells[..i])| && out == cells[..i]
    {
      PresentAt(cells, i);
      if defs[i] {
        out := out + [Some(vals[vi])];
        vi := vi + 1;
      } else {
        out := out + [None];
      }
      i := i + 1;
    }
    assert cells[..i] == cells;
  }

  // ------------------------------------------------------------- reading spans and positions

  /** Which records are wanted: a run of them, or scattered ones. */
  datatype Rows = Span(first: nat, take: nat) | At(positions: seq<nat>)

  predicate Ascending(ps: seq<nat>) {
    forall i, j :: 0 <= i < j < |ps| ==> ps[i] <= ps[j]
  }

  /** The wanted records lie in the column, scattered ones in order. */
  predicate Fits(rows: Rows, n: nat) {
    match rows
    case Span(first, take) => first + take <= n
    case At(ps) => Ascending(ps) && forall i :: 0 <= i < |ps| ==> ps[i] < n
  }

  function Picked<T>(cells: seq<Option<T>>, rows: Rows): (r: seq<Option<T>>)
    requires Fits(rows, |cells|)
  {
    match rows
    case Span(first, take) => cells[first..first + take]
    case At(ps) => seq(|ps|, i requires 0 <= i < |ps| => cells[ps[i]])
  }

  /** Exactly `take` records after skipping `skip`, in as many reads as it takes. */
  method TakeRun<T>(r: Cursor<T>, skip: nat, take: nat) returns (out: seq<Option<T>>)
    requires r.Valid() && r.pos + skip + take <= |r.column.cells|
    modifies r
    ensures r.Valid() && r.pos == old(r.pos) + skip + take && out == r.column.cells[old(r.pos) + skip..r.pos]
  {
    if skip > 0 {
      r.SkipRecords(skip);
    }
    ghost var from := r.pos;
    out := [];
    var got := 0;
    while got < take
      invariant 0 <= got <= take && r.Valid() && from == old(r.pos) + skip && r.pos == from + got && from + take <= |r.column.cells|
      invariant out == r.column.cells[from..r.pos]
    {
      ghost var was := r.pos;
      var records, defs, vals := r.ReadRecords(take - got);
      ResizedIsFlags(r.column, was, r.pos, defs);
      var more := Unpack(Resized(defs, records), vals, r.column.cells[was..r.pos]);
      out := out + more;
      got := got + records;
    }
  }

  /** What the reader is to do in turn: skip and take, or state the last value again. */
  datatype Run = Run(skip: nat, take: nat)

  function RunAt(ps: seq<nat>, i: nat): Run
    requires i < |ps| && Ascending(ps)
  {
    if i > 0 && ps[i] == ps[i - 1] then Run(0, 0) else Run(ps[i] - (if i == 0 then 0 else ps[i - 1] + 1), 1)
  }

  method RunsOf(rows: Rows) returns (runs: seq<Run>)
    requires rows.At? ==> Ascending(rows.positions)
    ensures rows.Span? ==> runs == [Run(rows.first, rows.take)]
    ensures rows.At? ==> |runs| == |rows.positions| && forall i :: 0 <= i < |runs| ==> runs[i] == RunAt(rows.positions, i)
  {
    match rows {
      case Span(first, take) => runs := [Run(first, take)];
      case At(ps) =>
        runs := [];
        var prev: Option<nat> := None;
        var i := 0;
        while i < |ps|
          invariant 0 <= i <= |ps| == |ps| && |runs| == i && prev == if i == 0 then None else Some(ps[i - 1])
          invariant forall j :: 0 <= j < i ==> runs[j] == RunAt(ps, j)
        {
          if prev == Some(ps[i]) {
            runs := runs + [Run(0, 0)];
          } else {
            runs := runs + [Run(ps[i] - (if prev.Some? then prev.value + 1 else 0), 1)];
            prev := Some(ps[i]);
          }
          i := i + 1;
        }
    }
  }

  /** `read_records`: one column at the records asked for. Scattered positions are read in one forward
      pass, and a position asked for again states its value again. A span of no records is mistaken for
      such a repeat and comes back as one empty cell. */
  method ReadColumn<T>(column: Column<T>, rows: Rows) returns (out: seq<Option<T>>)
    requires Sound(column) && Fits(rows, |column.cells|)
    ensures out == if rows.Span? && rows.take == 0 then [None] else Picked(column.cells, rows)
  {
    var r := new Cursor<T>(column);
    var runs := RunsOf(rows);
    out := [];
    var i := 0;
    while i < |runs|
      invariant 0 <= i <= |runs| && fresh(r) && r.Valid() && r.column == column
      invariant rows.Span? ==> |runs| == 1 && (i == 0 ==> r.pos == 0 && out == [])
      invariant rows.Span? && i == 1 ==> out == if rows.take == 0 then [None] else Picked(column.cells, rows)
      invariant rows.At? ==> r.pos == (if i == 0 then 0 else rows.positions[i - 1] + 1) && out == Picked(column.cells, rows)[..i]
    {
      if runs[i].take == 0 {
        out := out + [if out == [] then None else out[|out| - 1]];
      } else {
        if rows.At? {
          OneCell(column.cells, rows.positions, i, r.pos);
        }
        var more := TakeRun(r, runs[i].skip, runs[i].take);
        out := out + more;
      }
      i := i + 1;
    }
  }

  lemma OneCell<T>(cells: seq<Option<T>>, ps: seq<nat>, i: nat, pos: nat)
    requires i < |ps| && Ascending(ps) && ps[i] < |cells| && pos == (if i == 0 then 0 else ps[i - 1] + 1)
    ensures i > 0 ==> ps[i - 1] <= ps[i]
    ensures ps[i] >= pos ==> cells[pos + (ps[i] - pos)..pos + (ps[i] - pos) + 1] == [cells[ps[i]]]
  {
  }
}
