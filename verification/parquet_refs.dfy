/** Rows by their place in the file: indices in any order and as often as they like, grouped by row
    group, each column read in one forward pass. */
module ParquetRefs {
  import opened Wrappers
  import opened ByteStrings
  import opened ParquetColumns
  import opened ParquetLookup
  import opened ParquetRows

  /** A record wanted of a group, and whose answer it is. */
  datatype Want = Want(within: nat, slot: nat)

  /** How many rows come before group `n`. */
  function Start(groups: seq<Group>, n: nat): nat
    requires n <= |groups|
  {
    if n == 0 then 0 else Start(groups, n - 1) + |groups[n - 1].keys.cells|
  }

  /** Row `within` of group `rgi` is row `idx` of the file. */
  predicate IsRow(groups: seq<Group>, idx: nat, rgi: nat, within: nat) {
    rgi < |groups| && within < |groups[rgi].keys.cells| && idx == Start(groups, rgi) + within
  }

  lemma {:induction false} StartsRise(groups: seq<Group>, a: nat, b: nat)
    requires a <= b <= |groups|
    ensures Start(groups, a) <= Start(groups, b)
    ensures a < b ==> Start(groups, a) + |groups[a].keys.cells| <= Start(groups, b)
  {
    if a < b {
      StartsRise(groups, a, b - 1);
    }
  }

  /** A row of the file is one row of one group. */
  lemma RowIsOne(groups: seq<Group>, idx: nat, a: nat, v: nat, b: nat, w: nat)
    requires IsRow(groups, idx, a, v) && IsRow(groups, idx, b, w)
    ensures a == b && v == w
  {
    if a < b {
      StartsRise(groups, a, b);
    } else if b < a {
      StartsRise(groups, b, a);
    }
  }

  /** The group starts, and the file's row count. */
  method Starts(groups: seq<Group>) returns (starts: seq<nat>, acc: nat)
    ensures |starts| == |groups| && forall i :: 0 <= i < |groups| ==> starts[i] == Start(groups, i)
    ensures acc == Start(groups, |groups|)
  {
    starts, acc := [], 0;
    var i := 0;
    while i < |groups|
      invariant 0 <= i <= |groups| && |starts| == i && acc == Start(groups, i)
      invariant forall j :: 0 <= j < i ==> starts[j] == Start(groups, j)
    {
      starts := starts + [acc];
      acc := acc + |groups[i].keys.cells|;
      i := i + 1;
    }
  }

  /** `partition_point`: how many starts are at or before `idx`. */
  method PartitionPoint(groups: seq<Group>, starts: seq<nat>, idx: nat) returns (p: nat)
    requires |starts| == |groups| && forall i :: 0 <= i < |groups| ==> starts[i] == Start(groups, i)
    ensures p <= |starts| && (forall i :: 0 <= i < p ==> starts[i] <= idx) && (forall i :: p <= i < |starts| ==> starts[i] > idx)
  {
    var lo, hi := 0, |starts|;
    while lo < hi
      invariant 0 <= lo <= hi <= |starts|
      invariant (forall i :: 0 <= i < lo ==> starts[i] <= idx) && (forall i :: hi <= i < |starts| ==> starts[i] > idx)
    {
      var mid := (lo + hi) / 2;
      forall i | 0 <= i < |starts|
        ensures i <= mid ==> starts[i] <= starts[mid]
        ensures i >= mid ==> starts[mid] <= starts[i]
      {
        if i <= mid {
          StartsRise(groups, i, mid);
        } else {
          StartsRise(groups, mid, i);
        }
      }
      if starts[mid] <= idx {
        lo := mid + 1;
      } else {
        hi := mid;
      }
    }
    p := lo;
  }

  /** The last group starting at or before a row of the file is the one it is in, empty groups or not. */
  lemma LastStartHolds(groups: seq<Group>, idx: nat, p: nat)
    requires idx < Start(groups, |groups|) && p <= |groups|
    requires (forall i :: 0 <= i < p ==> Start(groups, i) <= idx) && (forall i :: p <= i < |groups| ==> Start(groups, i) > idx)
    ensures p > 0 && IsRow(groups, idx, p - 1, idx - Start(groups, p - 1))
  {
    assert Start(groups, 0) == 0;
    assert Start(groups, p) > idx;
  }

  lemma StartsAround(groups: seq<Group>, starts: seq<nat>, idx: nat, p: nat)
    requires |starts| == |groups| && (forall i :: 0 <= i < |groups| ==> starts[i] == Start(groups, i)) && p <= |starts|
    requires (forall i :: 0 <= i < p ==> starts[i] <= idx) && (forall i :: p <= i < |starts| ==> starts[i] > idx)
    ensures (forall i :: 0 <= i < p ==> Start(groups, i) <= idx) && (forall i :: p <= i < |groups| ==> Start(groups, i) > idx)
  {
    hide Start;
    forall i | 0 <= i < |groups|
      ensures if i < p then Start(groups, i) <= idx else Start(groups, i) > idx
    {
      assert starts[i] == Start(groups, i);
    }
  }

  method Locate(groups: seq<Group>, starts: seq<nat>, acc: nat, idx: nat) returns (rgi: nat, within: nat)
    requires |starts| == |groups| && acc == Start(groups, |groups|) && idx < acc
    requires forall i :: 0 <= i < |groups| ==> starts[i] == Start(groups, i)
    ensures IsRow(groups, idx, rgi, within)
  {
    hide IsRow, Start;
    var p := PartitionPoint(groups, starts, idx);
    StartsAround(groups, starts, idx, p);
    LastStartHolds(groups, idx, p);
    rgi, within := p - 1, idx - starts[p - 1];
  }

  // ------------------------------------------------------------- grouping

  /** Group `rgi`'s list has each of the first `n` slots whose row is in it, and only those. */
  ghost predicate Grouped(groups: seq<Group>, indices: seq<nat>, n: nat, per: map<nat, seq<Want>>)
    requires n <= |indices|
  {
    && (forall rgi :: rgi in per ==> WantsHold(groups, indices, n, rgi, per[rgi]))
    && (forall k :: 0 <= k < n ==> Answered(groups, indices, k, per))
  }

  predicate WantsHold(groups: seq<Group>, indices: seq<nat>, n: nat, rgi: nat, ws: seq<Want>)
    requires n <= |indices|
  {
    && (forall i :: 0 <= i < |ws| ==> ws[i].slot < n && IsRow(groups, indices[ws[i].slot], rgi, ws[i].within))
    && (forall i, j :: 0 <= i < j < |ws| ==> ws[i].slot != ws[j].slot)
  }

  ghost predicate Answered(groups: seq<Group>, indices: seq<nat>, k: nat, per: map<nat, seq<Want>>)
    requires k < |indices|
  {
    exists rgi, within :: rgi in per && IsRow(groups, indices[k], rgi, within) && Want(within, k) in per[rgi]
  }

  lemma WantsGrow(groups: seq<Group>, indices: seq<nat>, n: nat, r: nat, ws: seq<Want>, rgi: nat, within: nat)
    requires n < |indices| && WantsHold(groups, indices, n, r, ws) && IsRow(groups, indices[n], rgi, within)
    ensures WantsHold(groups, indices, n + 1, r, if r == rgi then ws + [Want(within, n)] else ws)
  {
    hide IsRow;
  }

  function AddWant(per: map<nat, seq<Want>>, rgi: nat, w: Want): map<nat, seq<Want>> {
    per[rgi := (if rgi in per then per[rgi] else []) + [w]]
  }

  lemma OneMoreWant(groups: seq<Group>, indices: seq<nat>, n: nat, per: map<nat, seq<Want>>, rgi: nat, within: nat)
    requires n < |indices| && Grouped(groups, indices, n, per) && IsRow(groups, indices[n], rgi, within)
    ensures Grouped(groups, indices, n + 1, AddWant(per, rgi, Want(within, n)))
  {
    hide IsRow;
    var after := AddWant(per, rgi, Want(within, n));
    forall r | r in after
      ensures WantsHold(groups, indices, n + 1, r, after[r])
    {
      if r in per {
        WantsGrow(groups, indices, n, r, per[r], rgi, within);
      }
    }
    forall k | 0 <= k < n + 1
      ensures Answered(groups, indices, k, after)
    {
      if k == n {
        assert Want(within, n) in after[rgi];
      } else {
        assert Answered(groups, indices, k, per);
        var r, w :| r in per && IsRow(groups, indices[k], r, w) && Want(w, k) in per[r];
        assert Want(w, k) in after[r];
      }
    }
  }

  // ------------------------------------------------------------- sorting

  predicate InOrder(ws: seq<Want>) {
    forall i, j :: 0 <= i < j < |ws| ==> ws[i].within <= ws[j].within
  }

  predicate OwnSlots(ws: seq<Want>) {
    forall i, j :: 0 <= i < j < |ws| ==> ws[i].slot != ws[j].slot
  }

  predicate Earlier(a: Want, b: Want) {
    a.within < b.within || (a.within == b.within && a.slot < b.slot)
  }

  function PutWant(w: Want, ws: seq<Want>): (r: seq<Want>)
    requires InOrder(ws) && OwnSlots(ws) && forall i :: 0 <= i < |ws| ==> ws[i].slot != w.slot
    ensures InOrder(r) && OwnSlots(r) && |r| == |ws| + 1 && forall x :: x in r <==> x == w || x in ws
  {
    if ws == [] then [w]
    else if Earlier(w, ws[0]) then [w] + ws
    else
      var rest := PutWant(w, ws[1..]);
      assert ws == [ws[0]] + ws[1..];
      PutKeeps(w, ws, rest);
      [ws[0]] + rest
  }

  lemma PutKeeps(w: Want, ws: seq<Want>, rest: seq<Want>)
    requires InOrder(ws) && OwnSlots(ws) && ws != [] && !Earlier(w, ws[0]) && forall i :: 0 <= i < |ws| ==> ws[i].slot != w.slot
    requires InOrder(rest) && OwnSlots(rest) && forall x :: x in rest <==> x == w || x in ws[1..]
    ensures InOrder([ws[0]] + rest) && OwnSlots([ws[0]] + rest)
  {
    forall i | 0 <= i < |rest|
      ensures ws[0].within <= rest[i].within && rest[i].slot != ws[0].slot
    {
      assert rest[i] in rest;
      if rest[i] != w {
        var j :| 0 <= j < |ws| - 1 && ws[1..][j] == rest[i];
        assert ws[j + 1] == rest[i];
      }
    }
  }

  /** `sort_unstable` on the pairs: by record, then by slot. */
  function Sorted(ws: seq<Want>): (r: seq<Want>)
    requires OwnSlots(ws)
    ensures InOrder(r) && OwnSlots(r) && |r| == |ws| && forall x :: x in r <==> x in ws
  {
    if ws == [] then []
    else
      assert ws == [ws[0]] + ws[1..];
      var rest := Sorted(ws[1..]);
      SlotsOf(ws, rest);
      PutWant(ws[0], rest)
  }

  lemma SlotsOf(ws: seq<Want>, rest: seq<Want>)
    requires ws != [] && OwnSlots(ws) && forall x :: x in rest <==> x in ws[1..]
    ensures forall i :: 0 <= i < |rest| ==> rest[i].slot != ws[0].slot
  {
    forall i | 0 <= i < |rest|
      ensures rest[i].slot != ws[0].slot
    {
      assert rest[i] in rest;
      var j :| 0 <= j < |ws| - 1 && ws[1..][j] == rest[i];
      assert ws[j + 1] == rest[i];
    }
  }

  // ------------------------------------------------------------- answering

  /** Slot `k` has its row. */
  predicate HasRow(groups: seq<Group>, cols: seq<string>, idx: nat, obj: RowObject, rgi: nat, within: nat)
    requires SoundFile(groups, cols) && IsRow(groups, idx, rgi, within)
  {
    obj == RowOf(groups[rgi], cols, within)
  }

  /** Every slot answered so far, those of the first `n` groups, has the row its index names. */
  ghost predicate AnsweredTo(groups: seq<Group>, cols: seq<string>, indices: seq<nat>, n: nat, objs: seq<RowObject>)
    requires SoundFile(groups, cols)
  {
    |objs| == |indices| &&
    forall k: nat, rgi: nat, within: nat :: k < |objs| && rgi < n && IsRow(groups, indices[k], rgi, within) ==>
      HasRow(groups, cols, indices[k], objs[k], rgi, within)
  }

  /** One group's answers handed out to the slots that asked. */
  method HandOut(objs: seq<RowObject>, wanted: seq<Want>, rows: seq<RowObject>) returns (r: seq<RowObject>)
    requires |rows| == |wanted| && OwnSlots(wanted) && forall i :: 0 <= i < |wanted| ==> wanted[i].slot < |objs|
    ensures |r| == |objs| && forall i :: 0 <= i < |wanted| ==> r[wanted[i].slot] == rows[i]
    ensures forall k :: 0 <= k < |objs| && (forall i :: 0 <= i < |wanted| ==> wanted[i].slot != k) ==> r[k] == objs[k]
  {
    r := objs;
    var i := 0;
    while i < |wanted|
      invariant 0 <= i <= |wanted| && |r| == |objs| && forall j :: 0 <= j < i ==> r[wanted[j].slot] == rows[j]
      invariant forall k :: 0 <= k < |objs| && (forall j :: 0 <= j < |wanted| ==> wanted[j].slot != k) ==> r[k] == objs[k]
    {
      r := r[wanted[i].slot := rows[i]];
      i := i + 1;
    }
  }

  method AnswerGroup(groups: seq<Group>, cols: seq<string>, ghost indices: seq<nat>, rgi: nat, ws: seq<Want>, objs: seq<RowObject>)
    returns (r: seq<RowObject>)
    requires SoundFile(groups, cols) && rgi < |groups| && ws != [] && |objs| == |indices|
    requires WantsHold(groups, indices, |indices|, rgi, ws)
    ensures |r| == |objs|
    ensures forall w :: w in ws ==> w.slot < |r| && w.within < |groups[rgi].keys.cells| && r[w.slot] == RowOf(groups[rgi], cols, w.within)
    ensures forall k :: 0 <= k < |objs| && (forall w :: w in ws ==> w.slot != k) ==> r[k] == objs[k]
  {
    hide SoundGroup, RowOf;
    var wanted := Sorted(ws);
    WantedFits(groups, indices, rgi, ws, wanted);
    var positions := seq(|wanted|, i requires 0 <= i < |wanted| => wanted[i].within);
    var rows := ReadRows(groups[rgi], cols, At(positions));
    assert cols[..|cols|] == cols;
    r := HandOut(objs, wanted, rows);
    forall w | w in ws
      ensures w.slot < |r| && w.within < |groups[rgi].keys.cells| && r[w.slot] == RowOf(groups[rgi], cols, w.within)
    {
      assert w in wanted;
      var i :| 0 <= i < |wanted| && wanted[i] == w;
    }
    forall k | 0 <= k < |objs| && (forall w :: w in ws ==> w.slot != k)
      ensures r[k] == objs[k]
    {
      forall i | 0 <= i < |wanted|
        ensures wanted[i].slot != k
      {
        assert wanted[i] in wanted;
      }
    }
  }

  lemma WantedFits(groups: seq<Group>, indices: seq<nat>, rgi: nat, ws: seq<Want>, wanted: seq<Want>)
    requires rgi < |groups| && WantsHold(groups, indices, |indices|, rgi, ws)
    requires InOrder(wanted) && forall x :: x in wanted <==> x in ws
    ensures forall i :: 0 <= i < |wanted| ==> wanted[i].slot < |indices| && wanted[i].within < |groups[rgi].keys.cells|
  {
    forall i | 0 <= i < |wanted|
      ensures wanted[i].slot < |indices| && wanted[i].within < |groups[rgi].keys.cells|
    {
      assert wanted[i] in wanted;
      var j :| 0 <= j < |ws| && ws[j] == wanted[i];
    }
  }

  /** Answering the next group answers its slots and leaves the others as they are. */
  lemma GroupAnswered(groups: seq<Group>, cols: seq<string>, indices: seq<nat>, n: nat, per: map<nat, seq<Want>>,
                      objs: seq<RowObject>, r: seq<RowObject>)
    requires SoundFile(groups, cols) && n < |groups| && Grouped(groups, indices, |indices|, per)
    requires AnsweredTo(groups, cols, indices, n, objs) && |r| == |objs|
    requires n in per ==>
               forall w :: w in per[n] ==> w.slot < |r| && w.within < |groups[n].keys.cells| && r[w.slot] == RowOf(groups[n], cols, w.within)
    requires forall k :: 0 <= k < |objs| && (n in per ==> forall w :: w in per[n] ==> w.slot != k) ==> r[k] == objs[k]
    ensures AnsweredTo(groups, cols, indices, n + 1, r)
  {
    hide SoundGroup, RowOf, IsRow;
    forall k: nat, rgi: nat, within: nat | k < |r| && rgi < n + 1 && IsRow(groups, indices[k], rgi, within)
      ensures HasRow(groups, cols, indices[k], r[k], rgi, within)
    {
      assert Answered(groups, indices, k, per);
      var g, w :| g in per && IsRow(groups, indices[k], g, w) && Want(w, k) in per[g];
      RowIsOne(groups, indices[k], rgi, within, g, w);
      if rgi == n {
        assert r[k] == RowOf(groups[n], cols, within);
      } else {
        OthersWant(groups, indices, per, k, rgi, within, n);
        assert HasRow(groups, cols, indices[k], objs[k], rgi, within);
      }
    }
  }

  lemma OthersWant(groups: seq<Group>, indices: seq<nat>, per: map<nat, seq<Want>>, k: nat, rgi: nat, within: nat, n: nat)
    requires Grouped(groups, indices, |indices|, per) && k < |indices| && IsRow(groups, indices[k], rgi, within) && rgi != n
    ensures n in per ==> forall w :: w in per[n] ==> w.slot != k
  {
    hide IsRow;
    if n in per {
      forall w | w in per[n]
        ensures w.slot != k
      {
        assert WantsHold(groups, indices, |indices|, n, per[n]);
        var i :| 0 <= i < |per[n]| && per[n][i] == w;
        if w.slot == k {
          RowIsOne(groups, indices[k], rgi, within, n, w.within);
        }
      }
    }
  }

  ghost predicate Placed(groups: seq<Group>, idx: nat) {
    exists rgi, within :: IsRow(groups, idx, rgi, within)
  }

  lemma PlacedInside(groups: seq<Group>, idx: nat, rgi: nat, within: nat)
    requires IsRow(groups, idx, rgi, within)
    ensures Placed(groups, idx)
  {
  }

  /** Each index found its group; nothing if one is past the end. */
  method GroupIndices(groups: seq<Group>, indices: seq<nat>) returns (r: Option<map<nat, seq<Want>>>)
    ensures r.None? <==> exists k :: 0 <= k < |indices| && indices[k] >= Start(groups, |groups|)
    ensures r.Some? ==> Grouped(groups, indices, |indices|, r.value) && forall k :: 0 <= k < |indices| ==> Placed(groups, indices[k])
  {
    hide Grouped, IsRow, Placed, Start, AddWant;
    var starts, acc := Starts(groups);
    var per: map<nat, seq<Want>> := map[];
    NoneGrouped(groups, indices);
    var slot := 0;
    while slot < |indices|
      invariant 0 <= slot <= |indices| && Grouped(groups, indices, slot, per)
      invariant forall k :: 0 <= k < slot ==> indices[k] < acc && Placed(groups, indices[k])
    {
      var idx := indices[slot];
      if idx >= acc {
        return None;
      }
      var rgi, within := Locate(groups, starts, acc, idx);
      PlacedInside(groups, idx, rgi, within);
      OneMoreWant(groups, indices, slot, per, rgi, within);
      per := AddWant(per, rgi, Want(within, slot));
      slot := slot + 1;
    }
    r := Some(per);
  }

  /** `rows_at`: the rows at the given places, in the order asked and as often; nothing if one of them is
      past the end of the file. */
  method RowsAt(groups: seq<Group>, cols: seq<string>, indices: seq<nat>) returns (r: Option<seq<RowObject>>)
    requires SoundFile(groups, cols)
    ensures r.None? <==> exists k :: 0 <= k < |indices| && indices[k] >= Start(groups, |groups|)
    ensures r.Some? ==> |r.value| == |indices| && AnsweredTo(groups, cols, indices, |groups|, r.value)
    ensures r.Some? ==> forall k :: 0 <= k < |indices| ==> Placed(groups, indices[k])
  {
    hide SoundFile, Grouped, AnsweredTo, IsRow, WantsHold, Placed, Start, RowOf;
    var grouped := GroupIndices(groups, indices);
    if grouped.None? {
      return None;
    }
    var per := grouped.value;
    var objs: seq<RowObject> := seq(|indices|, _ => map[]);
    NoneAnswered(groups, cols, indices, objs);
    var rgi := 0;
    while rgi < |groups|
      invariant 0 <= rgi <= |groups| && |objs| == |indices| && AnsweredTo(groups, cols, indices, rgi, objs)
    {
      ghost var was := objs;
      if rgi in per && per[rgi] != [] {
        GroupWants(groups, indices, per, rgi);
        objs := AnswerGroup(groups, cols, indices, rgi, per[rgi], objs);
      }
      GroupAnswered(groups, cols, indices, rgi, per, was, objs);
      rgi := rgi + 1;
    }
    r := Some(objs);
  }

  lemma NoneGrouped(groups: seq<Group>, indices: seq<nat>)
    ensures Grouped(groups, indices, 0, map[])
  {
  }

  lemma GroupWants(groups: seq<Group>, indices: seq<nat>, per: map<nat, seq<Want>>, rgi: nat)
    requires Grouped(groups, indices, |indices|, per) && rgi in per
    ensures WantsHold(groups, indices, |indices|, rgi, per[rgi])
  {
  }

  lemma NoneAnswered(groups: seq<Group>, cols: seq<string>, indices: seq<nat>, objs: seq<RowObject>)
    requires SoundFile(groups, cols) && |objs| == |indices|
    ensures AnsweredTo(groups, cols, indices, 0, objs)
  {
  }
}
