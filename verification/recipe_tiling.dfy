/**
 Interval bookkeeping of the recipe planner: which spans of a build are taken, how a logical
 range maps through extent runs, and how accepted segments and literal gaps tile a build.
 */
module RecipeTiling {
  import opened Wrappers
  import opened ByteStrings
  import opened OrderedMap
  import opened RecipePlan

  // ------------------------------------------------------------- the interval set

  /** Accepted spans of one build's logical space, start to end. */
  /** One look at the span at or before `at`, and one at the starts inside `[at, at + len)`. */
  predicate AdmitsAt(ends: map<nat, nat>, at: nat, len: nat) {
    var before := FloorKey(ends, at);
    !(before.Some? && ends[before.value] > at) && forall s :: s in ends ==> !(at <= s < at + len)
  }

  class Intervals {
    var ends: map<nat, nat>

    constructor ()
      ensures ends == map[]
    {
      ends := map[];
    }

    /** No span is empty and no two overlap. */
    ghost predicate Valid()
      reads this
    {
      && (forall s :: s in ends ==> s < ends[s])
      && (forall s, t :: s in ends && t in ends && s < t ==> ends[s] <= t)
    }

    /** `[at, at + len)` touches no accepted span. */
    ghost predicate Free(at: nat, len: nat)
      reads this
    {
      forall s :: s in ends ==> ends[s] <= at || (at < s && at + len <= s)
    }

    /** While the spans are disjoint, one look at the span before and one at the starts inside decide
        freedom from all of them. */
    function Admits(at: nat, len: nat): (r: bool)
      reads this
      ensures r <==> AdmitsAt(ends, at, len)
      ensures Valid() ==> (r <==> Free(at, len))
    {
      var before := FloorKey(ends, at);
      assert Valid() && before.Some? ==> forall s :: s in ends && s < before.value ==> ends[s] <= before.value <= at;
      !(before.Some? && ends[before.value] > at) && forall s :: s in ends ==> !(at <= s < at + len)
    }

    method Insert(at: nat, len: nat)
      modifies this
      ensures ends == old(ends)[at := at + len]
      ensures old(Valid() && Free(at, len)) && len > 0 ==> Valid()
    {
      ends := ends[at := at + len];
    }
  }

  // ------------------------------------------------------------- mapping ranges through runs

  /** Where the part of `[from, end)` that falls in run `r` lives in the root, if any does. */
  function Piece(r: Run, from: nat, end: nat): seq<(nat, nat)> {
    var lo := if from > r.log then from else r.log;
    var hi := if end < r.log + r.len then end else r.log + r.len;
    if lo < hi then [(r.off + (lo - r.log), hi - lo)] else []
  }

  /** The root ranges a logical range maps to, run by run. */
  function Mapped(runs: seq<Run>, from: nat, end: nat): seq<(nat, nat)> {
    if runs == [] then [] else Piece(runs[0], from, end) + Mapped(runs[1..], from, end)
  }

  /** The bytes of a list of (offset, length) ranges of `space`, back to back. */
  function Gather(space: Bytes, ranges: seq<(nat, nat)>): Bytes
    requires forall r :: r in ranges ==> r.0 + r.1 <= |space|
  {
    if ranges == [] then [] else Cut(space, ranges[0].0, ranges[0].1) + Gather(space, ranges[1..])
  }

  method MapRange(runs: seq<Run>, from: nat, len: nat) returns (out: seq<(nat, nat)>)
    ensures out == Mapped(runs, from, from + len)
  {
    hide Mapped;
    out := [];
    var end := from + len;
    MappedStarts(runs, from, end);
    for k := 0 to |runs|
      invariant MappedSoFar(runs, k, from, end, out)
    {
      var r := runs[k];
      var lo := if from > r.log then from else r.log;
      var hi := if end < r.log + r.len then end else r.log + r.len;
      MappedNext(runs, k, from, end, out);
      if lo < hi {
        out := out + [(r.off + (lo - r.log), hi - lo)];
      }
    }
    MappedEnds(runs, from, end, out);
  }

  /** What the first `k` runs give, and the rest of the mapping still to come. */
  ghost predicate MappedSoFar(runs: seq<Run>, k: nat, from: nat, end: nat, out: seq<(nat, nat)>) {
    k <= |runs| && out + Mapped(runs[k..], from, end) == Mapped(runs, from, end)
  }

  lemma MappedStarts(runs: seq<Run>, from: nat, end: nat)
    ensures MappedSoFar(runs, 0, from, end, [])
  {
    assert runs[0..] == runs;
    assert [] + Mapped(runs, from, end) == Mapped(runs, from, end);
  }

  lemma MappedNext(runs: seq<Run>, k: nat, from: nat, end: nat, out: seq<(nat, nat)>)
    requires k < |runs| && MappedSoFar(runs, k, from, end, out)
    ensures MappedSoFar(runs, k + 1, from, end, out + Piece(runs[k], from, end))
    ensures Piece(runs[k], from, end) == [] ==> MappedSoFar(runs, k + 1, from, end, out)
  {
    assert runs[k..][0] == runs[k] && runs[k..][1..] == runs[k + 1..];
    var p, rest := Piece(runs[k], from, end), Mapped(runs[k + 1..], from, end);
    assert out + (p + rest) == (out + p) + rest;
    assert out + [] == out;
  }

  lemma MappedEnds(runs: seq<Run>, from: nat, end: nat, out: seq<(nat, nat)>)
    requires MappedSoFar(runs, |runs|, from, end, out)
    ensures out == Mapped(runs, from, end)
  {
    assert runs[|runs|..] == [] && out + [] == out;
  }

  /** The bytes of `s` from `lo` to `hi`, none when the range is empty or inverted. */
  function Between(s: Bytes, lo: nat, hi: nat): Bytes
    requires hi <= |s|
  {
    if lo < hi then Cut(s, lo, hi - lo) else []
  }

  predicate InSpace(space: Bytes, ranges: seq<(nat, nat)>) {
    forall r :: r in ranges ==> r.0 + r.1 <= |space|
  }

  lemma GatherCons(space: Bytes, r: (nat, nat), rest: seq<(nat, nat)>)
    requires InSpace(space, [r]) && InSpace(space, rest)
    ensures InSpace(space, [r] + rest)
    ensures r.0 + r.1 <= |space| && Gather(space, [r] + rest) == Cut(space, r.0, r.1) + Gather(space, rest)
  {
    assert r in [r];
    assert ([r] + rest)[1..] == rest;
  }

  lemma PieceReads(space: Bytes, r: Run, bytes: Bytes, from: nat, end: nat, rest: seq<(nat, nat)>)
    requires RunHolds(space, r, bytes) && InSpace(space, rest) && end <= |bytes|
    ensures InSpace(space, Piece(r, from, end) + rest)
    ensures Gather(space, Piece(r, from, end) + rest) ==
            Between(bytes, Max(from, r.log), Min(end, r.log + r.len)) + Gather(space, rest)
  {
    hide Gather, RunHolds;
    var lo, hi := Max(from, r.log), Min(end, r.log + r.len);
    if lo < hi {
      PieceIsCut(space, r, bytes, lo, hi);
      GatherCons(space, (r.off + (lo - r.log), hi - lo), rest);
    } else {
      assert Piece(r, from, end) + rest == rest;
      assert [] + Gather(space, rest) == Gather(space, rest);
    }
  }

  lemma PieceIsCut(space: Bytes, r: Run, bytes: Bytes, lo: nat, hi: nat)
    requires RunHolds(space, r, bytes) && r.log <= lo < hi <= r.log + r.len
    ensures r.off + (hi - r.log) <= |space| && hi <= |bytes|
    ensures Cut(space, r.off + (lo - r.log), hi - lo) == Cut(bytes, lo, hi - lo)
  {
    CutsAgree(space, r.off, bytes, r.log, r.len, lo - r.log, hi - lo);
  }

  /** Reading a member's logical range through its runs gives that range of its bytes, whatever
      fragments the runs cut it into. */
  lemma {:induction false} MappedReadsBack(space: Bytes, runs: seq<Run>, start: nat, bytes: Bytes, from: nat, end: nat)
    requires RunsTile(runs, start, |bytes|)
    requires forall r :: r in runs ==> RunHolds(space, r, bytes)
    requires from <= end <= |bytes|
    ensures InSpace(space, Mapped(runs, from, end))
    ensures Gather(space, Mapped(runs, from, end)) == Between(bytes, Max(from, start), end)
  {
    if runs != [] {
      var r, next := runs[0], start + runs[0].len;
      RunsTileEnds(runs[1..], next, |bytes|);
      MappedReadsBack(space, runs[1..], next, bytes, from, end);
      assert RunHolds(space, r, bytes);
      PieceReads(space, r, bytes, from, end, Mapped(runs[1..], from, end));
      BetweenSplits(bytes, Max(from, start), next, end, from);
    }
  }

  lemma BetweenSplits(s: Bytes, lo: nat, mid: nat, hi: nat, from: nat)
    requires hi <= |s| && mid <= |s| && (from <= lo < mid || (from == lo && mid <= lo))
    requires lo < mid ==> lo == Max(from, lo)
    ensures Between(s, lo, Min(hi, mid)) + Between(s, Max(from, mid), hi) == Between(s, lo, hi)
  {
    hide Cut;
  }

  lemma {:induction false} RunsTileEnds(runs: seq<Run>, from: nat, size: nat)
    requires RunsTile(runs, from, size)
    ensures from <= size
    ensures forall r :: r in runs ==> from <= r.log && r.log + r.len <= size && r.len > 0
  {
    if runs != [] {
      RunsTileEnds(runs[1..], from + runs[0].len, size);
      assert forall r :: r in runs ==> r == runs[0] || r in runs[1..];
    }
  }

  // ------------------------------------------------------------- sorting and tiling

  predicate Apart(s: Seg, t: Seg) {
    s.End() <= t.at || t.End() <= s.at
  }

  predicate AllApart(segs: seq<Seg>) {
    segs == [] || ((forall t :: t in segs[1..] ==> Apart(segs[0], t)) && AllApart(segs[1..]))
  }

  function InsertByAt(x: Seg, segs: seq<Seg>): (r: seq<Seg>)
    ensures multiset(r) == multiset{x} + multiset(segs)
    ensures |r| == |segs| + 1
  {
    if segs == [] || x.at <= segs[0].at then
      assert [x] + segs == [x] + segs;
      [x] + segs
    else
      assert segs == [segs[0]] + segs[1..];
      [segs[0]] + InsertByAt(x, segs[1..])
  }

  /** `sort_by_key(|s| s.at())`, stable. */
  function SortByAt(segs: seq<Seg>): (r: seq<Seg>)
    ensures multiset(r) == multiset(segs)
    ensures |r| == |segs|
  {
    if segs == [] then []
    else
      assert segs == [segs[0]] + segs[1..];
      InsertByAt(segs[0], SortByAt(segs[1..]))
  }

  predicate SortedByAt(segs: seq<Seg>) {
    forall j, k :: 0 <= j < k < |segs| ==> segs[j].at <= segs[k].at
  }

  /** Every segment starts at or after the end of the one before. */
  predicate Ascending(segs: seq<Seg>, pos: nat) {
    segs == [] || (segs[0].at >= pos && Ascending(segs[1..], segs[0].End()))
  }

  lemma SameElements(a: seq<Seg>, b: seq<Seg>)
    requires multiset(a) == multiset(b)
    ensures forall x :: x in a <==> x in b
  {
    forall x
      ensures x in a <==> x in b
    {
      assert x in a <==> x in multiset(a);
      assert x in b <==> x in multiset(b);
    }
  }

  lemma InsertedElements(x: Seg, segs: seq<Seg>)
    ensures forall y :: y in InsertByAt(x, segs) <==> y == x || y in segs
  {
    forall y
      ensures y in InsertByAt(x, segs) <==> y == x || y in segs
    {
      assert y in InsertByAt(x, segs) <==> y in multiset(InsertByAt(x, segs));
      assert y in segs <==> y in multiset(segs);
    }
  }

  lemma {:induction false} InsertKeepsOrder(x: Seg, segs: seq<Seg>)
    requires SortedByAt(segs)
    ensures SortedByAt(InsertByAt(x, segs))
  {
    if segs != [] && x.at > segs[0].at {
      InsertKeepsOrder(x, segs[1..]);
      InsertedElements(x, segs[1..]);
      var rest := InsertByAt(x, segs[1..]);
      forall j, k | 0 <= j < k < |rest| + 1
        ensures ([segs[0]] + rest)[j].at <= ([segs[0]] + rest)[k].at
      {
        assert rest[k - 1] in rest;
      }
    }
  }

  lemma {:induction false} SortSorts(segs: seq<Seg>)
    ensures SortedByAt(SortByAt(segs))
  {
    if segs != [] {
      SortSorts(segs[1..]);
      InsertKeepsOrder(segs[0], SortByAt(segs[1..]));
    }
  }

  lemma {:induction false} InsertKeepsApart(x: Seg, segs: seq<Seg>)
    ensures AllApart(InsertByAt(x, segs)) <==> AllApart(segs) && forall t :: t in segs ==> Apart(x, t)
  {
    if segs == [] || x.at <= segs[0].at {
      assert ([x] + segs)[1..] == segs;
    } else {
      InsertKeepsApart(x, segs[1..]);
      InsertedElements(x, segs[1..]);
      var head, rest := segs[0], InsertByAt(x, segs[1..]);
      assert ([head] + rest)[1..] == rest;
      assert Apart(head, x) <==> Apart(x, head);
      assert (forall t :: t in rest ==> Apart(head, t)) <==>
             Apart(x, head) && forall t :: t in segs[1..] ==> Apart(head, t);
      assert (forall t :: t in segs ==> Apart(x, t)) <==>
             Apart(x, head) && forall t :: t in segs[1..] ==> Apart(x, t) by {
        assert forall t :: t in segs <==> t == head || t in segs[1..];
      }
    }
  }

  lemma {:induction false} SortKeepsApart(segs: seq<Seg>)
    ensures AllApart(SortByAt(segs)) <==> AllApart(segs)
  {
    if segs != [] {
      SortKeepsApart(segs[1..]);
      InsertKeepsApart(segs[0], SortByAt(segs[1..]));
      SameElements(SortByAt(segs[1..]), segs[1..]);
    }
  }

  /** For non-empty segments in start order, ascending and pairwise apart are the same. */
  lemma {:induction false} AscendingIffApart(segs: seq<Seg>, pos: nat)
    requires SortedByAt(segs) && forall s :: s in segs ==> s.len > 0
    requires segs != [] ==> segs[0].at >= pos
    ensures Ascending(segs, pos) <==> AllApart(segs)
  {
    if segs != [] {
      var rest := segs[1..];
      forall t | t in rest
        ensures segs[0].at <= t.at
      {
        var k :| 0 <= k < |rest| && rest[k] == t;
        assert segs[k + 1] == t;
      }
      if rest != [] {
        assert rest[0] in rest;
        if rest[0].at >= segs[0].End() {
          AscendingIffApart(rest, segs[0].End());
          forall t | t in rest
            ensures Apart(segs[0], t)
          {
            var k :| 0 <= k < |rest| && rest[k] == t;
            assert rest[0].at <= rest[k].at;
          }
        } else {
          assert !Ascending(rest, segs[0].End());
          assert !Apart(segs[0], rest[0]);
        }
      }
    }
  }

  /** The accepted segments of a splice: everything that is not a literal gap. */
  function NonGaps(segs: seq<Seg>): seq<Seg> {
    if segs == [] then [] else OneNonGap(segs[0]) + NonGaps(segs[1..])
  }

  function OneNonGap(s: Seg): seq<Seg> {
    if s.Gap? then [] else [s]
  }

  lemma {:induction false} NonGapsOfConcat(a: seq<Seg>, b: seq<Seg>)
    ensures NonGaps(a + b) == NonGaps(a) + NonGaps(b)
  {
    hide OneNonGap;
    if a == [] {
      assert a + b == b;
    } else {
      NonGapsOfConcat(a[1..], b);
      assert (a + b)[1..] == a[1..] + b;
      calc {
        NonGaps(a + b);
        OneNonGap(a[0]) + NonGaps(a[1..] + b);
        OneNonGap(a[0]) + (NonGaps(a[1..]) + NonGaps(b));
        (OneNonGap(a[0]) + NonGaps(a[1..])) + NonGaps(b);
      }
    }
  }

  lemma {:induction false} NonGapsElements(segs: seq<Seg>)
    ensures forall s :: s in NonGaps(segs) <==> s in segs && !s.Gap?
  {
    if segs != [] {
      NonGapsElements(segs[1..]);
      assert forall s :: s in segs <==> s == segs[0] || s in segs[1..];
    }
  }

  lemma {:induction false} TilesConcat(a: seq<Seg>, b: seq<Seg>, pos: nat, mid: nat, size: nat)
    requires Tiles(a, pos, mid) && Tiles(b, mid, size)
    ensures Tiles(a + b, pos, size)
  {
    if a == [] {
      assert a + b == b;
    } else {
      TilesConcat(a[1..], b, a[0].End(), mid, size);
      assert (a + b)[1..] == a[1..] + b;
    }
  }

  lemma {:induction false} TilesElements(segs: seq<Seg>, pos: nat, size: nat)
    requires Tiles(segs, pos, size)
    ensures pos <= size && Ascending(segs, pos)
    ensures forall s :: s in segs ==> pos <= s.at && s.End() <= size
  {
    if segs != [] {
      TilesElements(segs[1..], segs[0].End(), size);
      assert forall s :: s in segs ==> s == segs[0] || s in segs[1..];
    }
  }

  function Fill(at: nat, len: nat): Seg {
    Gap(at, len, None, None)
  }

  /** A gap nothing has been captured for yet. */
  predicate FreshGap(s: Seg) {
    s.Gap? && s.residueOff.None? && s.inline.None?
  }

  function AfterLast(segs: seq<Seg>, pos: nat): nat {
    if segs == [] then pos else AfterLast(segs[1..], segs[0].End())
  }

  /** The segments from `pos` on with a fresh gap wherever they leave room, up to `size`. */
  function TiledFrom(segs: seq<Seg>, pos: nat, size: nat): seq<Seg> {
    if segs == [] then (if pos < size then [Fill(pos, size - pos)] else [])
    else (if segs[0].at > pos then [Fill(pos, segs[0].at - pos)] else []) + [segs[0]] + TiledFrom(segs[1..], segs[0].End(), size)
  }

  /** Literal gaps for whatever the segments leave of the build. The program asserts that the
      segments arrive in ascending, non-overlapping order; None is that assertion failing. */
  method TileGaps(segs: seq<Seg>, size: nat) returns (r: Option<seq<Seg>>)
    ensures r.Some? <==> Ascending(segs, 0)
    ensures r.Some? ==> Tiles(r.value, 0, if AfterLast(segs, 0) < size then size else AfterLast(segs, 0))
    ensures r.Some? && (forall s :: s in segs ==> !s.Gap?) ==> NonGaps(r.value) == segs
    ensures r.Some? ==> forall s :: s in r.value ==> s in segs || FreshGap(s)
    ensures r.Some? ==> r.value == TiledFrom(segs, 0, size)
  {
    hide TilingSoFar, TiledFrom, Tiles, Ascending, AfterLast, NonGaps;
    var tiled: seq<Seg> := [];
    var pos: nat := 0;
    TilingStarts(segs);
    assert segs[0..] == segs;
    for k := 0 to |segs|
      invariant TilingSoFar(segs, k, tiled, pos)
      invariant tiled + TiledFrom(segs[k..], pos, size) == TiledFrom(segs, 0, size)
    {
      var seg := segs[k];
      Descending(segs, k, tiled, pos);
      if seg.at < pos {
        return None;
      }
      TilingStep(segs, k, tiled, pos);
      TiledStep(segs, k, tiled, pos, size);
      if seg.at > pos {
        tiled := tiled + [Fill(pos, seg.at - pos)];
      }
      pos := seg.End();
      tiled := tiled + [seg];
    }
    TilingEnds(segs, tiled, pos);
    TiledEnd(segs, tiled, pos, size);
    if pos < size {
      TilingFill(segs, |segs|, tiled, pos, size);
      tiled := tiled + [Fill(pos, size - pos)];
    }
    assert segs[..|segs|] == segs;
    return Some(tiled);
  }

  lemma TilingStarts(segs: seq<Seg>)
    ensures TilingSoFar(segs, 0, [], 0)
  {
  }

  lemma TiledStep(segs: seq<Seg>, k: nat, tiled: seq<Seg>, pos: nat, size: nat)
    requires k < |segs|
    ensures var filled := if segs[k].at > pos then tiled + [Fill(pos, segs[k].at - pos)] else tiled;
            filled + [segs[k]] + TiledFrom(segs[k + 1..], segs[k].End(), size) == tiled + TiledFrom(segs[k..], pos, size)
  {
    assert segs[k..][1..] == segs[k + 1..];
  }

  lemma TiledEnd(segs: seq<Seg>, tiled: seq<Seg>, pos: nat, size: nat)
    ensures tiled + TiledFrom(segs[|segs|..], pos, size) == if pos < size then tiled + [Fill(pos, size - pos)] else tiled
  {
  }

  lemma Descending(segs: seq<Seg>, k: nat, tiled: seq<Seg>, pos: nat)
    requires k < |segs| && TilingSoFar(segs, k, tiled, pos)
    ensures segs[k].at < pos ==> !Ascending(segs, 0)
  {
  }

  lemma TilingEnds(segs: seq<Seg>, tiled: seq<Seg>, pos: nat)
    requires TilingSoFar(segs, |segs|, tiled, pos)
    ensures Ascending(segs, 0) && Tiles(tiled, 0, pos) && AfterLast(segs, 0) == pos
    ensures (forall s :: s in segs ==> !s.Gap?) ==> NonGaps(tiled) == segs[..|segs|]
    ensures forall s :: s in tiled ==> s in segs || FreshGap(s)
  {
  }

  /** The first `k` segments are tiled up to `pos`, with fresh gaps between them. */
  ghost predicate TilingSoFar(segs: seq<Seg>, k: nat, tiled: seq<Seg>, pos: nat)
    requires k <= |segs|
  {
    && Tiles(tiled, 0, pos)
    && (Ascending(segs, 0) <==> Ascending(segs[k..], pos))
    && AfterLast(segs, 0) == AfterLast(segs[k..], pos)
    && ((forall s :: s in segs ==> !s.Gap?) ==> NonGaps(tiled) == segs[..k])
    && forall s :: s in tiled ==> s in segs || FreshGap(s)
  }

  lemma TilingFill(segs: seq<Seg>, k: nat, tiled: seq<Seg>, pos: nat, to: nat)
    requires k <= |segs| && pos < to
    requires TilingSoFar(segs, k, tiled, pos)
    ensures Tiles(tiled + [Fill(pos, to - pos)], 0, to)
    ensures (forall s :: s in segs ==> !s.Gap?) ==> NonGaps(tiled + [Fill(pos, to - pos)]) == segs[..k]
    ensures forall s :: s in tiled + [Fill(pos, to - pos)] ==> s in segs || FreshGap(s)
  {
    Extend(tiled, Fill(pos, to - pos), pos);
    assert NonGaps(tiled) + [] == NonGaps(tiled);
  }

  lemma TilingStep(segs: seq<Seg>, k: nat, tiled: seq<Seg>, pos: nat)
    requires k < |segs| && segs[k].at >= pos
    requires TilingSoFar(segs, k, tiled, pos)
    ensures var filled := if segs[k].at > pos then tiled + [Fill(pos, segs[k].at - pos)] else tiled;
            TilingSoFar(segs, k + 1, filled + [segs[k]], segs[k].End())
  {
    var filled := if segs[k].at > pos then tiled + [Fill(pos, segs[k].at - pos)] else tiled;
    if segs[k].at > pos {
      TilingFill(segs, k, tiled, pos, segs[k].at);
    }
    Extend(filled, segs[k], segs[k].at);
    assert segs[k..][0] == segs[k] && segs[k..][1..] == segs[k + 1..];
    assert segs[..k + 1] == segs[..k] + [segs[k]];
  }

  /** One more segment at the end of a tiling. */
  lemma Extend(tiled: seq<Seg>, s: Seg, pos: nat)
    requires Tiles(tiled, 0, pos) && s.at == pos
    ensures Tiles(tiled + [s], 0, s.End())
    ensures NonGaps(tiled + [s]) == NonGaps(tiled) + OneNonGap(s)
  {
    TilesConcat(tiled, [s], 0, pos, s.End());
    NonGapsOfConcat(tiled, [s]);
    assert NonGaps([s]) == OneNonGap(s) + NonGaps([]);
  }

  /** Sorting by start and tiling never trips the assertion exactly when the accepted
      (non-empty) segments are pairwise disjoint. */
  lemma SortedTilingSucceedsIffApart(segs: seq<Seg>)
    requires forall s :: s in segs ==> s.len > 0
    ensures Ascending(SortByAt(segs), 0) <==> AllApart(segs)
  {
    SortSorts(segs);
    SortKeepsApart(segs);
    SameElements(SortByAt(segs), segs);
    AscendingIffApart(SortByAt(segs), 0);
  }

  lemma {:induction false} AfterLastBounded(segs: seq<Seg>, pos: nat, size: nat)
    requires pos <= size && forall s :: s in segs ==> s.End() <= size
    ensures AfterLast(segs, pos) <= size
  {
    if segs != [] {
      assert segs[0] in segs;
      AfterLastBounded(segs[1..], segs[0].End(), size);
    }
  }

  /** Pieces inside `[0, size)`, sorted and tiled: the assertion fires exactly when two of them overlap,
      and otherwise nothing but fresh gaps is added. */
  method SortAndTile(segs: seq<Seg>, size: nat) returns (tiled: Option<seq<Seg>>)
    requires forall s :: s in segs ==> Placeable(s, size)
    ensures tiled.Some? <==> AllApart(segs)
    ensures tiled.Some? ==> Tiles(tiled.value, 0, size) && NonGaps(tiled.value) == SortByAt(segs)
    ensures tiled.Some? ==> forall s :: s in tiled.value ==> s in segs || FreshGap(s)
    ensures tiled.Some? ==> tiled.value == TiledFrom(SortByAt(segs), 0, size)
  {
    SortedTilingSucceedsIffApart(segs);
    SameElements(SortByAt(segs), segs);
    AfterLastBounded(SortByAt(segs), 0, size);
    tiled := TileGaps(SortByAt(segs), size);
  }

  predicate Placeable(s: Seg, size: nat) {
    !s.Gap? && s.len > 0 && s.End() <= size
  }

  /** What is left of a tiling once its gaps are taken out is still disjoint. */
  lemma {:induction false} TiledNonGapsAreApart(segs: seq<Seg>, pos: nat, size: nat)
    requires Tiles(segs, pos, size)
    ensures AllApart(NonGaps(segs)) && forall s :: s in NonGaps(segs) ==> pos <= s.at
  {
    if segs != [] {
      TiledNonGapsAreApart(segs[1..], segs[0].End(), size);
      var rest := NonGaps(segs[1..]);
      if segs[0].Gap? {
        assert [] + rest == rest;
      } else {
        assert ([segs[0]] + rest)[1..] == rest;
      }
    }
  }

  /** Where a member's own bytes live, run by run. */
  function Ranges(runs: seq<Run>): seq<(nat, nat)> {
    if runs == [] then [] else [(runs[0].off, runs[0].len)] + Ranges(runs[1..])
  }

  /** The view sliced along a member's runs reads its bytes. */
  lemma {:induction false} RangesReadBack(space: Bytes, runs: seq<Run>, start: nat, bytes: Bytes)
    requires start <= |bytes| && RunsTile(runs, start, |bytes|)
    requires forall r :: r in runs ==> RunHolds(space, r, bytes)
    ensures InSpace(space, Ranges(runs))
    ensures Gather(space, Ranges(runs)) == bytes[start..]
  {
    if runs != [] {
      RunsTileEnds(runs[1..], start + runs[0].len, |bytes|);
      RangesReadBack(space, runs[1..], start + runs[0].len, bytes);
      assert RunHolds(space, runs[0], bytes);
      GatherCons(space, (runs[0].off, runs[0].len), Ranges(runs[1..]));
      assert bytes[start..] == Cut(bytes, start, runs[0].len) + bytes[start + runs[0].len..];
    }
  }
}
