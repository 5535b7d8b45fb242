/**
 Where a child's bytes land in its parent's splice: translating runs between coordinate spaces,
 and keeping the accepted pieces disjoint.
 */
module RecipePlacing {
  import opened Wrappers
  import opened ByteStrings
  import opened OrderedMap
  import opened RecipePlan
  import opened RecipeTiling

  // ------------------------------------------------------------- finding the host run

  /** The first of `runs` whose root range holds `[off, off + len)`. */
  function HostOf(runs: seq<Run>, off: nat, len: nat): (r: Option<nat>)
    ensures r.Some? ==> r.value < |runs| && Hosts(runs[r.value], off, len) && forall k :: 0 <= k < r.value ==> !Hosts(runs[k], off, len)
    ensures r.None? ==> forall k :: 0 <= k < |runs| ==> !Hosts(runs[k], off, len)
  {
    if runs == [] then None
    else if Hosts(runs[0], off, len) then Some(0)
    else
      match HostOf(runs[1..], off, len)
      case Some(k) => Some(k + 1)
      case None => None
  }

  predicate Hosts(r: Run, off: nat, len: nat) {
    r.off <= off && off + len <= r.off + r.len
  }

  /** The first of `runs` whose logical range holds `[at, at + len)`. */
  function LogicalHostOf(runs: seq<Run>, at: nat, len: nat): (r: Option<nat>)
    ensures r.Some? ==> r.value < |runs| && HostsLogically(runs[r.value], at, len)
                        && forall k :: 0 <= k < r.value ==> !HostsLogically(runs[k], at, len)
    ensures r.None? ==> forall k :: 0 <= k < |runs| ==> !HostsLogically(runs[k], at, len)
  {
    if runs == [] then None
    else if HostsLogically(runs[0], at, len) then Some(0)
    else
      match LogicalHostOf(runs[1..], at, len)
      case Some(k) => Some(k + 1)
      case None => None
  }

  predicate HostsLogically(r: Run, at: nat, len: nat) {
    r.log <= at && at + len <= r.log + r.len
  }

  // ------------------------------------------------------------- a child's pieces

  /** One run of child `c`, as a piece of the build whose runs are `runs`. */
  function PieceOf(runs: seq<Run>, c: nat, r: Run): Option<Seg> {
    match HostOf(runs, r.off, r.len)
    case Some(k) => Some(Child(c, r.log, r.len, runs[k].log + (r.off - runs[k].off), r.off))
    case None => None
  }

  /** A child's runs in the build's logical space; None where a run lies in no run of ours. */
  function PiecesOf(runs: seq<Run>, cruns: seq<Run>, c: nat): Option<seq<Seg>> {
    if forall k :: 0 <= k < |cruns| ==> PieceOf(runs, c, cruns[k]).Some?
    then Some(seq(|cruns|, k requires 0 <= k < |cruns| => PieceOf(runs, c, cruns[k]).value)) else None
  }

  method MapKid(runs: seq<Run>, cruns: seq<Run>, c: nat) returns (pieces: Option<seq<Seg>>)
    ensures pieces == PiecesOf(runs, cruns, c)
  {
    var out: seq<Seg> := [];
    for k := 0 to |cruns|
      invariant |out| == k
      invariant forall j :: 0 <= j < k ==> PieceOf(runs, c, cruns[j]) == Some(out[j])
    {
      var piece := PieceOf(runs, c, cruns[k]);
      if piece.None? {
        return None;
      }
      out := out + [piece.value];
    }
    assert out == PiecesOf(runs, cruns, c).value;
    return Some(out);
  }

  /** Coordinate translation is faithful: the piece's root range holds both the child's bytes
      and the parent's bytes at the place the piece takes. */
  lemma PieceIsFaithful(space: Bytes, runs: seq<Run>, parent: Bytes, r: Run, child: Bytes, c: nat)
    requires RunsHold(space, runs, parent) && RunHolds(space, r, child)
    requires PieceOf(runs, c, r).Some?
    ensures var s := PieceOf(runs, c, r).value;
            s.End() <= |parent| && Same(space, s.rootOff, parent, s.at, s.len) && Same(child, s.from, parent, s.at, s.len)
  {
    var host := runs[HostOf(runs, r.off, r.len).value];
    assert RunHolds(space, host, parent);
    CutsAgree(space, host.off, parent, host.log, host.len, r.off - host.off, r.len);
  }

  /** A member's own runs name disjoint root ranges. */
  predicate RunsApart(runs: seq<Run>) {
    forall j, k :: 0 <= j < k < |runs| ==>
      runs[j].off + runs[j].len <= runs[k].off || runs[k].off + runs[k].len <= runs[j].off
  }

  lemma {:induction false} TiledRunsAreLogicallyApart(runs: seq<Run>, from: nat, size: nat, j: nat, k: nat)
    requires RunsTile(runs, from, size) && j < k < |runs|
    ensures runs[j].log + runs[j].len <= runs[k].log
  {
    RunsTileEnds(runs[1..], from + runs[0].len, size);
    if j > 0 {
      TiledRunsAreLogicallyApart(runs[1..], from + runs[0].len, size, j - 1, k - 1);
    } else {
      assert runs[k] in runs[1..] by { assert runs[1..][k - 1] == runs[k]; }
    }
  }

  lemma {:induction false} ApartByIndex(segs: seq<Seg>)
    requires forall j, k :: 0 <= j < k < |segs| ==> Apart(segs[j], segs[k])
    ensures AllApart(segs)
  {
    if segs != [] {
      var rest := segs[1..];
      forall j, k | 0 <= j < k < |rest|
        ensures Apart(rest[j], rest[k])
      {
        assert Apart(segs[j + 1], segs[k + 1]);
      }
      ApartByIndex(rest);
      forall t | t in rest
        ensures Apart(segs[0], t)
      {
        var k :| 0 <= k < |rest| && rest[k] == t;
        assert Apart(segs[0], segs[k + 1]);
      }
    }
  }

  /** A child whose own runs are disjoint maps to disjoint pieces, even in a fragmented parent. */
  lemma PiecesAreApart(runs: seq<Run>, size: nat, cruns: seq<Run>, c: nat)
    requires RunsTile(runs, 0, size) && RunsApart(cruns) && PiecesOf(runs, cruns, c).Some?
    ensures AllApart(PiecesOf(runs, cruns, c).value)
  {
    var pieces := PiecesOf(runs, cruns, c).value;
    forall j, k | 0 <= j < k < |pieces|
      ensures Apart(pieces[j], pieces[k])
    {
      var a, b := HostOf(runs, cruns[j].off, cruns[j].len).value, HostOf(runs, cruns[k].off, cruns[k].len).value;
      if a < b {
        TiledRunsAreLogicallyApart(runs, 0, size, a, b);
      } else if b < a {
        TiledRunsAreLogicallyApart(runs, 0, size, b, a);
      }
    }
    ApartByIndex(pieces);
  }

  lemma OneHost(runs: seq<Run>, a: nat, b: nat, x: nat)
    requires RunsApart(runs) && a < |runs| && b < |runs|
    requires runs[a].off <= x < runs[a].off + runs[a].len && runs[b].off <= x < runs[b].off + runs[b].len
    ensures a == b
  {
  }

  /** In a parent whose own runs are disjoint the pieces overlap exactly when the child's runs do. */
  lemma PiecesApartIffRunsApart(runs: seq<Run>, size: nat, cruns: seq<Run>, c: nat)
    requires RunsTile(runs, 0, size) && RunsApart(runs) && PiecesOf(runs, cruns, c).Some?
    requires forall k :: 0 <= k < |cruns| ==> cruns[k].len > 0
    ensures AllApart(PiecesOf(runs, cruns, c).value) <==> RunsApart(cruns)
  {
    if RunsApart(cruns) {
      PiecesAreApart(runs, size, cruns, c);
    } else {
      var pieces := PiecesOf(runs, cruns, c).value;
      var j, k :| 0 <= j < k < |cruns| && cruns[j].off < cruns[k].off + cruns[k].len && cruns[k].off < cruns[j].off + cruns[j].len;
      var a, b := HostOf(runs, cruns[j].off, cruns[j].len).value, HostOf(runs, cruns[k].off, cruns[k].len).value;
      OneHost(runs, a, b, if cruns[j].off < cruns[k].off then cruns[k].off else cruns[j].off);
      assert !Apart(pieces[k], pieces[j]);
      if AllApart(pieces) {
        ApartAt(pieces, j, k);
      }
    }
  }

  // ------------------------------------------------------------- accepting pieces

  /** The interval set knows exactly the accepted segments, which are non-empty and disjoint. */
  predicate Bookkept(ends: map<nat, nat>, segs: seq<Seg>) {
    && AllApart(segs)
    && (forall s :: s in segs ==> s.len > 0 && s.at in ends && ends[s.at] == s.End())
    && (forall a :: a in ends ==> exists s :: s in segs && s.at == a)
  }

  lemma {:induction false} ApartFrom(segs: seq<Seg>, s: Seg, t: Seg)
    requires AllApart(segs) && s in segs && t in segs
    ensures s == t || Apart(s, t)
  {
    assert forall x :: x in segs ==> x == segs[0] || x in segs[1..];
    if s == segs[0] {
      assert s == t || Apart(segs[0], t);
    } else if t == segs[0] {
      assert Apart(segs[0], s);
    } else {
      ApartFrom(segs[1..], s, t);
    }
  }

  lemma BookkeptIsValid(taken: Intervals, segs: seq<Seg>)
    requires Bookkept(taken.ends, segs)
    ensures taken.Valid()
  {
    assert AllApart(segs);
    forall a, b | a in taken.ends && b in taken.ends && a < b
      ensures taken.ends[a] <= b
    {
      var s :| s in segs && s.at == a;
      var t :| t in segs && t.at == b;
      ApartFrom(segs, s, t);
    }
  }

  lemma FreeIffApart(taken: Intervals, segs: seq<Seg>, p: Seg)
    requires Bookkept(taken.ends, segs) && p.len > 0
    ensures taken.Free(p.at, p.len) <==> forall s :: s in segs ==> Apart(p, s)
  {
    forall s | s in segs
      ensures Apart(p, s) <==> taken.ends[s.at] <= p.at || (p.at < s.at && p.End() <= s.at)
    {
    }
    if forall s :: s in segs ==> Apart(p, s) {
      forall a | a in taken.ends
        ensures taken.ends[a] <= p.at || (p.at < a && p.End() <= a)
      {
        var s :| s in segs && s.at == a;
      }
    }
  }

  lemma {:induction false} AppendApart(segs: seq<Seg>, p: Seg)
    requires AllApart(segs) && forall s :: s in segs ==> Apart(p, s)
    ensures AllApart(segs + [p])
  {
    if segs != [] {
      AppendApart(segs[1..], p);
      assert (segs + [p])[1..] == segs[1..] + [p];
      assert Apart(p, segs[0]);
    }
  }

  lemma InsertKeepsBooks(ends: map<nat, nat>, segs: seq<Seg>, p: Seg)
    requires Bookkept(ends, segs) && p.len > 0 && forall s :: s in segs ==> Apart(p, s)
    ensures Bookkept(ends[p.at := p.End()], segs + [p])
  {
    AppendApart(segs, p);
    var grown := ends[p.at := p.End()];
    forall a | a in grown
      ensures exists s :: s in segs + [p] && s.at == a
    {
      if a == p.at {
        assert p in segs + [p];
      } else {
        var s :| s in segs && s.at == a;
        assert s in segs + [p];
      }
    }
  }

  predicate NoOverlap(pieces: seq<Seg>, segs: seq<Seg>) {
    forall p, s :: p in pieces && s in segs ==> Apart(p, s)
  }

  /** While the accepted segments are disjoint, the interval set knows exactly them. */
  predicate Books(ends: map<nat, nat>, segs: seq<Seg>) {
    (forall s :: s in segs ==> s.len > 0) && (AllApart(segs) ==> Bookkept(ends, segs))
  }

  lemma {:induction false} ConcatApart(a: seq<Seg>, b: seq<Seg>)
    ensures AllApart(a + b) <==> AllApart(a) && AllApart(b) && NoOverlap(b, a)
  {
    if a == [] {
      assert a + b == b;
    } else {
      ConcatApart(a[1..], b);
      assert (a + b)[1..] == a[1..] + b;
      assert forall s :: s in a <==> s == a[0] || s in a[1..];
      assert forall s :: s in a[1..] + b <==> s in a[1..] || s in b;
    }
  }

  /** Every piece is admitted by the set as it stands. */
  predicate AdmitsPieces(ends: map<nat, nat>, pieces: seq<Seg>) {
    forall k :: 0 <= k < |pieces| ==> AdmitsAt(ends, pieces[k].at, pieces[k].len)
  }

  /** The set once all of them are in, one after another. */
  function WithPieces(ends: map<nat, nat>, pieces: seq<Seg>): map<nat, nat> {
    if pieces == [] then ends
    else
      var n := |pieces| - 1;
      WithPieces(ends, pieces[..n])[pieces[n].at := pieces[n].End()]
  }

  /** `fits` of the planner: every piece must be admitted by the set as it stood before any of them
      went in; then all go in. So pieces that overlap each other still go in together. */
  method AcceptPieces(taken: Intervals, pieces: seq<Seg>, ghost segs: seq<Seg>) returns (fits: bool)
    requires Books(taken.ends, segs) && forall p :: p in pieces ==> p.len > 0
    modifies taken
    ensures AllApart(segs) ==> (fits <==> NoOverlap(pieces, segs))
    ensures fits <==> AdmitsPieces(old(taken.ends), pieces)
    ensures fits ==> taken.ends == WithPieces(old(taken.ends), pieces)
    ensures fits ==> Books(taken.ends, segs + pieces)
    ensures fits ==> (AllApart(segs + pieces) <==> AllApart(segs) && AllApart(pieces))
    ensures !fits ==> taken.ends == old(taken.ends)
  {
    ConcatApart(segs, pieces);
    fits := AdmitsAll(taken, pieces, segs);
    if fits {
      InsertAll(taken, pieces, segs);
    }
  }

  method AdmitsAll(taken: Intervals, pieces: seq<Seg>, ghost segs: seq<Seg>) returns (fits: bool)
    requires Books(taken.ends, segs) && forall p :: p in pieces ==> p.len > 0
    ensures AllApart(segs) ==> (fits <==> NoOverlap(pieces, segs))
    ensures fits <==> AdmitsPieces(taken.ends, pieces)
  {
    hide AdmitsAt;
    if AllApart(segs) {
      BookkeptIsValid(taken, segs);
    }
    for k := 0 to |pieces|
      invariant AllApart(segs) ==> forall j, s :: 0 <= j < k && s in segs ==> Apart(pieces[j], s)
      invariant forall j :: 0 <= j < k ==> AdmitsAt(taken.ends, pieces[j].at, pieces[j].len)
    {
      if AllApart(segs) {
        FreeIffApart(taken, segs, pieces[k]);
      }
      if !taken.Admits(pieces[k].at, pieces[k].len) {
        return false;
      }
    }
    return true;
  }

  method InsertAll(taken: Intervals, pieces: seq<Seg>, ghost segs: seq<Seg>)
    requires Books(taken.ends, segs) && forall p :: p in pieces ==> p.len > 0
    modifies taken
    ensures Books(taken.ends, segs + pieces) && taken.ends == WithPieces(old(taken.ends), pieces)
  {
    ConcatApart(segs, pieces);
    assert segs + pieces[..0] == segs;
    ghost var apart := AllApart(segs + pieces);
    for k := 0 to |pieces|
      invariant apart ==> Bookkept(taken.ends, segs + pieces[..k])
      invariant taken.ends == WithPieces(old(taken.ends), pieces[..k])
    {
      assert pieces[..k + 1][..k] == pieces[..k];
      if apart {
        BooksStep(taken.ends, segs, pieces, k);
      }
      taken.Insert(pieces[k].at, pieces[k].len);
    }
    assert pieces[..|pieces|] == pieces;
  }

  lemma BooksStep(ends: map<nat, nat>, segs: seq<Seg>, pieces: seq<Seg>, k: nat)
    requires k < |pieces| && Bookkept(ends, segs + pieces[..k])
    requires AllApart(pieces) && pieces[k].len > 0 && NoOverlap(pieces, segs)
    ensures Bookkept(ends[pieces[k].at := pieces[k].End()], segs + pieces[..k + 1])
  {
    ApartFromEarlier(segs, pieces, k);
    InsertKeepsBooks(ends, segs + pieces[..k], pieces[k]);
    OneMore(segs, pieces, k);
  }

  lemma OneMore(segs: seq<Seg>, pieces: seq<Seg>, k: nat)
    requires k < |pieces|
    ensures segs + pieces[..k] + [pieces[k]] == segs + pieces[..k + 1]
  {
  }

  lemma ApartFromEarlier(segs: seq<Seg>, pieces: seq<Seg>, k: nat)
    requires AllApart(pieces) && k < |pieces|
    requires NoOverlap(pieces, segs)
    ensures forall s :: s in segs + pieces[..k] ==> Apart(pieces[k], s)
  {
    forall s | s in segs + pieces[..k]
      ensures Apart(pieces[k], s)
    {
      if s !in segs {
        var j :| 0 <= j < k && pieces[j] == s;
        ApartAt(pieces, j, k);
      }
    }
  }

  lemma {:induction false} ApartAt(segs: seq<Seg>, j: nat, k: nat)
    requires AllApart(segs) && j < k < |segs|
    ensures Apart(segs[k], segs[j])
  {
    if j > 0 {
      ApartAt(segs[1..], j - 1, k - 1);
    } else {
      assert segs[1..][k - 1] == segs[k];
      assert Apart(segs[0], segs[k]);
    }
  }

  // ------------------------------------------------------------- late splices

  /** A segment in image coordinates (its `rootOff` is an image offset), moved to its place in the
      build: None when it lies across runs of a fragmented image. */
  function Place(runs: seq<Run>, s: Seg): Option<Seg> {
    match s
    case PCluster(pc, _, len, image) =>
      (match LogicalHostOf(runs, image, len)
       case Some(k) => Some(PCluster(pc, image, len, runs[k].off + (image - runs[k].log)))
       case None => None)
    case Tabled(idx, from, len, _, image) =>
      (match LogicalHostOf(runs, image, len)
       case Some(k) => Some(Tabled(idx, from, len, image, runs[k].off + (image - runs[k].log)))
       case None => None)
    case _ => None
  }

  predicate ApartFromAll(s: Seg, segs: seq<Seg>) {
    forall t :: t in segs ==> Apart(s, t)
  }

  /** What a build holds after `extra` arrives, first come first served: a segment is turned away
      only if it has no place or overlaps one already there. */
  function Accepted(runs: seq<Run>, segs: seq<Seg>, extra: seq<Seg>): seq<Seg>
    decreases |extra|
  {
    if extra == [] then segs
    else
      var s := Place(runs, extra[0]);
      Accepted(runs, if s.Some? && ApartFromAll(s.value, segs) then segs + [s.value] else segs, extra[1..])
  }

  method AcceptExtra(runs: seq<Run>, kept: seq<Seg>, extra: seq<Seg>) returns (segs: seq<Seg>)
    requires AllApart(kept) && forall s :: s in kept ==> s.len > 0
    requires forall s :: s in extra ==> s.len > 0
    ensures segs == Accepted(runs, kept, extra)
    ensures AllApart(segs)
  {
    hide AdmitsAt, WithPieces;
    segs := kept;
    var taken := new Intervals();
    InsertAll(taken, kept, []);
    assert [] + kept == kept;
    for k := 0 to |extra|
      invariant Bookkept(taken.ends, segs)
      invariant Accepted(runs, segs, extra[k..]) == Accepted(runs, kept, extra)
    {
      assert extra[k..][0] == extra[k] && extra[k..][1..] == extra[k + 1..];
      var placed := Place(runs, extra[k]);
      if placed.Some? {
        FreeIffApart(taken, segs, placed.value);
        BookkeptIsValid(taken, segs);
        if taken.Admits(placed.value.at, placed.value.len) {
          InsertKeepsBooks(taken.ends, segs, placed.value);
          taken.Insert(placed.value.at, placed.value.len);
          segs := segs + [placed.value];
        }
      }
    }
  }

  /** What was there before stays, in order; what is new came from `extra` and found a place. */
  lemma {:induction false} AcceptedElements(runs: seq<Run>, segs: seq<Seg>, extra: seq<Seg>)
    ensures segs <= Accepted(runs, segs, extra)
    ensures forall s :: s in Accepted(runs, segs, extra) ==> s in segs || exists t :: t in extra && Place(runs, t) == Some(s)
    decreases |extra|
  {
    if extra != [] {
      var s := Place(runs, extra[0]);
      var more := if s.Some? && ApartFromAll(s.value, segs) then segs + [s.value] else segs;
      AcceptedElements(runs, more, extra[1..]);
      forall x | x in Accepted(runs, segs, extra)
        ensures x in segs || exists t :: t in extra && Place(runs, t) == Some(x)
      {
        if x !in segs {
          if x in more {
            assert extra[0] in extra && Place(runs, extra[0]) == Some(x);
          } else {
            var t :| t in extra[1..] && Place(runs, t) == Some(x);
            assert t in extra;
          }
        }
      }
    }
  }

  /** Every segment of `extra` that had a place and was turned away overlaps one that is in. */
  lemma {:induction false} TurnedAwayOverlaps(runs: seq<Run>, segs: seq<Seg>, extra: seq<Seg>, k: nat)
    requires k < |extra| && Place(runs, extra[k]).Some?
    ensures var s := Place(runs, extra[k]).value;
            s in Accepted(runs, segs, extra) || !ApartFromAll(s, Accepted(runs, segs, extra))
    decreases |extra|
  {
    var first := Place(runs, extra[0]);
    var more := if first.Some? && ApartFromAll(first.value, segs) then segs + [first.value] else segs;
    AcceptedElements(runs, more, extra[1..]);
    assert forall x :: x in more ==> x in Accepted(runs, segs, extra);
    if k == 0 {
      if !ApartFromAll(first.value, segs) {
        var t :| t in segs && !Apart(first.value, t);
        assert t in more;
      } else {
        assert first.value in more;
      }
    } else {
      assert extra[1..][k - 1] == extra[k];
      TurnedAwayOverlaps(runs, more, extra[1..], k - 1);
    }
  }

  /** Translation of a late splice is faithful: its root range holds the image's bytes. */
  lemma PlacedIsFaithful(space: Bytes, runs: seq<Run>, image: Bytes, s: Seg)
    requires RunsHold(space, runs, image) && Place(runs, s).Some?
    ensures var t := Place(runs, s).value;
            t.End() <= |image| && Same(space, t.rootOff, image, t.at, t.len) && t.at == s.rootOff && t.len == s.len
  {
    var host := runs[LogicalHostOf(runs, s.rootOff, s.len).value];
    assert RunHolds(space, host, image);
    CutsAgree(space, host.off, image, host.log, host.len, s.rootOff - host.log, s.len);
  }

  /** `build.runs.iter().map(|(_, _, len)| len).sum()`. */
  function RunsLen(runs: seq<Run>): nat {
    if runs == [] then 0 else runs[0].len + RunsLen(runs[1..])
  }

  lemma {:induction false} RunsLenIsSize(runs: seq<Run>, from: nat, size: nat)
    requires RunsTile(runs, from, size)
    ensures from + RunsLen(runs) == size
  {
    if runs != [] {
      RunsLenIsSize(runs[1..], from + runs[0].len, size);
    }
  }
}
