/**
 The verify pass: every build re-splices from its segments in document order, its digest must come
 back, and its literals go to the residue on the way. Over an unchanged file it fails exactly when it
 comes across a node whose spooled literals are gone, and what it captured reads back.
 */
module RecipeVerify {
  import opened Wrappers
  import opened ByteStrings
  import opened RecipePlan
  import opened RecipeTree
  import opened RecipeTiling
  import opened RecipeCapture
  import opened RecipeDocument
  import opened RecipeSpool

  class Verifier {
    const w: World
    ghost const truth: seq<Bytes>
    ghost const p0: Plan
    var plan: Plan
    var residue: Bytes
    var seen: set<nat>
    ghost var visited: set<nat>
    ghost var log: seq<Span>

    constructor (w: World, ghost truth: seq<Bytes>, plan: Plan)
      requires Unchanged(w, truth) && Sound(w, truth, plan)
      ensures this.w == w && this.truth == truth && p0 == plan
      ensures Now() == Progress(plan, [], {}, {}, [])
      ensures Good(truth, p0, {}, Now())
    {
      this.w, this.truth, this.p0, this.plan := w, truth, plan, plan;
      residue, seen, visited, log := [], {}, {}, [];
    }

    ghost function Now(): Progress
      reads this
    {
      Progress(plan, residue, seen, visited, log)
    }

    /** The file is unchanged, the plan under verification was sound, and all that was entered is
        done with, except the builds in `open`. */
    ghost predicate Valid(open: set<nat>)
      reads this
    {
      Unchanged(w, truth) && Sound(w, truth, p0) && Good(truth, p0, open, Now())
    }

    function Below(i: nat): nat {
      if i < |w.members| && w.members[i].depth <= w.limit then w.limit - w.members[i].depth else 0
    }

    /** Every open build lies strictly above member `i`. */
    ghost predicate Above(open: set<nat>, i: nat) {
      i < |w.members| && forall o :: o in open ==> o < |w.members| && w.members[o].depth < w.members[i].depth
    }

    /** `len` bytes of a space at `off`; None is a short read. */
    function ReadRange(space: nat, off: nat, len: nat): Option<Bytes> {
      if space in w.spaces && off + len <= |w.spaces[space]| then Some(Cut(w.spaces[space], off, len)) else None
    }

    // ------------------------------------------------------------- the whole pass

    /** Verify the root, then every tabled member that is planned. It fails exactly when it comes across
        a node it cannot read; otherwise all of it is done with. */
    method VerifyAll(root: nat) returns (ok: bool)
      requires Valid({}) && root < |w.members| && Planned(plan, root) && visited == {}
      modifies this
      ensures ok <==> !Fails(w, p0, root)
      ensures ok ==> Valid({}) && root in visited && visited <= AllVisited(w, p0, root)
      ensures ok ==> forall i :: i in ReferencedTabled(plan) && i < |w.members| && Planned(plan, i) ==> i in visited
    {
      hide Sound, Unchanged, Good, PlanLike, Visits, Blocks, Fails, AllVisited, Later;
      SameTabledAsPlanned();
      RootIsVisited(w, p0, root);
      ok := VerifyNode(root, {});
      if !ok {
        return;
      }
      SameTabledAsPlanned();
      var tabled := InOrder(ReferencedTabled(plan), |w.members|);
      ghost var was := Now();
      LaterItself(was);
      for k := 0 to |tabled|
        invariant Valid({}) && root in visited && Later(was, Now()) && visited <= AllVisited(w, p0, root)
        invariant forall j :: 0 <= j < k && Planned(plan, tabled[j]) ==> tabled[j] in visited
      {
        assert tabled[k] in tabled;
        TableIsVisited(w, p0, root, tabled[k]);
        ok := VerifyTabled(was, tabled, k);
        if !ok {
          return;
        }
      }
      SameTabledAsPlanned();
      AllAreRead(root);
      ok := true;
    }

    lemma SameTabledAsPlanned()
      requires Valid({})
      ensures ReferencedTabled(plan) == ReferencedTabled(p0)
      ensures forall i :: Planned(plan, i) <==> Planned(p0, i)
    {
      SameTabled(p0, plan);
      forall i
        ensures Planned(plan, i) <==> Planned(p0, i)
      {
        PlannedLike(p0, plan, i);
      }
    }

    lemma AllAreRead(root: nat)
      requires Valid({}) && root in visited
      requires forall i :: i in ReferencedTabled(plan) && i < |w.members| && Planned(plan, i) ==> i in visited
      ensures !Fails(w, p0, root)
    {
      hide Sound, Unchanged, Good, PlanLike, Visits, Blocks;
      SameTabledAsPlanned();
      VisitedIsRead(root);
      forall i | i in ReferencedTabled(p0) && i < |w.members| && Planned(p0, i)
        ensures !Blocks(w, p0, i)
      {
        VisitedIsRead(i);
      }
    }

    /** Whatever the pass is through with had nothing unreadable in it. */
    lemma {:induction false} VisitedIsRead(i: nat)
      requires Valid({}) && i in visited
      ensures !Blocks(w, p0, i)
      decreases RecipeDocument.Below(w, i), 1
    {
      hide Blocked, VisitsFrom, PlanHolds;
      PlannedLike(p0, plan, i);
      assert NodeDone(Now(), i);
      if i in p0.compress {
        var c := p0.compress[i].child;
        PlannedLike(p0, plan, c);
        CompressNotBlocked(i);
        if LiesBelow(w, i, c) && Planned(p0, c) {
          VisitedIsRead(c);
          assert Visits(w, p0, i) == {i} + Visits(w, p0, c);
        } else {
          assert Visits(w, p0, i) == {i};
        }
      } else {
        BuildIsRead(i);
        forall x | x in VisitsFrom(w, p0, i, 0)
          ensures !Blocked(p0, x)
        {
          BelowIsRead(i, 0, x);
        }
      }
    }

    lemma CompressNotBlocked(i: nat)
      requires i in p0.compress
      ensures !Blocked(p0, i)
    {
    }

    lemma {:induction false} BelowIsRead(i: nat, k: nat, x: nat)
      requires Valid({}) && i in plan.builds && i in p0.builds && i in seen && k <= |p0.builds[i].segs| && x in VisitsFrom(w, p0, i, k)
      ensures !Blocked(p0, x)
      decreases RecipeDocument.Below(w, i), 0, |p0.builds[i].segs| - k
    {
      hide Blocked, PlanHolds, Visits;
      var s := p0.builds[i].segs[k];
      if s.Child? && x in VisitsOf(w, p0, i, s.idx) {
        SegsStay(i, k);
        PlannedLike(p0, plan, s.idx);
        assert s.idx in visited;
        VisitedIsRead(s.idx);
      } else {
        BelowIsRead(i, k + 1, x);
      }
    }

    /** A build that was entered is done with, segment by segment. */
    lemma SegsStay(i: nat, k: nat)
      requires Valid({}) && i in plan.builds && i in p0.builds && i in seen && k < |p0.builds[i].segs|
      ensures |plan.builds[i].segs| == |p0.builds[i].segs| && SegLike(p0.builds[i].segs[k], plan.builds[i].segs[k])
      ensures SegDone(truth, Now(), i, k, plan.builds[i].segs[k])
    {
      assert BuildDone(truth, Now(), i);
      assert BuildLike(p0.builds[i], plan.builds[i]);
    }

    lemma BuildIsRead(i: nat)
      requires Valid({}) && i in plan.builds && i in p0.builds && i in seen
      ensures !Blocked(p0, i)
    {
      LikePlanned({}, i);
      hide Sound, Unchanged, Good, PlanLike, ReadSpool;
      forall k | 0 <= k < |p0.builds[i].segs| && p0.builds[i].segs[k].PCluster?
        ensures !Unreadable(p0, p0.builds[i].segs[k].pc)
      {
        SegsStay(i, k);
        CapturedIsRead(p0.builds[i].segs[k].pc);
      }
    }

    lemma CapturedIsRead(pc: nat)
      requires PlanLike(p0, plan) && NodeCaptured(Now(), pc)
      ensures !Unreadable(p0, pc)
    {
      hide ReadSpool;
      LikeReads(p0, plan, pc);
      forall k | 0 <= k < |plan.pclusters[pc].inputs|
        ensures !CannotRead(plan, plan.pclusters[pc].inputs[k])
      {
        assert InputCaptured(Now(), pc, k, plan.pclusters[pc].inputs[k]);
      }
    }

    method VerifyTabled(ghost was: Progress, tabled: seq<nat>, k: nat) returns (ok: bool)
      requires Valid({}) && Later(was, Now()) && k < |tabled| && tabled[k] < |w.members|
      requires forall j :: 0 <= j < k && Planned(plan, tabled[j]) ==> tabled[j] in visited
      modifies this
      ensures !ok ==> Planned(p0, tabled[k]) && Blocks(w, p0, tabled[k])
      ensures ok ==> Valid({}) && Later(was, Now()) && old(visited) <= visited
      ensures ok ==> visited <= old(visited) + if Planned(p0, tabled[k]) then Visits(w, p0, tabled[k]) else {}
      ensures ok ==> forall j :: 0 <= j < k + 1 && Planned(plan, tabled[j]) ==> tabled[j] in visited
    {
      hide Sound, Unchanged, Good, Visits, Blocks;
      SameTabledAsPlanned();
      ghost var mid := Now();
      ok := true;
      if Planned(plan, tabled[k]) {
        ok := VerifyNode(tabled[k], {});
        if !ok {
          return;
        }
        LaterChains(was, mid, Now());
        forall j | 0 <= j < k && Planned(plan, tabled[j])
          ensures tabled[j] in visited
        {
          PlannedLike(mid.plan, plan, tabled[j]);
        }
      }
    }

    // ------------------------------------------------------------- nodes

    method VerifyNode(i: nat, ghost open: set<nat>) returns (ok: bool)
      requires Valid(open) && Above(open, i) && Planned(plan, i)
      modifies this
      ensures !ok ==> Blocks(w, p0, i)
      ensures ok ==> Valid(open) && Later(old(Now()), Now()) && NewGaps(old(Now()), Now(), {}) && i in visited
      ensures ok ==> visited <= old(visited) + Visits(w, p0, i)
      decreases Below(i), 3
    {
      hide Blocks, VisitsFrom, Good, Later, NewGaps;
      ghost var was := Now();
      LikePlanned(open, i);
      if i in plan.compress {
        var child := plan.compress[i].child;
        LikePlanned(open, child);
        ok := true;
        if Planned(plan, child) {
          GoesDown(i, child);
          ok := VerifyNode(child, open);
          if !ok {
            BlocksFurtherUp(w, p0, i, child);
          }
        } else {
          LaterItself(was);
        }
        if !ok {
          return;
        }
      } else {
        ok := VerifyBuild(i, open);
        if !ok {
          return;
        }
      }
      MarkVisited(was, i, open);
    }

    lemma LikePlanned(open: set<nat>, i: nat)
      requires Valid(open)
      ensures (i in p0.builds <==> i in plan.builds) && p0.compress == plan.compress && (Planned(p0, i) <==> Planned(plan, i))
      ensures PlanLike(p0, plan)
    {
      PlannedLike(p0, plan, i);
    }

    ghost method MarkVisited(was: Progress, i: nat, open: set<nat>)
      requires Valid(open) && Later(was, Now()) && NewGaps(was, Now(), {})
      requires i in was.plan.compress ==> Planned(was.plan, was.plan.compress[i].child) ==> was.plan.compress[i].child in visited
      requires i !in was.plan.compress ==> i in was.plan.builds && i in seen
      modifies this`visited
      ensures Valid(open) && Later(was, Now()) && NewGaps(was, Now(), {})
      ensures visited == old(visited) + {i}
    {
      hide Sound, Unchanged, Good, PlanLike;
      PlannedLike(was.plan, plan, i);
      if i in plan.compress {
        PlannedLike(was.plan, plan, plan.compress[i].child);
      }
      NowVisited(truth, p0, open, Now(), i);
      LaterChains(was, Now(), Now().(visited := visited + {i}));
      visited := visited + {i};
    }

    lemma GoesDown(i: nat, child: nat)
      requires Unchanged(w, truth) && Sound(w, truth, p0) && PlanLike(p0, plan)
      requires i in plan.compress && plan.compress[i].child == child
      ensures i < |w.members| && child < |w.members| && w.members[i].depth < w.members[child].depth <= w.limit
    {
      assert CompressHolds(w, truth, i, p0.compress[i]);
      assert MemberTrue(w, truth, child);
    }

    // ------------------------------------------------------------- builds

    /** Re-splice build `i`; a build already proven is not captured twice. */
    method VerifyBuild(i: nat, ghost open: set<nat>) returns (ok: bool)
      requires Valid(open) && Above(open, i) && i in plan.builds
      modifies this
      ensures !ok ==> Blocks(w, p0, i)
      ensures ok ==> Valid(open) && Later(old(Now()), Now()) && NewGaps(old(Now()), Now(), {})
      ensures ok ==> i in seen && visited <= old(visited) + Visits(w, p0, i)
      decreases Below(i), 2
    {
      hide Sound, Unchanged, Good, Later, NewGaps, SegStep, Visits, Blocks;
      ghost var was := Now();
      if i in seen {
        LaterItself(was);
        return true;
      }
      var b := plan.builds[i];
      Entering(was, i, open);
      seen := seen + {i};
      var done: seq<Seg>, hashed: Bytes := [], [];
      for k := 0 to |b.segs|
        invariant |done| == k && Unchanged(w, truth) && Sound(w, truth, p0)
        invariant Splicing(truth, p0, open, was, Now(), i, done, hashed)
        invariant visited <= old(visited) + Visits(w, p0, i)
      {
        ghost var mid := Now();
        var seg, piece;
        ok, seg, piece := VerifySeg(i, k, b, open);
        if !ok {
          return;
        }
        SegSpliced(truth, p0, open, was, mid, Now(), i, done, hashed, seg, piece);
        done := done + [seg];
        hashed := hashed + piece;
      }
      Whole(was, i, open, done, hashed);
      if w.members[i].sha256 != Some(w.f.sha256(hashed)) {
        return false;
      }
      BuildClosed(truth, p0, open, was, Now(), i, done, hashed);
      plan := plan.(builds := plan.builds[i := b.(segs := done)]);
      ok := true;
    }

    lemma Entering(was: Progress, i: nat, open: set<nat>)
      requires was == Now() && Valid(open) && Above(open, i) && i in plan.builds && i !in seen
      ensures i in p0.builds && plan.builds[i] == p0.builds[i] && i < |truth| == |w.members|
      ensures Splicing(truth, p0, open, was, was.(seen := was.seen + {i}), i, [], [])
    {
      NowEntered(truth, p0, open, was, i);
      assert BuildHolds(w, truth, p0, i, p0.builds[i]);
      assert p0.builds[i].segs[0..] == p0.builds[i].segs;
    }

    lemma Whole(was: Progress, i: nat, open: set<nat>, done: seq<Seg>, hashed: Bytes)
      requires Unchanged(w, truth) && Sound(w, truth, p0)
      requires Splicing(truth, p0, open, was, Now(), i, done, hashed) && |done| == |p0.builds[i].segs|
      ensures i < |w.members| && w.members[i].sha256 == Some(w.f.sha256(hashed))
    {
      hide Good, Later, NewGaps;
      assert BuildHolds(w, truth, p0, i, p0.builds[i]) && MemberTrue(w, truth, i);
      assert p0.builds[i].segs[|done|..] == [];
      assert truth[i][..|hashed|] == truth[i];
    }

    // ------------------------------------------------------------- segments

    /** The bytes segment `k` stands for, and the segment as it will be recorded. */
    method VerifySeg(i: nat, k: nat, b: Build, ghost open: set<nat>) returns (ok: bool, t: Seg, piece: Bytes)
      requires SegReady(i, k, b, open)
      modifies this
      ensures !ok ==> Blocks(w, p0, i)
      ensures ok ==> SegStep(truth, p0, open, old(Now()), Now(), i, k, t, piece)
      ensures ok ==> Unchanged(w, truth) && Sound(w, truth, p0) && visited <= old(visited) + Visits(w, p0, i)
      decreases Below(i), 1
    {
      hide Good, Later, PlanHolds, Rooted, Unchanged, Sound, Visits, Blocks;
      t := b.segs[k];
      piece := [];
      SegIsTrue(i, k, b, open);
      match t {
        case Tabled(_, _, len, _, rootOff) =>
          var r := ReadRange(b.space, rootOff, len);
          if r.None? {
            return false, t, piece;
          }
          piece := r.value;
          Unmoved(i, k, b, open);
        case Child(idx, _, len, _, rootOff) =>
          var r := ReadRange(b.space, rootOff, len);
          if r.None? {
            return false, t, piece;
          }
          piece := r.value;
          ok := VerifyChild(i, k, b, open);
          return ok, t, piece;
        case PCluster(pc, _, len, rootOff) =>
          var r := ReadRange(b.space, rootOff, len);
          if r.None? {
            return false, t, piece;
          }
          piece := r.value;
          if w.f.sha256(piece) != plan.pclusters[pc].sha256 {
            return false, t, piece;
          }
          ok := SpillSeg(i, k, b, open);
          return ok, t, piece;
        case Gap(_, _, _, _) =>
          t, piece := CaptureGap(i, k, b, open);
      }
      ok := true;
    }

    /** Segment `k` of the open build `i` is next. */
    ghost predicate SegReady(i: nat, k: nat, b: Build, open: set<nat>)
      reads this
    {
      && Valid(open + {i}) && Above(open, i) && i in seen && i in plan.builds && i in p0.builds
      && plan.builds[i] == p0.builds[i] == b && k < |b.segs| && GapsBefore(log, i, k)
    }

    lemma SegIsTrue(i: nat, k: nat, b: Build, open: set<nat>)
      requires SegReady(i, k, b, open)
      ensures i < |truth| == |w.members| && b.space in w.spaces && RunsHold(w.spaces[b.space], b.runs, truth[i])
      ensures SegHolds(w, truth, p0, w.members[i].depth, w.spaces[b.space], truth[i], b.segs[k])
      ensures b.segs[k].Gap? ==> b.segs[k].inline.None?
      ensures b.segs[k].PCluster? ==> b.segs[k].pc < |plan.pclusters|
      ensures b.segs[k].PCluster? ==>
                plan.pclusters[b.segs[k].pc].sha256 == w.f.sha256(Cut(truth[i], b.segs[k].at, b.segs[k].len))
    {
      assert BuildHolds(w, truth, p0, i, p0.builds[i]);
      if b.segs[k].PCluster? {
        var pc := b.segs[k].pc;
        assert NodeLike(p0.pclusters[pc], plan.pclusters[pc]);
      }
    }

    /** A segment that needs nothing beyond its bytes. */
    lemma Unmoved(i: nat, k: nat, b: Build, open: set<nat>)
      requires SegReady(i, k, b, open) && b.segs[k].Tabled?
      ensures SegIsThere(i, k, b)
      ensures SegStep(truth, p0, open, Now(), Now(), i, k, b.segs[k], Cut(truth[i], b.segs[k].at, b.segs[k].len))
    {
      SegIsTrue(i, k, b, open);
      LaterItself(Now());
    }

    ghost predicate SegIsThere(i: nat, k: nat, b: Build) {
      i < |truth| && k < |b.segs| && b.segs[k].End() <= |truth[i]|
    }

    method VerifyChild(i: nat, k: nat, b: Build, ghost open: set<nat>) returns (ok: bool)
      requires SegReady(i, k, b, open) && b.segs[k].Child?
      modifies this
      ensures SegIsThere(i, k, b) && (!ok ==> Blocks(w, p0, i))
      ensures ok ==> SegStep(truth, p0, open, old(Now()), Now(), i, k, b.segs[k], Cut(truth[i], b.segs[k].at, b.segs[k].len))
      ensures ok ==> Unchanged(w, truth) && Sound(w, truth, p0) && visited <= old(visited) + Visits(w, p0, i)
      decreases Below(i), 0
    {
      hide Visits, Blocks;
      ghost var was := Now();
      SegIsTrue(i, k, b, open);
      ChildIsBelow(i, k, b, open);
      var idx := b.segs[k].idx;
      ok := true;
      if (idx in plan.builds && plan.builds[idx].segs != []) || idx in plan.compress {
        ChildVisits(i, k, b, open);
        ok := VerifyNode(idx, open + {i});
        if !ok {
          BlocksFurtherUp(w, p0, i, idx);
          return;
        }
      } else {
        LaterItself(was);
      }
      PlannedLike(was.plan, plan, idx);
      ChildGapsBefore(was, i, k);
    }

    lemma ChildVisits(i: nat, k: nat, b: Build, open: set<nat>)
      requires SegReady(i, k, b, open) && b.segs[k].Child? && Planned(plan, b.segs[k].idx)
      ensures Visits(w, p0, b.segs[k].idx) <= Visits(w, p0, i)
    {
      ChildIsBelow(i, k, b, open);
      PlannedLike(p0, plan, b.segs[k].idx);
      assert i !in p0.compress.Keys;
      VisitsDescend(w, p0, i, k);
    }

    lemma ChildGapsBefore(was: Progress, i: nat, k: nat)
      requires NewGaps(was, Now(), {}) && Later(was, Now()) && i in was.seen && GapsBefore(was.log, i, k)
      ensures NewGaps(was, Now(), {i}) && GapsBefore(log, i, k + 1)
    {
      forall n | 0 <= n < |log| && log[n].owner.OfGap? && log[n].owner.build == i
        ensures log[n].owner.seg < k
      {
        assert n < |was.log| ==> log[n] == was.log[n];
      }
    }

    lemma ChildIsBelow(i: nat, k: nat, b: Build, open: set<nat>)
      requires SegReady(i, k, b, open) && b.segs[k].Child?
      ensures var idx := b.segs[k].idx;
              Above(open + {i}, idx) && i < |w.members| && w.members[i].depth < w.members[idx].depth <= w.limit
              && (idx in plan.builds ==> plan.builds[idx].segs != [])
    {
      hide SegHolds, Rooted, Later, RunsHold;
      SegIsTrue(i, k, b, open);
      var idx := b.segs[k].idx;
      assert MemberTrue(w, truth, idx);
      if idx in plan.builds {
        PlannedLike(p0, plan, idx);
        assert BuildHolds(w, truth, p0, idx, p0.builds[idx]);
        assert BuildLike(p0.builds[idx], plan.builds[idx]);
      }
    }

    /** Capture a gap's bytes: inline when short, else at the end of the residue. */
    method CaptureGap(i: nat, k: nat, b: Build, ghost open: set<nat>) returns (t: Seg, piece: Bytes)
      requires SegReady(i, k, b, open) && b.segs[k].Gap?
      modifies this`residue, this`log
      ensures SegIsThere(i, k, b) && piece == Cut(truth[i], b.segs[k].at, b.segs[k].len)
      ensures SegStep(truth, p0, open, old(Now()), Now(), i, k, t, piece)
    {
      hide Sound, Unchanged, Good, Later;
      ghost var was := Now();
      t := b.segs[k];
      SegIsTrue(i, k, b, open);
      piece := GapBytes(i, k, b, open);
      if t.len <= INLINE_MAX {
        t := t.(inline := Some(piece));
        LaterItself(was);
      } else {
        GapWritten(truth, p0, open + {i}, was, i, k, t);
        t := t.(residueOff := Some(|residue|));
        log := log + [Span(OfGap(i, k), |residue|, |piece|)];
        residue := residue + piece;
      }
    }

    method GapBytes(i: nat, k: nat, b: Build, ghost open: set<nat>) returns (piece: Bytes)
      requires SegReady(i, k, b, open) && b.segs[k].Gap?
      ensures SegIsThere(i, k, b) && piece == Cut(truth[i], b.segs[k].at, b.segs[k].len)
    {
      hide Sound, Good, RunsHold, Unchanged, GapBytesRead;
      GapReads(i, k, b, open);
      var ranges := MapRange(b.runs, b.segs[k].at, b.segs[k].len);
      piece := GatherGap(i, b, b.segs[k], ranges);
    }

    method GatherGap(i: nat, b: Build, s: Seg, ranges: seq<(nat, nat)>) returns (piece: Bytes)
      requires GapBytesRead(i, b, s) && ranges == Mapped(b.runs, s.at, s.at + s.len)
      ensures piece == Cut(truth[i], s.at, s.len)
    {
      piece := Gather(w.spaces[b.space], ranges);
    }

    /** Mapped through the build's runs, the gap's ranges hold the gap's bytes. */
    ghost predicate GapBytesRead(i: nat, b: Build, s: Seg) {
      && i < |truth| && s.End() <= |truth[i]| && b.space in w.spaces
      && InSpace(w.spaces[b.space], Mapped(b.runs, s.at, s.at + s.len))
      && Gather(w.spaces[b.space], Mapped(b.runs, s.at, s.at + s.len)) == Cut(truth[i], s.at, s.len)
    }

    lemma InsideMember(i: nat, s: Seg, b: Build)
      requires i < |truth| == |w.members| && b.space in w.spaces
      requires SegHolds(w, truth, p0, w.members[i].depth, w.spaces[b.space], truth[i], s)
      ensures s.End() <= |truth[i]|
    {
    }

    lemma GapReads(i: nat, k: nat, b: Build, open: set<nat>)
      requires SegReady(i, k, b, open) && b.segs[k].Gap?
      ensures SegIsThere(i, k, b) && GapBytesRead(i, b, b.segs[k])
    {
      hide Sound, Good, Unchanged, RunsHold, SegHolds, Mapped, Gather, InSpace;
      SegIsTrue(i, k, b, open);
      var s := b.segs[k];
      assert s.End() <= |truth[i]| by { InsideMember(i, s, b); }
      MappedReadsBack(w.spaces[b.space], b.runs, 0, truth[i], s.at, s.at + s.len);
    }

    /** A pcluster segment: the residue takes the node's literals one after the other, as they stand. */
    method SpillSeg(i: nat, k: nat, b: Build, ghost open: set<nat>) returns (ok: bool)
      requires SegReady(i, k, b, open) && b.segs[k].PCluster?
      modifies this
      ensures SegIsThere(i, k, b) && (!ok ==> Blocks(w, p0, i))
      ensures ok ==> SegStep(truth, p0, open, old(Now()), Now(), i, k, b.segs[k], Cut(truth[i], b.segs[k].at, b.segs[k].len))
      ensures ok ==> Unchanged(w, truth) && Sound(w, truth, p0) && visited == old(visited)
    {
      hide Unchanged, Good, Later, Blocks;
      ghost var was := Now();
      SegIsTrue(i, k, b, open);
      ok := SpillPCluster(b.segs[k].pc, open + {i});
      if ok {
        ChildGapsBefore(was, i, k);
      } else {
        NodeBlocks(i, k, b);
      }
    }

    lemma NodeBlocks(i: nat, k: nat, b: Build)
      requires Sound(w, truth, p0) && i in p0.builds && p0.builds[i] == b && k < |b.segs| && b.segs[k].PCluster? && Unreadable(p0, b.segs[k].pc)
      ensures Blocks(w, p0, i)
    {
      assert i !in p0.compress.Keys;
      BlockedBlocks(w, p0, i);
    }

    lemma SpillStarts(open: set<nat>, pc: nat)
      requires Valid(open) && pc < |plan.pclusters|
      ensures RecipeCapture.Spilling(Now(), Now(), pc, [])
    {
    }

    method SpillPCluster(pc: nat, ghost open: set<nat>) returns (ok: bool)
      requires Valid(open) && pc < |plan.pclusters|
      modifies this
      ensures !ok <==> Unreadable(p0, pc)
      ensures Unchanged(w, truth) && Sound(w, truth, p0) && visited == old(visited)
      ensures ok ==> Valid(open) && Later(old(Now()), Now()) && NewGaps(old(Now()), Now(), {})
      ensures ok ==> NodeCaptured(Now(), pc)
    {
      hide Sound, Unchanged, Later, ReadSpool, Good;
      LikePlanned(open, pc);
      LikeReads(p0, plan, pc);
      ghost var was := Now();
      SpillStarts(open, pc);
      var inputs, done := plan.pclusters[pc].inputs, [];
      for k := 0 to |inputs|
        invariant |done| == k && plan == was.plan && Spilling(was, Now(), pc, done) && visited == old(visited)
        invariant forall j :: 0 <= j < k ==> !CannotRead(plan, inputs[j])
      {
        var x := inputs[k];
        if x.Literal? && x.inline.None? {
          var read := ReadSpool(plan, x.spoolOff, x.len);
          if read.None? {
            assert CannotRead(plan, inputs[k]);
            return false;
          }
          ReadLength(plan, x.spoolOff, x.len);
          InputWritten(was, Now(), pc, done);
          done := done + [x.(residueOff := Some(|residue|))];
          log := log + [Span(OfLiteral(pc, k), |residue|, x.len)];
          residue := residue + read.value;
        } else {
          InputPassed(was, Now(), pc, done);
          done := done + [x];
        }
      }
      NodeSpilled(truth, p0, open, was, Now(), pc, done);
      plan := plan.(pclusters := plan.pclusters[pc := plan.pclusters[pc].(inputs := done)]);
      ok := true;
    }
  }

  lemma LaterItself(u: Progress)
    ensures Later(u, u) && NewGaps(u, u, {})
  {
    PlanLikeItself(u.plan);
  }

  lemma SegsTabledLike(p: Plan, q: Plan, s: Seg, t: Seg)
    requires PlanLike(p, q) && SegLike(s, t)
    ensures SegTabled(p.pclusters, s) == SegTabled(q.pclusters, t)
  {
    if s.PCluster? && s.pc < |p.pclusters| {
      var a, b := p.pclusters[s.pc].inputs, q.pclusters[s.pc].inputs;
      assert NodeLike(p.pclusters[s.pc], q.pclusters[s.pc]);
      assert forall k :: 0 <= k < |a| ==> InputLike(a[k], b[k]);
    }
  }

  /** Captures do not change which members a plan reaches through the table. */
  lemma SameTabled(p: Plan, q: Plan)
    requires PlanLike(p, q)
    ensures ReferencedTabled(p) == ReferencedTabled(q)
  {
    forall x
      ensures x in ReferencedTabled(p) <==> x in ReferencedTabled(q)
    {
      if x in ReferencedTabled(p) {
        TabledCarries(p, q, x);
      }
      if x in ReferencedTabled(q) {
        PlanLikeBack(p, q);
        TabledCarries(q, p, x);
      }
    }
  }

  lemma PlanLikeBack(p: Plan, q: Plan)
    requires PlanLike(p, q)
    ensures PlanLike(q, p)
  {
    forall i | i in q.builds
      ensures BuildLike(q.builds[i], p.builds[i])
    {
      assert i in q.builds.Keys && i in p.builds && BuildLike(p.builds[i], q.builds[i]);
    }
    forall k | 0 <= k < |q.pclusters|
      ensures NodeLike(q.pclusters[k], p.pclusters[k])
    {
      assert NodeLike(p.pclusters[k], q.pclusters[k]);
    }
  }

  lemma TabledCarries(p: Plan, q: Plan, x: nat)
    requires PlanLike(p, q) && x in ReferencedTabled(p)
    ensures x in ReferencedTabled(q)
  {
    var i :| i in p.builds && x in TabledOf(p.pclusters, p.builds[i].segs);
    var s :| s in p.builds[i].segs && x in SegTabled(p.pclusters, s);
    var k :| 0 <= k < |p.builds[i].segs| && p.builds[i].segs[k] == s;
    assert i in p.builds.Keys && i in q.builds;
    assert BuildLike(p.builds[i], q.builds[i]);
    var t := q.builds[i].segs[k];
    SegsTabledLike(p, q, s, t);
    assert t in q.builds[i].segs;
    assert x in TabledOf(q.pclusters, q.builds[i].segs);
  }
}
