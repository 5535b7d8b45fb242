/**
 The planner proper: the mutually recursive descent that decides, member by member, between a
 splice build, a compression node, an extract node and plain literal bytes, and takes rejected
 subtrees back out of the plan.

 What runs through all of it is `Sound`: every entry of the plan is true of the unchanged bytes,
 refers only to children of its own member, and never to one that leads nowhere.
 */
module RecipePlanner {
  import opened Wrappers
  import opened ByteStrings
  import opened RecipePlan
  import opened RecipeTree
  import opened RecipeTiling
  import opened RecipePlacing
  import opened RecipeMatcher
  import opened RecipePlanning
  import opened RecipeSure
  import opened RecipeCourse
  import opened RecipeTaken

  class Planner {
    const w: World
    ghost const truth: seq<Bytes>
    const sourcesOf: nat -> seq<nat>
    const passes: Passes
    var plan: Plan
    /** Set once an assertion or an overflow check has fired: from then on nothing the planner does
        stands for anything, and the mint reports the panic alone. */
    var halted: bool

    constructor (w: World, ghost truth: seq<Bytes>, sourcesOf: nat -> seq<nat>,
                 passes: Passes, root: nat)
      ensures this.w == w && this.truth == truth && this.sourcesOf == sourcesOf && this.passes == passes
      ensures plan == Plan(map[], map[], map[], [], {}, [], [], root) && !halted
    {
      this.w, this.truth, this.sourcesOf, this.passes := w, truth, sourcesOf, passes;
      plan := Plan(map[], map[], map[], [], {}, [], [], root);
      halted := false;
    }

    /** The container has not changed, and the plan so far is sound. */
    ghost predicate Valid()
      reads this
    {
      && Unchanged(w, truth) && PassesHold(w, truth, sourcesOf, passes)
      && Sound(w, truth, plan) && Caused(w, passes, plan, halted)
    }

    /** An image the passes are sure to splice, and its plan. */
    ghost predicate SureImage(i: nat) {
      Sure(w, sourcesOf, passes, i)
    }

    ghost predicate StackedNow(i: nat)
      reads this
    {
      Stacked(w, sourcesOf, passes, plan, i)
    }

    /** Child `c` is claimed, or planned as an image the passes splice. */
    ghost predicate Leading(c: nat)
      reads this
    {
      Claimed(w, c) || StackedNow(c)
    }

    lemma LeadingKept(was: Plan, i: nat, c: nat)
      requires IsKid(w, i, c) && was.pclusters <= plan.pclusters && forall x: nat :: x != i ==> SameEntry(was, plan, x)
      requires Claimed(w, c) || Stacked(w, sourcesOf, passes, was, c)
      ensures Leading(c)
    {
      hide Stacked, Sound;
      if !Claimed(w, c) {
        forall x: nat | Under(w, x, c)
          ensures SameEntry(was, plan, x)
        {
          UnderKidIsUnder(w, x, c, i);
        }
        StackedGrows(w, sourcesOf, passes, was, plan, c);
      }
    }

    /** The scan of an image over one claimed source, when it is planned after `p`. */
    function ScanOn(c: nat, p: Plan): Scan {
      SingleScan(sourcesOf, passes, c, p.literals)
    }

    /** An image over one claimed source whose scan, after `p`, opens with a finding that has a place. */
    ghost predicate Opens(p: Plan, c: nat) {
      Single(w, sourcesOf, c) && SingleOpens(w, sourcesOf, c, ScanOn(c, p))
    }

    ghost predicate BookedAs(was: Plan, c: nat)
      reads this
    {
      LedgerOf(plan) == Booked(ScanOn(c, was), LedgerOf(was))
    }

    ghost predicate StandsAs(was: Plan, c: nat)
      reads this
    {
      SingleStands(sourcesOf, plan, c, ScanOn(c, was))
    }

    /** How far below member `i` the tree can still go. */
    function Below(i: nat): nat {
      Room(w, i)
    }

    ghost function Asks(): Asked {
      Asked(w, sourcesOf, passes)
    }

    ghost function Here(): Now
      reads this
    {
      Now(plan, halted)
    }

    // ------------------------------------------------------------- taking a subtree out

    method RemoveSubtree(i: nat)
      requires Valid() && i < |w.members|
      requires Unreferenced(plan, i)
      modifies this`plan
      ensures Valid() && NoEntry(plan, i) && OnlyUnder(w, old(plan), plan, i) && SameTables(old(plan), plan)
      ensures plan == RemovedOf(w, old(plan), i)
      decreases Below(i), 1
    {
      hide Caused, PassesHold, RemovedKid;
      var build := if i in plan.builds then plan.builds[i].segs else [];
      var child := if i in plan.compress then Some(plan.compress[i].child) else None;
      ghost var was := plan;
      ChildrenOfEntry(w, truth, plan, i);
      plan := plan.(extracts := plan.extracts - {i}, compress := plan.compress - {i}, builds := plan.builds - {i});
      Removed(w, truth, was, plan, i);
      CausedGrows(w, passes, was, plan, halted);
      if child.Some? {
        RemoveKid(i, child.value, was);
      }
      ghost var mid := plan;
      for k := 0 to |build|
        invariant Valid() && NoEntry(plan, i) && OnlyUnder(w, was, plan, i) && SameTables(was, plan)
        invariant plan == RemovedSegs(w, mid, i, build, k)
      {
        if build[k].Child? {
          RemoveKid(i, build[k].idx, was);
        }
      }
    }

    /** The recursive step of `RemoveSubtree`, for one child of a member already taken out. */
    method RemoveKid(i: nat, c: nat, ghost was: Plan)
      requires Valid() && IsKid(w, i, c) && NoEntry(plan, i)
      requires OnlyUnder(w, was, plan, i) && SameTables(was, plan)
      modifies this`plan
      ensures Valid() && NoEntry(plan, i) && OnlyUnder(w, was, plan, i) && SameTables(was, plan)
      ensures plan == RemovedKid(w, old(plan), i, c)
      decreases Below(i), 0
    {
      ghost var mid := plan;
      KidsOfUnplannedUnreferenced(w, truth, plan, i, c);
      GoesDown(w, truth, i, c);
      RoomBelow(w, truth, i, c);
      RemoveSubtree(c);
      OnlyUnderKid(w, mid, plan, c, i);
      OnlyUnderChains(w, was, mid, plan, i);
    }

    // ------------------------------------------------------------- one member

    /** An extract node for member `i`, when some witness knows it as an entry of an archive. */
    method PlanExtract(i: nat) returns (ok: bool)
      requires Valid() && IsMember(w, i) && NoEntry(plan, i) && Unreferenced(plan, i)
      modifies this`plan
      ensures Valid() && OnlyUnder(w, old(plan), plan, i)
      ensures ok <==> Nameable(w.members[i]) && Extractable(w, i)
      ensures ok ==> w.evidence[i].archive.Some? && !Planned(plan, i)
      ensures ok ==> plan == old(plan).(extracts := old(plan).extracts[i := w.evidence[i].archive.value])
      ensures !ok ==> plan == old(plan)
      ensures (plan, ok) == ExtractOf(w, old(plan), i)
    {
      if !Nameable(w.members[i]) || w.evidence[i].archive.None? {
        return false;
      }
      ghost var was := plan;
      plan := plan.(extracts := plan.extracts[i := w.evidence[i].archive.value]);
      Extracted(w, truth, was, plan, i);
      return true;
    }

    /** Whether child `c` of `i` earns a reference: claimed, planned as a node, or attested. */
    method PlanKid(i: nat, c: nat) returns (wanted: bool)
      requires Valid() && IsKid(w, i, c) && Nameable(w.members[c]) && Fresh(w, plan, c) && Unreferenced(plan, c)
      modifies this`plan, this`halted
      ensures Valid() && OnlyUnder(w, old(plan), plan, c) && Unreferenced(plan, c)
      ensures wanted ==> Fetchable(w, plan, c)
      ensures !wanted ==> NoEntry(plan, c)
      ensures Claimed(w, c) ==> wanted
      ensures (Here(), wanted) == KidOf(Asks(), old(Here()), i, c)
      ensures Single(w, sourcesOf, c) && !Claimed(w, c) ==> BookedAs(old(plan), c)
      ensures Opens(old(plan), c) && !Claimed(w, c) ==> wanted && StandsAs(old(plan), c)
      decreases Below(i), 0
    {
      hide Sure, Stacked, Single, SingleStands, SingleOpens, NodeOf, ExtractOf;
      wanted := Claimed(w, c);
      ghost var was := plan;
      assert Under(w, c, c);
      if !wanted {
        GoesDown(w, truth, i, c);
        RoomBelow(w, truth, i, c);
        wanted := PlanNode(c);
        if !wanted {
          ghost var mid := plan;
          StillUnreferenced(w, truth, was, mid, c);
          wanted := PlanExtract(c);
          OnlyUnderChains(w, was, mid, plan, c);
        }
      }
      StillUnreferenced(w, truth, was, plan, c);
    }

    /** A node for member `i` that rests on its children. Wrappers are searched first, an erofs image is
        left to its passes, and everything else, a failed search included, is spliced. */
    method PlanNode(i: nat) returns (ok: bool)
      requires Valid() && IsMember(w, i) && Fresh(w, plan, i) && Unreferenced(plan, i)
      modifies this`plan, this`halted
      ensures Valid() && OnlyUnder(w, old(plan), plan, i)
      ensures ok ==> Planned(plan, i)
      ensures !ok ==> NoEntry(plan, i)
      ensures i == old(plan).root && Nameable(w.members[i]) && HomeOf(w, i).Some? ==> ok || halted
      ensures SureImage(i) ==> ok && StackedNow(i)
      ensures Single(w, sourcesOf, i) ==> BookedAs(old(plan), i) && (ScanOn(i, old(plan)).Panics? ==> halted)
      ensures Opens(old(plan), i) ==> ok && StandsAs(old(plan), i)
      ensures Shelf(w, sourcesOf, i) && Opens(old(plan), w.kids[i][0]) ==>
                halted || (ok && Shelved(w, sourcesOf, passes, LedgerOf(old(plan)), plan, i))
      ensures FoldsFirst(w, i) ==> halted
      ensures (Here(), ok) == NodeOf(Asks(), old(Here()), i)
      ensures i in plan.compress <==> exists how :: MadeBy(w, truth, i, how)
      ensures i in plan.compress ==> plan.compress[i].child == w.kids[i][0] && MadeBy(w, truth, i, plan.compress[i].how)
      decreases Below(i), 5
    {
      hide MakerOf, MadeBy, HasMakings, OnlyUnder, Fresh, Unreferenced, KidsFreshFrom, Sound, Caused, PassesHold, Unchanged, MappedIn, SelfOverlaps;
      hide Sure, Stacked, OneSource, Single, SingleStands, SingleOpens, Shelved, OnShelf, CompressOf, ImageOf, BuildOf;
      MadeIff(i);
      SureIsErofs(i);
      SingleIsErofs(i);
      ShelfIsPlain(i);
      MakerIsWrapper(i);
      FreshHere(i);
      if w.members[i].kind.Gzip? || w.members[i].kind.Zstd? {
        ok := PlanWrapper(i);
      } else if w.members[i].kind.Erofs? {
        ok := PlanImage(i);
      } else {
        ok := PlanBuild(i);
      }
    }

    lemma FreshHere(i: nat)
      requires Valid() && IsMember(w, i) && Fresh(w, plan, i)
      ensures NoEntry(plan, i) && KidsFreshFrom(w, plan, i, 0)
    {
      FreshKids(w, truth, plan, i);
    }

    lemma ShelfIsPlain(i: nat)
      ensures Shelf(w, sourcesOf, i) || FoldsFirst(w, i) ==> i < |w.members| && w.members[i].kind.Plain?
    {
    }

    lemma MakerIsWrapper(i: nat)
      ensures MakerOf(w, i).Some? ==> i < |w.members| && (w.members[i].kind.Gzip? || w.members[i].kind.Zstd?)
    {
    }

    /** A wrapper: the search first, and a splice build if that comes to nothing. */
    method PlanWrapper(i: nat) returns (ok: bool)
      requires Valid() && IsMember(w, i) && Fresh(w, plan, i) && Unreferenced(plan, i)
      modifies this`plan, this`halted
      ensures Valid() && OnlyUnder(w, old(plan), plan, i)
      ensures ok ==> Planned(plan, i)
      ensures !ok ==> NoEntry(plan, i)
      ensures i == old(plan).root && Nameable(w.members[i]) && HomeOf(w, i).Some? ==> ok || halted
      ensures i in plan.compress <==> MakerOf(w, i).Some?
      ensures i in plan.compress ==> plan.compress[i] == Compress(w.kids[i][0], MakerOf(w, i).value)
      ensures var (c, made) := CompressOf(Asks(), old(Here()), i);
              (Here(), ok) == if made then (c, true) else BuildOf(Asks(), c, i, false)
      decreases Below(i), 4
    {
      hide MakerOf, OnlyUnder, Fresh, Unreferenced, KidsFreshFrom, Sound, Caused, PassesHold, Unchanged, MappedIn, CompressOf, BuildOf;
      hide Sure, Stacked, OneSource, Single, SingleStands, SingleOpens, Shelved, OnShelf, Shelf, FoldsFirst;
      ghost var was := plan;
      ok := PlanCompress(i);
      if ok {
        return;
      }
      ghost var mid := plan;
      SameRoot(was, mid, i);
      ok := PlanBuild(i);
      OnlyUnderChains(w, was, mid, plan, i);
    }

    /** A splice build that has to have something in it, unless it is the root's. */
    method PlanBuild(i: nat) returns (ok: bool)
      requires Valid() && IsMember(w, i) && NoEntry(plan, i) && Unreferenced(plan, i) && KidsFreshFrom(w, plan, i, 0)
      modifies this`plan, this`halted
      ensures Valid() && OnlyUnder(w, old(plan), plan, i) && i !in plan.compress
      ensures if ok then i in plan.builds else NoEntry(plan, i)
      ensures i == old(plan).root && Nameable(w.members[i]) && HomeOf(w, i).Some? ==> ok || halted
      ensures Shelf(w, sourcesOf, i) && Opens(old(plan), w.kids[i][0]) ==>
                halted || (ok && Shelved(w, sourcesOf, passes, LedgerOf(old(plan)), plan, i))
      ensures FoldsFirst(w, i) ==> halted
      ensures (Here(), ok) == BuildOf(Asks(), old(Here()), i, false)
      decreases Below(i), 3
    {
      hide Sure, Stacked, OneSource, Single, SingleStands, SingleOpens, Shelved, OnShelf, BuildOf, Takes, TakenTo, AllPieces, PassesHold, PlanHolds;
      var fired;
      ghost var accepted;
      ok, fired, accepted := PlanBuildInner(i, false);
      FoldsIf(i, accepted, fired);
    }

    lemma FoldsIf(i: nat, accepted: seq<nat>, fired: bool)
      requires FirstClaimed(i) ==> w.kids[i][0] in accepted
      requires fired <==> exists c :: c in accepted && SelfOverlaps(w, i, c)
      ensures FoldsFirst(w, i) ==> fired
    {
    }

    lemma MadeIff(i: nat)
      requires Unchanged(w, truth)
      ensures MakerOf(w, i).Some? <==> exists how :: MadeBy(w, truth, i, how)
      ensures MakerOf(w, i).Some? ==> HasMakings(w, i) && MadeBy(w, truth, i, MakerOf(w, i).value)
    {
      hide Unchanged, MakerOf;
      forall how
        ensures MakerOf(w, i) == Some(how) <==> MadeBy(w, truth, i, how)
      {
        MakerIff(w, truth, i, how);
      }
    }

    lemma SingleIsErofs(i: nat)
      ensures Single(w, sourcesOf, i) ==> i < |w.members| && w.members[i].kind.Erofs?
    {
    }

    lemma SureIsErofs(i: nat)
      ensures SureImage(i) ==> i < |w.members| && w.members[i].kind.Erofs?
    {
    }

    // ------------------------------------------------------------- compression nodes

    /** A compression node for wrapper `i` over its one child, if some candidate gives the wrapper back.
        When none does, the child leaves the plan again. */
    method PlanCompress(i: nat) returns (ok: bool)
      requires Valid() && IsMember(w, i) && Fresh(w, plan, i) && Unreferenced(plan, i)
      modifies this`plan, this`halted
      ensures Valid() && OnlyUnder(w, old(plan), plan, i)
      ensures !ok ==> NoEntry(plan, i) && Unreferenced(plan, i) && KidsFreshFrom(w, plan, i, 0)
      ensures ok <==> MakerOf(w, i).Some?
      ensures ok ==> i in plan.compress && plan.compress[i] == Compress(w.kids[i][0], MakerOf(w, i).value)
      ensures (Here(), ok) == CompressOf(Asks(), old(Here()), i)
      decreases Below(i), 3
    {
      hide KidOf, RemovedOf, CompressorOf;
      FreshKids(w, truth, plan, i);
      var m := w.members[i];
      if m.size < IDENTITY_MIN_BYTES || m.sha256.None? || |w.kids[i]| != 1 {
        return false;
      }
      var c := w.kids[i][0];
      KidIsKid(i, 0);
      var child := w.members[c];
      if child.sha256.None? || child.size < IDENTITY_MIN_BYTES || child.space.None? || m.extents.None? {
        return false;
      }
      if child.space.value !in w.spaces || m.extents.value.src !in w.spaces || !InSpace(w.spaces[m.extents.value.src], Ranges(m.extents.value.runs)) {
        return false;
      }
      WrapperViewReads(w, truth, i);
      var wview := WrapperView(w, i);
      var probe := ProbeWrapper(w.f, w.members[i].kind, wview);
      if probe.None? {
        return false;
      }
      ghost var was := Here();
      ok := CompressVia(i, c, probe.value, wview, w.spaces[child.space.value]);
      assert ProbeOf(w, i) == probe && MakerOf(w, i) == CompressorOf(w.f, probe.value, truth[i], truth[c]);
    }

    /** The course of a wrapper's compression, from its probe on. */
    ghost function ViaOf(was: Now, i: nat, c: nat, probe: Probe, wview: Bytes, cview: Bytes): (Now, bool)
      requires IsMember(w, i) && IsMember(w, c) && w.members[c].space.Some?
    {
      var (kid, wanted) := KidOf(Asks(), was, i, c);
      match CompressorOf(w.f, probe, wview, cview)
      case None => (if wanted then kid.(plan := RemovedOf(w, kid.plan, c)) else kid, false)
      case Some(how) =>
        var p := if wanted then kid.plan else kid.plan.(builds := kid.plan.builds[c := AllLiteral(w, c)]);
        (kid.(plan := p.(compress := p.compress[i := Compress(c, how)])), true)
    }

    method CompressVia(i: nat, c: nat, probe: Probe, wview: Bytes, cview: Bytes) returns (ok: bool)
      requires Valid() && Wraps(w, i) && NoEntry(plan, i) && Unreferenced(plan, i) && w.kids[i] == [c]
      requires IsKid(w, i, c) && Fresh(w, plan, c) && w.members[c].extents.None?
      requires wview == truth[i] && cview == truth[c] && ProbeWrapper(w.f, w.members[i].kind, wview) == Some(probe)
      modifies this`plan, this`halted
      ensures Valid() && OnlyUnder(w, old(plan), plan, i)
      ensures !ok ==> NoEntry(plan, i) && Unreferenced(plan, i) && KidsFreshFrom(w, plan, i, 0)
      ensures ok <==> CompressorOf(w.f, probe, wview, cview).Some?
      ensures ok ==> i in plan.compress && plan.compress[i] == Compress(c, CompressorOf(w.f, probe, wview, cview).value)
      ensures (Here(), ok) == ViaOf(old(Here()), i, c, probe, wview, cview)
      decreases Below(i), 2
    {
      hide PlanHolds, PassesHold, Rooted, Unchanged, Under, OnlyUnder, KidOf, RemovedOf, CompressorOf;
      ghost var was := plan;
      KidsOfUnplannedUnreferenced(w, truth, plan, i, c);
      GoesDown(w, truth, i, c);
      var wanted := PlanKid(i, c);
      OnlyUnderKid(w, was, plan, c, i);
      var found := SearchCompressor(w.f, probe, wview, cview);
      if found.None? {
        if wanted {
          ghost var mid := plan;
          RemoveSubtree(c);
          OnlyUnderKid(w, mid, plan, c, i);
          OnlyUnderChains(w, was, mid, plan, i);
        }
        StillUnreferenced(w, truth, was, plan, i);
        return false;
      }
      EnterCompress(was, i, c, wanted, found.value);
      ok := true;
    }

    /** Record a verified chain; an unclaimed, unplannable child rides along as one literal. */
    method EnterCompress(ghost was: Plan, i: nat, c: nat, wanted: bool, how: Comp)
      requires Valid() && Wraps(w, i) && NoEntry(plan, i) && w.kids[i] == [c] && IsKid(w, i, c)
      requires OnlyUnder(w, was, plan, i)
      requires if wanted then Fetchable(w, plan, c) else NoEntry(plan, c)
      requires CompRun(w.f, how, truth[c]) == Some(truth[i])
      modifies this`plan
      ensures Valid() && OnlyUnder(w, was, plan, i)
      ensures i in plan.compress && plan.compress[i] == Compress(c, how)
      ensures var p := if wanted then old(plan) else old(plan).(builds := old(plan).builds[c := AllLiteral(w, c)]);
              plan == p.(compress := p.compress[i := Compress(c, how)])
    {
      hide Caused, PassesHold;
      ghost var mid := plan;
      if !wanted {
        plan := plan.(builds := plan.builds[c := AllLiteral(w, c)]);
        LiteralEntered(w, truth, mid, plan, c);
        CausedGrows(w, passes, mid, plan, halted);
        OnlyUnderKid(w, mid, plan, c, i);
        OnlyUnderChains(w, was, mid, plan, i);
      }
      mid := plan;
      plan := plan.(compress := plan.compress[i := Compress(c, how)]);
      CompressEntered(w, truth, mid, plan, i, how);
      CausedGrows(w, passes, mid, plan, halted);
      OnlyUnderChains(w, was, mid, plan, i);
    }

    // ------------------------------------------------------------- erofs images

    /** An erofs image: its build stays, though no child was spliced, for as long as a pass may still
        add to it. */
    method PlanImage(i: nat) returns (ok: bool)
      requires Valid() && IsMember(w, i) && Fresh(w, plan, i) && Unreferenced(plan, i)
      modifies this`plan, this`halted
      ensures Valid() && OnlyUnder(w, old(plan), plan, i)
      ensures ok ==> i in plan.builds && (i == plan.root || exists s :: s in plan.builds[i].segs && !s.Gap?)
      ensures !ok ==> NoEntry(plan, i)
      ensures i == old(plan).root && Nameable(w.members[i]) && HomeOf(w, i).Some? ==> ok || halted
      ensures SureImage(i) ==> ok && StackedNow(i)
      ensures Single(w, sourcesOf, i) ==> BookedAs(old(plan), i) && (ScanOn(i, old(plan)).Panics? ==> halted)
      ensures Opens(old(plan), i) ==> ok && StandsAs(old(plan), i)
      ensures i !in plan.compress
      ensures (Here(), ok) == ImageOf(Asks(), old(Here()), i)
      decreases Below(i), 3
    {
      hide ErofsOf, RemovedOf, BuildOf, Takes, TakenTo, AllPieces, SplicedTo, RefersToRangesOnly, KidsFreshFrom, UnrangedFresh, SourcesFresh, BareBuild;
      hide Sure, Stacked, Caused, Sound, PassesHold, Unchanged, Fresh, OnlyUnder, Unreferenced, MappedIn, SelfOverlaps, Single, SingleStands,
           SingleOpens, Shelf, Shelved, NoRanged;
      ghost var was := plan;
      FreshKids(w, truth, plan, i);
      var fired;
      ghost var accepted;
      ok, fired, accepted := PlanBuildInner(i, true);
      SureHasNoRanged(i, accepted);
      if ok {
        NoSourceIsRanged(was, i);
        BareIfNone(i, accepted);
        ok := FinishImage(was, i);
        BuiltIsNotCompressed(i);
      }
    }

    lemma BareIfNone(i: nat, accepted: seq<nat>)
      requires i < |w.members| && i in plan.builds && HomeOf(w, i).Some? && plan.builds[i].runs == HomeOf(w, i).value.1
      requires accepted == [] ==> NonGaps(plan.builds[i].segs) == []
      ensures accepted == [] ==> BareBuild(plan, i)
    {
    }

    lemma BuiltIsNotCompressed(i: nat)
      requires Valid()
      ensures i in plan.builds ==> i !in plan.compress
    {
    }

    ghost function FinishedOf(built: Now, i: nat): (Now, bool)
      requires IsMember(w, i)
    {
      var done := ErofsOf(Asks(), built, i);
      if i in done.plan.builds && NonGaps(done.plan.builds[i].segs) == [] && i != done.plan.root
      then (done.(plan := RemovedOf(w, done.plan, i)), false) else (done, true)
    }

    /** The passes over an image whose ranged children are spliced; it goes if it is left with nothing. */
    method FinishImage(ghost was: Plan, i: nat) returns (ok: bool)
      requires Valid() && IsMember(w, i) && i in plan.builds && RefersToRangesOnly(w, plan, i) && SourcesFresh(i, 0)
      requires Sound(w, truth, was) && OnlyUnder(w, was, plan, i) && Unreferenced(was, i)
      modifies this`plan, this`halted
      ensures Valid() && OnlyUnder(w, was, plan, i)
      ensures ok ==> i in plan.builds && (i == plan.root || exists s :: s in plan.builds[i].segs && !s.Gap?)
      ensures !ok ==> NoEntry(plan, i) && i != was.root
      ensures SureImage(i) && BareBuild(old(plan), i) ==> ok && StackedNow(i)
      ensures Single(w, sourcesOf, i) && BareBuild(old(plan), i) ==> BookedAs(old(plan), i) && (ScanOn(i, old(plan)).Panics? ==> halted)
      ensures Opens(old(plan), i) && BareBuild(old(plan), i) ==> ok && StandsAs(old(plan), i)
      ensures (Here(), ok) == FinishedOf(old(Here()), i)
      decreases Below(i), 2, 2
    {
      hide ErofsOf, RemovedOf;
      hide Sure, Stacked, Caused, Sound, PassesHold, Unchanged, Fresh, OnlyUnder, Unreferenced, MappedIn, SelfOverlaps, BareBuild, Single,
           SingleStands, SingleOpens;
      ghost var mid := plan;
      PlanErofs(i);
      if Opens(mid, i) && BareBuild(mid, i) {
        StandingHasSegs(mid, i);
      }
      if StackedNow(i) {
        StackedHasSegs(i);
      }
      OnlyUnderChains(w, was, mid, plan, i);
      SameRoot(was, plan, i);
      if NonGaps(plan.builds[i].segs) == [] && i != plan.root {
        mid := plan;
        StillUnreferenced(w, truth, was, plan, i);
        RemoveSubtree(i);
        OnlyUnderChains(w, was, mid, plan, i);
        return false;
      }
      ok := true;
      NonGapsElements(plan.builds[i].segs);
      assert NonGaps(plan.builds[i].segs) != [] ==> NonGaps(plan.builds[i].segs)[0] in NonGaps(plan.builds[i].segs);
    }

    /** Children without extents are no business of the splice. */
    lemma NoSourceIsRanged(was: Plan, i: nat)
      requires Valid() && IsMember(w, i) && Fresh(w, was, i) && UnrangedFresh(was, i)
      ensures SourcesFresh(i, 0)
    {
      FreshKidsOf(was, i);
    }

    lemma FreshKidsOf(was: Plan, i: nat)
      requires Unchanged(w, truth) && IsMember(w, i) && Fresh(w, was, i)
      ensures forall c: nat :: IsKid(w, i, c) ==> Fresh(w, was, c)
    {
      FreshKids(w, truth, was, i);
    }

    lemma SameRoot(was: Plan, now: Plan, i: nat)
      requires OnlyUnder(w, was, now, i)
      ensures was.root == now.root
    {
    }

    lemma MappedHasExtents(i: nat, c: nat)
      requires IsKid(w, i, c) && MappedIn(w, i, c).Some?
      ensures w.members[c].extents.Some? && HomeOf(w, i).Some?
    {
    }

    ghost predicate NoRanged(i: nat) {
      forall d: nat :: IsKid(w, i, d) ==> w.members[d].extents.None?
    }

    lemma SureHasNoRanged(i: nat, accepted: seq<nat>)
      requires forall c :: c in accepted ==> IsKid(w, i, c) && MappedIn(w, i, c).Some?
      ensures SureImage(i) || Single(w, sourcesOf, i) ==> accepted == [] && NoRanged(i) && Nameable(w.members[i]) && HomeOf(w, i).Some?
    {
      if accepted != [] {
        MappedHasExtents(i, accepted[0]);
      }
    }

    lemma StandingHasSegs(was: Plan, i: nat)
      requires StandsAs(was, i)
      ensures i in plan.builds && NonGaps(plan.builds[i].segs) != []
    {
      var s :| s in plan.builds[i].segs && SlicesAs(plan, sourcesOf(i)[0], ScanOn(i, was).found[0], s);
      NonGapsElements(plan.builds[i].segs);
    }

    lemma StackedHasSegs(i: nat)
      requires StackedNow(i)
      ensures i in plan.builds && NonGaps(plan.builds[i].segs) != []
    {
      var s :| s in plan.builds[i].segs && sourcesOf(i)[0] in SegTabled(plan.pclusters, s);
      NonGapsElements(plan.builds[i].segs);
    }

    /** Child `c` of image `i` enters the plan if its bytes can be fetched, for the passes to slice. */
    method PlanSource(i: nat, c: nat) returns (wanted: bool)
      requires Valid() && IsKid(w, i, c) && Nameable(w.members[c]) && Fresh(w, plan, c) && Unreferenced(plan, c)
      modifies this`plan, this`halted
      ensures Valid() && OnlyUnder(w, old(plan), plan, c)
      ensures wanted ==> Fetchable(w, plan, c)
      ensures SureSource(c) ==> wanted && Leading(c)
      ensures Claimed(w, c) ==> Here() == old(Here())
      ensures (Here(), wanted) == SourceOf(Asks(), old(Here()), i, c)
      decreases Below(i), 0
    {
      hide Sure, Stacked, NodeOf, ExtractOf, SubtreeFetchable;
      assert Under(w, c, c);
      wanted := Claimed(w, c);
      if !wanted {
        wanted := PlanExtract(c);
        if !wanted && SubtreeFetchable(w, c) {
          GoesDown(w, truth, i, c);
          RoomBelow(w, truth, i, c);
          wanted := PlanNode(c);
        }
      }
    }

    ghost predicate SureSource(c: nat) {
      Claimed(w, c) || (c < |w.evidence| && w.evidence[c].archive.None? && SubtreeFetchable(w, c) && SureImage(c))
    }

    /** Sources being planned: the image's own build stands as it was, what is planned leads
        somewhere, and the sources from the `k`-th on are untouched. */
    ghost predicate Sourcing(was: Plan, i: nat, planned: seq<nat>, k: nat)
      reads this
    {
      && Valid() && IsMember(w, i) && i in was.builds && OnlyUnder(w, was, plan, i) && SameEntry(was, plan, i)
      && RefersToRangesOnly(w, plan, i)
      && (forall c :: c in planned ==> IsKid(w, i, c) && w.members[c].extents.None? && Fetchable(w, plan, c))
      && (forall c :: c in planned ==> c in sourcesOf(i)[..Min(k, |sourcesOf(i)|)])
      && SourcesFresh(i, k)
    }

    ghost predicate SourcesFresh(i: nat, k: nat)
      reads this
    {
      forall j :: k <= j < |sourcesOf(i)| ==> Fresh(w, plan, sourcesOf(i)[j])
    }

    /** The sources of image `i`, one after another. */
    method PlanSources(i: nat) returns (planned: seq<nat>)
      requires Valid() && IsMember(w, i) && i in plan.builds && RefersToRangesOnly(w, plan, i) && SourcesFresh(i, 0)
      modifies this`plan, this`halted
      ensures Sourcing(old(plan), i, planned, |sourcesOf(i)|)
      ensures SureImage(i) ==> planned == sourcesOf(i)[..1] && Leading(sourcesOf(i)[0])
      ensures Single(w, sourcesOf, i) ==> planned == sourcesOf(i) && plan == old(plan) && halted == old(halted)
      ensures (Here(), planned) == SourcesTo(Asks(), old(Here()), i, |sourcesOf(i)|)
      decreases Below(i), 2, 0
    {
      hide SourceOf, Sourcing, SureSource, StackedNow, Leading;
      hide Sure, Stacked, Caused, Sound, PassesHold, Unchanged, Fresh, RefersToRangesOnly, Single;
      ghost var was, start := plan, Here();
      var sources := sourcesOf(i);
      planned := [];
      SourcingStarts(i);
      for k := 0 to |sources|
        invariant Sourcing(was, i, planned, k)
        invariant (Here(), planned) == SourcesTo(Asks(), start, i, k)
        invariant k == 0 ==> planned == [] && plan == was
        invariant k == 1 && SureImage(i) ==> planned == sources[..1] && Leading(sources[0])
        invariant k == 1 && Single(w, sourcesOf, i) ==> planned == sources[..1] && plan == was && halted == start.halted
      {
        if SureImage(i) {
          SureSources(i);
        }
        SingleSource(i);
        planned := SourceStep(was, i, planned, k);
      }
      if SureImage(i) {
        SureSources(i);
      }
      SingleSource(i);
      assert Single(w, sourcesOf, i) ==> sourcesOf(i)[..1] == sourcesOf(i);
    }

    lemma SourcingStarts(i: nat)
      requires Valid() && IsMember(w, i) && i in plan.builds && RefersToRangesOnly(w, plan, i) && SourcesFresh(i, 0)
      ensures Sourcing(plan, i, [], 0)
    {
      assert OnlyUnder(w, plan, plan, i);
    }

    /** Plan the compressed bulk of image `i`: sources first, then what the passes found. */
    method PlanErofs(i: nat)
      requires Valid() && IsMember(w, i) && i in plan.builds && RefersToRangesOnly(w, plan, i) && SourcesFresh(i, 0)
      modifies this`plan, this`halted
      ensures Valid() && OnlyUnder(w, old(plan), plan, i) && i in plan.builds
      ensures SureImage(i) && BareBuild(old(plan), i) ==> StackedNow(i)
      ensures Single(w, sourcesOf, i) ==> BookedAs(old(plan), i) && (ScanOn(i, old(plan)).Panics? ==> halted)
      ensures Opens(old(plan), i) && BareBuild(old(plan), i) ==> StandsAs(old(plan), i)
      ensures Here() == ErofsOf(Asks(), old(Here()), i)
      decreases Below(i), 2, 1
    {
      hide SourcesTo, ScannedOf, SourcesFresh;
      hide Sure, Stacked, Caused, Sound, PassesHold, Unchanged, Fresh, Opening, StandsFor, RefersToRangesOnly, Single, SingleStands, SingleOpens,
           Booked;
      ghost var was := plan;
      var planned := PlanSources(i);
      ghost var mid := plan;
      SingleSource(i);
      if Single(w, sourcesOf, i) {
        ScanIsSingle(was, i, planned);
        if Opens(was, i) && BareBuild(was, i) {
          SingleIsOpening(was, i);
        }
      }
      assert i < |truth| by { PassesHere(i); }
      ScanIsTrue(i, SetOf(planned), plan.literals);
      ApplyScan(i, planned, passes(i, SetOf(planned), plan.literals));
      OnlyUnderChains(w, was, mid, plan, i);
      if SureImage(i) && BareBuild(was, i) {
        SureSources(i);
        SureIsStacked(was, mid, i, planned);
      }
      if Opens(was, i) && BareBuild(was, i) {
        SingleNowStands(was, i);
      }
    }

    lemma ScanIsSingle(was: Plan, i: nat, planned: seq<nat>)
      requires Single(w, sourcesOf, i) && planned == sourcesOf(i)
      ensures passes(i, SetOf(planned), was.literals) == ScanOn(i, was)
    {
      assert SetOf(planned) == {sourcesOf(i)[0]};
    }

    lemma SingleSource(i: nat)
      ensures Single(w, sourcesOf, i) ==> |sourcesOf(i)| == 1 && Claimed(w, sourcesOf(i)[0]) && SureSource(sourcesOf(i)[0])
    {
    }

    lemma SingleIsOpening(was: Plan, i: nat)
      requires Opens(was, i) && BareBuild(was, i)
      ensures ScanOn(i, was).Scanned? && Opening(was, i, sourcesOf(i), ScanOn(i, was).found)
    {
    }

    lemma SingleNowStands(was: Plan, i: nat)
      requires |sourcesOf(i)| == 1 && ScanOn(i, was).Scanned? && ScanOn(i, was).found != []
      requires StandsFor(plan, i, sourcesOf(i)[0], ScanOn(i, was).found[0])
      ensures StandsAs(was, i)
    {
    }

    /** The build of an image without ranged children: nothing but gaps, over its own runs. */
    predicate BareBuild(p: Plan, i: nat) {
      i < |w.members| && i in p.builds && NonGaps(p.builds[i].segs) == [] && HomeOf(w, i).Some? && p.builds[i].runs == HomeOf(w, i).value.1
    }

    lemma PassesHere(i: nat)
      requires Valid() && IsMember(w, i)
      ensures forall k :: 0 <= k < |sourcesOf(i)| ==> SourceKid(w, i, sourcesOf(i)[k])
      ensures i < |truth|
    {
    }

    lemma ScanIsTrue(i: nat, s: set<nat>, l: Bytes)
      requires Valid() && i < |truth|
      ensures ScanHolds(w, truth, i, s, l, passes(i, s, l))
    {
    }

    lemma SureSources(i: nat)
      requires SureImage(i)
      ensures |sourcesOf(i)| == 1 && SureSource(sourcesOf(i)[0]) && IsKid(w, i, sourcesOf(i)[0])
    {
    }

    lemma SureIsStacked(was: Plan, mid: Plan, i: nat, planned: seq<nat>)
      requires SureImage(i) && BareBuild(was, i)
      requires SameEntry(was, mid, i) && |sourcesOf(i)| == 1 && planned == sourcesOf(i) && mid.pclusters <= plan.pclusters
      requires var scan := passes(i, SetOf(planned), mid.literals);
               scan.Scanned? && Opening(mid, i, planned, scan.found) ==>
                 StandsFor(plan, i, planned[0], scan.found[0]) && forall x: nat :: x != i ==> SameEntry(mid, plan, x)
      requires Claimed(w, planned[0]) || Stacked(w, sourcesOf, passes, mid, planned[0])
      requires Unchanged(w, truth)
      ensures StackedNow(i)
    {
      hide StandsFor, HasPlace;
      var c := planned[0];
      var scan := passes(i, SetOf(planned), mid.literals);
      assert c in SetOf(planned) && OpensWith(w, i, c, scan);
      assert Opening(mid, i, planned, scan.found);
      StandingSlices(w, passes, plan, i, c, SetOf(planned), mid.literals);
      LeadingKept(mid, i, c);
      assert MemberTrue(w, truth, c);
    }

    method SourceStep(ghost was: Plan, i: nat, planned: seq<nat>, k: nat) returns (more: seq<nat>)
      requires Sourcing(was, i, planned, k) && k < |sourcesOf(i)|
      modifies this`plan, this`halted
      ensures Sourcing(was, i, more, k + 1)
      ensures SureSource(sourcesOf(i)[k]) ==> more == planned + [sourcesOf(i)[k]] && Leading(sourcesOf(i)[k])
      ensures Claimed(w, sourcesOf(i)[k]) ==> Here() == old(Here())
      ensures IsMember(w, sourcesOf(i)[k])
      ensures var (now, wanted) := SourceOf(Asks(), old(Here()), i, sourcesOf(i)[k]);
              Here() == now && more == if wanted then planned + [sourcesOf(i)[k]] else planned
      decreases Below(i), 1
    {
      hide Sure, Stacked, SourceOf;
      var c := sourcesOf(i)[k];
      ghost var mid := plan;
      SourceUnreferenced(w, truth, plan, i, c);
      var wanted := PlanSource(i, c);
      SourceDone(was, mid, i, planned, k);
      more := if wanted then planned + [c] else planned;
      if wanted {
        SourceKept(was, i, planned, k);
      }
    }

    lemma SourceKept(was: Plan, i: nat, planned: seq<nat>, k: nat)
      requires Sourcing(was, i, planned, k + 1) && k < |sourcesOf(i)| && Fetchable(w, plan, sourcesOf(i)[k])
      ensures Sourcing(was, i, planned + [sourcesOf(i)[k]], k + 1)
    {
      hide Sound, OnlyUnder, Fresh, RefersToRangesOnly;
      assert sourcesOf(i)[..k + 1][k] == sourcesOf(i)[k];
    }

    lemma SourceDone(was: Plan, mid: Plan, i: nat, planned: seq<nat>, k: nat)
      requires Valid() && IsMember(w, i) && k < |sourcesOf(i)| && i in was.builds
      requires Sound(w, truth, mid) && OnlyUnder(w, was, mid, i) && SameEntry(was, mid, i) && RefersToRangesOnly(w, mid, i)
      requires forall c :: c in planned ==> IsKid(w, i, c) && w.members[c].extents.None? && Fetchable(w, mid, c)
      requires forall c :: c in planned ==> c in sourcesOf(i)[..k]
      requires forall j :: k <= j < |sourcesOf(i)| ==> Fresh(w, mid, sourcesOf(i)[j])
      requires OnlyUnder(w, mid, plan, sourcesOf(i)[k])
      ensures Sourcing(was, i, planned, k + 1)
    {
      hide PlanHolds, Rooted, Under;
      var c := sourcesOf(i)[k];
      OnlyUnderKid(w, mid, plan, c, i);
      OnlyUnderChains(w, was, mid, plan, i);
      RangesOnlyKept(w, truth, mid, plan, i);
      forall d | d in planned
        ensures Fetchable(w, plan, d) && d in sourcesOf(i)[..k + 1]
      {
        var j :| 0 <= j < k && sourcesOf(i)[j] == d;
        assert sourcesOf(i)[..k + 1][j] == d;
        SiblingStaysFresh(w, mid, plan, c, d, i);
      }
      forall j | k + 1 <= j < |sourcesOf(i)|
        ensures Fresh(w, plan, sourcesOf(i)[j])
      {
        SiblingStaysFresh(w, mid, plan, c, sourcesOf(i)[j], i);
      }
    }

    /** What a scan found goes into the plan, and sources planned for it that it did not use go out. */
    method ApplyScan(i: nat, planned: seq<nat>, scan: Scan)
      requires Valid() && IsMember(w, i) && i in plan.builds && RefersToRangesOnly(w, plan, i)
      requires forall c :: c in planned ==> IsKid(w, i, c) && w.members[c].extents.None? && Fetchable(w, plan, c)
      requires ScanHolds(w, truth, i, SetOf(planned), plan.literals, scan) && scan == passes(i, SetOf(planned), plan.literals)
      modifies this`plan, this`halted
      ensures Valid() && OnlyUnder(w, old(plan), plan, i) && i in plan.builds
      ensures scan.Scanned? && Opening(old(plan), i, planned, scan.found) ==>
                StandsFor(plan, i, planned[0], scan.found[0]) && forall x: nat :: x != i ==> SameEntry(old(plan), plan, x)
      ensures LedgerOf(plan) == Booked(scan, LedgerOf(old(plan)))
      ensures halted <==> old(halted) || scan.Panics?
      ensures Here() == ScannedOf(w, old(Here()), i, planned, scan)
    {
      hide PassesHold, Opening, StandsFor, Unchanged, Sound, FoundOf, LostOf;
      match scan {
        case Refused =>
        case SpoolLost(files) =>
          EnterLost(i, planned, files);
        case Panics =>
          halted := true;
        case Scanned(found, literals) =>
          ApplyFound(i, planned, found, literals);
      }
    }

    /** The sweep failed: what the file pass found is in the pcluster table, where nothing uses it, and the
        spool is gone. */
    method EnterLost(i: nat, planned: seq<nat>, files: seq<Found>)
      requires Valid() && IsMember(w, i) && passes(i, SetOf(planned), plan.literals) == SpoolLost(files)
      modifies this`plan
      ensures Valid() && OnlyUnder(w, old(plan), plan, i) && (i in old(plan).builds ==> i in plan.builds)
      ensures plan == old(plan).(pclusters := old(plan).pclusters + NodesIn(files), drops := old(plan).drops + [|old(plan).literals|])
      ensures plan == LostOf(old(plan), files)
    {
      hide PassesHold, Unchanged, Sound, Caused;
      ghost var was := plan;
      var pcs, _ := EnterFound(plan.pclusters, files);
      plan := plan.(pclusters := pcs, drops := plan.drops + [|plan.literals|]);
      GrowthKeepsSound(w, truth, was, plan);
      CausedLoses(w, passes, was, plan, halted, i, SetOf(planned));
    }

    method ApplyFound(i: nat, planned: seq<nat>, found: seq<Found>, literals: Bytes)
      requires Valid() && IsMember(w, i) && i in plan.builds && RefersToRangesOnly(w, plan, i)
      requires forall c :: c in planned ==> IsKid(w, i, c) && w.members[c].extents.None? && Fetchable(w, plan, c)
      requires ScanHolds(w, truth, i, SetOf(planned), plan.literals, Scanned(found, literals))
      modifies this`plan
      ensures Valid() && OnlyUnder(w, old(plan), plan, i) && i in plan.builds
      ensures Opening(old(plan), i, planned, found) ==>
                StandsFor(plan, i, planned[0], found[0]) && forall x: nat :: x != i ==> SameEntry(old(plan), plan, x)
      ensures LedgerOf(plan) == Ledger(old(plan).pclusters + NodesIn(found), literals, old(plan).drops)
      ensures plan == FoundOf(w, old(plan), i, planned, found, literals)
    {
      hide Caused, PassesHold, Sound, Unchanged, ScanHolds, Opening, StandsFor, SplicedIn, DroppedTo, EnteredSegs;
      ghost var was := plan;
      var segs := EnterScan(i, planned, found, literals);
      var keep := TabledOf(plan.pclusters, segs);
      if Opening(was, i, planned, found) {
        OpeningIsKept(was, plan, i, planned, found, segs);
      }
      DropUnused(was, i, keep, planned, segs);
      if segs != [] {
        ghost var mid := plan;
        SpliceTabled(i, keep, segs);
        OnlyUnderChains(w, was, mid, plan, i);
        if Opening(was, i, planned, found) {
          OpeningStands(was, mid, plan, i, planned, found, segs);
          OthersStand(was, mid, plan, i);
        }
      }
    }

    method EnterScan(i: nat, planned: seq<nat>, found: seq<Found>, literals: Bytes) returns (segs: seq<Seg>)
      requires Valid() && IsMember(w, i) && i in plan.builds && RefersToRangesOnly(w, plan, i)
      requires forall c :: c in planned ==> IsKid(w, i, c) && w.members[c].extents.None? && Fetchable(w, plan, c)
      requires ScanHolds(w, truth, i, SetOf(planned), plan.literals, Scanned(found, literals))
      modifies this`plan
      ensures Dropping(old(plan), i, segs)
      ensures |segs| == |found| && forall k :: 0 <= k < |found| ==> Enters(plan.pclusters, found[k], segs[k])
      ensures plan == old(plan).(pclusters := old(plan).pclusters + NodesIn(found), literals := literals)
      ensures segs == EnteredSegs(|old(plan).pclusters|, found)
    {
      hide Caused, PassesHold, FoundHolds;
      ghost var was := plan;
      var pcs;
      pcs, segs := EnterFound(plan.pclusters, found);
      plan := plan.(pclusters := pcs, literals := literals);
      NodesEntered(was, i, planned, found, segs);
    }

    /** The findings go into the build, and each member they slice becomes a fetched source. */
    method SpliceTabled(i: nat, keep: set<nat>, segs: seq<Seg>)
      requires Valid() && IsMember(w, i) && i in plan.builds && AllImageSegs(w, truth, plan, i, segs)
      modifies this`plan
      ensures Valid() && OnlyUnder(w, old(plan), plan, i) && i in plan.builds
      ensures plan == old(plan).(tabled := plan.tabled, builds := old(plan).builds[i := plan.builds[i]])
      ensures plan == SplicedIn(old(plan).(tabled := old(plan).tabled + keep), i, segs)
      ensures var b := old(plan).builds[i];
              NonGaps(plan.builds[i].segs) == SortByAt(Accepted(b.runs, NonGaps(b.segs), segs))
    {
      hide TiledFrom;
      hide Sound, PassesHold, Unchanged, Under, Caused, AllImageSegs, SortByAt, Accepted, NonGaps, OnlyUnder;
      ghost var was := plan;
      plan := plan.(tabled := plan.tabled + keep);
      GrowthKeepsSound(w, truth, was, plan);
      CausedGrows(w, passes, was, plan, halted);
      ghost var mid := plan;
      SameSegsHold(was, i, segs);
      SpliceIn(i, segs);
      TabledChains(was, mid, i);
    }

    lemma SameSegsHold(was: Plan, i: nat, segs: seq<Seg>)
      requires AllImageSegs(w, truth, was, i, segs) && plan == was.(tabled := plan.tabled)
      ensures AllImageSegs(w, truth, plan, i, segs)
    {
      forall s | s in segs
        ensures ImageSeg(w, truth, plan, i, s)
      {
        assert ImageSeg(w, truth, was, i, s);
      }
    }

    lemma TabledChains(was: Plan, mid: Plan, i: nat)
      requires mid == was.(tabled := mid.tabled) && OnlyUnder(w, mid, plan, i)
      ensures OnlyUnder(w, was, plan, i)
    {
      OnlyUnderChains(w, was, mid, plan, i);
    }

    lemma NodesEntered(was: Plan, i: nat, planned: seq<nat>, found: seq<Found>, segs: seq<Seg>)
      requires Unchanged(w, truth) && PassesHold(w, truth, sourcesOf, passes) && Caused(w, passes, was, halted)
      requires Sound(w, truth, was) && i < |truth| && i in was.builds && RefersToRangesOnly(w, was, i)
      requires Grown(was, plan) && plan == was.(pclusters := plan.pclusters, literals := plan.literals)
      requires |segs| == |found| && forall k :: 0 <= k < |found| ==> Enters(plan.pclusters, found[k], segs[k])
      requires forall x :: x in found ==> FoundHolds(w, truth, i, SetOf(planned), plan.literals, x)
      requires forall c :: c in planned ==> IsKid(w, i, c) && Fetchable(w, was, c)
      ensures Valid() && OnlyUnder(w, was, plan, i) && RefersToRangesOnly(w, plan, i)
      ensures AllImageSegs(w, truth, plan, i, segs)
    {
      hide PlanHolds, PassesHold, Rooted, Unchanged, FoundHolds, NodeHolds;
      CausedGrows(w, passes, was, plan, halted);
      GrowthKeepsSound(w, truth, was, plan);
      RangesOnlyKept(w, truth, was, plan, i);
      FoundAreImageSegs(w, truth, plan, i, SetOf(planned), found, segs);
    }

    /** A source planned for the scan goes when no finding rests on it. */
    method DropUnused(ghost was: Plan, i: nat, keep: set<nat>, planned: seq<nat>, segs: seq<Seg>)
      requires Dropping(was, i, segs) && keep == TabledOf(plan.pclusters, segs)
      requires forall c :: c in planned ==> IsKid(w, i, c) && w.members[c].extents.None?
      modifies this`plan
      ensures Dropping(was, i, segs)
      ensures LedgerOf(plan) == LedgerOf(old(plan))
      ensures SetOf(planned) <= keep ==> plan == old(plan)
      ensures plan == DroppedTo(w, old(plan), old(plan), keep, planned, |planned|)
    {
      hide Dropping, RemovedOf, ReferencedByPlan, TabledOf;
      var before := plan;
      for k := 0 to |planned|
        invariant plan == DroppedTo(w, before, before, keep, planned, k)
        invariant Dropping(was, i, segs) && LedgerOf(plan) == LedgerOf(before)
        invariant SetOf(planned) <= keep ==> plan == before
      {
        var c := planned[k];
        if c !in keep && c !in before.tabled && !ReferencedByPlan(before, c) {
          DropOne(was, i, c, segs);
        }
      }
    }

    method DropOne(ghost was: Plan, i: nat, c: nat, ghost segs: seq<Seg>)
      requires Dropping(was, i, segs) && IsKid(w, i, c) && w.members[c].extents.None? && c !in TabledOf(plan.pclusters, segs)
      modifies this`plan
      ensures Dropping(was, i, segs) && LedgerOf(plan) == LedgerOf(old(plan)) && plan == RemovedOf(w, old(plan), c)
    {
      hide Caused, PassesHold, RemovedOf, TabledOf;
      ghost var mid := plan;
      SourceUnreferenced(w, truth, plan, i, c);
      RemoveSubtree(c);
      Dropped(was, mid, i, c, segs);
    }

    ghost predicate Dropping(was: Plan, i: nat, segs: seq<Seg>)
      reads this
    {
      && Valid() && IsMember(w, i) && i in plan.builds && OnlyUnder(w, was, plan, i)
      && RefersToRangesOnly(w, plan, i) && AllImageSegs(w, truth, plan, i, segs)
    }

    lemma Dropped(was: Plan, mid: Plan, i: nat, c: nat, segs: seq<Seg>)
      requires Valid() && Sound(w, truth, mid) && i in mid.builds && OnlyUnder(w, was, mid, i)
      requires IsKid(w, i, c) && c !in TabledOf(mid.pclusters, segs)
      requires RefersToRangesOnly(w, mid, i) && AllImageSegs(w, truth, mid, i, segs)
      requires OnlyUnder(w, mid, plan, c) && SameTables(mid, plan)
      ensures Dropping(was, i, segs)
    {
      OnlyUnderKid(w, mid, plan, c, i);
      OnlyUnderChains(w, was, mid, plan, i);
      RangesOnlyKept(w, truth, mid, plan, i);
      DropKeepsImageSegs(w, truth, mid, plan, i, c, segs);
    }

    /** New segments join a build that is planned already. Earlier ones keep their place, a new one
        that overlaps is left out, the gaps are laid anew, and the tiling assertion cannot fire. */
    method SpliceIn(i: nat, extra: seq<Seg>)
      requires Valid() && IsMember(w, i) && i in plan.builds && AllImageSegs(w, truth, plan, i, extra)
      modifies this`plan
      ensures Valid() && OnlyUnder(w, old(plan), plan, i) && i in plan.builds
      ensures plan == old(plan).(builds := old(plan).builds[i := plan.builds[i]])
      ensures plan == SplicedIn(old(plan), i, extra)
      ensures var b := old(plan).builds[i];
              NonGaps(plan.builds[i].segs) == SortByAt(Accepted(b.runs, NonGaps(b.segs), extra))
    {
      hide Caused, PassesHold, TiledFrom;
      ghost var was := plan;
      var b := plan.builds[i];
      StandingSegs(w, truth, plan, i);
      EntrySegLens(w, truth, plan, i, b.space, NonGaps(b.segs));
      var segs := AcceptExtra(b.runs, NonGaps(b.segs), extra);
      AcceptedAreEntrySegs(w, truth, plan, i, b.space, b.runs, NonGaps(b.segs), extra);
      EntrySegLens(w, truth, plan, i, b.space, segs);
      var tiled := SortAndTile(segs, RunsLen(b.runs));
      plan := plan.(builds := plan.builds[i := b.(segs := tiled.value)]);
      BuildEntered(w, truth, was, plan, i, b.space, segs);
      CausedGrows(w, passes, was, plan, halted);
    }

    // ------------------------------------------------------------- splice builds

    /** A splice under way: the first `j` children are dealt with; the pieces of those accepted are
        true, lead somewhere and are known to the interval set, and two pieces overlap only if one of
        the accepted maps onto itself; the other children are untouched. */
    ghost predicate Splicing(was: Plan, i: nat, space: nat, segs: seq<Seg>, ends: map<nat, nat>, j: nat, accepted: seq<nat>)
      reads this
    {
      && Valid() && IsMember(w, i) && NoEntry(plan, i) && OnlyUnder(w, was, plan, i) && space in w.spaces
      && j <= |w.kids[i]|
      && Books(ends, segs) && Clashing(i, segs, accepted)
      && (forall s :: s in segs ==> SplicedKid(w, truth, plan, i, space, s) && s.idx in w.kids[i][..j])
      && KidsFreshFrom(w, plan, i, j)
      && UnrangedFresh(was, i)
    }

    ghost predicate Clashing(i: nat, segs: seq<Seg>, accepted: seq<nat>) {
      && (forall c :: c in accepted ==> IsKid(w, i, c) && MappedIn(w, i, c).Some?) && (accepted == [] ==> segs == [])
      && (AllApart(segs) <==> forall c :: c in accepted ==> !SelfOverlaps(w, i, c))
    }

    /** Children without extents are as fresh as they were. */
    ghost predicate UnrangedFresh(was: Plan, i: nat)
      reads this
    {
      forall c: nat :: IsKid(w, i, c) && w.members[c].extents.None? && Fresh(w, was, c) ==> Fresh(w, plan, c)
    }

    /** The children of `i`, one after another. */
    method SpliceKids(i: nat, space: nat, runs: seq<Run>) returns (segs: seq<Seg>, dropped: nat, ghost ends: map<nat, nat>, ghost accepted: seq<nat>)
      requires Valid() && IsMember(w, i) && NoEntry(plan, i) && Unreferenced(plan, i) && KidsFreshFrom(w, plan, i, 0)
      requires HomeOf(w, i) == Some((space, runs)) && space in w.spaces && RunsHold(w.spaces[space], runs, truth[i])
      modifies this`plan, this`halted
      ensures Splicing(old(plan), i, space, segs, ends, |w.kids[i]|, accepted)
      ensures Valid() && NoEntry(plan, i) && OnlyUnder(w, old(plan), plan, i) && UnrangedFresh(old(plan), i)
      ensures NoRanged(i) ==> LedgerOf(plan) == LedgerOf(old(plan))
      ensures FirstClaimed(i) ==> w.kids[i][0] in accepted
      ensures Shelf(w, sourcesOf, i) && Opens(old(plan), w.kids[i][0]) ==> Shelving(old(plan), i, segs, |w.kids[i]|)
      ensures Spliced(Here(), segs, ends, dropped, accepted) == SplicedTo(Asks(), old(Here()), i, |w.kids[i]|)
      decreases Below(i), 2, 0
    {
      hide SplicedOne, HomeOf;
      hide Sure, Stacked, Caused, PassesHold, Sound, Unchanged, MappedIn, SelfOverlaps, Fresh, AllApart, Clashing, Single, SingleStands, SingleOpens,
           Shelf, Shelved, Booked;
      ghost var was, start := plan, Here();
      accepted := [];
      ShelfHasRoom(i);
      assert OnlyUnder(w, was, plan, i);
      segs, dropped := [], 0;
      var taken := new Intervals();
      NothingSpliced(was, i, space, taken.ends);
      for j := 0 to |w.kids[i]|
        invariant fresh(taken)
        invariant Splicing(was, i, space, segs, taken.ends, j, accepted)
        invariant NoRanged(i) ==> LedgerOf(plan) == LedgerOf(was)
        invariant j == 0 ==> segs == [] && accepted == [] && plan == was
        invariant FirstClaimed(i) && j > 0 ==> w.kids[i][0] in accepted
        invariant Shelf(w, sourcesOf, i) && Opens(was, w.kids[i][0]) ==> Shelving(was, i, segs, j)
        invariant Spliced(Here(), segs, taken.ends, dropped, accepted) == SplicedTo(Asks(), start, i, j)
      {
        ghost var mid, before := plan, segs;
        KidIsKid(i, j);
        ShelfHas(i, j);
        var fits;
        segs, fits, accepted := SpliceKid(was, i, j, space, runs, segs, taken, accepted, dropped);
        dropped := if fits then dropped else dropped + 1;
        if Shelf(w, sourcesOf, i) && Opens(was, w.kids[i][0]) {
          ShelvesOn(was, mid, i, before, segs, j);
        }
      }
      ends := taken.ends;
    }

    /** Splice member `i` from its ranged children. The tiling assertion fires exactly when one of the
        children it accepted maps onto itself. */
    method PlanBuildInner(i: nat, keepEmpty: bool) returns (ok: bool, fired: bool, ghost accepted: seq<nat>)
      requires Valid() && IsMember(w, i) && NoEntry(plan, i) && Unreferenced(plan, i) && KidsFreshFrom(w, plan, i, 0)
      modifies this`plan, this`halted
      ensures Valid() && OnlyUnder(w, old(plan), plan, i)
      ensures ok ==> i in plan.builds && RefersToRangesOnly(w, plan, i)
      ensures !ok ==> NoEntry(plan, i)
      ensures UnrangedFresh(old(plan), i)
      ensures (i == old(plan).root || keepEmpty) && Nameable(w.members[i]) && HomeOf(w, i).Some? ==> ok || fired
      ensures fired ==> halted
      ensures fired <==> exists c :: c in accepted && SelfOverlaps(w, i, c)
      ensures forall c :: c in accepted ==> IsKid(w, i, c) && MappedIn(w, i, c).Some?
      ensures ok ==> HomeOf(w, i).Some? && plan.builds[i].runs == HomeOf(w, i).value.1
      ensures ok && accepted == [] ==> NonGaps(plan.builds[i].segs) == []
      ensures ok ==> forall s :: s in plan.builds[i].segs ==> s.Gap? || s.Child?
      ensures NoRanged(i) ==> LedgerOf(plan) == LedgerOf(old(plan))
      ensures FirstClaimed(i) ==> w.kids[i][0] in accepted
      ensures Shelf(w, sourcesOf, i) && Opens(old(plan), w.kids[i][0]) ==>
                fired || (ok && Shelved(w, sourcesOf, passes, LedgerOf(old(plan)), plan, i))
      ensures (Here(), ok) == BuildOf(Asks(), old(Here()), i, keepEmpty)
      ensures Nameable(w.members[i]) && HomeOf(w, i).Some? && !fired ==>
                && accepted == TakenTo(Asks(), old(Here()), i, |w.kids[i]|)
                && forall j :: 0 <= j < |w.kids[i]| ==> (w.kids[i][j] in accepted <==> Takes(Asks(), old(Here()), i, j))
      ensures ok ==> NonGaps(plan.builds[i].segs) == SortByAt(AllPieces(w, i, accepted))
      decreases Below(i), 2, 2
    {
      hide SplicedTo, Takes, TakenTo, AllPieces;
      hide Sure, Stacked, Caused, PassesHold, Sound, Unchanged, MappedIn, SelfOverlaps, Fresh, AllApart, Clashing, Single, SingleStands, SingleOpens,
           Shelf, Shelved, Booked;
      accepted := [];
      ShelfHasRoom(i);
      if w.members[i].size < IDENTITY_MIN_BYTES || w.members[i].sha256.None? {
        return false, false, [];
      }
      var home := HomeOf(w, i);
      if home.None? {
        return false, false, [];
      }
      HomeHolds(w, truth, i);
      ok, fired, accepted := BuildFrom(i, keepEmpty, home.value.0, home.value.1);
    }

    /** The splice of a member big enough to name, whose bytes lie along `runs` of `space`. */
    method BuildFrom(i: nat, keepEmpty: bool, space: nat, runs: seq<Run>) returns (ok: bool, fired: bool, ghost accepted: seq<nat>)
      requires Valid() && IsMember(w, i) && NoEntry(plan, i) && Unreferenced(plan, i) && KidsFreshFrom(w, plan, i, 0) && Nameable(w.members[i])
      requires HomeOf(w, i) == Some((space, runs)) && space in w.spaces && RunsHold(w.spaces[space], runs, truth[i])
      modifies this`plan, this`halted
      ensures Valid() && OnlyUnder(w, old(plan), plan, i)
      ensures ok ==> i in plan.builds && RefersToRangesOnly(w, plan, i)
      ensures !ok ==> NoEntry(plan, i)
      ensures UnrangedFresh(old(plan), i)
      ensures i == old(plan).root || keepEmpty ==> ok || fired
      ensures fired ==> halted
      ensures fired <==> exists c :: c in accepted && SelfOverlaps(w, i, c)
      ensures forall c :: c in accepted ==> IsKid(w, i, c) && MappedIn(w, i, c).Some?
      ensures ok ==> plan.builds[i].runs == runs
      ensures ok && accepted == [] ==> NonGaps(plan.builds[i].segs) == []
      ensures ok ==> forall s :: s in plan.builds[i].segs ==> s.Gap? || s.Child?
      ensures NoRanged(i) ==> LedgerOf(plan) == LedgerOf(old(plan))
      ensures FirstClaimed(i) ==> w.kids[i][0] in accepted
      ensures Shelf(w, sourcesOf, i) && Opens(old(plan), w.kids[i][0]) ==>
                fired || (ok && Shelved(w, sourcesOf, passes, LedgerOf(old(plan)), plan, i))
      ensures (Here(), ok) == BuildOf(Asks(), old(Here()), i, keepEmpty)
      ensures !fired ==>
                && accepted == TakenTo(Asks(), old(Here()), i, |w.kids[i]|)
                && forall j :: 0 <= j < |w.kids[i]| ==> (w.kids[i][j] in accepted <==> Takes(Asks(), old(Here()), i, j))
      ensures ok ==> NonGaps(plan.builds[i].segs) == SortByAt(AllPieces(w, i, accepted))
      decreases Below(i), 2, 1
    {
      hide Takes, TakenTo, AllPieces;
      hide SplicedTo, SplicedOne, Splicing, UnrangedFresh, KidsFreshFrom, RefersToRangesOnly, SortByAt, TiledFrom, RunsHold, Opens, ShelvingAt;
      hide Sure, Stacked, Caused, PassesHold, Sound, Unchanged, MappedIn, SelfOverlaps, Fresh, AllApart, Clashing, Single, SingleStands, SingleOpens,
           Shelf, Shelved, Booked;
      ghost var was, start := plan, Here();
      var segs, dropped;
      ghost var ends;
      segs, dropped, ends, accepted := SpliceKids(i, space, runs);
      SplicingMaps(was, i, space, segs, ends, accepted);
      AcceptedHere(start, i, segs, accepted);
      if segs == [] && i != plan.root && !keepEmpty {
        NoShelfIsEmpty(was, i, segs);
        return false, false, accepted;
      }
      ghost var mid := plan;
      fired := EnterBuild(was, i, space, runs, segs, dropped, ends, accepted);
      ok := !fired;
      if ok {
        OnlyChildrenStand(segs, plan.builds[i].segs);
        NowShelved(was, mid, i, segs);
        NothingSorted(segs);
      }
    }

    lemma AcceptedHere(start: Now, i: nat, segs: seq<Seg>, accepted: seq<nat>)
      requires Unchanged(w, truth) && IsMember(w, i)
      requires var d := SplicedTo(Asks(), start, i, |w.kids[i]|); d.segs == segs && d.accepted == accepted
      ensures segs == AllPieces(w, i, accepted)
      ensures AllApart(segs) ==>
                && accepted == TakenTo(Asks(), start, i, |w.kids[i]|)
                && forall j :: 0 <= j < |w.kids[i]| ==> (w.kids[i][j] in accepted <==> Takes(Asks(), start, i, j))
    {
      hide SplicedTo, Takes, AllApart, TakenTo, AllPieces;
      SplicedAre(Asks(), truth, start, i, |w.kids[i]|);
      if AllApart(segs) {
        AcceptedAreTaken(Asks(), truth, start, i, |w.kids[i]|);
      }
    }

    lemma NothingSorted(segs: seq<Seg>)
      ensures segs == [] ==> SortByAt(segs) == []
    {
    }

    lemma SplicingMaps(was: Plan, i: nat, space: nat, segs: seq<Seg>, ends: map<nat, nat>, accepted: seq<nat>)
      requires IsMember(w, i) && Splicing(was, i, space, segs, ends, |w.kids[i]|, accepted)
      ensures forall c :: c in accepted ==> IsKid(w, i, c) && MappedIn(w, i, c).Some?
      ensures !AllApart(segs) <==> exists c :: c in accepted && SelfOverlaps(w, i, c)
      ensures accepted == [] ==> segs == []
      ensures segs == [] ==> !exists c :: c in accepted && SelfOverlaps(w, i, c)
      ensures forall s :: s in segs ==> s.Child?
    {
      AcceptedMap(was, i, space, segs, ends, accepted);
      ChildrenOnly(was, i, space, segs, ends, accepted);
    }

    lemma NoShelfIsEmpty(was: Plan, i: nat, segs: seq<Seg>)
      requires Unchanged(w, truth) && segs == []
      requires Shelf(w, sourcesOf, i) && Opens(was, w.kids[i][0]) ==> Shelving(was, i, segs, |w.kids[i]|)
      ensures !(Shelf(w, sourcesOf, i) && Opens(was, w.kids[i][0]))
    {
      if Shelf(w, sourcesOf, i) && Opens(was, w.kids[i][0]) {
        ShelfHasPieces(was, i, segs);
      }
    }

    /** The first child is claimed and has a place, so it is taken as it is. */
    predicate FirstClaimed(i: nat) {
      && i < |w.kids| && w.kids[i] != [] && i < |w.members| && w.kids[i][0] < |w.members|
      && Nameable(w.members[i]) && HomeOf(w, i).Some? && MappedIn(w, i, w.kids[i][0]).Some? && Claimed(w, w.kids[i][0])
    }

    /** The first `j` images of a shelf are planned, and the first stands. */
    ghost predicate Shelving(was: Plan, i: nat, segs: seq<Seg>, j: nat)
      reads this
    {
      ShelvingAt(was, plan, i, segs, j)
    }

    ghost predicate ShelvingAt(was: Plan, p: Plan, i: nat, segs: seq<Seg>, j: nat) {
      && i < |w.kids| && j <= |w.kids[i]| && i < |w.members|
      && LedgerOf(p) == ShelfLedger(sourcesOf, passes, w.kids[i], LedgerOf(was), j)
      && (j > 0 ==> w.kids[i][0] < |w.members| && MappedIn(w, i, w.kids[i][0]).Some? && MappedIn(w, i, w.kids[i][0]).value <= segs
                    && SingleStands(sourcesOf, p, w.kids[i][0], ScanOn(w.kids[i][0], was)))
    }

    lemma ShelfHasRoom(i: nat)
      ensures Shelf(w, sourcesOf, i) ==> i < |w.members| && Nameable(w.members[i]) && HomeOf(w, i).Some? && i < |w.kids| && w.kids[i] != []
    {
    }

    lemma ShelfHas(i: nat, j: nat)
      requires IsMember(w, i) && j < |w.kids[i]|
      ensures Shelf(w, sourcesOf, i) ==>
                OnShelf(w, sourcesOf, i, w.kids[i][j]) && w.kids[i][0] < |w.members| && MappedIn(w, i, w.kids[i][0]).Some?
    {
    }

    lemma KidIsKid(i: nat, j: nat)
      requires Unchanged(w, truth) && IsMember(w, i) && j < |w.kids[i]|
      ensures IsKid(w, i, w.kids[i][j]) && (j > 0 ==> IsKid(w, i, w.kids[i][0]) && w.kids[i][0] != w.kids[i][j])
    {
    }

    lemma ShelvesOn(was: Plan, mid: Plan, i: nat, before: seq<Seg>, segs: seq<Seg>, j: nat)
      requires IsMember(w, i) && j < |w.kids[i]| && IsKid(w, i, w.kids[i][j]) && w.kids[i][0] < |w.members| && MappedIn(w, i, w.kids[i][0]).Some?
      requires LedgerOf(mid) == ShelfLedger(sourcesOf, passes, w.kids[i], LedgerOf(was), j) && BookedAs(mid, w.kids[i][j])
      requires before <= segs && OnlyUnder(w, mid, plan, w.kids[i][j])
      requires j == 0 ==> mid == was && segs == MappedIn(w, i, w.kids[i][0]).value && StandsAs(was, w.kids[i][0])
      requires j > 0 ==> MappedIn(w, i, w.kids[i][0]).value <= before && SingleStands(sourcesOf, mid, w.kids[i][0], ScanOn(w.kids[i][0], was))
      requires j > 0 ==> IsKid(w, i, w.kids[i][0]) && w.kids[i][0] != w.kids[i][j]
      ensures Shelving(was, i, segs, j + 1)
    {
      hide MappedIn, Booked, SingleStands, StandsFor;
      if j > 0 {
        SiblingStaysFresh(w, mid, plan, w.kids[i][j], w.kids[i][0], i);
        StandsLonger(sourcesOf, mid, plan, w.kids[i][0], ScanOn(w.kids[i][0], was));
      }
    }

    lemma ShelfHasPieces(was: Plan, i: nat, segs: seq<Seg>)
      requires Unchanged(w, truth) && Shelf(w, sourcesOf, i) && Shelving(was, i, segs, |w.kids[i]|)
      ensures segs != []
    {
      FirstPieceIs(i, segs);
    }

    lemma ChildrenOnly(was: Plan, i: nat, space: nat, segs: seq<Seg>, ends: map<nat, nat>, accepted: seq<nat>)
      requires IsMember(w, i) && Splicing(was, i, space, segs, ends, |w.kids[i]|, accepted)
      ensures forall s :: s in segs ==> s.Child?
    {
    }

    lemma OnlyChildrenStand(segs: seq<Seg>, all: seq<Seg>)
      requires NonGaps(all) == SortByAt(segs) && forall s :: s in segs ==> s.Child?
      ensures forall s :: s in all ==> s.Gap? || s.Child?
      ensures forall s :: s in segs ==> s in all
    {
      NonGapsElements(all);
      SameElements(SortByAt(segs), segs);
      forall s | s in all
        ensures s.Gap? || s.Child?
      {
        assert !s.Gap? ==> s in NonGaps(all);
      }
    }

    lemma NowShelved(was: Plan, mid: Plan, i: nat, segs: seq<Seg>)
      requires Unchanged(w, truth) && i in plan.builds && plan == mid.(builds := mid.builds[i := plan.builds[i]])
      requires Shelf(w, sourcesOf, i) && Opens(was, w.kids[i][0]) ==> ShelvingAt(was, mid, i, segs, |w.kids[i]|)
      requires forall s :: s in segs ==> s in plan.builds[i].segs
      requires forall s :: s in plan.builds[i].segs ==> s.Gap? || s.Child?
      ensures Shelf(w, sourcesOf, i) && Opens(was, w.kids[i][0]) ==> Shelved(w, sourcesOf, passes, LedgerOf(was), plan, i)
    {
      hide SingleStands, SingleOpens, Booked;
      if Shelf(w, sourcesOf, i) && Opens(was, w.kids[i][0]) {
        var c := w.kids[i][0];
        assert IsKid(w, i, c);
        StandsLonger(sourcesOf, mid, plan, c, ScanOn(c, was));
        FirstPieceIs(i, segs);
      }
    }

    lemma FirstPieceIs(i: nat, segs: seq<Seg>)
      requires Unchanged(w, truth) && Shelf(w, sourcesOf, i) && MappedIn(w, i, w.kids[i][0]).value <= segs
      ensures exists s :: s in segs && s.Child? && s.idx == w.kids[i][0]
    {
      var c := w.kids[i][0];
      assert IsKid(w, i, c);
      assert MemberTrue(w, truth, c);
      var pieces := MappedIn(w, i, c).value;
      assert pieces[0] == segs[0] && segs[0] in segs && pieces[0].Child? && pieces[0].idx == c;
    }

    lemma NothingSpliced(was: Plan, i: nat, space: nat, ends: map<nat, nat>)
      requires Valid() && IsMember(w, i) && NoEntry(plan, i) && was == plan && space in w.spaces
      requires KidsFreshFrom(w, plan, i, 0) && ends == map[]
      ensures Splicing(was, i, space, [], ends, 0, [])
    {
    }

    /** No pieces, no children accepted; and pieces overlap exactly when a child maps onto itself. */
    lemma AcceptedMap(was: Plan, i: nat, space: nat, segs: seq<Seg>, ends: map<nat, nat>, accepted: seq<nat>)
      requires IsMember(w, i) && Splicing(was, i, space, segs, ends, |w.kids[i]|, accepted)
      ensures forall c :: c in accepted ==> IsKid(w, i, c) && MappedIn(w, i, c).Some?
      ensures !AllApart(segs) <==> exists c :: c in accepted && SelfOverlaps(w, i, c)
      ensures accepted == [] ==> segs == []
      ensures segs == [] ==> !exists c :: c in accepted && SelfOverlaps(w, i, c)
    {
    }

    /** Sort, tile and record the accepted pieces. The tiling assertion fires when two of them overlap. */
    method EnterBuild(ghost was: Plan, i: nat, space: nat, runs: seq<Run>, segs: seq<Seg>, dropped: nat, ghost ends: map<nat, nat>,
                      ghost accepted: seq<nat>)
      returns (fired: bool)
      requires IsMember(w, i) && Splicing(was, i, space, segs, ends, |w.kids[i]|, accepted) && Nameable(w.members[i])
      requires RunsHold(w.spaces[space], runs, truth[i])
      modifies this`plan, this`halted
      ensures Valid() && OnlyUnder(w, was, plan, i) && UnrangedFresh(was, i)
      ensures fired <==> !AllApart(segs)
      ensures fired ==> halted && plan == old(plan)
      ensures !fired ==> halted == old(halted) && i in plan.builds && i !in plan.compress
      ensures !fired ==> plan.builds[i].runs == runs && plan.builds[i].space == space && NonGaps(plan.builds[i].segs) == SortByAt(segs)
      ensures !fired ==> RefersToRangesOnly(w, plan, i) && plan == old(plan).(builds := old(plan).builds[i := plan.builds[i]])
      ensures !fired ==> plan.builds[i] == Build(TiledFrom(SortByAt(segs), 0, w.members[i].size), dropped, space, runs)
    {
      hide Rooted, SegHolds, PlanHolds, Tiles, AllApart, RunsHold, SortByAt, NonGaps, Fresh, OnlyUnder, SplicedKid, KidsFreshFrom, EntryRefers, Caused;
      KidSegsArePlaceable(w, truth, plan, i, space, segs);
      var tiled := SortAndTile(segs, w.members[i].size);
      ghost var mid := plan;
      if tiled.None? {
        SplicingFires(was, i, space, segs, ends, accepted);
        halted := true;
        return true;
      }
      plan := plan.(builds := plan.builds[i := Build(tiled.value, dropped, space, runs)]);
      SpliceRecorded(w, truth, was, mid, plan, i, space, segs);
      CausedGrows(w, passes, mid, plan, halted);
      fired := false;
    }

    lemma SplicingFires(was: Plan, i: nat, space: nat, segs: seq<Seg>, ends: map<nat, nat>, accepted: seq<nat>)
      requires IsMember(w, i) && Splicing(was, i, space, segs, ends, |w.kids[i]|, accepted) && !AllApart(segs)
      ensures SomeChildSelfOverlaps(w) && Caused(w, passes, plan, true)
    {
      hide AllApart, SelfOverlaps;
      var c :| c in accepted && SelfOverlaps(w, i, c);
    }

    /** One child's turn: plan it if it is a range of our space, and splice its pieces in if they
        fit; a child that does not fit is taken back out of the plan. */
    method SpliceKid(ghost was: Plan, i: nat, j: nat, space: nat, runs: seq<Run>, segs: seq<Seg>, taken: Intervals, ghost accepted: seq<nat>,
                     ghost dropped: nat)
      returns (more: seq<Seg>, fits: bool, ghost now: seq<nat>)
      requires Splicing(was, i, space, segs, taken.ends, j, accepted) && j < |w.kids[i]|
      requires HomeOf(w, i) == Some((space, runs)) && RunsHold(w.spaces[space], runs, truth[i])
      modifies this`plan, this`halted, taken
      ensures Splicing(was, i, space, more, taken.ends, j + 1, now)
      ensures OnlyUnder(w, old(plan), plan, w.kids[i][j]) && segs <= more && accepted <= now
      ensures w.members[w.kids[i][j]].extents.None? ==> plan == old(plan)
      ensures segs == [] && MappedIn(w, i, w.kids[i][j]).Some? && Claimed(w, w.kids[i][j]) ==> now == accepted + [w.kids[i][j]]
      ensures OnShelf(w, sourcesOf, i, w.kids[i][j]) ==> BookedAs(old(plan), w.kids[i][j])
      ensures segs == [] && MappedIn(w, i, w.kids[i][j]).Some? && OnShelf(w, sourcesOf, i, w.kids[i][j]) && Opens(old(plan), w.kids[i][j]) ==>
                more == MappedIn(w, i, w.kids[i][j]).value && StandsAs(old(plan), w.kids[i][j])
      ensures Spliced(Here(), more, taken.ends, if fits then dropped else dropped + 1, now)
           == SplicedOne(Asks(), Spliced(old(Here()), segs, old(taken.ends), dropped, accepted), i, w.kids[i][j])
      decreases Below(i), 1
    {
      hide KidOf, RemovedOf, AdmitsPieces, WithPieces;
      hide Sure, Stacked, PlanHolds, PassesHold, Rooted, Under, SegHolds, Caused, SelfOverlaps, AllApart, PiecesOf, Fresh, Single, SingleStands,
           SingleOpens, Booked;
      ghost var start := plan;
      more, fits, now := segs, true, accepted;
      var c := w.kids[i][j];
      assert IsKid(w, i, c);
      var cruns := Rangeable(w, space, c);
      MappedIs(i, space, runs, c);
      if cruns.None? {
        SkipKid(was, i, j, space, segs, taken.ends, accepted);
        return;
      }
      ghost var mid := plan;
      assert Fresh(w, plan, c);
      KidsOfUnplannedUnreferenced(w, truth, plan, i, c);
      GoesDown(w, truth, i, c);
      var wanted := PlanKid(i, c);
      KidDone(was, mid, i, j, space, segs, taken.ends, accepted);
      if wanted {
        var pieces := MapKid(runs, cruns.value, c);
        fits := false;
        if pieces.Some? {
          PiecesHold(w, truth, plan, i, space, runs, c);
          NothingInTheWay(pieces.value);
          fits := AcceptPieces(taken, pieces.value, segs);
          assert [] + pieces.value == pieces.value;
        }
        if fits {
          more, now := segs + pieces.value, accepted + [c];
          KidAccepted(was, i, j, space, segs, taken.ends, accepted, pieces.value);
        } else {
          mid := plan;
          RemoveSubtree(c);
          OnlyUnderChains(w, start, mid, plan, c);
          KidDone(was, mid, i, j, space, segs, taken.ends, accepted);
        }
      }
    }

    lemma MappedIs(i: nat, space: nat, runs: seq<Run>, c: nat)
      requires i < |w.members| && c < |w.members| && HomeOf(w, i) == Some((space, runs))
      ensures MappedIn(w, i, c) == match Rangeable(w, space, c) case None => None case Some(cruns) => PiecesOf(runs, cruns, c)
    {
    }

    lemma NothingInTheWay(pieces: seq<Seg>)
      ensures AllApart([]) && NoOverlap(pieces, [])
    {
    }

    lemma SkipKid(was: Plan, i: nat, j: nat, space: nat, segs: seq<Seg>, ends: map<nat, nat>, accepted: seq<nat>)
      requires Splicing(was, i, space, segs, ends, j, accepted) && j < |w.kids[i]|
      ensures Splicing(was, i, space, segs, ends, j + 1, accepted)
    {
      hide PlanHolds, PassesHold, Rooted, Under, SegHolds, Caused, SelfOverlaps, AllApart, Fresh;
      forall s | s in segs
        ensures s.idx in w.kids[i][..j + 1]
      {
        var k :| 0 <= k < j && w.kids[i][k] == s.idx;
        assert w.kids[i][..j + 1][k] == s.idx;
      }
    }

    /** Its pieces went in: they overlap each other exactly when the child maps onto itself. */
    lemma KidAccepted(was: Plan, i: nat, j: nat, space: nat, segs: seq<Seg>, ends: map<nat, nat>, accepted: seq<nat>, pieces: seq<Seg>)
      requires IsMember(w, i) && j < |w.kids[i]| && IsKid(w, i, w.kids[i][j])
      requires Valid() && NoEntry(plan, i) && OnlyUnder(w, was, plan, i) && space in w.spaces
      requires MappedIn(w, i, w.kids[i][j]) == Some(pieces) && Clashing(i, segs, accepted)
      requires Books(ends, segs + pieces) && (AllApart(segs + pieces) <==> AllApart(segs) && AllApart(pieces))
      requires forall s :: s in segs ==> SplicedKid(w, truth, plan, i, space, s) && s.idx in w.kids[i][..j + 1]
      requires forall s :: s in pieces ==> SplicedKid(w, truth, plan, i, space, s) && s.idx == w.kids[i][j]
      requires KidsFreshFrom(w, plan, i, j + 1) && UnrangedFresh(was, i)
      ensures Splicing(was, i, space, segs + pieces, ends, j + 1, accepted + [w.kids[i][j]])
    {
      hide PlanHolds, PassesHold, Rooted, Under, SegHolds, Caused, AllApart, Fresh, SplicedKid, Books;
      var c := w.kids[i][j];
      assert w.kids[i][..j + 1][j] == c;
      assert forall d :: d in accepted + [c] <==> d in accepted || d == c;
      assert SelfOverlaps(w, i, c) <==> !AllApart(pieces);
    }

    /** Whatever was done under child `j` keeps the splice so far intact. */
    lemma KidDone(was: Plan, mid: Plan, i: nat, j: nat, space: nat, segs: seq<Seg>, ends: map<nat, nat>, accepted: seq<nat>)
      requires Valid() && IsMember(w, i) && j < |w.kids[i]| && space in w.spaces
      requires NoEntry(mid, i) && OnlyUnder(w, was, mid, i)
      requires Books(ends, segs) && Clashing(i, segs, accepted)
      requires forall s :: s in segs ==> SplicedKid(w, truth, mid, i, space, s) && s.idx in w.kids[i][..j]
      requires KidsFreshFrom(w, mid, i, j + 1)
      requires forall c: nat :: IsKid(w, i, c) && w.members[c].extents.None? && Fresh(w, was, c) ==> Fresh(w, mid, c)
      requires OnlyUnder(w, mid, plan, w.kids[i][j]) && w.members[w.kids[i][j]].extents.Some?
      ensures Splicing(was, i, space, segs, ends, j + 1, accepted)
    {
      hide PlanHolds, Rooted, Under, Caused, Books, Clashing;
      var c := w.kids[i][j];
      assert IsKid(w, i, c);
      OnlyUnderKid(w, mid, plan, c, i);
      OnlyUnderChains(w, was, mid, plan, i);
      KidsAfter(w, truth, mid, plan, i, j);
      forall s | s in segs
        ensures SplicedKid(w, truth, plan, i, space, s) && s.idx in w.kids[i][..j + 1]
      {
        var k :| 0 <= k < j && w.kids[i][k] == s.idx;
        assert w.kids[i][..j + 1][k] == s.idx;
        SiblingStaysFresh(w, mid, plan, c, s.idx, i);
      }
      forall d: nat | IsKid(w, i, d) && w.members[d].extents.None? && Fresh(w, was, d)
        ensures Fresh(w, plan, d)
      {
        SiblingStaysFresh(w, mid, plan, c, d, i);
      }
    }
  }
}
