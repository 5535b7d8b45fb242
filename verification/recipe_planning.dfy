/**
 What the planner's steps rest on: which members it may name and splice, what the erofs passes
 must report, and the facts that carry the plan's soundness from one step to the next.
 */
module RecipePlanning {
  import opened Wrappers
  import opened ByteStrings
  import opened RecipePlan
  import opened RecipeTree
  import opened RecipeTiling
  import opened RecipePlacing

  /** One thing the erofs passes report: a pcluster node with the image offset it occupies, or a
      verbatim splice in image coordinates. */
  datatype Found = Node(node: PClusterNode, pa: nat) | Splice(seg: Seg)

  /** How the two passes over an image ended: with findings, and all that was ever spooled as they left
      it; refused before the sweep started; failed inside it, when the spool is gone and only the file
      pass has anything to show; or in a panic. */
  datatype Scan = Scanned(found: seq<Found>, literals: Bytes) | Refused | SpoolLost(files: seq<Found>) | Panics

  /** Where member `i`'s bytes lie: the whole of its spool if it has one, else its extents in the
      space they name. */
  function HomeOf(w: World, i: nat): Option<(nat, seq<Run>)>
    requires i < |w.members|
  {
    var m := w.members[i];
    if m.space.Some? then Some((m.space.value, [Run(0, 0, m.size)]))
    else if m.extents.Some? then Some((m.extents.value.src, m.extents.value.runs))
    else None
  }

  /** Big enough to name by digest. */
  predicate Nameable(m: Member) {
    m.size >= IDENTITY_MIN_BYTES && m.sha256.Some?
  }

  /** The child's runs, when it can be addressed as a range of `space`. */
  function Rangeable(w: World, space: nat, c: nat): Option<seq<Run>>
    requires c < |w.members|
  {
    var m := w.members[c];
    if Nameable(m) && m.extents.Some? && m.extents.value.src == space then Some(m.extents.value.runs) else None
  }

  predicate Extractable(w: World, i: nat) {
    i < |w.evidence| && w.evidence[i].archive.Some?
  }

  /** Some member below `i` has a claim or stands in an archive. */
  predicate SubtreeFetchable(w: World, i: nat) {
    exists k :: 0 <= k < |w.members| && k != i && Under(w, k, i) && (Claimed(w, k) || Extractable(w, k))
  }

  /** Child `c` of `i` is a range of `i`'s space that maps into it, but onto itself. */
  predicate SelfOverlaps(w: World, i: nat, c: nat) {
    && IsKid(w, i, c) && MappedIn(w, i, c).Some? && !AllApart(MappedIn(w, i, c).value)
  }

  /** The pieces of child `c` in the splice of `i`, if it can be spliced there. */
  function MappedIn(w: World, i: nat, c: nat): Option<seq<Seg>>
    requires i < |w.members| && c < |w.members|
  {
    match HomeOf(w, i)
    case None => None
    case Some(home) =>
      match Rangeable(w, home.0, c)
      case None => None
      case Some(cruns) => PiecesOf(home.1, cruns, c)
  }

  /** A child maps onto itself only if its own runs overlap; and when the parent's runs are disjoint,
      exactly then. */
  lemma SelfOverlapsIff(w: World, truth: seq<Bytes>, i: nat, c: nat)
    requires Unchanged(w, truth) && IsKid(w, i, c) && MappedIn(w, i, c).Some? && w.members[i].size > 0
    ensures var (runs, cruns) := (HomeOf(w, i).value.1, w.members[c].extents.value.runs);
            (SelfOverlaps(w, i, c) ==> !RunsApart(cruns)) && (RunsApart(runs) ==> (SelfOverlaps(w, i, c) <==> !RunsApart(cruns)))
  {
    var runs, cruns := HomeOf(w, i).value.1, w.members[c].extents.value.runs;
    HomeHolds(w, truth, i);
    assert MemberTrue(w, truth, c);
    RunsTileEnds(cruns, 0, |truth[c]|);
    if RunsApart(cruns) {
      PiecesAreApart(runs, |truth[i]|, cruns, c);
    } else if RunsApart(runs) {
      PiecesApartIffRunsApart(runs, |truth[i]|, cruns, c);
    }
  }

  function FoundRefs(x: Found): set<nat> {
    match x
    case Node(node, _) => PartsOf(node.inputs)
    case Splice(seg) => if seg.Tabled? then {seg.idx} else {}
  }

  /** One finding tells the truth about image `i`, slicing only `sources`. */
  ghost predicate FoundHolds(w: World, truth: seq<Bytes>, i: nat, sources: set<nat>, literals: Bytes, x: Found)
    requires i < |truth|
  {
    && FoundRefs(x) <= sources
    && match x
       case Node(node, pa) =>
         pa + node.size <= |truth[i]| && NodeHolds(w.f, node, Cut(truth[i], pa, node.size), truth, literals)
       case Splice(s) =>
         s.Tabled? && s.len > 0 && s.idx < |truth| && Same(truth[s.idx], s.from, truth[i], s.rootOff, s.len)
  }

  /** A scan of image `i`, planned against `sources` with `before` spooled, tells the truth about the
      image. */
  ghost predicate ScanHolds(w: World, truth: seq<Bytes>, i: nat, sources: set<nat>, before: Bytes, s: Scan)
    requires i < |truth|
  {
    match s
    case Scanned(found, literals) =>
      before <= literals && forall x :: x in found ==> FoundHolds(w, truth, i, sources, literals, x)
    case Refused => true
    case SpoolLost(files) => forall x :: x in files ==> FoundHolds(w, truth, i, sources, before, x)
    case Panics => true
  }

  function SetOf(s: seq<nat>): (r: set<nat>)
    ensures forall x :: x in r <==> x in s
  {
    set x | x in s
  }

  /** A member of image `i` the passes may slice. */
  predicate SourceKid(w: World, i: nat, c: nat) {
    IsKid(w, i, c) && w.members[c].extents.None? && Nameable(w.members[c])
  }

  type Passes = (nat, set<nat>, Bytes) -> Scan

  /** The passes plan only against children the walk gave no extents (files whose bytes sit in
      pclusters), each once, and what they report is true. */
  ghost predicate PassesHold(w: World, truth: seq<Bytes>, sourcesOf: nat -> seq<nat>, passes: Passes) {
    && (forall i: nat, k :: i < |truth| && 0 <= k < |sourcesOf(i)| ==>
          SourceKid(w, i, sourcesOf(i)[k]))
    && (forall i: nat, j, k :: i < |truth| && 0 <= j < k < |sourcesOf(i)| ==> sourcesOf(i)[j] != sourcesOf(i)[k])
    && (forall i: nat, s: set<nat>, l: Bytes :: i < |truth| ==> ScanHolds(w, truth, i, s, l, passes(i, s, l)))
  }

  /** The sweep over some image takes the spool with this in it, and fails. */
  ghost predicate LosesSpool(passes: Passes, l: Bytes) {
    exists i: nat, s: set<nat> :: passes(i, s, l).SpoolLost?
  }

  ghost predicate SomeChildSelfOverlaps(w: World) {
    exists i: nat, c: nat :: SelfOverlaps(w, i, c)
  }

  ghost predicate SomeScanPanics(passes: Passes) {
    exists i: nat, s: set<nat>, l: Bytes :: passes(i, s, l).Panics?
  }

  /** What panics and lost spools go back to: a child that maps onto itself, a scan that panics, a sweep
      that fails with the spool in its hands. */
  ghost predicate Caused(w: World, passes: Passes, p: Plan, halted: bool) {
    && (halted ==> SomeChildSelfOverlaps(w) || SomeScanPanics(passes))
    && forall k :: 0 <= k < |p.drops| ==> p.drops[k] <= |p.literals| && LosesSpool(passes, p.literals[..p.drops[k]])
  }

  lemma CausedGrows(w: World, passes: Passes, p: Plan, q: Plan, halted: bool)
    requires Caused(w, passes, p, halted) && p.drops == q.drops && p.literals <= q.literals
    ensures Caused(w, passes, q, halted)
  {
    forall k | 0 <= k < |q.drops|
      ensures q.literals[..q.drops[k]] == p.literals[..p.drops[k]]
    {
    }
  }

  lemma CausedLoses(w: World, passes: Passes, p: Plan, q: Plan, halted: bool, i: nat, s: set<nat>)
    requires Caused(w, passes, p, halted) && passes(i, s, p.literals).SpoolLost?
    requires q.literals == p.literals && q.drops == p.drops + [|p.literals|]
    ensures Caused(w, passes, q, halted)
  {
    assert p.literals[..|p.literals|] == p.literals;
    assert LosesSpool(passes, p.literals);
  }

  /** The children of `i` from the `from`-th on that have extents are still unplanned. */
  ghost predicate KidsFreshFrom(w: World, p: Plan, i: nat, from: nat)
    requires i < |w.kids|
  {
    forall k :: from <= k < |w.kids[i]| && w.kids[i][k] < |w.members| && w.members[w.kids[i][k]].extents.Some? ==>
      Fresh(w, p, w.kids[i][k])
  }

  lemma KidsAfter(w: World, truth: seq<Bytes>, p: Plan, q: Plan, i: nat, j: nat)
    requires Unchanged(w, truth) && IsMember(w, i) && j < |w.kids[i]|
    requires OnlyUnder(w, p, q, w.kids[i][j]) && KidsFreshFrom(w, p, i, j + 1)
    ensures KidsFreshFrom(w, q, i, j + 1)
  {
    forall k | j + 1 <= k < |w.kids[i]| && w.members[w.kids[i][k]].extents.Some?
      ensures Fresh(w, q, w.kids[i][k])
    {
      SiblingStaysFresh(w, p, q, w.kids[i][j], w.kids[i][k], i);
    }
  }

  lemma HomeHolds(w: World, truth: seq<Bytes>, i: nat)
    requires Unchanged(w, truth) && IsMember(w, i) && HomeOf(w, i).Some? && w.members[i].size > 0
    ensures HomeOf(w, i).value.0 in w.spaces
    ensures RunsHold(w.spaces[HomeOf(w, i).value.0], HomeOf(w, i).value.1, truth[i])
  {
    assert MemberTrue(w, truth, i);
    var whole := [Run(0, 0, w.members[i].size)];
    assert RunsTile(whole[1..], w.members[i].size, w.members[i].size);
  }

  lemma PiecesHold(w: World, truth: seq<Bytes>, p: Plan, i: nat, space: nat, runs: seq<Run>, c: nat)
    requires Unchanged(w, truth) && IsKid(w, i, c) && Fetchable(w, p, c)
    requires HomeOf(w, i) == Some((space, runs)) && MappedIn(w, i, c).Some?
    requires space in w.spaces && RunsHold(w.spaces[space], runs, truth[i])
    ensures forall s :: s in MappedIn(w, i, c).value ==>
              s.len > 0 && s.Child? && s.idx == c && SplicedKid(w, truth, p, i, space, s)
  {
    var cruns, pieces := w.members[c].extents.value.runs, MappedIn(w, i, c).value;
    assert MemberTrue(w, truth, c);
    RunsTileEnds(cruns, 0, |truth[c]|);
    forall k | 0 <= k < |pieces|
      ensures SplicedKid(w, truth, p, i, space, pieces[k]) && pieces[k].len > 0 && pieces[k].Child? && pieces[k].idx == c
    {
      assert RunHolds(w.spaces[space], cruns[k], truth[c]);
      PieceIsFaithful(w.spaces[space], runs, truth[i], cruns[k], truth[c], c);
    }
  }

  lemma StaysFreshBelow(w: World, p: Plan, q: Plan, i: nat, c: nat)
    requires IsKid(w, i, c) && Fresh(w, p, c) && forall x: nat :: x != i ==> SameEntry(p, q, x)
    ensures Fresh(w, q, c)
  {
    forall x: nat | Under(w, x, c)
      ensures NoEntry(q, x)
    {
      UnderKidIsUnder(w, x, c, i);
      assert SameEntry(p, q, x);
    }
  }

  /** A piece of the splice of `i`: a true range of one of its children that leads somewhere. */
  predicate SplicedKid(w: World, truth: seq<Bytes>, p: Plan, i: nat, space: nat, s: Seg) {
    && IsMember(w, i) && i < |truth| && space in w.spaces
    && s.Child? && IsKid(w, i, s.idx) && w.members[s.idx].extents.Some? && Fetchable(w, p, s.idx)
    && SegHolds(w, truth, p, w.members[i].depth, w.spaces[space], truth[i], s)
  }

  lemma Extracted(w: World, truth: seq<Bytes>, p: Plan, q: Plan, i: nat)
    requires Sound(w, truth, p) && NoEntry(p, i) && Unreferenced(p, i)
    requires i in q.extracts && q == p.(extracts := p.extracts[i := q.extracts[i]])
    requires ExtractHolds(w, truth, i, q.extracts[i])
    ensures Sound(w, truth, q) && OnlyUnder(w, p, q, i)
  {
    EntryReplaced(w, truth, p, q, i);
    assert Under(w, i, i);
  }

  /** A segment fit to stand in the build of `i`: true, and every member it names is a child of `i`
      that leads somewhere. */
  predicate EntrySeg(w: World, truth: seq<Bytes>, p: Plan, i: nat, space: nat, s: Seg) {
    && i < |truth| == |w.members| && space in w.spaces && !s.Gap?
    && SegHolds(w, truth, p, w.members[i].depth, w.spaces[space], truth[i], s)
    && forall x :: x in SegRefs(p.pclusters, s) ==> IsKid(w, i, x) && Fetchable(w, p, x)
  }

  ghost predicate AllEntrySegs(w: World, truth: seq<Bytes>, p: Plan, i: nat, space: nat, segs: seq<Seg>) {
    forall s :: s in segs ==> EntrySeg(w, truth, p, i, space, s)
  }

  /** Recording a tiled build of fit segments keeps the plan sound. */
  lemma BuildEntered(w: World, truth: seq<Bytes>, p: Plan, q: Plan, i: nat, space: nat, segs: seq<Seg>)
    requires Sound(w, truth, p) && i !in p.compress && i !in p.extracts
    requires i < |truth| == |w.members| && w.members[i].sha256.Some? && |truth[i]| > 0 && space in w.spaces
    requires i in q.builds && q == p.(builds := p.builds[i := q.builds[i]])
    requires q.builds[i].space == space && RunsHold(w.spaces[space], q.builds[i].runs, truth[i])
    requires Tiles(q.builds[i].segs, 0, |truth[i]|) && AllEntrySegs(w, truth, p, i, space, segs)
    requires forall s :: s in q.builds[i].segs ==> s in segs || FreshGap(s)
    ensures Sound(w, truth, q) && OnlyUnder(w, p, q, i)
    ensures forall x: nat :: EntryRefers(q, i, x) ==> exists s :: s in segs && x in SegRefs(p.pclusters, s)
  {
    assert Under(w, i, i);
    NewBuildHolds(w, truth, p, q, i, space, segs);
    EntryRefsLead(w, truth, p, q, i, space, segs);
    EntryReplaced(w, truth, p, q, i);
  }

  lemma NewBuildHolds(w: World, truth: seq<Bytes>, p: Plan, q: Plan, i: nat, space: nat, segs: seq<Seg>)
    requires i < |truth| == |w.members| && w.members[i].sha256.Some? && |truth[i]| > 0 && space in w.spaces
    requires i in q.builds && q == p.(builds := p.builds[i := q.builds[i]])
    requires q.builds[i].space == space && RunsHold(w.spaces[space], q.builds[i].runs, truth[i])
    requires Tiles(q.builds[i].segs, 0, |truth[i]|) && AllEntrySegs(w, truth, p, i, space, segs)
    requires forall s :: s in q.builds[i].segs ==> s in segs || FreshGap(s)
    ensures BuildHolds(w, truth, q, i, q.builds[i]) && GapsFresh(q.builds[i].segs)
  {
    var b := q.builds[i];
    TilesElements(b.segs, 0, |truth[i]|);
    forall k | 0 <= k < |b.segs|
      ensures SegHolds(w, truth, q, w.members[i].depth, w.spaces[space], truth[i], b.segs[k])
      ensures b.segs[k].Gap? ==> FreshGap(b.segs[k])
    {
      assert b.segs[k] in b.segs;
      assert b.segs[k] in segs ==> EntrySeg(w, truth, p, i, space, b.segs[k]);
    }
  }

  lemma EntryRefsLead(w: World, truth: seq<Bytes>, p: Plan, q: Plan, i: nat, space: nat, segs: seq<Seg>)
    requires i !in p.compress && i in q.builds && q == p.(builds := p.builds[i := q.builds[i]])
    requires AllEntrySegs(w, truth, p, i, space, segs)
    requires forall s :: s in q.builds[i].segs ==> s in segs || FreshGap(s)
    ensures forall x: nat :: EntryRefers(q, i, x) ==>
              IsKid(w, i, x) && Fetchable(w, q, x) && exists s :: s in segs && x in SegRefs(p.pclusters, s)
  {
    forall x: nat | EntryRefers(q, i, x)
      ensures IsKid(w, i, x) && Fetchable(w, q, x) && exists s :: s in segs && x in SegRefs(p.pclusters, s)
    {
      var k :| 0 <= k < |q.builds[i].segs| && x in SegRefs(q.pclusters, q.builds[i].segs[k]);
      var s := q.builds[i].segs[k];
      assert s in q.builds[i].segs;
      assert EntrySeg(w, truth, p, i, space, s);
    }
  }

  predicate SameTables(p: Plan, q: Plan) {
    p.pclusters == q.pclusters && p.literals == q.literals && p.drops == q.drops && p.tabled == q.tabled && p.root == q.root
  }

  lemma GoesDown(w: World, truth: seq<Bytes>, i: nat, c: nat)
    requires Unchanged(w, truth) && IsKid(w, i, c)
    ensures w.members[i].depth < w.members[c].depth <= w.limit
  {
    assert MemberTrue(w, truth, c);
  }

  lemma ChildrenOfEntry(w: World, truth: seq<Bytes>, p: Plan, i: nat)
    requires Sound(w, truth, p)
    ensures i in p.builds ==>
              forall k :: 0 <= k < |p.builds[i].segs| && p.builds[i].segs[k].Child? ==> IsKid(w, i, p.builds[i].segs[k].idx)
    ensures i in p.compress ==> IsKid(w, i, p.compress[i].child)
  {
    if i in p.builds {
      forall k | 0 <= k < |p.builds[i].segs| && p.builds[i].segs[k].Child?
        ensures IsKid(w, i, p.builds[i].segs[k].idx)
      {
        assert p.builds[i].segs[k].idx in SegRefs(p.pclusters, p.builds[i].segs[k]);
        assert EntryRefers(p, i, p.builds[i].segs[k].idx);
      }
    }
    if i in p.compress {
      assert EntryRefers(p, i, p.compress[i].child);
    }
  }

  lemma Removed(w: World, truth: seq<Bytes>, p: Plan, q: Plan, i: nat)
    requires Sound(w, truth, p) && forall j: nat :: !EntryRefers(p, j, i)
    requires q == p.(extracts := p.extracts - {i}, compress := p.compress - {i}, builds := p.builds - {i})
    ensures Sound(w, truth, q) && NoEntry(q, i) && OnlyUnder(w, p, q, i)
  {
    hide PlanHolds, BuildHolds, SegHolds, NodeHolds, RunsHold, Tiles;
    assert EntrySound(w, truth, q, i);
    EntryReplaced(w, truth, p, q, i);
    assert Under(w, i, i);
  }

  /** Under a fresh member every child is fresh. */
  lemma FreshKids(w: World, truth: seq<Bytes>, p: Plan, i: nat)
    requires Unchanged(w, truth) && IsMember(w, i) && Fresh(w, p, i)
    ensures NoEntry(p, i) && KidsFreshFrom(w, p, i, 0)
    ensures forall c: nat :: IsKid(w, i, c) ==> Fresh(w, p, c)
  {
    assert Under(w, i, i);
    forall c: nat, x: nat | IsKid(w, i, c) && Under(w, x, c)
      ensures NoEntry(p, x)
    {
      UnderKidIsUnder(w, x, c, i);
    }
  }

  lemma KidsAreEntrySegs(w: World, truth: seq<Bytes>, p: Plan, i: nat, space: nat, segs: seq<Seg>)
    requires i < |truth| == |w.members|
    requires forall s :: s in segs ==> SplicedKid(w, truth, p, i, space, s)
    ensures AllEntrySegs(w, truth, p, i, space, segs)
    ensures forall s, x :: s in segs && x in SegRefs(p.pclusters, s) ==> x < |w.members| && w.members[x].extents.Some?
  {
  }

  /** The whole step from an accepted splice under way to the build on record. */
  lemma SpliceRecorded(w: World, truth: seq<Bytes>, was: Plan, p: Plan, q: Plan, i: nat, space: nat, segs: seq<Seg>)
    requires Sound(w, truth, p) && NoEntry(p, i) && OnlyUnder(w, was, p, i)
    requires i < |truth| == |w.members| && w.members[i].sha256.Some? && |truth[i]| > 0 && space in w.spaces
    requires i in q.builds && q == p.(builds := p.builds[i := q.builds[i]])
    requires q.builds[i].space == space && RunsHold(w.spaces[space], q.builds[i].runs, truth[i])
    requires Tiles(q.builds[i].segs, 0, |truth[i]|)
    requires forall s :: s in segs ==> SplicedKid(w, truth, p, i, space, s)
    requires forall s :: s in q.builds[i].segs ==> s in segs || FreshGap(s)
    ensures Sound(w, truth, q) && OnlyUnder(w, was, q, i)
    ensures forall x: nat :: EntryRefers(q, i, x) ==> x < |w.members| && w.members[x].extents.Some?
    ensures forall c: nat :: IsKid(w, i, c) && Fresh(w, p, c) ==> Fresh(w, q, c)
  {
    hide PlanHolds, BuildHolds, Rooted, SegHolds, Tiles, RunsHold, Under;
    KidsAreEntrySegs(w, truth, p, i, space, segs);
    BuildEntered(w, truth, p, q, i, space, segs);
    OnlyUnderChains(w, was, p, q, i);
    KidsStayFresh(w, p, q, i);
  }

  lemma KidsStayFresh(w: World, p: Plan, q: Plan, i: nat)
    requires forall x: nat :: x != i ==> SameEntry(p, q, x)
    ensures forall c: nat :: IsKid(w, i, c) && Fresh(w, p, c) ==> Fresh(w, q, c)
  {
    forall c: nat | IsKid(w, i, c) && Fresh(w, p, c)
      ensures Fresh(w, q, c)
    {
      StaysFreshBelow(w, p, q, i, c);
    }
  }

  lemma KidSegsArePlaceable(w: World, truth: seq<Bytes>, p: Plan, i: nat, space: nat, segs: seq<Seg>)
    requires Unchanged(w, truth) && IsMember(w, i)
    requires forall s :: s in segs ==> SplicedKid(w, truth, p, i, space, s)
    ensures w.members[i].size == |truth[i]|
    ensures forall s :: s in segs ==> Placeable(s, w.members[i].size)
  {
    assert MemberTrue(w, truth, i);
  }

  // ------------------------------------------------------------- compression nodes

  /** The single decompressed child a wrapper can be rebuilt from, and where both sides' bytes are. */
  predicate Wraps(w: World, i: nat) {
    && IsMember(w, i) && |w.kids[i]| == 1 && w.kids[i][0] < |w.members|
    && Nameable(w.members[i]) && Nameable(w.members[w.kids[i][0]])
    && w.members[w.kids[i][0]].space.Some? && w.members[w.kids[i][0]].space.value in w.spaces
    && w.members[i].extents.Some? && w.members[i].extents.value.src in w.spaces
    && InSpace(w.spaces[w.members[i].extents.value.src], Ranges(w.members[i].extents.value.runs))
  }

  /** The wrapper's own bytes, through its extents. */
  function WrapperView(w: World, i: nat): Bytes
    requires Wraps(w, i)
  {
    var e := w.members[i].extents.value;
    Gather(w.spaces[e.src], Ranges(e.runs))
  }

  lemma WrapperViewReads(w: World, truth: seq<Bytes>, i: nat)
    requires Unchanged(w, truth) && Wraps(w, i)
    ensures WrapperView(w, i) == truth[i]
    ensures var c := w.kids[i][0];
            IsKid(w, i, c) && w.spaces[w.members[c].space.value] == truth[c] && w.members[c].extents.None?
  {
    var c := w.kids[i][0];
    assert IsKid(w, i, c);
    assert MemberTrue(w, truth, i) && MemberTrue(w, truth, c);
    var e := w.members[i].extents.value;
    RangesReadBack(w.spaces[e.src], e.runs, 0, truth[i]);
    assert truth[i][0..] == truth[i];
  }

  /** The child recorded as one literal stretch: what an unclaimed, unplannable child becomes. */
  function AllLiteral(w: World, c: nat): Build
    requires c < |w.members| && w.members[c].space.Some?
  {
    Build([Fill(0, w.members[c].size)], 0, w.members[c].space.value, [Run(0, 0, w.members[c].size)])
  }

  lemma LiteralEntered(w: World, truth: seq<Bytes>, p: Plan, q: Plan, c: nat)
    requires Unchanged(w, truth) && Sound(w, truth, p) && NoEntry(p, c)
    requires IsMember(w, c) && Nameable(w.members[c]) && w.members[c].space.Some?
    requires q == p.(builds := p.builds[c := AllLiteral(w, c)])
    ensures Sound(w, truth, q) && OnlyUnder(w, p, q, c)
  {
    assert MemberTrue(w, truth, c);
    HomeHolds(w, truth, c);
    assert Tiles(AllLiteral(w, c).segs[1..], w.members[c].size, w.members[c].size);
    BuildEntered(w, truth, p, q, c, w.members[c].space.value, []);
  }

  lemma CompressEntered(w: World, truth: seq<Bytes>, p: Plan, q: Plan, i: nat, how: Comp)
    requires Unchanged(w, truth) && Sound(w, truth, p) && NoEntry(p, i) && Wraps(w, i)
    requires Fetchable(w, p, w.kids[i][0])
    requires CompRun(w.f, how, truth[w.kids[i][0]]) == Some(truth[i])
    requires q == p.(compress := p.compress[i := Compress(w.kids[i][0], how)])
    ensures Sound(w, truth, q) && OnlyUnder(w, p, q, i)
  {
    hide PlanHolds, BuildHolds, SegHolds, NodeHolds, RunsHold, Tiles;
    var c := w.kids[i][0];
    assert IsKid(w, i, c);
    assert SameEntry(p, q, c);
    EntryReplaced(w, truth, p, q, i);
    assert Under(w, i, i);
  }

  // ------------------------------------------------------------- erofs findings

  /** Member `i` is named by a build, a compression or a pcluster node, one no build uses included. */
  predicate ReferencedByPlan(p: Plan, i: nat) {
    || (exists j :: j in p.builds && exists k :: 0 <= k < |p.builds[j].segs| && NamesMember(p.builds[j].segs[k], i))
    || (exists j :: j in p.compress && p.compress[j].child == i)
    || (exists n :: 0 <= n < |p.pclusters| && i in PartsOf(p.pclusters[n].inputs))
  }

  predicate NamesMember(s: Seg, i: nat) {
    (s.Child? || s.Tabled?) && s.idx == i
  }

  /** A finding as a segment, in image coordinates: true, and slicing only children of the image
      that lead somewhere. */
  predicate ImageSeg(w: World, truth: seq<Bytes>, p: Plan, i: nat, s: Seg) {
    && i < |truth| && s.len > 0
    && (forall x :: x in SegRefs(p.pclusters, s) ==> IsKid(w, i, x) && Fetchable(w, p, x))
    && match s
       case PCluster(pc, _, len, image) =>
         && pc < |p.pclusters| && image + len <= |truth[i]|
         && NodeHolds(w.f, p.pclusters[pc], Cut(truth[i], image, len), truth, p.literals)
       case Tabled(idx, from, len, _, image) =>
         idx < |truth| && Same(truth[idx], from, truth[i], image, len)
       case _ => false
  }

  ghost predicate AllImageSegs(w: World, truth: seq<Bytes>, p: Plan, i: nat, segs: seq<Seg>) {
    forall s :: s in segs ==> ImageSeg(w, truth, p, i, s)
  }

  /** `s` is finding `x`, entered in the pcluster table `pcs`. */
  predicate Enters(pcs: seq<PClusterNode>, x: Found, s: Seg) {
    match x
    case Node(node, pa) => s.PCluster? && s.pc < |pcs| && pcs[s.pc] == node && s.len == node.size && s.rootOff == pa
    case Splice(seg) => s == seg
  }

  /** The nodes among some findings, in order. */
  function NodesIn(found: seq<Found>): seq<PClusterNode> {
    if found == [] then []
    else NodesIn(found[..|found| - 1]) + if found[|found| - 1].Node? then [found[|found| - 1].node] else []
  }

  /** Finding `x` as a segment, a node at place `at` of the table. */
  function EnteredOne(at: nat, x: Found): Seg {
    match x
    case Node(node, pa) => PCluster(at, 0, node.size, pa)
    case Splice(seg) => seg
  }

  /** The findings as segments when the table has `n` nodes already. */
  function EnteredSegs(n: nat, found: seq<Found>): (r: seq<Seg>)
    ensures |r| == |found|
  {
    if found == [] then []
    else
      var k := |found| - 1;
      EnteredSegs(n, found[..k]) + [EnteredOne(n + |NodesIn(found[..k])|, found[k])]
  }

  /** Enter findings in the table, in the order they were reported. */
  method EnterFound(pcs: seq<PClusterNode>, found: seq<Found>) returns (grown: seq<PClusterNode>, segs: seq<Seg>)
    ensures grown == pcs + NodesIn(found) && |segs| == |found| && segs == EnteredSegs(|pcs|, found)
    ensures forall k :: 0 <= k < |found| ==> Enters(grown, found[k], segs[k])
  {
    grown, segs := pcs, [];
    for k := 0 to |found|
      invariant grown == pcs + NodesIn(found[..k]) && |segs| == k && segs == EnteredSegs(|pcs|, found[..k])
      invariant forall j :: 0 <= j < k ==> Enters(grown, found[j], segs[j])
    {
      assert found[..k + 1][..k] == found[..k];
      match found[k] {
        case Node(node, pa) =>
          segs := segs + [PCluster(|grown|, 0, node.size, pa)];
          grown := grown + [node];
        case Splice(seg) =>
          segs := segs + [seg];
      }
    }
    assert found[..|found|] == found;
  }

  lemma FoundAreImageSegs(w: World, truth: seq<Bytes>, p: Plan, i: nat, sources: set<nat>, found: seq<Found>, segs: seq<Seg>)
    requires i < |truth| && |segs| == |found|
    requires forall x :: x in found ==> FoundHolds(w, truth, i, sources, p.literals, x)
    requires forall k :: 0 <= k < |found| ==> Enters(p.pclusters, found[k], segs[k])
    requires forall c :: c in sources ==> IsKid(w, i, c) && Fetchable(w, p, c)
    ensures AllImageSegs(w, truth, p, i, segs)
  {
    forall k | 0 <= k < |segs|
      ensures ImageSeg(w, truth, p, i, segs[k])
    {
      assert found[k] in found;
      assert SegRefs(p.pclusters, segs[k]) <= FoundRefs(found[k]);
    }
  }

  /** Nothing the plan still uses is lost by taking out a source no segment slices. */
  lemma DropKeepsImageSegs(w: World, truth: seq<Bytes>, p: Plan, q: Plan, i: nat, c: nat, segs: seq<Seg>)
    requires AllImageSegs(w, truth, p, i, segs) && IsKid(w, i, c) && c !in TabledOf(p.pclusters, segs)
    requires OnlyUnder(w, p, q, c) && SameTables(p, q)
    ensures AllImageSegs(w, truth, q, i, segs)
  {
    forall s | s in segs
      ensures ImageSeg(w, truth, q, i, s)
    {
      forall x | x in SegRefs(p.pclusters, s)
        ensures Fetchable(w, q, x)
      {
        SiblingStaysFresh(w, p, q, c, x, i);
      }
    }
  }

  /** Sources the walk gave no extents are referred to by nobody while the image's own build
      splices plain ranges only. */
  ghost predicate RefersToRangesOnly(w: World, p: Plan, i: nat) {
    forall x: nat :: EntryRefers(p, i, x) ==> x < |w.members| && w.members[x].extents.Some?
  }

  lemma RangesOnlyKept(w: World, truth: seq<Bytes>, p: Plan, q: Plan, i: nat)
    requires Sound(w, truth, p) && RefersToRangesOnly(w, p, i) && SameEntry(p, q, i) && Grown(p, q)
    ensures RefersToRangesOnly(w, q, i)
  {
    SoundHere(w, truth, p, i);
    forall x: nat | EntryRefers(q, i, x)
      ensures x < |w.members| && w.members[x].extents.Some?
    {
      EntryRefersSame(w, truth, p, q, i, x);
    }
  }

  lemma SourceUnreferenced(w: World, truth: seq<Bytes>, p: Plan, i: nat, c: nat)
    requires Sound(w, truth, p) && RefersToRangesOnly(w, p, i) && IsKid(w, i, c) && w.members[c].extents.None?
    ensures Unreferenced(p, c)
  {
    forall j: nat
      ensures !EntryRefers(p, j, c)
    {
      assert EntryRefers(p, j, c) ==> IsKid(w, j, c);
    }
  }

  // ------------------------------------------------------------- late splices

  /** Splices already in the build and findings put in place are all fit to stand in it. */
  lemma AcceptedAreEntrySegs(w: World, truth: seq<Bytes>, p: Plan, i: nat, space: nat, runs: seq<Run>, kept: seq<Seg>, extra: seq<Seg>)
    requires i < |truth| == |w.members| && space in w.spaces && RunsHold(w.spaces[space], runs, truth[i])
    requires AllEntrySegs(w, truth, p, i, space, kept) && AllImageSegs(w, truth, p, i, extra)
    ensures AllEntrySegs(w, truth, p, i, space, Accepted(runs, kept, extra))
  {
    AcceptedElements(runs, kept, extra);
    forall s | s in Accepted(runs, kept, extra)
      ensures EntrySeg(w, truth, p, i, space, s)
    {
      if s !in kept {
        var t :| t in extra && Place(runs, t) == Some(s);
        PlacedIsFaithful(w.spaces[space], runs, truth[i], t);
      }
    }
  }

  /** What stands in a sound build, gaps aside, is fit to stand in it again. */
  lemma StandingSegs(w: World, truth: seq<Bytes>, p: Plan, i: nat)
    requires Sound(w, truth, p) && i in p.builds
    ensures var b := p.builds[i];
            i < |truth| == |w.members| && RunsLen(b.runs) == |truth[i]|
            && AllEntrySegs(w, truth, p, i, b.space, NonGaps(b.segs)) && AllApart(NonGaps(b.segs))
  {
    var b := p.builds[i];
    RunsLenIsSize(b.runs, 0, |truth[i]|);
    TiledNonGapsAreApart(b.segs, 0, |truth[i]|);
    NonGapsElements(b.segs);
    forall s | s in NonGaps(b.segs)
      ensures EntrySeg(w, truth, p, i, b.space, s)
    {
      var k :| 0 <= k < |b.segs| && b.segs[k] == s;
      forall x | x in SegRefs(p.pclusters, s)
        ensures IsKid(w, i, x) && Fetchable(w, p, x)
      {
        assert EntryRefers(p, i, x);
      }
    }
  }

  lemma EntrySegLens(w: World, truth: seq<Bytes>, p: Plan, i: nat, space: nat, segs: seq<Seg>)
    requires i < |truth| && AllEntrySegs(w, truth, p, i, space, segs)
    ensures forall s :: s in segs ==> Placeable(s, |truth[i]|) && s.len > 0
  {
  }
}
