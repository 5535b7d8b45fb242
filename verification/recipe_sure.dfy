/**
 Inputs whose plan can be told beforehand: images the erofs passes are sure to splice, and members
 whose plan must come to grief.
 */
module RecipeSure {
  import opened Wrappers
  import opened ByteStrings
  import opened RecipePlan
  import opened RecipeTree
  import opened RecipeTiling
  import opened RecipePlacing
  import opened RecipePlanning

  // ------------------------------------------------------------- images whose plan is sure

  /** A finding that some run of the image takes in whole. */
  predicate HasPlace(runs: seq<Run>, x: Found) {
    match x
    case Node(node, pa) => LogicalHostOf(runs, pa, node.size).Some?
    case Splice(s) => Place(runs, s).Some?
  }

  /** The first finding slices the one source there is, and nothing is in its way. */
  predicate Opening(p: Plan, i: nat, planned: seq<nat>, found: seq<Found>) {
    && |planned| == 1 && found != [] && planned[0] in FoundRefs(found[0])
    && i in p.builds && NonGaps(p.builds[i].segs) == [] && HasPlace(p.builds[i].runs, found[0])
  }

  /** The build of `i` slices `c` the way finding `x` does. */
  ghost predicate StandsFor(p: Plan, i: nat, c: nat, x: Found) {
    i in p.builds && exists s :: s in p.builds[i].segs && SlicesAs(p, c, x, s)
  }

  predicate SlicesAs(p: Plan, c: nat, x: Found, s: Seg) {
    c in SegTabled(p.pclusters, s) && (x.Node? ==> s.PCluster? && s.pc < |p.pclusters| && p.pclusters[s.pc] == x.node)
  }

  lemma FirstIsAccepted(runs: seq<Run>, extra: seq<Seg>)
    requires extra != [] && Place(runs, extra[0]).Some?
    ensures Place(runs, extra[0]).value in Accepted(runs, [], extra)
  {
    var s := Place(runs, extra[0]).value;
    assert [] + [s] == [s];
    AcceptedElements(runs, [s], extra[1..]);
    assert Accepted(runs, [], extra)[0] == s;
  }

  lemma PlacedSlices(p: Plan, runs: seq<Run>, x: Found, s: Seg, c: nat)
    requires Enters(p.pclusters, x, s) && HasPlace(runs, x) && c in FoundRefs(x)
    ensures c in SegTabled(p.pclusters, s) && Place(runs, s).Some? && SlicesAs(p, c, x, Place(runs, s).value)
  {
  }

  /** An erofs image with no ranged children and one source, which the first finding of every scan that
      may slice it does slice. */
  ghost predicate OneSource(w: World, sourcesOf: nat -> seq<nat>, passes: Passes, i: nat, c: nat) {
    && IsKid(w, i, c) && w.members[i].kind.Erofs? && Nameable(w.members[i]) && HomeOf(w, i).Some? && sourcesOf(i) == [c]
    && (forall d: nat :: IsKid(w, i, d) ==> w.members[d].extents.None?)
    && (forall s: set<nat>, l: Bytes :: c in s ==> OpensWith(w, i, c, passes(i, s, l)))
  }

  predicate OpensWith(w: World, i: nat, c: nat, scan: Scan)
    requires i < |w.members|
  {
    && scan.Scanned? && scan.found != [] && c in FoundRefs(scan.found[0])
    && HomeOf(w, i).Some? && HasPlace(HomeOf(w, i).value.1, scan.found[0])
  }

  /** Every such scan opens with a node that has a spooled literal. */
  ghost predicate SurelySpools(passes: Passes, i: nat, c: nat) {
    forall s: set<nat>, l: Bytes :: c in s ==>
      passes(i, s, l).Scanned? && passes(i, s, l).found != [] && passes(i, s, l).found[0].Node? && Spools(passes(i, s, l).found[0].node)
  }

  predicate Spools(node: PClusterNode) {
    exists k :: 0 <= k < |node.inputs| && Spooled(node.inputs[k])
  }

  /** Such an image over a source that is claimed, or is such an image itself. */
  ghost predicate Sure(w: World, sourcesOf: nat -> seq<nat>, passes: Passes, i: nat)
    decreases if i < |w.members| && w.members[i].depth <= w.limit then w.limit - w.members[i].depth else 0
  {
    && |sourcesOf(i)| == 1 && OneSource(w, sourcesOf, passes, i, sourcesOf(i)[0])
    && var c := sourcesOf(i)[0];
       Claimed(w, c)
       || (w.evidence[c].archive.None? && SubtreeFetchable(w, c) && w.members[c].depth <= w.limit && Sure(w, sourcesOf, passes, c))
  }

  /** What becomes of it: its build slices the source, and so on down. */
  ghost predicate Stacked(w: World, sourcesOf: nat -> seq<nat>, passes: Passes, p: Plan, i: nat)
    decreases if i < |w.members| && w.members[i].depth <= w.limit then w.limit - w.members[i].depth else 0
  {
    && |sourcesOf(i)| == 1
    && var c := sourcesOf(i)[0];
    && IsKid(w, i, c) && Slices(passes, p, i, c)
    && (Claimed(w, c) || (w.members[c].depth <= w.limit && Stacked(w, sourcesOf, passes, p, c)))
  }

  ghost predicate Slices(passes: Passes, p: Plan, i: nat, c: nat) {
    && i in p.builds
    && exists s :: s in p.builds[i].segs && c in SegTabled(p.pclusters, s)
                   && (SurelySpools(passes, i, c) ==> s.PCluster? && s.pc < |p.pclusters| && Spools(p.pclusters[s.pc]))
  }

  lemma SlicesGrows(passes: Passes, p: Plan, q: Plan, i: nat, c: nat)
    requires Slices(passes, p, i, c) && p.pclusters <= q.pclusters && SameEntry(p, q, i)
    ensures Slices(passes, q, i, c)
  {
    var s :| s in p.builds[i].segs && c in SegTabled(p.pclusters, s)
             && (SurelySpools(passes, i, c) ==> s.PCluster? && s.pc < |p.pclusters| && Spools(p.pclusters[s.pc]));
    assert s in q.builds[i].segs && SegTabled(p.pclusters, s) == SegTabled(q.pclusters, s);
  }

  /** What is stacked stays so while nothing at or under it changes. */
  lemma {:induction false} StackedGrows(w: World, sourcesOf: nat -> seq<nat>, passes: Passes, p: Plan, q: Plan, i: nat)
    requires Stacked(w, sourcesOf, passes, p, i) && p.pclusters <= q.pclusters
    requires forall x: nat :: Under(w, x, i) ==> SameEntry(p, q, x)
    ensures Stacked(w, sourcesOf, passes, q, i)
    decreases if i < |w.members| && w.members[i].depth <= w.limit then w.limit - w.members[i].depth else 0
  {
    hide Slices;
    var c := sourcesOf(i)[0];
    assert Under(w, i, i);
    SlicesGrows(passes, p, q, i, c);
    if !Claimed(w, c) {
      forall x: nat | Under(w, x, c)
        ensures SameEntry(p, q, x)
      {
        UnderKidIsUnder(w, x, c, i);
      }
      StackedGrows(w, sourcesOf, passes, p, q, c);
    }
  }

  lemma StandingSlices(w: World, passes: Passes, p: Plan, i: nat, c: nat, s: set<nat>, l: Bytes)
    requires i < |w.members| && OpensWith(w, i, c, passes(i, s, l)) && c in s && StandsFor(p, i, c, passes(i, s, l).found[0])
    ensures Slices(passes, p, i, c)
  {
    var x := passes(i, s, l).found[0];
    var seg :| seg in p.builds[i].segs && SlicesAs(p, c, x, seg);
  }

  lemma OpeningIsKept(was: Plan, mid: Plan, i: nat, planned: seq<nat>, found: seq<Found>, segs: seq<Seg>)
    requires Opening(was, i, planned, found) && mid == was.(pclusters := mid.pclusters, literals := mid.literals)
    requires |segs| == |found| && forall k :: 0 <= k < |found| ==> Enters(mid.pclusters, found[k], segs[k])
    ensures SetOf(planned) <= TabledOf(mid.pclusters, segs) && segs != []
  {
    PlacedSlices(mid, was.builds[i].runs, found[0], segs[0], planned[0]);
    assert segs[0] in segs;
  }

  lemma SlicesSame(p: Plan, q: Plan, c: nat, x: Found, s: Seg)
    requires SlicesAs(p, c, x, s) && p.pclusters == q.pclusters
    ensures SlicesAs(q, c, x, s)
  {
  }

  lemma FirstStands(runs: seq<Run>, extra: seq<Seg>, segs: seq<Seg>)
    requires extra != [] && Place(runs, extra[0]).Some? && NonGaps(segs) == SortByAt(Accepted(runs, [], extra))
    ensures Place(runs, extra[0]).value in segs
  {
    FirstIsAccepted(runs, extra);
    SameElements(SortByAt(Accepted(runs, [], extra)), Accepted(runs, [], extra));
    NonGapsElements(segs);
  }

  lemma OpeningStands(was: Plan, mid: Plan, q: Plan, i: nat, planned: seq<nat>, found: seq<Found>, segs: seq<Seg>)
    requires Opening(was, i, planned, found) && mid == was.(pclusters := mid.pclusters, literals := mid.literals)
    requires |segs| == |found| && forall k :: 0 <= k < |found| ==> Enters(mid.pclusters, found[k], segs[k])
    requires i in q.builds && q == mid.(tabled := q.tabled, builds := mid.builds[i := q.builds[i]])
    requires NonGaps(q.builds[i].segs) == SortByAt(Accepted(was.builds[i].runs, NonGaps(was.builds[i].segs), segs))
    ensures StandsFor(q, i, planned[0], found[0])
  {
    var runs := was.builds[i].runs;
    hide Place, Accepted, SortByAt, NonGaps, SlicesAs, HasPlace, Enters;
    PlacedSlices(mid, runs, found[0], segs[0], planned[0]);
    var s := Place(runs, segs[0]).value;
    FirstStands(runs, segs, q.builds[i].segs);
    assert SlicesAs(q, planned[0], found[0], s) by { SlicesSame(mid, q, planned[0], found[0], s); }
  }

  lemma OthersStand(was: Plan, mid: Plan, q: Plan, i: nat)
    requires mid == was.(pclusters := mid.pclusters, literals := mid.literals)
    requires i in q.builds && q == mid.(tabled := q.tabled, builds := mid.builds[i := q.builds[i]])
    ensures forall x: nat :: x != i ==> SameEntry(was, q, x)
  {
  }

  // ------------------------------------------------------------- members whose plan must come to grief

  /** The only child of `i` maps onto itself, and is claimed, so it is taken as it is. */
  predicate FoldsFirst(w: World, i: nat) {
    && IsMember(w, i) && w.members[i].kind.Plain? && Nameable(w.members[i]) && |w.kids[i]| == 1
    && SelfOverlaps(w, i, w.kids[i][0]) && Claimed(w, w.kids[i][0])
  }

  // ------------------------------------------------------------- images side by side

  /** What planning adds to, or loses: the nodes, all that was ever spooled, and where spools were lost. */
  datatype Ledger = Ledger(pclusters: seq<PClusterNode>, literals: Bytes, drops: seq<nat>)

  function LedgerOf(p: Plan): Ledger {
    Ledger(p.pclusters, p.literals, p.drops)
  }

  /** An erofs image with no ranged children and one source, which is claimed. */
  ghost predicate Single(w: World, sourcesOf: nat -> seq<nat>, i: nat) {
    && IsMember(w, i) && w.members[i].kind.Erofs? && Nameable(w.members[i]) && HomeOf(w, i).Some?
    && |sourcesOf(i)| == 1 && IsKid(w, i, sourcesOf(i)[0]) && Claimed(w, sourcesOf(i)[0])
    && forall d: nat :: IsKid(w, i, d) ==> w.members[d].extents.None?
  }

  /** The scan of such an image when `literals` is all that was ever spooled. */
  function SingleScan(sourcesOf: nat -> seq<nat>, passes: Passes, i: nat, literals: Bytes): Scan {
    if |sourcesOf(i)| == 1 then passes(i, {sourcesOf(i)[0]}, literals) else Refused
  }

  /** What planning it does to the ledger. */
  function Booked(scan: Scan, was: Ledger): Ledger {
    match scan
    case Scanned(found, literals) => Ledger(was.pclusters + NodesIn(found), literals, was.drops)
    case SpoolLost(files) => Ledger(was.pclusters + NodesIn(files), was.literals, was.drops + [|was.literals|])
    case _ => was
  }

  /** The scan opens with a finding that slices the one source and has a place. */
  predicate SingleOpens(w: World, sourcesOf: nat -> seq<nat>, i: nat, scan: Scan) {
    i < |w.members| && |sourcesOf(i)| == 1 && OpensWith(w, i, sourcesOf(i)[0], scan)
  }

  /** And the build of the image slices it that way. */
  ghost predicate SingleStands(sourcesOf: nat -> seq<nat>, p: Plan, i: nat, scan: Scan) {
    |sourcesOf(i)| == 1 && scan.Scanned? && scan.found != [] && StandsFor(p, i, sourcesOf(i)[0], scan.found[0])
  }

  lemma StandsLonger(sourcesOf: nat -> seq<nat>, p: Plan, q: Plan, i: nat, scan: Scan)
    requires SingleStands(sourcesOf, p, i, scan) && p.pclusters <= q.pclusters && SameEntry(p, q, i)
    ensures SingleStands(sourcesOf, q, i, scan)
  {
    var s :| s in p.builds[i].segs && SlicesAs(p, sourcesOf(i)[0], scan.found[0], s);
    assert SlicesAs(q, sourcesOf(i)[0], scan.found[0], s);
  }

  /** A plain container of such images, none of them claimed itself; the first has a place in it. */
  ghost predicate Shelf(w: World, sourcesOf: nat -> seq<nat>, i: nat) {
    && IsMember(w, i) && w.members[i].kind.Plain? && Nameable(w.members[i]) && HomeOf(w, i).Some?
    && w.kids[i] != [] && w.kids[i][0] < |w.members| && MappedIn(w, i, w.kids[i][0]).Some?
    && forall k :: 0 <= k < |w.kids[i]| ==> OnShelf(w, sourcesOf, i, w.kids[i][k])
  }

  ghost predicate OnShelf(w: World, sourcesOf: nat -> seq<nat>, i: nat, c: nat)
    requires i < |w.members|
  {
    && Single(w, sourcesOf, c) && !Claimed(w, c) && HomeOf(w, i).Some? && Rangeable(w, HomeOf(w, i).value.0, c).Some?
  }

  /** And the scan of the first one opens with a finding that has a place, when nothing was spooled yet. */
  ghost predicate OpenShelf(w: World, sourcesOf: nat -> seq<nat>, passes: Passes, i: nat) {
    Shelf(w, sourcesOf, i) && SingleOpens(w, sourcesOf, w.kids[i][0], SingleScan(sourcesOf, passes, w.kids[i][0], []))
  }

  lemma FirstIsSingle(w: World, sourcesOf: nat -> seq<nat>, passes: Passes, i: nat)
    requires OpenShelf(w, sourcesOf, passes, i)
    ensures Shelf(w, sourcesOf, i) && i < |w.kids| && w.kids[i] != [] && Single(w, sourcesOf, w.kids[i][0])
    ensures SingleOpens(w, sourcesOf, w.kids[i][0], SingleScan(sourcesOf, passes, w.kids[i][0], []))
  {
    assert OnShelf(w, sourcesOf, i, w.kids[i][0]);
  }

  /** The ledger when the first `n` of them have been planned, one after another. */
  function ShelfLedger(sourcesOf: nat -> seq<nat>, passes: Passes, kids: seq<nat>, was: Ledger, n: nat): Ledger
    requires n <= |kids|
  {
    if n == 0 then was
    else
      var before := ShelfLedger(sourcesOf, passes, kids, was, n - 1);
      Booked(SingleScan(sourcesOf, passes, kids[n - 1], before.literals), before)
  }

  /** What becomes of a shelf: its first image is spliced in, the ledger has every image's entries, and only
      children are spliced. */
  ghost predicate Shelved(w: World, sourcesOf: nat -> seq<nat>, passes: Passes, was: Ledger, p: Plan, i: nat) {
    && i < |w.kids| && w.kids[i] != [] && i in p.builds
    && LedgerOf(p) == ShelfLedger(sourcesOf, passes, w.kids[i], was, |w.kids[i]|)
    && SingleStands(sourcesOf, p, w.kids[i][0], SingleScan(sourcesOf, passes, w.kids[i][0], was.literals))
    && (exists s :: s in p.builds[i].segs && s.Child? && s.idx == w.kids[i][0])
    && (forall s :: s in p.builds[i].segs ==> s.Gap? || s.Child?)
  }
}
