/**
 Small containers at which minting comes to grief. Each is unchanged, and what its passes say is what
 planning its images comes to; the mint ends as said.
 */
module RecipeWorlds {
  import opened Wrappers
  import opened ByteStrings
  import opened ErofsMap
  import opened ErofsReader
  import opened ErofsFile
  import opened RecipePlan
  import opened RecipeTree
  import opened RecipeTiling
  import opened RecipePlacing
  import opened RecipePlanning
  import opened RecipeSure
  import opened RecipeDocument
  import opened RecipeCheck
  import opened RecipeSpool
  import opened RecipeReread
  import opened RecipeExposed
  import opened RecipeMint
  import opened RecipeTaken
  import opened RecipeGriefs
  import opened RecipePasses
  import opened RecipeImages
  import opened RecipeSmall
  import opened RecipeHoles

  const CLAIM: Evidence := Evidence(["https://example.org/file"], None)
  const NO_CLAIM: Evidence := Evidence([], None)

  function RootOf(kind: Kind, bytes: Bytes): Member {
    Member(kind, 0, None, |bytes|, Some(bytes), None, Some(0))
  }

  /** A member below `parent` with a space of its own. */
  function SpooledOf(kind: Kind, depth: nat, parent: nat, space: nat, bytes: Bytes): Member {
    Member(kind, depth, Some(parent), |bytes|, Some(bytes), None, Some(space))
  }

  /** A member below the root that is a range of its space. */
  function RangedOf(kind: Kind, runs: seq<Run>, bytes: Bytes): Member {
    Member(kind, 1, Some(0), |bytes|, Some(bytes), Some(Extents(0, runs)), None)
  }

  // ------------------------------------------------------------- passes

  /** The passes over a container's images: what planning each of them comes to. */
  function PassesOf(w: World, images: nat -> Option<Image>): Passes {
    (i: nat, s: set<nat>, l: Bytes) =>
      if i < |w.members| && images(i).Some? then ScanOf(w, i, images(i).value, Lengthen, OneByte, s, l) else Refused
  }

  lemma PassIs(w: World, images: nat -> Option<Image>, i: nat, s: set<nat>, l: Bytes)
    ensures PassesOf(w, images)(i, s, l)
            == if i < |w.members| && images(i).Some? then ScanOf(w, i, images(i).value, Lengthen, OneByte, s, l) else Refused
  {
  }

  /** An image without holes, whose maps cover its files. */
  predicate Orderly(w: World, i: nat, img: Image)
    requires i < |w.members|
  {
    && PackedInode(img.packed) && Solid(img.packed) && (w.members[i].space.Some? || w.members[i].extents.Some?)
    && (forall item :: item in img.files ==> Covers(item.plan.exts, 0, item.plan.size))
    && |img.files| == 1
  }

  /** Over orderly images the passes tell the truth, and never panic. */
  lemma OrderlyPassesHold(w: World, truth: seq<Bytes>, f: Codecs, sourcesOf: nat -> seq<nat>, images: nat -> Option<Image>)
    requires Unchanged(w, truth) && w.f == PlainCodecs(f)
    requires forall i :: 0 <= i < |truth| && images(i).Some? ==> Orderly(w, i, images(i).value)
    requires forall i: nat, k :: i < |truth| && 0 <= k < |sourcesOf(i)| ==> SourceKid(w, i, sourcesOf(i)[k])
    requires forall i: nat :: |sourcesOf(i)| <= 1
    ensures PassesHold(w, truth, sourcesOf, PassesOf(w, images)) && !SomeScanPanics(PassesOf(w, images))
  {
    hide ScanOf, Orderly, ScanHolds, Unchanged;
    assert |truth| == |w.members| by { SameMembers(w, truth); }
    forall i: nat, s: set<nat>, l: Bytes | i < |truth|
      ensures ScanHolds(w, truth, i, s, l, PassesOf(w, images)(i, s, l)) && !PassesOf(w, images)(i, s, l).Panics?
    {
      if images(i).Some? {
        OrderlyScan(w, truth, f, i, images(i).value, s, l);
      } else {
        RefusedHolds(w, truth, i, s, l);
      }
    }
  }

  lemma SameMembers(w: World, truth: seq<Bytes>)
    requires Unchanged(w, truth)
    ensures |truth| == |w.members|
  {
  }

  lemma RefusedHolds(w: World, truth: seq<Bytes>, i: nat, s: set<nat>, l: Bytes)
    requires i < |truth|
    ensures ScanHolds(w, truth, i, s, l, Refused)
  {
  }

  lemma OrderlyScan(w: World, truth: seq<Bytes>, f: Codecs, i: nat, img: Image, s: set<nat>, l: Bytes)
    requires Unchanged(w, truth) && w.f == PlainCodecs(f) && i < |truth| == |w.members| && Orderly(w, i, img)
    ensures var r := ScanOf(w, i, img, Lengthen, OneByte, s, l);
            ScanHolds(w, truth, i, s, l, r) && !r.Panics?
  {
    hide ScanOf, ScanHolds, FileOf, StreamOf, Covers;
    var rd := Reading(truth[i], img, Lengthen, OneByte, s);
    ViewIsTrue(w, truth, i);
    assert ReadsOf(w, truth, i, rd);
    SolidScans(w, truth, i, rd, l);
  }

  // ------------------------------------------------------------- a child that maps onto itself

  const FOLDED: seq<Run> := [Run(0, 0, 40), Run(40, 0, 40)]

  /** One file that a container lists as the same forty bytes twice. */
  function FoldedWorld(f: Codecs): World {
    World(PlainCodecs(f), [RootOf(Plain, Zeros(100)), RangedOf(Plain, FOLDED, Zeros(80))], [[1], []], [NO_CLAIM, CLAIM], map[0 := Zeros(100)], 1)
  }

  lemma FoldedHolds(f: Codecs)
    ensures Unchanged(FoldedWorld(f), [Zeros(100), Zeros(80)]) && FoldsFirst(FoldedWorld(f), 0)
  {
    var w, truth := FoldedWorld(f), [Zeros(100), Zeros(80)];
    assert MemberTrue(w, truth, 0);
    assert RunsTile(FOLDED[1..][1..], 80, 80) && RunsTile(FOLDED[1..], 40, 80);
    assert forall r :: r in FOLDED ==> RunHolds(Zeros(100), r, Zeros(80));
    assert MemberTrue(w, truth, 1);
    assert IsKid(w, 0, 1);
    var runs := [Run(0, 0, 100)];
    assert HostOf(runs, 0, 40) == Some(0);
    var pieces := PiecesOf(runs, FOLDED, 1).value;
    assert pieces == [Child(1, 0, 40, 0, 0), Child(1, 40, 40, 0, 0)];
    assert MappedIn(w, 0, 1) == Some(pieces);
    assert pieces[1] in pieces[1..] && !Apart(pieces[0], pieces[1]);
  }

  function NoImages(i: nat): Option<Image> {
    None
  }

  function NoSources(i: nat): seq<nat> {
    []
  }

  /** The tiling assertion fires. */
  method MintFolded(f: Codecs) returns (r: Outcome)
    ensures r.Panicked?
  {
    var w := FoldedWorld(f);
    FoldedHolds(f);
    hide Goes, MadeBy, Unchanged, FoldsFirst;
    OrderlyPassesHold(w, [Zeros(100), Zeros(80)], f, NoSources, NoImages);
    ghost var plan;
    r, plan := Mint(w, [Zeros(100), Zeros(80)], NoSources, PassesOf(w, NoImages), 0, true);
  }

  // ------------------------------------------------------------- a cover across a hole

  const ZERO_PAIR: seq<Bytes> := [Zeros(200), Zeros(200)]

  /** An image over one claimed file. */
  function PairWorld(f: Codecs, truth: seq<Bytes>): World
    requires |truth| == 2
  {
    World(PlainCodecs(f), [RootOf(Erofs, truth[0]), SpooledOf(Plain, 1, 0, 1, truth[1])], [[1], []], [NO_CLAIM, CLAIM],
          map[0 := truth[0], 1 := truth[1]], 1)
  }

  lemma PairHolds(f: Codecs, truth: seq<Bytes>)
    requires |truth| == 2 && |truth[0]| >= IDENTITY_MIN_BYTES && |truth[1]| >= IDENTITY_MIN_BYTES
    ensures Unchanged(PairWorld(f, truth), truth)
    ensures forall i: nat, c: nat :: IsKid(PairWorld(f, truth), i, c) <==> i == 0 && c == 1
    ensures Single(PairWorld(f, truth), PairSources, 0)
  {
    var w := PairWorld(f, truth);
    assert MemberTrue(w, truth, 0) && MemberTrue(w, truth, 1);
    assert IsKid(w, 0, 1);
  }

  function PairSources(i: nat): seq<nat> {
    if i == 0 then [1] else []
  }

  function CrossedImage(i: nat): Option<Image> {
    if i == 0 then Some(Crossed(1)) else None
  }

  lemma CrossedPassesHold(f: Codecs)
    ensures var passes := PassesOf(PairWorld(f, ZERO_PAIR), CrossedImage);
            PassesHold(PairWorld(f, ZERO_PAIR), ZERO_PAIR, PairSources, passes) && SingleScan(PairSources, passes, 0, []).Panics?
  {
    hide ScanOf, PassesOf, Unchanged;
    var w, passes := PairWorld(f, ZERO_PAIR), PassesOf(PairWorld(f, ZERO_PAIR), CrossedImage);
    PairHolds(f, ZERO_PAIR);
    forall i: nat, s: set<nat>, l: Bytes
      ensures passes(i, s, l) == if i != 0 then Refused else if 1 in s then Panics else Scanned([], l)
    {
      PassIs(w, CrossedImage, i, s, l);
      if i == 0 {
        CrossedScan(f, s, l);
      }
    }
    assert IsKid(w, 0, 1);
  }

  lemma CrossedScan(f: Codecs, s: set<nat>, l: Bytes)
    ensures ScanOf(PairWorld(f, ZERO_PAIR), 0, Crossed(1), Lengthen, OneByte, s, l) == if 1 in s then Panics else Scanned([], l)
  {
    hide ScanOf;
    var w := PairWorld(f, ZERO_PAIR);
    PairHolds(f, ZERO_PAIR);
    HoledIs(e => None, Shifted);
    assert HoldsWhole(w, ZERO_PAIR, 0, 1, 50, Crossed(1));
    if 1 in s {
      CrossedScanPanics(w, ZERO_PAIR, 0, 1, s, l);
    } else {
      NothingScans(w, ZERO_PAIR, 0, 1, 50, Crossed(1), s, l);
    }
  }

  /** The sweep over an image whose file lies across a hole of the packed inode panics, and so does the mint. */
  method MintCrossed(f: Codecs) returns (r: Outcome)
    ensures r.Panicked?
  {
    var w := PairWorld(f, ZERO_PAIR);
    PairHolds(f, ZERO_PAIR);
    CrossedPassesHold(f);
    hide Goes, MadeBy, Unchanged, PassesHold, Single;
    ghost var plan;
    r, plan := Mint(w, ZERO_PAIR, PairSources, PassesOf(w, CrossedImage), 0, true);
  }

  // ------------------------------------------------------------- a window with a hole

  function GapPair(): seq<Bytes> {
    [Alike(200, 1), GappedFile()]
  }

  /** Planning an image whose file's halves take in a hole of the packed inode comes back with a node that is
      not true. */
  lemma GappedPairIsWrong(f: Codecs, l: Bytes)
    ensures Unchanged(PairWorld(f, GapPair()), GapPair())
    ensures var w := PairWorld(f, GapPair());
            var r := ScanOf(w, 0, Gapped(1), Blank, OneByte, {1}, l);
            r.Scanned? && Node(GappedNode(1), 0) in r.found && !FoundHolds(w, GapPair(), 0, {1}, r.literals, Node(GappedNode(1), 0))
  {
    hide ScanOf, FoundHolds;
    PairHolds(f, GapPair());
    GappedScanIsWrong(PairWorld(f, GapPair()), GapPair(), f, 0, 1, l);
  }

  // ------------------------------------------------------------- a table within the table

  const ALL_ZEROS: seq<Bytes> := [Zeros(100), Zeros(100), Zeros(100)]

  /** An image that slices an image that slices a claimed file. */
  function NestedWorld(f: Codecs): World {
    World(PlainCodecs(f), [RootOf(Erofs, Zeros(100)), SpooledOf(Erofs, 1, 0, 1, Zeros(100)), SpooledOf(Plain, 2, 1, 2, Zeros(100))],
          [[1], [2], []], [NO_CLAIM, NO_CLAIM, CLAIM], map[0 := Zeros(100), 1 := Zeros(100), 2 := Zeros(100)], 2)
  }

  function NestedSources(i: nat): seq<nat> {
    if i < 2 then [i + 1] else []
  }

  function NestedImage(i: nat): Option<Image> {
    if i < 2 then Some(Holding(i + 1)) else None
  }

  lemma NestedHolds(f: Codecs)
    ensures Unchanged(NestedWorld(f), ALL_ZEROS)
    ensures forall i: nat, c: nat :: IsKid(NestedWorld(f), i, c) <==> i < 2 && c == i + 1
  {
    var w := NestedWorld(f);
    forall i | 0 <= i < 3
      ensures MemberTrue(w, ALL_ZEROS, i)
    {
      assert i == 0 || i == 1 || i == 2;
    }
  }

  lemma NestedPassesHold(f: Codecs)
    ensures var w := NestedWorld(f);
            PassesHold(w, ALL_ZEROS, NestedSources, PassesOf(w, NestedImage)) && !SomeScanPanics(PassesOf(w, NestedImage))
  {
    var w := NestedWorld(f);
    NestedHolds(f);
    HoldingIsOrderly(w, 0);
    HoldingIsOrderly(w, 1);
    forall i: nat, k | i < 3 && 0 <= k < |NestedSources(i)|
      ensures SourceKid(w, i, NestedSources(i)[k])
    {
      assert IsKid(w, i, i + 1);
    }
    OrderlyPassesHold(w, ALL_ZEROS, f, NestedSources, NestedImage);
  }

  lemma HoldingIsOrderly(w: World, i: nat)
    requires i < |w.members| && w.members[i].space.Some?
    ensures Orderly(w, i, Holding(i + 1))
  {
    HoldingIs(Zeros(100), i + 1);
    var exts := Holding(i + 1).files[0].plan.exts;
    assert exts[1..] == [] && Covers(exts[1..], 100, 100);
  }

  lemma NestedScan(f: Codecs, i: nat, s: set<nat>, l: Bytes)
    requires i < 2
    ensures PassesOf(NestedWorld(f), NestedImage)(i, s, l)
            == if i + 1 in s then Scanned([Splice(Tabled(i + 1, 0, 100, 0, 0))], l) else Scanned([], l)
  {
    hide ScanOf, PassesOf;
    var w := NestedWorld(f);
    PassIs(w, NestedImage, i, s, l);
    NestedHolds(f);
    HoldingIs(Zeros(100), i + 1);
    assert HoldsWhole(w, ALL_ZEROS, i, i + 1, 0, Holding(i + 1));
    if i + 1 in s {
      HoldingScan(w, ALL_ZEROS, i, i + 1, s, l);
    } else {
      NothingScans(w, ALL_ZEROS, i, i + 1, 0, Holding(i + 1), s, l);
    }
  }

  lemma NestedIsSure(f: Codecs, i: nat)
    requires i < 2
    ensures Sure(NestedWorld(f), NestedSources, PassesOf(NestedWorld(f), NestedImage), i)
    decreases 2 - i
  {
    hide PassesOf;
    var w, passes := NestedWorld(f), PassesOf(NestedWorld(f), NestedImage);
    NestedHolds(f);
    assert IsKid(w, i, i + 1);
    assert LogicalHostOf([Run(0, 0, 100)], 0, 100) == Some(0);
    forall s: set<nat>, l: Bytes | i + 1 in s
      ensures OpensWith(w, i, i + 1, passes(i, s, l))
    {
      NestedScan(f, i, s, l);
    }
    assert OneSource(w, NestedSources, passes, i, i + 1);
    if i == 0 {
      NestedIsSure(f, 1);
      assert IsKid(w, 1, 2) && Under(w, 1, 1) && Under(w, 2, 1);
      assert SubtreeFetchable(w, 1);
    }
  }

  lemma NestedIsCalm(f: Codecs)
    ensures !SomeChildSelfOverlaps(NestedWorld(f)) && forall l: Bytes :: !LosesSpool(PassesOf(NestedWorld(f), NestedImage), l)
  {
    hide PassesOf;
    NestedHolds(f);
    DisjointRunsNeverFold(NestedWorld(f), ALL_ZEROS);
    forall i: nat, s: set<nat>, l: Bytes
      ensures !PassesOf(NestedWorld(f), NestedImage)(i, s, l).SpoolLost?
    {
      if i < 2 {
        NestedScan(f, i, s, l);
      } else {
        NoImageRefused(NestedWorld(f), NestedImage, i, s, l);
      }
    }
  }

  lemma NoImageRefused(w: World, images: nat -> Option<Image>, i: nat, s: set<nat>, l: Bytes)
    requires images(i).None?
    ensures PassesOf(w, images)(i, s, l) == Refused
  {
  }

  /** Writing the table panics. */
  method MintNestedWorld(f: Codecs) returns (r: Outcome)
    ensures r.TableIncomplete?
  {
    NestedHolds(f);
    NestedPassesHold(f);
    NestedIsSure(f, 0);
    NestedIsCalm(f);
    hide Unchanged, PassesHold, Sure, SomeChildSelfOverlaps, SomeScanPanics, LosesSpool, PassesOf;
    r := MintNested(NestedWorld(f), ALL_ZEROS, NestedSources, PassesOf(NestedWorld(f), NestedImage), 0);
  }
}
