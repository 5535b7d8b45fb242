/**
 Two images whose packed inode has a hole: over one the sweep panics, and from the other it makes a node
 that is not true.
 */
module RecipeHoles {
  import opened Wrappers
  import opened ByteStrings
  import opened ErofsMap
  import opened ErofsRaw
  import opened ErofsReader
  import opened ErofsFile
  import opened RecipePlan
  import opened RecipeTree
  import opened RecipeTiling
  import opened RecipeCovers
  import opened RecipePCluster
  import opened RecipePlanning
  import opened RecipeHashing
  import opened RecipeSweep
  import opened RecipePasses
  import opened RecipeImages
  import opened RecipeSmall

  // ------------------------------------------------------------- a packed inode with a hole

  /** Two pclusters of a hundred bytes and as much of nothing between them. */
  function Holed(alg: Alg): ZPlan {
    ZPlan(300, [Ext(0, 100, Raw(0, 100, alg)), Ext(100, 100, Zero), Ext(200, 100, Raw(100, 100, Shifted))])
  }

  function FirstPc(alg: Alg): StoredPc {
    StoredOf(Holed(alg).exts[0])
  }

  const SECOND_PC: StoredPc := StoredPc(200, 100, 100, 100, false, None)

  lemma HoledIs(decode: Decoder, alg: Alg)
    ensures PackedInode(Holed(alg))
    ensures OwnPClusters(Holed(alg).exts) == [FirstPc(alg), SECOND_PC]
    ensures var exts := Holed(alg).exts;
            && DecodesOf(decode, exts) == [ExtBytes(decode, [], exts[0]), ExtBytes(decode, [], exts[2])]
            && StreamOf(decode, exts) == PartOfStream(decode, exts[0]) + Zeros(100) + PartOfStream(decode, exts[2])
  {
    hide OwnPClusters, DecodesOf, StreamOf, PartOfStream, ExtBytes, PackedInode;
    var exts := Holed(alg).exts;
    var a, b, c := exts[0], exts[1], exts[2];
    HoledCovers(alg);
    NoExtents(decode);
    OneMore(decode, [], a);
    OneMore(decode, [a], b);
    OneMore(decode, [a, b], c);
    HoleIsZeros(decode, b);
    assert [] + [a] == [a] && [a] + [b] == [a, b] && [a, b] + [c] == exts;
    assert [] + PartOfStream(decode, a) == PartOfStream(decode, a);
  }

  lemma HoleIsZeros(decode: Decoder, e: Ext)
    requires e.src.Zero?
    ensures PartOfStream(decode, e) == Zeros(e.llen)
  {
  }

  lemma HoledCovers(alg: Alg)
    ensures PackedInode(Holed(alg))
  {
    var exts := Holed(alg).exts;
    var two, one := exts[1..], exts[2..];
    assert two[1..] == one && one[1..] == [];
    assert Covers(one, 200, 300);
    assert Covers(two, 100, 300);
  }

  lemma ShiftedDecodes(image: Bytes, blk: nat, inflate: Inflate, e: Ext)
    requires e.src.Raw? && e.src.alg.Shifted? && e.src.plen == e.llen == 100 && e.src.pa + 100 <= |image|
    ensures ExtBytes(DecoderOf(image, blk, inflate), [], e) == Some(Cut(image, e.src.pa, 100))
  {
    assert Cut(image, e.src.pa, 100)[..100] == Cut(image, e.src.pa, 100);
  }

  // ------------------------------------------------------------- the sweep panics

  /** A file of two hundred bytes lies across the hole, and the build checks its arithmetic. */
  function Crossed(y: nat): Image {
    Image([WholeFile(y, 50, 200)], Holed(Shifted), 0x1000, 0, true)
  }

  lemma {:induction false} SomeCovered(c: Cover, at: nat, end: nat, x: nat)
    requires at <= x < end && c.pstart <= x < c.End()
    ensures CoveredBytes([c], at, end) > 0
    decreases end - at
  {
    assert c in [c];
    if at < x {
      SomeCovered(c, at + 1, end, x);
    }
  }

  /** Where both pclusters are worth trying, both must decode. */
  lemma BothTried(covers: seq<Cover>, pcs: seq<StoredPc>, a: Elig, b: Elig)
    requires |pcs| == 2 && SortCovers(covers) == covers && !a.Leave? && !b.Leave?
    requires Eligible(covers, pcs[0]) == a && Eligible(covers, pcs[1]) == b
    ensures EligibleHere(covers, pcs) == [a, b] && NeedHere(covers, pcs) == [true, true] && Tries(covers, pcs)
  {
    hide Eligible, SortCovers, InUse, Overlaps;
  }

  lemma CrossedIsEligible(y: nat)
    ensures var c, pcs := Cover(y, 0, 50, 200, false), [FirstPc(Shifted), SECOND_PC];
            && EligibleHere([c], pcs) == [TryVerbatim, TryVerbatim] && UsedHere([c], pcs) == [c] && NeedHere([c], pcs) == [true, true]
            && Tries([c], pcs)
  {
    hide CoveredBytes, SortCovers, EligibleHere, NeedHere, UsedHere, Tries;
    var c, pcs := Cover(y, 0, 50, 200, false), [FirstPc(Shifted), SECOND_PC];
    LoneCover(c, pcs);
    SomeCovered(c, 0, 100, 50);
    SomeCovered(c, 200, 300, 200);
    BothTried([c], pcs, TryVerbatim, TryVerbatim);
    assert !EligibleHere([c], pcs)[0].Leave? && Overlaps(c, pcs[0]);
  }

  /** The cover runs into the hole, and the second pcluster trips over it. */
  lemma CrossedTrips(m: Marks, y: nat)
    requires m.used == [Cover(y, 0, 50, 200, false)] && m.checked
    ensures TripsHere(m, [FirstPc(Shifted), SECOND_PC], [true, true], 1)
  {
    hide TripsHere;
    var pcs := [FirstPc(Shifted), SECOND_PC];
    SecondTrips(m, pcs, [true, true]);
  }

  lemma SecondTrips(m: Marks, pcs: seq<StoredPc>, need: seq<bool>)
    requires |m.used| == 1 && |pcs| == |need| == 2 && m.checked && !m.used[0].proved && need[1]
    requires pcs[0].la <= m.used[0].pstart < pcs[0].End() < m.used[0].End() && pcs[0].End() < pcs[1].la
    ensures TripsHere(m, pcs, need, 1)
  {
    assert RunsPast(m, pcs, 0, 0, 0);
    assert TripsAt(m, pcs, need, 0, 0, 0, 1);
  }

  lemma CrossedScanPanics(w: World, truth: seq<Bytes>, i: nat, y: nat, sources: set<nat>, l: Bytes)
    requires HoldsWhole(w, truth, i, y, 50, Crossed(y)) && y in sources && |truth[y]| == 200 && |truth[i]| >= 200
    ensures ScanOf(w, i, Crossed(y), Lengthen, OneByte, sources, l) == Panics
  {
    hide ScanOf, HoldsWhole, EligibleHere, UsedHere, NeedHere, Tries, TripsHere, StreamOf, DecodeRaw;
    WholeHasDigest(w, truth, i, y, 50, Crossed(y));
    var c, pcs := Cover(y, 0, 50, 200, false), [FirstPc(Shifted), SECOND_PC];
    var exts := Holed(Shifted).exts;
    WholeFileScan(w, truth, i, y, 50, Crossed(y), sources, l);
    HoledIs(DecoderOf(truth[i], 0x1000, Lengthen), Shifted);
    ShiftedDecodes(truth[i], 0x1000, Lengthen, exts[0]);
    ShiftedDecodes(truth[i], 0x1000, Lengthen, exts[2]);
    CrossedIsEligible(y);
    var decoded := [Some(Cut(truth[i], 0, 100)), Some(Cut(truth[i], 100, 100))];
    var m, s := MarksHere(w, [c], pcs, true), SiteHere(w, truth[i], [c], pcs, decoded);
    CrossedTrips(m, y);
    assert Emits(s, TryVerbatim, 0);
    assert PanicsAt(m, s, [TryVerbatim, TryVerbatim], [true, true], 1);
  }

  // ------------------------------------------------------------- a node that is not true

  /** A file of three hundred bytes in two halves, which the file pass proves, over the whole stream. */
  function Gapped(y: nat): Image {
    Image([FileItem(y, ZPlan(300, [Ext(0, 150, Packed(0)), Ext(150, 150, Packed(150))]))], Holed(Lzma), 0x1000, 0, true)
  }

  /** A decompressor that reads everything as zeros. */
  function Blank(alg: Alg, stored: Bytes, llen: nat): Option<Bytes> {
    Some(Zeros(llen))
  }

  function GappedFile(): (r: Bytes)
    ensures |r| == 300
  {
    Zeros(200) + Alike(100, 1)
  }

  function GappedCovers(y: nat): seq<Cover> {
    [Cover(y, 0, 0, 150, true), Cover(y, 150, 150, 150, true)]
  }

  /** The whole window was fed to the encoder, hole left out; the parts are the file's, hole and all. */
  function GappedNode(y: nat): PClusterNode {
    PClusterNode(100, Alike(100, 1), 0, 6, 0, [Part(y, 0, 150), Part(y, 150, 50)])
  }

  lemma GappedIs(image: Bytes)
    requires image == Alike(200, 1)
    ensures var decode := DecoderOf(image, 0x1000, Blank);
            && PackedInode(Holed(Lzma)) && OwnPClusters(Holed(Lzma).exts) == [FirstPc(Lzma), SECOND_PC]
            && DecodesOf(decode, Holed(Lzma).exts) == [Some(Zeros(100)), Some(Alike(100, 1))]
            && StreamOf(decode, Holed(Lzma).exts) == GappedFile()
            && forall k :: 0 <= k < 3 ==> ExtBytes(decode, [], Holed(Lzma).exts[k]).Some?
  {
    var decode, exts := DecoderOf(image, 0x1000, Blank), Holed(Lzma).exts;
    HoledIs(decode, Lzma);
    ShiftedDecodes(image, 0x1000, Blank, exts[2]);
    assert Cut(image, 100, 100) == Alike(100, 1);
    assert ExtBytes(decode, [], exts[0]) == Some(Zeros(100));
    assert ExtBytes(decode, [], exts[1]) == Some(Zeros(100));
    assert Zeros(100) + Zeros(100) + Alike(100, 1) == GappedFile();
  }

  lemma GappedReadsBack(image: Bytes, y: nat)
    requires image == Alike(200, 1)
    ensures FileOf(DecoderOf(image, 0x1000, Blank), Holed(Lzma).exts, Gapped(y).files[0].plan.exts) == Some(GappedFile())
  {
    hide StreamOf, DecodeRaw;
    var decode, packed, exts := DecoderOf(image, 0x1000, Blank), Holed(Lzma).exts, Gapped(y).files[0].plan.exts;
    GappedIs(image);
    var stream := StreamOf(decode, packed);
    assert exts[1..][1..] == [];
    assert FileBytes(decode, stream, exts[1..][1..]) == Some([]);
    assert FileBytes(decode, stream, exts[1..]) == Some(Cut(stream, 150, 150) + []);
    assert FileBytes(decode, stream, exts) == Some(Cut(stream, 0, 150) + (Cut(stream, 150, 150) + []));
    assert Cut(stream, 0, 150) + (Cut(stream, 150, 150) + []) == stream;
  }

  /** Member `i` is that image over member `y`. */
  ghost predicate HoldsGapped(w: World, truth: seq<Bytes>, f: Codecs, i: nat, y: nat) {
    && Unchanged(w, truth) && w.f == PlainCodecs(f) && i < |truth| && y < |truth|
    && (w.members[i].space.Some? || w.members[i].extents.Some?) && Nameable(w.members[y])
    && truth[i] == Alike(200, 1) && truth[y] == GappedFile()
  }

  lemma GappedIsProved(w: World, truth: seq<Bytes>, f: Codecs, i: nat, y: nat)
    requires HoldsGapped(w, truth, f, i, y)
    ensures var rd := Reading(truth[i], Gapped(y), Blank, OneByte, {y});
            && FilesTo(w, rd, 1) == Some(FilesRead([], {y}, None))
            && CoversTo(w, rd.img.files, {y}, {y}, 1) == GappedCovers(y)
  {
    hide FileOf, OwnFileOf, OwnPClusters, PackedExtents, ReadBack;
    var rd := Reading(truth[i], Gapped(y), Blank, OneByte, {y});
    var item := rd.img.files[0];
    assert MemberTrue(w, truth, y);
    HalvesAre(y);
    GappedReadsBack(truth[i], y);
    NothingOwn(OwnFile(w.f, truth[i], y, GappedFile(), OneByte, 0));
    assert FilesTo(w, rd, 0) == Some(FilesRead([], {}, None));
    var none: set<nat>, nothing: seq<Found> := {}, [];
    assert none + {y} == {y} && nothing + nothing == nothing;
    assert FileHere(rd, item) == Some(GappedFile());
    assert OwnEndOf(w, rd, item, GappedFile(), None) == Proved([], None);
    assert FileNext(w, rd, item, FilesRead([], {}, None)) == Some(FilesRead([], {y}, None));
    assert FileCovers(item, item.plan.exts) == GappedCovers(y);
    assert CoversTo(w, rd.img.files, {y}, {y}, 0) == [] && [] + GappedCovers(y) == GappedCovers(y);
  }

  /** The file is two packed spans, and nothing of its own. */
  lemma HalvesAre(y: nat)
    ensures var item := Gapped(y).files[0];
            && OwnPClusters(item.plan.exts) == [] && PackedExtents(item.plan.exts) == item.plan.exts
            && ReadBack(item) && !PackedWhole(item.plan)
  {
    hide OwnPClusters, PackedExtents;
    var exts := Gapped(y).files[0].plan.exts;
    NoneOwn(exts[0], exts[1]);
    BothPacked(exts[0], exts[1]);
    assert exts == [exts[0], exts[1]];
  }

  lemma NoneOwn(a: Ext, b: Ext)
    requires !a.src.Raw? && !b.src.Raw?
    ensures OwnPClusters([a, b]) == []
  {
    NoExtents(e => None);
    OneMore(e => None, [], a);
    OneMore(e => None, [a], b);
    assert [] + [a] == [a] && [a] + [b] == [a, b];
  }

  lemma BothPacked(a: Ext, b: Ext)
    requires a.src.Packed? && b.src.Packed?
    ensures PackedExtents([a, b]) == [a, b]
  {
    assert [a, b][1..] == [b] && [b][1..] == [];
    assert PackedExtents([]) == [];
    assert PackedExtents([b]) == [b];
    assert [a] + [b] == [a, b];
  }

  /** A file without pclusters of its own is proved by its digest alone. */
  lemma NothingOwn(o: OwnFile)
    requires o.f.sha256(o.file) == o.file && o.step == OneByte
    ensures OwnFileOf(o, [], o.file, None) == Proved([], None)
  {
    assert o.file[..FillTo(o.file, o.step, 0, |o.file|)] == o.file;
  }

  lemma GappedIsEligible(y: nat)
    ensures var covers, pcs := GappedCovers(y), [FirstPc(Lzma), SECOND_PC];
            && EligibleHere(covers, pcs) == [TryEncode, TryVerbatim] && UsedHere(covers, pcs) == covers && NeedHere(covers, pcs) == [true, true]
            && Tries(covers, pcs)
  {
    var covers, pcs := GappedCovers(y), [FirstPc(Lzma), SECOND_PC];
    hide CoveredBytes, SortCovers, EligibleHere, NeedHere, Tries, InUse;
    HalvesAreInOrder(covers[0], covers[1]);
    AllCovered(covers, 0, 100);
    AllCovered(covers, 200, 300);
    BothTried(covers, pcs, TryEncode, TryVerbatim);
    BothInUse(covers[0], covers[1], pcs, EligibleHere(covers, pcs));
  }

  lemma HalvesAreInOrder(a: Cover, b: Cover)
    requires a.pstart < b.pstart
    ensures SortCovers([a, b]) == [a, b]
  {
    assert [a, b][1..] == [b] && [b][1..] == [];
    assert SortCovers([b]) == [b];
  }

  lemma BothInUse(a: Cover, b: Cover, pcs: seq<StoredPc>, eligible: seq<Elig>)
    requires |pcs| == |eligible| == 2 && !eligible[0].Leave? && !eligible[1].Leave? && Overlaps(a, pcs[0]) && Overlaps(b, pcs[1])
    ensures InUse([a, b], pcs, eligible) == [a, b]
  {
    assert [a, b][1..] == [b] && [b][1..] == [];
    assert InUse([b], pcs, eligible) == [b];
  }

  lemma {:induction false} AllCovered(covers: seq<Cover>, at: nat, end: nat)
    requires exists y: nat :: covers == GappedCovers(y)
    requires end <= 300
    ensures CoveredBytes(covers, at, end) == if at < end then end - at else 0
    decreases end - at
  {
    if at < end {
      assert covers[if at < 150 then 0 else 1] in covers;
      AllCovered(covers, at + 1, end);
    }
  }

  /** The first try feeds the pcluster's own bytes and misses; the second feeds the window, and hits. */
  lemma GappedIsFound(f: Codecs)
    ensures Searched(PlainCodecs(f), Alike(100, 1), Zeros(100) + Alike(100, 1), false, 100, Presets(None), 0, 0, false) == Hit(6, 200)
  {
    var g, stored, window := PlainCodecs(f), Alike(100, 1), Zeros(100) + Alike(100, 1);
    assert Presets(None)[0] == 6 && |Presets(None)| > 0;
    assert window[..100] == Zeros(100) && window[..200] == window;
    assert LastBytes(Zeros(100), 100) == Zeros(100) && LastBytes(window, 100) == stored;
    assert Resize(Zeros(0) + Zeros(100), 100) == Zeros(100) && Zeros(100)[0] != stored[0];
    assert Resize(Zeros(0) + stored, 100) == stored;
    assert Attempt(g, stored, window, false, 100, 0, 6, 0) == Candidate(Zeros(100));
    assert Attempt(g, stored, window, false, 100, 0, 6, 1) == Candidate(stored);
    hide Attempt, Presets;
    assert Searched(g, stored, window, false, 100, Presets(None), 0, 1, false) == Hit(6, 200);
  }

  lemma GappedIsWalked(y: nat)
    ensures Walk(GappedCovers(y), 0, 200) == [Piece(GappedCovers(y)[0], 0, 150), Piece(GappedCovers(y)[1], 150, 200)]
  {
    var covers := GappedCovers(y);
    assert covers[1..] == [covers[1]] && [covers[1]][1..] == [] && Walk([], 200, 200) == [];
    assert Walk([covers[1]], 150, 200) == [Piece(covers[1], 150, 200)];
  }

  lemma GappedIsPlanned(f: Codecs, y: nat, l: Bytes)
    ensures PlannedOf(PlainCodecs(f), FirstPc(Lzma), Alike(100, 1), Zeros(100) + Alike(100, 1), false, GappedCovers(y), None, 0, l)
            == (NodeMade(GappedNode(y), 6), l)
  {
    hide Searched, Presets, Walk, WalkHolds, TileAll;
    var covers := GappedCovers(y);
    GappedIsFound(f);
    GappedIsWalked(y);
    GappedIsTiled(covers, [Piece(covers[0], 0, 150), Piece(covers[1], 150, 200)], Zeros(100) + Alike(100, 1), l, y);
    assert GappedNode(y).inputs[0].Part? && y in PartsOf(GappedNode(y).inputs);
  }

  lemma GappedIsTiled(covers: seq<Cover>, pieces: seq<Piece>, window: Bytes, l: Bytes, y: nat)
    requires covers == GappedCovers(y) && pieces == [Piece(covers[0], 0, 150), Piece(covers[1], 150, 200)] && |window| == 200
    ensures WalkHolds(pieces, covers, 0, 200)
    ensures TileAll(pieces, covers, window, 0, 0, 200, [], l) == (GappedNode(y).inputs, l)
  {
    assert pieces[1..] == [pieces[1]] && pieces[1..][1..] == [];
    assert [] + [PartOf(pieces[0])] == [Part(y, 0, 150)];
    assert [Part(y, 0, 150)] + [PartOf(pieces[1])] == GappedNode(y).inputs;
    assert TileAll([], covers, window, 0, 200, 200, GappedNode(y).inputs, l) == (GappedNode(y).inputs, l);
    assert TileAll(pieces[1..], covers, window, 0, 150, 200, [Part(y, 0, 150)], l) == (GappedNode(y).inputs, l);
  }

  lemma GappedIsEmitted(s: Site, f: Codecs, y: nat, l: Bytes)
    requires s == Site(PlainCodecs(f), Alike(200, 1), GappedCovers(y), [FirstPc(Lzma), SECOND_PC], [Some(Zeros(100)), Some(Alike(100, 1))])
    ensures EmitsTo(s, [TryEncode, TryVerbatim], [true, true], 2)
    ensures EmittedTo(s, [TryEncode, TryVerbatim], [true, true], 0, Yield([], [], l, None), 2).nodes == [(0, GappedNode(y))]
  {
    hide PlannedOf, VerbatimOf;
    var y0 := Yield([], [], l, None);
    assert Emits(s, TryEncode, 0) && Emits(s, TryVerbatim, 1);
    assert Cut(s.image, 0, 100) == Alike(100, 1);
    assert Alike(100, 1)[..100] == Alike(100, 1);
    assert WindowOf(s.pcs, s.decoded, 0) == Some((Zeros(100) + Alike(100, 1), false));
    GappedIsPlanned(f, y, l);
    assert EncodedOf(s, 0, None, 0, l) == (NodeMade(GappedNode(y), 6), l);
    assert EmittedTo(s, [TryEncode, TryVerbatim], [true, true], 0, y0, 0) == y0;
    assert [] + [(0, GappedNode(y))] == [(0, GappedNode(y))];
    assert EmittedTo(s, [TryEncode, TryVerbatim], [true, true], 0, y0, 1) == Yield([(0, GappedNode(y))], [], l, Some(6));
  }

  /** With every cover proved, nothing trips and nothing is given up. */
  lemma ProvedCoversAreSafe(m: Marks, s: Site, stream: Bytes, eligible: seq<Elig>, need: seq<bool>)
    requires forall ci :: 0 <= ci < |m.used| ==> m.used[ci].proved
    ensures FailedOf(m, stream, s.pcs, need) == {} && !PanicsFirst(m, s, eligible, need)
  {
  }

  lemma GappedNodeIsFalse(f: Codecs, truth: seq<Bytes>, y: nat, l: Bytes)
    requires y < |truth| && truth[y] == GappedFile()
    ensures !NodeHolds(PlainCodecs(f), GappedNode(y), Alike(100, 1), truth, l)
  {
    var inputs := GappedNode(y).inputs;
    assert inputs[1..][1..] == [] && InputsBytes(inputs[1..][1..], truth, l) == Some([]);
    assert InputsBytes(inputs[1..], truth, l) == Some(Cut(truth[y], 150, 50) + []);
    assert InputsBytes(inputs, truth, l) == Some(Cut(truth[y], 0, 150) + (Cut(truth[y], 150, 50) + []));
    var fed := Cut(truth[y], 0, 150) + (Cut(truth[y], 150, 50) + []);
    assert fed == Zeros(200);
    assert LastBytes(fed, 100) == Zeros(100);
    assert Resize(Zeros(0) + Zeros(100), 100)[0] == 0 && Alike(100, 1)[0] == 1;
  }

  lemma GappedIsThere(w: World, truth: seq<Bytes>, f: Codecs, i: nat, y: nat)
    requires HoldsGapped(w, truth, f, i, y)
    ensures i < |w.members| && ViewOf(w, i) == Some(truth[i])
  {
    ViewIsTrue(w, truth, i);
  }

  /** Planning the image comes back with a node that is not true of it. */
  lemma GappedScanIsWrong(w: World, truth: seq<Bytes>, f: Codecs, i: nat, y: nat, l: Bytes)
    requires HoldsGapped(w, truth, f, i, y)
    ensures var r := ScanOf(w, i, Gapped(y), Blank, OneByte, {y}, l);
            r.Scanned? && Node(GappedNode(y), 0) in r.found && !FoundHolds(w, truth, i, {y}, r.literals, Node(GappedNode(y), 0))
  {
    hide EligibleHere, UsedHere, NeedHere, Tries, StreamOf, FilesTo, CoversTo, DecodesOf, OwnPClusters, EmittedTo, EmitsTo, PanicsFirst, FailedOf,
         Unchanged, NodeHolds, KeptSegs;
    var covers, pcs, decoded := GappedCovers(y), [FirstPc(Lzma), SECOND_PC], [Some(Zeros(100)), Some(Alike(100, 1))];
    GappedIsThere(w, truth, f, i, y);
    GappedIsProved(w, truth, f, i, y);
    GappedIs(truth[i]);
    GappedIsEligible(y);
    var m, s := MarksHere(w, covers, pcs, true), SiteHere(w, truth[i], covers, pcs, decoded);
    ProvedCoversAreSafe(m, s, GappedFile(), [TryEncode, TryVerbatim], [true, true]);
    GappedIsEmitted(s, f, y, l);
    var yielded := EmittedTo(s, [TryEncode, TryVerbatim], [true, true], 0, Yield([], [], l, None), 2);
    var nodes := [(0, GappedNode(y))];
    assert nodes[1..] == [] && KeptNodes(s, nodes[1..], {}) == [];
    assert KeptNodes(s, nodes, {}) == [Node(GappedNode(y), 0)];
    assert Cut(truth[i], 0, 100) == Alike(100, 1);
    GappedNodeIsFalse(f, truth, y, yielded.spool);
  }
}
