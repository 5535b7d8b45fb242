/**
 Small images, and what planning them comes to, pcluster by pcluster: one that spools a literal, the same
 cut short, one that holds a file as it is, and two whose packed inode has a hole.
 */
module RecipeSmall {
  import opened Wrappers
  import opened ByteStrings
  import opened ErofsMap
  import opened ErofsRaw
  import opened ErofsReader
  import opened ErofsFile
  import opened RecipePlan
  import opened RecipeTree
  import opened RecipeTiling
  import opened RecipeCovers
  import opened RecipePCluster
  import opened RecipePlanning
  import opened RecipeHashing
  import opened RecipeSweep
  import opened RecipePasses
  import opened RecipeImages

  // ------------------------------------------------------------- codecs

  /** `n` bytes alike. */
  function Alike(n: nat, b: Byte): (r: Bytes)
    ensures |r| == n && forall k :: 0 <= k < n ==> r[k] == b
  {
    seq(n, _ => b)
  }

  function LastBytes(fed: Bytes, cap: nat): Bytes {
    if |fed| >= cap then fed[|fed| - cap..] else fed
  }

  /** A digest that is the bytes themselves, and an encoder that keeps the last bytes it is fed. */
  function PlainCodecs(f: Codecs): Codecs {
    f.(sha256 := (b: Bytes) => b,
       microlzma := (fed: Bytes, cap: nat, preset: nat, dict: nat) => Some((LastBytes(fed, cap), |fed|)))
  }

  /** A decompressor that puts in front what is missing, as copies of the first stored byte. */
  function Lengthen(alg: Alg, stored: Bytes, llen: nat): Option<Bytes> {
    if stored == [] || |stored| > llen then None else Some(Alike(llen - |stored|, stored[0]) + stored)
  }

  /** Reads that hand over one byte at a time. */
  function OneByte(at: nat): nat { 1 }

  // ------------------------------------------------------------- one file, one cover

  /** File `y`, whole in the packed inode at `off`. */
  function WholeFile(y: nat, off: nat, size: nat): FileItem {
    FileItem(y, ZPlan(size, [Ext(0, size, Packed(off))]))
  }

  /** Member `i` is such an image over member `y`, and nothing else. */
  predicate HoldsWhole(w: World, truth: seq<Bytes>, i: nat, y: nat, off: nat, img: Image) {
    && Unchanged(w, truth) && i < |truth| && y < |truth| && (w.members[i].space.Some? || w.members[i].extents.Some?)
    && Nameable(w.members[y]) && img.files == [WholeFile(y, off, |truth[y]|)] && PackedInode(img.packed) && img.packed.exts != []
    && img.packed.exts[0].src.Raw?
  }

  function WholeReading(truth: seq<Bytes>, i: nat, img: Image, sources: set<nat>): Reading
    requires i < |truth|
  {
    Reading(truth[i], img, Lengthen, OneByte, sources)
  }

  /** Its scan is its packed pass over the one cover. */
  lemma WholeFileScan(w: World, truth: seq<Bytes>, i: nat, y: nat, off: nat, img: Image, sources: set<nat>, before: Bytes)
    requires HoldsWhole(w, truth, i, y, off, img) && y in sources
    ensures var rd := WholeReading(truth, i, img, sources);
            var (pcs, decoded) := PackedOfImage(rd);
            && pcs != []
            && ScanOf(w, i, img, Lengthen, OneByte, sources, before)
               == match PackedOf(w, truth[i], pcs, decoded, PackedBytes(rd), [Cover(y, 0, off, |truth[y]|, false)], before, img.dict, None, img.checked)
                  case Tripped => Panics
                  case Lost => SpoolLost([])
                  case Reported(more, literals) => Scanned(more, literals)
  {
    hide PackedOf, StreamOf, DecodesOf, OwnPClusters, FilesTo, CoversTo;
    ViewIsTrue(w, truth, i);
    WholeFileReads(w, truth, i, y, off, img, sources);
    assert forall more: seq<Found> :: [] + more == more;
    FirstIsStored(img.packed.exts, |img.packed.exts|);
    assert img.packed.exts[..|img.packed.exts|] == img.packed.exts;
  }

  /** The file pass has nothing to read, and the file's one span is the one cover. */
  lemma WholeFileReads(w: World, truth: seq<Bytes>, i: nat, y: nat, off: nat, img: Image, sources: set<nat>)
    requires HoldsWhole(w, truth, i, y, off, img) && y in sources
    ensures FilesTo(w, WholeReading(truth, i, img, sources), |img.files|) == Some(FilesRead([], {}, None))
    ensures CoversTo(w, img.files, sources, {}, |img.files|) == [Cover(y, 0, off, |truth[y]|, false)]
  {
    var rd := WholeReading(truth, i, img, sources);
    assert MemberTrue(w, truth, y);
    var item := img.files[0];
    assert FilesTo(w, rd, 0) == Some(FilesRead([], {}, None));
    assert FilesTo(w, rd, 1) == Some(FilesRead([], {}, None));
    var cover := Cover(y, 0, off, |truth[y]|, false);
    assert PackedExtents(item.plan.exts) == [item.plan.exts[0]] + PackedExtents(item.plan.exts[1..]);
    assert FileCovers(item, PackedExtents(item.plan.exts)) == [cover];
    assert CoversTo(w, img.files, sources, {}, 0) == [];
    assert CoversTo(w, img.files, sources, {}, 1) == [] + [cover];
  }

  /** Over sources without the file there is nothing to try. */
  lemma NothingScans(w: World, truth: seq<Bytes>, i: nat, y: nat, off: nat, img: Image, sources: set<nat>, before: Bytes)
    requires HoldsWhole(w, truth, i, y, off, img) && y !in sources
    ensures ScanOf(w, i, img, Lengthen, OneByte, sources, before) == Scanned([], before)
  {
    hide StreamOf, DecodesOf, OwnPClusters, Eligible, SortCovers, AllEmit, HoleTrips;
    ViewIsTrue(w, truth, i);
    var rd := WholeReading(truth, i, img, sources);
    assert FilesTo(w, rd, 0) == Some(FilesRead([], {}, None));
    assert FilesTo(w, rd, 1) == Some(FilesRead([], {}, None));
    assert CoversTo(w, img.files, sources, {}, 0) == [];
    assert CoversTo(w, img.files, sources, {}, 1) == [];
    NothingToTry([], PackedOfImage(rd).0);
  }

  lemma {:induction false} FirstIsStored(exts: seq<Ext>, k: nat)
    requires 0 < k <= |exts| && exts[0].src.Raw?
    ensures OwnPClusters(exts[..k]) != []
  {
    var some := exts[..k];
    assert some[..k - 1] == exts[..k - 1] && some[k - 1] == exts[k - 1];
    if k > 1 {
      FirstIsStored(exts, k - 1);
    }
  }

  /** A lone cover is in use if it touches what is worth trying. */
  lemma LoneCover(c: Cover, pcs: seq<StoredPc>)
    ensures SortCovers([c]) == [c]
    ensures Touches(c, pcs, EligibleHere([c], pcs)) ==> UsedHere([c], pcs) == [c]
  {
    assert SortCovers([c][1..]) == [];
    assert SortCovers([c]) == [c];
    assert InUse([c][1..], pcs, EligibleHere([c], pcs)) == [];
  }

  /** How many bytes of a span a lone cover has, from a byte at or past its start. */
  lemma {:induction false} LoneCoverCounts(c: Cover, at: nat, end: nat)
    requires c.pstart <= at
    ensures CoveredBytes([c], at, end) == if at < Min(c.End(), end) then Min(c.End(), end) - at else 0
    decreases end - at
  {
    if at < end {
      assert c in [c];
      LoneCoverCounts(c, at + 1, end);
    }
  }

  // ------------------------------------------------------------- an image that spools

  /** One compressed pcluster of a hundred bytes that stands for a hundred and twenty, the first forty of them
      file `y`. */
  function Spooling(y: nat): Image {
    Image([WholeFile(y, 0, 40)], ZPlan(120, [Ext(0, 120, Raw(0, 100, Lzma))]), 0x1000, 0, true)
  }

  function Mix(p: Byte, q: Byte): (r: Bytes)
    ensures |r| == 120
  {
    Alike(40, p) + Alike(80, q)
  }

  function StoredMix(p: Byte, q: Byte): (r: Bytes)
    ensures |r| == 100
  {
    Alike(20, p) + Alike(80, q)
  }

  const MIX_PC: StoredPc := StoredPc(0, 120, 0, 100, true, None)

  /** The node: the file, and a literal at place `at` of what was ever spooled. */
  function MixNode(y: nat, p: Byte, q: Byte, at: nat): PClusterNode {
    PClusterNode(100, StoredMix(p, q), 0, 6, 0, [Part(y, 0, 40), Literal(at, 80, None, None)])
  }

  lemma MixIsStored(p: Byte, q: Byte)
    requires p != 0
    ensures LastBytes(Mix(p, q), 100) == StoredMix(p, q) && Padding(StoredMix(p, q)) == 0
    ensures Lengthen(Lzma, StoredMix(p, q), 120) == Some(Mix(p, q))
  {
    assert LastBytes(Mix(p, q), 100) == StoredMix(p, q);
    assert Alike(20, p) + StoredMix(p, q) == Mix(p, q);
  }

  lemma SpoolingIs(image: Bytes, y: nat)
    ensures var img := Spooling(y);
            var e := img.packed.exts[0];
            && PackedInode(img.packed) && OwnPClusters(img.packed.exts) == [MIX_PC]
            && DecodesOf(DecoderOf(image, img.blk, Lengthen), img.packed.exts) == [ExtBytes(DecoderOf(image, img.blk, Lengthen), [], e)]
            && StreamOf(DecoderOf(image, img.blk, Lengthen), img.packed.exts) == PartOfStream(DecoderOf(image, img.blk, Lengthen), e)
            && Solid(img.packed)
  {
    var img := Spooling(y);
    var decode, exts, e := DecoderOf(image, img.blk, Lengthen), img.packed.exts, img.packed.exts[0];
    assert exts[1..] == [] && Covers(exts[1..], 120, 120);
    OneMore(decode, [], e);
    NoExtents(decode);
    assert [] + [e] == exts && [] + PartOfStream(decode, e) == PartOfStream(decode, e);
  }

  lemma SpoolingIsSolid(y: nat)
    ensures PackedInode(Spooling(y).packed) && Solid(Spooling(y).packed)
    ensures forall item :: item in Spooling(y).files ==> Covers(item.plan.exts, 0, item.plan.size)
  {
    var exts, file := Spooling(y).packed.exts, Spooling(y).files[0].plan.exts;
    assert exts[1..] == [] && Covers(exts[1..], 120, 120);
    assert file[1..] == [] && Covers(file[1..], 40, 40);
  }

  lemma SpoolingDecodes(image: Bytes, y: nat, p: Byte, q: Byte)
    requires |image| >= 100 && Cut(image, 0, 100) == StoredMix(p, q) && p != 0
    ensures ExtBytes(DecoderOf(image, 0x1000, Lengthen), [], Spooling(y).packed.exts[0]) == Some(Mix(p, q))
  {
    MixIsStored(p, q);
  }

  lemma MixIsEligible(y: nat)
    ensures var c := Cover(y, 0, 0, 40, false);
            && EligibleHere([c], [MIX_PC]) == [TryEncode] && UsedHere([c], [MIX_PC]) == [c] && NeedHere([c], [MIX_PC]) == [true]
            && Tries([c], [MIX_PC])
  {
    hide CoveredBytes;
    var c := Cover(y, 0, 0, 40, false);
    LoneCover(c, [MIX_PC]);
    LoneCoverCounts(c, 0, 120);
    assert Eligible([c], MIX_PC) == TryEncode;
    assert EligibleHere([c], [MIX_PC])[0].TryEncode? && Overlaps(c, MIX_PC);
  }

  /** The search hits at once, and the tiling is the file and the literal. */
  lemma MixIsPlanned(f: Codecs, y: nat, p: Byte, q: Byte, l: Bytes)
    requires p != 0
    ensures PlannedOf(PlainCodecs(f), MIX_PC, StoredMix(p, q), Mix(p, q), false, [Cover(y, 0, 0, 40, false)], None, 0, l)
            == (NodeMade(MixNode(y, p, q, |l|), 6), l + Alike(80, q))
  {
    var g, stored, window, covers := PlainCodecs(f), StoredMix(p, q), Mix(p, q), [Cover(y, 0, 0, 40, false)];
    MixIsStored(p, q);
    assert window[..120] == window;
    assert Presets(None)[0] == 6;
    assert Resize(Zeros(0) + stored, 100) == stored;
    assert Attempt(g, stored, window, false, 120, 0, 6, 0) == Candidate(stored);
    assert Searched(g, stored, window, false, 120, Presets(None), 0, 0, false) == Hit(6, 120);
    var piece := Piece(covers[0], 0, 40);
    assert Walk(covers[1..], 40, 120) == [];
    assert Walk(covers, 0, 120) == [piece];
    MixIsTiled(covers, piece, p, q, l, y);
    assert MixNode(y, p, q, |l|).inputs[0].Part? && y in PartsOf(MixNode(y, p, q, |l|).inputs);
  }

  lemma MixIsTiled(covers: seq<Cover>, piece: Piece, p: Byte, q: Byte, l: Bytes, y: nat)
    requires covers == [Cover(y, 0, 0, 40, false)] && piece == Piece(covers[0], 0, 40)
    ensures WalkHolds([piece], covers, 0, 120)
    ensures TileAll([piece], covers, Mix(p, q), 0, 0, 120, [], l) == ([Part(y, 0, 40), Literal(|l|, 80, None, None)], l + Alike(80, q))
  {
    var window := Mix(p, q);
    assert [piece][1..] == [];
    assert window[40..120] == Alike(80, q);
    assert [] + [PartOf(piece)] == [Part(y, 0, 40)];
    assert TileAll([], covers, window, 0, 40, 120, [Part(y, 0, 40)], l)
           == ([Part(y, 0, 40)] + [Literal(|l|, 80, None, None)], l + Alike(80, q));
    assert [Part(y, 0, 40)] + [Literal(|l|, 80, None, None)] == [Part(y, 0, 40), Literal(|l|, 80, None, None)];
  }

  /** The cover hashes to the file, so nothing is given up. */
  lemma MixGivesUpNothing(m: Marks, y: nat, p: Byte, q: Byte)
    requires m.used == [Cover(y, 0, 0, 40, false)] && m.f.sha256(Alike(40, p)) == m.digests(y)
    ensures FailedOf(m, Mix(p, q), [MIX_PC], [true]) == {}
  {
    assert Cut(Mix(p, q), 0, 40) == Alike(40, p);
    assert LiesIn(m, [MIX_PC], [true], 0, 0, 0);
    assert !Fails(m, Mix(p, q), [MIX_PC], [true], 0);
  }

  lemma MixIsEmitted(s: Site, f: Codecs, y: nat, p: Byte, q: Byte, l: Bytes)
    requires s == Site(PlainCodecs(f), s.image, [Cover(y, 0, 0, 40, false)], [MIX_PC], [Some(Mix(p, q))]) && p != 0
    requires |s.image| >= 100 && Cut(s.image, 0, 100) == StoredMix(p, q)
    ensures EmitsTo(s, [TryEncode], [true], 1)
    ensures EmittedTo(s, [TryEncode], [true], 0, Yield([], [], l, None), 1) == Yield([(0, MixNode(y, p, q, |l|))], [], l + Alike(80, q), Some(6))
  {
    hide PlannedOf;
    assert Emits(s, TryEncode, 0);
    MixIsPlanned(f, y, p, q, l);
    assert EncodedOf(s, 0, None, 0, l) == (NodeMade(MixNode(y, p, q, |l|), 6), l + Alike(80, q));
    assert EmittedTo(s, [TryEncode], [true], 0, Yield([], [], l, None), 0) == Yield([], [], l, None);
    assert [] + [(0, MixNode(y, p, q, |l|))] == [(0, MixNode(y, p, q, |l|))];
  }

  lemma MixIsReported(w: World, f: Codecs, image: Bytes, y: nat, p: Byte, q: Byte, l: Bytes)
    requires |image| >= 100 && Cut(image, 0, 100) == StoredMix(p, q)
    requires w.f == PlainCodecs(f) && p != 0 && y < |w.members| && w.members[y].sha256 == Some(Alike(40, p))
    ensures PackedOf(w, image, [MIX_PC], [Some(Mix(p, q))], Mix(p, q), [Cover(y, 0, 0, 40, false)], l, 0, None, true)
            == Reported([Node(MixNode(y, p, q, |l|), 0)], l + Alike(80, q))
  {
    hide FailedOf, EmittedTo, EmitsTo, PanicsFirst, EligibleHere, UsedHere, NeedHere, Tries;
    var c := Cover(y, 0, 0, 40, false);
    var s := Site(w.f, image, [c], [MIX_PC], [Some(Mix(p, q))]);
    MixIsEligible(y);
    SolidNeverTrips(w, image, [c], [MIX_PC], [Some(Mix(p, q))], true);
    MixIsEmitted(s, f, y, p, q, l);
    MixGivesUpNothing(MarksHere(w, [c], [MIX_PC], true), y, p, q);
    KeptAlone(s, MixNode(y, p, q, |l|), l + Alike(80, q), Some(6));
  }

  lemma KeptAlone(s: Site, node: PClusterNode, spool: Bytes, known: Option<nat>)
    requires s.pcs != []
    ensures Kept(s, Yield([(0, node)], [], spool, known), {}) == [Node(node, s.pcs[0].pa)]
  {
    var nodes := [(0, node)];
    assert nodes[1..] == [] && KeptNodes(s, nodes[1..], {}) == [];
    assert KeptNodes(s, nodes, {}) == [Node(node, s.pcs[0].pa)];
  }

  /** Such an image spools its literal. */
  lemma SpoolingScan(w: World, truth: seq<Bytes>, f: Codecs, i: nat, y: nat, p: Byte, q: Byte, sources: set<nat>, l: Bytes)
    requires HoldsWhole(w, truth, i, y, 0, Spooling(y)) && y in sources && w.f == PlainCodecs(f) && p != 0
    requires |truth[i]| >= 100 && Cut(truth[i], 0, 100) == StoredMix(p, q) && truth[y] == Alike(40, p)
    ensures ScanOf(w, i, Spooling(y), Lengthen, OneByte, sources, l) == Scanned([Node(MixNode(y, p, q, |l|), 0)], l + Alike(80, q))
  {
    hide ScanOf, PackedOf, HoldsWhole, StoredMix, Mix;
    WholeHasDigest(w, truth, i, y, 0, Spooling(y));
    WholeFileScan(w, truth, i, y, 0, Spooling(y), sources, l);
    SpoolingIs(truth[i], y);
    SpoolingDecodes(truth[i], y, p, q);
    MixIsReported(w, f, truth[i], y, p, q, l);
  }

  lemma WholeHasDigest(w: World, truth: seq<Bytes>, i: nat, y: nat, off: nat, img: Image)
    requires HoldsWhole(w, truth, i, y, off, img)
    ensures i < |truth| && y < |truth| == |w.members| && w.members[y].sha256 == Some(w.f.sha256(truth[y]))
  {
    assert MemberTrue(w, truth, y);
  }

  /** Cut short, it loses the spool: what is stored can no longer be read. */
  lemma TruncatedScan(w: World, truth: seq<Bytes>, i: nat, y: nat, sources: set<nat>, l: Bytes)
    requires HoldsWhole(w, truth, i, y, 0, Spooling(y)) && y in sources && |truth[y]| == 40 && |truth[i]| < 100
    ensures ScanOf(w, i, Spooling(y), Lengthen, OneByte, sources, l) == SpoolLost([])
  {
    hide ScanOf, HoldsWhole, EligibleHere, UsedHere, NeedHere, Tries;
    var c := Cover(y, 0, 0, 40, false);
    WholeHasDigest(w, truth, i, y, 0, Spooling(y));
    WholeFileScan(w, truth, i, y, 0, Spooling(y), sources, l);
    SpoolingIs(truth[i], y);
    MixIsEligible(y);
    SolidNeverTrips(w, truth[i], [c], [MIX_PC], [None], true);
    assert !Emits(SiteHere(w, truth[i], [c], [MIX_PC], [None]), TryEncode, 0);
  }

  // ------------------------------------------------------------- an image that holds a file as it is

  /** One pcluster of a hundred bytes, stored as they are: file `y`. */
  function Holding(y: nat): Image {
    Image([WholeFile(y, 0, 100)], ZPlan(100, [Ext(0, 100, Raw(0, 100, Shifted))]), 0x1000, 0, true)
  }

  const HELD_PC: StoredPc := StoredPc(0, 100, 0, 100, false, None)

  lemma HoldingIs(image: Bytes, y: nat)
    requires |image| == 100
    ensures var img := Holding(y);
            && PackedInode(img.packed) && OwnPClusters(img.packed.exts) == [HELD_PC] && Solid(img.packed)
            && DecodesOf(DecoderOf(image, img.blk, Lengthen), img.packed.exts) == [Some(image)]
            && StreamOf(DecoderOf(image, img.blk, Lengthen), img.packed.exts) == image
  {
    var img := Holding(y);
    var decode, exts, e := DecoderOf(image, img.blk, Lengthen), img.packed.exts, img.packed.exts[0];
    assert exts[1..] == [] && Covers(exts[1..], 100, 100);
    OneMore(decode, [], e);
    NoExtents(decode);
    assert [] + [e] == exts && [] + PartOfStream(decode, e) == PartOfStream(decode, e);
    assert Cut(image, 0, 100) == image && image[..100] == image;
    assert ExtBytes(decode, [], e) == Some(image);
  }

  lemma HeldIsEligible(y: nat)
    ensures var c := Cover(y, 0, 0, 100, false);
            && EligibleHere([c], [HELD_PC]) == [TryVerbatim] && UsedHere([c], [HELD_PC]) == [c] && NeedHere([c], [HELD_PC]) == [true]
            && Tries([c], [HELD_PC])
  {
    hide CoveredBytes;
    var c := Cover(y, 0, 0, 100, false);
    LoneCover(c, [HELD_PC]);
    LoneCoverCounts(c, 0, 100);
    assert Eligible([c], HELD_PC) == TryVerbatim;
    assert EligibleHere([c], [HELD_PC])[0].TryVerbatim? && Overlaps(c, HELD_PC);
  }

  lemma LonePieceSplices(covers: seq<Cover>, p: Piece)
    requires p.cv in covers && p.cv.pstart == p.lo == 0 && p.hi == p.cv.End() == 100
    ensures WalkHolds([p], covers, 0, 100)
    ensures Splices([p], covers, 0, 100, 0, 0) == [Tabled(p.cv.idx, p.cv.from, 100, 0, 0)]
  {
    var pieces, held := [p], [Tabled(p.cv.idx, p.cv.from, 100, 0, 0)];
    assert pieces[1..] == [] && held + [] == held;
    assert WalkHolds(pieces[1..], covers, 100, 100);
    assert Splices(pieces[1..], covers, 100, 100, 0, 0) == [];
    assert Splices(pieces, covers, 0, 100, 0, 0) == SpliceOf(p, 0, 0) + Splices(pieces[1..], covers, 100, 100, 0, 0);
  }

  /** The file is spliced straight in. */
  lemma HeldIsEmitted(s: Site, y: nat, l: Bytes)
    requires |s.image| == 100 && s.used == [Cover(y, 0, 0, 100, false)] && s.pcs == [HELD_PC] && s.decoded == [Some(s.image)]
    ensures EmitsTo(s, [TryVerbatim], [true], 1)
    ensures EmittedTo(s, [TryVerbatim], [true], 0, Yield([], [], l, None), 1) == Yield([], [Tabled(y, 0, 100, 0, 0)], l, None)
  {
    assert Emits(s, TryVerbatim, 0);
    assert Cut(s.image, 0, 100) == s.image && s.image[..100] == s.image;
    var piece := Piece(s.used[0], 0, 100);
    assert s.used[1..] == [] && Walk(s.used[1..], 100, 100) == [];
    assert Walk(s.used, 0, 100) == [piece];
    LonePieceSplices(s.used, piece);
    assert VerbatimOf(s, 0) == [Tabled(y, 0, 100, 0, 0)];
    assert EmittedTo(s, [TryVerbatim], [true], 0, Yield([], [], l, None), 0) == Yield([], [], l, None);
    assert [] + [Tabled(y, 0, 100, 0, 0)] == [Tabled(y, 0, 100, 0, 0)];
  }

  lemma HeldGivesUpNothing(m: Marks, y: nat, file: Bytes)
    requires |file| == 100 && m.used == [Cover(y, 0, 0, 100, false)] && m.f.sha256(file) == m.digests(y)
    ensures FailedOf(m, file, [HELD_PC], [true]) == {}
  {
    assert Cut(file, 0, 100) == file;
    assert LiesIn(m, [HELD_PC], [true], 0, 0, 0);
    assert !Fails(m, file, [HELD_PC], [true], 0);
  }

  /** Such an image splices the file. */
  lemma HoldingScan(w: World, truth: seq<Bytes>, i: nat, y: nat, sources: set<nat>, l: Bytes)
    requires HoldsWhole(w, truth, i, y, 0, Holding(y)) && y in sources && |truth[y]| == 100 && truth[i] == truth[y]
    ensures ScanOf(w, i, Holding(y), Lengthen, OneByte, sources, l) == Scanned([Splice(Tabled(y, 0, 100, 0, 0))], l)
  {
    hide ScanOf, HoldsWhole, EligibleHere, UsedHere, NeedHere, Tries, FailedOf, EmittedTo, EmitsTo, PanicsFirst;
    var c := Cover(y, 0, 0, 100, false);
    WholeHasDigest(w, truth, i, y, 0, Holding(y));
    WholeFileScan(w, truth, i, y, 0, Holding(y), sources, l);
    HoldingIs(truth[i], y);
    HeldIsEligible(y);
    SolidNeverTrips(w, truth[i], [c], [HELD_PC], [Some(truth[i])], true);
    HeldIsEmitted(SiteHere(w, truth[i], [c], [HELD_PC], [Some(truth[i])]), y, l);
    HeldGivesUpNothing(MarksHere(w, [c], [HELD_PC], true), y, truth[y]);
    var segs := [Tabled(y, 0, 100, 0, 0)];
    assert segs[1..] == [] && KeptSegs(segs[1..], {}) == [];
    assert KeptSegs(segs, {}) == [Splice(segs[0])];
  }
}
