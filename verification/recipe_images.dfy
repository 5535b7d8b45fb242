/**
 Both passes over an erofs image, from its extent maps: the files that keep pclusters or a packed tail
 are read back and must return their digest, the packed inode's pclusters are collected, the covers
 follow from the files' packed extents, and the sweep has the last word.
 */
module RecipeImages {
  import opened Wrappers
  import opened ByteStrings
  import opened ErofsMap
  import opened ErofsRaw
  import opened ErofsReader
  import opened ErofsFile
  import opened RecipePlan
  import opened RecipeTree
  import opened RecipeTiling
  import opened RecipeCovers
  import opened RecipePCluster
  import opened RecipePlanning
  import opened RecipeHashing
  import opened RecipeSweep
  import opened RecipePasses

  /** A file of the image, by the member it is, and its extent map. */
  datatype FileItem = FileItem(member: nat, plan: ZPlan)

  /** What opening the image gives: its files, the packed inode's map, the block size, the dictionary size
      its compressor used, and whether the build checks its arithmetic. */
  datatype Image = Image(files: seq<FileItem>, packed: ZPlan, blk: nat, dict: nat, checked: bool)

  // ------------------------------------------------------------- stored pclusters

  function StoredOf(e: Ext): StoredPc
    requires e.src.Raw?
  {
    StoredPc(e.la, e.llen, e.src.pa, e.src.plen, e.src.alg.Lzma?,
             if e.src.alg.Interlaced? && e.src.plen > 0 then Some(e.src.alg.skip % e.src.plen) else None)
  }

  /** The pclusters a map stores in the image itself. */
  function OwnPClusters(exts: seq<Ext>): seq<StoredPc> {
    if exts == [] then []
    else OwnPClusters(exts[..|exts| - 1]) + if exts[|exts| - 1].src.Raw? then [StoredOf(exts[|exts| - 1])] else []
  }

  /** What each of them decodes to. */
  function DecodesOf(decode: Decoder, exts: seq<Ext>): seq<Option<Bytes>> {
    if exts == [] then []
    else DecodesOf(decode, exts[..|exts| - 1]) + if exts[|exts| - 1].src.Raw? then [ExtBytes(decode, [], exts[|exts| - 1])] else []
  }

  /** A stored extent keeps its places, and a block that was decoded turned is taken for turned by as much. */
  lemma StoredIs(e: Ext, stored: Bytes, bytes: Bytes)
    requires e.src.Raw? && |stored| == e.src.plen > 0 && |bytes| == e.llen
    ensures var pc := StoredOf(e);
            && pc.la == e.la && pc.llen == e.llen && pc.pa == e.src.pa && pc.plen == e.src.plen
            && (pc.lzma <==> e.src.alg == Lzma) && (pc.skip.Some? <==> e.src.alg.Interlaced?)
            && (e.src.alg.Interlaced? && e.llen == e.src.plen && pc.skip != Some(0) ==>
                  (CanRotate(pc.plen, pc.skip, bytes, stored) <==> DecodeInterlaced(stored, e.src.alg.skip, e.llen) == Some(bytes)))
  {
    if e.src.alg.Interlaced? && e.llen == e.src.plen {
      RotationInvertsDecoding(stored, bytes, e.src.alg.skip);
    }
  }

  lemma {:induction false} OwnPClustersAreExtents(exts: seq<Ext>)
    ensures forall pc :: pc in OwnPClusters(exts) ==> exists e :: e in exts && e.src.Raw? && pc == StoredOf(e)
  {
    if exts != [] {
      OwnPClustersAreExtents(exts[..|exts| - 1]);
      assert forall e :: e in exts[..|exts| - 1] ==> e in exts;
      assert exts[|exts| - 1] in exts;
    }
  }

  /** The spans of a file that lie in the packed inode. */
  function PackedExtents(exts: seq<Ext>): (r: seq<Ext>)
    ensures forall e :: e in r <==> e in exts && e.src.Packed?
  {
    if exts == [] then [] else (if exts[0].src.Packed? then [exts[0]] else []) + PackedExtents(exts[1..])
  }

  /** The file lies in the packed inode whole. */
  predicate PackedWhole(plan: ZPlan) {
    |plan.exts| == 1 && plan.exts[0].src.Packed? && plan.exts[0].la == 0 && plan.exts[0].llen == plan.size
  }

  // ------------------------------------------------------------- the packed stream

  /** The packed stream; where a pcluster does not decode, nothing is known and zeros stand in. */
  function StreamOf(decode: Decoder, exts: seq<Ext>): Bytes {
    if exts == [] then []
    else StreamOf(decode, exts[..|exts| - 1]) + PartOfStream(decode, exts[|exts| - 1])
  }

  function PartOfStream(decode: Decoder, e: Ext): (r: Bytes)
    ensures |r| == e.llen
  {
    ExtLength(decode, [], e);
    match ExtBytes(decode, [], e) case Some(b) => b case None => Zeros(e.llen)
  }

  /** What has been collected of the packed inode: its pclusters in order, and zeros where none are. */
  predicate Collected(pcs: seq<StoredPc>, decoded: seq<Option<Bytes>>, stream: Bytes) {
    && PackedStream(pcs, decoded, stream)
    && (pcs != [] ==> forall x :: pcs[|pcs| - 1].End() <= x < |stream| ==> stream[x] == 0)
  }

  lemma CollectPCluster(decode: Decoder, pcs: seq<StoredPc>, decoded: seq<Option<Bytes>>, stream: Bytes, e: Ext)
    requires Collected(pcs, decoded, stream) && e.src.Raw? && e.la == |stream| && e.llen > 0 && e.End() < WORD
    requires decode(e).Some? ==> e.src.plen <= PCLUSTER_MAX_SIZE && e.llen <= PCLUSTER_MAX_DSIZE
    ensures Collected(pcs + [StoredOf(e)], decoded + [ExtBytes(decode, [], e)], stream + PartOfStream(decode, e))
  {
    var more := stream + PartOfStream(decode, e);
    var all, got := pcs + [StoredOf(e)], decoded + [ExtBytes(decode, [], e)];
    forall k | 0 <= k < |all| && got[k].Some?
      ensures all[k].End() <= |more| && got[k].value == Cut(more, all[k].la, all[k].llen)
    {
      if k < |pcs| {
        assert Cut(more, pcs[k].la, pcs[k].llen) == Cut(stream, pcs[k].la, pcs[k].llen);
      } else {
        assert Cut(more, e.la, e.llen) == PartOfStream(decode, e);
      }
    }
  }

  lemma CollectHole(decode: Decoder, pcs: seq<StoredPc>, decoded: seq<Option<Bytes>>, stream: Bytes, e: Ext)
    requires Collected(pcs, decoded, stream) && e.src.Zero? && e.la == |stream| && e.End() < WORD
    ensures Collected(pcs, decoded, stream + PartOfStream(decode, e))
  {
    var more := stream + PartOfStream(decode, e);
    forall k | 0 <= k < |pcs| && decoded[k].Some?
      ensures pcs[k].End() <= |more| && decoded[k].value == Cut(more, pcs[k].la, pcs[k].llen)
    {
      assert Cut(more, pcs[k].la, pcs[k].llen) == Cut(stream, pcs[k].la, pcs[k].llen);
    }
  }

  /** The packed inode holds stored pclusters and holes, and decoding is as the image has it. */
  predicate PackedInode(packed: ZPlan) {
    Covers(packed.exts, 0, packed.size) && packed.size < WORD && forall e :: e in packed.exts ==> !e.src.Packed?
  }

  /** The packed inode's pclusters with bytes on the image, each with what it decodes to; a hole gives
      no entry. */
  method PackedPClusters(image: Bytes, blk: nat, inflate: Inflate, packed: ZPlan)
    returns (pcs: seq<StoredPc>, decoded: seq<Option<Bytes>>)
    requires PackedInode(packed)
    ensures pcs == OwnPClusters(packed.exts) && decoded == DecodesOf(DecoderOf(image, blk, inflate), packed.exts)
    ensures PackedStream(pcs, decoded, StreamOf(DecoderOf(image, blk, inflate), packed.exts))
  {
    hide PackedStream, PackedInode;
    pcs, decoded := [], [];
    var exts, decode := packed.exts, DecoderOf(image, blk, inflate);
    for k := 0 to |exts|
      invariant pcs == OwnPClusters(exts[..k]) && decoded == DecodesOf(decode, exts[..k])
    {
      var e := exts[k];
      assert exts[..k + 1][..k] == exts[..k] && exts[..k + 1][k] == e;
      if e.src.Raw? {
        pcs, decoded := pcs + [StoredOf(e)], decoded + [ExtBytes(decode, [], e)];
      }
    }
    assert exts[..|exts|] == exts;
    PackedStreamHolds(image, blk, inflate, packed);
  }

  lemma PackedStreamHolds(image: Bytes, blk: nat, inflate: Inflate, packed: ZPlan)
    requires PackedInode(packed)
    ensures var decode := DecoderOf(image, blk, inflate);
            PackedStream(OwnPClusters(packed.exts), DecodesOf(decode, packed.exts), StreamOf(decode, packed.exts))
  {
    hide PackedInode, OwnPClusters, DecodesOf, StreamOf;
    CollectedTo(image, blk, inflate, packed, |packed.exts|);
    assert packed.exts[..|packed.exts|] == packed.exts;
  }

  /** What the first `k` extents hold is a stream of pclusters and zeros. */
  lemma {:induction false} CollectedTo(image: Bytes, blk: nat, inflate: Inflate, packed: ZPlan, k: nat)
    requires PackedInode(packed) && k <= |packed.exts|
    ensures var decode, exts := DecoderOf(image, blk, inflate), packed.exts[..k];
            Collected(OwnPClusters(exts), DecodesOf(decode, exts), StreamOf(decode, exts))
            && |StreamOf(decode, exts)| == if k == 0 then 0 else packed.exts[k - 1].End()
  {
    hide Collected, PartOfStream, DecodeRaw, OwnPClusters, DecodesOf, StreamOf, ExtBytes;
    var decode, exts := DecoderOf(image, blk, inflate), packed.exts;
    if k == 0 {
      assert exts[..0] == [];
      NothingCollected();
      NoExtents(decode);
    } else {
      CollectedTo(image, blk, inflate, packed, k - 1);
      var e, before := exts[k - 1], exts[..k - 1];
      CoversAt(exts, 0, packed.size, k - 1, k - 1);
      if k > 1 {
        CoversAt(exts, 0, packed.size, k - 2, k - 1);
      }
      assert exts[..k] == before + [e];
      OneMore(decode, before, e);
      if e.src.Raw? {
        DecodesPlausibly(image, blk, inflate, e);
        CollectPCluster(decode, OwnPClusters(before), DecodesOf(decode, before), StreamOf(decode, before), e);
      } else {
        assert e in exts;
        CollectHole(decode, OwnPClusters(before), DecodesOf(decode, before), StreamOf(decode, before), e);
      }
    }
  }

  lemma NoExtents(decode: Decoder)
    ensures OwnPClusters([]) == [] && DecodesOf(decode, []) == [] && StreamOf(decode, []) == []
  {
  }

  /** One more extent is one more part of the stream, and one more pcluster if it is stored. */
  lemma OneMore(decode: Decoder, exts: seq<Ext>, e: Ext)
    ensures StreamOf(decode, exts + [e]) == StreamOf(decode, exts) + PartOfStream(decode, e)
    ensures OwnPClusters(exts + [e]) == if e.src.Raw? then OwnPClusters(exts) + [StoredOf(e)] else OwnPClusters(exts)
    ensures DecodesOf(decode, exts + [e]) == if e.src.Raw? then DecodesOf(decode, exts) + [ExtBytes(decode, [], e)] else DecodesOf(decode, exts)
  {
    hide ExtBytes, PartOfStream;
    var all := exts + [e];
    assert all[..|all| - 1] == exts && all[|all| - 1] == e;
  }

  lemma NothingCollected()
    ensures Collected([], [], [])
  {
  }

  lemma DecodesPlausibly(image: Bytes, blk: nat, inflate: Inflate, e: Ext)
    ensures DecodeRaw(image, blk, inflate, e).Some? ==>
              e.src.Raw? && e.src.plen <= PCLUSTER_MAX_SIZE && e.llen <= PCLUSTER_MAX_DSIZE && e.src.pa + e.src.plen <= |image|
  {
  }

  /** A packed inode without holes. */
  predicate Solid(packed: ZPlan) {
    forall k :: 0 <= k < |packed.exts| ==> packed.exts[k].src.Raw?
  }

  lemma {:induction false} SolidPClusters(exts: seq<Ext>, k: nat)
    requires (forall j :: 0 <= j < |exts| ==> exts[j].src.Raw?) && k < |exts|
    ensures |OwnPClusters(exts)| == |exts| && OwnPClusters(exts)[k] == StoredOf(exts[k])
  {
    var n := |exts| - 1;
    if k < n {
      SolidPClusters(exts[..n], k);
      assert exts[..n][k] == exts[k];
    } else if n > 0 {
      SolidPClusters(exts[..n], 0);
    }
  }

  /** Without holes every pcluster is followed by the next. */
  lemma SolidHasNoHoles(packed: ZPlan)
    requires PackedInode(packed) && Solid(packed)
    ensures forall k :: 0 <= k < |OwnPClusters(packed.exts)| ==> NoHoleAfter(OwnPClusters(packed.exts), k)
  {
    hide OwnPClusters, Covers;
    var exts := packed.exts;
    forall k | 0 <= k < |OwnPClusters(exts)|
      ensures NoHoleAfter(OwnPClusters(exts), k)
    {
      if exts != [] {
        SolidPClusters(exts, 0);
        SolidPClusters(exts, k);
        if k + 1 < |exts| {
          SolidPClusters(exts, k + 1);
          CoversAt(exts, 0, packed.size, k, k + 1);
        }
      } else {
        NoExtents(e => None);
      }
    }
  }

  // ------------------------------------------------------------- reading a file back

  /** A packed range can be read: it lies in the stream, and every pcluster it touches decodes. */
  predicate RangeReads(decode: Decoder, packed: seq<Ext>, off: nat, len: nat) {
    && off + len <= |StreamOf(decode, packed)|
    && forall k :: 0 <= k < |packed| && off < packed[k].End() && packed[k].la < off + len ==> ExtBytes(decode, [], packed[k]).Some?
  }

  /** What a file reads back as, if all of it can be read. */
  function FileOf(decode: Decoder, packed: seq<Ext>, exts: seq<Ext>): Option<Bytes> {
    if forall k :: 0 <= k < |exts| && exts[k].src.Packed? ==> RangeReads(decode, packed, exts[k].src.off, exts[k].llen)
    then FileBytes(decode, StreamOf(decode, packed), exts) else None
  }

  /** Each stored pcluster of a file that was read lies in the image, within the limits. */
  lemma ReadFilesArePlausible(image: Bytes, blk: nat, inflate: Inflate, packed: seq<Ext>, plan: ZPlan)
    requires Covers(plan.exts, 0, plan.size) && FileOf(DecoderOf(image, blk, inflate), packed, plan.exts).Some?
    ensures forall pc :: pc in OwnPClusters(plan.exts) ==>
              pc.plen <= PCLUSTER_MAX_SIZE && pc.llen <= PCLUSTER_MAX_DSIZE && pc.pa + pc.plen <= |image|
  {
    hide Covers, FileBytes, StreamOf;
    var decode := DecoderOf(image, blk, inflate);
    OwnPClustersAreExtents(plan.exts);
    forall e | e in plan.exts && e.src.Raw?
      ensures e.src.plen <= PCLUSTER_MAX_SIZE && e.llen <= PCLUSTER_MAX_DSIZE && e.src.pa + e.src.plen <= |image|
    {
      var k :| 0 <= k < |plan.exts| && plan.exts[k] == e;
      ExtInFile(decode, StreamOf(decode, packed), plan.exts, 0, plan.size, k);
      DecodesPlausibly(image, blk, inflate, e);
    }
  }

  /** A map's own pclusters follow each other. */
  lemma {:induction false} OwnPClustersInOrder(exts: seq<Ext>, size: nat, k: nat)
    requires Covers(exts, 0, size) && k <= |exts|
    ensures InOrder(OwnPClusters(exts[..k]))
    ensures forall pc :: pc in OwnPClusters(exts[..k]) ==> k > 0 && pc.End() <= exts[k - 1].End()
  {
    hide Covers;
    if k > 0 {
      OwnPClustersInOrder(exts, size, k - 1);
      CoversAt(exts, 0, size, k - 1, k - 1);
      if k > 1 {
        CoversAt(exts, 0, size, k - 2, k - 1);
      }
      assert exts[..k][..k - 1] == exts[..k - 1] && exts[..k][k - 1] == exts[k - 1];
      var before := OwnPClusters(exts[..k - 1]);
      assert before != [] ==> before[|before| - 1] in before;
    }
  }

  // ------------------------------------------------------------- the file pass

  /** The file is a member worth slicing, of the size that was recorded. */
  predicate IsSource(w: World, sources: set<nat>, item: FileItem) {
    item.member in sources && item.member < |w.members| && w.members[item.member].size == item.plan.size
    && Nameable(w.members[item.member])
  }

  /** A file with bytes of its own or a tail in the packed inode, but not all of it there. */
  predicate ReadBack(item: FileItem) {
    !PackedWhole(item.plan) && (OwnPClusters(item.plan.exts) != [] || PackedExtents(item.plan.exts) != [])
  }

  /** What the passes are given: an unchanged container, an image whose maps cover its files, and digests
      that tell the members to be sliced from whatever else is read. */
  ghost predicate Readable(w: World, truth: seq<Bytes>, i: nat, img: Image, inflate: Inflate, sources: set<nat>) {
    && Unchanged(w, truth) && i < |truth| && PackedInode(img.packed)
    && (forall item :: item in img.files ==> Covers(item.plan.exts, 0, item.plan.size))
    && (forall j, k :: 0 <= j < k < |img.files| ==> img.files[j].member != img.files[k].member)
    && var decode := DecoderOf(truth[i], img.blk, inflate);
    && NoTwins(w.f, truth, sources, StreamOf(decode, img.packed.exts))
    && (forall item :: item in img.files ==> FileIsNoTwin(w, truth, decode, img.packed.exts, item))
  }

  ghost predicate FileIsNoTwin(w: World, truth: seq<Bytes>, decode: Decoder, packed: seq<Ext>, item: FileItem) {
    FileOf(decode, packed, item.plan.exts).Some? ==> NotTwin(w.f, truth, {item.member}, FileOf(decode, packed, item.plan.exts).value)
  }

  /** A file the sources name, with a digest, of the size its member has and one worth slicing. */
  predicate Listed(w: World, sources: set<nat>, item: FileItem) {
    && item.member in sources && item.member < |w.members| && w.members[item.member].sha256.Some?
    && w.members[item.member].size == item.plan.size >= IDENTITY_MIN_BYTES
  }

  /** One packed extent is all of the file. */
  predicate InPackedWhole(item: FileItem) {
    exists e :: e in item.plan.exts && item.plan.exts == [e] && e.src.Packed? && e.la == 0 && e.End() == item.plan.size
  }

  /** The file is one the pass has to read: a listed one, not all of it packed, with more to it than holes. */
  predicate MustRead(w: World, sources: set<nat>, item: FileItem) {
    Listed(w, sources, item) && !InPackedWhole(item) && exists e :: e in item.plan.exts && !e.src.Zero?
  }

  lemma MustReadIff(w: World, sources: set<nat>, item: FileItem)
    ensures IsSource(w, sources, item) <==> Listed(w, sources, item)
    ensures PackedWhole(item.plan) <==> InPackedWhole(item)
    ensures ReadBack(item) && IsSource(w, sources, item) <==> MustRead(w, sources, item)
  {
    hide OwnPClusters, PackedExtents;
    SomeOwnIff(item.plan.exts);
    if PackedWhole(item.plan) {
      assert item.plan.exts[0] in item.plan.exts && item.plan.exts == [item.plan.exts[0]];
    }
    assert PackedExtents(item.plan.exts) != [] ==> PackedExtents(item.plan.exts)[0] in PackedExtents(item.plan.exts);
    assert forall e :: e in item.plan.exts && e.src.Packed? ==> e in PackedExtents(item.plan.exts);
  }

  lemma {:induction false} SomeOwnIff(exts: seq<Ext>)
    ensures OwnPClusters(exts) != [] <==> exists e :: e in exts && e.src.Raw?
  {
    if exts != [] {
      var n := |exts| - 1;
      SomeOwnIff(exts[..n]);
      assert exts == exts[..n] + [exts[n]];
    }
  }

  /** What the file pass has so far: findings, the members proved, and the preset settled. */
  datatype FilesRead = FilesRead(found: seq<Found>, proved: set<nat>, known: Option<nat>)

  /** What the files of an image are read with. */
  datatype Reading = Reading(image: Bytes, img: Image, inflate: Inflate, step: nat -> nat, sources: set<nat>)

  function FileHere(rd: Reading, item: FileItem): Option<Bytes> {
    FileOf(DecoderOf(rd.image, rd.img.blk, rd.inflate), rd.img.packed.exts, item.plan.exts)
  }

  function OwnEndOf(w: World, rd: Reading, item: FileItem, file: Bytes, known: Option<nat>): FileEnd
    requires Listed(w, rd.sources, item)
  {
    OwnFileOf(OwnFile(w.f, rd.image, item.member, file, rd.step, rd.img.dict), OwnPClusters(item.plan.exts),
              w.members[item.member].sha256.value, known)
  }

  /** With one more file read back; None is a file that cannot be read. */
  function FileNext(w: World, rd: Reading, item: FileItem, r: FilesRead): Option<FilesRead> {
    if !MustRead(w, rd.sources, item) then Some(r)
    else
      match FileHere(rd, item)
      case None => None
      case Some(file) =>
        match OwnEndOf(w, rd, item, file, r.known)
        case Truncated => None
        case NotProved(known) => Some(r.(known := known))
        case Proved(more, known) => Some(FilesRead(r.found + more, r.proved + {item.member}, known))
  }

  /** What the file pass has after the first `k` files. */
  function FilesTo(w: World, rd: Reading, k: nat): Option<FilesRead>
    requires k <= |rd.img.files|
  {
    if k == 0 then Some(FilesRead([], {}, None))
    else
      match FilesTo(w, rd, k - 1)
      case None => None
      case Some(r) => FileNext(w, rd, rd.img.files[k - 1], r)
  }

  lemma {:induction false} NoneStays(w: World, rd: Reading, k: nat)
    requires k <= |rd.img.files|
    ensures FilesTo(w, rd, k).None? ==> FilesTo(w, rd, |rd.img.files|).None?
    decreases |rd.img.files| - k
  {
    hide FileNext;
    if k < |rd.img.files| {
      NoneStays(w, rd, k + 1);
    }
  }

  /** Pass one: every file with bytes outside the packed inode is read back, one after another. */
  method FilePass(w: World, rd: Reading) returns (r: Option<FilesRead>)
    ensures r == FilesTo(w, rd, |rd.img.files|)
  {
    hide FileOf, OwnPClusters, OwnFileOf;
    var got := FilesRead([], {}, None);
    for k := 0 to |rd.img.files|
      invariant FilesTo(w, rd, k) == Some(got)
    {
      var item := rd.img.files[k];
      NoneStays(w, rd, k + 1);
      MustReadIff(w, rd.sources, item);
      if ReadBack(item) && IsSource(w, rd.sources, item) {
        var file := FileHere(rd, item);
        if file.None? {
          return None;
        }
        var end := PlanOwnFile(OwnFile(w.f, rd.image, item.member, file.value, rd.step, rd.img.dict), OwnPClusters(item.plan.exts),
                               w.members[item.member].sha256.value, got.known);
        match end {
          case Truncated =>
            return None;
          case NotProved(known) =>
            got := got.(known := known);
          case Proved(more, known) =>
            got := FilesRead(got.found + more, got.proved + {item.member}, known);
        }
      }
    }
    r := Some(got);
  }

  // ------------------------------------------------------------- what the file pass says is true

  /** Findings that hold whatever is in the spool. */
  ghost predicate HoldAnyway(w: World, truth: seq<Bytes>, i: nat, sources: set<nat>, found: seq<Found>)
    requires i < |truth|
  {
    forall x :: x in found ==> FoundHolds(w, truth, i, sources, [], x)
  }

  lemma HoldsWithMore(w: World, truth: seq<Bytes>, i: nat, sources: set<nat>, found: seq<Found>, literals: Bytes)
    requires i < |truth| && HoldAnyway(w, truth, i, sources, found)
    ensures forall x :: x in found ==> FoundHolds(w, truth, i, sources, literals, x)
  {
    forall x | x in found
      ensures FoundHolds(w, truth, i, sources, literals, x)
    {
      assert FoundHolds(w, truth, i, sources, [], x);
      if x.Node? {
        InputsSurviveGrowth(x.node.inputs, truth, [], literals);
      }
    }
  }

  lemma OwnFindingsHold(w: World, truth: seq<Bytes>, i: nat, image: Bytes, sources: set<nat>, c: nat, file: Bytes, found: seq<Found>)
    requires i < |truth| && image == truth[i] && c < |truth| && truth[c] == file && c in sources
    requires forall x :: x in found ==> FileSound(w.f, image, c, file, truth, [], x)
    ensures HoldAnyway(w, truth, i, sources, found)
  {
    forall x | x in found
      ensures FoundHolds(w, truth, i, sources, [], x)
    {
      assert FileSound(w.f, image, c, file, truth, [], x);
    }
  }

  /** The file is read, and its bytes come back as its member's. */
  predicate ComesBack(w: World, truth: seq<Bytes>, rd: Reading, item: FileItem) {
    MustRead(w, rd.sources, item) && item.member < |truth| && FileHere(rd, item) == Some(truth[item.member])
  }

  /** The members whose files came back among the first `k`. */
  function BackBy(w: World, truth: seq<Bytes>, rd: Reading, k: nat): set<nat>
    requires k <= |rd.img.files|
  {
    set j | 0 <= j < k && ComesBack(w, truth, rd, rd.img.files[j]) :: rd.img.files[j].member
  }

  /** Some file that has to be read cannot be. */
  predicate Unread(w: World, rd: Reading, k: nat)
    requires k <= |rd.img.files|
  {
    exists j :: 0 <= j < k && MustRead(w, rd.sources, rd.img.files[j]) && FileHere(rd, rd.img.files[j]).None?
  }

  ghost predicate ReadsOf(w: World, truth: seq<Bytes>, i: nat, rd: Reading) {
    Readable(w, truth, i, rd.img, rd.inflate, rd.sources) && rd.image == truth[i] && forall p: nat :: rd.step(p) > 0
  }

  /** A file that has to be read and can be is proved exactly when it comes back, and what is found in it then
      holds. */
  lemma OneFileIsTrue(w: World, truth: seq<Bytes>, i: nat, rd: Reading, k: nat, known: Option<nat>)
    requires ReadsOf(w, truth, i, rd) && k < |rd.img.files|
    requires var item := rd.img.files[k]; MustRead(w, rd.sources, item) && FileHere(rd, item).Some?
    ensures var item := rd.img.files[k];
            var end := OwnEndOf(w, rd, item, FileHere(rd, item).value, known);
            !end.Truncated? && (end.Proved? <==> ComesBack(w, truth, rd, item))
            && (end.Proved? ==> HoldAnyway(w, truth, i, rd.sources, end.found))
  {
    hide FileOf, OwnPClusters, FileSound, OwnFileOf, FoundHolds, Covers, NoTwins, NotTwin, PackedInode;
    var item := rd.img.files[k];
    var file := FileHere(rd, item).value;
    assert item in rd.img.files && FileIsNoTwin(w, truth, DecoderOf(rd.image, rd.img.blk, rd.inflate), rd.img.packed.exts, item);
    assert MemberTrue(w, truth, item.member);
    ReadFilesArePlausible(rd.image, rd.img.blk, rd.inflate, rd.img.packed.exts, item.plan);
    OwnPClustersInOrder(item.plan.exts, item.plan.size, |item.plan.exts|);
    assert item.plan.exts[..|item.plan.exts|] == item.plan.exts;
    OwnFileIsProvedIff(OwnFile(w.f, rd.image, item.member, file, rd.step, rd.img.dict), truth, OwnPClusters(item.plan.exts), known);
    var end := OwnEndOf(w, rd, item, file, known);
    if end.Proved? {
      OwnFindingsHold(w, truth, i, rd.image, rd.sources, item.member, file, end.found);
    }
  }

  /** The file pass fails exactly when some file cannot be read; otherwise the members proved are exactly those
      whose files come back, and all it finds holds. */
  lemma {:induction false} FilePassIsTrue(w: World, truth: seq<Bytes>, i: nat, rd: Reading, k: nat)
    requires ReadsOf(w, truth, i, rd) && k <= |rd.img.files|
    ensures FilesTo(w, rd, k).None? <==> Unread(w, rd, k)
    ensures FilesTo(w, rd, k).Some? ==>
              FilesTo(w, rd, k).value.proved == BackBy(w, truth, rd, k) && HoldAnyway(w, truth, i, rd.sources, FilesTo(w, rd, k).value.found)
  {
    hide ReadsOf, FoundHolds, FileHere, OwnEndOf, ReadBack, IsSource;
    if k > 0 {
      FilePassIsTrue(w, truth, i, rd, k - 1);
      var item := rd.img.files[k - 1];
      if FilesTo(w, rd, k - 1).Some? && MustRead(w, rd.sources, item) && FileHere(rd, item).Some? {
        OneFileIsTrue(w, truth, i, rd, k - 1, FilesTo(w, rd, k - 1).value.known);
      }
      BackNext(w, truth, rd, k - 1);
    }
  }

  lemma BackNext(w: World, truth: seq<Bytes>, rd: Reading, k: nat)
    requires k < |rd.img.files|
    ensures BackBy(w, truth, rd, k + 1)
            == BackBy(w, truth, rd, k) + if ComesBack(w, truth, rd, rd.img.files[k]) then {rd.img.files[k].member} else {}
  {
    hide ComesBack;
  }

  // ------------------------------------------------------------- covers

  /** The file's packed spans may be sliced: it lies in the packed inode whole, or the file pass proved it. */
  predicate Sliceable(w: World, sources: set<nat>, proved: set<nat>, item: FileItem) {
    Listed(w, sources, item) && (InPackedWhole(item) || item.member in proved)
  }

  /** A packed span of the file as a cover: whole files are yet to be hashed, tails were proved by the file pass. */
  predicate CoverIs(cv: Cover, item: FileItem, e: Ext) {
    && e in item.plan.exts && e.src.Packed?
    && cv.idx == item.member && cv.from == e.la && cv.pstart == e.src.off && cv.len == e.llen
    && (cv.proved <==> !InPackedWhole(item))
  }

  function CoverOf(item: FileItem, e: Ext): Cover
    requires e.src.Packed?
  {
    Cover(item.member, e.la, e.src.off, e.llen, !PackedWhole(item.plan))
  }

  /** Where the packed inode holds the members of the first `k` files. */
  function CoversTo(w: World, files: seq<FileItem>, sources: set<nat>, proved: set<nat>, k: nat): seq<Cover>
    requires k <= |files|
  {
    if k == 0 then []
    else
      var item := files[k - 1];
      CoversTo(w, files, sources, proved, k - 1) + if Sliceable(w, sources, proved, item) then FileCovers(item, PackedExtents(item.plan.exts)) else []
  }

  function FileCovers(item: FileItem, exts: seq<Ext>): seq<Cover>
    requires forall e :: e in exts ==> e.src.Packed?
  {
    seq(|exts|, n requires 0 <= n < |exts| => assert exts[n] in exts; CoverOf(item, exts[n]))
  }

  /** Where the packed inode holds members: whole files by their own claim, tails only where the file pass
      proved the file. */
  method GatherCovers(w: World, files: seq<FileItem>, sources: set<nat>, proved: set<nat>) returns (covers: seq<Cover>)
    ensures covers == CoversTo(w, files, sources, proved, |files|)
  {
    hide PackedExtents, PackedWhole, IsSource, Listed, InPackedWhole;
    covers := [];
    for k := 0 to |files|
      invariant covers == CoversTo(w, files, sources, proved, k)
    {
      var item := files[k];
      var exts := PackedExtents(item.plan.exts);
      MustReadIff(w, sources, item);
      if IsSource(w, sources, item) && (PackedWhole(item.plan) || item.member in proved) {
        ghost var before := covers;
        for n := 0 to |exts|
          invariant covers == before + FileCovers(item, exts)[..n]
        {
          assert exts[n] in exts;
          assert FileCovers(item, exts)[..n + 1] == FileCovers(item, exts)[..n] + [CoverOf(item, exts[n])];
          covers := covers + [CoverOf(item, exts[n])];
        }
        assert FileCovers(item, exts)[..|exts|] == FileCovers(item, exts);
      }
    }
  }

  /** A cover is gathered for every packed span of a file that may be sliced, and for nothing else. */
  lemma {:induction false} CoversAreGathered(w: World, files: seq<FileItem>, sources: set<nat>, proved: set<nat>, k: nat, cv: Cover)
    requires k <= |files|
    ensures cv in CoversTo(w, files, sources, proved, k) <==>
            exists j, e :: 0 <= j < k && Sliceable(w, sources, proved, files[j]) && CoverIs(cv, files[j], e)
  {
    hide PackedExtents, Sliceable, CoverOf, CoverIs;
    if k > 0 {
      CoversAreGathered(w, files, sources, proved, k - 1, cv);
      var item := files[k - 1];
      var exts := PackedExtents(item.plan.exts);
      forall e
        ensures CoverIs(cv, item, e) <==> e in exts && cv == CoverOf(item, e)
      {
        CoverIsOne(w, sources, cv, item, e);
      }
      if Sliceable(w, sources, proved, item) {
        if e :| e in exts && cv == CoverOf(item, e) {
          var n :| 0 <= n < |exts| && exts[n] == e;
          assert FileCovers(item, exts)[n] == cv;
        }
      }
    }
  }

  lemma CoverIsOne(w: World, sources: set<nat>, cv: Cover, item: FileItem, e: Ext)
    ensures CoverIs(cv, item, e) <==> e in PackedExtents(item.plan.exts) && cv == CoverOf(item, e)
  {
    hide PackedExtents, InPackedWhole, PackedWhole;
    MustReadIff(w, sources, item);
  }

  lemma CoverIsClaimed(w: World, truth: seq<Bytes>, i: nat, rd: Reading, k: nat, e: Ext)
    requires ReadsOf(w, truth, i, rd) && k < |rd.img.files| && IsSource(w, rd.sources, rd.img.files[k])
    requires PackedWhole(rd.img.files[k].plan) || ComesBack(w, truth, rd, rd.img.files[k])
    requires e in rd.img.files[k].plan.exts && e.src.Packed?
    ensures Claims(w, truth, StreamOf(DecoderOf(rd.image, rd.img.blk, rd.inflate), rd.img.packed.exts), rd.sources, CoverOf(rd.img.files[k], e))
  {
    hide NoTwins, FileIsNoTwin, PackedInode, StreamOf, Covers;
    var item := rd.img.files[k];
    assert MemberTrue(w, truth, item.member);
    if !PackedWhole(item.plan) {
      assert item in rd.img.files;
      var n :| 0 <= n < |item.plan.exts| && item.plan.exts[n] == e;
      var decode := DecoderOf(rd.image, rd.img.blk, rd.inflate);
      PackedExtentsAreRanges(decode, StreamOf(decode, rd.img.packed.exts), item.plan.exts, item.plan.size, truth[item.member], n);
    }
  }

  /** Every cover is a claim the packed pass may check or take as proved. */
  lemma CoversAreClaimed(w: World, truth: seq<Bytes>, i: nat, rd: Reading)
    requires ReadsOf(w, truth, i, rd)
    ensures var all := |rd.img.files|;
            forall cv :: cv in CoversTo(w, rd.img.files, rd.sources, BackBy(w, truth, rd, all), all) ==>
              Claims(w, truth, StreamOf(DecoderOf(rd.image, rd.img.blk, rd.inflate), rd.img.packed.exts), rd.sources, cv)
  {
    hide ReadsOf, Claims, PackedExtents, StreamOf, CoversTo, CoverOf, FileHere;
    var all := |rd.img.files|;
    var proved := BackBy(w, truth, rd, all);
    forall cv | cv in CoversTo(w, rd.img.files, rd.sources, proved, all)
      ensures Claims(w, truth, StreamOf(DecoderOf(rd.image, rd.img.blk, rd.inflate), rd.img.packed.exts), rd.sources, cv)
    {
      CoversAreGathered(w, rd.img.files, rd.sources, proved, all, cv);
      var j, e :| 0 <= j < all && Sliceable(w, rd.sources, proved, rd.img.files[j]) && CoverIs(cv, rd.img.files[j], e);
      var item := rd.img.files[j];
      CoverIsOne(w, rd.sources, cv, item, e);
      MustReadIff(w, rd.sources, item);
      if !PackedWhole(item.plan) {
        var n :| 0 <= n < all && ComesBack(w, truth, rd, rd.img.files[n]) && rd.img.files[n].member == item.member;
        OneFileAMember(w, truth, i, rd, j, n);
      }
      CoverIsClaimed(w, truth, i, rd, j, e);
    }
  }

  lemma OneFileAMember(w: World, truth: seq<Bytes>, i: nat, rd: Reading, j: nat, k: nat)
    requires ReadsOf(w, truth, i, rd) && j < |rd.img.files| && k < |rd.img.files| && rd.img.files[j].member == rd.img.files[k].member
    ensures j == k
  {
  }

  // ------------------------------------------------------------- both passes

  /** A member's bytes, where it has a readable space. */
  function ViewOf(w: World, i: nat): Option<Bytes>
    requires i < |w.members|
  {
    var m := w.members[i];
    if m.space.Some? && m.space.value in w.spaces then Some(w.spaces[m.space.value])
    else if m.extents.Some? && m.extents.value.src in w.spaces && InSpace(w.spaces[m.extents.value.src], Ranges(m.extents.value.runs))
    then Some(Gather(w.spaces[m.extents.value.src], Ranges(m.extents.value.runs)))
    else None
  }

  lemma ViewIsTrue(w: World, truth: seq<Bytes>, i: nat)
    requires Unchanged(w, truth) && i < |truth|
    ensures ViewOf(w, i).Some? ==> ViewOf(w, i).value == truth[i]
    ensures w.members[i].space.Some? || w.members[i].extents.Some? ==> ViewOf(w, i).Some?
  {
    assert MemberTrue(w, truth, i);
    if w.members[i].extents.Some? {
      var e := w.members[i].extents.value;
      RangesReadBack(w.spaces[e.src], e.runs, 0, truth[i]);
      assert truth[i][0..] == truth[i];
    }
  }

  /** The pclusters of the packed inode, what they decode to, and the stream they stand for. */
  function PackedOfImage(rd: Reading): (seq<StoredPc>, seq<Option<Bytes>>) {
    (OwnPClusters(rd.img.packed.exts), DecodesOf(DecoderOf(rd.image, rd.img.blk, rd.inflate), rd.img.packed.exts))
  }

  function PackedBytes(rd: Reading): Bytes {
    StreamOf(DecoderOf(rd.image, rd.img.blk, rd.inflate), rd.img.packed.exts)
  }

  /** How planning an image ends: refused if it or a file of it cannot be read, and otherwise as its packed
      pass does, with what the file pass found. */
  function ScanOf(w: World, i: nat, img: Image, inflate: Inflate, step: nat -> nat, sources: set<nat>, before: Bytes): Scan
    requires i < |w.members|
  {
    match ViewOf(w, i)
    case None => Refused
    case Some(image) =>
      var rd := Reading(image, img, inflate, step, sources);
      match FilesTo(w, rd, |img.files|)
      case None => Refused
      case Some(files) =>
        var (pcs, decoded) := PackedOfImage(rd);
        if pcs == [] then Scanned(files.found, before)
        else
          match PackedOf(w, image, pcs, decoded, PackedBytes(rd), CoversTo(w, img.files, sources, files.proved, |img.files|), before, img.dict,
                         files.known, img.checked)
          case Tripped => Panics
          case Lost => SpoolLost(files.found)
          case Reported(more, literals) => Scanned(files.found + more, literals)
  }

  /** Plan image `i` against `sources`, with `before` spooled: files, then the packed inode. */
  method ScanImage(w: World, i: nat, img: Image, inflate: Inflate, step: nat -> nat, sources: set<nat>, before: Bytes) returns (r: Scan)
    requires i < |w.members| && PackedInode(img.packed)
    ensures r == ScanOf(w, i, img, inflate, step, sources, before)
  {
    hide StreamOf, OwnPClusters, DecodesOf, PackedStream, FilesTo, CoversTo, PackedOf;
    var image := ViewOf(w, i);
    if image.None? {
      return Refused;
    }
    var rd := Reading(image.value, img, inflate, step, sources);
    var files := FilePass(w, rd);
    if files.None? {
      return Refused;
    }
    var pcs, decoded := PackedPClusters(image.value, img.blk, inflate, img.packed);
    if pcs == [] {
      return Scanned(files.value.found, before);
    }
    var covers := GatherCovers(w, img.files, sources, files.value.proved);
    var packed := PackedPass(w, image.value, pcs, decoded, PackedBytes(rd), covers, before, img.dict, files.value.known, img.checked);
    match packed {
      case Tripped => r := Panics;
      case Lost => r := SpoolLost(files.value.found);
      case Reported(more, literals) => r := Scanned(files.value.found + more, literals);
    }
  }

  // ------------------------------------------------------------- what planning an image comes to

  /** The covers of an image: those of its whole files, and of the tails of the files that come back. */
  function CoversHere(w: World, truth: seq<Bytes>, rd: Reading): seq<Cover> {
    CoversTo(w, rd.img.files, rd.sources, BackBy(w, truth, rd, |rd.img.files|), |rd.img.files|)
  }

  /** Every file can be read, and there is something in the packed inode to try. */
  predicate Attempts(w: World, truth: seq<Bytes>, rd: Reading) {
    !Unread(w, rd, |rd.img.files|) && Tries(CoversHere(w, truth, rd), PackedOfImage(rd).0)
  }

  predicate ImageTrips(w: World, truth: seq<Bytes>, rd: Reading) {
    HoleTrips(w, rd.image, CoversHere(w, truth, rd), PackedOfImage(rd).0, PackedOfImage(rd).1, rd.img.checked)
  }

  predicate ImageEmits(w: World, truth: seq<Bytes>, rd: Reading) {
    AllEmit(w, rd.image, CoversHere(w, truth, rd), PackedOfImage(rd).0, PackedOfImage(rd).1)
  }

  /** A node whose encoder was fed over a hole that shows under a cover. */
  ghost predicate UnsureHere(w: World, truth: seq<Bytes>, rd: Reading, x: Found) {
    var (pcs, decoded) := PackedOfImage(rd);
    var covers := CoversHere(w, truth, rd);
    Unsure(SiteHere(w, rd.image, covers, pcs, decoded), PackedBytes(rd), EligibleHere(covers, pcs), x)
  }

  /** No hole shows under a cover in any window that is fed to the encoder. */
  ghost predicate WindowsAgree(w: World, truth: seq<Bytes>, rd: Reading) {
    var (pcs, decoded) := PackedOfImage(rd);
    var covers := CoversHere(w, truth, rd);
    forall k :: 0 <= k < |pcs| && EligibleHere(covers, pcs)[k].TryEncode? ==>
      WindowAgrees(SiteHere(w, rd.image, covers, pcs, decoded), PackedBytes(rd), k)
  }

  /** Planning an image is refused exactly when a file of it cannot be read; it panics exactly when a cover
      trips over a hole before anything else goes wrong, and loses the spool exactly when it does not and some
      needed pcluster cannot be dealt with. What it finds is true, but for nodes whose encoder was fed over a
      hole that shows under a cover. */
  lemma ScanIsTrue(w: World, truth: seq<Bytes>, i: nat, rd: Reading, before: Bytes)
    requires ReadsOf(w, truth, i, rd) && i < |w.members| && ViewOf(w, i).Some?
    ensures var r := ScanOf(w, i, rd.img, rd.inflate, rd.step, rd.sources, before);
            && (r.Refused? <==> Unread(w, rd, |rd.img.files|))
            && (r.Panics? <==> Attempts(w, truth, rd) && ImageTrips(w, truth, rd))
            && (r.SpoolLost? <==> Attempts(w, truth, rd) && !ImageTrips(w, truth, rd) && !ImageEmits(w, truth, rd))
            && (r.Scanned? ==>
                  && before <= r.literals
                  && forall x :: x in r.found ==> FoundHolds(w, truth, i, rd.sources, r.literals, x) || UnsureHere(w, truth, rd, x))
            && ((r.Scanned? ==> WindowsAgree(w, truth, rd)) ==> ScanHolds(w, truth, i, rd.sources, before, r))
  {
    hide ReadsOf, FoundHolds, StreamOf, FilesTo, CoversTo, PackedOf, OwnPClusters, DecodesOf, WindowAgrees, BackBy, ViewOf, Unread, Eligible;
    HereIs(w, truth, i, rd);
    FilePassIsTrue(w, truth, i, rd, |rd.img.files|);
    var r := ScanOf(w, i, rd.img, rd.inflate, rd.step, rd.sources, before);
    if !r.Refused? {
      var files := FilesTo(w, rd, |rd.img.files|).value;
      HoldsWithMore(w, truth, i, rd.sources, files.found, before);
      if r.Scanned? {
        HoldsWithMore(w, truth, i, rd.sources, files.found, r.literals);
      }
      PackedIsSettled(w, truth, i, rd, before, files.known);
    }
  }

  lemma HereIs(w: World, truth: seq<Bytes>, i: nat, rd: Reading)
    requires ReadsOf(w, truth, i, rd) && i < |w.members| && ViewOf(w, i).Some?
    ensures i < |truth| && ViewOf(w, i) == Some(rd.image)
  {
    ViewIsTrue(w, truth, i);
  }

  /** The packed pass of an image, by the conditions on the image. */
  lemma PackedIsSettled(w: World, truth: seq<Bytes>, i: nat, rd: Reading, before: Bytes, known: Option<nat>)
    requires ReadsOf(w, truth, i, rd) && i < |truth|
    ensures var (pcs, decoded) := PackedOfImage(rd);
            var covers := CoversHere(w, truth, rd);
            var r := PackedOf(w, rd.image, pcs, decoded, PackedBytes(rd), covers, before, rd.img.dict, known, rd.img.checked);
            && (pcs == [] ==> !Tries(covers, pcs))
            && (r.Tripped? <==> Tries(covers, pcs) && ImageTrips(w, truth, rd))
            && (r.Lost? <==> Tries(covers, pcs) && !ImageTrips(w, truth, rd) && !ImageEmits(w, truth, rd))
            && (r.Reported? ==>
                  && before <= r.literals
                  && forall x :: x in r.found ==> FoundHolds(w, truth, i, rd.sources, r.literals, x) || UnsureHere(w, truth, rd, x))
            && (WindowsAgree(w, truth, rd) ==> forall x :: !UnsureHere(w, truth, rd, x))
  {
    hide FoundHolds, StreamOf, CoversTo, OwnPClusters, DecodesOf, WindowAgrees, BackBy, Eligible, HoleTrips, AllEmit, Readable, YieldHere, FailedOf,
         InUse, PackedStream, NoTwins, Claims, Unchanged;
    var (pcs, decoded) := PackedOfImage(rd);
    var covers := CoversHere(w, truth, rd);
    CoversAreClaimed(w, truth, i, rd);
    PackedIsStream(w, truth, i, rd);
    PackedIsTrue(w, truth, i, rd.image, pcs, decoded, PackedBytes(rd), covers, rd.sources, before, rd.img.dict, known, rd.img.checked);
  }

  lemma PackedIsStream(w: World, truth: seq<Bytes>, i: nat, rd: Reading)
    requires ReadsOf(w, truth, i, rd)
    ensures PackedStream(PackedOfImage(rd).0, PackedOfImage(rd).1, PackedBytes(rd))
    ensures Unchanged(w, truth) && i < |truth| && rd.image == truth[i] && NoTwins(w.f, truth, rd.sources, PackedBytes(rd))
  {
    PackedStreamHolds(rd.image, rd.img.blk, rd.inflate, rd.img.packed);
  }

  /** Planning an image whose packed inode has no holes never panics, and what it finds is true. */
  lemma SolidScans(w: World, truth: seq<Bytes>, i: nat, rd: Reading, before: Bytes)
    requires ReadsOf(w, truth, i, rd) && i < |w.members| && ViewOf(w, i).Some? && Solid(rd.img.packed)
    ensures var r := ScanOf(w, i, rd.img, rd.inflate, rd.step, rd.sources, before);
            !r.Panics? && ScanHolds(w, truth, i, rd.sources, before, r)
  {
    hide ScanOf, ScanHolds, WindowsAgree, Eligible, Unread, ReadsOf, CoversTo, PackedOfImage, FoundHolds;
    ScanIsTrue(w, truth, i, rd, before);
    SolidAgrees(w, truth, i, rd);
  }

  lemma SolidAgrees(w: World, truth: seq<Bytes>, i: nat, rd: Reading)
    requires ReadsOf(w, truth, i, rd) && i < |w.members| && ViewOf(w, i).Some? && Solid(rd.img.packed)
    ensures !ImageTrips(w, truth, rd)
    ensures ImageEmits(w, truth, rd) || !Tries(CoversHere(w, truth, rd), PackedOfImage(rd).0) ==> WindowsAgree(w, truth, rd)
  {
    hide StreamOf, CoversTo, OwnPClusters, DecodesOf, BackBy, Eligible, InUse, Readable, PackedStream, NoTwins, Unchanged, WindowAgrees, TripsHere;
    var (pcs, decoded) := PackedOfImage(rd);
    var covers := CoversHere(w, truth, rd);
    PackedIsStream(w, truth, i, rd);
    SolidInode(w, truth, i, rd);
    SolidHasNoHoles(rd.img.packed);
    SolidNeverTrips(w, rd.image, covers, pcs, decoded, rd.img.checked);
    if ImageEmits(w, truth, rd) {
      forall k | 0 <= k < |pcs| && EligibleHere(covers, pcs)[k].TryEncode?
        ensures WindowAgrees(SiteHere(w, rd.image, covers, pcs, decoded), PackedBytes(rd), k)
      {
        assert NeedHere(covers, pcs)[k];
        assert Emits(SiteHere(w, rd.image, covers, pcs, decoded), EligibleHere(covers, pcs)[k], k);
        WhenWindowsAgree(SiteHere(w, rd.image, covers, pcs, decoded), PackedBytes(rd), k);
      }
    }
  }

  lemma SolidInode(w: World, truth: seq<Bytes>, i: nat, rd: Reading)
    requires ReadsOf(w, truth, i, rd)
    ensures PackedInode(rd.img.packed)
  {
  }
}
