/**
 From lcluster indexes to the extent map of a compressed file: every byte of the file lies in
 exactly one extent, and on indexes of a well-formed cluster list the extents are its pclusters.
 */
module ErofsMap {
  import opened Wrappers
  import opened ByteStrings
  import opened BitFields
  import opened ErofsIndex

  const MAX_PLEN: nat := 0x10_0000
  const MAX_LLEN: nat := 0xC0_0000

  datatype Alg = Shifted | Interlaced(skip: nat) | Lz4 | Lzma | Deflate | Zstd

  /** Where an extent's bytes are: nowhere, in the packed inode, or in a stored pcluster. */
  datatype Src = Zero | Packed(off: nat) | Raw(pa: nat, plen: nat, alg: Alg)

  datatype Ext = Ext(la: nat, llen: nat, src: Src) {
    function End(): nat { la + llen }
  }

  datatype ZPlan = ZPlan(size: nat, exts: seq<Ext>)

  /** The extents follow each other from `pos` to `size`, none of them empty. */
  predicate Covers(exts: seq<Ext>, pos: nat, size: nat) {
    if exts == [] then pos == size
    else exts[0].la == pos && exts[0].llen > 0 && Covers(exts[1..], exts[0].End(), size)
  }

  lemma {:induction false} CoversAppend(exts: seq<Ext>, pos: nat, mid: nat, e: Ext)
    requires Covers(exts, pos, mid) && e.la == mid && e.llen > 0
    ensures Covers(exts + [e], pos, e.End())
  {
    if exts != [] {
      CoversAppend(exts[1..], exts[0].End(), mid, e);
      assert (exts + [e])[1..] == exts[1..] + [e];
    }
  }

  // ------------------------------------------------------------- settings

  /** What the map header, the inode and the superblock fix: `blk` and `lclu` are the block and
      lcluster sizes, `areaEnd` where the index area ends. */
  datatype Settings = Settings(
    size: nat, blk: nat, lclu: nat, full: bool, frag: bool, inline: bool, interlaced: bool,
    big1: bool, big2: bool, algtype: nat, fragoff: nat, idata: nat, areaEnd: nat)

  /** One head lcluster on its way to an extent: `cblks` the count its first nonhead records. */
  datatype HeadRec = HeadRec(lcn: nat, la: nat, ty: nat, pblk: nat, cblks: Option<nat>, nextNonhead: bool)

  function AlgOf(code: nat): Result<Alg, string> {
    if code == 0 then Ok(Lz4)
    else if code == 1 then Ok(Lzma)
    else if code == 2 then Ok(Deflate)
    else if code == 3 then Ok(Zstd)
    else Err("unsupported erofs compression algorithm")
  }

  function HeadAlg(s: Settings, h: HeadRec): Result<Alg, string>
    requires s.blk > 0
  {
    if h.ty == LCL_PLAIN then Ok(if s.interlaced then Interlaced(h.la % s.blk) else Shifted)
    else if h.ty == LCL_HEAD2 then AlgOf(s.algtype / 16)
    else AlgOf(s.algtype % 16)
  }

  /** A pcluster that cannot be bigger than one block, whatever its nonheads say. */
  predicate OneBlock(s: Settings, h: HeadRec) {
    || (h.ty == LCL_HEAD1 && !s.big1)
    || ((h.ty == LCL_PLAIN || h.ty == LCL_HEAD2) && !s.big2)
    || (h.lcn + 1) * s.lclu >= s.size
  }

  function BlocksOf(s: Settings, h: HeadRec): Result<nat, string> {
    if OneBlock(s, h) then Ok(1)
    else if h.cblks.Some? then Ok(h.cblks.value)
    else if h.nextNonhead then Err("big pcluster without CBLKCNT")
    else Ok(1)
  }

  /** The stored pcluster of a head, or its error. */
  function StoredSrc(s: Settings, h: HeadRec, llen: nat, alg: Alg): Result<Src, string> {
    match BlocksOf(s, h)
    case Err(e) => Err(e)
    case Ok(blocks) =>
      if blocks == 0 then Ok(Zero)
      else if blocks * s.blk > MAX_PLEN then Err("oversized pcluster")
      else if (alg.Shifted? || alg.Interlaced?) && llen > blocks * s.blk then Err("plain pcluster shorter than its span")
      else Ok(Raw(h.pblk * s.blk, blocks * s.blk, alg))
  }

  /** The source of the extent of `h`, which spans `llen` bytes; the last one may be a packed tail or
      sit inline after the indexes. */
  function SrcOf(s: Settings, h: HeadRec, llen: nat, last: bool): Result<Src, string>
    requires s.blk > 0
  {
    match HeadAlg(s, h)
    case Err(e) => Err(e)
    case Ok(alg) =>
      if last && s.frag then Ok(Packed(if s.full then s.fragoff + 0x1_0000_0000 * h.pblk else s.fragoff))
      else if last && s.inline then Ok(Raw(s.areaEnd, s.idata, alg))
      else StoredSrc(s, h, llen, alg)
  }

  /** Whether pclusters of the head's kind may take more than a block. */
  predicate MayBeBig(s: Settings, ty: nat) {
    if ty == LCL_HEAD1 then s.big1 else s.big2
  }

  /** A head's pcluster takes the blocks its nonheads count exactly when its kind may be big and it is not the
      file's last lcluster; a big one must be counted unless a head follows, and any other takes one. */
  lemma BlocksIff(s: Settings, h: HeadRec, n: nat)
    requires h.ty in {LCL_PLAIN, LCL_HEAD1, LCL_HEAD2}
    ensures var counted := MayBeBig(s, h.ty) && (h.lcn + 1) * s.lclu < s.size;
            && (BlocksOf(s, h).Err? <==> counted && h.cblks.None? && h.nextNonhead)
            && (BlocksOf(s, h) == Ok(n) <==> if counted && h.cblks.Some? then n == h.cblks.value else n == 1 && !(counted && h.nextNonhead))
  {
  }

  /** The tail of a file with a fragment lies in the packed inode, at an offset whose upper half is the last
      head's block number if the map is a full one. */
  lemma TailOffset(s: Settings, h: HeadRec, llen: nat)
    requires s.blk > 0 && s.frag && s.fragoff < 0x1_0000_0000 && HeadAlg(s, h).Ok?
    ensures var src := SrcOf(s, h, llen, true);
            && src.Ok? && src.value.Packed?
            && src.value.off % 0x1_0000_0000 == s.fragoff && src.value.off / 0x1_0000_0000 == if s.full then h.pblk else 0
  {
  }

  function CodeOf(alg: Alg): Option<nat> {
    match alg
    case Lz4 => Some(0)
    case Lzma => Some(1)
    case Deflate => Some(2)
    case Zstd => Some(3)
    case _ => None
  }

  lemma AlgIff(code: nat, alg: Alg)
    ensures AlgOf(code) == Ok(alg) <==> CodeOf(alg) == Some(code)
  {
  }

  // ------------------------------------------------------------- building the map

  /** Heads so far: strictly growing positions below `size`. */
  predicate HeadsGrow(heads: seq<HeadRec>, size: nat) {
    && (forall k :: 0 <= k < |heads| ==> heads[k].la < size)
    && (forall j, k :: 0 <= j < k < |heads| ==> heads[j].lcn < heads[k].lcn)
  }

  /** Scan the indexes front to back: each head with what its first nonhead says about it. A head at
      or past the end of the file only marks that end. On the indexes of a cluster list the scan
      succeeds exactly when the list can start the file, and finds its heads. */
  method ScanHeads(s: Settings, lcls: seq<Result<Lcl, string>>, ghost xs: seq<Cluster>, ghost lobits: nat)
    returns (r: Result<seq<HeadRec>, string>)
    requires s.lclu > 0
    ensures r.Ok? ==> r.value != [] && r.value[0].la == 0 && HeadsGrow(r.value, s.size)
    ensures r.Ok? ==> forall k :: 0 <= k < |r.value| ==> FromIndex(s, lcls, r.value[k])
    ensures IndexesOf(s, xs, lobits, lcls) ==>
              (r.Ok? <==> CanStart(s, xs)) && (r.Ok? ==> HeadsAre(r.value, HeadsBelow(s, xs, |xs|)))
  {
    hide Scanning, ScannedTo, IndexesOf, HeadsAre, HeadsBelow, CanStart, Listed;
    var heads: seq<HeadRec> := [];
    NothingScanned(s, xs, lobits, lcls);
    for lcn := 0 to |lcls|
      invariant Scanning(s, lcls, heads, lcn)
      invariant Listed(s, xs, lobits, lcls, heads, lcn)
    {
      if lcls[lcn].Err? {
        NoneFails(s, xs, lobits, lcls, lcn);
        return Err(lcls[lcn].error);
      }
      var l := lcls[lcn].value;
      ghost var before := heads;
      if l.ty == LCL_NONHEAD {
        if heads != [] && lcn == heads[|heads| - 1].lcn + 1 {
          var h := heads[|heads| - 1];
          heads := heads[|heads| - 1 := h.(nextNonhead := true, cblks := l.cblkcnt)];
        }
        NonheadScanned(s, lcls, before, lcn);
        NonheadListed(s, xs, lobits, lcls, lcn, before, heads);
      } else {
        if l.clusterofs >= s.lclu {
          OffsetTooBig(s, xs, lobits, lcls, lcn);
          return Err("corrupt clusterofs");
        }
        var la := lcn * s.lclu + l.clusterofs;
        if la >= s.size {
          EndScanned(s, lcls, heads, lcn);
          EndListed(s, xs, lobits, lcls, heads, lcn);
          break;
        }
        HeadScanned(s, lcls, heads, lcn);
        heads := heads + [HeadRec(lcn, la, l.ty, l.blkaddr, None, false)];
        HeadListed(s, xs, lobits, lcls, lcn, before, heads);
      }
    }
    AllScanned(s, lcls, heads);
    FirstListed(s, xs, lobits, lcls, heads);
    if heads == [] || heads[0].la != 0 {
      return Err("compressed file does not start with a head lcluster");
    }
    return Ok(heads);
  }

  /** What a head carries once `upto` lclusters were looked at. */
  predicate ScannedTo(s: Settings, lcls: seq<Result<Lcl, string>>, h: HeadRec, upto: nat) {
    && h.lcn < upto <= |lcls| && lcls[h.lcn].Ok?
    && var l := lcls[h.lcn].value;
    && l.ty != LCL_NONHEAD && l.clusterofs < s.lclu
    && h.ty == l.ty && h.pblk == l.blkaddr && h.la == h.lcn * s.lclu + l.clusterofs
    && if h.lcn + 1 < upto && IsNonhead(lcls, h.lcn + 1) then h.nextNonhead && h.cblks == lcls[h.lcn + 1].value.cblkcnt
       else !h.nextNonhead && h.cblks.None?
  }

  /** The heads found among the first `upto` lclusters. */
  predicate Scanning(s: Settings, lcls: seq<Result<Lcl, string>>, heads: seq<HeadRec>, upto: nat) {
    HeadsGrow(heads, s.size) && forall k :: 0 <= k < |heads| ==> ScannedTo(s, lcls, heads[k], upto)
  }

  lemma AllScanned(s: Settings, lcls: seq<Result<Lcl, string>>, heads: seq<HeadRec>)
    requires Scanning(s, lcls, heads, |lcls|)
    ensures HeadsGrow(heads, s.size) && forall k :: 0 <= k < |heads| ==> FromIndex(s, lcls, heads[k])
  {
  }

  lemma NonheadScanned(s: Settings, lcls: seq<Result<Lcl, string>>, heads: seq<HeadRec>, lcn: nat)
    requires Scanning(s, lcls, heads, lcn) && IsNonhead(lcls, lcn)
    ensures var n := |heads| - 1;
            var after := if n >= 0 && lcn == heads[n].lcn + 1 then heads[n := heads[n].(nextNonhead := true, cblks := lcls[lcn].value.cblkcnt)]
                         else heads;
            Scanning(s, lcls, after, lcn + 1)
  {
    hide ScannedTo;
    var n := |heads| - 1;
    var after := if n >= 0 && lcn == heads[n].lcn + 1 then heads[n := heads[n].(nextNonhead := true, cblks := lcls[lcn].value.cblkcnt)]
                 else heads;
    forall k | 0 <= k < |heads|
      ensures ScannedTo(s, lcls, after[k], lcn + 1)
    {
      OneScanned(s, lcls, heads[k], lcn);
      OneScanned(s, lcls, heads[n], lcn);
    }
  }

  lemma OneScanned(s: Settings, lcls: seq<Result<Lcl, string>>, h: HeadRec, lcn: nat)
    requires ScannedTo(s, lcls, h, lcn) && IsNonhead(lcls, lcn)
    ensures h.lcn < lcn
    ensures if lcn == h.lcn + 1 then ScannedTo(s, lcls, h.(nextNonhead := true, cblks := lcls[lcn].value.cblkcnt), lcn + 1)
            else ScannedTo(s, lcls, h, lcn + 1)
  {
  }

  lemma HeadScanned(s: Settings, lcls: seq<Result<Lcl, string>>, heads: seq<HeadRec>, lcn: nat)
    requires Scanning(s, lcls, heads, lcn) && lcn < |lcls| && lcls[lcn].Ok? && lcls[lcn].value.ty != LCL_NONHEAD
    requires lcls[lcn].value.clusterofs < s.lclu && lcn * s.lclu + lcls[lcn].value.clusterofs < s.size
    ensures var l := lcls[lcn].value;
            Scanning(s, lcls, heads + [HeadRec(lcn, lcn * s.lclu + l.clusterofs, l.ty, l.blkaddr, None, false)], lcn + 1)
  {
  }

  /** A head past the end of the file stops the scan; nothing after it concerns the heads so far. */
  lemma EndScanned(s: Settings, lcls: seq<Result<Lcl, string>>, heads: seq<HeadRec>, lcn: nat)
    requires Scanning(s, lcls, heads, lcn) && lcn < |lcls| && lcls[lcn].Ok? && lcls[lcn].value.ty != LCL_NONHEAD
    ensures Scanning(s, lcls, heads, |lcls|)
  {
  }

  predicate IsNonhead(lcls: seq<Result<Lcl, string>>, k: nat) {
    k < |lcls| && lcls[k].Ok? && lcls[k].value.ty == LCL_NONHEAD
  }

  /** A head as the indexes have it, with the count its first nonhead records. */
  predicate FromIndex(s: Settings, lcls: seq<Result<Lcl, string>>, h: HeadRec) {
    ScannedTo(s, lcls, h, |lcls|)
  }

  /** Where head `k`'s span ends: at the next head, or at the end of the file. */
  function EndOf(heads: seq<HeadRec>, size: nat, k: nat): nat
    requires k < |heads|
  {
    if k + 1 < |heads| then heads[k + 1].la else size
  }

  /** Build the extent map. It covers the file exactly, extent by extent, each with the source its
      head calls for. */
  method BuildMap(s: Settings, heads: seq<HeadRec>) returns (r: Result<ZPlan, string>)
    requires s.blk > 0 && heads != [] && heads[0].la == 0 && HeadsGrow(heads, s.size)
    ensures r.Ok? ==> r.value.size == s.size && Covers(r.value.exts, 0, s.size) && |r.value.exts| == |heads|
    ensures r.Ok? ==> forall k :: 0 <= k < |heads| ==> ExtIs(s, heads, k, r.value.exts[k])
    ensures r.Ok? <==> forall k :: 0 <= k < |heads| ==> HeadFits(s, heads, k)
  {
    var exts: seq<Ext> := [];
    for k := 0 to |heads|
      invariant |exts| == k && Covers(exts, 0, if k < |heads| then heads[k].la else s.size)
      invariant forall j :: 0 <= j < k ==> ExtIs(s, heads, j, exts[j]) && HeadFits(s, heads, j)
    {
      var h, end := heads[k], EndOf(heads, s.size, k);
      if end <= h.la {
        assert !HeadFits(s, heads, k);
        return Err("empty pcluster");
      }
      var llen := end - h.la;
      if llen > MAX_LLEN {
        assert !HeadFits(s, heads, k);
        return Err("oversized pcluster span");
      }
      var src := SrcOf(s, h, llen, k + 1 == |heads|);
      if src.Err? {
        assert !HeadFits(s, heads, k);
        return Err(src.error);
      }
      CoversAppend(exts, 0, h.la, Ext(h.la, llen, src.value));
      exts := exts + [Ext(h.la, llen, src.value)];
    }
    return Ok(ZPlan(s.size, exts));
  }

  /** Head `k` has a span, not too long, and a source for it. */
  predicate HeadFits(s: Settings, heads: seq<HeadRec>, k: nat)
    requires k < |heads| && s.blk > 0
  {
    var llen := EndOf(heads, s.size, k) - heads[k].la;
    0 < llen <= MAX_LLEN && SrcOf(s, heads[k], llen, k + 1 == |heads|).Ok?
  }

  predicate ExtIs(s: Settings, heads: seq<HeadRec>, k: nat, e: Ext)
    requires k < |heads| && s.blk > 0
  {
    && e.la == heads[k].la && e.End() == EndOf(heads, s.size, k) && e.llen <= MAX_LLEN
    && SrcOf(s, heads[k], e.llen, k + 1 == |heads|) == Ok(e.src)
  }

  /** The whole build, after the index area is decoded; an empty file has no extents, and a file the
      header puts whole into the packed inode has one. On the indexes of a cluster list it succeeds
      exactly when the list fits the file, and its extents are the list's pclusters. */
  method BuildZPlan(s: Settings, wholePacked: Option<nat>, lcls: seq<Result<Lcl, string>>, ghost xs: seq<Cluster>, ghost lobits: nat)
    returns (r: Result<ZPlan, string>)
    requires s.blk > 0 && s.lclu > 0
    ensures r.Ok? && (wholePacked.None? || s.size > 0) ==> r.value.size == s.size && Covers(r.value.exts, 0, s.size)
    ensures wholePacked.Some? ==> r == Ok(ZPlan(s.size, [Ext(0, s.size, Packed(wholePacked.value))]))
    ensures wholePacked.None? && s.size == 0 ==> r == Ok(ZPlan(0, []))
    ensures wholePacked.None? && IndexesOf(s, xs, lobits, lcls) ==> (r.Ok? <==> ListFits(s, xs))
    ensures wholePacked.None? && IndexesOf(s, xs, lobits, lcls) && r.Ok? ==> r.value == ZPlan(s.size, Pclusters(s, xs))
  {
    hide IndexesOf, HeadsAre, HeadFits, ExtIs, FromIndex, ListFits, CanStart, Pclusters;
    if wholePacked.Some? {
      var e := Ext(0, s.size, Packed(wholePacked.value));
      assert s.size > 0 ==> Covers([e][1..], s.size, s.size);
      return Ok(ZPlan(s.size, [e]));
    }
    if s.size == 0 {
      NoEmptyList(s, xs, lobits, lcls);
      return Ok(ZPlan(0, []));
    }
    var heads := ScanHeads(s, lcls, xs, lobits);
    if heads.Err? {
      CannotStart(s, xs);
      return Err(heads.error);
    }
    r := BuildMap(s, heads.value);
    if IndexesOf(s, xs, lobits, lcls) {
      FitsAsListed(s, xs, lobits, lcls, heads.value);
      if r.Ok? {
        ExtentsAreListed(s, xs, lobits, lcls, heads.value, r.value.exts);
      }
    }
  }

  // ------------------------------------------------------------- on a well-formed cluster list

  /** The compact indexes say what the cluster list does, one lcluster for every `lclu` bytes of the
      file. */
  predicate IndexesOf(s: Settings, xs: seq<Cluster>, lobits: nat, lcls: seq<Result<Lcl, string>>) {
    && WellFormed(xs, s.big1, lobits) && s.lclu > 0 && s.big1 == s.big2 && !s.full
    && |lcls| == |xs| && (|xs| - 1) * s.lclu < s.size <= |xs| * s.lclu
    && forall k :: 0 <= k < |xs| ==> lcls[k] == Ok(Meaning(xs, k, s.big1))
  }

  /** Where the pcluster headed by lcluster `k` starts in the file. */
  function La(s: Settings, xs: seq<Cluster>, k: nat): nat
    requires k < |xs| && xs[k].Head?
  {
    k * s.lclu + xs[k].ofs
  }

  /** It has bytes of the file: a head at or past the end has none. */
  predicate Owns(s: Settings, xs: seq<Cluster>, k: nat) {
    k < |xs| && xs[k].Head? && La(s, xs, k) < s.size
  }

  /** Where it ends: at the next head, or with the file. */
  function SpanEnd(s: Settings, xs: seq<Cluster>, k: nat): nat
    requires k < |xs|
  {
    match NextHead(xs, k + 1, |xs|)
    case None => s.size
    case Some(j) => if La(s, xs, j) < s.size then La(s, xs, j) else s.size
  }

  predicate IsLast(s: Settings, xs: seq<Cluster>, k: nat)
    requires k < |xs|
  {
    match NextHead(xs, k + 1, |xs|) case None => true case Some(j) => La(s, xs, j) >= s.size
  }

  /** How a pcluster of the list is stored: plain ones as they are or rotated in place, the others under
      the algorithm the header names for their kind. */
  function ListedAlg(s: Settings, xs: seq<Cluster>, k: nat): Result<Alg, string>
    requires Owns(s, xs, k) && s.blk > 0
  {
    if xs[k].ty == LCL_PLAIN then Ok(if s.interlaced then Interlaced(La(s, xs, k) % s.blk) else Shifted)
    else AlgOf(if xs[k].ty == LCL_HEAD2 then s.algtype / 16 else s.algtype % 16)
  }

  /** The last pcluster of the file may be a tail in the packed inode or behind the indexes. */
  predicate IsTail(s: Settings, xs: seq<Cluster>, k: nat)
    requires k < |xs|
  {
    IsLast(s, xs, k) && (s.frag || s.inline)
  }

  /** A pcluster's span is not too long, its algorithm is known, and a stored one is within the limit
      and, if plain, holds its span. */
  predicate PclusterFits(s: Settings, xs: seq<Cluster>, k: nat)
    requires Owns(s, xs, k) && s.blk > 0
  {
    && SpanEnd(s, xs, k) - La(s, xs, k) <= MAX_LLEN && ListedAlg(s, xs, k).Ok?
    && (IsTail(s, xs, k) ||
        (xs[k].blocks * s.blk <= MAX_PLEN
         && (xs[k].ty == LCL_PLAIN ==> SpanEnd(s, xs, k) - La(s, xs, k) <= xs[k].blocks * s.blk)))
  }

  /** The first head is at the start of the file, and every head starts inside its lcluster. */
  predicate CanStart(s: Settings, xs: seq<Cluster>) {
    |xs| > 0 && xs[0].Head? && xs[0].ofs == 0 && OffsetsFit(s, xs, |xs|)
  }

  predicate OffsetsFit(s: Settings, xs: seq<Cluster>, upto: nat) {
    upto <= |xs| && forall k :: 0 <= k < upto && xs[k].Head? ==> xs[k].ofs < s.lclu
  }

  predicate ListFits(s: Settings, xs: seq<Cluster>)
    requires s.blk > 0
  {
    CanStart(s, xs) && forall k :: 0 <= k < |xs| && Owns(s, xs, k) ==> PclusterFits(s, xs, k)
  }

  /** A pcluster's extent: its own blocks under its own algorithm, the tail aside. */
  function Pcluster(s: Settings, xs: seq<Cluster>, k: nat): Ext
    requires Owns(s, xs, k) && s.blk > 0 && PclusterFits(s, xs, k) && La(s, xs, k) <= SpanEnd(s, xs, k)
  {
    Ext(La(s, xs, k), SpanEnd(s, xs, k) - La(s, xs, k),
        if IsTail(s, xs, k) && s.frag then Packed(s.fragoff)
        else if IsTail(s, xs, k) then Raw(s.areaEnd, s.idata, ListedAlg(s, xs, k).value)
        else Raw(xs[k].blk * s.blk, xs[k].blocks * s.blk, ListedAlg(s, xs, k).value))
  }

  /** The heads among the first `upto` lclusters that have bytes of the file. */
  function HeadsBelow(s: Settings, xs: seq<Cluster>, upto: nat): (r: seq<nat>)
    ensures forall i :: 0 <= i < |r| ==> Owns(s, xs, r[i]) && r[i] < upto
  {
    if upto == 0 then [] else HeadsBelow(s, xs, upto - 1) + if Owns(s, xs, upto - 1) then [upto - 1] else []
  }

  /** All of a list's extents, in order. */
  function Pclusters(s: Settings, xs: seq<Cluster>): (r: seq<Ext>)
    requires s.blk > 0 && ListFits(s, xs)
  {
    var hs := HeadsBelow(s, xs, |xs|);
    seq(|hs|, i requires 0 <= i < |hs| => SpansGo(s, xs, hs[i]); Pcluster(s, xs, hs[i]))
  }

  /** A span never ends before it starts. */
  lemma SpansGo(s: Settings, xs: seq<Cluster>, k: nat)
    requires CanStart(s, xs) && Owns(s, xs, k)
    ensures La(s, xs, k) < SpanEnd(s, xs, k) <= s.size
  {
    var next := NextHead(xs, k + 1, |xs|);
    if next.Some? {
      MoreIsMore(s.lclu, k + 1, next.value);
    }
  }

  predicate Ascending(hs: seq<nat>) {
    forall i, j :: 0 <= i < j < |hs| ==> hs[i] < hs[j]
  }

  lemma {:induction false} HeadsInOrder(s: Settings, xs: seq<Cluster>, upto: nat)
    ensures Ascending(HeadsBelow(s, xs, upto))
  {
    if upto > 0 {
      HeadsInOrder(s, xs, upto - 1);
      OrderKept(HeadsBelow(s, xs, upto - 1), upto - 1);
    }
  }

  lemma OrderKept(hs: seq<nat>, k: nat)
    requires Ascending(hs) && forall i :: 0 <= i < |hs| ==> hs[i] < k
    ensures Ascending(hs + [k])
  {
  }

  lemma {:induction false} HeadIsBelow(s: Settings, xs: seq<Cluster>, upto: nat, k: nat)
    requires Owns(s, xs, k) && k < upto
    ensures k in HeadsBelow(s, xs, upto)
  {
    if k < upto - 1 {
      HeadIsBelow(s, xs, upto - 1, k);
    }
  }

  /** The scan's heads are the listed ones. */
  predicate HeadsAre(heads: seq<HeadRec>, hs: seq<nat>) {
    |heads| == |hs| && forall i :: 0 <= i < |hs| ==> heads[i].lcn == hs[i]
  }

  /** On the indexes of a list, the scan has found the list's heads so far. */
  predicate Listed(s: Settings, xs: seq<Cluster>, lobits: nat, lcls: seq<Result<Lcl, string>>, heads: seq<HeadRec>, upto: nat) {
    IndexesOf(s, xs, lobits, lcls) ==> upto <= |xs| && HeadsAre(heads, HeadsBelow(s, xs, upto)) && OffsetsFit(s, xs, upto)
  }

  lemma NothingScanned(s: Settings, xs: seq<Cluster>, lobits: nat, lcls: seq<Result<Lcl, string>>)
    ensures Scanning(s, lcls, [], 0) && Listed(s, xs, lobits, lcls, [], 0)
  {
  }

  lemma NoneFails(s: Settings, xs: seq<Cluster>, lobits: nat, lcls: seq<Result<Lcl, string>>, lcn: nat)
    requires lcn < |lcls| && lcls[lcn].Err?
    ensures !IndexesOf(s, xs, lobits, lcls)
  {
  }

  lemma NonheadListed(s: Settings, xs: seq<Cluster>, lobits: nat, lcls: seq<Result<Lcl, string>>, lcn: nat, before: seq<HeadRec>, heads: seq<HeadRec>)
    requires IsNonhead(lcls, lcn) && |heads| == |before| && forall i :: 0 <= i < |heads| ==> heads[i].lcn == before[i].lcn
    requires Listed(s, xs, lobits, lcls, before, lcn)
    ensures Listed(s, xs, lobits, lcls, heads, lcn + 1)
  {
    if IndexesOf(s, xs, lobits, lcls) {
      assert ClusterOk(xs, lcn, s.big1, lobits);
    }
  }

  /** A head in the indexes is a head of the list, where the list has it. */
  lemma HeadIsListed(s: Settings, xs: seq<Cluster>, lobits: nat, lcls: seq<Result<Lcl, string>>, lcn: nat)
    requires IndexesOf(s, xs, lobits, lcls) && lcn < |lcls| && lcls[lcn].Ok? && lcls[lcn].value.ty != LCL_NONHEAD
    ensures lcn < |xs| && xs[lcn].Head? && lcls[lcn].value.clusterofs == xs[lcn].ofs
  {
    assert lcls[lcn] == Ok(Meaning(xs, lcn, s.big1));
  }

  lemma OffsetTooBig(s: Settings, xs: seq<Cluster>, lobits: nat, lcls: seq<Result<Lcl, string>>, lcn: nat)
    requires lcn < |lcls| && lcls[lcn].Ok? && lcls[lcn].value.ty != LCL_NONHEAD && lcls[lcn].value.clusterofs >= s.lclu
    ensures IndexesOf(s, xs, lobits, lcls) ==> !CanStart(s, xs)
  {
    if IndexesOf(s, xs, lobits, lcls) {
      HeadIsListed(s, xs, lobits, lcls, lcn);
    }
  }

  lemma HeadListed(s: Settings, xs: seq<Cluster>, lobits: nat, lcls: seq<Result<Lcl, string>>, lcn: nat, before: seq<HeadRec>, heads: seq<HeadRec>)
    requires lcn < |lcls| && lcls[lcn].Ok? && lcls[lcn].value.ty != LCL_NONHEAD && lcls[lcn].value.clusterofs < s.lclu
    requires lcn * s.lclu + lcls[lcn].value.clusterofs < s.size
    requires |heads| == |before| + 1 && heads[..|before|] == before && heads[|before|].lcn == lcn
    requires Listed(s, xs, lobits, lcls, before, lcn)
    ensures Listed(s, xs, lobits, lcls, heads, lcn + 1)
  {
    if IndexesOf(s, xs, lobits, lcls) {
      HeadIsListed(s, xs, lobits, lcls, lcn);
    }
  }

  /** Only the last lcluster can hold a head past the end, so the scan that stops there has seen them
      all. */
  lemma EndListed(s: Settings, xs: seq<Cluster>, lobits: nat, lcls: seq<Result<Lcl, string>>, heads: seq<HeadRec>, lcn: nat)
    requires lcn < |lcls| && lcls[lcn].Ok? && lcls[lcn].value.ty != LCL_NONHEAD && lcls[lcn].value.clusterofs < s.lclu
    requires lcn * s.lclu + lcls[lcn].value.clusterofs >= s.size
    requires Listed(s, xs, lobits, lcls, heads, lcn)
    ensures Listed(s, xs, lobits, lcls, heads, |lcls|)
  {
    if IndexesOf(s, xs, lobits, lcls) {
      HeadIsListed(s, xs, lobits, lcls, lcn);
      if lcn + 1 < |xs| {
        MoreIsMore(s.lclu, lcn + 1, |xs| - 1);
      }
    }
  }

  lemma {:induction false} FirstIsZero(s: Settings, xs: seq<Cluster>, upto: nat)
    requires upto > 0 && Owns(s, xs, 0)
    ensures HeadsBelow(s, xs, upto) != [] && HeadsBelow(s, xs, upto)[0] == 0
  {
    if upto > 1 {
      FirstIsZero(s, xs, upto - 1);
    } else {
      assert HeadsBelow(s, xs, 0) == [];
    }
  }

  /** The scan's first head is at the start of the file exactly when the list's is. */
  lemma FirstListed(s: Settings, xs: seq<Cluster>, lobits: nat, lcls: seq<Result<Lcl, string>>, heads: seq<HeadRec>)
    requires Scanning(s, lcls, heads, |lcls|) && Listed(s, xs, lobits, lcls, heads, |lcls|)
    ensures IndexesOf(s, xs, lobits, lcls) ==>
              HeadsAre(heads, HeadsBelow(s, xs, |xs|)) && ((heads != [] && heads[0].la == 0) <==> CanStart(s, xs))
  {
    hide HeadsBelow;
    if IndexesOf(s, xs, lobits, lcls) {
      if Owns(s, xs, 0) {
        FirstIsZero(s, xs, |xs|);
        assert ScannedTo(s, lcls, heads[0], |lcls|);
      } else if heads != [] {
        assert ScannedTo(s, lcls, heads[0], |lcls|);
        FirstIsLater(s, heads[0]);
      }
    }
  }

  lemma FirstIsLater(s: Settings, h: HeadRec)
    requires s.lclu > 0 && h.lcn > 0 && h.la >= h.lcn * s.lclu
    ensures h.la > 0
  {
    MoreIsMore(s.lclu, 1, h.lcn);
  }

  lemma NoEmptyList(s: Settings, xs: seq<Cluster>, lobits: nat, lcls: seq<Result<Lcl, string>>)
    requires s.size == 0
    ensures !IndexesOf(s, xs, lobits, lcls)
  {
  }

  lemma CannotStart(s: Settings, xs: seq<Cluster>)
    requires s.blk > 0
    ensures !CanStart(s, xs) ==> !ListFits(s, xs)
  {
  }

  /** A head's block count comes out as the cluster list has it. */
  lemma BlocksAreTrue(s: Settings, xs: seq<Cluster>, lobits: nat, lcls: seq<Result<Lcl, string>>, h: HeadRec)
    requires IndexesOf(s, xs, lobits, lcls) && FromIndex(s, lcls, h)
    ensures h.lcn < |xs| && xs[h.lcn].Head? && xs[h.lcn].ty == h.ty && xs[h.lcn].blk == h.pblk && h.la == La(s, xs, h.lcn)
    ensures BlocksOf(s, h) == Ok(xs[h.lcn].blocks)
  {
    assert ClusterOk(xs, h.lcn, s.big1, lobits);
    if h.lcn + 1 < |xs| {
      assert ClusterOk(xs, h.lcn + 1, s.big1, lobits);
      LastOnly(s, |xs|, h.lcn);
    }
  }

  lemma MoreIsMore(x: nat, a: nat, b: nat)
    requires a <= b
    ensures a * x <= b * x
  {
    assert b * x == a * x + (b - a) * x;
  }

  lemma LastOnly(s: Settings, n: nat, lcn: nat)
    requires lcn + 1 < n && (n - 1) * s.lclu < s.size
    ensures (lcn + 1) * s.lclu < s.size
  {
    MoreIsMore(s.lclu, lcn + 1, n - 1);
  }

  /** The next head after a listed one that owns bytes is the next listed one. */
  lemma NextIsListed(s: Settings, xs: seq<Cluster>, i: nat)
    requires CanStart(s, xs) && i < |HeadsBelow(s, xs, |xs|)| && s.size > 0 && (|xs| - 1) * s.lclu < s.size
    ensures var hs := HeadsBelow(s, xs, |xs|);
            if i + 1 < |hs| then NextHead(xs, hs[i] + 1, |xs|) == Some(hs[i + 1]) else IsLast(s, xs, hs[i])
  {
    hide HeadsBelow;
    var hs := HeadsBelow(s, xs, |xs|);
    HeadsInOrder(s, xs, |xs|);
    var next := NextHead(xs, hs[i] + 1, |xs|);
    if next.Some? && La(s, xs, next.value) < s.size {
      HeadIsBelow(s, xs, |xs|, next.value);
    } else if i + 1 < |hs| && next.Some? {
      SpanInside(s, xs, next.value, hs[i + 1]);
    }
  }

  lemma SpanInside(s: Settings, xs: seq<Cluster>, j: nat, k: nat)
    requires CanStart(s, xs) && j < k < |xs| && xs[j].Head? && (|xs| - 1) * s.lclu < s.size
    ensures La(s, xs, j) < s.size
  {
    MoreIsMore(s.lclu, j + 1, |xs| - 1);
  }

  /** A listed head has the list's span. */
  lemma SpanIsListed(s: Settings, xs: seq<Cluster>, lobits: nat, lcls: seq<Result<Lcl, string>>, heads: seq<HeadRec>, i: nat)
    requires IndexesOf(s, xs, lobits, lcls) && CanStart(s, xs) && HeadsAre(heads, HeadsBelow(s, xs, |xs|)) && i < |heads|
    requires forall k :: 0 <= k < |heads| ==> FromIndex(s, lcls, heads[k])
    ensures var k := heads[i].lcn;
            Owns(s, xs, k) && heads[i].la == La(s, xs, k) < SpanEnd(s, xs, k) == EndOf(heads, s.size, i)
            && (i + 1 == |heads| <==> IsLast(s, xs, k))
  {
    hide HeadsBelow, FromIndex, BlocksOf;
    NextIsListed(s, xs, i);
    BlocksAreTrue(s, xs, lobits, lcls, heads[i]);
    SpansGo(s, xs, heads[i].lcn);
    if i + 1 < |heads| {
      BlocksAreTrue(s, xs, lobits, lcls, heads[i + 1]);
    }
  }

  /** Head `i` fits exactly when its pcluster does, and its extent is the pcluster's. */
  lemma HeadIsPcluster(s: Settings, xs: seq<Cluster>, lobits: nat, lcls: seq<Result<Lcl, string>>, heads: seq<HeadRec>, i: nat)
    requires IndexesOf(s, xs, lobits, lcls) && CanStart(s, xs) && HeadsAre(heads, HeadsBelow(s, xs, |xs|)) && i < |heads| && s.blk > 0
    requires forall k :: 0 <= k < |heads| ==> FromIndex(s, lcls, heads[k])
    ensures var k := heads[i].lcn;
            Owns(s, xs, k) && La(s, xs, k) < SpanEnd(s, xs, k) && (HeadFits(s, heads, i) <==> PclusterFits(s, xs, k))
            && forall e :: ExtIs(s, heads, i, e) && PclusterFits(s, xs, k) ==> e == Pcluster(s, xs, k)
  {
    hide HeadsBelow, FromIndex, BlocksOf, IsLast, SpanEnd, HeadsAre, La, CanStart;
    SpanIsListed(s, xs, lobits, lcls, heads, i);
    BlocksAreTrue(s, xs, lobits, lcls, heads[i]);
    TypeOk(s, xs, lobits, lcls, heads[i].lcn);
  }

  lemma TypeOk(s: Settings, xs: seq<Cluster>, lobits: nat, lcls: seq<Result<Lcl, string>>, k: nat)
    requires IndexesOf(s, xs, lobits, lcls) && k < |xs| && xs[k].Head?
    ensures xs[k].ty in {LCL_PLAIN, LCL_HEAD1, LCL_HEAD2} && xs[k].blocks > 0 && !s.full
  {
    assert ClusterOk(xs, k, s.big1, lobits);
  }

  lemma FitsAsListed(s: Settings, xs: seq<Cluster>, lobits: nat, lcls: seq<Result<Lcl, string>>, heads: seq<HeadRec>)
    requires IndexesOf(s, xs, lobits, lcls) && CanStart(s, xs) && HeadsAre(heads, HeadsBelow(s, xs, |xs|)) && s.blk > 0
    requires forall k :: 0 <= k < |heads| ==> FromIndex(s, lcls, heads[k])
    ensures (forall i :: 0 <= i < |heads| ==> HeadFits(s, heads, i)) <==> ListFits(s, xs)
  {
    hide HeadsBelow, FromIndex, HeadFits, PclusterFits, IndexesOf, CanStart, ExtIs, Pcluster, La, SpanEnd;
    forall i | 0 <= i < |heads|
      ensures Owns(s, xs, heads[i].lcn) && (HeadFits(s, heads, i) <==> PclusterFits(s, xs, heads[i].lcn))
    {
      HeadIsPcluster(s, xs, lobits, lcls, heads, i);
    }
    forall k | Owns(s, xs, k)
      ensures exists i :: 0 <= i < |heads| && heads[i].lcn == k
    {
      HeadIsBelow(s, xs, |xs|, k);
      var i :| 0 <= i < |heads| && HeadsBelow(s, xs, |xs|)[i] == k;
      assert heads[i].lcn == k;
    }
  }

  lemma ExtentsAreListed(s: Settings, xs: seq<Cluster>, lobits: nat, lcls: seq<Result<Lcl, string>>, heads: seq<HeadRec>, exts: seq<Ext>)
    requires IndexesOf(s, xs, lobits, lcls) && s.blk > 0 && ListFits(s, xs) && HeadsAre(heads, HeadsBelow(s, xs, |xs|))
    requires forall k :: 0 <= k < |heads| ==> FromIndex(s, lcls, heads[k])
    requires |exts| == |heads| && forall k :: 0 <= k < |heads| ==> ExtIs(s, heads, k, exts[k])
    ensures exts == Pclusters(s, xs)
  {
    hide HeadsBelow, FromIndex, PclusterFits, IndexesOf, CanStart, ExtIs, Pcluster, La, SpanEnd, HeadFits;
    forall i | 0 <= i < |exts|
      ensures exts[i] == Pclusters(s, xs)[i]
    {
      HeadIsPcluster(s, xs, lobits, lcls, heads, i);
    }
  }

  // ------------------------------------------------------------- chunked files

  /** Chunk-based inodes: one extent a chunk, the last one short; a null chunk is a hole. */
  function ChunkExt(size: nat, chunk: nat, starts: seq<Option<nat>>, c: nat): Ext
    requires c < |starts| && c * chunk <= size
  {
    var llen := if chunk < size - c * chunk then chunk else size - c * chunk;
    Ext(c * chunk, llen, match starts[c] case Some(pa) => Raw(pa, llen, Shifted) case None => Zero)
  }

  /** The chunk table tiles the file, whatever is a hole. */
  method PlanChunked(size: nat, chunk: nat, starts: seq<Option<nat>>) returns (exts: seq<Ext>)
    requires chunk > 0 && |starts| * chunk >= size && (|starts| > 0 ==> (|starts| - 1) * chunk < size)
    ensures Covers(exts, 0, size) && |exts| == |starts|
    ensures forall c :: 0 <= c < |starts| ==> c * chunk <= size && exts[c] == ChunkExt(size, chunk, starts, c)
  {
    exts := [];
    for c := 0 to |starts|
      invariant |exts| == c && Covers(exts, 0, if c * chunk < size then c * chunk else size)
      invariant forall j :: 0 <= j < c ==> j * chunk <= size && exts[j] == ChunkExt(size, chunk, starts, j)
    {
      ChunkInside(size, chunk, |starts|, c);
      var e := ChunkExt(size, chunk, starts, c);
      CoversAppend(exts, 0, c * chunk, e);
      exts := exts + [e];
    }
  }

  lemma ChunkInside(size: nat, chunk: nat, n: nat, c: nat)
    requires chunk > 0 && c < n && (n - 1) * chunk < size
    ensures c * chunk < size && (c + 1) * chunk == c * chunk + chunk
  {
    MoreIsMore(chunk, c, n - 1);
  }
}
