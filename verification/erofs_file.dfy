/**
 A compressed file end to end: its packed indexes are looked up one by one, the map is built from
 them, and a reader drained with buffers of any sizes gives back the file the image holds.
 */
module ErofsFile {
  import opened Wrappers
  import opened ByteStrings
  import opened ErofsIndex
  import opened ErofsLayout
  import opened ErofsMap
  import opened ErofsRaw
  import opened ErofsReader

  /** A decompressor: the format, the stored bytes, and how many bytes they stand for. */
  type Inflate = (Alg, Bytes, nat) -> Option<Bytes>

  /** Fetch and decode one pcluster of the image: raw arms here, compressed ones by `inflate`. */
  function DecodeRaw(image: Bytes, blk: nat, inflate: Inflate, e: Ext): Option<Bytes> {
    if !e.src.Raw? || e.src.plen > MAX_PLEN || e.llen > MAX_LLEN || e.src.pa + e.src.plen > |image| then None
    else
      var stored := Cut(image, e.src.pa, e.src.plen);
      match e.src.alg
      case Shifted => DecodeShifted(stored, e.llen)
      case Interlaced(skip) => if e.src.plen > blk then None else DecodeInterlaced(stored, skip, e.llen)
      case _ => inflate(e.src.alg, stored, e.llen)
  }

  // ------------------------------------------------------------- what an image holds

  /** The image stores `want` as pcluster `e`: plainly from the start of its blocks, rotated around the
      end of its one block, or as something that inflates to it. */
  predicate Stored(image: Bytes, blk: nat, inflate: Inflate, e: Ext, want: Bytes)
    requires e.src.Raw?
  {
    var pa, plen := e.src.pa, e.src.plen;
    && plen <= MAX_PLEN && |want| == e.llen <= MAX_LLEN && pa + plen <= |image|
    && match e.src.alg
       case Shifted => e.llen <= plen && forall k :: 0 <= k < e.llen ==> want[k] == image[pa + k]
       case Interlaced(skip) =>
         && 0 < plen <= blk && e.llen <= plen
         && forall k :: 0 <= k < e.llen ==> want[k] == image[pa + Around(skip % plen + k, plen)]
       case _ => inflate(e.src.alg, Cut(image, pa, plen), e.llen) == Some(want)
  }

  function Around(at: nat, n: nat): (r: nat)
    requires at < 2 * n
    ensures r < n
  {
    if at < n then at else at - n
  }

  /** What is stored decodes to what was stored. */
  lemma StoredDecodes(image: Bytes, blk: nat, inflate: Inflate, e: Ext, want: Bytes)
    requires e.src.Raw? && Stored(image, blk, inflate, e, want)
    ensures DecodeRaw(image, blk, inflate, e) == Some(want)
  {
    var stored := Cut(image, e.src.pa, e.src.plen);
    match e.src.alg {
      case Shifted =>
        assert stored[..e.llen] == want;
      case Interlaced(skip) =>
        RotatedDecodes(stored, skip, want);
      case _ =>
    }
  }

  lemma RotatedDecodes(stored: Bytes, skip: nat, want: Bytes)
    requires stored != [] && |want| <= |stored|
    requires forall k :: 0 <= k < |want| ==> want[k] == stored[Around(skip % |stored| + k, |stored|)]
    ensures DecodeInterlaced(stored, skip, |want|) == Some(want)
  {
    hide DecodeInterlaced;
    InterlacedSize(stored, skip, |want|);
    var got := DecodeInterlaced(stored, skip, |want|).value;
    forall k | 0 <= k < |want|
      ensures got[k] == want[k]
    {
      InterlacedReads(stored, skip, |want|, k);
    }
    assert got == want;
  }

  lemma InterlacedSize(stored: Bytes, skip: nat, llen: nat)
    requires stored != [] && llen <= |stored|
    ensures DecodeInterlaced(stored, skip, llen).Some? && |DecodeInterlaced(stored, skip, llen).value| == llen
  {
  }

  /** A list's file, pcluster by pcluster: a packed tail is a range of the packed stream, anything else
      is stored in the image. */
  predicate ImageHolds(image: Bytes, stream: Bytes, inflate: Inflate, s: Settings, xs: seq<Cluster>, file: Bytes)
    requires s.blk > 0 && ListFits(s, xs)
  {
    |file| == s.size && forall i :: 0 <= i < |Pclusters(s, xs)| ==> ExtHolds(image, stream, inflate, s.blk, Pclusters(s, xs)[i], file)
  }

  predicate ExtHolds(image: Bytes, stream: Bytes, inflate: Inflate, blk: nat, e: Ext, file: Bytes) {
    e.End() <= |file| &&
    match e.src
    case Packed(off) => off + e.llen <= |stream| && Cut(stream, off, e.llen) == Cut(file, e.la, e.llen)
    case Raw(_, _, _) => Stored(image, blk, inflate, e, Cut(file, e.la, e.llen))
    case Zero => Cut(file, e.la, e.llen) == Zeros(e.llen)
  }

  function DecoderOf(image: Bytes, blk: nat, inflate: Inflate): Decoder {
    (e: Ext) => DecodeRaw(image, blk, inflate, e)
  }

  lemma ExtReadsBack(image: Bytes, stream: Bytes, inflate: Inflate, blk: nat, e: Ext, file: Bytes)
    requires ExtHolds(image, stream, inflate, blk, e, file)
    ensures e.End() <= |file| && ExtBytes(DecoderOf(image, blk, inflate), stream, e) == Some(Cut(file, e.la, e.llen))
  {
    hide Stored, DecodeRaw;
    if e.src.Raw? {
      StoredDecodes(image, blk, inflate, e, Cut(file, e.la, e.llen));
    }
  }

  /** Extents that follow each other and each decode to their place in the file decode to the file. */
  lemma {:induction false} PiecesAreFile(decode: Decoder, stream: Bytes, exts: seq<Ext>, pos: nat, file: Bytes)
    requires Covers(exts, pos, |file|)
    requires forall i :: 0 <= i < |exts| ==> exts[i].End() <= |file| && ExtBytes(decode, stream, exts[i]) == Some(Cut(file, exts[i].la, exts[i].llen))
    ensures pos <= |file| && FileBytes(decode, stream, exts) == Some(file[pos..])
  {
    hide ExtBytes;
    if exts != [] {
      var e := exts[0];
      assert ExtBytes(decode, stream, e) == Some(Cut(file, e.la, e.llen));
      PiecesAreFile(decode, stream, exts[1..], e.End(), file);
      assert file[pos..] == Cut(file, pos, e.llen) + file[e.End()..];
    }
  }

  lemma HeldIsRead(image: Bytes, stream: Bytes, inflate: Inflate, s: Settings, xs: seq<Cluster>, file: Bytes)
    requires s.blk > 0 && ListFits(s, xs) && ImageHolds(image, stream, inflate, s, xs, file) && Covers(Pclusters(s, xs), 0, s.size)
    ensures FileBytes(DecoderOf(image, s.blk, inflate), stream, Pclusters(s, xs)) == Some(file) && |file| == s.size
  {
    hide ExtBytes, ExtHolds, Pclusters, ListFits, Covers, FileBytes, DecoderOf;
    var exts, decode := Pclusters(s, xs), DecoderOf(image, s.blk, inflate);
    forall i | 0 <= i < |exts|
      ensures exts[i].End() <= |file| && ExtBytes(decode, stream, exts[i]) == Some(Cut(file, exts[i].la, exts[i].llen))
    {
      ExtReadsBack(image, stream, inflate, s.blk, exts[i], file);
    }
    PiecesAreFile(decode, stream, exts, 0, file);
    assert file[0..] == file;
  }

  // ------------------------------------------------------------- reading it

  /** The index area is this list, packed: as many lclusters as the file takes, with room for all their
      fields. */
  predicate PackedAs(s: Settings, a: Area, lclusterbits: nat, buf: Bytes, xs: seq<Cluster>, ahead: nat)
    requires Laid(a)
  {
    && Roomy(a, lclusterbits) && WellFormed(xs, s.big1, LoBits(lclusterbits)) && s.big1 == s.big2 && !s.full && s.lclu > 0
    && |xs| == a.totalidx && (|xs| - 1) * s.lclu < s.size <= |xs| * s.lclu
    && buf == EncodeArea(xs, a, LoBits(lclusterbits), s.big1, ahead)
  }

  /** The index area of the file: as many indexes as it has blocks, from `ebase`, right after an 8-aligned
      header, with narrow packs where the inode advises them. */
  function IndexArea(s: Settings, ebase: nat, narrow: bool): (a: Area)
    requires s.size > 0 && s.blk > 0 && ebase % 8 == 0
    ensures Laid(a) && s.size <= a.totalidx * s.blk < s.size + s.blk && LaidFor(a, ebase, a.totalidx, narrow)
  {
    AreasAreLaid(ebase, Blocks(s.size, s.blk), narrow);
    AreaOf(ebase, Blocks(s.size, s.blk), narrow)
  }

  function Blocks(size: nat, blk: nat): (n: nat)
    requires size > 0 && blk > 0
    ensures n > 0 && size <= n * blk < size + blk
  {
    (size + blk - 1) / blk
  }

  /** Every lookup of the area, in order. */
  method LoadIndexes(s: Settings, a: Area, lclusterbits: nat, buf: Bytes, ghost xs: seq<Cluster>, ghost ahead: nat)
    returns (lcls: seq<Result<Lcl, string>>)
    requires Laid(a) && |buf| == AreaEnd(a) - a.ebase && PackedAs(s, a, lclusterbits, buf, xs, ahead)
    ensures IndexesOf(s, xs, LoBits(lclusterbits), lcls) && s.lclu > 0
  {
    hide Laid, EncodeArea, WellFormed, Meaning, Lookup;
    lcls := [];
    for lcn := 0 to a.totalidx
      invariant |lcls| == lcn && forall k :: 0 <= k < lcn ==> lcls[k] == Ok(Meaning(xs, k, s.big1))
    {
      var l := GetCompact(buf, a, lclusterbits, lcn, s.big1, xs, ahead);
      lcls := lcls + [l];
    }
  }

  /** Read a compressed file whole, `wants` sizing the buffers. A file whose indexes are a packed
      cluster list is read exactly when the list fits it, and what is read is the file the image
      holds; an empty file has no indexes and nothing to read. */
  method ReadFile(s: Settings, ebase: nat, narrow: bool, lclusterbits: nat, buf: Bytes, image: Bytes, inflate: Inflate, packed: PackedCache, wants: nat -> nat,
                  ghost xs: seq<Cluster>, ghost ahead: nat, ghost stream: Bytes, ghost file: Bytes)
    returns (r: Result<Bytes, string>)
    requires s.blk > 0 && ebase % 8 == 0
    requires s.size > 0 ==> |buf| == AreaEnd(IndexArea(s, ebase, narrow)) - ebase && PackedAs(s, IndexArea(s, ebase, narrow), lclusterbits, buf, xs, ahead)
    requires packed.Valid() && FileBytes(packed.decode, [], packed.exts) == Some(stream) && packed.size == |stream|
    requires s.size > 0 && ListFits(s, xs) ==> ImageHolds(image, stream, inflate, s, xs, file)
    requires forall k: nat :: wants(k) > 0
    modifies packed
    ensures r.Ok? <==> s.size == 0 || ListFits(s, xs)
    ensures r.Ok? ==> r.value == if s.size == 0 then [] else file
  {
    hide PackedAs, IndexesOf, ListFits, Pclusters, Laid, PackedCache.Valid, FileBytes, Covers, DecoderOf, AreaEnd;
    if s.size == 0 {
      return Ok([]);
    }
    var a := IndexArea(s, ebase, narrow);
    var lcls := LoadIndexes(s, a, lclusterbits, buf, xs, ahead);
    var plan := BuildZPlan(s, None, lcls, xs, LoBits(lclusterbits));
    if plan.Err? {
      return Err(plan.error);
    }
    HeldIsRead(image, stream, inflate, s, xs, file);
    var z := new ZReader(plan.value, DecoderOf(image, s.blk, inflate), packed);
    var out := Drain(z, wants, file, stream);
    return Ok(out);
  }
}
