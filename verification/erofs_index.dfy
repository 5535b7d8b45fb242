/**
 Compact lcluster indexes: how a run of heads and nonheads is packed, and the decoder that finds a
 head's block address by walking back through its pack.
 */
module ErofsIndex {
  import opened Wrappers
  import opened ByteStrings
  import opened BitFields

  const LCL_PLAIN: nat := 0
  const LCL_HEAD1: nat := 1
  const LCL_NONHEAD: nat := 2
  const LCL_HEAD2: nat := 3
  const CBLKCNT: nat := 0x800

  // ------------------------------------------------------------- the abstract cluster list

  /** One lcluster: the head of a pcluster of `blocks` blocks at `blk`, or the `dist`-th lcluster
      after its head. */
  datatype Cluster = Head(ty: nat, ofs: nat, blk: nat, blocks: nat) | Nonhead(dist: nat)

  /** The head lcluster `k` belongs to. */
  function HeadOf(xs: seq<Cluster>, k: nat): int
    requires k < |xs|
  {
    if xs[k].Head? then k else k - xs[k].dist
  }

  /** A run of lclusters as mkfs lays it out: it starts with a head, nonheads count their distance
      from it, pclusters follow each other block by block, and one that is bigger than a block (in
      a big-pcluster file) has a nonhead to say so. */
  predicate WellFormed(xs: seq<Cluster>, big: bool, lobits: nat) {
    && |xs| > 0 && xs[0].Head?
    && (forall k :: 0 <= k < |xs| ==> ClusterOk(xs, k, big, lobits))
  }

  predicate ClusterOk(xs: seq<Cluster>, k: nat, big: bool, lobits: nat)
    requires k < |xs|
  {
    match xs[k]
    case Head(ty, ofs, blk, blocks) =>
      && ty in {LCL_PLAIN, LCL_HEAD1, LCL_HEAD2} && ofs < Pow2(lobits) && 0 < blk < 0x1_0000_0000
      && 0 < blocks < CBLKCNT && (!big ==> blocks == 1)
      && (k + 1 == |xs| || xs[k + 1].Head? ==> blocks == 1)
      && (k > 0 ==> var h := HeadOf(xs, k - 1); 0 <= h && xs[h].Head? && blk == xs[h].blk + xs[h].blocks)
    case Nonhead(dist) =>
      k > 0 && (if xs[k - 1].Head? then dist == 1 else dist == xs[k - 1].dist + 1)
  }

  lemma {:induction false} HeadIsHead(xs: seq<Cluster>, k: nat, big: bool, lobits: nat)
    requires WellFormed(xs, big, lobits) && k < |xs|
    ensures 0 <= HeadOf(xs, k) <= k && xs[HeadOf(xs, k)].Head?
    ensures forall j :: HeadOf(xs, k) < j <= k ==> xs[j].Nonhead? && xs[j].dist == j - HeadOf(xs, k)
  {
    assert ClusterOk(xs, k, big, lobits);
    if xs[k].Nonhead? {
      HeadIsHead(xs, k - 1, big, lobits);
    }
  }

  /** What the decoder reports for an lcluster. */
  datatype Lcl = Lcl(ty: nat, clusterofs: nat, blkaddr: nat, cblkcnt: Option<nat>)

  /** What it should report: a head as it is, and the block count where the format records one. */
  function Meaning(xs: seq<Cluster>, k: nat, big: bool): Lcl
    requires k < |xs|
  {
    match xs[k]
    case Head(ty, ofs, blk, _) => Lcl(ty, ofs, blk, None)
    case Nonhead(dist) =>
      Lcl(LCL_NONHEAD, 0, 0, if big && dist == 1 && 0 < k && xs[k - 1].Head? then Some(xs[k - 1].blocks) else None)
  }

  // ------------------------------------------------------------- packing

  /** A pack: `vcnt` entries of `bits` bits each, then the base block address. */
  datatype Shape = Shape(vcnt: nat, bits: nat)

  const WIDE: Shape := Shape(2, 16)
  const NARROW: Shape := Shape(16, 14)

  function PackBytes(s: Shape): nat {
    (s.vcnt * s.bits + 32) / 8
  }

  /** The low field of lcluster `k`, entry `p` of its pack: a head's offset, the block count of a big
      pcluster right after its head, and otherwise the distance back (the last entry of a pack
      holds the distance forward, `ahead`, which no decoder here looks at). */
  function LoField(xs: seq<Cluster>, k: nat, p: nat, s: Shape, big: bool, ahead: nat): nat
    requires k < |xs|
  {
    match xs[k]
    case Head(_, ofs, _, _) => ofs
    case Nonhead(dist) =>
      if big && dist == 1 && 0 < k && xs[k - 1].Head? then CBLKCNT + xs[k - 1].blocks
      else if p + 1 == s.vcnt then Capped(ahead)
      else Capped(dist)
  }

  function Capped(d: nat): (r: nat)
    ensures r < CBLKCNT && (d < CBLKCNT ==> r == d)
  {
    if d < CBLKCNT then d else CBLKCNT - 1
  }

  function TyField(c: Cluster): nat {
    if c.Head? then c.ty else LCL_NONHEAD
  }

  /** Entry `p` of the pack whose first lcluster is `start`; past the end of the file a nonhead. */
  function EntryBits(xs: seq<Cluster>, start: nat, p: nat, s: Shape, lobits: nat, big: bool, ahead: nat): seq<bool>
    requires s.bits >= lobits + 2
  {
    (if start + p < |xs|
     then Bits(LoField(xs, start + p, p, s, big, ahead), lobits) + Bits(TyField(xs[start + p]), 2)
     else Bits(0, lobits) + Bits(LCL_NONHEAD, 2))
    + Bits(0, s.bits - lobits - 2)
  }

  function EntriesBits(xs: seq<Cluster>, start: nat, n: nat, s: Shape, lobits: nat, big: bool, ahead: nat): (r: seq<bool>)
    requires s.bits >= lobits + 2
    ensures |r| == n * s.bits
  {
    if n == 0 then []
    else
      assert n * s.bits == (n - 1) * s.bits + s.bits;
      EntriesBits(xs, start, n - 1, s, lobits, big, ahead) + EntryBits(xs, start, n - 1, s, lobits, big, ahead)
  }

  /** The first head at or after `k`, below `end`. */
  function NextHead(xs: seq<Cluster>, k: nat, end: nat): (r: Option<nat>)
    ensures r.Some? ==> k <= r.value < end && r.value < |xs| && xs[r.value].Head?
    ensures r.Some? ==> forall j :: k <= j < r.value ==> xs[j].Nonhead?
    ensures r.None? ==> forall j :: k <= j < end && j < |xs| ==> xs[j].Nonhead?
    decreases end - k
  {
    if k >= end || k >= |xs| then None else if xs[k].Head? then Some(k) else NextHead(xs, k + 1, end)
  }

  /** The base address of the pack at `start`: what the decoder's count for the first head there has
      to be added to. */
  function PackBase(xs: seq<Cluster>, start: nat, s: Shape, big: bool): int {
    match NextHead(xs, start, start + s.vcnt)
    case None => 0
    case Some(h) => if big then xs[h].blk - CarriedIn(xs, start) else xs[h].blk - 1
  }

  /** The block count a pack's first entry brings in from a pcluster whose head is in the pack
      before. */
  function CarriedIn(xs: seq<Cluster>, start: nat): nat {
    if 0 < start < |xs| && xs[start].Nonhead? && xs[start].dist == 1 && xs[start - 1].Head? then xs[start - 1].blocks else 0
  }

  function PackOf(xs: seq<Cluster>, start: nat, s: Shape, lobits: nat, big: bool, ahead: nat): (r: Bytes)
    requires s == WIDE || s == NARROW
    requires s.bits >= lobits + 2
    ensures |r| == PackBytes(s)
  {
    var base := PackBase(xs, start, s, big);
    ToBytes(EntriesBits(xs, start, s.vcnt, s, lobits, big, ahead) + Bits(if base >= 0 then base else 0, 32))
  }

  // ------------------------------------------------------------- reading one entry back

  lemma {:induction false} EntryStarts(xs: seq<Cluster>, start: nat, n: nat, s: Shape, lobits: nat, big: bool, ahead: nat, p: nat)
    requires s.bits >= lobits + 2 && p < n
    ensures p * s.bits + s.bits <= n * s.bits
    ensures EntriesBits(xs, start, n, s, lobits, big, ahead)[p * s.bits..p * s.bits + s.bits] == EntryBits(xs, start, p, s, lobits, big, ahead)
  {
    hide EntryBits, Bits;
    assert n * s.bits == (n - 1) * s.bits + s.bits;
    if p < n - 1 {
      EntryStarts(xs, start, n - 1, s, lobits, big, ahead, p);
      var front := EntriesBits(xs, start, n - 1, s, lobits, big, ahead);
      assert (front + EntryBits(xs, start, n - 1, s, lobits, big, ahead))[p * s.bits..p * s.bits + s.bits] == front[p * s.bits..p * s.bits + s.bits];
    }
  }

  /** The decoder's `entry` closure. */
  function EntryLo(pack: Bytes, s: Shape, lobits: nat, p: nat): nat
    requires p * s.bits / 8 + 4 <= |pack|
  {
    FieldAt(pack, p * s.bits, lobits)
  }

  function EntryTy(pack: Bytes, s: Shape, lobits: nat, p: nat): nat
    requires p * s.bits / 8 + 4 <= |pack|
  {
    TopOfField(pack, p * s.bits, lobits)
  }

  /** What the decoder takes on: either shape, with up to fourteen bits of offset. */
  predicate Accepted(s: Shape, lobits: nat) {
    (s == WIDE || s == NARROW) && 12 <= lobits <= 14
  }

  /** Where an entry has room for its offset and its type. */
  predicate Standard(s: Shape, lobits: nat) {
    Accepted(s, lobits) && s.bits >= lobits + 2
  }

  lemma EntryInside(s: Shape, lobits: nat, p: nat)
    requires Accepted(s, lobits) && p < s.vcnt
    ensures p * s.bits + 32 <= s.vcnt * s.bits + 32
    ensures p * s.bits / 8 + 4 <= PackBytes(s)
  {
  }

  /** Every entry reads back as the field it was packed from. */
  lemma EntryReadsBack(xs: seq<Cluster>, start: nat, s: Shape, lobits: nat, big: bool, ahead: nat, p: nat)
    requires WellFormed(xs, big, lobits) && Standard(s, lobits) && p < s.vcnt && start + p < |xs|
    ensures s.bits >= lobits + 2 && p * s.bits / 8 + 4 <= PackBytes(s)
    ensures var pack := PackOf(xs, start, s, lobits, big, ahead);
            EntryLo(pack, s, lobits, p) == LoField(xs, start + p, p, s, big, ahead)
            && EntryTy(pack, s, lobits, p) == TyField(xs[start + p])
  {
    hide Bits, Nat, EntriesBits, EntryBits, LoField, WellFormed, ToBytes, PackBase, FieldAt, TopOfField;
    EntryInside(s, lobits, p);
    var base := PackBase(xs, start, s, big);
    var entries := EntriesBits(xs, start, s.vcnt, s, lobits, big, ahead);
    var bits := entries + Bits(if base >= 0 then base else 0, 32);
    var at := p * s.bits;
    EntryStarts(xs, start, s.vcnt, s, lobits, big, ahead, p);
    var e := EntryBits(xs, start, p, s, lobits, big, ahead);
    assert bits[at..at + s.bits] == e;
    FieldsSplit(bits, at, s.bits, lobits, e);
    EntryFields(xs, start, p, s, lobits, big, ahead);
    FieldIsBits(bits, at, lobits);
    TopIsBits(bits, at, lobits);
    FieldsFit(xs, start + p, p, s, lobits, big, ahead);
    NatOfBits(LoField(xs, start + p, p, s, big, ahead), lobits);
    NatOfBits(TyField(xs[start + p]), 2);
  }

  lemma FieldsSplit(bits: seq<bool>, at: nat, n: nat, lobits: nat, e: seq<bool>)
    requires at + n <= |bits| && bits[at..at + n] == e && lobits + 2 <= n
    ensures bits[at..at + lobits] == e[..lobits] && bits[at + lobits..at + lobits + 2] == e[lobits..lobits + 2]
  {
    SubSlice(bits, at, n, 0, lobits);
    SubSlice(bits, at, n, lobits, lobits + 2);
  }

  lemma SubSlice<T>(s: seq<T>, at: nat, n: nat, a: nat, b: nat)
    requires at + n <= |s| && a <= b <= n
    ensures s[at..at + n][a..b] == s[at + a..at + b]
  {
    var inner, outer := s[at..at + n][a..b], s[at + a..at + b];
    assert |inner| == |outer|;
    forall k | 0 <= k < |inner|
      ensures inner[k] == outer[k]
    {
      assert inner[k] == s[at..at + n][a + k];
    }
  }

  lemma EntryFields(xs: seq<Cluster>, start: nat, p: nat, s: Shape, lobits: nat, big: bool, ahead: nat)
    requires s.bits >= lobits + 2 && start + p < |xs|
    ensures var e := EntryBits(xs, start, p, s, lobits, big, ahead);
            e[..lobits] == Bits(LoField(xs, start + p, p, s, big, ahead), lobits)
            && e[lobits..lobits + 2] == Bits(TyField(xs[start + p]), 2)
  {
  }

  lemma FieldsFit(xs: seq<Cluster>, k: nat, p: nat, s: Shape, lobits: nat, big: bool, ahead: nat)
    requires WellFormed(xs, big, lobits) && k < |xs| && lobits >= 12
    ensures LoField(xs, k, p, s, big, ahead) < Pow2(lobits) && TyField(xs[k]) < Pow2(2)
  {
    assert ClusterOk(xs, k, big, lobits);
    PowersOfTwo();
    PowGrows(12, lobits);
    if xs[k].Nonhead? && 0 < k && xs[k - 1].Head? {
      assert ClusterOk(xs, k - 1, big, lobits);
    }
  }

  lemma {:induction false} PowGrows(a: nat, b: nat)
    requires a <= b
    ensures Pow2(a) <= Pow2(b)
  {
    if a < b {
      PowGrows(a, b - 1);
    }
  }

  // ------------------------------------------------------------- walking back through a pack

  /** `pack` holds the lclusters from `start` on. */
  predicate Holds(pack: Bytes, xs: seq<Cluster>, start: nat, s: Shape, lobits: nat, big: bool, ahead: nat) {
    && WellFormed(xs, big, lobits) && Standard(s, lobits)
    && s.bits >= lobits + 2
    && pack == PackOf(xs, start, s, lobits, big, ahead)
  }

  /** The walk stands before entry `j`, `h` being the head it last reached: the blocks of the
      pclusters from `h` up to head `i` are counted. */
  predicate Walked(xs: seq<Cluster>, start: nat, i: nat, j: int, h: nat, count: int) {
    && start <= h <= start + i < |xs| && xs[h].Head? && xs[start + i].Head?
    && j <= h - start
    && (forall k :: start <= k < h && j <= k - start ==> xs[k].Nonhead?)
    && xs[start + i].blk == xs[h].blk + count
  }

  /** Ordinary pclusters: every step lands on a head or leaves the pack. */
  predicate WalkedSmall(xs: seq<Cluster>, start: nat, i: nat, j: int, h: nat, count: int) {
    Walked(xs, start, i, j, h, count) && (j >= 0 ==> start + j == h)
  }

  lemma SmallStep(xs: seq<Cluster>, start: nat, s: Shape, lobits: nat, ahead: nat, i: nat, j: int, h: nat, count: int)
    requires WellFormed(xs, false, lobits) && i < s.vcnt <= 16 && 0 < j && WalkedSmall(xs, start, i, j, h, count)
    ensures var k := start + j - 1;
            if xs[k].Head? then WalkedSmall(xs, start, i, j - 1, k, count + 1)
            else
              var to := j - 1 - LoField(xs, k, j - 1, s, false, ahead);
              if to >= 0 then WalkedSmall(xs, start, i, to, start + to, count + 1) else WalkedSmall(xs, start, i, to, h, count)
  {
    var k := start + j - 1;
    assert ClusterOk(xs, h, false, lobits) && ClusterOk(xs, k, false, lobits);
    HeadIsHead(xs, k, false, lobits);
    assert ClusterOk(xs, HeadOf(xs, k), false, lobits);
  }

  /** Big pclusters: every step lands on a head, on the entry two past one, or leaves the pack. */
  predicate WalkedBig(xs: seq<Cluster>, start: nat, i: nat, j: int, h: nat, count: int, carried: bool) {
    && Walked(xs, start, i, j, h, count - (if carried then CarriedIn(xs, start) else 0))
    && (j > 0 ==> start + j == h || (xs[start + j].Nonhead? && xs[start + j].dist == 2))
    && (carried ==> j < 0) && (j <= 0 && !carried ==> CarriedIn(xs, start) == 0)
  }

  lemma BigHeadStep(xs: seq<Cluster>, start: nat, lobits: nat, i: nat, j: int, h: nat, count: int)
    requires WellFormed(xs, true, lobits) && 0 < j && WalkedBig(xs, start, i, j, h, count, false)
    requires xs[start + j - 1].Head?
    ensures WalkedBig(xs, start, i, j - 1, start + j - 1, count + 1, false)
  {
    assert ClusterOk(xs, start + j, true, lobits) && ClusterOk(xs, start + j - 1, true, lobits);
    assert ClusterOk(xs, h, true, lobits);
  }

  lemma BigCountStep(xs: seq<Cluster>, start: nat, lobits: nat, i: nat, j: int, h: nat, count: int)
    requires WellFormed(xs, true, lobits) && 0 < j && WalkedBig(xs, start, i, j, h, count, false)
    requires xs[start + j - 1].Nonhead? && xs[start + j - 1].dist == 1
    ensures start + j >= 2 && xs[start + j - 2].Head?
    ensures var n := xs[start + j - 2].blocks;
            if j >= 2 then WalkedBig(xs, start, i, j - 2, start + j - 2, count + n, false)
            else WalkedBig(xs, start, i, j - 2, h, count + n, true)
  {
    var k := start + j - 1;
    HeadIsHead(xs, k, true, lobits);
    HeadOfNext(xs, true, lobits, k, h, start + j);
    assert ClusterOk(xs, h, true, lobits) && ClusterOk(xs, k - 1, true, lobits);
  }

  /** All lclusters between one head and the next belong to the first. */
  lemma {:induction false} HeadOfNext(xs: seq<Cluster>, big: bool, lobits: nat, k: nat, h: nat, at: nat)
    requires WellFormed(xs, big, lobits) && k < at <= h < |xs| && xs[h].Head?
    requires at == k + 1 && forall l :: at <= l < h ==> xs[l].Nonhead?
    ensures HeadOf(xs, h - 1) == HeadOf(xs, k)
    decreases h - k
  {
    if at < h {
      assert ClusterOk(xs, at, big, lobits);
      HeadOfNext(xs, big, lobits, at, h, at + 1);
    }
  }

  lemma BigJumpStep(xs: seq<Cluster>, start: nat, s: Shape, lobits: nat, ahead: nat, i: nat, j: int, h: nat, count: int)
    requires WellFormed(xs, true, lobits) && i < s.vcnt <= 16 && 0 < j && WalkedBig(xs, start, i, j, h, count, false)
    requires xs[start + j - 1].Nonhead? && xs[start + j - 1].dist > 1
    ensures var lo := LoField(xs, start + j - 1, j - 1, s, true, ahead);
            1 < lo < CBLKCNT && WalkedBig(xs, start, i, j - 1 - (lo - 2), h, count, false)
  {
    var k := start + j - 1;
    HeadIsHead(xs, k, true, lobits);
  }

  /** Where the walk ends, the pack's base address plus the count is the head's own. */
  lemma WalkEnds(xs: seq<Cluster>, start: nat, s: Shape, lobits: nat, big: bool, i: nat, j: int, h: nat, count: int, carried: bool)
    requires WellFormed(xs, big, lobits) && i < s.vcnt && j <= 0
    requires if big then WalkedBig(xs, start, i, j, h, count, carried) else WalkedSmall(xs, start, i, j, h, count)
    ensures var base := PackBase(xs, start, s, big);
            0 <= base < 0x1_0000_0000 && base + count + (if big then 0 else 1) == xs[start + i].blk
  {
    NextHeadIs(xs, start, start + s.vcnt, h);
    assert ClusterOk(xs, h, big, lobits) && ClusterOk(xs, start + i, big, lobits);
    if big && CarriedIn(xs, start) > 0 {
      HeadOfNext(xs, big, lobits, start, h, start + 1);
      assert ClusterOk(xs, start - 1, big, lobits);
    }
  }

  lemma {:induction false} NextHeadIs(xs: seq<Cluster>, k: nat, end: nat, h: nat)
    requires k <= h < end && h < |xs| && xs[h].Head? && forall l :: k <= l < h ==> xs[l].Nonhead?
    ensures NextHead(xs, k, end) == Some(h)
    decreases end - k
  {
    if k < h {
      NextHeadIs(xs, k + 1, end, h);
    }
  }

  // ------------------------------------------------------------- the decoder

  /** The blocks counted from entry `j` back, one-block pclusters, `nblk` counted so far. */
  function SmallCount(pack: Bytes, s: Shape, lobits: nat, j: int, nblk: nat): nat
    requires Accepted(s, lobits) && j <= s.vcnt && |pack| == PackBytes(s)
    decreases j
  {
    if j <= 0 then nblk
    else
      EntryInside(s, lobits, j - 1);
      var to := if EntryTy(pack, s, lobits, j - 1) == LCL_NONHEAD then j - 1 - EntryLo(pack, s, lobits, j - 1) else j - 1;
      SmallCount(pack, s, lobits, to, if to >= 0 then nblk + 1 else nblk)
  }

  /** The same with big pclusters; nothing where a distance is one no big pcluster can have. */
  function BigCount(pack: Bytes, s: Shape, lobits: nat, j: int, nblk: nat): Option<nat>
    requires Accepted(s, lobits) && j <= s.vcnt && |pack| == PackBytes(s)
    decreases j
  {
    if j <= 0 then Some(nblk)
    else
      EntryInside(s, lobits, j - 1);
      var lo := EntryLo(pack, s, lobits, j - 1);
      if EntryTy(pack, s, lobits, j - 1) != LCL_NONHEAD then BigCount(pack, s, lobits, j - 1, nblk + 1)
      else if (lo / CBLKCNT) % 2 == 1 then BigCount(pack, s, lobits, j - 2, nblk + (lo - CBLKCNT))
      else if lo <= 1 then None
      else BigCount(pack, s, lobits, j - 1 - (lo - 2), nblk)
  }

  /** What the decoder makes of entry `i` of any pack at all. */
  function Decoded(pack: Bytes, s: Shape, lobits: nat, i: nat, big: bool): Result<Lcl, string>
    requires Accepted(s, lobits) && i < s.vcnt && |pack| == PackBytes(s)
  {
    EntryInside(s, lobits, i);
    var lo, ty := EntryLo(pack, s, lobits, i), EntryTy(pack, s, lobits, i);
    if ty == LCL_NONHEAD then Ok(Lcl(ty, 0, 0, if (lo / CBLKCNT) % 2 == 1 then Some(lo - CBLKCNT) else None))
    else
      var counted := if big then BigCount(pack, s, lobits, i, 0) else Some(SmallCount(pack, s, lobits, i, 1));
      if counted.None? then Err("corrupt compact index (d0 <= 1 in big pcluster)")
      else if Le32(pack, |pack| - 4) + counted.value >= 0x1_0000_0000 then Err("blkaddr overflow")
      else Ok(Lcl(ty, lo, Le32(pack, |pack| - 4) + counted.value, None))
  }

  /** Count the blocks of one-block pclusters before entry `i`, itself included. */
  method CountSmall(pack: Bytes, s: Shape, lobits: nat, i: nat) returns (nblk: nat)
    requires Accepted(s, lobits) && i < s.vcnt && |pack| == PackBytes(s)
    ensures nblk == SmallCount(pack, s, lobits, i, 1)
  {
    hide EntryTy, EntryLo;
    nblk := 1;
    var j: int := i;
    while j > 0
      invariant j <= i && SmallCount(pack, s, lobits, i, 1) == SmallCount(pack, s, lobits, j, nblk)
    {
      EntryInside(s, lobits, j - 1);
      j := j - 1;
      var lo, ty := EntryLo(pack, s, lobits, j), EntryTy(pack, s, lobits, j);
      if ty == LCL_NONHEAD {
        j := j - lo;
      }
      if j >= 0 {
        nblk := nblk + 1;
      }
    }
  }

  /** The pack's base and the count back from a head come to that head's block. */
  lemma {:induction false} SmallCountIs(pack: Bytes, xs: seq<Cluster>, start: nat, s: Shape, lobits: nat, ahead: nat,
                                        i: nat, j: int, h: nat, count: nat)
    requires Holds(pack, xs, start, s, lobits, false, ahead) && j <= i < s.vcnt && start + i < |xs| && |pack| == PackBytes(s)
    requires WalkedSmall(xs, start, i, j, h, count)
    ensures PackBase(xs, start, s, false) >= 0
    ensures PackBase(xs, start, s, false) + SmallCount(pack, s, lobits, j, count + 1) == xs[start + i].blk
    decreases j
  {
    hide WalkedSmall, PackOf, EntryLo, EntryTy, PackBase;
    if j <= 0 {
      WalkEnds(xs, start, s, lobits, false, i, j, h, count, false);
    } else {
      EntryInside(s, lobits, j - 1);
      SmallWalkStep(pack, xs, start, s, lobits, ahead, i, j, h, count);
      var to := if EntryTy(pack, s, lobits, j - 1) == LCL_NONHEAD then j - 1 - EntryLo(pack, s, lobits, j - 1) else j - 1;
      if to >= 0 {
        SmallCountIs(pack, xs, start, s, lobits, ahead, i, to, start + to, count + 1);
      } else {
        SmallCountIs(pack, xs, start, s, lobits, ahead, i, to, h, count);
      }
    }
  }

  lemma SmallStart(xs: seq<Cluster>, start: nat, i: nat)
    requires start + i < |xs| && xs[start + i].Head?
    ensures WalkedSmall(xs, start, i, i, start + i, 0)
  {
  }

  /** One step of the walk, by what entry `j - 1` holds. */
  lemma SmallWalkStep(pack: Bytes, xs: seq<Cluster>, start: nat, s: Shape, lobits: nat, ahead: nat, i: nat, j: int, h: nat, count: int)
    requires Holds(pack, xs, start, s, lobits, false, ahead) && 0 < j <= i < s.vcnt && start + i < |xs|
    requires WalkedSmall(xs, start, i, j, h, count) && (j - 1) * s.bits / 8 + 4 <= |pack|
    ensures var lo, ty := EntryLo(pack, s, lobits, j - 1), EntryTy(pack, s, lobits, j - 1);
            var to := if ty == LCL_NONHEAD then j - 1 - lo else j - 1;
            if to >= 0 then WalkedSmall(xs, start, i, to, start + to, count + 1) else WalkedSmall(xs, start, i, to, h, count)
  {
    hide PackOf, EntryLo, EntryTy;
    EntryReadsBack(xs, start, s, lobits, false, ahead, j - 1);
    SmallStep(xs, start, s, lobits, ahead, i, j, h, count);
    assert ClusterOk(xs, start + j - 1, false, lobits);
  }

  /** Count the blocks of the pclusters before entry `i`, big ones by the count they record; None is
      a distance no big pcluster can have. */
  method CountBig(pack: Bytes, s: Shape, lobits: nat, i: nat) returns (r: Option<nat>)
    requires Accepted(s, lobits) && i < s.vcnt && |pack| == PackBytes(s)
    ensures r == BigCount(pack, s, lobits, i, 0)
  {
    hide EntryLo, EntryTy;
    var nblk: nat, j: int := 0, i;
    while j > 0
      invariant j <= i && BigCount(pack, s, lobits, i, 0) == BigCount(pack, s, lobits, j, nblk)
    {
      EntryInside(s, lobits, j - 1);
      j := j - 1;
      var lo, ty := EntryLo(pack, s, lobits, j), EntryTy(pack, s, lobits, j);
      if ty == LCL_NONHEAD {
        if (lo / CBLKCNT) % 2 == 1 {
          j := j - 1;
          nblk := nblk + (lo - CBLKCNT);
        } else if lo <= 1 {
          return None;
        } else {
          j := j - (lo - 2);
        }
      } else {
        nblk := nblk + 1;
      }
    }
    r := Some(nblk);
  }

  lemma {:induction false} BigCountIs(pack: Bytes, xs: seq<Cluster>, start: nat, s: Shape, lobits: nat, ahead: nat,
                                      i: nat, j: int, h: nat, count: nat, carried: bool)
    requires Holds(pack, xs, start, s, lobits, true, ahead) && j <= i < s.vcnt && start + i < |xs| && |pack| == PackBytes(s)
    requires WalkedBig(xs, start, i, j, h, count, carried)
    ensures PackBase(xs, start, s, true) >= 0
    ensures var r := BigCount(pack, s, lobits, j, count); r.Some? && PackBase(xs, start, s, true) + r.value == xs[start + i].blk
    decreases j
  {
    hide PackOf, EntryLo, EntryTy, PackBase, Walked;
    if j <= 0 {
      WalkEnds(xs, start, s, lobits, true, i, j, h, count, carried);
    } else {
      EntryInside(s, lobits, j - 1);
      BigStep(pack, xs, start, s, lobits, ahead, i, j, h, count);
      var lo := EntryLo(pack, s, lobits, j - 1);
      if EntryTy(pack, s, lobits, j - 1) != LCL_NONHEAD {
        BigCountIs(pack, xs, start, s, lobits, ahead, i, j - 1, start + j - 1, count + 1, false);
      } else if (lo / CBLKCNT) % 2 == 1 {
        if j >= 2 {
          BigCountIs(pack, xs, start, s, lobits, ahead, i, j - 2, start + j - 2, count + (lo - CBLKCNT), false);
        } else {
          BigCountIs(pack, xs, start, s, lobits, ahead, i, j - 2, h, count + (lo - CBLKCNT), true);
        }
      } else {
        BigCountIs(pack, xs, start, s, lobits, ahead, i, j - 1 - (lo - 2), h, count, false);
      }
    }
  }

  lemma BigStart(xs: seq<Cluster>, start: nat, lobits: nat, i: nat)
    requires WellFormed(xs, true, lobits) && start + i < |xs| && xs[start + i].Head?
    ensures WalkedBig(xs, start, i, i, start + i, 0, false)
  {
  }

  /** One step of the walk, by what entry `j - 1` holds. */
  lemma BigStep(pack: Bytes, xs: seq<Cluster>, start: nat, s: Shape, lobits: nat, ahead: nat, i: nat, j: int, h: nat, nblk: nat)
    requires Holds(pack, xs, start, s, lobits, true, ahead) && 0 < j <= i < s.vcnt && start + i < |xs|
    requires WalkedBig(xs, start, i, j, h, nblk, false) && (j - 1) * s.bits / 8 + 4 <= |pack|
    ensures var lo, ty := EntryLo(pack, s, lobits, j - 1), EntryTy(pack, s, lobits, j - 1);
            if ty != LCL_NONHEAD then WalkedBig(xs, start, i, j - 1, start + j - 1, nblk + 1, false)
            else if (lo / CBLKCNT) % 2 == 1 then
              lo >= CBLKCNT &&
              if j >= 2 then WalkedBig(xs, start, i, j - 2, start + j - 2, nblk + (lo - CBLKCNT), false)
              else WalkedBig(xs, start, i, j - 2, h, nblk + (lo - CBLKCNT), true)
            else 1 < lo && WalkedBig(xs, start, i, j - 1 - (lo - 2), h, nblk, false)
  {
    hide WalkedBig, PackOf, EntryLo, EntryTy;
    var k := start + j - 1;
    EntryReadsBack(xs, start, s, lobits, true, ahead, j - 1);
    assert ClusterOk(xs, k, true, lobits);
    if xs[k].Head? {
      BigHeadStep(xs, start, lobits, i, j, h, nblk);
    } else if xs[k].dist == 1 {
      BigCountStep(xs, start, lobits, i, j, h, nblk);
      assert ClusterOk(xs, k - 1, true, lobits);
    } else {
      BigJumpStep(xs, start, s, lobits, ahead, i, j, h, nblk);
    }
  }

  /** Decode entry `i` of a pack: err is a corrupt distance or an address past 32 bits. */
  method DecodePack(pack: Bytes, s: Shape, lobits: nat, i: nat, big: bool) returns (r: Result<Lcl, string>)
    requires Accepted(s, lobits) && i < s.vcnt && |pack| == PackBytes(s)
    ensures r == Decoded(pack, s, lobits, i, big)
  {
    hide EntryLo, EntryTy, Le32, SmallCount, BigCount;
    EntryInside(s, lobits, i);
    var lo, ty := EntryLo(pack, s, lobits, i), EntryTy(pack, s, lobits, i);
    if ty == LCL_NONHEAD {
      return Ok(Lcl(ty, 0, 0, if (lo / CBLKCNT) % 2 == 1 then Some(lo - CBLKCNT) else None));
    }
    var nblk: nat;
    if big {
      var counted := CountBig(pack, s, lobits, i);
      if counted.None? {
        return Err("corrupt compact index (d0 <= 1 in big pcluster)");
      }
      nblk := counted.value;
    } else {
      nblk := CountSmall(pack, s, lobits, i);
    }
    var blk := Le32(pack, |pack| - 4) + nblk;
    if blk >= 0x1_0000_0000 {
      return Err("blkaddr overflow");
    }
    return Ok(Lcl(ty, lo, blk, None));
  }

  /** A pack that holds a well-formed run decodes to what it was packed from, walking back for the block
      address included. */
  lemma DecodesAsPacked(pack: Bytes, s: Shape, lobits: nat, i: nat, big: bool, xs: seq<Cluster>, start: nat, ahead: nat)
    requires i < s.vcnt && |pack| == PackBytes(s) && Holds(pack, xs, start, s, lobits, big, ahead) && start + i < |xs|
    ensures Decoded(pack, s, lobits, i, big) == Ok(Meaning(xs, start + i, big))
  {
    hide PackOf, EntryLo, EntryTy, Le32, SmallCount, BigCount, PackBase;
    EntryInside(s, lobits, i);
    EntryReadsBack(xs, start, s, lobits, big, ahead, i);
    assert ClusterOk(xs, start + i, big, lobits);
    if xs[start + i].Nonhead? {
      NonheadMeans(xs, start, i, s, lobits, big, ahead);
    } else {
      if big {
        BigStart(xs, start, lobits, i);
        BigCountIs(pack, xs, start, s, lobits, ahead, i, i, start + i, 0, false);
      } else {
        SmallStart(xs, start, i);
        SmallCountIs(pack, xs, start, s, lobits, ahead, i, i, start + i, 0);
      }
      BaseReadsBack(xs, start, s, lobits, big, ahead, i);
    }
  }

  lemma NonheadMeans(xs: seq<Cluster>, start: nat, p: nat, s: Shape, lobits: nat, big: bool, ahead: nat)
    requires WellFormed(xs, big, lobits) && start + p < |xs| && xs[start + p].Nonhead?
    ensures var lo := LoField(xs, start + p, p, s, big, ahead);
            Meaning(xs, start + p, big) == Lcl(LCL_NONHEAD, 0, 0, if (lo / CBLKCNT) % 2 == 1 then Some(lo - CBLKCNT) else None)
            && ((lo / CBLKCNT) % 2 == 1 ==> lo >= CBLKCNT)
  {
    var k := start + p;
    assert ClusterOk(xs, k, big, lobits);
    assert k > 0 ==> ClusterOk(xs, k - 1, big, lobits);
  }

  lemma BaseReadsBack(xs: seq<Cluster>, start: nat, s: Shape, lobits: nat, big: bool, ahead: nat, i: nat)
    requires WellFormed(xs, big, lobits) && Standard(s, lobits) && i < s.vcnt && start + i < |xs| && xs[start + i].Head?
    requires 0 <= PackBase(xs, start, s, big) <= xs[start + i].blk
    ensures s.bits >= lobits + 2 && PackBytes(s) >= 4
    ensures Le32(PackOf(xs, start, s, lobits, big, ahead), PackBytes(s) - 4) == PackBase(xs, start, s, big)
  {
    hide Le32, ToBytes, PackBase, Nat, Bits, EntriesBits;
    var base := PackBase(xs, start, s, big);
    var entries := EntriesBits(xs, start, s.vcnt, s, lobits, big, ahead);
    var bits := entries + Bits(base, 32);
    assert ClusterOk(xs, start + i, big, lobits);
    Le32IsBits(bits, PackBytes(s) - 4);
    assert bits[8 * (PackBytes(s) - 4)..8 * (PackBytes(s) - 4) + 32] == Bits(base, 32);
    assert Pow2(32) == 0x1_0000_0000 by { TwoToThe32(); }
    NatOfBits(base, 32);
  }

  lemma TwoToThe32()
    ensures Pow2(32) == 0x1_0000_0000
  {
    assert Pow2(8) == 0x100;
    assert Pow2(14) == 0x4000;
    assert Pow2(20) == 0x10_0000;
    assert Pow2(26) == 0x400_0000;
  }

  // ------------------------------------------------------------- oversized lclusters

  /** With 13 or 14 bits of offset a two-byte pack has no room for an entry's type: the bits that do not
      fit are read out of the next entry's offset, whatever the pack holds. */
  lemma NarrowPacksOverlap(pack: Bytes, i: nat)
    requires |pack| == PackBytes(NARROW) && i < 15
    ensures i * NARROW.bits / 8 + 4 <= |pack| && (i + 1) * NARROW.bits / 8 + 4 <= |pack|
    ensures EntryTy(pack, NARROW, 14, i) == EntryLo(pack, NARROW, 14, i + 1) % 4
    ensures EntryTy(pack, NARROW, 13, i) / 2 == EntryLo(pack, NARROW, 13, i + 1) % 2
  {
    OverlapOf(pack, i * 14);
  }

  lemma OverlapOf(pack: Bytes, bit: nat)
    requires bit + 46 <= 8 * |pack|
    ensures TopOfField(pack, bit, 14) == FieldAt(pack, bit + 14, 14) % 4
    ensures TopOfField(pack, bit, 13) / 2 == FieldAt(pack, bit + 14, 13) % 2
  {
    hide ToBytes, Nat, TopOfField, FieldAt, Pow2;
    var bits := AllBits(pack);
    BytesOfAllBits(pack);
    TopIsBits(bits, bit, 14);
    TopIsBits(bits, bit, 13);
    FieldIsBits(bits, bit + 14, 14);
    FieldIsBits(bits, bit + 14, 13);
    PowersOfTwo();
    OneIsTwo();
    var field := bits[bit + 14..bit + 28];
    ShiftAndMask(field, 2);
    assert field[..2] == bits[bit + 14..bit + 16];
    var short, top := bits[bit + 14..bit + 27], bits[bit + 13..bit + 15];
    ShiftAndMask(short, 1);
    ShiftAndMask(top, 1);
    assert short[..1] == bits[bit + 14..bit + 15] == top[1..];
  }

  lemma OneIsTwo()
    ensures Pow2(1) == 2
  {
  }
}
