/**
 Where compact lcluster indexes sit: an initial run of wide packs up to a 32-byte boundary, narrow
 packs, then wide ones again. Every pack a lookup reads lies inside the buffer that was sized from
 the last lcluster, and decodes to the cluster list it was packed from.
 */
module ErofsLayout {
  import opened Wrappers
  import opened ByteStrings
  import opened BitFields
  import opened ErofsIndex

  /** The index area of one inode: `c4init` lclusters in wide packs, `c2b` in narrow ones, the rest
      in wide packs again. */
  datatype Area = Area(ebase: nat, totalidx: nat, c4init: nat, c2b: nat)

  function AreaOf(ebase: nat, totalidx: nat, narrow: bool): Area {
    var c4init := ((32 - ebase % 32) / 4) % 8;
    Area(ebase, totalidx, c4init, if narrow && c4init < totalidx then (totalidx - c4init) / 16 * 16 else 0)
  }

  /** An area as `load_indexes` lays it out: the header before it is 8-aligned, and the narrow packs
      start on a 32-byte boundary. */
  predicate Laid(a: Area) {
    && a.totalidx > 0 && a.ebase % 8 == 0 && a.c4init % 2 == 0 && a.c2b % 16 == 0
    && (a.c2b > 0 ==> (a.ebase + 4 * a.c4init) % 32 == 0 && a.c4init + a.c2b <= a.totalidx)
    && (a.ebase + 4 * a.c4init) % 8 == 0
  }

  /** The wide packs at the front are just as many as reach the next 32-byte boundary. Advised and with
      anything left for them, narrow packs take all the rest but the last few that make no whole pack;
      otherwise there are none. */
  predicate LaidFor(a: Area, ebase: nat, totalidx: nat, narrow: bool) {
    && a.ebase == ebase && a.totalidx == totalidx
    && (ebase + 4 * a.c4init) % 32 == 0 && (forall c: nat :: c < a.c4init ==> (ebase + 4 * c) % 32 != 0)
    && a.c2b % 16 == 0
    && (narrow && a.c4init < totalidx ==> a.c4init + a.c2b <= totalidx < a.c4init + a.c2b + 16)
    && (!narrow || totalidx <= a.c4init ==> a.c2b == 0)
  }

  /** Those demands leave one area. */
  lemma OneAreaIsLaid(a: Area, b: Area, ebase: nat, totalidx: nat, narrow: bool)
    requires LaidFor(a, ebase, totalidx, narrow) && LaidFor(b, ebase, totalidx, narrow)
    ensures a == b
  {
    assert a.c4init == b.c4init by {
      assert (ebase + 4 * a.c4init) % 32 == 0 && (ebase + 4 * b.c4init) % 32 == 0;
    }
    var p, q := a.c2b / 16, b.c2b / 16;
    assert a.c2b == 16 * p && b.c2b == 16 * q;
  }

  lemma AreasAreLaid(ebase: nat, totalidx: nat, narrow: bool)
    requires ebase % 8 == 0 && totalidx > 0
    ensures Laid(AreaOf(ebase, totalidx, narrow)) && LaidFor(AreaOf(ebase, totalidx, narrow), ebase, totalidx, narrow)
  {
    var a := AreaOf(ebase, totalidx, narrow);
    StartAligned(ebase);
    NotSooner(ebase);
    Rounded(if a.c4init < totalidx then totalidx - a.c4init else 0);
  }

  lemma NotSooner(ebase: nat)
    requires ebase % 8 == 0
    ensures forall c: nat :: c < ((32 - ebase % 32) / 4) % 8 ==> (ebase + 4 * c) % 32 != 0
  {
    var q, r := ebase / 32, ebase % 32;
    forall c: nat | c < ((32 - r) / 4) % 8
      ensures (ebase + 4 * c) % 32 != 0
    {
      assert 0 < r + 4 * c < 32;
      DivMod(r + 4 * c, 32, q);
    }
  }

  lemma StartAligned(ebase: nat)
    requires ebase % 8 == 0
    ensures var c4init := ((32 - ebase % 32) / 4) % 8;
            c4init % 2 == 0 && (ebase + 4 * c4init) % 32 == 0 && (ebase + 4 * c4init) % 8 == 0
  {
    var q, r := ebase / 32, ebase % 32;
    assert ebase == 32 * q + r;
    assert r % 8 == 0 by {
      assert ebase == 8 * (4 * q + r / 8) + r % 8;
    }
    AlignedFrom(q, r);
  }

  lemma AlignedFrom(q: nat, r: nat)
    requires r < 32 && r % 8 == 0
    ensures var c4init := ((32 - r) / 4) % 8;
            c4init % 2 == 0 && (32 * q + r + 4 * c4init) % 32 == 0 && (32 * q + r + 4 * c4init) % 8 == 0
  {
    var c4init := ((32 - r) / 4) % 8;
    assert r == 0 || r == 8 || r == 16 || r == 24;
    var whole := if r == 0 then q else q + 1;
    assert 32 * q + r + 4 * c4init == 32 * whole;
    DivMod(0, 32, whole);
    DivMod(0, 8, 4 * whole);
    assert 8 * (4 * whole) == 32 * whole;
  }

  lemma Rounded(n: nat)
    ensures n / 16 * 16 <= n < n / 16 * 16 + 16 && (n / 16 * 16) % 16 == 0
  {
  }

  /** Position of an lcluster's entry and the log2 of the bytes an entry amortises to. */
  function PosOf(a: Area, lcn: nat): (nat, nat) {
    if lcn < a.c4init then (a.ebase + 4 * lcn, 2)
    else
      var pos, l := a.ebase + 4 * a.c4init, lcn - a.c4init;
      if l < a.c2b then (pos + 2 * l, 1) else (pos + 2 * a.c2b + 4 * (l - a.c2b), 2)
  }

  function ShapeOf(shift: nat): Shape {
    if shift == 2 then WIDE else NARROW
  }

  /** The pack an entry lies in, and which entry of it. */
  function PackStart(a: Area, lcn: nat): nat {
    var size := PackBytes(ShapeOf(PosOf(a, lcn).1));
    PosOf(a, lcn).0 / size * size
  }

  function EntryOf(a: Area, lcn: nat): nat {
    (PosOf(a, lcn).0 - PackStart(a, lcn)) / (if PosOf(a, lcn).1 == 2 then 4 else 2)
  }

  /** First byte past the area: the end of the last lcluster's pack. */
  function AreaEnd(a: Area): nat
    requires a.totalidx > 0
  {
    PackStart(a, a.totalidx - 1) + PackBytes(ShapeOf(PosOf(a, a.totalidx - 1).1))
  }

  // ------------------------------------------------------------- every read is inside

  lemma Sizes()
    ensures PackBytes(WIDE) == 8 && PackBytes(NARROW) == 32
  {
  }

  /** Entry `l` of a region of packs that starts aligned at `base`: `each` bytes an entry, `vcnt`
      entries a pack. */
  lemma InRegion(base: nat, l: nat, each: nat, vcnt: nat)
    requires (each == 4 && vcnt == 2) || (each == 2 && vcnt == 16)
    requires base % (each * vcnt) == 0
    ensures (base + each * l) / (each * vcnt) * (each * vcnt) == base + l / vcnt * (each * vcnt)
    ensures (base + each * l - (base + l / vcnt * (each * vcnt))) / each == l % vcnt
  {
    assert l == l / vcnt * vcnt + l % vcnt;
    if each == 4 {
      assert base % 8 == 0;
      assert (base + 4 * l) / 8 == base / 8 + l / 2;
    } else {
      assert base % 32 == 0;
      assert (base + 2 * l) / 32 == base / 32 + l / 16;
    }
  }

  lemma HeadPack(a: Area, lcn: nat)
    requires Laid(a) && lcn < a.c4init
    ensures ShapeOf(PosOf(a, lcn).1) == WIDE && PackStart(a, lcn) == a.ebase + lcn / 2 * 8 && EntryOf(a, lcn) == lcn % 2
  {
    Sizes();
    InRegion(a.ebase, lcn, 4, 2);
  }

  lemma MiddlePack(a: Area, lcn: nat)
    requires Laid(a) && a.c4init <= lcn < a.c4init + a.c2b
    ensures ShapeOf(PosOf(a, lcn).1) == NARROW
    ensures PackStart(a, lcn) == a.ebase + 4 * a.c4init + (lcn - a.c4init) / 16 * 32 && EntryOf(a, lcn) == (lcn - a.c4init) % 16
  {
    Sizes();
    InRegion(a.ebase + 4 * a.c4init, lcn - a.c4init, 2, 16);
  }

  lemma TailIsAligned(a: Area)
    requires Laid(a)
    ensures (a.ebase + 4 * a.c4init + 2 * a.c2b) % 8 == 0
  {
    var m, n := (a.ebase + 4 * a.c4init) / 8, a.c2b / 16;
    assert a.ebase + 4 * a.c4init + 2 * a.c2b == 8 * (m + 4 * n);
  }

  lemma TailPack(a: Area, lcn: nat)
    requires Laid(a) && a.c4init + a.c2b <= lcn
    ensures ShapeOf(PosOf(a, lcn).1) == WIDE
    ensures PackStart(a, lcn) == a.ebase + 4 * a.c4init + 2 * a.c2b + (lcn - a.c4init - a.c2b) / 2 * 8
    ensures EntryOf(a, lcn) == (lcn - a.c4init - a.c2b) % 2
  {
    Sizes();
    TailIsAligned(a);
    InRegion(a.ebase + 4 * a.c4init + 2 * a.c2b, lcn - a.c4init - a.c2b, 4, 2);
  }

  /** Each region's packs lie inside the region. */
  lemma HeadInside(a: Area, lcn: nat)
    requires Laid(a) && lcn < a.c4init
    ensures a.ebase <= PackStart(a, lcn) && PackStart(a, lcn) + 8 <= a.ebase + 4 * a.c4init
  {
    HeadPack(a, lcn);
    assert lcn / 2 + 1 <= a.c4init / 2;
  }

  lemma MiddleInside(a: Area, lcn: nat)
    requires Laid(a) && a.c4init <= lcn < a.c4init + a.c2b
    ensures a.ebase + 4 * a.c4init <= PackStart(a, lcn) && PackStart(a, lcn) + 32 <= a.ebase + 4 * a.c4init + 2 * a.c2b
  {
    MiddlePack(a, lcn);
    assert (lcn - a.c4init) / 16 + 1 <= a.c2b / 16;
  }

  lemma TailInside(a: Area, lcn: nat)
    requires Laid(a) && a.c4init + a.c2b <= lcn
    ensures a.ebase + 4 * a.c4init + 2 * a.c2b <= PackStart(a, lcn)
  {
    TailPack(a, lcn);
  }

  function PackEnd(a: Area, lcn: nat): nat {
    PackStart(a, lcn) + PackBytes(ShapeOf(PosOf(a, lcn).1))
  }

  lemma SameRegionGrows(a: Area, lcn: nat, last: nat)
    requires Laid(a) && lcn <= last
    requires (last < a.c4init) || (a.c4init <= lcn && last < a.c4init + a.c2b) || (a.c4init + a.c2b <= lcn)
    ensures PackEnd(a, lcn) <= PackEnd(a, last)
  {
    hide PackStart;
    Sizes();
    if last < a.c4init {
      HeadPack(a, lcn);
      HeadPack(a, last);
      Halves(lcn, last, 2);
    } else if last < a.c4init + a.c2b {
      MiddlePack(a, lcn);
      MiddlePack(a, last);
      Halves(lcn - a.c4init, last - a.c4init, 16);
    } else {
      TailPack(a, lcn);
      TailPack(a, last);
      Halves(lcn - a.c4init - a.c2b, last - a.c4init - a.c2b, 2);
    }
  }

  /** The pack lcluster `lcn` is read from ends at or before the pack of any later one. */
  lemma PacksGrow(a: Area, lcn: nat, last: nat)
    requires Laid(a) && lcn <= last
    ensures a.ebase <= PackStart(a, lcn) && PackEnd(a, lcn) <= PackEnd(a, last)
  {
    hide PackStart, PosOf;
    Sizes();
    if lcn < a.c4init {
      HeadInside(a, lcn);
      HeadPack(a, lcn);
    } else if lcn < a.c4init + a.c2b {
      MiddleInside(a, lcn);
      MiddlePack(a, lcn);
    } else {
      TailInside(a, lcn);
    }
    if lcn < a.c4init <= last < a.c4init + a.c2b {
      MiddleInside(a, last);
    } else if lcn < a.c4init + a.c2b <= last {
      TailInside(a, last);
    } else {
      SameRegionGrows(a, lcn, last);
    }
  }

  lemma Halves(x: nat, y: nat, n: nat)
    requires x <= y && n > 0
    ensures x / n <= y / n
  {
    assert x == n * (x / n) + x % n && y == n * (y / n) + y % n;
    if x / n > y / n {
      Grows(n, x / n - y / n);
      Distributes(n, x / n, y / n);
      assert false;
    }
  }

  lemma WherePack(a: Area, lcn: nat)
    requires Laid(a)
    ensures lcn < a.c4init ==> ShapeOf(PosOf(a, lcn).1) == WIDE && PackStart(a, lcn) == a.ebase + lcn / 2 * 8
    ensures a.c4init <= lcn < a.c4init + a.c2b ==>
              ShapeOf(PosOf(a, lcn).1) == NARROW && PackStart(a, lcn) == a.ebase + 4 * a.c4init + (lcn - a.c4init) / 16 * 32
    ensures a.c4init + a.c2b <= lcn ==>
              ShapeOf(PosOf(a, lcn).1) == WIDE
              && PackStart(a, lcn) == a.ebase + 4 * a.c4init + 2 * a.c2b + (lcn - a.c4init - a.c2b) / 2 * 8
    ensures EntryOf(a, lcn) < ShapeOf(PosOf(a, lcn).1).vcnt
  {
    if lcn < a.c4init {
      HeadPack(a, lcn);
    } else if lcn < a.c4init + a.c2b {
      MiddlePack(a, lcn);
    } else {
      TailPack(a, lcn);
    }
  }

  /** No lookup reads outside the buffer sized from the last lcluster. */
  lemma ReadsStayInside(a: Area, lcn: nat)
    requires Laid(a) && lcn < a.totalidx
    ensures a.ebase <= PackStart(a, lcn)
    ensures PackStart(a, lcn) + PackBytes(ShapeOf(PosOf(a, lcn).1)) <= AreaEnd(a)
    ensures EntryOf(a, lcn) < ShapeOf(PosOf(a, lcn).1).vcnt
  {
    PacksGrow(a, lcn, a.totalidx - 1);
    WherePack(a, lcn);
  }

  // ------------------------------------------------------------- packing a whole area

  /** `n` packs of one shape, from lcluster `start` on. */
  function Region(xs: seq<Cluster>, start: nat, n: nat, s: Shape, lobits: nat, big: bool, ahead: nat): (r: Bytes)
    requires s == WIDE || s == NARROW
    requires s.bits >= lobits + 2
    ensures |r| == n * PackBytes(s)
  {
    if n == 0 then []
    else
      assert n * PackBytes(s) == (n - 1) * PackBytes(s) + PackBytes(s);
      Region(xs, start, n - 1, s, lobits, big, ahead) + PackOf(xs, start + (n - 1) * s.vcnt, s, lobits, big, ahead)
  }

  lemma {:induction false} RegionAt(xs: seq<Cluster>, start: nat, n: nat, s: Shape, lobits: nat, big: bool, ahead: nat, k: nat)
    requires (s == WIDE || s == NARROW) && s.bits >= lobits + 2 && k < n
    ensures k * PackBytes(s) + PackBytes(s) <= n * PackBytes(s)
    ensures Cut(Region(xs, start, n, s, lobits, big, ahead), k * PackBytes(s), PackBytes(s))
            == PackOf(xs, start + k * s.vcnt, s, lobits, big, ahead)
  {
    hide PackOf;
    assert n * PackBytes(s) == (n - 1) * PackBytes(s) + PackBytes(s);
    if k < n - 1 {
      RegionAt(xs, start, n - 1, s, lobits, big, ahead, k);
    }
  }

  /** How many wide packs come first, how many narrow ones, how many wide ones last. */
  function Heads(a: Area): nat { if a.totalidx <= a.c4init then (a.totalidx + 1) / 2 else a.c4init / 2 }

  function Middle(a: Area): nat { if a.totalidx <= a.c4init then 0 else a.c2b / 16 }

  function Tails(a: Area): nat { if a.totalidx <= a.c4init + a.c2b then 0 else (a.totalidx - a.c4init - a.c2b + 1) / 2 }

  /** What mkfs writes: the cluster list packed region by region. */
  function EncodeArea(xs: seq<Cluster>, a: Area, lobits: nat, big: bool, ahead: nat): Bytes
    requires 12 <= lobits <= 14 && (a.c2b > 0 ==> lobits == 12)
  {
    Region(xs, 0, Heads(a), WIDE, lobits, big, ahead)
    + (if a.c2b > 0 then Region(xs, a.c4init, Middle(a), NARROW, lobits, big, ahead) else [])
    + Region(xs, a.c4init + a.c2b, Tails(a), WIDE, lobits, big, ahead)
  }

  /** Some pack lies at `at` of the encoded area: the one that starts at lcluster `start`. */
  predicate PackLies(xs: seq<Cluster>, a: Area, lobits: nat, big: bool, ahead: nat, at: nat, start: nat, s: Shape)
    requires 12 <= lobits <= 14 && (a.c2b > 0 ==> lobits == 12) && (s == WIDE || s == NARROW)
  {
    var area := EncodeArea(xs, a, lobits, big, ahead);
    && s.bits >= lobits + 2 && at + PackBytes(s) <= |area|
    && Cut(area, at, PackBytes(s)) == PackOf(xs, start, s, lobits, big, ahead)
  }

  lemma HeadLies(xs: seq<Cluster>, a: Area, lobits: nat, big: bool, ahead: nat, k: nat)
    requires Laid(a) && k < Heads(a) && 12 <= lobits <= 14 && (a.c2b > 0 ==> lobits == 12)
    ensures PackLies(xs, a, lobits, big, ahead, 8 * k, 2 * k, WIDE)
  {
    hide PackOf, Region;
    Sizes();
    var first := Region(xs, 0, Heads(a), WIDE, lobits, big, ahead);
    var mid := if a.c2b > 0 then Region(xs, a.c4init, Middle(a), NARROW, lobits, big, ahead) else [];
    var last := Region(xs, a.c4init + a.c2b, Tails(a), WIDE, lobits, big, ahead);
    RegionAt(xs, 0, Heads(a), WIDE, lobits, big, ahead, k);
    CutInMiddle([], first, mid + last, 8 * k, 8);
    Reassociate(first, mid, last);
  }

  lemma AddNothing(a: Bytes)
    ensures a + [] == a
  {
  }

  lemma Reassociate(a: Bytes, b: Bytes, c: Bytes)
    ensures (a + b) + c == [] + a + (b + c)
  {
  }

  lemma MiddleLies(xs: seq<Cluster>, a: Area, lobits: nat, big: bool, ahead: nat, k: nat)
    requires Laid(a) && k < Middle(a) && a.c2b > 0 && lobits == 12
    ensures PackLies(xs, a, lobits, big, ahead, 4 * a.c4init + 32 * k, a.c4init + 16 * k, NARROW)
  {
    hide PackOf, Region;
    Sizes();
    var first := Region(xs, 0, Heads(a), WIDE, lobits, big, ahead);
    var mid := Region(xs, a.c4init, Middle(a), NARROW, lobits, big, ahead);
    var last := Region(xs, a.c4init + a.c2b, Tails(a), WIDE, lobits, big, ahead);
    RegionAt(xs, a.c4init, Middle(a), NARROW, lobits, big, ahead, k);
    CutInMiddle(first, mid, last, 32 * k, 32);
  }

  lemma TailLies(xs: seq<Cluster>, a: Area, lobits: nat, big: bool, ahead: nat, k: nat)
    requires Laid(a) && k < Tails(a) && 12 <= lobits <= 14 && (a.c2b > 0 ==> lobits == 12)
    ensures PackLies(xs, a, lobits, big, ahead, 4 * a.c4init + 2 * a.c2b + 8 * k, a.c4init + a.c2b + 2 * k, WIDE)
  {
    hide PackOf, Region;
    Sizes();
    var first := Region(xs, 0, Heads(a), WIDE, lobits, big, ahead);
    var mid := if a.c2b > 0 then Region(xs, a.c4init, Middle(a), NARROW, lobits, big, ahead) else [];
    var last := Region(xs, a.c4init + a.c2b, Tails(a), WIDE, lobits, big, ahead);
    RegionAt(xs, a.c4init + a.c2b, Tails(a), WIDE, lobits, big, ahead, k);
    CutInMiddle(first + mid, last, [], 8 * k, 8);
    AddNothing((first + mid) + last);
  }

  /** The pack a lookup cuts out of an encoded area is the pack its lcluster went into. */
  lemma PackOfLcn(xs: seq<Cluster>, a: Area, lobits: nat, big: bool, ahead: nat, lcn: nat)
    requires Laid(a) && lcn < a.totalidx && 12 <= lobits <= 14 && (a.c2b > 0 ==> lobits == 12)
    ensures PackStart(a, lcn) >= a.ebase && EntryOf(a, lcn) <= lcn
    ensures PackLies(xs, a, lobits, big, ahead, PackStart(a, lcn) - a.ebase, lcn - EntryOf(a, lcn), ShapeOf(PosOf(a, lcn).1))
  {
    hide PackLies;
    if lcn < a.c4init {
      HeadPack(a, lcn);
      HeadLies(xs, a, lobits, big, ahead, lcn / 2);
    } else if lcn < a.c4init + a.c2b {
      MiddlePack(a, lcn);
      MiddleLies(xs, a, lobits, big, ahead, (lcn - a.c4init) / 16);
    } else {
      TailPack(a, lcn);
      TailLies(xs, a, lobits, big, ahead, (lcn - a.c4init - a.c2b) / 2);
    }
  }

  lemma CutInMiddle(a: Bytes, b: Bytes, c: Bytes, at: nat, n: nat)
    requires at + n <= |b|
    ensures Cut(a + b + c, |a| + at, n) == Cut(b, at, n)
  {
  }

  // ------------------------------------------------------------- the lookup

  /** What a lookup finds in any buffer of the area's size. */
  function Lookup(buf: Bytes, a: Area, lclusterbits: nat, lcn: nat, big: bool): Result<Lcl, string>
    requires Laid(a) && |buf| == AreaEnd(a) - a.ebase
  {
    if lcn >= a.totalidx || lclusterbits > 14 then Err("lcn out of range")
    else
      ReadsStayInside(a, lcn);
      var s := ShapeOf(PosOf(a, lcn).1);
      Decoded(Cut(buf, PackStart(a, lcn) - a.ebase, PackBytes(s)), s, LoBits(lclusterbits), EntryOf(a, lcn), big)
  }

  /** Look up lcluster `lcn`. On an area that was packed from a well-formed cluster list, wherever its
      narrow packs have room, it gives back that list's type, offset, block count and block address. */
  method GetCompact(buf: Bytes, a: Area, lclusterbits: nat, lcn: nat, big: bool, ghost xs: seq<Cluster>, ghost ahead: nat)
    returns (r: Result<Lcl, string>)
    requires Laid(a) && |buf| == AreaEnd(a) - a.ebase
    ensures r == Lookup(buf, a, lclusterbits, lcn, big)
    ensures lcn >= a.totalidx || lclusterbits > 14 ==> r.Err?
    ensures lcn < a.totalidx == |xs| && Roomy(a, lclusterbits) && WellFormed(xs, big, LoBits(lclusterbits))
            && buf == EncodeArea(xs, a, LoBits(lclusterbits), big, ahead) ==>
              r == Ok(Meaning(xs, lcn, big))
  {
    hide EncodeArea, WellFormed, Meaning, Decoded;
    if lcn >= a.totalidx || lclusterbits > 14 {
      return Err("lcn out of range");
    }
    var s := ShapeOf(PosOf(a, lcn).1);
    ReadsStayInside(a, lcn);
    r := DecodePack(Cut(buf, PackStart(a, lcn) - a.ebase, PackBytes(s)), s, LoBits(lclusterbits), EntryOf(a, lcn), big);
    if Roomy(a, lclusterbits) && |xs| == a.totalidx && WellFormed(xs, big, LoBits(lclusterbits)) {
      LookupPacked(xs, a, lclusterbits, big, lcn, ahead);
    }
  }

  function LoBits(lclusterbits: nat): nat {
    if lclusterbits > 12 then lclusterbits else 12
  }

  /** No narrow packs, or lclusters small enough for them. */
  predicate Roomy(a: Area, lclusterbits: nat) {
    lclusterbits <= 14 && (a.c2b == 0 || lclusterbits <= 12)
  }

  lemma ShapeIsStandard(a: Area, lclusterbits: nat, lcn: nat)
    requires Roomy(a, lclusterbits)
    ensures var s := ShapeOf(PosOf(a, lcn).1);
            Standard(s, LoBits(lclusterbits)) && s.bits >= LoBits(lclusterbits) + 2
  {
  }

  // ------------------------------------------------------------- which layouts can be read

  /** Some buffer of the area's size reads as the list, every lcluster of it. */
  ghost predicate Readable(xs: seq<Cluster>, a: Area, lclusterbits: nat, big: bool)
    requires Laid(a)
  {
    exists buf: Bytes :: ReadsAs(buf, xs, a, lclusterbits, big)
  }

  predicate ReadsAs(buf: Bytes, xs: seq<Cluster>, a: Area, lclusterbits: nat, big: bool)
    requires Laid(a)
  {
    |buf| == AreaEnd(a) - a.ebase && |xs| == a.totalidx &&
    forall lcn :: 0 <= lcn < a.totalidx ==> Lookup(buf, a, lclusterbits, lcn, big) == Ok(Meaning(xs, lcn, big))
  }

  /** The packed area is as long as the lookups reach. */
  lemma AreaSize(xs: seq<Cluster>, a: Area, lobits: nat, big: bool, ahead: nat)
    requires Laid(a) && 12 <= lobits <= 14 && (a.c2b > 0 ==> lobits == 12)
    ensures |EncodeArea(xs, a, lobits, big, ahead)| == AreaEnd(a) - a.ebase
  {
    hide PackStart, Region, PackOf, PosOf;
    Sizes();
    var last := a.totalidx - 1;
    if last < a.c4init {
      HeadPack(a, last);
      HeadSize(a);
    } else if last < a.c4init + a.c2b {
      MiddlePack(a, last);
      MiddleSize(a);
    } else {
      TailPack(a, last);
      TailSize(a);
    }
  }

  lemma HeadSize(a: Area)
    requires Laid(a) && a.totalidx <= a.c4init
    ensures a.c2b == 0 && 8 * Heads(a) == (a.totalidx - 1) / 2 * 8 + 8 && Tails(a) == 0
  {
  }

  lemma MiddleSize(a: Area)
    requires Laid(a) && a.c4init < a.totalidx <= a.c4init + a.c2b
    ensures 8 * Heads(a) == 4 * a.c4init && 32 * Middle(a) == 2 * a.c2b && Tails(a) == 0
    ensures (a.totalidx - 1 - a.c4init) / 16 * 32 + 32 == 2 * a.c2b
  {
  }

  lemma TailSize(a: Area)
    requires Laid(a) && a.c4init + a.c2b < a.totalidx
    ensures 8 * Heads(a) == 4 * a.c4init && 32 * Middle(a) == 2 * a.c2b
    ensures 8 * Tails(a) == (a.totalidx - 1 - a.c4init - a.c2b) / 2 * 8 + 8
  {
  }

  lemma PackedReads(xs: seq<Cluster>, a: Area, lclusterbits: nat, big: bool)
    requires Laid(a) && Roomy(a, lclusterbits) && |xs| == a.totalidx && WellFormed(xs, big, LoBits(lclusterbits))
    ensures ReadsAs(EncodeArea(xs, a, LoBits(lclusterbits), big, 0), xs, a, lclusterbits, big)
  {
    hide EncodeArea, Lookup, Meaning, WellFormed;
    var buf := EncodeArea(xs, a, LoBits(lclusterbits), big, 0);
    AreaSize(xs, a, LoBits(lclusterbits), big, 0);
    forall lcn | 0 <= lcn < a.totalidx
      ensures Lookup(buf, a, lclusterbits, lcn, big) == Ok(Meaning(xs, lcn, big))
    {
      LookupPacked(xs, a, lclusterbits, big, lcn, 0);
    }
  }

  lemma LookupPacked(xs: seq<Cluster>, a: Area, lclusterbits: nat, big: bool, lcn: nat, ahead: nat)
    requires Laid(a) && Roomy(a, lclusterbits) && |xs| == a.totalidx && WellFormed(xs, big, LoBits(lclusterbits)) && lcn < a.totalidx
    ensures |EncodeArea(xs, a, LoBits(lclusterbits), big, ahead)| == AreaEnd(a) - a.ebase
    ensures Lookup(EncodeArea(xs, a, LoBits(lclusterbits), big, ahead), a, lclusterbits, lcn, big) == Ok(Meaning(xs, lcn, big))
  {
    hide EncodeArea, PackOf, WellFormed, Meaning, Decoded, PackStart, PosOf, EntryOf;
    AreaSize(xs, a, LoBits(lclusterbits), big, ahead);
    ReadsStayInside(a, lcn);
    ShapeIsStandard(a, lclusterbits, lcn);
    PackOfLcn(xs, a, LoBits(lclusterbits), big, ahead, lcn);
    var s := ShapeOf(PosOf(a, lcn).1);
    DecodesAsPacked(PackOf(xs, lcn - EntryOf(a, lcn), s, LoBits(lclusterbits), big, ahead), s, LoBits(lclusterbits), EntryOf(a, lcn), big, xs,
                    lcn - EntryOf(a, lcn), ahead);
  }

  /** Ordinary pclusters of the first kind, all at offset `ofs`: one from the start, one of a single
      lcluster at `at`, and one from there on. */
  function Spilling(n: nat, at: nat, ofs: nat): (r: seq<Cluster>)
    ensures |r| == n && forall k :: 0 <= k < n ==> r[k] == SpillingAt(at, ofs, k)
  {
    seq(n, (k: nat) => SpillingAt(at, ofs, k))
  }

  function SpillingAt(at: nat, ofs: nat, k: nat): Cluster {
    if k == 0 then Head(LCL_HEAD1, ofs, 1, 1)
    else if k < at then Nonhead(k)
    else if k == at then Head(LCL_HEAD1, ofs, 2, 1)
    else if k == at + 1 then Head(LCL_HEAD1, ofs, if at == 0 then 2 else 3, 1)
    else Nonhead(k - (at + 1))
  }

  /** The offset no narrow pack can hold beside such heads: what spills over is read as the type. */
  function SpillingOfs(lclusterbits: nat): nat {
    if lclusterbits == 13 then 1 else 0
  }

  lemma SpillingIsWellFormed(n: nat, at: nat, lclusterbits: nat, big: bool)
    requires 0 < n && 13 <= lclusterbits <= 14
    ensures WellFormed(Spilling(n, at, SpillingOfs(lclusterbits)), big, lclusterbits)
  {
    var xs := Spilling(n, at, SpillingOfs(lclusterbits));
    PowGrows(1, lclusterbits);
    OneIsTwo();
    forall k | 0 <= k < n
      ensures ClusterOk(xs, k, big, lclusterbits)
    {
    }
  }

  /** With lclusters of 13 or 14 bits, whatever is in the buffer, one of the first two lclusters of the
      narrow packs is misread. */
  lemma NarrowIsMisread(buf: Bytes, a: Area, lclusterbits: nat, big: bool)
    requires Laid(a) && a.c2b > 0 && 13 <= lclusterbits <= 14 && |buf| == AreaEnd(a) - a.ebase
    ensures a.c4init + 1 < a.totalidx
    ensures var xs := Spilling(a.totalidx, a.c4init, SpillingOfs(lclusterbits));
            Lookup(buf, a, lclusterbits, a.c4init, big) != Ok(Meaning(xs, a.c4init, big))
            || Lookup(buf, a, lclusterbits, a.c4init + 1, big) != Ok(Meaning(xs, a.c4init + 1, big))
  {
    hide PackStart, PosOf, EntryOf, EntryLo, EntryTy, Decoded, Lookup, Spilling, AreaEnd;
    Sizes();
    var pack := FirstNarrow(buf, a, lclusterbits, big);
    var ofs := SpillingOfs(lclusterbits);
    var xs := Spilling(a.totalidx, a.c4init, ofs);
    SpillingHeads(a.totalidx, a.c4init, ofs);
    if Lookup(buf, a, lclusterbits, a.c4init, big) == Ok(Meaning(xs, a.c4init, big)) {
      HeadFields(pack, lclusterbits, 0, big);
    }
    if Lookup(buf, a, lclusterbits, a.c4init + 1, big) == Ok(Meaning(xs, a.c4init + 1, big)) {
      HeadFields(pack, lclusterbits, 1, big);
    }
    NarrowPacksOverlap(pack, 0);
  }

  lemma SpillingHeads(n: nat, at: nat, ofs: nat)
    requires at + 1 < n
    ensures var xs := Spilling(n, at, ofs);
      xs[at].Head? && xs[at].ty == LCL_HEAD1 && xs[at].ofs == ofs && xs[at + 1].Head? && xs[at + 1].ty == LCL_HEAD1 && xs[at + 1].ofs == ofs
  {
  }

  /** The first narrow pack, which both lookups decode. */
  lemma FirstNarrow(buf: Bytes, a: Area, lclusterbits: nat, big: bool) returns (pack: Bytes)
    requires Laid(a) && a.c2b > 0 && 13 <= lclusterbits <= 14 && |buf| == AreaEnd(a) - a.ebase
    ensures |pack| == PackBytes(NARROW) && a.c4init + 1 < a.totalidx
    ensures Lookup(buf, a, lclusterbits, a.c4init, big) == Decoded(pack, NARROW, lclusterbits, 0, big)
    ensures Lookup(buf, a, lclusterbits, a.c4init + 1, big) == Decoded(pack, NARROW, lclusterbits, 1, big)
  {
    hide PackStart, PosOf, EntryOf, Decoded, AreaEnd;
    Sizes();
    MiddlePack(a, a.c4init);
    MiddlePack(a, a.c4init + 1);
    ReadsStayInside(a, a.c4init);
    pack := Cut(buf, PackStart(a, a.c4init) - a.ebase, 32);
  }

  /** An entry decoded as a head has that head's type and offset in its fields. */
  lemma HeadFields(pack: Bytes, lclusterbits: nat, i: nat, big: bool)
    requires |pack| == PackBytes(NARROW) && 13 <= lclusterbits <= 14 && i < 16
    requires var d := Decoded(pack, NARROW, lclusterbits, i, big); d.Ok? && d.value.ty == LCL_HEAD1
    ensures i * NARROW.bits / 8 + 4 <= |pack|
    ensures EntryTy(pack, NARROW, lclusterbits, i) == LCL_HEAD1
    ensures EntryLo(pack, NARROW, lclusterbits, i) == Decoded(pack, NARROW, lclusterbits, i, big).value.clusterofs
  {
    hide EntryTy, EntryLo, SmallCount, BigCount, Le32;
    EntryInside(NARROW, lclusterbits, i);
  }

  /** Exactly when a layout has no narrow packs, or lclusters small enough for them, can every
      well-formed cluster list be read back from it. */
  lemma ReadableIff(a: Area, lclusterbits: nat, big: bool)
    requires Laid(a) && lclusterbits <= 14
    ensures (forall xs :: |xs| == a.totalidx && WellFormed(xs, big, LoBits(lclusterbits)) ==> Readable(xs, a, lclusterbits, big))
            <==> a.c2b == 0 || lclusterbits <= 12
  {
    hide WellFormed, Lookup, Meaning, EncodeArea;
    if Roomy(a, lclusterbits) {
      forall xs | |xs| == a.totalidx && WellFormed(xs, big, LoBits(lclusterbits))
        ensures Readable(xs, a, lclusterbits, big)
      {
        PackedReads(xs, a, lclusterbits, big);
      }
    } else {
      var xs := Spilling(a.totalidx, a.c4init, SpillingOfs(lclusterbits));
      SpillingIsWellFormed(a.totalidx, a.c4init, lclusterbits, big);
      forall buf: Bytes | |buf| == AreaEnd(a) - a.ebase
        ensures !ReadsAs(buf, xs, a, lclusterbits, big)
      {
        NarrowIsMisread(buf, a, lclusterbits, big);
      }
      assert !Readable(xs, a, lclusterbits, big);
    }
  }
}
