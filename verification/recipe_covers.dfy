/**
 Members packed into a stream: walking the covers of a span, splicing stored bytes from them,
 tiling an encoder's input with them, and measuring how much of a span they cover.
 */
module RecipeCovers {
  import opened Wrappers
  import opened ByteStrings
  import opened RecipePlan
  import opened RecipeTiling
  import opened ErofsRaw

  /** `len` bytes of member `idx` from `from` sit at `pstart` of the packed stream. `proved` covers
      were read back whole by the file pass; the others the sweep has to hash. */
  datatype Cover = Cover(idx: nat, from: nat, pstart: nat, len: nat, proved: bool) {
    function End(): nat { pstart + len }
  }

  predicate CoverHolds(truth: seq<Bytes>, stream: Bytes, cv: Cover) {
    cv.idx < |truth| && Same(truth[cv.idx], cv.from, stream, cv.pstart, cv.len)
  }

  predicate AllHold(truth: seq<Bytes>, stream: Bytes, covers: seq<Cover>) {
    forall cv :: cv in covers ==> CoverHolds(truth, stream, cv)
  }

  // ------------------------------------------------------------- walking a span

  /** `[lo, hi)` of the stream, taken from one cover. */
  datatype Piece = Piece(cv: Cover, lo: nat, hi: nat)

  /** One cover per byte: each cover gives what is left of it between `pos` and `end`, and a cover
      that starts past `end` stops the walk. */
  function Walk(covers: seq<Cover>, pos: nat, end: nat): seq<Piece> {
    if covers == [] then []
    else
      var cv := covers[0];
      var lo, hi := Max(cv.pstart, pos), Min(cv.End(), end);
      if cv.End() <= pos then Walk(covers[1..], pos, end)
      else if cv.pstart >= end then []
      else if lo >= hi then Walk(covers[1..], pos, end)
      else [Piece(cv, lo, hi)] + Walk(covers[1..], hi, end)
  }

  /** The pieces of a walk: inside the span and inside their covers, in order, without overlap. */
  predicate WalkHolds(pieces: seq<Piece>, covers: seq<Cover>, pos: nat, end: nat) {
    if pieces == [] then true
    else
      var p := pieces[0];
      && pos <= p.lo < p.hi <= end && p.cv in covers && p.cv.pstart <= p.lo && p.hi <= p.cv.End()
      && WalkHolds(pieces[1..], covers, p.hi, end)
  }

  lemma {:induction false} WalkHoldsMore(pieces: seq<Piece>, few: seq<Cover>, many: seq<Cover>, pos: nat, from: nat, end: nat)
    requires WalkHolds(pieces, few, pos, end) && from <= pos
    requires forall cv :: cv in few ==> cv in many
    ensures WalkHolds(pieces, many, from, end)
  {
    if pieces != [] {
      WalkHoldsMore(pieces[1..], few, many, pieces[0].hi, pieces[0].hi, end);
    }
  }

  lemma {:induction false} WalkIsOrdered(covers: seq<Cover>, pos: nat, end: nat)
    ensures WalkHolds(Walk(covers, pos, end), covers, pos, end)
  {
    if covers != [] {
      var cv := covers[0];
      var lo, hi := Max(cv.pstart, pos), Min(cv.End(), end);
      if cv.End() <= pos {
        WalkIsOrdered(covers[1..], pos, end);
        WalkHoldsMore(Walk(covers[1..], pos, end), covers[1..], covers, pos, pos, end);
      } else if cv.pstart < end {
        if lo >= hi {
          WalkIsOrdered(covers[1..], pos, end);
          WalkHoldsMore(Walk(covers[1..], pos, end), covers[1..], covers, pos, pos, end);
        } else {
          WalkIsOrdered(covers[1..], hi, end);
          WalkHoldsMore(Walk(covers[1..], hi, end), covers[1..], covers, hi, hi, end);
        }
      }
    }
  }

  predicate CoveredBy(covers: seq<Cover>, x: nat) {
    exists cv :: cv in covers && cv.pstart <= x < cv.End()
  }

  predicate Taken(pieces: seq<Piece>, x: nat) {
    exists p :: p in pieces && p.lo <= x < p.hi
  }

  predicate SortedByStart(covers: seq<Cover>) {
    forall j, k :: 0 <= j < k < |covers| ==> covers[j].pstart <= covers[k].pstart
  }

  lemma TakenCons(p: Piece, rest: seq<Piece>, x: nat)
    ensures Taken([p] + rest, x) <==> p.lo <= x < p.hi || Taken(rest, x)
  {
    if Taken(rest, x) {
      var q :| q in rest && q.lo <= x < q.hi;
      assert q in [p] + rest;
    }
    if p.lo <= x < p.hi {
      assert p in [p] + rest;
    }
  }

  lemma CoveredCons(covers: seq<Cover>, x: nat)
    requires covers != []
    ensures CoveredBy(covers, x) <==> covers[0].pstart <= x < covers[0].End() || CoveredBy(covers[1..], x)
  {
    if CoveredBy(covers[1..], x) {
      var cv :| cv in covers[1..] && cv.pstart <= x < cv.End();
      assert cv in covers;
    }
    assert covers[0] in covers;
  }

  lemma {:induction false} NothingTakenOutside(pieces: seq<Piece>, covers: seq<Cover>, pos: nat, end: nat, x: nat)
    requires WalkHolds(pieces, covers, pos, end) && Taken(pieces, x)
    ensures pos <= x < end && CoveredBy(covers, x)
  {
    TakenCons(pieces[0], pieces[1..], x);
    assert pieces == [pieces[0]] + pieces[1..];
    if !(pieces[0].lo <= x < pieces[0].hi) {
      NothingTakenOutside(pieces[1..], covers, pieces[0].hi, end, x);
    }
  }

  /** With covers in start order the walk misses nothing: it takes exactly the covered bytes. */
  lemma {:induction false} WalkTakesTheCovered(covers: seq<Cover>, pos: nat, end: nat, x: nat)
    requires SortedByStart(covers) && pos <= x < end
    ensures Taken(Walk(covers, pos, end), x) <==> CoveredBy(covers, x)
  {
    WalkIsOrdered(covers, pos, end);
    if Taken(Walk(covers, pos, end), x) {
      NothingTakenOutside(Walk(covers, pos, end), covers, pos, end, x);
    }
    if CoveredBy(covers, x) {
      CoveredIsTaken(covers, pos, end, x);
    }
  }

  lemma {:induction false} CoveredIsTaken(covers: seq<Cover>, pos: nat, end: nat, x: nat)
    requires SortedByStart(covers) && pos <= x < end && CoveredBy(covers, x)
    ensures Taken(Walk(covers, pos, end), x)
  {
    var cv, rest := covers[0], covers[1..];
    var lo, hi := Max(cv.pstart, pos), Min(cv.End(), end);
    CoveredCons(covers, x);
    assert cv.pstart <= x by {
      var c :| c in covers && c.pstart <= x < c.End();
      assert cv.pstart <= c.pstart;
    }
    if cv.End() <= pos || lo >= hi {
      CoveredIsTaken(rest, pos, end, x);
    } else {
      TakenCons(Piece(cv, lo, hi), Walk(rest, hi, end), x);
      if x >= hi {
        CoveredIsTaken(rest, hi, end, x);
      }
    }
  }

  // ------------------------------------------------------------- verbatim splices

  /** The splice a piece becomes when stream offset `lstart` is stored at image offset `rootAt`;
      runs as short as an inline literal are not worth one. */
  function SpliceOf(p: Piece, lstart: nat, rootAt: nat): seq<Seg>
    requires p.cv.pstart <= p.lo && lstart <= p.lo <= p.hi
  {
    if p.hi - p.lo > INLINE_MAX
    then [Tabled(p.cv.idx, p.cv.from + (p.lo - p.cv.pstart), p.hi - p.lo, 0, rootAt + (p.lo - lstart))]
    else []
  }

  function Splices(pieces: seq<Piece>, covers: seq<Cover>, pos: nat, end: nat, lstart: nat, rootAt: nat): seq<Seg>
    requires WalkHolds(pieces, covers, pos, end) && lstart <= pos
  {
    if pieces == [] then []
    else SpliceOf(pieces[0], lstart, rootAt) + Splices(pieces[1..], covers, pieces[0].hi, end, lstart, rootAt)
  }

  function SpanSplices(covers: seq<Cover>, lstart: nat, len: nat, rootAt: nat): seq<Seg> {
    assert WalkHolds(Walk(covers, lstart, lstart + len), covers, lstart, lstart + len) by {
      WalkIsOrdered(covers, lstart, lstart + len);
    }
    Splices(Walk(covers, lstart, lstart + len), covers, lstart, lstart + len, lstart, rootAt)
  }

  /** Splices for `[lstart, lstart + len)` of the stream, each from the first cover that has its byte. */
  method SpliceSpan(covers: seq<Cover>, lstart: nat, len: nat, rootAt: nat) returns (segs: seq<Seg>)
    ensures segs == SpanSplices(covers, lstart, len, rootAt)
  {
    hide Splicing, SpanSplices, Splices, WalkHolds;
    segs := [];
    var end := lstart + len;
    var pos: nat := lstart;
    SplicingStarts(covers, lstart, len, rootAt);
    for k := 0 to |covers|
      invariant lstart <= pos && Splicing(covers, k, pos, lstart, len, rootAt, segs)
    {
      var cv := covers[k];
      var lo, hi := Max(cv.pstart, pos), Min(cv.End(), end);
      SplicingStep(covers, k, pos, lstart, len, rootAt, segs);
      if cv.End() > pos {
        if cv.pstart >= end {
          return;
        }
        if lo < hi {
          if hi - lo > INLINE_MAX {
            segs := segs + [Tabled(cv.idx, cv.from + (lo - cv.pstart), hi - lo, 0, rootAt + (lo - lstart))];
          }
          pos := hi;
        }
      }
    }
    SplicingEnds(covers, pos, lstart, len, rootAt, segs);
  }

  /** `segs` is what the walk has given so far; the rest of it starts at `pos`. */
  ghost predicate Splicing(covers: seq<Cover>, k: nat, pos: nat, lstart: nat, len: nat, rootAt: nat, segs: seq<Seg>) {
    && k <= |covers| && lstart <= pos
    && WalkHolds(Walk(covers[k..], pos, lstart + len), covers, pos, lstart + len)
    && segs + Splices(Walk(covers[k..], pos, lstart + len), covers, pos, lstart + len, lstart, rootAt) == SpanSplices(covers, lstart, len, rootAt)
  }

  lemma SplicingStarts(covers: seq<Cover>, lstart: nat, len: nat, rootAt: nat)
    ensures Splicing(covers, 0, lstart, lstart, len, rootAt, [])
  {
    WalkIsOrdered(covers, lstart, lstart + len);
    assert covers[0..] == covers;
  }

  lemma SplicingEnds(covers: seq<Cover>, pos: nat, lstart: nat, len: nat, rootAt: nat, segs: seq<Seg>)
    requires Splicing(covers, |covers|, pos, lstart, len, rootAt, segs)
    ensures segs == SpanSplices(covers, lstart, len, rootAt)
  {
    assert covers[|covers|..] == [] && segs + [] == segs;
  }

  lemma SplicingStep(covers: seq<Cover>, k: nat, pos: nat, lstart: nat, len: nat, rootAt: nat, segs: seq<Seg>)
    requires k < |covers| && Splicing(covers, k, pos, lstart, len, rootAt, segs)
    ensures var cv, end := covers[k], lstart + len;
            var lo, hi := Max(cv.pstart, pos), Min(cv.End(), end);
            if cv.End() <= pos || (cv.pstart < end && lo >= hi) then Splicing(covers, k + 1, pos, lstart, len, rootAt, segs)
            else if cv.pstart >= end then segs == SpanSplices(covers, lstart, len, rootAt)
            else if hi - lo > INLINE_MAX then
              Splicing(covers, k + 1, hi, lstart, len, rootAt,
                       segs + [Tabled(cv.idx, cv.from + (lo - cv.pstart), hi - lo, 0, rootAt + (lo - lstart))])
            else Splicing(covers, k + 1, hi, lstart, len, rootAt, segs)
  {
    hide SpanSplices;
    assert covers[k..][0] == covers[k] && covers[k..][1..] == covers[k + 1..];
    var cv, end := covers[k], lstart + len;
    var lo, hi := Max(cv.pstart, pos), Min(cv.End(), end);
    if cv.End() > pos && cv.pstart < end && lo < hi {
      var p, rest := Piece(cv, lo, hi), Walk(covers[k + 1..], hi, end);
      assert ([p] + rest)[1..] == rest;
      var s, t := SpliceOf(p, lstart, rootAt), Splices(rest, covers, hi, end, lstart, rootAt);
      assert segs + (s + t) == (segs + s) + t;
      assert segs + [] == segs;
    }
  }

  /** The image bytes at `rootAt` are the stream's bytes at `lstart`. */
  predicate StoredAt(image: Bytes, rootAt: nat, stream: Bytes, lstart: nat, len: nat) {
    Same(image, rootAt, stream, lstart, len)
  }

  /** A verbatim splice in image coordinates: it names a member range that holds the image's bytes
      where it lands. */
  predicate SpliceHolds(truth: seq<Bytes>, image: Bytes, s: Seg) {
    s.Tabled? && s.len > INLINE_MAX && s.idx < |truth| && Same(truth[s.idx], s.from, image, s.rootOff, s.len)
  }

  /** Every splice is faithful if the cover it was cut from is. */
  lemma PieceSplices(truth: seq<Bytes>, image: Bytes, stream: Bytes, p: Piece, lstart: nat, len: nat, rootAt: nat)
    requires StoredAt(image, rootAt, stream, lstart, len) && CoverHolds(truth, stream, p.cv)
    requires p.cv.pstart <= p.lo <= p.hi <= p.cv.End() && lstart <= p.lo && p.hi <= lstart + len
    ensures forall s :: s in SpliceOf(p, lstart, rootAt) ==> SpliceHolds(truth, image, s)
  {
    CutsAgree(truth[p.cv.idx], p.cv.from, stream, p.cv.pstart, p.cv.len, p.lo - p.cv.pstart, p.hi - p.lo);
    CutsAgree(image, rootAt, stream, lstart, len, p.lo - lstart, p.hi - p.lo);
  }

  /** The covers of the members a splice names. */
  predicate CoversOf(truth: seq<Bytes>, stream: Bytes, covers: seq<Cover>, idx: nat) {
    forall cv :: cv in covers && cv.idx == idx ==> CoverHolds(truth, stream, cv)
  }

  lemma {:induction false} SplicesHold(truth: seq<Bytes>, image: Bytes, stream: Bytes, pieces: seq<Piece>, covers: seq<Cover>, pos: nat,
                                       lstart: nat, len: nat, rootAt: nat)
    requires WalkHolds(pieces, covers, pos, lstart + len) && lstart <= pos
    requires StoredAt(image, rootAt, stream, lstart, len)
    ensures forall s :: s in Splices(pieces, covers, pos, lstart + len, lstart, rootAt) ==>
              s.Tabled? && (CoversOf(truth, stream, covers, s.idx) ==> SpliceHolds(truth, image, s))
  {
    if pieces != [] {
      var p := pieces[0];
      SplicesHold(truth, image, stream, pieces[1..], covers, p.hi, lstart, len, rootAt);
      if CoverHolds(truth, stream, p.cv) {
        PieceSplices(truth, image, stream, p, lstart, len, rootAt);
      }
    }
  }

  /** The image ranges splices land on, in order and without overlap. */
  predicate LandsInOrder(segs: seq<Seg>, at: nat, end: nat) {
    if segs == [] then at <= end
    else segs[0].Tabled? && at <= segs[0].rootOff && LandsInOrder(segs[1..], segs[0].rootOff + segs[0].len, end)
  }

  lemma {:induction false} LandsFrom(segs: seq<Seg>, at: nat, later: nat, end: nat)
    requires LandsInOrder(segs, later, end) && at <= later
    ensures LandsInOrder(segs, at, end)
  {
    if segs != [] {
      LandsFrom(segs[1..], segs[0].rootOff + segs[0].len, segs[0].rootOff + segs[0].len, end);
    }
  }

  lemma {:induction false} SplicesLand(pieces: seq<Piece>, covers: seq<Cover>, pos: nat, lstart: nat, len: nat, rootAt: nat)
    requires WalkHolds(pieces, covers, pos, lstart + len) && lstart <= pos <= lstart + len
    ensures LandsInOrder(Splices(pieces, covers, pos, lstart + len, lstart, rootAt), rootAt + (pos - lstart), rootAt + len)
  {
    if pieces != [] {
      var p := pieces[0];
      SplicesLand(pieces[1..], covers, p.hi, lstart, len, rootAt);
      var rest := Splices(pieces[1..], covers, p.hi, lstart + len, lstart, rootAt);
      LandsFrom(rest, rootAt + (pos - lstart), rootAt + (p.hi - lstart), rootAt + len);
      if p.hi - p.lo > INLINE_MAX {
        var s := SpliceOf(p, lstart, rootAt)[0];
        assert ([s] + rest)[1..] == rest;
      } else {
        assert [] + rest == rest;
      }
    }
  }

  // ------------------------------------------------------------- rotated storage

  /** A raw pcluster stored rotated: the last `skip` logical bytes come first. */
  function Rotate(logical: Bytes, skip: nat): Bytes
    requires skip <= |logical|
  {
    logical[|logical| - skip..] + logical[..|logical| - skip]
  }

  /** Splicing in two pieces inverts the reader: what decodes from a full block is exactly what
      rotates back onto it. */
  lemma RotationInvertsDecoding(stored: Bytes, logical: Bytes, skip: nat)
    requires stored != [] && |logical| == |stored|
    ensures DecodeInterlaced(stored, skip, |logical|) == Some(logical) <==> stored == Rotate(logical, skip % |stored|)
  {
    var at := skip % |stored|;
    RotateBack(stored, logical, at);
    var right := if |stored| - at < |logical| then |stored| - at else |logical|;
    assert stored[at..at + right] == stored[at..] && |logical| - right == at;
  }

  lemma RotateBack(stored: Bytes, logical: Bytes, at: nat)
    requires at <= |stored| == |logical|
    ensures stored[at..] + stored[..at] == logical <==> stored == Rotate(logical, at)
  {
    var head := |stored| - at;
    var back := stored[at..] + stored[..at];
    RotatedHalves(stored, logical, at);
    assert back[..head] == stored[at..] && back[head..] == stored[..at];
    assert logical == logical[..head] + logical[head..];
  }

  /** A rotated block is what its end holds of the stream, then what its front holds: two spans to
      splice. Says whether either gave a splice. */
  method SpliceRotated(covers: seq<Cover>, la: nat, pa: nat, plen: nat, skip: Option<nat>, logical: Bytes, stored: Bytes)
    returns (segs: seq<Seg>, hit: bool)
    ensures hit <==> segs != []
    ensures segs != [] ==> skip.Some? && 0 < skip.value <= plen == |logical| == |stored| && stored == Rotate(logical, skip.value)
    ensures segs == if CanRotate(plen, skip, logical, stored)
                    then RotatedSplices(covers, la, pa, plen, skip.value) else []
  {
    hide Splices, WalkHolds, Walk;
    segs, hit := [], false;
    if skip.None? || skip.value == 0 || |logical| != plen || |stored| != plen || skip.value > plen {
      return;
    }
    var head := plen - skip.value;
    if stored[..skip.value] != logical[head..] || stored[skip.value..] != logical[..head] {
      RotatedHalves(stored, logical, skip.value);
      return;
    }
    RotatedHalves(stored, logical, skip.value);
    var tail := SpliceSpan(covers, la + head, skip.value, pa);
    var front := SpliceSpan(covers, la, head, pa + skip.value);
    segs := tail + front;
    hit := segs != [];
  }

  predicate CanRotate(plen: nat, skip: Option<nat>, logical: Bytes, stored: Bytes) {
    && skip.Some? && 0 < skip.value <= plen == |logical| == |stored|
    && stored == Rotate(logical, skip.value)
  }

  function RotatedSplices(covers: seq<Cover>, la: nat, pa: nat, plen: nat, skip: nat): seq<Seg>
    requires skip <= plen
  {
    var head := plen - skip;
    SpanSplices(covers, la + head, skip, pa) + SpanSplices(covers, la, head, pa + skip)
  }

  lemma RotatedHalves(stored: Bytes, logical: Bytes, skip: nat)
    requires skip <= |stored| == |logical|
    ensures var head := |stored| - skip;
            stored == Rotate(logical, skip) <==> stored[..skip] == logical[head..] && stored[skip..] == logical[..head]
  {
    var head := |stored| - skip;
    var there := Rotate(logical, skip);
    assert there[..skip] == logical[head..] && there[skip..] == logical[..head];
    assert stored == stored[..skip] + stored[skip..];
  }

  /** Both pieces of a rotation are faithful, and they do not overlap. */
  lemma RotationIsFaithful(truth: seq<Bytes>, image: Bytes, stream: Bytes, covers: seq<Cover>, la: nat, pa: nat, plen: nat, skip: nat)
    requires skip <= plen && pa + plen <= |image| && la + plen <= |stream|
    requires Cut(image, pa, plen) == Rotate(Cut(stream, la, plen), skip)
    ensures forall s :: s in RotatedSplices(covers, la, pa, plen, skip) ==>
              s.Tabled? && (CoversOf(truth, stream, covers, s.idx) ==> SpliceHolds(truth, image, s))
    ensures LandsInOrder(RotatedSplices(covers, la, pa, plen, skip), pa, pa + plen)
  {
    hide Splices, WalkHolds, Walk, SpliceHolds, LandsInOrder, CoversOf;
    var head := plen - skip;
    RotatedCuts(image, stream, la, pa, plen, skip);
    SpanIsFaithful(truth, image, stream, covers, la + head, skip, pa);
    SpanIsFaithful(truth, image, stream, covers, la, head, pa + skip);
    LandsConcat(SpanSplices(covers, la + head, skip, pa), SpanSplices(covers, la, head, pa + skip), pa, pa + skip, pa + plen);
  }

  lemma RotatedCuts(image: Bytes, stream: Bytes, la: nat, pa: nat, plen: nat, skip: nat)
    requires skip <= plen && pa + plen <= |image| && la + plen <= |stream|
    requires Cut(image, pa, plen) == Rotate(Cut(stream, la, plen), skip)
    ensures Cut(image, pa, skip) == Cut(stream, la + (plen - skip), skip)
    ensures Cut(image, pa + skip, plen - skip) == Cut(stream, la, plen - skip)
  {
    var head := plen - skip;
    RotatedHalves(Cut(image, pa, plen), Cut(stream, la, plen), skip);
    assert Cut(image, pa, skip) == Cut(image, pa, plen)[..skip];
    assert Cut(stream, la + head, skip) == Cut(stream, la, plen)[head..];
    assert Cut(image, pa + skip, head) == Cut(image, pa, plen)[skip..];
    assert Cut(stream, la, head) == Cut(stream, la, plen)[..head];
  }

  lemma SpanIsFaithful(truth: seq<Bytes>, image: Bytes, stream: Bytes, covers: seq<Cover>, lstart: nat, len: nat, rootAt: nat)
    requires StoredAt(image, rootAt, stream, lstart, len)
    ensures forall s :: s in SpanSplices(covers, lstart, len, rootAt) ==>
              s.Tabled? && (CoversOf(truth, stream, covers, s.idx) ==> SpliceHolds(truth, image, s))
    ensures LandsInOrder(SpanSplices(covers, lstart, len, rootAt), rootAt, rootAt + len)
  {
    WalkIsOrdered(covers, lstart, lstart + len);
    SplicesHold(truth, image, stream, Walk(covers, lstart, lstart + len), covers, lstart, lstart, len, rootAt);
    SplicesLand(Walk(covers, lstart, lstart + len), covers, lstart, lstart, len, rootAt);
  }

  /** `s` puts the piece `p` where the span's image bytes are. */
  predicate Puts(s: Seg, p: Piece, lstart: nat, rootAt: nat) {
    && p.cv.pstart <= p.lo && lstart <= p.lo && p.lo + INLINE_MAX < p.hi
    && s == Tabled(p.cv.idx, p.cv.from + (p.lo - p.cv.pstart), p.hi - p.lo, 0, rootAt + (p.lo - lstart))
  }

  /** Every piece of the walk longer than an inline literal is spliced, and nothing else is. */
  lemma SpanIsSpliced(covers: seq<Cover>, lstart: nat, len: nat, rootAt: nat, s: Seg)
    ensures s in SpanSplices(covers, lstart, len, rootAt) <==> exists p :: p in Walk(covers, lstart, lstart + len) && Puts(s, p, lstart, rootAt)
  {
    hide Walk;
    WalkIsOrdered(covers, lstart, lstart + len);
    PiecesAreSpliced(Walk(covers, lstart, lstart + len), covers, lstart, lstart + len, lstart, rootAt, s);
  }

  lemma {:induction false} PiecesAreSpliced(pieces: seq<Piece>, covers: seq<Cover>, pos: nat, end: nat, lstart: nat, rootAt: nat, s: Seg)
    requires WalkHolds(pieces, covers, pos, end) && lstart <= pos
    ensures s in Splices(pieces, covers, pos, end, lstart, rootAt) <==> exists p :: p in pieces && Puts(s, p, lstart, rootAt)
  {
    if pieces != [] {
      var p, rest := pieces[0], pieces[1..];
      PiecesAreSpliced(rest, covers, p.hi, end, lstart, rootAt, s);
      assert s in SpliceOf(p, lstart, rootAt) <==> Puts(s, p, lstart, rootAt);
      assert forall q :: q in pieces <==> q == p || q in rest;
    }
  }

  lemma {:induction false} LandsConcat(a: seq<Seg>, b: seq<Seg>, from: nat, mid: nat, end: nat)
    requires LandsInOrder(a, from, mid) && LandsInOrder(b, mid, end)
    ensures LandsInOrder(a + b, from, end)
  {
    if a == [] {
      assert a + b == b;
      LandsFrom(b, from, mid, end);
    } else {
      LandsConcat(a[1..], b, a[0].rootOff + a[0].len, mid, end);
      assert (a + b)[1..] == a[1..] + b;
    }
  }

  // ------------------------------------------------------------- how much is covered

  /** Merge cover spans, sorted by start, into a disjoint ascending union. */
  function Merged(covers: seq<Cover>): seq<(nat, nat)> {
    if covers == [] then [] else MergeOne(Merged(covers[..|covers| - 1]), covers[|covers| - 1])
  }

  function MergeOne(out: seq<(nat, nat)>, c: Cover): seq<(nat, nat)> {
    if out != [] && c.pstart <= out[|out| - 1].1
    then out[|out| - 1 := (out[|out| - 1].0, Max(out[|out| - 1].1, c.End()))]
    else out + [(c.pstart, c.End())]
  }

  method MergeSpans(covers: seq<Cover>) returns (out: seq<(nat, nat)>)
    ensures out == Merged(covers)
  {
    out := [];
    for k := 0 to |covers|
      invariant out == Merged(covers[..k])
    {
      assert covers[..k + 1][..k] == covers[..k];
      out := MergeOne(out, covers[k]);
    }
    assert covers[..|covers|] == covers;
  }

  predicate InSpans(spans: seq<(nat, nat)>, x: nat) {
    exists s :: s in spans && s.0 <= x < s.1
  }

  /** Ascending and separate: each span starts past the end of the one before. */
  predicate Separate(spans: seq<(nat, nat)>) {
    && (forall s :: s in spans ==> s.0 <= s.1)
    && forall j, k :: 0 <= j < k < |spans| ==> spans[j].1 < spans[k].0
  }

  lemma InSpansAppend(spans: seq<(nat, nat)>, s: (nat, nat), x: nat)
    ensures InSpans(spans + [s], x) <==> InSpans(spans, x) || s.0 <= x < s.1
  {
    if InSpans(spans, x) {
      var t :| t in spans && t.0 <= x < t.1;
      assert t in spans + [s];
    }
    assert s in spans + [s];
  }

  lemma CoveredAppend(covers: seq<Cover>, c: Cover, x: nat)
    ensures CoveredBy(covers + [c], x) <==> CoveredBy(covers, x) || c.pstart <= x < c.End()
  {
    if CoveredBy(covers, x) {
      var t :| t in covers && t.pstart <= x < t.End();
      assert t in covers + [c];
    }
    assert c in covers + [c];
  }

  /** The union covers exactly what the covers do, in separate ascending spans. */
  lemma {:induction false} MergedCovers(covers: seq<Cover>)
    requires SortedByStart(covers)
    ensures Separate(Merged(covers))
    ensures forall x: nat :: InSpans(Merged(covers), x) <==> CoveredBy(covers, x)
    ensures covers != [] ==> Merged(covers) != [] && forall s :: s in Merged(covers) ==> s.0 <= covers[|covers| - 1].pstart
  {
    if covers != [] {
      var n := |covers| - 1;
      MergedCovers(covers[..n]);
      assert covers == covers[..n] + [covers[n]];
      var out := Merged(covers[..n]);
      forall s | s in out
        ensures s.0 <= covers[n].pstart
      {
        assert covers[..n][n - 1] == covers[n - 1];
      }
      MergeOneCovers(out, covers[..n], covers[n]);
    }
  }

  lemma MergeOneCovers(out: seq<(nat, nat)>, covers: seq<Cover>, c: Cover)
    requires Separate(out) && (forall s :: s in out ==> s.0 <= c.pstart)
    requires forall x: nat :: InSpans(out, x) <==> CoveredBy(covers, x)
    ensures Separate(MergeOne(out, c)) && MergeOne(out, c) != []
    ensures forall s :: s in MergeOne(out, c) ==> s.0 <= c.pstart
    ensures forall x: nat :: InSpans(MergeOne(out, c), x) <==> CoveredBy(covers + [c], x)
  {
    hide InSpans, CoveredBy;
    if out != [] && c.pstart <= out[|out| - 1].1 {
      var n := |out| - 1;
      var last := out[n];
      var grown := (last.0, Max(last.1, c.End()));
      assert out == out[..n] + [last];
      assert MergeOne(out, c) == out[..n] + [grown];
      assert last in out;
      forall x: nat
        ensures InSpans(MergeOne(out, c), x) <==> CoveredBy(covers + [c], x)
      {
        InSpansAppend(out[..n], last, x);
        InSpansAppend(out[..n], grown, x);
        CoveredAppend(covers, c, x);
        assert InSpans(out, x) <==> CoveredBy(covers, x);
      }
    } else {
      forall x: nat
        ensures InSpans(MergeOne(out, c), x) <==> CoveredBy(covers + [c], x)
      {
        InSpansAppend(out, (c.pstart, c.End()), x);
        CoveredAppend(covers, c, x);
        assert InSpans(out, x) <==> CoveredBy(covers, x);
      }
    }
  }

  /** How many of the bytes of `[at, end)` lie in one of the spans. */
  function CountIn(spans: seq<(nat, nat)>, at: nat, end: nat): nat
    decreases end - at
  {
    if at >= end then 0 else (if InSpans(spans, at) then 1 else 0) + CountIn(spans, at + 1, end)
  }

  /** What one span has of `[at, end)`. */
  function Width(s: (nat, nat), at: nat, end: nat): nat {
    var lo, hi := Max(s.0, at), Min(s.1, end);
    if lo < hi then hi - lo else 0
  }

  lemma {:induction false} CountSame(a: seq<(nat, nat)>, b: seq<(nat, nat)>, at: nat, end: nat)
    requires forall x: nat :: at <= x < end ==> (InSpans(a, x) <==> InSpans(b, x))
    ensures CountIn(a, at, end) == CountIn(b, at, end)
    decreases end - at
  {
    if at < end {
      CountSame(a, b, at + 1, end);
    }
  }

  lemma {:induction false} CountAppend(spans: seq<(nat, nat)>, s: (nat, nat), at: nat, end: nat)
    requires forall x: nat :: InSpans(spans, x) ==> !(s.0 <= x < s.1)
    ensures CountIn(spans + [s], at, end) == CountIn(spans, at, end) + Width(s, at, end)
    decreases end - at
  {
    if at < end {
      CountAppend(spans, s, at + 1, end);
      InSpansAppend(spans, s, at);
    }
  }

  lemma CountNext(union: seq<(nat, nat)>, k: nat, at: nat, end: nat)
    requires Separate(union) && k < |union|
    ensures CountIn(union[..k + 1], at, end) == CountIn(union[..k], at, end) + Width(union[k], at, end)
  {
    assert union[..k + 1] == union[..k] + [union[k]];
    forall x: nat | InSpans(union[..k], x)
      ensures !(union[k].0 <= x < union[k].1)
    {
      var s :| s in union[..k] && s.0 <= x < s.1;
      var j :| 0 <= j < k && union[j] == s;
    }
    CountAppend(union[..k], union[k], at, end);
  }

  /** Spans that start past the end of a range have nothing of it. */
  lemma CountStops(union: seq<(nat, nat)>, k: nat, at: nat, end: nat)
    requires Separate(union) && k <= |union| && (k < |union| ==> union[k].0 >= end)
    ensures CountIn(union, at, end) == CountIn(union[..k], at, end)
  {
    assert forall j :: k <= j < |union| ==> union[j].0 >= end by {
      forall j | k < j < |union|
        ensures union[j].0 >= end
      {
        assert union[k] in union && union[k].1 < union[j].0;
      }
    }
    forall x: nat | at <= x < end
      ensures InSpans(union, x) <==> InSpans(union[..k], x)
    {
      if InSpans(union, x) {
        var s :| s in union && s.0 <= x < s.1;
        var j :| 0 <= j < |union| && union[j] == s;
        assert union[..k][j] == s;
      }
      assert union == union[..k] + union[k..];
    }
    CountSame(union, union[..k], at, end);
  }

  /** Bytes of `[at, at + len)` an ascending, disjoint union covers: skip the spans that end before
      it, stop at the first that starts past it. */
  method Overlap(union: seq<(nat, nat)>, at: nat, len: nat) returns (n: nat)
    requires Separate(union)
    ensures n == CountIn(union, at, at + len)
  {
    var end := at + len;
    var start: nat := 0;
    CountStops([], 0, at, end);
    CountEmpty(at, end);
    while start < |union| && union[start].1 <= at
      invariant start <= |union| && CountIn(union[..start], at, end) == 0
    {
      CountNext(union, start, at, end);
      start := start + 1;
    }
    n := 0;
    for k := start to |union|
      invariant n == CountIn(union[..k], at, end)
      invariant forall j :: k <= j < |union| ==> union[j].1 > at
    {
      var s := union[k];
      if s.0 >= end {
        CountStops(union, k, at, end);
        return;
      }
      CountNext(union, k, at, end);
      n := n + (Min(s.1, end) - Max(s.0, at));
    }
    assert union[..|union|] == union;
  }

  lemma {:induction false} CountEmpty(at: nat, end: nat)
    ensures CountIn([], at, end) == 0
    decreases end - at
  {
    if at < end {
      CountEmpty(at + 1, end);
    }
  }
}
