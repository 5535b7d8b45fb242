/**
 The sweep over an image's packed stream: covers are hashed as their bytes stream past, eligible
 pclusters are re-encoded or spliced, and whatever rests on a cover whose hash did not come back is
 dropped. What survives is true.
 */
module RecipeSweep {
  import opened Wrappers
  import opened ByteStrings
  import opened RecipePlan
  import opened RecipeTree
  import opened RecipeTiling
  import opened RecipeCovers
  import opened RecipePCluster
  import opened RecipePlanning
  import opened RecipeHashing

  // ------------------------------------------------------------- windows

  /** Where findings come from: the image, its packed stream, and the covers in use. */
  datatype Site = Site(f: Codecs, image: Bytes, used: seq<Cover>, pcs: seq<StoredPc>, decoded: seq<Option<Bytes>>)

  /** How much of the next pcluster's bytes an encoder's window takes. */
  function Margin(next: Bytes): (r: nat)
    ensures r <= |next|
  {
    Min(|next|, ENCODE_MARGIN)
  }

  /** Pcluster `k` and the next one leave no hole, or what the window takes of the next is all zeros, as
      the hole is. */
  predicate RunsOn(pcs: seq<StoredPc>, decoded: seq<Option<Bytes>>, k: nat)
    requires |decoded| == |pcs|
  {
    NoHoleAfter(pcs, k) || decoded[k + 1].None? || AllZero(decoded[k + 1].value[..Margin(decoded[k + 1].value)])
  }

  predicate AllZero(b: Bytes) {
    forall x :: x in b ==> x == 0
  }

  /** The bytes at hand to encode pcluster `k` from: its own, and up to a margin of the next one's; and
      whether the stream goes on past them. None if the next one does not decode. */
  function WindowOf(pcs: seq<StoredPc>, decoded: seq<Option<Bytes>>, k: nat): Option<(Bytes, bool)>
    requires k < |pcs| == |decoded| && decoded[k].Some?
  {
    if k + 1 == |pcs| then Some((decoded[k].value, false))
    else if decoded[k + 1].None? then None
    else
      var next := decoded[k + 1].value;
      var take := Margin(next);
      Some((decoded[k].value + next[..take], take < |next| || k + 2 < |pcs|))
  }

  /** The window is a run of the stream exactly when no hole shows in it. */
  lemma WindowIsRunIff(pcs: seq<StoredPc>, decoded: seq<Option<Bytes>>, stream: Bytes, k: nat)
    requires PackedStream(pcs, decoded, stream) && k + 1 < |pcs| && decoded[k].Some? && decoded[k + 1].Some?
    ensures var next := decoded[k + 1].value;
            var window := decoded[k].value + next[..Margin(next)];
            Same(window, 0, stream, pcs[k].la, |window|) <==> RunsOn(pcs, decoded, k)
  {
    var bytes, next := decoded[k].value, decoded[k + 1].value;
    var take := Margin(next);
    var gap := pcs[k + 1].la - pcs[k].End();
    var window := bytes + next[..take];
    assert Cut(window, 0, |window|) == window;
    CutSplits(stream, pcs[k].la, |bytes|, take);
    AfterHole(stream, pcs[k].End(), gap, next, take);
    assert window == bytes + Cut(stream, pcs[k].End(), take) <==> next[..take] == Cut(stream, pcs[k].End(), take) by {
      assert window[|bytes|..] == next[..take];
      assert (bytes + Cut(stream, pcs[k].End(), take))[|bytes|..] == Cut(stream, pcs[k].End(), take);
    }
  }

  /** Bytes that lie `gap` zeros further on start the stream here too exactly when there is no gap or they
      are zeros themselves. */
  lemma AfterHole(stream: Bytes, at: nat, gap: nat, next: Bytes, take: nat)
    requires at + gap + |next| <= |stream| && next == Cut(stream, at + gap, |next|) && take <= |next|
    requires forall x :: at <= x < at + gap ==> stream[x] == 0
    ensures next[..take] == Cut(stream, at, take) <==> gap == 0 || AllZero(next[..take])
  {
    if next[..take] == Cut(stream, at, take) && gap > 0 {
      forall j | 0 <= j < take
        ensures next[..take][j] == 0
      {
        ShiftedIsZero(stream, at, gap, next, take, j);
      }
    }
    if gap == 0 || AllZero(next[..take]) {
      forall j | 0 <= j < take
        ensures next[..take][j] == Cut(stream, at, take)[j]
      {
        assert next[..take][j] in next[..take];
        if j >= gap {
          assert stream[at + j] == next[j - gap] == next[..take][j - gap];
          assert next[..take][j - gap] in next[..take];
        }
      }
    }
  }

  lemma {:induction false} ShiftedIsZero(stream: Bytes, at: nat, gap: nat, next: Bytes, take: nat, j: nat)
    requires at + gap + |next| <= |stream| && next == Cut(stream, at + gap, |next|) && take <= |next|
    requires forall x :: at <= x < at + gap ==> stream[x] == 0
    requires next[..take] == Cut(stream, at, take) && gap > 0 && j < take
    ensures next[j] == 0
  {
    assert next[j] == next[..take][j] == Cut(stream, at, take)[j] == stream[at + j];
    if j >= gap {
      ShiftedIsZero(stream, at, gap, next, take, j - gap);
      assert stream[at + j] == next[j - gap];
    }
  }

  /** What the encoder is fed for pcluster `k` is the stream's on every byte a cover has. */
  predicate WindowAgrees(s: Site, stream: Bytes, k: nat) {
    && k < |s.pcs| == |s.decoded| && s.decoded[k].Some? && WindowOf(s.pcs, s.decoded, k).Some?
    && Agrees(WindowOf(s.pcs, s.decoded, k).value.0, stream, s.pcs[k].la, s.used)
  }

  /** It is where the window is a run; and whatever the window is, where no cover reaches past the pcluster. */
  lemma WhenWindowsAgree(s: Site, stream: Bytes, k: nat)
    requires PackedStream(s.pcs, s.decoded, stream) && k < |s.pcs| && s.decoded[k].Some? && WindowOf(s.pcs, s.decoded, k).Some?
    ensures RunsOn(s.pcs, s.decoded, k) ==> WindowAgrees(s, stream, k)
    ensures (forall cv :: cv in s.used && cv.pstart < s.pcs[k].End() + ENCODE_MARGIN ==> cv.End() <= s.pcs[k].End()) ==> WindowAgrees(s, stream, k)
  {
    hide RunsOn;
    var pc, window := s.pcs[k], WindowOf(s.pcs, s.decoded, k).value.0;
    if RunsOn(s.pcs, s.decoded, k) {
      WindowRuns(s.pcs, s.decoded, stream, k);
      RunsAgree(window, stream, pc.la, s.used);
    }
    if forall cv :: cv in s.used && cv.pstart < pc.End() + ENCODE_MARGIN ==> cv.End() <= pc.End() {
      forall x: nat | pc.la <= x < pc.la + |window| && CoveredBy(s.used, x)
        ensures window[x - pc.la] == stream[x]
      {
        assert x < pc.End();
        assert window[x - pc.la] == s.decoded[k].value[x - pc.la];
      }
    }
  }

  lemma WindowRuns(pcs: seq<StoredPc>, decoded: seq<Option<Bytes>>, stream: Bytes, k: nat)
    requires PackedStream(pcs, decoded, stream) && k < |pcs| && decoded[k].Some? && WindowOf(pcs, decoded, k).Some?
    requires RunsOn(pcs, decoded, k)
    ensures var window := WindowOf(pcs, decoded, k).value.0;
            Same(window, 0, stream, pcs[k].la, |window|)
  {
    if k + 1 == |pcs| {
      assert Cut(decoded[k].value, 0, |decoded[k].value|) == decoded[k].value;
    } else {
      WindowIsRunIff(pcs, decoded, stream, k);
    }
  }

  // ------------------------------------------------------------- emitting

  /** The stored bytes can be read. */
  predicate InImage(s: Site, k: nat)
    requires k < |s.pcs|
  {
    s.pcs[k].pa + s.pcs[k].plen <= |s.image|
  }

  /** Pcluster `k` can be dealt with: it decodes, what is eligible can be read, and what is to be encoded
      is followed by one that decodes. */
  predicate Emits(s: Site, e: Elig, k: nat) {
    && k < |s.pcs| == |s.decoded| && s.decoded[k].Some? && (!e.Leave? ==> InImage(s, k))
    && (e.TryEncode? && k + 1 < |s.pcs| ==> s.decoded[k + 1].Some?)
  }

  /** What re-encoding pcluster `k` comes to. */
  function EncodedOf(s: Site, k: nat, known: Option<nat>, dict: nat, spool: Bytes): (Planned, Bytes)
    requires Emits(s, TryEncode, k)
  {
    var pc, window := s.pcs[k], WindowOf(s.pcs, s.decoded, k).value;
    PlannedOf(s.f, pc, Cut(s.image, pc.pa, pc.plen), window.0, window.1, s.used, known, dict, spool)
  }

  /** The splices of a pcluster stored uncompressed: straight, rotated, or none. */
  function VerbatimOf(s: Site, k: nat): seq<Seg>
    requires Emits(s, TryVerbatim, k)
  {
    var pc, bytes := s.pcs[k], s.decoded[k].value;
    var stored := Cut(s.image, pc.pa, pc.plen);
    if |stored| >= |bytes| && stored[..|bytes|] == bytes then SpanSplices(s.used, pc.la, |bytes|, pc.pa)
    else if CanRotate(pc.plen, pc.skip, bytes, stored) then RotatedSplices(s.used, pc.la, pc.pa, pc.plen, pc.skip.value)
    else []
  }

  /** Splice pcluster `k` straight in if its stored bytes are the members', verbatim or rotated. */
  method EmitVerbatim(s: Site, k: nat) returns (segs: seq<Seg>)
    requires Emits(s, TryVerbatim, k)
    ensures segs == VerbatimOf(s, k)
  {
    var pc, bytes := s.pcs[k], s.decoded[k].value;
    var stored := Cut(s.image, pc.pa, pc.plen);
    if |stored| >= |bytes| && stored[..|bytes|] == bytes {
      segs := SpliceSpan(s.used, pc.la, |bytes|, pc.pa);
    } else {
      var rotated, _ := SpliceRotated(s.used, pc.la, pc.pa, pc.plen, pc.skip, bytes, stored);
      segs := rotated;
    }
  }

  /** What the sweep has produced so far. */
  datatype Yield = Yield(nodes: seq<(nat, PClusterNode)>, segs: seq<Seg>, spool: Bytes, known: Option<nat>)

  /** With pcluster `k` dealt with as it is eligible for; the preset it settles is reused from then on. */
  function EmittedOne(s: Site, k: nat, e: Elig, dict: nat, y: Yield): Yield
    requires Emits(s, e, k)
  {
    match e
    case Leave => y
    case TryEncode =>
      (match EncodedOf(s, k, y.known, dict, y.spool)
       case (NodeMade(node, preset), out) => Yield(y.nodes + [(k, node)], y.segs, out, Some(preset))
       case (_, out) => y.(spool := out))
    case TryVerbatim => y.(segs := y.segs + VerbatimOf(s, k))
  }

  /** Do with pcluster `k` what it is eligible for; None where a read or a decode fails. */
  method EmitOne(s: Site, k: nat, e: Elig, dict: nat, y: Yield) returns (r: Option<Yield>)
    requires k < |s.pcs| == |s.decoded| && s.decoded[k].Some?
    ensures r == if Emits(s, e, k) then Some(EmittedOne(s, k, e, dict, y)) else None
  {
    hide PlannedOf, VerbatimOf;
    match e {
      case Leave =>
        r := Some(y);
      case TryEncode =>
        var pc, window := s.pcs[k], WindowOf(s.pcs, s.decoded, k);
        if window.None? || !InImage(s, k) {
          return None;
        }
        var planned, out := PlanPCluster(s.f, pc, Cut(s.image, pc.pa, pc.plen), window.value.0, window.value.1, s.used, y.known, dict, y.spool);
        if planned.NodeMade? {
          r := Some(Yield(y.nodes + [(k, planned.node)], y.segs, out, Some(planned.preset)));
        } else {
          r := Some(y.(spool := out));
        }
      case TryVerbatim =>
        if !InImage(s, k) {
          return None;
        }
        var segs := EmitVerbatim(s, k);
        r := Some(y.(segs := y.segs + segs));
    }
  }

  /** Every pcluster needed before `k` can be dealt with. */
  predicate EmitsTo(s: Site, eligible: seq<Elig>, need: seq<bool>, k: nat) {
    && k <= |s.pcs| == |eligible| == |need|
    && forall l :: 0 <= l < k && need[l] ==> Emits(s, eligible[l], l)
  }

  /** What the sweep has produced before pcluster `k`. */
  function EmittedTo(s: Site, eligible: seq<Elig>, need: seq<bool>, dict: nat, y: Yield, k: nat): (r: Yield)
    requires EmitsTo(s, eligible, need, k)
    ensures forall n :: n in r.nodes ==> n in y.nodes || (n.0 < k && eligible[n.0].TryEncode?)
  {
    if k == 0 then y
    else
      var before := EmittedTo(s, eligible, need, dict, y, k - 1);
      if need[k - 1] then EmittedOne(s, k - 1, eligible[k - 1], dict, before) else before
  }

  // ------------------------------------------------------------- what is emitted is true

  /** A node for pcluster `k` that is true wherever the covers it slices are, if what was fed is the
      stream's where a cover has it. */
  predicate NodeSound(s: Site, truth: seq<Bytes>, stream: Bytes, spool: Bytes, k: nat, node: PClusterNode) {
    && k < |s.pcs| && InImage(s, k) && node.size == s.pcs[k].plen && PartsNamed(s.used, node)
    && (WindowAgrees(s, stream, k) && PartsHold(truth, stream, s.used, node) ==>
          NodeHolds(s.f, node, Cut(s.image, s.pcs[k].pa, s.pcs[k].plen), truth, spool))
  }

  predicate SegSound(s: Site, truth: seq<Bytes>, stream: Bytes, seg: Seg) {
    && seg.Tabled? && (exists cv :: cv in s.used && cv.idx == seg.idx)
    && (CoversOf(truth, stream, s.used, seg.idx) ==> SpliceHolds(truth, s.image, seg))
  }

  predicate YieldSound(s: Site, truth: seq<Bytes>, stream: Bytes, y: Yield) {
    && (forall n :: n in y.nodes ==> NodeSound(s, truth, stream, y.spool, n.0, n.1))
    && (forall seg :: seg in y.segs ==> SegSound(s, truth, stream, seg))
  }

  lemma NodeStaysSound(s: Site, truth: seq<Bytes>, stream: Bytes, spool: Bytes, more: Bytes, k: nat, node: PClusterNode)
    requires NodeSound(s, truth, stream, spool, k, node) && spool <= more
    ensures NodeSound(s, truth, stream, more, k, node)
  {
    if PartsHold(truth, stream, s.used, node) && WindowAgrees(s, stream, k) {
      InputsSurviveGrowth(node.inputs, truth, spool, more);
    }
  }

  lemma NodesStaySound(s: Site, truth: seq<Bytes>, stream: Bytes, y: Yield, more: Bytes)
    requires YieldSound(s, truth, stream, y) && y.spool <= more
    ensures YieldSound(s, truth, stream, y.(spool := more))
  {
    forall n | n in y.nodes
      ensures NodeSound(s, truth, stream, more, n.0, n.1)
    {
      NodeStaysSound(s, truth, stream, y.spool, more, n.0, n.1);
    }
  }

  lemma EncodedIsSound(s: Site, truth: seq<Bytes>, stream: Bytes, k: nat, known: Option<nat>, dict: nat, spool: Bytes)
    requires PackedStream(s.pcs, s.decoded, stream) && Emits(s, TryEncode, k)
    ensures var (planned, out) := EncodedOf(s, k, known, dict, spool);
            spool <= out && (planned.NodeMade? ==> NodeSound(s, truth, stream, out, k, planned.node))
  {
    hide PlannedOf, PartsHold, PartsNamed, NodeHolds, Agrees;
    var pc, window := s.pcs[k], WindowOf(s.pcs, s.decoded, k).value;
    var stored := Cut(s.image, pc.pa, pc.plen);
    PlannedSpool(s.f, pc, stored, window.0, window.1, s.used, known, dict, spool);
    if EncodedOf(s, k, known, dict, spool).0.NodeMade? {
      PlannedIsTrue(s.f, pc, stored, window.0, window.1, s.used, known, dict, spool, truth, stream);
    }
  }

  lemma VerbatimOfIsSound(s: Site, truth: seq<Bytes>, stream: Bytes, k: nat)
    requires PackedStream(s.pcs, s.decoded, stream) && Emits(s, TryVerbatim, k)
    ensures forall seg :: seg in VerbatimOf(s, k) ==> SegSound(s, truth, stream, seg)
  {
    hide SegSound, SpanSplices, RotatedSplices;
    var pc, bytes := s.pcs[k], s.decoded[k].value;
    var stored := Cut(s.image, pc.pa, pc.plen);
    if |stored| >= |bytes| && stored[..|bytes|] == bytes {
      VerbatimIsSound(s, truth, stream, pc, bytes, stored);
    } else if CanRotate(pc.plen, pc.skip, bytes, stored) {
      RotatedIsSound(s, truth, stream, pc, pc.skip.value);
    }
  }

  lemma VerbatimIsSound(s: Site, truth: seq<Bytes>, stream: Bytes, pc: StoredPc, bytes: Bytes, stored: Bytes)
    requires pc.pa + pc.plen <= |s.image| && stored == Cut(s.image, pc.pa, pc.plen) && |bytes| <= |stored|
    requires pc.la + |bytes| <= |stream| && bytes == Cut(stream, pc.la, |bytes|) && stored[..|bytes|] == bytes
    ensures forall seg :: seg in SpanSplices(s.used, pc.la, |bytes|, pc.pa) ==> SegSound(s, truth, stream, seg)
  {
    hide Walk, WalkHolds, Splices, SpliceHolds, CoversOf;
    CutOfCut(s.image, pc.pa, pc.plen, 0, |bytes|);
    SpanIsFaithful(truth, s.image, stream, s.used, pc.la, |bytes|, pc.pa);
    SpanIsNamed(s.used, pc.la, |bytes|, pc.pa);
  }

  lemma RotatedIsSound(s: Site, truth: seq<Bytes>, stream: Bytes, pc: StoredPc, skip: nat)
    requires skip <= pc.plen && pc.pa + pc.plen <= |s.image| && pc.la + pc.plen <= |stream|
    requires Cut(s.image, pc.pa, pc.plen) == Rotate(Cut(stream, pc.la, pc.plen), skip)
    ensures forall seg :: seg in RotatedSplices(s.used, pc.la, pc.pa, pc.plen, skip) ==> SegSound(s, truth, stream, seg)
  {
    hide Walk, WalkHolds, Splices, SpliceHolds, CoversOf;
    RotationIsFaithful(truth, s.image, stream, s.used, pc.la, pc.pa, pc.plen, skip);
    SpanIsNamed(s.used, pc.la + (pc.plen - skip), skip, pc.pa);
    SpanIsNamed(s.used, pc.la, pc.plen - skip, pc.pa + skip);
  }

  lemma SpanIsNamed(covers: seq<Cover>, lstart: nat, len: nat, rootAt: nat)
    ensures forall seg :: seg in SpanSplices(covers, lstart, len, rootAt) ==> seg.Tabled? && exists cv :: cv in covers && cv.idx == seg.idx
  {
    WalkIsOrdered(covers, lstart, lstart + len);
    SplicesAreNamed(Walk(covers, lstart, lstart + len), covers, lstart, lstart + len, lstart, rootAt);
  }

  lemma {:induction false} SplicesAreNamed(pieces: seq<Piece>, covers: seq<Cover>, pos: nat, end: nat, lstart: nat, rootAt: nat)
    requires WalkHolds(pieces, covers, pos, end) && lstart <= pos
    ensures forall seg :: seg in Splices(pieces, covers, pos, end, lstart, rootAt) ==>
              seg.Tabled? && exists cv :: cv in covers && cv.idx == seg.idx
  {
    if pieces != [] {
      SplicesAreNamed(pieces[1..], covers, pieces[0].hi, end, lstart, rootAt);
    }
  }

  /** Whatever the sweep produces is sound. */
  lemma {:induction false} EmittedIsSound(s: Site, truth: seq<Bytes>, stream: Bytes, eligible: seq<Elig>, need: seq<bool>, dict: nat, y: Yield, k: nat)
    requires PackedStream(s.pcs, s.decoded, stream) && EmitsTo(s, eligible, need, k) && YieldSound(s, truth, stream, y)
    ensures var r := EmittedTo(s, eligible, need, dict, y, k);
            YieldSound(s, truth, stream, r) && y.spool <= r.spool
  {
    hide NodeSound, SegSound, PackedStream, EncodedOf, VerbatimOf;
    if k > 0 {
      EmittedIsSound(s, truth, stream, eligible, need, dict, y, k - 1);
      var before := EmittedTo(s, eligible, need, dict, y, k - 1);
      if need[k - 1] {
        match eligible[k - 1] {
          case Leave =>
          case TryEncode =>
            EncodedIsSound(s, truth, stream, k - 1, before.known, dict, before.spool);
            NodesStaySound(s, truth, stream, before, EncodedOf(s, k - 1, before.known, dict, before.spool).1);
          case TryVerbatim =>
            VerbatimOfIsSound(s, truth, stream, k - 1);
        }
      }
    }
  }

  // ------------------------------------------------------------- the sweep

  /** How a sweep ends: through, refused where a decode or a read fails, or in a panic. */
  datatype Swept = Through(y: Yield) | Stopped | Panicked

  /** Some cover trips, and nothing before that could not be dealt with. */
  predicate PanicsFirst(m: Marks, s: Site, eligible: seq<Elig>, need: seq<bool>) {
    exists k: nat :: k < |s.pcs| && PanicsAt(m, s, eligible, need, k)
  }

  predicate PanicsAt(m: Marks, s: Site, eligible: seq<Elig>, need: seq<bool>, k: nat) {
    k < |s.pcs| == |s.decoded| && s.decoded[k].Some? && EmitsTo(s, eligible, need, k) && TripsHere(m, s.pcs, need, k)
  }

  /** One pass over the packed stream. It gets through exactly when every pcluster needed can be dealt with
      and no cover trips over a hole, and panics exactly when one trips before anything else goes wrong.
      Through, it gives up exactly the members with a cover that had to be hashed and does not lie whole in
      the stream, or does not hash to their digest. */
  method Sweep(m: Marks, s: Site, ghost stream: Bytes, eligible: seq<Elig>, need: seq<bool>, dict: nat, spool: Bytes, known: Option<nat>)
    returns (r: Swept, failed: set<nat>)
    requires PackedStream(s.pcs, s.decoded, stream) && NeedHolds(m, s.pcs, eligible, need) && SortedByStart(m.used)
    ensures r.Through? <==> EmitsTo(s, eligible, need, |s.pcs|) && !Trips(m, s.pcs, need)
    ensures r.Panicked? <==> PanicsFirst(m, s, eligible, need)
    ensures r.Through? ==> r.y == EmittedTo(s, eligible, need, dict, Yield([], [], spool, known), |s.pcs|)
    ensures r.Through? ==> failed == FailedOf(m, stream, s.pcs, need)
  {
    hide Standing, PackedStream, Waiting, Hashing, NeedHolds, TripsHere, SortedByStart, Emits, EmittedOne, Accounts, FailedOf;
    ghost var y0 := Yield([], [], spool, known);
    var y := Yield([], [], spool, known);
    var cursor: nat, active: seq<Active> := 0, [];
    failed := {};
    DecodesAreThere(s.pcs, s.decoded, stream);
    NeedIsThere(m, s.pcs, eligible, need);
    NothingStands(m, stream, s.pcs, need);
    NothingAccounted(m, stream, s.pcs, need);
    for k := 0 to |s.pcs|
      invariant EmitsTo(s, eligible, need, k) && y == EmittedTo(s, eligible, need, dict, y0, k)
      invariant Waiting(m, stream, cursor, active, failed, At(s.pcs, k))
      invariant Standing(m, s.pcs, cursor, active, k) && NoneTripped(m, s.pcs, need, k)
      invariant Accounts(m, stream, s.pcs, need, cursor, failed, k)
    {
      if !need[k] {
        StandsThroughSkipped(m, s.pcs, s.decoded, stream, eligible, need, cursor, active, k);
        OnwardFrom(m, stream, s.pcs, s.decoded, cursor, active, failed, k, At(s.pcs, k));
        AccountsThroughSkipped(m, stream, s.pcs, need, cursor, failed, k);
        assert !TripsHere(m, s.pcs, need, k) by { SkippedTripsNone(m, s.pcs, need, k); }
      } else {
        var bytes := s.decoded[k];
        if bytes.None? {
          StopsHere(m, s, eligible, need, k);
          return Stopped, failed;
        }
        var panics;
        cursor, active, failed, panics := SweepOne(m, s.pcs, s.decoded, stream, need, cursor, active, failed, k);
        if panics {
          assert PanicsAt(m, s, eligible, need, k);
          return Panicked, failed;
        }
        var more := EmitOne(s, k, eligible[k], dict, y);
        if more.None? {
          StopsHere(m, s, eligible, need, k);
          return Stopped, failed;
        }
        y := more.value;
      }
    }
    failed := GiveUpRest(m, s.pcs, s.decoded, stream, need, cursor, active, failed);
    r := Through(y);
  }

  /** Where a needed pcluster cannot be dealt with and no cover has tripped, the sweep neither gets through
      nor panics. */
  lemma StopsHere(m: Marks, s: Site, eligible: seq<Elig>, need: seq<bool>, k: nat)
    requires k < |s.pcs| == |s.decoded| && |need| == |eligible| == |s.pcs| && need[k]
    requires NoneTripped(m, s.pcs, need, k) && (s.decoded[k].None? || (!Emits(s, eligible[k], k) && !TripsHere(m, s.pcs, need, k)))
    ensures !EmitsTo(s, eligible, need, |s.pcs|) && !PanicsFirst(m, s, eligible, need)
  {
    hide TripsHere;
  }

  /** Where every pcluster needed can be dealt with, the sweep panics exactly when some cover trips. */
  lemma PanicIsTheTrip(m: Marks, s: Site, eligible: seq<Elig>, need: seq<bool>)
    requires EmitsTo(s, eligible, need, |s.pcs|)
    ensures PanicsFirst(m, s, eligible, need) <==> Trips(m, s.pcs, need)
  {
    hide TripsHere;
    if Trips(m, s.pcs, need) {
      var k: nat :| k < |s.pcs| && TripsHere(m, s.pcs, need, k);
      assert need[k] by { TripNeeds(m, s.pcs, need, k); }
      assert PanicsAt(m, s, eligible, need, k);
    }
  }

  lemma TripNeeds(m: Marks, pcs: seq<StoredPc>, need: seq<bool>, k: nat)
    requires TripsHere(m, pcs, need, k)
    ensures k < |need| && need[k]
  {
  }
}
