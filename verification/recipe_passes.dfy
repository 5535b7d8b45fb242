/**
 The two erofs passes over an image: files that keep pclusters of their own are read back and must
 return their digest, the packed stream is swept, and what either reports is true of the image.
 */
module RecipePasses {
  import opened Wrappers
  import opened ByteStrings
  import opened RecipePlan
  import opened RecipeTree
  import opened RecipeTiling
  import opened RecipeCovers
  import opened RecipePCluster
  import opened RecipePlanning
  import opened RecipeHashing
  import opened RecipeSweep

  /** Bytes with the digest of one of these members are that member's. */
  predicate NotTwin(f: Codecs, truth: seq<Bytes>, sources: set<nat>, b: Bytes) {
    forall idx :: idx in sources && 0 <= idx < |truth| && f.sha256(b) == f.sha256(truth[idx]) ==> b == truth[idx]
  }

  /** No run of the stream is mistaken for a member. */
  ghost predicate NoTwins(f: Codecs, truth: seq<Bytes>, sources: set<nat>, stream: Bytes) {
    forall at: nat, n: nat :: at + n <= |stream| ==> NotTwin(f, truth, sources, Cut(stream, at, n))
  }

  // ------------------------------------------------------------- covers in order

  predicate Before(a: Cover, b: Cover) {
    a.pstart < b.pstart || (a.pstart == b.pstart && a.len >= b.len)
  }

  function InsertCover(c: Cover, covers: seq<Cover>): (r: seq<Cover>)
    ensures forall x :: x in r <==> x == c || x in covers
  {
    if covers == [] || Before(c, covers[0]) then [c] + covers else [covers[0]] + InsertCover(c, covers[1..])
  }

  /** Longest first at a shared start. */
  function SortCovers(covers: seq<Cover>): (r: seq<Cover>)
    ensures forall x :: x in r <==> x in covers
  {
    if covers == [] then [] else InsertCover(covers[0], SortCovers(covers[1..]))
  }

  predicate InLine(covers: seq<Cover>) {
    forall j, k :: 0 <= j < k < |covers| ==>
      covers[j].pstart <= covers[k].pstart && (covers[j].pstart == covers[k].pstart ==> covers[j].len >= covers[k].len)
  }

  lemma {:induction false} InsertKeepsLine(c: Cover, covers: seq<Cover>)
    requires InLine(covers)
    ensures InLine(InsertCover(c, covers))
  {
    if covers != [] && !Before(c, covers[0]) {
      var rest := InsertCover(c, covers[1..]);
      InsertKeepsLine(c, covers[1..]);
      forall j, k | 0 <= j < k < |rest| + 1
        ensures Before(([covers[0]] + rest)[j], ([covers[0]] + rest)[k])
      {
        assert rest[k - 1] in rest;
      }
    }
  }

  lemma {:induction false} SortLinesUp(covers: seq<Cover>)
    ensures InLine(SortCovers(covers)) && SortedByStart(SortCovers(covers))
  {
    if covers != [] {
      SortLinesUp(covers[1..]);
      InsertKeepsLine(covers[0], SortCovers(covers[1..]));
    }
  }

  /** The covers of exactly `[start, start + len)`, in the order they stand in. */
  function Spanning(covers: seq<Cover>, start: nat, len: nat): seq<Cover> {
    if covers == [] then []
    else (if covers[0].pstart == start && covers[0].len == len then [covers[0]] else []) + Spanning(covers[1..], start, len)
  }

  lemma {:induction false} InsertedInFront(c: Cover, covers: seq<Cover>, start: nat, len: nat)
    ensures Spanning(InsertCover(c, covers), start, len) == Spanning([c], start, len) + Spanning(covers, start, len)
  {
    assert Spanning([c][1..], start, len) == [];
    if covers == [] || Before(c, covers[0]) {
      assert ([c] + covers)[1..] == covers;
    } else {
      InsertedInFront(c, covers[1..], start, len);
      assert ([covers[0]] + InsertCover(c, covers[1..]))[1..] == InsertCover(c, covers[1..]);
    }
  }

  lemma SpanningFirst(c: Cover, rest: seq<Cover>, start: nat, len: nat)
    ensures Spanning([c] + rest, start, len) == Spanning([c], start, len) + Spanning(rest, start, len)
  {
    assert ([c] + rest)[1..] == rest && [c][1..] == [];
  }

  /** Sorting leaves covers of the same span in the order they were given. */
  lemma {:induction false} SortIsStable(covers: seq<Cover>, start: nat, len: nat)
    ensures Spanning(SortCovers(covers), start, len) == Spanning(covers, start, len)
  {
    hide InsertCover;
    if covers != [] {
      var c, rest := covers[0], SortCovers(covers[1..]);
      SortIsStable(covers[1..], start, len);
      InsertedInFront(c, rest, start, len);
      SpanningFirst(c, covers[1..], start, len);
      assert [c] + covers[1..] == covers;
    }
  }

  // ------------------------------------------------------------- which pclusters to try

  /** How many bytes of `[at, end)` some cover holds. */
  function CoveredBytes(covers: seq<Cover>, at: nat, end: nat): nat
    decreases end - at
  {
    if at >= end then 0 else (if CoveredBy(covers, at) then 1 else 0) + CoveredBytes(covers, at + 1, end)
  }

  /** Whether a node can pay: its literals, the bytes of its span outside every cover, must be fewer
      than the stored bytes it replaces. */
  function Eligible(covers: seq<Cover>, pc: StoredPc): Elig {
    var covered := CoveredBytes(covers, pc.la, pc.End());
    if covered == 0 then Leave
    else if !pc.lzma then TryVerbatim
    else if pc.llen - covered < pc.plen then TryEncode
    else Leave
  }

  lemma {:induction false} UnionCounts(covers: seq<Cover>, at: nat, end: nat)
    requires forall x: nat :: InSpans(Merged(covers), x) <==> CoveredBy(covers, x)
    ensures CountIn(Merged(covers), at, end) == CoveredBytes(covers, at, end)
    decreases end - at
  {
    if at < end {
      UnionCounts(covers, at + 1, end);
    }
  }

  method PickEligible(covers: seq<Cover>, pcs: seq<StoredPc>) returns (eligible: seq<Elig>)
    requires SortedByStart(covers)
    ensures |eligible| == |pcs| && forall k :: 0 <= k < |pcs| ==> eligible[k] == Eligible(covers, pcs[k])
  {
    var union := MergeSpans(covers);
    MergedCovers(covers);
    eligible := [];
    for k := 0 to |pcs|
      invariant |eligible| == k && forall j :: 0 <= j < k ==> eligible[j] == Eligible(covers, pcs[j])
    {
      var pc := pcs[k];
      var covered := Overlap(union, pc.la, pc.llen);
      UnionCounts(covers, pc.la, pc.End());
      var e := if covered == 0 then Leave
        else if !pc.lzma then TryVerbatim
        else if pc.llen - covered < pc.plen then TryEncode
        else Leave;
      eligible := eligible + [e];
    }
  }

  predicate Touches(cv: Cover, pcs: seq<StoredPc>, eligible: seq<Elig>)
    requires |eligible| == |pcs|
  {
    exists k :: 0 <= k < |pcs| && !eligible[k].Leave? && Overlaps(cv, pcs[k])
  }

  /** The covers worth verifying, in order. */
  function InUse(covers: seq<Cover>, pcs: seq<StoredPc>, eligible: seq<Elig>): (r: seq<Cover>)
    requires |eligible| == |pcs|
    ensures forall cv :: cv in r <==> cv in covers && Touches(cv, pcs, eligible)
  {
    if covers == [] then []
    else (if Touches(covers[0], pcs, eligible) then [covers[0]] else []) + InUse(covers[1..], pcs, eligible)
  }

  lemma {:induction false} InUseKeepsLine(covers: seq<Cover>, pcs: seq<StoredPc>, eligible: seq<Elig>)
    requires |eligible| == |pcs| && InLine(covers)
    ensures InLine(InUse(covers, pcs, eligible))
  {
    if covers != [] {
      var rest := InUse(covers[1..], pcs, eligible);
      InUseKeepsLine(covers[1..], pcs, eligible);
      forall k | 0 <= k < |rest|
        ensures Before(covers[0], rest[k])
      {
        assert rest[k] in rest;
      }
    }
  }

  lemma {:induction false} InUseStarts(covers: seq<Cover>, pcs: seq<StoredPc>, eligible: seq<Elig>)
    requires |eligible| == |pcs| && SortedByStart(covers)
    ensures SortedByStart(InUse(covers, pcs, eligible))
  {
    if covers != [] {
      var rest := InUse(covers[1..], pcs, eligible);
      InUseStarts(covers[1..], pcs, eligible);
      forall k | 0 <= k < |rest|
        ensures covers[0].pstart <= rest[k].pstart
      {
        assert rest[k] in rest;
      }
    }
  }

  predicate Inside(x: nat, start: nat, len: nat) {
    start <= x < start + len
  }

  /** The pcluster has a byte of `[start, start + len)`. */
  ghost predicate HasByteOf(pc: StoredPc, start: nat, len: nat) {
    exists x: nat :: Inside(x, start, len) && Inside(x, pc.la, pc.llen)
  }

  lemma OverlappingShares(cv: Cover, pc: StoredPc)
    requires cv.len > 0 && pc.llen > 0
    ensures Overlaps(cv, pc) <==> HasByteOf(pc, cv.pstart, cv.len)
  {
    if Overlaps(cv, pc) {
      var x := Max(cv.pstart, pc.la);
      assert Inside(x, cv.pstart, cv.len) && Inside(x, pc.la, pc.llen);
    }
  }

  ghost predicate Serves(start: nat, len: nat, pcs: seq<StoredPc>, eligible: seq<Elig>)
    requires |eligible| == |pcs|
  {
    exists k :: 0 <= k < |pcs| && !eligible[k].Leave? && HasByteOf(pcs[k], start, len)
  }

  lemma TouchingServes(cv: Cover, pcs: seq<StoredPc>, eligible: seq<Elig>)
    requires |eligible| == |pcs| && cv.len > 0 && forall k :: 0 <= k < |pcs| ==> pcs[k].llen > 0
    ensures Touches(cv, pcs, eligible) <==> Serves(cv.pstart, cv.len, pcs, eligible)
  {
    hide Overlaps, HasByteOf;
    forall k | 0 <= k < |pcs|
      ensures Overlaps(cv, pcs[k]) <==> HasByteOf(pcs[k], cv.pstart, cv.len)
    {
      OverlappingShares(cv, pcs[k]);
    }
  }

  lemma {:induction false} InUseOfSpan(covers: seq<Cover>, pcs: seq<StoredPc>, eligible: seq<Elig>, start: nat, len: nat)
    requires |eligible| == |pcs| && len > 0 && forall k :: 0 <= k < |pcs| ==> pcs[k].llen > 0
    ensures Spanning(InUse(covers, pcs, eligible), start, len) == if Serves(start, len, pcs, eligible) then Spanning(covers, start, len) else []
  {
    hide Touches, Serves;
    if covers != [] {
      var cv, rest := covers[0], InUse(covers[1..], pcs, eligible);
      InUseOfSpan(covers[1..], pcs, eligible, start, len);
      assert ([cv] + rest)[1..] == rest && [] + rest == rest;
      if cv.pstart == start && cv.len == len {
        TouchingServes(cv, pcs, eligible);
      }
    }
  }

  /** The covers in use are those that share a byte with an eligible pcluster, by where they start and then the
      longest first, those of the same span in the order they were given. */
  lemma UsedInLine(covers: seq<Cover>, pcs: seq<StoredPc>, start: nat, len: nat)
    requires len > 0 && forall k :: 0 <= k < |pcs| ==> pcs[k].llen > 0
    ensures var used := UsedHere(covers, pcs);
            && InLine(used)
            && Spanning(used, start, len) == if Serves(start, len, pcs, EligibleHere(covers, pcs)) then Spanning(covers, start, len) else []
  {
    SortLinesUp(covers);
    SortIsStable(covers, start, len);
    InUseKeepsLine(SortCovers(covers), pcs, EligibleHere(covers, pcs));
    InUseOfSpan(SortCovers(covers), pcs, EligibleHere(covers, pcs), start, len);
  }

  /** A pcluster has to be decoded if something is to be made of it, or a cover that is yet to be hashed may have
      bytes in it. */
  function Needed(used: seq<Cover>, pcs: seq<StoredPc>, eligible: seq<Elig>): (r: seq<bool>)
    requires |eligible| == |pcs|
    ensures |r| == |pcs|
    ensures forall k :: 0 <= k < |pcs| ==> (r[k] <==> !eligible[k].Leave? || exists cv :: cv in used && !cv.proved && Overlaps(cv, pcs[k]))
  {
    var need := seq(|pcs|, k requires 0 <= k < |pcs| =>
      !eligible[k].Leave? || exists ci :: 0 <= ci < |used| && !used[ci].proved && Overlaps(used[ci], pcs[k]));
    assert forall k :: 0 <= k < |pcs| ==> (need[k] <==> !eligible[k].Leave? || exists cv :: cv in used && !cv.proved && Overlaps(cv, pcs[k]));
    need
  }

  // ------------------------------------------------------------- the packed pass

  /** What the file list says about the packed stream: whole files by their own claim, tails only
      where the file pass proved them, all of them members the passes may slice. */
  predicate Claims(w: World, truth: seq<Bytes>, stream: Bytes, sources: set<nat>, cv: Cover) {
    && cv.idx in sources && cv.idx < |truth| == |w.members| && w.members[cv.idx].sha256.Some?
    && (if cv.proved then CoverHolds(truth, stream, cv) else cv.from == 0 && cv.len == |truth[cv.idx]|)
  }

  /** The findings left once those that slice a member given up are dropped. */
  function Kept(s: Site, y: Yield, failed: set<nat>): seq<Found>
    requires forall n :: n in y.nodes ==> n.0 < |s.pcs|
  {
    KeptSegs(y.segs, failed) + KeptNodes(s, y.nodes, failed)
  }

  function KeptSegs(segs: seq<Seg>, failed: set<nat>): (r: seq<Found>)
    ensures forall x :: x in r ==> x.Splice? && x.seg in segs && (x.seg.Tabled? ==> x.seg.idx !in failed)
  {
    if segs == [] then []
    else (if segs[0].Tabled? && segs[0].idx in failed then [] else [Splice(segs[0])]) + KeptSegs(segs[1..], failed)
  }

  function KeptNodes(s: Site, nodes: seq<(nat, PClusterNode)>, failed: set<nat>): (r: seq<Found>)
    requires forall n :: n in nodes ==> n.0 < |s.pcs|
    ensures forall x :: x in r ==> x.Node? && PartsOf(x.node.inputs) !! failed && exists n :: n in nodes && x == Node(n.1, s.pcs[n.0].pa)
  {
    if nodes == [] then []
    else
      (if PartsOf(nodes[0].1.inputs) !! failed then [Node(nodes[0].1, s.pcs[nodes[0].0].pa)] else [])
      + KeptNodes(s, nodes[1..], failed)
  }

  /** These numbers and no others, in order. */
  ghost predicate InOrderOf(good: set<nat>, at: seq<nat>) {
    && (forall a, b :: 0 <= a < b < |at| ==> at[a] < at[b])
    && (forall i :: i in at <==> i in good)
  }

  predicate SegStays(segs: seq<Seg>, failed: set<nat>, i: nat) {
    i < |segs| && !(segs[i].Tabled? && segs[i].idx in failed)
  }

  predicate NodeStays(nodes: seq<(nat, PClusterNode)>, failed: set<nat>, i: nat) {
    i < |nodes| && forall k :: 0 <= k < |nodes[i].1.inputs| && nodes[i].1.inputs[k].Part? ==> nodes[i].1.inputs[k].idx !in failed
  }

  /** The places from `k` on whose splice, or whose node, slices no member given up. */
  function SegsStaying(segs: seq<Seg>, failed: set<nat>, k: nat): set<nat> {
    set i: nat | k <= i < |segs| && SegStays(segs, failed, i)
  }

  function NodesStaying(nodes: seq<(nat, PClusterNode)>, failed: set<nat>, k: nat): set<nat> {
    set i: nat | k <= i < |nodes| && NodeStays(nodes, failed, i)
  }

  /** `found` is what the sweep produced without what slices a member given up, splices first, each kind in
      the sweep's order: `at` and `nt` are the places in the sweep's lists of what is kept. */
  ghost predicate KeptAt(s: Site, y: Yield, failed: set<nat>, found: seq<Found>, at: seq<nat>, nt: seq<nat>) {
    && InOrderOf(SegsStaying(y.segs, failed, 0), at) && InOrderOf(NodesStaying(y.nodes, failed, 0), nt)
    && |found| == |at| + |nt|
    && (forall k :: 0 <= k < |at| ==> at[k] < |y.segs| && found[k] == Splice(y.segs[at[k]]))
    && (forall k :: 0 <= k < |nt| ==>
          nt[k] < |y.nodes| && y.nodes[nt[k]].0 < |s.pcs| && found[|at| + k] == Node(y.nodes[nt[k]].1, s.pcs[y.nodes[nt[k]].0].pa))
  }

  ghost predicate KeptExactly(s: Site, y: Yield, failed: set<nat>, found: seq<Found>) {
    exists at, nt :: KeptAt(s, y, failed, found, at, nt)
  }

  lemma FrontInOrder(k: nat, stays: bool, good: set<nat>, rest: set<nat>, at: seq<nat>)
    requires InOrderOf(rest, at) && (forall i :: i in rest ==> k < i) && good == (if stays then {k} else {}) + rest
    ensures InOrderOf(good, (if stays then [k] else []) + at)
  {
    var all := (if stays then [k] else []) + at;
    forall i
      ensures i in all <==> i in good
    {
      assert i in at <==> i in rest;
    }
    forall a, b | 0 <= a < b < |all|
      ensures all[a] < all[b]
    {
      if stays && a == 0 {
        assert all[b] in at;
      }
    }
  }

  lemma {:induction false} SegsInOrder(segs: seq<Seg>, failed: set<nat>, k: nat) returns (at: seq<nat>)
    requires k <= |segs|
    ensures InOrderOf(SegsStaying(segs, failed, k), at) && |KeptSegs(segs[k..], failed)| == |at|
    ensures forall j :: 0 <= j < |at| ==> at[j] < |segs| && KeptSegs(segs[k..], failed)[j] == Splice(segs[at[j]])
    decreases |segs| - k
  {
    hide InOrderOf;
    if k == |segs| {
      at := [];
      NoneInOrder(SegsStaying(segs, failed, k));
    } else {
      var rest := SegsInOrder(segs, failed, k + 1);
      var stays := SegStays(segs, failed, k);
      assert segs[k..][1..] == segs[k + 1..];
      assert SegsStaying(segs, failed, k) == (if stays then {k} else {}) + SegsStaying(segs, failed, k + 1);
      FrontInOrder(k, stays, SegsStaying(segs, failed, k), SegsStaying(segs, failed, k + 1), rest);
      at := (if stays then [k] else []) + rest;
    }
  }

  lemma NoneInOrder(good: set<nat>)
    ensures good == {} ==> InOrderOf(good, [])
  {
  }

  lemma {:induction false} NodesInOrder(s: Site, nodes: seq<(nat, PClusterNode)>, failed: set<nat>, k: nat) returns (at: seq<nat>)
    requires k <= |nodes| && forall n :: n in nodes ==> n.0 < |s.pcs|
    ensures InOrderOf(NodesStaying(nodes, failed, k), at) && |KeptNodes(s, nodes[k..], failed)| == |at|
    ensures forall j :: 0 <= j < |at| ==>
              at[j] < |nodes| && nodes[at[j]].0 < |s.pcs| && KeptNodes(s, nodes[k..], failed)[j] == Node(nodes[at[j]].1, s.pcs[nodes[at[j]].0].pa)
    decreases |nodes| - k
  {
    hide InOrderOf, NodeStays;
    if k == |nodes| {
      at := [];
      NoneInOrder(NodesStaying(nodes, failed, k));
    } else {
      var rest := NodesInOrder(s, nodes, failed, k + 1);
      var stays := NodeStays(nodes, failed, k);
      assert nodes[k..][1..] == nodes[k + 1..];
      StaysIff(nodes, failed, k);
      assert nodes[k] in nodes;
      assert NodesStaying(nodes, failed, k) == (if stays then {k} else {}) + NodesStaying(nodes, failed, k + 1);
      FrontInOrder(k, stays, NodesStaying(nodes, failed, k), NodesStaying(nodes, failed, k + 1), rest);
      at := (if stays then [k] else []) + rest;
    }
  }

  lemma StaysIff(nodes: seq<(nat, PClusterNode)>, failed: set<nat>, k: nat)
    requires k < |nodes|
    ensures NodeStays(nodes, failed, k) <==> PartsOf(nodes[k].1.inputs) !! failed
  {
    var inputs := nodes[k].1.inputs;
    if PartsOf(inputs) !! failed {
      forall j | 0 <= j < |inputs| && inputs[j].Part?
        ensures inputs[j].idx !in failed
      {
        assert inputs[j].idx in PartsOf(inputs);
      }
    }
  }

  lemma {:induction false} KeptIsExact(s: Site, y: Yield, failed: set<nat>)
    requires forall n :: n in y.nodes ==> n.0 < |s.pcs|
    ensures KeptExactly(s, y, failed, Kept(s, y, failed))
  {
    hide KeptSegs, KeptNodes, InOrderOf, SegsStaying, NodesStaying;
    var at := SegsInOrder(y.segs, failed, 0);
    var nt := NodesInOrder(s, y.nodes, failed, 0);
    assert y.segs[0..] == y.segs && y.nodes[0..] == y.nodes;
    assert KeptAt(s, y, failed, Kept(s, y, failed), at, nt);
  }

  /** How the packed pass ends: with findings and the spool as the sweep left it, with the spool gone
      because the sweep took it and failed, or in a panic. */
  datatype PackedEnd = Reported(found: seq<Found>, literals: Bytes) | Lost | Tripped

  function EligibleOf(covers: seq<Cover>, pcs: seq<StoredPc>): seq<Elig> {
    seq(|pcs|, k requires 0 <= k < |pcs| => Eligible(covers, pcs[k]))
  }

  /** What the packed pass is about: what the covers make worth trying, the covers in use for that, and
      what must decode. */
  function EligibleHere(covers: seq<Cover>, pcs: seq<StoredPc>): seq<Elig> {
    EligibleOf(SortCovers(covers), pcs)
  }

  function UsedHere(covers: seq<Cover>, pcs: seq<StoredPc>): seq<Cover> {
    InUse(SortCovers(covers), pcs, EligibleHere(covers, pcs))
  }

  function NeedHere(covers: seq<Cover>, pcs: seq<StoredPc>): seq<bool> {
    Needed(UsedHere(covers, pcs), pcs, EligibleHere(covers, pcs))
  }

  function MarksHere(w: World, covers: seq<Cover>, pcs: seq<StoredPc>, checked: bool): (r: Marks)
    ensures r.checked == checked && r.used == UsedHere(covers, pcs)
    ensures forall idx :: 0 <= idx < |w.members| && w.members[idx].sha256.Some? ==> r.digests(idx) == w.members[idx].sha256.value
  {
    Marks(w.f, UsedHere(covers, pcs), idx => DigestOf(w, idx), checked)
  }

  function SiteHere(w: World, image: Bytes, covers: seq<Cover>, pcs: seq<StoredPc>, decoded: seq<Option<Bytes>>): Site {
    Site(w.f, image, UsedHere(covers, pcs), pcs, decoded)
  }

  /** Some pcluster is worth trying. */
  predicate Tries(covers: seq<Cover>, pcs: seq<StoredPc>) {
    exists k :: 0 <= k < |pcs| && !Eligible(SortCovers(covers), pcs[k]).Leave?
  }

  /** Every pcluster the pass needs can be dealt with. */
  predicate AllEmit(w: World, image: Bytes, covers: seq<Cover>, pcs: seq<StoredPc>, decoded: seq<Option<Bytes>>) {
    EmitsTo(SiteHere(w, image, covers, pcs, decoded), EligibleHere(covers, pcs), NeedHere(covers, pcs), |pcs|)
  }

  /** A cover of the pass trips over a hole of the stream, and nothing before that goes wrong. */
  predicate HoleTrips(w: World, image: Bytes, covers: seq<Cover>, pcs: seq<StoredPc>, decoded: seq<Option<Bytes>>, checked: bool) {
    PanicsFirst(MarksHere(w, covers, pcs, checked), SiteHere(w, image, covers, pcs, decoded), EligibleHere(covers, pcs), NeedHere(covers, pcs))
  }

  /** All the sweep of the pass produces. */
  function YieldHere(w: World, image: Bytes, covers: seq<Cover>, pcs: seq<StoredPc>, decoded: seq<Option<Bytes>>, literals: Bytes, dict: nat,
                     known: Option<nat>): (y: Yield)
    requires AllEmit(w, image, covers, pcs, decoded)
    ensures forall n :: n in y.nodes ==> n.0 < |pcs| && EligibleHere(covers, pcs)[n.0].TryEncode?
  {
    EmittedTo(SiteHere(w, image, covers, pcs, decoded), EligibleHere(covers, pcs), NeedHere(covers, pcs), dict,
              Yield([], [], literals, known), |pcs|)
  }

  /** How the packed pass over these covers ends, and with what. */
  function PackedOf(w: World, image: Bytes, pcs: seq<StoredPc>, decoded: seq<Option<Bytes>>, stream: Bytes, covers: seq<Cover>,
                    literals: Bytes, dict: nat, known: Option<nat>, checked: bool): PackedEnd
  {
    if !Tries(covers, pcs) then Reported([], literals)
    else if HoleTrips(w, image, covers, pcs, decoded, checked) then Tripped
    else if !AllEmit(w, image, covers, pcs, decoded) then Lost
    else
      var y := YieldHere(w, image, covers, pcs, decoded, literals, dict, known);
      var failed := FailedOf(MarksHere(w, covers, pcs, checked), stream, pcs, NeedHere(covers, pcs));
      Reported(Kept(SiteHere(w, image, covers, pcs, decoded), y, failed), y.spool)
  }

  /** Pass two: plan against the packed inode. With anything to try, it panics exactly when a cover trips
      over a hole before anything else goes wrong, and otherwise loses the spool exactly when some needed
      pcluster cannot be dealt with; it reports all the sweep produced but what slices a member with a cover
      that did not come back, in the sweep's order. */
  method PackedPass(w: World, image: Bytes, pcs: seq<StoredPc>, decoded: seq<Option<Bytes>>, ghost stream: Bytes, covers: seq<Cover>,
                    literals: Bytes, dict: nat, known: Option<nat>, checked: bool)
    returns (r: PackedEnd)
    requires PackedStream(pcs, decoded, stream)
    ensures r == PackedOf(w, image, pcs, decoded, stream, covers, literals, dict, known, checked)
    ensures r.Reported? && Tries(covers, pcs) ==>
              && AllEmit(w, image, covers, pcs, decoded) && !HoleTrips(w, image, covers, pcs, decoded, checked)
              && KeptExactly(SiteHere(w, image, covers, pcs, decoded), YieldHere(w, image, covers, pcs, decoded, literals, dict, known),
                             FailedOf(MarksHere(w, covers, pcs, checked), stream, pcs, NeedHere(covers, pcs)), r.found)
    ensures r.Reported? && !Tries(covers, pcs) ==> r == Reported([], literals)
  {
    hide PackedStream, KeptExactly, Eligible, Trips, InUse, Needed, NeedHolds, FailedOf, SortedByStart, EmittedTo;
    var sorted := SortCovers(covers);
    SortLinesUp(covers);
    var eligible := PickEligible(sorted, pcs);
    assert eligible == EligibleHere(covers, pcs);
    NothingToTry(covers, pcs);
    if covers == [] || forall k :: 0 <= k < |pcs| ==> eligible[k].Leave? {
      return Reported([], literals);
    }
    assert Tries(covers, pcs);
    var used := InUse(sorted, pcs, eligible);
    var need := Needed(used, pcs, eligible);
    var m := MarksHere(w, covers, pcs, checked);
    var s := SiteHere(w, image, covers, pcs, decoded);
    UseIsReady(m, sorted, pcs, eligible);
    NeedIsThere(m, pcs, eligible, need);
    var swept, failed := Sweep(m, s, stream, eligible, need, dict, literals, known);
    if EmitsTo(s, eligible, need, |pcs|) {
      PanicIsTheTrip(m, s, eligible, need);
    }
    if swept.Panicked? {
      return Tripped;
    }
    if swept.Stopped? {
      return Lost;
    }
    KeptIsExact(s, swept.y, failed);
    r := Reported(Kept(s, swept.y, failed), swept.y.spool);
  }

  /** Where every needed pcluster can be dealt with, the pass panics exactly when some cover trips. */
  lemma TrippedIff(w: World, image: Bytes, pcs: seq<StoredPc>, decoded: seq<Option<Bytes>>, stream: Bytes, covers: seq<Cover>,
                   literals: Bytes, dict: nat, known: Option<nat>, checked: bool)
    requires Tries(covers, pcs) && AllEmit(w, image, covers, pcs, decoded)
    ensures PackedOf(w, image, pcs, decoded, stream, covers, literals, dict, known, checked).Tripped? <==>
            Trips(MarksHere(w, covers, pcs, checked), pcs, NeedHere(covers, pcs))
  {
    PanicIsTheTrip(MarksHere(w, covers, pcs, checked), SiteHere(w, image, covers, pcs, decoded), EligibleHere(covers, pcs), NeedHere(covers, pcs));
  }

  /** A stream without holes trips nothing. */
  lemma SolidNeverTrips(w: World, image: Bytes, covers: seq<Cover>, pcs: seq<StoredPc>, decoded: seq<Option<Bytes>>, checked: bool)
    requires forall k :: 0 <= k < |pcs| ==> NoHoleAfter(pcs, k)
    ensures !HoleTrips(w, image, covers, pcs, decoded, checked)
  {
    hide TripsHere;
    WithoutHolesNothingTrips(MarksHere(w, covers, pcs, checked), pcs, NeedHere(covers, pcs));
  }

  lemma NothingToTry(covers: seq<Cover>, pcs: seq<StoredPc>)
    ensures covers == [] ==> forall k :: 0 <= k < |pcs| ==> Eligible(SortCovers(covers), pcs[k]).Leave?
  {
    if covers == [] {
      forall k | 0 <= k < |pcs|
        ensures Eligible([], pcs[k]).Leave?
      {
        NoneCovered(pcs[k].la, pcs[k].End());
      }
    }
  }

  lemma {:induction false} NoneCovered(at: nat, end: nat)
    ensures CoveredBytes([], at, end) == 0
    decreases end - at
  {
    if at < end {
      NoneCovered(at + 1, end);
    }
  }

  lemma UseIsReady(m: Marks, sorted: seq<Cover>, pcs: seq<StoredPc>, eligible: seq<Elig>)
    requires |eligible| == |pcs| && SortedByStart(sorted) && m.used == InUse(sorted, pcs, eligible)
    requires forall k :: 0 <= k < |pcs| ==> eligible[k] == Eligible(sorted, pcs[k])
    ensures SortedByStart(m.used) && NeedHolds(m, pcs, eligible, Needed(m.used, pcs, eligible))
    ensures forall k :: 0 <= k < |pcs| && eligible[k].TryEncode? ==> pcs[k].lzma
    ensures forall cv :: cv in m.used ==> cv in sorted
  {
    InUseStarts(sorted, pcs, eligible);
  }

  function DigestOf(w: World, idx: nat): Digest {
    if idx < |w.members| && w.members[idx].sha256.Some? then w.members[idx].sha256.value else []
  }

  /** A cover whose member was not given up holds: it was proved before, or its bytes hashed to the
      member's digest. */
  lemma CoverIsTrue(w: World, truth: seq<Bytes>, m: Marks, stream: Bytes, sources: set<nat>, cv: Cover)
    requires Unchanged(w, truth) && NoTwins(w.f, truth, sources, stream) && Claims(w, truth, stream, sources, cv)
    requires m.f == w.f && m.digests(cv.idx) == DigestOf(w, cv.idx)
    requires !cv.proved ==> Verified(m, stream, cv)
    ensures CoverHolds(truth, stream, cv)
  {
    assert MemberTrue(w, truth, cv.idx);
    if !cv.proved {
      assert NotTwin(w.f, truth, sources, Cut(stream, cv.pstart, cv.len));
      assert Cut(truth[cv.idx], 0, cv.len) == truth[cv.idx];
    }
  }

  // ------------------------------------------------------------- what the pass reports is true

  /** A node at a pcluster whose window shows a hole under a cover. */
  ghost predicate Unsure(s: Site, stream: Bytes, eligible: seq<Elig>, x: Found) {
    exists k: nat :: UnsureAt(s, stream, eligible, x, k)
  }

  predicate UnsureAt(s: Site, stream: Bytes, eligible: seq<Elig>, x: Found, k: nat) {
    k < |s.pcs| == |eligible| && eligible[k].TryEncode? && x.Node? && x.pa == s.pcs[k].pa && !WindowAgrees(s, stream, k)
  }

  lemma KeptIsTrue(w: World, truth: seq<Bytes>, i: nat, m: Marks, s: Site, stream: Bytes, need: seq<bool>, eligible: seq<Elig>, sources: set<nat>,
                   y: Yield)
    requires Unchanged(w, truth) && NoTwins(w.f, truth, sources, stream) && i < |truth| && s.image == truth[i] && s.f == m.f == w.f
    requires m.used == s.used && (forall idx :: m.digests(idx) == DigestOf(w, idx)) && |eligible| == |s.pcs|
    requires forall cv :: cv in s.used ==> Claims(w, truth, stream, sources, cv)
    requires YieldSound(s, truth, stream, y) && forall n :: n in y.nodes ==> n.0 < |s.pcs| && eligible[n.0].TryEncode?
    ensures forall x :: x in Kept(s, y, FailedOf(m, stream, s.pcs, need)) ==>
              FoundHolds(w, truth, i, sources, y.spool, x) || Unsure(s, stream, eligible, x)
  {
    hide Unchanged, NoTwins, NodeHolds, CoverHolds, WindowAgrees, FailedOf;
    var failed := FailedOf(m, stream, s.pcs, need);
    forall idx | idx !in failed
      ensures CoversOf(truth, stream, s.used, idx)
    {
      NotFailedHolds(w, truth, m, s, stream, need, sources, idx);
    }
    forall x | x in Kept(s, y, failed)
      ensures FoundHolds(w, truth, i, sources, y.spool, x) || Unsure(s, stream, eligible, x)
    {
      if x.Node? {
        var n :| n in y.nodes && x == Node(n.1, s.pcs[n.0].pa);
        assert NodeSound(s, truth, stream, y.spool, n.0, n.1);
        assert PartsHold(truth, stream, s.used, n.1);
        if !WindowAgrees(s, stream, n.0) {
          assert UnsureAt(s, stream, eligible, x, n.0);
        }
      } else {
        assert SegSound(s, truth, stream, x.seg);
      }
    }
  }

  lemma NotFailedHolds(w: World, truth: seq<Bytes>, m: Marks, s: Site, stream: Bytes, need: seq<bool>, sources: set<nat>, idx: nat)
    requires Unchanged(w, truth) && NoTwins(w.f, truth, sources, stream) && s.f == m.f == w.f
    requires m.used == s.used && (forall idx :: m.digests(idx) == DigestOf(w, idx))
    requires forall cv :: cv in s.used ==> Claims(w, truth, stream, sources, cv)
    requires idx !in FailedOf(m, stream, s.pcs, need)
    ensures CoversOf(truth, stream, s.used, idx)
  {
    hide Unchanged, NoTwins, CoverHolds, Claims;
    forall cv | cv in s.used && cv.idx == idx
      ensures CoverHolds(truth, stream, cv)
    {
      var ci :| 0 <= ci < |m.used| && m.used[ci] == cv;
      assert !Fails(m, stream, s.pcs, need, ci);
      CoverIsTrue(w, truth, m, stream, sources, cv);
    }
  }

  /** Whatever the packed pass reports is true of the image, but for a node whose encoder was fed over a
      hole that shows under a cover. */
  lemma PackedIsTrue(w: World, truth: seq<Bytes>, i: nat, image: Bytes, pcs: seq<StoredPc>, decoded: seq<Option<Bytes>>, stream: Bytes,
                     covers: seq<Cover>, sources: set<nat>, literals: Bytes, dict: nat, known: Option<nat>, checked: bool)
    requires Unchanged(w, truth) && i < |truth| && image == truth[i] && PackedStream(pcs, decoded, stream)
    requires NoTwins(w.f, truth, sources, stream) && forall cv :: cv in covers ==> Claims(w, truth, stream, sources, cv)
    ensures var r := PackedOf(w, image, pcs, decoded, stream, covers, literals, dict, known, checked);
            r.Reported? ==>
              && literals <= r.literals
              && forall x :: x in r.found ==>
                   || FoundHolds(w, truth, i, sources, r.literals, x)
                   || Unsure(SiteHere(w, image, covers, pcs, decoded), stream, EligibleHere(covers, pcs), x)
  {
    hide Unchanged, PackedStream, NoTwins, Claims, Eligible, HoleTrips, InUse, Needed, FailedOf, YieldSound, FoundHolds, Unsure;
    if PackedOf(w, image, pcs, decoded, stream, covers, literals, dict, known, checked).Reported? && Tries(covers, pcs) {
      var s, m := SiteHere(w, image, covers, pcs, decoded), MarksHere(w, covers, pcs, checked);
      var eligible, need := EligibleHere(covers, pcs), NeedHere(covers, pcs);
      var y0 := Yield([], [], literals, known);
      assert YieldSound(s, truth, stream, y0) by { NothingYielded(s, truth, stream, literals, known); }
      EmittedIsSound(s, truth, stream, eligible, need, dict, y0, |pcs|);
      assert forall cv :: cv in s.used ==> cv in covers;
      KeptIsTrue(w, truth, i, m, s, stream, need, eligible, sources, YieldHere(w, image, covers, pcs, decoded, literals, dict, known));
    }
  }

  lemma NothingYielded(s: Site, truth: seq<Bytes>, stream: Bytes, spool: Bytes, known: Option<nat>)
    ensures YieldSound(s, truth, stream, Yield([], [], spool, known))
  {
  }

  // ------------------------------------------------------------- the file pass

  /** How far the window reaches after reading forward until it has `want` or the file ends; each read hands
      over what is left of an extent, up to a buffer. */
  function FillTo(file: Bytes, step: nat -> nat, from: nat, want: nat): (to: nat)
    requires from <= |file|
    ensures from <= to <= |file|
    ensures want <= to || to == |file| || step(to) == 0
    decreases |file| - from
  {
    var n := Min(Min(step(from), 0x1_0000), |file| - from);
    if from >= want || n == 0 then from else FillTo(file, step, from + n, want)
  }

  method Fill(file: Bytes, step: nat -> nat, from: nat, want: nat) returns (to: nat)
    requires from <= |file|
    ensures to == FillTo(file, step, from, want)
  {
    to := from;
    while to < want
      invariant from <= to <= |file| && FillTo(file, step, to, want) == FillTo(file, step, from, want)
      decreases |file| - to
    {
      var n := Min(Min(step(to), 0x1_0000), |file| - to);
      if n == 0 {
        break;
      }
      to := to + n;
    }
  }

  datatype FileYield = FileYield(found: seq<Found>, spool: Bytes, known: Option<nat>, to: nat, at: nat)

  function WholeCover(idx: nat, file: Bytes): seq<Cover> {
    [Cover(idx, 0, 0, |file|, true)]
  }

  /** How one file's pass ends: with findings, its bytes proved to be its member's; refused, with
      nothing; or cut short by a truncated image. */
  datatype FileEnd = Proved(found: seq<Found>, known: Option<nat>) | NotProved(notKnown: Option<nat>) | Truncated

  datatype FileRun = Running(y: FileYield) | Ended(end: FileEnd)

  /** The file being planned: its member, the image, and how its reads come. */
  datatype OwnFile = OwnFile(f: Codecs, image: Bytes, idx: nat, file: Bytes, step: nat -> nat, dict: nat)

  function AsFound(segs: seq<Seg>): (r: seq<Found>)
    ensures |r| == |segs| && forall k :: 0 <= k < |r| ==> r[k] == Splice(segs[k])
  {
    if segs == [] then [] else [Splice(segs[0])] + AsFound(segs[1..])
  }

  /** The verbatim and rotated arms of the file pass. */
  function OwnSplicesOf(o: OwnFile, pc: StoredPc, logical: nat): seq<Seg>
    requires pc.la + logical <= |o.file| && pc.pa + pc.plen <= |o.image|
  {
    var covers, bytes, stored := WholeCover(o.idx, o.file), o.file[pc.la..pc.la + logical], Cut(o.image, pc.pa, pc.plen);
    if |stored| >= logical && stored[..logical] == bytes then SpanSplices(covers, pc.la, logical, pc.pa)
    else if CanRotate(pc.plen, pc.skip, bytes, stored) then RotatedSplices(covers, pc.la, pc.pa, pc.plen, pc.skip.value)
    else []
  }

  /** With one of the file's own pclusters re-encoded or spliced from the window `[la, to)`. */
  function OwnOne(o: OwnFile, pc: StoredPc, goesOn: bool, y: FileYield): Option<FileYield>
    requires pc.la < y.to <= |o.file|
  {
    if pc.pa + pc.plen > |o.image| then None
    else if pc.lzma then
      match PlannedOf(o.f, pc, Cut(o.image, pc.pa, pc.plen), o.file[pc.la..y.to], goesOn, WholeCover(o.idx, o.file), y.known, o.dict, y.spool)
      case (NodeMade(node, preset), out) => Some(y.(found := y.found + [Node(node, pc.pa)], spool := out, known := Some(preset)))
      case (_, out) => Some(y.(spool := out))
    else Some(y.(found := y.found + AsFound(OwnSplicesOf(o, pc, Min(pc.llen, y.to - pc.la)))))
  }

  function OwnNext(o: OwnFile, pc: StoredPc, y0: FileYield): (r: FileRun)
    requires y0.to <= |o.file|
    ensures r.Running? ==> y0.to <= r.y.to <= |o.file|
  {
    var want := pc.End() + ENCODE_MARGIN;
    var y := y0.(to := FillTo(o.file, o.step, y0.to, want));
    if pc.la < y.at then Ended(NotProved(y.known))
    else if pc.la >= y.to then Running(y)
    else
      match OwnOne(o, pc, y.to >= want, y)
      case None => Ended(Truncated)
      case Some(more) => Running(if pc.End() > more.at then more.(at := Min(pc.End(), y.to)) else more)
  }

  /** The file's pass before its pcluster `k`. */
  function OwnTo(o: OwnFile, pcs: seq<StoredPc>, known: Option<nat>, k: nat): (r: FileRun)
    requires k <= |pcs|
    ensures r.Running? ==> r.y.to <= |o.file|
  {
    if k == 0 then Running(FileYield([], [], known, 0, 0))
    else
      match OwnTo(o, pcs, known, k - 1)
      case Running(y) => OwnNext(o, pcs[k - 1], y)
      case Ended(end) => Ended(end)
  }

  /** How the whole pass over a file ends: its findings count only if what was read has the member's digest. */
  function OwnFileOf(o: OwnFile, pcs: seq<StoredPc>, digest: Digest, known: Option<nat>): FileEnd {
    match OwnTo(o, pcs, known, |pcs|)
    case Running(y) =>
      if o.f.sha256(o.file[..FillTo(o.file, o.step, y.to, |o.file|)]) == digest then Proved(y.found, y.known) else NotProved(y.known)
    case Ended(end) => end
  }

  /** Re-encode or splice one of the file's own pclusters from the window `[la, to)`. */
  method OwnPCluster(o: OwnFile, pc: StoredPc, goesOn: bool, y: FileYield) returns (r: Option<FileYield>)
    requires pc.la < y.to <= |o.file|
    ensures r == OwnOne(o, pc, goesOn, y)
  {
    hide PlannedOf, RotatedSplices, SpanSplices;
    if pc.pa + pc.plen > |o.image| {
      return None;
    }
    var stored, window, covers := Cut(o.image, pc.pa, pc.plen), o.file[pc.la..y.to], WholeCover(o.idx, o.file);
    if pc.lzma {
      var planned, out := PlanPCluster(o.f, pc, stored, window, goesOn, covers, y.known, o.dict, y.spool);
      if planned.NodeMade? {
        r := Some(y.(found := y.found + [Node(planned.node, pc.pa)], spool := out, known := Some(planned.preset)));
      } else {
        r := Some(y.(spool := out));
      }
    } else {
      var logical := Min(pc.llen, |window|);
      var bytes := o.file[pc.la..pc.la + logical];
      var segs;
      if |stored| >= logical && stored[..logical] == bytes {
        segs := SpliceSpan(covers, pc.la, logical, pc.pa);
      } else {
        var hit;
        segs, hit := SpliceRotated(covers, pc.la, pc.pa, pc.plen, pc.skip, bytes, stored);
      }
      r := Some(y.(found := y.found + AsFound(segs)));
    }
  }

  /** Read on to what pcluster `pc` wants, and deal with it. */
  method OwnStep(o: OwnFile, pc: StoredPc, y0: FileYield) returns (r: FileRun)
    requires y0.to <= |o.file|
    ensures r == OwnNext(o, pc, y0)
  {
    hide OwnOne;
    var want := pc.End() + ENCODE_MARGIN;
    var to := Fill(o.file, o.step, y0.to, want);
    var y := y0.(to := to);
    if pc.la < y.at {
      return Ended(NotProved(y.known));
    }
    if pc.la >= to {
      return Running(y);
    }
    var more := OwnPCluster(o, pc, to >= want, y);
    if more.None? {
      return Ended(Truncated);
    }
    y := more.value;
    r := Running(if pc.End() > y.at then y.(at := Min(pc.End(), to)) else y);
  }

  /** Pass one, one file: plan its own pclusters from the bytes it reads back as, and keep the findings
      only if those bytes are the member's. */
  method PlanOwnFile(o: OwnFile, pcs: seq<StoredPc>, digest: Digest, known: Option<nat>) returns (r: FileEnd)
    ensures r == OwnFileOf(o, pcs, digest, known)
  {
    hide OwnNext;
    var y := FileYield([], [], known, 0, 0);
    for k := 0 to |pcs|
      invariant y.to <= |o.file| && OwnTo(o, pcs, known, k) == Running(y)
    {
      var run := OwnStep(o, pcs[k], y);
      EndedStays(o, pcs, known, k + 1);
      if run.Ended? {
        return run.end;
      }
      y := run.y;
    }
    var to := Fill(o.file, o.step, y.to, |o.file|);
    r := if o.f.sha256(o.file[..to]) != digest then NotProved(y.known) else Proved(y.found, y.known);
  }

  lemma {:induction false} EndedStays(o: OwnFile, pcs: seq<StoredPc>, known: Option<nat>, k: nat)
    requires k <= |pcs|
    ensures OwnTo(o, pcs, known, k).Ended? ==> OwnTo(o, pcs, known, |pcs|) == OwnTo(o, pcs, known, k)
    decreases |pcs| - k
  {
    hide OwnNext;
    if k < |pcs| {
      EndedStays(o, pcs, known, k + 1);
    }
  }

  // ------------------------------------------------------------- what the file pass reports is true

  /** Findings against the bytes a file read back as: true if those are the member's bytes. */
  predicate FileSound(f: Codecs, image: Bytes, idx: nat, file: Bytes, truth: seq<Bytes>, spool: Bytes, x: Found) {
    FoundRefs(x) <= {idx} &&
    (idx < |truth| && truth[idx] == file ==>
       match x
       case Node(node, pa) => pa + node.size <= |image| && NodeHolds(f, node, Cut(image, pa, node.size), truth, spool)
       case Splice(s) => s.Tabled? && s.len > 0 && s.idx < |truth| && Same(truth[s.idx], s.from, image, s.rootOff, s.len))
  }

  predicate FilesSound(o: OwnFile, truth: seq<Bytes>, y: FileYield) {
    forall x :: x in y.found ==> FileSound(o.f, o.image, o.idx, o.file, truth, y.spool, x)
  }

  lemma WholeCoverCovers(idx: nat, file: Bytes, la: nat, n: nat)
    requires la + n <= |file|
    ensures Covered(WholeCover(idx, file), la, la + n)
  {
    forall x | la <= x < la + n
      ensures CoveredBy(WholeCover(idx, file), x)
    {
      assert WholeCover(idx, file)[0] in WholeCover(idx, file);
    }
  }

  lemma WholeCoverHolds(truth: seq<Bytes>, idx: nat, file: Bytes)
    requires idx < |truth| && truth[idx] == file
    ensures AllHold(truth, file, WholeCover(idx, file))
  {
  }

  /** Each pcluster starts where the ones before it have ended, or later. */
  predicate InOrder(pcs: seq<StoredPc>) {
    forall k :: 0 < k < |pcs| ==> pcs[k - 1].End() <= pcs[k].la
  }

  /** Pclusters the format allows. */
  predicate AllPlausible(pcs: seq<StoredPc>) {
    forall k :: 0 <= k < |pcs| ==> pcs[k].plen <= PCLUSTER_MAX_SIZE && pcs[k].llen <= PCLUSTER_MAX_DSIZE
  }

  /** What is found is sound, and nothing is spooled: one cover takes all of every span. */
  lemma {:induction false} OwnIsSound(o: OwnFile, truth: seq<Bytes>, pcs: seq<StoredPc>, known: Option<nat>, k: nat)
    requires k <= |pcs| && AllPlausible(pcs) && OwnTo(o, pcs, known, k).Running?
    ensures var y := OwnTo(o, pcs, known, k).y;
            FilesSound(o, truth, y) && y.spool == []
  {
    hide FilesSound, OwnOne;
    if k > 0 {
      OwnIsSound(o, truth, pcs, known, k - 1);
      var y0, pc := OwnTo(o, pcs, known, k - 1).y, pcs[k - 1];
      var want := pc.End() + ENCODE_MARGIN;
      var y := y0.(to := FillTo(o.file, o.step, y0.to, want));
      SoundWith(o, truth, y0, y);
      if pc.la < y.to {
        OwnOneIsSound(o, truth, pc, y.to >= want, y);
        var more := OwnOne(o, pc, y.to >= want, y).value;
        SoundWith(o, truth, more, more.(at := Min(pc.End(), y.to)));
      }
    } else {
      assert FilesSound(o, truth, FileYield([], [], known, 0, 0)) by { NothingFound(o, truth, known); }
    }
  }

  lemma NothingFound(o: OwnFile, truth: seq<Bytes>, known: Option<nat>)
    ensures FilesSound(o, truth, FileYield([], [], known, 0, 0))
  {
  }

  lemma SoundWith(o: OwnFile, truth: seq<Bytes>, y: FileYield, z: FileYield)
    requires FilesSound(o, truth, y) && y.found == z.found && y.spool == z.spool
    ensures FilesSound(o, truth, z)
  {
  }

  lemma OwnOneIsSound(o: OwnFile, truth: seq<Bytes>, pc: StoredPc, goesOn: bool, y: FileYield)
    requires pc.la < y.to <= |o.file| && pc.plen <= PCLUSTER_MAX_SIZE && pc.llen <= PCLUSTER_MAX_DSIZE
    requires FilesSound(o, truth, y) && y.spool == [] && OwnOne(o, pc, goesOn, y).Some?
    ensures FilesSound(o, truth, OwnOne(o, pc, goesOn, y).value) && OwnOne(o, pc, goesOn, y).value.spool == []
  {
    hide FileSound, NodeHolds, PartsHold, PartsNamed, PlannedOf, OwnSplicesOf, Covered;
    var stored, window, covers := Cut(o.image, pc.pa, pc.plen), o.file[pc.la..y.to], WholeCover(o.idx, o.file);
    if pc.lzma {
      WholeCoverCovers(o.idx, o.file, pc.la, |window|);
      PlannedSpool(o.f, pc, stored, window, goesOn, covers, y.known, o.dict, y.spool);
      var (planned, out) := PlannedOf(o.f, pc, stored, window, goesOn, covers, y.known, o.dict, y.spool);
      if planned.NodeMade? {
        OwnNodeIsSound(o, truth, pc, window, goesOn, y.known);
      }
    } else {
      OwnSplicesAreSound(o, truth, pc, Min(pc.llen, |window|));
    }
  }

  lemma OwnNodeIsSound(o: OwnFile, truth: seq<Bytes>, pc: StoredPc, window: Bytes, goesOn: bool, known: Option<nat>)
    requires pc.pa + pc.plen <= |o.image| && pc.la + |window| <= |o.file| && window == o.file[pc.la..pc.la + |window|]
    requires pc.plen <= PCLUSTER_MAX_SIZE && pc.llen <= PCLUSTER_MAX_DSIZE
    requires PlannedOf(o.f, pc, Cut(o.image, pc.pa, pc.plen), window, goesOn, WholeCover(o.idx, o.file), known, o.dict, []).0.NodeMade?
    ensures var (planned, out) := PlannedOf(o.f, pc, Cut(o.image, pc.pa, pc.plen), window, goesOn, WholeCover(o.idx, o.file), known, o.dict, []);
            FileSound(o.f, o.image, o.idx, o.file, truth, out, Node(planned.node, pc.pa))
  {
    hide PlannedOf, NodeHolds;
    var stored, covers := Cut(o.image, pc.pa, pc.plen), WholeCover(o.idx, o.file);
    var (planned, out) := PlannedOf(o.f, pc, stored, window, goesOn, covers, known, o.dict, []);
    PlannedIsTrue(o.f, pc, stored, window, goesOn, covers, known, o.dict, [], truth, o.file);
    assert Agrees(window, o.file, pc.la, covers);
    forall x | x in PartsOf(planned.node.inputs)
      ensures x == o.idx
    {
    }
    if o.idx < |truth| && truth[o.idx] == o.file {
      WholeCoverHolds(truth, o.idx, o.file);
      assert PartsHold(truth, o.file, covers, planned.node);
    }
  }

  lemma OwnSplicesAreSound(o: OwnFile, truth: seq<Bytes>, pc: StoredPc, logical: nat)
    requires pc.la + logical <= |o.file| && pc.pa + pc.plen <= |o.image|
    ensures forall s :: s in OwnSplicesOf(o, pc, logical) ==> FileSound(o.f, o.image, o.idx, o.file, truth, [], Splice(s))
  {
    hide FileSound, SegSound;
    var s := Site(o.f, o.image, WholeCover(o.idx, o.file), [pc], []);
    OwnSplicesAreSegs(o, truth, pc, logical, s);
    forall seg | seg in OwnSplicesOf(o, pc, logical)
      ensures FileSound(o.f, o.image, o.idx, o.file, truth, [], Splice(seg))
    {
      OwnSpliceIsSound(o, truth, s, seg);
    }
  }

  lemma OwnSplicesAreSegs(o: OwnFile, truth: seq<Bytes>, pc: StoredPc, logical: nat, s: Site)
    requires pc.la + logical <= |o.file| && pc.pa + pc.plen <= |o.image| && s.image == o.image && s.used == WholeCover(o.idx, o.file)
    ensures forall seg :: seg in OwnSplicesOf(o, pc, logical) ==> SegSound(s, truth, o.file, seg)
  {
    hide SegSound, SpanSplices, RotatedSplices, Rotate;
    var bytes, stored := o.file[pc.la..pc.la + logical], Cut(o.image, pc.pa, pc.plen);
    if |stored| >= logical && stored[..logical] == bytes {
      VerbatimIsSound(s, truth, o.file, pc, bytes, stored);
    } else if CanRotate(pc.plen, pc.skip, bytes, stored) {
      RotatedIsSound(s, truth, o.file, pc, pc.skip.value);
    }
  }

  lemma OwnSpliceIsSound(o: OwnFile, truth: seq<Bytes>, s: Site, seg: Seg)
    requires s.image == o.image && s.used == WholeCover(o.idx, o.file) && SegSound(s, truth, o.file, seg)
    ensures FileSound(o.f, o.image, o.idx, o.file, truth, [], Splice(seg))
  {
    if o.idx < |truth| && truth[o.idx] == o.file {
      WholeCoverHolds(truth, o.idx, o.file);
    }
  }

  lemma OwnNextRuns(o: OwnFile, pc: StoredPc, y: FileYield)
    requires y.to <= |o.file| && y.at <= pc.la && pc.pa + pc.plen <= |o.image|
    ensures OwnNext(o, pc, y).Running? && OwnNext(o, pc, y).y.at <= pc.End()
  {
    hide PlannedOf, OwnSplicesOf;
  }

  /** Where its pclusters are in order and inside the image, a file's pass runs to its end. */
  lemma {:induction false} OwnRunsOn(o: OwnFile, pcs: seq<StoredPc>, known: Option<nat>, k: nat)
    requires k <= |pcs| && InOrder(pcs) && forall j :: 0 <= j < |pcs| ==> pcs[j].pa + pcs[j].plen <= |o.image|
    ensures OwnTo(o, pcs, known, k).Running?
    ensures OwnTo(o, pcs, known, k).y.at <= if k > 0 then pcs[k - 1].End() else 0
  {
    hide OwnNext;
    if k > 0 {
      OwnRunsOn(o, pcs, known, k - 1);
      OwnNextRuns(o, pcs[k - 1], OwnTo(o, pcs, known, k - 1).y);
    }
  }

  /** A file read without a stop is proved exactly when its bytes are the member's. */
  lemma OwnFileIsProvedIff(o: OwnFile, truth: seq<Bytes>, pcs: seq<StoredPc>, known: Option<nat>)
    requires o.idx < |truth| && NotTwin(o.f, truth, {o.idx}, o.file) && forall p: nat :: p < |o.file| ==> o.step(p) > 0
    requires AllPlausible(pcs) && InOrder(pcs) && forall j :: 0 <= j < |pcs| ==> pcs[j].pa + pcs[j].plen <= |o.image|
    ensures var r := OwnFileOf(o, pcs, o.f.sha256(truth[o.idx]), known);
            !r.Truncated? && (r.Proved? <==> truth[o.idx] == o.file)
            && (r.Proved? ==> forall x :: x in r.found ==> FileSound(o.f, o.image, o.idx, o.file, truth, [], x))
  {
    hide OwnTo, FileSound;
    OwnRunsOn(o, pcs, known, |pcs|);
    OwnIsSound(o, truth, pcs, known, |pcs|);
    var y := OwnTo(o, pcs, known, |pcs|).y;
    assert o.file[..FillTo(o.file, o.step, y.to, |o.file|)] == o.file;
  }
}
