/**
 What the passes find, pcluster by pcluster: every piece worth a splice and every run that gives the
 stored bytes, and nothing else.
 */
module RecipeEmitted {
  import opened Wrappers
  import opened ByteStrings
  import opened RecipePlan
  import opened RecipeTree
  import opened RecipeTiling
  import opened RecipeCovers
  import opened RecipePCluster
  import opened RecipePlanning
  import opened RecipeHashing
  import opened RecipeSweep
  import opened RecipePasses

  // ------------------------------------------------------------- the sweep

  /** `news` are the pieces of the span long enough to splice, in order. */
  ghost predicate SplicedSpan(covers: seq<Cover>, lstart: nat, len: nat, rootAt: nat, news: seq<Seg>) {
    && LandsInOrder(news, rootAt, rootAt + len)
    && forall seg :: seg in news <==> exists p :: p in Walk(covers, lstart, lstart + len) && Puts(seg, p, lstart, rootAt)
  }

  lemma SpanIsExact(covers: seq<Cover>, lstart: nat, len: nat, rootAt: nat)
    ensures SplicedSpan(covers, lstart, len, rootAt, SpanSplices(covers, lstart, len, rootAt))
  {
    hide SpanSplices, LandsInOrder, Puts;
    SpanLands(covers, lstart, len, rootAt);
    forall seg
      ensures seg in SpanSplices(covers, lstart, len, rootAt) <==>
              exists p :: p in Walk(covers, lstart, lstart + len) && Puts(seg, p, lstart, rootAt)
    {
      SpanIsSpliced(covers, lstart, len, rootAt, seg);
    }
  }

  lemma SpanLands(covers: seq<Cover>, lstart: nat, len: nat, rootAt: nat)
    ensures LandsInOrder(SpanSplices(covers, lstart, len, rootAt), rootAt, rootAt + len)
  {
    hide Walk, WalkHolds, Splices;
    WalkIsOrdered(covers, lstart, lstart + len);
    SplicesLand(Walk(covers, lstart, lstart + len), covers, lstart, lstart, len, rootAt);
  }

  /** The image stores the decoded bytes as they are. */
  predicate StoredPlainly(stored: Bytes, bytes: Bytes) {
    |bytes| <= |stored| && forall x :: 0 <= x < |bytes| ==> stored[x] == bytes[x]
  }

  /** The image stores them with the last `skip` of them in front. */
  predicate StoredTurned(stored: Bytes, bytes: Bytes, skip: Option<nat>) {
    && skip.Some? && 0 < skip.value <= |stored| == |bytes|
    && forall x :: 0 <= x < |bytes| ==> stored[x] == bytes[if x < skip.value then |bytes| - skip.value + x else x - skip.value]
  }

  lemma TurnedIff(stored: Bytes, bytes: Bytes, skip: Option<nat>, plen: nat)
    requires plen == |stored|
    ensures CanRotate(plen, skip, bytes, stored) <==> StoredTurned(stored, bytes, skip)
  {
    if skip.Some? && 0 < skip.value <= |stored| == |bytes| {
      assert |Rotate(bytes, skip.value)| == |bytes|;
      forall x | 0 <= x < |bytes|
        ensures Rotate(bytes, skip.value)[x] == bytes[if x < skip.value then |bytes| - skip.value + x else x - skip.value]
      {
      }
    }
  }

  lemma PlainIff(stored: Bytes, bytes: Bytes)
    ensures StoredPlainly(stored, bytes) <==> |stored| >= |bytes| && stored[..|bytes|] == bytes
  {
  }

  /** The splices of a pcluster stored as `stored` whose bytes are `bytes`: one span if it is stored plainly, two
      if it is turned, none otherwise. */
  ghost predicate SplicesAre(covers: seq<Cover>, pc: StoredPc, stored: Bytes, bytes: Bytes, news: seq<Seg>) {
    if StoredPlainly(stored, bytes) then SplicedSpan(covers, pc.la, |bytes|, pc.pa, news)
    else if StoredTurned(stored, bytes, pc.skip) then
      var skip, head := pc.skip.value, |bytes| - pc.skip.value;
      exists a, b :: news == a + b && SplicedSpan(covers, pc.la + head, skip, pc.pa, a) && SplicedSpan(covers, pc.la, head, pc.pa + skip, b)
    else news == []
  }

  lemma SplicesAreExact(covers: seq<Cover>, pc: StoredPc, stored: Bytes, bytes: Bytes, news: seq<Seg>)
    requires pc.plen == |stored|
    requires news == if |stored| >= |bytes| && stored[..|bytes|] == bytes then SpanSplices(covers, pc.la, |bytes|, pc.pa)
                     else if CanRotate(pc.plen, pc.skip, bytes, stored) then RotatedSplices(covers, pc.la, pc.pa, pc.plen, pc.skip.value)
                     else []
    ensures SplicesAre(covers, pc, stored, bytes, news)
  {
    hide SplicedSpan, SpanSplices, CanRotate;
    PlainIff(stored, bytes);
    TurnedIff(stored, bytes, pc.skip, pc.plen);
    if StoredPlainly(stored, bytes) {
      SpanIsExact(covers, pc.la, |bytes|, pc.pa);
    } else if StoredTurned(stored, bytes, pc.skip) {
      var skip, head := pc.skip.value, |bytes| - pc.skip.value;
      SpanIsExact(covers, pc.la + head, skip, pc.pa);
      SpanIsExact(covers, pc.la, head, pc.pa + skip);
    }
  }

  /** The node of a run that gave the stored bytes, and how it was come by: the run that settles the search over
      the bytes at hand, some of which a cover has. */
  ghost predicate NodeFound(f: Codecs, pc: StoredPc, stored: Bytes, window: Bytes, goesOn: bool, covers: seq<Cover>, known: Option<nat>,
                            dict: nat, n: nat, node: PClusterNode)
  {
    var presets := Presets(known);
    && Padding(stored) < |stored|
    && Settles(f, stored, window, goesOn, pc.llen, presets, dict, 0, n) && Reproduces(f, stored, window, goesOn, pc.llen, presets, dict, n)
    && Walk(covers, pc.la, pc.la + Min(pc.llen + PAST[n % 4], |window|)) != []
    && node.size == |stored| && node.sha256 == f.sha256(stored) && node.pad == Padding(stored)
    && node.preset == presets[n / 4] && node.dictSize == dict
  }

  /** A node is found exactly where there is one to find. */
  lemma NodesAreFound(f: Codecs, pc: StoredPc, stored: Bytes, window: Bytes, goesOn: bool, covers: seq<Cover>, known: Option<nat>,
                      dict: nat, spool: Bytes)
    ensures var r := PlannedOf(f, pc, stored, window, goesOn, covers, known, dict, spool).0;
            && (forall n, node :: NodeFound(f, pc, stored, window, goesOn, covers, known, dict, n, node) ==> r.NodeMade?)
            && (r.NodeMade? ==> r.preset == r.node.preset && exists n :: NodeFound(f, pc, stored, window, goesOn, covers, known, dict, n, r.node))
  {
    hide Searched, Presets, Walk, Settles, Reproduces, Breaks, Starves, WalkHolds, TileAll;
    var presets := Presets(known);
    var hit := Searched(f, stored, window, goesOn, pc.llen, presets, dict, 0, false);
    var r := PlannedOf(f, pc, stored, window, goesOn, covers, known, dict, spool).0;
    NodeIsMadeIff(f, pc, stored, window, goesOn, covers, known, dict, spool);
    SearchEnding(f, stored, window, goesOn, pc.llen, presets, dict, 0, false);
    forall n, node | NodeFound(f, pc, stored, window, goesOn, covers, known, dict, n, node)
      ensures r.NodeMade?
    {
      NotBoth(f, stored, window, goesOn, pc.llen, presets, dict, n);
    }
    if r.NodeMade? {
      var n := HitSettles(f, stored, window, goesOn, pc.llen, presets, dict);
      assert NodeFound(f, pc, stored, window, goesOn, covers, known, dict, n, r.node);
    }
  }

  lemma NotBoth(f: Codecs, stored: Bytes, window: Bytes, goesOn: bool, llen: nat, presets: seq<nat>, dict: nat, n: nat)
    ensures !(Reproduces(f, stored, window, goesOn, llen, presets, dict, n) && Breaks(f, stored, window, goesOn, llen, presets, dict, n))
  {
  }

  lemma HitSettles(f: Codecs, stored: Bytes, window: Bytes, goesOn: bool, llen: nat, presets: seq<nat>, dict: nat) returns (n: nat)
    requires Searched(f, stored, window, goesOn, llen, presets, dict, 0, false).Hit?
    ensures Settles(f, stored, window, goesOn, llen, presets, dict, 0, n) && Reproduces(f, stored, window, goesOn, llen, presets, dict, n)
    ensures n < 4 * |presets|
    ensures Searched(f, stored, window, goesOn, llen, presets, dict, 0, false) == Hit(presets[n / 4], Min(llen + PAST[n % 4], |window|))
  {
    hide Searched, Attempt, Starves;
    SearchEnding(f, stored, window, goesOn, llen, presets, dict, 0, false);
    n :| Settles(f, stored, window, goesOn, llen, presets, dict, 0, n);
  }

  /** What pcluster `k` adds to what there is: what has not to be decoded adds nothing, what is stored as it is its
      splices, what is compressed at most one node, whose preset is tried alone from then on. */
  ghost predicate Adds(s: Site, k: nat, e: Elig, needed: bool, dict: nat, y: Yield, z: Yield)
    requires needed ==> Emits(s, e, k)
  {
    if !needed || e.Leave? then z == y
    else
      var pc, bytes, stored := s.pcs[k], s.decoded[k].value, Cut(s.image, s.pcs[k].pa, s.pcs[k].plen);
      if e.TryVerbatim? then
        exists news :: SplicesAre(s.used, pc, stored, bytes, news) && z == y.(segs := y.segs + news)
      else
        var (window, goesOn) := WindowOf(s.pcs, s.decoded, k).value;
        && z.segs == y.segs && y.spool <= z.spool
        && (if exists n, node :: NodeFound(s.f, pc, stored, window, goesOn, s.used, y.known, dict, n, node)
            then exists n, node :: NodeFound(s.f, pc, stored, window, goesOn, s.used, y.known, dict, n, node)
                                   && z.nodes == y.nodes + [(k, node)] && z.known == Some(node.preset)
            else z.nodes == y.nodes && z.known == y.known)
  }

  /** The sweep goes from one pcluster to the next by what it adds, and starts with nothing. */
  lemma SweepAdds(s: Site, eligible: seq<Elig>, need: seq<bool>, dict: nat, y: Yield, k: nat)
    requires EmitsTo(s, eligible, need, k + 1)
    ensures EmittedTo(s, eligible, need, dict, y, 0) == y
    ensures Adds(s, k, eligible[k], need[k], dict, EmittedTo(s, eligible, need, dict, y, k), EmittedTo(s, eligible, need, dict, y, k + 1))
  {
    hide Emits, NodeFound, SplicesAre, EncodedOf, VerbatimOf;
    var before, after := EmittedTo(s, eligible, need, dict, y, k), EmittedTo(s, eligible, need, dict, y, k + 1);
    if need[k] && eligible[k].TryVerbatim? {
      VerbatimIsExact(s, k);
      assert after == before.(segs := before.segs + VerbatimOf(s, k));
    } else if need[k] && eligible[k].TryEncode? {
      EncodedIsExact(s, k, before.known, dict, before.spool);
    }
  }

  lemma VerbatimIsExact(s: Site, k: nat)
    requires Emits(s, TryVerbatim, k)
    ensures SplicesAre(s.used, s.pcs[k], Cut(s.image, s.pcs[k].pa, s.pcs[k].plen), s.decoded[k].value, VerbatimOf(s, k))
  {
    hide SplicesAre, SpanSplices, RotatedSplices, CanRotate;
    SplicesAreExact(s.used, s.pcs[k], Cut(s.image, s.pcs[k].pa, s.pcs[k].plen), s.decoded[k].value, VerbatimOf(s, k));
  }

  lemma EncodedIsExact(s: Site, k: nat, known: Option<nat>, dict: nat, spool: Bytes)
    requires Emits(s, TryEncode, k)
    ensures WindowOf(s.pcs, s.decoded, k).Some?
    ensures var pc, stored := s.pcs[k], Cut(s.image, s.pcs[k].pa, s.pcs[k].plen);
            var (window, goesOn) := WindowOf(s.pcs, s.decoded, k).value;
            var (r, out) := EncodedOf(s, k, known, dict, spool);
            && spool <= out
            && (forall n, node :: NodeFound(s.f, pc, stored, window, goesOn, s.used, known, dict, n, node) ==> r.NodeMade?)
            && (r.NodeMade? ==> r.preset == r.node.preset && exists n :: NodeFound(s.f, pc, stored, window, goesOn, s.used, known, dict, n, r.node))
  {
    hide PlannedOf, NodeFound;
    var pc, stored := s.pcs[k], Cut(s.image, s.pcs[k].pa, s.pcs[k].plen);
    var (window, goesOn) := WindowOf(s.pcs, s.decoded, k).value;
    NodesAreFound(s.f, pc, stored, window, goesOn, s.used, known, dict, spool);
    PlannedSpool(s.f, pc, stored, window, goesOn, s.used, known, dict, spool);
  }

  // ------------------------------------------------------------- a file's own pclusters

  lemma WalkOfWhole(idx: nat, file: Bytes, la: nat, n: nat)
    requires la + n <= |file|
    ensures Walk(WholeCover(idx, file), la, la + n) == if n == 0 then [] else [Piece(WholeCover(idx, file)[0], la, la + n)]
  {
    var covers := WholeCover(idx, file);
    assert covers[1..] == [];
    assert Walk(covers[1..], la + n, la + n) == [];
  }

  /** One splice of the file, if it is worth one. */
  function OneSplice(idx: nat, from: nat, len: nat, at: nat): seq<Found> {
    if len > INLINE_MAX then [Splice(Tabled(idx, from, len, 0, at))] else []
  }

  lemma SpanOfWhole(idx: nat, file: Bytes, la: nat, n: nat, at: nat)
    requires la + n <= |file|
    ensures AsFound(SpanSplices(WholeCover(idx, file), la, n, at)) == OneSplice(idx, la, n, at)
  {
    WalkOfWhole(idx, file, la, n);
    WalkIsOrdered(WholeCover(idx, file), la, la + n);
    var pieces := Walk(WholeCover(idx, file), la, la + n);
    if n > 0 {
      assert pieces[1..] == [];
      assert Splices([], WholeCover(idx, file), la + n, la + n, la, at) == [];
    }
  }

  lemma AsFoundOfTwo(a: seq<Seg>, b: seq<Seg>)
    ensures AsFound(a + b) == AsFound(a) + AsFound(b)
  {
  }

  /** What one of the file's pclusters comes to, from the file's bytes `[la, to)`: a node over the range of the file
      that was fed, one splice or two. */
  ghost predicate FileAdds(o: OwnFile, pc: StoredPc, to: nat, goesOn: bool, known: Option<nat>, news: seq<Found>, after: Option<nat>)
    requires pc.la < to <= |o.file| && pc.pa + pc.plen <= |o.image|
  {
    var stored, window := Cut(o.image, pc.pa, pc.plen), o.file[pc.la..to];
    if pc.lzma then
      var hit := Searched(o.f, stored, window, goesOn, pc.llen, Presets(known), o.dict, 0, false);
      if Padding(stored) < |stored| && hit.Hit? && hit.fed > 0 then
        && after == Some(hit.preset)
        && news == [Node(PClusterNode(|stored|, o.f.sha256(stored), Padding(stored), hit.preset, o.dict, [Part(o.idx, pc.la, hit.fed)]), pc.pa)]
      else news == [] && after == known
    else
      var bytes := window[..Min(pc.llen, |window|)];
      && after == known
      && if StoredPlainly(stored, bytes) then news == OneSplice(o.idx, pc.la, |bytes|, pc.pa)
         else if StoredTurned(stored, bytes, pc.skip) then
           var skip, head := pc.skip.value, |bytes| - pc.skip.value;
           news == OneSplice(o.idx, pc.la + head, skip, pc.pa) + OneSplice(o.idx, pc.la, head, pc.pa + skip)
         else news == []
  }

  lemma OwnOneAdds(o: OwnFile, pc: StoredPc, goesOn: bool, y: FileYield)
    requires pc.la < y.to <= |o.file| && pc.pa + pc.plen <= |o.image|
    ensures var more := OwnOne(o, pc, goesOn, y);
            && more.Some? && more.value.to == y.to && more.value.at == y.at
            && y.found <= more.value.found && FileAdds(o, pc, y.to, goesOn, y.known, more.value.found[|y.found|..], more.value.known)
  {
    hide PlannedOf, OwnSplicesOf, AsFound, StoredPlainly, StoredTurned, Searched, Padding;
    var more := OwnOne(o, pc, goesOn, y).value;
    if pc.lzma {
      OwnNodeIs(o, pc, goesOn, y);
    } else {
      OwnSplicesAre(o, pc, y.to);
    }
  }

  lemma OwnNodeIs(o: OwnFile, pc: StoredPc, goesOn: bool, y: FileYield)
    requires pc.la < y.to <= |o.file| && pc.pa + pc.plen <= |o.image|
    ensures var stored, window := Cut(o.image, pc.pa, pc.plen), o.file[pc.la..y.to];
            var r := PlannedOf(o.f, pc, stored, window, goesOn, WholeCover(o.idx, o.file), y.known, o.dict, y.spool).0;
            var hit := Searched(o.f, stored, window, goesOn, pc.llen, Presets(y.known), o.dict, 0, false);
            if Padding(stored) < |stored| && hit.Hit? && hit.fed > 0 then
              r == NodeMade(PClusterNode(|stored|, o.f.sha256(stored), Padding(stored), hit.preset, o.dict, [Part(o.idx, pc.la, hit.fed)]), hit.preset)
            else !r.NodeMade?
  {
    hide Searched, Padding, Walk, Presets;
    var stored, window, covers := Cut(o.image, pc.pa, pc.plen), o.file[pc.la..y.to], WholeCover(o.idx, o.file);
    var hit := Searched(o.f, stored, window, goesOn, pc.llen, Presets(y.known), o.dict, 0, false);
    HitReencodes(o.f, stored, window, goesOn, pc.llen, Presets(y.known), o.dict, 0, false);
    NodeIsMadeIff(o.f, pc, stored, window, goesOn, covers, y.known, o.dict, y.spool);
    if hit.Hit? {
      WalkOfWhole(o.idx, o.file, pc.la, hit.fed);
      WalkIsOrdered(covers, pc.la, pc.la + hit.fed);
      if hit.fed > 0 {
        OnePart(o, window, pc.la, hit.fed, y.spool);
      }
    }
  }

  lemma OnePart(o: OwnFile, window: Bytes, la: nat, fed: nat, spool: Bytes)
    requires 0 < fed <= |window| && la + |window| <= |o.file|
    ensures var covers := WholeCover(o.idx, o.file);
            WalkHolds(Walk(covers, la, la + fed), covers, la, la + fed)
            && TileAll(Walk(covers, la, la + fed), covers, window, la, la, la + fed, [], spool) == ([Part(o.idx, la, fed)], spool)
  {
    var covers := WholeCover(o.idx, o.file);
    WalkOfWhole(o.idx, o.file, la, fed);
    WalkIsOrdered(covers, la, la + fed);
    var pieces := Walk(covers, la, la + fed);
    assert pieces[1..] == [];
    assert [] + [PartOf(pieces[0])] == [Part(o.idx, la, fed)];
    assert TileAll([], covers, window, la, la + fed, la + fed, [Part(o.idx, la, fed)], spool) == ([Part(o.idx, la, fed)], spool);
  }

  lemma OwnSplicesAre(o: OwnFile, pc: StoredPc, to: nat)
    requires pc.la < to <= |o.file| && pc.pa + pc.plen <= |o.image|
    ensures var stored, window := Cut(o.image, pc.pa, pc.plen), o.file[pc.la..to];
            var logical := Min(pc.llen, |window|);
            var bytes, news := window[..logical], AsFound(OwnSplicesOf(o, pc, logical));
            if StoredPlainly(stored, bytes) then news == OneSplice(o.idx, pc.la, |bytes|, pc.pa)
            else if StoredTurned(stored, bytes, pc.skip) then
              var skip, head := pc.skip.value, |bytes| - pc.skip.value;
              news == OneSplice(o.idx, pc.la + head, skip, pc.pa) + OneSplice(o.idx, pc.la, head, pc.pa + skip)
            else news == []
  {
    hide StoredPlainly, CanRotate, SpanSplices, OneSplice;
    var stored, window := Cut(o.image, pc.pa, pc.plen), o.file[pc.la..to];
    var logical := Min(pc.llen, |window|);
    var bytes := window[..logical];
    assert bytes == o.file[pc.la..pc.la + logical];
    PlainIff(stored, bytes);
    TurnedIff(stored, bytes, pc.skip, pc.plen);
    if StoredPlainly(stored, bytes) {
      SpanOfWhole(o.idx, o.file, pc.la, logical, pc.pa);
    } else if StoredTurned(stored, bytes, pc.skip) {
      var skip, head, covers := pc.skip.value, |bytes| - pc.skip.value, WholeCover(o.idx, o.file);
      SpanOfWhole(o.idx, o.file, pc.la + head, skip, pc.pa);
      SpanOfWhole(o.idx, o.file, pc.la, head, pc.pa + skip);
      AsFoundOfTwo(SpanSplices(covers, pc.la + head, skip, pc.pa), SpanSplices(covers, pc.la, head, pc.pa + skip));
    }
  }

  /** What is found in a file with its pclusters in order and inside the image: pcluster by pcluster, `parts` is what
      each comes to and `presets` what is known before it, from windows that reach the margin past the pcluster or the
      end of the file. */
  ghost predicate FoundIn(o: OwnFile, pcs: seq<StoredPc>, known: Option<nat>, k: nat, parts: seq<seq<Found>>, presets: seq<Option<nat>>, y: FileYield) {
    && k <= |pcs| && |parts| == k && |presets| == k + 1 && presets[0] == known
    && y.found == Joined(parts) && y.known == presets[k]
    && forall j :: 0 <= j < k ==> PartIs(o, pcs[j], presets[j], parts[j], presets[j + 1])
  }

  function Joined(parts: seq<seq<Found>>): seq<Found> {
    if parts == [] then [] else Joined(parts[..|parts| - 1]) + parts[|parts| - 1]
  }

  /** The window reaches the margin past the pcluster, or the end of the file. */
  predicate Reaches(o: OwnFile, pc: StoredPc, to: nat) {
    && pc.la < to <= |o.file| && (to == |o.file| || pc.End() + ENCODE_MARGIN <= to) && pc.pa + pc.plen <= |o.image|
  }

  ghost predicate PartIs(o: OwnFile, pc: StoredPc, known: Option<nat>, part: seq<Found>, after: Option<nat>) {
    if pc.la >= |o.file| then part == [] && after == known
    else exists to :: Reaches(o, pc, to) && FileAdds(o, pc, to, pc.End() + ENCODE_MARGIN <= to, known, part, after)
  }

  lemma {:induction false} OwnFindings(o: OwnFile, pcs: seq<StoredPc>, known: Option<nat>, k: nat)
    returns (parts: seq<seq<Found>>, presets: seq<Option<nat>>)
    requires k <= |pcs| && InOrder(pcs) && (forall p: nat :: p < |o.file| ==> o.step(p) > 0)
    requires forall j :: 0 <= j < |pcs| ==> pcs[j].pa + pcs[j].plen <= |o.image|
    ensures OwnTo(o, pcs, known, k).Running? && FoundIn(o, pcs, known, k, parts, presets, OwnTo(o, pcs, known, k).y)
  {
    hide PartIs, OwnNext;
    OwnRunsOn(o, pcs, known, k);
    if k == 0 {
      parts, presets := [], [known];
    } else {
      parts, presets := OwnFindings(o, pcs, known, k - 1);
      OwnRunsOn(o, pcs, known, k - 1);
      var y0 := OwnTo(o, pcs, known, k - 1).y;
      var news := OwnNextAdds(o, pcs[k - 1], y0);
      var y := OwnNext(o, pcs[k - 1], y0).y;
      var was := parts;
      parts, presets := parts + [news], presets + [y.known];
      assert parts[..|parts| - 1] == was;
    }
  }

  lemma OwnNextAdds(o: OwnFile, pc: StoredPc, y0: FileYield) returns (news: seq<Found>)
    requires y0.to <= |o.file| && y0.at <= pc.la && pc.pa + pc.plen <= |o.image| && forall p: nat :: p < |o.file| ==> o.step(p) > 0
    ensures OwnNext(o, pc, y0).Running?
    ensures OwnNext(o, pc, y0).y.found == y0.found + news && PartIs(o, pc, y0.known, news, OwnNext(o, pc, y0).y.known)
  {
    hide OwnOne, FileAdds;
    var want := pc.End() + ENCODE_MARGIN;
    var y := y0.(to := FillTo(o.file, o.step, y0.to, want));
    news := [];
    if pc.la < y.to {
      OwnOneAdds(o, pc, y.to >= want, y);
      news := OwnOne(o, pc, y.to >= want, y).value.found[|y.found|..];
      assert Reaches(o, pc, y.to);
    }
  }
}
