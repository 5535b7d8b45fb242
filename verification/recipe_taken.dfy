/**
 What the course of planning comes to, in terms of the container: which wrappers become compression
 nodes and which children are spliced.
 */
module RecipeTaken {
  import opened Wrappers
  import opened ByteStrings
  import opened RecipePlan
  import opened RecipeTree
  import opened OrderedMap
  import opened RecipeTiling
  import opened RecipePlacing
  import opened RecipeMatcher
  import opened RecipePlanning
  import opened RecipeCourse

  // ------------------------------------------------------------- compression nodes

  /** Gzip candidate `k`, run over `input` and put behind the first `n` bytes, gives the wrapper, and none
      before it does. */
  predicate GzipMakes(f: Codecs, wrapper: Bytes, input: Bytes, n: nat, k: nat) {
    && f.gzipHeader(wrapper) == Some(n) && n < |wrapper| && k < 2 * |GNU_GZIP_CANDIDATES|
    && GzipReproduces(f, GzipCandidate(k), wrapper, n, input)
    && forall j: nat :: j < k ==> !GzipReproduces(f, GzipCandidate(j), wrapper, n, input)
  }

  predicate ZstdMakes(f: Codecs, wrapper: Bytes, input: Bytes, flags: ZstdParams, k: nat) {
    && |wrapper| >= 5 && f.zstdFlags(wrapper[..5]) == Some(flags) && k < 2 * |ZSTD_LEVEL_CANDIDATES|
    && ZstdReproduces(f, ZstdCandidate(flags, k), wrapper, input)
    && forall j: nat :: j < k ==> !ZstdReproduces(f, ZstdCandidate(flags, j), wrapper, input)
  }

  /** The one decompressed child of a wrapper, both big enough to name; the child has a spool, the wrapper
      extents in a space there is. */
  predicate HasMakings(w: World, i: nat) {
    && IsMember(w, i) && Nameable(w.members[i]) && w.members[i].extents.Some?
    && |w.kids[i]| == 1 && w.kids[i][0] < |w.members| && Nameable(w.members[w.kids[i][0]]) && w.members[w.kids[i][0]].space.Some?
  }

  /** Member `i` is made of its child by this run: the first gzip or zstd candidate that gives it back. */
  ghost predicate MadeBy(w: World, truth: seq<Bytes>, i: nat, how: Comp) {
    && HasMakings(w, i) && i < |truth| && w.kids[i][0] < |truth|
    && var (wrapper, input) := (truth[i], truth[w.kids[i][0]]);
    match w.members[i].kind
    case Gzip => exists n: nat, k: nat :: GzipMakes(w.f, wrapper, input, n, k) && how == UseGzip(GzipCandidate(k), wrapper[..n])
    case Zstd => exists flags, k: nat :: ZstdMakes(w.f, wrapper, input, flags, k) && how == UseZstd(ZstdCandidate(flags, k))
    case _ => false
  }

  /** A wrapper gets a compression node exactly when it has the makings and a run makes it; the node records
      the first such run. */
  lemma MakerIff(w: World, truth: seq<Bytes>, i: nat, how: Comp)
    requires Unchanged(w, truth)
    ensures MakerOf(w, i) == Some(how) <==> MadeBy(w, truth, i, how)
  {
    hide Unchanged, GzipMakes, ZstdMakes, CompressorOf;
    MakingsWrap(w, truth, i);
    if HasMakings(w, i) {
      WrapperViewReads(w, truth, i);
      var (wrapper, input) := (truth[i], truth[w.kids[i][0]]);
      match w.members[i].kind {
        case Gzip => GzipMakerIff(w.f, wrapper, input, how);
        case Zstd => ZstdMakerIff(w.f, wrapper, input, how);
        case _ =>
      }
    }
  }

  lemma MakingsWrap(w: World, truth: seq<Bytes>, i: nat)
    requires Unchanged(w, truth)
    ensures HasMakings(w, i) <==> Wraps(w, i)
    ensures HasMakings(w, i) ==> i < |truth| && w.kids[i][0] < |truth|
  {
    if HasMakings(w, i) {
      var c := w.kids[i][0];
      assert MemberTrue(w, truth, i) && MemberTrue(w, truth, c);
      var e := w.members[i].extents.value;
      RangesReadBack(w.spaces[e.src], e.runs, 0, truth[i]);
    }
  }

  lemma GzipMakerIff(f: Codecs, wrapper: Bytes, input: Bytes, how: Comp)
    ensures (match ProbeWrapper(f, Gzip, wrapper) case None => None case Some(probe) => CompressorOf(f, probe, wrapper, input)) == Some(how)
       <==> exists n: nat, k: nat :: GzipMakes(f, wrapper, input, n, k) && how == UseGzip(GzipCandidate(k), wrapper[..n])
  {
    hide CompressorOf, FirstToReproduce;
    match f.gzipHeader(wrapper) {
      case None =>
      case Some(n) =>
        if n <= |wrapper| {
          GzipSearchIff(f, wrapper, input, n, how);
        }
    }
  }

  lemma GzipSearchIff(f: Codecs, wrapper: Bytes, input: Bytes, n: nat, how: Comp)
    requires f.gzipHeader(wrapper) == Some(n) && n <= |wrapper|
    ensures CompressorOf(f, GzipHead(wrapper[..n]), wrapper, input) == Some(how)
       <==> exists k: nat :: GzipMakes(f, wrapper, input, n, k) && how == UseGzip(GzipCandidate(k), wrapper[..n])
  {
    hide CompressorOf, Reproduces, GzipReproduces;
    var probe := GzipHead(wrapper[..n]);
    forall k: nat | k < Candidates(probe)
      ensures Reproduces(f, probe, wrapper, input, k) <==> n < |wrapper| && GzipReproduces(f, GzipCandidate(k), wrapper, n, input)
    {
      GzipIs(f, wrapper[..n], wrapper, input, k);
    }
    if CompressorOf(f, probe, wrapper, input) == Some(how) {
      var k: nat :| k < Candidates(probe) && IsFirst(f, probe, wrapper, input, how, k);
      assert GzipMakes(f, wrapper, input, n, k);
    }
    if k: nat :| GzipMakes(f, wrapper, input, n, k) && how == UseGzip(GzipCandidate(k), wrapper[..n]) {
      ItIsFirst(f, probe, wrapper, input, how, k);
    }
  }

  lemma ZstdMakerIff(f: Codecs, wrapper: Bytes, input: Bytes, how: Comp)
    ensures (match ProbeWrapper(f, Zstd, wrapper) case None => None case Some(probe) => CompressorOf(f, probe, wrapper, input)) == Some(how)
       <==> exists flags, k: nat :: ZstdMakes(f, wrapper, input, flags, k) && how == UseZstd(ZstdCandidate(flags, k))
  {
    hide CompressorOf, FirstToReproduce;
    if |wrapper| >= 5 {
      match f.zstdFlags(wrapper[..5]) {
        case None =>
        case Some(flags) => ZstdSearchIff(f, wrapper, input, flags, how);
      }
    }
  }

  lemma ZstdIs(f: Codecs, flags: ZstdParams, wrapper: Bytes, input: Bytes, k: nat)
    requires k < 2 * |ZSTD_LEVEL_CANDIDATES|
    ensures Reproduces(f, ZstdHead(flags), wrapper, input, k) <==> ZstdReproduces(f, ZstdCandidate(flags, k), wrapper, input)
  {
  }

  lemma ZstdSearchIff(f: Codecs, wrapper: Bytes, input: Bytes, flags: ZstdParams, how: Comp)
    requires |wrapper| >= 5 && f.zstdFlags(wrapper[..5]) == Some(flags)
    ensures CompressorOf(f, ZstdHead(flags), wrapper, input) == Some(how)
       <==> exists k: nat :: ZstdMakes(f, wrapper, input, flags, k) && how == UseZstd(ZstdCandidate(flags, k))
  {
    hide CompressorOf, Reproduces, ZstdReproduces;
    var probe := ZstdHead(flags);
    forall k: nat | k < Candidates(probe)
      ensures Reproduces(f, probe, wrapper, input, k) <==> ZstdReproduces(f, ZstdCandidate(flags, k), wrapper, input)
    {
      ZstdIs(f, flags, wrapper, input, k);
    }
    if CompressorOf(f, probe, wrapper, input) == Some(how) {
      var k: nat :| k < Candidates(probe) && IsFirst(f, probe, wrapper, input, how, k);
      assert ZstdMakes(f, wrapper, input, flags, k);
    }
    if k: nat :| ZstdMakes(f, wrapper, input, flags, k) && how == UseZstd(ZstdCandidate(flags, k)) {
      ItIsFirst(f, probe, wrapper, input, how, k);
    }
  }

  // ------------------------------------------------------------- spliced children

  /** The pieces of some children, child after child. */
  function AllPieces(w: World, i: nat, taken: seq<nat>): seq<Seg>
    requires i < |w.members|
  {
    if taken == [] then []
    else
      var n := |taken| - 1;
      AllPieces(w, i, taken[..n]) + PiecesIn(w, i, taken[n])
  }

  function PiecesIn(w: World, i: nat, c: nat): seq<Seg>
    requires i < |w.members|
  {
    if c < |w.members| && MappedIn(w, i, c).Some? then MappedIn(w, i, c).value else []
  }

  /** Child number `j` maps into the member, leads somewhere when its turn comes, and no piece of it overlaps
      one of an earlier child that was taken. */
  ghost predicate Takes(x: Asked, s: Now, i: nat, j: nat)
    requires IsMember(x.w, i) && j < |x.w.kids[i]|
  {
    var c, before := x.w.kids[i][j], SplicedTo(x, s, i, j);
    && IsMember(x.w, c) && MappedIn(x.w, i, c).Some? && KidOf(x, before.now, i, c).1
    && forall d, p, q :: d in before.accepted && p in PiecesIn(x.w, i, c) && q in PiecesIn(x.w, i, d) ==> Apart(p, q)
  }

  lemma AdmitsIffApart(ends: map<nat, nat>, segs: seq<Seg>, p: Seg)
    requires Bookkept(ends, segs) && p.len > 0
    ensures AdmitsAt(ends, p.at, p.len) <==> forall s :: s in segs ==> Apart(p, s)
  {
    var before := FloorKey(ends, p.at);
    forall s | s in segs
      ensures s.at in ends && ends[s.at] == s.End()
    {
    }
    if AdmitsAt(ends, p.at, p.len) {
      forall s | s in segs
        ensures Apart(p, s)
      {
        if s.at <= p.at {
          var t :| t in segs && t.at == before.value;
          ApartFrom(segs, s, t);
        }
      }
    }
    if forall s :: s in segs ==> Apart(p, s) {
      if before.Some? {
        var t :| t in segs && t.at == before.value;
        assert Apart(p, t);
      }
      forall a | a in ends
        ensures !(p.at <= a < p.End())
      {
        var t :| t in segs && t.at == a;
        assert Apart(p, t);
      }
    }
  }

  lemma {:induction false} PiecesBooked(ends: map<nat, nat>, segs: seq<Seg>, pieces: seq<Seg>)
    requires Bookkept(ends, segs) && AllApart(segs + pieces) && forall p :: p in pieces ==> p.len > 0
    ensures Bookkept(WithPieces(ends, pieces), segs + pieces)
    decreases |pieces|
  {
    hide Bookkept;
    if pieces == [] {
      assert segs + pieces == segs;
    } else {
      var n := |pieces| - 1;
      ConcatApart(segs, pieces);
      assert segs + pieces == (segs + pieces[..n]) + [pieces[n]];
      ConcatApart(segs + pieces[..n], [pieces[n]]);
      PiecesBooked(ends, segs, pieces[..n]);
      BooksStep(WithPieces(ends, pieces[..n]), segs, pieces, n);
      assert pieces[..n + 1] == pieces;
    }
  }

  lemma FitsIffApart(w: World, truth: seq<Bytes>, before: Spliced, i: nat, c: nat)
    requires Unchanged(w, truth) && i < |w.members| && c < |w.members| && MappedIn(w, i, c).Some? && Bookkept(before.ends, before.segs)
    ensures Fits(w, before, i, c) <==> NoOverlap(MappedIn(w, i, c).value, before.segs)
  {
    hide Bookkept, AdmitsAt, Apart;
    var pieces := MappedIn(w, i, c).value;
    PiecesHaveBytes(w, truth, i, c);
    forall k | 0 <= k < |pieces|
      ensures AdmitsAt(before.ends, pieces[k].at, pieces[k].len) <==> forall s :: s in before.segs ==> Apart(pieces[k], s)
    {
      AdmitsIffApart(before.ends, before.segs, pieces[k]);
    }
  }

  lemma PiecesHaveBytes(w: World, truth: seq<Bytes>, i: nat, c: nat)
    requires Unchanged(w, truth) && i < |w.members| && c < |w.members| && MappedIn(w, i, c).Some?
    ensures forall p :: p in MappedIn(w, i, c).value ==> p.len > 0
  {
    assert MemberTrue(w, truth, c);
    RunsTileEnds(w.members[c].extents.value.runs, 0, |truth[c]|);
  }

  lemma {:induction false} InAllPieces(w: World, i: nat, taken: seq<nat>)
    requires i < |w.members|
    ensures forall s :: s in AllPieces(w, i, taken) <==> exists d :: d in taken && s in PiecesIn(w, i, d)
  {
    hide PiecesIn;
    if taken != [] {
      var n := |taken| - 1;
      InAllPieces(w, i, taken[..n]);
      assert taken == taken[..n] + [taken[n]];
      forall s
        ensures s in AllPieces(w, i, taken) <==> exists d :: d in taken && s in PiecesIn(w, i, d)
      {
        if d :| d in taken && s in PiecesIn(w, i, d) {
          assert d in taken[..n] || d == taken[n];
        }
      }
    }
  }

  /** The children taken among the first `n`, in order. */
  ghost function TakenTo(x: Asked, s: Now, i: nat, n: nat): seq<nat>
    requires IsMember(x.w, i) && n <= |x.w.kids[i]|
  {
    if n == 0 then [] else TakenTo(x, s, i, n - 1) + if Takes(x, s, i, n - 1) then [x.w.kids[i][n - 1]] else []
  }

  /** What is spliced are the pieces of the children accepted. */
  lemma {:induction false} SplicedAre(x: Asked, truth: seq<Bytes>, s: Now, i: nat, n: nat)
    requires Unchanged(x.w, truth) && IsMember(x.w, i) && n <= |x.w.kids[i]|
    ensures var d := SplicedTo(x, s, i, n);
      && d.segs == AllPieces(x.w, i, d.accepted)
      && (forall p :: p in d.segs ==> p.len > 0)
      && (AllApart(d.segs) ==> Bookkept(d.ends, d.segs))
  {
    hide KidOf, RemovedOf, Bookkept, MappedIn, AllApart, HomeOf, Rangeable;
    if n > 0 {
      SplicedAre(x, truth, s, i, n - 1);
      var before, c := SplicedTo(x, s, i, n - 1), x.w.kids[i][n - 1];
      var d := SplicedTo(x, s, i, n);
      assert IsKid(x.w, i, c);
      assert d == SplicedOne(x, before, i, c);
      if d.accepted != before.accepted {
        var pieces := MappedIn(x.w, i, c).value;
        PiecesHaveBytes(x.w, truth, i, c);
        assert d.accepted[..|before.accepted|] == before.accepted;
        ConcatApart(before.segs, pieces);
        if AllApart(d.segs) {
          PiecesBooked(before.ends, before.segs, pieces);
        }
      }
    } else {
      NothingBooked();
    }
  }

  lemma NothingBooked()
    ensures Bookkept(map[], [])
  {
  }

  /** As long as nothing taken overlaps, the children accepted are exactly those that map in, lead somewhere
      and stay clear of the earlier ones taken. */
  lemma {:induction false} AcceptedAreTaken(x: Asked, truth: seq<Bytes>, s: Now, i: nat, n: nat)
    requires Unchanged(x.w, truth) && IsMember(x.w, i) && n <= |x.w.kids[i]| && AllApart(SplicedTo(x, s, i, n).segs)
    ensures SplicedTo(x, s, i, n).accepted == TakenTo(x, s, i, n)
    ensures forall j :: 0 <= j < n ==> (x.w.kids[i][j] in SplicedTo(x, s, i, n).accepted <==> Takes(x, s, i, j))
  {
    hide KidOf, RemovedOf, Bookkept, MappedIn, AllApart, HomeOf, Rangeable, Takes, SplicedOne;
    if n > 0 {
      var before, c := SplicedTo(x, s, i, n - 1), x.w.kids[i][n - 1];
      StepAccepts(x, truth, s, i, n - 1);
      AcceptedAreTaken(x, truth, s, i, n - 1);
      AcceptedEarlier(x, truth, s, i, n - 1);
    }
  }

  lemma StepAccepts(x: Asked, truth: seq<Bytes>, s: Now, i: nat, j: nat)
    requires Unchanged(x.w, truth) && IsMember(x.w, i) && j < |x.w.kids[i]| && AllApart(SplicedTo(x, s, i, j + 1).segs)
    ensures AllApart(SplicedTo(x, s, i, j).segs)
    ensures SplicedTo(x, s, i, j + 1).accepted == SplicedTo(x, s, i, j).accepted + if Takes(x, s, i, j) then [x.w.kids[i][j]] else []
  {
    hide KidOf, RemovedOf, Bookkept, AllApart, AdmitsPieces, PiecesOf;
    var before, c := SplicedTo(x, s, i, j), x.w.kids[i][j];
    assert IsKid(x.w, i, c);
    assert SplicedTo(x, s, i, j + 1) == SplicedOne(x, before, i, c);
    SplicedAre(x, truth, s, i, j);
    if MappedIn(x.w, i, c).Some? {
      ConcatApart(before.segs, MappedIn(x.w, i, c).value);
    }
    assert AllApart(before.segs);
    if MappedIn(x.w, i, c).Some? {
      FitsIffApart(x.w, truth, before, i, c);
      ClearIff(x.w, i, before.accepted, c);
    }
    assert before.accepted + [] == before.accepted;
  }

  lemma ClearIff(w: World, i: nat, taken: seq<nat>, c: nat)
    requires i < |w.members| && c < |w.members| && MappedIn(w, i, c).Some?
    ensures NoOverlap(MappedIn(w, i, c).value, AllPieces(w, i, taken)) <==>
            forall d, p, q :: d in taken && p in PiecesIn(w, i, c) && q in PiecesIn(w, i, d) ==> Apart(p, q)
  {
    hide Apart, MappedIn;
    InAllPieces(w, i, taken);
  }

  lemma {:induction false} AcceptedEarlier(x: Asked, truth: seq<Bytes>, s: Now, i: nat, n: nat)
    requires Unchanged(x.w, truth) && IsMember(x.w, i) && n <= |x.w.kids[i]|
    ensures forall d :: d in SplicedTo(x, s, i, n).accepted ==> exists j :: 0 <= j < n && x.w.kids[i][j] == d
    ensures forall j :: n <= j < |x.w.kids[i]| ==> x.w.kids[i][j] !in SplicedTo(x, s, i, n).accepted
  {
    hide KidOf, RemovedOf, MappedIn, HomeOf, Rangeable, Fits;
    if n > 0 {
      AcceptedEarlier(x, truth, s, i, n - 1);
      assert x.w.kids[i][n - 1] == x.w.kids[i][n - 1];
    }
  }
}
