/**
 Where a member is built, which children are spliced there, what lies below a member that leads
 somewhere, and what a plan refers to.
 */
module RecipeRoutes {
  import opened Wrappers
  import opened ByteStrings
  import opened RecipePlan
  import opened RecipeTree
  import opened RecipeTiling
  import opened RecipePlacing
  import opened RecipePlanning

  // ------------------------------------------------------------- where a member is built

  /** A spooled member is built whole in its spool, any other in the runs of its own extents. */
  predicate BuiltIn(m: Member, space: nat, runs: seq<Run>) {
    if m.space.Some? then m.space == Some(space) && |runs| == 1 && runs[0].log == 0 && runs[0].off == 0 && runs[0].len == m.size
    else m.extents.Some? && m.extents.value.src == space && m.extents.value.runs == runs
  }

  /** The run of `runs` that is first to hold all of `r`. */
  predicate FirstHost(runs: seq<Run>, r: Run, k: nat) {
    && k < |runs| && runs[k].off <= r.off && r.off + r.len <= runs[k].off + runs[k].len
    && forall j :: 0 <= j < k ==> !(runs[j].off <= r.off && r.off + r.len <= runs[j].off + runs[j].len)
  }

  ghost predicate Hosted(runs: seq<Run>, r: Run) {
    exists k: nat :: FirstHost(runs, r, k)
  }

  /** Child `c` can be spliced in: it is worth naming, it lies in the same space, and every run of it in one run of
      the parent's. */
  ghost predicate Spliceable(m: Member, space: nat, runs: seq<Run>) {
    && m.size >= IDENTITY_MIN_BYTES && m.sha256.Some? && m.extents.Some? && m.extents.value.src == space
    && forall n :: 0 <= n < |m.extents.value.runs| ==> Hosted(runs, m.extents.value.runs[n])
  }

  /** A piece stands where the parent's run puts the child's run. */
  ghost predicate PieceIs(runs: seq<Run>, c: nat, r: Run, piece: Seg) {
    exists k: nat :: FirstHost(runs, r, k) && piece == Child(c, r.log, r.len, runs[k].log + (r.off - runs[k].off), r.off)
  }

  lemma BuiltInIff(w: World, i: nat, space: nat, runs: seq<Run>)
    requires i < |w.members|
    ensures HomeOf(w, i) == Some((space, runs)) <==> BuiltIn(w.members[i], space, runs)
    ensures HomeOf(w, i).None? <==> w.members[i].space.None? && w.members[i].extents.None?
  {
    if BuiltIn(w.members[i], space, runs) && w.members[i].space.Some? {
      assert runs == [runs[0]];
    }
  }

  lemma HostIsFirst(runs: seq<Run>, r: Run, k: nat)
    ensures HostOf(runs, r.off, r.len) == Some(k) <==> FirstHost(runs, r, k)
  {
    if FirstHost(runs, r, k) {
      assert Hosts(runs[k], r.off, r.len);
    }
  }

  lemma PieceIff(runs: seq<Run>, c: nat, r: Run)
    ensures PieceOf(runs, c, r).Some? <==> Hosted(runs, r)
    ensures PieceOf(runs, c, r).Some? ==> PieceIs(runs, c, r, PieceOf(runs, c, r).value)
  {
    hide FirstHost;
    var h := HostOf(runs, r.off, r.len);
    if h.Some? {
      HostIsFirst(runs, r, h.value);
    }
    forall k: nat | FirstHost(runs, r, k)
      ensures h == Some(k)
    {
      HostIsFirst(runs, r, k);
    }
  }

  /** A child is mapped into its parent exactly when it can be spliced there, run by run. */
  lemma MappedInIff(w: World, i: nat, c: nat, space: nat, runs: seq<Run>)
    requires i < |w.members| && c < |w.members| && BuiltIn(w.members[i], space, runs)
    ensures MappedIn(w, i, c).Some? <==> Spliceable(w.members[c], space, runs)
    ensures MappedIn(w, i, c).Some? ==>
              var cruns, pieces := w.members[c].extents.value.runs, MappedIn(w, i, c).value;
              |pieces| == |cruns| && forall n :: 0 <= n < |cruns| ==> PieceIs(runs, c, cruns[n], pieces[n])
  {
    hide PieceIs, PieceOf, Hosted, HomeOf, BuiltIn;
    BuiltInIff(w, i, space, runs);
    var m := w.members[c];
    if m.extents.Some? {
      var cruns := m.extents.value.runs;
      forall n | 0 <= n < |cruns|
        ensures PieceOf(runs, c, cruns[n]).Some? <==> Hosted(runs, cruns[n])
        ensures PieceOf(runs, c, cruns[n]).Some? ==> PieceIs(runs, c, cruns[n], PieceOf(runs, c, cruns[n]).value)
      {
        PieceIff(runs, c, cruns[n]);
      }
    }
  }

  /** The run of `runs` that is first to have all of the member's own range `[at, at + len)`. */
  predicate FirstAt(runs: seq<Run>, at: nat, len: nat, k: nat) {
    && k < |runs| && runs[k].log <= at && at + len <= runs[k].log + runs[k].len
    && forall j :: 0 <= j < k ==> !(runs[j].log <= at && at + len <= runs[j].log + runs[j].len)
  }

  lemma LogicalHostIsFirst(runs: seq<Run>, at: nat, len: nat, k: nat)
    ensures LogicalHostOf(runs, at, len) == Some(k) <==> FirstAt(runs, at, len, k)
  {
    if FirstAt(runs, at, len, k) {
      assert HostsLogically(runs[k], at, len);
    }
  }

  /** The segment `s` at the image's offset `s.rootOff`, put where `run` has that offset. */
  function PutAt(s: Seg, run: Run): Seg
    requires (s.PCluster? || s.Tabled?) && run.log <= s.rootOff
  {
    var there := run.off + (s.rootOff - run.log);
    if s.PCluster? then PCluster(s.pc, s.rootOff, s.len, there) else Tabled(s.idx, s.from, s.len, s.rootOff, there)
  }

  /** A late segment, found at an offset of the image, has a place exactly when one run of the image has all of it:
      the image's offset becomes its place in the build, and the run says where that is in the space. */
  lemma PlacedIff(runs: seq<Run>, s: Seg, t: Seg)
    ensures !(s.PCluster? || s.Tabled?) ==> Place(runs, s).None?
    ensures s.PCluster? || s.Tabled? ==>
              (Place(runs, s) == Some(t) <==> exists k: nat :: FirstAt(runs, s.rootOff, s.len, k) && t == PutAt(s, runs[k]))
  {
    if s.PCluster? || s.Tabled? {
      forall k: nat
        ensures LogicalHostOf(runs, s.rootOff, s.len) == Some(k) <==> FirstAt(runs, s.rootOff, s.len, k)
      {
        LogicalHostIsFirst(runs, s.rootOff, s.len, k);
      }
    }
  }

  // ------------------------------------------------------------- what leads somewhere

  lemma {:induction false} UnderThrough(w: World, x: nat, i: nat) returns (c: nat)
    requires Under(w, x, i) && x != i
    ensures IsKid(w, i, c) && Under(w, x, c)
    decreases if x < |w.members| then w.members[x].depth else 0
  {
    var p := w.members[x].parent.value;
    if p == i {
      c := x;
    } else {
      c := UnderThrough(w, p, i);
    }
  }

  lemma {:induction false} UnderKid(w: World, x: nat, c: nat, i: nat)
    requires Under(w, x, c) && IsKid(w, i, c)
    ensures Under(w, x, i) && x != i
    decreases if x < |w.members| then w.members[x].depth else 0
  {
    UnderIsOneDeeper(w, x, c);
    if x != c {
      UnderKid(w, w.members[x].parent.value, c, i);
    } else {
      assert Under(w, i, i);
    }
  }

  lemma UnderIsOneDeeper(w: World, x: nat, c: nat)
    requires Under(w, x, c) && IsMember(w, c)
    ensures IsMember(w, x) && w.members[x].depth >= w.members[c].depth
  {
    if x != c {
      UnderIsDeeper(w, x, c);
    }
  }

  /** Something below a member leads somewhere exactly when a child does, or something below a child. */
  lemma SubtreeLeadsIff(w: World, i: nat)
    ensures SubtreeFetchable(w, i) <==>
            exists c: nat :: IsKid(w, i, c) && (Claimed(w, c) || w.evidence[c].archive.Some? || SubtreeFetchable(w, c))
  {
    hide Under;
    if SubtreeFetchable(w, i) {
      var x :| 0 <= x < |w.members| && x != i && Under(w, x, i) && (Claimed(w, x) || Extractable(w, x));
      var c := UnderThrough(w, x, i);
      assert x == c || SubtreeFetchable(w, c);
    }
    if c: nat :| IsKid(w, i, c) && (Claimed(w, c) || w.evidence[c].archive.Some? || SubtreeFetchable(w, c)) {
      if SubtreeFetchable(w, c) {
        var x :| 0 <= x < |w.members| && x != c && Under(w, x, c) && (Claimed(w, x) || Extractable(w, x));
        UnderKid(w, x, c, i);
      } else {
        UnderItself(w, c);
        UnderKid(w, c, c, i);
      }
    }
  }

  lemma UnderItself(w: World, x: nat)
    ensures Under(w, x, x)
  {
  }

  // ------------------------------------------------------------- what a plan refers to

  /** A plan refers to a member exactly when an entry does, or a pcluster it has planned slices it. */
  lemma ReferencedIff(p: Plan, x: nat)
    ensures ReferencedByPlan(p, x) <==>
            (exists j :: EntryRefers(p, j, x)) || exists n :: 0 <= n < |p.pclusters| && x in PartsOf(p.pclusters[n].inputs)
  {
    if j :| EntryRefers(p, j, x) {
      if j in p.builds && exists k :: 0 <= k < |p.builds[j].segs| && x in SegRefs(p.pclusters, p.builds[j].segs[k]) {
        var k :| 0 <= k < |p.builds[j].segs| && x in SegRefs(p.pclusters, p.builds[j].segs[k]);
        var s := p.builds[j].segs[k];
        assert !s.PCluster? ==> NamesMember(s, x);
      }
    }
    if ReferencedByPlan(p, x) {
      if j :| j in p.builds && exists k :: 0 <= k < |p.builds[j].segs| && NamesMember(p.builds[j].segs[k], x) {
        var k :| 0 <= k < |p.builds[j].segs| && NamesMember(p.builds[j].segs[k], x);
        assert x in SegRefs(p.pclusters, p.builds[j].segs[k]);
        assert EntryRefers(p, j, x);
      } else if j :| j in p.compress && p.compress[j].child == x {
        assert EntryRefers(p, j, x);
      }
    }
  }
}
