/**
 How a mint comes to grief, and over what inputs: literals gone with a lost spool, a sources table
 nested in another, and a child that maps onto itself.
 */
module RecipeGriefs {
  import opened Wrappers
  import opened ByteStrings
  import opened RecipePlan
  import opened RecipeTree
  import opened RecipeTiling
  import opened RecipePlacing
  import opened RecipePlanning
  import opened RecipeSure
  import opened RecipeDocument
  import opened RecipeCapture
  import opened RecipeSpool
  import opened RecipeReread
  import opened RecipeMint
  import opened RecipeTaken

  // ------------------------------------------------------------- lost literals

  /** Some node of build `x` has a literal in the spool. */
  predicate SpoolsSome(p: Plan, x: nat) {
    x in p.builds && x !in p.compress
    && exists k :: 0 <= k < |p.builds[x].segs| && p.builds[x].segs[k].PCluster? && p.builds[x].segs[k].pc < |p.pclusters|
                   && Spools(p.pclusters[p.builds[x].segs[k].pc])
  }

  /** Some node of build `x` has a literal that went with a lost spool. */
  predicate LostSome(p: Plan, x: nat) {
    x in p.builds && x !in p.compress
    && exists k :: 0 <= k < |p.builds[x].segs| && p.builds[x].segs[k].PCluster? && HasLost(p, p.builds[x].segs[k].pc)
  }

  predicate HasLost(p: Plan, pc: nat) {
    pc < |p.pclusters| && exists j :: 0 <= j < |p.pclusters[pc].inputs| && IsLost(p, p.pclusters[pc].inputs[j])
  }

  predicate IsLost(p: Plan, x: PcInput) {
    Spooled(x) && x.spoolOff < LostTo(p)
  }

  /** The node at segment `k` of a sound build: its spooled literals are long, and lie in what was
      spooled. */
  lemma NodeInPlan(w: World, truth: seq<Bytes>, p: Plan, x: nat, k: nat, j: nat)
    requires Sound(w, truth, p) && x in p.builds && k < |p.builds[x].segs| && p.builds[x].segs[k].PCluster?
    ensures p.builds[x].segs[k].pc < |p.pclusters|
    ensures j < |p.pclusters[p.builds[x].segs[k].pc].inputs| && Spooled(p.pclusters[p.builds[x].segs[k].pc].inputs[j]) ==>
              var input := p.pclusters[p.builds[x].segs[k].pc].inputs[j];
              input.len > INLINE_MAX && input.spoolOff + input.len <= |p.literals|
  {
    assert BuildHolds(w, truth, p, x, p.builds[x]);
    var pc := p.builds[x].segs[k].pc;
    if j < |p.pclusters[pc].inputs| {
      InputsInSpool(p.pclusters[pc].inputs, truth, p.literals, j);
    }
  }

  /** The verify pass fails, or reads something else than was spooled, only over literals that went with a
      lost spool. */
  lemma OnlyLostLiteralsFail(w: World, truth: seq<Bytes>, p: Plan, x: nat)
    requires Sound(w, truth, p)
    ensures Blocked(p, x) || Astray(p, x) ==> LostSome(p, x)
  {
    hide Sound, ReadSpool;
    if Blocked(p, x) {
      var k :| 0 <= k < |p.builds[x].segs| && p.builds[x].segs[k].PCluster? && Unreadable(p, p.builds[x].segs[k].pc);
      var pc := p.builds[x].segs[k].pc;
      var j :| 0 <= j < |p.pclusters[pc].inputs| && CannotRead(p, p.pclusters[pc].inputs[j]);
      NodeInPlan(w, truth, p, x, k, j);
      OnlyLostLiteralsReadWrong(p, p.pclusters[pc].inputs[j]);
      assert IsLost(p, p.pclusters[pc].inputs[j]);
    }
    if Astray(p, x) {
      var k :| 0 <= k < |p.builds[x].segs| && p.builds[x].segs[k].PCluster? && Misread(p, p.builds[x].segs[k].pc);
      var pc := p.builds[x].segs[k].pc;
      var j :| 0 <= j < |p.pclusters[pc].inputs| && ReadsWrong(p, p.pclusters[pc].inputs[j]);
      OnlyLostLiteralsReadWrong(p, p.pclusters[pc].inputs[j]);
      assert IsLost(p, p.pclusters[pc].inputs[j]);
    }
  }

  /** When nothing was spooled after the last sweep that failed, the verify pass fails exactly when it
      goes through a node with a literal in the spool. */
  lemma AfterALossFailsIff(w: World, truth: seq<Bytes>, p: Plan, root: nat)
    requires Sound(w, truth, p) && LostTo(p) == |p.literals|
    ensures Fails(w, p, root) <==> exists x :: x in AllVisited(w, p, root) && SpoolsSome(p, x)
  {
    hide Sound, Blocked, SpoolsSome, AllVisited, Fails;
    FailsIffBlocked(w, p, root);
    forall x: nat
      ensures Blocked(p, x) <==> SpoolsSome(p, x)
    {
      SpoolingBlocks(w, truth, p, x);
    }
  }

  lemma SpoolingBlocks(w: World, truth: seq<Bytes>, p: Plan, x: nat)
    requires Sound(w, truth, p) && LostTo(p) == |p.literals|
    ensures Blocked(p, x) <==> SpoolsSome(p, x)
  {
    hide Sound, ReadSpool;
    if Blocked(p, x) {
      var k :| 0 <= k < |p.builds[x].segs| && p.builds[x].segs[k].PCluster? && Unreadable(p, p.builds[x].segs[k].pc);
      assert Spools(p.pclusters[p.builds[x].segs[k].pc]);
    }
    if SpoolsSome(p, x) {
      var k :| 0 <= k < |p.builds[x].segs| && p.builds[x].segs[k].PCluster? && p.builds[x].segs[k].pc < |p.pclusters|
               && Spools(p.pclusters[p.builds[x].segs[k].pc]);
      var pc := p.builds[x].segs[k].pc;
      var j :| 0 <= j < |p.pclusters[pc].inputs| && Spooled(p.pclusters[pc].inputs[j]);
      NodeInPlan(w, truth, p, x, k, j);
      OnlyLostLiteralsReadWrong(p, p.pclusters[pc].inputs[j]);
      assert CannotRead(p, p.pclusters[pc].inputs[j]);
    }
  }

  /** While no sweep fails with something in the spool, nothing is ever lost: the verify pass goes
      through, reads what was spooled, and every node re-encodes. */
  lemma WithoutLossAllReads(w: World, truth: seq<Bytes>, passes: Passes, p: Plan, halted: bool, root: nat)
    requires Sound(w, truth, p) && Caused(w, passes, p, halted)
    requires forall l: Bytes :: l != [] ==> !LosesSpool(passes, l)
    ensures !Fails(w, p, root) && ReadsRight(w, p, root)
    ensures root < |w.members| && Descends(w, p) ==> SturdyFrom(w, truth, p, root)
  {
    hide Sound, Blocked, Astray, Visits, LosesSpool, AllVisited, Descends, SturdyFrom;
    assert LostTo(p) == 0 by {
      if p.drops != [] {
        var d := p.drops[|p.drops| - 1];
        assert LosesSpool(passes, p.literals[..d]);
      }
    }
    forall x: nat
      ensures !Blocked(p, x) && !Astray(p, x)
    {
      OnlyLostLiteralsFail(w, truth, p, x);
    }
    if root < |w.members| && Descends(w, p) {
      ReadsRightIsSturdy(w, truth, p, root);
    }
  }

  // ------------------------------------------------------------- images side by side

  /** The scan of the first image of a shelf, made before anything was spooled. */
  function FirstScan(w: World, sourcesOf: nat -> seq<nat>, passes: Passes, root: nat): Scan {
    if root < |w.kids| && w.kids[root] != [] then SingleScan(sourcesOf, passes, w.kids[root][0], []) else Refused
  }

  /** It opens with a node. */
  predicate OpensWithNode(w: World, sourcesOf: nat -> seq<nat>, passes: Passes, root: nat) {
    var scan := FirstScan(w, sourcesOf, passes, root);
    scan.Scanned? && scan.found != [] && scan.found[0].Node?
  }

  /** That node stands in the image's build, which the root reaches. */
  lemma FirstNodeStands(w: World, truth: seq<Bytes>, sourcesOf: nat -> seq<nat>, passes: Passes, p: Plan, root: nat) returns (k: nat)
    requires Sound(w, truth, p) && Unchanged(w, truth) && IsMember(w, root) && OpensWithNode(w, sourcesOf, passes, root)
    requires Shelved(w, sourcesOf, passes, Ledger([], [], []), p, root)
    ensures var c := w.kids[root][0];
            && c in Visits(w, p, root) && c in p.builds && c !in p.compress && k < |p.builds[c].segs| && p.builds[c].segs[k].PCluster?
            && p.builds[c].segs[k].pc < |p.pclusters|
            && p.pclusters[p.builds[c].segs[k].pc] == FirstScan(w, sourcesOf, passes, root).found[0].node
  {
    hide PlanHolds, Visits;
    var c, x := w.kids[root][0], FirstScan(w, sourcesOf, passes, root).found[0];
    assert IsKid(w, root, c);
    ChildIsThere(w, truth, p, root, c);
    assert c in p.builds.Keys && c !in p.compress.Keys;
    var s :| s in p.builds[c].segs && SlicesAs(p, sourcesOf(c)[0], x, s);
    k :| 0 <= k < |p.builds[c].segs| && p.builds[c].segs[k] == s;
  }

  lemma ChildIsThere(w: World, truth: seq<Bytes>, p: Plan, i: nat, c: nat)
    requires Sound(w, truth, p) && Unchanged(w, truth) && IsKid(w, i, c) && i in p.builds && c in p.builds
    requires exists s :: s in p.builds[i].segs && s.Child? && s.idx == c
    ensures c in Visits(w, p, i)
  {
    hide PlanHolds, Visits;
    var s :| s in p.builds[i].segs && s.Child? && s.idx == c;
    var k :| 0 <= k < |p.builds[i].segs| && p.builds[i].segs[k] == s;
    assert MemberTrue(w, truth, c);
    assert i in p.builds.Keys && i !in p.compress.Keys;
    VisitsDescend(w, p, i, k);
    SelfVisited(w, p, c);
  }

  lemma SelfVisited(w: World, p: Plan, i: nat)
    ensures i in Visits(w, p, i)
  {
  }

  /** The last thing that happened to the spool is that it was lost. */
  predicate EndsLost(l: Ledger) {
    l.drops != [] && l.drops[|l.drops| - 1] == |l.literals|
  }

  /** What minting a shelf spools and loses, image by image. */
  function ShelfEnds(w: World, sourcesOf: nat -> seq<nat>, passes: Passes, root: nat): Ledger {
    if root < |w.kids| then ShelfLedger(sourcesOf, passes, w.kids[root], Ledger([], [], []), |w.kids[root]|) else Ledger([], [], [])
  }

  /** A shelf whose first image spools, and which ends with a loss, is never minted: the verify pass refuses. */
  method MintLost(w: World, ghost truth: seq<Bytes>, sourcesOf: nat -> seq<nat>, passes: Passes, root: nat) returns (r: Outcome)
    requires Unchanged(w, truth) && PassesHold(w, truth, sourcesOf, passes) && IsMember(w, root) && w.members[root].sha256.Some?
    requires OpenShelf(w, sourcesOf, passes, root) && OpensWithNode(w, sourcesOf, passes, root)
    requires Spools(FirstScan(w, sourcesOf, passes, root).found[0].node) && EndsLost(ShelfEnds(w, sourcesOf, passes, root))
    requires !SomeChildSelfOverlaps(w) && !SomeScanPanics(passes)
    ensures r.CheckFailed?
  {
    hide Goes, MadeBy, Unchanged, PassesHold, Sound, Descends, OpenShelf, SomeChildSelfOverlaps, SomeScanPanics, Fails, Nested, Shelved, MintHolds;
    ghost var plan;
    r, plan := Mint(w, truth, sourcesOf, passes, root, true);
    FirstIsLost(w, truth, sourcesOf, passes, plan, root);
  }

  lemma FirstIsLost(w: World, truth: seq<Bytes>, sourcesOf: nat -> seq<nat>, passes: Passes, p: Plan, root: nat)
    requires Sound(w, truth, p) && Unchanged(w, truth) && IsMember(w, root) && OpensWithNode(w, sourcesOf, passes, root)
    requires Shelved(w, sourcesOf, passes, Ledger([], [], []), p, root)
    requires Spools(FirstScan(w, sourcesOf, passes, root).found[0].node) && EndsLost(ShelfEnds(w, sourcesOf, passes, root))
    ensures Fails(w, p, root)
  {
    hide Unchanged, Sound, Fails, AllVisited, Visits, ShelfLedger;
    var k := FirstNodeStands(w, truth, sourcesOf, passes, p, root);
    var c := w.kids[root][0];
    AfterALossFailsIff(w, truth, p, root);
    RootIsVisited(w, p, root);
    assert SpoolsSome(p, c);
  }

  /** A shelf that rebuilds has a first node that re-encodes from what its literals read as in the end. */
  lemma ShelfRestsOnFirst(w: World, truth: seq<Bytes>, sourcesOf: nat -> seq<nat>, passes: Passes, p: Plan, root: nat) returns (stored: Bytes)
    requires Sound(w, truth, p) && Unchanged(w, truth) && Descends(w, p) && IsMember(w, root) && OpensWithNode(w, sourcesOf, passes, root)
    requires Shelved(w, sourcesOf, passes, Ledger([], [], []), p, root) && SturdyFrom(w, truth, p, root)
    ensures var node := FirstScan(w, sourcesOf, passes, root).found[0].node;
            && w.f.sha256(stored) == node.sha256 && node.pad <= node.size && InputsNow(node.inputs, truth, p).Some?
            && Reencode(w.f, InputsNow(node.inputs, truth, p).value, node.size, node.pad, node.preset, node.dictSize) == Some(stored)
  {
    hide Unchanged, Rooted, Visits, Needs, Descends, InputsNow;
    var k := FirstNodeStands(w, truth, sourcesOf, passes, p, root);
    var c := w.kids[root][0];
    assert c in Reached(w, p, root) && Sturdy(w, truth, p, c);
    assert BuildHolds(w, truth, p, c, p.builds[c]);
    var s := p.builds[c].segs[k];
    assert NodeSturdy(w.f, truth, p, c, s);
    stored := Cut(truth[c], s.at, s.len);
  }

  // ------------------------------------------------------------- nested tables

  /** An image that slices an image that slices a third member needs a table within the table. */
  lemma StackedTwiceIsNested(w: World, truth: seq<Bytes>, sourcesOf: nat -> seq<nat>, passes: Passes, p: Plan, i: nat)
    requires Sound(w, truth, p) && Descends(w, p) && Stacked(w, sourcesOf, passes, p, i) && !Claimed(w, sourcesOf(i)[0])
    ensures Nested(w, p)
  {
    hide PlanHolds, Descends;
    var c := sourcesOf(i)[0];
    var s :| s in p.builds[i].segs && c in SegTabled(p.pclusters, s);
    assert c in TabledOf(p.pclusters, p.builds[i].segs);
    assert c in ReferencedTabled(p);
    var d := sourcesOf(c)[0];
    var t :| t in p.builds[c].segs && d in SegTabled(p.pclusters, t);
    var k :| 0 <= k < |p.builds[c].segs| && p.builds[c].segs[k] == t;
    assert c in p.builds.Keys && c !in p.compress.Keys && c !in p.extracts.Keys;
    SegIsNeeded(w, p, c, 0, k);
    assert d in Needs(w, p, c);
  }

  /** So a root image the passes are sure to splice with another such image, that nobody claims, is
      never minted from its parts: writing the table panics, if nothing went wrong before. */
  method MintNested(w: World, ghost truth: seq<Bytes>, sourcesOf: nat -> seq<nat>, passes: Passes, root: nat) returns (r: Outcome)
    requires Unchanged(w, truth) && PassesHold(w, truth, sourcesOf, passes) && IsMember(w, root) && w.members[root].sha256.Some?
    requires Sure(w, sourcesOf, passes, root) && !Claimed(w, sourcesOf(root)[0])
    requires !SomeChildSelfOverlaps(w) && !SomeScanPanics(passes) && forall l: Bytes :: l != [] ==> !LosesSpool(passes, l)
    ensures r.TableIncomplete?
  {
    hide Goes, MadeBy, Unchanged, PassesHold, Sure, Sound, Descends, Stacked, SomeChildSelfOverlaps, SomeScanPanics, LosesSpool, Fails, Nested;
    ghost var plan;
    r, plan := Mint(w, truth, sourcesOf, passes, root, true);
    WithoutLossAllReads(w, truth, passes, plan, r.Panicked?, root);
    StackedTwiceIsNested(w, truth, sourcesOf, passes, plan, root);
  }

  // ------------------------------------------------------------- children that map onto themselves

  /** Where every member's own runs are disjoint, no child maps onto itself and the tiling assertion
      never fires. */
  lemma DisjointRunsNeverFold(w: World, truth: seq<Bytes>)
    requires Unchanged(w, truth)
    requires forall i :: 0 <= i < |w.members| && w.members[i].extents.Some? ==> RunsApart(w.members[i].extents.value.runs)
    ensures !SomeChildSelfOverlaps(w)
  {
    hide Unchanged;
    forall i: nat, c: nat | IsKid(w, i, c) && MappedIn(w, i, c).Some?
      ensures !SelfOverlaps(w, i, c)
    {
      var runs := HomeOf(w, i).value.1;
      ParentIsNotEmpty(w, truth, i, c);
      HomeTiles(w, truth, i, runs);
      PiecesAreApart(runs, |truth[i]|, w.members[c].extents.value.runs, c);
    }
  }

  lemma ParentIsNotEmpty(w: World, truth: seq<Bytes>, i: nat, c: nat)
    requires Unchanged(w, truth) && IsKid(w, i, c) && MappedIn(w, i, c).Some?
    ensures w.members[i].size > 0
  {
    var runs, cruns := HomeOf(w, i).value.1, w.members[c].extents.value.runs;
    assert MemberTrue(w, truth, i) && MemberTrue(w, truth, c);
    RunsTileEnds(cruns, 0, |truth[c]|);
    assert PieceOf(runs, c, cruns[0]).Some? && cruns[0] in cruns;
    if w.members[i].space.None? {
      RunsTileEnds(runs, 0, |truth[i]|);
    }
  }

  lemma HomeTiles(w: World, truth: seq<Bytes>, i: nat, runs: seq<Run>)
    requires Unchanged(w, truth) && IsMember(w, i) && HomeOf(w, i).Some? && runs == HomeOf(w, i).value.1
    ensures i < |truth| && (w.members[i].size > 0 ==> RunsTile(runs, 0, |truth[i]|))
  {
    if w.members[i].size > 0 {
      HomeHolds(w, truth, i);
    }
  }
}
