/**
 A container of three erofs images, the second cut short. The first spools a literal, planning the second
 loses it; if the third is cut short too the mint refuses, and if the third spools in its place the mint
 ends with a document that does not rebuild.
 */
module RecipeShelves {
  import opened Wrappers
  import opened ByteStrings
  import opened ErofsMap
  import opened RecipePlan
  import opened RecipeTree
  import opened RecipeTiling
  import opened RecipePlacing
  import opened RecipePlanning
  import opened RecipeSure
  import opened RecipeDocument
  import opened RecipeCheck
  import opened RecipeSpool
  import opened RecipeReread
  import opened RecipeExposed
  import opened RecipeMint
  import opened RecipeTaken
  import opened RecipeGriefs
  import opened RecipePasses
  import opened RecipeImages
  import opened RecipeSmall
  import opened RecipeWorlds

  // ------------------------------------------------------------- the container

  /** The first image: a pcluster, and a byte that is none of it. */
  function First(): (r: Bytes)
    ensures |r| == 101 && Cut(r, 0, 100) == StoredMix(1, 3)
  {
    var r := StoredMix(1, 3) + [0];
    assert r[..100] == StoredMix(1, 3);
    r
  }

  function Second(): (r: Bytes)
    ensures |r| == 60
  {
    Alike(60, 5)
  }

  /** The third image, whole or cut short. */
  function Third(whole: bool): (r: Bytes)
    ensures |r| == if whole then 101 else 61
    ensures whole ==> Cut(r, 0, 100) == StoredMix(2, 4)
  {
    var r := if whole then StoredMix(2, 4) + [0] else Alike(61, 7);
    assert whole ==> r[..100] == StoredMix(2, 4);
    r
  }

  function Container(whole: bool): Bytes {
    First() + Second() + Third(whole)
  }

  function ShelfTruth(whole: bool): (r: seq<Bytes>)
    ensures |r| == 7
  {
    [Container(whole), First(), Second(), Third(whole), Alike(40, 1), Alike(40, 6), Alike(40, 2)]
  }

  function ShelfMembers(whole: bool): seq<Member> {
    [RootOf(Plain, Container(whole)), RangedOf(Erofs, [Run(0, 0, 101)], First()), RangedOf(Erofs, [Run(0, 101, 60)], Second()),
     RangedOf(Erofs, [Run(0, 161, |Third(whole)|)], Third(whole)), SpooledOf(Plain, 2, 1, 1, Alike(40, 1)),
     SpooledOf(Plain, 2, 2, 2, Alike(40, 6)), SpooledOf(Plain, 2, 3, 3, Alike(40, 2))]
  }

  function ShelfWorld(f: Codecs, whole: bool): World {
    World(PlainCodecs(f), ShelfMembers(whole), [[1, 2, 3], [4], [5], [6], [], [], []],
          [NO_CLAIM, NO_CLAIM, NO_CLAIM, NO_CLAIM, CLAIM, CLAIM, CLAIM],
          map[0 := Container(whole), 1 := Alike(40, 1), 2 := Alike(40, 6), 3 := Alike(40, 2)], 2)
  }

  function ShelfSources(i: nat): seq<nat> {
    if 1 <= i <= 3 then [i + 3] else []
  }

  function ShelfImage(i: nat): Option<Image> {
    if 1 <= i <= 3 then Some(Spooling(i + 3)) else None
  }

  function ShelfPasses(f: Codecs, whole: bool): Passes {
    PassesOf(ShelfWorld(f, whole), ShelfImage)
  }

  predicate ShelfKid(i: nat, c: nat) {
    (i == 0 && 1 <= c <= 3) || (1 <= i <= 3 && c == i + 3)
  }

  lemma ImageIsRange(f: Codecs, whole: bool, i: nat, at: nat, bytes: Bytes)
    requires 1 <= i <= 3 && at + |bytes| <= |Container(whole)| && Cut(Container(whole), at, |bytes|) == bytes && bytes != []
    requires ShelfMembers(whole)[i] == RangedOf(Erofs, [Run(0, at, |bytes|)], bytes) && ShelfTruth(whole)[i] == bytes
    ensures MemberTrue(ShelfWorld(f, whole), ShelfTruth(whole), i)
  {
    var runs := [Run(0, at, |bytes|)];
    assert runs[1..] == [] && RunsTile(runs[1..], |bytes|, |bytes|);
    assert Cut(bytes, 0, |bytes|) == bytes;
    assert RunHolds(Container(whole), runs[0], bytes);
  }

  lemma ShelfHolds(f: Codecs, whole: bool)
    ensures Unchanged(ShelfWorld(f, whole), ShelfTruth(whole))
    ensures forall i: nat, c: nat :: IsKid(ShelfWorld(f, whole), i, c) <==> ShelfKid(i, c)
  {
    var w, truth, all := ShelfWorld(f, whole), ShelfTruth(whole), Container(whole);
    assert Cut(all, 0, 101) == First() && Cut(all, 101, 60) == Second() && Cut(all, 161, |Third(whole)|) == Third(whole);
    hide First, Second, Third;
    ImageIsRange(f, whole, 1, 0, First());
    ImageIsRange(f, whole, 2, 101, Second());
    ImageIsRange(f, whole, 3, 161, Third(whole));
    forall i | 0 <= i < 7
      ensures MemberTrue(w, truth, i)
    {
    }
  }

  // ------------------------------------------------------------- its passes

  lemma ImagesAreOrderly(f: Codecs, whole: bool, i: nat)
    requires 1 <= i <= 3
    ensures Orderly(ShelfWorld(f, whole), i, Spooling(i + 3))
  {
    hide PackedInode, Solid, Covers;
    SpoolingIsSolid(i + 3);
  }

  lemma ShelfPassesHold(f: Codecs, whole: bool)
    ensures PassesHold(ShelfWorld(f, whole), ShelfTruth(whole), ShelfSources, ShelfPasses(f, whole))
    ensures !SomeScanPanics(ShelfPasses(f, whole)) && !SomeChildSelfOverlaps(ShelfWorld(f, whole))
  {
    hide Orderly, Unchanged, First, Second, Third;
    var w, truth := ShelfWorld(f, whole), ShelfTruth(whole);
    ShelfHolds(f, whole);
    ImagesAreOrderly(f, whole, 1);
    ImagesAreOrderly(f, whole, 2);
    ImagesAreOrderly(f, whole, 3);
    forall i: nat, k | i < 7 && 0 <= k < |ShelfSources(i)|
      ensures SourceKid(w, i, ShelfSources(i)[k])
    {
      assert IsKid(w, i, i + 3);
    }
    OrderlyPassesHold(w, truth, f, ShelfSources, ShelfImage);
    DisjointRunsNeverFold(w, truth);
  }

  lemma ShelfHoldsWhole(f: Codecs, whole: bool, i: nat)
    requires 1 <= i <= 3
    ensures HoldsWhole(ShelfWorld(f, whole), ShelfTruth(whole), i, i + 3, 0, Spooling(i + 3))
  {
    hide First, Second, Third, Unchanged, PackedInode;
    ShelfHolds(f, whole);
    SpoolingIsSolid(i + 3);
  }

  /** An image that is whole spools its literal, one that is cut short loses the spool. */
  lemma ShelfScan(f: Codecs, whole: bool, i: nat, l: Bytes)
    requires 1 <= i <= 3
    ensures SingleScan(ShelfSources, ShelfPasses(f, whole), i, l)
            == if i == 1 then Scanned([Node(MixNode(4, 1, 3, |l|), 0)], l + Alike(80, 3))
               else if i == 3 && whole then Scanned([Node(MixNode(6, 2, 4, |l|), 0)], l + Alike(80, 4))
               else SpoolLost([])
  {
    hide ScanOf, PassesOf, HoldsWhole;
    var w, truth := ShelfWorld(f, whole), ShelfTruth(whole);
    PassIs(w, ShelfImage, i, {i + 3}, l);
    ShelfHoldsWhole(f, whole, i);
    if i == 1 {
      SpoolingScan(w, truth, f, 1, 4, 1, 3, {4}, l);
    } else if i == 3 && whole {
      SpoolingScan(w, truth, f, 3, 6, 2, 4, {6}, l);
    } else {
      TruncatedScan(w, truth, i, i + 3, {i + 3}, l);
    }
  }

  // ------------------------------------------------------------- it is a shelf

  lemma ShelfIsShelf(f: Codecs, whole: bool)
    ensures Shelf(ShelfWorld(f, whole), ShelfSources, 0)
  {
    hide First, Second, Third, Unchanged;
    var w := ShelfWorld(f, whole);
    ShelfHolds(f, whole);
    forall c: nat | 1 <= c <= 3
      ensures OnShelf(w, ShelfSources, 0, c)
    {
      assert IsKid(w, c, c + 3);
    }
    var runs := [Run(0, 0, |Container(whole)|)];
    assert HostOf(runs, 0, 101) == Some(0);
    assert PiecesOf(runs, [Run(0, 0, 101)], 1).Some?;
  }

  lemma ShelfIsOpen(f: Codecs, whole: bool)
    ensures OpenShelf(ShelfWorld(f, whole), ShelfSources, ShelfPasses(f, whole), 0)
    ensures OpensWithNode(ShelfWorld(f, whole), ShelfSources, ShelfPasses(f, whole), 0)
    ensures FirstScan(ShelfWorld(f, whole), ShelfSources, ShelfPasses(f, whole), 0).found[0].node == MixNode(4, 1, 3, 0)
  {
    hide Shelf, PassesOf, First, Second, Third;
    ShelfIsShelf(f, whole);
    ShelfScan(f, whole, 1, []);
    assert MixNode(4, 1, 3, 0).inputs[0].Part? && 4 in PartsOf(MixNode(4, 1, 3, 0).inputs);
    assert LogicalHostOf([Run(0, 0, 101)], 0, 100) == Some(0);
  }

  /** What is spooled and lost along the shelf. */
  lemma ShelfLedgerIs(f: Codecs, whole: bool)
    ensures ShelfEnds(ShelfWorld(f, whole), ShelfSources, ShelfPasses(f, whole), 0)
            == if whole then Ledger([MixNode(4, 1, 3, 0), MixNode(6, 2, 4, 80)], Alike(80, 3) + Alike(80, 4), [80])
               else Ledger([MixNode(4, 1, 3, 0)], Alike(80, 3), [80, 80])
  {
    hide PassesOf, First, Second, Third, MixNode;
    var passes, kids, none := ShelfPasses(f, whole), [1, 2, 3], Ledger([], [], []);
    ShelfScan(f, whole, 1, []);
    ShelfScan(f, whole, 2, Alike(80, 3));
    ShelfScan(f, whole, 3, Alike(80, 3));
    var nothing: Bytes := [];
    assert nothing + Alike(80, 3) == Alike(80, 3);
    OneNodeIn(MixNode(4, 1, 3, 0));
    OneNodeIn(MixNode(6, 2, 4, 80));
    assert NodesIn([]) == [];
    var one := Ledger([MixNode(4, 1, 3, 0)], Alike(80, 3), []);
    var two := Ledger([MixNode(4, 1, 3, 0)], Alike(80, 3), [80]);
    assert ShelfLedger(ShelfSources, passes, kids, none, 0) == none;
    assert ShelfLedger(ShelfSources, passes, kids, none, 1) == one;
    assert ShelfLedger(ShelfSources, passes, kids, none, 2) == two;
    assert [MixNode(4, 1, 3, 0)] + [MixNode(6, 2, 4, 80)] == [MixNode(4, 1, 3, 0), MixNode(6, 2, 4, 80)];
  }

  lemma OneNodeIn(node: PClusterNode)
    ensures NodesIn([Node(node, 0)]) == [node]
  {
    assert [Node(node, 0)][..0] == [] && NodesIn([]) == [];
  }

  // ------------------------------------------------------------- the mint refuses

  /** With the third image cut short as well, the verify pass refuses. */
  method MintLosingShelf(f: Codecs) returns (r: Outcome)
    ensures r.CheckFailed?
  {
    ShelfHolds(f, false);
    ShelfPassesHold(f, false);
    ShelfIsOpen(f, false);
    ShelfLedgerIs(f, false);
    assert Spooled(MixNode(4, 1, 3, 0).inputs[1]);
    hide Goes, MadeBy, Unchanged, PassesHold, OpenShelf, SomeChildSelfOverlaps, SomeScanPanics, ShelfPasses, ShelfEnds, FirstScan, First, Second, Third;
    r := MintLost(ShelfWorld(f, false), ShelfTruth(false), ShelfSources, ShelfPasses(f, false), 0);
  }

  // ------------------------------------------------------------- the mint ends, and the document does not rebuild

  /** A sound plan of the shelf whose third image spooled where the first one's literal was. */
  ghost predicate Refilled(f: Codecs, p: Plan) {
    && Sound(ShelfWorld(f, true), ShelfTruth(true), p) && Descends(ShelfWorld(f, true), p)
    && Shelved(ShelfWorld(f, true), ShelfSources, ShelfPasses(f, true), Ledger([], [], []), p, 0)
  }

  lemma RefilledLedger(f: Codecs, p: Plan)
    requires Refilled(f, p)
    ensures p.pclusters == [MixNode(4, 1, 3, 0), MixNode(6, 2, 4, 80)] && p.literals == Alike(80, 3) + Alike(80, 4) && p.drops == [80]
  {
    hide ShelfPasses, First, Second, Third, MixNode, ShelfLedger, Sound, Descends;
    ShelfLedgerIs(f, true);
  }

  /** Both literals can be read, the first as what the third image spooled. */
  lemma RefilledReads(p: Plan)
    requires p.literals == Alike(80, 3) + Alike(80, 4) && p.drops == [80]
    ensures ReadSpool(p, 0, 80) == Some(Alike(80, 4)) && ReadSpool(p, 80, 80) == Some(Alike(80, 4))
  {
    SecondSpoolReads(p, Alike(80, 3), Alike(80, 4));
  }

  /** After one loss, what lies at the front of the spool that is gone reads as the front of the next. */
  lemma SecondSpoolReads(p: Plan, gone: Bytes, now: Bytes)
    requires p.literals == gone + now && p.drops == [|gone|] && |gone| == |now| > 0
    ensures ReadSpool(p, 0, |gone|) == Some(now) && ReadSpool(p, |gone|, |gone|) == Some(now)
  {
    hide SpoolStart;
    assert (gone + now)[|gone|..] == now;
    assert SpoolNow(p) == now && Cut(now, 0, |now|) == now;
    OneDrop(|gone|);
  }

  lemma OneDrop(n: nat)
    requires n > 0
    ensures SpoolStart([n], 0) == 0 && SpoolStart([n], n) == n
  {
    var drops := [n];
    assert drops[..|drops| - 1] == [] && SpoolStart([], 0) == 0;
  }

  lemma RefilledIsReadable(f: Codecs, p: Plan)
    requires Refilled(f, p)
    ensures !Fails(ShelfWorld(f, true), p, 0)
  {
    hide ReadSpool, AllVisited, Fails, First, Second, Third, Refilled;
    RefilledLedger(f, p);
    RefilledReads(p);
    forall pc: nat
      ensures !Unreadable(p, pc)
    {
    }
    FailsIffBlocked(ShelfWorld(f, true), p, 0);
  }

  /** A member without children needs no table. */
  lemma ChildlessNeedsNothing(w: World, truth: seq<Bytes>, p: Plan, i: nat)
    requires Sound(w, truth, p) && Descends(w, p) && i < |w.members| && forall c: nat :: !IsKid(w, i, c)
    ensures Needs(w, p, i) == {}
  {
    hide PlanHolds, Descends;
    assert forall c: nat :: EntryRefers(p, i, c) ==> IsKid(w, i, c);
    if i !in p.extracts && i in p.builds && i !in p.compress {
      forall y | y in SegsNeed(w, p, i, 0)
        ensures exists c: nat :: EntryRefers(p, i, c)
      {
        var k := NeedComes(w, p, i, 0, y);
        var s := p.builds[i].segs[k];
        assert s.Child? ==> EntryRefers(p, i, s.idx);
        assert !s.Child? ==> EntryRefers(p, i, y);
      }
    }
    assert i in p.compress ==> EntryRefers(p, i, p.compress[i].child);
  }

  /** Only the images' files are tabled, and they have no children. */
  lemma RefilledIsNotNested(f: Codecs, p: Plan)
    requires Refilled(f, p)
    ensures !Nested(ShelfWorld(f, true), p)
  {
    hide PlanHolds, Descends, Needs, First, Second, Third, ShelfPasses, ShelfLedger, SingleStands, Unchanged;
    var w, truth := ShelfWorld(f, true), ShelfTruth(true);
    ShelfHolds(f, true);
    forall i | i in ReferencedTabled(p) && i < |w.members|
      ensures Needs(w, p, i) == {}
    {
      var j :| j in p.builds && i in TabledOf(p.pclusters, p.builds[j].segs);
      var s :| s in p.builds[j].segs && i in SegTabled(p.pclusters, s);
      var k :| 0 <= k < |p.builds[j].segs| && p.builds[j].segs[k] == s;
      assert EntryRefers(p, j, i);
      assert IsKid(w, j, i) && j != 0;
      ChildlessNeedsNothing(w, truth, p, i);
    }
  }

  /** What the first image's node is made of now. */
  lemma RefilledFed(f: Codecs, p: Plan)
    requires p.literals == Alike(80, 3) + Alike(80, 4) && p.drops == [80]
    ensures InputsNow(MixNode(4, 1, 3, 0).inputs, ShelfTruth(true), p) == Some(Alike(40, 1) + (Alike(80, 4) + []))
  {
    hide ReadSpool, First, Second, Third, Container;
    RefilledReads(p);
    var inputs, truth := MixNode(4, 1, 3, 0).inputs, ShelfTruth(true);
    assert Cut(truth[4], 0, 40) == Alike(40, 1);
    assert inputs[1..][1..] == [] && InputsNow(inputs[1..][1..], truth, p) == Some([]);
    assert inputs[1..][0] == inputs[1];
    assert InputsNow(inputs[1..], truth, p) == Some(Alike(80, 4) + []);
  }

  lemma RefilledIsNotSturdy(f: Codecs, p: Plan)
    requires Refilled(f, p)
    ensures !SturdyFrom(ShelfWorld(f, true), ShelfTruth(true), p, 0)
  {
    hide Sound, Descends, InputsNow, First, Second, Third, Unchanged, ShelfPasses, SturdyFrom, Shelved;
    var w, truth := ShelfWorld(f, true), ShelfTruth(true);
    ShelfHolds(f, true);
    RefilledLedger(f, p);
    ShelfIsOpen(f, true);
    RefilledFed(f, p);
    var fed := Alike(40, 1) + (Alike(80, 4) + []);
    assert fed == Mix(1, 4) by { assert Alike(80, 4) + [] == Alike(80, 4); }
    MixIsStored(1, 4);
    assert Resize(Zeros(0) + StoredMix(1, 4), 100) == StoredMix(1, 4);
    assert StoredMix(1, 4)[20] == 4 && StoredMix(1, 3)[20] == 3;
    if SturdyFrom(w, truth, p, 0) {
      var stored := ShelfRestsOnFirst(w, truth, ShelfSources, ShelfPasses(f, true), p, 0);
      assert false;
    }
  }

  /** The bytes of all members, and of both pclusters, are different. */
  lemma RefilledDigestsDiffer(f: Codecs, p: Plan, d: Digest)
    requires Refilled(f, p) && LeafOf(ShelfWorld(f, true), ShelfTruth(true), p, d)
    ensures !BuiltOf(ShelfWorld(f, true), ShelfTruth(true), p, d)
  {
    hide Shelved, Rooted, Descends, BuildHolds, CompressHolds, ShelfPasses;
    var w, truth := ShelfWorld(f, true), ShelfTruth(true);
    RefilledLedger(f, p);
    NoArchivesNoExtracts(w, truth, p);
    var j :| 0 <= j < |truth| && !Planned(p, j) && w.f.sha256(truth[j]) == d;
    ShelfBytesDiffer(j);
  }

  lemma NoArchivesNoExtracts(w: World, truth: seq<Bytes>, p: Plan)
    requires PlanHolds(w, truth, p) && forall i :: 0 <= i < |w.evidence| ==> w.evidence[i].archive.None?
    ensures forall i :: i !in p.extracts
  {
    hide BuildHolds, CompressHolds;
  }

  lemma ShelfBytesDiffer(j: nat)
    requires j < 7
    ensures forall k :: 0 <= k < 7 && k != j ==> ShelfTruth(true)[k] != ShelfTruth(true)[j]
    ensures |ShelfTruth(true)[j]| != 100
  {
    var truth := ShelfTruth(true);
    assert First()[0] == StoredMix(1, 3)[0] == 1 && Third(true)[0] == StoredMix(2, 4)[0] == 2;
    assert Alike(40, 1)[0] == 1 && Alike(40, 6)[0] == 6 && Alike(40, 2)[0] == 2;
    assert |truth[0]| == 262 && |truth[1]| == 101 && |truth[2]| == 60 && |truth[3]| == 101;
  }

  /** With the third image whole the mint ends normally, and its document does not rebuild the container. */
  method MintRefilledShelf(f: Codecs) returns (r: Outcome)
    ensures r.Minted? && NamesRoot(PlainCodecs(f), r.doc, Container(true)) && !Rebuilds(PlainCodecs(f), r.doc, Container(true))
  {
    ShelfHolds(f, true);
    ShelfPassesHold(f, true);
    ShelfIsOpen(f, true);
    hide Goes, MadeBy, Unchanged, PassesHold, OpenShelf, SomeChildSelfOverlaps, SomeScanPanics, ShelfPasses, First, Second, Third, Container, Sound, Descends, Shelved,
         Fails, Nested, Rebuilds, LeavesApart, DocumentFrom, SturdyFrom, NamesRoot;
    ghost var plan;
    r, plan := Mint(ShelfWorld(f, true), ShelfTruth(true), ShelfSources, ShelfPasses(f, true), 0, true);
    RefilledIsReadable(f, plan);
    RefilledIsNotNested(f, plan);
    RefilledIsNotSturdy(f, plan);
    RefilledLeavesApart(f, plan, r.doc);
    NothingIsAttested(f);
    IdentityIsOne(f, r.doc);
  }

  lemma RefilledLeavesApart(f: Codecs, p: Plan, doc: Document)
    requires Refilled(f, p) && DocumentFrom(ShelfWorld(f, true), ShelfTruth(true), p, doc)
    ensures LeavesApart(doc)
  {
    hide Refilled, LeafOf, BuiltOf, DocumentFrom;
    forall d | LeafOf(ShelfWorld(f, true), ShelfTruth(true), p, d)
      ensures !BuiltOf(ShelfWorld(f, true), ShelfTruth(true), p, d)
    {
      RefilledDigestsDiffer(f, p, d);
    }
    LeavesAreApart(ShelfWorld(f, true), ShelfTruth(true), p, doc);
  }

  lemma NothingIsAttested(f: Codecs)
    ensures EvidenceTrue(ShelfWorld(f, true), ShelfTruth(true))
  {
  }

  lemma IdentityIsOne(f: Codecs, doc: Document)
    ensures OnePreimage(PlainCodecs(f), Named(doc))
  {
  }
}
