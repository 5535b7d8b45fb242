/**
 What the nodes of a plan make of their literals as the spool reads now, and which of them a document
 that is written from the plan rests on.
 */
module RecipeReread {
  import opened Wrappers
  import opened ByteStrings
  import opened RecipePlan
  import opened RecipeTree
  import opened RecipeCapture
  import opened RecipeDocument
  import opened RecipeSpool

  // ------------------------------------------------------------- one node

  /** What an input stands for as the spool reads now. */
  function InputNow(x: PcInput, truth: seq<Bytes>, p: Plan): Option<Bytes> {
    if Spooled(x) then ReadSpool(p, x.spoolOff, x.len) else InputBytes(x, truth, p.literals)
  }

  function InputsNow(inputs: seq<PcInput>, truth: seq<Bytes>, p: Plan): Option<Bytes> {
    if inputs == [] then Some([])
    else
      match (InputNow(inputs[0], truth, p), InputsNow(inputs[1..], truth, p))
      case (Some(a), Some(b)) => Some(a + b)
      case (_, _) => None
  }

  /** What is read now is as long as what was spooled. */
  lemma {:induction false} SameLength(inputs: seq<PcInput>, truth: seq<Bytes>, p: Plan)
    requires InputsNow(inputs, truth, p).Some? && InputsBytes(inputs, truth, p.literals).Some?
    ensures |InputsNow(inputs, truth, p).value| == |InputsBytes(inputs, truth, p.literals).value|
  {
    if inputs != [] {
      SameLength(inputs[1..], truth, p);
    }
  }

  /** Read now, the node's inputs re-encode to its stored bytes. */
  predicate Reencodes(f: Codecs, p: Plan, pc: nat, truth: seq<Bytes>, stored: Bytes) {
    && pc < |p.pclusters|
    && var node := p.pclusters[pc];
    && node.pad <= node.size && InputsNow(node.inputs, truth, p).Some?
    && Reencode(f, InputsNow(node.inputs, truth, p).value, node.size, node.pad, node.preset, node.dictSize) == Some(stored)
  }

  /** A true node whose literals all read as what was spooled re-encodes. */
  lemma ReadRightReencodes(f: Codecs, p: Plan, pc: nat, truth: seq<Bytes>, stored: Bytes)
    requires pc < |p.pclusters| && NodeHolds(f, p.pclusters[pc], stored, truth, p.literals) && !Misread(p, pc)
    ensures Reencodes(f, p, pc, truth, stored)
  {
    var inputs := p.pclusters[pc].inputs;
    forall k | 0 <= k < |inputs|
      ensures !ReadsWrong(p, inputs[k])
    {
    }
    ReadRight(inputs, truth, p);
  }

  lemma {:induction false} ReadRight(inputs: seq<PcInput>, truth: seq<Bytes>, p: Plan)
    requires InputsBytes(inputs, truth, p.literals).Some? && forall k :: 0 <= k < |inputs| ==> !ReadsWrong(p, inputs[k])
    ensures InputsNow(inputs, truth, p) == InputsBytes(inputs, truth, p.literals)
  {
    hide ReadSpool;
    if inputs != [] {
      assert !ReadsWrong(p, inputs[0]);
      forall k | 0 <= k < |inputs[1..]|
        ensures !ReadsWrong(p, inputs[1..][k])
      {
        assert inputs[1..][k] == inputs[k + 1];
      }
      ReadRight(inputs[1..], truth, p);
    }
  }

  // ------------------------------------------------------------- what a document rests on

  predicate NodeSturdy(f: Codecs, truth: seq<Bytes>, p: Plan, x: nat, s: Seg) {
    s.PCluster? ==> x < |truth| && s.End() <= |truth[x]| && Reencodes(f, p, s.pc, truth, Cut(truth[x], s.at, s.len))
  }

  /** Every node of build `x` re-encodes. */
  predicate Sturdy(w: World, truth: seq<Bytes>, p: Plan, x: nat) {
    x in p.builds && x !in p.compress ==>
      forall k :: 0 <= k < |p.builds[x].segs| ==> NodeSturdy(w.f, truth, p, x, p.builds[x].segs[k])
  }

  /** What the written node of `i` is made of: all that is gone through below it, and below the members it
      takes from the sources table. */
  function Reached(w: World, p: Plan, i: nat): set<nat>
    requires Descends(w, p) && i < |w.members|
  {
    Visits(w, p, i) + set y, x | y in Needs(w, p, i) && x in Visits(w, p, y) :: x
  }

  /** Every node the written node of `i` rests on re-encodes. */
  ghost predicate SturdyFrom(w: World, truth: seq<Bytes>, p: Plan, i: nat)
    requires Descends(w, p) && i < |w.members|
  {
    forall x :: x in Reached(w, p, i) ==> Sturdy(w, truth, p, x)
  }

  ghost predicate VisitsSturdy(w: World, truth: seq<Bytes>, p: Plan, y: nat) {
    forall x :: x in Visits(w, p, y) ==> Sturdy(w, truth, p, x)
  }

  /** A member written without the table rests on what is gone through below it alone. */
  lemma SelfContainedIsSturdy(w: World, truth: seq<Bytes>, p: Plan, y: nat)
    requires Descends(w, p) && y < |w.members| && Needs(w, p, y) == {}
    ensures SturdyFrom(w, truth, p, y) <==> VisitsSturdy(w, truth, p, y)
  {
    assert Reached(w, p, y) == Visits(w, p, y);
  }

  /** A segment of build `i` rests on nodes that re-encode. */
  ghost predicate SegSturdy(w: World, truth: seq<Bytes>, p: Plan, i: nat, k: nat)
    requires Descends(w, p) && i in p.builds && k < |p.builds[i].segs|
  {
    var s := p.builds[i].segs[k];
    if s.Child? then SturdyFrom(w, truth, p, s.idx)
    else NodeSturdy(w.f, truth, p, i, s) && forall y :: y in SegTabled(p.pclusters, s) ==> VisitsSturdy(w, truth, p, y)
  }

  lemma LeafIsSturdy(w: World, truth: seq<Bytes>, p: Plan, i: nat)
    requires Descends(w, p) && i < |w.members| && !Planned(p, i)
    ensures SturdyFrom(w, truth, p, i)
  {
  }

  lemma CompressIsSturdyIff(w: World, truth: seq<Bytes>, p: Plan, i: nat)
    requires Descends(w, p) && i < |w.members| && i in p.compress && i !in p.extracts
    ensures LiesBelow(w, i, p.compress[i].child)
    ensures SturdyFrom(w, truth, p, i) <==> SturdyFrom(w, truth, p, p.compress[i].child)
  {
    hide Visits, Needs;
    var c := p.compress[i].child;
    CompressReaches(w, p, i);
    if !Planned(p, c) {
      LeafIsSturdy(w, truth, p, c);
    }
  }

  lemma CompressReaches(w: World, p: Plan, i: nat)
    requires Descends(w, p) && i < |w.members| && i in p.compress && i !in p.extracts
    ensures var c := p.compress[i].child;
            Needs(w, p, i) == Needs(w, p, c) && Visits(w, p, i) == {i} + if Planned(p, c) then Visits(w, p, c) else {}
    ensures !Planned(p, p.compress[i].child) ==> Needs(w, p, p.compress[i].child) == {}
  {
  }

  /** A build rests on nodes that re-encode exactly when every segment of it does. */
  lemma BuildIsSturdyIff(w: World, truth: seq<Bytes>, p: Plan, i: nat)
    requires Descends(w, p) && i < |w.members| && i in p.builds && i !in p.compress && i !in p.extracts
    ensures SturdyFrom(w, truth, p, i) <==> forall k :: 0 <= k < |p.builds[i].segs| ==> SegSturdy(w, truth, p, i, k)
  {
    hide Sturdy, Descends, Visits, Needs, VisitsFrom, SegsNeed;
    if SturdyFrom(w, truth, p, i) {
      forall k | 0 <= k < |p.builds[i].segs|
        ensures SegSturdy(w, truth, p, i, k)
      {
        SturdySeg(w, truth, p, i, k);
      }
    }
    if forall k :: 0 <= k < |p.builds[i].segs| ==> SegSturdy(w, truth, p, i, k) {
      BuildReaches(w, p, i);
      assert Sturdy(w, truth, p, i) by { AllNodesSturdy(w, truth, p, i); }
      forall x | x in Reached(w, p, i)
        ensures Sturdy(w, truth, p, x)
      {
        if x != i {
          SturdyBelow(w, truth, p, i, x);
        }
      }
    }
  }

  lemma BuildReaches(w: World, p: Plan, i: nat)
    requires Descends(w, p) && i < |w.members| && i in p.builds && i !in p.compress && i !in p.extracts
    ensures Needs(w, p, i) == SegsNeed(w, p, i, 0) && Visits(w, p, i) == {i} + VisitsFrom(w, p, i, 0)
  {
  }

  lemma AllNodesSturdy(w: World, truth: seq<Bytes>, p: Plan, i: nat)
    requires Descends(w, p) && i < |w.members| && i in p.builds
    requires forall k :: 0 <= k < |p.builds[i].segs| ==> SegSturdy(w, truth, p, i, k)
    ensures Sturdy(w, truth, p, i)
  {
    hide Descends, SturdyFrom, VisitsSturdy;
    forall k | 0 <= k < |p.builds[i].segs|
      ensures NodeSturdy(w.f, truth, p, i, p.builds[i].segs[k])
    {
      assert SegSturdy(w, truth, p, i, k);
    }
  }

  lemma SturdySeg(w: World, truth: seq<Bytes>, p: Plan, i: nat, k: nat)
    requires Descends(w, p) && i < |w.members| && i in p.builds && i !in p.compress && i !in p.extracts && k < |p.builds[i].segs|
    requires SturdyFrom(w, truth, p, i)
    ensures SegSturdy(w, truth, p, i, k)
  {
    hide Visits, Needs, VisitsFrom, SegsNeed, NodeSturdy;
    var s := p.builds[i].segs[k];
    BuildReaches(w, p, i);
    assert i in Reached(w, p, i) && Sturdy(w, truth, p, i);
    SegIsNeeded(w, p, i, 0, k);
    if s.Child? {
      if Planned(p, s.idx) {
        VisitsDescend(w, p, i, k);
      } else {
        LeafIsSturdy(w, truth, p, s.idx);
      }
    }
  }

  lemma {:induction false} SegIsNeeded(w: World, p: Plan, i: nat, from: nat, k: nat)
    requires Descends(w, p) && i in p.builds && from <= k < |p.builds[i].segs| && i < |w.members|
    ensures var s := p.builds[i].segs[k];
            (if s.Child? then Needs(w, p, s.idx) else SegTabled(p.pclusters, s)) <= SegsNeed(w, p, i, from)
    decreases k - from
  {
    if from < k {
      SegIsNeeded(w, p, i, from + 1, k);
    }
  }

  lemma SturdyBelow(w: World, truth: seq<Bytes>, p: Plan, i: nat, x: nat)
    requires Descends(w, p) && i < |w.members| && i in p.builds && i !in p.compress && i !in p.extracts
    requires forall k :: 0 <= k < |p.builds[i].segs| ==> SegSturdy(w, truth, p, i, k)
    requires x in Reached(w, p, i) && x != i
    ensures Sturdy(w, truth, p, x)
  {
    hide Sturdy, Descends, Visits, Needs, VisitsFrom, SegsNeed;
    BuildReaches(w, p, i);
    if x in VisitsFrom(w, p, i, 0) {
      var k := VisitComes(w, p, i, 0, x);
      assert SegSturdy(w, truth, p, i, k);
    } else {
      var y :| y in Needs(w, p, i) && x in Visits(w, p, y);
      var k := NeedComes(w, p, i, 0, y);
      assert SegSturdy(w, truth, p, i, k);
    }
  }

  lemma {:induction false} VisitComes(w: World, p: Plan, i: nat, from: nat, x: nat) returns (k: nat)
    requires Descends(w, p) && i in p.builds && from <= |p.builds[i].segs| && x in VisitsFrom(w, p, i, from)
    ensures from <= k < |p.builds[i].segs| && p.builds[i].segs[k].Child?
    ensures p.builds[i].segs[k].idx < |w.members| && x in Visits(w, p, p.builds[i].segs[k].idx)
    decreases |p.builds[i].segs| - from
  {
    var s := p.builds[i].segs[from];
    if s.Child? && x in VisitsOf(w, p, i, s.idx) {
      k := from;
    } else {
      k := VisitComes(w, p, i, from + 1, x);
    }
  }

  lemma {:induction false} NeedComes(w: World, p: Plan, i: nat, from: nat, y: nat) returns (k: nat)
    requires Descends(w, p) && i in p.builds && i < |w.members| && from <= |p.builds[i].segs| && y in SegsNeed(w, p, i, from)
    ensures from <= k < |p.builds[i].segs|
    ensures var s := p.builds[i].segs[k];
            y in if s.Child? then Needs(w, p, s.idx) else SegTabled(p.pclusters, s)
    decreases |p.builds[i].segs| - from
  {
    var s := p.builds[i].segs[from];
    if y in if s.Child? then Needs(w, p, s.idx) else SegTabled(p.pclusters, s) {
      k := from;
    } else {
      k := NeedComes(w, p, i, from + 1, y);
    }
  }

  // ------------------------------------------------------------- captures change none of it

  lemma {:induction false} NowLike(p: Plan, q: Plan, a: seq<PcInput>, b: seq<PcInput>, truth: seq<Bytes>)
    requires p.literals == q.literals && p.drops == q.drops && InputsLike(a, b)
    ensures InputsNow(a, truth, p) == InputsNow(b, truth, q)
  {
    if a != [] {
      assert InputLike(a[0], b[0]);
      forall k | 0 <= k < |a[1..]|
        ensures InputLike(a[1..][k], b[1..][k])
      {
        assert InputLike(a[k + 1], b[k + 1]);
      }
      NowLike(p, q, a[1..], b[1..], truth);
    }
  }

  lemma SturdyLike(w: World, truth: seq<Bytes>, p: Plan, q: Plan, x: nat)
    requires PlanLike(p, q)
    ensures Sturdy(w, truth, p, x) <==> Sturdy(w, truth, q, x)
  {
    hide InputsNow, Reencodes;
    PlannedLike(p, q, x);
    if x in p.builds {
      assert BuildLike(p.builds[x], q.builds[x]);
      forall k | 0 <= k < |p.builds[x].segs|
        ensures NodeSturdy(w.f, truth, p, x, p.builds[x].segs[k]) <==> NodeSturdy(w.f, truth, q, x, q.builds[x].segs[k])
      {
        assert SegLike(p.builds[x].segs[k], q.builds[x].segs[k]);
        var s := p.builds[x].segs[k];
        if s.PCluster? && x < |truth| && s.End() <= |truth[x]| {
          ReencodesLike(w.f, p, q, s.pc, truth, Cut(truth[x], s.at, s.len));
        }
      }
    }
  }

  lemma ReencodesLike(f: Codecs, p: Plan, q: Plan, pc: nat, truth: seq<Bytes>, stored: Bytes)
    requires PlanLike(p, q)
    ensures Reencodes(f, p, pc, truth, stored) <==> Reencodes(f, q, pc, truth, stored)
  {
    if pc < |p.pclusters| {
      assert NodeLike(p.pclusters[pc], q.pclusters[pc]);
      NowLike(p, q, p.pclusters[pc].inputs, q.pclusters[pc].inputs, truth);
    }
  }

  lemma {:induction false} VisitsLike(w: World, p: Plan, q: Plan, i: nat)
    requires PlanLike(p, q)
    ensures Visits(w, p, i) == Visits(w, q, i)
    decreases Below(w, i), 1
  {
    hide PlanLike;
    PlannedLike(p, q, i);
    if i in p.compress {
      var c := p.compress[i].child;
      PlannedLike(p, q, c);
      if LiesBelow(w, i, c) {
        VisitsLike(w, p, q, c);
      }
    } else if i in p.builds {
      SegsAlike(p, q, i);
      VisitsFromLike(w, p, q, i, 0);
    }
  }

  lemma SegsAlike(p: Plan, q: Plan, i: nat)
    requires PlanLike(p, q) && i in p.builds && i in q.builds
    ensures SegsLike(p.builds[i].segs, q.builds[i].segs)
  {
    assert BuildLike(p.builds[i], q.builds[i]);
  }

  lemma {:induction false} VisitsFromLike(w: World, p: Plan, q: Plan, i: nat, k: nat)
    requires PlanLike(p, q) && i in p.builds && i in q.builds && SegsLike(p.builds[i].segs, q.builds[i].segs) && k <= |p.builds[i].segs|
    ensures VisitsFrom(w, p, i, k) == VisitsFrom(w, q, i, k)
    decreases Below(w, i), 0, |p.builds[i].segs| - k
  {
    hide PlanLike, Visits;
    if k < |p.builds[i].segs| {
      var s, t := p.builds[i].segs[k], q.builds[i].segs[k];
      assert SegLike(s, t);
      VisitsFromLike(w, p, q, i, k + 1);
      if s.Child? {
        PlannedLike(p, q, s.idx);
        if LiesBelow(w, i, s.idx) {
          VisitsLike(w, p, q, s.idx);
        }
      }
    }
  }

  // ------------------------------------------------------------- where everything reads as it was spooled

  /** Where everything the verify pass goes through reads as it was spooled, all of it re-encodes. */
  lemma ReadsRightIsSturdy(w: World, truth: seq<Bytes>, p: Plan, root: nat)
    requires Sound(w, truth, p) && Descends(w, p) && root < |w.members| && ReadsRight(w, p, root)
    ensures SturdyFrom(w, truth, p, root)
  {
    hide Sound, Descends, Reached, AllVisited, Astray, Sturdy;
    forall x | x in Reached(w, p, root)
      ensures Sturdy(w, truth, p, x)
    {
      ReachedIsVisited(w, truth, p, root, x);
      if x in p.builds {
        NotAstrayIsSturdy(w, truth, p, x);
      } else {
        OnlyBuildsHaveNodes(w, truth, p, x);
      }
    }
  }

  lemma OnlyBuildsHaveNodes(w: World, truth: seq<Bytes>, p: Plan, x: nat)
    requires x !in p.builds
    ensures Sturdy(w, truth, p, x)
  {
  }

  /** The verify pass goes through every build the written root rests on. */
  lemma ReachedIsVisited(w: World, truth: seq<Bytes>, p: Plan, root: nat, x: nat)
    requires Sound(w, truth, p) && Descends(w, p) && root < |w.members| && x in Reached(w, p, root)
    ensures x in p.builds ==> x in AllVisited(w, p, root)
  {
    hide Sound, Descends, Visits, Needs, AllVisited;
    RootIsVisited(w, p, root);
    if x !in Visits(w, p, root) && x in p.builds {
      NeedsAreReferenced(w, p, root);
      var y :| y in Needs(w, p, root) && x in Visits(w, p, y);
      PlannedIsMember(w, truth, p, y);
      UnplannedVisits(w, p, y);
      TableIsVisited(w, p, root, y);
    }
  }

  lemma PlannedIsMember(w: World, truth: seq<Bytes>, p: Plan, y: nat)
    requires Sound(w, truth, p)
    ensures Planned(p, y) ==> y < |w.members|
  {
    hide Rooted;
    if y in p.builds {
      assert BuildHolds(w, truth, p, y, p.builds[y]);
    } else if y in p.compress {
      assert CompressHolds(w, truth, y, p.compress[y]);
    }
  }

  lemma UnplannedVisits(w: World, p: Plan, y: nat)
    ensures !Planned(p, y) ==> Visits(w, p, y) == {y} && y !in p.builds
  {
  }

  lemma NotAstrayIsSturdy(w: World, truth: seq<Bytes>, p: Plan, x: nat)
    requires Sound(w, truth, p) && !Astray(p, x)
    ensures Sturdy(w, truth, p, x)
  {
    hide Rooted, Misread, Reencodes;
    if x in p.builds && x !in p.compress {
      assert BuildHolds(w, truth, p, x, p.builds[x]);
      forall k | 0 <= k < |p.builds[x].segs| && p.builds[x].segs[k].PCluster?
        ensures NodeSturdy(w.f, truth, p, x, p.builds[x].segs[k])
      {
        var s := p.builds[x].segs[k];
        ReadRightReencodes(w.f, p, s.pc, truth, Cut(truth[x], s.at, s.len));
      }
    }
  }
}
