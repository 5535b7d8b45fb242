/**
 What a lost literal spool costs: which pcluster nodes of a plan can no longer be read, or read as
 something else, and which of them the verify pass comes across.
 */
module RecipeSpool {
  import opened Wrappers
  import opened ByteStrings
  import opened RecipePlan
  import opened RecipeTree
  import opened RecipeCapture
  import opened RecipeDocument

  // ------------------------------------------------------------- one node

  /** Some literal of the node cannot be read from the spool there is. */
  predicate Unreadable(p: Plan, pc: nat) {
    pc < |p.pclusters| && exists k :: 0 <= k < |p.pclusters[pc].inputs| && CannotRead(p, p.pclusters[pc].inputs[k])
  }

  predicate CannotRead(p: Plan, x: PcInput) {
    Spooled(x) && ReadSpool(p, x.spoolOff, x.len).None?
  }

  /** Some literal of the node does not read back as what was spooled for it. */
  predicate Misread(p: Plan, pc: nat) {
    pc < |p.pclusters| && exists k :: 0 <= k < |p.pclusters[pc].inputs| && ReadsWrong(p, p.pclusters[pc].inputs[k])
  }

  predicate ReadsWrong(p: Plan, x: PcInput) {
    Spooled(x) && x.spoolOff + x.len <= |p.literals| && ReadSpool(p, x.spoolOff, x.len) != Some(Cut(p.literals, x.spoolOff, x.len))
  }

  /** A literal reads wrong only if it went into a spool that was lost since; and if nothing was spooled
      since the last loss, none can be read at all. */
  lemma OnlyLostLiteralsReadWrong(p: Plan, x: PcInput)
    ensures ReadsWrong(p, x) ==> x.spoolOff < LostTo(p)
    ensures LostTo(p) == |p.literals| && Spooled(x) && x.len > 0 ==> CannotRead(p, x)
  {
    if Spooled(x) && x.spoolOff + x.len <= |p.literals| && LostTo(p) <= x.spoolOff {
      LiveLiteralsReadBack(p, x.spoolOff, x.len);
    }
    if LostTo(p) == |p.literals| && x.Literal? && x.len > 0 {
      LostLiteralsCannotBeRead(p, x.spoolOff, x.len);
    }
  }

  /** A literal inside what was spooled reads wrong exactly when it went into a spool that was lost, and at its
      place there the spool there is has other bytes, or none. */
  lemma ReadsWrongIff(p: Plan, x: PcInput)
    requires Spooled(x) && x.spoolOff + x.len <= |p.literals|
    ensures var at := x.spoolOff - SpoolStart(p.drops, x.spoolOff);
            ReadsWrong(p, x) <==>
            && x.spoolOff < LostTo(p)
            && (at + x.len > |SpoolNow(p)| || Cut(SpoolNow(p), at, x.len) != Cut(p.literals, x.spoolOff, x.len))
  {
    if LostTo(p) <= x.spoolOff {
      LiveLiteralsReadBack(p, x.spoolOff, x.len);
    }
  }

  // ------------------------------------------------------------- what the verify pass visits

  /** The members the verify pass goes through from `i` down. */
  function Visits(w: World, p: Plan, i: nat): set<nat>
    decreases Below(w, i), 2
  {
    {i} + (if i in p.compress then VisitsOf(w, p, i, p.compress[i].child)
           else if i in p.builds then VisitsFrom(w, p, i, 0)
           else {})
  }

  function VisitsOf(w: World, p: Plan, i: nat, c: nat): set<nat>
    decreases Below(w, i), 0
  {
    if LiesBelow(w, i, c) && Planned(p, c) then Visits(w, p, c) else {}
  }

  function VisitsFrom(w: World, p: Plan, i: nat, k: nat): set<nat>
    requires i in p.builds && k <= |p.builds[i].segs|
    decreases Below(w, i), 1, |p.builds[i].segs| - k
  {
    if k == |p.builds[i].segs| then {}
    else
      var s := p.builds[i].segs[k];
      (if s.Child? then VisitsOf(w, p, i, s.idx) else {}) + VisitsFrom(w, p, i, k + 1)
  }

  lemma {:induction false} ChildIsVisited(w: World, p: Plan, i: nat, from: nat, k: nat)
    requires i in p.builds && from <= k < |p.builds[i].segs| && p.builds[i].segs[k].Child?
    ensures VisitsOf(w, p, i, p.builds[i].segs[k].idx) <= VisitsFrom(w, p, i, from)
    decreases k - from
  {
    if from < k {
      ChildIsVisited(w, p, i, from + 1, k);
    }
  }

  /** Whatever is gone through below a child of a build is gone through below the build. */
  lemma VisitsDescend(w: World, p: Plan, i: nat, k: nat)
    requires i in p.builds && i !in p.compress && k < |p.builds[i].segs| && p.builds[i].segs[k].Child?
    requires LiesBelow(w, i, p.builds[i].segs[k].idx) && Planned(p, p.builds[i].segs[k].idx)
    ensures Visits(w, p, p.builds[i].segs[k].idx) <= Visits(w, p, i)
  {
    ChildIsVisited(w, p, i, 0, k);
  }

  // ------------------------------------------------------------- what it comes across

  /** Build `x` has a node that cannot be read. */
  predicate Blocked(p: Plan, x: nat) {
    x in p.builds && x !in p.compress
    && exists k :: 0 <= k < |p.builds[x].segs| && p.builds[x].segs[k].PCluster? && Unreadable(p, p.builds[x].segs[k].pc)
  }

  predicate Astray(p: Plan, x: nat) {
    x in p.builds && x !in p.compress
    && exists k :: 0 <= k < |p.builds[x].segs| && p.builds[x].segs[k].PCluster? && Misread(p, p.builds[x].segs[k].pc)
  }

  ghost predicate Blocks(w: World, p: Plan, i: nat) {
    exists x :: x in Visits(w, p, i) && Blocked(p, x)
  }

  /** Going through the root and the members of the sources table comes across a node that cannot be
      read. */
  ghost predicate Fails(w: World, p: Plan, root: nat) {
    Blocks(w, p, root) || exists i :: i in ReferencedTabled(p) && i < |w.members| && Planned(p, i) && Blocks(w, p, i)
  }

  /** All that is gone through, from the root and from the table. */
  function AllVisited(w: World, p: Plan, root: nat): set<nat> {
    Visits(w, p, root) + set i, x | i in ReferencedTabled(p) && i < |w.members| && Planned(p, i) && x in Visits(w, p, i) :: x
  }

  /** Everything the pass goes through reads back as it was spooled. */
  predicate ReadsRight(w: World, p: Plan, root: nat) {
    forall x :: x in AllVisited(w, p, root) ==> !Astray(p, x)
  }

  lemma RootIsVisited(w: World, p: Plan, root: nat)
    ensures Visits(w, p, root) <= AllVisited(w, p, root)
    ensures Blocks(w, p, root) ==> Fails(w, p, root)
  {
  }

  lemma TableIsVisited(w: World, p: Plan, root: nat, i: nat)
    requires i in ReferencedTabled(p) && i < |w.members|
    ensures Planned(p, i) ==> Visits(w, p, i) <= AllVisited(w, p, root)
    ensures Planned(p, i) && Blocks(w, p, i) ==> Fails(w, p, root)
  {
  }

  lemma FailsIffBlocked(w: World, p: Plan, root: nat)
    ensures Fails(w, p, root) <==> exists x :: x in AllVisited(w, p, root) && Blocked(p, x)
  {
    hide Blocked, Visits;
    if x :| x in AllVisited(w, p, root) && Blocked(p, x) {
      if x in Visits(w, p, root) {
        assert Blocks(w, p, root);
      } else {
        var i: nat :| i in ReferencedTabled(p) && i < |w.members| && Planned(p, i) && x in Visits(w, p, i);
        assert Blocks(w, p, i);
      }
    }
    if Fails(w, p, root) && !Blocks(w, p, root) {
      var i :| i in ReferencedTabled(p) && i < |w.members| && Planned(p, i) && Blocks(w, p, i);
      TableIsVisited(w, p, root, i);
    }
  }

  lemma BlockedBlocks(w: World, p: Plan, i: nat)
    requires Blocked(p, i)
    ensures Blocks(w, p, i)
  {
    assert i in Visits(w, p, i);
  }

  lemma BlocksFurtherUp(w: World, p: Plan, i: nat, c: nat)
    requires Blocks(w, p, c) && Visits(w, p, c) <= Visits(w, p, i)
    ensures Blocks(w, p, i)
  {
  }

  // ------------------------------------------------------------- captures change none of it

  lemma LikeReads(p: Plan, q: Plan, pc: nat)
    requires PlanLike(p, q)
    ensures Unreadable(p, pc) <==> Unreadable(q, pc)
    ensures Misread(p, pc) <==> Misread(q, pc)
  {
    SameSpool(p, q);
    hide ReadSpool;
    if pc < |p.pclusters| {
      var a, b := p.pclusters[pc].inputs, q.pclusters[pc].inputs;
      assert NodeLike(p.pclusters[pc], q.pclusters[pc]);
      forall k | 0 <= k < |a|
        ensures CannotRead(p, a[k]) <==> CannotRead(q, b[k])
        ensures ReadsWrong(p, a[k]) <==> ReadsWrong(q, b[k])
      {
        assert InputLike(a[k], b[k]);
      }
    }
  }

  /** Every spooled literal of a node that holds lies inside what was spooled. */
  lemma {:induction false} InputsInSpool(inputs: seq<PcInput>, truth: seq<Bytes>, literals: Bytes, k: nat)
    requires InputsBytes(inputs, truth, literals).Some? && k < |inputs|
    ensures InputBytes(inputs[k], truth, literals).Some?
  {
    if k > 0 {
      InputsInSpool(inputs[1..], truth, literals, k - 1);
    }
  }
}
