/**
 The member tree under a plan: which members lie under which, which entries of a plan sit
 where, and what a plan's entries refer to.
 */
module RecipeTree {
  import opened Wrappers
  import opened ByteStrings
  import opened RecipePlan

  /** `x` is `r` or one of its descendants. */
  predicate Under(w: World, x: nat, r: nat)
    decreases if x < |w.members| then w.members[x].depth else 0
  {
    x == r ||
    (IsMember(w, x) && w.members[x].parent.Some?
     && var p := w.members[x].parent.value;
     IsKid(w, p, x) && Under(w, p, r))
  }

  lemma {:induction false} UnderIsDeeper(w: World, x: nat, r: nat)
    requires Under(w, x, r) && x != r
    ensures IsMember(w, x) && r < |w.members| && w.members[x].depth > w.members[r].depth
    decreases if x < |w.members| then w.members[x].depth else 0
  {
    var p := w.members[x].parent.value;
    if p != r {
      UnderIsDeeper(w, p, r);
    }
  }

  lemma {:induction false} UnderKidIsUnder(w: World, x: nat, c: nat, i: nat)
    requires Under(w, x, c) && IsKid(w, i, c)
    ensures Under(w, x, i) && x != i
    decreases if x < |w.members| then w.members[x].depth else 0
  {
    if x != c {
      UnderKidIsUnder(w, w.members[x].parent.value, c, i);
      UnderIsDeeper(w, x, c);
    }
  }

  /** The subtrees of two different children share nothing. */
  lemma {:induction false} KidsShareNothing(w: World, x: nat, c: nat, d: nat, i: nat)
    requires IsKid(w, i, c) && IsKid(w, i, d) && c != d
    ensures !(Under(w, x, c) && Under(w, x, d))
    decreases if x < |w.members| then w.members[x].depth else 0
  {
    if Under(w, x, c) && Under(w, x, d) {
      if x == c {
        UnderIsDeeper(w, c, d);
        assert Under(w, i, d);
        UnderIsDeeper(w, i, d);
      } else if x == d {
        UnderIsDeeper(w, d, c);
        assert Under(w, i, c);
        UnderIsDeeper(w, i, c);
      } else {
        KidsShareNothing(w, w.members[x].parent.value, c, d, i);
      }
    }
  }

  // ------------------------------------------------------------- entries

  predicate NoEntry(p: Plan, x: nat) {
    x !in p.builds && x !in p.compress && x !in p.extracts
  }

  predicate SameEntry(p: Plan, q: Plan, x: nat) {
    && (x in p.builds <==> x in q.builds) && (x in p.builds ==> p.builds[x] == q.builds[x])
    && (x in p.compress <==> x in q.compress) && (x in p.compress ==> p.compress[x] == q.compress[x])
    && (x in p.extracts <==> x in q.extracts) && (x in p.extracts ==> p.extracts[x] == q.extracts[x])
  }

  /** Nothing at or under `r` is planned yet. */
  ghost predicate Fresh(w: World, p: Plan, r: nat) {
    forall x: nat :: Under(w, x, r) ==> NoEntry(p, x)
  }

  /** `q` extends `p`'s pcluster table and literal spool and differs from it only at or under `r`. */
  ghost predicate OnlyUnder(w: World, p: Plan, q: Plan, r: nat) {
    && Grown(p, q)
    && forall x: nat :: !Under(w, x, r) ==> SameEntry(p, q, x)
  }

  predicate Grown(p: Plan, q: Plan) {
    p.pclusters <= q.pclusters && p.literals <= q.literals && p.drops <= q.drops && p.root == q.root
  }

  lemma OnlyUnderChains(w: World, p: Plan, q: Plan, s: Plan, r: nat)
    requires OnlyUnder(w, p, q, r) && OnlyUnder(w, q, s, r)
    ensures OnlyUnder(w, p, s, r)
  {
    forall x: nat | !Under(w, x, r)
      ensures SameEntry(p, s, x)
    {
      assert SameEntry(p, q, x) && SameEntry(q, s, x);
    }
  }

  lemma OnlyUnderKid(w: World, p: Plan, q: Plan, c: nat, i: nat)
    requires OnlyUnder(w, p, q, c) && IsKid(w, i, c)
    ensures OnlyUnder(w, p, q, i) && SameEntry(p, q, i)
  {
    forall x: nat | !Under(w, x, i)
      ensures SameEntry(p, q, x)
    {
      if Under(w, x, c) {
        UnderKidIsUnder(w, x, c, i);
      }
    }
    if Under(w, i, c) {
      UnderKidIsUnder(w, i, c, i);
    }
  }

  /** Work under one child leaves a sibling's subtree as fresh as it was. */
  lemma SiblingStaysFresh(w: World, p: Plan, q: Plan, c: nat, d: nat, i: nat)
    requires OnlyUnder(w, p, q, c) && IsKid(w, i, c) && IsKid(w, i, d) && c != d
    ensures Fresh(w, p, d) ==> Fresh(w, q, d)
    ensures SameEntry(p, q, d)
  {
    forall x: nat | Under(w, x, d)
      ensures SameEntry(p, q, x)
    {
      KidsShareNothing(w, x, c, d, i);
    }
    assert Under(w, d, d);
  }

  // ------------------------------------------------------------- references

  /** The members one pcluster node slices. */
  function PartsOf(inputs: seq<PcInput>): (r: set<nat>)
    ensures forall x :: x in r <==> exists k :: 0 <= k < |inputs| && inputs[k].Part? && inputs[k].idx == x
  {
    set k | 0 <= k < |inputs| && inputs[k].Part? :: inputs[k].idx
  }

  /** The members a segment refers to. */
  function SegRefs(pcs: seq<PClusterNode>, s: Seg): set<nat> {
    match s
    case Child(idx, _, _, _, _) => {idx}
    case Tabled(idx, _, _, _, _) => {idx}
    case PCluster(pc, _, _, _) => if pc < |pcs| then PartsOf(pcs[pc].inputs) else {}
    case Gap(_, _, _, _) => {}
  }

  /** The members a segment reaches through the sources table. */
  function SegTabled(pcs: seq<PClusterNode>, s: Seg): set<nat> {
    if s.Child? then {} else SegRefs(pcs, s)
  }

  /** The members some segments slice, directly or through a pcluster node (`tabled_of`). */
  function TabledOf(pcs: seq<PClusterNode>, segs: seq<Seg>): (r: set<nat>)
    ensures forall x :: x in r <==> exists s :: s in segs && x in SegTabled(pcs, s)
  {
    set s, x | s in segs && x in SegTabled(pcs, s) :: x
  }

  /** Entry `j` of the plan refers to member `x`. */
  predicate EntryRefers(p: Plan, j: nat, x: nat) {
    || (j in p.builds && exists k :: 0 <= k < |p.builds[j].segs| && x in SegRefs(p.pclusters, p.builds[j].segs[k]))
    || (j in p.compress && p.compress[j].child == x)
  }

  /** A witness claims these bytes themselves at a URL. */
  predicate Claimed(w: World, x: nat) {
    x < |w.evidence| && w.evidence[x].urls != []
  }

  /** A reference to `x` names a digest and leads somewhere: a claim URL, an attested archive, or a
      plan of its own. */
  predicate Fetchable(w: World, p: Plan, x: nat) {
    && x < |w.members| && w.members[x].sha256.Some?
    && (Claimed(w, x) || x in p.builds || x in p.compress || x in p.extracts)
  }

  /** Nothing has been captured for any gap yet. */
  predicate GapsFresh(segs: seq<Seg>) {
    forall k :: 0 <= k < |segs| && segs[k].Gap? ==> segs[k].residueOff.None? && segs[k].inline.None?
  }

  /** Entries refer only to their own children, each of which leads somewhere. */
  ghost predicate Rooted(w: World, p: Plan) {
    && p.builds.Keys !! p.compress.Keys && p.builds.Keys !! p.extracts.Keys && p.compress.Keys !! p.extracts.Keys
    && (forall i :: i in p.builds ==> GapsFresh(p.builds[i].segs))
    && forall j: nat, x: nat :: EntryRefers(p, j, x) ==> IsKid(w, j, x) && Fetchable(w, p, x)
  }

  ghost predicate Sound(w: World, truth: seq<Bytes>, p: Plan) {
    PlanHolds(w, truth, p) && Rooted(w, p)
  }

  // ------------------------------------------------------------- growth keeps truth

  lemma {:induction false} InputsSurviveGrowth(inputs: seq<PcInput>, truth: seq<Bytes>, a: Bytes, b: Bytes)
    requires a <= b && InputsBytes(inputs, truth, a).Some?
    ensures InputsBytes(inputs, truth, b) == InputsBytes(inputs, truth, a)
  {
    if inputs != [] {
      InputsSurviveGrowth(inputs[1..], truth, a, b);
      var s := inputs[0];
      if s.Literal? && s.inline.None? {
        assert Cut(a, s.spoolOff, s.len) == Cut(b, s.spoolOff, s.len);
      }
    }
  }

  lemma SegSurvivesGrowth(w: World, truth: seq<Bytes>, p: Plan, q: Plan, depth: nat, space: Bytes, bytes: Bytes, s: Seg)
    requires SegHolds(w, truth, p, depth, space, bytes, s) && Grown(p, q)
    ensures SegHolds(w, truth, q, depth, space, bytes, s)
    ensures SegRefs(p.pclusters, s) == SegRefs(q.pclusters, s)
  {
    if s.PCluster? {
      InputsSurviveGrowth(p.pclusters[s.pc].inputs, truth, p.literals, q.literals);
    }
  }

  lemma BuildSurvivesGrowth(w: World, truth: seq<Bytes>, p: Plan, q: Plan, i: nat, b: Build)
    requires BuildHolds(w, truth, p, i, b) && Grown(p, q)
    ensures BuildHolds(w, truth, q, i, b)
  {
    forall k | 0 <= k < |b.segs|
      ensures SegHolds(w, truth, q, w.members[i].depth, w.spaces[b.space], truth[i], b.segs[k])
    {
      SegSurvivesGrowth(w, truth, p, q, w.members[i].depth, w.spaces[b.space], truth[i], b.segs[k]);
    }
  }

  // ------------------------------------------------------------- one entry at a time

  /** No member is planned twice. */
  predicate OneEntry(p: Plan, i: nat) {
    !(i in p.builds && i in p.compress) && !(i in p.builds && i in p.extracts) && !(i in p.compress && i in p.extracts)
  }

  /** Whatever is planned for `i` is true, and refers to children of `i` that lead somewhere. */
  ghost predicate EntrySound(w: World, truth: seq<Bytes>, p: Plan, i: nat) {
    && (i in p.builds ==> BuildHolds(w, truth, p, i, p.builds[i]) && GapsFresh(p.builds[i].segs))
    && (i in p.compress ==> CompressHolds(w, truth, i, p.compress[i]))
    && (i in p.extracts ==> ExtractHolds(w, truth, i, p.extracts[i]))
    && OneEntry(p, i)
    && forall x: nat :: EntryRefers(p, i, x) ==> IsKid(w, i, x) && Fetchable(w, p, x)
  }

  lemma SoundHere(w: World, truth: seq<Bytes>, p: Plan, i: nat)
    requires Sound(w, truth, p)
    ensures EntrySound(w, truth, p, i)
  {
    assert i in p.builds ==> i in p.builds.Keys;
    assert i in p.compress ==> i in p.compress.Keys;
    assert i in p.extracts ==> i in p.extracts.Keys;
  }

  lemma SoundEverywhere(w: World, truth: seq<Bytes>, p: Plan)
    requires forall i: nat :: EntrySound(w, truth, p, i)
    ensures Sound(w, truth, p)
  {
    forall i
      ensures !(i in p.builds.Keys && i in p.compress.Keys)
      ensures !(i in p.builds.Keys && i in p.extracts.Keys) && !(i in p.compress.Keys && i in p.extracts.Keys)
    {
      assert EntrySound(w, truth, p, i);
    }
    forall i: nat | i in p.builds || i in p.compress || i in p.extracts
      ensures i in p.builds ==> BuildHolds(w, truth, p, i, p.builds[i]) && GapsFresh(p.builds[i].segs)
      ensures i in p.compress ==> CompressHolds(w, truth, i, p.compress[i])
      ensures i in p.extracts ==> ExtractHolds(w, truth, i, p.extracts[i])
    {
      assert EntrySound(w, truth, p, i);
    }
    forall j: nat, x: nat | EntryRefers(p, j, x)
      ensures IsKid(w, j, x) && Fetchable(w, p, x)
    {
      assert EntrySound(w, truth, p, j);
    }
  }

  lemma EntrySurvivesGrowth(w: World, truth: seq<Bytes>, p: Plan, q: Plan, i: nat)
    requires EntrySound(w, truth, p, i) && Grown(p, q) && SameEntry(p, q, i)
    requires forall x: nat :: EntryRefers(p, i, x) ==> Fetchable(w, q, x)
    ensures EntrySound(w, truth, q, i)
  {
    if i in p.builds {
      BuildSurvivesGrowth(w, truth, p, q, i, p.builds[i]);
      forall k | 0 <= k < |p.builds[i].segs|
        ensures SegRefs(p.pclusters, p.builds[i].segs[k]) == SegRefs(q.pclusters, p.builds[i].segs[k])
      {
        SegSurvivesGrowth(w, truth, p, q, w.members[i].depth, w.spaces[p.builds[i].space], truth[i], p.builds[i].segs[k]);
      }
    }
    forall x: nat | EntryRefers(q, i, x)
      ensures EntryRefers(p, i, x)
    {
    }
  }

  /** Changing what is planned at `i` keeps the plan sound, if the new entry is sound and nothing
      is left pointing at an `i` that leads nowhere. */
  lemma EntryReplaced(w: World, truth: seq<Bytes>, p: Plan, q: Plan, i: nat)
    requires Sound(w, truth, p) && Grown(p, q)
    requires forall x: nat :: x != i ==> SameEntry(p, q, x)
    requires EntrySound(w, truth, q, i)
    requires Fetchable(w, q, i) || forall j: nat :: !EntryRefers(p, j, i)
    ensures Sound(w, truth, q)
  {
    forall j: nat
      ensures EntrySound(w, truth, q, j)
    {
      if j != i {
        SoundHere(w, truth, p, j);
        forall x: nat | EntryRefers(p, j, x)
          ensures Fetchable(w, q, x)
        {
          assert Fetchable(w, p, x);
          assert x != i ==> SameEntry(p, q, x);
        }
        assert SameEntry(p, q, j);
        EntrySurvivesGrowth(w, truth, p, q, j);
      }
    }
    SoundEverywhere(w, truth, q);
  }

  /** While a member has no plan of its own, nothing refers to its children. */
  lemma KidsOfUnplannedUnreferenced(w: World, truth: seq<Bytes>, p: Plan, i: nat, c: nat)
    requires Sound(w, truth, p) && IsKid(w, i, c) && !Planned(p, i)
    ensures forall j: nat :: !EntryRefers(p, j, c)
  {
    forall j: nat
      ensures !EntryRefers(p, j, c)
    {
      assert EntryRefers(p, j, c) ==> IsKid(w, j, c);
    }
  }

  /** Nothing in the plan points at `x`. */
  ghost predicate Unreferenced(p: Plan, x: nat) {
    forall j: nat :: !EntryRefers(p, j, x)
  }

  /** Planning at and under `i` never makes anything point at `i` itself. */
  lemma StillUnreferenced(w: World, truth: seq<Bytes>, p: Plan, q: Plan, i: nat)
    requires Sound(w, truth, p) && Sound(w, truth, q) && OnlyUnder(w, p, q, i)
    requires Unreferenced(p, i)
    ensures Unreferenced(q, i)
  {
    forall j: nat
      ensures !EntryRefers(q, j, i)
    {
      if Under(w, j, i) {
        if j != i {
          UnderIsDeeper(w, j, i);
        }
        assert EntryRefers(q, j, i) ==> IsKid(w, j, i);
      } else {
        assert SameEntry(p, q, j);
        SoundHere(w, truth, p, j);
        EntryRefersSame(w, truth, p, q, j, i);
      }
    }
  }

  lemma EntryRefersSame(w: World, truth: seq<Bytes>, p: Plan, q: Plan, j: nat, x: nat)
    requires EntrySound(w, truth, p, j) && SameEntry(p, q, j) && Grown(p, q)
    ensures EntryRefers(p, j, x) <==> EntryRefers(q, j, x)
  {
    if j in p.builds {
      forall k | 0 <= k < |p.builds[j].segs|
        ensures SegRefs(p.pclusters, p.builds[j].segs[k]) == SegRefs(q.pclusters, p.builds[j].segs[k])
      {
        SegSurvivesGrowth(w, truth, p, q, w.members[j].depth, w.spaces[p.builds[j].space], truth[j], p.builds[j].segs[k]);
      }
    }
  }

  /** Growing the pcluster table and the literal spool alone keeps a plan sound. */
  lemma GrowthKeepsSound(w: World, truth: seq<Bytes>, p: Plan, q: Plan)
    requires Sound(w, truth, p) && Grown(p, q) && forall x: nat :: SameEntry(p, q, x)
    ensures Sound(w, truth, q)
  {
    forall j: nat
      ensures EntrySound(w, truth, q, j)
    {
      SoundHere(w, truth, p, j);
      forall x: nat | EntryRefers(p, j, x)
        ensures Fetchable(w, q, x)
      {
        assert SameEntry(p, q, x);
      }
      assert SameEntry(p, q, j);
      EntrySurvivesGrowth(w, truth, p, q, j);
    }
    SoundEverywhere(w, truth, q);
  }
}
