/**
 The induction over a written plan: splices within splices, slices, compression chains, extracts,
 pcluster nodes and literals all stand for the bytes they were planned from.
 */
module RecipeRebuild {
  import opened Wrappers
  import opened ByteStrings
  import opened RecipePlan
  import opened RecipeTree
  import opened RecipeTiling
  import opened RecipeCapture
  import opened RecipeDocument
  import opened RecipeCheck
  import opened RecipeFaithful
  import opened RecipeSpool
  import opened RecipeReread

  /** Writing with the full table of nodes takes two hops to rebuild (a tabled node, and an extract
      node's archive from there); writing with none takes one. */
  predicate Reaches(t: Tables, tt: Tables, hops: nat) {
    && tt.srcOf == t.srcOf && (tt.nodeOf == map[] || tt.nodeOf == t.nodeOf)
    && hops > 0 && (tt.nodeOf != map[] ==> hops > 1)
  }

  /** A written member stands for the member's bytes, if every node it rests on re-encodes from what its
      literals read as now. */
  lemma {:induction false} NodeIsFaithful(w: World, truth: seq<Bytes>, p: Plan, t: Tables, env: Env, named: set<Digest>, ok: set<nat>,
                                          tt: Tables, hops: nat, i: nat, node: Node)
    requires Written(w, truth, p, t, env, named, ok) && Reaches(t, tt, hops)
    requires i in ok && i < |w.members| && NodeJson(w, p, tt, i) == Some(node) && Digests(node) <= named
    requires SturdyFrom(w, truth, p, i)
    ensures i < |truth| && Faithful(env, hops, node, truth[i]) && NodeSha(node) == Ok(env.f.sha256(truth[i]))
    decreases |tt.nodeOf|, Below(w, i), 7
  {
    hide SturdyFrom;
    assert MemberTrue(w, truth, i);
    if i in p.extracts {
      assert ExtractHolds(w, truth, i, p.extracts[i]);
      assert ArchiveAt(env.sources, t.srcOf[i], p.extracts[i]);
      ExtractIsFaithful(env, hops, named, node, truth[i]);
    } else if i in p.compress {
      CompressIsFaithful(w, truth, p, t, env, named, ok, tt, hops, i, node);
    } else if i in p.builds {
      SpliceIsFaithful(w, truth, p, t, env, named, ok, tt, hops, i, node);
    } else {
      RefIsFaithful(env, hops, named, node, truth[i]);
    }
  }

  lemma {:induction false} CompressIsFaithful(w: World, truth: seq<Bytes>, p: Plan, t: Tables, env: Env, named: set<Digest>, ok: set<nat>,
                                              tt: Tables, hops: nat, i: nat, node: Node)
    requires Written(w, truth, p, t, env, named, ok) && Reaches(t, tt, hops)
    requires i in ok && i < |w.members| && NodeJson(w, p, tt, i) == Some(node) && Digests(node) <= named
    requires i !in p.extracts && i in p.compress && i < |truth| && MemberTrue(w, truth, i) && SturdyFrom(w, truth, p, i)
    ensures Faithful(env, hops, node, truth[i]) && NodeSha(node) == Ok(env.f.sha256(truth[i]))
    decreases |tt.nodeOf|, Below(w, i), 6
  {
    hide Honest, TablesHold, Captured, SegHolds, BuildHolds, Missing, Denote, FaithfulInput, FaithfulInputs, Faithful, SturdyFrom;
    var child := p.compress[i].child;
    CompressIsSturdyIff(w, truth, p, i);
    assert CompressHolds(w, truth, i, p.compress[i]);
    InputIsNamed(node, 0, named);
    NodeIsFaithful(w, truth, p, t, env, named, ok, tt, hops, child, node.inputs[0]);
    PlainInput(env, hops, node.inputs[0], truth[child]);
    NoInputs(env, hops, node, 1);
    InputsCons(env, hops, node, 0, truth[child], []);
    assert truth[child] + [] == truth[child];
    BuildIsFaithful(env, hops, named, node, truth[child], truth[i]);
  }

  lemma NoInputs(env: Env, hops: nat, node: Node, k: nat)
    requires node.BuildNode? && k == |node.inputs|
    ensures FaithfulInputs(env, hops, node, k, [])
  {
  }

  lemma {:induction false} SpliceIsFaithful(w: World, truth: seq<Bytes>, p: Plan, t: Tables, env: Env, named: set<Digest>, ok: set<nat>,
                                            tt: Tables, hops: nat, i: nat, node: Node)
    requires Written(w, truth, p, t, env, named, ok) && Reaches(t, tt, hops)
    requires i in ok && i < |w.members| && NodeJson(w, p, tt, i) == Some(node) && Digests(node) <= named
    requires i !in p.extracts && i !in p.compress && i in p.builds && i < |truth| && MemberTrue(w, truth, i)
    requires SturdyFrom(w, truth, p, i)
    ensures Faithful(env, hops, node, truth[i]) && NodeSha(node) == Ok(env.f.sha256(truth[i]))
    decreases |tt.nodeOf|, Below(w, i), 6
  {
    hide SturdyFrom, SegSturdy;
    assert BuildHolds(w, truth, p, i, p.builds[i]);
    BuildIsSturdyIff(w, truth, p, i);
    assert p.builds[i].segs[0..] == p.builds[i].segs;
    assert node.inputs[0..] == node.inputs;
    SegsAreFaithful(w, truth, p, t, env, named, ok, tt, hops, i, 0, 0, node);
    assert truth[i][0..] == truth[i];
    BuildIsFaithful(env, hops, named, node, truth[i], truth[i]);
  }

  /** The segments from the `k`-th on stand for the build's bytes from where they start. */
  lemma {:induction false} SegsAreFaithful(w: World, truth: seq<Bytes>, p: Plan, t: Tables, env: Env, named: set<Digest>, ok: set<nat>,
                                           tt: Tables, hops: nat, i: nat, k: nat, pos: nat, node: Node)
    requires Written(w, truth, p, t, env, named, ok) && Reaches(t, tt, hops)
    requires i in ok && i < |w.members| && i !in p.compress && i in p.builds && i < |truth|
    requires BuildHolds(w, truth, p, i, p.builds[i]) && k <= |p.builds[i].segs|
    requires node.BuildNode? && k <= |node.inputs| && SegsJson(w, p, tt, i, k) == Some(node.inputs[k..]) && Digests(node) <= named
    requires pos <= |truth[i]| && Tiles(p.builds[i].segs[k..], pos, |truth[i]|)
    requires forall j :: 0 <= j < |p.builds[i].segs| ==> SegSturdy(w, truth, p, i, j)
    ensures FaithfulInputs(env, hops, node, k, truth[i][pos..])
    decreases |tt.nodeOf|, Below(w, i), 5, |p.builds[i].segs| - k
  {
    hide Written, BuildHolds, FaithfulInput, FaithfulInputs, SegSturdy;
    var segs := p.builds[i].segs;
    if k == |segs| {
      assert truth[i][pos..] == [];
      NoInputs(env, hops, node, k);
    } else {
      var s := segs[k];
      SegInside(w, truth, p, i, k);
      assert segs[k..][0] == s && segs[k..][1..] == segs[k + 1..];
      assert node.inputs[k..][0] == node.inputs[k] && node.inputs[k..][1..] == node.inputs[k + 1..];
      SegsAreFaithful(w, truth, p, t, env, named, ok, tt, hops, i, k + 1, s.End(), node);
      InputIsNamed(node, k, named);
      SegIsFaithful(w, truth, p, t, env, named, ok, tt, hops, i, k, node.inputs[k]);
      InputsCons(env, hops, node, k, Cut(truth[i], s.at, s.len), truth[i][s.End()..]);
      assert Cut(truth[i], s.at, s.len) + truth[i][s.End()..] == truth[i][pos..];
    }
  }

  lemma SegInside(w: World, truth: seq<Bytes>, p: Plan, i: nat, k: nat)
    requires i in p.builds && BuildHolds(w, truth, p, i, p.builds[i]) && k < |p.builds[i].segs|
    ensures i < |truth| && p.builds[i].segs[k].End() <= |truth[i]|
    ensures i < |w.members| && p.builds[i].space in w.spaces
    ensures SegHolds(w, truth, p, w.members[i].depth, w.spaces[p.builds[i].space], truth[i], p.builds[i].segs[k])
  {
  }

  lemma {:induction false} SegIsFaithful(w: World, truth: seq<Bytes>, p: Plan, t: Tables, env: Env, named: set<Digest>, ok: set<nat>,
                                         tt: Tables, hops: nat, i: nat, k: nat, n: Node)
    requires Written(w, truth, p, t, env, named, ok) && Reaches(t, tt, hops)
    requires i in ok && i < |w.members| && i !in p.compress && i in p.builds && i < |truth|
    requires BuildHolds(w, truth, p, i, p.builds[i]) && k < |p.builds[i].segs| && p.builds[i].segs[k].End() <= |truth[i]|
    requires SegJson(w, p, tt, i, k) == Some(n) && Digests(n) <= named && SegSturdy(w, truth, p, i, k)
    ensures FaithfulInput(env, hops, n, Cut(truth[i], p.builds[i].segs[k].at, p.builds[i].segs[k].len))
    decreases |tt.nodeOf|, Below(w, i), 4
  {
    hide BuildHolds, FaithfulInput, Faithful, Unchanged, Honest, SturdyFrom, VisitsSturdy, Reencodes;
    var s := p.builds[i].segs[k];
    SegInside(w, truth, p, i, k);
    assert SegSettled(w, p, ok, s) && SegCaptured(truth, p, env.residue, i, s);
    match s {
      case Child(idx, from, len, at, _) =>
        ChildIsFaithful(w, truth, p, t, env, named, ok, tt, hops, i, idx, from, len, n);
      case Tabled(idx, from, len, _, _) =>
        RangeIsFaithful(w, truth, p, t, env, named, ok, tt, hops, idx, from, len);
      case PCluster(pc, at, len, _) =>
        PClusterIsFaithful(w, truth, p, t, env, named, ok, tt, hops, pc, Cut(truth[i], at, len), n);
      case Gap(at, len, off, inline) =>
        LiteralIsFaithful(env, hops, off, inline, Cut(truth[i], at, len));
    }
  }

  /** A child's node, whole or sliced. */
  lemma {:induction false} ChildIsFaithful(w: World, truth: seq<Bytes>, p: Plan, t: Tables, env: Env, named: set<Digest>, ok: set<nat>,
                                           tt: Tables, hops: nat, i: nat, idx: nat, from: nat, len: nat, n: Node)
    requires Written(w, truth, p, t, env, named, ok) && Reaches(t, tt, hops)
    requires LiesBelow(w, i, idx) && idx in ok && NodeJson(w, p, tt, idx).Some? && Digests(n) <= named
    requires idx < |truth| && from + len <= |truth[idx]| && SturdyFrom(w, truth, p, idx)
    requires var of := NodeJson(w, p, tt, idx).value;
             n == if from == 0 && len == w.members[idx].size then of else SliceOf(of, from, len)
    ensures FaithfulInput(env, hops, n, Cut(truth[idx], from, len))
    decreases |tt.nodeOf|, Below(w, i), 3
  {
    hide FaithfulInput, Faithful, Unchanged, Honest, SturdyFrom;
    var of := NodeJson(w, p, tt, idx).value;
    NodeIsFaithful(w, truth, p, t, env, named, ok, tt, hops, idx, of);
    SizeIsTrue(w, truth, idx);
    if from == 0 && len == w.members[idx].size {
      assert Cut(truth[idx], 0, |truth[idx]|) == truth[idx];
      PlainInput(env, hops, of, truth[idx]);
    } else {
      SliceIsFaithful(env, hops, named, of, truth[idx], from, len);
    }
  }

  lemma SizeIsTrue(w: World, truth: seq<Bytes>, i: nat)
    requires Unchanged(w, truth) && i < |truth|
    ensures i < |w.members| && w.members[i].size == |truth[i]|
  {
    assert MemberTrue(w, truth, i);
  }

  /** A range of a tabled member. */
  lemma {:induction false} RangeIsFaithful(w: World, truth: seq<Bytes>, p: Plan, t: Tables, env: Env, named: set<Digest>, ok: set<nat>,
                                           tt: Tables, hops: nat, idx: nat, from: nat, len: nat)
    requires Written(w, truth, p, t, env, named, ok) && Reaches(t, tt, hops)
    requires idx in tt.nodeOf && idx < |truth| && from + len <= |truth[idx]| && VisitsSturdy(w, truth, p, idx)
    ensures TabledJson(w, tt, idx, from, len).Some?
    ensures FaithfulInput(env, hops, TabledJson(w, tt, idx, from, len).value, Cut(truth[idx], from, len))
    decreases |tt.nodeOf|, 0, 0, 0
  {
    assert idx in tt.nodeOf.Keys && idx in t.nodeOf.Keys;
    assert |tt.nodeOf| > 0;
    SizeIsTrue(w, truth, idx);
    TabledNeedsNothing(w, truth, p, t, env, named, ok, idx);
    SelfContainedIsSturdy(w, truth, p, idx);
    NodeIsFaithful(w, truth, p, t, env, named, ok, Tables(t.srcOf, map[]), hops - 1, idx, env.sources[t.nodeOf[idx]]);
    TabledIsFaithful(w, env, hops, named, tt, idx, from, len, truth[idx]);
  }

  /** What stands in the table was written without it. */
  lemma TabledNeedsNothing(w: World, truth: seq<Bytes>, p: Plan, t: Tables, env: Env, named: set<Digest>, ok: set<nat>, idx: nat)
    requires Written(w, truth, p, t, env, named, ok) && idx in t.nodeOf
    ensures idx in ok && idx < |w.members| && t.nodeOf[idx] < |env.sources| && Needs(w, p, idx) == {}
    ensures NodeJson(w, p, Tables(t.srcOf, map[]), idx) == Some(env.sources[t.nodeOf[idx]])
  {
    hide Honest, Unchanged, PlanHolds, Settled, Captured, NodeJson, Needs;
    assert idx in t.nodeOf.Keys;
    WrittenIffKnown(w, p, Tables(t.srcOf, map[]), ok, idx);
  }

  lemma {:induction false} PClusterIsFaithful(w: World, truth: seq<Bytes>, p: Plan, t: Tables, env: Env, named: set<Digest>, ok: set<nat>,
                                              tt: Tables, hops: nat, pc: nat, stored: Bytes, n: Node)
    requires Written(w, truth, p, t, env, named, ok) && Reaches(t, tt, hops)
    requires pc < |p.pclusters| && NodeHolds(w.f, p.pclusters[pc], stored, truth, p.literals)
    requires PClusterJson(w, tt, p.pclusters[pc]) == Some(n) && Digests(n) <= named
    requires forall k :: 0 <= k < |p.pclusters[pc].inputs| ==> LiteralReadsBack(p, env.residue, p.pclusters[pc].inputs[k])
    requires Reencodes(w.f, p, pc, truth, stored) && forall y :: y in PartsOf(p.pclusters[pc].inputs) ==> VisitsSturdy(w, truth, p, y)
    ensures FaithfulInput(env, hops, n, stored)
    decreases |tt.nodeOf|, 0, 2
  {
    hide VisitsSturdy;
    var inputs := p.pclusters[pc].inputs;
    assert inputs[0..] == inputs && n.inputs[0..] == n.inputs;
    InputsAreFaithful(w, truth, p, t, env, named, ok, tt, hops, inputs, 0, n);
    SameLength(inputs, truth, p);
    BuildIsFaithful(env, hops, named, n, InputsNow(inputs, truth, p).value, stored);
    PlainInput(env, hops, n, stored);
  }

  lemma {:induction false} InputsAreFaithful(w: World, truth: seq<Bytes>, p: Plan, t: Tables, env: Env, named: set<Digest>, ok: set<nat>,
                                             tt: Tables, hops: nat, inputs: seq<PcInput>, k: nat, node: Node)
    requires Written(w, truth, p, t, env, named, ok) && Reaches(t, tt, hops)
    requires node.BuildNode? && k <= |inputs| && k <= |node.inputs| && Digests(node) <= named
    requires InputsJson(w, tt, inputs[k..]) == Some(node.inputs[k..])
    requires InputsNow(inputs[k..], truth, p).Some?
    requires forall j :: 0 <= j < |inputs| ==> LiteralReadsBack(p, env.residue, inputs[j])
    requires forall j :: 0 <= j < |inputs| && inputs[j].Part? ==> VisitsSturdy(w, truth, p, inputs[j].idx)
    ensures FaithfulInputs(env, hops, node, k, InputsNow(inputs[k..], truth, p).value)
    decreases |tt.nodeOf|, 0, 1, |inputs| - k
  {
    hide Written, FaithfulInput, FaithfulInputs, VisitsSturdy, ReadSpool;
    if k == |inputs| {
      NoInputs(env, hops, node, k);
    } else {
      assert inputs[k..][0] == inputs[k] && inputs[k..][1..] == inputs[k + 1..];
      assert |node.inputs[k..]| > 0;
      assert node.inputs[k..][0] == node.inputs[k] && node.inputs[k..][1..] == node.inputs[k + 1..];
      InputsAreFaithful(w, truth, p, t, env, named, ok, tt, hops, inputs, k + 1, node);
      InputIsFaithful(w, truth, p, t, env, named, ok, tt, hops, inputs[k], node.inputs[k]);
      InputsCons(env, hops, node, k, InputNow(inputs[k], truth, p).value, InputsNow(inputs[k + 1..], truth, p).value);
    }
  }

  lemma {:induction false} InputIsFaithful(w: World, truth: seq<Bytes>, p: Plan, t: Tables, env: Env, named: set<Digest>, ok: set<nat>,
                                           tt: Tables, hops: nat, x: PcInput, n: Node)
    requires Written(w, truth, p, t, env, named, ok) && Reaches(t, tt, hops)
    requires InputJson(w, tt, x) == Some(n) && InputNow(x, truth, p).Some?
    requires LiteralReadsBack(p, env.residue, x) && (x.Part? ==> VisitsSturdy(w, truth, p, x.idx))
    ensures FaithfulInput(env, hops, n, InputNow(x, truth, p).value)
    decreases |tt.nodeOf|, 0, 0, 1
  {
    hide Written, FaithfulInput, VisitsSturdy;
    match x {
      case Part(idx, from, len) =>
        RangeIsFaithful(w, truth, p, t, env, named, ok, tt, hops, idx, from, len);
      case Literal(_, len, off, inline) =>
        LiteralIsFaithful(env, hops, off, inline, InputNow(x, truth, p).value);
    }
  }
}
