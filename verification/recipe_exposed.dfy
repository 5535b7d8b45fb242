/**
 What a document that rebuilds says about the plan it was written from: with nothing but what it takes as
 it is at hand, every node it rests on must re-encode.
 */
module RecipeExposed {
  import opened Wrappers
  import opened ByteStrings
  import opened RecipePlan
  import opened RecipeTree
  import opened RecipeCapture
  import opened RecipeDocument
  import opened RecipeCheck
  import opened RecipeFaithful
  import opened RecipeSpool
  import opened RecipeReread
  import opened RecipeRebuild

  // ------------------------------------------------------------- what is taken and what is built

  /** The digests of what a node takes as it is, at any depth. */
  function LeafDigests(node: Node): set<Digest> {
    match node
    case RefNode(sha, _) => {sha}
    case ExtractNode(_, _, sha, _, _) => {sha}
    case BuildNode(_, _, _, inputs) => set k, d | 0 <= k < |inputs| && d in LeafDigests(inputs[k]) :: d
    case SliceOf(of, _, _) => LeafDigests(of)
    case _ => {}
  }

  /** The digests of what it builds. */
  function BuiltDigests(node: Node): set<Digest> {
    match node
    case BuildNode(_, sha, _, inputs) => {sha} + set k, d | 0 <= k < |inputs| && d in BuiltDigests(inputs[k]) :: d
    case SliceOf(of, _, _) => BuiltDigests(of)
    case _ => {}
  }

  lemma InputsAreIn(node: Node, k: nat)
    requires node.BuildNode? && k < |node.inputs|
    ensures LeafDigests(node.inputs[k]) <= LeafDigests(node) && BuiltDigests(node.inputs[k]) <= BuiltDigests(node)
  {
    forall d | d in LeafDigests(node.inputs[k])
      ensures d in LeafDigests(node)
    {
    }
    forall d | d in BuiltDigests(node.inputs[k])
      ensures d in BuiltDigests(node)
    {
    }
  }

  // ------------------------------------------------------------- nothing is missing

  /** Every member among `leaves` is at hand, and the table takes nothing else. */
  predicate Fed(w: World, truth: seq<Bytes>, env: Env, leaves: set<Digest>) {
    && (forall j :: 0 <= j < |truth| && w.f.sha256(truth[j]) in leaves ==> w.f.sha256(truth[j]) in env.blobs)
    && forall k :: 0 <= k < |env.sources| ==> LeafDigests(env.sources[k]) <= leaves
  }

  /** With all it takes at hand, a written node misses nothing. */
  lemma {:induction false} NothingMissing(w: World, truth: seq<Bytes>, p: Plan, t: Tables, env: Env, named: set<Digest>, ok: set<nat>,
                                          tt: Tables, hops: nat, leaves: set<Digest>, i: nat, node: Node)
    requires Written(w, truth, p, t, env, named, ok) && Reaches(t, tt, hops) && Fed(w, truth, env, leaves)
    requires i in ok && i < |w.members| && NodeJson(w, p, tt, i) == Some(node) && LeafDigests(node) <= leaves
    ensures Missing(env, hops, node) == Ok({})
    decreases |tt.nodeOf|, Below(w, i), 7
  {
    hide Honest, TablesHold, Captured, PlanHolds;
    assert MemberTrue(w, truth, i);
    if i in p.extracts {
      assert node.sha in LeafDigests(node);
    } else if i in p.compress {
      InputsAreIn(node, 0);
      NothingMissing(w, truth, p, t, env, named, ok, tt, hops, leaves, p.compress[i].child, node.inputs[0]);
      NoSourceNode(w, p, tt, p.compress[i].child);
      assert MissingInputs(env, hops, node, 1) == Ok({});
      MissesNeither(env, hops, node, 0);
    } else if i in p.builds {
      assert node.inputs[0..] == node.inputs;
      SegsMissNothing(w, truth, p, t, env, named, ok, tt, hops, leaves, i, 0, node);
    } else {
      assert node.sha in LeafDigests(node);
    }
  }

  lemma {:induction false} SegsMissNothing(w: World, truth: seq<Bytes>, p: Plan, t: Tables, env: Env, named: set<Digest>, ok: set<nat>,
                                           tt: Tables, hops: nat, leaves: set<Digest>, i: nat, k: nat, node: Node)
    requires Written(w, truth, p, t, env, named, ok) && Reaches(t, tt, hops) && Fed(w, truth, env, leaves)
    requires i in ok && i < |w.members| && i !in p.compress && i in p.builds && k <= |p.builds[i].segs|
    requires node.BuildNode? && k <= |node.inputs| && SegsJson(w, p, tt, i, k) == Some(node.inputs[k..]) && LeafDigests(node) <= leaves
    ensures MissingInputs(env, hops, node, k) == Ok({})
    decreases |tt.nodeOf|, Below(w, i), 5, |p.builds[i].segs| - k
  {
    hide Written, Fed, SegJson, MissingInput;
    if k < |p.builds[i].segs| {
      assert node.inputs[k..][0] == node.inputs[k] && node.inputs[k..][1..] == node.inputs[k + 1..];
      SegsMissNothing(w, truth, p, t, env, named, ok, tt, hops, leaves, i, k + 1, node);
      InputsAreIn(node, k);
      SegMissesNothing(w, truth, p, t, env, named, ok, tt, hops, leaves, i, k, node.inputs[k]);
      MissesNeither(env, hops, node, k);
    }
  }

  lemma MissesNeither(env: Env, hops: nat, node: Node, k: nat)
    requires node.BuildNode? && k < |node.inputs| && MissingInput(env, hops, node.inputs[k]) == Ok({})
    requires MissingInputs(env, hops, node, k + 1) == Ok({})
    ensures MissingInputs(env, hops, node, k) == Ok({})
  {
    var none: set<Digest> := {};
    assert none + none == none;
  }

  lemma {:induction false} SegMissesNothing(w: World, truth: seq<Bytes>, p: Plan, t: Tables, env: Env, named: set<Digest>, ok: set<nat>,
                                            tt: Tables, hops: nat, leaves: set<Digest>, i: nat, k: nat, n: Node)
    requires Written(w, truth, p, t, env, named, ok) && Reaches(t, tt, hops) && Fed(w, truth, env, leaves)
    requires i in ok && i < |w.members| && i !in p.compress && i in p.builds && k < |p.builds[i].segs|
    requires SegJson(w, p, tt, i, k) == Some(n) && LeafDigests(n) <= leaves
    ensures MissingInput(env, hops, n) == Ok({})
    decreases |tt.nodeOf|, Below(w, i), 4
  {
    hide Honest, TablesHold, Captured, PlanHolds, Unchanged, Fed;
    var s := p.builds[i].segs[k];
    assert SegSettled(w, p, ok, s);
    match s {
      case Child(idx, from, len, at, _) =>
        NothingMissing(w, truth, p, t, env, named, ok, tt, hops, leaves, idx, NodeJson(w, p, tt, idx).value);
      case Tabled(idx, from, len, _, _) =>
        RangeMissesNothing(w, truth, p, t, env, named, ok, tt, hops, leaves, idx, from, len);
      case PCluster(pc, _, _, _) =>
        assert n.inputs[0..] == n.inputs && p.pclusters[pc].inputs[0..] == p.pclusters[pc].inputs;
        InputsMissNothing(w, truth, p, t, env, named, ok, tt, hops, leaves, p.pclusters[pc].inputs, 0, n);
      case Gap(_, _, _, _) =>
    }
  }

  lemma {:induction false} RangeMissesNothing(w: World, truth: seq<Bytes>, p: Plan, t: Tables, env: Env, named: set<Digest>, ok: set<nat>,
                                              tt: Tables, hops: nat, leaves: set<Digest>, idx: nat, from: nat, len: nat)
    requires Written(w, truth, p, t, env, named, ok) && Reaches(t, tt, hops) && Fed(w, truth, env, leaves)
    requires TabledJson(w, tt, idx, from, len).Some?
    ensures MissingInput(env, hops, TabledJson(w, tt, idx, from, len).value) == Ok({})
    decreases |tt.nodeOf|, 0, 0, 0
  {
    hide Written, NodeJson, Fed;
    assert Descends(w, p) by { WrittenDescends(w, truth, p, t, env, named, ok); }
    TabledNeedsNothing(w, truth, p, t, env, named, ok, idx);
    assert |tt.nodeOf| > 0;
    assert LeafDigests(env.sources[t.nodeOf[idx]]) <= leaves by { TableIsFed(w, truth, env, leaves, t.nodeOf[idx]); }
    NothingMissing(w, truth, p, t, env, named, ok, Tables(t.srcOf, map[]), hops - 1, leaves, idx, env.sources[t.nodeOf[idx]]);
    NoSourceNode(w, p, Tables(t.srcOf, map[]), idx);
    ResolvesTo(env.sources, t.nodeOf[idx]);
  }

  lemma TableIsFed(w: World, truth: seq<Bytes>, env: Env, leaves: set<Digest>, k: nat)
    requires Fed(w, truth, env, leaves) && k < |env.sources|
    ensures LeafDigests(env.sources[k]) <= leaves
  {
  }

  lemma NoSourceNode(w: World, p: Plan, t: Tables, i: nat)
    requires Descends(w, p) && i < |w.members| && NodeJson(w, p, t, i).Some?
    ensures var n := NodeJson(w, p, t, i).value;
            (n.RefNode? || n.ExtractNode? || n.BuildNode?) && (n.BuildNode? <==> Planned(p, i) && i !in p.extracts)
  {
  }

  lemma {:induction false} InputsMissNothing(w: World, truth: seq<Bytes>, p: Plan, t: Tables, env: Env, named: set<Digest>, ok: set<nat>,
                                             tt: Tables, hops: nat, leaves: set<Digest>, inputs: seq<PcInput>, k: nat, node: Node)
    requires Written(w, truth, p, t, env, named, ok) && Reaches(t, tt, hops) && Fed(w, truth, env, leaves)
    requires node.BuildNode? && k <= |inputs| && k <= |node.inputs| && LeafDigests(node) <= leaves
    requires InputsJson(w, tt, inputs[k..]) == Some(node.inputs[k..])
    ensures MissingInputs(env, hops, node, k) == Ok({})
    decreases |tt.nodeOf|, 0, 1, |inputs| - k
  {
    hide Written, Fed;
    if k < |inputs| {
      assert inputs[k..][0] == inputs[k] && inputs[k..][1..] == inputs[k + 1..];
      assert |node.inputs[k..]| > 0;
      assert node.inputs[k..][0] == node.inputs[k] && node.inputs[k..][1..] == node.inputs[k + 1..];
      InputsMissNothing(w, truth, p, t, env, named, ok, tt, hops, leaves, inputs, k + 1, node);
      if inputs[k].Part? {
        RangeMissesNothing(w, truth, p, t, env, named, ok, tt, hops, leaves, inputs[k].idx, inputs[k].from, inputs[k].len);
      }
      MissesNeither(env, hops, node, k);
    }
  }

  // ------------------------------------------------------------- every node is run

  /** Nothing that is built is at hand, and no member has both an extract and a plan. */
  predicate Bare(p: Plan, env: Env) {
    && (forall k :: 0 <= k < |env.sources| ==> BuiltDigests(env.sources[k]) !! env.blobs.Keys)
    && forall x :: x in p.extracts ==> !Planned(p, x)
  }

  /** Where a written node is rebuilt with nothing at hand that is built, every node it rests on re-encodes. */
  lemma {:induction false} Exposed(w: World, truth: seq<Bytes>, p: Plan, t: Tables, env: Env, named: set<Digest>, ok: set<nat>,
                                   tt: Tables, hops: nat, i: nat, node: Node)
    requires Written(w, truth, p, t, env, named, ok) && Reaches(t, tt, hops) && Bare(p, env)
    requires i in ok && i < |w.members| && NodeJson(w, p, tt, i) == Some(node) && Digests(node) <= named
    requires Denote(env, hops, node).Ok? && BuiltDigests(node) !! env.blobs.Keys
    ensures SturdyFrom(w, truth, p, i)
    decreases |tt.nodeOf|, Below(w, i), 7
  {
    hide Honest, TablesHold, Captured, PlanHolds, Unchanged, SturdyFrom, SegSturdy;
    if i in p.extracts || !Planned(p, i) {
      LeafIsSturdy(w, truth, p, i);
    } else {
      BuiltIsRun(env, hops, node);
      if i in p.compress {
        InputsAreIn(node, 0);
        InputIsNamed(node, 0, named);
        Exposed(w, truth, p, t, env, named, ok, tt, hops, p.compress[i].child, node.inputs[0]);
        CompressIsSturdyIff(w, truth, p, i);
      } else {
        assert node.inputs[0..] == node.inputs;
        SegsAreExposed(w, truth, p, t, env, named, ok, tt, hops, i, 0, node);
        BuildIsSturdyIff(w, truth, p, i);
      }
    }
  }

  lemma BuiltIsRun(env: Env, hops: nat, node: Node)
    requires node.BuildNode? && Denote(env, hops, node).Ok? && BuiltDigests(node) !! env.blobs.Keys
    ensures DenoteBuild(env, hops, node).Ok?
    ensures node.builder.SpliceRun? || node.builder.MicroLzmaRun? ==> DenoteInputs(env, hops, node, 0).Ok?
    ensures node.builder.GzipRun? || node.builder.ZstdRun? ==> |node.inputs| == 1 && Denote(env, hops, node.inputs[0]).Ok?
  {
    assert node.sha in BuiltDigests(node);
  }

  lemma {:induction false} SegsAreExposed(w: World, truth: seq<Bytes>, p: Plan, t: Tables, env: Env, named: set<Digest>, ok: set<nat>,
                                          tt: Tables, hops: nat, i: nat, k: nat, node: Node)
    requires Written(w, truth, p, t, env, named, ok) && Reaches(t, tt, hops) && Bare(p, env)
    requires i in ok && i < |w.members| && i !in p.compress && i in p.builds && k <= |p.builds[i].segs|
    requires node.BuildNode? && k <= |node.inputs| && SegsJson(w, p, tt, i, k) == Some(node.inputs[k..]) && Digests(node) <= named
    requires DenoteInputs(env, hops, node, k).Ok? && BuiltDigests(node) !! env.blobs.Keys
    ensures forall j :: k <= j < |p.builds[i].segs| ==> SegSturdy(w, truth, p, i, j)
    decreases |tt.nodeOf|, Below(w, i), 5, |p.builds[i].segs| - k
  {
    hide Written, Bare, SegJson, Denote, SegSturdy;
    if k < |p.builds[i].segs| {
      assert node.inputs[k..][0] == node.inputs[k] && node.inputs[k..][1..] == node.inputs[k + 1..];
      SegsAreExposed(w, truth, p, t, env, named, ok, tt, hops, i, k + 1, node);
      InputsAreIn(node, k);
      InputIsNamed(node, k, named);
      SegIsExposed(w, truth, p, t, env, named, ok, tt, hops, i, k, node.inputs[k]);
    }
  }

  lemma {:induction false} SegIsExposed(w: World, truth: seq<Bytes>, p: Plan, t: Tables, env: Env, named: set<Digest>, ok: set<nat>,
                                        tt: Tables, hops: nat, i: nat, k: nat, n: Node)
    requires Written(w, truth, p, t, env, named, ok) && Reaches(t, tt, hops) && Bare(p, env)
    requires i in ok && i < |w.members| && i !in p.compress && i in p.builds && k < |p.builds[i].segs|
    requires SegJson(w, p, tt, i, k) == Some(n) && Digests(n) <= named
    requires Denote(env, hops, n).Ok? && BuiltDigests(n) !! env.blobs.Keys
    ensures SegSturdy(w, truth, p, i, k)
    decreases |tt.nodeOf|, Below(w, i), 4
  {
    hide Honest, TablesHold, PlanHolds, Unchanged, Bare, SturdyFrom, VisitsSturdy, Reencodes;
    var s := p.builds[i].segs[k];
    assert SegSettled(w, p, ok, s);
    match s {
      case Child(idx, from, len, at, _) =>
        ChildIsExposed(w, truth, p, t, env, named, ok, tt, hops, i, idx, n);
      case Tabled(idx, from, len, _, _) =>
        RangeIsExposed(w, truth, p, t, env, named, ok, tt, hops, idx, from, len);
      case PCluster(pc, at, len, _) =>
        NodeInBuild(w, truth, p, t, env, named, ok, i, k);
        PClusterIsExposed(w, truth, p, t, env, named, ok, tt, hops, pc, Cut(truth[i], at, len), n);
      case Gap(_, _, _, _) =>
    }
  }

  lemma NodeInBuild(w: World, truth: seq<Bytes>, p: Plan, t: Tables, env: Env, named: set<Digest>, ok: set<nat>, i: nat, k: nat)
    requires Written(w, truth, p, t, env, named, ok) && i in ok && i < |w.members| && i !in p.compress && i in p.builds && k < |p.builds[i].segs|
    requires p.builds[i].segs[k].PCluster?
    ensures var s := p.builds[i].segs[k];
            i < |truth| && s.End() <= |truth[i]| && s.pc < |p.pclusters|
            && NodeHolds(w.f, p.pclusters[s.pc], Cut(truth[i], s.at, s.len), truth, p.literals)
            && forall j :: 0 <= j < |p.pclusters[s.pc].inputs| ==> LiteralReadsBack(p, env.residue, p.pclusters[s.pc].inputs[j])
  {
    hide Honest, TablesHold, Unchanged, Settled, NodeHolds;
    assert BuildHolds(w, truth, p, i, p.builds[i]);
    assert SegCaptured(truth, p, env.residue, i, p.builds[i].segs[k]);
  }

  lemma {:induction false} ChildIsExposed(w: World, truth: seq<Bytes>, p: Plan, t: Tables, env: Env, named: set<Digest>, ok: set<nat>,
                                          tt: Tables, hops: nat, i: nat, idx: nat, n: Node)
    requires Written(w, truth, p, t, env, named, ok) && Reaches(t, tt, hops) && Bare(p, env)
    requires LiesBelow(w, i, idx) && idx in ok && NodeJson(w, p, tt, idx).Some? && Digests(n) <= named
    requires var of := NodeJson(w, p, tt, idx).value; n == of || (n.SliceOf? && n.of == of)
    requires Denote(env, hops, n).Ok? && BuiltDigests(n) !! env.blobs.Keys
    ensures SturdyFrom(w, truth, p, idx)
    decreases |tt.nodeOf|, Below(w, i), 3
  {
    hide Written, NodeJson, SturdyFrom;
    assert Descends(w, p) by { WrittenDescends(w, truth, p, t, env, named, ok); }
    var of := NodeJson(w, p, tt, idx).value;
    NoSourceNode(w, p, tt, idx);
    if of.BuildNode? {
      assert of.sha in BuiltDigests(of);
      Exposed(w, truth, p, t, env, named, ok, tt, hops, idx, of);
    } else {
      LeafIsSturdy(w, truth, p, idx);
    }
  }

  lemma WrittenDescends(w: World, truth: seq<Bytes>, p: Plan, t: Tables, env: Env, named: set<Digest>, ok: set<nat>)
    requires Written(w, truth, p, t, env, named, ok)
    ensures Descends(w, p)
  {
  }

  lemma {:induction false} RangeIsExposed(w: World, truth: seq<Bytes>, p: Plan, t: Tables, env: Env, named: set<Digest>, ok: set<nat>,
                                          tt: Tables, hops: nat, idx: nat, from: nat, len: nat)
    requires Written(w, truth, p, t, env, named, ok) && Reaches(t, tt, hops) && Bare(p, env)
    requires TabledJson(w, tt, idx, from, len).Some? && Denote(env, hops, TabledJson(w, tt, idx, from, len).value).Ok?
    ensures VisitsSturdy(w, truth, p, idx)
    decreases |tt.nodeOf|, 0, 0, 0
  {
    hide Written, NodeJson, SturdyFrom, VisitsSturdy, Denote, Honest, BuiltDigests;
    assert Descends(w, p) && Honest(env, named) by { WrittenIsHonest(w, truth, p, t, env, named, ok); }
    TabledNeedsNothing(w, truth, p, t, env, named, ok, idx);
    assert |tt.nodeOf| > 0;
    var of := env.sources[t.nodeOf[idx]];
    NoSourceNode(w, p, Tables(t.srcOf, map[]), idx);
    SelfContainedIsSturdy(w, truth, p, idx);
    if of.BuildNode? {
      TableIsRun(w, env, hops, tt, idx, from, len);
      assert Digests(of) <= named by { TableIsNamed(env, named, t.nodeOf[idx]); }
      Exposed(w, truth, p, t, env, named, ok, Tables(t.srcOf, map[]), hops - 1, idx, of);
    } else {
      LeafIsSturdy(w, truth, p, idx);
    }
  }

  lemma TableIsNamed(env: Env, named: set<Digest>, k: nat)
    requires Honest(env, named) && k < |env.sources|
    ensures Digests(env.sources[k]) <= named
  {
  }

  /** A range of a table entry that is built and not at hand is had only by building it. */
  lemma TableIsRun(w: World, env: Env, hops: nat, t: Tables, idx: nat, from: nat, len: nat)
    requires TabledJson(w, t, idx, from, len).Some? && t.nodeOf[idx] < |env.sources| && env.sources[t.nodeOf[idx]].BuildNode?
    requires Denote(env, hops, TabledJson(w, t, idx, from, len).value).Ok?
    requires BuiltDigests(env.sources[t.nodeOf[idx]]) !! env.blobs.Keys
    ensures hops > 0 && Denote(env, hops - 1, env.sources[t.nodeOf[idx]]).Ok?
  {
    var of := env.sources[t.nodeOf[idx]];
    ResolvesTo(env.sources, t.nodeOf[idx]);
    assert of.sha in BuiltDigests(of);
  }

  lemma WrittenIsHonest(w: World, truth: seq<Bytes>, p: Plan, t: Tables, env: Env, named: set<Digest>, ok: set<nat>)
    requires Written(w, truth, p, t, env, named, ok)
    ensures Descends(w, p) && Honest(env, named) && env.f == w.f
  {
  }

  lemma {:induction false} PClusterIsExposed(w: World, truth: seq<Bytes>, p: Plan, t: Tables, env: Env, named: set<Digest>, ok: set<nat>,
                                             tt: Tables, hops: nat, pc: nat, stored: Bytes, n: Node)
    requires Written(w, truth, p, t, env, named, ok) && Reaches(t, tt, hops) && Bare(p, env)
    requires pc < |p.pclusters| && NodeHolds(w.f, p.pclusters[pc], stored, truth, p.literals)
    requires PClusterJson(w, tt, p.pclusters[pc]) == Some(n) && Digests(n) <= named
    requires forall k :: 0 <= k < |p.pclusters[pc].inputs| ==> LiteralReadsBack(p, env.residue, p.pclusters[pc].inputs[k])
    requires Denote(env, hops, n).Ok? && BuiltDigests(n) !! env.blobs.Keys
    ensures Reencodes(w.f, p, pc, truth, stored) && forall y :: y in PartsOf(p.pclusters[pc].inputs) ==> VisitsSturdy(w, truth, p, y)
    decreases |tt.nodeOf|, 0, 2
  {
    hide Written, Bare, VisitsSturdy, LiteralReadsBack;
    assert Honest(env, named) && env.f == w.f by { WrittenIsHonest(w, truth, p, t, env, named, ok); }
    var inputs := p.pclusters[pc].inputs;
    assert inputs[0..] == inputs && n.inputs[0..] == n.inputs;
    BuiltIsRun(env, hops, n);
    InputsAreExposed(w, truth, p, t, env, named, ok, tt, hops, inputs, 0, n);
    NowIsThere(p, env.residue, truth, inputs);
    InputsAreFaithful(w, truth, p, t, env, named, ok, tt, hops, inputs, 0, n);
    SameDigestSameBytes(env, named, n, DenoteBuild(env, hops, n).value, stored);
  }

  lemma SameDigestSameBytes(env: Env, named: set<Digest>, n: Node, b: Bytes, stored: Bytes)
    requires OnePreimage(env.f, named) && n.BuildNode? && Digests(n) <= named
    requires env.f.sha256(b) == n.sha == env.f.sha256(stored)
    ensures b == stored
  {
    assert n.sha in Digests(n);
  }

  lemma {:induction false} NowIsThere(p: Plan, residue: Option<Bytes>, truth: seq<Bytes>, inputs: seq<PcInput>)
    requires InputsBytes(inputs, truth, p.literals).Some?
    requires forall k :: 0 <= k < |inputs| ==> LiteralReadsBack(p, residue, inputs[k])
    ensures InputsNow(inputs, truth, p).Some?
  {
    hide ReadSpool;
    if inputs != [] {
      forall k | 0 <= k < |inputs[1..]|
        ensures LiteralReadsBack(p, residue, inputs[1..][k])
      {
        assert inputs[1..][k] == inputs[k + 1];
      }
      assert LiteralReadsBack(p, residue, inputs[0]);
      NowIsThere(p, residue, truth, inputs[1..]);
    }
  }

  lemma {:induction false} InputsAreExposed(w: World, truth: seq<Bytes>, p: Plan, t: Tables, env: Env, named: set<Digest>, ok: set<nat>,
                                            tt: Tables, hops: nat, inputs: seq<PcInput>, k: nat, node: Node)
    requires Written(w, truth, p, t, env, named, ok) && Reaches(t, tt, hops) && Bare(p, env)
    requires node.BuildNode? && k <= |inputs| && k <= |node.inputs|
    requires InputsJson(w, tt, inputs[k..]) == Some(node.inputs[k..]) && DenoteInputs(env, hops, node, k).Ok?
    ensures forall j :: k <= j < |inputs| && inputs[j].Part? ==> VisitsSturdy(w, truth, p, inputs[j].idx)
    decreases |tt.nodeOf|, 0, 1, |inputs| - k
  {
    hide Written, Bare, VisitsSturdy, Denote;
    if k < |inputs| {
      assert inputs[k..][0] == inputs[k] && inputs[k..][1..] == inputs[k + 1..];
      assert |node.inputs[k..]| > 0;
      assert node.inputs[k..][0] == node.inputs[k] && node.inputs[k..][1..] == node.inputs[k + 1..];
      InputsAreExposed(w, truth, p, t, env, named, ok, tt, hops, inputs, k + 1, node);
      if inputs[k].Part? {
        RangeIsExposed(w, truth, p, t, env, named, ok, tt, hops, inputs[k].idx, inputs[k].from, inputs[k].len);
      }
    }
  }

  // ------------------------------------------------------------- where the digests come from

  /** The digest of a member without a plan of its own, or of an archive some extract names. */
  ghost predicate LeafOf(w: World, truth: seq<Bytes>, p: Plan, d: Digest) {
    || (exists j :: 0 <= j < |truth| && !Planned(p, j) && w.f.sha256(truth[j]) == d)
    || (exists j :: j in p.extracts && p.extracts[j].sha256 == d)
  }

  /** The digest of a planned member, or of a pcluster. */
  ghost predicate BuiltOf(w: World, truth: seq<Bytes>, p: Plan, d: Digest) {
    || (exists j :: 0 <= j < |truth| && Planned(p, j) && w.f.sha256(truth[j]) == d)
    || (exists k :: 0 <= k < |p.pclusters| && p.pclusters[k].sha256 == d)
  }

  ghost predicate DigestsFrom(w: World, truth: seq<Bytes>, p: Plan, node: Node) {
    (forall d :: d in LeafDigests(node) ==> LeafOf(w, truth, p, d)) && (forall d :: d in BuiltDigests(node) ==> BuiltOf(w, truth, p, d))
  }

  /** A written node takes members without a plan, and builds planned members and pclusters. */
  lemma {:induction false} WrittenFrom(w: World, truth: seq<Bytes>, p: Plan, t: Tables, i: nat, node: Node)
    requires Unchanged(w, truth) && Descends(w, p) && (forall x :: x in p.extracts ==> !Planned(p, x))
    requires i < |w.members| && NodeJson(w, p, t, i) == Some(node)
    ensures DigestsFrom(w, truth, p, node)
    decreases Below(w, i), 2
  {
    hide LeafOf, BuiltOf, Unchanged, Descends;
    MemberDigest(w, truth, p, i);
    if i in p.extracts {
    } else if i in p.compress {
      CompressDescends(w, p, i);
      WrittenFrom(w, truth, p, t, p.compress[i].child, node.inputs[0]);
    } else if i in p.builds {
      assert node.inputs[0..] == node.inputs;
      SegsFrom(w, truth, p, t, i, 0, node);
      AllFrom(w, truth, p, node);
    }
  }

  lemma MemberDigest(w: World, truth: seq<Bytes>, p: Plan, i: nat)
    requires Unchanged(w, truth) && i < |w.members|
    ensures i < |truth| && (w.members[i].sha256.Some? ==> w.members[i].sha256.value == w.f.sha256(truth[i]))
    ensures if Planned(p, i) then BuiltOf(w, truth, p, w.f.sha256(truth[i])) else LeafOf(w, truth, p, w.f.sha256(truth[i]))
  {
    assert MemberTrue(w, truth, i);
  }

  lemma CompressDescends(w: World, p: Plan, i: nat)
    requires Descends(w, p) && i in p.compress
    ensures LiesBelow(w, i, p.compress[i].child)
  {
  }

  lemma AllFrom(w: World, truth: seq<Bytes>, p: Plan, node: Node)
    requires node.BuildNode? && BuiltOf(w, truth, p, node.sha)
    requires forall k :: 0 <= k < |node.inputs| ==> DigestsFrom(w, truth, p, node.inputs[k])
    ensures DigestsFrom(w, truth, p, node)
  {
    hide LeafOf, BuiltOf;
    forall d | d in LeafDigests(node)
      ensures LeafOf(w, truth, p, d)
    {
      var k :| 0 <= k < |node.inputs| && d in LeafDigests(node.inputs[k]);
      assert DigestsFrom(w, truth, p, node.inputs[k]);
    }
    forall d | d in BuiltDigests(node)
      ensures BuiltOf(w, truth, p, d)
    {
      if d != node.sha {
        var k :| 0 <= k < |node.inputs| && d in BuiltDigests(node.inputs[k]);
        assert DigestsFrom(w, truth, p, node.inputs[k]);
      }
    }
  }

  lemma {:induction false} SegsFrom(w: World, truth: seq<Bytes>, p: Plan, t: Tables, i: nat, k: nat, node: Node)
    requires Unchanged(w, truth) && Descends(w, p) && (forall x :: x in p.extracts ==> !Planned(p, x))
    requires i < |w.members| && i in p.builds && k <= |p.builds[i].segs|
    requires node.BuildNode? && k <= |node.inputs| && SegsJson(w, p, t, i, k) == Some(node.inputs[k..])
    ensures forall j :: k <= j < |node.inputs| ==> DigestsFrom(w, truth, p, node.inputs[j])
    decreases Below(w, i), 1, |p.builds[i].segs| - k
  {
    hide DigestsFrom, Unchanged, Descends, SegJson;
    if k < |p.builds[i].segs| {
      assert node.inputs[k..][0] == node.inputs[k] && node.inputs[k..][1..] == node.inputs[k + 1..];
      SegsFrom(w, truth, p, t, i, k + 1, node);
      SegFrom(w, truth, p, t, i, k, node.inputs[k]);
    } else {
      assert |node.inputs[k..]| == 0;
    }
  }

  lemma {:induction false} SegFrom(w: World, truth: seq<Bytes>, p: Plan, t: Tables, i: nat, k: nat, n: Node)
    requires Unchanged(w, truth) && Descends(w, p) && (forall x :: x in p.extracts ==> !Planned(p, x))
    requires i < |w.members| && i in p.builds && k < |p.builds[i].segs| && SegJson(w, p, t, i, k) == Some(n)
    ensures DigestsFrom(w, truth, p, n)
    decreases Below(w, i), 0
  {
    hide LeafOf, BuiltOf, Unchanged, Descends;
    var s := p.builds[i].segs[k];
    if s.Child? {
      assert LiesBelow(w, i, s.idx) by { ChildDescends(w, p, i, k); }
      WrittenFrom(w, truth, p, t, s.idx, NodeJson(w, p, t, s.idx).value);
    } else if s.PCluster? {
      InputsFrom(w, truth, p, t, p.pclusters[s.pc].inputs);
      assert BuiltOf(w, truth, p, n.sha) by { NodeDigest(w, truth, p, s.pc); }
      AllFrom(w, truth, p, n);
    }
  }

  lemma ChildDescends(w: World, p: Plan, i: nat, k: nat)
    requires Descends(w, p) && i in p.builds && k < |p.builds[i].segs| && p.builds[i].segs[k].Child?
    ensures LiesBelow(w, i, p.builds[i].segs[k].idx)
  {
  }

  lemma NodeDigest(w: World, truth: seq<Bytes>, p: Plan, pc: nat)
    requires pc < |p.pclusters|
    ensures BuiltOf(w, truth, p, p.pclusters[pc].sha256)
  {
  }

  lemma {:induction false} InputsFrom(w: World, truth: seq<Bytes>, p: Plan, t: Tables, inputs: seq<PcInput>)
    ensures InputsJson(w, t, inputs).Some? ==>
              forall k :: 0 <= k < |InputsJson(w, t, inputs).value| ==> DigestsFrom(w, truth, p, InputsJson(w, t, inputs).value[k])
  {
    hide LeafOf, BuiltOf;
    if inputs != [] {
      InputsFrom(w, truth, p, t, inputs[1..]);
    }
  }
}
