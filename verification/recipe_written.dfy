/**
 What a document says, read node by node: the plan it was written from, the sources table entry by
 entry, and the residue the verify pass filled.
 */
module RecipeWritten {
  import opened Wrappers
  import opened ByteStrings
  import opened RecipePlan
  import opened RecipeTree
  import opened RecipeCapture
  import opened RecipeDocument

  // ------------------------------------------------------------- reading a node

  predicate IsWhole(w: World, idx: nat, from: nat, len: nat) {
    idx < |w.members| && from == 0 && len == w.members[idx].size
  }

  predicate TellsLiteral(node: Node, off: Option<nat>, len: nat, inline: Option<Bytes>) {
    match node
    case InlineLiteral(bytes) => inline == Some(bytes)
    case ResidueLiteral(at, n) => inline.None? && off == Some(at) && n == len
    case _ => false
  }

  /** A range of member `idx`, through its entry in the table. */
  predicate TellsRange(w: World, t: Tables, node: Node, idx: nat, from: nat, len: nat) {
    && idx in t.nodeOf
    && match node
       case SourceNode(k) => k == t.nodeOf[idx] && IsWhole(w, idx, from, len)
       case SliceSource(k, f, n) => k == t.nodeOf[idx] && f == from && n == len && !IsWhole(w, idx, from, len)
       case _ => false
  }

  predicate TellsInput(w: World, t: Tables, node: Node, x: PcInput) {
    match x
    case Part(idx, from, len) => TellsRange(w, t, node, idx, from, len)
    case Literal(_, len, off, inline) => TellsLiteral(node, off, len, inline)
  }

  predicate TellsPCluster(w: World, t: Tables, node: Node, x: PClusterNode) {
    && node.BuildNode? && node.sha == x.sha256 && node.size == x.size
    && node.builder == MicroLzmaRun(x.preset, x.dictSize, x.pad)
    && |node.inputs| == |x.inputs| && forall k :: 0 <= k < |x.inputs| ==> TellsInput(w, t, node.inputs[k], x.inputs[k])
  }

  /** The node says how plan `p` makes member `i`. */
  predicate TellsNode(w: World, p: Plan, t: Tables, node: Node, i: nat)
    decreases node, 0
  {
    && i < |w.members| == |w.evidence|
    && match node
       case RefNode(sha, claims) =>
         && !Planned(p, i) && i !in p.extracts
         && w.members[i].sha256 == Some(sha) && claims == w.evidence[i].urls
       case ExtractNode(archive, path, sha, size, url) =>
         && i in p.extracts && i in t.srcOf && archive == t.srcOf[i]
         && path == p.extracts[i].path && url == p.extracts[i].url
         && w.members[i].sha256 == Some(sha) && size == w.members[i].size
       case BuildNode(builder, sha, size, inputs) =>
         && i !in p.extracts && w.members[i].sha256 == Some(sha) && size == w.members[i].size
         && (if builder.SpliceRun? then
               && i in p.builds && i !in p.compress && |inputs| == |p.builds[i].segs|
               && forall k :: 0 <= k < |inputs| ==> TellsSeg(w, p, t, inputs[k], p.builds[i].segs[k])
             else
               && i in p.compress && |inputs| == 1 && TellsNode(w, p, t, inputs[0], p.compress[i].child)
               && match p.compress[i].how
                  case UseGzip(params, header) => builder == GzipRun(params, header)
                  case UseZstd(params) => builder == ZstdRun(params))
       case _ => false
  }

  predicate TellsSeg(w: World, p: Plan, t: Tables, node: Node, s: Seg)
    decreases node, 1
  {
    match s
    case Child(idx, from, len, _, _) =>
      if IsWhole(w, idx, from, len) then TellsNode(w, p, t, node, idx)
      else node.SliceOf? && node.from == from && node.len == len && TellsNode(w, p, t, node.of, idx)
    case Tabled(idx, from, len, _, _) => TellsRange(w, t, node, idx, from, len)
    case PCluster(pc, _, _, _) => pc < |p.pclusters| && TellsPCluster(w, t, node, p.pclusters[pc])
    case Gap(_, len, off, inline) => TellsLiteral(node, off, len, inline)
  }

  // ------------------------------------------------------------- what is written is told

  lemma {:induction false} NodeTells(w: World, p: Plan, t: Tables, i: nat, node: Node)
    requires Descends(w, p) && i < |w.members| && NodeJson(w, p, t, i) == Some(node)
    ensures TellsNode(w, p, t, node, i)
    decreases Below(w, i), 1
  {
    hide Descends, TellsSeg;
    SameEvidence(w, p);
    if i in p.extracts {
    } else if i in p.compress {
      ChildOfCompress(w, p, i);
      NodeTells(w, p, t, p.compress[i].child, node.inputs[0]);
    } else if i in p.builds {
      SegsTell(w, p, t, i, 0);
    }
  }

  lemma SameEvidence(w: World, p: Plan)
    requires Descends(w, p)
    ensures |w.members| == |w.evidence|
  {
  }

  lemma ChildOfCompress(w: World, p: Plan, i: nat)
    requires Descends(w, p) && i in p.compress
    ensures LiesBelow(w, i, p.compress[i].child)
  {
  }

  lemma ChildOfSeg(w: World, p: Plan, i: nat, k: nat)
    requires Descends(w, p) && i in p.builds && k < |p.builds[i].segs| && p.builds[i].segs[k].Child?
    ensures LiesBelow(w, i, p.builds[i].segs[k].idx)
  {
  }

  lemma {:induction false} SegsTell(w: World, p: Plan, t: Tables, i: nat, k: nat)
    requires Descends(w, p) && i in p.builds && k <= |p.builds[i].segs|
    ensures SegsJson(w, p, t, i, k).Some? ==>
              var nodes := SegsJson(w, p, t, i, k).value;
              |nodes| == |p.builds[i].segs| - k && forall j :: 0 <= j < |nodes| ==> TellsSeg(w, p, t, nodes[j], p.builds[i].segs[k + j])
    decreases Below(w, i), 0, |p.builds[i].segs| - k
  {
    hide Descends, TellsSeg, SegJson;
    if k < |p.builds[i].segs| {
      SegsTell(w, p, t, i, k + 1);
      if SegJson(w, p, t, i, k).Some? {
        SegTells(w, p, t, i, k);
      }
    }
  }

  lemma {:induction false} SegTells(w: World, p: Plan, t: Tables, i: nat, k: nat)
    requires Descends(w, p) && i in p.builds && k < |p.builds[i].segs| && SegJson(w, p, t, i, k).Some?
    ensures TellsSeg(w, p, t, SegJson(w, p, t, i, k).value, p.builds[i].segs[k])
    decreases Below(w, i), 0, 0
  {
    hide Descends, TellsNode;
    var s := p.builds[i].segs[k];
    if s.Child? {
      ChildOfSeg(w, p, i, k);
      NodeTells(w, p, t, s.idx, NodeJson(w, p, t, s.idx).value);
    } else if s.PCluster? {
      InputsTell(w, t, p.pclusters[s.pc].inputs);
    }
  }

  lemma {:induction false} InputsTell(w: World, t: Tables, inputs: seq<PcInput>)
    ensures InputsJson(w, t, inputs).Some? ==>
              var nodes := InputsJson(w, t, inputs).value;
              |nodes| == |inputs| && forall k :: 0 <= k < |inputs| ==> TellsInput(w, t, nodes[k], inputs[k])
  {
    if inputs != [] {
      InputsTell(w, t, inputs[1..]);
    }
  }

  // ------------------------------------------------------------- the document

  /** The document says how plan `p` makes `root`: each archive once, then how each tabled member is made
      without the help of another, then the root. */
  predicate TellsDocument(w: World, p: Plan, t: Tables, doc: Document, root: nat) {
    && TableIs(w, p, ReferencedTabled(p), t, doc.sources)
    && (forall i :: i in p.extracts ==> i in t.srcOf && ArchiveAt(doc.sources, t.srcOf[i], p.extracts[i]))
    && (forall i :: i in ReferencedTabled(p) ==>
          i in t.nodeOf && t.nodeOf[i] < |doc.sources| && TellsNode(w, p, Tables(t.srcOf, map[]), doc.sources[t.nodeOf[i]], i))
    && TellsNode(w, p, t, doc.root, root)
  }

  lemma DocumentTells(w: World, p: Plan, t: Tables, doc: Document, root: nat)
    requires Descends(w, p) && root < |w.members|
    requires TablesHold(w, p, ReferencedTabled(p), t, doc.sources) && TableIs(w, p, ReferencedTabled(p), t, doc.sources)
    requires NodeJson(w, p, t, root) == Some(doc.root)
    ensures TellsDocument(w, p, t, doc, root)
  {
    hide NodeJson, TellsNode, TableIs, ReferencedTabled, Descends;
    NodeTells(w, p, t, root, doc.root);
    forall i | i in ReferencedTabled(p)
      ensures i in t.nodeOf && t.nodeOf[i] < |doc.sources| && TellsNode(w, p, Tables(t.srcOf, map[]), doc.sources[t.nodeOf[i]], i)
    {
      assert i in t.nodeOf.Keys;
      NodeTells(w, p, Tables(t.srcOf, map[]), i, doc.sources[t.nodeOf[i]]);
    }
    forall i | i in p.extracts
      ensures i in t.srcOf && ArchiveAt(doc.sources, t.srcOf[i], p.extracts[i])
    {
      assert i in p.extracts.Keys;
    }
  }

  /** The document is that of `plan` with the captures of a finished verify pass, and its residue is what that
      pass captured. */
  ghost predicate Recorded(w: World, truth: seq<Bytes>, plan: Plan, doc: Document, root: nat) {
    exists v: Progress, t: Tables ::
      Good(truth, plan, {}, v) && TellsDocument(w, v.plan, t, doc, root) && doc.residue == (if v.residue == [] then None else Some(v.residue))
  }

  lemma RefIsRecorded(w: World, truth: seq<Bytes>, plan: Plan, doc: Document, root: nat)
    requires plan.builds == map[] && plan.compress == map[] && plan.extracts == map[]
    requires root < |w.members| == |w.evidence| && w.members[root].sha256.Some?
    requires doc == Document([], RefNode(w.members[root].sha256.value, w.evidence[root].urls), None)
    ensures Recorded(w, truth, plan, doc, root)
  {
    hide Good, TableIs;
    var v, t := Progress(plan, [], {}, {}, []), Tables(map[], map[]);
    NothingEntered(truth, plan, v);
    NothingTabled(w, plan, t);
    assert TellsDocument(w, v.plan, t, doc, root);
  }

  /** The pass before it begins. */
  lemma NothingEntered(truth: seq<Bytes>, plan: Plan, v: Progress)
    requires v == Progress(plan, [], {}, {}, [])
    ensures Good(truth, plan, {}, v)
  {
    PlanLikeItself(plan);
  }

  lemma NothingTabled(w: World, plan: Plan, t: Tables)
    requires plan.builds == map[] && plan.extracts == map[]
    ensures ReferencedTabled(plan) == {} && TableIs(w, plan, {}, t, [])
  {
    hide TabledOf;
    var order := InOrder(plan.extracts.Keys, |w.members|);
    NothingInOrder(|w.members|);
    assert plan.extracts.Keys == {};
    assert Refs(Fetched(plan, order), |order|) == [];
  }

  lemma {:induction false} NothingInOrder(n: nat)
    ensures InOrder({}, n) == []
  {
    if n > 0 {
      NothingInOrder(n - 1);
    }
  }
}
