/**
 Why a document rebuilds what it was written from: every node a true plan is written as denotes
 exactly its member's bytes when nothing it needs is missing, and denotes nothing otherwise.
 */
module RecipeFaithful {
  import opened Wrappers
  import opened ByteStrings
  import opened RecipePlan
  import opened RecipeTree
  import opened RecipeTiling
  import opened RecipeCapture
  import opened RecipeDocument
  import opened RecipeCheck

  /** The node stands for `bytes`: checkable, rebuilt exactly when nothing is missing, and never to
      anything else. */
  predicate Faithful(env: Env, hops: nat, node: Node, bytes: Bytes) {
    && Missing(env, hops, node).Ok?
    && (Missing(env, hops, node).value == {} <==> Denote(env, hops, node).Ok?)
    && (Denote(env, hops, node).Ok? ==> Denote(env, hops, node).value == bytes)
  }

  predicate FaithfulInput(env: Env, hops: nat, node: Node, bytes: Bytes) {
    && MissingInput(env, hops, node).Ok?
    && (MissingInput(env, hops, node).value == {} <==> Denote(env, hops, node).Ok?)
    && (Denote(env, hops, node).Ok? ==> Denote(env, hops, node).value == bytes)
  }

  /** The inputs of `node` from the `k`-th on stand for `bytes`. */
  predicate FaithfulInputs(env: Env, hops: nat, node: Node, k: nat, bytes: Bytes)
    requires node.BuildNode? && k <= |node.inputs|
  {
    && MissingInputs(env, hops, node, k).Ok?
    && (MissingInputs(env, hops, node, k).value == {} <==> DenoteInputs(env, hops, node, k).Ok?)
    && (DenoteInputs(env, hops, node, k).Ok? ==> DenoteInputs(env, hops, node, k).value == bytes)
  }

  /** The blobs at hand are what their digests say, and no digest the document names collides. */
  ghost predicate Honest(env: Env, named: set<Digest>) {
    && OnePreimage(env.f, named)
    && (forall d :: d in env.blobs ==> env.f.sha256(env.blobs[d]) == d)
    && (forall k :: 0 <= k < |env.sources| ==> Digests(env.sources[k]) <= named)
  }

  // ------------------------------------------------------------- one node

  /** A named node whose bytes are at hand as a blob. */
  lemma FoundAsBlob(env: Env, hops: nat, named: set<Digest>, node: Node, bytes: Bytes)
    requires Honest(env, named) && Digests(node) <= named
    requires NodeSha(node) == Ok(env.f.sha256(bytes)) && env.f.sha256(bytes) in env.blobs
    ensures env.blobs[env.f.sha256(bytes)] == bytes
    ensures Missing(env, hops, node) == Ok({}) && Denote(env, hops, node) == Ok(bytes)
  {
    var sha := env.f.sha256(bytes);
    assert sha in Digests(node);
    assert env.f.sha256(env.blobs[sha]) == sha;
  }

  lemma RefIsFaithful(env: Env, hops: nat, named: set<Digest>, node: Node, bytes: Bytes)
    requires Honest(env, named) && Digests(node) <= named
    requires node.RefNode? && node.sha == env.f.sha256(bytes)
    ensures Faithful(env, hops, node, bytes)
  {
    if node.sha in env.blobs {
      FoundAsBlob(env, hops, named, node, bytes);
    }
  }

  /** An attestation is true: whatever archive has that digest ships the bytes at that path. */
  ghost predicate Attests(f: Codecs, archive: Digest, path: string, bytes: Bytes) {
    forall a: Bytes :: f.sha256(a) == archive ==> f.rpm(a, path) == Some(bytes)
  }

  lemma ExtractIsFaithful(env: Env, hops: nat, named: set<Digest>, node: Node, bytes: Bytes)
    requires Honest(env, named) && Digests(node) <= named && hops > 0
    requires node.ExtractNode? && node.sha == env.f.sha256(bytes) && node.size == |bytes|
    requires node.archive < |env.sources| && env.sources[node.archive].RefNode?
    requires Attests(env.f, env.sources[node.archive].sha, node.path, bytes)
    ensures Faithful(env, hops, node, bytes)
  {
    if node.sha in env.blobs {
      FoundAsBlob(env, hops, named, node, bytes);
    } else {
      var archive := env.sources[node.archive];
      ResolvesTo(env.sources, node.archive);
      assert archive.sha in env.blobs ==> env.f.sha256(env.blobs[archive.sha]) == archive.sha;
    }
  }

  lemma ResolvesTo(sources: seq<Node>, k: nat)
    requires k < |sources| && !sources[k].SourceNode?
    ensures ResolveIn(sources, SourceNode(k)) == Ok(sources[k])
  {
    assert Resolve(sources, sources[k], |sources|) == Ok(sources[k]);
  }

  // ------------------------------------------------------------- inputs

  /** A literal, a named node or a source is its own input. */
  lemma PlainInput(env: Env, hops: nat, node: Node, bytes: Bytes)
    requires !node.SliceOf? && !node.SliceSource? && Faithful(env, hops, node, bytes)
    ensures FaithfulInput(env, hops, node, bytes)
  {
  }

  lemma SliceIsFaithful(env: Env, hops: nat, named: set<Digest>, of: Node, bytes: Bytes, from: nat, len: nat)
    requires Honest(env, named) && Digests(of) <= named
    requires Faithful(env, hops, of, bytes) && NodeSha(of) == Ok(env.f.sha256(bytes)) && from + len <= |bytes|
    ensures FaithfulInput(env, hops, SliceOf(of, from, len), Cut(bytes, from, len))
  {
    if env.f.sha256(bytes) in env.blobs {
      FoundAsBlob(env, hops, named, of, bytes);
    }
  }

  lemma SourceIsFaithful(env: Env, hops: nat, k: nat, bytes: Bytes)
    requires hops > 0 && k < |env.sources| && Faithful(env, hops - 1, env.sources[k], bytes) && !env.sources[k].SourceNode?
    ensures FaithfulInput(env, hops, SourceNode(k), bytes)
  {
    ResolvesTo(env.sources, k);
  }

  lemma SourceSliceIsFaithful(env: Env, hops: nat, named: set<Digest>, k: nat, bytes: Bytes, from: nat, len: nat)
    requires Honest(env, named) && hops > 0 && k < |env.sources| && from + len <= |bytes|
    requires Faithful(env, hops - 1, env.sources[k], bytes) && NodeSha(env.sources[k]) == Ok(env.f.sha256(bytes))
    ensures FaithfulInput(env, hops, SliceSource(k, from, len), Cut(bytes, from, len))
  {
    ResolvesTo(env.sources, k);
    if env.f.sha256(bytes) in env.blobs {
      FoundAsBlob(env, hops - 1, named, env.sources[k], bytes);
    }
  }

  lemma InputsCons(env: Env, hops: nat, node: Node, k: nat, a: Bytes, b: Bytes)
    requires node.BuildNode? && k < |node.inputs|
    requires FaithfulInput(env, hops, node.inputs[k], a) && FaithfulInputs(env, hops, node, k + 1, b)
    ensures FaithfulInputs(env, hops, node, k, a + b)
  {
  }

  // ------------------------------------------------------------- builds

  /** A build whose inputs stand for what its builder turns into `bytes`. */
  lemma BuildIsFaithful(env: Env, hops: nat, named: set<Digest>, node: Node, fed: Bytes, bytes: Bytes)
    requires Honest(env, named) && Digests(node) <= named && node.BuildNode?
    requires node.sha == env.f.sha256(bytes) && node.size == |bytes|
    requires FaithfulInputs(env, hops, node, 0, fed) && Makes(env.f, node, fed, bytes)
    ensures Faithful(env, hops, node, bytes)
  {
    if node.sha in env.blobs {
      FoundAsBlob(env, hops, named, node, bytes);
    } else {
      SingleInput(env, hops, node);
    }
  }

  /** What a node's builder makes of its inputs' bytes. */
  predicate Makes(f: Codecs, node: Node, fed: Bytes, bytes: Bytes)
    requires node.BuildNode?
  {
    match node.builder
    case SpliceRun => fed == bytes
    case GzipRun(params, header) => |node.inputs| == 1 && CompRun(f, UseGzip(params, header), fed) == Some(bytes)
    case ZstdRun(params) => |node.inputs| == 1 && CompRun(f, UseZstd(params), fed) == Some(bytes)
    case MicroLzmaRun(preset, dictSize, pad) =>
      && pad < node.size <= PCLUSTER_MAX_SIZE && |fed| <= PCLUSTER_MAX_DSIZE + ENCODE_MARGIN
      && Reencode(f, fed, node.size, pad, preset, dictSize) == Some(bytes)
  }

  lemma SingleInput(env: Env, hops: nat, node: Node)
    requires node.BuildNode?
    ensures |node.inputs| == 1 ==>
              (Denote(env, hops, node.inputs[0]).Ok? <==> DenoteInputs(env, hops, node, 0).Ok?)
              && (Denote(env, hops, node.inputs[0]).Ok? ==>
                    DenoteInputs(env, hops, node, 0).value == Denote(env, hops, node.inputs[0]).value)
  {
    if |node.inputs| == 1 {
      assert DenoteInputs(env, hops, node, 1) == Ok([]);
    }
  }

  // ------------------------------------------------------------- a written plan

  /** What a document is written from and read against: a true plan with its captures in the residue, its
      table, and attestations that are true. */
  ghost predicate Written(w: World, truth: seq<Bytes>, p: Plan, t: Tables, env: Env, named: set<Digest>, ok: set<nat>) {
    && env.f == w.f && Honest(env, named)
    && Unchanged(w, truth) && PlanHolds(w, truth, p) && Descends(w, p)
    && Settled(w, p, ok) && (forall i :: i in ok ==> i < |truth| && Captured(truth, p, env.residue, i))
    && TablesHold(w, p, t.nodeOf.Keys, t, env.sources) && t.nodeOf.Keys <= ok
    && (forall i :: i in p.extracts && i < |truth| ==> Attests(w.f, p.extracts[i].sha256, p.extracts[i].path, truth[i]))
  }

  /** The gaps of build `i` read back from the residue, and so does whatever its nodes' literals read as. */
  predicate Captured(truth: seq<Bytes>, p: Plan, residue: Option<Bytes>, i: nat) {
    i in p.builds && i !in p.compress && i < |truth| ==>
      forall k :: 0 <= k < |p.builds[i].segs| ==> SegCaptured(truth, p, residue, i, p.builds[i].segs[k])
  }

  predicate SegCaptured(truth: seq<Bytes>, p: Plan, residue: Option<Bytes>, i: nat, s: Seg)
    requires i < |truth|
  {
    && (s.Gap? ==> s.End() <= |truth[i]| && ReadsBack(residue, s.residueOff, s.inline, Cut(truth[i], s.at, s.len)))
    && (s.PCluster? && s.pc < |p.pclusters| ==>
          forall k :: 0 <= k < |p.pclusters[s.pc].inputs| ==> LiteralReadsBack(p, residue, p.pclusters[s.pc].inputs[k]))
  }

  /** The residue has what the literal's place in the spool reads as. */
  predicate LiteralReadsBack(p: Plan, residue: Option<Bytes>, x: PcInput) {
    x.Literal? && x.inline.None? ==>
      var read := ReadSpool(p, x.spoolOff, x.len);
      read.Some? && ReadsBack(residue, x.residueOff, None, read.value)
  }

  /** A literal's bytes, inline or at an offset of the residue. */
  predicate ReadsBack(residue: Option<Bytes>, off: Option<nat>, inline: Option<Bytes>, bytes: Bytes) {
    if inline.Some? then inline.value == bytes
    else off.Some? && residue.Some? && Same(residue.value, off.value, bytes, 0, |bytes|)
  }

  lemma LiteralIsFaithful(env: Env, hops: nat, off: Option<nat>, inline: Option<Bytes>, bytes: Bytes)
    requires ReadsBack(env.residue, off, inline, bytes)
    ensures LiteralJson(off, |bytes|, inline).Some?
    ensures FaithfulInput(env, hops, LiteralJson(off, |bytes|, inline).value, bytes)
  {
    assert Cut(bytes, 0, |bytes|) == bytes;
  }

  /** A member with a node in the table, sliced or whole. */
  lemma TabledIsFaithful(w: World, env: Env, hops: nat, named: set<Digest>, t: Tables, idx: nat, from: nat, len: nat, bytes: Bytes)
    requires Honest(env, named) && hops > 0 && idx in t.nodeOf && t.nodeOf[idx] < |env.sources|
    requires idx < |w.members| && w.members[idx].size == |bytes| && from + len <= |bytes|
    requires Faithful(env, hops - 1, env.sources[t.nodeOf[idx]], bytes)
    requires NodeSha(env.sources[t.nodeOf[idx]]) == Ok(env.f.sha256(bytes))
    ensures TabledJson(w, t, idx, from, len).Some?
    ensures FaithfulInput(env, hops, TabledJson(w, t, idx, from, len).value, Cut(bytes, from, len))
  {
    if from == 0 && len == |bytes| {
      assert Cut(bytes, 0, |bytes|) == bytes;
      SourceIsFaithful(env, hops, t.nodeOf[idx], bytes);
    } else {
      SourceSliceIsFaithful(env, hops, named, t.nodeOf[idx], bytes, from, len);
    }
  }
}
