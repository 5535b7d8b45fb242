/**
 Rebuilding from a document: what a node denotes, which blobs it misses, and the memoising
 interpreter that produces its bytes.

 A `{"source": i}` node points into the document's table, so following it is not structural
 recursion; `hops` bounds how many of these are followed, and running out is the stack
 overflowing.
 */
module RecipeCheck {
  import opened Wrappers
  import opened ByteStrings
  import opened RecipePlan
  import opened RecipeDocument

  datatype Fault = NoBlob(sha: Digest) | WrongDigest | WrongSize | OutOfRange | SourceLoop | Unnamed | NoResidue | RunFailed | BadShape | TooDeep

  /** What a check runs against: blobs found by digest, the document's table and its residue. */
  datatype Env = Env(f: Codecs, blobs: map<Digest, Bytes>, sources: seq<Node>, residue: Option<Bytes>)

  // ------------------------------------------------------------- looking things up

  /** Follow source indirections; a chain longer than the table is a loop. */
  function Resolve(sources: seq<Node>, node: Node, tries: nat): (r: Result<Node, Fault>)
    ensures r.Ok? ==> !r.value.SourceNode?
    decreases tries
  {
    if tries == 0 then Err(SourceLoop)
    else if !node.SourceNode? then Ok(node)
    else if node.source < |sources| then Resolve(sources, sources[node.source], tries - 1)
    else Err(OutOfRange)
  }

  function ResolveIn(sources: seq<Node>, node: Node): (r: Result<Node, Fault>)
    ensures r.Ok? ==> !r.value.SourceNode?
    ensures !node.SourceNode? ==> r == Ok(node)
  {
    Resolve(sources, node, |sources| + 1)
  }

  /** Following `k` links through the table from `node` comes to `end`, which is no link. */
  predicate LinksTo(sources: seq<Node>, node: Node, k: nat, end: Node)
    decreases k
  {
    if k == 0 then node == end && !end.SourceNode?
    else node.SourceNode? && node.source < |sources| && LinksTo(sources, sources[node.source], k - 1, end)
  }

  lemma {:induction false} ResolvedLinks(sources: seq<Node>, node: Node, tries: nat) returns (k: nat)
    requires Resolve(sources, node, tries).Ok?
    ensures k < tries && LinksTo(sources, node, k, Resolve(sources, node, tries).value)
    decreases tries
  {
    k := 0;
    if node.SourceNode? {
      k := ResolvedLinks(sources, sources[node.source], tries - 1);
      k := k + 1;
    }
  }

  lemma {:induction false} LinksResolve(sources: seq<Node>, node: Node, tries: nat, k: nat, end: Node)
    requires LinksTo(sources, node, k, end) && k < tries
    ensures Resolve(sources, node, tries) == Ok(end)
    decreases k
  {
    if k > 0 {
      LinksResolve(sources, sources[node.source], tries - 1, k - 1, end);
    }
  }

  /** The table entries a walk of `k` links passes. */
  function Passed(sources: seq<Node>, node: Node, k: nat, end: Node): (r: seq<nat>)
    requires LinksTo(sources, node, k, end)
    ensures |r| == k && forall j :: 0 <= j < k ==> r[j] < |sources|
    decreases k
  {
    if k == 0 then [] else [node.source] + Passed(sources, sources[node.source], k - 1, end)
  }

  lemma {:induction false} OneEnd(sources: seq<Node>, node: Node, j: nat, k: nat, a: Node, b: Node)
    requires LinksTo(sources, node, j, a) && LinksTo(sources, node, k, b)
    ensures j == k
    decreases j
  {
    if j > 0 && k > 0 {
      OneEnd(sources, sources[node.source], j - 1, k - 1, a, b);
    }
  }

  /** From the entry passed `j`-th there are as many links left as that leaves, so no entry is passed twice. */
  lemma {:induction false} LinksLeft(sources: seq<Node>, node: Node, k: nat, end: Node, j: nat)
    requires LinksTo(sources, node, k, end) && j < k
    ensures LinksTo(sources, sources[Passed(sources, node, k, end)[j]], k - 1 - j, end)
    decreases k
  {
    if j > 0 {
      LinksLeft(sources, sources[node.source], k - 1, end, j - 1);
    }
  }

  lemma {:induction false} PassedOnce(sources: seq<Node>, node: Node, k: nat, end: Node)
    requires LinksTo(sources, node, k, end)
    ensures k <= |sources|
  {
    var passed := Passed(sources, node, k, end);
    forall i, j | 0 <= i < j < k
      ensures passed[i] != passed[j]
    {
      LinksLeft(sources, node, k, end, i);
      LinksLeft(sources, node, k, end, j);
      if passed[i] == passed[j] {
        OneEnd(sources, sources[passed[i]], k - 1 - i, k - 1 - j, end, end);
      }
    }
    FewEntries(passed, Entries(|sources|));
  }

  function Entries(n: nat): (r: set<int>)
    ensures |r| == n && forall x :: x in r <==> 0 <= x < n
  {
    if n == 0 then {} else Entries(n - 1) + {n - 1}
  }

  lemma {:induction false} FewEntries(passed: seq<nat>, entries: set<int>)
    requires forall i :: 0 <= i < |passed| ==> passed[i] in entries
    requires forall i, j :: 0 <= i < j < |passed| ==> passed[i] != passed[j]
    ensures |passed| <= |entries|
  {
    if passed != [] {
      var n := |passed| - 1;
      FewEntries(passed[..n], entries - {passed[n]});
    }
  }

  /** The links from `node`, however many there are, lead to `end`. */
  ghost predicate LeadsOnTo(sources: seq<Node>, node: Node, end: Node) {
    exists k: nat :: LinksTo(sources, node, k, end)
  }

  /** A node resolves exactly to what its links lead to: a walk longer than the table goes round. */
  lemma ResolvesIff(sources: seq<Node>, node: Node, end: Node)
    ensures ResolveIn(sources, node) == Ok(end) <==> LeadsOnTo(sources, node, end)
  {
    if ResolveIn(sources, node) == Ok(end) {
      var k := ResolvedLinks(sources, node, |sources| + 1);
      assert LinksTo(sources, node, k, end);
    } else if LeadsOnTo(sources, node, end) {
      var k: nat :| LinksTo(sources, node, k, end);
      PassedOnce(sources, node, k, end);
      LinksResolve(sources, node, |sources| + 1, k, end);
    }
  }

  /** The digest a node states for its bytes; literals, slices and sources state none. */
  function NodeSha(node: Node): Result<Digest, Fault> {
    match node
    case RefNode(sha, _) => Ok(sha)
    case BuildNode(_, sha, _, _) => Ok(sha)
    case ExtractNode(_, _, sha, _, _) => Ok(sha)
    case _ => Err(Unnamed)
  }

  function Range(b: Bytes, from: nat, len: nat): (r: Result<Bytes, Fault>)
    ensures r.Ok? <==> from + len <= |b|
    ensures r.Ok? ==> |r.value| == len && forall k :: 0 <= k < len ==> r.value[k] == b[from + k]
  {
    if from + len <= |b| then Ok(Cut(b, from, len)) else Err(OutOfRange)
  }

  /** A blob streamed whole is hashed again on the way. */
  function Blob(env: Env, sha: Digest): (r: Result<Bytes, Fault>)
    ensures r.Ok? ==> env.f.sha256(r.value) == sha
    ensures r.Ok? <==> sha in env.blobs && env.f.sha256(env.blobs[sha]) == sha
  {
    if sha !in env.blobs then Err(NoBlob(sha))
    else if env.f.sha256(env.blobs[sha]) != sha then Err(WrongDigest)
    else Ok(env.blobs[sha])
  }

  /** The digest and size checks at the end of every rebuild. */
  function Checked(f: Codecs, sha: Digest, size: nat, bytes: Option<Bytes>): (r: Result<Bytes, Fault>)
    ensures r.Ok? ==> bytes == Some(r.value) && f.sha256(r.value) == sha && |r.value| == size
    ensures bytes.Some? && f.sha256(bytes.value) == sha && |bytes.value| == size ==> r.Ok?
  {
    match bytes
    case None => Err(RunFailed)
    case Some(b) => if f.sha256(b) != sha then Err(WrongDigest) else if |b| != size then Err(WrongSize) else Ok(b)
  }

  /** An attested member, walked out of the archive the node's source names. */
  function Extracted(env: Env, node: Node): (r: Result<Bytes, Fault>)
    requires node.ExtractNode?
    ensures r.Ok? ==> env.f.sha256(r.value) == node.sha
  {
    match ResolveIn(env.sources, SourceNode(node.archive))
    case Err(e) => Err(e)
    case Ok(archive) =>
      match NodeSha(archive)
      case Err(e) => Err(e)
      case Ok(asha) =>
        if asha !in env.blobs then Err(NoBlob(asha))
        else Checked(env.f, node.sha, node.size, env.f.rpm(env.blobs[asha], node.path))
  }

  // ------------------------------------------------------------- what a node denotes

  function Denote(env: Env, hops: nat, node: Node): Result<Bytes, Fault>
    decreases hops, node, 2
  {
    match node
    case SourceNode(_) =>
      (match ResolveIn(env.sources, node)
       case Err(e) => Err(e)
       case Ok(n) => if hops == 0 then Err(TooDeep) else Denote(env, hops - 1, n))
    case InlineLiteral(bytes) => Ok(bytes)
    case ResidueLiteral(off, len) => if env.residue.None? then Err(NoResidue) else Range(env.residue.value, off, len)
    case SliceOf(of, from, len) =>
      (match NodeSha(of)
       case Err(e) => Err(e)
       case Ok(sha) =>
         if sha in env.blobs then Range(env.blobs[sha], from, len)
         else match Denote(env, hops, of) case Ok(b) => Range(b, from, len) case Err(e) => Err(e))
    case SliceSource(source, from, len) =>
      (match ResolveIn(env.sources, SourceNode(source))
       case Err(e) => Err(e)
       case Ok(of) =>
         match NodeSha(of)
         case Err(e) => Err(e)
         case Ok(sha) =>
           if sha in env.blobs then Range(env.blobs[sha], from, len)
           else if hops == 0 then Err(TooDeep)
           else match Denote(env, hops - 1, of) case Ok(b) => Range(b, from, len) case Err(e) => Err(e))
    case RefNode(sha, _) => Blob(env, sha)
    case ExtractNode(_, _, sha, _, _) => if sha in env.blobs then Blob(env, sha) else Extracted(env, node)
    case BuildNode(_, sha, _, _) => if sha in env.blobs then Blob(env, sha) else DenoteBuild(env, hops, node)
  }

  function DenoteBuild(env: Env, hops: nat, node: Node): Result<Bytes, Fault>
    requires node.BuildNode?
    decreases hops, node, 1
  {
    match node.builder
    case SpliceRun =>
      (match DenoteInputs(env, hops, node, 0)
       case Ok(b) => Checked(env.f, node.sha, node.size, Some(b))
       case Err(e) => Err(e))
    case GzipRun(params, header) =>
      if |node.inputs| != 1 then Err(BadShape)
      else
        (match Denote(env, hops, node.inputs[0])
         case Ok(b) => Checked(env.f, node.sha, node.size, CompRun(env.f, UseGzip(params, header), b))
         case Err(e) => Err(e))
    case ZstdRun(params) =>
      if |node.inputs| != 1 then Err(BadShape)
      else
        (match Denote(env, hops, node.inputs[0])
         case Ok(b) => Checked(env.f, node.sha, node.size, CompRun(env.f, UseZstd(params), b))
         case Err(e) => Err(e))
    case MicroLzmaRun(preset, dictSize, pad) =>
      if !(pad < node.size <= PCLUSTER_MAX_SIZE) then Err(BadShape)
      else
        (match DenoteInputs(env, hops, node, 0)
         case Ok(b) =>
           if |b| > PCLUSTER_MAX_DSIZE + ENCODE_MARGIN then Err(BadShape)
           else Checked(env.f, node.sha, node.size, Reencode(env.f, b, node.size, pad, preset, dictSize))
         case Err(e) => Err(e))
  }

  /** The bytes of a node's inputs from the `k`-th on, in order. */
  function DenoteInputs(env: Env, hops: nat, node: Node, k: nat): Result<Bytes, Fault>
    requires node.BuildNode? && k <= |node.inputs|
    decreases hops, node, 0, |node.inputs| - k
  {
    if k == |node.inputs| then Ok([])
    else
      match Denote(env, hops, node.inputs[k])
      case Err(e) => Err(e)
      case Ok(a) => match DenoteInputs(env, hops, node, k + 1) case Ok(b) => Ok(a + b) case Err(e) => Err(e)
  }

  /** A named node never denotes bytes its digest does not name. */
  lemma DenotesItsDigest(env: Env, hops: nat, node: Node)
    requires NodeSha(node).Ok? && Denote(env, hops, node).Ok?
    ensures env.f.sha256(Denote(env, hops, node).value) == NodeSha(node).value
  {
  }

  // ------------------------------------------------------------- what is missing

  /** The blobs a check reports before any rebuild work (`collect_missing`). */
  function Missing(env: Env, hops: nat, node: Node): Result<set<Digest>, Fault>
    decreases hops, node, 1
  {
    match node
    case SourceNode(_) =>
      (match ResolveIn(env.sources, node)
       case Err(e) => Err(e)
       case Ok(n) => if hops == 0 then Err(TooDeep) else Missing(env, hops - 1, n))
    case RefNode(sha, _) => Ok(if sha in env.blobs then {} else {sha})
    case ExtractNode(archive, _, sha, _, _) =>
      if sha in env.blobs then Ok({})
      else
        (match ResolveIn(env.sources, SourceNode(archive))
         case Err(e) => Err(e)
         case Ok(n) => if hops == 0 then Err(TooDeep) else Missing(env, hops - 1, n))
    case BuildNode(_, sha, _, _) => if sha in env.blobs then Ok({}) else MissingInputs(env, hops, node, 0)
    case _ => Ok({})
  }

  function MissingInputs(env: Env, hops: nat, node: Node, k: nat): Result<set<Digest>, Fault>
    requires node.BuildNode? && k <= |node.inputs|
    decreases hops, node, 0, |node.inputs| - k
  {
    if k == |node.inputs| then Ok({})
    else
      match MissingInput(env, hops, node.inputs[k])
      case Err(e) => Err(e)
      case Ok(a) => match MissingInputs(env, hops, node, k + 1) case Ok(b) => Ok(a + b) case Err(e) => Err(e)
  }

  /** An input of a build: what a slice addresses, or the input itself. */
  function MissingInput(env: Env, hops: nat, input: Node): Result<set<Digest>, Fault>
    decreases hops, input, 2
  {
    match input
    case SliceOf(of, _, _) => Missing(env, hops, of)
    case SliceSource(source, _, _) =>
      (match ResolveIn(env.sources, SourceNode(source))
       case Err(e) => Err(e)
       case Ok(n) => if hops == 0 then Err(TooDeep) else Missing(env, hops - 1, n))
    case _ => Missing(env, hops, input)
  }

  // ------------------------------------------------------------- the interpreter

  /** The digests a document part names, at any depth. */
  function Digests(node: Node): set<Digest> {
    match node
    case RefNode(sha, _) => {sha}
    case BuildNode(_, sha, _, inputs) => {sha} + set k, d | 0 <= k < |inputs| && d in Digests(inputs[k]) :: d
    case ExtractNode(_, _, sha, _, _) => {sha}
    case SliceOf(of, _, _) => Digests(of)
    case _ => {}
  }

  /** Each of `named` is the digest of one byte string at most: no collision in play. */
  ghost predicate OnePreimage(f: Codecs, named: set<Digest>) {
    forall a: Bytes, b: Bytes :: f.sha256(a) in named && f.sha256(a) == f.sha256(b) ==> a == b
  }

  /** The rebuilder: builds materialised for slicing are kept, by output digest. */
  class CheckCtx {
    const env: Env
    ghost const named: set<Digest>
    var built: map<Digest, Bytes>

    constructor (env: Env, ghost named: set<Digest>)
      requires OnePreimage(env.f, named)
      requires forall k :: 0 <= k < |env.sources| ==> Digests(env.sources[k]) <= named
      ensures this.env == env && this.named == named && Valid()
    {
      this.env, this.named, built := env, named, map[];
    }

    /** Whatever is kept really hashes to the digest it is kept under. */
    ghost predicate Valid()
      reads this
    {
      && OnePreimage(env.f, named)
      && (forall k :: 0 <= k < |env.sources| ==> Digests(env.sources[k]) <= named)
      && (forall d :: d in built ==> env.f.sha256(built[d]) == d)
    }

    /** `r` is right about a node that denotes `d`: the same bytes when there are any, and never
        bytes the node's digest does not name. */
    ghost predicate Right(node: Node, d: Result<Bytes, Fault>, r: Result<Bytes, Fault>) {
      && (d.Ok? ==> r == d)
      && (r.Ok? && NodeSha(node).Ok? ==> env.f.sha256(r.value) == NodeSha(node).value)
    }

    /** Produce a node's bytes. */
    method Assemble(hops: nat, node: Node) returns (r: Result<Bytes, Fault>)
      requires Valid() && Digests(node) <= named
      modifies this
      ensures Valid() && Right(node, Denote(env, hops, node), r)
      decreases hops, node, 3
    {
      match node {
        case SourceNode(_) =>
          var n := ResolveIn(env.sources, node);
          if n.Err? {
            return Err(n.error);
          }
          if hops == 0 {
            return Err(TooDeep);
          }
          ResolvedIsNamed(env.sources, named, node, |env.sources| + 1);
          r := Assemble(hops - 1, n.value);
        case InlineLiteral(bytes) =>
          r := Ok(bytes);
        case ResidueLiteral(off, len) =>
          r := if env.residue.None? then Err(NoResidue) else Range(env.residue.value, off, len);
        case SliceOf(of, from, len) =>
          r := AssembleSlice(hops, of, from, len);
        case SliceSource(source, from, len) =>
          var of := ResolveIn(env.sources, SourceNode(source));
          if of.Err? {
            return Err(of.error);
          }
          ResolvedIsNamed(env.sources, named, SourceNode(source), |env.sources| + 1);
          if hops == 0 {
            r := if NodeSha(of.value).Ok? && NodeSha(of.value).value in env.blobs
              then Range(env.blobs[NodeSha(of.value).value], from, len) else Err(TooDeep);
          } else {
            r := AssembleSlice(hops - 1, of.value, from, len);
          }
        case RefNode(sha, _) =>
          r := Blob(env, sha);
        case ExtractNode(_, _, sha, _, _) =>
          r := if sha in env.blobs then Blob(env, sha) else Extracted(env, node);
        case BuildNode(_, sha, _, _) =>
          if sha in env.blobs {
            r := Blob(env, sha);
          } else {
            r := AssembleBuild(hops, node);
          }
      }
    }

    /** A range of a named node: from a blob, or from its bytes materialised once. */
    method AssembleSlice(hops: nat, of: Node, from: nat, len: nat) returns (r: Result<Bytes, Fault>)
      requires Valid() && Digests(of) <= named
      modifies this
      ensures Valid()
      ensures NodeSha(of).Ok? && NodeSha(of).value in env.blobs ==> r == Range(env.blobs[NodeSha(of).value], from, len)
      ensures NodeSha(of).Ok? && NodeSha(of).value !in env.blobs && Denote(env, hops, of).Ok? ==>
                r == Range(Denote(env, hops, of).value, from, len)
      decreases hops, of, 4
    {
      var sha := NodeSha(of);
      if sha.Err? {
        return Err(sha.error);
      }
      if sha.value in env.blobs {
        return Range(env.blobs[sha.value], from, len);
      }
      if sha.value !in built {
        var spool := Assemble(hops, of);
        if spool.Err? {
          return spool;
        }
        built := built[sha.value := spool.value];
      }
      KeptIsDenoted(hops, of, sha.value);
      r := Range(built[sha.value], from, len);
    }

    /** What is kept under a node's digest is what the node denotes. */
    lemma KeptIsDenoted(hops: nat, of: Node, sha: Digest)
      requires Valid() && Digests(of) <= named && NodeSha(of) == Ok(sha) && sha in built
      ensures Denote(env, hops, of).Ok? ==> Denote(env, hops, of).value == built[sha]
    {
      if Denote(env, hops, of).Ok? {
        DenotesItsDigest(env, hops, of);
        assert sha in Digests(of);
      }
    }

    method AssembleBuild(hops: nat, node: Node) returns (r: Result<Bytes, Fault>)
      requires Valid() && node.BuildNode? && Digests(node) <= named
      modifies this
      ensures Valid() && Right(node, DenoteBuild(env, hops, node), r)
      decreases hops, node, 2
    {
      match node.builder {
        case SpliceRun =>
          var b := AssembleInputs(hops, node);
          r := if b.Err? then b else Checked(env.f, node.sha, node.size, Some(b.value));
        case GzipRun(params, header) =>
          r := AssembleRun(hops, node, UseGzip(params, header));
        case ZstdRun(params) =>
          r := AssembleRun(hops, node, UseZstd(params));
        case MicroLzmaRun(preset, dictSize, pad) =>
          if !(pad < node.size <= PCLUSTER_MAX_SIZE) {
            return Err(BadShape);
          }
          var b := AssembleInputs(hops, node);
          if b.Err? {
            return b;
          }
          r := if |b.value| > PCLUSTER_MAX_DSIZE + ENCODE_MARGIN then Err(BadShape)
            else Checked(env.f, node.sha, node.size, Reencode(env.f, b.value, node.size, pad, preset, dictSize));
      }
    }

    /** Re-run a compressor over its one input. */
    method AssembleRun(hops: nat, node: Node, how: Comp) returns (r: Result<Bytes, Fault>)
      requires Valid() && node.BuildNode? && Digests(node) <= named && node.builder == CompBuilder(how)
      modifies this
      ensures Valid() && Right(node, DenoteBuild(env, hops, node), r)
      decreases hops, node, 1
    {
      if |node.inputs| != 1 {
        return Err(BadShape);
      }
      InputIsNamed(node, 0, named);
      var b := Assemble(hops, node.inputs[0]);
      r := if b.Err? then b else Checked(env.f, node.sha, node.size, CompRun(env.f, how, b.value));
    }

    lemma Gathered(hops: nat, node: Node, k: nat, out: Bytes, b: Bytes)
      requires node.BuildNode? && k < |node.inputs|
      requires Denote(env, hops, node.inputs[k]).Ok? ==> Denote(env, hops, node.inputs[k]).value == b
      ensures DenoteInputs(env, hops, node, k).Ok? ==>
                DenoteInputs(env, hops, node, k + 1).Ok?
                && out + DenoteInputs(env, hops, node, k).value == (out + b) + DenoteInputs(env, hops, node, k + 1).value
    {
    }

    method AssembleInputs(hops: nat, node: Node) returns (r: Result<Bytes, Fault>)
      requires Valid() && node.BuildNode? && Digests(node) <= named
      modifies this
      ensures Valid()
      ensures DenoteInputs(env, hops, node, 0).Ok? ==> r == DenoteInputs(env, hops, node, 0)
      decreases hops, node, 0
    {
      var out: Bytes := [];
      for k := 0 to |node.inputs|
        invariant Valid()
        invariant DenoteInputs(env, hops, node, 0).Ok? ==>
                    DenoteInputs(env, hops, node, k).Ok?
                    && out + DenoteInputs(env, hops, node, k).value == DenoteInputs(env, hops, node, 0).value
      {
        InputIsNamed(node, k, named);
        var b := Assemble(hops, node.inputs[k]);
        if b.Err? {
          return b;
        }
        Gathered(hops, node, k, out, b.value);
        out := out + b.value;
      }
      assert out + [] == out;
      r := Ok(out);
    }
  }

  lemma InputIsNamed(node: Node, k: nat, named: set<Digest>)
    requires node.BuildNode? && k < |node.inputs| && Digests(node) <= named
    ensures Digests(node.inputs[k]) <= named
  {
    forall d | d in Digests(node.inputs[k])
      ensures d in named
    {
      assert d in Digests(node);
    }
  }

  lemma {:induction false} ResolvedIsNamed(sources: seq<Node>, named: set<Digest>, node: Node, tries: nat)
    requires Digests(node) <= named && forall k :: 0 <= k < |sources| ==> Digests(sources[k]) <= named
    requires Resolve(sources, node, tries).Ok?
    ensures Digests(Resolve(sources, node, tries).value) <= named
    decreases tries
  {
    if node.SourceNode? {
      ResolvedIsNamed(sources, named, sources[node.source], tries - 1);
    }
  }
}
