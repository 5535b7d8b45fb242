/**
 The recipe planner's data (`src/recipe_cmd.rs`): what the walk recorded about a container's
 members, the plan built from it, and what it means for a plan to tell the truth about the
 bytes it describes.

 Foreign code (SHA-256, the compressors, the MicroLZMA encoder, opening an rpm) enters as
 uninterpreted functions collected in `Codecs`.
 */
module RecipePlan {
  import opened Wrappers
  import opened ByteStrings

  type Digest = Bytes

  datatype GzipParams = GzipParams(level: nat, rsyncable: bool)

  datatype ZstdParams = ZstdParams(level: int, singleThread: bool, checksum: bool, contentSize: bool)

  /** Everything the recipe code calls but does not implement; None is a run that fails. The
      compressors hand their output over in chunks. `gzipHeader` gives the length of the raw
      header a wrapper starts with, `zstdFlags` the flags in a frame's header, and
      `microlzma` takes the input, the output capacity, the preset and the dictionary size and
      gives the output and how much input it consumed. */
  datatype Codecs = Codecs(
    sha256: Bytes -> Digest,
    gzip: (GzipParams, Bytes) -> Option<seq<Bytes>>,
    zstd: (ZstdParams, Bytes) -> Option<seq<Bytes>>,
    gzipHeader: Bytes -> Option<nat>,
    zstdFlags: Bytes -> Option<ZstdParams>,
    microlzma: (Bytes, nat, nat, nat) -> Option<(Bytes, nat)>,
    rpm: (Bytes, string) -> Option<Bytes>)

  const INLINE_MAX: nat := 64
  const IDENTITY_MIN_BYTES: nat := 32
  const PCLUSTER_MAX_SIZE: nat := 0x10_0000
  const PCLUSTER_MAX_DSIZE: nat := 0xC0_0000
  const ENCODE_MARGIN: nat := 0x10_0000

  // ------------------------------------------------------------- the walked container

  /** `len` bytes at logical offset `log` of a member live at `off` of a shared source. */
  datatype Run = Run(log: nat, off: nat, len: nat)

  datatype Extents = Extents(src: nat, runs: seq<Run>)

  datatype Kind = Plain | Gzip | Zstd | Erofs

  /** `space` is the spool of the member's bytes, for a member that has one. */
  datatype Member = Member(
    kind: Kind, depth: nat, parent: Option<nat>, size: nat, sha256: Option<Digest>,
    extents: Option<Extents>, space: Option<nat>)

  /** An archive a witness states some bytes sit in. */
  datatype Archive = Archive(sha256: Digest, path: string, url: string)

  /** What the indexes say: URLs that fetch the bytes directly, and an archive that ships them. */
  datatype Evidence = Evidence(urls: seq<string>, archive: Option<Archive>)

  /** The members with their children and evidence, and the bytes of each space extents point into. */
  datatype World = World(
    f: Codecs, members: seq<Member>, kids: seq<seq<nat>>, evidence: seq<Evidence>,
    spaces: map<nat, Bytes>, limit: nat)

  // ------------------------------------------------------------- the plan

  datatype Seg =
    | Child(idx: nat, from: nat, len: nat, at: nat, rootOff: nat)
    | Tabled(idx: nat, from: nat, len: nat, at: nat, rootOff: nat)
    | PCluster(pc: nat, at: nat, len: nat, rootOff: nat)
    | Gap(at: nat, len: nat, residueOff: Option<nat>, inline: Option<Bytes>)
  {
    function End(): nat { at + len }
  }

  datatype PcInput =
    | Part(idx: nat, from: nat, len: nat)
    | Literal(spoolOff: nat, len: nat, residueOff: Option<nat>, inline: Option<Bytes>)

  /** One stored pcluster, rebuilt by re-encoding its inputs. */
  datatype PClusterNode = PClusterNode(
    size: nat, sha256: Digest, pad: nat, preset: nat, dictSize: nat, inputs: seq<PcInput>)

  datatype Build = Build(segs: seq<Seg>, dropped: nat, space: nat, runs: seq<Run>)

  datatype Comp = UseGzip(params: GzipParams, header: Bytes) | UseZstd(zparams: ZstdParams)

  datatype Compress = Compress(child: nat, how: Comp)

  /** `literals` is everything that was ever spooled, and literals name places in it. A spool is a part of
      that: `drops` are the places where one was lost and the next began. */
  datatype Plan = Plan(
    builds: map<nat, Build>, compress: map<nat, Compress>, extracts: map<nat, Archive>,
    pclusters: seq<PClusterNode>, tabled: set<nat>, literals: Bytes, drops: seq<nat>, root: nat)

  /** Whether member `i` is planned as something `verify_node` can be called on. */
  predicate Planned(p: Plan, i: nat) {
    i in p.builds || i in p.compress
  }

  // ------------------------------------------------------------- the literal spool

  /** An input whose bytes are in a spool. */
  predicate Spooled(x: PcInput) {
    x.Literal? && x.inline.None?
  }

  /** Where the spool that took in place `x` began. */
  function SpoolStart(drops: seq<nat>, x: nat): (r: nat)
    ensures r <= x
  {
    if drops == [] then 0
    else if drops[|drops| - 1] <= x then drops[|drops| - 1]
    else SpoolStart(drops[..|drops| - 1], x)
  }

  /** How much of what was spooled is gone. */
  function LostTo(p: Plan): nat {
    if p.drops == [] then 0 else p.drops[|p.drops| - 1]
  }

  /** The spool there is: what was spooled since the last one was lost. */
  function SpoolNow(p: Plan): Bytes {
    if LostTo(p) <= |p.literals| then p.literals[LostTo(p)..] else []
  }

  /** A literal is read at its offset in the spool it was written to, out of the spool there is. */
  function ReadSpool(p: Plan, off: nat, len: nat): Option<Bytes> {
    var at := off - SpoolStart(p.drops, off);
    if at + len <= |SpoolNow(p)| then Some(Cut(SpoolNow(p), at, len)) else None
  }

  /** What was spooled since the last loss reads back as what was written. */
  lemma LiveLiteralsReadBack(p: Plan, off: nat, len: nat)
    requires LostTo(p) <= off && off + len <= |p.literals|
    ensures ReadSpool(p, off, len) == Some(Cut(p.literals, off, len))
  {
    assert Cut(SpoolNow(p), off - LostTo(p), len) == Cut(p.literals, off, len);
  }

  lemma SameSpool(p: Plan, q: Plan)
    requires p.literals == q.literals && p.drops == q.drops
    ensures forall off, len :: ReadSpool(p, off, len) == ReadSpool(q, off, len)
  {
  }

  /** With nothing spooled since the last loss, nothing can be read. */
  lemma LostLiteralsCannotBeRead(p: Plan, off: nat, len: nat)
    requires LostTo(p) == |p.literals| && len > 0
    ensures ReadSpool(p, off, len) == None
  {
  }

  // ------------------------------------------------------------- what was recorded is true

  /** The runs tile `[from, size)` in logical order, none of them empty. */
  predicate RunsTile(runs: seq<Run>, from: nat, size: nat) {
    if runs == [] then from == size
    else runs[0].log == from && runs[0].len > 0 && RunsTile(runs[1..], from + runs[0].len, size)
  }

  /** `n` bytes of `s` at `so` are the `n` bytes of `t` at `to`. */
  predicate Same(s: Bytes, so: nat, t: Bytes, to: nat, n: nat) {
    so + n <= |s| && to + n <= |t| && Cut(s, so, n) == Cut(t, to, n)
  }

  predicate RunHolds(space: Bytes, r: Run, bytes: Bytes) {
    Same(space, r.off, bytes, r.log, r.len)
  }

  /** `bytes`, laid out in `space` along `runs`. */
  predicate RunsHold(space: Bytes, runs: seq<Run>, bytes: Bytes) {
    RunsTile(runs, 0, |bytes|) && forall r :: r in runs ==> RunHolds(space, r, bytes)
  }

  predicate IsMember(w: World, i: nat) {
    i < |w.members| == |w.kids| == |w.evidence|
  }

  /** `c` is one of `i`'s children, one level or more deeper in the tree. */
  predicate IsKid(w: World, i: nat, c: nat) {
    && IsMember(w, i) && IsMember(w, c)
    && w.members[c].parent == Some(i) && w.members[c].depth > w.members[i].depth
  }

  /** The file has not changed since the walk: each member has the size, digest, extents and
      spool that were recorded for it, and the children lists are the parent links inverted. */
  predicate Unchanged(w: World, truth: seq<Bytes>) {
    && |truth| == |w.members| == |w.kids| == |w.evidence|
    && (forall i :: 0 <= i < |truth| ==> MemberTrue(w, truth, i))
    && (forall i, k :: 0 <= i < |truth| && 0 <= k < |w.kids[i]| ==> IsKid(w, i, w.kids[i][k]))
    && (forall i, j, k :: 0 <= i < |truth| && 0 <= j < k < |w.kids[i]| ==> w.kids[i][j] != w.kids[i][k])
  }

  predicate MemberTrue(w: World, truth: seq<Bytes>, i: nat)
    requires i < |truth| == |w.members|
  {
    var m := w.members[i];
    && m.size == |truth[i]|
    && m.depth <= w.limit
    && (m.sha256.Some? ==> m.sha256.value == w.f.sha256(truth[i]))
    && (m.extents.Some? ==> m.space.None? && ExtentsTrue(w, m.extents.value, truth[i]))
    && (m.space.Some? ==> m.space.value in w.spaces && w.spaces[m.space.value] == truth[i])
  }

  predicate ExtentsTrue(w: World, e: Extents, bytes: Bytes) {
    e.src in w.spaces && RunsHold(w.spaces[e.src], e.runs, bytes)
  }

  // ------------------------------------------------------------- what is planned is true

  /** The segments tile `[pos, size)` exactly, in order. */
  predicate Tiles(segs: seq<Seg>, pos: nat, size: nat) {
    if segs == [] then pos == size
    else segs[0].at == pos && Tiles(segs[1..], segs[0].End(), size)
  }

  /** What the compressor run recorded in `how` makes of `input`. */
  function CompRun(f: Codecs, how: Comp, input: Bytes): Option<Bytes> {
    match how
    case UseGzip(params, header) =>
      (match f.gzip(params, input) case Some(body) => Some(header + Flatten(body)) case None => None)
    case UseZstd(params) =>
      (match f.zstd(params, input) case Some(body) => Some(Flatten(body)) case None => None)
  }

  /** The bytes one pcluster input stands for. */
  function InputBytes(input: PcInput, truth: seq<Bytes>, literals: Bytes): Option<Bytes> {
    match input
    case Part(idx, from, len) =>
      if idx < |truth| && from + len <= |truth[idx]| then Some(Cut(truth[idx], from, len)) else None
    case Literal(off, len, _, inline) =>
      if inline.Some? then (if |inline.value| == len then inline else None)
      else if off + len <= |literals| then Some(Cut(literals, off, len)) else None
  }

  /** The bytes a node's inputs concatenate to: what the encoder was fed. */
  function InputsBytes(inputs: seq<PcInput>, truth: seq<Bytes>, literals: Bytes): Option<Bytes> {
    if inputs == [] then Some([])
    else
      match (InputBytes(inputs[0], truth, literals), InputsBytes(inputs[1..], truth, literals))
      case (Some(a), Some(b)) => Some(a + b)
      case (_, _) => None
  }

  /** The stored bytes a pcluster node rebuilds from `fed`. */
  function Reencode(f: Codecs, fed: Bytes, size: nat, pad: nat, preset: nat, dict: nat): Option<Bytes>
    requires pad <= size
  {
    match f.microlzma(fed, size - pad, preset, dict)
    case Some(run) => Some(Resize(Zeros(pad) + run.0, size))
    case None => None
  }

  /** A pcluster node is a proof: its inputs re-encode to exactly `stored`. */
  predicate NodeHolds(f: Codecs, node: PClusterNode, stored: Bytes, truth: seq<Bytes>, literals: Bytes) {
    && node.size == |stored|
    && node.sha256 == f.sha256(stored)
    && node.pad < node.size <= PCLUSTER_MAX_SIZE
    && (forall k :: 0 <= k < |node.inputs| && node.inputs[k].Literal? && node.inputs[k].inline.None? ==>
          node.inputs[k].len > INLINE_MAX)
    && InputsBytes(node.inputs, truth, literals).Some?
    && var fed := InputsBytes(node.inputs, truth, literals).value;
    && |fed| <= PCLUSTER_MAX_DSIZE + ENCODE_MARGIN
    && Reencode(f, fed, node.size, node.pad, node.preset, node.dictSize) == Some(stored)
  }

  /** A segment says the truth about `bytes`, the build's own content, laid out in `space`. */
  predicate SegHolds(w: World, truth: seq<Bytes>, p: Plan, depth: nat, space: Bytes, bytes: Bytes, s: Seg) {
    && s.End() <= |bytes|
    && (s.Gap? || s.len > 0)
    && match s
       case Child(idx, from, len, at, ro) =>
         && idx < |truth| == |w.members| && w.members[idx].depth > depth
         && Same(space, ro, bytes, at, len) && Same(truth[idx], from, bytes, at, len)
       case Tabled(idx, from, len, at, ro) =>
         && idx < |truth|
         && Same(space, ro, bytes, at, len) && Same(truth[idx], from, bytes, at, len)
       case PCluster(pc, at, len, ro) =>
         && pc < |p.pclusters|
         && Same(space, ro, bytes, at, len)
         && NodeHolds(w.f, p.pclusters[pc], Cut(bytes, at, len), truth, p.literals)
       case Gap(_, _, _, _) => true
  }

  predicate BuildHolds(w: World, truth: seq<Bytes>, p: Plan, i: nat, b: Build) {
    && i < |truth| == |w.members|
    && w.members[i].sha256.Some? && |truth[i]| > 0
    && b.space in w.spaces
    && RunsHold(w.spaces[b.space], b.runs, truth[i])
    && Tiles(b.segs, 0, |truth[i]|)
    && forall k :: 0 <= k < |b.segs| ==>
         SegHolds(w, truth, p, w.members[i].depth, w.spaces[b.space], truth[i], b.segs[k])
  }

  predicate CompressHolds(w: World, truth: seq<Bytes>, i: nat, c: Compress) {
    && i < |truth| == |w.members| && c.child < |truth|
    && w.members[i].sha256.Some?
    && w.members[c.child].depth > w.members[i].depth
    && CompRun(w.f, c.how, truth[c.child]) == Some(truth[i])
  }

  /** An extract node repeats what a witness states about a member that has a digest. */
  predicate ExtractHolds(w: World, truth: seq<Bytes>, i: nat, a: Archive) {
    && i < |truth| == |w.members| == |w.evidence|
    && w.members[i].sha256.Some? && w.evidence[i].archive == Some(a)
  }

  /** The whole plan is true: every splice tiles its member with ranges that hold the bytes they
      claim, every compression node reproduces its wrapper, every pcluster node its stored bytes. */
  predicate PlanHolds(w: World, truth: seq<Bytes>, p: Plan) {
    && (forall i :: i in p.builds ==> BuildHolds(w, truth, p, i, p.builds[i]))
    && (forall i :: i in p.compress ==> CompressHolds(w, truth, i, p.compress[i]))
    && (forall i :: i in p.extracts ==> ExtractHolds(w, truth, i, p.extracts[i]))
  }
}
