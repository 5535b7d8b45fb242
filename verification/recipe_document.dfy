/**
 The recipe document: the node grammar, and how a verified plan is written down in it. Where the
 program indexes a table or unwraps an offset, a missing entry is a panic; here it is None.
 */
module RecipeDocument {
  import opened Wrappers
  import opened ByteStrings
  import opened RecipePlan
  import opened RecipeTree
  import opened RecipeCapture

  datatype Builder =
    | SpliceRun
    | GzipRun(params: GzipParams, header: Bytes)
    | ZstdRun(zparams: ZstdParams)
    | MicroLzmaRun(preset: nat, dictSize: nat, pad: nat)

  datatype Node =
    | RefNode(sha: Digest, claims: seq<string>)
    | BuildNode(builder: Builder, sha: Digest, size: nat, inputs: seq<Node>)
    | ExtractNode(archive: nat, path: string, sha: Digest, size: nat, url: string)
    | InlineLiteral(bytes: Bytes)
    | ResidueLiteral(off: nat, len: nat)
    | SliceOf(of: Node, from: nat, len: nat)
    | SliceSource(source: nat, from: nat, len: nat)
    | SourceNode(source: nat)

  datatype Document = Document(sources: seq<Node>, root: Node, residue: Option<Bytes>)

  /** Where a member's archive, and where a member's own node, sits in the sources table. */
  datatype Tables = Tables(srcOf: map<nat, nat>, nodeOf: map<nat, nat>)

  // ------------------------------------------------------------- leaves

  function LiteralJson(off: Option<nat>, len: nat, inline: Option<Bytes>): Option<Node> {
    if inline.Some? then Some(InlineLiteral(inline.value))
    else if off.Some? then Some(ResidueLiteral(off.value, len))
    else None
  }

  /** A range of a member that has a node in the sources table. */
  function TabledJson(w: World, t: Tables, idx: nat, from: nat, len: nat): Option<Node> {
    if idx !in t.nodeOf || idx >= |w.members| then None
    else if from == 0 && len == w.members[idx].size then Some(SourceNode(t.nodeOf[idx]))
    else Some(SliceSource(t.nodeOf[idx], from, len))
  }

  function InputJson(w: World, t: Tables, x: PcInput): Option<Node> {
    match x
    case Part(idx, from, len) => TabledJson(w, t, idx, from, len)
    case Literal(_, len, off, inline) => LiteralJson(off, len, inline)
  }

  function InputsJson(w: World, t: Tables, inputs: seq<PcInput>): Option<seq<Node>> {
    if inputs == [] then Some([])
    else
      match (InputJson(w, t, inputs[0]), InputsJson(w, t, inputs[1..]))
      case (Some(a), Some(b)) => Some([a] + b)
      case (_, _) => None
  }

  function PClusterJson(w: World, t: Tables, node: PClusterNode): Option<Node> {
    match InputsJson(w, t, node.inputs)
    case Some(inputs) =>
      Some(BuildNode(MicroLzmaRun(node.preset, node.dictSize, node.pad), node.sha256, node.size, inputs))
    case None => None
  }

  function RefJson(w: World, i: nat): Option<Node>
    requires i < |w.members| == |w.evidence|
  {
    match w.members[i].sha256
    case Some(sha) => Some(RefNode(sha, w.evidence[i].urls))
    case None => None
  }

  // ------------------------------------------------------------- nodes

  /** Entries refer downwards, so writing them out terminates. */
  predicate Descends(w: World, p: Plan) {
    && |w.members| == |w.evidence|
    && (forall i, k :: i in p.builds && 0 <= k < |p.builds[i].segs| && p.builds[i].segs[k].Child? ==>
          LiesBelow(w, i, p.builds[i].segs[k].idx))
    && (forall i :: i in p.compress ==> LiesBelow(w, i, p.compress[i].child))
  }

  predicate LiesBelow(w: World, i: nat, c: nat) {
    i < |w.members| && c < |w.members| && w.members[i].depth < w.members[c].depth <= w.limit
  }

  function Below(w: World, i: nat): nat {
    if i < |w.members| && w.members[i].depth <= w.limit then w.limit - w.members[i].depth else 0
  }

  function CompBuilder(how: Comp): Builder {
    match how
    case UseGzip(params, header) => GzipRun(params, header)
    case UseZstd(params) => ZstdRun(params)
  }

  function NodeJson(w: World, p: Plan, t: Tables, i: nat): Option<Node>
    requires Descends(w, p) && i < |w.members|
    decreases Below(w, i), 2
  {
    var m := w.members[i];
    if i in p.extracts then
      if i in t.srcOf && m.sha256.Some? then
        Some(ExtractNode(t.srcOf[i], p.extracts[i].path, m.sha256.value, m.size, p.extracts[i].url))
      else None
    else if i in p.compress then
      var input := NodeJson(w, p, t, p.compress[i].child);
      if m.sha256.Some? && input.Some? then
        Some(BuildNode(CompBuilder(p.compress[i].how), m.sha256.value, m.size, [input.value]))
      else None
    else if i in p.builds then
      var inputs := SegsJson(w, p, t, i, 0);
      if m.sha256.Some? && inputs.Some? then Some(BuildNode(SpliceRun, m.sha256.value, m.size, inputs.value)) else None
    else RefJson(w, i)
  }

  /** The nodes of build `i`'s segments from the `k`-th on. */
  function SegsJson(w: World, p: Plan, t: Tables, i: nat, k: nat): Option<seq<Node>>
    requires Descends(w, p) && i in p.builds && k <= |p.builds[i].segs|
    decreases Below(w, i), 1, |p.builds[i].segs| - k
  {
    if k == |p.builds[i].segs| then Some([])
    else
      match (SegJson(w, p, t, i, k), SegsJson(w, p, t, i, k + 1))
      case (Some(a), Some(b)) => Some([a] + b)
      case (_, _) => None
  }

  function SegJson(w: World, p: Plan, t: Tables, i: nat, k: nat): Option<Node>
    requires Descends(w, p) && i in p.builds && k < |p.builds[i].segs|
    decreases Below(w, i), 0
  {
    match p.builds[i].segs[k]
    case Child(idx, from, len, _, _) =>
      (match NodeJson(w, p, t, idx)
       case Some(node) => Some(if from == 0 && len == w.members[idx].size then node else SliceOf(node, from, len))
       case None => None)
    case Tabled(idx, from, len, _, _) => TabledJson(w, t, idx, from, len)
    case PCluster(pc, _, _, _) => if pc < |p.pclusters| then PClusterJson(w, t, p.pclusters[pc]) else None
    case Gap(_, len, off, inline) => LiteralJson(off, len, inline)
  }

  // ------------------------------------------------------------- the sources table

  /** The elements of `s` below `bound`, in ascending order. */
  function InOrder(s: set<nat>, bound: nat): (r: seq<nat>)
    ensures forall x :: x in r <==> x in s && x < bound
    ensures forall k :: 0 <= k < |r| ==> r[k] < bound
    ensures forall j, k :: 0 <= j < k < |r| ==> r[j] < r[k]
  {
    if bound == 0 then [] else if bound - 1 in s then InOrder(s, bound - 1) + [bound - 1] else InOrder(s, bound - 1)
  }

  /** The fetched sources a written build still names, directly or by a node (`referenced_tabled`). */
  function ReferencedTabled(p: Plan): (r: set<nat>)
    ensures forall x :: x in r <==> exists i :: i in p.builds && x in TabledOf(p.pclusters, p.builds[i].segs)
  {
    set i, x | i in p.builds && x in TabledOf(p.pclusters, p.builds[i].segs) :: x
  }

  /** The table a document needs: an archive's node for every extract, a node of its own for
      every tabled member. */
  predicate TablesHold(w: World, p: Plan, tabled: set<nat>, t: Tables, sources: seq<Node>)
    requires Descends(w, p)
  {
    && t.srcOf.Keys == p.extracts.Keys && t.nodeOf.Keys == tabled
    && (forall i :: i in p.extracts ==> ArchiveAt(sources, t.srcOf[i], p.extracts[i]))
    && (forall i :: i in tabled ==>
          i < |w.members| && t.nodeOf[i] < |sources| && NodeJson(w, p, Tables(t.srcOf, map[]), i) == Some(sources[t.nodeOf[i]]))
  }

  /** Entry `s` of the table names archive `a` by digest. */
  predicate ArchiveAt(sources: seq<Node>, s: nat, a: Archive) {
    s < |sources| && sources[s].RefNode? && sources[s].sha == a.sha256
  }

  /** Each of the first extracts has its archive in the table. */
  ghost predicate ArchivesHold(p: Plan, order: seq<nat>, k: nat, sources: seq<Node>, srcOf: map<nat, nat>)
    requires k <= |order|
  {
    && (forall i :: i in srcOf <==> i in order[..k])
    && (forall i :: i in srcOf ==> i in p.extracts && ArchiveAt(sources, srcOf[i], p.extracts[i]))
  }

  /** A reference to the archive some extract names. */
  predicate NamesArchive(p: Plan, node: Node) {
    node.RefNode? && exists i :: i in p.extracts && p.extracts[i].sha256 == node.sha
  }

  /** No earlier archive has the digest of the `k`-th. */
  predicate First(fetched: seq<Archive>, k: nat)
    requires k < |fetched|
  {
    forall j :: 0 <= j < k ==> fetched[j].sha256 != fetched[k].sha256
  }

  /** The places, below `n`, where a digest comes first. */
  function Firsts(fetched: seq<Archive>, n: nat): (r: seq<nat>)
    requires n <= |fetched|
    ensures forall k :: 0 <= k < |r| ==> r[k] < n
    ensures forall x: nat :: x in r <==> x < n && First(fetched, x)
    ensures forall j, k :: 0 <= j < k < |r| ==> r[j] < r[k]
  {
    if n == 0 then [] else if First(fetched, n - 1) then Firsts(fetched, n - 1) + [n - 1] else Firsts(fetched, n - 1)
  }

  /** One reference for each digest, which the first archive of that digest claims. */
  function Refs(fetched: seq<Archive>, n: nat): (r: seq<Node>)
    requires n <= |fetched|
    ensures |r| == |Firsts(fetched, n)|
    ensures forall j :: 0 <= j < |r| ==>
              var a := fetched[Firsts(fetched, n)[j]]; r[j] == RefNode(a.sha256, [a.url])
  {
    if n == 0 then []
    else if First(fetched, n - 1) then Refs(fetched, n - 1) + [RefNode(fetched[n - 1].sha256, [fetched[n - 1].url])]
    else Refs(fetched, n - 1)
  }

  lemma FirstIsNotFound(fetched: seq<Archive>, n: nat)
    requires n < |fetched|
    ensures First(fetched, n) <==> FindArchive(Refs(fetched, n), fetched[n].sha256, 0).None?
  {
    var refs, firsts := Refs(fetched, n), Firsts(fetched, n);
    var found := FindArchive(refs, fetched[n].sha256, 0);
    if found.Some? {
      assert firsts[found.value] in firsts;
    } else if j: nat :| j < n && fetched[j].sha256 == fetched[n].sha256 {
      var x := Earliest(fetched, j);
      EarliestIsThere(fetched, n, x);
    }
  }

  lemma EarliestIsThere(fetched: seq<Archive>, n: nat, x: nat)
    requires x < n <= |fetched| && First(fetched, x)
    ensures exists k :: 0 <= k < |Refs(fetched, n)| && Refs(fetched, n)[k].RefNode? && Refs(fetched, n)[k].sha == fetched[x].sha256
  {
    var firsts := Firsts(fetched, n);
    assert x in firsts;
    var k :| 0 <= k < |firsts| && firsts[k] == x;
    assert Refs(fetched, n)[k].sha == fetched[x].sha256;
  }

  lemma {:induction false} Earliest(fetched: seq<Archive>, j: nat) returns (x: nat)
    requires j < |fetched|
    ensures x <= j && First(fetched, x) && fetched[x].sha256 == fetched[j].sha256
  {
    if First(fetched, j) {
      x := j;
    } else {
      var i :| 0 <= i < j && fetched[i].sha256 == fetched[j].sha256;
      x := Earliest(fetched, i);
    }
  }

  /** The archives of the extracts, in the order given. */
  function Fetched(p: Plan, order: seq<nat>): (r: seq<Archive>)
    requires forall i :: i in order ==> i in p.extracts
    ensures |r| == |order| && forall k :: 0 <= k < |r| ==> r[k] == p.extracts[order[k]]
  {
    seq(|order|, k requires 0 <= k < |order| => p.extracts[order[k]])
  }

  /** State each archive once, the first extract node's claim standing for it. */
  method ArchiveSources(p: Plan, order: seq<nat>) returns (sources: seq<Node>, srcOf: map<nat, nat>)
    requires forall i :: i in order ==> i in p.extracts
    ensures ArchivesHold(p, order, |order|, sources, srcOf)
    ensures sources == Refs(Fetched(p, order), |order|)
  {
    hide ArchivesHold, First, Firsts, FindArchive, Fetched;
    sources, srcOf := [], map[];
    NothingHeld(p, order);
    ghost var fetched := Fetched(p, order);
    for k := 0 to |order|
      invariant ArchivesHold(p, order, k, sources, srcOf)
      invariant sources == Refs(fetched, k)
    {
      var a := p.extracts[order[k]];
      var found := FindArchive(sources, a.sha256, 0);
      FirstIsNotFound(fetched, k);
      if found.Some? {
        FoundIsHeld(p, order, k, sources, srcOf, found.value);
      } else {
        AddedIsHeld(p, order, k, sources, srcOf);
        sources := sources + [RefNode(a.sha256, [a.url])];
        found := Some(|sources| - 1);
      }
      srcOf := srcOf[order[k] := found.value];
    }
  }

  lemma NothingHeld(p: Plan, order: seq<nat>)
    ensures ArchivesHold(p, order, 0, [], map[])
  {
  }

  lemma FoundIsHeld(p: Plan, order: seq<nat>, k: nat, sources: seq<Node>, srcOf: map<nat, nat>, at: nat)
    requires k < |order| && order[k] in p.extracts && ArchivesHold(p, order, k, sources, srcOf)
    requires ArchiveAt(sources, at, p.extracts[order[k]])
    ensures ArchivesHold(p, order, k + 1, sources, srcOf[order[k] := at])
  {
    assert order[..k + 1] == order[..k] + [order[k]];
  }

  lemma AddedIsHeld(p: Plan, order: seq<nat>, k: nat, sources: seq<Node>, srcOf: map<nat, nat>)
    requires k < |order| && order[k] in p.extracts && ArchivesHold(p, order, k, sources, srcOf)
    ensures var a := p.extracts[order[k]];
            ArchivesHold(p, order, k + 1, sources + [RefNode(a.sha256, [a.url])], srcOf[order[k] := |sources|])
  {
    assert order[..k + 1] == order[..k] + [order[k]];
  }

  function FindArchive(sources: seq<Node>, sha: Digest, from: nat): (r: Option<nat>)
    requires from <= |sources|
    ensures r.Some? ==> from <= r.value < |sources| && sources[r.value].RefNode? && sources[r.value].sha == sha
    ensures r.None? ==> forall k :: from <= k < |sources| && sources[k].RefNode? ==> sources[k].sha != sha
    decreases |sources| - from
  {
    if from == |sources| then None
    else if sources[from].RefNode? && sources[from].sha == sha then Some(from)
    else FindArchive(sources, sha, from + 1)
  }

  /** Build the sources table. Tabled members are written against an empty table of nodes; None is
      the panic when one of them needs an entry there. */
  method SourcesJson(w: World, p: Plan, tabled: set<nat>) returns (r: Option<(seq<Node>, Tables)>)
    requires Descends(w, p) && (forall i :: i in tabled ==> i < |w.members|)
    requires forall i :: i in p.extracts ==> i < |w.members|
    ensures r.Some? ==> TablesHold(w, p, tabled, r.value.1, r.value.0)
    ensures r.Some? ==> SourcesAreWritten(w, p, tabled, r.value.1, r.value.0)
    ensures r.Some? ==> TableIs(w, p, tabled, r.value.1, r.value.0)
    ensures r.None? ==> exists i :: i in tabled && !Writable(w, p, i)
  {
    hide NodeJson, ArchivesHold, TablesHold, SourcesAreWritten, Refs, Fetched, NodesHold, Writable, InOrder, Descends;
    var order := InOrder(p.extracts.Keys, |w.members|);
    var sources, srcOf := ArchiveSources(p, order);
    ArchivesAreAll(w, p, order, sources, srcOf);
    var members := InOrder(tabled, |w.members|);
    var nodeOf: map<nat, nat> := map[];
    ghost var archives := sources;
    NoNodes(w, p, srcOf, members, archives);
    for k := 0 to |members|
      invariant NodesHold(w, p, srcOf, members, k, archives, sources, nodeOf)
    {
      assert members[k] in tabled;
      var node := NodeJson(w, p, Tables(srcOf, map[]), members[k]);
      if node.None? {
        NotWritable(w, p, srcOf, members[k]);
        return None;
      }
      NodesStep(w, p, srcOf, members, k, archives, sources, nodeOf, node.value);
      nodeOf := nodeOf[members[k] := |sources|];
      sources := sources + [node.value];
    }
    TableIsWhole(w, p, tabled, order, srcOf, members, archives, sources, nodeOf);
    TableIsWritten(w, p, tabled, order, srcOf, members, archives, sources, nodeOf);
    EntriesAre(w, p, tabled, order, srcOf, members, archives, sources, nodeOf);
    return Some((sources, Tables(srcOf, nodeOf)));
  }

  lemma NoNodes(w: World, p: Plan, srcOf: map<nat, nat>, members: seq<nat>, archives: seq<Node>)
    requires Descends(w, p)
    ensures NodesHold(w, p, srcOf, members, 0, archives, archives, map[])
  {
  }

  lemma NotWritable(w: World, p: Plan, srcOf: map<nat, nat>, i: nat)
    requires Descends(w, p) && i < |w.members| && srcOf.Keys == p.extracts.Keys && NodeJson(w, p, Tables(srcOf, map[]), i).None?
    ensures !Writable(w, p, i)
  {
  }

  lemma ArchivesAreAll(w: World, p: Plan, order: seq<nat>, sources: seq<Node>, srcOf: map<nat, nat>)
    requires (forall i :: i in p.extracts ==> i < |w.members|) && order == InOrder(p.extracts.Keys, |w.members|)
    requires ArchivesHold(p, order, |order|, sources, srcOf)
    ensures srcOf.Keys == p.extracts.Keys
  {
    assert order[..|order|] == order;
  }

  /** The table is whole once every member has its node behind the archives. */
  lemma TableIsWhole(w: World, p: Plan, tabled: set<nat>, order: seq<nat>, srcOf: map<nat, nat>, members: seq<nat>, archives: seq<Node>,
                     sources: seq<Node>, nodeOf: map<nat, nat>)
    requires Descends(w, p) && (forall i :: i in tabled ==> i < |w.members|) && members == InOrder(tabled, |w.members|)
    requires srcOf.Keys == p.extracts.Keys && ArchivesHold(p, order, |order|, archives, srcOf)
    requires NodesHold(w, p, srcOf, members, |members|, archives, sources, nodeOf)
    ensures TablesHold(w, p, tabled, Tables(srcOf, nodeOf), sources)
  {
    hide NodeJson, OneOf, NamesArchive, Descends;
    assert members[..|members|] == members;
    assert nodeOf.Keys == tabled;
    forall i | i in p.extracts
      ensures ArchiveAt(sources, srcOf[i], p.extracts[i])
    {
      assert i in srcOf.Keys;
    }
  }

  lemma TableIsWritten(w: World, p: Plan, tabled: set<nat>, order: seq<nat>, srcOf: map<nat, nat>, members: seq<nat>, archives: seq<Node>,
                       sources: seq<Node>, nodeOf: map<nat, nat>)
    requires Descends(w, p) && (forall i :: i in tabled ==> i < |w.members|) && members == InOrder(tabled, |w.members|)
    requires (forall i :: i in order ==> i in p.extracts) && archives == Refs(Fetched(p, order), |order|)
    requires NodesHold(w, p, srcOf, members, |members|, archives, sources, nodeOf)
    ensures SourcesAreWritten(w, p, tabled, Tables(srcOf, nodeOf), sources)
  {
    hide NodeJson, NamesArchive, Descends, Refs, Fetched;
    forall k | 0 <= k < |sources|
      ensures k < |archives| ==> sources[k].RefNode? && sources[k].claims != [] && NamesArchive(p, sources[k])
      ensures k >= |archives| ==>
                exists i :: i in tabled && i < |w.members| && NodeJson(w, p, Tables(srcOf, map[]), i) == Some(sources[k])
    {
      if k < |archives| {
        assert sources[k] == archives[k];
        RefNamesArchive(p, order, k);
      } else {
        assert OneOf(w, p, srcOf, members, |members|, sources[k]);
        var j :| 0 <= j < |members| && members[j] < |w.members| && NodeJson(w, p, Tables(srcOf, map[]), members[j]) == Some(sources[k]);
        assert members[j] in tabled;
      }
    }
  }

  lemma RefNamesArchive(p: Plan, order: seq<nat>, k: nat)
    requires (forall i :: i in order ==> i in p.extracts) && k < |Refs(Fetched(p, order), |order|)|
    ensures var node := Refs(Fetched(p, order), |order|)[k];
            node.RefNode? && node.claims != [] && NamesArchive(p, node)
  {
    var x := Firsts(Fetched(p, order), |order|)[k];
    assert order[x] in p.extracts;
  }

  /** The table holds nothing but archives, stated with a claim, and tabled members' own nodes. */
  ghost predicate SourcesAreWritten(w: World, p: Plan, tabled: set<nat>, t: Tables, sources: seq<Node>)
    requires Descends(w, p)
  {
    forall k :: 0 <= k < |sources| ==>
      (sources[k].RefNode? && sources[k].claims != [] && NamesArchive(p, sources[k]))
      || exists i :: i in tabled && i < |w.members| && NodeJson(w, p, Tables(t.srcOf, map[]), i) == Some(sources[k])
  }

  /** The table, entry by entry: each archive once, in the order of the extracts that first name it, and behind
      them the tabled members in ascending order. */
  predicate TableIs(w: World, p: Plan, tabled: set<nat>, t: Tables, sources: seq<Node>) {
    var order, members := InOrder(p.extracts.Keys, |w.members|), InOrder(tabled, |w.members|);
    var archives := Refs(Fetched(p, order), |order|);
    && archives <= sources && |sources| == |archives| + |members|
    && forall k :: 0 <= k < |members| ==> members[k] in t.nodeOf && t.nodeOf[members[k]] == |archives| + k
  }

  lemma EntriesAre(w: World, p: Plan, tabled: set<nat>, order: seq<nat>, srcOf: map<nat, nat>, members: seq<nat>, archives: seq<Node>,
                   sources: seq<Node>, nodeOf: map<nat, nat>)
    requires Descends(w, p) && members == InOrder(tabled, |w.members|) && order == InOrder(p.extracts.Keys, |w.members|)
    requires archives == Refs(Fetched(p, order), |order|) && NodesHold(w, p, srcOf, members, |members|, archives, sources, nodeOf)
    ensures TableIs(w, p, tabled, Tables(srcOf, nodeOf), sources)
  {
    hide Refs, Fetched, InOrder, NodeJson, OneOf, Descends;
  }

  /** `i` can be written without a table of nodes, whatever the archive indices. */
  ghost predicate Writable(w: World, p: Plan, i: nat)
    requires Descends(w, p)
  {
    i < |w.members| &&
    forall srcOf: map<nat, nat> :: srcOf.Keys == p.extracts.Keys ==> NodeJson(w, p, Tables(srcOf, map[]), i).Some?
  }

  ghost predicate NodesHold(w: World, p: Plan, srcOf: map<nat, nat>, members: seq<nat>, k: nat, archives: seq<Node>, sources: seq<Node>, nodeOf: map<nat, nat>)
    requires Descends(w, p) && k <= |members|
  {
    && archives <= sources && |sources| == |archives| + k
    && (forall i :: i in nodeOf <==> i in members[..k])
    && (forall j :: 0 <= j < k ==> members[j] in nodeOf && nodeOf[members[j]] == |archives| + j)
    && (forall i :: i in nodeOf ==>
          i < |w.members| && nodeOf[i] < |sources| && NodeJson(w, p, Tables(srcOf, map[]), i) == Some(sources[nodeOf[i]]))
    && (forall n :: |archives| <= n < |sources| ==> OneOf(w, p, srcOf, members, k, sources[n]))
  }

  /** The node of one of the first `k` members. */
  ghost predicate OneOf(w: World, p: Plan, srcOf: map<nat, nat>, members: seq<nat>, k: nat, node: Node)
    requires Descends(w, p) && k <= |members|
  {
    exists j :: 0 <= j < k && members[j] < |w.members| && NodeJson(w, p, Tables(srcOf, map[]), members[j]) == Some(node)
  }

  lemma NodesStep(w: World, p: Plan, srcOf: map<nat, nat>, members: seq<nat>, k: nat, archives: seq<Node>, sources: seq<Node>, nodeOf: map<nat, nat>, node: Node)
    requires Descends(w, p) && k < |members| && members[k] < |w.members| && (forall j :: 0 <= j < k ==> members[j] < members[k])
    requires NodesHold(w, p, srcOf, members, k, archives, sources, nodeOf)
    requires NodeJson(w, p, Tables(srcOf, map[]), members[k]) == Some(node)
    ensures NodesHold(w, p, srcOf, members, k + 1, archives, sources + [node], nodeOf[members[k] := |sources|])
  {
    assert members[..k + 1] == members[..k] + [members[k]];
    var more := sources + [node];
    forall n | |archives| <= n < |more|
      ensures OneOf(w, p, srcOf, members, k + 1, more[n])
    {
      assert n < |sources| ==> OneOf(w, p, srcOf, members, k, sources[n]);
    }
  }

  // ------------------------------------------------------------- when writing panics

  /** The members `i`'s node reaches through the sources table, splices within splices included. */
  function Needs(w: World, p: Plan, i: nat): set<nat>
    requires Descends(w, p) && i < |w.members|
    decreases Below(w, i), 2
  {
    if i in p.extracts then {}
    else if i in p.compress then Needs(w, p, p.compress[i].child)
    else if i in p.builds then SegsNeed(w, p, i, 0)
    else {}
  }

  function SegsNeed(w: World, p: Plan, i: nat, k: nat): set<nat>
    requires Descends(w, p) && i in p.builds && k <= |p.builds[i].segs| && i < |w.members|
    decreases Below(w, i), 1, |p.builds[i].segs| - k
  {
    if k == |p.builds[i].segs| then {}
    else
      var s := p.builds[i].segs[k];
      (if s.Child? then Needs(w, p, s.idx) else SegTabled(p.pclusters, s)) + SegsNeed(w, p, i, k + 1)
  }

  /** Members that can be written as far as their own data goes: digests are there, literals are
      captured, and what they lead to is in `ok` too. */
  predicate Settled(w: World, p: Plan, ok: set<nat>) {
    forall i :: i in ok ==>
      && i < |w.members| && w.members[i].sha256.Some?
      && (i in p.compress ==> p.compress[i].child in ok)
      && (i in p.builds && i !in p.compress ==> forall k :: 0 <= k < |p.builds[i].segs| ==> SegSettled(w, p, ok, p.builds[i].segs[k]))
  }

  predicate SegSettled(w: World, p: Plan, ok: set<nat>, s: Seg) {
    match s
    case Child(idx, _, _, _, _) => idx in ok
    case Tabled(idx, _, _, _, _) => idx < |w.members|
    case PCluster(pc, _, _, _) =>
      pc < |p.pclusters| && forall k :: 0 <= k < |p.pclusters[pc].inputs| ==> InputSettled(w, p.pclusters[pc].inputs[k])
    case Gap(_, _, off, inline) => off.Some? || inline.Some?
  }

  predicate InputSettled(w: World, x: PcInput) {
    match x
    case Part(idx, _, _) => idx < |w.members|
    case Literal(_, _, off, inline) => off.Some? || inline.Some?
  }

  lemma {:induction false} InputsWritten(w: World, t: Tables, inputs: seq<PcInput>)
    requires forall k :: 0 <= k < |inputs| ==> InputSettled(w, inputs[k])
    ensures InputsJson(w, t, inputs).Some? <==> PartsOf(inputs) <= t.nodeOf.Keys
  {
    if inputs != [] {
      var rest := inputs[1..];
      assert forall k :: 0 <= k < |rest| ==> rest[k] == inputs[k + 1];
      InputsWritten(w, t, rest);
      PartsOfCons(inputs);
    }
  }

  lemma PartsOfCons(inputs: seq<PcInput>)
    requires inputs != []
    ensures PartsOf(inputs) == (if inputs[0].Part? then {inputs[0].idx} else {}) + PartsOf(inputs[1..])
  {
    var rest := inputs[1..];
    forall x
      ensures x in PartsOf(inputs) <==> (inputs[0].Part? && inputs[0].idx == x) || x in PartsOf(rest)
    {
      if x in PartsOf(rest) {
        var k :| 0 <= k < |rest| && rest[k].Part? && rest[k].idx == x;
        assert inputs[k + 1].Part? && inputs[k + 1].idx == x;
      }
      if x in PartsOf(inputs) {
        var k :| 0 <= k < |inputs| && inputs[k].Part? && inputs[k].idx == x;
        assert k > 0 ==> rest[k - 1] == inputs[k];
      }
    }
  }

  /** A settled member can be written exactly when the table knows every member it reaches. */
  lemma {:induction false} WrittenIffKnown(w: World, p: Plan, t: Tables, ok: set<nat>, i: nat)
    requires Descends(w, p) && Settled(w, p, ok) && i in ok && i < |w.members| && t.srcOf.Keys == p.extracts.Keys
    ensures NodeJson(w, p, t, i).Some? <==> Needs(w, p, i) <= t.nodeOf.Keys
    decreases Below(w, i), 1
  {
    assert i in t.srcOf.Keys <==> i in p.extracts.Keys;
    if i in p.extracts {
    } else if i in p.compress {
      WrittenIffKnown(w, p, t, ok, p.compress[i].child);
    } else if i in p.builds {
      SegsWrittenIffKnown(w, p, t, ok, i, 0);
    }
  }

  lemma {:induction false} SegsWrittenIffKnown(w: World, p: Plan, t: Tables, ok: set<nat>, i: nat, k: nat)
    requires Descends(w, p) && Settled(w, p, ok) && i in ok && i in p.builds && i !in p.compress && i < |w.members|
    requires k <= |p.builds[i].segs| && t.srcOf.Keys == p.extracts.Keys
    ensures SegsJson(w, p, t, i, k).Some? <==> SegsNeed(w, p, i, k) <= t.nodeOf.Keys
    decreases Below(w, i), 0, |p.builds[i].segs| - k
  {
    if k < |p.builds[i].segs| {
      var s := p.builds[i].segs[k];
      SegsWrittenIffKnown(w, p, t, ok, i, k + 1);
      assert SegSettled(w, p, ok, s);
      if s.Child? {
        WrittenIffKnown(w, p, t, ok, s.idx);
      } else if s.PCluster? {
        InputsWritten(w, t, p.pclusters[s.pc].inputs);
      }
    }
  }

  /** So a tabled member, written against the empty table, panics exactly when it reaches one. */
  lemma WritableIffSelfContained(w: World, p: Plan, ok: set<nat>, i: nat)
    requires Descends(w, p) && Settled(w, p, ok) && i in ok && i < |w.members|
    ensures Writable(w, p, i) <==> Needs(w, p, i) == {}
  {
    var srcOf: map<nat, nat> := map x | x in p.extracts :: 0;
    assert srcOf.Keys == p.extracts.Keys;
    forall other: map<nat, nat> | other.Keys == p.extracts.Keys
      ensures NodeJson(w, p, Tables(other, map[]), i).Some? <==> Needs(w, p, i) == {}
    {
      WrittenIffKnown(w, p, Tables(other, map[]), ok, i);
    }
  }

  /** Whatever a build reaches, some build of the plan refers to. */
  lemma {:induction false} NeedsAreReferenced(w: World, p: Plan, i: nat)
    requires Descends(w, p) && i < |w.members|
    ensures Needs(w, p, i) <= ReferencedTabled(p)
    decreases Below(w, i), 1
  {
    if i in p.extracts {
    } else if i in p.compress {
      NeedsAreReferenced(w, p, p.compress[i].child);
    } else if i in p.builds {
      SegNeedsAreReferenced(w, p, i, 0);
    }
  }

  lemma {:induction false} SegNeedsAreReferenced(w: World, p: Plan, i: nat, k: nat)
    requires Descends(w, p) && i in p.builds && k <= |p.builds[i].segs| && i < |w.members|
    ensures SegsNeed(w, p, i, k) <= ReferencedTabled(p)
    decreases Below(w, i), 0, |p.builds[i].segs| - k
  {
    if k < |p.builds[i].segs| {
      var s := p.builds[i].segs[k];
      SegNeedsAreReferenced(w, p, i, k + 1);
      if s.Child? {
        NeedsAreReferenced(w, p, s.idx);
      } else {
        assert s in p.builds[i].segs;
        assert SegTabled(p.pclusters, s) <= TabledOf(p.pclusters, p.builds[i].segs);
      }
    }
  }
}
