/**
 Minting and checking, end to end: the planned, verified and written document rebuilds exactly the
 root's bytes whenever nothing it needs is missing, and can never rebuild anything else.
 */
module RecipeMint {
  import opened Wrappers
  import opened ByteStrings
  import opened RecipePlan
  import opened RecipeTree
  import opened RecipeTiling
  import opened RecipePlanning
  import opened RecipePlanner
  import opened RecipeCapture
  import opened RecipeDocument
  import opened RecipeVerify
  import opened RecipeCheck
  import opened RecipeMissing
  import opened RecipeFaithful
  import opened RecipeRebuild
  import opened RecipeClaims
  import opened RecipeSpool
  import opened RecipeReread
  import opened RecipeExposed
  import opened RecipeSure
  import opened RecipeCourse
  import opened RecipeTaken
  import opened RecipeWritten

  // ------------------------------------------------------------- what is promised

  /** What witnesses state about archives is true. */
  ghost predicate EvidenceTrue(w: World, truth: seq<Bytes>) {
    forall i :: 0 <= i < |truth| && i < |w.evidence| && w.evidence[i].archive.Some? ==>
      Attests(w.f, w.evidence[i].archive.value.sha256, w.evidence[i].archive.value.path, truth[i])
  }

  function CheckEnv(f: Codecs, doc: Document, blobs: map<Digest, Bytes>): Env {
    Env(f, blobs, doc.sources, doc.residue)
  }

  /** Every digest the document names. */
  function Named(doc: Document): set<Digest> {
    Digests(doc.root) + set k, d | 0 <= k < |doc.sources| && d in Digests(doc.sources[k]) :: d
  }

  /** Over any collection of blobs, the document's root stands for `bytes`. Following a tabled node
      and the archive it names takes two hops; a deeper stack changes nothing. */
  ghost predicate Rebuilds(f: Codecs, doc: Document, bytes: Bytes) {
    forall blobs: map<Digest, Bytes>, hops: nat ::
      hops >= 2 && Honest(CheckEnv(f, doc, blobs), Named(doc)) ==> Faithful(CheckEnv(f, doc, blobs), hops, doc.root, bytes)
  }

  /** Nothing the document takes as it is, at any depth, has the digest of anything it builds. */
  predicate LeavesApart(doc: Document) {
    LeavesOf(doc) !! BuiltDigests(doc.root) && forall k :: 0 <= k < |doc.sources| ==> LeavesOf(doc) !! BuiltDigests(doc.sources[k])
  }

  function LeavesOf(doc: Document): set<Digest> {
    LeafDigests(doc.root) + set k, d | 0 <= k < |doc.sources| && d in LeafDigests(doc.sources[k]) :: d
  }

  /** What the document takes are members without a plan and archives; what it builds are planned members and
      pclusters. */
  ghost predicate DocumentFrom(w: World, truth: seq<Bytes>, p: Plan, doc: Document) {
    DigestsFrom(w, truth, p, doc.root) && forall k :: 0 <= k < |doc.sources| ==> DigestsFrom(w, truth, p, doc.sources[k])
  }

  /** So where no two such digests are the same, its leaves stand apart. */
  lemma LeavesAreApart(w: World, truth: seq<Bytes>, p: Plan, doc: Document)
    requires DocumentFrom(w, truth, p, doc) && forall d :: LeafOf(w, truth, p, d) ==> !BuiltOf(w, truth, p, d)
    ensures LeavesApart(doc)
  {
    hide LeafOf, BuiltOf;
    forall d | d in LeavesOf(doc)
      ensures LeafOf(w, truth, p, d)
    {
      if d !in LeafDigests(doc.root) {
        var k :| 0 <= k < |doc.sources| && d in LeafDigests(doc.sources[k]);
        assert DigestsFrom(w, truth, p, doc.sources[k]);
      }
    }
  }

  /** Whatever a document with this root rebuilds to is `bytes`, however false the attestations. */
  predicate NamesRoot(f: Codecs, doc: Document, bytes: Bytes) {
    NodeSha(doc.root) == Ok(f.sha256(bytes))
  }

  lemma NeverWrong(f: Codecs, doc: Document, bytes: Bytes, env: Env, hops: nat)
    requires NamesRoot(f, doc, bytes) && env.f == f && OnePreimage(f, Named(doc))
    ensures Denote(env, hops, doc.root).Ok? ==> Denote(env, hops, doc.root).value == bytes
  {
    if Denote(env, hops, doc.root).Ok? {
      DenotesItsDigest(env, hops, doc.root);
      assert f.sha256(bytes) in Digests(doc.root);
    }
  }

  // ------------------------------------------------------------- from a verified plan

  /** The verify pass is through: a sound plan with its captures, everything entered done with. */
  ghost predicate Finished(w: World, truth: seq<Bytes>, p0: Plan, v: Progress) {
    Unchanged(w, truth) && Sound(w, truth, p0) && Good(truth, p0, {}, v)
  }

  /** The members that can be written: leaves with a digest, and nodes the pass finished. */
  function Finishable(w: World, v: Progress): set<nat> {
    set i | 0 <= i < |w.members| && w.members[i].sha256.Some? && (Planned(v.plan, i) ==> i in v.visited)
  }

  function ResidueOf(v: Progress): Option<Bytes> {
    if v.residue == [] then None else Some(v.residue)
  }

  lemma TruePlansDescend(w: World, truth: seq<Bytes>, p: Plan)
    requires Unchanged(w, truth) && PlanHolds(w, truth, p)
    ensures Descends(w, p)
  {
    forall i, k | i in p.builds && 0 <= k < |p.builds[i].segs| && p.builds[i].segs[k].Child?
      ensures LiesBelow(w, i, p.builds[i].segs[k].idx)
    {
      assert BuildHolds(w, truth, p, i, p.builds[i]);
      assert MemberTrue(w, truth, p.builds[i].segs[k].idx);
    }
    forall i | i in p.compress
      ensures LiesBelow(w, i, p.compress[i].child)
    {
      assert CompressHolds(w, truth, i, p.compress[i]);
      assert MemberTrue(w, truth, p.compress[i].child);
    }
  }

  /** Whatever a segment of a sound plan names has a digest. */
  lemma RefsHaveDigests(w: World, truth: seq<Bytes>, p: Plan, i: nat, k: nat, x: nat)
    requires Sound(w, truth, p) && i in p.builds && k < |p.builds[i].segs| && x in SegRefs(p.pclusters, p.builds[i].segs[k])
    ensures IsKid(w, i, x) && Fetchable(w, p, x)
  {
    assert EntryRefers(p, i, x);
  }

  lemma EnteredIsMember(w: World, truth: seq<Bytes>, p0: Plan, v: Progress, i: nat)
    requires Finished(w, truth, p0, v) && i in v.plan.builds
    ensures i < |truth|
  {
    hide Unchanged, Rooted;
    PlanLikeHolds(w, truth, p0, v.plan);
    assert BuildHolds(w, truth, v.plan, i, v.plan.builds[i]);
  }

  lemma SegsAreSettled(w: World, truth: seq<Bytes>, p0: Plan, v: Progress, i: nat)
    requires Finished(w, truth, p0, v) && i in v.plan.builds && i in v.seen
    ensures forall k :: 0 <= k < |v.plan.builds[i].segs| ==> SegSettled(w, v.plan, Finishable(w, v), v.plan.builds[i].segs[k])
  {
    hide PlanHolds, Unchanged, PlanLike, SegSettled;
    assert BuildDone(truth, v, i);
    forall k | 0 <= k < |v.plan.builds[i].segs|
      ensures SegSettled(w, v.plan, Finishable(w, v), v.plan.builds[i].segs[k])
    {
      SegIsSettled(w, truth, p0, v, i, k);
    }
  }

  lemma SegsAreCaptured(w: World, truth: seq<Bytes>, p0: Plan, v: Progress, i: nat)
    requires Finished(w, truth, p0, v) && i in v.plan.builds && i !in v.plan.compress && i in v.seen
    ensures i < |truth| && Captured(truth, v.plan, ResidueOf(v), i)
  {
    EnteredIsMember(w, truth, p0, v, i);
    hide PlanHolds, Unchanged, PlanLike, SegCaptured;
    assert BuildDone(truth, v, i);
    forall k | 0 <= k < |v.plan.builds[i].segs|
      ensures SegCaptured(truth, v.plan, ResidueOf(v), i, v.plan.builds[i].segs[k])
    {
      SegIsCaptured(w, truth, p0, v, i, k);
    }
  }

  lemma SegIsSettled(w: World, truth: seq<Bytes>, p0: Plan, v: Progress, i: nat, k: nat)
    requires Finished(w, truth, p0, v) && i in v.plan.builds && k < |v.plan.builds[i].segs|
    requires SegDone(truth, v, i, k, v.plan.builds[i].segs[k])
    ensures SegSettled(w, v.plan, Finishable(w, v), v.plan.builds[i].segs[k])
  {
    hide PlanHolds, Unchanged, Rooted;
    var s := v.plan.builds[i].segs[k];
    PlannedLike(p0, v.plan, i);
    assert BuildLike(p0.builds[i], v.plan.builds[i]);
    assert SegLike(p0.builds[i].segs[k], s);
    if s.Child? || s.Tabled? {
      RefsHaveDigests(w, truth, p0, i, k, s.idx);
    }
    if s.PCluster? {
      NodeIsSettled(w, truth, p0, v, i, k);
    }
  }

  lemma NodeIsSettled(w: World, truth: seq<Bytes>, p0: Plan, v: Progress, i: nat, k: nat)
    requires Sound(w, truth, p0) && PlanLike(p0, v.plan) && i in p0.builds && k < |p0.builds[i].segs|
    requires p0.builds[i].segs[k].PCluster? && NodeCaptured(v, p0.builds[i].segs[k].pc)
    ensures var pc := p0.builds[i].segs[k].pc;
            forall j :: 0 <= j < |v.plan.pclusters[pc].inputs| ==> InputSettled(w, v.plan.pclusters[pc].inputs[j])
  {
    hide PlanHolds, Rooted;
    var pc := p0.builds[i].segs[k].pc;
    assert NodeLike(p0.pclusters[pc], v.plan.pclusters[pc]);
    forall j | 0 <= j < |v.plan.pclusters[pc].inputs|
      ensures InputSettled(w, v.plan.pclusters[pc].inputs[j])
    {
      var x := v.plan.pclusters[pc].inputs[j];
      assert InputLike(p0.pclusters[pc].inputs[j], x);
      assert InputCaptured(v, pc, j, x);
      if x.Part? {
        RefsHaveDigests(w, truth, p0, i, k, x.idx);
      }
    }
  }

  lemma SegIsCaptured(w: World, truth: seq<Bytes>, p0: Plan, v: Progress, i: nat, k: nat)
    requires Finished(w, truth, p0, v) && i in v.plan.builds && k < |v.plan.builds[i].segs|
    requires SegDone(truth, v, i, k, v.plan.builds[i].segs[k])
    ensures i < |truth| && SegCaptured(truth, v.plan, ResidueOf(v), i, v.plan.builds[i].segs[k])
  {
    hide Unchanged, Rooted;
    var s := v.plan.builds[i].segs[k];
    if s.Gap? && s.inline.None? {
      WholeCut(Cut(truth[i], s.at, s.len));
    }
    if s.PCluster? {
      PlanLikeHolds(w, truth, p0, v.plan);
      assert BuildHolds(w, truth, v.plan, i, v.plan.builds[i]);
      LiteralsReadBack(w, truth, v, s.pc, Cut(truth[i], s.at, s.len));
    }
  }

  lemma WholeCut(b: Bytes)
    ensures Cut(b, 0, |b|) == b
  {
  }

  lemma LiteralsReadBack(w: World, truth: seq<Bytes>, v: Progress, pc: nat, stored: Bytes)
    requires NodeCaptured(v, pc) && NodeHolds(w.f, v.plan.pclusters[pc], stored, truth, v.plan.literals)
    ensures forall j :: 0 <= j < |v.plan.pclusters[pc].inputs| ==>
              LiteralReadsBack(v.plan, ResidueOf(v), v.plan.pclusters[pc].inputs[j])
  {
    hide ReadSpool;
    forall j | 0 <= j < |v.plan.pclusters[pc].inputs|
      ensures LiteralReadsBack(v.plan, ResidueOf(v), v.plan.pclusters[pc].inputs[j])
    {
      var x := v.plan.pclusters[pc].inputs[j];
      assert InputCaptured(v, pc, j, x);
      if x.Literal? && x.inline.None? {
        WholeCut(Cut(v.residue, x.residueOff.value, x.len));
      }
    }
  }

  /** A finished plan is settled. */
  lemma FinishedIsSettled(w: World, truth: seq<Bytes>, p0: Plan, v: Progress)
    requires Finished(w, truth, p0, v)
    ensures PlanHolds(w, truth, v.plan) && Descends(w, v.plan)
    ensures Settled(w, v.plan, Finishable(w, v))
  {
    hide SegSettled, BuildHolds, SegHolds;
    PlanLikeHolds(w, truth, p0, v.plan);
    TruePlansDescend(w, truth, v.plan);
    forall i | i in Finishable(w, v)
      ensures i in v.plan.compress ==> v.plan.compress[i].child in Finishable(w, v)
      ensures i in v.plan.builds && i !in v.plan.compress ==>
                forall k :: 0 <= k < |v.plan.builds[i].segs| ==> SegSettled(w, v.plan, Finishable(w, v), v.plan.builds[i].segs[k])
    {
      assert Planned(v.plan, i) ==> NodeDone(v, i);
      if i in v.plan.compress {
        assert EntryRefers(p0, i, v.plan.compress[i].child);
      } else if i in v.plan.builds {
        SegsAreSettled(w, truth, p0, v, i);
      }
    }
  }

  predicate AllCaptured(truth: seq<Bytes>, p: Plan, residue: Option<Bytes>, ok: set<nat>) {
    forall i :: i in ok ==> i < |truth| && Captured(truth, p, residue, i)
  }

  /** Whatever the pass is through with was captured as it reads. */
  lemma FinishedIsCaptured(w: World, truth: seq<Bytes>, p0: Plan, v: Progress)
    requires Finished(w, truth, p0, v)
    ensures AllCaptured(truth, v.plan, ResidueOf(v), Finishable(w, v))
  {
    hide Captured, Sound, Good;
    forall i | i in Finishable(w, v)
      ensures i < |truth| && Captured(truth, v.plan, ResidueOf(v), i)
    {
      OneIsCaptured(w, truth, p0, v, i);
    }
  }

  lemma OneIsCaptured(w: World, truth: seq<Bytes>, p0: Plan, v: Progress, i: nat)
    requires Finished(w, truth, p0, v) && i in Finishable(w, v)
    ensures i < |truth| && Captured(truth, v.plan, ResidueOf(v), i)
  {
    hide Captured, Sound, Unchanged;
    if i in v.plan.builds && i !in v.plan.compress {
      assert NodeDone(v, i);
      SegsAreCaptured(w, truth, p0, v, i);
    } else {
      assert Captured(truth, v.plan, ResidueOf(v), i) by { NothingToCapture(truth, v.plan, ResidueOf(v), i); }
      SameSize(w, truth);
    }
  }

  lemma SameSize(w: World, truth: seq<Bytes>)
    requires Unchanged(w, truth)
    ensures |truth| == |w.members|
  {
  }

  lemma NothingToCapture(truth: seq<Bytes>, p: Plan, residue: Option<Bytes>, i: nat)
    requires !(i in p.builds && i !in p.compress)
    ensures Captured(truth, p, residue, i)
  {
  }

  // ------------------------------------------------------------- writing it down

  /** What is needed to write the root of a plan and read it back, whatever blobs turn up. */
  ghost predicate Ready(w: World, truth: seq<Bytes>, p: Plan, ok: set<nat>, tabled: set<nat>, root: nat) {
    && Unchanged(w, truth) && PlanHolds(w, truth, p) && Descends(w, p) && Settled(w, p, ok)
    && root in ok && root < |w.members| && tabled <= ok && Needs(w, p, root) <= tabled
  }

  /** `p` is a sound plan, captures aside, and the root and the tabled members lead somewhere. */
  ghost predicate Leads(w: World, truth: seq<Bytes>, p0: Plan, p: Plan, tabled: set<nat>, root: nat) {
    Descended(w, truth, p0, p) && Fetchable(w, p0, root) && forall x :: x in tabled ==> Fetchable(w, p0, x)
  }

  /** Write the sources table and the root. A root whose needs are tabled is always writable; the
      table itself is where writing can panic. */
  method Write(w: World, ghost truth: seq<Bytes>, ghost p0: Plan, p: Plan, residue: Option<Bytes>, ghost ok: set<nat>, tabled: set<nat>,
               root: nat)
    returns (doc: Option<Document>)
    requires Ready(w, truth, p, ok, tabled, root) && Leads(w, truth, p0, p, tabled, root) && AllCaptured(truth, p, residue, ok)
    ensures doc.None? <==> exists i :: i in tabled && i < |w.members| && Needs(w, p, i) != {}
    ensures doc.Some? ==> NamesRoot(w.f, doc.value, truth[root]) && RefsLead(doc.value.root) && AllLead(doc.value.sources)
    ensures doc.Some? ==> DocumentFrom(w, truth, p, doc.value)
    ensures doc.Some? ==> doc.value.residue == residue && (tabled == ReferencedTabled(p) ==> exists t :: TellsDocument(w, p, t, doc.value, root))
    ensures doc.Some? && EvidenceTrue(w, truth) ==> RebuildsIfSturdy(w, truth, p, root, doc.value)
  {
    hide PlanHolds, Unchanged, AllCaptured, Needs, Digests, Honest, EvidenceTrue, Rebuilds, SturdyFrom, LeavesApart;
    ExtractsAreMembers(w, truth, p);
    var table := SourcesJson(w, p, tabled);
    TablePanics(w, truth, p, ok, tabled, root, table);
    if table.None? {
      return None;
    }
    var (sources, t) := table.value;
    WrittenIffKnown(w, p, t, ok, root);
    var node := NodeJson(w, p, t, root);
    if node.None? {
      return None;
    }
    doc := Some(Document(sources, node.value, residue));
    RootIsNamed(w, truth, p, t, root, node.value);
    DocumentLeads(w, truth, p0, p, t, tabled, root, doc.value);
    ExtractsStandAlone(w, truth, p0, p);
    DocumentComesFrom(w, truth, p, t, tabled, root, doc.value);
    if tabled == ReferencedTabled(p) {
      DocumentTells(w, p, t, doc.value, root);
    }
    if EvidenceTrue(w, truth) {
      if SturdyFrom(w, truth, p, root) {
        DocumentRebuilds(w, truth, p, t, ok, tabled, root, doc.value);
      }
      if Rebuilds(w.f, doc.value, truth[root]) && LeavesApart(doc.value) && OnePreimage(w.f, Named(doc.value)) {
        DocumentExposes(w, truth, p, t, ok, tabled, root, doc.value);
      }
    }
  }

  lemma DocumentComesFrom(w: World, truth: seq<Bytes>, p: Plan, t: Tables, tabled: set<nat>, root: nat, doc: Document)
    requires Unchanged(w, truth) && Descends(w, p) && (forall x :: x in p.extracts ==> !Planned(p, x)) && root < |w.members|
    requires SourcesAreWritten(w, p, tabled, t, doc.sources) && NodeJson(w, p, t, root) == Some(doc.root)
    ensures DocumentFrom(w, truth, p, doc)
  {
    hide NodeJson, Unchanged, Descends, BuiltOf;
    WrittenFrom(w, truth, p, t, root, doc.root);
    forall k | 0 <= k < |doc.sources|
      ensures DigestsFrom(w, truth, p, doc.sources[k])
    {
      if !NamesArchive(p, doc.sources[k]) {
        var i :| i in tabled && i < |w.members| && NodeJson(w, p, Tables(t.srcOf, map[]), i) == Some(doc.sources[k]);
        WrittenFrom(w, truth, p, Tables(t.srcOf, map[]), i, doc.sources[k]);
      }
    }
  }

  /** The document rebuilds the root if every node it rests on re-encodes from what its literals read as now;
      and only then, if nothing it takes as it is has the digest of anything it builds. */
  ghost predicate RebuildsIfSturdy(w: World, truth: seq<Bytes>, p: Plan, root: nat, doc: Document)
    requires Descends(w, p) && root < |w.members| && root < |truth|
  {
    && (SturdyFrom(w, truth, p, root) ==> Rebuilds(w.f, doc, truth[root]))
    && (LeavesApart(doc) && OnePreimage(w.f, Named(doc)) && Rebuilds(w.f, doc, truth[root]) ==> SturdyFrom(w, truth, p, root))
  }

  lemma ExtractsStandAlone(w: World, truth: seq<Bytes>, p0: Plan, p: Plan)
    requires Sound(w, truth, p0) && PlanLike(p0, p)
    ensures forall x :: x in p.extracts ==> !Planned(p, x)
  {
    forall x | x in p.extracts
      ensures !Planned(p, x)
    {
      PlannedLike(p0, p, x);
      SoundHere(w, truth, p0, x);
    }
  }

  lemma DocumentLeads(w: World, truth: seq<Bytes>, p0: Plan, p: Plan, t: Tables, tabled: set<nat>, root: nat, doc: Document)
    requires Leads(w, truth, p0, p, tabled, root) && SourcesAreWritten(w, p, tabled, t, doc.sources)
    requires NodeJson(w, p, t, root) == Some(doc.root)
    ensures RefsLead(doc.root) && AllLead(doc.sources)
  {
    hide NodeJson, Sound, PlanLike;
    NodeLeads(w, truth, p0, p, t, root, doc.root);
    forall k | 0 <= k < |doc.sources|
      ensures RefsLead(doc.sources[k])
    {
      if !(doc.sources[k].RefNode? && doc.sources[k].claims != []) {
        var i :| i in tabled && i < |w.members| && NodeJson(w, p, Tables(t.srcOf, map[]), i) == Some(doc.sources[k]);
        NodeLeads(w, truth, p0, p, Tables(t.srcOf, map[]), i, doc.sources[k]);
      }
    }
  }

  lemma ExtractsAreMembers(w: World, truth: seq<Bytes>, p: Plan)
    requires PlanHolds(w, truth, p)
    ensures forall i :: i in p.extracts ==> i < |w.members|
  {
    forall i | i in p.extracts
      ensures i < |w.members|
    {
      assert ExtractHolds(w, truth, i, p.extracts[i]);
    }
  }

  lemma TablePanics(w: World, truth: seq<Bytes>, p: Plan, ok: set<nat>, tabled: set<nat>, root: nat,
                    table: Option<(seq<Node>, Tables)>)
    requires Ready(w, truth, p, ok, tabled, root)
    requires table.Some? ==> TablesHold(w, p, tabled, table.value.1, table.value.0)
    requires table.None? ==> exists i :: i in tabled && !Writable(w, p, i)
    ensures table.None? <==> exists i :: i in tabled && i < |w.members| && Needs(w, p, i) != {}
  {
    forall i | i in tabled
      ensures Writable(w, p, i) <==> Needs(w, p, i) == {}
    {
      WritableIffSelfContained(w, p, ok, i);
    }
    if table.Some? {
      forall i | i in tabled
        ensures Needs(w, p, i) == {}
      {
        WrittenIffKnown(w, p, Tables(table.value.1.srcOf, map[]), ok, i);
      }
    }
  }

  lemma RootIsNamed(w: World, truth: seq<Bytes>, p: Plan, t: Tables, root: nat, node: Node)
    requires Unchanged(w, truth) && Descends(w, p) && root < |w.members| && NodeJson(w, p, t, root) == Some(node)
    ensures root < |truth| && NodeSha(node) == Ok(w.f.sha256(truth[root]))
  {
    assert MemberTrue(w, truth, root);
  }

  lemma DocumentRebuilds(w: World, truth: seq<Bytes>, p: Plan, t: Tables, ok: set<nat>, tabled: set<nat>, root: nat, doc: Document)
    requires Ready(w, truth, p, ok, tabled, root) && EvidenceTrue(w, truth) && AllCaptured(truth, p, doc.residue, ok)
    requires TablesHold(w, p, tabled, t, doc.sources) && NodeJson(w, p, t, root) == Some(doc.root) && SturdyFrom(w, truth, p, root)
    ensures Rebuilds(w.f, doc, truth[root])
  {
    hide Captured, Needs, Settled, Faithful, Unchanged, SturdyFrom;
    forall blobs: map<Digest, Bytes>, hops: nat | hops >= 2 && Honest(CheckEnv(w.f, doc, blobs), Named(doc))
      ensures Faithful(CheckEnv(w.f, doc, blobs), hops, doc.root, truth[root])
    {
      var env := CheckEnv(w.f, doc, blobs);
      ExtractsAreAttested(w, truth, p);
      assert Written(w, truth, p, t, env, Named(doc), ok);
      NodeIsFaithful(w, truth, p, t, env, Named(doc), ok, t, hops, root, doc.root);
    }
  }

  /** The bytes of some member with this digest. */
  function MemberWith(f: Codecs, truth: seq<Bytes>, d: Digest): (r: Option<Bytes>)
    ensures r.Some? ==> f.sha256(r.value) == d
    ensures r.None? ==> forall j :: 0 <= j < |truth| ==> f.sha256(truth[j]) != d
  {
    if truth == [] then None else if f.sha256(truth[0]) == d then Some(truth[0]) else MemberWith(f, truth[1..], d)
  }

  /** All members that the document takes as they are. */
  function MembersTaken(f: Codecs, truth: seq<Bytes>, doc: Document): map<Digest, Bytes> {
    map d | d in LeavesOf(doc) && MemberWith(f, truth, d).Some? :: MemberWith(f, truth, d).value
  }

  /** With all those at hand the document misses nothing, so it rebuilds only by running what it builds. */
  lemma DocumentExposes(w: World, truth: seq<Bytes>, p: Plan, t: Tables, ok: set<nat>, tabled: set<nat>, root: nat, doc: Document)
    requires Ready(w, truth, p, ok, tabled, root) && EvidenceTrue(w, truth) && AllCaptured(truth, p, doc.residue, ok)
    requires TablesHold(w, p, tabled, t, doc.sources) && NodeJson(w, p, t, root) == Some(doc.root)
    requires Rebuilds(w.f, doc, truth[root]) && LeavesApart(doc) && OnePreimage(w.f, Named(doc))
    requires forall x :: x in p.extracts ==> !Planned(p, x)
    ensures SturdyFrom(w, truth, p, root)
  {
    hide Captured, Needs, Settled, Unchanged, SturdyFrom, LeafDigests, BuiltDigests, NodeJson, Descends, OnePreimage, Digests;
    var blobs := MembersTaken(w.f, truth, doc);
    var env := CheckEnv(w.f, doc, blobs);
    ExtractsAreAttested(w, truth, p);
    SourcesAreNamed(doc);
    assert Written(w, truth, p, t, env, Named(doc), ok);
    assert Fed(w, truth, env, LeavesOf(doc)) by { TakenIsFed(w, truth, doc, env); }
    NothingMissing(w, truth, p, t, env, Named(doc), ok, t, 2, LeavesOf(doc), root, doc.root);
    assert Faithful(env, 2, doc.root, truth[root]);
    Exposed(w, truth, p, t, env, Named(doc), ok, t, 2, root, doc.root);
  }

  lemma TakenIsFed(w: World, truth: seq<Bytes>, doc: Document, env: Env)
    requires env == CheckEnv(w.f, doc, MembersTaken(w.f, truth, doc))
    ensures Fed(w, truth, env, LeavesOf(doc))
  {
  }

  lemma ExtractsAreAttested(w: World, truth: seq<Bytes>, p: Plan)
    requires PlanHolds(w, truth, p) && EvidenceTrue(w, truth)
    ensures forall i :: i in p.extracts && i < |truth| ==> Attests(w.f, p.extracts[i].sha256, p.extracts[i].path, truth[i])
  {
    forall i | i in p.extracts && i < |truth|
      ensures Attests(w.f, p.extracts[i].sha256, p.extracts[i].path, truth[i])
    {
      assert ExtractHolds(w, truth, i, p.extracts[i]);
    }
  }

  // ------------------------------------------------------------- mint

  /** Some member of the sources table would need a table of its own. */
  predicate Nested(w: World, p: Plan)
    requires Descends(w, p)
  {
    exists i :: i in ReferencedTabled(p) && i < |w.members| && Needs(w, p, i) != {}
  }

  /** How a mint ends. `CheckFailed` is the verify pass refusing, `TableIncomplete` the panic of a
      tabled member that needs a table of its own, `Panicked` an assertion or an overflow check that
      fired while the plan was made. */
  datatype Outcome = Minted(doc: Document) | Unplannable | CheckFailed | TableIncomplete | Panicked

  /** What a finished mint promises: the document names the root's bytes, every reference in it leads
      somewhere, and it rebuilds them if every node it rests on re-encodes from what its literals read as now;
      and only then, where no member taken as it is has the digest of anything built. */
  ghost predicate MintHolds(w: World, truth: seq<Bytes>, root: nat, r: Outcome, plan: Plan)
    requires root < |truth|
  {
    r.Minted? ==>
      && Descends(w, plan) && root < |w.members|
      && NamesRoot(w.f, r.doc, truth[root]) && RefsLead(r.doc.root) && AllLead(r.doc.sources) && DocumentFrom(w, truth, plan, r.doc)
      && Recorded(w, truth, plan, r.doc, root)
      && (EvidenceTrue(w, truth) ==> RebuildsIfSturdy(w, truth, plan, root, r.doc))
  }

  /** What a plan comes to: the verify pass fails exactly when it comes across a node that cannot be read,
      and then nothing but a nested table keeps the plan from being written. */
  ghost predicate ComesTo(w: World, truth: seq<Bytes>, root: nat, r: Outcome, plan: Plan) {
    !r.Unplannable? && !r.Panicked? ==>
      && Sound(w, truth, plan) && Descends(w, plan)
      && (r.CheckFailed? <==> Fails(w, plan, root))
      && (!r.CheckFailed? ==> (r.TableIncomplete? <==> Nested(w, plan)))
  }

  function NoPlan(root: nat): Plan {
    Plan(map[], map[], map[], [], {}, [], [], root)
  }

  /** How the mint goes: a root that is claimed is one reference; one an archive ships is an extract; any other,
      or any root at all when it is to be made from its parts, is planned. */
  ghost predicate Goes(x: Asked, root: nat, fromParts: bool, r: Outcome, plan: Plan)
    requires IsMember(x.w, root) && x.w.members[root].sha256.Some?
  {
    if !fromParts && Claimed(x.w, root) then
      plan == NoPlan(root) && r == Minted(Document([], RefNode(x.w.members[root].sha256.value, x.w.evidence[root].urls), None))
    else if !fromParts && Nameable(x.w.members[root]) && Extractable(x.w, root) then
      plan == NoPlan(root).(extracts := map[root := x.w.evidence[root].archive.value]) && r.Minted?
    else
      var (done, ok) := NodeOf(x, Now(NoPlan(root), false), root);
      plan == done.plan && (r.Panicked? <==> done.halted) && (r.Unplannable? <==> !done.halted && !ok)
  }

  /** `hdx mint`: claims of the whole file first, then an archive that ships it, then the tree. A
      root with a digest, a size worth naming and a place to read it from is always plannable. */
  method Mint(w: World, ghost truth: seq<Bytes>, sourcesOf: nat -> seq<nat>, passes: Passes, root: nat, fromParts: bool)
    returns (r: Outcome, ghost plan: Plan)
    requires Unchanged(w, truth) && PassesHold(w, truth, sourcesOf, passes)
    requires IsMember(w, root) && w.members[root].sha256.Some?
    ensures root < |truth| && MintHolds(w, truth, root, r, plan) && ComesTo(w, truth, root, r, plan)
    ensures Caused(w, passes, plan, r.Panicked?)
    ensures r.Unplannable? ==> !Nameable(w.members[root]) || HomeOf(w, root).None?
    ensures Goes(Asked(w, sourcesOf, passes), root, fromParts, r, plan)
    ensures fromParts ==> (root in plan.compress <==> exists how :: MadeBy(w, truth, root, how))
    ensures fromParts && FoldsFirst(w, root) ==> r.Panicked?
    ensures fromParts && Sure(w, sourcesOf, passes, root) && !r.Panicked? ==> !r.Unplannable? && Stacked(w, sourcesOf, passes, plan, root)
    ensures fromParts && Single(w, sourcesOf, root) && SingleScan(sourcesOf, passes, root, []).Panics? ==> r.Panicked?
    ensures fromParts && OpenShelf(w, sourcesOf, passes, root) && !r.Panicked? ==>
              !r.Unplannable? && Shelved(w, sourcesOf, passes, Ledger([], [], []), plan, root)
  {
    hide Unchanged, PassesHold, Sound, Rebuilds, EvidenceTrue, Ready, PlanHolds, Descends, Nested, Needs, Sure, Stacked, Shelf, OpenShelf, Shelved, Single,
         SingleOpens, Caused, Fails, FoldsFirst, SturdyFrom, LeavesApart, AllCaptured, NodeOf, MadeBy, Recorded, DocumentFrom, RefsLead, AllLead, NamesRoot, RebuildsIfSturdy;
    RootExists(w, truth, root);
    EmptyPlan(w, truth, passes, root);
    var planner := new Planner(w, truth, sourcesOf, passes, root);
    plan := planner.plan;
    if !fromParts && Claimed(w, root) {
      var doc := Document([], RefNode(w.members[root].sha256.value, w.evidence[root].urls), None);
      RefIsMinted(w, truth, root, doc, plan);
      return Minted(doc), plan;
    }
    var planned := false;
    if !fromParts {
      planned := planner.PlanExtract(root);
    }
    if planned {
      plan := planner.plan;
      r := WriteExtract(w, truth, planner.plan, root);
      return;
    }
    if OpenShelf(w, sourcesOf, passes, root) {
      FirstIsSingle(w, sourcesOf, passes, root);
    }
    planned := planner.PlanNode(root);
    plan := planner.plan;
    if planner.halted {
      return Panicked, plan;
    }
    if !planned {
      return Unplannable, plan;
    }
    r := VerifyAndWrite(w, truth, planner.plan, root);
    CausedKept(w, passes, plan, false, r.Panicked?);
  }

  lemma CausedKept(w: World, passes: Passes, p: Plan, halted: bool, panicked: bool)
    requires Caused(w, passes, p, halted) && (panicked ==> halted)
    ensures Caused(w, passes, p, panicked)
  {
  }

  lemma RootExists(w: World, truth: seq<Bytes>, root: nat)
    requires Unchanged(w, truth) && IsMember(w, root)
    ensures root < |truth|
  {
  }

  /** The root's own claims name the whole file: one reference, nothing to reconstruct. */
  lemma RootRefRebuilds(w: World, truth: seq<Bytes>, root: nat, doc: Document, plan: Plan)
    requires plan.builds == map[] && plan.compress == map[] && plan.extracts == map[]
    requires Unchanged(w, truth) && IsMember(w, root) && w.members[root].sha256.Some?
    requires doc == Document([], RefNode(w.members[root].sha256.value, w.evidence[root].urls), None) && Claimed(w, root)
    ensures root < |truth| && DocumentFrom(w, truth, plan, doc) && NamesRoot(w.f, doc, truth[root]) && Rebuilds(w.f, doc, truth[root])
    ensures Sound(w, truth, plan) && Descends(w, plan) && !Nested(w, plan) && RefsLead(doc.root) && AllLead(doc.sources)
    ensures !Fails(w, plan, root) && SturdyFrom(w, truth, plan, root)
  {
    LeafIsSturdy(w, truth, plan, root);
    assert MemberTrue(w, truth, root);
    forall blobs: map<Digest, Bytes>, hops: nat | hops >= 2 && Honest(CheckEnv(w.f, doc, blobs), Named(doc))
      ensures Faithful(CheckEnv(w.f, doc, blobs), hops, doc.root, truth[root])
    {
      RefIsFaithful(CheckEnv(w.f, doc, blobs), hops, Named(doc), doc.root, truth[root]);
    }
  }

  lemma RefIsMinted(w: World, truth: seq<Bytes>, root: nat, doc: Document, plan: Plan)
    requires plan.builds == map[] && plan.compress == map[] && plan.extracts == map[]
    requires Unchanged(w, truth) && IsMember(w, root) && w.members[root].sha256.Some? && Claimed(w, root)
    requires doc == Document([], RefNode(w.members[root].sha256.value, w.evidence[root].urls), None)
    ensures root < |truth| && MintHolds(w, truth, root, Minted(doc), plan) && ComesTo(w, truth, root, Minted(doc), plan)
  {
    hide Sound, Rebuilds, EvidenceTrue, Fails, Nested, SturdyFrom, LeavesApart, Recorded;
    RootRefRebuilds(w, truth, root, doc, plan);
    RefIsRecorded(w, truth, plan, doc, root);
    hide Unchanged, Descends;
  }

  lemma EmptyPlan(w: World, truth: seq<Bytes>, passes: Passes, root: nat)
    ensures var p := Plan(map[], map[], map[], [], {}, [], [], root);
            Sound(w, truth, p) && Fresh(w, p, root) && Unreferenced(p, root) && NoEntry(p, root) && Caused(w, passes, p, false)
  {
  }

  lemma ExtractReady(w: World, truth: seq<Bytes>, p: Plan, root: nat)
    requires Unchanged(w, truth) && Sound(w, truth, p) && root in p.extracts && IsMember(w, root)
    requires p.tabled == {} && p.builds == map[] && p.compress == map[]
    ensures root < |truth| && Ready(w, truth, p, {root}, p.tabled, root) && AllCaptured(truth, p, None, {root})
    ensures Descends(w, p) && !Nested(w, p) && Leads(w, truth, p, p, p.tabled, root) && !Fails(w, p, root)
  {
    TruePlansDescend(w, truth, p);
    PlanLikeItself(p);
    assert root in p.extracts.Keys;
    assert ExtractHolds(w, truth, root, p.extracts[root]);
  }

  /** A root an archive ships needs no verify pass. */
  method WriteExtract(w: World, ghost truth: seq<Bytes>, plan: Plan, root: nat)
    returns (r: Outcome)
    requires Unchanged(w, truth) && Sound(w, truth, plan) && root in plan.extracts && IsMember(w, root)
    requires plan.tabled == {} && plan.builds == map[] && plan.compress == map[]
    ensures r.Minted? && root < |truth| && MintHolds(w, truth, root, r, plan) && ComesTo(w, truth, root, r, plan)
  {
    hide Unchanged, Sound, Rebuilds, EvidenceTrue, Ready, Good, PlanHolds, Descends, Needs, Fails, AllCaptured, SturdyFrom, LeavesApart, TellsDocument;
    ExtractReady(w, truth, plan, root);
    NothingEntered(truth, plan, Progress(plan, [], {}, {}, []));
    var doc := Write(w, truth, plan, plan, None, {root}, plan.tabled, root);
    r := if doc.Some? then Minted(doc.value) else TableIncomplete;
  }

  method VerifyAndWrite(w: World, ghost truth: seq<Bytes>, plan: Plan, root: nat)
    returns (r: Outcome)
    requires Unchanged(w, truth) && Sound(w, truth, plan) && root < |w.members| && Planned(plan, root)
    ensures !r.Unplannable? && !r.Panicked? && root < |truth| && MintHolds(w, truth, root, r, plan) && ComesTo(w, truth, root, r, plan)
  {
    hide Sound, Unchanged, Rebuilds, EvidenceTrue, Ready, Good, PlanHolds, Descends, Needs, Fails, AllVisited, AllCaptured, PlanLike, SturdyFrom,
         LeavesApart, TellsDocument;
    RootIsMember(w, truth, root);
    SoundDescends(w, truth, plan);
    var verifier := new Verifier(w, truth, plan);
    var ok := verifier.VerifyAll(root);
    if !ok {
      return CheckFailed;
    }
    ghost var v := verifier.Now();
    FinishedIsReady(w, truth, plan, v, root);
    FinishedIsCaptured(w, truth, plan, v);
    var residue := if verifier.residue == [] then None else Some(verifier.residue);
    var doc := Write(w, truth, plan, verifier.plan, residue, Finishable(w, v), ReferencedTabled(verifier.plan), root);
    NestedLike(w, truth, plan, v.plan);
    SturdyFromLike(w, truth, plan, v.plan, root);
    if doc.Some? {
      DocumentFromLike(w, truth, plan, v.plan, doc.value);
    }
    r := if doc.Some? then Minted(doc.value) else TableIncomplete;
  }

  lemma SoundDescends(w: World, truth: seq<Bytes>, p: Plan)
    requires Unchanged(w, truth) && Sound(w, truth, p)
    ensures Descends(w, p)
  {
    TruePlansDescend(w, truth, p);
  }

  lemma RootIsMember(w: World, truth: seq<Bytes>, root: nat)
    requires Unchanged(w, truth) && root < |w.members|
    ensures root < |truth|
  {
  }

  lemma FinishedIsReady(w: World, truth: seq<Bytes>, p0: Plan, v: Progress, root: nat)
    requires Unchanged(w, truth) && Sound(w, truth, p0) && Good(truth, p0, {}, v)
    requires root < |w.members| && root in v.visited && Planned(p0, root)
    requires forall i :: i in ReferencedTabled(v.plan) && i < |w.members| && Planned(v.plan, i) ==> i in v.visited
    ensures Ready(w, truth, v.plan, Finishable(w, v), ReferencedTabled(v.plan), root)
    ensures root < |truth| && Descends(w, v.plan) && PlanLike(p0, v.plan)
    ensures Leads(w, truth, p0, v.plan, ReferencedTabled(v.plan), root)
  {
    hide Unchanged, PlanHolds, Rooted, Settled, Descends;
    RootIsMember(w, truth, root);
    FinishedIsSettled(w, truth, p0, v);
    PlannedHaveDigests(w, truth, p0, root);
    NeedsAreReferenced(w, v.plan, root);
    SameTabled(p0, v.plan);
    forall x | x in ReferencedTabled(v.plan)
      ensures x in Finishable(w, v) && Fetchable(w, p0, x)
    {
      TabledHaveDigests(w, truth, p0, x);
    }
  }

  // ------------------------------------------------------------- captures change no needs

  lemma NestedLike(w: World, truth: seq<Bytes>, p: Plan, q: Plan)
    requires PlanLike(p, q) && Descends(w, p) && Descends(w, q)
    ensures Nested(w, p) <==> Nested(w, q)
  {
    hide Needs, PlanLike;
    SameTabled(p, q);
    forall i: nat | i < |w.members|
      ensures Needs(w, p, i) == Needs(w, q, i)
    {
      NeedsLike(w, p, q, i);
    }
  }

  lemma SturdyFromLike(w: World, truth: seq<Bytes>, p: Plan, q: Plan, i: nat)
    requires PlanLike(p, q) && Descends(w, p) && Descends(w, q) && i < |w.members|
    ensures SturdyFrom(w, truth, p, i) <==> SturdyFrom(w, truth, q, i)
  {
    hide Needs, PlanLike, Visits, Sturdy;
    NeedsLike(w, p, q, i);
    VisitsLike(w, p, q, i);
    forall x: nat
      ensures Visits(w, p, x) == Visits(w, q, x) && (Sturdy(w, truth, p, x) <==> Sturdy(w, truth, q, x))
    {
      VisitsLike(w, p, q, x);
      SturdyLike(w, truth, p, q, x);
    }
    assert Reached(w, p, i) == Reached(w, q, i);
  }

  lemma DocumentFromLike(w: World, truth: seq<Bytes>, p: Plan, q: Plan, doc: Document)
    requires PlanLike(p, q) && DocumentFrom(w, truth, q, doc)
    ensures DocumentFrom(w, truth, p, doc)
  {
    forall d
      ensures (LeafOf(w, truth, q, d) ==> LeafOf(w, truth, p, d)) && (BuiltOf(w, truth, q, d) ==> BuiltOf(w, truth, p, d))
    {
      DigestsLike(w, truth, p, q, d);
    }
    hide LeafOf, BuiltOf, PlanLike;
    forall k | 0 <= k < |doc.sources|
      ensures DigestsFrom(w, truth, p, doc.sources[k])
    {
      assert DigestsFrom(w, truth, q, doc.sources[k]);
    }
  }

  lemma DigestsLike(w: World, truth: seq<Bytes>, p: Plan, q: Plan, d: Digest)
    requires PlanLike(p, q)
    ensures (LeafOf(w, truth, q, d) ==> LeafOf(w, truth, p, d)) && (BuiltOf(w, truth, q, d) ==> BuiltOf(w, truth, p, d))
  {
    forall j: nat
      ensures Planned(p, j) <==> Planned(q, j)
    {
      PlannedLike(p, q, j);
    }
    forall k | 0 <= k < |q.pclusters|
      ensures p.pclusters[k].sha256 == q.pclusters[k].sha256
    {
      assert NodeLike(p.pclusters[k], q.pclusters[k]);
    }
  }

  lemma {:induction false} NeedsLike(w: World, p: Plan, q: Plan, i: nat)
    requires PlanLike(p, q) && Descends(w, p) && Descends(w, q) && i < |w.members|
    ensures Needs(w, p, i) == Needs(w, q, i)
    decreases RecipeDocument.Below(w, i), 1
  {
    hide Descends;
    PlannedLike(p, q, i);
    if i in p.extracts {
    } else if i in p.compress {
      KidsDescend(w, p, i, 0);
      NeedsLike(w, p, q, p.compress[i].child);
    } else if i in p.builds {
      SegsNeedLike(w, p, q, i, 0);
    }
  }

  lemma KidsDescend(w: World, p: Plan, i: nat, k: nat)
    requires Descends(w, p)
    ensures i in p.compress ==> LiesBelow(w, i, p.compress[i].child)
    ensures i in p.builds && k < |p.builds[i].segs| && p.builds[i].segs[k].Child? ==> LiesBelow(w, i, p.builds[i].segs[k].idx)
  {
  }

  lemma {:induction false} SegsNeedLike(w: World, p: Plan, q: Plan, i: nat, k: nat)
    requires PlanLike(p, q) && Descends(w, p) && Descends(w, q) && i in p.builds && i in q.builds && k <= |p.builds[i].segs| && i < |w.members|
    ensures |p.builds[i].segs| == |q.builds[i].segs|
    ensures SegsNeed(w, p, i, k) == SegsNeed(w, q, i, k)
    decreases RecipeDocument.Below(w, i), 0, |p.builds[i].segs| - k
  {
    hide Descends;
    assert BuildLike(p.builds[i], q.builds[i]);
    if k < |p.builds[i].segs| {
      var s, t := p.builds[i].segs[k], q.builds[i].segs[k];
      assert SegLike(s, t);
      SegsNeedLike(w, p, q, i, k + 1);
      KidsDescend(w, p, i, k);
      if s.Child? {
        NeedsLike(w, p, q, s.idx);
      } else {
        SegsTabledLike(p, q, s, t);
      }
    }
  }

  lemma PlannedHaveDigests(w: World, truth: seq<Bytes>, p: Plan, i: nat)
    requires PlanHolds(w, truth, p) && Planned(p, i)
    ensures i < |w.members| && w.members[i].sha256.Some?
  {
    if i in p.builds {
      assert BuildHolds(w, truth, p, i, p.builds[i]);
    } else {
      assert CompressHolds(w, truth, i, p.compress[i]);
    }
  }

  lemma TabledHaveDigests(w: World, truth: seq<Bytes>, p: Plan, x: nat)
    requires Sound(w, truth, p) && x in ReferencedTabled(p)
    ensures Fetchable(w, p, x)
  {
    hide Sound, Fetchable;
    var i :| i in p.builds && x in TabledOf(p.pclusters, p.builds[i].segs);
    var s :| s in p.builds[i].segs && x in SegTabled(p.pclusters, s);
    var k :| 0 <= k < |p.builds[i].segs| && p.builds[i].segs[k] == s;
    RefsHaveDigests(w, truth, p, i, k, x);
  }

  // ------------------------------------------------------------- check

  /** `hdx check`: report all that is missing before any work, then rebuild and compare digests. The report
      has each digest that is lacking once, with the claims of a reference to it, and no other. */
  method Check(f: Codecs, doc: Document, blobs: map<Digest, Bytes>, hops: nat) returns (r: Result<Bytes, Fault>, report: seq<Absent>)
    requires Honest(CheckEnv(f, doc, blobs), Named(doc)) && hops >= 2
    ensures forall bytes :: Rebuilds(f, doc, bytes) && NamesRoot(f, doc, bytes) ==>
              (r == Ok(bytes) <==> forall d :: !Lacks(CheckEnv(f, doc, blobs), doc.root, d))
    ensures forall bytes :: NamesRoot(f, doc, bytes) && r.Ok? ==> r.value == bytes
    ensures Once(report) && forall k :: 0 <= k < |report| ==> Wants(CheckEnv(f, doc, blobs), doc.root, RefNode(report[k].sha, report[k].claims))
    ensures Missing(CheckEnv(f, doc, blobs), hops, doc.root).Ok? ==>
              forall d :: d in ShasOf(report) <==> Lacks(CheckEnv(f, doc, blobs), doc.root, d)
  {
    hide Rebuilds, NamesRoot, Honest, Named, Missing, Lacks, Wants, Denote;
    var env := CheckEnv(f, doc, blobs);
    var fault;
    fault, report := CollectMissing(env, hops, doc.root, []);
    ReportIsExact(env, hops, doc.root, report);
    if fault.Some? {
      r := Err(fault.value);
    } else if report != [] {
      assert report[0].sha in ShasOf(report);
      r := Err(NoBlob(report[0].sha));
    } else {
      assert ShasOf(report) == {};
      r := Rebuild(f, doc, blobs, hops);
    }
    Verdict(f, doc, blobs, hops, r);
  }

  lemma ReportIsExact(env: Env, hops: nat, root: Node, report: seq<Absent>)
    requires AddsWanted(env, root, [], report)
    ensures Once(report) && forall k :: 0 <= k < |report| ==> Wants(env, root, RefNode(report[k].sha, report[k].claims))
    ensures Missing(env, hops, root).Ok? && ShasOf(report) == ShasOf([]) + Missing(env, hops, root).value ==>
              && (forall d :: d in ShasOf(report) <==> Lacks(env, root, d))
              && ShasOf(report) == Missing(env, hops, root).value
  {
    hide Missing, Wants, Lacks;
    assert ShasOf([]) == {};
    if Missing(env, hops, root).Ok? {
      forall d
        ensures d in Missing(env, hops, root).value <==> Lacks(env, root, d)
      {
        MissingIff(env, hops, root, d);
      }
    }
  }

  method Rebuild(f: Codecs, doc: Document, blobs: map<Digest, Bytes>, hops: nat) returns (r: Result<Bytes, Fault>)
    requires Honest(CheckEnv(f, doc, blobs), Named(doc))
    ensures Denote(CheckEnv(f, doc, blobs), hops, doc.root).Ok? && NodeSha(doc.root).Ok? ==>
              r == Denote(CheckEnv(f, doc, blobs), hops, doc.root)
    ensures r.Ok? ==> NodeSha(doc.root) == Ok(f.sha256(r.value))
  {
    SourcesAreNamed(doc);
    var ctx := new CheckCtx(CheckEnv(f, doc, blobs), Named(doc));
    r := ctx.Assemble(hops, doc.root);
    if r.Ok? && NodeSha(doc.root) != Ok(f.sha256(r.value)) {
      r := Err(WrongDigest);
    }
  }

  lemma Verdict(f: Codecs, doc: Document, blobs: map<Digest, Bytes>, hops: nat, r: Result<Bytes, Fault>)
    requires Honest(CheckEnv(f, doc, blobs), Named(doc)) && hops >= 2
    requires var env := CheckEnv(f, doc, blobs);
             && (r.Ok? ==> NodeSha(doc.root) == Ok(f.sha256(r.value)) && Missing(env, hops, doc.root) == Ok({}))
             && (Missing(env, hops, doc.root) == Ok({}) && Denote(env, hops, doc.root).Ok? && NodeSha(doc.root).Ok? ==>
                   r == Denote(env, hops, doc.root))
    ensures forall bytes :: Rebuilds(f, doc, bytes) && NamesRoot(f, doc, bytes) ==>
              (r == Ok(bytes) <==> forall d :: !Lacks(CheckEnv(f, doc, blobs), doc.root, d))
    ensures forall bytes :: NamesRoot(f, doc, bytes) && r.Ok? ==> r.value == bytes
  {
    hide Missing, Denote, Lacks;
    RootIsOne(f, doc, r);
    var env := CheckEnv(f, doc, blobs);
    forall bytes | Rebuilds(f, doc, bytes) && NamesRoot(f, doc, bytes)
      ensures r == Ok(bytes) <==> forall d :: !Lacks(env, doc.root, d)
    {
      assert Faithful(env, hops, doc.root, bytes);
      NothingLacking(env, hops, doc.root);
    }
  }

  lemma NothingLacking(env: Env, hops: nat, node: Node)
    requires Missing(env, hops, node).Ok?
    ensures Missing(env, hops, node) == Ok({}) <==> forall d :: !Lacks(env, node, d)
  {
    hide Missing, Lacks;
    forall d
      ensures d in Missing(env, hops, node).value <==> Lacks(env, node, d)
    {
      MissingIff(env, hops, node, d);
    }
    var all := Missing(env, hops, node).value;
    if forall d :: !Lacks(env, node, d) {
      assert all == {};
    }
    if exists d :: Lacks(env, node, d) {
      var d :| Lacks(env, node, d);
      assert d in all;
    }
  }

  lemma SourcesAreNamed(doc: Document)
    ensures forall k :: 0 <= k < |doc.sources| ==> Digests(doc.sources[k]) <= Named(doc)
  {
  }

  lemma RootIsOne(f: Codecs, doc: Document, r: Result<Bytes, Fault>)
    requires OnePreimage(f, Named(doc)) && (r.Ok? ==> NodeSha(doc.root) == Ok(f.sha256(r.value)))
    ensures forall bytes :: NamesRoot(f, doc, bytes) && r.Ok? ==> r.value == bytes
  {
    forall bytes | NamesRoot(f, doc, bytes) && r.Ok?
      ensures r.value == bytes
    {
      assert f.sha256(bytes) in Digests(doc.root);
    }
  }
}
