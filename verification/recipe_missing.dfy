/**
 The availability report of `check`: every reference the rebuild would come to and has no blob for,
 each digest once, with the claims that say where it can be fetched.
 */
module RecipeMissing {
  import opened Wrappers
  import opened ByteStrings
  import opened RecipePlan
  import opened RecipeDocument
  import opened RecipeCheck

  /** A line of the report. */
  datatype Absent = Absent(sha: Digest, claims: seq<string>)

  // ------------------------------------------------------------- what a rebuild comes to

  /** What an input of a build stands for: the node it slices, or itself. */
  predicate Addresses(env: Env, input: Node, b: Node) {
    match input
    case SliceOf(of, _, _) => b == of
    case SliceSource(source, _, _) => source < |env.sources| && b == env.sources[source]
    case _ => b == input
  }

  /** The next node a rebuild of `a` comes to. Whatever there is a blob of is taken as it is. */
  predicate LeadsTo(env: Env, a: Node, b: Node) {
    match a
    case SourceNode(source) => source < |env.sources| && b == env.sources[source]
    case ExtractNode(archive, _, sha, _, _) => sha !in env.blobs && archive < |env.sources| && b == env.sources[archive]
    case BuildNode(_, sha, _, inputs) => sha !in env.blobs && exists k :: 0 <= k < |inputs| && Addresses(env, inputs[k], b)
    case _ => false
  }

  predicate Trail(env: Env, path: seq<Node>) {
    path != [] && forall k :: 0 < k < |path| ==> LeadsTo(env, path[k - 1], path[k])
  }

  /** A rebuild of `from` comes to this reference, and there is no blob for it. */
  ghost predicate Wants(env: Env, from: Node, ref: Node) {
    ref.RefNode? && ref.sha !in env.blobs && exists path :: IsTrail(env, path, from, ref)
  }

  predicate IsTrail(env: Env, path: seq<Node>, from: Node, ref: Node) {
    Trail(env, path) && path[0] == from && path[|path| - 1] == ref
  }

  /** Some reference to `sha` is wanted. */
  ghost predicate Lacks(env: Env, from: Node, sha: Digest) {
    exists claims :: Wants(env, from, RefNode(sha, claims))
  }

  lemma WantsHere(env: Env, ref: Node)
    requires ref.RefNode? && ref.sha !in env.blobs
    ensures Wants(env, ref, ref)
  {
    assert IsTrail(env, [ref], ref, ref);
  }

  lemma WantsFurther(env: Env, a: Node, b: Node, ref: Node)
    requires LeadsTo(env, a, b) && Wants(env, b, ref)
    ensures Wants(env, a, ref)
  {
    var path :| IsTrail(env, path, b, ref);
    var longer := [a] + path;
    forall k | 0 < k < |longer|
      ensures LeadsTo(env, longer[k - 1], longer[k])
    {
      assert k > 1 ==> longer[k - 1] == path[k - 2] && longer[k] == path[k - 1];
    }
    assert IsTrail(env, longer, a, ref);
  }

  /** What is wanted behind a source link is wanted at what the link resolves to. */
  lemma {:induction false} WantsResolved(env: Env, node: Node, tries: nat, n: Node, ref: Node)
    requires Resolve(env.sources, node, tries) == Ok(n) && Wants(env, n, ref)
    ensures Wants(env, node, ref)
    decreases tries
  {
    hide Wants;
    if node.SourceNode? {
      WantsResolved(env, env.sources[node.source], tries - 1, n, ref);
      WantsFurther(env, node, env.sources[node.source], ref);
    }
  }

  // ------------------------------------------------------------- the report has all of it

  /** A trail to a reference runs through what its first node resolves to. */
  lemma {:induction false} TrailResolves(env: Env, path: seq<Node>, tries: nat) returns (j: nat)
    requires Trail(env, path) && path[|path| - 1].RefNode? && Resolve(env.sources, path[0], tries).Ok?
    ensures j < |path| && path[j] == Resolve(env.sources, path[0], tries).value
    ensures path[0].SourceNode? ==> j > 0
    decreases tries
  {
    if path[0].SourceNode? {
      assert LeadsTo(env, path[0], path[1]);
      TrailOn(env, path, 1);
      var i := TrailResolves(env, path[1..], tries - 1);
      j := i + 1;
    } else {
      j := 0;
    }
  }

  lemma TrailOn(env: Env, path: seq<Node>, j: nat)
    requires Trail(env, path) && j < |path|
    ensures Trail(env, path[j..]) && path[j..][|path| - j - 1] == path[|path| - 1]
  {
    forall k | 0 < k < |path| - j
      ensures LeadsTo(env, path[j..][k - 1], path[j..][k])
    {
      assert LeadsTo(env, path[j + k - 1], path[j + k]);
    }
  }

  lemma {:induction false} InputsHave(env: Env, hops: nat, node: Node, j: nat, k: nat)
    requires node.BuildNode? && j <= k < |node.inputs| && MissingInputs(env, hops, node, j).Ok?
    ensures MissingInput(env, hops, node.inputs[k]).Ok?
    ensures MissingInput(env, hops, node.inputs[k]).value <= MissingInputs(env, hops, node, j).value
    decreases k - j
  {
    if j < k {
      InputsHave(env, hops, node, j + 1, k);
    }
  }

  /** Nothing on a trail is left out. */
  lemma {:induction false} TrailIsMissing(env: Env, hops: nat, path: seq<Node>)
    requires Trail(env, path) && path[|path| - 1].RefNode? && path[|path| - 1].sha !in env.blobs
    requires Missing(env, hops, path[0]).Ok?
    ensures path[|path| - 1].sha in Missing(env, hops, path[0]).value
    decreases |path|, 1
  {
    hide Resolve, LeadsTo;
    if |path| > 1 {
      NextIs(env, path);
      match path[0] {
        case SourceNode(source) =>
          LinkIsMissing(env, hops, path, source);
        case ExtractNode(archive, _, _, _, _) =>
          LinkIsMissing(env, hops, path, archive);
        case BuildNode(_, _, _, inputs) =>
          var k :| 0 <= k < |inputs| && Addresses(env, inputs[k], path[1]);
          InputsHave(env, hops, path[0], 0, k);
          if inputs[k].SliceSource? {
            LinkIsMissing(env, hops, path, inputs[k].source);
          } else {
            TrailOn(env, path, 1);
            TrailIsMissing(env, hops, path[1..]);
          }
      }
    } else {
      assert path[0] == path[|path| - 1];
    }
  }

  lemma NextIs(env: Env, path: seq<Node>)
    requires Trail(env, path) && |path| > 1
    ensures match path[0]
            case SourceNode(source) => source < |env.sources| && path[1] == env.sources[source]
            case ExtractNode(archive, _, sha, _, _) => sha !in env.blobs && archive < |env.sources| && path[1] == env.sources[archive]
            case BuildNode(_, sha, _, inputs) => sha !in env.blobs && exists k :: 0 <= k < |inputs| && Addresses(env, inputs[k], path[1])
            case _ => false
  {
    assert LeadsTo(env, path[0], path[1]);
  }

  /** The second node of the trail is entry `s` of the table. */
  lemma {:induction false} LinkIsMissing(env: Env, hops: nat, path: seq<Node>, s: nat)
    requires Trail(env, path) && |path| > 1 && path[|path| - 1].RefNode? && path[|path| - 1].sha !in env.blobs && hops > 0
    requires s < |env.sources| && path[1] == env.sources[s] && ResolveIn(env.sources, SourceNode(s)).Ok?
    requires Missing(env, hops - 1, ResolveIn(env.sources, SourceNode(s)).value).Ok?
    ensures path[|path| - 1].sha in Missing(env, hops - 1, ResolveIn(env.sources, SourceNode(s)).value).value
    decreases |path|, 0
  {
    hide Missing, Trail;
    TrailOn(env, path, 1);
    var j := TrailResolves(env, path[1..], |env.sources|);
    TrailOn(env, path, j + 1);
    TrailIsMissing(env, hops - 1, path[j + 1..]);
  }

  // ------------------------------------------------------------- and nothing else

  lemma WantsLinked(env: Env, node: Node, s: nat, n: Node, ref: Node)
    requires s < |env.sources| && LeadsTo(env, node, env.sources[s]) && ResolveIn(env.sources, SourceNode(s)) == Ok(n) && Wants(env, n, ref)
    ensures Wants(env, node, ref)
  {
    hide Wants, LeadsTo;
    WantsResolved(env, env.sources[s], |env.sources|, n, ref);
    WantsFurther(env, node, env.sources[s], ref);
  }

  lemma {:induction false} InputsName(env: Env, hops: nat, node: Node, j: nat, sha: Digest) returns (k: nat)
    requires node.BuildNode? && j <= |node.inputs| && MissingInputs(env, hops, node, j).Ok? && sha in MissingInputs(env, hops, node, j).value
    ensures j <= k < |node.inputs| && MissingInput(env, hops, node.inputs[k]).Ok? && sha in MissingInput(env, hops, node.inputs[k]).value
    decreases |node.inputs| - j
  {
    if sha in MissingInput(env, hops, node.inputs[j]).value {
      k := j;
    } else {
      k := InputsName(env, hops, node, j + 1, sha);
    }
  }

  lemma {:induction false} MissingIsWanted(env: Env, hops: nat, node: Node, sha: Digest) returns (ref: Node)
    requires Missing(env, hops, node).Ok? && sha in Missing(env, hops, node).value
    ensures Wants(env, node, ref) && ref.RefNode? && ref.sha == sha
    decreases hops, node
  {
    hide Wants, Resolve;
    match node {
      case RefNode(_, _) =>
        WantsHere(env, node);
        ref := node;
      case SourceNode(s) =>
        var n := ResolveIn(env.sources, node).value;
        ref := MissingIsWanted(env, hops - 1, n, sha);
        WantsResolved(env, node, |env.sources| + 1, n, ref);
      case ExtractNode(archive, _, _, _, _) =>
        var n := ResolveIn(env.sources, SourceNode(archive)).value;
        ref := MissingIsWanted(env, hops - 1, n, sha);
        ResolvedInTable(env.sources, archive);
        WantsLinked(env, node, archive, n, ref);
      case BuildNode(_, _, _, inputs) =>
        var k := InputsName(env, hops, node, 0, sha);
        match inputs[k] {
          case SliceOf(of, _, _) =>
            ref := MissingIsWanted(env, hops, of, sha);
            assert Addresses(env, inputs[k], of);
            WantsFurther(env, node, of, ref);
          case SliceSource(source, _, _) =>
            var n := ResolveIn(env.sources, SourceNode(source)).value;
            ref := MissingIsWanted(env, hops - 1, n, sha);
            ResolvedInTable(env.sources, source);
            assert Addresses(env, inputs[k], env.sources[source]);
            WantsLinked(env, node, source, n, ref);
          case _ =>
            ref := MissingIsWanted(env, hops, inputs[k], sha);
            assert Addresses(env, inputs[k], inputs[k]);
            WantsFurther(env, node, inputs[k], ref);
        }
    }
  }

  lemma ResolvedInTable(sources: seq<Node>, s: nat)
    requires ResolveIn(sources, SourceNode(s)).Ok?
    ensures s < |sources|
  {
  }

  /** Where the search meets no fault, the digests missing are exactly those of references a rebuild comes
      to and has no blob for. */
  lemma MissingIff(env: Env, hops: nat, node: Node, sha: Digest)
    requires Missing(env, hops, node).Ok?
    ensures sha in Missing(env, hops, node).value <==> Lacks(env, node, sha)
  {
    hide Missing, Wants;
    if sha in Missing(env, hops, node).value {
      var ref := MissingIsWanted(env, hops, node, sha);
      assert ref == RefNode(sha, ref.claims);
    }
    if Lacks(env, node, sha) {
      var claims :| Wants(env, node, RefNode(sha, claims));
      WantedIsMissing(env, hops, node, RefNode(sha, claims));
    }
  }

  lemma WantedIsMissing(env: Env, hops: nat, node: Node, ref: Node)
    requires Missing(env, hops, node).Ok? && Wants(env, node, ref)
    ensures ref.sha in Missing(env, hops, node).value
  {
    hide Missing;
    var path :| IsTrail(env, path, node, ref);
    TrailIsMissing(env, hops, path);
  }

  // ------------------------------------------------------------- collecting it

  function ShasOf(report: seq<Absent>): set<Digest> {
    set k | 0 <= k < |report| :: report[k].sha
  }

  /** Each digest is reported once. */
  predicate Once(report: seq<Absent>) {
    forall j, k :: 0 <= j < k < |report| ==> report[j].sha != report[k].sha
  }

  /** What has been added to the report: wanted references that were not in it. */
  ghost predicate AddsWanted(env: Env, node: Node, before: seq<Absent>, after: seq<Absent>) {
    && before <= after && (Once(before) ==> Once(after))
    && forall k :: |before| <= k < |after| ==> Wants(env, node, RefNode(after[k].sha, after[k].claims))
  }

  lemma AddsThenAdds(env: Env, node: Node, n: Node, a: seq<Absent>, b: seq<Absent>, c: seq<Absent>)
    requires AddsWanted(env, node, a, b) && AddsWanted(env, n, b, c)
    requires forall ref :: Wants(env, n, ref) ==> Wants(env, node, ref)
    ensures AddsWanted(env, node, a, c)
  {
    hide Wants, Once;
    forall k | |a| <= k < |c|
      ensures Wants(env, node, RefNode(c[k].sha, c[k].claims))
    {
      if k < |b| {
        assert b[k] == c[k];
      }
    }
  }

  lemma NothingAdded(env: Env, node: Node, report: seq<Absent>)
    ensures AddsWanted(env, node, report, report)
  {
  }

  /** Go over a node and add what it misses to the report (`collect_missing`). */
  method CollectMissing(env: Env, hops: nat, node: Node, before: seq<Absent>) returns (fault: Option<Fault>, report: seq<Absent>)
    ensures fault.None? <==> Missing(env, hops, node).Ok?
    ensures fault.Some? ==> Missing(env, hops, node) == Err(fault.value)
    ensures AddsWanted(env, node, before, report)
    ensures fault.None? ==> ShasOf(report) == ShasOf(before) + Missing(env, hops, node).value
    decreases hops, node, 1
  {
    hide Wants, Resolve, Once, AddsWanted;
    fault, report := None, before;
    NothingAdded(env, node, before);
    match node {
      case RefNode(sha, claims) =>
        if sha !in env.blobs {
          report := AddRef(env, node, before);
        }
      case SourceNode(source) =>
        fault, report := CollectLinked(env, hops, node, source, before);
      case ExtractNode(archive, _, sha, _, _) =>
        if sha !in env.blobs {
          fault, report := CollectLinked(env, hops, node, archive, before);
        }
      case BuildNode(_, sha, _, _) =>
        if sha !in env.blobs {
          fault, report := CollectInputs(env, hops, node, before);
        }
      case _ =>
    }
  }

  method AddRef(env: Env, node: Node, before: seq<Absent>) returns (report: seq<Absent>)
    requires node.RefNode? && node.sha !in env.blobs
    ensures AddsWanted(env, node, before, report) && ShasOf(report) == ShasOf(before) + {node.sha}
  {
    WantsHere(env, node);
    report := before;
    if !exists k :: 0 <= k < |before| && before[k].sha == node.sha {
      report := before + [Absent(node.sha, node.claims)];
      assert report[|before|] == Absent(node.sha, node.claims);
    }
    forall d
      ensures d in ShasOf(report) <==> d in ShasOf(before) || d == node.sha
    {
      if d in ShasOf(before) {
        var k :| 0 <= k < |before| && before[k].sha == d;
        assert report[k].sha == d;
      }
    }
  }

  /** The next node is entry `s` of the table, wherever it resolves to. */
  method CollectLinked(env: Env, hops: nat, node: Node, s: nat, before: seq<Absent>) returns (fault: Option<Fault>, report: seq<Absent>)
    requires s < |env.sources| ==> LeadsTo(env, node, env.sources[s])
    ensures var n := ResolveIn(env.sources, SourceNode(s));
            var d := if n.Err? then Err(n.error) else if hops == 0 then Err(TooDeep) else Missing(env, hops - 1, n.value);
            && (fault.None? <==> d.Ok?) && (fault.Some? ==> d == Err(fault.value))
            && (fault.None? ==> ShasOf(report) == ShasOf(before) + d.value)
    ensures AddsWanted(env, node, before, report)
    decreases hops, node, 0, 0, 0
  {
    hide Wants, Resolve, LeadsTo, Once, Missing;
    var n := ResolveIn(env.sources, SourceNode(s));
    NothingAdded(env, node, before);
    if n.Err? {
      return Some(n.error), before;
    }
    if hops == 0 {
      return Some(TooDeep), before;
    }
    ResolvedInTable(env.sources, s);
    fault, report := CollectMissing(env, hops - 1, n.value, before);
    forall ref | Wants(env, n.value, ref)
      ensures Wants(env, node, ref)
    {
      WantsLinked(env, node, s, n.value, ref);
    }
    AddsThenAdds(env, node, n.value, before, before, report);
  }

  method CollectInputs(env: Env, hops: nat, node: Node, before: seq<Absent>) returns (fault: Option<Fault>, report: seq<Absent>)
    requires node.BuildNode? && node.sha !in env.blobs
    ensures fault.None? <==> MissingInputs(env, hops, node, 0).Ok?
    ensures fault.Some? ==> MissingInputs(env, hops, node, 0) == Err(fault.value)
    ensures fault.None? ==> ShasOf(report) == ShasOf(before) + MissingInputs(env, hops, node, 0).value
    ensures AddsWanted(env, node, before, report)
    decreases hops, node, 0, 1
  {
    hide Wants, Resolve, LeadsTo, Once, MissingInput, AddsWanted;
    fault, report := None, before;
    NothingAdded(env, node, before);
    for k := 0 to |node.inputs|
      invariant fault.None? && AddsWanted(env, node, before, report)
      invariant MissingInputs(env, hops, node, 0).Err? ==> MissingInputs(env, hops, node, 0) == MissingInputs(env, hops, node, k)
      invariant MissingInputs(env, hops, node, 0).Ok? ==>
                  && MissingInputs(env, hops, node, k).Ok?
                  && ShasOf(report) + MissingInputs(env, hops, node, k).value == ShasOf(before) + MissingInputs(env, hops, node, 0).value
    {
      ghost var so := report;
      fault, report := CollectInput(env, hops, node, k, report);
      AddsThenAdds(env, node, node, before, so, report);
      if fault.Some? {
        return;
      }
    }
  }

  /** One input: what it slices, or itself. */
  method CollectInput(env: Env, hops: nat, node: Node, k: nat, before: seq<Absent>) returns (fault: Option<Fault>, report: seq<Absent>)
    requires node.BuildNode? && node.sha !in env.blobs && k < |node.inputs|
    ensures fault.None? <==> MissingInput(env, hops, node.inputs[k]).Ok?
    ensures fault.Some? ==> MissingInput(env, hops, node.inputs[k]) == Err(fault.value)
    ensures fault.None? ==> ShasOf(report) == ShasOf(before) + MissingInput(env, hops, node.inputs[k]).value
    ensures AddsWanted(env, node, before, report)
    decreases hops, node, 0, 0, 1
  {
    hide Wants, Resolve, Once, AddsWanted, Missing;
    var input := node.inputs[k];
    match input {
      case SliceSource(source, _, _) =>
        if source < |env.sources| {
          assert Addresses(env, input, env.sources[source]);
        }
        fault, report := CollectLinked(env, hops, node, source, before);
      case SliceOf(of, _, _) =>
        fault, report := CollectInner(env, hops, node, k, of, before);
      case _ =>
        fault, report := CollectInner(env, hops, node, k, input, before);
    }
  }

  method CollectInner(env: Env, hops: nat, node: Node, ghost k: nat, inner: Node, before: seq<Absent>)
    returns (fault: Option<Fault>, report: seq<Absent>)
    requires node.BuildNode? && node.sha !in env.blobs && k < |node.inputs| && Addresses(env, node.inputs[k], inner) && inner < node
    ensures fault.None? <==> Missing(env, hops, inner).Ok?
    ensures fault.Some? ==> Missing(env, hops, inner) == Err(fault.value)
    ensures fault.None? ==> ShasOf(report) == ShasOf(before) + Missing(env, hops, inner).value
    ensures AddsWanted(env, node, before, report)
    decreases hops, node, 0, 0, 0
  {
    hide Wants, Resolve, Once, AddsWanted, Missing;
    fault, report := CollectMissing(env, hops, inner, before);
    forall ref | Wants(env, inner, ref)
      ensures Wants(env, node, ref)
    {
      WantsFurther(env, node, inner, ref);
    }
    NothingAdded(env, node, before);
    AddsThenAdds(env, node, inner, before, before, report);
  }
}
