/**
 Fetchability is honest: planning collapses whatever the indexes do not verify into literals, so
 every reference a document makes states where its bytes can be fetched.
 */
module RecipeClaims {
  import opened Wrappers
  import opened ByteStrings
  import opened RecipePlan
  import opened RecipeTree
  import opened RecipeCapture
  import opened RecipeDocument

  /** Every reference in the node carries at least one claim. */
  predicate RefsLead(node: Node) {
    match node
    case RefNode(_, claims) => claims != []
    case BuildNode(_, _, _, inputs) => forall k :: 0 <= k < |inputs| ==> RefsLead(inputs[k])
    case SliceOf(of, _, _) => RefsLead(of)
    case _ => true
  }

  predicate AllLead(nodes: seq<Node>) {
    forall k :: 0 <= k < |nodes| ==> RefsLead(nodes[k])
  }

  /** Captures aside, `q` is the sound plan `p`. */
  ghost predicate Descended(w: World, truth: seq<Bytes>, p: Plan, q: Plan) {
    Sound(w, truth, p) && PlanLike(p, q) && Descends(w, q)
  }

  lemma {:induction false} NodeLeads(w: World, truth: seq<Bytes>, p: Plan, q: Plan, t: Tables, i: nat, node: Node)
    requires Descended(w, truth, p, q) && i < |w.members| && Fetchable(w, p, i)
    requires NodeJson(w, q, t, i) == Some(node)
    ensures RefsLead(node)
    decreases Below(w, i), 1
  {
    hide PlanHolds, BuildsLike, NodesLike;
    EntriesLike(p, q, i);
    if i in q.extracts {
    } else if i in q.compress {
      assert EntryRefers(p, i, q.compress[i].child);
      NodeLeads(w, truth, p, q, t, q.compress[i].child, node.inputs[0]);
    } else if i in q.builds {
      SegsLead(w, truth, p, q, t, i, 0);
    }
  }

  lemma EntriesLike(p: Plan, q: Plan, i: nat)
    requires PlanLike(p, q)
    ensures p.extracts == q.extracts && p.compress == q.compress && (i in p.builds <==> i in q.builds)
    ensures i in q.builds ==> BuildLike(p.builds[i], q.builds[i])
  {
    assert i in p.builds.Keys <==> i in q.builds.Keys;
  }

  lemma {:induction false} SegsLead(w: World, truth: seq<Bytes>, p: Plan, q: Plan, t: Tables, i: nat, k: nat)
    requires Descended(w, truth, p, q) && i < |w.members| && i in q.builds && k <= |q.builds[i].segs|
    ensures SegsJson(w, q, t, i, k).Some? ==> AllLead(SegsJson(w, q, t, i, k).value)
    decreases Below(w, i), 0, |q.builds[i].segs| - k
  {
    hide PlanHolds, Rooted, BuildsLike, NodesLike;
    if k < |q.builds[i].segs| {
      var s := q.builds[i].segs[k];
      SegsLead(w, truth, p, q, t, i, k + 1);
      if s.Child? && NodeJson(w, q, t, s.idx).Some? {
        ChildLeads(w, truth, p, q, i, k);
        NodeLeads(w, truth, p, q, t, s.idx, NodeJson(w, q, t, s.idx).value);
      }
      if s.PCluster? && s.pc < |q.pclusters| {
        InputsLead(w, t, q.pclusters[s.pc].inputs);
      }
    }
  }

  lemma ChildLeads(w: World, truth: seq<Bytes>, p: Plan, q: Plan, i: nat, k: nat)
    requires Descended(w, truth, p, q) && i in q.builds && k < |q.builds[i].segs| && q.builds[i].segs[k].Child?
    ensures Fetchable(w, p, q.builds[i].segs[k].idx)
  {
    hide PlanHolds;
    EntriesLike(p, q, i);
    assert SegLike(p.builds[i].segs[k], q.builds[i].segs[k]);
    assert EntryRefers(p, i, q.builds[i].segs[k].idx);
  }

  lemma {:induction false} InputsLead(w: World, t: Tables, inputs: seq<PcInput>)
    ensures InputsJson(w, t, inputs).Some? ==> AllLead(InputsJson(w, t, inputs).value)
  {
    if inputs != [] {
      InputsLead(w, t, inputs[1..]);
    }
  }
}
