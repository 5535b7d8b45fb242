/**
 What the verify pass changes and what it leaves alone: captures filled into a plan, and the
 record of which literal owns which span of the residue.
 */
module RecipeCapture {
  import opened Wrappers
  import opened ByteStrings
  import opened RecipePlan
  import opened RecipeTiling

  // ------------------------------------------------------------- the same plan, captures aside

  predicate SegLike(s: Seg, t: Seg) {
    s == t || (s.Gap? && t.Gap? && s.at == t.at && s.len == t.len)
  }

  predicate InputLike(a: PcInput, b: PcInput) {
    a == b || (a.Literal? && b.Literal? && a.spoolOff == b.spoolOff && a.len == b.len && a.inline == b.inline)
  }

  predicate InputsLike(a: seq<PcInput>, b: seq<PcInput>) {
    |a| == |b| && forall k :: 0 <= k < |a| ==> InputLike(a[k], b[k])
  }

  predicate NodeLike(a: PClusterNode, b: PClusterNode) {
    a.(inputs := []) == b.(inputs := []) && InputsLike(a.inputs, b.inputs)
  }

  predicate SegsLike(a: seq<Seg>, b: seq<Seg>) {
    |a| == |b| && forall k :: 0 <= k < |a| ==> SegLike(a[k], b[k])
  }

  predicate BuildLike(a: Build, b: Build) {
    a.(segs := []) == b.(segs := []) && SegsLike(a.segs, b.segs)
  }

  predicate NodesLike(a: seq<PClusterNode>, b: seq<PClusterNode>) {
    |a| == |b| && forall k :: 0 <= k < |a| ==> NodeLike(a[k], b[k])
  }

  predicate BuildsLike(a: map<nat, Build>, b: map<nat, Build>) {
    a.Keys == b.Keys && forall i :: i in a ==> BuildLike(a[i], b[i])
  }

  /** `q` is `p` with residue offsets and inline captures filled in, and nothing else. */
  predicate PlanLike(p: Plan, q: Plan) {
    && p.(builds := map[], pclusters := []) == q.(builds := map[], pclusters := [])
    && BuildsLike(p.builds, q.builds) && NodesLike(p.pclusters, q.pclusters)
  }

  lemma SegsLikeChains(a: seq<Seg>, b: seq<Seg>, c: seq<Seg>)
    requires SegsLike(a, b) && SegsLike(b, c)
    ensures SegsLike(a, c)
  {
  }

  lemma NodesLikeChains(a: seq<PClusterNode>, b: seq<PClusterNode>, c: seq<PClusterNode>)
    requires NodesLike(a, b) && NodesLike(b, c)
    ensures NodesLike(a, c)
  {
    forall k | 0 <= k < |a|
      ensures NodeLike(a[k], c[k])
    {
      assert NodeLike(a[k], b[k]) && NodeLike(b[k], c[k]);
    }
  }

  lemma BuildsLikeChains(a: map<nat, Build>, b: map<nat, Build>, c: map<nat, Build>)
    requires BuildsLike(a, b) && BuildsLike(b, c)
    ensures BuildsLike(a, c)
  {
    forall i | i in a
      ensures BuildLike(a[i], c[i])
    {
      assert i in a.Keys && i in b.Keys;
      SegsLikeChains(a[i].segs, b[i].segs, c[i].segs);
    }
  }

  lemma PlanLikeChains(p: Plan, q: Plan, r: Plan)
    requires PlanLike(p, q) && PlanLike(q, r)
    ensures PlanLike(p, r)
  {
    BuildsLikeChains(p.builds, q.builds, r.builds);
    NodesLikeChains(p.pclusters, q.pclusters, r.pclusters);
  }

  lemma {:induction false} TilesLike(a: seq<Seg>, b: seq<Seg>, pos: nat, size: nat)
    requires SegsLike(a, b) && Tiles(a, pos, size)
    ensures Tiles(b, pos, size)
  {
    if a != [] {
      assert SegLike(a[0], b[0]);
      forall k | 0 <= k < |a[1..]|
        ensures SegLike(a[1..][k], b[1..][k])
      {
        assert SegLike(a[k + 1], b[k + 1]);
      }
      TilesLike(a[1..], b[1..], a[0].End(), size);
    }
  }

  lemma {:induction false} InputsLikeBytes(a: seq<PcInput>, b: seq<PcInput>, truth: seq<Bytes>, literals: Bytes)
    requires InputsLike(a, b)
    ensures InputsBytes(a, truth, literals) == InputsBytes(b, truth, literals)
  {
    if a != [] {
      assert InputLike(a[0], b[0]);
      forall k | 0 <= k < |a[1..]|
        ensures InputLike(a[1..][k], b[1..][k])
      {
        assert InputLike(a[k + 1], b[k + 1]);
      }
      InputsLikeBytes(a[1..], b[1..], truth, literals);
    }
  }

  lemma SegLikeHolds(w: World, truth: seq<Bytes>, p: Plan, q: Plan, depth: nat, space: Bytes, bytes: Bytes, s: Seg, t: Seg)
    requires PlanLike(p, q) && SegLike(s, t) && SegHolds(w, truth, p, depth, space, bytes, s)
    ensures SegHolds(w, truth, q, depth, space, bytes, t)
  {
    if s.PCluster? {
      assert NodeLike(p.pclusters[s.pc], q.pclusters[s.pc]);
      InputsLikeBytes(p.pclusters[s.pc].inputs, q.pclusters[s.pc].inputs, truth, p.literals);
    }
  }

  lemma BuildLikeHolds(w: World, truth: seq<Bytes>, p: Plan, q: Plan, i: nat)
    requires PlanLike(p, q) && i in p.builds && i in q.builds && BuildHolds(w, truth, p, i, p.builds[i])
    ensures BuildHolds(w, truth, q, i, q.builds[i])
  {
    var a, b := p.builds[i], q.builds[i];
    assert BuildLike(a, b);
    TilesLike(a.segs, b.segs, 0, |truth[i]|);
    forall k | 0 <= k < |b.segs|
      ensures SegHolds(w, truth, q, w.members[i].depth, w.spaces[b.space], truth[i], b.segs[k])
    {
      assert SegLike(a.segs[k], b.segs[k]);
      SegLikeHolds(w, truth, p, q, w.members[i].depth, w.spaces[b.space], truth[i], a.segs[k], b.segs[k]);
    }
  }

  /** Filling in captures keeps a plan true. */
  lemma PlanLikeHolds(w: World, truth: seq<Bytes>, p: Plan, q: Plan)
    requires PlanHolds(w, truth, p) && PlanLike(p, q)
    ensures PlanHolds(w, truth, q)
  {
    forall i | i in q.builds
      ensures BuildHolds(w, truth, q, i, q.builds[i])
    {
      assert i in q.builds.Keys && i in p.builds;
      BuildLikeHolds(w, truth, p, q, i);
    }
  }

  // ------------------------------------------------------------- who owns which span

  datatype Owner = OfGap(build: nat, seg: nat) | OfLiteral(pc: nat, input: nat)

  /** `len` bytes of the residue at `off`, written for one literal. */
  datatype Span = Span(owner: Owner, off: nat, len: nat)

  /** The spans follow each other without a hole. */
  predicate Consecutive(log: seq<Span>, from: nat, to: nat) {
    if log == [] then from == to
    else log[0].off == from && Consecutive(log[1..], from + log[0].len, to)
  }

  lemma {:induction false} ConsecutiveAppend(log: seq<Span>, from: nat, to: nat, s: Span)
    requires Consecutive(log, from, to) && s.off == to
    ensures Consecutive(log + [s], from, to + s.len)
  {
    if log != [] {
      ConsecutiveAppend(log[1..], from + log[0].len, to, s);
      assert (log + [s])[1..] == log[1..] + [s];
    }
  }

  lemma {:induction false} ConsecutiveBounds(log: seq<Span>, from: nat, to: nat, k: nat)
    requires Consecutive(log, from, to) && k < |log|
    ensures from <= log[k].off && log[k].off + log[k].len <= to
  {
    if k > 0 {
      ConsecutiveBounds(log[1..], from + log[0].len, to, k - 1);
    } else if |log| > 1 {
      ConsecutiveBounds(log[1..], from + log[0].len, to, 0);
    }
  }

  /** Two entries of the log never share a byte. */
  lemma {:induction false} SpansAreDistinct(log: seq<Span>, from: nat, to: nat, j: nat, k: nat)
    requires Consecutive(log, from, to) && j < k < |log|
    ensures log[j].off + log[j].len <= log[k].off
  {
    if j > 0 {
      SpansAreDistinct(log[1..], from + log[0].len, to, j - 1, k - 1);
    } else {
      ConsecutiveBounds(log[1..], from + log[0].len, to, k - 1);
    }
  }

  // ------------------------------------------------------------- progress

  /** How far the verify pass has come. `seen` are the builds it has entered, `visited` the nodes
      it has finished, `log` what went into the residue and for whom. */
  datatype Progress = Progress(plan: Plan, residue: Bytes, seen: set<nat>, visited: set<nat>, log: seq<Span>)

  /** A gap reads back: inline when it is short, from the residue otherwise. */
  predicate GapCaptured(residue: Bytes, bytes: Bytes, s: Seg) {
    s.Gap? ==>
      && s.End() <= |bytes|
      && match s.inline
         case Some(b) => s.len <= INLINE_MAX && b == Cut(bytes, s.at, s.len)
         case None => s.len > INLINE_MAX && s.residueOff.Some? && Same(residue, s.residueOff.value, bytes, s.at, s.len)
  }

  /** The residue has what reading the literal's place in the spool gave. */
  predicate LiteralCaptured(residue: Bytes, p: Plan, x: PcInput) {
    x.Literal? && x.inline.None? ==>
      && x.residueOff.Some? && x.residueOff.value + x.len <= |residue|
      && ReadSpool(p, x.spoolOff, x.len) == Some(Cut(residue, x.residueOff.value, x.len))
  }

  /** Every literal input of node `pc` reads back, from a span of its own. */
  predicate NodeCaptured(v: Progress, pc: nat) {
    && pc < |v.plan.pclusters|
    && forall k :: 0 <= k < |v.plan.pclusters[pc].inputs| ==> InputCaptured(v, pc, k, v.plan.pclusters[pc].inputs[k])
  }

  predicate InputCaptured(v: Progress, pc: nat, k: nat, x: PcInput) {
    && LiteralCaptured(v.residue, v.plan, x)
    && (x.Literal? && x.inline.None? ==> Span(OfLiteral(pc, k), x.residueOff.value, x.len) in v.log)
  }

  /** Segment `k` of build `i` is done with. */
  predicate SegDone(truth: seq<Bytes>, v: Progress, i: nat, k: nat, s: Seg) {
    && i < |truth| && GapCaptured(v.residue, truth[i], s)
    && (s.Gap? && s.inline.None? ==> Span(OfGap(i, k), s.residueOff.value, s.len) in v.log)
    && (s.PCluster? ==> NodeCaptured(v, s.pc))
    && (s.Child? && Planned(v.plan, s.idx) ==> s.idx in v.visited)
  }

  predicate BuildDone(truth: seq<Bytes>, v: Progress, i: nat) {
    && i in v.plan.builds
    && forall k :: 0 <= k < |v.plan.builds[i].segs| ==> SegDone(truth, v, i, k, v.plan.builds[i].segs[k])
  }

  predicate NodeDone(v: Progress, x: nat) {
    if x in v.plan.compress then Planned(v.plan, v.plan.compress[x].child) ==> v.plan.compress[x].child in v.visited
    else x in v.plan.builds && x in v.seen
  }

  /** The log fills the residue, and no gap was captured twice. */
  predicate Logged(v: Progress) {
    && Consecutive(v.log, 0, |v.residue|)
    && (forall k :: 0 <= k < |v.log| && v.log[k].owner.OfGap? ==> v.log[k].owner.build in v.seen)
    && (forall j, k :: 0 <= j < k < |v.log| && v.log[j].owner.OfGap? ==> v.log[j].owner != v.log[k].owner)
  }

  /** Everything entered is done with, except the builds still open further up. */
  predicate Good(truth: seq<Bytes>, p0: Plan, open: set<nat>, v: Progress) {
    && PlanLike(p0, v.plan) && Logged(v)
    && (forall i :: i in v.seen && i !in open ==> BuildDone(truth, v, i))
    && (forall x :: x in v.visited ==> NodeDone(v, x))
    && Untouched(p0, v)
  }

  /** Builds not entered yet are as they were planned. */
  predicate Untouched(p0: Plan, v: Progress) {
    forall i :: i in v.plan.builds && i !in v.seen ==> i in p0.builds && v.plan.builds[i] == p0.builds[i]
  }

  /** From `u` to `v` nothing was undone: builds entered before `u` stay as they were, what was
      captured stays captured, and the residue and its log only grew. */
  predicate Later(u: Progress, v: Progress) {
    && PlanLike(u.plan, v.plan)
    && u.residue <= v.residue && u.seen <= v.seen && u.visited <= v.visited && u.log <= v.log
    && (forall i :: i in u.seen && i in u.plan.builds && i in v.plan.builds ==> v.plan.builds[i] == u.plan.builds[i])
    && (forall pc :: 0 <= pc < |u.plan.pclusters| && NodeCaptured(u, pc) ==> NodeCaptured(v, pc))
  }

  /** Gaps logged between `u` and `v` belong to builds entered since, or to one of `mine`. */
  predicate NewGaps(u: Progress, v: Progress, mine: set<nat>) {
    forall k :: |u.log| <= k < |v.log| && v.log[k].owner.OfGap? ==>
      v.log[k].owner.build !in u.seen || v.log[k].owner.build in mine
  }

  lemma LaterChains(u: Progress, v: Progress, x: Progress)
    requires Later(u, v) && Later(v, x)
    ensures Later(u, x)
  {
    PlanLikeChains(u.plan, v.plan, x.plan);
    forall i | i in u.seen && i in u.plan.builds && i in x.plan.builds
      ensures x.plan.builds[i] == u.plan.builds[i]
    {
      assert i in v.plan.builds.Keys && i in v.seen;
    }
  }

  lemma PlannedLike(p: Plan, q: Plan, i: nat)
    requires PlanLike(p, q)
    ensures (i in p.builds <==> i in q.builds) && p.compress == q.compress && (Planned(p, i) <==> Planned(q, i))
    ensures |p.pclusters| == |q.pclusters|
  {
    assert i in p.builds.Keys <==> i in q.builds.Keys;
  }

  lemma SegStaysDone(truth: seq<Bytes>, u: Progress, v: Progress, i: nat, k: nat, s: Seg)
    requires SegDone(truth, u, i, k, s) && Later(u, v)
    ensures SegDone(truth, v, i, k, s)
  {
    if s.Child? {
      PlannedLike(u.plan, v.plan, s.idx);
    }
    if s.Gap? && s.inline.None? {
      assert Cut(u.residue, s.residueOff.value, s.len) == Cut(v.residue, s.residueOff.value, s.len);
      assert Span(OfGap(i, k), s.residueOff.value, s.len) in v.log;
    }
  }

  lemma BuildStaysDone(truth: seq<Bytes>, u: Progress, v: Progress, i: nat)
    requires BuildDone(truth, u, i) && i in u.seen && Later(u, v)
    ensures BuildDone(truth, v, i)
  {
    PlannedLike(u.plan, v.plan, i);
    forall k | 0 <= k < |v.plan.builds[i].segs|
      ensures SegDone(truth, v, i, k, v.plan.builds[i].segs[k])
    {
      SegStaysDone(truth, u, v, i, k, u.plan.builds[i].segs[k]);
    }
  }

  lemma NodeStaysDone(u: Progress, v: Progress, x: nat)
    requires NodeDone(u, x) && Later(u, v)
    ensures NodeDone(v, x)
  {
    PlannedLike(u.plan, v.plan, x);
    if x in u.plan.compress {
      PlannedLike(u.plan, v.plan, u.plan.compress[x].child);
    }
  }

  /** A step that undoes nothing keeps everything entered so far done with. */
  lemma GoodLater(truth: seq<Bytes>, p0: Plan, open: set<nat>, u: Progress, v: Progress)
    requires Good(truth, p0, open, u) && Later(u, v) && Logged(v) && Untouched(p0, v)
    requires v.seen == u.seen
    requires forall x :: x in v.visited && x !in u.visited ==> NodeDone(v, x)
    ensures Good(truth, p0, open, v)
  {
    PlanLikeChains(p0, u.plan, v.plan);
    forall i | i in v.seen && i !in open
      ensures BuildDone(truth, v, i)
    {
      BuildStaysDone(truth, u, v, i);
    }
    forall x | x in v.visited
      ensures NodeDone(v, x)
    {
      if x in u.visited {
        NodeStaysDone(u, v, x);
      }
    }
  }

  /** A plan is like itself. */
  lemma PlanLikeItself(p: Plan)
    ensures PlanLike(p, p)
  {
  }

  lemma NowVisited(truth: seq<Bytes>, p0: Plan, open: set<nat>, u: Progress, i: nat)
    requires Good(truth, p0, open, u) && NodeDone(u, i)
    ensures Good(truth, p0, open, u.(visited := u.visited + {i})) && Later(u, u.(visited := u.visited + {i}))
  {
    var v := u.(visited := u.visited + {i});
    PlanLikeItself(u.plan);
    forall pc | 0 <= pc < |u.plan.pclusters| && NodeCaptured(u, pc)
      ensures NodeCaptured(v, pc)
    {
      assert forall k :: 0 <= k < |u.plan.pclusters[pc].inputs| ==> InputCaptured(u, pc, k, u.plan.pclusters[pc].inputs[k]);
    }
    GoodLater(truth, p0, open, u, v);
  }

  /** A build is entered: open from now on. */
  lemma NowEntered(truth: seq<Bytes>, p0: Plan, open: set<nat>, u: Progress, i: nat)
    requires Good(truth, p0, open, u) && i !in u.seen
    ensures Good(truth, p0, open + {i}, u.(seen := u.seen + {i})) && Later(u, u.(seen := u.seen + {i}))
  {
    var v := u.(seen := u.seen + {i});
    PlanLikeItself(u.plan);
    forall pc | 0 <= pc < |u.plan.pclusters| && NodeCaptured(u, pc)
      ensures NodeCaptured(v, pc)
    {
      assert forall k :: 0 <= k < |u.plan.pclusters[pc].inputs| ==> InputCaptured(u, pc, k, u.plan.pclusters[pc].inputs[k]);
    }
    forall j | j in v.seen && j !in open + {i}
      ensures BuildDone(truth, v, j)
    {
      BuildStaysDone(truth, u, v, j);
    }
    forall x | x in v.visited
      ensures NodeDone(v, x)
    {
      NodeStaysDone(u, v, x);
    }
  }

  // ------------------------------------------------------------- one capture

  /** No gap of build `i` from segment `k` on has been logged. */
  predicate GapsBefore(log: seq<Span>, i: nat, k: nat) {
    forall n :: 0 <= n < |log| && log[n].owner.OfGap? && log[n].owner.build == i ==> log[n].owner.seg < k
  }

  /** `u` with `bytes` written to the residue for `owner`. */
  function Wrote(u: Progress, owner: Owner, bytes: Bytes): Progress {
    u.(residue := u.residue + bytes, log := u.log + [Span(owner, |u.residue|, |bytes|)])
  }

  lemma NodesStayCaptured(u: Progress, owner: Owner, bytes: Bytes, pc: nat)
    requires NodeCaptured(u, pc)
    ensures NodeCaptured(Wrote(u, owner, bytes), pc)
  {
    var v := Wrote(u, owner, bytes);
    forall k | 0 <= k < |u.plan.pclusters[pc].inputs|
      ensures InputCaptured(v, pc, k, v.plan.pclusters[pc].inputs[k])
    {
      InputStaysCaptured(u, v, pc, k, u.plan.pclusters[pc].inputs[k]);
    }
  }

  lemma InputStaysCaptured(u: Progress, v: Progress, pc: nat, k: nat, x: PcInput)
    requires InputCaptured(u, pc, k, x)
    requires u.residue <= v.residue && u.log <= v.log && u.plan.literals == v.plan.literals && u.plan.drops == v.plan.drops
    ensures InputCaptured(v, pc, k, x)
  {
    if x.Literal? && x.inline.None? {
      assert Cut(u.residue, x.residueOff.value, x.len) == Cut(v.residue, x.residueOff.value, x.len);
    }
  }

  /** Writing one span keeps the log in order. */
  lemma WriteKeepsLog(u: Progress, owner: Owner, bytes: Bytes)
    requires Logged(u)
    requires owner.OfGap? ==> owner.build in u.seen && GapsBefore(u.log, owner.build, owner.seg)
    ensures Logged(Wrote(u, owner, bytes))
    ensures Span(owner, |u.residue|, |bytes|) in Wrote(u, owner, bytes).log
    ensures Same(Wrote(u, owner, bytes).residue, |u.residue|, bytes, 0, |bytes|)
  {
    ConsecutiveAppend(u.log, 0, |u.residue|, Span(owner, |u.residue|, |bytes|));
    var v := Wrote(u, owner, bytes);
    assert v.log[|u.log|] == Span(owner, |u.residue|, |bytes|);
    assert Cut(v.residue, |u.residue|, |bytes|) == bytes == Cut(bytes, 0, |bytes|);
  }

  lemma WroteLater(u: Progress, owner: Owner, bytes: Bytes)
    ensures Later(u, Wrote(u, owner, bytes))
  {
    PlanLikeItself(u.plan);
    forall pc | 0 <= pc < |u.plan.pclusters| && NodeCaptured(u, pc)
      ensures NodeCaptured(Wrote(u, owner, bytes), pc)
    {
      NodesStayCaptured(u, owner, bytes, pc);
    }
  }

  /** A gap of the open build `i` was written to the residue. */
  lemma GapWritten(truth: seq<Bytes>, p0: Plan, open: set<nat>, u: Progress, i: nat, k: nat, s: Seg)
    requires Good(truth, p0, open, u) && i in u.seen && GapsBefore(u.log, i, k)
    requires i < |truth| && s.Gap? && s.inline.None? && s.len > INLINE_MAX && s.End() <= |truth[i]|
    ensures var v, t := Wrote(u, OfGap(i, k), Cut(truth[i], s.at, s.len)), s.(residueOff := Some(|u.residue|));
            Good(truth, p0, open, v) && Later(u, v) && GapsBefore(v.log, i, k + 1) && SegDone(truth, v, i, k, t)
  {
    var v := Wrote(u, OfGap(i, k), Cut(truth[i], s.at, s.len));
    WriteKeepsLog(u, OfGap(i, k), Cut(truth[i], s.at, s.len));
    WroteLater(u, OfGap(i, k), Cut(truth[i], s.at, s.len));
    GoodLater(truth, p0, open, u, v);
  }

  /** `u` with the literals of node `pc` captured as `done`. */
  function Spilled(u: Progress, v: Progress, pc: nat, done: seq<PcInput>): Progress
    requires pc < |v.plan.pclusters|
  {
    var pcs := v.plan.pclusters;
    v.(plan := v.plan.(pclusters := pcs[pc := pcs[pc].(inputs := done)]))
  }

  /** The first inputs of node `pc` are captured, one after another. */
  predicate Spilling(u: Progress, v: Progress, pc: nat, done: seq<PcInput>) {
    && pc < |u.plan.pclusters| && |done| <= |u.plan.pclusters[pc].inputs|
    && v == u.(residue := v.residue, log := v.log) && u.residue <= v.residue && u.log <= v.log
    && Logged(v) && NewGaps(u, v, {})
    && (forall k :: 0 <= k < |done| ==> InputLike(u.plan.pclusters[pc].inputs[k], done[k]) && InputCaptured(v, pc, k, done[k]))
  }

  /** An input that carries its own bytes needs no capture. */
  lemma InputPassed(u: Progress, v: Progress, pc: nat, done: seq<PcInput>)
    requires Spilling(u, v, pc, done) && |done| < |u.plan.pclusters[pc].inputs|
    requires var x := u.plan.pclusters[pc].inputs[|done|]; !(x.Literal? && x.inline.None?)
    ensures Spilling(u, v, pc, done + [u.plan.pclusters[pc].inputs[|done|]])
  {
  }

  lemma ReadLength(p: Plan, off: nat, len: nat)
    ensures ReadSpool(p, off, len).Some? ==> |ReadSpool(p, off, len).value| == len
  {
  }

  lemma InputWritten(u: Progress, v: Progress, pc: nat, done: seq<PcInput>)
    requires Spilling(u, v, pc, done) && |done| < |u.plan.pclusters[pc].inputs|
    requires var x := u.plan.pclusters[pc].inputs[|done|];
             x.Literal? && x.inline.None? && ReadSpool(u.plan, x.spoolOff, x.len).Some?
    ensures var x := u.plan.pclusters[pc].inputs[|done|];
            Spilling(u, Wrote(v, OfLiteral(pc, |done|), ReadSpool(u.plan, x.spoolOff, x.len).value), pc,
                     done + [x.(residueOff := Some(|v.residue|))])
  {
    hide ReadSpool;
    var x := u.plan.pclusters[pc].inputs[|done|];
    var owner, bytes := OfLiteral(pc, |done|), ReadSpool(u.plan, x.spoolOff, x.len).value;
    ReadLength(u.plan, x.spoolOff, x.len);
    var y := Wrote(v, owner, bytes);
    WriteKeepsLog(v, owner, bytes);
    assert Cut(bytes, 0, |bytes|) == bytes;
    forall k | 0 <= k < |done|
      ensures InputCaptured(y, pc, k, done[k])
    {
      InputStaysCaptured(v, y, pc, k, done[k]);
    }
  }

  lemma NodeSpilled(truth: seq<Bytes>, p0: Plan, open: set<nat>, u: Progress, v: Progress, pc: nat, done: seq<PcInput>)
    requires Good(truth, p0, open, u) && Spilling(u, v, pc, done) && |done| == |u.plan.pclusters[pc].inputs|
    ensures var x := Spilled(u, v, pc, done);
            Good(truth, p0, open, x) && Later(u, x) && NodeCaptured(x, pc) && NewGaps(u, x, {})
  {
    var x := Spilled(u, v, pc, done);
    assert NodesLike(u.plan.pclusters, x.plan.pclusters);
    assert BuildsLike(u.plan.builds, x.plan.builds);
    assert NodeCaptured(x, pc) by {
      forall k | 0 <= k < |done|
        ensures InputCaptured(x, pc, k, done[k])
      {
        InputStaysCaptured(v, x, pc, k, done[k]);
      }
    }
    forall n | 0 <= n < |u.plan.pclusters| && NodeCaptured(u, n)
      ensures NodeCaptured(x, n)
    {
      if n != pc {
        OtherStaysCaptured(u, x, n);
      }
    }
    GoodLater(truth, p0, open, u, x);
  }

  lemma OtherStaysCaptured(u: Progress, x: Progress, n: nat)
    requires NodeCaptured(u, n) && n < |x.plan.pclusters| && x.plan.pclusters[n] == u.plan.pclusters[n]
    requires u.residue <= x.residue && u.log <= x.log && u.plan.literals == x.plan.literals && u.plan.drops == x.plan.drops
    ensures NodeCaptured(x, n)
  {
    forall k | 0 <= k < |u.plan.pclusters[n].inputs|
      ensures InputCaptured(x, n, k, x.plan.pclusters[n].inputs[k])
    {
      InputStaysCaptured(u, x, n, k, u.plan.pclusters[n].inputs[k]);
    }
  }

  // ------------------------------------------------------------- closing a build

  /** The first segments of the open build `i` are done with: `done` is what they became and
      `hashed` the bytes they stand for. */
  predicate Splicing(truth: seq<Bytes>, p0: Plan, open: set<nat>, was: Progress, v: Progress, i: nat, done: seq<Seg>, hashed: Bytes) {
    && i < |truth| && i in v.seen && i !in was.seen && i !in open && i in v.plan.builds && i in p0.builds
    && v.plan.builds[i] == p0.builds[i]
    && Good(truth, p0, open + {i}, v) && Later(was, v) && NewGaps(was, v, {})
    && |done| <= |p0.builds[i].segs| && GapsBefore(v.log, i, |done|)
    && |hashed| <= |truth[i]| && hashed == truth[i][..|hashed|]
    && Tiles(p0.builds[i].segs[|done|..], |hashed|, |truth[i]|)
    && (forall k :: 0 <= k < |done| ==> SegLike(p0.builds[i].segs[k], done[k]) && SegDone(truth, v, i, k, done[k]))
  }

  /** What one segment's step has to deliver. */
  predicate SegStep(truth: seq<Bytes>, p0: Plan, open: set<nat>, u: Progress, v: Progress, i: nat, k: nat, t: Seg, piece: Bytes)
    requires i in p0.builds && k < |p0.builds[i].segs|
  {
    var s := p0.builds[i].segs[k];
    && Good(truth, p0, open + {i}, v) && Later(u, v) && NewGaps(u, v, {i}) && GapsBefore(v.log, i, k + 1)
    && SegLike(s, t) && SegDone(truth, v, i, k, t)
    && i < |truth| && s.End() <= |truth[i]| && piece == Cut(truth[i], s.at, s.len)
  }

  lemma SegSpliced(truth: seq<Bytes>, p0: Plan, open: set<nat>, was: Progress, u: Progress, v: Progress, i: nat,
                   done: seq<Seg>, hashed: Bytes, t: Seg, piece: Bytes)
    requires Splicing(truth, p0, open, was, u, i, done, hashed) && |done| < |p0.builds[i].segs|
    requires SegStep(truth, p0, open, u, v, i, |done|, t, piece)
    ensures Splicing(truth, p0, open, was, v, i, done + [t], hashed + piece)
  {
    hide Good, PlanLike, NodeCaptured, SegDone, NewGaps;
    var segs := p0.builds[i].segs;
    LaterChains(was, u, v);
    PlannedLike(u.plan, v.plan, i);
    NewGapsOfStep(was, u, v, i);
    assert segs[|done|..][0] == segs[|done|] && segs[|done|..][1..] == segs[|done| + 1..];
    forall k | 0 <= k < |done|
      ensures SegDone(truth, v, i, k, done[k])
    {
      SegStaysDone(truth, u, v, i, k, done[k]);
    }
  }

  lemma NewGapsOfStep(was: Progress, u: Progress, v: Progress, i: nat)
    requires Later(was, u) && Later(u, v) && NewGaps(was, u, {}) && NewGaps(u, v, {i}) && i !in was.seen
    ensures NewGaps(was, v, {})
  {
    forall k | |was.log| <= k < |v.log| && v.log[k].owner.OfGap?
      ensures v.log[k].owner.build !in was.seen
    {
      assert k < |u.log| ==> v.log[k] == u.log[k];
    }
  }

  /** The last segment is done with, and the build goes back into the plan. */
  lemma BuildClosed(truth: seq<Bytes>, p0: Plan, open: set<nat>, was: Progress, u: Progress, i: nat, done: seq<Seg>, hashed: Bytes)
    requires Splicing(truth, p0, open, was, u, i, done, hashed) && |done| == |p0.builds[i].segs|
    ensures var v := u.(plan := u.plan.(builds := u.plan.builds[i := p0.builds[i].(segs := done)]));
            Good(truth, p0, open, v) && Later(was, v) && NewGaps(was, v, {})
  {
    hide PlanLike, NodeCaptured;
    var v := u.(plan := u.plan.(builds := u.plan.builds[i := p0.builds[i].(segs := done)]));
    ClosedLike(u.plan, v.plan, i, p0.builds[i], done);
    PlanLikeChains(p0, u.plan, v.plan);
    PlanLikeChains(was.plan, u.plan, v.plan);
    PlannedLike(was.plan, u.plan, i);
    forall pc | 0 <= pc < |u.plan.pclusters| && NodeCaptured(u, pc)
      ensures NodeCaptured(v, pc)
    {
      OtherStaysCaptured(u, v, pc);
    }
    forall j | j in v.seen && j !in open
      ensures BuildDone(truth, v, j)
    {
      BuildDoneAfterClosing(truth, p0, u, v, i, j, done);
    }
  }

  lemma ClosedLike(p: Plan, q: Plan, i: nat, b: Build, done: seq<Seg>)
    requires i in p.builds && p.builds[i] == b && q == p.(builds := p.builds[i := b.(segs := done)])
    requires SegsLike(b.segs, done)
    ensures PlanLike(p, q)
  {
    assert BuildLike(b, q.builds[i]);
    assert NodesLike(p.pclusters, q.pclusters);
  }

  lemma BuildDoneAfterClosing(truth: seq<Bytes>, p0: Plan, u: Progress, v: Progress, i: nat, j: nat, done: seq<Seg>)
    requires i in p0.builds && i in u.plan.builds && v == u.(plan := u.plan.(builds := u.plan.builds[i := p0.builds[i].(segs := done)]))
    requires forall pc :: 0 <= pc < |u.plan.pclusters| && NodeCaptured(u, pc) ==> NodeCaptured(v, pc)
    requires forall k :: 0 <= k < |done| ==> SegDone(truth, u, i, k, done[k])
    requires j != i ==> BuildDone(truth, u, j)
    ensures BuildDone(truth, v, j)
  {
    forall k | 0 <= k < |v.plan.builds[j].segs|
      ensures SegDone(truth, v, j, k, v.plan.builds[j].segs[k])
    {
      assert SegDone(truth, u, j, k, v.plan.builds[j].segs[k]);
    }
  }

  // ------------------------------------------------------------- the residue as a whole

  /** Literals of different owners never share a residue byte, and a gap has one entry: a build that
      is reachable twice was captured once. */
  lemma LiteralsDoNotShare(v: Progress, j: nat, k: nat)
    requires Logged(v) && j < |v.log| && k < |v.log| && j != k
    ensures v.log[j].owner.OfGap? ==> v.log[j].owner != v.log[k].owner
    ensures v.log[j].off + v.log[j].len <= v.log[k].off || v.log[k].off + v.log[k].len <= v.log[j].off
    ensures v.log[j].off + v.log[j].len <= |v.residue|
  {
    ConsecutiveBounds(v.log, 0, |v.residue|, j);
    if j < k {
      SpansAreDistinct(v.log, 0, |v.residue|, j, k);
    } else {
      SpansAreDistinct(v.log, 0, |v.residue|, k, j);
    }
  }

  /** No byte of the residue is there for nothing: every one lies in some literal's span. */
  lemma {:induction false} ResidueIsFilled(log: seq<Span>, from: nat, to: nat, x: nat)
    requires Consecutive(log, from, to) && from <= x < to
    ensures exists k :: 0 <= k < |log| && log[k].off <= x < log[k].off + log[k].len
  {
    if x >= from + log[0].len {
      ResidueIsFilled(log[1..], from + log[0].len, to, x);
      var k :| 0 <= k < |log[1..]| && log[1..][k].off <= x < log[1..][k].off + log[1..][k].len;
      assert log[k + 1] == log[1..][k];
    }
  }
}
