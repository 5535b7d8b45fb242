/** Putting the member table together from the pool's slots, and what containers add up to. */
module MemberReport {
  import opened Wrappers
  import opened MemberTree
  import opened MemberListing

  // ------------------------------------------------------------- dropping abandoned slots

  predicate Alive(slots: seq<Option<Member>>, dead: seq<nat>, s: nat)
    requires s < |slots|
  {
    slots[s].Some? && s !in dead
  }

  /** How many slots before `n` survive. */
  function Survivors(slots: seq<Option<Member>>, dead: seq<nat>, n: nat): (r: nat)
    requires n <= |slots|
    ensures r <= n
  {
    if n == 0 then 0 else Survivors(slots, dead, n - 1) + (if Alive(slots, dead, n - 1) then 1 else 0)
  }

  /** A survivor's parent sits before it and survives too. */
  predicate ParentSurvives(slots: seq<Option<Member>>, dead: seq<nat>, s: nat)
    requires s < |slots| && Alive(slots, dead, s)
  {
    slots[s].value.parent.Some? ==> slots[s].value.parent.value < s && Alive(slots, dead, slots[s].value.parent.value)
  }

  /** A survivor as it stands in the compacted table. */
  function Moved(slots: seq<Option<Member>>, dead: seq<nat>, s: nat): Member
    requires s < |slots| && Alive(slots, dead, s) && ParentSurvives(slots, dead, s)
  {
    var m := slots[s].value;
    match m.parent
    case None => m.(fs := true)
    case Some(p) => m.(parent := Some(Survivors(slots, dead, p)))
  }

  lemma {:induction false} SurvivorsRise(slots: seq<Option<Member>>, dead: seq<nat>, a: nat, b: nat)
    requires a <= b <= |slots|
    ensures Survivors(slots, dead, a) <= Survivors(slots, dead, b)
    ensures a < b && Alive(slots, dead, a) ==> Survivors(slots, dead, a) < Survivors(slots, dead, b)
  {
    if a < b {
      SurvivorsRise(slots, dead, a, b - 1);
    }
  }

  /** Every survivor renumbered into the table at the count of survivors before it. */
  predicate Compacted(slots: seq<Option<Member>>, dead: seq<nat>, n: nat, members: seq<Member>)
    requires n <= |slots|
  {
    && |members| == Survivors(slots, dead, n)
    && forall s :: 0 <= s < n && Alive(slots, dead, s) ==>
         && ParentSurvives(slots, dead, s) && Survivors(slots, dead, s) < |members|
         && members[Survivors(slots, dead, s)] == Moved(slots, dead, s)
  }

  /** `compact_members`; nothing where a survivor's parent was discarded, which the discarding of whole
      subtrees rules out. */
  method CompactMembers(slots: seq<Option<Member>>, dead: seq<nat>) returns (r: Option<seq<Member>>)
    ensures r.Some? <==> forall s :: 0 <= s < |slots| && Alive(slots, dead, s) ==> ParentSurvives(slots, dead, s)
    ensures r.Some? ==> Compacted(slots, dead, |slots|, r.value)
  {
    var members: seq<Member> := [];
    var remap: seq<Option<nat>> := [];
    var s := 0;
    while s < |slots|
      invariant 0 <= s <= |slots| == |slots| && |remap| == s && Compacted(slots, dead, s, members)
      invariant forall t :: 0 <= t < s ==> remap[t] == if Alive(slots, dead, t) then Some(Survivors(slots, dead, t)) else None
    {
      if Alive(slots, dead, s) {
        var m := slots[s].value;
        if m.parent.Some? && (m.parent.value >= s || remap[m.parent.value].None?) {
          assert !ParentSurvives(slots, dead, s);
          return None;
        }
        var parent := if m.parent.Some? then remap[m.parent.value] else None;
        OneMoreSurvivor(slots, dead, s, members);
        members := members + [m.(parent := parent, fs := m.fs || parent.None?)];
        remap := remap + [Some(|members| - 1)];
      } else {
        remap := remap + [None];
      }
      s := s + 1;
    }
    r := Some(members);
  }

  lemma OneMoreSurvivor(slots: seq<Option<Member>>, dead: seq<nat>, s: nat, members: seq<Member>)
    requires s < |slots| && Compacted(slots, dead, s, members) && Alive(slots, dead, s) && ParentSurvives(slots, dead, s)
    ensures Compacted(slots, dead, s + 1, members + [Moved(slots, dead, s)])
  {
    hide Moved, ParentSurvives;
  }

  lemma {:induction false} SurvivorAt(slots: seq<Option<Member>>, dead: seq<nat>, n: nat, k: nat) returns (s: nat)
    requires n <= |slots| && k < Survivors(slots, dead, n)
    ensures s < n && Alive(slots, dead, s) && Survivors(slots, dead, s) == k
  {
    if Alive(slots, dead, n - 1) && Survivors(slots, dead, n - 1) == k {
      s := n - 1;
    } else {
      s := SurvivorAt(slots, dead, n - 1, k);
    }
  }

  /** If the survivors stood in a tree, so does the compacted table. */
  lemma CompactedIsTree(slots: seq<Option<Member>>, dead: seq<nat>, members: seq<Member>)
    requires Compacted(slots, dead, |slots|, members)
    requires forall s :: 0 <= s < |slots| && Alive(slots, dead, s) ==> StandsUnder(slots, dead, s)
    ensures Tree(members)
  {
    hide Survivors;
    forall k | 0 <= k < |members|
      ensures Rooted(members, k)
    {
      var s := SurvivorAt(slots, dead, |slots|, k);
      assert StandsUnder(slots, dead, s);
      if slots[s].value.parent.Some? {
        var p := slots[s].value.parent.value;
        SurvivorsRise(slots, dead, p, s);
        assert members[Survivors(slots, dead, p)] == Moved(slots, dead, p);
      }
    }
  }

  /** A survivor one level below its parent, or a root at level zero. */
  predicate StandsUnder(slots: seq<Option<Member>>, dead: seq<nat>, s: nat)
    requires s < |slots| && Alive(slots, dead, s)
  {
    ParentSurvives(slots, dead, s) &&
    match slots[s].value.parent
    case None => slots[s].value.depth == 0
    case Some(p) => slots[s].value.depth == slots[p].value.depth + 1
  }

  // ------------------------------------------------------------- rollups

  datatype Class = Identified | Consistent | Membership | Unknown | Floor | Node

  datatype Rollup = Rollup(total: nat, known: nat, unknown: nat, floor: nat)

  function Plus(r: Rollup, c: Class): Rollup {
    match c
    case Unknown => Rollup(r.total + 1, r.known, r.unknown + 1, r.floor)
    case Floor => Rollup(r.total + 1, r.known, r.unknown, r.floor + 1)
    case _ => Rollup(r.total + 1, r.known + 1, r.unknown, r.floor)
  }

  /** A member that counts: no container, and with a bytestream of its own. */
  predicate Counts(ms: seq<Member>, classes: seq<Class>, x: nat)
    requires |classes| == |ms| && x < |ms|
  {
    ms[x].facts.children == 0 && !classes[x].Node?
  }

  /** What container `p` adds up to over the first `n` members: every leaf under it, at any depth, once. */
  function Sum(ms: seq<Member>, classes: seq<Class>, p: nat, n: nat): Rollup
    requires Tree(ms) && |classes| == |ms| && n <= |ms|
  {
    if n == 0 then Rollup(0, 0, 0, 0)
    else if Counts(ms, classes, n - 1) && n - 1 != p && Descends(ms, n - 1, p) then Plus(Sum(ms, classes, p, n - 1), classes[n - 1])
    else Sum(ms, classes, p, n - 1)
  }

  /** The leaves under container `p` among the first `n` members whose class is one of `of`. */
  function Leaves(ms: seq<Member>, classes: seq<Class>, p: nat, n: nat, of: set<Class>): set<nat>
    requires Tree(ms) && |classes| == |ms| && n <= |ms|
  {
    set x: nat | x < n && Counts(ms, classes, x) && x != p && Descends(ms, x, p) && classes[x] in of
  }

  lemma OneLeafMore(ms: seq<Member>, classes: seq<Class>, p: nat, n: nat, of: set<Class>)
    requires Tree(ms) && |classes| == |ms| && 0 < n <= |ms|
    ensures var x := n - 1;
            |Leaves(ms, classes, p, n, of)|
            == |Leaves(ms, classes, p, x, of)| + if Counts(ms, classes, x) && x != p && Descends(ms, x, p) && classes[x] in of then 1 else 0
  {
    hide Tree, Counts, Descends;
    var x, was := n - 1, Leaves(ms, classes, p, n - 1, of);
    assert Leaves(ms, classes, p, n, of) == if Counts(ms, classes, x) && x != p && Descends(ms, x, p) && classes[x] in of then was + {x} else was;
  }

  lemma NoLeaves(ms: seq<Member>, classes: seq<Class>, p: nat)
    requires Tree(ms) && |classes| == |ms|
    ensures forall of :: Leaves(ms, classes, p, 0, of) == {}
  {
  }

  /** The tallies are how many leaves there are of each kind: what was found by any means is known. */
  lemma {:induction false} SumAddsUp(ms: seq<Member>, classes: seq<Class>, p: nat, n: nat)
    requires Tree(ms) && |classes| == |ms| && n <= |ms|
    ensures var r := Sum(ms, classes, p, n);
            && r.known == |Leaves(ms, classes, p, n, {Identified, Consistent, Membership})|
            && r.unknown == |Leaves(ms, classes, p, n, {Unknown})| && r.floor == |Leaves(ms, classes, p, n, {Floor})|
            && r.total == r.known + r.unknown + r.floor
  {
    hide Leaves, Tree, Descends;
    if n == 0 {
      NoLeaves(ms, classes, p);
    } else {
      SumAddsUp(ms, classes, p, n - 1);
      OneLeafMore(ms, classes, p, n, {Identified, Consistent, Membership});
      OneLeafMore(ms, classes, p, n, {Unknown});
      OneLeafMore(ms, classes, p, n, {Floor});
    }
  }

  /** The tallies while leaf `x` climbs, having reached `up`: those between are done. */
  predicate Climbing(ms: seq<Member>, classes: seq<Class>, tallies: seq<Option<Rollup>>, x: nat, up: Option<nat>)
    requires Tree(ms) && |classes| == |ms| == |tallies| && x < |ms| && (up.Some? ==> up.value < |ms|)
  {
    forall p :: 0 <= p < |ms| ==> tallies[p] == Climbed(ms, classes, x, up, p)
  }

  function Climbed(ms: seq<Member>, classes: seq<Class>, x: nat, up: Option<nat>, p: nat): Option<Rollup>
    requires Tree(ms) && |classes| == |ms| && x < |ms| && (up.Some? ==> up.value < |ms|) && p < |ms|
  {
    if ms[p].facts.children == 0 then None
    else if p != x && Descends(ms, x, p) && !(up.Some? && Descends(ms, up.value, p)) then Some(Plus(Sum(ms, classes, p, x), classes[x]))
    else Some(Sum(ms, classes, p, x))
  }

  predicate Tallied(ms: seq<Member>, classes: seq<Class>, tallies: seq<Option<Rollup>>, n: nat)
    requires Tree(ms) && |classes| == |ms| == |tallies| && n <= |ms|
  {
    forall p :: 0 <= p < |ms| ==> tallies[p] == if ms[p].facts.children == 0 then None else Some(Sum(ms, classes, p, n))
  }

  /** `rollups`: each container's tally over the leaves under it. */
  method Rollups(ms: seq<Member>, classes: seq<Class>) returns (tallies: seq<Option<Rollup>>)
    requires Tree(ms) && |classes| == |ms|
    ensures |tallies| == |ms| && Tallied(ms, classes, tallies, |ms|)
  {
    hide Tallied, Climbing;
    tallies := seq(|ms|, p requires 0 <= p < |ms| => if ms[p].facts.children > 0 then Some(Rollup(0, 0, 0, 0)) else None);
    StartTallies(ms, classes, tallies);
    var x := 0;
    while x < |ms|
      invariant 0 <= x <= |ms| == |tallies| && Tallied(ms, classes, tallies, x)
    {
      if ms[x].facts.children == 0 && !classes[x].Node? {
        var up: Option<nat> := ms[x].parent;
        StartClimb(ms, classes, tallies, x);
        while up.Some?
          invariant |tallies| == |ms| && (up.Some? ==> up.value < x) && Climbing(ms, classes, tallies, x, up)
          invariant up.Some? ==> Descends(ms, x, up.value)
          decreases if up.Some? then up.value + 1 else 0
        {
          var p: nat := up.value;
          ClimbOne(ms, classes, tallies, x, p);
          if tallies[p].Some? {
            tallies := tallies[p := Some(Plus(tallies[p].value, classes[x]))];
          }
          up := ms[p].parent;
        }
        EndClimb(ms, classes, tallies, x);
      } else {
        NotCounted(ms, classes, tallies, x);
      }
      x := x + 1;
    }
  }

  lemma StartTallies(ms: seq<Member>, classes: seq<Class>, tallies: seq<Option<Rollup>>)
    requires Tree(ms) && |classes| == |ms| == |tallies|
    requires forall p :: 0 <= p < |ms| ==> tallies[p] == if ms[p].facts.children > 0 then Some(Rollup(0, 0, 0, 0)) else None
    ensures Tallied(ms, classes, tallies, 0)
  {
  }

  lemma NotCounted(ms: seq<Member>, classes: seq<Class>, tallies: seq<Option<Rollup>>, x: nat)
    requires Tree(ms) && |classes| == |ms| == |tallies| && x < |ms| && Tallied(ms, classes, tallies, x) && !Counts(ms, classes, x)
    ensures Tallied(ms, classes, tallies, x + 1)
  {
  }

  lemma StartClimb(ms: seq<Member>, classes: seq<Class>, tallies: seq<Option<Rollup>>, x: nat)
    requires Tree(ms) && |classes| == |ms| == |tallies| && x < |ms| && Tallied(ms, classes, tallies, x)
    ensures ms[x].parent.Some? ==> ms[x].parent.value < x && Descends(ms, x, ms[x].parent.value)
    ensures Climbing(ms, classes, tallies, x, ms[x].parent)
  {
    hide Sum;
    assert Rooted(ms, x);
    if ms[x].parent.Some? {
      assert Descends(ms, ms[x].parent.value, ms[x].parent.value);
    }
  }

  /** One step of the climb: the member reached gets its share, and the next up is its parent. */
  lemma ClimbOne(ms: seq<Member>, classes: seq<Class>, tallies: seq<Option<Rollup>>, x: nat, p: nat)
    requires Tree(ms) && |classes| == |ms| == |tallies| && x < |ms| && p < x && Descends(ms, x, p)
    requires Climbing(ms, classes, tallies, x, Some(p))
    ensures ms[p].parent.Some? ==> ms[p].parent.value < p && Descends(ms, x, ms[p].parent.value)
    ensures var after := if tallies[p].Some? then tallies[p := Some(Plus(tallies[p].value, classes[x]))] else tallies;
      Climbing(ms, classes, after, x, ms[p].parent)
  {
    hide Sum, Plus;
    assert Rooted(ms, p);
    assert Descends(ms, p, p);
    if ms[p].parent.Some? {
      DescendsThrough(ms, x, p, ms[p].parent.value);
      NotAbove(ms, p);
    }
  }

  lemma NotAbove(ms: seq<Member>, p: nat)
    requires Tree(ms) && p < |ms| && ms[p].parent.Some?
    ensures ms[p].parent.value < p && !Descends(ms, ms[p].parent.value, p)
  {
    assert Rooted(ms, p);
    if Descends(ms, ms[p].parent.value, p) {
      DeeperBelow(ms, ms[p].parent.value, p);
    }
  }

  lemma EndClimb(ms: seq<Member>, classes: seq<Class>, tallies: seq<Option<Rollup>>, x: nat)
    requires Tree(ms) && |classes| == |ms| == |tallies| && x < |ms| && Counts(ms, classes, x) && Climbing(ms, classes, tallies, x, None)
    ensures Tallied(ms, classes, tallies, x + 1)
  {
  }
}
