/** What the listing of a member tree is: every member once, each subtree one run of greater depth. */
module MemberListing {
  import opened Wrappers
  import opened MemberTree

  /** `x` is `i` or lies somewhere under it. */
  predicate Descends(ms: seq<Member>, x: nat, i: nat)
    requires Tree(ms) && x < |ms|
    decreases x
  {
    x == i || (ms[x].parent.Some? && assert Rooted(ms, x); Descends(ms, ms[x].parent.value, i))
  }

  lemma {:induction false} DeeperBelow(ms: seq<Member>, x: nat, i: nat)
    requires Tree(ms) && x < |ms| && Descends(ms, x, i)
    ensures i <= x && (x != i ==> i < x && ms[x].depth > ms[i].depth)
    decreases x
  {
    if x != i {
      assert Rooted(ms, x);
      DeeperBelow(ms, ms[x].parent.value, i);
    }
  }

  /** Of the members at one depth, `x` lies under one only. */
  lemma {:induction false} OneAncestor(ms: seq<Member>, x: nat, a: nat, b: nat)
    requires Tree(ms) && x < |ms| && Descends(ms, x, a) && Descends(ms, x, b) && a < |ms| && b < |ms| && ms[a].depth == ms[b].depth
    ensures a == b
    decreases x
  {
    DeeperBelow(ms, x, a);
    DeeperBelow(ms, x, b);
    if x != a && x != b {
      assert Rooted(ms, x);
      OneAncestor(ms, ms[x].parent.value, a, b);
    }
  }

  /** `x` lies under a member exactly if it is that member or lies under one of its children. */
  lemma {:induction false} DescendsByKid(ms: seq<Member>, x: nat, i: nat)
    requires Tree(ms) && x < |ms| && i < |ms| && x != i && Descends(ms, x, i)
    ensures exists k :: k in KidsOf(ms, Some(i)) && Descends(ms, x, k)
    decreases x
  {
    assert Rooted(ms, x);
    var p := ms[x].parent.value;
    if p == i {
      assert x in KidsOf(ms, Some(i));
    } else {
      DescendsByKid(ms, p, i);
      var k :| k in KidsOf(ms, Some(i)) && Descends(ms, p, k);
      assert Descends(ms, x, k);
    }
  }

  lemma {:induction false} DescendsThrough(ms: seq<Member>, x: nat, k: nat, i: nat)
    requires Tree(ms) && x < |ms| && k < |ms| && Descends(ms, x, k) && ms[k].parent == Some(i)
    ensures Descends(ms, x, i)
    decreases x
  {
    if x == k {
      assert Rooted(ms, x);
      assert Descends(ms, i, i);
    } else {
      assert Rooted(ms, x);
      DescendsThrough(ms, ms[x].parent.value, k, i);
    }
  }

  predicate UnderOne(ms: seq<Member>, ks: seq<nat>, x: nat)
    requires Tree(ms)
  {
    x < |ms| && exists j :: 0 <= j < |ks| && Descends(ms, x, ks[j])
  }

  /** A member's run lists exactly what lies under it. */
  lemma {:induction false} RunIsSubtree(ms: seq<Member>, i: nat, x: nat)
    requires Tree(ms) && i < |ms|
    ensures x in Under(ms, i) <==> x < |ms| && Descends(ms, x, i)
    decreases |ms| - i, 1, 0
  {
    hide KidsOf;
    UnderIs(ms, i);
    KidsStand(ms, i);
    var kids := KidsOf(ms, Some(i));
    RunsAreSubtrees(ms, kids, i + 1, x);
    LowIsFree(ms, kids, i + 1, 0);
    if x < |ms| && x != i && Descends(ms, x, i) {
      DescendsByKid(ms, x, i);
      var k :| k in kids && Descends(ms, x, k);
      var j :| 0 <= j < |kids| && kids[j] == k;
      assert UnderOne(ms, kids, x);
    }
    if UnderOne(ms, kids, x) {
      var j :| 0 <= j < |kids| && Descends(ms, x, kids[j]);
      KidIs(ms, i, kids[j]);
      DescendsThrough(ms, x, kids[j], i);
    }
  }

  lemma KidIs(ms: seq<Member>, i: nat, k: nat)
    requires k in KidsOf(ms, Some(i))
    ensures k < |ms| && ms[k].parent == Some(i)
  {
  }

  lemma {:induction false} RunsAreSubtrees(ms: seq<Member>, ks: seq<nat>, low: nat, x: nat)
    requires Tree(ms) && low <= |ms| && Above(ms, ks, low)
    ensures x in UnderAll(ms, ks, low) <==> UnderOne(ms, ks, x)
    decreases |ms| - low, 2, |ks|
  {
    if ks != [] {
      RunIsSubtree(ms, ks[0], x);
      RunsAreSubtrees(ms, ks[1..], low, x);
      if x < |ms| && UnderOne(ms, ks, x) && !Descends(ms, x, ks[0]) {
        var j :| 0 <= j < |ks| && Descends(ms, x, ks[j]);
        assert ks[1..][j - 1] == ks[j];
      }
      if UnderOne(ms, ks[1..], x) {
        var j :| 0 <= j < |ks[1..]| && Descends(ms, x, ks[1..][j]);
        assert ks[j + 1] == ks[1..][j];
      }
    }
  }

  // ------------------------------------------------------------- each member once

  predicate Distinct(s: seq<nat>) {
    forall i, j :: 0 <= i < j < |s| ==> s[i] != s[j]
  }

  /** Different members at one depth. */
  predicate Level(ms: seq<Member>, ks: seq<nat>, d: nat) {
    (forall k :: 0 <= k < |ks| ==> ks[k] < |ms| && ms[ks[k]].depth == d) && Distinct(ks)
  }

  lemma KidsAreLevel(ms: seq<Member>, i: nat)
    requires Tree(ms) && i < |ms|
    ensures Level(ms, KidsOf(ms, Some(i)), ms[i].depth + 1)
  {
    var ks := KidsOf(ms, Some(i));
    forall k | 0 <= k < |ks|
      ensures ks[k] < |ms| && ms[ks[k]].depth == ms[i].depth + 1
    {
      assert ks[k] in ks;
      assert Rooted(ms, ks[k]);
    }
    forall a, b | 0 <= a < b < |ks|
      ensures ks[a] != ks[b]
    {
      ComesOnce(ms, ks[a], ks[b]);
    }
  }

  lemma RootsAreLevel(ms: seq<Member>)
    requires Tree(ms)
    ensures Level(ms, Children(ms, None, |ms|), 0)
  {
    var ks := Children(ms, None, |ms|);
    forall k | 0 <= k < |ks|
      ensures ks[k] < |ms| && ms[ks[k]].depth == 0
    {
      assert ks[k] in ks;
      assert Rooted(ms, ks[k]);
    }
  }

  lemma DistinctJoins(a: seq<nat>, b: seq<nat>)
    requires Distinct(a) && Distinct(b) && forall x :: x in a ==> x !in b
    ensures Distinct(a + b)
  {
    forall i, j | 0 <= i < j < |a + b|
      ensures (a + b)[i] != (a + b)[j]
    {
      if i < |a| <= j {
        assert a[i] in a && b[j - |a|] in b;
      }
    }
  }

  lemma {:induction false} RunHasNoRepeat(ms: seq<Member>, i: nat)
    requires Tree(ms) && i < |ms|
    ensures Distinct(Under(ms, i))
    decreases |ms| - i, 1, 0
  {
    hide KidsOf;
    UnderIs(ms, i);
    KidsStand(ms, i);
    KidsAreLevel(ms, i);
    var kids := KidsOf(ms, Some(i));
    RunsHaveNoRepeat(ms, kids, i + 1, ms[i].depth + 1);
    LowIsFree(ms, kids, i + 1, 0);
    NotUnderKids(ms, i, kids);
    DistinctJoins([i], UnderAll(ms, kids, 0));
  }

  lemma NotUnderKids(ms: seq<Member>, i: nat, kids: seq<nat>)
    requires Tree(ms) && i < |ms| && Above(ms, kids, i + 1)
    ensures i !in UnderAll(ms, kids, 0)
  {
    RunsAreSubtrees(ms, kids, 0, i);
    if UnderOne(ms, kids, i) {
      var j :| 0 <= j < |kids| && Descends(ms, i, kids[j]);
      DeeperBelow(ms, i, kids[j]);
    }
  }

  lemma {:induction false} RunsHaveNoRepeat(ms: seq<Member>, ks: seq<nat>, low: nat, d: nat)
    requires Tree(ms) && low <= |ms| && Above(ms, ks, low) && Level(ms, ks, d)
    ensures Distinct(UnderAll(ms, ks, low))
    decreases |ms| - low, 2, |ks|
  {
    hide Under, Descends;
    if ks != [] {
      RunHasNoRepeat(ms, ks[0]);
      RunsHaveNoRepeat(ms, ks[1..], low, d);
      forall x | x in Under(ms, ks[0])
        ensures x !in UnderAll(ms, ks[1..], low)
      {
        RunsApart(ms, ks, low, d, x);
      }
      DistinctJoins(Under(ms, ks[0]), UnderAll(ms, ks[1..], low));
    }
  }

  lemma RunsApart(ms: seq<Member>, ks: seq<nat>, low: nat, d: nat, x: nat)
    requires Tree(ms) && low <= |ms| && Above(ms, ks, low) && Level(ms, ks, d) && ks != [] && x in Under(ms, ks[0])
    ensures x !in UnderAll(ms, ks[1..], low)
  {
    hide Under, UnderAll;
    RunIsSubtree(ms, ks[0], x);
    RunsAreSubtrees(ms, ks[1..], low, x);
    if UnderOne(ms, ks[1..], x) {
      var j :| 0 <= j < |ks[1..]| && Descends(ms, x, ks[1..][j]);
      OneAncestor(ms, x, ks[0], ks[j + 1]);
    }
  }

  lemma {:induction false} UnderSomeRoot(ms: seq<Member>, x: nat)
    requires Tree(ms) && x < |ms|
    ensures UnderOne(ms, Children(ms, None, |ms|), x)
    decreases x
  {
    var roots := Children(ms, None, |ms|);
    match ms[x].parent {
      case None =>
        assert x in roots;
        var j :| 0 <= j < |roots| && roots[j] == x;
        assert Descends(ms, x, roots[j]);
      case Some(p) =>
        assert Rooted(ms, x);
        UnderSomeRoot(ms, p);
        var j :| 0 <= j < |roots| && Descends(ms, p, roots[j]);
        assert Descends(ms, x, roots[j]);
    }
  }

  /** The listing has every member of the table, once. */
  lemma ListingIsPermutation(ms: seq<Member>)
    requires Tree(ms)
    ensures Distinct(Listing(ms)) && forall x :: x in Listing(ms) <==> 0 <= x < |ms|
  {
    hide Children, UnderAll;
    var roots := Children(ms, None, |ms|);
    RootsAreLevel(ms);
    RunsHaveNoRepeat(ms, roots, 0, 0);
    forall x: nat
      ensures x in Listing(ms) <==> 0 <= x < |ms|
    {
      RunsAreSubtrees(ms, roots, 0, x);
      if x < |ms| {
        UnderSomeRoot(ms, x);
      }
    }
  }

  // ------------------------------------------------------------- subtrees are runs

  /** `s` is `a`, then the run of `x`, then `b`, which starts no deeper than `x`. */
  predicate RunIn(ms: seq<Member>, s: seq<nat>, a: seq<nat>, x: nat, b: seq<nat>)
    requires Tree(ms) && x < |ms|
  {
    s == a + Under(ms, x) + b && (b != [] ==> b[0] < |ms| && ms[b[0]].depth <= ms[x].depth)
  }

  lemma {:induction false} RunInside(ms: seq<Member>, i: nat, x: nat) returns (a: seq<nat>, b: seq<nat>)
    requires Tree(ms) && i < |ms| && x < |ms| && x in Under(ms, i)
    ensures RunIn(ms, Under(ms, i), a, x, b)
    decreases |ms| - i, 1, 0
  {
    hide KidsOf;
    UnderIs(ms, i);
    KidsStand(ms, i);
    KidsAreLevel(ms, i);
    var kids := KidsOf(ms, Some(i));
    if x == i {
      a, b := [], [];
      assert Under(ms, i) == [] + Under(ms, i) + [];
    } else {
      LowIsFree(ms, kids, i + 1, 0);
      a, b := RunAmong(ms, kids, i + 1, ms[i].depth + 1, x);
      Prepend(i, a, Under(ms, x), b);
      a := [i] + a;
    }
  }

  lemma Prepend(i: nat, a: seq<nat>, u: seq<nat>, b: seq<nat>)
    ensures [i] + (a + u + b) == ([i] + a) + u + b
  {
  }

  lemma Append(a: seq<nat>, u: seq<nat>, b: seq<nat>, c: seq<nat>)
    ensures (a + u + b) + c == a + u + (b + c)
    ensures c + (a + u + b) == (c + a) + u + b
  {
  }

  lemma FirstOf(ms: seq<Member>, ks: seq<nat>, low: nat)
    requires Tree(ms) && low <= |ms| && Above(ms, ks, low)
    ensures UnderAll(ms, ks, low) != [] ==> ks != [] && UnderAll(ms, ks, low)[0] == ks[0]
  {
  }

  lemma {:induction false} RunAmong(ms: seq<Member>, ks: seq<nat>, low: nat, d: nat, x: nat) returns (a: seq<nat>, b: seq<nat>)
    requires Tree(ms) && low <= |ms| && Above(ms, ks, low) && Level(ms, ks, d) && x < |ms| && x in UnderAll(ms, ks, low)
    ensures RunIn(ms, UnderAll(ms, ks, low), a, x, b)
    decreases |ms| - low, 2, |ks|
  {
    hide Under, KidsOf;
    var rest := UnderAll(ms, ks[1..], low);
    if x in Under(ms, ks[0]) {
      a, b := RunInside(ms, ks[0], x);
      RunIsSubtree(ms, ks[0], x);
      DeeperBelow(ms, x, ks[0]);
      Append(a, Under(ms, x), b, rest);
      FirstOf(ms, ks[1..], low);
      b := b + rest;
    } else {
      a, b := RunAmong(ms, ks[1..], low, d, x);
      Append(a, Under(ms, x), b, Under(ms, ks[0]));
      a := Under(ms, ks[0]) + a;
    }
  }

  /** In the listing, a member's subtree is the run after it of members deeper than it: exactly its
      descendants, ended by a member no deeper or by the end. */
  lemma SubtreeIsARun(ms: seq<Member>, x: nat) returns (a: seq<nat>, b: seq<nat>)
    requires Tree(ms) && x < |ms|
    ensures RunIn(ms, Listing(ms), a, x, b)
    ensures Under(ms, x) != [] && Under(ms, x)[0] == x
    ensures forall k :: 0 < k < |Under(ms, x)| ==> Under(ms, x)[k] < |ms| && ms[Under(ms, x)[k]].depth > ms[x].depth
  {
    hide Children, UnderAll;
    ListingIsPermutation(ms);
    RootsAreLevel(ms);
    a, b := RunAmong(ms, Children(ms, None, |ms|), 0, 0, x);
    UnderIs(ms, x);
    RunHasNoRepeat(ms, x);
    forall k | 0 < k < |Under(ms, x)|
      ensures Under(ms, x)[k] < |ms| && ms[Under(ms, x)[k]].depth > ms[x].depth
    {
      RunIsSubtree(ms, x, Under(ms, x)[k]);
      assert Under(ms, x)[k] in Under(ms, x) && Under(ms, x)[0] == x;
      DeeperBelow(ms, Under(ms, x)[k], x);
    }
  }
}
