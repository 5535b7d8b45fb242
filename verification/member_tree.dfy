/** The member table as a tree, and the order it is listed in: depth first, siblings by their place. */
module MemberTree {
  import opened Wrappers
  import opened OrderedLists

  /** What a member is apart from where it stands. */
  datatype Facts = Facts(kind: string, size: nat, children: nat, note: Option<string>, digests: Option<int>)

  datatype Member = Member(path: string, depth: nat, parent: Option<nat>, ord: nat, fs: bool, facts: Facts)

  /** Parents were allocated before their children and stand one level above them; roots stand at zero. */
  predicate Rooted(ms: seq<Member>, i: nat)
    requires i < |ms|
  {
    match ms[i].parent
    case None => ms[i].depth == 0
    case Some(p) => p < i && ms[i].depth == ms[p].depth + 1
  }

  predicate Tree(ms: seq<Member>) {
    forall i :: 0 <= i < |ms| ==> Rooted(ms, i)
  }

  // ------------------------------------------------------------- children in order

  predicate Comes(ms: seq<Member>, a: nat, b: nat)
    requires a < |ms| && b < |ms|
  {
    ms[a].ord < ms[b].ord || (ms[a].ord == ms[b].ord && a < b)
  }

  predicate Inside(ms: seq<Member>, ks: seq<nat>) {
    forall i :: 0 <= i < |ks| ==> ks[i] < |ms|
  }

  predicate Ordered(ms: seq<Member>, ks: seq<nat>)
    requires Inside(ms, ks)
  {
    forall i, j :: 0 <= i < j < |ks| ==> Comes(ms, ks[i], ks[j])
  }

  /** Where a child goes among children allocated before it: after every one whose place is not later. */
  function PutIn(ms: seq<Member>, ks: seq<nat>, k: nat): (r: seq<nat>)
    requires k < |ms| && Inside(ms, ks) && Ordered(ms, ks) && forall i :: 0 <= i < |ks| ==> ks[i] < k
    ensures Inside(ms, r) && Ordered(ms, r) && forall x :: x in r <==> x == k || x in ks
  {
    if ks == [] then [k]
    else if ms[ks[|ks| - 1]].ord <= ms[k].ord then
      GoesLast(ms, ks, k);
      ks + [k]
    else
      var last := ks[|ks| - 1];
      assert ks == ks[..|ks| - 1] + [last];
      GoesBefore(ms, ks, k, PutIn(ms, ks[..|ks| - 1], k));
      PutIn(ms, ks[..|ks| - 1], k) + [last]
  }

  lemma GoesLast(ms: seq<Member>, ks: seq<nat>, k: nat)
    requires k < |ms| && Inside(ms, ks) && Ordered(ms, ks) && (forall i :: 0 <= i < |ks| ==> ks[i] < k)
    requires ks != [] && ms[ks[|ks| - 1]].ord <= ms[k].ord
    ensures Ordered(ms, ks + [k])
  {
    forall i | 0 <= i < |ks|
      ensures Comes(ms, ks[i], k)
    {
      if i < |ks| - 1 {
        assert Comes(ms, ks[i], ks[|ks| - 1]);
      }
    }
  }

  lemma GoesBefore(ms: seq<Member>, ks: seq<nat>, k: nat, r: seq<nat>)
    requires k < |ms| && Inside(ms, ks) && Ordered(ms, ks) && ks != [] && ms[k].ord < ms[ks[|ks| - 1]].ord
    requires Inside(ms, r) && Ordered(ms, r) && forall x :: x in r <==> x == k || x in ks[..|ks| - 1]
    ensures Ordered(ms, r + [ks[|ks| - 1]])
  {
    var last := ks[|ks| - 1];
    forall i | 0 <= i < |r|
      ensures Comes(ms, r[i], last)
    {
      assert r[i] in r;
      if r[i] != k {
        var j :| 0 <= j < |ks| - 1 && ks[j] == r[i];
        assert Comes(ms, ks[j], ks[|ks| - 1]);
      }
    }
  }

  /** The children of `p` (or the roots) among the first `n` members, in their places. */
  function Kids(ms: seq<Member>, p: Option<nat>, n: nat): (r: seq<nat>)
    requires n <= |ms|
    ensures Inside(ms, r) && Ordered(ms, r) && forall x :: x in r <==> 0 <= x < n && ms[x].parent == p
  {
    if n == 0 then []
    else
      var before := Kids(ms, p, n - 1);
      assert forall i :: 0 <= i < |before| ==> before[i] in before;
      if ms[n - 1].parent == p then PutIn(ms, before, n - 1) else before
  }

  function KidsOf(ms: seq<Member>, p: Option<nat>): (r: seq<nat>)
    ensures Inside(ms, r) && Ordered(ms, r) && forall x :: x in r <==> 0 <= x < |ms| && ms[x].parent == p
  {
    Kids(ms, p, |ms|)
  }

  lemma ComesOnce(ms: seq<Member>, a: nat, b: nat)
    requires a < |ms| && b < |ms|
    ensures !(Comes(ms, a, b) && (a == b || Comes(ms, b, a)))
  {
  }

  /** Only one ordered list holds given members. */
  lemma OrderedIsUnique(ms: seq<Member>, a: seq<nat>, b: seq<nat>)
    requires Inside(ms, a) && Inside(ms, b) && Ordered(ms, a) && Ordered(ms, b) && forall x :: x in a <==> x in b
    ensures a == b
  {
    var less := (x: nat, y: nat) => x < |ms| && y < |ms| && Comes(ms, x, y);
    OneOrder(less, a, b);
  }

  // ------------------------------------------------------------- depth first

  /** A member and everything under it, depth first. */
  function Under(ms: seq<Member>, i: nat): seq<nat>
    requires Tree(ms) && i < |ms|
    decreases |ms| - i, 1, 0
  {
    KidsStand(ms, i);
    [i] + UnderAll(ms, KidsOf(ms, Some(i)), i + 1)
  }

  /** The same for a list of members none of which is before `low`. */
  function UnderAll(ms: seq<Member>, ks: seq<nat>, low: nat): seq<nat>
    requires Tree(ms) && low <= |ms| && forall k :: 0 <= k < |ks| ==> low <= ks[k] < |ms|
    decreases |ms| - low, 2, |ks|
  {
    if ks == [] then [] else Under(ms, ks[0]) + UnderAll(ms, ks[1..], low)
  }

  lemma KidsStand(ms: seq<Member>, i: nat)
    requires Tree(ms) && i < |ms|
    ensures forall k :: 0 <= k < |KidsOf(ms, Some(i))| ==> i + 1 <= KidsOf(ms, Some(i))[k] < |ms|
  {
    var ks := KidsOf(ms, Some(i));
    forall k | 0 <= k < |ks|
      ensures i + 1 <= ks[k] < |ms|
    {
      assert ks[k] in ks;
      assert Rooted(ms, ks[k]);
    }
  }

  lemma {:induction false} LowIsFree(ms: seq<Member>, ks: seq<nat>, low: nat, other: nat)
    requires Tree(ms) && low <= |ms| && other <= |ms| && forall k :: 0 <= k < |ks| ==> low <= ks[k] < |ms| && other <= ks[k]
    ensures UnderAll(ms, ks, low) == UnderAll(ms, ks, other)
  {
    if ks != [] {
      LowIsFree(ms, ks[1..], low, other);
    }
  }

  lemma {:induction false} UnderAllJoins(ms: seq<Member>, a: seq<nat>, b: seq<nat>, low: nat)
    requires Tree(ms) && low <= |ms| && Above(ms, a, low) && Above(ms, b, low)
    ensures Above(ms, a + b, low) && UnderAll(ms, a + b, low) == UnderAll(ms, a, low) + UnderAll(ms, b, low)
  {
    hide Under;
    if a == [] {
      assert a + b == b;
    } else {
      UnderAllJoins(ms, a[1..], b, low);
      HeadAndTail(a, b);
      JoinsAssociate(Under(ms, a[0]), UnderAll(ms, a[1..], low), UnderAll(ms, b, low));
    }
  }

  lemma HeadAndTail(a: seq<nat>, b: seq<nat>)
    requires a != []
    ensures a + b != [] && (a + b)[0] == a[0] && (a + b)[1..] == a[1..] + b
  {
  }

  lemma JoinsAssociate(a: seq<nat>, b: seq<nat>, c: seq<nat>)
    ensures a + (b + c) == (a + b) + c
  {
  }

  predicate Above(ms: seq<Member>, ks: seq<nat>, low: nat) {
    forall k :: 0 <= k < |ks| ==> low <= ks[k] < |ms|
  }

  /** The children of `p` (or the roots) among the first `n` members, as the table has them. */
  function Children(ms: seq<Member>, p: Option<nat>, n: nat): (r: seq<nat>)
    requires n <= |ms|
    ensures (forall x :: x in r <==> 0 <= x < n && ms[x].parent == p) && forall i :: 0 <= i < |r| ==> r[i] < n
    ensures forall i, j :: 0 <= i < j < |r| ==> r[i] < r[j]
  {
    if n == 0 then [] else if ms[n - 1].parent == p then Children(ms, p, n - 1) + [n - 1] else Children(ms, p, n - 1)
  }

  /** Depth first from every root, siblings in their places, roots as the table has them. */
  function Listing(ms: seq<Member>): seq<nat>
    requires Tree(ms)
  {
    UnderAll(ms, Children(ms, None, |ms|), 0)
  }

  // ------------------------------------------------------------- the loops

  predicate Rising(ks: seq<nat>) {
    forall i, j :: 0 <= i < j < |ks| ==> ks[i] < ks[j]
  }

  /** `sort_by_key` on place: a stable sort of children gathered in table order. */
  function SortByOrd(ms: seq<Member>, ks: seq<nat>): (r: seq<nat>)
    requires Inside(ms, ks) && Rising(ks)
    ensures Inside(ms, r) && Ordered(ms, r) && forall x :: x in r <==> x in ks
  {
    if ks == [] then []
    else
      var n := |ks| - 1;
      var before := SortByOrd(ms, ks[..n]);
      assert ks == ks[..n] + [ks[n]];
      assert forall i :: 0 <= i < |before| ==> before[i] in before;
      PutIn(ms, before, ks[n])
  }

  lemma SortedChildren(ms: seq<Member>, p: Option<nat>)
    ensures SortByOrd(ms, Children(ms, p, |ms|)) == KidsOf(ms, p)
  {
    OrderedIsUnique(ms, SortByOrd(ms, Children(ms, p, |ms|)), KidsOf(ms, p));
  }

  function Reverse(s: seq<nat>): (r: seq<nat>)
    ensures |r| == |s|
  {
    if s == [] then [] else Reverse(s[1..]) + [s[0]]
  }

  lemma {:induction false} ReverseJoins(a: seq<nat>, b: seq<nat>)
    ensures Reverse(a + b) == Reverse(b) + Reverse(a)
  {
    if a == [] {
      assert a + b == b;
    } else {
      ReverseJoins(a[1..], b);
      HeadAndTail(a, b);
      JoinsAssociate(Reverse(b), Reverse(a[1..]), [a[0]]);
    }
  }

  lemma ReverseOne(i: nat)
    ensures Reverse([i]) == [i]
  {
    assert [i][1..] == [] && Reverse([]) == [];
  }

  lemma {:induction false} ReverseTwice(s: seq<nat>)
    ensures Reverse(Reverse(s)) == s
  {
    if s != [] {
      ReverseTwice(s[1..]);
      ReverseJoins(Reverse(s[1..]), [s[0]]);
      ReverseOne(s[0]);
    }
  }

  /** What the stack, its top last, still has to list. */
  ghost predicate Pending(ms: seq<Member>, order: seq<nat>, stack: seq<nat>)
    requires Tree(ms)
  {
    Above(ms, Reverse(stack), 0) && order + UnderAll(ms, Reverse(stack), 0) == Listing(ms)
  }

  /** The stack's top, and what is below it. */
  lemma TopOf(stack: seq<nat>)
    requires stack != []
    ensures Reverse(stack) == [stack[|stack| - 1]] + Reverse(stack[..|stack| - 1])
  {
    hide Reverse;
    var n := |stack| - 1;
    var i := stack[n];
    assert stack == stack[..n] + [i];
    ReverseJoins(stack[..n], [i]);
    ReverseOne(i);
  }

  lemma UnderFirst(ms: seq<Member>, i: nat, rest: seq<nat>)
    requires Tree(ms) && i < |ms| && Above(ms, rest, 0)
    ensures Above(ms, [i] + rest, 0) && UnderAll(ms, [i] + rest, 0) == Under(ms, i) + UnderAll(ms, rest, 0)
  {
    assert ([i] + rest)[0] == i && ([i] + rest)[1..] == rest;
  }

  lemma UnderIs(ms: seq<Member>, i: nat)
    requires Tree(ms) && i < |ms|
    ensures var kids := KidsOf(ms, Some(i)); Above(ms, kids, i + 1) && Under(ms, i) == [i] + UnderAll(ms, kids, 0)
  {
    KidsStand(ms, i);
    LowIsFree(ms, KidsOf(ms, Some(i)), i + 1, 0);
  }

  /** Popping one member and pushing its children, last first, lists the same. */
  lemma PopKeeps(ms: seq<Member>, order: seq<nat>, stack: seq<nat>)
    requires Tree(ms) && stack != [] && Pending(ms, order, stack)
    ensures stack[|stack| - 1] < |ms|
    ensures var i := stack[|stack| - 1];
      Pending(ms, order + [i], stack[..|stack| - 1] + Reverse(KidsOf(ms, Some(i))))
  {
    hide KidsOf, Reverse, Listing, Under, UnderAll;
    var i, rest := stack[|stack| - 1], Reverse(stack[..|stack| - 1]);
    TopOf(stack);
    assert Reverse(stack)[0] == i;
    assert Above(ms, rest, 0) by {
      forall k | 0 <= k < |rest|
        ensures 0 <= rest[k] < |ms|
      {
        assert rest[k] == Reverse(stack)[k + 1];
      }
    }
    UnderFirst(ms, i, rest);
    UnderIs(ms, i);
    var kids := KidsOf(ms, Some(i));
    ReverseTwice(kids);
    ReverseJoins(stack[..|stack| - 1], Reverse(kids));
    UnderAllJoins(ms, kids, rest, 0);
    Regroup(order, i, UnderAll(ms, kids, 0), UnderAll(ms, rest, 0));
  }

  lemma Regroup(a: seq<nat>, i: nat, b: seq<nat>, c: seq<nat>)
    ensures a + ([i] + b + c) == (a + [i]) + (b + c)
  {
  }

  /** Each member's children, and the roots, in the order of the table. */
  method Gather(ms: seq<Member>) returns (kids: array<seq<nat>>, roots: seq<nat>)
    requires Tree(ms)
    ensures fresh(kids) && kids.Length == |ms| && roots == Children(ms, None, |ms|)
    ensures forall p :: 0 <= p < |ms| ==> kids[p] == Children(ms, Some(p), |ms|)
  {
    hide Children, Tree, Rooted;
    kids := new seq<nat>[|ms|](_ => []);
    roots := [];
    NoChildren(ms);
    var i := 0;
    while i < |ms|
      invariant 0 <= i <= |ms| == kids.Length && fresh(kids) && roots == Children(ms, None, i)
      invariant forall p :: 0 <= p < |ms| ==> kids[p] == Children(ms, Some(p), i)
    {
      OneMoreChild(ms, i);
      ParentInside(ms, i);
      match ms[i].parent {
        case Some(p) => kids[p] := kids[p] + [i];
        case None => roots := roots + [i];
      }
      i := i + 1;
    }
  }

  lemma ParentInside(ms: seq<Member>, i: nat)
    requires Tree(ms) && i < |ms|
    ensures ms[i].parent.Some? ==> ms[i].parent.value < |ms|
  {
    assert Rooted(ms, i);
  }

  /** Each list put in the order of its members' places. */
  method SortAll(ms: seq<Member>, kids: array<seq<nat>>)
    requires kids.Length == |ms| && forall p :: 0 <= p < |ms| ==> kids[p] == Children(ms, Some(p), |ms|)
    modifies kids
    ensures forall p :: 0 <= p < |ms| ==> kids[p] == KidsOf(ms, Some(p))
  {
    hide KidsOf, Children, SortByOrd;
    var k := 0;
    while k < |ms|
      invariant 0 <= k <= |ms| == kids.Length
      invariant forall p :: 0 <= p < |ms| ==> kids[p] == if p < k then KidsOf(ms, Some(p)) else Children(ms, Some(p), |ms|)
    {
      ChildrenSortable(ms, Some(k));
      SortedChildren(ms, Some(k));
      kids[k] := SortByOrd(ms, kids[k]);
      k := k + 1;
    }
  }

  /** `tree_order`: children gathered in table order, each list sorted by place, then an explicit stack. */
  method TreeOrder(ms: seq<Member>) returns (order: seq<nat>)
    requires Tree(ms)
    ensures order == Listing(ms)
  {
    hide KidsOf, Children, Listing, Pending, Reverse;
    var kids, roots := Gather(ms);
    SortAll(ms, kids);
    order := [];
    var stack := Reverse(roots);
    StartPending(ms);
    while stack != []
      invariant kids.Length == |ms| && Pending(ms, order, stack)
      invariant forall p :: 0 <= p < |ms| ==> kids[p] == KidsOf(ms, Some(p))
      decreases |Listing(ms)| - |order|
    {
      PopKeeps(ms, order, stack);
      StillPending(ms, order, stack);
      var top := stack[|stack| - 1];
      order := order + [top];
      stack := stack[..|stack| - 1] + Reverse(kids[top]);
    }
    NonePending(ms, order);
  }

  lemma NonePending(ms: seq<Member>, order: seq<nat>)
    requires Tree(ms) && Pending(ms, order, [])
    ensures order == Listing(ms)
  {
    assert order + [] == order;
  }

  lemma NoChildren(ms: seq<Member>)
    ensures forall p :: Children(ms, p, 0) == []
  {
  }

  lemma OneMoreChild(ms: seq<Member>, i: nat)
    requires i < |ms|
    ensures forall p :: Children(ms, p, i + 1) == if ms[i].parent == p then Children(ms, p, i) + [i] else Children(ms, p, i)
  {
  }

  lemma ChildrenSortable(ms: seq<Member>, p: Option<nat>)
    ensures Inside(ms, Children(ms, p, |ms|)) && Rising(Children(ms, p, |ms|))
  {
  }

  lemma StartPending(ms: seq<Member>)
    requires Tree(ms)
    ensures Pending(ms, [], Reverse(Children(ms, None, |ms|)))
  {
    ReverseTwice(Children(ms, None, |ms|));
    assert [] + Listing(ms) == Listing(ms);
  }

  lemma StillPending(ms: seq<Member>, order: seq<nat>, stack: seq<nat>)
    requires Tree(ms) && stack != [] && Pending(ms, order, stack)
    ensures |order| < |Listing(ms)|
  {
    hide Listing;
    assert Reverse(stack) != [];
    assert |UnderAll(ms, Reverse(stack), 0)| > 0;
  }
}
