/** The member cache: a container's subtree written as rows, and rows replayed under a container. */
module MemberCache {
  import opened Wrappers
  import opened MemberTree
  import opened MemberListing

  /** A member as cached: its path and depth below the container, its parent's row unless that is the
      container itself. */
  datatype Row = Row(rel: string, parent: Option<nat>, ord: nat, depth: nat, facts: Facts)

  function IndexOf(s: seq<nat>, x: nat): (r: nat)
    requires x in s
    ensures r < |s| && s[r] == x
  {
    if s[0] == x then 0 else
      assert s == [s[0]] + s[1..];
      1 + IndexOf(s[1..], x)
  }

  lemma IndexIs(s: seq<nat>, k: nat)
    requires Distinct(s) && k < |s|
    ensures IndexOf(s, s[k]) == k
  {
    assert s[IndexOf(s, s[k])] == s[k];
  }

  /** What lies under a member, depth first. */
  function Below(ms: seq<Member>, i: nat): (r: seq<nat>)
    requires Tree(ms) && i < |ms|
  {
    Under(ms, i)[1..]
  }

  lemma BelowIs(ms: seq<Member>, i: nat)
    requires Tree(ms) && i < |ms|
    ensures Under(ms, i) == [i] + Below(ms, i) && Distinct(Under(ms, i)) && Distinct(Below(ms, i))
    ensures forall x :: x in Below(ms, i) <==> 0 <= x < |ms| && x != i && Descends(ms, x, i)
  {
    hide Under;
    UnderIs(ms, i);
    RunHasNoRepeat(ms, i);
    var run := Under(ms, i);
    forall x: nat
      ensures x in Below(ms, i) <==> x < |ms| && x != i && Descends(ms, x, i)
    {
      RunIsSubtree(ms, i, x);
      if x in run && x != i {
        var k :| 0 <= k < |run| && run[k] == x;
        assert run[1..][k - 1] == x;
      }
      if x in run[1..] {
        var k :| 0 <= k < |run[1..]| && run[1..][k] == x;
        assert run[k + 1] == x && run[0] == i;
      }
    }
  }

  /** A member's parent is listed before it. */
  lemma ParentEarlier(ms: seq<Member>, i: nat, k: nat)
    requires Tree(ms) && i < |ms| && k < |Below(ms, i)|
    ensures Below(ms, i)[k] < |ms|
    ensures var x := Below(ms, i)[k];
      ms[x].parent.Some? && (ms[x].parent.value == i || (ms[x].parent.value in Below(ms, i) && IndexOf(Below(ms, i), ms[x].parent.value) < k))
  {
    hide Under;
    BelowIs(ms, i);
    var run, x := Below(ms, i), Below(ms, i)[k];
    assert x in run;
    assert Rooted(ms, x);
    var p := ms[x].parent.value;
    if p != i {
      DeeperBelow(ms, p, i);
      assert p in run;
      OrderOfParent(ms, i, p, x, k);
    }
  }

  lemma OrderOfParent(ms: seq<Member>, i: nat, p: nat, x: nat, k: nat)
    requires Tree(ms) && i < |ms| && x < |ms| && k < |Below(ms, i)| && Below(ms, i)[k] == x
    requires ms[x].parent == Some(p) && p in Below(ms, i)
    ensures IndexOf(Below(ms, i), p) < k
  {
    hide Under;
    BelowIs(ms, i);
    assert Rooted(ms, x);
    var all := Under(ms, i);
    assert p in all;
    var a, b := RunInside(ms, i, p);
    RunIsSubtree(ms, p, x);
    assert Descends(ms, p, p);
    var run := Under(ms, p);
    UnderIs(ms, p);
    var j :| 0 <= j < |run| && run[j] == x;
    assert run[0] == p && j > 0;
    assert all[|a|] == p && all[|a| + j] == x;
    assert all[k + 1] == x;
    assert k + 1 == |a| + j;
    assert |a| > 0 by {
      assert all[0] == i;
    }
    assert Below(ms, i)[|a| - 1] == p;
    IndexIs(Below(ms, i), |a| - 1);
  }

  // ------------------------------------------------------------- rows

  function RowOf(ms: seq<Member>, i: nat, run: seq<nat>, x: nat): Row
    requires i < |ms| && x < |ms| && ms[x].depth >= ms[i].depth
    requires ms[x].parent.Some? && (ms[x].parent.value == i || ms[x].parent.value in run)
  {
    var prefix := |ms[i].path| + 1;
    Row(if prefix <= |ms[x].path| then ms[x].path[prefix..] else "",
        if ms[x].parent.value == i then None else Some(IndexOf(run, ms[x].parent.value)),
        ms[x].ord, ms[x].depth - ms[i].depth, ms[x].facts)
  }

  lemma RowsAreDefined(ms: seq<Member>, i: nat)
    requires Tree(ms) && i < |ms|
    ensures forall k :: 0 <= k < |Below(ms, i)| ==> var x := Below(ms, i)[k];
              && x < |ms| && ms[x].depth >= ms[i].depth
              && ms[x].parent.Some? && (ms[x].parent.value == i || ms[x].parent.value in Below(ms, i))
  {
    BelowIs(ms, i);
    forall k | 0 <= k < |Below(ms, i)|
      ensures var x := Below(ms, i)[k];
        && x < |ms| && ms[x].depth >= ms[i].depth
        && ms[x].parent.Some? && (ms[x].parent.value == i || ms[x].parent.value in Below(ms, i))
    {
      ParentEarlier(ms, i, k);
      assert Below(ms, i)[k] in Below(ms, i);
      DeeperBelow(ms, Below(ms, i)[k], i);
    }
  }

  /** The rows of a container: one for each member under it, depth first. */
  function RowsOf(ms: seq<Member>, i: nat): (r: seq<Row>)
    requires Tree(ms) && i < |ms|
    ensures |r| == |Below(ms, i)|
  {
    RowsAreDefined(ms, i);
    seq(|Below(ms, i)|, k requires 0 <= k < |Below(ms, i)| => RowOf(ms, i, Below(ms, i), Below(ms, i)[k]))
  }

  /** Every parent's row comes before its children's. */
  predicate ParentsFirst(rows: seq<Row>) {
    forall k :: 0 <= k < |rows| && rows[k].parent.Some? ==> rows[k].parent.value < k
  }

  lemma RowsHaveParentsFirst(ms: seq<Member>, i: nat)
    requires Tree(ms) && i < |ms|
    ensures ParentsFirst(RowsOf(ms, i))
  {
    forall k | 0 <= k < |RowsOf(ms, i)| && RowsOf(ms, i)[k].parent.Some?
      ensures RowsOf(ms, i)[k].parent.value < k
    {
      ParentEarlier(ms, i, k);
    }
  }

  predicate RunStarts(ms: seq<Member>, order: seq<nat>, pos: nat, run: seq<nat>, base: nat) {
    && pos + |run| <= |order| && (forall k :: 0 <= k < |run| ==> order[pos + k] == run[k])
    && (pos + |run| < |order| ==> order[pos + |run|] < |ms| && ms[order[pos + |run|]].depth <= base)
  }

  /** Where a container stands in the listing, its subtree's run begins right after. */
  lemma RunAfter(ms: seq<Member>, i: nat, pos: nat)
    requires Tree(ms) && i < |ms| && pos < |Listing(ms)| && Listing(ms)[pos] == i
    ensures RunStarts(ms, Listing(ms), pos + 1, Below(ms, i), ms[i].depth)
    ensures forall k :: 0 <= k < |Below(ms, i)| ==> Below(ms, i)[k] < |ms| && ms[Below(ms, i)[k]].depth > ms[i].depth
  {
    hide Under, Listing;
    var a, b := SubtreeIsARun(ms, i);
    ListingIsPermutation(ms);
    BelowIs(ms, i);
    var order := Listing(ms);
    assert order[|a|] == i;
    assert |a| == pos;
    forall k | 0 <= k < |Below(ms, i)|
      ensures order[pos + 1 + k] == Below(ms, i)[k]
    {
      assert order[|a| + (k + 1)] == Under(ms, i)[k + 1];
    }
    if pos + 1 + |Below(ms, i)| < |order| {
      assert order[|a| + |Under(ms, i)|] == b[0];
    }
  }

  /** Going through the run, a member is deeper than the container exactly until the run is over. */
  lemma InRun(ms: seq<Member>, i: nat, pos: nat, j: nat)
    requires Tree(ms) && i < |ms| && pos < |Listing(ms)| && Listing(ms)[pos] == i && pos + 1 <= j <= pos + 1 + |Below(ms, i)|
    ensures j <= |Listing(ms)| && (j < |Listing(ms)| ==> Listing(ms)[j] < |ms|)
    ensures j < |Listing(ms)| && ms[Listing(ms)[j]].depth > ms[i].depth <==> j < pos + 1 + |Below(ms, i)|
    ensures j < pos + 1 + |Below(ms, i)| ==> Listing(ms)[j] == Below(ms, i)[j - pos - 1]
  {
    hide Under, Listing, Below;
    RunAfter(ms, i, pos);
    if j < pos + 1 + |Below(ms, i)| {
      assert Listing(ms)[pos + 1 + (j - pos - 1)] == Below(ms, i)[j - pos - 1];
    }
  }

  /** The row at hand, as the writer puts it together. */
  lemma NextRow(ms: seq<Member>, i: nat, k: nat, localOf: map<nat, nat>)
    requires Tree(ms) && i < |ms| && k < |Below(ms, i)| && Below(ms, i)[k] < |ms|
    requires Noted(ms, i, k, localOf)
    ensures Noted(ms, i, k + 1, localOf[Below(ms, i)[k] := k])
    ensures var x := Below(ms, i)[k];
      && ms[x].depth >= ms[i].depth && ms[x].parent.Some? && (ms[x].parent.value != i ==> ms[x].parent.value in localOf[x := k])
      && var prefix := |ms[i].path| + 1;
      RowsOf(ms, i)[k] == Row(if prefix <= |ms[x].path| then ms[x].path[prefix..] else "",
                              if ms[x].parent.value == i then None else Some(localOf[x := k][ms[x].parent.value]),
                              ms[x].ord, ms[x].depth - ms[i].depth, ms[x].facts)
  {
    hide Under, Below, RowOf;
    RowsAreDefined(ms, i);
    BelowIs(ms, i);
    ParentEarlier(ms, i, k);
    IndexIs(Below(ms, i), k);
    RowIs(ms, i, Below(ms, i), Below(ms, i)[k]);
  }

  /** The rows given so far, by member. */
  predicate Noted(ms: seq<Member>, i: nat, n: nat, localOf: map<nat, nat>)
    requires Tree(ms) && i < |ms| && n <= |Below(ms, i)|
  {
    && (forall x :: x in localOf ==> x in Below(ms, i) && localOf[x] == IndexOf(Below(ms, i), x))
    && (forall k :: 0 <= k < n ==> Below(ms, i)[k] in localOf)
  }

  /** The cache writer: from the container's place in the listing on, for as long as members are deeper. */
  method WriteRows(ms: seq<Member>, order: seq<nat>, i: nat, pos: nat) returns (rows: seq<Row>)
    requires Tree(ms) && i < |ms| && order == Listing(ms) && pos < |order| && order[pos] == i
    ensures rows == RowsOf(ms, i)
  {
    hide Under, Listing, Below, RowOf, Noted;
    InRun(ms, i, pos, pos + 1);
    NoneNoted(ms, i);
    var baseDepth := ms[i].depth;
    var localOf: map<nat, nat> := map[];
    rows := [];
    var j := pos + 1;
    while j < |order| && ms[order[j]].depth > baseDepth
      invariant pos + 1 <= j <= pos + 1 + |Below(ms, i)| && j <= |order| && |rows| == j - pos - 1
      invariant j < |order| ==> order[j] < |ms|
      invariant j < |order| && ms[order[j]].depth > baseDepth <==> j < pos + 1 + |Below(ms, i)|
      invariant rows == RowsOf(ms, i)[..j - pos - 1] && Noted(ms, i, j - pos - 1, localOf)
      decreases |order| - j
    {
      InRun(ms, i, pos, j);
      NextRow(ms, i, j - pos - 1, localOf);
      var x := order[j];
      localOf := localOf[x := |rows|];
      var parent := if ms[x].parent.value == i then None else Some(localOf[ms[x].parent.value]);
      var prefix := |ms[i].path| + 1;
      rows := rows + [Row(if prefix <= |ms[x].path| then ms[x].path[prefix..] else "",
                          parent, ms[x].ord, ms[x].depth - baseDepth, ms[x].facts)];
      j := j + 1;
      InRun(ms, i, pos, j);
    }
  }

  lemma NoneNoted(ms: seq<Member>, i: nat)
    requires Tree(ms) && i < |ms|
    ensures Noted(ms, i, 0, map[])
  {
  }

  lemma RowIs(ms: seq<Member>, i: nat, run: seq<nat>, x: nat)
    requires i < |ms| && x < |ms| && ms[x].depth >= ms[i].depth
    requires ms[x].parent.Some? && (ms[x].parent.value == i || ms[x].parent.value in run)
    ensures RowOf(ms, i, run, x) ==
      Row(if |ms[i].path| + 1 <= |ms[x].path| then ms[x].path[|ms[i].path| + 1..] else "",
          if ms[x].parent.value == i then None else Some(IndexOf(run, ms[x].parent.value)),
          ms[x].ord, ms[x].depth - ms[i].depth, ms[x].facts)
  {
  }

  // ------------------------------------------------------------- replay

  function Filled(row: Row, basePath: string, baseDepth: nat, parent: nat): Member {
    Member(basePath + "!" + row.rel, baseDepth + row.depth, Some(parent), row.ord, false, row.facts)
  }

  /** The slot a row's parent went to. */
  function ParentSlot(rows: seq<Row>, slots: seq<nat>, container: nat, k: nat): nat
    requires k < |rows| <= |slots| && ParentsFirst(rows)
  {
    match rows[k].parent
    case None => container
    case Some(p) => slots[p]
  }

  /** `materialize_cached`, given the slots the pool hands out for the rows in turn. */
  method Replay(rows: seq<Row>, slots: seq<nat>, container: nat, basePath: string, baseDepth: nat) returns (filled: seq<Member>)
    requires ParentsFirst(rows) && |slots| == |rows|
    ensures |filled| == |rows|
    ensures forall k :: 0 <= k < |rows| ==> filled[k] == Filled(rows[k], basePath, baseDepth, ParentSlot(rows, slots, container, k))
  {
    var slotOf: seq<nat> := [];
    filled := [];
    var k := 0;
    while k < |rows|
      invariant 0 <= k <= |rows| && slotOf == slots[..k] && |filled| == k
      invariant forall l :: 0 <= l < k ==> filled[l] == Filled(rows[l], basePath, baseDepth, ParentSlot(rows, slots, container, l))
    {
      var parent := match rows[k].parent case Some(p) => slotOf[p] case None => container;
      slotOf := slotOf + [slots[k]];
      filled := filled + [Filled(rows[k], basePath, baseDepth, parent)];
      k := k + 1;
    }
  }
}
