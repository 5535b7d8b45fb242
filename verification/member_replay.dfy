/** A cached descent replayed is the descent: same tree, same order, same rows. */
module MemberReplay {
  import opened Wrappers
  import opened MemberTree
  import opened MemberListing
  import opened MemberCache
  import opened MemberReport

  /** Table `now` holds, under its member `c`, the rows of `i` in table `ms` replayed into `slots`. */
  predicate Replayed(ms: seq<Member>, i: nat, now: seq<Member>, c: nat, slots: seq<nat>)
  {
    && Tree(ms) && Tree(now) && i < |ms| && c < |now| && |slots| == |RowsOf(ms, i)| && ParentsFirst(RowsOf(ms, i))
    && (forall a, b :: 0 <= a < b < |slots| ==> slots[a] < slots[b])
    && (forall k :: 0 <= k < |slots| ==> c < slots[k] < |now|)
    && (forall k :: 0 <= k < |slots| ==>
          now[slots[k]] == Filled(RowsOf(ms, i)[k], now[c].path, now[c].depth, ParentSlot(RowsOf(ms, i), slots, c, k)))
    && (forall y :: 0 <= y < |now| && y !in slots && now[y].parent.Some? ==> now[y].parent.value != c && now[y].parent.value !in slots)
  }

  /** Where the member listed with `x` went. */
  function Image(from: seq<nat>, to: seq<nat>, x: nat): nat
    requires |from| == |to| && x in from
  {
    to[IndexOf(from, x)]
  }

  predicate AllIn(ks: seq<nat>, from: seq<nat>) {
    forall k :: 0 <= k < |ks| ==> ks[k] in from
  }

  function Images(from: seq<nat>, to: seq<nat>, ks: seq<nat>): (r: seq<nat>)
    requires |from| == |to| && AllIn(ks, from)
    ensures |r| == |ks| && forall k :: 0 <= k < |ks| ==> r[k] == Image(from, to, ks[k])
  {
    seq(|ks|, k requires 0 <= k < |ks| => Image(from, to, ks[k]))
  }

  lemma ImagesOfAll(from: seq<nat>, to: seq<nat>)
    requires |from| == |to| && Distinct(from)
    ensures Images(from, to, from) == to
  {
    forall k | 0 <= k < |from|
      ensures Image(from, to, from[k]) == to[k]
    {
      IndexIs(from, k);
    }
  }

  lemma ImagesJoin(from: seq<nat>, to: seq<nat>, a: seq<nat>, b: seq<nat>)
    requires |from| == |to| && AllIn(a, from) && AllIn(b, from)
    ensures AllIn(a + b, from) && Images(from, to, a + b) == Images(from, to, a) + Images(from, to, b)
  {
  }

  lemma ImageApart(from: seq<nat>, to: seq<nat>, x: nat, y: nat)
    requires |from| == |to| && Distinct(to) && x in from && y in from && Image(from, to, x) == Image(from, to, y)
    ensures x == y
  {
    var a, b := IndexOf(from, x), IndexOf(from, y);
    assert to[a] == to[b];
  }

  /** The container and the slots, in order. */
  function Now(c: nat, slots: seq<nat>): seq<nat> {
    [c] + slots
  }

  lemma NowIsRising(ms: seq<Member>, i: nat, now: seq<Member>, c: nat, slots: seq<nat>)
    requires Replayed(ms, i, now, c, slots)
    ensures Tree(ms) && Tree(now) && i < |ms| && c < |now|
    ensures Distinct(Under(ms, i)) && |Under(ms, i)| == |Now(c, slots)| && Rising(Now(c, slots)) && Distinct(Now(c, slots))
    ensures forall k :: 0 <= k < |Now(c, slots)| ==> Now(c, slots)[k] < |now|
  {
    hide Under, Below, Tree;
    BelowIs(ms, i);
    SlotsRise(c, slots);
  }

  lemma SlotsRise(c: nat, slots: seq<nat>)
    requires (forall a, b :: 0 <= a < b < |slots| ==> slots[a] < slots[b]) && forall k :: 0 <= k < |slots| ==> c < slots[k]
    ensures Rising(Now(c, slots)) && Distinct(Now(c, slots))
  {
  }

  // ------------------------------------------------------------- one member

  /** A row's member keeps its place among siblings, and its parent is its parent's image. */
  lemma ImageOfMember(ms: seq<Member>, i: nat, now: seq<Member>, c: nat, slots: seq<nat>, z: nat)
    requires Replayed(ms, i, now, c, slots) && z in Below(ms, i)
    ensures |Under(ms, i)| == |Now(c, slots)| && z in Under(ms, i) && z < |ms|
    ensures ms[z].parent.Some? && ms[z].parent.value in Under(ms, i)
    ensures var y := Image(Under(ms, i), Now(c, slots), z);
      y in slots && y < |now| && now[y].ord == ms[z].ord && now[y].parent == Some(Image(Under(ms, i), Now(c, slots), ms[z].parent.value))
  {
    hide Under, Below, Replayed, RowsOf;
    NowIsRising(ms, i, now, c, slots);
    BelowIs(ms, i);
    var run, all := Below(ms, i), Under(ms, i);
    var l := IndexOf(run, z);
    RowAt(ms, i, l);
    SlotAt(ms, i, now, c, slots, l);
    assert all[l + 1] == z;
    IndexIs(all, l + 1);
    var p := ms[z].parent.value;
    if p == i {
      assert all[0] == i;
      IndexIs(all, 0);
    } else {
      assert all[IndexOf(run, p) + 1] == p;
      IndexIs(all, IndexOf(run, p) + 1);
    }
  }

  lemma RowAt(ms: seq<Member>, i: nat, l: nat)
    requires Tree(ms) && i < |ms| && l < |Below(ms, i)|
    ensures var z := Below(ms, i)[l];
      && z < |ms| && ms[z].parent.Some? && (ms[z].parent.value == i || ms[z].parent.value in Below(ms, i))
      && RowsOf(ms, i)[l].ord == ms[z].ord
      && RowsOf(ms, i)[l].parent == if ms[z].parent.value == i then None else Some(IndexOf(Below(ms, i), ms[z].parent.value))
  {
    hide Under, Below;
    RowsAreDefined(ms, i);
    RowIs(ms, i, Below(ms, i), Below(ms, i)[l]);
  }

  lemma SlotAt(ms: seq<Member>, i: nat, now: seq<Member>, c: nat, slots: seq<nat>, l: nat)
    requires Replayed(ms, i, now, c, slots) && l < |slots|
    ensures |slots| == |RowsOf(ms, i)| && ParentsFirst(RowsOf(ms, i)) && slots[l] < |now|
    ensures now[slots[l]].ord == RowsOf(ms, i)[l].ord && now[slots[l]].parent == Some(ParentSlot(RowsOf(ms, i), slots, c, l))
  {
    hide Under, Below, RowsOf;
  }

  /** Children are listed in the order of their places, wherever the run they are listed in begins. */
  lemma KidsListedInOrder(ms: seq<Member>, i: nat, x: nat, a: nat, b: nat)
    requires Tree(ms) && i < |ms| && x < |ms| && Descends(ms, x, i) && a < b < |KidsOf(ms, Some(x))|
    ensures var ks, all := KidsOf(ms, Some(x)), Under(ms, i);
      ks[a] in all && ks[b] in all && IndexOf(all, ks[a]) < IndexOf(all, ks[b])
  {
    hide Under, UnderAll, KidsOf;
    var ks, all := KidsOf(ms, Some(x)), Under(ms, i);
    RunIsSubtree(ms, i, x);
    RunHasNoRepeat(ms, i);
    var u, v := RunInside(ms, i, x);
    UnderIs(ms, x);
    KidsAboveZero(ms, x);
    assert ks == ks[..b] + ks[b..];
    UnderAllJoins(ms, ks[..b], ks[b..], 0);
    assert ks[..b][a] == ks[a];
    HeadInRun(ms, ks[..b], a);
    FirstListed(ms, ks[b..]);
    var left, right := UnderAll(ms, ks[..b], 0), UnderAll(ms, ks[b..], 0);
    var at := IndexOf(left, ks[a]);
    assert all == u + ([x] + (left + right)) + v;
    assert all[|u| + 1 + at] == ks[a];
    assert all[|u| + 1 + |left|] == ks[b];
    IndexIs(all, |u| + 1 + at);
    IndexIs(all, |u| + 1 + |left|);
  }

  lemma KidsAboveZero(ms: seq<Member>, x: nat)
    requires Tree(ms) && x < |ms|
    ensures var ks := KidsOf(ms, Some(x)); forall b :: 0 <= b <= |ks| ==> Above(ms, ks[..b], 0) && Above(ms, ks[b..], 0)
  {
    hide KidsOf;
    KidsStand(ms, x);
  }

  lemma HeadInRun(ms: seq<Member>, ks: seq<nat>, a: nat)
    requires Tree(ms) && Above(ms, ks, 0) && a < |ks|
    ensures ks[a] in UnderAll(ms, ks, 0)
  {
    RunsAreSubtrees(ms, ks, 0, ks[a]);
    assert Descends(ms, ks[a], ks[a]);
  }

  lemma FirstListed(ms: seq<Member>, ks: seq<nat>)
    requires Tree(ms) && Above(ms, ks, 0) && ks != []
    ensures UnderAll(ms, ks, 0) != [] && UnderAll(ms, ks, 0)[0] == ks[0]
  {
  }

  // ------------------------------------------------------------- children

  lemma KidsAreIn(ms: seq<Member>, i: nat, x: nat)
    requires Tree(ms) && i < |ms| && x < |ms| && Descends(ms, x, i)
    ensures AllIn(KidsOf(ms, Some(x)), Under(ms, i))
    ensures forall z :: z in KidsOf(ms, Some(x)) ==> z in Below(ms, i)
  {
    hide Under, Below;
    BelowIs(ms, i);
    forall z | z in KidsOf(ms, Some(x))
      ensures z in Below(ms, i)
    {
      assert Rooted(ms, z);
      assert Descends(ms, z, i);
      DeeperBelow(ms, x, i);
    }
    var ks := KidsOf(ms, Some(x));
    forall k | 0 <= k < |ks|
      ensures ks[k] in Under(ms, i)
    {
      assert ks[k] in ks;
    }
  }

  /** The children of a member's image are its children's images, in the same order. */
  lemma KidsOfImage(ms: seq<Member>, i: nat, now: seq<Member>, c: nat, slots: seq<nat>, x: nat)
    requires Replayed(ms, i, now, c, slots) && x < |ms| && Descends(ms, x, i)
    ensures |Under(ms, i)| == |Now(c, slots)| && x in Under(ms, i) && AllIn(KidsOf(ms, Some(x)), Under(ms, i))
    ensures KidsOf(now, Some(Image(Under(ms, i), Now(c, slots), x))) == Images(Under(ms, i), Now(c, slots), KidsOf(ms, Some(x)))
  {
    hide Under, Below, Image, KidsOf;
    NowIsRising(ms, i, now, c, slots);
    RunIsSubtree(ms, i, x);
    KidsAreIn(ms, i, x);
    var all, to := Under(ms, i), Now(c, slots);
    var want := Images(all, to, KidsOf(ms, Some(x)));
    ImagesAreOrdered(ms, i, now, c, slots, x);
    forall y: nat
      ensures y in KidsOf(now, Some(Image(all, to, x))) <==> y in want
    {
      KidOfImage(ms, i, now, c, slots, x, y);
    }
    OrderedIsUnique(now, KidsOf(now, Some(Image(all, to, x))), want);
  }

  lemma ImagesAreOrdered(ms: seq<Member>, i: nat, now: seq<Member>, c: nat, slots: seq<nat>, x: nat)
    requires Replayed(ms, i, now, c, slots) && x < |ms| && Descends(ms, x, i)
    requires |Under(ms, i)| == |Now(c, slots)| && AllIn(KidsOf(ms, Some(x)), Under(ms, i))
    ensures var want := Images(Under(ms, i), Now(c, slots), KidsOf(ms, Some(x))); Inside(now, want) && Ordered(now, want)
  {
    hide Under, Below, Replayed;
    NowIsRising(ms, i, now, c, slots);
    var ks, all, to := KidsOf(ms, Some(x)), Under(ms, i), Now(c, slots);
    var want := Images(all, to, ks);
    forall a | 0 <= a < |want|
      ensures want[a] < |now|
    {
      assert want[a] == to[IndexOf(all, ks[a])];
    }
    forall a, b | 0 <= a < b < |want|
      ensures Comes(now, want[a], want[b])
    {
      KidsAreIn(ms, i, x);
      assert ks[a] in ks && ks[b] in ks;
      ImageOfMember(ms, i, now, c, slots, ks[a]);
      ImageOfMember(ms, i, now, c, slots, ks[b]);
      assert Comes(ms, ks[a], ks[b]);
      KidsListedInOrder(ms, i, x, a, b);
    }
  }

  lemma KidOfImage(ms: seq<Member>, i: nat, now: seq<Member>, c: nat, slots: seq<nat>, x: nat, y: nat)
    requires Replayed(ms, i, now, c, slots) && x < |ms| && Descends(ms, x, i)
    requires |Under(ms, i)| == |Now(c, slots)| && x in Under(ms, i) && AllIn(KidsOf(ms, Some(x)), Under(ms, i))
    ensures y in KidsOf(now, Some(Image(Under(ms, i), Now(c, slots), x))) <==>
            y in Images(Under(ms, i), Now(c, slots), KidsOf(ms, Some(x)))
  {
    hide Under, Below, Replayed, Images, KidsOf, Image;
    NowIsRising(ms, i, now, c, slots);
    var all, to := Under(ms, i), Now(c, slots);
    if y in Images(all, to, KidsOf(ms, Some(x))) {
      ImageIsKid(ms, i, now, c, slots, x, y);
    }
    if y in KidsOf(now, Some(Image(all, to, x))) {
      KidIsImage(ms, i, now, c, slots, x, y);
    }
  }

  lemma ImageIsKid(ms: seq<Member>, i: nat, now: seq<Member>, c: nat, slots: seq<nat>, x: nat, y: nat)
    requires Replayed(ms, i, now, c, slots) && x < |ms| && Descends(ms, x, i)
    requires |Under(ms, i)| == |Now(c, slots)| && x in Under(ms, i) && AllIn(KidsOf(ms, Some(x)), Under(ms, i))
    requires y in Images(Under(ms, i), Now(c, slots), KidsOf(ms, Some(x)))
    ensures y in KidsOf(now, Some(Image(Under(ms, i), Now(c, slots), x)))
  {
    hide Under, Below, Replayed;
    NowIsRising(ms, i, now, c, slots);
    var ks, all, to := KidsOf(ms, Some(x)), Under(ms, i), Now(c, slots);
    KidsAreIn(ms, i, x);
    var k :| 0 <= k < |ks| && Images(all, to, ks)[k] == y;
    assert ks[k] in ks;
    ImageOfMember(ms, i, now, c, slots, ks[k]);
  }

  lemma KidIsImage(ms: seq<Member>, i: nat, now: seq<Member>, c: nat, slots: seq<nat>, x: nat, y: nat)
    requires Replayed(ms, i, now, c, slots) && x < |ms| && Descends(ms, x, i)
    requires |Under(ms, i)| == |Now(c, slots)| && x in Under(ms, i) && AllIn(KidsOf(ms, Some(x)), Under(ms, i))
    requires y in KidsOf(now, Some(Image(Under(ms, i), Now(c, slots), x)))
    ensures y in Images(Under(ms, i), Now(c, slots), KidsOf(ms, Some(x)))
  {
    hide Under, Below, Replayed;
    NowIsRising(ms, i, now, c, slots);
    var ks, all, to := KidsOf(ms, Some(x)), Under(ms, i), Now(c, slots);
    assert Image(all, to, x) in to;
    KidIsReplayed(ms, i, now, c, slots, y);
    var l :| 0 <= l < |slots| && slots[l] == y;
    BelowIs(ms, i);
    var z := Below(ms, i)[l];
    assert z in Below(ms, i);
    assert all[l + 1] == z && to[l + 1] == y;
    IndexIs(all, l + 1);
    ImageOfMember(ms, i, now, c, slots, z);
    ImageApart(all, to, ms[z].parent.value, x);
    assert z in ks;
    var k :| 0 <= k < |ks| && ks[k] == z;
    assert Images(all, to, ks)[k] == y;
  }

  /** Nothing else in the table hangs under the container or what was replayed. */
  lemma KidIsReplayed(ms: seq<Member>, i: nat, now: seq<Member>, c: nat, slots: seq<nat>, y: nat)
    requires Replayed(ms, i, now, c, slots) && y < |now| && now[y].parent.Some? && now[y].parent.value in Now(c, slots)
    ensures y in slots
  {
    hide RowsOf;
  }

  // ------------------------------------------------------------- runs

  lemma {:induction false} RunOfImage(ms: seq<Member>, i: nat, now: seq<Member>, c: nat, slots: seq<nat>, x: nat)
    requires Replayed(ms, i, now, c, slots) && x < |ms| && Descends(ms, x, i)
    ensures |Under(ms, i)| == |Now(c, slots)| && x in Under(ms, i) && AllIn(Under(ms, x), Under(ms, i))
    ensures Image(Under(ms, i), Now(c, slots), x) < |now|
    ensures Under(now, Image(Under(ms, i), Now(c, slots), x)) == Images(Under(ms, i), Now(c, slots), Under(ms, x))
    decreases |ms| - x, 1, 0
  {
    hide Under, Below, KidsOf, UnderAll, Images, Replayed;
    NowIsRising(ms, i, now, c, slots);
    RunIsSubtree(ms, i, x);
    KidsOfImage(ms, i, now, c, slots, x);
    var ks, all, to := KidsOf(ms, Some(x)), Under(ms, i), Now(c, slots);
    UnderIs(ms, x);
    KidsStand(ms, x);
    KidsAreIn(ms, i, x);
    RunsOfImages(ms, i, now, c, slots, ks, x + 1);
    LowIsFree(ms, ks, x + 1, 0);
    UnderIs(now, Image(all, to, x));
    OneImage(all, to, x);
    ImagesJoin(all, to, [x], UnderAll(ms, ks, 0));
  }

  lemma OneImage(from: seq<nat>, to: seq<nat>, x: nat)
    requires |from| == |to| && x in from
    ensures AllIn([x], from) && Images(from, to, [x]) == [Image(from, to, x)]
  {
  }

  lemma {:induction false} RunsOfImages(ms: seq<Member>, i: nat, now: seq<Member>, c: nat, slots: seq<nat>, ks: seq<nat>, low: nat)
    requires Replayed(ms, i, now, c, slots) && low <= |ms| && Above(ms, ks, low) && AllIn(ks, Under(ms, i))
    requires |Under(ms, i)| == |Now(c, slots)|
    ensures AllIn(UnderAll(ms, ks, low), Under(ms, i)) && Above(now, Images(Under(ms, i), Now(c, slots), ks), 0)
    ensures UnderAll(now, Images(Under(ms, i), Now(c, slots), ks), 0) == Images(Under(ms, i), Now(c, slots), UnderAll(ms, ks, low))
    decreases |ms| - low, 2, |ks|
  {
    hide Under, Below, KidsOf, Replayed;
    NowIsRising(ms, i, now, c, slots);
    var all, to := Under(ms, i), Now(c, slots);
    if ks == [] {
      assert Images(all, to, ks) == [];
    } else {
      assert ks[0] in all;
      RunIsSubtree(ms, i, ks[0]);
      RunOfImage(ms, i, now, c, slots, ks[0]);
      RunsOfImages(ms, i, now, c, slots, ks[1..], low);
      ImagesJoin(all, to, Under(ms, ks[0]), UnderAll(ms, ks[1..], low));
      assert Images(all, to, ks) == [Image(all, to, ks[0])] + Images(all, to, ks[1..]);
      UnderFirst(now, Image(all, to, ks[0]), Images(all, to, ks[1..]));
    }
  }

  /** The replayed container lists its replayed members exactly as the original listed its own. */
  lemma ReplayListsTheSame(ms: seq<Member>, i: nat, now: seq<Member>, c: nat, slots: seq<nat>)
    requires Replayed(ms, i, now, c, slots)
    ensures Under(now, c) == [c] + slots
  {
    hide Under, Below, Replayed;
    NowIsRising(ms, i, now, c, slots);
    assert Descends(ms, i, i);
    UnderIs(ms, i);
    RunOfImage(ms, i, now, c, slots, i);
    IndexIs(Under(ms, i), 0);
    ImagesOfAll(Under(ms, i), Now(c, slots));
  }

  /** Caching the replayed container gives back the very rows it was replayed from. */
  lemma CacheRoundTrip(ms: seq<Member>, i: nat, now: seq<Member>, c: nat, slots: seq<nat>)
    requires Replayed(ms, i, now, c, slots)
    ensures RowsOf(now, c) == RowsOf(ms, i)
  {
    hide Under, UnderAll;
    ReplayListsTheSame(ms, i, now, c, slots);
    assert Below(now, c) == slots;
    forall k | 0 <= k < |slots|
      ensures RowsOf(now, c)[k] == RowsOf(ms, i)[k]
    {
      RowComesBack(ms, i, now, c, slots, k);
    }
  }

  lemma RowComesBack(ms: seq<Member>, i: nat, now: seq<Member>, c: nat, slots: seq<nat>, k: nat)
    requires Replayed(ms, i, now, c, slots) && Below(now, c) == slots && k < |slots|
    ensures RowsOf(now, c)[k] == RowsOf(ms, i)[k]
  {
    hide Under, Below;
    RowsAreDefined(now, c);
    var y, row := slots[k], RowsOf(ms, i)[k];
    RowIs(now, c, slots, y);
    var base := now[c].path;
    assert (base + "!" + row.rel)[|base| + 1..] == row.rel;
    match row.parent {
      case None =>
      case Some(p) => IndexIs(slots, p);
    }
  }

  // ------------------------------------------------------------- from the pool's slots to the table

  /** The pool's slots once a cached descent is replayed: the container at `c`, its rows' members in the
      slots reserved for them, and nothing else of the pool under either. */
  predicate SlotsHold(ms: seq<Member>, i: nat, table: seq<Option<Member>>, dead: seq<nat>, c: nat, slots: seq<nat>)
  {
    && Tree(ms) && i < |ms| && |slots| == |RowsOf(ms, i)| && ParentsFirst(RowsOf(ms, i))
    && c < |table| && Alive(table, dead, c)
    && (forall a, b :: 0 <= a < b < |slots| ==> slots[a] < slots[b])
    && (forall k :: 0 <= k < |slots| ==> c < slots[k] < |table| && Alive(table, dead, slots[k]))
    && (forall k :: 0 <= k < |slots| ==>
          table[slots[k]].value == Filled(RowsOf(ms, i)[k], table[c].value.path, table[c].value.depth, ParentSlot(RowsOf(ms, i), slots, c, k)))
    && (forall s :: 0 <= s < |table| && Alive(table, dead, s) && s !in slots ==>
          && StandsUnder(table, dead, s)
          && (table[s].value.parent.Some? ==> table[s].value.parent.value != c && table[s].value.parent.value !in slots))
  }

  /** `fill_slot` for each row in turn: the members in their slots, everything else as it was. */
  method FillSlots(table: seq<Option<Member>>, slots: seq<nat>, filled: seq<Member>) returns (r: seq<Option<Member>>)
    requires |filled| == |slots| && forall k :: 0 <= k < |slots| ==> slots[k] < |table|
    requires forall a, b :: 0 <= a < b < |slots| ==> slots[a] < slots[b]
    ensures |r| == |table| && forall k :: 0 <= k < |slots| ==> r[slots[k]] == Some(filled[k])
    ensures forall s :: 0 <= s < |table| && s !in slots ==> r[s] == table[s]
  {
    r := table;
    var k := 0;
    while k < |slots|
      invariant 0 <= k <= |slots| && |r| == |table|
      invariant forall l :: 0 <= l < k ==> r[slots[l]] == Some(filled[l])
      invariant forall s :: 0 <= s < |table| && s !in slots ==> r[s] == table[s]
    {
      r := r[slots[k] := Some(filled[k])];
      k := k + 1;
    }
  }

  /** A row one level below its parent's. */
  lemma RowDepths(ms: seq<Member>, i: nat, k: nat)
    requires Tree(ms) && i < |ms| && k < |RowsOf(ms, i)|
    ensures var rows := RowsOf(ms, i);
      match rows[k].parent
      case None => rows[k].depth == 1
      case Some(p) => p < k && rows[k].depth == rows[p].depth + 1
  {
    hide Under, Below;
    ParentEarlier(ms, i, k);
    RowsAreDefined(ms, i);
    RowsHaveParentsFirst(ms, i);
    RowIs(ms, i, Below(ms, i), Below(ms, i)[k]);
    assert Rooted(ms, Below(ms, i)[k]);
  }

  lemma SlotStands(ms: seq<Member>, i: nat, table: seq<Option<Member>>, dead: seq<nat>, c: nat, slots: seq<nat>, k: nat)
    requires SlotsHold(ms, i, table, dead, c, slots) && k < |slots|
    ensures slots[k] < |table| && Alive(table, dead, slots[k]) && StandsUnder(table, dead, slots[k])
  {
    hide RowsOf, Tree;
    RowDepths(ms, i, k);
  }

  lemma AllStand(ms: seq<Member>, i: nat, table: seq<Option<Member>>, dead: seq<nat>, c: nat, slots: seq<nat>)
    requires SlotsHold(ms, i, table, dead, c, slots)
    ensures forall s :: 0 <= s < |table| && Alive(table, dead, s) ==> StandsUnder(table, dead, s)
  {
    hide StandsUnder, RowsOf, Tree;
    forall s | 0 <= s < |table| && Alive(table, dead, s)
      ensures StandsUnder(table, dead, s)
    {
      if s in slots {
        var k :| 0 <= k < |slots| && slots[k] == s;
        SlotStands(ms, i, table, dead, c, slots, k);
      }
    }
  }

  function Renumbered(table: seq<Option<Member>>, dead: seq<nat>, slots: seq<nat>): (r: seq<nat>)
    requires forall k :: 0 <= k < |slots| ==> slots[k] < |table|
    ensures |r| == |slots| && forall k :: 0 <= k < |slots| ==> r[k] == Survivors(table, dead, slots[k])
  {
    seq(|slots|, k requires 0 <= k < |slots| => Survivors(table, dead, slots[k]))
  }

  /** Survivors keep apart when renumbered. */
  lemma SurvivorsApart(table: seq<Option<Member>>, dead: seq<nat>, a: nat, b: nat)
    requires a < |table| && b < |table| && Alive(table, dead, a) && Alive(table, dead, b)
    ensures Survivors(table, dead, a) < Survivors(table, dead, b) <==> a < b
    ensures Survivors(table, dead, a) == Survivors(table, dead, b) <==> a == b
  {
    if a < b {
      SurvivorsRise(table, dead, a, b);
    } else if b < a {
      SurvivorsRise(table, dead, b, a);
    }
  }

  /** The table put together from slots a cached descent was replayed into holds it as a replay. */
  lemma CompactedReplay(ms: seq<Member>, i: nat, table: seq<Option<Member>>, dead: seq<nat>, c: nat, slots: seq<nat>, now: seq<Member>)
    requires SlotsHold(ms, i, table, dead, c, slots) && Compacted(table, dead, |table|, now)
    ensures Replayed(ms, i, now, Survivors(table, dead, c), Renumbered(table, dead, slots))
  {
    hide Survivors, RowsOf, StandsUnder;
    AllStand(ms, i, table, dead, c, slots);
    CompactedIsTree(table, dead, now);
    var to := Renumbered(table, dead, slots);
    forall a, b | 0 <= a < b < |to|
      ensures to[a] < to[b]
    {
      SurvivorsApart(table, dead, slots[a], slots[b]);
    }
    forall k | 0 <= k < |to|
      ensures Survivors(table, dead, c) < to[k] < |now|
      ensures now[to[k]] == Filled(RowsOf(ms, i)[k], now[Survivors(table, dead, c)].path, now[Survivors(table, dead, c)].depth,
                                   ParentSlot(RowsOf(ms, i), to, Survivors(table, dead, c), k))
    {
      ReplayedSlot(ms, i, table, dead, c, slots, now, k);
    }
    forall y | 0 <= y < |now| && y !in to && now[y].parent.Some?
      ensures now[y].parent.value != Survivors(table, dead, c) && now[y].parent.value !in to
    {
      OtherSlot(ms, i, table, dead, c, slots, now, y);
    }
  }

  lemma ReplayedSlot(ms: seq<Member>, i: nat, table: seq<Option<Member>>, dead: seq<nat>, c: nat, slots: seq<nat>, now: seq<Member>, k: nat)
    requires SlotsHold(ms, i, table, dead, c, slots) && Compacted(table, dead, |table|, now) && k < |slots|
    ensures var to, at := Renumbered(table, dead, slots), Survivors(table, dead, c);
      && at < to[k] < |now|
      && now[to[k]] == Filled(RowsOf(ms, i)[k], now[at].path, now[at].depth, ParentSlot(RowsOf(ms, i), to, at, k))
  {
    hide Survivors, RowsOf, Tree, StandsUnder;
    SurvivorsApart(table, dead, c, slots[k]);
  }

  /** A survivor outside the replay hangs under nothing of it. */
  lemma OtherSlot(ms: seq<Member>, i: nat, table: seq<Option<Member>>, dead: seq<nat>, c: nat, slots: seq<nat>, now: seq<Member>, y: nat)
    requires SlotsHold(ms, i, table, dead, c, slots) && Compacted(table, dead, |table|, now)
    requires y < |now| && y !in Renumbered(table, dead, slots) && now[y].parent.Some?
    ensures now[y].parent.value != Survivors(table, dead, c) && now[y].parent.value !in Renumbered(table, dead, slots)
  {
    hide Survivors, RowsOf, Tree;
    var to := Renumbered(table, dead, slots);
    var s := SurvivorAt(table, dead, |table|, y);
    forall k | 0 <= k < |slots|
      ensures slots[k] != s
    {
      assert to[k] in to;
    }
    assert StandsUnder(table, dead, s);
    var p := table[s].value.parent.value;
    SurvivorsApart(table, dead, p, c);
    forall k | 0 <= k < |to|
      ensures to[k] != Survivors(table, dead, p)
    {
      SurvivorsApart(table, dead, p, slots[k]);
    }
  }

  /** The pool before the replay: the container in its slot, slots reserved for the rows after it, and
      every other survivor standing in a tree with nothing under the container. */
  predicate Reserved(table: seq<Option<Member>>, dead: seq<nat>, c: nat, slots: seq<nat>)
  {
    && c < |table| && Alive(table, dead, c) && c !in slots
    && (forall a, b :: 0 <= a < b < |slots| ==> slots[a] < slots[b])
    && (forall k :: 0 <= k < |slots| ==> c < slots[k] < |table| && slots[k] !in dead)
    && (forall s :: 0 <= s < |table| && Alive(table, dead, s) && s !in slots ==> StandsClear(table, dead, c, slots, s))
  }

  predicate StandsClear(table: seq<Option<Member>>, dead: seq<nat>, c: nat, slots: seq<nat>, s: nat)
    requires s < |table| && Alive(table, dead, s)
  {
    && StandsUnder(table, dead, s)
    && (table[s].value.parent.Some? ==> table[s].value.parent.value != c && table[s].value.parent.value !in slots)
  }

  lemma FilledHolds(ms: seq<Member>, i: nat, table: seq<Option<Member>>, after: seq<Option<Member>>, dead: seq<nat>, c: nat,
                    slots: seq<nat>, filled: seq<Member>)
    requires Tree(ms) && i < |ms| && |slots| == |RowsOf(ms, i)| == |filled| && ParentsFirst(RowsOf(ms, i)) && Reserved(table, dead, c, slots)
    requires |after| == |table| && (forall k :: 0 <= k < |slots| ==> after[slots[k]] == Some(filled[k]))
    requires forall s :: 0 <= s < |table| && s !in slots ==> after[s] == table[s]
    requires forall k :: 0 <= k < |slots| ==>
               filled[k] == Filled(RowsOf(ms, i)[k], table[c].value.path, table[c].value.depth, ParentSlot(RowsOf(ms, i), slots, c, k))
    ensures SlotsHold(ms, i, after, dead, c, slots)
  {
    hide RowsOf, Tree, Filled;
    forall s | 0 <= s < |after| && Alive(after, dead, s) && s !in slots
      ensures StandsUnder(after, dead, s)
      ensures after[s].value.parent.Some? ==> after[s].value.parent.value != c && after[s].value.parent.value !in slots
    {
      assert StandsClear(table, dead, c, slots, s);
    }
  }

  /** How many slots before `n` are kept once the reserved ones are filled. */
  function Kept(table: seq<Option<Member>>, dead: seq<nat>, slots: seq<nat>, n: nat): nat
    requires n <= |table|
  {
    if n == 0 then 0
    else Kept(table, dead, slots, n - 1) + (if (table[n - 1].Some? || n - 1 in slots) && n - 1 !in dead then 1 else 0)
  }

  lemma {:induction false} KeptIsSurvivors(table: seq<Option<Member>>, after: seq<Option<Member>>, dead: seq<nat>, slots: seq<nat>, n: nat)
    requires n <= |table| == |after| && forall s :: 0 <= s < n ==> (after[s].Some? <==> table[s].Some? || s in slots)
    ensures Survivors(after, dead, n) == Kept(table, dead, slots, n)
  {
    if n > 0 {
      KeptIsSurvivors(table, after, dead, slots, n - 1);
    }
  }

  /** Before every reserved slot, filling them keeps nothing more. */
  lemma {:induction false} KeptBefore(table: seq<Option<Member>>, dead: seq<nat>, slots: seq<nat>, n: nat)
    requires n <= |table| && forall k :: 0 <= k < |slots| ==> n <= slots[k]
    ensures Kept(table, dead, slots, n) == Survivors(table, dead, n)
  {
    if n > 0 {
      KeptBefore(table, dead, slots, n - 1);
    }
  }

  /** Rows replayed into reserved slots and the table put together: caching the container again gives the
      same rows. */
  method ReplayAndCompact(table: seq<Option<Member>>, dead: seq<nat>, c: nat, slots: seq<nat>, rows: seq<Row>,
                          ghost ms: seq<Member>, ghost i: nat)
    returns (now: seq<Member>, ghost at: nat, ghost to: seq<nat>)
    requires Tree(ms) && i < |ms| && rows == RowsOf(ms, i) && |slots| == |rows| && Reserved(table, dead, c, slots)
    ensures at == Survivors(table, dead, c) && |to| == |slots|
    ensures forall k :: 0 <= k < |slots| ==> to[k] == Kept(table, dead, slots, slots[k])
    ensures Replayed(ms, i, now, at, to) && RowsOf(now, at) == rows
    ensures now[at].path == table[c].value.path && now[at].depth == table[c].value.depth && now[at].facts == table[c].value.facts
  {
    hide RowsOf, Survivors, Kept;
    at, to := 0, [];
    RowsHaveParentsFirst(ms, i);
    var filled := Replay(rows, slots, c, table[c].value.path, table[c].value.depth);
    var after := FillSlots(table, slots, filled);
    FilledHolds(ms, i, table, after, dead, c, slots, filled);
    AllStand(ms, i, after, dead, c, slots);
    var compacted := CompactMembers(after, dead);
    now := compacted.value;
    CompactedReplay(ms, i, after, dead, c, slots, now);
    at, to := Survivors(after, dead, c), Renumbered(after, dead, slots);
    CacheRoundTrip(ms, i, now, at, to);
    KeptIsSurvivors(table, after, dead, slots, c);
    KeptBefore(table, dead, slots, c);
    forall k | 0 <= k < |slots|
      ensures to[k] == Kept(table, dead, slots, slots[k])
    {
      KeptIsSurvivors(table, after, dead, slots, slots[k]);
    }
  }
}
