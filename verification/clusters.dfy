/** Identity clusters: findings welded where they share an identity-grade coordinate, and nowhere else. */
module Clusters {
  import opened Wrappers
  import opened ByteStrings
  import opened Coords
  import opened UnionFind

  const MAX_EVIDENCE: nat := 1000

  /** What a source says: `body` stands for everything but the coordinates it lists, each of which may
      fail to parse. */
  datatype Finding = Finding(body: int, coords: seq<Option<Coord>>)

  /** A finding and the coordinate it was reached through. */
  datatype Evidence = Evidence(foundAt: Coord, finding: Finding)

  /** `members` are the findings' places in the evidence. */
  datatype Cluster = Cluster(members: seq<nat>, findings: seq<Finding>, coords: seq<Coord>, anchored: bool, primary: bool)

  datatype WalkResult = WalkResult(clusters: seq<Cluster>, truncated: bool, collision: bool)

  // ------------------------------------------------------------- effective coordinates

  function Parsed(coords: seq<Option<Coord>>): (r: seq<Coord>)
    ensures forall c :: c in r <==> Some(c) in coords
  {
    if coords == [] then []
    else
      assert coords == [coords[0]] + coords[1..];
      (if coords[0].Some? then [coords[0].value] else []) + Parsed(coords[1..])
  }

  /** The row carries another digest for the scheme it was looked up by: it describes other bytes. */
  predicate Contradicted(e: Evidence) {
    exists c :: c in Parsed(e.finding.coords) && c.scheme == e.foundAt.scheme && c != e.foundAt
  }

  function CoordsOf(e: Evidence): (r: seq<Coord>)
    ensures Sorted(r)
  {
    SortDedup(Parsed(e.finding.coords) + (if Contradicted(e) then [] else [e.foundAt]))
  }

  /** A query key is adopted exactly when the row states it or states nothing against it; every other
      effective coordinate is one the row states. */
  lemma EffectiveCoords(e: Evidence)
    ensures e.foundAt in CoordsOf(e) <==> Some(e.foundAt) in e.finding.coords || !Contradicted(e)
    ensures forall c :: c != e.foundAt ==> (c in CoordsOf(e) <==> Some(c) in e.finding.coords)
  {
  }

  predicate HasGraded(e: Evidence, c: Coord) {
    c in CoordsOf(e) && IdentityGrade(c.scheme)
  }

  // ------------------------------------------------------------- what connects findings

  predicate Shares(ev: seq<Evidence>, i: nat, j: nat, c: Coord)
    requires i < |ev| && j < |ev|
  {
    HasGraded(ev[i], c) && HasGraded(ev[j], c)
  }

  /** One identity-grade coordinate stands in both findings. */
  ghost predicate Linked(ev: seq<Evidence>, i: nat, j: nat)
    requires i < |ev| && j < |ev|
  {
    exists c :: Shares(ev, i, j, c)
  }

  ghost predicate Chain(ev: seq<Evidence>, p: seq<nat>, i: nat, j: nat) {
    && |p| > 0 && p[0] == i && p[|p| - 1] == j
    && (forall k :: 0 <= k < |p| ==> p[k] < |ev|)
    && (forall k :: 0 <= k < |p| - 1 ==> Linked(ev, p[k], p[k + 1]))
  }

  /** A chain of findings leads from one to the other, each sharing an identity-grade coordinate with
      the next. */
  ghost predicate Connected(ev: seq<Evidence>, i: nat, j: nat) {
    exists p :: Chain(ev, p, i, j)
  }

  lemma ConnectedToItself(ev: seq<Evidence>, i: nat)
    requires i < |ev|
    ensures Connected(ev, i, i)
  {
    assert Chain(ev, [i], i, i);
  }

  lemma ConnectedThrough(ev: seq<Evidence>, i: nat, x: nat, y: nat, j: nat)
    requires Connected(ev, i, x) && Connected(ev, y, j) && x < |ev| && y < |ev| && Linked(ev, x, y)
    ensures Connected(ev, i, j)
  {
    var p :| Chain(ev, p, i, x);
    var q :| Chain(ev, q, y, j);
    forall k | 0 <= k < |p + q| - 1
      ensures Linked(ev, (p + q)[k], (p + q)[k + 1])
    {
      if k == |p| - 1 {
      } else if k >= |p| {
        assert Linked(ev, q[k - |p|], q[k - |p| + 1]);
      }
    }
    assert Chain(ev, p + q, i, j);
  }

  /** Whatever links agree on, chains agree on. */
  lemma {:induction false} ChainAgrees(ev: seq<Evidence>, p: seq<nat>, i: nat, j: nat, root: seq<nat>)
    requires Chain(ev, p, i, j) && |root| == |ev|
    requires forall x, y :: 0 <= x < |ev| && 0 <= y < |ev| && Linked(ev, x, y) ==> root[x] == root[y]
    ensures root[i] == root[j]
  {
    if |p| > 1 {
      assert Linked(ev, p[0], p[0 + 1]);
      forall k | 0 <= k < |p[1..]| - 1
        ensures Linked(ev, p[1..][k], p[1..][k + 1])
      {
        assert Linked(ev, p[k + 1], p[k + 1 + 1]);
      }
      assert Chain(ev, p[1..], p[1], j);
      ChainAgrees(ev, p[1..], p[1], j, root);
    }
  }

  // ------------------------------------------------------------- welding

  /** Findings under one root are connected. */
  ghost predicate Welded(ev: seq<Evidence>, root: seq<nat>)
    requires |root| == |ev|
  {
    forall x, y :: 0 <= x < |ev| && 0 <= y < |ev| && root[x] == root[y] ==> Connected(ev, x, y)
  }

  /** Each anchor is a finding that has the coordinate. */
  predicate AnchorsHold(ev: seq<Evidence>, anchor: map<Coord, nat>) {
    forall c :: c in anchor ==> anchor[c] < |ev| && HasGraded(ev[anchor[c]], c)
  }

  /** Finding `x` sits under the root of its coordinate's anchor. */
  predicate Seen(ev: seq<Evidence>, root: seq<nat>, anchor: map<Coord, nat>, x: nat, c: Coord)
    requires |root| == |ev| && x < |ev|
  {
    c in anchor && anchor[c] < |ev| && root[x] == root[anchor[c]]
  }

  ghost predicate SeenAll(ev: seq<Evidence>, root: seq<nat>, anchor: map<Coord, nat>, n: nat)
    requires |root| == |ev| && n <= |ev|
  {
    forall x, c :: 0 <= x < n && HasGraded(ev[x], c) ==> Seen(ev, root, anchor, x, c)
  }

  predicate SeenSome(ev: seq<Evidence>, root: seq<nat>, anchor: map<Coord, nat>, i: nat, k: nat)
    requires |root| == |ev| && i < |ev| && k <= |CoordsOf(ev[i])|
  {
    forall j :: 0 <= j < k && IdentityGrade(CoordsOf(ev[i])[j].scheme) ==> Seen(ev, root, anchor, i, CoordsOf(ev[i])[j])
  }

  /** Merging two linked findings' classes keeps all of it. */
  lemma MergeKeeps(ev: seq<Evidence>, f: Forest, anchor: map<Coord, nat>, i: nat, k: nat, c: Coord)
    requires |f.root| == |f.height| == |ev| && i < |ev| && k < |CoordsOf(ev[i])| && c == CoordsOf(ev[i])[k] && IdentityGrade(c.scheme)
    requires Welded(ev, f.root) && AnchorsHold(ev, anchor) && SeenAll(ev, f.root, anchor, i) && SeenSome(ev, f.root, anchor, i, k)
    requires c in anchor && f.root[i] < |ev| && anchor[c] < |ev| && f.root[anchor[c]] < |ev|
    ensures var g := Merged(f, i, anchor[c]);
      Welded(ev, g.root) && SeenAll(ev, g.root, anchor, i) && SeenSome(ev, g.root, anchor, i, k + 1)
  {
    hide CoordsOf, Connected, IdentityGrade;
    var j, g := anchor[c], Merged(f, i, anchor[c]);
    assert Shares(ev, i, j, c) && Shares(ev, j, i, c);
    forall x, y | 0 <= x < |ev| && 0 <= y < |ev| && g.root[x] == g.root[y]
      ensures Connected(ev, x, y)
    {
      WeldedPair(ev, f, i, j, x, y);
    }
  }

  lemma WeldedPair(ev: seq<Evidence>, f: Forest, i: nat, j: nat, x: nat, y: nat)
    requires |f.root| == |f.height| == |ev| && i < |ev| && j < |ev| && x < |ev| && y < |ev| && Welded(ev, f.root)
    requires f.root[i] < |ev| && f.root[j] < |ev| && Linked(ev, i, j) && Linked(ev, j, i)
    requires Merged(f, i, j).root[x] == Merged(f, i, j).root[y]
    ensures Connected(ev, x, y)
  {
    hide Connected, Linked;
    if f.root[x] == f.root[y] {
    } else if f.root[x] == f.root[i] {
      ConnectedThrough(ev, x, i, j, y);
    } else {
      ConnectedThrough(ev, x, j, i, y);
    }
  }

  /** The anchor loop: every graded coordinate of every finding ties it to the first that had it. */
  method Weld(ev: seq<Evidence>) returns (parent: array<nat>, ghost f: Forest)
    ensures fresh(parent) && parent.Length == |ev| && Sound(parent[..], f) && |f.root| == |ev|
    ensures forall x, y :: 0 <= x < |ev| && 0 <= y < |ev| ==> (f.root[x] == f.root[y] <==> Connected(ev, x, y))
  {
    hide HasGraded, Connected;
    parent := new nat[|ev|](i => i);
    f := Alone(|ev|);
    forall x, y | 0 <= x < |ev| && 0 <= y < |ev| && f.root[x] == f.root[y]
      ensures Connected(ev, x, y)
    {
      ConnectedToItself(ev, x);
    }
    var anchor: map<Coord, nat> := map[];
    var i := 0;
    while i < |ev|
      invariant 0 <= i <= |ev| == parent.Length && fresh(parent) && Sound(parent[..], f)
      invariant |f.root| == |ev| && Welded(ev, f.root) && AnchorsHold(ev, anchor) && SeenAll(ev, f.root, anchor, i)
    {
      var cs := CoordsOf(ev[i]);
      var k := 0;
      while k < |cs|
        invariant 0 <= k <= |cs| && 0 <= i < |ev| == parent.Length && fresh(parent) && Sound(parent[..], f) && cs == CoordsOf(ev[i])
        invariant |f.root| == |ev| && Welded(ev, f.root) && AnchorsHold(ev, anchor) && SeenAll(ev, f.root, anchor, i)
        invariant SeenSome(ev, f.root, anchor, i, k)
      {
        var c := cs[k];
        if IdentityGrade(c.scheme) {
          if c in anchor {
            ghost var was := f;
            f := Union(parent, i, anchor[c], f);
            MergeKeeps(ev, was, anchor, i, k, c);
          } else {
            NewAnchorKeeps(ev, f.root, anchor, i, k, c);
            anchor := anchor[c := i];
          }
        }
        k := k + 1;
      }
      AllSeen(ev, f.root, anchor, i);
      i := i + 1;
    }
    RootsAreComponents(ev, f.root, anchor);
  }

  lemma NewAnchorKeeps(ev: seq<Evidence>, root: seq<nat>, anchor: map<Coord, nat>, i: nat, k: nat, c: Coord)
    requires |root| == |ev| && i < |ev| && k < |CoordsOf(ev[i])| && c == CoordsOf(ev[i])[k] && IdentityGrade(c.scheme) && c !in anchor
    requires AnchorsHold(ev, anchor) && SeenAll(ev, root, anchor, i) && SeenSome(ev, root, anchor, i, k)
    ensures var more := anchor[c := i];
      AnchorsHold(ev, more) && SeenAll(ev, root, more, i) && SeenSome(ev, root, more, i, k + 1)
  {
    hide CoordsOf, IdentityGrade;
  }

  lemma AllSeen(ev: seq<Evidence>, root: seq<nat>, anchor: map<Coord, nat>, i: nat)
    requires |root| == |ev| && i < |ev| && SeenAll(ev, root, anchor, i) && SeenSome(ev, root, anchor, i, |CoordsOf(ev[i])|)
    ensures SeenAll(ev, root, anchor, i + 1)
  {
    forall x, c | 0 <= x < i + 1 && HasGraded(ev[x], c)
      ensures Seen(ev, root, anchor, x, c)
    {
      if x == i {
        var k :| 0 <= k < |CoordsOf(ev[i])| && CoordsOf(ev[i])[k] == c;
      }
    }
  }

  lemma RootsAreComponents(ev: seq<Evidence>, root: seq<nat>, anchor: map<Coord, nat>)
    requires |root| == |ev| && Welded(ev, root) && SeenAll(ev, root, anchor, |ev|)
    ensures forall x, y :: 0 <= x < |ev| && 0 <= y < |ev| ==> (root[x] == root[y] <==> Connected(ev, x, y))
  {
    hide HasGraded;
    forall x, y | 0 <= x < |ev| && 0 <= y < |ev| && Linked(ev, x, y)
      ensures root[x] == root[y]
    {
      var c :| Shares(ev, x, y, c);
      assert Seen(ev, root, anchor, x, c) && Seen(ev, root, anchor, y, c);
    }
    forall x, y | 0 <= x < |ev| && 0 <= y < |ev| && Connected(ev, x, y)
      ensures root[x] == root[y]
    {
      var p :| Chain(ev, p, x, y);
      ChainAgrees(ev, p, x, y, root);
    }
  }

  // ------------------------------------------------------------- groups

  predicate Inside(members: seq<nat>, n: nat) {
    forall k :: 0 <= k < |members| ==> members[k] < n
  }

  predicate Ascending(members: seq<nat>) {
    forall a, b :: 0 <= a < b < |members| ==> members[a] < members[b]
  }

  /** The findings before `n` under root `r`, in order. */
  function Under(root: seq<nat>, r: nat, n: nat): (m: seq<nat>)
    requires n <= |root|
    ensures forall x :: x in m <==> 0 <= x < n && root[x] == r
    ensures Inside(m, n) && Ascending(m)
  {
    if n == 0 then []
    else if root[n - 1] == r then Under(root, r, n - 1) + [n - 1]
    else Under(root, r, n - 1)
  }

  predicate Grouped(root: seq<nat>, groups: map<nat, seq<nat>>, n: nat)
    requires n <= |root|
  {
    && (forall x :: 0 <= x < n ==> root[x] in groups)
    && (forall r :: r in groups ==> groups[r] == Under(root, r, n) && groups[r] != [])
  }

  method Group(parent: array<nat>, ghost f: Forest) returns (groups: map<nat, seq<nat>>)
    requires Sound(parent[..], f)
    modifies parent
    ensures |f.root| == parent.Length && Grouped(f.root, groups, |f.root|)
  {
    hide Grouped;
    groups := map[];
    GroupedNone(f.root);
    var i := 0;
    while i < parent.Length
      invariant 0 <= i <= parent.Length == |f.root| && Sound(parent[..], f) && Grouped(f.root, groups, i)
    {
      var root := Find(parent, i, f);
      GroupGrows(f.root, groups, i, root);
      groups := groups[root := (if root in groups then groups[root] else []) + [i]];
      i := i + 1;
    }
  }

  lemma GroupedNone(root: seq<nat>)
    ensures Grouped(root, map[], 0)
  {
  }

  lemma GroupGrows(root: seq<nat>, groups: map<nat, seq<nat>>, i: nat, r: nat)
    requires i < |root| && root[i] == r && Grouped(root, groups, i)
    ensures Grouped(root, groups[r := (if r in groups then groups[r] else []) + [i]], i + 1)
  {
    if r !in groups && Under(root, r, i) != [] {
      assert Under(root, r, i)[0] in Under(root, r, i);
    }
  }

  // ------------------------------------------------------------- clusters

  function AllCoords(ev: seq<Evidence>, members: seq<nat>): (r: seq<Coord>)
    requires Inside(members, |ev|)
    ensures forall c :: c in r <==> exists x :: x in members && c in CoordsOf(ev[x])
  {
    if members == [] then []
    else
      assert members == [members[0]] + members[1..];
      CoordsOf(ev[members[0]]) + AllCoords(ev, members[1..])
  }

  function FindingsOf(ev: seq<Evidence>, members: seq<nat>): (r: seq<Finding>)
    requires Inside(members, |ev|)
    ensures |r| == |members| && forall k :: 0 <= k < |r| ==> r[k] == ev[members[k]].finding
  {
    seq(|members|, k requires 0 <= k < |members| => ev[members[k]].finding)
  }

  predicate AnyGraded(cs: seq<Coord>) {
    exists c :: c in cs && IdentityGrade(c.scheme)
  }

  function MakeCluster(ev: seq<Evidence>, members: seq<nat>, queried: Coord): Cluster
    requires Inside(members, |ev|)
  {
    var coords := SortDedup(AllCoords(ev, members));
    Cluster(members, FindingsOf(ev, members), coords, AnyGraded(coords), queried in coords)
  }

  /** A cluster says of its members what it should: their findings in evidence order, their coordinates
      sorted, and from those whether it is anchored and whether it is what was asked about. */
  ghost predicate ClusterHolds(ev: seq<Evidence>, queried: Coord, cl: Cluster) {
    && cl.members != [] && Inside(cl.members, |ev|) && Ascending(cl.members)
    && cl.findings == FindingsOf(ev, cl.members)
    && Sorted(cl.coords) && (forall c :: c in cl.coords <==> exists x :: x in cl.members && c in CoordsOf(ev[x]))
    && (cl.anchored <==> exists c :: c in cl.coords && IdentityGrade(c.scheme))
    && (cl.primary <==> queried in cl.coords)
  }

  lemma MadeHolds(ev: seq<Evidence>, members: seq<nat>, queried: Coord)
    requires members != [] && Inside(members, |ev|) && Ascending(members)
    ensures ClusterHolds(ev, queried, MakeCluster(ev, members, queried))
  {
    hide CoordsOf, SortDedup;
  }

  /** Primary before related, anchored before floating, larger before smaller, then by first coordinate. */
  predicate After(a: Cluster, b: Cluster) {
    if a.primary != b.primary then b.primary
    else if a.anchored != b.anchored then b.anchored
    else if |a.findings| != |b.findings| then |b.findings| > |a.findings|
    else if a.coords == [] || b.coords == [] then a.coords != [] && b.coords == []
    else Before(b.coords[0], a.coords[0])
  }

  predicate InOrder(cs: seq<Cluster>) {
    forall i, j :: 0 <= i < j < |cs| ==> !After(cs[i], cs[j])
  }

  lemma NotAfterChains(a: Cluster, b: Cluster, c: Cluster)
    requires !After(a, b) && !After(b, c)
    ensures !After(a, c)
  {
    if a.coords != [] && b.coords != [] && c.coords != [] {
      Total(a.coords[0], b.coords[0]);
      Total(b.coords[0], c.coords[0]);
      Total(a.coords[0], c.coords[0]);
      if Before(a.coords[0], b.coords[0]) && Before(b.coords[0], c.coords[0]) {
        Transitive(a.coords[0], b.coords[0], c.coords[0]);
      }
    }
  }

  /** One cluster put in its place, after those it ties with. */
  function Place(cl: Cluster, cs: seq<Cluster>): (r: seq<Cluster>)
    requires InOrder(cs)
    ensures InOrder(r) && multiset(r) == multiset(cs) + multiset{cl}
  {
    if cs == [] then [cl]
    else if After(cs[|cs| - 1], cl) then
      assert cs == cs[..|cs| - 1] + [cs[|cs| - 1]];
      PlacedBefore(cl, cs, Place(cl, cs[..|cs| - 1]));
      Place(cl, cs[..|cs| - 1]) + [cs[|cs| - 1]]
    else
      PlacedLast(cl, cs);
      cs + [cl]
  }

  lemma NeverBoth(a: Cluster, b: Cluster)
    ensures !(After(a, b) && After(b, a))
  {
    if a.coords != [] && b.coords != [] {
      Total(a.coords[0], b.coords[0]);
    }
  }

  lemma PlacedBefore(cl: Cluster, cs: seq<Cluster>, r: seq<Cluster>)
    requires cs != [] && InOrder(cs) && After(cs[|cs| - 1], cl)
    requires InOrder(r) && multiset(r) == multiset(cs[..|cs| - 1]) + multiset{cl}
    ensures InOrder(r + [cs[|cs| - 1]])
  {
    var last := cs[|cs| - 1];
    forall i | 0 <= i < |r|
      ensures !After(r[i], last)
    {
      assert r[i] in multiset(r);
      if r[i] == cl {
        NeverBoth(cl, last);
      } else {
        assert r[i] in cs[..|cs| - 1];
        var k :| 0 <= k < |cs| - 1 && cs[..|cs| - 1][k] == r[i];
        assert !After(cs[k], cs[|cs| - 1]);
      }
    }
  }

  lemma PlacedLast(cl: Cluster, cs: seq<Cluster>)
    requires cs != [] && InOrder(cs) && !After(cs[|cs| - 1], cl)
    ensures InOrder(cs + [cl])
  {
    forall i | 0 <= i < |cs|
      ensures !After(cs[i], cl)
    {
      if i < |cs| - 1 {
        NotAfterChains(cs[i], cs[|cs| - 1], cl);
      }
    }
  }

  // ------------------------------------------------------------- the whole of it

  predicate InOne(cs: seq<Cluster>, x: nat) {
    exists k :: 0 <= k < |cs| && x in cs[k].members
  }

  /** Every finding is in exactly one cluster, and two are in the same one exactly when connected. */
  ghost predicate Components(ev: seq<Evidence>, cs: seq<Cluster>) {
    && (forall x :: 0 <= x < |ev| ==> InOne(cs, x))
    && (forall k, l :: 0 <= k < l < |cs| ==> forall x :: x in cs[k].members ==> x !in cs[l].members)
    && (forall k, x, y :: 0 <= k < |cs| && x in cs[k].members && 0 <= y < |ev| ==> (y in cs[k].members <==> Connected(ev, x, y)))
  }

  function CountBoth(cs: seq<Cluster>): nat {
    if cs == [] then 0 else CountBoth(cs[..|cs| - 1]) + (if cs[|cs| - 1].anchored && cs[|cs| - 1].primary then 1 else 0)
  }

  lemma {:induction false} CountTwo(cs: seq<Cluster>)
    ensures CountBoth(cs) >= 1 <==> exists k :: 0 <= k < |cs| && cs[k].anchored && cs[k].primary
    ensures CountBoth(cs) >= 2 <==> TwoBoth(cs)
  {
    if cs != [] {
      var n := |cs| - 1;
      CountTwo(cs[..n]);
      if cs[n].anchored && cs[n].primary && CountBoth(cs[..n]) == 1 {
        var k :| 0 <= k < n && cs[..n][k].anchored && cs[..n][k].primary;
        assert cs[k].anchored && cs[k].primary;
      }
    }
  }

  /** Two different clusters are both anchored and what was asked about. */
  predicate TwoBoth(cs: seq<Cluster>) {
    exists k, l :: 0 <= k < l < |cs| && cs[k].anchored && cs[k].primary && cs[l].anchored && cs[l].primary
  }

  function MadeOf(ev: seq<Evidence>, queried: Coord, root: seq<nat>, r: nat): Cluster
    requires |root| == |ev|
  {
    MakeCluster(ev, Under(root, r, |ev|), queried)
  }

  /** The clusters so far are those of the roots done, each once. */
  predicate MadeFrom(ev: seq<Evidence>, queried: Coord, root: seq<nat>, done: set<nat>, cs: seq<Cluster>)
    requires |root| == |ev|
  {
    && (forall r :: r in done ==> multiset(cs)[MadeOf(ev, queried, root, r)] == 1)
    && (forall k :: 0 <= k < |cs| ==> IsMade(ev, queried, root, done, cs[k]))
  }

  predicate IsMade(ev: seq<Evidence>, queried: Coord, root: seq<nat>, done: set<nat>, cl: Cluster)
    requires |root| == |ev|
  {
    exists r :: r in done && cl == MadeOf(ev, queried, root, r)
  }

  lemma OneMoreMade(ev: seq<Evidence>, queried: Coord, root: seq<nat>, done: set<nat>, cs: seq<Cluster>, q: nat, after: seq<Cluster>)
    requires |root| == |ev| && MadeFrom(ev, queried, root, done, cs) && q !in done && Under(root, q, |ev|) != []
    requires multiset(after) == multiset(cs) + multiset{MadeOf(ev, queried, root, q)}
    ensures MadeFrom(ev, queried, root, done + {q}, after)
  {
    hide MadeOf, IsMade;
    var cl := MadeOf(ev, queried, root, q);
    forall r | r in done
      ensures cl != MadeOf(ev, queried, root, r)
    {
      RootsMakeDifferent(ev, queried, root, q, r);
    }
    NotThere(ev, queried, root, done, cs, q);
    forall k | 0 <= k < |after|
      ensures IsMade(ev, queried, root, done + {q}, after[k])
    {
      assert after[k] in multiset(after);
      MadeEarlier(ev, queried, root, done, cs, q, after[k]);
    }
  }

  lemma NotThere(ev: seq<Evidence>, queried: Coord, root: seq<nat>, done: set<nat>, cs: seq<Cluster>, q: nat)
    requires |root| == |ev| && MadeFrom(ev, queried, root, done, cs)
    requires forall r :: r in done ==> MadeOf(ev, queried, root, q) != MadeOf(ev, queried, root, r)
    ensures MadeOf(ev, queried, root, q) !in cs
  {
    hide MadeOf;
    forall k | 0 <= k < |cs|
      ensures cs[k] != MadeOf(ev, queried, root, q)
    {
      assert IsMade(ev, queried, root, done, cs[k]);
    }
  }

  lemma MadeEarlier(ev: seq<Evidence>, queried: Coord, root: seq<nat>, done: set<nat>, cs: seq<Cluster>, q: nat, cl: Cluster)
    requires |root| == |ev| && MadeFrom(ev, queried, root, done, cs)
    requires cl in multiset(cs) || cl == MadeOf(ev, queried, root, q)
    ensures IsMade(ev, queried, root, done + {q}, cl)
  {
    hide MadeOf;
    if cl == MadeOf(ev, queried, root, q) {
      assert q in done + {q};
    } else {
      assert cl in cs;
      var l :| 0 <= l < |cs| && cs[l] == cl;
      assert IsMade(ev, queried, root, done, cs[l]);
      var r :| r in done && cl == MadeOf(ev, queried, root, r);
      assert r in done + {q};
    }
  }

  lemma RootsMakeDifferent(ev: seq<Evidence>, queried: Coord, root: seq<nat>, q: nat, r: nat)
    requires |root| == |ev| && q != r && Under(root, q, |ev|) != []
    ensures MadeOf(ev, queried, root, q) != MadeOf(ev, queried, root, r)
  {
    hide SortDedup, AnyGraded;
    var x := Under(root, q, |ev|)[0];
    assert x in Under(root, q, |ev|) && x !in Under(root, r, |ev|);
  }

  lemma MembersOfMade(ev: seq<Evidence>, queried: Coord, root: seq<nat>, r: nat)
    requires |root| == |ev|
    ensures forall x :: x in MadeOf(ev, queried, root, r).members <==> 0 <= x < |ev| && root[x] == r
  {
    hide SortDedup, AnyGraded;
  }

  lemma {:induction false} TwiceInside(cs: seq<Cluster>, k: nat, l: nat)
    requires k < l < |cs| && cs[k] == cs[l]
    ensures multiset(cs)[cs[k]] >= 2
  {
    assert cs == cs[..l] + [cs[l]] + cs[l + 1..];
    assert cs[..l][k] in cs[..l];
    assert cs[l] in multiset(cs[..l]);
  }

  lemma PartsAreComponents(ev: seq<Evidence>, queried: Coord, root: seq<nat>, done: set<nat>, cs: seq<Cluster>)
    requires |root| == |ev| && MadeFrom(ev, queried, root, done, cs) && forall x :: 0 <= x < |ev| ==> root[x] in done
    requires forall x, y :: 0 <= x < |ev| && 0 <= y < |ev| ==> (root[x] == root[y] <==> Connected(ev, x, y))
    ensures Components(ev, cs)
  {
    hide MadeOf, Connected;
    forall x | 0 <= x < |ev|
      ensures InOne(cs, x)
    {
      MembersOfMade(ev, queried, root, root[x]);
      assert MadeOf(ev, queried, root, root[x]) in multiset(cs);
      var k :| 0 <= k < |cs| && cs[k] == MadeOf(ev, queried, root, root[x]);
      assert x in cs[k].members;
    }
    forall k, l, x | 0 <= k < l < |cs| && x in cs[k].members
      ensures x !in cs[l].members
    {
      PartsApart(ev, queried, root, done, cs, k, l, x);
    }
    forall k, x, y | 0 <= k < |cs| && x in cs[k].members && 0 <= y < |ev|
      ensures y in cs[k].members <==> Connected(ev, x, y)
    {
      assert IsMade(ev, queried, root, done, cs[k]);
      var r :| r in done && cs[k] == MadeOf(ev, queried, root, r);
      MembersOfMade(ev, queried, root, r);
    }
  }

  lemma PartsApart(ev: seq<Evidence>, queried: Coord, root: seq<nat>, done: set<nat>, cs: seq<Cluster>, k: nat, l: nat, x: nat)
    requires |root| == |ev| && MadeFrom(ev, queried, root, done, cs) && k < l < |cs| && x in cs[k].members
    ensures x !in cs[l].members
  {
    hide MadeOf;
    assert IsMade(ev, queried, root, done, cs[k]) && IsMade(ev, queried, root, done, cs[l]);
    var r :| r in done && cs[k] == MadeOf(ev, queried, root, r);
    var q :| q in done && cs[l] == MadeOf(ev, queried, root, q);
    MembersOfMade(ev, queried, root, r);
    MembersOfMade(ev, queried, root, q);
    if x in cs[l].members {
      TwiceInside(cs, k, l);
    }
  }

  lemma EachHolds(ev: seq<Evidence>, queried: Coord, root: seq<nat>, groups: map<nat, seq<nat>>, cs: seq<Cluster>)
    requires |root| == |ev| && Grouped(root, groups, |ev|) && MadeFrom(ev, queried, root, groups.Keys, cs)
    ensures forall k :: 0 <= k < |cs| ==> ClusterHolds(ev, queried, cs[k])
  {
    hide MakeCluster, ClusterHolds;
    forall k | 0 <= k < |cs|
      ensures ClusterHolds(ev, queried, cs[k])
    {
      assert IsMade(ev, queried, root, groups.Keys, cs[k]);
      var r :| r in groups.Keys && cs[k] == MadeOf(ev, queried, root, r);
      MadeHolds(ev, groups[r], queried);
    }
  }

  /** `cluster`. The groups come out of a hash map in no order of their own. */
  method ClusterEvidence(ev: seq<Evidence>, queried: Coord) returns (r: WalkResult)
    ensures Components(ev, r.clusters)
    ensures forall k :: 0 <= k < |r.clusters| ==> ClusterHolds(ev, queried, r.clusters[k])
    ensures InOrder(r.clusters)
    ensures r.truncated <==> |ev| >= MAX_EVIDENCE
    ensures r.collision <==> !IdentityGrade(queried.scheme) && TwoBoth(r.clusters)
  {
    hide MadeFrom, MadeOf, MakeCluster, Grouped, Components, TwoBoth, InOrder, ClusterHolds, Connected, CountBoth;
    var parent, f := Weld(ev);
    var groups := Group(parent, f);
    var rest := groups.Keys;
    var clusters: seq<Cluster> := [];
    NoneMade(ev, queried, f.root);
    assert groups.Keys - rest == {};
    while rest != {}
      invariant rest <= groups.Keys && |f.root| == |ev| && Grouped(f.root, groups, |ev|)
      invariant InOrder(clusters) && MadeFrom(ev, queried, f.root, groups.Keys - rest, clusters)
    {
      var root :| root in rest;
      GroupIs(f.root, groups, root);
      var cl := MakeCluster(ev, groups[root], queried);
      MadeOfIs(ev, queried, f.root, root);
      var placed := Place(cl, clusters);
      OneMoreMade(ev, queried, f.root, groups.Keys - rest, clusters, root, placed);
      assert groups.Keys - (rest - {root}) == groups.Keys - rest + {root};
      clusters := placed;
      rest := rest - {root};
    }
    assert groups.Keys - rest == groups.Keys;
    EachHolds(ev, queried, f.root, groups, clusters);
    RootsAreKeys(f.root, groups);
    PartsAreComponents(ev, queried, f.root, groups.Keys, clusters);
    CountTwo(clusters);
    r := WalkResult(clusters, |ev| >= MAX_EVIDENCE, !IdentityGrade(queried.scheme) && CountBoth(clusters) >= 2);
  }

  lemma NoneMade(ev: seq<Evidence>, queried: Coord, root: seq<nat>)
    requires |root| == |ev|
    ensures MadeFrom(ev, queried, root, {}, []) && InOrder([])
  {
  }

  lemma GroupIs(root: seq<nat>, groups: map<nat, seq<nat>>, r: nat)
    requires Grouped(root, groups, |root|) && r in groups
    ensures groups[r] == Under(root, r, |root|) && groups[r] != []
  {
  }

  lemma MadeOfIs(ev: seq<Evidence>, queried: Coord, root: seq<nat>, r: nat)
    requires |root| == |ev|
    ensures MadeOf(ev, queried, root, r) == MakeCluster(ev, Under(root, r, |ev|), queried)
  {
    hide MakeCluster;
  }

  lemma RootsAreKeys(root: seq<nat>, groups: map<nat, seq<nat>>)
    requires Grouped(root, groups, |root|)
    ensures forall x :: 0 <= x < |root| ==> root[x] in groups.Keys
  {
  }

  // ------------------------------------------------------------- what clusters mean

  /** Weak digests never merge: a finding with no identity-grade coordinate is alone in its cluster. */
  lemma WeakStandsAlone(ev: seq<Evidence>, cs: seq<Cluster>, k: nat, x: nat, y: nat)
    requires Components(ev, cs) && k < |cs| && x in cs[k].members && y in cs[k].members && x < |ev| && y < |ev|
    requires forall c :: c in CoordsOf(ev[x]) ==> !IdentityGrade(c.scheme)
    ensures y == x
  {
    hide CoordsOf, Contradicted;
    assert Connected(ev, x, y);
    var p :| Chain(ev, p, x, y);
    if |p| > 1 {
      NoLink(ev, p[0], p[0 + 1]);
      assert false;
    }
  }

  lemma NoLink(ev: seq<Evidence>, x: nat, z: nat)
    requires x < |ev| && z < |ev| && forall c :: c in CoordsOf(ev[x]) ==> !IdentityGrade(c.scheme)
    ensures !Linked(ev, x, z)
  {
    hide CoordsOf;
  }

  /** A query under an identity-grade scheme has at most one primary cluster, so it never collides. */
  lemma AtMostOnePrimary(ev: seq<Evidence>, queried: Coord, cs: seq<Cluster>, k: nat, l: nat)
    requires Components(ev, cs) && IdentityGrade(queried.scheme) && k < |cs| && l < |cs|
    requires ClusterHolds(ev, queried, cs[k]) && ClusterHolds(ev, queried, cs[l]) && cs[k].primary && cs[l].primary
    ensures k == l
  {
    hide CoordsOf, AllCoords, Sorted;
    var x :| x in cs[k].members && queried in CoordsOf(ev[x]);
    var y :| y in cs[l].members && queried in CoordsOf(ev[y]);
    assert Shares(ev, x, y, queried);
    assert Linked(ev, x, y);
    assert Chain(ev, [x, y], x, y);
    assert Connected(ev, x, y);
    Apart(ev, cs, k, l, x, y);
  }

  lemma Apart(ev: seq<Evidence>, cs: seq<Cluster>, k: nat, l: nat, x: nat, y: nat)
    requires Components(ev, cs) && k < |cs| && l < |cs| && x in cs[k].members && y in cs[l].members && y < |ev| && Connected(ev, x, y)
    ensures k == l
  {
    hide Connected;
    assert y in cs[k].members;
  }

  /** A query key no row states and some row looked up by it contradicts is not adopted there: the row's
      cluster has the key only through another member that has it. */
  lemma ContradictedNotAdopted(e: Evidence)
    requires Contradicted(e) && Some(e.foundAt) !in e.finding.coords
    ensures e.foundAt !in CoordsOf(e)
  {
    EffectiveCoords(e);
  }
}
