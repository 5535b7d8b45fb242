/** The evidence walk: look coordinates up, follow what findings co-observe, a few hops and no more. */
module EvidenceWalk {
  import opened Wrappers
  import opened ByteStrings
  import opened Coords
  import opened Clusters

  const MAX_HOPS: nat := 5

  /** `found` is what the local sources and the cache say of a coordinate, in that order. */
  type Sources = Coord -> seq<Finding>

  datatype Walk = Walk(evidence: seq<Evidence>, seen: set<Finding>, visited: set<Coord>, next: seq<Coord>)

  /** The coordinates a finding leads on to. */
  function Leads(f: Finding, visited: set<Coord>): (r: seq<Coord>)
    ensures forall c :: c in r <==> Some(c) in f.coords && c !in visited
  {
    Unvisited(Parsed(f.coords), visited)
  }

  function Unvisited(cs: seq<Coord>, visited: set<Coord>): (r: seq<Coord>)
    ensures forall c :: c in r <==> c in cs && c !in visited
  {
    if cs == [] then []
    else
      assert cs == [cs[0]] + cs[1..];
      (if cs[0] in visited then [] else [cs[0]]) + Unvisited(cs[1..], visited)
  }

  /** One finding taken in: nothing if it was seen before. */
  function TakeOne(coord: Coord, f: Finding, ws: Walk): Walk {
    if f in ws.seen then ws
    else Walk(ws.evidence + [Evidence(coord, f)], ws.seen + {f}, ws.visited, ws.next + Leads(f, ws.visited))
  }

  /** The findings of one coordinate, given up on at the cap. */
  function Collect(coord: Coord, found: seq<Finding>, ws: Walk): Walk
    decreases |found|
  {
    if found == [] then ws
    else if found[0] in ws.seen then Collect(coord, found[1..], ws)
    else if |ws.evidence| + 1 >= MAX_EVIDENCE then TakeOne(coord, found[0], ws)
    else Collect(coord, found[1..], TakeOne(coord, found[0], ws))
  }

  function VisitOne(coord: Coord, from: Sources, ws: Walk): Walk {
    if coord in ws.visited then ws else Collect(coord, from(coord), ws.(visited := ws.visited + {coord}))
  }

  function Visit(frontier: seq<Coord>, from: Sources, ws: Walk): Walk
    decreases |frontier|
  {
    if frontier == [] then ws else Visit(frontier[1..], from, VisitOne(frontier[0], from, ws))
  }

  /** Up to `hops` hops, the frontier of each in `next`. */
  function Hops(hops: nat, from: Sources, ws: Walk): Walk {
    if hops == 0 || ws.next == [] || |ws.evidence| >= MAX_EVIDENCE then ws
    else Hops(hops - 1, from, Visit(ws.next, from, ws.(next := [])))
  }

  function Walked(seeds: seq<Coord>, from: Sources): seq<Evidence> {
    Hops(MAX_HOPS, from, Walk([], {}, {}, seeds)).evidence
  }

  // ------------------------------------------------------------- the loops

  method CollectLoop(coord: Coord, found: seq<Finding>, ws: Walk) returns (r: Walk)
    ensures r == Collect(coord, found, ws)
  {
    r := ws;
    var i := 0;
    while i < |found|
      invariant 0 <= i <= |found| && Collect(coord, found, ws) == Collect(coord, found[i..], r)
    {
      var f := found[i];
      assert found[i..][1..] == found[i + 1..];
      if f !in r.seen {
        r := TakeOne(coord, f, r);
        if |r.evidence| >= MAX_EVIDENCE {
          return;
        }
      }
      i := i + 1;
    }
  }

  method WalkEvidence(seeds: seq<Coord>, from: Sources) returns (evidence: seq<Evidence>)
    ensures evidence == Walked(seeds, from)
  {
    var ws := Walk([], {}, {}, seeds);
    var hop := 0;
    while hop < MAX_HOPS && ws.next != [] && |ws.evidence| < MAX_EVIDENCE
      invariant 0 <= hop <= MAX_HOPS && Walked(seeds, from) == Hops(MAX_HOPS - hop, from, ws).evidence
    {
      var frontier := ws.next;
      ghost var target := Visit(frontier, from, ws.(next := []));
      ws := ws.(next := []);
      var i := 0;
      while i < |frontier|
        invariant 0 <= i <= |frontier| && target == Visit(frontier[i..], from, ws)
      {
        assert frontier[i..][1..] == frontier[i + 1..];
        var coord := frontier[i];
        if coord !in ws.visited {
          ws := CollectLoop(coord, from(coord), ws.(visited := ws.visited + {coord}));
        }
        i := i + 1;
      }
      hop := hop + 1;
    }
    evidence := ws.evidence;
  }

  // ------------------------------------------------------------- what is within reach

  /** The coordinates at most `n` findings away from a seed. */
  ghost predicate Within(seeds: seq<Coord>, from: Sources, n: nat, c: Coord) {
    if n == 0 then c in seeds
    else Within(seeds, from, n - 1, c) || exists b, f :: Within(seeds, from, n - 1, b) && f in from(b) && Some(c) in f.coords
  }

  /** What has been taken in came from where it says, each finding once; what has been seen is exactly
      what was taken in. */
  ghost predicate Kept(seeds: seq<Coord>, from: Sources, n: nat, ws: Walk) {
    && (forall i :: 0 <= i < |ws.evidence| ==> FromSource(seeds, from, n, ws.evidence[i]))
    && (forall i, j :: 0 <= i < j < |ws.evidence| ==> ws.evidence[i].finding != ws.evidence[j].finding)
    && (forall f :: f in ws.seen <==> exists i :: 0 <= i < |ws.evidence| && ws.evidence[i].finding == f)
  }

  ghost predicate FromSource(seeds: seq<Coord>, from: Sources, n: nat, e: Evidence) {
    Within(seeds, from, n, e.foundAt) && e.finding in from(e.foundAt)
  }

  // ------------------------------------------------------------- soundness

  lemma TakeOneKeeps(seeds: seq<Coord>, from: Sources, n: nat, coord: Coord, f: Finding, ws: Walk)
    requires Kept(seeds, from, n, ws) && Within(seeds, from, n, coord) && f in from(coord)
    ensures Kept(seeds, from, n, TakeOne(coord, f, ws))
  {
    hide Within, Leads;
    if f !in ws.seen {
      var r := TakeOne(coord, f, ws);
      forall i | 0 <= i < |ws.evidence|
        ensures ws.evidence[i].finding != f
      {
        assert ws.evidence[i].finding in ws.seen;
      }
      forall g | g in r.seen
        ensures exists i :: 0 <= i < |r.evidence| && r.evidence[i].finding == g
      {
        if g == f {
          assert r.evidence[|ws.evidence|].finding == g;
        } else {
          var i :| 0 <= i < |ws.evidence| && ws.evidence[i].finding == g;
          assert r.evidence[i].finding == g;
        }
      }
    }
  }

  lemma {:induction false} CollectKeeps(seeds: seq<Coord>, from: Sources, n: nat, coord: Coord, found: seq<Finding>, ws: Walk)
    requires Kept(seeds, from, n, ws) && Within(seeds, from, n, coord) && forall f :: f in found ==> f in from(coord)
    ensures Kept(seeds, from, n, Collect(coord, found, ws))
    decreases |found|
  {
    hide Kept, Within, TakeOne;
    if found != [] {
      assert found[0] in found && forall f :: f in found[1..] ==> f in found;
      TakeOneKeeps(seeds, from, n, coord, found[0], ws);
      if found[0] in ws.seen {
        CollectKeeps(seeds, from, n, coord, found[1..], ws);
      } else if |ws.evidence| + 1 < MAX_EVIDENCE {
        CollectKeeps(seeds, from, n, coord, found[1..], TakeOne(coord, found[0], ws));
      }
    }
  }

  /** What is queued lies one finding further out than what has been looked up. */
  ghost predicate NextWithin(seeds: seq<Coord>, from: Sources, n: nat, cs: seq<Coord>) {
    forall c :: c in cs ==> Within(seeds, from, n, c)
  }

  lemma {:induction false} CollectLeads(seeds: seq<Coord>, from: Sources, n: nat, coord: Coord, found: seq<Finding>, ws: Walk)
    requires NextWithin(seeds, from, n + 1, ws.next) && Within(seeds, from, n, coord) && forall f :: f in found ==> f in from(coord)
    ensures NextWithin(seeds, from, n + 1, Collect(coord, found, ws).next)
    decreases |found|
  {
    if found != [] {
      assert found[0] in found && forall f :: f in found[1..] ==> f in found;
      if found[0] in ws.seen {
        CollectLeads(seeds, from, n, coord, found[1..], ws);
      } else {
        TakeOneLeads(seeds, from, n, coord, found[0], ws);
        if |ws.evidence| + 1 < MAX_EVIDENCE {
          CollectLeads(seeds, from, n, coord, found[1..], TakeOne(coord, found[0], ws));
        }
      }
    }
  }

  lemma TakeOneLeads(seeds: seq<Coord>, from: Sources, n: nat, coord: Coord, f: Finding, ws: Walk)
    requires NextWithin(seeds, from, n + 1, ws.next) && Within(seeds, from, n, coord) && f in from(coord)
    ensures NextWithin(seeds, from, n + 1, TakeOne(coord, f, ws).next)
  {
  }

  lemma {:induction false} VisitKeeps(seeds: seq<Coord>, from: Sources, n: nat, frontier: seq<Coord>, ws: Walk)
    requires Kept(seeds, from, n, ws) && NextWithin(seeds, from, n, frontier) && NextWithin(seeds, from, n + 1, ws.next)
    ensures Kept(seeds, from, n, Visit(frontier, from, ws)) && NextWithin(seeds, from, n + 1, Visit(frontier, from, ws).next)
    decreases |frontier|
  {
    hide Within, Collect;
    if frontier != [] {
      var coord, more := frontier[0], ws.(visited := ws.visited + {frontier[0]});
      assert coord in frontier && forall c :: c in frontier[1..] ==> c in frontier;
      if coord !in ws.visited {
        CollectKeeps(seeds, from, n, coord, from(coord), more);
        CollectLeads(seeds, from, n, coord, from(coord), more);
      }
      VisitKeeps(seeds, from, n, frontier[1..], VisitOne(coord, from, ws));
    }
  }

  lemma {:induction false} WithinMore(seeds: seq<Coord>, from: Sources, n: nat, m: nat, c: Coord)
    requires n <= m && Within(seeds, from, n, c)
    ensures Within(seeds, from, m, c)
  {
    if n < m {
      WithinMore(seeds, from, n, m - 1, c);
    }
  }

  lemma KeptFarther(seeds: seq<Coord>, from: Sources, n: nat, m: nat, ws: Walk)
    requires n <= m && Kept(seeds, from, n, ws)
    ensures Kept(seeds, from, m, ws)
  {
    hide Within;
    forall i | 0 <= i < |ws.evidence|
      ensures FromSource(seeds, from, m, ws.evidence[i])
    {
      assert FromSource(seeds, from, n, ws.evidence[i]);
      WithinMore(seeds, from, n, m, ws.evidence[i].foundAt);
    }
  }

  lemma {:induction false} HopsKeep(seeds: seq<Coord>, from: Sources, hops: nat, n: nat, ws: Walk)
    requires Kept(seeds, from, n, ws) && NextWithin(seeds, from, n, ws.next)
    ensures Kept(seeds, from, if hops == 0 then n else n + hops - 1, Hops(hops, from, ws))
    decreases hops
  {
    hide Kept, Within, Visit, NextWithin;
    if hops == 0 {
    } else if ws.next == [] || |ws.evidence| >= MAX_EVIDENCE {
      KeptFarther(seeds, from, n, n + hops - 1, ws);
    } else {
      NothingQueued(seeds, from, n, ws);
      VisitKeeps(seeds, from, n, ws.next, ws.(next := []));
      var after := Visit(ws.next, from, ws.(next := []));
      if hops > 1 {
        KeptFarther(seeds, from, n, n + 1, after);
        HopsKeep(seeds, from, hops - 1, n + 1, after);
      }
    }
  }

  lemma NothingQueued(seeds: seq<Coord>, from: Sources, n: nat, ws: Walk)
    requires Kept(seeds, from, n, ws)
    ensures Kept(seeds, from, n, ws.(next := [])) && NextWithin(seeds, from, n + 1, [])
  {
  }

  /** Everything the walk gathers is what a source said of a coordinate within reach, each finding once. */
  lemma WalkIsSound(seeds: seq<Coord>, from: Sources)
    ensures forall i :: 0 <= i < |Walked(seeds, from)| ==> FromSource(seeds, from, MAX_HOPS - 1, Walked(seeds, from)[i])
    ensures forall i, j :: 0 <= i < j < |Walked(seeds, from)| ==> Walked(seeds, from)[i].finding != Walked(seeds, from)[j].finding
  {
    hide Hops, FromSource;
    HopsKeep(seeds, from, MAX_HOPS, 0, Walk([], {}, {}, seeds));
  }

  // ------------------------------------------------------------- completeness

  /** What a seen finding leads to has been looked up, or is queued, or still to come this hop. */
  ghost predicate SeenLeads(ws: Walk, rest: seq<Coord>) {
    forall f, c :: f in ws.seen && Some(c) in f.coords ==> c in ws.visited || c in ws.next || c in rest
  }

  /** Every finding of a coordinate looked up has been seen. */
  ghost predicate VisitedSeen(from: Sources, visited: set<Coord>, ws: Walk) {
    forall c, f :: c in visited && f in from(c) ==> f in ws.seen
  }

  lemma {:induction false} CollectAll(coord: Coord, found: seq<Finding>, ws: Walk, rest: seq<Coord>)
    requires SeenLeads(ws, rest)
    ensures var r := Collect(coord, found, ws);
      && SeenLeads(r, rest) && r.visited == ws.visited && ws.seen <= r.seen && |ws.evidence| <= |r.evidence|
      && (|r.evidence| < MAX_EVIDENCE ==> forall f :: f in found ==> f in r.seen)
    decreases |found|
  {
    if found != [] {
      assert found == [found[0]] + found[1..];
      TakeOneLeadsSeen(coord, found[0], ws, rest);
      if found[0] in ws.seen {
        CollectAll(coord, found[1..], ws, rest);
      } else if |ws.evidence| + 1 < MAX_EVIDENCE {
        CollectAll(coord, found[1..], TakeOne(coord, found[0], ws), rest);
      }
    }
  }

  lemma TakeOneLeadsSeen(coord: Coord, f: Finding, ws: Walk, rest: seq<Coord>)
    requires SeenLeads(ws, rest)
    ensures SeenLeads(TakeOne(coord, f, ws), rest)
  {
  }

  lemma {:induction false} VisitAll(frontier: seq<Coord>, from: Sources, ws: Walk)
    requires SeenLeads(ws, frontier) && (|ws.evidence| < MAX_EVIDENCE ==> VisitedSeen(from, ws.visited, ws))
    ensures var r := Visit(frontier, from, ws);
      && SeenLeads(r, []) && |ws.evidence| <= |r.evidence| && ws.visited <= r.visited && (forall c :: c in frontier ==> c in r.visited)
      && (|r.evidence| < MAX_EVIDENCE ==> VisitedSeen(from, r.visited, r))
    decreases |frontier|
  {
    hide Collect;
    if frontier != [] {
      var coord := frontier[0];
      assert frontier == [coord] + frontier[1..];
      var more := ws.(visited := ws.visited + {coord});
      if coord !in ws.visited {
        CollectAll(coord, from(coord), more, frontier[1..]);
      }
      VisitAll(frontier[1..], from, VisitOne(coord, from, ws));
    }
  }

  /** After `n` hops everything within `n` is looked up or queued, and what is within `n - 1` looked up. */
  ghost predicate Covered(seeds: seq<Coord>, from: Sources, n: nat, ws: Walk) {
    && (forall c :: Within(seeds, from, n, c) ==> c in ws.visited || c in ws.next)
    && (n > 0 ==> forall c :: Within(seeds, from, n - 1, c) ==> c in ws.visited)
  }

  lemma CoveredOneMore(seeds: seq<Coord>, from: Sources, n: nat, ws: Walk, r: Walk)
    requires Covered(seeds, from, n, ws) && ws.visited <= r.visited && forall c :: c in ws.next ==> c in r.visited
    requires SeenLeads(r, []) && VisitedSeen(from, r.visited, r)
    ensures Covered(seeds, from, n + 1, r)
  {
  }

  /** With nothing queued the walk has closed: whatever is within any reach has been looked up. */
  lemma {:induction false} NothingFurther(seeds: seq<Coord>, from: Sources, n: nat, m: nat, ws: Walk, c: Coord)
    requires Covered(seeds, from, n, ws) && ws.next == [] && SeenLeads(ws, []) && VisitedSeen(from, ws.visited, ws)
    requires n <= m && Within(seeds, from, m, c)
    ensures c in ws.visited
    decreases m
  {
    if m > n && !Within(seeds, from, m - 1, c) {
      var b, f :| Within(seeds, from, m - 1, b) && f in from(b) && Some(c) in f.coords;
      NothingFurther(seeds, from, n, m - 1, ws, b);
    } else if m > n {
      NothingFurther(seeds, from, n, m - 1, ws, c);
    }
  }

  lemma {:induction false} HopsCover(seeds: seq<Coord>, from: Sources, hops: nat, n: nat, ws: Walk)
    requires n + hops > 0 && SeenLeads(ws, []) && |Hops(hops, from, ws).evidence| < MAX_EVIDENCE
    requires Covered(seeds, from, n, ws) && VisitedSeen(from, ws.visited, ws)
    ensures var r := Hops(hops, from, ws);
      && VisitedSeen(from, r.visited, r) && forall c :: Within(seeds, from, n + hops - 1, c) ==> c in r.visited
    decreases hops
  {
    hide Visit, Within;
    if hops == 0 {
    } else if ws.next == [] {
      forall c | Within(seeds, from, n + hops - 1, c)
        ensures c in ws.visited
      {
        NothingFurther(seeds, from, n, n + hops - 1, ws, c);
      }
    } else if |ws.evidence| < MAX_EVIDENCE {
      assert SeenLeads(ws.(next := []), ws.next);
      VisitAll(ws.next, from, ws.(next := []));
      var after := Visit(ws.next, from, ws.(next := []));
      HopsGrow(hops - 1, from, after);
      CoveredOneMore(seeds, from, n, ws, after);
      HopsCover(seeds, from, hops - 1, n + 1, after);
    }
  }

  lemma {:induction false} VisitGrows(frontier: seq<Coord>, from: Sources, ws: Walk)
    requires SeenLeads(ws, frontier)
    ensures SeenLeads(Visit(frontier, from, ws), []) && |ws.evidence| <= |Visit(frontier, from, ws).evidence|
    decreases |frontier|
  {
    hide Collect;
    if frontier != [] {
      var coord := frontier[0];
      assert frontier == [coord] + frontier[1..];
      if coord !in ws.visited {
        CollectAll(coord, from(coord), ws.(visited := ws.visited + {coord}), frontier[1..]);
      }
      VisitGrows(frontier[1..], from, VisitOne(coord, from, ws));
    }
  }

  lemma {:induction false} HopsGrow(hops: nat, from: Sources, ws: Walk)
    requires SeenLeads(ws, [])
    ensures |ws.evidence| <= |Hops(hops, from, ws).evidence|
    decreases hops
  {
    hide Visit;
    if hops > 0 && ws.next != [] && |ws.evidence| < MAX_EVIDENCE {
      VisitGrows(ws.next, from, ws.(next := []));
      HopsGrow(hops - 1, from, Visit(ws.next, from, ws.(next := [])));
    }
  }

  /** A walk short of the cap gathers exactly the findings of the coordinates within four hops. */
  lemma WalkIsComplete(seeds: seq<Coord>, from: Sources, f: Finding)
    requires |Walked(seeds, from)| < MAX_EVIDENCE
    ensures (exists i :: 0 <= i < |Walked(seeds, from)| && Walked(seeds, from)[i].finding == f)
       <==> (exists c :: Within(seeds, from, MAX_HOPS - 1, c) && f in from(c))
  {
    hide Hops, Within;
    var start := Walk([], {}, {}, seeds);
    CoveredAtStart(seeds, from);
    HopsKeep(seeds, from, MAX_HOPS, 0, start);
    HopsCover(seeds, from, MAX_HOPS, 0, start);
    var end := Hops(MAX_HOPS, from, start);
    if c :| Within(seeds, from, MAX_HOPS - 1, c) && f in from(c) {
      assert f in end.seen;
    }
    if i :| 0 <= i < |end.evidence| && end.evidence[i].finding == f {
      assert FromSource(seeds, from, MAX_HOPS - 1, end.evidence[i]);
    }
  }

  lemma CoveredAtStart(seeds: seq<Coord>, from: Sources)
    ensures Covered(seeds, from, 0, Walk([], {}, {}, seeds)) && NextWithin(seeds, from, 0, seeds)
  {
  }

  // ------------------------------------------------------------- the cap

  /** Something of a coordinate has not been seen. */
  predicate HasUnseen(found: seq<Finding>, seen: set<Finding>) {
    exists f :: f in found && f !in seen
  }

  /** Some coordinate still to come has not been looked up and has a finding not yet seen. */
  predicate StillToTake(rest: seq<Coord>, from: Sources, ws: Walk) {
    exists k :: 0 <= k < |rest| && Takes(rest[k], from, ws)
  }

  predicate Takes(coord: Coord, from: Sources, ws: Walk) {
    coord !in ws.visited && HasUnseen(from(coord), ws.seen)
  }

  /** How many of the coordinates still to come have, when their turn comes, a finding not yet seen. */
  function Extra(rest: seq<Coord>, from: Sources, ws: Walk): nat
    decreases |rest|
  {
    if rest == [] then 0
    else (if Takes(rest[0], from, ws) then 1 else 0) + Extra(rest[1..], from, VisitOne(rest[0], from, ws))
  }

  /** At the cap a coordinate gives its first unseen finding and no more; one with none changes nothing. */
  lemma {:induction false} CollectAtCap(coord: Coord, found: seq<Finding>, ws: Walk)
    requires |ws.evidence| >= MAX_EVIDENCE
    ensures var r := Collect(coord, found, ws);
      && |r.evidence| == |ws.evidence| + (if HasUnseen(found, ws.seen) then 1 else 0)
      && r.visited == ws.visited && (!HasUnseen(found, ws.seen) ==> r == ws)
    decreases |found|
  {
    if found != [] {
      assert found == [found[0]] + found[1..];
      if found[0] in ws.seen {
        CollectAtCap(coord, found[1..], ws);
      }
    }
  }

  /** Past the cap the hop under way goes on, and each coordinate left adds one finding if it has one. */
  lemma {:induction false} VisitAtCap(rest: seq<Coord>, from: Sources, ws: Walk)
    requires |ws.evidence| >= MAX_EVIDENCE
    ensures |Visit(rest, from, ws).evidence| == |ws.evidence| + Extra(rest, from, ws)
    decreases |rest|
  {
    hide Collect;
    if rest != [] {
      if rest[0] !in ws.visited {
        CollectAtCap(rest[0], from(rest[0]), ws.(visited := ws.visited + {rest[0]}));
      }
      VisitAtCap(rest[1..], from, VisitOne(rest[0], from, ws));
    }
  }

  lemma {:induction false} ExtraIff(rest: seq<Coord>, from: Sources, ws: Walk)
    requires |ws.evidence| >= MAX_EVIDENCE
    ensures Extra(rest, from, ws) > 0 <==> StillToTake(rest, from, ws)
    decreases |rest|
  {
    hide Collect, HasUnseen;
    if rest != [] && !Takes(rest[0], from, ws) {
      var next := VisitOne(rest[0], from, ws);
      if rest[0] !in ws.visited {
        CollectAtCap(rest[0], from(rest[0]), ws.(visited := ws.visited + {rest[0]}));
      }
      ExtraIff(rest[1..], from, next);
      if StillToTake(rest, from, ws) {
        var k :| 0 <= k < |rest| && Takes(rest[k], from, ws);
        SameTake(rest[0], rest[k], from, ws);
        assert rest[1..][k - 1] == rest[k];
      }
      if StillToTake(rest[1..], from, next) {
        var k :| 0 <= k < |rest[1..]| && Takes(rest[1..][k], from, next);
        assert rest[k + 1] == rest[1..][k];
      }
    }
  }

  /** A coordinate that gives nothing leaves the others' case as it was. */
  lemma SameTake(c: Coord, d: Coord, from: Sources, ws: Walk)
    requires |ws.evidence| >= MAX_EVIDENCE && !Takes(c, from, ws) && Takes(d, from, ws)
    ensures d != c && Takes(d, from, VisitOne(c, from, ws))
  {
    hide Collect, HasUnseen;
    if c !in ws.visited {
      CollectAtCap(c, from(c), ws.(visited := ws.visited + {c}));
    }
  }

  /** Where a hop reaches the cap: the coordinates it still has to come, and the walk as it stands. */
  function CapIn(frontier: seq<Coord>, from: Sources, ws: Walk): Option<(seq<Coord>, Walk)>
    decreases |frontier|
  {
    if |ws.evidence| >= MAX_EVIDENCE then Some((frontier, ws))
    else if frontier == [] then None
    else CapIn(frontier[1..], from, VisitOne(frontier[0], from, ws))
  }

  /** The same over the hops of a walk. */
  function CapAt(hops: nat, from: Sources, ws: Walk): Option<(seq<Coord>, Walk)> {
    if hops == 0 || ws.next == [] then None
    else match CapIn(ws.next, from, ws.(next := []))
      case Some(at) => Some(at)
      case None => CapAt(hops - 1, from, Visit(ws.next, from, ws.(next := [])))
  }

  lemma {:induction false} CollectToCap(coord: Coord, found: seq<Finding>, ws: Walk)
    requires |ws.evidence| < MAX_EVIDENCE
    ensures |Collect(coord, found, ws).evidence| <= MAX_EVIDENCE
    decreases |found|
  {
    if found != [] {
      if found[0] in ws.seen {
        CollectToCap(coord, found[1..], ws);
      } else if |ws.evidence| + 1 < MAX_EVIDENCE {
        CollectToCap(coord, found[1..], TakeOne(coord, found[0], ws));
      }
    }
  }

  lemma {:induction false} VisitToCap(frontier: seq<Coord>, from: Sources, ws: Walk)
    requires |ws.evidence| <= MAX_EVIDENCE
    ensures match CapIn(frontier, from, ws)
      case None => |Visit(frontier, from, ws).evidence| < MAX_EVIDENCE
      case Some((rest, at)) => |at.evidence| == MAX_EVIDENCE && Visit(frontier, from, ws) == Visit(rest, from, at)
    decreases |frontier|
  {
    hide Collect;
    if |ws.evidence| < MAX_EVIDENCE && frontier != [] {
      if frontier[0] !in ws.visited {
        CollectToCap(frontier[0], from(frontier[0]), ws.(visited := ws.visited + {frontier[0]}));
      }
      VisitToCap(frontier[1..], from, VisitOne(frontier[0], from, ws));
    }
  }

  lemma {:induction false} HopsToCap(hops: nat, from: Sources, ws: Walk)
    requires |ws.evidence| < MAX_EVIDENCE
    ensures |Hops(hops, from, ws).evidence| == match CapAt(hops, from, ws)
      case None => |Hops(hops, from, ws).evidence|
      case Some((rest, at)) => MAX_EVIDENCE + Extra(rest, from, at)
    ensures CapAt(hops, from, ws).None? <==> |Hops(hops, from, ws).evidence| < MAX_EVIDENCE
    ensures CapAt(hops, from, ws).Some? ==> |CapAt(hops, from, ws).value.1.evidence| == MAX_EVIDENCE
    decreases hops
  {
    hide Visit, Extra, CapIn;
    if hops > 0 && ws.next != [] {
      VisitToCap(ws.next, from, ws.(next := []));
      match CapIn(ws.next, from, ws.(next := [])) {
        case None => HopsToCap(hops - 1, from, Visit(ws.next, from, ws.(next := [])));
        case Some((rest, at)) => VisitAtCap(rest, from, at);
      }
    }
  }

  /** The walk passes its cap exactly when the hop that reaches it has a later coordinate, not looked up
      yet, with a finding not seen yet; and then by one for each such coordinate as its turn comes. */
  lemma CapIsPassedIff(seeds: seq<Coord>, from: Sources)
    ensures var reached := CapAt(MAX_HOPS, from, Walk([], {}, {}, seeds));
      && (|Walked(seeds, from)| > MAX_EVIDENCE <==> reached.Some? && StillToTake(reached.value.0, from, reached.value.1))
      && (reached.Some? ==> |Walked(seeds, from)| == MAX_EVIDENCE + Extra(reached.value.0, from, reached.value.1))
      && (reached.None? ==> |Walked(seeds, from)| < MAX_EVIDENCE)
  {
    hide Hops, CapAt;
    var start := Walk([], {}, {}, seeds);
    HopsToCap(MAX_HOPS, from, start);
    match CapAt(MAX_HOPS, from, start) {
      case None =>
      case Some((rest, at)) => ExtraIff(rest, from, at);
    }
  }

  function Numbered(a: int, n: nat): (r: seq<Finding>)
    ensures |r| == n && forall i :: 0 <= i < n ==> r[i] == Finding(a + i, [])
  {
    seq(n, i => Finding(a + i, []))
  }

  lemma {:induction false} CollectNumbered(coord: Coord, a: int, n: nat, ws: Walk)
    requires |ws.evidence| + n <= MAX_EVIDENCE && ws.next == [] && forall f :: f in ws.seen ==> f.body < a
    ensures var r := Collect(coord, Numbered(a, n), ws);
      |r.evidence| == |ws.evidence| + n && r.next == [] && r.visited == ws.visited && forall f :: f in r.seen ==> f.body < a + n
    decreases n
  {
    if n > 0 {
      assert Numbered(a, n)[1..] == Numbered(a + 1, n - 1);
      assert Numbered(a, n)[0] == Finding(a, []);
      assert Leads(Finding(a, []), ws.visited) == [];
      if |ws.evidence| + 1 < MAX_EVIDENCE {
        CollectNumbered(coord, a + 1, n - 1, TakeOne(coord, Finding(a, []), ws));
      }
    }
  }

  function Crowded(c: Coord): seq<Finding> {
    if c.scheme.Sha1? then Numbered(0, MAX_EVIDENCE) else Numbered(MAX_EVIDENCE, 1)
  }

  /** Two seeds, a sha1 with a thousand findings and a sha256 with another one: a thousand and one. */
  lemma CapIsPassed()
    ensures var seeds := [Coord(Sha1, Zeros(20)), Coord(Sha256, Zeros(32))];
      (forall k :: 0 <= k < |seeds| ==> WellSized(seeds[k])) && |Walked(seeds, Crowded)| == MAX_EVIDENCE + 1
  {
    hide Collect, Numbered;
    var a, b := Coord(Sha1, Zeros(20)), Coord(Sha256, Zeros(32));
    var start := Walk([], {}, {}, []);
    var one := start.(visited := start.visited + {a});
    CollectNumbered(a, 0, MAX_EVIDENCE, one);
    var mid := Collect(a, Crowded(a), one);
    assert VisitOne(a, Crowded, start) == mid;
    assert CapIn([b], Crowded, mid) == Some(([b], mid));
    assert [a, b][1..] == [b] && [b][1..] == [];
    assert CapIn([a, b], Crowded, start) == CapIn([b], Crowded, mid);
    assert CapAt(MAX_HOPS, Crowded, Walk([], {}, {}, [a, b])) == Some(([b], mid));
    NumberedOne(mid.seen);
    assert Extra([b], Crowded, mid) == 1 + Extra([], Crowded, VisitOne(b, Crowded, mid));
    CapIsPassedIff([a, b], Crowded);
  }

  lemma NumberedOne(seen: set<Finding>)
    requires forall f :: f in seen ==> f.body < MAX_EVIDENCE
    ensures HasUnseen(Numbered(MAX_EVIDENCE, 1), seen)
  {
    assert Numbered(MAX_EVIDENCE, 1)[0] == Finding(MAX_EVIDENCE, []);
    assert Finding(MAX_EVIDENCE, []) in Numbered(MAX_EVIDENCE, 1);
  }
}
