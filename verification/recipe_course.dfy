/**
 The course planning takes, as functions: what each step of the planner makes of a plan, and whether
 it found the member worth planning. The planner's methods are proved to take just this course.
 */
module RecipeCourse {
  import opened Wrappers
  import opened ByteStrings
  import opened RecipePlan
  import opened RecipeTree
  import opened RecipeTiling
  import opened RecipePlacing
  import opened RecipeMatcher
  import opened RecipePlanning

  /** What planning goes by: the container, the members each image's passes may slice, and the passes. */
  datatype Asked = Asked(w: World, sourcesOf: nat -> seq<nat>, passes: Passes)

  datatype Now = Now(plan: Plan, halted: bool)

  /** How far below member `i` the tree can still go. */
  function Room(w: World, i: nat): nat {
    if i < |w.members| && w.members[i].depth <= w.limit then w.limit - w.members[i].depth else 0
  }

  lemma RoomBelow(w: World, truth: seq<Bytes>, i: nat, c: nat)
    requires Unchanged(w, truth) && IsKid(w, i, c)
    ensures Room(w, c) < Room(w, i)
  {
    GoesDown(w, truth, i, c);
  }

  // ------------------------------------------------------------- taking a subtree out

  ghost function WithoutEntry(p: Plan, i: nat): Plan {
    p.(extracts := p.extracts - {i}, compress := p.compress - {i}, builds := p.builds - {i})
  }

  /** Member `i`'s entry goes, and with it those of the children it refers to. */
  ghost function RemovedOf(w: World, p: Plan, i: nat): Plan
    decreases Room(w, i), 2, 0
  {
    var q := WithoutEntry(p, i);
    var r := if i in p.compress then RemovedKid(w, q, i, p.compress[i].child) else q;
    if i in p.builds then RemovedSegs(w, r, i, p.builds[i].segs, |p.builds[i].segs|) else r
  }

  ghost function RemovedKid(w: World, p: Plan, i: nat, c: nat): Plan
    decreases Room(w, i), 0, 0
  {
    if Room(w, c) < Room(w, i) then RemovedOf(w, p, c) else p
  }

  /** The children of the first `k` segments go, one after another. */
  ghost function RemovedSegs(w: World, p: Plan, i: nat, segs: seq<Seg>, k: nat): Plan
    requires k <= |segs|
    decreases Room(w, i), 1, k
  {
    if k == 0 then p
    else
      var q := RemovedSegs(w, p, i, segs, k - 1);
      if segs[k - 1].Child? then RemovedKid(w, q, i, segs[k - 1].idx) else q
  }

  // ------------------------------------------------------------- one member

  /** An archive some witness states the member's bytes are in becomes its entry. */
  ghost function ExtractOf(w: World, p: Plan, i: nat): (Plan, bool)
    requires IsMember(w, i)
  {
    if Nameable(w.members[i]) && Extractable(w, i)
    then (p.(extracts := p.extracts[i := w.evidence[i].archive.value]), true) else (p, false)
  }

  /** A child that is claimed needs no plan; another is planned as a node, or else as an extract. */
  ghost function KidOf(x: Asked, s: Now, i: nat, c: nat): (Now, bool)
    requires IsMember(x.w, i) && IsMember(x.w, c)
    decreases Room(x.w, i), 0, 0
  {
    if Claimed(x.w, c) then (s, true)
    else if Room(x.w, c) >= Room(x.w, i) then (s, false)
    else
      var (node, ok) := NodeOf(x, s, c);
      if ok then (node, true)
      else
        var (p, found) := ExtractOf(x.w, node.plan, c);
        (node.(plan := p), found)
  }

  /** A wrapper is searched for its compressor first; then an image goes to its passes, and anything else is
      spliced. */
  ghost function NodeOf(x: Asked, s: Now, i: nat): (Now, bool)
    requires IsMember(x.w, i)
    decreases Room(x.w, i), 6, 0
  {
    if x.w.members[i].kind.Gzip? || x.w.members[i].kind.Zstd? then
      var (c, ok) := CompressOf(x, s, i);
      if ok then (c, true) else BuildOf(x, c, i, false)
    else if x.w.members[i].kind.Erofs? then ImageOf(x, s, i)
    else BuildOf(x, s, i, false)
  }

  // ------------------------------------------------------------- compression nodes

  /** The wrapper's probe, when it wraps one child and has a head some compressor could have written. */
  ghost function ProbeOf(w: World, i: nat): Option<Probe> {
    if Wraps(w, i) then ProbeWrapper(w.f, w.members[i].kind, WrapperView(w, i)) else None
  }

  /** The run that makes wrapper `i` of its child, if a candidate of its search does. */
  ghost function MakerOf(w: World, i: nat): Option<Comp> {
    match ProbeOf(w, i)
    case None => None
    case Some(probe) => CompressorOf(w.f, probe, WrapperView(w, i), w.spaces[w.members[w.kids[i][0]].space.value])
  }

  /** The child is planned before the search. Found, a run becomes the wrapper's entry, over a child that rides
      along as one literal if nothing better could be done; otherwise the child goes again. */
  ghost function CompressOf(x: Asked, s: Now, i: nat): (Now, bool)
    requires IsMember(x.w, i)
    decreases Room(x.w, i), 3, 0
  {
    if ProbeOf(x.w, i).None? || !IsMember(x.w, x.w.kids[i][0]) then (s, false)
    else
      var c := x.w.kids[i][0];
      var (kid, wanted) := KidOf(x, s, i, c);
      match MakerOf(x.w, i)
      case None => (if wanted then kid.(plan := RemovedOf(x.w, kid.plan, c)) else kid, false)
      case Some(how) =>
        var p := if wanted then kid.plan else kid.plan.(builds := kid.plan.builds[c := AllLiteral(x.w, c)]);
        (kid.(plan := p.(compress := p.compress[i := Compress(c, how)])), true)
  }

  // ------------------------------------------------------------- splice builds

  /** A splice after its first children: their pieces in order, the interval set, the children turned away
      for want of room, and those taken. */
  datatype Spliced = Spliced(now: Now, segs: seq<Seg>, ends: map<nat, nat>, dropped: nat, accepted: seq<nat>)

  ghost function SplicedTo(x: Asked, s: Now, i: nat, j: nat): Spliced
    requires IsMember(x.w, i) && j <= |x.w.kids[i]|
    decreases Room(x.w, i), 1, j
  {
    if j == 0 then Spliced(s, [], map[], 0, [])
    else
      var before := SplicedTo(x, s, i, j - 1);
      SplicedOne(x, before, i, x.w.kids[i][j - 1])
  }

  /** The next child: passed over if it is no range of the space; otherwise planned, and if it leads somewhere
      either taken with all its pieces, or taken out of the plan again. */
  ghost function SplicedOne(x: Asked, before: Spliced, i: nat, c: nat): Spliced
    requires IsMember(x.w, i)
    decreases Room(x.w, i), 0, 1
  {
    if !IsMember(x.w, c) || HomeOf(x.w, i).None? || Rangeable(x.w, HomeOf(x.w, i).value.0, c).None? then before
    else
      var (kid, wanted) := KidOf(x, before.now, i, c);
      if !wanted then before.(now := kid)
      else if Fits(x.w, before, i, c) then
        var pieces := MappedIn(x.w, i, c).value;
        Spliced(kid, before.segs + pieces, WithPieces(before.ends, pieces), before.dropped, before.accepted + [c])
      else before.(now := kid.(plan := RemovedOf(x.w, kid.plan, c)), dropped := before.dropped + 1)
  }

  /** Every piece of the child has a place, and the set admits each as it stands. */
  predicate Fits(w: World, before: Spliced, i: nat, c: nat)
    requires i < |w.members| && c < |w.members|
  {
    MappedIn(w, i, c).Some? && AdmitsPieces(before.ends, MappedIn(w, i, c).value)
  }

  /** Sorted and tiled, the pieces become the member's entry; a build with none is kept only where asked. Two
      that overlap fire the assertion. */
  ghost function BuildOf(x: Asked, s: Now, i: nat, keepEmpty: bool): (Now, bool)
    requires IsMember(x.w, i)
    decreases Room(x.w, i), 2, 0
  {
    if !Nameable(x.w.members[i]) || HomeOf(x.w, i).None? then (s, false)
    else
      var done := SplicedTo(x, s, i, |x.w.kids[i]|);
      if done.segs == [] && i != done.now.plan.root && !keepEmpty then (done.now, false)
      else EnteredBuild(x.w, done, i)
  }

  ghost function EnteredBuild(w: World, done: Spliced, i: nat): (Now, bool)
    requires i < |w.members| && HomeOf(w, i).Some?
  {
    if !AllApart(done.segs) then (done.now.(halted := true), false)
    else
      var (space, runs) := HomeOf(w, i).value;
      var b := Build(TiledFrom(SortByAt(done.segs), 0, w.members[i].size), done.dropped, space, runs);
      (done.now.(plan := done.now.plan.(builds := done.now.plan.builds[i := b])), true)
  }

  // ------------------------------------------------------------- erofs images

  /** Ranged children first, then the passes; an image left with nothing goes, unless it is the root. */
  ghost function ImageOf(x: Asked, s: Now, i: nat): (Now, bool)
    requires IsMember(x.w, i)
    decreases Room(x.w, i), 5, 0
  {
    var (built, ok) := BuildOf(x, s, i, true);
    if !ok then (built, false)
    else
      var done := ErofsOf(x, built, i);
      if i in done.plan.builds && NonGaps(done.plan.builds[i].segs) == [] && i != done.plan.root
      then (done.(plan := RemovedOf(x.w, done.plan, i)), false) else (done, true)
  }

  ghost function ErofsOf(x: Asked, s: Now, i: nat): Now
    requires IsMember(x.w, i)
    decreases Room(x.w, i), 4, 0
  {
    var (sourced, planned) := SourcesTo(x, s, i, |x.sourcesOf(i)|);
    ScannedOf(x.w, sourced, i, planned, x.passes(i, SetOf(planned), sourced.plan.literals))
  }

  /** The first `k` sources are planned; those that lead somewhere, in order. */
  ghost function SourcesTo(x: Asked, s: Now, i: nat, k: nat): (Now, seq<nat>)
    requires IsMember(x.w, i) && k <= |x.sourcesOf(i)|
    decreases Room(x.w, i), 1, k
  {
    if k == 0 then (s, [])
    else
      var (before, planned) := SourcesTo(x, s, i, k - 1);
      var c := x.sourcesOf(i)[k - 1];
      if !IsMember(x.w, c) then (before, planned)
      else
        var (now, wanted) := SourceOf(x, before, i, c);
        (now, if wanted then planned + [c] else planned)
  }

  /** A source is claimed, attested, or planned if something under it can be fetched. */
  ghost function SourceOf(x: Asked, s: Now, i: nat, c: nat): (Now, bool)
    requires IsMember(x.w, i) && IsMember(x.w, c)
    decreases Room(x.w, i), 0, 0
  {
    if Claimed(x.w, c) then (s, true)
    else
      var (p, found) := ExtractOf(x.w, s.plan, c);
      if found then (s.(plan := p), true)
      else if SubtreeFetchable(x.w, c) && Room(x.w, c) < Room(x.w, i) then NodeOf(x, s, c)
      else (s, false)
  }

  /** What a scan does to the plan. */
  ghost function ScannedOf(w: World, s: Now, i: nat, planned: seq<nat>, scan: Scan): Now {
    match scan
    case Refused => s
    case SpoolLost(files) => s.(plan := LostOf(s.plan, files))
    case Panics => s.(halted := true)
    case Scanned(found, literals) => s.(plan := FoundOf(w, s.plan, i, planned, found, literals))
  }

  /** The file pass's nodes stay in the table, and the spool is gone. */
  ghost function LostOf(p: Plan, files: seq<Found>): Plan {
    p.(pclusters := p.pclusters + NodesIn(files), drops := p.drops + [|p.literals|])
  }

  /** Findings enter the table; sources none of them slices go; the others become fetched sources, and the
      findings take their places in the image's build. */
  ghost function FoundOf(w: World, p: Plan, i: nat, planned: seq<nat>, found: seq<Found>, literals: Bytes): Plan {
    var q := p.(pclusters := p.pclusters + NodesIn(found), literals := literals);
    var segs := EnteredSegs(|p.pclusters|, found);
    var keep := TabledOf(q.pclusters, segs);
    var r := DroppedTo(w, q, q, keep, planned, |planned|);
    if segs == [] || i !in r.builds then r else SplicedIn(r.(tabled := r.tabled + keep), i, segs)
  }

  ghost function DroppedTo(w: World, before: Plan, p: Plan, keep: set<nat>, planned: seq<nat>, k: nat): Plan
    requires k <= |planned|
  {
    if k == 0 then p
    else
      var q := DroppedTo(w, before, p, keep, planned, k - 1);
      var c := planned[k - 1];
      if c !in keep && c !in before.tabled && !ReferencedByPlan(before, c) then RemovedOf(w, q, c) else q
  }

  /** Late segments take their places first come first served, and the gaps are laid anew. */
  ghost function SplicedIn(p: Plan, i: nat, extra: seq<Seg>): Plan
    requires i in p.builds
  {
    var b := p.builds[i];
    var all := SortByAt(Accepted(b.runs, NonGaps(b.segs), extra));
    p.(builds := p.builds[i := b.(segs := TiledFrom(all, 0, RunsLen(b.runs)))])
  }
}
