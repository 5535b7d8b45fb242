/** Whole rows out of a parquet file: those of a key, and those at given places. */
module ParquetRows {
  import opened Wrappers
  import opened ByteStrings
  import opened ParquetColumns
  import opened ParquetLookup

  type RowObject = map<string, Value>

  predicate HasColumns(g: Group, cols: seq<string>) {
    forall c :: 0 <= c < |cols| ==> cols[c] in g.cols
  }

  predicate SoundFile(groups: seq<Group>, cols: seq<string>) {
    forall i :: 0 <= i < |groups| ==> SoundGroup(groups[i]) && HasColumns(groups[i], cols)
  }

  function CellValue(c: Option<Value>): Value {
    match c
    case None => Null
    case Some(v) => v
  }

  /** One row of a group: the named columns' values at it. */
  function RowOf(g: Group, cols: seq<string>, r: nat): RowObject
    requires SoundGroup(g) && HasColumns(g, cols) && r < |g.keys.cells|
  {
    map c | c in cols :: if g.cols[c].cells[r].Some? then g.cols[c].cells[r].value else Null
  }

  // ------------------------------------------------------------- filling rows column by column

  /** Where the records read stand in the group. */
  function PlaceOf(rows: Rows, i: nat): nat
    requires rows.At? ==> i < |rows.positions|
  {
    match rows
    case Span(first, _) => first + i
    case At(ps) => ps[i]
  }

  function CountOf(rows: Rows): nat {
    match rows
    case Span(_, take) => take
    case At(ps) => |ps|
  }

  /** Objects filled from the first `n` columns. */
  predicate FilledTo(g: Group, cols: seq<string>, n: nat, rows: Rows, objs: seq<RowObject>)
    requires SoundGroup(g) && HasColumns(g, cols) && Fits(rows, |g.keys.cells|) && n <= |cols|
  {
    |objs| == CountOf(rows) && forall i :: 0 <= i < |objs| ==> objs[i] == RowOf(g, cols[..n], PlaceOf(rows, i))
  }

  lemma OneColumnMore(g: Group, cols: seq<string>, n: nat, r: nat)
    requires SoundGroup(g) && HasColumns(g, cols) && n < |cols| && r < |g.keys.cells|
    ensures RowOf(g, cols[..n + 1], r) == RowOf(g, cols[..n], r)[cols[n] := CellValue(g.cols[cols[n]].cells[r])]
  {
    assert cols[..n + 1] == cols[..n] + [cols[n]];
  }

  /** The rows asked for, each column read once and its values put into every object. */
  method ReadRows(g: Group, cols: seq<string>, rows: Rows) returns (objs: seq<RowObject>)
    requires SoundGroup(g) && HasColumns(g, cols) && Fits(rows, |g.keys.cells|) && CountOf(rows) > 0
    ensures FilledTo(g, cols, |cols|, rows, objs)
  {
    hide SoundGroup;
    objs := seq(CountOf(rows), _ => map[]);
    var c := 0;
    while c < |cols|
      invariant 0 <= c <= |cols| && FilledTo(g, cols, c, rows, objs)
    {
      ColumnSound(g, cols[c]);
      var vals := ReadColumn(g.cols[cols[c]], rows);
      objs := PutColumn(g, cols, c, rows, vals, objs);
      c := c + 1;
    }
  }

  lemma ColumnSound(g: Group, name: string)
    requires SoundGroup(g) && name in g.cols
    ensures Sound(g.cols[name]) && |g.cols[name].cells| == |g.keys.cells|
  {
  }

  method PutColumn(g: Group, cols: seq<string>, c: nat, rows: Rows, vals: seq<Option<Value>>, was: seq<RowObject>)
    returns (objs: seq<RowObject>)
    requires SoundGroup(g) && HasColumns(g, cols) && Fits(rows, |g.keys.cells|) && c < |cols|
    requires FilledTo(g, cols, c, rows, was) && |vals| == CountOf(rows)
    requires forall i :: 0 <= i < |vals| ==> vals[i] == g.cols[cols[c]].cells[PlaceOf(rows, i)]
    ensures FilledTo(g, cols, c + 1, rows, objs)
  {
    hide SoundGroup, RowOf;
    objs := was;
    var i := 0;
    while i < |objs|
      invariant 0 <= i <= |objs| == |was|
      invariant forall j :: 0 <= j < |objs| ==> objs[j] == RowOf(g, if j < i then cols[..c + 1] else cols[..c], PlaceOf(rows, j))
    {
      OneColumnMore(g, cols, c, PlaceOf(rows, i));
      objs := objs[i := objs[i][cols[c] := CellValue(vals[i])]];
      i := i + 1;
    }
  }

  // ------------------------------------------------------------- rows of a key

  /** A row as found by its key: the requested columns, and the key under its own column's name. */
  function KeyedRow(g: Group, keyCol: string, cols: seq<string>, key: Bytes, r: nat): RowObject
    requires SoundGroup(g) && HasColumns(g, cols) && r < |g.keys.cells|
  {
    RowOf(g, cols, r)[keyCol := Text(key)]
  }

  /** A row of the file: its group and where it stands in it. */
  datatype Place = Place(group: nat, row: nat)

  /** The linear filter over the first `n` groups: where every row with the key stands, in file order. */
  function Linear(groups: seq<Group>, key: Bytes, n: nat): seq<Place>
    requires n <= |groups|
  {
    if n == 0 then [] else Linear(groups, key, n - 1) + PlacesIn(n - 1, AllHits(groups[n - 1], key))
  }

  function PlacesIn(group: nat, rows: seq<nat>): (r: seq<Place>)
    ensures |r| == |rows| && forall k :: 0 <= k < |rows| ==> r[k] == Place(group, rows[k])
  {
    seq(|rows|, k requires 0 <= k < |rows| => Place(group, rows[k]))
  }

  /** How many rows of group `i` are read when `cap` are wanted in all. */
  function Taken(groups: seq<Group>, key: Bytes, cap: nat, i: nat): (r: nat)
    requires i < |groups|
    ensures r <= |AllHits(groups[i], key)|
  {
    Min(|AllHits(groups[i], key)|, cap - Min(cap, |Linear(groups, key, i)|))
  }

  /** The rows read: of each group its first match and those straight after it, as many as are taken. */
  function Spans(groups: seq<Group>, key: Bytes, cap: nat, n: nat): seq<Place>
    requires n <= |groups|
  {
    if n == 0 then [] else Spans(groups, key, cap, n - 1) + SpanOf(groups[n - 1], key, n - 1, Taken(groups, key, cap, n - 1))
  }

  function SpanOf(g: Group, key: Bytes, group: nat, take: nat): (r: seq<Place>)
    requires take <= |AllHits(g, key)|
    ensures |r| == take
  {
    if take == 0 then [] else PlacesIn(group, From(AllHits(g, key)[0], take))
  }

  function From(first: nat, take: nat): (r: seq<nat>)
    ensures |r| == take && forall k :: 0 <= k < take ==> r[k] == first + k
  {
    seq(take, k => first + k)
  }

  /** No other cell stands among the first `take` matches. */
  predicate StartsTogether(g: Group, key: Bytes, take: nat)
    requires take <= |AllHits(g, key)|
  {
    forall a :: 0 <= a < take ==> AllHits(g, key)[a] == AllHits(g, key)[0] + a
  }

  lemma {:induction false} SpansCount(groups: seq<Group>, key: Bytes, cap: nat, n: nat)
    requires n <= |groups|
    ensures |Spans(groups, key, cap, n)| == Min(cap, |Linear(groups, key, n)|)
  {
    hide Hits, AllHits;
    if n > 0 {
      SpansCount(groups, key, cap, n - 1);
    }
  }

  lemma StepOfBoth(groups: seq<Group>, key: Bytes, cap: nat, n: nat)
    requires n < |groups|
    ensures Spans(groups, key, cap, n + 1) == Spans(groups, key, cap, n) + SpanOf(groups[n], key, n, Taken(groups, key, cap, n))
    ensures var l, m := Linear(groups, key, n), Linear(groups, key, n + 1);
      m[..Min(cap, |m|)] == l[..Min(cap, |l|)] + PlacesIn(n, AllHits(groups[n], key))[..Taken(groups, key, cap, n)]
  {
    hide AllHits, Taken, SpanOf, PlacesIn;
    TakenIs(groups, key, cap, n);
    TakesAreFirst(Linear(groups, key, n), PlacesIn(n, AllHits(groups[n], key)), cap);
  }

  /** What is read is what the linear filter keeps exactly when, in each group rows are read from, no
      other cell stands among the matches read. */
  lemma {:induction false} SpansAreLinearIff(groups: seq<Group>, key: Bytes, cap: nat, n: nat)
    requires n <= |groups|
    ensures Spans(groups, key, cap, n) == Linear(groups, key, n)[..Min(cap, |Linear(groups, key, n)|)] <==>
            forall i :: 0 <= i < n ==> StartsTogether(groups[i], key, Taken(groups, key, cap, i))
  {
    hide AllHits, Taken, StartsTogether, SpanOf, PlacesIn, Spans, Linear;
    if n == 0 {
      NoPlaces(groups, key, cap);
    } else {
      SpansAreLinearIff(groups, key, cap, n - 1);
      SpansCount(groups, key, cap, n - 1);
      StepOfBoth(groups, key, cap, n - 1);
      var l, take := Linear(groups, key, n - 1), Taken(groups, key, cap, n - 1);
      SpanIsPrefixIff(groups[n - 1], key, n - 1, take);
      JoinsEqual(Spans(groups, key, cap, n - 1), SpanOf(groups[n - 1], key, n - 1, take),
                 l[..Min(cap, |l|)], PlacesIn(n - 1, AllHits(groups[n - 1], key))[..take]);
    }
  }

  lemma NoPlaces(groups: seq<Group>, key: Bytes, cap: nat)
    ensures Spans(groups, key, cap, 0) == [] == Linear(groups, key, 0)
  {
  }

  lemma TakenIs(groups: seq<Group>, key: Bytes, cap: nat, i: nat)
    requires i < |groups|
    ensures Taken(groups, key, cap, i) == Min(|AllHits(groups[i], key)|, cap - Min(cap, |Linear(groups, key, i)|))
  {
  }

  lemma JoinsEqual(a: seq<Place>, b: seq<Place>, c: seq<Place>, d: seq<Place>)
    requires |a| == |c|
    ensures a + b == c + d <==> a == c && b == d
  {
    if a + b == c + d {
      assert a == (a + b)[..|a|] == (c + d)[..|c|] == c;
      assert b == (a + b)[|a|..] == (c + d)[|c|..] == d;
    }
  }

  lemma SpanIsPrefixIff(g: Group, key: Bytes, group: nat, take: nat)
    requires take <= |AllHits(g, key)|
    ensures StartsTogether(g, key, take) <==>
            SpanOf(g, key, group, take) == PlacesIn(group, AllHits(g, key))[..take]
  {
    hide Hits, AllHits;
    if take > 0 {
      var span, first := SpanOf(g, key, group, take), PlacesIn(group, AllHits(g, key))[..take];
      if span == first {
        forall a | 0 <= a < take
          ensures AllHits(g, key)[a] == AllHits(g, key)[0] + a
        {
          assert span[a] == first[a];
        }
      }
    }
  }

  /** Where nothing stands between a group's matches at all, nothing does among any first few. */
  lemma TogetherStarts(g: Group, key: Bytes, take: nat)
    requires Together(g, key) && take <= |AllHits(g, key)|
    ensures StartsTogether(g, key, take)
  {
    hide Hits, AllHits;
    SpanIsHits(g, key);
  }

  /** A group of three rows, the key's first and last with nothing between. */
  function Gapped(): Group {
    Group(Column([Some([7]), None, Some([7])], false), Some(([7], [7])), None, map[])
  }

  lemma GappedHits()
    ensures AllHits(Gapped(), [7]) == [0, 2]
  {
    hide AllHits;
    FirstAndLast(Gapped(), [7]);
  }

  lemma FirstAndLast(g: Group, key: Bytes)
    requires |g.keys.cells| == 3 && Match(g, key, 0) && !Match(g, key, 1) && Match(g, key, 2)
    ensures AllHits(g, key) == [0, 2]
  {
    hide Hits, Match;
    NoughtAndTwo(Hits(g, key, 3));
  }

  lemma NoughtAndTwo(r: seq<nat>)
    requires forall k :: 0 <= k < |r| ==> r[k] == 0 || r[k] == 2
    requires forall a, b :: 0 <= a < b < |r| ==> r[a] < r[b]
    requires 0 in r && 2 in r
    ensures r == [0, 2]
  {
    assert PlaceOr(r, 0) <= 2 && PlaceOr(r, 1) <= 2 && PlaceOr(r, 2) <= 2;
    assert |r| == 2;
  }

  function PlaceOr(r: seq<nat>, k: nat): nat {
    if k < |r| then r[k] else 0
  }

  /** It is a group like any other; two of its rows wanted, the empty one is read in place of the last. */
  lemma NullIsReadForKey()
    ensures SoundGroup(Gapped())
    ensures Linear([Gapped()], [7], 1) == [Place(0, 0), Place(0, 2)] && Spans([Gapped()], [7], 2, 1) == [Place(0, 0), Place(0, 1)]
  {
    hide AllHits;
    GappedHits();
    var g := [Gapped()];
    assert Linear(g, [7], 0) == [] && Spans(g, [7], 2, 0) == [];
    assert Taken(g, [7], 2, 0) == 2;
    assert PlacesIn(0, [0, 2]) == [Place(0, 0), Place(0, 2)];
    assert From(0, 2) == [0, 1] && PlacesIn(0, [0, 1]) == [Place(0, 0), Place(0, 1)];
  }

  /** A group its footer bounds do not admit has no row of the key. */
  lemma NotAdmitted(g: Group, key: Bytes)
    requires SoundGroup(g) && !Admits(g.bounds, key)
    ensures AllHits(g, key) == []
  {
    forall i | 0 <= i < |g.keys.cells|
      ensures !Match(g, key, i)
    {
    }
    NoHitsBetween(g, key, 0, |g.keys.cells|);
  }

  lemma TakesAreFirst<T>(l: seq<T>, m: seq<T>, cap: nat)
    ensures var take := Min(|m|, cap - Min(cap, |l|));
      (l + m)[..Min(cap, |l + m|)] == l[..Min(cap, |l|)] + m[..take]
  {
  }

  /** The rows of the key's span in one group, as they are read. */
  method SpanRows(g: Group, keyCol: string, cols: seq<string>, key: Bytes, first: nat, take: nat) returns (rows: seq<RowObject>)
    requires SoundGroup(g) && HasColumns(g, cols) && first + take <= |g.keys.cells| && take > 0
    ensures |rows| == take && forall i :: 0 <= i < take ==> rows[i] == KeyedRow(g, keyCol, cols, key, first + i)
  {
    hide SoundGroup, RowOf, Hits;
    var objs := ReadRows(g, cols, Span(first, take));
    assert cols[..|cols|] == cols;
    rows := [];
    var i := 0;
    while i < |objs|
      invariant 0 <= i <= |objs| && |rows| == i && forall j :: 0 <= j < i ==> rows[j] == KeyedRow(g, keyCol, cols, key, first + j)
    {
      rows := rows + [objs[i][keyCol := Text(key)]];
      i := i + 1;
    }
  }

  /** The matches of a group number no more than the records from the first on. */
  lemma SpanFits(g: Group, key: Bytes)
    ensures AllHits(g, key) != [] ==> AllHits(g, key)[0] + |AllHits(g, key)| <= |g.keys.cells|
  {
    hide Hits;
    var hits := AllHits(g, key);
    if hits != [] {
      var k := 0;
      while k < |hits| - 1
        invariant 0 <= k < |hits| && hits[k] >= hits[0] + k
      {
        k := k + 1;
      }
    }
  }

  /** The rows are those at the places, in order, each with the key put in. */
  predicate RowsStand(groups: seq<Group>, keyCol: string, cols: seq<string>, key: Bytes, places: seq<Place>, rows: seq<RowObject>)
    requires SoundFile(groups, cols)
  {
    |rows| == |places| && forall k :: 0 <= k < |rows| ==> StandsAt(groups, keyCol, cols, key, places[k], rows[k])
  }

  predicate StandsAt(groups: seq<Group>, keyCol: string, cols: seq<string>, key: Bytes, p: Place, row: RowObject)
    requires SoundFile(groups, cols)
  {
    p.group < |groups| && p.row < |groups[p.group].keys.cells| && row == KeyedRow(groups[p.group], keyCol, cols, key, p.row)
  }

  /** `find_rows`: the exact number of rows with the key, and the rows of its spans up to `cap`, in file
      order. */
  method FindRows(groups: seq<Group>, keyCol: string, cols: seq<string>, key: Bytes, cap: nat)
    returns (rows: seq<RowObject>, total: nat)
    requires SoundFile(groups, cols)
    ensures total == |Linear(groups, key, |groups|)| && |rows| == Min(cap, total)
    ensures RowsStand(groups, keyCol, cols, key, Spans(groups, key, cap, |groups|), rows)
    ensures (forall i :: 0 <= i < |groups| ==> StartsTogether(groups[i], key, Taken(groups, key, cap, i))) ==>
              RowsStand(groups, keyCol, cols, key, Linear(groups, key, |groups|)[..Min(cap, total)], rows)
    ensures (forall i :: 0 <= i < |groups| ==> Together(groups[i], key)) ==>
              RowsStand(groups, keyCol, cols, key, Linear(groups, key, |groups|)[..Min(cap, total)], rows)
  {
    hide SoundGroup, SoundFile, HasColumns, KeyedRow, AllHits, Hits, Admits, RowsStand, Spans, Linear, StartsTogether, Taken, SpanOf, Together;
    rows, total := [], 0;
    NoPlaces(groups, key, cap);
    NoRows(groups, keyCol, cols, key);
    var i := 0;
    while i < |groups|
      invariant 0 <= i <= |groups| && total == |Linear(groups, key, i)|
      invariant RowsStand(groups, keyCol, cols, key, Spans(groups, key, cap, i), rows) && |rows| == |Spans(groups, key, cap, i)|
    {
      SpansCount(groups, key, cap, i);
      StepOfBoth(groups, key, cap, i);
      TakenIs(groups, key, cap, i);
      LinearGrows(groups, key, i);
      var more, count := [], 0;
      if Admits(groups[i].bounds, key) {
        more, count := FindInGroup(groups, i, keyCol, cols, key, cap - |rows|);
      } else {
        ScannableGroup(groups, cols, i);
        NotAdmitted(groups[i], key);
      }
      RowsGrow(groups, keyCol, cols, key, cap, i, rows, more);
      rows := rows + more;
      total := total + count;
      i := i + 1;
    }
    SpansCount(groups, key, cap, |groups|);
    SpansAreLinearIff(groups, key, cap, |groups|);
    SortedStarts(groups, key, cap);
  }

  lemma SortedStarts(groups: seq<Group>, key: Bytes, cap: nat)
    ensures (forall i :: 0 <= i < |groups| ==> Together(groups[i], key)) ==>
              forall i :: 0 <= i < |groups| ==> StartsTogether(groups[i], key, Taken(groups, key, cap, i))
  {
    hide AllHits, Taken, StartsTogether, Together;
    if forall i :: 0 <= i < |groups| ==> Together(groups[i], key) {
      forall i | 0 <= i < |groups|
        ensures StartsTogether(groups[i], key, Taken(groups, key, cap, i))
      {
        TogetherStarts(groups[i], key, Taken(groups, key, cap, i));
      }
    }
  }

  lemma NoRows(groups: seq<Group>, keyCol: string, cols: seq<string>, key: Bytes)
    requires SoundFile(groups, cols)
    ensures RowsStand(groups, keyCol, cols, key, [], [])
  {
  }

  lemma LinearGrows(groups: seq<Group>, key: Bytes, i: nat)
    requires i < |groups|
    ensures |Linear(groups, key, i + 1)| == |Linear(groups, key, i)| + |AllHits(groups[i], key)|
  {
    hide AllHits;
  }

  lemma RowsGrow(groups: seq<Group>, keyCol: string, cols: seq<string>, key: Bytes, cap: nat, i: nat,
                 rows: seq<RowObject>, more: seq<RowObject>)
    requires SoundFile(groups, cols) && i < |groups| && RowsStand(groups, keyCol, cols, key, Spans(groups, key, cap, i), rows)
    requires |more| == Taken(groups, key, cap, i)
    requires more != [] ==> AllHits(groups[i], key) != [] && forall k :: 0 <= k < |more| ==>
               StandsAt(groups, keyCol, cols, key, Place(i, AllHits(groups[i], key)[0] + k), more[k])
    ensures RowsStand(groups, keyCol, cols, key, Spans(groups, key, cap, i + 1), rows + more)
  {
    hide SoundFile, StandsAt, AllHits, Taken;
    var was, span := Spans(groups, key, cap, i), SpanOf(groups[i], key, i, |more|);
    forall k | 0 <= k < |rows + more|
      ensures StandsAt(groups, keyCol, cols, key, (was + span)[k], (rows + more)[k])
    {
      if k >= |rows| {
        assert (was + span)[k] == span[k - |rows|];
      }
    }
  }

  /** One candidate group: scanned, counted, and as many rows read as there is still room for. */
  method FindInGroup(groups: seq<Group>, i: nat, keyCol: string, cols: seq<string>, key: Bytes, room: nat)
    returns (rows: seq<RowObject>, count: nat)
    requires SoundFile(groups, cols) && i < |groups|
    ensures count == |AllHits(groups[i], key)| && |rows| == Min(count, room)
    ensures rows != [] ==> forall k :: 0 <= k < |rows| ==>
              StandsAt(groups, keyCol, cols, key, Place(i, AllHits(groups[i], key)[0] + k), rows[k])
  {
    hide KeyedRow, HasColumns, Hits, SoundGroup;
    var g := groups[i];
    ScannableGroup(groups, cols, i);
    var found := ScanKeyColumn(g, key);
    if found.None? {
      return [], 0;
    }
    count := found.value.1;
    var take := Min(count, room);
    if take == 0 {
      return [], count;
    }
    SpanFits(g, key);
    rows := SpanRows(g, keyCol, cols, key, found.value.0, take);
  }

  lemma ScannableGroup(groups: seq<Group>, cols: seq<string>, i: nat)
    requires SoundFile(groups, cols) && i < |groups|
    ensures SoundGroup(groups[i]) && HasColumns(groups[i], cols) && Sound(groups[i].keys) && KeysSorted(groups[i]) && PagesSound(groups[i])
  {
  }
}
