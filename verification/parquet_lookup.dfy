/** Point lookups in a file sorted by a key column: row groups and pages routed by their bounds, the
    key column scanned with early exit, the rows read by position. */
module ParquetLookup {
  import opened Wrappers
  import opened ByteStrings
  import opened Coords
  import opened ParquetColumns

  datatype Value = Null | Num(n: int) | Text(text: Bytes)

  /** A page of the key column: its first row and, unless it holds no key, its least and greatest. */
  datatype Page = Page(firstRow: nat, bounds: Option<(Bytes, Bytes)>)

  /** One row group: the key column, its footer bounds, its page index if the footer has one, and the
      other columns by name. */
  datatype Group = Group(keys: Column<Bytes>, bounds: Option<(Bytes, Bytes)>, pages: Option<seq<Page>>, cols: map<string, Column<Value>>)

  predicate AtMost(a: Bytes, b: Bytes) {
    a == b || BytesBefore(a, b)
  }

  predicate Admits(bounds: Option<(Bytes, Bytes)>, key: Bytes) {
    bounds.Some? && AtMost(bounds.value.0, key) && AtMost(key, bounds.value.1)
  }

  // ------------------------------------------------------------- what a sound file is

  predicate KeysSorted(g: Group) {
    forall i, j :: 0 <= i < j < |g.keys.cells| && g.keys.cells[i].Some? && g.keys.cells[j].Some? ==>
      !BytesBefore(g.keys.cells[j].value, g.keys.cells[i].value)
  }

  /** Every key of the group lies within its footer bounds. */
  predicate GroupBounded(g: Group) {
    forall i :: 0 <= i < |g.keys.cells| && g.keys.cells[i].Some? ==> Admits(g.bounds, g.keys.cells[i].value)
  }

  /** Where page `k`'s rows end. */
  function PageEnd(g: Group, ps: seq<Page>, k: nat): nat
    requires k < |ps|
  {
    if k + 1 < |ps| then ps[k + 1].firstRow else |g.keys.cells|
  }

  predicate PagesFollow(g: Group, ps: seq<Page>) {
    forall k :: 0 <= k < |ps| ==> ps[k].firstRow <= PageEnd(g, ps, k) <= |g.keys.cells|
  }

  /** Pages follow one another from the first row, and every key lies within its page's bounds. */
  predicate PagesSound(g: Group) {
    g.pages.Some? ==>
      var ps := g.pages.value;
      && (|g.keys.cells| > 0 ==> |ps| > 0) && (|ps| > 0 ==> ps[0].firstRow == 0)
      && PagesFollow(g, ps)
      && (forall k, i :: 0 <= k < |ps| && ps[k].firstRow <= i < PageEnd(g, ps, k) && g.keys.cells[i].Some? ==>
            Admits(ps[k].bounds, g.keys.cells[i].value))
  }

  predicate SoundGroup(g: Group) {
    && Sound(g.keys) && KeysSorted(g) && GroupBounded(g) && PagesSound(g)
    && forall c :: c in g.cols ==> Sound(g.cols[c]) && |g.cols[c].cells| == |g.keys.cells|
  }

  // ------------------------------------------------------------- the linear filter

  predicate Match(g: Group, key: Bytes, i: nat)
    requires i < |g.keys.cells|
  {
    g.keys.cells[i] == Some(key)
  }

  /** The rows among the first `n` whose key it is, in order. */
  function Hits(g: Group, key: Bytes, n: nat): (r: seq<nat>)
    requires n <= |g.keys.cells|
    ensures forall k :: 0 <= k < |r| ==> r[k] < n && Match(g, key, r[k])
    ensures forall i :: 0 <= i < n && Match(g, key, i) ==> i in r
    ensures forall a, b :: 0 <= a < b < |r| ==> r[a] < r[b]
  {
    if n == 0 then [] else if Match(g, key, n - 1) then Hits(g, key, n - 1) + [n - 1] else Hits(g, key, n - 1)
  }

  function AllHits(g: Group, key: Bytes): seq<nat> {
    Hits(g, key, |g.keys.cells|)
  }

  lemma {:induction false} NoHitsBetween(g: Group, key: Bytes, a: nat, b: nat)
    requires a <= b <= |g.keys.cells| && forall i :: a <= i < b ==> !Match(g, key, i)
    ensures Hits(g, key, b) == Hits(g, key, a)
  {
    if a < b {
      NoHitsBetween(g, key, a, b - 1);
    }
  }

  // ------------------------------------------------------------- scanning the key column

  /** The first page whose bounds admit the key. */
  method FirstPage(ps: seq<Page>, key: Bytes) returns (k: Option<nat>)
    ensures k.Some? ==> k.value < |ps| && Admits(ps[k.value].bounds, key)
    ensures forall j :: 0 <= j < (if k.Some? then k.value else |ps|) ==> !Admits(ps[j].bounds, key)
  {
    var i := 0;
    while i < |ps|
      invariant 0 <= i <= |ps| && forall j :: 0 <= j < i ==> !Admits(ps[j].bounds, key)
    {
      if Admits(ps[i].bounds, key) {
        return Some(i);
      }
      i := i + 1;
    }
    k := None;
  }

  lemma {:induction false} PageOf(g: Group, ps: seq<Page>, i: nat) returns (k: nat)
    requires PagesSound(g) && g.pages == Some(ps) && i < |g.keys.cells|
    ensures k < |ps| && ps[k].firstRow <= i < PageEnd(g, ps, k)
  {
    k := 0;
    while PageEnd(g, ps, k) <= i
      invariant k < |ps| && ps[k].firstRow <= i
      decreases |ps| - k
    {
      k := k + 1;
    }
  }

  /** Pages that do not admit the key hold no row of it. */
  lemma NoHitsInPages(g: Group, key: Bytes, n: nat)
    requires PagesSound(g) && g.pages.Some? && n <= |g.pages.value|
    requires forall j :: 0 <= j < n ==> !Admits(g.pages.value[j].bounds, key)
    ensures n < |g.pages.value| ==> g.pages.value[n].firstRow <= |g.keys.cells| && Hits(g, key, g.pages.value[n].firstRow) == []
    ensures n == |g.pages.value| ==> AllHits(g, key) == []
  {
    var ps := g.pages.value;
    var end := if n < |ps| then ps[n].firstRow else |g.keys.cells|;
    assert n < |ps| ==> ps[n].firstRow <= PageEnd(g, ps, n);
    forall i | 0 <= i < end
      ensures !Match(g, key, i)
    {
      var k := PageOf(g, ps, i);
      if k >= n && n < |ps| {
        FirstRowsRise(g, ps, n, k);
      }
    }
    NoHitsBetween(g, key, 0, end);
  }

  lemma {:induction false} FirstRowsRise(g: Group, ps: seq<Page>, a: nat, b: nat)
    requires PagesFollow(g, ps) && a <= b < |ps|
    ensures ps[a].firstRow <= ps[b].firstRow
  {
    if a < b {
      FirstRowsRise(g, ps, a, b - 1);
      assert ps[b - 1].firstRow <= PageEnd(g, ps, b - 1);
    }
  }

  /** Past a greater key there are no more matches. */
  lemma NoHitsPast(g: Group, key: Bytes, i: nat)
    requires KeysSorted(g) && i < |g.keys.cells| && g.keys.cells[i].Some? && BytesBefore(key, g.keys.cells[i].value)
    ensures Hits(g, key, i) == AllHits(g, key)
  {
    forall j | i <= j < |g.keys.cells|
      ensures !Match(g, key, j)
    {
      BytesOrder(key, g.keys.cells[i].value);
    }
    NoHitsBetween(g, key, i, |g.keys.cells|);
  }

  /** What the scan has found once it has passed the first `n` records. */
  predicate Found(g: Group, key: Bytes, n: nat, first: Option<nat>, count: nat)
    requires n <= |g.keys.cells|
  {
    var hits := Hits(g, key, n);
    count == |hits| && (first == if hits == [] then None else Some(hits[0]))
  }

  lemma FoundOneMore(g: Group, key: Bytes, n: nat, first: Option<nat>, count: nat)
    requires n < |g.keys.cells| && Found(g, key, n, first, count)
    ensures if Match(g, key, n) then Found(g, key, n + 1, if first.Some? then first else Some(n), count + 1)
            else Found(g, key, n + 1, first, count)
  {
  }

  /** One batch of records gone through: on to the next batch, or stopped at a greater key. */
  method ScanBatch(g: Group, key: Bytes, defs: seq<bool>, vals: seq<Bytes>, record0: nat, first0: Option<nat>, count0: nat)
    returns (stop: bool, first: Option<nat>, count: nat)
    requires KeysSorted(g) && record0 + |defs| <= |g.keys.cells| && Found(g, key, record0, first0, count0)
    requires var cells := g.keys.cells[record0..record0 + |defs|]; defs == Flags(cells) && vals == Present(cells)
    ensures Found(g, key, if stop then |g.keys.cells| else record0 + |defs|, first, count)
  {
    hide Found, KeysSorted;
    ghost var cells := g.keys.cells[record0..record0 + |defs|];
    first, count, stop := first0, count0, false;
    var vi, i := 0, 0;
    while i < |defs|
      invariant 0 <= i <= |defs| && vi == |Present(cells[..i])| && Found(g, key, record0 + i, first, count)
    {
      PresentAt(cells, i);
      FoundOneMore(g, key, record0 + i, first, count);
      if defs[i] {
        var v := vals[vi];
        vi := vi + 1;
        if v == key {
          first := if first.Some? then first else Some(record0 + i);
          count := count + 1;
        } else if BytesBefore(key, v) {
          StopHere(g, key, record0 + i, first, count);
          return true, first, count;
        }
      }
      i := i + 1;
    }
  }

  lemma StopHere(g: Group, key: Bytes, n: nat, first: Option<nat>, count: nat)
    requires KeysSorted(g) && n < |g.keys.cells| && g.keys.cells[n].Some? && BytesBefore(key, g.keys.cells[n].value)
    requires Found(g, key, n, first, count)
    ensures Found(g, key, |g.keys.cells|, first, count)
  {
    NoHitsPast(g, key, n);
  }

  /** Where the scan begins: at the first page that may hold the key, nowhere if none may, at the first
      record without a page index. No match comes before. */
  method FirstRecord(g: Group, key: Bytes) returns (skip: Option<nat>)
    requires PagesSound(g)
    ensures skip.Some? ==> skip.value <= |g.keys.cells| && Hits(g, key, skip.value) == []
    ensures skip.None? ==> AllHits(g, key) == []
    ensures g.pages.None? ==> skip == Some(0)
    ensures g.pages.Some? ==>
              var ps := g.pages.value;
              && (skip.None? <==> forall k :: 0 <= k < |ps| ==> !Admits(ps[k].bounds, key))
              && (forall k :: 0 <= k < |ps| && Admits(ps[k].bounds, key) && (forall j :: 0 <= j < k ==> !Admits(ps[j].bounds, key)) ==>
                    skip == Some(ps[k].firstRow))
  {
    hide PagesSound, AtMost;
    NothingBefore(g, key);
    if g.pages.None? {
      return Some(0);
    }
    var page := FirstPage(g.pages.value, key);
    NoHitsInPages(g, key, if page.Some? then page.value else |g.pages.value|);
    skip := if page.Some? then Some(g.pages.value[page.value].firstRow) else None;
  }

  /** Batch after batch from record `skip` on, to the end or the first greater key. */
  method ScanFrom(g: Group, key: Bytes, skip: nat) returns (first: Option<nat>, count: nat)
    requires Sound(g.keys) && KeysSorted(g) && skip <= |g.keys.cells| && Hits(g, key, skip) == []
    ensures Found(g, key, |g.keys.cells|, first, count)
  {
    hide KeysSorted, Found, Hits, Flags, Present;
    var cursor := new Cursor<Bytes>(g.keys);
    if skip > 0 {
      cursor.SkipRecords(skip);
    }
    StartFound(g, key, skip);
    var record: nat := skip;
    first, count := None, 0;
    while true
      invariant fresh(cursor) && cursor.Valid() && cursor.column == g.keys && cursor.pos == record <= |g.keys.cells|
      invariant Found(g, key, record, first, count)
      decreases |g.keys.cells| - record
    {
      var records, defs, vals := cursor.ReadRecords(256);
      if records == 0 {
        break;
      }
      ResizedIsFlags(g.keys, record, record + records, defs);
      var stop;
      stop, first, count := ScanBatch(g, key, Resized(defs, records), vals, record, first, count);
      if stop {
        return;
      }
      record := record + records;
    }
  }

  /** `scan_key_column`: the first matching record and how many match, over the whole group, whether the
      scan begins at a page or at the first record. */
  method ScanKeyColumn(g: Group, key: Bytes) returns (r: Option<(nat, nat)>)
    requires Sound(g.keys) && KeysSorted(g) && PagesSound(g)
    ensures r == if AllHits(g, key) == [] then None else Some((AllHits(g, key)[0], |AllHits(g, key)|))
  {
    hide PagesSound, KeysSorted, Found, Hits, AllHits, Sound;
    var skip := FirstRecord(g, key);
    if skip.None? {
      return None;
    }
    var first, count := ScanFrom(g, key, skip.value);
    FoundAll(g, key, first, count);
    r := if first.Some? then Some((first.value, count)) else None;
  }

  lemma NothingBefore(g: Group, key: Bytes)
    ensures Hits(g, key, 0) == []
  {
  }

  lemma StartFound(g: Group, key: Bytes, skip: nat)
    requires skip <= |g.keys.cells| && Hits(g, key, skip) == []
    ensures Found(g, key, skip, None, 0)
  {
  }

  lemma FoundAll(g: Group, key: Bytes, first: Option<nat>, count: nat)
    requires Found(g, key, |g.keys.cells|, first, count)
    ensures first.None? <==> AllHits(g, key) == []
    ensures first.Some? ==> first.value == AllHits(g, key)[0] && count == |AllHits(g, key)|
  {
  }

  // ------------------------------------------------------------- finding rows

  /** Every key of a group's matches follows straight on: no other cell between two of them. */
  predicate Together(g: Group, key: Bytes) {
    forall i, j, k :: 0 <= i < j < k < |g.keys.cells| && Match(g, key, i) && Match(g, key, k) ==> Match(g, key, j)
  }

  /** The span read for a group, first match and on, is its matches exactly when nothing stands between
      them. */
  lemma SpanIsHits(g: Group, key: Bytes)
    ensures AllHits(g, key) != [] ==>
              ((forall a :: 0 <= a < |AllHits(g, key)| ==> AllHits(g, key)[a] == AllHits(g, key)[0] + a) <==> Together(g, key))
  {
    hide Hits;
    var hits := AllHits(g, key);
    if hits != [] {
      if Together(g, key) {
        forall a | 0 <= a < |hits|
          ensures hits[a] == hits[0] + a
        {
          TogetherIsSpan(g, key, a);
        }
      }
      if forall a :: 0 <= a < |hits| ==> hits[a] == hits[0] + a {
        forall i, j, k | 0 <= i < j < k < |g.keys.cells| && Match(g, key, i) && Match(g, key, k)
          ensures Match(g, key, j)
        {
          SpanIsTogether(g, key, i, j, k);
        }
      }
    }
  }

  lemma {:induction false} TogetherIsSpan(g: Group, key: Bytes, a: nat)
    requires Together(g, key) && a < |AllHits(g, key)|
    ensures AllHits(g, key)[a] == AllHits(g, key)[0] + a
  {
    hide Hits;
    var hits := AllHits(g, key);
    if a > 0 {
      TogetherIsSpan(g, key, a - 1);
      NothingBetween(g, key, a, hits[a - 1] + 1);
    }
  }

  /** Between two matches next to each other stands no third. */
  lemma NothingBetween(g: Group, key: Bytes, a: nat, j: nat)
    requires 0 < a < |AllHits(g, key)| && Together(g, key) && j == AllHits(g, key)[a - 1] + 1
    ensures j == AllHits(g, key)[a]
  {
    hide Hits;
    var hits := AllHits(g, key);
    var low, high := hits[a - 1], hits[a];
    assert Match(g, key, low) && Match(g, key, high);
    if j < high {
      var k := IndexOfMatch(g, key, low, j, high);
    }
  }

  lemma IndexOfMatch(g: Group, key: Bytes, low: nat, j: nat, high: nat) returns (k: nat)
    requires Together(g, key) && low < j < high < |g.keys.cells| && Match(g, key, low) && Match(g, key, high)
    ensures k < |AllHits(g, key)| && AllHits(g, key)[k] == j
  {
    hide Hits;
    assert Match(g, key, j);
    assert j in AllHits(g, key);
    k :| 0 <= k < |AllHits(g, key)| && AllHits(g, key)[k] == j;
  }

  lemma SpanIsTogether(g: Group, key: Bytes, i: nat, j: nat, k: nat)
    requires AllHits(g, key) != [] && forall a :: 0 <= a < |AllHits(g, key)| ==> AllHits(g, key)[a] == AllHits(g, key)[0] + a
    requires i < j < k < |g.keys.cells| && Match(g, key, i) && Match(g, key, k)
    ensures Match(g, key, j)
  {
    hide Hits;
    var hits := AllHits(g, key);
    var a :| 0 <= a < |hits| && hits[a] == i;
    var b :| 0 <= b < |hits| && hits[b] == k;
    assert hits[j - hits[0]] == j;
  }
}
