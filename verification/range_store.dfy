/** A store of fetched ranges: reads served from what has been fetched, misses recorded for a driver to
    fetch and try again. */
module RangeStoring {
  import opened Wrappers
  import opened ByteStrings
  import opened OrderedMap

  type Ranges = map<nat, Bytes>

  /** How far the nearest range lets a read from `start` go. */
  function Reach(ranges: Ranges, start: nat): (r: nat)
    ensures r >= start
  {
    match FloorKey(ranges, start)
    case None => start
    case Some(s) => if s + |ranges[s]| > start then s + |ranges[s]| else start
  }

  /** Every range held is that range of the file. */
  predicate True(ranges: Ranges, file: Bytes) {
    forall s :: s in ranges ==> s + |ranges[s]| <= |file| && ranges[s] == file[s..s + |ranges[s]|]
  }

  function Served(ranges: Ranges, start: nat, length: nat): (r: Option<Bytes>)
  {
    match FloorKey(ranges, start)
    case None => None
    case Some(s) => if |ranges[s]| >= start - s + length then Some(ranges[s][start - s..start - s + length]) else None
  }

  /** A read is served exactly when the nearest range reaches its end, and then with the file's bytes. */
  lemma ServedIsTrue(ranges: Ranges, file: Bytes, start: nat, length: nat)
    requires True(ranges, file) && length > 0
    ensures Served(ranges, start, length).Some? <==> Reach(ranges, start) >= start + length
    ensures Served(ranges, start, length).Some? ==>
              start + length <= |file| && Served(ranges, start, length).value == file[start..start + length]
  {
    if Served(ranges, start, length).Some? {
      var s := FloorKey(ranges, start).value;
      CutInside(file, s, ranges[s], start, length);
    }
  }

  lemma CutInside(file: Bytes, s: nat, b: Bytes, start: nat, length: nat)
    requires s + |b| <= |file| && b == file[s..s + |b|] && s <= start && start - s + length <= |b|
    ensures b[start - s..start - s + length] == file[start..start + length]
  {
    CutTwice(file, s, |b|, start - s, start - s + length);
  }

  // ------------------------------------------------------------- inserting

  lemma {:induction false} NearestIsLast(ranges: Ranges, start: nat, p: nat)
    requires start <= p && (FloorKey(ranges, p).None? || FloorKey(ranges, p).value <= start)
    ensures FloorKey(ranges, start) == FloorKey(ranges, p)
  {
    if start < p {
      NearestIsLast(ranges, start, p - 1);
    }
  }

  lemma {:induction false} NearestAfterInsert(ranges: Ranges, start: nat, b: Bytes, p: nat)
    ensures FloorKey(ranges[start := b], p) ==
            if start <= p && (FloorKey(ranges, p).None? || FloorKey(ranges, p).value <= start) then Some(start) else FloorKey(ranges, p)
  {
    if p != start && p !in ranges && p > 0 {
      NearestAfterInsert(ranges, start, b, p - 1);
    }
  }

  /** Inserting at a place no range reached as far: every read reaches at least as far as before, even
      where the new range stands nearer than the one that served it or has overwritten it. */
  lemma InsertReaches(ranges: Ranges, start: nat, b: Bytes, p: nat)
    requires Reach(ranges, start) <= start + |b|
    ensures Reach(ranges[start := b], p) >= Reach(ranges, p)
    ensures Reach(ranges[start := b], start) == start + |b|
  {
    NearestAfterInsert(ranges, start, b, p);
    NearestAfterInsert(ranges, start, b, start);
    if start <= p && (FloorKey(ranges, p).None? || FloorKey(ranges, p).value <= start) {
      NearestIsLast(ranges, start, p);
    }
  }

  /** What a missing read asks for: at least itself, rounded up to a block, not past the end. */
  function Asked(len: nat, block: nat, start: nat, length: nat): (r: nat)
    ensures r >= length
    ensures r == length || (r <= block && start + r <= len)
    ensures r >= block || start + r >= len
  {
    var rounded := if length > block then length else block;
    var left := if len > start then len - start else 0;
    var cut := if rounded < left then rounded else left;
    if cut > length then cut else length
  }

  /** The driver's fetch: the asked range of the file, as much of it as there is. */
  function Fetched(file: Bytes, start: nat, length: nat): (r: Bytes)
    requires start <= |file|
    ensures |r| == if start + length < |file| then length else |file| - start
  {
    file[start..if start + length < |file| then start + length else |file|]
  }

  /** How far a miss's fetched range lets its own read go, and no range held reached further. */
  lemma MissReaches(ranges: Ranges, file: Bytes, block: nat, start: nat, length: nat)
    requires True(ranges, file) && length > 0 && start <= |file| && Served(ranges, start, length).None?
    ensures var b := Fetched(file, start, Asked(|file|, block, start, length));
      && True(ranges[start := b], file) && Reach(ranges, start) <= start + |b|
      && (start + length <= |file| ==> Reach(ranges, start) < start + |b|)
      && (start + |b| >= start + length <==> start + length <= |file|)
  {
    hide Served, Asked;
    ServedIsTrue(ranges, file, start, length);
  }

  /** A failed read, once what it asked for is fetched and inserted, is served exactly if it was inside
      the file; and no read that was served stops being, wherever the miss was. */
  lemma MissMakesProgress(ranges: Ranges, file: Bytes, block: nat, start: nat, length: nat)
    requires True(ranges, file) && length > 0 && start <= |file| && Served(ranges, start, length).None?
    ensures var more := ranges[start := Fetched(file, start, Asked(|file|, block, start, length))];
      && True(more, file) && (Served(more, start, length).Some? <==> start + length <= |file|)
      && (forall p, n :: n > 0 && Served(ranges, p, n).Some? ==> Served(more, p, n) == Served(ranges, p, n))
  {
    hide Served, Asked, Reach, Fetched, True;
    var b := Fetched(file, start, Asked(|file|, block, start, length));
    var more := ranges[start := b];
    MissReaches(ranges, file, block, start, length);
    InsertReaches(ranges, start, b, start);
    ServedIsTrue(more, file, start, length);
    forall p, n | n > 0 && Served(ranges, p, n).Some?
      ensures Served(more, p, n) == Served(ranges, p, n)
    {
      StillServed(ranges, file, start, b, p, n);
    }
  }

  lemma StillServed(ranges: Ranges, file: Bytes, start: nat, b: Bytes, p: nat, n: nat)
    requires True(ranges, file) && True(ranges[start := b], file) && Reach(ranges, start) <= start + |b|
    requires n > 0 && Served(ranges, p, n).Some?
    ensures Served(ranges[start := b], p, n) == Served(ranges, p, n)
  {
    hide Served, True, FloorKey, Reach;
    InsertReaches(ranges, start, b, p);
    ServedIsTrue(ranges, file, p, n);
    ServedIsTrue(ranges[start := b], file, p, n);
  }

  // ------------------------------------------------------------- the store and its cursor

  class RangeStore {
    const len: nat
    const fetchBlock: nat
    var ranges: Ranges
    /** What the last failing read needed. */
    var miss: Option<(nat, nat)>

    constructor (len: nat, fetchBlock: nat)
      ensures this.len == len && this.fetchBlock == fetchBlock && ranges == map[] && miss == None
    {
      this.len, this.fetchBlock, ranges, miss := len, fetchBlock, map[], None;
    }

    method Insert(start: nat, bytes: Bytes)
      modifies this
      ensures ranges == old(ranges)[start := bytes] && miss == old(miss)
    {
      ranges := ranges[start := bytes];
    }

    method TakeMiss() returns (m: Option<(nat, nat)>)
      modifies this
      ensures m == old(miss) && miss == None && ranges == old(ranges)
    {
      m, miss := miss, None;
    }

    /** An exact read: served whole or missed, the miss recorded. */
    method GetBytes(start: nat, length: nat) returns (r: Option<Bytes>)
      modifies this
      ensures ranges == old(ranges)
      ensures r == if length == 0 then Some([]) else Served(ranges, start, length)
      ensures miss == if r.None? then Some((start, Asked(len, fetchBlock, start, length))) else old(miss)
    {
      if length == 0 {
        return Some([]);
      }
      r := Served(ranges, start, length);
      if r.None? {
        miss := Some((start, Asked(len, fetchBlock, start, length)));
      }
    }
  }

  class StoreCursor {
    const store: RangeStore
    var pos: nat

    constructor (store: RangeStore, start: nat)
      ensures this.store == store && pos == start
    {
      this.store, pos := store, start;
    }

    /** A sequential read: at the end nothing; else the file's bytes, at least one of them, unless the
        very byte at the cursor is not reached, and then the miss asks for all that was wanted. */
    method Read(want: nat, ghost file: Bytes) returns (r: Option<Bytes>)
      requires True(store.ranges, file) && |file| == store.len
      modifies this, store
      ensures store.ranges == old(store.ranges)
      ensures r == Some([]) <==> old(pos) >= store.len || want == 0
      ensures r.None? <==> old(pos) < store.len && want > 0 && Reach(store.ranges, old(pos)) == old(pos)
      ensures r.Some? ==> |r.value| <= want && pos == old(pos) + |r.value| && store.miss == old(store.miss)
      ensures r.Some? && r.value != [] ==> pos <= |file| && r.value == file[old(pos)..pos]
      ensures r.None? ==> pos == old(pos)
      ensures r.None? ==> var avail := if store.len - pos < want then store.len - pos else want;
                store.miss == Some((pos, Asked(store.len, store.fetchBlock, pos, avail)))
    {
      hide Reach, Served, True, Asked;
      if pos >= store.len || want == 0 {
        return Some([]);
      }
      var avail := if store.len - pos < want then store.len - pos else want;
      var n := avail;
      r := Served(store.ranges, pos, n);
      ServedIsTrue(store.ranges, file, pos, n);
      while r.None?
        invariant 0 < n <= avail && r == Served(store.ranges, pos, n) && pos == old(pos)
        invariant store.ranges == old(store.ranges) && store.miss == old(store.miss)
        invariant r.Some? <==> Reach(store.ranges, pos) >= pos + n
        invariant r.Some? ==> pos + n <= |file| && r.value == file[pos..pos + n]
        decreases n
      {
        n := n / 2;
        if n == 0 {
          store.miss := Some((pos, Asked(store.len, store.fetchBlock, pos, avail)));
          return;
        }
        r := Served(store.ranges, pos, n);
        ServedIsTrue(store.ranges, file, pos, n);
      }
      pos := pos + n;
    }
  }

  // ------------------------------------------------------------- any driver's retries are bounded

  /** How much the store reaches, over every place in the file. */
  function Gauge(ranges: Ranges, n: nat): nat {
    if n == 0 then 0 else Gauge(ranges, n - 1) + (Reach(ranges, n - 1) - (n - 1))
  }

  lemma {:induction false} GaugeBounded(ranges: Ranges, file: Bytes, n: nat)
    requires True(ranges, file) && n <= |file|
    ensures Gauge(ranges, n) <= n * |file|
  {
    if n > 0 {
      GaugeBounded(ranges, file, n - 1);
      assert Reach(ranges, n - 1) <= |file|;
      OneMore(n, |file|);
    }
  }

  lemma OneMore(n: nat, l: nat)
    requires n > 0
    ensures (n - 1) * l + l == n * l
  {
  }

  lemma {:induction false} GaugeGrows(ranges: Ranges, start: nat, b: Bytes, n: nat)
    requires Reach(ranges, start) < start + |b|
    ensures Gauge(ranges[start := b], n) >= Gauge(ranges, n) + (if start < n then 1 else 0)
  {
    hide Reach;
    if n > 0 {
      GaugeGrows(ranges, start, b, n - 1);
      InsertReaches(ranges, start, b, n - 1);
    }
  }

  /** Reads failed one after another, each fetched and inserted before the next: the same read, another
      read, whatever a decoder does in between. */
  predicate Misses(ranges: Ranges, file: Bytes, block: nat, tries: seq<(nat, nat)>)
    decreases |tries|
  {
    tries == [] ||
    var (start, length) := tries[0];
    length > 0 && start + length <= |file| && Served(ranges, start, length).None? &&
    Misses(ranges[start := Fetched(file, start, Asked(|file|, block, start, length))], file, block, tries[1..])
  }

  /** No decoder can miss forever: every miss inside the file leaves the store reaching further. */
  lemma {:induction false} MissesAreBounded(ranges: Ranges, file: Bytes, block: nat, tries: seq<(nat, nat)>)
    requires True(ranges, file) && Misses(ranges, file, block, tries)
    ensures |tries| + Gauge(ranges, |file|) <= |file| * |file|
    decreases |tries|
  {
    if tries == [] {
      GaugeBounded(ranges, file, |file|);
    } else {
      var (start, length) := tries[0];
      var b := Fetched(file, start, Asked(|file|, block, start, length));
      MissMakesProgress(ranges, file, block, start, length);
      ServedIsTrue(ranges, file, start, length);
      GaugeGrows(ranges, start, b, |file|);
      MissesAreBounded(ranges[start := b], file, block, tries[1..]);
    }
  }

  // ------------------------------------------------------------- a deterministic decode

  /** A decoder's read: a range all at once, or through a cursor until it has as much. */
  datatype Ask = Exact(start: nat, length: nat) | Stream(start: nat, length: nat)

  /** What a decode reads next, given what it has read; nothing once it is done. */
  type Decode = seq<Bytes> -> Option<Ask>

  /** What the decode has after `i` reads of the whole file. */
  function Got(decode: Decode, file: Bytes, i: nat): (r: seq<Bytes>)
  {
    if i == 0 then []
    else
      var g := Got(decode, file, i - 1);
      match decode(g)
      case None => g
      case Some(ask) => if ask.start + ask.length <= |file| then g + [file[ask.start..ask.start + ask.length]] else g
  }

  /** On the whole file the decode makes `n` reads, all inside it, and is done. */
  predicate Ends(decode: Decode, file: Bytes, n: nat) {
    && decode(Got(decode, file, n)).None?
    && forall i :: 0 <= i < n ==> Asks(decode, file, i)
  }

  predicate Asks(decode: Decode, file: Bytes, i: nat) {
    var next := decode(Got(decode, file, i));
    next.Some? && next.value.length > 0 && next.value.start + next.value.length <= |file|
  }

  predicate ExactOnly(decode: Decode, file: Bytes, n: nat)
    requires Ends(decode, file, n)
  {
    forall i :: 0 <= i < n ==> assert Asks(decode, file, i); decode(Got(decode, file, i)).value.Exact?
  }

  /** The decode's read `i`, if an exact one, is served by what the store holds. */
  predicate Ready(decode: Decode, file: Bytes, ranges: Ranges, i: nat)
    requires Asks(decode, file, i)
  {
    var next := decode(Got(decode, file, i)).value;
    next.Exact? ==> Served(ranges, next.start, next.length).Some?
  }

  predicate ReadyTo(decode: Decode, file: Bytes, ranges: Ranges, n: nat, k: nat)
    requires Ends(decode, file, n) && k <= n
  {
    forall i :: 0 <= i < k ==> assert Asks(decode, file, i); Ready(decode, file, ranges, i)
  }

  /** A read inside the file that the store did not serve, as the store recorded it. */
  predicate Missed(store: RangeStore, file: Bytes, start: nat, length: nat)
    reads store
  {
    && length > 0 && start + length <= |file| && Served(store.ranges, start, length).None?
    && store.miss == Some((start, Asked(store.len, store.fetchBlock, start, length)))
  }

  /** `read_exact` over a cursor: every byte of the range, however few at a time, or the miss that stopped
      it. */
  method ReadStream(store: RangeStore, start: nat, length: nat, ghost file: Bytes) returns (r: Option<Bytes>, ghost at: nat, ghost left: nat)
    requires True(store.ranges, file) && |file| == store.len && length > 0 && start + length <= |file|
    modifies store
    ensures store.ranges == old(store.ranges)
    ensures r.Some? ==> r.value == file[start..start + length]
    ensures r.None? ==> Missed(store, file, at, left)
  {
    hide True, Served, Reach, Asked;
    var cursor := new StoreCursor(store, start);
    var got: Bytes := [];
    at, left := start, length;
    while |got| < length
      invariant |got| <= length && cursor.store == store && fresh(cursor) && cursor.pos == start + |got|
      invariant got == file[start..start + |got|] && store.ranges == old(store.ranges)
      decreases length - |got|
    {
      var more := cursor.Read(length - |got|, file);
      if more.None? {
        at, left := cursor.pos, length - |got|;
        ServedIsTrue(store.ranges, file, at, left);
        return None, at, left;
      }
      got := got + more.value;
    }
    r := Some(got);
  }

  /** One attempt: read on until done or missed. */
  method Attempt(decode: Decode, store: RangeStore, ghost file: Bytes, ghost n: nat)
    returns (r: Option<seq<Bytes>>, ghost at: nat, ghost start: nat, ghost length: nat)
    requires True(store.ranges, file) && |file| == store.len && Ends(decode, file, n)
    modifies store
    ensures store.ranges == old(store.ranges)
    ensures r.Some? ==> r.value == Got(decode, file, n)
    ensures at <= n && ReadyTo(decode, file, store.ranges, n, at)
    ensures r.None? ==> Missed(store, file, start, length)
    ensures r.None? ==> at < n && Asks(decode, file, at)
    ensures r.None? && decode(Got(decode, file, at)).value.Exact? ==>
              !Ready(decode, file, store.ranges, at) && decode(Got(decode, file, at)).value == Exact(start, length)
  {
    hide True, Served, Asked;
    var got: seq<Bytes> := [];
    var next := decode(got);
    at, start, length := 0, 0, 0;
    while next.Some?
      invariant at <= n && got == Got(decode, file, at) && next == decode(got) && ReadyTo(decode, file, store.ranges, n, at)
      invariant store.ranges == old(store.ranges)
      decreases n - at
    {
      assert Asks(decode, file, at);
      var b: Option<Bytes>;
      start, length := next.value.start, next.value.length;
      match next.value {
        case Exact(s, l) =>
          b := store.GetBytes(s, l);
          ServedIsTrue(store.ranges, file, s, l);
        case Stream(s, l) => b, start, length := ReadStream(store, s, l, file);
      }
      if b.None? {
        return None, at, start, length;
      }
      got := got + [b.value];
      at := at + 1;
      next := decode(got);
    }
    r := Some(got);
    assert at < n ==> Asks(decode, file, at);
  }

  /** The driver: fetch what was missed and try again. Whatever a decode reads and however, the misses
      are bounded by what the store can still come to reach; one that makes `n` exact reads misses each
      at most once. Given that many tries it ends as it would on the whole file. */
  method Drive(decode: Decode, store: RangeStore, file: Bytes, limit: nat, ghost n: nat) returns (r: Option<seq<Bytes>>, retries: nat)
    requires True(store.ranges, file) && |file| == store.len && Ends(decode, file, n)
    modifies store
    ensures True(store.ranges, file)
    ensures r.Some? ==> r.value == Got(decode, file, n)
    ensures r.None? ==> retries == limit
    ensures retries <= |file| * |file| && retries <= limit && (ExactOnly(decode, file, n) ==> retries <= n)
    ensures limit > |file| * |file| || (ExactOnly(decode, file, n) && limit > n) ==> r.Some?
  {
    hide True, Served, Asked, Reach, Fetched, ReadyTo, Ready;
    retries := 0;
    ghost var ready: nat := 0;
    NoneReady(decode, file, store.ranges, n);
    while retries < limit
      invariant True(store.ranges, file) && retries <= Gauge(store.ranges, |file|) && retries <= limit
      invariant ready <= n && ReadyTo(decode, file, store.ranges, n, ready) && (ExactOnly(decode, file, n) ==> retries <= ready)
    {
      ghost var held := store.ranges;
      GaugeBounded(held, file, |file|);
      ghost var at: nat, start: nat, length: nat;
      r, at, start, length := Attempt(decode, store, file, n);
      if r.Some? {
        return;
      }
      NotReady(decode, file, held, n, ready, at, start, length);
      var m := store.TakeMiss();
      var b := Fetched(file, m.value.0, m.value.1);
      RetryReaches(decode, file, held, store.fetchBlock, n, at, start, length);
      MissReaches(held, file, store.fetchBlock, start, length);
      GaugeGrows(held, start, b, |file|);
      store.Insert(m.value.0, b);
      ready := if decode(Got(decode, file, at)).value.Exact? then at + 1 else ready;
      retries := retries + 1;
      GaugeBounded(store.ranges, file, |file|);
    }
    GaugeBounded(store.ranges, file, |file|);
    r := None;
  }

  lemma NoneReady(decode: Decode, file: Bytes, ranges: Ranges, n: nat)
    requires Ends(decode, file, n)
    ensures ReadyTo(decode, file, ranges, n, 0)
  {
  }

  /** An exact read that fails comes after every one known to be served. */
  lemma NotReady(decode: Decode, file: Bytes, ranges: Ranges, n: nat, ready: nat, at: nat, start: nat, length: nat)
    requires Ends(decode, file, n) && ready <= n && ReadyTo(decode, file, ranges, n, ready) && at < n && Asks(decode, file, at)
    requires decode(Got(decode, file, at)).value.Exact? ==> !Ready(decode, file, ranges, at)
    ensures decode(Got(decode, file, at)).value.Exact? ==> at >= ready
    ensures ExactOnly(decode, file, n) ==> decode(Got(decode, file, at)).value.Exact?
  {
  }

  /** What was missed is served next time, and no exact read served before is lost. */
  lemma RetryReaches(decode: Decode, file: Bytes, ranges: Ranges, block: nat, n: nat, at: nat, start: nat, length: nat)
    requires True(ranges, file) && Ends(decode, file, n) && at < n && Asks(decode, file, at)
    requires length > 0 && start + length <= |file| && Served(ranges, start, length).None?
    requires decode(Got(decode, file, at)).value.Exact? ==> decode(Got(decode, file, at)).value == Exact(start, length)
    ensures var more := ranges[start := Fetched(file, start, Asked(|file|, block, start, length))];
      && True(more, file)
      && (forall k :: 0 <= k <= n && ReadyTo(decode, file, ranges, n, k) ==> ReadyTo(decode, file, more, n, k))
      && (ReadyTo(decode, file, ranges, n, at) && decode(Got(decode, file, at)).value.Exact? ==> ReadyTo(decode, file, more, n, at + 1))
  {
    hide True, Served, Asked, Fetched;
    MissMakesProgress(ranges, file, block, start, length);
    var more := ranges[start := Fetched(file, start, Asked(|file|, block, start, length))];
    forall i | 0 <= i < n
      ensures assert Asks(decode, file, i); Ready(decode, file, ranges, i) ==> Ready(decode, file, more, i)
    {
      assert Asks(decode, file, i);
    }
  }
}
