/** FAT cluster chains: following the table, refusing what loops or leaves the data area, and the byte
    ranges a file's clusters come to. */
module FatChains {
  import opened Wrappers
  import opened ByteStrings
  import opened Views

  datatype Bits = Fat12 | Fat16 | Fat32

  datatype ChainError = OutsideData(cluster: nat) | Loops

  /** `clusterBytes` is a cluster's size, `dataStart` where cluster two begins. */
  datatype Fat = Fat(kind: Bits, dataStart: nat, clusterBytes: nat, clusterCount: nat) {

    function ClusterAt(c: nat): nat
      requires c >= 2
    {
      dataStart + (c - 2) * clusterBytes
    }

    /** The table's entry for a cluster, if the table is long enough to have one. */
    function Entry(table: Bytes, c: nat): Option<nat> {
      match kind
      case Fat12 =>
        var i := c + c / 2;
        if i + 1 >= |table| then None
        else
          var raw := table[i] as nat + 256 * table[i + 1] as nat;
          Some(if c % 2 == 1 then raw / 16 else raw % 0x1000)
      case Fat16 =>
        if 2 * c + 1 >= |table| then None else Some(table[2 * c] as nat + 256 * table[2 * c + 1] as nat)
      case Fat32 =>
        if 4 * c + 3 >= |table| then None
        else
          var raw := table[4 * c] as nat + 0x100 * table[4 * c + 1] as nat + 0x1_0000 * table[4 * c + 2] as nat
                     + 0x100_0000 * table[4 * c + 3] as nat;
          Some(raw % 0x1000_0000)
    }

    /** The first value that ends a chain. */
    function EndMark(): nat {
      match kind
      case Fat12 => 0x0FF7
      case Fat16 => 0xFFF7
      case Fat32 => 0x0FFF_FFF7
    }

    /** The cluster entry `c` leads to; none where the table marks an end. */
    function Next(table: Bytes, c: nat): Option<nat> {
      match Entry(table, c)
      case None => None
      case Some(v) => if 2 <= v < EndMark() then Some(v) else None
    }

    predicate InData(c: nat) {
      c >= 2 && c - 2 < Clusters()
    }

    /** Following the table from `start`: every cluster in the data area, each leading to the next. */
    ghost predicate Follows(table: Bytes, start: nat, cs: seq<nat>) {
      && |cs| > 0 && cs[0] == start
      && (forall i :: 0 <= i < |cs| ==> InData(cs[i]))
      && (forall i :: 0 <= i < |cs| - 1 ==> Next(table, cs[i]) == Some(cs[i + 1]))
    }

    /** And the last of them ends it. */
    ghost predicate ChainIs(table: Bytes, start: nat, cs: seq<nat>) {
      Follows(table, start, cs) && Next(table, cs[|cs| - 1]) == None
    }

    function Clusters(): (r: nat) {
      if clusterCount > 1 then clusterCount else 1
    }

    /** Cluster `c` of the data area has byte `b`. */
    predicate Has(c: nat, b: nat) {
      InData(c) && ClusterAt(c) <= b < ClusterAt(c) + clusterBytes
    }

    /** The clusters tile the data area: each of its bytes is in exactly one of them, and no other byte is. */
    lemma ClustersTile(b: nat, c: nat)
      requires clusterBytes > 0
      ensures Has(c, b) <==> dataStart <= b < dataStart + Clusters() * clusterBytes && c == 2 + (b - dataStart) / clusterBytes
    {
      var x, n, q := b - dataStart, clusterBytes, c - 2;
      Quotient(x, n, q);
      if Has(c, b) {
        Scaled(q + 1, Clusters(), n);
        Scaled(0, q, n);
      } else if b >= dataStart && q == x / n {
        assert q * n <= x;
        if q >= Clusters() {
          Scaled(Clusters(), q, n);
        }
      }
    }

    // ----------------------------------------------------------- the table

    /** The bits an entry takes in the table, and of those the ones that count. */
    function Width(): nat {
      match kind case Fat12 => 12 case Fat16 => 16 case Fat32 => 32
    }

    function Values(): nat {
      match kind case Fat12 => 0x1000 case Fat16 => 0x1_0000 case Fat32 => 0x1000_0000
    }

    /** Entries are laid end to end, low bits first, so two twelve-bit entries share their middle byte: the `c`-th
        is `v`. */
    ghost predicate PacksAt(table: Bytes, c: nat, v: nat)
      requires (c + 1) * Width() <= 8 * |table|
    {
      match kind
      case Fat12 =>
        var k := 3 * (c / 2);
        v < 0x1000 && if c % 2 == 0 then table[k] as nat == v % 0x100 && table[k + 1] as nat % 0x10 == v / 0x100
                      else table[k + 1] as nat / 0x10 == v % 0x10 && table[k + 2] as nat == v / 0x10
      case Fat16 => v < 0x1_0000 && table[2 * c] as nat == v % 0x100 && table[2 * c + 1] as nat == v / 0x100
      case Fat32 =>
        && v < 0x1_0000_0000
        && table[4 * c] as nat == v % 0x100 && table[4 * c + 1] as nat == v / 0x100 % 0x100
        && table[4 * c + 2] as nat == v / 0x1_0000 % 0x100 && table[4 * c + 3] as nat == v / 0x100_0000
    }

    /** An entry is missing exactly when the table ends before it does. */
    lemma EntryIsThereIff(table: Bytes, c: nat)
      ensures Entry(table, c).Some? <==> (c + 1) * Width() <= 8 * |table|
    {
      if kind.Fat12? {
        Twelve(c);
      }
    }

    /** What is packed is read back, without the four bits a 32-bit entry keeps for itself. */
    lemma EntryUnpacks(table: Bytes, c: nat, v: nat)
      requires (c + 1) * Width() <= 8 * |table| && PacksAt(table, c, v)
      ensures Entry(table, c) == Some(v % Values())
    {
      EntryIsThereIff(table, c);
      match kind
      case Fat12 =>
        var k := 3 * (c / 2);
        Twelve(c);
        if c % 2 == 0 {
          LowHalf(table[k] as nat, table[k + 1] as nat, v);
        } else {
          HighHalf(table[k + 1] as nat, table[k + 2] as nat, v);
        }
      case Fat16 =>
      case Fat32 => FourBytes(v);
    }

    /** A chain goes on from every value but the first two and the last nine. */
    lemma GoesOnIff(table: Bytes, c: nat, v: nat)
      ensures Next(table, c) == Some(v) <==> Entry(table, c) == Some(v) && 2 <= v && v + 9 < Values()
    {
    }

    function RangesFor(cs: seq<nat>): (r: seq<Range>)
      requires forall i :: 0 <= i < |cs| ==> cs[i] >= 2
      ensures |r| == |cs|
    {
      seq(|cs|, i requires 0 <= i < |cs| => Range(ClusterAt(cs[i]), clusterBytes))
    }

    lemma {:induction false} FollowsAgree(table: Bytes, start: nat, a: seq<nat>, b: seq<nat>, i: nat)
      requires Follows(table, start, a) && Follows(table, start, b) && i < |a| && i < |b|
      ensures a[i] == b[i]
    {
      if i > 0 {
        FollowsAgree(table, start, a, b, i - 1);
        assert Next(table, a[i - 1]) == Some(a[i - 1 + 1]) && Next(table, b[i - 1]) == Some(b[i - 1 + 1]);
      }
    }

    lemma Onward(table: Bytes, start: nat, a: seq<nat>, i: nat)
      requires Follows(table, start, a) && i + 1 < |a|
      ensures Next(table, a[i]) == Some(a[i + 1])
    {
    }

    /** A chain that ends is at least as long as any walk along it. */
    lemma ChainIsLongest(table: Bytes, start: nat, chain: seq<nat>, walk: seq<nat>)
      requires ChainIs(table, start, chain) && Follows(table, start, walk)
      ensures |walk| <= |chain| && chain[..|walk|] == walk
    {
      var n := |chain| - 1;
      if |walk| > |chain| {
        Onward(table, start, walk, n);
        FollowsAgree(table, start, chain, walk, n);
        assert false;
      }
      forall i | 0 <= i < |walk|
        ensures chain[i] == walk[i]
      {
        FollowsAgree(table, start, chain, walk, i);
      }
    }

    /** A chain that comes back to a cluster goes round for ever: it never ends. */
    lemma {:induction false} RoundForever(table: Bytes, start: nat, chain: seq<nat>, i: nat, j: nat)
      requires ChainIs(table, start, chain) && i < j < |chain|
      ensures chain[i] != chain[j]
      decreases |chain| - j
    {
      if chain[i] == chain[j] {
        assert Next(table, chain[i]) == Some(chain[i + 1]);
        if j == |chain| - 1 {
          assert false;
        } else {
          assert Next(table, chain[j]) == Some(chain[j + 1]);
          RoundForever(table, start, chain, i + 1, j + 1);
          assert false;
        }
      }
    }

    /** So a chain that ends visits each cluster of the data area at most once. */
    lemma ChainFits(table: Bytes, start: nat, chain: seq<nat>)
      requires ChainIs(table, start, chain)
      ensures |chain| <= Clusters()
    {
      forall i, j | 0 <= i < j < |chain|
        ensures chain[i] != chain[j]
      {
        RoundForever(table, start, chain, i, j);
      }
      DistinctFit(chain, 2, Clusters());
    }

    /** `chain`: the coalesced byte ranges of the clusters, in the order the table chains them, exactly
        when following the table from `start` stays in the data area and comes to an end. */
    method Chain(table: Bytes, start: nat) returns (r: Result<seq<Range>, ChainError>, ghost visited: seq<nat>)
      ensures r.Ok? <==> clusterCount > 0 && exists cs :: ChainIs(table, start, cs)
      ensures r.Ok? ==> ChainIs(table, start, visited) && (forall i :: 0 <= i < |visited| ==> visited[i] >= 2)
                        && Offsets(r.value) == Offsets(RangesFor(visited)) && Coalesced(r.value)
      ensures clusterCount == 0 ==> (r == Err(Loops) <==> start == 2)
      ensures clusterCount > 0 ==> (r == Err(Loops) <==> exists cs :: Follows(table, start, cs) && |cs| > clusterCount)
    {
      hide Follows, RunsHold, AddRun, Entry, EndMark;
      var runs: seq<Range> := [];
      var cur, steps := start, 0;
      visited := [];
      NoRuns();
      while true
        invariant steps == |visited| <= clusterCount
        invariant Along(table, start, visited, cur) && RunsHold(runs, visited)
        decreases clusterCount - steps
      {
        if !InData(cur) {
          LeavesData(table, start, visited, cur);
          return Err(OutsideData(cur)), visited;
        }
        var at := ClusterAt(cur);
        GrowRuns(runs, at, clusterBytes, visited, cur);
        WalkGrows(table, start, visited, cur);
        runs := AddRun(runs, at, clusterBytes);
        visited := visited + [cur];
        steps := steps + 1;
        if steps > clusterCount {
          TooLong(table, start, visited);
          return Err(Loops), visited;
        }
        var next := Next(table, cur);
        if next.None? {
          Ended(table, start, visited);
          RunsAre(runs, visited);
          assert ChainIs(table, start, visited);
          return Ok(runs), visited;
        }
        cur := next.value;
      }
      assert false;
    }

    /** The walk so far and the cluster it comes to next. */
    ghost predicate Along(table: Bytes, start: nat, visited: seq<nat>, cur: nat) {
      if visited == [] then cur == start
      else Follows(table, start, visited) && Next(table, visited[|visited| - 1]) == Some(cur)
    }

    lemma WalkGrows(table: Bytes, start: nat, visited: seq<nat>, cur: nat)
      requires Along(table, start, visited, cur) && InData(cur)
      ensures Follows(table, start, visited + [cur])
    {
      hide InData, Next;
    }

    ghost predicate RunsHold(runs: seq<Range>, visited: seq<nat>) {
      && (forall i :: 0 <= i < |visited| ==> visited[i] >= 2)
      && Offsets(runs) == Offsets(RangesFor(visited)) && Coalesced(runs)
    }

    lemma NoRuns()
      ensures RunsHold([], [])
    {
    }

    lemma RunsAre(runs: seq<Range>, visited: seq<nat>)
      requires RunsHold(runs, visited)
      ensures (forall i :: 0 <= i < |visited| ==> visited[i] >= 2) && Offsets(runs) == Offsets(RangesFor(visited)) && Coalesced(runs)
    {
    }

    lemma GrowRuns(runs: seq<Range>, at: nat, size: nat, visited: seq<nat>, cur: nat)
      requires InData(cur) && at == ClusterAt(cur) && size == clusterBytes && RunsHold(runs, visited)
      ensures RunsHold(AddRun(runs, at, size), visited + [cur])
    {
      hide Offsets, AddRun, Coalesced;
      AddRunAdds(runs, at, size);
      OffsetsOneMore(RangesFor(visited), Range(at, size));
      assert RangesFor(visited + [cur]) == RangesFor(visited) + [Range(at, size)];
    }

    lemma LeavesData(table: Bytes, start: nat, visited: seq<nat>, cur: nat)
      requires Along(table, start, visited, cur) && !InData(cur) && |visited| <= clusterCount
      ensures !exists cs :: ChainIs(table, start, cs)
      ensures !exists cs :: Follows(table, start, cs) && |cs| > clusterCount
      ensures clusterCount == 0 ==> !InData(start)
    {
      forall cs | Follows(table, start, cs)
        ensures |cs| <= |visited| && !ChainIs(table, start, cs)
      {
        WalkStops(table, start, visited, cur, cs);
      }
    }

    /** No walk goes further than one that has left the data area, and none ends before it. */
    lemma WalkStops(table: Bytes, start: nat, visited: seq<nat>, cur: nat, cs: seq<nat>)
      requires Along(table, start, visited, cur) && !InData(cur) && Follows(table, start, cs)
      ensures visited != [] && |cs| <= |visited| && Next(table, cs[|cs| - 1]).Some?
    {
      var n := |visited|;
      if |cs| > n {
        Onward(table, start, cs, n - 1);
        FollowsAgree(table, start, visited, cs, n - 1);
        assert false;
      }
      FollowsAgree(table, start, visited, cs, |cs| - 1);
      if |cs| < n {
        Onward(table, start, visited, |cs| - 1);
      }
    }

    lemma TooLong(table: Bytes, start: nat, visited: seq<nat>)
      requires Follows(table, start, visited) && |visited| > clusterCount
      ensures clusterCount > 0 ==> !exists cs :: ChainIs(table, start, cs)
      ensures InData(start)
    {
      if clusterCount > 0 {
        forall cs | ChainIs(table, start, cs)
          ensures false
        {
          ChainIsLongest(table, start, cs, visited);
          ChainFits(table, start, cs);
        }
      }
    }

    lemma Ended(table: Bytes, start: nat, visited: seq<nat>)
      requires ChainIs(table, start, visited) && |visited| <= clusterCount
      ensures clusterCount > 0
      ensures !exists cs :: Follows(table, start, cs) && |cs| > clusterCount
    {
      forall cs | Follows(table, start, cs)
        ensures |cs| <= clusterCount
      {
        ChainIsLongest(table, start, visited, cs);
      }
    }
  }

  /** Where the two bytes of a twelve-bit entry are. */
  lemma Twelve(c: nat)
    ensures c + c / 2 == 3 * (c / 2) + c % 2
    ensures forall n: nat :: c + c / 2 + 2 <= n <==> (c + 1) * 12 <= 8 * n
  {
    assert c == 2 * (c / 2) + c % 2;
  }

  lemma LowHalf(low: nat, middle: nat, v: nat)
    requires low == v % 0x100 && middle % 0x10 == v / 0x100 && v < 0x1000
    ensures (low + 256 * middle) % 0x1000 == v
  {
    assert middle == 0x10 * (middle / 0x10) + middle % 0x10;
    assert low + 256 * middle == 0x1000 * (middle / 0x10) + v;
  }

  lemma HighHalf(middle: nat, high: nat, v: nat)
    requires middle / 0x10 == v % 0x10 && high == v / 0x10 && v < 0x1000
    ensures (middle + 256 * high) / 0x10 == v
  {
    assert middle == 0x10 * (middle / 0x10) + middle % 0x10;
    assert middle + 256 * high == 0x10 * v + middle % 0x10;
  }

  lemma FourBytes(v: nat)
    ensures v % 0x100 + 0x100 * (v / 0x100 % 0x100) + 0x1_0000 * (v / 0x1_0000 % 0x100) + 0x100_0000 * (v / 0x100_0000) == v
  {
    assert v == 0x100 * (v / 0x100) + v % 0x100;
    assert v / 0x100 == 0x100 * (v / 0x1_0000) + v / 0x100 % 0x100;
    assert v / 0x1_0000 == 0x100 * (v / 0x100_0000) + v / 0x1_0000 % 0x100;
  }

  lemma Quotient(x: int, n: nat, q: int)
    requires n > 0
    ensures q * n <= x < q * n + n <==> q == x / n
  {
    var d := x / n;
    assert x == d * n + x % n;
    if q < d {
      Scaled(q + 1, d, n);
    } else if q > d {
      Scaled(d + 1, q, n);
    }
  }

  lemma Scaled(a: int, b: int, n: nat)
    requires a <= b
    ensures a * n <= b * n
  {
  }

  /** Values without repeats among `n` leave room for no more than `n` of them. */
  lemma {:induction false} DistinctFit(cs: seq<nat>, low: nat, n: nat)
    requires forall i :: 0 <= i < |cs| ==> low <= cs[i] < low + n
    requires forall i, j :: 0 <= i < j < |cs| ==> cs[i] != cs[j]
    ensures |cs| <= n
  {
    DistinctSize(cs, From(low, n));
  }

  function From(low: nat, n: nat): (r: set<int>)
    ensures |r| == n && forall x :: x in r <==> low <= x < low + n
  {
    if n == 0 then {} else From(low, n - 1) + {low + n - 1}
  }

  lemma {:induction false} DistinctSize(cs: seq<nat>, all: set<int>)
    requires forall i :: 0 <= i < |cs| ==> cs[i] in all
    requires forall i, j :: 0 <= i < j < |cs| ==> cs[i] != cs[j]
    ensures |cs| <= |all|
  {
    if cs != [] {
      var n := |cs| - 1;
      DistinctSize(cs[..n], all - {cs[n]});
    }
  }

  // ------------------------------------------------------------- runs

  /** Every byte a list of ranges names, in order. */
  function Offsets(rs: seq<Range>): seq<nat> {
    if rs == [] then [] else Offsets(rs[..|rs| - 1]) + Span(rs[|rs| - 1])
  }

  function Span(r: Range): (s: seq<nat>)
    ensures |s| == r.len && forall i :: 0 <= i < r.len ==> s[i] == r.off + i
  {
    seq(r.len, i => r.off + i)
  }

  lemma NoOffsets()
    ensures Offsets([]) == []
  {
  }

  lemma OffsetsOneMore(rs: seq<Range>, r: Range)
    ensures Offsets(rs + [r]) == Offsets(rs) + Span(r)
  {
    assert (rs + [r])[..|rs|] == rs;
  }

  /** No run starts where the one before it ends: they would have been one. */
  predicate Coalesced(rs: seq<Range>) {
    forall i :: 0 <= i < |rs| - 1 ==> rs[i].off + rs[i].len != rs[i + 1].off
  }

  /** A cluster's range joined to the last run where it carries straight on. */
  function AddRun(runs: seq<Range>, at: nat, size: nat): seq<Range> {
    if runs != [] && runs[|runs| - 1].off + runs[|runs| - 1].len == at
    then runs[..|runs| - 1] + [Range(runs[|runs| - 1].off, runs[|runs| - 1].len + size)]
    else runs + [Range(at, size)]
  }

  lemma AddRunAdds(runs: seq<Range>, at: nat, size: nat)
    requires Coalesced(runs)
    ensures Offsets(AddRun(runs, at, size)) == Offsets(runs) + Span(Range(at, size)) && Coalesced(AddRun(runs, at, size))
  {
    hide Offsets;
    if runs != [] && runs[|runs| - 1].off + runs[|runs| - 1].len == at {
      var n, last := |runs| - 1, runs[|runs| - 1];
      assert runs == runs[..n] + [last];
      OffsetsOneMore(runs[..n], last);
      OffsetsOneMore(runs[..n], Range(last.off, last.len + size));
      assert Span(Range(last.off, last.len + size)) == Span(last) + Span(Range(at, size));
    } else {
      OffsetsOneMore(runs, Range(at, size));
    }
  }

  /** `truncate_runs`: exactly the first `size` bytes the runs name, or all of them if they are fewer. */
  method TruncateRuns(runs: seq<Range>, size: nat) returns (out: seq<Range>)
    ensures Offsets(out) == Offsets(runs)[..Min(size, |Offsets(runs)|)]
  {
    hide Offsets;
    var left := size;
    out := [];
    NoOffsets();
    var i := 0;
    while i < |runs| && left > 0
      invariant 0 <= i <= |runs| && left <= size
      invariant Offsets(out) == Offsets(runs[..i])[..Min(size, |Offsets(runs[..i])|)]
      invariant left == size - Min(size, |Offsets(runs[..i])|)
    {
      var take := Min(runs[i].len, left);
      assert runs[..i + 1] == runs[..i] + [runs[i]];
      OffsetsOneMore(runs[..i], runs[i]);
      OffsetsOneMore(out, Range(runs[i].off, take));
      assert Span(Range(runs[i].off, take)) == Span(runs[i])[..take];
      out := out + [Range(runs[i].off, take)];
      left := left - take;
      i := i + 1;
    }
    if i == |runs| {
      assert runs[..i] == runs;
    } else {
      OffsetsPrefix(runs, i);
    }
  }

  lemma {:induction false} OffsetsPrefix(runs: seq<Range>, i: nat)
    requires i <= |runs|
    ensures |Offsets(runs[..i])| <= |Offsets(runs)| && Offsets(runs)[..|Offsets(runs[..i])|] == Offsets(runs[..i])
    decreases |runs| - i
  {
    if i < |runs| {
      OffsetsPrefix(runs, i + 1);
      assert runs[..i + 1] == runs[..i] + [runs[i]];
      OffsetsOneMore(runs[..i], runs[i]);
    } else {
      assert runs[..i] == runs;
    }
  }
}
