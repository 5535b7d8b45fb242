/**
 Reading a compressed file through its extent map: a stateful reader over its own pclusters, and
 the packed inode behind an evicting cache. However a caller sizes its buffers, and whatever the
 cache has thrown out, the file's bytes come out once and in order.
 */
module ErofsReader {
  import opened Wrappers
  import opened ByteStrings
  import opened ErofsIndex
  import opened ErofsMap

  const PACKED_CACHE_BYTES: nat := 0x400_0000

  /** Decoding one stored pcluster, by the extent it belongs to; None is a decode that fails. */
  type Decoder = Ext -> Option<Bytes>

  // ------------------------------------------------------------- what a map stands for

  /** The bytes of one extent, given the packed stream. */
  function ExtBytes(decode: Decoder, packed: Bytes, e: Ext): Option<Bytes> {
    match e.src
    case Zero => Some(Zeros(e.llen))
    case Packed(off) => if off + e.llen <= |packed| then Some(Cut(packed, off, e.llen)) else None
    case Raw(_, _, _) => (match decode(e) case Some(b) => if |b| == e.llen then Some(b) else None case None => None)
  }

  function FileBytes(decode: Decoder, packed: Bytes, exts: seq<Ext>): Option<Bytes> {
    if exts == [] then Some([])
    else
      match (ExtBytes(decode, packed, exts[0]), FileBytes(decode, packed, exts[1..]))
      case (Some(a), Some(b)) => Some(a + b)
      case (_, _) => None
  }

  lemma ExtLength(decode: Decoder, packed: Bytes, e: Ext)
    ensures ExtBytes(decode, packed, e).Some? ==> |ExtBytes(decode, packed, e).value| == e.llen
  {
  }

  /** An extent's bytes sit in the file's at the extent's place. */
  lemma {:induction false} ExtInFile(decode: Decoder, packed: Bytes, exts: seq<Ext>, pos: nat, size: nat, k: nat)
    requires Covers(exts, pos, size) && FileBytes(decode, packed, exts).Some? && k < |exts|
    ensures |FileBytes(decode, packed, exts).value| == size - pos && pos <= exts[k].la && exts[k].End() <= size
    ensures ExtBytes(decode, packed, exts[k]).Some?
    ensures Cut(FileBytes(decode, packed, exts).value, exts[k].la - pos, exts[k].llen) == ExtBytes(decode, packed, exts[k]).value
  {
    hide ExtBytes, Cut, FileBytes, Covers;
    FileStep(decode, packed, exts, pos, size);
    var head, rest := ExtBytes(decode, packed, exts[0]).value, FileBytes(decode, packed, exts[1..]).value;
    if k == 0 {
      CutFront(head, rest);
    } else {
      ExtInFile(decode, packed, exts[1..], exts[0].End(), size, k - 1);
      CutPast(head, rest, exts[k].la - exts[0].End(), exts[k].llen);
    }
  }

  /** A file is its first extent's bytes and then the rest of it. */
  lemma FileStep(decode: Decoder, packed: Bytes, exts: seq<Ext>, pos: nat, size: nat)
    requires Covers(exts, pos, size) && FileBytes(decode, packed, exts).Some? && exts != []
    ensures Covers(exts[1..], exts[0].End(), size) && exts[0].la == pos && exts[0].End() <= size
    ensures var a, b := ExtBytes(decode, packed, exts[0]), FileBytes(decode, packed, exts[1..]);
            a.Some? && b.Some? && FileBytes(decode, packed, exts).value == a.value + b.value
            && |a.value| == exts[0].llen && |b.value| == size - exts[0].End()
  {
    hide ExtBytes;
    ExtLength(decode, packed, exts[0]);
    FileLength(decode, packed, exts[1..], exts[0].End(), size);
  }

  lemma CutFront(a: Bytes, b: Bytes)
    ensures Cut(a + b, 0, |a|) == a
  {
  }

  lemma CutPast(a: Bytes, b: Bytes, at: nat, n: nat)
    requires at + n <= |b|
    ensures Cut(a + b, |a| + at, n) == Cut(b, at, n)
  {
  }

  lemma {:induction false} FileLength(decode: Decoder, packed: Bytes, exts: seq<Ext>, pos: nat, size: nat)
    requires Covers(exts, pos, size)
    ensures pos <= size
    ensures FileBytes(decode, packed, exts).Some? ==> |FileBytes(decode, packed, exts).value| == size - pos
  {
    if exts != [] {
      ExtLength(decode, packed, exts[0]);
      FileLength(decode, packed, exts[1..], exts[0].End(), size);
    }
  }

  lemma {:induction false} CoversAt(exts: seq<Ext>, pos: nat, size: nat, j: nat, k: nat)
    requires Covers(exts, pos, size) && j < |exts| && k < |exts|
    ensures exts[k].llen > 0 && pos <= exts[k].la && exts[k].End() <= size
    ensures j < k ==> exts[j].End() <= exts[k].la
    ensures k + 1 == |exts| ==> exts[k].End() == size
    ensures j + 1 == k ==> exts[j].End() == exts[k].la
    ensures k == 0 ==> exts[k].la == pos
  {
    CoversEnds(exts[1..], exts[0].End(), size);
    if k > 0 && j > 0 {
      CoversAt(exts[1..], exts[0].End(), size, j - 1, k - 1);
    } else if k > 0 {
      CoversAt(exts[1..], exts[0].End(), size, 0, k - 1);
    }
  }

  lemma {:induction false} CoversEnds(exts: seq<Ext>, pos: nat, size: nat)
    requires Covers(exts, pos, size)
    ensures pos <= size
  {
    if exts != [] {
      CoversEnds(exts[1..], exts[0].End(), size);
    }
  }

  /** What a file's map says about the packed stream is true of the file: the packed extent's span
      of the stream is the file's bytes at the extent's place. */
  lemma PackedExtentsAreRanges(decode: Decoder, packed: Bytes, exts: seq<Ext>, size: nat, file: Bytes, k: nat)
    requires Covers(exts, 0, size) && FileBytes(decode, packed, exts) == Some(file) && k < |exts| && exts[k].src.Packed?
    ensures var e := exts[k];
            e.End() <= |file| && e.src.off + e.llen <= |packed| && Cut(file, e.la, e.llen) == Cut(packed, e.src.off, e.llen)
  {
    hide Covers, FileBytes;
    ExtInFile(decode, packed, exts, 0, size, k);
  }

  // ------------------------------------------------------------- the packed inode's cache

  function SumOf(m: map<nat, Bytes>, keys: seq<nat>): nat {
    if keys == [] then 0 else (if keys[0] in m then |m[keys[0]]| else 0) + SumOf(m, keys[1..])
  }

  /** Of the pclusters `all` in `line`, the first `gone` have left, and none of them could have stayed. */
  predicate Left(all: map<nat, Bytes>, line: seq<nat>, chunks: map<nat, Bytes>, order: seq<nat>, gone: nat) {
    && gone <= |line| && order == line[gone..]
    && (forall la :: la in chunks ==> la in all && chunks[la] == all[la])
    && (gone > 0 ==> SumOf(all, line[gone - 1..]) > PACKED_CACHE_BYTES)
  }

  ghost predicate LeftOf(all: map<nat, Bytes>, line: seq<nat>, chunks: map<nat, Bytes>, order: seq<nat>) {
    exists gone :: Left(all, line, chunks, order, gone)
  }

  lemma OneMoreGone(all: map<nat, Bytes>, line: seq<nat>, chunks: map<nat, Bytes>, order: seq<nat>, gone: nat)
    requires Left(all, line, chunks, order, gone) && order != [] && SumOf(chunks, order) > PACKED_CACHE_BYTES
    requires (forall la :: la in order ==> la in chunks)
    ensures Left(all, line, chunks - {order[0]}, order[1..], gone + 1)
  {
    SumOfSame(all, chunks, order);
  }

  predicate Distinct(keys: seq<nat>) {
    forall j, k :: 0 <= j < k < |keys| ==> keys[j] != keys[k]
  }

  /** Decoded pclusters of the packed inode, by stream offset; the oldest go first once the bytes
      held pass the budget. */
  class PackedCache {
    const exts: seq<Ext>
    const size: nat
    const decode: Decoder
    var chunks: map<nat, Bytes>
    var order: seq<nat>
    var bytes: nat

    /** The packed inode's map recurses into no packed inode. */
    constructor (exts: seq<Ext>, size: nat, decode: Decoder)
      requires Covers(exts, 0, size) && forall k :: 0 <= k < |exts| ==> !exts[k].src.Packed?
      ensures Valid() && this.exts == exts && this.size == size && this.decode == decode && fresh(this)
    {
      this.exts, this.size, this.decode := exts, size, decode;
      chunks, order, bytes := map[], [], 0;
    }

    /** Whatever is cached is what its extent decodes to, each key once in line, all of it counted,
        and within budget. */
    ghost predicate Valid()
      reads this
    {
      && Covers(exts, 0, size) && (forall k :: 0 <= k < |exts| ==> !exts[k].src.Packed?)
      && (forall la :: la in chunks ==> exists k :: 0 <= k < |exts| && exts[k].la == la && decode(exts[k]) == Some(chunks[la]))
      && Distinct(order) && (forall la :: la in order <==> la in chunks)
      && bytes == SumOf(chunks, order) && bytes <= PACKED_CACHE_BYTES
    }

    /** The decoded pcluster of extent `k`: cached or not, it is what the extent decodes to. What was not
        cached and decodes joins the line, and as many of the oldest leave it as must. */
    method Chunk(k: nat) returns (r: Option<Bytes>)
      requires Valid() && k < |exts|
      modifies this`chunks, this`order, this`bytes
      ensures Valid() && r == decode(exts[k])
      ensures r.None? || exts[k].la in old(chunks) ==> chunks == old(chunks) && order == old(order)
      ensures r.Some? && exts[k].la !in old(chunks) ==>
                LeftOf(old(chunks)[exts[k].la := r.value], old(order) + [exts[k].la], chunks, order)
    {
      var e := exts[k];
      if e.la in chunks {
        var j :| 0 <= j < |exts| && exts[j].la == e.la && decode(exts[j]) == Some(chunks[e.la]);
        SameExt(exts, size, j, k);
        return Some(chunks[e.la]);
      }
      r := decode(e);
      if r.None? {
        return;
      }
      Inserted(chunks, order, e.la, r.value);
      ghost var all, line := chunks[e.la := r.value], order + [e.la];
      chunks, order, bytes := chunks[e.la := r.value], order + [e.la], bytes + |r.value|;
      ghost var gone: nat := 0;
      while bytes > PACKED_CACHE_BYTES
        invariant forall la :: la in chunks ==> exists j :: 0 <= j < |exts| && exts[j].la == la && decode(exts[j]) == Some(chunks[la])
        invariant Distinct(order) && (forall la :: la in order <==> la in chunks) && bytes == SumOf(chunks, order)
        invariant Left(all, line, chunks, order, gone)
        decreases |order|
      {
        if order == [] {
          break;
        }
        var oldest := order[0];
        Evicted(chunks, order);
        OneMoreGone(all, line, chunks, order, gone);
        bytes := bytes - |chunks[oldest]|;
        chunks, order := chunks - {oldest}, order[1..];
        gone := gone + 1;
      }
    }

    /** A read of the packed stream at `off`, short at extent boundaries: never empty, and always the
        stream's own bytes. */
    method Read(off: nat, want: nat, ghost stream: Bytes) returns (r: Option<Bytes>)
      requires Valid() && want > 0 && FileBytes(decode, [], exts) == Some(stream)
      modifies this`chunks, this`order, this`bytes
      ensures Valid() && (r.Some? <==> off < size)
      ensures r.Some? ==> 0 < |r.value| <= want && off + |r.value| <= |stream| && r.value == Cut(stream, off, |r.value|)
      ensures r.Some? ==> exists k :: 0 <= k < |exts| && exts[k].la <= off < exts[k].End() && |r.value| == Min(want, exts[k].End() - off)
    {
      hide Distinct, SumOf, LeftOf, Covers, FileBytes, ExtBytes;
      if off >= size {
        return None;
      }
      var k := Find(off);
      var e := exts[k];
      ExtInFile(decode, [], exts, 0, size, k);
      var within := off - e.la;
      var n := if want < e.llen - within then want else e.llen - within;
      CutOfCut(stream, e.la, e.llen, within, n);
      DecodesHere(decode, e);
      if e.src.Zero? {
        return Some(Zeros(n));
      }
      var chunk := Chunk(k);
      r := Some(Cut(chunk.value, within, n));
    }

    /** The extent that holds `off`: the first that ends past it. */
    method Find(off: nat) returns (k: nat)
      requires Valid() && off < size
      ensures k < |exts| && exts[k].la <= off < exts[k].End()
    {
      k := 0;
      while exts[k].End() <= off
        invariant k < |exts| && exts[k].la <= off
        decreases |exts| - k
      {
        CoversAt(exts, 0, size, k, k);
        if k + 1 < |exts| {
          CoversAt(exts, 0, size, k, k + 1);
        }
        k := k + 1;
      }
    }
  }

  lemma DecodesHere(decode: Decoder, e: Ext)
    requires !e.src.Packed? && ExtBytes(decode, [], e).Some?
    ensures e.src.Raw? ==> decode(e).Some? && ExtBytes(decode, [], e) == decode(e)
    ensures e.src.Zero? ==> ExtBytes(decode, [], e).value == Zeros(e.llen)
  {
  }

  lemma SameExt(exts: seq<Ext>, size: nat, j: nat, k: nat)
    requires Covers(exts, 0, size) && j < |exts| && k < |exts| && exts[j].la == exts[k].la
    ensures j == k
  {
    if j < k {
      CoversAt(exts, 0, size, j, k);
      CoversAt(exts, 0, size, j, j);
    } else if k < j {
      CoversAt(exts, 0, size, k, j);
      CoversAt(exts, 0, size, k, k);
    }
  }

  lemma {:induction false} SumOfSame(a: map<nat, Bytes>, b: map<nat, Bytes>, keys: seq<nat>)
    requires forall k :: k in keys ==> (k in a <==> k in b) && (k in a ==> a[k] == b[k])
    ensures SumOf(a, keys) == SumOf(b, keys)
  {
    if keys != [] {
      assert keys[0] in keys;
      SumOfSame(a, b, keys[1..]);
    }
  }

  lemma {:induction false} SumOfAppend(m: map<nat, Bytes>, keys: seq<nat>, k: nat)
    ensures SumOf(m, keys + [k]) == SumOf(m, keys) + (if k in m then |m[k]| else 0)
  {
    if keys == [] {
      assert keys + [k] == [k];
    } else {
      SumOfAppend(m, keys[1..], k);
      assert (keys + [k])[1..] == keys[1..] + [k];
    }
  }

  lemma Inserted(chunks: map<nat, Bytes>, order: seq<nat>, la: nat, b: Bytes)
    requires Distinct(order) && (forall k :: k in order <==> k in chunks) && la !in chunks
    ensures Distinct(order + [la]) && (forall k :: k in order + [la] <==> k in chunks[la := b])
    ensures SumOf(chunks[la := b], order + [la]) == SumOf(chunks, order) + |b|
  {
    SumOfAppend(chunks[la := b], order, la);
    SumOfSame(chunks, chunks[la := b], order);
  }

  lemma Evicted(chunks: map<nat, Bytes>, order: seq<nat>)
    requires Distinct(order) && (forall k :: k in order <==> k in chunks) && order != []
    ensures order[0] in chunks && Distinct(order[1..])
    ensures forall k :: k in order[1..] <==> k in chunks - {order[0]}
    ensures SumOf(chunks, order) == |chunks[order[0]]| + SumOf(chunks - {order[0]}, order[1..])
  {
    assert order[0] in order;
    assert forall k :: k in order <==> k == order[0] || k in order[1..];
    SumOfSame(chunks, chunks - {order[0]}, order[1..]);
  }

  // ------------------------------------------------------------- the file reader

  /** A cursor over a file: it holds the extent it is in, decoded, and asks the cache for packed ranges. */
  class ZReader {
    const plan: ZPlan
    const decode: Decoder
    const packed: PackedCache
    var pos: nat
    var idx: nat
    var cur: Option<Bytes>

    constructor (plan: ZPlan, decode: Decoder, packed: PackedCache)
      ensures this.plan == plan && this.decode == decode && this.packed == packed && pos == 0 && idx == 0 && cur == None && fresh(this)
    {
      this.plan, this.decode, this.packed := plan, decode, packed;
      pos, idx, cur := 0, 0, None;
    }

    /** The map covers the file, everything in it decodes to `file`, and the reader is at most one
        extent behind its position; a pcluster held is the one at hand. */
    ghost predicate Valid(file: Bytes, stream: Bytes)
      reads this, packed
    {
      && packed.Valid() && FileBytes(packed.decode, [], packed.exts) == Some(stream) && packed.size == |stream|
      && Covers(plan.exts, 0, plan.size) && FileBytes(decode, stream, plan.exts) == Some(file) && |file| == plan.size
      && pos <= plan.size && idx <= |plan.exts|
      && (forall k :: 0 <= k < idx ==> plan.exts[k].End() <= pos)
      && (cur.Some? ==> idx < |plan.exts| && plan.exts[idx].src.Raw? && decode(plan.exts[idx]) == cur)
    }

    /** One read: up to `want` bytes of what is left of the extent at the position. A non-empty
        buffer gets at least a byte until the file ends, and exactly the file's next bytes. */
    method Read(want: nat, ghost file: Bytes, ghost stream: Bytes) returns (r: Result<Bytes, string>)
      requires Valid(file, stream)
      modifies this, packed
      ensures Valid(file, stream) && r.Ok?
      ensures old(pos) + |r.value| == pos && r.value == Cut(file, old(pos), |r.value|) && |r.value| <= want
      ensures r.value == [] <==> want == 0 || old(pos) == plan.size
      ensures r.value != [] ==> exists k :: 0 <= k < |plan.exts| && ReadsIn(old(pos), want, k, |r.value|)
    {
      hide Covers, FileBytes, Distinct, SumOf, LeftOf, Zeros;
      if pos >= plan.size || want == 0 {
        return Ok([]);
      }
      Advance(file, stream);
      if idx == |plan.exts| {
        return Err("erofs extent map ends early");
      }
      var e := plan.exts[idx];
      if pos < e.la {
        return Err("erofs extent map has a gap");
      }
      var n := if want < e.End() - pos then want else e.End() - pos;
      var out := Fetch(n, file, stream);
      assert ReadsIn(pos, want, idx, |out|);
      pos := pos + |out|;
      r := Ok(out);
    }

    /** `n` bytes from the position on, inside the extent at hand; fewer only from the packed stream. */
    method Fetch(n: nat, ghost file: Bytes, ghost stream: Bytes) returns (out: Bytes)
      requires Valid(file, stream) && idx < |plan.exts| && 0 < n && plan.exts[idx].la <= pos && pos + n <= plan.exts[idx].End()
      modifies this`cur, packed
      ensures Valid(file, stream) && 0 < |out| <= n && pos + |out| <= |file| && out == Cut(file, pos, |out|)
      ensures ReadsIn(pos, n, idx, |out|)
    {
      hide Covers, FileBytes, Distinct, SumOf, LeftOf, Zeros;
      var e := plan.exts[idx];
      Ahead(file, stream, n);
      out := Zeros(n);
      if e.src.Packed? {
        out := ReadPacked(n, file, stream);
      } else if e.src.Raw? {
        if cur.None? {
          cur := decode(e);
        }
        out := Cut(cur.value, pos - e.la, n);
      }
    }

    /** Reading at `at` inside extent `k` gives all that was wanted of what is left of the extent, unless the packed
        stream's own extent ends before that. */
    ghost predicate ReadsIn(at: nat, want: nat, k: nat, got: nat)
      requires k < |plan.exts|
    {
      var e := plan.exts[k];
      && e.la <= at < e.End()
      && if !e.src.Packed? then got == Min(want, e.End() - at)
         else
           var off := e.src.off + (at - e.la);
           exists j :: 0 <= j < |packed.exts| && packed.exts[j].la <= off < packed.exts[j].End()
                       && got == Min(Min(want, e.End() - at), packed.exts[j].End() - off)
    }

    /** The file's next `n` bytes, inside the extent at hand. */
    lemma Ahead(file: Bytes, stream: Bytes, n: nat)
      requires Valid(file, stream) && idx < |plan.exts| && plan.exts[idx].la <= pos && pos + n <= plan.exts[idx].End()
      ensures var e := plan.exts[idx];
              ExtBytes(decode, stream, e).Some? && |ExtBytes(decode, stream, e).value| == e.llen && pos + n <= |file|
              && Cut(file, pos, n) == Cut(ExtBytes(decode, stream, e).value, pos - e.la, n)
    {
      hide Zeros, Covers, FileBytes, ExtBytes, Distinct, SumOf;
      var e := plan.exts[idx];
      AheadIn(decode, stream, plan.exts, plan.size, file, idx, pos, n);
    }

    /** A packed range, through the cache: possibly short, never empty. */
    method ReadPacked(n: nat, ghost file: Bytes, ghost stream: Bytes) returns (out: Bytes)
      requires Valid(file, stream) && idx < |plan.exts| && plan.exts[idx].src.Packed?
      requires 0 < n && plan.exts[idx].la <= pos && pos + n <= plan.exts[idx].End()
      modifies packed
      ensures Valid(file, stream) && 0 < |out| <= n && pos + |out| <= |file| && out == Cut(file, pos, |out|)
      ensures var off := plan.exts[idx].src.off + (pos - plan.exts[idx].la);
              exists j :: 0 <= j < |packed.exts| && packed.exts[j].la <= off < packed.exts[j].End()
                          && |out| == Min(n, packed.exts[j].End() - off)
    {
      hide Zeros, Covers, FileBytes, Distinct, SumOf;
      var e := plan.exts[idx];
      Ahead(file, stream, n);
      var got := packed.Read(e.src.off + (pos - e.la), n, stream);
      out := got.value;
      Ahead(file, stream, |out|);
      CutOfCut(stream, e.src.off, e.llen, pos - e.la, |out|);
    }

    /** Skip the extents the position has passed; a pcluster held goes with its extent. */
    method Advance(ghost file: Bytes, ghost stream: Bytes)
      requires Valid(file, stream) && pos < plan.size
      modifies this`idx, this`cur
      ensures Valid(file, stream) && idx < |plan.exts| && plan.exts[idx].la <= pos < plan.exts[idx].End()
    {
      while idx < |plan.exts| && plan.exts[idx].End() <= pos
        invariant Valid(file, stream)
        decreases |plan.exts| - idx
      {
        idx := idx + 1;
        cur := None;
      }
      SomeExtHolds(plan.exts, 0, plan.size, pos);
      var k :| 0 <= k < |plan.exts| && plan.exts[k].la <= pos < plan.exts[k].End();
      if idx < k {
        CoversAt(plan.exts, 0, plan.size, idx, k);
      }
    }
  }

  /** The file's bytes from `pos`, read off the extent they lie in. */
  lemma AheadIn(decode: Decoder, stream: Bytes, exts: seq<Ext>, size: nat, file: Bytes, k: nat, pos: nat, n: nat)
    requires Covers(exts, 0, size) && FileBytes(decode, stream, exts) == Some(file) && k < |exts|
    requires exts[k].la <= pos && pos + n <= exts[k].End()
    ensures var e := exts[k];
            ExtBytes(decode, stream, e).Some? && |ExtBytes(decode, stream, e).value| == e.llen && pos + n <= |file|
            && Cut(file, pos, n) == Cut(ExtBytes(decode, stream, e).value, pos - e.la, n)
  {
    hide Zeros, Covers, FileBytes, ExtBytes;
    var e := exts[k];
    ExtInFile(decode, stream, exts, 0, size, k);
    ExtLength(decode, stream, e);
    CutOfCut(file, e.la, e.llen, pos - e.la, n);
  }

  lemma {:induction false} SomeExtHolds(exts: seq<Ext>, from: nat, size: nat, pos: nat)
    requires Covers(exts, from, size) && from <= pos < size
    ensures exists k :: 0 <= k < |exts| && exts[k].la <= pos < exts[k].End()
  {
    if exts[0].End() <= pos {
      SomeExtHolds(exts[1..], exts[0].End(), size, pos);
      var k :| 0 <= k < |exts[1..]| && exts[1..][k].la <= pos < exts[1..][k].End();
      assert exts[k + 1] == exts[1..][k];
    }
  }

  /** Draining a fresh reader with buffers of any sizes gives the file exactly once. */
  method Drain(z: ZReader, wants: nat -> nat, ghost file: Bytes, ghost stream: Bytes) returns (out: Bytes)
    requires z.Valid(file, stream) && z.pos == 0 && forall k: nat :: wants(k) > 0
    modifies z, z.packed
    ensures out == file
  {
    out := [];
    var k: nat := 0;
    while true
      invariant z.Valid(file, stream) && z.pos == |out| && out == file[..z.pos]
      decreases |file| - z.pos
    {
      var got := z.Read(wants(k), file, stream);
      if got.value == [] {
        break;
      }
      assert file[..z.pos] == file[..|out|] + Cut(file, |out|, |got.value|);
      out := out + got.value;
      k := k + 1;
    }
    assert file[..|file|] == file;
  }
}
