/** Windows onto a source: lists of extents read as one byte string, and slices of them. */
module Views {
  import opened Wrappers
  import opened ByteStrings

  /** `len` bytes of the source at `off`, standing at `log` in the view. */
  datatype Extent = Extent(log: nat, off: nat, len: nat)

  /** `(offset, length)`, in the source or in a view. */
  datatype Range = Range(off: nat, len: nat)

  /** The bytes of a range of the source, absent where the source has ended. */
  function Piece(src: Bytes, r: Range): (d: seq<Option<Byte>>)
    ensures |d| == r.len && forall i :: 0 <= i < r.len ==> d[i] == if r.off + i < |src| then Some(src[r.off + i]) else None
  {
    seq(r.len, i requires 0 <= i < r.len => if r.off + i < |src| then Some(src[r.off + i]) else None)
  }

  /** What a list of ranges of the source reads as. */
  function Denotes(src: Bytes, rs: seq<Range>): seq<Option<Byte>> {
    if rs == [] then [] else Denotes(src, rs[..|rs| - 1]) + Piece(src, rs[|rs| - 1])
  }

  function RangesOf(es: seq<Extent>): (rs: seq<Range>)
    ensures |rs| == |es|
  {
    seq(|es|, i requires 0 <= i < |es| => Range(es[i].off, es[i].len))
  }

  /** Where the first `n` extents end. */
  function EndOf(es: seq<Extent>, n: nat): nat
    requires n <= |es|
  {
    if n == 0 then 0 else es[n - 1].log + es[n - 1].len
  }

  /** Extents follow one another from zero, none of them empty. */
  predicate Tiled(es: seq<Extent>) {
    forall i :: 0 <= i < |es| ==> Follows(es, i)
  }

  predicate Follows(es: seq<Extent>, i: nat)
    requires i < |es|
  {
    es[i].len > 0 && es[i].log == EndOf(es, i)
  }

  /** What the view's extents read as. */
  function Text(src: Bytes, es: seq<Extent>): seq<Option<Byte>> {
    Denotes(src, RangesOf(es))
  }

  lemma TextStep(src: Bytes, es: seq<Extent>, n: nat)
    requires n < |es|
    ensures Text(src, es[..n + 1]) == Text(src, es[..n]) + Piece(src, Range(es[n].off, es[n].len))
  {
    assert RangesOf(es[..n + 1])[..n] == RangesOf(es[..n]);
  }

  lemma {:induction false} TextLength(src: Bytes, es: seq<Extent>, n: nat)
    requires Tiled(es) && n <= |es|
    ensures |Text(src, es[..n])| == EndOf(es, n)
  {
    hide Denotes, RangesOf;
    if n > 0 {
      hide Text;
      assert Follows(es, n - 1);
      TextLength(src, es, n - 1);
      TextStep(src, es, n - 1);
    } else {
      NoText(src, es);
    }
  }

  lemma NoText(src: Bytes, es: seq<Extent>)
    ensures Text(src, es[..0]) == []
  {
  }

  /** Extent `k` reads at its place in the view. */
  lemma {:induction false} TextAt(src: Bytes, es: seq<Extent>, n: nat, k: nat, i: nat)
    requires Tiled(es) && k < n <= |es| && i < es[k].len
    ensures es[k].log + i < |Text(src, es[..n])|
    ensures Text(src, es[..n])[es[k].log + i] == if es[k].off + i < |src| then Some(src[es[k].off + i]) else None
  {
    hide Text;
    assert Follows(es, n - 1);
    TextLength(src, es, n - 1);
    TextStep(src, es, n - 1);
    if k < n - 1 {
      TextAt(src, es, n - 1, k, i);
    }
  }

  lemma {:induction false} TextIsTiled(es: seq<Extent>, k: nat, n: nat)
    requires Tiled(es) && k <= n <= |es|
    ensures EndOf(es, k) <= EndOf(es, n) && (k < n ==> es[k].log < EndOf(es, n))
  {
    if k < n {
      TextIsTiled(es, k, n - 1);
      assert Follows(es, n - 1) && Follows(es, k);
    }
  }

  lemma DenotesOneMore(src: Bytes, rs: seq<Range>, r: Range)
    ensures Denotes(src, rs + [r]) == Denotes(src, rs) + Piece(src, r)
  {
    assert (rs + [r])[..|rs|] == rs;
  }

  /** What a slice is asked for: each range clamped to the view, one after another. */
  function Wanted(text: seq<Option<Byte>>, ranges: seq<Range>): seq<Option<Byte>> {
    if ranges == [] then []
    else Wanted(text, ranges[..|ranges| - 1]) + Clamped(text, ranges[|ranges| - 1])
  }

  function Clamped(text: seq<Option<Byte>>, r: Range): seq<Option<Byte>> {
    text[Min(r.off, |text|)..Min(r.off + r.len, |text|)]
  }

  /** These bytes are what the text has at `pos`. */
  predicate Filled(text: seq<Option<Byte>>, pos: nat, got: Bytes) {
    pos + |got| <= |text| && forall i :: 0 <= i < |got| ==> text[pos + i] == Some(got[i])
  }

  lemma FilledJoin(text: seq<Option<Byte>>, pos: nat, a: Bytes, b: Bytes)
    requires Filled(text, pos, a) && Filled(text, pos + |a|, b)
    ensures Filled(text, pos, a + b)
  {
    forall i | 0 <= i < |a + b|
      ensures text[pos + i] == Some((a + b)[i])
    {
      if i >= |a| {
        assert text[pos + |a| + (i - |a|)] == Some(b[i - |a|]);
      }
    }
  }

  lemma FilledFits(text: seq<Option<Byte>>, pos: nat, got: Bytes)
    requires Filled(text, pos, got)
    ensures pos + |got| <= |text|
  {
  }

  datatype SeekFrom = FromStart(o: nat) | FromEnd(d: int) | FromCurrent(d: int)

  const U64_LIMIT: nat := 0x1_0000_0000_0000_0000

  class View {
    const src: Bytes
    const extents: seq<Extent>
    const len: nat
    var pos: nat

    ghost predicate Valid()
    {
      Tiled(extents) && len == EndOf(extents, |extents|)
    }

    /** The view's byte string. */
    ghost function Content(): seq<Option<Byte>>
    {
      Text(src, extents)
    }

    /** Empty ranges are left out; the rest stand one after another. */
    constructor (src: Bytes, ranges: seq<Range>)
      ensures Valid() && this.src == src && Content() == Denotes(src, ranges) && len == |Content()| && pos == 0
    {
      this.src := src;
      var mapped: seq<Extent> := [];
      var logical := 0;
      var i := 0;
      while i < |ranges|
        invariant 0 <= i <= |ranges| && Tiled(mapped) && logical == EndOf(mapped, |mapped|)
        invariant Text(src, mapped) == Denotes(src, ranges[..i])
      {
        assert ranges[..i + 1] == ranges[..i] + [ranges[i]];
        DenotesOneMore(src, ranges[..i], ranges[i]);
        if ranges[i].len > 0 {
          ghost var was := mapped;
          mapped := mapped + [Extent(logical, ranges[i].off, ranges[i].len)];
          ExtentJoins(was, mapped[|was|]);
          assert RangesOf(mapped) == RangesOf(was) + [ranges[i]];
          DenotesOneMore(src, RangesOf(was), ranges[i]);
          logical := logical + ranges[i].len;
        }
        i := i + 1;
      }
      assert ranges[..i] == ranges;
      assert mapped[..|mapped|] == mapped;
      TextLength(src, mapped, |mapped|);
      extents := mapped;
      len := logical;
      pos := 0;
    }

    /** Another view of the same runs, its cursor at zero. */
    method Rewound() returns (v: View)
      requires Valid()
      ensures fresh(v) && v.Valid() && v.src == src && v.Content() == Content() && v.pos == 0
    {
      v := new View(src, RangesOf(extents));
    }

    /** A sub-window: it reads as the clamped sub-ranges of this view's bytes, one after another. */
    method Slice(ranges: seq<Range>) returns (v: View)
      requires Valid()
      ensures fresh(v) && v.Valid() && v.src == src && v.pos == 0 && v.Content() == Wanted(Content(), ranges)
    {
      hide Tiled, Denotes;
      ghost var text := Content();
      WholeText(src, extents);
      var out: seq<Range> := [];
      NothingDenoted(src);
      var i := 0;
      while i < |ranges|
        invariant 0 <= i <= |ranges| && Denotes(src, out) == Wanted(text, ranges[..i])
      {
        assert ranges[..i + 1][..i] == ranges[..i];
        var more := SliceOne(ranges[i]);
        DenotesJoin(src, out, more);
        out := out + more;
        i := i + 1;
      }
      assert ranges[..i] == ranges;
      v := new View(src, out);
    }

    /** One range's share: walk the extents, taking from each what the range still wants. */
    method SliceOne(r: Range) returns (out: seq<Range>)
      requires Valid()
      ensures Denotes(src, out) == Clamped(Content(), r)
    {
      hide Denotes, Tiled;
      out := [];
      NothingDenoted(src);
      WholeText(src, extents);
      var wantStart := Min(r.off, len);
      var wantEnd := Min(r.off + r.len, len);
      ghost var first := wantStart;
      var k := 0;
      while k < |extents|
        invariant 0 <= k <= |extents| && first <= wantStart <= wantEnd <= len == |Content()|
        invariant wantStart == Later(first, Min(EndOf(extents, k), wantEnd))
        invariant Denotes(src, out) == Content()[first..wantStart]
      {
        if wantStart >= wantEnd {
          break;
        }
        var e := extents[k];
        var eend := e.log + e.len;
        ExtentIs(extents, k);
        if !(eend <= wantStart || e.log >= wantEnd) {
          var from := Later(wantStart, e.log);
          var to := Min(wantEnd, eend);
          PieceOfText(src, extents, k, from, to);
          DenotesOneMore(src, out, Range(e.off + (from - e.log), to - from));
          out := out + [Range(e.off + (from - e.log), to - from)];
          wantStart := to;
        }
        k := k + 1;
      }
    }

    /** The extent holding `pos`: the last that starts at or before it. */
    method ExtentAt(pos: nat) returns (i: nat)
      requires Valid() && pos < len
      ensures i < |extents| && extents[i].log <= pos < extents[i].log + extents[i].len
    {
      assert Follows(extents, 0);
      var lo, hi := 0, |extents|;
      while lo < hi
        invariant 0 <= lo <= hi <= |extents|
        invariant forall x :: 0 <= x < lo ==> extents[x].log <= pos
        invariant forall x :: hi <= x < |extents| ==> extents[x].log > pos
        invariant lo > 0 || hi == |extents| || extents[0].log <= pos
      {
        var mid := (lo + hi) / 2;
        StartsRise(extents, mid);
        if extents[mid].log <= pos {
          lo := mid + 1;
        } else {
          hi := mid;
        }
      }
      assert lo < |extents| ==> Follows(extents, lo);
      i := lo - 1;
    }

    /** One positional read into `buf` from `at`: the view's bytes at `pos`, up to the end of the extent
        they are in; none only at the end of the view or where the source has ended. */
    method ReadAtLogical(buf: array<Byte>, at: nat, pos: nat) returns (n: nat)
      requires Valid() && at <= buf.Length
      modifies buf
      ensures len == |Content()| && at + n <= buf.Length
      ensures n > 0 ==> Filled(Content(), pos, buf[at..at + n])
      ensures buf[..at] == old(buf[..at]) && buf[at + n..] == old(buf[at + n..])
      ensures n == 0 <==> at == buf.Length || pos >= len || Content()[pos].None?
    {
      hide Denotes, Tiled;
      WholeText(src, extents);
      if pos >= len || at == buf.Length {
        return 0;
      }
      var i := ExtentAt(pos);
      var e := extents[i];
      var within := pos - e.log;
      var avail := Min(e.len - within, buf.Length - at);
      var start := Min(e.off + within, |src|);
      n := Min(avail, |src| - start);
      Copy(buf, at, src[start..start + n]);
      ReadIsFilled(src, extents, i, within, n);
    }

    /** As much of `buf` as the view has bytes for at `off`, without a gap. */
    method ReadFullAt(buf: array<Byte>, off: nat) returns (done: nat)
      requires Valid()
      modifies buf
      ensures done <= buf.Length && len == |Content()|
      ensures done > 0 ==> Filled(Content(), off, buf[..done])
      ensures buf[done..] == old(buf[done..])
      ensures done == buf.Length || off + done >= len || Content()[off + done].None?
    {
      hide Valid, Content, Filled;
      LengthOf();
      done := 0;
      while done < buf.Length
        invariant 0 <= done <= buf.Length && (done > 0 ==> Filled(Content(), off, buf[..done]))
        invariant buf[done..] == old(buf[done..])
        decreases buf.Length - done
      {
        ghost var was, left := buf[..done], buf[done..];
        var n := ReadAtLogical(buf, done, off + done);
        if n == 0 {
          assert buf[..done] == was && buf[done..] == left;
          break;
        }
        assert buf[..done + n] == was + buf[done..done + n];
        assert buf[done + n..] == left[n..];
        if done > 0 {
          FilledJoin(Content(), off, was, buf[done..done + n]);
        } else {
          assert buf[..n] == buf[done..done + n];
        }
        done := done + n;
      }
    }

    lemma LengthOf()
      requires Valid()
      ensures len == |Content()|
    {
      WholeText(src, extents);
    }

    /** `Read::read`: the bytes at the cursor, which moves past them. */
    method Read(buf: array<Byte>) returns (n: nat)
      requires Valid()
      modifies this, buf
      ensures n <= buf.Length && len == |Content()| && pos == old(pos) + n
      ensures n > 0 ==> Filled(Content(), old(pos), buf[..n])
      ensures buf[n..] == old(buf[n..])
      ensures n == 0 <==> buf.Length == 0 || old(pos) >= len || Content()[old(pos)].None?
    {
      n := ReadAtLogical(buf, 0, pos);
      assert buf[0..0 + n] == buf[..n];
      pos := pos + n;
    }

    /** Reading on with buffers of any size gets the text from the cursor to its end, or to the first
        byte the source does not have. */
    method ReadToEnd(size: nat) returns (got: Bytes)
      requires Valid() && size > 0
      modifies this
      ensures len == |Content()| && pos == old(pos) + |got|
      ensures got != [] ==> Filled(Content(), old(pos), got)
      ensures pos >= len || Content()[pos].None?
    {
      hide Content, Filled, Valid;
      LengthOf();
      var buf := new Byte[size](_ => 0);
      got := [];
      var more := true;
      while more
        invariant pos == old(pos) + |got| && fresh(buf) && buf.Length == size
        invariant got != [] ==> Filled(Content(), old(pos), got)
        invariant got != [] ==> pos <= len
        invariant !more ==> pos >= len || Content()[pos].None?
        decreases more, len - pos
      {
        ghost var at := pos;
        var n := Read(buf);
        if n == 0 {
          more := false;
        } else {
          FilledFits(Content(), at, buf[..n]);
          if got != [] {
            FilledJoin(Content(), old(pos), got, buf[..n]);
          } else {
            assert [] + buf[..n] == buf[..n];
          }
          got := got + buf[..n];
        }
      }
    }

    /** `Seek::seek`: refused before the start or past what an offset can hold; anywhere else goes. */
    method Seek(to: SeekFrom) returns (r: Option<nat>)
      modifies this
      ensures var target := match to case FromStart(o) => o case FromEnd(d) => len + d case FromCurrent(d) => old(pos) + d;
        if to.FromStart? || 0 <= target < U64_LIMIT then r == Some(target) && pos == target else r == None && pos == old(pos)
    {
      var target: int := match to case FromStart(o) => o case FromEnd(d) => len + d case FromCurrent(d) => pos + d;
      if !to.FromStart? && !(0 <= target < U64_LIMIT) {
        return None;
      }
      pos := target;
      r := Some(target);
    }
  }

  function Later(a: nat, b: nat): nat {
    if a < b then b else a
  }

  lemma ExtentJoins(es: seq<Extent>, e: Extent)
    requires Tiled(es) && e.len > 0 && e.log == EndOf(es, |es|)
    ensures Tiled(es + [e]) && EndOf(es + [e], |es| + 1) == e.log + e.len
  {
    forall i | 0 <= i < |es| + 1
      ensures Follows(es + [e], i)
    {
      assert EndOf(es + [e], i) == EndOf(es, i);
      assert i < |es| ==> Follows(es, i);
    }
  }

  lemma NothingDenoted(src: Bytes)
    ensures Denotes(src, []) == []
  {
  }

  lemma {:induction false} DenotesJoin(src: Bytes, a: seq<Range>, b: seq<Range>)
    ensures Denotes(src, a + b) == Denotes(src, a) + Denotes(src, b)
  {
    hide Denotes, Piece;
    if b == [] {
      NothingDenoted(src);
      assert a + b == a;
    } else {
      var n := |b| - 1;
      DenotesJoin(src, a, b[..n]);
      assert a + b == (a + b[..n]) + [b[n]];
      DenotesOneMore(src, a + b[..n], b[n]);
      assert b[..n] + [b[n]] == b;
      DenotesOneMore(src, b[..n], b[n]);
    }
  }

  lemma WholeText(src: Bytes, es: seq<Extent>)
    requires Tiled(es)
    ensures |Text(src, es)| == EndOf(es, |es|)
  {
    TextLength(src, es, |es|);
    assert es[..|es|] == es;
  }

  lemma ExtentIs(es: seq<Extent>, k: nat)
    requires Tiled(es) && k < |es|
    ensures es[k].len > 0 && es[k].log == EndOf(es, k) && EndOf(es, k + 1) == es[k].log + es[k].len <= EndOf(es, |es|)
  {
    assert Follows(es, k);
    TextIsTiled(es, k + 1, |es|);
  }

  lemma StartsRise(es: seq<Extent>, k: nat)
    requires Tiled(es) && k < |es|
    ensures forall x :: 0 <= x <= k ==> es[x].log <= es[k].log
    ensures forall x :: k <= x < |es| ==> es[k].log <= es[x].log
  {
    assert Follows(es, k);
    forall x | 0 <= x <= k
      ensures es[x].log <= es[k].log
    {
      assert Follows(es, x);
      TextIsTiled(es, x, k);
    }
    forall x | k <= x < |es|
      ensures es[k].log <= es[x].log
    {
      assert Follows(es, x);
      TextIsTiled(es, k, x);
    }
  }

  method Copy(buf: array<Byte>, at: nat, bytes: Bytes)
    requires at + |bytes| <= buf.Length
    modifies buf
    ensures buf[..at] == old(buf[..at]) && buf[at + |bytes|..] == old(buf[at + |bytes|..]) && buf[at..at + |bytes|] == bytes
  {
    var k := 0;
    while k < |bytes|
      invariant 0 <= k <= |bytes|
      invariant forall x :: at <= x < at + k ==> buf[x] == bytes[x - at]
      invariant forall x :: 0 <= x < buf.Length && !(at <= x < at + k) ==> buf[x] == old(buf[x])
    {
      buf[at + k] := bytes[k];
      k := k + 1;
    }
  }

  lemma ByteReads(src: Bytes, es: seq<Extent>, k: nat, i: nat)
    requires Tiled(es) && k < |es| && i < es[k].len
    ensures es[k].log + i < |Text(src, es)|
    ensures Text(src, es)[es[k].log + i] == if es[k].off + i < |src| then Some(src[es[k].off + i]) else None
  {
    hide Text, Tiled;
    assert es[..|es|] == es;
    TextAt(src, es, |es|, k, i);
  }

  lemma ReadIsFilled(src: Bytes, es: seq<Extent>, k: nat, within: nat, n: nat)
    requires Tiled(es) && k < |es| && within < es[k].len && within + n <= es[k].len
    requires Min(es[k].off + within, |src|) + n <= |src|
    ensures var start := Min(es[k].off + within, |src|);
      n > 0 ==> Filled(Text(src, es), es[k].log + within, src[start..start + n])
    ensures es[k].log + within < |Text(src, es)| && (Text(src, es)[es[k].log + within].None? <==> es[k].off + within >= |src|)
  {
    hide Text, Tiled;
    ByteReads(src, es, k, within);
    if n > 0 {
      ByteReads(src, es, k, within + n - 1);
      var got := src[es[k].off + within..es[k].off + within + n];
      forall i | 0 <= i < |got|
        ensures Text(src, es)[es[k].log + within + i] == Some(got[i])
      {
        ByteReads(src, es, k, within + i);
      }
    }
  }

  /** A sub-range of one extent is that range of the source. */
  lemma PieceOfText(src: Bytes, es: seq<Extent>, k: nat, from: nat, to: nat)
    requires Tiled(es) && k < |es| && es[k].log <= from < to <= es[k].log + es[k].len
    ensures to <= |Text(src, es)| && Piece(src, Range(es[k].off + (from - es[k].log), to - from)) == Text(src, es)[from..to]
  {
    hide Text, Tiled;
    ByteReads(src, es, k, to - 1 - es[k].log);
    forall i | 0 <= i < to - from
      ensures Piece(src, Range(es[k].off + (from - es[k].log), to - from))[i] == Text(src, es)[from..to][i]
    {
      ByteReads(src, es, k, from + i - es[k].log);
    }
  }

  // ------------------------------------------------------------- slices of slices

  /** Slicing a slice is slicing once, at the place the outer slice starts, as far as both reach. */
  lemma SliceOfSlice(text: seq<Option<Byte>>, outer: Range, inner: Range)
    requires outer.off + outer.len <= |text|
    ensures Clamped(Clamped(text, outer), inner)
         == Clamped(text, Range(outer.off + Min(inner.off, outer.len), Min(inner.off + inner.len, outer.len) - Min(inner.off, outer.len)))
  {
    CutTwice(text, outer.off, outer.len, Min(inner.off, outer.len), Min(inner.off + inner.len, outer.len));
  }

  // ------------------------------------------------------------- spools

  const RAM_SPOOL_MAX: nat := 0x1000_0000

  /** A stream drained chunk by chunk, in memory until it grows too big and then in a file: the view
      reads as the whole stream, and the feed was handed every chunk in order. */
  method SpoolStream(chunks: seq<Bytes>) returns (v: View, fed: seq<Bytes>, onDisk: bool)
    ensures fresh(v) && v.Valid() && v.src == Flatten(chunks) && v.pos == 0
    ensures |v.Content()| == |Flatten(chunks)| && Filled(v.Content(), 0, Flatten(chunks))
    ensures fed == chunks && (onDisk <==> |Flatten(chunks)| > RAM_SPOOL_MAX)
  {
    var mem: Bytes, file: Option<Bytes> := [], None;
    fed := [];
    var i := 0;
    while i < |chunks|
      invariant 0 <= i <= |chunks| && fed == chunks[..i]
      invariant Flatten(chunks[..i]) == if file.Some? then file.value else mem
      invariant if file.Some? then |file.value| > RAM_SPOOL_MAX else |mem| <= RAM_SPOOL_MAX
    {
      FlattenAt(chunks, i);
      fed := fed + [chunks[i]];
      if file.Some? {
        file := Some(file.value + chunks[i]);
      } else {
        mem := mem + chunks[i];
        if |mem| > RAM_SPOOL_MAX {
          file, mem := Some(mem), [];
        }
      }
      i := i + 1;
    }
    assert chunks[..i] == chunks;
    var whole := if file.Some? then file.value else mem;
    onDisk := file.Some?;
    WholeSource(whole);
    v := new View(whole, [Range(0, |whole|)]);
  }

  lemma WholeSource(src: Bytes)
    ensures Denotes(src, [Range(0, |src|)]) == Piece(src, Range(0, |src|)) && Filled(Piece(src, Range(0, |src|)), 0, src)
  {
    assert [Range(0, |src|)][..0] == [];
    assert Denotes(src, []) + Piece(src, Range(0, |src|)) == Piece(src, Range(0, |src|));
  }
}
