/** Bytes, byte strings and the few slicing facts every other module leans on. */
module ByteStrings {

  type Byte = b: int | 0 <= b < 256

  type Bytes = seq<Byte>

  /** The `len` bytes of `s` at `off`. */
  function Cut(s: Bytes, off: nat, len: nat): (r: Bytes)
    requires off + len <= |s|
    ensures |r| == len && forall k :: 0 <= k < len ==> r[k] == s[off + k]
  {
    s[off..off + len]
  }

  function Min(a: nat, b: nat): nat { if a < b then a else b }

  function Max(a: nat, b: nat): nat { if a > b then a else b }

  function Zeros(n: nat): (r: Bytes)
    ensures |r| == n && forall k :: 0 <= k < n ==> r[k] == 0
  {
    seq(n, _ => 0)
  }

  /** `Vec::resize(size, 0)`: cut short or padded with zero bytes. */
  function Resize(s: Bytes, size: nat): (r: Bytes)
    ensures |r| == size
    ensures forall k :: 0 <= k < size ==> r[k] == if k < |s| then s[k] else 0
  {
    if size <= |s| then s[..size] else s + Zeros(size - |s|)
  }

  /** A cut of a cut is a cut. */
  lemma CutOfCut(s: Bytes, off: nat, len: nat, inner: nat, n: nat)
    requires off + len <= |s| && inner + n <= len
    ensures Cut(Cut(s, off, len), inner, n) == Cut(s, off + inner, n)
  {
  }

  /** Two byte strings that agree on a range agree on every sub-range of it. */
  lemma CutsAgree(s: Bytes, so: nat, t: Bytes, to: nat, len: nat, inner: nat, n: nat)
    requires so + len <= |s| && to + len <= |t| && inner + n <= len
    requires Cut(s, so, len) == Cut(t, to, len)
    ensures Cut(s, so + inner, n) == Cut(t, to + inner, n)
  {
    CutOfCut(s, so, len, inner, n);
    CutOfCut(t, to, len, inner, n);
  }

  lemma CutSplits(s: Bytes, off: nat, a: nat, b: nat)
    requires off + a + b <= |s|
    ensures Cut(s, off, a) + Cut(s, off + a, b) == Cut(s, off, a + b)
  {
  }

  /** A byte string handed over in chunks. */
  function Flatten(chunks: seq<Bytes>): Bytes {
    if chunks == [] then [] else chunks[0] + Flatten(chunks[1..])
  }

  lemma {:induction false} FlattenConcat(a: seq<Bytes>, b: seq<Bytes>)
    ensures Flatten(a + b) == Flatten(a) + Flatten(b)
  {
    if a == [] {
      assert a + b == b;
    } else {
      FlattenConcat(a[1..], b);
      assert (a + b)[1..] == a[1..] + b;
      calc {
        Flatten(a + b);
        a[0] + Flatten(a[1..] + b);
        a[0] + (Flatten(a[1..]) + Flatten(b));
        (a[0] + Flatten(a[1..])) + Flatten(b);
      }
    }
  }

  lemma FlattenSingle(chunk: Bytes)
    ensures Flatten([chunk]) == chunk
  {
    assert [chunk][1..] == [];
  }

  /** What the first `k` chunks hold, the next one, and the rest. */
  lemma {:induction false} FlattenAt(chunks: seq<Bytes>, k: nat)
    requires k < |chunks|
    ensures Flatten(chunks[..k + 1]) == Flatten(chunks[..k]) + chunks[k]
    ensures Flatten(chunks) == Flatten(chunks[..k + 1]) + Flatten(chunks[k + 1..])
  {
    hide Flatten;
    FlattenConcat(chunks[..k], [chunks[k]]);
    assert chunks[..k + 1] == chunks[..k] + [chunks[k]];
    assert Flatten([chunks[k]]) == chunks[k] by { FlattenSingle(chunks[k]); }
    FlattenConcat(chunks[..k + 1], chunks[k + 1..]);
    assert chunks == chunks[..k + 1] + chunks[k + 1..];
  }

  /** A slice of a slice is a slice. */
  lemma CutTwice<T>(s: seq<T>, o: nat, l: nat, a: nat, b: nat)
    requires o + l <= |s| && a <= b <= l
    ensures s[o..o + l][a..b] == s[o + a..o + b]
  {
    var t, u := s[o..o + l][a..b], s[o + a..o + b];
    forall i | 0 <= i < |t|
      ensures t[i] == u[i]
    {
      assert t[i] == s[o..o + l][a + i] == s[o + (a + i)];
    }
    assert |t| == |u|;
  }
}
