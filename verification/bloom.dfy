/** Membership filters: built in memory, written out, probed, and folded to half their size. */
module BloomFilter {
  import opened Wrappers
  import opened ByteStrings
  import opened BitFields
  import opened BloomWords
  import opened Dcso

  /** Some probe of some key lands on bit `b`. */
  predicate Hit(keys: seq<Bytes>, k: nat, m: nat, b: nat)
    requires m > 0
  {
    exists i :: 0 <= i < |keys| && HitBy(keys[i], k, m, b)
  }

  predicate HitBy(key: Bytes, k: nat, m: nat, b: nat)
    requires m > 0
  {
    exists j :: 0 <= j < k && Position(key, m, j) == b
  }

  /** Setting bit `b` of a run of words sets that bit and no other. */
  function WithBit(words: seq<Word>, b: nat): (r: seq<Word>)
    requires b < 64 * |words|
    ensures |r| == |words| && forall c :: 0 <= c < 64 * |words| ==> (BitOf(r, c) <==> c == b || BitOf(words, c))
  {
    var r := words[b / 64 := words[b / 64][b % 64 := true]];
    assert forall c :: 0 <= c < 64 * |words| ==> (BitOf(r, c) <==> c == b || BitOf(words, c)) by {
      forall c | 0 <= c < 64 * |words|
        ensures BitOf(r, c) <==> c == b || BitOf(words, c)
      {
        assert c == 64 * (c / 64) + c % 64 && b == 64 * (b / 64) + b % 64;
      }
    }
    r
  }

  /** A filter under construction. `keys` are the keys added so far. */
  class Builder {
    const k: U64
    const m: U64
    const nCapacity: U64
    const p: U64
    var nElements: nat
    const bits: array<Word>
    ghost var keys: seq<Bytes>

    /** The bits set are exactly those some added key probes. */
    ghost predicate Valid()
      reads this, bits
    {
      && m > 0 && bits.Length == (m + 63) / 64 && nElements == |keys|
      && forall b :: 0 <= b < 64 * bits.Length ==> (BitOf(bits[..], b) <==> Hit(keys, k, m, b))
    }

    /** `m` and `k` as sized for `n` keys at rate `p`. */
    constructor (n: U64, p: U64, m: U64, k: U64)
      requires m > 0
      ensures Valid() && keys == [] && this.k == k && this.m == m && this.nCapacity == n && this.p == p && fresh(bits)
    {
      this.k, this.m, this.nCapacity, this.p := k, m, n, p;
      nElements, keys := 0, [];
      bits := new Word[(m + 63) / 64](_ => Zero());
    }

    method Add(value: Bytes)
      requires Valid()
      modifies this, bits
      ensures Valid() && keys == old(keys) + [value]
    {
      var start := HashOf(value);
      var h: U64 := start % MOD;
      var i := 0;
      while i < k
        invariant 0 <= i <= k && h == Round(value, i) && keys == old(keys) && nElements == old(nElements)
        invariant forall b :: 0 <= b < 64 * bits.Length ==> (BitOf(bits[..], b) <==> Hit(old(keys), k, m, b) || HitBy(value, i, m, b))
      {
        h := ((h * G) % TWO64) % MOD;
        var bit := h % m;
        ghost var was := bits[..];
        bits[bit / 64] := bits[bit / 64][bit % 64 := true];
        assert bits[..] == WithBit(was, bit);
        NextProbe(value, i, m, bit);
        i := i + 1;
      }
      OneKeyMore(keys, value, k, m);
      keys := keys + [value];
      nElements := nElements + 1;
    }

    function HeaderNow(): Header
      requires nElements < TWO64
      reads this
    {
      Header(1, nCapacity, p, k, m, nElements)
    }

    /** The file opens as the filter it is, its bits set exactly where an added key probes. */
    method Write() returns (file: Bytes)
      requires Valid() && nElements < TWO64
      ensures Open(file) == Ok(Header(1, nCapacity, p, k, m, |keys|)) && Covers(file, m)
      ensures forall b :: 0 <= b < m ==> (FileBit(file, m, b) <==> Hit(keys, k, m, b))
      ensures forall i :: 0 <= i < |keys| ==> Accepts(file, k, m, keys[i])
    {
      file := HeaderNow().ToBytes();
      var i := 0;
      while i < bits.Length
        invariant 0 <= i <= bits.Length && file == HeaderNow().ToBytes() + WordsBytes(bits[..i])
      {
        file := file + WordBytes(bits[i]);
        assert bits[..i + 1][..i] == bits[..i];
        i := i + 1;
      }
      assert bits[..i] == bits[..];
      FileOfWords(HeaderNow(), bits[..]);
      ghost var written := file;
      forall b | 0 <= b < m
        ensures FileBit(written, m, b) <==> Hit(keys, k, m, b)
      {
        WrittenBit(HeaderNow(), bits[..], b);
      }
      forall x | 0 <= x < |keys|
        ensures Accepts(written, k, m, keys[x])
      {
        HitIsAccepted(written, keys, k, m, x);
      }
    }
  }

  lemma NextProbe(value: Bytes, i: nat, m: nat, bit: nat)
    requires m > 0 && bit == Position(value, m, i)
    ensures forall b :: HitBy(value, i + 1, m, b) <==> HitBy(value, i, m, b) || b == bit
  {
    forall b: nat
      ensures HitBy(value, i + 1, m, b) <==> HitBy(value, i, m, b) || b == bit
    {
      if HitBy(value, i, m, b) {
        var j :| 0 <= j < i && Position(value, m, j) == b;
      }
    }
  }

  lemma OneKeyMore(keys: seq<Bytes>, value: Bytes, k: nat, m: nat)
    requires m > 0
    ensures forall b :: Hit(keys + [value], k, m, b) <==> Hit(keys, k, m, b) || HitBy(value, k, m, b)
  {
    forall b: nat
      ensures Hit(keys + [value], k, m, b) <==> Hit(keys, k, m, b) || HitBy(value, k, m, b)
    {
      var more := keys + [value];
      if Hit(keys, k, m, b) {
        var i :| 0 <= i < |keys| && HitBy(keys[i], k, m, b);
        assert more[i] == keys[i];
      }
      if HitBy(value, k, m, b) {
        assert more[|keys|] == value;
      }
    }
  }

  /** Bit `b` of a filter's `m`. */
  predicate FileBit(file: Bytes, m: nat, b: nat)
    requires Covers(file, m) && b < m
  {
    WordInside(file, m, b);
    BitSet(file, b)
  }

  lemma FileOfWords(h: Header, words: seq<Word>)
    requires h.version % 256 == 1 && |words| >= h.BitWords()
    ensures Open(h.ToBytes() + WordsBytes(words)) == Ok(h) && Covers(h.ToBytes() + WordsBytes(words), h.m)
  {
    HeaderReadsBack(h, WordsBytes(words));
  }

  lemma WrittenBit(h: Header, words: seq<Word>, b: nat)
    requires b < 64 * |words|
    ensures HEADER_LEN + 8 * (b / 64) + 8 <= |h.ToBytes() + WordsBytes(words)|
    ensures BitSet(h.ToBytes() + WordsBytes(words), b) <==> BitOf(words, b)
  {
    WrittenWordReads(h.ToBytes(), words, [], b / 64);
    assert h.ToBytes() + WordsBytes(words) + [] == h.ToBytes() + WordsBytes(words);
  }

  lemma HitIsAccepted(file: Bytes, keys: seq<Bytes>, k: nat, m: nat, x: nat)
    requires Covers(file, m) && m > 0 && x < |keys|
    requires forall b :: 0 <= b < m ==> (FileBit(file, m, b) <==> Hit(keys, k, m, b))
    ensures Accepts(file, k, m, keys[x])
  {
    forall i | 0 <= i < k
      ensures Probed(file, m, keys[x], i)
    {
      var b := Position(keys[x], m, i);
      assert HitBy(keys[x], k, m, b);
      assert FileBit(file, m, b);
    }
  }
}
