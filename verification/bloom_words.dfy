/** The 64-bit words of a membership filter, least significant bit first, and the shifts, masks and
    unions folding does on them. */
module BloomWords {
  import opened ByteStrings
  import opened BitFields

  type Word = w: seq<bool> | |w| == 64 witness seq(64, _ => false)

  function Zero(): (r: Word)
    ensures forall i :: 0 <= i < 64 ==> !r[i]
  {
    seq(64, _ => false)
  }

  function Or(a: Word, b: Word): (r: Word)
    ensures forall i :: 0 <= i < 64 ==> (r[i] <==> a[i] || b[i])
  {
    seq(64, i requires 0 <= i < 64 => a[i] || b[i])
  }

  /** `w >> n`. */
  function Shr(w: Word, n: nat): (r: Word)
    requires n < 64
    ensures forall i :: 0 <= i < 64 ==> (r[i] <==> i + n < 64 && w[i + n])
  {
    w[n..] + seq(n, _ => false)
  }

  /** `w << n`. */
  function Shl(w: Word, n: nat): (r: Word)
    requires n < 64
    ensures forall i :: 0 <= i < 64 ==> (r[i] <==> i >= n && w[i - n])
  {
    seq(n, _ => false) + w[..64 - n]
  }

  /** `w & ((1 << n) - 1)`. */
  function Low(w: Word, n: nat): (r: Word)
    requires n < 64
    ensures forall i :: 0 <= i < 64 ==> (r[i] <==> i < n && w[i])
  {
    w[..n] + seq(64 - n, _ => false)
  }

  /** Moving bits is the arithmetic of a 64-bit number: a right shift divides, a left shift multiplies
      and wraps, a mask takes the remainder. */
  lemma ShiftsAreArithmetic(w: Word, n: nat)
    requires n < 64
    ensures Nat(Shr(w, n)) == Nat(w) / Pow2(n)
    ensures Nat(Shl(w, n)) == (Pow2(n) * Nat(w)) % Pow2(64)
    ensures Nat(Low(w, n)) == Nat(w) % Pow2(n)
  {
    hide Nat, Pow2;
    ShiftAndMask(w, n);
    NatConcat(w[n..], seq(n, _ => false));
    NoBits(n);
    NatConcat(w[..n], seq(64 - n, _ => false));
    NoBits(64 - n);
    ShiftedOut(w, n);
  }

  lemma {:induction false} NoBits(n: nat)
    ensures Nat(seq(n, _ => false)) == 0
  {
    if n > 0 {
      NoBits(n - 1);
      assert seq(n, _ => false)[1..] == seq(n - 1, _ => false);
    }
  }

  lemma ShiftedOut(w: Word, n: nat)
    requires n < 64
    ensures Nat(seq(n, _ => false) + w[..64 - n]) == (Pow2(n) * Nat(w)) % Pow2(64)
  {
    hide Nat, Pow2;
    var zeros := seq(n, _ => false);
    NatConcat(zeros, w[..64 - n]);
    NoBits(n);
    NatConcat(zeros, w);
    ShiftAndMask(zeros + w, 64);
    assert (zeros + w)[..64] == zeros + w[..64 - n];
  }

  /** A right shift and the left shift that makes up the word have no bit in common: uniting them adds. */
  lemma ShiftsAddUp(low: Word, high: Word, n: nat)
    requires 0 < n < 64
    ensures Nat(Or(Shr(low, n), Shl(high, 64 - n))) == Nat(Shr(low, n)) + Nat(Shl(high, 64 - n))
  {
    hide Nat, Pow2;
    assert Or(Shr(low, n), Shl(high, 64 - n)) == low[n..] + high[..n];
    assert Shr(low, n) == low[n..] + seq(n, _ => false);
    assert Shl(high, 64 - n) == seq(64 - n, _ => false) + high[..n];
    NatConcat(low[n..], high[..n]);
    NatConcat(low[n..], seq(n, _ => false));
    NatConcat(seq(64 - n, _ => false), high[..n]);
    NoBits(n);
    NoBits(64 - n);
  }

  /** `w.count_ones()`. */
  function Ones(w: seq<bool>): nat {
    if w == [] then 0 else Ones(w[..|w| - 1]) + (if w[|w| - 1] then 1 else 0)
  }

  /** It is how many bits are set. */
  lemma {:induction false} OnesCounts(w: seq<bool>)
    ensures Ones(w) == |set i | 0 <= i < |w| && w[i]|
  {
    if w != [] {
      var n := |w| - 1;
      OnesCounts(w[..n]);
      var before, all := set i | 0 <= i < n && w[..n][i], set i | 0 <= i < |w| && w[i];
      assert all == if w[n] then before + {n} else before;
    }
  }

  // ------------------------------------------------------------- words in a file

  /** `u64::from_le_bytes` at byte `off`. */
  function ReadWord(file: Bytes, off: nat): (r: Word)
    requires off + 8 <= |file|
  {
    AllBits(file[off..off + 8])
  }

  function WordBytes(w: Word): (r: Bytes)
    ensures |r| == 8
  {
    ToBytes(w)
  }

  lemma {:induction false} BitsOfNat(bits: seq<bool>)
    ensures Bits(Nat(bits), |bits|) == bits
  {
    if bits != [] {
      BitsOfNat(bits[1..]);
      assert Nat(bits) / 2 == Nat(bits[1..]);
    }
  }

  lemma {:induction false} AllBitsOfBytes(bits: seq<bool>)
    requires |bits| % 8 == 0
    ensures AllBits(ToBytes(bits)) == bits
  {
    if bits != [] {
      AllBitsOfBytes(bits[8..]);
      BitsOfNat(bits[..8]);
      assert ToBytes(bits)[1..] == ToBytes(bits[8..]);
    }
  }

  function WordsBytes(words: seq<Word>): (r: Bytes)
    ensures |r| == 8 * |words|
  {
    if words == [] then [] else WordsBytes(words[..|words| - 1]) + WordBytes(words[|words| - 1])
  }

  /** Words written out after a header read back one by one. */
  lemma {:induction false} WrittenWordReads(header: Bytes, words: seq<Word>, tail: Bytes, i: nat)
    requires i < |words|
    ensures ReadWord(header + WordsBytes(words) + tail, |header| + 8 * i) == words[i]
  {
    var last := |words| - 1;
    if i == last {
      AllBitsOfBytes(words[i]);
      assert (header + WordsBytes(words) + tail)[|header| + 8 * i..|header| + 8 * i + 8] == WordBytes(words[i]);
    } else {
      WrittenWordReads(header, words[..last], WordBytes(words[last]) + tail, i);
      assert header + WordsBytes(words[..last]) + (WordBytes(words[last]) + tail) == header + WordsBytes(words) + tail;
    }
  }

  lemma {:induction false} WordsBytesAt(words: seq<Word>, i: nat)
    requires i < |words|
    ensures WordsBytes(words)[8 * i..8 * i + 8] == WordBytes(words[i])
  {
    hide WordBytes;
    var last := |words| - 1;
    if i < last {
      WordsBytesAt(words[..last], i);
      assert WordsBytes(words)[8 * i..8 * i + 8] == WordsBytes(words[..last])[8 * i..8 * i + 8];
    }
  }

  /** Bit `b` of a run of words. */
  predicate BitOf(words: seq<Word>, b: nat)
    requires b < 64 * |words|
  {
    words[b / 64][b % 64]
  }
}
