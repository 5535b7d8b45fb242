/** Folding a filter: the second half of its bits unioned onto the first, word by shifted word. */
module BloomFold {
  import opened Wrappers
  import opened ByteStrings
  import opened BitFields
  import opened BloomWords
  import opened Dcso
  import opened BloomFilter

  /** Word `i` of the source bits: nothing past the last word, nothing past bit `m`. */
  function SourceWord(file: Bytes, m: nat, i: nat): Word
    requires Covers(file, m)
  {
    if i >= (m + 63) / 64 then Zero()
    else if i == (m + 63) / 64 - 1 && m % 64 != 0 then Low(ReadWord(file, HEADER_LEN + i * 8), m % 64)
    else ReadWord(file, HEADER_LEN + i * 8)
  }

  /** Bit `b` of the source, and nothing beyond the `m` it has. */
  predicate SourceBit(file: Bytes, m: nat, b: nat)
    requires Covers(file, m)
  {
    b < m && FileBit(file, m, b)
  }

  lemma Place(i: nat, t: nat)
    requires t < 64
    ensures (64 * i + t) / 64 == i && (64 * i + t) % 64 == t
  {
  }

  /** Where word `i` stands among the words of `m` bits. */
  lemma LastWord(m: nat, i: nat)
    ensures i >= (m + 63) / 64 ==> 64 * i >= m
    ensures i + 1 == (m + 63) / 64 && m % 64 != 0 ==> m == 64 * i + m % 64
    ensures i + 1 < (m + 63) / 64 || (i + 1 == (m + 63) / 64 && m % 64 == 0) ==> 64 * i + 64 <= m
  {
  }

  lemma SourceWordBit(file: Bytes, m: nat, i: nat, t: nat)
    requires Covers(file, m) && t < 64
    ensures SourceWord(file, m, i)[t] <==> SourceBit(file, m, 64 * i + t)
  {
    hide ReadWord;
    Place(i, t);
    LastWord(m, i);
  }

  /** The 64 source bits at bit offset `o`, put together from two words unless `o` is on a word. */
  function WordAt(file: Bytes, m: nat, o: nat): Word
    requires Covers(file, m)
  {
    if o % 64 == 0 then SourceWord(file, m, o / 64)
    else Or(Shr(SourceWord(file, m, o / 64), o % 64), Shl(SourceWord(file, m, o / 64 + 1), 64 - o % 64))
  }

  /** Off a word, the 64 bits are as a number the low word divided down plus the high word multiplied up,
      with what passes 64 bits dropped: what the two shifts leave never overlaps. */
  lemma WordAtIsArithmetic(file: Bytes, m: nat, o: nat)
    requires Covers(file, m) && o % 64 != 0
    ensures Nat(WordAt(file, m, o)) == Nat(SourceWord(file, m, o / 64)) / Pow2(o % 64)
                                       + (Pow2(64 - o % 64) * Nat(SourceWord(file, m, o / 64 + 1))) % Pow2(64)
  {
    hide SourceWord, Nat, Pow2;
    var low, high, n := SourceWord(file, m, o / 64), SourceWord(file, m, o / 64 + 1), o % 64;
    ShiftsAreArithmetic(low, n);
    ShiftsAreArithmetic(high, 64 - n);
    ShiftsAddUp(low, high, n);
  }

  /** Word `j` of the fold: the source word `j` and the 64 bits `m / 2` further on, cut at the fold's size. */
  function FoldedWord(file: Bytes, m: nat, j: nat): Word
    requires Covers(file, m)
  {
    if j + 1 == (m / 2 + 63) / 64 && m / 2 % 64 != 0
    then Low(Or(SourceWord(file, m, j), WordAt(file, m, m / 2 + 64 * j)), m / 2 % 64)
    else Or(SourceWord(file, m, j), WordAt(file, m, m / 2 + 64 * j))
  }

  /** What folding is for: bit `b` of the fold is bit `b` or bit `b + m / 2` of the source. */
  predicate FoldedBit(file: Bytes, m: nat, b: nat)
    requires Covers(file, m)
  {
    b < m / 2 && (SourceBit(file, m, b) || SourceBit(file, m, b + m / 2))
  }

  lemma Spread(o: nat, t: nat)
    ensures 64 * (o / 64) + (o % 64 + t) == o + t && 64 * (o / 64 + 1) + (o % 64 + t - 64) == o + t
  {
  }

  lemma WordAtBit(file: Bytes, m: nat, o: nat, t: nat)
    requires Covers(file, m) && t < 64
    ensures WordAt(file, m, o)[t] <==> SourceBit(file, m, o + t)
  {
    hide SourceWord, SourceBit, Shr, Shl, Or;
    var wi, sh := o / 64, o % 64;
    if sh + t < 64 {
      SourceWordBit(file, m, wi, sh + t);
    } else {
      SourceWordBit(file, m, wi + 1, sh + t - 64);
    }
    Spread(o, t);
  }

  /** The shifted words compute exactly the folded bits, and leave none past the fold's size. */
  lemma FoldedWordBit(file: Bytes, m: nat, j: nat, t: nat)
    requires Covers(file, m) && m % 2 == 0 && j < (m / 2 + 63) / 64 && t < 64
    ensures FoldedWord(file, m, j)[t] <==> FoldedBit(file, m, 64 * j + t)
  {
    hide SourceWord, SourceBit, WordAt;
    var m2 := m / 2;
    WordAtBit(file, m, m2 + 64 * j, t);
    SourceWordBit(file, m, j, t);
    LastWord(m2, j);
  }

  // ------------------------------------------------------------- counting

  /** How many of the first `n` bits of the fold are set. */
  function FoldedOnes(file: Bytes, m: nat, n: nat): nat
    requires Covers(file, m)
  {
    if n == 0 then 0 else FoldedOnes(file, m, n - 1) + (if FoldedBit(file, m, n - 1) then 1 else 0)
  }

  lemma {:induction false} OnesCount(file: Bytes, m: nat, j: nat, n: nat)
    requires Covers(file, m) && m % 2 == 0 && j < (m / 2 + 63) / 64 && n <= 64
    ensures FoldedOnes(file, m, 64 * j + n) == FoldedOnes(file, m, 64 * j) + Ones(FoldedWord(file, m, j)[..n])
  {
    hide FoldedWord, FoldedBit;
    if n > 0 {
      OnesCount(file, m, j, n - 1);
      FoldedWordBit(file, m, j, n - 1);
      var w := FoldedWord(file, m, j);
      assert w[..n][..n - 1] == w[..n - 1];
    }
  }

  lemma {:induction false} NoOnesPast(file: Bytes, m: nat, n: nat)
    requires Covers(file, m) && n >= m / 2
    ensures FoldedOnes(file, m, n) == FoldedOnes(file, m, m / 2)
  {
    if n > m / 2 {
      NoOnesPast(file, m, n - 1);
    }
  }

  // ------------------------------------------------------------- the fold

  datatype FoldStats = FoldStats(mOld: nat, mNew: nat, ones: nat, pNew: U64)

  /** `dst` is `src` folded: half the bits, each the union of the two it stands for; the key count,
      probe count and capacity unchanged. */
  ghost predicate IsFold(src: Bytes, dst: Bytes) {
    && Open(src).Ok? && Open(dst).Ok?
    && var a, b := Open(src).value, Open(dst).value;
    && a.m % 2 == 0 && b.m == a.m / 2 && b.k == a.k && b.nCapacity == a.nCapacity && b.nElements == a.nElements
    && BitsFold(src, a.m, dst)
  }

  predicate BitsFold(src: Bytes, m: nat, dst: Bytes)
    requires Covers(src, m) && Covers(dst, m / 2) && m % 2 == 0
  {
    forall i :: 0 <= i < m / 2 ==> (FileBit(dst, m / 2, i) <==> EitherHalf(src, m, i))
  }

  /** One of the two bits that bit `p` of the fold stands for is set. */
  predicate EitherHalf(src: Bytes, m: nat, p: nat)
    requires Covers(src, m) && m % 2 == 0 && p < m / 2
  {
    FileBit(src, m, p) || FileBit(src, m, p + m / 2)
  }

  /** The bits of the last word past the filter's size are clear. */
  predicate TailClear(dst: Bytes, m: nat)
    requires Covers(dst, m)
  {
    forall b :: m <= b < 64 * ((m + 63) / 64) ==> !WordBit(dst, m, b)
  }

  predicate WordBit(dst: Bytes, m: nat, b: nat)
    requires Covers(dst, m) && b < 64 * ((m + 63) / 64)
  {
    BitSet(dst, b)
  }

  lemma FoldTailClear(src: Bytes, h: Header, p: U64, words: seq<Word>)
    requires Covers(src, h.m) && h.m % 2 == 0 && |words| == (h.m / 2 + 63) / 64 && FoldedWords(src, h.m, words)
    requires Covers(FoldedHeader(h, p).ToBytes() + WordsBytes(words), h.m / 2)
    ensures TailClear(FoldedHeader(h, p).ToBytes() + WordsBytes(words), h.m / 2)
  {
    hide BitOf, BitSet;
    WordsAreFolded(src, h.m, words);
    TailClearOf(FoldedHeader(h, p), words, src, h.m);
  }

  lemma TailClearOf(to: Header, words: seq<Word>, src: Bytes, m: nat)
    requires Covers(src, m) && m % 2 == 0 && to.m == m / 2 && |words| == (to.m + 63) / 64
    requires forall b :: 0 <= b < 64 * |words| ==> (BitOf(words, b) <==> FoldedBit(src, m, b))
    requires Covers(to.ToBytes() + WordsBytes(words), to.m)
    ensures TailClear(to.ToBytes() + WordsBytes(words), to.m)
  {
    hide BitOf, BitSet, SourceBit;
    forall b | to.m <= b < 64 * ((to.m + 63) / 64)
      ensures !WordBit(to.ToBytes() + WordsBytes(words), to.m, b)
    {
      WrittenBit(to, words, b);
      assert !FoldedBit(src, m, b);
    }
  }

  lemma HeaderPatched(h: Header, p: U64, rest: Bytes)
    ensures var f := h.ToBytes() + rest; f[..16] + WordBytes(Bits(p, 64)) + f[24..] == h.(p := p).ToBytes() + rest
  {
    hide WordBytes;
    var a, b := Words(h.Fields()), Words(h.(p := p).Fields());
    var f := h.ToBytes() + rest;
    var patched := h.ToBytes()[..16] + WordBytes(Bits(p, 64)) + h.ToBytes()[24..];
    forall i | 0 <= i < 6
      ensures WordBytes(b[i]) == patched[8 * i..8 * i + 8]
    {
      WordsBytesAt(a, i);
      assert a[i] == b[i] || i == 2;
      assert i < 2 ==> patched[8 * i..8 * i + 8] == h.ToBytes()[8 * i..8 * i + 8];
      assert i > 2 ==> patched[8 * i..8 * i + 8] == h.ToBytes()[8 * i..8 * i + 8];
    }
    WordsSpell(b, patched);
    assert f[..16] + WordBytes(Bits(p, 64)) + f[24..] == patched + rest;
  }

  /** The words of a fold. */
  predicate FoldedWords(file: Bytes, m: nat, words: seq<Word>)
    requires Covers(file, m)
  {
    forall j :: 0 <= j < |words| ==> words[j] == FoldedWord(file, m, j)
  }

  lemma WordsAreFolded(src: Bytes, m: nat, words: seq<Word>)
    requires Covers(src, m) && m % 2 == 0 && |words| == (m / 2 + 63) / 64 && FoldedWords(src, m, words)
    ensures forall b :: 0 <= b < 64 * |words| ==> (BitOf(words, b) <==> FoldedBit(src, m, b))
  {
    hide FoldedWord, FoldedBit;
    forall b | 0 <= b < 64 * |words|
      ensures BitOf(words, b) <==> FoldedBit(src, m, b)
    {
      FoldedWordBit(src, m, b / 64, b % 64);
      Place(b / 64, b % 64);
    }
  }

  /** The header a fold gets: half the bits and a new rate. */
  function FoldedHeader(h: Header, p: U64): Header {
    Header(1, h.nCapacity, p, h.k, h.m / 2, h.nElements)
  }

  lemma FoldedFile(src: Bytes, h: Header, p: U64, words: seq<Word>)
    requires Open(src) == Ok(h) && Covers(src, h.m) && h.m % 2 == 0
    requires |words| == (h.m / 2 + 63) / 64 && FoldedWords(src, h.m, words)
    ensures IsFold(src, FoldedHeader(h, p).ToBytes() + WordsBytes(words))
    ensures Open(FoldedHeader(h, p).ToBytes() + WordsBytes(words)) == Ok(FoldedHeader(h, p))
  {
    hide FoldedWords, Open, BitOf, FileBit, BitsFold;
    var to := FoldedHeader(h, p);
    var dst := to.ToBytes() + WordsBytes(words);
    FileOfWords(to, words);
    WordsAreFolded(src, h.m, words);
    FoldedFileBits(src, h.m, to, words);
  }

  lemma FoldedFileBits(src: Bytes, m: nat, to: Header, words: seq<Word>)
    requires Covers(src, m) && m % 2 == 0 && to.m == m / 2 && |words| == (m / 2 + 63) / 64
    requires forall b :: 0 <= b < 64 * |words| ==> (BitOf(words, b) <==> FoldedBit(src, m, b))
    requires Covers(to.ToBytes() + WordsBytes(words), to.m)
    ensures BitsFold(src, m, to.ToBytes() + WordsBytes(words))
  {
    hide FileBit, BitOf, FoldedBit;
    forall i | 0 <= i < m / 2
      ensures FileBit(to.ToBytes() + WordsBytes(words), m / 2, i) <==> EitherHalf(src, m, i)
    {
      FoldedFileBit(src, m, to, words, i);
    }
  }

  lemma FoldedFileBit(src: Bytes, m: nat, to: Header, words: seq<Word>, i: nat)
    requires Covers(src, m) && m % 2 == 0 && to.m == m / 2 && i < to.m && |words| == (m / 2 + 63) / 64
    requires forall b :: 0 <= b < 64 * |words| ==> (BitOf(words, b) <==> FoldedBit(src, m, b))
    requires Covers(to.ToBytes() + WordsBytes(words), to.m)
    ensures FileBit(to.ToBytes() + WordsBytes(words), to.m, i) <==> FileBit(src, m, i) || FileBit(src, m, i + to.m)
  {
    hide BitOf, BitSet;
    WrittenBit(to, words, i);
    FoldedBitIs(src, m, i);
  }

  lemma FoldedBitIs(src: Bytes, m: nat, i: nat)
    requires Covers(src, m) && m % 2 == 0 && i < m / 2
    ensures FoldedBit(src, m, i) <==> FileBit(src, m, i) || FileBit(src, m, i + m / 2)
  {
  }

  /** The word loop: the folded words written after what is there, and their set bits counted. */
  method WriteFold(src: Bytes, m: nat, head: Bytes) returns (out: Bytes, ones: nat, ghost words: seq<Word>)
    requires Covers(src, m) && m % 2 == 0
    ensures |words| == (m / 2 + 63) / 64 && FoldedWords(src, m, words)
    ensures out == head + WordsBytes(words)
    ensures ones == FoldedOnes(src, m, m / 2)
  {
    hide FoldedBit, FoldedWord, ReadWord, Covers, WordBytes;
    var m2 := m / 2;
    var words2 := (m2 + 63) / 64;
    out, ones, words := head, 0, [];
    var j := 0;
    while j < words2
      invariant 0 <= j <= words2 && |words| == j && FoldedWords(src, m, words) && out == head + WordsBytes(words)
      invariant ones == FoldedOnes(src, m, 64 * j)
    {
      var d := FoldedWord(src, m, j);
      OnesCount(src, m, j, 64);
      assert d[..64] == d;
      ones := ones + Ones(d);
      out := out + WordBytes(d);
      assert (words + [d])[..j] == words;
      words := words + [d];
      j := j + 1;
    }
    NoOnesPast(src, m, 64 * words2);
  }

  /** `fold`. `measured` stands for the false-positive estimate worked out from the fill. */
  method Fold(src: Bytes, measured: (nat, nat, nat) -> U64) returns (r: Result<(Bytes, FoldStats), HeaderError>)
    ensures Parse(src).Err? ==> r == Err(Parse(src).error)
    ensures Parse(src).Ok? && Parse(src).value.m % 2 != 0 ==> r == Err(OddBits(Parse(src).value.m))
    ensures Parse(src).Ok? && Parse(src).value.m % 2 == 0 ==> (r.Err? <==> Open(src).Err?) && (r.Err? ==> r.error == Truncated)
    ensures r.Ok? ==> IsFold(src, r.value.0) && TailClear(r.value.0, Open(src).value.m / 2)
    ensures r.Ok? ==> var h, stats := Open(src).value, r.value.1;
      && stats.mOld == h.m && stats.mNew == h.m / 2 && stats.ones == FoldedOnes(src, h.m, h.m / 2)
      && stats.pNew == measured(stats.ones, h.m / 2, h.k)
      && Open(r.value.0) == Ok(Header(1, h.nCapacity, stats.pNew, h.k, h.m / 2, h.nElements))
    ensures r.Ok? ==> |r.value.0| == HEADER_LEN + 8 * ((Open(src).value.m / 2 + 63) / 64)
  {
    hide IsFold, TailClear, FoldedOnes, FoldedWords, WordBytes, ReadWord;
    var parsed := Parse(src);
    if parsed.Err? {
      return Err(parsed.error);
    }
    var h := parsed.value;
    if h.m % 2 != 0 {
      return Err(OddBits(h.m));
    }
    if |src| < HEADER_LEN + 8 * h.BitWords() {
      return Err(Truncated);
    }
    var out, ones, words := WriteFold(src, h.m, FoldedHeader(h, 0).ToBytes());
    var pNew := measured(ones, h.m / 2, h.k);
    HeaderPatched(FoldedHeader(h, 0), pNew, WordsBytes(words));
    out := out[..16] + WordBytes(Bits(pNew, 64)) + out[24..];
    FoldedFile(src, h, pNew, words);
    FoldTailClear(src, h, pNew, words);
    r := Ok((out, FoldStats(h.m, h.m / 2, ones, pNew)));
  }

  // ------------------------------------------------------------- what folding keeps

  function Mod(h: nat, m: nat): nat
    requires m > 0
  {
    h % m
  }

  lemma Remainder(h: nat, m: nat) returns (q: nat)
    requires m > 0
    ensures h == m * q + Mod(h, m) && Mod(h, m) < m
  {
    q := h / m;
  }

  lemma ModIs(h: nat, m: nat, q: nat, r: nat)
    requires m > 0 && h == m * q + r && r < m
    ensures Mod(h, m) == r
  {
    Quotient(h, m, q, r);
  }

  lemma Regroup(m2: nat, q: nat, r: int)
    ensures (2 * m2) * q + r == m2 * (2 * q) + r
    ensures (2 * m2) * q + r == m2 * (2 * q + 1) + (r - m2)
  {
  }

  /** Where the fold's positions come from: a probe modulo twice `m2` is the probe modulo `m2`, in one
      half or the other. */
  lemma HalfModulus(h: nat, m2: nat)
    requires m2 > 0
    ensures Mod(h, 2 * m2) == Mod(h, m2) || Mod(h, 2 * m2) == Mod(h, m2) + m2
  {
    hide Mod;
    var q := Remainder(h, 2 * m2);
    var r := Mod(h, 2 * m2);
    Regroup(m2, q, r);
    if r < m2 {
      ModIs(h, m2, 2 * q, r);
    } else {
      ModIs(h, m2, 2 * q + 1, r - m2);
    }
  }

  lemma HalfPosition(key: Bytes, m: nat, m2: nat, i: nat)
    requires m2 > 0 && m == 2 * m2
    ensures Position(key, m, i) == Position(key, m2, i) || Position(key, m, i) == Position(key, m2, i) + m2
  {
    HalfModulus(Round(key, i + 1), m2);
    assert 2 * m2 == m;
  }

  /** A probe of the fold finds its bit exactly if either source bit it stands for is set. */
  lemma FoldProbe(src: Bytes, dst: Bytes, key: Bytes, i: nat)
    requires IsFold(src, dst) && Open(dst).value.m > 0
    ensures var m, m2 := Open(src).value.m, Open(dst).value.m;
      && m % 2 == 0 && Position(key, m2, i) < m / 2
      && (Probed(dst, m2, key, i) <==> EitherHalf(src, m, Position(key, m2, i)))
      && (Probed(src, m, key, i) ==> Probed(dst, m2, key, i))
  {
    hide Open, Round, BitSet;
    var m, m2 := Open(src).value.m, Open(dst).value.m;
    HalfPosition(key, m, m2, i);
    assert FileBit(dst, m / 2, Position(key, m2, i)) <==> EitherHalf(src, m, Position(key, m2, i));
  }

  /** Every key accepted before a fold is accepted after it; what is accepted after is exactly what
      finds, at each probe, one of the two bits it now stands for. */
  lemma FoldKeepsMembers(src: Bytes, dst: Bytes, key: Bytes)
    requires IsFold(src, dst) && Open(dst).value.m > 0
    ensures var a, b := Open(src).value, Open(dst).value;
      && (Accepts(src, a.k, a.m, key) ==> Accepts(dst, b.k, b.m, key))
      && (Accepts(dst, b.k, b.m, key) <==>
            forall i :: 0 <= i < a.k ==> EitherHalf(src, a.m, Position(key, b.m, i)))
  {
    hide Open, Probed, EitherHalf, IsFold;
    FoldShape(src, dst);
    var a, b := Open(src).value, Open(dst).value;
    forall i | 0 <= i < a.k
      ensures Probed(src, a.m, key, i) ==> Probed(dst, b.m, key, i)
      ensures Probed(dst, b.m, key, i) <==> EitherHalf(src, a.m, Position(key, b.m, i))
    {
      FoldProbe(src, dst, key, i);
    }
  }

  lemma FoldShape(src: Bytes, dst: Bytes)
    requires IsFold(src, dst)
    ensures Open(src).Ok? && Open(dst).Ok? && Open(src).value.m == 2 * Open(dst).value.m && Open(src).value.k == Open(dst).value.k
  {
    hide Open, BitsFold;
  }

  /** Filters each the fold of the one before. */
  ghost predicate FoldChain(files: seq<Bytes>) {
    |files| > 0 && forall i :: 0 <= i < |files| - 1 ==> IsFold(files[i], files[i + 1])
  }

  /** However often a filter is folded, no member is lost, and every fold halves it. */
  lemma {:induction false} FoldsKeepMembers(files: seq<Bytes>, key: Bytes)
    requires FoldChain(files) && Open(files[0]).Ok?
    ensures var first, last := Open(files[0]).value, Open(files[|files| - 1]);
      last.Ok? && last.value.k == first.k && first.m == Pow2(|files| - 1) * last.value.m
    ensures var first, last := Open(files[0]).value, Open(files[|files| - 1]).value;
      last.m > 0 && first.m > 0 && Accepts(files[0], first.k, first.m, key) ==> Accepts(files[|files| - 1], last.k, last.m, key)
  {
    hide Open, Accepts, IsFold;
    if |files| > 1 {
      var n := |files| - 1;
      assert IsFold(files[n - 1], files[n - 1 + 1]);
      FoldsKeepMembers(files[..n], key);
      FoldShape(files[n - 1], files[n]);
      Double(Pow2(n - 1), Open(files[n]).value.m);
      Halves(Pow2(n - 1), Open(files[n]).value.m);
      if Open(files[n]).value.m > 0 {
        FoldKeepsMembers(files[n - 1], files[n], key);
      }
    }
  }

  lemma Halves(p: nat, x: nat)
    ensures p * (2 * x) == (2 * p) * x
  {
  }
}
