/** The DCSO filter format: its header, its membership hashing and the probe over any file. */
module Dcso {
  import opened Wrappers
  import opened ByteStrings
  import opened BitFields
  import opened BloomWords

  const TWO64: nat := 0x1_0000_0000_0000_0000

  const HEADER_LEN: nat := 48

  /** 2^64 - 87. */
  const MOD: nat := 18_446_744_073_709_551_529

  const G: nat := 18_446_744_073_709_550_147

  type U64 = v: nat | v < TWO64

  // ------------------------------------------------------------- header

  /** `p` is kept as the bit pattern of the float. */
  datatype Header = Header(version: U64, nCapacity: U64, p: U64, k: U64, m: U64, nElements: U64) {
    function Fields(): seq<U64> {
      [version, nCapacity, p, k, m, nElements]
    }

    function ToBytes(): (r: Bytes)
      ensures |r| == HEADER_LEN
    {
      WordsBytes(Words(Fields()))
    }

    /** Words the bit array takes. */
    function BitWords(): nat {
      (m + 63) / 64
    }
  }

  datatype HeaderError = TooShort | UnsupportedVersion(version: U64) | Truncated | OddBits(m: U64)

  function Words(vs: seq<U64>): (r: seq<Word>)
    ensures |r| == |vs|
  {
    seq(|vs|, i requires 0 <= i < |vs| => Bits(vs[i], 64))
  }

  lemma Pow64()
    ensures Pow2(64) == TWO64
  {
    assert Pow2(8) == 256 by { PowersOfTwo(); }
    assert Pow2(16) == 0x1_0000 by { PowersOfTwo(); }
    assert Pow2(20) == 0x10_0000;
    assert Pow2(24) == 0x100_0000;
    assert Pow2(28) == 0x1000_0000;
    assert Pow2(32) == 0x1_0000_0000;
    assert Pow2(36) == 0x10_0000_0000;
    assert Pow2(40) == 0x100_0000_0000;
    assert Pow2(44) == 0x1000_0000_0000;
    assert Pow2(48) == 0x1_0000_0000_0000;
    assert Pow2(52) == 0x10_0000_0000_0000;
    assert Pow2(56) == 0x100_0000_0000_0000;
    assert Pow2(60) == 0x1000_0000_0000_0000;
  }

  function U64At(bytes: Bytes, i: nat): U64
    requires 8 * i + 8 <= |bytes|
  {
    NatBounded(ReadWord(bytes, 8 * i));
    Pow64();
    Nat(ReadWord(bytes, 8 * i))
  }

  lemma U64IsLittleEndian(bytes: Bytes, i: nat)
    requires 8 * i + 8 <= |bytes|
    ensures U64At(bytes, i) == LittleEndian(bytes[8 * i..8 * i + 8])
  {
    BitsAreLittleEndian(bytes[8 * i..8 * i + 8]);
  }

  function Parse(bytes: Bytes): (r: Result<Header, HeaderError>)
    ensures r.Ok? ==> |bytes| >= HEADER_LEN && r.value.version % 256 == 1
  {
    if |bytes| < HEADER_LEN then Err(TooShort)
    else
      var version := U64At(bytes, 0);
      if version % 256 != 1 then Err(UnsupportedVersion(version))
      else Ok(Header(version, U64At(bytes, 1), U64At(bytes, 2), U64At(bytes, 3), U64At(bytes, 4), U64At(bytes, 5)))
  }

  lemma FieldReads(h: Header, rest: Bytes, i: nat)
    requires i < 6
    ensures U64At(h.ToBytes() + rest, i) == h.Fields()[i]
  {
    var words := Words(h.Fields());
    WrittenWordReads([], words, rest, i);
    assert [] + WordsBytes(words) + rest == h.ToBytes() + rest;
    Pow64();
    NatOfBits(h.Fields()[i], 64);
  }

  /** The header's six numbers follow one another, least significant byte first. */
  lemma FieldsInOrder(h: Header)
    ensures var b := h.ToBytes();
            && LittleEndian(b[..8]) == h.version && LittleEndian(b[8..16]) == h.nCapacity && LittleEndian(b[16..24]) == h.p
            && LittleEndian(b[24..32]) == h.k && LittleEndian(b[32..40]) == h.m && LittleEndian(b[40..48]) == h.nElements
  {
    hide U64At, LittleEndian;
    var b := h.ToBytes();
    assert b + [] == b;
    forall i | 0 <= i < 6
      ensures LittleEndian(b[8 * i..8 * i + 8]) == h.Fields()[i]
    {
      FieldReads(h, [], i);
      U64IsLittleEndian(b, i);
    }
    assert LittleEndian(b[8 * 0..8 * 0 + 8]) == h.Fields()[0] && LittleEndian(b[8 * 1..8 * 1 + 8]) == h.Fields()[1];
    assert LittleEndian(b[8 * 2..8 * 2 + 8]) == h.Fields()[2] && LittleEndian(b[8 * 3..8 * 3 + 8]) == h.Fields()[3];
    assert LittleEndian(b[8 * 4..8 * 4 + 8]) == h.Fields()[4] && LittleEndian(b[8 * 5..8 * 5 + 8]) == h.Fields()[5];
  }

  /** A written header parses back, whatever follows it, exactly when its version is one. */
  lemma HeaderReadsBack(h: Header, rest: Bytes)
    ensures Parse(h.ToBytes() + rest) == if h.version % 256 == 1 then Ok(h) else Err(UnsupportedVersion(h.version))
  {
    hide U64At;
    FieldReads(h, rest, 0);
    FieldReads(h, rest, 1);
    FieldReads(h, rest, 2);
    FieldReads(h, rest, 3);
    FieldReads(h, rest, 4);
    FieldReads(h, rest, 5);
  }

  lemma WordRewrites(bytes: Bytes, i: nat)
    requires 8 * i + 8 <= |bytes|
    ensures WordBytes(Bits(U64At(bytes, i), 64)) == bytes[8 * i..8 * i + 8]
  {
    BitsOfNat(ReadWord(bytes, 8 * i));
    BytesOfAllBits(bytes[8 * i..8 * i + 8]);
  }

  lemma {:induction false} WordsSpell(ws: seq<Word>, bytes: Bytes)
    requires |bytes| == 8 * |ws| && forall i :: 0 <= i < |ws| ==> WordBytes(ws[i]) == bytes[8 * i..8 * i + 8]
    ensures WordsBytes(ws) == bytes
  {
    hide WordBytes;
    if ws != [] {
      var n := |ws| - 1;
      forall i | 0 <= i < n
        ensures WordBytes(ws[..n][i]) == bytes[..8 * n][8 * i..8 * i + 8]
      {
        assert WordBytes(ws[i]) == bytes[8 * i..8 * i + 8];
        assert bytes[..8 * n][8 * i..8 * i + 8] == bytes[8 * i..8 * i + 8];
      }
      WordsSpell(ws[..n], bytes[..8 * n]);
      assert WordBytes(ws[n]) == bytes[8 * n..8 * n + 8];
    }
  }

  /** And a header that parses is the one its bytes spell. */
  lemma HeaderWritesBack(bytes: Bytes)
    requires Parse(bytes).Ok?
    ensures Parse(bytes).value.ToBytes() == bytes[..HEADER_LEN]
  {
    hide WordBytes, U64At;
    var ws := Words(Parse(bytes).value.Fields());
    forall i | 0 <= i < 6
      ensures WordBytes(ws[i]) == bytes[..HEADER_LEN][8 * i..8 * i + 8]
    {
      WordRewrites(bytes, i);
      assert ws[i] == Bits(U64At(bytes, i), 64);
      assert bytes[..HEADER_LEN][8 * i..8 * i + 8] == bytes[8 * i..8 * i + 8];
    }
    WordsSpell(ws, bytes[..HEADER_LEN]);
  }

  // ------------------------------------------------------------- hashing

  const FNV_PRIME: nat := 0x100000001b3

  /** The exclusive or of the low `n` bits. */
  function Xor(a: nat, b: nat, n: nat): (r: nat)
    ensures r < Pow2(n)
  {
    if n == 0 then 0 else (if a % 2 == b % 2 then 0 else 1) + 2 * Xor(a / 2, b / 2, n - 1)
  }

  /** What is put in shows: two different bytes give two different results. */
  lemma {:induction false} XorTells(x: nat, a: nat, b: nat, n: nat)
    requires a < Pow2(n) && b < Pow2(n)
    ensures Xor(x, a, n) == Xor(x, b, n) <==> a == b
  {
    if n > 0 {
      XorTells(x / 2, a / 2, b / 2, n - 1);
      assert a == 2 * (a / 2) + a % 2 && b == 2 * (b / 2) + b % 2;
    }
  }

  /** `h ^ b`: a byte's bits are in the low eight. */
  function XorByte(h: U64, b: Byte): (r: U64)
    ensures r / 256 == h / 256 && r % 256 == Xor(h % 256, b as nat, 8)
  {
    assert Pow2(8) == 256 by { PowersOfTwo(); }
    assert h == 256 * (h / 256) + h % 256;
    256 * (h / 256) + Xor(h % 256, b as nat, 8)
  }

  /** One step of FNV-1: a wrapping multiply, then an exclusive or into the low byte. */
  function FnvStep(h: U64, b: Byte): U64 {
    XorByte((h * FNV_PRIME) % TWO64, b)
  }

  function Fnv(data: Bytes): U64 {
    if data == [] then 0xcbf29ce484222325 else FnvStep(Fnv(data[..|data| - 1]), data[|data| - 1])
  }

  /** `fnv1_64`. */
  method HashOf(data: Bytes) returns (h: U64)
    ensures h == Fnv(data)
  {
    h := 0xcbf29ce484222325;
    var i := 0;
    while i < |data|
      invariant 0 <= i <= |data| && h == Fnv(data[..i])
    {
      h := (h * FNV_PRIME) % TWO64;
      h := XorByte(h, data[i]);
      i := i + 1;
      assert data[..i][..i - 1] == data[..i - 1];
    }
    assert data[..|data|] == data;
  }

  /** Only the low byte feels the last byte of the input: what FNV-1 is, and FNV-1a is not. */
  lemma LastByteIsLow(data: Bytes, a: Byte, b: Byte)
    ensures Fnv(data + [a]) / 256 == Fnv(data + [b]) / 256
    ensures Fnv(data + [a]) % 256 == Fnv(data + [b]) % 256 <==> a == b
  {
    assert (data + [a])[..|data|] == data && (data + [b])[..|data|] == data;
    var x := (Fnv(data) * FNV_PRIME) % TWO64;
    assert Pow2(8) == 256 by { PowersOfTwo(); }
    XorTells(x % 256, a as nat, b as nat, 8);
  }

  /** The hash after `i` rounds: the multiply wraps before the reduction. */
  function Round(value: Bytes, i: nat): U64 {
    if i == 0 then Fnv(value) % MOD else ((Round(value, i - 1) * G) % TWO64) % MOD
  }

  lemma KnownXor()
    ensures Xor(223, 97, 8) == 190
  {
    assert Xor(1, 0, 1) == 1;
    assert Xor(3, 1, 2) == 2;
    assert Xor(6, 3, 3) == 5;
    assert Xor(13, 6, 4) == 11;
    assert Xor(27, 12, 5) == 23;
    assert Xor(55, 24, 6) == 47;
    assert Xor(111, 48, 7) == 95;
    assert Xor(223, 97, 8) == 190;
  }

  /** The hash of one letter, and where its first round takes it. */
  lemma KnownHash()
    ensures Fnv([0x61]) == 0xaf63bd4c8601b7be
    ensures Round([0x61], 1) == 0x90aabfe30824a2ba
  {
    hide Xor, Fnv;
    KnownXor();
    KnownStep();
    assert Round([0x61], 0) == 0xaf63bd4c8601b7be % MOD;
  }

  lemma KnownStep()
    requires Xor(223, 97, 8) == 190
    ensures Fnv([0x61]) == 0xaf63bd4c8601b7be
  {
    hide Xor;
    assert [0x61][..0] == [];
    assert (0xcbf29ce484222325 * FNV_PRIME) % TWO64 == 0xaf63bd4c8601b7df;
    assert XorByte(0xaf63bd4c8601b7df, 0x61) == 0xaf63bd4c8601b7be;
  }

  /** The bit a key's probe `i` lands on among `m`. */
  function Position(value: Bytes, m: nat, i: nat): (r: nat)
    requires m > 0
    ensures r < m
  {
    Round(value, i + 1) % m
  }

  // ------------------------------------------------------------- probing

  predicate BitSet(file: Bytes, bit: nat)
    requires HEADER_LEN + 8 * (bit / 64) + 8 <= |file|
  {
    ReadWord(file, HEADER_LEN + 8 * (bit / 64))[bit % 64]
  }

  /** The file holds every word the bits need. */
  predicate Covers(file: Bytes, m: nat) {
    HEADER_LEN + 8 * ((m + 63) / 64) <= |file|
  }

  lemma WordInside(file: Bytes, m: nat, bit: nat)
    requires Covers(file, m) && bit < m
    ensures HEADER_LEN + 8 * (bit / 64) + 8 <= |file|
  {
  }

  predicate Probed(file: Bytes, m: nat, value: Bytes, i: nat)
    requires Covers(file, m) && m > 0
  {
    WordInside(file, m, Position(value, m, i));
    BitSet(file, Position(value, m, i))
  }

  /** The key's every probe finds its bit set. */
  predicate Accepts(file: Bytes, k: nat, m: nat, value: Bytes)
    requires Covers(file, m) && m > 0
  {
    forall i :: 0 <= i < k ==> Probed(file, m, value, i)
  }

  /** `check_with` over a file: stops at the first bit not set. A filter of no bits cannot be probed. */
  method CheckWith(file: Bytes, k: nat, m: nat, value: Bytes) returns (found: Option<bool>)
    requires Covers(file, m)
    ensures found.None? <==> k > 0 && m == 0
    ensures found.Some? && m > 0 ==> (found.value <==> Accepts(file, k, m, value))
    ensures k == 0 ==> found == Some(true)
  {
    if k == 0 {
      return Some(true);
    }
    if m == 0 {
      return None;
    }
    var start := HashOf(value);
    var h: U64 := start % MOD;
    var i := 0;
    while i < k
      invariant 0 <= i <= k && h == Round(value, i)
      invariant forall j :: 0 <= j < i ==> Probed(file, m, value, j)
    {
      h := ((h * G) % TWO64) % MOD;
      var bit := h % m;
      WordInside(file, m, bit);
      if !ReadWord(file, HEADER_LEN + 8 * (bit / 64))[bit % 64] {
        assert !Probed(file, m, value, i);
        return Some(false);
      }
      i := i + 1;
    }
    return Some(true);
  }

  /** `Bloom::open`: the header, provided the file holds the bits it promises. */
  function Open(file: Bytes): (r: Result<Header, HeaderError>)
    ensures r.Ok? ==> Covers(file, r.value.m)
  {
    match Parse(file)
    case Err(e) => Err(e)
    case Ok(h) => if |file| < HEADER_LEN + 8 * h.BitWords() then Err(Truncated) else Ok(h)
  }
}
