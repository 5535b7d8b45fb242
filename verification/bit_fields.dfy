/**
 Little-endian bit fields: numbers as bit strings, bytes cut from them, and the shift-and-mask
 reads that get a field back.
 */
module BitFields {
  import opened ByteStrings

  function Pow2(n: nat): (r: nat)
    ensures r > 0
  {
    if n == 0 then 1 else 2 * Pow2(n - 1)
  }

  /** The number a bit string stands for, least significant bit first. */
  function Nat(bits: seq<bool>): nat {
    if bits == [] then 0 else (if bits[0] then 1 else 0) + 2 * Nat(bits[1..])
  }

  /** The low `n` bits of `v`. */
  function Bits(v: nat, n: nat): (r: seq<bool>)
    ensures |r| == n
  {
    if n == 0 then [] else [v % 2 == 1] + Bits(v / 2, n - 1)
  }

  lemma {:induction false} NatOfBits(v: nat, n: nat)
    requires v < Pow2(n)
    ensures Nat(Bits(v, n)) == v
  {
    if n > 0 {
      NatOfBits(v / 2, n - 1);
      assert Bits(v, n)[1..] == Bits(v / 2, n - 1);
    }
  }

  lemma {:induction false} NatBounded(bits: seq<bool>)
    ensures Nat(bits) < Pow2(|bits|)
  {
    if bits != [] {
      NatBounded(bits[1..]);
    }
  }

  lemma {:induction false} NatConcat(a: seq<bool>, b: seq<bool>)
    ensures Nat(a + b) == Nat(a) + Pow2(|a|) * Nat(b)
  {
    if a == [] {
      assert a + b == b;
    } else {
      NatConcat(a[1..], b);
      assert (a + b)[1..] == a[1..] + b;
      Double(Pow2(|a| - 1), Nat(b));
    }
  }

  lemma Double(p: nat, x: nat)
    ensures 2 * (p * x) == (2 * p) * x
  {
  }

  lemma DivMod(x: nat, p: nat, y: nat)
    requires x < p
    ensures (x + p * y) / p == y && (x + p * y) % p == x
  {
    Quotient(x + p * y, p, y, x);
  }

  lemma Quotient(n: nat, p: nat, q: nat, r: nat)
    requires r < p && n == p * q + r
    ensures n / p == q && n % p == r
  {
    var d := q - n / p;
    assert n == p * (n / p) + n % p;
    Distributes(p, q, n / p);
    assert p * d == n % p - r;
    if d >= 1 {
      Grows(p, d);
    } else if d <= -1 {
      Grows(p, -d);
    }
  }

  lemma Distributes(p: int, a: int, b: int)
    ensures p * (a - b) == p * a - p * b
  {
  }

  lemma Grows(p: nat, d: nat)
    requires d >= 1
    ensures p * d >= p
  {
  }

  /** Shifting right drops low bits; masking keeps them. */
  lemma ShiftAndMask(bits: seq<bool>, n: nat)
    requires n <= |bits|
    ensures Nat(bits) / Pow2(n) == Nat(bits[n..]) && Nat(bits) % Pow2(n) == Nat(bits[..n])
  {
    hide Nat, Pow2;
    assert bits == bits[..n] + bits[n..];
    NatConcat(bits[..n], bits[n..]);
    NatBounded(bits[..n]);
    DivMod(Nat(bits[..n]), Pow2(n), Nat(bits[n..]));
  }

  // ------------------------------------------------------------- bytes

  function ToByte(bits: seq<bool>): Byte
    requires |bits| == 8
  {
    NatBounded(bits);
    assert Pow2(8) == 256 by { PowersOfTwo(); }
    Nat(bits)
  }

  lemma PowersOfTwo()
    ensures Pow2(2) == 4 && Pow2(7) == 128 && Pow2(8) == 256 && Pow2(11) == 2048 && Pow2(12) == 4096 && Pow2(16) == 65536
  {
    assert Pow2(4) == 16;
    assert Pow2(7) == 128;
    assert Pow2(10) == 1024;
    assert Pow2(13) == 8192;
  }

  /** A whole number of bytes, as the bytes they are stored in. */
  function ToBytes(bits: seq<bool>): (r: Bytes)
    requires |bits| % 8 == 0
    ensures |r| == |bits| / 8
  {
    if bits == [] then [] else [ToByte(bits[..8])] + ToBytes(bits[8..])
  }

  lemma {:induction false} ByteAt(bits: seq<bool>, k: nat)
    requires |bits| % 8 == 0 && k < |bits| / 8
    ensures ToBytes(bits)[k] == Nat(bits[8 * k..8 * k + 8])
  {
    if k > 0 {
      ByteAt(bits[8..], k - 1);
      CutTwice(bits, 8, |bits| - 8, 8 * (k - 1), 8 * (k - 1) + 8);
      assert bits[8..8 + (|bits| - 8)] == bits[8..];
      assert bits[8..][8 * (k - 1)..8 * (k - 1) + 8] == bits[8 * k..8 * k + 8];
    }
  }

  function Le32(b: Bytes, o: nat): nat
    requires o + 4 <= |b|
  {
    b[o] as int + 0x100 * (b[o + 1] as int) + 0x1_0000 * (b[o + 2] as int) + 0x100_0000 * (b[o + 3] as int)
  }

  lemma Le32IsBits(bits: seq<bool>, o: nat)
    requires |bits| % 8 == 0 && 8 * o + 32 <= |bits|
    ensures o + 4 <= |ToBytes(bits)| && Le32(ToBytes(bits), o) == Nat(bits[8 * o..8 * o + 32])
  {
    hide Nat, ToBytes;
    var p := 8 * o;
    ByteAt(bits, o);
    ByteAt(bits, o + 1);
    ByteAt(bits, o + 2);
    ByteAt(bits, o + 3);
    var a, b, c, d := bits[p..p + 8], bits[p + 8..p + 16], bits[p + 16..p + 24], bits[p + 24..p + 32];
    FourParts(bits, p);
    FourBytes(a, b, c, d);
  }

  lemma FourParts(bits: seq<bool>, p: nat)
    requires p + 32 <= |bits|
    ensures bits[p..p + 32] == bits[p..p + 8] + (bits[p + 8..p + 16] + (bits[p + 16..p + 24] + bits[p + 24..p + 32]))
  {
  }

  lemma FourBytes(a: seq<bool>, b: seq<bool>, c: seq<bool>, d: seq<bool>)
    requires |a| == |b| == |c| == 8
    ensures Nat(a + (b + (c + d))) == Nat(a) + 0x100 * Nat(b) + 0x1_0000 * Nat(c) + 0x100_0000 * Nat(d)
  {
    hide Nat;
    assert Pow2(8) == 0x100 by { PowersOfTwo(); }
    NatConcat(a, b + (c + d));
    NatConcat(b, c + d);
    NatConcat(c, d);
    Scales(Nat(b), Nat(c), Nat(d));
  }

  lemma Scales(b: nat, c: nat, d: nat)
    ensures 0x100 * (b + 0x100 * (c + 0x100 * d)) == 0x100 * b + 0x1_0000 * c + 0x100_0000 * d
  {
  }

  /** `(le32(b, bit / 8) >> (bit & 7)) & mask`: the `n` bits at any bit position, as long as they fit
      the 25 bits a 32-bit load is sure to leave after the shift. */
  function FieldAt(b: Bytes, bit: nat, n: nat): nat
    requires bit / 8 + 4 <= |b|
  {
    (Le32(b, bit / 8) / Pow2(bit % 8)) % Pow2(n)
  }

  lemma FieldIsBits(bits: seq<bool>, bit: nat, n: nat)
    requires |bits| % 8 == 0 && bit + 32 <= |bits| && n <= 25
    ensures bit / 8 + 4 <= |ToBytes(bits)| && FieldAt(ToBytes(bits), bit, n) == Nat(bits[bit..bit + n])
  {
    hide Nat, Le32, ToBytes, Pow2;
    var o, r := bit / 8, bit % 8;
    assert bit == 8 * o + r;
    Le32IsBits(bits, o);
    var word := bits[8 * o..8 * o + 32];
    ShiftAndMask(word, r);
    ShiftAndMask(word[r..], n);
    assert word[r..][..n] == bits[bit..bit + n];
  }

  /** `((le32(b, bit / 8) >> (bit & 7)) >> n) & 3`: the two bits above a field. */
  function TopOfField(b: Bytes, bit: nat, n: nat): nat
    requires bit / 8 + 4 <= |b|
  {
    ((Le32(b, bit / 8) / Pow2(bit % 8)) / Pow2(n)) % 4
  }

  lemma TopIsBits(bits: seq<bool>, bit: nat, n: nat)
    requires |bits| % 8 == 0 && bit + 32 <= |bits| && n + 2 <= 25
    ensures bit / 8 + 4 <= |ToBytes(bits)| && TopOfField(ToBytes(bits), bit, n) == Nat(bits[bit + n..bit + n + 2])
  {
    var o, r := bit / 8, bit % 8;
    Le32IsBits(bits, o);
    PowersOfTwo();
    var word := bits[8 * o..8 * o + 32];
    ShiftAndMask(word, r);
    ShiftAndMask(word[r..], n);
    ShiftAndMask(word[r..][n..], 2);
    assert word[r..][n..][..2] == bits[bit + n..bit + n + 2];
  }

  /** A byte string as its bits. */
  function AllBits(b: Bytes): (r: seq<bool>)
    ensures |r| == 8 * |b|
  {
    if b == [] then [] else Bits(b[0], 8) + AllBits(b[1..])
  }

  lemma {:induction false} BytesOfAllBits(b: Bytes)
    ensures ToBytes(AllBits(b)) == b
  {
    if b != [] {
      BytesOfAllBits(b[1..]);
      PowersOfTwo();
      NatOfBits(b[0], 8);
      assert AllBits(b)[..8] == Bits(b[0], 8) && AllBits(b)[8..] == AllBits(b[1..]);
    }
  }

  /** The number a byte string stands for, least significant byte first. */
  function LittleEndian(b: Bytes): nat {
    if b == [] then 0 else b[0] as nat + 0x100 * LittleEndian(b[1..])
  }

  lemma {:induction false} BitsAreLittleEndian(b: Bytes)
    ensures Nat(AllBits(b)) == LittleEndian(b)
  {
    hide Nat, Bits, Pow2;
    if b == [] {
      assert Nat([]) == 0 by { NoNat(); }
    } else {
      BitsAreLittleEndian(b[1..]);
      PowersOfTwo();
      NatOfBits(b[0], 8);
      NatConcat(Bits(b[0], 8), AllBits(b[1..]));
    }
  }

  lemma NoNat()
    ensures Nat([]) == 0
  {
  }
}
