/** Coordinates: a digest under a scheme, the order they are listed in, and sorted lists of them. */
module Coords {
  import opened ByteStrings

  datatype Scheme = Md5 | Sha1 | Sha256 | Sha512 | Sha1Git | Blake2s256

  datatype Coord = Coord(scheme: Scheme, digest: Bytes)

  function DigestLen(s: Scheme): nat {
    match s
    case Md5 => 16
    case Sha1 => 20
    case Sha1Git => 20
    case Sha256 => 32
    case Blake2s256 => 32
    case Sha512 => 64
  }

  /** A coordinate's digest is as long as its scheme makes them. */
  predicate WellSized(c: Coord) {
    |c.digest| == DigestLen(c.scheme)
  }

  /** Schemes that may weld findings together; the others are lookup keys only. */
  predicate IdentityGrade(s: Scheme) {
    s.Sha256? || s.Sha512? || s.Blake2s256?
  }

  /** Where a scheme's name falls in alphabetical order. */
  function Rank(s: Scheme): nat {
    match s
    case Blake2s256 => 0
    case Md5 => 1
    case Sha1 => 2
    case Sha1Git => 3
    case Sha256 => 4
    case Sha512 => 5
  }

  predicate BytesBefore(a: Bytes, b: Bytes) {
    b != [] && (a == [] || a[0] < b[0] || (a[0] == b[0] && BytesBefore(a[1..], b[1..])))
  }

  predicate Before(a: Coord, b: Coord) {
    Rank(a.scheme) < Rank(b.scheme) || (a.scheme == b.scheme && BytesBefore(a.digest, b.digest))
  }

  lemma {:induction false} BytesOrder(a: Bytes, b: Bytes)
    ensures BytesBefore(a, b) || a == b || BytesBefore(b, a)
    ensures !(BytesBefore(a, b) && (a == b || BytesBefore(b, a)))
  {
    if a != [] && b != [] && a[0] == b[0] {
      BytesOrder(a[1..], b[1..]);
      assert a == [a[0]] + a[1..] && b == [b[0]] + b[1..];
    }
  }

  lemma {:induction false} BytesTransitive(a: Bytes, b: Bytes, c: Bytes)
    requires BytesBefore(a, b) && BytesBefore(b, c)
    ensures BytesBefore(a, c)
  {
    if a != [] && a[0] == b[0] == c[0] {
      BytesTransitive(a[1..], b[1..], c[1..]);
    }
  }

  /** Up to where two byte strings part they do not matter; there the lesser byte, or the end, comes first. */
  lemma {:induction false} PartDecides(same: Bytes, a: Byte, b: Byte, s: Bytes, t: Bytes)
    ensures BytesBefore(same, same + [a] + s)
    ensures a != b ==> (BytesBefore(same + [a] + s, same + [b] + t) <==> a < b)
  {
    var x, y := same + [a] + s, same + [b] + t;
    if same != [] {
      PartDecides(same[1..], a, b, s, t);
      assert x[0] == y[0] == same[0];
      assert x[1..] == same[1..] + [a] + s && y[1..] == same[1..] + [b] + t;
    }
  }

  lemma RankNames(a: Scheme, b: Scheme)
    ensures Rank(a) == Rank(b) <==> a == b
  {
  }

  /** Any two coordinates are in exactly one order. */
  lemma Total(a: Coord, b: Coord)
    ensures Before(a, b) || a == b || Before(b, a)
    ensures !(Before(a, b) && (a == b || Before(b, a)))
  {
    BytesOrder(a.digest, b.digest);
    RankNames(a.scheme, b.scheme);
  }

  lemma Transitive(a: Coord, b: Coord, c: Coord)
    requires Before(a, b) && Before(b, c)
    ensures Before(a, c)
  {
    if a.scheme == b.scheme == c.scheme {
      BytesTransitive(a.digest, b.digest, c.digest);
    }
  }

  /** Strictly ascending: sorted, each once. */
  predicate Sorted(cs: seq<Coord>) {
    forall i, j :: 0 <= i < j < |cs| ==> Before(cs[i], cs[j])
  }

  function Insert(c: Coord, cs: seq<Coord>): (r: seq<Coord>)
    requires Sorted(cs)
    ensures Sorted(r) && forall x :: x in r <==> x == c || x in cs
  {
    if cs == [] then [c]
    else if c == cs[0] then cs
    else if Before(c, cs[0]) then
      InFront(c, cs);
      [c] + cs
    else
      InRest(c, cs, Insert(c, cs[1..]));
      [cs[0]] + Insert(c, cs[1..])
  }

  lemma InFront(c: Coord, cs: seq<Coord>)
    requires Sorted(cs) && cs != [] && Before(c, cs[0])
    ensures Sorted([c] + cs)
  {
    forall i | 0 <= i < |cs|
      ensures Before(c, cs[i])
    {
      if i > 0 {
        Transitive(c, cs[0], cs[i]);
      }
    }
  }

  lemma InRest(c: Coord, cs: seq<Coord>, rest: seq<Coord>)
    requires Sorted(cs) && cs != [] && c != cs[0] && !Before(c, cs[0])
    requires Sorted(rest) && forall x :: x in rest <==> x == c || x in cs[1..]
    ensures Sorted([cs[0]] + rest) && forall x :: x in [cs[0]] + rest <==> x == c || x in cs
  {
    Total(c, cs[0]);
    forall i | 0 <= i < |rest|
      ensures Before(cs[0], rest[i])
    {
      assert rest[i] in rest;
    }
    assert cs == [cs[0]] + cs[1..];
  }

  /** `sort_by` by scheme name and digest, then `dedup`. */
  function SortDedup(cs: seq<Coord>): (r: seq<Coord>)
    ensures Sorted(r) && forall x :: x in r <==> x in cs
  {
    if cs == [] then []
    else
      assert cs == [cs[0]] + cs[1..];
      Insert(cs[0], SortDedup(cs[1..]))
  }
}
