/** How digests are spelled as filter keys, when a filter is built and when it is probed. */
module FilterKeys {
  import opened Wrappers
  import opened ByteStrings
  import opened Coords

  const UPPER: string := "0123456789ABCDEF"
  const LOWER: string := "0123456789abcdef"

  /** Hex digit `i` of a digest, high nibble first. */
  function Nibble(digest: Bytes, i: nat): (r: nat)
    requires i < 2 * |digest|
    ensures r < 16
  {
    if i % 2 == 0 then digest[i / 2] / 16 else digest[i / 2] % 16
  }

  function HexUpper(digest: Bytes): (r: string)
    ensures |r| == 2 * |digest|
  {
    seq(2 * |digest|, i requires 0 <= i < 2 * |digest| => UPPER[Nibble(digest, i)])
  }

  function HexLower(digest: Bytes): (r: string)
    ensures |r| == 2 * |digest|
  {
    seq(2 * |digest|, i requires 0 <= i < 2 * |digest| => LOWER[Nibble(digest, i)])
  }

  function ToUpper(text: string): (r: string)
    ensures |r| == |text|
  {
    seq(|text|, i requires 0 <= i < |text| => if 'a' <= text[i] <= 'z' then text[i] - 'a' + 'A' else text[i])
  }

  function ToLower(text: string): (r: string)
    ensures |r| == |text|
  {
    seq(|text|, i requires 0 <= i < |text| => if 'A' <= text[i] <= 'Z' then text[i] - 'A' + 'a' else text[i])
  }

  /** The key a prober looks a digest up by. */
  function BloomKey(scheme: Scheme, digest: Bytes): Option<string> {
    match scheme
    case Sha1 => Some(HexUpper(digest))
    case Md5 => Some(HexUpper(digest))
    case Sha256 => Some(HexLower(digest))
    case _ => None
  }

  function HexLen(scheme: Scheme): Option<nat> {
    match scheme
    case Md5 => Some(32)
    case Sha1 => Some(40)
    case Sha256 => Some(64)
    case _ => None
  }

  /** The key a line of text is added under when a filter is built. */
  function BuildKey(scheme: Scheme, text: string): string {
    if scheme.Sha1? then ToUpper(text) else ToLower(text)
  }

  /** `text` is `digest` in hex, its letters in whatever case. */
  predicate Spells(text: string, digest: Bytes) {
    |text| == 2 * |digest| &&
    forall i :: 0 <= i < |text| ==> text[i] == UPPER[Nibble(digest, i)] || text[i] == LOWER[Nibble(digest, i)]
  }

  predicate HasLetter(digest: Bytes) {
    exists i :: 0 <= i < 2 * |digest| && Nibble(digest, i) >= 10
  }

  lemma CasesOf(text: string, digest: Bytes)
    requires Spells(text, digest)
    ensures ToUpper(text) == HexUpper(digest) && ToLower(text) == HexLower(digest)
  {
  }

  lemma CasesDiffer(digest: Bytes)
    ensures HexLower(digest) == HexUpper(digest) <==> !HasLetter(digest)
  {
    if HasLetter(digest) {
      var i :| 0 <= i < 2 * |digest| && Nibble(digest, i) >= 10;
      assert HexLower(digest)[i] != HexUpper(digest)[i];
    }
  }

  /** A digest is added under the key it is probed by, except an md5 digest with a letter in its hex:
      those are added in lower case and probed in upper. */
  lemma BuiltKeyIsProbed(scheme: Scheme, text: string, digest: Bytes)
    requires Spells(text, digest) && HexLen(scheme) == Some(|text|)
    ensures BloomKey(scheme, digest) == Some(BuildKey(scheme, text)) <==> !(scheme.Md5? && HasLetter(digest))
  {
    CasesOf(text, digest);
    CasesDiffer(digest);
  }

  /** One such digest. */
  lemma Md5KeyIsMissed()
    ensures var digest := seq(16, _ => 0xab);
      BloomKey(Md5, digest) != Some(BuildKey(Md5, HexLower(digest))) && Spells(HexLower(digest), digest)
  {
    var digest: Bytes := seq(16, _ => 0xab);
    assert Nibble(digest, 0) == 10;
    assert HasLetter(digest);
    BuiltKeyIsProbed(Md5, HexLower(digest), digest);
  }
}
