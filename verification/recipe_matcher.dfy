/**
 The compressor search. A candidate's output is held against what the wrapper has at the same
 place, chunk after chunk; it wins when the two are equal from the first byte to the last of both.
 */
module RecipeMatcher {
  import opened Wrappers
  import opened ByteStrings
  import opened RecipePlan

  const MATCH_BUFFER: nat := 0x10_0000

  class Matcher {
    const wrapper: Bytes
    var pos: nat

    constructor (wrapper: Bytes, from: nat)
      ensures this.wrapper == wrapper && pos == from
    {
      this.wrapper := wrapper;
      pos := from;
    }

    /** Whether `b` is what the wrapper holds at the cursor; the cursor moves past it if so. */
    method Feed(b: Bytes) returns (ok: bool)
      modifies this
      ensures ok <==> old(pos) + |b| <= |wrapper| && Cut(wrapper, old(pos), |b|) == b
      ensures ok ==> pos == old(pos) + |b|
    {
      if pos + |b| > |wrapper| {
        return false;
      }
      var off: nat := 0;
      while off < |b|
        invariant off <= |b| && pos == old(pos) + off
        invariant wrapper[old(pos)..pos] == b[..off]
      {
        var n := if |b| - off < MATCH_BUFFER then |b| - off else MATCH_BUFFER;
        if wrapper[pos..pos + n] != b[off..off + n] {
          Differs(wrapper, old(pos), b, off, n);
          return false;
        }
        assert b[..off + n] == b[..off] + b[off..off + n];
        assert wrapper[old(pos)..pos + n] == wrapper[old(pos)..pos] + wrapper[pos..pos + n];
        pos := pos + n;
        off := off + n;
      }
      assert b[..off] == b;
      return true;
    }

    function Complete(): bool
      reads this
    {
      pos == |wrapper|
    }
  }

  lemma Differs(s: Bytes, pos: nat, b: Bytes, off: nat, n: nat)
    requires pos + |b| <= |s| && off + n <= |b|
    requires s[pos + off..pos + off + n] != b[off..off + n]
    ensures Cut(s, pos, |b|) != b
  {
    CutOfCut(s, pos, |b|, off, n);
  }

  /** `done` is what has come out so far, and the cursor has followed it. */
  predicate Following(wrapper: Bytes, from: nat, done: Bytes, pos: nat) {
    pos == from + |done| && (done != [] ==> pos <= |wrapper|) && (pos <= |wrapper| ==> wrapper[from..pos] == done)
  }

  /** Feed a whole run's output through a matcher: accepted, and to the last byte, exactly when
      the run's output is the rest of the wrapper, whatever chunks it came in. */
  method Matches(wrapper: Bytes, from: nat, chunks: seq<Bytes>) returns (ok: bool)
    ensures ok <==> from <= |wrapper| && wrapper[from..] == Flatten(chunks)
  {
    var m := new Matcher(wrapper, from);
    for k := 0 to |chunks|
      invariant m.wrapper == wrapper
      invariant Following(wrapper, from, Flatten(chunks[..k]), m.pos)
    {
      FlattenAt(chunks, k);
      Followed(wrapper, from, Flatten(chunks[..k]), chunks[k], Flatten(chunks[k + 1..]));
      var same := m.Feed(chunks[k]);
      if !same {
        return false;
      }
    }
    assert chunks[..|chunks|] == chunks;
    Followed(wrapper, from, Flatten(chunks), [], []);
    ok := m.Complete();
  }

  lemma Followed(s: Bytes, from: nat, done: Bytes, b: Bytes, rest: Bytes)
    requires Following(s, from, done, from + |done|)
    ensures var pos := from + |done|;
            if pos + |b| <= |s| && Cut(s, pos, |b|) == b then Following(s, from, done + b, pos + |b|)
            else !(from <= |s| && s[from..] == (done + b) + rest)
    ensures from <= |s| && s[from..] == done ==> from + |done| == |s|
    ensures from + |done| == |s| ==> from <= |s| && s[from..] == done
  {
    var pos := from + |done|;
    var out := (done + b) + rest;
    if pos + |b| <= |s| {
      assert s[from..pos + |b|] == s[from..pos] + Cut(s, pos, |b|);
      assert out[|done|..|done| + |b|] == b;
      if pos + |b| + |rest| <= |s| {
        CutOfCut(s, from, |out|, |done|, |b|);
      }
    }
  }

  const GNU_GZIP_CANDIDATES: seq<nat> := [9, 6, 1, 8, 7, 5, 4, 3, 2]
  const ZSTD_LEVEL_CANDIDATES: seq<int> := [15, 3, 19, 9, 1, 6, 22, 17, 12, 5, 8, 11]

  /** The k-th gzip candidate in search order: each level plain, then rsyncable. */
  function GzipCandidate(k: nat): GzipParams
    requires k < 2 * |GNU_GZIP_CANDIDATES|
  {
    GzipParams(GNU_GZIP_CANDIDATES[k / 2], k % 2 == 1)
  }

  function ZstdCandidate(flags: ZstdParams, k: nat): ZstdParams
    requires k < 2 * |ZSTD_LEVEL_CANDIDATES|
  {
    flags.(level := ZSTD_LEVEL_CANDIDATES[k / 2], singleThread := k % 2 == 1)
  }

  /** What a candidate puts out is the wrapper past the header kept with the node. */
  predicate GzipReproduces(f: Codecs, params: GzipParams, wrapper: Bytes, headerLen: nat, input: Bytes) {
    headerLen <= |wrapper| && f.gzip(params, input).Some? && wrapper[headerLen..] == Flatten(f.gzip(params, input).value)
  }

  predicate ZstdReproduces(f: Codecs, params: ZstdParams, wrapper: Bytes, input: Bytes) {
    f.zstd(params, input).Some? && wrapper == Flatten(f.zstd(params, input).value)
  }

  /** The first candidate, in search order, that reproduces the wrapper byte-exact. */
  method SearchGzip(f: Codecs, wrapper: Bytes, headerLen: nat, input: Bytes) returns (r: Option<GzipParams>)
    ensures r.Some? ==> headerLen < |wrapper| && GzipReproduces(f, r.value, wrapper, headerLen, input)
    ensures r.Some? ==>
              exists k :: 0 <= k < 2 * |GNU_GZIP_CANDIDATES| && r.value == GzipCandidate(k) &&
                forall j :: 0 <= j < k ==> !GzipReproduces(f, GzipCandidate(j), wrapper, headerLen, input)
    ensures r.None? && headerLen < |wrapper| ==>
              forall j :: 0 <= j < 2 * |GNU_GZIP_CANDIDATES| ==> !GzipReproduces(f, GzipCandidate(j), wrapper, headerLen, input)
  {
    if headerLen >= |wrapper| {
      return None;
    }
    for k := 0 to 2 * |GNU_GZIP_CANDIDATES|
      invariant forall j :: 0 <= j < k ==> !GzipReproduces(f, GzipCandidate(j), wrapper, headerLen, input)
    {
      var params := GzipCandidate(k);
      var run := f.gzip(params, input);
      if run.Some? {
        var ok := Matches(wrapper, headerLen, run.value);
        if ok {
          return Some(params);
        }
      }
    }
    return None;
  }

  method SearchZstd(f: Codecs, wrapper: Bytes, input: Bytes, flags: ZstdParams) returns (r: Option<ZstdParams>)
    ensures r.Some? ==> ZstdReproduces(f, r.value, wrapper, input)
    ensures r.Some? ==>
              exists k :: 0 <= k < 2 * |ZSTD_LEVEL_CANDIDATES| && r.value == ZstdCandidate(flags, k) &&
                forall j :: 0 <= j < k ==> !ZstdReproduces(f, ZstdCandidate(flags, j), wrapper, input)
    ensures r.None? ==>
              forall j :: 0 <= j < 2 * |ZSTD_LEVEL_CANDIDATES| ==> !ZstdReproduces(f, ZstdCandidate(flags, j), wrapper, input)
  {
    for k := 0 to 2 * |ZSTD_LEVEL_CANDIDATES|
      invariant forall j :: 0 <= j < k ==> !ZstdReproduces(f, ZstdCandidate(flags, j), wrapper, input)
    {
      var params := ZstdCandidate(flags, k);
      var run := f.zstd(params, input);
      if run.Some? {
        var ok := Matches(wrapper, 0, run.value);
        assert wrapper[0..] == wrapper;
        if ok {
          return Some(params);
        }
      }
    }
    return None;
  }

  /** The part of a compressor's settings that can be read off a wrapper's first bytes. */
  datatype Probe = GzipHead(header: Bytes) | ZstdHead(flags: ZstdParams)

  function ProbeWrapper(f: Codecs, kind: Kind, wrapper: Bytes): Option<Probe> {
    match kind
    case Gzip =>
      (match f.gzipHeader(wrapper)
       case Some(n) => if n <= |wrapper| then Some(GzipHead(wrapper[..n])) else None
       case None => None)
    case Zstd =>
      if |wrapper| < 5 then None
      else (match f.zstdFlags(wrapper[..5]) case Some(flags) => Some(ZstdHead(flags)) case None => None)
    case _ => None
  }

  /** Candidate `k` of a probe's search, as a node records it; there are as many as `Candidates` says. */
  function Candidates(probe: Probe): nat {
    if probe.GzipHead? then 2 * |GNU_GZIP_CANDIDATES| else 2 * |ZSTD_LEVEL_CANDIDATES|
  }

  function Candidate(probe: Probe, k: nat): Comp
    requires k < Candidates(probe)
  {
    match probe
    case GzipHead(header) => UseGzip(GzipCandidate(k), header)
    case ZstdHead(flags) => UseZstd(ZstdCandidate(flags, k))
  }

  /** Running candidate `k` over `input` gives the wrapper, byte for byte; a gzip wrapper that is nothing but
      its header is not searched for. */
  predicate Reproduces(f: Codecs, probe: Probe, wrapper: Bytes, input: Bytes, k: nat) {
    k < Candidates(probe) && CompRun(f, Candidate(probe, k), input) == Some(wrapper)
    && (probe.GzipHead? ==> |probe.header| < |wrapper|)
  }

  /** `how` is the first candidate that does. */
  predicate FirstToReproduce(f: Codecs, probe: Probe, wrapper: Bytes, input: Bytes, how: Comp) {
    exists k: nat :: k < Candidates(probe) && IsFirst(f, probe, wrapper, input, how, k)
  }

  predicate IsFirst(f: Codecs, probe: Probe, wrapper: Bytes, input: Bytes, how: Comp, k: nat) {
    k < Candidates(probe) && how == Candidate(probe, k) && Reproduces(f, probe, wrapper, input, k)
    && forall j: nat :: j < k ==> !Reproduces(f, probe, wrapper, input, j)
  }

  /** There is one at most. */
  lemma OneIsFirst(f: Codecs, probe: Probe, wrapper: Bytes, input: Bytes, a: Comp, b: Comp)
    requires FirstToReproduce(f, probe, wrapper, input, a) && FirstToReproduce(f, probe, wrapper, input, b)
    ensures a == b
  {
    var i: nat :| i < Candidates(probe) && IsFirst(f, probe, wrapper, input, a, i);
    var j: nat :| j < Candidates(probe) && IsFirst(f, probe, wrapper, input, b, j);
  }

  /** The run a search comes to: the first that reproduces the wrapper, if any does. */
  ghost function CompressorOf(f: Codecs, probe: Probe, wrapper: Bytes, input: Bytes): (r: Option<Comp>)
    ensures r.Some? ==> FirstToReproduce(f, probe, wrapper, input, r.value)
  {
    if exists how :: FirstToReproduce(f, probe, wrapper, input, how) then
      var how :| FirstToReproduce(f, probe, wrapper, input, how);
      Some(how)
    else None
  }

  /** There is one exactly when some candidate reproduces the wrapper. */
  lemma CompressorIff(f: Codecs, probe: Probe, wrapper: Bytes, input: Bytes)
    ensures CompressorOf(f, probe, wrapper, input).Some? <==> exists k: nat :: k < Candidates(probe) && Reproduces(f, probe, wrapper, input, k)
  {
    hide Reproduces;
    if k: nat :| k < Candidates(probe) && Reproduces(f, probe, wrapper, input, k) {
      var j := FirstOf(f, probe, wrapper, input, k);
      assert IsFirst(f, probe, wrapper, input, Candidate(probe, j), j);
      assert FirstToReproduce(f, probe, wrapper, input, Candidate(probe, j));
    }
  }

  lemma {:induction false} FirstOf(f: Codecs, probe: Probe, wrapper: Bytes, input: Bytes, k: nat) returns (j: nat)
    requires Reproduces(f, probe, wrapper, input, k)
    ensures j <= k && Reproduces(f, probe, wrapper, input, j) && forall i: nat :: i < j ==> !Reproduces(f, probe, wrapper, input, i)
  {
    if i: nat :| i < k && Reproduces(f, probe, wrapper, input, i) {
      j := FirstOf(f, probe, wrapper, input, i);
    } else {
      j := k;
    }
  }

  lemma GzipIs(f: Codecs, header: Bytes, wrapper: Bytes, input: Bytes, k: nat)
    requires header <= wrapper && k < 2 * |GNU_GZIP_CANDIDATES|
    ensures Reproduces(f, GzipHead(header), wrapper, input, k) <==>
            |header| < |wrapper| && GzipReproduces(f, GzipCandidate(k), wrapper, |header|, input)
  {
    assert wrapper == header + wrapper[|header|..];
    var run := f.gzip(GzipCandidate(k), input);
    if run.Some? && header + Flatten(run.value) == wrapper {
      assert (header + Flatten(run.value))[|header|..] == Flatten(run.value);
    }
  }

  /** Search for the run that made `wrapper` from `input`: the first candidate that reproduces it, and none
      only if none does. */
  method SearchCompressor(f: Codecs, probe: Probe, wrapper: Bytes, input: Bytes) returns (r: Option<Comp>)
    requires probe.GzipHead? ==> probe.header <= wrapper
    ensures r == CompressorOf(f, probe, wrapper, input)
    ensures r.Some? ==> FirstToReproduce(f, probe, wrapper, input, r.value) && CompRun(f, r.value, input) == Some(wrapper)
    ensures r.None? ==> forall k: nat :: k < Candidates(probe) ==> !Reproduces(f, probe, wrapper, input, k)
  {
    hide FirstToReproduce;
    match probe {
      case GzipHead(header) =>
        var found := SearchGzip(f, wrapper, |header|, input);
        forall k: nat | k < Candidates(probe)
          ensures Reproduces(f, probe, wrapper, input, k) <==>
                  |header| < |wrapper| && GzipReproduces(f, GzipCandidate(k), wrapper, |header|, input)
        {
          GzipIs(f, header, wrapper, input, k);
        }
        if found.None? {
          NoneToReproduce(f, probe, wrapper, input);
          return None;
        }
        ghost var k: nat :| k < Candidates(probe) && found.value == GzipCandidate(k) &&
          forall j: nat :: j < k ==> !GzipReproduces(f, GzipCandidate(j), wrapper, |header|, input);
        r := Some(UseGzip(found.value, header));
        ItIsFirst(f, probe, wrapper, input, r.value, k);
      case ZstdHead(flags) =>
        var found := SearchZstd(f, wrapper, input, flags);
        if found.None? {
          NoneToReproduce(f, probe, wrapper, input);
          return None;
        }
        ghost var k: nat :| k < Candidates(probe) && found.value == ZstdCandidate(flags, k) &&
          forall j: nat :: j < k ==> !ZstdReproduces(f, ZstdCandidate(flags, j), wrapper, input);
        r := Some(UseZstd(found.value));
        ItIsFirst(f, probe, wrapper, input, r.value, k);
    }
  }

  lemma ItIsFirst(f: Codecs, probe: Probe, wrapper: Bytes, input: Bytes, how: Comp, k: nat)
    requires IsFirst(f, probe, wrapper, input, how, k)
    ensures FirstToReproduce(f, probe, wrapper, input, how) && CompressorOf(f, probe, wrapper, input) == Some(how)
  {
    assert FirstToReproduce(f, probe, wrapper, input, how);
    OneIsFirst(f, probe, wrapper, input, how, CompressorOf(f, probe, wrapper, input).value);
  }

  lemma NoneToReproduce(f: Codecs, probe: Probe, wrapper: Bytes, input: Bytes)
    requires forall k: nat :: k < Candidates(probe) ==> !Reproduces(f, probe, wrapper, input, k)
    ensures CompressorOf(f, probe, wrapper, input) == None
  {
  }
}
