/**
 Re-encoding one stored pcluster: the search for a run with the same output, and the
 inputs it was fed, from covers where there are any and literals where not.
 */
module RecipePCluster {
  import opened Wrappers
  import opened ByteStrings
  import opened RecipePlan
  import opened RecipeTree
  import opened RecipeTiling
  import opened RecipeCovers

  /** A stored pcluster: `llen` logical bytes at `la` of the stream, `plen` stored bytes at `pa` of
      the image, rotated by `skip` when it is interlaced. */
  datatype StoredPc = StoredPc(la: nat, llen: nat, pa: nat, plen: nat, lzma: bool, skip: Option<nat>) {
    function End(): nat { la + llen }
  }

  // ------------------------------------------------------------- tiling the input

  /** A literal of the encoder's input: short ones inline, the rest appended to the spool. */
  function AddLiteral(inputs: seq<PcInput>, spool: Bytes, bytes: Bytes): (seq<PcInput>, Bytes) {
    if |bytes| <= INLINE_MAX then (inputs + [Literal(0, |bytes|, None, Some(bytes))], spool)
    else (inputs + [Literal(|spool|, |bytes|, None, None)], spool + bytes)
  }

  function AddGap(inputs: seq<PcInput>, spool: Bytes, buffer: Bytes, la: nat, pos: nat, to: nat): (seq<PcInput>, Bytes)
    requires la <= pos <= to <= la + |buffer|
  {
    if pos < to then AddLiteral(inputs, spool, buffer[pos - la..to - la]) else (inputs, spool)
  }

  /** Each byte goes to the first cover that has it, or to a literal cut from `buffer`. */
  function TileAll(pieces: seq<Piece>, covers: seq<Cover>, buffer: Bytes, la: nat, pos: nat, end: nat, inputs: seq<PcInput>, spool: Bytes)
    : (seq<PcInput>, Bytes)
    requires WalkHolds(pieces, covers, pos, end) && la <= pos <= end <= la + |buffer|
    decreases |pieces|
  {
    if pieces == [] then AddGap(inputs, spool, buffer, la, pos, end)
    else
      var p := pieces[0];
      var (with, more) := AddGap(inputs, spool, buffer, la, pos, p.lo);
      TileAll(pieces[1..], covers, buffer, la, p.hi, end, with + [PartOf(p)], more)
  }

  function PartOf(p: Piece): PcInput
    requires p.cv.pstart <= p.lo <= p.hi
  {
    Part(p.cv.idx, p.cv.from + (p.lo - p.cv.pstart), p.hi - p.lo)
  }

  method TileInputs(covers: seq<Cover>, la: nat, fed: nat, buffer: Bytes, spool: Bytes) returns (inputs: seq<PcInput>, out: Bytes)
    requires fed <= |buffer|
    ensures WalkHolds(Walk(covers, la, la + fed), covers, la, la + fed)
    ensures (inputs, out) == TileAll(Walk(covers, la, la + fed), covers, buffer, la, la, la + fed, [], spool)
  {
    hide WalkHolds;
    inputs, out := [], spool;
    var end := la + fed;
    var pos: nat := la;
    WalkIsOrdered(covers, la, end);
    for k := 0 to |covers|
      invariant la <= pos <= end
      invariant Tiling(covers, k, buffer, la, pos, end, inputs, out, spool)
    {
      var cv := covers[k];
      var lo, hi := Max(cv.pstart, pos), Min(cv.End(), end);
      TilingNext(covers, k, buffer, la, pos, end, inputs, out, spool);
      if cv.End() > pos {
        if cv.pstart >= end {
          break;
        }
        if lo < hi {
          var added := AddGap(inputs, out, buffer, la, pos, lo);
          inputs, out := added.0 + [Part(cv.idx, cv.from + (lo - cv.pstart), hi - lo)], added.1;
          pos := hi;
        }
      }
    }
    var added := AddGap(inputs, out, buffer, la, pos, end);
    inputs, out := added.0, added.1;
  }

  /** What has been tiled up to `pos`, finished along the rest of the walk, is the whole tiling. */
  ghost predicate Tiling(covers: seq<Cover>, k: nat, buffer: Bytes, la: nat, pos: nat, end: nat, inputs: seq<PcInput>, out: Bytes, spool: Bytes)
    requires k <= |covers| && la <= pos <= end <= la + |buffer|
  {
    && WalkHolds(Walk(covers, la, end), covers, la, end)
    && WalkHolds(Walk(covers[k..], pos, end), covers, pos, end)
    && TileAll(Walk(covers[k..], pos, end), covers, buffer, la, pos, end, inputs, out)
       == TileAll(Walk(covers, la, end), covers, buffer, la, la, end, [], spool)
  }

  lemma TilingNext(covers: seq<Cover>, k: nat, buffer: Bytes, la: nat, pos: nat, end: nat, inputs: seq<PcInput>, out: Bytes, spool: Bytes)
    requires k < |covers| && la <= pos <= end <= la + |buffer| && Tiling(covers, k, buffer, la, pos, end, inputs, out, spool)
    ensures var cv := covers[k];
            var lo, hi := Max(cv.pstart, pos), Min(cv.End(), end);
            if cv.End() <= pos || (cv.pstart < end && lo >= hi) then Tiling(covers, k + 1, buffer, la, pos, end, inputs, out, spool)
            else if cv.pstart >= end then
              AddGap(inputs, out, buffer, la, pos, end) == TileAll(Walk(covers, la, end), covers, buffer, la, la, end, [], spool)
            else
              var (with, more) := AddGap(inputs, out, buffer, la, pos, lo);
              Tiling(covers, k + 1, buffer, la, hi, end, with + [PartOf(Piece(cv, lo, hi))], more, spool)
  {
    assert covers[k..][0] == covers[k] && covers[k..][1..] == covers[k + 1..];
    var cv := covers[k];
    var lo, hi := Max(cv.pstart, pos), Min(cv.End(), end);
    if cv.End() > pos && cv.pstart < end && lo < hi {
      var p, rest := Piece(cv, lo, hi), Walk(covers[k + 1..], hi, end);
      assert ([p] + rest)[1..] == rest;
    }
  }

  // ------------------------------------------------------------- what the tiling denotes

  /** `[pos, end)` of the stream where a cover takes it, and `buffer` everywhere else. */
  function Mixed(pieces: seq<Piece>, covers: seq<Cover>, stream: Bytes, buffer: Bytes, la: nat, pos: nat, end: nat): Bytes
    requires WalkHolds(pieces, covers, pos, end) && la <= pos <= end <= la + |buffer| && end <= |stream|
    decreases |pieces|
  {
    if pieces == [] then buffer[pos - la..end - la]
    else
      var p := pieces[0];
      buffer[pos - la..p.lo - la] + (Cut(stream, p.lo, p.hi - p.lo) + Mixed(pieces[1..], covers, stream, buffer, la, p.hi, end))
  }

  lemma {:induction false} MixedAt(pieces: seq<Piece>, covers: seq<Cover>, stream: Bytes, buffer: Bytes, la: nat, pos: nat, end: nat, x: nat)
    requires WalkHolds(pieces, covers, pos, end) && la <= pos <= x < end <= la + |buffer| && end <= |stream|
    ensures |Mixed(pieces, covers, stream, buffer, la, pos, end)| == end - pos
    ensures Mixed(pieces, covers, stream, buffer, la, pos, end)[x - pos] == if Taken(pieces, x) then stream[x] else buffer[x - la]
    decreases |pieces|
  {
    if pieces != [] {
      var p, rest := pieces[0], pieces[1..];
      assert pieces == [p] + rest;
      TakenCons(p, rest, x);
      MixedLength(rest, covers, stream, buffer, la, p.hi, end);
      if x >= p.hi {
        MixedAt(rest, covers, stream, buffer, la, p.hi, end, x);
      } else if Taken(rest, x) {
        NothingTakenOutside(rest, covers, p.hi, end, x);
      }
    }
  }

  lemma {:induction false} MixedLength(pieces: seq<Piece>, covers: seq<Cover>, stream: Bytes, buffer: Bytes, la: nat, pos: nat, end: nat)
    requires WalkHolds(pieces, covers, pos, end) && la <= pos <= end <= la + |buffer| && end <= |stream|
    ensures |Mixed(pieces, covers, stream, buffer, la, pos, end)| == end - pos
    decreases |pieces|
  {
    if pieces != [] {
      MixedLength(pieces[1..], covers, stream, buffer, la, pieces[0].hi, end);
    }
  }

  /** The tiling reproduces what was fed exactly when what was fed is the stream's on every byte a cover
      takes; the rest is cut from what was fed. */
  lemma TilingReproducesIff(covers: seq<Cover>, stream: Bytes, window: Bytes, la: nat, fed: nat)
    requires fed <= |window| && la + fed <= |stream|
    requires WalkHolds(Walk(covers, la, la + fed), covers, la, la + fed)
    ensures Mixed(Walk(covers, la, la + fed), covers, stream, window, la, la, la + fed) == window[..fed] <==>
            forall x: nat :: la <= x < la + fed && Taken(Walk(covers, la, la + fed), x) ==> window[x - la] == stream[x]
  {
    var pieces, end := Walk(covers, la, la + fed), la + fed;
    var mixed := Mixed(pieces, covers, stream, window, la, la, end);
    MixedLength(pieces, covers, stream, window, la, la, end);
    forall x: nat | la <= x < end
      ensures mixed[x - la] == if Taken(pieces, x) then stream[x] else window[x - la]
      ensures window[..fed][x - la] == window[x - la]
    {
      MixedAt(pieces, covers, stream, window, la, la, end, x);
    }
    if forall x: nat :: la <= x < end && Taken(pieces, x) ==> window[x - la] == stream[x] {
      forall k | 0 <= k < fed
        ensures mixed[k] == window[..fed][k]
      {
        assert mixed[la + k - la] == if Taken(pieces, la + k) then stream[la + k] else window[la + k - la];
      }
    }
  }

  /** What the literals a tiling needs and the parts it names stand for. */
  predicate PiecesHold(truth: seq<Bytes>, stream: Bytes, pieces: seq<Piece>) {
    forall p :: p in pieces ==> CoverHolds(truth, stream, p.cv)
  }

  lemma {:induction false} InputsAppend(inputs: seq<PcInput>, x: PcInput, truth: seq<Bytes>, literals: Bytes)
    requires InputsBytes(inputs, truth, literals).Some? && InputBytes(x, truth, literals).Some?
    ensures InputsBytes(inputs + [x], truth, literals)
            == Some(InputsBytes(inputs, truth, literals).value + InputBytes(x, truth, literals).value)
  {
    if inputs == [] {
      assert inputs + [x] == [x];
      assert InputsBytes([x][1..], truth, literals) == Some([]);
      var b := InputBytes(x, truth, literals).value;
      assert b + [] == [] + b == b;
    } else {
      InputsAppend(inputs[1..], x, truth, literals);
      assert (inputs + [x])[1..] == inputs[1..] + [x];
      var a, b, c := InputBytes(inputs[0], truth, literals).value, InputsBytes(inputs[1..], truth, literals).value,
                     InputBytes(x, truth, literals).value;
      assert a + (b + c) == (a + b) + c;
    }
  }

  lemma GapAdds(inputs: seq<PcInput>, spool: Bytes, buffer: Bytes, la: nat, pos: nat, to: nat, truth: seq<Bytes>, done: Bytes)
    requires la <= pos <= to <= la + |buffer| && InputsBytes(inputs, truth, spool) == Some(done)
    ensures var (with, more) := AddGap(inputs, spool, buffer, la, pos, to);
            spool <= more && InputsBytes(with, truth, more) == Some(done + buffer[pos - la..to - la])
  {
    var bytes := buffer[pos - la..to - la];
    if pos < to {
      var (with, more) := AddLiteral(inputs, spool, bytes);
      InputsSurviveGrowth(inputs, truth, spool, more);
      if |bytes| > INLINE_MAX {
        assert Cut(more, |spool|, |bytes|) == bytes;
      }
      InputsAppend(inputs, with[|inputs|], truth, more);
    } else {
      assert done + bytes == done;
    }
  }

  lemma PartAdds(inputs: seq<PcInput>, spool: Bytes, p: Piece, truth: seq<Bytes>, stream: Bytes, done: Bytes)
    requires InputsBytes(inputs, truth, spool) == Some(done) && CoverHolds(truth, stream, p.cv)
    requires p.cv.pstart <= p.lo <= p.hi <= p.cv.End()
    ensures p.hi <= |stream| && InputsBytes(inputs + [PartOf(p)], truth, spool) == Some(done + Cut(stream, p.lo, p.hi - p.lo))
  {
    CutsAgree(truth[p.cv.idx], p.cv.from, stream, p.cv.pstart, p.cv.len, p.lo - p.cv.pstart, p.hi - p.lo);
    InputsAppend(inputs, PartOf(p), truth, spool);
  }

  /** A tiling stands for the mixture it was cut from. */
  lemma {:induction false} TilingDenotes(pieces: seq<Piece>, covers: seq<Cover>, truth: seq<Bytes>, stream: Bytes, buffer: Bytes,
                                         la: nat, pos: nat, end: nat, inputs: seq<PcInput>, spool: Bytes, done: Bytes)
    requires WalkHolds(pieces, covers, pos, end) && la <= pos <= end <= la + |buffer| && end <= |stream|
    requires PiecesHold(truth, stream, pieces) && InputsBytes(inputs, truth, spool) == Some(done)
    ensures var (all, out) := TileAll(pieces, covers, buffer, la, pos, end, inputs, spool);
            spool <= out && InputsBytes(all, truth, out) == Some(done + Mixed(pieces, covers, stream, buffer, la, pos, end))
    decreases |pieces|
  {
    hide AddGap, PartOf, CoverHolds, InputsBytes, WalkHolds, Same;
    if pieces == [] {
      GapAdds(inputs, spool, buffer, la, pos, end, truth, done);
    } else {
      var p := pieces[0];
      FirstPiece(pieces, covers, pos, end);
      var (with, more) := AddGap(inputs, spool, buffer, la, pos, p.lo);
      GapAdds(inputs, spool, buffer, la, pos, p.lo, truth, done);
      var gap, part := buffer[pos - la..p.lo - la], Cut(stream, p.lo, p.hi - p.lo);
      PartAdds(with, more, p, truth, stream, done + gap);
      TilingDenotes(pieces[1..], covers, truth, stream, buffer, la, p.hi, end, with + [PartOf(p)], more, done + gap + part);
      var rest := Mixed(pieces[1..], covers, stream, buffer, la, p.hi, end);
      Regroup(done, gap, part, rest);
    }
  }

  lemma FirstPiece(pieces: seq<Piece>, covers: seq<Cover>, pos: nat, end: nat)
    requires WalkHolds(pieces, covers, pos, end) && pieces != []
    ensures var p := pieces[0];
            pos <= p.lo < p.hi <= end && p.cv in covers && p.cv.pstart <= p.lo && p.hi <= p.cv.End() && WalkHolds(pieces[1..], covers, p.hi, end)
  {
  }

  lemma Regroup(a: Bytes, b: Bytes, c: Bytes, d: Bytes)
    ensures ((a + b) + c) + d == a + (b + (c + d))
  {
  }

  /** A literal goes to the spool exactly when it is too long to stay inline. */
  predicate SpooledLong(inputs: seq<PcInput>) {
    forall k :: 0 <= k < |inputs| && inputs[k].Literal? ==> (inputs[k].inline.None? <==> inputs[k].len > INLINE_MAX)
  }

  /** Literals are inline exactly when they are short, and the members named are those of the pieces. */
  lemma {:induction false} TilingShape(pieces: seq<Piece>, covers: seq<Cover>, buffer: Bytes, la: nat, pos: nat, end: nat,
                                       inputs: seq<PcInput>, spool: Bytes)
    requires WalkHolds(pieces, covers, pos, end) && la <= pos <= end <= la + |buffer| && SpooledLong(inputs)
    ensures var (all, out) := TileAll(pieces, covers, buffer, la, pos, end, inputs, spool);
            SpooledLong(all) && inputs <= all && spool <= out
            && (forall p :: p in pieces ==> p.cv.idx in PartsOf(all))
            && (forall k :: |inputs| <= k < |all| && all[k].Part? ==> exists p :: p in pieces && p.cv.idx == all[k].idx)
    decreases |pieces|
  {
    if pieces != [] {
      var p := pieces[0];
      var (with, more) := AddGap(inputs, spool, buffer, la, pos, p.lo);
      TilingShape(pieces[1..], covers, buffer, la, p.hi, end, with + [PartOf(p)], more);
      var (all, out) := TileAll(pieces, covers, buffer, la, pos, end, inputs, spool);
      assert all[|with|] == PartOf(p) by {
        assert (with + [PartOf(p)])[|with|] == PartOf(p);
      }
      assert |inputs| < |with| ==> all[|inputs|] == with[|inputs|] && with[|inputs|].Literal? && |with| == |inputs| + 1;
      forall k | |inputs| <= k < |all| && all[k].Part?
        ensures exists q :: q in pieces && q.cv.idx == all[k].idx
      {
        if k == |with| {
          assert p in pieces;
        } else {
          var q :| q in pieces[1..] && q.cv.idx == all[k].idx;
          assert q in pieces;
        }
      }
    }
  }

  /** Every byte of `[pos, end)` has a cover. */
  predicate Covered(covers: seq<Cover>, pos: nat, end: nat) {
    SortedByStart(covers) && forall x :: pos <= x < end ==> CoveredBy(covers, x)
  }

  /** Where covers leave nothing out, a tiling has no literals and spools nothing. */
  lemma CoveredTilesWithoutLiterals(covers: seq<Cover>, buffer: Bytes, la: nat, fed: nat, spool: Bytes)
    requires fed <= |buffer| && Covered(covers, la, la + fed)
    requires WalkHolds(Walk(covers, la, la + fed), covers, la, la + fed)
    ensures TileAll(Walk(covers, la, la + fed), covers, buffer, la, la, la + fed, [], spool).1 == spool
  {
    var pieces := Walk(covers, la, la + fed);
    forall x: nat | la <= x < la + fed
      ensures Taken(pieces, x)
    {
      WalkTakesTheCovered(covers, la, la + fed, x);
    }
    TakenSpoolsNothing(pieces, covers, buffer, la, la, la + fed, [], spool);
  }

  lemma TilingGrows(pieces: seq<Piece>, covers: seq<Cover>, buffer: Bytes, la: nat, pos: nat, end: nat, inputs: seq<PcInput>, spool: Bytes)
    requires WalkHolds(pieces, covers, pos, end) && la <= pos <= end <= la + |buffer| && SpooledLong(inputs)
    ensures spool <= TileAll(pieces, covers, buffer, la, pos, end, inputs, spool).1
  {
    TilingShape(pieces, covers, buffer, la, pos, end, inputs, spool);
  }

  predicate AllTaken(pieces: seq<Piece>, pos: nat, end: nat) {
    forall x: nat :: pos <= x < end ==> Taken(pieces, x)
  }

  lemma {:induction false} TakenSpoolsNothing(pieces: seq<Piece>, covers: seq<Cover>, buffer: Bytes, la: nat, pos: nat, end: nat,
                                              inputs: seq<PcInput>, spool: Bytes)
    requires WalkHolds(pieces, covers, pos, end) && la <= pos <= end <= la + |buffer|
    requires AllTaken(pieces, pos, end)
    ensures TileAll(pieces, covers, buffer, la, pos, end, inputs, spool).1 == spool
    decreases |pieces|
  {
    assert pos < end ==> Taken(pieces, pos);
    if pieces != [] {
      var p, rest := pieces[0], pieces[1..];
      assert pieces == [p] + rest;
      TakenCons(p, rest, pos);
      if p.lo > pos {
        NothingTakenOutside(rest, covers, p.hi, end, pos);
      }
      forall x: nat | p.hi <= x < end
        ensures Taken(rest, x)
      {
        TakenCons(p, rest, x);
      }
      TakenSpoolsNothing(rest, covers, buffer, la, p.hi, end, inputs + [PartOf(p)], spool);
    }
  }

  // ------------------------------------------------------------- the search

  const EXTREME: nat := 0x8000_0000

  /** The ten presets from `base` on. */
  function Decade(base: nat): (r: seq<nat>)
    ensures |r| == 10 && forall k :: 0 <= k < 10 ==> r[k] == base + k
  {
    seq(10, k requires 0 <= k => base + k)
  }

  /** The presets worth trying: the one the image is known to use, or all of them. */
  function Presets(known: Option<nat>): seq<nat> {
    if known.Some? then [known.value] else [6] + Decade(0) + Decade(EXTREME)
  }

  /** How much of the `avail` bytes at hand to feed on try `j`: the span, then three amounts past it. */
  function FeedLength(llen: nat, avail: nat, j: nat): (r: nat)
    ensures r <= avail && r <= llen + ENCODE_MARGIN
  {
    var past := if j == 0 then 0 else if j == 1 then 0x1000 else if j == 2 then 0x1_0000 else ENCODE_MARGIN;
    Min(llen + past, avail)
  }

  /** How many zero bytes the stored bytes begin with. */
  function Padding(stored: Bytes): (r: nat)
    ensures r <= |stored| && (forall k :: 0 <= k < r ==> stored[k] == 0) && (r < |stored| ==> stored[r] != 0)
  {
    if stored != [] && stored[0] == 0 then 1 + Padding(stored[1..]) else 0
  }

  /** How one encoder run ended: it failed, ran out of input that was still to come, or produced a
      candidate. */
  datatype Run = Failed | Starved | Candidate(stored: Bytes)

  function Encode(f: Codecs, fed: Bytes, size: nat, pad: nat, preset: nat, dict: nat, more: bool): Run
    requires pad <= size
  {
    match f.microlzma(fed, size - pad, preset, dict)
    case None => Failed
    case Some(run) =>
      if |run.0| < size - pad && run.1 == |fed| && more then Starved
      else Candidate(Resize(Zeros(pad) + run.0, size))
  }

  datatype Search = Hit(preset: nat, fed: nat) | Short | NoMatch | EncoderFailed

  /** The candidate of one preset and one length. */
  function Attempt(f: Codecs, stored: Bytes, window: Bytes, goesOn: bool, llen: nat, dict: nat, preset: nat, j: nat): Run {
    var fed := FeedLength(llen, |window|, j);
    Encode(f, window[..fed], |stored|, Padding(stored), preset, dict, fed < |window| || goesOn)
  }

  /** The search: presets in order and four lengths each, `n` counting the runs. A run that fails ends it;
      one that starves while the stream goes on is no verdict. */
  function Searched(f: Codecs, stored: Bytes, window: Bytes, goesOn: bool, llen: nat, presets: seq<nat>, dict: nat, n: nat, short: bool): Search
    decreases 4 * |presets| - n
  {
    if n >= 4 * |presets| then (if short then Short else NoMatch)
    else
      match Attempt(f, stored, window, goesOn, llen, dict, presets[n / 4], n % 4)
      case Failed => EncoderFailed
      case Starved => Searched(f, stored, window, goesOn, llen, presets, dict, n + 1, true)
      case Candidate(c) =>
        if c == stored then Hit(presets[n / 4], FeedLength(llen, |window|, n % 4))
        else Searched(f, stored, window, goesOn, llen, presets, dict, n + 1, short)
  }

  /** Run `n` reproduces the stored bytes. */
  predicate Reproduces(f: Codecs, stored: Bytes, window: Bytes, goesOn: bool, llen: nat, presets: seq<nat>, dict: nat, n: nat) {
    n < 4 * |presets| && Attempt(f, stored, window, goesOn, llen, dict, presets[n / 4], n % 4) == Candidate(stored)
  }

  /** Run `n` ends the search: the encoder fails. */
  predicate Breaks(f: Codecs, stored: Bytes, window: Bytes, goesOn: bool, llen: nat, presets: seq<nat>, dict: nat, n: nat) {
    n < 4 * |presets| && Attempt(f, stored, window, goesOn, llen, dict, presets[n / 4], n % 4).Failed?
  }

  const PAST: seq<nat> := [0, 0x1000, 0x1_0000, ENCODE_MARGIN]

  /** `stored` is nothing but zeros before `at`, and `out` from there on, zeros again after it. */
  predicate Spells(stored: Bytes, at: nat, out: Bytes) {
    && at <= |stored|
    && (forall k :: 0 <= k < at ==> stored[k] == 0)
    && (at < |stored| ==> stored[at] != 0)
    && forall k :: at <= k < |stored| ==> stored[k] == if k - at < |out| then out[k - at] else 0
  }

  /** The encoder, fed `fed` and asked with `preset` for the stored bytes past their first `at`, gives them, and
      did not stop short for want of input when there was more to come. */
  predicate Gives(f: Codecs, fed: Bytes, more: bool, stored: Bytes, at: nat, preset: nat, dict: nat)
    requires at <= |stored|
  {
    var run := f.microlzma(fed, |stored| - at, preset, dict);
    && run.Some?
    && Spells(stored, at, run.value.0)
    && !Starving(f, fed, more, |stored| - at, preset, dict)
  }

  /** The encoder takes all of `fed`, fills less than `room` with it, and there is more to come. */
  predicate Starving(f: Codecs, fed: Bytes, more: bool, room: nat, preset: nat, dict: nat) {
    var run := f.microlzma(fed, room, preset, dict);
    more && run.Some? && run.value.1 == |fed| && |run.value.0| < room
  }

  /** Run `n` reproduces the stored bytes exactly when the encoder gives them from the span, or from the span
      and one of three amounts of what follows; it starves exactly when all of that is taken, too little comes
      out and there is more, and breaks exactly when the encoder gives nothing. */
  lemma RunReproducesIff(f: Codecs, stored: Bytes, window: Bytes, goesOn: bool, llen: nat, presets: seq<nat>, dict: nat, n: nat)
    requires n < 4 * |presets|
    ensures var fed, pad := Min(llen + PAST[n % 4], |window|), Padding(stored);
            && (Reproduces(f, stored, window, goesOn, llen, presets, dict, n) <==>
                Gives(f, window[..fed], fed < |window| || goesOn, stored, pad, presets[n / 4], dict))
            && (Starves(f, stored, window, goesOn, llen, presets, dict, n) <==>
                Starving(f, window[..fed], fed < |window| || goesOn, |stored| - pad, presets[n / 4], dict))
            && (Breaks(f, stored, window, goesOn, llen, presets, dict, n) <==>
                f.microlzma(window[..fed], |stored| - pad, presets[n / 4], dict).None?)
  {
    hide Gives, Padding, Encode;
    var fed := Min(llen + PAST[n % 4], |window|);
    assert fed == FeedLength(llen, |window|, n % 4);
    EncodeGives(f, window[..fed], fed < |window| || goesOn, stored, presets[n / 4], dict);
  }

  lemma {:induction false} EncodeGives(f: Codecs, fed: Bytes, more: bool, stored: Bytes, preset: nat, dict: nat)
    ensures var pad := Padding(stored);
            var run := Encode(f, fed, |stored|, pad, preset, dict, more);
            && (run == Candidate(stored) <==> Gives(f, fed, more, stored, pad, preset, dict))
            && (run.Starved? <==> Starving(f, fed, more, |stored| - pad, preset, dict))
            && (run.Failed? <==> f.microlzma(fed, |stored| - pad, preset, dict).None?)
  {
    hide Spells, Padding, Resize, Zeros;
    var run := f.microlzma(fed, |stored| - Padding(stored), preset, dict);
    if run.Some? {
      PaddedSpells(stored, run.value.0);
    }
  }

  lemma PaddedSpells(stored: Bytes, out: Bytes)
    ensures Resize(Zeros(Padding(stored)) + out, |stored|) == stored <==> Spells(stored, Padding(stored), out)
  {
    hide Resize, Zeros, Padding;
    var pad := Padding(stored);
    var padded := Zeros(pad) + out;
    var c := Resize(padded, |stored|);
    forall k | 0 <= k < |stored|
      ensures c[k] == if k < pad then 0 else if k - pad < |out| then out[k - pad] else 0
    {
      if k < |padded| {
        assert c[k] == padded[k];
      }
    }
    if Spells(stored, pad, out) {
      assert forall k :: 0 <= k < |stored| ==> c[k] == stored[k];
    }
  }

  /** With a known preset no other is tried; without one, 6 comes first, and then the plain presets and the
      extreme ones in ascending order. */
  lemma PresetsTried(known: Option<nat>)
    ensures known.Some? ==> Presets(known) == [known.value]
    ensures known.None? ==>
              var all := Presets(known);
              && |all| == 21 && all[0] == 6
              && (forall p: nat :: p in all[1..] <==> p <= 9 || EXTREME <= p <= EXTREME + 9)
              && (forall i, j :: 1 <= i < j < |all| ==> all[i] < all[j])
  {
    if known.None? {
      var all, plain, extreme := Presets(known), Decade(0), Decade(EXTREME);
      assert all[1..] == plain + extreme;
      forall p: nat
        ensures p in all[1..] <==> p <= 9 || EXTREME <= p <= EXTREME + 9
      {
        if p <= 9 {
          assert plain[p] == p;
        } else if EXTREME <= p <= EXTREME + 9 {
          assert extreme[p - EXTREME] == p;
        }
      }
    }
  }

  /** The search hits exactly when some run reproduces the stored bytes and the encoder fails in none
      before it. */
  lemma {:induction false} SearchHitsIff(f: Codecs, stored: Bytes, window: Bytes, goesOn: bool, llen: nat, presets: seq<nat>, dict: nat, n: nat, short: bool)
    ensures Searched(f, stored, window, goesOn, llen, presets, dict, n, short).Hit? <==>
            exists k :: n <= k && Reproduces(f, stored, window, goesOn, llen, presets, dict, k)
                        && forall j :: n <= j < k ==> !Breaks(f, stored, window, goesOn, llen, presets, dict, j)
    decreases 4 * |presets| - n
  {
    hide Attempt;
    if n < 4 * |presets| {
      var run := Attempt(f, stored, window, goesOn, llen, dict, presets[n / 4], n % 4);
      if run.Candidate? && run.stored == stored {
        assert Reproduces(f, stored, window, goesOn, llen, presets, dict, n);
      } else {
        var after := if run.Starved? then true else short;
        SearchHitsIff(f, stored, window, goesOn, llen, presets, dict, n + 1, after);
        assert run.Failed? ==> Breaks(f, stored, window, goesOn, llen, presets, dict, n);
      }
    }
  }

  /** Run `n` decides nothing: the encoder wants input that was still to come. */
  predicate Starves(f: Codecs, stored: Bytes, window: Bytes, goesOn: bool, llen: nat, presets: seq<nat>, dict: nat, n: nat) {
    n < 4 * |presets| && Attempt(f, stored, window, goesOn, llen, dict, presets[n / 4], n % 4).Starved?
  }

  /** Run `k` is the first from `n` on that reproduces the stored bytes or breaks. */
  predicate Settles(f: Codecs, stored: Bytes, window: Bytes, goesOn: bool, llen: nat, presets: seq<nat>, dict: nat, n: nat, k: nat) {
    && n <= k
    && (Reproduces(f, stored, window, goesOn, llen, presets, dict, k) || Breaks(f, stored, window, goesOn, llen, presets, dict, k))
    && (forall j :: n <= j < k ==> !Reproduces(f, stored, window, goesOn, llen, presets, dict, j) && !Breaks(f, stored, window, goesOn, llen, presets, dict, j))
  }

  /** The run that settles the search gives its ending, and the preset and length of a hit; when none does, the
      ending says whether some run starved. */
  lemma {:induction false} SearchEnding(f: Codecs, stored: Bytes, window: Bytes, goesOn: bool, llen: nat, presets: seq<nat>, dict: nat, n: nat, short: bool)
    ensures var r := Searched(f, stored, window, goesOn, llen, presets, dict, n, short);
            && (forall k :: Settles(f, stored, window, goesOn, llen, presets, dict, n, k) ==>
                  r == if Breaks(f, stored, window, goesOn, llen, presets, dict, k) then EncoderFailed
                       else Hit(presets[k / 4], Min(llen + PAST[k % 4], |window|)))
            && ((forall k :: !Settles(f, stored, window, goesOn, llen, presets, dict, n, k)) ==>
                  r == if short || exists k :: n <= k && Starves(f, stored, window, goesOn, llen, presets, dict, k) then Short else NoMatch)
    decreases 4 * |presets| - n
  {
    hide Attempt;
    if n < 4 * |presets| {
      var run := Attempt(f, stored, window, goesOn, llen, dict, presets[n / 4], n % 4);
      if run.Failed? || run == Candidate(stored) {
        assert Settles(f, stored, window, goesOn, llen, presets, dict, n, n);
        forall k | Settles(f, stored, window, goesOn, llen, presets, dict, n, k)
          ensures k == n
        {
        }
      } else {
        var m, after := n + 1, if run.Starved? then true else short;
        assert Starves(f, stored, window, goesOn, llen, presets, dict, n) <==> run.Starved?;
        assert !Reproduces(f, stored, window, goesOn, llen, presets, dict, n) && !Breaks(f, stored, window, goesOn, llen, presets, dict, n);
        SearchEnding(f, stored, window, goesOn, llen, presets, dict, m, after);
        forall k
          ensures Settles(f, stored, window, goesOn, llen, presets, dict, n, k) <==> Settles(f, stored, window, goesOn, llen, presets, dict, m, k)
        {
        }
      }
    }
  }

  /** What is hit reproduces the stored bytes. */
  lemma {:induction false} HitReencodes(f: Codecs, stored: Bytes, window: Bytes, goesOn: bool, llen: nat, presets: seq<nat>, dict: nat, n: nat, short: bool)
    ensures var r := Searched(f, stored, window, goesOn, llen, presets, dict, n, short);
            r.Hit? ==> r.fed <= |window| && r.fed <= llen + ENCODE_MARGIN
                       && Reencode(f, window[..r.fed], |stored|, Padding(stored), r.preset, dict) == Some(stored)
    decreases 4 * |presets| - n
  {
    hide Padding, FeedLength;
    if n < 4 * |presets| {
      HitReencodes(f, stored, window, goesOn, llen, presets, dict, n + 1, true);
      HitReencodes(f, stored, window, goesOn, llen, presets, dict, n + 1, short);
    }
  }

  /** All the lengths of one preset. */
  method TryPreset(f: Codecs, stored: Bytes, window: Bytes, goesOn: bool, llen: nat, dict: nat, ghost presets: seq<nat>, ghost p: nat, preset: nat,
                   ghost before: bool)
    returns (r: Search)
    requires p < |presets| && presets[p] == preset
    ensures Searched(f, stored, window, goesOn, llen, presets, dict, 4 * p, before)
            == if r.Hit? || r.EncoderFailed? then r
               else Searched(f, stored, window, goesOn, llen, presets, dict, 4 * (p + 1), before || r.Short?)
  {
    hide Attempt;
    var short := false;
    for j := 0 to 4
      invariant Searched(f, stored, window, goesOn, llen, presets, dict, 4 * p, before)
                == Searched(f, stored, window, goesOn, llen, presets, dict, 4 * p + j, before || short)
    {
      assert (4 * p + j) / 4 == p && (4 * p + j) % 4 == j;
      var run := Attempt(f, stored, window, goesOn, llen, dict, preset, j);
      if run.Failed? {
        return EncoderFailed;
      }
      if run.Starved? {
        short := true;
      } else if run.stored == stored {
        return Hit(preset, FeedLength(llen, |window|, j));
      }
    }
    return if short then Short else NoMatch;
  }

  /** Find the first run that reproduces the stored bytes. */
  method SearchRun(f: Codecs, stored: Bytes, window: Bytes, goesOn: bool, llen: nat, known: Option<nat>, dict: nat) returns (r: Search)
    ensures r == Searched(f, stored, window, goesOn, llen, Presets(known), dict, 0, false)
  {
    hide Presets, Searched;
    var presets := Presets(known);
    var short := false;
    for k := 0 to |presets|
      invariant Searched(f, stored, window, goesOn, llen, presets, dict, 0, false)
                == Searched(f, stored, window, goesOn, llen, presets, dict, 4 * k, short)
    {
      r := TryPreset(f, stored, window, goesOn, llen, dict, presets, k, presets[k], short);
      if r.Hit? || r.EncoderFailed? {
        return;
      }
      short := short || r.Short?;
    }
    r := if short then Short else NoMatch;
    SearchedOut(f, stored, window, goesOn, llen, presets, dict, short);
  }

  lemma SearchedOut(f: Codecs, stored: Bytes, window: Bytes, goesOn: bool, llen: nat, presets: seq<nat>, dict: nat, short: bool)
    ensures Searched(f, stored, window, goesOn, llen, presets, dict, 4 * |presets|, short) == if short then Short else NoMatch
  {
  }

  // ------------------------------------------------------------- the node

  datatype Planned = NodeMade(node: PClusterNode, preset: nat) | Unmatched | MarginShort | Unusable

  /** The covers a node's parts were cut from hold. */
  predicate PartsHold(truth: seq<Bytes>, stream: Bytes, covers: seq<Cover>, node: PClusterNode) {
    forall idx :: idx in PartsOf(node.inputs) ==> CoversOf(truth, stream, covers, idx)
  }

  /** A pcluster within what the format allows. */
  predicate Plausible(pc: StoredPc, stored: Bytes) {
    |stored| == pc.plen <= PCLUSTER_MAX_SIZE && pc.llen <= PCLUSTER_MAX_DSIZE
  }

  /** The members a node slices are all covers' members. */
  predicate PartsNamed(covers: seq<Cover>, node: PClusterNode) {
    forall idx :: idx in PartsOf(node.inputs) ==> exists cv :: cv in covers && cv.idx == idx
  }

  /** The node of a pcluster, and the spool after it: the search for a run, and the tiling of what was fed. */
  function PlannedOf(f: Codecs, pc: StoredPc, stored: Bytes, window: Bytes, goesOn: bool, covers: seq<Cover>, known: Option<nat>,
                     dict: nat, spool: Bytes): (Planned, Bytes)
  {
    if Padding(stored) >= |stored| then (Unusable, spool)
    else
      match Searched(f, stored, window, goesOn, pc.llen, Presets(known), dict, 0, false)
      case Hit(preset, fed) =>
        if fed > |window| then (Unusable, spool)
        else
          WalkIsOrdered(covers, pc.la, pc.la + fed);
          var (inputs, out) := TileAll(Walk(covers, pc.la, pc.la + fed), covers, window, pc.la, pc.la, pc.la + fed, [], spool);
          if PartsOf(inputs) == {} then (Unmatched, out)
          else (NodeMade(PClusterNode(|stored|, f.sha256(stored), Padding(stored), preset, dict, inputs), preset), out)
      case Short => (MarginShort, spool)
      case NoMatch => (Unmatched, spool)
      case EncoderFailed => (Unusable, spool)
  }

  /** Re-encode a stored pcluster from the stream bytes at hand; a run that gives the stored bytes
      becomes the node that rebuilds them. */
  method PlanPCluster(f: Codecs, pc: StoredPc, stored: Bytes, window: Bytes, goesOn: bool, covers: seq<Cover>, known: Option<nat>,
                      dict: nat, spool: Bytes)
    returns (r: Planned, out: Bytes)
    ensures (r, out) == PlannedOf(f, pc, stored, window, goesOn, covers, known, dict, spool)
  {
    hide WalkHolds, Walk, AddGap, TileAll, PartOf, Searched;
    out := spool;
    var pad := Padding(stored);
    if pad >= |stored| {
      return Unusable, out;
    }
    var hit := SearchRun(f, stored, window, goesOn, pc.llen, known, dict);
    HitReencodes(f, stored, window, goesOn, pc.llen, Presets(known), dict, 0, false);
    if !hit.Hit? {
      r := if hit.Short? then MarginShort else if hit.NoMatch? then Unmatched else Unusable;
      return;
    }
    var inputs;
    inputs, out := TileInputs(covers, pc.la, hit.fed, window, spool);
    if PartsOf(inputs) == {} {
      return Unmatched, out;
    }
    r := NodeMade(PClusterNode(|stored|, f.sha256(stored), pad, hit.preset, dict, inputs), hit.preset);
  }

  /** A node is made exactly when the stored bytes are not all padding, some run reproduces them before the
      encoder fails, and a cover has part of what that run was fed. */
  lemma {:induction false} NodeIsMadeIff(f: Codecs, pc: StoredPc, stored: Bytes, window: Bytes, goesOn: bool, covers: seq<Cover>, known: Option<nat>,
                                         dict: nat, spool: Bytes)
    ensures var hit := Searched(f, stored, window, goesOn, pc.llen, Presets(known), dict, 0, false);
            PlannedOf(f, pc, stored, window, goesOn, covers, known, dict, spool).0.NodeMade? <==>
            Padding(stored) < |stored| && hit.Hit? && Walk(covers, pc.la, pc.la + hit.fed) != []
  {
    hide Searched, Presets, Walk, WalkHolds, TileAll, Padding, Resize, Zeros;
    var hit := Searched(f, stored, window, goesOn, pc.llen, Presets(known), dict, 0, false);
    HitReencodes(f, stored, window, goesOn, pc.llen, Presets(known), dict, 0, false);
    if hit.Hit? {
      var pieces := Walk(covers, pc.la, pc.la + hit.fed);
      WalkIsOrdered(covers, pc.la, pc.la + hit.fed);
      TilingShape(pieces, covers, window, pc.la, pc.la, pc.la + hit.fed, [], spool);
      if pieces != [] {
        assert pieces[0] in pieces;
      }
    }
  }

  /** Planning only adds to the spool, and adds nothing where covers leave nothing out or no run is found. */
  lemma {:induction false} PlannedSpool(f: Codecs, pc: StoredPc, stored: Bytes, window: Bytes, goesOn: bool, covers: seq<Cover>, known: Option<nat>,
                                        dict: nat, spool: Bytes)
    ensures var (r, out) := PlannedOf(f, pc, stored, window, goesOn, covers, known, dict, spool);
            spool <= out && (!r.NodeMade? && !r.Unmatched? ==> out == spool)
            && (Covered(covers, pc.la, pc.la + |window|) ==> out == spool)
  {
    hide Searched, Presets, Walk, WalkHolds, TileAll;
    var hit := Searched(f, stored, window, goesOn, pc.llen, Presets(known), dict, 0, false);
    HitReencodes(f, stored, window, goesOn, pc.llen, Presets(known), dict, 0, false);
    if hit.Hit? {
      WalkIsOrdered(covers, pc.la, pc.la + hit.fed);
      TilingGrows(Walk(covers, pc.la, pc.la + hit.fed), covers, window, pc.la, pc.la, pc.la + hit.fed, [], spool);
      if Covered(covers, pc.la, pc.la + |window|) {
        CoveredTilesWithoutLiterals(covers, window, pc.la, hit.fed, spool);
      }
    }
  }

  /** What the encoder is fed is the stream's wherever a cover has it. */
  predicate Agrees(window: Bytes, stream: Bytes, la: nat, covers: seq<Cover>) {
    la + |window| <= |stream| && forall x: nat :: la <= x < la + |window| && CoveredBy(covers, x) ==> window[x - la] == stream[x]
  }

  lemma RunsAgree(window: Bytes, stream: Bytes, la: nat, covers: seq<Cover>)
    requires Same(window, 0, stream, la, |window|)
    ensures Agrees(window, stream, la, covers)
  {
    forall x: nat | la <= x < la + |window|
      ensures window[x - la] == stream[x]
    {
      assert Cut(window, 0, |window|)[x - la] == Cut(stream, la, |window|)[x - la];
    }
  }

  /** A node names only its covers' members, and is true wherever the covers it slices are and what was fed
      agrees with the stream on every byte a cover has. */
  lemma PlannedIsTrue(f: Codecs, pc: StoredPc, stored: Bytes, window: Bytes, goesOn: bool, covers: seq<Cover>, known: Option<nat>,
                      dict: nat, spool: Bytes, truth: seq<Bytes>, stream: Bytes)
    requires Plausible(pc, stored)
    requires PlannedOf(f, pc, stored, window, goesOn, covers, known, dict, spool).0.NodeMade?
    ensures var (r, out) := PlannedOf(f, pc, stored, window, goesOn, covers, known, dict, spool);
            PartsNamed(covers, r.node) && r.node.size == |stored|
            && (Agrees(window, stream, pc.la, covers) && PartsHold(truth, stream, covers, r.node) ==> NodeHolds(f, r.node, stored, truth, out))
  {
    hide Searched, Presets, Walk, WalkHolds, TileAll, NodeHolds, PartsHold, Plausible, Agrees;
    var hit := Searched(f, stored, window, goesOn, pc.llen, Presets(known), dict, 0, false);
    HitReencodes(f, stored, window, goesOn, pc.llen, Presets(known), dict, 0, false);
    WalkIsOrdered(covers, pc.la, pc.la + hit.fed);
    var (r, out) := PlannedOf(f, pc, stored, window, goesOn, covers, known, dict, spool);
    NodeNames(covers, pc.la, hit.fed, window, spool, r.node);
    if Agrees(window, stream, pc.la, covers) && PartsHold(truth, stream, covers, r.node) {
      NodeIsTrue(f, pc, stored, window, covers, hit.preset, hit.fed, dict, spool, r.node, out, truth, stream);
    }
  }

  lemma NodeNames(covers: seq<Cover>, la: nat, fed: nat, window: Bytes, spool: Bytes, node: PClusterNode)
    requires fed <= |window| && WalkHolds(Walk(covers, la, la + fed), covers, la, la + fed)
    requires node.inputs == TileAll(Walk(covers, la, la + fed), covers, window, la, la, la + fed, [], spool).0
    ensures PartsNamed(covers, node)
  {
    hide WalkHolds, Walk, AddGap, TileAll, PartOf;
    var pieces := Walk(covers, la, la + fed);
    TilingShape(pieces, covers, window, la, la, la + fed, [], spool);
    PiecesComeFromCovers(pieces, covers, la, la + fed);
    forall idx | idx in PartsOf(node.inputs)
      ensures exists cv :: cv in covers && cv.idx == idx
    {
      var k :| 0 <= k < |node.inputs| && node.inputs[k].Part? && node.inputs[k].idx == idx;
      var p :| p in pieces && p.cv.idx == idx;
      assert p.cv in covers;
    }
  }

  lemma {:induction false} PiecesComeFromCovers(pieces: seq<Piece>, covers: seq<Cover>, pos: nat, end: nat)
    requires WalkHolds(pieces, covers, pos, end)
    ensures forall p :: p in pieces ==> p.cv in covers
  {
    if pieces != [] {
      PiecesComeFromCovers(pieces[1..], covers, pieces[0].hi, end);
      assert forall p :: p in pieces ==> p == pieces[0] || p in pieces[1..];
    }
  }

  lemma NodeIsTrue(f: Codecs, pc: StoredPc, stored: Bytes, window: Bytes, covers: seq<Cover>, preset: nat, fed: nat, dict: nat,
                   spool: Bytes, node: PClusterNode, out: Bytes, truth: seq<Bytes>, stream: Bytes)
    requires Plausible(pc, stored) && Padding(stored) < |stored| && fed <= |window| && fed <= pc.llen + ENCODE_MARGIN
    requires WalkHolds(Walk(covers, pc.la, pc.la + fed), covers, pc.la, pc.la + fed)
    requires (node.inputs, out) == TileAll(Walk(covers, pc.la, pc.la + fed), covers, window, pc.la, pc.la, pc.la + fed, [], spool)
    requires node == PClusterNode(|stored|, f.sha256(stored), Padding(stored), preset, dict, node.inputs)
    requires Reencode(f, window[..fed], |stored|, Padding(stored), preset, dict) == Some(stored)
    requires Agrees(window, stream, pc.la, covers) && PartsHold(truth, stream, covers, node)
    ensures NodeHolds(f, node, stored, truth, out)
  {
    hide WalkHolds, Walk, AddGap, TileAll, PartOf, Mixed;
    var pieces, end := Walk(covers, pc.la, pc.la + fed), pc.la + fed;
    TilingShape(pieces, covers, window, pc.la, pc.la, end, [], spool);
    PiecesComeFromCovers(pieces, covers, pc.la, end);
    assert PiecesHold(truth, stream, pieces);
    TilingDenotes(pieces, covers, truth, stream, window, pc.la, pc.la, end, [], spool, []);
    WindowTiles(covers, stream, window, pc.la, fed);
    assert [] + window[..fed] == window[..fed];
  }

  lemma WindowTiles(covers: seq<Cover>, stream: Bytes, window: Bytes, la: nat, fed: nat)
    requires Agrees(window, stream, la, covers) && fed <= |window|
    requires WalkHolds(Walk(covers, la, la + fed), covers, la, la + fed)
    ensures Mixed(Walk(covers, la, la + fed), covers, stream, window, la, la, la + fed) == window[..fed]
  {
    forall x: nat | la <= x < la + fed && Taken(Walk(covers, la, la + fed), x)
      ensures window[x - la] == stream[x]
    {
      NothingTakenOutside(Walk(covers, la, la + fed), covers, la, la + fed, x);
    }
    TilingReproducesIff(covers, stream, window, la, fed);
  }
}
