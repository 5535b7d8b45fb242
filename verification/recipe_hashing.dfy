/**
 Hashing covers as the packed stream goes by: which covers are taken up, what each pcluster adds to
 them, what becomes of one that runs into a hole, and which members have to be given up.
 */
module RecipeHashing {
  import opened Wrappers
  import opened ByteStrings
  import opened RecipePlan
  import opened RecipeTree
  import opened RecipeTiling
  import opened RecipeCovers
  import opened RecipePCluster

  datatype Elig = Leave | TryEncode | TryVerbatim

  // ------------------------------------------------------------- the stored stream

  const WORD: nat := 0x1_0000_0000_0000_0000

  /** What the packed inode stores, and what each pcluster decodes to: in stream order, each decode
      yielding its span (a decode past what the format allows fails). Between two of them the stream may
      have a hole, which reads as zeros. */
  predicate PackedStream(pcs: seq<StoredPc>, decoded: seq<Option<Bytes>>, stream: Bytes) {
    && |decoded| == |pcs| && |stream| < WORD
    && (forall k :: 0 <= k < |pcs| ==> pcs[k].llen > 0 && pcs[k].End() <= |stream|)
    && (forall k :: 0 <= k < |pcs| - 1 ==> pcs[k].End() <= pcs[k + 1].la)
    && (forall k, x :: 0 <= k < |pcs| - 1 && pcs[k].End() <= x < pcs[k + 1].la ==> stream[x] == 0)
    && (forall k :: 0 <= k < |pcs| && decoded[k].Some? ==>
          && decoded[k].value == Cut(stream, pcs[k].la, pcs[k].llen)
          && pcs[k].plen <= PCLUSTER_MAX_SIZE && pcs[k].llen <= PCLUSTER_MAX_DSIZE)
  }

  /** The next pcluster's bytes are the stream's right after this one's. */
  predicate NoHoleAfter(pcs: seq<StoredPc>, k: nat) {
    k + 1 < |pcs| ==> pcs[k].End() == pcs[k + 1].la
  }

  lemma {:induction false} StreamOrder(pcs: seq<StoredPc>, decoded: seq<Option<Bytes>>, stream: Bytes, j: nat, k: nat)
    requires PackedStream(pcs, decoded, stream) && j < k < |pcs|
    ensures pcs[j].End() <= pcs[k].la
    ensures j + 1 < k ==> pcs[j].End() < pcs[k].la
    decreases k - j
  {
    if j + 1 < k {
      StreamOrder(pcs, decoded, stream, j + 1, k);
    }
  }

  // ------------------------------------------------------------- hashing covers

  /** A cover being hashed: the bytes up to `pos` are in. */
  datatype Active = Active(ci: nat, pos: nat, hashed: Bytes)

  /** What the sweep hashes against: the covers worth verifying, the members' digests, and whether the
      build checks its arithmetic or lets it wrap. */
  datatype Marks = Marks(f: Codecs, used: seq<Cover>, digests: nat -> Digest, checked: bool)

  predicate ActiveHolds(m: Marks, stream: Bytes, a: Active) {
    && a.ci < |m.used| && !m.used[a.ci].proved
    && m.used[a.ci].pstart <= a.pos <= |stream| && a.pos <= m.used[a.ci].End()
    && a.hashed == stream[m.used[a.ci].pstart..a.pos]
  }

  /** The cover's bytes in the stream hash to its member's digest. */
  predicate Verified(m: Marks, stream: Bytes, cv: Cover) {
    cv.End() <= |stream| && m.f.sha256(Cut(stream, cv.pstart, cv.len)) == m.digests(cv.idx)
  }

  /** Cover `ci` needs no hashing, is being hashed, was hashed, or its member is given up. */
  predicate Accounted(m: Marks, stream: Bytes, active: seq<Active>, failed: set<nat>, ci: nat)
    requires ci < |m.used|
  {
    m.used[ci].proved || m.used[ci].idx in failed || Verified(m, stream, m.used[ci]) || exists j :: 0 <= j < |active| && active[j].ci == ci
  }

  /** The covers before `cursor` are accounted for, and those being hashed stand before `hi`. */
  predicate Hashing(m: Marks, stream: Bytes, cursor: nat, active: seq<Active>, failed: set<nat>, hi: nat) {
    && cursor <= |m.used|
    && (forall ci :: 0 <= ci < cursor ==> Accounted(m, stream, active, failed, ci))
    && (forall j :: 0 <= j < |active| ==> ActiveHolds(m, stream, active[j]) && active[j].pos < hi)
  }

  /** The covers being hashed stand at `at` or before it, with bytes still to come. */
  predicate Waiting(m: Marks, stream: Bytes, cursor: nat, active: seq<Active>, failed: set<nat>, at: nat) {
    && Hashing(m, stream, cursor, active, failed, at + 1)
    && forall j :: 0 <= j < |active| ==> active[j].pos < m.used[active[j].ci].End()
  }

  /** Take up the covers that start before `end`; one that starts before `la` was never decoded
      from its start. */
  method AdmitCovers(m: Marks, ghost stream: Bytes, cursor0: nat, active0: seq<Active>, failed0: set<nat>, la: nat, end: nat)
    returns (cursor: nat, active: seq<Active>, failed: set<nat>)
    requires la < end <= |stream| && Waiting(m, stream, cursor0, active0, failed0, la)
    ensures Hashing(m, stream, cursor, active, failed, end) && LateAreGivenUp(m, cursor0, cursor, failed0, failed, la)
    ensures Admitted(m, cursor0, active0, cursor, active, la, end) && (cursor < |m.used| ==> m.used[cursor].pstart >= end)
  {
    hide Accounted, Has, Hashing, Admitted, Waiting, LateAreGivenUp;
    assert LateAreGivenUp(m, cursor0, cursor0, failed0, failed0, la) by { NoneLate(m, cursor0, failed0, la); }
    AdmitNone(m, stream, cursor0, active0, failed0, la, end);
    cursor, active, failed := cursor0, active0, failed0;
    while cursor < |m.used| && m.used[cursor].pstart < end
      invariant Hashing(m, stream, cursor, active, failed, end) && LateAreGivenUp(m, cursor0, cursor, failed0, failed, la)
      invariant Admitted(m, cursor0, active0, cursor, active, la, end)
    {
      var cv := m.used[cursor];
      LateNext(m, cursor0, cursor, failed0, failed, la);
      AdmitStep(m, cursor0, active0, cursor, active, la, end);
      if !cv.proved {
        if cv.pstart < la {
          GiveUp(m, stream, cursor, active, failed, end);
          failed := failed + {cv.idx};
        } else {
          TakeUp(m, stream, cursor, active, failed, end);
          active := active + [Active(cursor, cv.pstart, [])];
        }
      } else {
        NoNeed(m, stream, cursor, active, failed, end);
      }
      cursor := cursor + 1;
    }
  }

  /** Cover `ci` was taken up too late: its start was not decoded. */
  predicate Late(m: Marks, ci: nat, idx: nat, from: nat, to: nat, la: nat) {
    from <= ci < to && ci < |m.used| && !m.used[ci].proved && m.used[ci].pstart < la && m.used[ci].idx == idx
  }

  /** The members of late covers are given up, and no others. */
  ghost predicate LateAreGivenUp(m: Marks, cursor0: nat, cursor: nat, failed0: set<nat>, failed: set<nat>, la: nat) {
    forall idx :: idx in failed <==> idx in failed0 || exists ci: nat :: Late(m, ci, idx, cursor0, cursor, la)
  }

  lemma NoneLate(m: Marks, cursor: nat, failed: set<nat>, la: nat)
    ensures LateAreGivenUp(m, cursor, cursor, failed, failed, la)
  {
  }

  lemma LateNext(m: Marks, cursor0: nat, cursor: nat, failed0: set<nat>, failed: set<nat>, la: nat)
    requires cursor < |m.used| && LateAreGivenUp(m, cursor0, cursor, failed0, failed, la) && cursor0 <= cursor
    ensures var cv := m.used[cursor];
            LateAreGivenUp(m, cursor0, cursor + 1, failed0, if !cv.proved && cv.pstart < la then failed + {cv.idx} else failed, la)
  {
    var cv := m.used[cursor];
    var now := if !cv.proved && cv.pstart < la then failed + {cv.idx} else failed;
    var next: nat := cursor + 1;
    forall idx
      ensures idx in now <==> idx in failed0 || exists ci: nat :: Late(m, ci, idx, cursor0, next, la)
    {
      if ci: nat :| Late(m, ci, idx, cursor0, cursor, la) {
        assert Late(m, ci, idx, cursor0, next, la);
      }
      if idx in now && idx !in failed {
        assert Late(m, cursor, idx, cursor0, next, la);
      }
      if ci: nat :| Late(m, ci, idx, cursor0, next, la) {
        assert ci == cursor || Late(m, ci, idx, cursor0, cursor, la);
      }
    }
  }

  /** What an admission adds: the unproved covers that start in `[la, end)`, at their start. */
  predicate Admitted(m: Marks, cursor0: nat, active0: seq<Active>, cursor: nat, active: seq<Active>, la: nat, end: nat) {
    && cursor0 <= cursor <= |m.used| && active0 <= active
    && (forall ci :: cursor0 <= ci < cursor ==> m.used[ci].pstart < end)
    && (forall j :: |active0| <= j < |active| ==>
          cursor0 <= active[j].ci < cursor && la <= m.used[active[j].ci].pstart == active[j].pos < end)
    && (forall ci :: cursor0 <= ci < cursor && !m.used[ci].proved && la <= m.used[ci].pstart ==>
          Has(active, ci, m.used[ci].pstart))
  }

  /** Cover `ci` is being hashed, and stands at `pos`. */
  predicate Has(active: seq<Active>, ci: nat, pos: nat) {
    exists a :: a in active && a.ci == ci && a.pos == pos
  }

  lemma AdmitStep(m: Marks, cursor0: nat, active0: seq<Active>, cursor: nat, active: seq<Active>, la: nat, end: nat)
    requires Admitted(m, cursor0, active0, cursor, active, la, end) && cursor < |m.used| && m.used[cursor].pstart < end
    ensures var cv := m.used[cursor];
            Admitted(m, cursor0, active0, cursor + 1,
                     if !cv.proved && cv.pstart >= la then active + [Active(cursor, cv.pstart, [])] else active, la, end)
  {
    var cv := m.used[cursor];
    var more := if !cv.proved && cv.pstart >= la then active + [Active(cursor, cv.pstart, [])] else active;
    assert forall a :: a in active ==> a in more;
    forall ci | cursor0 <= ci < cursor + 1 && !m.used[ci].proved && la <= m.used[ci].pstart
      ensures Has(more, ci, m.used[ci].pstart)
    {
      if ci < cursor {
        assert Has(active, ci, m.used[ci].pstart);
      } else {
        assert Active(cursor, cv.pstart, []) in more;
      }
    }
  }

  lemma AdmitNone(m: Marks, stream: Bytes, cursor: nat, active: seq<Active>, failed: set<nat>, la: nat, end: nat)
    requires la < end && Waiting(m, stream, cursor, active, failed, la)
    ensures Hashing(m, stream, cursor, active, failed, end) && Admitted(m, cursor, active, cursor, active, la, end)
  {
  }

  lemma NoNeed(m: Marks, stream: Bytes, cursor: nat, active: seq<Active>, failed: set<nat>, hi: nat)
    requires Hashing(m, stream, cursor, active, failed, hi) && cursor < |m.used| && m.used[cursor].proved
    ensures Hashing(m, stream, cursor + 1, active, failed, hi)
  {
  }

  lemma GiveUp(m: Marks, stream: Bytes, cursor: nat, active: seq<Active>, failed: set<nat>, hi: nat)
    requires Hashing(m, stream, cursor, active, failed, hi) && cursor < |m.used|
    ensures Hashing(m, stream, cursor + 1, active, failed + {m.used[cursor].idx}, hi)
  {
    forall ci | 0 <= ci < cursor + 1
      ensures Accounted(m, stream, active, failed + {m.used[cursor].idx}, ci)
    {
      assert ci < cursor ==> Accounted(m, stream, active, failed, ci);
    }
  }

  lemma TakeUp(m: Marks, stream: Bytes, cursor: nat, active: seq<Active>, failed: set<nat>, hi: nat)
    requires Hashing(m, stream, cursor, active, failed, hi) && cursor < |m.used| && hi <= |stream|
    requires !m.used[cursor].proved && m.used[cursor].pstart < hi
    ensures Hashing(m, stream, cursor + 1, active + [Active(cursor, m.used[cursor].pstart, [])], failed, hi)
  {
    var more := active + [Active(cursor, m.used[cursor].pstart, [])];
    forall ci | 0 <= ci < cursor + 1
      ensures Accounted(m, stream, more, failed, ci)
    {
      if ci < cursor && Accounted(m, stream, active, failed, ci) {
        assert forall j :: 0 <= j < |active| ==> more[j] == active[j];
      } else {
        assert more[|active|].ci == cursor;
      }
    }
  }

  // ------------------------------------------------------------- feeding one pcluster

  /** Subtraction in 64 bits. */
  function Wrapped(a: nat, b: nat): nat
    requires b <= WORD
  {
    if a >= b then a - b else WORD - b + a
  }

  /** Feed the pcluster `bytes` at `la` to one cover being hashed. None is a panic: a subtraction that
      overflows in a build that checks, or a slice out of range. */
  function Feed(m: Marks, a: Active, la: nat, bytes: Bytes): Option<Active>
    requires a.ci < |m.used| && la + |bytes| < WORD
  {
    var to := Min(m.used[a.ci].End(), la + |bytes|);
    if m.checked && (a.pos < la || to < la) then None
    else
      var lo, hi := Wrapped(a.pos, la), Wrapped(to, la);
      if hi > lo then (if hi > |bytes| then None else Some(Active(a.ci, la + hi, a.hashed + bytes[lo..hi])))
      else Some(a)
  }

  /** A cover that stands before the pcluster has run into a hole: a build that checks panics, one that
      wraps panics if the cover ends in the hole, and otherwise nothing is hashed and it stands still. */
  predicate Stuck(m: Marks, a: Active, la: nat) {
    a.ci < |m.used| && a.pos < la && (m.checked || m.used[a.ci].End() < la)
  }

  predicate AnyStuck(m: Marks, active: seq<Active>, la: nat) {
    exists a :: a in active && Stuck(m, a, la)
  }

  lemma FeedPanicsIffStuck(m: Marks, a: Active, la: nat, bytes: Bytes)
    requires a.ci < |m.used| && la + |bytes| < WORD && a.pos < m.used[a.ci].End() && a.pos < la + |bytes|
    ensures Feed(m, a, la, bytes).None? <==> Stuck(m, a, la)
    ensures a.pos < la && !Stuck(m, a, la) ==> Feed(m, a, la, bytes) == Some(a)
  {
  }

  /** A cover that has kept up takes what the pcluster has of it. */
  lemma FeedTakes(m: Marks, was: Active, la: nat, bytes: Bytes)
    requires was.ci < |m.used| && la + |bytes| < WORD && la <= was.pos < la + |bytes| && was.pos <= m.used[was.ci].End()
    ensures var to := Min(m.used[was.ci].End(), la + |bytes|);
            Feed(m, was, la, bytes) == Some(if to > was.pos then Active(was.ci, to, was.hashed + bytes[was.pos - la..to - la]) else was)
  {
  }

  lemma Fed(m: Marks, stream: Bytes, was: Active, la: nat, bytes: Bytes)
    requires la + |bytes| <= |stream| < WORD && bytes == Cut(stream, la, |bytes|)
    requires ActiveHolds(m, stream, was) && la <= was.pos < la + |bytes|
    ensures Feed(m, was, la, bytes).Some?
    ensures var a := Feed(m, was, la, bytes).value;
            ActiveHolds(m, stream, a) && a.ci == was.ci && a.pos == Min(m.used[a.ci].End(), la + |bytes|)
            && (a.pos >= m.used[a.ci].End() ==> a.hashed == Cut(stream, m.used[a.ci].pstart, m.used[a.ci].len))
  {
    var to := Min(m.used[was.ci].End(), la + |bytes|);
    assert was.ci < |m.used| && was.pos <= m.used[was.ci].End();
    hide Feed, ActiveHolds, Cut;
    FeedTakes(m, was, la, bytes);
    SliceOfCut(stream, la, bytes, was.pos, to);
    MovesOn(m, stream, was, to);
  }

  lemma MovesOn(m: Marks, stream: Bytes, was: Active, to: nat)
    requires ActiveHolds(m, stream, was) && was.pos <= to <= |stream| && to <= m.used[was.ci].End()
    ensures var a := if to > was.pos then Active(was.ci, to, was.hashed + stream[was.pos..to]) else was;
            ActiveHolds(m, stream, a) && (to == m.used[a.ci].End() ==> a.hashed == Cut(stream, m.used[a.ci].pstart, m.used[a.ci].len))
  {
    Joined(stream, m.used[was.ci].pstart, was.pos, to);
  }

  lemma SliceOfCut(stream: Bytes, la: nat, bytes: Bytes, from: nat, to: nat)
    requires la + |bytes| <= |stream| && bytes == Cut(stream, la, |bytes|) && la <= from <= to <= la + |bytes|
    ensures bytes[from - la..to - la] == stream[from..to]
  {
  }

  lemma Joined(s: Bytes, a: nat, b: nat, c: nat)
    requires a <= b <= c <= |s|
    ensures s[a..b] + s[b..c] == s[a..c]
  {
  }

  /** What one cover has become: past its end, or waiting with what it has. */
  lemma FedOrStuck(m: Marks, stream: Bytes, was: Active, la: nat, bytes: Bytes)
    requires la + |bytes| <= |stream| < WORD && bytes == Cut(stream, la, |bytes|)
    requires ActiveHolds(m, stream, was) && was.pos < la + |bytes| && (was.pos < la ==> was.pos < m.used[was.ci].End())
    ensures Feed(m, was, la, bytes).None? <==> Stuck(m, was, la)
    ensures !Stuck(m, was, la) ==>
              var a := Feed(m, was, la, bytes).value;
              ActiveHolds(m, stream, a) && a.ci == was.ci && a.pos <= la + |bytes|
              && (if was.pos < la then a == was else a.pos == Min(m.used[a.ci].End(), la + |bytes|))
              && (a.pos >= m.used[a.ci].End() ==> a.hashed == Cut(stream, m.used[a.ci].pstart, m.used[a.ci].len))
  {
    hide Feed;
    if was.pos < la {
      FeedPanicsIffStuck(m, was, la, bytes);
    } else {
      Fed(m, stream, was, la, bytes);
    }
  }

  /** Where a cover still waiting after a pcluster may stand: at its end, or where it was stuck. */
  predicate Moved(active0: seq<Active>, active: seq<Active>, la: nat, end: nat) {
    forall a :: a in active ==>
      (a.pos == end && exists x :: x in active0 && x.ci == a.ci && la <= x.pos) || (a.pos < la && a in active0)
  }

  /** Nothing among the first `n` that has bytes still to come is lost: a stuck cover stays as it is, any
      other stands at the end of the pcluster. */
  predicate Held(m: Marks, active0: seq<Active>, n: nat, active: seq<Active>, la: nat, end: nat)
    requires n <= |active0|
  {
    forall i :: 0 <= i < n ==> StillThere(m, active0[i], active, la, end)
  }

  predicate StillThere(m: Marks, a: Active, active: seq<Active>, la: nat, end: nat) {
    if a.pos < la then a in active else a.ci < |m.used| && end < m.used[a.ci].End() ==> Has(active, a.ci, end)
  }

  /** Feed one pcluster's bytes to the covers being hashed; a cover that ends here is compared with
      its member's digest. It panics exactly when a cover is stuck. */
  method HashActive(m: Marks, ghost stream: Bytes, cursor: nat, active0: seq<Active>, failed0: set<nat>, la: nat, bytes: Bytes)
    returns (active: seq<Active>, failed: set<nat>, panics: bool)
    requires bytes != [] && la + |bytes| <= |stream| < WORD && bytes == Cut(stream, la, |bytes|)
    requires Hashing(m, stream, cursor, active0, failed0, la + |bytes|)
    requires forall j :: 0 <= j < |active0| && active0[j].pos < la ==> active0[j].pos < m.used[active0[j].ci].End()
    ensures panics <==> AnyStuck(m, active0, la)
    ensures !panics ==> Waiting(m, stream, cursor, active, failed, la + |bytes|) && OnlyDiffering(m, stream, failed0, failed)
    ensures !panics ==> Moved(active0, active, la, la + |bytes|) && Held(m, active0, |active0|, active, la, la + |bytes|)
  {
    hide Feed, Stuck, ActiveHolds, Accounted, Moved, Held, Retaining, Waiting, Differs;
    var end := la + |bytes|;
    active, failed, panics := [], failed0, false;
    NoneFed(m, stream, cursor, active0, failed0, la, end);
    for j := 0 to |active0|
      invariant Retaining(m, stream, cursor, active0, j, active, failed, end) && OnlyDiffering(m, stream, failed0, failed)
      invariant forall i :: 0 <= i < j ==> !Stuck(m, active0[i], la)
      invariant Moved(active0, active, la, end) && Held(m, active0, j, active, la, end)
    {
      var was := active0[j];
      NextHolds(m, stream, cursor, active0, j, active, failed, end);
      FedOrStuck(m, stream, was, la, bytes);
      var fed := Feed(m, was, la, bytes);
      if fed.None? {
        return [], failed, true;
      }
      var a := fed.value;
      var cv := m.used[a.ci];
      ghost var before := active;
      if a.pos < cv.End() {
        Retained(m, stream, cursor, active0, j, active, failed, end, a);
        active := active + [a];
      } else {
        var good := m.f.sha256(a.hashed) == m.digests(cv.idx);
        assert !good ==> Differs(m, stream, a.ci, cv.idx) by { BadDiffers(m, stream, a); }
        Dropped(m, stream, cursor, active0, j, active, failed, end, a);
        failed := if good then failed else failed + {cv.idx};
      }
      StillHeld(m, active0, j, before, active, la, end, a);
    }
    AllRetained(m, stream, cursor, active0, active, failed, end);
  }

  /** An unproved cover whose bytes do not hash to its member's digest. */
  predicate Differs(m: Marks, stream: Bytes, ci: nat, idx: nat) {
    ci < |m.used| && !m.used[ci].proved && m.used[ci].idx == idx && !Verified(m, stream, m.used[ci])
  }

  /** Every member newly given up has a cover that hashed to another digest. */
  ghost predicate OnlyDiffering(m: Marks, stream: Bytes, failed0: set<nat>, failed: set<nat>) {
    failed0 <= failed && forall idx :: idx in failed && idx !in failed0 ==> exists ci: nat :: Differs(m, stream, ci, idx)
  }

  lemma BadDiffers(m: Marks, stream: Bytes, a: Active)
    requires ActiveHolds(m, stream, a) && m.used[a.ci].End() <= |stream|
    requires a.hashed == Cut(stream, m.used[a.ci].pstart, m.used[a.ci].len)
    ensures m.f.sha256(a.hashed) != m.digests(m.used[a.ci].idx) ==> Differs(m, stream, a.ci, m.used[a.ci].idx)
  {
  }

  lemma StillHeld(m: Marks, active0: seq<Active>, j: nat, before: seq<Active>, active: seq<Active>, la: nat, end: nat, a: Active)
    requires j < |active0| && Moved(active0, before, la, end) && Held(m, active0, j, before, la, end)
    requires a.ci == active0[j].ci < |m.used| && (active0[j].pos < la ==> active0[j].pos < m.used[active0[j].ci].End())
    requires (a.pos == Min(m.used[a.ci].End(), end) && la <= active0[j].pos) || (a == active0[j] && a.pos < la)
    requires active == if a.pos < m.used[a.ci].End() then before + [a] else before
    requires end > la
    ensures Moved(active0, active, la, end) && Held(m, active0, j + 1, active, la, end)
  {
    assert forall x :: x in before ==> x in active;
    assert a.pos < m.used[a.ci].End() ==> a in active;
    assert active0[j] in active0;
    forall i | 0 <= i < j
      ensures StillThere(m, active0[i], active, la, end)
    {
      assert StillThere(m, active0[i], before, la, end);
    }
  }

  lemma NoneFed(m: Marks, stream: Bytes, cursor: nat, active0: seq<Active>, failed: set<nat>, la: nat, end: nat)
    requires Hashing(m, stream, cursor, active0, failed, end)
    ensures Retaining(m, stream, cursor, active0, 0, [], failed, end) && Moved(active0, [], la, end) && Held(m, active0, 0, [], la, end)
  {
    assert [] + active0[0..] == active0;
  }

  lemma NextHolds(m: Marks, stream: Bytes, cursor: nat, active0: seq<Active>, j: nat, active: seq<Active>, failed: set<nat>, end: nat)
    requires j < |active0| && Retaining(m, stream, cursor, active0, j, active, failed, end)
    ensures ActiveHolds(m, stream, active0[j]) && active0[j].pos < end && active0[j].ci < |m.used|
  {
  }

  lemma AllRetained(m: Marks, stream: Bytes, cursor: nat, active0: seq<Active>, active: seq<Active>, failed: set<nat>, end: nat)
    requires Retaining(m, stream, cursor, active0, |active0|, active, failed, end)
    ensures Waiting(m, stream, cursor, active, failed, end)
  {
    assert active + active0[|active0|..] == active;
  }

  /** The first `j` covers have been fed: kept ones wait; the rest are as they were. */
  predicate Retaining(m: Marks, stream: Bytes, cursor: nat, active0: seq<Active>, j: nat, active: seq<Active>, failed: set<nat>, end: nat)
    requires j <= |active0|
  {
    && Waiting(m, stream, 0, active, failed, end) && cursor <= |m.used|
    && (forall ci :: 0 <= ci < cursor ==> Accounted(m, stream, active + active0[j..], failed, ci))
    && (forall l :: j <= l < |active0| ==> ActiveHolds(m, stream, active0[l]) && active0[l].pos < end)
  }

  lemma Retained(m: Marks, stream: Bytes, cursor: nat, active0: seq<Active>, j: nat, active: seq<Active>, failed: set<nat>, end: nat, a: Active)
    requires j < |active0| && Retaining(m, stream, cursor, active0, j, active, failed, end)
    requires ActiveHolds(m, stream, a) && a.ci == active0[j].ci && a.pos <= end && a.pos < m.used[a.ci].End()
    ensures Retaining(m, stream, cursor, active0, j + 1, active + [a], failed, end)
  {
    hide ActiveHolds;
    var before, after := active + active0[j..], (active + [a]) + active0[j + 1..];
    assert |before| == |after|;
    assert forall l :: 0 <= l < |before| ==> before[l].ci == after[l].ci;
    forall ci | 0 <= ci < cursor
      ensures Accounted(m, stream, after, failed, ci)
    {
      assert Accounted(m, stream, before, failed, ci);
    }
  }

  lemma Dropped(m: Marks, stream: Bytes, cursor: nat, active0: seq<Active>, j: nat, active: seq<Active>, failed: set<nat>, end: nat, a: Active)
    requires j < |active0| && Retaining(m, stream, cursor, active0, j, active, failed, end)
    requires a.ci == active0[j].ci < |m.used| && m.used[a.ci].End() <= |stream|
    requires a.hashed == Cut(stream, m.used[a.ci].pstart, m.used[a.ci].len)
    ensures var cv := m.used[a.ci];
            var now := if m.f.sha256(a.hashed) == m.digests(cv.idx) then failed else failed + {cv.idx};
            Retaining(m, stream, cursor, active0, j + 1, active, now, end)
  {
    hide ActiveHolds;
    var cv := m.used[a.ci];
    var now := if m.f.sha256(a.hashed) == m.digests(cv.idx) then failed else failed + {cv.idx};
    var before, after := active + active0[j..], active + active0[j + 1..];
    forall ci | 0 <= ci < cursor
      ensures Accounted(m, stream, after, now, ci)
    {
      assert Accounted(m, stream, before, failed, ci);
      if ci != a.ci && exists l :: 0 <= l < |before| && before[l].ci == ci {
        var l :| 0 <= l < |before| && before[l].ci == ci;
        assert before[|active|] == active0[j];
        assert after[if l < |active| then l else l - 1] == before[l];
      }
    }
  }

  // ------------------------------------------------------------- what must decode

  predicate Overlaps(cv: Cover, pc: StoredPc) {
    cv.pstart < pc.End() && pc.la < cv.End()
  }

  /** What must decode: every eligible pcluster, and every one an unproved cover touches. */
  predicate NeedHolds(m: Marks, pcs: seq<StoredPc>, eligible: seq<Elig>, need: seq<bool>) {
    && |eligible| == |need| == |pcs|
    && (forall k :: 0 <= k < |pcs| && !eligible[k].Leave? ==> need[k])
    && (forall k, ci :: 0 <= k < |pcs| && 0 <= ci < |m.used| && !m.used[ci].proved && Overlaps(m.used[ci], pcs[k]) ==> need[k])
  }

  /** Where the covers stand before pcluster `k`: at its start at the latest. */
  function At(pcs: seq<StoredPc>, k: nat): nat
    requires k <= |pcs|
  {
    if k < |pcs| then pcs[k].la else if k > 0 then pcs[k - 1].End() else 0
  }

  lemma WaitsLonger(m: Marks, stream: Bytes, cursor: nat, active: seq<Active>, failed: set<nat>, at: nat, later: nat)
    requires Waiting(m, stream, cursor, active, failed, at) && at <= later
    ensures Waiting(m, stream, cursor, active, failed, later)
  {
  }

  // ------------------------------------------------------------- covers that run into holes

  /** An unproved cover starts in pcluster `i`, runs on through `j` without a hole, and goes on past it. */
  predicate RunsPast(m: Marks, pcs: seq<StoredPc>, ci: nat, i: nat, j: nat) {
    && ci < |m.used| && !m.used[ci].proved && i <= j < |pcs|
    && pcs[i].la <= m.used[ci].pstart < pcs[i].End() && pcs[j].End() < m.used[ci].End()
    && forall l :: i <= l < j ==> pcs[l].End() == pcs[l + 1].la
  }

  /** It runs into the hole after pcluster `j`, and pcluster `k`, the next to be decoded or a later one,
      trips over it. */
  predicate TripsAt(m: Marks, pcs: seq<StoredPc>, need: seq<bool>, ci: nat, i: nat, j: nat, k: nat) {
    && RunsPast(m, pcs, ci, i, j) && j < k < |pcs| == |need| && need[k] && pcs[j].End() < pcs[j + 1].la
    && (m.checked || m.used[ci].End() < pcs[k].la)
  }

  predicate Trips(m: Marks, pcs: seq<StoredPc>, need: seq<bool>) {
    exists k: nat :: k < |pcs| && TripsHere(m, pcs, need, k)
  }

  /** Before pcluster `k`, an active cover stands at the end of a pcluster it ran through, and everything
      that ran past one with a hole or nothing after it is there. */
  ghost predicate Standing(m: Marks, pcs: seq<StoredPc>, cursor: nat, active: seq<Active>, k: nat) {
    && k <= |pcs| && cursor <= |m.used|
    && (forall a :: a in active ==> StandsSomewhere(m, pcs, a, k))
    && (forall ci: nat, i: nat, j: nat :: Rests(m, pcs, ci, i, j, k) ==> Has(active, ci, pcs[j].End()))
    && (forall ci :: 0 <= ci < cursor ==> k > 0 && m.used[ci].pstart < pcs[k - 1].End())
  }

  ghost predicate StandsSomewhere(m: Marks, pcs: seq<StoredPc>, a: Active, k: nat) {
    exists i: nat, j: nat :: Stands(m, pcs, a, i, j, k)
  }

  /** Cover `ci` ran past pcluster `j`, the last one before `k` or one with a hole behind it. */
  predicate Rests(m: Marks, pcs: seq<StoredPc>, ci: nat, i: nat, j: nat, k: nat) {
    RunsPast(m, pcs, ci, i, j) && j < k && (j + 1 < k ==> !NoHoleAfter(pcs, j))
  }

  predicate Stands(m: Marks, pcs: seq<StoredPc>, a: Active, i: nat, j: nat, k: nat) {
    k <= |pcs| && Rests(m, pcs, a.ci, i, j, k) && a.pos == pcs[j].End()
  }

  /** A pcluster left undecoded touches nothing that still stands. */
  lemma StandsThroughSkipped(m: Marks, pcs: seq<StoredPc>, decoded: seq<Option<Bytes>>, stream: Bytes, eligible: seq<Elig>, need: seq<bool>,
                             cursor: nat, active: seq<Active>, k: nat)
    requires PackedStream(pcs, decoded, stream) && NeedHolds(m, pcs, eligible, need) && k < |pcs| && !need[k]
    requires Standing(m, pcs, cursor, active, k)
    ensures Standing(m, pcs, cursor, active, k + 1)
  {
    hide PackedStream, Has, NeedHolds;
    var n: nat := k + 1;
    forall ci: nat, i: nat, j: nat | Rests(m, pcs, ci, i, j, n)
      ensures Has(active, ci, pcs[j].End())
    {
      SkippedRests(m, pcs, decoded, stream, eligible, need, k, ci, i, j);
    }
    forall a | a in active
      ensures StandsSomewhere(m, pcs, a, k + 1)
    {
      var i: nat, j: nat :| Stands(m, pcs, a, i, j, k);
      SkippedRests(m, pcs, decoded, stream, eligible, need, k, a.ci, i, j);
      assert Stands(m, pcs, a, i, j, n);
    }
    EndsGrow(pcs, decoded, stream, k);
  }

  lemma EndsGrow(pcs: seq<StoredPc>, decoded: seq<Option<Bytes>>, stream: Bytes, k: nat)
    requires PackedStream(pcs, decoded, stream) && k < |pcs|
    ensures k > 0 ==> pcs[k - 1].End() <= pcs[k].la < pcs[k].End()
  {
  }

  /** No unproved cover reaches a pcluster left undecoded. */
  lemma SkippedRests(m: Marks, pcs: seq<StoredPc>, decoded: seq<Option<Bytes>>, stream: Bytes, eligible: seq<Elig>, need: seq<bool>, k: nat,
                     ci: nat, i: nat, j: nat)
    requires PackedStream(pcs, decoded, stream) && NeedHolds(m, pcs, eligible, need) && k < |pcs| && !need[k]
    ensures Rests(m, pcs, ci, i, j, k) <==> Rests(m, pcs, ci, i, j, k + 1)
  {
    if RunsPast(m, pcs, ci, i, j) && (j == k || (j + 1 == k && NoHoleAfter(pcs, j))) {
      Reaches(m, pcs, decoded, stream, k, ci, i, j);
    }
  }

  lemma Reaches(m: Marks, pcs: seq<StoredPc>, decoded: seq<Option<Bytes>>, stream: Bytes, k: nat, ci: nat, i: nat, j: nat)
    requires PackedStream(pcs, decoded, stream) && k < |pcs| && RunsPast(m, pcs, ci, i, j) && (j == k || (j + 1 == k && NoHoleAfter(pcs, j)))
    ensures Overlaps(m.used[ci], pcs[k])
  {
    StartsBefore(m, pcs, decoded, stream, ci, i, j);
  }

  lemma StartsBefore(m: Marks, pcs: seq<StoredPc>, decoded: seq<Option<Bytes>>, stream: Bytes, ci: nat, i: nat, j: nat)
    requires PackedStream(pcs, decoded, stream) && RunsPast(m, pcs, ci, i, j)
    ensures m.used[ci].pstart < pcs[j].End()
  {
    if i < j {
      StreamOrder(pcs, decoded, stream, i, j);
    }
  }

  /** What an admission leaves the hashes with before pcluster `k` is fed. */
  ghost predicate Taking(m: Marks, pcs: seq<StoredPc>, cursor0: nat, active0: seq<Active>, cursor: nat, mid: seq<Active>, k: nat) {
    && k < |pcs| && Standing(m, pcs, cursor0, active0, k) && Admitted(m, cursor0, active0, cursor, mid, pcs[k].la, pcs[k].End())
    && (cursor < |m.used| ==> m.used[cursor].pstart >= pcs[k].End())
    && forall a :: a in mid ==> a.ci < |m.used| && !m.used[a.ci].proved
  }

  /** Admission and feeding at a decoded pcluster keep everything standing. */
  lemma StandsThroughDecoded(m: Marks, pcs: seq<StoredPc>, decoded: seq<Option<Bytes>>, stream: Bytes, cursor0: nat, active0: seq<Active>,
                             cursor: nat, mid: seq<Active>, failed: set<nat>, active: seq<Active>, k: nat)
    requires PackedStream(pcs, decoded, stream) && SortedByStart(m.used) && Taking(m, pcs, cursor0, active0, cursor, mid, k)
    requires Waiting(m, stream, cursor, active, failed, pcs[k].End()) && Moved(mid, active, pcs[k].la, pcs[k].End())
    requires Held(m, mid, |mid|, active, pcs[k].la, pcs[k].End())
    ensures Standing(m, pcs, cursor, active, k + 1)
  {
    hide PackedStream, Has, Stands, Moved, Held, SortedByStart, ActiveHolds;
    forall a | a in active
      ensures StandsSomewhere(m, pcs, a, k + 1)
    {
      WaitingHasMore(m, stream, cursor, active, failed, pcs[k].End(), a);
      OneStands(m, pcs, decoded, stream, cursor0, active0, cursor, mid, active, k, a);
    }
    var n: nat := k + 1;
    forall ci: nat, i: nat, j: nat | Rests(m, pcs, ci, i, j, n)
      ensures Has(active, ci, pcs[j].End())
    {
      NoneIsLost(m, pcs, decoded, stream, cursor0, active0, cursor, mid, active, k, ci, i, j);
    }
    CursorMoves(m, pcs, decoded, stream, cursor0, active0, cursor, mid, k);
  }

  lemma CursorMoves(m: Marks, pcs: seq<StoredPc>, decoded: seq<Option<Bytes>>, stream: Bytes, cursor0: nat, active0: seq<Active>,
                    cursor: nat, mid: seq<Active>, k: nat)
    requires PackedStream(pcs, decoded, stream) && Taking(m, pcs, cursor0, active0, cursor, mid, k)
    ensures cursor <= |m.used| && forall ci :: 0 <= ci < cursor ==> m.used[ci].pstart < pcs[k].End()
  {
    EndsGrow(pcs, decoded, stream, k);
  }

  lemma WaitingHasMore(m: Marks, stream: Bytes, cursor: nat, active: seq<Active>, failed: set<nat>, at: nat, a: Active)
    requires Waiting(m, stream, cursor, active, failed, at) && a in active
    ensures a.ci < |m.used| && a.pos < m.used[a.ci].End()
  {
  }

  lemma OneStands(m: Marks, pcs: seq<StoredPc>, decoded: seq<Option<Bytes>>, stream: Bytes, cursor0: nat, active0: seq<Active>,
                  cursor: nat, mid: seq<Active>, active: seq<Active>, k: nat, a: Active)
    requires PackedStream(pcs, decoded, stream) && Taking(m, pcs, cursor0, active0, cursor, mid, k)
    requires Moved(mid, active, pcs[k].la, pcs[k].End()) && a in active && a.ci < |m.used| && a.pos < m.used[a.ci].End()
    ensures StandsSomewhere(m, pcs, a, k + 1)
  {
    hide PackedStream, Has;
    if a.pos < pcs[k].la {
      BeforeIsOld(m, pcs, cursor0, active0, cursor, mid, k, a);
      var i: nat, j: nat :| Stands(m, pcs, a, i, j, k);
      StreamOrder(pcs, decoded, stream, j, k);
      assert Stands(m, pcs, a, i, j, k + 1);
    } else {
      var x :| x in mid && x.ci == a.ci && pcs[k].la <= x.pos;
      WentThrough(m, pcs, decoded, stream, cursor0, active0, cursor, mid, k, x, a);
    }
  }

  /** A cover that took all there was of the pcluster stands at its end. */
  lemma WentThrough(m: Marks, pcs: seq<StoredPc>, decoded: seq<Option<Bytes>>, stream: Bytes, cursor0: nat, active0: seq<Active>,
                    cursor: nat, mid: seq<Active>, k: nat, x: Active, a: Active)
    requires PackedStream(pcs, decoded, stream) && Taking(m, pcs, cursor0, active0, cursor, mid, k)
    requires x in mid && x.ci == a.ci && pcs[k].la <= x.pos && a.pos == pcs[k].End() < m.used[a.ci].End()
    ensures StandsSomewhere(m, pcs, a, k + 1)
  {
    hide PackedStream, Has;
    if x in active0 {
      var i: nat, j: nat :| Stands(m, pcs, x, i, j, k);
      StreamOrder(pcs, decoded, stream, j, k);
      assert Stands(m, pcs, a, i, k, k + 1);
    } else {
      var n :| 0 <= n < |mid| && mid[n] == x;
      assert Stands(m, pcs, a, k, k, k + 1);
    }
  }

  /** Only what was there before can stand before the pcluster. */
  lemma BeforeIsOld(m: Marks, pcs: seq<StoredPc>, cursor0: nat, active0: seq<Active>, cursor: nat, mid: seq<Active>, k: nat, a: Active)
    requires Taking(m, pcs, cursor0, active0, cursor, mid, k) && a in mid && a.pos < pcs[k].la
    ensures a in active0 && StandsSomewhere(m, pcs, a, k)
  {
    var n :| 0 <= n < |mid| && mid[n] == a;
    assert n < |active0|;
  }

  lemma NoneIsLost(m: Marks, pcs: seq<StoredPc>, decoded: seq<Option<Bytes>>, stream: Bytes, cursor0: nat, active0: seq<Active>,
                   cursor: nat, mid: seq<Active>, active: seq<Active>, k: nat, ci: nat, i: nat, j: nat)
    requires PackedStream(pcs, decoded, stream) && SortedByStart(m.used) && Taking(m, pcs, cursor0, active0, cursor, mid, k)
    requires Held(m, mid, |mid|, active, pcs[k].la, pcs[k].End()) && Rests(m, pcs, ci, i, j, k + 1)
    ensures Has(active, ci, pcs[j].End())
  {
    hide PackedStream, Standing, Admitted, SortedByStart;
    var a := FoundActive(m, pcs, decoded, stream, cursor0, active0, cursor, mid, k, ci, i, j);
    var n :| 0 <= n < |mid| && mid[n] == a;
    assert StillThere(m, mid[n], active, pcs[k].la, pcs[k].End());
    if j < k {
      StreamOrder(pcs, decoded, stream, j, k);
    }
  }

  /** Before it is fed, a cover that runs past `j` is among those being hashed. */
  lemma FoundActive(m: Marks, pcs: seq<StoredPc>, decoded: seq<Option<Bytes>>, stream: Bytes, cursor0: nat, active0: seq<Active>,
                    cursor: nat, mid: seq<Active>, k: nat, ci: nat, i: nat, j: nat) returns (a: Active)
    requires PackedStream(pcs, decoded, stream) && SortedByStart(m.used) && Taking(m, pcs, cursor0, active0, cursor, mid, k)
    requires Rests(m, pcs, ci, i, j, k + 1)
    ensures a in mid && a.ci == ci && (if j < k then a.pos == pcs[j].End() else a.pos >= pcs[k].la)
  {
    if i == k {
      a := JustAdmitted(m, pcs, decoded, stream, cursor0, active0, cursor, mid, k, ci);
    } else {
      var e := if j == k then k - 1 else j;
      assert Rests(m, pcs, ci, i, e, k);
      a :| a in active0 && a.ci == ci && a.pos == pcs[e].End();
      assert a in mid;
    }
  }

  lemma StartsInOrder(covers: seq<Cover>, j: nat, k: nat)
    requires SortedByStart(covers) && j <= k < |covers|
    ensures covers[j].pstart <= covers[k].pstart
  {
  }

  lemma JustAdmitted(m: Marks, pcs: seq<StoredPc>, decoded: seq<Option<Bytes>>, stream: Bytes, cursor0: nat, active0: seq<Active>,
                     cursor: nat, mid: seq<Active>, k: nat, ci: nat) returns (a: Active)
    requires PackedStream(pcs, decoded, stream) && SortedByStart(m.used) && Taking(m, pcs, cursor0, active0, cursor, mid, k)
    requires ci < |m.used| && !m.used[ci].proved && pcs[k].la <= m.used[ci].pstart < pcs[k].End()
    ensures a in mid && a.ci == ci && a.pos == m.used[ci].pstart
  {
    EndsGrow(pcs, decoded, stream, k);
    hide PackedStream;
    if cursor <= ci {
      StartsInOrder(m.used, cursor, ci);
    }
    assert Has(mid, ci, m.used[ci].pstart);
    a :| a in mid && a.ci == ci && a.pos == m.used[ci].pstart;
  }

  /** Some cover trips at pcluster `k`. */
  predicate TripsHere(m: Marks, pcs: seq<StoredPc>, need: seq<bool>, k: nat) {
    exists ci: nat, i: nat, j: nat :: ci < |m.used| && i < |pcs| && j < |pcs| && TripsAt(m, pcs, need, ci, i, j, k)
  }

  /** The sweep panics at pcluster `k` exactly when some cover trips there. */
  lemma PanicsIffTrips(m: Marks, pcs: seq<StoredPc>, decoded: seq<Option<Bytes>>, stream: Bytes, need: seq<bool>, cursor0: nat, active0: seq<Active>,
                       cursor: nat, mid: seq<Active>, k: nat)
    requires PackedStream(pcs, decoded, stream) && SortedByStart(m.used) && Taking(m, pcs, cursor0, active0, cursor, mid, k)
    requires |need| == |pcs| && need[k]
    ensures AnyStuck(m, mid, pcs[k].la) <==> TripsHere(m, pcs, need, k)
  {
    if AnyStuck(m, mid, pcs[k].la) {
      StuckTrips(m, pcs, decoded, stream, need, cursor0, active0, cursor, mid, k);
    }
    if TripsHere(m, pcs, need, k) {
      TripsIsStuck(m, pcs, decoded, stream, need, cursor0, active0, cursor, mid, k);
    }
  }

  lemma StuckTrips(m: Marks, pcs: seq<StoredPc>, decoded: seq<Option<Bytes>>, stream: Bytes, need: seq<bool>, cursor0: nat, active0: seq<Active>,
                   cursor: nat, mid: seq<Active>, k: nat)
    requires PackedStream(pcs, decoded, stream) && Taking(m, pcs, cursor0, active0, cursor, mid, k)
    requires |need| == |pcs| && need[k] && AnyStuck(m, mid, pcs[k].la)
    ensures TripsHere(m, pcs, need, k)
  {
    hide PackedStream, Standing, Admitted;
    var a :| a in mid && Stuck(m, a, pcs[k].la);
    BeforeIsOld(m, pcs, cursor0, active0, cursor, mid, k, a);
    var i: nat, j: nat :| Stands(m, pcs, a, i, j, k);
    EndsGrow(pcs, decoded, stream, j + 1);
    assert TripsAt(m, pcs, need, a.ci, i, j, k);
  }

  lemma TripsIsStuck(m: Marks, pcs: seq<StoredPc>, decoded: seq<Option<Bytes>>, stream: Bytes, need: seq<bool>, cursor0: nat, active0: seq<Active>,
                     cursor: nat, mid: seq<Active>, k: nat)
    requires PackedStream(pcs, decoded, stream) && SortedByStart(m.used) && Taking(m, pcs, cursor0, active0, cursor, mid, k)
    requires |need| == |pcs| && TripsHere(m, pcs, need, k)
    ensures AnyStuck(m, mid, pcs[k].la)
  {
    hide PackedStream, SortedByStart, Standing, Admitted;
    var ci: nat, i: nat, j: nat :| ci < |m.used| && i < |pcs| && j < |pcs| && TripsAt(m, pcs, need, ci, i, j, k);
    StreamOrder(pcs, decoded, stream, j, k);
    assert Rests(m, pcs, ci, i, j, k + 1);
    var a := FoundActive(m, pcs, decoded, stream, cursor0, active0, cursor, mid, k, ci, i, j);
    assert Stuck(m, a, pcs[k].la);
  }

  /** Nothing trips where there are no holes. */
  lemma WithoutHolesNothingTrips(m: Marks, pcs: seq<StoredPc>, need: seq<bool>)
    requires forall k :: 0 <= k < |pcs| ==> NoHoleAfter(pcs, k)
    ensures !Trips(m, pcs, need)
  {
    forall ci: nat, i: nat, j: nat, k: nat
      ensures !TripsAt(m, pcs, need, ci, i, j, k)
    {
      assert j < |pcs| ==> NoHoleAfter(pcs, j);
    }
  }

  /** No cover trips before pcluster `k`. */
  ghost predicate NoneTripped(m: Marks, pcs: seq<StoredPc>, need: seq<bool>, k: nat) {
    forall l: nat :: l < k ==> !TripsHere(m, pcs, need, l)
  }

  // ------------------------------------------------------------- which members are given up

  /** Cover `ci` starts in pcluster `i`, which decodes. */
  predicate StartsIn(m: Marks, pcs: seq<StoredPc>, need: seq<bool>, ci: nat, i: nat) {
    ci < |m.used| && i < |pcs| == |need| && need[i] && pcs[i].la <= m.used[ci].pstart < pcs[i].End()
  }

  predicate LiesIn(m: Marks, pcs: seq<StoredPc>, need: seq<bool>, ci: nat, i: nat, j: nat) {
    && StartsIn(m, pcs, need, ci, i) && i <= j < |pcs| && m.used[ci].End() <= pcs[j].End()
    && forall l :: i <= l < j ==> pcs[l].End() == pcs[l + 1].la
  }

  /** The cover lies whole in decoded pclusters that follow one another without a hole. */
  predicate Whole(m: Marks, pcs: seq<StoredPc>, need: seq<bool>, ci: nat) {
    exists i: nat, j: nat :: i < |pcs| && j < |pcs| && LiesIn(m, pcs, need, ci, i, j)
  }

  ghost predicate Begins(m: Marks, pcs: seq<StoredPc>, need: seq<bool>, ci: nat) {
    exists i: nat :: StartsIn(m, pcs, need, ci, i)
  }

  /** A cover that must be hashed and cannot be: it does not lie whole in the stream, or its bytes hash to
      another digest. */
  predicate Fails(m: Marks, stream: Bytes, pcs: seq<StoredPc>, need: seq<bool>, ci: nat) {
    ci < |m.used| && !m.used[ci].proved && !(Whole(m, pcs, need, ci) && Verified(m, stream, m.used[ci]))
  }

  /** The members the sweep gives up. */
  function FailedOf(m: Marks, stream: Bytes, pcs: seq<StoredPc>, need: seq<bool>): set<nat> {
    set ci: nat | ci < |m.used| && Fails(m, stream, pcs, need, ci) :: m.used[ci].idx
  }

  /** Before pcluster `k`: whatever was taken up begins where its start was decoded or is given up, whatever
      was not starts past all that was decoded, and nothing is given up without cause. */
  ghost predicate Accounts(m: Marks, stream: Bytes, pcs: seq<StoredPc>, need: seq<bool>, cursor: nat, failed: set<nat>, k: nat) {
    && k <= |pcs| == |need| && cursor <= |m.used|
    && (forall ci: nat :: ci < cursor && !m.used[ci].proved && m.used[ci].idx !in failed ==> Begins(m, pcs, need, ci))
    && (forall ci: nat, l: nat :: cursor <= ci < |m.used| && l < k && need[l] ==> pcs[l].End() <= m.used[ci].pstart)
    && failed <= FailedOf(m, stream, pcs, need)
  }

  lemma NothingAccounted(m: Marks, stream: Bytes, pcs: seq<StoredPc>, need: seq<bool>)
    requires |pcs| == |need|
    ensures Accounts(m, stream, pcs, need, 0, {}, 0)
  {
  }

  lemma AccountsThroughSkipped(m: Marks, stream: Bytes, pcs: seq<StoredPc>, need: seq<bool>, cursor: nat, failed: set<nat>, k: nat)
    requires Accounts(m, stream, pcs, need, cursor, failed, k) && k < |pcs| && !need[k]
    ensures Accounts(m, stream, pcs, need, cursor, failed, k + 1)
  {
    hide FailedOf, Begins;
  }

  lemma AccountsThroughDecoded(m: Marks, pcs: seq<StoredPc>, decoded: seq<Option<Bytes>>, stream: Bytes, need: seq<bool>,
                               cursor0: nat, cursor: nat, failed0: set<nat>, mid: set<nat>, failed: set<nat>, k: nat)
    requires PackedStream(pcs, decoded, stream) && SortedByStart(m.used) && k < |pcs| == |need| && need[k]
    requires Accounts(m, stream, pcs, need, cursor0, failed0, k) && cursor0 <= cursor <= |m.used|
    requires LateAreGivenUp(m, cursor0, cursor, failed0, mid, pcs[k].la) && OnlyDiffering(m, stream, mid, failed)
    requires forall ci :: cursor0 <= ci < cursor ==> m.used[ci].pstart < pcs[k].End()
    requires cursor < |m.used| ==> m.used[cursor].pstart >= pcs[k].End()
    ensures Accounts(m, stream, pcs, need, cursor, failed, k + 1)
  {
    hide PackedStream, FailedOf, Fails;
    forall ci: nat | ci < cursor && !m.used[ci].proved && m.used[ci].idx !in failed
      ensures Begins(m, pcs, need, ci)
    {
      if ci >= cursor0 {
        assert !Late(m, ci, m.used[ci].idx, cursor0, cursor, pcs[k].la);
        assert StartsIn(m, pcs, need, ci, k);
      }
    }
    var next: nat := k + 1;
    forall ci: nat, l: nat | cursor <= ci < |m.used| && l < next && need[l]
      ensures pcs[l].End() <= m.used[ci].pstart
    {
      StartsInOrder(m.used, cursor, ci);
    }
    forall idx | idx in failed
      ensures idx in FailedOf(m, stream, pcs, need)
    {
      if idx !in failed0 {
        BlameIsDue(m, pcs, decoded, stream, need, cursor0, cursor, failed0, mid, failed, k, idx);
      }
    }
  }

  lemma BlameIsDue(m: Marks, pcs: seq<StoredPc>, decoded: seq<Option<Bytes>>, stream: Bytes, need: seq<bool>,
                   cursor0: nat, cursor: nat, failed0: set<nat>, mid: set<nat>, failed: set<nat>, k: nat, idx: nat)
    requires PackedStream(pcs, decoded, stream) && k < |pcs| == |need|
    requires Accounts(m, stream, pcs, need, cursor0, failed0, k) && idx in failed && idx !in failed0
    requires LateAreGivenUp(m, cursor0, cursor, failed0, mid, pcs[k].la) && OnlyDiffering(m, stream, mid, failed)
    ensures idx in FailedOf(m, stream, pcs, need)
  {
    if idx !in mid {
      var ci: nat :| Differs(m, stream, ci, idx);
      assert Fails(m, stream, pcs, need, ci);
    } else {
      var ci: nat :| Late(m, ci, idx, cursor0, cursor, pcs[k].la);
      forall i: nat
        ensures !StartsIn(m, pcs, need, ci, i)
      {
        if i < |pcs| && i > k {
          StreamOrder(pcs, decoded, stream, k, i);
        }
      }
      assert Fails(m, stream, pcs, need, ci);
    }
  }

  /** A cover that begins where its start is decoded, and does not lie whole, runs up to a hole or the end. */
  lemma {:induction false} EndsShort(m: Marks, pcs: seq<StoredPc>, need: seq<bool>, ci: nat, i: nat, j: nat) returns (e: nat)
    requires StartsIn(m, pcs, need, ci, i) && !m.used[ci].proved && i <= j < |pcs| && !Whole(m, pcs, need, ci)
    requires forall l :: i <= l < j ==> pcs[l].End() == pcs[l + 1].la
    ensures Rests(m, pcs, ci, i, e, |pcs|)
    decreases |pcs| - j
  {
    assert !LiesIn(m, pcs, need, ci, i, j);
    e := j;
    if j + 1 < |pcs| && NoHoleAfter(pcs, j) {
      e := EndsShort(m, pcs, need, ci, i, j + 1);
    }
  }

  /** A cover still standing after the last pcluster does not lie whole. */
  lemma StandsShort(m: Marks, pcs: seq<StoredPc>, decoded: seq<Option<Bytes>>, stream: Bytes, need: seq<bool>, a: Active)
    requires PackedStream(pcs, decoded, stream) && StandsSomewhere(m, pcs, a, |pcs|)
    ensures a.ci < |m.used| && !m.used[a.ci].proved && !Whole(m, pcs, need, a.ci)
  {
    hide PackedStream;
    var i: nat, j: nat :| Stands(m, pcs, a, i, j, |pcs|);
    if Whole(m, pcs, need, a.ci) {
      var b: nat, e: nat :| b < |pcs| && e < |pcs| && LiesIn(m, pcs, need, a.ci, b, e);
      if b < i {
        StreamOrder(pcs, decoded, stream, b, i);
      } else if i < b {
        StreamOrder(pcs, decoded, stream, i, b);
      }
      if e < j {
        StreamOrder(pcs, decoded, stream, e, j);
        EndsGrow(pcs, decoded, stream, j);
      }
      assert false;
    }
  }

  /** A cover never taken up begins in no decoded pcluster. */
  lemma NeverBegun(m: Marks, stream: Bytes, pcs: seq<StoredPc>, need: seq<bool>, cursor: nat, failed: set<nat>, ci: nat)
    requires Accounts(m, stream, pcs, need, cursor, failed, |pcs|) && cursor <= ci < |m.used|
    ensures !Begins(m, pcs, need, ci)
  {
  }

  // ------------------------------------------------------------- one pcluster after another

  /** Take pcluster `k` into the hashes. */
  method SweepOne(m: Marks, pcs: seq<StoredPc>, decoded: seq<Option<Bytes>>, ghost stream: Bytes, need: seq<bool>,
                  cursor0: nat, active0: seq<Active>, failed0: set<nat>, k: nat)
    returns (cursor: nat, active: seq<Active>, failed: set<nat>, panics: bool)
    requires PackedStream(pcs, decoded, stream) && SortedByStart(m.used) && k < |pcs| == |need| && need[k] && decoded[k].Some?
    requires Waiting(m, stream, cursor0, active0, failed0, At(pcs, k)) && Standing(m, pcs, cursor0, active0, k)
    requires Accounts(m, stream, pcs, need, cursor0, failed0, k)
    ensures panics <==> TripsHere(m, pcs, need, k)
    ensures !panics ==> Waiting(m, stream, cursor, active, failed, At(pcs, k + 1)) && Standing(m, pcs, cursor, active, k + 1)
    ensures !panics ==> Accounts(m, stream, pcs, need, cursor, failed, k + 1)
  {
    hide Standing, Waiting, Hashing, Admitted, Held, Moved, AnyStuck, TripsHere, SortedByStart, Accounts, LateAreGivenUp, OnlyDiffering;
    StreamHere(pcs, decoded, stream, k);
    cursor, active, failed := AdmitCovers(m, stream, cursor0, active0, failed0, pcs[k].la, pcs[k].End());
    AdmittedWait(m, stream, cursor0, active0, failed0, cursor, active, failed, pcs[k].la, pcs[k].End());
    PanicsIffTrips(m, pcs, decoded, stream, need, cursor0, active0, cursor, active, k);
    ghost var mid, late := active, failed;
    active, failed, panics := HashActive(m, stream, cursor, active, failed, pcs[k].la, decoded[k].value);
    if !panics {
      AdmittedBefore(m, cursor0, active0, cursor, mid, pcs[k].la, pcs[k].End());
      AccountsThroughDecoded(m, pcs, decoded, stream, need, cursor0, cursor, failed0, late, failed, k);
      StandsThroughDecoded(m, pcs, decoded, stream, cursor0, active0, cursor, mid, failed, active, k);
      OnwardFrom(m, stream, pcs, decoded, cursor, active, failed, k, pcs[k].End());
    }
  }

  lemma AdmittedBefore(m: Marks, cursor0: nat, active0: seq<Active>, cursor: nat, mid: seq<Active>, la: nat, end: nat)
    requires Admitted(m, cursor0, active0, cursor, mid, la, end)
    ensures cursor0 <= cursor <= |m.used| && forall ci :: cursor0 <= ci < cursor ==> m.used[ci].pstart < end
  {
  }

  lemma StreamHere(pcs: seq<StoredPc>, decoded: seq<Option<Bytes>>, stream: Bytes, k: nat)
    requires PackedStream(pcs, decoded, stream) && k < |pcs| && decoded[k].Some?
    ensures pcs[k].la < pcs[k].End() <= |stream| < WORD
    ensures pcs[k].la + |decoded[k].value| == pcs[k].End() && decoded[k].value == Cut(stream, pcs[k].la, |decoded[k].value|)
  {
  }

  lemma AdmittedWait(m: Marks, stream: Bytes, cursor0: nat, active0: seq<Active>, failed0: set<nat>, cursor: nat, mid: seq<Active>, failed: set<nat>,
                     la: nat, end: nat)
    requires Waiting(m, stream, cursor0, active0, failed0, la) && Admitted(m, cursor0, active0, cursor, mid, la, end)
    requires Hashing(m, stream, cursor, mid, failed, end)
    ensures forall j :: 0 <= j < |mid| && mid[j].pos < la ==> mid[j].pos < m.used[mid[j].ci].End()
    ensures forall a :: a in mid ==> a.ci < |m.used| && !m.used[a.ci].proved
  {
    forall j | 0 <= j < |mid| && mid[j].pos < la
      ensures mid[j].pos < m.used[mid[j].ci].End()
    {
      assert j < |active0| && mid[j] == active0[j];
    }
  }

  lemma NothingStands(m: Marks, stream: Bytes, pcs: seq<StoredPc>, need: seq<bool>)
    ensures Standing(m, pcs, 0, [], 0) && NoneTripped(m, pcs, need, 0) && Waiting(m, stream, 0, [], {}, At(pcs, 0))
  {
  }

  lemma SkippedTripsNone(m: Marks, pcs: seq<StoredPc>, need: seq<bool>, k: nat)
    requires k < |pcs| == |need| && !need[k]
    ensures !TripsHere(m, pcs, need, k)
  {
  }

  lemma DecodesAreThere(pcs: seq<StoredPc>, decoded: seq<Option<Bytes>>, stream: Bytes)
    requires PackedStream(pcs, decoded, stream)
    ensures |decoded| == |pcs|
  {
  }

  lemma NeedIsThere(m: Marks, pcs: seq<StoredPc>, eligible: seq<Elig>, need: seq<bool>)
    requires NeedHolds(m, pcs, eligible, need)
    ensures |need| == |eligible| == |pcs|
  {
  }

  lemma OnwardFrom(m: Marks, stream: Bytes, pcs: seq<StoredPc>, decoded: seq<Option<Bytes>>, cursor: nat, active: seq<Active>, failed: set<nat>,
                   k: nat, at: nat)
    requires PackedStream(pcs, decoded, stream) && k < |pcs| && Waiting(m, stream, cursor, active, failed, at) && at <= pcs[k].End()
    ensures Waiting(m, stream, cursor, active, failed, At(pcs, k + 1))
  {
    if k + 1 < |pcs| {
      assert pcs[k].End() <= pcs[k + 1].la;
    }
    WaitsLonger(m, stream, cursor, active, failed, at, At(pcs, k + 1));
  }

  /** Covers past the last decoded pcluster, and those still waiting, were never verified. With them, exactly
      the members are given up that have an unproved cover which does not lie whole, or does not hash to
      their digest. */
  method GiveUpRest(m: Marks, pcs: seq<StoredPc>, ghost decoded: seq<Option<Bytes>>, ghost stream: Bytes, ghost need: seq<bool>,
                    cursor: nat, active: seq<Active>, failed0: set<nat>)
    returns (failed: set<nat>)
    requires PackedStream(pcs, decoded, stream) && Waiting(m, stream, cursor, active, failed0, At(pcs, |pcs|))
    requires Standing(m, pcs, cursor, active, |pcs|) && Accounts(m, stream, pcs, need, cursor, failed0, |pcs|)
    ensures failed == FailedOf(m, stream, pcs, need)
  {
    hide PackedStream, Standing, Waiting, Accounts;
    failed := failed0 + (set ci | cursor <= ci < |m.used| && !m.used[ci].proved :: m.used[ci].idx)
              + (set j | 0 <= j < |active| && active[j].ci < |m.used| :: m.used[active[j].ci].idx);
    forall idx | idx in failed
      ensures idx in FailedOf(m, stream, pcs, need)
    {
      RestIsDue(m, pcs, decoded, stream, need, cursor, active, failed0, idx);
    }
    forall ci: nat | ci < |m.used| && Fails(m, stream, pcs, need, ci)
      ensures m.used[ci].idx in failed
    {
      if ci < cursor && m.used[ci].idx !in failed0 && forall j :: 0 <= j < |active| ==> active[j].ci != ci {
        SweptWhole(m, pcs, stream, need, cursor, active, failed0, ci);
      }
    }
  }

  lemma RestIsDue(m: Marks, pcs: seq<StoredPc>, decoded: seq<Option<Bytes>>, stream: Bytes, need: seq<bool>, cursor: nat, active: seq<Active>,
                  failed: set<nat>, idx: nat)
    requires PackedStream(pcs, decoded, stream) && Standing(m, pcs, cursor, active, |pcs|) && Accounts(m, stream, pcs, need, cursor, failed, |pcs|)
    requires || idx in failed || (exists ci :: cursor <= ci < |m.used| && !m.used[ci].proved && m.used[ci].idx == idx)
             || (exists j :: 0 <= j < |active| && active[j].ci < |m.used| && m.used[active[j].ci].idx == idx)
    ensures idx in FailedOf(m, stream, pcs, need)
  {
    hide PackedStream;
    if ci :| cursor <= ci < |m.used| && !m.used[ci].proved && m.used[ci].idx == idx {
      NeverBegun(m, stream, pcs, need, cursor, failed, ci);
      assert !Whole(m, pcs, need, ci);
      assert Fails(m, stream, pcs, need, ci);
    } else if j :| 0 <= j < |active| && active[j].ci < |m.used| && m.used[active[j].ci].idx == idx {
      assert active[j] in active;
      StandsShort(m, pcs, decoded, stream, need, active[j]);
      assert Fails(m, stream, pcs, need, active[j].ci);
    }
  }

  /** A cover taken up, not given up and no longer hashed went through whole, to its member's digest. */
  lemma SweptWhole(m: Marks, pcs: seq<StoredPc>, stream: Bytes, need: seq<bool>, cursor: nat, active: seq<Active>, failed: set<nat>, ci: nat)
    requires Waiting(m, stream, cursor, active, failed, At(pcs, |pcs|)) && Standing(m, pcs, cursor, active, |pcs|)
    requires Accounts(m, stream, pcs, need, cursor, failed, |pcs|)
    requires ci < cursor && !m.used[ci].proved && m.used[ci].idx !in failed && forall j :: 0 <= j < |active| ==> active[j].ci != ci
    ensures !Fails(m, stream, pcs, need, ci)
  {
    assert Accounted(m, stream, active, failed, ci);
    if !Whole(m, pcs, need, ci) {
      var i: nat :| StartsIn(m, pcs, need, ci, i);
      var e := EndsShort(m, pcs, need, ci, i, i);
      assert false;
    }
  }
}
