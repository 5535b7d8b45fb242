/**
 Raw storage of an erofs pcluster: plain blocks, and blocks rotated in place.
 */
module ErofsRaw {
  import opened Wrappers
  import opened ByteStrings

  /** The raw arms of the decoder: plain blocks cut to the span, rotated blocks unrotated. A span
      longer than what is stored is a slice out of range. */
  function DecodeShifted(stored: Bytes, llen: nat): Option<Bytes> {
    if llen <= |stored| then Some(stored[..llen]) else None
  }

  function DecodeInterlaced(stored: Bytes, skip: nat, llen: nat): Option<Bytes> {
    if stored == [] then (if llen == 0 then Some([]) else None)
    else
      var at := skip % |stored|;
      var right := if |stored| - at < llen then |stored| - at else llen;
      if llen - right <= |stored| then Some(stored[at..at + right] + stored[..llen - right]) else None
  }

  /** Rotated storage gives a byte for every byte of a span that fits the block: logical byte `k` is
      the stored byte `k` places past the skip, wrapping around. */
  lemma InterlacedReads(stored: Bytes, skip: nat, llen: nat, k: nat)
    requires stored != [] && k < llen <= |stored|
    ensures var (r, at) := (DecodeInterlaced(stored, skip, llen), skip % |stored|);
            r.Some? && |r.value| == llen && r.value[k] == stored[if at + k < |stored| then at + k else at + k - |stored|]
  {
    var at := skip % |stored|;
    Wraps(stored, at, llen, k);
  }

  lemma Wraps(stored: Bytes, at: nat, llen: nat, k: nat)
    requires at < |stored| && k < llen <= |stored|
    ensures var right := if |stored| - at < llen then |stored| - at else llen;
            llen - right <= |stored|
            && (stored[at..at + right] + stored[..llen - right])[k]
               == stored[if at + k < |stored| then at + k else at + k - |stored|]
  {
  }
}
