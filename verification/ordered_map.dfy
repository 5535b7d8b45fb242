/** The one ordered-map lookup the program uses: the entry at or below a key. */
module OrderedMap {
  import opened Wrappers

  /** The greatest key at or below `at` (`range(..=at).next_back()`). */
  function FloorKey<V>(m: map<nat, V>, at: nat): (r: Option<nat>)
    ensures r.Some? ==> r.value in m && r.value <= at
    ensures r.Some? ==> forall k :: k in m && k <= at ==> k <= r.value
    ensures r.None? ==> forall k :: k in m ==> at < k
  {
    if at in m then Some(at)
    else if at == 0 then None
    else FloorKey(m, at - 1)
  }
}
