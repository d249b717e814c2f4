// The spending keys known to the wallet below one parent key: every
// derivation index from 0 up to and including the last one handed out.
module KnownKeys {
  import opened Wrappers
  import opened KeyIter

  datatype KnownSpendingKeys = KnownSpendingKeys(parentKey: SpendingKey, lastKnown: DerivationIndex)

  /** `KnownSpendingKeys::new`: both fields exactly as given. */
  function New(parentKey: SpendingKey, lastKnown: DerivationIndex): (k: KnownSpendingKeys)
    ensures k.parentKey == parentKey && k.lastKnown == lastKnown
  {
    KnownSpendingKeys(parentKey, lastKnown)
  }

  /** `iter`: the keys at indices `0..=last_known`. */
  function Iter(k: KnownSpendingKeys): (it: RangeIterState)
    ensures it == NewRangeIter(k.parentKey, 0, k.lastKnown)
  {
    NewRangeIter(k.parentKey, 0, k.lastKnown)
  }

  /** `into_iter`: the same range as `iter` (the source repeats `iter`'s body here). */
  function IntoIter(k: KnownSpendingKeys): (it: RangeIterState)
    ensures it == NewRangeIter(k.parentKey, 0, k.lastKnown)
  {
    NewRangeIter(k.parentKey, 0, k.lastKnown)
  }

  /** `par_iter`: `into_par_range_iter` over the same range, taken to yield as the range iterator does (see ## Left out in README). */
  function ParIter(k: KnownSpendingKeys): (it: RangeIterState)
    ensures it == NewRangeIter(k.parentKey, 0, k.lastKnown)
  {
    NewRangeIter(k.parentKey, 0, k.lastKnown)
  }

  /** All three iterators yield child `i` for every index from 0 to `last_known`, that is `last_known + 1` keys, and then nothing. */
  lemma IterCoversZeroToLastKnown(derive: Derive, k: KnownSpendingKeys, n: nat)
    ensures forall i :: 0 <= i < n ==>
              CollectRange(derive, Iter(k), n)[i] == (if i <= k.lastKnown then Some(derive(k.parentKey, i)) else None)
    ensures Remaining(Iter(k)) == k.lastKnown + 1
    ensures IntoIter(k) == Iter(k) && ParIter(k) == Iter(k)
  {
    RangeIterYieldsFirstToLast(derive, k.parentKey, 0, k.lastKnown, n);
  }
}
