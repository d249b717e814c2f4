// A range of derivation indices below one parent key, and the iterators it
// hands out. Each iterator is described by the range iterator it starts as.
module SpendingKeyRange {
  import opened Wrappers
  import opened KeyIter

  datatype SpendingKeyRange = SpendingKeyRange(parentKey: SpendingKey, first: DerivationIndex, last: DerivationIndex)

  /** `SpendingKeyRange::new`: the three fields exactly as given. */
  function New(parentKey: SpendingKey, first: DerivationIndex, last: DerivationIndex): (r: SpendingKeyRange)
    ensures r.parentKey == parentKey && r.first == first && r.last == last
  {
    SpendingKeyRange(parentKey, first, last)
  }

  /** `iter`: the keys at indices `first..=last`. */
  function Iter(r: SpendingKeyRange): (it: RangeIterState)
    ensures it == NewRangeIter(r.parentKey, r.first, r.last)
  {
    NewRangeIter(r.parentKey, r.first, r.last)
  }

  /** `par_iter`: `into_par_range_iter` over `first..=last`, taken to yield as the range iterator does (see ## Left out in README). */
  function ParIter(r: SpendingKeyRange): (it: RangeIterState)
    ensures it == NewRangeIter(r.parentKey, r.first, r.last)
  {
    NewRangeIter(r.parentKey, r.first, r.last)
  }

  /** `into_iter`: the range `0..=last`; `first` is not consulted. */
  function IntoIter(r: SpendingKeyRange): (it: RangeIterState)
    ensures it == NewRangeIter(r.parentKey, 0, r.last)
  {
    NewRangeIter(r.parentKey, 0, r.last)
  }

  /** `into_par_iter`: `into_par_range_iter` over `0..=last`, taken to yield as the range iterator does (see ## Left out in README); `first` is not consulted. */
  function IntoParIter(r: SpendingKeyRange): (it: RangeIterState)
    ensures it == NewRangeIter(r.parentKey, 0, r.last)
  {
    NewRangeIter(r.parentKey, 0, r.last)
  }

  /** `iter` and `par_iter` yield child `first + i` for every index up to `last`, and nothing beyond. */
  lemma IterCoversFirstToLast(derive: Derive, r: SpendingKeyRange, n: nat)
    ensures forall i :: 0 <= i < n ==>
              CollectRange(derive, Iter(r), n)[i] == (if r.first + i <= r.last then Some(derive(r.parentKey, r.first + i)) else None)
    ensures CollectRange(derive, ParIter(r), n) == CollectRange(derive, Iter(r), n)
  {
    RangeIterYieldsFirstToLast(derive, r.parentKey, r.first, r.last, n);
  }

  /** `into_iter` and `into_par_iter` yield child `i` for every index from 0 to `last`, whatever `first` is. */
  lemma IntoIterCoversZeroToLast(derive: Derive, r: SpendingKeyRange, n: nat, otherFirst: DerivationIndex)
    ensures forall i :: 0 <= i < n ==>
              CollectRange(derive, IntoIter(r), n)[i] == (if i <= r.last then Some(derive(r.parentKey, i)) else None)
    ensures IntoIter(r.(first := otherFirst)) == IntoIter(r)
    ensures IntoParIter(r) == IntoIter(r)
  {
    RangeIterYieldsFirstToLast(derive, r.parentKey, 0, r.last, n);
  }
}
