// Iterators over the spending keys derived from one master key: an endless
// iterator (the master key, then child 0, child 1, ...) and an iterator over
// an inclusive range of derivation indices.
module KeyIter {
  import opened Primitives
  import opened Wrappers

  /** A spending key, identified by the secret it is derived from. */
  datatype SpendingKey = SpendingKey(seed: Digest)

  /** A derivation index (`u64` in the source; the model does not bound it). */
  type DerivationIndex = nat

  /** `SpendingKey::derive_child`, a key-derivation function outside this model. */
  type Derive = (SpendingKey, DerivationIndex) -> SpendingKey

  /** `u64::MAX`, the largest derivation index. */
  const U64_MAX: nat := 0xFFFF_FFFF_FFFF_FFFF

  /** `usize::MAX` on a 64-bit target. */
  const USIZE_MAX: nat := 0xFFFF_FFFF_FFFF_FFFF

  // ---------------------------------------------------------------------
  // The endless iterator

  datatype KeyIterState = KeyIterState(key: SpendingKey, curr: Option<DerivationIndex>)

  /** The key yielded at position `n`: the master key first, then child `n - 1`. */
  function KeyAt(derive: Derive, key: SpendingKey, n: nat): SpendingKey
  {
    if n == 0 then key else derive(key, n - 1)
  }

  /** `SpendingKeyIter::new`. */
  function NewKeyIter(key: SpendingKey): (s: KeyIterState)
    ensures s.curr == Some(0) && s.key == key
  {
    KeyIterState(key, Some(0))
  }

  /** One call of `next`: the key and the state after it. */
  function KeyIterNext(derive: Derive, s: KeyIterState): (Option<SpendingKey>, KeyIterState)
  {
    match s.curr
    case None => (None, s)
    case Some(curr) =>
      if curr == 0 then (Some(s.key), s.(curr := Some(curr + 1)))
      else (Some(derive(s.key, curr - 1)), s.(curr := Some(curr + 1)))
  }

  /** One call of `next_back`. */
  function KeyIterNextBack(derive: Derive, s: KeyIterState): (Option<SpendingKey>, KeyIterState)
  {
    match s.curr
    case None => (None, s)
    case Some(curr) =>
      if curr == 0 then (Some(s.key), s.(curr := None))
      else (Some(derive(s.key, curr - 1)), s.(curr := Some(curr - 1)))
  }

  /** What `n` successive calls of `next` yield. */
  function CollectNext(derive: Derive, s: KeyIterState, n: nat): (r: seq<Option<SpendingKey>>)
    ensures |r| == n
    decreases n
  {
    if n == 0 then []
    else
      var (k, s') := KeyIterNext(derive, s);
      [k] + CollectNext(derive, s', n - 1)
  }

  function CollectNextBack(derive: Derive, s: KeyIterState, n: nat): (r: seq<Option<SpendingKey>>)
    ensures |r| == n
    decreases n
  {
    if n == 0 then []
    else
      var (k, s') := KeyIterNextBack(derive, s);
      [k] + CollectNextBack(derive, s', n - 1)
  }

  /** From position `c`, `next` yields the keys at positions `c`, `c + 1`, ... without end. */
  lemma {:induction false} CollectNextFrom(derive: Derive, key: SpendingKey, c: nat, n: nat)
    ensures forall i :: 0 <= i < n ==>
              CollectNext(derive, KeyIterState(key, Some(c)), n)[i] == Some(KeyAt(derive, key, c + i))
    decreases n
  {
    if n > 0 {
      CollectNextFrom(derive, key, c + 1, n - 1);
    }
  }

  /** A new iterator yields the master key, then child 0, child 1, and so on. */
  lemma KeyIterYieldsKeyThenChildren(derive: Derive, key: SpendingKey, n: nat)
    requires n >= 1
    ensures CollectNext(derive, NewKeyIter(key), n)[0] == Some(key)
    ensures forall i :: 1 <= i < n ==> CollectNext(derive, NewKeyIter(key), n)[i] == Some(derive(key, i - 1))
  {
    CollectNextFrom(derive, key, 0, n);
  }

  /** From position `c`, `next_back` yields the keys at `c`, `c - 1`, ..., 0 (the master key), and then nothing. */
  lemma {:induction false} CollectNextBackFrom(derive: Derive, key: SpendingKey, c: nat, n: nat)
    ensures forall i :: 0 <= i < n ==>
              CollectNextBack(derive, KeyIterState(key, Some(c)), n)[i] ==
                (if i <= c then Some(KeyAt(derive, key, c - i)) else None)
    decreases n
  {
    if n > 0 {
      if c == 0 {
        ExhaustedStaysExhausted(derive, key, n - 1);
      } else {
        CollectNextBackFrom(derive, key, c - 1, n - 1);
      }
    }
  }

  lemma {:induction false} ExhaustedStaysExhausted(derive: Derive, key: SpendingKey, n: nat)
    ensures forall i :: 0 <= i < n ==> CollectNextBack(derive, KeyIterState(key, None), n)[i] == None
    decreases n
  {
    if n > 0 {
      ExhaustedStaysExhausted(derive, key, n - 1);
    }
  }

  /** On a new iterator `next_back` yields the master key once and the iterator is exhausted. */
  lemma NextBackOnNewIter(derive: Derive, key: SpendingKey)
    ensures CollectNextBack(derive, NewKeyIter(key), 3) == [Some(key), None, None]
  {
    CollectNextBackFrom(derive, key, 0, 3);
  }

  class SpendingKeyIter {
    const key: SpendingKey
    var curr: Option<DerivationIndex>
    const derive: Derive

    function View(): KeyIterState
      reads this
    {
      KeyIterState(key, curr)
    }

    /** `SpendingKeyIter::new`. */
    constructor (key: SpendingKey, derive: Derive)
      ensures View() == NewKeyIter(key) && this.derive == derive
    {
      this.key := key;
      curr := Some(0);
      this.derive := derive;
    }

    method Next() returns (r: Option<SpendingKey>)
      modifies this
      ensures (r, View()) == KeyIterNext(derive, old(View()))
    {
      match curr
      case None =>
        r := None;
      case Some(c) =>
        if c == 0 {
          curr := Some(c + 1);
          r := Some(key);
        } else {
          var k := derive(key, c - 1);
          curr := Some(c + 1);
          r := Some(k);
        }
    }

    method NextBack() returns (r: Option<SpendingKey>)
      modifies this
      ensures (r, View()) == KeyIterNextBack(derive, old(View()))
    {
      match curr
      case None =>
        r := None;
      case Some(c) =>
        if c == 0 {
          curr := None;
          r := Some(key);
        } else {
          var k := derive(key, c - 1);
          curr := Some(c - 1);
          r := Some(k);
        }
    }

    /** `size_hint`: the iterator claims `usize::MAX` items whatever its state. */
    function SizeHint(): (r: (nat, Option<nat>))
      ensures r.0 == USIZE_MAX && r.1 == Some(USIZE_MAX)
    {
      (USIZE_MAX, Some(USIZE_MAX))
    }
  }

  // ---------------------------------------------------------------------
  // The range iterator

  datatype RangeIterState = RangeIterState(master: SpendingKey, first: DerivationIndex, last: DerivationIndex,
                                           curr: DerivationIndex)

  /** `SpendingKeyRangeIter::new`: the cursor starts at `first`. */
  function NewRangeIter(master: SpendingKey, first: DerivationIndex, last: DerivationIndex): (s: RangeIterState)
    ensures s.master == master && s.first == first && s.last == last && s.curr == first
  {
    RangeIterState(master, first, last, first)
  }

  function RangeIterNext(derive: Derive, s: RangeIterState): (Option<SpendingKey>, RangeIterState)
  {
    if s.curr <= s.last then (Some(derive(s.master, s.curr)), s.(curr := s.curr + 1))
    else (None, s)
  }

  /** `curr -= 1` on a `u64` cursor as a release build runs it: 0 wraps to `u64::MAX`. */
  function DecrementWrapping(c: DerivationIndex): (r: DerivationIndex)
    ensures c >= 1 ==> r + 1 == c
    ensures c == 0 ==> r == U64_MAX
  {
    if c == 0 then U64_MAX else c - 1
  }

  /**
   * One call of `next_back`: the key at the cursor, which then moves down.
   * The source does not guard the decrement, so at cursor 0 (reached from
   * every range starting at 0) it wraps around.
   */
  function RangeIterNextBack(derive: Derive, s: RangeIterState): (Option<SpendingKey>, RangeIterState)
  {
    if s.curr >= s.first then (Some(derive(s.master, s.curr)), s.(curr := DecrementWrapping(s.curr)))
    else (None, s)
  }

  function CollectRange(derive: Derive, s: RangeIterState, n: nat): (r: seq<Option<SpendingKey>>)
    ensures |r| == n
    decreases n
  {
    if n == 0 then []
    else
      var (k, s') := RangeIterNext(derive, s);
      [k] + CollectRange(derive, s', n - 1)
  }

  /** From cursor `curr`, `next` yields child `curr + i` while that is at most `last`, and `None` afterwards. */
  lemma {:induction false} CollectRangeFrom(derive: Derive, s: RangeIterState, n: nat)
    ensures forall i :: 0 <= i < n ==>
              CollectRange(derive, s, n)[i] == (if s.curr + i <= s.last then Some(derive(s.master, s.curr + i)) else None)
    decreases n
  {
    if n > 0 {
      var (k, s') := RangeIterNext(derive, s);
      CollectRangeFrom(derive, s', n - 1);
    }
  }

  /** A new range iterator yields child `first` through child `last`, each once and in order, and then nothing. */
  lemma RangeIterYieldsFirstToLast(derive: Derive, master: SpendingKey, first: DerivationIndex, last: DerivationIndex, n: nat)
    ensures forall i :: 0 <= i < n ==>
              CollectRange(derive, NewRangeIter(master, first, last), n)[i] ==
                (if first + i <= last then Some(derive(master, first + i)) else None)
  {
    CollectRangeFrom(derive, NewRangeIter(master, first, last), n);
  }

  /** How many keys `next` yields from `s` before returning `None`. */
  function Remaining(s: RangeIterState): nat
  {
    if s.curr <= s.last then s.last - s.curr + 1 else 0
  }

  /** `Remaining` is exact: that many keys, then `None`. */
  lemma RemainingIsExact(derive: Derive, s: RangeIterState, n: nat)
    requires n == Remaining(s) + 1
    ensures forall i :: 0 <= i < n - 1 ==> CollectRange(derive, s, n)[i].Some?
    ensures CollectRange(derive, s, n)[n - 1].None?
  {
    CollectRangeFrom(derive, s, n);
  }

  /**
   * `size_hint` as written: `last - first` whatever the cursor (the
   * subtraction underflows when `last < first`). It is one less than the
   * number of keys a new iterator over the same range yields.
   */
  function SizeHintAsWritten(s: RangeIterState): (r: (nat, Option<nat>))
    requires s.first <= s.last
    ensures r.1 == Some(r.0)
    ensures r.0 + 1 == Remaining(NewRangeIter(s.master, s.first, s.last))
  {
    (s.last - s.first, Some(s.last - s.first))
  }

  /** The exact size hint: the number of keys still to come. */
  function SizeHint(s: RangeIterState): (r: (nat, Option<nat>))
    ensures r.1 == Some(r.0)
    ensures s.curr <= s.last ==> r.0 == s.last - s.curr + 1
    ensures s.curr > s.last ==> r.0 == 0
  {
    (Remaining(s), Some(Remaining(s)))
  }

  /** On a new range iterator starting above 0, `next_back` yields child `first` and then nothing: it walks down from the front, not up from the back. */
  lemma NextBackOnNewRangeIter(derive: Derive, master: SpendingKey, first: DerivationIndex, last: DerivationIndex)
    requires first >= 1
    ensures var (k1, s1) := RangeIterNextBack(derive, NewRangeIter(master, first, last));
            k1 == Some(derive(master, first)) && RangeIterNextBack(derive, s1).0.None?
  {
  }

  /**
   * On a new range iterator starting at 0, `next_back` yields child 0, the
   * cursor wraps, and the second call yields child `u64::MAX`, which lies
   * outside `0..=last` for every smaller `last`.
   */
  lemma NextBackFromZeroWraps(derive: Derive, master: SpendingKey, last: DerivationIndex)
    requires last < U64_MAX
    ensures var (k1, s1) := RangeIterNextBack(derive, NewRangeIter(master, 0, last));
            var (k2, s2) := RangeIterNextBack(derive, s1);
            k1 == Some(derive(master, 0)) && s1.curr == U64_MAX &&
            k2 == Some(derive(master, U64_MAX)) && U64_MAX > s1.last
  {
  }

  class SpendingKeyRangeIter {
    const master: SpendingKey
    const first: DerivationIndex
    const last: DerivationIndex
    var curr: DerivationIndex
    const derive: Derive

    function View(): RangeIterState
      reads this
    {
      RangeIterState(master, first, last, curr)
    }

    constructor (master: SpendingKey, first: DerivationIndex, last: DerivationIndex, derive: Derive)
      ensures View() == NewRangeIter(master, first, last) && this.derive == derive
    {
      this.master := master;
      this.first := first;
      this.last := last;
      curr := first;
      this.derive := derive;
    }

    /** `nth`: child `index` of the master key; the cursor is untouched. */
    method Nth(index: DerivationIndex) returns (k: SpendingKey)
      ensures k == derive(master, index)
      ensures first <= index <= last ==>
                Some(k) == CollectRange(derive, NewRangeIter(master, first, last), index - first + 1)[index - first]
    {
      k := derive(master, index);
      if first <= index {
        RangeIterYieldsFirstToLast(derive, master, first, last, index - first + 1);
      }
    }

    method Next() returns (r: Option<SpendingKey>)
      modifies this
      ensures (r, View()) == RangeIterNext(derive, old(View()))
    {
      if curr <= last {
        var key := derive(master, curr);
        curr := curr + 1;
        r := Some(key);
      } else {
        r := None;
      }
    }

    method NextBack() returns (r: Option<SpendingKey>)
      modifies this
      ensures (r, View()) == RangeIterNextBack(derive, old(View()))
    {
      if curr >= first {
        var key := derive(master, curr);
        curr := if curr == 0 then U64_MAX else curr - 1;
        r := Some(key);
      } else {
        r := None;
      }
    }
  }
}
