// Base-field elements and digests as they appear throughout the model.
// The Oxfoi field arithmetic and the Tip5 hash function themselves live in
// external libraries and are not part of this model.
module Primitives {

  /** The Oxfoi prime 2^64 - 2^32 + 1 that bounds every `BFieldElement`. */
  const P: nat := 0x1_0000_0000_0000_0000 - 0x1_0000_0000 + 1

  type BFieldElement = x: nat | x < P

  /** Number of field elements in a (Tip5) `Digest`. */
  const DIGEST_LEN: nat := 5

  /** A `Digest` is a fixed-size array of `DIGEST_LEN` field elements. */
  type Digest = d: seq<BFieldElement> | |d| == DIGEST_LEN witness [0, 0, 0, 0, 0]

  /** `Digest::reversed`: the same elements in the opposite order. */
  function Reversed(d: Digest): (r: Digest)
    ensures forall i :: 0 <= i < DIGEST_LEN ==> r[i] == d[DIGEST_LEN - 1 - i]
  {
    [d[4], d[3], d[2], d[1], d[0]]
  }

  /** `1 << n`, without a bound on the width. */
  function Pow2(n: nat): (r: nat)
    ensures r >= 1
  {
    if n == 0 then 1 else 2 * Pow2(n - 1)
  }

  lemma Pow2Plus8(n: nat)
    ensures Pow2(n + 8) == 256 * Pow2(n)
  {
    assert Pow2(n + 8) == 2 * Pow2(n + 7);
    assert Pow2(n + 7) == 2 * Pow2(n + 6);
    assert Pow2(n + 6) == 2 * Pow2(n + 5);
    assert Pow2(n + 5) == 2 * Pow2(n + 4);
    assert Pow2(n + 4) == 2 * Pow2(n + 3);
    assert Pow2(n + 3) == 2 * Pow2(n + 2);
    assert Pow2(n + 2) == 2 * Pow2(n + 1);
  }

  /** Every 63-bit value is a canonical field element. */
  lemma Pow2Of63BelowP()
    ensures Pow2(63) == 0x8000_0000_0000_0000
    ensures Pow2(63) < P
  {
    assert Pow2(7) == 128 by {
      assert Pow2(1) == 2;
      assert Pow2(3) == 2 * Pow2(2);
      assert Pow2(5) == 2 * Pow2(4);
      assert Pow2(7) == 2 * Pow2(6);
    }
    Pow2Plus8(7);
    Pow2Plus8(15);
    Pow2Plus8(23);
    Pow2Plus8(31);
    Pow2Plus8(39);
    Pow2Plus8(47);
    Pow2Plus8(55);
  }
}
