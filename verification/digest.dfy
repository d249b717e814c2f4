// The six-element Rescue-Prime digest used as a database key and for the
// proof-of-work comparison: its partial order, its byte layout and its
// conversions.
module RescueDigest {
  import opened Primitives
  import opened Wrappers

  const BYTES_PER_BFE: nat := 8
  const RESCUE_PRIME_OUTPUT_SIZE_IN_BFES: nat := 6
  const RESCUE_PRIME_DIGEST_SIZE_IN_BYTES: nat := RESCUE_PRIME_OUTPUT_SIZE_IN_BFES * BYTES_PER_BFE

  type Byte = b: nat | b < 256

  type Elements = s: seq<BFieldElement> | |s| == RESCUE_PRIME_OUTPUT_SIZE_IN_BFES witness [0, 0, 0, 0, 0, 0]

  datatype RescuePrimeDigest = RescuePrimeDigest(elements: Elements)

  datatype Ordering = Less | Equal | Greater

  function New(digest: Elements): RescuePrimeDigest { RescuePrimeDigest(digest) }

  function Values(d: RescuePrimeDigest): Elements { d.elements }

  function Default(): (d: RescuePrimeDigest)
    ensures forall i :: 0 <= i < RESCUE_PRIME_OUTPUT_SIZE_IN_BFES ==> Values(d)[i] == 0
  {
    RescuePrimeDigest([0, 0, 0, 0, 0, 0])
  }

  lemma ValuesOfNew(digest: Elements)
    ensures Values(New(digest)) == digest
    ensures New(Values(RescuePrimeDigest(digest))) == RescuePrimeDigest(digest)
  {
  }

  // ---------------------------------------------------------------------
  // Ordering

  /** Lexicographic comparison of equally long value sequences; `None` when they are equal. */
  function Compare(a: seq<nat>, b: seq<nat>): Option<Ordering>
    requires |a| == |b|
    decreases |a|
  {
    if |a| == 0 then None
    else if a[0] != b[0] then Some(if a[0] < b[0] then Less else Greater)
    else Compare(a[1..], b[1..])
  }

  /** `partial_cmp`: the ordering of the values at the first index where they differ, `None` when all are equal. */
  method PartialCmp(a: RescuePrimeDigest, b: RescuePrimeDigest) returns (r: Option<Ordering>)
    ensures r == Compare(a.elements, b.elements)
  {
    var i := 0;
    while i < RESCUE_PRIME_OUTPUT_SIZE_IN_BFES
      invariant 0 <= i <= RESCUE_PRIME_OUTPUT_SIZE_IN_BFES
      invariant a.elements[..i] == b.elements[..i]
      invariant Compare(a.elements, b.elements) == Compare(a.elements[i..], b.elements[i..])
    {
      if a.elements[i] != b.elements[i] {
        return Some(if a.elements[i] < b.elements[i] then Less else Greater);
      }
      assert a.elements[..i + 1] == a.elements[..i] + [a.elements[i]];
      assert b.elements[..i + 1] == b.elements[..i] + [b.elements[i]];
      assert a.elements[i..][1..] == a.elements[i + 1..];
      assert b.elements[i..][1..] == b.elements[i + 1..];
      i := i + 1;
    }
    return None;
  }

  /** The comparison decides at the first differing index, and is `None` exactly when the sequences are equal. */
  lemma {:induction false} CompareFirstDifference(a: seq<nat>, b: seq<nat>)
    requires |a| == |b|
    ensures Compare(a, b).None? <==> a == b
    ensures Compare(a, b) != Some(Equal)
    ensures a != b ==> (exists k :: 0 <= k < |a| && a[..k] == b[..k] && a[k] != b[k] &&
                                    Compare(a, b) == Some(if a[k] < b[k] then Less else Greater))
    decreases |a|
  {
    if |a| > 0 && a[0] == b[0] {
      CompareFirstDifference(a[1..], b[1..]);
      if a != b {
        assert a[1..] != b[1..];
        var k :| 0 <= k < |a[1..]| && a[1..][..k] == b[1..][..k] && a[1..][k] != b[1..][k] &&
                 Compare(a[1..], b[1..]) == Some(if a[1..][k] < b[1..][k] then Less else Greater);
        assert a[..k + 1] == [a[0]] + a[1..][..k];
        assert b[..k + 1] == [b[0]] + b[1..][..k];
      }
    } else if |a| > 0 {
      assert a[..0] == b[..0];
    }
  }

  /** Swapping the arguments swaps Less and Greater. */
  lemma {:induction false} CompareAntisymmetric(a: seq<nat>, b: seq<nat>)
    requires |a| == |b|
    ensures Compare(a, b) == Some(Less) <==> Compare(b, a) == Some(Greater)
    decreases |a|
  {
    if |a| > 0 && a[0] == b[0] {
      CompareAntisymmetric(a[1..], b[1..]);
    }
  }

  /** Less is transitive. */
  lemma {:induction false} CompareTransitive(a: seq<nat>, b: seq<nat>, c: seq<nat>)
    requires |a| == |b| == |c|
    requires Compare(a, b) == Some(Less) && Compare(b, c) == Some(Less)
    ensures Compare(a, c) == Some(Less)
    decreases |a|
  {
    if a[0] == b[0] && b[0] == c[0] {
      CompareTransitive(a[1..], b[1..], c[1..]);
    }
  }

  /** Rust's `<` on a `PartialOrd`: `partial_cmp` is `Some(Less)`. */
  predicate DigestLess(a: RescuePrimeDigest, b: RescuePrimeDigest) {
    Compare(a.elements, b.elements) == Some(Less)
  }

  /** The default digest lies below every other digest. */
  lemma {:induction false} DefaultIsLeast(d: RescuePrimeDigest)
    requires d != Default()
    ensures DigestLess(Default(), d)
  {
    CompareFirstDifference(Default().elements, d.elements);
  }

  /** The chain of digests the unit test orders. */
  lemma OrderingExamples()
    ensures var val0 := New([0, 0, 0, 0, 0, 0]);
      var val1 := New([14, 0, 0, 0, 0, 0]);
      var val2 := New([14, 14, 14, 14, 14, 14]);
      var val3 := New([14, 14, 14, 14, 14, 15]);
      var val4 := New([14, 14, 14, 14, 15, 14]);
      DigestLess(val0, val1) && DigestLess(val1, val2) && DigestLess(val0, val2) &&
      DigestLess(val2, val3) && DigestLess(val1, val3) && DigestLess(val0, val3) &&
      DigestLess(val3, val4) && DigestLess(val2, val4) && DigestLess(val1, val4) && DigestLess(val0, val4)
  {
    var v2: seq<nat> := [14, 14, 14, 14, 14, 14];
    var v3: seq<nat> := [14, 14, 14, 14, 14, 15];
    var v4: seq<nat> := [14, 14, 14, 14, 15, 14];
    assert v2[1..] == [14, 14, 14, 14, 14] && v3[1..] == [14, 14, 14, 14, 15] && v4[1..] == [14, 14, 14, 15, 14];
    assert Compare(v2, v3) == Some(Less);
    assert Compare(v3, v4) == Some(Less);
    assert Compare(v2, v4) == Some(Less);
  }

  // ---------------------------------------------------------------------
  // Conversions

  /** `From<Vec<BFieldElement>>`: the vector must hold exactly six elements, or `expect` panics. */
  function FromVec(elems: seq<BFieldElement>): (d: RescuePrimeDigest)
    requires |elems| == RESCUE_PRIME_OUTPUT_SIZE_IN_BFES
    ensures ToVec(d) == elems
  {
    RescuePrimeDigest(elems)
  }

  /** `From<RescuePrimeDigest> for Vec<BFieldElement>`. */
  function ToVec(d: RescuePrimeDigest): seq<BFieldElement> { d.elements }

  lemma VecRoundTrip(d: RescuePrimeDigest)
    ensures FromVec(ToVec(d)) == d
  {
  }

  /** The `n` least significant base-256 digits of `v`, least significant first: `to_le_bytes`. */
  function LeBytes(v: nat, n: nat): (r: seq<Byte>)
    ensures |r| == n
  {
    if n == 0 then [] else [v % 256] + LeBytes(v / 256, n - 1)
  }

  /** Little-endian reading of a byte string. */
  function FromLe(bs: seq<Byte>): nat {
    if |bs| == 0 then 0 else bs[0] + 256 * FromLe(bs[1..])
  }

  function Pow256(n: nat): (r: nat)
    ensures r > 0
  {
    if n == 0 then 1 else 256 * Pow256(n - 1)
  }

  lemma {:induction false} LeRoundTrip(v: nat, n: nat)
    requires v < Pow256(n)
    ensures FromLe(LeBytes(v, n)) == v
  {
    if n > 0 {
      LeRoundTrip(v / 256, n - 1);
      assert LeBytes(v, n)[1..] == LeBytes(v / 256, n - 1);
    }
  }

  /**
   * `From<RescuePrimeDigest> for [u8; 48]`: each value as its eight native
   * bytes, concatenated. The native byte order is taken to be little-endian.
   */
  function ToBytes(d: RescuePrimeDigest): (r: seq<Byte>)
    ensures |r| == RESCUE_PRIME_DIGEST_SIZE_IN_BYTES
  {
    ConcatBytes(d.elements)
  }

  function ConcatBytes(vs: seq<BFieldElement>): (r: seq<Byte>)
    ensures |r| == BYTES_PER_BFE * |vs|
  {
    if |vs| == 0 then [] else LeBytes(vs[0], BYTES_PER_BFE) + ConcatBytes(vs[1..])
  }

  /** Element `i` occupies bytes `8i .. 8i+8`. */
  lemma {:induction false} ConcatBytesLayout(vs: seq<BFieldElement>, i: nat)
    requires i < |vs|
    ensures ConcatBytes(vs)[BYTES_PER_BFE * i .. BYTES_PER_BFE * (i + 1)] == LeBytes(vs[i], BYTES_PER_BFE)
  {
    if i > 0 {
      ConcatBytesLayout(vs[1..], i - 1);
      var rest := ConcatBytes(vs[1..]);
      assert ConcatBytes(vs) == LeBytes(vs[0], BYTES_PER_BFE) + rest;
      assert ConcatBytes(vs)[BYTES_PER_BFE * i .. BYTES_PER_BFE * (i + 1)] ==
             rest[BYTES_PER_BFE * (i - 1) .. BYTES_PER_BFE * i];
    }
  }

  lemma ToBytesLayout(d: RescuePrimeDigest, i: nat)
    requires i < RESCUE_PRIME_OUTPUT_SIZE_IN_BFES
    ensures ToBytes(d)[BYTES_PER_BFE * i .. BYTES_PER_BFE * (i + 1)] == LeBytes(d.elements[i], BYTES_PER_BFE)
  {
    ConcatBytesLayout(d.elements, i);
  }

  /** Distinct digests have distinct byte strings: the layout loses nothing. */
  lemma ToBytesInjective(d1: RescuePrimeDigest, d2: RescuePrimeDigest)
    requires ToBytes(d1) == ToBytes(d2)
    ensures d1 == d2
  {
    assert Pow256(BYTES_PER_BFE) == 0x1_0000_0000_0000_0000;
    forall k | 0 <= k < RESCUE_PRIME_OUTPUT_SIZE_IN_BFES ensures d1.elements[k] == d2.elements[k] {
      ToBytesLayout(d1, k);
      ToBytesLayout(d2, k);
      LeRoundTrip(d1.elements[k], BYTES_PER_BFE);
      LeRoundTrip(d2.elements[k], BYTES_PER_BFE);
    }
  }

  /**
   * The library's `from_vecu8` is not part of this model; it is a parameter.
   * The round trip needs it to read back the eight native bytes of a field element.
   */
  predicate ReadsNativeBytes(fromVecU8: seq<Byte> -> BFieldElement) {
    forall v: BFieldElement :: fromVecU8(LeBytes(v, BYTES_PER_BFE)) == v
  }

  /**
   * `From<[u8; 48]>` as written: element `i` is read from bytes
   * `i*48 .. (i+1)*48`. That slice lies inside the 48-byte array only for
   * `i = 0`, so the second iteration panics for every input; `None` stands
   * for that panic.
   */
  method FromBytesAsWritten(item: seq<Byte>, fromVecU8: seq<Byte> -> BFieldElement) returns (r: Option<RescuePrimeDigest>)
    requires |item| == RESCUE_PRIME_DIGEST_SIZE_IN_BYTES
    ensures r.None?
  {
    var bfes: Elements := [0, 0, 0, 0, 0, 0];
    var i := 0;
    while i < RESCUE_PRIME_OUTPUT_SIZE_IN_BFES
      invariant 0 <= i <= 1
    {
      var startIndex := i * RESCUE_PRIME_DIGEST_SIZE_IN_BYTES;
      var endIndex := (i + 1) * RESCUE_PRIME_DIGEST_SIZE_IN_BYTES;
      if endIndex > |item| {
        return None;
      }
      bfes := bfes[i := fromVecU8(item[startIndex..endIndex])];
      i := i + 1;
    }
    r := Some(RescuePrimeDigest(bfes));
  }

  /** The corrected conversion: element `i` is read from bytes `8i .. 8i+8`. */
  method FromBytes(item: seq<Byte>, fromVecU8: seq<Byte> -> BFieldElement) returns (d: RescuePrimeDigest)
    requires |item| == RESCUE_PRIME_DIGEST_SIZE_IN_BYTES
    ensures forall i :: 0 <= i < RESCUE_PRIME_OUTPUT_SIZE_IN_BFES ==>
              d.elements[i] == fromVecU8(item[BYTES_PER_BFE * i .. BYTES_PER_BFE * (i + 1)])
    ensures ReadsNativeBytes(fromVecU8) ==> forall e :: item == ToBytes(e) ==> d == e
  {
    var bfes: seq<BFieldElement> := [0, 0, 0, 0, 0, 0];
    var i := 0;
    while i < RESCUE_PRIME_OUTPUT_SIZE_IN_BFES
      invariant 0 <= i <= RESCUE_PRIME_OUTPUT_SIZE_IN_BFES
      invariant |bfes| == RESCUE_PRIME_OUTPUT_SIZE_IN_BFES
      invariant forall k :: 0 <= k < i ==> bfes[k] == fromVecU8(item[BYTES_PER_BFE * k .. BYTES_PER_BFE * (k + 1)])
    {
      var startIndex := i * BYTES_PER_BFE;
      var endIndex := (i + 1) * BYTES_PER_BFE;
      bfes := bfes[i := fromVecU8(item[startIndex..endIndex])];
      i := i + 1;
    }
    d := RescuePrimeDigest(bfes);
    if ReadsNativeBytes(fromVecU8) {
      forall e | item == ToBytes(e) ensures d == e {
        forall k | 0 <= k < RESCUE_PRIME_OUTPUT_SIZE_IN_BFES ensures d.elements[k] == e.elements[k] {
          ToBytesLayout(e, k);
        }
      }
    }
  }
}
