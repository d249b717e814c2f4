// The mutator set's set commitment: an append-only commitment list (the
// AOCL, an MMR of item commitments) and a sliding-window Bloom filter (SWBF)
// whose inactive part is an MMR of chunk digests and whose active part is a
// window of WINDOW_SIZE bits.
//
// The hash function, the index sampler, the integer-to-digest conversion and
// MMR authentication-path verification are fields of a `Hasher` value.
module AccumulationScheme {
  import opened Primitives
  import opened Wrappers
  import opened Mmr

  const WINDOW_SIZE: nat := 30000
  const CHUNK_SIZE: nat := 1500
  const BATCH_SIZE: nat := 10
  const NUM_TRIALS: nat := 5
  /** Bits packed into one field element of a chunk's hash preimage. */
  const BIT_CAPACITY_PER_BFIELD_ELEMENT: nat := 63

  /** The hash-related library functions the set commitment calls. */
  datatype Hasher = Hasher(
    hashPair: (Digest, Digest) -> Digest,
    // hasher.hash(&preimage.to_digest())
    hashElements: seq<BFieldElement> -> Digest,
    // (x as u128).to_digest()
    toDigest: nat -> Digest,
    // sample_index_not_power_of_two(seed, upper_bound)
    sampleIndex: (Digest, nat) -> nat,
    // MembershipProof::verify(peaks, leaf, leaf_count).0
    verifyMmrProof: (Mmr.MembershipProof, seq<Digest>, Digest, nat) -> bool)

  // ---- chunks and their hash preimage ----

  type ChunkBits = b: seq<bool> | |b| == CHUNK_SIZE witness seq(CHUNK_SIZE, _ => false)

  datatype Chunk = Chunk(bits: ChunkBits)

  /** `get_hashpreimage_length`: CHUNK_SIZE / 63, plus one for a partial element. */
  function GetHashPreimageLength(): nat {
    CHUNK_SIZE / BIT_CAPACITY_PER_BFIELD_ELEMENT
      + if CHUNK_SIZE % BIT_CAPACITY_PER_BFIELD_ELEMENT == 0 then 0 else 1
  }

  /** The preimage length is the ceiling of CHUNK_SIZE / 63: enough elements for every bit, not one more. */
  lemma HashPreimageLengthIsCeiling()
    ensures GetHashPreimageLength() == 24
    ensures (GetHashPreimageLength() - 1) * BIT_CAPACITY_PER_BFIELD_ELEMENT < CHUNK_SIZE
    ensures CHUNK_SIZE <= GetHashPreimageLength() * BIT_CAPACITY_PER_BFIELD_ELEMENT
  {
  }

  /** Bits `start .. start + n` read as a little-endian binary number. */
  function Weighted(bits: seq<bool>, start: nat, n: nat): nat
    requires start + n <= |bits|
    decreases n
  {
    if n == 0 then 0 else (if bits[start] then 1 else 0) + 2 * Weighted(bits, start + 1, n - 1)
  }

  /** Adding the next higher bit adds its weight `1 << n` (the accumulation order of the source). */
  lemma {:induction false} WeightedSnoc(bits: seq<bool>, start: nat, n: nat)
    requires start + n < |bits|
    ensures Weighted(bits, start, n + 1) == Weighted(bits, start, n) + (if bits[start + n] then Pow2(n) else 0)
    decreases n
  {
    if n > 0 {
      WeightedSnoc(bits, start + 1, n - 1);
    }
  }

  lemma {:induction false} WeightedBound(bits: seq<bool>, start: nat, n: nat)
    requires start + n <= |bits|
    ensures Weighted(bits, start, n) < Pow2(n)
    decreases n
  {
    if n > 0 {
      WeightedBound(bits, start + 1, n - 1);
    }
  }

  /** A run of unset bits weighs nothing. */
  lemma {:induction false} WeightedOfUnset(bits: seq<bool>, start: nat, n: nat)
    requires start + n <= |bits|
    requires forall j :: start <= j < start + n ==> !bits[j]
    ensures Weighted(bits, start, n) == 0
    decreases n
  {
    if n > 0 {
      WeightedOfUnset(bits, start + 1, n - 1);
    }
  }

  /** Reading `n` bits back out of a packed number. */
  function Unpack(x: nat, n: nat): (r: seq<bool>)
    ensures |r| == n
    decreases n
  {
    if n == 0 then [] else [x % 2 == 1] + Unpack(x / 2, n - 1)
  }

  /** Packing loses nothing: the bits are recovered from the packed number. */
  lemma {:induction false} UnpackWeighted(bits: seq<bool>, start: nat, n: nat)
    requires start + n <= |bits|
    ensures Unpack(Weighted(bits, start, n), n) == bits[start..start + n]
    decreases n
  {
    if n > 0 {
      var rest := Weighted(bits, start + 1, n - 1);
      var x := Weighted(bits, start, n);
      assert x % 2 == (if bits[start] then 1 else 0) && x / 2 == rest;
      UnpackWeighted(bits, start + 1, n - 1);
      assert bits[start..start + n] == [bits[start]] + bits[start + 1..start + n];
    }
  }

  const FULL_ELEMENTS: nat := CHUNK_SIZE / BIT_CAPACITY_PER_BFIELD_ELEMENT

  /** Element `k` of a chunk's hash preimage: 63 bits per element, the remainder in the last. */
  function PreimageElement(bits: ChunkBits, k: nat): BFieldElement
    requires k < GetHashPreimageLength()
  {
    var n := ElementWidth(k);
    WeightedBound(bits, k * BIT_CAPACITY_PER_BFIELD_ELEMENT, n);
    assert Pow2(n) <= Pow2(63) by {
      if n < 63 {
        Pow2Monotone(n, 63);
      }
    }
    Pow2Of63BelowP();
    Weighted(bits, k * BIT_CAPACITY_PER_BFIELD_ELEMENT, n)
  }

  lemma {:induction false} Pow2Monotone(a: nat, b: nat)
    requires a <= b
    ensures Pow2(a) <= Pow2(b)
    decreases b - a
  {
    if a < b {
      Pow2Monotone(a, b - 1);
    }
  }

  /** The hash preimage of a chunk. */
  function Preimage(bits: ChunkBits): seq<BFieldElement> {
    seq(GetHashPreimageLength(), k requires 0 <= k < GetHashPreimageLength() => PreimageElement(bits, k))
  }

  /** The digest of a chunk (`Chunk::hash`). */
  function ChunkHash(hasher: Hasher, chunk: Chunk): Digest {
    hasher.hashElements(Preimage(chunk.bits))
  }

  /** The number of bits packed into element `k`: 63, the remainder in the last element. */
  function ElementWidth(k: nat): nat {
    if k < FULL_ELEMENTS then BIT_CAPACITY_PER_BFIELD_ELEMENT else CHUNK_SIZE % BIT_CAPACITY_PER_BFIELD_ELEMENT
  }

  /** Bit `j` of element `k` of the preimage is bit `63 k + j` of the chunk. */
  lemma PreimageRecoversBit(bits: ChunkBits, k: nat, j: nat)
    requires k < GetHashPreimageLength() && j < ElementWidth(k)
    ensures k * BIT_CAPACITY_PER_BFIELD_ELEMENT + j < CHUNK_SIZE
    ensures Unpack(Preimage(bits)[k], ElementWidth(k))[j] == bits[k * BIT_CAPACITY_PER_BFIELD_ELEMENT + j]
  {
    var start := k * BIT_CAPACITY_PER_BFIELD_ELEMENT;
    var n := ElementWidth(k);
    assert start + n <= CHUNK_SIZE by {
      if k < FULL_ELEMENTS {
        assert k <= 22;
      } else {
        assert k == 23 && n == 51;
      }
    }
    assert Preimage(bits)[k] == Weighted(bits, start, n);
    UnpackWeighted(bits, start, n);
    assert bits[start..start + n][j] == bits[start + j];
  }

  /** Distinct chunks have distinct hash preimages: packing loses no bit. */
  lemma PreimageInjective(a: ChunkBits, b: ChunkBits)
    requires Preimage(a) == Preimage(b)
    ensures a == b
  {
    forall i | 0 <= i < CHUNK_SIZE
      ensures a[i] == b[i]
    {
      var k := i / BIT_CAPACITY_PER_BFIELD_ELEMENT;
      var j := i % BIT_CAPACITY_PER_BFIELD_ELEMENT;
      assert k * BIT_CAPACITY_PER_BFIELD_ELEMENT + j == i;
      PreimageRecoversBit(a, k, j);
      PreimageRecoversBit(b, k, j);
    }
  }

  /** `BFieldElement::new(acc)` for an accumulator of at most 63 bits: no reduction happens. */
  function ToElement(acc: nat, bits: seq<bool>, start: nat, n: nat): (e: BFieldElement)
    requires start + n <= |bits| && n <= BIT_CAPACITY_PER_BFIELD_ELEMENT
    requires acc == Weighted(bits, start, n)
    ensures e == acc
  {
    WeightedBound(bits, start, n);
    Pow2Monotone(n, 63);
    Pow2Of63BelowP();
    acc
  }

  /** `hash_preimage`: the nested accumulation loops of the source. */
  method HashPreimage(chunk: Chunk) returns (ret: seq<BFieldElement>)
    ensures ret == Preimage(chunk.bits)
  {
    var numIterations := CHUNK_SIZE / BIT_CAPACITY_PER_BFIELD_ELEMENT;
    ret := [];
    var acc: nat;
    for i := 0 to numIterations
      invariant |ret| == i
      invariant forall k :: 0 <= k < i ==> ret[k] == PreimageElement(chunk.bits, k)
    {
      acc := AccumulateBits(chunk.bits, i * BIT_CAPACITY_PER_BFIELD_ELEMENT, BIT_CAPACITY_PER_BFIELD_ELEMENT);
      var element := ToElement(acc, chunk.bits, i * BIT_CAPACITY_PER_BFIELD_ELEMENT, BIT_CAPACITY_PER_BFIELD_ELEMENT);
      ret := ret + [element];
    }
    if CHUNK_SIZE % BIT_CAPACITY_PER_BFIELD_ELEMENT != 0 {
      acc := AccumulateBits(chunk.bits, numIterations * BIT_CAPACITY_PER_BFIELD_ELEMENT, CHUNK_SIZE % BIT_CAPACITY_PER_BFIELD_ELEMENT);
      var element := ToElement(acc, chunk.bits, numIterations * BIT_CAPACITY_PER_BFIELD_ELEMENT, CHUNK_SIZE % BIT_CAPACITY_PER_BFIELD_ELEMENT);
      ret := ret + [element];
    }
  }

  /** The inner loop of `hash_preimage`: bit `j` of the run contributes `1 << j`. */
  method AccumulateBits(bits: seq<bool>, start: nat, n: nat) returns (acc: nat)
    requires start + n <= |bits|
    ensures acc == Weighted(bits, start, n)
  {
    acc := 0;
    for j := 0 to n
      invariant acc == Weighted(bits, start, j)
    {
      WeightedSnoc(bits, start, j);
      acc := acc + if bits[start + j] then Pow2(j) else 0;
    }
  }

  const EMPTY_CHUNK: ChunkBits := seq(CHUNK_SIZE, _ => false)

  /** Elements from the third on are zero when no bit beyond the second element is set. */
  lemma PreimageTailZero(bits: ChunkBits)
    requires forall i :: 2 * BIT_CAPACITY_PER_BFIELD_ELEMENT <= i < CHUNK_SIZE ==> !bits[i]
    ensures forall k :: 2 <= k < GetHashPreimageLength() ==> Preimage(bits)[k] == 0
  {
    forall k | 2 <= k < GetHashPreimageLength()
      ensures Preimage(bits)[k] == 0
    {
      WeightedOfUnset(bits, k * BIT_CAPACITY_PER_BFIELD_ELEMENT, ElementWidth(k));
    }
  }

  /** The unit-test example with no bits set: every element is zero. */
  lemma PreimageOfEmptyChunk()
    ensures forall k :: 0 <= k < GetHashPreimageLength() ==> Preimage(EMPTY_CHUNK)[k] == 0
  {
    forall k | 0 <= k < GetHashPreimageLength()
      ensures Preimage(EMPTY_CHUNK)[k] == 0
    {
      WeightedOfUnset(EMPTY_CHUNK, k * BIT_CAPACITY_PER_BFIELD_ELEMENT, ElementWidth(k));
    }
  }

  /** The unit-test example with bit 63 set: the second element is 1, the others 0. */
  lemma PreimageOfBit63()
    ensures var p := Preimage(EMPTY_CHUNK[63 := true]);
            p[0] == 0 && p[1] == 1 && forall k :: 2 <= k < GetHashPreimageLength() ==> p[k] == 0
  {
    var one := EMPTY_CHUNK[63 := true];
    WeightedOfUnset(one, 0, 63);
    WeightedOfUnset(one, 64, 62);
    PreimageTailZero(one);
  }

  /** The unit-test example with bits 63 and 64 set: the second element is 3, the others 0. */
  lemma PreimageOfBits63And64()
    ensures var p := Preimage(EMPTY_CHUNK[63 := true][64 := true]);
            p[0] == 0 && p[1] == 3 && forall k :: 2 <= k < GetHashPreimageLength() ==> p[k] == 0
  {
    var two := EMPTY_CHUNK[63 := true][64 := true];
    WeightedOfUnset(two, 0, 63);
    WeightedOfUnset(two, 65, 61);
    assert Weighted(two, 64, 62) == 1 + 2 * Weighted(two, 65, 61);
    PreimageTailZero(two);
  }

  // ---- the sliding window ----

  /** `window_slides(index)`: the window moves before absorbing the item with this index. */
  predicate WindowSlides(index: nat) {
    index != 0 && index % BATCH_SIZE == 0
  }

  /** The number of slides while the items with indices `0 .. n` were added. */
  function CountSlides(n: nat): nat {
    if n == 0 then 0 else CountSlides(n - 1) + if WindowSlides(n - 1) then 1 else 0
  }

  /**
   * The window start after `n` additions, as `verify` computes it:
   * `((n - 1) / BATCH_SIZE) * CHUNK_SIZE`, and 0 for an empty set.
   */
  function WindowStart(n: nat): nat {
    (if n == 0 then 0 else (n - 1) / BATCH_SIZE) * CHUNK_SIZE
  }

  /** The window start is one chunk per slide so far. */
  lemma {:induction false} WindowStartCountsSlides(n: nat)
    ensures CountSlides(n) == (if n == 0 then 0 else (n - 1) / BATCH_SIZE)
    ensures WindowStart(n) == CountSlides(n) * CHUNK_SIZE
  {
    if n > 0 {
      WindowStartCountsSlides(n - 1);
    }
  }

  /** The window start `remove` computes: `(leaf_count / BATCH_SIZE) * CHUNK_SIZE`. */
  function WindowStartAsWritten(n: nat): nat {
    (n / BATCH_SIZE) * CHUNK_SIZE
  }

  /** The two window starts agree except on positive multiples of BATCH_SIZE, where `remove` is one chunk ahead. */
  lemma WindowStartAsWrittenDiffers(n: nat)
    ensures WindowStartAsWritten(n) == WindowStart(n) <==> n == 0 || n % BATCH_SIZE != 0
    ensures n != 0 && n % BATCH_SIZE == 0 ==> WindowStartAsWritten(n) == WindowStart(n) + CHUNK_SIZE
  {
  }

  /** The active window after a slide: moved left by one chunk, the last chunk cleared. */
  function Slide(active: seq<bool>): seq<bool>
    requires |active| == WINDOW_SIZE
  {
    active[CHUNK_SIZE..] + seq(CHUNK_SIZE, _ => false)
  }

  /**
   * Sliding keeps every bit at its absolute position: bit `b` of the window
   * starting at `start` is bit `b` of the slid window starting one chunk later.
   */
  lemma SlideKeepsAbsolutePositions(active: seq<bool>, start: nat, b: nat)
    requires |active| == WINDOW_SIZE
    requires start + CHUNK_SIZE <= b < start + WINDOW_SIZE + CHUNK_SIZE
    ensures |Slide(active)| == WINDOW_SIZE
    ensures Slide(active)[b - (start + CHUNK_SIZE)] == (b < start + WINDOW_SIZE && active[b - start])
  {
  }

  /** The window shift of `add`: every bit moved left by one chunk, then the last chunk cleared, in place. */
  method SlideWindow(swbfActive: array<bool>)
    requires swbfActive.Length == WINDOW_SIZE
    modifies swbfActive
    ensures swbfActive[..] == Slide(old(swbfActive[..]))
  {
    for i := CHUNK_SIZE to WINDOW_SIZE
      invariant forall k :: 0 <= k < i - CHUNK_SIZE ==> swbfActive[k] == old(swbfActive[k + CHUNK_SIZE])
      invariant forall k :: i - CHUNK_SIZE <= k < WINDOW_SIZE ==> swbfActive[k] == old(swbfActive[k])
    {
      swbfActive[i - CHUNK_SIZE] := swbfActive[i];
    }
    for i := WINDOW_SIZE - CHUNK_SIZE to WINDOW_SIZE
      invariant forall k :: 0 <= k < WINDOW_SIZE - CHUNK_SIZE ==> swbfActive[k] == old(swbfActive[k + CHUNK_SIZE])
      invariant forall k :: WINDOW_SIZE - CHUNK_SIZE <= k < i ==> !swbfActive[k]
    {
      swbfActive[i] := false;
    }
  }

  // ---- records ----

  /** One chunk-dictionary entry: chunk index, the chunk's MMR proof, the chunk. */
  datatype ChunkEntry = ChunkEntry(chunkIndex: nat, proof: Mmr.MembershipProof, chunk: Chunk)

  predicate UniqueKeys(entries: seq<ChunkEntry>) {
    forall i, j :: 0 <= i < j < |entries| ==> entries[i].chunkIndex != entries[j].chunkIndex
  }

  /** A `HashMap` from chunk index to entry, listed in its iteration order. */
  type ChunkDictionary = d: seq<ChunkEntry> | UniqueKeys(d)

  /** Dictionary lookup by chunk index. */
  function Lookup(d: ChunkDictionary, key: nat): (r: Option<ChunkEntry>)
    ensures r.Some? <==> exists k :: 0 <= k < |d| && d[k].chunkIndex == key
    ensures r.Some? ==> r.value in d && r.value.chunkIndex == key
    decreases |d|
  {
    if |d| == 0 then None
    else if d[0].chunkIndex == key then Some(d[0])
    else
      var r := Lookup(d[1..], key);
      assert forall k :: 1 <= k < |d| ==> d[k] == d[1..][k - 1];
      r
  }

  datatype AdditionRecord = AdditionRecord(commitment: Digest, aoclSnapshot: MmrState)

  /** `has_matching_aocl`: the snapshot has the accumulator's leaf count and peaks. */
  predicate HasMatchingAocl(record: AdditionRecord, aocl: MmrState) {
    record.aoclSnapshot.leafCount == aocl.leafCount && record.aoclSnapshot.peaks == aocl.peaks
  }

  /** Matching compares the whole accumulator value, since it is exactly leaf count and peaks. */
  lemma HasMatchingAoclIsEquality(record: AdditionRecord, aocl: MmrState)
    ensures HasMatchingAocl(record, aocl) <==> record.aoclSnapshot == aocl
  {
  }

  datatype RemovalRecord = RemovalRecord(bitIndices: seq<nat>, targetChunks: ChunkDictionary)

  /** A mutator-set membership proof; its data index is the AOCL proof's leaf index. */
  datatype SetMembershipProof = SetMembershipProof(randomness: Digest, authPathAocl: Mmr.MembershipProof, targetChunks: ChunkDictionary)

  // ---- bit indices ----

  /** The sampler always lands inside the window. */
  ghost predicate SamplerBounded(hasher: Hasher) {
    forall seed :: hasher.sampleIndex(seed, WINDOW_SIZE) < WINDOW_SIZE
  }

  /**
   * `get_indices`: NUM_TRIALS pseudo-random bit indices, each an offset into the
   * window that started at the item's batch.
   */
  function GetIndices(hasher: Hasher, item: Digest, randomness: Digest, index: nat): (r: seq<nat>)
    ensures |r| == NUM_TRIALS
    ensures forall k :: 0 <= k < |r| ==> (index / BATCH_SIZE) * CHUNK_SIZE <= r[k]
    ensures SamplerBounded(hasher) ==>
              forall k :: 0 <= k < |r| ==> r[k] < (index / BATCH_SIZE) * CHUNK_SIZE + WINDOW_SIZE
  {
    var batchIndex := index / BATCH_SIZE;
    var timestamp := hasher.toDigest(index);
    var rhs := hasher.hashPair(item, hasher.hashPair(timestamp, randomness));
    seq(NUM_TRIALS, i requires 0 <= i < NUM_TRIALS =>
      hasher.sampleIndex(hasher.hashPair(hasher.toDigest(i), rhs), WINDOW_SIZE) + batchIndex * CHUNK_SIZE)
  }

  /** An added item's bits never lie right of the current window. */
  lemma IndicesNotInFuture(hasher: Hasher, item: Digest, randomness: Digest, index: nat, count: nat)
    requires SamplerBounded(hasher) && index < count
    ensures NoFutureBits(WindowStart(count), GetIndices(hasher, item, randomness, index))
  {
    assert index / BATCH_SIZE <= (count - 1) / BATCH_SIZE;
  }

  // ---- verify ----

  predicate InDictionary(d: ChunkDictionary, b: nat) {
    Lookup(d, b / CHUNK_SIZE).Some?
  }

  predicate EntriesInDictionary(d: ChunkDictionary, start: nat, bits: seq<nat>) {
    forall k :: 0 <= k < |bits| && bits[k] < start ==> InDictionary(d, bits[k])
  }

  predicate ChunkProofValid(hasher: Hasher, inactive: MmrState, e: ChunkEntry) {
    hasher.verifyMmrProof(e.proof, inactive.peaks, ChunkHash(hasher, e.chunk), inactive.leafCount)
  }

  predicate AuthPathsValid(hasher: Hasher, inactive: MmrState, d: ChunkDictionary, start: nat, bits: seq<nat>) {
    forall k :: 0 <= k < |bits| && bits[k] < start && InDictionary(d, bits[k]) ==>
      ChunkProofValid(hasher, inactive, Lookup(d, bits[k] / CHUNK_SIZE).value)
  }

  predicate NoFutureBits(start: nat, bits: seq<nat>) {
    forall k :: 0 <= k < |bits| ==> bits[k] < start + WINDOW_SIZE
  }

  /** Bit `b` is possibly unset: in its dictionary chunk, or in the active window. */
  predicate UnsetBit(d: ChunkDictionary, active: seq<bool>, start: nat, b: nat) {
    if b < start then InDictionary(d, b) && !Lookup(d, b / CHUNK_SIZE).value.chunk.bits[b % CHUNK_SIZE]
    else b - start < |active| && b < start + WINDOW_SIZE && !active[b - start]
  }

  predicate HasUnsetBits(d: ChunkDictionary, active: seq<bool>, start: nat, bits: seq<nat>) {
    exists k :: 0 <= k < |bits| && UnsetBit(d, active, start, bits[k])
  }

  /** `verify`'s verdict, on the values of the three components. */
  predicate VerifySpec(hasher: Hasher, aocl: MmrState, inactive: MmrState, active: seq<bool>, item: Digest, mp: SetMembershipProof) {
    var dataIndex := mp.authPathAocl.leafIndex;
    if aocl.leafCount <= dataIndex then false
    else
      var leaf := hasher.hashPair(item, mp.randomness);
      var start := WindowStart(aocl.leafCount);
      var bits := GetIndices(hasher, item, mp.randomness, dataIndex);
      && hasher.verifyMmrProof(mp.authPathAocl, aocl.peaks, leaf, aocl.leafCount)
      && EntriesInDictionary(mp.targetChunks, start, bits)
      && AuthPathsValid(hasher, inactive, mp.targetChunks, start, bits)
      && NoFutureBits(start, bits)
      && HasUnsetBits(mp.targetChunks, active, start, bits)
  }

  // How each of `verify`'s four flags changes with one more bit index.

  lemma EntriesInDictionaryStep(d: ChunkDictionary, start: nat, bits: seq<nat>, b: nat)
    ensures EntriesInDictionary(d, start, bits + [b]) == (EntriesInDictionary(d, start, bits) && (b < start ==> InDictionary(d, b)))
  {
    var s := bits + [b];
    assert s[|bits|] == b;
    assert forall k :: 0 <= k < |bits| ==> s[k] == bits[k];
  }

  lemma AuthPathsValidStep(hasher: Hasher, inactive: MmrState, d: ChunkDictionary, start: nat, bits: seq<nat>, b: nat)
    ensures AuthPathsValid(hasher, inactive, d, start, bits + [b])
         == (AuthPathsValid(hasher, inactive, d, start, bits)
             && (b < start && InDictionary(d, b) ==> ChunkProofValid(hasher, inactive, Lookup(d, b / CHUNK_SIZE).value)))
  {
    var s := bits + [b];
    assert s[|bits|] == b;
    assert forall k :: 0 <= k < |bits| ==> s[k] == bits[k];
  }

  lemma NoFutureBitsStep(start: nat, bits: seq<nat>, b: nat)
    ensures NoFutureBits(start, bits + [b]) == (NoFutureBits(start, bits) && b < start + WINDOW_SIZE)
  {
    var s := bits + [b];
    assert s[|bits|] == b;
    assert forall k :: 0 <= k < |bits| ==> s[k] == bits[k];
  }

  lemma HasUnsetBitsStep(d: ChunkDictionary, active: seq<bool>, start: nat, bits: seq<nat>, b: nat)
    ensures HasUnsetBits(d, active, start, bits + [b]) == (HasUnsetBits(d, active, start, bits) || UnsetBit(d, active, start, b))
  {
    var s := bits + [b];
    assert s[|bits|] == b;
    assert forall k :: 0 <= k < |bits| ==> s[k] == bits[k];
    if HasUnsetBits(d, active, start, s) && !UnsetBit(d, active, start, b) {
      var k :| 0 <= k < |s| && UnsetBit(d, active, start, s[k]);
      assert k < |bits|;
    }
  }

  // ---- remove ----

  /** `remove` can process bit `b` without panicking. */
  predicate RemovableBit(d: ChunkDictionary, start: nat, b: nat) {
    if b >= start then b - start < WINDOW_SIZE else InDictionary(d, b)
  }

  /** The active window with the bits at or right of `start` set. */
  function SetActiveBits(active: seq<bool>, start: nat, bits: seq<nat>): seq<bool> {
    seq(|active|, k requires 0 <= k < |active| => active[k] || (start + k) in bits)
  }

  /** The chunk of `e` with the bits of `bits` left of `start` that fall in it set. */
  function SetChunkBits(e: ChunkEntry, start: nat, bits: seq<nat>): Chunk {
    Chunk(seq(CHUNK_SIZE, j requires 0 <= j < CHUNK_SIZE =>
      e.chunk.bits[j] || (e.chunkIndex * CHUNK_SIZE + j < start && (e.chunkIndex * CHUNK_SIZE + j) in bits)))
  }

  /** The dictionary after `remove` set its bits in it. */
  function SetDictionaryBits(d: ChunkDictionary, start: nat, bits: seq<nat>): (r: ChunkDictionary)
    ensures |r| == |d|
    ensures forall k :: 0 <= k < |d| ==> r[k].chunkIndex == d[k].chunkIndex && r[k].proof == d[k].proof
  {
    var r := seq(|d|, k requires 0 <= k < |d| => d[k].(chunk := SetChunkBits(d[k], start, bits)));
    assert forall k :: 0 <= k < |d| ==> r[k].chunkIndex == d[k].chunkIndex;
    r
  }

  /** Setting one bit `b` in the entry of its chunk (`get_mut(..).unwrap()`). */
  function SetBitInDictionary(d: ChunkDictionary, b: nat): (r: ChunkDictionary)
    ensures |r| == |d|
    ensures forall k :: 0 <= k < |d| ==> r[k].chunkIndex == d[k].chunkIndex && r[k].proof == d[k].proof
  {
    var r := seq(|d|, k requires 0 <= k < |d| =>
      if d[k].chunkIndex == b / CHUNK_SIZE then d[k].(chunk := Chunk(d[k].chunk.bits[b % CHUNK_SIZE := true])) else d[k]);
    assert forall k :: 0 <= k < |d| ==> r[k].chunkIndex == d[k].chunkIndex;
    r
  }

  /** A bit position in a chunk is the chunk index and offset of exactly one bit index. */
  lemma ChunkPosition(ci: nat, j: nat, b: nat)
    requires j < CHUNK_SIZE
    ensures ci * CHUNK_SIZE + j == b <==> ci == b / CHUNK_SIZE && j == b % CHUNK_SIZE
  {
    if ci * CHUNK_SIZE + j == b {
      assert (ci * CHUNK_SIZE + j) / CHUNK_SIZE == ci;
      assert (ci * CHUNK_SIZE + j) % CHUNK_SIZE == j;
    }
  }

  function Reverse<T>(s: seq<T>): (r: seq<T>)
    ensures |r| == |s|
  {
    seq(|s|, k requires 0 <= k < |s| => s[|s| - 1 - k])
  }

  function EntryProofs(d: ChunkDictionary): seq<Mmr.MembershipProof> {
    seq(|d|, k requires 0 <= k < |d| => d[k].proof)
  }

  function EntryHashes(hasher: Hasher, d: ChunkDictionary): seq<Digest> {
    seq(|d|, k requires 0 <= k < |d| => ChunkHash(hasher, d[k].chunk))
  }

  /** Removing an item whose bits lie in the active window leaves none of them unset there. */
  lemma RemovedActiveBitsAreSet(active: seq<bool>, start: nat, bits: seq<nat>)
    requires |active| == WINDOW_SIZE
    ensures forall k :: 0 <= k < |bits| && start <= bits[k] ==>
              !UnsetBit([], SetActiveBits(active, start, bits), start, bits[k])
  {
    forall k | 0 <= k < |bits| && start <= bits[k]
      ensures !UnsetBit([], SetActiveBits(active, start, bits), start, bits[k])
    {
      var b := bits[k];
      if b - start < WINDOW_SIZE {
        assert start + (b - start) == b;
      }
    }
  }

  /**
   * With the window start `remove` computes, removing the tenth item sets its
   * bit 1500 at window position 0, while `verify` reads it at position 1500,
   * where it is still unset: the removed item still verifies.
   */
  lemma RemoveAsWrittenLeavesBitUnset()
    ensures WindowStartAsWritten(10) == 1500 && WindowStart(10) == 0
    ensures var active := SetActiveBits(seq(WINDOW_SIZE, _ => false), WindowStartAsWritten(10), [1500]);
            active[0] && UnsetBit([], active, WindowStart(10), 1500)
  {
    var active := SetActiveBits(seq(WINDOW_SIZE, _ => false), WindowStartAsWritten(10), [1500]);
    assert 1500 + 0 in [1500];
    assert !(1500 + 1500 in [1500]);
  }

  class SetCommitment {
    const aocl: MmrAccumulator
    const swbfInactive: MmrAccumulator
    const swbfActive: array<bool>
    const hasher: Hasher

    /**
     * The two accumulators are distinct, the window has WINDOW_SIZE bits, and
     * the inactive part holds one chunk per slide so far.
     */
    predicate Valid()
      reads this, aocl, swbfInactive
    {
      && aocl != swbfInactive
      && swbfActive.Length == WINDOW_SIZE
      && swbfInactive.leafCount == CountSlides(aocl.leafCount)
    }

    /** `default()`: two empty accumulators and an all-clear window. */
    constructor Default(ops: MmrOps, hasher: Hasher)
      ensures Valid() && fresh(aocl) && fresh(swbfInactive) && fresh(swbfActive)
      ensures aocl.Snapshot() == MmrState(0, []) && swbfInactive.Snapshot() == MmrState(0, [])
      ensures swbfActive[..] == seq(WINDOW_SIZE, _ => false)
      ensures this.hasher == hasher
    {
      aocl := new MmrAccumulator.New(ops, []);
      swbfInactive := new MmrAccumulator.New(ops, []);
      swbfActive := new bool[WINDOW_SIZE](_ => false);
      this.hasher := hasher;
    }

    /** `commit`: the item's commitment, with a snapshot of the current AOCL. */
    function Commit(item: Digest, randomness: Digest): (r: AdditionRecord)
      reads this, aocl
      ensures HasMatchingAocl(r, aocl.Snapshot())
      ensures r.commitment == hasher.hashPair(item, randomness)
    {
      AdditionRecord(hasher.hashPair(item, randomness), aocl.Snapshot())
    }

    /**
     * `add`: append the commitment to the AOCL; when the window slides, move
     * the first chunk of the window into the inactive MMR and shift the window.
     * A record whose snapshot does not match the AOCL is a panic in the source.
     */
    method Add(record: AdditionRecord)
      requires Valid()
      requires HasMatchingAocl(record, aocl.Snapshot())
      modifies aocl, swbfInactive, swbfActive
      ensures Valid()
      ensures aocl.leafCount == old(aocl.leafCount) + 1
      ensures aocl.Snapshot() == AppendLeaf(aocl.ops, old(aocl.Snapshot()), record.commitment)
      ensures WindowSlides(old(aocl.leafCount)) ==>
                && swbfInactive.Snapshot() == AppendLeaf(swbfInactive.ops, old(swbfInactive.Snapshot()),
                                                         ChunkHash(hasher, Chunk(old(swbfActive[..CHUNK_SIZE]))))
                && swbfActive[..] == Slide(old(swbfActive[..]))
      ensures !WindowSlides(old(aocl.leafCount)) ==>
                swbfInactive.Snapshot() == old(swbfInactive.Snapshot()) && swbfActive[..] == old(swbfActive[..])
    {
      var itemIndex := aocl.CountLeaves();
      var _ := aocl.Append(record.commitment);

      if WindowSlides(itemIndex) {
        var chunk := Chunk(swbfActive[..CHUNK_SIZE]);
        var preimage := HashPreimage(chunk);
        var chunkDigest := hasher.hashElements(preimage);
        var _ := swbfInactive.Append(chunkDigest);

        SlideWindow(swbfActive);
      }
    }

    /**
     * `verify`: the item's commitment is in the AOCL, and some bit of the
     * item is still unset, with every inactive bit backed by a valid chunk
     * proof and no bit right of the window. False when the proof's data
     * index is not yet in the AOCL.
     */
    method Verify(item: Digest, membershipProof: SetMembershipProof) returns (b: bool)
      requires Valid()
      ensures b == VerifySpec(hasher, aocl.Snapshot(), swbfInactive.Snapshot(), swbfActive[..], item, membershipProof)
      ensures aocl.leafCount <= membershipProof.authPathAocl.leafIndex ==> !b
    {
      if aocl.CountLeaves() <= membershipProof.authPathAocl.leafIndex {
        return false;
      }

      var leaf := hasher.hashPair(item, membershipProof.randomness);
      var isAoclMember := hasher.verifyMmrProof(membershipProof.authPathAocl, aocl.peaks, leaf, aocl.leafCount);

      var itemIndex := membershipProof.authPathAocl.leafIndex;
      var currentBatchIndex := (aocl.CountLeaves() - 1) / BATCH_SIZE;
      var windowStart := currentBatchIndex * CHUNK_SIZE;
      var bitIndices := GetIndices(hasher, item, membershipProof.randomness, itemIndex);
      var entriesInDictionary, allAuthPathsAreValid, noFutureBits, hasUnsetBits :=
        ScanBits(bitIndices, membershipProof.targetChunks, windowStart);

      b := isAoclMember && entriesInDictionary && allAuthPathsAreValid && noFutureBits && hasUnsetBits;
    }

    /** The loop of `verify` over the item's bit indices, computing its four flags. */
    method ScanBits(bitIndices: seq<nat>, dictionary: ChunkDictionary, windowStart: nat)
      returns (entriesInDictionary: bool, allAuthPathsAreValid: bool, noFutureBits: bool, hasUnsetBits: bool)
      requires swbfActive.Length == WINDOW_SIZE
      ensures entriesInDictionary == EntriesInDictionary(dictionary, windowStart, bitIndices)
      ensures allAuthPathsAreValid == AuthPathsValid(hasher, swbfInactive.Snapshot(), dictionary, windowStart, bitIndices)
      ensures noFutureBits == NoFutureBits(windowStart, bitIndices)
      ensures hasUnsetBits == HasUnsetBits(dictionary, swbfActive[..], windowStart, bitIndices)
    {
      hasUnsetBits := false;
      entriesInDictionary := true;
      allAuthPathsAreValid := true;
      noFutureBits := true;
      var windowStop := windowStart + WINDOW_SIZE;

      for i := 0 to |bitIndices|
        invariant entriesInDictionary == EntriesInDictionary(dictionary, windowStart, bitIndices[..i])
        invariant allAuthPathsAreValid == AuthPathsValid(hasher, swbfInactive.Snapshot(), dictionary, windowStart, bitIndices[..i])
        invariant noFutureBits == NoFutureBits(windowStart, bitIndices[..i])
        invariant hasUnsetBits == HasUnsetBits(dictionary, swbfActive[..], windowStart, bitIndices[..i])
      {
        var bitIndex := bitIndices[i];
        assert bitIndices[..i + 1] == bitIndices[..i] + [bitIndex];
        EntriesInDictionaryStep(dictionary, windowStart, bitIndices[..i], bitIndex);
        AuthPathsValidStep(hasher, swbfInactive.Snapshot(), dictionary, windowStart, bitIndices[..i], bitIndex);
        NoFutureBitsStep(windowStart, bitIndices[..i], bitIndex);
        HasUnsetBitsStep(dictionary, swbfActive[..], windowStart, bitIndices[..i], bitIndex);
        if bitIndex < windowStart {
          var entry := Lookup(dictionary, bitIndex / CHUNK_SIZE);
          if entry.None? {
            entriesInDictionary := false;
          } else {
            var preimage := HashPreimage(entry.value.chunk);
            var validAuthPath := hasher.verifyMmrProof(entry.value.proof, swbfInactive.peaks,
                                                       hasher.hashElements(preimage), swbfInactive.leafCount);
            allAuthPathsAreValid := allAuthPathsAreValid && validAuthPath;
            var indexWithinChunk := bitIndex % CHUNK_SIZE;
            if !entry.value.chunk.bits[indexWithinChunk] {
              hasUnsetBits := true;
            }
          }
        } else if bitIndex >= windowStop {
          noFutureBits := false;
        } else {
          var relativeIndex := bitIndex - windowStart;
          if !swbfActive[relativeIndex] {
            hasUnsetBits := true;
          }
        }
      }
      assert bitIndices[..|bitIndices|] == bitIndices;
    }

    /**
     * `remove`: set the removal record's bits, those in the active window in
     * place and those left of it in (a copy of) the record's chunks, then
     * write the changed chunks into the inactive MMR, last entry first.
     * The window start is the one `verify` and `add` imply (see
     * `WindowStartAsWritten` for the source's formula). A bit beyond the
     * window or a chunk missing from the dictionary is a panic in the source.
     */
    method Remove(record: RemovalRecord)
      requires Valid()
      requires forall k :: 0 <= k < |record.bitIndices| ==>
                 RemovableBit(record.targetChunks, WindowStart(aocl.leafCount), record.bitIndices[k])
      modifies swbfInactive, swbfActive
      ensures Valid()
      ensures swbfActive[..] == SetActiveBits(old(swbfActive[..]), WindowStart(aocl.leafCount), record.bitIndices)
      ensures swbfInactive.leafCount == old(swbfInactive.leafCount)
      ensures var chunks := SetDictionaryBits(record.targetChunks, WindowStart(aocl.leafCount), record.bitIndices);
              swbfInactive.peaks == MutateAll(swbfInactive.ops, old(swbfInactive.peaks), swbfInactive.leafCount,
                                              Reverse(EntryHashes(hasher, chunks)), Reverse(EntryProofs(chunks)))
    {
      var windowStart := WindowStart(aocl.leafCount);
      var newTargetChunks := SetActiveAndChunkBits(record, windowStart);
      var allMembershipProofs := EntryProofs(newTargetChunks);
      var allLeafs := EntryHashes(hasher, newTargetChunks);
      ghost var proofs0, leafs0 := allMembershipProofs, allLeafs;
      var n := |allMembershipProofs|;
      for i := 0 to n
        modifies swbfInactive
        invariant |allMembershipProofs| == |allLeafs| == n - i
        invariant swbfInactive.leafCount == old(swbfInactive.leafCount)
        invariant MutateAll(swbfInactive.ops, swbfInactive.peaks, swbfInactive.leafCount, Reverse(allLeafs), Reverse(allMembershipProofs))
               == MutateAll(swbfInactive.ops, old(swbfInactive.peaks), swbfInactive.leafCount, Reverse(leafs0), Reverse(proofs0))
      {
        var localMembershipProof := allMembershipProofs[|allMembershipProofs| - 1];
        var localLeaf := allLeafs[|allLeafs| - 1];
        ReverseLast(allMembershipProofs);
        ReverseLast(allLeafs);
        allMembershipProofs := allMembershipProofs[..|allMembershipProofs| - 1];
        allLeafs := allLeafs[..|allLeafs| - 1];
        swbfInactive.MutateLeaf(localMembershipProof, localLeaf);
        ReverseUpdateRemaining(swbfInactive.ops, allMembershipProofs, localMembershipProof, localLeaf);
        allMembershipProofs := UpdateRemaining(swbfInactive.ops, allMembershipProofs, localMembershipProof, localLeaf);
      }
    }

    /** The first loop of `remove`: returns the record's chunks with their bits set. */
    method SetActiveAndChunkBits(record: RemovalRecord, windowStart: nat) returns (newTargetChunks: ChunkDictionary)
      requires swbfActive.Length == WINDOW_SIZE
      requires forall k :: 0 <= k < |record.bitIndices| ==> RemovableBit(record.targetChunks, windowStart, record.bitIndices[k])
      modifies swbfActive
      ensures swbfActive[..] == SetActiveBits(old(swbfActive[..]), windowStart, record.bitIndices)
      ensures newTargetChunks == SetDictionaryBits(record.targetChunks, windowStart, record.bitIndices)
    {
      newTargetChunks := record.targetChunks;
      var bits := record.bitIndices;
      SetDictionaryBitsNone(record.targetChunks, windowStart);
      for i := 0 to |bits|
        invariant swbfActive[..] == SetActiveBits(old(swbfActive[..]), windowStart, bits[..i])
        invariant newTargetChunks == SetDictionaryBits(record.targetChunks, windowStart, bits[..i])
      {
        var bitIndex := bits[i];
        assert bits[..i + 1] == bits[..i] + [bitIndex];
        if bitIndex >= windowStart {
          var relativeIndex := bitIndex - windowStart;
          swbfActive[relativeIndex] := true;
          assert swbfActive[..] == SetActiveBits(old(swbfActive[..]), windowStart, bits[..i + 1]);
          NoChunkBitsAtOrRightOfStart(record.targetChunks, windowStart, bits[..i], bitIndex);
        } else {
          assert InDictionary(record.targetChunks, bitIndex) by {
            assert RemovableBit(record.targetChunks, windowStart, bits[i]);
          }
          ChunkBitsStep(record.targetChunks, windowStart, bits[..i], bitIndex);
          newTargetChunks := SetBitInDictionary(newTargetChunks, bitIndex);
          assert (windowStart + (bitIndex - windowStart)) == bitIndex;
          ActiveBitsUnchangedLeftOfStart(old(swbfActive[..]), windowStart, bits[..i], bitIndex);
        }
      }
      assert bits[..|bits|] == bits;
    }
  }

  lemma SetDictionaryBitsNone(d: ChunkDictionary, start: nat)
    ensures SetDictionaryBits(d, start, []) == d
  {
    forall k | 0 <= k < |d|
      ensures SetDictionaryBits(d, start, [])[k] == d[k]
    {
      assert SetChunkBits(d[k], start, []).bits == d[k].chunk.bits;
    }
  }

  /** A bit at or right of the window start leaves the chunks alone. */
  lemma NoChunkBitsAtOrRightOfStart(d: ChunkDictionary, start: nat, bits: seq<nat>, b: nat)
    requires b >= start
    ensures SetDictionaryBits(d, start, bits + [b]) == SetDictionaryBits(d, start, bits)
  {
    forall k, j | 0 <= k < |d| && 0 <= j < CHUNK_SIZE
      ensures SetChunkBits(d[k], start, bits + [b]).bits[j] == SetChunkBits(d[k], start, bits).bits[j]
    {
      var x := d[k].chunkIndex * CHUNK_SIZE + j;
      assert x in bits + [b] <==> x in bits || x == b;
    }
    forall k | 0 <= k < |d|
      ensures SetChunkBits(d[k], start, bits + [b]) == SetChunkBits(d[k], start, bits)
    {
      assert SetChunkBits(d[k], start, bits + [b]).bits == SetChunkBits(d[k], start, bits).bits;
    }
  }

  /** A bit left of the window start leaves the active window alone. */
  lemma ActiveBitsUnchangedLeftOfStart(active: seq<bool>, start: nat, bits: seq<nat>, b: nat)
    requires b < start
    ensures SetActiveBits(active, start, bits + [b]) == SetActiveBits(active, start, bits)
  {
    forall k | 0 <= k < |active|
      ensures SetActiveBits(active, start, bits + [b])[k] == SetActiveBits(active, start, bits)[k]
    {
      assert start + k in bits + [b] <==> start + k in bits || start + k == b;
    }
  }

  /** A bit left of the window start is set in the entry of its chunk, and nowhere else. */
  lemma ChunkBitsStep(d: ChunkDictionary, start: nat, bits: seq<nat>, b: nat)
    requires b < start
    ensures SetDictionaryBits(d, start, bits + [b]) == SetBitInDictionary(SetDictionaryBits(d, start, bits), b)
  {
    var lhs := SetDictionaryBits(d, start, bits + [b]);
    var rhs := SetBitInDictionary(SetDictionaryBits(d, start, bits), b);
    forall k | 0 <= k < |d|
      ensures lhs[k] == rhs[k]
    {
      forall j | 0 <= j < CHUNK_SIZE
        ensures lhs[k].chunk.bits[j] == rhs[k].chunk.bits[j]
      {
        var x := d[k].chunkIndex * CHUNK_SIZE + j;
        assert x in bits + [b] <==> x in bits || x == b;
        ChunkPosition(d[k].chunkIndex, j, b);
      }
      assert lhs[k].chunk.bits == rhs[k].chunk.bits;
    }
  }

  /** Taking the last element off a sequence takes the first off its reverse. */
  lemma ReverseLast<T>(s: seq<T>)
    requires |s| > 0
    ensures Reverse(s)[0] == s[|s| - 1]
    ensures Reverse(s)[1..] == Reverse(s[..|s| - 1])
  {
  }

  /** Updating the remaining proofs commutes with reversing them. */
  lemma ReverseUpdateRemaining(ops: MmrOps, ps: seq<Mmr.MembershipProof>, applied: Mmr.MembershipProof, leaf: Digest)
    ensures UpdateRemaining(ops, Reverse(ps), applied, leaf) == Reverse(UpdateRemaining(ops, ps, applied, leaf))
  {
  }
}
