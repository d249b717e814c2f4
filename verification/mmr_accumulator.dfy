// The Merkle-mountain-range accumulator: the peaks and the leaf count of an
// MMR, without the leaves themselves.
//
// The MMR library arithmetic (new peaks after an append or a leaf mutation,
// updating a membership proof after another leaf changed, node-index
// arithmetic, the hash of two digests) is passed in as an `MmrOps` value:
// the model states what this file does with those results, not what they are.
module Mmr {
  import opened Primitives
  import opened Wrappers

  /** `MmrMembershipProof`: the leaf's index and its authentication path. */
  datatype MembershipProof = MembershipProof(leafIndex: nat, authenticationPath: seq<Digest>)

  /** The library functions the accumulator calls, as uninterpreted functions. */
  datatype MmrOps = MmrOps(
    // shared_basic::calculate_new_peaks_from_append(leaf_count, peaks, new_leaf)
    newPeaksFromAppend: (nat, seq<Digest>, Digest) -> (seq<Digest>, MembershipProof),
    // shared_basic::calculate_new_peaks_from_leaf_mutation(peaks, new_leaf, leaf_count, proof)
    newPeaksFromLeafMutation: (seq<Digest>, Digest, nat, MembershipProof) -> seq<Digest>,
    // the effect of batch_update_from_leaf_mutation on one proof:
    // (proof to update, proof of the mutated leaf, new leaf)
    updateFromLeafMutation: (MembershipProof, MembershipProof, Digest) -> MembershipProof,
    leafIndexToNodeIndex: nat -> nat,
    // (right ancestor count, height) of a node index
    rightLineageLengthAndOwnHeight: nat -> (nat, nat),
    leftSibling: (nat, nat) -> nat,
    rightSibling: (nat, nat) -> nat,
    hashPair: (Digest, Digest) -> Digest,
    // the peak index of leaf_index_to_mt_index_and_peak_index(leaf_index, leaf_count)
    leafIndexToPeakIndex: (nat, nat) -> nat,
    // MmrMembershipProof::get_node_indices
    nodeIndices: MembershipProof -> seq<nat>)

  /** The value of an accumulator: what a clone of it holds. */
  datatype MmrState = MmrState(leafCount: nat, peaks: seq<Digest>)

  function AppendLeaf(ops: MmrOps, s: MmrState, leaf: Digest): MmrState {
    MmrState(s.leafCount + 1, ops.newPeaksFromAppend(s.leafCount, s.peaks, leaf).0)
  }

  /** The state after appending `leaves` one by one, in order. */
  function AppendAll(ops: MmrOps, s: MmrState, leaves: seq<Digest>): (r: MmrState)
    ensures r.leafCount == s.leafCount + |leaves|
    decreases |leaves|
  {
    if |leaves| == 0 then s else AppendAll(ops, AppendLeaf(ops, s, leaves[0]), leaves[1..])
  }

  /** Appending two batches is appending their concatenation. */
  lemma {:induction false} AppendAllConcat(ops: MmrOps, s: MmrState, a: seq<Digest>, b: seq<Digest>)
    ensures AppendAll(ops, AppendAll(ops, s, a), b) == AppendAll(ops, s, a + b)
    decreases |a|
  {
    if |a| == 0 {
      assert a + b == b;
    } else {
      AppendAllConcat(ops, AppendLeaf(ops, s, a[0]), a[1..], b);
      assert (a + b)[0] == a[0];
      assert (a + b)[1..] == a[1..] + b;
    }
  }

  /** The remaining proofs after one leaf mutation was applied. */
  function UpdateRemaining(ops: MmrOps, proofs: seq<MembershipProof>, applied: MembershipProof, leaf: Digest): seq<MembershipProof> {
    seq(|proofs|, k requires 0 <= k < |proofs| => ops.updateFromLeafMutation(proofs[k], applied, leaf))
  }

  /**
   * The peaks after applying the mutations in order, each with its proof
   * updated by every mutation applied before it.
   */
  function MutateAll(ops: MmrOps, peaks: seq<Digest>, leafCount: nat, values: seq<Digest>, proofs: seq<MembershipProof>): seq<Digest>
    requires |values| == |proofs|
    decreases |proofs|
  {
    if |proofs| == 0 then peaks
    else
      MutateAll(ops, ops.newPeaksFromLeafMutation(peaks, values[0], leafCount, proofs[0]), leafCount,
                values[1..], UpdateRemaining(ops, proofs[1..], proofs[0], values[0]))
  }

  function LeafIndices(mutations: seq<(Digest, MembershipProof)>): seq<nat> {
    seq(|mutations|, k requires 0 <= k < |mutations| => mutations[k].1.leafIndex)
  }

  function MutationValues(mutations: seq<(Digest, MembershipProof)>): seq<Digest> {
    seq(|mutations|, k requires 0 <= k < |mutations| => mutations[k].0)
  }

  function MutationProofs(mutations: seq<(Digest, MembershipProof)>): seq<MembershipProof> {
    seq(|mutations|, k requires 0 <= k < |mutations| => mutations[k].1)
  }

  /** The peaks a batch update leads to: first all mutations, then all appends. */
  function BatchUpdatePeaks(ops: MmrOps, s: MmrState, appended: seq<Digest>, mutations: seq<(Digest, MembershipProof)>): seq<Digest> {
    var mutated := MutateAll(ops, s.peaks, s.leafCount, MutationValues(mutations), MutationProofs(mutations));
    AppendAll(ops, MmrState(s.leafCount, mutated), appended).peaks
  }

  /** `Iterator::max` on a non-empty sequence. */
  function MaxOf(s: seq<nat>): (m: nat)
    requires |s| > 0
    ensures m in s
    ensures forall x :: x in s ==> x <= m
    decreases |s|
  {
    if |s| == 1 then s[0]
    else
      var rest := MaxOf(s[1..]);
      assert forall x :: x in s ==> x == s[0] || x in s[1..];
      if s[0] < rest then rest else s[0]
  }

  // ---- batch_mutate_leaf_and_update_mps ----

  /** The panics of batch_mutate_leaf_and_update_mps, as error values. */
  datatype BatchMutateError =
    | DuplicateLeafIndex   // the assert on the former value in the digest map
    | PeakIndexOutOfRange  // indexing `peaks` with a peak index beyond its length

  /** A sibling's digest: the newly derived one when known, else the one on the path. */
  function SiblingDigest(digests: map<nat, Digest>, index: nat, onPath: Digest): Digest {
    if index in digests then digests[index] else onPath
  }

  /** One step towards the peak from `nodeIndex`: the parent's digest and index. */
  function ClimbStep(ops: MmrOps, digests: map<nat, Digest>, nodeIndex: nat, acc: Digest, onPath: Digest): (Digest, nat) {
    var (rightAncestors, height) := ops.rightLineageLengthAndOwnHeight(nodeIndex);
    if rightAncestors != 0 then
      (ops.hashPair(SiblingDigest(digests, ops.leftSibling(nodeIndex, height), onPath), acc), nodeIndex + 1)
    else
      (ops.hashPair(acc, SiblingDigest(digests, ops.rightSibling(nodeIndex, height), onPath)), nodeIndex + Pow2(height + 1))
  }

  /**
   * Walk the authentication path from position `count` on, recording every
   * derived ancestor digest except the peak. Returns the digests and the peak.
   */
  function Climb(ops: MmrOps, digests: map<nat, Digest>, nodeIndex: nat, acc: Digest, path: seq<Digest>, count: nat): (r: (map<nat, Digest>, Digest))
    requires count <= |path|
    ensures digests.Keys <= r.0.Keys
    decreases |path| - count
  {
    if count == |path| then (digests, acc)
    else
      var (parentDigest, parent) := ClimbStep(ops, digests, nodeIndex, acc, path[count]);
      var next := if count < |path| - 1 then digests[parent := parentDigest] else digests;
      Climb(ops, next, parent, parentDigest, path, count + 1)
  }

  /**
   * The first phase: mutations are taken from the END of `data`; each
   * records its leaf and derived ancestors and replaces its peak.
   */
  function Phase1(ops: MmrOps, leafCount: nat, peaks: seq<Digest>, digests: map<nat, Digest>, data: seq<(MembershipProof, Digest)>)
    : (r: Result<(map<nat, Digest>, seq<Digest>), BatchMutateError>)
    ensures r.Ok? ==> digests.Keys <= r.value.0.Keys && |r.value.1| == |peaks|
    ensures r.Ok? ==> forall k :: 0 <= k < |data| ==> ops.leafIndexToNodeIndex(data[k].0.leafIndex) in r.value.0
    decreases |data|
  {
    if |data| == 0 then Ok((digests, peaks))
    else
      var (ap, newLeaf) := data[|data| - 1];
      var nodeIndex := ops.leafIndexToNodeIndex(ap.leafIndex);
      if nodeIndex in digests then Err(DuplicateLeafIndex)
      else
        var (derived, peak) := Climb(ops, digests[nodeIndex := newLeaf], nodeIndex, newLeaf, ap.authenticationPath, 0);
        var peakIndex := ops.leafIndexToPeakIndex(ap.leafIndex, leafCount);
        if peakIndex < |peaks| then
          var r := Phase1(ops, leafCount, peaks[peakIndex := peak], derived, data[..|data| - 1]);
          assert r.Ok? ==> forall k :: 0 <= k < |data| - 1 ==> data[..|data| - 1][k] == data[k];
          r
        else Err(PeakIndexOutOfRange)
  }

  /** A mutation whose leaf node is already recorded makes the batch fail. */
  lemma {:induction false} RecordedNodeRejected(ops: MmrOps, leafCount: nat, peaks: seq<Digest>, digests: map<nat, Digest>,
                                                data: seq<(MembershipProof, Digest)>, k: nat)
    requires k < |data| && ops.leafIndexToNodeIndex(data[k].0.leafIndex) in digests
    ensures Phase1(ops, leafCount, peaks, digests, data).Err?
    decreases |data|
  {
    var (ap, newLeaf) := data[|data| - 1];
    var nodeIndex := ops.leafIndexToNodeIndex(ap.leafIndex);
    if nodeIndex !in digests {
      var (derived, peak) := Climb(ops, digests[nodeIndex := newLeaf], nodeIndex, newLeaf, ap.authenticationPath, 0);
      var peakIndex := ops.leafIndexToPeakIndex(ap.leafIndex, leafCount);
      if peakIndex < |peaks| {
        assert k < |data| - 1;
        assert data[..|data| - 1][k] == data[k];
        RecordedNodeRejected(ops, leafCount, peaks[peakIndex := peak], derived, data[..|data| - 1], k);
      }
    }
  }

  /** Two mutations of the same leaf make the batch fail (the source's assert). */
  lemma {:induction false} DuplicateLeafRejected(ops: MmrOps, leafCount: nat, peaks: seq<Digest>, digests: map<nat, Digest>,
                                                 data: seq<(MembershipProof, Digest)>, i: nat, j: nat)
    requires i < j < |data| && data[i].0.leafIndex == data[j].0.leafIndex
    ensures Phase1(ops, leafCount, peaks, digests, data).Err?
    decreases |data|
  {
    var (ap, newLeaf) := data[|data| - 1];
    var nodeIndex := ops.leafIndexToNodeIndex(ap.leafIndex);
    if nodeIndex !in digests {
      var (derived, peak) := Climb(ops, digests[nodeIndex := newLeaf], nodeIndex, newLeaf, ap.authenticationPath, 0);
      var peakIndex := ops.leafIndexToPeakIndex(ap.leafIndex, leafCount);
      if peakIndex < |peaks| {
        var init := data[..|data| - 1];
        assert init[i] == data[i];
        if j == |data| - 1 {
          assert nodeIndex in derived;
          RecordedNodeRejected(ops, leafCount, peaks[peakIndex := peak], derived, init, i);
        } else {
          assert init[j] == data[j];
          DuplicateLeafRejected(ops, leafCount, peaks[peakIndex := peak], derived, init, i, j);
        }
      }
    }
  }

  /** An authentication path with every position whose node was re-derived replaced. */
  function UpdatePath(path: seq<Digest>, indices: seq<nat>, digests: map<nat, Digest>): seq<Digest> {
    seq(|path|, k requires 0 <= k < |path| =>
      if k < |indices| && indices[k] in digests then digests[indices[k]] else path[k])
  }

  function UpdateProof(ops: MmrOps, mp: MembershipProof, digests: map<nat, Digest>): MembershipProof {
    mp.(authenticationPath := UpdatePath(mp.authenticationPath, ops.nodeIndices(mp), digests))
  }

  /** Some position of the path is re-derived with a different digest. */
  predicate PathChanges(path: seq<Digest>, indices: seq<nat>, digests: map<nat, Digest>) {
    exists k :: 0 <= k < |path| && k < |indices| && indices[k] in digests && digests[indices[k]] != path[k]
  }

  /** A proof is reported as modified exactly when its path really changes. */
  lemma UpdateProofChanges(ops: MmrOps, mp: MembershipProof, digests: map<nat, Digest>)
    ensures UpdateProof(ops, mp, digests) != mp <==> PathChanges(mp.authenticationPath, ops.nodeIndices(mp), digests)
  {
    var path := mp.authenticationPath;
    var indices := ops.nodeIndices(mp);
    var updated := UpdatePath(path, indices, digests);
    if PathChanges(path, indices, digests) {
      var k :| 0 <= k < |path| && k < |indices| && indices[k] in digests && digests[indices[k]] != path[k];
      assert updated[k] != path[k];
    } else {
      assert forall k :: 0 <= k < |path| ==> updated[k] == path[k];
      assert updated == path;
    }
  }

  predicate NonDecreasing(s: seq<nat>) {
    forall i, j :: 0 <= i < j < |s| ==> s[i] <= s[j]
  }

  /** Appending copies of `i` to a non-decreasing sequence of values below `i` keeps it non-decreasing. */
  lemma AppendIndexKeepsNonDecreasing(modified: seq<nat>, pushed: seq<nat>, i: nat)
    requires NonDecreasing(modified) && forall x :: x in modified ==> x < i
    requires forall x :: x in pushed ==> x == i
    ensures NonDecreasing(modified + pushed)
    ensures forall x :: x in modified + pushed ==> x <= i
  {
    assert forall m :: 0 <= m < |modified| ==> modified[m] in modified;
    assert forall m :: 0 <= m < |pushed| ==> pushed[m] in pushed;
  }

  /** `Vec::dedup`: drop every element equal to its predecessor. */
  function Dedup(s: seq<nat>): seq<nat>
    decreases |s|
  {
    if |s| <= 1 then s
    else if s[0] == s[1] then Dedup(s[1..])
    else [s[0]] + Dedup(s[1..])
  }

  /** Deduplicating keeps every element and the first one. */
  lemma {:induction false} DedupKeepsElements(s: seq<nat>)
    ensures forall x :: x in Dedup(s) <==> x in s
    ensures |s| > 0 ==> |Dedup(s)| > 0 && Dedup(s)[0] == s[0]
    decreases |s|
  {
    if |s| > 1 {
      var rest := s[1..];
      DedupKeepsElements(rest);
      assert forall x :: x in s <==> x == s[0] || x in rest;
      if s[0] != s[1] {
        assert Dedup(s) == [s[0]] + Dedup(rest);
      }
    }
  }

  /** Deduplicating a non-decreasing sequence leaves it strictly increasing with the same elements. */
  lemma {:induction false} DedupOfNonDecreasing(s: seq<nat>)
    requires NonDecreasing(s)
    ensures StrictlyIncreasing(Dedup(s))
    ensures forall x :: x in Dedup(s) <==> x in s
    ensures |s| > 0 ==> |Dedup(s)| > 0 && Dedup(s)[0] == s[0]
    decreases |s|
  {
    DedupKeepsElements(s);
    if |s| > 1 {
      var rest := s[1..];
      assert NonDecreasing(rest);
      DedupOfNonDecreasing(rest);
      if s[0] != s[1] {
        var d := Dedup(rest);
        NonDecreasingFirstIsLeast(rest);
        assert Dedup(s) == [s[0]] + d;
        PrependLeastKeepsStrictlyIncreasing(s[0], d);
      }
    }
  }

  lemma NonDecreasingFirstIsLeast(s: seq<nat>)
    requires NonDecreasing(s) && |s| > 0
    ensures forall x :: x in s ==> s[0] <= x
  {
    forall x | x in s ensures s[0] <= x {
      var m :| 0 <= m < |s| && s[m] == x;
      if m > 0 {
        assert s[0] <= s[m];
      }
    }
  }

  lemma PrependLeastKeepsStrictlyIncreasing(x: nat, d: seq<nat>)
    requires StrictlyIncreasing(d) && forall y :: y in d ==> x < y
    ensures StrictlyIncreasing([x] + d)
  {
    assert forall m :: 0 <= m < |d| ==> d[m] in d;
  }

  /** The climb from one mutated leaf to its peak, along its authentication path. */
  method ClimbPath(ops: MmrOps, digests: map<nat, Digest>, leafNode: nat, newLeaf: Digest, path: seq<Digest>)
    returns (derived: map<nat, Digest>, peak: Digest)
    ensures (derived, peak) == Climb(ops, digests, leafNode, newLeaf, path, 0)
    ensures digests.Keys <= derived.Keys
  {
    derived := digests;
    var nodeIndex: nat := leafNode;
    var accHash := newLeaf;
    for count := 0 to |path|
      invariant Climb(ops, derived, nodeIndex, accHash, path, count) == Climb(ops, digests, leafNode, newLeaf, path, 0)
    {
      var (rightAncestors, height) := ops.rightLineageLengthAndOwnHeight(nodeIndex);
      if rightAncestors != 0 {
        var siblingHash := SiblingDigest(derived, ops.leftSibling(nodeIndex, height), path[count]);
        accHash := ops.hashPair(siblingHash, accHash);
        nodeIndex := nodeIndex + 1;
      } else {
        var siblingHash := SiblingDigest(derived, ops.rightSibling(nodeIndex, height), path[count]);
        accHash := ops.hashPair(accHash, siblingHash);
        nodeIndex := nodeIndex + Pow2(height + 1);
      }
      // the peak itself is never on an authentication path
      if count < |path| - 1 {
        derived := derived[nodeIndex := accHash];
      }
    }
    peak := accHash;
  }

  /**
   * The second phase for one proof: replace every path digest whose node was
   * re-derived with a different value, pushing `index` once per replacement.
   */
  method UpdateMembershipProof(ops: MmrOps, mp: MembershipProof, digests: map<nat, Digest>, index: nat)
    returns (updated: MembershipProof, pushed: seq<nat>)
    ensures updated == UpdateProof(ops, mp, digests)
    ensures forall x :: x in pushed ==> x == index
    ensures |pushed| > 0 <==> updated != mp
  {
    var apIndices := ops.nodeIndices(mp);
    var path := mp.authenticationPath;
    ghost var target := UpdatePath(mp.authenticationPath, apIndices, digests);
    pushed := [];
    var k := 0;
    while k < |path| && k < |apIndices|
      invariant 0 <= k <= |path| == |mp.authenticationPath|
      invariant forall m :: 0 <= m < k ==> path[m] == target[m]
      invariant forall m :: k <= m < |path| ==> path[m] == mp.authenticationPath[m]
      invariant forall x :: x in pushed ==> x == index
      invariant |pushed| > 0 <==> exists m :: 0 <= m < k && m < |apIndices| && apIndices[m] in digests
                                              && digests[apIndices[m]] != mp.authenticationPath[m]
      decreases |path| - k
    {
      if apIndices[k] in digests && path[k] != digests[apIndices[k]] {
        path := path[k := digests[apIndices[k]]];
        pushed := pushed + [index];
      }
      k := k + 1;
    }
    assert path == target;
    UpdateProofChanges(ops, mp, digests);
    updated := mp.(authenticationPath := path);
  }

  /**
   * The proof-update loop of `batch_mutate_leaf_and_update_mps`: every proof
   * brought up to date in place, and the indices of those that changed
   * collected in order (with repeats, before `dedup`).
   */
  method UpdateMembershipProofs(ops: MmrOps, membershipProofs: array<MembershipProof>, digests: map<nat, Digest>)
    returns (modified: seq<nat>)
    modifies membershipProofs
    ensures forall j :: 0 <= j < membershipProofs.Length ==>
              membershipProofs[j] == UpdateProof(ops, old(membershipProofs[j]), digests)
    ensures NonDecreasing(modified)
    ensures forall j :: j in modified <==> 0 <= j < membershipProofs.Length && membershipProofs[j] != old(membershipProofs[j])
  {
    modified := [];
    for i := 0 to membershipProofs.Length
      invariant forall j :: 0 <= j < i ==> membershipProofs[j] == UpdateProof(ops, old(membershipProofs[j]), digests)
      invariant forall j :: i <= j < membershipProofs.Length ==> membershipProofs[j] == old(membershipProofs[j])
      invariant NonDecreasing(modified)
      invariant forall x :: x in modified ==> x < i
      invariant forall j :: j in modified <==> 0 <= j < i && membershipProofs[j] != old(membershipProofs[j])
    {
      var updated, pushed := UpdateMembershipProof(ops, membershipProofs[i], digests, i);
      AppendIndexKeepsNonDecreasing(modified, pushed, i);
      assert |pushed| > 0 ==> pushed[0] in pushed;
      modified := modified + pushed;
      membershipProofs[i] := updated;
    }
  }

  class MmrAccumulator {
    var leafCount: nat
    var peaks: seq<Digest>
    const ops: MmrOps

    function Snapshot(): MmrState
      reads this
    {
      MmrState(leafCount, peaks)
    }

    function IsEmpty(): (r: bool)
      reads this
      ensures r <==> CountLeaves() == 0
    {
      leafCount == 0
    }

    function CountLeaves(): nat
      reads this
    {
      leafCount
    }

    /** `init(peaks, leaf_count)`: an accumulator holding exactly the given values. */
    constructor Init(ops: MmrOps, peaks: seq<Digest>, leafCount: nat)
      ensures this.ops == ops
      ensures Snapshot() == MmrState(leafCount, peaks)
    {
      this.ops := ops;
      this.peaks := peaks;
      this.leafCount := leafCount;
    }

    /** `default()`: no leaves and no peaks. */
    constructor Default(ops: MmrOps)
      ensures this.ops == ops
      ensures Snapshot() == MmrState(0, [])
      ensures IsEmpty() && CountLeaves() == 0
    {
      this.ops := ops;
      this.peaks := [];
      this.leafCount := 0;
    }

    /** `new(digests)`: the empty accumulator with every digest appended in order. */
    constructor New(ops: MmrOps, digests: seq<Digest>)
      ensures this.ops == ops
      ensures Snapshot() == AppendAll(ops, MmrState(0, []), digests)
      ensures CountLeaves() == |digests|
    {
      this.ops := ops;
      this.peaks := [];
      this.leafCount := 0;
      new;
      for i := 0 to |digests|
        invariant this.ops == ops
        invariant AppendAll(ops, Snapshot(), digests[i..]) == AppendAll(ops, MmrState(0, []), digests)
      {
        assert digests[i..][1..] == digests[i + 1..];
        var _ := Append(digests[i]);
      }
    }

    /** `append`: one more leaf; returns the new leaf's membership proof. */
    method Append(newLeaf: Digest) returns (proof: MembershipProof)
      modifies this
      ensures leafCount == old(leafCount) + 1
      ensures Snapshot() == AppendLeaf(ops, old(Snapshot()), newLeaf)
      ensures proof == ops.newPeaksFromAppend(old(leafCount), old(peaks), newLeaf).1
    {
      var (newPeaks, membershipProof) := ops.newPeaksFromAppend(leafCount, peaks, newLeaf);
      peaks := newPeaks;
      leafCount := leafCount + 1;
      proof := membershipProof;
    }

    /** `mutate_leaf`: new peaks from the library; the leaf count never changes. */
    method MutateLeaf(oldMembershipProof: MembershipProof, newLeaf: Digest)
      modifies this
      ensures leafCount == old(leafCount)
      ensures peaks == ops.newPeaksFromLeafMutation(old(peaks), newLeaf, leafCount, oldMembershipProof)
    {
      peaks := ops.newPeaksFromLeafMutation(peaks, newLeaf, leafCount, oldMembershipProof);
    }

    /**
     * `verify_batch_update`: false on repeated or out-of-range mutated leaf
     * indices, otherwise whether `newPeaks` are the peaks after the mutations
     * (in input order) followed by the appends (in input order).
     */
    method VerifyBatchUpdate(newPeaks: seq<Digest>, appendedLeafs: seq<Digest>, leafMutations: seq<(Digest, MembershipProof)>)
      returns (b: bool)
      ensures !NoDuplicates(LeafIndices(leafMutations)) ==> !b
      ensures (exists k :: 0 <= k < |leafMutations| && leafMutations[k].1.leafIndex >= leafCount) ==> !b
      ensures NoDuplicates(LeafIndices(leafMutations))
              && (forall k :: 0 <= k < |leafMutations| ==> leafMutations[k].1.leafIndex < leafCount)
              ==> (b <==> BatchUpdatePeaks(ops, Snapshot(), appendedLeafs, leafMutations) == newPeaks)
    {
      var indices := LeafIndices(leafMutations);
      if !NoDuplicates(indices) {
        return false;
      }
      if (IsEmpty() && |indices| > 0) || (|indices| > 0 && MaxOf(indices) >= leafCount) {
        return false;
      }
      assert forall k :: 0 <= k < |leafMutations| ==> leafMutations[k].1.leafIndex < leafCount by {
        forall k | 0 <= k < |leafMutations| ensures leafMutations[k].1.leafIndex < leafCount {
          assert indices[k] in indices;
        }
      }

      // mutations, in input order
      var values := MutationValues(leafMutations);
      var proofs := MutationProofs(leafMutations);
      var runningPeaks := peaks;
      while |proofs| > 0
        invariant |values| == |proofs|
        invariant MutateAll(ops, runningPeaks, leafCount, values, proofs)
               == MutateAll(ops, peaks, leafCount, MutationValues(leafMutations), MutationProofs(leafMutations))
        decreases |proofs|
      {
        var membershipProof := proofs[0];
        var newLeafValue := values[0];
        runningPeaks := ops.newPeaksFromLeafMutation(runningPeaks, newLeafValue, leafCount, membershipProof);
        proofs := UpdateRemaining(ops, proofs[1..], membershipProof, newLeafValue);
        values := values[1..];
      }

      // appends, in input order
      var mutated := runningPeaks;
      var newLeafs := appendedLeafs;
      var runningLeafCount := leafCount;
      while |newLeafs| > 0
        invariant AppendAll(ops, MmrState(runningLeafCount, runningPeaks), newLeafs)
               == AppendAll(ops, MmrState(leafCount, mutated), appendedLeafs)
        decreases |newLeafs|
      {
        runningPeaks := ops.newPeaksFromAppend(runningLeafCount, runningPeaks, newLeafs[0]).0;
        runningLeafCount := runningLeafCount + 1;
        newLeafs := newLeafs[1..];
      }
      b := runningPeaks == newPeaks;
    }

    /**
     * `batch_mutate_leaf_and_update_mps`: applies the mutations to the peaks,
     * brings every given membership proof up to date, and returns the indices
     * of the proofs that changed, strictly increasing. An `Err` stands for the
     * source's panic; the proofs are then untouched.
     */
    method BatchMutateLeafAndUpdateMps(membershipProofs: array<MembershipProof>, mutationData: seq<(MembershipProof, Digest)>)
      returns (r: Result<seq<nat>, BatchMutateError>)
      modifies this, membershipProofs
      ensures leafCount == old(leafCount)
      ensures r.Ok? <==> Phase1(ops, leafCount, old(peaks), map[], mutationData).Ok?
      ensures r.Err? ==> r.error == Phase1(ops, leafCount, old(peaks), map[], mutationData).error
                         && membershipProofs[..] == old(membershipProofs[..])
      ensures r.Ok? ==>
        var (digests, newPeaks) := Phase1(ops, leafCount, old(peaks), map[], mutationData).value;
        && peaks == newPeaks
        && (forall i :: 0 <= i < membershipProofs.Length ==>
              membershipProofs[i] == UpdateProof(ops, old(membershipProofs[i]), digests))
        && StrictlyIncreasing(r.value)
        && (forall i :: i in r.value <==> 0 <= i < membershipProofs.Length && membershipProofs[i] != old(membershipProofs[i]))
    {
      var derived := DeriveDigests(mutationData);
      if derived.Err? {
        return Err(derived.error);
      }
      var digests := derived.value;

      var modified := UpdateMembershipProofs(ops, membershipProofs, digests);
      DedupOfNonDecreasing(modified);
      r := Ok(Dedup(modified));
    }

    /** The first phase of the batch mutation: new peaks and every derivable digest. */
    method DeriveDigests(mutationData: seq<(MembershipProof, Digest)>) returns (r: Result<map<nat, Digest>, BatchMutateError>)
      modifies this
      ensures leafCount == old(leafCount)
      ensures var spec := Phase1(ops, leafCount, old(peaks), map[], mutationData);
              && (r.Ok? <==> spec.Ok?)
              && (r.Err? ==> r.error == spec.error)
              && (r.Ok? ==> spec.value == (r.value, peaks))
    {
      var digests: map<nat, Digest> := map[];
      var data := mutationData;
      while |data| > 0
        invariant leafCount == old(leafCount)
        invariant Phase1(ops, leafCount, peaks, digests, data) == Phase1(ops, leafCount, old(peaks), map[], mutationData)
        decreases |data|
      {
        var (ap, newLeaf) := data[|data| - 1];
        var nodeIndex := ops.leafIndexToNodeIndex(ap.leafIndex);
        if nodeIndex in digests {
          return Err(DuplicateLeafIndex);
        }
        var accHash;
        digests, accHash := ClimbPath(ops, digests[nodeIndex := newLeaf], nodeIndex, newLeaf, ap.authenticationPath);
        var peakIndex := ops.leafIndexToPeakIndex(ap.leafIndex, leafCount);
        if peakIndex >= |peaks| {
          return Err(PeakIndexOutOfRange);
        }
        peaks := peaks[peakIndex := accHash];
        data := data[..|data| - 1];
      }
      r := Ok(digests);
    }
  }
}
