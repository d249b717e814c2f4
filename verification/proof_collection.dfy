// The proof collection: one STARK proof per consensus program that together
// establish a transaction's validity, the claims those proofs are checked
// against, and the verdicts `verify` and `can_produce`.
module ProofCollection {
  import opened Primitives

  /** A STARK proof; its contents matter only to the verifier. */
  datatype Proof = Proof(encoding: seq<BFieldElement>)

  /** What a proof claims: a program ran on `input` and produced `output`. */
  datatype Claim = Claim(programDigest: Digest, input: seq<BFieldElement>, output: seq<BFieldElement>)

  datatype Collection = Collection(
    removalRecordsIntegrity: Proof,
    collectLockScripts: Proof,
    lockScriptsHalt: seq<Proof>,
    kernelToOutputs: Proof,
    collectTypeScripts: Proof,
    typeScriptsHalt: seq<Proof>,
    lockScriptHashes: seq<Digest>,
    typeScriptHashes: seq<Digest>,
    kernelMastHash: Digest,
    saltedInputsHash: Digest,
    saltedOutputsHash: Digest)

  /**
   * The program digests of the four fixed consensus programs and Triton VM's
   * STARK verifier, all of which live outside this model.
   */
  datatype Programs = Programs(
    removalRecordsIntegrity: Digest,
    kernelToOutputs: Digest,
    collectLockScripts: Digest,
    collectTypeScripts: Digest,
    starkVerify: (Claim, Proof) -> bool)

  // ---------------------------------------------------------------------
  // Flattening digests into claim outputs

  /** The digests' values one after the other (`flat_map(|d| d.values())`). */
  function Flatten(digests: seq<Digest>): (r: seq<BFieldElement>)
    ensures |r| == DIGEST_LEN * |digests|
  {
    if |digests| == 0 then []
    else
      var last: seq<BFieldElement> := digests[|digests| - 1];
      Flatten(digests[..|digests| - 1]) + last
  }

  /** Element `j` of digest `i` sits at position `DIGEST_LEN * i + j` of the flattened sequence. */
  lemma {:induction false} FlattenIndex(digests: seq<Digest>, i: nat, j: nat)
    requires i < |digests| && j < DIGEST_LEN
    ensures Flatten(digests)[DIGEST_LEN * i + j] == digests[i][j]
    decreases |digests|
  {
    var n := |digests| - 1;
    if i < n {
      FlattenIndex(digests[..n], i, j);
      assert Flatten(digests) == Flatten(digests[..n]) + digests[n];
    }
  }

  /** Flattening loses nothing: equally many digests with equal flattenings are equal. */
  lemma FlattenInjective(a: seq<Digest>, b: seq<Digest>)
    requires |a| == |b| && Flatten(a) == Flatten(b)
    ensures a == b
  {
    forall i | 0 <= i < |a|
      ensures a[i] == b[i]
    {
      forall j | 0 <= j < DIGEST_LEN
        ensures a[i][j] == b[i][j]
      {
        FlattenIndex(a, i, j);
        FlattenIndex(b, i, j);
      }
    }
  }

  // ---------------------------------------------------------------------
  // The claims

  function RemovalRecordsIntegrityClaim(programs: Programs, pc: Collection): Claim
  {
    Claim(programs.removalRecordsIntegrity, Reversed(pc.kernelMastHash), pc.saltedInputsHash)
  }

  function KernelToOutputsClaim(programs: Programs, pc: Collection): Claim
  {
    Claim(programs.kernelToOutputs, Reversed(pc.kernelMastHash), pc.saltedOutputsHash)
  }

  function CollectLockScriptsClaimOf(programs: Programs, pc: Collection): Claim
  {
    Claim(programs.collectLockScripts, Reversed(pc.saltedInputsHash), Flatten(pc.lockScriptHashes))
  }

  function CollectTypeScriptsClaimOf(programs: Programs, pc: Collection): Claim
  {
    Claim(programs.collectTypeScripts,
          Reversed(pc.saltedInputsHash) + Reversed(pc.saltedOutputsHash),
          Flatten(pc.typeScriptHashes))
  }

  /** The input every type script reads: the kernel, salted-inputs and salted-outputs hashes, each reversed. */
  function TypeScriptInput(pc: Collection): seq<BFieldElement>
  {
    Reversed(pc.kernelMastHash) + Reversed(pc.saltedInputsHash) + Reversed(pc.saltedOutputsHash)
  }

  function LockScriptClaimsOf(pc: Collection): seq<Claim>
  {
    seq(|pc.lockScriptHashes|, i requires 0 <= i < |pc.lockScriptHashes| =>
      Claim(pc.lockScriptHashes[i], Reversed(pc.kernelMastHash), []))
  }

  function TypeScriptClaimsOf(pc: Collection): seq<Claim>
  {
    seq(|pc.typeScriptHashes|, i requires 0 <= i < |pc.typeScriptHashes| =>
      Claim(pc.typeScriptHashes[i], TypeScriptInput(pc), []))
  }

  /** `collect_lock_scripts_claim`: the lock-script hashes pushed element by element. */
  method CollectLockScriptsClaim(programs: Programs, pc: Collection) returns (claim: Claim)
    ensures claim == CollectLockScriptsClaimOf(programs, pc)
    ensures |claim.output| == DIGEST_LEN * |pc.lockScriptHashes|
  {
    var output := FlattenByPushing(pc.lockScriptHashes);
    claim := Claim(programs.collectLockScripts, Reversed(pc.saltedInputsHash), output);
  }

  /** `collect_type_scripts_claim`: both salted hashes reversed as input, the type-script hashes pushed element by element as output. */
  method CollectTypeScriptsClaim(programs: Programs, pc: Collection) returns (claim: Claim)
    ensures claim == CollectTypeScriptsClaimOf(programs, pc)
    ensures |claim.input| == 2 * DIGEST_LEN && |claim.output| == DIGEST_LEN * |pc.typeScriptHashes|
  {
    var output := FlattenByPushing(pc.typeScriptHashes);
    claim := Claim(programs.collectTypeScripts,
                   Reversed(pc.saltedInputsHash) + Reversed(pc.saltedOutputsHash), output);
  }

  /** The nested while-loops shared by both claim builders. */
  method FlattenByPushing(hashes: seq<Digest>) returns (output: seq<BFieldElement>)
    ensures output == Flatten(hashes)
  {
    output := [];
    var i := 0;
    while i < |hashes|
      invariant 0 <= i <= |hashes|
      invariant output == Flatten(hashes[..i])
    {
      var hash := hashes[i];
      var j := 0;
      while j < DIGEST_LEN
        invariant 0 <= j <= DIGEST_LEN
        invariant output == Flatten(hashes[..i]) + hash[..j]
      {
        output := output + [hash[j]];
        j := j + 1;
      }
      assert hashes[..i + 1][..i] == hashes[..i];
      i := i + 1;
    }
    assert hashes[..i] == hashes;
  }

  /** `lock_script_claims`: one claim per lock-script hash, on the reversed kernel hash, with empty output. */
  method LockScriptClaims(pc: Collection) returns (claims: seq<Claim>)
    ensures |claims| == |pc.lockScriptHashes|
    ensures forall i :: 0 <= i < |claims| ==>
              claims[i].programDigest == pc.lockScriptHashes[i] &&
              claims[i].input == Reversed(pc.kernelMastHash) && claims[i].output == []
    ensures claims == LockScriptClaimsOf(pc)
  {
    claims := [];
    var i := 0;
    while i < |pc.lockScriptHashes|
      invariant 0 <= i <= |pc.lockScriptHashes|
      invariant claims == LockScriptClaimsOf(pc)[..i]
    {
      claims := claims + [Claim(pc.lockScriptHashes[i], Reversed(pc.kernelMastHash), [])];
      i := i + 1;
    }
  }

  /** `type_script_claims`: one claim per type-script hash, all sharing the same input and an empty output. */
  method TypeScriptClaims(pc: Collection) returns (claims: seq<Claim>)
    ensures |claims| == |pc.typeScriptHashes|
    ensures forall i :: 0 <= i < |claims| ==>
              claims[i].programDigest == pc.typeScriptHashes[i] &&
              claims[i].input == TypeScriptInput(pc) && claims[i].output == []
    ensures claims == TypeScriptClaimsOf(pc)
  {
    var typeScriptInput := Reversed(pc.kernelMastHash) + Reversed(pc.saltedInputsHash) + Reversed(pc.saltedOutputsHash);
    assert typeScriptInput == TypeScriptInput(pc);
    claims := [];
    var i := 0;
    while i < |pc.typeScriptHashes|
      invariant 0 <= i <= |pc.typeScriptHashes|
      invariant claims == TypeScriptClaimsOf(pc)[..i]
    {
      claims := claims + [Claim(pc.typeScriptHashes[i], typeScriptInput, [])];
      i := i + 1;
    }
  }

  // ---------------------------------------------------------------------
  // Verification

  /** `zip(..).all(..)`: every claim paired with a proof verifies; unpaired entries on either side are not looked at. */
  predicate AllPairsVerify(starkVerify: (Claim, Proof) -> bool, claims: seq<Claim>, proofs: seq<Proof>)
  {
    forall i :: 0 <= i < |claims| && i < |proofs| ==> starkVerify(claims[i], proofs[i])
  }

  /** Surplus claims or surplus proofs beyond the shorter side change nothing. */
  lemma {:induction false} SurplusIgnored(starkVerify: (Claim, Proof) -> bool, claims: seq<Claim>, proofs: seq<Proof>,
                                           extraClaims: seq<Claim>, extraProofs: seq<Proof>)
    ensures |claims| <= |proofs| ==>
              (AllPairsVerify(starkVerify, claims, proofs + extraProofs) <==> AllPairsVerify(starkVerify, claims, proofs))
    ensures |proofs| <= |claims| ==>
              (AllPairsVerify(starkVerify, claims + extraClaims, proofs) <==> AllPairsVerify(starkVerify, claims, proofs))
  {
    if |claims| <= |proofs| {
      forall i | 0 <= i < |claims| && i < |proofs + extraProofs|
        ensures (proofs + extraProofs)[i] == proofs[i]
      {
      }
    }
    if |proofs| <= |claims| {
      forall i | 0 <= i < |claims + extraClaims| && i < |proofs|
        ensures (claims + extraClaims)[i] == claims[i]
      {
      }
    }
  }

  /** `verify`: the collection speaks of this kernel and all six kinds of proof verify against their claims. */
  function Verify(programs: Programs, pc: Collection, txkMastHash: Digest): (ok: bool)
    ensures pc.kernelMastHash != txkMastHash ==> !ok
    ensures ok ==> programs.starkVerify(RemovalRecordsIntegrityClaim(programs, pc), pc.removalRecordsIntegrity)
    ensures ok ==> programs.starkVerify(KernelToOutputsClaim(programs, pc), pc.kernelToOutputs)
    ensures ok ==> programs.starkVerify(CollectLockScriptsClaimOf(programs, pc), pc.collectLockScripts)
    ensures ok ==> programs.starkVerify(CollectTypeScriptsClaimOf(programs, pc), pc.collectTypeScripts)
    ensures ok ==> forall i :: 0 <= i < |pc.lockScriptHashes| && i < |pc.lockScriptsHalt| ==>
                     programs.starkVerify(Claim(pc.lockScriptHashes[i], Reversed(txkMastHash), []), pc.lockScriptsHalt[i])
    ensures ok ==> forall i :: 0 <= i < |pc.typeScriptHashes| && i < |pc.typeScriptsHalt| ==>
                     programs.starkVerify(Claim(pc.typeScriptHashes[i], TypeScriptInput(pc), []), pc.typeScriptsHalt[i])
    ensures pc.kernelMastHash == txkMastHash
            && programs.starkVerify(RemovalRecordsIntegrityClaim(programs, pc), pc.removalRecordsIntegrity)
            && programs.starkVerify(KernelToOutputsClaim(programs, pc), pc.kernelToOutputs)
            && programs.starkVerify(CollectLockScriptsClaimOf(programs, pc), pc.collectLockScripts)
            && programs.starkVerify(CollectTypeScriptsClaimOf(programs, pc), pc.collectTypeScripts)
            && (forall i :: 0 <= i < |pc.lockScriptHashes| && i < |pc.lockScriptsHalt| ==>
                  programs.starkVerify(Claim(pc.lockScriptHashes[i], Reversed(txkMastHash), []), pc.lockScriptsHalt[i]))
            && (forall i :: 0 <= i < |pc.typeScriptHashes| && i < |pc.typeScriptsHalt| ==>
                  programs.starkVerify(Claim(pc.typeScriptHashes[i], TypeScriptInput(pc), []), pc.typeScriptsHalt[i]))
            ==> ok
  {
    if pc.kernelMastHash != txkMastHash then false
    else
      var rri := programs.starkVerify(RemovalRecordsIntegrityClaim(programs, pc), pc.removalRecordsIntegrity);
      var k2o := programs.starkVerify(KernelToOutputsClaim(programs, pc), pc.kernelToOutputs);
      var cls := programs.starkVerify(CollectLockScriptsClaimOf(programs, pc), pc.collectLockScripts);
      var cts := programs.starkVerify(CollectTypeScriptsClaimOf(programs, pc), pc.collectTypeScripts);
      var lsh := AllPairsVerify(programs.starkVerify, LockScriptClaimsOf(pc), pc.lockScriptsHalt);
      var tsh := AllPairsVerify(programs.starkVerify, TypeScriptClaimsOf(pc), pc.typeScriptsHalt);
      rri && k2o && cls && cts && lsh && tsh
  }

  /** A collection with fewer lock-script proofs than hashes is not rejected for the missing ones. */
  lemma MissingLockScriptProofsAccepted(programs: Programs, pc: Collection, txkMastHash: Digest)
    requires Verify(programs, pc, txkMastHash)
    ensures Verify(programs, pc.(lockScriptsHalt := []), txkMastHash)
  {
    var pc' := pc.(lockScriptsHalt := []);
    assert AllPairsVerify(programs.starkVerify, LockScriptClaimsOf(pc'), pc'.lockScriptsHalt);
    assert TypeScriptInput(pc') == TypeScriptInput(pc);
    assert TypeScriptClaimsOf(pc') == TypeScriptClaimsOf(pc);
  }

  // ---------------------------------------------------------------------
  // Whether a witness can produce a collection

  /** The result of running one consensus program on its witness. */
  datatype Run = Crashed | Halted(output: seq<BFieldElement>)

  predicate HaltsWith(run: Run, expected: seq<BFieldElement>)
  {
    run.Halted? && run.output == expected
  }

  /** The six checks `can_produce` computes from a primitive witness: four program runs with their expected outputs, and the graceful-halt verdict of each lock script and each type script. */
  datatype WitnessChecks = WitnessChecks(
    removalRecordsIntegrity: Run, removalRecordsIntegrityOutput: seq<BFieldElement>,
    collectLockScripts: Run, collectLockScriptsOutput: seq<BFieldElement>,
    kernelToOutputs: Run, kernelToOutputsOutput: seq<BFieldElement>,
    collectTypeScripts: Run, collectTypeScriptsOutput: seq<BFieldElement>,
    lockScriptsHalt: seq<bool>,
    typeScriptsHalt: seq<bool>)

  predicate AllHalt(verdicts: seq<bool>)
  {
    forall i :: 0 <= i < |verdicts| ==> verdicts[i]
  }

  /** `can_produce` as written: the six checks joined with `||`. */
  function CanProduceAsWritten(w: WitnessChecks): (r: bool)
    ensures r <==> HaltsWith(w.removalRecordsIntegrity, w.removalRecordsIntegrityOutput)
                   || HaltsWith(w.collectLockScripts, w.collectLockScriptsOutput)
                   || HaltsWith(w.kernelToOutputs, w.kernelToOutputsOutput)
                   || HaltsWith(w.collectTypeScripts, w.collectTypeScriptsOutput)
                   || AllHalt(w.lockScriptsHalt)
                   || AllHalt(w.typeScriptsHalt)
  {
    var removalRecordsIntegrityHalts := HaltsWith(w.removalRecordsIntegrity, w.removalRecordsIntegrityOutput);
    var collectLockScriptsHalts := HaltsWith(w.collectLockScripts, w.collectLockScriptsOutput);
    var kernelToOutputsHalts := HaltsWith(w.kernelToOutputs, w.kernelToOutputsOutput);
    var collectTypeScriptsHalts := HaltsWith(w.collectTypeScripts, w.collectTypeScriptsOutput);
    var allLockScriptsHalt := AllHalt(w.lockScriptsHalt);
    var allTypeScriptsHalt := AllHalt(w.typeScriptsHalt);
    removalRecordsIntegrityHalts || collectLockScriptsHalts || kernelToOutputsHalts
      || collectTypeScriptsHalts || allLockScriptsHalt || allTypeScriptsHalt
  }

  /** Whether a witness can produce a valid collection: every one of the six checks holds. */
  function CanProduce(w: WitnessChecks): (r: bool)
    ensures r ==> (w.removalRecordsIntegrity.Halted? && w.collectLockScripts.Halted? &&
                   w.kernelToOutputs.Halted? && w.collectTypeScripts.Halted?)
    ensures r ==> w.removalRecordsIntegrity.output == w.removalRecordsIntegrityOutput
                  && w.collectLockScripts.output == w.collectLockScriptsOutput
                  && w.kernelToOutputs.output == w.kernelToOutputsOutput
                  && w.collectTypeScripts.output == w.collectTypeScriptsOutput
    ensures r ==> forall i :: 0 <= i < |w.lockScriptsHalt| ==> w.lockScriptsHalt[i]
    ensures r ==> forall i :: 0 <= i < |w.typeScriptsHalt| ==> w.typeScriptsHalt[i]
    ensures HaltsWith(w.removalRecordsIntegrity, w.removalRecordsIntegrityOutput)
            && HaltsWith(w.collectLockScripts, w.collectLockScriptsOutput)
            && HaltsWith(w.kernelToOutputs, w.kernelToOutputsOutput)
            && HaltsWith(w.collectTypeScripts, w.collectTypeScriptsOutput)
            && (forall i :: 0 <= i < |w.lockScriptsHalt| ==> w.lockScriptsHalt[i])
            && (forall i :: 0 <= i < |w.typeScriptsHalt| ==> w.typeScriptsHalt[i])
            ==> r
  {
    HaltsWith(w.removalRecordsIntegrity, w.removalRecordsIntegrityOutput)
      && HaltsWith(w.collectLockScripts, w.collectLockScriptsOutput)
      && HaltsWith(w.kernelToOutputs, w.kernelToOutputsOutput)
      && HaltsWith(w.collectTypeScripts, w.collectTypeScriptsOutput)
      && AllHalt(w.lockScriptsHalt)
      && AllHalt(w.typeScriptsHalt)
  }

  /** Whatever the corrected check accepts, the check as written accepts too. */
  lemma CanProduceWithinAsWritten(w: WitnessChecks)
    ensures CanProduce(w) ==> CanProduceAsWritten(w)
  {
  }

  /** As written, a witness without lock scripts passes even when every consensus program crashes and every type script fails. */
  lemma AsWrittenAcceptsCrashingWitness(typeScriptsHalt: seq<bool>)
    requires |typeScriptsHalt| > 0 && !typeScriptsHalt[0]
    ensures var w := WitnessChecks(Crashed, [], Crashed, [], Crashed, [], Crashed, [], [], typeScriptsHalt);
            CanProduceAsWritten(w) && !CanProduce(w)
  {
  }
}
