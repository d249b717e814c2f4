# neptune-core: a verified model of the node's sequential core

This project models in Dafny the deterministic, single-threaded logic of a
neptune-core node, with locks, I/O and hashing taken out. It covers:

- **Mining state machine** (`Mining`). The fixed transition table, the
  cyclic happy path and role gating (compose and guess) are modelled.
  The node keeps three independent pause flags. `allowed` decides whether
  a transition may happen. `advance_to`, `advance` and the
  `pause_*`/`unpause_*` methods update the machine.
  - A value `Machine` carries the specification.
  - The class `MiningStateMachine` holds the source's fields. Its methods
    are proved equal to the value-level functions.
- **Mutator set, sliding-window Bloom filter** (`AccumulationScheme`):
  - packing a chunk's bits into field elements;
  - the window-slide rule;
  - `add`, which shifts and clears the active window array in place;
  - `remove`, which sets bits in the active window array and in the chunk
    dictionary and then mutates the inactive MMR;
  - `get_indices`;
  - the index checks of `verify`.
- **MMR accumulator** (`Mmr`). A class with a leaf count and peaks. It
  models `init`/`new`/`append`/`mutate_leaf`, the guards and fold of
  `verify_batch_update`, and the bookkeeping of
  `batch_mutate_leaf_and_update_mps`. The library's MMR arithmetic is passed
  in as functions.
- **Validation rules**:
  - the time-lock type script, a nested loop over inputs and coins with a
    strict release-date comparison (`TimeLock`);
  - claim assembly in the proof collection (`ProofCollection`);
  - `TxParams` construction checks (`TransactionParams`);
  - balance, change, pruning and expected-UTXO rules of the global state,
    over sequences of monitored UTXOs (`GlobalState`).
- **Derivation-index iteration**. The iterators `SpendingKeyIter` and
  `SpendingKeyRangeIter` are classes with a cursor (`KeyIter`).
  `SpendingKeyRange` and `KnownSpendingKeys` produce index ranges.
  `derive_child` is a parameter.
- **Small helpers**:
  - digest ordering and byte layout (`RescueDigest`);
  - CLI `address:amount[:recipient]` parsing and recipient labelling
    (`NeptuneCli`);
  - sanction merging, bounds checks and history sorting in the RPC server
    (`RpcServer`);
  - cookie authentication (`RpcAuth`);
  - the dashboard's clamped vertical layout (`OverviewScreen`).

Shared definitions:

- `Wrappers` holds `Option`, `Result` and small predicates on sequences.
- `Primitives` holds the base field: an element is a natural number below
  `P = 2^64 - 2^32 + 1`, and a digest is five of them.

Hashing and STARK verification are function-valued parameters, and so is
every library call whose body is not part of this model. Each theorem
therefore holds for every choice of those functions.

Some behaviour of the code is worth knowing before reading the model:

- `remove` in the Bloom filter computes its window start differently from
  `add` and `verify`. Findings row 2 records the code as written
  (`AccumulationScheme.RemoveAsWrittenLeavesBitUnset`). The model's
  `SetCommitment.Remove` uses the corrected start
  `((leaf_count - 1) / BATCH_SIZE) * CHUNK_SIZE`.
- `SpendingKeyRangeIter::next_back` walks down from the cursor, which
  starts at `first`, rather than up from `last`. Its unguarded
  `curr -= 1` wraps from 0 to `u64::MAX`, as a release build runs it.
- `generate_tx_details_for_transaction` reports surplus inputs as the
  negative amount `total_spend - input_amount`, as the code computes it.

## Model

| member | source | states |
|---|---|---|
| Mining.FromState | src/models/state/mining_status.rs:584-603 | The status built from a bare state has that state and the given timestamp. A Guessing status has no work info. A Paused status has reason Rpc. |
| Mining.HappyNextOnPath | src/models/state/mining_status.rs:182-189 | The happy-path successor is defined exactly for the six states on the happy path. |
| Mining.HappyNextIsCyclicSuccessor | src/models/state/mining_status.rs:232-263 | `advance` steps from the state at position i of the happy path to position i+1, cyclically. |
| Mining.HappyPathInTable | src/models/state/mining_status.rs:107-189 | Every happy-path step is a transition listed in the state's row of the transition table. |
| Mining.UniqueElements | src/models/state/mining_status.rs:348-362 | Removing duplicates keeps exactly the same elements and leaves no duplicate. |
| Mining.MergePaused | src/models/state/mining_status.rs:348-362 | Merging into a non-paused status takes the incoming status. Merging into a paused one stays paused and keeps the old timestamp. |
| Mining.MergePausedReasons | src/models/state/mining_status.rs:348-357 | The merged reasons are the union of both lists without duplicates. They are the plain concatenation when that has no duplicates. |
| Mining.Machine.WithFlag | src/models/state/mining_status.rs:389-455 | Setting one pause flag changes that flag only; the status and roles stay. |
| Mining.Machine.PausedCount | src/models/state/mining_status.rs:484-488 | The number of pause flags set: at most 3, and 0 iff no flag is set. |
| Mining.Machine.Allowed | src/models/state/mining_status.rs:457-482 | The transition guard. Its meaning is stated by `AllowedFollowsTable`, `NoRoleOnlyDisabled`, `MultiplePausesOnlyShutdown`, `AllowedReentry`, `FinalStates` and `RolesGateWork`. |
| Mining.Machine.Pause | src/models/state/mining_status.rs:364-455 | A pause always sets its flag and leaves the other flags and the roles. The status either stays or becomes Paused. |
| Mining.Machine.Unpause | src/models/state/mining_status.rs:389-455 | An unpause always clears its flag and leaves the other flags and the roles. The status either stays or becomes Init. |
| Mining.Machine.SetPaused | src/models/state/mining_status.rs:379-438 | `set_syncing`/`set_need_connection` leave the flag equal to the argument. They are no-ops when the flag already has that value. |
| Mining.Machine.PauseAll | src/models/state/mining_status.rs:313-318 | Pausing for a list of reasons sets every listed flag and no other, keeping the roles. |
| Mining.Machine.AdvanceTo | src/models/state/mining_status.rs:306-325 | A paused target pauses for each listed reason and returns Ok. A non-paused target is taken iff `allowed`. A refusal returns InvalidStateTransition(old, new) and leaves the machine unchanged. The roles never change. |
| Mining.Machine.Advance | src/models/state/mining_status.rs:232-263 | Success ends on the first happy-path state the roles do not skip. Failure stops where the refused step began, and that step is not allowed. Flags and roles stay. |
| Mining.Machine.HandleEvent | src/models/state/mining_status.rs:274-303 | Each pause event succeeds and sets its flag; each unpause event succeeds and clears it. A refused non-advance event leaves the machine unchanged. The roles never change. |
| Mining.Machine.ExecStates | src/models/state/mining_status.rs:328-333 | Roles and pause flags are unchanged. A successful run ends in the last listed status. |
| Mining.NewMachine | src/models/state/mining_status.rs:210-219 | A new machine starts in Init with no pause flag set and the given roles. |
| Mining.AllowedFollowsTable | src/models/state/mining_status.rs:476-480 | With a role enabled and at most one pause, a new target is allowed iff the table lists it and the Composing/Guessing role gates pass. |
| Mining.NoRoleOnlyDisabled | src/models/state/mining_status.rs:468-469 | With neither role enabled, the only allowed new target is Disabled. |
| Mining.MultiplePausesOnlyShutdown | src/models/state/mining_status.rs:470-471 | With more than one pause flag set, the only allowed new target is Shutdown. |
| Mining.AllowedReentry | src/models/state/mining_status.rs:464-467 | Re-entering Init from Init, or a status equal to the current one, is always allowed. |
| Mining.FinalStates | src/models/state/mining_status.rs:107-180 | Disabled and Shutdown allow nothing new. ComposeError allows only Shutdown. Paused allows exactly Init and Shutdown. |
| Mining.RolesGateWork | src/models/state/mining_status.rs:472-475 | Guessing is refused without the guess role, and Composing without the compose role. |
| Mining.WorkPredicatesExclusive | src/models/state/mining_status.rs:509-523 | At most one of can_start_guessing, can_guess, can_start_composing and can_compose holds. |
| Mining.FirstUnskipped | src/models/state/mining_status.rs:232-263 | The state `advance` settles on is on the happy path and not skipped by the roles. |
| Mining.AdvanceSucceedsWithBothRoles | src/models/state/mining_status.rs:232-263 | With both roles and at most one pause, `advance` from any happy-path state succeeds. |
| Mining.AdvanceBothRoles | src/models/state/mining_status.rs:1056-1060 | With both roles, advancing from a new machine reaches NewTipBlock, and advancing again returns to Init. |
| Mining.ExecStatesStep | src/models/state/mining_status.rs:328-333 | An allowed, non-paused first status is taken, and the rest runs from there. |
| Mining.ExecStatesRefused | src/models/state/mining_status.rs:328-333 | A refused first status stops the run at once with that transition's error, and the machine is unchanged. |
| Mining.ExecStatesSucceeds | src/models/state/mining_status.rs:328-333 | When each status is allowed from the one before, the run succeeds and ends in the last status. |
| Mining.ExecStatesAppend | src/models/state/mining_status.rs:328-333 | Running two lists in sequence equals running the second from where the first ended, unless the first was refused. |
| Mining.HappyPathWithBothRoles | src/models/state/mining_status.rs:797-799 | Executing the statuses of the full happy path succeeds with both roles and ends back in Init. |
| Mining.HappyPathComposerOnlyRefused | src/models/state/mining_status.rs:801-804 | A composer-only node is refused at AwaitBlock to Guessing and stays in AwaitBlock. |
| Mining.HappyPathGuesserOnlyRefused | src/models/state/mining_status.rs:806-809 | A guesser-only node is refused at AwaitBlockProposal to Composing and stays in AwaitBlockProposal. |
| Mining.OnlyOneFlag | src/models/state/mining_status.rs:484-488 | When no other flag is set, the paused count is at most one. |
| Mining.PauseOutcome | src/models/state/mining_status.rs:833-840 | With both roles and no other pause, a pause moves every happy-path state and Paused to Paused. It leaves ComposeError, Disabled and Shutdown, and sets the flag. |
| Mining.PauseThenUnpause | src/models/state/mining_status.rs:842-849 | Pausing and then unpausing for the same reason returns every pausable state to Init, clears the flag and leaves the other states. |
| Mining.SetPausedIdempotent | src/models/state/mining_status.rs:379-438 | Setting a pause flag twice to the same value gives the same machine as setting it once. |
| Mining.FlagsTrackLastEvent | src/models/state/mining_status.rs:851-1008 | After any run of pause and unpause events, each flag equals the kind of the last event for its reason, or its initial value if no event was for it. |
| Mining.PausedCountAfterEvents | src/models/state/mining_status.rs:484-488 | After pause and unpause events the paused count is the number of reasons whose last event was a pause. |
| Mining.MiningStateMachine.constructor | src/models/state/mining_status.rs:210-219 | The new machine equals `NewMachine` for the given roles. |
| Mining.MiningStateMachine.MergeSetPausedStatus | src/models/state/mining_status.rs:348-362 | The status becomes the merge of the old status with the incoming paused one; flags and roles stay. |
| Mining.MiningStateMachine.SetFlag | src/models/state/mining_status.rs:389-455 | The field update of one pause flag, as `WithFlag`. |
| Mining.MiningStateMachine.Pause | src/models/state/mining_status.rs:364-455 | The fields after a pause are those of `Machine.Pause`. |
| Mining.MiningStateMachine.Unpause | src/models/state/mining_status.rs:389-455 | The fields after an unpause are those of `Machine.Unpause`. |
| Mining.MiningStateMachine.SetSyncing | src/models/state/mining_status.rs:430-438 | The fields afterwards are those of `SetPaused(SyncBlocks, syncing)`. |
| Mining.MiningStateMachine.SetNeedConnection | src/models/state/mining_status.rs:379-387 | The fields afterwards are those of `SetPaused(NeedConnection, need_connection)`. |
| Mining.MiningStateMachine.AdvanceTo | src/models/state/mining_status.rs:306-325 | The fields and result equal `Machine.AdvanceTo` on the old fields. |
| Mining.MiningStateMachine.Advance | src/models/state/mining_status.rs:232-263 | The fields and result equal `Machine.Advance` on the old fields. |
| Mining.MiningStateMachine.HandleEvent | src/models/state/mining_status.rs:274-303 | The fields and result equal `Machine.HandleEvent`, which maps each event to advance, advance_to, pause or unpause. |
| AccumulationScheme.HashPreimageLengthIsCeiling | src/util_types/mutator_set/accumulation_scheme.rs:28-35 | The preimage length is 24, the ceiling of CHUNK_SIZE/63: enough elements for every bit and not one more. |
| AccumulationScheme.HashPreimage | src/util_types/mutator_set/accumulation_scheme.rs:38-66 | The loop that packs 63 bits per element with a running accumulator returns exactly `Preimage(bits)`. |
| AccumulationScheme.AccumulateBits | src/util_types/mutator_set/accumulation_scheme.rs:43-50 | The inner loop adds `1 << j` for every set bit `j` of the run, so the result is the run read as a little-endian number (`Weighted`). |
| AccumulationScheme.UnpackWeighted | src/util_types/mutator_set/accumulation_scheme.rs:38-66 | Unpacking a packed element gives back the bits it was packed from. |
| AccumulationScheme.PreimageRecoversBit | src/util_types/mutator_set/accumulation_scheme.rs:38-66 | Bit j of element k of the preimage is bit 63k+j of the chunk, and the last element holds the remaining bits. |
| AccumulationScheme.PreimageInjective | src/util_types/mutator_set/accumulation_scheme.rs:38-66 | Two chunks with equal preimages are equal, so the chunk hash sees every bit. |
| AccumulationScheme.PreimageOfEmptyChunk | src/util_types/mutator_set/accumulation_scheme.rs:611-623 | The empty chunk packs to all-zero elements. |
| AccumulationScheme.PreimageOfBit63 | src/util_types/mutator_set/accumulation_scheme.rs:625-635 | With bit 63 alone set, element 1 is 1 and every other element is 0. |
| AccumulationScheme.PreimageOfBits63And64 | src/util_types/mutator_set/accumulation_scheme.rs:637-647 | With bits 63 and 64 set, element 1 is 3 and every other element is 0. |
| AccumulationScheme.WindowStartCountsSlides | src/util_types/mutator_set/accumulation_scheme.rs:218-265 | After n additions, the window has slid `(n-1)/BATCH_SIZE` times: once per index i in 1..n-1 with `i % BATCH_SIZE == 0`. The window start is one chunk per slide. |
| AccumulationScheme.WindowStartAsWritten | src/util_types/mutator_set/accumulation_scheme.rs:273-274 | `remove`'s window start as written; `WindowStartAsWrittenDiffers` proves where it departs from the start `add` implies. |
| AccumulationScheme.WindowStartAsWrittenDiffers | src/util_types/mutator_set/accumulation_scheme.rs:273-274 | `remove`'s window start agrees with the one implied by `add` iff n is 0 or not a multiple of BATCH_SIZE. Otherwise it is one chunk ahead. |
| AccumulationScheme.SlideKeepsAbsolutePositions | src/util_types/mutator_set/accumulation_scheme.rs:248-265 | After a slide, the bit at absolute position b sits CHUNK_SIZE places further left, and the new rightmost chunk is cleared. |
| AccumulationScheme.Lookup | src/util_types/mutator_set/accumulation_scheme.rs:343-420 | Dictionary lookup finds an entry iff one has the key, and returns that entry. |
| AccumulationScheme.HasMatchingAoclIsEquality | src/util_types/mutator_set/accumulation_scheme.rs:102-105 | A record matches the AOCL exactly when its snapshot equals the AOCL's leaf count and peaks. |
| AccumulationScheme.GetIndices | src/util_types/mutator_set/accumulation_scheme.rs:169-190 | NUM_TRIALS indices, each at least `batch*CHUNK_SIZE`. If the sampler stays below WINDOW_SIZE, each is below `batch*CHUNK_SIZE + WINDOW_SIZE`. |
| AccumulationScheme.IndicesNotInFuture | src/util_types/mutator_set/accumulation_scheme.rs:169-190 | The indices of an item already added never lie right of the current window. |
| AccumulationScheme.RemovedActiveBitsAreSet | src/util_types/mutator_set/accumulation_scheme.rs:276-284 | After `remove`, none of the item's indices at or right of the window start is unset in the active window. |
| AccumulationScheme.RemoveAsWrittenLeavesBitUnset | src/util_types/mutator_set/accumulation_scheme.rs:273-284 | With `remove`'s window start, removing an item after 10 additions sets window bit 0. `verify` still reads bit 1500 there as unset. |
| AccumulationScheme.SetCommitment.Default | src/util_types/mutator_set/accumulation_scheme.rs:145-156 | Empty AOCL and inactive MMR, and an all-zero active window. |
| AccumulationScheme.SetCommitment.Commit | src/util_types/mutator_set/accumulation_scheme.rs:158-165 | The record holds the hash of item and randomness, and a snapshot that matches the current AOCL. |
| AccumulationScheme.SlideWindow | src/util_types/mutator_set/accumulation_scheme.rs:256-264 | The window becomes `Slide` of the old window: moved left by CHUNK_SIZE with the last chunk cleared, in place. |
| AccumulationScheme.SetCommitment.Add | src/util_types/mutator_set/accumulation_scheme.rs:233-266 | Requires a matching AOCL snapshot, and appends the commitment, so the leaf count rises by one. On a slide, the inactive MMR gains the first chunk and the window shifts left by CHUNK_SIZE with a cleared tail. Otherwise the window is untouched. |
| AccumulationScheme.SetCommitment.Verify | src/util_types/mutator_set/accumulation_scheme.rs:343-420 | Returns false when the data index is not in the AOCL. Otherwise it checks the AOCL proof, the chunk dictionary, every chunk proof, that no index lies right of the window, and that some index is unset. |
| AccumulationScheme.SetCommitment.ScanBits | src/util_types/mutator_set/accumulation_scheme.rs:369-411 | The loop over the bit indices computes the four flags of `verify` exactly. |
| AccumulationScheme.SetCommitment.Remove | src/util_types/mutator_set/accumulation_scheme.rs:272-320 | Uses the corrected window start `((leaf_count - 1) / BATCH_SIZE) * CHUNK_SIZE` (Findings row 2). Sets every active-window bit of the record, and every chunk bit left of the window. Then it mutates the inactive MMR with the updated chunks in reverse order, each proof updated by the mutations before it; the leaf count stays. |
| AccumulationScheme.SetCommitment.SetActiveAndChunkBits | src/util_types/mutator_set/accumulation_scheme.rs:276-294 | The first loop of `remove` leaves the window and dictionary equal to their bit-set specifications. |
| Mmr.AppendAll | src/util_types/mutator_set/mmr_accumulator.rs:46-57 | Appending a list raises the leaf count by its length. |
| Mmr.AppendAllConcat | src/util_types/mutator_set/mmr_accumulator.rs:46-57 | Appending `a + b` equals appending `a` and then `b`. |
| Mmr.MaxOf | src/util_types/mutator_set/mmr_accumulator.rs:117-123 | The maximum is an element and bounds every element. |
| Mmr.Climb | src/util_types/mutator_set/mmr_accumulator.rs:197-250 | Climbing an authentication path only adds derived digests and never drops one already recorded. |
| Mmr.Phase1 | src/util_types/mutator_set/mmr_accumulator.rs:197-250 | On success, every mutated leaf's node index has a recorded digest and the peak list keeps its length. |
| Mmr.RecordedNodeRejected | src/util_types/mutator_set/mmr_accumulator.rs:197-214 | Mutating a leaf whose node was already derived is an error. |
| Mmr.DuplicateLeafRejected | src/util_types/mutator_set/mmr_accumulator.rs:197-214 | Two mutations of the same leaf index make the batch fail. |
| Mmr.UpdateProofChanges | src/util_types/mutator_set/mmr_accumulator.rs:252-272 | A proof is reported modified exactly when some position of its path is re-derived with a different digest. |
| Mmr.DedupOfNonDecreasing | src/util_types/mutator_set/mmr_accumulator.rs:274-279 | Sorting then deduplicating gives a strictly increasing list with the same elements. |
| Mmr.ClimbPath | src/util_types/mutator_set/mmr_accumulator.rs:197-250 | The loop up the path computes exactly `Climb`. |
| Mmr.UpdateMembershipProof | src/util_types/mutator_set/mmr_accumulator.rs:252-272 | The rewritten proof is `UpdateProof`, and the index is recorded iff the proof changed. |
| Mmr.MmrAccumulator.Init | src/util_types/mutator_set/mmr_accumulator.rs:38-44 | The accumulator holds exactly the given peaks and leaf count. |
| Mmr.MmrAccumulator.IsEmpty | src/util_types/mutator_set/mmr_accumulator.rs:69-71 | Empty iff the leaf count is 0. |
| Mmr.MmrAccumulator.CountLeaves | src/util_types/mutator_set/mmr_accumulator.rs:73-75 | The stored leaf count; `New` and `Append` state how it grows. |
| Mmr.MmrAccumulator.Default | src/util_types/mutator_set/mmr_accumulator.rs:31-35 | Zero leaves and no peaks; it is empty and counts 0 leaves. |
| Mmr.MmrAccumulator.New | src/util_types/mutator_set/mmr_accumulator.rs:46-57 | The state is that of appending the digests in order to the empty MMR, and the leaf count is their number. |
| Mmr.MmrAccumulator.Append | src/util_types/mutator_set/mmr_accumulator.rs:77-87 | The leaf count rises by exactly one. The peaks and the returned proof are those of the library append. |
| Mmr.MmrAccumulator.MutateLeaf | src/util_types/mutator_set/mmr_accumulator.rs:92-99 | The peaks are those of the library leaf mutation, and the leaf count is unchanged. |
| Mmr.MmrAccumulator.VerifyBatchUpdate | src/util_types/mutator_set/mmr_accumulator.rs:103-182 | False on a repeated leaf index or an index at or beyond the leaf count. Otherwise true iff the new peaks equal all mutations in order, then all appends in order. |
| Mmr.UpdateMembershipProofs | src/util_types/mutator_set/mmr_accumulator.rs:250-275 | Every proof in the array is rewritten in place to `UpdateProof`. The collected indices are non-decreasing and name exactly the proofs that changed. |
| Mmr.MmrAccumulator.BatchMutateLeafAndUpdateMps | src/util_types/mutator_set/mmr_accumulator.rs:184-280 | Fails exactly when a mutated node is derived twice. On success the peaks are the climbed ones, each proof is rewritten, and the modified indices are strictly increasing and name exactly the proofs that changed. |
| Mmr.MmrAccumulator.DeriveDigests | src/util_types/mutator_set/mmr_accumulator.rs:197-250 | The first loop of the batch mutation computes exactly `Phase1`. |
| RescueDigest.Default | src/models/blockchain/digest.rs:38-40 | The default digest is all zeros. |
| RescueDigest.New | src/models/blockchain/digest.rs:34-36 | Wraps six values; `ValuesOfNew` proves it inverse to `Values`. |
| RescueDigest.Values | src/models/blockchain/digest.rs:30-32 | The six values; `ValuesOfNew` proves it inverse to `New`. |
| RescueDigest.Compare | src/models/blockchain/digest.rs:17-27 | The lexicographic comparison; `CompareFirstDifference`, `CompareAntisymmetric` and `CompareTransitive` state its meaning. |
| RescueDigest.ValuesOfNew | src/models/blockchain/digest.rs:30-36 | `values(new(d)) == d`, and `new(values(x)) == x`. |
| RescueDigest.PartialCmp | src/models/blockchain/digest.rs:17-27 | The early-return loop returns exactly the lexicographic comparison `Compare`. |
| RescueDigest.CompareFirstDifference | src/models/blockchain/digest.rs:17-27 | Equal digests give None, never Some(Equal). Different ones are ordered by the first index where they differ. |
| RescueDigest.CompareAntisymmetric | src/models/blockchain/digest.rs:17-27 | a < b iff b > a. |
| RescueDigest.CompareTransitive | src/models/blockchain/digest.rs:17-27 | a < b and b < c give a < c. |
| RescueDigest.DefaultIsLeast | src/models/blockchain/digest.rs:17-40 | The zero digest is below every other digest. |
| RescueDigest.OrderingExamples | src/models/blockchain/digest.rs:119-160 | zero < [14,0,...] < all-14 < [14,...,15] < [14,14,14,14,15,14], as the test asserts. |
| RescueDigest.FromVec | src/models/blockchain/digest.rs:69-79 | A vector of exactly six elements converts, and converting back gives the vector. |
| RescueDigest.VecRoundTrip | src/models/blockchain/digest.rs:69-86 | Converting a digest to a vector and back gives the digest. |
| RescueDigest.LeRoundTrip | src/models/blockchain/digest.rs:103-111 | The little-endian bytes of a value below 256^n decode to the value. |
| RescueDigest.ToBytes | src/models/blockchain/digest.rs:103-111 | Always 48 bytes; `ToBytesLayout` and `ToBytesInjective` give the layout and injectivity. |
| RescueDigest.ToBytesLayout | src/models/blockchain/digest.rs:103-111 | 48 bytes, and element i occupies bytes 8i..8i+8, little-endian. |
| RescueDigest.ToBytesInjective | src/models/blockchain/digest.rs:103-111 | Different digests have different byte forms. |
| RescueDigest.FromBytesAsWritten | src/models/blockchain/digest.rs:43-54 | As written, the conversion from 48 bytes fails for every input (the second slice is out of bounds). |
| RescueDigest.FromBytes | src/models/blockchain/digest.rs:43-54 | Element i is read from bytes 8i..8i+8. With a native little-endian reader this inverts the byte conversion. |
| TimeLock.Until | src/models/blockchain/type_scripts/time_lock.rs:54-59 | The coin carries the time-lock hash and a state of exactly `[date]`. |
| TimeLock.Source | src/models/blockchain/type_scripts/time_lock.rs:64-125 | The script halts iff the salted inputs hash to the digest read from input and every time-lock coin has a one-element state strictly before the timestamp. |
| TimeLock.UnlockedInputsPass | src/models/blockchain/type_scripts/time_lock.rs:99-125 | Inputs without time-lock coins always pass the release check. |
| TimeLock.LockedCoinFails | src/models/blockchain/type_scripts/time_lock.rs:106-120 | A time-lock coin whose state is not one element long, or whose date is not before the timestamp, makes the check fail. |
| TimeLock.FirstTimeLockState | src/models/blockchain/type_scripts/time_lock.rs:470-480 | The state of the first coin with the time-lock hash, or empty when there is none. |
| TimeLock.ReleaseDates | src/models/blockchain/type_scripts/time_lock.rs:463-483 | One release date per input UTXO. Each is the first state element of the first time-lock coin, or 0. |
| TimeLock.HaltingMeansReleased | src/models/blockchain/type_scripts/time_lock.rs:99-125 | If the check passes, every time-locked input's release date is strictly before the timestamp. |
| TimeLock.WithTimeLocks | src/models/blockchain/type_scripts/time_lock.rs:535-540 | Each input gains `until(date)` exactly when its date is non-zero. |
| TimeLock.ReleaseDatesOfGenerated | src/models/blockchain/type_scripts/time_lock.rs:463-540 | The dates recovered from a generated witness are the dates it was generated from. |
| TimeLock.GeneratedReleased | src/models/blockchain/type_scripts/time_lock.rs:590-652 | A generated witness passes iff every non-zero date is strictly before the timestamp. |
| TimeLock.TestScenarios | src/models/blockchain/type_scripts/time_lock.rs:590-652 | Zero dates pass, past dates pass, and future dates fail. |
| ProofCollection.Flatten | src/models/blockchain/transaction/validity/proof_collection.rs:388-405 | The flattening has `Digest::LEN * n` elements. |
| ProofCollection.FlattenIndex | src/models/blockchain/transaction/validity/proof_collection.rs:388-405 | Element j of digest i sits at position `5i + j`. |
| ProofCollection.FlattenInjective | src/models/blockchain/transaction/validity/proof_collection.rs:388-428 | Equally long digest lists with equal flattenings are equal. |
| ProofCollection.FlattenByPushing | src/models/blockchain/transaction/validity/proof_collection.rs:394-403 | The nested push loops produce exactly the flattening. |
| ProofCollection.CollectLockScriptsClaim | src/models/blockchain/transaction/validity/proof_collection.rs:388-405 | The claim's output is the in-order flattening of the lock-script hashes, of length `5n`. |
| ProofCollection.CollectTypeScriptsClaim | src/models/blockchain/transaction/validity/proof_collection.rs:407-428 | The input is the reversed salted-inputs hash followed by the reversed salted-outputs hash. The output is the flattened type-script hashes. |
| ProofCollection.LockScriptClaims | src/models/blockchain/transaction/validity/proof_collection.rs:430-445 | One claim per lock-script hash: that digest, the reversed kernel hash as input, and an empty output. |
| ProofCollection.TypeScriptClaims | src/models/blockchain/transaction/validity/proof_collection.rs:447-466 | One claim per type-script hash, all with the same three-digest reversed input and an empty output. |
| ProofCollection.SurplusIgnored | src/models/blockchain/transaction/validity/proof_collection.rs:356-365 | Zipping claims with proofs ignores surplus entries on either side. |
| ProofCollection.Verify | src/models/blockchain/transaction/validity/proof_collection.rs:252-370 | True iff the kernel hash matches and every one of the six kinds of proof verifies against its claim (both directions are stated). |
| ProofCollection.MissingLockScriptProofsAccepted | src/models/blockchain/transaction/validity/proof_collection.rs:356-369 | A collection that verifies still verifies with all lock-script proofs removed. |
| ProofCollection.CanProduceAsWritten | src/models/blockchain/transaction/validity/proof_collection.rs:71-136 | As written: true as soon as any one of the six checks holds. |
| ProofCollection.CanProduce | src/models/blockchain/transaction/validity/proof_collection.rs:71-136 | Corrected: true iff all six checks hold. |
| ProofCollection.CanProduceWithinAsWritten | src/models/blockchain/transaction/validity/proof_collection.rs:130-135 | Whatever the corrected check accepts, the written one accepts. |
| ProofCollection.AsWrittenAcceptsCrashingWitness | src/models/blockchain/transaction/validity/proof_collection.rs:130-135 | As written, a witness without lock scripts passes even when every consensus program crashes. |
| TransactionParams.FirstAmountError | src/models/blockchain/transaction/transaction_params.rs:94-110 | No error iff all amounts are positive. Otherwise NegativeAmount or ZeroAmount, according to the first amount that is not positive. |
| TransactionParams.NewWithTimestamp | src/models/blockchain/transaction/transaction_params.rs:81-116 | InsufficientInputs(in, out) when in < out, checked first. Success iff in >= out and every amount is positive, holding exactly the given lists and timestamp. Otherwise the first offending amount is reported, inputs before outputs. |
| TransactionParams.NegativeInputReportedFirst | src/models/blockchain/transaction/transaction_params.rs:94-110 | A negative first input is reported as NegativeAmount. |
| TransactionParams.Fee | src/models/blockchain/transaction/transaction_params.rs:121-123 | Inputs minus outputs; `ConstructedFeeNonNegative` proves it non-negative on every constructed value. |
| TransactionParams.ConstructedFeeNonNegative | src/models/blockchain/transaction/transaction_params.rs:118-123 | Every constructed value has fee = inputs - outputs >= 0 and holds its arguments. |
| TransactionParams.TryFrom | src/models/blockchain/transaction/transaction_params.rs:66-72 | Deserialization goes through the same validation, so its results have a non-negative fee. |
| TransactionParams.New | src/models/blockchain/transaction/transaction_params.rs:76-78 | `new` validates with the given current time as timestamp. |
| GlobalState.LastConfirmed | src/models/state/mod.rs:294-347 | The confirmation height of the last UTXO confirmed at the tip, None iff there is none. |
| GlobalState.MaxSpent | src/models/state/mod.rs:294-347 | The largest spending height among UTXOs spent at the tip, None iff there is none. |
| GlobalState.LatestBalanceHeight | src/models/state/mod.rs:294-347 | None without monitored UTXOs, otherwise the larger height; `LatestBalanceHeightIsMaximum` states its meaning. |
| GlobalState.LatestBalanceHeightIsMaximum | src/models/state/mod.rs:294-347 | With UTXOs in confirmation order, the result bounds every confirmation and spending height at the tip and is one of them. |
| GlobalState.HistorySumsToBalance | src/models/state/mod.rs:350-386 | The history's signed amounts sum to the unspent balance: each spend cancels its confirmation. |
| GlobalState.History | src/models/state/mod.rs:350-386 | The signed history; `HistorySumsToBalance` proves it sums to the unspent balance. |
| GlobalState.AddAllConcat | src/models/state/mod.rs:786-799 | Adding `a + b` adds `a` and, only if that succeeded, then `b`. |
| GlobalState.AddAllStopsAtFirstError | src/models/state/mod.rs:786-799 | The first rejected item ends the run with its error, and the pool is as the items before it left it. |
| GlobalState.GenerateTxDetailsForTransaction | src/models/state/mod.rs:671-698 | "Not enough available funds" when spend exceeds inputs. A missing-change error carrying the negative difference `spend - inputs` when spend is below inputs. Ok iff they are equal. |
| GlobalState.CreateTransaction | src/models/state/mod.rs:526-590 | Exactly one change output of `inputs - spend` is appended iff spend < inputs. The result is Ok iff spend <= inputs. |
| GlobalState.GlobalState.constructor | src/models/state/mod.rs:246-262 | The state holds the given monitored UTXOs, expected UTXOs and tip, and the given library functions. |
| GlobalState.GlobalState.GetLatestBalanceHeight | src/models/state/mod.rs:294-347 | The backward pass returns the latest balance height. |
| GlobalState.GlobalState.GetBalanceHistory | src/models/state/mod.rs:350-386 | The forward pass returns the history: for each UTXO with a proof for the tip, +amount if confirmed, then -amount if also spent. |
| GlobalState.GlobalState.Pruned | src/models/state/mod.rs:1145-1178 | Pruning keeps the number of monitored UTXOs. |
| GlobalState.GlobalState.CountAbandoned | src/models/state/mod.rs:1145-1178 | The count of newly abandoned UTXOs is at most the number of UTXOs. |
| GlobalState.GlobalState.PruneAbandonedMonitoredUtxos | src/models/state/mod.rs:1119-1179 | A threshold below 10 is an error and changes nothing. Otherwise the UTXOs to abandon are marked and their number returned. |
| GlobalState.GlobalState.PrunedChangesOnlyAbandoned | src/models/state/mod.rs:1145-1178 | Only unspent, unsynced, not-yet-abandoned UTXOs deep enough and abandoned change, and only `abandoned_at`, which becomes the tip. |
| GlobalState.GlobalState.PruneIdempotent | src/models/state/mod.rs:1145-1178 | Pruning a second time marks nothing. |
| GlobalState.GlobalState.AddExpectedUtxosToWallet | src/models/state/mod.rs:786-799 | Adds in order and stops at the first error; the monitored UTXOs stay. |
| KeyIter.NewKeyIter | src/models/state/wallet/address/key_iter.rs:13-16 | A new iterator starts at position 0. |
| KeyIter.KeyIterNext | src/models/state/wallet/address/key_iter.rs:22-35 | One `next` step; `CollectNextFrom` proves successive calls yield positions c, c+1, ... |
| KeyIter.KeyIterNextBack | src/models/state/wallet/address/key_iter.rs:46-59 | One `next_back` step; `CollectNextBackFrom` proves successive calls yield c down to 0, then nothing. |
| KeyIter.CollectNextFrom | src/models/state/wallet/address/key_iter.rs:22-35 | From position c, `next` yields the keys at positions c, c+1, ... without end. |
| KeyIter.KeyIterYieldsKeyThenChildren | src/models/state/wallet/address/key_iter.rs:22-35 | A new iterator yields the master key, then child 0, child 1, and so on. |
| KeyIter.CollectNextBackFrom | src/models/state/wallet/address/key_iter.rs:46-59 | From position c, `next_back` yields the keys at c, c-1, ..., 0, then nothing. |
| KeyIter.ExhaustedStaysExhausted | src/models/state/wallet/address/key_iter.rs:46-59 | Once exhausted, the iterator yields nothing more. |
| KeyIter.NextBackOnNewIter | src/models/state/wallet/address/key_iter.rs:46-59 | On a new iterator, `next_back` yields the master key once and exhausts the iterator. |
| KeyIter.SpendingKeyIter.constructor | src/models/state/wallet/address/key_iter.rs:13-16 | The cursor starts at 0. |
| KeyIter.SpendingKeyIter.Next | src/models/state/wallet/address/key_iter.rs:22-35 | Yields the key at the cursor and advances it by one. |
| KeyIter.SpendingKeyIter.NextBack | src/models/state/wallet/address/key_iter.rs:46-59 | Yields the key at the cursor and moves down; exhausted after position 0. |
| KeyIter.SpendingKeyIter.SizeHint | src/models/state/wallet/address/key_iter.rs:39-42 | `(usize::MAX, Some(usize::MAX))` whatever the state. |
| KeyIter.NewRangeIter | src/models/state/wallet/address/key_iter.rs:75-84 | The cursor starts at `first`, with the bounds stored. |
| KeyIter.RangeIterNext | src/models/state/wallet/address/key_iter.rs:93-101 | One `next` step; `CollectRangeFrom` proves successive calls yield child c+i while it is at most `last`, then None. |
| KeyIter.DecrementWrapping | src/models/state/wallet/address/key_iter.rs:115 | `curr -= 1` on a `u64`: one less for a positive cursor, `u64::MAX` for 0. |
| KeyIter.RangeIterNextBack | src/models/state/wallet/address/key_iter.rs:111-120 | One `next_back` step; `NextBackOnNewRangeIter` and `NextBackFromZeroWraps` state what it yields from a new iterator. |
| KeyIter.CollectRangeFrom | src/models/state/wallet/address/key_iter.rs:93-101 | From cursor c, `next` yields child c+i while that is at most `last`, then None. |
| KeyIter.RangeIterYieldsFirstToLast | src/models/state/wallet/address/key_iter.rs:93-101 | A new range iterator yields child `first` through child `last` in order, then None. |
| KeyIter.RemainingIsExact | src/models/state/wallet/address/key_iter.rs:93-108 | The number of keys still to come is exact: that many keys, then None. |
| KeyIter.SizeHintAsWritten | src/models/state/wallet/address/key_iter.rs:105-108 | As written, the hint is `last - first`, one less than what a new iterator yields. |
| KeyIter.SizeHint | src/models/state/wallet/address/key_iter.rs:105-108 | Corrected: the hint is exactly the number of keys still to come. |
| KeyIter.NextBackOnNewRangeIter | src/models/state/wallet/address/key_iter.rs:111-120 | On a new range iterator starting above 0, `next_back` yields child `first` first, walking down from the front. |
| KeyIter.NextBackFromZeroWraps | src/models/state/wallet/address/key_iter.rs:111-120 | On a new range iterator starting at 0, `next_back` yields child 0, the cursor wraps to `u64::MAX`, and the next call yields child `u64::MAX`, outside the range. |
| KeyIter.SpendingKeyRangeIter.constructor | src/models/state/wallet/address/key_iter.rs:75-84 | The state equals `NewRangeIter(master, first, last)`. |
| KeyIter.SpendingKeyRangeIter.Nth | src/models/state/wallet/address/key_iter.rs:86-88 | `nth(i)` is child i for every index. Within `first..=last` it is also what `next` yields at that position. The cursor is untouched. |
| KeyIter.SpendingKeyRangeIter.Next | src/models/state/wallet/address/key_iter.rs:93-101 | Yields child `curr` while `curr <= last` and advances; otherwise None. |
| KeyIter.SpendingKeyRangeIter.NextBack | src/models/state/wallet/address/key_iter.rs:111-120 | Equals `RangeIterNextBack` on the old state: child `curr` while `curr >= first`, with the cursor moved down and wrapping from 0 to `u64::MAX`. |
| SpendingKeyRange.New | src/models/state/wallet/address/spending_key_range.rs:33-40 | Stores the parent key, first and last unchanged. |
| SpendingKeyRange.Iter | src/models/state/wallet/address/spending_key_range.rs:42-45 | A range iterator over first..=last. |
| SpendingKeyRange.ParIter | src/models/state/wallet/address/spending_key_range.rs:47-50 | A range iterator over first..=last. |
| SpendingKeyRange.IntoIter | src/models/state/wallet/address/spending_key_range.rs:16-22 | A range iterator over 0..=last. |
| SpendingKeyRange.IntoParIter | src/models/state/wallet/address/spending_key_range.rs:24-31 | A range iterator over 0..=last. |
| SpendingKeyRange.IterCoversFirstToLast | src/models/state/wallet/address/spending_key_range.rs:42-50 | `iter` and `par_iter` yield child first+i for every first+i <= last, then None. |
| SpendingKeyRange.IntoIterCoversZeroToLast | src/models/state/wallet/address/spending_key_range.rs:16-31 | `into_iter` and `into_par_iter` yield children 0..=last and ignore `first`. |
| KnownKeys.New | src/models/state/wallet/address/known_keys.rs:33-39 | Stores the parent key and last known index unchanged. |
| KnownKeys.Iter | src/models/state/wallet/address/known_keys.rs:41-44 | A range iterator over 0..=last_known. |
| KnownKeys.IntoIter | src/models/state/wallet/address/known_keys.rs:15-21 | A range iterator over 0..=last_known. |
| KnownKeys.ParIter | src/models/state/wallet/address/known_keys.rs:46-49 | A range iterator over 0..=last_known. |
| KnownKeys.IterCoversZeroToLastKnown | src/models/state/wallet/address/known_keys.rs:15-49 | All three iterators yield children 0..=last_known, exactly last_known+1 keys, then None. |
| NeptuneCli.Split | src/bin/neptune-cli.rs:145-150 | Splitting yields at least one part, and no part contains the separator. |
| NeptuneCli.JoinSplit | src/bin/neptune-cli.rs:145-150 | Joining the parts with the separator gives back the string. |
| NeptuneCli.SplitJoin | src/bin/neptune-cli.rs:145-150 | Splitting a join of separator-free parts gives back the parts. |
| NeptuneCli.SplitCount | src/bin/neptune-cli.rs:145-150 | The number of parts is the number of separators plus one. |
| NeptuneCli.FromStr | src/bin/neptune-cli.rs:145-161 | InvalidTransactionOutput iff the parts are not 2 or 3. InvalidAmount iff part 1 does not parse. Otherwise address = part 0 and amount = parsed part 1; recipient = part 2, or "anonymous". |
| NeptuneCli.FromStrNeedsOneOrTwoColons | src/bin/neptune-cli.rs:145-150 | Accepted input has one or two colons. |
| NeptuneCli.FromStrThreeParts | src/bin/neptune-cli.rs:145-161 | `address:amount:recipient` parses back to exactly those three parts. |
| NeptuneCli.FromStrTwoParts | src/bin/neptune-cli.rs:145-161 | `address:amount` parses with recipient "anonymous". |
| NeptuneCli.ShortId | src/bin/neptune-cli.rs:78-88 | The address abbreviation for Generation, the receiver identifier for Symmetric. |
| NeptuneCli.DataFormat | src/bin/neptune-cli.rs:100-104 | The format tag "neptune-utxo-transfer-v1.0". |
| NeptuneCli.FileName | src/bin/neptune-cli.rs:792 | The transfer file name starts with the address's short id. |
| NeptuneCli.LabelOutputs | src/bin/neptune-cli.rs:640-697 | Outputs are paired with their metadata in order, as many pairs as the shorter list. The i-th supplied recipient labels pair i, and pairs beyond the recipients are labelled "self". More recipients than pairs is the `unreachable!()` arm, a precondition. |
| NeptuneCli.Relabel | src/bin/neptune-cli.rs:754-758 | A self-owned output labelled "anonymous" is relabelled exactly "self". Every other label is kept unchanged, including a self-owned output's named recipient. So a self-owned output is never left "anonymous". |
| NeptuneCli.SendLabelsChangeSelf | src/bin/neptune-cli.rs:640-654 | With one recipient, output 0 carries it and every later (change) output is "self". |
| NeptuneCli.TransferEntries | src/bin/neptune-cli.rs:746-771 | At most one entry per output. |
| NeptuneCli.TransferEntriesAreOffChainOutputs | src/bin/neptune-cli.rs:746-771 | The entries are exactly the off-chain-notified outputs, one each. A self-owned "anonymous" output is written for "self", and every other output keeps its label. |
| NeptuneCli.SendChangeFilesAreForSelf | src/bin/neptune-cli.rs:640-771 | Every off-chain change output of `send` becomes a transfer entry for "self". |
| RpcServer.InMemorySanctions | src/rpc_server.rs:411-425 | Only negative standings are collected. |
| RpcServer.AllSanctionedPeers | src/rpc_server.rs:411-435 | The two insertion loops compute exactly the in-memory sanctions merged with the database ones. |
| RpcServer.InMemorySanctionsAreLastNegative | src/rpc_server.rs:420-424 | An IP is sanctioned in memory iff some peer at it has a negative standing. The standing kept is the last such peer's. |
| RpcServer.InMemorySanctionsDomain | src/rpc_server.rs:420-424 | An IP is collected exactly when some connected peer at it has a negative standing. |
| RpcServer.InMemorySanctionsLastStanding | src/rpc_server.rs:420-424 | The standing collected for an IP is that of the last negatively standing peer at it. |
| RpcServer.MergeDatabaseKeepsPresent | src/rpc_server.rs:430-433 | A database entry is added only for an absent IP (the first database entry for it wins), and present entries are kept. |
| RpcServer.AllSanctionsCharacterised | src/rpc_server.rs:411-435 | An IP is sanctioned iff it is sanctioned in memory or listed in the database. In-memory standings win, otherwise the first database entry. |
| RpcServer.ClearStandingByIp | src/rpc_server.rs:632-645 | Only peers whose socket IP matches have their standing cleared; all others are unchanged. |
| RpcServer.ClearedIpNotSanctionedInMemory | src/rpc_server.rs:632-645 | After clearing an IP, that IP is not sanctioned in memory and the other IPs' sanctions are unchanged. |
| RpcServer.UtxoDigest | src/rpc_server.rs:341-349 | Some(leaf) iff `0 < leaf_index < leaf_count`. |
| RpcServer.UtxoDigestSkipsLeafZero | src/rpc_server.rs:345-348 | Leaf 0 is never returned, while the last leaf is. |
| RpcServer.Confirmations | src/rpc_server.rs:240-257 | None iff there is no latest balance height; otherwise latest + result = tip height. |
| RpcServer.ConfirmationsOfWallet | src/rpc_server.rs:240-257 | A wallet with no UTXOs has no confirmations, and one whose latest balance is at the tip has 0. |
| RpcServer.ValidateAmount | src/rpc_server.rs:459-472 | None iff parsing fails, else the parsed amount. |
| RpcServer.ValidateAmountAgreesWithCli | src/rpc_server.rs:459-472 | An amount validates iff the CLI accepts `address:amount`, and both give the same value. |
| RpcServer.Reorder | src/rpc_server.rs:557-561 | The tuple is reordered to (digest, height, time, amount) without changing a field. |
| RpcServer.Insert | src/rpc_server.rs:557-561 | Insertion adds exactly the one element. |
| RpcServer.History | src/rpc_server.rs:549-562 | The display history is the reordered entries sorted by height. |
| RpcServer.InsertSorted | src/rpc_server.rs:557-561 | Inserting into a height-sorted list keeps it sorted. |
| RpcServer.SortByHeight | src/rpc_server.rs:561 | The stable sort; `SortByHeightSortsAndPermutes` and `SortByHeightIsStable` state its meaning. |
| RpcServer.SortByHeightSortsAndPermutes | src/rpc_server.rs:557-561 | The result is sorted ascending by height and a permutation of the input. |
| RpcServer.SortByHeightIsStable | src/rpc_server.rs:557-561 | Entries of equal height keep their relative order, as `sort_by` guarantees. |
| RpcAuth.CookieFromBytes | src/rpc_auth.rs:81-85 | The cookie holds the bytes unchanged. |
| RpcAuth.TokenFromCookie | src/rpc_auth.rs:56-60 | The cookie wrapped as a cookie token. |
| RpcAuth.CookieAuth | src/rpc_auth.rs:117-122 | Ok iff the bytes are equal, else InvalidCookie. |
| RpcAuth.SameVariantTokens | src/rpc_auth.rs:40-53 | The valid tokens of the presented token's variant, drawn from the list, with the first one first. |
| RpcAuth.TokenAuth | src/rpc_auth.rs:40-53 | Requires a valid token of the same variant, as the code panics otherwise. Ok iff the cookie equals the first such token's, else InvalidCookie. |
| RpcAuth.TokenAuthUsesFirstOnly | src/rpc_auth.rs:40-53 | Appending further valid tokens changes no outcome, and a cookie is accepted iff it is the first one. |
| RpcAuth.CookieTokenRoundTrip | src/rpc_auth.rs:56-122 | A token made from the node's own cookie bytes is accepted, and any other is refused. |
| OverviewScreen.Place | src/bin/dashboard_src/overview_screen.rs:254-270 | The container's x and width, at the first unused row, of height min(requested, rows left), never below the container's bottom. |
| OverviewScreen.VerticalRectifier.constructor | src/bin/dashboard_src/overview_screen.rs:250-252 | Starts with y = 0. |
| OverviewScreen.VerticalRectifier.Next | src/bin/dashboard_src/overview_screen.rs:254-270 | Returns `Place(container, y, height)` and grows y by the returned height, so y never exceeds the container's height. |
| OverviewScreen.Layout | src/bin/dashboard_src/overview_screen.rs:254-270 | One rectangle per request. |
| OverviewScreen.LayoutStacksInsideContainer | src/bin/dashboard_src/overview_screen.rs:254-270 | Successive rows stack without gap or overlap, stay inside the container and are never taller than asked. When the requests fit, each gets exactly its height. |
| OverviewScreen.DashIfNotSet | src/bin/dashboard_src/overview_screen.rs:287-294 | None renders as "-", Some(x) as x's string form. |
| OverviewScreen.DashMeansUnknown | src/bin/dashboard_src/overview_screen.rs:287-294 | When no known value renders as "-", a dash means the value is unknown. |

## Left out

**Parameters and assumptions**

- Library code becomes function-valued parameters with no further
  assumption:
  - Tip5/Rescue hashing and the sampler;
  - MMR peak arithmetic and authentication-path verification;
  - node-index arithmetic;
  - STARK verification and the consensus programs' outputs;
  - `derive_child`, `PeerStanding::clear_standing` and `NeptuneCoins::from_str`.
- The clock becomes a `now` parameter: one value per call.
- `HashMap` contents are sequences or maps, in their iteration order.
- `into_range_iter` and `into_par_range_iter` are not part of this model.
  They are taken to yield `derive_child` over the range, as the range
  iterator does.
- Integers are unbounded. `u64`/`u128`/`usize` overflow is not modelled,
  except where it is a finding or a stated requirement.
- Panics are preconditions, except where an error result is the point.

**Members deliberately weaker or narrower**

- OverviewScreen.VerticalRectifier.Next: the `u16` additions, which would overflow, are excluded by preconditions instead of modelled as a wrap.
- RpcServer.History: the history is sorted into a new sequence by a stable insertion sort, not in place. It has the ordering and stability of `sort_by`, but not its in-place update.
- RpcServer.UtxoDigest: models the `0 < leaf_index` guard as written, which excludes leaf 0. Whether that is intended cannot be decided from the code alone.
- GlobalState.CreateTransaction: the symmetric-key change notification is `unimplemented!` in the code, so it is excluded by a precondition when change is due. The inputs are a parameter: the `?` error return of `allocate_sufficient_input_funds_from_lock` (not enough funds) is not modelled. The result is the `TransactionDetails` handed on; building the `Transaction` through `create_raw_transaction` and the prover is left out. Address generation and the notification payloads are left out too.
- GlobalState.GlobalState.PruneAbandonedMonitoredUtxos: "synced" and "was abandoned" are parameters. Their database lookups are not part of this model.
- Mining.Machine.HandleEvent: an `Advance` event off the happy path reaches `unreachable!()`, which is excluded by a precondition.
- TimeLock.Source: only the checking logic is modelled. The Triton assembly in `code` and the witness's non-determinism encoding are left out.
- KeyIter.RangeIterNextBack: `curr -= 1` at cursor 0 is modelled as a release build runs it, wrapping to `u64::MAX`; a debug build panics there instead.
- KeyIter.SpendingKeyRangeIter.NextBack: the same wrap as `RangeIterNextBack`, in place on the cursor.
- AccumulationScheme.SetCommitment.Remove: a bit beyond the window, or a chunk missing from the dictionary, is a panic. These are preconditions.

**Outside the model**

- Concurrency and locking (`atomic_mutex.rs`, `atomic_rw.rs`, the `GlobalStateLock` plumbing) and the job queues: their subject is scheduling by an external runtime.
- LevelDB persistence and the archival mutator set: disk I/O and serialization through unseen libraries.
- `expected_utxo.rs` and `utxo_transfer.rs`: thin wrappers over bech32, bincode and encryption in an address module that is not part of this model.
- The RPC transport, mempool and channel sends, and seed phrases.
- The CLI's stdin handling, its file writing, and the loop that avoids file-name collisions: I/O.
- The dashboard binary, the mock miner loop and networking state: I/O.
- Floating point and wall-clock display: `cpu_temp`, the f64 fields and polling loop of `OverviewData`, and `human_duration_secs`.
- Bech32m and hex address encodings: not part of this model.
- The indexed receiver-identifier matching in the wallet. Only its call site is visible, so its body is not part of this model.
- `block_header.rs`, `blockchain_state.rs`, `light_state.rs`, `kernel_to_typescripts.rs` (`todo!()`) and `compiled_program.rs`: field copies, accessors or no code.

## Findings

| source | as written | input that shows it | evidently intended | confidence | as-written member | corrected member |
|---|---|---|---|---|---|---|
| src/models/blockchain/digest.rs:43-54 | Element i is read from bytes `i*48..(i+1)*48` of a 48-byte array. | Any 48-byte array: at i = 1 the slice `48..96` is out of bounds and the conversion panics. | Element i is read from bytes `i*8..(i+1)*8`, the layout the conversion to bytes writes. | high, not executed | RescueDigest.FromBytesAsWritten | RescueDigest.FromBytes |
| src/util_types/mutator_set/accumulation_scheme.rs:273-274 | `remove` takes the window start as `(leaf_count / BATCH_SIZE) * CHUNK_SIZE`. | After 10 additions no slide has happened, yet `remove` uses window start 1500. It sets bit 1500 at window position 0, while `verify` reads it at position 1500, still unset. | `((leaf_count - 1) / BATCH_SIZE) * CHUNK_SIZE`, as `add`'s slides and `verify` imply. | high, not executed | AccumulationScheme.RemoveAsWrittenLeavesBitUnset | AccumulationScheme.SetCommitment.Remove |
| src/models/blockchain/transaction/validity/proof_collection.rs:130-135 | `can_produce` joins its six checks with `\|\|`. | A witness without lock scripts whose consensus programs all crash and whose type scripts all fail passes the check. | All six checks must hold (`&&`). | medium, not executed | ProofCollection.AsWrittenAcceptsCrashingWitness | ProofCollection.CanProduce |
| src/models/state/wallet/address/key_iter.rs:105-108 | The range iterator's `size_hint` is `last - first`. | first = last = 0: one key is yielded, but the hint says 0. | `last - first + 1` less the keys already yielded: the exact count the iterator is declared to report. | high, not executed | KeyIter.SizeHintAsWritten | KeyIter.SizeHint |
