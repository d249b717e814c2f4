// The wallet-facing parts of the node's global state: the monitored UTXOs
// and what is derived from them (balance history, latest balance height,
// pruning of UTXOs from abandoned chains), the pool of expected UTXOs, and
// the change and balance rules applied when a transaction is created.
module GlobalState {
  import opened Primitives
  import opened Wrappers
  import opened TransactionParams

  type BlockHeight = int

  /** The block a UTXO was confirmed in, spent in, or abandoned at: digest, timestamp, height. */
  datatype BlockInfo = BlockInfo(digest: Digest, timestamp: nat, height: BlockHeight)

  /**
   * A UTXO the wallet watches. `membershipProofBlocks` are the blocks for
   * which it holds a mutator-set membership proof.
   */
  datatype MonitoredUtxo = MonitoredUtxo(
    nativeAmount: int,
    membershipProofBlocks: set<Digest>,
    confirmedInBlock: Option<BlockInfo>,
    spentInBlock: Option<BlockInfo>,
    abandonedAt: Option<BlockInfo>)

  /** `get_membership_proof_for_block(block).is_some()`. */
  predicate HasProofFor(m: MonitoredUtxo, block: Digest)
  {
    block in m.membershipProofBlocks
  }

  datatype UtxoNotifier = OwnMiner | Cli | Myself | Premine

  datatype ExpectedUtxo = ExpectedUtxo(nativeAmount: int, senderRandomness: Digest, receiverPreimage: Digest,
                                       receivedFrom: UtxoNotifier)

  /** One line of the balance history: block digest, timestamp, height and the signed amount. */
  datatype HistoryEntry = HistoryEntry(block: Digest, timestamp: nat, height: BlockHeight, amount: int)

  // ---------------------------------------------------------------------
  // Latest balance height

  /** A UTXO whose confirmation counts: confirmed, with a proof for the tip. */
  predicate ConfirmedAtTip(m: MonitoredUtxo, tip: Digest)
  {
    m.confirmedInBlock.Some? && HasProofFor(m, tip)
  }

  predicate SpentAtTip(m: MonitoredUtxo, tip: Digest)
  {
    m.spentInBlock.Some? && HasProofFor(m, tip)
  }

  /** The confirmation height of the last monitored UTXO that is confirmed at the tip. */
  function LastConfirmed(s: seq<MonitoredUtxo>, tip: Digest): (r: Option<BlockHeight>)
    ensures r.None? <==> forall k :: 0 <= k < |s| ==> !ConfirmedAtTip(s[k], tip)
    ensures r.Some? ==> exists k :: 0 <= k < |s| && ConfirmedAtTip(s[k], tip) &&
                                    r.value == s[k].confirmedInBlock.value.height &&
                                    forall m :: k < m < |s| ==> !ConfirmedAtTip(s[m], tip)
  {
    if |s| == 0 then None
    else
      var rest := LastConfirmed(s[1..], tip);
      assert forall k :: 1 <= k < |s| ==> s[k] == s[1..][k - 1];
      if rest.Some? then
        assert exists k :: 0 <= k < |s| && ConfirmedAtTip(s[k], tip) &&
                           rest.value == s[k].confirmedInBlock.value.height &&
                           forall m :: k < m < |s| ==> !ConfirmedAtTip(s[m], tip) by {
          var k :| 0 <= k < |s[1..]| && ConfirmedAtTip(s[1..][k], tip) &&
                   rest.value == s[1..][k].confirmedInBlock.value.height &&
                   forall m :: k < m < |s[1..]| ==> !ConfirmedAtTip(s[1..][m], tip);
          assert ConfirmedAtTip(s[k + 1], tip);
        }
        rest
      else if ConfirmedAtTip(s[0], tip) then Some(s[0].confirmedInBlock.value.height)
      else None
  }

  /** The greatest spending height among monitored UTXOs that are spent at the tip. */
  function MaxSpent(s: seq<MonitoredUtxo>, tip: Digest): (r: Option<BlockHeight>)
    ensures r.None? <==> forall k :: 0 <= k < |s| ==> !SpentAtTip(s[k], tip)
    ensures r.Some? ==> exists k :: 0 <= k < |s| && SpentAtTip(s[k], tip) && r.value == s[k].spentInBlock.value.height
    ensures r.Some? ==> forall k :: 0 <= k < |s| && SpentAtTip(s[k], tip) ==> s[k].spentInBlock.value.height <= r.value
  {
    if |s| == 0 then None
    else
      var rest := MaxSpent(s[1..], tip);
      assert forall k :: 1 <= k < |s| ==> s[k] == s[1..][k - 1];
      if SpentAtTip(s[0], tip) && (rest.None? || rest.value < s[0].spentInBlock.value.height) then
        Some(s[0].spentInBlock.value.height)
      else
        assert rest.Some? ==> exists k :: 0 <= k < |s| && SpentAtTip(s[k], tip) && rest.value == s[k].spentInBlock.value.height by {
          if rest.Some? {
            var k :| 0 <= k < |s[1..]| && SpentAtTip(s[1..][k], tip) && rest.value == s[1..][k].spentInBlock.value.height;
            assert SpentAtTip(s[k + 1], tip);
          }
        }
        rest
  }

  /** `get_latest_balance_height`: `None` without monitored UTXOs, otherwise the larger of the two heights above. */
  function LatestBalanceHeight(s: seq<MonitoredUtxo>, tip: Digest): Option<BlockHeight>
  {
    if |s| == 0 then None else MaxOption(LastConfirmed(s, tip), MaxSpent(s, tip))
  }

  /** Monitored UTXOs are kept in ascending order of confirmation height. */
  predicate OrderedByConfirmation(s: seq<MonitoredUtxo>)
  {
    forall i, j :: 0 <= i < j < |s| && s[i].confirmedInBlock.Some? && s[j].confirmedInBlock.Some? ==>
      s[i].confirmedInBlock.value.height <= s[j].confirmedInBlock.value.height
  }

  /** With the UTXOs in confirmation order, the latest balance height is the maximum of every relevant confirmation and spending height. */
  lemma LatestBalanceHeightIsMaximum(s: seq<MonitoredUtxo>, tip: Digest)
    requires OrderedByConfirmation(s)
    ensures forall k :: 0 <= k < |s| && ConfirmedAtTip(s[k], tip) ==>
              LatestBalanceHeight(s, tip).Some? && s[k].confirmedInBlock.value.height <= LatestBalanceHeight(s, tip).value
    ensures forall k :: 0 <= k < |s| && SpentAtTip(s[k], tip) ==>
              LatestBalanceHeight(s, tip).Some? && s[k].spentInBlock.value.height <= LatestBalanceHeight(s, tip).value
    ensures LatestBalanceHeight(s, tip).Some? ==>
              exists k :: 0 <= k < |s| &&
                ((ConfirmedAtTip(s[k], tip) && LatestBalanceHeight(s, tip).value == s[k].confirmedInBlock.value.height) ||
                 (SpentAtTip(s[k], tip) && LatestBalanceHeight(s, tip).value == s[k].spentInBlock.value.height))
  {
    var c := LastConfirmed(s, tip);
    if c.Some? {
      var last :| 0 <= last < |s| && ConfirmedAtTip(s[last], tip) && c.value == s[last].confirmedInBlock.value.height &&
                  forall m :: last < m < |s| ==> !ConfirmedAtTip(s[m], tip);
      forall k | 0 <= k < |s| && ConfirmedAtTip(s[k], tip)
        ensures s[k].confirmedInBlock.value.height <= c.value
      {
        if k != last {
          assert k < last;
        }
      }
    }
  }

  // ---------------------------------------------------------------------
  // Balance history

  /** The history lines one monitored UTXO contributes. */
  function Entries(m: MonitoredUtxo, tip: Digest): seq<HistoryEntry>
  {
    if !HasProofFor(m, tip) || m.confirmedInBlock.None? then []
    else
      var c := m.confirmedInBlock.value;
      [HistoryEntry(c.digest, c.timestamp, c.height, m.nativeAmount)] +
      (if m.spentInBlock.None? then []
       else var sp := m.spentInBlock.value; [HistoryEntry(sp.digest, sp.timestamp, sp.height, -m.nativeAmount)])
  }

  function History(s: seq<MonitoredUtxo>, tip: Digest): seq<HistoryEntry>
  {
    if |s| == 0 then [] else History(s[..|s| - 1], tip) + Entries(s[|s| - 1], tip)
  }

  function SumAmounts(h: seq<HistoryEntry>): int
  {
    if |h| == 0 then 0 else SumAmounts(h[..|h| - 1]) + h[|h| - 1].amount
  }

  /** The balance the wallet holds at the tip: the amounts of confirmed, unspent UTXOs with a proof for the tip. */
  function UnspentBalance(s: seq<MonitoredUtxo>, tip: Digest): int
  {
    if |s| == 0 then 0
    else
      var m := s[|s| - 1];
      UnspentBalance(s[..|s| - 1], tip) + (if ConfirmedAtTip(m, tip) && m.spentInBlock.None? then m.nativeAmount else 0)
  }

  lemma {:induction false} SumAmountsAppend(a: seq<HistoryEntry>, b: seq<HistoryEntry>)
    ensures SumAmounts(a + b) == SumAmounts(a) + SumAmounts(b)
    decreases |b|
  {
    if |b| == 0 {
      assert a + b == a;
    } else {
      assert (a + b)[..|a + b| - 1] == a + b[..|b| - 1];
      SumAmountsAppend(a, b[..|b| - 1]);
    }
  }

  /** Summing the history's signed amounts gives the unspent balance: each spend cancels its confirmation. */
  lemma {:induction false} HistorySumsToBalance(s: seq<MonitoredUtxo>, tip: Digest)
    ensures SumAmounts(History(s, tip)) == UnspentBalance(s, tip)
    decreases |s|
  {
    if |s| > 0 {
      var m := s[|s| - 1];
      HistorySumsToBalance(s[..|s| - 1], tip);
      SumAmountsAppend(History(s[..|s| - 1], tip), Entries(m, tip));
      var e := Entries(m, tip);
      if |e| == 2 {
        assert e[..1] == [e[0]];
        assert SumAmounts(e) == SumAmounts(e[..1]) + e[1].amount;
      } else if |e| == 1 {
        assert SumAmounts(e) == SumAmounts(e[..0]) + e[0].amount;
      }
    }
  }

  // ---------------------------------------------------------------------
  // Pruning

  const MIN_BLOCK_DEPTH_FOR_MUTXO_PRUNING: nat := 10

  datatype PruneError = ThresholdTooLow(threshold: nat)

  // ---------------------------------------------------------------------
  // Expected UTXOs

  /**
   * Adding expected UTXOs one by one with `add`, which either yields the new
   * pool or an error; the first error stops the run and is returned together
   * with the pool as it was then.
   */
  function AddAll(add: (seq<ExpectedUtxo>, ExpectedUtxo) -> Result<seq<ExpectedUtxo>, string>,
                  pool: seq<ExpectedUtxo>, items: seq<ExpectedUtxo>): (r: (seq<ExpectedUtxo>, Result<(), string>))
    decreases |items|
  {
    if |items| == 0 then (pool, Ok(()))
    else match add(pool, items[0])
      case Err(e) => (pool, Err(e))
      case Ok(next) => AddAll(add, next, items[1..])
  }

  /** Adding `a + b` adds `a` and, only if that succeeded, then adds `b`. */
  lemma {:induction false} AddAllConcat(add: (seq<ExpectedUtxo>, ExpectedUtxo) -> Result<seq<ExpectedUtxo>, string>,
                                         pool: seq<ExpectedUtxo>, a: seq<ExpectedUtxo>, b: seq<ExpectedUtxo>)
    ensures AddAll(add, pool, a + b) ==
            (var ra := AddAll(add, pool, a); if ra.1.Err? then ra else AddAll(add, ra.0, b))
    decreases |a|
  {
    if |a| == 0 {
      assert a + b == b;
    } else {
      assert (a + b)[0] == a[0];
      assert (a + b)[1..] == a[1..] + b;
      match add(pool, a[0])
      case Err(e) =>
      case Ok(next) => AddAllConcat(add, next, a[1..], b);
    }
  }

  /** A rejected item leaves the pool exactly as the preceding items made it, and nothing after it is added. */
  lemma AddAllStopsAtFirstError(add: (seq<ExpectedUtxo>, ExpectedUtxo) -> Result<seq<ExpectedUtxo>, string>,
                                pool: seq<ExpectedUtxo>, items: seq<ExpectedUtxo>, k: nat)
    requires k < |items|
    requires AddAll(add, pool, items[..k]).1.Ok?
    requires add(AddAll(add, pool, items[..k]).0, items[k]).Err?
    ensures AddAll(add, pool, items) ==
            (AddAll(add, pool, items[..k]).0, Err(add(AddAll(add, pool, items[..k]).0, items[k]).error))
  {
    assert items == items[..k] + items[k..];
    AddAllConcat(add, pool, items[..k], items[k..]);
    assert items[k..][0] == items[k];
  }

  // ---------------------------------------------------------------------
  // Transaction details and change

  datatype TxDetailsError = NotEnoughAvailableFunds | MissingChangeOutput(diff: int)

  datatype TransactionDetails = TransactionDetails(txInputs: seq<TxInput>, txOutputs: seq<TxOutput>, fee: int, timestamp: Timestamp)

  /** `generate_tx_details_for_transaction`: only a transaction whose inputs exactly pay for its outputs and fee is accepted. */
  function GenerateTxDetailsForTransaction(txInputs: seq<TxInput>, txOutputs: seq<TxOutput>, fee: int, timestamp: Timestamp)
    : (r: Result<TransactionDetails, TxDetailsError>)
    ensures OutputsTotal(txOutputs) + fee > InputsTotal(txInputs) ==> r == Err(NotEnoughAvailableFunds)
    ensures OutputsTotal(txOutputs) + fee < InputsTotal(txInputs) ==>
              r == Err(MissingChangeOutput(OutputsTotal(txOutputs) + fee - InputsTotal(txInputs))) && r.error.diff < 0
    ensures r.Ok? <==> OutputsTotal(txOutputs) + fee == InputsTotal(txInputs)
    ensures r.Ok? ==> r.value == TransactionDetails(txInputs, txOutputs, fee, timestamp)
  {
    var totalSpend := OutputsTotal(txOutputs) + fee;
    var inputAmount := InputsTotal(txInputs);
    if totalSpend > inputAmount then Err(NotEnoughAvailableFunds)
    else if totalSpend < inputAmount then Err(MissingChangeOutput(totalSpend - inputAmount))
    else Ok(TransactionDetails(txInputs, txOutputs, fee, timestamp))
  }

  datatype UtxoNotifyMethod = OnChainPubKey | OnChainSymmetricKey | OffChain

  /**
   * The change rule of `create_transaction`: with `txInputs` as allocated for
   * the outputs plus the fee, one change output for the surplus is pushed
   * onto the outputs, then the details are generated. The symmetric-key
   * notification of change is unimplemented in the source and may not be
   * requested when change is due.
   */
  method CreateTransaction(txOutputs: seq<TxOutput>, txInputs: seq<TxInput>, changeNotifyMethod: UtxoNotifyMethod,
                           fee: int, timestamp: Timestamp)
    returns (outputs: seq<TxOutput>, r: Result<TransactionDetails, TxDetailsError>)
    requires OutputsTotal(txOutputs) + fee < InputsTotal(txInputs) ==> changeNotifyMethod != OnChainSymmetricKey
    ensures OutputsTotal(txOutputs) + fee < InputsTotal(txInputs) ==>
              outputs == txOutputs + [TxOutput(InputsTotal(txInputs) - (OutputsTotal(txOutputs) + fee))]
    ensures OutputsTotal(txOutputs) + fee >= InputsTotal(txInputs) ==> outputs == txOutputs
    ensures r == GenerateTxDetailsForTransaction(txInputs, outputs, fee, timestamp)
    ensures r.Ok? <==> OutputsTotal(txOutputs) + fee <= InputsTotal(txInputs)
  {
    var totalSpend := OutputsTotal(txOutputs) + fee;
    var inputAmount := InputsTotal(txInputs);
    outputs := txOutputs;
    if totalSpend < inputAmount {
      var amount := inputAmount - totalSpend;
      outputs := outputs + [TxOutput(amount)];
      assert OutputAmounts(outputs) == OutputAmounts(txOutputs) + [amount];
      SumAppend(OutputAmounts(txOutputs), amount);
    }
    r := GenerateTxDetailsForTransaction(txInputs, outputs, fee, timestamp);
  }

  // ---------------------------------------------------------------------
  // The state

  class GlobalState {
    var monitoredUtxos: seq<MonitoredUtxo>
    var expectedUtxos: seq<ExpectedUtxo>
    /** The tip of the light state: digest, timestamp and height. */
    const tip: BlockInfo
    /** `MonitoredUtxo::is_synced_to` and `was_abandoned` (the latter consults the archival state). */
    const isSyncedTo: (MonitoredUtxo, Digest) -> bool
    const wasAbandoned: (MonitoredUtxo, Digest) -> bool
    /** `ExpectedUtxos::add_expected_utxo`. */
    const addExpectedUtxo: (seq<ExpectedUtxo>, ExpectedUtxo) -> Result<seq<ExpectedUtxo>, string>

    /** `GlobalState::new`: the wallet state is stored as given, monitored and expected UTXOs alike. */
    constructor (monitoredUtxos: seq<MonitoredUtxo>, expectedUtxos: seq<ExpectedUtxo>, tip: BlockInfo,
                 isSyncedTo: (MonitoredUtxo, Digest) -> bool,
                 wasAbandoned: (MonitoredUtxo, Digest) -> bool,
                 addExpectedUtxo: (seq<ExpectedUtxo>, ExpectedUtxo) -> Result<seq<ExpectedUtxo>, string>)
      ensures this.monitoredUtxos == monitoredUtxos && this.expectedUtxos == expectedUtxos
      ensures this.tip == tip && this.isSyncedTo == isSyncedTo && this.wasAbandoned == wasAbandoned
      ensures this.addExpectedUtxo == addExpectedUtxo
    {
      this.monitoredUtxos := monitoredUtxos;
      this.expectedUtxos := expectedUtxos;
      this.tip := tip;
      this.isSyncedTo := isSyncedTo;
      this.wasAbandoned := wasAbandoned;
      this.addExpectedUtxo := addExpectedUtxo;
    }

    /** `get_latest_balance_height_internal`: one backward pass over the monitored UTXOs. */
    method GetLatestBalanceHeight() returns (r: Option<BlockHeight>)
      ensures r == LatestBalanceHeight(monitoredUtxos, tip.digest)
    {
      var utxos := monitoredUtxos;
      var currentTipDigest := tip.digest;
      if |utxos| == 0 {
        return None;
      }
      var maxSpentInBlock: Option<BlockHeight> := None;
      var maxConfirmedInBlock: Option<BlockHeight> := None;
      var i := |utxos|;
      while i > 0
        invariant 0 <= i <= |utxos|
        invariant maxConfirmedInBlock == LastConfirmed(utxos[i..], currentTipDigest)
        invariant maxSpentInBlock == MaxSpent(utxos[i..], currentTipDigest)
      {
        i := i - 1;
        var mutxo := utxos[i];
        assert utxos[i..][1..] == utxos[i + 1..];
        if maxConfirmedInBlock.None? {
          if mutxo.confirmedInBlock.Some? {
            if HasProofFor(mutxo, currentTipDigest) {
              maxConfirmedInBlock := Some(mutxo.confirmedInBlock.value.height);
            }
          }
        }
        if mutxo.spentInBlock.Some? {
          var spentInBlock := mutxo.spentInBlock.value.height;
          if HasProofFor(mutxo, currentTipDigest) && (maxSpentInBlock.None? || maxSpentInBlock.value < spentInBlock) {
            maxSpentInBlock := Some(spentInBlock);
          }
        }
      }
      r := MaxOption(maxConfirmedInBlock, maxSpentInBlock);
    }

    /** `get_balance_history`: one forward pass pushing each UTXO's lines. */
    method GetBalanceHistory() returns (history: seq<HistoryEntry>)
      ensures history == History(monitoredUtxos, tip.digest)
    {
      var utxos := monitoredUtxos;
      var currentTipDigest := tip.digest;
      history := [];
      for i := 0 to |utxos|
        invariant history == History(utxos[..i], currentTipDigest)
      {
        var monitoredUtxo := utxos[i];
        assert utxos[..i + 1][..i] == utxos[..i];
        if !HasProofFor(monitoredUtxo, currentTipDigest) {
          continue;
        }
        if monitoredUtxo.confirmedInBlock.Some? {
          var c := monitoredUtxo.confirmedInBlock.value;
          var amount := monitoredUtxo.nativeAmount;
          history := history + [HistoryEntry(c.digest, c.timestamp, c.height, amount)];
          if monitoredUtxo.spentInBlock.Some? {
            var sp := monitoredUtxo.spentInBlock.value;
            history := history + [HistoryEntry(sp.digest, sp.timestamp, sp.height, -amount)];
          }
        }
      }
      assert utxos[..|utxos|] == utxos;
    }

    /** Whether pruning marks `m`: unspent, not synced to the tip, not yet abandoned, confirmed at least `threshold` blocks deep, and on an abandoned chain. */
    predicate ShouldAbandon(m: MonitoredUtxo, threshold: nat)
    {
      && m.spentInBlock.None?
      && !isSyncedTo(m, tip.digest)
      && m.abandonedAt.None?
      && m.confirmedInBlock.Some?
      && tip.height - m.confirmedInBlock.value.height + 1 >= threshold
      && wasAbandoned(m, tip.digest)
    }

    function MarkAbandoned(m: MonitoredUtxo, threshold: nat): MonitoredUtxo
    {
      if ShouldAbandon(m, threshold) then m.(abandonedAt := Some(tip)) else m
    }

    function Pruned(s: seq<MonitoredUtxo>, threshold: nat): (r: seq<MonitoredUtxo>)
      ensures |r| == |s|
    {
      seq(|s|, i requires 0 <= i < |s| => MarkAbandoned(s[i], threshold))
    }

    function CountAbandoned(s: seq<MonitoredUtxo>, threshold: nat): (n: nat)
      ensures n <= |s|
    {
      if |s| == 0 then 0
      else CountAbandoned(s[..|s| - 1], threshold) + (if ShouldAbandon(s[|s| - 1], threshold) then 1 else 0)
    }

    /**
     * `prune_abandoned_monitored_utxos`: reject a threshold below the minimum;
     * otherwise mark every UTXO that should be abandoned with the tip and
     * return how many were marked.
     */
    method PruneAbandonedMonitoredUtxos(blockDepthThreshold: nat) returns (r: Result<nat, PruneError>)
      modifies this
      ensures blockDepthThreshold < MIN_BLOCK_DEPTH_FOR_MUTXO_PRUNING ==>
                r == Err(ThresholdTooLow(blockDepthThreshold)) && monitoredUtxos == old(monitoredUtxos)
      ensures blockDepthThreshold >= MIN_BLOCK_DEPTH_FOR_MUTXO_PRUNING ==>
                r == Ok(CountAbandoned(old(monitoredUtxos), blockDepthThreshold)) &&
                monitoredUtxos == Pruned(old(monitoredUtxos), blockDepthThreshold)
      ensures expectedUtxos == old(expectedUtxos)
    {
      if blockDepthThreshold < MIN_BLOCK_DEPTH_FOR_MUTXO_PRUNING {
        return Err(ThresholdTooLow(blockDepthThreshold));
      }
      var before := monitoredUtxos;
      var removedCount := 0;
      for i := 0 to |before|
        invariant |monitoredUtxos| == |before|
        invariant forall k :: 0 <= k < i ==> monitoredUtxos[k] == MarkAbandoned(before[k], blockDepthThreshold)
        invariant forall k :: i <= k < |before| ==> monitoredUtxos[k] == before[k]
        invariant removedCount == CountAbandoned(before[..i], blockDepthThreshold)
        invariant expectedUtxos == old(expectedUtxos)
      {
        var mutxo := monitoredUtxos[i];
        assert before[..i + 1][..i] == before[..i];
        if mutxo.spentInBlock.Some? || isSyncedTo(mutxo, tip.digest) || mutxo.abandonedAt.Some? {
          continue;
        }
        if mutxo.confirmedInBlock.Some? {
          var depth := tip.height - mutxo.confirmedInBlock.value.height + 1;
          var abandoned := depth >= blockDepthThreshold && wasAbandoned(mutxo, tip.digest);
          if abandoned {
            mutxo := mutxo.(abandonedAt := Some(tip));
            monitoredUtxos := monitoredUtxos[i := mutxo];
            removedCount := removedCount + 1;
          }
        }
      }
      assert before[..|before|] == before;
      r := Ok(removedCount);
    }

    /** Pruning touches only the UTXOs it counts, and only their `abandoned_at`, which it sets to the tip. */
    lemma PrunedChangesOnlyAbandoned(s: seq<MonitoredUtxo>, threshold: nat)
      ensures forall i :: 0 <= i < |s| ==>
                (Pruned(s, threshold)[i] != s[i] <==> ShouldAbandon(s[i], threshold))
      ensures forall i :: 0 <= i < |s| && ShouldAbandon(s[i], threshold) ==>
                Pruned(s, threshold)[i] == s[i].(abandonedAt := Some(tip))
    {
    }

    /** Pruning twice marks nothing the second time. */
    lemma {:induction false} PruneIdempotent(s: seq<MonitoredUtxo>, threshold: nat)
      ensures CountAbandoned(Pruned(s, threshold), threshold) == 0
      ensures Pruned(Pruned(s, threshold), threshold) == Pruned(s, threshold)
      decreases |s|
    {
      var p := Pruned(s, threshold);
      forall i | 0 <= i < |p|
        ensures !ShouldAbandon(p[i], threshold)
      {
      }
      NoneToCount(p, threshold);
    }

    lemma {:induction false} NoneToCount(s: seq<MonitoredUtxo>, threshold: nat)
      requires forall i :: 0 <= i < |s| ==> !ShouldAbandon(s[i], threshold)
      ensures CountAbandoned(s, threshold) == 0
      decreases |s|
    {
      if |s| > 0 {
        NoneToCount(s[..|s| - 1], threshold);
      }
    }

    /** `add_expected_utxos_to_wallet`: add in order, stopping at the first error. */
    method AddExpectedUtxosToWallet(expected: seq<ExpectedUtxo>) returns (r: Result<(), string>)
      modifies this
      ensures (expectedUtxos, r) == AddAll(addExpectedUtxo, old(expectedUtxos), expected)
      ensures monitoredUtxos == old(monitoredUtxos)
    {
      for i := 0 to |expected|
        invariant AddAll(addExpectedUtxo, expectedUtxos, expected[i..]) == AddAll(addExpectedUtxo, old(expectedUtxos), expected)
        invariant monitoredUtxos == old(monitoredUtxos)
      {
        var outcome := addExpectedUtxo(expectedUtxos, expected[i]);
        assert expected[i..][1..] == expected[i + 1..];
        if outcome.Err? {
          return Err(outcome.error);
        }
        expectedUtxos := outcome.value;
      }
      return Ok(());
    }
  }
}
