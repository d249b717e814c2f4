// The time-lock type script: coins carrying a release date that may only be
// spent by a transaction whose timestamp lies strictly after that date.
module TimeLock {
  import opened Primitives

  /** A coin: the digest of the type script that governs it and that script's state. */
  datatype Coin = Coin(typeScriptHash: Digest, state: seq<BFieldElement>)

  datatype Utxo = Utxo(coins: seq<Coin>)

  datatype SaltedUtxos = SaltedUtxos(utxos: seq<Utxo>, salt: seq<BFieldElement>)

  /**
   * What the script reads and what it relies on that lives outside it: the
   * Merkle authentication of the divined timestamp against the kernel hash,
   * the variable-length hash, and the hash of the salted UTXOs.
   */
  datatype ScriptEnvironment = ScriptEnvironment(
    merkleVerify: (Digest, nat, Digest, nat) -> bool,
    hashVarlen: seq<BFieldElement> -> Digest,
    hashSaltedUtxos: SaltedUtxos -> Digest)

  /** The kernel field that holds the timestamp, and the height of the kernel's Merkle tree. */
  const TIMESTAMP_LEAF_INDEX: nat := 5
  const KERNEL_TREE_HEIGHT: nat := 3

  /** `until`: a coin governed by the time lock whose whole state is the release date. */
  function Until(timeLockHash: Digest, date: BFieldElement): (c: Coin)
    ensures c.typeScriptHash == timeLockHash
    ensures |c.state| == 1 && c.state[0] == date
  {
    Coin(timeLockHash, [date])
  }

  // ---------------------------------------------------------------------
  // The checking logic of `source`

  /** A coin passes when another script governs it, or when its single state element is a date strictly before `timestamp`. */
  predicate CoinReleased(selfDigest: Digest, coin: Coin, timestamp: BFieldElement)
  {
    coin.typeScriptHash == selfDigest ==> |coin.state| == 1 && coin.state[0] < timestamp
  }

  predicate CoinsReleased(selfDigest: Digest, coins: seq<Coin>, timestamp: BFieldElement)
  {
    forall j :: 0 <= j < |coins| ==> CoinReleased(selfDigest, coins[j], timestamp)
  }

  predicate AllReleased(selfDigest: Digest, utxos: seq<Utxo>, timestamp: BFieldElement)
  {
    forall i :: 0 <= i < |utxos| ==> CoinsReleased(selfDigest, utxos[i].coins, timestamp)
  }

  /** The script halts gracefully exactly when the timestamp is authenticated, the inputs match their digest, and every time lock among the inputs has expired. */
  predicate Halts(env: ScriptEnvironment, selfDigest: Digest, txKernelDigest: Digest,
                  inputUtxosDigest: Digest, timestamp: BFieldElement, inputSaltedUtxos: SaltedUtxos)
  {
    && env.merkleVerify(txKernelDigest, TIMESTAMP_LEAF_INDEX, env.hashVarlen([timestamp]), KERNEL_TREE_HEIGHT)
    && env.hashSaltedUtxos(inputSaltedUtxos) == inputUtxosDigest
    && AllReleased(selfDigest, inputSaltedUtxos.utxos, timestamp)
  }

  /**
   * `source`: the script as run by the virtual machine, with a failed assertion
   * reported as `halts == false`. The digests read from standard input and the
   * values divined from secret input are parameters.
   */
  method Source(env: ScriptEnvironment, selfDigest: Digest, txKernelDigest: Digest,
                inputUtxosDigest: Digest, timestamp: BFieldElement, inputSaltedUtxos: SaltedUtxos)
    returns (halts: bool)
    ensures halts == Halts(env, selfDigest, txKernelDigest, inputUtxosDigest, timestamp, inputSaltedUtxos)
  {
    var leaf := env.hashVarlen([timestamp]);
    if !env.merkleVerify(txKernelDigest, TIMESTAMP_LEAF_INDEX, leaf, KERNEL_TREE_HEIGHT) {
      return false;
    }
    if env.hashSaltedUtxos(inputSaltedUtxos) != inputUtxosDigest {
      return false;
    }

    var inputUtxos := inputSaltedUtxos.utxos;
    var i := 0;
    while i < |inputUtxos|
      invariant 0 <= i <= |inputUtxos|
      invariant AllReleased(selfDigest, inputUtxos[..i], timestamp)
    {
      var coins := inputUtxos[i].coins;
      var j := 0;
      while j < |coins|
        invariant 0 <= j <= |coins|
        invariant CoinsReleased(selfDigest, coins[..j], timestamp)
      {
        var coin := coins[j];
        if coin.typeScriptHash == selfDigest {
          var state := coin.state;
          if |state| != 1 {
            return false;
          }
          var releaseDate := state[0];
          if !(releaseDate < timestamp) {
            return false;
          }
        }
        assert coins[..j + 1] == coins[..j] + [coin];
        j := j + 1;
      }
      assert coins[..j] == coins;
      assert inputUtxos[..i + 1] == inputUtxos[..i] + [inputUtxos[i]];
      i := i + 1;
    }
    assert inputUtxos[..i] == inputUtxos;
    return true;
  }

  /** Inputs that carry no time-lock coin at all always pass the release check. */
  lemma UnlockedInputsPass(selfDigest: Digest, utxos: seq<Utxo>, timestamp: BFieldElement)
    requires forall i, j :: 0 <= i < |utxos| && 0 <= j < |utxos[i].coins| ==>
               utxos[i].coins[j].typeScriptHash != selfDigest
    ensures AllReleased(selfDigest, utxos, timestamp)
  {
  }

  /** One time-lock coin with a malformed state, or with a date not before the timestamp, makes the script fail. */
  lemma LockedCoinFails(selfDigest: Digest, utxos: seq<Utxo>, timestamp: BFieldElement, i: nat, j: nat)
    requires i < |utxos| && j < |utxos[i].coins|
    requires utxos[i].coins[j].typeScriptHash == selfDigest
    requires |utxos[i].coins[j].state| != 1 || utxos[i].coins[j].state[0] >= timestamp
    ensures !AllReleased(selfDigest, utxos, timestamp)
  {
    assert !CoinReleased(selfDigest, utxos[i].coins[j], timestamp);
  }

  // ---------------------------------------------------------------------
  // Release dates of a primitive witness

  /** The state of the first coin governed by the time lock, if any. */
  function FirstTimeLockState(timeLockHash: Digest, coins: seq<Coin>): (r: seq<BFieldElement>)
    ensures (forall j :: 0 <= j < |coins| ==> coins[j].typeScriptHash != timeLockHash) ==> r == []
    ensures forall j :: 0 <= j < |coins| && coins[j].typeScriptHash == timeLockHash &&
                        (forall k :: 0 <= k < j ==> coins[k].typeScriptHash != timeLockHash) ==>
                        r == coins[j].state
  {
    if |coins| == 0 then []
    else if coins[0].typeScriptHash == timeLockHash then coins[0].state
    else FirstTimeLockState(timeLockHash, coins[1..])
  }

  /** The release date of one input: the first state element of its first time-lock coin, 0 when there is none or its state is empty. */
  function ReleaseDate(timeLockHash: Digest, utxo: Utxo): BFieldElement
  {
    var state := FirstTimeLockState(timeLockHash, utxo.coins);
    if |state| == 0 then 0 else state[0]
  }

  /** `From<PrimitiveWitness> for TimeLockWitness`: one release date per input UTXO. */
  function ReleaseDates(timeLockHash: Digest, utxos: seq<Utxo>): (dates: seq<BFieldElement>)
    ensures |dates| == |utxos|
    ensures forall i :: 0 <= i < |utxos| ==> dates[i] == ReleaseDate(timeLockHash, utxos[i])
  {
    seq(|utxos|, i requires 0 <= i < |utxos| => ReleaseDate(timeLockHash, utxos[i]))
  }

  /** Every input that passes the script and holds a time lock was released strictly before the timestamp. */
  lemma HaltingMeansReleased(timeLockHash: Digest, utxos: seq<Utxo>, timestamp: BFieldElement, i: nat)
    requires AllReleased(timeLockHash, utxos, timestamp)
    requires i < |utxos|
    requires exists j :: 0 <= j < |utxos[i].coins| && utxos[i].coins[j].typeScriptHash == timeLockHash
    ensures ReleaseDates(timeLockHash, utxos)[i] < timestamp
  {
    var coins := utxos[i].coins;
    var j :| 0 <= j < |coins| && coins[j].typeScriptHash == timeLockHash;
    var first := FirstIndex(timeLockHash, coins, j);
    assert FirstTimeLockState(timeLockHash, coins) == coins[first].state;
    assert CoinReleased(timeLockHash, coins[first], timestamp);
  }

  /** The least index of a time-lock coin, given that one exists at `j`. */
  function FirstIndex(timeLockHash: Digest, coins: seq<Coin>, j: nat): (k: nat)
    requires j < |coins| && coins[j].typeScriptHash == timeLockHash
    ensures k <= j && coins[k].typeScriptHash == timeLockHash
    ensures forall m :: 0 <= m < k ==> coins[m].typeScriptHash != timeLockHash
  {
    if coins[0].typeScriptHash == timeLockHash then 0
    else 1 + FirstIndex(timeLockHash, coins[1..], j - 1)
  }

  // ---------------------------------------------------------------------
  // How the tests build their witnesses

  /** Push `until(date)` onto each input whose date is non-zero, as the witness generator does. */
  function WithTimeLocks(timeLockHash: Digest, utxos: seq<Utxo>, dates: seq<BFieldElement>): (r: seq<Utxo>)
    requires |dates| == |utxos|
    ensures |r| == |utxos|
    ensures forall i :: 0 <= i < |utxos| ==>
              r[i].coins == utxos[i].coins + (if dates[i] == 0 then [] else [Until(timeLockHash, dates[i])])
  {
    seq(|utxos|, i requires 0 <= i < |utxos| =>
      Utxo(utxos[i].coins + (if dates[i] == 0 then [] else [Until(timeLockHash, dates[i])])))
  }

  predicate NoTimeLockCoins(timeLockHash: Digest, utxos: seq<Utxo>)
  {
    forall i, j :: 0 <= i < |utxos| && 0 <= j < |utxos[i].coins| ==>
      utxos[i].coins[j].typeScriptHash != timeLockHash
  }

  lemma FirstTimeLockStateOfAppended(timeLockHash: Digest, coins: seq<Coin>, extra: seq<Coin>)
    requires forall j :: 0 <= j < |coins| ==> coins[j].typeScriptHash != timeLockHash
    ensures FirstTimeLockState(timeLockHash, coins + extra) == FirstTimeLockState(timeLockHash, extra)
    decreases |coins|
  {
    if |coins| > 0 {
      assert (coins + extra)[1..] == coins[1..] + extra;
      FirstTimeLockStateOfAppended(timeLockHash, coins[1..], extra);
    } else {
      assert coins + extra == extra;
    }
  }

  /** The release dates recovered from a generated witness are the dates it was generated from. */
  lemma {:induction false} ReleaseDatesOfGenerated(timeLockHash: Digest, utxos: seq<Utxo>, dates: seq<BFieldElement>)
    requires |dates| == |utxos|
    requires NoTimeLockCoins(timeLockHash, utxos)
    ensures ReleaseDates(timeLockHash, WithTimeLocks(timeLockHash, utxos, dates)) == dates
  {
    var r := WithTimeLocks(timeLockHash, utxos, dates);
    forall i | 0 <= i < |utxos|
      ensures ReleaseDate(timeLockHash, r[i]) == dates[i]
    {
      var extra := if dates[i] == 0 then [] else [Until(timeLockHash, dates[i])];
      FirstTimeLockStateOfAppended(timeLockHash, utxos[i].coins, extra);
    }
  }

  /** The release check on a generated witness passes exactly when every non-zero date lies strictly before the timestamp. */
  lemma {:induction false} GeneratedReleased(timeLockHash: Digest, utxos: seq<Utxo>, dates: seq<BFieldElement>,
                                              timestamp: BFieldElement)
    requires |dates| == |utxos|
    requires NoTimeLockCoins(timeLockHash, utxos)
    ensures AllReleased(timeLockHash, WithTimeLocks(timeLockHash, utxos, dates), timestamp) <==>
            (forall i :: 0 <= i < |dates| && dates[i] != 0 ==> dates[i] < timestamp)
  {
    var r := WithTimeLocks(timeLockHash, utxos, dates);
    if forall i :: 0 <= i < |dates| && dates[i] != 0 ==> dates[i] < timestamp {
      forall i, j | 0 <= i < |r| && 0 <= j < |r[i].coins|
        ensures CoinReleased(timeLockHash, r[i].coins[j], timestamp)
      {
        if j >= |utxos[i].coins| {
          assert r[i].coins[j] == Until(timeLockHash, dates[i]);
        } else {
          assert r[i].coins[j] == utxos[i].coins[j];
        }
      }
    } else {
      var i :| 0 <= i < |dates| && dates[i] != 0 && !(dates[i] < timestamp);
      var j := |utxos[i].coins|;
      assert r[i].coins[j] == Until(timeLockHash, dates[i]);
      assert !CoinReleased(timeLockHash, r[i].coins[j], timestamp);
    }
  }

  /** The three test scenarios: zero dates and past dates halt, a future date fails. */
  lemma TestScenarios(timeLockHash: Digest, utxos: seq<Utxo>, dates: seq<BFieldElement>, timestamp: BFieldElement)
    requires |dates| == |utxos| && |utxos| >= 1
    requires NoTimeLockCoins(timeLockHash, utxos)
    ensures (forall i :: 0 <= i < |dates| ==> dates[i] == 0) ==>
              AllReleased(timeLockHash, WithTimeLocks(timeLockHash, utxos, dates), timestamp)
    ensures (forall i :: 0 <= i < |dates| ==> dates[i] < timestamp) ==>
              AllReleased(timeLockHash, WithTimeLocks(timeLockHash, utxos, dates), timestamp)
    ensures (forall i :: 0 <= i < |dates| ==> dates[i] > timestamp) ==>
              !AllReleased(timeLockHash, WithTimeLocks(timeLockHash, utxos, dates), timestamp)
  {
    GeneratedReleased(timeLockHash, utxos, dates, timestamp);
    if forall i :: 0 <= i < |dates| ==> dates[i] > timestamp {
      assert dates[0] != 0 && !(dates[0] < timestamp);
    }
  }
}
