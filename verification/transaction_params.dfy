// The validated parameters of a transaction to be created: its input and
// output lists and its timestamp, accepted only when the inputs cover the
// outputs and every amount is strictly positive.
module TransactionParams {
  import opened Wrappers

  /** An input or output, reduced to the native-currency amount of its UTXO (signed, as `NeptuneCoins` can be). */
  datatype TxInput = TxInput(nativeAmount: int)
  datatype TxOutput = TxOutput(nativeAmount: int)

  datatype TxParamsError =
    | InsufficientInputs(inputsSum: int, outputsSum: int)
    | NegativeAmount
    | ZeroAmount

  /** A timestamp, in milliseconds since the Unix epoch. */
  type Timestamp = nat

  datatype TxParams = TxParams(txInputList: seq<TxInput>, txOutputList: seq<TxOutput>, timestamp: Timestamp)

  function Sum(amounts: seq<int>): int
  {
    if |amounts| == 0 then 0 else Sum(amounts[..|amounts| - 1]) + amounts[|amounts| - 1]
  }

  /** Appending an amount adds it to the sum. */
  lemma SumAppend(amounts: seq<int>, x: int)
    ensures Sum(amounts + [x]) == Sum(amounts) + x
  {
    assert (amounts + [x])[..|amounts|] == amounts;
  }

  function InputAmounts(inputs: seq<TxInput>): (r: seq<int>)
    ensures |r| == |inputs| && forall i :: 0 <= i < |inputs| ==> r[i] == inputs[i].nativeAmount
  {
    seq(|inputs|, i requires 0 <= i < |inputs| => inputs[i].nativeAmount)
  }

  function OutputAmounts(outputs: seq<TxOutput>): (r: seq<int>)
    ensures |r| == |outputs| && forall i :: 0 <= i < |outputs| ==> r[i] == outputs[i].nativeAmount
  {
    seq(|outputs|, i requires 0 <= i < |outputs| => outputs[i].nativeAmount)
  }

  /** `total_native_coins` of the input list and of the output list. */
  function InputsTotal(inputs: seq<TxInput>): int { Sum(InputAmounts(inputs)) }
  function OutputsTotal(outputs: seq<TxOutput>): int { Sum(OutputAmounts(outputs)) }

  /** The error for the first amount that is negative or zero, scanning in order; `None` when all are positive. */
  function FirstAmountError(amounts: seq<int>): (r: Option<TxParamsError>)
    ensures r.None? <==> forall k :: 0 <= k < |amounts| ==> amounts[k] > 0
    ensures r == Some(NegativeAmount) <==>
              exists k :: 0 <= k < |amounts| && amounts[k] < 0 && forall m :: 0 <= m < k ==> amounts[m] > 0
    ensures r == Some(ZeroAmount) <==>
              exists k :: 0 <= k < |amounts| && amounts[k] == 0 && forall m :: 0 <= m < k ==> amounts[m] > 0
    ensures r.None? || r == Some(NegativeAmount) || r == Some(ZeroAmount)
  {
    if |amounts| == 0 then None
    else if amounts[0] < 0 then Some(NegativeAmount)
    else if amounts[0] == 0 then Some(ZeroAmount)
    else
      var rest := FirstAmountError(amounts[1..]);
      assert forall k :: 1 <= k < |amounts| ==> amounts[k] == amounts[1..][k - 1];
      assert rest == Some(NegativeAmount) ==> exists k :: 0 <= k < |amounts| && amounts[k] < 0 && forall m :: 0 <= m < k ==> amounts[m] > 0 by {
        if rest == Some(NegativeAmount) {
          var k :| 0 <= k < |amounts[1..]| && amounts[1..][k] < 0 && forall m :: 0 <= m < k ==> amounts[1..][m] > 0;
          assert amounts[k + 1] < 0 && forall m :: 0 <= m < k + 1 ==> amounts[m] > 0;
        }
      }
      assert rest == Some(ZeroAmount) ==> exists k :: 0 <= k < |amounts| && amounts[k] == 0 && forall m :: 0 <= m < k ==> amounts[m] > 0 by {
        if rest == Some(ZeroAmount) {
          var k :| 0 <= k < |amounts[1..]| && amounts[1..][k] == 0 && forall m :: 0 <= m < k ==> amounts[1..][m] > 0;
          assert amounts[k + 1] == 0 && forall m :: 0 <= m < k + 1 ==> amounts[m] > 0;
        }
      }
      rest
  }

  /** The amounts in the order construction checks them: the inputs', then the outputs'. */
  function AllAmounts(txInputList: seq<TxInput>, txOutputList: seq<TxOutput>): seq<int>
  {
    InputAmounts(txInputList) + OutputAmounts(txOutputList)
  }

  /** All amounts checked are positive exactly when every input and every output amount is. */
  lemma AllAmountsPositive(txInputList: seq<TxInput>, txOutputList: seq<TxOutput>)
    ensures (forall k :: 0 <= k < |AllAmounts(txInputList, txOutputList)| ==> AllAmounts(txInputList, txOutputList)[k] > 0) <==>
              (forall i :: 0 <= i < |txInputList| ==> txInputList[i].nativeAmount > 0) &&
              (forall o :: 0 <= o < |txOutputList| ==> txOutputList[o].nativeAmount > 0)
  {
    var amounts := AllAmounts(txInputList, txOutputList);
    var n := |txInputList|;
    if forall k :: 0 <= k < |amounts| ==> amounts[k] > 0 {
      forall i | 0 <= i < n ensures txInputList[i].nativeAmount > 0 {
        assert amounts[i] == txInputList[i].nativeAmount;
      }
      forall o | 0 <= o < |txOutputList| ensures txOutputList[o].nativeAmount > 0 {
        assert amounts[n + o] == txOutputList[o].nativeAmount;
      }
    }
    if (forall i :: 0 <= i < n ==> txInputList[i].nativeAmount > 0) &&
       (forall o :: 0 <= o < |txOutputList| ==> txOutputList[o].nativeAmount > 0) {
      forall k | 0 <= k < |amounts| ensures amounts[k] > 0 {
        if k < n {
          assert amounts[k] == txInputList[k].nativeAmount;
        } else {
          assert amounts[k] == txOutputList[k - n].nativeAmount;
        }
      }
    }
  }

  /**
   * `new_with_timestamp`: insufficient inputs are reported first; then the
   * amounts of the inputs followed by those of the outputs are scanned and
   * the first negative or zero one is reported.
   */
  function NewWithTimestamp(txInputList: seq<TxInput>, txOutputList: seq<TxOutput>, timestamp: Timestamp)
    : (r: Result<TxParams, TxParamsError>)
    ensures InputsTotal(txInputList) < OutputsTotal(txOutputList) ==>
              r == Err(InsufficientInputs(InputsTotal(txInputList), OutputsTotal(txOutputList)))
    ensures r.Ok? <==> InputsTotal(txInputList) >= OutputsTotal(txOutputList) &&
                       (forall i :: 0 <= i < |txInputList| ==> txInputList[i].nativeAmount > 0) &&
                       (forall o :: 0 <= o < |txOutputList| ==> txOutputList[o].nativeAmount > 0)
    ensures r.Ok? ==> r.value == TxParams(txInputList, txOutputList, timestamp)
    ensures InputsTotal(txInputList) >= OutputsTotal(txOutputList) && r.Err? ==>
              Some(r.error) == FirstAmountError(AllAmounts(txInputList, txOutputList))
  {
    if InputsTotal(txInputList) < OutputsTotal(txOutputList) then
      Err(InsufficientInputs(InputsTotal(txInputList), OutputsTotal(txOutputList)))
    else
      var amounts := AllAmounts(txInputList, txOutputList);
      AllAmountsPositive(txInputList, txOutputList);
      match FirstAmountError(amounts)
      case Some(e) => Err(e)
      case None => Ok(TxParams(txInputList, txOutputList, timestamp))
  }

  /** A negative input amount is reported as such even when a zero amount follows it, and the inputs are scanned before the outputs. */
  lemma NegativeInputReportedFirst(txInputList: seq<TxInput>, txOutputList: seq<TxOutput>, timestamp: Timestamp)
    requires InputsTotal(txInputList) >= OutputsTotal(txOutputList)
    requires |txInputList| > 0 && txInputList[0].nativeAmount < 0
    ensures NewWithTimestamp(txInputList, txOutputList, timestamp) == Err(NegativeAmount)
  {
    var amounts := InputAmounts(txInputList) + OutputAmounts(txOutputList);
    assert amounts[0] < 0;
  }

  /** `fee`: inputs minus outputs. */
  function Fee(p: TxParams): int
  {
    InputsTotal(p.txInputList) - OutputsTotal(p.txOutputList)
  }

  /** Every value that construction returns holds exactly its arguments, has a non-negative fee and only positive amounts. */
  lemma ConstructedFeeNonNegative(txInputList: seq<TxInput>, txOutputList: seq<TxOutput>, timestamp: Timestamp)
    requires NewWithTimestamp(txInputList, txOutputList, timestamp).Ok?
    ensures var p := NewWithTimestamp(txInputList, txOutputList, timestamp).value;
            Fee(p) >= 0 && p.txInputList == txInputList && p.txOutputList == txOutputList && p.timestamp == timestamp
  {
  }

  /** The fields the deserializer reads before validating them. */
  datatype TxParamsShadow = TxParamsShadow(txInputList: seq<TxInput>, txOutputList: seq<TxOutput>, timestamp: Timestamp)

  /** `TryFrom<TxParamsShadow>`: deserialization accepts exactly what construction accepts. */
  function TryFrom(s: TxParamsShadow): (r: Result<TxParams, TxParamsError>)
    ensures r.Ok? ==> Fee(r.value) >= 0 && r.value == TxParams(s.txInputList, s.txOutputList, s.timestamp)
    ensures r.Err? ==> r == NewWithTimestamp(s.txInputList, s.txOutputList, s.timestamp)
  {
    NewWithTimestamp(s.txInputList, s.txOutputList, s.timestamp)
  }

  /** `new`: construction stamped with the current time, passed in as `now`. */
  function New(txInputList: seq<TxInput>, txOutputList: seq<TxOutput>, now: Timestamp): (r: Result<TxParams, TxParamsError>)
    ensures r.Ok? ==> r.value.timestamp == now && Fee(r.value) >= 0
  {
    NewWithTimestamp(txInputList, txOutputList, now)
  }
}
