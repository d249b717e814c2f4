// The command-line client's pure helpers: parsing `address:amount[:recipient]`
// outputs for `send-to-many`, naming UTXO-transfer files, and labelling each
// transaction output with the local recipient it is reported for.
module NeptuneCli {
  import opened Wrappers

  type String = seq<char>

  /** `NeptuneCoins::from_str`, which is not part of this model: `None` when the text is not an amount. */
  type AmountParser = String -> Option<int>

  // ---------------------------------------------------------------------
  // Splitting on a separator, as `str::split` does

  /** The pieces of `s` between occurrences of `sep`; there is always at least one (possibly empty) piece. */
  function Split(s: String, sep: char): (parts: seq<String>)
    ensures |parts| >= 1
    ensures forall i :: 0 <= i < |parts| ==> sep !in parts[i]
  {
    if |s| == 0 then [""]
    else
      var rest := Split(s[1..], sep);
      if s[0] == sep then [""] + rest
      else [[s[0]] + rest[0]] + rest[1..]
  }

  /** The pieces joined back together with `sep` between consecutive ones. */
  function Join(parts: seq<String>, sep: char): String
    requires |parts| >= 1
  {
    if |parts| == 1 then parts[0] else parts[0] + [sep] + Join(parts[1..], sep)
  }

  function Count(s: String, c: char): nat
  {
    if |s| == 0 then 0 else (if s[0] == c then 1 else 0) + Count(s[1..], c)
  }

  /** Splitting loses nothing: the pieces join back into the original text. */
  lemma {:induction false} JoinSplit(s: String, sep: char)
    ensures Join(Split(s, sep), sep) == s
  {
    if |s| > 0 {
      JoinSplit(s[1..], sep);
      var rest := Split(s[1..], sep);
      if s[0] != sep {
        if |rest| > 1 {
          assert ([s[0]] + rest[0]) + [sep] + Join(rest[1..], sep) == [s[0]] + (rest[0] + [sep] + Join(rest[1..], sep));
        }
      }
    }
  }

  /** Pieces free of the separator are recovered by splitting their join. */
  lemma {:induction false} SplitJoin(parts: seq<String>, sep: char)
    requires |parts| >= 1
    requires forall i :: 0 <= i < |parts| ==> sep !in parts[i]
    ensures Split(Join(parts, sep), sep) == parts
  {
    if |parts| == 1 {
      SplitFree(parts[0], sep);
    } else {
      SplitJoin(parts[1..], sep);
      SplitPrefix(parts[0], Join(parts[1..], sep), sep);
      assert [parts[0]] + parts[1..] == parts;
    }
  }

  /** Text without the separator is a single piece. */
  lemma {:induction false} SplitFree(s: String, sep: char)
    requires sep !in s
    ensures Split(s, sep) == [s]
  {
    if |s| > 0 {
      SplitFree(s[1..], sep);
      assert [s[0]] + s[1..] == s;
    }
  }

  /** A separator-free prefix followed by the separator becomes the first piece. */
  lemma {:induction false} SplitPrefix(a: String, b: String, sep: char)
    requires sep !in a
    ensures Split(a + [sep] + b, sep) == [a] + Split(b, sep)
  {
    if |a| == 0 {
      assert a + [sep] + b == [sep] + b;
      assert ([sep] + b)[1..] == b;
    } else {
      SplitPrefix(a[1..], b, sep);
      assert (a + [sep] + b)[1..] == a[1..] + [sep] + b;
      assert [a[0]] + a[1..] == a;
    }
  }

  /** There is one more piece than there are separators. */
  lemma {:induction false} SplitCount(s: String, sep: char)
    ensures |Split(s, sep)| == Count(s, sep) + 1
  {
    if |s| > 0 {
      SplitCount(s[1..], sep);
    }
  }

  // ---------------------------------------------------------------------
  // `TransactionOutput::from_str`

  datatype TransactionOutput = TransactionOutput(address: String, amount: int, recipient: String)

  datatype CliError =
    | InvalidTransactionOutput   // not two or three ':'-separated parts
    | InvalidAmount              // the amount part does not parse

  const ANONYMOUS: String := "anonymous"
  const SELF: String := "self"

  /**
   * `from_str`: the text must split on ':' into two or three parts; part 0 is
   * the address, part 1 the amount and part 2, when present, the recipient,
   * which otherwise is "anonymous".
   */
  function FromStr(parseAmount: AmountParser, s: String): (r: Result<TransactionOutput, CliError>)
    ensures var parts := Split(s, ':');
            && (r == Err(InvalidTransactionOutput) <==> |parts| != 2 && |parts| != 3)
            && (r == Err(InvalidAmount) <==> (|parts| == 2 || |parts| == 3) && parseAmount(parts[1]).None?)
            && (r.Ok? ==> r.value.address == parts[0] && Some(r.value.amount) == parseAmount(parts[1]))
            && (r.Ok? && |parts| == 3 ==> r.value.recipient == parts[2])
            && (r.Ok? && |parts| == 2 ==> r.value.recipient == ANONYMOUS)
  {
    var parts := Split(s, ':');
    if |parts| != 2 && |parts| != 3 then Err(InvalidTransactionOutput)
    else
      match parseAmount(parts[1])
      case None => Err(InvalidAmount)
      case Some(amount) => Ok(TransactionOutput(parts[0], amount, if |parts| == 3 then parts[2] else ANONYMOUS))
  }

  /** The text is accepted only when it holds one or two colons. */
  lemma FromStrNeedsOneOrTwoColons(parseAmount: AmountParser, s: String)
    ensures FromStr(parseAmount, s).Ok? ==> Count(s, ':') == 1 || Count(s, ':') == 2
  {
    SplitCount(s, ':');
  }

  /** `address:amount:recipient` parses back to its three fields. */
  lemma FromStrThreeParts(parseAmount: AmountParser, address: String, amountText: String, recipient: String, amount: int)
    requires ':' !in address && ':' !in amountText && ':' !in recipient
    requires parseAmount(amountText) == Some(amount)
    ensures FromStr(parseAmount, address + ":" + amountText + ":" + recipient) == Ok(TransactionOutput(address, amount, recipient))
  {
    var parts := [address, amountText, recipient];
    SplitJoin(parts, ':');
    assert Join(parts[2..], ':') == recipient;
    assert Join(parts, ':') == address + ":" + amountText + ":" + recipient;
  }

  /** `address:amount` parses to an output for the recipient "anonymous". */
  lemma FromStrTwoParts(parseAmount: AmountParser, address: String, amountText: String, amount: int)
    requires ':' !in address && ':' !in amountText
    requires parseAmount(amountText) == Some(amount)
    ensures FromStr(parseAmount, address + ":" + amountText) == Ok(TransactionOutput(address, amount, ANONYMOUS))
  {
    var parts := [address, amountText];
    SplitJoin(parts, ':');
    assert Join(parts[1..], ':') == amountText;
    assert Join(parts, ':') == address + ":" + amountText;
  }

  // ---------------------------------------------------------------------
  // Address display and transfer files

  /** The displayable forms of a receiving address; the bech32m and hex encodings that fill them are not part of this model. */
  datatype AddressEnum =
    | Generation(addressAbbrev: String, address: String)
    | Symmetric(privacyDigest: String, receiverIdentifier: String)

  /** `short_id`: the abbreviated address of a generation address, the receiver identifier of a symmetric one. */
  function ShortId(a: AddressEnum): (r: String)
    ensures a.Generation? ==> r == a.addressAbbrev
    ensures a.Symmetric? ==> r == a.receiverIdentifier
  {
    match a
    case Generation(addressAbbrev, _) => addressAbbrev
    case Symmetric(_, receiverIdentifier) => receiverIdentifier
  }

  /** `UtxoTransferEntry::data_format`: the version tag written into every transfer file. */
  function DataFormat(): (r: String)
    ensures r == "neptune-utxo-transfer-v1.0"
  {
    "neptune-utxo-transfer-v1.0"
  }

  /** The first file name tried for a transfer entry: `<short id>-<amount>.json`. */
  function FileName(a: AddressEnum, amountText: String): (r: String)
    ensures |r| == |ShortId(a)| + |amountText| + 6
    ensures r[..|ShortId(a)|] == ShortId(a)
  {
    ShortId(a) + "-" + amountText + ".json"
  }

  // ---------------------------------------------------------------------
  // Recipient labelling

  /** How the receiver learns of a UTXO; only the off-chain serialized kind produces a transfer file. `payload` stands for the UTXO transfer. */
  datatype UtxoNotification = OffChainSerialized(payload: nat) | OnChain

  datatype ReceivingAddress = ReceivingAddress(id: nat)

  datatype TxOutput = TxOutput(amount: int, notification: UtxoNotification)
  datatype TxOutputMeta = TxOutputMeta(selfOwned: bool, receivingAddress: ReceivingAddress)
  datatype OutputInfo = OutputInfo(output: TxOutput, meta: TxOutputMeta, recipient: String)

  /**
   * `Send`/`SendToMany`: outputs and their metadata zipped (the shorter
   * list decides the length), then zipped longest with the recipients given
   * on the command line; pairs beyond them (the change) are labelled
   * "self". More recipients than pairs reaches `unreachable!()`.
   */
  function LabelOutputs(outputs: seq<TxOutput>, metas: seq<TxOutputMeta>, recipients: seq<String>): (r: seq<OutputInfo>)
    requires |recipients| <= |outputs| && |recipients| <= |metas|
    ensures |r| == if |outputs| <= |metas| then |outputs| else |metas|
    ensures forall i :: 0 <= i < |r| ==> r[i].output == outputs[i] && r[i].meta == metas[i]
    ensures forall i :: 0 <= i < |recipients| ==> r[i].recipient == recipients[i]
    ensures forall i :: |recipients| <= i < |r| ==> r[i].recipient == SELF
  {
    if |outputs| == 0 || |metas| == 0 then []
    else
      var tag := if |recipients| > 0 then recipients[0] else SELF;
      [OutputInfo(outputs[0], metas[0], tag)]
        + LabelOutputs(outputs[1..], metas[1..], if |recipients| > 0 then recipients[1..] else [])
  }

  /** `Send` names one recipient: the first output goes to it, every further one (the change) to "self". */
  lemma SendLabelsChangeSelf(outputs: seq<TxOutput>, metas: seq<TxOutputMeta>, recipient: String)
    requires |outputs| >= 1 && |metas| >= 1
    ensures var r := LabelOutputs(outputs, metas, [recipient]);
            r[0].recipient == recipient && forall i :: 1 <= i < |r| ==> r[i].recipient == SELF
  {
  }

  /** A transfer file's content: receiving address, amount, transfer payload and recipient label. */
  datatype TransferEntry = TransferEntry(address: ReceivingAddress, amount: int, payload: nat, recipient: String)

  /** The label of an output: "anonymous" on an output the wallet owns itself becomes "self". */
  function Relabel(info: OutputInfo): (r: String)
    ensures info.meta.selfOwned && info.recipient == ANONYMOUS ==> r == SELF
    ensures !(info.meta.selfOwned && info.recipient == ANONYMOUS) ==> r == info.recipient
    ensures info.meta.selfOwned ==> r != ANONYMOUS
  {
    if info.meta.selfOwned && info.recipient == ANONYMOUS then SELF else info.recipient
  }

  /** The entry an off-chain serialized output is written as. */
  function EntryOf(info: OutputInfo): TransferEntry
    requires info.output.notification.OffChainSerialized?
  {
    TransferEntry(info.meta.receivingAddress, info.output.amount, info.output.notification.payload, Relabel(info))
  }

  /** `process_utxo_notifications`' `filter_map`: the entries to write, one per off-chain serialized output, in order. */
  function TransferEntries(infos: seq<OutputInfo>): (r: seq<TransferEntry>)
    ensures |r| <= |infos|
  {
    if |infos| == 0 then []
    else
      var last := infos[|infos| - 1];
      TransferEntries(infos[..|infos| - 1])
        + (if last.output.notification.OffChainSerialized? then [EntryOf(last)] else [])
  }

  function CountOffChain(infos: seq<OutputInfo>): nat
  {
    if |infos| == 0 then 0
    else CountOffChain(infos[..|infos| - 1]) + (if infos[|infos| - 1].output.notification.OffChainSerialized? then 1 else 0)
  }

  /**
   * The entries are exactly the off-chain serialized outputs: one entry per
   * such output, each entry comes from one of them, an output the wallet
   * owns that was labelled "anonymous" is written for "self", and every
   * other output keeps its label.
   */
  lemma {:induction false} TransferEntriesAreOffChainOutputs(infos: seq<OutputInfo>)
    ensures |TransferEntries(infos)| == CountOffChain(infos)
    ensures forall i :: 0 <= i < |infos| && infos[i].output.notification.OffChainSerialized? ==> EntryOf(infos[i]) in TransferEntries(infos)
    ensures forall e :: e in TransferEntries(infos) ==>
              exists i :: 0 <= i < |infos| && infos[i].output.notification.OffChainSerialized? && e == EntryOf(infos[i])
    ensures forall i :: 0 <= i < |infos| && infos[i].output.notification.OffChainSerialized? && infos[i].meta.selfOwned ==>
              EntryOf(infos[i]).recipient != ANONYMOUS
    ensures forall i :: 0 <= i < |infos| && infos[i].output.notification.OffChainSerialized? ==>
              EntryOf(infos[i]).recipient ==
                (if infos[i].meta.selfOwned && infos[i].recipient == ANONYMOUS then SELF else infos[i].recipient)
  {
    if |infos| > 0 {
      var init := infos[..|infos| - 1];
      TransferEntriesAreOffChainOutputs(init);
      forall e | e in TransferEntries(infos)
        ensures exists i :: 0 <= i < |infos| && infos[i].output.notification.OffChainSerialized? && e == EntryOf(infos[i])
      {
        if e in TransferEntries(init) {
          var i :| 0 <= i < |init| && init[i].output.notification.OffChainSerialized? && e == EntryOf(init[i]);
          assert infos[i] == init[i];
        } else {
          assert e == EntryOf(infos[|infos| - 1]);
        }
      }
      forall i | 0 <= i < |infos| && infos[i].output.notification.OffChainSerialized?
        ensures EntryOf(infos[i]) in TransferEntries(infos)
      {
        if i < |infos| - 1 {
          assert infos[i] == init[i];
        }
      }
    }
  }

  /** Change outputs of a `Send` that are reported off-chain are written for the recipient "self". */
  lemma SendChangeFilesAreForSelf(outputs: seq<TxOutput>, metas: seq<TxOutputMeta>, recipient: String, i: nat)
    requires 1 <= i < |outputs| && i < |metas|
    requires outputs[i].notification.OffChainSerialized?
    ensures var infos := LabelOutputs(outputs, metas, [recipient]);
            EntryOf(infos[i]).recipient == SELF && EntryOf(infos[i]) in TransferEntries(infos)
  {
    TransferEntriesAreOffChainOutputs(LabelOutputs(outputs, metas, [recipient]));
  }
}
