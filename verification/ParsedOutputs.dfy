/** What parsing a transaction does to the rows of its own outputs (main/tasks.py:
    parse_tx_wallet_histories; main/utils/queries/parse_utils.py: extract_tx_utxos). */
module ParsedOutputs {
  import opened Prelude
  import opened Ledger
  import opened UtxoSync
  import opened ParsedInputs

  /** Every output with an address becomes a part, and nothing else does. */
  lemma {:induction false} OutputUtxosMembers(txid: string, outputs: seq<Output>, part: ParsedUtxo)
    ensures part in OutputUtxos(txid, outputs) <==>
              part.output in outputs && part.output.address != "" && part == ParsedUtxo(false, txid, part.output)
  {
    if outputs != [] {
      OutputUtxosMembers(txid, outputs[..|outputs| - 1], part);
      assert outputs == outputs[..|outputs| - 1] + [outputs[|outputs| - 1]];
    }
  }

  // ---------- The loop, on a key that no input has ----------

  ghost predicate NoInputHas(utxos: seq<ParsedUtxo>, key: Key) {
    forall k | 0 <= k < |utxos| && utxos[k].isInput :: OutpointOf(utxos[k]) != (key.txid, key.index)
  }

  ghost predicate SavesAt(subscribed: set<string>, wallets: set<string>, utxos: seq<ParsedUtxo>, i: nat, saved: bool,
                          k: int, key: Key)
  {
    && i <= k < |utxos| && KeyOfPart(utxos[k]) == key
    && Passes(subscribed, wallets, utxos[k], Forced(utxos, i, saved, k))
  }

  ghost predicate Saves(subscribed: set<string>, wallets: set<string>, utxos: seq<ParsedUtxo>, i: nat, saved: bool,
                        key: Key)
  {
    exists k :: SavesAt(subscribed, wallets, utxos, i, saved, k, key)
  }

  lemma SavesStep(subscribed: set<string>, wallets: set<string>, utxos: seq<ParsedUtxo>, i: nat, saved: bool, key: Key)
    requires i < |utxos|
    ensures Saves(subscribed, wallets, utxos, i, saved, key) <==>
              SavesAt(subscribed, wallets, utxos, i, saved, i, key)
              || Saves(subscribed, wallets, utxos, i + 1, saved || !utxos[i].isInput, key)
  {
    forall k | i < k < |utxos|
      ensures SavesAt(subscribed, wallets, utxos, i, saved, k, key) <==>
                SavesAt(subscribed, wallets, utxos, i + 1, saved || !utxos[i].isInput, k, key)
    {
      LaterForced(utxos, i, saved, k);
    }
    if Saves(subscribed, wallets, utxos, i, saved, key) {
      var k :| SavesAt(subscribed, wallets, utxos, i, saved, k, key);
      assert k == i || i < k < |utxos|;
    }
    if Saves(subscribed, wallets, utxos, i + 1, saved || !utxos[i].isInput, key) {
      var k :| SavesAt(subscribed, wallets, utxos, i + 1, saved || !utxos[i].isInput, k, key);
      assert SavesAt(subscribed, wallets, utxos, i, saved, k, key);
    }
  }

  lemma RecordUnfold(t: Table, subscribed: set<string>, wallets: set<string>, utxos: seq<ParsedUtxo>, i: nat,
                     saved: bool)
    requires i < |utxos|
    ensures RecordUtxos(t, subscribed, wallets, utxos, i, saved)
         == RecordUtxos(AfterPart(t, subscribed, wallets, utxos, i, saved), subscribed, wallets, utxos, i + 1,
                        saved || !utxos[i].isInput)
  {
    if i + 1 == |utxos| {
    } else if PassesOver(t, wallets, utxos[i]) {
    }
  }

  lemma PartOnKey(t: Table, subscribed: set<string>, wallets: set<string>, utxos: seq<ParsedUtxo>, i: nat, saved: bool,
                  key: Key, value: int)
    requires Valid(t) && i < |utxos| && NoInputHas(utxos, key)
    requires KeyOfPart(utxos[i]) == key ==> utxos[i].output.value == value
    ensures var t1 := AfterPart(t, subscribed, wallets, utxos, i, saved);
            && Valid(t1)
            && (HasKey(t1, key) <==> HasKey(t, key) || SavesAt(subscribed, wallets, utxos, i, saved, i, key))
            && (HasValue(t, key, value) || SavesAt(subscribed, wallets, utxos, i, saved, i, key) ==>
                  HasValue(t1, key, value))
  {
    var part := utxos[i];
    var force := i + 1 == |utxos| && !saved;
    assert Forced(utxos, i, saved, i) <==> force;
    var request := OutputRequest(part.output, part.txid, None, "", force);
    SaveKeepsValid(t, subscribed, request);
    SaveOnKey(t, subscribed, request, key);
    if HasValue(t, key, value) {
      SaveKeepsValue(t, subscribed, request, key, value);
    }
    if Accepts(subscribed, request) {
      SaveSetsValue(t, subscribed, request);
    }
  }

  /** After the loop the key has a row exactly when it had one or some part of it was saved; and then
      the row has the value that the parts give it. */
  lemma {:induction false} RecordOnKey(t: Table, subscribed: set<string>, wallets: set<string>, utxos: seq<ParsedUtxo>,
                                       i: nat, saved: bool, key: Key, value: int)
    requires Valid(t) && i <= |utxos| && NoInputHas(utxos, key)
    requires forall k | 0 <= k < |utxos| && KeyOfPart(utxos[k]) == key :: utxos[k].output.value == value
    ensures var after := RecordUtxos(t, subscribed, wallets, utxos, i, saved);
            && (HasKey(after, key) <==> HasKey(t, key) || Saves(subscribed, wallets, utxos, i, saved, key))
            && (HasValue(t, key, value) || Saves(subscribed, wallets, utxos, i, saved, key) ==>
                  HasValue(after, key, value))
    decreases |utxos| - i
  {
    if i < |utxos| {
      PartOnKey(t, subscribed, wallets, utxos, i, saved, key, value);
      RecordUnfold(t, subscribed, wallets, utxos, i, saved);
      SavesStep(subscribed, wallets, utxos, i, saved, key);
      RecordOnKey(AfterPart(t, subscribed, wallets, utxos, i, saved), subscribed, wallets, utxos, i + 1,
                  saved || !utxos[i].isInput, key, value);
    }
  }

  // ---------- One parse ----------

  /** The output is forced in: it is the only one with an address, and no row of the transaction
      was known. */
  ghost predicate IsSole(t: Table, tx: ParsedTx, txid: string) {
    !HasTxid(t, txid) && |OutputUtxos(tx.txid, tx.outputs)| == 1
  }

  lemma PartKinds(tx: ParsedTx)
    ensures var utxos := ExtractUtxos(tx);
            forall k | 0 <= k < |utxos| :: utxos[k].isInput <==> k < |InputUtxos(tx.inputs)|
  {
    var utxos, inputs, outputs := ExtractUtxos(tx), InputUtxos(tx.inputs), OutputUtxos(tx.txid, tx.outputs);
    forall k | 0 <= k < |utxos|
      ensures utxos[k].isInput <==> k < |inputs|
    {
      if k < |inputs| {
        assert inputs[k] in inputs;
        InputUtxosMembers(tx.inputs, inputs[k]);
      } else {
        assert outputs[k - |inputs|] in outputs;
        OutputUtxosMembers(tx.txid, tx.outputs, outputs[k - |inputs|]);
      }
    }
  }

  lemma ForcedOutput(t: Table, tx: ParsedTx, txid: string, k: nat)
    requires k < |ExtractUtxos(tx)| && !ExtractUtxos(tx)[k].isInput
    ensures ExtractUtxos(tx)[k] in OutputUtxos(tx.txid, tx.outputs)
    ensures Forced(ExtractUtxos(tx), 0, HasTxid(t, txid), k) <==> IsSole(t, tx, txid)
  {
    var utxos, inputs, outputs := ExtractUtxos(tx), InputUtxos(tx.inputs), OutputUtxos(tx.txid, tx.outputs);
    PartKinds(tx);
    assert utxos[k] == outputs[k - |inputs|];
    if |outputs| > 1 && k == |utxos| - 1 {
      assert !utxos[|inputs|].isInput;
    }
  }

  /** The output reaches the ledger: it has an address that is subscribed, or it is forced in. */
  ghost predicate Reaches(t: Table, subscribed: set<string>, tx: ParsedTx, txid: string, o: Output) {
    o in tx.outputs && o.address != "" && (o.address in subscribed || IsSole(t, tx, txid))
  }

  lemma OutputIsPart(tx: ParsedTx, o: Output) returns (k: nat)
    requires o in tx.outputs && o.address != ""
    ensures k < |ExtractUtxos(tx)| && ExtractUtxos(tx)[k] == ParsedUtxo(false, tx.txid, o)
  {
    var part, inputs, outputs := ParsedUtxo(false, tx.txid, o), InputUtxos(tx.inputs), OutputUtxos(tx.txid, tx.outputs);
    OutputUtxosMembers(tx.txid, tx.outputs, part);
    var j :| 0 <= j < |outputs| && outputs[j] == part;
    k := |inputs| + j;
  }

  lemma SavesExactlyReaching(t: Table, subscribed: set<string>, wallets: set<string>, tx: ParsedTx, txid: string,
                             key: Key)
    requires key.txid == tx.txid && (key.txid, key.index) !in Outpoints(tx.inputs)
    ensures NoInputHas(ExtractUtxos(tx), key)
    ensures Saves(subscribed, wallets, ExtractUtxos(tx), 0, HasTxid(t, txid), key) <==>
              exists o :: Reaches(t, subscribed, tx, txid, o) && key == Key(tx.txid, o.address, o.index)
  {
    var utxos, saved := ExtractUtxos(tx), HasTxid(t, txid);
    InputUtxosAreInputs(tx.inputs);
    forall k | 0 <= k < |utxos| && utxos[k].isInput
      ensures OutpointOf(utxos[k]) in Outpoints(tx.inputs)
    {
      PartKinds(tx);
      assert utxos[k] in InputUtxos(tx.inputs);
    }
    if Saves(subscribed, wallets, utxos, 0, saved, key) {
      var k :| SavesAt(subscribed, wallets, utxos, 0, saved, k, key);
      ForcedOutput(t, tx, txid, k);
      OutputUtxosMembers(tx.txid, tx.outputs, utxos[k]);
      assert Reaches(t, subscribed, tx, txid, utxos[k].output);
    }
    forall o | Reaches(t, subscribed, tx, txid, o) && key == Key(tx.txid, o.address, o.index)
      ensures Saves(subscribed, wallets, utxos, 0, saved, key)
    {
      var k := OutputIsPart(tx, o);
      ForcedOutput(t, tx, txid, k);
      assert SavesAt(subscribed, wallets, utxos, 0, saved, k, key);
    }
  }

  /** Outputs of one key have one value, and a transaction does not spend its own outputs. */
  ghost predicate IsOutputKey(tx: ParsedTx, key: Key, value: int) {
    && key.txid == tx.txid && (key.txid, key.index) !in Outpoints(tx.inputs)
    && forall o | o in tx.outputs && key == Key(tx.txid, o.address, o.index) :: o.value == value
  }

  /** A parse gives an output of its transaction a row exactly when it had one, or has a subscribed
      address, or is forced in; and an output that is saved has its value there. */
  lemma OutputRecordedExactly(t: Table, histories: set<string>, subscribed: set<string>, world: World, txid: string,
                              key: Key, value: int)
    requires Valid(t) && txid !in histories && CanParse(world, txid)
    requires IsOutputKey(world.node[txid], key, value)
    ensures var tx, after := world.node[txid], Parse(t, histories, subscribed, world, txid);
            var reaches := exists o :: Reaches(t, subscribed, tx, txid, o) && key == Key(tx.txid, o.address, o.index);
            && (HasKey(after, key) <==> HasKey(t, key) || reaches)
            && (reaches ==> HasValue(after, key, value))
  {
    var tx := world.node[txid];
    var marked := MarkSpent(t, Outpoints(tx.inputs), tx.txid);
    MarkSpentKeepsValid(t, Outpoints(tx.inputs), tx.txid);
    MarkedKeepsKeys(t, Outpoints(tx.inputs), tx.txid);
    SavesExactlyReaching(t, subscribed, world.walletAddresses, tx, txid, key);
    PartsHaveValue(tx, key, value);
    RecordOnKey(marked, subscribed, world.walletAddresses, ExtractUtxos(tx), 0, HasTxid(t, txid), key, value);
  }

  lemma PartsHaveValue(tx: ParsedTx, key: Key, value: int)
    requires IsOutputKey(tx, key, value) && NoInputHas(ExtractUtxos(tx), key)
    ensures var utxos := ExtractUtxos(tx);
            forall k | 0 <= k < |utxos| && KeyOfPart(utxos[k]) == key :: utxos[k].output.value == value
  {
    var utxos := ExtractUtxos(tx);
    forall k | 0 <= k < |utxos| && KeyOfPart(utxos[k]) == key
      ensures utxos[k].output.value == value
    {
      assert !utxos[k].isInput;
      ForcedOutput(EMPTY_TABLE, tx, "", k);
      OutputUtxosMembers(tx.txid, tx.outputs, utxos[k]);
    }
  }

  // ---------- A whole run ----------

  lemma {:induction false} RecordKeepsKey(t: Table, subscribed: set<string>, wallets: set<string>,
                                          utxos: seq<ParsedUtxo>, i: nat, saved: bool, key: Key)
    requires Valid(t) && i <= |utxos| && HasKey(t, key)
    ensures HasKey(RecordUtxos(t, subscribed, wallets, utxos, i, saved), key)
    decreases |utxos| - i
  {
    if i < |utxos| {
      var force := i + 1 == |utxos| && !saved;
      var request := OutputRequest(utxos[i].output, utxos[i].txid, None, "", force);
      SaveOnKey(t, subscribed, request, key);
      SaveKeepsValid(t, subscribed, request);
      RecordUnfold(t, subscribed, wallets, utxos, i, saved);
      RecordKeepsKey(AfterPart(t, subscribed, wallets, utxos, i, saved), subscribed, wallets, utxos, i + 1,
                     saved || !utxos[i].isInput, key);
    }
  }

  lemma ParseKeepsKey(t: Table, histories: set<string>, subscribed: set<string>, world: World, txid: string, key: Key)
    requires Valid(t) && HasKey(t, key)
    ensures HasKey(Parse(t, histories, subscribed, world, txid), key)
  {
    if txid !in histories && CanParse(world, txid) {
      var tx := world.node[txid];
      var marked := MarkSpent(t, Outpoints(tx.inputs), tx.txid);
      MarkSpentKeepsValid(t, Outpoints(tx.inputs), tx.txid);
      MarkedKeepsKeys(t, Outpoints(tx.inputs), tx.txid);
      RecordKeepsKey(marked, subscribed, world.walletAddresses, ExtractUtxos(tx), 0, HasTxid(marked, txid), key);
    }
  }

  lemma FreshKeepsKey(t: Table, subscribed: set<string>, address: string, utxo: Utxo, key: Key)
    requires Valid(t) && HasKey(t, key)
    ensures HasKey(RecordFresh(t, subscribed, address, utxo), key)
  {
    var output := Output(utxo.txPos, address, utxo.value, utxo.token);
    SaveOnKey(t, subscribed, OutputRequest(output, utxo.txHash, Some(utxo.height), "", false), key);
    if HasKey(t, KeyOf(address, utxo)) {
      assert RecordFresh(t, subscribed, address, utxo).rows[IdOf(t, key)].key == key;
    }
  }

  /** A row that a run has stays through its later rounds, and through the final marking. */
  lemma {:induction false} LaterRoundsKeepKey(s: Sync, n: nat, m: nat, key: Key)
    requires Valid(s.start) && n <= m <= |s.snapshot| && HasKey(s.After(n), key)
    ensures HasKey(s.After(m), key)
    decreases m
  {
    if n < m {
      LaterRoundsKeepKey(s, n, m - 1, key);
      RoundKeepsKey(s, m - 1, key);
    }
  }

  lemma RoundKeepsKey(s: Sync, i: nat, key: Key)
    requires Valid(s.start) && i < |s.snapshot| && HasKey(s.After(i), key)
    ensures HasKey(s.After(i + 1), key)
  {
    var earlier, utxo := s.After(i), s.snapshot[i];
    SyncedKeepsValid(s.start, s.histories, s.subscribed, s.world, s.address, s.snapshot[..i]);
    FreshKeepsKey(earlier, s.subscribed, s.address, utxo, key);
    FreshKeepsValid(earlier, s.subscribed, s.address, utxo);
    ParseKeepsKey(RecordFresh(earlier, s.subscribed, s.address, utxo),
                  HistoriesAfterAll(s.histories, s.world, s.snapshot[..i]), s.subscribed, s.world, utxo.txHash, key);
    RoundOf(s.start, s.histories, s.subscribed, s.world, s.address, s.snapshot, i);
  }

  /** A completed run has a row for every output to a subscribed address of every transaction that it
      parsed, whether the node lists that output or not. */
  lemma CompletedRecordsOutputs(s: Sync, i: nat, o: Output)
    requires Valid(s.start) && i < |s.snapshot| && s.Parses(i)
    requires var tx := s.world.node[s.snapshot[i].txHash];
             && o in tx.outputs && o.address != "" && o.address in s.subscribed
             && IsOutputKey(tx, Key(tx.txid, o.address, o.index), o.value)
    ensures HasKey(FinalTable(s), Key(s.world.node[s.snapshot[i].txHash].txid, o.address, o.index))
  {
    var utxo, earlier := s.snapshot[i], s.After(i);
    var tx := s.world.node[utxo.txHash];
    var key := Key(tx.txid, o.address, o.index);
    var before := RecordFresh(earlier, s.subscribed, s.address, utxo);
    SyncedKeepsValid(s.start, s.histories, s.subscribed, s.world, s.address, s.snapshot[..i]);
    FreshKeepsValid(earlier, s.subscribed, s.address, utxo);
    assert Reaches(before, s.subscribed, tx, utxo.txHash, o);
    OutputRecordedExactly(before, HistoriesAfterAll(s.histories, s.world, s.snapshot[..i]), s.subscribed, s.world,
                          utxo.txHash, key, o.value);
    RoundOf(s.start, s.histories, s.subscribed, s.world, s.address, s.snapshot, i);
    LaterRoundsKeepKey(s, i + 1, |s.snapshot|, key);
    assert s.snapshot[..|s.snapshot|] == s.snapshot;
    var final := s.After(|s.snapshot|);
    assert FinalTable(s).rows[IdOf(final, key)].key == key;
  }
}
