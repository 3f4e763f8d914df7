/** Saving the transactions of a block (main/tasks.py: save_transaction, the loop of manage_blocks). */
module BlockScan {
  import opened Prelude
  import opened Ledger
  import opened UtxoSync

  predicate IsCoinbase(tx: ParsedTx) {
    tx.inputs != [] && tx.inputs[0].Coinbase?
  }

  ghost function SaveOutputs(t: Table, subscribed: set<string>, outputs: seq<Output>, txid: string,
                             height: Option<nat>): Table
  {
    if outputs == [] then t
    else SaveOutput(SaveOutputs(t, subscribed, outputs[..|outputs| - 1], txid, height), subscribed,
                    outputs[|outputs| - 1], txid, height, "", false)
  }

  /** A known txid only gets the height; a coinbase is skipped; other outputs are saved. */
  ghost function SaveTx(t: Table, subscribed: set<string>, tx: ParsedTx, height: Option<nat>): Table {
    if HasTxid(t, tx.txid) then
      if height.Some? then t.(rows := SetHeight(t.rows, tx.txid, height.value)) else t
    else if IsCoinbase(tx) then t
    else SaveOutputs(t, subscribed, tx.outputs, tx.txid, height)
  }

  ghost function ScanTxs(t: Table, subscribed: set<string>, txs: seq<ParsedTx>, height: nat): Table {
    if txs == [] then t
    else SaveTx(ScanTxs(t, subscribed, txs[..|txs| - 1], height), subscribed, txs[|txs| - 1], Some(height))
  }

  method SaveTransaction(ledger: TransactionLedger, tx: ParsedTx, height: Option<nat>)
    requires Valid(ledger.Rows())
    modifies ledger`rows, ledger`nextId
    ensures Valid(ledger.Rows())
    ensures ledger.Rows() == old(SaveTx(ledger.Rows(), ledger.subscribed, tx, height))
  {
    ghost var before := ledger.Rows();
    if HasTxid(Table(ledger.rows, ledger.nextId), tx.txid) {
      if height.Some? {
        ledger.rows := SetHeight(ledger.rows, tx.txid, height.value);
      }
      return;
    }
    if |tx.inputs| > 0 && tx.inputs[0].Coinbase? {
      return;
    }
    for i := 0 to |tx.outputs|
      invariant Valid(ledger.Rows())
      invariant ledger.Rows() == SaveOutputs(before, ledger.subscribed, tx.outputs[..i], tx.txid, height)
    {
      assert tx.outputs[..i + 1][..i] == tx.outputs[..i];
      var _, _ := ledger.ProcessOutput(tx.outputs[i], tx.txid, height, false, "", None, true);
    }
    assert tx.outputs[..|tx.outputs|] == tx.outputs;
  }

  /** The processing loop over a block's transactions. */
  method ScanBlock(ledger: TransactionLedger, txs: seq<ParsedTx>, height: nat)
    requires Valid(ledger.Rows())
    modifies ledger`rows, ledger`nextId
    ensures Valid(ledger.Rows())
    ensures ledger.Rows() == old(ScanTxs(ledger.Rows(), ledger.subscribed, txs, height))
  {
    ghost var before := ledger.Rows();
    for i := 0 to |txs|
      invariant Valid(ledger.Rows())
      invariant ledger.Rows() == ScanTxs(before, ledger.subscribed, txs[..i], height)
    {
      assert txs[..i + 1][..i] == txs[..i];
      SaveTransaction(ledger, txs[i], Some(height));
    }
    assert txs[..|txs|] == txs;
  }

  // ---------- Coverage ----------

  ghost predicate Stamped(t: Table, txid: string, height: nat) {
    forall id | id in t.rows && t.rows[id].key.txid == txid :: t.rows[id].height == Some(height)
  }

  ghost predicate PaysSubscribed(tx: ParsedTx, subscribed: set<string>) {
    exists o | o in tx.outputs :: o.address != "" && o.address in subscribed
  }

  /** Only rows of the txid were written or added, and no row was removed. */
  ghost predicate WritesOnly(before: Table, after: Table, txid: string) {
    && (forall id | id in before.rows :: id in after.rows && after.rows[id].key == before.rows[id].key)
    && (forall id | id in after.rows && after.rows[id].key.txid != txid ::
          id in before.rows && after.rows[id] == before.rows[id])
  }

  lemma SaveWritesOnly(t: Table, subscribed: set<string>, request: SaveRequest)
    requires Valid(t)
    ensures WritesOnly(t, Save(t, subscribed, request), request.key.txid)
  {
    if Accepts(subscribed, request) {
      var after, id := Save(t, subscribed, request), KeyId(t, request.key);
      SaveSetsRow(t, subscribed, request);
      forall other
        ensures other in t.rows && other != id ==>
                  after.rows[other].key == t.rows[other].key
                  && (t.rows[other].key.txid != request.key.txid ==> after.rows[other] == t.rows[other])
        ensures other in after.rows ==> other in t.rows || other == id
      {
        SaveTouchesOneRow(t, subscribed, request, other);
      }
    }
  }

  lemma WritesOnlyChains(a: Table, b: Table, c: Table, txid: string)
    requires WritesOnly(a, b, txid) && WritesOnly(b, c, txid)
    ensures WritesOnly(a, c, txid)
  {
  }

  lemma {:induction false} SaveOutputsKeeps(t: Table, subscribed: set<string>, outputs: seq<Output>, txid: string,
                                            height: Option<nat>)
    requires Valid(t)
    ensures Valid(SaveOutputs(t, subscribed, outputs, txid, height))
    ensures WritesOnly(t, SaveOutputs(t, subscribed, outputs, txid, height), txid)
  {
    if outputs != [] {
      var front, last := outputs[..|outputs| - 1], outputs[|outputs| - 1];
      SaveOutputsKeeps(t, subscribed, front, txid, height);
      var t1 := SaveOutputs(t, subscribed, front, txid, height);
      var request := OutputRequest(last, txid, height, "", false);
      SaveKeepsValid(t1, subscribed, request);
      SaveWritesOnly(t1, subscribed, request);
      WritesOnlyChains(t, t1, SaveOutputs(t, subscribed, outputs, txid, height), txid);
    }
  }

  lemma {:induction false} SaveOutputsStamps(t: Table, subscribed: set<string>, outputs: seq<Output>, txid: string,
                                             height: nat)
    requires Valid(t) && Stamped(t, txid, height)
    ensures Stamped(SaveOutputs(t, subscribed, outputs, txid, Some(height)), txid, height)
  {
    if outputs != [] {
      SaveOutputsStamps(t, subscribed, outputs[..|outputs| - 1], txid, height);
    }
  }

  /** Exactly the subscribed outputs get a row, besides those that had one. */
  lemma {:induction false} SaveOutputsKeys(t: Table, subscribed: set<string>, outputs: seq<Output>, txid: string,
                                           height: Option<nat>, key: Key)
    requires Valid(t)
    ensures HasKey(SaveOutputs(t, subscribed, outputs, txid, height), key) <==>
              HasKey(t, key) || exists o :: o in outputs && o.address != "" && o.address in subscribed
                                            && key == Key(txid, o.address, o.index)
  {
    if outputs != [] {
      var front, last := outputs[..|outputs| - 1], outputs[|outputs| - 1];
      SaveOutputsKeys(t, subscribed, front, txid, height, key);
      SaveOutputsKeeps(t, subscribed, front, txid, height);
      var t1 := SaveOutputs(t, subscribed, front, txid, height);
      SaveOutputAddsKey(t1, subscribed, last, txid, height, key);
      assert forall o :: o in outputs <==> o in front || o == last by {
        assert outputs == front + [last];
      }
    }
  }

  lemma SaveOutputAddsKey(t: Table, subscribed: set<string>, output: Output, txid: string, height: Option<nat>,
                          key: Key)
    requires Valid(t)
    ensures HasKey(SaveOutput(t, subscribed, output, txid, height, "", false), key) <==>
              HasKey(t, key) || (output.address != "" && output.address in subscribed
                                 && key == Key(txid, output.address, output.index))
  {
    var after := SaveOutput(t, subscribed, output, txid, height, "", false);
    if HasKey(t, key) {
      var id := IdOf(t, key);
      assert id in after.rows && after.rows[id].key == key;
    }
    if output.address != "" && output.address in subscribed {
      var request := OutputRequest(output, txid, height, "", false);
      SaveSetsRow(t, subscribed, request);
    }
  }

  lemma SaveTxKeepsValid(t: Table, subscribed: set<string>, tx: ParsedTx, height: Option<nat>)
    requires Valid(t)
    ensures Valid(SaveTx(t, subscribed, tx, height))
  {
    SaveOutputsKeeps(t, subscribed, tx.outputs, tx.txid, height);
  }

  /** A saved transaction that pays a subscribed address has a row, and all its rows the height. */
  lemma SaveTxCovers(t: Table, subscribed: set<string>, tx: ParsedTx, height: nat)
    requires Valid(t)
    ensures var after := SaveTx(t, subscribed, tx, Some(height));
            && Stamped(after, tx.txid, height)
            && (!IsCoinbase(tx) && PaysSubscribed(tx, subscribed) ==> HasTxid(after, tx.txid))
  {
    var after := SaveTx(t, subscribed, tx, Some(height));
    if HasTxid(t, tx.txid) {
      var id :| id in t.rows && t.rows[id].key.txid == tx.txid;
      assert after.rows[id].key.txid == tx.txid;
    } else if !IsCoinbase(tx) {
      SaveOutputsStamps(t, subscribed, tx.outputs, tx.txid, height);
      if PaysSubscribed(tx, subscribed) {
        var o :| o in tx.outputs && o.address != "" && o.address in subscribed;
        SaveOutputsKeys(t, subscribed, tx.outputs, tx.txid, Some(height), Key(tx.txid, o.address, o.index));
      }
    }
  }

  lemma SaveTxKeepsTxid(t: Table, subscribed: set<string>, tx: ParsedTx, height: nat, txid: string)
    requires Valid(t) && HasTxid(t, txid)
    ensures HasTxid(SaveTx(t, subscribed, tx, Some(height)), txid)
  {
    SaveOutputsKeeps(t, subscribed, tx.outputs, tx.txid, Some(height));
    var id :| id in t.rows && t.rows[id].key.txid == txid;
    var after := SaveTx(t, subscribed, tx, Some(height));
    assert id in after.rows && after.rows[id].key.txid == txid;
  }

  /** Saving a transaction leaves the rows of every other one alone, and removes none. */
  lemma SaveTxLeavesOthers(t: Table, subscribed: set<string>, tx: ParsedTx, height: nat, txid: string)
    requires Valid(t) && Stamped(t, txid, height)
    ensures var after := SaveTx(t, subscribed, tx, Some(height));
            Stamped(after, txid, height) && (HasTxid(t, txid) ==> HasTxid(after, txid))
  {
    var after := SaveTx(t, subscribed, tx, Some(height));
    SaveOutputsKeeps(t, subscribed, tx.outputs, tx.txid, Some(height));
    if tx.txid == txid {
      SaveTxCovers(t, subscribed, tx, height);
    }
    if HasTxid(t, txid) {
      SaveTxKeepsTxid(t, subscribed, tx, height, txid);
    }
  }

  lemma {:induction false} ScanKeepsValid(t: Table, subscribed: set<string>, txs: seq<ParsedTx>, height: nat)
    requires Valid(t)
    ensures Valid(ScanTxs(t, subscribed, txs, height))
  {
    if txs != [] {
      ScanKeepsValid(t, subscribed, txs[..|txs| - 1], height);
      SaveTxKeepsValid(ScanTxs(t, subscribed, txs[..|txs| - 1], height), subscribed, txs[|txs| - 1], Some(height));
    }
  }

  /** A txid that has a row keeps one, whatever is scanned. */
  lemma {:induction false} ScanKeepsTxid(t: Table, subscribed: set<string>, txs: seq<ParsedTx>, height: nat,
                                         txid: string)
    requires Valid(t) && HasTxid(t, txid)
    ensures HasTxid(ScanTxs(t, subscribed, txs, height), txid)
  {
    if txs != [] {
      var front, last := txs[..|txs| - 1], txs[|txs| - 1];
      ScanKeepsValid(t, subscribed, front, height);
      ScanKeepsTxid(t, subscribed, front, height, txid);
      SaveTxKeepsTxid(ScanTxs(t, subscribed, front, height), subscribed, last, height, txid);
    }
  }

  /** Rows of a txid keep a height through scans at that height, and through scans of blocks that do
      not hold the txid. */
  lemma {:induction false} ScanKeepsStamp(t: Table, subscribed: set<string>, txs: seq<ParsedTx>, scanned: nat,
                                          txid: string, height: nat)
    requires Valid(t) && Stamped(t, txid, height)
    requires scanned == height || forall tx | tx in txs :: tx.txid != txid
    ensures Stamped(ScanTxs(t, subscribed, txs, scanned), txid, height)
  {
    if txs != [] {
      var front, last := txs[..|txs| - 1], txs[|txs| - 1];
      ScanKeepsValid(t, subscribed, front, scanned);
      ScanKeepsStamp(t, subscribed, front, scanned, txid, height);
      var t1 := ScanTxs(t, subscribed, front, scanned);
      if scanned == height {
        SaveTxLeavesOthers(t1, subscribed, last, height, txid);
      } else {
        assert last in txs;
        SaveOutputsKeeps(t1, subscribed, last.outputs, last.txid, Some(scanned));
      }
    }
  }

  /** After a block is scanned, every transaction of it that is no coinbase and pays a subscribed
      address has a row, and every row of every transaction of the block has its height. */
  lemma {:induction false} ScannedBlockIsCovered(t: Table, subscribed: set<string>, txs: seq<ParsedTx>, height: nat,
                                                 i: nat)
    requires Valid(t) && i < |txs|
    ensures var after := ScanTxs(t, subscribed, txs, height);
            && Stamped(after, txs[i].txid, height)
            && (!IsCoinbase(txs[i]) && PaysSubscribed(txs[i], subscribed) ==> HasTxid(after, txs[i].txid))
  {
    var front, last := txs[..|txs| - 1], txs[|txs| - 1];
    ScanKeepsValid(t, subscribed, front, height);
    var t1 := ScanTxs(t, subscribed, front, height);
    if i < |front| {
      ScannedBlockIsCovered(t, subscribed, front, height, i);
      SaveTxLeavesOthers(t1, subscribed, last, height, txs[i].txid);
    } else {
      SaveTxCovers(t1, subscribed, last, height);
    }
  }

  /** One row per transaction is all that is promised: a subscribed output has its own row
      exactly when it had one, or the transaction was unknown and is no coinbase. */
  lemma OutputRecordedExactlyWhenTxUnknown(t: Table, subscribed: set<string>, tx: ParsedTx, height: Option<nat>,
                                           o: Output)
    requires Valid(t) && o in tx.outputs && o.address != "" && o.address in subscribed
    ensures var key := Key(tx.txid, o.address, o.index);
            HasKey(SaveTx(t, subscribed, tx, height), key) <==>
              HasKey(t, key) || (!HasTxid(t, tx.txid) && !IsCoinbase(tx))
  {
    var key := Key(tx.txid, o.address, o.index);
    var after := SaveTx(t, subscribed, tx, height);
    SaveOutputsKeys(t, subscribed, tx.outputs, tx.txid, height, key);
    if HasTxid(t, tx.txid) {
      if HasKey(t, key) {
        assert after.rows[IdOf(t, key)].key == key;
      }
      if HasKey(after, key) {
        assert t.rows[IdOf(after, key)].key == key;
      }
    }
  }

  /** A transaction that starts with a coinbase input adds no row, and a known one without a height
      changes nothing. */
  lemma CoinbaseAddsNoRow(t: Table, subscribed: set<string>, tx: ParsedTx, height: Option<nat>)
    ensures tx.inputs != [] && tx.inputs[0] == Coinbase ==>
              SaveTx(t, subscribed, tx, height).rows.Keys == t.rows.Keys
    ensures HasTxid(t, tx.txid) && height.None? ==> SaveTx(t, subscribed, tx, height) == t
  {
  }
}
