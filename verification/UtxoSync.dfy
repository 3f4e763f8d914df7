/** Reconciling an address with a node's unspent outputs (main/tasks.py: get_bch_utxos, and the
    ledger effects of parse_tx_wallet_histories). */
module UtxoSync {
  import opened Prelude
  import opened Ledger

  datatype TxInput =
    | Coinbase
    | Prevout(txid: string, index: int, address: string, value: int, token: TokenRef)

  datatype ParsedTx = ParsedTx(txid: string, inputs: seq<TxInput>, outputs: seq<Output>)

  /** What lies outside the ledger: the node's transactions, the addresses of BCH wallets, and the
      txids for which parsing writes a wallet history record. */
  datatype World = World(node: map<string, ParsedTx>, walletAddresses: set<string>, recorded: set<string>)

  /** One entry of the node's snapshot of an address. */
  datatype Utxo = Utxo(txHash: string, txPos: int, height: nat, value: int, token: TokenRef)

  function KeyOf(address: string, utxo: Utxo): Key {
    Key(utxo.txHash, address, utxo.txPos)
  }

  // ---------- Specification ----------

  function MarkSpent(t: Table, outpoints: set<(string, int)>, spendingTxid: string): Table {
    t.(rows := map id | id in t.rows ::
      if (t.rows[id].key.txid, t.rows[id].key.index) in outpoints
      then t.rows[id].(spent := true, spendingTxid := spendingTxid) else t.rows[id])
  }

  ghost function Outpoints(inputs: seq<TxInput>): set<(string, int)> {
    set input | input in inputs && input.Prevout? :: (input.txid, input.index)
  }

  /** One input or addressed output of a parsed transaction. */
  datatype ParsedUtxo = ParsedUtxo(isInput: bool, txid: string, output: Output)

  function InputUtxos(inputs: seq<TxInput>): seq<ParsedUtxo> {
    if inputs == [] then []
    else
      var last := inputs[|inputs| - 1];
      InputUtxos(inputs[..|inputs| - 1])
      + if last.Coinbase? then []
        else [ParsedUtxo(true, last.txid, Output(last.index, last.address, last.value, last.token))]
  }

  function OutputUtxos(txid: string, outputs: seq<Output>): seq<ParsedUtxo> {
    if outputs == [] then []
    else
      var last := outputs[|outputs| - 1];
      OutputUtxos(txid, outputs[..|outputs| - 1])
      + if last.address == "" then [] else [ParsedUtxo(false, txid, last)]
  }

  /** extract_tx_utxos: the inputs, then the outputs that have an address. */
  function ExtractUtxos(tx: ParsedTx): seq<ParsedUtxo> {
    InputUtxos(tx.inputs) + OutputUtxos(tx.txid, tx.outputs)
  }

  predicate HasTxid(t: Table, txid: string) {
    exists id | id in t.rows :: t.rows[id].key.txid == txid
  }

  predicate HasOutpoint(t: Table, txid: string, index: int) {
    exists id | id in t.rows :: t.rows[id].key.txid == txid && t.rows[id].key.index == index
  }

  predicate PassesOver(t: Table, wallets: set<string>, utxo: ParsedUtxo) {
    utxo.isInput && (HasOutpoint(t, utxo.txid, utxo.output.index) || utxo.output.address !in wallets)
  }

  /** The loop over the parts of a parsed transaction. Inputs are saved too, and as unspent; the
      last part is forced in when nothing of the transaction itself was saved. */
  ghost function RecordUtxos(t: Table, subscribed: set<string>, wallets: set<string>, utxos: seq<ParsedUtxo>,
                             i: nat, saved: bool): Table
    requires i <= |utxos|
    decreases |utxos| - i
  {
    if i == |utxos| then t
    else
      var force := i + 1 == |utxos| && !saved;
      if !force && PassesOver(t, wallets, utxos[i])
      then RecordUtxos(t, subscribed, wallets, utxos, i + 1, saved)
      else RecordUtxos(SaveOutput(t, subscribed, utxos[i].output, utxos[i].txid, None, "", force),
                       subscribed, wallets, utxos, i + 1, saved || !utxos[i].isInput)
  }

  /** A coinbase input has no txid to read, so a parse of it raises, as does an unknown txid. */
  ghost predicate CanParse(world: World, txid: string) {
    txid in world.node && Coinbase !in world.node[txid].inputs
  }

  ghost function Parse(t: Table, histories: set<string>, subscribed: set<string>, world: World, txid: string): Table {
    if txid in histories || !CanParse(world, txid) then t
    else
      var tx := world.node[txid];
      var marked := MarkSpent(t, Outpoints(tx.inputs), tx.txid);
      RecordUtxos(marked, subscribed, world.walletAddresses, ExtractUtxos(tx), 0, HasTxid(marked, txid))
  }

  ghost function HistoriesAfter(histories: set<string>, world: World, txid: string): set<string> {
    if CanParse(world, txid) && txid in world.recorded then histories + {txid} else histories
  }

  ghost function SetUnspent(t: Table, key: Key, utxo: Utxo): Table {
    t.(rows := map id | id in t.rows ::
      if t.rows[id].key == key
      then t.rows[id].(spent := false, value := utxo.value, height := Some(utxo.height)) else t.rows[id])
  }

  ghost function RecordFresh(t: Table, subscribed: set<string>, address: string, utxo: Utxo): Table {
    if HasKey(t, KeyOf(address, utxo)) then SetUnspent(t, KeyOf(address, utxo), utxo)
    else SaveOutput(t, subscribed, Output(utxo.txPos, address, utxo.value, utxo.token), utxo.txHash,
                    Some(utxo.height), "", false)
  }

  ghost function ListedOutpoints(snapshot: seq<Utxo>): set<(string, int)> {
    set u | u in snapshot :: (u.txHash, u.txPos)
  }

  ghost function MarkStale(t: Table, address: string, listed: set<(string, int)>): Table {
    t.(rows := map id | id in t.rows ::
      if t.rows[id].key.address == address && (t.rows[id].key.txid, t.rows[id].key.index) !in listed
      then t.rows[id].(spent := true) else t.rows[id])
  }

  ghost function HistoriesAfterAll(histories: set<string>, world: World, snapshot: seq<Utxo>): set<string> {
    if snapshot == [] then histories
    else
      HistoriesAfter(HistoriesAfterAll(histories, world, snapshot[..|snapshot| - 1]), world,
                     snapshot[|snapshot| - 1].txHash)
  }

  /** The loop over the snapshot: each output is saved, then its transaction is parsed. */
  ghost function Synced(t: Table, histories: set<string>, subscribed: set<string>, world: World, address: string,
                        snapshot: seq<Utxo>): Table
  {
    if snapshot == [] then t
    else
      var front, last := snapshot[..|snapshot| - 1], snapshot[|snapshot| - 1];
      Parse(RecordFresh(Synced(t, histories, subscribed, world, address, front), subscribed, address, last),
            HistoriesAfterAll(histories, world, front), subscribed, world, last.txHash)
  }

  /** The ledger of a completed run. */
  ghost function Completed(t: Table, histories: set<string>, subscribed: set<string>, world: World, address: string,
                           snapshot: seq<Utxo>): Table
  {
    MarkStale(Synced(t, histories, subscribed, world, address, snapshot), address, ListedOutpoints(snapshot))
  }

  ghost predicate ParsesOrKnown(world: World, histories: set<string>, txid: string) {
    txid in histories || CanParse(world, txid)
  }

  /** The transactions of the first n outputs can be parsed, or have a history already. */
  ghost predicate AllParse(world: World, histories: set<string>, snapshot: seq<Utxo>, n: nat)
    requires n <= |snapshot|
  {
    forall j | 0 <= j < n :: ParsesOrKnown(world, histories, snapshot[j].txHash)
  }

  /** The ledger when the parse of round n begins: one output more is saved than was parsed. */
  ghost function BeforeParse(t: Table, histories: set<string>, subscribed: set<string>, world: World,
                             address: string, snapshot: seq<Utxo>, n: nat): Table
    requires n < |snapshot|
  {
    RecordFresh(Synced(t, histories, subscribed, world, address, snapshot[..n]), subscribed, address, snapshot[n])
  }

  // ---------- The tasks ----------

  method MarkTransactionInputsAsSpent(ledger: TransactionLedger, tx: ParsedTx)
    requires Coinbase !in tx.inputs
    modifies ledger`rows
    ensures ledger.Rows() == old(MarkSpent(ledger.Rows(), Outpoints(tx.inputs), tx.txid))
  {
    var outpoints: set<(string, int)> := {};
    for i := 0 to |tx.inputs|
      invariant outpoints == Outpoints(tx.inputs[..i])
    {
      assert tx.inputs[i] in tx.inputs;
      assert tx.inputs[..i + 1] == tx.inputs[..i] + [tx.inputs[i]];
      outpoints := outpoints + {(tx.inputs[i].txid, tx.inputs[i].index)};
    }
    assert tx.inputs[..|tx.inputs|] == tx.inputs;
    ledger.rows := MarkSpent(Table(ledger.rows, ledger.nextId), outpoints, tx.txid).rows;
  }

  /** The loop over extract_tx_utxos. */
  method RecordTransactionUtxos(ledger: TransactionLedger, wallets: set<string>, utxos: seq<ParsedUtxo>,
                                hasSavedOutput: bool)
    requires Valid(ledger.Rows())
    modifies ledger`rows, ledger`nextId
    ensures Valid(ledger.Rows())
    ensures ledger.Rows() == RecordUtxos(old(ledger.Rows()), ledger.subscribed, wallets, utxos, 0, hasSavedOutput)
  {
    var saved := hasSavedOutput;
    ghost var goal := RecordUtxos(ledger.Rows(), ledger.subscribed, wallets, utxos, 0, hasSavedOutput);
    for i := 0 to |utxos|
      invariant Valid(ledger.Rows())
      invariant goal == RecordUtxos(ledger.Rows(), ledger.subscribed, wallets, utxos, i, saved)
    {
      var utxo := utxos[i];
      var force := i + 1 == |utxos| && !saved;
      if !force && utxo.isInput {
        if HasOutpoint(Table(ledger.rows, ledger.nextId), utxo.txid, utxo.output.index) {
          continue;
        }
        if utxo.output.address !in wallets {
          continue;
        }
      }
      if !utxo.isInput {
        saved := true;
      }
      var _, _ := ledger.ProcessOutput(utxo.output, utxo.txid, None, force, "", None, true);
    }
  }

  method ParseTxWalletHistories(ledger: TransactionLedger, world: World, txid: string) returns (ok: bool)
    requires Valid(ledger.Rows())
    modifies ledger`rows, ledger`nextId, ledger`histories
    ensures Valid(ledger.Rows())
    ensures ledger.Rows() == old(Parse(ledger.Rows(), ledger.histories, ledger.subscribed, world, txid))
    ensures ok <==> ParsesOrKnown(world, old(ledger.histories), txid)
    ensures ledger.histories == HistoriesAfter(old(ledger.histories), world, txid)
  {
    if txid in ledger.histories {
      return true;
    }
    if txid !in world.node {
      return false;
    }
    var tx := world.node[txid];
    if Coinbase in tx.inputs {
      return false;
    }
    MarkSpentKeepsValid(ledger.Rows(), Outpoints(tx.inputs), tx.txid);
    MarkTransactionInputsAsSpent(ledger, tx);
    var hasSavedOutput := HasTxid(Table(ledger.rows, ledger.nextId), txid);
    RecordTransactionUtxos(ledger, world.walletAddresses, ExtractUtxos(tx), hasSavedOutput);
    if txid in world.recorded {
      ledger.histories := ledger.histories + {txid};
    }
    return true;
  }

  /** One output of the snapshot: an existing row is reset, a missing one is created. */
  method SaveFreshUtxo(ledger: TransactionLedger, address: string, utxo: Utxo)
    requires Valid(ledger.Rows()) && address in ledger.subscribed && address != ""
    modifies ledger`rows, ledger`nextId
    ensures Valid(ledger.Rows())
    ensures ledger.Rows() == old(RecordFresh(ledger.Rows(), ledger.subscribed, address, utxo))
  {
    var key := KeyOf(address, utxo);
    ghost var before := ledger.Rows();
    if exists id | id in ledger.rows :: ledger.rows[id].key == key {
      ledger.rows := map id | id in ledger.rows ::
        if ledger.rows[id].key == key
        then ledger.rows[id].(spent := false, value := utxo.value, height := Some(utxo.height)) else ledger.rows[id];
      assert HasKey(before, key);
      assert ledger.Rows() == SetUnspent(before, key, utxo);
      return;
    }
    var output := Output(utxo.txPos, address, utxo.value, utxo.token);
    var id, created := ledger.ProcessOutput(output, utxo.txHash, Some(utxo.height), false, "", None, true);
    SaveSetsRow(before, ledger.subscribed, OutputRequest(output, utxo.txHash, Some(utxo.height), "", false));
    if created && id.Some? {
      // A row that was just created is unspent already.
      ghost var saved := ledger.rows;
      ledger.rows := ledger.rows[id.value := ledger.rows[id.value].(spent := false)];
      assert ledger.rows == saved;
    }
  }

  /** The last part of the task: unspent rows that the node no longer lists are marked spent. */
  method MarkMissingAsSpent(ledger: TransactionLedger, address: string, listed: set<(string, int)>)
    modifies ledger`rows
    ensures ledger.Rows() == old(MarkStale(ledger.Rows(), address, listed))
  {
    ledger.rows := map id | id in ledger.rows ::
      if ledger.rows[id].key.address == address && !ledger.rows[id].spent
         && (ledger.rows[id].key.txid, ledger.rows[id].key.index) !in listed
      then ledger.rows[id].(spent := true) else ledger.rows[id];
  }

  lemma RoundOf(t: Table, histories: set<string>, subscribed: set<string>, world: World, address: string,
                snapshot: seq<Utxo>, i: nat)
    requires i < |snapshot|
    ensures var earlier, known := Synced(t, histories, subscribed, world, address, snapshot[..i]),
                                  HistoriesAfterAll(histories, world, snapshot[..i]);
            && Synced(t, histories, subscribed, world, address, snapshot[..i + 1])
               == Parse(RecordFresh(earlier, subscribed, address, snapshot[i]), known, subscribed, world,
                        snapshot[i].txHash)
            && HistoriesAfterAll(histories, world, snapshot[..i + 1])
               == HistoriesAfter(known, world, snapshot[i].txHash)
    ensures ListedOutpoints(snapshot[..i + 1])
         == ListedOutpoints(snapshot[..i]) + {(snapshot[i].txHash, snapshot[i].txPos)}
  {
    assert snapshot[..i + 1][..i] == snapshot[..i];
    assert snapshot[..i + 1] == snapshot[..i] + [snapshot[i]];
  }

  /** One round of the loop: the output is saved, then its transaction is parsed. */
  method SyncUtxo(ledger: TransactionLedger, world: World, address: string, utxo: Utxo) returns (ok: bool)
    requires Valid(ledger.Rows()) && address in ledger.subscribed && address != ""
    modifies ledger`rows, ledger`nextId, ledger`histories
    ensures Valid(ledger.Rows())
    ensures ok <==> ParsesOrKnown(world, old(ledger.histories), utxo.txHash)
    ensures ledger.Rows()
         == Parse(old(RecordFresh(ledger.Rows(), ledger.subscribed, address, utxo)), old(ledger.histories),
                  ledger.subscribed, world, utxo.txHash)
    ensures !ok ==> ledger.Rows() == old(RecordFresh(ledger.Rows(), ledger.subscribed, address, utxo))
    ensures ledger.histories == HistoriesAfter(old(ledger.histories), world, utxo.txHash)
  {
    SaveFreshUtxo(ledger, address, utxo);
    ok := ParseTxWalletHistories(ledger, world, utxo.txHash);
  }

  /** The loop of get_bch_utxos over the node's answer. It ends early when a parse raises; done
      counts the outputs whose transactions were parsed by then. */
  method SyncSnapshot(ledger: TransactionLedger, world: World, address: string, snapshot: seq<Utxo>)
    returns (completed: bool, listed: set<(string, int)>, ghost done: nat)
    requires Valid(ledger.Rows()) && address in ledger.subscribed && address != ""
    modifies ledger`rows, ledger`nextId, ledger`histories
    ensures Valid(ledger.Rows())
    ensures completed <==> AllParse(world, old(ledger.histories), snapshot, |snapshot|)
    ensures completed ==> listed == ListedOutpoints(snapshot)
    ensures completed ==> ledger.histories == HistoriesAfterAll(old(ledger.histories), world, snapshot)
    ensures completed ==>
              ledger.Rows() == old(Synced(ledger.Rows(), ledger.histories, ledger.subscribed, world, address, snapshot))
    ensures !completed ==> IsFirstFailure(world, old(ledger.histories), snapshot, done)
    ensures !completed ==>
              ledger.Rows() == BeforeParse(old(ledger.Rows()), old(ledger.histories), ledger.subscribed, world,
                                           address, snapshot, done)
  {
    ghost var before, histories := ledger.Rows(), ledger.histories;
    listed := {};
    for i := 0 to |snapshot|
      invariant Valid(ledger.Rows())
      invariant listed == ListedOutpoints(snapshot[..i])
      invariant ledger.histories == HistoriesAfterAll(histories, world, snapshot[..i])
      invariant AllParse(world, histories, snapshot, i)
      invariant ledger.Rows() == Synced(before, histories, ledger.subscribed, world, address, snapshot[..i])
    {
      HistoriesGrow(histories, world, snapshot[..i], snapshot[i].txHash);
      RoundOf(before, histories, ledger.subscribed, world, address, snapshot, i);
      listed := listed + {(snapshot[i].txHash, snapshot[i].txPos)};
      var ok := SyncUtxo(ledger, world, address, snapshot[i]);
      if !ok {
        return false, listed, i;
      }
    }
    assert snapshot[..|snapshot|] == snapshot;
    return true, listed, |snapshot|;
  }

  /** get_bch_utxos for a subscribed address: it completes exactly when no parse raises. */
  method GetBchUtxos(ledger: TransactionLedger, world: World, address: string, snapshot: seq<Utxo>)
    returns (completed: bool, ghost done: nat)
    requires Valid(ledger.Rows()) && address in ledger.subscribed && address != ""
    requires IsSnapshot(snapshot) && Consistent(world, ledger.histories, address, snapshot)
    modifies ledger`rows, ledger`nextId, ledger`histories
    ensures Valid(ledger.Rows())
    ensures completed <==> AllParse(world, old(ledger.histories), snapshot, |snapshot|)
    ensures completed ==> Reconciled(ledger.Rows(), address, snapshot)
    ensures completed ==> UnspentTotal(ledger.Rows(), address) == SnapshotTotal(snapshot)
    ensures completed ==> ledger.histories == HistoriesAfterAll(old(ledger.histories), world, snapshot)
    ensures completed ==>
              ledger.Rows() == Completed(old(ledger.Rows()), old(ledger.histories), ledger.subscribed, world, address,
                                         snapshot)
    ensures !completed ==>
              && IsFirstFailure(world, old(ledger.histories), snapshot, done)
              && ShownUpTo(ledger.Rows(), address, snapshot, done + 1)
              && SpendsOnlyInputs(old(ledger.Rows()), ledger.Rows(), world, snapshot[..done])
  {
    ghost var before, histories := ledger.Rows(), ledger.histories;
    var listed;
    completed, listed, done := SyncSnapshot(ledger, world, address, snapshot);
    if !completed {
      FailedSync(before, histories, ledger.subscribed, world, address, snapshot, done);
      return;
    }
    SyncedShows(before, histories, ledger.subscribed, world, address, snapshot, |snapshot|);
    assert snapshot[..|snapshot|] == snapshot;
    StaleMarkReconciles(ledger.Rows(), address, snapshot);
    MarkMissingAsSpent(ledger, address, listed);
    ReconciledTotals(ledger.Rows(), address, snapshot);
  }

  // ---------- What a completed run means ----------

  /** The key has an unspent row with this value. */
  ghost predicate Shows(t: Table, key: Key, value: int) {
    exists id :: id in t.rows && ShowsAt(t.rows[id], key, value)
  }

  ghost predicate ShownUpTo(t: Table, address: string, snapshot: seq<Utxo>, n: nat)
    requires n <= |snapshot|
  {
    forall j | 0 <= j < n :: Shows(t, KeyOf(address, snapshot[j]), snapshot[j].value)
  }

  ghost predicate ShowsAt(row: Row, key: Key, value: int) {
    row.key == key && !row.spent && row.value == value
  }

  ghost function UnspentIds(t: Table, address: string): set<nat> {
    set id | id in t.rows && t.rows[id].key.address == address && !t.rows[id].spent
  }

  /** The unspent rows of the address are exactly the snapshot. */
  ghost predicate Reconciled(t: Table, address: string, snapshot: seq<Utxo>) {
    && (forall u | u in snapshot :: Shows(t, KeyOf(address, u), u.value))
    && (forall id | id in UnspentIds(t, address) ::
          (t.rows[id].key.txid, t.rows[id].key.index) in ListedOutpoints(snapshot))
  }

  /** A node lists no outpoint twice. */
  ghost predicate IsSnapshot(snapshot: seq<Utxo>) {
    forall i, j | 0 <= i < j < |snapshot| ::
      (snapshot[i].txHash, snapshot[i].txPos) != (snapshot[j].txHash, snapshot[j].txPos)
  }

  /** A transaction that will be parsed spends no outpoint listed up to its own round, and gives those
      outputs of the address the same values. What is listed later is reset in a later round. */
  ghost predicate Consistent(world: World, histories: set<string>, address: string, snapshot: seq<Utxo>) {
    forall i, j | 0 <= j <= i < |snapshot| && snapshot[i].txHash !in histories && snapshot[i].txHash in world.node ::
      Agrees(world.node[snapshot[i].txHash], address, snapshot[j])
  }

  ghost predicate Agrees(tx: ParsedTx, address: string, u: Utxo) {
    && (u.txHash, u.txPos) !in Outpoints(tx.inputs)
    && forall o | o in tx.outputs && Key(tx.txid, o.address, o.index) == KeyOf(address, u) :: o.value == u.value
  }

  lemma MarkSpentKeepsValid(t: Table, outpoints: set<(string, int)>, spendingTxid: string)
    requires Valid(t)
    ensures Valid(MarkSpent(t, outpoints, spendingTxid))
  {
  }

  /** Marking names the spender, on rows of these outpoints only, and changes nothing else. */
  lemma MarkSpentNamesSpender(t: Table, outpoints: set<(string, int)>, spendingTxid: string, id: nat)
    requires id in t.rows
    ensures var row, after := t.rows[id], MarkSpent(t, outpoints, spendingTxid).rows[id];
            && after.key == row.key && after.value == row.value && after.token == row.token
            && after.height == row.height
            && (if (row.key.txid, row.key.index) in outpoints
                then after.spent && after.spendingTxid == spendingTxid else after == row)
  {
  }

  /** Marking stale rows touches nothing but their spent flag. */
  lemma MarkStaleSetsOnlyTheFlag(t: Table, address: string, listed: set<(string, int)>, id: nat)
    requires id in t.rows
    ensures var row, after := t.rows[id], MarkStale(t, address, listed).rows[id];
            && after.key == row.key && after.value == row.value && after.token == row.token
            && after.height == row.height && after.spendingTxid == row.spendingTxid
            && (after.spent <==>
                  row.spent || (row.key.address == address && (row.key.txid, row.key.index) !in listed))
  {
  }

  ghost predicate FreshAt(row: Row, key: Key, utxo: Utxo) {
    ShowsAt(row, key, utxo.value) && row.height == Some(utxo.height)
  }

  /** A listed output ends up unspent, with the value and the height that the node gives; a row that
      was there keeps its token and its spender column. */
  lemma FreshShowsValueAndHeight(t: Table, subscribed: set<string>, address: string, utxo: Utxo) returns (id: nat)
    requires Valid(t) && address in subscribed && address != ""
    ensures var after, key := RecordFresh(t, subscribed, address, utxo), KeyOf(address, utxo);
            && id in after.rows && FreshAt(after.rows[id], key, utxo)
            && (HasKey(t, key) ==>
                  && id in t.rows && after.rows[id].token == t.rows[id].token
                  && after.rows[id].spendingTxid == t.rows[id].spendingTxid)
            && (!HasKey(t, key) ==> after.rows[id].token == utxo.token && after.rows[id].spendingTxid == "")
  {
    var key := KeyOf(address, utxo);
    if HasKey(t, key) {
      id := IdOf(t, key);
    } else {
      var output := Output(utxo.txPos, address, utxo.value, utxo.token);
      id := SaveOutputWritesOutput(t, subscribed, output, utxo.txHash, Some(utxo.height), "", false);
    }
  }

  lemma MarkSpentKeepsShown(t: Table, outpoints: set<(string, int)>, spendingTxid: string, key: Key, value: int)
    requires Shows(t, key, value) && (key.txid, key.index) !in outpoints
    ensures Shows(MarkSpent(t, outpoints, spendingTxid), key, value)
  {
    var id :| id in t.rows && ShowsAt(t.rows[id], key, value);
    assert ShowsAt(MarkSpent(t, outpoints, spendingTxid).rows[id], key, value);
  }

  lemma SaveKeepsShown(t: Table, subscribed: set<string>, request: SaveRequest, key: Key, value: int)
    requires Valid(t) && Shows(t, key, value) && request.spendingTxid == ""
    requires request.key == key ==> request.value == value
    ensures Shows(Save(t, subscribed, request), key, value)
  {
    var id :| id in t.rows && ShowsAt(t.rows[id], key, value);
    var after := Save(t, subscribed, request);
    assert id in after.rows && ShowsAt(after.rows[id], key, value);
  }

  lemma {:induction false} RecordKeepsShown(t: Table, subscribed: set<string>, wallets: set<string>,
                                            utxos: seq<ParsedUtxo>, i: nat, saved: bool, key: Key, value: int)
    requires Valid(t) && Shows(t, key, value) && i <= |utxos|
    requires forall k | i <= k < |utxos| && Key(utxos[k].txid, utxos[k].output.address, utxos[k].output.index) == key ::
               utxos[k].output.value == value
    ensures Shows(RecordUtxos(t, subscribed, wallets, utxos, i, saved), key, value)
    decreases |utxos| - i
  {
    if i < |utxos| {
      var force := i + 1 == |utxos| && !saved;
      if !force && PassesOver(t, wallets, utxos[i]) {
        RecordKeepsShown(t, subscribed, wallets, utxos, i + 1, saved, key, value);
      } else {
        var request := OutputRequest(utxos[i].output, utxos[i].txid, None, "", force);
        SaveKeepsShown(t, subscribed, request, key, value);
        SaveKeepsValid(t, subscribed, request);
        RecordKeepsShown(SaveOutput(t, subscribed, utxos[i].output, utxos[i].txid, None, "", force),
                         subscribed, wallets, utxos, i + 1, saved || !utxos[i].isInput, key, value);
      }
    }
  }

  lemma {:induction false} InputUtxosAreInputs(inputs: seq<TxInput>)
    ensures forall u | u in InputUtxos(inputs) :: (u.txid, u.output.index) in Outpoints(inputs)
  {
    if inputs != [] {
      var front, last := inputs[..|inputs| - 1], inputs[|inputs| - 1];
      InputUtxosAreInputs(front);
      assert Outpoints(front) <= Outpoints(inputs);
      assert last in inputs;
      assert last.Prevout? ==> (last.txid, last.index) in Outpoints(inputs);
    }
  }

  lemma {:induction false} OutputUtxosAreOutputs(txid: string, outputs: seq<Output>)
    ensures forall u | u in OutputUtxos(txid, outputs) :: u.txid == txid && u.output in outputs
  {
    if outputs != [] {
      OutputUtxosAreOutputs(txid, outputs[..|outputs| - 1]);
    }
  }

  lemma ParseKeepsShown(t: Table, histories: set<string>, subscribed: set<string>, world: World, address: string,
                        snapshot: seq<Utxo>, i: nat, j: nat)
    requires Valid(t) && j <= i < |snapshot|
    requires Consistent(world, histories, address, snapshot)
    requires Shows(t, KeyOf(address, snapshot[j]), snapshot[j].value)
    ensures Shows(Parse(t, histories, subscribed, world, snapshot[i].txHash),
                  KeyOf(address, snapshot[j]), snapshot[j].value)
  {
    var txid, u := snapshot[i].txHash, snapshot[j];
    if txid !in histories && CanParse(world, txid) {
      var tx, key := world.node[txid], KeyOf(address, u);
      assert Agrees(tx, address, u);
      var marked := MarkSpent(t, Outpoints(tx.inputs), tx.txid);
      MarkSpentKeepsValid(t, Outpoints(tx.inputs), tx.txid);
      MarkSpentKeepsShown(t, Outpoints(tx.inputs), tx.txid, key, u.value);
      UtxosAgree(tx, address, u);
      RecordKeepsShown(marked, subscribed, world.walletAddresses, ExtractUtxos(tx), 0, HasTxid(marked, txid),
                       key, u.value);
    }
  }

  lemma ParseKeepsAllShown(t: Table, start: set<string>, histories: set<string>, subscribed: set<string>, world: World,
                           address: string, snapshot: seq<Utxo>, i: nat)
    requires Valid(t) && i < |snapshot| && start <= histories
    requires Consistent(world, start, address, snapshot) && ShownUpTo(t, address, snapshot, i + 1)
    ensures ShownUpTo(Parse(t, histories, subscribed, world, snapshot[i].txHash), address, snapshot, i + 1)
  {
    forall j | 0 <= j < i + 1
      ensures Shows(Parse(t, histories, subscribed, world, snapshot[i].txHash),
                    KeyOf(address, snapshot[j]), snapshot[j].value)
    {
      ParseKeepsShown(t, histories, subscribed, world, address, snapshot, i, j);
    }
  }

  lemma UtxosAgree(tx: ParsedTx, address: string, u: Utxo)
    requires Agrees(tx, address, u)
    ensures var utxos := ExtractUtxos(tx);
            forall k | 0 <= k < |utxos|
                       && Key(utxos[k].txid, utxos[k].output.address, utxos[k].output.index) == KeyOf(address, u) ::
              utxos[k].output.value == u.value
  {
    InputUtxosAreInputs(tx.inputs);
    OutputUtxosAreOutputs(tx.txid, tx.outputs);
    var inputs, outputs := InputUtxos(tx.inputs), OutputUtxos(tx.txid, tx.outputs);
    var utxos := ExtractUtxos(tx);
    forall k | 0 <= k < |utxos|
      ensures Key(utxos[k].txid, utxos[k].output.address, utxos[k].output.index) == KeyOf(address, u) ==>
                utxos[k].output.value == u.value
    {
      if k < |inputs| {
        assert utxos[k] in inputs;
      } else {
        assert utxos[k] == outputs[k - |inputs|];
        assert utxos[k] in outputs;
      }
    }
  }

  lemma FreshKeepsShown(t: Table, subscribed: set<string>, address: string, snapshot: seq<Utxo>, i: nat)
    requires Valid(t) && IsSnapshot(snapshot) && i < |snapshot| && address in subscribed && address != ""
    requires ShownUpTo(t, address, snapshot, i)
    ensures ShownUpTo(RecordFresh(t, subscribed, address, snapshot[i]), address, snapshot, i + 1)
  {
    var u, key := snapshot[i], KeyOf(address, snapshot[i]);
    var after := RecordFresh(t, subscribed, address, u);
    var request := OutputRequest(Output(u.txPos, address, u.value, u.token), u.txHash, Some(u.height), "", false);
    forall j | 0 <= j < i + 1
      ensures Shows(after, KeyOf(address, snapshot[j]), snapshot[j].value)
    {
      if j < i {
        if HasKey(t, key) {
          var id :| id in t.rows && ShowsAt(t.rows[id], KeyOf(address, snapshot[j]), snapshot[j].value);
          assert ShowsAt(after.rows[id], KeyOf(address, snapshot[j]), snapshot[j].value);
        } else {
          SaveKeepsShown(t, subscribed, request, KeyOf(address, snapshot[j]), snapshot[j].value);
        }
      } else if HasKey(t, key) {
        assert ShowsAt(after.rows[IdOf(t, key)], key, u.value);
      } else {
        SaveSetsRow(t, subscribed, request);
        assert ShowsAt(after.rows[KeyId(t, key)], key, u.value);
      }
    }
  }

  // ---------- The loop over the snapshot ----------

  /** A history is there at the start, or its transaction could be parsed. */
  lemma {:induction false} HistoriesGrow(histories: set<string>, world: World, snapshot: seq<Utxo>, txid: string)
    ensures histories <= HistoriesAfterAll(histories, world, snapshot)
    ensures ParsesOrKnown(world, HistoriesAfterAll(histories, world, snapshot), txid) <==>
              ParsesOrKnown(world, histories, txid)
  {
    if snapshot != [] {
      HistoriesGrow(histories, world, snapshot[..|snapshot| - 1], txid);
    }
  }

  /** The txids with a history after the loop: those before, and those that parsing wrote one for. */
  lemma {:induction false} HistoriesWritten(histories: set<string>, world: World, snapshot: seq<Utxo>)
    ensures HistoriesAfterAll(histories, world, snapshot)
         == histories + set u | u in snapshot && CanParse(world, u.txHash) && u.txHash in world.recorded :: u.txHash
  {
    if snapshot != [] {
      HistoriesWritten(histories, world, snapshot[..|snapshot| - 1]);
      assert snapshot == snapshot[..|snapshot| - 1] + [snapshot[|snapshot| - 1]];
    }
  }

  lemma {:induction false} RecordKeepsValid(t: Table, subscribed: set<string>, wallets: set<string>,
                                            utxos: seq<ParsedUtxo>, i: nat, saved: bool)
    requires Valid(t) && i <= |utxos|
    ensures Valid(RecordUtxos(t, subscribed, wallets, utxos, i, saved))
    decreases |utxos| - i
  {
    if i < |utxos| {
      var force := i + 1 == |utxos| && !saved;
      var next := SaveOutput(t, subscribed, utxos[i].output, utxos[i].txid, None, "", force);
      SaveKeepsValid(t, subscribed, OutputRequest(utxos[i].output, utxos[i].txid, None, "", force));
      if !force && PassesOver(t, wallets, utxos[i]) {
        RecordKeepsValid(t, subscribed, wallets, utxos, i + 1, saved);
      } else {
        RecordKeepsValid(next, subscribed, wallets, utxos, i + 1, saved || !utxos[i].isInput);
      }
    }
  }

  lemma ParseKeepsValid(t: Table, histories: set<string>, subscribed: set<string>, world: World, txid: string)
    requires Valid(t)
    ensures Valid(Parse(t, histories, subscribed, world, txid))
  {
    if txid !in histories && CanParse(world, txid) {
      var tx := world.node[txid];
      var marked := MarkSpent(t, Outpoints(tx.inputs), tx.txid);
      MarkSpentKeepsValid(t, Outpoints(tx.inputs), tx.txid);
      RecordKeepsValid(marked, subscribed, world.walletAddresses, ExtractUtxos(tx), 0, HasTxid(marked, txid));
    }
  }

  lemma FreshKeepsValid(t: Table, subscribed: set<string>, address: string, utxo: Utxo)
    requires Valid(t)
    ensures Valid(RecordFresh(t, subscribed, address, utxo))
  {
    var output := Output(utxo.txPos, address, utxo.value, utxo.token);
    SaveKeepsValid(t, subscribed, OutputRequest(output, utxo.txHash, Some(utxo.height), "", false));
  }

  lemma {:induction false} SyncedKeepsValid(t: Table, histories: set<string>, subscribed: set<string>, world: World,
                                            address: string, snapshot: seq<Utxo>)
    requires Valid(t)
    ensures Valid(Synced(t, histories, subscribed, world, address, snapshot))
  {
    if snapshot != [] {
      var front, last := snapshot[..|snapshot| - 1], snapshot[|snapshot| - 1];
      var earlier := Synced(t, histories, subscribed, world, address, front);
      SyncedKeepsValid(t, histories, subscribed, world, address, front);
      FreshKeepsValid(earlier, subscribed, address, last);
      ParseKeepsValid(RecordFresh(earlier, subscribed, address, last), HistoriesAfterAll(histories, world, front),
                      subscribed, world, last.txHash);
    }
  }

  /** After n rounds the first n outputs of the snapshot are shown, whatever parsing saved. */
  lemma {:induction false} SyncedShows(t: Table, histories: set<string>, subscribed: set<string>, world: World,
                                       address: string, snapshot: seq<Utxo>, n: nat)
    requires Valid(t) && IsSnapshot(snapshot) && n <= |snapshot| && address in subscribed && address != ""
    requires Consistent(world, histories, address, snapshot)
    ensures ShownUpTo(Synced(t, histories, subscribed, world, address, snapshot[..n]), address, snapshot, n)
  {
    if n > 0 {
      var front := snapshot[..n - 1];
      assert snapshot[..n][..n - 1] == front;
      SyncedShows(t, histories, subscribed, world, address, snapshot, n - 1);
      SyncedKeepsValid(t, histories, subscribed, world, address, front);
      var earlier := Synced(t, histories, subscribed, world, address, front);
      FreshKeepsShown(earlier, subscribed, address, snapshot, n - 1);
      FreshKeepsValid(earlier, subscribed, address, snapshot[n - 1]);
      HistoriesGrow(histories, world, front, "");
      ParseKeepsAllShown(RecordFresh(earlier, subscribed, address, snapshot[n - 1]), histories,
                         HistoriesAfterAll(histories, world, front), subscribed, world, address, snapshot, n - 1);
    }
  }

  // ---------- A run that does not complete ----------

  /** The n-th output of the snapshot is the first one whose transaction cannot be parsed. */
  ghost predicate IsFirstFailure(world: World, histories: set<string>, snapshot: seq<Utxo>, n: nat) {
    && n < |snapshot| && !ParsesOrKnown(world, histories, snapshot[n].txHash)
    && AllParse(world, histories, snapshot, n)
  }

  ghost predicate UnspentRow(t: Table, id: nat, key: Key) {
    id in t.rows && t.rows[id].key == key && !t.rows[id].spent
  }

  /** No transaction of these outputs spends the key. */
  ghost predicate SpentByNone(world: World, snapshot: seq<Utxo>, key: Key) {
    forall u | u in snapshot && u.txHash in world.node ::
      (key.txid, key.index) !in Outpoints(world.node[u.txHash].inputs)
  }

  /** An unspent row stayed unspent unless a parsed transaction spends it: none was marked stale. */
  ghost predicate SpendsOnlyInputs(before: Table, after: Table, world: World, parsed: seq<Utxo>) {
    forall id, key | UnspentRow(before, id, key) && SpentByNone(world, parsed, key) :: UnspentRow(after, id, key)
  }

  lemma SaveKeepsUnspent(t: Table, subscribed: set<string>, request: SaveRequest, id: nat, key: Key)
    requires Valid(t) && UnspentRow(t, id, key) && request.spendingTxid == ""
    ensures UnspentRow(Save(t, subscribed, request), id, key)
  {
  }

  lemma {:induction false} RecordKeepsUnspent(t: Table, subscribed: set<string>, wallets: set<string>,
                                              utxos: seq<ParsedUtxo>, i: nat, saved: bool, id: nat, key: Key)
    requires Valid(t) && UnspentRow(t, id, key) && i <= |utxos|
    ensures UnspentRow(RecordUtxos(t, subscribed, wallets, utxos, i, saved), id, key)
    decreases |utxos| - i
  {
    if i < |utxos| {
      var force := i + 1 == |utxos| && !saved;
      var request := OutputRequest(utxos[i].output, utxos[i].txid, None, "", force);
      var next := SaveOutput(t, subscribed, utxos[i].output, utxos[i].txid, None, "", force);
      SaveKeepsUnspent(t, subscribed, request, id, key);
      SaveKeepsValid(t, subscribed, request);
      if !force && PassesOver(t, wallets, utxos[i]) {
        RecordKeepsUnspent(t, subscribed, wallets, utxos, i + 1, saved, id, key);
      } else {
        RecordKeepsUnspent(next, subscribed, wallets, utxos, i + 1, saved || !utxos[i].isInput, id, key);
      }
    }
  }

  lemma FreshKeepsUnspent(t: Table, subscribed: set<string>, address: string, utxo: Utxo, id: nat, key: Key)
    requires Valid(t) && UnspentRow(t, id, key)
    ensures UnspentRow(RecordFresh(t, subscribed, address, utxo), id, key)
  {
    var output := Output(utxo.txPos, address, utxo.value, utxo.token);
    SaveKeepsUnspent(t, subscribed, OutputRequest(output, utxo.txHash, Some(utxo.height), "", false), id, key);
  }

  lemma ParseKeepsUnspent(t: Table, histories: set<string>, subscribed: set<string>, world: World, txid: string,
                          id: nat, key: Key)
    requires Valid(t) && UnspentRow(t, id, key)
    requires txid in world.node ==> (key.txid, key.index) !in Outpoints(world.node[txid].inputs)
    ensures UnspentRow(Parse(t, histories, subscribed, world, txid), id, key)
  {
    if txid !in histories && CanParse(world, txid) {
      var tx := world.node[txid];
      var marked := MarkSpent(t, Outpoints(tx.inputs), tx.txid);
      MarkSpentKeepsValid(t, Outpoints(tx.inputs), tx.txid);
      RecordKeepsUnspent(marked, subscribed, world.walletAddresses, ExtractUtxos(tx), 0, HasTxid(marked, txid),
                         id, key);
    }
  }

  lemma {:induction false} SyncedKeepsUnspent(t: Table, histories: set<string>, subscribed: set<string>, world: World,
                                              address: string, snapshot: seq<Utxo>, id: nat, key: Key)
    requires Valid(t) && UnspentRow(t, id, key) && SpentByNone(world, snapshot, key)
    ensures UnspentRow(Synced(t, histories, subscribed, world, address, snapshot), id, key)
  {
    if snapshot != [] {
      var front, last := snapshot[..|snapshot| - 1], snapshot[|snapshot| - 1];
      var earlier := Synced(t, histories, subscribed, world, address, front);
      assert last in snapshot;
      SyncedKeepsUnspent(t, histories, subscribed, world, address, front, id, key);
      SyncedKeepsValid(t, histories, subscribed, world, address, front);
      FreshKeepsUnspent(earlier, subscribed, address, last, id, key);
      FreshKeepsValid(earlier, subscribed, address, last);
      ParseKeepsUnspent(RecordFresh(earlier, subscribed, address, last), HistoriesAfterAll(histories, world, front),
                        subscribed, world, last.txHash, id, key);
    }
  }

  /** A run that stops in round n has saved one output more than it has parsed, and marked nothing. */
  lemma FailedSync(t: Table, histories: set<string>, subscribed: set<string>, world: World, address: string,
                   snapshot: seq<Utxo>, n: nat)
    requires Valid(t) && IsSnapshot(snapshot) && n < |snapshot| && address in subscribed && address != ""
    requires Consistent(world, histories, address, snapshot)
    ensures var after := BeforeParse(t, histories, subscribed, world, address, snapshot, n);
            ShownUpTo(after, address, snapshot, n + 1) && SpendsOnlyInputs(t, after, world, snapshot[..n])
  {
    var earlier := Synced(t, histories, subscribed, world, address, snapshot[..n]);
    SyncedShows(t, histories, subscribed, world, address, snapshot, n);
    SyncedKeepsValid(t, histories, subscribed, world, address, snapshot[..n]);
    FreshKeepsShown(earlier, subscribed, address, snapshot, n);
    forall id, key | UnspentRow(t, id, key) && SpentByNone(world, snapshot[..n], key)
      ensures UnspentRow(RecordFresh(earlier, subscribed, address, snapshot[n]), id, key)
    {
      SyncedKeepsUnspent(t, histories, subscribed, world, address, snapshot[..n], id, key);
      FreshKeepsUnspent(earlier, subscribed, address, snapshot[n], id, key);
    }
  }

  lemma StaleMarkReconciles(t: Table, address: string, snapshot: seq<Utxo>)
    requires Valid(t)
    requires ShownUpTo(t, address, snapshot, |snapshot|)
    ensures Valid(MarkStale(t, address, ListedOutpoints(snapshot)))
    ensures Reconciled(MarkStale(t, address, ListedOutpoints(snapshot)), address, snapshot)
  {
    var after := MarkStale(t, address, ListedOutpoints(snapshot));
    forall u | u in snapshot
      ensures Shows(after, KeyOf(address, u), u.value)
    {
      var j :| 0 <= j < |snapshot| && snapshot[j] == u;
      assert Shows(t, KeyOf(address, snapshot[j]), snapshot[j].value);
      var id :| id in t.rows && ShowsAt(t.rows[id], KeyOf(address, u), u.value);
      assert (u.txHash, u.txPos) in ListedOutpoints(snapshot);
      assert ShowsAt(after.rows[id], KeyOf(address, u), u.value);
    }
  }

  function SnapshotTotal(snapshot: seq<Utxo>): int {
    if snapshot == [] then 0 else SnapshotTotal(snapshot[..|snapshot| - 1]) + snapshot[|snapshot| - 1].value
  }

  ghost function Total(t: Table, ids: set<nat>): int
    requires ids <= t.rows.Keys
  {
    if ids == {} then 0 else var id :| id in ids; t.rows[id].value + Total(t, ids - {id})
  }

  ghost function UnspentTotal(t: Table, address: string): int {
    Total(t, UnspentIds(t, address))
  }

  /** The sum does not depend on the order in which rows are taken. */
  lemma {:induction false} TotalWithout(t: Table, ids: set<nat>, id: nat)
    requires ids <= t.rows.Keys && id in ids
    ensures Total(t, ids) == t.rows[id].value + Total(t, ids - {id})
    decreases ids
  {
    var first :| first in ids && Total(t, ids) == t.rows[first].value + Total(t, ids - {first});
    if first != id {
      TotalWithout(t, ids - {first}, id);
      TotalWithout(t, ids - {id}, first);
      assert ids - {first} - {id} == ids - {id} - {first};
    }
  }

  ghost predicate Covers(t: Table, ids: set<nat>, address: string, u: Utxo)
    requires ids <= t.rows.Keys
  {
    exists id :: id in ids && ShowsAt(t.rows[id], KeyOf(address, u), u.value)
  }

  ghost predicate IsListed(row: Row, address: string, snapshot: seq<Utxo>) {
    exists j :: 0 <= j < |snapshot| && row.key == KeyOf(address, snapshot[j])
  }

  /** Rows and snapshot entries stand for each other. */
  ghost predicate Corresponds(t: Table, ids: set<nat>, address: string, snapshot: seq<Utxo>) {
    && ids <= t.rows.Keys
    && (forall j | 0 <= j < |snapshot| :: Covers(t, ids, address, snapshot[j]))
    && (forall id | id in ids :: IsListed(t.rows[id], address, snapshot))
  }

  lemma CorrespondsWithoutLast(t: Table, ids: set<nat>, address: string, snapshot: seq<Utxo>, id: nat)
    requires Valid(t) && IsSnapshot(snapshot) && snapshot != [] && Corresponds(t, ids, address, snapshot)
    requires id in ids && t.rows[id].key == KeyOf(address, snapshot[|snapshot| - 1])
    ensures Corresponds(t, ids - {id}, address, snapshot[..|snapshot| - 1])
  {
    var front := snapshot[..|snapshot| - 1];
    forall j | 0 <= j < |front|
      ensures Covers(t, ids - {id}, address, front[j])
    {
      assert Covers(t, ids, address, snapshot[j]);
      var k :| k in ids && ShowsAt(t.rows[k], KeyOf(address, snapshot[j]), snapshot[j].value);
      assert k in ids - {id} && ShowsAt(t.rows[k], KeyOf(address, front[j]), front[j].value);
    }
    forall k | k in ids - {id}
      ensures IsListed(t.rows[k], address, front)
    {
      assert IsListed(t.rows[k], address, snapshot);
      var j :| 0 <= j < |snapshot| && t.rows[k].key == KeyOf(address, snapshot[j]);
      assert t.rows[k].key == KeyOf(address, front[j]);
    }
  }

  lemma LastHasRow(t: Table, ids: set<nat>, address: string, snapshot: seq<Utxo>) returns (id: nat)
    requires snapshot != [] && Corresponds(t, ids, address, snapshot)
    ensures id in ids && t.rows[id].key == KeyOf(address, snapshot[|snapshot| - 1])
    ensures t.rows[id].value == snapshot[|snapshot| - 1].value
  {
    var last := snapshot[|snapshot| - 1];
    assert Covers(t, ids, address, last);
    id :| id in ids && ShowsAt(t.rows[id], KeyOf(address, last), last.value);
  }

  lemma NothingListed(t: Table, ids: set<nat>, address: string)
    requires Corresponds(t, ids, address, [])
    ensures ids == {}
  {
    assert forall id | id in ids :: IsListed(t.rows[id], address, []);
  }

  /** Rows that correspond to the snapshot have its total. */
  lemma {:induction false} CorrespondingTotal(t: Table, ids: set<nat>, address: string, snapshot: seq<Utxo>)
    requires Valid(t) && IsSnapshot(snapshot) && Corresponds(t, ids, address, snapshot)
    ensures Total(t, ids) == SnapshotTotal(snapshot)
    decreases |snapshot|
  {
    if snapshot == [] {
      NothingListed(t, ids, address);
    } else {
      var id := LastHasRow(t, ids, address, snapshot);
      CorrespondsWithoutLast(t, ids, address, snapshot, id);
      CorrespondingTotal(t, ids - {id}, address, snapshot[..|snapshot| - 1]);
      TotalWithout(t, ids, id);
    }
  }

  /** Reconciled rows have the snapshot's total. */
  lemma ReconciledTotals(t: Table, address: string, snapshot: seq<Utxo>)
    requires Valid(t) && IsSnapshot(snapshot) && Reconciled(t, address, snapshot)
    ensures UnspentTotal(t, address) == SnapshotTotal(snapshot)
  {
    var ids := UnspentIds(t, address);
    forall j | 0 <= j < |snapshot|
      ensures Covers(t, ids, address, snapshot[j])
    {
      assert Shows(t, KeyOf(address, snapshot[j]), snapshot[j].value);
      var id :| id in t.rows && ShowsAt(t.rows[id], KeyOf(address, snapshot[j]), snapshot[j].value);
      assert id in ids;
    }
    forall id | id in ids
      ensures IsListed(t.rows[id], address, snapshot)
    {
      var u :| u in snapshot && (u.txHash, u.txPos) == (t.rows[id].key.txid, t.rows[id].key.index);
      var j :| 0 <= j < |snapshot| && snapshot[j] == u;
      assert t.rows[id].key == KeyOf(address, snapshot[j]);
    }
    CorrespondingTotal(t, ids, address, snapshot);
  }
}
