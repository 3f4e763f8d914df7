/** What parsing transactions does to the rows of one outpoint (main/tasks.py:
    parse_tx_wallet_histories inside get_bch_utxos). Inputs are saved without a spender, after the
    existing rows of the inputs were marked, so a spent output can end up as an unspent row. */
module ParsedInputs {
  import opened Prelude
  import opened Ledger
  import opened UtxoSync

  type Outpoint = (string, int)

  ghost predicate RowUnspent(t: Table, id: nat, o: Outpoint) {
    id in t.rows && (t.rows[id].key.txid, t.rows[id].key.index) == o && !t.rows[id].spent
  }

  ghost predicate OutpointUnspent(t: Table, o: Outpoint) {
    exists id :: RowUnspent(t, id, o)
  }

  function OutpointOf(part: ParsedUtxo): Outpoint {
    (part.txid, part.output.index)
  }

  function KeyOfPart(part: ParsedUtxo): Key {
    Key(part.txid, part.output.address, part.output.index)
  }

  // ---------- One save ----------

  lemma SaveOnKey(t: Table, subscribed: set<string>, request: SaveRequest, key: Key)
    requires Valid(t)
    ensures HasKey(Save(t, subscribed, request), key) <==>
              HasKey(t, key) || (Accepts(subscribed, request) && request.key == key)
  {
    var after := Save(t, subscribed, request);
    if HasKey(t, key) {
      assert after.rows[IdOf(t, key)].key == key;
    }
    if Accepts(subscribed, request) {
      assert after.rows[KeyId(t, request.key)].key == request.key;
    }
  }

  lemma SaveOnHasOutpoint(t: Table, subscribed: set<string>, request: SaveRequest, o: Outpoint)
    requires Valid(t)
    ensures HasOutpoint(Save(t, subscribed, request), o.0, o.1) <==>
              HasOutpoint(t, o.0, o.1) || (Accepts(subscribed, request) && (request.key.txid, request.key.index) == o)
  {
    var after := Save(t, subscribed, request);
    if HasOutpoint(t, o.0, o.1) {
      var id :| id in t.rows && t.rows[id].key.txid == o.0 && t.rows[id].key.index == o.1;
      assert after.rows[id].key == t.rows[id].key;
    }
    if Accepts(subscribed, request) {
      assert after.rows[KeyId(t, request.key)].key == request.key;
    }
  }

  /** A save without a spender makes an outpoint unspent only by a new row. */
  lemma SaveOnUnspent(t: Table, subscribed: set<string>, request: SaveRequest, o: Outpoint)
    requires Valid(t) && request.spendingTxid == ""
    ensures OutpointUnspent(Save(t, subscribed, request), o) <==>
              OutpointUnspent(t, o)
              || (Accepts(subscribed, request) && (request.key.txid, request.key.index) == o && !HasKey(t, request.key))
  {
    var after, id := Save(t, subscribed, request), KeyId(t, request.key);
    forall i | RowUnspent(t, i, o)
      ensures RowUnspent(after, i, o)
    {
    }
    if Accepts(subscribed, request) {
      SaveSetsRow(t, subscribed, request);
      forall i | RowUnspent(after, i, o)
        ensures i == id || RowUnspent(t, i, o)
      {
      }
      assert RowUnspent(after, id, o) ==> (HasKey(t, request.key) ==> RowUnspent(t, id, o));
      assert !HasKey(t, request.key) && (request.key.txid, request.key.index) == o ==> RowUnspent(after, id, o);
    }
  }

  // ---------- The loop over the parts of a transaction ----------

  /** The part is forced in: it is the last one, and nothing of the transaction was saved before. */
  ghost predicate Forced(utxos: seq<ParsedUtxo>, i: nat, saved: bool, k: int) {
    k + 1 == |utxos| && !saved && forall j | i <= j < k && j < |utxos| :: utxos[j].isInput
  }

  /** The part passes the filters: an address that is subscribed and, for an input, a wallet's. */
  predicate Passes(subscribed: set<string>, wallets: set<string>, part: ParsedUtxo, forced: bool) {
    var address := part.output.address;
    address != "" && (forced || (address in subscribed && (part.isInput ==> address in wallets)))
  }

  /** The ledger does not know the part: an input by its outpoint, anything else by its key. */
  ghost predicate IsNew(t: Table, part: ParsedUtxo, forced: bool) {
    if part.isInput && !forced then !HasOutpoint(t, part.txid, part.output.index) else !HasKey(t, KeyOfPart(part))
  }

  /** Part k gives the outpoint a new unspent row. */
  ghost predicate AddsAt(t: Table, subscribed: set<string>, wallets: set<string>, utxos: seq<ParsedUtxo>, i: nat,
                         saved: bool, k: int, o: Outpoint)
  {
    && i <= k < |utxos| && OutpointOf(utxos[k]) == o
    && Passes(subscribed, wallets, utxos[k], Forced(utxos, i, saved, k))
    && IsNew(t, utxos[k], Forced(utxos, i, saved, k))
  }

  ghost predicate Adds(t: Table, subscribed: set<string>, wallets: set<string>, utxos: seq<ParsedUtxo>, i: nat,
                       saved: bool, o: Outpoint)
  {
    exists k :: AddsAt(t, subscribed, wallets, utxos, i, saved, k, o)
  }

  ghost function AfterPart(t: Table, subscribed: set<string>, wallets: set<string>, utxos: seq<ParsedUtxo>, i: nat,
                           saved: bool): Table
    requires i < |utxos|
  {
    var force := i + 1 == |utxos| && !saved;
    if !force && PassesOver(t, wallets, utxos[i]) then t
    else SaveOutput(t, subscribed, utxos[i].output, utxos[i].txid, None, "", force)
  }

  lemma KeyHasOutpoint(t: Table, key: Key)
    requires HasKey(t, key)
    ensures HasOutpoint(t, key.txid, key.index)
  {
    assert t.rows[IdOf(t, key)].key == key;
  }

  /** One part: whose rows it touches and when it makes the outpoint unspent. */
  lemma PartOnOutpoint(t: Table, subscribed: set<string>, wallets: set<string>, utxos: seq<ParsedUtxo>, i: nat,
                       saved: bool, o: Outpoint)
    requires Valid(t) && i < |utxos|
    ensures var t1 := AfterPart(t, subscribed, wallets, utxos, i, saved);
            && Valid(t1)
            && (OutpointUnspent(t1, o) <==>
                  OutpointUnspent(t, o) || AddsAt(t, subscribed, wallets, utxos, i, saved, i, o))
  {
    var part := utxos[i];
    var force := i + 1 == |utxos| && !saved;
    assert Forced(utxos, i, saved, i) <==> force;
    var request := OutputRequest(part.output, part.txid, None, "", force);
    SaveKeepsValid(t, subscribed, request);
    SaveOnUnspent(t, subscribed, request, o);
    if HasKey(t, KeyOfPart(part)) {
      KeyHasOutpoint(t, KeyOfPart(part));
    }
  }

  /** A later part that was unknown before this part is unknown still, unless this part has just
      made its outpoint unspent; and nothing becomes unknown. */
  lemma PartKeepsNew(t: Table, subscribed: set<string>, wallets: set<string>, utxos: seq<ParsedUtxo>, i: nat,
                     saved: bool, later: ParsedUtxo, forced: bool)
    requires Valid(t) && i < |utxos|
    ensures var t1 := AfterPart(t, subscribed, wallets, utxos, i, saved);
            && (IsNew(t1, later, forced) ==> IsNew(t, later, forced))
            && (IsNew(t, later, forced) ==> IsNew(t1, later, forced) || OutpointUnspent(t1, OutpointOf(later)))
  {
    var part := utxos[i];
    var force := i + 1 == |utxos| && !saved;
    var request := OutputRequest(part.output, part.txid, None, "", force);
    SaveOnKey(t, subscribed, request, KeyOfPart(later));
    SaveOnHasOutpoint(t, subscribed, request, OutpointOf(later));
    SaveOnUnspent(t, subscribed, request, OutpointOf(later));
    if HasKey(t, request.key) {
      KeyHasOutpoint(t, request.key);
    }
  }

  lemma LaterForced(utxos: seq<ParsedUtxo>, i: nat, saved: bool, k: int)
    requires i < k < |utxos|
    ensures Forced(utxos, i, saved, k) <==> Forced(utxos, i + 1, saved || !utxos[i].isInput, k)
  {
    assert Forced(utxos, i, saved, k) ==> utxos[i].isInput;
  }

  /** The whole loop leaves an outpoint unspent exactly when it was, or when some part that passes
      the filters and was unknown at the start gives it a row. */
  lemma {:induction false} RecordOnOutpoint(t: Table, subscribed: set<string>, wallets: set<string>,
                                            utxos: seq<ParsedUtxo>, i: nat, saved: bool, o: Outpoint)
    requires Valid(t) && i <= |utxos|
    ensures OutpointUnspent(RecordUtxos(t, subscribed, wallets, utxos, i, saved), o) <==>
              OutpointUnspent(t, o) || Adds(t, subscribed, wallets, utxos, i, saved, o)
    decreases |utxos| - i
  {
    if i < |utxos| {
      var t1 := AfterPart(t, subscribed, wallets, utxos, i, saved);
      PartOnOutpoint(t, subscribed, wallets, utxos, i, saved, o);
      if i + 1 == |utxos| && !saved {
        RecordRest(t, t1, subscribed, wallets, utxos, i, saved, saved || !utxos[i].isInput, o);
      } else if PassesOver(t, wallets, utxos[i]) {
        RecordRest(t, t1, subscribed, wallets, utxos, i, saved, saved, o);
      } else {
        RecordRest(t, t1, subscribed, wallets, utxos, i, saved, saved || !utxos[i].isInput, o);
      }
    }
  }

  lemma {:induction false} RecordRest(t: Table, t1: Table, subscribed: set<string>, wallets: set<string>,
                                      utxos: seq<ParsedUtxo>, i: nat, saved: bool, saved1: bool, o: Outpoint)
    requires Valid(t) && Valid(t1) && i < |utxos| && t1 == AfterPart(t, subscribed, wallets, utxos, i, saved)
    requires saved1 == (saved || !utxos[i].isInput)
    requires OutpointUnspent(t1, o) <==>
               OutpointUnspent(t, o) || AddsAt(t, subscribed, wallets, utxos, i, saved, i, o)
    ensures OutpointUnspent(RecordUtxos(t1, subscribed, wallets, utxos, i + 1, saved1), o) <==>
              OutpointUnspent(t, o) || Adds(t, subscribed, wallets, utxos, i, saved, o)
    decreases |utxos| - i, 0
  {
    RecordOnOutpoint(t1, subscribed, wallets, utxos, i + 1, saved1, o);
    forall k | i < k < |utxos|
      ensures AddsAt(t1, subscribed, wallets, utxos, i + 1, saved1, k, o) ==>
                AddsAt(t, subscribed, wallets, utxos, i, saved, k, o)
      ensures AddsAt(t, subscribed, wallets, utxos, i, saved, k, o) ==>
                AddsAt(t1, subscribed, wallets, utxos, i + 1, saved1, k, o) || OutpointUnspent(t1, o)
    {
      LaterForced(utxos, i, saved, k);
      PartKeepsNew(t, subscribed, wallets, utxos, i, saved, utxos[k], Forced(utxos, i, saved, k));
    }
    if Adds(t, subscribed, wallets, utxos, i, saved, o) {
      var k :| AddsAt(t, subscribed, wallets, utxos, i, saved, k, o);
      assert k == i || i < k < |utxos|;
    }
    if Adds(t1, subscribed, wallets, utxos, i + 1, saved1, o) {
      var k :| AddsAt(t1, subscribed, wallets, utxos, i + 1, saved1, k, o);
      assert AddsAt(t, subscribed, wallets, utxos, i, saved, k, o);
    }
  }

  // ---------- One parse ----------

  /** Parsing this transaction gives the outpoint a new unspent row. */
  ghost predicate ParseAdds(t: Table, subscribed: set<string>, world: World, txid: string, o: Outpoint)
    requires txid in world.node
  {
    Adds(t, subscribed, world.walletAddresses, ExtractUtxos(world.node[txid]), 0, HasTxid(t, txid), o)
  }

  lemma MarkedKeepsKeys(t: Table, outpoints: set<Outpoint>, spender: string)
    ensures var marked := MarkSpent(t, outpoints, spender);
            && (forall key :: HasKey(marked, key) <==> HasKey(t, key))
            && (forall txid, index :: HasOutpoint(marked, txid, index) <==> HasOutpoint(t, txid, index))
            && (forall txid :: HasTxid(marked, txid) <==> HasTxid(t, txid))
  {
    var marked := MarkSpent(t, outpoints, spender);
    assert marked.rows.Keys == t.rows.Keys && forall id | id in t.rows :: marked.rows[id].key == t.rows[id].key;
    forall key
      ensures HasKey(marked, key) <==> HasKey(t, key)
    {
      if HasKey(t, key) {
        assert marked.rows[IdOf(t, key)].key == key;
      }
      if HasKey(marked, key) {
        assert t.rows[IdOf(marked, key)].key == key;
      }
    }
  }

  lemma MarkedUnspent(t: Table, outpoints: set<Outpoint>, spender: string, o: Outpoint)
    ensures OutpointUnspent(MarkSpent(t, outpoints, spender), o) <==> OutpointUnspent(t, o) && o !in outpoints
  {
    var marked := MarkSpent(t, outpoints, spender);
    forall id
      ensures RowUnspent(marked, id, o) <==> RowUnspent(t, id, o) && o !in outpoints
    {
    }
  }

  /** A parse leaves an outpoint unspent exactly when it was unspent and is no input of the
      transaction, or when the parse gives it a new row: the marking comes before the saving. */
  lemma ParseOnOutpoint(t: Table, histories: set<string>, subscribed: set<string>, world: World, txid: string,
                        o: Outpoint)
    requires Valid(t) && txid !in histories && CanParse(world, txid)
    ensures OutpointUnspent(Parse(t, histories, subscribed, world, txid), o) <==>
              || (OutpointUnspent(t, o) && o !in Outpoints(world.node[txid].inputs))
              || ParseAdds(t, subscribed, world, txid, o)
  {
    var tx, wallets := world.node[txid], world.walletAddresses;
    var utxos, marked := ExtractUtxos(tx), MarkSpent(t, Outpoints(tx.inputs), tx.txid);
    MarkSpentKeepsValid(t, Outpoints(tx.inputs), tx.txid);
    MarkedKeepsKeys(t, Outpoints(tx.inputs), tx.txid);
    MarkedUnspent(t, Outpoints(tx.inputs), tx.txid, o);
    var saved := HasTxid(t, txid);
    RecordOnOutpoint(marked, subscribed, wallets, utxos, 0, saved, o);
    assert forall k :: AddsAt(marked, subscribed, wallets, utxos, 0, saved, k, o) <==>
        AddsAt(t, subscribed, wallets, utxos, 0, saved, k, o);
  }

  ghost predicate WalletInput(input: TxInput, subscribed: set<string>, wallets: set<string>) {
    input.Prevout? && input.address != "" && input.address in subscribed && input.address in wallets
  }

  lemma {:induction false} InputUtxosMembers(inputs: seq<TxInput>, part: ParsedUtxo)
    ensures part in InputUtxos(inputs) <==>
              exists q :: q in inputs && q.Prevout?
                && part == ParsedUtxo(true, q.txid, Output(q.index, q.address, q.value, q.token))
  {
    if inputs != [] {
      InputUtxosMembers(inputs[..|inputs| - 1], part);
      assert inputs == inputs[..|inputs| - 1] + [inputs[|inputs| - 1]];
    }
  }

  /** The inputs become parts in their order. */
  lemma {:induction false} InputUtxosInOrder(inputs: seq<TxInput>)
    requires Coinbase !in inputs
    ensures |InputUtxos(inputs)| == |inputs|
    ensures forall i | 0 <= i < |inputs| ::
              var q := inputs[i];
              && q.Prevout?
              && InputUtxos(inputs)[i] == ParsedUtxo(true, q.txid, Output(q.index, q.address, q.value, q.token))
  {
    if inputs != [] {
      var front, last := inputs[..|inputs| - 1], inputs[|inputs| - 1];
      assert last in inputs && forall q | q in front :: q in inputs;
      InputUtxosInOrder(front);
    }
  }

  lemma PartsOfInput(tx: ParsedTx, o: Outpoint)
    requires o.0 != tx.txid
    ensures forall part | part in ExtractUtxos(tx) && OutpointOf(part) == o :: part in InputUtxos(tx.inputs)
    ensures forall part | part in InputUtxos(tx.inputs) :: part in ExtractUtxos(tx) && part.isInput
  {
    OutputUtxosAreOutputs(tx.txid, tx.outputs);
    forall part | part in InputUtxos(tx.inputs)
      ensures part.isInput
    {
      InputUtxosMembers(tx.inputs, part);
    }
  }

  /** A wallet of a subscribed address has the outpoint among the inputs. */
  ghost predicate SpentByWallet(tx: ParsedTx, subscribed: set<string>, wallets: set<string>, o: Outpoint) {
    exists q :: q in tx.inputs && WalletInput(q, subscribed, wallets) && (q.txid, q.index) == o
  }

  /** When the ledger knows some output of the transaction, its parse adds a row for an outpoint of
      another one exactly when that was unknown and a wallet's input. */
  lemma ParseAddsInputExactly(t: Table, subscribed: set<string>, world: World, txid: string, o: Outpoint)
    requires txid in world.node && HasTxid(t, txid) && o.0 != world.node[txid].txid
    ensures ParseAdds(t, subscribed, world, txid, o) <==>
              !HasOutpoint(t, o.0, o.1) && SpentByWallet(world.node[txid], subscribed, world.walletAddresses, o)
  {
    var tx, wallets := world.node[txid], world.walletAddresses;
    var utxos := ExtractUtxos(tx);
    PartsOfInput(tx, o);
    if ParseAdds(t, subscribed, world, txid, o) {
      var k :| AddsAt(t, subscribed, wallets, utxos, 0, true, k, o);
      assert utxos[k] in utxos;
      InputUtxosMembers(tx.inputs, utxos[k]);
    }
    forall q | q in tx.inputs && WalletInput(q, subscribed, wallets) && (q.txid, q.index) == o
      ensures !HasOutpoint(t, o.0, o.1) ==> ParseAdds(t, subscribed, world, txid, o)
    {
      var part := ParsedUtxo(true, q.txid, Output(q.index, q.address, q.value, q.token));
      InputUtxosMembers(tx.inputs, part);
      var k :| 0 <= k < |utxos| && utxos[k] == part;
      assert !HasOutpoint(t, o.0, o.1) ==> AddsAt(t, subscribed, wallets, utxos, 0, true, k, o);
    }
  }

  /** An input of a parsed transaction, some output of which the ledger knows, ends up as an unspent
      row exactly when the ledger did not know its outpoint and it is, under a subscribed address,
      an input of a wallet. */
  lemma InputLeftUnspentExactly(t: Table, histories: set<string>, subscribed: set<string>, world: World, txid: string,
                                p: TxInput)
    requires Valid(t) && txid !in histories && CanParse(world, txid) && HasTxid(t, txid)
    requires p in world.node[txid].inputs && p.Prevout? && p.txid != world.node[txid].txid
    ensures OutpointUnspent(Parse(t, histories, subscribed, world, txid), (p.txid, p.index)) <==>
              && !HasOutpoint(t, p.txid, p.index)
              && SpentByWallet(world.node[txid], subscribed, world.walletAddresses, (p.txid, p.index))
  {
    ParseOnOutpoint(t, histories, subscribed, world, txid, (p.txid, p.index));
    ParseAddsInputExactly(t, subscribed, world, txid, (p.txid, p.index));
    assert (p.txid, p.index) in Outpoints(world.node[txid].inputs);
  }

  // ---------- A whole run ----------

  /** The arguments of a run, with the table and the histories at its start. */
  datatype Sync = Sync(
    start: Table,
    histories: set<string>,
    subscribed: set<string>,
    world: World,
    address: string,
    snapshot: seq<Utxo>)
  {
    ghost function After(n: nat): Table
      requires n <= |snapshot|
    {
      Synced(start, histories, subscribed, world, address, snapshot[..n])
    }

    /** Round i parses its transaction. */
    ghost predicate Parses(i: int)
      requires 0 <= i < |snapshot|
    {
      && snapshot[i].txHash !in HistoriesAfterAll(histories, world, snapshot[..i])
      && CanParse(world, snapshot[i].txHash)
    }

    ghost predicate Spends(i: int, o: Outpoint)
      requires 0 <= i < |snapshot|
    {
      Parses(i) && o in Outpoints(world.node[snapshot[i].txHash].inputs)
    }

    /** Round i gives the outpoint a new unspent row. */
    ghost predicate AddsRow(i: int, o: Outpoint)
      requires 0 <= i < |snapshot|
    {
      && Parses(i)
      && ParseAdds(BeforeParse(start, histories, subscribed, world, address, snapshot, i), subscribed, world,
                   snapshot[i].txHash, o)
    }

    ghost function Spendings(n: nat, o: Outpoint): (s: seq<bool>)
      requires n <= |snapshot|
      ensures |s| == n
    {
      seq(n, i requires 0 <= i < n => Spends(i, o))
    }

    ghost function Additions(n: nat, o: Outpoint): (s: seq<bool>)
      requires n <= |snapshot|
      ensures |s| == n
    {
      seq(n, i requires 0 <= i < n => AddsRow(i, o))
    }

    /** After n rounds the last word on the outpoint is a row that a parse added, or an unspent row
        at the start, and no later round spent it. */
    ghost predicate LeftUnspent(n: nat, o: Outpoint)
      requires n <= |snapshot|
    {
      LastAdded(OutpointUnspent(start, o), Additions(n, o), Spendings(n, o))
    }
  }

  /** Some addition, or the start, is followed by no spending; one in the same round comes before. */
  ghost predicate LastAdded(start: bool, additions: seq<bool>, spendings: seq<bool>)
    requires |additions| == |spendings|
  {
    || (start && forall j | 0 <= j < |spendings| :: !spendings[j])
    || exists i :: AddedLast(additions, spendings, i)
  }

  ghost predicate AddedLast(additions: seq<bool>, spendings: seq<bool>, i: int) {
    0 <= i < |additions| && additions[i] && forall j | i < j < |spendings| :: !spendings[j]
  }

  lemma LastAddedStep(start: bool, additions: seq<bool>, spendings: seq<bool>, adds: bool, spends: bool)
    requires |additions| == |spendings|
    ensures LastAdded(start, additions + [adds], spendings + [spends]) <==>
              (LastAdded(start, additions, spendings) && !spends) || adds
  {
    var n := |additions|;
    var additions1, spendings1 := additions + [adds], spendings + [spends];
    assert spendings1[n] == spends;
    assert forall j | 0 <= j < n :: spendings1[j] == spendings[j];
    forall i | 0 <= i < n
      ensures AddedLast(additions1, spendings1, i) <==> AddedLast(additions, spendings, i) && !spends
    {
    }
    assert AddedLast(additions1, spendings1, n) <==> adds;
    if LastAdded(start, additions, spendings) && !spends && exists i :: AddedLast(additions, spendings, i) {
      var i :| AddedLast(additions, spendings, i);
      assert AddedLast(additions1, spendings1, i);
    }
  }

  lemma LeftUnspentStep(s: Sync, n: nat, o: Outpoint)
    requires n < |s.snapshot|
    ensures s.LeftUnspent(n + 1, o) <==> (s.LeftUnspent(n, o) && !s.Spends(n, o)) || s.AddsRow(n, o)
  {
    assert s.Spendings(n + 1, o) == s.Spendings(n, o) + [s.Spends(n, o)];
    assert s.Additions(n + 1, o) == s.Additions(n, o) + [s.AddsRow(n, o)];
    LastAddedStep(OutpointUnspent(s.start, o), s.Additions(n, o), s.Spendings(n, o), s.AddsRow(n, o), s.Spends(n, o));
  }

  /** Saving an output of the snapshot does not touch the rows of other outpoints. */
  lemma FreshOnOutpoint(t: Table, subscribed: set<string>, address: string, utxo: Utxo, o: Outpoint)
    requires Valid(t) && address in subscribed && address != "" && o != (utxo.txHash, utxo.txPos)
    ensures OutpointUnspent(RecordFresh(t, subscribed, address, utxo), o) <==> OutpointUnspent(t, o)
  {
    var after, key := RecordFresh(t, subscribed, address, utxo), KeyOf(address, utxo);
    if HasKey(t, key) {
      forall id
        ensures RowUnspent(after, id, o) <==> RowUnspent(t, id, o)
      {
      }
    } else {
      var output := Output(utxo.txPos, address, utxo.value, utxo.token);
      SaveOnUnspent(t, subscribed, OutputRequest(output, utxo.txHash, Some(utxo.height), "", false), o);
    }
  }

  /** One round, on an outpoint that the node does not list. */
  lemma RoundOnOutpoint(s: Sync, i: nat, o: Outpoint)
    requires Valid(s.start) && s.address in s.subscribed && s.address != ""
    requires i < |s.snapshot| && o !in ListedOutpoints(s.snapshot)
    ensures OutpointUnspent(s.After(i + 1), o) <==>
              (OutpointUnspent(s.After(i), o) && !s.Spends(i, o)) || s.AddsRow(i, o)
  {
    var utxo, earlier := s.snapshot[i], s.After(i);
    var known := HistoriesAfterAll(s.histories, s.world, s.snapshot[..i]);
    var before := RecordFresh(earlier, s.subscribed, s.address, utxo);
    assert utxo in s.snapshot;
    SyncedKeepsValid(s.start, s.histories, s.subscribed, s.world, s.address, s.snapshot[..i]);
    FreshOnOutpoint(earlier, s.subscribed, s.address, utxo, o);
    FreshKeepsValid(earlier, s.subscribed, s.address, utxo);
    RoundOf(s.start, s.histories, s.subscribed, s.world, s.address, s.snapshot, i);
    if s.Parses(i) {
      ParseOnOutpoint(before, known, s.subscribed, s.world, utxo.txHash, o);
    }
  }

  lemma RoundCarries(s: Sync, i: nat, o: Outpoint)
    requires Valid(s.start) && s.address in s.subscribed && s.address != ""
    requires i < |s.snapshot| && o !in ListedOutpoints(s.snapshot)
    requires OutpointUnspent(s.After(i), o) <==> s.LeftUnspent(i, o)
    ensures OutpointUnspent(s.After(i + 1), o) <==> s.LeftUnspent(i + 1, o)
  {
    RoundOnOutpoint(s, i, o);
    LeftUnspentStep(s, i, o);
  }

  lemma NothingSynced(s: Sync, o: Outpoint)
    ensures s.After(0) == s.start && (s.LeftUnspent(0, o) <==> OutpointUnspent(s.start, o))
  {
    assert s.snapshot[..0] == [];
  }

  /** After n rounds an outpoint that the node does not list is unspent exactly when a parse gave it
      a row, or it was unspent at the start, and no later round parsed a transaction that spends it. */
  lemma {:induction false} SyncedOnOutpoint(s: Sync, n: nat, o: Outpoint)
    requires Valid(s.start) && s.address in s.subscribed && s.address != ""
    requires n <= |s.snapshot| && o !in ListedOutpoints(s.snapshot)
    ensures OutpointUnspent(s.After(n), o) <==> s.LeftUnspent(n, o)
  {
    if n == 0 {
      NothingSynced(s, o);
    } else {
      SyncedOnOutpoint(s, n - 1, o);
      RoundCarries(s, n - 1, o);
    }
  }

  lemma FreshOnHasOutpoint(t: Table, subscribed: set<string>, address: string, utxo: Utxo, o: Outpoint)
    requires Valid(t) && address in subscribed && address != ""
    ensures HasOutpoint(RecordFresh(t, subscribed, address, utxo), o.0, o.1) <==>
              HasOutpoint(t, o.0, o.1) || o == (utxo.txHash, utxo.txPos)
    ensures HasTxid(RecordFresh(t, subscribed, address, utxo), utxo.txHash)
  {
    var after, key := RecordFresh(t, subscribed, address, utxo), KeyOf(address, utxo);
    var output := Output(utxo.txPos, address, utxo.value, utxo.token);
    var request := OutputRequest(output, utxo.txHash, Some(utxo.height), "", false);
    SaveOnHasOutpoint(t, subscribed, request, o);
    if HasKey(t, key) {
      assert after.rows.Keys == t.rows.Keys && forall id | id in t.rows :: after.rows[id].key == t.rows[id].key;
      assert after.rows[IdOf(t, key)].key == key;
    } else {
      assert after.rows[KeyId(t, key)].key == key;
    }
  }

  /** A round adds a row for an outpoint of another transaction exactly when its parse finds the
      outpoint unknown and a wallet's input. */
  lemma RoundAddsInputExactly(s: Sync, i: nat, o: Outpoint)
    requires Valid(s.start) && s.address in s.subscribed && s.address != ""
    requires i < |s.snapshot| && o !in ListedOutpoints(s.snapshot)
    requires s.snapshot[i].txHash in s.world.node && o.0 != s.world.node[s.snapshot[i].txHash].txid
    ensures s.AddsRow(i, o) <==>
              && s.Parses(i) && !HasOutpoint(s.After(i), o.0, o.1)
              && SpentByWallet(s.world.node[s.snapshot[i].txHash], s.subscribed, s.world.walletAddresses, o)
  {
    var utxo, earlier := s.snapshot[i], s.After(i);
    assert utxo in s.snapshot;
    SyncedKeepsValid(s.start, s.histories, s.subscribed, s.world, s.address, s.snapshot[..i]);
    FreshOnHasOutpoint(earlier, s.subscribed, s.address, utxo, o);
    ParseAddsInputExactly(RecordFresh(earlier, s.subscribed, s.address, utxo), s.subscribed, s.world, utxo.txHash, o);
  }

  // ---------- After the stale rows are marked ----------

  /** The final marking leaves rows of every other address as they are. */
  lemma StaleMarkLeavesOtherAddresses(t: Table, address: string, listed: set<Outpoint>, id: nat)
    requires id in t.rows && t.rows[id].key.address != address
    ensures MarkStale(t, address, listed).rows[id] == t.rows[id]
  {
  }

  lemma RecordKeepsKeyAbsent(t: Table, subscribed: set<string>, wallets: set<string>, utxos: seq<ParsedUtxo>, i: nat,
                             saved: bool, key: Key)
    requires Valid(t) && i <= |utxos| && !HasKey(t, key)
    requires forall part | part in utxos :: KeyOfPart(part) != key
    ensures !HasKey(RecordUtxos(t, subscribed, wallets, utxos, i, saved), key)
    decreases |utxos| - i
  {
    if i < |utxos| {
      var force := i + 1 == |utxos| && !saved;
      var request := OutputRequest(utxos[i].output, utxos[i].txid, None, "", force);
      var next := SaveOutput(t, subscribed, utxos[i].output, utxos[i].txid, None, "", force);
      assert utxos[i] in utxos;
      SaveOnKey(t, subscribed, request, key);
      SaveKeepsValid(t, subscribed, request);
      if !force && PassesOver(t, wallets, utxos[i]) {
        RecordKeepsKeyAbsent(t, subscribed, wallets, utxos, i + 1, saved, key);
      } else {
        RecordKeepsKeyAbsent(next, subscribed, wallets, utxos, i + 1, saved || !utxos[i].isInput, key);
      }
    }
  }

  /** No part of the node's transaction has the key. */
  ghost predicate NoPartHas(world: World, txid: string, key: Key) {
    txid in world.node ==> forall part | part in ExtractUtxos(world.node[txid]) :: KeyOfPart(part) != key
  }

  lemma ParseKeepsKeyAbsent(t: Table, histories: set<string>, subscribed: set<string>, world: World, txid: string,
                            key: Key)
    requires Valid(t) && !HasKey(t, key) && NoPartHas(world, txid, key)
    ensures !HasKey(Parse(t, histories, subscribed, world, txid), key)
  {
    if txid !in histories && CanParse(world, txid) {
      var tx := world.node[txid];
      var marked := MarkSpent(t, Outpoints(tx.inputs), tx.txid);
      MarkSpentKeepsValid(t, Outpoints(tx.inputs), tx.txid);
      MarkedKeepsKeys(t, Outpoints(tx.inputs), tx.txid);
      RecordKeepsKeyAbsent(marked, subscribed, world.walletAddresses, ExtractUtxos(tx), 0, HasTxid(marked, txid), key);
    }
  }

  lemma FreshKeepsKeyAbsent(t: Table, subscribed: set<string>, address: string, utxo: Utxo, key: Key)
    requires Valid(t) && !HasKey(t, key) && key != KeyOf(address, utxo)
    ensures !HasKey(RecordFresh(t, subscribed, address, utxo), key)
  {
    var after, output := RecordFresh(t, subscribed, address, utxo), Output(utxo.txPos, address, utxo.value, utxo.token);
    SaveOnKey(t, subscribed, OutputRequest(output, utxo.txHash, Some(utxo.height), "", false), key);
    assert HasKey(t, KeyOf(address, utxo)) ==> after.rows.Keys == t.rows.Keys;
    assert HasKey(t, KeyOf(address, utxo)) ==> forall id | id in t.rows :: after.rows[id].key == t.rows[id].key;
  }

  /** The outpoint is at other addresses: neither the ledger nor a transaction of the run has it at
      the synced one. */
  ghost predicate Elsewhere(s: Sync, o: Outpoint) {
    var key := Key(o.0, s.address, o.1);
    !HasKey(s.start, key) && forall u | u in s.snapshot :: NoPartHas(s.world, u.txHash, key)
  }

  lemma RoundKeepsElsewhere(s: Sync, i: nat, o: Outpoint)
    requires Valid(s.start) && Elsewhere(s, o) && i < |s.snapshot| && o !in ListedOutpoints(s.snapshot)
    requires !HasKey(s.After(i), Key(o.0, s.address, o.1))
    ensures !HasKey(s.After(i + 1), Key(o.0, s.address, o.1))
  {
    var utxo, key, earlier := s.snapshot[i], Key(o.0, s.address, o.1), s.After(i);
    assert utxo in s.snapshot;
    SyncedKeepsValid(s.start, s.histories, s.subscribed, s.world, s.address, s.snapshot[..i]);
    FreshKeepsKeyAbsent(earlier, s.subscribed, s.address, utxo, key);
    FreshKeepsValid(earlier, s.subscribed, s.address, utxo);
    ParseKeepsKeyAbsent(RecordFresh(earlier, s.subscribed, s.address, utxo),
                        HistoriesAfterAll(s.histories, s.world, s.snapshot[..i]), s.subscribed, s.world, utxo.txHash,
                        key);
    RoundOf(s.start, s.histories, s.subscribed, s.world, s.address, s.snapshot, i);
  }

  lemma {:induction false} SyncedKeepsElsewhere(s: Sync, n: nat, o: Outpoint)
    requires Valid(s.start) && Elsewhere(s, o) && n <= |s.snapshot| && o !in ListedOutpoints(s.snapshot)
    ensures !HasKey(s.After(n), Key(o.0, s.address, o.1))
  {
    if n == 0 {
      NothingSynced(s, o);
    } else {
      SyncedKeepsElsewhere(s, n - 1, o);
      RoundKeepsElsewhere(s, n - 1, o);
    }
  }

  ghost function FinalTable(s: Sync): Table {
    Completed(s.start, s.histories, s.subscribed, s.world, s.address, s.snapshot)
  }

  lemma StaleMarkOnOutpoint(t: Table, address: string, listed: set<Outpoint>, o: Outpoint)
    requires !HasKey(t, Key(o.0, address, o.1))
    ensures OutpointUnspent(MarkStale(t, address, listed), o) <==> OutpointUnspent(t, o)
  {
    forall id
      ensures RowUnspent(MarkStale(t, address, listed), id, o) <==> RowUnspent(t, id, o)
    {
      if id in t.rows && t.rows[id].key.address != address {
        StaleMarkLeavesOtherAddresses(t, address, listed, id);
      }
    }
  }

  /** A completed run leaves an outpoint of another address unspent, though some transaction spends
      it, exactly when a parse added a row for it after the last parse that marked it. */
  lemma CompletedOnOutpoint(s: Sync, o: Outpoint)
    requires Valid(s.start) && s.address in s.subscribed && s.address != ""
    requires o !in ListedOutpoints(s.snapshot) && Elsewhere(s, o)
    ensures OutpointUnspent(FinalTable(s), o) <==> s.LeftUnspent(|s.snapshot|, o)
  {
    assert s.snapshot[..|s.snapshot|] == s.snapshot;
    SyncedOnOutpoint(s, |s.snapshot|, o);
    SyncedKeepsElsewhere(s, |s.snapshot|, o);
    StaleMarkOnOutpoint(s.After(|s.snapshot|), s.address, ListedOutpoints(s.snapshot), o);
  }

  // ---------- It happens ----------

  /** A transaction that pays one address and spends an output of another. */
  function Payment(payee: string, payer: string, token: TokenRef): ParsedTx {
    ParsedTx("t", [Prevout("p", 0, payer, 7, token)], [Output(0, payee, 5, token)])
  }

  /** The payee is synced from an empty ledger; both addresses are subscribed and a wallet's. */
  function PaymentRun(payee: string, payer: string, token: TokenRef): Sync {
    Sync(EMPTY_TABLE, {}, {payee, payer}, World(map["t" := Payment(payee, payer, token)], {payee, payer}, {"t"}),
         payee, [Utxo("t", 0, 1, 5, token)])
  }

  lemma PaymentIsElsewhere(payee: string, payer: string, token: TokenRef)
    requires payee != payer
    ensures Elsewhere(PaymentRun(payee, payer, token), ("p", 0))
  {
    var tx := Payment(payee, payer, token);
    PartsOfInput(tx, ("p", 0));
    forall part | part in ExtractUtxos(tx)
      ensures KeyOfPart(part) != Key("p", payee, 0)
    {
      InputUtxosMembers(tx.inputs, part);
    }
  }

  lemma PaymentAddsRow(payee: string, payer: string, token: TokenRef)
    requires payee != payer && payee != "" && payer != ""
    ensures PaymentRun(payee, payer, token).AddsRow(0, ("p", 0))
  {
    var s, tx := PaymentRun(payee, payer, token), Payment(payee, payer, token);
    assert s.snapshot[..0] == [];
    assert tx.inputs[0] in tx.inputs && WalletInput(tx.inputs[0], s.subscribed, s.world.walletAddresses);
    RoundAddsInputExactly(s, 0, ("p", 0));
  }

  lemma PaymentIsConsistent(payee: string, payer: string, token: TokenRef)
    requires payee != payer
    ensures var s := PaymentRun(payee, payer, token);
            && IsSnapshot(s.snapshot) && Consistent(s.world, s.histories, s.address, s.snapshot)
            && AllParse(s.world, s.histories, s.snapshot, 1)
            && ("p", 0) in Outpoints(Payment(payee, payer, token).inputs)
            && ("p", 0) !in ListedOutpoints(s.snapshot)
  {
    var tx := Payment(payee, payer, token);
    assert tx.inputs[0] in tx.inputs;
  }

  /** The node lists the payment and the run completes with a consistent answer, but the output
      that the payment spent stays behind as an unspent row. */
  lemma SpentInputStaysUnspent(payee: string, payer: string, token: TokenRef)
    requires payee != payer && payee != "" && payer != ""
    ensures var s := PaymentRun(payee, payer, token);
            && IsSnapshot(s.snapshot) && Consistent(s.world, s.histories, s.address, s.snapshot)
            && AllParse(s.world, s.histories, s.snapshot, 1)
            && ("p", 0) in Outpoints(Payment(payee, payer, token).inputs)
            && OutpointUnspent(FinalTable(s), ("p", 0))
  {
    var s := PaymentRun(payee, payer, token);
    PaymentIsConsistent(payee, payer, token);
    PaymentIsElsewhere(payee, payer, token);
    PaymentAddsRow(payee, payer, token);
    LeftUnspentStep(s, 0, ("p", 0));
    CompletedOnOutpoint(s, ("p", 0));
  }
}
