/** The transaction output ledger (main/tasks.py: save_record, process_output, process_input). */
module Ledger {
  import opened Prelude

  /** The token columns; a CashToken names its category's fungible row, its NFT row, or both. */
  datatype TokenRef = TokenRef(token: string, nft: Option<string>, ft: Option<string>)

  datatype Key = Key(txid: string, address: string, index: int)

  datatype Row = Row(key: Key, token: TokenRef, value: int, spent: bool, spendingTxid: string, height: Option<nat>)

  /** The table by row id. Uniqueness of keys is not built in: it is proved. */
  datatype Table = Table(rows: map<nat, Row>, nextId: nat)

  const EMPTY_TABLE := Table(map[], 0)

  /** A parsed output; a blank address stands for none. */
  datatype Output = Output(index: int, address: string, value: int, token: TokenRef)

  /** An input as save_record receives it: the outpoint it spends, with its address and value. */
  datatype Input = Input(outpointTxid: string, outpointIndex: int, address: string, value: int, token: string)

  /** The arguments of save_record that reach the ledger. A blank spendingTxid means none. */
  datatype SaveRequest = SaveRequest(
    key: Key,
    token: TokenRef,
    value: int,
    height: Option<nat>,
    spendingTxid: string,
    forceCreate: bool)

  // ---------- Specification ----------

  ghost predicate HasKey(t: Table, key: Key) {
    exists id :: id in t.rows && t.rows[id].key == key
  }

  ghost function IdOf(t: Table, key: Key): (id: nat)
    requires HasKey(t, key)
    ensures id in t.rows && t.rows[id].key == key
  {
    var id :| id in t.rows && t.rows[id].key == key;
    id
  }

  ghost predicate Valid(t: Table) {
    && (forall id | id in t.rows :: id < t.nextId)
    && (forall i, j | i in t.rows && j in t.rows && t.rows[i].key == t.rows[j].key :: i == j)
  }

  function SetHeight(rows: map<nat, Row>, txid: string, height: nat): map<nat, Row> {
    map id | id in rows :: if rows[id].key.txid == txid then rows[id].(height := Some(height)) else rows[id]
  }

  /** The row of the key, created blank and unspent when there is none. */
  ghost function WithKey(t: Table, key: Key, token: TokenRef): Table {
    if HasKey(t, key) then t
    else Table(t.rows[t.nextId := Row(key, token, 0, false, "", None)], t.nextId + 1)
  }

  ghost function KeyId(t: Table, key: Key): nat {
    if HasKey(t, key) then IdOf(t, key) else t.nextId
  }

  predicate Accepts(subscribed: set<string>, request: SaveRequest) {
    request.key.address in subscribed || request.forceCreate
  }

  function Overwritten(row: Row, request: SaveRequest): Row {
    row.(value := request.value,
         spent := row.spent || request.spendingTxid != "",
         spendingTxid := if request.spendingTxid != "" then request.spendingTxid else row.spendingTxid,
         height := if request.height.Some? then request.height else row.height)
  }

  /** One save_record without its inputs. */
  ghost function Save(t: Table, subscribed: set<string>, request: SaveRequest): Table {
    if !Accepts(subscribed, request) then t
    else
      var t1 := WithKey(t, request.key, request.token);
      var id := KeyId(t, request.key);
      var rows := if request.height.Some? then SetHeight(t1.rows, request.key.txid, request.height.value) else t1.rows;
      Table(rows[id := Overwritten(t1.rows[id], request)], t1.nextId)
  }

  function KeyOfInput(input: Input): Key {
    Key(input.outpointTxid, input.address, input.outpointIndex)
  }

  function InputRequest(input: Input, spendingTxid: string): SaveRequest {
    SaveRequest(
      KeyOfInput(input),
      TokenRef(input.token, None, None),
      input.value,
      None,
      spendingTxid,
      true)
  }

  /** save_record of every input of a transaction, in order. */
  ghost function SaveInputs(t: Table, subscribed: set<string>, inputs: seq<Input>, txid: string): Table {
    if inputs == [] then t
    else Save(SaveInputs(t, subscribed, inputs[..|inputs| - 1], txid), subscribed,
              InputRequest(inputs[|inputs| - 1], txid))
  }

  /** save_record with its inputs, when they are given and to be saved. */
  ghost function SaveWithInputs(t: Table, subscribed: set<string>, request: SaveRequest, inputs: Option<seq<Input>>,
                                saveInputs: bool): Table
  {
    var t1 := Save(t, subscribed, request);
    if Accepts(subscribed, request) && inputs.Some? && saveInputs
    then SaveInputs(t1, subscribed, inputs.value, request.key.txid) else t1
  }

  function OutputRequest(output: Output, txid: string, height: Option<nat>, spendingTxid: string, forceCreate: bool)
    : SaveRequest
  {
    SaveRequest(Key(txid, output.address, output.index), output.token, output.value, height, spendingTxid, forceCreate)
  }

  /** process_output without inputs. */
  ghost function SaveOutput(t: Table, subscribed: set<string>, output: Output, txid: string, height: Option<nat>,
                            spendingTxid: string, forceCreate: bool): Table
  {
    if output.address == "" then t
    else Save(t, subscribed, OutputRequest(output, txid, height, spendingTxid, forceCreate))
  }

  /** process_output with all its arguments. */
  ghost function SaveOutputWithInputs(t: Table, subscribed: set<string>, output: Output, request: SaveRequest,
                                      inputs: Option<seq<Input>>, saveInputs: bool): Table
  {
    if output.address == "" then t else SaveWithInputs(t, subscribed, request, inputs, saveInputs)
  }

  /** The row id that a save answers with; None when the request is turned away. */
  ghost function SavedId(t: Table, subscribed: set<string>, request: SaveRequest): Option<nat> {
    if Accepts(subscribed, request) then Some(KeyId(t, request.key)) else None
  }

  ghost predicate Creates(t: Table, subscribed: set<string>, request: SaveRequest) {
    Accepts(subscribed, request) && !HasKey(t, request.key)
  }

  // ---------- The ledger object ----------

  class TransactionLedger {
    var rows: map<nat, Row>
    var nextId: nat
    var subscribed: set<string>
    /** The txids that have a wallet history record. */
    var histories: set<string>

    ghost function Rows(): Table
      reads this
    {
      Table(rows, nextId)
    }

    constructor (subscribed: set<string>)
      ensures Rows() == EMPTY_TABLE && this.subscribed == subscribed && histories == {}
    {
      rows, nextId := map[], 0;
      this.subscribed := subscribed;
      histories := {};
    }

    /** get_or_create by key and token columns. When the key exists with other token columns the
        insert violates the unique constraint, and the fallback fetches the row by its key. */
    method GetOrCreate(key: Key, token: TokenRef) returns (id: nat, created: bool)
      requires Valid(Rows())
      modifies this`rows, this`nextId
      ensures Valid(Rows())
      ensures created <==> !old(HasKey(Rows(), key))
      ensures Rows() == old(WithKey(Rows(), key, token)) && id == old(KeyId(Rows(), key))
      ensures id in rows && rows[id].key == key
    {
      if i :| i in rows && rows[i].key == key && Selects(rows[i].token, token) {
        assert HasKey(Rows(), key);
        return i, false;
      }
      if i :| i in rows && rows[i].key == key {
        assert HasKey(Rows(), key);
        return i, false;
      }
      id, created := nextId, true;
      rows := rows[id := Row(key, token, 0, false, "", None)];
      nextId := nextId + 1;
    }

    /** Fetches or creates the row of an accepted request and overwrites its columns. */
    method WriteRow(request: SaveRequest) returns (id: nat, created: bool)
      requires Valid(Rows()) && Accepts(subscribed, request)
      modifies this`rows, this`nextId
      ensures Valid(Rows()) && Rows() == Save(old(Rows()), subscribed, request)
      ensures created <==> !old(HasKey(Rows(), request.key))
      ensures id == old(KeyId(Rows(), request.key))
    {
      ghost var before := Rows();
      id, created := GetOrCreate(request.key, request.token);
      var row := rows[id].(value := request.value);
      if request.spendingTxid != "" {
        row := row.(spendingTxid := request.spendingTxid, spent := true);
      }
      if request.height.Some? {
        row := row.(height := request.height);
        rows := SetHeight(rows, request.key.txid, request.height.value);
      }
      rows := rows[id := row];
      assert Rows() == Save(before, subscribed, request);
      SaveKeepsValid(before, subscribed, request);
    }

    method SaveRecord(request: SaveRequest, inputs: Option<seq<Input>>, saveInputs: bool)
      returns (id: Option<nat>, created: bool)
      requires Valid(Rows())
      modifies this`rows, this`nextId
      ensures Valid(Rows())
      ensures Rows() == SaveWithInputs(old(Rows()), subscribed, request, inputs, saveInputs)
      ensures id == old(SavedId(Rows(), subscribed, request))
      ensures created <==> old(Creates(Rows(), subscribed, request))
      decreases if inputs.Some? then 1 else 0
    {
      if request.key.address !in subscribed && !request.forceCreate {
        return None, false;
      }
      var rowId: nat;
      rowId, created := WriteRow(request);
      if inputs.Some? && saveInputs {
        ghost var saved := Rows();
        for i := 0 to |inputs.value|
          invariant Valid(Rows())
          invariant Rows() == SaveInputs(saved, subscribed, inputs.value[..i], request.key.txid)
        {
          assert inputs.value[..i + 1][..i] == inputs.value[..i];
          var _, _ := SaveRecord(InputRequest(inputs.value[i], request.key.txid), None, true);
        }
        assert inputs.value[..|inputs.value|] == inputs.value;
      }
      return Some(rowId), created;
    }

    method ProcessOutput(output: Output, txid: string, height: Option<nat>, forceCreate: bool, spendingTxid: string,
                         inputs: Option<seq<Input>>, saveInputs: bool)
      returns (id: Option<nat>, created: bool)
      requires Valid(Rows())
      modifies this`rows, this`nextId
      ensures Valid(Rows())
      ensures var request := OutputRequest(output, txid, height, spendingTxid, forceCreate);
              && Rows() == SaveOutputWithInputs(old(Rows()), subscribed, output, request, inputs, saveInputs)
              && id == (if output.address == "" then None else old(SavedId(Rows(), subscribed, request)))
              && (created <==> output.address != "" && old(Creates(Rows(), subscribed, request)))
      ensures inputs.None? ==>
                Rows() == SaveOutput(old(Rows()), subscribed, output, txid, height, spendingTxid, forceCreate)
    {
      if output.address == "" {
        return None, false;
      }
      id, created := SaveRecord(OutputRequest(output, txid, height, spendingTxid, forceCreate), inputs, saveInputs);
    }

    /** process_input: the spent output itself, with the spender's txid; the rest is passed on. */
    method ProcessInput(outpoint: Output, txid: string, spendingTxid: string, height: Option<nat>, forceCreate: bool,
                        inputs: Option<seq<Input>>, saveInputs: bool)
      returns (id: Option<nat>, created: bool)
      requires Valid(Rows())
      modifies this`rows, this`nextId
      ensures Valid(Rows())
      ensures var request := OutputRequest(outpoint, txid, height, spendingTxid, forceCreate);
              && Rows() == SaveOutputWithInputs(old(Rows()), subscribed, outpoint, request, inputs, saveInputs)
              && id == (if outpoint.address == "" then None else old(SavedId(Rows(), subscribed, request)))
              && (created <==> outpoint.address != "" && old(Creates(Rows(), subscribed, request)))
    {
      id, created := ProcessOutput(outpoint, txid, height, forceCreate, spendingTxid, inputs, saveInputs);
    }
  }

  /** The token columns that get_or_create filters on. */
  predicate Selects(stored: TokenRef, asked: TokenRef) {
    stored.token == asked.token && (asked.nft.Some? ==> stored.nft == asked.nft)
    && (asked.ft.Some? ==> stored.ft == asked.ft)
  }

  // ---------- What every call keeps ----------

  /** Rows are never removed and keep their keys, and a spent row stays spent. */
  ghost predicate Evolves(before: Table, after: Table) {
    && before.nextId <= after.nextId
    && forall id | id in before.rows ::
         id in after.rows && after.rows[id].key == before.rows[id].key
         && (before.rows[id].spent ==> after.rows[id].spent)
  }

  lemma SaveKeepsValid(t: Table, subscribed: set<string>, request: SaveRequest)
    requires Valid(t)
    ensures Valid(Save(t, subscribed, request))
  {
  }

  lemma SaveEvolves(t: Table, subscribed: set<string>, request: SaveRequest)
    requires Valid(t)
    ensures Evolves(t, Save(t, subscribed, request))
  {
  }

  lemma {:induction false} SaveInputsKeeps(t: Table, subscribed: set<string>, inputs: seq<Input>, txid: string)
    requires Valid(t)
    ensures Valid(SaveInputs(t, subscribed, inputs, txid)) && Evolves(t, SaveInputs(t, subscribed, inputs, txid))
  {
    if inputs != [] {
      var t1 := SaveInputs(t, subscribed, inputs[..|inputs| - 1], txid);
      SaveInputsKeeps(t, subscribed, inputs[..|inputs| - 1], txid);
      var request := InputRequest(inputs[|inputs| - 1], txid);
      SaveKeepsValid(t1, subscribed, request);
      SaveEvolves(t1, subscribed, request);
    }
  }

  /** One call from outside: of save_record, process_output or process_input, with the
      addresses subscribed at that time. */
  datatype Call =
    | SaveRecordCall(subscribed: set<string>, request: SaveRequest, inputs: Option<seq<Input>>, saveInputs: bool)
    | ProcessOutputCall(subscribed: set<string>, output: Output, txid: string, height: Option<nat>, forceCreate: bool,
                        spendingTxid: string, inputs: Option<seq<Input>>, saveInputs: bool)
    | ProcessInputCall(subscribed: set<string>, outpoint: Output, txid: string, spendingTxid: string,
                       height: Option<nat>, forceCreate: bool, inputs: Option<seq<Input>>, saveInputs: bool)

  ghost function Apply(t: Table, call: Call): Table {
    match call
    case SaveRecordCall(subscribed, request, inputs, saveInputs) =>
      SaveWithInputs(t, subscribed, request, inputs, saveInputs)
    case ProcessOutputCall(subscribed, output, txid, height, force, spendingTxid, inputs, saveInputs) =>
      SaveOutputWithInputs(t, subscribed, output, OutputRequest(output, txid, height, spendingTxid, force),
                           inputs, saveInputs)
    case ProcessInputCall(subscribed, outpoint, txid, spendingTxid, height, force, inputs, saveInputs) =>
      SaveOutputWithInputs(t, subscribed, outpoint, OutputRequest(outpoint, txid, height, spendingTxid, force),
                           inputs, saveInputs)
  }

  ghost function Run(t: Table, calls: seq<Call>): Table {
    if calls == [] then t else Apply(Run(t, calls[..|calls| - 1]), calls[|calls| - 1])
  }

  lemma SaveWithInputsKeeps(t: Table, subscribed: set<string>, request: SaveRequest, inputs: Option<seq<Input>>,
                            saveInputs: bool)
    requires Valid(t)
    ensures var after := SaveWithInputs(t, subscribed, request, inputs, saveInputs);
            Valid(after) && Evolves(t, after)
  {
    SaveKeepsValid(t, subscribed, request);
    SaveEvolves(t, subscribed, request);
    if inputs.Some? {
      SaveInputsKeeps(Save(t, subscribed, request), subscribed, inputs.value, request.key.txid);
    }
  }

  /** Over any sequence of calls there is at most one row per key, no row disappears and no spent
      row becomes unspent. */
  lemma {:induction false} RunKeeps(t: Table, calls: seq<Call>)
    requires Valid(t)
    ensures Valid(Run(t, calls)) && Evolves(t, Run(t, calls))
  {
    if calls != [] {
      var t1, call := Run(t, calls[..|calls| - 1]), calls[|calls| - 1];
      RunKeeps(t, calls[..|calls| - 1]);
      match call {
        case SaveRecordCall(subscribed, request, inputs, saveInputs) =>
          SaveWithInputsKeeps(t1, subscribed, request, inputs, saveInputs);
        case ProcessOutputCall(subscribed, output, txid, height, force, spendingTxid, inputs, saveInputs) =>
          var request := OutputRequest(output, txid, height, spendingTxid, force);
          SaveWithInputsKeeps(t1, subscribed, request, inputs, saveInputs);
        case ProcessInputCall(subscribed, outpoint, txid, spendingTxid, height, force, inputs, saveInputs) =>
          var request := OutputRequest(outpoint, txid, height, spendingTxid, force);
          SaveWithInputsKeeps(t1, subscribed, request, inputs, saveInputs);
      }
    }
  }

  /** The row of a key exists, is spent, and names this spender. */
  ghost predicate SpentBy(t: Table, key: Key, txid: string) {
    exists id :: id in t.rows && t.rows[id].key == key && t.rows[id].spent && t.rows[id].spendingTxid == txid
  }

  lemma SaveSetsRow(t: Table, subscribed: set<string>, request: SaveRequest)
    requires Valid(t) && Accepts(subscribed, request)
    ensures var after, id := Save(t, subscribed, request), KeyId(t, request.key);
            && id in after.rows && after.rows[id].key == request.key && after.rows[id].value == request.value
            && (request.spendingTxid != "" ==>
                  after.rows[id].spent && after.rows[id].spendingTxid == request.spendingTxid)
            && (request.spendingTxid == "" ==> after.rows[id].spent == (HasKey(t, request.key) && t.rows[id].spent))
  {
  }

  /** What a save is not given it keeps: the height and the spender of a row that was there. */
  lemma SaveKeepsUngiven(t: Table, subscribed: set<string>, request: SaveRequest)
    requires Valid(t) && Accepts(subscribed, request)
    ensures var after, id := Save(t, subscribed, request), KeyId(t, request.key);
            && id in after.rows
            && (request.height.Some? ==> after.rows[id].height == request.height)
            && (request.height.None? ==>
                  after.rows[id].height == if HasKey(t, request.key) then t.rows[id].height else None)
            && (request.spendingTxid == "" ==>
                  after.rows[id].spendingTxid == if HasKey(t, request.key) then t.rows[id].spendingTxid else "")
  {
  }

  /** Nothing but the row of the key is written, except for the height of rows of the same
      transaction; a new row takes the token it was asked for, an old one keeps its own. */
  lemma SaveTouchesOneRow(t: Table, subscribed: set<string>, request: SaveRequest, other: nat)
    requires Valid(t) && Accepts(subscribed, request)
    ensures var after, id := Save(t, subscribed, request), KeyId(t, request.key);
            && after.rows.Keys == t.rows.Keys + {id}
            && after.rows[id].token == (if HasKey(t, request.key) then t.rows[id].token else request.token)
            && (other in t.rows && other != id ==>
                  after.rows[other] == if request.height.Some? && t.rows[other].key.txid == request.key.txid
                                       then t.rows[other].(height := request.height) else t.rows[other])
  {
  }

  lemma SpentByStays(t: Table, subscribed: set<string>, request: SaveRequest, key: Key, txid: string)
    requires Valid(t) && SpentBy(t, key, txid)
    requires request.spendingTxid == txid
    ensures SpentBy(Save(t, subscribed, request), key, txid)
  {
    var id :| id in t.rows && t.rows[id].key == key && t.rows[id].spent && t.rows[id].spendingTxid == txid;
    var after := Save(t, subscribed, request);
    assert id in after.rows && after.rows[id].key == key && after.rows[id].spent && after.rows[id].spendingTxid == txid;
  }

  /** A call that saves its inputs leaves every input outpoint spent by the saved transaction. */
  lemma {:induction false} SavedInputsAreSpent(t: Table, subscribed: set<string>, inputs: seq<Input>, txid: string,
                                               i: nat)
    requires Valid(t) && i < |inputs| && txid != ""
    ensures SpentBy(SaveInputs(t, subscribed, inputs, txid), KeyOfInput(inputs[i]), txid)
  {
    var front, request := inputs[..|inputs| - 1], InputRequest(inputs[|inputs| - 1], txid);
    SaveInputsKeeps(t, subscribed, front, txid);
    var t1 := SaveInputs(t, subscribed, front, txid);
    if i < |inputs| - 1 {
      SavedInputsAreSpent(t, subscribed, front, txid, i);
      SpentByStays(t1, subscribed, request, KeyOfInput(inputs[i]), txid);
    } else {
      SaveSetsRow(t1, subscribed, request);
    }
  }

  lemma CallSpendsItsInputs(t: Table, subscribed: set<string>, request: SaveRequest, inputs: seq<Input>, i: nat)
    requires Valid(t) && Accepts(subscribed, request) && request.key.txid != "" && i < |inputs|
    ensures SpentBy(SaveWithInputs(t, subscribed, request, Some(inputs), true), KeyOfInput(inputs[i]),
                    request.key.txid)
  {
    SaveKeepsValid(t, subscribed, request);
    SavedInputsAreSpent(Save(t, subscribed, request), subscribed, inputs, request.key.txid, i);
  }

  /** Some row of the key has this value. */
  ghost predicate HasValue(t: Table, key: Key, value: int) {
    exists id :: id in t.rows && t.rows[id].key == key && t.rows[id].value == value
  }

  lemma SaveKeepsValue(t: Table, subscribed: set<string>, request: SaveRequest, key: Key, value: int)
    requires Valid(t) && HasValue(t, key, value)
    requires request.key == key ==> request.value == value
    ensures HasValue(Save(t, subscribed, request), key, value)
  {
    var id :| id in t.rows && t.rows[id].key == key && t.rows[id].value == value;
    var after := Save(t, subscribed, request);
    assert id in after.rows && after.rows[id].key == key && after.rows[id].value == value;
  }

  lemma SaveSetsValue(t: Table, subscribed: set<string>, request: SaveRequest)
    requires Valid(t) && Accepts(subscribed, request)
    ensures HasValue(Save(t, subscribed, request), request.key, request.value)
  {
    SaveSetsRow(t, subscribed, request);
  }

  /** The row of an input ends with the value of its last mention among the inputs. */
  lemma {:induction false} SavedInputsHaveTheirValues(t: Table, subscribed: set<string>, inputs: seq<Input>,
                                                      txid: string, i: nat)
    requires Valid(t) && i < |inputs|
    requires forall j | i < j < |inputs| :: KeyOfInput(inputs[j]) != KeyOfInput(inputs[i])
    ensures HasValue(SaveInputs(t, subscribed, inputs, txid), KeyOfInput(inputs[i]), inputs[i].value)
  {
    var front, request := inputs[..|inputs| - 1], InputRequest(inputs[|inputs| - 1], txid);
    SaveInputsKeeps(t, subscribed, front, txid);
    var t1 := SaveInputs(t, subscribed, front, txid);
    if i < |inputs| - 1 {
      SavedInputsHaveTheirValues(t, subscribed, front, txid, i);
      SaveKeepsValue(t1, subscribed, request, KeyOfInput(inputs[i]), inputs[i].value);
    } else {
      SaveSetsValue(t1, subscribed, request);
    }
  }

  /** Saving inputs gives no row a height and takes none away. */
  lemma {:induction false} SavedInputsKeepHeights(t: Table, subscribed: set<string>, inputs: seq<Input>, txid: string)
    requires Valid(t)
    ensures var after := SaveInputs(t, subscribed, inputs, txid);
            forall id | id in after.rows :: after.rows[id].height == if id in t.rows then t.rows[id].height else None
  {
    if inputs != [] {
      var front, request := inputs[..|inputs| - 1], InputRequest(inputs[|inputs| - 1], txid);
      SavedInputsKeepHeights(t, subscribed, front, txid);
      SaveInputsKeeps(t, subscribed, front, txid);
      SaveKeepsUngiven(SaveInputs(t, subscribed, front, txid), subscribed, request);
      forall id
        ensures var t1 := SaveInputs(t, subscribed, front, txid);
                id in t1.rows && id != KeyId(t1, request.key) ==> Save(t1, subscribed, request).rows[id] == t1.rows[id]
      {
        SaveTouchesOneRow(SaveInputs(t, subscribed, front, txid), subscribed, request, id);
      }
    }
  }

  /** Inputs are saved only when they are given and asked for: otherwise the call writes one row. */
  lemma CallWithoutInputsWritesOneRow(t: Table, subscribed: set<string>, request: SaveRequest,
                                      inputs: Option<seq<Input>>, saveInputs: bool)
    requires Valid(t) && (inputs.None? || !saveInputs)
    ensures var after := SaveWithInputs(t, subscribed, request, inputs, saveInputs);
            after.rows.Keys == t.rows.Keys + if Accepts(subscribed, request) then {KeyId(t, request.key)} else {}
  {
    if Accepts(subscribed, request) {
      SaveTouchesOneRow(t, subscribed, request, 0);
    }
  }

  ghost predicate RowIs(t: Table, id: nat, key: Key, value: int, token: TokenRef) {
    id in t.rows && t.rows[id].key == key && t.rows[id].value == value && t.rows[id].token == token
  }

  /** Saving an output that is accepted writes the row of its txid, address and index, with its value;
      a new row has its token and height and no spender but the given one. */
  lemma SaveOutputWritesOutput(t: Table, subscribed: set<string>, output: Output, txid: string, height: Option<nat>,
                               spendingTxid: string, forceCreate: bool) returns (id: nat)
    requires Valid(t) && output.address != "" && (output.address in subscribed || forceCreate)
    ensures var after, key := SaveOutput(t, subscribed, output, txid, height, spendingTxid, forceCreate),
                              Key(txid, output.address, output.index);
            && id in after.rows && after.rows[id].key == key && after.rows[id].value == output.value
            && (!HasKey(t, key) ==>
                  && RowIs(after, id, key, output.value, output.token) && after.rows[id].height == height
                  && after.rows[id].spendingTxid == spendingTxid && (after.rows[id].spent <==> spendingTxid != ""))
  {
    var request := OutputRequest(output, txid, height, spendingTxid, forceCreate);
    id := KeyId(t, request.key);
    SaveSetsRow(t, subscribed, request);
    SaveKeepsUngiven(t, subscribed, request);
    SaveTouchesOneRow(t, subscribed, request, id);
  }

  /** Saving an input writes the row of the outpoint that it spends; a new row has its token. */
  lemma SaveInputWritesOutpoint(t: Table, subscribed: set<string>, input: Input, txid: string) returns (id: nat)
    requires Valid(t) && txid != ""
    ensures var after, key := SaveInputs(t, subscribed, [input], txid),
                              Key(input.outpointTxid, input.address, input.outpointIndex);
            && id in after.rows && after.rows[id].key == key && after.rows[id].value == input.value
            && after.rows[id].spent && after.rows[id].spendingTxid == txid
            && (!HasKey(t, key) ==> RowIs(after, id, key, input.value, TokenRef(input.token, None, None)))
  {
    var request := InputRequest(input, txid);
    assert [input][..0] == [];
    assert SaveInputs(t, subscribed, [], txid) == t;
    id := KeyId(t, request.key);
    SaveSetsRow(t, subscribed, request);
    SaveTouchesOneRow(t, subscribed, request, id);
  }
}
