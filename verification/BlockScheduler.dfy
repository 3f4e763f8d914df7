/** The block scheduler (main/tasks.py: manage_blocks, ready_to_accept), called sequentially. */
module BlockScheduler {
  import opened Prelude
  import opened Ledger
  import opened UtxoSync
  import opened BlockScan

  datatype Block = Block(processed: bool, requiresFullScan: bool, transactionsCount: nat)

  /** Redis and the block table. ACTIVE-BLOCK is None when it is blank. */
  datatype State = State(pending: seq<nat>, ready: bool, activeBlock: Option<nat>, blocks: map<nat, Block>)

  /** What the node gives for a block: all transactions, or an error after some were saved. */
  datatype NodeAnswer = Loaded(txs: seq<ParsedTx>) | Broken(saved: seq<ParsedTx>)

  // ---------- Lists ----------

  function Insert(sorted: seq<nat>, x: nat): seq<nat> {
    if sorted == [] then [x]
    else if x <= sorted[0] then [x] + sorted
    else [sorted[0]] + Insert(sorted[1..], x)
  }

  function Sort(s: seq<nat>): seq<nat> {
    if s == [] then [] else Insert(Sort(s[1..]), s[0])
  }

  /** sorted(set(s)) */
  function SortUnique(s: seq<nat>): seq<nat> {
    if s == [] then []
    else
      var rest := SortUnique(s[1..]);
      if s[0] in s[1..] then rest else Insert(rest, s[0])
  }

  ghost function Elements(s: seq<nat>): set<nat> {
    set x | x in s
  }

  ghost predicate Ascending(s: seq<nat>) {
    s != [] ==> AtMost(s[0], s[1..]) && Ascending(s[1..])
  }

  ghost predicate AtMost(x: nat, s: seq<nat>) {
    forall y | y in s :: x <= y
  }

  lemma {:induction false} InsertMembers(sorted: seq<nat>, x: nat)
    ensures |Insert(sorted, x)| == |sorted| + 1
    ensures forall y :: y in Insert(sorted, x) <==> y == x || y in sorted
  {
    if sorted != [] && sorted[0] < x {
      InsertMembers(sorted[1..], x);
      assert sorted == [sorted[0]] + sorted[1..];
    }
  }

  lemma {:induction false} InsertAscending(sorted: seq<nat>, x: nat)
    requires Ascending(sorted)
    ensures Ascending(Insert(sorted, x))
  {
    if sorted != [] {
      assert sorted == [sorted[0]] + sorted[1..];
      if x <= sorted[0] {
        assert AtMost(x, sorted);
        assert ([x] + sorted)[1..] == sorted;
      } else {
        InsertMembers(sorted[1..], x);
        InsertAscending(sorted[1..], x);
        assert AtMost(sorted[0], Insert(sorted[1..], x));
        assert Insert(sorted, x)[1..] == Insert(sorted[1..], x);
      }
    }
  }

  lemma InsertShape(sorted: seq<nat>, x: nat)
    requires Ascending(sorted)
    ensures |Insert(sorted, x)| == |sorted| + 1
    ensures Elements(Insert(sorted, x)) == Elements(sorted) + {x}
    ensures Ascending(Insert(sorted, x))
  {
    InsertMembers(sorted, x);
    InsertAscending(sorted, x);
  }

  lemma {:induction false} SortShape(s: seq<nat>)
    ensures |Sort(s)| == |s| && Elements(Sort(s)) == Elements(s) && Ascending(Sort(s))
  {
    if s != [] {
      SortShape(s[1..]);
      InsertShape(Sort(s[1..]), s[0]);
      assert s == [s[0]] + s[1..];
    }
  }

  lemma {:induction false} SortUniqueShape(s: seq<nat>)
    ensures |SortUnique(s)| == |Elements(s)| <= |s|
    ensures Elements(SortUnique(s)) == Elements(s) && Ascending(SortUnique(s))
  {
    if s != [] {
      SortUniqueShape(s[1..]);
      assert s == [s[0]] + s[1..];
      if s[0] in s[1..] {
        assert Elements(s) == Elements(s[1..]);
      } else {
        InsertShape(SortUnique(s[1..]), s[0]);
        assert Elements(s) == Elements(s[1..]) + {s[0]};
      }
    }
  }

  // ---------- One call ----------

  ghost function Unscanned(blocks: map<nat, Block>): set<nat> {
    set b | b in blocks && !blocks[b].processed && blocks[b].requiresFullScan
  }

  /** An answer of the refill query: the unscanned blocks, each once, in any order. */
  ghost predicate IsRefill(s: State, refill: seq<nat>) {
    Elements(refill) == Unscanned(s.blocks) && |refill| == |Unscanned(s.blocks)|
  }

  /** The block list of a call. */
  function BlockList(s: State, refill: seq<nat>): seq<nat> {
    if s.pending == [] then refill else Sort(s.pending)
  }

  function AfterCall(s: State, refill: seq<nat>, answer: NodeAnswer): State {
    var list := BlockList(s, refill);
    if !s.ready || list == [] then s.(pending := if s.pending == [] then refill else s.pending)
    else
      var active, rest := list[0], SortUnique(list[1..]);
      if active !in s.blocks then s.(pending := rest)
      else if answer.Broken? then State(rest, true, Some(active), s.blocks)
      else State(rest, true, None,
                 s.blocks[active := s.blocks[active].(processed := true, transactionsCount := |answer.txs|)])
  }

  class BlockManager {
    var pending: seq<nat>
    var ready: bool
    var activeBlock: Option<nat>
    var blocks: map<nat, Block>
    const ledger: TransactionLedger

    ghost function Shared(): State
      reads this
    {
      State(pending, ready, activeBlock, blocks)
    }

    constructor (ledger: TransactionLedger, blocks: map<nat, Block>)
      ensures Shared() == State([], true, None, blocks) && this.ledger == ledger
    {
      pending, ready, activeBlock := [], true, None;
      this.blocks, this.ledger := blocks, ledger;
    }

    method ReadyToAccept(number: nat, txsCount: nat)
      requires number in blocks
      modifies this`ready, this`activeBlock, this`blocks
      ensures ready && activeBlock == None
      ensures blocks == old(blocks)[number := old(blocks)[number].(processed := true, transactionsCount := txsCount)]
    {
      blocks := blocks[number := blocks[number].(processed := true, transactionsCount := txsCount)];
      ready := true;
      activeBlock := None;
    }

    /** manage_blocks. The answer of the refill query and of the node come from outside. */
    method ManageBlocks(refill: seq<nat>, answer: NodeAnswer)
      requires Valid(ledger.Rows())
      requires pending == [] ==> IsRefill(Shared(), refill)
      modifies this, ledger`rows, ledger`nextId
      ensures Shared() == AfterCall(old(Shared()), refill, answer)
      ensures Valid(ledger.Rows())
      ensures ledger.Rows() == LedgerAfterCall(old(ledger.Rows()), ledger.subscribed, old(Shared()), refill, answer)
    {
      var list := Sort(pending);
      SortShape(pending);
      if |list| == 0 {
        list := refill;
        pending := list;
      }
      if list == [] || !ready {
        return;
      }
      var active := list[0];
      pending := SortUnique(list[1..]);
      if active in blocks {
        activeBlock := Some(active);
        ready := false;
        match answer {
          case Loaded(txs) =>
            ScanBlock(ledger, txs, active);
            ReadyToAccept(active, |txs|);
          case Broken(saved) =>
            ScanBlock(ledger, saved, active);
        }
        ready := true;
      }
    }
  }

  /** The block that a call tries to process. */
  function ActiveBlock(s: State, refill: seq<nat>): Option<nat> {
    var list := BlockList(s, refill);
    if !s.ready || list == [] then None else Some(list[0])
  }

  /** What a call does to the list: its head leaves, once, and nothing joins. */
  lemma CallShortensList(s: State, refill: seq<nat>, answer: NodeAnswer)
    requires s.ready && (s.pending == [] ==> IsRefill(s, refill)) && BlockList(s, refill) != []
    ensures var list, after := BlockList(s, refill), AfterCall(s, refill, answer);
            && |list| == (if s.pending == [] then |Unscanned(s.blocks)| else |s.pending|)
            && Elements(list) == (if s.pending == [] then Unscanned(s.blocks) else Elements(s.pending))
            && |after.pending| < |list| && after.ready
            && Elements(after.pending) <= Elements(list)
            && Elements(list) <= Elements(after.pending) + {list[0]}
            && Ascending(after.pending)
  {
    var list := BlockList(s, refill);
    SortShape(s.pending);
    SortUniqueShape(list[1..]);
    assert list == [list[0]] + list[1..];
  }

  /** While blocks are pending, a call takes the lowest of them. */
  lemma LowestPendingFirst(s: State, refill: seq<nat>)
    requires s.ready && s.pending != []
    ensures var active := ActiveBlock(s, refill);
            active.Some? && active.value in s.pending && forall b | b in s.pending :: active.value <= b
  {
    SortShape(s.pending);
    var list := Sort(s.pending);
    assert list[0] in Elements(list);
    forall b | b in s.pending
      ensures list[0] <= b
    {
      assert b in Elements(list);
    }
  }

  // ---------- Runs ----------

  /** The outside answers of one call. */
  datatype Answers = Answers(refill: seq<nat>, node: NodeAnswer)

  ghost function Run(s: State, calls: seq<Answers>): State
    decreases |calls|
  {
    if calls == [] then s else Run(AfterCall(s, calls[0].refill, calls[0].node), calls[1..])
  }

  /** Every refill answer of the run is one that the block table gives at that point. */
  ghost predicate Honest(s: State, calls: seq<Answers>)
    decreases |calls|
  {
    calls != [] ==>
      && (s.pending == [] ==> IsRefill(s, calls[0].refill))
      && Honest(AfterCall(s, calls[0].refill, calls[0].node), calls[1..])
  }

  ghost predicate NodeWorks(calls: seq<Answers>) {
    forall c | c in calls :: c.node.Loaded?
  }

  /** The number of calls that are still needed. */
  ghost function Remaining(s: State): nat {
    |s.pending| + |Unscanned(s.blocks) - Elements(s.pending)|
  }

  /** A call with a working node brings the end one call nearer. */
  lemma CallMakesProgress(s: State, refill: seq<nat>, answer: NodeAnswer)
    requires s.ready && (s.pending == [] ==> IsRefill(s, refill)) && answer.Loaded?
    ensures var after := AfterCall(s, refill, answer);
            after.ready && (Remaining(after) < Remaining(s) || Remaining(after) == Remaining(s) == 0)
  {
    var list, after := BlockList(s, refill), AfterCall(s, refill, answer);
    if list == [] {
      SortShape(s.pending);
      assert Elements(list) == {};
      assert Unscanned(s.blocks) == {};
    } else {
      CallShortensList(s, refill, answer);
      var active := list[0];
      assert Unscanned(after.blocks) == Unscanned(s.blocks) - {active};
      if s.pending == [] {
        assert Elements(s.pending) == {};
        assert Unscanned(s.blocks) - Elements(s.pending) == Unscanned(s.blocks);
        assert Unscanned(after.blocks) - Elements(after.pending) == {};
      } else {
        assert Unscanned(after.blocks) - Elements(after.pending) <= Unscanned(s.blocks) - Elements(s.pending);
        SubsetSize(Unscanned(after.blocks) - Elements(after.pending), Unscanned(s.blocks) - Elements(s.pending));
      }
    }
  }

  lemma {:induction false} RunDrains(s: State, calls: seq<Answers>)
    requires s.ready && Honest(s, calls) && NodeWorks(calls) && Remaining(s) <= |calls|
    ensures Remaining(Run(s, calls)) == 0
    decreases |calls|
  {
    if calls != [] {
      CallMakesProgress(s, calls[0].refill, calls[0].node);
      RunDrains(AfterCall(s, calls[0].refill, calls[0].node), calls[1..]);
    }
  }

  /** With a working node and no new blocks, as many calls as there are pending and unscanned
      blocks leave every full-scan block processed. */
  lemma AllBlocksGetProcessed(s: State, calls: seq<Answers>)
    requires s.ready && Honest(s, calls) && NodeWorks(calls)
    requires |s.pending| + |Unscanned(s.blocks)| <= |calls|
    ensures Unscanned(Run(s, calls).blocks) == {} && Run(s, calls).pending == []
  {
    SubsetSize(Unscanned(s.blocks) - Elements(s.pending), Unscanned(s.blocks));
    RunDrains(s, calls);
    var end := Run(s, calls);
    assert Elements(end.pending) == {};
    assert Unscanned(end.blocks) - Elements(end.pending) == Unscanned(end.blocks);
  }

  /** READY must be 1 at the start: otherwise no call ever processes a block. */
  lemma {:induction false} NotReadyStalls(s: State, calls: seq<Answers>)
    requires !s.ready
    ensures Run(s, calls).blocks == s.blocks && !Run(s, calls).ready
    decreases |calls|
  {
    if calls != [] {
      NotReadyStalls(AfterCall(s, calls[0].refill, calls[0].node), calls[1..]);
    }
  }

  /** So the drain happens exactly when READY is 1, unless there is nothing to do. */
  lemma DrainsExactlyWhenReady(s: State, calls: seq<Answers>)
    requires Honest(s, calls) && NodeWorks(calls) && Unscanned(s.blocks) != {}
    requires |s.pending| + |Unscanned(s.blocks)| <= |calls|
    ensures Unscanned(Run(s, calls).blocks) == {} <==> s.ready
  {
    if s.ready {
      AllBlocksGetProcessed(s, calls);
    } else {
      NotReadyStalls(s, calls);
    }
  }

  /** Some call of the run tried to process the block. */
  ghost predicate Attempted(s: State, calls: seq<Answers>, block: nat)
    decreases |calls|
  {
    calls != [] &&
      (ActiveBlock(s, calls[0].refill) == Some(block)
       || Attempted(AfterCall(s, calls[0].refill, calls[0].node), calls[1..], block))
  }

  /** How many calls can pass before the block is tried. */
  ghost function Distance(s: State, block: nat): nat {
    if block in s.pending then |s.pending| else |s.pending| + |Unscanned(s.blocks)|
  }

  lemma CallBringsBlockNearer(s: State, refill: seq<nat>, answer: NodeAnswer, block: nat)
    requires s.ready && (s.pending == [] ==> IsRefill(s, refill))
    requires block in Unscanned(s.blocks) && ActiveBlock(s, refill) != Some(block)
    ensures var after := AfterCall(s, refill, answer);
            after.ready && block in Unscanned(after.blocks) && Distance(after, block) < Distance(s, block)
  {
    var list, after := BlockList(s, refill), AfterCall(s, refill, answer);
    SortShape(s.pending);
    if s.pending == [] {
      assert block in Elements(list);
    }
    assert list != [];
    CallShortensList(s, refill, answer);
    assert Unscanned(after.blocks) <= Unscanned(s.blocks);
    SubsetSize(Unscanned(after.blocks), Unscanned(s.blocks));
    if block in list {
      assert block in Elements(list);
      assert block in Elements(after.pending);
    }
    assert block in s.pending ==> block in Elements(list);
    assert block in after.pending ==> block in Elements(list);
  }

  /** Whatever the node answers, an unscanned block is tried again within as many calls as there
      are pending and unscanned blocks, so a failed block is never lost. */
  lemma {:induction false} EveryBlockIsTriedAgain(s: State, calls: seq<Answers>, block: nat)
    requires s.ready && Honest(s, calls) && block in Unscanned(s.blocks)
    requires Distance(s, block) <= |calls|
    ensures Attempted(s, calls, block)
    decreases |calls|
  {
    assert Distance(s, block) > 0 by {
      assert block in s.pending ==> |s.pending| > 0;
      assert |Unscanned(s.blocks)| > 0;
    }
    if ActiveBlock(s, calls[0].refill) != Some(block) {
      CallBringsBlockNearer(s, calls[0].refill, calls[0].node, block);
      EveryBlockIsTriedAgain(AfterCall(s, calls[0].refill, calls[0].node), calls[1..], block);
    }
  }

  /** A call whose processing fails leaves READY at 1 and its block unprocessed, and later calls
      come back to that block. */
  lemma FailedBlockComesBack(s: State, refill: seq<nat>, saved: seq<ParsedTx>, block: nat, later: seq<Answers>)
    requires s.ready && ActiveBlock(s, refill) == Some(block) && block in Unscanned(s.blocks)
    requires Honest(AfterCall(s, refill, Broken(saved)), later)
    requires |AfterCall(s, refill, Broken(saved)).pending| + |Unscanned(s.blocks)| <= |later|
    ensures var after := AfterCall(s, refill, Broken(saved));
            after.ready && after.blocks == s.blocks && Attempted(after, later, block)
  {
    EveryBlockIsTriedAgain(AfterCall(s, refill, Broken(saved)), later, block);
  }

  /** What one call leaves in Redis and in the table, whether it has nothing to do, finds no such
      block, fails, or processes the block with the number of transactions that the node gave. */
  lemma CallSetsState(s: State, refill: seq<nat>, answer: NodeAnswer)
    ensures var list, after := BlockList(s, refill), AfterCall(s, refill, answer);
            var active := ActiveBlock(s, refill);
            && (active.None? ==>
                  && after.ready == s.ready && after.activeBlock == s.activeBlock && after.blocks == s.blocks
                  && Elements(after.pending) == Elements(list))
            && (active.Some? && active.value !in s.blocks ==>
                  after.ready && after.activeBlock == s.activeBlock && after.blocks == s.blocks)
            && (active.Some? && active.value in s.blocks ==>
                  && after.ready && after.blocks.Keys == s.blocks.Keys
                  && (forall b | b in s.blocks && b != active.value :: after.blocks[b] == s.blocks[b])
                  && (answer.Broken? ==>
                        after.activeBlock == active && after.blocks[active.value] == s.blocks[active.value])
                  && (answer.Loaded? ==>
                        && after.activeBlock.None? && after.blocks[active.value].processed
                        && after.blocks[active.value].transactionsCount == |answer.txs|
                        && after.blocks[active.value].requiresFullScan == s.blocks[active.value].requiresFullScan))
  {
    SortShape(s.pending);
  }

  /** Until a call processes it again, a block keeps the count of the call that processed it. */
  ghost predicate CountedIn(s: State, block: nat, contents: map<nat, seq<ParsedTx>>) {
    && block in s.blocks && block in contents
    && (s.blocks[block].processed ==> s.blocks[block].transactionsCount == |contents[block]|)
  }

  /** A processed block of the table was scanned in full by the call that processed it. */
  lemma ProcessedByLoadedCall(s: State, refill: seq<nat>, answer: NodeAnswer, block: nat)
    requires block in Unscanned(s.blocks)
    ensures block !in Unscanned(AfterCall(s, refill, answer).blocks) <==>
              ActiveBlock(s, refill) == Some(block) && answer.Loaded?
  {
  }

  // ---------- The ledger over a run ----------

  /** The ledger after a call: the transactions that the node gave were saved at the block. */
  ghost function LedgerAfterCall(t: Table, subscribed: set<string>, s: State, refill: seq<nat>, answer: NodeAnswer)
    : Table
  {
    var active := ActiveBlock(s, refill);
    if active.Some? && active.value in s.blocks
    then ScanTxs(t, subscribed, Given(answer), active.value)
    else t
  }

  ghost function LedgerRun(t: Table, subscribed: set<string>, s: State, calls: seq<Answers>): Table
    decreases |calls|
  {
    if calls == [] then t
    else LedgerRun(LedgerAfterCall(t, subscribed, s, calls[0].refill, calls[0].node), subscribed,
                   AfterCall(s, calls[0].refill, calls[0].node), calls[1..])
  }

  /** Whenever the node answers in full, it gives the transactions that the block has. */
  ghost predicate Serves(s: State, calls: seq<Answers>, contents: map<nat, seq<ParsedTx>>)
    decreases |calls|
  {
    calls != [] ==>
      && ServesCall(s, calls[0], contents)
      && Serves(AfterCall(s, calls[0].refill, calls[0].node), calls[1..], contents)
  }

  ghost predicate ServesCall(s: State, call: Answers, contents: map<nat, seq<ParsedTx>>) {
    var active := ActiveBlock(s, call.refill);
    call.node.Loaded? && active.Some? && active.value in s.blocks ==>
      active.value in contents && call.node.txs == contents[active.value]
  }

  function Given(answer: NodeAnswer): seq<ParsedTx> {
    if answer.Loaded? then answer.txs else answer.saved
  }

  lemma LedgerCallKeepsValid(t: Table, subscribed: set<string>, s: State, call: Answers)
    requires Valid(t)
    ensures Valid(LedgerAfterCall(t, subscribed, s, call.refill, call.node))
  {
    var active := ActiveBlock(s, call.refill);
    if active.Some? {
      ScanKeepsValid(t, subscribed, Given(call.node), active.value);
    }
  }

  /** One call records the transactions that the node gave, all of them or those before a failure, at
      its block. */
  lemma CallRecordsGiven(t: Table, subscribed: set<string>, s: State, refill: seq<nat>, txs: seq<ParsedTx>, i: nat)
    requires Valid(t) && i < |txs|
    requires ActiveBlock(s, refill).Some? && ActiveBlock(s, refill).value in s.blocks
    ensures forall answer | answer in {Loaded(txs), Broken(txs)} ::
              Recorded(LedgerAfterCall(t, subscribed, s, refill, answer), subscribed, txs[i],
                       ActiveBlock(s, refill).value, true)
  {
    ScannedBlockIsCovered(t, subscribed, txs, ActiveBlock(s, refill).value, i);
  }

  lemma {:induction false} LedgerRunKeepsTxid(t: Table, subscribed: set<string>, s: State, calls: seq<Answers>,
                                              txid: string)
    requires Valid(t) && HasTxid(t, txid)
    ensures HasTxid(LedgerRun(t, subscribed, s, calls), txid)
    decreases |calls|
  {
    if calls != [] {
      var active, node := ActiveBlock(s, calls[0].refill), calls[0].node;
      LedgerCallKeepsValid(t, subscribed, s, calls[0]);
      if active.Some? {
        ScanKeepsTxid(t, subscribed, Given(node), active.value, txid);
      }
      LedgerRunKeepsTxid(LedgerAfterCall(t, subscribed, s, calls[0].refill, node), subscribed,
                         AfterCall(s, calls[0].refill, node), calls[1..], txid);
    }
  }

  /** No call of the run is given the txid in another block. */
  ghost predicate OnlyInBlock(s: State, calls: seq<Answers>, txid: string, block: nat)
    decreases |calls|
  {
    calls != [] ==>
      && OnlyInBlockAt(s, calls[0], txid, block)
      && OnlyInBlock(AfterCall(s, calls[0].refill, calls[0].node), calls[1..], txid, block)
  }

  ghost predicate OnlyInBlockAt(s: State, call: Answers, txid: string, block: nat) {
    var active := ActiveBlock(s, call.refill);
    active.Some? && active.value in s.blocks && active.value != block ==>
      forall tx | tx in Given(call.node) :: tx.txid != txid
  }

  /** The rows of a txid that is in no other block keep the block's number as their height. */
  lemma {:induction false} LedgerRunKeepsStamp(t: Table, subscribed: set<string>, s: State, calls: seq<Answers>,
                                               txid: string, block: nat)
    requires Valid(t) && Stamped(t, txid, block) && OnlyInBlock(s, calls, txid, block)
    ensures Stamped(LedgerRun(t, subscribed, s, calls), txid, block)
    decreases |calls|
  {
    if calls != [] {
      var active, node := ActiveBlock(s, calls[0].refill), calls[0].node;
      LedgerCallKeepsValid(t, subscribed, s, calls[0]);
      if active.Some? && active.value in s.blocks {
        ScanKeepsStamp(t, subscribed, Given(node), active.value, txid, block);
      }
      LedgerRunKeepsStamp(LedgerAfterCall(t, subscribed, s, calls[0].refill, node), subscribed,
                          AfterCall(s, calls[0].refill, node), calls[1..], txid, block);
    }
  }

  /** What a scanned transaction leaves in the ledger at the end of a run: its rows have the block's
      number if no other block has the txid, and it has a row if it should have one. */
  ghost predicate Recorded(t: Table, subscribed: set<string>, tx: ParsedTx, block: nat, alone: bool) {
    && (alone ==> Stamped(t, tx.txid, block))
    && (!IsCoinbase(tx) && PaysSubscribed(tx, subscribed) ==> HasTxid(t, tx.txid))
  }

  /** A block that a run took off the unprocessed ones was scanned in full, and what its
      transactions put into the ledger is still there at the end of the run. */
  lemma {:induction false} ProcessedBlockIsCovered(t: Table, subscribed: set<string>, s: State, calls: seq<Answers>,
                                                   contents: map<nat, seq<ParsedTx>>, block: nat, i: nat)
    requires Valid(t) && Serves(s, calls, contents)
    requires block in Unscanned(s.blocks) && block !in Unscanned(Run(s, calls).blocks)
    requires block in contents && i < |contents[block]|
    ensures var tx := contents[block][i];
            Recorded(LedgerRun(t, subscribed, s, calls), subscribed, tx, block, OnlyInBlock(s, calls, tx.txid, block))
    decreases |calls|
  {
    var refill, node := calls[0].refill, calls[0].node;
    var t1, after := LedgerAfterCall(t, subscribed, s, refill, node), AfterCall(s, refill, node);
    var txid := contents[block][i].txid;
    LedgerCallKeepsValid(t, subscribed, s, calls[0]);
    ProcessedByLoadedCall(s, refill, node, block);
    if block in Unscanned(after.blocks) {
      ProcessedBlockIsCovered(t1, subscribed, after, calls[1..], contents, block, i);
    } else {
      ScannedBlockIsCovered(t, subscribed, Given(node), block, i);
      if HasTxid(t1, txid) {
        LedgerRunKeepsTxid(t1, subscribed, after, calls[1..], txid);
      }
      if OnlyInBlock(s, calls, txid, block) {
        LedgerRunKeepsStamp(t1, subscribed, after, calls[1..], txid, block);
      }
    }
  }

  /** The scheduler and the scan together: from READY at 1, with a working node and enough calls,
      every transaction of every full-scan block that was waiting, if it is no coinbase and pays a
      subscribed address, ends up with a row in the ledger, and all its rows with the number of the
      block, if no other block has it. */
  lemma DrainCoversEveryBlock(t: Table, subscribed: set<string>, s: State, calls: seq<Answers>,
                              contents: map<nat, seq<ParsedTx>>, block: nat, i: nat)
    requires Valid(t) && s.ready && Honest(s, calls) && NodeWorks(calls) && Serves(s, calls, contents)
    requires |s.pending| + |Unscanned(s.blocks)| <= |calls|
    requires block in Unscanned(s.blocks) && block in contents && i < |contents[block]|
    ensures var tx := contents[block][i];
            Recorded(LedgerRun(t, subscribed, s, calls), subscribed, tx, block, OnlyInBlock(s, calls, tx.txid, block))
  {
    AllBlocksGetProcessed(s, calls);
    ProcessedBlockIsCovered(t, subscribed, s, calls, contents, block, i);
  }

  /** Along a run a block that becomes processed carries the number of its transactions. */
  lemma {:induction false} ProcessedBlockIsCounted(s: State, calls: seq<Answers>, contents: map<nat, seq<ParsedTx>>,
                                                   block: nat)
    requires Serves(s, calls, contents) && CountedIn(s, block, contents)
    ensures CountedIn(Run(s, calls), block, contents)
    decreases |calls|
  {
    if calls != [] {
      CallSetsState(s, calls[0].refill, calls[0].node);
      ProcessedBlockIsCounted(AfterCall(s, calls[0].refill, calls[0].node), calls[1..], contents, block);
    }
  }
}
