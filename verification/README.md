# Watchtower: a verified model

Watchtower watches addresses on the Bitcoin Cash network, keeps a ledger of their transaction
outputs, and serves wallets, point-of-sale devices, AnyHedge contracts, gifts and a P2P exchange.
This Dafny project models the parts of it that hold state or arithmetic and proves what they
promise. Database tables are maps or lists of records held in the fields of classes, Redis keys
are fields too, and every task, serializer or view is a method proved against a specification
function. What the source promises over whole runs is then proved about those functions.

| file | models |
|---|---|
| `PriceQueue.dfy` | the market-price task queue, as an interleaving of atomic Redis steps of many clients and workers |
| `Ledger.dfy` | the output ledger: saving records, outputs and inputs |
| `UtxoSync.dfy` | reconciling an address with the node's unspent outputs, and parsing a transaction on the way |
| `ParsedInputs.dfy`, `ParsedOutputs.dfy` | what those parses leave in the rows of spent outputs, and of their own outputs |
| `BlockScan.dfy`, `BlockScheduler.dfy` | scanning the transactions of a block; the pending-block scheduler |
| `MutualRedemption.dfy` | the two-party signature protocol of an AnyHedge redemption |
| `OfferLifecycle.dfy` | AnyHedge position offers from creation to settlement |
| `HedgeSats.dfy` | AnyHedge satoshi arithmetic, in Python and in SQL |
| `GiftClaims.dfy` | the batched gift claim matcher |
| `OrderStatus.dfy` | the status log of a P2P escrow order and its guards |
| `RpcEvents.dfy` | event subscriptions of an RPC websocket |
| `MultisigScript.dfy`, `SignatureQuorum.dfy` | multisig scripts; counting signatures |
| `FiatAmounts.dfy` | fiat amounts of a wallet history record |
| `PosIds.dfy` | ids of point-of-sale devices and merchants |
| `Prelude.dfy` | option and outcome types |

`dafny verify dfyconfig.toml` checks the whole project.

Where the code and what it is meant to do part, the model follows the code and says when they meet:

- A price pair is split again at the first colon. It comes apart into what it was made of exactly
  when the coin id has no colon (`DeconstructUndoesConstruct`). The pair-to-task map names only
  tasks in flight, but not all of them: a held pair is missing exactly when another holder cleaned
  it up after the last move that registered it (`HeldPairMissingExactlyWhenCutOff`).
- `get_bch_utxos` completes exactly when no transaction that it has to parse is unknown to the
  node or has a coinbase input, whose missing txid makes the parse raise (`GetBchUtxos`).
- A parse marks the inputs that the ledger knows as spent, and only then saves inputs of wallets
  that it does not know, without a spender. So a spent output can stay behind as an unspent row:
  after a parse exactly when the ledger did not know it and a subscribed wallet address spends it
  (`InputLeftUnspentExactly`), and after a completed run exactly when a parse added its row and no
  later parse marked it (`CompletedOnOutpoint`, `SpentInputStaysUnspent`). The last part of the task
  only reaches rows of the synced address (`StaleMarkLeavesOtherAddresses`).
- `save_transaction` passes over a txid that already has a row, so an output of it can stay
  without one (`OutputRecordedExactlyWhenTxUnknown`).
- The block scheduler drains exactly when READY is 1 at the start (`DrainsExactlyWhenReady`).
- The settlement price of a mutual redemption is not part of what the parties agree on. They do
  agree on it throughout a run exactly when no request puts another price under a signature it
  keeps (`PriceAgreedThroughoutExactly`). A negative price passes
  (`PriceRuleHeldExactlyWithoutNegative`); a proposal without any signature is stored, because the
  error for it is built but not raised (`UnsignedStoredExactly`); and in `redeem_contract` a
  recorded settlement only sets an error text (`SettledStillRedeemedExactlyWhenRecorded`).
- The position of an offer may be null. Such an offer settles with the counterparty's
  proposal beside the offerer's wallet: sides are correct exactly when a position is named
  (`SidesCorrectExactlyWhenPositionNamed`).
- The rounding of the database and `custom_round` agree exactly outside a window of fractions
  (`RoundingsAgreeExactlyOutsideWindow`). The satoshi amounts agree exactly there, or where the
  lower divisor gives the same quotient; a rounded low price of 1 inside the window makes the
  query fail (`SqlAgreesWithPythonExactly`).
- A canceled order can take any further status. A refund comes after an appeal exactly when the
  order was not canceled in the two steps before it (`RefundAppealedExactlyUnlessJustCanceled`), a
  status past escrow comes after ESCROWED exactly when no step from CANCELED skipped it
  (`EscrowedExactlyUnlessSkipped`), and a history is bounded exactly when it can no longer be
  canceled (`UnboundedExactlyWhileCancelable`).
- A subscription param that is null also matches data without that key, so matching is sub-map
  inclusion exactly without null params (`MatchesIsSubMapExactlyWithoutNulls`).
- When some sender is not the wallet's own, the sent part is missing from the fiat amounts
  (`IncomingAndOutgoingAddUp`).
- The device id search can return a negative id exactly when all ids are below -1
  (`FindNewPosid`). The merchant index search returns an index in use exactly when a negative index
  hides a used 0 or a repeated one hides a used successor (`AnswerIsUsedExactlyWhenHidden`).

## Model

| member | source | states |
|---|---|---|
| `PriceQueue.DeconstructUndoesConstruct` | main/tasks.py:3313-3326 | splitting a pair name gives back its coin id and currency if and only if the coin id has no colon; a constructed name never makes the split raise |
| `PriceQueue.CollectNames` | main/tasks.py:3346-3352 | the loop of a task collects exactly the coin ids and currencies of its pairs |
| `PriceQueue.BatchCoversPair` | main/tasks.py:3346-3359 | coin ids × currencies of a batch contains every colon-free pair queued in it |
| `PriceQueue.SingleBatchCoversExactlyWithoutColon` | main/tasks.py:3346-3359 | a batch of one pair covers it if and only if its coin id has no colon |
| `PriceQueue.PairNames` | main/utils/market_price.py:359-365 | a pair is the coin's own name, for BCH its coin id, a colon and the currency; a missing name gives no pair |
| `PriceQueue.PriceTaskQueue.CheckRunning` | main/tasks.py:3253-3257 | the first half of enqueue reports the task that holds the pair, exactly when the map has one, no pair when a name is missing, and otherwise leaves the client about to add |
| `PriceQueue.PriceTaskQueue.AddPair` | main/tasks.py:3259-3264 | the second half of enqueue adds the pair and asks to wait exactly when the last call is less than five seconds old |
| `PriceQueue.PriceTaskQueue.QueuePair` | main/tasks.py:3292-3294 | queueing without the check adds the pair, if it has both names |
| `PriceQueue.PriceTaskQueue.StartTask` | main/tasks.py:3328-3334 | a new worker enters the protocol |
| `PriceQueue.PriceTaskQueue.ReadPairs` | main/tasks.py:3335-3338 | the worker reads the whole queue without changing it, and ends when it is empty |
| `PriceQueue.PriceTaskQueue.ExecutePipeline` | main/tasks.py:3340-3344 | one atomic step registers the pairs read earlier, takes them off the queue and stamps the call |
| `PriceQueue.PriceTaskQueue.FetchPrices` | main/tasks.py:3346-3359 | the fetch asks for the coin ids and currencies of all pairs of the task |
| `PriceQueue.PriceTaskQueue.ClearPairs` | main/tasks.py:3361-3365 | the worker's pairs leave the map, whoever registered them last |
| `PriceQueue.StepKeepsMap` | main/tasks.py:3328-3364 | every step keeps: each map entry names a task in flight that holds the pair |
| `PriceQueue.StepKeepsNames` | main/tasks.py:3313-3364 | every step keeps: all names in circulation can be split |
| `PriceQueue.RunKeepsInvariants` | main/tasks.py:3245-3364 | both invariants hold after every interleaving of clients and workers |
| `PriceQueue.StepKeepsPair` | main/tasks.py:3245-3364 | a step leaves a pair queued, or held by a worker about to fetch it, or is that fetch |
| `PriceQueue.NoPairIsLost` | main/tasks.py:3245-3364 | in every interleaving a pair queued at a step is still queued, or held by a worker about to fetch it, or was fetched at a later step |
| `PriceQueue.OnlyFetchReleases` | main/tasks.py:3340-3365 | a worker that holds a pair goes on holding it through any steps other than its own fetch |
| `PriceQueue.QuiescentMeansFetched` | main/tasks.py:3245-3364 | when all workers have ended the map is empty, and each queued pair is still queued or was fetched after it was queued by a batch that covers it |
| `PriceQueue.CheckThenAddQueues` | main/tasks.py:3253-3264 | a check leaves the client about to add exactly when there is a pair and no task holds it, changes nothing else, and the add that follows queues that pair |
| `PriceQueue.CheckedPairGetsQueued` | main/tasks.py:3253-3264 | in every interleaving the next add of a client whose check found the pair free queues that pair |
| `PriceQueue.WorkerReadsQueue` | main/tasks.py:3328-3338 | a fresh worker reads the whole queue, whatever others do after it started, and ends at once when it is empty |
| `PriceQueue.WorkerServesItsPairs` | main/tasks.py:3340-3365 | the pairs that a worker read leave the queue for the map in its name at the stamp of its move; whatever others do, its next step fetches them all and its last one clears them |
| `PriceQueue.LastMoveStamps` | main/tasks.py:3297-3305 | in every run the stamp is the time of the last move |
| `PriceQueue.MapEntryStep` | main/tasks.py:3340-3365 | a pair is in the map after a step if and only if the step moved it, or it was there and the step did not clear it |
| `PriceQueue.HolderStep` | main/tasks.py:3340-3365 | a worker holds a pair after a step if and only if it just moved it, or held it and did not clear it |
| `PriceQueue.StepKeepsHoldersKnownExactly` | main/tasks.py:3340-3365 | from a state whose map knows every holder, a step leads to one that does if and only if it is not the cleanup of a pair that another worker holds too |
| `PriceQueue.HeldPairMissingExactlyWhenCutOff` | main/tasks.py:3245-3365 | in every interleaving a held pair is missing from the map if and only if another holder cleaned it up after the last move that registered it |
| `PriceQueue.MapMayMissHeldPair` | main/tasks.py:3340-3365 | such a cut-off is within reach of every state with two started workers and a queued pair |
| `Ledger.TransactionLedger.GetOrCreate` | main/tasks.py:435-495 | the row of a key is found or created blank, created exactly when the key had no row; a clash on the unique key falls back to the existing row |
| `Ledger.TransactionLedger.WriteRow` | main/tasks.py:448-527 | an accepted request overwrites the columns of its key's row, spends it only when a spender is given, and stamps the height on all rows of the txid; which row, and whether it is new |
| `Ledger.TransactionLedger.SaveRecord` | main/tasks.py:303-549 | the whole new table, including the saved inputs, the id answered and whether a row was created; nothing happens for an address that is neither subscribed nor forced |
| `Ledger.TransactionLedger.ProcessOutput` | main/tasks.py:552-644 | an output without address is passed over, any other is saved under its txid and index; the id answered and whether a row was created |
| `Ledger.TransactionLedger.ProcessInput` | main/tasks.py:647-663 | saves the spent output with its spender and passes everything else on; the id answered and whether a row was created |
| `Ledger.SaveKeepsValid` | main/tasks.py:435-527 | saving keeps at most one row per txid, address and index |
| `Ledger.SaveEvolves` | main/tasks.py:448-527 | saving removes no row, changes no key and never makes a spent row unspent |
| `Ledger.SaveInputsKeeps` | main/tasks.py:537-548 | so does saving all inputs of a transaction |
| `Ledger.SaveWithInputsKeeps` | main/tasks.py:303-549 | so does one call with its inputs |
| `Ledger.RunKeeps` | main/tasks.py:303-663 | over any sequence of the three calls, with any subscriptions at each, there is at most one row per key and a spent row stays spent |
| `Ledger.SaveSetsRow` | main/tasks.py:448-527 | after an accepted save the key has a row with the value, spent by the given spender or spent exactly when it was before |
| `Ledger.SaveTouchesOneRow` | main/tasks.py:435-527 | nothing but that row is written, except the height of rows of the same txid; a new row takes the asked token, an old one keeps its own |
| `Ledger.SaveKeepsUngiven` | main/tasks.py:448-527 | a save without a height keeps the height of the row, one without a spender its spender |
| `Ledger.SaveOutputWritesOutput` | main/tasks.py:552-644 | an accepted output gets its row with its value; a new row has its token, height and spender |
| `Ledger.SaveInputWritesOutpoint` | main/tasks.py:537-548 | an input gets the row of the outpoint that it spends with its value and spender; a new row has its token |
| `Ledger.SavedInputsAreSpent` | main/tasks.py:537-548 | after saving the inputs of a txid each input outpoint is spent by that txid |
| `Ledger.CallSpendsItsInputs` | main/tasks.py:303-549 | one call of save_record with inputs leaves every input outpoint spent by the saved txid |
| `Ledger.SavedInputsHaveTheirValues` | main/tasks.py:537-548 | the row of an input ends with the value of its last mention |
| `Ledger.SavedInputsKeepHeights` | main/tasks.py:537-548 | saving inputs changes no height |
| `Ledger.CallWithoutInputsWritesOneRow` | main/tasks.py:537 | without inputs, or when they are not to be saved, a call adds at most its own row |
| `UtxoSync.MarkTransactionInputsAsSpent` | main/utils/transaction_processing.py:10-42 | exactly the rows whose outpoint is an input of the transaction become spent by it |
| `UtxoSync.RecordTransactionUtxos` | main/tasks.py:2497-2531 | the loop over inputs and outputs, with its skipped inputs and the forced last part |
| `UtxoSync.ParseTxWalletHistories` | main/tasks.py:2460-2531 | the ledger and the histories after parsing a transaction; it raises exactly for an unknown txid or a coinbase input, unless the txid has a history already |
| `UtxoSync.SaveFreshUtxo` | main/tasks.py:964-1013 | an output of the snapshot has its row reset to unspent or created |
| `UtxoSync.MarkMissingAsSpent` | main/tasks.py:1017-1046 | exactly the rows of the address that the snapshot does not list become spent |
| `UtxoSync.MarkSpentNamesSpender` | main/utils/transaction_processing.py:23-42 | marking spends exactly the rows of the outpoints, names the spender there and changes nothing else |
| `UtxoSync.MarkStaleSetsOnlyTheFlag` | main/tasks.py:1017-1046 | the final marking changes only the spent flag, of exactly the unlisted rows of the address |
| `UtxoSync.SyncUtxo` | main/tasks.py:964-1015 | one round saves the output, then parses its transaction |
| `UtxoSync.SyncSnapshot` | main/tasks.py:957-1015 | the loop ends at the first output that cannot be parsed, and the whole ledger either way |
| `UtxoSync.GetBchUtxos` | main/tasks.py:955-1059 | the task completes if and only if no parse raises, and then the unspent rows of the address are exactly the snapshot and their values sum to its total, as long as no parse spends an output listed up to its round; the whole ledger after it; otherwise the outputs up to the first one that cannot be parsed are shown, and no row was marked spent but inputs of parsed transactions |
| `UtxoSync.SaveKeepsShown` | main/tasks.py:448-475 | saving without a spender keeps an unspent row unspent and its value, unless it overwrites that row |
| `UtxoSync.RecordKeepsShown` | main/tasks.py:2497-2531 | the parse loop keeps an unspent row whose key it only saves with the same value |
| `UtxoSync.ParseKeepsShown` | main/tasks.py:2460-2531 | parsing a transaction of the snapshot keeps every output listed up to its round that was already shown |
| `UtxoSync.FreshKeepsShown` | main/tasks.py:964-1013 | saving one more output keeps those already shown and shows that one |
| `UtxoSync.FreshShowsValueAndHeight` | main/tasks.py:974-1008 | a listed output ends unspent with the value and height of the node; a known row keeps its token and spender column |
| `UtxoSync.HistoriesWritten` | main/tasks.py:2460-2466 | after the loop exactly the txids that parsing wrote a record for have one, besides those that had |
| `UtxoSync.SyncedShows` | main/tasks.py:957-1015 | after n rounds the first n outputs of the snapshot are shown, whatever parsing saved |
| `UtxoSync.SyncedKeepsUnspent` | main/tasks.py:957-1015 | a row stays unspent through the loop unless a parsed transaction spends it |
| `UtxoSync.FailedSync` | main/tasks.py:957-1015 | a loop that stops in a round shows one output more than it parsed and marked nothing stale |
| `UtxoSync.StaleMarkReconciles` | main/tasks.py:1017-1046 | once all of the snapshot is shown, the final marking leaves exactly the snapshot unspent, whatever rows parsing created |
| `UtxoSync.TotalWithout` | main/tasks.py:1015-1046 | the sum of row values does not depend on the order of rows |
| `UtxoSync.CorrespondingTotal` | main/tasks.py:1015-1046 | rows that stand one to one for the snapshot sum to its total |
| `UtxoSync.ReconciledTotals` | main/tasks.py:955-1046 | an address reconciled with a snapshot has its total unspent |
| `ParsedInputs.SaveOnUnspent` | main/tasks.py:448-475 | a save without a spender makes an outpoint unspent only by a new row |
| `ParsedInputs.PartOnOutpoint` | main/tasks.py:2499-2531 | one part of a parsed transaction makes its outpoint unspent if and only if it passes the filters, or is forced in, and was unknown |
| `ParsedInputs.RecordOnOutpoint` | main/tasks.py:2497-2531 | so for the whole loop over inputs and outputs, against the ledger at its start, the forced last part included |
| `ParsedInputs.ParseOnOutpoint` | main/tasks.py:2484-2531 | a parse leaves an outpoint unspent if and only if it was and is no input, or the parse gives it a new row |
| `ParsedInputs.ParseAddsInputExactly` | main/tasks.py:2498-2531 | a parse gives an outpoint of another transaction a row if and only if the ledger did not know it and a subscribed wallet address spends it |
| `ParsedInputs.InputLeftUnspentExactly` | main/tasks.py:2484-2531 | an input of a parsed transaction ends up as an unspent row if and only if the ledger did not know its outpoint and a subscribed wallet address spends it |
| `ParsedInputs.RoundOnOutpoint` | main/tasks.py:964-1015 | one round leaves an outpoint that the node does not list unspent if and only if it was and the round does not spend it, or the round adds a row for it |
| `ParsedInputs.RoundAddsInputExactly` | main/tasks.py:964-1015 | a round adds such a row for an outpoint of another transaction if and only if its parse finds it unknown and a wallet's input |
| `ParsedInputs.SyncedOnOutpoint` | main/tasks.py:957-1015 | after any number of rounds such an outpoint is unspent if and only if a row was added for it, or there at the start, and no later round spent it |
| `ParsedInputs.StaleMarkLeavesOtherAddresses` | main/tasks.py:1017-1046 | the final marking leaves rows of other addresses as they are |
| `ParsedInputs.SyncedKeepsElsewhere` | main/tasks.py:957-1015 | an outpoint that is at other addresses gets no row at the synced one |
| `ParsedInputs.CompletedOnOutpoint` | main/tasks.py:955-1046 | after a completed run an outpoint of another address is unspent if and only if its last addition comes after its last spending |
| `ParsedInputs.SpentInputStaysUnspent` | main/tasks.py:2484-2531 | it happens from an empty ledger: a payment between two subscribed wallet addresses leaves the output that it spent unspent |
| `ParsedInputs.InputUtxosInOrder` | main/utils/queries/parse_utils.py:1-11 | the inputs become parts in their order, with all their columns |
| `ParsedOutputs.OutputUtxosMembers` | main/utils/queries/parse_utils.py:13-27 | exactly the outputs with an address become parts |
| `ParsedOutputs.RecordOnKey` | main/tasks.py:2497-2531 | after the loop a key that no input has, has a row exactly when it had one or some part of it was saved, and then with the value of that part |
| `ParsedOutputs.OutputRecordedExactly` | main/tasks.py:2484-2531 | after a parse an output of the transaction has a row if and only if it had one, has a subscribed address, or is the only one with an address while no row of the transaction was known; and a saved one has its value |
| `ParsedOutputs.LaterRoundsKeepKey` | main/tasks.py:957-1015 | a row stays through the later rounds of a run |
| `ParsedOutputs.CompletedRecordsOutputs` | main/tasks.py:955-1046 | a completed run has a row for every output to a subscribed address of every transaction that it parsed, listed or not |
| `BlockScan.SaveTransaction` | main/tasks.py:917-943 | a known txid only gets the height, a coinbase is skipped, and all outputs of any other transaction are processed |
| `BlockScan.CoinbaseAddsNoRow` | main/tasks.py:921-928 | a transaction that starts with a coinbase input adds no row, a known one without a height changes nothing |
| `BlockScan.ScanBlock` | main/tasks.py:902-905 | the transactions of a block are saved in order at its height |
| `BlockScan.SaveOutputsKeys` | main/tasks.py:930-943 | exactly the outputs to subscribed addresses get a row, besides those that had one |
| `BlockScan.SaveTxCovers` | main/tasks.py:917-943 | after saving, all rows of the txid carry the height, and one exists if the transaction is no coinbase and pays a subscribed address |
| `BlockScan.SaveTxLeavesOthers` | main/tasks.py:917-943 | saving a transaction takes no height and no last row from another |
| `BlockScan.ScanKeepsTxid` | main/tasks.py:897-943 | a txid that has a row keeps one, whatever is scanned |
| `BlockScan.ScanKeepsStamp` | main/tasks.py:897-943 | rows of a txid keep their height through scans at that height and of blocks that do not hold the txid |
| `BlockScan.ScannedBlockIsCovered` | main/tasks.py:897-943 | after the whole block, each of its transactions that is no coinbase and pays a subscribed address has a row, and all rows of every txid of the block carry its height |
| `BlockScan.OutputRecordedExactlyWhenTxUnknown` | main/tasks.py:921-943 | a subscribed output has its own row if and only if it had one, or its txid was unknown and the transaction is no coinbase |
| `BlockScheduler.BlockManager.constructor` | main/tasks.py:847-849 | the first call finds READY at 1, no active block and nothing pending |
| `BlockScheduler.BlockManager.ReadyToAccept` | main/tasks.py:834-842 | the block is processed with its transaction count, READY is 1 and no block is active |
| `BlockScheduler.BlockManager.ManageBlocks` | main/tasks.py:846-914 | the whole new scheduler state and ledger of a call, whether the node answers or fails after some transactions |
| `BlockScheduler.CallSetsState` | main/tasks.py:846-914 | what each kind of call leaves: idle, on a missing block, on a failure, and on a processed block with its transaction count |
| `BlockScheduler.SortShape` | main/tasks.py:851-853 | the pending list is taken in ascending order, nothing added or dropped |
| `BlockScheduler.SortUniqueShape` | main/tasks.py:876-880 | the stored rest is ascending and holds every other block once |
| `BlockScheduler.CallShortensList` | main/tasks.py:855-880 | a call takes the head off the list, at most that block, and adds none |
| `BlockScheduler.LowestPendingFirst` | main/tasks.py:851-872 | while blocks are pending a call takes the lowest one |
| `BlockScheduler.CallMakesProgress` | main/tasks.py:846-909 | with a working node every call lowers the number of calls still needed, until it is zero |
| `BlockScheduler.RunDrains` | main/tasks.py:846-909 | as many calls as are needed leave nothing to do |
| `BlockScheduler.AllBlocksGetProcessed` | main/tasks.py:834-909 | from READY at 1, as many calls as there are pending and unprocessed full-scan blocks leave every full-scan block processed and nothing pending |
| `BlockScheduler.NotReadyStalls` | main/tasks.py:868-909 | from READY at 0 no call ever processes a block |
| `BlockScheduler.DrainsExactlyWhenReady` | main/tasks.py:834-909 | with a block to process, such a run drains if and only if READY is 1 at its start |
| `BlockScheduler.CallBringsBlockNearer` | main/tasks.py:855-909 | every call that does not try an unprocessed block brings it nearer to its turn, whatever the node answers |
| `BlockScheduler.EveryBlockIsTriedAgain` | main/tasks.py:855-909 | an unprocessed full-scan block is tried within as many calls as there are pending and unprocessed blocks, whatever the node answers |
| `BlockScheduler.FailedBlockComesBack` | main/tasks.py:882-909 | a failed call leaves READY at 1 and all blocks as they were, and its block is tried again by later calls |
| `BlockScheduler.ProcessedByLoadedCall` | main/tasks.py:868-909 | a call takes a block off the unprocessed ones if and only if it is the active block and the node answered in full |
| `BlockScheduler.ProcessedBlockIsCounted` | main/tasks.py:834-909 | along a run a block that becomes processed carries the number of its transactions |
| `BlockScheduler.LedgerRunKeepsTxid` | main/tasks.py:846-943 | a txid that has a row keeps one through any run of calls |
| `BlockScheduler.LedgerRunKeepsStamp` | main/tasks.py:846-943 | the rows of a txid that no other block holds keep the block's number through any run of calls |
| `BlockScheduler.CallRecordsGiven` | main/tasks.py:882-909 | a call records the transactions that the node gave, whether all of them or those before a failure, at its block |
| `BlockScheduler.ProcessedBlockIsCovered` | main/tasks.py:846-943 | a block that a run took off the unprocessed ones was scanned in full: at the end of the run each of its transactions that is no coinbase and pays a subscribed address has a row, and the rows of each that no other scanned block holds have the block's number |
| `BlockScheduler.DrainCoversEveryBlock` | main/tasks.py:834-943 | scheduler and scan together: from READY at 1, with a working node and enough calls, this holds of every full-scan block that was waiting |
| `MutualRedemption.Validate` | anyhedge/serializers.py:349-379 | a request passes if and only if the contract is funded, the payouts sum to the funding less the fee of its version, and the rules of its type hold; each error is raised exactly for its cause, a missing price with one of its own because the comparison raises |
| `MutualRedemption.RedemptionDesk.Create` | anyhedge/serializers.py:382-416 | the row after a valid request: new terms, kept or dropped signatures, initiator |
| `MutualRedemption.RedemptionDesk.SubmitRequest` | anyhedge/views.py:185-197 | one submit step; it passes exactly for an accepted request, and which error a settled or completed contract gets |
| `MutualRedemption.RedemptionDesk.CancelRedemption` | anyhedge/serializers.py:247-283 | one cancel step: the row goes exactly when it is not completed and the signature on the initiator's signature verifies; the exact outcome |
| `MutualRedemption.RedemptionDesk.RedeemContract` | anyhedge/tasks.py:570-619 | one redeem step: hashes are stored exactly when both signatures are there, none is stored yet, the search finds no settlement unless one is recorded, and the redemption completes; the exact outcome |
| `MutualRedemption.StepKeepsSignature` | anyhedge/serializers.py:382-416 | after any step a stored signature was submitted with exactly the stored terms, at the price kept for it, and both stayed since |
| `MutualRedemption.RunKeepsInvariant` | anyhedge/serializers.py:247-416 | in every run stored signatures were submitted on the stored terms, the payouts sum to the funding less the fee, the initiator's signature is there whenever one is, and a hash means both are |
| `MutualRedemption.RedemptionIsAgreed` | anyhedge/tasks.py:592-610 | a redeemed contract has a signature of each party on identical terms that pay out the funding less the fee, each with the price it came with |
| `MutualRedemption.RedeemedIsFinal` | anyhedge/views.py:185-197 | once a transaction hash is stored no further steps change the row |
| `MutualRedemption.SecondSignatureKeepsInitiator` | anyhedge/serializers.py:403-414 | when one party has signed alone, the other's signature on the same terms leaves the first one initiator |
| `MutualRedemption.FirstSignerStaysInitiator` | anyhedge/serializers.py:382-416 | and it stays initiator as long as the row keeps its terms |
| `MutualRedemption.CancelChecksFirstSigner` | anyhedge/serializers.py:247-283 | in such a run a cancel removes the row if and only if it is not completed and the signature verifies against the first signer's signature with the key of the named position |
| `MutualRedemption.InitiatorOtherwiseStays` | anyhedge/serializers.py:386-414 | with both signatures or none the stored initiator stays, a new row has the short side, and a lone signer is initiator |
| `MutualRedemption.RedeemStoresAnswers` | anyhedge/tasks.py:602-610 | a redeem that goes through stores the two transaction ids and nothing else |
| `MutualRedemption.FeeOfVersion` | anyhedge/serializers.py:373-374 | the fee is 1175 if and only if v0.11 occurs in the version, else 1967 |
| `MutualRedemption.PricesStayAgreedExactly` | anyhedge/serializers.py:390-407 | when all stored signatures came with the stored price, a step keeps that if and only if it does not put another price under a signature it keeps |
| `MutualRedemption.PriceAgreedThroughoutExactly` | anyhedge/serializers.py:382-416 | throughout a run all stored signatures came with the stored price if and only if no request of the run makes such a switch |
| `MutualRedemption.RedemptionPriceIsAgreed` | anyhedge/tasks.py:592-610 | in a run without a switch both parties of a redeemed contract signed with the stored price as well |
| `MutualRedemption.PriceRuleHeldExactlyWithoutNegative` | anyhedge/serializers.py:363-365 | an early maturation is held to a price above 0 if and only if its price is not negative; a negative one passes |
| `MutualRedemption.UnsignedStoredExactly` | anyhedge/serializers.py:390-416 | a valid request is always stored, and without any signature if and only if it has none and none is stored on the same terms |
| `MutualRedemption.SettledStillRedeemedExactlyWhenRecorded` | anyhedge/tasks.py:578-610 | a fully signed redemption of a settled contract goes through if and only if the settlement was recorded already |
| `MutualRedemption.SettlementPriceIsNotAgreed` | anyhedge/serializers.py:390-407 | a switch is always within reach: for any allowed terms a run ends with both signatures and a price only one party submitted |
| `OfferLifecycle.OfferDesk.constructor` | anyhedge/models.py:305-346 | the tables start empty |
| `OfferLifecycle.OfferDesk.CreateOffer` | anyhedge/serializers.py:931-942 | a new pending offer exactly when key and address match, under the next id |
| `OfferLifecycle.OfferDesk.EditOffer` | anyhedge/serializers.py:926-942 | edits only a pending offer of the same wallet whose key and address match, and says whether it did |
| `OfferLifecycle.OfferDesk.Destroy` | anyhedge/views.py:319-323 | deletes only a pending offer, and says whether it did |
| `OfferLifecycle.OfferDesk.AcceptOffer` | anyhedge/serializers.py:780-857 | a pending offer gets its counterparty and is accepted, unless the contract address is taken; says whether it did |
| `OfferLifecycle.OfferDesk.CancelAcceptOffer` | anyhedge/views.py:341-355 | an accepted offer loses its counterparty and is pending again; says whether it did |
| `OfferLifecycle.OfferDesk.SettleOffer` | anyhedge/serializers.py:999-1103 | an accepted offer gets its position exactly when the proposed amount is the expected one and the address is free, under the next id |
| `OfferLifecycle.SettleKeepsValid` | anyhedge/serializers.py:999-1103 | settling keeps statuses, rows, sides and the count of positions consistent |
| `OfferLifecycle.OtherStepsKeepValid` | anyhedge/views.py:319-355 | so does every other step |
| `OfferLifecycle.SettledUntouched` | anyhedge/views.py:319-355 | no step but settling touches a settled offer or a position |
| `OfferLifecycle.RunKeepsValid` | anyhedge/views.py:319-368 | in every run a pending offer has no counterparty and no position, an accepted one only a counterparty, a settled one both, with the parties on the right sides |
| `OfferLifecycle.PositionsEqualSettledOffers` | anyhedge/serializers.py:1046-1103 | as many positions as settled offers, one for each |
| `OfferLifecycle.SettledIsFinal` | anyhedge/views.py:319-368 | a settled offer, its counterparty and its position never change again |
| `OfferLifecycle.SettledOffersWereSettled` | anyhedge/serializers.py:999-1103 | in every run a settled offer got its position from a settle step, built from its counterparty and the proposal submitted there |
| `OfferLifecycle.SettledProposalOnCorrectSide` | anyhedge/serializers.py:1063-1103 | in every run that very proposal stands on the counterparty's side if and only if the offer named a position or both parties are one |
| `OfferLifecycle.SettledProposalFundsItsSide` | anyhedge/serializers.py:1026-1078 | in every run a settled position is the compiled contract of its settle step, and the proposal on a side has the amount of that side |
| `OfferLifecycle.SettlesExactlyForCounterPartyAmount` | anyhedge/serializers.py:1026-1029 | an accepted offer settles if and only if the proposal brings the amount of the side that the offer leaves, the short one when it names none |
| `OfferLifecycle.CancelUndoesAccept` | anyhedge/views.py:327-355 | canceling an acceptance restores everything |
| `OfferLifecycle.EditBackUndoesEdit` | anyhedge/serializers.py:926-942 | an edit replaces the details and nothing else |
| `OfferLifecycle.DeleteUndoesCreate` | anyhedge/views.py:319-323 | a new offer is pending with what was submitted, and deleting it leaves the others as they were |
| `OfferLifecycle.StepsNeedTheirStatus` | anyhedge/views.py:319-368 | edits, deletions and acceptances change only pending offers, cancellations and settlements only accepted ones |
| `OfferLifecycle.RunKeepsAddressesUnique` | anyhedge/models.py:371 | in every run no two offers share a contract address and no two positions an address |
| `OfferLifecycle.OfferKeepsItsWallet` | anyhedge/serializers.py:926-942 | through any steps an offer id names an offer of the same wallet or none; ids are not used again |
| `OfferLifecycle.SidesOfBuiltPosition` | anyhedge/serializers.py:1063-1078 | wallets, paths and the proposal stand on correct sides if and only if the offer names a position or both parties are one wallet and path |
| `OfferLifecycle.SidesCorrectExactlyWhenPositionNamed` | anyhedge/serializers.py:1063-1078 | between two wallets, the proposal stands beside the counterparty's wallet if and only if the offer names a position, and beside the offerer's otherwise |
| `HedgeSats.CustomRoundIsMonotone` | anyhedge/models.py:6-19 | rounding at 0 digits is monotone |
| `HedgeSats.CustomRoundFixesIntegers` | anyhedge/models.py:6-19 | rounding fixes integers, positive and negative |
| `HedgeSats.CustomRoundError` | anyhedge/models.py:6-19 | rounding errs by at most 0.51 |
| `HedgeSats.TotalSatsWithFee` | anyhedge/models.py:144-148 | the loop adds all fees to the total |
| `HedgeSats.FeesAddUp` | anyhedge/models.py:144-148 | the fees of two lists add up, in either order, and each fee adds itself |
| `HedgeSats.LiquidationPricesBracketStart` | anyhedge/models.py:121-127 | the rounded low price is at most the start price and the rounded high price at least |
| `HedgeSats.InputsSplitTotal` | anyhedge/models.py:129-164 | both inputs are non-negative and sum to the total, and the long input is floor(S·P/L) − S for simple and leveraged positions |
| `HedgeSats.LiquidationPricesNearTargets` | anyhedge/models.py:121-127 | both prices are within 0.51 of start price times multiplier |
| `HedgeSats.ShortInputAmount` | anyhedge/models.py:129-156 | the short input is S for a simple hedge and S − floor(S·P/H) for a leveraged one, and the total is floor(S·P/L) less that quotient |
| `HedgeSats.LongInputNegativeExactlyWhenLowPriceAboveStart` | anyhedge/models.py:139-160 | without a bound on the multipliers, the long input is negative if and only if the low price rounds above the start price |
| `HedgeSats.RoundingsAgreeExactlyOutsideWindow` | anyhedge/models.py:6-28 | the two roundings agree if and only if the fraction is outside [0.49, 0.5) and not 0.5 over an even integer; inside, Python is one higher |
| `HedgeSats.LowPricesAgree` | anyhedge/models.py:25-28 | the SQL low price is the Python one outside the window and one less inside |
| `HedgeSats.LongSatsSqlIsIntegerDivision` | anyhedge/models.py:33-42 | the SQL column is P·S/L − S for its own L, rounded towards zero: floor(P·S/L) − S when that is not negative |
| `HedgeSats.SqlAmount` | anyhedge/models.py:33-42 | for sensible positions the SQL column is floor(P·S/L) − S for its own L |
| `HedgeSats.QuotientsAtNeighbours` | anyhedge/models.py:37-42 | a total gives the same quotient at L − 1 and at L if and only if remainder and quotient at L sum to less than L − 1 |
| `HedgeSats.SqlAgreesWithPythonExactly` | anyhedge/models.py:24-42 | the SQL column equals the Python property if and only if the fraction is outside the window or S·P mod L + S·P div L < L − 1, for simple and leveraged positions; the query fails if and only if L is 1 inside the window |
| `HedgeSats.SqlAndPythonCanDiffer` | anyhedge/models.py:24-42 | inside the window one position differs fourfold |
| `HedgeSats.SqlQueryCanFail` | anyhedge/models.py:37-42 | at price 1 inside the window the query fails for any amount |
| `GiftClaims.RowByAddress` | paytacagifts/tasks.py:16-20 | the dictionary holds the last row of each listed address that has one |
| `GiftClaims.LastRowIsOldest` | main/models.py:543 | with rows newest first, as the table orders them, the last row of an address is its oldest, among all or among the spent ones |
| `GiftClaims.RowsByTxid` | paytacagifts/tasks.py:57-63 | the dictionary holds all rows of each listed txid in order |
| `GiftClaims.CollectReceivers` | paytacagifts/tasks.py:71-79 | each wallet of the rows once, with its first row |
| `GiftClaims.CollectItems` | paytacagifts/tasks.py:65-79 | the dictionary by gift and wallet holds what the plain search finds per gift |
| `GiftClaims.ClaimsByKey` | paytacagifts/tasks.py:84-96 | the dictionary holds the newest claim per gift and wallet of the cross product |
| `GiftClaims.ClaimsOfItems` | paytacagifts/tasks.py:84-104 | the cross product adds no claim to any item |
| `GiftClaims.MatchItems` | paytacagifts/tasks.py:98-110 | the last loop: what each gift takes over, and which claims succeeded |
| `GiftClaims.GiftBook.CheckUnfundedGifts` | paytacagifts/tasks.py:7-28 | exactly the unfunded gifts whose address has a row are funded, at their last row's date, which in the table's order is the earliest date of the address |
| `GiftClaims.GiftBook.CollectOpenItems` | paytacagifts/tasks.py:33-79 | the early returns lose nothing that the plain search would find |
| `GiftClaims.GiftBook.CheckUnclaimedGifts` | paytacagifts/tasks.py:32-115 | every gift ends as the plain per-gift, per-wallet search leaves it, exactly the claims that search matches succeed, and all others are untouched |
| `GiftClaims.GiftBook.BulkUpdate` | paytacagifts/tasks.py:112-115 | writes the updates and marks the matched claims, nothing else |
| `GiftClaims.UpdateIsSearch` | paytacagifts/tasks.py:98-113 | what the batch writes on a gift is what the plain search writes |
| `GiftClaims.ItemsMatchGift` | paytacagifts/tasks.py:65-110 | the batch dictionary read back for one gift is its own search, undisturbed by other gifts |
| `GiftClaims.ItemsMatchClaim` | paytacagifts/tasks.py:81-110 | a claim is matched by the batch if and only if the plain search matches it |
| `GiftClaims.NewestClaimIsNewest` | paytacagifts/tasks.py:87-96 | the claim found is of that gift and wallet, and there is one and none newer whenever any exists |
| `GiftClaims.ClaimTxidIsSpender` | paytacagifts/tasks.py:65-107 | a matched gift takes the spender of its last spent funding row, the oldest one in the table's order |
| `GiftClaims.LastClaimantByFirstRow` | paytacagifts/tasks.py:71-110 | the claimant is, of the wallets with a claim, the one whose first row comes last |
| `GiftClaims.ClaimedGiftTakesDateOfClaimant` | paytacagifts/tasks.py:65-107 | a matched gift takes the timestamp of that wallet's first row among the rows of its spender, and changes in nothing else |
| `GiftClaims.ReceiversExactly` | paytacagifts/tasks.py:33-79 | the receivers of a gift are exactly the wallets with a row of the transaction that spent its last funding row, if it is funded and unclaimed |
| `GiftClaims.ClaimSucceedsExactly` | paytacagifts/tasks.py:84-110 | a claim succeeds if and only if its wallet received coins of the gift that it claims and it is that wallet's newest claim on it |
| `GiftClaims.ReceiversAreWallets` | paytacagifts/tasks.py:71-79 | the receivers are exactly the wallets of the spending transaction's rows |
| `GiftClaims.ClaimedExactlyWhenReceiverClaimed` | paytacagifts/tasks.py:32-115 | a gift is claimed if and only if it is open, has an address, and the transaction that spent its last funding row pays a wallet that has a claim on the gift; every other gift is left alone |
| `OrderStatus.StatusLog.CountOf` | rampp2p/validators.py:15-18 | the count is positive if and only if the status is in the log |
| `OrderStatus.StatusLog.ValidateStatusInstCount` | rampp2p/validators.py:15-18 | rejects exactly a status already in the log |
| `OrderStatus.StatusLog.ValidateExclusiveStats` | rampp2p/validators.py:20-29 | rejects exactly releasing what is refunded and refunding what is released, with the error of each |
| `OrderStatus.StatusLog.ValidateStatusProgression` | rampp2p/validators.py:31-89 | the branches accept exactly the moves of the transition table, and which error is raised when |
| `OrderStatus.StatusLog.UpdateStatus` | rampp2p/utils/handler.py:8-28 | appends exactly a new status that the progression allows, and keeps the history guarded, distinct and at most ten long |
| `OrderStatus.GuardedAppend` | rampp2p/validators.py:31-89 | appending keeps a history guarded if and only if the guard accepts the status |
| `OrderStatus.StepAt` | rampp2p/validators.py:31-89 | any two neighbours of a guarded history are a move of the table |
| `OrderStatus.CompletedOnlyLast` | rampp2p/validators.py:33-35 | RELEASED and REFUNDED occur only last |
| `OrderStatus.NeverReleasedAndRefunded` | rampp2p/validators.py:31-89 | and never together |
| `OrderStatus.ExclusivityIsImplied` | rampp2p/validators.py:20-89 | the exclusivity check never rejects what the progression accepts |
| `OrderStatus.AtMostTenStatuses` | rampp2p/utils/handler.py:8-10 | with the duplicate check and the progression guard a history has at most ten statuses, canceled or not |
| `OrderStatus.TenStatusesReached` | rampp2p/utils/handler.py:8-10 | ten are reached by an order that is canceled and then completed |
| `OrderStatus.NeverBothPending` | rampp2p/validators.py:64-86 | RELEASE_PENDING and REFUND_PENDING exclude each other in every guarded history |
| `OrderStatus.StagesIncrease` | rampp2p/validators.py:37-86 | without CANCELED every step moves forward |
| `OrderStatus.AtMostNineStatuses` | rampp2p/validators.py:37-86 | without CANCELED a history has at most nine statuses and no duplicate, even without the duplicate check |
| `OrderStatus.EscrowedFirst` | rampp2p/validators.py:37-86 | without CANCELED every status past the escrow stage comes after ESCROWED |
| `OrderStatus.EscrowBeforeEnd` | rampp2p/validators.py:37-86 | so do both ends |
| `OrderStatus.AppealBeforeRefund` | rampp2p/validators.py:56-86 | without CANCELED a refund comes after APPEALED |
| `OrderStatus.AfterPaid` | rampp2p/validators.py:60-86 | after PAID only an appeal, its release and the ends can come |
| `OrderStatus.PaidExcludesRefundPending` | rampp2p/validators.py:64-77 | no guarded history has both PAID and REFUND_PENDING, canceled or not |
| `OrderStatus.AfterAppealed` | rampp2p/validators.py:64-86 | after APPEALED only release, refund and their pending statuses can come |
| `OrderStatus.RefundAppealedExactlyUnlessJustCanceled` | rampp2p/validators.py:31-89 | in every guarded history a refund comes after APPEALED if and only if neither of the two statuses before it is CANCELED |
| `OrderStatus.StagesIncreaseFromEscrow` | rampp2p/validators.py:51-86 | from the escrow stage on every step moves forward, canceled before or not |
| `OrderStatus.EscrowedExactlyUnlessSkipped` | rampp2p/validators.py:31-89 | in every guarded history either end, and every other status past the escrow stage, comes after ESCROWED if and only if no step before it left CANCELED for such a status |
| `OrderStatus.GrowthEndsFromEscrow` | rampp2p/validators.py:51-86 | from the escrow stage on at most five more statuses can follow |
| `OrderStatus.CanceledOrderCanBeRefunded` | rampp2p/validators.py:31-89 | such a refund exists: after SUBMITTED and CANCELED, without escrow or appeal |
| `OrderStatus.UnboundedExactlyWhileCancelable` | rampp2p/validators.py:31-89 | by the progression guard alone a history can grow without bound if and only if its last status is SUBMITTED, CONFIRMED, ESCROW_PENDING or CANCELED, which is to say if and only if six more statuses can follow |
| `OrderStatus.CourseOfHistory` | rampp2p/validators.py:31-89 | a history goes on to an end along a course if and only if the course follows the table |
| `OrderStatus.CompleteHistoriesExactly` | rampp2p/validators.py:31-89 | an order that was not canceled is over if and only if it was confirmed, went through escrow, and was paid and released or appealed at one of three points and then released or refunded |
| `OrderStatus.EveryOrderCanEnd` | rampp2p/validators.py:31-89 | every guarded history that is not over can still come to an end |
| `RpcEvents.CompareParams` | main/rpc_consumer.py:312-323 | params match exactly when each of their entries equals what the data gives for its key |
| `RpcEvents.MatchesIsSubMapExactlyWithoutNulls` | main/rpc_consumer.py:312-323 | a sub-map always matches, and matching is sub-map inclusion if and only if no param is null |
| `RpcEvents.RPCEventSubscriptionManager.constructor` | main/rpc_consumer.py:251-252 | nothing is subscribed at first |
| `RpcEvents.RPCEventSubscriptionManager.SubscribeEvent` | main/rpc_consumer.py:254-271 | one call on the set of live subscriptions; no event is left with an empty table |
| `RpcEvents.RPCEventSubscriptionManager.UnsubscribeEvent` | main/rpc_consumer.py:273-296 | one call on the set of live subscriptions, for every kind of argument; no event is left with an empty table |
| `RpcEvents.RPCEventSubscriptionManager.IsSubscribedToEvent` | main/rpc_consumer.py:298-310 | an event is delivered if and only if some live params match its data |
| `RpcEvents.KeepOthers` | main/rpc_consumer.py:287-291 | exactly the entries that do not match the data are kept |
| `RpcEvents.SubscribeOnTable` | main/rpc_consumer.py:266-270 | the nested dictionary after a subscription is the plain set of subscriptions with it |
| `RpcEvents.ReplaceOnTable` | main/rpc_consumer.py:281-296 | replacing or dropping one event's table removes exactly the targeted subscriptions |
| `RpcEvents.DropOnTable` | main/rpc_consumer.py:278-279 | dropping an event removes exactly its subscriptions |
| `RpcEvents.RunKeepsKeysUnique` | main/rpc_consumer.py:254-296 | any run keeps one subscription per event and key |
| `RpcEvents.LiveExactlyWhenMadeAndKept` | main/rpc_consumer.py:254-296 | after any run a subscription is live if and only if some call made it and no later call replaced or removed it |
| `RpcEvents.UnsubscribeStopsDelivery` | main/rpc_consumer.py:273-323 | after any run, unsubscribing with a non-empty dictionary stops delivery of that data and keeps exactly the subscriptions it does not match |
| `RpcEvents.UnsubscribeByKey` | main/rpc_consumer.py:273-285 | unsubscribing by key removes exactly the subscription of that key, with a blank target every one of the event |
| `RpcEvents.SubscribeReplacesItsKey` | main/rpc_consumer.py:254-271 | a subscription replaces the one of its event and key and leaves all others |
| `RpcEvents.SubscribeThenUnsubscribe` | main/rpc_consumer.py:254-296 | subscribing and then unsubscribing by the returned key leaves no such key |
| `RpcEvents.UnfilteredExactlyWithoutEntries` | main/rpc_consumer.py:312-317 | params receive every event of their name if and only if they are blank or no dictionary |
| `MultisigScript.CreateRedeemScript` | multisig/utils.py:50-61 | the loop builds opcode, pushes, opcode and OP_CHECKMULTISIG |
| `MultisigScript.DecodeOfEncode` | multisig/utils.py:50-61 | a decoder of the M-of-N form of BIP 11 recovers m and the ordered keys, for 1 ≤ m ≤ n ≤ 16 and 33-byte keys |
| `MultisigScript.EncodeOfDecode` | multisig/utils.py:50-61 | whatever decodes is the script of the decoded quorum |
| `MultisigScript.DecodeInvertsEncode` | multisig/utils.py:50-61 | a script decodes to a quorum if and only if it is that quorum's script |
| `MultisigScript.RedeemScriptIsInjective` | multisig/utils.py:50-61 | different quorums or key orders never share a script |
| `MultisigScript.LockingScriptIsP2SH` | multisig/utils.py:68-69 | on whole bytes the wrapped hash has the form of the Specification section of BIP 16 if and only if it is 20 bytes long |
| `MultisigScript.QuorumIsLockedAsP2SH` | multisig/utils.py:82-86 | the script of a quorum, hashed to 20 bytes, is locked as P2SH |
| `SignatureQuorum.GroupSignaturesByInput` | multisig/utils.py:89-99 | each input index maps to the set of its distinct signers, and no index without signers is there |
| `SignatureQuorum.IsTransactionFullySigned` | multisig/utils.py:101-116 | true if and only if every required input has at least its number of distinct signers |
| `SignatureQuorum.QuorumIsMonotone` | multisig/utils.py:108-116 | more signatures never undo a quorum |
| `SignatureQuorum.QuorumIgnoresOrderAndRepeats` | multisig/utils.py:89-116 | reordering or repeating signatures changes nothing |
| `SignatureQuorum.RepeatedSignatureCountsOnce` | multisig/utils.py:89-106 | one signature repeated any number of times meets a quorum of at most one |
| `FiatAmounts.MergeLookup` | main/models.py:841-845 | merging two dictionaries keeps the later value of each output index |
| `FiatAmounts.LaterBroadcastWins` | main/models.py:838-845 | the merged dictionary holds per output what the last broadcast that has it says |
| `FiatAmounts.Tally` | main/models.py:852-899 | the loop sums the priced outputs of its side per currency and names no other currency |
| `FiatAmounts.FiatAmountsOf` | main/models.py:828-901 | what each record type gets, currency by currency, and when the answer is None |
| `FiatAmounts.SidesPartition` | main/models.py:852-899 | received and sent sums add up to the sum over all priced outputs |
| `FiatAmounts.UnpricedEntriesCountNothing` | main/models.py:855-864 | entries without recipient, currency or amount count on no side |
| `FiatAmounts.WhatGoesToTheWalletIsIncoming` | main/models.py:852-899 | outputs that all go to the wallet are all incoming and none outgoing, and the other way round |
| `FiatAmounts.IncomingAndOutgoingAddUp` | main/models.py:828-901 | the two records of one wallet and transaction add up to all priced outputs when every sender is the wallet's own, and lack exactly the sent part otherwise |
| `PosIds.MaxPosid` | paytacapos/models.py:90 | the aggregate is the greatest id, or none |
| `PosIds.Pigeonhole` | paytacapos/models.py:95-97 | a list that holds every id below n has at least n entries |
| `PosIds.FindNewPosid` | paytacapos/models.py:88-99 | the greatest id plus one while that is below 10^4, else the least unused id; none exactly when all are taken, some whenever there are fewer devices than that, and negative exactly when all ids are below -1 |
| `PosIds.GetLatestMerchantIndex` | paytacapos/models.py:284-298 | the loop with its break returns the length of the leading run |
| `PosIds.LeadingRunShape` | paytacapos/models.py:293-298 | the run holds its own positions and the next row does not |
| `PosIds.LatestMerchantIndexIsLeastUnused` | paytacapos/models.py:284-298 | on distinct non-negative indices the result is the least index not in use |
| `PosIds.AnswerIsUsedExactlyWhenHidden` | paytacapos/models.py:284-298 | on rows in order the result is an index in use if and only if a negative index occurs and 0 is in use, or an index v occurs twice and all of 0 to v + 1 are in use; all indices below the result are in use anyway |
| `PosIds.UsedIndicesAreReturned` | paytacapos/models.py:293-298 | both causes occur, a repeated index and a negative one |

## Left out

- Node, Fulcrum, CoinGecko, JavaScript, websocket, push and Telegram calls: their answers are arguments.
- Signature checks and hashes: uninterpreted functions; deriving keys and verifying multisig signatures are not modelled.
- Columns of a record that no modelled property reads: amount, source, timestamps, wallet, acknowledgement, and the advance-subscription flag of its address.
- Metadata of tokens, SLP outputs and the fetching of CashToken rows.
- Block rows are named by their number alone; creating them in `get_bch_utxos`, and closing blocks that need no full scan, are not modelled.
- SaveRecord: an index that is missing or no number is taken as already turned into 0.
- GetBchUtxos: retries after a raised error are not modelled; one attempt is.
- ManageBlocks: calls come one after another; two workers reading READY at once are not modelled, because check and set are not one step.
- ManageBlocks: the answer of the refill query and of the node are arguments; what new blocks join the pending list in between is not modelled.
- ParseTxWalletHistories: writing history records, the Redis lock, and the handlers that run after a row is saved and may correct it later are not modelled; the txids that get a record are an argument.
- AddPair: the stamp is read in the same step as the pair is added; only the returned waiting time depends on it.
- ConstructPair: the currency comes already stripped and in lower case.
- PriceTaskQueue: a worker that dies between two Redis commands is not modelled, nor is what the price source answers.
- RedemptionDesk: blank and null signatures and hashes are one value; the funding record is fixed and was looked up before.
- RedemptionDesk and OfferDesk: each request is one atomic step, as a database transaction would make it; a redemption row changed while the signing service works is not modelled.
- OfferDesk: the contract address, the price message and the funding amounts come from the contract library and are arguments; fees and metadata rows of a settled position are not modelled.
- HedgePosition: multiplication and division are exact; the drift of floating point is not modelled, nor is rounding to more than 0 digits.
- FiatAmountsOf: amounts are exact reals; text that is no number is not modelled.
- GiftBook: rows with equal creation times may come in any order; the lists that are arguments stand for the order that the database answers with.
- StatusLog: the latest status is the last appended one; rows with equal creation times are not modelled.
- RPCEventSubscriptionManager: the JSON text of params is an argument, and data is always a dictionary.
- GroupSignaturesByInput: input indices are integers; text that looks like a number is a different key in the source.
- GetLatestMerchantIndex: the order of the rows is an argument, with null indices last as the database sorts them.
- Backfilling of market values, memos, chat, Nostr, ramp, notifications, authentication and payment-request views: thin storage code with no property of its own.
