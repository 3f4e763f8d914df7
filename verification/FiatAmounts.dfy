/** Fiat amounts of a wallet history record (main/models.py, WalletHistory.fiat_amounts).
    Amounts are exact reals. */
module FiatAmounts {
  import opened Prelude

  /** Fiat details of one transaction output. A blank recipient or currency makes the entry be
      skipped, and so does an amount that is missing or a numeric zero (both None here). */
  datatype OutputFiat = OutputFiat(recipient: string, currency: string, amount: Option<real>)

  /** One entry of an insertion-ordered dictionary from output index to details. */
  datatype Entry = Entry(index: string, output: OutputFiat)

  datatype RecordType = Incoming | Outgoing | Unspecified

  /** A history record: the addresses of its wallet, if it has one, and the sender addresses. */
  datatype WalletHistory = WalletHistory(
    walletAddresses: Option<set<string>>,
    txid: string,
    recordType: RecordType,
    senders: seq<string>)

  function PositionOf(dict: seq<Entry>, index: string): (p: nat)
    ensures p <= |dict|
    ensures forall i | 0 <= i < p :: dict[i].index != index
    ensures p < |dict| ==> dict[p].index == index
  {
    if dict == [] then 0
    else if dict[0].index == index then 0
    else 1 + PositionOf(dict[1..], index)
  }

  function Lookup(dict: seq<Entry>, index: string): Option<OutputFiat> {
    var p := PositionOf(dict, index);
    if p < |dict| then Some(dict[p].output) else None
  }

  ghost predicate DistinctKeys(dict: seq<Entry>) {
    forall i, j | 0 <= i < j < |dict| :: dict[i].index != dict[j].index
  }

  /** Dictionary assignment: an existing key keeps its place. */
  function Put(dict: seq<Entry>, entry: Entry): seq<Entry> {
    var p := PositionOf(dict, entry.index);
    if p < |dict| then dict[p := entry] else dict + [entry]
  }

  function Merge(dict: seq<Entry>, later: seq<Entry>): seq<Entry>
    decreases |later|
  {
    if later == [] then dict else Merge(Put(dict, later[0]), later[1..])
  }

  /** Broadcasts ordered by id; one without a dictionary is passed over. */
  function MergeAll(broadcasts: seq<Option<seq<Entry>>>): seq<Entry> {
    if broadcasts == [] then []
    else
      var last := broadcasts[|broadcasts| - 1];
      Merge(MergeAll(broadcasts[..|broadcasts| - 1]), last.GetOr([]))
  }

  lemma PutLookup(dict: seq<Entry>, entry: Entry)
    requires DistinctKeys(dict)
    ensures DistinctKeys(Put(dict, entry))
    ensures Lookup(Put(dict, entry), entry.index) == Some(entry.output)
    ensures forall k | k != entry.index :: Lookup(Put(dict, entry), k) == Lookup(dict, k)
  {
    var after := Put(dict, entry);
    assert after[PositionOf(dict, entry.index)] == entry;
    forall k | k != entry.index
      ensures Lookup(after, k) == Lookup(dict, k)
    {
      var p := PositionOf(dict, k);
      if p < |dict| {
        assert after[p] == dict[p];
      }
    }
  }

  lemma {:induction false} MergeLookup(dict: seq<Entry>, later: seq<Entry>)
    requires DistinctKeys(dict) && DistinctKeys(later)
    ensures DistinctKeys(Merge(dict, later))
    ensures forall k :: Lookup(Merge(dict, later), k)
                     == if Lookup(later, k).Some? then Lookup(later, k) else Lookup(dict, k)
    decreases |later|
  {
    if later != [] {
      PutLookup(dict, later[0]);
      MergeLookup(Put(dict, later[0]), later[1..]);
      forall k
        ensures Lookup(Merge(dict, later), k)
             == if Lookup(later, k).Some? then Lookup(later, k) else Lookup(dict, k)
      {
        if k == later[0].index {
          assert PositionOf(later[1..], k) == |later| - 1;
        }
      }
    }
  }

  /** The value of a key in the last broadcast that has it. */
  function Latest(broadcasts: seq<Option<seq<Entry>>>, index: string): Option<OutputFiat> {
    if broadcasts == [] then None
    else
      var last := broadcasts[|broadcasts| - 1].GetOr([]);
      if Lookup(last, index).Some? then Lookup(last, index)
      else Latest(broadcasts[..|broadcasts| - 1], index)
  }

  ghost predicate WellFormed(broadcasts: seq<Option<seq<Entry>>>) {
    forall b | b in broadcasts && b.Some? :: DistinctKeys(b.value)
  }

  /** The merged dictionary holds, per output, what the latest broadcast says. */
  lemma {:induction false} LaterBroadcastWins(broadcasts: seq<Option<seq<Entry>>>)
    requires WellFormed(broadcasts)
    ensures DistinctKeys(MergeAll(broadcasts))
    ensures forall k :: Lookup(MergeAll(broadcasts), k) == Latest(broadcasts, k)
  {
    if broadcasts != [] {
      var front, last := broadcasts[..|broadcasts| - 1], broadcasts[|broadcasts| - 1];
      LaterBroadcastWins(front);
      MergeLookup(MergeAll(front), last.GetOr([]));
    }
  }

  datatype Side = Received | Sent | Every

  predicate IsPriced(output: OutputFiat) {
    output.recipient != "" && output.currency != "" && output.amount.Some?
  }

  predicate OnSide(output: OutputFiat, own: set<string>, side: Side) {
    match side
    case Received => output.recipient in own
    case Sent => output.recipient !in own
    case Every => true
  }

  /** The outputs that a record of this side counts in this currency. */
  predicate Counts(output: OutputFiat, own: set<string>, side: Side, currency: string) {
    IsPriced(output) && output.currency == currency && OnSide(output, own, side)
  }

  /** Exact total per currency of the priced outputs of a side. */
  function Total(dict: seq<Entry>, own: set<string>, side: Side, currency: string): real {
    if dict == [] then 0.0
    else
      var last := dict[|dict| - 1].output;
      Total(dict[..|dict| - 1], own, side, currency)
      + if Counts(last, own, side, currency) then last.amount.value else 0.0
  }

  function AmountOf(amounts: map<string, real>, currency: string): real {
    if currency in amounts then amounts[currency] else 0.0
  }

  ghost function Currencies(dict: seq<Entry>, own: set<string>, side: Side): set<string> {
    set e | e in dict && IsPriced(e.output) && OnSide(e.output, own, side) :: e.output.currency
  }

  /** A per-currency dictionary adds up the outputs of one side and names no other currency. */
  ghost predicate Tallies(amounts: map<string, real>, dict: seq<Entry>, own: set<string>, side: Side) {
    && amounts.Keys == Currencies(dict, own, side)
    && forall c :: AmountOf(amounts, c) == Total(dict, own, side, c)
  }

  function Add(amounts: map<string, real>, currency: string, amount: real): map<string, real> {
    amounts[currency := if currency in amounts then amounts[currency] + amount else amount]
  }

  lemma CurrenciesStep(dict: seq<Entry>, own: set<string>, side: Side, entry: Entry)
    ensures Currencies(dict + [entry], own, side) == Currencies(dict, own, side)
              + if IsPriced(entry.output) && OnSide(entry.output, own, side) then {entry.output.currency} else {}
  {
  }

  lemma TotalStep(dict: seq<Entry>, own: set<string>, side: Side, entry: Entry, currency: string)
    ensures Total(dict + [entry], own, side, currency) == Total(dict, own, side, currency)
              + if Counts(entry.output, own, side, currency) then entry.output.amount.value else 0.0
  {
    assert (dict + [entry])[..|dict|] == dict;
  }

  lemma TalliesCounted(amounts: map<string, real>, dict: seq<Entry>, own: set<string>, side: Side, entry: Entry)
    requires Tallies(amounts, dict, own, side)
    requires IsPriced(entry.output) && OnSide(entry.output, own, side)
    ensures Tallies(Add(amounts, entry.output.currency, entry.output.amount.value), dict + [entry], own, side)
  {
    var after := Add(amounts, entry.output.currency, entry.output.amount.value);
    CurrenciesStep(dict, own, side, entry);
    forall c
      ensures AmountOf(after, c) == Total(dict + [entry], own, side, c)
    {
      TotalStep(dict, own, side, entry, c);
    }
  }

  lemma TalliesSkipped(amounts: map<string, real>, dict: seq<Entry>, own: set<string>, side: Side, entry: Entry)
    requires Tallies(amounts, dict, own, side)
    requires !(IsPriced(entry.output) && OnSide(entry.output, own, side))
    ensures Tallies(amounts, dict + [entry], own, side)
  {
    CurrenciesStep(dict, own, side, entry);
    forall c
      ensures AmountOf(amounts, c) == Total(dict + [entry], own, side, c)
    {
      TotalStep(dict, own, side, entry, c);
    }
  }

  /** The loop that both record types run over the merged outputs. */
  method Tally(dict: seq<Entry>, own: set<string>, received: bool) returns (amounts: map<string, real>)
    ensures Tallies(amounts, dict, own, if received then Received else Sent)
  {
    ghost var side := if received then Received else Sent;
    amounts := map[];
    for i := 0 to |dict|
      invariant Tallies(amounts, dict[..i], own, side)
    {
      var output := dict[i].output;
      assert dict[..i + 1] == dict[..i] + [dict[i]];
      if IsPriced(output) && OnSide(output, own, side) {
        TalliesCounted(amounts, dict[..i], own, side, dict[i]);
      } else {
        TalliesSkipped(amounts, dict[..i], own, side, dict[i]);
      }
      if output.recipient != "" && (output.recipient in own) == received {
        if output.currency != "" && output.amount.Some? {
          amounts := Add(amounts, output.currency, output.amount.value);
        }
      }
    }
    assert dict[..|dict|] == dict;
  }

  ghost predicate AllSendersOwn(history: WalletHistory, own: set<string>) {
    forall s | s in history.senders && s != "" :: s in own
  }

  /** What the property promises of a record of each type, currency by currency. */
  ghost predicate IsFiatAmounts(history: WalletHistory, broadcasts: seq<Option<seq<Entry>>>,
                                result: Option<map<string, real>>)
  {
    var dict, own := MergeAll(broadcasts), history.walletAddresses.GetOr({});
    if history.walletAddresses.None? || history.txid == "" then result.None?
    else match history.recordType
      case Incoming => && Tallies(result.GetOr(map[]), dict, own, Received)
                       && (result.Some? ==> result.value != map[])
      case Outgoing => if AllSendersOwn(history, own)
                       then Tallies(result.GetOr(map[]), dict, own, Sent) && (result.Some? ==> result.value != map[])
                       else result.None?
      case Unspecified => result.None?
  }

  method FiatAmountsOf(history: WalletHistory, broadcasts: seq<Option<seq<Entry>>>)
    returns (result: Option<map<string, real>>)
    ensures IsFiatAmounts(history, broadcasts, result)
  {
    if history.walletAddresses.None? || history.txid == "" {
      return None;
    }
    var own := history.walletAddresses.value;
    var dict: seq<Entry> := [];
    for i := 0 to |broadcasts|
      invariant dict == MergeAll(broadcasts[..i])
    {
      assert broadcasts[..i + 1][..i] == broadcasts[..i];
      if broadcasts[i].Some? {
        dict := Merge(dict, broadcasts[i].value);
      }
    }
    assert broadcasts[..|broadcasts|] == broadcasts;
    if dict == [] {
      return None;
    }
    var amounts := map[];
    if history.recordType == Incoming {
      amounts := Tally(dict, own, true);
    } else if history.recordType == Outgoing {
      var allInputsFromWallet := true;
      for i := 0 to |history.senders|
        invariant allInputsFromWallet
        invariant forall j | 0 <= j < i && history.senders[j] != "" :: history.senders[j] in own
      {
        if history.senders[i] != "" && history.senders[i] !in own {
          allInputsFromWallet := false;
          break;
        }
      }
      if allInputsFromWallet {
        amounts := Tally(dict, own, false);
      }
    }
    return if amounts == map[] then None else Some(amounts);
  }

  lemma {:induction false} SidesPartition(dict: seq<Entry>, own: set<string>, currency: string)
    ensures Total(dict, own, Received, currency) + Total(dict, own, Sent, currency)
         == Total(dict, own, Every, currency)
  {
    if dict != [] {
      SidesPartition(dict[..|dict| - 1], own, currency);
    }
  }

  /** Entries without recipient, currency or amount count on no side. */
  lemma {:induction false} UnpricedEntriesCountNothing(dict: seq<Entry>, own: set<string>, side: Side, currency: string)
    requires forall e | e in dict ::
               e.output.recipient == "" || e.output.currency == "" || e.output.amount.None?
    ensures Total(dict, own, side, currency) == 0.0
  {
    if dict != [] {
      assert dict[|dict| - 1] in dict && forall e | e in dict[..|dict| - 1] :: e in dict;
      UnpricedEntriesCountNothing(dict[..|dict| - 1], own, side, currency);
    }
  }

  ghost predicate AllTo(dict: seq<Entry>, own: set<string>, toOwn: bool) {
    forall e | e in dict && IsPriced(e.output) :: e.output.recipient in own <==> toOwn
  }

  lemma {:induction false} OneSidedTotals(dict: seq<Entry>, own: set<string>, toOwn: bool, currency: string)
    requires AllTo(dict, own, toOwn)
    ensures Total(dict, own, Received, currency) == if toOwn then Total(dict, own, Every, currency) else 0.0
    ensures Total(dict, own, Sent, currency) == if toOwn then 0.0 else Total(dict, own, Every, currency)
  {
    if dict != [] {
      var front := dict[..|dict| - 1];
      assert dict[|dict| - 1] in dict && forall e | e in front :: e in dict;
      OneSidedTotals(front, own, toOwn, currency);
    }
  }

  /** When all priced outputs go to the wallet everything is incoming and nothing outgoing; when none
      does it is the other way round. */
  lemma WhatGoesToTheWalletIsIncoming(incoming: WalletHistory, outgoing: WalletHistory,
                                      broadcasts: seq<Option<seq<Entry>>>, received: Option<map<string, real>>,
                                      sent: Option<map<string, real>>, currency: string, toOwn: bool)
    requires incoming.recordType == Incoming && outgoing.recordType == Outgoing
    requires incoming.walletAddresses == outgoing.walletAddresses && incoming.walletAddresses.Some?
    requires incoming.txid == outgoing.txid && incoming.txid != ""
    requires IsFiatAmounts(incoming, broadcasts, received) && IsFiatAmounts(outgoing, broadcasts, sent)
    requires AllSendersOwn(outgoing, incoming.walletAddresses.value)
    requires AllTo(MergeAll(broadcasts), incoming.walletAddresses.value, toOwn)
    ensures var total := Total(MergeAll(broadcasts), incoming.walletAddresses.value, Every, currency);
            && AmountOf(received.GetOr(map[]), currency) == (if toOwn then total else 0.0)
            && AmountOf(sent.GetOr(map[]), currency) == (if toOwn then 0.0 else total)
  {
    OneSidedTotals(MergeAll(broadcasts), incoming.walletAddresses.value, toOwn, currency);
  }

  /** The incoming and outgoing maps of one wallet and transaction add up to all priced outputs
      when every sender is the wallet's own; otherwise the sent part is missing. */
  lemma IncomingAndOutgoingAddUp(incoming: WalletHistory, outgoing: WalletHistory,
                                 broadcasts: seq<Option<seq<Entry>>>,
                                 received: Option<map<string, real>>, sent: Option<map<string, real>>,
                                 currency: string)
    requires incoming.recordType == Incoming && outgoing.recordType == Outgoing
    requires incoming.walletAddresses == outgoing.walletAddresses && incoming.walletAddresses.Some?
    requires incoming.txid == outgoing.txid && incoming.txid != ""
    requires IsFiatAmounts(incoming, broadcasts, received) && IsFiatAmounts(outgoing, broadcasts, sent)
    ensures var dict, own := MergeAll(broadcasts), incoming.walletAddresses.value;
            var missing := if AllSendersOwn(outgoing, own) then 0.0 else Total(dict, own, Sent, currency);
            AmountOf(received.GetOr(map[]), currency) + AmountOf(sent.GetOr(map[]), currency)
              == Total(dict, own, Every, currency) - missing
  {
    SidesPartition(MergeAll(broadcasts), incoming.walletAddresses.value, currency);
  }
}
