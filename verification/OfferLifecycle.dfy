/** The life of AnyHedge position offers (anyhedge/serializers.py, anyhedge/views.py).
    Each request is one atomic step; a step that raises leaves the tables as they were. */
module OfferLifecycle {
  import opened Prelude

  datatype Side = Short | Long
  datatype Status = Pending | Accepted | Settled

  /** The editable part of an offer. The position field is nullable. */
  datatype Details = Details(position: Option<Side>, satoshis: int, addressPath: string)

  datatype CounterParty = CounterParty(walletHash: string, addressPath: string, contractAddress: string)

  /** An offer with its one-to-one counterparty row, if there is one. */
  datatype Offer = Offer(
    status: Status,
    walletHash: string,
    details: Details,
    counterParty: Option<CounterParty>,
    hedgePosition: Option<nat>)

  datatype Proposal = Proposal(txHash: string, txIndex: int, txValue: int)

  datatype HedgePosition = HedgePosition(
    address: string,
    shortWalletHash: string,
    shortAddressPath: string,
    longWalletHash: string,
    longAddressPath: string,
    shortProposal: Option<Proposal>,
    longProposal: Option<Proposal>)

  /** The contract library's view of an offer: its address and what each side has to fund. */
  datatype Compiled = Compiled(address: string, shortAmount: int, longAmount: int)

  /** The tables. */
  datatype Book = Book(
    offers: map<nat, Offer>,
    positions: map<nat, HedgePosition>,
    nextOffer: nat,
    nextPosition: nat)

  datatype Event =
    | Create(walletHash: string, details: Details, keyMatches: bool)
    | Edit(id: nat, newWalletHash: Option<string>, newDetails: Details, keyMatches: bool)
    | Delete(id: nat)
    | Accept(id: nat, takerWallet: string, takerPath: string, keyMatches: bool, contract: Option<string>)
    | CancelAccept(id: nat)
    | Settle(id: nat, compiled: Compiled, proposal: Proposal)

  const EMPTY_BOOK := Book(map[], map[], 0, 0)

  predicate HasStatus(book: Book, id: nat, status: Status) {
    id in book.offers && book.offers[id].status == status
  }

  predicate AddressTaken(book: Book, address: string) {
    exists id | id in book.positions :: book.positions[id].address == address
  }

  predicate ContractTaken(book: Book, address: string) {
    exists id | id in book.offers && book.offers[id].counterParty.Some? ::
      book.offers[id].counterParty.value.contractAddress == address
  }

  /** The amount the counterparty has to bring; a null position counts as long here. */
  function ExpectedAmount(position: Option<Side>, compiled: Compiled): int {
    if position == Some(Short) then compiled.longAmount else compiled.shortAmount
  }

  /** The row that settling creates. The wallet swap tests for long, the proposal for short. */
  function BuildPosition(offer: Offer, taker: CounterParty, compiled: Compiled, proposal: Proposal): HedgePosition {
    var swap := offer.details.position == Some(Long);
    var toLong := offer.details.position == Some(Short);
    HedgePosition(
      compiled.address,
      if swap then taker.walletHash else offer.walletHash,
      if swap then taker.addressPath else offer.details.addressPath,
      if swap then offer.walletHash else taker.walletHash,
      if swap then offer.details.addressPath else taker.addressPath,
      if toLong then None else Some(proposal),
      if toLong then Some(proposal) else None)
  }

  predicate CanEdit(book: Book, id: nat, walletHash: Option<string>, keyMatches: bool) {
    && HasStatus(book, id, Pending) && keyMatches
    && (walletHash.Some? ==> walletHash.value == book.offers[id].walletHash)
  }

  /** A pending offer, and no clash in the unique columns of the counterparty table. */
  predicate CanAccept(book: Book, id: nat, keyMatches: bool, contract: Option<string>) {
    && HasStatus(book, id, Pending) && keyMatches && contract.Some?
    && book.offers[id].counterParty.None? && !ContractTaken(book, contract.value)
  }

  predicate CanSettle(book: Book, id: nat, compiled: Compiled, proposal: Proposal) {
    && HasStatus(book, id, Accepted)
    && book.offers[id].counterParty.Some?
    && proposal.txValue == ExpectedAmount(book.offers[id].details.position, compiled)
    && !AddressTaken(book, compiled.address)
  }

  function AfterSettle(book: Book, id: nat, compiled: Compiled, proposal: Proposal): Book
    requires CanSettle(book, id, compiled, proposal)
  {
    var offer := book.offers[id];
    var position := BuildPosition(offer, offer.counterParty.value, compiled, proposal);
    Book(
      book.offers[id := offer.(status := Settled, hedgePosition := Some(book.nextPosition))],
      book.positions[book.nextPosition := position],
      book.nextOffer,
      book.nextPosition + 1)
  }

  ghost function Step(book: Book, event: Event): Book {
    match event
    case Create(wallet, details, keyMatches) =>
      if keyMatches then book.(
        offers := book.offers[book.nextOffer := Offer(Pending, wallet, details, None, None)],
        nextOffer := book.nextOffer + 1)
      else book
    case Edit(id, wallet, details, keyMatches) =>
      if CanEdit(book, id, wallet, keyMatches)
      then book.(offers := book.offers[id := book.offers[id].(details := details)])
      else book
    case Delete(id) =>
      if HasStatus(book, id, Pending)
      then book.(offers := book.offers - {id})
      else book
    case Accept(id, wallet, path, keyMatches, contract) =>
      if CanAccept(book, id, keyMatches, contract)
      then book.(offers := book.offers[id := book.offers[id].(
        status := Accepted, counterParty := Some(CounterParty(wallet, path, contract.value)))])
      else book
    case CancelAccept(id) =>
      if HasStatus(book, id, Accepted)
      then book.(offers := book.offers[id := book.offers[id].(status := Pending, counterParty := None)])
      else book
    case Settle(id, compiled, proposal) =>
      if CanSettle(book, id, compiled, proposal) then AfterSettle(book, id, compiled, proposal) else book
  }

  class OfferDesk {
    var offers: map<nat, Offer>
    var positions: map<nat, HedgePosition>
    var nextOffer: nat
    var nextPosition: nat

    ghost function Tables(): Book
      reads this
    {
      Book(offers, positions, nextOffer, nextPosition)
    }

    constructor ()
      ensures Tables() == EMPTY_BOOK
    {
      offers, positions := map[], map[];
      nextOffer, nextPosition := 0, 0;
    }

    method CreateOffer(walletHash: string, details: Details, keyMatches: bool) returns (id: Option<nat>)
      modifies this
      ensures Tables() == Step(old(Tables()), Create(walletHash, details, keyMatches))
      ensures id == if keyMatches then Some(old(nextOffer)) else None
    {
      if !keyMatches {
        return None;
      }
      id := Some(nextOffer);
      offers := offers[nextOffer := Offer(Pending, walletHash, details, None, None)];
      nextOffer := nextOffer + 1;
    }

    method EditOffer(id: nat, walletHash: Option<string>, details: Details, keyMatches: bool) returns (ok: bool)
      modifies this`offers
      ensures Tables() == Step(old(Tables()), Edit(id, walletHash, details, keyMatches))
      ensures ok <==> CanEdit(old(Tables()), id, walletHash, keyMatches)
    {
      if id !in offers {
        return false;
      }
      var instance := offers[id];
      if walletHash.Some? && walletHash.value != instance.walletHash {
        return false;
      }
      if instance.status != Pending || !keyMatches {
        return false;
      }
      offers := offers[id := instance.(details := details)];
      return true;
    }

    method Destroy(id: nat) returns (ok: bool)
      modifies this`offers
      ensures Tables() == Step(old(Tables()), Delete(id))
      ensures ok <==> HasStatus(old(Tables()), id, Pending)
    {
      if id !in offers || offers[id].status != Pending {
        return false;
      }
      offers := offers - {id};
      return true;
    }

    method AcceptOffer(id: nat, takerWallet: string, takerPath: string, keyMatches: bool, contract: Option<string>)
      returns (ok: bool)
      modifies this`offers
      ensures Tables() == Step(old(Tables()), Accept(id, takerWallet, takerPath, keyMatches, contract))
      ensures ok <==> CanAccept(old(Tables()), id, keyMatches, contract)
    {
      if id !in offers || offers[id].status != Pending || !keyMatches || contract.None? {
        return false;
      }
      // The unique columns of the counterparty table; a clash rolls the step back.
      if offers[id].counterParty.Some?
         || (exists k | k in offers && offers[k].counterParty.Some? ::
               offers[k].counterParty.value.contractAddress == contract.value) {
        return false;
      }
      var instance := offers[id].(counterParty := Some(CounterParty(takerWallet, takerPath, contract.value)));
      offers := offers[id := instance.(status := Accepted)];
      return true;
    }

    method CancelAcceptOffer(id: nat) returns (ok: bool)
      modifies this`offers
      ensures Tables() == Step(old(Tables()), CancelAccept(id))
      ensures ok <==> HasStatus(old(Tables()), id, Accepted)
    {
      if id !in offers || offers[id].status != Accepted {
        return false;
      }
      var instance := offers[id].(counterParty := None);
      offers := offers[id := instance.(status := Pending)];
      return true;
    }

    method SettleOffer(id: nat, compiled: Compiled, proposal: Proposal) returns (position: Option<nat>)
      modifies this`offers, this`positions, this`nextPosition
      ensures Tables() == Step(old(Tables()), Settle(id, compiled, proposal))
      ensures position
           == if CanSettle(old(Tables()), id, compiled, proposal) then Some(old(nextPosition)) else None
    {
      if id !in offers || offers[id].status != Accepted || offers[id].counterParty.None? {
        return None;
      }
      var offer, taker := offers[id], offers[id].counterParty.value;
      var expected := if offer.details.position == Some(Short) then compiled.longAmount else compiled.shortAmount;
      if proposal.txValue != expected {
        return None;
      }
      if exists k | k in positions :: positions[k].address == compiled.address {
        return None;
      }
      var shortWallet, longWallet := offer.walletHash, taker.walletHash;
      var shortPath, longPath := offer.details.addressPath, taker.addressPath;
      if offer.details.position == Some(Long) {
        shortWallet, longWallet := longWallet, shortWallet;
        shortPath, longPath := longPath, shortPath;
      }
      var shortProposal, longProposal: Option<Proposal> := None, None;
      if offer.details.position == Some(Short) {
        longProposal := Some(proposal);
      } else {
        shortProposal := Some(proposal);
      }
      position := Some(nextPosition);
      positions := positions[nextPosition :=
        HedgePosition(compiled.address, shortWallet, shortPath, longWallet, longPath, shortProposal, longProposal)];
      nextPosition := nextPosition + 1;
      offers := offers[id := offer.(status := Settled, hedgePosition := position)];
    }
  }

  ghost predicate StatusFits(offer: Offer) {
    match offer.status
    case Pending => offer.counterParty.None? && offer.hedgePosition.None?
    case Accepted => offer.counterParty.Some? && offer.hedgePosition.None?
    case Settled => offer.counterParty.Some? && offer.hedgePosition.Some?
  }

  ghost predicate Holders(position: HedgePosition, shortWallet: string, shortPath: string, longWallet: string,
                          longPath: string)
  {
    && position.shortWalletHash == shortWallet && position.shortAddressPath == shortPath
    && position.longWalletHash == longWallet && position.longAddressPath == longPath
  }

  /** The offerer is on a side that the offer does not rule out, the counterparty on the other
      one, and the counterparty's proposal, alone, is on the counterparty's side. */
  ghost predicate OnCorrectSides(offer: Offer, taker: CounterParty, position: HedgePosition, proposal: Proposal) {
    var path := offer.details.addressPath;
    || (&& offer.details.position != Some(Long)
        && Holders(position, offer.walletHash, path, taker.walletHash, taker.addressPath)
        && position.longProposal == Some(proposal) && position.shortProposal.None?)
    || (&& offer.details.position != Some(Short)
        && Holders(position, taker.walletHash, taker.addressPath, offer.walletHash, path)
        && position.shortProposal == Some(proposal) && position.longProposal.None?)
  }

  /** The proposal that a position holds, if it holds one. */
  function Posted(position: HedgePosition): Option<Proposal> {
    if position.longProposal.Some? then position.longProposal else position.shortProposal
  }

  ghost function SettledIds(book: Book): set<nat> {
    set id | id in book.offers && book.offers[id].status == Settled
  }

  /** What holds of every offer: its status fits its rows, and once settled its position exists
      and has the two parties on the right sides. */
  ghost predicate OfferOk(offer: Offer, positions: map<nat, HedgePosition>) {
    && StatusFits(offer)
    && (offer.status == Settled ==>
          && offer.hedgePosition.value in positions
          && (offer.details.position.Some? ==>
                HasCorrectSides(offer, offer.counterParty.value, positions[offer.hedgePosition.value])))
  }

  ghost predicate HasCorrectSides(offer: Offer, taker: CounterParty, position: HedgePosition) {
    Posted(position).Some? && OnCorrectSides(offer, taker, position, Posted(position).value)
  }

  ghost predicate PositionsNotShared(book: Book) {
    forall id, other | id in SettledIds(book) && other in SettledIds(book) && id != other ::
      book.offers[id].hedgePosition != book.offers[other].hedgePosition
  }

  ghost predicate OffersOk(book: Book) {
    forall id | id in book.offers :: id < book.nextOffer && OfferOk(book.offers[id], book.positions)
  }

  ghost predicate Valid(book: Book) {
    && OffersOk(book)
    && (forall p | p in book.positions :: p < book.nextPosition)
    && PositionsNotShared(book)
    && |book.positions| == |SettledIds(book)|
  }

  lemma SettleKeepsOffersOk(book: Book, id: nat, compiled: Compiled, proposal: Proposal)
    requires OffersOk(book) && CanSettle(book, id, compiled, proposal)
    requires book.nextPosition !in book.positions
    ensures OffersOk(AfterSettle(book, id, compiled, proposal))
  {
    SidesOfBuiltPosition(book.offers[id], book.offers[id].counterParty.value, compiled, proposal);
  }

  lemma NewPositionNotShared(book: Book, id: nat, after: Book)
    requires PositionsNotShared(book) && id in book.offers && book.offers[id].status != Settled
    requires forall k | k in SettledIds(book) :: book.offers[k].hedgePosition != Some(book.nextPosition)
    requires id in after.offers && after.offers == book.offers[id := after.offers[id]]
    requires after.offers[id].status == Settled
    requires after.offers[id].hedgePosition == Some(book.nextPosition)
    ensures SettledIds(after) == SettledIds(book) + {id} && id !in SettledIds(book)
    ensures PositionsNotShared(after)
  {
  }

  lemma SettleKeepsValid(book: Book, id: nat, compiled: Compiled, proposal: Proposal)
    requires Valid(book) && CanSettle(book, id, compiled, proposal)
    ensures Valid(AfterSettle(book, id, compiled, proposal))
  {
    assert book.nextPosition !in book.positions;
    SettleKeepsOffersOk(book, id, compiled, proposal);
    assert forall k | k in SettledIds(book) :: OfferOk(book.offers[k], book.positions);
    NewPositionNotShared(book, id, AfterSettle(book, id, compiled, proposal));
  }

  ghost predicate SameParty(offer: Offer, taker: CounterParty) {
    offer.walletHash == taker.walletHash && offer.details.addressPath == taker.addressPath
  }

  /** The built position has everything on the correct sides exactly when the offer names a
      position, or when offerer and counterparty are the same wallet and path. */
  lemma SidesOfBuiltPosition(offer: Offer, taker: CounterParty, compiled: Compiled, proposal: Proposal)
    ensures Posted(BuildPosition(offer, taker, compiled, proposal)) == Some(proposal)
    ensures OnCorrectSides(offer, taker, BuildPosition(offer, taker, compiled, proposal), proposal)
        <==> offer.details.position.Some? || SameParty(offer, taker)
  {
    match offer.details.position {
      case Some(Short) =>
      case Some(Long) =>
      case None =>
    }
  }

  /** Only a settle step can touch a settled offer or the positions. */
  lemma SettledUntouched(book: Book, event: Event)
    requires Valid(book) && !event.Settle?
    ensures Step(book, event).positions == book.positions
    ensures forall k ::
              k in SettledIds(Step(book, event)) || k in SettledIds(book) ==>
                && k in Step(book, event).offers && k in book.offers
                && Step(book, event).offers[k] == book.offers[k]
  {
  }

  lemma OtherStepsKeepValid(book: Book, event: Event)
    requires Valid(book) && !event.Settle?
    ensures Valid(Step(book, event))
  {
    SettledUntouched(book, event);
    assert SettledIds(Step(book, event)) == SettledIds(book);
  }

  ghost function Run(events: seq<Event>): Book {
    if events == [] then EMPTY_BOOK else Step(Run(events[..|events| - 1]), events[|events| - 1])
  }

  /** Every run keeps statuses, counterparties, positions and sides consistent. */
  lemma {:induction false} RunKeepsValid(events: seq<Event>)
    ensures Valid(Run(events))
  {
    if events != [] {
      var book, event := Run(events[..|events| - 1]), events[|events| - 1];
      RunKeepsValid(events[..|events| - 1]);
      if event.Settle? && CanSettle(book, event.id, event.compiled, event.proposal) {
        SettleKeepsValid(book, event.id, event.compiled, event.proposal);
      } else if !event.Settle? {
        OtherStepsKeepValid(book, event);
      }
    }
  }

  /** As many positions have been created as offers have been settled, one for each. */
  lemma PositionsEqualSettledOffers(events: seq<Event>)
    ensures var book := Run(events);
            && |book.positions| == |SettledIds(book)|
            && PositionsNotShared(book)
            && forall id | id in SettledIds(book) ::
                 book.offers[id].hedgePosition.Some? && book.offers[id].hedgePosition.value in book.positions
  {
    RunKeepsValid(events);
  }

  /** A settled offer, its counterparty and its position are the same in both books. */
  ghost predicate SettledAlike(before: Book, after: Book, id: nat) {
    && HasStatus(before, id, Settled) && HasStatus(after, id, Settled)
    && after.offers[id] == before.offers[id]
    && before.offers[id].counterParty.Some? && before.offers[id].hedgePosition.Some?
    && var p := before.offers[id].hedgePosition.value;
       p in before.positions && p in after.positions && after.positions[p] == before.positions[p]
  }

  lemma SettledSurvivesStep(book: Book, event: Event, id: nat)
    requires Valid(book) && HasStatus(book, id, Settled)
    ensures SettledAlike(book, Step(book, event), id)
  {
    assert OfferOk(book.offers[id], book.positions);
    if !event.Settle? {
      SettledUntouched(book, event);
      assert id in SettledIds(book);
    }
  }

  /** A settled offer never changes again. */
  lemma {:induction false} SettledIsFinal(events: seq<Event>, more: seq<Event>, id: nat)
    requires HasStatus(Run(events), id, Settled)
    ensures SettledAlike(Run(events), Run(events + more), id)
  {
    if more == [] {
      RunKeepsValid(events);
      assert OfferOk(Run(events).offers[id], Run(events).positions);
      assert events + more == events;
    } else {
      var front, last := more[..|more| - 1], more[|more| - 1];
      SettledIsFinal(events, front, id);
      RunKeepsValid(events + front);
      SettledSurvivesStep(Run(events + front), last, id);
      assert (events + more)[..|events + more| - 1] == events + front;
      assert Run(events + more) == Step(Run(events + front), last);
    }
  }

  /** Step k settled the offer: the position is the one built from the offer, its counterparty and
      the proposal submitted at that step. */
  ghost predicate SettledAt(events: seq<Event>, k: int, id: nat, offer: Offer, position: HedgePosition) {
    && 0 <= k < |events| && events[k].Settle? && events[k].id == id
    && CanSettle(Run(events[..k]), id, events[k].compiled, events[k].proposal)
    && offer.counterParty == Run(events[..k]).offers[id].counterParty && offer.counterParty.Some?
    && offer.details == Run(events[..k]).offers[id].details
    && position == BuildPosition(offer, offer.counterParty.value, events[k].compiled, events[k].proposal)
  }

  ghost predicate WasSettled(events: seq<Event>, id: nat)
    requires HasStatus(Run(events), id, Settled)
  {
    var book := Run(events);
    && book.offers[id].hedgePosition.Some? && book.offers[id].hedgePosition.value in book.positions
    && exists k :: SettledAt(events, k, id, book.offers[id], book.positions[book.offers[id].hedgePosition.value])
  }

  lemma SettledAtEarlier(events: seq<Event>, event: Event, k: int, id: nat, offer: Offer, position: HedgePosition)
    requires SettledAt(events, k, id, offer, position)
    ensures SettledAt(events + [event], k, id, offer, position)
  {
    assert (events + [event])[..k] == events[..k];
  }

  /** In every run a settled offer got its position from a settle step, with the proposal that was
      submitted there, and nothing has changed since. */
  lemma {:induction false} SettledOffersWereSettled(events: seq<Event>, id: nat)
    requires HasStatus(Run(events), id, Settled)
    ensures WasSettled(events, id)
  {
    var front, last := events[..|events| - 1], events[|events| - 1];
    assert events == front + [last];
    RunKeepsValid(front);
    if HasStatus(Run(front), id, Settled) {
      SettledOffersWereSettled(front, id);
      SettledSurvivesStep(Run(front), last, id);
      var offer := Run(front).offers[id];
      var position := Run(front).positions[offer.hedgePosition.value];
      var k :| SettledAt(front, k, id, offer, position);
      SettledAtEarlier(front, last, k, id, offer, position);
    } else {
      var after := Run(events);
      assert events[..|events| - 1] == front;
      NewlySettled(Run(front), last, id);
      var position := after.positions[after.offers[id].hedgePosition.value];
      assert SettledAt(events, |events| - 1, id, after.offers[id], position);
    }
  }

  lemma NewlySettled(book: Book, event: Event, id: nat)
    requires Valid(book) && !HasStatus(book, id, Settled) && HasStatus(Step(book, event), id, Settled)
    ensures event.Settle? && event.id == id && CanSettle(book, id, event.compiled, event.proposal)
  {
    assert id in SettledIds(Step(book, event));
    if !event.Settle? {
      SettledUntouched(book, event);
    }
  }

  /** So the counterparty's own proposal stands on the counterparty's side, exactly when the offer
      named a position or both parties are one. */
  lemma SettledProposalOnCorrectSide(events: seq<Event>, id: nat) returns (k: nat)
    requires HasStatus(Run(events), id, Settled)
    ensures WasSettled(events, id)
    ensures var offer := Run(events).offers[id];
            var position := Run(events).positions[offer.hedgePosition.value];
            && SettledAt(events, k, id, offer, position)
            && (OnCorrectSides(offer, offer.counterParty.value, position, events[k].proposal) <==>
                  offer.details.position.Some? || SameParty(offer, offer.counterParty.value))
  {
    SettledOffersWereSettled(events, id);
    var offer := Run(events).offers[id];
    var position := Run(events).positions[offer.hedgePosition.value];
    k :| SettledAt(events, k, id, offer, position);
    SidesOfBuiltPosition(offer, offer.counterParty.value, events[k].compiled, events[k].proposal);
  }

  /** An offer id that was given out once either still names an offer of the same wallet or
      names none: ids are not used again, and nothing moves an offer to another wallet. */
  ghost predicate SameOwner(before: Book, after: Book, id: nat) {
    && id < after.nextOffer
    && (id in after.offers ==> id in before.offers && after.offers[id].walletHash == before.offers[id].walletHash)
  }

  lemma {:induction false} OfferKeepsItsWallet(events: seq<Event>, more: seq<Event>, id: nat)
    requires id < Run(events).nextOffer
    ensures SameOwner(Run(events), Run(events + more), id)
  {
    if more == [] {
      assert events + more == events;
    } else {
      var front := more[..|more| - 1];
      OfferKeepsItsWallet(events, front, id);
      assert (events + more)[..|events + more| - 1] == events + front;
    }
  }

  /** The side on which a position's proposal stands, by its wallet. */
  function ProposerWallet(position: HedgePosition): string {
    if position.longProposal.Some? then position.longWalletHash else position.shortWalletHash
  }

  /** Between two different wallets, the proposal stands beside the counterparty's wallet exactly
      when the offer names a position: with a null one it lands beside the offerer's. */
  lemma SidesCorrectExactlyWhenPositionNamed(offer: Offer, taker: CounterParty, compiled: Compiled, proposal: Proposal)
    requires offer.walletHash != taker.walletHash
    ensures var position := BuildPosition(offer, taker, compiled, proposal);
            && ProposerWallet(position)
               == (if offer.details.position.Some? then taker.walletHash else offer.walletHash)
            && (OnCorrectSides(offer, taker, position, proposal) <==> offer.details.position.Some?)
  {
    SidesOfBuiltPosition(offer, taker, compiled, proposal);
    match offer.details.position {
      case Some(Short) =>
      case Some(Long) =>
      case None =>
    }
  }

  /** The counterparty funds its own side: a proposal on the long side has the long amount of the
      compiled contract, one on the short side the short amount. */
  ghost predicate FundsItsSide(position: HedgePosition, compiled: Compiled) {
    && position.address == compiled.address
    && (position.longProposal.Some? ==> position.longProposal.value.txValue == compiled.longAmount)
    && (position.shortProposal.Some? ==> position.shortProposal.value.txValue == compiled.shortAmount)
    && (position.longProposal.Some? <==> position.shortProposal.None?)
  }

  /** In every run a settled position is the compiled contract of its settle step, funded by the
      counterparty with the amount of the side on which its proposal stands. */
  lemma SettledProposalFundsItsSide(events: seq<Event>, id: nat) returns (k: nat)
    requires HasStatus(Run(events), id, Settled)
    ensures WasSettled(events, id)
    ensures var offer := Run(events).offers[id];
            var position := Run(events).positions[offer.hedgePosition.value];
            SettledAt(events, k, id, offer, position) && FundsItsSide(position, events[k].compiled)
  {
    SettledOffersWereSettled(events, id);
    var offer := Run(events).offers[id];
    var position := Run(events).positions[offer.hedgePosition.value];
    k :| SettledAt(events, k, id, offer, position);
  }

  /** An accepted offer settles exactly when the counterparty brings the amount of its own side: the
      other one than the offer's, and the short one when the offer names none. */
  lemma SettlesExactlyForCounterPartyAmount(book: Book, id: nat, compiled: Compiled, proposal: Proposal)
    requires Valid(book) && HasStatus(book, id, Accepted) && !AddressTaken(book, compiled.address)
    ensures var offer := book.offers[id];
            HasStatus(Step(book, Settle(id, compiled, proposal)), id, Settled) <==>
              match offer.details.position
              case Some(Short) => proposal.txValue == compiled.longAmount
              case Some(Long) => proposal.txValue == compiled.shortAmount
              case None => proposal.txValue == compiled.shortAmount
  {
    assert OfferOk(book.offers[id], book.positions);
  }

  // ---------- What single steps do, and undo ----------

  /** Canceling an acceptance undoes it entirely. */
  lemma CancelUndoesAccept(book: Book, id: nat, wallet: string, path: string, contract: string)
    requires Valid(book) && CanAccept(book, id, true, Some(contract))
    ensures var accepted := Step(book, Accept(id, wallet, path, true, Some(contract)));
            && HasStatus(accepted, id, Accepted)
            && accepted.offers[id].counterParty == Some(CounterParty(wallet, path, contract))
            && Step(accepted, CancelAccept(id)) == book
  {
    var accepted := Step(book, Accept(id, wallet, path, true, Some(contract)));
    assert OfferOk(book.offers[id], book.positions);
    assert Step(accepted, CancelAccept(id)).offers == book.offers;
  }

  /** An edit replaces the details of a pending offer and nothing else; the edit back undoes it. */
  lemma EditBackUndoesEdit(book: Book, id: nat, details: Details)
    requires HasStatus(book, id, Pending)
    ensures var edited := Step(book, Edit(id, None, details, true));
            && HasStatus(edited, id, Pending) && edited.offers[id].details == details
            && Step(edited, Edit(id, None, book.offers[id].details, true)) == book
  {
    var edited := Step(book, Edit(id, None, details, true));
    assert Step(edited, Edit(id, None, book.offers[id].details, true)).offers == book.offers;
  }

  /** A new offer is pending under a fresh id with what was submitted, and deleting it leaves the
      other offers as they were. */
  lemma DeleteUndoesCreate(book: Book, wallet: string, details: Details)
    requires Valid(book)
    ensures var created := Step(book, Create(wallet, details, true));
            && book.nextOffer !in book.offers
            && HasStatus(created, book.nextOffer, Pending)
            && created.offers[book.nextOffer].walletHash == wallet && created.offers[book.nextOffer].details == details
            && Step(created, Delete(book.nextOffer)).offers == book.offers
  {
    assert book.nextOffer !in book.offers;
    var created := Step(book, Create(wallet, details, true));
    assert Step(created, Delete(book.nextOffer)).offers == book.offers;
  }

  // ---------- Unique addresses ----------

  ghost predicate ContractsDiffer(book: Book, id: nat, other: nat)
    requires id in book.offers && other in book.offers
  {
    var taker, otherTaker := book.offers[id].counterParty, book.offers[other].counterParty;
    taker.Some? && otherTaker.Some? ==> taker.value.contractAddress != otherTaker.value.contractAddress
  }

  ghost predicate UniqueContracts(book: Book) {
    forall id, other | id in book.offers && other in book.offers && id != other :: ContractsDiffer(book, id, other)
  }

  ghost predicate UniquePositions(book: Book) {
    forall p, q | p in book.positions && q in book.positions && p != q ::
      book.positions[p].address != book.positions[q].address
  }

  lemma StepKeepsUniqueContracts(book: Book, event: Event)
    requires Valid(book) && UniqueContracts(book)
    ensures UniqueContracts(Step(book, event))
  {
    var after := Step(book, event);
    forall id, other | id in after.offers && other in after.offers && id != other
      ensures ContractsDiffer(after, id, other)
    {
      if id in book.offers && other in book.offers {
        assert ContractsDiffer(book, id, other);
      }
    }
  }

  lemma StepKeepsUniquePositions(book: Book, event: Event)
    requires UniquePositions(book)
    ensures UniquePositions(Step(book, event))
  {
  }

  /** In every run no two offers share a contract address, and no two positions an address. */
  lemma {:induction false} RunKeepsAddressesUnique(events: seq<Event>)
    ensures UniqueContracts(Run(events)) && UniquePositions(Run(events))
  {
    if events != [] {
      var front, last := events[..|events| - 1], events[|events| - 1];
      RunKeepsAddressesUnique(front);
      RunKeepsValid(front);
      StepKeepsUniqueContracts(Run(front), last);
      StepKeepsUniquePositions(Run(front), last);
    }
  }

  /** Which offers a step can change at all: pending ones by an edit, a deletion or an acceptance,
      accepted ones by a cancellation or a settlement. */
  lemma StepsNeedTheirStatus(book: Book, event: Event)
    ensures match event
            case Create(_, _, keyMatches) => !keyMatches ==> Step(book, event) == book
            case Edit(id, wallet, _, keyMatches) =>
              Step(book, event) != book ==>
                HasStatus(book, id, Pending) && keyMatches && wallet in {None, Some(book.offers[id].walletHash)}
            case Delete(id) => Step(book, event) != book ==> HasStatus(book, id, Pending)
            case Accept(id, _, _, keyMatches, contract) =>
              Step(book, event) != book ==> HasStatus(book, id, Pending) && keyMatches && contract.Some?
            case CancelAccept(id) => Step(book, event) != book ==> HasStatus(book, id, Accepted)
            case Settle(id, _, _) => Step(book, event) != book ==> HasStatus(book, id, Accepted)
  {
  }
}
