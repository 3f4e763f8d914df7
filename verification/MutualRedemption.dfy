/** The mutual redemption of one AnyHedge contract: two parties sign the same payout
    (anyhedge/serializers.py, anyhedge/views.py, anyhedge/tasks.py). */
module MutualRedemption {
  import opened Prelude

  datatype RedemptionType = Refund | EarlyMaturation | Arbitrary
  datatype Position = Short | Long

  datatype Terms = Terms(shortSatoshis: int, longSatoshis: int, redemptionType: RedemptionType)

  /** The stored row. A blank signature or transaction hash means it is absent. */
  datatype Redemption = Redemption(
    initiator: Position,
    terms: Terms,
    shortSig: string,
    longSig: string,
    settlementPrice: Option<int>,
    txHash: string,
    fundingTxHash: string)

  /** What a party posts; it may carry either signature, both or none. */
  datatype Request = Request(terms: Terms, shortSig: string, longSig: string, settlementPrice: Option<int>)

  /** The hedge position and its funding record, fixed during a run. */
  datatype Contract = Contract(
    fundingTxHash: string,
    fundingSatoshis: Option<int>,
    version: string,
    satoshis: int,
    longInputSats: int,
    shortPubkey: string,
    longPubkey: string)

  datatype Error =
    | NotFunded | FundingUnverified
    | PriceMissing | PriceRequired | ShortPayoutWrong | LongPayoutWrong | PayoutsDoNotSum
    | AlreadySettled | AlreadyCompleted
    | NoRedemption | BadSignature | IncompleteSignatures | RedemptionFailed

  predicate Contains(s: string, part: string) {
    part <= s || (s != "" && Contains(s[1..], part))
  }

  function TxFee(version: string): int {
    if Contains(version, "v0.11") then 1175 else 1967
  }

  function Abs(x: int): nat {
    if x < 0 then -x else x
  }

  /** The terms a contract accepts: what is left after the fee is paid out in full, and a
      refund returns what each party put in, to the satoshi below or above. */
  ghost predicate TermsAllowed(contract: Contract, terms: Terms) {
    && contract.fundingSatoshis.Some?
    && terms.shortSatoshis + terms.longSatoshis == contract.fundingSatoshis.value - TxFee(contract.version)
    && (terms.redemptionType == Refund ==>
          && contract.satoshis - 1 <= terms.shortSatoshis <= contract.satoshis + 1
          && contract.longInputSats - 1 <= terms.longSatoshis <= contract.longInputSats + 1)
  }

  ghost predicate IsFunded(contract: Contract) {
    contract.fundingTxHash != "" && contract.fundingSatoshis.Some?
  }

  /** A negative settlement price passes; a missing or zero one does not. */
  ghost predicate RequestValid(contract: Contract, request: Request) {
    && contract.fundingTxHash != ""
    && TermsAllowed(contract, request.terms)
    && (request.terms.redemptionType == EarlyMaturation ==>
          request.settlementPrice.Some? && request.settlementPrice.value != 0)
  }

  /** MutualRedemptionSerializer.validate */
  method Validate(contract: Contract, request: Request) returns (r: Outcome<Error>)
    ensures r.Pass? <==> RequestValid(contract, request)
    ensures r == Fail(NotFunded) <==> contract.fundingTxHash == ""
    ensures r == Fail(FundingUnverified) <==> contract.fundingTxHash != "" && contract.fundingSatoshis.None?
    ensures r == Fail(PriceMissing) <==>
              && IsFunded(contract) && request.terms.redemptionType == EarlyMaturation
              && request.settlementPrice.None?
    ensures r == Fail(PriceRequired) <==>
              && IsFunded(contract) && request.terms.redemptionType == EarlyMaturation
              && request.settlementPrice == Some(0)
    ensures r == Fail(ShortPayoutWrong) <==>
              && IsFunded(contract) && request.terms.redemptionType == Refund
              && Abs(request.terms.shortSatoshis - contract.satoshis) > 1
    ensures r == Fail(LongPayoutWrong) <==>
              && IsFunded(contract) && request.terms.redemptionType == Refund
              && Abs(request.terms.shortSatoshis - contract.satoshis) <= 1
              && Abs(request.terms.longSatoshis - contract.longInputSats) > 1
    ensures r.Fail? ==>
              r.error in {NotFunded, FundingUnverified, PriceMissing, PriceRequired, ShortPayoutWrong, LongPayoutWrong}
              || (r.error == PayoutsDoNotSum && IsFunded(contract)
                  && request.terms.shortSatoshis + request.terms.longSatoshis
                     != contract.fundingSatoshis.value - TxFee(contract.version))
  {
    if contract.fundingTxHash == "" {
      return Fail(NotFunded);
    }
    if contract.fundingSatoshis.None? {
      return Fail(FundingUnverified);
    }
    var terms := request.terms;
    if terms.redemptionType == EarlyMaturation {
      // A missing price is compared with 0, which raises a TypeError.
      if request.settlementPrice.None? {
        return Fail(PriceMissing);
      }
      if request.settlementPrice.value == 0 && request.settlementPrice.value <= 0 {
        return Fail(PriceRequired);
      }
    } else if terms.redemptionType == Refund {
      if Abs(terms.shortSatoshis - contract.satoshis) > 1 {
        return Fail(ShortPayoutWrong);
      } else if Abs(terms.longSatoshis - contract.longInputSats) > 1 {
        return Fail(LongPayoutWrong);
      }
    }
    var fee := if Contains(contract.version, "v0.11") then 1175 else 1967;
    if contract.fundingSatoshis.value - fee != terms.shortSatoshis + terms.longSatoshis {
      return Fail(PayoutsDoNotSum);
    }
    return Pass;
  }

  /** The signature on a side after a request: a new one, or the stored one if it was given on
      the same terms. */
  function SigAfter(stored: Option<Redemption>, request: Request, side: Position): string {
    var posted := if side == Short then request.shortSig else request.longSig;
    if posted != "" then posted
    else if stored.Some? && stored.value.terms == request.terms then
      if side == Short then stored.value.shortSig else stored.value.longSig
    else ""
  }

  function InitiatorAfter(stored: Option<Redemption>, request: Request): Position {
    var hasShort := SigAfter(stored, request, Short) != "";
    var hasLong := SigAfter(stored, request, Long) != "";
    if hasShort != hasLong then (if hasShort then Short else Long)
    else if stored.Some? then stored.value.initiator else Short
  }

  /** The row after a valid request. */
  function Recorded(stored: Option<Redemption>, request: Request): Redemption {
    Redemption(
      InitiatorAfter(stored, request),
      request.terms,
      SigAfter(stored, request, Short),
      SigAfter(stored, request, Long),
      request.settlementPrice,
      if stored.Some? then stored.value.txHash else "",
      if stored.Some? then stored.value.fundingTxHash else "")
  }

  /** One atomic step. Redeem carries what the settlement search and the signing service answer. */
  datatype Event =
    | Submit(request: Request, settled: bool)
    | Cancel(position: string, signature: string)
    | Redeem(settled: bool, searchFindsSettlement: bool, completion: Option<(string, string)>)

  function InitiatorSig(r: Redemption): string {
    if r.initiator == Short then r.shortSig else r.longSig
  }

  function PubkeyOf(contract: Contract, position: string): string {
    if position == "short" then contract.shortPubkey
    else if position == "long" then contract.longPubkey
    else ""
  }

  type Verifier = (string, string, string) -> bool

  predicate Completed(stored: Option<Redemption>) {
    stored.Some? && stored.value.txHash != ""
  }

  ghost predicate Accepts(contract: Contract, stored: Option<Redemption>, request: Request, settled: bool) {
    !settled && !Completed(stored) && RequestValid(contract, request)
  }

  predicate CancelVerifies(contract: Contract, verify: Verifier, stored: Option<Redemption>, position: string,
                           signature: string)
  {
    stored.Some? && verify(InitiatorSig(stored.value), signature, PubkeyOf(contract, position))
  }

  predicate BothSigned(stored: Option<Redemption>) {
    stored.Some? && stored.value.shortSig != "" && stored.value.longSig != ""
  }

  ghost function Step(contract: Contract, verify: Verifier, stored: Option<Redemption>, event: Event)
    : Option<Redemption>
  {
    match event
    case Submit(request, settled) =>
      if Accepts(contract, stored, request, settled) then Some(Recorded(stored, request)) else stored
    case Cancel(position, signature) =>
      if !Completed(stored) && CancelVerifies(contract, verify, stored, position, signature) then None else stored
    case Redeem(settled, found, completion) =>
      if (settled || !found) && !Completed(stored) && BothSigned(stored) && completion.Some?
      then Some(stored.value.(txHash := completion.value.0, fundingTxHash := completion.value.1)) else stored
  }

  class RedemptionDesk {
    const contract: Contract
    const verify: Verifier
    var redemption: Option<Redemption>

    constructor (contract: Contract, verify: Verifier)
      ensures this.contract == contract && this.verify == verify && redemption == None
    {
      this.contract := contract;
      this.verify := verify;
      redemption := None;
    }

    /** MutualRedemptionSerializer.create, on a validated request. */
    method Create(request: Request)
      modifies this
      ensures redemption == Some(Recorded(old(redemption), request))
    {
      var instance :=
        if redemption.Some? then redemption.value
        else Redemption(Short, request.terms, request.shortSig, request.longSig, request.settlementPrice, "", "");
      if instance.terms != request.terms {
        instance := instance.(shortSig := "", longSig := "");
      }
      instance := instance.(terms := request.terms, settlementPrice := request.settlementPrice);
      if request.shortSig != "" {
        instance := instance.(shortSig := request.shortSig);
      }
      if request.longSig != "" {
        instance := instance.(longSig := request.longSig);
      }
      if instance.shortSig != "" && instance.longSig == "" {
        instance := instance.(initiator := Short);
      } else if instance.longSig != "" && instance.shortSig == "" {
        instance := instance.(initiator := Long);
      }
      // With no signature at all the source builds an error but does not raise it.
      redemption := Some(instance);
    }

    /** The submitting half of the mutual_redemption view. */
    method SubmitRequest(request: Request, settled: bool) returns (r: Outcome<Error>)
      modifies this
      ensures redemption == Step(contract, verify, old(redemption), Submit(request, settled))
      ensures r.Pass? <==> Accepts(contract, old(redemption), request, settled)
      ensures r == Fail(AlreadySettled) <==> settled
      ensures r == Fail(AlreadyCompleted) <==> !settled && Completed(old(redemption))
    {
      if settled {
        return Fail(AlreadySettled);
      }
      if redemption.Some? && redemption.value.txHash != "" {
        return Fail(AlreadyCompleted);
      }
      r := Validate(contract, request);
      if r.Pass? {
        Create(request);
      }
    }

    /** CancelMutualRedemptionSerializer */
    method CancelRedemption(position: string, signature: string) returns (r: Outcome<Error>)
      modifies this
      ensures redemption == Step(contract, verify, old(redemption), Cancel(position, signature))
      ensures r == if old(redemption).None? then Fail(NoRedemption)
                   else if Completed(old(redemption)) then Fail(AlreadyCompleted)
                   else if CancelVerifies(contract, verify, old(redemption), position, signature) then Pass
                   else Fail(BadSignature)
    {
      if redemption.None? {
        return Fail(NoRedemption);
      }
      if redemption.value.txHash != "" {
        return Fail(AlreadyCompleted);
      }
      var instance := redemption.value;
      var message := if instance.initiator == Short then instance.shortSig else instance.longSig;
      var pubkey := "";
      if position == "short" {
        pubkey := contract.shortPubkey;
      } else if position == "long" {
        pubkey := contract.longPubkey;
      }
      if !verify(message, signature, pubkey) {
        return Fail(BadSignature);
      }
      redemption := None;
      return Pass;
    }

    /** redeem_contract. A recorded settlement only sets the error text and does not return. */
    method RedeemContract(settled: bool, searchFindsSettlement: bool, completion: Option<(string, string)>)
      returns (r: Outcome<Error>)
      modifies this
      ensures redemption
           == Step(contract, verify, old(redemption), Redeem(settled, searchFindsSettlement, completion))
      ensures r == if old(redemption).None? then Fail(NoRedemption)
                   else if !settled && searchFindsSettlement then Fail(AlreadySettled)
                   else if Completed(old(redemption)) then Fail(AlreadyCompleted)
                   else if !BothSigned(old(redemption)) then Fail(IncompleteSignatures)
                   else if completion.None? then Fail(RedemptionFailed)
                   else Pass
    {
      if redemption.None? {
        return Fail(NoRedemption);
      }
      if !settled && searchFindsSettlement {
        return Fail(AlreadySettled);
      }
      if redemption.value.txHash != "" {
        return Fail(AlreadyCompleted);
      }
      if redemption.value.shortSig == "" || redemption.value.longSig == "" {
        return Fail(IncompleteSignatures);
      }
      if completion.None? {
        return Fail(RedemptionFailed);
      }
      redemption := Some(redemption.value.(txHash := completion.value.0, fundingTxHash := completion.value.1));
      return Pass;
    }
  }

  ghost function Run(contract: Contract, verify: Verifier, events: seq<Event>): Option<Redemption> {
    if events == [] then None
    else Step(contract, verify, Run(contract, verify, events[..|events| - 1]), events[|events| - 1])
  }

  /** The price that came with each stored signature, in the request that last carried it. */
  datatype Prices = Prices(short: Option<int>, long: Option<int>)

  function PriceOf(prices: Prices, side: Position): Option<int> {
    if side == Short then prices.short else prices.long
  }

  function SigOf(r: Redemption, side: Position): string {
    if side == Short then r.shortSig else r.longSig
  }

  function PostedSig(request: Request, side: Position): string {
    if side == Short then request.shortSig else request.longSig
  }

  ghost function PricesAfter(contract: Contract, stored: Option<Redemption>, prices: Prices, event: Event): Prices {
    if event.Submit? && Accepts(contract, stored, event.request, event.settled)
    then Prices(if event.request.shortSig != "" then event.request.settlementPrice else prices.short,
                if event.request.longSig != "" then event.request.settlementPrice else prices.long)
    else prices
  }

  ghost function RunPrices(contract: Contract, verify: Verifier, events: seq<Event>): Prices {
    if events == [] then Prices(None, None)
    else
      var front := events[..|events| - 1];
      PricesAfter(contract, Run(contract, verify, front), RunPrices(contract, verify, front), events[|events| - 1])
  }

  /** A signature on one side, the terms and the price of the request that carried it. */
  datatype Signing = Signing(side: Position, sig: string, terms: Terms, price: Option<int>)

  ghost predicate SubmitsSig(contract: Contract, event: Event, signing: Signing) {
    && event.Submit? && event.request.terms == signing.terms && event.request.settlementPrice == signing.price
    && RequestValid(contract, event.request)
    && PostedSig(event.request, signing.side) == signing.sig
  }

  ghost predicate Holds(stored: Option<Redemption>, signing: Signing) {
    stored.Some? && stored.value.terms == signing.terms && SigOf(stored.value, signing.side) == signing.sig
  }

  /** Request number i carried this signature with exactly these terms and this price, and
      signature and terms have been stored without interruption ever since. */
  ghost predicate SignedAt(contract: Contract, verify: Verifier, events: seq<Event>, i: int, signing: Signing) {
    && 0 <= i < |events|
    && SubmitsSig(contract, events[i], signing)
    && forall k | i < k <= |events| :: Holds(Run(contract, verify, events[..k]), signing)
  }

  ghost predicate SignedFor(contract: Contract, verify: Verifier, events: seq<Event>, signing: Signing) {
    exists i :: SignedAt(contract, verify, events, i, signing)
  }

  /** The signature that the run leaves stored on a side, with the price it came with. */
  ghost function StoredSigning(contract: Contract, verify: Verifier, events: seq<Event>, side: Position): Signing
    requires Run(contract, verify, events).Some?
  {
    var r := Run(contract, verify, events).value;
    Signing(side, SigOf(r, side), r.terms, PriceOf(RunPrices(contract, verify, events), side))
  }

  ghost predicate SideSigned(contract: Contract, verify: Verifier, events: seq<Event>, side: Position)
    requires Run(contract, verify, events).Some?
  {
    SigOf(Run(contract, verify, events).value, side) != "" ==>
      SignedFor(contract, verify, events, StoredSigning(contract, verify, events, side))
  }

  ghost predicate Invariant(contract: Contract, verify: Verifier, events: seq<Event>) {
    var stored := Run(contract, verify, events);
    stored.Some? ==>
      var r := stored.value;
      && TermsAllowed(contract, r.terms)
      && SideSigned(contract, verify, events, Short)
      && SideSigned(contract, verify, events, Long)
      && (r.shortSig != "" || r.longSig != "" ==> InitiatorSig(r) != "")
      && (r.txHash != "" ==> r.shortSig != "" && r.longSig != "")
  }

  lemma SignatureStays(contract: Contract, verify: Verifier, events: seq<Event>, event: Event, signing: Signing)
    requires SignedFor(contract, verify, events, signing)
    requires Holds(Run(contract, verify, events + [event]), signing)
    ensures SignedFor(contract, verify, events + [event], signing)
  {
    var longer := events + [event];
    var i :| SignedAt(contract, verify, events, i, signing);
    forall k | i < k <= |longer|
      ensures Holds(Run(contract, verify, longer[..k]), signing)
    {
      assert longer[..k] == if k <= |events| then events[..k] else longer;
    }
    assert SignedAt(contract, verify, longer, i, signing);
  }

  lemma SignatureArrives(contract: Contract, verify: Verifier, events: seq<Event>, event: Event, signing: Signing)
    requires SubmitsSig(contract, event, signing)
    requires Holds(Run(contract, verify, events + [event]), signing)
    ensures SignedFor(contract, verify, events + [event], signing)
  {
    var longer := events + [event];
    assert longer[..|longer|] == longer;
    assert SignedAt(contract, verify, longer, |events|, signing);
  }

  lemma StepKeepsSignature(contract: Contract, verify: Verifier, events: seq<Event>, event: Event, side: Position)
    requires Invariant(contract, verify, events)
    ensures Run(contract, verify, events + [event]).Some? ==>
              SideSigned(contract, verify, events + [event], side)
  {
    var longer := events + [event];
    assert longer[..|events|] == events;
    var stored, after := Run(contract, verify, events), Run(contract, verify, longer);
    if after.Some? && SigOf(after.value, side) != "" {
      var signing := StoredSigning(contract, verify, longer, side);
      if event.Submit? && Accepts(contract, stored, event.request, event.settled)
         && PostedSig(event.request, side) != "" {
        SignatureArrives(contract, verify, events, event, signing);
      } else {
        assert signing == StoredSigning(contract, verify, events, side);
        SignatureStays(contract, verify, events, event, signing);
      }
    }
  }

  /** Every run keeps the invariant: stored signatures were submitted on the stored terms, the
      payouts sum to the funding less the fee, and the initiator's signature is there. */
  lemma {:induction false} RunKeepsInvariant(contract: Contract, verify: Verifier, events: seq<Event>)
    ensures Invariant(contract, verify, events)
  {
    if events != [] {
      var front, last := events[..|events| - 1], events[|events| - 1];
      RunKeepsInvariant(contract, verify, front);
      assert events == front + [last];
      StepKeepsSignature(contract, verify, front, last, Short);
      StepKeepsSignature(contract, verify, front, last, Long);
    }
  }

  /** A redeemed contract has a signature of each party on identical terms. */
  lemma RedemptionIsAgreed(contract: Contract, verify: Verifier, events: seq<Event>)
    requires Completed(Run(contract, verify, events))
    ensures var r := Run(contract, verify, events).value;
            && SignedFor(contract, verify, events, StoredSigning(contract, verify, events, Short)) && r.shortSig != ""
            && SignedFor(contract, verify, events, StoredSigning(contract, verify, events, Long)) && r.longSig != ""
            && r.terms.shortSatoshis + r.terms.longSatoshis
               == contract.fundingSatoshis.GetOr(0) - TxFee(contract.version)
  {
    RunKeepsInvariant(contract, verify, events);
  }

  /** Once the redemption has a transaction hash nothing changes it any more. */
  lemma {:induction false} RedeemedIsFinal(contract: Contract, verify: Verifier, events: seq<Event>, more: seq<Event>)
    requires Completed(Run(contract, verify, events))
    ensures Run(contract, verify, events + more) == Run(contract, verify, events)
  {
    if more == [] {
      assert events + more == events;
    } else {
      var front := more[..|more| - 1];
      RedeemedIsFinal(contract, verify, events, front);
      assert (events + more)[..|events + more| - 1] == events + front;
    }
  }

  // ---------- The settlement price ----------

  /** Every stored signature came with the price that is stored now. */
  ghost predicate PricesAgree(stored: Option<Redemption>, prices: Prices) {
    stored.Some? ==>
      forall side :: SigOf(stored.value, side) != "" ==> PriceOf(prices, side) == stored.value.settlementPrice
  }

  /** The request leaves a signature in place that it does not carry itself. */
  ghost predicate KeepsOlderSig(stored: Option<Redemption>, request: Request) {
    && stored.Some? && stored.value.terms == request.terms
    && exists side :: PostedSig(request, side) == "" && SigOf(stored.value, side) != ""
  }

  /** An accepted request that puts another price under a signature it keeps. */
  ghost predicate SwitchesPrice(contract: Contract, stored: Option<Redemption>, event: Event) {
    && event.Submit? && Accepts(contract, stored, event.request, event.settled)
    && KeepsOlderSig(stored, event.request) && event.request.settlementPrice != stored.value.settlementPrice
  }

  /** One step keeps signatures and price together exactly when it does not switch the price. */
  lemma PricesStayAgreedExactly(contract: Contract, verify: Verifier, stored: Option<Redemption>, prices: Prices,
                                event: Event)
    requires PricesAgree(stored, prices)
    ensures PricesAgree(Step(contract, verify, stored, event), PricesAfter(contract, stored, prices, event)) <==>
              !SwitchesPrice(contract, stored, event)
  {
    var after, now := Step(contract, verify, stored, event), PricesAfter(contract, stored, prices, event);
    if SwitchesPrice(contract, stored, event) {
      var side :| PostedSig(event.request, side) == "" && SigOf(stored.value, side) != "";
      assert SigOf(after.value, side) == SigOf(stored.value, side) && PriceOf(now, side) == PriceOf(prices, side);
    } else if after.Some? {
      forall side | SigOf(after.value, side) != ""
        ensures PriceOf(now, side) == after.value.settlementPrice
      {
        if event.Submit? && Accepts(contract, stored, event.request, event.settled)
           && PostedSig(event.request, side) == "" {
          assert SigOf(stored.value, side) != "" && KeepsOlderSig(stored, event.request);
        }
      }
    }
  }

  ghost predicate PricesAgreeAt(contract: Contract, verify: Verifier, events: seq<Event>, k: nat)
    requires k <= |events|
  {
    PricesAgree(Run(contract, verify, events[..k]), RunPrices(contract, verify, events[..k]))
  }

  ghost predicate SwitchesPriceAt(contract: Contract, verify: Verifier, events: seq<Event>, k: nat)
    requires k < |events|
  {
    SwitchesPrice(contract, Run(contract, verify, events[..k]), events[k])
  }

  lemma PrefixStep(contract: Contract, verify: Verifier, events: seq<Event>, k: nat)
    requires k < |events| && PricesAgreeAt(contract, verify, events, k)
    ensures PricesAgreeAt(contract, verify, events, k + 1) <==> !SwitchesPriceAt(contract, verify, events, k)
  {
    assert events[..k + 1][..k] == events[..k];
    PricesStayAgreedExactly(contract, verify, Run(contract, verify, events[..k]),
                            RunPrices(contract, verify, events[..k]), events[k]);
  }

  lemma {:induction false} AgreedUpTo(contract: Contract, verify: Verifier, events: seq<Event>, n: nat)
    requires n <= |events|
    requires forall k: nat | k < n :: !SwitchesPriceAt(contract, verify, events, k)
    ensures PricesAgreeAt(contract, verify, events, n)
  {
    if n > 0 {
      AgreedUpTo(contract, verify, events, n - 1);
      PrefixStep(contract, verify, events, n - 1);
    }
  }

  /** Throughout a run all stored signatures came with the stored price exactly when no request
      of the run puts another price under a signature it keeps. */
  lemma PriceAgreedThroughoutExactly(contract: Contract, verify: Verifier, events: seq<Event>)
    ensures (forall k: nat | k <= |events| :: PricesAgreeAt(contract, verify, events, k)) <==>
              forall k: nat | k < |events| :: !SwitchesPriceAt(contract, verify, events, k)
  {
    if forall k: nat | k < |events| :: !SwitchesPriceAt(contract, verify, events, k) {
      forall k: nat | k <= |events|
        ensures PricesAgreeAt(contract, verify, events, k)
      {
        AgreedUpTo(contract, verify, events, k);
      }
    }
    if forall k: nat | k <= |events| :: PricesAgreeAt(contract, verify, events, k) {
      forall k: nat | k < |events|
        ensures !SwitchesPriceAt(contract, verify, events, k)
      {
        assert PricesAgreeAt(contract, verify, events, k) && PricesAgreeAt(contract, verify, events, k + 1);
        PrefixStep(contract, verify, events, k);
      }
    }
  }

  /** In such a run both parties of a redeemed contract signed with the stored price too. */
  lemma RedemptionPriceIsAgreed(contract: Contract, verify: Verifier, events: seq<Event>, side: Position)
    requires Completed(Run(contract, verify, events))
    requires forall k: nat | k < |events| :: !SwitchesPriceAt(contract, verify, events, k)
    ensures var r := Run(contract, verify, events).value;
            SignedFor(contract, verify, events, Signing(side, SigOf(r, side), r.terms, r.settlementPrice))
  {
    RedemptionIsAgreed(contract, verify, events);
    AgreedUpTo(contract, verify, events, |events|);
    assert events[..|events|] == events;
  }

  /** A switch is always within reach: the second party signs the same terms at another price. */
  lemma SettlementPriceIsNotAgreed(contract: Contract, verify: Verifier, terms: Terms)
    requires contract.fundingTxHash != "" && TermsAllowed(contract, terms)
    requires terms.redemptionType == EarlyMaturation
    ensures var first, second := Request(terms, "s", "", Some(100)), Request(terms, "", "l", Some(200));
            var events := [Submit(first, false), Submit(second, false)];
            && Run(contract, verify, events) == Some(Redemption(Short, terms, "s", "l", Some(200), "", ""))
            && RunPrices(contract, verify, events) == Prices(Some(100), Some(200))
  {
    var first := Submit(Request(terms, "s", "", Some(100)), false);
    var second := Submit(Request(terms, "", "l", Some(200)), false);
    var events := [first, second];
    assert events[..1] == [first];
    assert [first][..0] == [];
    assert Run(contract, verify, []) == None;
    assert Run(contract, verify, [first]) == Some(Redemption(Short, terms, "s", "", Some(100), "", ""));
    assert RunPrices(contract, verify, [first]) == Prices(Some(100), None);
  }

  // ---------- Where the guards are weaker than their messages ----------

  /** An early maturation with allowed terms is held to the rule of its message, a price above 0,
      exactly when the price is not negative; a negative one always passes. */
  lemma PriceRuleHeldExactlyWithoutNegative(contract: Contract, request: Request)
    requires contract.fundingTxHash != "" && TermsAllowed(contract, request.terms)
    requires request.terms.redemptionType == EarlyMaturation
    ensures var price := request.settlementPrice;
            && ((RequestValid(contract, request) <==> price.Some? && price.value > 0) <==>
                  !(price.Some? && price.value < 0))
            && (price.Some? && price.value < 0 ==> RequestValid(contract, request))
  {
  }

  predicate Unsigned(r: Redemption) {
    r.shortSig == "" && r.longSig == ""
  }

  /** A row without any signature is stored exactly when the request has none and there is none
      to keep on the same terms; no request is turned away for it. */
  lemma UnsignedStoredExactly(contract: Contract, verify: Verifier, stored: Option<Redemption>, request: Request)
    requires !Completed(stored) && RequestValid(contract, request)
    ensures var after := Step(contract, verify, stored, Submit(request, false));
            && after.Some? && after.value.terms == request.terms
            && (Unsigned(after.value) <==>
                  && request.shortSig == "" && request.longSig == ""
                  && (stored.Some? && stored.value.terms == request.terms ==> Unsigned(stored.value)))
  {
  }

  /** A fully signed redemption of a settled contract, where settled means recorded or found by
      the search, goes through exactly when the settlement was recorded already. */
  lemma SettledStillRedeemedExactlyWhenRecorded(contract: Contract, verify: Verifier, stored: Option<Redemption>,
                                                settled: bool, found: bool, completion: (string, string))
    requires BothSigned(stored) && !Completed(stored) && completion.0 != ""
    requires settled || found
    ensures Completed(Step(contract, verify, stored, Redeem(settled, found, Some(completion)))) <==> settled
  {
  }

  // ---------- Who may cancel ----------

  function Other(side: Position): Position {
    if side == Short then Long else Short
  }

  ghost predicate SignedAlone(stored: Option<Redemption>, side: Position) {
    stored.Some? && SigOf(stored.value, side) != "" && SigOf(stored.value, Other(side)) == ""
  }

  /** The row is there with these terms, throughout the later steps. */
  ghost predicate KeepsTerms(contract: Contract, verify: Verifier, events: seq<Event>, more: seq<Event>, terms: Terms) {
    forall k | 0 <= k <= |more| :: HasTerms(Run(contract, verify, events + more[..k]), terms)
  }

  ghost predicate HasTerms(stored: Option<Redemption>, terms: Terms) {
    stored.Some? && stored.value.terms == terms
  }

  /** Both parties have signed, and this one is the initiator. */
  ghost predicate InitiatedBy(stored: Option<Redemption>, side: Position) {
    BothSigned(stored) && stored.value.initiator == side
  }

  lemma SecondSignatureKeepsInitiator(contract: Contract, verify: Verifier, events: seq<Event>, request: Request,
                                      side: Position)
    requires SignedAlone(Run(contract, verify, events), side)
    requires Accepts(contract, Run(contract, verify, events), request, false)
    requires HasTerms(Run(contract, verify, events), request.terms) && PostedSig(request, Other(side)) != ""
    ensures InitiatedBy(Run(contract, verify, events + [Submit(request, false)]), side)
  {
    RunKeepsInvariant(contract, verify, events);
    assert (events + [Submit(request, false)])[..|events|] == events;
  }

  /** The initiator of a redemption on which one party signed first, and the other second, is the
      first one, as long as the row keeps its terms. */
  lemma {:induction false} FirstSignerStaysInitiator(contract: Contract, verify: Verifier, events: seq<Event>,
                                                     more: seq<Event>, terms: Terms, side: Position)
    requires InitiatedBy(Run(contract, verify, events), side)
    requires KeepsTerms(contract, verify, events, more, terms)
    ensures InitiatedBy(Run(contract, verify, events + more), side)
  {
    if more == [] {
      assert events + more == events;
    } else {
      var front := more[..|more| - 1];
      forall k | 0 <= k <= |front|
        ensures HasTerms(Run(contract, verify, events + front[..k]), terms)
      {
        assert front[..k] == more[..k];
      }
      FirstSignerStaysInitiator(contract, verify, events, front, terms, side);
      assert (events + more)[..|events + more| - 1] == events + front;
      assert more[..|more|] == more && more[..|front|] == front;
      assert HasTerms(Run(contract, verify, events + more[..|front|]), terms);
      assert HasTerms(Run(contract, verify, events + more[..|more|]), terms);
    }
  }

  /** A cancel removes the row exactly when it is not completed and the signature verifies, against
      the signature of the party that signed first, with the key of the position that is named. */
  lemma CancelChecksFirstSigner(contract: Contract, verify: Verifier, events: seq<Event>, position: string,
                                signature: string, side: Position)
    requires SignedAlone(Run(contract, verify, events), side) || InitiatedBy(Run(contract, verify, events), side)
    ensures var r := Run(contract, verify, events).value;
            var message := if side == Short then r.shortSig else r.longSig;
            var after := Run(contract, verify, events + [Cancel(position, signature)]);
            && (position == "short" ==>
                  (after.None? <==> r.txHash == "" && verify(message, signature, contract.shortPubkey)))
            && (position == "long" ==>
                  (after.None? <==> r.txHash == "" && verify(message, signature, contract.longPubkey)))
            && (position != "short" && position != "long" ==>
                  (after.None? <==> r.txHash == "" && verify(message, signature, "")))
            && (after.Some? ==> after.value == r)
  {
    RunKeepsInvariant(contract, verify, events);
    assert (events + [Cancel(position, signature)])[..|events|] == events;
  }

  /** Without a first signer, when both have signed or none has, the stored initiator stays, and a new
      row starts with the short side. */
  lemma InitiatorOtherwiseStays(contract: Contract, verify: Verifier, stored: Option<Redemption>, request: Request)
    requires Accepts(contract, stored, request, false)
    ensures var after := Step(contract, verify, stored, Submit(request, false));
            && after.Some?
            && (BothSigned(after) || Unsigned(after.value) ==>
                  after.value.initiator == if stored.Some? then stored.value.initiator else Short)
            && (SignedAlone(after, Short) ==> after.value.initiator == Short)
            && (SignedAlone(after, Long) ==> after.value.initiator == Long)
            && after.value.settlementPrice == request.settlementPrice
  {
  }

  /** A redeem that goes through stores the two answers and nothing else. */
  lemma RedeemStoresAnswers(contract: Contract, verify: Verifier, stored: Option<Redemption>, settled: bool,
                            found: bool, completion: (string, string))
    requires BothSigned(stored) && !Completed(stored) && (settled || !found)
    ensures var after := Step(contract, verify, stored, Redeem(settled, found, Some(completion)));
            && after.Some? && after.value.txHash == completion.0 && after.value.fundingTxHash == completion.1
            && after.value.(txHash := stored.value.txHash, fundingTxHash := stored.value.fundingTxHash) == stored.value
  {
  }

  // ---------- The transaction fee ----------

  ghost predicate OccursAt(s: string, part: string, i: int) {
    0 <= i <= |s| - |part| && s[i..i + |part|] == part
  }

  lemma OccursInTail(s: string, part: string, i: int)
    requires s != "" && 0 < i
    ensures OccursAt(s, part, i) <==> OccursAt(s[1..], part, i - 1)
  {
    if i + |part| <= |s| {
      assert s[i..i + |part|] == s[1..][i - 1..i - 1 + |part|];
    }
  }

  lemma {:induction false} ContainsExactly(s: string, part: string)
    ensures Contains(s, part) <==> exists i :: OccursAt(s, part, i)
  {
    assert OccursAt(s, part, 0) <==> part <= s;
    if !(part <= s) && s != "" {
      ContainsExactly(s[1..], part);
      if Contains(s[1..], part) {
        var i :| OccursAt(s[1..], part, i);
        OccursInTail(s, part, i + 1);
      }
      forall i | OccursAt(s, part, i)
        ensures Contains(s[1..], part)
      {
        OccursInTail(s, part, i);
      }
    }
  }

  /** The fee that the contract library leaves: 1175 for versions that name v0.11, 1967 for others. */
  lemma FeeOfVersion(version: string)
    ensures TxFee(version) == if exists i :: OccursAt(version, "v0.11", i) then 1175 else 1967
  {
    ContainsExactly(version, "v0.11");
  }
}
