/** Matching spent gifts with claims (paytacagifts/tasks.py). The batched join over dictionaries
    is proved equal to a plain search: per gift, per wallet that received the spent coins. */
module GiftClaims {
  import opened Prelude

  datatype Gift = Gift(
    id: int,
    address: string,
    dateFunded: Option<int>,
    dateClaimed: Option<int>,
    claimTxid: string)

  /** A ledger row; a blank wallet hash means that its address belongs to no wallet. */
  datatype Tx = Tx(
    txid: string,
    address: string,
    dateCreated: int,
    spent: bool,
    spendingTxid: string,
    walletHash: string,
    timestamp: Option<int>)

  datatype Claim = Claim(id: int, giftId: int, walletHash: string, dateCreated: int, succeeded: bool)

  /** A wallet that received coins of a transaction that spent a gift. */
  datatype Receiver = Receiver(walletHash: string, timestamp: Option<int>, spendingTxid: string)

  // ---------- The plain search ----------

  /** The last row of an address, in table order, among the spent ones or among all. */
  function LastRow(txs: seq<Tx>, address: string, onlySpent: bool): Option<Tx> {
    if txs == [] then None
    else
      var last := txs[|txs| - 1];
      if last.address == address && (onlySpent ==> last.spent) then Some(last)
      else LastRow(txs[..|txs| - 1], address, onlySpent)
  }

  function WithTxid(txs: seq<Tx>, txid: string): seq<Tx> {
    if txs == [] then []
    else
      var last := txs[|txs| - 1];
      WithTxid(txs[..|txs| - 1], txid) + if last.txid == txid then [last] else []
  }

  predicate HasWallet(receivers: seq<Receiver>, walletHash: string) {
    exists r | r in receivers :: r.walletHash == walletHash
  }

  /** The wallets named by the rows, each once, with its first row's timestamp. */
  function Receivers(rows: seq<Tx>, spendingTxid: string): seq<Receiver> {
    if rows == [] then []
    else
      var last := rows[|rows| - 1];
      var before := Receivers(rows[..|rows| - 1], spendingTxid);
      if last.walletHash == "" || HasWallet(before, last.walletHash) then before
      else before + [Receiver(last.walletHash, last.timestamp, spendingTxid)]
  }

  predicate IsOpen(gift: Gift) {
    gift.dateFunded.Some? && gift.dateClaimed.None?
  }

  /** Who received the coins of an open gift whose last spent funding row names its spender. */
  function ReceiversOf(txs: seq<Tx>, gift: Gift): seq<Receiver> {
    if !IsOpen(gift) || gift.address == "" then []
    else
      var funding := LastRow(txs, gift.address, true);
      if funding.None? || funding.value.spendingTxid == "" then []
      else Receivers(WithTxid(txs, funding.value.spendingTxid), funding.value.spendingTxid)
  }

  /** The newest claim of a wallet on a gift; the claims are listed newest first. */
  function NewestClaim(claims: seq<Claim>, giftId: int, walletHash: string): Option<Claim> {
    if claims == [] then None
    else if claims[0].giftId == giftId && claims[0].walletHash == walletHash then Some(claims[0])
    else NewestClaim(claims[1..], giftId, walletHash)
  }

  /** The last of the receivers that has claimed the gift. */
  function LastClaimant(receivers: seq<Receiver>, claims: seq<Claim>, giftId: int): Option<Receiver> {
    if receivers == [] then None
    else
      var last := receivers[|receivers| - 1];
      if NewestClaim(claims, giftId, last.walletHash).Some? then Some(last)
      else LastClaimant(receivers[..|receivers| - 1], claims, giftId)
  }

  function SearchGift(txs: seq<Tx>, claims: seq<Claim>, gift: Gift): Gift {
    match LastClaimant(ReceiversOf(txs, gift), claims, gift.id)
    case Some(r) => gift.(dateClaimed := r.timestamp, claimTxid := r.spendingTxid)
    case None => gift
  }

  /** Some receiver of some gift has this claim as its newest one on that gift. */
  ghost predicate IsMatched(txs: seq<Tx>, gifts: seq<Gift>, claims: seq<Claim>, claim: Claim) {
    exists gift, r :: gift in gifts && r in ReceiversOf(txs, gift)
                      && NewestClaim(claims, gift.id, r.walletHash) == Some(claim)
  }

  // ---------- The batched task ----------

  /** One item of the insertion-ordered dictionary keyed by gift and wallet. */
  datatype Item = Item(giftId: int, receiver: Receiver)

  function ItemsOf(txs: seq<Tx>, gift: Gift): seq<Item> {
    var receivers := ReceiversOf(txs, gift);
    seq(|receivers|, i requires 0 <= i < |receivers| => Item(gift.id, receivers[i]))
  }

  function AllItems(txs: seq<Tx>, gifts: seq<Gift>): seq<Item> {
    if gifts == [] then [] else AllItems(txs, gifts[..|gifts| - 1]) + ItemsOf(txs, gifts[|gifts| - 1])
  }

  ghost predicate UniqueGiftIds(gifts: seq<Gift>) {
    forall i, j | 0 <= i < j < |gifts| :: gifts[i].id != gifts[j].id
  }

  /** Query order: newest first. */
  ghost predicate NewestFirst(claims: seq<Claim>) {
    forall i, j | 0 <= i < j < |claims| :: claims[i].dateCreated >= claims[j].dateCreated
  }

  /** tx_map and funding_by_address: the last row of each listed address. */
  method RowByAddress(txs: seq<Tx>, addresses: set<string>, onlySpent: bool) returns (rows: map<string, Tx>)
    ensures forall a :: a in rows <==> a in addresses && LastRow(txs, a, onlySpent).Some?
    ensures forall a | a in rows :: LastRow(txs, a, onlySpent) == Some(rows[a])
  {
    rows := map[];
    for i := 0 to |txs|
      invariant forall a :: a in rows <==> a in addresses && LastRow(txs[..i], a, onlySpent).Some?
      invariant forall a | a in rows :: LastRow(txs[..i], a, onlySpent) == Some(rows[a])
    {
      assert txs[..i + 1][..i] == txs[..i];
      if txs[i].address in addresses && (onlySpent ==> txs[i].spent) {
        rows := rows[txs[i].address := txs[i]];
      }
    }
    assert txs[..|txs|] == txs;
  }

  /** spending_by_txid: the rows of each listed transaction, in table order. */
  method RowsByTxid(txs: seq<Tx>, txids: set<string>) returns (rows: map<string, seq<Tx>>)
    ensures forall t | t in rows :: t in txids && rows[t] == WithTxid(txs, t)
    ensures forall t | t in txids && t !in rows :: WithTxid(txs, t) == []
  {
    rows := map[];
    for i := 0 to |txs|
      invariant forall t | t in rows :: t in txids && rows[t] == WithTxid(txs[..i], t)
      invariant forall t | t in txids && t !in rows :: WithTxid(txs[..i], t) == []
    {
      assert txs[..i + 1][..i] == txs[..i];
      var txid := txs[i].txid;
      if txid in txids {
        rows := rows[txid := (if txid in rows then rows[txid] else []) + [txs[i]]];
      }
    }
    assert txs[..|txs|] == txs;
  }

  /** spending_txids: the spenders named by any of the spent funding rows, not just the last. */
  function SpendersOf(txs: seq<Tx>, addresses: set<string>): set<string> {
    set tx | tx in txs && tx.address in addresses && tx.spent && tx.spendingTxid != "" :: tx.spendingTxid
  }

  lemma {:induction false} LastRowIsRow(txs: seq<Tx>, address: string, onlySpent: bool)
    ensures var row := LastRow(txs, address, onlySpent);
            row.Some? ==> row.value in txs && row.value.address == address && (onlySpent ==> row.value.spent)
  {
    if txs != [] {
      LastRowIsRow(txs[..|txs| - 1], address, onlySpent);
    }
  }

  /** The order in which the table of transactions is always read: newest first. */
  ghost predicate RowsNewestFirst(txs: seq<Tx>) {
    forall i, j | 0 <= i < j < |txs| :: txs[i].dateCreated >= txs[j].dateCreated
  }

  /** So the last row of an address is its oldest one. */
  lemma {:induction false} LastRowIsOldest(txs: seq<Tx>, address: string, onlySpent: bool)
    requires RowsNewestFirst(txs)
    ensures var row := LastRow(txs, address, onlySpent);
            && (row.Some? ==> row.value in txs && row.value.address == address && (onlySpent ==> row.value.spent))
            && forall tx | tx in txs && tx.address == address && (onlySpent ==> tx.spent) ::
                 row.Some? && row.value.dateCreated <= tx.dateCreated
  {
    LastRowIsRow(txs, address, onlySpent);
    if txs != [] {
      var front, last := txs[..|txs| - 1], txs[|txs| - 1];
      LastRowIsOldest(front, address, onlySpent);
      assert txs == front + [last];
      assert forall tx | tx in txs :: last.dateCreated <= tx.dateCreated;
    }
  }

  ghost predicate IsEarliestDate(txs: seq<Tx>, address: string, date: int) {
    && (exists tx :: tx in txs && tx.address == address && tx.dateCreated == date)
    && forall tx | tx in txs && tx.address == address :: date <= tx.dateCreated
  }

  /** The inner loop over the rows of one gift's spending transaction. */
  method CollectReceivers(rows: seq<Tx>, spendingTxid: string) returns (receivers: seq<Receiver>)
    ensures receivers == Receivers(rows, spendingTxid)
  {
    receivers := [];
    for i := 0 to |rows|
      invariant receivers == Receivers(rows[..i], spendingTxid)
    {
      assert rows[..i + 1][..i] == rows[..i];
      if rows[i].walletHash != "" && !HasWallet(receivers, rows[i].walletHash) {
        receivers := receivers + [Receiver(rows[i].walletHash, rows[i].timestamp, spendingTxid)];
      }
    }
    assert rows[..|rows|] == rows;
  }

  /** gift_wallet_map over the funded and unclaimed gifts. */
  method CollectItems(txs: seq<Tx>, gifts: seq<Gift>, fundingByAddress: map<string, Tx>,
                      spendingByTxid: map<string, seq<Tx>>)
    returns (items: seq<Item>)
    requires forall g | g in gifts && IsOpen(g) ::
               g.address in fundingByAddress <==> g.address != "" && LastRow(txs, g.address, true).Some?
    requires forall a | a in fundingByAddress :: LastRow(txs, a, true) == Some(fundingByAddress[a])
    requires forall t | t in spendingByTxid :: t != "" && spendingByTxid[t] == WithTxid(txs, t)
    requires forall a | a in fundingByAddress && fundingByAddress[a].spendingTxid !in spendingByTxid ::
               fundingByAddress[a].spendingTxid == "" || WithTxid(txs, fundingByAddress[a].spendingTxid) == []
    ensures items == AllItems(txs, gifts)
  {
    items := [];
    for i := 0 to |gifts|
      invariant items == AllItems(txs, gifts[..i])
    {
      assert gifts[..i + 1][..i] == gifts[..i];
      var gift := gifts[i];
      if IsOpen(gift) && gift.address in fundingByAddress {
        var txid := fundingByAddress[gift.address].spendingTxid;
        var rows := if txid in spendingByTxid then spendingByTxid[txid] else [];
        var receivers := CollectReceivers(rows, txid);
        assert receivers == ReceiversOf(txs, gift);
        items := items + seq(|receivers|, k requires 0 <= k < |receivers| => Item(gift.id, receivers[k]));
      }
    }
    assert gifts[..|gifts|] == gifts;
  }

  /** claim_map: the first listed claim per gift and wallet, over the cross product of the gifts
      and wallets of all items. */
  method ClaimsByKey(claims: seq<Claim>, giftIds: set<int>, walletHashes: set<string>)
    returns (byKey: map<(int, string), Claim>)
    ensures forall k :: k in byKey <==>
              k.0 in giftIds && k.1 in walletHashes && NewestClaim(claims, k.0, k.1).Some?
    ensures forall k | k in byKey :: NewestClaim(claims, k.0, k.1) == Some(byKey[k])
  {
    byKey := map[];
    for i := 0 to |claims|
      invariant forall k :: k in byKey <==>
                  k.0 in giftIds && k.1 in walletHashes && NewestClaim(claims[..i], k.0, k.1).Some?
      invariant forall k | k in byKey :: NewestClaim(claims[..i], k.0, k.1) == Some(byKey[k])
    {
      var claim := claims[i];
      var key := (claim.giftId, claim.walletHash);
      forall giftId, walletHash
        ensures NewestClaim(claims[..i + 1], giftId, walletHash)
             == if NewestClaim(claims[..i], giftId, walletHash).Some? then NewestClaim(claims[..i], giftId, walletHash)
                else if key == (giftId, walletHash) then Some(claim) else None
      {
        assert claims[..i + 1] == claims[..i] + [claim];
        NewestClaimAppend(claims[..i], claim, giftId, walletHash);
      }
      if claim.giftId in giftIds && claim.walletHash in walletHashes && key !in byKey {
        byKey := byKey[key := claim];
      }
    }
    assert claims[..|claims|] == claims;
  }

  lemma {:induction false} NewestClaimAppend(claims: seq<Claim>, claim: Claim, giftId: int, walletHash: string)
    ensures NewestClaim(claims + [claim], giftId, walletHash)
         == if NewestClaim(claims, giftId, walletHash).Some? then NewestClaim(claims, giftId, walletHash)
            else if claim.giftId == giftId && claim.walletHash == walletHash then Some(claim) else None
  {
    if claims == [] {
      assert [claim][1..] == [];
    } else {
      assert (claims + [claim])[1..] == claims[1..] + [claim];
      NewestClaimAppend(claims[1..], claim, giftId, walletHash);
    }
  }

  /** The last item of a gift whose wallet has claimed it. */
  function LastMatch(items: seq<Item>, claims: seq<Claim>, giftId: int): Option<Receiver> {
    if items == [] then None
    else
      var last := items[|items| - 1];
      if last.giftId == giftId && NewestClaim(claims, giftId, last.receiver.walletHash).Some? then Some(last.receiver)
      else LastMatch(items[..|items| - 1], claims, giftId)
  }

  /** The claim query and claim_map of a batch: the cross product adds no claim to any item. */
  method ClaimsOfItems(items: seq<Item>, claims: seq<Claim>) returns (claimMap: map<(int, string), Claim>)
    ensures forall item | item in items :: ClaimOfItem(item, claimMap) == ItemClaim(item, claims)
  {
    var giftIds := set item | item in items :: item.giftId;
    var walletHashes := set item | item in items :: item.receiver.walletHash;
    claimMap := ClaimsByKey(claims, giftIds, walletHashes);
    forall item | item in items
      ensures ClaimOfItem(item, claimMap) == NewestClaim(claims, item.giftId, item.receiver.walletHash)
    {
      var key := (item.giftId, item.receiver.walletHash);
      assert key.0 in giftIds && key.1 in walletHashes;
    }
  }

  /** The newest claim of an item's wallet on its gift, searched directly. */
  function ItemClaim(item: Item, claims: seq<Claim>): Option<Claim> {
    NewestClaim(claims, item.giftId, item.receiver.walletHash)
  }

  function ClaimOfItem(item: Item, claimMap: map<(int, string), Claim>): Option<Claim> {
    var key := (item.giftId, item.receiver.walletHash);
    if key in claimMap then Some(claimMap[key]) else None
  }

  /** The last loop: what each gift takes over and which claims succeeded. */
  method MatchItems(items: seq<Item>, claims: seq<Claim>, claimMap: map<(int, string), Claim>)
    returns (updates: map<int, Receiver>, matched: set<Claim>)
    requires forall item | item in items :: ClaimOfItem(item, claimMap) == ItemClaim(item, claims)
    ensures forall id :: id in updates <==> LastMatch(items, claims, id).Some?
    ensures forall id | id in updates :: LastMatch(items, claims, id) == Some(updates[id])
    ensures forall c :: c in matched <==> MatchedBy(items, claims, c)
  {
    updates, matched := map[], {};
    for i := 0 to |items|
      invariant forall id :: id in updates <==> LastMatch(items[..i], claims, id).Some?
      invariant forall id | id in updates :: LastMatch(items[..i], claims, id) == Some(updates[id])
      invariant forall c :: c in matched <==> MatchedBy(items[..i], claims, c)
    {
      var key := (items[i].giftId, items[i].receiver.walletHash);
      MatchedByGrows(items[..i], items[i], claims);
      assert items[..i + 1] == items[..i] + [items[i]];
      assert items[..i + 1][..i] == items[..i];
      assert ClaimOfItem(items[i], claimMap) == NewestClaim(claims, key.0, key.1);
      if key in claimMap {
        updates := updates[key.0 := items[i].receiver];
        matched := matched + {claimMap[key]};
      }
    }
    assert items[..|items|] == items;
  }

  lemma {:induction false} NoItems(txs: seq<Tx>, gifts: seq<Gift>)
    requires forall g | g in gifts :: ReceiversOf(txs, g) == []
    ensures AllItems(txs, gifts) == []
  {
    if gifts != [] {
      NoItems(txs, gifts[..|gifts| - 1]);
    }
  }

  function Updated(updates: map<int, Receiver>, gift: Gift): Gift {
    if gift.id in updates
    then gift.(dateClaimed := updates[gift.id].timestamp, claimTxid := updates[gift.id].spendingTxid)
    else gift
  }

  lemma UpdateIsSearch(txs: seq<Tx>, gifts: seq<Gift>, claims: seq<Claim>, updates: map<int, Receiver>, i: nat)
    requires UniqueGiftIds(gifts) && i < |gifts|
    requires LastMatch(AllItems(txs, gifts), claims, gifts[i].id)
          == if gifts[i].id in updates then Some(updates[gifts[i].id]) else None
    ensures Updated(updates, gifts[i]) == SearchGift(txs, claims, gifts[i])
  {
    ItemsMatchGift(txs, gifts, claims, i);
  }

  /** The tables of gifts and claims; claims are listed newest first. */
  class GiftBook {
    var gifts: seq<Gift>
    var claims: seq<Claim>

    constructor (gifts: seq<Gift>, claims: seq<Claim>)
      ensures this.gifts == gifts && this.claims == claims
    {
      this.gifts, this.claims := gifts, claims;
    }

    /** Sets date_funded on the unfunded gifts whose address has a row, from its last row. */
    method CheckUnfundedGifts(txs: seq<Tx>)
      modifies this`gifts
      ensures |gifts| == |old(gifts)|
      ensures forall i | 0 <= i < |gifts| ::
        gifts[i] == var g := old(gifts)[i];
                    if g.dateFunded.None? && g.address != "" && LastRow(txs, g.address, false).Some?
                    then g.(dateFunded := Some(LastRow(txs, g.address, false).value.dateCreated)) else g
      ensures RowsNewestFirst(txs) ==>
                forall i | 0 <= i < |gifts| && gifts[i] != old(gifts)[i] ::
                  gifts[i].dateFunded.Some? && IsEarliestDate(txs, gifts[i].address, gifts[i].dateFunded.value)
    {
      var addresses := set g | g in gifts && g.dateFunded.None? && g.address != "" :: g.address;
      var rows := RowByAddress(txs, addresses, false);
      gifts := seq(|gifts|, i requires 0 <= i < |gifts| reads this =>
        if gifts[i].dateFunded.None? && gifts[i].address in rows
        then gifts[i].(dateFunded := Some(rows[gifts[i].address].dateCreated)) else gifts[i]);
      if RowsNewestFirst(txs) {
        forall i | 0 <= i < |gifts| && gifts[i] != old(gifts)[i]
          ensures IsEarliestDate(txs, gifts[i].address, gifts[i].dateFunded.value)
        {
          LastRowIsOldest(txs, gifts[i].address, false);
        }
      }
    }

    /** The first half of the task, with its early returns. */
    method CollectOpenItems(txs: seq<Tx>) returns (items: seq<Item>)
      ensures items == AllItems(txs, gifts)
    {
      var addresses := set g | g in gifts && IsOpen(g) && g.address != "" :: g.address;
      assert forall g | g in gifts && IsOpen(g) && g.address != "" :: g.address in addresses;
      if addresses == {} {
        NoItems(txs, gifts);
        return [];
      }
      var fundingByAddress := RowByAddress(txs, addresses, true);
      if fundingByAddress == map[] {
        assert forall a | a in addresses :: a !in fundingByAddress && LastRow(txs, a, true).None?;
        NoItems(txs, gifts);
        return [];
      }
      var spendingTxids := SpendersOf(txs, addresses);
      forall a | a in fundingByAddress && fundingByAddress[a].spendingTxid != ""
        ensures fundingByAddress[a].spendingTxid in spendingTxids
      {
        LastRowIsRow(txs, a, true);
      }
      if spendingTxids == {} {
        NoItems(txs, gifts);
        return [];
      }
      var spendingByTxid := RowsByTxid(txs, spendingTxids);
      items := CollectItems(txs, gifts, fundingByAddress, spendingByTxid);
    }

    method CheckUnclaimedGifts(txs: seq<Tx>)
      requires UniqueGiftIds(gifts)
      modifies this
      ensures |gifts| == |old(gifts)| && |claims| == |old(claims)|
      ensures forall i | 0 <= i < |gifts| :: gifts[i] == SearchGift(txs, old(claims), old(gifts)[i])
      ensures forall i | 0 <= i < |claims| ::
        claims[i] == if IsMatched(txs, old(gifts), old(claims), old(claims)[i])
                     then old(claims)[i].(succeeded := true) else old(claims)[i]
    {
      var items := CollectOpenItems(txs);
      var updates, matched := map[], {};
      if items != [] {
        var claimMap := ClaimsOfItems(items, claims);
        updates, matched := MatchItems(items, claims, claimMap);
      }
      forall i | 0 <= i < |gifts|
        ensures Updated(updates, gifts[i]) == SearchGift(txs, claims, gifts[i])
      {
        UpdateIsSearch(txs, gifts, claims, updates, i);
      }
      forall i | 0 <= i < |claims|
        ensures claims[i] in matched <==> IsMatched(txs, gifts, claims, claims[i])
      {
        ItemsMatchClaim(txs, gifts, claims, claims[i]);
      }
      BulkUpdate(updates, matched);
    }

    method BulkUpdate(updates: map<int, Receiver>, matched: set<Claim>)
      modifies this
      ensures |gifts| == |old(gifts)| && |claims| == |old(claims)|
      ensures forall i | 0 <= i < |gifts| ::
        gifts[i] == Updated(updates, old(gifts)[i])
      ensures forall i | 0 <= i < |claims| ::
        claims[i] == if old(claims)[i] in matched then old(claims)[i].(succeeded := true) else old(claims)[i]
    {
      gifts := seq(|gifts|, i requires 0 <= i < |gifts| reads this =>
        Updated(updates, gifts[i]));
      claims := seq(|claims|, i requires 0 <= i < |claims| reads this =>
        if claims[i] in matched then claims[i].(succeeded := true) else claims[i]);
    }
  }

  ghost predicate MatchedBy(items: seq<Item>, claims: seq<Claim>, claim: Claim) {
    exists item :: item in items && NewestClaim(claims, item.giftId, item.receiver.walletHash) == Some(claim)
  }

  lemma MatchedByGrows(items: seq<Item>, item: Item, claims: seq<Claim>)
    ensures forall c :: MatchedBy(items + [item], claims, c) <==>
              MatchedBy(items, claims, c) || NewestClaim(claims, item.giftId, item.receiver.walletHash) == Some(c)
  {
    forall c
      ensures MatchedBy(items + [item], claims, c) <==>
                MatchedBy(items, claims, c) || NewestClaim(claims, item.giftId, item.receiver.walletHash) == Some(c)
    {
      assert item in items + [item];
      assert forall x | x in items :: x in items + [item];
    }
  }

  lemma {:induction false} LastMatchInOwnItems(txs: seq<Tx>, gift: Gift, n: nat, before: seq<Item>,
                                               claims: seq<Claim>, giftId: int)
    requires n <= |ReceiversOf(txs, gift)|
    ensures LastMatch(before + ItemsOf(txs, gift)[..n], claims, giftId)
         == var own := if gift.id == giftId then LastClaimant(ReceiversOf(txs, gift)[..n], claims, giftId) else None;
            if own.Some? then own else LastMatch(before, claims, giftId)
  {
    var items, receivers := ItemsOf(txs, gift), ReceiversOf(txs, gift);
    if n == 0 {
      assert before + items[..0] == before;
    } else {
      LastMatchInOwnItems(txs, gift, n - 1, before, claims, giftId);
      assert (before + items[..n])[..|before| + n - 1] == before + items[..n - 1];
      assert receivers[..n][..n - 1] == receivers[..n - 1];
    }
  }

  lemma LastMatchOfGift(txs: seq<Tx>, gift: Gift, before: seq<Item>, claims: seq<Claim>, giftId: int)
    ensures LastMatch(before + ItemsOf(txs, gift), claims, giftId)
         == var own := if gift.id == giftId then LastClaimant(ReceiversOf(txs, gift), claims, giftId) else None;
            if own.Some? then own else LastMatch(before, claims, giftId)
  {
    var n := |ReceiversOf(txs, gift)|;
    LastMatchInOwnItems(txs, gift, n, before, claims, giftId);
    assert ItemsOf(txs, gift)[..n] == ItemsOf(txs, gift);
    assert ReceiversOf(txs, gift)[..n] == ReceiversOf(txs, gift);
  }

  lemma {:induction false} NoMatchForOthers(txs: seq<Tx>, gifts: seq<Gift>, claims: seq<Claim>, giftId: int)
    requires forall g | g in gifts :: g.id != giftId
    ensures LastMatch(AllItems(txs, gifts), claims, giftId).None?
  {
    if gifts != [] {
      var front, last := gifts[..|gifts| - 1], gifts[|gifts| - 1];
      NoMatchForOthers(txs, front, claims, giftId);
      LastMatchOfGift(txs, last, AllItems(txs, front), claims, giftId);
    }
  }

  ghost predicate SameMatch(txs: seq<Tx>, gifts: seq<Gift>, claims: seq<Claim>, i: nat)
    requires i < |gifts|
  {
    LastMatch(AllItems(txs, gifts), claims, gifts[i].id)
    == LastClaimant(ReceiversOf(txs, gifts[i]), claims, gifts[i].id)
  }

  /** The batched dictionary, read back for one gift, is the plain search. */
  lemma {:induction false} ItemsMatchGift(txs: seq<Tx>, gifts: seq<Gift>, claims: seq<Claim>, i: nat)
    requires UniqueGiftIds(gifts) && i < |gifts|
    ensures SameMatch(txs, gifts, claims, i)
  {
    var front, last := gifts[..|gifts| - 1], gifts[|gifts| - 1];
    LastMatchOfGift(txs, last, AllItems(txs, front), claims, gifts[i].id);
    if i == |gifts| - 1 {
      NoMatchForOthers(txs, front, claims, gifts[i].id);
    } else {
      ItemsMatchGift(txs, front, claims, i);
    }
  }

  ghost predicate Yields(txs: seq<Tx>, gift: Gift, item: Item) {
    item.giftId == gift.id && item.receiver in ReceiversOf(txs, gift)
  }

  lemma ItemOfGift(txs: seq<Tx>, gift: Gift, item: Item)
    ensures item in ItemsOf(txs, gift) <==> Yields(txs, gift, item)
  {
    var receivers := ReceiversOf(txs, gift);
    if item.giftId == gift.id && item.receiver in receivers {
      var i :| 0 <= i < |receivers| && receivers[i] == item.receiver;
      assert ItemsOf(txs, gift)[i] == item;
    }
  }

  lemma {:induction false} ItemHasGift(txs: seq<Tx>, gifts: seq<Gift>, item: Item) returns (gift: Gift)
    requires item in AllItems(txs, gifts)
    ensures gift in gifts && Yields(txs, gift, item)
  {
    var front, last := gifts[..|gifts| - 1], gifts[|gifts| - 1];
    if item in AllItems(txs, front) {
      gift := ItemHasGift(txs, front, item);
    } else {
      ItemOfGift(txs, last, item);
      gift := last;
    }
  }

  lemma {:induction false} GiftItemIncluded(txs: seq<Tx>, gifts: seq<Gift>, i: nat, item: Item)
    requires i < |gifts| && Yields(txs, gifts[i], item)
    ensures item in AllItems(txs, gifts)
  {
    if i == |gifts| - 1 {
      ItemOfGift(txs, gifts[i], item);
    } else {
      GiftItemIncluded(txs, gifts[..|gifts| - 1], i, item);
    }
  }

  lemma ItemsMatchClaim(txs: seq<Tx>, gifts: seq<Gift>, claims: seq<Claim>, c: Claim)
    ensures MatchedBy(AllItems(txs, gifts), claims, c) <==> IsMatched(txs, gifts, claims, c)
  {
    var items := AllItems(txs, gifts);
    if MatchedBy(items, claims, c) {
      var item :| item in items && NewestClaim(claims, item.giftId, item.receiver.walletHash) == Some(c);
      var gift := ItemHasGift(txs, gifts, item);
      assert gift in gifts && item.receiver in ReceiversOf(txs, gift);
    }
    if IsMatched(txs, gifts, claims, c) {
      var gift, r :| gift in gifts && r in ReceiversOf(txs, gift)
                     && NewestClaim(claims, gift.id, r.walletHash) == Some(c);
      var i :| 0 <= i < |gifts| && gifts[i] == gift;
      GiftItemIncluded(txs, gifts, i, Item(gift.id, r));
    }
  }

  // ---------- What the search finds ----------

  /** The claim found is one of that wallet on that gift, and none of theirs is newer. */
  lemma {:induction false} NewestClaimIsNewest(claims: seq<Claim>, giftId: int, walletHash: string)
    requires NewestFirst(claims)
    ensures var found := NewestClaim(claims, giftId, walletHash);
            && (found.Some? ==>
                  found.value in claims && found.value.giftId == giftId && found.value.walletHash == walletHash)
            && forall c | c in claims && c.giftId == giftId && c.walletHash == walletHash ::
                 found.Some? && c.dateCreated <= found.value.dateCreated
  {
    if claims != [] {
      NewestClaimIsNewest(claims[1..], giftId, walletHash);
      assert claims == [claims[0]] + claims[1..];
      forall c | c in claims
        ensures c.dateCreated <= claims[0].dateCreated
      {
      }
    }
  }

  lemma {:induction false} NewestClaimExists(claims: seq<Claim>, giftId: int, walletHash: string)
    ensures NewestClaim(claims, giftId, walletHash).Some? <==>
              exists c :: c in claims && c.giftId == giftId && c.walletHash == walletHash
  {
    if claims != [] {
      NewestClaimExists(claims[1..], giftId, walletHash);
      assert claims == [claims[0]] + claims[1..];
    }
  }

  lemma {:induction false} LastClaimantExists(receivers: seq<Receiver>, claims: seq<Claim>, giftId: int)
    ensures LastClaimant(receivers, claims, giftId).Some? <==>
              exists r :: r in receivers && NewestClaim(claims, giftId, r.walletHash).Some?
  {
    if receivers != [] {
      var front, last := receivers[..|receivers| - 1], receivers[|receivers| - 1];
      LastClaimantExists(front, claims, giftId);
      assert receivers == front + [last];
    }
  }

  ghost predicate PaysWallet(rows: seq<Tx>, walletHash: string) {
    exists row :: row in rows && row.walletHash == walletHash
  }

  lemma PaysWalletStep(rows: seq<Tx>, row: Tx, walletHash: string)
    ensures PaysWallet(rows + [row], walletHash) <==> PaysWallet(rows, walletHash) || row.walletHash == walletHash
  {
    assert row in rows + [row];
    assert forall x | x in rows :: x in rows + [row];
  }

  lemma HasWalletStep(receivers: seq<Receiver>, r: Receiver, walletHash: string)
    ensures HasWallet(receivers + [r], walletHash) <==> HasWallet(receivers, walletHash) || r.walletHash == walletHash
  {
    assert r in receivers + [r];
    assert forall x | x in receivers :: x in receivers + [r];
  }

  /** The receivers are exactly the wallets of the rows. */
  lemma {:induction false} ReceiversAreWallets(rows: seq<Tx>, spendingTxid: string, walletHash: string)
    ensures HasWallet(Receivers(rows, spendingTxid), walletHash) <==> walletHash != "" && PaysWallet(rows, walletHash)
  {
    if rows != [] {
      var front, last := rows[..|rows| - 1], rows[|rows| - 1];
      ReceiversAreWallets(front, spendingTxid, walletHash);
      assert rows == front + [last];
      PaysWalletStep(front, last, walletHash);
      var added := Receiver(last.walletHash, last.timestamp, spendingTxid);
      HasWalletStep(Receivers(front, spendingTxid), added, walletHash);
    }
  }

  lemma {:induction false} WithTxidMembers(txs: seq<Tx>, txid: string)
    ensures forall tx :: tx in WithTxid(txs, txid) <==> tx in txs && tx.txid == txid
  {
    if txs != [] {
      WithTxidMembers(txs[..|txs| - 1], txid);
      assert txs == txs[..|txs| - 1] + [txs[|txs| - 1]];
    }
  }

  /** A wallet with a claim on the gift has a row of the transaction. */
  ghost predicate ClaimedByReceiver(txs: seq<Tx>, claims: seq<Claim>, giftId: int, txid: string) {
    exists tx, c :: tx in txs && tx.txid == txid && tx.walletHash != ""
                    && c in claims && c.giftId == giftId && c.walletHash == tx.walletHash
  }

  /** The search finds a claimant exactly for an open gift with an address whose last spent funding
      row was spent by a transaction that pays a wallet with a claim on the gift; every other gift
      is left as it was. */
  lemma ClaimedExactlyWhenReceiverClaimed(txs: seq<Tx>, claims: seq<Claim>, gift: Gift)
    ensures var funding := LastRow(txs, gift.address, true);
            LastClaimant(ReceiversOf(txs, gift), claims, gift.id).Some? <==>
              && gift.dateFunded.Some? && gift.dateClaimed.None?
              && gift.address != "" && funding.Some? && funding.value.spendingTxid != ""
              && ClaimedByReceiver(txs, claims, gift.id, funding.value.spendingTxid)
    ensures LastClaimant(ReceiversOf(txs, gift), claims, gift.id).None? ==> SearchGift(txs, claims, gift) == gift
  {
    var funding, receivers := LastRow(txs, gift.address, true), ReceiversOf(txs, gift);
    LastClaimantExists(receivers, claims, gift.id);
    if IsOpen(gift) && gift.address != "" && funding.Some? && funding.value.spendingTxid != "" {
      var txid := funding.value.spendingTxid;
      WithTxidMembers(txs, txid);
      if LastClaimant(receivers, claims, gift.id).Some? {
        var r :| r in receivers && NewestClaim(claims, gift.id, r.walletHash).Some?;
        assert HasWallet(receivers, r.walletHash);
        ReceiversAreWallets(WithTxid(txs, txid), txid, r.walletHash);
        NewestClaimExists(claims, gift.id, r.walletHash);
      }
      if ClaimedByReceiver(txs, claims, gift.id, txid) {
        var tx, c :| tx in txs && tx.txid == txid && tx.walletHash != ""
                     && c in claims && c.giftId == gift.id && c.walletHash == tx.walletHash;
        ReceiversAreWallets(WithTxid(txs, txid), txid, tx.walletHash);
        assert PaysWallet(WithTxid(txs, txid), tx.walletHash);
        NewestClaimExists(claims, gift.id, tx.walletHash);
      }
    }
  }

  /** A gift only ever takes the spender of its last spent funding row, which is the oldest one. */
  lemma ClaimTxidIsSpender(txs: seq<Tx>, claims: seq<Claim>, gift: Gift)
    requires LastClaimant(ReceiversOf(txs, gift), claims, gift.id).Some?
    ensures LastRow(txs, gift.address, true).Some?
    ensures SearchGift(txs, claims, gift).claimTxid == LastRow(txs, gift.address, true).value.spendingTxid
    ensures RowsNewestFirst(txs) ==>
              forall tx | tx in txs && tx.address == gift.address && tx.spent ::
                LastRow(txs, gift.address, true).value.dateCreated <= tx.dateCreated
  {
    if RowsNewestFirst(txs) {
      LastRowIsOldest(txs, gift.address, true);
    }
    var txid := LastRow(txs, gift.address, true).value.spendingTxid;
    ReceiversCarryTxid(WithTxid(txs, txid), txid);
    LastClaimantIsReceiver(ReceiversOf(txs, gift), claims, gift.id);
  }

  lemma {:induction false} ReceiversCarryTxid(rows: seq<Tx>, txid: string)
    ensures forall r | r in Receivers(rows, txid) :: r.spendingTxid == txid
  {
    if rows != [] {
      ReceiversCarryTxid(rows[..|rows| - 1], txid);
    }
  }

  lemma {:induction false} LastClaimantIsReceiver(receivers: seq<Receiver>, claims: seq<Claim>, giftId: int)
    ensures var r := LastClaimant(receivers, claims, giftId); r.Some? ==> r.value in receivers
  {
    if receivers != [] {
      LastClaimantIsReceiver(receivers[..|receivers| - 1], claims, giftId);
    }
  }

  /** Row i is the first one of the wallet. */
  ghost predicate FirstAt(rows: seq<Tx>, i: int, walletHash: string) {
    0 <= i < |rows| && rows[i].walletHash == walletHash && forall j | 0 <= j < i :: rows[j].walletHash != walletHash
  }

  /** No wallet that has claimed the gift appears for the first time after row i. */
  ghost predicate NoClaimantAfter(rows: seq<Tx>, claims: seq<Claim>, giftId: int, i: int) {
    forall k, w | FirstAt(rows, k, w) && w != "" && NewestClaim(claims, giftId, w).Some? :: k <= i
  }

  ghost predicate IsLastClaimant(rows: seq<Tx>, claims: seq<Claim>, giftId: int, r: Receiver, i: int) {
    && FirstAt(rows, i, r.walletHash) && r.timestamp == rows[i].timestamp
    && NewestClaim(claims, giftId, r.walletHash).Some?
    && NoClaimantAfter(rows, claims, giftId, i)
  }

  lemma FirstAtExtends(rows: seq<Tx>, row: Tx, i: int, w: string)
    ensures FirstAt(rows + [row], i, w) <==>
              if i == |rows| then row.walletHash == w && !PaysWallet(rows, w) else FirstAt(rows, i, w)
  {
    var longer := rows + [row];
    assert forall j | 0 <= j < |rows| :: longer[j] == rows[j];
    assert PaysWallet(rows, w) <==> exists j :: 0 <= j < |rows| && rows[j].walletHash == w;
  }

  /** The claimant found is, among the wallets with a claim on the gift, the one whose first row comes
      last, and its timestamp is that row's. */
  lemma {:induction false} LastClaimantByFirstRow(rows: seq<Tx>, txid: string, claims: seq<Claim>, giftId: int)
    ensures var found := LastClaimant(Receivers(rows, txid), claims, giftId);
            found.Some? ==>
              found.value.spendingTxid == txid && exists i :: IsLastClaimant(rows, claims, giftId, found.value, i)
    ensures LastClaimant(Receivers(rows, txid), claims, giftId).None? ==> NoClaimantAfter(rows, claims, giftId, -1)
  {
    if rows != [] {
      var front, last := rows[..|rows| - 1], rows[|rows| - 1];
      var before := Receivers(front, txid);
      assert rows == front + [last];
      LastClaimantByFirstRow(front, txid, claims, giftId);
      ReceiversAreWallets(front, txid, last.walletHash);
      forall i, w
        ensures FirstAt(rows, i, w) <==>
                  if i == |front| then last.walletHash == w && !PaysWallet(front, w) else FirstAt(front, i, w)
      {
        FirstAtExtends(front, last, i, w);
      }
      var found := LastClaimant(Receivers(rows, txid), claims, giftId);
      var added := last.walletHash != "" && !HasWallet(before, last.walletHash);
      if added && NewestClaim(claims, giftId, last.walletHash).Some? {
        assert Receivers(rows, txid)[..|before|] == before;
        assert IsLastClaimant(rows, claims, giftId, found.value, |front|);
      } else {
        assert added ==> Receivers(rows, txid)[..|before|] == before;
        assert found == LastClaimant(before, claims, giftId);
        if found.Some? {
          var i :| IsLastClaimant(front, claims, giftId, found.value, i);
          assert IsLastClaimant(rows, claims, giftId, found.value, i);
        }
      }
    }
  }

  /** A matched gift takes the date of the first row of the wallet that claimed it, among the rows of
      the transaction that spent its last funding row; of several such wallets, of the one whose first
      row comes last. Nothing else of the gift changes. */
  lemma ClaimedGiftTakesDateOfClaimant(txs: seq<Tx>, claims: seq<Claim>, gift: Gift) returns (i: int)
    requires LastClaimant(ReceiversOf(txs, gift), claims, gift.id).Some?
    ensures LastRow(txs, gift.address, true).Some?
    ensures var txid := LastRow(txs, gift.address, true).value.spendingTxid;
            var rows := WithTxid(txs, txid);
            && 0 <= i < |rows| && rows[i] in txs && rows[i].txid == txid
            && FirstAt(rows, i, rows[i].walletHash) && NewestClaim(claims, gift.id, rows[i].walletHash).Some?
            && NoClaimantAfter(rows, claims, gift.id, i)
            && SearchGift(txs, claims, gift) == gift.(dateClaimed := rows[i].timestamp, claimTxid := txid)
  {
    var txid := LastRow(txs, gift.address, true).value.spendingTxid;
    var rows := WithTxid(txs, txid);
    LastClaimantByFirstRow(rows, txid, claims, gift.id);
    var r := LastClaimant(ReceiversOf(txs, gift), claims, gift.id).value;
    i :| IsLastClaimant(rows, claims, gift.id, r, i);
    WithTxidMembers(txs, txid);
    assert rows[i] in rows;
  }

  /** The wallet received coins of an open gift: a row of the transaction that spent its last funding
      row names it. */
  ghost predicate Received(txs: seq<Tx>, gift: Gift, walletHash: string) {
    var funding := LastRow(txs, gift.address, true);
    && gift.dateFunded.Some? && gift.dateClaimed.None? && gift.address != ""
    && funding.Some? && funding.value.spendingTxid != ""
    && walletHash != ""
    && exists tx :: tx in txs && tx.txid == funding.value.spendingTxid && tx.walletHash == walletHash
  }

  lemma ReceiversExactly(txs: seq<Tx>, gift: Gift, walletHash: string)
    ensures HasWallet(ReceiversOf(txs, gift), walletHash) <==> Received(txs, gift, walletHash)
  {
    var funding := LastRow(txs, gift.address, true);
    if funding.Some? {
      WithTxidMembers(txs, funding.value.spendingTxid);
      ReceiversAreWallets(WithTxid(txs, funding.value.spendingTxid), funding.value.spendingTxid, walletHash);
    }
  }

  lemma {:induction false} NewestClaimIsOf(claims: seq<Claim>, giftId: int, walletHash: string)
    ensures var found := NewestClaim(claims, giftId, walletHash);
            found.Some? ==> found.value.giftId == giftId && found.value.walletHash == walletHash
  {
    if claims != [] {
      NewestClaimIsOf(claims[1..], giftId, walletHash);
    }
  }

  /** A claim succeeds exactly when its wallet received coins of the gift that it claims, and it is
      the newest claim of that wallet on that gift. */
  lemma ClaimSucceedsExactly(txs: seq<Tx>, gifts: seq<Gift>, claims: seq<Claim>, claim: Claim)
    ensures IsMatched(txs, gifts, claims, claim) <==>
              exists gift :: gift in gifts && gift.id == claim.giftId && Received(txs, gift, claim.walletHash)
                             && NewestClaim(claims, gift.id, claim.walletHash) == Some(claim)
  {
    if IsMatched(txs, gifts, claims, claim) {
      var gift, r :| gift in gifts && r in ReceiversOf(txs, gift)
                     && NewestClaim(claims, gift.id, r.walletHash) == Some(claim);
      NewestClaimIsOf(claims, gift.id, r.walletHash);
      ReceiversExactly(txs, gift, r.walletHash);
      assert HasWallet(ReceiversOf(txs, gift), r.walletHash);
    }
    forall gift | gift in gifts && gift.id == claim.giftId && Received(txs, gift, claim.walletHash)
                  && NewestClaim(claims, gift.id, claim.walletHash) == Some(claim)
      ensures IsMatched(txs, gifts, claims, claim)
    {
      ReceiversExactly(txs, gift, claim.walletHash);
      var r :| r in ReceiversOf(txs, gift) && r.walletHash == claim.walletHash;
    }
  }
}
