/**
 ERC-1155 quantities: the local `quantity` of the reconstruction against a ledger that replays
 the log transfer by transfer, and against the quantities minted and burnt.
 */
module QuantityLedger {
  import opened Addresses
  import opened OwnerReconstruction
  import opened Permutations
  import opened TransferLog
  import opened Wrappers

  type Ledger = map<(TokenId, Address), nat>

  function Held(ledger: Ledger, tokenId: TokenId, a: Address): nat {
    if (tokenId, a) in ledger then ledger[(tokenId, a)] else 0
  }

  /** Debit, then credit; a debit that the sender cannot cover makes the log impossible. */
  function Apply(ledger: Ledger, t: Transfer): Option<Ledger> {
    var from, to := (t.tokenId, t.fromAddress), (t.tokenId, t.toAddress);
    if t.fromAddress != ZERO_ADDRESS && Held(ledger, t.tokenId, t.fromAddress) < t.quantity then None
    else
      var debited :=
        if t.fromAddress == ZERO_ADDRESS then ledger
        else ledger[from := Held(ledger, t.tokenId, t.fromAddress) - t.quantity];
      if t.toAddress == ZERO_ADDRESS then Some(debited)
      else Some(debited[to := Held(debited, t.tokenId, t.toAddress) + t.quantity])
  }

  function ReplayLedger(log: seq<Transfer>): Option<Ledger> {
    if log == [] then Some(map[])
    else
      var t := log[|log| - 1];
      var before := ReplayLedger(log[..|log| - 1]);
      if before.None? || t.standard != ERC_1155 then before else Apply(before.value, t)
  }

  /** What `a` holds of all the tokens in a list. */
  ghost function HeldOf(ledger: Ledger, ids: seq<TokenId>, a: Address): nat {
    if ids == [] then 0 else HeldOf(ledger, ids[1..], a) + Held(ledger, ids[0], a)
  }

  /** `ids` enumerates the tokens that NFT `n` lists. */
  ghost predicate Enumerates(ids: seq<TokenId>, nfts: seq<Nft>, n: NftId) {
    NoRepeats(ids) && forall tokenId :: tokenId in ids <==> Listed(nfts, ERC_1155, n, tokenId)
  }

  /** The change that one transfer makes to the quantity of `a`. */
  ghost function Change(t: Transfer, a: Address): int {
    (if t.toAddress == a then t.quantity else 0) - (if t.fromAddress == a then t.quantity else 0)
  }

  lemma {:induction false} HeldOfAfter(ledger: Ledger, t: Transfer, ids: seq<TokenId>, a: Address)
    requires Apply(ledger, t).Some? && a != ZERO_ADDRESS && NoRepeats(ids)
    ensures HeldOf(Apply(ledger, t).value, ids, a) ==
            HeldOf(ledger, ids, a) + if t.tokenId in ids then Change(t, a) else 0
  {
    if ids != [] {
      HeldOfAfter(ledger, t, ids[1..], a);
      assert t.tokenId == ids[0] ==> t.tokenId !in ids[1..];
    }
  }

  lemma {:induction false} QuantityOfConcat(
    rows: seq<Row>, more: seq<Row>, standard: TokenStandard, isReceived: bool, n: NftId, a: Address)
    ensures QuantityOf(rows + more, standard, isReceived, n, a) ==
            QuantityOf(rows, standard, isReceived, n, a) + QuantityOf(more, standard, isReceived, n, a)
  {
    if more == [] {
      assert rows + more == rows;
    } else {
      QuantityOfConcat(rows, more[..|more| - 1], standard, isReceived, n, a);
      assert (rows + more)[..|rows + more| - 1] == rows + more[..|more| - 1];
    }
  }

  lemma {:induction false} QuantityOfUnwind(
    t: Transfer, nfts: seq<Nft>, standard: TokenStandard, isReceived: bool, n: NftId, a: Address)
    requires DistinctIds(nfts)
    ensures QuantityOf(Unwind(t, nfts, standard), standard, isReceived, n, a) ==
            if && Listed(nfts, standard, n, t.tokenId) && a != ZERO_ADDRESS
               && t.standard == standard && Side(t, isReceived) == a
            then t.quantity else 0
  {
    if nfts != [] {
      var k := |nfts| - 1;
      var prefix := nfts[..k];
      assert DistinctIds(prefix);
      QuantityOfUnwind(t, prefix, standard, isReceived, n, a);
      ListedPrefix(nfts, standard, n, t.tokenId);
      if Lists(nfts[k], standard, t.tokenId) {
        var row := Row(nfts[k].id, t);
        QuantityOfConcat(Unwind(t, prefix, standard), [row], standard, isReceived, n, a);
        assert QuantityOf([row], standard, isReceived, n, a) ==
               if Keyed(row, standard, isReceived, n, a) then t.quantity else 0;
      }
    }
  }

  /**
   On every log that can be replayed, received minus sent of an address under an NFT is what the
   ledger says the address holds of that NFT's tokens; in particular it is never negative.
   */
  lemma {:induction false} NetQuantityIsHeld(
    log: seq<Transfer>, nfts: seq<Nft>, n: NftId, ids: seq<TokenId>, a: Address)
    requires ReplayLedger(log).Some? && DistinctIds(nfts) && Enumerates(ids, nfts, n) && a != ZERO_ADDRESS
    ensures NetQuantity(Rows(log, nfts, ERC_1155), ERC_1155, n, a) == HeldOf(ReplayLedger(log).value, ids, a)
  {
    if log == [] {
      NothingHeld(ids, a);
    } else {
      var prefix, t := log[..|log| - 1], log[|log| - 1];
      NetQuantityIsHeld(prefix, nfts, n, ids, a);
      forall isReceived: bool
        ensures QuantityOf(Rows(log, nfts, ERC_1155), ERC_1155, isReceived, n, a) ==
                QuantityOf(Rows(prefix, nfts, ERC_1155), ERC_1155, isReceived, n, a) +
                if t.tokenId in ids && t.standard == ERC_1155 && Side(t, isReceived) == a then t.quantity else 0
      {
        QuantityOfConcat(Rows(prefix, nfts, ERC_1155), Unwind(t, nfts, ERC_1155), ERC_1155, isReceived, n, a);
        QuantityOfUnwind(t, nfts, ERC_1155, isReceived, n, a);
      }
      if t.standard == ERC_1155 {
        HeldOfAfter(ReplayLedger(prefix).value, t, ids, a);
      }
    }
  }

  lemma {:induction false} NothingHeld(ids: seq<TokenId>, a: Address)
    ensures HeldOf(map[], ids, a) == 0
  {
    if ids != [] {
      NothingHeld(ids[1..], a);
    }
  }

  // ---------------------------------------------------------------- conservation

  /** The quantity of the rows of one NFT whose `from` (mints) or `to` (burns) is the zero address. */
  ghost function ZeroQuantity(rows: seq<Row>, isReceived: bool, n: NftId): nat {
    if rows == [] then 0
    else
      var row := rows[|rows| - 1];
      ZeroQuantity(rows[..|rows| - 1], isReceived, n) +
      if row.nftId == n && row.transfer.standard == ERC_1155 && Side(row.transfer, isReceived) == ZERO_ADDRESS
      then row.transfer.quantity else 0
  }

  ghost function MintedQuantity(rows: seq<Row>, n: NftId): nat {
    ZeroQuantity(rows, false, n)
  }

  ghost function SumOver(rows: seq<Row>, isReceived: bool, n: NftId, holders: seq<Address>): nat {
    if holders == [] then 0
    else SumOver(rows, isReceived, n, holders[1..]) + QuantityOf(rows, ERC_1155, isReceived, n, holders[0])
  }

  ghost function SumNet(rows: seq<Row>, n: NftId, holders: seq<Address>): int {
    if holders == [] then 0
    else SumNet(rows, n, holders[1..]) + NetQuantity(rows, ERC_1155, n, holders[0])
  }

  lemma {:induction false} SumNetSplits(rows: seq<Row>, n: NftId, holders: seq<Address>)
    ensures SumNet(rows, n, holders) == SumOver(rows, true, n, holders) - SumOver(rows, false, n, holders)
  {
    if holders != [] {
      SumNetSplits(rows, n, holders[1..]);
    }
  }

  lemma {:induction false} SumOverLast(rows: seq<Row>, isReceived: bool, n: NftId, holders: seq<Address>)
    requires rows != [] && NoRepeats(holders)
    ensures var row := rows[|rows| - 1];
            SumOver(rows, isReceived, n, holders) ==
            SumOver(rows[..|rows| - 1], isReceived, n, holders) +
            if && row.nftId == n && Matches(row, ERC_1155, isReceived)
               && Side(row.transfer, isReceived) in holders
            then row.transfer.quantity else 0
  {
    if holders != [] {
      SumOverLast(rows, isReceived, n, holders[1..]);
      var side := Side(rows[|rows| - 1].transfer, isReceived);
      assert side == holders[0] ==> side !in holders[1..];
    }
  }

  /** Every row is counted once: at a holder, or at the zero address. */
  ghost function Total(rows: seq<Row>, n: NftId): nat {
    if rows == [] then 0
    else
      var row := rows[|rows| - 1];
      Total(rows[..|rows| - 1], n) +
      if row.nftId == n && row.transfer.standard == ERC_1155 then row.transfer.quantity else 0
  }

  /** The `$match` of getBurnTokens, which comes before the join. */
  ghost function BurnLog(log: seq<Transfer>): seq<Transfer> {
    if log == [] then []
    else
      var t := log[|log| - 1];
      if t.standard == ERC_1155 && t.toAddress == ZERO_ADDRESS then BurnLog(log[..|log| - 1]) + [t]
      else BurnLog(log[..|log| - 1])
  }

  /** getBurnTokens: the total quantity that it reports for one NFT. */
  ghost function BurntQuantity(log: seq<Transfer>, nfts: seq<Nft>, n: NftId): nat {
    Total(Rows(BurnLog(log), nfts, ERC_1155), n)
  }

  lemma {:induction false} TotalConcat(rows: seq<Row>, more: seq<Row>, n: NftId)
    ensures Total(rows + more, n) == Total(rows, n) + Total(more, n)
    ensures ZeroQuantity(rows + more, true, n) == ZeroQuantity(rows, true, n) + ZeroQuantity(more, true, n)
  {
    if more == [] {
      assert rows + more == rows;
    } else {
      TotalConcat(rows, more[..|more| - 1], n);
      assert (rows + more)[..|rows + more| - 1] == rows + more[..|more| - 1];
    }
  }

  lemma {:induction false} UnwindOfOne(t: Transfer, nfts: seq<Nft>, n: NftId)
    ensures ZeroQuantity(Unwind(t, nfts, ERC_1155), true, n) ==
            if t.standard == ERC_1155 && t.toAddress == ZERO_ADDRESS then Total(Unwind(t, nfts, ERC_1155), n) else 0
  {
    if nfts != [] {
      var k := |nfts| - 1;
      UnwindOfOne(t, nfts[..k], n);
      TotalConcat(Unwind(t, nfts[..k], ERC_1155), [Row(nfts[k].id, t)], n);
    }
  }

  /** Matching before the join or after it makes no difference to the quantity burnt. */
  lemma {:induction false} BurntIsZeroSide(log: seq<Transfer>, nfts: seq<Nft>, n: NftId)
    ensures BurntQuantity(log, nfts, n) == ZeroQuantity(Rows(log, nfts, ERC_1155), true, n)
  {
    if log != [] {
      var prefix, t := log[..|log| - 1], log[|log| - 1];
      BurntIsZeroSide(prefix, nfts, n);
      UnwindOfOne(t, nfts, n);
      TotalConcat(Rows(prefix, nfts, ERC_1155), Unwind(t, nfts, ERC_1155), n);
      if t.standard == ERC_1155 && t.toAddress == ZERO_ADDRESS {
        assert BurnLog(log)[..|BurnLog(log)| - 1] == BurnLog(prefix);
        TotalConcat(Rows(BurnLog(prefix), nfts, ERC_1155), Unwind(t, nfts, ERC_1155), n);
      }
    }
  }

  ghost predicate Covers(rows: seq<Row>, holders: seq<Address>) {
    forall i :: 0 <= i < |rows| ==>
      && (rows[i].transfer.toAddress == ZERO_ADDRESS || rows[i].transfer.toAddress in holders)
      && (rows[i].transfer.fromAddress == ZERO_ADDRESS || rows[i].transfer.fromAddress in holders)
  }

  lemma {:induction false} OneSide(rows: seq<Row>, isReceived: bool, n: NftId, holders: seq<Address>)
    requires NoRepeats(holders) && Covers(rows, holders)
    ensures SumOver(rows, isReceived, n, holders) + ZeroQuantity(rows, isReceived, n) == Total(rows, n)
  {
    if rows == [] {
      NothingSummed(isReceived, n, holders);
    } else {
      OneSide(rows[..|rows| - 1], isReceived, n, holders);
      SumOverLast(rows, isReceived, n, holders);
    }
  }

  lemma {:induction false} NothingSummed(isReceived: bool, n: NftId, holders: seq<Address>)
    ensures SumOver([], isReceived, n, holders) == 0
  {
    if holders != [] {
      NothingSummed(isReceived, n, holders[1..]);
    }
  }

  /**
   On every log: the net quantities of all addresses that occur in it add up to the quantity
   minted minus the quantity that getBurnTokens reports.
   */
  lemma QuantityConserved(
    log: seq<Transfer>, nfts: seq<Nft>, n: NftId, holders: seq<Address>)
    requires NoRepeats(holders) && Covers(Rows(log, nfts, ERC_1155), holders)
    ensures var rows := Rows(log, nfts, ERC_1155);
            SumNet(rows, n, holders) == MintedQuantity(rows, n) - BurntQuantity(log, nfts, n)
  {
    var rows := Rows(log, nfts, ERC_1155);
    BurntIsZeroSide(log, nfts, n);
    SumNetSplits(rows, n, holders);
    OneSide(rows, true, n, holders);
    OneSide(rows, false, n, holders);
  }
}
