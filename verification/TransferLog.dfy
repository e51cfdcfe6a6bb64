/**
 The stored transfer log and the aggregates that the worker computes from it: one row per
 transfer and matching NFT, grouped by NFT and address into lists of token ids and quantities.
 */
module TransferLog {
  import opened Addresses

  type NftId = nat
  type TokenId = nat

  datatype TokenStandard = ERC_721 | ERC_1155

  datatype Transfer = Transfer(
    standard: TokenStandard, fromAddress: Address, toAddress: Address, tokenId: TokenId, quantity: nat)

  datatype Nft = Nft(id: NftId, standard: TokenStandard, ids: set<TokenId>)

  /** A transfer joined with one NFT: the output of `$lookup` and `$unwind`. */
  datatype Row = Row(nftId: NftId, transfer: Transfer)

  datatype Group = Group(nftId: NftId, address: Address, tokenIds: seq<TokenId>, quantity: nat)

  /** `_id` is unique in the `nfts` collection. */
  ghost predicate DistinctIds(nfts: seq<Nft>) {
    forall i, j :: 0 <= i < j < |nfts| ==> nfts[i].id != nfts[j].id
  }

  predicate Lists(nft: Nft, standard: TokenStandard, tokenId: TokenId) {
    nft.standard == standard && tokenId in nft.ids
  }

  /** Some NFT with this id and standard lists the token. */
  ghost predicate Listed(nfts: seq<Nft>, standard: TokenStandard, n: NftId, tokenId: TokenId) {
    exists i :: 0 <= i < |nfts| && IsListing(nfts[i], standard, n, tokenId)
  }

  ghost predicate IsListing(nft: Nft, standard: TokenStandard, n: NftId, tokenId: TokenId) {
    nft.id == n && nft.standard == standard && tokenId in nft.ids
  }

  // ---------------------------------------------------------------- the pipeline

  function Unwind(t: Transfer, nfts: seq<Nft>, standard: TokenStandard): seq<Row> {
    if nfts == [] then []
    else
      var rest := Unwind(t, nfts[..|nfts| - 1], standard);
      var nft := nfts[|nfts| - 1];
      if Lists(nft, standard, t.tokenId) then rest + [Row(nft.id, t)] else rest
  }

  function Rows(log: seq<Transfer>, nfts: seq<Nft>, standard: TokenStandard): seq<Row> {
    if log == [] then []
    else Rows(log[..|log| - 1], nfts, standard) + Unwind(log[|log| - 1], nfts, standard)
  }

  function Side(t: Transfer, isReceived: bool): Address {
    if isReceived then t.toAddress else t.fromAddress
  }

  /** `$match`: the requested standard, and not the zero address on the requested side. */
  predicate Matches(row: Row, standard: TokenStandard, isReceived: bool) {
    row.transfer.standard == standard && Side(row.transfer, isReceived) != ZERO_ADDRESS
  }

  /** `$group` with `$push` and `$sum`, one row at a time. */
  function Push(groups: seq<Group>, n: NftId, address: Address, t: Transfer): seq<Group> {
    if groups == [] then [Group(n, address, [t.tokenId], t.quantity)]
    else
      var g := groups[0];
      if g.nftId == n && g.address == address
      then [g.(tokenIds := g.tokenIds + [t.tokenId], quantity := g.quantity + t.quantity)] + groups[1..]
      else [g] + Push(groups[1..], n, address, t)
  }

  function GroupRows(rows: seq<Row>, standard: TokenStandard, isReceived: bool): seq<Group> {
    if rows == [] then []
    else
      var groups := GroupRows(rows[..|rows| - 1], standard, isReceived);
      var row := rows[|rows| - 1];
      if Matches(row, standard, isReceived)
      then Push(groups, row.nftId, Side(row.transfer, isReceived), row.transfer)
      else groups
  }

  function GetTransferTokens(
    log: seq<Transfer>, nfts: seq<Nft>, standard: TokenStandard, isReceived: bool): seq<Group>
  {
    GroupRows(Rows(log, nfts, standard), standard, isReceived)
  }

  // ---------------------------------------------------------------- what a grouping is

  predicate Keyed(row: Row, standard: TokenStandard, isReceived: bool, n: NftId, a: Address) {
    Matches(row, standard, isReceived) && row.nftId == n && Side(row.transfer, isReceived) == a
  }

  /** The token ids of the rows with one key, in row order. */
  function TokensOf(rows: seq<Row>, standard: TokenStandard, isReceived: bool, n: NftId, a: Address): seq<TokenId> {
    if rows == [] then []
    else
      var rest := TokensOf(rows[..|rows| - 1], standard, isReceived, n, a);
      var row := rows[|rows| - 1];
      if Keyed(row, standard, isReceived, n, a) then rest + [row.transfer.tokenId] else rest
  }

  function QuantityOf(rows: seq<Row>, standard: TokenStandard, isReceived: bool, n: NftId, a: Address): nat {
    if rows == [] then 0
    else
      var row := rows[|rows| - 1];
      QuantityOf(rows[..|rows| - 1], standard, isReceived, n, a) +
      if Keyed(row, standard, isReceived, n, a) then row.transfer.quantity else 0
  }

  ghost predicate HasKey(g: Group, n: NftId, a: Address) {
    g.nftId == n && g.address == a
  }

  /**
   A list of groups as `$group` may return it: one group per key that has a row, in any order,
   with the token ids and the total quantity of that key's rows.
   */
  ghost predicate IsGrouping(groups: seq<Group>, rows: seq<Row>, standard: TokenStandard, isReceived: bool) {
    && DistinctKeys(groups)
    && (forall i :: 0 <= i < |groups| ==> Faithful(groups[i], rows, standard, isReceived))
    && (forall n, a :: TokensOf(rows, standard, isReceived, n, a) != [] ==>
          exists i :: 0 <= i < |groups| && HasKey(groups[i], n, a))
  }

  ghost predicate DistinctKeys(groups: seq<Group>) {
    forall i, j :: 0 <= i < j < |groups| ==> !HasKey(groups[i], groups[j].nftId, groups[j].address)
  }

  ghost predicate Faithful(g: Group, rows: seq<Row>, standard: TokenStandard, isReceived: bool) {
    && g.tokenIds != []
    && g.tokenIds == TokensOf(rows, standard, isReceived, g.nftId, g.address)
    && g.quantity == QuantityOf(rows, standard, isReceived, g.nftId, g.address)
  }

  /** The group with a given key, or an empty one. */
  ghost function Find(groups: seq<Group>, n: NftId, a: Address): Group {
    if groups == [] then Group(n, a, [], 0)
    else if HasKey(groups[0], n, a) then groups[0]
    else Find(groups[1..], n, a)
  }

  lemma {:induction false} PushFinds(groups: seq<Group>, n: NftId, a: Address, t: Transfer, m: NftId, b: Address)
    ensures var found := Find(groups, m, b);
            Find(Push(groups, n, a, t), m, b) ==
            if m == n && b == a
            then found.(tokenIds := found.tokenIds + [t.tokenId], quantity := found.quantity + t.quantity)
            else found
  {
    if groups != [] {
      PushFinds(groups[1..], n, a, t, m, b);
    }
  }

  lemma {:induction false} PushKeys(groups: seq<Group>, n: NftId, a: Address, t: Transfer)
    ensures forall i :: 0 <= i < |Push(groups, n, a, t)| ==>
              var g := Push(groups, n, a, t)[i];
              HasKey(g, n, a) || exists j :: 0 <= j < |groups| && HasKey(groups[j], g.nftId, g.address)
    ensures DistinctKeys(groups) ==> DistinctKeys(Push(groups, n, a, t))
  {
    if groups != [] {
      PushKeys(groups[1..], n, a, t);
    }
  }

  lemma {:induction false} FindAt(groups: seq<Group>, i: nat)
    requires DistinctKeys(groups) && i < |groups|
    ensures Find(groups, groups[i].nftId, groups[i].address) == groups[i]
  {
    if i > 0 {
      assert !HasKey(groups[0], groups[i].nftId, groups[i].address);
      FindAt(groups[1..], i - 1);
    }
  }

  lemma {:induction false} FindSome(groups: seq<Group>, n: NftId, a: Address)
    requires Find(groups, n, a).tokenIds != []
    ensures exists i :: 0 <= i < |groups| && HasKey(groups[i], n, a)
  {
    if !HasKey(groups[0], n, a) {
      FindSome(groups[1..], n, a);
      var i :| 0 <= i < |groups[1..]| && HasKey(groups[1..][i], n, a);
      assert HasKey(groups[i + 1], n, a);
    }
  }

  lemma {:induction false} GroupRowsFinds(
    rows: seq<Row>, standard: TokenStandard, isReceived: bool, n: NftId, a: Address)
    ensures DistinctKeys(GroupRows(rows, standard, isReceived))
    ensures Find(GroupRows(rows, standard, isReceived), n, a) ==
            Group(n, a, TokensOf(rows, standard, isReceived, n, a), QuantityOf(rows, standard, isReceived, n, a))
  {
    if rows != [] {
      var prefix, row := rows[..|rows| - 1], rows[|rows| - 1];
      GroupRowsFinds(prefix, standard, isReceived, n, a);
      var groups := GroupRows(prefix, standard, isReceived);
      PushFinds(groups, row.nftId, Side(row.transfer, isReceived), row.transfer, n, a);
      PushKeys(groups, row.nftId, Side(row.transfer, isReceived), row.transfer);
    }
  }

  lemma {:induction false} GroupsNonEmpty(rows: seq<Row>, standard: TokenStandard, isReceived: bool)
    ensures forall i :: 0 <= i < |GroupRows(rows, standard, isReceived)| ==>
              GroupRows(rows, standard, isReceived)[i].tokenIds != []
  {
    if rows != [] {
      var prefix, row := rows[..|rows| - 1], rows[|rows| - 1];
      GroupsNonEmpty(prefix, standard, isReceived);
      PushNonEmpty(GroupRows(prefix, standard, isReceived), row.nftId, Side(row.transfer, isReceived), row.transfer);
    }
  }

  lemma {:induction false} PushNonEmpty(groups: seq<Group>, n: NftId, a: Address, t: Transfer)
    requires forall i :: 0 <= i < |groups| ==> groups[i].tokenIds != []
    ensures forall i :: 0 <= i < |Push(groups, n, a, t)| ==> Push(groups, n, a, t)[i].tokenIds != []
  {
    if groups != [] {
      PushNonEmpty(groups[1..], n, a, t);
    }
  }

  /** The pipeline computes a grouping of the joined rows. */
  lemma PipelineGroups(log: seq<Transfer>, nfts: seq<Nft>, standard: TokenStandard, isReceived: bool)
    ensures IsGrouping(GetTransferTokens(log, nfts, standard, isReceived),
                       Rows(log, nfts, standard), standard, isReceived)
  {
    var rows := Rows(log, nfts, standard);
    var groups := GroupRows(rows, standard, isReceived);
    GroupsNonEmpty(rows, standard, isReceived);
    GroupRowsFinds(rows, standard, isReceived, 0, Empty);
    forall i | 0 <= i < |groups| ensures Faithful(groups[i], rows, standard, isReceived) {
      FindAt(groups, i);
      GroupRowsFinds(rows, standard, isReceived, groups[i].nftId, groups[i].address);
    }
    forall n, a | TokensOf(rows, standard, isReceived, n, a) != []
      ensures exists i :: 0 <= i < |groups| && HasKey(groups[i], n, a)
    {
      GroupRowsFinds(rows, standard, isReceived, n, a);
      FindSome(groups, n, a);
    }
  }

  // ---------------------------------------------------------------- from rows back to the log

  predicate Moves(t: Transfer, standard: TokenStandard, isReceived: bool, tokenId: TokenId, a: Address) {
    t.standard == standard && t.tokenId == tokenId && Side(t, isReceived) == a
  }

  /** How often `a` received (or sent) a token. */
  ghost function Count(
    log: seq<Transfer>, standard: TokenStandard, isReceived: bool, tokenId: TokenId, a: Address): nat
  {
    if log == [] then 0
    else
      Count(log[..|log| - 1], standard, isReceived, tokenId, a) +
      if Moves(log[|log| - 1], standard, isReceived, tokenId, a) then 1 else 0
  }

  lemma {:induction false} TokensOfConcat(
    rows: seq<Row>, more: seq<Row>, standard: TokenStandard, isReceived: bool, n: NftId, a: Address)
    ensures TokensOf(rows + more, standard, isReceived, n, a) ==
            TokensOf(rows, standard, isReceived, n, a) + TokensOf(more, standard, isReceived, n, a)
  {
    if more == [] {
      assert rows + more == rows;
    } else {
      TokensOfConcat(rows, more[..|more| - 1], standard, isReceived, n, a);
      assert (rows + more)[..|rows + more| - 1] == rows + more[..|more| - 1];
    }
  }

  lemma {:induction false} TokensOfUnwind(
    t: Transfer, nfts: seq<Nft>, standard: TokenStandard, isReceived: bool, n: NftId, a: Address)
    requires DistinctIds(nfts)
    ensures TokensOf(Unwind(t, nfts, standard), standard, isReceived, n, a) ==
            if Listed(nfts, standard, n, t.tokenId) && a != ZERO_ADDRESS && Moves(t, standard, isReceived, t.tokenId, a)
            then [t.tokenId] else []
  {
    if nfts != [] {
      var k := |nfts| - 1;
      var prefix := nfts[..k];
      assert DistinctIds(prefix);
      TokensOfUnwind(t, prefix, standard, isReceived, n, a);
      ListedPrefix(nfts, standard, n, t.tokenId);
      if Lists(nfts[k], standard, t.tokenId) {
        var row := Row(nfts[k].id, t);
        TokensOfConcat(Unwind(t, prefix, standard), [row], standard, isReceived, n, a);
        assert TokensOf([row], standard, isReceived, n, a) ==
               if Keyed(row, standard, isReceived, n, a) then [t.tokenId] else [];
      }
    }
  }

  lemma ListedPrefix(nfts: seq<Nft>, standard: TokenStandard, n: NftId, tokenId: TokenId)
    requires nfts != [] && DistinctIds(nfts)
    ensures var k := |nfts| - 1;
            && (Listed(nfts, standard, n, tokenId) <==>
                Listed(nfts[..k], standard, n, tokenId) || (nfts[k].id == n && Lists(nfts[k], standard, tokenId)))
            && !(Listed(nfts[..k], standard, n, tokenId) && nfts[k].id == n)
  {
    var k := |nfts| - 1;
    if Listed(nfts[..k], standard, n, tokenId) {
      var i :| 0 <= i < k && IsListing(nfts[..k][i], standard, n, tokenId);
      assert IsListing(nfts[i], standard, n, tokenId);
    }
    if i :| 0 <= i < |nfts| && IsListing(nfts[i], standard, n, tokenId) {
      assert i < k ==> IsListing(nfts[..k][i], standard, n, tokenId);
    }
  }

  /** A group lists a token as often as the address received (or sent) it, if the NFT lists the token. */
  lemma {:induction false} TokensCounted(
    log: seq<Transfer>, nfts: seq<Nft>, standard: TokenStandard, isReceived: bool,
    n: NftId, a: Address, tokenId: TokenId)
    requires DistinctIds(nfts)
    ensures multiset(TokensOf(Rows(log, nfts, standard), standard, isReceived, n, a))[tokenId] ==
            if Listed(nfts, standard, n, tokenId) && a != ZERO_ADDRESS
            then Count(log, standard, isReceived, tokenId, a) else 0
  {
    if log != [] {
      var prefix, t := log[..|log| - 1], log[|log| - 1];
      TokensCounted(prefix, nfts, standard, isReceived, n, a, tokenId);
      TokensOfConcat(Rows(prefix, nfts, standard), Unwind(t, nfts, standard), standard, isReceived, n, a);
      TokensOfUnwind(t, nfts, standard, isReceived, n, a);
    }
  }
}
