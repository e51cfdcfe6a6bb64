/**
 getOwnerFromTransactionTranfer: the owners of every NFT, rebuilt from two aggregates of the
 transfer log (received and sent) that remember neither order nor pairing.
 */
module OwnerReconstruction {
  import opened Addresses
  import opened TransferLog
  import opened Wrappers
  import ReferralForest

  type Role = ReferralForest.Role

  datatype Owner = Owner(
    tokenId: TokenId,
    address: Address,
    isAddressAdmin: bool,
    mintedAddress: Option<Address>,
    isMintedAddressAdmin: bool
  )

  predicate IsAdmin(users: map<Address, Role>, a: Address) {
    a in users && (users[a] == ReferralForest.ADMIN || users[a] == ReferralForest.SUPER_ADMIN)
  }

  /** getMintedAddress turned into a `Map`: a later mint of the same token overrides an earlier one. */
  function MintedAddresses(log: seq<Transfer>): map<TokenId, Address> {
    if log == [] then map[]
    else
      var rest := MintedAddresses(log[..|log| - 1]);
      var t := log[|log| - 1];
      if t.standard == ERC_721 && t.fromAddress == ZERO_ADDRESS then rest[t.tokenId := t.toAddress] else rest
  }

  function MintedAddress(minted: map<TokenId, Address>, tokenId: TokenId): Option<Address> {
    if tokenId in minted then Some(minted[tokenId]) else None
  }

  function MakeOwner(
    minted: map<TokenId, Address>, users: map<Address, Role>, address: Address, tokenId: TokenId): Owner
  {
    var mintedAddress := MintedAddress(minted, tokenId);
    Owner(tokenId, address, IsAdmin(users, address), mintedAddress,
          mintedAddress.Some? && IsAdmin(users, mintedAddress.value))
  }

  // ---------------------------------------------------------------- the pieces of the loop

  /** `new Map(groups.map(...))`. */
  function ByKey(groups: seq<Group>): map<(NftId, Address), Group> {
    if groups == [] then map[]
    else
      var g := groups[|groups| - 1];
      ByKey(groups[..|groups| - 1])[(g.nftId, g.address) := g]
  }

  /** `tokenIds.filter(id => !sent.includes(id))`. */
  function Without(tokenIds: seq<TokenId>, sent: seq<TokenId>): seq<TokenId> {
    if tokenIds == [] then []
    else
      var rest := Without(tokenIds[..|tokenIds| - 1], sent);
      var last := tokenIds[|tokenIds| - 1];
      if last in sent then rest else rest + [last]
  }

  function ToOwners(
    minted: map<TokenId, Address>, users: map<Address, Role>, address: Address, tokenIds: seq<TokenId>): seq<Owner>
  {
    seq(|tokenIds|, i requires 0 <= i < |tokenIds| => MakeOwner(minted, users, address, tokenIds[i]))
  }

  lemma {:induction false} ByKeyFinds(groups: seq<Group>, n: NftId, a: Address)
    requires DistinctKeys(groups)
    ensures (n, a) in ByKey(groups) <==> exists i :: 0 <= i < |groups| && HasKey(groups[i], n, a)
    ensures (n, a) in ByKey(groups) ==> ByKey(groups)[(n, a)] in groups && HasKey(ByKey(groups)[(n, a)], n, a)
  {
    if groups != [] {
      var k := |groups| - 1;
      ByKeyFinds(groups[..k], n, a);
      if i :| 0 <= i < |groups| && HasKey(groups[i], n, a) {
        assert i < k ==> HasKey(groups[..k][i], n, a);
      }
      if i :| 0 <= i < k && HasKey(groups[..k][i], n, a) {
        assert HasKey(groups[i], n, a);
      }
    }
  }

  lemma {:induction false} WithoutCounts(tokenIds: seq<TokenId>, sent: seq<TokenId>, tokenId: TokenId)
    ensures multiset(Without(tokenIds, sent))[tokenId] == if tokenId in sent then 0 else multiset(tokenIds)[tokenId]
  {
    if tokenIds != [] {
      var k := |tokenIds| - 1;
      WithoutCounts(tokenIds[..k], sent, tokenId);
      var kept := Without(tokenIds[..k], sent);
      assert tokenIds == tokenIds[..k] + [tokenIds[k]];
      assert multiset(tokenIds) == multiset(tokenIds[..k]) + multiset{tokenIds[k]};
      assert multiset(kept + [tokenIds[k]]) == multiset(kept) + multiset{tokenIds[k]};
    }
  }

  lemma {:induction false} ToOwnersCounts(
    minted: map<TokenId, Address>, users: map<Address, Role>, address: Address, tokenIds: seq<TokenId>, o: Owner)
    ensures multiset(ToOwners(minted, users, address, tokenIds))[o] ==
            if o == MakeOwner(minted, users, address, o.tokenId) then multiset(tokenIds)[o.tokenId] else 0
  {
    var all := ToOwners(minted, users, address, tokenIds);
    if tokenIds != [] {
      var k := |tokenIds| - 1;
      ToOwnersCounts(minted, users, address, tokenIds[..k], o);
      assert tokenIds == tokenIds[..k] + [tokenIds[k]];
      assert all == ToOwners(minted, users, address, tokenIds[..k]) + [MakeOwner(minted, users, address, tokenIds[k])];
    }
  }

  // ---------------------------------------------------------------- specification

  /** How many copies of `o` the owners of NFT `n` hold: receipts by an address that never sent the token. */
  ghost function Expected(
    rows: seq<Row>, standard: TokenStandard, minted: map<TokenId, Address>, users: map<Address, Role>,
    n: NftId, o: Owner): nat
  {
    if standard == ERC_721
       && o == MakeOwner(minted, users, o.address, o.tokenId)
       && o.tokenId !in TokensOf(rows, standard, false, n, o.address)
    then multiset(TokensOf(rows, standard, true, n, o.address))[o.tokenId]
    else 0
  }

  ghost predicate HasReceipt(rows: seq<Row>, standard: TokenStandard, n: NftId) {
    exists a :: TokensOf(rows, standard, true, n, a) != []
  }

  /** Every NFT with a receipt has an entry, and the entry is the expected one up to order. */
  ghost predicate Reconstructs(
    result: map<NftId, seq<Owner>>, rows: seq<Row>, standard: TokenStandard,
    minted: map<TokenId, Address>, users: map<Address, Role>)
  {
    && (forall n: NftId :: n in result <==> HasReceipt(rows, standard, n))
    && (forall n: NftId, o: Owner :: n in result ==> multiset(result[n])[o] == Expected(rows, standard, minted, users, n, o))
  }

  lemma EmittedOnce(
    result: map<NftId, seq<Owner>>, rows: seq<Row>, standard: TokenStandard,
    minted: map<TokenId, Address>, users: map<Address, Role>, n: NftId, i: nat)
    requires Reconstructs(result, rows, standard, minted, users) && n in result && i < |result[n]|
    ensures Expected(rows, standard, minted, users, n, result[n][i]) > 0
  {
    assert result[n][i] in multiset(result[n]);
  }

  /** The flags say which addresses are administrators, and the minted address is the one looked up. */
  ghost predicate Labelled(
    result: map<NftId, seq<Owner>>, minted: map<TokenId, Address>, users: map<Address, Role>)
  {
    forall n, i :: n in result && 0 <= i < |result[n]| ==>
      var o := result[n][i];
      && (o.isAddressAdmin <==>
            o.address in users && (users[o.address] == ReferralForest.ADMIN || users[o.address] == ReferralForest.SUPER_ADMIN))
      && (o.isMintedAddressAdmin <==>
            && o.tokenId in minted
            && minted[o.tokenId] in users
            && (users[minted[o.tokenId]] == ReferralForest.ADMIN || users[minted[o.tokenId]] == ReferralForest.SUPER_ADMIN))
      && (o.mintedAddress.Some? <==> o.tokenId in minted)
      && (o.tokenId in minted ==> o.mintedAddress == Some(minted[o.tokenId]))
  }

  lemma ReconstructsLabelled(
    result: map<NftId, seq<Owner>>, rows: seq<Row>, standard: TokenStandard,
    minted: map<TokenId, Address>, users: map<Address, Role>)
    requires Reconstructs(result, rows, standard, minted, users)
    ensures Labelled(result, minted, users)
    ensures standard == ERC_1155 ==> forall n :: n in result ==> result[n] == []
  {
    forall n, i | n in result && 0 <= i < |result[n]|
      ensures standard == ERC_721
      ensures result[n][i] == MakeOwner(minted, users, result[n][i].address, result[n][i].tokenId)
    {
      EmittedOnce(result, rows, standard, minted, users, n, i);
    }
    forall n | n in result ensures result[n] != [] ==> standard == ERC_721 {
      if result[n] != [] {
        EmittedOnce(result, rows, standard, minted, users, n, 0);
      }
    }
  }

  ghost predicate SomebodyReceived(log: seq<Transfer>, nfts: seq<Nft>, standard: TokenStandard, n: NftId) {
    exists tokenId, a ::
      a != ZERO_ADDRESS && Listed(nfts, standard, n, tokenId) && Count(log, standard, true, tokenId, a) > 0
  }

  /** An NFT has an entry exactly when somebody received a token that it lists. */
  lemma ReceiptInLog(log: seq<Transfer>, nfts: seq<Nft>, standard: TokenStandard, n: NftId)
    requires DistinctIds(nfts)
    ensures HasReceipt(Rows(log, nfts, standard), standard, n) <==> SomebodyReceived(log, nfts, standard, n)
  {
    if a :| TokensOf(Rows(log, nfts, standard), standard, true, n, a) != [] {
      var tokens: seq<nat> := TokensOf(Rows(log, nfts, standard), standard, true, n, a);
      assert multiset(tokens)[tokens[0]] > 0;
      TokensCounted(log, nfts, standard, true, n, a, tokens[0]);
    }
    if tokenId, a :|
      a != ZERO_ADDRESS && Listed(nfts, standard, n, tokenId) && Count(log, standard, true, tokenId, a) > 0
    {
      TokensCounted(log, nfts, standard, true, n, a, tokenId);
      assert TokensOf(Rows(log, nfts, standard), standard, true, n, a) != [];
    }
  }

  /** The group of key (n, o.address) is among the first `k`. */
  ghost predicate Seen(groups: seq<Group>, k: int, n: NftId, a: Address) {
    exists i :: 0 <= i < k <= |groups| && HasKey(groups[i], n, a)
  }

  lemma SeenNext(groups: seq<Group>, k: int, n: NftId, a: Address)
    requires 0 <= k < |groups| && DistinctKeys(groups)
    ensures Seen(groups, k + 1, n, a) <==> Seen(groups, k, n, a) || HasKey(groups[k], n, a)
    ensures !(Seen(groups, k, n, a) && HasKey(groups[k], n, a))
  {
    if i :| 0 <= i < k && HasKey(groups[i], n, a) {
      assert !HasKey(groups[i], groups[k].nftId, groups[k].address);
    }
    if i :| 0 <= i < k + 1 && HasKey(groups[i], n, a) {
      assert i < k || i == k;
    }
  }

  /** What one group contributes. */
  lemma GroupContributes(
    rows: seq<Row>, sends: seq<Group>, g: Group, tokenIds: seq<TokenId>,
    minted: map<TokenId, Address>, users: map<Address, Role>, o: Owner)
    requires IsGrouping(sends, rows, ERC_721, false) && Faithful(g, rows, ERC_721, true)
    requires tokenIds ==
             if (g.nftId, g.address) in ByKey(sends)
             then Without(g.tokenIds, ByKey(sends)[(g.nftId, g.address)].tokenIds) else g.tokenIds
    ensures multiset(ToOwners(minted, users, g.address, tokenIds))[o] ==
            if o.address == g.address then Expected(rows, ERC_721, minted, users, g.nftId, o) else 0
  {
    SentLookup(rows, ERC_721, g.nftId, g.address, sends);
    ToOwnersCounts(minted, users, g.address, tokenIds, o);
    if (g.nftId, g.address) in ByKey(sends) {
      WithoutCounts(g.tokenIds, ByKey(sends)[(g.nftId, g.address)].tokenIds, o.tokenId);
    }
  }

  /** The owners after the first `k` groups. */
  ghost predicate Progress(
    result: map<NftId, seq<Owner>>, groups: seq<Group>, k: int, rows: seq<Row>, standard: TokenStandard,
    minted: map<TokenId, Address>, users: map<Address, Role>)
  {
    && 0 <= k <= |groups|
    && (forall n: NftId :: n in result <==> exists i :: 0 <= i < k && groups[i].nftId == n)
    && (forall n: NftId, o: Owner :: n in result ==>
          multiset(result[n])[o] == Due(groups, k, rows, standard, minted, users, n, o))
  }

  ghost function Due(
    groups: seq<Group>, k: int, rows: seq<Row>, standard: TokenStandard,
    minted: map<TokenId, Address>, users: map<Address, Role>, n: NftId, o: Owner): nat
  {
    if Seen(groups, k, n, o.address) then Expected(rows, standard, minted, users, n, o) else 0
  }

  ghost predicate Adds(
    added: seq<Owner>, g: Group, rows: seq<Row>, standard: TokenStandard,
    minted: map<TokenId, Address>, users: map<Address, Role>)
  {
    forall o: Owner ::
      multiset(added)[o] ==
      if o.address == g.address then Expected(rows, standard, minted, users, g.nftId, o) else 0
  }

  lemma GroupAdds(
    rows: seq<Row>, sends: seq<Group>, g: Group, tokenIds: seq<TokenId>,
    minted: map<TokenId, Address>, users: map<Address, Role>)
    requires IsGrouping(sends, rows, ERC_721, false) && Faithful(g, rows, ERC_721, true)
    requires tokenIds ==
             if (g.nftId, g.address) in ByKey(sends)
             then Without(g.tokenIds, ByKey(sends)[(g.nftId, g.address)].tokenIds) else g.tokenIds
    ensures Adds(ToOwners(minted, users, g.address, tokenIds), g, rows, ERC_721, minted, users)
  {
    forall o: Owner
      ensures multiset(ToOwners(minted, users, g.address, tokenIds))[o] ==
              if o.address == g.address then Expected(rows, ERC_721, minted, users, g.nftId, o) else 0
    {
      GroupContributes(rows, sends, g, tokenIds, minted, users, o);
    }
  }

  lemma DueNext(
    groups: seq<Group>, k: nat, rows: seq<Row>, standard: TokenStandard,
    minted: map<TokenId, Address>, users: map<Address, Role>, n: NftId, o: Owner)
    requires k < |groups| && DistinctKeys(groups)
    ensures Due(groups, k + 1, rows, standard, minted, users, n, o) ==
            Due(groups, k, rows, standard, minted, users, n, o) +
            if HasKey(groups[k], n, o.address) then Expected(rows, standard, minted, users, n, o) else 0
  {
    SeenNext(groups, k, n, o.address);
  }

  lemma ProgressStep(
    result: map<NftId, seq<Owner>>, groups: seq<Group>, k: nat, rows: seq<Row>, standard: TokenStandard,
    minted: map<TokenId, Address>, users: map<Address, Role>,
    before: seq<Owner>, added: seq<Owner>, result': map<NftId, seq<Owner>>)
    requires Progress(result, groups, k, rows, standard, minted, users)
    requires k < |groups| && DistinctKeys(groups) && Adds(added, groups[k], rows, standard, minted, users)
    requires before == if groups[k].nftId in result then result[groups[k].nftId] else []
    requires result' == result[groups[k].nftId := before + added]
    ensures Progress(result', groups, k + 1, rows, standard, minted, users)
  {
    var m := groups[k].nftId;
    forall n: NftId ensures n in result' <==> exists i :: 0 <= i < k + 1 && groups[i].nftId == n {
      if i :| 0 <= i < k + 1 && groups[i].nftId == n {
        assert i < k || i == k;
      }
    }
    forall n: NftId, o: Owner | n in result'
      ensures multiset(result'[n])[o] == Due(groups, k + 1, rows, standard, minted, users, n, o)
    {
      DueNext(groups, k, rows, standard, minted, users, n, o);
      if n == m {
        assert multiset(before + added)[o] == multiset(before)[o] + multiset(added)[o];
        if n !in result {
          assert !Seen(groups, k, n, o.address);
        }
      }
    }
  }

  lemma ProgressDone(
    result: map<NftId, seq<Owner>>, groups: seq<Group>, rows: seq<Row>, standard: TokenStandard,
    minted: map<TokenId, Address>, users: map<Address, Role>)
    requires Progress(result, groups, |groups|, rows, standard, minted, users)
    requires IsGrouping(groups, rows, standard, true)
    ensures Reconstructs(result, rows, standard, minted, users)
  {
    forall n: NftId ensures n in result <==> HasReceipt(rows, standard, n) {
      if n in result {
        var i :| 0 <= i < |groups| && groups[i].nftId == n;
        assert Faithful(groups[i], rows, standard, true);
        assert TokensOf(rows, standard, true, n, groups[i].address) != [];
      }
      if a :| TokensOf(rows, standard, true, n, a) != [] {
        var i :| 0 <= i < |groups| && HasKey(groups[i], n, a);
      }
    }
    forall n: NftId, o: Owner | n in result
      ensures multiset(result[n])[o] == Expected(rows, standard, minted, users, n, o)
    {
      if !Seen(groups, |groups|, n, o.address) {
        assert TokensOf(rows, standard, true, n, o.address) == [];
      }
    }
  }

  /** The local `quantity` of each of the first `k` groups: received minus sent. */
  ghost predicate NetQuantities(
    quantities: map<(NftId, Address), int>, groups: seq<Group>, k: int, rows: seq<Row>, standard: TokenStandard)
  {
    && 0 <= k <= |groups|
    && forall n: NftId, a ::
         && ((n, a) in quantities <==> Seen(groups, k, n, a))
         && ((n, a) in quantities ==> quantities[(n, a)] == NetQuantity(rows, standard, n, a))
  }

  ghost function NetQuantity(rows: seq<Row>, standard: TokenStandard, n: NftId, a: Address): int {
    QuantityOf(rows, standard, true, n, a) - QuantityOf(rows, standard, false, n, a)
  }

  lemma NetQuantitiesStep(
    quantities: map<(NftId, Address), int>, groups: seq<Group>, k: nat, rows: seq<Row>, standard: TokenStandard,
    quantity: int)
    requires NetQuantities(quantities, groups, k, rows, standard) && k < |groups| && DistinctKeys(groups)
    requires quantity == NetQuantity(rows, standard, groups[k].nftId, groups[k].address)
    ensures NetQuantities(quantities[(groups[k].nftId, groups[k].address) := quantity], groups, k + 1, rows, standard)
  {
    forall n: NftId, a ensures Seen(groups, k + 1, n, a) <==> Seen(groups, k, n, a) || HasKey(groups[k], n, a) {
      SeenNext(groups, k, n, a);
    }
  }

  /** What a lookup among the groups of sent tokens yields. */
  lemma SentLookup(rows: seq<Row>, standard: TokenStandard, n: NftId, a: Address, sends: seq<Group>)
    requires IsGrouping(sends, rows, standard, false)
    ensures (n, a) in ByKey(sends) ==>
              && ByKey(sends)[(n, a)].tokenIds == TokensOf(rows, standard, false, n, a)
              && ByKey(sends)[(n, a)].quantity == QuantityOf(rows, standard, false, n, a)
    ensures (n, a) !in ByKey(sends) ==>
              TokensOf(rows, standard, false, n, a) == [] && QuantityOf(rows, standard, false, n, a) == 0
  {
    ByKeyFinds(sends, n, a);
    if (n, a) in ByKey(sends) {
      var i :| 0 <= i < |sends| && sends[i] == ByKey(sends)[(n, a)];
      assert Faithful(sends[i], rows, standard, false);
    } else {
      assert TokensOf(rows, standard, false, n, a) == [];
      NoTokensNoQuantity(rows, standard, false, n, a);
    }
  }

  lemma {:induction false} NoTokensNoQuantity(
    rows: seq<Row>, standard: TokenStandard, isReceived: bool, n: NftId, a: Address)
    requires TokensOf(rows, standard, isReceived, n, a) == []
    ensures QuantityOf(rows, standard, isReceived, n, a) == 0
  {
    if rows != [] {
      NoTokensNoQuantity(rows[..|rows| - 1], standard, isReceived, n, a);
    }
  }

  /** The body of the loop for one group: what is left of the received tokens, as owner records. */
  method CurrentOwners(
    standard: TokenStandard, tokenReceived: Group, tokenSends: seq<Group>,
    minted: map<TokenId, Address>, users: map<Address, Role>, ghost rows: seq<Row>)
    returns (owners: seq<Owner>, quantity: int)
    requires IsGrouping(tokenSends, rows, standard, false) && Faithful(tokenReceived, rows, standard, true)
    ensures Adds(owners, tokenReceived, rows, standard, minted, users)
    ensures standard == ERC_1155 ==>
              quantity == NetQuantity(rows, standard, tokenReceived.nftId, tokenReceived.address)
  {
    var key := (tokenReceived.nftId, tokenReceived.address);
    var tokenIds := tokenReceived.tokenIds;
    quantity := tokenReceived.quantity;
    var mapNftAddressToken := ByKey(tokenSends);
    SentLookup(rows, standard, tokenReceived.nftId, tokenReceived.address, tokenSends);
    if key in mapNftAddressToken {
      var tokenSend := mapNftAddressToken[key];
      if standard == ERC_721 {
        tokenIds := Without(tokenIds, tokenSend.tokenIds);
      } else {
        quantity := quantity - tokenSend.quantity;
      }
    }
    owners := [];
    if standard == ERC_721 {
      owners := ToOwners(minted, users, tokenReceived.address, tokenIds);
      GroupAdds(rows, tokenSends, tokenReceived, tokenIds, minted, users);
    }
  }

  /**
   The reconstruction loop, on any two groupings of the joined rows in any order. `quantities` records the
   local `quantity`, which the program computes for ERC-1155 but does not emit.
   */
  method GroupOwners(
    standard: TokenStandard, tokenSends: seq<Group>, tokenReceiveds: seq<Group>,
    minted: map<TokenId, Address>, users: map<Address, Role>, ghost rows: seq<Row>)
    returns (mapNftOwners: map<NftId, seq<Owner>>, ghost quantities: map<(NftId, Address), int>)
    requires IsGrouping(tokenSends, rows, standard, false)
    requires IsGrouping(tokenReceiveds, rows, standard, true)
    ensures Reconstructs(mapNftOwners, rows, standard, minted, users)
    ensures standard == ERC_1155 ==>
              NetQuantities(quantities, tokenReceiveds, |tokenReceiveds|, rows, standard)
  {
    mapNftOwners := map[];
    quantities := map[];
    for index := 0 to |tokenReceiveds|
      invariant Progress(mapNftOwners, tokenReceiveds, index, rows, standard, minted, users)
      invariant standard == ERC_1155 ==> NetQuantities(quantities, tokenReceiveds, index, rows, standard)
    {
      var tokenReceived := tokenReceiveds[index];
      assert Faithful(tokenReceived, rows, standard, true);
      var nftId := tokenReceived.nftId;
      var added, quantity := CurrentOwners(standard, tokenReceived, tokenSends, minted, users, rows);
      var owners := if nftId in mapNftOwners then mapNftOwners[nftId] else [];
      ghost var before := mapNftOwners;
      mapNftOwners := mapNftOwners[nftId := owners + added];
      ProgressStep(before, tokenReceiveds, index, rows, standard, minted, users, owners, added, mapNftOwners);
      if standard == ERC_1155 {
        NetQuantitiesStep(quantities, tokenReceiveds, index, rows, standard, quantity);
      }
      quantities := quantities[(nftId, tokenReceived.address) := quantity];
    }
    ProgressDone(mapNftOwners, tokenReceiveds, rows, standard, minted, users);
  }

  /** The whole reconstruction from the stored log. */
  method GetOwnerFromTransactionTransfer(
    standard: TokenStandard, log: seq<Transfer>, nfts: seq<Nft>, users: map<Address, Role>)
    returns (mapNftOwners: map<NftId, seq<Owner>>)
    ensures Reconstructs(mapNftOwners, Rows(log, nfts, standard), standard,
                         if standard == ERC_721 then MintedAddresses(log) else map[],
                         if standard == ERC_721 then users else map[])
    ensures standard == ERC_721 ==> Labelled(mapNftOwners, MintedAddresses(log), users)
    ensures standard == ERC_1155 ==> forall n :: n in mapNftOwners ==> mapNftOwners[n] == []
    ensures DistinctIds(nfts) ==>
              forall n: NftId :: n in mapNftOwners <==> SomebodyReceived(log, nfts, standard, n)
  {
    var tokenSends := GetTransferTokens(log, nfts, standard, false);
    var tokenReceiveds := GetTransferTokens(log, nfts, standard, true);
    PipelineGroups(log, nfts, standard, false);
    PipelineGroups(log, nfts, standard, true);
    var mapTokenMintedAddress := map[];
    var mapAddressRole := map[];
    if standard == ERC_721 {
      mapTokenMintedAddress := MintedAddresses(log);
      mapAddressRole := users;
    }
    ghost var quantities;
    mapNftOwners, quantities := GroupOwners(
      standard, tokenSends, tokenReceiveds, mapTokenMintedAddress, mapAddressRole, Rows(log, nfts, standard));
    ReconstructsLabelled(
      mapNftOwners, Rows(log, nfts, standard), standard, mapTokenMintedAddress, mapAddressRole);
    if DistinctIds(nfts) {
      forall n: NftId ensures n in mapNftOwners <==> SomebodyReceived(log, nfts, standard, n) {
        ReceiptInLog(log, nfts, standard, n);
      }
    }
  }
}
