/** What the order in which the transfer log is stored can change in the rebuilt owners. */
module StorageOrder {
  import opened Addresses
  import opened OwnerReconstruction
  import opened OwnershipReplay
  import opened TransferLog
  import opened Wrappers

  /** The recipient of the last stored mint of a token. */
  function LastMint(log: seq<Transfer>, tokenId: TokenId): Option<Address> {
    MintedAddress(MintedAddresses(log), tokenId)
  }

  lemma ReceiptsPermuted(log: seq<Transfer>, stored: seq<Transfer>, nfts: seq<Nft>, n: NftId)
    requires DistinctIds(nfts) && multiset(log) == multiset(stored)
    requires HasReceipt(Rows(log, nfts, ERC_721), ERC_721, n)
    ensures HasReceipt(Rows(stored, nfts, ERC_721), ERC_721, n)
  {
    ReceiptInLog(log, nfts, ERC_721, n);
    ReceiptInLog(stored, nfts, ERC_721, n);
    var tokenId, a :|
      a != ZERO_ADDRESS && Listed(nfts, ERC_721, n, tokenId) && Count(log, ERC_721, true, tokenId, a) > 0;
    CountPermuted(log, stored, ERC_721, true, tokenId, a);
  }

  lemma ExpectedPermuted(
    log: seq<Transfer>, stored: seq<Transfer>, nfts: seq<Nft>, minted: map<TokenId, Address>,
    users: map<Address, Role>, n: NftId, o: Owner)
    requires DistinctIds(nfts) && multiset(log) == multiset(stored)
    ensures Expected(Rows(log, nfts, ERC_721), ERC_721, minted, users, n, o) ==
            Expected(Rows(stored, nfts, ERC_721), ERC_721, minted, users, n, o)
  {
    forall isReceived: bool
      ensures multiset(TokensOf(Rows(log, nfts, ERC_721), ERC_721, isReceived, n, o.address))[o.tokenId] ==
              multiset(TokensOf(Rows(stored, nfts, ERC_721), ERC_721, isReceived, n, o.address))[o.tokenId]
    {
      TokensCounted(log, nfts, ERC_721, isReceived, n, o.address, o.tokenId);
      TokensCounted(stored, nfts, ERC_721, isReceived, n, o.address, o.tokenId);
      CountPermuted(log, stored, ERC_721, isReceived, o.tokenId, o.address);
    }
    var sent: seq<nat> := TokensOf(Rows(log, nfts, ERC_721), ERC_721, false, n, o.address);
    var sent': seq<nat> := TokensOf(Rows(stored, nfts, ERC_721), ERC_721, false, n, o.address);
    assert o.tokenId in sent <==> multiset(sent)[o.tokenId] > 0;
    assert o.tokenId in sent' <==> multiset(sent')[o.tokenId] > 0;
  }

  /** Minted addresses with the same entry for a token make the same owners of it. */
  lemma ExpectedReminted(
    rows: seq<Row>, minted: map<TokenId, Address>, minted': map<TokenId, Address>, users: map<Address, Role>,
    n: NftId, o: Owner)
    requires MintedAddress(minted, o.tokenId) == MintedAddress(minted', o.tokenId)
    ensures Expected(rows, ERC_721, minted, users, n, o) == Expected(rows, ERC_721, minted', users, n, o)
  {
  }

  /** What is emitted for a token carries its last mint, and with other mints the token would be emitted as well. */
  lemma ExpectedCarries(
    rows: seq<Row>, minted: map<TokenId, Address>, minted': map<TokenId, Address>, users: map<Address, Role>,
    n: NftId, o: Owner)
    requires Expected(rows, ERC_721, minted, users, n, o) > 0
    ensures o.mintedAddress == MintedAddress(minted, o.tokenId)
    ensures Expected(rows, ERC_721, minted', users, n, MakeOwner(minted', users, o.address, o.tokenId)) > 0
  {
  }

  /** Every token among the owners has the same last mint under both orders. */
  ghost predicate SameMints(owners: seq<Owner>, log: seq<Transfer>, stored: seq<Transfer>) {
    forall i :: 0 <= i < |owners| ==> LastMint(log, owners[i].tokenId) == LastMint(stored, owners[i].tokenId)
  }

  /**
   On any log, well-formed or not, and for any two orders of storage: the same NFTs have an entry, and
   the owners of an NFT are the same up to order exactly when every token emitted for it has the same
   last mint under both orders.
   */
  lemma SameOwnersExactly(
    result: map<NftId, seq<Owner>>, result': map<NftId, seq<Owner>>, log: seq<Transfer>, stored: seq<Transfer>,
    nfts: seq<Nft>, users: map<Address, Role>)
    requires Rebuilt(result, log, log, nfts, users) && Rebuilt(result', log, stored, nfts, users)
    ensures result.Keys == result'.Keys
    ensures forall n :: n in result ==>
              (multiset(result[n]) == multiset(result'[n]) <==> SameMints(result[n], log, stored))
  {
    SameEntries(result, result', log, stored, nfts, users);
    forall n | n in result
      ensures multiset(result[n]) == multiset(result'[n]) <==> SameMints(result[n], log, stored)
    {
      if SameMints(result[n], log, stored) {
        SameMintsSameOwners(result, result', log, stored, nfts, users, n);
      }
      if multiset(result[n]) == multiset(result'[n]) {
        SameOwnersSameMints(result, result', log, stored, nfts, users, n);
      }
    }
  }

  lemma SameEntries(
    result: map<NftId, seq<Owner>>, result': map<NftId, seq<Owner>>, log: seq<Transfer>, stored: seq<Transfer>,
    nfts: seq<Nft>, users: map<Address, Role>)
    requires Rebuilt(result, log, log, nfts, users) && Rebuilt(result', log, stored, nfts, users)
    ensures result.Keys == result'.Keys
  {
    forall n: NftId ensures n in result <==> n in result' {
      if HasReceipt(Rows(log, nfts, ERC_721), ERC_721, n) {
        ReceiptsPermuted(log, stored, nfts, n);
      }
      if HasReceipt(Rows(stored, nfts, ERC_721), ERC_721, n) {
        ReceiptsPermuted(stored, log, nfts, n);
      }
    }
  }

  lemma SameMintsSameOwners(
    result: map<NftId, seq<Owner>>, result': map<NftId, seq<Owner>>, log: seq<Transfer>, stored: seq<Transfer>,
    nfts: seq<Nft>, users: map<Address, Role>, n: NftId)
    requires Rebuilt(result, log, log, nfts, users) && Rebuilt(result', log, stored, nfts, users)
    requires n in result && n in result' && SameMints(result[n], log, stored)
    ensures multiset(result[n]) == multiset(result'[n])
  {
    var rows, rows' := Rows(log, nfts, ERC_721), Rows(stored, nfts, ERC_721);
    var minted, minted' := MintedAddresses(log), MintedAddresses(stored);
    forall o: Owner ensures multiset(result[n])[o] == multiset(result'[n])[o] {
      ExpectedPermuted(log, stored, nfts, minted', users, n, o);
      if Expected(rows, ERC_721, minted, users, n, o) > 0 {
        EmittedTokenSameMint(result[n], log, stored, o);
        ExpectedReminted(rows, minted, minted', users, n, o);
      } else if Expected(rows, ERC_721, minted', users, n, o) > 0 {
        ExpectedCarries(rows, minted', minted, users, n, o);
        var made := MakeOwner(minted, users, o.address, o.tokenId);
        EmittedTokenSameMint(result[n], log, stored, made);
        ExpectedReminted(rows, minted, minted', users, n, o);
      }
    }
  }

  lemma EmittedTokenSameMint(owners: seq<Owner>, log: seq<Transfer>, stored: seq<Transfer>, o: Owner)
    requires SameMints(owners, log, stored) && multiset(owners)[o] > 0
    ensures LastMint(log, o.tokenId) == LastMint(stored, o.tokenId)
  {
    assert o in multiset(owners);
  }

  lemma SameOwnersSameMints(
    result: map<NftId, seq<Owner>>, result': map<NftId, seq<Owner>>, log: seq<Transfer>, stored: seq<Transfer>,
    nfts: seq<Nft>, users: map<Address, Role>, n: NftId)
    requires Rebuilt(result, log, log, nfts, users) && Rebuilt(result', log, stored, nfts, users)
    requires n in result && n in result' && multiset(result[n]) == multiset(result'[n])
    ensures SameMints(result[n], log, stored)
  {
    var rows, rows' := Rows(log, nfts, ERC_721), Rows(stored, nfts, ERC_721);
    var minted, minted' := MintedAddresses(log), MintedAddresses(stored);
    forall i | 0 <= i < |result[n]|
      ensures LastMint(log, result[n][i].tokenId) == LastMint(stored, result[n][i].tokenId)
    {
      var o := result[n][i];
      assert o in multiset(result[n]);
      ExpectedCarries(rows, minted, minted, users, n, o);
      ExpectedCarries(rows', minted', minted', users, n, o);
    }
  }

  // ---------------------------------------------------------------- when the last mint is fixed

  /** All mints of the token have the same recipient. */
  ghost predicate OneRecipient(log: seq<Transfer>, tokenId: TokenId) {
    forall i, j :: 0 <= i < |log| && 0 <= j < |log| && IsMint(log[i], tokenId) && IsMint(log[j], tokenId) ==>
      log[i].toAddress == log[j].toAddress
  }

  lemma OneRecipientFixes(log: seq<Transfer>, stored: seq<Transfer>, tokenId: TokenId)
    requires multiset(log) == multiset(stored) && OneRecipient(log, tokenId)
    ensures LastMint(log, tokenId) == LastMint(stored, tokenId)
  {
    MintedIsLastMint(log, tokenId);
    MintedIsLastMint(stored, tokenId);
    forall i | 0 <= i < |log| ensures exists j :: 0 <= j < |stored| && stored[j] == log[i] {
      assert log[i] in multiset(stored);
    }
    forall i | 0 <= i < |stored| ensures exists j :: 0 <= j < |log| && log[j] == stored[i] {
      assert stored[i] in multiset(log);
    }
  }

  /** Storing one mint of the token behind everything else makes it the last one. */
  lemma MintMovedLast(log: seq<Transfer>, tokenId: TokenId, i: nat) returns (stored: seq<Transfer>)
    requires i < |log| && IsMint(log[i], tokenId)
    ensures multiset(stored) == multiset(log) && LastMint(stored, tokenId) == Some(log[i].toAddress)
  {
    stored := log[..i] + log[i + 1..] + [log[i]];
    assert log == log[..i] + [log[i]] + log[i + 1..];
    assert stored[..|stored| - 1] == log[..i] + log[i + 1..];
  }

  /** The last mint of a token is the same for every order of storage exactly when its mints have one recipient. */
  lemma LastMintFixedExactly(log: seq<Transfer>, tokenId: TokenId)
    ensures (forall stored: seq<Transfer> :: multiset(stored) == multiset(log) ==>
               LastMint(stored, tokenId) == LastMint(log, tokenId))
        <==> OneRecipient(log, tokenId)
  {
    if OneRecipient(log, tokenId) {
      forall stored: seq<Transfer> | multiset(stored) == multiset(log)
        ensures LastMint(stored, tokenId) == LastMint(log, tokenId)
      {
        OneRecipientFixes(log, stored, tokenId);
      }
    }
    if forall stored: seq<Transfer> :: multiset(stored) == multiset(log) ==> LastMint(stored, tokenId) == LastMint(log, tokenId) {
      forall i | 0 <= i < |log| && IsMint(log[i], tokenId)
        ensures LastMint(log, tokenId) == Some(log[i].toAddress)
      {
        var stored := MintMovedLast(log, tokenId, i);
      }
    }
  }

  lemma WellFormedOneRecipient(log: seq<Transfer>, tokenId: TokenId)
    requires WellFormed(log, tokenId)
    ensures OneRecipient(log, tokenId)
  {
    forall i, j | 0 <= i < |log| && 0 <= j < |log| && IsMint(log[i], tokenId) && IsMint(log[j], tokenId)
      ensures i == j
    {
      MintUnique(log, tokenId, if i < j then i else j, if i < j then j else i);
    }
  }

  // ---------------------------------------------------------------- all orders at once

  /** `a` received the token and never sent it. */
  ghost predicate Keeps(log: seq<Transfer>, tokenId: TokenId, a: Address) {
    && a != ZERO_ADDRESS
    && Count(log, ERC_721, true, tokenId, a) > 0
    && Count(log, ERC_721, false, tokenId, a) == 0
  }

  /** Each token of the NFT that somebody keeps was only ever minted to one recipient. */
  ghost predicate KeptTokensMintedToOne(log: seq<Transfer>, nfts: seq<Nft>, n: NftId) {
    forall tokenId, a :: Listed(nfts, ERC_721, n, tokenId) && Keeps(log, tokenId, a) ==> OneRecipient(log, tokenId)
  }

  /** How many copies of `o` the reconstruction puts under `n` when the log is stored as `stored`. */
  ghost function ExpectedIn(
    stored: seq<Transfer>, nfts: seq<Nft>, users: map<Address, Role>, n: NftId, o: Owner): nat
  {
    Expected(Rows(stored, nfts, ERC_721), ERC_721, MintedAddresses(stored), users, n, o)
  }

  lemma ExpectedIsKept(
    log: seq<Transfer>, nfts: seq<Nft>, minted: map<TokenId, Address>, users: map<Address, Role>, n: NftId, o: Owner)
    requires DistinctIds(nfts)
    ensures Expected(Rows(log, nfts, ERC_721), ERC_721, minted, users, n, o) ==
            if && Listed(nfts, ERC_721, n, o.tokenId)
               && Keeps(log, o.tokenId, o.address)
               && o == MakeOwner(minted, users, o.address, o.tokenId)
            then Count(log, ERC_721, true, o.tokenId, o.address) else 0
  {
    TokensCounted(log, nfts, ERC_721, true, n, o.address, o.tokenId);
    TokensCounted(log, nfts, ERC_721, false, n, o.address, o.tokenId);
    var sent: seq<nat> := TokensOf(Rows(log, nfts, ERC_721), ERC_721, false, n, o.address);
    assert o.tokenId in sent <==> multiset(sent)[o.tokenId] > 0;
  }

  lemma SameInOrder(
    log: seq<Transfer>, stored: seq<Transfer>, nfts: seq<Nft>, users: map<Address, Role>, n: NftId, o: Owner)
    requires DistinctIds(nfts) && multiset(stored) == multiset(log) && KeptTokensMintedToOne(log, nfts, n)
    ensures ExpectedIn(log, nfts, users, n, o) == ExpectedIn(stored, nfts, users, n, o)
  {
    ExpectedPermuted(log, stored, nfts, MintedAddresses(stored), users, n, o);
    ExpectedIsKept(log, nfts, MintedAddresses(log), users, n, o);
    ExpectedIsKept(log, nfts, MintedAddresses(stored), users, n, o);
    if Listed(nfts, ERC_721, n, o.tokenId) && Keeps(log, o.tokenId, o.address) {
      OneRecipientFixes(log, stored, o.tokenId);
      ExpectedReminted(Rows(log, nfts, ERC_721), MintedAddresses(log), MintedAddresses(stored), users, n, o);
    }
  }

  lemma KeptTokenSameMint(
    log: seq<Transfer>, stored: seq<Transfer>, nfts: seq<Nft>, users: map<Address, Role>, n: NftId,
    tokenId: TokenId, a: Address)
    requires DistinctIds(nfts) && multiset(stored) == multiset(log)
    requires Listed(nfts, ERC_721, n, tokenId) && Keeps(log, tokenId, a)
    requires forall o :: ExpectedIn(log, nfts, users, n, o) == ExpectedIn(stored, nfts, users, n, o)
    ensures LastMint(stored, tokenId) == LastMint(log, tokenId)
  {
    var made := MakeOwner(MintedAddresses(log), users, a, tokenId);
    ExpectedIsKept(log, nfts, MintedAddresses(log), users, n, made);
    assert ExpectedIn(stored, nfts, users, n, made) > 0;
    ExpectedIsKept(stored, nfts, MintedAddresses(stored), users, n, made);
  }

  /**
   On any log: the owners of an NFT are the same multiset in every order of storage if and only if each
   token it lists that somebody received and never sent was only ever minted to one recipient.
   */
  lemma OrderIrrelevantExactly(log: seq<Transfer>, nfts: seq<Nft>, users: map<Address, Role>, n: NftId)
    requires DistinctIds(nfts)
    ensures (forall stored: seq<Transfer>, o: Owner :: multiset(stored) == multiset(log) ==>
               ExpectedIn(log, nfts, users, n, o) == ExpectedIn(stored, nfts, users, n, o))
        <==> KeptTokensMintedToOne(log, nfts, n)
  {
    if KeptTokensMintedToOne(log, nfts, n) {
      forall stored: seq<Transfer>, o: Owner | multiset(stored) == multiset(log)
        ensures ExpectedIn(log, nfts, users, n, o) == ExpectedIn(stored, nfts, users, n, o)
      {
        SameInOrder(log, stored, nfts, users, n, o);
      }
    }
    if forall stored: seq<Transfer>, o: Owner :: multiset(stored) == multiset(log) ==>
         ExpectedIn(log, nfts, users, n, o) == ExpectedIn(stored, nfts, users, n, o)
    {
      forall tokenId, a | Listed(nfts, ERC_721, n, tokenId) && Keeps(log, tokenId, a)
        ensures OneRecipient(log, tokenId)
      {
        forall stored: seq<Transfer> | multiset(stored) == multiset(log)
          ensures LastMint(stored, tokenId) == LastMint(log, tokenId)
        {
          KeptTokenSameMint(log, stored, nfts, users, n, tokenId, a);
        }
        LastMintFixedExactly(log, tokenId);
      }
    }
  }

  /** The same of the lists themselves, for any two runs of the reconstruction. */
  lemma RebuiltOrderIrrelevant(
    result: map<NftId, seq<Owner>>, result': map<NftId, seq<Owner>>, log: seq<Transfer>, stored: seq<Transfer>,
    nfts: seq<Nft>, users: map<Address, Role>, n: NftId)
    requires Rebuilt(result, log, log, nfts, users) && Rebuilt(result', log, stored, nfts, users)
    requires n in result && KeptTokensMintedToOne(log, nfts, n)
    ensures n in result' && multiset(result[n]) == multiset(result'[n])
  {
    SameEntries(result, result', log, stored, nfts, users);
    forall o: Owner ensures multiset(result[n])[o] == multiset(result'[n])[o] {
      SameInOrder(log, stored, nfts, users, n, o);
    }
  }

  /** On a well-formed history the owners of every NFT are the same up to order for every order of storage. */
  lemma StorageOrderIrrelevant(
    result: map<NftId, seq<Owner>>, result': map<NftId, seq<Owner>>, log: seq<Transfer>, stored: seq<Transfer>,
    nfts: seq<Nft>, users: map<Address, Role>)
    requires Rebuilt(result, log, log, nfts, users) && Rebuilt(result', log, stored, nfts, users)
    requires forall tokenId :: WellFormed(log, tokenId)
    ensures result.Keys == result'.Keys
    ensures forall n :: n in result ==> multiset(result[n]) == multiset(result'[n])
  {
    SameEntries(result, result', log, stored, nfts, users);
    forall n | n in result ensures multiset(result[n]) == multiset(result'[n]) {
      forall tokenId: TokenId ensures OneRecipient(log, tokenId) {
        WellFormedOneRecipient(log, tokenId);
      }
      RebuiltOrderIrrelevant(result, result', log, stored, nfts, users, n);
    }
  }

  // ---------------------------------------------------------------- where it matters

  const MINT_1: Transfer := Transfer(ERC_721, ZERO_ADDRESS, Account(1), 5, 1)
  const MINT_2: Transfer := Transfer(ERC_721, ZERO_ADDRESS, Account(2), 5, 1)

  /** A token minted twice: the owners rebuilt from the two orders of storage differ. */
  method RebuildDoubleMint(users: map<Address, Role>)
    returns (result: map<NftId, seq<Owner>>, result': map<NftId, seq<Owner>>)
    ensures Rebuilt(result, [MINT_1, MINT_2], [MINT_1, MINT_2], ONE_NFT, users)
    ensures Rebuilt(result', [MINT_1, MINT_2], [MINT_2, MINT_1], ONE_NFT, users)
    ensures 9 in result && 9 in result' && multiset(result[9]) != multiset(result'[9])
  {
    result := GetOwnerFromTransactionTransfer(ERC_721, [MINT_1, MINT_2], ONE_NFT, users);
    result' := GetOwnerFromTransactionTransfer(ERC_721, [MINT_2, MINT_1], ONE_NFT, users);
    DoubleMintDiffers(result, result', users);
  }

  lemma DoubleMintDiffers(
    result: map<NftId, seq<Owner>>, result': map<NftId, seq<Owner>>, users: map<Address, Role>)
    requires Rebuilt(result, [MINT_1, MINT_2], [MINT_1, MINT_2], ONE_NFT, users)
    requires Rebuilt(result', [MINT_1, MINT_2], [MINT_2, MINT_1], ONE_NFT, users)
    ensures 9 in result && 9 in result' && multiset(result[9]) != multiset(result'[9])
  {
    var log, stored := [MINT_1, MINT_2], [MINT_2, MINT_1];
    SameOwnersExactly(result, result', log, stored, ONE_NFT, users);
    DoubleMintOrders();
    ReceivedOnce(log, ONE_NFT, 9, 5, Account(1), 0);
    var made := MakeOwner(MintedAddresses(log), users, Account(1), 5);
    CountedOnce(log, ERC_721, true, 5, Account(1), 0);
    ExpectedIsKept(log, ONE_NFT, MintedAddresses(log), users, 9, made);
    assert made in multiset(result[9]);
    if SameMints(result[9], log, stored) {
      EmittedTokenSameMint(result[9], log, stored, made);
    }
  }

  lemma DoubleMintOrders()
    ensures LastMint([MINT_1, MINT_2], 5) == Some(Account(2))
    ensures LastMint([MINT_2, MINT_1], 5) == Some(Account(1))
    ensures Count([MINT_1, MINT_2], ERC_721, false, 5, Account(1)) == 0
  {
    assert [MINT_1, MINT_2][..1] == [MINT_1] && [MINT_2, MINT_1][..1] == [MINT_2];
    assert Count([MINT_1], ERC_721, false, 5, Account(1)) == 0;
  }
}
