/**
 Replaying the transfer log in order, the simple reading of who owns what, and its exact
 relation to the reconstruction from aggregates.
 */
module OwnershipReplay {
  import opened Addresses
  import opened OwnerReconstruction
  import opened Permutations
  import opened TransferLog
  import opened Wrappers

  // ---------------------------------------------------------------- ERC-721: replay

  datatype Holding = Unminted | Owned(holder: Address) | Burnt

  predicate Concerns(t: Transfer, tokenId: TokenId) {
    t.standard == ERC_721 && t.tokenId == tokenId
  }

  predicate IsMint(t: Transfer, tokenId: TokenId) {
    Concerns(t, tokenId) && t.fromAddress == ZERO_ADDRESS
  }

  function Replay(log: seq<Transfer>, tokenId: TokenId): Holding {
    if log == [] then Unminted
    else
      var t := log[|log| - 1];
      if !Concerns(t, tokenId) then Replay(log[..|log| - 1], tokenId)
      else if t.toAddress == ZERO_ADDRESS then Burnt
      else Owned(t.toAddress)
  }

  /** Minted once, from the zero address; then always sent by the present owner; nothing after a burn. */
  predicate WellFormed(log: seq<Transfer>, tokenId: TokenId) {
    log == [] ||
    (var prefix, t := log[..|log| - 1], log[|log| - 1];
     && WellFormed(prefix, tokenId)
     && (Concerns(t, tokenId) ==>
           match Replay(prefix, tokenId)
           case Unminted => t.fromAddress == ZERO_ADDRESS && t.toAddress != ZERO_ADDRESS
           case Owned(a) => t.fromAddress == a
           case Burnt => false))
  }

  ghost predicate EverSent(log: seq<Transfer>, tokenId: TokenId, a: Address) {
    Count(log, ERC_721, false, tokenId, a) > 0
  }

  /** Receipts minus sendings of one address: one for the owner by replay, zero for everybody else. */
  lemma {:induction false} OwnerBalance(log: seq<Transfer>, tokenId: TokenId, a: Address)
    requires WellFormed(log, tokenId) && a != ZERO_ADDRESS
    ensures Count(log, ERC_721, true, tokenId, a) - Count(log, ERC_721, false, tokenId, a) ==
            if Replay(log, tokenId) == Owned(a) then 1 else 0
    ensures Replay(log, tokenId).Owned? ==> Replay(log, tokenId).holder != ZERO_ADDRESS
  {
    if log != [] {
      OwnerBalance(log[..|log| - 1], tokenId, a);
    }
  }

  // ---------------------------------------------------------------- the order of storage

  lemma {:induction false} CountInserted(
    front: seq<Transfer>, t: Transfer, back: seq<Transfer>,
    standard: TokenStandard, isReceived: bool, tokenId: TokenId, a: Address)
    ensures Count(front + [t] + back, standard, isReceived, tokenId, a) ==
            Count(front + back, standard, isReceived, tokenId, a) +
            if Moves(t, standard, isReceived, tokenId, a) then 1 else 0
  {
    if back == [] {
      assert front + [t] + back == front + [t] && front + back == front;
      assert (front + [t])[..|front|] == front;
    } else {
      var k := |back| - 1;
      CountInserted(front, t, back[..k], standard, isReceived, tokenId, a);
      assert (front + [t] + back)[..|front| + 1 + k] == front + [t] + back[..k];
      assert (front + back)[..|front| + k] == front + back[..k];
    }
  }

  lemma {:induction false} CountPermuted(
    log: seq<Transfer>, stored: seq<Transfer>,
    standard: TokenStandard, isReceived: bool, tokenId: TokenId, a: Address)
    requires multiset(log) == multiset(stored)
    ensures Count(log, standard, isReceived, tokenId, a) == Count(stored, standard, isReceived, tokenId, a)
  {
    if log == [] {
      assert |stored| == |multiset(stored)| == 0;
    } else {
      var i := LocateLast(log, stored);
      CountPermuted(log[..|log| - 1], stored[..i] + stored[i + 1..], standard, isReceived, tokenId, a);
      CountInserted(stored[..i], stored[i], stored[i + 1..], standard, isReceived, tokenId, a);
    }
  }

  // ---------------------------------------------------------------- soundness and completeness

  /** The result of the reconstruction on a log that is stored in any order. */
  ghost predicate Rebuilt(
    result: map<NftId, seq<Owner>>, log: seq<Transfer>, stored: seq<Transfer>, nfts: seq<Nft>,
    users: map<Address, Role>)
  {
    && DistinctIds(nfts)
    && multiset(stored) == multiset(log)
    && Reconstructs(result, Rows(stored, nfts, ERC_721), ERC_721, MintedAddresses(stored), users)
  }

  ghost predicate Emits(result: map<NftId, seq<Owner>>, n: NftId, tokenId: TokenId, a: Address) {
    n in result && exists i :: 0 <= i < |result[n]| && result[n][i].tokenId == tokenId && result[n][i].address == a
  }

  lemma ExpectedByReplay(
    log: seq<Transfer>, stored: seq<Transfer>, nfts: seq<Nft>, users: map<Address, Role>, n: NftId, o: Owner)
    requires DistinctIds(nfts) && multiset(stored) == multiset(log) && WellFormed(log, o.tokenId)
    ensures Expected(Rows(stored, nfts, ERC_721), ERC_721, MintedAddresses(stored), users, n, o) ==
            if && Listed(nfts, ERC_721, n, o.tokenId)
               && Replay(log, o.tokenId) == Owned(o.address)
               && !EverSent(log, o.tokenId, o.address)
               && o == MakeOwner(MintedAddresses(stored), users, o.address, o.tokenId)
            then 1 else 0
  {
    var rows := Rows(stored, nfts, ERC_721);
    TokensCounted(stored, nfts, ERC_721, false, n, o.address, o.tokenId);
    TokensCounted(stored, nfts, ERC_721, true, n, o.address, o.tokenId);
    CountPermuted(log, stored, ERC_721, false, o.tokenId, o.address);
    CountPermuted(log, stored, ERC_721, true, o.tokenId, o.address);
    var sent: seq<nat> := TokensOf(rows, ERC_721, false, n, o.address);
    assert o.tokenId in sent <==> multiset(sent)[o.tokenId] > 0;
    if o.address != ZERO_ADDRESS {
      OwnerBalance(log, o.tokenId, o.address);
    } else if Replay(log, o.tokenId).Owned? {
      OwnerBalance(log, o.tokenId, Empty);
    }
  }

  /**
   On a token with a well-formed history, whatever the order of storage, the reconstruction emits
   (token, address) under an NFT exactly when the NFT lists the token and the address is the
   owner by replay and never itself sent the token; and it emits it at most once.
   */
  lemma EmittedExactly(
    result: map<NftId, seq<Owner>>, log: seq<Transfer>, stored: seq<Transfer>, nfts: seq<Nft>,
    users: map<Address, Role>, n: NftId, tokenId: TokenId, a: Address)
    requires Rebuilt(result, log, stored, nfts, users) && WellFormed(log, tokenId)
    ensures Emits(result, n, tokenId, a) <==>
              && Listed(nfts, ERC_721, n, tokenId)
              && Replay(log, tokenId) == Owned(a)
              && !EverSent(log, tokenId, a)
    ensures n in result ==>
              forall i, j :: 0 <= i < j < |result[n]| && result[n][i].tokenId == tokenId ==>
                result[n][j].tokenId != tokenId
  {
    var rows := Rows(stored, nfts, ERC_721);
    var made := MakeOwner(MintedAddresses(stored), users, a, tokenId);
    ExpectedByReplay(log, stored, nfts, users, n, made);
    if n in result {
      forall i | 0 <= i < |result[n]| && result[n][i].tokenId == tokenId
        ensures Expected(rows, ERC_721, MintedAddresses(stored), users, n, result[n][i]) == 1
        ensures Replay(log, tokenId) == Owned(result[n][i].address)
        ensures result[n][i] == MakeOwner(MintedAddresses(stored), users, result[n][i].address, tokenId)
        ensures Listed(nfts, ERC_721, n, tokenId) && !EverSent(log, tokenId, result[n][i].address)
      {
        EmittedOnce(result, rows, ERC_721, MintedAddresses(stored), users, n, i);
        ExpectedByReplay(log, stored, nfts, users, n, result[n][i]);
      }
      forall i, j | 0 <= i < j < |result[n]| && result[n][i].tokenId == tokenId
        ensures result[n][j].tokenId != tokenId
      {
        if result[n][j].tokenId == tokenId {
          TwiceInSeq(result[n], i, j);
        }
      }
    }
    if Expected(rows, ERC_721, MintedAddresses(stored), users, n, made) == 1 {
      assert TokensOf(rows, ERC_721, true, n, a) != [];
      assert made in multiset(result[n]);
    }
  }

  lemma TwiceInSeq<T>(s: seq<T>, i: nat, j: nat)
    requires i < j < |s| && s[i] == s[j]
    ensures multiset(s)[s[i]] >= 2
  {
    assert s == s[..i] + [s[i]] + s[i + 1..j] + [s[j]] + s[j + 1..];
  }

  /** Every current owner by replay is emitted under the NFT that lists the token. */
  ghost predicate Complete(result: map<NftId, seq<Owner>>, log: seq<Transfer>, nfts: seq<Nft>) {
    forall n, tokenId, a :: Listed(nfts, ERC_721, n, tokenId) && Replay(log, tokenId) == Owned(a) ==>
      Emits(result, n, tokenId, a)
  }

  ghost predicate NobodyOwnsAgain(log: seq<Transfer>, nfts: seq<Nft>) {
    forall n, tokenId, a :: Listed(nfts, ERC_721, n, tokenId) && Replay(log, tokenId) == Owned(a) ==>
      !EverSent(log, tokenId, a)
  }

  /**
   The reconstruction is always sound, and it equals the replay exactly when no current owner of
   a listed token sent that token at any earlier time.
   */
  lemma CompleteExactly(
    result: map<NftId, seq<Owner>>, log: seq<Transfer>, stored: seq<Transfer>, nfts: seq<Nft>,
    users: map<Address, Role>)
    requires Rebuilt(result, log, stored, nfts, users)
    requires forall tokenId :: WellFormed(log, tokenId)
    ensures forall n, tokenId, a :: Emits(result, n, tokenId, a) ==>
              Listed(nfts, ERC_721, n, tokenId) && Replay(log, tokenId) == Owned(a)
    ensures Complete(result, log, nfts) <==> NobodyOwnsAgain(log, nfts)
  {
    forall n, tokenId, a
      ensures Emits(result, n, tokenId, a) <==>
                && Listed(nfts, ERC_721, n, tokenId)
                && Replay(log, tokenId) == Owned(a)
                && !EverSent(log, tokenId, a)
    {
      EmittedExactly(result, log, stored, nfts, users, n, tokenId, a);
    }
  }

  /** Replay, well-formedness and sendings of a log with one more transfer. */
  lemma OneMore(log: seq<Transfer>, t: Transfer, tokenId: TokenId, a: Address)
    requires Concerns(t, tokenId) && WellFormed(log, tokenId)
    requires match Replay(log, tokenId)
             case Unminted => t.fromAddress == ZERO_ADDRESS && t.toAddress != ZERO_ADDRESS
             case Owned(b) => t.fromAddress == b
             case Burnt => false
    ensures WellFormed(log + [t], tokenId)
    ensures Replay(log + [t], tokenId) == if t.toAddress == ZERO_ADDRESS then Burnt else Owned(t.toAddress)
    ensures EverSent(log + [t], tokenId, a) <==> EverSent(log, tokenId, a) || t.fromAddress == a
  {
    assert (log + [t])[..|log|] == log;
  }

  /** Minted to Account(1), given to Account(2) and given back. */
  const RETURNED: seq<Transfer> :=
    [Transfer(ERC_721, ZERO_ADDRESS, Account(1), 5, 1)] +
    [Transfer(ERC_721, Account(1), Account(2), 5, 1)] +
    [Transfer(ERC_721, Account(2), Account(1), 5, 1)]

  const ONE_NFT: seq<Nft> := [Nft(9, ERC_721, {5})]

  /** A token that comes back to an earlier owner has no owner after the reconstruction. */
  lemma ReturnedTokenIsLost(result: map<NftId, seq<Owner>>, users: map<Address, Role>)
    ensures WellFormed(RETURNED, 5) && Replay(RETURNED, 5) == Owned(Account(1))
    ensures Rebuilt(result, RETURNED, RETURNED, ONE_NFT, users) ==> forall a :: !Emits(result, 9, 5, a)
  {
    OneMore([], RETURNED[0], 5, Account(1));
    OneMore([] + [RETURNED[0]], RETURNED[1], 5, Account(1));
    OneMore([] + [RETURNED[0]] + [RETURNED[1]], RETURNED[2], 5, Account(1));
    assert [] + [RETURNED[0]] + [RETURNED[1]] + [RETURNED[2]] == RETURNED;
    if Rebuilt(result, RETURNED, RETURNED, ONE_NFT, users) {
      forall a ensures !Emits(result, 9, 5, a) {
        EmittedExactly(result, RETURNED, RETURNED, ONE_NFT, users, 9, 5, a);
      }
    }
  }

  /** The reconstruction run on that history. */
  method RebuildReturned(users: map<Address, Role>) returns (result: map<NftId, seq<Owner>>)
    ensures Rebuilt(result, RETURNED, RETURNED, ONE_NFT, users)
    ensures 9 in result && Replay(RETURNED, 5) == Owned(Account(1)) && forall a :: !Emits(result, 9, 5, a)
  {
    result := GetOwnerFromTransactionTransfer(ERC_721, RETURNED, ONE_NFT, users);
    ReturnedTokenIsLost(result, users);
    ReceivedOnce(RETURNED, ONE_NFT, 9, 5, Account(1), 0);
  }

  /** A receipt of a listed token gives the NFT an entry. */
  lemma ReceivedOnce(log: seq<Transfer>, nfts: seq<Nft>, n: NftId, tokenId: TokenId, a: Address, i: nat)
    requires DistinctIds(nfts) && Listed(nfts, ERC_721, n, tokenId)
    requires i < |log| && Moves(log[i], ERC_721, true, tokenId, a) && a != ZERO_ADDRESS
    ensures TokensOf(Rows(log, nfts, ERC_721), ERC_721, true, n, a) != []
    ensures HasReceipt(Rows(log, nfts, ERC_721), ERC_721, n)
  {
    TokensCounted(log, nfts, ERC_721, true, n, a, tokenId);
    CountedOnce(log, ERC_721, true, tokenId, a, i);
  }

  lemma {:induction false} CountedOnce(
    log: seq<Transfer>, standard: TokenStandard, isReceived: bool, tokenId: TokenId, a: Address, i: nat)
    requires i < |log| && Moves(log[i], standard, isReceived, tokenId, a)
    ensures Count(log, standard, isReceived, tokenId, a) > 0
  {
    var k := |log| - 1;
    if i < k {
      CountedOnce(log[..k], standard, isReceived, tokenId, a, i);
    }
  }

  // ---------------------------------------------------------------- minted addresses

  lemma {:induction false} ReplayPast(log: seq<Transfer>, tokenId: TokenId, i: nat)
    requires i < |log| && Concerns(log[i], tokenId)
    ensures Replay(log, tokenId) != Unminted
  {
    var k := |log| - 1;
    if i < k {
      ReplayPast(log[..k], tokenId, i);
    }
  }

  lemma {:induction false} MintUnique(log: seq<Transfer>, tokenId: TokenId, i: nat, j: nat)
    requires WellFormed(log, tokenId) && i <= j < |log|
    requires IsMint(log[i], tokenId) && IsMint(log[j], tokenId)
    ensures i == j
  {
    var k := |log| - 1;
    if j < k {
      MintUnique(log[..k], tokenId, i, j);
    } else if i < j {
      ReplayPast(log[..k], tokenId, i);
      OwnerBalance(log[..k], tokenId, Empty);
    }
  }

  ghost predicate LastMintAt(log: seq<Transfer>, tokenId: TokenId, i: int) {
    0 <= i < |log| && IsMint(log[i], tokenId) && forall j :: i < j < |log| ==> !IsMint(log[j], tokenId)
  }

  lemma {:induction false} MintedIsLastMint(log: seq<Transfer>, tokenId: TokenId)
    ensures tokenId in MintedAddresses(log) <==> exists i :: 0 <= i < |log| && IsMint(log[i], tokenId)
    ensures tokenId in MintedAddresses(log) ==>
              exists i :: LastMintAt(log, tokenId, i) && log[i].toAddress == MintedAddresses(log)[tokenId]
  {
    if log != [] {
      var k := |log| - 1;
      MintedIsLastMint(log[..k], tokenId);
      if i :| 0 <= i < |log| && IsMint(log[i], tokenId) {
        assert i < k ==> IsMint(log[..k][i], tokenId);
      }
      if IsMint(log[k], tokenId) {
        assert LastMintAt(log, tokenId, k);
      } else if tokenId in MintedAddresses(log[..k]) {
        var i :| LastMintAt(log[..k], tokenId, i) && log[..k][i].toAddress == MintedAddresses(log[..k])[tokenId];
        assert LastMintAt(log, tokenId, i) && log[i].toAddress == MintedAddresses(log)[tokenId];
      }
    }
  }

  /**
   Each emitted owner carries, as its minted address, the recipient of the one mint of its token,
   whatever the order in which the log is stored.
   */
  lemma MintedAddressIsRecipient(
    result: map<NftId, seq<Owner>>, log: seq<Transfer>, stored: seq<Transfer>, nfts: seq<Nft>,
    users: map<Address, Role>, n: NftId, i: nat)
    requires Rebuilt(result, log, stored, nfts, users)
    requires n in result && i < |result[n]| && WellFormed(log, result[n][i].tokenId)
    ensures exists k :: 0 <= k < |log| && IsMint(log[k], result[n][i].tokenId)
    ensures forall k :: 0 <= k < |log| && IsMint(log[k], result[n][i].tokenId) ==>
              result[n][i].mintedAddress == Some(log[k].toAddress)
  {
    var o := result[n][i];
    var rows := Rows(stored, nfts, ERC_721);
    EmittedOnce(result, rows, ERC_721, MintedAddresses(stored), users, n, i);
    ExpectedByReplay(log, stored, nfts, users, n, o);
    SomeMint(log, o.tokenId);
    var k :| 0 <= k < |log| && IsMint(log[k], o.tokenId);
    assert log[k] in multiset(stored);
    var j :| 0 <= j < |stored| && stored[j] == log[k];
    MintedIsLastMint(stored, o.tokenId);
    assert IsMint(stored[j], o.tokenId);
    var m :| LastMintAt(stored, o.tokenId, m)
             && stored[m].toAddress == MintedAddresses(stored)[o.tokenId];
    assert stored[m] in multiset(log);
    var q :| 0 <= q < |log| && log[q] == stored[m];
    forall k' | 0 <= k' < |log| && IsMint(log[k'], o.tokenId) ensures k' == q {
      MintUnique(log, o.tokenId, if k' < q then k' else q, if k' < q then q else k');
    }
  }

  lemma {:induction false} SomeMint(log: seq<Transfer>, tokenId: TokenId)
    requires WellFormed(log, tokenId) && Replay(log, tokenId) != Unminted
    ensures exists k :: 0 <= k < |log| && IsMint(log[k], tokenId)
  {
    var k := |log| - 1;
    if Replay(log[..k], tokenId) == Unminted {
      assert IsMint(log[k], tokenId);
    } else {
      SomeMint(log[..k], tokenId);
      var i :| 0 <= i < k && IsMint(log[..k][i], tokenId);
      assert IsMint(log[i], tokenId);
    }
  }
}
