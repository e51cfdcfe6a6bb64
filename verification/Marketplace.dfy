/** The life of an NFT: create, mint, list, delist and buy, each taken as one step. */
module Marketplace {
  import opened Addresses
  import opened Wrappers

  type Id = nat
  type OrderId = nat

  datatype NftStatus = OFF_SALE | ON_SALE | MINTED | UNMINT

  /** `orderId` is None where the source stores the empty string or nothing. */
  datatype Nft = Nft(status: NftStatus, orderId: Option<OrderId>, creatorAddress: Address)

  datatype OwnerStatus = OWNER_UNMINT | OWNER_MINTED

  datatype OwnerRow = OwnerRow(nftId: Id, address: Address, status: OwnerStatus, mintedAddress: Option<Address>)

  /** A transaction of type BUY. */
  datatype Purchase = Purchase(nftId: Id, fromAddress: Address, toAddress: Address, orderId: OrderId)

  /** `owners` is keyed by `tokenId`, which has a unique index. */
  datatype Market = Market(nfts: map<Id, Nft>, owners: map<Id, OwnerRow>, purchases: seq<Purchase>)

  /** `carried` is an order id in the request body: nothing strips it, and the document keeps it. */
  datatype Step =
    | Create(id: Id, address: Address, carried: Option<OrderId>)
    | Mint(id: Id, address: Address)
    | PutOnSale(id: Id, orderId: OrderId)
    | CancelOnSale(id: Id)
    | Buy(id: Id, buyer: Address, fromAddress: Address, orderId: OrderId)

  /** A new document gets an id that no other document has. */
  predicate Enabled(m: Market, step: Step) {
    step.Create? ==> step.id !in m.nfts && step.id !in m.owners
  }

  /** `updateOne({ nftId })`: the row whose `nftId` is `id`, wherever it is keyed. */
  function MintRow(owners: map<Id, OwnerRow>, id: Id, address: Address): map<Id, OwnerRow> {
    map t | t in owners ::
      if owners[t].nftId == id then owners[t].(mintedAddress := Some(address), status := OWNER_MINTED) else owners[t]
  }

  function Next(m: Market, step: Step): Market {
    match step
    case Create(id, address, carried) =>
      m.(nfts := m.nfts[id := Nft(UNMINT, carried, address)],
         owners := m.owners[id := OwnerRow(id, address, OWNER_UNMINT, None)])
    case Mint(id, address) =>
      m.(nfts := if id in m.nfts then m.nfts[id := m.nfts[id].(status := MINTED)] else m.nfts,
         owners := MintRow(m.owners, id, address))
    case PutOnSale(id, orderId) =>
      if id !in m.nfts then m
      else m.(nfts := m.nfts[id := m.nfts[id].(status := ON_SALE, orderId := Some(orderId))])
    case CancelOnSale(id) =>
      if id !in m.nfts then m
      else m.(nfts := m.nfts[id := m.nfts[id].(status := OFF_SALE, orderId := None)])
    case Buy(id, buyer, fromAddress, orderId) =>
      if id !in m.nfts then m
      else
        m.(nfts := m.nfts[id := m.nfts[id].(status := OFF_SALE, orderId := None)],
           owners := if id in m.owners
                     then m.owners[id := m.owners[id].(address := buyer, status := OWNER_MINTED)] else m.owners,
           purchases := m.purchases + [Purchase(id, fromAddress, buyer, orderId)])
  }

  ghost predicate IsRun(markets: seq<Market>, steps: seq<Step>) {
    && |markets| == |steps| + 1
    && markets[0] == Market(map[], map[], [])
    && forall i :: 0 <= i < |steps| ==> Enabled(markets[i], steps[i]) && markets[i + 1] == Next(markets[i], steps[i])
  }

  /** The buyer of the last purchase of an NFT, or `creator` if it was never bought. */
  function LastBuyer(purchases: seq<Purchase>, id: Id, creator: Address): Address {
    if purchases == [] then creator
    else if purchases[|purchases| - 1].nftId == id then purchases[|purchases| - 1].toAddress
    else LastBuyer(purchases[..|purchases| - 1], id, creator)
  }

  /** One owner row per NFT, whose address the purchase history determines. */
  ghost predicate OwnedByHistory(m: Market) {
    && m.owners.Keys == m.nfts.Keys
    && (forall p :: 0 <= p < |m.purchases| ==> m.purchases[p].nftId in m.nfts)
    && forall id :: id in m.nfts ==>
         && m.owners[id].nftId == id
         && m.owners[id].address == LastBuyer(m.purchases, id, m.nfts[id].creatorAddress)
  }

  ghost predicate OrderMatchesStatus(m: Market) {
    forall id :: id in m.nfts ==>
      && (m.nfts[id].status == ON_SALE ==> m.nfts[id].orderId.Some?)
      && (m.nfts[id].status == OFF_SALE ==> m.nfts[id].orderId.None?)
  }

  /** The agreement that every reachable market keeps. */
  ghost predicate Sound(m: Market) {
    OwnedByHistory(m) && OrderMatchesStatus(m)
  }

  lemma {:induction false} NeverBought(purchases: seq<Purchase>, id: Id, creator: Address)
    requires forall p :: 0 <= p < |purchases| ==> purchases[p].nftId != id
    ensures LastBuyer(purchases, id, creator) == creator
  {
    if purchases != [] {
      NeverBought(purchases[..|purchases| - 1], id, creator);
    }
  }

  lemma HistoryStep(m: Market, step: Step)
    requires Sound(m) && Enabled(m, step)
    ensures Sound(Next(m, step))
  {
    var m' := Next(m, step);
    if step.Create? {
      NeverBought(m.purchases, step.id, step.address);
    } else if step.Buy? && step.id in m.nfts {
      assert m'.purchases[..|m.purchases|] == m.purchases;
    }
  }

  /**
   In every state of every run each NFT has exactly one owner row, its address is the buyer of the
   last recorded purchase or else the creator, and the order id agrees with the sale status.
   */
  lemma OwnershipRun(markets: seq<Market>, steps: seq<Step>, i: nat)
    requires IsRun(markets, steps) && i < |markets|
    ensures Sound(markets[i])
    ensures forall id, t :: id in markets[i].nfts && t in markets[i].owners ==>
              (markets[i].owners[t].nftId == id <==> t == id)
  {
    if i > 0 {
      OwnershipRun(markets, steps, i - 1);
      HistoryStep(markets[i - 1], steps[i - 1]);
    }
  }

  /** An NFT has an order id exactly when it is on sale. */
  ghost predicate OrderOnlyOnSale(m: Market) {
    forall id :: id in m.nfts ==> (m.nfts[id].orderId.Some? <==> m.nfts[id].status == ON_SALE)
  }

  /** Minting an NFT that is on sale: its status changes, its order id stays. */
  predicate MintsListed(m: Market, step: Step) {
    step.Mint? && step.id in m.nfts && m.nfts[step.id].status == ON_SALE
  }

  /** Minting an NFT that is on sale, or creating one from a request that carries an order id. */
  predicate StrandsOrder(m: Market, step: Step) {
    MintsListed(m, step) || (step.Create? && step.carried.Some?)
  }

  lemma OrderStep(m: Market, step: Step)
    requires OrderOnlyOnSale(m) && Enabled(m, step)
    ensures OrderOnlyOnSale(Next(m, step)) <==> !StrandsOrder(m, step)
  {
    var m' := Next(m, step);
    if StrandsOrder(m, step) {
      assert step.id in m'.nfts && m'.nfts[step.id].orderId.Some? && m'.nfts[step.id].status != ON_SALE;
    }
  }

  /**
   An NFT has an order id exactly while it is on sale, in every state of a run, if and only if no NFT is
   minted while it is on sale and none is created with an order id.
   */
  lemma OrderRun(markets: seq<Market>, steps: seq<Step>)
    requires IsRun(markets, steps)
    ensures (forall i :: 0 <= i < |markets| ==> OrderOnlyOnSale(markets[i]))
        <==> (forall i :: 0 <= i < |steps| ==> !StrandsOrder(markets[i], steps[i]))
  {
    if forall i :: 0 <= i < |markets| ==> OrderOnlyOnSale(markets[i]) {
      forall i | 0 <= i < |steps| ensures !StrandsOrder(markets[i], steps[i]) {
        OrderStep(markets[i], steps[i]);
        assert OrderOnlyOnSale(markets[i + 1]);
      }
    }
    if forall i :: 0 <= i < |steps| ==> !StrandsOrder(markets[i], steps[i]) {
      forall i | 0 <= i < |markets| ensures OrderOnlyOnSale(markets[i]) {
        OrderUpTo(markets, steps, i);
      }
    }
  }

  lemma OrderUpTo(markets: seq<Market>, steps: seq<Step>, n: nat)
    requires IsRun(markets, steps) && n < |markets|
    requires forall i :: 0 <= i < n ==> !StrandsOrder(markets[i], steps[i])
    ensures OrderOnlyOnSale(markets[n])
  {
    if n > 0 {
      OrderUpTo(markets, steps, n - 1);
      OrderStep(markets[n - 1], steps[n - 1]);
    }
  }

  /** Listed and then minted: no longer on sale, the order id is still there. */
  lemma OrderOutlivesListing() returns (markets: seq<Market>, steps: seq<Step>)
    ensures IsRun(markets, steps)
    ensures steps == [Create(1, Account(1), None), PutOnSale(1, 7), Mint(1, Account(1))]
    ensures 1 in markets[3].nfts && markets[3].nfts[1] == Nft(MINTED, Some(7), Account(1))
    ensures !OrderOnlyOnSale(markets[3])
  {
    steps := [Create(1, Account(1), None), PutOnSale(1, 7), Mint(1, Account(1))];
    var m0 := Market(map[], map[], []);
    var m1 := Next(m0, steps[0]);
    var m2 := Next(m1, steps[1]);
    var m3 := Next(m2, steps[2]);
    markets := [m0, m1, m2, m3];
    assert m3.nfts[1] == Nft(MINTED, Some(7), Account(1));
  }

  /** Created from a request that carries an order id. */
  lemma OrderWithoutListing() returns (markets: seq<Market>, steps: seq<Step>)
    ensures IsRun(markets, steps) && steps == [Create(1, Account(1), Some(7))]
    ensures 1 in markets[1].nfts && markets[1].nfts[1] == Nft(UNMINT, Some(7), Account(1))
    ensures !OrderOnlyOnSale(markets[1])
  {
    steps := [Create(1, Account(1), Some(7))];
    markets := [Market(map[], map[], []), Next(Market(map[], map[], []), steps[0])];
    assert markets[1].nfts[1] == Nft(UNMINT, Some(7), Account(1));
  }

  /** Listing and delisting leave the market as it was exactly when the NFT was off sale before. */
  lemma DelistUndoesList(m: Market, id: Id, orderId: OrderId)
    requires OrderMatchesStatus(m) && id in m.nfts
    ensures Next(Next(m, PutOnSale(id, orderId)), CancelOnSale(id)) == m <==> m.nfts[id].status == OFF_SALE
  {
    var m' := Next(Next(m, PutOnSale(id, orderId)), CancelOnSale(id));
    assert m'.nfts[id] == m.nfts[id].(status := OFF_SALE, orderId := None);
    assert m.nfts[id].status == OFF_SALE ==> m'.nfts == m.nfts;
  }

  /** Nothing but the NFT `id` and its owner row differs. */
  ghost predicate OthersKept(m: Market, m': Market, id: Id) {
    && (forall a :: a != id ==> (a in m'.nfts <==> a in m.nfts) && (a in m'.owners <==> a in m.owners))
    && (forall a :: a != id && a in m.nfts ==> m'.nfts[a] == m.nfts[a])
    && (forall a :: a != id && a in m.owners ==> m'.owners[a] == m.owners[a])
  }

  /** A step keeps a sound market sound and touches no NFT and no owner row but its own. */
  lemma SoundStep(m: Market, step: Step)
    requires Enabled(m, step)
    ensures Sound(m) ==> Sound(Next(m, step)) && OthersKept(m, Next(m, step), step.id)
  {
    if Sound(m) {
      HistoryStep(m, step);
    }
  }

  // ---------------------------------------------------------------- what the steps so far say

  /** The last step on the NFT `id`, once it is created, decides its status. */
  ghost function StatusBy(steps: seq<Step>, id: Id): Option<NftStatus> {
    if steps == [] then None
    else
      var before, last := StatusBy(steps[..|steps| - 1], id), steps[|steps| - 1];
      if last.id != id then before
      else
        match last
        case Create(_, _, _) => Some(UNMINT)
        case Mint(_, _) => if before.Some? then Some(MINTED) else None
        case PutOnSale(_, _) => if before.Some? then Some(ON_SALE) else None
        case CancelOnSale(_) => if before.Some? then Some(OFF_SALE) else None
        case Buy(_, _, _, _) => if before.Some? then Some(OFF_SALE) else None
  }

  /** Listing sets the order id; delisting and buying drop it; minting leaves it alone. */
  ghost function OrderBy(steps: seq<Step>, id: Id): Option<OrderId> {
    if steps == [] then None
    else
      var front, last := steps[..|steps| - 1], steps[|steps| - 1];
      if last.id != id || last.Mint? then OrderBy(front, id)
      else
        match last
        case Create(_, _, carried) => carried
        case PutOnSale(_, orderId) => if StatusBy(front, id).Some? then Some(orderId) else None
        case _ => None
  }

  /** Who minted the NFT last, if anybody has since its creation. */
  ghost function MinterBy(steps: seq<Step>, id: Id): Option<Address> {
    if steps == [] then None
    else
      var front, last := steps[..|steps| - 1], steps[|steps| - 1];
      if last.id != id then MinterBy(front, id)
      else if last.Create? then None
      else if last.Mint? && StatusBy(front, id).Some? then Some(last.address)
      else MinterBy(front, id)
  }

  /** Whether the NFT has been minted or bought since its creation. */
  ghost predicate MintedOrBought(steps: seq<Step>, id: Id) {
    steps != [] &&
    var front, last := steps[..|steps| - 1], steps[|steps| - 1];
    if last.id != id then MintedOrBought(front, id)
    else !last.Create? && (MintedOrBought(front, id) || ((last.Mint? || last.Buy?) && StatusBy(front, id).Some?))
  }

  /** The document of `id` is what the last steps on it said. */
  ghost predicate AsHistorySays(m: Market, steps: seq<Step>, id: Id) {
    && (id in m.nfts <==> StatusBy(steps, id).Some?)
    && (id in m.nfts ==> m.nfts[id].status == StatusBy(steps, id).value && m.nfts[id].orderId == OrderBy(steps, id))
    && (id !in m.nfts ==> OrderBy(steps, id) == None)
  }

  /** And so is its owner row. */
  ghost predicate RowAsHistorySays(m: Market, steps: seq<Step>, id: Id) {
    id in m.nfts ==>
      && id in m.owners
      && m.owners[id].mintedAddress == MinterBy(steps, id)
      && (m.owners[id].status == OWNER_MINTED <==> MintedOrBought(steps, id))
  }

  lemma HistorySaysStep(m: Market, steps: seq<Step>, step: Step, id: Id)
    requires AsHistorySays(m, steps, id) && Enabled(m, step)
    ensures AsHistorySays(Next(m, step), steps + [step], id)
  {
    assert (steps + [step])[..|steps|] == steps;
  }

  /** In every state of every run, status and order id of every NFT are what the last steps on it said. */
  lemma {:induction false} HistoryRun(markets: seq<Market>, steps: seq<Step>, i: nat, id: Id)
    requires IsRun(markets, steps) && i < |markets|
    ensures AsHistorySays(markets[i], steps[..i], id)
  {
    if i > 0 {
      HistoryRun(markets, steps, i - 1, id);
      HistorySaysStep(markets[i - 1], steps[..i - 1], steps[i - 1], id);
      assert steps[..i] == steps[..i - 1] + [steps[i - 1]];
    }
  }

  /** A bought NFT is off sale, without an order id, until it is listed or minted again. */
  lemma {:induction false} BoughtIsOffSale(markets: seq<Market>, steps: seq<Step>, i: nat, j: nat)
    requires IsRun(markets, steps) && i < j < |markets| && steps[i].Buy? && steps[i].id in markets[i].nfts
    requires forall k :: i < k < j && steps[k].id == steps[i].id ==> !steps[k].PutOnSale? && !steps[k].Mint?
    ensures var id := steps[i].id;
            id in markets[j].nfts && markets[j].nfts[id].status == OFF_SALE && markets[j].nfts[id].orderId == None
  {
    if j > i + 1 {
      BoughtIsOffSale(markets, steps, i, j - 1);
      assert Enabled(markets[j - 1], steps[j - 1]) && markets[j] == Next(markets[j - 1], steps[j - 1]);
    }
  }

  lemma RowSaysStep(m: Market, steps: seq<Step>, step: Step, id: Id)
    requires OwnedByHistory(m) && AsHistorySays(m, steps, id) && RowAsHistorySays(m, steps, id) && Enabled(m, step)
    ensures RowAsHistorySays(Next(m, step), steps + [step], id)
  {
    assert (steps + [step])[..|steps|] == steps;
  }

  /** The owner row names the last minter, and is MINTED once the NFT has been minted or bought. */
  lemma {:induction false} OwnerRowRun(markets: seq<Market>, steps: seq<Step>, i: nat, id: Id)
    requires IsRun(markets, steps) && i < |markets|
    ensures RowAsHistorySays(markets[i], steps[..i], id)
  {
    if i > 0 {
      OwnerRowRun(markets, steps, i - 1, id);
      OwnershipRun(markets, steps, i - 1);
      HistoryRun(markets, steps, i - 1, id);
      RowSaysStep(markets[i - 1], steps[..i - 1], steps[i - 1], id);
      assert steps[..i] == steps[..i - 1] + [steps[i - 1]];
    }
  }

  // ---------------------------------------------------------------- the collections

  /** The `nfts`, `owners` and `transactions` collections. */
  class MarketStore {
    var nfts: map<Id, Nft>
    var owners: map<Id, OwnerRow>
    var purchases: seq<Purchase>

    ghost function Snapshot(): Market
      reads this
    {
      Market(nfts, owners, purchases)
    }

    constructor ()
      ensures Snapshot() == Market(map[], map[], [])
    {
      nfts, owners, purchases := map[], map[], [];
    }

    /** NftsService.create and updateOwnerAfterCreateNft. */
    method CreateNft(id: Id, address: Address, carried: Option<OrderId>)
      requires id !in nfts && id !in owners
      modifies this
      ensures Snapshot() == Next(old(Snapshot()), Create(id, address, carried))
      ensures old(Sound(Snapshot())) ==> Sound(Snapshot()) && OthersKept(old(Snapshot()), Snapshot(), id)
      ensures id in nfts && nfts[id].status == UNMINT && nfts[id].orderId == carried
      ensures id in owners && owners[id].address == nfts[id].creatorAddress == address && owners[id].nftId == id
      ensures owners[id].status == OWNER_UNMINT && owners[id].mintedAddress == None
      ensures purchases == old(purchases)
    {
      SoundStep(Snapshot(), Create(id, address, carried));
      var createdNft := Nft(UNMINT, carried, address);
      nfts := nfts[id := createdNft];
      owners := owners[id := OwnerRow(id, address, OWNER_UNMINT, None)];
    }

    /** NftsService.mintNft and updateOwnerAfterMint. */
    method MintNft(id: Id, address: Address)
      modifies this
      ensures Snapshot() == Next(old(Snapshot()), Mint(id, address))
      ensures old(Sound(Snapshot())) ==> Sound(Snapshot()) && OthersKept(old(Snapshot()), Snapshot(), id)
      ensures old(Sound(Snapshot())) && id in old(nfts) ==>
                && id in nfts && nfts[id] == old(nfts)[id].(status := MINTED)
                && id in owners && owners[id].address == old(owners)[id].address
                && owners[id].mintedAddress == Some(address) && owners[id].status == OWNER_MINTED
      ensures purchases == old(purchases)
    {
      SoundStep(Snapshot(), Mint(id, address));
      if id in nfts {
        nfts := nfts[id := nfts[id].(status := MINTED)];
      }
      owners := MintRow(owners, id, address);
    }

    method ListNft(id: Id, orderId: OrderId)
      modifies this
      ensures Snapshot() == Next(old(Snapshot()), PutOnSale(id, orderId))
      ensures old(Sound(Snapshot())) ==> Sound(Snapshot()) && OthersKept(old(Snapshot()), Snapshot(), id)
      ensures id in nfts <==> id in old(nfts)
      ensures id in nfts ==> nfts[id] == old(nfts)[id].(status := ON_SALE, orderId := Some(orderId))
      ensures owners == old(owners) && purchases == old(purchases)
    {
      SoundStep(Snapshot(), PutOnSale(id, orderId));
      if id in nfts {
        nfts := nfts[id := nfts[id].(status := ON_SALE, orderId := Some(orderId))];
      }
    }

    method DelistNft(id: Id)
      modifies this
      ensures Snapshot() == Next(old(Snapshot()), CancelOnSale(id))
      ensures old(Sound(Snapshot())) ==> Sound(Snapshot()) && OthersKept(old(Snapshot()), Snapshot(), id)
      ensures id in nfts <==> id in old(nfts)
      ensures id in nfts ==> nfts[id] == old(nfts)[id].(status := OFF_SALE, orderId := None)
      ensures owners == old(owners) && purchases == old(purchases)
    {
      SoundStep(Snapshot(), CancelOnSale(id));
      if id in nfts {
        nfts := nfts[id := nfts[id].(status := OFF_SALE, orderId := None)];
      }
    }

    /** TransactionsService.create and updateOwnerAfterBuy; false stands for the missing NFT error. */
    method BuyNft(id: Id, buyer: Address, fromAddress: Address, orderId: OrderId) returns (found: bool)
      modifies this
      ensures found <==> id in old(nfts)
      ensures !found ==> Snapshot() == old(Snapshot())
      ensures found ==> id in nfts && nfts[id] == old(nfts)[id].(status := OFF_SALE, orderId := None)
      ensures found ==> |purchases| == |old(purchases)| + 1 && purchases[..|old(purchases)|] == old(purchases)
      ensures found ==>
                var purchase := purchases[|old(purchases)|];
                && purchase.nftId == id && purchase.orderId == orderId
                && purchase.fromAddress == fromAddress && purchase.toAddress == buyer
      ensures Snapshot() == Next(old(Snapshot()), Buy(id, buyer, fromAddress, orderId))
      ensures old(Sound(Snapshot())) ==> Sound(Snapshot()) && OthersKept(old(Snapshot()), Snapshot(), id)
      ensures found && old(Sound(Snapshot())) ==>
                && id in owners && owners[id] == old(owners)[id].(address := buyer, status := OWNER_MINTED)
                && buyer == LastBuyer(purchases, id, nfts[id].creatorAddress)
    {
      SoundStep(Snapshot(), Buy(id, buyer, fromAddress, orderId));
      found := id in nfts;
      if !found {
        return;
      }
      var transaction := Purchase(id, fromAddress, buyer, orderId);
      nfts := nfts[id := nfts[id].(status := OFF_SALE, orderId := None)];
      if id in owners {
        owners := owners[id := owners[id].(address := buyer, status := OWNER_MINTED)];
      }
      purchases := purchases + [transaction];
    }
  }
}
