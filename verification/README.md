# Verified model of the NFT market back end

A Dafny 4.11 model of the stateful and computational core of the back end, with proofs about whole
runs of it. `dafny verify dfyconfig.toml` checks everything.

| file | what it models |
|---|---|
| `ReferralForest.dfy`, `Originators.dfy`, `UserCollections.dfy` | registration, first login, deletion, promotion to BDA and loss of BDA on the `users` collection: the materialised `pathId`, the `originator` pointers, and the runs in which they mean what they are meant to |
| `ReferralVolume.dfy` | the `pathId` membership queries and the per-line volumes built on them |
| `TransferLog.dfy`, `OwnerReconstruction.dfy`, `OwnershipReplay.dfy`, `StorageOrder.dfy`, `QuantityLedger.dfy` | the reconstruction of owners from two aggregates of the transfer log, against an in-order replay |
| `LeaseLock.dfy`, `WorkerCompletions.dfy`, `CompletionHistory.dfy`, `WorkerProgress.dfy`, `LeaseWitnesses.dfy` | the lease lock and the worker completions that run under it, as interleaved steps of any number of processes |
| `StableSort.dfy`, `RefereePages.dfy` | sorting, totals and paging of the referee list |
| `Counters.dfy` | the counters that hand out numbers and ranges |
| `Marketplace.dfy` | create, mint, list, delist and buy |
| `Addresses.dfy`, `Transactions.dfy`, `Wrappers.dfy`, `Permutations.dfy` | shared types and one lemma about permutations |

A Mongo collection is a map or a sequence, a query or update is one atomic step, and a unique index is an
insert that fails on an existing key. Code that updates documents is written as classes whose methods are
proved equal to transition functions; the run theorems are about those functions.

## What holds, and what does not

Some promises fail on some inputs. The model keeps the code as it is, gives such an input, and proves for all
inputs or runs exactly when the promise is kept.

* **A path is the chain of referrers.** Completing an ADMIN_DELETE transaction deletes whatever account has the
  address, and the `pathId` queries then return users that are cut off (`RemovalCutsLine`). Paths are chains of
  referrers in every state of a run exactly when no account with descendants is deleted (`ShapeRun`); then the
  queries return what is reachable (`QueryIsReachability`).
* **The originator is the nearest BDA above the user.** Registration copies the referrer's originator, so a
  user who registers under a BDA skips that BDA (`BdaReferrerIsSkipped`). Demoting a root empties the originators
  that name it, be it the SYSTEM user (`RootDemotionOrphans`) or an account that a first login created
  (`LoginRootOrphans`). In every state of a run paths are chains and originators nearest exactly when none of
  this happens and no account with descendants is deleted (`NearestRun`).
* **The owners rebuilt from the transfer log are the owners.** A token that returns to an earlier holder is
  lost (`ReturnedTokenIsLost`; `RebuildReturned` runs the reconstruction on such a log). On well-formed
  histories the result is sound, and complete exactly when no current owner ever sent the token
  (`CompleteExactly`); a token that is minted twice can be emitted under two addresses (`RebuildDoubleMint`).
* **The rebuilt owners do not depend on the order of storage.** Two mints of one token, stored in both orders,
  give different owners (`RebuildDoubleMint`). An NFT's owners are the same in all orders exactly when each token
  it lists that somebody received and never sent was only minted to one recipient (`OrderIrrelevantExactly`), as on
  every well-formed history (`StorageOrderIrrelevant`); `SameOwnersExactly` compares two orders.
* **The lock excludes.** Purging is by type and expiry and releasing by type and document, neither by owner. A holder
  that outstays its lease lets a second one in (`OverrunBreaksExclusion`). So do, with every lease kept, an attempt
  that fails with another error than a duplicate key and then releases (`FailedLockBreaksExclusion`), and a release
  that deletes the record but fails, after which the catch block releases again (`FailedReleaseBreaksExclusion`).
  Sections exclude each other exactly when no `create` finds the record of a live holder gone (`ExclusiveRun`);
  holders keep their records exactly when no purge and no stray release evicts a live one (`ProtectedRun`), which
  is more than exclusion needs (`EvictionWithoutEntry`). Keeping the lease and avoiding the two errors is enough
  (`LeaseGivesExclusion`).
* **A completed transaction keeps its hash.** True where all deliveries are mint events, which read under the lock
  (`MintStoresOnce`); false for deposits and permission updates, which read before it (`DepositIsOverwritten`).
  While sections exclude each other, completed transactions never change exactly when no delivery stores a
  different hash after reading the transaction ahead of another delivery's store (`CompletionsKeptExactly`).
* **A delivery completes its transaction.** A deposit or permission update whose save fails with a duplicate key
  retries with a document in memory that already says SUCCESS, and ends without storing (`DuplicateLosesDeposit`).
  Otherwise, whatever the others do, a delivery that has ended without giving up on an error and with a transaction
  to complete leaves it SUCCESS (`EndedMeansCompleted`), it ends only in its read before the lock or in its last
  release (`EndedExactly`), and once a record in its way is released or expired its own steps take it through its
  section to its end (`BusyThenThrough`).
* **Sorting orders the list.** A document without the field keeps its neighbours from being compared
  (`MissingFieldBlocks`). Every arrangement of a list comes out in order exactly when the comparator is consistent
  on it (`OrdersExactly`), that is when the field is in every document or does not vary (`ConsistentExactly`); then
  any number of passes gives an order by field values, upwards or downwards as requested, and stable (`SortedByFields`).
* **Issued numbers are 1 to the index.** A step of 2 leaves a gap (`StepOfTwoSkips`), a range of negative length issues
  a number twice (`NegativeRangeRepeats`). The promise holds exactly when single numbers are taken with step 1 and no
  range has a negative length (`GaplessRun`). Irregular steps are open to callers through the public `step`
  parameter; the only caller in the repository, src/nfts/nfts.service.ts:313, takes the default of 1.
* **Only NFTs on sale have an order id.** Listing and then minting leaves one behind (`OrderOutlivesListing`), and a
  creation keeps one that its request carries, which no validation strips (`OrderWithoutListing`). It holds exactly
  when nobody mints an NFT that is on sale or creates one with an order id (`OrderRun`).

## Assumptions

* Addresses are canonical. `Utils.formatAddress` has an empty body (src/common/utils.ts:360-362) and is taken
  as the identity, so an address regular expression means equality. An empty address is the falsy one.
* Setting `userType` to BDA happens in the same step as `updateUserBecomeBDA`.
* There is at most one SYSTEM account. The address that registers or logs in is the signed one and not empty.
* The save that `adminMintNFT` does not await (src/common-service/common.service.ts:721) lands before its
  database transaction ends.
* Transactions carry the `revenue` that the volume queries sum, although src/schemas/Transaction.schema.ts does
  not declare it.
* A new document gets an id that no other document has.
* `equityShares`, which losing BDA sets to 0, is not in src/schemas/User.schema.ts, so Mongoose drops it; `personalVolume`
  is, and the model resets it.

Where the code and its own words differ the model follows the code:

* src/common-service/common.service.ts:1319-1343 creates and deletes accounts by `type: ADMIN`. The schema has no
  `type`; Mongoose 6 drops such a field, so the new account has role USER and the deletion takes any account.
* A save sends the fields that differ from the document as it was read, so a completion whose hash was already
  there in memory leaves the stored hash alone.
* src/users/users.service.ts:72-77 rejects a referrer whose KYC *is* verified, with a message that says the opposite.
* src/schemas/Lock.schema.ts:36 speaks of a lock of 5 s; `lockDocument` always writes 10 s.
* src/schemas/Counter.schema.ts:19 has a default index of 1; the upsert increments a missing counter from
  nothing, and `returnNewDocument` is not an option that Mongoose knows, so the old document is returned.
* src/users/users.service.ts:480-543 hands a page of 0 to `updateInfoPage` as 0 although it reports page 1.

## Model

| member | source | states |
|---|---|---|
| ReferralForest.ShapeStep | src/common-service/common.service.ts:1338-1352 | a step of registration, login, deletion, promotion, demotion or KYC keeps every path a chain of referrers exactly when it does not delete an account with descendants |
| ReferralForest.ShapeRun | src/users/users.service.ts:84-87 | over whole runs from accounts nobody referred, of any role: in every state a path is the chain of referrers (each entry is a user whose own path is the part before it, the last entry is the referrer) if and only if no account with descendants is deleted |
| ReferralForest.PathEntry | src/users/users.service.ts:87 | paths have no duplicates and do not contain their own user; an entry's position is its depth, and only the first entry is a root, whatever its role |
| Originators.AnchoredStep | src/common-service/common.service.ts:652-687 | from a forest whose originators are strict ancestors that are the root or a BDA, a step keeps paths and originators so exactly when it neither demotes a root somebody points to nor deletes an account with descendants |
| Originators.AnchoredAfterDemote | src/common-service/common.service.ts:1167-1206 | after a demotion nobody points to the demoted user, a root included, and anchoring survives exactly when no root was orphaned |
| Originators.AnchoredRun | src/common-service/common.service.ts:1167-1206 | over whole runs with any referrers: paths are chains and originators anchored in every state if and only if no step orphans a root, of any role, or deletes an account with descendants |
| Originators.PromotionKeepsDeeper | src/common-service/common.service.ts:652-684 | the set membership test of the bulk update is a comparison of depths: each descendant gets the deeper of its old originator and the promoted user |
| Originators.NearestStep | src/users/users.service.ts:84-87 | a step keeps "originator is the nearest BDA on the path" exactly when it neither registers under a non-root BDA nor orphans a root nor deletes an account with descendants |
| Originators.NearestRun | src/common-service/common.service.ts:652-687 | over whole runs: paths are chains and originators nearest in every state if and only if no step registers under a non-root BDA, orphans a root or deletes an account with descendants |
| Originators.BdaReferrerIsSkipped | src/users/users.service.ts:86 | a three-step run in which a user registered under a BDA gets the root as originator |
| Originators.RootDemotionOrphans | src/common-service/common.service.ts:1190-1204 | a run in which the SYSTEM user becomes a BDA, loses that and leaves an originator empty |
| Originators.LoginRootOrphans | src/auth/auth.service.ts:87-96 | the same below an account that a first login created, a root of role USER |
| UserCollections.UserCollection.Update | src/users/users.service.ts:53-90 | which registrations succeed and with which error the others fail; the newcomer's referrer, path, originator and other fields, everybody else unchanged; the kept shape, and exactly when nearest originators survive |
| UserCollections.UserCollection.InsertUser | src/auth/auth.service.ts:65-96 | a first login inserts a root of role USER, a later one nothing; paths stay chains and originators nearest |
| UserCollections.UserCollection.DeleteAccount | src/common-service/common.service.ts:1338-1352 | the account with the address is gone, whatever its role, and paths stay chains exactly when it had no descendants |
| UserCollections.UserCollection.SetKycStatus | src/users/users.service.ts:812-838 | only the KYC status of the one account changes; the missing user error |
| ReferralForest.EnrolledIsRoot | src/auth/auth.service.ts:87-96 | a first login or a new member of staff becomes a root, whatever its role, and nobody else changes |
| UserCollections.UserCollection.UpdateUserBecomeBDA | src/common-service/common.service.ts:652-687 | the user is a BDA; otherwise only originators change, only below the user and only to the user; in an anchored forest every descendant gets the deeper originator, and anchoring survives |
| UserCollections.UserCollection.UpdateUserInfoAfterLosingBDA | src/common-service/common.service.ts:1167-1206 | a demoted USER is COMMON with no personal volume; exactly the USERs that pointed to the demoted user get its originator, nothing else changes; in a well-shaped anchored forest nobody points to the demoted user, and anchoring survives exactly when no root was orphaned |
| ReferralVolume.WalkIsPath | src/users/users.service.ts:85-87 | walking n referrer edges up is reading the path n entries from its end, in both directions |
| ReferralVolume.QueryIsReachability | src/common-service/common.service.ts:951-984 | in every state of every run that deletes nobody with descendants, the membership query returns exactly the users from which the address is reached by referrer edges, nobody reaches itself, and each path starts at a root |
| ReferralVolume.RemovalCutsLine | src/common-service/common.service.ts:1338-1352 | a run with a deletion after which the query returns a user who reaches nobody |
| ReferralVolume.LinesPartition | src/common-service/common.service.ts:965-983 | the subtrees of the direct referees are disjoint and cover exactly the strict descendants |
| ReferralVolume.ChildVolumeIsSubtree | src/common-service/common.service.ts:625-644 | one line's volume is that of the subtree plus the pending revenue if it lands there, also when no transaction matches |
| ReferralVolume.ListChildVolumeTotal | src/common-service/common.service.ts:625-644 | in every state of every such run and for every listing order, the lines add up to the volume of all strict descendants, the pending revenue counted once or not at all |
| ReferralVolume.LineContribution | src/common-service/common.service.ts:625-644 | without transactions a line is 0; a transaction anywhere in the collection adds its revenue to the line of a user exactly when its status is SUCCESS, it is a mint and its buyer is the user or below; the pending one exactly when its buyer is |
| ReferralVolume.TotalContribution | src/common-service/common.service.ts:985-1009 | in every state of every such run and for every listing order, a transaction adds its revenue to the total of the lines exactly when it is a successful mint for a strict descendant, the pending one when its buyer is one |
| TransferLog.PipelineGroups | src/providers/worker/worker.service.ts:63-111 | the join, filter and group pipeline yields one group per key that has a row, with exactly that key's tokens and total |
| TransferLog.TokensCounted | src/providers/worker/worker.service.ts:63-111 | a group lists a token as often as its address received (or sent) it, for NFTs that list the token, and not at all otherwise |
| OwnerReconstruction.CurrentOwners | src/providers/worker/worker.service.ts:236-270 | one pass of the loop emits the received tokens that the address never sent, with multiplicity, and computes received minus sent for ERC-1155 |
| OwnerReconstruction.GroupOwners | src/providers/worker/worker.service.ts:233-274 | for any order of the groups, every NFT with a receipt gets an entry and the entry is the expected multiset of owners |
| OwnerReconstruction.GetOwnerFromTransactionTransfer | src/providers/worker/worker.service.ts:200-275 | the same from the stored log; the flags say exactly who is ADMIN or SUPER_ADMIN, of the owner and of the minted address looked up; an NFT has an entry exactly when somebody received a token it lists, an empty one for ERC-1155 |
| OwnerReconstruction.ReconstructsLabelled | src/providers/worker/worker.service.ts:256-267 | on any log each emitted owner carries the minted address looked up for its token, and each flag holds exactly when that address has the role ADMIN or SUPER_ADMIN; nothing is emitted for ERC-1155 |
| OwnerReconstruction.ReceiptInLog | src/providers/worker/worker.service.ts:233-272 | an NFT has a row to reconstruct from exactly when a non-zero address received a token it lists |
| OwnershipReplay.OwnerBalance | src/providers/worker/worker.service.ts:244-249 | on a well-formed history, receipts minus sendings of an address are one for the owner by replay and zero for everybody else |
| OwnershipReplay.CountPermuted | src/providers/worker/worker.service.ts:86-98 | the counts behind the aggregates do not depend on the order of storage |
| OwnershipReplay.EmittedExactly | src/providers/worker/worker.service.ts:200-275 | whatever the order of storage, (token, address) is emitted exactly when the NFT lists the token, the address is the owner by replay and never sent it; each token at most once |
| OwnershipReplay.CompleteExactly | src/providers/worker/worker.service.ts:200-275 | on well-formed histories stored in any order: always sound, and equal to the replay if and only if no current owner of a listed token ever sent it |
| OwnershipReplay.ReturnedTokenIsLost | src/providers/worker/worker.service.ts:246-249 | mint, transfer and return: the owner by replay is not emitted, nor is anybody else |
| OwnershipReplay.RebuildReturned | src/providers/worker/worker.service.ts:200-275 | the reconstruction run on that log: the NFT has an entry and the token no owner |
| StorageOrder.SameOwnersExactly | src/providers/worker/worker.service.ts:215-272 | on any log, well-formed or not, and for any two orders of storage: the same NFTs have an entry, and an NFT's owners are the same multiset if and only if each token emitted for it has the same last mint in both |
| StorageOrder.ExpectedIsKept | src/providers/worker/worker.service.ts:244-267 | on any log, an owner is emitted as often as the address received the token, if the NFT lists it and the address never sent it, and not at all otherwise |
| StorageOrder.OrderIrrelevantExactly | src/providers/worker/worker.service.ts:215-272 | on any log: the owners of an NFT are the same multiset in every order of storage if and only if each token it lists that somebody received and never sent was minted to one recipient only |
| StorageOrder.RebuiltOrderIrrelevant | src/providers/worker/worker.service.ts:215-272 | under that condition the lists that two runs of the reconstruction return are the same multiset |
| StorageOrder.LastMintFixedExactly | src/providers/worker/worker.service.ts:217-226 | a token's last mint is the same in every order of storage if and only if all its mints have one recipient |
| StorageOrder.StorageOrderIrrelevant | src/providers/worker/worker.service.ts:200-275 | on a well-formed history the owners of every NFT are the same multiset for every order of storage |
| StorageOrder.RebuildDoubleMint | src/providers/worker/worker.service.ts:217-226 | the reconstruction run on two mints of one token in both orders: the owners differ |
| OwnershipReplay.MintedIsLastMint | src/providers/worker/worker.service.ts:220-222 | a token has a minted address exactly when the log mints it, and it is the recipient of the mint stored last |
| OwnershipReplay.MintUnique | src/providers/worker/worker.service.ts:166-198 | a well-formed history mints a token once |
| OwnershipReplay.MintedAddressIsRecipient | src/providers/worker/worker.service.ts:217-266 | each emitted owner carries the recipient of its token's one mint, in any order of storage |
| QuantityLedger.NetQuantityIsHeld | src/providers/worker/worker.service.ts:239-253 | for ERC-1155 logs that a ledger can replay, received minus sent is what the ledger holds of the NFT's tokens, hence not negative |
| QuantityLedger.BurntIsZeroSide | src/providers/worker/worker.service.ts:114-164 | matching burns before the join reports the same quantity as selecting them after it |
| QuantityLedger.QuantityConserved | src/providers/worker/worker.service.ts:114-164 | the net quantities of all holders add up to the quantity minted minus the quantity reported as burnt |
| LeaseLock.RetryBound | src/common-service/common.service.ts:381-405 | a record of the waiter's type survives exactly the attempts, 500 ms apart, before its bound, at most 21 retries for a lease of 10 s; a record of another type survives all |
| LeaseLock.LockCollection.LockDocument | src/common-service/common.service.ts:394-406 | which records survive the purge, unchanged; creation fails exactly when one for the document does, whatever its type; a created one expires 10 s from now |
| LeaseLock.LockCollection.ReleaseDocument | src/common-service/common.service.ts:408-413 | exactly the record with this document and type is gone, whoever created it; every other record is as it was |
| LeaseLock.ReleaseUndoesCreate | src/common-service/common.service.ts:401-413 | creating a record for a free document and releasing it restores the collection if and only if the release names the type of the record |
| LeaseLock.LockCollection.Acquire | src/common-service/common.service.ts:371-392 | alone, the retries end with the caller's own record within the bound of the remaining lease, 500 ms or more after one another, and records of other types are untouched |
| WorkerCompletions.ProtectedAfterRelease | src/common-service/common.service.ts:408-413 | a holder's release deletes its own record and nothing else; a stray one harms exactly when another delivery of its type holds the document |
| WorkerCompletions.ProtectedStep | src/common-service/common.service.ts:371-413 | a step keeps every holder's record in place exactly when it evicts no live holder |
| WorkerCompletions.ProtectedRun | src/common-service/common.service.ts:371-413 | over whole runs: every holder's record is in place in every state if and only if no step evicts a live holder |
| WorkerCompletions.ExclusiveStep | src/common-service/common.service.ts:371-413 | a step keeps sections exclusive exactly when it does not create a record for a document that a live holder is still inside |
| WorkerCompletions.ExclusiveRun | src/common-service/common.service.ts:371-413 | over whole runs: at most one delivery in each document's section in every state if and only if no `create` finds the record of a live holder gone |
| WorkerCompletions.EnteringNeedsEviction | src/common-service/common.service.ts:394-413 | whenever a second delivery enters a section, an earlier purge or stray release evicted a live holder |
| WorkerCompletions.LeaseGivesExclusion | src/common-service/common.service.ts:371-413 | if no holder outstays its lease, locking fails only with duplicate keys and no release after a section fails once it has deleted, at most one delivery is in a document's section, even across lock types, and each release deletes the releaser's record |
| CompletionHistory.RecordedAfterSave | src/common-service/common.service.ts:689-735 | storing a completion keeps this: a stored transaction is SUCCESS with the hash of one of its stored deliveries, what was read is up to date until something is stored, and a mint completion is its transaction's first |
| CompletionHistory.LeaseBoundNoEviction | src/common-service/common.service.ts:394-413 | the same premises rule out every eviction and make sections exclusive |
| CompletionHistory.MintStoresOnce | src/common-service/common.service.ts:689-735 | over any exclusive interleaving, where all deliveries of a transaction are mint events exactly one is stored, and its hash stays |
| CompletionHistory.MintStoresFirst | src/common-service/common.service.ts:697-735 | whatever other deliveries the transaction has: over any exclusive interleaving at most one mint delivery is stored, and before any other |
| CompletionHistory.OverwriteExactly | src/providers/worker/worker.service.ts:307-326 | over any exclusive interleaving, a store lands on a completed transaction if and only if its delivery read the transaction, before locking, ahead of another delivery's store |
| CompletionHistory.CompletionsKeptExactly | src/common-service/common.service.ts:526-555 | over any exclusive interleaving of any mix of deliveries: completed transactions never change, hash included, if and only if no delivery stores a different hash after such a read |
| CompletionHistory.SuccessStays | src/common-service/common.service.ts:526-582 | in every run, stale reads and evictions included, SUCCESS stays SUCCESS, and a hash only changes to that of a later stored delivery |
| WorkerProgress.EndedMeansCompleted | src/common-service/common.service.ts:371-392 | in every run, whatever others do: a delivery that has ended, found its transaction and did not give up on an error leaves it SUCCESS |
| WorkerProgress.EndedExactly | src/common-service/common.service.ts:371-392 | a delivery has ended exactly when it missed its transaction before locking, released after its section, or went through the release of its catch block |
| WorkerProgress.ErrorsLead | src/common-service/common.service.ts:380-391 | where errors can occur and where they lead: the release in the catch block, out of it, or for a duplicate key a wait of 500 ms without a release; what is written in each case |
| WorkerProgress.ComeThrough | src/common-service/common.service.ts:689-735 | for each lock type and status: from a first attempt that meets no unexpired record, a delivery's own steps end with its lock gone and its completion stored, or nothing stored if it saw SUCCESS |
| WorkerProgress.BusyThenThrough | src/common-service/common.service.ts:381-388 | a delivery that meets a record can go on exactly from 500 ms later; once it can and the record is released or expired, its own steps take it into its section and to its end |
| WorkerProgress.ClockReadBefore | src/common-service/common.service.ts:394-406 | a purge deletes what had expired when the clock was read, a record expires 10 s after its own reading, however long either takes |
| LeaseWitnesses.OverrunBreaksExclusion | src/common-service/common.service.ts:394-399 | a run with one late holder ends with two deliveries in one section |
| LeaseWitnesses.DepositIsOverwritten | src/common-service/common.service.ts:526-555 | a run with every lease kept in which a second deposit delivery overwrites the stored hash |
| LeaseWitnesses.DuplicateLosesDeposit | src/common-service/common.service.ts:380-388 | a run in which a deposit delivery whose save fails with a duplicate key ends without storing, its transaction still PROCESSING |
| LeaseWitnesses.FailedLockBreaksExclusion | src/common-service/common.service.ts:376-391 | a run with every lease kept in which a failed lockDocument is followed by a release, which deletes another delivery's record and lets a third one in |
| LeaseWitnesses.FailedReleaseBreaksExclusion | src/common-service/common.service.ts:376-391 | a run with every lease kept and no failed locking in which a release deletes but fails; the release in the catch block deletes the next delivery's record and lets a third one in |
| LeaseWitnesses.EvictionWithoutEntry | src/common-service/common.service.ts:395-399 | a run in which a purge deletes the expired record of a live holder and sections stay exclusive all the same |
| StableSort.ConsistentExactly | src/common-service/common.service.ts:1063-1065 | the comparator is consistent exactly when the field is in every document or those that have it agree on its value; a referee without sales lacks the volume fields |
| StableSort.SortedRefines | src/common-service/common.service.ts:1062-1066 | one pass orders by its key and keeps every earlier-later relation of the input between ties |
| StableSort.OrdersExactly | src/common-service/common.service.ts:1062-1066 | one pass puts every arrangement of a list in order if and only if the comparator is consistent on the list |
| StableSort.MissingFieldBlocks | src/common-service/common.service.ts:1063-1065 | values 2, none, 1 stay in that order under an ascending sort |
| StableSort.SortedByLexicographic | src/common-service/common.service.ts:1059-1067 | for any number of fields: a permutation, lexicographic by the comparators from the last field to the first, stable |
| StableSort.SortedByFields | src/common-service/common.service.ts:1059-1067 | the same in field values: where each field is in every document or does not vary, the last field orders the list upwards or downwards as requested, equal values are ordered by the field before it, and documents that no field tells apart stand as they stood |
| StableSort.SortedByLastField | src/common-service/common.service.ts:1063-1065 | by the last field, for all pairs of places: not greater for ascending, not smaller for descending |
| StableSort.InsertInPlace | src/common-service/common.service.ts:1063-1065 | one element moved in place to behind the last that does not go after it |
| StableSort.SortInPlace | src/common-service/common.service.ts:1063-1065 | the array after one pass |
| StableSort.SortArrayOfObject | src/common-service/common.service.ts:1059-1067 | the array after one pass per requested field, or unchanged without a sort; a permutation, in the order of the field values where the fields can be sorted by |
| RefereePages.CeilDivBounds | src/users/users.service.ts:502-504 | the number of pages in multiplications, for a limit of either sign: page p is below it exactly when it does not reach the end |
| RefereePages.PagesCover | src/users/users.service.ts:312-317 | all pages in a row are the list; a page is empty exactly beyond the last, for page and limit of at least 1 |
| RefereePages.SliceMeaning | src/users/users.service.ts:312-317 | positions below zero count from the end, positions beyond either end are cut off |
| RefereePages.NegativePaging | src/users/users.service.ts:312-317 | what a negative page or limit shows: nothing, or the first document of a list that is short enough |
| RefereePages.TotalInserted | src/users/users.service.ts:481-491 | a document anywhere in the list adds its value to the total, or nothing when it lacks the field |
| RefereePages.RequestDefaults | src/users/users.service.ts:497-519 | absent and zero fall back to 10 and 1 and leave the list whole |
| RefereePages.OrderedMeans | src/users/users.service.ts:493-495 | a request without a sort leaves the list alone, one with a sort rearranges it by field values |
| RefereePages.TotalPermuted | src/users/users.service.ts:481-491 | a total does not depend on the order |
| RefereePages.TotalsMatchPages | src/users/users.service.ts:480-526 | a reported total is the sum over the pages of the sorted list, whatever the sort and limit |
| RefereePages.RefereeList.UpdateInfoPage | src/users/users.service.ts:528-543 | previous and next page, clamped, and the page counter |
| RefereePages.RefereeList.SumFields | src/users/users.service.ts:481-491 | the reduce computes the totals of totalTokenSold, totalVolume and totalMember |
| RefereePages.RefereeList.FillPageInfo | src/users/users.service.ts:497-511 | counts, limit, page, page information for the page as requested, and has-next exactly when the next slice is not empty |
| RefereePages.RefereeList.GetTotalUserInfo | src/users/users.service.ts:480-526 | totals of the input, the page of the ordered list, and page information |
| Counters.CounterCollection.FindNextIndex | src/common-service/common.service.ts:324-342 | the number above the old index, the first call included, and the new store |
| Counters.CounterCollection.FindListIndex | src/common-service/common.service.ts:344-365 | the loop yields the block above the old index, empty for a step that is not positive |
| Counters.GaplessStep | src/common-service/common.service.ts:324-365 | a call keeps the issued numbers equal to 1..index exactly when it is a single step or a range of no negative length |
| Counters.GaplessRun | src/common-service/common.service.ts:324-365 | over any interleaving on any counters: issued numbers are 1..index after every call if and only if every call is regular |
| Counters.StepOfTwoSkips | src/common-service/common.service.ts:324-342 | a run that issues 1 and then 3 |
| Counters.NegativeRangeRepeats | src/common-service/common.service.ts:344-365 | a run that issues 1 twice |
| Marketplace.HistoryStep | src/nfts/nfts.service.ts:310-449 | each lifecycle step keeps one row per NFT, owned as the purchase history says, and the agreement of order id and status |
| Marketplace.OwnershipRun | src/transactions/transactions.service.ts:59-98 | in every state of every run the one owner row of an NFT names the last recorded buyer or else the creator; ON-SALE has an order id and OFF-SALE none |
| Marketplace.OrderRun | src/nfts/nfts.service.ts:366-449 | over whole runs: an order id exactly on ON-SALE NFTs if and only if nobody mints an NFT that is on sale or creates one with an order id |
| Marketplace.HistoryRun | src/nfts/nfts.service.ts:310-449 | in every state of every run, status and order id of every NFT are what the last steps on it said: created, minted, listed, delisted or bought |
| Marketplace.BoughtIsOffSale | src/transactions/transactions.service.ts:88-91 | a bought NFT is OFF-SALE without an order id until it is listed or minted again |
| Marketplace.OwnerRowRun | src/common-service/common.service.ts:1477-1526 | in every state of every run the owner row names the last minter and is MINTED exactly once the NFT has been minted or bought |
| Marketplace.OrderOutlivesListing | src/nfts/nfts.service.ts:366-422 | a run of create, list and mint that ends with a minted NFT with an order id |
| Marketplace.OrderWithoutListing | src/nfts/nfts.service.ts:327-335 | a run of one creation whose request carries an order id |
| Marketplace.DelistUndoesList | src/nfts/nfts.service.ts:394-446 | listing and delisting restore the market if and only if the NFT was OFF-SALE before |
| Marketplace.SoundStep | src/nfts/nfts.service.ts:310-449 | besides keeping ownership by history and the agreement of order id and status, a step touches no other NFT and no other owner row |
| Marketplace.MarketStore.CreateNft | src/nfts/nfts.service.ts:325-341 | the creator owns the new, unminted NFT, which has the order id that the request carried, if any; ownership by history and the agreement of order id and status are kept, other NFTs and owners untouched |
| Marketplace.MarketStore.MintNft | src/nfts/nfts.service.ts:366-392 | the status changes and the order id stays, minting records who minted without changing who owns; both invariants kept, others untouched |
| Marketplace.MarketStore.ListNft | src/nfts/nfts.service.ts:407-422 | an existing NFT is on sale under the order id, owners and history are untouched; both invariants kept, others untouched |
| Marketplace.MarketStore.DelistNft | src/nfts/nfts.service.ts:433-446 | an existing NFT is off sale without an order id, owners and history are untouched; both invariants kept, others untouched |
| Marketplace.MarketStore.BuyNft | src/transactions/transactions.service.ts:67-95 | the NFT is OFF-SALE without an order id, the purchase is recorded with buyer, seller and order, the buyer is the owner and the last recorded buyer; nothing changes for a missing NFT; both invariants kept, others untouched |

## Left out

- WorkerCompletions.Advance: adminMintNFT, deposit and updateAdminAction are steps on values rather than methods, because a method cannot be interleaved; user changes of updateAdminAction, caches and notifications are not part of this model.
- WorkerCompletions.Throw: an error of the read before the lock is not a step (the delivery never starts), nor are the retries that a database transaction makes by itself.
- UserCollections.UserCollection.Update: the read of the referrer and the insert are one step; a promotion, demotion or deletion between the two is not modelled. Field defaults that no modelled operation reads are omitted.
- StableSort.SortedByLexicographic: needs a consistent comparator for each field; where it is not (`ConsistentExactly` says when), section 23.1.3.30 of ECMA-262 leaves the order open; `OrdersExactly` and `MissingFieldBlocks` then speak of the insertion sort that stands for it.
- OwnershipReplay.MintedAddressIsRecipient: on malformed histories the minted address is that of the last mint in the order of storage (`MintedIsLastMint`), and `SameOwnersExactly` says what another order changes.
- Counters.CounterCollection.FindNextIndex: numbers are integers; their decimal strings are not modelled.
- Marketplace.MarketStore.CreateNft: saving the NFT and inserting its owner row are one step, as are the two updates of minting and of buying; price, hashes, metadata, dates and amounts are not kept, and NFTs are not deleted.
- RefereePages.RefereeList.GetTotalUserInfo: page and limit are integers; volumes are real numbers.
- `createNftTest` (an NFT without an owner row) and `addSupplyNft` (supply figures, and a SOLD_OUT status that no modelled operation sets) are not steps.
- User-driven status changes (`updateTransactionHash`, `updateCancelTransaction`) overwrite any status and are outside the completion theorems.
- `canLoseBDAPermission` filters on a field that the owner schema lacks; demotion may happen at any time.
- `transferNFT721` returns early with the empty `formatAddress`; waiting for receipts, IPFS, S3, KMS, KYC and chain calls are inputs or absent.
- Controllers, guards, search pipelines, cache clearing, admin management and notification texts.
