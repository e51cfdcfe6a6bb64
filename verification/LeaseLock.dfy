/**
 The `locks` collection: one record per document (a unique index on `documentId`), a ten
 second lease, expired records purged by type, records released by type and document.
 */
module LeaseLock {
  type DocumentId = nat
  type Process = nat
  type Milliseconds = int

  const LEASE: Milliseconds := 10_000
  const RETRY_WAIT: Milliseconds := 500

  datatype LockType = ADMIN_MINT_NFT | DEPOSIT | ADMIN_SETTING

  /** `createdBy` is not stored by the program; it records whose `create` made the document. */
  datatype Lock = Lock(lockType: LockType, lockUntil: Milliseconds, createdBy: Process)

  /** `deleteMany({ type, lockUntil: { $lt: cutoff } })`. */
  function Purged(locks: map<DocumentId, Lock>, lockType: LockType, cutoff: Milliseconds): map<DocumentId, Lock> {
    map d | d in locks && !(locks[d].lockType == lockType && locks[d].lockUntil < cutoff) :: locks[d]
  }

  /** `deleteOne({ type, documentId })`. */
  function Released(locks: map<DocumentId, Lock>, lockType: LockType, documentId: DocumentId): map<DocumentId, Lock> {
    if documentId in locks && locks[documentId].lockType == lockType then locks - {documentId} else locks
  }

  /**
   Creating a record for a free document and releasing it leaves the collection as it was, exactly
   when the release names the type the record was created with.
   */
  lemma ReleaseUndoesCreate(
    locks: map<DocumentId, Lock>, lock: Lock, lockType: LockType, documentId: DocumentId)
    requires documentId !in locks
    ensures Released(locks[documentId := lock], lockType, documentId) == locks <==> lock.lockType == lockType
  {
    var locked := locks[documentId := lock];
    assert documentId in locked && locked - {documentId} == locks;
  }

  /** How often a lone waiter must retry before a record that expires at `lockUntil` is purged. */
  function RetriesNeeded(now: Milliseconds, lockUntil: Milliseconds): nat {
    if lockUntil < now then 0 else (lockUntil - now) / RETRY_WAIT + 1
  }

  /**
   21 retries outlast any lease that has not been extended, and with waits of exactly 500 ms
   no smaller number does: the record is still there at every earlier attempt. A record of
   another type is never purged at all.
   */
  lemma RetryBound(locks: map<DocumentId, Lock>, lockType: LockType, documentId: DocumentId, now: Milliseconds)
    requires documentId in locks && locks[documentId].lockUntil <= now + 10_000
    ensures RetriesNeeded(now, locks[documentId].lockUntil) <= 21
    ensures locks[documentId].lockUntil == now + 10_000 ==> RetriesNeeded(now, locks[documentId].lockUntil) == 21
    ensures forall k: nat ::
              documentId in Purged(locks, lockType, now + k * 500) <==>
              locks[documentId].lockType != lockType || k < RetriesNeeded(now, locks[documentId].lockUntil)
  {
    var lockUntil := locks[documentId].lockUntil;
    forall k: nat
      ensures documentId in Purged(locks, lockType, now + k * 500) <==>
              locks[documentId].lockType != lockType || k < RetriesNeeded(now, lockUntil)
    {
      assert lockUntil < now + k * 500 <==> RetriesNeeded(now, lockUntil) <= k;
    }
  }

  /** The collection together with the clock that `new Date()` reads. */
  class LockCollection {
    var locks: map<DocumentId, Lock>
    var now: Milliseconds

    constructor (locks: map<DocumentId, Lock>, now: Milliseconds)
      ensures this.locks == locks && this.now == now
    {
      this.locks := locks;
      this.now := now;
    }

    /** lockDocument: false stands for the duplicate key error of `create`. */
    method LockDocument(self: Process, lockType: LockType, documentId: DocumentId) returns (created: bool)
      modifies this`locks
      ensures created <==> documentId !in Purged(old(locks), lockType, now)
      ensures locks ==
              if created
              then Purged(old(locks), lockType, now)[documentId := Lock(lockType, now + LEASE, self)]
              else Purged(old(locks), lockType, now)
      ensures created ==> locks[documentId] == Lock(lockType, now + 10_000, self)
      ensures forall d :: d in locks <==>
                || (d in old(locks) && !(old(locks)[d].lockType == lockType && old(locks)[d].lockUntil < now))
                || (created && d == documentId)
      ensures forall d :: d in locks && !(created && d == documentId) ==> locks[d] == old(locks)[d]
    {
      locks := Purged(locks, lockType, now);
      created := documentId !in locks;
      if created {
        locks := locks[documentId := Lock(lockType, now + LEASE, self)];
      }
    }

    method ReleaseDocument(lockType: LockType, documentId: DocumentId)
      modifies this`locks
      ensures locks == Released(old(locks), lockType, documentId)
      ensures forall d :: d in locks <==>
                d in old(locks) && !(d == documentId && old(locks)[d].lockType == lockType)
      ensures forall d :: d in locks ==> locks[d] == old(locks)[d]
    {
      if documentId in locks && locks[documentId].lockType == lockType {
        locks := locks - {documentId};
      }
    }

    /** Utils.wait: the clock advances by at least the requested time. */
    method Wait(atLeast: Milliseconds)
      requires atLeast >= 0
      modifies this`now
      ensures now >= old(now) + atLeast
    {
      var delay: int :| delay >= 0;
      now := now + atLeast + delay;
    }

    /**
     The retries of withLock when nobody else contends: an abandoned record of the same type
     is outlived after a number of retries that its remaining lease bounds.
     */
    method Acquire(self: Process, lockType: LockType, documentId: DocumentId, retry: nat) returns (retries: nat)
      requires documentId in locks ==> locks[documentId].lockType == lockType
      modifies this
      ensures documentId in locks && locks[documentId] == Lock(lockType, now + 10_000, self)
      ensures now >= old(now) + 500 * (retries - retry)
      ensures retry <= retries <=
              retry + if documentId in old(locks) then RetriesNeeded(old(now), old(locks)[documentId].lockUntil) else 0
      ensures forall d :: d in old(locks) && old(locks)[d].lockType != lockType ==>
                d in locks && locks[d] == old(locks)[d]
      decreases if documentId in locks then RetriesNeeded(now, locks[documentId].lockUntil) else 0
    {
      var created := LockDocument(self, lockType, documentId);
      if created {
        return retry;
      }
      Wait(RETRY_WAIT);
      retries := Acquire(self, lockType, documentId, retry + 1);
    }
  }
}
