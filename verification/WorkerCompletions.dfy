/**
 Deliveries of worker events that complete a transaction under the lease lock, interleaved in
 any order by any number of processes. Every read of the clock, every query and every update is
 one step, so the time between reading the clock and using the value is part of the model.
 */
module WorkerCompletions {
  import opened LeaseLock
  import opened Transactions
  import opened Wrappers

  type Hash = nat

  datatype Transaction = Transaction(status: TransactionStatus, hash: Hash)

  datatype Delivery = Delivery(lockType: LockType, documentId: DocumentId, hash: Hash)

  /**
   Where a delivery stands. `Fetch` is the read before the lock, `Load` the read under it. `Release` is the
   call of releaseDocument after the section or, when `isLast`, the one in the catch block.
   */
  datatype Point =
    | Fetch
    | Begin
    | Purge(cutoff: Milliseconds)
    | Stamp
    | Create(lockUntil: Milliseconds)
    | Wait(wakeAt: Milliseconds)
    | Load
    | Check
    | Save
    | Release(isLast: bool)
    | Finished

  /**
   `holding`: its own `create` succeeded and it has neither released nor given up since. `snapshot`:
   the document in memory.
   */
  datatype Worker = Worker(delivery: Delivery, point: Point, holding: bool, snapshot: Option<Transaction>)

  /** `saves` is the history of stored completions, oldest first; the program does not keep it. */
  datatype State = State(
    now: Milliseconds,
    locks: map<DocumentId, Lock>,
    workers: map<Process, Worker>,
    transactions: map<DocumentId, Transaction>,
    saves: seq<Delivery>
  )

  /**
   `Throw` is an error other than a duplicate key; with `done`, the operation has had its effect on the
   database all the same and only its reply is lost. `ThrowDuplicate` is an error of the section whose
   text mentions a duplicate key, which withLock takes for a busy lock and retries without releasing.
   */
  datatype Step =
    | Tick(elapsed: nat)
    | Proceed(self: Process)
    | Throw(self: Process, done: bool)
    | ThrowDuplicate(self: Process)

  predicate InSection(point: Point) {
    point.Load? || point.Check? || point.Save?
  }

  predicate Enabled(s: State, step: Step) {
    match step
    case Tick(_) => true
    case Proceed(p) =>
      && p in s.workers
      && !s.workers[p].point.Finished?
      && (s.workers[p].point.Wait? ==> s.now >= s.workers[p].point.wakeAt)
    case Throw(p, _) =>
      && p in s.workers
      && var point := s.workers[p].point;
         InSection(point) || point.Purge? || point.Create? || point.Release?
    case ThrowDuplicate(p) => p in s.workers && InSection(s.workers[p].point)
  }

  function At(s: State, p: Process, w: Worker): State {
    s.(workers := s.workers[p := w])
  }

  /** checkTransactionAlreadyCompleted, which looks at the document in memory. */
  predicate AlreadyCompleted(w: Worker) {
    w.snapshot.Some? && w.snapshot.value.status == SUCCESS
  }

  /** The hash after a save: Mongoose only sends the fields that differ from the document as it was read. */
  function WrittenHash(s: State, p: Process): Hash
    requires p in s.workers
  {
    var w := s.workers[p];
    var d := w.delivery.documentId;
    if d in s.transactions && w.snapshot.Some? && w.snapshot.value.hash == w.delivery.hash
    then s.transactions[d].hash
    else w.delivery.hash
  }

  /** What the operation that `p` is at does to the database. */
  function Effect(s: State, p: Process): State
    requires p in s.workers
  {
    var w := s.workers[p];
    var d := w.delivery.documentId;
    match w.point
    case Purge(cutoff) => s.(locks := Purged(s.locks, w.delivery.lockType, cutoff))
    case Create(lockUntil) =>
      if d in s.locks then s else s.(locks := s.locks[d := Lock(w.delivery.lockType, lockUntil, p)])
    case Save =>
      s.(transactions := s.transactions[d := Transaction(SUCCESS, WrittenHash(s, p))], saves := s.saves + [w.delivery])
    case Release(_) => s.(locks := Released(s.locks, w.delivery.lockType, d))
    case _ => s
  }

  /** The normal course of withLock around adminMintNFT, deposit or updateAdminAction. */
  function Moved(s: State, p: Process): Worker
    requires p in s.workers
  {
    var w := s.workers[p];
    var d := w.delivery.documentId;
    match w.point
    case Fetch =>
      if d in s.transactions
      then w.(point := Begin, snapshot := Some(s.transactions[d]))
      else w.(point := Finished)
    case Begin => w.(point := Purge(s.now))
    case Purge(_) => w.(point := Stamp)
    case Stamp => w.(point := Create(s.now + LEASE))
    case Create(_) =>
      if d in s.locks then w.(point := Wait(s.now + RETRY_WAIT))
      else w.(point := if w.delivery.lockType == ADMIN_MINT_NFT then Load else Check, holding := true)
    case Wait(_) => w.(point := Begin)
    case Load =>
      if d in s.transactions
      then w.(point := Check, snapshot := Some(s.transactions[d]))
      else w.(point := Release(false))
    case Check => w.(point := if AlreadyCompleted(w) then Release(false) else Save)
    case Save => w.(point := Release(false))
    case Release(_) => w.(point := Finished, holding := false)
    case Finished => w
  }

  /** An error leads to the release in the catch block, and an error of that one out of withLock. */
  function Failed(w: Worker, done: bool): Worker {
    if w.point.Release?
    then w.(point := if w.point.isLast then Finished else Release(true),
            holding := w.holding && !done && !w.point.isLast)
    else w.(point := Release(true))
  }

  function Advance(s: State, p: Process): State
    requires Enabled(s, Proceed(p))
  {
    At(Effect(s, p), p, Moved(s, p))
  }

  function Next(s: State, step: Step): State
    requires Enabled(s, step)
  {
    match step
    case Tick(elapsed) => s.(now := s.now + elapsed)
    case Proceed(p) => Advance(s, p)
    case Throw(p, done) => At(if done then Effect(s, p) else s, p, Failed(s.workers[p], done))
    case ThrowDuplicate(p) =>
      // The in-memory document that a failed save leaves behind already says SUCCESS.
      var w := s.workers[p];
      At(s, p, w.(point := Wait(s.now + RETRY_WAIT), holding := false,
                  snapshot := if w.point.Save? then Some(Transaction(SUCCESS, w.delivery.hash)) else w.snapshot))
  }

  /** A step in which the operation of `self` has its effect. */
  predicate TakesEffect(step: Step) {
    step.Proceed? || (step.Throw? && step.done)
  }

  /** Abandoned lock records may be around; every delivery is yet to start. */
  ghost predicate Init(s: State) {
    && s.saves == []
    && forall p :: p in s.workers ==>
         && !s.workers[p].holding && s.workers[p].snapshot == None
         && s.workers[p].point == (if s.workers[p].delivery.lockType == ADMIN_MINT_NFT then Begin else Fetch)
  }

  ghost predicate IsRun(states: seq<State>, steps: seq<Step>) {
    && |states| == |steps| + 1
    && Init(states[0])
    && forall i :: 0 <= i < |steps| ==> IsStep(states[i], steps[i], states[i + 1])
  }

  ghost predicate IsStep(s: State, step: Step, s': State) {
    Enabled(s, step) && s' == Next(s, step)
  }

  // ---------------------------------------------------------------- well-formed workers

  ghost predicate WellFormed(s: State) {
    forall p :: p in s.workers ==>
      var w := s.workers[p];
      && (InSection(w.point) ==> w.holding)
      && (w.holding ==> InSection(w.point) || w.point.Release?)
      && (w.point.Purge? ==> w.point.cutoff <= s.now)
  }

  lemma WellFormedStep(s: State, step: Step)
    requires WellFormed(s) && Enabled(s, step)
    ensures WellFormed(Next(s, step))
  {
  }

  lemma WellFormedAlways(states: seq<State>, steps: seq<Step>, i: nat)
    requires IsRun(states, steps) && i < |states|
    ensures WellFormed(states[i])
  {
    if i > 0 {
      WellFormedAlways(states, steps, i - 1);
      assert IsStep(states[i - 1], steps[i - 1], states[i]);
      WellFormedStep(states[i - 1], steps[i - 1]);
    }
  }

  // ---------------------------------------------------------------- mutual exclusion

  /** Every holder's own record is the one in the collection. */
  ghost predicate Protected(s: State) {
    forall p :: p in s.workers && s.workers[p].holding ==> ProtectedAt(s, p)
  }

  ghost predicate ProtectedAt(s: State, p: Process)
    requires p in s.workers
  {
    var d := s.workers[p].delivery.documentId;
    && d in s.locks
    && s.locks[d].createdBy == p
    && s.locks[d].lockType == s.workers[p].delivery.lockType
  }

  /** At most one delivery is inside the section of a document, whatever the lock types. */
  ghost predicate Exclusive(s: State) {
    forall p, q :: p in s.workers && q in s.workers && s.workers[p].holding && s.workers[q].holding ==>
      (s.workers[p].delivery.documentId == s.workers[q].delivery.documentId ==> p == q)
  }

  lemma ProtectedIsExclusive(s: State)
    requires Protected(s)
    ensures Exclusive(s)
  {
    forall p, q | p in s.workers && q in s.workers && s.workers[p].holding && s.workers[q].holding
                  && s.workers[p].delivery.documentId == s.workers[q].delivery.documentId
      ensures p == q
    {
      assert ProtectedAt(s, p) && ProtectedAt(s, q);
    }
  }

  /** The purge that `p` is about to run deletes the record of a live holder. */
  ghost predicate PurgesHolder(s: State, p: Process) {
    && p in s.workers
    && s.workers[p].point.Purge?
    && exists q :: q in s.workers && s.workers[q].holding
                   && var d := s.workers[q].delivery.documentId;
                      && d in s.locks
                      && s.locks[d].lockType == s.workers[p].delivery.lockType
                      && s.locks[d].lockUntil < s.workers[p].point.cutoff
  }

  /** `p` is about to release a lock that it does not hold but another delivery of its type does. */
  ghost predicate ReleasesForeign(s: State, p: Process) {
    && p in s.workers
    && s.workers[p].point.Release?
    && !s.workers[p].holding
    && exists q :: q in s.workers && s.workers[q].holding
                   && s.workers[q].delivery.documentId == s.workers[p].delivery.documentId
                   && s.workers[q].delivery.lockType == s.workers[p].delivery.lockType
  }

  ghost predicate Evicts(s: State, step: Step) {
    TakesEffect(step) && (PurgesHolder(s, step.self) || ReleasesForeign(s, step.self))
  }

  lemma ProtectedAfterPurge(s: State, step: Step)
    requires WellFormed(s) && Protected(s) && Enabled(s, step) && TakesEffect(step)
    requires s.workers[step.self].point.Purge?
    ensures Protected(Next(s, step)) <==> !PurgesHolder(s, step.self)
  {
    var p, s' := step.self, Next(s, step);
    if PurgesHolder(s, p) {
      var q :| q in s.workers && s.workers[q].holding
               && var d := s.workers[q].delivery.documentId;
                  && d in s.locks
                  && s.locks[d].lockType == s.workers[p].delivery.lockType
                  && s.locks[d].lockUntil < s.workers[p].point.cutoff;
      assert q in s'.workers && s'.workers[q].holding && !ProtectedAt(s', q);
    } else {
      forall q | q in s'.workers && s'.workers[q].holding ensures ProtectedAt(s', q) {
        assert ProtectedAt(s, q);
      }
    }
  }

  lemma ProtectedAfterRelease(s: State, step: Step)
    requires WellFormed(s) && Protected(s) && Enabled(s, step) && TakesEffect(step)
    requires s.workers[step.self].point.Release?
    ensures Protected(Next(s, step)) <==> !ReleasesForeign(s, step.self)
    ensures s.workers[step.self].holding ==>
              var d := s.workers[step.self].delivery.documentId;
              && d in s.locks && s.locks[d].createdBy == step.self
              && Next(s, step).locks == s.locks - {d}
  {
    var p, s' := step.self, Next(s, step);
    var w := s.workers[p];
    if w.holding {
      assert ProtectedAt(s, p);
    }
    if ReleasesForeign(s, p) {
      var q :| q in s.workers && s.workers[q].holding
               && s.workers[q].delivery.documentId == w.delivery.documentId
               && s.workers[q].delivery.lockType == w.delivery.lockType;
      assert ProtectedAt(s, q);
      assert q in s'.workers && s'.workers[q].holding && !ProtectedAt(s', q);
    } else {
      forall q | q in s'.workers && s'.workers[q].holding ensures ProtectedAt(s', q) {
        assert ProtectedAt(s, q);
      }
    }
  }

  lemma ProtectedAfterOther(s: State, step: Step)
    requires WellFormed(s) && Protected(s) && Enabled(s, step)
    requires TakesEffect(step) ==> !s.workers[step.self].point.Purge? && !s.workers[step.self].point.Release?
    ensures Protected(Next(s, step))
  {
    var s' := Next(s, step);
    forall q | q in s'.workers && s'.workers[q].holding ensures ProtectedAt(s', q) {
      if s.workers[q].holding {
        assert ProtectedAt(s, q);
      }
    }
  }

  lemma ProtectedStep(s: State, step: Step)
    requires WellFormed(s) && Protected(s) && Enabled(s, step)
    ensures Protected(Next(s, step)) <==> !Evicts(s, step)
  {
    if TakesEffect(step) && s.workers[step.self].point.Purge? {
      ProtectedAfterPurge(s, step);
    } else if TakesEffect(step) && s.workers[step.self].point.Release? {
      ProtectedAfterRelease(s, step);
    } else {
      ProtectedAfterOther(s, step);
    }
  }

  lemma ProtectedUpTo(states: seq<State>, steps: seq<Step>, n: nat)
    requires IsRun(states, steps) && n < |states|
    requires forall i :: 0 <= i < n ==> !Evicts(states[i], steps[i])
    ensures Protected(states[n])
  {
    if n > 0 {
      ProtectedUpTo(states, steps, n - 1);
      WellFormedAlways(states, steps, n - 1);
      assert IsStep(states[n - 1], steps[n - 1], states[n]);
      ProtectedStep(states[n - 1], steps[n - 1]);
    }
  }

  /**
   Over a whole run, every holder keeps its own record in every state exactly when no purge and
   no stray release evicts a live holder. ExclusiveRun is the statement about the sections.
   */
  lemma ProtectedRun(states: seq<State>, steps: seq<Step>)
    requires IsRun(states, steps)
    ensures (forall i :: 0 <= i < |states| ==> Protected(states[i]))
        <==> (forall i :: 0 <= i < |steps| ==> !Evicts(states[i], steps[i]))
    ensures (forall i :: 0 <= i < |steps| ==> !Evicts(states[i], steps[i])) ==>
              forall i :: 0 <= i < |states| ==> Exclusive(states[i])
  {
    if forall i :: 0 <= i < |states| ==> Protected(states[i]) {
      forall i | 0 <= i < |steps| ensures !Evicts(states[i], steps[i]) {
        WellFormedAlways(states, steps, i);
        assert IsStep(states[i], steps[i], states[i + 1]);
        ProtectedStep(states[i], steps[i]);
        assert Protected(states[i + 1]);
      }
    }
    if forall i :: 0 <= i < |steps| ==> !Evicts(states[i], steps[i]) {
      forall i | 0 <= i < |states| ensures Protected(states[i]) && Exclusive(states[i]) {
        ProtectedUpTo(states, steps, i);
        ProtectedIsExclusive(states[i]);
      }
    }
  }

  /**
   `p` is about to create a record for a document that a live holder is still inside: the holder's
   own record is no longer there to stop it.
   */
  ghost predicate EntersHeld(s: State, step: Step) {
    && step.Proceed?
    && step.self in s.workers
    && s.workers[step.self].point.Create?
    && s.workers[step.self].delivery.documentId !in s.locks
    && exists q :: q in s.workers && s.workers[q].holding
                   && s.workers[q].delivery.documentId == s.workers[step.self].delivery.documentId
  }

  lemma ExclusiveAfterCreate(s: State, p: Process)
    requires WellFormed(s) && Exclusive(s) && Enabled(s, Proceed(p)) && s.workers[p].point.Create?
    ensures Exclusive(Advance(s, p)) <==> !EntersHeld(s, Proceed(p))
  {
    var s' := Advance(s, p);
    if EntersHeld(s, Proceed(p)) {
      var q :| q in s.workers && s.workers[q].holding
               && s.workers[q].delivery.documentId == s.workers[p].delivery.documentId;
      assert q != p && s'.workers[q] == s.workers[q] && s'.workers[p].holding;
    }
  }

  lemma ExclusiveStep(s: State, step: Step)
    requires WellFormed(s) && Exclusive(s) && Enabled(s, step)
    ensures Exclusive(Next(s, step)) <==> !EntersHeld(s, step)
  {
    if step.Proceed? && s.workers[step.self].point.Create? {
      ExclusiveAfterCreate(s, step.self);
    } else {
      NobodyElseEnters(s, step);
    }
  }

  lemma NobodyElseEnters(s: State, step: Step)
    requires WellFormed(s) && Enabled(s, step)
    requires step.Proceed? ==> !s.workers[step.self].point.Create?
    ensures var s' := Next(s, step);
            && s'.workers.Keys == s.workers.Keys
            && forall q :: q in s.workers ==>
                 && s'.workers[q].delivery == s.workers[q].delivery
                 && (s'.workers[q].holding ==> s.workers[q].holding)
  {
  }

  lemma ProtectedMeansNotEntering(s: State, step: Step)
    requires Protected(s)
    ensures !EntersHeld(s, step)
  {
    forall q | q in s.workers && s.workers[q].holding
      ensures s.workers[q].delivery.documentId in s.locks
    {
      assert ProtectedAt(s, q);
    }
  }

  /** Entering a held document takes an earlier eviction. */
  lemma EnteringNeedsEviction(states: seq<State>, steps: seq<Step>, i: nat)
    requires IsRun(states, steps) && i < |steps| && EntersHeld(states[i], steps[i])
    ensures exists j :: 0 <= j < i && Evicts(states[j], steps[j])
  {
    if forall j :: 0 <= j < i ==> !Evicts(states[j], steps[j]) {
      ProtectedUpTo(states, steps, i);
      ProtectedMeansNotEntering(states[i], steps[i]);
    }
  }

  lemma ExclusiveUpTo(states: seq<State>, steps: seq<Step>, n: nat)
    requires IsRun(states, steps) && n < |states|
    requires forall i :: 0 <= i < n ==> !EntersHeld(states[i], steps[i])
    ensures Exclusive(states[n])
  {
    if n > 0 {
      ExclusiveUpTo(states, steps, n - 1);
      WellFormedAlways(states, steps, n - 1);
      assert IsStep(states[n - 1], steps[n - 1], states[n]);
      ExclusiveStep(states[n - 1], steps[n - 1]);
    }
  }

  /**
   Over a whole run, at most one delivery is inside the section of each document in every state
   exactly when no `create` finds the record of a live holder gone.
   */
  lemma ExclusiveRun(states: seq<State>, steps: seq<Step>)
    requires IsRun(states, steps)
    ensures (forall i :: 0 <= i < |states| ==> Exclusive(states[i]))
        <==> (forall i :: 0 <= i < |steps| ==> !EntersHeld(states[i], steps[i]))
  {
    if forall i :: 0 <= i < |states| ==> Exclusive(states[i]) {
      forall i | 0 <= i < |steps| ensures !EntersHeld(states[i], steps[i]) {
        WellFormedAlways(states, steps, i);
        assert IsStep(states[i], steps[i], states[i + 1]);
        ExclusiveStep(states[i], steps[i]);
        assert Exclusive(states[i + 1]);
      }
    }
    if forall i :: 0 <= i < |steps| ==> !EntersHeld(states[i], steps[i]) {
      forall i | 0 <= i < |states| ensures Exclusive(states[i]) {
        ExclusiveUpTo(states, steps, i);
      }
    }
  }

  /** No holder outstays the lease written in its record. */
  ghost predicate OnTime(s: State) {
    forall p :: p in s.workers && s.workers[p].holding ==>
      var d := s.workers[p].delivery.documentId;
      d in s.locks && s.locks[d].createdBy == p ==> s.now <= s.locks[d].lockUntil
  }

  /** lockDocument fails with something other than a duplicate key. */
  predicate LockingFails(s: State, step: Step) {
    step.Throw? && step.self in s.workers
    && (s.workers[step.self].point.Purge? || s.workers[step.self].point.Create?)
  }

  /** The release after the section deletes the record but fails, so that the catch block releases again. */
  predicate ReleaseFails(s: State, step: Step) {
    step.Throw? && step.done && step.self in s.workers && s.workers[step.self].point == Release(false)
  }

  /** The lock is used as meant: within the lease, and without the two errors above. */
  ghost predicate Orderly(s: State, step: Step) {
    OnTime(s) && !LockingFails(s, step) && !ReleaseFails(s, step)
  }

  lemma LeasesHoldUpTo(states: seq<State>, steps: seq<Step>, n: nat)
    requires IsRun(states, steps) && n < |states|
    requires forall i :: 0 <= i < n ==> Orderly(states[i], steps[i])
    ensures Protected(states[n])
    ensures forall p :: p in states[n].workers && states[n].workers[p].point.Release? ==> states[n].workers[p].holding
    ensures forall i :: 0 <= i < n ==> !Evicts(states[i], steps[i])
  {
    if n > 0 {
      var s := states[n - 1];
      LeasesHoldUpTo(states, steps, n - 1);
      WellFormedAlways(states, steps, n - 1);
      assert Orderly(s, steps[n - 1]);
      assert IsStep(s, steps[n - 1], states[n]);
      forall q | q in s.workers && s.workers[q].holding
        ensures var d := s.workers[q].delivery.documentId; d in s.locks && s.now <= s.locks[d].lockUntil
      {
        assert ProtectedAt(s, q);
      }
      ProtectedStep(s, steps[n - 1]);
    }
  }

  /**
   If no holder outstays its lease, lockDocument only ever fails with a duplicate key, and no release
   after a section fails once it has deleted the record, then in every state of every run sections of
   one document are exclusive, even across lock types, and every release deletes the releaser's own
   record and nothing else.
   */
  lemma LeaseGivesExclusion(states: seq<State>, steps: seq<Step>, i: nat)
    requires IsRun(states, steps) && i < |states|
    requires forall j :: 0 <= j < |steps| ==> Orderly(states[j], steps[j])
    ensures Exclusive(states[i])
    ensures i < |steps| && TakesEffect(steps[i]) && steps[i].self in states[i].workers
            && states[i].workers[steps[i].self].point.Release? ==>
              var d := states[i].workers[steps[i].self].delivery.documentId;
              && d in states[i].locks && states[i].locks[d].createdBy == steps[i].self
              && states[i + 1].locks == states[i].locks - {d}
  {
    LeasesHoldUpTo(states, steps, i);
    ProtectedIsExclusive(states[i]);
    WellFormedAlways(states, steps, i);
    if i < |steps| {
      assert IsStep(states[i], steps[i], states[i + 1]);
      if TakesEffect(steps[i]) && states[i].workers[steps[i].self].point.Release? {
        ProtectedAfterRelease(states[i], steps[i]);
      }
    }
  }
}
