/** What the interleaved completions leave in the transactions, over whole runs. */
module CompletionHistory {
  import opened LeaseLock
  import opened Transactions
  import opened WorkerCompletions
  import opened Wrappers

  /** Every stored completion left its transaction SUCCESS, with the hash of one of the stored deliveries. */
  ghost predicate Stored(s: State) {
    forall i :: 0 <= i < |s.saves| ==> StoredAt(s, s.saves[i].documentId)
  }

  ghost predicate StoredAt(s: State, d: DocumentId) {
    && d in s.transactions
    && s.transactions[d].status == SUCCESS
    && exists j :: 0 <= j < |s.saves| && s.saves[j].documentId == d && s.saves[j].hash == s.transactions[d].hash
  }

  ghost predicate Untouched(s: State, d: DocumentId) {
    forall k :: 0 <= k < |s.saves| ==> s.saves[k].documentId != d
  }

  /** What a delivery read is still so while nothing is stored; under its lock a mint delivery is up to date. */
  ghost predicate Informed(s: State) {
    forall p :: p in s.workers ==> InformedAt(s, p)
  }

  ghost predicate InformedAt(s: State, p: Process)
    requires p in s.workers
  {
    var w := s.workers[p];
    var d := w.delivery.documentId;
    && (w.snapshot.Some? ==> d in s.transactions)
    && (w.snapshot.Some? && !AlreadyCompleted(w) && Untouched(s, d) ==> w.snapshot == Some(s.transactions[d]))
    && (w.point.Save? ==> w.snapshot.Some? && !AlreadyCompleted(w))
    && (w.delivery.lockType != ADMIN_MINT_NFT && !w.point.Fetch? && !w.point.Finished? ==> w.snapshot.Some?)
    && (w.delivery.lockType == ADMIN_MINT_NFT && (w.point.Check? || w.point.Save?) ==>
          d in s.transactions && w.snapshot == Some(s.transactions[d]))
  }

  /** A completion stored by a mint delivery is the first one of its transaction. */
  ghost predicate MintIsFirst(saves: seq<Delivery>) {
    forall i, j :: 0 <= i < j < |saves| && saves[i].documentId == saves[j].documentId ==>
      saves[j].lockType != ADMIN_MINT_NFT
  }

  ghost predicate Recorded(s: State) {
    Stored(s) && Informed(s) && MintIsFirst(s.saves)
  }

  /** The step in which the completion of `p` reaches the database. */
  predicate Stores(s: State, step: Step, p: Process) {
    TakesEffect(step) && step.self == p && p in s.workers && s.workers[p].point.Save?
  }

  lemma StoredAfterSave(s: State, step: Step, p: Process)
    requires Stored(s) && Informed(s) && Enabled(s, step) && Stores(s, step, p)
    ensures Stored(Next(s, step))
  {
    var s' := Next(s, step);
    var d := s.workers[p].delivery.documentId;
    assert InformedAt(s, p);
    forall e | e == d || StoredAt(s, e) ensures StoredAt(s', e) {
      var n := |s.saves|;
      if e == d && WrittenHash(s, p) == s.workers[p].delivery.hash {
        assert s'.saves[n] == s.workers[p].delivery;
      } else if e == d {
        assert !Untouched(s, d);
        var k :| 0 <= k < n && s.saves[k].documentId == d;
        assert StoredAt(s, s.saves[k].documentId);
      }
      if StoredAt(s, e) {
        var j :| 0 <= j < n && s.saves[j].documentId == e && s.saves[j].hash == s.transactions[e].hash;
        assert s'.saves[j] == s.saves[j];
      }
    }
  }

  lemma RecordedAfterSave(s: State, step: Step, p: Process)
    requires WellFormed(s) && Exclusive(s) && Recorded(s)
    requires Enabled(s, step) && Stores(s, step, p)
    ensures Recorded(Next(s, step))
  {
    var s' := Next(s, step);
    StoredAfterSave(s, step, p);
    assert InformedAt(s, p);
    assert s'.saves[|s.saves|] == s.workers[p].delivery;
    forall i | 0 <= i < |s.saves| ensures StoredAt(s, s.saves[i].documentId) {
    }
    forall q | q in s'.workers ensures InformedAt(s', q) {
      assert InformedAt(s, q);
      if Untouched(s', s.workers[q].delivery.documentId) {
        forall k | 0 <= k < |s.saves| ensures s.saves[k].documentId != s.workers[q].delivery.documentId {
          assert s'.saves[k] == s.saves[k];
        }
      }
    }
  }

  /** Steps that store nothing: the one of `q` itself, and the ones of anybody else. */
  lemma InformedOwnStep(s: State, step: Step)
    requires Enabled(s, step) && !step.Tick? && !Stores(s, step, step.self)
    requires InformedAt(s, step.self)
    ensures InformedAt(Next(s, step), step.self)
  {
  }

  lemma InformedOtherStep(s: State, step: Step, q: Process)
    requires q in s.workers && InformedAt(s, q) && Enabled(s, step)
    requires step.Tick? || (step.self != q && !Stores(s, step, step.self))
    ensures q in Next(s, step).workers && InformedAt(Next(s, step), q)
  {
  }

  lemma StoredFrame(s: State, s': State)
    requires Stored(s) && s'.saves == s.saves && s'.transactions == s.transactions
    ensures Stored(s')
  {
    forall i | 0 <= i < |s'.saves| ensures StoredAt(s', s'.saves[i].documentId) {
      assert StoredAt(s, s.saves[i].documentId);
    }
  }

  lemma NothingStored(s: State, step: Step)
    requires Enabled(s, step) && (step.Tick? || !Stores(s, step, step.self))
    ensures Next(s, step).saves == s.saves && Next(s, step).transactions == s.transactions
    ensures Next(s, step).workers.Keys == s.workers.Keys
  {
  }

  lemma RecordedStep(s: State, step: Step)
    requires WellFormed(s) && Exclusive(s) && Recorded(s) && Enabled(s, step)
    ensures Recorded(Next(s, step))
  {
    if !step.Tick? && Stores(s, step, step.self) {
      RecordedAfterSave(s, step, step.self);
    } else {
      var s' := Next(s, step);
      NothingStored(s, step);
      StoredFrame(s, s');
      forall q | q in s'.workers ensures InformedAt(s', q) {
        assert InformedAt(s, q);
        if !step.Tick? && step.self == q {
          InformedOwnStep(s, step);
        } else {
          InformedOtherStep(s, step, q);
        }
      }
    }
  }

  /** At no time are two deliveries inside the section of one document; ExclusiveRun says when. */
  ghost predicate Excluding(states: seq<State>, steps: seq<Step>) {
    IsRun(states, steps) && forall i :: 0 <= i < |states| ==> Exclusive(states[i])
  }

  /** The lease bound rules evictions out, and with them a second delivery in a section. */
  lemma LeaseBoundNoEviction(states: seq<State>, steps: seq<Step>)
    requires IsRun(states, steps)
    requires forall j :: 0 <= j < |steps| ==> Orderly(states[j], steps[j])
    ensures forall i :: 0 <= i < |steps| ==> !Evicts(states[i], steps[i])
    ensures Excluding(states, steps)
  {
    LeasesHoldUpTo(states, steps, |steps|);
    ProtectedRun(states, steps);
  }

  lemma RecordedAlways(states: seq<State>, steps: seq<Step>, i: nat)
    requires Excluding(states, steps) && i < |states|
    ensures Recorded(states[i])
  {
    if i > 0 {
      RecordedAlways(states, steps, i - 1);
      WellFormedAlways(states, steps, i - 1);
      assert IsStep(states[i - 1], steps[i - 1], states[i]);
      RecordedStep(states[i - 1], steps[i - 1]);
    }
  }

  /** Deliveries never change, and every stored completion belongs to one of them. */
  lemma DeliveriesFixed(states: seq<State>, steps: seq<Step>, i: nat)
    requires IsRun(states, steps) && i < |states|
    ensures states[i].workers.Keys == states[0].workers.Keys
    ensures forall p :: p in states[i].workers ==> states[i].workers[p].delivery == states[0].workers[p].delivery
    ensures forall k :: 0 <= k < |states[i].saves| ==>
              exists p :: p in states[0].workers && states[0].workers[p].delivery == states[i].saves[k]
  {
    if i > 0 {
      DeliveriesFixed(states, steps, i - 1);
      var s, s' := states[i - 1], states[i];
      assert IsStep(s, steps[i - 1], s');
      DeliveriesStep(s, steps[i - 1]);
      forall k | 0 <= k < |s'.saves|
        ensures exists p :: p in states[0].workers && states[0].workers[p].delivery == s'.saves[k]
      {
        if k == |s.saves| {
          var p := steps[i - 1].self;
          assert states[0].workers[p].delivery == s'.saves[k];
        } else {
          assert s'.saves[k] == s.saves[k];
        }
      }
    }
  }

  lemma DeliveriesStep(s: State, step: Step)
    requires Enabled(s, step)
    ensures var s' := Next(s, step);
            && s'.workers.Keys == s.workers.Keys
            && (forall p :: p in s.workers ==> s'.workers[p].delivery == s.workers[p].delivery)
            && (s'.saves == s.saves ||
                (TakesEffect(step) && step.self in s.workers && s'.saves == s.saves + [s.workers[step.self].delivery]))
  {
  }

  lemma SavesGrow(states: seq<State>, steps: seq<Step>, i: nat, j: nat)
    requires IsRun(states, steps) && i <= j < |states|
    ensures states[i].saves <= states[j].saves
  {
    if i < j {
      SavesGrow(states, steps, i, j - 1);
      assert IsStep(states[j - 1], steps[j - 1], states[j]);
    }
  }

  /**
   Over any exclusive interleaving, among the deliveries of one mint event exactly one is
   ever stored: once it is, its hash is the transaction's hash in every later state.
   */
  lemma MintStoresOnce(states: seq<State>, steps: seq<Step>, i: nat, j: nat, k: nat)
    requires Excluding(states, steps) && i <= j < |states| && k < |states[i].saves|
    requires forall p :: p in states[0].workers ==>
               var delivery := states[0].workers[p].delivery;
               delivery.documentId == states[i].saves[k].documentId ==> delivery.lockType == ADMIN_MINT_NFT
    ensures var stored := states[i].saves[k];
            && stored.documentId in states[j].transactions
            && states[j].transactions[stored.documentId] == Transaction(SUCCESS, stored.hash)
            && forall m :: 0 <= m < |states[j].saves| && states[j].saves[m].documentId == stored.documentId ==> m == k
  {
    var saves := states[j].saves;
    SavesGrow(states, steps, i, j);
    assert saves[k] == states[i].saves[k];
    RecordedAlways(states, steps, j);
    DeliveriesFixed(states, steps, j);
    forall m | 0 <= m < |saves| && saves[m].documentId == saves[k].documentId ensures m == k {
      assert saves[m].lockType == ADMIN_MINT_NFT && saves[k].lockType == ADMIN_MINT_NFT;
    }
    assert StoredAt(states[j], saves[k].documentId);
  }

  /**
   In any run whatever, evictions and stale reads included: a transaction that is SUCCESS stays
   SUCCESS, and its hash is afterwards that of some delivery or the one it had.
   */
  lemma SuccessStays(states: seq<State>, steps: seq<Step>, i: nat, j: nat, d: DocumentId)
    requires IsRun(states, steps) && i <= j < |states|
    requires d in states[i].transactions && states[i].transactions[d].status == SUCCESS
    ensures d in states[j].transactions && states[j].transactions[d].status == SUCCESS
    ensures states[j].transactions[d] == states[i].transactions[d] ||
            exists m :: |states[i].saves| <= m < |states[j].saves| && states[j].saves[m].documentId == d
                        && states[j].saves[m].hash == states[j].transactions[d].hash
  {
    if i < j {
      SuccessStays(states, steps, i, j - 1, d);
      SavesGrow(states, steps, i, j - 1);
      SavesGrow(states, steps, j - 1, j);
      var s, s' := states[j - 1], states[j];
      assert IsStep(s, steps[j - 1], s');
      if s.transactions[d] != s'.transactions[d] {
        assert s'.saves == s.saves + [s.workers[steps[j - 1].self].delivery];
        var m := |s.saves|;
        assert s'.saves[m].documentId == d && s'.saves[m].hash == s'.transactions[d].hash;
      } else if s.transactions[d] != states[i].transactions[d] {
        var m :| |states[i].saves| <= m < |s.saves| && s.saves[m].documentId == d
                 && s.saves[m].hash == s.transactions[d].hash;
        assert s'.saves[m] == s.saves[m];
      }
    }
  }

  // ---------------------------------------------------------------- where an overwrite comes from

  /** The step in which `p` reads its transaction before locking, while it is not yet completed. */
  ghost predicate EarlyFetch(s: State, step: Step, p: Process) {
    && step == Proceed(p)
    && p in s.workers
    && s.workers[p].point.Fetch?
    && var d := s.workers[p].delivery.documentId;
       d in s.transactions && s.transactions[d].status != SUCCESS
  }

  /** A delivery that has not read yet, is through, or takes itself for completed. */
  predicate Idle(w: Worker) {
    w.point.Fetch? || w.point.Finished? || AlreadyCompleted(w)
  }

  lemma SnapshotStep(s: State, step: Step, p: Process)
    requires Enabled(s, step) && p in s.workers && !s.workers[p].point.Load?
    requires s.workers[p].delivery.lockType != ADMIN_MINT_NFT
    ensures !Next(s, step).workers[p].point.Load?
    ensures Idle(s.workers[p]) ==> Idle(Next(s, step).workers[p]) || EarlyFetch(s, step, p)
  {
  }

  /** A delivery that reads before locking is idle, or it read an incomplete transaction at step `j`. */
  lemma SnapshotOrigin(states: seq<State>, steps: seq<Step>, i: nat, p: Process) returns (j: nat)
    requires IsRun(states, steps) && i < |states|
    requires p in states[0].workers && states[0].workers[p].delivery.lockType != ADMIN_MINT_NFT
    ensures p in states[i].workers && !states[i].workers[p].point.Load?
    ensures states[i].workers[p].delivery == states[0].workers[p].delivery
    ensures Idle(states[i].workers[p]) || (j < i && EarlyFetch(states[j], steps[j], p))
  {
    j := 0;
    if i > 0 {
      j := SnapshotOrigin(states, steps, i - 1, p);
      assert IsStep(states[i - 1], steps[i - 1], states[i]);
      DeliveriesStep(states[i - 1], steps[i - 1]);
      SnapshotStep(states[i - 1], steps[i - 1], p);
      if EarlyFetch(states[i - 1], steps[i - 1], p) {
        j := i - 1;
      }
    }
  }

  /**
   Over any exclusive interleaving: whoever stores onto a transaction that is already
   SUCCESS is a delivery that reads before locking, and it read the transaction before its completion.
   */
  lemma OverwriteOrigin(states: seq<State>, steps: seq<Step>, i: nat, p: Process)
    requires Excluding(states, steps) && i < |steps|
    requires Stores(states[i], steps[i], p)
    requires var d := states[i].workers[p].delivery.documentId;
             d in states[i].transactions && states[i].transactions[d].status == SUCCESS
    ensures states[i].workers[p].delivery.lockType != ADMIN_MINT_NFT
    ensures exists j :: 0 <= j < i && EarlyFetch(states[j], steps[j], p)
  {
    RecordedAlways(states, steps, i);
    MintStoresOntoIncomplete(states[i], p);
    DeliveriesFixed(states, steps, i);
    var j := SnapshotOrigin(states, steps, i, p);
    SaveMeansIncomplete(states, steps, i, p);
  }

  lemma MintStoresOntoIncomplete(s: State, p: Process)
    requires Informed(s) && p in s.workers && s.workers[p].point.Save?
    ensures var d := s.workers[p].delivery.documentId;
            s.workers[p].delivery.lockType == ADMIN_MINT_NFT ==>
              d in s.transactions && s.transactions[d].status != SUCCESS
  {
    if s.workers[p].delivery.lockType == ADMIN_MINT_NFT {
      assert InformedAt(s, p);
    }
  }

  /** A delivery about to store has a snapshot that is not SUCCESS. */
  lemma SaveMeansIncomplete(states: seq<State>, steps: seq<Step>, i: nat, p: Process)
    requires IsRun(states, steps) && i < |states| && p in states[i].workers
    ensures states[i].workers[p].point.Save? ==> !AlreadyCompleted(states[i].workers[p])
  {
    if i > 0 {
      assert IsStep(states[i - 1], steps[i - 1], states[i]);
      SaveMeansIncomplete(states, steps, i - 1, p);
    }
  }

  /** A transaction that was not SUCCESS and is now has been stored in between. */
  lemma CompletedInBetween(states: seq<State>, steps: seq<Step>, i: nat, j: nat, d: DocumentId) returns (m: nat)
    requires IsRun(states, steps) && i <= j < |states|
    requires d in states[i].transactions && states[i].transactions[d].status != SUCCESS
    requires d in states[j].transactions && states[j].transactions[d].status == SUCCESS
    ensures |states[i].saves| <= m < |states[j].saves| && states[j].saves[m].documentId == d
  {
    var s, s' := states[j - 1], states[j];
    assert IsStep(s, steps[j - 1], s');
    SavesGrow(states, steps, i, j - 1);
    if d in s.transactions && s.transactions[d].status == SUCCESS {
      m := CompletedInBetween(states, steps, i, j - 1, d);
      SavesGrow(states, steps, j - 1, j);
    } else {
      TransactionsStay(states, steps, i, j - 1, d);
      m := |s.saves|;
    }
  }

  lemma TransactionsStay(states: seq<State>, steps: seq<Step>, i: nat, j: nat, d: DocumentId)
    requires IsRun(states, steps) && i <= j < |states| && d in states[i].transactions
    ensures d in states[j].transactions
  {
    if i < j {
      TransactionsStay(states, steps, i, j - 1, d);
      assert IsStep(states[j - 1], steps[j - 1], states[j]);
    }
  }

  ghost predicate Completed(s: State, d: DocumentId) {
    d in s.transactions && s.transactions[d].status == SUCCESS
  }

  /** `p` read its transaction, still incomplete, before another delivery's store of it and before step `i`. */
  ghost predicate ReadBeforeStore(states: seq<State>, steps: seq<Step>, i: nat, p: Process)
    requires |states| == |steps| + 1 && i < |steps| && p in states[i].workers
  {
    exists j, m ::
      && 0 <= j < i && EarlyFetch(states[j], steps[j], p)
      && |states[j].saves| <= m < |states[i].saves|
      && states[i].saves[m].documentId == states[i].workers[p].delivery.documentId
  }

  /**
   Over any exclusive interleaving, a store lands on a transaction that is already SUCCESS
   exactly when its delivery read the transaction, before locking, ahead of another delivery's store.
   */
  lemma OverwriteExactly(states: seq<State>, steps: seq<Step>, i: nat, p: Process)
    requires Excluding(states, steps) && i < |steps|
    requires Stores(states[i], steps[i], p)
    ensures var d := states[i].workers[p].delivery.documentId;
            Completed(states[i], d) <==> ReadBeforeStore(states, steps, i, p)
  {
    var d := states[i].workers[p].delivery.documentId;
    RecordedAlways(states, steps, i);
    if d in states[i].transactions && states[i].transactions[d].status == SUCCESS {
      OverwriteOrigin(states, steps, i, p);
      var j :| 0 <= j < i && EarlyFetch(states[j], steps[j], p);
      DeliveriesFixed(states, steps, i);
      DeliveriesFixed(states, steps, j);
      var m := CompletedInBetween(states, steps, j, i, d);
    }
  }

  /** A store of a different hash by a delivery that read ahead of another delivery's store. */
  ghost predicate StaleStore(states: seq<State>, steps: seq<Step>, i: nat)
    requires |states| == |steps| + 1 && i < |steps|
  {
    && TakesEffect(steps[i])
    && Stores(states[i], steps[i], steps[i].self)
    && ReadBeforeStore(states, steps, i, steps[i].self)
    && var delivery := states[i].workers[steps[i].self].delivery;
       && delivery.documentId in states[i].transactions
       && WrittenHash(states[i], steps[i].self) != states[i].transactions[delivery.documentId].hash
  }

  /** What is SUCCESS in one state is the same, hash included, in every later one. */
  ghost predicate CompletionsKept(states: seq<State>) {
    forall i, j, d :: 0 <= i <= j < |states| && Completed(states[i], d) ==>
      d in states[j].transactions && states[j].transactions[d] == states[i].transactions[d]
  }

  lemma StaleStoreChanges(states: seq<State>, steps: seq<Step>, i: nat)
    requires Excluding(states, steps) && i < |steps| && StaleStore(states, steps, i)
    ensures exists d :: Completed(states[i], d) && d in states[i + 1].transactions
                        && states[i + 1].transactions[d] != states[i].transactions[d]
  {
    var p := steps[i].self;
    OverwriteExactly(states, steps, i, p);
    assert IsStep(states[i], steps[i], states[i + 1]);
    assert Completed(states[i], states[i].workers[p].delivery.documentId);
  }

  lemma KeptWithoutStaleStore(states: seq<State>, steps: seq<Step>, i: nat, j: nat, d: DocumentId)
    requires Excluding(states, steps) && i <= j < |states| && Completed(states[i], d)
    requires forall k :: i <= k < j ==> !StaleStore(states, steps, k)
    ensures d in states[j].transactions && states[j].transactions[d] == states[i].transactions[d]
  {
    if i < j {
      KeptWithoutStaleStore(states, steps, i, j - 1, d);
      var s, step := states[j - 1], steps[j - 1];
      assert IsStep(s, step, states[j]);
      if TakesEffect(step) && s.workers[step.self].point.Save? && s.workers[step.self].delivery.documentId == d {
        OverwriteExactly(states, steps, j - 1, step.self);
        assert !StaleStore(states, steps, j - 1);
      }
    }
  }

  /**
   Over any exclusive interleaving of any mix of deliveries: a completed transaction never
   changes, if and only if no delivery stores a different hash after having read the transaction
   ahead of another delivery's store.
   */
  lemma CompletionsKeptExactly(states: seq<State>, steps: seq<Step>)
    requires Excluding(states, steps)
    ensures CompletionsKept(states) <==> forall i :: 0 <= i < |steps| ==> !StaleStore(states, steps, i)
  {
    if CompletionsKept(states) {
      forall i | 0 <= i < |steps| ensures !StaleStore(states, steps, i) {
        if StaleStore(states, steps, i) {
          StaleStoreChanges(states, steps, i);
        }
      }
    }
    if forall i :: 0 <= i < |steps| ==> !StaleStore(states, steps, i) {
      forall i, j, d | 0 <= i <= j < |states| && Completed(states[i], d)
        ensures d in states[j].transactions && states[j].transactions[d] == states[i].transactions[d]
      {
        KeptWithoutStaleStore(states, steps, i, j, d);
      }
    }
  }

  /**
   Whatever other deliveries a transaction has: over any exclusive interleaving at most one
   mint delivery is stored for it, and nothing was stored for it before.
   */
  lemma MintStoresFirst(states: seq<State>, steps: seq<Step>, i: nat, k: nat)
    requires Excluding(states, steps) && i < |states| && k < |states[i].saves|
    requires states[i].saves[k].lockType == ADMIN_MINT_NFT
    ensures forall m :: 0 <= m < |states[i].saves| && states[i].saves[m].documentId == states[i].saves[k].documentId ==>
              k <= m && (states[i].saves[m].lockType == ADMIN_MINT_NFT ==> m == k)
  {
    RecordedAlways(states, steps, i);
  }
}
