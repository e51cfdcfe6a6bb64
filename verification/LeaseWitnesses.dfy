/** Runs that show why the lease bound is needed and how a stale read overwrites a completion. */
module LeaseWitnesses {
  import opened CompletionHistory
  import opened LeaseLock
  import opened Transactions
  import opened WorkerCompletions
  import opened WorkerProgress
  import opened Wrappers

  function Minting(documentId: DocumentId, hash: Hash): Worker {
    Worker(Delivery(ADMIN_MINT_NFT, documentId, hash), Begin, false, None)
  }

  function Depositing(hash: Hash): Worker {
    Worker(Delivery(DEPOSIT, 0, hash), Fetch, false, None)
  }

  /** A holder that outstays its lease by a millisecond finds a second delivery in its section. */
  lemma OverrunBreaksExclusion() returns (states: seq<State>, steps: seq<Step>)
    ensures IsRun(states, steps)
    ensures forall i :: 0 <= i < |steps| ==> !LockingFails(states[i], steps[i]) && !ReleaseFails(states[i], steps[i])
    ensures !Exclusive(states[|steps|])
  {
    var s0 := State(0, map[], map[0 := Minting(0, 7), 1 := Minting(0, 8)], map[0 := Transaction(PROCESSING, 0)], []);
    var first, firstSteps := Enter(s0, 0);
    var s4 := first[4];
    assert s4 == Entered(s0, 0);
    var s5 := Next(s4, Tick(LEASE + 1));
    assert Chain([s4, s5], [Tick(LEASE + 1)]);
    Join(first, firstSteps, [s4, s5], [Tick(LEASE + 1)]);
    var run, runSteps := first + [s4, s5][1..], firstSteps + [Tick(LEASE + 1)];
    assert s5.locks[0] == Lock(ADMIN_MINT_NFT, LEASE, 0);
    var second, secondSteps := Enter(s5, 1);
    Join(run, runSteps, second, secondSteps);
    states, steps := run + second[1..], runSteps + secondSteps;
    assert forall i :: 0 <= i < |steps| ==> !steps[i].Throw?;
    var last := states[|steps|];
    assert last.workers[0].holding && last.workers[1].holding;
  }

  /**
   Two deposit deliveries that read the transaction before either of them has the lock: every lease
   is kept, yet the second overwrites the hash that the first has stored. Minting fetches under the
   lock and cannot do this; see MintStoresOnce.
   */
  lemma DepositIsOverwritten() returns (states: seq<State>, steps: seq<Step>)
    ensures IsRun(states, steps) && |steps| == 16
    ensures 0 in states[9].transactions && states[9].transactions[0] == Transaction(SUCCESS, 7)
    ensures 0 in states[16].transactions && states[16].transactions[0] == Transaction(SUCCESS, 8)
    ensures forall i :: 0 <= i < 16 ==> steps[i].Proceed?
    ensures forall i :: 0 <= i <= 16 ==> OnTime(states[i])
  {
    var s0 := State(0, map[], map[0 := Depositing(7), 1 := Depositing(8)], map[0 := Transaction(PROCESSING, 0)], []);
    var s1 := Advance(s0, 0);
    var s2 := Advance(s1, 1);
    var fetches, fetchSteps := [s0, s1, s2], [Proceed(0), Proceed(1)];
    assert Chain(fetches, fetchSteps);
    var first, firstSteps := ComeThrough(s2, 0);
    Join(fetches, fetchSteps, first, firstSteps);
    var run, runSteps := fetches + first[1..], fetchSteps + firstSteps;
    assert run[9] == first[7];
    var second, secondSteps := ComeThrough(first[7], 1);
    Join(run, runSteps, second, secondSteps);
    states, steps := run + second[1..], runSteps + secondSteps;
    assert states[9] == run[9];
    EarlyAlways(states, steps, 16);
  }

  /**
   A deposit delivery whose save fails with a duplicate key: the document in memory says SUCCESS, so the retry
   ends without storing, and the transaction is never completed.
   */
  lemma DuplicateLosesDeposit() returns (states: seq<State>, steps: seq<Step>)
    ensures IsRun(states, steps) && |steps| == 15
    ensures steps[6] == ThrowDuplicate(0) && forall i :: 0 <= i < 15 && i != 6 ==> steps[i].Tick? || steps[i] == Proceed(0)
    ensures 0 in states[15].workers && states[15].workers[0].point.Finished?
    ensures states[15].transactions == map[0 := Transaction(PROCESSING, 0)] && states[15].saves == []
  {
    var s0 := State(0, map[], map[0 := Depositing(7)], map[0 := Transaction(PROCESSING, 0)], []);
    var s1 := Advance(s0, 0);
    assert Chain([s0, s1], [Proceed(0)]);
    var enter, enterSteps := Enter(s1, 0);
    Join([s0, s1], [Proceed(0)], enter, enterSteps);
    var run, runSteps := [s0, s1] + enter[1..], [Proceed(0)] + enterSteps;
    var fail, failSteps := FailWithDuplicate(enter[4], 0);
    Join(run, runSteps, fail, failSteps);
    run, runSteps := run + fail[1..], runSteps + failSteps;
    var last, lastSteps := ComeThrough(fail[4], 0);
    Join(run, runSteps, last, lastSteps);
    states, steps := run + last[1..], runSteps + lastSteps;
  }

  /** The save of a deposit fails with a duplicate key, and its own lease runs out before it tries again. */
  lemma FailWithDuplicate(s: State, p: Process) returns (states: seq<State>, steps: seq<Step>)
    requires p in s.workers && s.workers[p].point.Check? && s.workers[p].delivery.lockType == DEPOSIT
    requires s.workers[p].snapshot == Some(Transaction(PROCESSING, 0)) && ProtectedAt(s, p)
    requires s.locks[s.workers[p].delivery.documentId].lockUntil <= s.now + LEASE
    ensures Chain(states, steps) && states[0] == s
    ensures steps == [Proceed(p), ThrowDuplicate(p), Tick(LEASE + 1), Proceed(p)]
    ensures states[4] ==
            At(s.(now := s.now + LEASE + 1), p,
               s.workers[p].(point := Begin, holding := false,
                             snapshot := Some(Transaction(SUCCESS, s.workers[p].delivery.hash))))
  {
    var s1 := Advance(s, p);
    var s2 := Next(s1, ThrowDuplicate(p));
    var s3 := Next(s2, Tick(LEASE + 1));
    var s4 := Advance(s3, p);
    states := [s, s1, s2, s3, s4];
    steps := [Proceed(p), ThrowDuplicate(p), Tick(LEASE + 1), Proceed(p)];
  }

  /** Nobody is late at time 0, and no record is written that would make anybody so. */
  ghost predicate Early(s: State) {
    && s.now == 0
    && (forall d :: d in s.locks ==> s.locks[d].lockUntil == LEASE)
    && (forall p :: p in s.workers && s.workers[p].point.Create? ==> s.workers[p].point.lockUntil == LEASE)
  }

  lemma EarlyStep(s: State, step: Step)
    requires Early(s) && Enabled(s, step) && !step.Tick?
    ensures Early(Next(s, step))
  {
  }

  lemma EarlyAlways(states: seq<State>, steps: seq<Step>, n: nat)
    requires Chain(states, steps) && n < |states| && Early(states[0])
    requires forall i :: 0 <= i < |steps| ==> !steps[i].Tick?
    ensures forall i :: 0 <= i <= n ==> Early(states[i]) && OnTime(states[i])
  {
    if n > 0 {
      EarlyAlways(states, steps, n - 1);
      assert IsStep(states[n - 1], steps[n - 1], states[n]);
      EarlyStep(states[n - 1], steps[n - 1]);
    }
  }

  /** Behind a stretch that leaves `q` in its section without a record, `r` enters the same section. */
  lemma EnterBeside(before: seq<State>, beforeSteps: seq<Step>, q: Process, r: Process)
    returns (states: seq<State>, steps: seq<Step>)
    requires Chain(before, beforeSteps)
    requires var last := before[|beforeSteps|];
             && last.locks == map[] && q != r
             && q in last.workers && last.workers[q].holding
             && r in last.workers && last.workers[r].point.Begin?
             && last.workers[q].delivery.documentId == last.workers[r].delivery.documentId
    ensures Chain(states, steps) && |steps| == |beforeSteps| + 4
    ensures before <= states && beforeSteps <= steps
    ensures forall i :: |beforeSteps| <= i < |steps| ==> steps[i] == Proceed(r)
    ensures !Exclusive(states[|steps|])
  {
    var last := before[|beforeSteps|];
    var enter, enterSteps := Enter(last, r);
    Join(before, beforeSteps, enter, enterSteps);
    states, steps := before + enter[1..], beforeSteps + enterSteps;
    var end := states[|steps|];
    assert end == Entered(last, r);
    assert end.workers[q].holding && end.workers[r].holding;
  }

  /** lockDocument of `p` fails while purging nothing, and `p` releases the record of the holder `q`. */
  lemma Stray(s: State, p: Process, q: Process) returns (states: seq<State>, steps: seq<Step>)
    requires p in s.workers && s.workers[p].point.Begin? && !s.workers[p].holding
    requires q in s.workers && s.workers[q].holding && ProtectedAt(s, q)
    requires s.workers[p].delivery.lockType == s.workers[q].delivery.lockType
    requires s.workers[p].delivery.documentId == s.workers[q].delivery.documentId
    requires s.locks.Keys == {s.workers[q].delivery.documentId}
    ensures Chain(states, steps) && states[0] == s && steps == [Proceed(p), Throw(p, false), Proceed(p)]
    ensures LockingFails(states[1], steps[1]) && ReleasesForeign(states[2], p)
    ensures states[3] == At(s.(locks := map[]), p, s.workers[p].(point := Finished))
  {
    var s1 := Advance(s, p);
    var s2 := Next(s1, Throw(p, false));
    var s3 := Advance(s2, p);
    assert s2.workers[q] == s.workers[q];
    assert s3.locks == map[];
    states, steps := [s, s1, s2, s3], [Proceed(p), Throw(p, false), Proceed(p)];
  }

  /** `q` takes the lock, and the failed attempt of `p` takes it away. */
  lemma Displace(s: State, p: Process, q: Process) returns (states: seq<State>, steps: seq<Step>)
    requires p in s.workers && s.workers[p].point.Begin? && !s.workers[p].holding
    requires q in s.workers && s.workers[q].point.Begin? && p != q && s.locks == map[]
    requires s.workers[p].delivery.lockType == s.workers[q].delivery.lockType
    requires s.workers[p].delivery.documentId == s.workers[q].delivery.documentId
    ensures Chain(states, steps) && |steps| == 7 && states[0] == s
    ensures forall i :: 0 <= i < 7 ==> !steps[i].Tick?
    ensures steps[5] == Throw(p, false) && LockingFails(states[5], steps[5])
    ensures steps[6] == Proceed(p) && ReleasesForeign(states[6], p)
    ensures var s7 := states[7];
            && s7.locks == map[]
            && s7.workers.Keys == s.workers.Keys
            && s7.workers[q].holding
            && s7.workers[q].delivery == s.workers[q].delivery
            && forall r :: r in s.workers && r != p && r != q ==> s7.workers[r] == s.workers[r]
  {
    var enter, enterSteps := Enter(s, q);
    var s4 := enter[4];
    assert s4 == Entered(s, q);
    assert s4.locks.Keys == {s.workers[q].delivery.documentId};
    var stray, straySteps := Stray(s4, p, q);
    Join(enter, enterSteps, stray, straySteps);
    states, steps := enter + stray[1..], enterSteps + straySteps;
    assert states[5] == stray[1] && states[6] == stray[2];
  }

  /**
   lockDocument of delivery 1 fails while purging; its release deletes the record of delivery 0, and
   delivery 2 enters the section that 0 is still in. No lease is overrun, so LeaseGivesExclusion does need
   its premise about failures of lockDocument.
   */
  lemma FailedLockBreaksExclusion() returns (states: seq<State>, steps: seq<Step>)
    ensures IsRun(states, steps) && |steps| == 11
    ensures forall i :: 0 <= i <= 11 ==> OnTime(states[i])
    ensures steps[5] == Throw(1, false) && LockingFails(states[5], steps[5])
    ensures steps[6] == Proceed(1) && ReleasesForeign(states[6], 1)
    ensures !Exclusive(states[11])
  {
    var s0 := State(0, map[], map[0 := Minting(0, 7), 1 := Minting(0, 8), 2 := Minting(0, 9)], map[0 := Transaction(PROCESSING, 0)], []);
    var displace, displaceSteps := Displace(s0, 1, 0);
    states, steps := EnterBeside(displace, displaceSteps, 0, 2);
    assert states[0] == s0 && states[5] == displace[5] && states[6] == displace[6];
    assert forall i :: 0 <= i < 11 ==> !steps[i].Tick?;
    EarlyAlways(states, steps, 11);
  }

  /** A delivery that finds no transaction under its lock releases, and the reply to that gets lost. */
  lemma LoseRelease(s: State, p: Process) returns (states: seq<State>, steps: seq<Step>)
    requires p in s.workers && s.workers[p].point.Begin? && !s.workers[p].holding && s.locks == map[]
    requires s.workers[p].delivery.lockType == ADMIN_MINT_NFT
    requires s.workers[p].delivery.documentId !in s.transactions
    ensures Chain(states, steps) && |steps| == 6 && states[0] == s
    ensures forall i :: 0 <= i < 5 ==> steps[i] == Proceed(p)
    ensures steps[5] == Throw(p, true) && ReleaseFails(states[5], steps[5])
    ensures states[6] == At(s, p, s.workers[p].(point := Release(true)))
  {
    var enter, enterSteps := Enter(s, p);
    var s4 := enter[4];
    assert s4 == Entered(s, p);
    var s5 := Advance(s4, p);
    var s6 := Next(s5, Throw(p, true));
    assert s6.locks == map[];
    var lose, loseSteps := [s4, s5, s6], [Proceed(p), Throw(p, true)];
    assert Chain(lose, loseSteps);
    Join(enter, enterSteps, lose, loseSteps);
    states, steps := enter + lose[1..], enterSteps + loseSteps;
    assert states[5] == s5;
  }

  /** `q` takes the lock, and the release of `p` in its catch block takes it away. */
  lemma ReleaseAgain(s: State, p: Process, q: Process) returns (states: seq<State>, steps: seq<Step>)
    requires p in s.workers && s.workers[p].point == Release(true) && !s.workers[p].holding
    requires q in s.workers && s.workers[q].point.Begin? && p != q && s.locks == map[]
    requires s.workers[p].delivery.lockType == s.workers[q].delivery.lockType
    requires s.workers[p].delivery.documentId == s.workers[q].delivery.documentId
    ensures Chain(states, steps) && |steps| == 5 && states[0] == s
    ensures forall i :: 0 <= i < 5 ==> steps[i].Proceed?
    ensures steps[4] == Proceed(p) && ReleasesForeign(states[4], p)
    ensures var s5 := states[5];
            && s5.locks == map[]
            && s5.workers.Keys == s.workers.Keys
            && s5.workers[q].holding
            && s5.workers[q].delivery == s.workers[q].delivery
            && forall r :: r in s.workers && r != p && r != q ==> s5.workers[r] == s.workers[r]
  {
    var enter, enterSteps := Enter(s, q);
    var s4 := enter[4];
    assert s4 == Entered(s, q);
    assert s4.workers[p] == s.workers[p] && s4.workers[q].holding;
    var s5 := Advance(s4, p);
    assert s5.locks == map[];
    assert Chain([s4, s5], [Proceed(p)]);
    Join(enter, enterSteps, [s4, s5], [Proceed(p)]);
    states, steps := enter + [s4, s5][1..], enterSteps + [Proceed(p)];
    assert states[4] == s4 && states[5] == s5;
  }

  lemma ReleaseTwice(s: State, p: Process, q: Process) returns (states: seq<State>, steps: seq<Step>)
    requires p in s.workers && s.workers[p].point.Begin? && !s.workers[p].holding && s.locks == map[]
    requires s.workers[p].delivery.lockType == ADMIN_MINT_NFT
    requires s.workers[p].delivery.documentId !in s.transactions
    requires q in s.workers && s.workers[q].point.Begin? && p != q
    requires s.workers[p].delivery.lockType == s.workers[q].delivery.lockType
    requires s.workers[p].delivery.documentId == s.workers[q].delivery.documentId
    ensures Chain(states, steps) && |steps| == 11 && states[0] == s
    ensures forall i :: 0 <= i < 11 && i != 5 ==> steps[i].Proceed?
    ensures ReleaseFails(states[5], steps[5])
    ensures var s11 := states[11];
            && s11.locks == map[]
            && s11.workers.Keys == s.workers.Keys
            && s11.workers[q].holding
            && s11.workers[q].delivery == s.workers[q].delivery
            && forall r :: r in s.workers && r != p && r != q ==> s11.workers[r] == s.workers[r]
  {
    var lose, loseSteps := LoseRelease(s, p);
    var again, againSteps := ReleaseAgain(lose[6], p, q);
    Join(lose, loseSteps, again, againSteps);
    states, steps := lose + again[1..], loseSteps + againSteps;
    assert states[5] == lose[5] && states[11] == again[5];
  }

  /**
   The release of delivery 0 deletes its record but fails; the catch block releases again and deletes the
   record of delivery 1, and delivery 2 enters the section that 1 is in. No lease is overrun and
   lockDocument never fails.
   */
  lemma FailedReleaseBreaksExclusion() returns (states: seq<State>, steps: seq<Step>)
    ensures IsRun(states, steps) && |steps| == 15
    ensures forall i :: 0 <= i <= 15 ==> OnTime(states[i])
    ensures forall i :: 0 <= i < 15 ==> !LockingFails(states[i], steps[i])
    ensures ReleaseFails(states[5], steps[5])
    ensures !Exclusive(states[15])
  {
    var s0 := State(0, map[], map[0 := Minting(0, 7), 1 := Minting(0, 8), 2 := Minting(0, 9)], map[], []);
    var twice, twiceSteps := ReleaseTwice(s0, 0, 1);
    states, steps := EnterBeside(twice, twiceSteps, 1, 2);
    assert states[0] == s0 && states[5] == twice[5] && steps[5] == twiceSteps[5];
    assert forall i :: 0 <= i < 15 && i != 5 ==> steps[i].Proceed?;
    EarlyAlways(states, steps, 15);
  }

  /** `q` outstays its lease and the purge of `p` deletes its record. */
  lemma Overstay(s: State, p: Process, q: Process) returns (states: seq<State>, steps: seq<Step>)
    requires p in s.workers && s.workers[p].point.Begin? && p != q
    requires q in s.workers && s.workers[q].holding && ProtectedAt(s, q)
    requires s.workers[p].delivery.lockType == s.workers[q].delivery.lockType
    requires s.locks[s.workers[q].delivery.documentId].lockUntil <= s.now + LEASE
    ensures Chain(states, steps) && states[0] == s && steps == [Tick(LEASE + 1), Proceed(p), Proceed(p)]
    ensures Evicts(states[2], steps[2]) && !Protected(states[3])
  {
    var s1 := Next(s, Tick(LEASE + 1));
    var s2 := Advance(s1, p);
    var s3 := Advance(s2, p);
    assert s2.workers[q] == s.workers[q];
    assert !ProtectedAt(s3, q);
    states, steps := [s, s1, s2, s3], [Tick(LEASE + 1), Proceed(p), Proceed(p)];
  }

  /** A purge for one document that deletes the expired record of a live holder of another lets nobody in. */
  lemma EvictionWithoutEntry() returns (states: seq<State>, steps: seq<Step>)
    ensures IsRun(states, steps) && |steps| == 7
    ensures Evicts(states[6], steps[6]) && !Protected(states[7])
    ensures forall i :: 0 <= i <= 7 ==> Exclusive(states[i])
  {
    var s0 := State(0, map[], map[0 := Minting(0, 7), 1 := Minting(1, 7)], map[], []);
    var enter, enterSteps := Enter(s0, 0);
    var s4 := enter[4];
    assert s4 == Entered(s0, 0);
    var late, lateSteps := Overstay(s4, 1, 0);
    Join(enter, enterSteps, late, lateSteps);
    states, steps := enter + late[1..], enterSteps + lateSteps;
    assert states[6] == late[2] && states[7] == late[3];
    TwoDocuments(states, steps, 7);
  }

  /** Two deliveries of different documents never share a section. */
  lemma TwoDocuments(states: seq<State>, steps: seq<Step>, n: nat)
    requires IsRun(states, steps) && n < |states| && states[0].workers.Keys == {0, 1}
    requires states[0].workers[0].delivery.documentId != states[0].workers[1].delivery.documentId
    ensures forall i :: 0 <= i <= n ==> Exclusive(states[i])
  {
    forall i | 0 <= i <= n ensures Exclusive(states[i]) {
      DeliveriesFixed(states, steps, i);
    }
  }
}
