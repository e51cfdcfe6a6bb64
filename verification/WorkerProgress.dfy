/**
 What a delivery gets done: every way to its end, and the way through the lock from wherever it waits.
 The safety side of the same steps is in WorkerCompletions and CompletionHistory.
 */
module WorkerProgress {
  import opened CompletionHistory
  import opened LeaseLock
  import opened Transactions
  import opened WorkerCompletions
  import opened Wrappers

  // ---------------------------------------------------------------- stretches of a run

  ghost predicate Chain(states: seq<State>, steps: seq<Step>) {
    && |states| == |steps| + 1
    && forall i :: 0 <= i < |steps| ==> IsStep(states[i], steps[i], states[i + 1])
  }

  lemma Join(states: seq<State>, steps: seq<Step>, more: seq<State>, moreSteps: seq<Step>)
    requires Chain(states, steps) && Chain(more, moreSteps) && states[|steps|] == more[0]
    ensures Chain(states + more[1..], steps + moreSteps)
    ensures (states + more[1..])[0] == states[0]
    ensures (states + more[1..])[|steps| + |moreSteps|] == more[|moreSteps|]
  {
    var all := states + more[1..];
    forall i | 0 <= i < |steps + moreSteps| ensures IsStep(all[i], (steps + moreSteps)[i], all[i + 1]) {
      if i < |steps| {
        assert IsStep(states[i], steps[i], states[i + 1]);
      } else {
        assert IsStep(more[i - |steps|], moreSteps[i - |steps|], more[i - |steps| + 1]);
        assert all[i] == more[i - |steps|];
      }
    }
  }

  // ---------------------------------------------------------------- how a delivery ends

  /** The delivery looks for its transaction and there is none. */
  ghost predicate FindsNothing(s: State, step: Step, p: Process) {
    && step == Proceed(p)
    && p in s.workers
    && (s.workers[p].point.Fetch? || s.workers[p].point.Load?)
    && s.workers[p].delivery.documentId !in s.transactions
  }

  /**
   The error that costs `p` its completion: one in locking or in the section, unless the save is done all the
   same; or a duplicate key in the save of a delivery that does not read its transaction again.
   */
  ghost predicate GivesUp(s: State, step: Step, p: Process) {
    && p in s.workers
    && ((step.Throw? && step.self == p && !s.workers[p].point.Release? && !(s.workers[p].point.Save? && step.done)) ||
        (step == ThrowDuplicate(p) && s.workers[p].point.Save? && s.workers[p].delivery.lockType != ADMIN_MINT_NFT))
  }

  /** `p` gave up, or found nothing to complete, in one of the first `i` steps. */
  ghost predicate Hindered(states: seq<State>, steps: seq<Step>, i: nat, p: Process)
    requires |states| == |steps| + 1 && i <= |steps|
  {
    exists j :: 0 <= j < i && (GivesUp(states[j], steps[j], p) || FindsNothing(states[j], steps[j], p))
  }

  /** A delivery on its way out has a completed transaction, and so has one whose document in memory says SUCCESS. */
  ghost predicate Accounted(s: State, p: Process)
    requires p in s.workers
  {
    var w := s.workers[p];
    || w.point.Release? || w.point.Finished?
    || (AlreadyCompleted(w) && (w.point.Check? || w.delivery.lockType != ADMIN_MINT_NFT)) ==>
      Completed(s, w.delivery.documentId)
  }

  lemma AccountedStep(s: State, step: Step, p: Process)
    requires Enabled(s, step) && p in s.workers && Accounted(s, p)
    requires !GivesUp(s, step, p) && !FindsNothing(s, step, p)
    ensures p in Next(s, step).workers && Accounted(Next(s, step), p)
  {
  }

  /**
   In every run, whatever the others do and however long leases are overrun: a delivery that has ended, and
   neither gave up nor missed its transaction, leaves it SUCCESS.
   */
  lemma EndedMeansCompleted(states: seq<State>, steps: seq<Step>, i: nat, p: Process)
    requires IsRun(states, steps) && i < |states| && p in states[0].workers
    ensures p in states[i].workers
    ensures Hindered(states, steps, i, p) || Accounted(states[i], p)
    ensures states[i].workers[p].point.Finished? ==>
              Hindered(states, steps, i, p) || Completed(states[i], states[i].workers[p].delivery.documentId)
  {
    if i > 0 {
      EndedMeansCompleted(states, steps, i - 1, p);
      assert IsStep(states[i - 1], steps[i - 1], states[i]);
      DeliveriesStep(states[i - 1], steps[i - 1]);
      if !Hindered(states, steps, i, p) {
        assert !GivesUp(states[i - 1], steps[i - 1], p) && !FindsNothing(states[i - 1], steps[i - 1], p);
        assert !Hindered(states, steps, i - 1, p);
        AccountedStep(states[i - 1], steps[i - 1], p);
      }
    }
  }

  /** The step with which a delivery ends: its read before the lock, or its last release. */
  ghost predicate Ends(s: State, step: Step, p: Process) {
    && p in s.workers
    && (step == Proceed(p) || (step.Throw? && step.self == p))
    && ((s.workers[p].point.Fetch? && FindsNothing(s, step, p)) ||
        (s.workers[p].point.Release? && (step.Throw? ==> s.workers[p].point.isLast)))
  }

  lemma EndsStep(s: State, step: Step, p: Process)
    requires Enabled(s, step) && p in s.workers && !s.workers[p].point.Finished?
    ensures p in Next(s, step).workers
    ensures Next(s, step).workers[p].point.Finished? <==> Ends(s, step, p)
  {
  }

  /** In every run a delivery has ended exactly when one of the steps so far was its end. */
  lemma EndedExactly(states: seq<State>, steps: seq<Step>, i: nat, p: Process)
    requires IsRun(states, steps) && i < |states| && p in states[0].workers
    ensures p in states[i].workers
    ensures states[i].workers[p].point.Finished? <==> exists j :: 0 <= j < i && Ends(states[j], steps[j], p)
  {
    if i > 0 {
      EndedExactly(states, steps, i - 1, p);
      assert IsStep(states[i - 1], steps[i - 1], states[i]);
      if !states[i - 1].workers[p].point.Finished? {
        EndsStep(states[i - 1], steps[i - 1], p);
      } else {
        StaysEnded(states[i - 1], steps[i - 1], p);
        var j :| 0 <= j < i - 1 && Ends(states[j], steps[j], p);
        assert j < i;
      }
    }
  }

  lemma StaysEnded(s: State, step: Step, p: Process)
    requires Enabled(s, step) && p in s.workers && s.workers[p].point.Finished?
    ensures p in Next(s, step).workers && Next(s, step).workers[p].point.Finished?
  {
  }

  /**
   Where errors can occur and where they lead: to the release in the catch block, from there out, and with
   a duplicate key in the section to a wait of 500 ms without any release. Without `done` nothing is written.
   */
  lemma ErrorsLead(s: State, p: Process, done: bool)
    requires p in s.workers
    ensures var point := s.workers[p].point;
            && (Enabled(s, Throw(p, done)) <==>
                  point.Purge? || point.Create? || point.Load? || point.Check? || point.Save? || point.Release?)
            && (Enabled(s, ThrowDuplicate(p)) <==> point.Load? || point.Check? || point.Save?)
            && (Enabled(s, Proceed(p)) <==> !point.Finished? && (point.Wait? ==> s.now >= point.wakeAt))
    ensures Enabled(s, Throw(p, done)) ==>
              var w, w' := s.workers[p], Next(s, Throw(p, done)).workers[p];
              && w'.point == (if w.point == Release(true) then Finished else Release(true))
              && w'.delivery == w.delivery && w'.snapshot == w.snapshot
              && (w'.holding <==> w.holding && !(w.point.Release? && (done || w.point.isLast)))
    ensures Enabled(s, Throw(p, done)) ==>
              var s' := Next(s, Throw(p, done));
              && (!done ==> s'.locks == s.locks && s'.transactions == s.transactions && s'.saves == s.saves)
              && (done && Enabled(s, Proceed(p)) ==>
                    var n := Next(s, Proceed(p));
                    s'.locks == n.locks && s'.transactions == n.transactions && s'.saves == n.saves)
    ensures Enabled(s, ThrowDuplicate(p)) ==>
              var s' := Next(s, ThrowDuplicate(p));
              && s'.workers[p].point == Wait(s.now + 500) && !s'.workers[p].holding
              && s'.locks == s.locks && s'.transactions == s.transactions && s'.saves == s.saves
  {
  }

  // ---------------------------------------------------------------- the way through the lock

  /** A delivery that meets no unexpired record walks into its section, with a lease of ten seconds. */
  lemma Enter(s: State, p: Process) returns (states: seq<State>, steps: seq<Step>)
    requires p in s.workers && s.workers[p].point.Begin?
    requires s.workers[p].delivery.documentId !in Purged(s.locks, s.workers[p].delivery.lockType, s.now)
    ensures Chain(states, steps) && |steps| == 4 && states[0] == s
    ensures forall i :: 0 <= i < 4 ==> steps[i] == Proceed(p)
    ensures states[4] == Entered(s, p)
  {
    var s1 := Advance(s, p);
    var s2 := Advance(s1, p);
    var s3 := Advance(s2, p);
    var s4 := Advance(s3, p);
    states := [s, s1, s2, s3, s4];
    steps := seq(4, _ => Proceed(p));
  }

  ghost function Entered(s: State, p: Process): State
    requires p in s.workers
  {
    var w := s.workers[p];
    var t := w.delivery.lockType;
    At(s.(locks := Purged(s.locks, t, s.now)[w.delivery.documentId := Lock(t, s.now + 10_000, p)]),
       p, w.(point := if t == ADMIN_MINT_NFT then Load else Check, holding := true))
  }

  /** The transaction that the check of `p` will look at: a mint delivery reads it under its lock. */
  ghost function Seen(s: State, p: Process): Option<Transaction>
    requires p in s.workers
  {
    var w := s.workers[p];
    if w.delivery.lockType != ADMIN_MINT_NFT then w.snapshot
    else if w.delivery.documentId in s.transactions then Some(s.transactions[w.delivery.documentId])
    else None
  }

  /**
   Between `s` and `s'` the delivery `p` has come to its end: its lock is gone, and its completion is
   stored, unless the transaction it saw was SUCCESS already.
   */
  ghost predicate CameThrough(s: State, s': State, p: Process)
    requires p in s.workers && s.workers[p].delivery.documentId in s.transactions && Seen(s, p).Some?
  {
    var w := s.workers[p];
    var d := w.delivery.documentId;
    var seen := Seen(s, p).value;
    && p in s'.workers && s'.workers[p].point.Finished? && !s'.workers[p].holding
    && s'.workers == s.workers[p := s'.workers[p]]
    && s'.now == s.now
    && s'.locks == Purged(s.locks, w.delivery.lockType, s.now)
    && (seen.status == SUCCESS ==> s'.transactions == s.transactions && s'.saves == s.saves)
    && (seen.status != SUCCESS ==>
          && s'.saves == s.saves + [w.delivery]
          && s'.transactions ==
             s.transactions[d := Transaction(SUCCESS,
               if seen.hash == w.delivery.hash then s.transactions[d].hash else w.delivery.hash)])
  }

  /** From its check to its end. */
  lemma Leave(s: State, p: Process) returns (states: seq<State>, steps: seq<Step>)
    requires p in s.workers && s.workers[p].point.Check? && s.workers[p].snapshot.Some?
    requires ProtectedAt(s, p)
    ensures Chain(states, steps) && states[0] == s
    ensures |steps| == if s.workers[p].snapshot.value.status == SUCCESS then 2 else 3
    ensures forall i :: 0 <= i < |steps| ==> steps[i] == Proceed(p)
    ensures var w := s.workers[p];
            var d := w.delivery.documentId;
            var seen := w.snapshot.value;
            var released := At(s.(locks := s.locks - {d}), p, w.(point := Finished, holding := false));
            states[|steps|] ==
            if seen.status == SUCCESS then released
            else released.(
              saves := s.saves + [w.delivery],
              transactions := s.transactions[d := Transaction(SUCCESS,
                if d in s.transactions && seen.hash == w.delivery.hash then s.transactions[d].hash else w.delivery.hash)])
  {
    var s1 := Advance(s, p);
    var s2 := Advance(s1, p);
    if s.workers[p].snapshot.value.status == SUCCESS {
      states, steps := [s, s1, s2], [Proceed(p), Proceed(p)];
    } else {
      var s3 := Advance(s2, p);
      states, steps := [s, s1, s2, s3], [Proceed(p), Proceed(p), Proceed(p)];
    }
  }

  /** Its own steps take a delivery of any type, with a transaction of any status, from its first attempt to its end. */
  lemma ComeThrough(s: State, p: Process) returns (states: seq<State>, steps: seq<Step>)
    requires p in s.workers && s.workers[p].point.Begin?
    requires s.workers[p].delivery.documentId in s.transactions && Seen(s, p).Some?
    requires s.workers[p].delivery.documentId !in Purged(s.locks, s.workers[p].delivery.lockType, s.now)
    ensures Chain(states, steps) && states[0] == s
    ensures forall i :: 0 <= i < |steps| ==> steps[i] == Proceed(p)
    ensures |steps| == (if s.workers[p].delivery.lockType == ADMIN_MINT_NFT then 5 else 4) +
                       (if Seen(s, p).value.status == SUCCESS then 2 else 3)
    ensures states[4] == Entered(s, p)
    ensures CameThrough(s, states[|steps|], p)
  {
    states, steps := Enter(s, p);
    var inside := states[4];
    assert inside == Entered(s, p);
    var d := s.workers[p].delivery.documentId;
    assert inside.locks - {d} == Purged(s.locks, s.workers[p].delivery.lockType, s.now);
    if inside.workers[p].point.Load? {
      var read := Advance(inside, p);
      assert Chain([inside, read], [Proceed(p)]);
      Join(states, steps, [inside, read], [Proceed(p)]);
      states, steps := states + [inside, read][1..], steps + [Proceed(p)];
      inside := read;
    }
    var leave, leaveSteps := Leave(inside, p);
    Join(states, steps, leave, leaveSteps);
    states, steps := states + leave[1..], steps + leaveSteps;
  }

  // ---------------------------------------------------------------- waiting

  lemma Bystander(s: State, step: Step, p: Process)
    requires Enabled(s, step) && p in s.workers && (step.Tick? || step.self != p)
    ensures p in Next(s, step).workers && Next(s, step).workers[p] == s.workers[p]
  {
  }

  lemma Undisturbed(states: seq<State>, steps: seq<Step>, i: nat, j: nat, p: Process)
    requires Chain(states, steps) && i <= j < |states| && p in states[i].workers
    requires forall k :: i <= k < j ==> steps[k].Tick? || steps[k].self != p
    ensures p in states[j].workers && states[j].workers[p] == states[i].workers[p]
  {
    if i < j {
      Undisturbed(states, steps, i, j - 1, p);
      assert IsStep(states[j - 1], steps[j - 1], states[j]);
      Bystander(states[j - 1], steps[j - 1], p);
    }
  }

  /**
   The time that counts is the one read a step before: a purge at step `j` deletes what had expired when the
   clock was read at `i`, and a record created at `j` expires ten seconds after the reading at `i`.
   */
  lemma ClockReadBefore(states: seq<State>, steps: seq<Step>, i: nat, j: nat, p: Process)
    requires IsRun(states, steps) && i < j < |steps| && p in states[i].workers
    requires steps[i] == steps[j] == Proceed(p)
    requires forall k :: i < k < j ==> steps[k].Tick? || steps[k].self != p
    ensures p in states[j].workers
    ensures var w := states[i].workers[p];
            var d := w.delivery.documentId;
            var locks, locks' := states[j].locks, states[j + 1].locks;
            && (w.point.Begin? ==>
                  forall e :: e in locks' <==>
                    e in locks && !(locks[e].lockType == w.delivery.lockType && locks[e].lockUntil < states[i].now))
            && (w.point.Stamp? ==>
                  locks' == if d in locks then locks
                            else locks[d := Lock(w.delivery.lockType, states[i].now + 10_000, p)])
  {
    assert IsStep(states[i], steps[i], states[i + 1]);
    Undisturbed(states, steps, i + 1, j, p);
    assert IsStep(states[j], steps[j], states[j + 1]);
  }

  /** A delivery that reads before locking has a document in memory from then on. */
  lemma ReadBefore(states: seq<State>, steps: seq<Step>, i: nat, p: Process)
    requires IsRun(states, steps) && i < |states| && p in states[i].workers
    ensures var w := states[i].workers[p];
            w.delivery.lockType != ADMIN_MINT_NFT && !w.point.Fetch? && !w.point.Finished? ==> w.snapshot.Some?
  {
    if i > 0 {
      assert IsStep(states[i - 1], steps[i - 1], states[i]);
      ReadBefore(states, steps, i - 1, p);
    }
  }

  /**
   A delivery whose `create` at step `i` meets a record waits: it can go on exactly from 500 ms later. Once
   it can, and the record is released or can be purged, its own steps take it through its section to its end.
   */
  lemma BusyThenThrough(states: seq<State>, steps: seq<Step>, i: nat, j: nat, p: Process)
    returns (more: seq<State>, moreSteps: seq<Step>)
    requires IsRun(states, steps) && i < j < |states|
    requires steps[i] == Proceed(p) && p in states[i].workers && states[i].workers[p].point.Create?
    requires states[i].workers[p].delivery.documentId in states[i].locks
    requires forall k :: i < k < j ==> steps[k].Tick? || steps[k].self != p
    ensures p in states[j].workers && states[j].workers[p].delivery == states[i].workers[p].delivery
    ensures !states[j].workers[p].holding && !states[j].workers[p].point.Finished?
    ensures Enabled(states[j], Proceed(p)) <==> states[j].now >= states[i].now + 500
    ensures var d := states[i].workers[p].delivery.documentId;
            && Enabled(states[j], Proceed(p))
            && d in states[j].transactions
            && d !in Purged(states[j].locks, states[j].workers[p].delivery.lockType, states[j].now) ==>
              && Chain(more, moreSteps) && more[0] == states[j]
              && (forall k :: 0 <= k < |moreSteps| ==> moreSteps[k] == Proceed(p))
              && |moreSteps| > 5 && more[5].workers.Keys == states[j].workers.Keys && more[5].workers[p].holding
              && Seen(states[j], p).Some?
              && CameThrough(states[j], more[|moreSteps|], p)
  {
    var s, s' := states[i], states[j];
    assert IsStep(s, steps[i], states[i + 1]);
    WellFormedAlways(states, steps, i);
    Undisturbed(states, steps, i + 1, j, p);
    assert s'.workers[p] == s.workers[p].(point := Wait(s.now + 500));
    more, moreSteps := [s'], [];
    var d := s.workers[p].delivery.documentId;
    if Enabled(s', Proceed(p)) && d in s'.transactions
       && d !in Purged(s'.locks, s'.workers[p].delivery.lockType, s'.now) {
      ReadBefore(states, steps, j, p);
      var again := Advance(s', p);
      assert again == At(s', p, s'.workers[p].(point := Begin));
      var through, throughSteps := ComeThrough(again, p);
      assert Chain([s', again], [Proceed(p)]);
      Join([s', again], [Proceed(p)], through, throughSteps);
      more, moreSteps := [s', again] + through[1..], [Proceed(p)] + throughSteps;
      assert more[5] == through[4];
    }
  }
}
