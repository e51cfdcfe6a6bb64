/** Named counters that hand out single numbers and ranges by one atomic increment each. */
module Counters {
  datatype CounterName = NFT | TOKEN | REQUEST_ID

  type Store = map<CounterName, int>

  datatype Call = NextIndex(name: CounterName, step: int) | ListIndex(name: CounterName, step: int)

  function Index(store: Store, name: CounterName): int {
    if name in store then store[name] else 0
  }

  /** `findOneAndUpdate` with `$inc` and `upsert`: a missing counter is created at `step`. */
  function After(store: Store, call: Call): Store {
    store[call.name := Index(store, call.name) + call.step]
  }

  /** `count` consecutive numbers that follow `index`. */
  function Block(index: int, count: int): seq<int> {
    if count <= 0 then [] else seq(count, i => index + 1 + i)
  }

  /** The numbers that a call hands out: one above the old index, or a range of `step` above it. */
  function Issued(store: Store, call: Call): seq<int> {
    match call
    case NextIndex(name, _) => [Index(store, name) + 1]
    case ListIndex(name, step) => Block(Index(store, name), step)
  }

  /** The counters collection. */
  class CounterCollection {
    var counters: Store

    constructor ()
      ensures counters == map[]
    {
      counters := map[];
    }

    method FindNextIndex(name: CounterName, step: int) returns (currentIndex: int)
      modifies this
      ensures counters == After(old(counters), NextIndex(name, step))
      ensures [currentIndex] == Issued(old(counters), NextIndex(name, step))
    {
      currentIndex := 1;
      if name in counters {
        currentIndex := counters[name] + 1;
        counters := counters[name := counters[name] + step];
      } else {
        counters := counters[name := step];
      }
    }

    method FindListIndex(name: CounterName, step: int) returns (list: seq<int>)
      modifies this
      ensures counters == After(old(counters), ListIndex(name, step))
      ensures list == Issued(old(counters), ListIndex(name, step))
    {
      var currentIndex := 0;
      if name in counters {
        currentIndex := counters[name];
      }
      counters := counters[name := currentIndex + step];
      list := [];
      var index := currentIndex + 1;
      while index <= currentIndex + step
        invariant currentIndex + 1 <= index
        invariant step >= 0 ==> index <= currentIndex + step + 1
        invariant step < 0 ==> index == currentIndex + 1
        invariant list == Block(currentIndex, index - currentIndex - 1)
      {
        list := list + [index];
        index := index + 1;
      }
    }
  }

  // ---------------------------------------------------------------- runs

  ghost predicate IsRun(stores: seq<Store>, calls: seq<Call>) {
    && |stores| == |calls| + 1
    && stores[0] == map[]
    && forall i :: 0 <= i < |calls| ==> stores[i + 1] == After(stores[i], calls[i])
  }

  /** Everything that the first `n` calls have issued from one counter, in order. */
  ghost function IssuedFrom(stores: seq<Store>, calls: seq<Call>, name: CounterName, n: nat): seq<int>
    requires |stores| == |calls| + 1 && n <= |calls|
  {
    if n == 0 then []
    else
      IssuedFrom(stores, calls, name, n - 1) +
      if calls[n - 1].name == name then Issued(stores[n - 1], calls[n - 1]) else []
  }

  /** The issued numbers are exactly 1 to the counter's index, each once and in order. */
  ghost predicate Gapless(stores: seq<Store>, calls: seq<Call>, name: CounterName, n: nat)
    requires |stores| == |calls| + 1 && n <= |calls|
  {
    Index(stores[n], name) >= 0 && IssuedFrom(stores, calls, name, n) == Block(0, Index(stores[n], name))
  }

  /** A single number with the default step, or a range of no negative length. */
  predicate Regular(call: Call) {
    match call
    case NextIndex(_, step) => step == 1
    case ListIndex(_, step) => step >= 0
  }

  lemma GaplessStep(stores: seq<Store>, calls: seq<Call>, name: CounterName, n: nat)
    requires IsRun(stores, calls) && n < |calls| && Gapless(stores, calls, name, n)
    ensures Gapless(stores, calls, name, n + 1) <==> (calls[n].name == name ==> Regular(calls[n]))
  {
    assert stores[n + 1] == After(stores[n], calls[n]);
    var index := Index(stores[n], name);
    if calls[n].name == name {
      var issued := Issued(stores[n], calls[n]);
      assert |IssuedFrom(stores, calls, name, n + 1)| == index + |issued|;
      if Regular(calls[n]) {
        assert issued == Block(index, calls[n].step);
        assert Block(0, index) + Block(index, calls[n].step) == Block(0, index + calls[n].step);
      }
    }
  }

  /**
   Over any interleaving of calls on any counters: after every call the numbers issued from one
   counter are exactly 1 to its index, without gap or repetition, if and only if every single
   number was taken with step 1 and no range had a negative length.
   */
  lemma GaplessRun(stores: seq<Store>, calls: seq<Call>, name: CounterName)
    requires IsRun(stores, calls)
    ensures (forall n :: 0 <= n <= |calls| ==> Gapless(stores, calls, name, n))
        <==> (forall n :: 0 <= n < |calls| && calls[n].name == name ==> Regular(calls[n]))
  {
    if forall n :: 0 <= n <= |calls| ==> Gapless(stores, calls, name, n) {
      forall n | 0 <= n < |calls| && calls[n].name == name ensures Regular(calls[n]) {
        assert Gapless(stores, calls, name, n + 1);
        GaplessStep(stores, calls, name, n);
      }
    }
    if forall n :: 0 <= n < |calls| && calls[n].name == name ==> Regular(calls[n]) {
      forall n | 0 <= n <= |calls| ensures Gapless(stores, calls, name, n) {
        GaplessUpTo(stores, calls, name, n);
      }
    }
  }

  lemma GaplessUpTo(stores: seq<Store>, calls: seq<Call>, name: CounterName, n: nat)
    requires IsRun(stores, calls) && n <= |calls|
    requires forall i :: 0 <= i < n && calls[i].name == name ==> Regular(calls[i])
    ensures Gapless(stores, calls, name, n)
  {
    if n > 0 {
      GaplessUpTo(stores, calls, name, n - 1);
      GaplessStep(stores, calls, name, n - 1);
    }
  }

  // ---------------------------------------------------------------- irregular steps

  /** A single number taken with step 2 leaves a gap. */
  lemma StepOfTwoSkips() returns (stores: seq<Store>, calls: seq<Call>)
    ensures IsRun(stores, calls) && calls == [NextIndex(NFT, 2), NextIndex(NFT, 1)]
    ensures IssuedFrom(stores, calls, NFT, 2) == [1, 3]
    ensures !Gapless(stores, calls, NFT, 1)
  {
    calls := [NextIndex(NFT, 2), NextIndex(NFT, 1)];
    stores := [map[], map[NFT := 2], map[NFT := 3]];
    assert IssuedFrom(stores, calls, NFT, 0) == [];
    assert IssuedFrom(stores, calls, NFT, 1) == [1];
    assert |Block(0, 2)| == 2;
  }

  /** A range of negative length issues nothing and takes the counter back, so a number is issued twice. */
  lemma NegativeRangeRepeats() returns (stores: seq<Store>, calls: seq<Call>)
    ensures IsRun(stores, calls) && calls == [NextIndex(NFT, 1), ListIndex(NFT, -1), NextIndex(NFT, 1)]
    ensures IssuedFrom(stores, calls, NFT, 3) == [1, 1]
    ensures !Gapless(stores, calls, NFT, 2)
  {
    calls := [NextIndex(NFT, 1), ListIndex(NFT, -1), NextIndex(NFT, 1)];
    stores := [map[], map[NFT := 1], map[NFT := 0], map[NFT := 1]];
    assert IssuedFrom(stores, calls, NFT, 0) == [];
    assert IssuedFrom(stores, calls, NFT, 1) == [1];
    assert IssuedFrom(stores, calls, NFT, 2) == [1];
    assert |Block(0, 0)| == 0;
  }
}
