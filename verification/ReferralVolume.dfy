/**
 The queries on `pathId`: they never walk the referrer edges, yet return exactly what is
 reachable along them, and the per-line volumes they feed count every descendant once.
 */
module ReferralVolume {
  import opened Addresses
  import opened Permutations
  import opened ReferralForest
  import opened Transactions
  import opened Wrappers

  // ---------------------------------------------------------------- the queries

  /** getChildrenOrDirectRefereeFromAddress(address): one membership test on `pathId` per user. */
  function Descendants(f: Forest, a: Address): set<Address> {
    set d | d in f.users && a in f.users[d].pathId
  }

  /** getChildrenOrDirectRefereeFromAddress(address, true). */
  function DirectReferees(f: Forest, a: Address): set<Address> {
    set d | d in f.users && a in f.users[d].pathId && f.users[d].referrer == a
  }

  /** `n` referrer edges lead from `d` up to `a`. */
  ghost predicate Reaches(f: Forest, d: Address, a: Address, n: nat)
    decreases n
  {
    if n == 0 then d == a
    else d in f.users && f.users[d].pathId != [] && Reaches(f, f.users[d].referrer, a, n - 1)
  }

  /** The path of a user with the user itself at the end. */
  ghost function Line(f: Forest, d: Address): seq<Address>
    requires d in f.users
  {
    f.users[d].pathId + [d]
  }

  /** Walking `n` referrer edges is reading the path `n` entries from its end. */
  lemma {:induction false} WalkIsPath(f: Forest, d: Address, a: Address, n: nat)
    requires Shape(f) && d in f.users
    ensures Reaches(f, d, a, n) <==> n <= Depth(f, d) && a == Line(f, d)[Depth(f, d) - n]
    decreases n
  {
    if n > 0 && f.users[d].pathId != [] {
      assert ShapeOf(f, d);
      var k := Depth(f, d) - 1;
      var r := f.users[d].referrer;
      assert r == f.users[d].pathId[k];
      PathEntry(f, d, k);
      assert Line(f, r) == f.users[d].pathId;
      WalkIsPath(f, r, a, n - 1);
    } else {
      assert ShapeOf(f, d);
    }
  }

  /**
   In every state of every run in which nobody with descendants is deleted: the membership query returns exactly the users from which
   `a` is reached by one or more referrer edges, and no user reaches itself.
   */
  lemma QueryIsReachability(states: seq<Forest>, steps: seq<Step>, i: nat, d: Address, a: Address)
    requires AncestorsStay(states, steps) && i < |states| && d in states[i].users
    ensures d in Descendants(states[i], a) <==> exists n: nat :: n > 0 && Reaches(states[i], d, a, n)
    ensures forall n: nat :: n > 0 ==> !Reaches(states[i], d, d, n)
    ensures states[i].users[d].pathId != [] ==>
              var path := states[i].users[d].pathId;
              |path| > 0 && path[0] in states[i].users && states[i].users[path[0]].pathId == []
  {
    var f := states[i];
    ShapeUpTo(states, steps, i);
    assert ShapeOf(f, d);
    var path := f.users[d].pathId;
    if a in path {
      var k :| 0 <= k < |path| && path[k] == a;
      WalkIsPath(f, d, a, |path| - k);
      assert Reaches(f, d, a, |path| - k);
    }
    if n: nat :| n > 0 && Reaches(f, d, a, n) {
      WalkIsPath(f, d, a, n);
    }
    forall n: nat | n > 0 ensures !Reaches(f, d, d, n) {
      WalkIsPath(f, d, d, n);
      if n <= |path| {
        PathEntry(f, d, |path| - n);
      }
    }
    if |path| > 0 {
      PathEntry(f, d, 0);
    }
  }

  /** After the deletion of an account in the middle, the query returns somebody who is cut off. */
  lemma RemovalCutsLine() returns (states: seq<Forest>, steps: seq<Step>)
    ensures IsRun(states, steps)
    ensures steps == [Register(Account(2), ROOT), Register(Account(3), Account(2)), Remove(Account(2))]
    ensures Account(3) in Descendants(states[3], ROOT)
    ensures forall n: nat :: !Reaches(states[3], Account(3), ROOT, n)
  {
    steps := [Register(Account(2), ROOT), Register(Account(3), Account(2)), Remove(Account(2))];
    var f1 := Next(LONE_ROOT, steps[0]);
    var f2 := Next(f1, steps[1]);
    var f3 := Next(f2, steps[2]);
    states := [LONE_ROOT, f1, f2, f3];
    assert f1.users[Account(2)] == User(USER, COMMON, false, ROOT, ROOT, [ROOT], 0.0);
    assert f3.users[Account(3)] == User(USER, COMMON, false, Account(2), ROOT, [ROOT, Account(2)], 0.0);
    forall n: nat ensures !Reaches(f3, Account(3), ROOT, n) {
      assert n > 0 ==> !Reaches(f3, Account(2), ROOT, n - 1);
    }
  }

  // ---------------------------------------------------------------- lines under one user

  /** A direct referee together with everybody below it. */
  function Subtree(f: Forest, a: Address): set<Address> {
    Descendants(f, a) + {a}
  }

  /** The entry of `d`'s line just below an ancestor `a`. */
  lemma StepBelow(f: Forest, a: Address, d: Address)
    requires Shape(f) && a in f.users && d in Descendants(f, a)
    ensures Depth(f, a) < Depth(f, d)
    ensures Line(f, d)[Depth(f, a) + 1] in DirectReferees(f, a)
    ensures d in Subtree(f, Line(f, d)[Depth(f, a) + 1])
  {
    var path := f.users[d].pathId;
    var m :| 0 <= m < |path| && path[m] == a;
    PathEntry(f, d, m);
    var c := Line(f, d)[m + 1];
    if m + 1 < |path| {
      PathEntry(f, d, m + 1);
      assert path[..m + 1][m] == a;
      assert ShapeOf(f, c);
    } else {
      assert ShapeOf(f, d);
    }
  }

  lemma UniqueLine(f: Forest, a: Address, c: Address, d: Address)
    requires Shape(f) && a in f.users && c in DirectReferees(f, a) && d in Subtree(f, c)
    requires d in f.users
    ensures d in Descendants(f, a) && Depth(f, a) < Depth(f, d) && c == Line(f, d)[Depth(f, a) + 1]
  {
    assert ShapeOf(f, c) && ShapeOf(f, d);
    var pc := f.users[c].pathId;
    PathEntry(f, c, |pc| - 1);
    assert a == pc[|pc| - 1] && Depth(f, c) == Depth(f, a) + 1;
    if d != c {
      var pd := f.users[d].pathId;
      var k :| 0 <= k < |pd| && pd[k] == c;
      PathEntry(f, d, k);
      assert pd[k - 1] == pc[k - 1];
    }
  }

  /** The subtrees of the direct referees partition the strict descendants. */
  lemma LinesPartition(f: Forest, a: Address)
    requires Shape(f) && a in f.users
    ensures forall d :: d in Descendants(f, a) <==>
              d in f.users && exists c :: c in DirectReferees(f, a) && d in Subtree(f, c)
    ensures forall c, c' :: c in DirectReferees(f, a) && c' in DirectReferees(f, a) && c != c' ==>
              Subtree(f, c) !! Subtree(f, c')
  {
    forall d | d in Descendants(f, a) ensures exists c :: c in DirectReferees(f, a) && d in Subtree(f, c) {
      StepBelow(f, a, d);
    }
    forall c, d | c in DirectReferees(f, a) && d in Subtree(f, c) && d in f.users ensures d in Descendants(f, a) {
      UniqueLine(f, a, c, d);
    }
    forall c, c' | c in DirectReferees(f, a) && c' in DirectReferees(f, a) && c != c'
      ensures Subtree(f, c) !! Subtree(f, c')
    {
      forall d | d in Subtree(f, c) && d in Subtree(f, c') ensures false {
        UniqueLine(f, a, c, d);
        UniqueLine(f, a, c', d);
      }
    }
  }

  // ---------------------------------------------------------------- volumes

  /** `isMinted` is `type === MINTED`, the only test on the type made here. */
  datatype Sale = Sale(toAddress: Address, status: TransactionStatus, isMinted: bool, revenue: real)

  predicate Counts(sale: Sale, children: set<Address>) {
    sale.toAddress in children && sale.status == SUCCESS && sale.isMinted
  }

  /** The `$sum` of `revenue` over the matching transactions. */
  function Volume(sales: seq<Sale>, children: set<Address>): real {
    if sales == [] then 0.0
    else Volume(sales[..|sales| - 1], children) +
         if Counts(sales[|sales| - 1], children) then sales[|sales| - 1].revenue else 0.0
  }

  /** getGroupInfoByAddress: no group at all when nothing matches. */
  function GroupVolume(sales: seq<Sale>, children: set<Address>): Option<real> {
    if exists i :: 0 <= i < |sales| && Counts(sales[i], children) then Some(Volume(sales, children)) else None
  }

  /** The revenue of the pending transaction, if its buyer is among `children`. */
  function PendingVolume(pending: Option<Sale>, children: set<Address>): real {
    if pending.Some? && pending.value.toAddress in children then pending.value.revenue else 0.0
  }

  /** One entry of getListChildVolume: a referee's subtree, plus the pending transaction when it lands there. */
  function ChildVolume(f: Forest, sales: seq<Sale>, pending: Option<Sale>, item: Address): real {
    var children := Descendants(f, item) + {item};
    var group := GroupVolume(sales, children);
    var totalVolume := PendingVolume(pending, children);
    if group.Some? then totalVolume + group.value else totalVolume
  }

  /** The volumes of a list of referees added up. */
  function TotalChildVolume(f: Forest, sales: seq<Sale>, pending: Option<Sale>, items: seq<Address>): real {
    if items == [] then 0.0
    else TotalChildVolume(f, sales, pending, items[..|items| - 1]) +
         ChildVolume(f, sales, pending, items[|items| - 1])
  }

  lemma {:induction false} VolumeAdds(sales: seq<Sale>, s: set<Address>, t: set<Address>)
    requires s !! t
    ensures Volume(sales, s + t) == Volume(sales, s) + Volume(sales, t)
  {
    if sales != [] {
      VolumeAdds(sales[..|sales| - 1], s, t);
    }
  }

  lemma {:induction false} VolumeOfNobody(sales: seq<Sale>, s: set<Address>)
    requires forall i :: 0 <= i < |sales| ==> !Counts(sales[i], s)
    ensures Volume(sales, s) == 0.0
  {
    if sales != [] {
      VolumeOfNobody(sales[..|sales| - 1], s);
    }
  }

  lemma ChildVolumeIsSubtree(f: Forest, sales: seq<Sale>, pending: Option<Sale>, item: Address)
    ensures ChildVolume(f, sales, pending, item) ==
            Volume(sales, Subtree(f, item)) + PendingVolume(pending, Subtree(f, item))
  {
    if GroupVolume(sales, Subtree(f, item)).None? {
      VolumeOfNobody(sales, Subtree(f, item));
    }
  }

  /** Everybody in the subtrees of a list of referees. */
  ghost function Covered(f: Forest, items: seq<Address>): set<Address> {
    if items == [] then {} else Covered(f, items[..|items| - 1]) + Subtree(f, items[|items| - 1])
  }

  lemma {:induction false} CoveredMember(f: Forest, items: seq<Address>, d: Address)
    ensures d in Covered(f, items) <==> exists i :: 0 <= i < |items| && d in Subtree(f, items[i])
  {
    if items != [] {
      var n := |items| - 1;
      CoveredMember(f, items[..n], d);
      if d in Covered(f, items[..n]) {
        var i :| 0 <= i < n && d in Subtree(f, items[..n][i]);
        assert d in Subtree(f, items[i]);
      }
      if i :| 0 <= i < |items| && d in Subtree(f, items[i]) {
        assert i < n ==> d in Subtree(f, items[..n][i]);
      }
    }
  }

  lemma {:induction false} TotalIsCovered(
    f: Forest, a: Address, sales: seq<Sale>, pending: Option<Sale>, items: seq<Address>)
    requires Shape(f) && a in f.users
    requires NoRepeats(items) && forall i :: 0 <= i < |items| ==> items[i] in DirectReferees(f, a)
    ensures TotalChildVolume(f, sales, pending, items) ==
            Volume(sales, Covered(f, items)) + PendingVolume(pending, Covered(f, items))
  {
    if items == [] {
      VolumeOfNobody(sales, {});
    } else {
      var n := |items| - 1;
      TotalIsCovered(f, a, sales, pending, items[..n]);
      ChildVolumeIsSubtree(f, sales, pending, items[n]);
      LinesPartition(f, a);
      forall d | d in Covered(f, items[..n]) ensures d !in Subtree(f, items[n]) {
        CoveredMember(f, items[..n], d);
      }
      VolumeAdds(sales, Covered(f, items[..n]), Subtree(f, items[n]));
    }
  }

  /**
   In every state of every such run, and whatever the order in which the direct referees are listed,
   their volumes add up to the volume of all strict descendants, with the pending transaction
   counted exactly once if its buyer is one of them.
   */
  lemma ListChildVolumeTotal(
    states: seq<Forest>, steps: seq<Step>, i: nat, a: Address,
    sales: seq<Sale>, pending: Option<Sale>, items: seq<Address>)
    requires AncestorsStay(states, steps) && i < |states| && a in states[i].users
    requires NoRepeats(items)
    requires forall c :: c in items <==> c in DirectReferees(states[i], a)
    ensures TotalChildVolume(states[i], sales, pending, items) ==
            Volume(sales, Descendants(states[i], a)) + PendingVolume(pending, Descendants(states[i], a))
  {
    var f := states[i];
    ShapeUpTo(states, steps, i);
    TotalIsCovered(f, a, sales, pending, items);
    LinesPartition(f, a);
    assert Covered(f, items) == Descendants(f, a) by {
      forall d ensures d in Covered(f, items) <==> d in Descendants(f, a) {
        CoveredMember(f, items, d);
        if d in Descendants(f, a) {
          var c :| c in DirectReferees(f, a) && d in Subtree(f, c);
          assert c in items;
          var j :| 0 <= j < |items| && items[j] == c;
          assert d in Subtree(f, items[j]);
        }
      }
    }
  }

  // ---------------------------------------------------------------- what one transaction contributes

  /** `d` is a strict descendant of `a`. */
  predicate Below(f: Forest, d: Address, a: Address) {
    d in f.users && a in f.users[d].pathId
  }

  lemma {:induction false} VolumeInserted(front: seq<Sale>, sale: Sale, back: seq<Sale>, children: set<Address>)
    ensures Volume([], children) == 0.0
    ensures Volume(front + [sale] + back, children) ==
            Volume(front + back, children) +
            if sale.toAddress in children && sale.status == SUCCESS && sale.isMinted then sale.revenue else 0.0
  {
    if back == [] {
      assert front + [sale] + back == front + [sale] && front + back == front;
      assert (front + [sale])[..|front|] == front;
    } else {
      var k := |back| - 1;
      VolumeInserted(front, sale, back[..k], children);
      assert (front + [sale] + back)[..|front| + 1 + k] == front + [sale] + back[..k];
      assert (front + back)[..|front| + k] == front + back[..k];
    }
  }

  /**
   A transaction anywhere in the collection adds its revenue to the line of `c` exactly when it is a
   successful mint for `c` or somebody below, and the pending one exactly when its buyer is there.
   */
  lemma LineContribution(
    f: Forest, front: seq<Sale>, sale: Sale, back: seq<Sale>, pending: Option<Sale>, c: Address)
    ensures ChildVolume(f, [], None, c) == 0.0
    ensures ChildVolume(f, front + [sale] + back, pending, c) ==
            ChildVolume(f, front + back, pending, c) +
            if (sale.toAddress == c || Below(f, sale.toAddress, c)) && sale.status == SUCCESS && sale.isMinted
            then sale.revenue else 0.0
    ensures ChildVolume(f, front, Some(sale), c) ==
            ChildVolume(f, front, None, c) +
            if sale.toAddress == c || Below(f, sale.toAddress, c) then sale.revenue else 0.0
  {
    ChildVolumeIsSubtree(f, [], None, c);
    ChildVolumeIsSubtree(f, front + [sale] + back, pending, c);
    ChildVolumeIsSubtree(f, front + back, pending, c);
    ChildVolumeIsSubtree(f, front, Some(sale), c);
    ChildVolumeIsSubtree(f, front, None, c);
    VolumeInserted(front, sale, back, Subtree(f, c));
  }

  lemma {:induction false} NoLinesNoVolume(f: Forest, items: seq<Address>)
    ensures TotalChildVolume(f, [], None, items) == 0.0
  {
    if items != [] {
      NoLinesNoVolume(f, items[..|items| - 1]);
      LineContribution(f, [], Sale(Empty, SUCCESS, true, 0.0), [], None, items[|items| - 1]);
    }
  }

  /**
   In every state of every run that deletes nobody with descendants, with all direct referees of `a`
   listed in any order: without transactions the lines add up to 0, and a transaction adds its revenue
   to the total exactly when it is a successful mint for a strict descendant of `a`, the pending one
   when its buyer is one.
   */
  lemma TotalContribution(
    states: seq<Forest>, steps: seq<Step>, i: nat, a: Address,
    front: seq<Sale>, sale: Sale, back: seq<Sale>, pending: Option<Sale>, items: seq<Address>)
    requires AncestorsStay(states, steps) && i < |states| && a in states[i].users
    requires NoRepeats(items)
    requires forall c :: c in items <==> c in DirectReferees(states[i], a)
    ensures TotalChildVolume(states[i], [], None, items) == 0.0
    ensures TotalChildVolume(states[i], front + [sale] + back, pending, items) ==
            TotalChildVolume(states[i], front + back, pending, items) +
            if Below(states[i], sale.toAddress, a) && sale.status == SUCCESS && sale.isMinted then sale.revenue else 0.0
    ensures TotalChildVolume(states[i], front, Some(sale), items) ==
            TotalChildVolume(states[i], front, None, items) +
            if Below(states[i], sale.toAddress, a) then sale.revenue else 0.0
  {
    NoLinesNoVolume(states[i], items);
    ListChildVolumeTotal(states, steps, i, a, front + [sale] + back, pending, items);
    ListChildVolumeTotal(states, steps, i, a, front + back, pending, items);
    ListChildVolumeTotal(states, steps, i, a, front, Some(sale), items);
    ListChildVolumeTotal(states, steps, i, a, front, None, items);
    VolumeInserted(front, sale, back, Descendants(states[i], a));
  }
}
