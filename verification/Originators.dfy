/**
 What the originator pointers mean: in which runs they stay anchored in the tree, and in which
 they always name the nearest BDA above the user.
 */
module Originators {
  import opened Addresses
  import opened ReferralForest
  import opened Wrappers

  // ---------------------------------------------------------------- originator: anchored

  /** An originator is a strict ancestor that is the root of the tree or currently a BDA. */
  ghost predicate Anchored(f: Forest) {
    forall d :: d in f.users && f.users[d].pathId != [] ==> AnchoredAt(f, d)
  }

  ghost predicate AnchoredAt(f: Forest, d: Address)
    requires d in f.users
  {
    var o := f.users[d].originator;
    && o in f.users[d].pathId
    && o in f.users
    && (o == f.users[d].pathId[0] || f.users[o].userType == BDA)
  }

  /** Demoting a root that some user still points to. */
  ghost predicate OrphansRoot(f: Forest, step: Step) {
    && step.Demote?
    && step.user in f.users
    && f.users[step.user].pathId == []
    && exists d :: d in f.users && f.users[d].pathId != [] && f.users[d].originator == step.user
  }

  lemma AnchoredAfterRegister(f: Forest, step: Step)
    requires Shape(f) && Anchored(f) && step.Register?
    ensures Anchored(Next(f, step))
  {
    var f' := Next(f, step);
    var r := NewUser(f, step.address, step.referrer);
    if r.Success? && step.address != Empty {
      var u := r.value;
      var p := f.users[u.referrer];
      assert ShapeOf(f, u.referrer);
      forall d | d in f'.users && f'.users[d].pathId != [] ensures AnchoredAt(f', d) {
        if d == step.address {
          assert u.pathId[|p.pathId|] == u.referrer;
          if p.pathId != [] {
            assert AnchoredAt(f, u.referrer);
            var k :| 0 <= k < |p.pathId| && p.pathId[k] == p.originator;
            assert u.pathId[k] == p.originator;
            assert Empty !in p.pathId;
          }
        } else {
          assert AnchoredAt(f, d) && ShapeOf(f, d);
        }
      }
    }
  }

  lemma AnchoredAfterPromote(f: Forest, x: Address)
    requires Anchored(f) && x in f.users
    ensures Anchored(Promoted(f, x))
  {
    var f' := Promoted(f, x);
    forall d | d in f'.users && f'.users[d].pathId != [] ensures AnchoredAt(f', d) {
      assert AnchoredAt(f, d);
    }
  }

  lemma DemotedFacts(f: Forest, x: Address)
    requires Shape(f) && x in f.users
    ensures f.users[x].role == USER ==> Retyped(f, Demoted(f, x), x, COMMON)
    ensures forall d :: d in f.users && f.users[d].pathId != [] ==>
              Demoted(f, x).users[d].originator ==
              if f.users[d].originator == x then f.users[x].originator else f.users[d].originator
    ensures f.users[x].role != USER && !OrphansRoot(f, Demote(x)) ==> Demoted(f, x) == f
  {
    assert ShapeOf(f, x);
    forall d | d in f.users ensures ShapeOf(f, d) {
    }
    if f.users[x].role != USER && !OrphansRoot(f, Demote(x)) {
      assert Demoted(f, x).users == f.users;
    }
  }

  ghost predicate NobodyPointsTo(f: Forest, x: Address) {
    forall d :: d in f.users && f.users[d].pathId != [] ==> f.users[d].originator != x
  }

  lemma AnchoredAfterDemote(f: Forest, x: Address)
    requires Shape(f) && Anchored(f) && x in f.users
    ensures Anchored(Demoted(f, x)) <==> !OrphansRoot(f, Demote(x))
    ensures NobodyPointsTo(Demoted(f, x), x)
  {
    DemotedFacts(f, x);
    if OrphansRoot(f, Demote(x)) {
      RootDemotionBreaks(f, x);
      RootLosesAll(f, x);
    } else if f.users[x].pathId != [] {
      assert ShapeOf(f, x);
      AnchoredAfterUserDemote(f, Demoted(f, x), x);
    } else if f.users[x].role == USER {
      AnchoredAfterRootDemote(f, Demoted(f, x), x);
    }
  }

  /** A root that nobody points to only loses its type. */
  lemma AnchoredAfterRootDemote(f: Forest, f': Forest, x: Address)
    requires Anchored(f) && Retyped(f, f', x, COMMON) && NobodyPointsTo(f, x)
    requires forall d :: d in f.users && f.users[d].pathId != [] ==> f'.users[d].originator == f.users[d].originator
    ensures Anchored(f') && NobodyPointsTo(f', x)
  {
    forall d | d in f'.users && f'.users[d].pathId != [] ensures AnchoredAt(f', d) {
      assert AnchoredAt(f, d);
    }
  }

  lemma AnchoredAfterDemoteEverywhere(f: Forest, x: Address)
    requires x in f.users
    ensures Shape(f) && Anchored(f) ==>
              && NobodyPointsTo(Demoted(f, x), x)
              && (Anchored(Demoted(f, x)) <==> !OrphansRoot(f, Demote(x)))
  {
    if Shape(f) && Anchored(f) {
      AnchoredAfterDemote(f, x);
    }
  }

  lemma RootDemotionBreaks(f: Forest, x: Address)
    requires Shape(f) && OrphansRoot(f, Demote(x))
    ensures !Anchored(Demoted(f, x))
  {
    var d :| d in f.users && f.users[d].pathId != [] && f.users[d].originator == x;
    DemotedFacts(f, x);
    DemotedAt(f, x);
    ShapeAfterDemote(f, x);
    assert ShapeOf(f, x) && ShapeOf(f, d) && ShapeOf(Demoted(f, x), d);
    assert !AnchoredAt(Demoted(f, x), d);
  }

  /** A demoted root hands everybody its own, empty, originator. */
  lemma RootLosesAll(f: Forest, x: Address)
    requires Shape(f) && x in f.users && f.users[x].pathId == []
    ensures NobodyPointsTo(Demoted(f, x), x)
  {
    assert ShapeOf(f, x);
    DemotedFacts(f, x);
    DemotedAt(f, x);
  }

  lemma AnchoredAfterUserDemote(f: Forest, f': Forest, x: Address)
    requires Shape(f) && Anchored(f) && Retyped(f, f', x, COMMON)
    requires x in f.users && f.users[x].pathId != []
    requires forall d :: d in f.users && f.users[d].pathId != [] ==>
               f'.users[d].originator ==
               if f.users[d].originator == x then f.users[x].originator else f.users[d].originator
    ensures Anchored(f') && NobodyPointsTo(f', x)
  {
    assert AnchoredAt(f, x);
    forall d | d in f'.users && f'.users[d].pathId != []
      ensures AnchoredAt(f', d) && f'.users[d].originator != x
    {
      assert AnchoredAt(f, d);
      if f.users[d].originator == x {
        AnchoredAfterHandOver(f, f', x, d);
      }
    }
  }

  /** A user handed over from the demoted `x` to `x`'s own originator is still anchored. */
  lemma AnchoredAfterHandOver(f: Forest, f': Forest, x: Address, d: Address)
    requires Shape(f) && Retyped(f, f', x, COMMON)
    requires x in f.users && d in f.users && x in f.users[d].pathId && AnchoredAt(f, x)
    requires f'.users[d].originator == f.users[x].originator
    ensures AnchoredAt(f', d) && f'.users[d].originator != x
  {
    var o := f.users[x].originator;
    InheritedAncestor(f, d, x, o);
    var k :| 0 <= k < Depth(f, x) && f.users[x].pathId[k] == o;
    PathEntry(f, x, k);
  }

  /** An ancestor of an ancestor is an ancestor, and both share the root. */
  lemma InheritedAncestor(f: Forest, d: Address, x: Address, o: Address)
    requires Shape(f) && d in f.users && x in f.users[d].pathId
    requires x in f.users && o in f.users[x].pathId
    ensures o in f.users[d].pathId
    ensures f.users[x].pathId[0] == f.users[d].pathId[0]
  {
    var i :| 0 <= i < Depth(f, d) && f.users[d].pathId[i] == x;
    PathEntry(f, d, i);
    var j :| 0 <= j < i && f.users[x].pathId[j] == o;
    assert f.users[d].pathId[j] == o;
  }

  lemma AnchoredAfterRemove(f: Forest, x: Address)
    requires Anchored(f) && !RemovesAncestor(f, Remove(x))
    ensures Anchored(Removed(f, x))
  {
    var f' := Removed(f, x);
    forall d | d in f'.users && f'.users[d].pathId != [] ensures AnchoredAt(f', d) {
      assert AnchoredAt(f, d);
    }
  }

  /** A step that takes the meaning of the paths or of an originator away. */
  ghost predicate Unanchors(f: Forest, step: Step) {
    RemovesAncestor(f, step) || OrphansRoot(f, step)
  }

  lemma AnchoredStep(f: Forest, step: Step)
    requires Shape(f) && Anchored(f)
    ensures Shape(Next(f, step)) && Anchored(Next(f, step)) <==> !Unanchors(f, step)
  {
    ShapeStep(f, step);
    match step
    case Register(_, _) => AnchoredAfterRegister(f, step);
    case Enrol(_, _) => AnchoredAfterSmallStep(f, step);
    case Remove(x) => if !RemovesAncestor(f, step) { AnchoredAfterRemove(f, x); }
    case Promote(x) => if x in f.users { AnchoredAfterPromote(f, x); }
    case Demote(x) => if x in f.users { AnchoredAfterDemote(f, x); }
    case SetKyc(_, _) => AnchoredAfterSmallStep(f, step);
  }

  lemma AnchoredAfterSmallStep(f: Forest, step: Step)
    requires Anchored(f) && (step.Enrol? || step.SetKyc?)
    ensures Anchored(Next(f, step))
  {
    var f' := Next(f, step);
    forall d | d in f'.users && f'.users[d].pathId != [] ensures AnchoredAt(f', d) {
      assert AnchoredAt(f, d);
    }
  }

  /**
   Over a whole run, with no restriction on referrers: paths are chains of referrers and originators
   stay anchored in every state exactly when no step demotes a root that a user still points to or
   deletes an account with descendants.
   */
  lemma AnchoredRun(states: seq<Forest>, steps: seq<Step>)
    requires IsRun(states, steps)
    ensures (forall i :: 0 <= i < |states| ==> Shape(states[i]) && Anchored(states[i]))
        <==> (forall i :: 0 <= i < |steps| ==> !Unanchors(states[i], steps[i]))
  {
    if forall i :: 0 <= i < |states| ==> Shape(states[i]) && Anchored(states[i]) {
      forall i | 0 <= i < |steps| ensures !Unanchors(states[i], steps[i]) {
        AnchoredStep(states[i], steps[i]);
        assert Shape(states[i + 1]);
      }
    }
    if forall i :: 0 <= i < |steps| ==> !Unanchors(states[i], steps[i]) {
      forall i | 0 <= i < |states| ensures Shape(states[i]) && Anchored(states[i]) {
        AnchoredUpTo(states, steps, i);
      }
    }
  }

  lemma AnchoredUpTo(states: seq<Forest>, steps: seq<Step>, n: nat)
    requires IsRun(states, steps) && n < |states|
    requires forall i :: 0 <= i < n ==> !Unanchors(states[i], steps[i])
    ensures Shape(states[n]) && Anchored(states[n])
  {
    if n > 0 {
      AnchoredUpTo(states, steps, n - 1);
      AnchoredStep(states[n - 1], steps[n - 1]);
    }
  }

  // ---------------------------------------------------------------- promotion compares depths

  /**
   The membership test of the promotion update is a comparison of depths: every strict
   descendant ends up pointing to the deeper of its old originator and the promoted user.
   */
  lemma PromotionKeepsDeeper(f: Forest, x: Address, d: Address)
    requires Shape(f) && Anchored(f)
    requires x in f.users && d in f.users && x in f.users[d].pathId
    ensures AnchoredAt(f, d)
    ensures Promoted(f, x).users[d].originator ==
            var o := f.users[d].originator;
            if Depth(f, o) < Depth(f, x) then x else o
  {
    var path := f.users[d].pathId;
    var m :| 0 <= m < |path| && path[m] == x;
    PathEntry(f, d, m);
    assert ShapeOf(f, d) && AnchoredAt(f, d);
    var o := f.users[d].originator;
    var k :| 0 <= k < |path| && path[k] == o;
    PathEntry(f, d, k);
    assert o in path[..m] <==> k < m by {
      if k < m {
        assert path[..m][k] == o;
      }
      if o in path[..m] {
        var j :| 0 <= j < m && path[j] == o;
      }
    }
  }

  /** Every strict descendant of `x` points, after the change, to the deeper of its old originator and `x`. */
  ghost predicate KeepsDeeper(f: Forest, f': Forest, x: Address)
    requires x in f.users
  {
    forall d :: d in f.users && x in f.users[d].pathId ==>
      var o := f.users[d].originator;
      && o in f.users
      && d in f'.users
      && f'.users[d].originator == if Depth(f, o) < Depth(f, x) then x else o
  }

  lemma PromotionKeepsDeeperEverywhere(f: Forest, x: Address)
    requires x in f.users
    ensures Shape(f) && Anchored(f) ==> Anchored(Promoted(f, x)) && KeepsDeeper(f, Promoted(f, x), x)
  {
    if Shape(f) && Anchored(f) {
      AnchoredAfterPromote(f, x);
      forall d | d in f.users && x in f.users[d].pathId
        ensures var o := f.users[d].originator;
                && o in f.users
                && Promoted(f, x).users[d].originator == if Depth(f, o) < Depth(f, x) then x else o
      {
        PromotionKeepsDeeper(f, x, d);
      }
    }
  }

  // ---------------------------------------------------------------- originator: nearest BDA

  ghost predicate Known(f: Forest, path: seq<Address>) {
    forall i :: 0 <= i < |path| ==> path[i] in f.users
  }

  /** The last BDA of a path, or its first entry when there is none. */
  ghost function LastBda(f: Forest, path: seq<Address>): Address
    requires |path| > 0 && Known(f, path)
  {
    var last := path[|path| - 1];
    if |path| == 1 || f.users[last].userType == BDA then last
    else LastBda(f, path[..|path| - 1])
  }

  /** `k` is where the last BDA of the path sits, or 0 when there is none. */
  ghost predicate LastBdaAt(f: Forest, path: seq<Address>, k: int)
    requires Known(f, path)
  {
    && 0 <= k < |path|
    && (k == 0 || f.users[path[k]].userType == BDA)
    && forall j :: k < j < |path| ==> f.users[path[j]].userType != BDA
  }

  lemma LastBdaIsAt(f: Forest, path: seq<Address>) returns (k: nat)
    requires |path| > 0 && Known(f, path)
    ensures LastBdaAt(f, path, k) && path[k] == LastBda(f, path)
  {
    var last := path[|path| - 1];
    if |path| == 1 || f.users[last].userType == BDA {
      k := |path| - 1;
    } else {
      k := LastBdaIsAt(f, path[..|path| - 1]);
    }
  }

  lemma LastBdaUnique(f: Forest, path: seq<Address>, k: int)
    requires |path| > 0 && Known(f, path) && LastBdaAt(f, path, k)
    ensures LastBda(f, path) == path[k]
  {
    var k' := LastBdaIsAt(f, path);
    assert k' <= k;
    assert k <= k';
  }

  ghost predicate Nearest(f: Forest) {
    forall d :: d in f.users && f.users[d].pathId != [] ==> NearestAt(f, d)
  }

  ghost predicate NearestAt(f: Forest, d: Address)
    requires d in f.users
  {
    var path := f.users[d].pathId;
    |path| > 0 && Known(f, path) && f.users[d].originator == LastBda(f, path)
  }

  /** A successful registration whose referrer is a BDA other than a root. */
  ghost predicate RefersToBda(f: Forest, step: Step) {
    && step.Register? && step.address != Empty
    && var r := NewUser(f, step.address, step.referrer);
       && r.Success?
       && f.users[r.value.referrer].pathId != []
       && f.users[r.value.referrer].userType == BDA
  }

  lemma NearestIsAnchored(f: Forest)
    requires Shape(f) && Nearest(f)
    ensures Anchored(f)
  {
    forall d | d in f.users && f.users[d].pathId != [] ensures AnchoredAt(f, d) {
      assert NearestAt(f, d);
      var k := LastBdaIsAt(f, f.users[d].pathId);
    }
  }

  /** A change that leaves paths and the types along one path alone leaves its last BDA alone. */
  lemma LastBdaFrame(f: Forest, f': Forest, path: seq<Address>)
    requires |path| > 0 && Known(f, path) && Known(f', path)
    requires forall i :: 0 <= i < |path| ==> f.users[path[i]].userType == f'.users[path[i]].userType
    ensures LastBda(f, path) == LastBda(f', path)
  {
    var k := LastBdaIsAt(f, path);
    assert LastBdaAt(f', path, k);
    LastBdaUnique(f', path, k);
  }

  lemma NearestAfterRegister(f: Forest, step: Step)
    requires Shape(f) && Nearest(f) && step.Register?
    ensures Nearest(Next(f, step)) <==> !RefersToBda(f, step)
  {
    var f' := Next(f, step);
    var r := NewUser(f, step.address, step.referrer);
    if r.Success? && step.address != Empty {
      var u := r.value;
      NewcomerNearest(f, step);
      forall d | d in f.users && f.users[d].pathId != [] ensures NearestAt(f', d) {
        assert NearestAt(f, d) && ShapeOf(f, d);
        LastBdaFrame(f, f', f.users[d].pathId);
      }
      assert step.address in f'.users && f'.users[step.address].pathId != [];
    }
  }

  lemma NewcomerNearest(f: Forest, step: Step)
    requires Shape(f) && Nearest(f) && step.Register?
    requires NewUser(f, step.address, step.referrer).Success? && step.address != Empty
    ensures NearestAt(Next(f, step), step.address) <==> !RefersToBda(f, step)
  {
    NewUserFacts(f, step.address, step.referrer);
    var f' := Next(f, step);
    var u := NewUser(f, step.address, step.referrer).value;
    var parentPath := f.users[u.referrer].pathId;
    assert ShapeOf(f, u.referrer);
    assert u.pathId[..|parentPath|] == parentPath;
    KnownAfterRegister(f, f', u.referrer, u.pathId);
    if parentPath != [] {
      assert NearestAt(f, u.referrer);
      LastBdaFrame(f, f', parentPath);
      var k := LastBdaIsAt(f, parentPath);
      PathEntry(f, u.referrer, k);
      assert f.users[u.referrer].originator == parentPath[k];
    }
  }

  lemma KnownAfterRegister(f: Forest, f': Forest, parent: Address, path: seq<Address>)
    requires Shape(f) && parent in f.users && path == f.users[parent].pathId + [parent]
    requires f.users.Keys <= f'.users.Keys
    ensures Known(f', path) && Known(f', f.users[parent].pathId)
    ensures Empty !in f.users[parent].pathId
  {
    assert ShapeOf(f, parent);
    forall i | 0 <= i < |path| ensures path[i] in f'.users {
      if i < |path| - 1 {
        assert Link(f, f.users[parent].pathId, i);
      }
    }
    forall i | 0 <= i < |path| - 1 ensures f.users[parent].pathId[i] in f'.users {
      assert path[i] in f'.users;
    }
  }

  lemma NearestAfterPromote(f: Forest, x: Address)
    requires Shape(f) && Nearest(f) && x in f.users
    ensures Nearest(Promoted(f, x))
  {
    NearestIsAnchored(f);
    PromotionKeepsDeeperEverywhere(f, x);
    PromotedFacts(f, x);
    NearestAfterPromotion(f, Promoted(f, x), x);
  }

  lemma NearestAfterPromotion(f: Forest, f': Forest, x: Address)
    requires Shape(f) && Nearest(f) && Anchored(f) && x in f.users
    requires Retyped(f, f', x, BDA) && KeepsDeeper(f, f', x)
    requires forall d :: d in f.users && x !in f.users[d].pathId ==>
               f'.users[d].originator == f.users[d].originator
    ensures Nearest(f')
  {
    forall d | d in f'.users && f'.users[d].pathId != [] ensures NearestAt(f', d) {
      assert NearestAt(f, d) && AnchoredAt(f, d);
      if x in f.users[d].pathId {
        NearestBelowPromoted(f, f', x, d);
      } else {
        LastBdaElsewhere(f, f', x, f.users[d].pathId);
      }
    }
  }

  lemma LastBdaElsewhere(f: Forest, f': Forest, x: Address, path: seq<Address>)
    requires |path| > 0 && Known(f, path) && x !in path && Retyped(f, f', x, BDA)
    ensures Known(f', path) && LastBda(f, path) == LastBda(f', path)
  {
    LastBdaFrame(f, f', path);
  }

  lemma NearestBelowPromoted(f: Forest, f': Forest, x: Address, d: Address)
    requires Shape(f) && Retyped(f, f', x, BDA)
    requires x in f.users && d in f.users && NearestAt(f, d)
    requires x in f.users[d].pathId && AnchoredAt(f, d)
    requires f'.users[d].originator ==
             var o := f.users[d].originator;
             if Depth(f, o) < Depth(f, x) then x else o
    ensures NearestAt(f', d)
  {
    var path := f.users[d].pathId;
    var m :| 0 <= m < |path| && path[m] == x;
    PathEntry(f, d, m);
    var k := LastBdaIsAt(f, path);
    PathEntry(f, d, k);
    LastBdaGained(f, f', path, k, m);
  }

  /** When the entry at `m` becomes a BDA, the last BDA is the later of the old one and that entry. */
  lemma LastBdaGained(f: Forest, f': Forest, path: seq<Address>, k: nat, m: nat)
    requires Known(f, path) && Known(f', path) && LastBdaAt(f, path, k) && m < |path|
    requires f'.users[path[m]].userType == BDA
    requires forall i :: 0 <= i < |path| && i != m ==> f'.users[path[i]].userType == f.users[path[i]].userType
    ensures LastBda(f', path) == path[if k < m then m else k]
  {
    assert LastBdaAt(f', path, if k < m then m else k);
    LastBdaUnique(f', path, if k < m then m else k);
  }

  lemma NearestAfterDemote(f: Forest, x: Address)
    requires Shape(f) && Nearest(f) && x in f.users
    ensures Nearest(Demoted(f, x)) <==> !OrphansRoot(f, Demote(x))
  {
    NearestIsAnchored(f);
    AnchoredAfterDemote(f, x);
    ShapeAfterDemote(f, x);
    DemotedFacts(f, x);
    if f.users[x].pathId != [] {
      assert ShapeOf(f, x);
      NearestAfterUserDemote(f, Demoted(f, x), x);
    } else if OrphansRoot(f, Demote(x)) {
      if Nearest(Demoted(f, x)) {
        NearestIsAnchored(Demoted(f, x));
      }
    } else if f.users[x].role == USER {
      NearestAfterRootDemote(f, Demoted(f, x), x);
    }
  }

  lemma NearestAfterRootDemote(f: Forest, f': Forest, x: Address)
    requires Shape(f) && Nearest(f) && Retyped(f, f', x, COMMON) && NobodyPointsTo(f, x)
    requires x in f.users && f.users[x].pathId == []
    requires forall d :: d in f.users && f.users[d].pathId != [] ==> f'.users[d].originator == f.users[d].originator
    ensures Nearest(f')
  {
    forall d | d in f'.users && f'.users[d].pathId != [] ensures NearestAt(f', d) {
      assert NearestAt(f, d);
      RootAbove(f, f', x, d);
    }
  }

  /** A root that is not the last BDA of a path cannot become it by losing its type. */
  lemma RootAbove(f: Forest, f': Forest, x: Address, d: Address)
    requires Shape(f) && Retyped(f, f', x, COMMON) && x in f.users && f.users[x].pathId == []
    requires d in f.users && f.users[d].pathId != [] && Known(f, f.users[d].pathId)
    requires LastBda(f, f.users[d].pathId) != x
    ensures Known(f', f.users[d].pathId) && LastBda(f', f.users[d].pathId) == LastBda(f, f.users[d].pathId)
  {
    var path := f.users[d].pathId;
    var k := LastBdaIsAt(f, path);
    assert LastBdaAt(f', path, k);
    LastBdaUnique(f', path, k);
  }

  lemma NearestAfterUserDemote(f: Forest, f': Forest, x: Address)
    requires Shape(f) && Nearest(f) && Retyped(f, f', x, COMMON)
    requires x in f.users && f.users[x].pathId != []
    requires forall d :: d in f.users && f.users[d].pathId != [] ==>
               f'.users[d].originator ==
               if f.users[d].originator == x then f.users[x].originator else f.users[d].originator
    ensures Nearest(f')
  {
    assert NearestAt(f, x);
    forall d | d in f'.users && f'.users[d].pathId != [] ensures NearestAt(f', d) {
      assert NearestAt(f, d);
      NearestAfterDemoteAt(f, f', x, d);
    }
  }

  lemma NearestAfterDemoteAt(f: Forest, f': Forest, x: Address, d: Address)
    requires Shape(f) && Retyped(f, f', x, COMMON)
    requires x in f.users && f.users[x].pathId != [] && NearestAt(f, x)
    requires d in f.users && f.users[d].pathId != [] && NearestAt(f, d)
    requires f'.users[d].originator ==
             if f.users[d].originator == x then f.users[x].originator else f.users[d].originator
    ensures NearestAt(f', d)
  {
    var path := f.users[d].pathId;
    var k := LastBdaIsAt(f, path);
    PathEntry(f, d, k);
    if path[k] == x {
      LastBdaBelow(f, f', x, path, k);
    } else {
      assert LastBdaAt(f', path, k);
      LastBdaUnique(f', path, k);
    }
  }

  /** Once the last BDA of a path is demoted, the last BDA is that of the path before it. */
  lemma LastBdaBelow(f: Forest, f': Forest, x: Address, path: seq<Address>, k: nat)
    requires Retyped(f, f', x, COMMON) && Known(f, path)
    requires LastBdaAt(f, path, k) && k > 0 && path[k] == x && x !in path[..k]
    ensures LastBda(f', path) == LastBda(f, path[..k])
  {
    var j := LastBdaIsAt(f, path[..k]);
    forall i | j < i < |path| ensures f'.users[path[i]].userType != BDA {
      if i < k {
        assert path[..k][i] == path[i];
      }
    }
    assert path[j] != x by {
      assert path[..k][j] == path[j];
    }
    assert LastBdaAt(f', path, j);
    LastBdaUnique(f', path, j);
  }

  lemma NearestAfterRemove(f: Forest, x: Address)
    requires Shape(f) && Nearest(f) && !RemovesAncestor(f, Remove(x))
    ensures Nearest(Removed(f, x))
  {
    var f' := Removed(f, x);
    forall d | d in f'.users && f'.users[d].pathId != [] ensures NearestAt(f', d) {
      assert NearestAt(f, d);
      LastBdaFrame(f, f', f.users[d].pathId);
    }
  }

  lemma NearestAfterSmallStep(f: Forest, step: Step)
    requires Nearest(f) && (step.Enrol? || step.SetKyc?)
    ensures Nearest(Next(f, step))
  {
    var f' := Next(f, step);
    forall d | d in f'.users && f'.users[d].pathId != [] ensures NearestAt(f', d) {
      assert NearestAt(f, d);
      LastBdaFrame(f, f', f.users[d].pathId);
    }
  }

  lemma NearestStep(f: Forest, step: Step)
    requires Shape(f) && Nearest(f)
    ensures Shape(Next(f, step)) && Nearest(Next(f, step)) <==> !Unanchors(f, step) && !RefersToBda(f, step)
  {
    ShapeStep(f, step);
    match step
    case Register(_, _) => NearestAfterRegister(f, step);
    case Enrol(_, _) => NearestAfterSmallStep(f, step);
    case Remove(x) => if !RemovesAncestor(f, step) { NearestAfterRemove(f, x); }
    case Promote(x) => if x in f.users { NearestAfterPromote(f, x); }
    case Demote(x) => if x in f.users { NearestAfterDemote(f, x); }
    case SetKyc(_, _) => NearestAfterSmallStep(f, step);
  }

  lemma NearestUpTo(states: seq<Forest>, steps: seq<Step>, n: nat)
    requires IsRun(states, steps) && n < |states|
    requires forall i :: 0 <= i < n ==> !Unanchors(states[i], steps[i]) && !RefersToBda(states[i], steps[i])
    ensures Shape(states[n]) && Nearest(states[n])
  {
    if n > 0 {
      NearestUpTo(states, steps, n - 1);
      NearestStep(states[n - 1], steps[n - 1]);
    }
  }

  /**
   Over a whole run, paths are chains of referrers and every originator is the nearest BDA on the path in
   every state exactly when no registration names a non-root BDA as referrer, no root is demoted under
   users that point to it, and no account with descendants is deleted.
   */
  lemma NearestRun(states: seq<Forest>, steps: seq<Step>)
    requires IsRun(states, steps)
    ensures (forall i :: 0 <= i < |states| ==> Shape(states[i]) && Nearest(states[i]))
        <==> (forall i :: 0 <= i < |steps| ==>
                !Unanchors(states[i], steps[i]) && !RefersToBda(states[i], steps[i]))
  {
    if forall i :: 0 <= i < |states| ==> Shape(states[i]) && Nearest(states[i]) {
      forall i | 0 <= i < |steps|
        ensures !Unanchors(states[i], steps[i]) && !RefersToBda(states[i], steps[i])
      {
        NearestStep(states[i], steps[i]);
        assert Shape(states[i + 1]);
      }
    }
    if forall i :: 0 <= i < |steps| ==> !Unanchors(states[i], steps[i]) && !RefersToBda(states[i], steps[i]) {
      forall i | 0 <= i < |states| ensures Shape(states[i]) && Nearest(states[i]) {
        NearestUpTo(states, steps, i);
      }
    }
  }

  // ---------------------------------------------------------------- how it goes wrong

  /** Registering under a BDA: the newcomer inherits the referrer's originator and skips the referrer. */
  lemma BdaReferrerIsSkipped() returns (states: seq<Forest>, steps: seq<Step>)
    ensures IsRun(states, steps)
    ensures steps == [Register(Account(2), ROOT), Promote(Account(2)), Register(Account(3), Account(2))]
    ensures Account(2) in states[3].users && Account(3) in states[3].users
    ensures states[3].users[Account(3)].pathId == [ROOT, Account(2)]
    ensures states[3].users[Account(2)].userType == BDA && states[3].users[Account(3)].originator == ROOT
    ensures !Nearest(states[3])
  {
    steps := [Register(Account(2), ROOT), Promote(Account(2)), Register(Account(3), Account(2))];
    var f0 := LONE_ROOT;
    var f1 := Next(f0, steps[0]);
    var f2 := Next(f1, steps[1]);
    var f3 := Next(f2, steps[2]);
    states := [f0, f1, f2, f3];
    assert f1.users[Account(2)] == User(USER, COMMON, false, ROOT, ROOT, [ROOT], 0.0);
    assert f2.users[Account(2)].userType == BDA && f2.users[Account(2)].originator == ROOT;
    assert f3.users[Account(3)].pathId == [ROOT, Account(2)];
    assert LastBda(f3, [ROOT, Account(2)]) == Account(2);
    assert !NearestAt(f3, Account(3));
  }

  /** Demoting the SYSTEM user once it is a BDA empties the originator of everybody who pointed to it. */
  lemma RootDemotionOrphans() returns (states: seq<Forest>, steps: seq<Step>)
    ensures IsRun(states, steps) && steps == [Register(Account(2), ROOT), Promote(ROOT), Demote(ROOT)]
    ensures ROOT in states[2].users && states[2].users[ROOT].userType == BDA
    ensures Account(2) in states[3].users && states[3].users[Account(2)].originator == Empty
    ensures !Anchored(states[3])
  {
    steps := [Register(Account(2), ROOT), Promote(ROOT), Demote(ROOT)];
    var f1 := Next(LONE_ROOT, steps[0]);
    var f2 := Next(f1, steps[1]);
    var f3 := Next(f2, steps[2]);
    states := [LONE_ROOT, f1, f2, f3];
    assert f1.users[Account(2)] == User(USER, COMMON, false, ROOT, ROOT, [ROOT], 0.0);
    assert f2.users[Account(2)] == f1.users[Account(2)];
    assert !AnchoredAt(f3, Account(2));
  }

  /** The same below an account that a first login created: a root whose role is USER. */
  lemma LoginRootOrphans() returns (states: seq<Forest>, steps: seq<Step>)
    ensures IsRun(states, steps)
    ensures steps ==
            [Enrol(Account(2), USER), Register(Account(3), Account(2)), Promote(Account(2)), Demote(Account(2))]
    ensures Account(3) in states[4].users && states[4].users[Account(3)].originator == Empty
    ensures !Anchored(states[4])
  {
    steps := [Enrol(Account(2), USER), Register(Account(3), Account(2)), Promote(Account(2)), Demote(Account(2))];
    var f0 := Forest(map[], None);
    var f1 := Next(f0, steps[0]);
    var f2 := Next(f1, steps[1]);
    var f3 := Next(f2, steps[2]);
    var f4 := Next(f3, steps[3]);
    states := [f0, f1, f2, f3, f4];
    assert f2.users[Account(3)] == User(USER, COMMON, false, Account(2), Account(2), [Account(2)], 0.0);
    assert f3.users[Account(3)] == f2.users[Account(3)];
    assert !AnchoredAt(f4, Account(3));
  }
}
