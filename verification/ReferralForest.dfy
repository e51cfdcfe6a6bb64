/**
 The users collection seen as a referral forest. Every document carries a materialised
 path (`pathId`, root first, parent last) and an `originator` pointer; registration,
 promotion to BDA and loss of BDA only ever test set membership and equality on them.
 */
module ReferralForest {
  import opened Addresses
  import opened Wrappers

  datatype Role = SUPER_ADMIN | SYSTEM | ADMIN | USER | WORKER

  datatype UserType = COMMON | BDA

  datatype User = User(
    role: Role,
    userType: UserType,
    kycVerified: bool,
    referrer: Address,
    originator: Address,
    pathId: seq<Address>,
    personalVolume: real
  )

  /** `system` is the document that `findOne({ role: SYSTEM })` returns, if there is one. */
  datatype Forest = Forest(users: map<Address, User>, system: Option<Address>)

  datatype RegisterError =
    | AlreadyExists
    | ReferrerUnknown
    | ReferrerIsAdmin
    | ReferrerKycVerified
    | NoSystemUser

  // ---------------------------------------------------------------- transitions

  /** An absent `referrer` is the empty one: both are falsy in the source. */
  function FindReferrer(f: Forest, referrer: Address): Result<Address, RegisterError> {
    if referrer != Empty then
      if referrer !in f.users then Failure(ReferrerUnknown)
      else if f.users[referrer].role == ADMIN then Failure(ReferrerIsAdmin)
      else if f.users[referrer].kycVerified then Failure(ReferrerKycVerified)
      else Success(referrer)
    else if f.system.Some? && f.system.value in f.users then Success(f.system.value)
    else Failure(NoSystemUser)
  }

  function NewUser(f: Forest, address: Address, referrer: Address): Result<User, RegisterError> {
    if address in f.users then Failure(AlreadyExists)
    else
      var parent :- FindReferrer(f, referrer);
      var p := f.users[parent];
      Success(User(USER, COMMON, false, parent,
                   if p.originator != Empty then p.originator else parent,
                   p.pathId + [parent],
                   0.0))
  }

  function Insert(f: Forest, address: Address, user: User): Forest {
    f.(users := f.users[address := user])
  }

  /** What updateUserBecomeBDA's `updateMany` does to one document: a filter and a `$set`. */
  function Redirected(u: User, x: Address, pathIds: seq<Address>): User {
    if x in u.pathId && u.originator in pathIds then u.(originator := x) else u
  }

  /** updateUserBecomeBDA, together with the change of `userType` it belongs to. */
  function Promoted(f: Forest, x: Address): Forest
    requires x in f.users
  {
    var pathIds := if f.users[x].role == SYSTEM then [x] else f.users[x].pathId;
    var users := map a | a in f.users :: Redirected(f.users[a], x, pathIds);
    f.(users := users[x := users[x].(userType := BDA)])
  }

  /** What updateUserInfoAfterLosingBDA's `updateMany` does to one document. */
  function Reassigned(u: User, x: Address, originator: Address): User {
    if u.originator == x && u.role == USER then u.(originator := originator) else u
  }

  /** The two updates of updateUserInfoAfterLosingBDA; both skip users whose role is not USER. */
  function Demoted(f: Forest, x: Address): Forest
    requires x in f.users
  {
    var u := f.users[x];
    var users := if u.role == USER then f.users[x := u.(userType := COMMON, personalVolume := 0.0)] else f.users;
    f.(users := map a | a in users :: Reassigned(users[a], x, u.originator))
  }

  /** `f'` has the users of `f` with the same roles and paths, and the given type at `x`. */
  ghost predicate Retyped(f: Forest, f': Forest, x: Address, userType: UserType) {
    && f'.users.Keys == f.users.Keys
    && forall a :: a in f.users ==>
         && f'.users[a].role == f.users[a].role
         && f'.users[a].pathId == f.users[a].pathId
         && f'.users[a].userType == if a == x then userType else f.users[a].userType
  }

  /** A new document with the defaults of the schema: nobody referred it. */
  function Enrolled(f: Forest, address: Address, role: Role): Forest {
    if address == Empty || address in f.users || role == SYSTEM then f
    else Insert(f, address, User(role, COMMON, false, Empty, Empty, [], 0.0))
  }

  /** `findOneAndDelete`, whatever the role of the account. */
  function Removed(f: Forest, x: Address): Forest {
    f.(users := f.users - {x}, system := if f.system == Some(x) then None else f.system)
  }

  /**
   `Register` is UsersService.update. `Enrol` is AuthService.insertUser at the first login (role USER), the
   account that updateUserAfterTransactionSucceed creates (role USER by default) and createAdmin. `Remove` is
   either of the two deletions of an account in common.service.ts.
   */
  datatype Step =
    | Register(address: Address, referrer: Address)
    | Enrol(address: Address, role: Role)
    | Remove(user: Address)
    | Promote(user: Address)
    | Demote(user: Address)
    | SetKyc(user: Address, verified: bool)

  function Next(f: Forest, step: Step): Forest {
    match step
    case Register(address, referrer) =>
      var r := NewUser(f, address, referrer);
      if r.Success? && address != Empty then Insert(f, address, r.value) else f
    case Enrol(address, role) => Enrolled(f, address, role)
    case Remove(x) => Removed(f, x)
    case Promote(x) => if x in f.users then Promoted(f, x) else f
    case Demote(x) => if x in f.users then Demoted(f, x) else f
    case SetKyc(x, verified) =>
      if x in f.users then Insert(f, x, f.users[x].(kycVerified := verified)) else f
  }

  /** At the start there are only accounts that nobody referred, of any role and type. */
  ghost predicate Init(f: Forest) {
    && (forall a :: a in f.users ==>
          && a != Empty
          && f.users[a].referrer == f.users[a].originator == Empty
          && f.users[a].pathId == [])
    && (f.system.Some? ==> f.system.value in f.users && f.users[f.system.value].role == SYSTEM)
  }

  ghost predicate IsRun(states: seq<Forest>, steps: seq<Step>) {
    && |states| == |steps| + 1
    && Init(states[0])
    && forall i :: 0 <= i < |steps| ==> states[i + 1] == Next(states[i], steps[i])
  }

  const ROOT: Address := Account(1)

  /** A start with the SYSTEM user alone. */
  ghost const LONE_ROOT: Forest :=
    Forest(map[ROOT := User(SYSTEM, COMMON, false, Empty, Empty, [], 0.0)], Some(ROOT))

  // ---------------------------------------------------------------- shape of a reachable forest

  ghost predicate Shape(f: Forest) {
    && (forall a :: a in f.users ==> ShapeOf(f, a))
    && (f.system.Some? ==> f.system.value in f.users && f.users[f.system.value].role == SYSTEM)
  }

  ghost predicate ShapeOf(f: Forest, a: Address)
    requires a in f.users
  {
    var u := f.users[a];
    && a != Empty
    && (u.pathId != [] ==> u.role == USER)
    && (u.pathId == [] ==> u.referrer == u.originator == Empty)
    && (u.pathId != [] ==> u.referrer == u.pathId[|u.pathId| - 1])
    && Empty !in u.pathId
    && forall i :: 0 <= i < |u.pathId| ==> Link(f, u.pathId, i)
  }

  /** Entry `i` of a path is a user whose own path is the part of the path before it. */
  ghost predicate Link(f: Forest, path: seq<Address>, i: int) {
    && 0 <= i < |path|
    && path[i] in f.users
    && f.users[path[i]].pathId == path[..i]
  }

  function Depth(f: Forest, a: Address): nat
    requires a in f.users
  {
    |f.users[a].pathId|
  }

  /** What a successful registration knows about its referrer. */
  lemma NewUserFacts(f: Forest, address: Address, referrer: Address)
    requires Shape(f) && NewUser(f, address, referrer).Success?
    ensures address !in f.users
    ensures var u := NewUser(f, address, referrer).value;
            && u.role == USER
            && u.userType == COMMON
            && u.referrer in f.users
            && u.referrer != Empty
            && u.referrer == (if referrer != Empty then referrer else f.system.value)
            && u.pathId == f.users[u.referrer].pathId + [u.referrer]
            && u.originator == (if f.users[u.referrer].originator != Empty then f.users[u.referrer].originator else u.referrer)
  {
    if referrer == Empty {
      assert ShapeOf(f, f.system.value);
    }
  }

  lemma ShapeAfterRegister(f: Forest, address: Address, referrer: Address)
    requires Shape(f) && NewUser(f, address, referrer).Success? && address != Empty
    ensures Shape(Insert(f, address, NewUser(f, address, referrer).value))
  {
    NewUserFacts(f, address, referrer);
    var u := NewUser(f, address, referrer).value;
    var f' := Insert(f, address, u);
    NewcomerPath(f, f', u.referrer, u.pathId);
    forall a | a in f.users ensures ShapeOf(f', a) {
      assert ShapeOf(f, a);
      ShapeKept(f, f', a);
    }
  }

  /** The path that continues a user's own path by that user is a chain of referrers as well. */
  lemma NewcomerPath(f: Forest, f': Forest, parent: Address, path: seq<Address>)
    requires parent in f.users && ShapeOf(f, parent) && parent != Empty
    requires path == f.users[parent].pathId + [parent]
    requires forall b :: b in f.users ==> b in f'.users && f'.users[b] == f.users[b]
    ensures Empty !in path && forall i :: 0 <= i < |path| ==> Link(f', path, i)
  {
    var above := f.users[parent].pathId;
    forall i | 0 <= i < |path| ensures Link(f', path, i) {
      if i < |above| {
        assert Link(f, above, i);
        assert path[..i] == above[..i];
      } else {
        assert path[..i] == above;
      }
    }
  }

  lemma ShapeKept(f: Forest, f': Forest, a: Address)
    requires a in f.users && ShapeOf(f, a)
    requires forall b :: b in f.users ==> b in f'.users && f'.users[b] == f.users[b]
    ensures ShapeOf(f', a)
  {
    forall i | 0 <= i < |f.users[a].pathId| ensures Link(f', f.users[a].pathId, i) {
      assert Link(f, f.users[a].pathId, i);
    }
  }

  /** A change that touches neither paths, roles nor referrers, nor the originators of roots. */
  lemma ShapeFrame(f: Forest, f': Forest)
    requires Shape(f) && f'.users.Keys == f.users.Keys && f'.system == f.system
    requires forall a :: a in f.users ==>
               && f'.users[a].role == f.users[a].role
               && f'.users[a].pathId == f.users[a].pathId
               && f'.users[a].referrer == f.users[a].referrer
               && (f.users[a].pathId == [] ==> f'.users[a].originator == f.users[a].originator)
    ensures Shape(f')
  {
    forall a | a in f'.users ensures ShapeOf(f', a) {
      assert ShapeOf(f, a);
      forall i | 0 <= i < |f.users[a].pathId| ensures Link(f', f.users[a].pathId, i) {
        assert Link(f, f.users[a].pathId, i);
      }
    }
  }

  /** Deleting an account that is on somebody's path. */
  ghost predicate RemovesAncestor(f: Forest, step: Step) {
    && step.Remove?
    && step.user in f.users
    && exists d :: d in f.users && step.user in f.users[d].pathId
  }

  /** A step keeps the forest in shape exactly when it does not delete an account with descendants. */
  lemma ShapeStep(f: Forest, step: Step)
    requires Shape(f)
    ensures Shape(Next(f, step)) <==> !RemovesAncestor(f, step)
  {
    match step
    case Register(address, referrer) =>
      if NewUser(f, address, referrer).Success? && address != Empty {
        ShapeAfterRegister(f, address, referrer);
      }
    case Enrol(address, role) => ShapeAfterEnrol(f, address, role);
    case Remove(x) => ShapeAfterRemove(f, x);
    case Promote(x) => if x in f.users { ShapeAfterPromote(f, x); }
    case Demote(x) => if x in f.users { ShapeAfterDemote(f, x); }
    case SetKyc(x, verified) => if x in f.users { ShapeAfterKyc(f, x, verified); }
  }

  /** A first login or a new member of staff becomes a root, whatever its role; nobody else changes. */
  lemma EnrolledIsRoot(f: Forest, address: Address, role: Role)
    requires address != Empty && address !in f.users && role != SYSTEM
    ensures var f' := Next(f, Enrol(address, role));
            && f'.users.Keys == f.users.Keys + {address} && f'.system == f.system
            && f'.users[address].role == role && f'.users[address].pathId == []
            && f'.users[address].userType == COMMON && !f'.users[address].kycVerified
            && f'.users[address].referrer == f'.users[address].originator == Empty
            && forall a :: a in f.users ==> f'.users[a] == f.users[a]
  {
  }

  lemma ShapeAfterEnrol(f: Forest, address: Address, role: Role)
    requires Shape(f)
    ensures Shape(Enrolled(f, address, role))
  {
    var f' := Enrolled(f, address, role);
    forall a | a in f.users ensures ShapeOf(f', a) {
      assert ShapeOf(f, a);
      ShapeKept(f, f', a);
    }
  }

  lemma ShapeAfterRemove(f: Forest, x: Address)
    requires Shape(f)
    ensures Shape(Removed(f, x)) <==> !RemovesAncestor(f, Remove(x))
  {
    var f' := Removed(f, x);
    if RemovesAncestor(f, Remove(x)) {
      var d :| d in f.users && x in f.users[d].pathId;
      AncestorGone(f, f', x, d);
    } else if x in f.users {
      forall a | a in f'.users ensures ShapeOf(f', a) {
        assert ShapeOf(f, a);
        forall i | 0 <= i < |f.users[a].pathId| ensures Link(f', f.users[a].pathId, i) {
          assert Link(f, f.users[a].pathId, i);
        }
      }
    } else {
      assert f'.users == f.users;
    }
  }

  lemma AncestorGone(f: Forest, f': Forest, x: Address, d: Address)
    requires Shape(f) && d in f.users && x in f.users[d].pathId
    requires f'.users == f.users - {x}
    ensures !Shape(f')
  {
    var i :| 0 <= i < Depth(f, d) && f.users[d].pathId[i] == x;
    PathEntry(f, d, i);
    assert d != x;
    assert !Link(f', f.users[d].pathId, i);
    assert !ShapeOf(f', d);
  }

  lemma ShapeAfterKyc(f: Forest, x: Address, verified: bool)
    requires Shape(f) && x in f.users
    ensures Shape(Insert(f, x, f.users[x].(kycVerified := verified)))
  {
    ShapeFrame(f, Insert(f, x, f.users[x].(kycVerified := verified)));
  }

  lemma PromotedFacts(f: Forest, x: Address)
    requires x in f.users
    ensures Retyped(f, Promoted(f, x), x, BDA)
    ensures forall d :: d in f.users && x !in f.users[d].pathId ==>
              Promoted(f, x).users[d].originator == f.users[d].originator
    ensures forall d :: d in f.users ==> Promoted(f, x).users[d].referrer == f.users[d].referrer
  {
  }

  /** Promotion makes `x` a BDA, and changes only originators elsewhere, only below `x`, and only to `x`. */
  lemma PromotedAt(f: Forest, x: Address)
    requires x in f.users
    ensures var users := Promoted(f, x).users;
            && users.Keys == f.users.Keys
            && users[x] == f.users[x].(userType := BDA, originator := users[x].originator)
            && (forall a :: a in users && a != x ==> users[a] == f.users[a].(originator := users[a].originator))
            && forall a :: a in users ==>
                 users[a].originator == f.users[a].originator ||
                 (x in users[a].pathId && users[a].originator == x)
  {
  }

  lemma ShapeAfterPromote(f: Forest, x: Address)
    requires Shape(f) && x in f.users
    ensures Shape(Promoted(f, x))
  {
    PromotedFacts(f, x);
    ShapeFrame(f, Promoted(f, x));
  }

  /** Demotion resets `x` when it is a USER, and changes only originators elsewhere, those of USERs that point to `x`. */
  lemma DemotedAt(f: Forest, x: Address)
    requires x in f.users
    ensures var users := Demoted(f, x).users;
            && users.Keys == f.users.Keys
            && (f.users[x].role == USER ==> users[x].userType == COMMON && users[x].personalVolume == 0.0)
            && (forall a :: a in users && a != x ==> users[a] == f.users[a].(originator := users[a].originator))
            && (forall a :: a in users && (f.users[a].role != USER || f.users[a].originator != x) ==>
                  users[a].originator == f.users[a].originator)
    ensures var user := Demoted(f, x).users[x];
            user.role == f.users[x].role && user.pathId == f.users[x].pathId && user.referrer == f.users[x].referrer
  {
  }

  lemma ShapeAfterDemote(f: Forest, x: Address)
    requires Shape(f) && x in f.users
    ensures Shape(Demoted(f, x))
  {
    DemotedAt(f, x);
    assert ShapeOf(f, x);
    forall a | a in f.users && f.users[a].pathId == [] ensures f.users[a].originator != x {
      assert ShapeOf(f, a);
    }
    ShapeFrame(f, Demoted(f, x));
  }

  /** No step of the run deletes an account with descendants. */
  ghost predicate AncestorsStay(states: seq<Forest>, steps: seq<Step>) {
    IsRun(states, steps) && forall i :: 0 <= i < |steps| ==> !RemovesAncestor(states[i], steps[i])
  }

  lemma ShapeUpTo(states: seq<Forest>, steps: seq<Step>, n: nat)
    requires IsRun(states, steps) && n < |states|
    requires forall i :: 0 <= i < n ==> !RemovesAncestor(states[i], steps[i])
    ensures Shape(states[n])
  {
    if n > 0 {
      ShapeUpTo(states, steps, n - 1);
      ShapeStep(states[n - 1], steps[n - 1]);
    }
  }

  /** Over a whole run the forest is in shape in every state exactly when no account with descendants is deleted. */
  lemma ShapeRun(states: seq<Forest>, steps: seq<Step>)
    requires IsRun(states, steps)
    ensures (forall i :: 0 <= i < |states| ==> Shape(states[i])) <==> AncestorsStay(states, steps)
  {
    if forall i :: 0 <= i < |states| ==> Shape(states[i]) {
      forall i | 0 <= i < |steps| ensures !RemovesAncestor(states[i], steps[i]) {
        ShapeStep(states[i], steps[i]);
        assert Shape(states[i + 1]);
      }
    }
    if AncestorsStay(states, steps) {
      forall i | 0 <= i < |states| ensures Shape(states[i]) {
        ShapeUpTo(states, steps, i);
      }
    }
  }

  /** A path never repeats an address and never contains its own user: depth tells entries apart. */
  lemma PathEntry(f: Forest, a: Address, i: nat)
    requires Shape(f) && a in f.users && i < Depth(f, a)
    ensures f.users[a].pathId[i] in f.users
    ensures Depth(f, f.users[a].pathId[i]) == i
    ensures f.users[f.users[a].pathId[i]].pathId == f.users[a].pathId[..i]
    ensures forall j :: 0 <= j < Depth(f, a) && f.users[a].pathId[j] == f.users[a].pathId[i] ==> j == i
    ensures f.users[a].pathId[i] != a
    ensures i == 0 <==> f.users[f.users[a].pathId[i]].pathId == []
  {
    assert ShapeOf(f, a);
    var path := f.users[a].pathId;
    assert Link(f, path, i);
    forall j | 0 <= j < |path| && path[j] == path[i] ensures j == i {
      assert Link(f, path, j);
    }
    assert ShapeOf(f, path[i]);
  }
}
