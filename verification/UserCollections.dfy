/** The `users` collection and the operations of the services that change its referral forest. */
module UserCollections {
  import opened Addresses
  import opened Originators
  import opened ReferralForest
  import opened Wrappers

  /**
   The `users` collection, with the operations that insert and delete accounts or write originators
   and types.
   */
  class UserCollection {
    var users: map<Address, User>
    var system: Option<Address>

    ghost function Snapshot(): Forest
      reads this
    {
      Forest(users, system)
    }

    constructor (users: map<Address, User>, system: Option<Address>)
      ensures Snapshot() == Forest(users, system)
    {
      this.users := users;
      this.system := system;
    }

    /** UsersService.update: the registration of `address`, which the token of the caller names, under `referrer`. */
    method Update(address: Address, referrer: Address) returns (r: Result<User, RegisterError>)
      requires address != Empty
      modifies this
      ensures r == NewUser(old(Snapshot()), address, referrer)
      ensures r.Success? <==>
              && address !in old(users)
              && (if referrer != Empty
                  then referrer in old(users) && old(users)[referrer].role != ADMIN && !old(users)[referrer].kycVerified
                  else system.Some? && system.value in old(users))
      ensures r.Failure? ==>
                && Snapshot() == old(Snapshot())
                && (r.error == AlreadyExists <==> address in old(users))
                && (r.error == ReferrerUnknown ==> referrer != Empty && referrer !in users)
                && (r.error == ReferrerIsAdmin ==> referrer in users && users[referrer].role == ADMIN)
                && (r.error == ReferrerKycVerified ==> referrer in users && users[referrer].role != ADMIN)
                && (r.error == NoSystemUser ==> referrer == Empty)
      ensures r.Success? ==>
                var parent := if referrer != Empty then referrer else system.value;
                && users == old(users)[address := r.value] && system == old(system)
                && r.value.role == USER && r.value.userType == COMMON && !r.value.kycVerified
                && r.value.personalVolume == 0.0
                && r.value.referrer == parent
                && r.value.pathId == old(users)[parent].pathId + [parent]
                && r.value.originator in {parent, old(users)[parent].originator}
                && (r.value.originator == parent <==> old(users)[parent].originator in {Empty, parent})
      ensures Snapshot() == Next(old(Snapshot()), Register(address, referrer))
      ensures old(Shape(Snapshot())) ==> Shape(Snapshot())
      ensures old(Shape(Snapshot()) && Nearest(Snapshot())) ==>
                (Nearest(Snapshot()) <==> !RefersToBda(old(Snapshot()), Register(address, referrer)))
    {
      ghost var f := Snapshot();
      if Shape(f) {
        ShapeStep(f, Register(address, referrer));
        if Nearest(f) {
          NearestStep(f, Register(address, referrer));
        }
      }
      if address in users {
        return Failure(AlreadyExists);
      }
      var parent := Empty;
      if referrer != Empty {
        if referrer !in users {
          return Failure(ReferrerUnknown);
        }
        parent := referrer;
        if users[parent].role == ADMIN {
          return Failure(ReferrerIsAdmin);
        }
        if users[parent].kycVerified {
          return Failure(ReferrerKycVerified);
        }
      } else {
        if system.None? || system.value !in users {
          return Failure(NoSystemUser);
        }
        parent := system.value;
      }
      var referrerInfo := users[parent];
      var originator := referrerInfo.originator;
      if originator == Empty {
        originator := parent;
      }
      var user := User(USER, COMMON, false, parent, originator, referrerInfo.pathId + [parent], 0.0);
      users := users[address := user];
      return Success(user);
    }

    /** The first login of an address, which its signature shows not to be empty: AuthService.insertUser. */
    method InsertUser(address: Address) returns (inserted: bool)
      requires address != Empty
      modifies this
      ensures inserted <==> address !in old(users)
      ensures !inserted ==> users == old(users)
      ensures inserted ==> users == old(users)[address := User(USER, COMMON, false, Empty, Empty, [], 0.0)]
      ensures Snapshot() == Next(old(Snapshot()), Enrol(address, USER))
      ensures old(Shape(Snapshot())) ==> Shape(Snapshot())
      ensures old(Shape(Snapshot()) && Nearest(Snapshot())) ==> Nearest(Snapshot())
    {
      ghost var f := Snapshot();
      if Shape(f) {
        ShapeStep(f, Enrol(address, USER));
        if Nearest(f) {
          NearestStep(f, Enrol(address, USER));
        }
      }
      inserted := address !in users;
      if inserted {
        users := users[address := User(USER, COMMON, false, Empty, Empty, [], 0.0)];
      }
    }

    /** The deletion that completing an ADMIN_DELETE transaction makes; its filter on `type` is dropped. */
    method DeleteAccount(address: Address)
      modifies this
      ensures users == old(users) - {address}
      ensures system == if old(system) == Some(address) then None else old(system)
      ensures Snapshot() == Next(old(Snapshot()), Remove(address))
      ensures old(Shape(Snapshot())) ==> (Shape(Snapshot()) <==> !RemovesAncestor(old(Snapshot()), Remove(address)))
    {
      ghost var f := Snapshot();
      if Shape(f) {
        ShapeStep(f, Remove(address));
      }
      users := users - {address};
      if system == Some(address) {
        system := None;
      }
    }

    /** The write to the KYC status in verifyKyc and submitKyc; false stands for the missing user error. */
    method SetKycStatus(address: Address, verified: bool) returns (found: bool)
      modifies this
      ensures found <==> address in old(users)
      ensures Snapshot() == Next(old(Snapshot()), SetKyc(address, verified))
      ensures users == if found then old(users)[address := old(users)[address].(kycVerified := verified)] else old(users)
      ensures old(Shape(Snapshot())) ==> Shape(Snapshot())
    {
      ghost var f := Snapshot();
      if Shape(f) {
        ShapeStep(f, SetKyc(address, verified));
      }
      found := address in users;
      if found {
        users := users[address := users[address].(kycVerified := verified)];
      }
    }

    /** CommonService.updateUserBecomeBDA, with the `userType` change it belongs to. */
    method UpdateUserBecomeBDA(address: Address)
      requires address in users
      modifies this
      ensures Snapshot() == Promoted(old(Snapshot()), address)
      ensures users.Keys == old(users).Keys && system == old(system)
      ensures users[address] == old(users)[address].(userType := BDA, originator := users[address].originator)
      ensures forall a :: a in users && a != address ==>
                users[a] == old(users)[a].(originator := users[a].originator)
      ensures forall a :: a in users ==>
                users[a].originator == old(users)[a].originator ||
                (address in users[a].pathId && users[a].originator == address)
      ensures old(Shape(Snapshot()) && Anchored(Snapshot())) ==>
                && Anchored(Snapshot())
                && KeepsDeeper(old(Snapshot()), Snapshot(), address)
    {
      ghost var f := Snapshot();
      var user := users[address];
      var pathIds := [];
      if user.role == SYSTEM {
        pathIds := pathIds + [address];
      } else {
        pathIds := user.pathId;
      }
      assert pathIds == if user.role == SYSTEM then [address] else user.pathId;
      users := map a | a in users :: Redirected(users[a], address, pathIds);
      users := users[address := users[address].(userType := BDA)];
      assert users == Promoted(f, address).users;
      PromotedAt(f, address);
      PromotionKeepsDeeperEverywhere(f, address);
    }

    /** CommonService.updateUserInfoAfterLosingBDA. */
    method UpdateUserInfoAfterLosingBDA(address: Address)
      requires address in users
      modifies this
      ensures Snapshot() == Demoted(old(Snapshot()), address)
      ensures users.Keys == old(users).Keys && system == old(system)
      ensures forall a :: a in users ==>
                users[a].originator ==
                if old(users)[a].originator == address && old(users)[a].role == USER
                then old(users)[address].originator else old(users)[a].originator
      ensures users[address] ==
              if old(users)[address].role == USER
              then old(users)[address].(userType := COMMON, personalVolume := 0.0, originator := users[address].originator)
              else old(users)[address]
      ensures old(users)[address].role == USER ==>
                users[address].userType == COMMON && users[address].personalVolume == 0.0
      ensures forall a :: a in users && a != address ==>
                users[a] == old(users)[a].(originator := users[a].originator)
      ensures old(Shape(Snapshot()) && Anchored(Snapshot())) ==>
                && NobodyPointsTo(Snapshot(), address)
                && (Anchored(Snapshot()) <==> !OrphansRoot(old(Snapshot()), Demote(address)))
    {
      ghost var f := Snapshot();
      var transporter := users[address];
      if transporter.role == USER {
        users := users[address := transporter.(userType := COMMON, personalVolume := 0.0)];
      }
      users := map a | a in users :: Reassigned(users[a], address, transporter.originator);
      assert users == Demoted(f, address).users;
      DemotedAt(f, address);
      AnchoredAfterDemoteEverywhere(f, address);
    }
  }
}
