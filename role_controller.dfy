/** controllers/roleController.js: an Admin adds a role to a user's role set or takes it out,
    and the role set of one user (or of every user) is read back. The `user_roles` join table
    is a set of (user, role) pairs: `addRole` on a pair already present adds nothing. */
module RoleController {
  import opened Common
  import opened Records
  import opened Tables

  /** One row of `user_roles`. */
  datatype Assignment = Assignment(userId: int, roleId: int)

  /** The request body of `assignRole` and `removeRole`; absent fields are None. */
  datatype RoleBody = RoleBody(userId: Option<int>, roleId: Option<int>)

  /** The ids of the roles a user holds. */
  function RolesOf(held: set<Assignment>, userId: int): (r: set<int>)
    ensures forall k :: k in r <==> Assignment(userId, k) in held
  {
    set a | a in held && a.userId == userId :: a.roleId
  }

  // ---------------------------------------------------------------------------------------
  // assignRole / removeRole

  /** The checks both handlers make before touching the join table: the Admin role before any
      lookup, then 404 when the user or the role does not exist. On success, the pair to add
      or remove. */
  function TargetOutcome(p: Principal, users: seq<UserRecord>, roles: seq<RoleRecord>, body: RoleBody): (r: Outcome<Assignment>)
    ensures !HasRole(p, Admin) ==> r == Failed(Forbidden, AdminOnly)
    ensures HasRole(p, Admin) && (FindUser(users, body.userId).None? || FindRole(roles, body.roleId).None?) ==>
      r == Failed(NotFound, UserOrRoleNotFound)
    ensures r.Done? <==> HasRole(p, Admin) && FindUser(users, body.userId).Some? && FindRole(roles, body.roleId).Some?
    ensures r.Done? ==>
      && (exists u :: u in users && u.id == r.value.userId)
      && (exists k :: k in roles && k.id == r.value.roleId)
      && body == RoleBody(Some(r.value.userId), Some(r.value.roleId))
  {
    if !HasRole(p, Admin) then Failed(Forbidden, AdminOnly)
    else if FindUser(users, body.userId).None? || FindRole(roles, body.roleId).None? then Failed(NotFound, UserOrRoleNotFound)
    else
      var u := FindUser(users, body.userId).value;
      var k := FindRole(roles, body.roleId).value;
      Done(Assignment(u.id, k.id))
  }

  /** `user.addRole(role)` grants exactly that role to exactly that user. */
  lemma AssignGrantsRole(held: set<Assignment>, a: Assignment, userId: int)
    ensures userId == a.userId ==> RolesOf(held + {a}, userId) == RolesOf(held, userId) + {a.roleId}
    ensures userId != a.userId ==> RolesOf(held + {a}, userId) == RolesOf(held, userId)
  {
    var after := RolesOf(held + {a}, userId);
    var before := RolesOf(held, userId);
    if userId == a.userId {
      assert forall k :: k in after <==> k in before || k == a.roleId;
    } else {
      assert forall k :: k in after <==> k in before;
    }
  }

  /** `user.removeRole(role)` takes exactly that role from exactly that user. */
  lemma RemoveDropsRole(held: set<Assignment>, a: Assignment, userId: int)
    ensures userId == a.userId ==> RolesOf(held - {a}, userId) == RolesOf(held, userId) - {a.roleId}
    ensures userId != a.userId ==> RolesOf(held - {a}, userId) == RolesOf(held, userId)
  {
    var after := RolesOf(held - {a}, userId);
    var before := RolesOf(held, userId);
    if userId == a.userId {
      assert forall k :: k in after <==> k in before && k != a.roleId;
    } else {
      assert forall k :: k in after <==> k in before;
    }
  }

  /** Assigning twice is the same as assigning once, and removing a role the user just received
      (and did not hold before) restores the previous role set. */
  lemma AssignRemoveRoundTrip(held: set<Assignment>, a: Assignment)
    ensures RolesOf(held + {a} + {a}, a.userId) == RolesOf(held + {a}, a.userId)
    ensures a.roleId !in RolesOf(held, a.userId) ==>
      RolesOf(held + {a} - {a}, a.userId) == RolesOf(held, a.userId)
  {
    AssignGrantsRole(held, a, a.userId);
    AssignGrantsRole(held + {a}, a, a.userId);
    RemoveDropsRole(held + {a}, a, a.userId);
  }

  // ---------------------------------------------------------------------------------------
  // getUserRoles / getUsersWithRoles

  /** The `roles` include: the role rows whose ids the user holds, in table order. */
  function RoleRows(roles: seq<RoleRecord>, held: set<Assignment>, userId: int): (r: seq<RoleRecord>)
    ensures forall k :: k in r <==> k in roles && k.id in RolesOf(held, userId)
  {
    Filter(roles, (k: RoleRecord) => Assignment(userId, k.id) in held)
  }

  /** `getUserRoles`: 404 for an unknown user, otherwise the user's roles. */
  function GetUserRoles(users: seq<UserRecord>, roles: seq<RoleRecord>, held: set<Assignment>, userId: Option<int>): (r: Outcome<seq<RoleRecord>>)
    ensures r.Failed? <==> FindUser(users, userId).None?
    ensures r.Failed? ==> r == Failed(NotFound, UserNotFound)
    ensures r.Done? ==> forall k :: k in r.value <==> k in roles && Assignment(userId.value, k.id) in held
  {
    match FindUser(users, userId)
    case None => Failed(NotFound, UserNotFound)
    case Some(u) => Done(RoleRows(roles, held, u.id))
  }

  /** After a successful `assignRole` the role is listed for the user; after `removeRole` no
      role row with that id is. */
  lemma ReadBackAfterChange(users: seq<UserRecord>, roles: seq<RoleRecord>, held: set<Assignment>,
                            p: Principal, body: RoleBody)
    requires TargetOutcome(p, users, roles, body).Done?
    ensures var a := TargetOutcome(p, users, roles, body).value;
      && GetUserRoles(users, roles, held + {a}, body.userId).Done?
      && FindRole(roles, body.roleId).value in GetUserRoles(users, roles, held + {a}, body.userId).value
      && GetUserRoles(users, roles, held - {a}, body.userId).Done?
      && forall k :: k in GetUserRoles(users, roles, held - {a}, body.userId).value ==> k.id != a.roleId
  {
  }

  /** `getUsersWithRoles`: every user with their roles, in user table order. */
  function UsersWithRoles(users: seq<UserRecord>, roles: seq<RoleRecord>, held: set<Assignment>): (r: seq<(UserRecord, seq<RoleRecord>)>)
    ensures |r| == |users|
    ensures forall i :: 0 <= i < |r| ==> r[i].0 == users[i]
    ensures forall i :: 0 <= i < |r| ==>
      forall k :: k in r[i].1 <==> k in roles && Assignment(users[i].id, k.id) in held
  {
    if users == [] then []
    else [(users[0], RoleRows(roles, held, users[0].id))] + UsersWithRoles(users[1..], roles, held)
  }

  /** The full listing agrees with `getUserRoles` on every user it shows. */
  lemma {:induction false} ListingAgreesWithLookup(users: seq<UserRecord>, roles: seq<RoleRecord>, held: set<Assignment>, i: nat)
    requires i < |users|
    ensures GetUserRoles(users, roles, held, Some(users[i].id)) == Done(UsersWithRoles(users, roles, held)[i].1)
  {
    var u := FindUser(users, Some(users[i].id)).value;
    assert u.id == users[i].id;
    UsersWithRolesAt(users, roles, held, i);
  }

  lemma {:induction false} UsersWithRolesAt(users: seq<UserRecord>, roles: seq<RoleRecord>, held: set<Assignment>, i: nat)
    requires i < |users|
    ensures UsersWithRoles(users, roles, held)[i].1 == RoleRows(roles, held, users[i].id)
  {
    if i > 0 {
      UsersWithRolesAt(users[1..], roles, held, i - 1);
    }
  }

  // ---------------------------------------------------------------------------------------
  // The handlers on the tables

  /** The `users`, `roles` and `user_roles` tables; only the join table changes here. */
  class RoleStore {
    var users: seq<UserRecord>
    var roles: seq<RoleRecord>
    var held: set<Assignment>

    constructor (users: seq<UserRecord>, roles: seq<RoleRecord>)
      ensures this.users == users && this.roles == roles && held == {}
    {
      this.users := users;
      this.roles := roles;
      held := {};
    }

    /** `assignRole`: on success the pair is in the join table and no other pair changed. */
    method Assign(p: Principal, body: RoleBody) returns (r: Outcome<Assignment>)
      modifies this
      ensures users == old(users) && roles == old(roles)
      ensures r == TargetOutcome(p, users, roles, body)
      ensures held == if r.Done? then old(held) + {r.value} else old(held)
      ensures r.Done? ==> RolesOf(held, r.value.userId) == RolesOf(old(held), r.value.userId) + {r.value.roleId}
    {
      r := TargetOutcome(p, users, roles, body);
      if r.Done? {
        AssignGrantsRole(held, r.value, r.value.userId);
        held := held + {r.value};
      }
    }

    /** `removeRole`: on success the pair is gone from the join table and no other pair changed. */
    method Remove(p: Principal, body: RoleBody) returns (r: Outcome<Assignment>)
      modifies this
      ensures users == old(users) && roles == old(roles)
      ensures r == TargetOutcome(p, users, roles, body)
      ensures held == if r.Done? then old(held) - {r.value} else old(held)
      ensures r.Done? ==> RolesOf(held, r.value.userId) == RolesOf(old(held), r.value.userId) - {r.value.roleId}
    {
      r := TargetOutcome(p, users, roles, body);
      if r.Done? {
        RemoveDropsRole(held, r.value, r.value.userId);
        held := held - {r.value};
      }
    }
  }
}
