/** controllers/employeeProfileController.js: the by-id read with its own sensitivity and
    scoping checks, and the create, update and delete handlers on the employee_profiles table. */
module ProfileController {
  import opened Common
  import opened Records
  import opened Tables
  import Mac

  // ---------------------------------------------------------------------------------------
  // getProfileById

  /** 404 when missing; then the controller's own level check (no Admin bypass), the Employee
      self check and the Manager department check, in that order. A Manager without a profile
      of their own makes the handler throw. */
  function GetProfileById(p: Principal, id: Option<int>, rows: seq<Profile>): (r: Outcome<Profile>)
    ensures FindProfile(rows, id).None? ==> r == Failed(NotFound, ProfileNotFound)
    ensures r.Done? ==> FindProfile(rows, id) == Some(r.value)
    ensures r.Done? <==>
      FindProfile(rows, id).Some?
      && Rank(ClearanceOf(p)) >= Rank(LabelOf(FindProfile(rows, id).value.sensitivity))
      && Mac.EmployeeScoped(p, FindProfile(rows, id).value)
      && Mac.ManagerScoped(p, ProfileOfUser(rows, p.id), FindProfile(rows, id).value)
    ensures r == Failed(Forbidden, MacPolicyDenied) <==>
      FindProfile(rows, id).Some? && Rank(ClearanceOf(p)) < Rank(LabelOf(FindProfile(rows, id).value.sensitivity))
  {
    match FindProfile(rows, id)
    case None => Failed(NotFound, ProfileNotFound)
    case Some(t) =>
      if Rank(ClearanceOf(p)) < Rank(LabelOf(t.sensitivity)) then Failed(Forbidden, MacPolicyDenied)
      else if HasRole(p, Employee) && p.id != t.userId then Failed(Forbidden, AccessDenied)
      else if HasRole(p, Manager) then
        match ProfileOfUser(rows, p.id)
        case None => Failed(InternalError, ServerError)
        case Some(own) => if own.departmentId != t.departmentId then Failed(Forbidden, AccessDenied) else Done(t)
      else Done(t)
  }

  /** For a principal without Admin, the handler returns the profile exactly when the MAC gate
      would have let a `view` of it through: the same three conditions, checked again. */
  lemma GetAgreesWithMacView(p: Principal, id: Option<int>, rows: seq<Profile>)
    requires !HasRole(p, Admin)
    ensures GetProfileById(p, id, rows).Done? <==>
      Mac.EnforceMac("view", p, FindProfile(rows, id), ProfileOfUser(rows, p.id)) == Pass
  {
  }

  /** The handler has no Admin bypass: an Admin token without a clearance claim is refused an
      Internal profile that the MAC gate would let it see. */
  lemma AdminHasNoBypass(p: Principal, id: int, rows: seq<Profile>)
    requires HasRole(p, Admin) && p.clearance.None?
    requires FindProfile(rows, Some(id)).Some? && FindProfile(rows, Some(id)).value.sensitivity == Some(Internal)
    ensures Mac.EnforceMac("view", p, FindProfile(rows, Some(id)), ProfileOfUser(rows, p.id)) == Pass
    ensures GetProfileById(p, Some(id), rows) == Failed(Forbidden, MacPolicyDenied)
  {
  }

  /** The two checks run in different orders: a principal holding both Employee and Manager,
      with no profile of their own, reading someone else's profile, gets 403 here but 500 from
      the MAC gate, which asks the Manager question first. */
  lemma CheckOrderDiffersFromMac(p: Principal, id: int, rows: seq<Profile>)
    requires HasRole(p, Employee) && HasRole(p, Manager) && !HasRole(p, Admin)
    requires ProfileOfUser(rows, p.id).None?
    requires FindProfile(rows, Some(id)).Some?
    requires FindProfile(rows, Some(id)).value.sensitivity == Some(Public)
    ensures GetProfileById(p, Some(id), rows) == Failed(Forbidden, AccessDenied)
    ensures Mac.EnforceMac("view", p, FindProfile(rows, Some(id)), ProfileOfUser(rows, p.id)) == Refuse(InternalError, ServerError)
  {
    var t := FindProfile(rows, Some(id)).value;
    assert t in rows;
  }

  /** The read route has no gates, so this is the whole decision: a token without a clearance
      claim reads only Public profiles, and needs no role at all to read one that is its own or,
      holding no role, any Public one. */
  lemma TokenReadsOnlyPublic(p: Principal, id: Option<int>, rows: seq<Profile>)
    requires p.clearance.None?
    ensures GetProfileById(p, id, rows).Done? ==> GetProfileById(p, id, rows).value.sensitivity == Some(Public)
    ensures p.roles == [] && FindProfile(rows, id).Some? && FindProfile(rows, id).value.sensitivity == Some(Public) ==>
      GetProfileById(p, id, rows).Done?
  {
  }

  // ---------------------------------------------------------------------------------------
  // createProfile and updateProfile bodies

  /** The body fields the two handlers read (`user_id` only by create); absent is None. */
  datatype ProfileFields = ProfileFields(
    userId: Option<int>, departmentId: Option<int>, managerId: Option<int>,
    position: Option<string>, level: Option<Level>, salary: Option<int>)

  /** The columns that may not be null. */
  predicate Complete(f: ProfileFields) {
    f.userId.Some? && f.departmentId.Some? && f.position.Some?
  }

  /** The row `EmployeeProfile.create` stores: label defaults to Internal, a falsy salary to null. */
  function NewProfile(id: int, f: ProfileFields): (r: Profile)
    requires Complete(f)
    ensures r.id == id && r.userId == f.userId.value && r.departmentId == f.departmentId.value
    ensures r.sensitivity.Some? && (f.level.Some? ==> r.sensitivity == f.level) && (f.level.None? ==> r.sensitivity == Some(Internal))
    ensures r.salary.Some? <==> TruthyInt(f.salary)
  {
    Profile(id, f.userId.value, f.departmentId.value, f.managerId, f.position.value,
            if TruthyInt(f.salary) then f.salary else None, Some(f.level.GetOr(Internal)))
  }

  /** The foreign keys of employee_profiles (the `belongsTo` declarations in models/index.js):
      `user_id` names a user, `department_id` a department, and `manager_id` is null or names
      a user. */
  predicate KeysResolve(users: seq<UserRecord>, departments: seq<DepartmentRecord>, t: Profile) {
    FindUser(users, Some(t.userId)).Some?
    && FindDepartment(departments, Some(t.departmentId)).Some?
    && (t.managerId.None? || FindUser(users, t.managerId).Some?)
  }

  /** `createProfile`: a non-Admin who sends a label is refused before anything is written; a
      row with a null required column, or with a key naming no row, makes `create` throw and
      the handler answers 500. */
  function CreateProfileOutcome(p: Principal, users: seq<UserRecord>, departments: seq<DepartmentRecord>,
                                f: ProfileFields, id: int): (r: Outcome<Profile>)
    ensures f.level.Some? && !HasRole(p, Admin) ==> r == Failed(Forbidden, LabelAdminOnly)
    ensures r.Done? <==>
      !(f.level.Some? && !HasRole(p, Admin)) && Complete(f) && KeysResolve(users, departments, NewProfile(id, f))
    ensures r.Done? ==> Complete(f) && r.value == NewProfile(id, f)
    ensures r.Done? ==> exists u :: u in users && u.id == r.value.userId
    ensures r.Done? ==> exists d :: d in departments && d.id == r.value.departmentId
    ensures r.Failed? ==> r.status == Forbidden || r == Failed(InternalError, ServerError)
  {
    if f.level.Some? && !HasRole(p, Admin) then Failed(Forbidden, LabelAdminOnly)
    else if !Complete(f) then Failed(InternalError, ServerError)
    else if !KeysResolve(users, departments, NewProfile(id, f)) then Failed(InternalError, ServerError)
    else Done(NewProfile(id, f))
  }

  /** Whatever a non-Admin creates is labelled Internal. */
  lemma NonAdminCreatesInternal(p: Principal, users: seq<UserRecord>, departments: seq<DepartmentRecord>,
                                f: ProfileFields, id: int)
    requires !HasRole(p, Admin)
    ensures CreateProfileOutcome(p, users, departments, f, id).Done? ==>
      CreateProfileOutcome(p, users, departments, f, id).value.sensitivity == Some(Internal)
  {
  }

  /** `updateProfile`'s field assignments: each of department, manager, position and salary is
      overwritten only when the body's value is truthy; the label whenever one is sent. */
  function ApplyPatch(t: Profile, f: ProfileFields): (r: Profile)
    ensures r.id == t.id && r.userId == t.userId
    ensures r.departmentId == (if TruthyInt(f.departmentId) then f.departmentId.value else t.departmentId)
    ensures r.managerId == (if TruthyInt(f.managerId) then f.managerId else t.managerId)
    ensures r.position == (if TruthyStr(f.position) then f.position.value else t.position)
    ensures r.salary == (if TruthyInt(f.salary) then f.salary else t.salary)
    ensures r.sensitivity == (if f.level.Some? then f.level else t.sensitivity)
  {
    t.(departmentId := if TruthyInt(f.departmentId) then f.departmentId.value else t.departmentId,
       managerId := if TruthyInt(f.managerId) then f.managerId else t.managerId,
       position := if TruthyStr(f.position) then f.position.value else t.position,
       salary := if TruthyInt(f.salary) then f.salary else t.salary,
       sensitivity := if f.level.Some? then f.level else t.sensitivity)
  }

  /** Sending the same body twice changes nothing the second time. */
  lemma PatchIdempotent(t: Profile, f: ProfileFields)
    ensures ApplyPatch(ApplyPatch(t, f), f) == ApplyPatch(t, f)
  {
  }

  /** A body of zeros, empty strings and absent fields changes nothing. */
  lemma FalsyPatchIsIdentity(t: Profile, f: ProfileFields)
    requires !TruthyInt(f.departmentId) && !TruthyInt(f.managerId) && !TruthyStr(f.position)
    requires !TruthyInt(f.salary) && f.level.None?
    ensures ApplyPatch(t, f) == t
  {
  }

  /** The keys `save` writes: a truthy `department_id` must name a department and a truthy
      `manager_id` a user; the columns the body leaves alone are not written. */
  predicate PatchKeysResolve(users: seq<UserRecord>, departments: seq<DepartmentRecord>, f: ProfileFields) {
    (TruthyInt(f.departmentId) ==> FindDepartment(departments, f.departmentId).Some?)
    && (TruthyInt(f.managerId) ==> FindUser(users, f.managerId).Some?)
  }

  /** `updateProfile`: 404, then the Employee self check, the Manager department check (a
      Manager without a profile makes it throw), then the label check, which answers before
      `save`; `save` throws on a key naming no row. On success the result is the patched row. */
  function UpdateProfileOutcome(p: Principal, users: seq<UserRecord>, departments: seq<DepartmentRecord>,
                                rows: seq<Profile>, id: Option<int>, f: ProfileFields): (r: Outcome<Profile>)
    ensures FindProfile(rows, id).None? ==> r == Failed(NotFound, ProfileNotFound)
    ensures r.Done? <==>
      FindProfile(rows, id).Some?
      && Mac.EmployeeScoped(p, FindProfile(rows, id).value)
      && Mac.ManagerScoped(p, ProfileOfUser(rows, p.id), FindProfile(rows, id).value)
      && (f.level.Some? ==> HasRole(p, Admin))
      && PatchKeysResolve(users, departments, f)
    ensures r.Done? ==> r.value == ApplyPatch(FindProfile(rows, id).value, f)
    ensures FindProfile(rows, id).Some? && r.Failed? && r.status != Forbidden ==> r == Failed(InternalError, ServerError)
  {
    match FindProfile(rows, id)
    case None => Failed(NotFound, ProfileNotFound)
    case Some(t) =>
      if HasRole(p, Employee) && p.id != t.userId then Failed(Forbidden, AccessDenied)
      else if HasRole(p, Manager) && ProfileOfUser(rows, p.id).None? then Failed(InternalError, ServerError)
      else if HasRole(p, Manager) && ProfileOfUser(rows, p.id).value.departmentId != t.departmentId then
        Failed(Forbidden, AccessDenied)
      else if f.level.Some? && !HasRole(p, Admin) then Failed(Forbidden, LabelAdminOnly)
      else if !PatchKeysResolve(users, departments, f) then Failed(InternalError, ServerError)
      else Done(ApplyPatch(t, f))
  }

  /** A row whose keys resolve still has resolving keys after a successful update. */
  lemma UpdateKeepsKeys(p: Principal, users: seq<UserRecord>, departments: seq<DepartmentRecord>,
                        rows: seq<Profile>, id: Option<int>, f: ProfileFields)
    requires FindProfile(rows, id).Some? && KeysResolve(users, departments, FindProfile(rows, id).value)
    ensures UpdateProfileOutcome(p, users, departments, rows, id, f).Done? ==>
      KeysResolve(users, departments, UpdateProfileOutcome(p, users, departments, rows, id, f).value)
  {
  }

  /** No principal without Admin can move a profile's label through this handler. */
  lemma NonAdminCannotRelabel(p: Principal, users: seq<UserRecord>, departments: seq<DepartmentRecord>,
                              rows: seq<Profile>, id: Option<int>, f: ProfileFields)
    requires !HasRole(p, Admin)
    ensures UpdateProfileOutcome(p, users, departments, rows, id, f).Done? ==>
      UpdateProfileOutcome(p, users, departments, rows, id, f).value.sensitivity == FindProfile(rows, id).value.sensitivity
  {
  }

  // ---------------------------------------------------------------------------------------
  // deleteProfile

  /** `deleteProfile`: the Admin check comes before the lookup. */
  function DeleteProfileOutcome(p: Principal, rows: seq<Profile>, id: Option<int>): (r: Outcome<Profile>)
    ensures !HasRole(p, Admin) ==> r == Failed(Forbidden, AdminOnly)
    ensures HasRole(p, Admin) && FindProfile(rows, id).None? ==> r == Failed(NotFound, ProfileNotFound)
    ensures r.Done? <==> HasRole(p, Admin) && FindProfile(rows, id).Some?
    ensures r.Done? ==> Some(r.value) == FindProfile(rows, id)
  {
    if !HasRole(p, Admin) then Failed(Forbidden, AdminOnly)
    else
      match FindProfile(rows, id)
      case None => Failed(NotFound, ProfileNotFound)
      case Some(t) => Done(t)
  }

  /** Primary keys are unique. */
  predicate UniqueIds(rows: seq<Profile>) {
    forall i, j :: 0 <= i < j < |rows| ==> rows[i].id != rows[j].id
  }

  /** Once the row is destroyed, its key finds nothing, and every other row is still there. */
  lemma DeletedProfileGone(rows: seq<Profile>, i: nat)
    requires i < |rows| && UniqueIds(rows)
    ensures FindProfile(RemoveAt(rows, i), Some(rows[i].id)).None?
    ensures forall x :: x in rows && x.id != rows[i].id ==> x in RemoveAt(rows, i)
    ensures UniqueIds(RemoveAt(rows, i))
  {
    var key := (x: Profile) => x.id;
    assert UniqueKeys(rows, key);
    RemovedKeyGone(rows, i, key);
    OtherKeysKept(rows, i, key);
    RemoveKeepsUnique(rows, i, key);
  }

  // ---------------------------------------------------------------------------------------
  // The table the handlers write

  /** employee_profiles, with its auto-increment counter. */
  class ProfileTable {
    var rows: seq<Profile>
    var nextId: int

    ghost predicate Valid()
      reads this
    {
      UniqueIds(rows) && forall x :: x in rows ==> x.id < nextId
    }

    constructor ()
      ensures Valid() && rows == [] && nextId == 1
    {
      rows := [];
      nextId := 1;
    }

    method Create(p: Principal, users: seq<UserRecord>, departments: seq<DepartmentRecord>, f: ProfileFields)
      returns (r: Outcome<Profile>)
      requires Valid()
      modifies this
      ensures Valid()
      ensures r == CreateProfileOutcome(p, users, departments, f, old(nextId))
      ensures rows == (if r.Done? then old(rows) + [r.value] else old(rows))
      ensures r.Done? ==> FindProfile(rows, Some(r.value.id)) == Some(r.value)
    {
      r := CreateProfileOutcome(p, users, departments, f, nextId);
      if r.Done? {
        assert forall x :: x in rows ==> x.id != r.value.id;
        FirstIndexSkip(rows, [r.value], (x: Profile) => x.id == r.value.id);
        rows := rows + [r.value];
        nextId := nextId + 1;
      }
    }

    method Update(p: Principal, users: seq<UserRecord>, departments: seq<DepartmentRecord>,
                  id: Option<int>, f: ProfileFields) returns (r: Outcome<Profile>)
      requires Valid()
      modifies this
      ensures Valid() && nextId == old(nextId)
      ensures r == UpdateProfileOutcome(p, users, departments, old(rows), id, f)
      ensures r.Failed? ==> rows == old(rows)
      ensures r.Done? ==>
        |rows| == |old(rows)|
        && (forall j :: 0 <= j < |rows| ==> rows[j] == (if old(rows)[j].id == id.value then r.value else old(rows)[j]))
    {
      r := UpdateProfileOutcome(p, users, departments, rows, id, f);
      if r.Done? {
        var i := FirstIndex(rows, (x: Profile) => x.id == id.value).value;
        forall j | 0 <= j < |rows| && j != i ensures rows[j].id != id.value {
          if j < i {
          } else {
            assert rows[j].id != rows[i].id;
          }
        }
        rows := rows[i := r.value];
      }
    }

    method Delete(p: Principal, id: Option<int>) returns (r: Outcome<Profile>)
      requires Valid()
      modifies this
      ensures Valid() && nextId == old(nextId)
      ensures r == DeleteProfileOutcome(p, old(rows), id)
      ensures r.Failed? ==> rows == old(rows)
      ensures r.Done? ==> |rows| == |old(rows)| - 1 && FindProfile(rows, id).None?
      ensures r.Done? ==> forall x :: x in old(rows) && x.id != id.value ==> x in rows
    {
      r := DeleteProfileOutcome(p, rows, id);
      if r.Done? {
        var i := FirstIndex(rows, (x: Profile) => x.id == id.value).value;
        DeletedProfileGone(rows, i);
        rows := RemoveAt(rows, i);
      }
    }
  }
}
