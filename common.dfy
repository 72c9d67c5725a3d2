/** Shared vocabulary of the HR backend's access-control model: optional values, sensitivity
    levels and their ranks, the authenticated principal, gate verdicts and controller outcomes,
    and first-match search over a table held as a sequence of rows. */
module Common {

  datatype Option<T> = None | Some(value: T) {
    /** The value, or `default` when absent (JavaScript's `x || default` on a present/absent field). */
    function GetOr(default: T): T {
      if Some? then value else default
    }
  }

  // ---------------------------------------------------------------------------------------
  // Verdicts

  /** Why a gate or a controller refused a request (the human-readable message of the source). */
  datatype Reason =
    // RBAC
    | InsufficientRole
    // MAC
    | ResourceNotFound | ReadUp | WriteDown | ManagerDepartment | EmployeeSelf | LabelChangeBlocked
    // DAC
    | DocumentNotFound | NoPermission | ActionNotPermitted
    // RuBAC
    | OutsideHours | RoleNotAllowed | DeviceNotAllowed | IpNotAllowed | CountryNotAllowed
    | LeaveNotFound | LeaveTooLong
    // ABAC
    | UnknownResourceType | ProfileNotFound | UserNotFound | DepartmentNotFound | RoleNotFound
    | SensitivityDenied | EmployeeOtherDepartment
    // controllers
    | AccessDenied | MacPolicyDenied | AdminOnly | LabelAdminOnly | NoFile | NotOwner
    | SalaryNotFound | RequestNotFound | AlreadyProcessed | UserOrRoleNotFound
    // an exception caught by the handler's try/catch
    | ServerError

  const BadRequest: nat := 400
  const Forbidden: nat := 403
  const NotFound: nat := 404
  const InternalError: nat := 500

  /** The result of one middleware: `next()` (Pass) or an early response (Refuse). */
  datatype Verdict = Pass | Refuse(status: nat, reason: Reason)

  /** The result of a controller: a success body, or an error response. */
  datatype Outcome<T> = Done(value: T) | Failed(status: nat, reason: Reason)

  // ---------------------------------------------------------------------------------------
  // Sensitivity levels

  /** The three labels the schemas allow (models/User.js, models/EmployeeProfile.js). */
  datatype Level = Public | Internal | Confidential

  /** The `levels` table: Public 1, Internal 2, Confidential 3. */
  function Rank(l: Level): (r: nat)
    ensures 1 <= r <= 3
    ensures r == 1 <==> l == Public
    ensures r == 3 <==> l == Confidential
  {
    match l
    case Public => 1
    case Internal => 2
    case Confidential => 3
  }

  // ---------------------------------------------------------------------------------------
  // The principal

  /** One element of `req.user.roles`: a plain name, or a `{ name }` object. */
  datatype RoleEntry = RoleName(name: string) | RoleObject(name: string)

  /** `req.user`: the id, the role list, the optional clearance `sensitivityLevel`, and the
      optional `profile.department_id` that ABAC reads. */
  datatype Principal = Principal(id: int, roles: seq<RoleEntry>, clearance: Option<Level>, profileDept: Option<int>)

  const Admin: string := "Admin"
  const Manager: string := "Manager"
  const Employee: string := "Employee"

  /** `user.roles.includes(role)`: only a plain string entry equals a role name. */
  predicate HasRole(p: Principal, role: string) {
    RoleName(role) in p.roles
  }

  /** A role entry in object form never counts: adding `{ name: role }` to the list changes
      nothing, while adding the plain name grants the role. */
  lemma ObjectFormIgnored(p: Principal, role: string)
    ensures HasRole(p.(roles := p.roles + [RoleObject(role)]), role) == HasRole(p, role)
    ensures HasRole(p.(roles := p.roles + [RoleName(role)]), role)
  {
    var q := p.(roles := p.roles + [RoleObject(role)]);
    assert HasRole(q, role) ==> HasRole(p, role) by {
      if HasRole(q, role) {
        var i :| 0 <= i < |q.roles| && q.roles[i] == RoleName(role);
        assert i < |p.roles|;
      }
    }
    assert HasRole(p, role) ==> HasRole(q, role) by {
      if HasRole(p, role) {
        var i :| 0 <= i < |p.roles| && p.roles[i] == RoleName(role);
        assert q.roles[i] == RoleName(role);
      }
    }
    var r := p.(roles := p.roles + [RoleName(role)]);
    assert r.roles[|p.roles|] == RoleName(role);
  }

  /** `user.sensitivityLevel || 'Public'`: a principal without a clearance has the lowest one. */
  function ClearanceOf(p: Principal): (l: Level)
    ensures p.clearance.Some? ==> l == p.clearance.value
    ensures p.clearance.None? ==> Rank(l) == 1
  {
    p.clearance.GetOr(Public)
  }

  /** `resource.sensitivityLevel || 'Internal'`: a resource without a label sits in the middle. */
  function LabelOf(tag: Option<Level>): (l: Level)
    ensures tag.Some? ==> l == tag.value
    ensures tag.None? ==> Rank(Public) < Rank(l) < Rank(Confidential)
  {
    tag.GetOr(Internal)
  }

  /** `list.includes(user.roles[0])`: the first role only, and only when it is a plain name. */
  predicate PrimaryRoleIn(p: Principal, list: seq<string>) {
    |p.roles| > 0 && p.roles[0].RoleName? && p.roles[0].name in list
  }

  /** Only the first role is read: roles after it change nothing, and a principal with no role
      is never in the list. */
  lemma LaterRolesIgnored(p: Principal, list: seq<string>, later: seq<RoleEntry>)
    ensures |p.roles| > 0 ==> PrimaryRoleIn(p.(roles := p.roles + later), list) == PrimaryRoleIn(p, list)
    ensures p.roles == [] ==> !PrimaryRoleIn(p, list)
    ensures PrimaryRoleIn(p, list) ==> exists role :: role in list && HasRole(p, role)
  {
    if |p.roles| > 0 {
      assert (p.roles + later)[0] == p.roles[0];
    }
    if PrimaryRoleIn(p, list) {
      assert p.roles[0] == RoleName(p.roles[0].name);
      assert HasRole(p, p.roles[0].name);
    }
  }

  // ---------------------------------------------------------------------------------------
  // JavaScript truthiness of optional body fields: absent, 0 and "" are all falsy

  predicate TruthyInt(o: Option<int>) {
    o.Some? && o.value != 0
  }

  predicate TruthyStr(o: Option<string>) {
    o.Some? && o.value != ""
  }

  // ---------------------------------------------------------------------------------------
  // First-match search (`findOne`, `findByPk`, `array[0]` of a filtered include)

  /** Index of the first row satisfying `matches`. */
  function FirstIndex<T>(rows: seq<T>, matches: T -> bool): (r: Option<nat>)
    ensures r.Some? ==> r.value < |rows| && matches(rows[r.value])
    ensures r.Some? ==> forall j :: 0 <= j < r.value ==> !matches(rows[j])
    ensures r.None? ==> forall j :: 0 <= j < |rows| ==> !matches(rows[j])
  {
    if |rows| == 0 then None
    else if matches(rows[0]) then Some(0)
    else
      match FirstIndex(rows[1..], matches)
      case None => None
      case Some(k) => Some(k + 1)
  }

  /** The first row satisfying `matches`, or None when there is none. */
  function FindFirst<T>(rows: seq<T>, matches: T -> bool): (r: Option<T>)
    ensures r.Some? ==> r.value in rows && matches(r.value)
    ensures r.None? <==> forall x :: x in rows ==> !matches(x)
  {
    match FirstIndex(rows, matches)
    case None => None
    case Some(i) => Some(rows[i])
  }

  /** Rows added after a match do not change which row is found first. */
  lemma {:induction false} FirstIndexAppend<T>(rows: seq<T>, more: seq<T>, matches: T -> bool)
    requires FirstIndex(rows, matches).Some?
    ensures FirstIndex(rows + more, matches) == FirstIndex(rows, matches)
  {
    if !matches(rows[0]) {
      assert (rows + more)[1..] == rows[1..] + more;
      FirstIndexAppend(rows[1..], more, matches);
    }
  }

  /** When nothing matches in `rows`, the first match in `rows + more` is the first match in `more`. */
  lemma {:induction false} FirstIndexSkip<T>(rows: seq<T>, more: seq<T>, matches: T -> bool)
    requires FirstIndex(rows, matches).None?
    ensures FindFirst(rows + more, matches) == FindFirst(more, matches)
  {
    if |rows| > 0 {
      assert (rows + more)[1..] == rows[1..] + more;
      FirstIndexSkip(rows[1..], more, matches);
      assert FirstIndex(rows + more, matches) ==
        (match FirstIndex(rows[1..] + more, matches) case None => None case Some(k) => Some(k + 1));
    } else {
      assert rows + more == more;
    }
  }

  /** Searching a table with one more row in front: that row, if it matches, else the rest. */
  lemma FindFirstCons<T>(x: T, rows: seq<T>, matches: T -> bool)
    ensures FindFirst([x] + rows, matches) == if matches(x) then Some(x) else FindFirst(rows, matches)
  {
    var all := [x] + rows;
    assert all[1..] == rows;
    if !matches(x) {
      match FirstIndex(rows, matches)
      case None =>
      case Some(k) =>
        assert all[k + 1] == rows[k];
    }
  }

  // ---------------------------------------------------------------------------------------
  // Strings

  /** `s.includes(sub)`: `sub` occurs in `s` at some position. */
  predicate IsSubstring(sub: string, s: string) {
    sub <= s || (|s| > 0 && IsSubstring(sub, s[1..]))
  }
}
