/** The attribute gate `enforceABAC(resourceType, action)` (middleware/abacMiddleware.js):
    dispatch on the resource type, load the resource named by the route's `id`, let a
    document's owner through, then require one of the principal's roles in the static
    `accessMap` row for the resource's sensitivity, plus a department check for Employees on
    profiles. The `action` argument is never read. `found` is the lookup result for
    (resourceType, id), reduced to the attributes the gate reads. */
module Abac {
  import opened Common

  /** The attributes the gate reads from a loaded row: owner (documents), label, department
      (profiles). Rows without such a column carry None. */
  datatype Attrs = Attrs(ownerId: Option<int>, sensitivity: Option<Level>, departmentId: Option<int>)

  /** A row of `accessMap`: a sensitivity label, or the 'Department' tier. */
  datatype Tier = Labelled(level: Level) | DepartmentTier

  /** `accessMap` */
  function AccessList(t: Tier): (roles: seq<string>)
    ensures Admin in roles
    ensures Manager in roles <==> t != Labelled(Confidential)
    ensures Employee in roles <==> t == Labelled(Public)
    ensures |roles| <= 3
  {
    match t
    case Labelled(Public) => [Employee, Manager, Admin]
    case Labelled(Internal) => [Manager, Admin]
    case Labelled(Confidential) => [Admin]
    case DepartmentTier => [Admin, Manager]
  }

  /** `user.roles?.map(r => typeof r === 'string' ? r : r.name) || []` */
  function NormaliseRoles(roles: seq<RoleEntry>): (names: seq<string>)
    ensures |names| == |roles|
    ensures forall i :: 0 <= i < |roles| ==> names[i] == roles[i].name
  {
    if roles == [] then [] else [roles[0].name] + NormaliseRoles(roles[1..])
  }

  /** The five types the `switch` knows. */
  predicate KnownType(resourceType: string) {
    resourceType in {"EmployeeProfile", "Document", "User", "Department", "Role"}
  }

  /** The types whose collection routes (no `id`) skip the gate. */
  predicate SkipsWithoutId(resourceType: string) {
    resourceType in {"Document", "User", "Department", "Role"}
  }

  /** `resource.sensitivityLevel || (resourceType === 'Department' ? 'Department' : 'Internal')` */
  function TierOf(resourceType: string, a: Attrs): Tier {
    if a.sensitivity.Some? then Labelled(a.sensitivity.value)
    else if resourceType == "Department" then DepartmentTier
    else Labelled(Internal)
  }

  /** `roles.some(r => allowedRoles.includes(r))` over the normalised names. */
  predicate SensitivityAllows(p: Principal, t: Tier) {
    exists r :: r in NormaliseRoles(p.roles) && r in AccessList(t)
  }

  /** `user.profile?.department_id !== resource.department_id` for Employees on profiles. */
  predicate DepartmentAllows(resourceType: string, p: Principal, a: Attrs) {
    resourceType == "EmployeeProfile" && Employee in NormaliseRoles(p.roles) ==> p.profileDept == a.departmentId
  }

  /** The 404 reason for each known type. */
  function NotFoundReason(resourceType: string): Reason {
    if resourceType == "EmployeeProfile" then ProfileNotFound
    else if resourceType == "Document" then DocumentNotFound
    else if resourceType == "User" then UserNotFound
    else if resourceType == "Department" then DepartmentNotFound
    else RoleNotFound
  }

  /** The check after a resource is loaded. */
  function CheckLoaded(resourceType: string, p: Principal, a: Attrs): (v: Verdict)
    ensures v == Pass <==> SensitivityAllows(p, TierOf(resourceType, a)) && DepartmentAllows(resourceType, p, a)
  {
    var roles := NormaliseRoles(p.roles);
    var allowed := AccessList(TierOf(resourceType, a));
    if !(exists r :: r in roles && r in allowed) then Refuse(Forbidden, SensitivityDenied)
    else if resourceType == "EmployeeProfile" && Employee in roles && p.profileDept != a.departmentId then
      Refuse(Forbidden, EmployeeOtherDepartment)
    else Pass
  }

  function EnforceAbac(resourceType: string, p: Principal, id: Option<int>, found: Option<Attrs>): (v: Verdict)
    // the `default` branch
    ensures !KnownType(resourceType) ==> v == Refuse(BadRequest, UnknownResourceType)
    // collection routes pass without a lookup
    ensures SkipsWithoutId(resourceType) && id.None? ==> v == Pass
    // a missing resource of a known type is a 404
    ensures KnownType(resourceType) && !(SkipsWithoutId(resourceType) && id.None?) && found.None? ==>
      v == Refuse(NotFound, NotFoundReason(resourceType))
    // a document's owner passes before any sensitivity check
    ensures resourceType == "Document" && id.Some? && found.Some? && found.value.ownerId == Some(p.id) ==> v == Pass
    // otherwise, the access map and the department check decide
    ensures (&& KnownType(resourceType) && !(SkipsWithoutId(resourceType) && id.None?) && found.Some?
             && !(resourceType == "Document" && found.value.ownerId == Some(p.id))) ==>
      (v == Pass <==> SensitivityAllows(p, TierOf(resourceType, found.value)) && DepartmentAllows(resourceType, p, found.value))
  {
    if !KnownType(resourceType) then Refuse(BadRequest, UnknownResourceType)
    else if SkipsWithoutId(resourceType) && id.None? then Pass
    else if found.None? then Refuse(NotFound, NotFoundReason(resourceType))
    else if resourceType == "Document" && found.value.ownerId == Some(p.id) then Pass
    else CheckLoaded(resourceType, p, found.value)
  }

  /** An Admin passes the access map at every tier. */
  lemma AdminPassesEveryTier(p: Principal, t: Tier)
    requires HasRole(p, Admin)
    ensures SensitivityAllows(p, t)
  {
    var i :| 0 <= i < |p.roles| && p.roles[i] == RoleName(Admin);
    assert NormaliseRoles(p.roles)[i] == Admin;
    assert Admin in NormaliseRoles(p.roles) && Admin in AccessList(t);
  }

  /** The leave, salary and role-change-request routes name types the switch does not know:
      every such call is a 400, whoever asks. */
  lemma UnlistedTypesRefused(p: Principal, id: Option<int>, found: Option<Attrs>)
    ensures EnforceAbac("LeaveRequest", p, id, found) == Refuse(BadRequest, UnknownResourceType)
    ensures EnforceAbac("SalaryRecord", p, id, found) == Refuse(BadRequest, UnknownResourceType)
    ensures EnforceAbac("RoleChangeRequest", p, id, found) == Refuse(BadRequest, UnknownResourceType)
  {
  }

  /** The gate reads `sensitivityLevel`, which a document row never carries (its label sits in
      the `security_label` key), so a document is Internal to this gate: a non-owner whose
      roles name neither Manager nor Admin is refused. */
  lemma UnlabelledDocumentIsInternal(p: Principal, id: int, a: Attrs)
    requires a.sensitivity.None? && a.ownerId != Some(p.id)
    requires forall e :: e in p.roles ==> e.name != Manager && e.name != Admin
    ensures EnforceAbac("Document", p, Some(id), Some(a)) == Refuse(Forbidden, SensitivityDenied)
  {
    assert TierOf("Document", a) == Labelled(Internal);
    forall r | r in NormaliseRoles(p.roles) ensures r !in AccessList(Labelled(Internal)) {
      var i :| 0 <= i < |p.roles| && NormaliseRoles(p.roles)[i] == r;
      assert p.roles[i] in p.roles;
    }
  }

  /** Unlike every other gate, this one accepts `{ name }` role objects. */
  lemma RoleObjectsCount(id: int, a: Attrs, pid: int)
    requires a.sensitivity == Some(Confidential)
    ensures EnforceAbac("User", Principal(pid, [RoleObject(Admin)], None, None), Some(id), Some(a)) == Pass
  {
    var p := Principal(pid, [RoleObject(Admin)], None, None);
    assert NormaliseRoles(p.roles)[0] == Admin;
    assert Admin in NormaliseRoles(p.roles) && Admin in AccessList(Labelled(Confidential));
  }

  /** An Employee without a profile department in its claims (the login's tokens carry none)
      is refused every existing profile the access map lets it see. */
  lemma EmployeeWithoutProfileClaimRefused(p: Principal, id: int, a: Attrs)
    requires p.profileDept.None? && a.departmentId.Some?
    requires HasRole(p, Employee)
    ensures EnforceAbac("EmployeeProfile", p, Some(id), Some(a)).Refuse?
  {
    var i :| 0 <= i < |p.roles| && p.roles[i] == RoleName(Employee);
    assert NormaliseRoles(p.roles)[i] == Employee;
  }
}
