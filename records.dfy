/** The access-relevant columns of each table the decision logic reads, and the lookups it
    performs on them. A table is a sequence of rows in storage order; a lookup returns the
    first matching row, as `findByPk` and `findOne` do. A route parameter that is absent
    (`req.params.id` undefined) finds nothing. */
module Records {
  import opened Common

  /** employee_profiles */
  datatype Profile = Profile(
    id: int, userId: int, departmentId: int, managerId: Option<int>,
    position: string, salary: Option<int>, sensitivity: Option<Level>)

  /** documents (the `visibility` column is never consulted by any decision) */
  datatype Document = Document(id: int, title: string, filePath: string, ownerId: int)

  /** document_permissions: one DAC grant row; the table holds at most one row per (document, user) */
  datatype Grant = Grant(resourceId: int, userId: int, canView: bool, canEdit: bool, grantedBy: int)

  /** users */
  datatype UserRecord = UserRecord(id: int, sensitivity: Option<Level>)

  /** departments */
  datatype DepartmentRecord = DepartmentRecord(id: int)

  /** roles */
  datatype RoleRecord = RoleRecord(id: int, name: string)

  /** leave_requests, with dates as day numbers */
  datatype LeaveRecord = LeaveRecord(id: int, startDay: int, endDay: int)

  /** salary_records: the amount in minor units, the linked employee profile by key */
  datatype SalaryRecord = SalaryRecord(
    id: int, employeeId: Option<int>, amount: Option<int>, currency: string, effectiveDay: Option<int>)

  /** role_change_requests.status */
  datatype RequestStatus = Pending | Approved | Rejected

  /** role_change_requests */
  datatype RoleChangeRequest = RoleChangeRequest(
    id: int, userId: int, requestedRoleId: int, status: RequestStatus, reason: Option<string>)

  /** `EmployeeProfile.findByPk(id)` */
  function FindProfile(rows: seq<Profile>, id: Option<int>): (r: Option<Profile>)
    ensures r.Some? ==> id.Some? && r.value in rows && r.value.id == id.value
    ensures r.None? <==> id.None? || forall x :: x in rows ==> x.id != id.value
  {
    if id.None? then None else FindFirst(rows, (x: Profile) => x.id == id.value)
  }

  /** `EmployeeProfile.findOne({ where: { user_id } })` */
  function ProfileOfUser(rows: seq<Profile>, userId: int): (r: Option<Profile>)
    ensures r.Some? ==> r.value in rows && r.value.userId == userId
    ensures r.None? <==> forall x :: x in rows ==> x.userId != userId
  {
    FindFirst(rows, (x: Profile) => x.userId == userId)
  }

  /** `Document.findByPk(id)` */
  function FindDocument(rows: seq<Document>, id: Option<int>): (r: Option<Document>)
    ensures r.Some? ==> id.Some? && r.value in rows && r.value.id == id.value
    ensures r.None? <==> id.None? || forall x :: x in rows ==> x.id != id.value
  {
    if id.None? then None else FindFirst(rows, (x: Document) => x.id == id.value)
  }

  /** Does this grant row belong to (document, user)? */
  predicate GrantOf(g: Grant, doc: int, user: int) {
    g.resourceId == doc && g.userId == user
  }

  /** The key of `document_permissions`: a `belongsToMany` through a model without a primary
      key of its own is keyed on its two foreign keys (models/index.js). */
  function PairOf(g: Grant): (int, int) {
    (g.resourceId, g.userId)
  }

  /** `DocumentPermission.findOne({ where: { resource_id, user_id } })`, and equally the first
      element of a document's `permissions` include filtered by user. */
  function GrantFor(rows: seq<Grant>, doc: int, user: int): (r: Option<Grant>)
    ensures r.Some? ==> r.value in rows && GrantOf(r.value, doc, user)
    ensures r.None? <==> forall g :: g in rows ==> !GrantOf(g, doc, user)
  {
    FindFirst(rows, (g: Grant) => GrantOf(g, doc, user))
  }

  /** Once a (document, user) row exists, rows appended later are never the one consulted. */
  lemma GrantForAppend(rows: seq<Grant>, more: seq<Grant>, doc: int, user: int)
    requires GrantFor(rows, doc, user).Some?
    ensures GrantFor(rows + more, doc, user) == GrantFor(rows, doc, user)
  {
    var m := (g: Grant) => GrantOf(g, doc, user);
    FirstIndexAppend(rows, more, m);
  }

  /** `User.findByPk(id)` */
  function FindUser(rows: seq<UserRecord>, id: Option<int>): (r: Option<UserRecord>)
    ensures r.Some? ==> id.Some? && r.value in rows && r.value.id == id.value
    ensures r.None? <==> id.None? || forall x :: x in rows ==> x.id != id.value
  {
    if id.None? then None else FindFirst(rows, (x: UserRecord) => x.id == id.value)
  }

  /** `Department.findByPk(id)` */
  function FindDepartment(rows: seq<DepartmentRecord>, id: Option<int>): (r: Option<DepartmentRecord>)
    ensures r.Some? ==> id.Some? && r.value in rows && r.value.id == id.value
    ensures r.None? <==> id.None? || forall x :: x in rows ==> x.id != id.value
  {
    if id.None? then None else FindFirst(rows, (x: DepartmentRecord) => x.id == id.value)
  }

  /** `Role.findByPk(id)` */
  function FindRole(rows: seq<RoleRecord>, id: Option<int>): (r: Option<RoleRecord>)
    ensures r.Some? ==> id.Some? && r.value in rows && r.value.id == id.value
    ensures r.None? <==> id.None? || forall x :: x in rows ==> x.id != id.value
  {
    if id.None? then None else FindFirst(rows, (x: RoleRecord) => x.id == id.value)
  }

  /** `LeaveRequest.findByPk(id)` */
  function FindLeave(rows: seq<LeaveRecord>, id: Option<int>): (r: Option<LeaveRecord>)
    ensures r.Some? ==> id.Some? && r.value in rows && r.value.id == id.value
    ensures r.None? <==> id.None? || forall x :: x in rows ==> x.id != id.value
  {
    if id.None? then None else FindFirst(rows, (x: LeaveRecord) => x.id == id.value)
  }

  /** `SalaryRecord.findByPk(id)` */
  function FindSalary(rows: seq<SalaryRecord>, id: Option<int>): (r: Option<SalaryRecord>)
    ensures r.Some? ==> id.Some? && r.value in rows && r.value.id == id.value
    ensures r.None? <==> id.None? || forall x :: x in rows ==> x.id != id.value
  {
    if id.None? then None else FindFirst(rows, (x: SalaryRecord) => x.id == id.value)
  }
}
