/** controllers/salaryController.js: salary records are read under a clearance check against
    the label of the employee profile they belong to; only Admins write them. */
module SalaryController {
  import opened Common
  import opened Records
  import opened Tables

  // ---------------------------------------------------------------------------------------
  // getAllSalaries and getSalaryById

  /** `s.employee?.sensitivityLevel || 'Internal'`: the label of the linked profile, Internal
      when there is no linked profile or it has no label. */
  function RecordLevel(s: SalaryRecord, profiles: seq<Profile>): (l: Level)
    ensures FindProfile(profiles, s.employeeId).None? ==> l == Internal
    ensures FindProfile(profiles, s.employeeId).Some? ==> l == LabelOf(FindProfile(profiles, s.employeeId).value.sensitivity)
  {
    match FindProfile(profiles, s.employeeId)
    case None => Internal
    case Some(e) => LabelOf(e.sensitivity)
  }

  /** `levels[userLevel] >= levels[recordLevel]` */
  predicate Readable(p: Principal, s: SalaryRecord, profiles: seq<Profile>) {
    Rank(ClearanceOf(p)) >= Rank(RecordLevel(s, profiles))
  }

  /** `getAllSalaries`: the records the principal's clearance reaches, in table order. */
  function VisibleSalaries(p: Principal, rows: seq<SalaryRecord>, profiles: seq<Profile>): (r: seq<SalaryRecord>)
    ensures forall s :: s in r <==> s in rows && Readable(p, s, profiles)
    ensures |r| <= |rows|
  {
    Filter(rows, (s: SalaryRecord) => Readable(p, s, profiles))
  }

  /** `getSalaryById`: 404, then the same clearance check as the list. */
  function GetSalaryById(p: Principal, id: Option<int>, rows: seq<SalaryRecord>, profiles: seq<Profile>): (r: Outcome<SalaryRecord>)
    ensures FindSalary(rows, id).None? ==> r == Failed(NotFound, SalaryNotFound)
    ensures r.Done? <==> FindSalary(rows, id).Some? && Readable(p, FindSalary(rows, id).value, profiles)
    ensures r.Done? ==> FindSalary(rows, id) == Some(r.value)
    ensures r.Failed? ==> r == Failed(NotFound, SalaryNotFound) || r == Failed(Forbidden, MacPolicyDenied)
  {
    match FindSalary(rows, id)
    case None => Failed(NotFound, SalaryNotFound)
    case Some(s) =>
      if Rank(ClearanceOf(p)) < Rank(RecordLevel(s, profiles)) then Failed(Forbidden, MacPolicyDenied) else Done(s)
  }

  /** The by-id read returns a record exactly when the list shows it. */
  lemma ReadAgreesWithList(p: Principal, id: Option<int>, rows: seq<SalaryRecord>, profiles: seq<Profile>)
    ensures GetSalaryById(p, id, rows, profiles).Done? <==>
      FindSalary(rows, id).Some? && FindSalary(rows, id).value in VisibleSalaries(p, rows, profiles)
  {
  }

  /** A token without a clearance claim reads only records whose linked profile is labelled
      Public: an unlinked record, or one whose profile has no label, is Internal. */
  lemma TokenReadsOnlyPublicLinked(p: Principal, s: SalaryRecord, profiles: seq<Profile>)
    requires p.clearance.None?
    ensures Readable(p, s, profiles) <==>
      FindProfile(profiles, s.employeeId).Some? && FindProfile(profiles, s.employeeId).value.sensitivity == Some(Public)
  {
  }

  /** A higher clearance reads every record a lower one reads. */
  lemma ClearanceMonotone(p: Principal, q: Principal, rows: seq<SalaryRecord>, profiles: seq<Profile>)
    requires Rank(ClearanceOf(p)) <= Rank(ClearanceOf(q))
    ensures forall s :: s in VisibleSalaries(p, rows, profiles) ==> s in VisibleSalaries(q, rows, profiles)
  {
  }

  // ---------------------------------------------------------------------------------------
  // createSalary, updateSalary, deleteSalary

  /** The body fields the write handlers read; absent is None. */
  datatype SalaryBody = SalaryBody(employeeId: Option<int>, amount: Option<int>, currency: Option<string>, effectiveDay: Option<int>)

  /** The row `SalaryRecord.create` stores: the currency defaults to ETB. */
  function NewSalary(id: int, b: SalaryBody): (s: SalaryRecord)
    ensures s.id == id && s.employeeId == b.employeeId && s.amount == b.amount && s.effectiveDay == b.effectiveDay
    ensures b.currency.None? ==> s.currency == "ETB"
    ensures b.currency.Some? ==> s.currency == b.currency.value
  {
    SalaryRecord(id, b.employeeId, b.amount, b.currency.GetOr("ETB"), b.effectiveDay)
  }

  /** `createSalary`: Admin only. `employee_id` is a foreign key to employee_profiles (the
      `belongsTo` in models/index.js); it may be null, but a key naming no profile makes the
      insert fail and the handler answers 500. */
  function CreateSalaryOutcome(p: Principal, profiles: seq<Profile>, b: SalaryBody, id: int): (r: Outcome<SalaryRecord>)
    ensures !HasRole(p, Admin) ==> r == Failed(Forbidden, AdminOnly)
    ensures r.Done? <==> HasRole(p, Admin) && (b.employeeId.None? || FindProfile(profiles, b.employeeId).Some?)
    ensures HasRole(p, Admin) && r.Failed? ==> r == Failed(InternalError, ServerError)
    ensures r.Done? ==> r.value == NewSalary(id, b)
    ensures r.Done? && r.value.employeeId.Some? ==> exists x :: x in profiles && x.id == r.value.employeeId.value
  {
    if !HasRole(p, Admin) then Failed(Forbidden, AdminOnly)
    else if b.employeeId.Some? && FindProfile(profiles, b.employeeId).None? then Failed(InternalError, ServerError)
    else Done(NewSalary(id, b))
  }

  /** `updateSalary`'s assignments: a truthy amount, currency or date replaces the stored one;
      the key and the linked profile never change. */
  function ApplySalaryPatch(s: SalaryRecord, b: SalaryBody): (r: SalaryRecord)
    ensures r.id == s.id && r.employeeId == s.employeeId
    ensures r.amount == (if TruthyInt(b.amount) then b.amount else s.amount)
    ensures r.currency == (if TruthyStr(b.currency) then b.currency.value else s.currency)
    ensures r.effectiveDay == (if b.effectiveDay.Some? then b.effectiveDay else s.effectiveDay)
  {
    s.(amount := if TruthyInt(b.amount) then b.amount else s.amount,
       currency := if TruthyStr(b.currency) then b.currency.value else s.currency,
       effectiveDay := if b.effectiveDay.Some? then b.effectiveDay else s.effectiveDay)
  }

  /** Sending the same body twice changes nothing the second time. */
  lemma SalaryPatchIdempotent(s: SalaryRecord, b: SalaryBody)
    ensures ApplySalaryPatch(ApplySalaryPatch(s, b), b) == ApplySalaryPatch(s, b)
  {
  }

  /** An update never moves a record to another profile, so it never changes who may read it. */
  lemma PatchKeepsReaders(p: Principal, s: SalaryRecord, b: SalaryBody, profiles: seq<Profile>)
    ensures Readable(p, ApplySalaryPatch(s, b), profiles) <==> Readable(p, s, profiles)
  {
  }

  /** `updateSalary`: the Admin check comes before the lookup. */
  function UpdateSalaryOutcome(p: Principal, rows: seq<SalaryRecord>, id: Option<int>, b: SalaryBody): (r: Outcome<SalaryRecord>)
    ensures !HasRole(p, Admin) ==> r == Failed(Forbidden, AdminOnly)
    ensures HasRole(p, Admin) && FindSalary(rows, id).None? ==> r == Failed(NotFound, SalaryNotFound)
    ensures r.Done? <==> HasRole(p, Admin) && FindSalary(rows, id).Some?
    ensures r.Done? ==> r.value == ApplySalaryPatch(FindSalary(rows, id).value, b)
  {
    if !HasRole(p, Admin) then Failed(Forbidden, AdminOnly)
    else
      match FindSalary(rows, id)
      case None => Failed(NotFound, SalaryNotFound)
      case Some(s) => Done(ApplySalaryPatch(s, b))
  }

  /** `deleteSalary`: the Admin check comes before the lookup. */
  function DeleteSalaryOutcome(p: Principal, rows: seq<SalaryRecord>, id: Option<int>): (r: Outcome<SalaryRecord>)
    ensures !HasRole(p, Admin) ==> r == Failed(Forbidden, AdminOnly)
    ensures HasRole(p, Admin) && FindSalary(rows, id).None? ==> r == Failed(NotFound, SalaryNotFound)
    ensures r.Done? <==> HasRole(p, Admin) && FindSalary(rows, id).Some?
    ensures r.Done? ==> FindSalary(rows, id) == Some(r.value)
  {
    if !HasRole(p, Admin) then Failed(Forbidden, AdminOnly)
    else
      match FindSalary(rows, id)
      case None => Failed(NotFound, SalaryNotFound)
      case Some(s) => Done(s)
  }

  /** Primary keys are unique. */
  predicate UniqueIds(rows: seq<SalaryRecord>) {
    forall i, j :: 0 <= i < j < |rows| ==> rows[i].id != rows[j].id
  }

  /** Once the row is destroyed, its key finds nothing, and every other row is still there. */
  lemma DeletedSalaryGone(rows: seq<SalaryRecord>, i: nat)
    requires i < |rows| && UniqueIds(rows)
    ensures FindSalary(RemoveAt(rows, i), Some(rows[i].id)).None?
    ensures forall x :: x in rows && x.id != rows[i].id ==> x in RemoveAt(rows, i)
    ensures UniqueIds(RemoveAt(rows, i))
  {
    var key := (s: SalaryRecord) => s.id;
    assert UniqueKeys(rows, key);
    RemovedKeyGone(rows, i, key);
    OtherKeysKept(rows, i, key);
    RemoveKeepsUnique(rows, i, key);
  }

  // ---------------------------------------------------------------------------------------
  // The table the handlers write

  /** salary_records, with its auto-increment counter. */
  class SalaryTable {
    var rows: seq<SalaryRecord>
    var nextId: int

    ghost predicate Valid()
      reads this
    {
      UniqueIds(rows) && forall x :: x in rows ==> x.id < nextId
    }

    constructor ()
      ensures Valid() && rows == [] && nextId == 1
    {
      rows := [];
      nextId := 1;
    }

    method Create(p: Principal, profiles: seq<Profile>, b: SalaryBody) returns (r: Outcome<SalaryRecord>)
      requires Valid()
      modifies this
      ensures Valid()
      ensures r == CreateSalaryOutcome(p, profiles, b, old(nextId))
      ensures rows == (if r.Done? then old(rows) + [r.value] else old(rows))
      ensures r.Done? ==> FindSalary(rows, Some(r.value.id)) == Some(r.value)
    {
      r := CreateSalaryOutcome(p, profiles, b, nextId);
      if r.Done? {
        assert forall x :: x in rows ==> x.id != r.value.id;
        FirstIndexSkip(rows, [r.value], (x: SalaryRecord) => x.id == r.value.id);
        rows := rows + [r.value];
        nextId := nextId + 1;
      }
    }

    method Update(p: Principal, id: Option<int>, b: SalaryBody) returns (r: Outcome<SalaryRecord>)
      requires Valid()
      modifies this
      ensures Valid() && nextId == old(nextId)
      ensures r == UpdateSalaryOutcome(p, old(rows), id, b)
      ensures r.Failed? ==> rows == old(rows)
      ensures r.Done? ==>
        |rows| == |old(rows)|
        && (forall j :: 0 <= j < |rows| ==> rows[j] == (if old(rows)[j].id == id.value then r.value else old(rows)[j]))
    {
      r := UpdateSalaryOutcome(p, rows, id, b);
      if r.Done? {
        var i := FirstIndex(rows, (x: SalaryRecord) => x.id == id.value).value;
        forall j | 0 <= j < |rows| && j != i ensures rows[j].id != id.value {
          if j > i {
            assert rows[j].id != rows[i].id;
          }
        }
        rows := rows[i := r.value];
      }
    }

    method Delete(p: Principal, id: Option<int>) returns (r: Outcome<SalaryRecord>)
      requires Valid()
      modifies this
      ensures Valid() && nextId == old(nextId)
      ensures r == DeleteSalaryOutcome(p, old(rows), id)
      ensures r.Failed? ==> rows == old(rows)
      ensures r.Done? ==> |rows| == |old(rows)| - 1 && FindSalary(rows, id).None?
      ensures r.Done? ==> forall x :: x in old(rows) && x.id != id.value ==> x in rows
    {
      r := DeleteSalaryOutcome(p, rows, id);
      if r.Done? {
        var i := FirstIndex(rows, (x: SalaryRecord) => x.id == id.value).value;
        DeletedSalaryGone(rows, i);
        rows := RemoveAt(rows, i);
      }
    }
  }
}
