/** The mandatory-access gate `enforceMAC(action)` and the label guard `enforceImmutableLabel`
    (middleware/macMiddleware.js). The gate always consults the employee profile whose primary
    key is the route's `id`, whatever the route is about; the storage lookups are inputs:
    `target` is that profile, `own` is the principal's own profile (`findOne` by user id). */
module Mac {
  import opened Common
  import opened Records

  /** The level comparison for a non-Admin: no read-up on `view`; on `update`/`delete` the
      source's asymmetric "no write-down", which refuses a principal cleared ABOVE the label. */
  predicate LevelAllows(action: string, clearance: Level, resource: Level) {
    && !(action == "view" && Rank(clearance) < Rank(resource))
    && !((action == "update" || action == "delete") && Rank(clearance) > Rank(resource))
  }

  /** A Manager may only reach profiles of the department on their own profile. */
  predicate ManagerScoped(p: Principal, own: Option<Profile>, target: Profile) {
    HasRole(p, Manager) ==> own.Some? && own.value.departmentId == target.departmentId
  }

  /** An Employee may only reach their own profile. */
  predicate EmployeeScoped(p: Principal, target: Profile) {
    HasRole(p, Employee) ==> p.id == target.userId
  }

  function EnforceMac(action: string, p: Principal, target: Option<Profile>, own: Option<Profile>): (v: Verdict)
    // `create` loads nothing and passes whatever the roles
    ensures action == "create" ==> v == Pass
    // a missing profile is refused with 403, not 404
    ensures action != "create" && target.None? ==> v == Refuse(Forbidden, ResourceNotFound)
    // the Admin bypass
    ensures action != "create" && target.Some? && HasRole(p, Admin) ==> v == Pass
    // the whole decision, order-free
    ensures v == Pass <==>
      || action == "create"
      || (target.Some? && (HasRole(p, Admin) ||
            (LevelAllows(action, ClearanceOf(p), LabelOf(target.value.sensitivity))
             && ManagerScoped(p, own, target.value) && EmployeeScoped(p, target.value))))
    // the level check comes first and has its own reasons
    ensures v == Refuse(Forbidden, ReadUp) <==>
      action == "view" && target.Some? && !HasRole(p, Admin)
      && Rank(ClearanceOf(p)) < Rank(LabelOf(target.value.sensitivity))
    ensures v == Refuse(Forbidden, WriteDown) <==>
      (action == "update" || action == "delete") && target.Some? && !HasRole(p, Admin)
      && Rank(ClearanceOf(p)) > Rank(LabelOf(target.value.sensitivity))
    // a Manager without a profile of their own makes the handler throw
    ensures v.Refuse? && v.status == InternalError <==>
      action != "create" && target.Some? && !HasRole(p, Admin)
      && LevelAllows(action, ClearanceOf(p), LabelOf(target.value.sensitivity))
      && HasRole(p, Manager) && own.None?
    // then department, then self
    ensures v == Refuse(Forbidden, EmployeeSelf) ==> ManagerScoped(p, own, target.value)
  {
    if action != "create" && target.None? then Refuse(Forbidden, ResourceNotFound)
    else if HasRole(p, Admin) || action == "create" then Pass
    else
      var profile := target.value;
      var userRank := Rank(ClearanceOf(p));
      var resourceRank := Rank(LabelOf(profile.sensitivity));
      if action == "view" && userRank < resourceRank then Refuse(Forbidden, ReadUp)
      else if (action == "update" || action == "delete") && userRank > resourceRank then Refuse(Forbidden, WriteDown)
      else if HasRole(p, Manager) && own.None? then Refuse(InternalError, ServerError)
      else if HasRole(p, Manager) && own.value.departmentId != profile.departmentId then Refuse(Forbidden, ManagerDepartment)
      else if HasRole(p, Employee) && p.id != profile.userId then Refuse(Forbidden, EmployeeSelf)
      else Pass
  }

  /** No read-up holds for every pair of levels: a non-Admin cleared below the label is refused `view`. */
  lemma NoReadUp(p: Principal, target: Profile, own: Option<Profile>)
    requires !HasRole(p, Admin)
    requires Rank(ClearanceOf(p)) < Rank(LabelOf(target.sensitivity))
    ensures EnforceMac("view", p, Some(target), own) == Refuse(Forbidden, ReadUp)
  {
  }

  /** The write rule is not the textbook star-property: a Confidential-cleared non-Admin may not
      update a Public profile, while a Public-cleared one passes the level check on a
      Confidential profile. */
  lemma WriteRuleIsAsymmetric(p: Principal, q: Principal, target: Profile, target': Profile)
    requires !HasRole(p, Admin) && p.clearance == Some(Confidential) && target.sensitivity == Some(Public)
    requires !HasRole(q, Admin) && q.clearance == Some(Public) && target'.sensitivity == Some(Confidential)
    ensures EnforceMac("update", p, Some(target), None) == Refuse(Forbidden, WriteDown)
    ensures LevelAllows("update", ClearanceOf(q), LabelOf(target'.sensitivity))
  {
  }

  /** Equal ranks pass the level check for every action. */
  lemma EqualRanksPassLevel(action: string, l: Level)
    ensures LevelAllows(action, l, l)
  {
  }

  /** Without a clearance claim (the tokens the login issues carry none) a non-Admin counts as
      Public and cannot view any Internal or Confidential profile, unlabelled ones included. */
  lemma TokenPrincipalReadsOnlyPublic(p: Principal, target: Profile, own: Option<Profile>)
    requires p.clearance.None? && !HasRole(p, Admin)
    requires target.sensitivity != Some(Public)
    ensures EnforceMac("view", p, Some(target), own) == Refuse(Forbidden, ReadUp)
  {
  }

  /** A Manager whose own profile is in department 5 viewing a profile in department 7 is
      refused at the department check, although the clearance comparison alone would pass. */
  lemma ManagerOtherDepartment(p: Principal, own: Profile, target: Profile)
    requires HasRole(p, Manager) && !HasRole(p, Admin) && !HasRole(p, Employee)
    requires p.clearance == Some(Confidential)
    requires own.departmentId == 5 && target.departmentId == 7
    ensures LevelAllows("view", ClearanceOf(p), LabelOf(target.sensitivity))
    ensures EnforceMac("view", p, Some(target), Some(own)) == Refuse(Forbidden, ManagerDepartment)
  {
  }

  /** An Employee cleared Internal viewing another user's Confidential profile is refused for
      read-up, before the self check is reached. */
  lemma EmployeeReadUpScenario(p: Principal, target: Profile)
    requires p.roles == [RoleName(Employee)] && p.clearance == Some(Internal)
    requires target.sensitivity == Some(Confidential) && target.userId != p.id
    ensures EnforceMac("view", p, Some(target), None) == Refuse(Forbidden, ReadUp)
  {
  }

  /** A principal holding both Manager and Employee must satisfy both scopes. */
  lemma ManagerEmployeeNeedsBoth(p: Principal, own: Profile, target: Profile)
    requires HasRole(p, Manager) && HasRole(p, Employee) && !HasRole(p, Admin)
    requires LevelAllows("view", ClearanceOf(p), LabelOf(target.sensitivity))
    requires own.departmentId == target.departmentId && p.id != target.userId
    ensures EnforceMac("view", p, Some(target), Some(own)) == Refuse(Forbidden, EmployeeSelf)
  {
  }

  /** `enforceImmutableLabel`: a body carrying a sensitivity label is refused unless the
      principal holds Admin; every other request passes. */
  function EnforceImmutableLabel(p: Principal, bodyLabel: Option<Level>): (v: Verdict)
    ensures v.Refuse? <==> bodyLabel.Some? && !HasRole(p, Admin)
    ensures v.Refuse? ==> v == Refuse(Forbidden, LabelChangeBlocked)
  {
    if bodyLabel.Some? && !HasRole(p, Admin) then Refuse(Forbidden, LabelChangeBlocked) else Pass
  }
}
