/** The rule gate `enforceRules(action)` (middleware/ruleMiddleware.js): every stored policy
    whose name equals the action must hold; when none has that name the request passes
    (fail-open). Each policy's present conditions are checked in a fixed order and the first
    failure answers. The wall-clock hour, the headers and the IP are inputs, and so is the
    leave request the route's `id` names. */
module Rules {
  import opened Common
  import opened Records

  /** `condition_json`: each condition is present or absent. */
  datatype Conditions = Conditions(
    startHour: Option<int>, endHour: Option<int>,
    allowedRoles: Option<seq<string>>,
    allowedDevices: Option<seq<string>>,
    allowedIPs: Option<seq<string>>,
    allowedCountries: Option<seq<string>>,
    maxDays: Option<int>, overrideRoles: Option<seq<string>>)

  /** rule_policies */
  datatype Policy = Policy(name: string, conditions: Conditions)

  /** What the request supplies: the hour, the `user-agent` and `x-country` headers (absent or
      present), and `req.ip`. */
  datatype RequestContext = RequestContext(hour: int, userAgent: Option<string>, ip: string, country: Option<string>)

  /** `req.headers['user-agent'] || ''` */
  function Device(ctx: RequestContext): string {
    if ctx.userAgent.Some? then ctx.userAgent.value else ""
  }

  /** `req.headers['x-country'] || 'Unknown'`: an empty header also becomes 'Unknown'. */
  function Country(ctx: RequestContext): string {
    if ctx.country.Some? && ctx.country.value != "" then ctx.country.value else "Unknown"
  }

  /** Inclusive day count of a leave, `(end - start) / day + 1`. */
  function LeaveDays(l: LeaveRecord): int {
    l.endDay - l.startDay + 1
  }

  // The conditions, each read on its own.

  predicate TimeOk(c: Conditions, ctx: RequestContext) {
    c.startHour.Some? && c.endHour.Some? ==> c.startHour.value <= ctx.hour < c.endHour.value
  }

  predicate RoleOk(c: Conditions, p: Principal) {
    c.allowedRoles.Some? ==> PrimaryRoleIn(p, c.allowedRoles.value)
  }

  predicate DeviceOk(c: Conditions, ctx: RequestContext) {
    c.allowedDevices.Some? ==> exists d :: d in c.allowedDevices.value && IsSubstring(d, Device(ctx))
  }

  predicate IpOk(c: Conditions, ctx: RequestContext) {
    c.allowedIPs.Some? ==> ctx.ip in c.allowedIPs.value
  }

  predicate CountryOk(c: Conditions, ctx: RequestContext) {
    c.allowedCountries.Some? ==> Country(ctx) in c.allowedCountries.value
  }

  /** The leave rule runs only for `approveLeave` with a truthy (non-zero) maxDays. */
  predicate LeaveRuleApplies(action: string, c: Conditions) {
    action == "approveLeave" && c.maxDays.Some? && c.maxDays.value != 0
  }

  predicate LeaveOk(action: string, c: Conditions, p: Principal, leave: Option<LeaveRecord>) {
    LeaveRuleApplies(action, c) ==>
      leave.Some? &&
      (LeaveDays(leave.value) > c.maxDays.value ==> c.overrideRoles.Some? && PrimaryRoleIn(p, c.overrideRoles.value))
  }

  /** A policy holds when every one of its present conditions does. */
  predicate PolicyHolds(action: string, c: Conditions, p: Principal, ctx: RequestContext, leave: Option<LeaveRecord>) {
    TimeOk(c, ctx) && RoleOk(c, p) && DeviceOk(c, ctx) && IpOk(c, ctx) && CountryOk(c, ctx) && LeaveOk(action, c, p, leave)
  }

  /** `allowedDevices.some(d => device.includes(d))` */
  function SomeDeviceMatches(devices: seq<string>, device: string): (b: bool)
    ensures b <==> exists d :: d in devices && IsSubstring(d, device)
  {
    if devices == [] then false
    else if IsSubstring(devices[0], device) then
      assert devices[0] in devices;
      true
    else
      var rest := SomeDeviceMatches(devices[1..], device);
      assert !rest ==> forall d :: d in devices ==> !IsSubstring(d, device) by {
        if !rest {
          forall d | d in devices ensures !IsSubstring(d, device) {
            if d != devices[0] {
              assert d in devices[1..];
            }
          }
        }
      }
      if rest then
        var d :| d in devices[1..] && IsSubstring(d, device);
        assert d in devices;
        rest
      else rest
  }

  /** One policy, its conditions checked in the source's order; the first failure answers. */
  function CheckPolicy(action: string, c: Conditions, p: Principal, ctx: RequestContext, leave: Option<LeaveRecord>): (v: Verdict)
    ensures v == Pass <==> PolicyHolds(action, c, p, ctx, leave)
    ensures !TimeOk(c, ctx) ==> v == Refuse(Forbidden, OutsideHours)
    ensures TimeOk(c, ctx) && !RoleOk(c, p) ==> v == Refuse(Forbidden, RoleNotAllowed)
    ensures TimeOk(c, ctx) && RoleOk(c, p) && !DeviceOk(c, ctx) ==> v == Refuse(Forbidden, DeviceNotAllowed)
    ensures TimeOk(c, ctx) && RoleOk(c, p) && DeviceOk(c, ctx) && !IpOk(c, ctx) ==> v == Refuse(Forbidden, IpNotAllowed)
    ensures TimeOk(c, ctx) && RoleOk(c, p) && DeviceOk(c, ctx) && IpOk(c, ctx) && !CountryOk(c, ctx) ==>
      v == Refuse(Forbidden, CountryNotAllowed)
    // a missing leave request is a 404, not a policy refusal
    ensures v.Refuse? && v.status == NotFound <==>
      TimeOk(c, ctx) && RoleOk(c, p) && DeviceOk(c, ctx) && IpOk(c, ctx) && CountryOk(c, ctx)
      && LeaveRuleApplies(action, c) && leave.None?
    ensures v.Refuse? ==> v.status in {Forbidden, NotFound, InternalError}
  {
    if c.startHour.Some? && c.endHour.Some? && (ctx.hour < c.startHour.value || ctx.hour >= c.endHour.value) then
      Refuse(Forbidden, OutsideHours)
    else if c.allowedRoles.Some? && !PrimaryRoleIn(p, c.allowedRoles.value) then
      Refuse(Forbidden, RoleNotAllowed)
    else if c.allowedDevices.Some? && !SomeDeviceMatches(c.allowedDevices.value, Device(ctx)) then
      Refuse(Forbidden, DeviceNotAllowed)
    else if c.allowedIPs.Some? && ctx.ip !in c.allowedIPs.value then
      Refuse(Forbidden, IpNotAllowed)
    else if c.allowedCountries.Some? && Country(ctx) !in c.allowedCountries.value then
      Refuse(Forbidden, CountryNotAllowed)
    else if LeaveRuleApplies(action, c) then
      if leave.None? then Refuse(NotFound, LeaveNotFound)
      else if LeaveDays(leave.value) > c.maxDays.value then
        // `conditions.overrideRoles.includes(...)` throws when overrideRoles is absent
        if c.overrideRoles.None? then Refuse(InternalError, ServerError)
        else if !PrimaryRoleIn(p, c.overrideRoles.value) then Refuse(Forbidden, LeaveTooLong)
        else Pass
      else Pass
    else Pass
  }

  /** The `for...of` over the matching policies: the first policy that fails answers. */
  function CheckAll(action: string, rules: seq<Policy>, p: Principal, ctx: RequestContext, leave: Option<LeaveRecord>): (v: Verdict)
    ensures v == Pass <==> forall i :: 0 <= i < |rules| ==> PolicyHolds(action, rules[i].conditions, p, ctx, leave)
    ensures v.Refuse? ==>
      (exists i :: 0 <= i < |rules| && v == CheckPolicy(action, rules[i].conditions, p, ctx, leave)
         && forall j :: 0 <= j < i ==> PolicyHolds(action, rules[j].conditions, p, ctx, leave))
  {
    if rules == [] then Pass
    else
      var first := CheckPolicy(action, rules[0].conditions, p, ctx, leave);
      if first.Refuse? then first
      else
        var rest := CheckAll(action, rules[1..], p, ctx, leave);
        assert forall i :: 1 <= i < |rules| ==> rules[i] == rules[1..][i - 1];
        if rest.Refuse? then
          var k :| 0 <= k < |rules[1..]| && rest == CheckPolicy(action, rules[1..][k].conditions, p, ctx, leave)
            && forall j :: 0 <= j < k ==> PolicyHolds(action, rules[1..][j].conditions, p, ctx, leave);
          assert rest == CheckPolicy(action, rules[k + 1].conditions, p, ctx, leave);
          rest
        else rest
  }

  /** `RulePolicy.findAll({ where: { name: action } })`, in storage order. */
  function Matching(policies: seq<Policy>, action: string): (r: seq<Policy>)
    ensures forall q :: q in r <==> q in policies && q.name == action
    ensures |r| <= |policies|
  {
    if policies == [] then []
    else if policies[0].name == action then [policies[0]] + Matching(policies[1..], action)
    else Matching(policies[1..], action)
  }

  /** The query keeps storage order: the policies of two runs of rows come out in the same
      order, those of the first run before those of the second. */
  lemma {:induction false} MatchingAppend(a: seq<Policy>, b: seq<Policy>, action: string)
    ensures Matching(a + b, action) == Matching(a, action) + Matching(b, action)
  {
    if a == [] {
      assert a + b == b;
    } else {
      assert (a + b)[0] == a[0] && (a + b)[1..] == a[1..] + b;
      MatchingAppend(a[1..], b, action);
    }
  }

  /** The gate. */
  function EnforceRules(action: string, policies: seq<Policy>, p: Principal, ctx: RequestContext, leave: Option<LeaveRecord>): (v: Verdict)
    // fail-open: no policy named after the action means pass
    ensures (forall q :: q in policies ==> q.name != action) ==> v == Pass
    // otherwise every condition of every policy with that name must hold
    ensures v == Pass <==>
      forall q :: q in policies && q.name == action ==> PolicyHolds(action, q.conditions, p, ctx, leave)
    // a refusal is the answer of one matching policy
    ensures v.Refuse? ==> exists q :: q in policies && q.name == action && v == CheckPolicy(action, q.conditions, p, ctx, leave)
  {
    var rules := Matching(policies, action);
    if |rules| == 0 then Pass
    else
      var v := CheckAll(action, rules, p, ctx, leave);
      assert v == Pass <==> forall q :: q in rules ==> PolicyHolds(action, q.conditions, p, ctx, leave) by {
        if v == Pass {
          forall q | q in rules ensures PolicyHolds(action, q.conditions, p, ctx, leave) {
            var i :| 0 <= i < |rules| && rules[i] == q;
          }
        }
      }
      v
  }

  // ---------------------------------------------------------------------------------------
  // Scenarios

  /** The working-hours policy {startHour: 8, endHour: 18} is a half-open interval. */
  lemma WorkingHours(p: Principal, ctx: RequestContext, leave: Option<LeaveRecord>)
    ensures var c := Conditions(Some(8), Some(18), None, None, None, None, None, None);
      var policies := [Policy("systemAccess", c)];
      && (EnforceRules("systemAccess", policies, p, ctx, leave) == Pass <==> 8 <= ctx.hour < 18)
      && (ctx.hour == 18 ==> EnforceRules("systemAccess", policies, p, ctx, leave) == Refuse(Forbidden, OutsideHours))
  {
  }

  /** A time condition with only one bound, the start or the end, is ignored. */
  lemma HalfWindowIgnored(c: Conditions, ctx: RequestContext)
    requires c.startHour.None? || c.endHour.None?
    ensures TimeOk(c, ctx)
  {
  }

  /** The leave rule: a leave of exactly maxDays inclusive days passes; one day more is refused
      unless the principal's first role overrides. */
  lemma LeaveBoundary(p: Principal, ctx: RequestContext, maxDays: int, override: seq<string>, start: int)
    requires maxDays > 0
    ensures var c := Conditions(None, None, None, None, None, None, Some(maxDays), Some(override));
      && CheckPolicy("approveLeave", c, p, ctx, Some(LeaveRecord(0, start, start + maxDays - 1))) == Pass
      && (CheckPolicy("approveLeave", c, p, ctx, Some(LeaveRecord(0, start, start + maxDays))) == Pass
          <==> PrimaryRoleIn(p, override))
  {
  }

  /** maxDays 0 is falsy and switches the leave rule off, and so does any action other than
      `approveLeave`. */
  lemma LeaveRuleDisabled(action: string, c: Conditions, p: Principal, leave: Option<LeaveRecord>)
    requires action != "approveLeave" || c.maxDays == Some(0) || c.maxDays.None?
    ensures LeaveOk(action, c, p, leave)
  {
  }

  /** Only the FIRST role is compared with allowedRoles: an Admin whose role list starts with
      Employee is refused by a policy that allows only Admin. */
  lemma PrimaryRoleOnly(ctx: RequestContext, id: int)
    ensures var p := Principal(id, [RoleName(Employee), RoleName(Admin)], None, None);
      var c := Conditions(None, None, Some([Admin]), None, None, None, None, None);
      EnforceRules("x", [Policy("x", c)], p, ctx, None) == Refuse(Forbidden, RoleNotAllowed)
  {
  }

  /** An empty device list refuses every request, while an empty entry in it matches every
      user-agent, even an absent one. */
  lemma DeviceListEdges(c: Conditions, ctx: RequestContext)
    ensures c.allowedDevices == Some([]) ==> !DeviceOk(c, ctx)
    ensures c.allowedDevices.Some? && "" in c.allowedDevices.value ==> DeviceOk(c, ctx)
  {
    if c.allowedDevices.Some? && "" in c.allowedDevices.value {
      assert IsSubstring("", Device(ctx));
    }
  }

  /** The seeded approveLeave policy {maxDays: 10, overrideRoles: ['HR Manager']}: a Manager
      approving an 11-day leave is refused, a 10-day leave passes. */
  lemma SeededLeavePolicy(id: int, ctx: RequestContext, start: int)
    ensures var p := Principal(id, [RoleName(Manager)], None, None);
      var policies := [Policy("approveLeave", Conditions(None, None, None, None, None, None, Some(10), Some(["HR Manager"])))];
      && EnforceRules("approveLeave", policies, p, ctx, Some(LeaveRecord(1, start, start + 10))) == Refuse(Forbidden, LeaveTooLong)
      && EnforceRules("approveLeave", policies, p, ctx, Some(LeaveRecord(1, start, start + 9))) == Pass
  {
  }
}
