/** How a route runs its access gates: Express calls the middleware of a route in the order
    the route lists them, and the first gate that answers (refuses) ends the request; only a
    request every gate passes reaches the controller. The gates read one snapshot of the
    database and the parts of the request they look at. */
module Pipeline {
  import opened Common
  import opened Records
  import opened Rbac
  import opened Mac
  import opened Dac
  import opened Abac
  import opened Rules

  /** The tables the gates read, as stored. */
  datatype World = World(
    profiles: seq<Profile>, documents: seq<Document>, grants: seq<Grant>,
    users: seq<UserRecord>, departments: seq<DepartmentRecord>, roles: seq<RoleRecord>,
    leaves: seq<LeaveRecord>, policies: seq<Policy>)

  /** What the gates read from a request: the token's principal, the `:id` route parameter
      (None when the route has none or it is absent), and the headers, IP and hour for the rule
      gate. */
  datatype Request = Request(principal: Principal, id: Option<int>, context: RequestContext)

  /** A gate as a route names it. The second argument of `enforceABAC` is never read, but it is
      kept so that chains read as the routes do. */
  datatype Gate =
    | RoleGate(allowed: seq<string>)
    | MacGate(macAction: string)
    | DacGate(dacAction: string)
    | AbacGate(resourceType: string, abacAction: string)
    | RulesGate(ruleAction: string)

  /** The row `enforceABAC` loads for a type and id, reduced to the attributes it reads. */
  function Load(w: World, resourceType: string, id: Option<int>): (a: Option<Attrs>)
    ensures resourceType == "EmployeeProfile" ==> (a.Some? <==> FindProfile(w.profiles, id).Some?)
    ensures resourceType == "EmployeeProfile" && a.Some? ==>
      var r := FindProfile(w.profiles, id).value;
      a.value == Attrs(None, r.sensitivity, Some(r.departmentId))
    ensures resourceType == "Document" ==> (a.Some? <==> FindDocument(w.documents, id).Some?)
    ensures resourceType == "Document" && a.Some? ==> a.value == Attrs(Some(FindDocument(w.documents, id).value.ownerId), None, None)
    ensures resourceType == "User" ==> (a.Some? <==> FindUser(w.users, id).Some?)
    ensures resourceType == "User" && a.Some? ==> a.value == Attrs(None, FindUser(w.users, id).value.sensitivity, None)
    ensures resourceType == "Department" ==> (a.Some? <==> FindDepartment(w.departments, id).Some?)
    ensures resourceType == "Role" ==> (a.Some? <==> FindRole(w.roles, id).Some?)
    ensures resourceType in {"Department", "Role"} && a.Some? ==> a.value == Attrs(None, None, None)
    ensures !KnownType(resourceType) ==> a.None?
  {
    if resourceType == "EmployeeProfile" then
      match FindProfile(w.profiles, id)
      case None => None
      case Some(r) => Some(Attrs(None, r.sensitivity, Some(r.departmentId)))
    else if resourceType == "Document" then
      match FindDocument(w.documents, id)
      case None => None
      case Some(r) => Some(Attrs(Some(r.ownerId), None, None))
    else if resourceType == "User" then
      match FindUser(w.users, id)
      case None => None
      case Some(r) => Some(Attrs(None, r.sensitivity, None))
    else if resourceType == "Department" then
      match FindDepartment(w.departments, id)
      case None => None
      case Some(_) => Some(Attrs(None, None, None))
    else if resourceType == "Role" then
      match FindRole(w.roles, id)
      case None => None
      case Some(_) => Some(Attrs(None, None, None))
    else None
  }

  /** One gate against the snapshot. MAC always looks up the employee profile whose key is the
      route's `id`, and the principal's own profile by user id; the rule gate gets the leave
      request that `id` names. */
  function RunGate(w: World, req: Request, g: Gate): Verdict
  {
    var p := req.principal;
    match g
    case RoleGate(allowed) => AuthorizeRoles(allowed, p)
    case MacGate(action) => EnforceMac(action, p, FindProfile(w.profiles, req.id), ProfileOfUser(w.profiles, p.id))
    case DacGate(action) => EnforceDac(action, p, FindDocument(w.documents, req.id), w.grants)
    case AbacGate(resourceType, _) => EnforceAbac(resourceType, p, req.id, Load(w, resourceType, req.id))
    case RulesGate(action) => EnforceRules(action, w.policies, p, req.context, FindLeave(w.leaves, req.id))
  }

  /** What each gate loads by the route's `id`, and the answers that follow from the load
      alone. */
  lemma GateLookups(w: World, req: Request, g: Gate)
    // the role gate reads neither the tables nor the id
    ensures g.RoleGate? ==> (RunGate(w, req, g) == Pass <==> exists role :: HasRole(req.principal, role) && role in g.allowed)
    // MAC loads the profile the id names, and refuses when there is none
    ensures g.MacGate? && g.macAction != "create" && FindProfile(w.profiles, req.id).None? ==>
      RunGate(w, req, g) == Refuse(Forbidden, ResourceNotFound)
    // DAC loads the document the id names: 404 without one, and its owner passes
    ensures g.DacGate? && FindDocument(w.documents, req.id).None? ==> RunGate(w, req, g) == Refuse(NotFound, DocumentNotFound)
    ensures g.DacGate? && FindDocument(w.documents, req.id).Some? && FindDocument(w.documents, req.id).value.ownerId == req.principal.id ==>
      RunGate(w, req, g) == Pass
    // ABAC refuses a type it has no loader for, and lets a document's owner through
    ensures g.AbacGate? && !KnownType(g.resourceType) ==> RunGate(w, req, g) == Refuse(BadRequest, UnknownResourceType)
    ensures (g.AbacGate? && g.resourceType == "Document" && FindDocument(w.documents, req.id).Some? &&
             FindDocument(w.documents, req.id).value.ownerId == req.principal.id) ==> RunGate(w, req, g) == Pass
    // the rule gate is fail-open for an action no policy names
    ensures g.RulesGate? && (forall q :: q in w.policies ==> q.name != g.ruleAction) ==> RunGate(w, req, g) == Pass
  {
  }

  /** The chain: a refusal ends it, and the request reaches the controller only when every gate
      passed. */
  function RunChain(w: World, req: Request, chain: seq<Gate>): (v: Verdict)
    ensures v == Pass <==> forall i :: 0 <= i < |chain| ==> RunGate(w, req, chain[i]) == Pass
    ensures v.Refuse? ==>
      (exists i :: 0 <= i < |chain| && v == RunGate(w, req, chain[i])
         && forall j :: 0 <= j < i ==> RunGate(w, req, chain[j]) == Pass)
  {
    if chain == [] then Pass
    else
      var first := RunGate(w, req, chain[0]);
      if first.Refuse? then first
      else
        var rest := RunChain(w, req, chain[1..]);
        assert forall i :: 1 <= i < |chain| ==> chain[i] == chain[1..][i - 1];
        if rest.Refuse? then
          var k :| 0 <= k < |chain[1..]| && rest == RunGate(w, req, chain[1..][k])
            && forall j :: 0 <= j < k ==> RunGate(w, req, chain[1..][j]) == Pass;
          assert rest == RunGate(w, req, chain[k + 1]);
          rest
        else rest
  }

  /** The first gate that refuses answers for the whole chain, whatever the later gates say. */
  lemma FirstRefusalAnswers(w: World, req: Request, chain: seq<Gate>, k: nat)
    requires k < |chain|
    requires forall j :: 0 <= j < k ==> RunGate(w, req, chain[j]) == Pass
    requires RunGate(w, req, chain[k]).Refuse?
    ensures RunChain(w, req, chain) == RunGate(w, req, chain[k])
  {
    var v := RunChain(w, req, chain);
    assert RunGate(w, req, chain[k]) != Pass;
    var i :| 0 <= i < |chain| && v == RunGate(w, req, chain[i])
      && forall j :: 0 <= j < i ==> RunGate(w, req, chain[j]) == Pass;
    assert i == k;
  }

  /** A chain holding a gate that refuses never reaches the controller. */
  lemma RefusingGateRefuses(w: World, req: Request, chain: seq<Gate>, k: nat)
    requires k < |chain| && RunGate(w, req, chain[k]).Refuse?
    ensures RunChain(w, req, chain).Refuse?
  {
    assert RunGate(w, req, chain[k]) != Pass;
  }

  /** The attribute gate refuses a type it does not know (400), wherever it stands in a chain. */
  lemma UnknownTypeRefuses(w: World, req: Request, chain: seq<Gate>, k: nat)
    requires k < |chain| && chain[k].AbacGate? && !KnownType(chain[k].resourceType)
    ensures RunGate(w, req, chain[k]) == Refuse(BadRequest, UnknownResourceType)
    ensures RunChain(w, req, chain).Refuse?
  {
    RefusingGateRefuses(w, req, chain, k);
  }

  /** `first`, unless it passed; then `rest`. */
  function Then(first: Verdict, rest: Verdict): Verdict {
    if first == Pass then rest else first
  }

  // The chains the routes spell out, unrolled.

  lemma Chain1(w: World, req: Request, a: Gate)
    ensures RunChain(w, req, [a]) == RunGate(w, req, a)
  {
    assert [a][1..] == [];
  }

  lemma Chain2(w: World, req: Request, a: Gate, b: Gate)
    ensures RunChain(w, req, [a, b]) == Then(RunGate(w, req, a), RunGate(w, req, b))
  {
    assert [a, b][1..] == [b];
    Chain1(w, req, b);
  }

  lemma Chain3(w: World, req: Request, a: Gate, b: Gate, c: Gate)
    ensures RunChain(w, req, [a, b, c]) == Then(RunGate(w, req, a), Then(RunGate(w, req, b), RunGate(w, req, c)))
  {
    assert [a, b, c][1..] == [b, c];
    Chain2(w, req, b, c);
  }

  lemma Chain4(w: World, req: Request, a: Gate, b: Gate, c: Gate, d: Gate)
    ensures RunChain(w, req, [a, b, c, d]) ==
      Then(RunGate(w, req, a), Then(RunGate(w, req, b), Then(RunGate(w, req, c), RunGate(w, req, d))))
  {
    assert [a, b, c, d][1..] == [b, c, d];
    Chain3(w, req, b, c, d);
  }

  /** Running two chains one after the other is running their concatenation. */
  lemma {:induction false} RunChainAppend(w: World, req: Request, first: seq<Gate>, second: seq<Gate>)
    ensures RunChain(w, req, first + second) ==
      (if RunChain(w, req, first) == Pass then RunChain(w, req, second) else RunChain(w, req, first))
  {
    if first == [] {
      assert first + second == second;
    } else {
      assert (first + second)[0] == first[0];
      assert (first + second)[1..] == first[1..] + second;
      RunChainAppend(w, req, first[1..], second);
    }
  }

  /** A route: its verb and path, whether the path binds `:id`, and its gate chain (the
      authentication and activity-logging middleware are not gates here). */
  datatype Route = Route(verb: string, path: string, bindsId: bool, chain: seq<Gate>)

  /** Express fills `req.params.id` only on paths that declare `:id`. */
  function Bind(route: Route, req: Request): (r: Request)
    ensures r.principal == req.principal && r.context == req.context
    ensures r.id == (if route.bindsId then req.id else None)
  {
    if route.bindsId then req else req.(id := None)
  }

  function RunRoute(w: World, route: Route, req: Request): Verdict {
    RunChain(w, Bind(route, req), route.chain)
  }

  /** A route lets a request through exactly when every gate of its chain passes on the request
      as bound to the route's path; otherwise one gate's refusal is the answer. */
  lemma RouteVerdict(w: World, route: Route, req: Request)
    ensures RunRoute(w, route, req) == Pass <==>
      forall i :: 0 <= i < |route.chain| ==> RunGate(w, Bind(route, req), route.chain[i]) == Pass
    ensures RunRoute(w, route, req).Refuse? ==>
      exists i :: 0 <= i < |route.chain| && RunRoute(w, route, req) == RunGate(w, Bind(route, req), route.chain[i])
  {
  }

  /** The routers `server.js` mounts and where: the authentication router at `/auth`, the
      protected ones under their own prefixes (the profile router twice). */
  datatype Router = AuthRouter | UserRouter | DepartmentRouter | ProfileRouter | ActivityRouter | DocumentRouter
    | RoleRouter | RoleRequestRouter | SalaryRouter | LeaveRouter | PermissionRouter

  function MountedAt(prefix: string): (r: Option<Router>)
    ensures r.Some? ==> r.value !in {SalaryRouter, LeaveRouter, PermissionRouter}
    ensures r == Some(AuthRouter) <==> prefix == "/auth"
    ensures r.Some? <==> prefix in {"/auth", "/users", "/departments", "/profiles", "/activities", "/documents",
                                     "/roles", "/employee-profiles", "/role-requests"}
  {
    if prefix == "/auth" then Some(AuthRouter)
    else if prefix == "/users" then Some(UserRouter)
    else if prefix == "/departments" then Some(DepartmentRouter)
    else if prefix == "/profiles" || prefix == "/employee-profiles" then Some(ProfileRouter)
    else if prefix == "/activities" then Some(ActivityRouter)
    else if prefix == "/documents" then Some(DocumentRouter)
    else if prefix == "/roles" then Some(RoleRouter)
    else if prefix == "/role-requests" then Some(RoleRequestRouter)
    else None
  }
}
