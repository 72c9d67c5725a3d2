/** routes/userRoutes.js, mounted at /users. MAC on these routes consults the employee profile
    whose key is the route's `id`: a user id, read as a profile id. */
module UserRoutes {
  import opened Common
  import opened Records
  import opened Rbac
  import opened Mac
  import opened Abac
  import opened Rules
  import opened Pipeline

  const List := Route("GET", "/", false,
    [RoleGate([Admin]), MacGate("view"), AbacGate("User", "view"), RulesGate("getAllUsers")])
  const ShareTargets := Route("GET", "/share-targets", false, [RoleGate([Employee, Manager, Admin])])
  const View := Route("GET", "/:id", true,
    [RoleGate([Admin, Manager, Employee]), MacGate("view"), AbacGate("User", "view"), RulesGate("getUserById")])
  const Create := Route("POST", "/", false,
    [RoleGate([Admin]), MacGate("create"), AbacGate("User", "create"), RulesGate("createUser")])
  const Update := Route("PUT", "/:id", true,
    [RoleGate([Admin, Employee]), MacGate("update"), AbacGate("User", "update"), RulesGate("updateUser")])
  const Delete := Route("DELETE", "/:id", true,
    [RoleGate([Admin]), MacGate("delete"), AbacGate("User", "delete"), RulesGate("deleteUser")])

  /** Listing users never succeeds: the role gate refuses non-Admins, and MAC, finding no
      profile for the missing `id`, refuses Admins. */
  lemma ListNeverPasses(w: World, req: Request)
    ensures RunRoute(w, List, req) == Refuse(Forbidden, InsufficientRole)
         || RunRoute(w, List, req) == Refuse(Forbidden, ResourceNotFound)
  {
    Chain4(w, Bind(List, req), List.chain[0], List.chain[1], List.chain[2], List.chain[3]);
  }

  /** Creating a user is decided by the Admin role and the `createUser` rules alone: MAC passes
      `create` and the attribute gate steps aside without an `id`. */
  lemma CreateDecision(w: World, req: Request)
    ensures RunRoute(w, Create, req) == Pass <==>
      HasRole(req.principal, Admin)
      && EnforceRules("createUser", w.policies, req.principal, req.context, None) == Pass
  {
    var b := Bind(Create, req);
    assert RunGate(w, b, Create.chain[1]) == Pass;
    assert RunGate(w, b, Create.chain[2]) == Pass;
    assert RunGate(w, b, Create.chain[3]) == EnforceRules("createUser", w.policies, req.principal, req.context, None);
    assert RunGate(w, b, Create.chain[0]) == Pass <==> HasRole(req.principal, Admin) by {
      if HasRole(req.principal, Admin) {
        assert Admin in [Admin];
      }
    }
    Chain4(w, b, Create.chain[0], Create.chain[1], Create.chain[2], Create.chain[3]);
  }

  /** Even an Admin cannot view, update or delete a user unless some employee profile happens
      to have the user's id as its own key. */
  lemma UserRoutesNeedProfileWithSameKey(w: World, req: Request)
    requires HasRole(req.principal, Admin)
    requires FindProfile(w.profiles, req.id).None?
    ensures RunRoute(w, View, req) == Refuse(Forbidden, ResourceNotFound)
    ensures RunRoute(w, Update, req) == Refuse(Forbidden, ResourceNotFound)
    ensures RunRoute(w, Delete, req) == Refuse(Forbidden, ResourceNotFound)
  {
    assert Admin in [Admin, Manager, Employee] && Admin in [Admin, Employee] && Admin in [Admin];
    Chain4(w, req, View.chain[0], View.chain[1], View.chain[2], View.chain[3]);
    Chain4(w, req, Update.chain[0], Update.chain[1], Update.chain[2], Update.chain[3]);
    Chain4(w, req, Delete.chain[0], Delete.chain[1], Delete.chain[2], Delete.chain[3]);
  }

  /** A plain Employee token (no clearance claim) viewing a user whose same-keyed profile is
      not Public is refused for read-up by MAC, before the user row is looked at. */
  lemma EmployeeViewReadUp(w: World, req: Request, pr: Profile)
    requires req.principal.roles == [RoleName(Employee)] && req.principal.clearance.None?
    requires FindProfile(w.profiles, req.id) == Some(pr) && pr.sensitivity != Some(Public)
    ensures RunRoute(w, View, req) == Refuse(Forbidden, ReadUp)
  {
    assert RunGate(w, req, View.chain[0]) == Pass by {
      assert HasRole(req.principal, Employee) && Employee in [Admin, Manager, Employee];
    }
    assert RunGate(w, req, View.chain[1]) == Refuse(Forbidden, ReadUp);
    assert Bind(View, req) == req;
    FirstRefusalAnswers(w, req, View.chain, 1);
  }
}
