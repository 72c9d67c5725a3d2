/** routes/roleRoutes.js, mounted at /roles. None of its paths declares `:id`, so the attribute
    gate on them always steps aside. */
module RoleRoutes {
  import opened Common
  import opened Rbac
  import opened Rules
  import opened Pipeline

  const Assign := Route("POST", "/assign", false, [RoleGate([Admin]), AbacGate("Role", "assign"), RulesGate("assignRole")])
  const Remove := Route("POST", "/remove", false, [RoleGate([Admin]), AbacGate("Role", "remove"), RulesGate("removeRole")])
  const UsersWithRoles := Route("GET", "/users-with-roles", false, [RoleGate([Admin])])
  const UserRoles := Route("GET", "/:userId", false,
    [RoleGate([Admin, Manager]), AbacGate("Role", "view"), RulesGate("viewUserRoles")])

  /** Every role route is decided by its role list and its rules only. */
  lemma AttributeGateInert(w: World, req: Request)
    ensures RunRoute(w, Assign, req) == Then(AuthorizeRoles([Admin], req.principal),
      EnforceRules("assignRole", w.policies, req.principal, req.context, None))
    ensures RunRoute(w, Remove, req) == Then(AuthorizeRoles([Admin], req.principal),
      EnforceRules("removeRole", w.policies, req.principal, req.context, None))
    ensures RunRoute(w, UserRoles, req) == Then(AuthorizeRoles([Admin, Manager], req.principal),
      EnforceRules("viewUserRoles", w.policies, req.principal, req.context, None))
  {
    var r := req.(id := None);
    RoleRulesChain(w, r, [Admin], "assign", "assignRole");
    RoleRulesChain(w, r, [Admin], "remove", "removeRole");
    RoleRulesChain(w, r, [Admin, Manager], "view", "viewUserRoles");
  }

  /** A role-gate, attribute-gate, rule-gate chain without an `id`. */
  lemma RoleRulesChain(w: World, req: Request, allowed: seq<string>, action: string, rule: string)
    requires req.id.None?
    ensures RunChain(w, req, [RoleGate(allowed), AbacGate("Role", action), RulesGate(rule)]) ==
      Then(AuthorizeRoles(allowed, req.principal), EnforceRules(rule, w.policies, req.principal, req.context, None))
  {
    assert RunGate(w, req, AbacGate("Role", action)) == Pass;
    Chain3(w, req, RoleGate(allowed), AbacGate("Role", action), RulesGate(rule));
  }
}
