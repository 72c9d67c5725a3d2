/** routes/salaryRoutes.js (not mounted by `server.js`). Every route runs MAC and then the
    attribute gate with the type 'SalaryRecord', which that gate does not know. */
module SalaryRoutes {
  import opened Common
  import opened Records
  import opened Rbac
  import opened Mac
  import opened Pipeline

  const List := Route("GET", "/", false,
    [RoleGate([Admin, Manager]), MacGate("view"), AbacGate("SalaryRecord", "view"), RulesGate("viewAllSalaries")])
  const View := Route("GET", "/:id", true,
    [RoleGate([Admin, Manager, Employee]), MacGate("view"), AbacGate("SalaryRecord", "view"), RulesGate("viewSalary")])
  const Create := Route("POST", "/", false,
    [RoleGate([Admin]), MacGate("create"), AbacGate("SalaryRecord", "create"), RulesGate("createSalary")])
  const Update := Route("PUT", "/:id", true,
    [RoleGate([Admin]), MacGate("update"), AbacGate("SalaryRecord", "update"), RulesGate("updateSalary")])
  const Delete := Route("DELETE", "/:id", true,
    [RoleGate([Admin]), MacGate("delete"), AbacGate("SalaryRecord", "delete"), RulesGate("deleteSalary")])

  /** The list route has no `:id`, so MAC finds no profile and refuses even an Admin. */
  lemma ListRefusedByMac(w: World, req: Request)
    requires AuthorizeRoles([Admin, Manager], req.principal) == Pass
    ensures RunRoute(w, List, req) == Refuse(Forbidden, ResourceNotFound)
  {
    Chain4(w, Bind(List, req), List.chain[0], List.chain[1], List.chain[2], List.chain[3]);
  }

  /** No salary route ever reaches its controller. */
  lemma NoRoutePasses(w: World, req: Request)
    ensures RunRoute(w, List, req).Refuse?
    ensures RunRoute(w, View, req).Refuse?
    ensures RunRoute(w, Create, req).Refuse?
    ensures RunRoute(w, Update, req).Refuse?
    ensures RunRoute(w, Delete, req).Refuse?
  {
    UnknownTypeRefuses(w, Bind(List, req), List.chain, 2);
    UnknownTypeRefuses(w, Bind(View, req), View.chain, 2);
    UnknownTypeRefuses(w, Bind(Create, req), Create.chain, 2);
    UnknownTypeRefuses(w, Bind(Update, req), Update.chain, 2);
    UnknownTypeRefuses(w, Bind(Delete, req), Delete.chain, 2);
  }
}
