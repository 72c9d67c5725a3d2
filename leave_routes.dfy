/** routes/leaveRequestRoutes.js. The attribute gate on four of its five routes names the type
    'LeaveRequest', which that gate does not know; and `server.js` does not mount this router. */
module LeaveRoutes {
  import opened Common
  import opened Records
  import opened Rbac
  import opened Abac
  import opened Rules
  import opened Pipeline

  const HR := "HR"

  const List := Route("GET", "/", false,
    [RoleGate([Manager, HR, Admin]), AbacGate("LeaveRequest", "view"), RulesGate("viewLeaveRequest")])
  const View := Route("GET", "/:id", true,
    [RoleGate([Employee, Manager, HR, Admin]), AbacGate("LeaveRequest", "view"), RulesGate("viewLeaveRequest")])
  const Create := Route("POST", "/", false,
    [RoleGate([Employee]), AbacGate("LeaveRequest", "create"), RulesGate("createLeaveRequest")])
  const Approve := Route("PUT", "/:id/approve", true,
    [RoleGate([Manager, HR]), MacGate("update"), AbacGate("LeaveRequest", "approve"), RulesGate("approveLeave")])
  const Delete := Route("DELETE", "/:id", true, [RoleGate([Admin]), RulesGate("deleteLeaveRequest")])

  /** No request ever reaches list, view, create or approve: a principal the role gate lets
      through is answered 400 by the attribute gate (or, on approve, refused earlier by MAC). In
      particular the leave-length rule of `approveLeave` is never consulted through this router. */
  lemma AttributeGatedRoutesNeverPass(w: World, req: Request)
    ensures RunRoute(w, List, req).Refuse?
    ensures RunRoute(w, View, req).Refuse?
    ensures RunRoute(w, Create, req).Refuse?
    ensures RunRoute(w, Approve, req).Refuse?
    ensures AuthorizeRoles([Employee, Manager, HR, Admin], req.principal) == Pass ==>
      RunRoute(w, View, req) == Refuse(BadRequest, UnknownResourceType)
  {
    UnknownTypeRefuses(w, Bind(List, req), List.chain, 1);
    UnknownTypeRefuses(w, req, View.chain, 1);
    UnknownTypeRefuses(w, Bind(Create, req), Create.chain, 1);
    UnknownTypeRefuses(w, req, Approve.chain, 2);
    if AuthorizeRoles([Employee, Manager, HR, Admin], req.principal) == Pass {
      FirstRefusalAnswers(w, req, View.chain, 1);
    }
  }

  /** Deleting is Admin-only, then the rules for `deleteLeaveRequest`. */
  lemma DeleteDecision(w: World, req: Request)
    ensures RunRoute(w, Delete, req) == Pass <==>
      HasRole(req.principal, Admin)
      && EnforceRules("deleteLeaveRequest", w.policies, req.principal, req.context, FindLeave(w.leaves, req.id)) == Pass
  {
    Chain2(w, req, Delete.chain[0], Delete.chain[1]);
    if HasRole(req.principal, Admin) {
      assert Admin in [Admin];
    }
  }
}
