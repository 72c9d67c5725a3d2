/** routes/roleRequestRoutes.js, mounted at /role-requests. The request, approve and reject
    routes run the attribute gate with the type 'RoleChangeRequest', which that gate does not
    know; their `:requestId` parameter is not the `id` the gates read. */
module RoleRequestRoutes {
  import opened Common
  import opened Rbac
  import opened Abac
  import opened Rules
  import opened Pipeline

  const Request := Route("POST", "/request", false,
    [RoleGate([Employee, Manager]), AbacGate("RoleChangeRequest", "request"), RulesGate("requestRoleChange")])
  const Approve := Route("POST", "/approve/:requestId", false,
    [RoleGate([Admin]), AbacGate("RoleChangeRequest", "approve"), RulesGate("approveRoleChange")])
  const Reject := Route("POST", "/reject/:requestId", false,
    [RoleGate([Admin]), AbacGate("RoleChangeRequest", "reject"), RulesGate("rejectRoleChange")])
  const Pending := Route("GET", "/pending", false, [RoleGate([Admin]), RulesGate("viewPendingRoleRequests")])

  /** The role-change workflow cannot be driven through this router: whoever passes the role
      gate is answered 400. */
  lemma WorkflowUnreachable(w: World, req: Pipeline.Request)
    ensures RunRoute(w, Request, req).Refuse?
    ensures RunRoute(w, Approve, req).Refuse?
    ensures RunRoute(w, Reject, req).Refuse?
    ensures HasRole(req.principal, Admin) ==> RunRoute(w, Approve, req) == Refuse(BadRequest, UnknownResourceType)
  {
    UnknownTypeRefuses(w, Bind(Request, req), Request.chain, 1);
    UnknownTypeRefuses(w, Bind(Approve, req), Approve.chain, 1);
    UnknownTypeRefuses(w, Bind(Reject, req), Reject.chain, 1);
    if HasRole(req.principal, Admin) {
      assert Admin in [Admin];
      FirstRefusalAnswers(w, Bind(Approve, req), Approve.chain, 1);
    }
  }

  /** Only the pending list is reachable: Admin, then the rules for its action. */
  lemma PendingDecision(w: World, req: Pipeline.Request)
    ensures RunRoute(w, Pending, req) == Pass <==>
      HasRole(req.principal, Admin)
      && EnforceRules("viewPendingRoleRequests", w.policies, req.principal, req.context, None) == Pass
  {
    Chain2(w, Bind(Pending, req), Pending.chain[0], Pending.chain[1]);
    if HasRole(req.principal, Admin) {
      assert Admin in [Admin];
    }
  }
}
