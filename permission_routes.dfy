/** routes/documentPermissionRoutes.js (not mounted by `server.js`): both routes are Admin-only;
    the ownership check is the controller's. */
module PermissionRoutes {
  import opened Common
  import opened Rbac
  import opened Pipeline

  const GrantRoute := Route("POST", "/grant", false, [RoleGate([Admin])])
  const RevokeRoute := Route("POST", "/revoke", false, [RoleGate([Admin])])

  lemma AdminOnly(w: World, req: Request)
    ensures RunRoute(w, GrantRoute, req) == Pass <==> HasRole(req.principal, Admin)
    ensures RunRoute(w, RevokeRoute, req) == Pass <==> HasRole(req.principal, Admin)
  {
    Chain1(w, Bind(GrantRoute, req), GrantRoute.chain[0]);
    Chain1(w, Bind(RevokeRoute, req), RevokeRoute.chain[0]);
    if HasRole(req.principal, Admin) {
      assert Admin in [Admin];
    }
  }
}
