/** routes/employeeProfileRoutes.js, mounted at both /profiles and /employee-profiles. The
    role, MAC and attribute gates of the two read routes are commented out in the source; the
    controller's own checks are all that remain there. */
module ProfileRoutes {
  import opened Common
  import opened Records
  import opened Rbac
  import opened Mac
  import opened Abac
  import opened Pipeline

  const View := Route("GET", "/:id", true, [])
  const List := Route("GET", "/", false, [])
  const Create := Route("POST", "/", false, [RoleGate([Admin])])
  const Update := Route("PUT", "/:id", true,
    [RoleGate([Admin]), MacGate("update"), AbacGate("EmployeeProfile", "update")])
  const Delete := Route("DELETE", "/:id", true, [RoleGate([Admin])])

  /** Both read routes reach the controller for every authenticated request, roles or none. */
  lemma ReadsUngated(w: World, req: Request)
    ensures RunRoute(w, View, req) == Pass
    ensures RunRoute(w, List, req) == Pass
  {
  }

  /** Create and delete are Admin-only. */
  lemma WritesAdminOnly(w: World, req: Request)
    ensures RunRoute(w, Create, req) == Pass <==> HasRole(req.principal, Admin)
    ensures RunRoute(w, Delete, req) == Pass <==> HasRole(req.principal, Admin)
  {
    Chain1(w, Bind(Create, req), Create.chain[0]);
    Chain1(w, req, Delete.chain[0]);
    if HasRole(req.principal, Admin) {
      assert Admin in [Admin];
    }
  }

  /** An Admin that holds no Employee role updates any profile that exists; a missing profile
      is refused by MAC with 403, before the attribute gate's 404. */
  lemma AdminUpdate(w: World, req: Request)
    requires HasRole(req.principal, Admin)
    requires forall e :: e in req.principal.roles ==> e.name != Employee
    ensures FindProfile(w.profiles, req.id).Some? ==> RunRoute(w, Update, req) == Pass
    ensures FindProfile(w.profiles, req.id).None? ==> RunRoute(w, Update, req) == Refuse(Forbidden, ResourceNotFound)
  {
    var p := req.principal;
    assert RunGate(w, req, Update.chain[0]) == Pass by {
      assert Admin in [Admin];
    }
    var found := Load(w, "EmployeeProfile", req.id);
    if found.Some? {
      assert RunGate(w, req, Update.chain[1]) == Pass;
      assert RunGate(w, req, Update.chain[2]) == Pass by {
        AdminPassesEveryTier(p, TierOf("EmployeeProfile", found.value));
        assert Employee !in NormaliseRoles(p.roles) by {
          forall i | 0 <= i < |p.roles| ensures NormaliseRoles(p.roles)[i] != Employee {
            assert p.roles[i] in p.roles;
          }
        }
      }
      Chain3(w, req, Update.chain[0], Update.chain[1], Update.chain[2]);
    } else {
      assert RunGate(w, req, Update.chain[1]) == Refuse(Forbidden, ResourceNotFound);
      FirstRefusalAnswers(w, req, Update.chain, 1);
    }
  }
}
