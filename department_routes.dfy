/** routes/departmentRoutes.js, mounted at /departments. Departments carry no label, so the
    attribute gate puts them in its 'Department' tier (Admin, Manager); the one MAC gate here
    reads the employee profile keyed by the department's id. */
module DepartmentRoutes {
  import opened Common
  import opened Records
  import opened Rbac
  import opened Mac
  import opened Abac
  import opened Pipeline

  const List := Route("GET", "/", false, [RoleGate([Admin, Manager, Employee]), AbacGate("Department", "viewDepartments")])
  const View := Route("GET", "/:id", true,
    [RoleGate([Admin, Manager]), AbacGate("Department", "viewDepartment"), MacGate("view")])
  const Create := Route("POST", "/", false, [RoleGate([Admin]), AbacGate("Department", "createDepartment")])
  const Update := Route("PUT", "/:id", true, [RoleGate([Admin]), AbacGate("Department", "updateDepartment")])
  const Delete := Route("DELETE", "/:id", true, [RoleGate([Admin]), AbacGate("Department", "deleteDepartment")])

  /** Listing is a role check; so is creating. */
  lemma ListAndCreateAreRoleChecks(w: World, req: Request)
    ensures RunRoute(w, List, req) == AuthorizeRoles([Admin, Manager, Employee], req.principal)
    ensures RunRoute(w, Create, req) == AuthorizeRoles([Admin], req.principal)
  {
    Chain2(w, Bind(List, req), List.chain[0], List.chain[1]);
    Chain2(w, Bind(Create, req), Create.chain[0], Create.chain[1]);
  }

  /** An Admin updates or deletes exactly the departments that exist; others are a 404 (the
      path always supplies an `id`). */
  lemma AdminUpdateDelete(w: World, req: Request)
    requires HasRole(req.principal, Admin) && req.id.Some?
    ensures FindDepartment(w.departments, req.id).Some? ==> RunRoute(w, Update, req) == Pass && RunRoute(w, Delete, req) == Pass
    ensures FindDepartment(w.departments, req.id).None? ==>
      RunRoute(w, Update, req) == Refuse(NotFound, DepartmentNotFound)
      && RunRoute(w, Delete, req) == Refuse(NotFound, DepartmentNotFound)
  {
    assert Admin in [Admin];
    assert AuthorizeRoles([Admin], req.principal) == Pass;
    AdminDepartmentChain(w, req, "updateDepartment");
    AdminDepartmentChain(w, req, "deleteDepartment");
  }

  lemma AdminDepartmentChain(w: World, req: Request, action: string)
    requires HasRole(req.principal, Admin) && req.id.Some?
    requires AuthorizeRoles([Admin], req.principal) == Pass
    ensures FindDepartment(w.departments, req.id).Some? ==> RunChain(w, req, [RoleGate([Admin]), AbacGate("Department", action)]) == Pass
    ensures FindDepartment(w.departments, req.id).None? ==>
      RunChain(w, req, [RoleGate([Admin]), AbacGate("Department", action)]) == Refuse(NotFound, DepartmentNotFound)
  {
    var found := Load(w, "Department", req.id);
    var gate := AbacGate("Department", action);
    if FindDepartment(w.departments, req.id).Some? {
      assert found == Some(Attrs(None, None, None));
      AdminPassesEveryTier(req.principal, DepartmentTier);
      assert RunGate(w, req, gate) == Pass;
    } else {
      assert found.None?;
      assert RunGate(w, req, gate) == Refuse(NotFound, DepartmentNotFound);
    }
    Chain2(w, req, RoleGate([Admin]), gate);
  }

  /** Viewing one department: an existing department passes the attribute gate for Admins and
      Managers alike, and then MAC needs an employee profile whose key equals the department's
      id; without one, the answer is 403. */
  lemma ViewNeedsProfileWithSameKey(w: World, req: Request)
    requires HasRole(req.principal, Admin) || HasRole(req.principal, Manager)
    requires FindDepartment(w.departments, req.id).Some? && FindProfile(w.profiles, req.id).None?
    ensures RunRoute(w, View, req) == Refuse(Forbidden, ResourceNotFound)
  {
    var p := req.principal;
    var names := NormaliseRoles(p.roles);
    assert RunGate(w, req, View.chain[0]) == Pass by {
      if HasRole(p, Admin) {
        assert Admin in [Admin, Manager];
      } else {
        assert Manager in [Admin, Manager];
      }
    }
    assert RunGate(w, req, View.chain[1]) == Pass by {
      assert Load(w, "Department", req.id) == Some(Attrs(None, None, None));
      if HasRole(p, Admin) {
        AdminPassesEveryTier(p, DepartmentTier);
      } else {
        var i :| 0 <= i < |p.roles| && p.roles[i] == RoleName(Manager);
        assert names[i] == Manager;
        assert Manager in AccessList(DepartmentTier);
      }
    }
    assert RunGate(w, req, View.chain[2]) == Refuse(Forbidden, ResourceNotFound);
    Chain3(w, req, View.chain[0], View.chain[1], View.chain[2]);
  }
}
