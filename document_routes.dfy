/** routes/documentRoutes.js, mounted at /documents: the gate chain of each route, and what
    the chains decide once composed. */
module DocumentRoutes {
  import opened Common
  import opened Records
  import opened Rbac
  import opened Dac
  import opened Abac
  import opened Pipeline

  const Everyone: seq<string> := [Employee, Manager, Admin]

  const List := Route("GET", "/", false, [RoleGate(Everyone), AbacGate("Document", "view")])
  const View := Route("GET", "/:id", true, [RoleGate(Everyone), DacGate("view"), AbacGate("Document", "view")])
  const Create := Route("POST", "/", false, [RoleGate(Everyone)])
  const Update := Route("PUT", "/:id", true, [RoleGate([Admin]), DacGate("edit"), AbacGate("Document", "update")])
  const Delete := Route("DELETE", "/:id", true, [RoleGate(Everyone), DacGate("delete"), AbacGate("Document", "delete")])

  /** The list route has no `:id`, so its attribute gate steps aside: only the role decides. */
  lemma ListIsRoleCheck(w: World, req: Request)
    ensures RunRoute(w, List, req) == AuthorizeRoles(Everyone, req.principal)
  {
    Chain2(w, Bind(List, req), List.chain[0], List.chain[1]);
  }

  /** An owner holding one of the three roles reaches the controller on view and delete, with
      no grant row at all and whatever the document's tier. */
  lemma OwnerPassesGates(w: World, req: Request, d: Document)
    requires FindDocument(w.documents, req.id) == Some(d) && d.ownerId == req.principal.id
    requires AuthorizeRoles(Everyone, req.principal) == Pass
    ensures RunRoute(w, View, req) == Pass
    ensures RunRoute(w, Delete, req) == Pass
  {
    OwnerPassesChain(w, req, d, "view", "view");
    OwnerPassesChain(w, req, d, "delete", "delete");
  }

  lemma OwnerPassesChain(w: World, req: Request, d: Document, dac: string, abac: string)
    requires FindDocument(w.documents, req.id) == Some(d) && d.ownerId == req.principal.id
    requires AuthorizeRoles(Everyone, req.principal) == Pass
    ensures RunChain(w, req, [RoleGate(Everyone), DacGate(dac), AbacGate("Document", abac)]) == Pass
  {
    assert RunGate(w, req, DacGate(dac)) == Pass;
    assert RunGate(w, req, AbacGate("Document", abac)) == Pass by {
      assert Load(w, "Document", req.id) == Some(Attrs(Some(d.ownerId), None, None));
    }
    Chain3(w, req, RoleGate(Everyone), DacGate(dac), AbacGate("Document", abac));
  }

  /** For anyone but the owner, viewing takes a role, a first grant row with the view bit, and
      a Manager or Admin name among the roles (documents carry no label, so they are Internal to
      the attribute gate). */
  lemma NonOwnerView(w: World, req: Request, d: Document)
    requires FindDocument(w.documents, req.id) == Some(d) && d.ownerId != req.principal.id
    ensures RunRoute(w, View, req) == Pass <==>
      && AuthorizeRoles(Everyone, req.principal) == Pass
      && GrantFor(w.grants, d.id, req.principal.id).Some?
      && GrantFor(w.grants, d.id, req.principal.id).value.canView
      && (Manager in NormaliseRoles(req.principal.roles) || Admin in NormaliseRoles(req.principal.roles))
  {
    var p := req.principal;
    var names := NormaliseRoles(p.roles);
    var a := Attrs(Some(d.ownerId), None, None);
    Chain3(w, req, View.chain[0], View.chain[1], View.chain[2]);
    assert Load(w, "Document", req.id) == Some(a);
    assert SensitivityAllows(p, Labelled(Internal)) <==> (Manager in names || Admin in names) by {
      if Manager in names {
        assert Manager in AccessList(Labelled(Internal));
      } else if Admin in names {
        assert Admin in AccessList(Labelled(Internal));
      }
    }
  }

  /** So sharing a document with a plain Employee gives them nothing: with a view grant in hand
      they pass the grant check and are then refused by the attribute gate. */
  lemma SharingWithEmployeeGivesNothing(w: World, req: Request, d: Document)
    requires FindDocument(w.documents, req.id) == Some(d) && d.ownerId != req.principal.id
    requires req.principal.roles == [RoleName(Employee)]
    requires GrantFor(w.grants, d.id, req.principal.id).Some? && GrantFor(w.grants, d.id, req.principal.id).value.canView
    ensures RunChain(w, req, View.chain[..2]) == Pass
    ensures RunRoute(w, View, req) == Refuse(Forbidden, SensitivityDenied)
  {
    var p := req.principal;
    assert RunGate(w, req, View.chain[0]) == Pass by {
      assert HasRole(p, Employee) && Employee in Everyone;
    }
    assert RunGate(w, req, View.chain[1]) == Pass;
    assert RunGate(w, req, View.chain[2]) == Refuse(Forbidden, SensitivityDenied) by {
      assert Load(w, "Document", req.id) == Some(Attrs(Some(d.ownerId), None, None));
      assert NormaliseRoles(p.roles) == [Employee];
      assert !SensitivityAllows(p, Labelled(Internal));
    }
    Chain3(w, req, View.chain[0], View.chain[1], View.chain[2]);
    Chain2(w, req, View.chain[0], View.chain[1]);
    assert View.chain[..2] == [View.chain[0], View.chain[1]];
  }

  /** Editing is Admin-only by role, and an Admin who does not own the document still needs a
      grant row: without one the grant check refuses. */
  lemma AdminUpdateNeedsGrant(w: World, req: Request, d: Document)
    requires HasRole(req.principal, Admin)
    requires FindDocument(w.documents, req.id) == Some(d) && d.ownerId != req.principal.id
    requires GrantFor(w.grants, d.id, req.principal.id).None?
    ensures RunRoute(w, Update, req) == Refuse(Forbidden, NoPermission)
  {
    assert Admin in [Admin];
    Chain3(w, req, Update.chain[0], Update.chain[1], Update.chain[2]);
  }

  /** An id naming no document is a 404 from the grant check on every route that has one, for
      every principal the route's role gate admits: any Employee, Manager or Admin on view and
      delete, an Admin on update. */
  lemma MissingDocument(w: World, req: Request)
    requires FindDocument(w.documents, req.id).None?
    ensures AuthorizeRoles(Everyone, req.principal) == Pass ==>
      && RunRoute(w, View, req) == Refuse(NotFound, DocumentNotFound)
      && RunRoute(w, Delete, req) == Refuse(NotFound, DocumentNotFound)
    ensures AuthorizeRoles([Admin], req.principal) == Pass ==> RunRoute(w, Update, req) == Refuse(NotFound, DocumentNotFound)
  {
    if AuthorizeRoles(Everyone, req.principal) == Pass {
      assert RunGate(w, req, View.chain[0]) == Pass;
      FirstRefusalAnswers(w, req, View.chain, 1);
      assert RunGate(w, req, Delete.chain[0]) == Pass;
      FirstRefusalAnswers(w, req, Delete.chain, 1);
    }
    if AuthorizeRoles([Admin], req.principal) == Pass {
      assert RunGate(w, req, Update.chain[0]) == Pass;
      FirstRefusalAnswers(w, req, Update.chain, 1);
    }
  }
}
