/** The discretionary gate `enforceDAC(action)` (middleware/dacMiddleware.js): the document's
    owner passes outright; anyone else needs the view or edit bit on the first grant row for
    (document, user). `doc` is the lookup of the route's `id`, `grants` the grant table. */
module Dac {
  import opened Common
  import opened Records

  /** The bit the action needs on a grant row: `view` needs can_view, `edit` and `delete` both
      need can_edit, and no other action is ever allowed by a grant. */
  predicate GrantAllows(action: string, g: Grant) {
    || (action == "view" && g.canView)
    || ((action == "edit" || action == "delete") && g.canEdit)
  }

  function EnforceDac(action: string, p: Principal, doc: Option<Document>, grants: seq<Grant>): (v: Verdict)
    ensures doc.None? ==> v == Refuse(NotFound, DocumentNotFound)
    ensures doc.Some? && doc.value.ownerId == p.id ==> v == Pass
    ensures doc.Some? && doc.value.ownerId != p.id && GrantFor(grants, doc.value.id, p.id).None? ==>
      v == Refuse(Forbidden, NoPermission)
    ensures v == Pass <==>
      doc.Some? && (doc.value.ownerId == p.id ||
        (GrantFor(grants, doc.value.id, p.id).Some? && GrantAllows(action, GrantFor(grants, doc.value.id, p.id).value)))
    ensures v == Pass || v.status == NotFound || v.status == Forbidden
  {
    if doc.None? then Refuse(NotFound, DocumentNotFound)
    else if doc.value.ownerId == p.id then Pass
    else
      match GrantFor(grants, doc.value.id, p.id)
      case None => Refuse(Forbidden, NoPermission)
      case Some(g) =>
        if action == "view" && g.canView then Pass
        else if (action == "edit" || action == "delete") && g.canEdit then Pass
        else Refuse(Forbidden, ActionNotPermitted)
  }

  /** The owner passes every action with no grant row at all. */
  lemma OwnerNeedsNoGrant(action: string, p: Principal, d: Document)
    requires d.ownerId == p.id
    ensures EnforceDac(action, p, Some(d), []) == Pass
  {
  }

  /** A view-only grant allows `view` and refuses `edit` and `delete`. */
  lemma ViewOnlyGrant(p: Principal, d: Document, grantedBy: int)
    requires d.ownerId != p.id
    ensures var grants := [Grant(d.id, p.id, true, false, grantedBy)];
      && EnforceDac("view", p, Some(d), grants) == Pass
      && EnforceDac("edit", p, Some(d), grants) == Refuse(Forbidden, ActionNotPermitted)
      && EnforceDac("delete", p, Some(d), grants) == Refuse(Forbidden, ActionNotPermitted)
  {
    var grants := [Grant(d.id, p.id, true, false, grantedBy)];
    assert GrantFor(grants, d.id, p.id) == Some(grants[0]);
  }

  /** `delete` has no bit of its own: it always decides exactly as `edit` does. */
  lemma DeleteIsEdit(p: Principal, doc: Option<Document>, grants: seq<Grant>)
    ensures EnforceDac("delete", p, doc, grants) == EnforceDac("edit", p, doc, grants)
  {
  }

  /** An action other than view, edit and delete refuses every non-owner, whatever the bits. */
  lemma OtherActionsRefused(action: string, p: Principal, d: Document, grants: seq<Grant>)
    requires action != "view" && action != "edit" && action != "delete"
    requires d.ownerId != p.id
    ensures EnforceDac(action, p, Some(d), grants).Refuse?
  {
  }

  /** Only the first row for (document, user) is consulted: once one exists, rows granted later
      (an upgrade to edit, say) change nothing. */
  lemma LaterGrantsIgnored(action: string, p: Principal, d: Document, grants: seq<Grant>, later: seq<Grant>)
    requires GrantFor(grants, d.id, p.id).Some?
    ensures EnforceDac(action, p, Some(d), grants + later) == EnforceDac(action, p, Some(d), grants)
  {
    GrantForAppend(grants, later, d.id, p.id);
  }
}
