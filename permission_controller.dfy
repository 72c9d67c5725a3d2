/** controllers/documentPermissionController.js: an owner grants or revokes a grant row on a
    document; both routes also demand the Admin role. */
module PermissionController {
  import opened Common
  import opened Records
  import opened Tables
  import opened Dac
  import opened Pipeline
  import PermissionRoutes
  import DocumentController

  /** The request body of both handlers; absent fields are None. */
  datatype PermissionBody = PermissionBody(documentId: Option<int>, userId: Option<int>, canView: Option<bool>, canEdit: Option<bool>)

  // ---------------------------------------------------------------------------------------
  // grantPermission

  /** `grantPermission`: 404, then only the owner; the row takes the model defaults (view on,
      edit off) for absent bits and records the owner as grantor. The insert fails, and the
      handler answers 500, when `user_id` is missing (not null), names no user (the foreign key
      to users) or names a user the document is already granted to (the table's key). */
  function GrantOutcome(p: Principal, docs: seq<Document>, users: seq<UserRecord>, grants: seq<Grant>, body: PermissionBody): (r: Outcome<Grant>)
    ensures FindDocument(docs, body.documentId).None? ==> r == Failed(NotFound, DocumentNotFound)
    ensures FindDocument(docs, body.documentId).Some? && FindDocument(docs, body.documentId).value.ownerId != p.id ==>
      r == Failed(Forbidden, NotOwner)
    ensures r.Done? <==>
      && FindDocument(docs, body.documentId).Some? && FindDocument(docs, body.documentId).value.ownerId == p.id
      && FindUser(users, body.userId).Some?
      && GrantFor(grants, body.documentId.value, body.userId.value).None?
    ensures FindDocument(docs, body.documentId).Some? && FindDocument(docs, body.documentId).value.ownerId == p.id && r.Failed? ==>
      r == Failed(InternalError, ServerError)
    ensures r.Done? ==>
      r.value == Grant(body.documentId.value, body.userId.value, body.canView.GetOr(true), body.canEdit.GetOr(false), p.id)
  {
    match FindDocument(docs, body.documentId)
    case None => Failed(NotFound, DocumentNotFound)
    case Some(d) =>
      if d.ownerId != p.id then Failed(Forbidden, NotOwner)
      else if FindUser(users, body.userId).None? then Failed(InternalError, ServerError)
      else if GrantFor(grants, body.documentId.value, body.userId.value).Some? then Failed(InternalError, ServerError)
      else Done(Grant(body.documentId.value, body.userId.value, body.canView.GetOr(true), body.canEdit.GetOr(false), p.id))
  }

  /** Together with its route, a grant succeeds only for an Admin who owns the document. */
  lemma GrantNeedsAdminOwner(w: World, req: Request, body: PermissionBody)
    requires RunRoute(w, PermissionRoutes.GrantRoute, req) == Pass
    requires GrantOutcome(req.principal, w.documents, w.users, w.grants, body).Done?
    ensures HasRole(req.principal, Admin)
    ensures FindDocument(w.documents, body.documentId).value.ownerId == req.principal.id
  {
    PermissionRoutes.AdminOnly(w, req);
  }

  /** A second grant for a pair that already has a row cannot change its bits: the owner's
      request to add edit on top of a view-only row is answered 500, and the row stays. */
  lemma RegrantIneffective(p: Principal, docs: seq<Document>, users: seq<UserRecord>, grants: seq<Grant>, body: PermissionBody)
    requires FindDocument(docs, body.documentId).Some? && FindDocument(docs, body.documentId).value.ownerId == p.id
    requires body.userId.Some? && GrantFor(grants, body.documentId.value, body.userId.value).Some?
    ensures GrantOutcome(p, docs, users, grants, body) == Failed(InternalError, ServerError)
  {
  }

  /** A first grant for a pair decides by its own bits. */
  lemma FirstGrantDecides(grants: seq<Grant>, g: Grant, q: Principal, d: Document)
    requires GrantFor(grants, g.resourceId, g.userId).None?
    requires d.id == g.resourceId && q.id == g.userId && d.ownerId != q.id
    ensures EnforceDac("view", q, Some(d), grants + [g]) == Pass <==> g.canView
    ensures EnforceDac("edit", q, Some(d), grants + [g]) == Pass <==> g.canEdit
  {
    var m := (x: Grant) => GrantOf(x, d.id, q.id);
    FirstIndexSkip(grants, [g], m);
    assert FindFirst([g], m) == Some(g);
  }

  // ---------------------------------------------------------------------------------------
  // revokePermission

  /** `revokePermission`: 404, then only the owner; the answer carries the number of rows
      destroyed. A missing `user_id` makes the `destroy` query invalid and the handler answers
      500. */
  function RevokeOutcome(p: Principal, docs: seq<Document>, grants: seq<Grant>, body: PermissionBody): (r: Outcome<nat>)
    ensures FindDocument(docs, body.documentId).None? ==> r == Failed(NotFound, DocumentNotFound)
    ensures FindDocument(docs, body.documentId).Some? && FindDocument(docs, body.documentId).value.ownerId != p.id ==>
      r == Failed(Forbidden, NotOwner)
    ensures r.Done? <==>
      FindDocument(docs, body.documentId).Some? && FindDocument(docs, body.documentId).value.ownerId == p.id && body.userId.Some?
    ensures r.Done? ==> r.value <= |grants|
    ensures r.Done? ==> (r.value == 0 <==> GrantFor(grants, body.documentId.value, body.userId.value).None?)
  {
    match FindDocument(docs, body.documentId)
    case None => Failed(NotFound, DocumentNotFound)
    case Some(d) =>
      if d.ownerId != p.id then Failed(Forbidden, NotOwner)
      else if body.userId.None? then Failed(InternalError, ServerError)
      else
        var gone := Filter(grants, (g: Grant) => GrantOf(g, body.documentId.value, body.userId.value));
        assert gone == [] <==> forall g :: g in grants ==> !GrantOf(g, body.documentId.value, body.userId.value) by {
          if gone != [] {
            assert gone[0] in gone;
          }
        }
        Done(|gone|)
  }

  /** After a revoke the pair has no row left, so the grant gate refuses that user (unless they
      own the document), and every other pair keeps the row it had. */
  lemma RevokeRemovesAccess(grants: seq<Grant>, docId: int, userId: int, d: Document, q: Principal, action: string,
                            otherDoc: int, otherUser: int)
    requires d.id == docId && q.id == userId && d.ownerId != q.id
    ensures var left := Filter(grants, (g: Grant) => !GrantOf(g, docId, userId));
      && EnforceDac(action, q, Some(d), left) == Refuse(Forbidden, NoPermission)
      && ((otherDoc, otherUser) != (docId, userId) ==>
            GrantFor(left, otherDoc, otherUser) == GrantFor(grants, otherDoc, otherUser))
  {
    if (otherDoc, otherUser) != (docId, userId) {
      FindFirstFilter(grants, (g: Grant) => !GrantOf(g, docId, userId), (g: Grant) => GrantOf(g, otherDoc, otherUser));
    }
  }

  /** With the table's key on (document, user), a pair has at most one row to revoke. */
  lemma AtMostOneRow(grants: seq<Grant>, docId: int, userId: int)
    requires UniqueKeys(grants, PairOf)
    ensures |Filter(grants, (g: Grant) => GrantOf(g, docId, userId))| <= 1
  {
    var gone := Filter(grants, (g: Grant) => GrantOf(g, docId, userId));
    FilterKeepsUnique(grants, (g: Grant) => GrantOf(g, docId, userId), PairOf);
    FirstTwoDiffer(gone, PairOf);
  }

  // ---------------------------------------------------------------------------------------
  // The handlers on the tables

  /** `grantPermission` on the store: on success one row is appended, and the table keeps at
      most one row per (document, user). */
  method GrantPermission(store: DocumentController.DocumentStore, users: seq<UserRecord>, p: Principal, body: PermissionBody)
    returns (r: Outcome<Grant>)
    requires store.Valid()
    modifies store
    ensures store.Valid()
    ensures store.documents == old(store.documents) && store.nextId == old(store.nextId)
    ensures r == GrantOutcome(p, old(store.documents), users, old(store.grants), body)
    ensures store.grants == if r.Done? then old(store.grants) + [r.value] else old(store.grants)
  {
    r := GrantOutcome(p, store.documents, users, store.grants, body);
    if r.Done? {
      assert forall y :: y in store.grants ==> PairOf(y) != PairOf(r.value);
      AppendNewKey(store.grants, r.value, PairOf);
      store.grants := store.grants + [r.value];
    }
  }

  /** `revokePermission` on the store: on success every row of the pair is destroyed, and the
      count in the answer is the number of rows that went. */
  method RevokePermission(store: DocumentController.DocumentStore, p: Principal, body: PermissionBody) returns (r: Outcome<nat>)
    requires store.Valid()
    modifies store
    ensures store.Valid()
    ensures store.documents == old(store.documents) && store.nextId == old(store.nextId)
    ensures r == RevokeOutcome(p, old(store.documents), old(store.grants), body)
    ensures r.Failed? ==> store.grants == old(store.grants)
    ensures r.Done? ==>
      && store.grants == Filter(old(store.grants), (g: Grant) => !GrantOf(g, body.documentId.value, body.userId.value))
      && |store.grants| + r.value == |old(store.grants)|
      && r.value <= 1
  {
    r := RevokeOutcome(p, store.documents, store.grants, body);
    if r.Done? {
      var docId := body.documentId.value;
      var userId := body.userId.value;
      FilterPartition(store.grants, (g: Grant) => GrantOf(g, docId, userId), (g: Grant) => !GrantOf(g, docId, userId));
      FilterKeepsUnique(store.grants, (g: Grant) => !GrantOf(g, docId, userId), PairOf);
      AtMostOneRow(store.grants, docId, userId);
      store.grants := Filter(store.grants, (g: Grant) => !GrantOf(g, docId, userId));
    }
  }
}
