/** controllers/documentController.js: the document list and by-id read, and the create,
    update and delete handlers on the documents and document_permissions tables. */
module DocumentController {
  import opened Common
  import opened Records
  import opened Tables
  import opened Rbac
  import opened Dac
  import opened SharedWith
  import opened Pipeline
  import DocumentRoutes

  // ---------------------------------------------------------------------------------------
  // getAllDocuments

  /** The filter of the list handler: the owner, or a first grant row for (document, user)
      whose view bit is set. */
  predicate Visible(p: Principal, d: Document, grants: seq<Grant>) {
    d.ownerId == p.id || (GrantFor(grants, d.id, p.id).Some? && GrantFor(grants, d.id, p.id).value.canView)
  }

  /** `getAllDocuments`: the documents the principal may see, in table order. */
  function VisibleDocuments(p: Principal, docs: seq<Document>, grants: seq<Grant>): (r: seq<Document>)
    ensures forall d :: d in r <==> d in docs && Visible(p, d, grants)
    ensures |r| <= |docs|
  {
    Filter(docs, (d: Document) => Visible(p, d, grants))
  }

  /** The list shows exactly the documents the grant gate would let the principal view. */
  lemma ListAgreesWithViewGate(p: Principal, docs: seq<Document>, grants: seq<Grant>, d: Document)
    ensures d in VisibleDocuments(p, docs, grants) <==> d in docs && EnforceDac("view", p, Some(d), grants) == Pass
  {
  }

  /** A document added to the table comes last in the list, when it is visible at all. */
  lemma NewDocumentListedLast(p: Principal, docs: seq<Document>, grants: seq<Grant>, d: Document)
    ensures VisibleDocuments(p, docs + [d], grants) ==
      VisibleDocuments(p, docs, grants) + (if Visible(p, d, grants) then [d] else [])
  {
    var keep := (x: Document) => Visible(p, x, grants);
    FilterAppend(docs, [d], keep);
    assert [d][1..] == [];
  }

  // ---------------------------------------------------------------------------------------
  // getDocumentById

  /** `getDocumentById` as written: 404, then the view bit of the principal's first grant row.
      Unlike the list, it has no exception for the owner. */
  function GetDocumentById(p: Principal, id: Option<int>, docs: seq<Document>, grants: seq<Grant>): (r: Outcome<Document>)
    ensures FindDocument(docs, id).None? ==> r == Failed(NotFound, DocumentNotFound)
    ensures r.Done? <==>
      FindDocument(docs, id).Some?
      && GrantFor(grants, FindDocument(docs, id).value.id, p.id).Some?
      && GrantFor(grants, FindDocument(docs, id).value.id, p.id).value.canView
    ensures r.Done? ==> FindDocument(docs, id) == Some(r.value)
    ensures r.Failed? ==> r == Failed(NotFound, DocumentNotFound) || r == Failed(Forbidden, AccessDenied)
  {
    match FindDocument(docs, id)
    case None => Failed(NotFound, DocumentNotFound)
    case Some(d) =>
      match GrantFor(grants, d.id, p.id)
      case None => Failed(Forbidden, AccessDenied)
      case Some(g) => if g.canView then Done(d) else Failed(Forbidden, AccessDenied)
  }

  /** The owner of a document who holds no grant row on it is refused it by id, although the
      list shows it to them and the route's grant gate lets them through. */
  lemma OwnerWithoutGrantRefused(p: Principal, id: int, docs: seq<Document>, grants: seq<Grant>, d: Document)
    requires FindDocument(docs, Some(id)) == Some(d) && d.ownerId == p.id
    requires GrantFor(grants, d.id, p.id).None?
    ensures GetDocumentById(p, Some(id), docs, grants) == Failed(Forbidden, AccessDenied)
    ensures d in VisibleDocuments(p, docs, grants)
    ensures EnforceDac("view", p, Some(d), grants) == Pass
  {
  }

  /** `getDocumentById` with the owner exception the list handler and the grant gate both have. */
  function GetDocumentByIdFixed(p: Principal, id: Option<int>, docs: seq<Document>, grants: seq<Grant>): (r: Outcome<Document>)
    ensures FindDocument(docs, id).None? ==> r == Failed(NotFound, DocumentNotFound)
    ensures r.Done? <==> FindDocument(docs, id).Some? && Visible(p, FindDocument(docs, id).value, grants)
    ensures r.Done? ==> FindDocument(docs, id) == Some(r.value)
    ensures r.Failed? ==> r == Failed(NotFound, DocumentNotFound) || r == Failed(Forbidden, AccessDenied)
  {
    match FindDocument(docs, id)
    case None => Failed(NotFound, DocumentNotFound)
    case Some(d) =>
      if d.ownerId == p.id then Done(d)
      else
        match GrantFor(grants, d.id, p.id)
        case None => Failed(Forbidden, AccessDenied)
        case Some(g) => if g.canView then Done(d) else Failed(Forbidden, AccessDenied)
  }

  /** The corrected read returns a document exactly when the list contains it. */
  lemma FixedReadAgreesWithList(p: Principal, id: Option<int>, docs: seq<Document>, grants: seq<Grant>)
    ensures GetDocumentByIdFixed(p, id, docs, grants).Done? <==>
      FindDocument(docs, id).Some? && FindDocument(docs, id).value in VisibleDocuments(p, docs, grants)
  {
  }

  /** Every request the view route lets through is answered by the corrected read. */
  lemma ViewRouteReachesFixedRead(w: World, req: Request)
    requires RunRoute(w, DocumentRoutes.View, req) == Pass
    ensures GetDocumentByIdFixed(req.principal, req.id, w.documents, w.grants).Done?
  {
    var v := DocumentRoutes.View;
    Chain3(w, req, v.chain[0], v.chain[1], v.chain[2]);
    assert RunGate(w, req, v.chain[1]) == Pass;
  }

  /** Through the route, the written read refuses an owner without a grant row whom the gates
      let through; the corrected read answers them. */
  lemma OwnerRefusedAfterGates(w: World, req: Request, d: Document)
    requires FindDocument(w.documents, req.id) == Some(d) && d.ownerId == req.principal.id
    requires AuthorizeRoles(DocumentRoutes.Everyone, req.principal) == Pass
    requires GrantFor(w.grants, d.id, req.principal.id).None?
    ensures RunRoute(w, DocumentRoutes.View, req) == Pass
    ensures GetDocumentById(req.principal, req.id, w.documents, w.grants) == Failed(Forbidden, AccessDenied)
    ensures GetDocumentByIdFixed(req.principal, req.id, w.documents, w.grants) == Done(d)
  {
    DocumentRoutes.OwnerPassesGates(w, req, d);
  }

  // ---------------------------------------------------------------------------------------
  // createDocument

  /** The uploaded file as the upload middleware describes it. */
  datatype Upload = Upload(originalName: string, path: string)

  /** The row `Document.create` stores: the title falls back to the file's original name, and
      the uploader owns it. */
  function NewDocument(id: int, p: Principal, file: Upload, title: Option<string>): (d: Document)
    ensures d.id == id && d.ownerId == p.id && d.filePath == file.path
    ensures TruthyStr(title) ==> d.title == title.value
    ensures !TruthyStr(title) ==> d.title == file.originalName
  {
    Document(id, if TruthyStr(title) then title.value else file.originalName, file.path, p.id)
  }

  /** The ids a `shared_with` field names; an absent or empty field names none. */
  function SharedIds(sharedWith: Option<string>): (ids: seq<int>)
    ensures !TruthyStr(sharedWith) ==> ids == []
  {
    if TruthyStr(sharedWith) then ParseSharedWith(sharedWith.value) else []
  }

  /** One view-only grant row per shared id, granted by the uploader, in the order of the field. */
  function SharingGrants(docId: int, uids: seq<int>, grantor: int): (gs: seq<Grant>)
    ensures |gs| == |uids|
    ensures forall i :: 0 <= i < |uids| ==> gs[i] == Grant(docId, uids[i], true, false, grantor)
  {
    if uids == [] then [] else [Grant(docId, uids[0], true, false, grantor)] + SharingGrants(docId, uids[1..], grantor)
  }

  /** The id names a row of users. */
  predicate Known(users: seq<UserRecord>, u: int) {
    FindUser(users, Some(u)).Some?
  }

  /** The shared ids whose insert succeeds, in the order of the field: an id that names no user
      breaks the foreign key to users, and an id already inserted breaks the (document, user)
      key, so each user named in the field gets exactly one row. */
  function Accepted(users: seq<UserRecord>, ids: seq<int>): (r: seq<int>)
    ensures |r| <= |ids|
  {
    if ids == [] then []
    else
      var prev := Accepted(users, ids[..|ids| - 1]);
      var u := ids[|ids| - 1];
      assert ids == ids[..|ids| - 1] + [u];
      if Known(users, u) && u !in prev then prev + [u] else prev
  }

  /** The accepted ids are those of the field that name a user. */
  lemma {:induction false} AcceptedMembers(users: seq<UserRecord>, ids: seq<int>)
    ensures forall u :: u in Accepted(users, ids) <==> u in ids && Known(users, u)
  {
    if ids != [] {
      var front := ids[..|ids| - 1];
      AcceptedMembers(users, front);
      assert ids == front + [ids[|ids| - 1]];
    }
  }

  /** No id is accepted twice, so no pair gets a second row. */
  lemma {:induction false} AcceptedDistinct(users: seq<UserRecord>, ids: seq<int>)
    ensures Distinct(Accepted(users, ids))
  {
    if ids != [] {
      var front := ids[..|ids| - 1];
      var u := ids[|ids| - 1];
      AcceptedDistinct(users, front);
      assert ids == front + [u];
      DistinctSnoc(Accepted(users, front), u);
    }
  }

  /** Every insert of the field succeeds. */
  predicate AllInserted(users: seq<UserRecord>, ids: seq<int>) {
    Accepted(users, ids) == ids
  }

  /** One more id: it is accepted when it names a user and was not accepted before, and all ids
      so far are accepted exactly when the earlier ones were and this one names a user and is
      new. */
  lemma AcceptedStep(users: seq<UserRecord>, ids: seq<int>, i: nat)
    requires i < |ids|
    ensures var done := Accepted(users, ids[..i]);
      Accepted(users, ids[..i + 1]) == (if Known(users, ids[i]) && ids[i] !in done then done + [ids[i]] else done)
    ensures AllInserted(users, ids[..i + 1]) <==> AllInserted(users, ids[..i]) && Known(users, ids[i]) && ids[i] !in ids[..i]
  {
    var front := ids[..i + 1];
    assert front[..i] == ids[..i];
    assert front == ids[..i] + [ids[i]];
    var done := Accepted(users, ids[..i]);
    var next := Accepted(users, front);
    assert next == (if Known(users, ids[i]) && ids[i] !in done then done + [ids[i]] else done);
    if next == front && Known(users, ids[i]) && ids[i] !in done {
      assert done == next[..i];
    }
  }

  lemma WholePrefix(users: seq<UserRecord>, ids: seq<int>)
    ensures ids[..|ids|] == ids && Accepted(users, ids[..|ids|]) == Accepted(users, ids)
  {
    assert ids[..|ids|] == ids;
  }

  /** No id occurs twice. */
  predicate Distinct(ids: seq<int>) {
    forall a, b :: 0 <= a < b < |ids| ==> ids[a] != ids[b]
  }

  /** Every id names a user. */
  predicate AllKnown(users: seq<UserRecord>, ids: seq<int>) {
    forall u :: u in ids ==> Known(users, u)
  }

  lemma DistinctSnoc(front: seq<int>, u: int)
    ensures Distinct(front + [u]) <==> Distinct(front) && u !in front
  {
    var ids := front + [u];
    if Distinct(ids) {
      assert forall a, b :: 0 <= a < b < |front| ==> front[a] == ids[a] && front[b] == ids[b];
      forall k | 0 <= k < |front| ensures front[k] != u {
        assert ids[k] != ids[|front|];
      }
    }
  }

  /** Every insert succeeds exactly when every id names a user and no id is repeated. */
  lemma {:induction false} AllAccepted(users: seq<UserRecord>, ids: seq<int>)
    ensures AllInserted(users, ids) <==> AllKnown(users, ids) && Distinct(ids)
  {
    if ids == [] {
      assert Accepted(users, ids) == [];
    } else {
      var n := |ids| - 1;
      var front := ids[..n];
      var u := ids[n];
      AllAccepted(users, front);
      AcceptedStep(users, ids, n);
      assert ids[..n + 1] == ids;
      assert ids == front + [u];
      DistinctSnoc(front, u);
      assert AllKnown(users, ids) <==> AllKnown(users, front) && Known(users, u);
    }
  }

  /** On a document no grant row names yet, a user named in the field holds a view-only grant
      from the uploader, and any other user holds none. */
  lemma SharedGrantsDecide(grants: seq<Grant>, docId: int, uids: seq<int>, grantor: int, u: int)
    requires forall g :: g in grants ==> g.resourceId != docId
    ensures u in uids ==> GrantFor(grants + SharingGrants(docId, uids, grantor), docId, u) == Some(Grant(docId, u, true, false, grantor))
    ensures u !in uids ==> GrantFor(grants + SharingGrants(docId, uids, grantor), docId, u).None?
  {
    var gs := SharingGrants(docId, uids, grantor);
    var m := (g: Grant) => GrantOf(g, docId, u);
    assert FirstIndex(grants, m).None?;
    FirstIndexSkip(grants, gs, m);
    if u in uids {
      var i :| 0 <= i < |uids| && uids[i] == u;
      assert m(gs[i]);
    }
  }

  /** `createDocument`'s answer: 400 without a file; 201 with the new row when every shared id
      names a user and none repeats; otherwise 500. */
  function CreateDocumentOutcome(p: Principal, users: seq<UserRecord>, file: Option<Upload>, title: Option<string>,
                                 sharedWith: Option<string>, id: int): (r: Outcome<Document>)
    ensures file.None? <==> r == Failed(BadRequest, NoFile)
    ensures r.Done? <==>
      && file.Some?
      && AllKnown(users, SharedIds(sharedWith))
      && Distinct(SharedIds(sharedWith))
    ensures file.Some? && r.Failed? ==> r == Failed(InternalError, ServerError)
    ensures r.Done? ==> r.value == NewDocument(id, p, file.value, title) && r.value.ownerId == p.id
  {
    AllAccepted(users, SharedIds(sharedWith));
    if file.None? then Failed(BadRequest, NoFile)
    else if AllInserted(users, SharedIds(sharedWith)) then Done(NewDocument(id, p, file.value, title))
    else Failed(InternalError, ServerError)
  }

  /** A client that writes its list of ids joined by commas shares with exactly those ids. */
  lemma ClientListIsShared(ids: seq<int>)
    requires |ids| >= 1
    ensures SharedIds(Some(JoinIds(ids))) == ids
  {
    JoinNonEmpty(ShowAll(ids), ',');
    SharedWithRoundTrip(ids);
  }

  lemma {:induction false} JoinNonEmpty(parts: seq<string>, sep: char)
    requires |parts| >= 1 && |parts[0]| >= 1
    ensures |Join(parts, sep)| >= 1
  {
  }

  /** Right after the upload, the grant gate lets the uploader do anything, lets each shared user
      view but neither edit nor delete, and refuses everybody else. */
  lemma CreatedDocumentGate(grants: seq<Grant>, d: Document, uids: seq<int>, p: Principal, action: string)
    requires forall g :: g in grants ==> g.resourceId != d.id
    requires p.id != d.ownerId
    ensures var all := grants + SharingGrants(d.id, uids, d.ownerId);
      && (p.id in uids ==> (EnforceDac(action, p, Some(d), all) == Pass <==> action == "view"))
      && (p.id !in uids ==> EnforceDac(action, p, Some(d), all) == Refuse(Forbidden, NoPermission))
  {
    SharedGrantsDecide(grants, d.id, uids, d.ownerId, p.id);
  }

  // ---------------------------------------------------------------------------------------
  // updateDocument

  /** `updateDocument`: the Admin check comes before the lookup; a truthy title or path
      replaces the stored one; the owner and key never change. */
  function UpdateDocumentOutcome(p: Principal, docs: seq<Document>, id: Option<int>, title: Option<string>, filePath: Option<string>): (r: Outcome<Document>)
    ensures !HasRole(p, Admin) ==> r == Failed(Forbidden, AdminOnly)
    ensures HasRole(p, Admin) && FindDocument(docs, id).None? ==> r == Failed(NotFound, DocumentNotFound)
    ensures r.Done? <==> HasRole(p, Admin) && FindDocument(docs, id).Some?
    ensures r.Done? ==>
      var d := FindDocument(docs, id).value;
      && r.value.id == d.id && r.value.ownerId == d.ownerId
      && r.value.title == (if TruthyStr(title) then title.value else d.title)
      && r.value.filePath == (if TruthyStr(filePath) then filePath.value else d.filePath)
  {
    if !HasRole(p, Admin) then Failed(Forbidden, AdminOnly)
    else
      match FindDocument(docs, id)
      case None => Failed(NotFound, DocumentNotFound)
      case Some(d) =>
        Done(d.(title := if TruthyStr(title) then title.value else d.title,
                filePath := if TruthyStr(filePath) then filePath.value else d.filePath))
  }

  /** Through the route, an update needs Admin twice over and, for a document the Admin does not
      own, an edit grant: the handler never meets a request the gates let through without one. */
  lemma UpdateNeedsAdminAndEditRight(w: World, req: Request)
    requires RunRoute(w, DocumentRoutes.Update, req) == Pass
    ensures UpdateDocumentOutcome(req.principal, w.documents, req.id, None, None).Done?
    ensures var d := FindDocument(w.documents, req.id).value;
      || d.ownerId == req.principal.id
      || (GrantFor(w.grants, d.id, req.principal.id).Some? && GrantFor(w.grants, d.id, req.principal.id).value.canEdit)
  {
    var u := DocumentRoutes.Update;
    Chain3(w, req, u.chain[0], u.chain[1], u.chain[2]);
    assert RunGate(w, req, u.chain[0]) == Pass;
    assert RunGate(w, req, u.chain[1]) == Pass;
  }

  // ---------------------------------------------------------------------------------------
  // deleteDocument

  /** `deleteDocument`: 404, then Admin or owner. */
  function DeleteDocumentOutcome(p: Principal, docs: seq<Document>, id: Option<int>): (r: Outcome<Document>)
    ensures FindDocument(docs, id).None? ==> r == Failed(NotFound, DocumentNotFound)
    ensures r.Done? <==> FindDocument(docs, id).Some? && (HasRole(p, Admin) || FindDocument(docs, id).value.ownerId == p.id)
    ensures r.Done? ==> FindDocument(docs, id) == Some(r.value)
    ensures r.Failed? ==> r == Failed(NotFound, DocumentNotFound) || r == Failed(Forbidden, NotOwner)
  {
    match FindDocument(docs, id)
    case None => Failed(NotFound, DocumentNotFound)
    case Some(d) => if !HasRole(p, Admin) && d.ownerId != p.id then Failed(Forbidden, NotOwner) else Done(d)
  }

  /** A Manager holding an edit grant on someone else's document passes every gate of the delete
      route, and is then refused by the handler. */
  lemma GrantedManagerRefusedDelete(w: World, req: Request, d: Document)
    requires req.principal.roles == [RoleName(Manager)]
    requires FindDocument(w.documents, req.id) == Some(d) && d.ownerId != req.principal.id
    requires GrantFor(w.grants, d.id, req.principal.id).Some? && GrantFor(w.grants, d.id, req.principal.id).value.canEdit
    ensures RunRoute(w, DocumentRoutes.Delete, req) == Pass
    ensures DeleteDocumentOutcome(req.principal, w.documents, req.id) == Failed(Forbidden, NotOwner)
  {
    var del := DocumentRoutes.Delete;
    var b := Bind(del, req);
    var p := req.principal;
    assert RunGate(w, b, del.chain[0]) == Pass by {
      assert HasRole(p, Manager) && Manager in DocumentRoutes.Everyone;
    }
    assert RunGate(w, b, del.chain[1]) == Pass;
    assert RunGate(w, b, del.chain[2]) == Pass by {
      var a := Abac.Attrs(Some(d.ownerId), None, None);
      assert Load(w, "Document", req.id) == Some(a);
      assert Abac.NormaliseRoles(p.roles) == [Manager];
      assert Manager in Abac.AccessList(Abac.Labelled(Internal));
    }
    Chain3(w, b, del.chain[0], del.chain[1], del.chain[2]);
  }

  /** Removing a document's grant rows leaves every other document's first grant row as it was,
      and leaves none for the removed document. */
  lemma GrantCleanup(grants: seq<Grant>, docId: int, otherDoc: int, u: int)
    ensures GrantFor(Filter(grants, (g: Grant) => g.resourceId != docId), docId, u).None?
    ensures otherDoc != docId ==>
      GrantFor(Filter(grants, (g: Grant) => g.resourceId != docId), otherDoc, u) == GrantFor(grants, otherDoc, u)
  {
    if otherDoc != docId {
      FindFirstFilter(grants, (g: Grant) => g.resourceId != docId, (g: Grant) => GrantOf(g, otherDoc, u));
    }
  }

  // ---------------------------------------------------------------------------------------
  // The tables the handlers write

  /** Primary keys are unique. */
  predicate UniqueIds(docs: seq<Document>) {
    forall i, j :: 0 <= i < j < |docs| ==> docs[i].id != docs[j].id
  }

  /** documents and document_permissions, with the documents' auto-increment counter. */
  class DocumentStore {
    var documents: seq<Document>
    var grants: seq<Grant>
    var nextId: int

    ghost predicate Valid()
      reads this
    {
      && UniqueIds(documents)
      && (forall d :: d in documents ==> d.id < nextId)
      && (forall g :: g in grants ==> g.resourceId < nextId)
      && UniqueKeys(grants, PairOf)
    }

    constructor ()
      ensures Valid() && documents == [] && grants == [] && nextId == 1
    {
      documents := [];
      grants := [];
      nextId := 1;
    }

    /** `createDocument`: 400 without a file; otherwise the new row, then the grant rows of
        `shared_with`. A failed insert rejects the handler's wait for all of them, and it
        answers 500 although the document row and every accepted grant row are stored. */
    method Create(p: Principal, users: seq<UserRecord>, file: Option<Upload>, title: Option<string>, sharedWith: Option<string>)
      returns (r: Outcome<Document>)
      requires Valid()
      modifies this
      ensures Valid()
      ensures r == CreateDocumentOutcome(p, users, file, title, sharedWith, old(nextId))
      ensures file.None? ==> documents == old(documents) && grants == old(grants) && nextId == old(nextId)
      ensures file.Some? ==>
        var d := NewDocument(old(nextId), p, file.value, title);
        && documents == old(documents) + [d]
        && grants == old(grants) + SharingGrants(d.id, Accepted(users, SharedIds(sharedWith)), p.id)
        && FindDocument(documents, Some(d.id)) == Some(d)
    {
      if file.None? {
        return Failed(BadRequest, NoFile);
      }
      var d := NewDocument(nextId, p, file.value, title);
      assert forall x :: x in documents ==> x.id != d.id;
      FirstIndexSkip(documents, [d], (x: Document) => x.id == d.id);
      documents := documents + [d];
      nextId := nextId + 1;
      var ok := ShareWith(users, d.id, SharedIds(sharedWith), p.id);
      r := if ok then Done(d) else Failed(InternalError, ServerError);
    }

    /** `DocumentPermission.create` for one row of an existing document: the insert fails when
        the user id names no user (the foreign key to users) or the pair already has a row (the
        table's key), and otherwise appends the row. */
    method InsertGrant(users: seq<UserRecord>, g: Grant) returns (ok: bool)
      requires Valid() && g.resourceId < nextId
      modifies this
      ensures Valid() && documents == old(documents) && nextId == old(nextId)
      ensures ok <==> Known(users, g.userId) && GrantFor(old(grants), g.resourceId, g.userId).None?
      ensures grants == if ok then old(grants) + [g] else old(grants)
    {
      ok := Known(users, g.userId) && GrantFor(grants, g.resourceId, g.userId).None?;
      if ok {
        assert forall y :: y in grants ==> PairOf(y) != PairOf(g);
        AppendNewKey(grants, g, PairOf);
        grants := grants + [g];
      }
    }

    /** The grant rows of `shared_with`, inserted one id after the other; `ok` is false once an
        insert has failed. */
    method ShareWith(users: seq<UserRecord>, docId: int, ids: seq<int>, grantor: int) returns (ok: bool)
      requires Valid() && docId < nextId
      requires forall g :: g in grants ==> g.resourceId != docId
      modifies this
      ensures Valid() && documents == old(documents) && nextId == old(nextId)
      ensures grants == old(grants) + SharingGrants(docId, Accepted(users, ids), grantor)
      ensures ok <==> AllInserted(users, ids)
    {
      ok := true;
      var i := 0;
      assert ids[..0] == [];
      while i < |ids|
        invariant 0 <= i <= |ids|
        invariant Valid() && documents == old(documents) && nextId == old(nextId)
        invariant grants == old(grants) + SharingGrants(docId, Accepted(users, ids[..i]), grantor)
        invariant ok <==> AllInserted(users, ids[..i])
      {
        ShareStep(old(grants), grants, users, docId, ids, i, grantor);
        var inserted := InsertGrant(users, Grant(docId, ids[i], true, false, grantor));
        ok := ok && inserted;
        i := i + 1;
      }
      WholePrefix(users, ids);
    }

    /** `updateDocument`: on success the stored row is replaced by the updated one. */
    method Update(p: Principal, id: Option<int>, title: Option<string>, filePath: Option<string>)
      returns (r: Outcome<Document>)
      requires Valid()
      modifies this
      ensures Valid() && nextId == old(nextId) && grants == old(grants)
      ensures r == UpdateDocumentOutcome(p, old(documents), id, title, filePath)
      ensures r.Failed? ==> documents == old(documents)
      ensures r.Done? ==>
        |documents| == |old(documents)|
        && (forall j :: 0 <= j < |documents| ==>
              documents[j] == (if old(documents)[j].id == id.value then r.value else old(documents)[j]))
    {
      r := UpdateDocumentOutcome(p, documents, id, title, filePath);
      if r.Done? {
        var i := FirstIndex(documents, (x: Document) => x.id == id.value).value;
        forall j | 0 <= j < |documents| && j != i ensures documents[j].id != id.value {
          if j > i {
            assert documents[j].id != documents[i].id;
          }
        }
        documents := documents[i := r.value];
      }
    }

    /** `deleteDocument`: on success every grant row of the document goes, then the row itself. */
    method Delete(p: Principal, id: Option<int>) returns (r: Outcome<Document>)
      requires Valid()
      modifies this
      ensures Valid() && nextId == old(nextId)
      ensures r == DeleteDocumentOutcome(p, old(documents), id)
      ensures r.Failed? ==> documents == old(documents) && grants == old(grants)
      ensures r.Done? ==>
        && grants == Filter(old(grants), (g: Grant) => g.resourceId != r.value.id)
        && |documents| == |old(documents)| - 1
        && FindDocument(documents, id).None?
        && (forall x :: x in old(documents) && x.id != id.value ==> x in documents)
    {
      r := DeleteDocumentOutcome(p, documents, id);
      if r.Done? {
        var i := FirstIndex(documents, (x: Document) => x.id == id.value).value;
        DeletedDocumentGone(documents, i);
        FilterKeepsUnique(grants, (g: Grant) => g.resourceId != r.value.id, PairOf);
        grants := Filter(grants, (g: Grant) => g.resourceId != r.value.id);
        documents := RemoveAt(documents, i);
      }
    }
  }

  /** One id of `shared_with` more: its insert succeeds when it names a user and the pair has
      no row yet, which is when it was not accepted before. */
  lemma ShareStep(base: seq<Grant>, grants: seq<Grant>, users: seq<UserRecord>, docId: int, ids: seq<int>, i: nat, grantor: int)
    requires i < |ids|
    requires forall g :: g in base ==> g.resourceId != docId
    requires grants == base + SharingGrants(docId, Accepted(users, ids[..i]), grantor)
    ensures var u := ids[i];
      var accept := Known(users, u) && GrantFor(grants, docId, u).None?;
      var after := base + SharingGrants(docId, Accepted(users, ids[..i + 1]), grantor);
      && (accept ==> grants + [Grant(docId, u, true, false, grantor)] == after)
      && (!accept ==> grants == after)
      && (AllInserted(users, ids[..i + 1]) <==> AllInserted(users, ids[..i]) && accept)
  {
    var u := ids[i];
    var done := Accepted(users, ids[..i]);
    AcceptedStep(users, ids, i);
    SharedGrantsDecide(base, docId, done, grantor, u);
    SharingGrantsAppend(docId, done, u, grantor);
  }

  lemma {:induction false} SharingGrantsAppend(docId: int, uids: seq<int>, u: int, grantor: int)
    ensures SharingGrants(docId, uids + [u], grantor) == SharingGrants(docId, uids, grantor) + [Grant(docId, u, true, false, grantor)]
  {
  }

  /** Once the row is destroyed, its key finds nothing, and every other row is still there. */
  lemma DeletedDocumentGone(docs: seq<Document>, i: nat)
    requires i < |docs| && UniqueIds(docs)
    ensures FindDocument(RemoveAt(docs, i), Some(docs[i].id)).None?
    ensures forall x :: x in docs && x.id != docs[i].id ==> x in RemoveAt(docs, i)
    ensures UniqueIds(RemoveAt(docs, i))
  {
    var key := (d: Document) => d.id;
    assert UniqueKeys(docs, key);
    RemovedKeyGone(docs, i, key);
    OtherKeysKept(docs, i, key);
    RemoveKeepsUnique(docs, i, key);
  }
}
