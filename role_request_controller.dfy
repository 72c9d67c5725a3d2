/** controllers/roleRequestController.js: a user asks for a role, and an Admin approves or
    rejects the request once. A request starts Pending; Approved and Rejected are terminal.
    Approving adds the requested role to the requester's role set. */
module RoleRequestController {
  import opened Common
  import opened Records
  import opened Tables
  import RoleController

  /** The request body of `requestRoleChange`; absent fields are None. */
  datatype RequestBody = RequestBody(requestedRoleId: Option<int>, reason: Option<string>)

  /** `RoleChangeRequest.findByPk(id)` */
  function FindRequest(rows: seq<RoleChangeRequest>, id: Option<int>): (r: Option<RoleChangeRequest>)
    ensures r.Some? ==> id.Some? && r.value in rows && r.value.id == id.value
    ensures r.None? <==> id.None? || forall x :: x in rows ==> x.id != id.value
  {
    if id.None? then None else FindFirst(rows, (x: RoleChangeRequest) => x.id == id.value)
  }

  predicate UniqueIds(rows: seq<RoleChangeRequest>) {
    forall i, j :: 0 <= i < j < |rows| ==> rows[i].id != rows[j].id
  }

  /** A status change the handlers can make: out of Pending, into Approved or Rejected. */
  predicate Step(before: RequestStatus, after: RequestStatus) {
    before == Pending && after != Pending
  }

  // ---------------------------------------------------------------------------------------
  // requestRoleChange

  /** `requestRoleChange`: 404 for an unknown role; otherwise a new Pending request owned by the
      requester, with a falsy reason stored as null. */
  function RequestOutcome(p: Principal, roles: seq<RoleRecord>, body: RequestBody, nextId: int): (r: Outcome<RoleChangeRequest>)
    ensures r.Failed? <==> FindRole(roles, body.requestedRoleId).None?
    ensures r.Failed? ==> r == Failed(NotFound, RoleNotFound)
    ensures r.Done? ==>
      && r.value.id == nextId
      && r.value.userId == p.id
      && r.value.status == Pending
      && body.requestedRoleId == Some(r.value.requestedRoleId)
      && (exists k :: k in roles && k.id == r.value.requestedRoleId)
      && (r.value.reason.Some? <==> TruthyStr(body.reason))
      && (r.value.reason.Some? ==> r.value.reason == body.reason)
  {
    match FindRole(roles, body.requestedRoleId)
    case None => Failed(NotFound, RoleNotFound)
    case Some(k) =>
      Done(RoleChangeRequest(nextId, p.id, k.id, Pending, if TruthyStr(body.reason) then body.reason else None))
  }

  // ---------------------------------------------------------------------------------------
  // approveRoleChange / rejectRoleChange

  /** The checks both decisions make: the Admin role before any lookup, then 404 for an unknown
      request, then 400 unless the request is still Pending. On success, the request. */
  function ReviewOutcome(p: Principal, rows: seq<RoleChangeRequest>, id: Option<int>): (r: Outcome<RoleChangeRequest>)
    ensures !HasRole(p, Admin) ==> r == Failed(Forbidden, AdminOnly)
    ensures HasRole(p, Admin) && FindRequest(rows, id).None? ==> r == Failed(NotFound, RequestNotFound)
    ensures HasRole(p, Admin) && FindRequest(rows, id).Some? && FindRequest(rows, id).value.status != Pending ==>
      r == Failed(BadRequest, AlreadyProcessed)
    ensures r.Done? <==> HasRole(p, Admin) && FindRequest(rows, id).Some? && FindRequest(rows, id).value.status == Pending
    ensures r.Done? ==> r.value in rows && r.value.status == Pending && id == Some(r.value.id)
  {
    if !HasRole(p, Admin) then Failed(Forbidden, AdminOnly)
    else
      match FindRequest(rows, id)
      case None => Failed(NotFound, RequestNotFound)
      case Some(q) => if q.status != Pending then Failed(BadRequest, AlreadyProcessed) else Done(q)
  }

  /** `approveRoleChange`: after the review, the request's user and role are loaded and the role
      is added; a user or role that no longer exists makes `addRole` throw, and the handler
      answers 500 before the status changes. On success, the Approved request and the pair to
      add to the join table. */
  function ApproveOutcome(p: Principal, rows: seq<RoleChangeRequest>, users: seq<UserRecord>, roles: seq<RoleRecord>,
                          id: Option<int>): (r: Outcome<(RoleChangeRequest, RoleController.Assignment)>)
    ensures ReviewOutcome(p, rows, id).Failed? ==>
      r == Failed(ReviewOutcome(p, rows, id).status, ReviewOutcome(p, rows, id).reason)
    ensures ReviewOutcome(p, rows, id).Done? ==> (r.Failed? <==>
      FindUser(users, Some(ReviewOutcome(p, rows, id).value.userId)).None? ||
      FindRole(roles, Some(ReviewOutcome(p, rows, id).value.requestedRoleId)).None?)
    ensures r.Failed? && ReviewOutcome(p, rows, id).Done? ==> r == Failed(InternalError, ServerError)
    ensures r.Done? ==>
      var q := ReviewOutcome(p, rows, id).value;
      && Step(q.status, r.value.0.status)
      && r.value.0 == q.(status := Approved)
      && r.value.1 == RoleController.Assignment(q.userId, q.requestedRoleId)
  {
    match ReviewOutcome(p, rows, id)
    case Failed(s, why) => Failed(s, why)
    case Done(q) =>
      if FindUser(users, Some(q.userId)).None? || FindRole(roles, Some(q.requestedRoleId)).None? then
        Failed(InternalError, ServerError)
      else
        Done((q.(status := Approved), RoleController.Assignment(q.userId, q.requestedRoleId)))
  }

  /** `rejectRoleChange`: after the review, the request becomes Rejected; roles are not touched. */
  function RejectOutcome(p: Principal, rows: seq<RoleChangeRequest>, id: Option<int>): (r: Outcome<RoleChangeRequest>)
    ensures r.Failed? <==> ReviewOutcome(p, rows, id).Failed?
    ensures r.Failed? ==> r == ReviewOutcome(p, rows, id)
    ensures r.Done? ==>
      var q := ReviewOutcome(p, rows, id).value;
      Step(q.status, r.value.status) && r.value == q.(status := Rejected)
  {
    match ReviewOutcome(p, rows, id)
    case Failed(s, why) => Failed(s, why)
    case Done(q) => Done(q.(status := Rejected))
  }

  /** Approved and Rejected are terminal: once decided, a request answers 400 to every further
      decision an Admin makes. */
  lemma DecidedIsTerminal(p: Principal, rows: seq<RoleChangeRequest>, users: seq<UserRecord>, roles: seq<RoleRecord>,
                          id: Option<int>)
    requires HasRole(p, Admin)
    requires FindRequest(rows, id).Some? && FindRequest(rows, id).value.status != Pending
    ensures ApproveOutcome(p, rows, users, roles, id) == Failed(BadRequest, AlreadyProcessed)
    ensures RejectOutcome(p, rows, id) == Failed(BadRequest, AlreadyProcessed)
  {
  }

  /** Writing the decided request back into its row: the key now finds the decided row, the
      keys stay unique, and every other row is untouched. */
  lemma {:induction false} DecisionWrittenBack(rows: seq<RoleChangeRequest>, i: nat, q: RoleChangeRequest)
    requires i < |rows| && UniqueIds(rows) && q.id == rows[i].id
    ensures UniqueIds(rows[i := q])
    ensures FindRequest(rows[i := q], Some(q.id)) == Some(q)
    ensures forall id :: id != q.id ==> FindRequest(rows[i := q], Some(id)) == FindRequest(rows, Some(id))
  {
    var after := rows[i := q];
    var m := (x: RoleChangeRequest) => x.id == q.id;
    forall j | 0 <= j < |after| && j != i ensures !m(after[j]) {
      assert after[j] == rows[j];
    }
    assert m(after[i]);
    assert FirstIndex(after, m) == Some(i);
    forall id | id != q.id ensures FindRequest(after, Some(id)) == FindRequest(rows, Some(id)) {
      var n := (x: RoleChangeRequest) => x.id == id;
      FirstIndexUnmatchedReplace(rows, i, q, n);
    }
  }

  /** Replacing a row that a search does not match by another it does not match leaves the
      search's answer alone. */
  lemma {:induction false} FirstIndexUnmatchedReplace<T>(rows: seq<T>, i: nat, x: T, matches: T -> bool)
    requires i < |rows| && !matches(rows[i]) && !matches(x)
    ensures FirstIndex(rows[i := x], matches) == FirstIndex(rows, matches)
  {
    if i > 0 {
      assert rows[i := x][1..] == rows[1..][i - 1 := x];
      FirstIndexUnmatchedReplace(rows[1..], i - 1, x, matches);
    } else {
      assert rows[i := x][1..] == rows[1..];
    }
  }

  /** The decided request: approving and then deciding again is refused with 400. */
  lemma ApproveOnce(p: Principal, rows: seq<RoleChangeRequest>, users: seq<UserRecord>, roles: seq<RoleRecord>,
                    id: Option<int>, i: nat)
    requires UniqueIds(rows) && i < |rows|
    requires ApproveOutcome(p, rows, users, roles, id).Done?
    requires FindRequest(rows, id) == Some(rows[i])
    ensures var after := rows[i := ApproveOutcome(p, rows, users, roles, id).value.0];
      && ApproveOutcome(p, after, users, roles, id) == Failed(BadRequest, AlreadyProcessed)
      && RejectOutcome(p, after, id) == Failed(BadRequest, AlreadyProcessed)
  {
    var q := ApproveOutcome(p, rows, users, roles, id).value.0;
    DecisionWrittenBack(rows, i, q);
    DecidedIsTerminal(p, rows[i := q], users, roles, id);
  }

  // ---------------------------------------------------------------------------------------
  // getPendingRequests

  /** `getPendingRequests`: Admin only; exactly the Pending requests, in table order. */
  function PendingRequests(p: Principal, rows: seq<RoleChangeRequest>): (r: Outcome<seq<RoleChangeRequest>>)
    ensures r.Failed? <==> !HasRole(p, Admin)
    ensures r.Failed? ==> r == Failed(Forbidden, AdminOnly)
    ensures r.Done? ==> forall x :: x in r.value <==> x in rows && x.status == Pending
  {
    if !HasRole(p, Admin) then Failed(Forbidden, AdminOnly)
    else Done(Filter(rows, (x: RoleChangeRequest) => x.status == Pending))
  }

  /** A request that can still be decided is exactly one the Admin sees in the pending list. */
  lemma PendingListIsReviewable(p: Principal, rows: seq<RoleChangeRequest>, id: int)
    requires HasRole(p, Admin) && UniqueIds(rows)
    ensures ReviewOutcome(p, rows, Some(id)).Done? <==>
      exists x :: x in PendingRequests(p, rows).value && x.id == id
  {
    var pending := PendingRequests(p, rows).value;
    if x :| x in pending && x.id == id {
      var j :| 0 <= j < |rows| && rows[j] == x;
      var k := FirstIndex(rows, (y: RoleChangeRequest) => y.id == id).value;
      assert rows[k].id == rows[j].id;
      assert k == j;
    }
  }

  // ---------------------------------------------------------------------------------------
  // The handlers on the tables

  /** The `role_change_requests` table with its next key. */
  class RequestTable {
    var rows: seq<RoleChangeRequest>
    var nextId: int

    ghost predicate Valid()
      reads this
    {
      UniqueIds(rows) && forall x :: x in rows ==> x.id < nextId
    }

    constructor ()
      ensures Valid() && rows == [] && nextId == 1
    {
      rows := [];
      nextId := 1;
    }

    /** `requestRoleChange`: on success the new request is the last row. */
    method Request(p: Principal, roles: seq<RoleRecord>, body: RequestBody) returns (r: Outcome<RoleChangeRequest>)
      requires Valid()
      modifies this
      ensures Valid()
      ensures r == RequestOutcome(p, roles, body, old(nextId))
      ensures rows == (if r.Done? then old(rows) + [r.value] else old(rows))
      ensures nextId == (if r.Done? then old(nextId) + 1 else old(nextId))
      ensures r.Done? ==> FindRequest(rows, Some(r.value.id)) == Some(r.value)
    {
      r := RequestOutcome(p, roles, body, nextId);
      if r.Done? {
        assert forall x :: x in rows ==> x.id != r.value.id;
        FirstIndexSkip(rows, [r.value], (x: RoleChangeRequest) => x.id == r.value.id);
        rows := rows + [r.value];
        nextId := nextId + 1;
      }
    }

    /** `approveRoleChange`: on success the row is Approved and the role is added to the
        requester's role set; on any refusal neither table changes. */
    method Approve(p: Principal, store: RoleController.RoleStore, id: Option<int>)
      returns (r: Outcome<(RoleChangeRequest, RoleController.Assignment)>)
      requires Valid()
      modifies this, store
      ensures Valid() && nextId == old(nextId)
      ensures store.users == old(store.users) && store.roles == old(store.roles)
      ensures r == ApproveOutcome(p, old(rows), store.users, store.roles, id)
      ensures r.Failed? ==> rows == old(rows) && store.held == old(store.held)
      ensures r.Done? ==>
        && store.held == old(store.held) + {r.value.1}
        && RoleController.RolesOf(store.held, r.value.0.userId) ==
           RoleController.RolesOf(old(store.held), r.value.0.userId) + {r.value.0.requestedRoleId}
        && FindRequest(rows, id) == Some(r.value.0)
        && (forall k :: k != id.value ==> FindRequest(rows, Some(k)) == FindRequest(old(rows), Some(k)))
    {
      r := ApproveOutcome(p, rows, store.users, store.roles, id);
      if r.Done? {
        var i := FirstIndex(rows, (x: RoleChangeRequest) => x.id == id.value).value;
        DecisionWrittenBack(rows, i, r.value.0);
        RoleController.AssignGrantsRole(store.held, r.value.1, r.value.0.userId);
        store.held := store.held + {r.value.1};
        rows := rows[i := r.value.0];
      }
    }

    /** `rejectRoleChange`: on success the row is Rejected; on any refusal nothing changes. */
    method Reject(p: Principal, id: Option<int>) returns (r: Outcome<RoleChangeRequest>)
      requires Valid()
      modifies this
      ensures Valid() && nextId == old(nextId)
      ensures r == RejectOutcome(p, old(rows), id)
      ensures r.Failed? ==> rows == old(rows)
      ensures r.Done? ==>
        && FindRequest(rows, id) == Some(r.value)
        && (forall k :: k != id.value ==> FindRequest(rows, Some(k)) == FindRequest(old(rows), Some(k)))
    {
      r := RejectOutcome(p, rows, id);
      if r.Done? {
        var i := FirstIndex(rows, (x: RoleChangeRequest) => x.id == id.value).value;
        DecisionWrittenBack(rows, i, r.value);
        rows := rows[i := r.value];
      }
    }
  }
}
