/**
  The approve and reject handlers as transitions of the store's value. The store class
  (module StoreObject) performs the same steps on its fields and is proved to agree with
  these functions; the properties of the handlers are proved here, as lemmas.

  Datastore calls that can fail are driven by a `Faults` record, one flag per call.
*/
module Approval {
  import opened Common
  import opened Http
  import opened Bookings

  /** The tables: `booking_requests`, `bookings`, `rooms`, `audit_logs`. */
  datatype Db = Db(requests: seq<BookingRequest>, bookings: seq<Booking>, rooms: seq<Room>,
                   auditLog: seq<AuditEntry>)

  /** Which datastore calls report an error on this invocation. */
  datatype Faults = Faults(lookupError: bool, conflictQueryError: bool, insertError: bool,
                           updateError: bool, auditError: bool)

  const NoFaults: Faults := Faults(false, false, false, false, false)

  datatype Outcome = Outcome(response: Response<()>, db: Db)

  const NotFoundText: string := "Request not found or already processed"
  const ConflictText: string := "Booking conflict detected. Request has been rejected."
  const ApprovedText: string := "Booking approved successfully"
  const RejectedText: string := "Booking rejected successfully"
  const ApproveFailedText: string := "Failed to approve booking"
  const RejectFailedText: string := "Failed to reject booking"

  /** The rows `.eq('id', id).eq('status', 'pending')` selects, in table order. */
  function PendingWithId(requests: seq<BookingRequest>, id: string): seq<BookingRequest>
  {
    if requests == [] then []
    else
      var rest := PendingWithId(requests[1..], id);
      if requests[0].id == id && requests[0].status == Pending then [requests[0]] + rest else rest
  }

  lemma {:induction false} PendingWithIdMembers(requests: seq<BookingRequest>, id: string)
    ensures forall r :: r in PendingWithId(requests, id) <==>
      r in requests && r.id == id && r.status == Pending
  {
    if requests != [] {
      PendingWithIdMembers(requests[1..], id);
      assert requests == [requests[0]] + requests[1..];
    }
  }

  /** `.single()` yields a row exactly when one row matches; that row is a pending row with the id. */
  lemma SingleMatch(requests: seq<BookingRequest>, id: string)
    requires |PendingWithId(requests, id)| == 1
    ensures var r := PendingWithId(requests, id)[0];
      r in requests && r.id == id && r.status == Pending
  {
    PendingWithIdMembers(requests, id);
    assert PendingWithId(requests, id)[0] in PendingWithId(requests, id);
  }

  /** `.update({ status }).eq('id', id)`: every row with the id gets the status, no other row changes. */
  function SetStatus(requests: seq<BookingRequest>, id: string, status: Status): (r: seq<BookingRequest>)
    ensures |r| == |requests|
    ensures forall k :: 0 <= k < |r| ==>
      r[k] == (if requests[k].id == id then requests[k].(status := status) else requests[k])
  {
    if requests == [] then []
    else
      [if requests[0].id == id then requests[0].(status := status) else requests[0]]
        + SetStatus(requests[1..], id, status)
  }

  /** Updating the rows of one id does not change which rows of another id are pending. */
  lemma {:induction false} SetStatusKeepsOthersPending(requests: seq<BookingRequest>, id: string,
                                                      status: Status, other: string)
    requires id != other
    ensures PendingWithId(SetStatus(requests, id, status), other) == PendingWithId(requests, other)
  {
    if requests != [] {
      SetStatusKeepsOthersPending(requests[1..], id, status, other);
      var s := SetStatus(requests, id, status);
      assert s[1..] == SetStatus(requests[1..], id, status);
    }
  }

  /** After the update no row with the id is still pending, unless the new status is pending. */
  lemma {:induction false} SetStatusLeavesNonePending(requests: seq<BookingRequest>, id: string, status: Status)
    requires status != Pending
    ensures PendingWithId(SetStatus(requests, id, status), id) == []
  {
    if requests != [] {
      SetStatusLeavesNonePending(requests[1..], id, status);
      var s := SetStatus(requests, id, status);
      assert s[1..] == SetStatus(requests[1..], id, status);
    }
  }

  /** The approve handler once the request has been admitted (adminApproveBooking.js, lines 53-133). */
  function ApproveRequest(db: Db, admin: Claims, id: string, faults: Faults): Outcome
  {
    var matches := PendingWithId(db.requests, id);
    if faults.lookupError || |matches| != 1 then
      Outcome(Response(404, Message(NotFoundText)), db)
    else
      var request := matches[0];
      if faults.conflictQueryError then
        Outcome(Response(500, Message(ApproveFailedText)), db)
      else if |Conflicts(db.bookings, request.roomId, request.start, request.end)| > 0 then
        // the status update of the conflict branch is not checked for errors
        var requests := if faults.updateError then db.requests else SetStatus(db.requests, id, Rejected);
        Outcome(Response(409, Message(ConflictText)), db.(requests := requests))
      else if faults.insertError then
        Outcome(Response(500, Message(ApproveFailedText)), db)
      else
        var bookings := db.bookings + [BookingOf(request)];
        if faults.updateError then
          // the booking is already inserted; the request stays pending
          Outcome(Response(500, Message(ApproveFailedText)), db.(bookings := bookings))
        else
          var entry := AuditEntry(admin.username, ApproveBooking, id);
          var audit := if faults.auditError then db.auditLog else db.auditLog + [entry];
          Outcome(Response(200, Message(ApprovedText)),
                  db.(requests := SetStatus(db.requests, id, Approved), bookings := bookings, auditLog := audit))
  }

  /** The whole approve handler: the shared prologue, then the transition. */
  function ApproveHandler(db: Db, httpMethod: string, header: Option<string>, body: ActionBody,
                          verify: string -> Option<Claims>, faults: Faults): Outcome
  {
    match AdmitAction(httpMethod, header, body, verify, ApproveFailedText)
    case Refused(response) => Outcome(response, db)
    case Admitted(admin, id) => ApproveRequest(db, admin, id, faults)
  }

  /** The reject handler once the request has been admitted (adminRejectBooking.js, lines 53-92). */
  function RejectRequest(db: Db, admin: Claims, id: string, faults: Faults): Outcome
  {
    var matches := PendingWithId(db.requests, id);
    if faults.lookupError || |matches| != 1 then
      Outcome(Response(404, Message(NotFoundText)), db)
    else if faults.updateError then
      Outcome(Response(500, Message(RejectFailedText)), db)
    else
      var entry := AuditEntry(admin.username, RejectBooking, id);
      var audit := if faults.auditError then db.auditLog else db.auditLog + [entry];
      Outcome(Response(200, Message(RejectedText)),
              db.(requests := SetStatus(db.requests, id, Rejected), auditLog := audit))
  }

  function RejectHandler(db: Db, httpMethod: string, header: Option<string>, body: ActionBody,
                         verify: string -> Option<Claims>, faults: Faults): Outcome
  {
    match AdmitAction(httpMethod, header, body, verify, RejectFailedText)
    case Refused(response) => Outcome(response, db)
    case Admitted(admin, id) => RejectRequest(db, admin, id, faults)
  }

  // ---------------------------------------------------------------- the prologue

  /**
    Every refusal of the prologue (OPTIONS, wrong method, bad token, unparseable body,
    missing request_id) answers before the store is touched.
  */
  lemma HandlersRefuseWithoutChange(db: Db, httpMethod: string, header: Option<string>, body: ActionBody,
                                    verify: string -> Option<Claims>, faults: Faults)
    ensures AdmitAction(httpMethod, header, body, verify, ApproveFailedText).Refused? ==>
      ApproveHandler(db, httpMethod, header, body, verify, faults) ==
        Outcome(AdmitAction(httpMethod, header, body, verify, ApproveFailedText).response, db)
    ensures AdmitAction(httpMethod, header, body, verify, RejectFailedText).Refused? ==>
      RejectHandler(db, httpMethod, header, body, verify, faults) ==
        Outcome(AdmitAction(httpMethod, header, body, verify, RejectFailedText).response, db)
  {
  }

  /** A bad or missing bearer token on a POST gives 401 and leaves the store as it was. */
  lemma BadTokenIsUnauthorized(db: Db, header: Option<string>, body: ActionBody,
                               verify: string -> Option<Claims>, faults: Faults)
    requires VerifyToken(header, verify).Err?
    ensures ApproveHandler(db, "POST", header, body, verify, faults) == Outcome(Response(401, Message(UnauthorizedText)), db)
    ensures RejectHandler(db, "POST", header, body, verify, faults) == Outcome(Response(401, Message(UnauthorizedText)), db)
  {
  }

  /** With a valid token, a body without a truthy request_id gives 400 and leaves the store as it was. */
  lemma MissingRequestIdIsBadRequest(db: Db, header: Option<string>, requestId: Option<string>,
                                     verify: string -> Option<Claims>, faults: Faults)
    requires VerifyToken(header, verify).Ok?
    requires !Truthy(requestId)
    ensures ApproveHandler(db, "POST", header, Fields(requestId), verify, faults) ==
      Outcome(Response(400, Message("request_id is required")), db)
    ensures RejectHandler(db, "POST", header, Fields(requestId), verify, faults) ==
      Outcome(Response(400, Message("request_id is required")), db)
  {
  }

  // ---------------------------------------------------------------- approve

  /** An absent or already processed request (or a failed lookup) gives 404 and changes nothing. */
  lemma ApproveNotFound(db: Db, admin: Claims, id: string, faults: Faults)
    ensures ApproveRequest(db, admin, id, faults).response.statusCode == 404 <==>
      faults.lookupError || |PendingWithId(db.requests, id)| != 1
    ensures ApproveRequest(db, admin, id, faults).response.statusCode == 404 ==>
      ApproveRequest(db, admin, id, faults).db == db
  {
  }

  /** A request no pending row matches is not found, whatever its room or interval. */
  lemma {:induction false} ApproveNonPendingNotFound(db: Db, admin: Claims, id: string, faults: Faults)
    requires forall k :: 0 <= k < |db.requests| && db.requests[k].id == id ==> db.requests[k].status != Pending
    ensures ApproveRequest(db, admin, id, faults) == Outcome(Response(404, Message(NotFoundText)), db)
  {
    PendingWithIdMembers(db.requests, id);
  }

  /**
    A pending request that some booking of its room clashes with (inclusively) is rejected:
    409, no booking added, the request's rows become rejected unless that unchecked update fails.
  */
  lemma {:induction false} ApproveOnConflict(db: Db, admin: Claims, id: string, faults: Faults)
    requires !faults.lookupError && !faults.conflictQueryError
    requires |PendingWithId(db.requests, id)| == 1
    requires var r := PendingWithId(db.requests, id)[0];
      exists i :: 0 <= i < |db.bookings| && ConflictsWith(db.bookings[i], r.roomId, r.start, r.end)
    ensures var o := ApproveRequest(db, admin, id, faults);
      && o.response == Response(409, Message(ConflictText))
      && o.db.bookings == db.bookings
      && o.db.auditLog == db.auditLog
      && o.db.rooms == db.rooms
      && o.db.requests == (if faults.updateError then db.requests else SetStatus(db.requests, id, Rejected))
  {
    var r := PendingWithId(db.requests, id)[0];
    ConflictsNonEmpty(db.bookings, r.roomId, r.start, r.end);
  }

  /**
    A pending request that no booking clashes with is approved: 200, exactly one booking with
    the request's student, room and interval is appended, the request's rows become approved
    (no other row changes), and one audit entry is appended unless the audit write fails.
  */
  lemma {:induction false} ApproveWithoutConflict(db: Db, admin: Claims, id: string, faults: Faults)
    requires !faults.lookupError && !faults.conflictQueryError && !faults.insertError && !faults.updateError
    requires |PendingWithId(db.requests, id)| == 1
    requires var r := PendingWithId(db.requests, id)[0];
      forall i :: 0 <= i < |db.bookings| ==> !ConflictsWith(db.bookings[i], r.roomId, r.start, r.end)
    ensures var r := PendingWithId(db.requests, id)[0];
      var o := ApproveRequest(db, admin, id, faults);
      && o.response == Response(200, Message(ApprovedText))
      && o.db.bookings == db.bookings + [Booking(r.studentId, r.roomId, r.start, r.end)]
      && o.db.requests == SetStatus(db.requests, id, Approved)
      && o.db.rooms == db.rooms
      && o.db.auditLog == db.auditLog +
           (if faults.auditError then [] else [AuditEntry(admin.username, ApproveBooking, id)])
  {
    var r := PendingWithId(db.requests, id)[0];
    ConflictsNonEmpty(db.bookings, r.roomId, r.start, r.end);
  }

  /** Whether the audit write succeeds or not, the response is the same. */
  lemma ApproveAuditIsBestEffort(db: Db, admin: Claims, id: string, faults: Faults)
    ensures ApproveRequest(db, admin, id, faults.(auditError := true)).response ==
            ApproveRequest(db, admin, id, faults.(auditError := false)).response
  {
  }

  /** The only outcome that changes the bookings is one inserted booking (200, or 500 when the later update fails). */
  lemma ApproveAddsAtMostOneBooking(db: Db, admin: Claims, id: string, faults: Faults)
    ensures var o := ApproveRequest(db, admin, id, faults);
      o.db.bookings == db.bookings ||
      (|PendingWithId(db.requests, id)| == 1 &&
       o.db.bookings == db.bookings + [BookingOf(PendingWithId(db.requests, id)[0])] &&
       o.response.statusCode in {200, 500})
  {
  }

  /** The booking invariant survives every approve, on every path. */
  lemma {:induction false} ApprovePreservesNoOverlap(db: Db, admin: Claims, id: string, faults: Faults)
    requires NoOverlap(db.bookings)
    ensures NoOverlap(ApproveRequest(db, admin, id, faults).db.bookings)
  {
    var matches := PendingWithId(db.requests, id);
    if !faults.lookupError && |matches| == 1 && !faults.conflictQueryError && !faults.insertError {
      var r := matches[0];
      if |Conflicts(db.bookings, r.roomId, r.start, r.end)| == 0 {
        AppendKeepsNoOverlap(db.bookings, BookingOf(r));
      }
    }
  }

  lemma ApproveHandlerPreservesNoOverlap(db: Db, httpMethod: string, header: Option<string>, body: ActionBody,
                                         verify: string -> Option<Claims>, faults: Faults)
    requires NoOverlap(db.bookings)
    ensures NoOverlap(ApproveHandler(db, httpMethod, header, body, verify, faults).db.bookings)
  {
    match AdmitAction(httpMethod, header, body, verify, ApproveFailedText)
    case Refused(_) =>
    case Admitted(admin, id) => ApprovePreservesNoOverlap(db, admin, id, faults);
  }

  /** Requests that already left `pending` keep their status (request ids are the table's primary key). */
  ghost predicate UniqueIds(requests: seq<BookingRequest>)
  {
    forall i, j :: 0 <= i < j < |requests| ==> requests[i].id != requests[j].id
  }

  lemma {:induction false} ApproveKeepsProcessedRequests(db: Db, admin: Claims, id: string, faults: Faults)
    requires UniqueIds(db.requests)
    ensures var o := ApproveRequest(db, admin, id, faults);
      |o.db.requests| == |db.requests| &&
      forall k :: 0 <= k < |db.requests| && db.requests[k].status != Pending ==> o.db.requests[k] == db.requests[k]
  {
    var matches := PendingWithId(db.requests, id);
    if !faults.lookupError && |matches| == 1 {
      SingleMatch(db.requests, id);
      var r := matches[0];
      var i :| 0 <= i < |db.requests| && db.requests[i] == r;
      forall k | 0 <= k < |db.requests| && db.requests[k].status != Pending ensures db.requests[k].id != id {
        assert k != i;
      }
    }
  }

  /**
    Two pending requests for the same room whose intervals clash: once the first is approved,
    approving the second is a conflict, so the two are never both approved.
  */
  lemma {:induction false} SecondClashingApprovalConflicts(db: Db, admin: Claims, id1: string, id2: string,
                                                          f1: Faults, f2: Faults)
    requires id1 != id2
    requires |PendingWithId(db.requests, id1)| == 1 && |PendingWithId(db.requests, id2)| == 1
    requires Clash(BookingOf(PendingWithId(db.requests, id1)[0]), BookingOf(PendingWithId(db.requests, id2)[0]))
    requires ApproveRequest(db, admin, id1, f1).response.statusCode == 200
    requires !f2.lookupError && !f2.conflictQueryError
    ensures var o2 := ApproveRequest(ApproveRequest(db, admin, id1, f1).db, admin, id2, f2);
      && o2.response == Response(409, Message(ConflictText))
      && o2.db.bookings == ApproveRequest(db, admin, id1, f1).db.bookings
  {
    var r1 := PendingWithId(db.requests, id1)[0];
    var r2 := PendingWithId(db.requests, id2)[0];
    var db1 := ApproveRequest(db, admin, id1, f1).db;
    assert db1.requests == SetStatus(db.requests, id1, Approved);
    assert db1.bookings == db.bookings + [BookingOf(r1)];
    SetStatusKeepsOthersPending(db.requests, id1, Approved, id2);
    assert PendingWithId(db1.requests, id2)[0] == r2;
    var last := |db1.bookings| - 1;
    assert db1.bookings[last] == BookingOf(r1);
    assert ConflictsWith(db1.bookings[last], r2.roomId, r2.start, r2.end);
    ApproveOnConflict(db1, admin, id2, f2);
  }

  /**
    The approve steps are not atomic: when the status update fails after the insert, the
    answer is 500 with the booking kept and the request still pending, and approving the
    request again then finds its own booking as a conflict and rejects it.
  */
  lemma {:induction false} FailedUpdateLeavesBooking(db: Db, admin: Claims, id: string, faults: Faults)
    requires !faults.lookupError && !faults.conflictQueryError && !faults.insertError && faults.updateError
    requires |PendingWithId(db.requests, id)| == 1
    requires var r := PendingWithId(db.requests, id)[0];
      r.start <= r.end &&
      forall i :: 0 <= i < |db.bookings| ==> !ConflictsWith(db.bookings[i], r.roomId, r.start, r.end)
    ensures var r := PendingWithId(db.requests, id)[0];
      var o1 := ApproveRequest(db, admin, id, faults);
      var o2 := ApproveRequest(o1.db, admin, id, NoFaults);
      && o1.response == Response(500, Message(ApproveFailedText))
      && o1.db.bookings == db.bookings + [BookingOf(r)]
      && o1.db.requests == db.requests
      && o2.response == Response(409, Message(ConflictText))
      && o2.db.bookings == o1.db.bookings
      && o2.db.requests == SetStatus(db.requests, id, Rejected)
  {
    var r := PendingWithId(db.requests, id)[0];
    ConflictsNonEmpty(db.bookings, r.roomId, r.start, r.end);
    var db1 := ApproveRequest(db, admin, id, faults).db;
    var last := |db1.bookings| - 1;
    assert db1.bookings[last] == BookingOf(r);
    ApproveOnConflict(db1, admin, id, NoFaults);
  }

  /** A request that was approved is not found by a second approve or a reject. */
  lemma {:induction false} ApprovedIsTerminal(db: Db, admin: Claims, id: string, faults: Faults, later: Faults)
    requires ApproveRequest(db, admin, id, faults).response.statusCode == 200
    ensures var db1 := ApproveRequest(db, admin, id, faults).db;
      ApproveRequest(db1, admin, id, later).response.statusCode == 404 &&
      RejectRequest(db1, admin, id, later).response.statusCode == 404
  {
    SetStatusLeavesNonePending(db.requests, id, Approved);
  }

  // ---------------------------------------------------------------- reject

  lemma RejectNotFound(db: Db, admin: Claims, id: string, faults: Faults)
    ensures RejectRequest(db, admin, id, faults).response.statusCode == 404 <==>
      faults.lookupError || |PendingWithId(db.requests, id)| != 1
    ensures RejectRequest(db, admin, id, faults).response.statusCode == 404 ==>
      RejectRequest(db, admin, id, faults).db == db
  {
  }

  /**
    A pending request is rejected without any conflict check: 200, the request's rows become
    rejected (no other row changes), the bookings are untouched, and an audit entry is
    appended unless the audit write fails.
  */
  lemma RejectPending(db: Db, admin: Claims, id: string, faults: Faults)
    requires !faults.lookupError && !faults.updateError
    requires |PendingWithId(db.requests, id)| == 1
    ensures var o := RejectRequest(db, admin, id, faults);
      && o.response == Response(200, Message(RejectedText))
      && o.db.requests == SetStatus(db.requests, id, Rejected)
      && o.db.bookings == db.bookings
      && o.db.rooms == db.rooms
      && o.db.auditLog == db.auditLog +
           (if faults.auditError then [] else [AuditEntry(admin.username, RejectBooking, id)])
  {
  }

  /** Reject never touches the bookings, so it keeps the booking invariant. */
  lemma RejectKeepsBookings(db: Db, admin: Claims, id: string, faults: Faults)
    ensures RejectRequest(db, admin, id, faults).db.bookings == db.bookings
  {
  }

  lemma RejectAuditIsBestEffort(db: Db, admin: Claims, id: string, faults: Faults)
    ensures RejectRequest(db, admin, id, faults.(auditError := true)).response ==
            RejectRequest(db, admin, id, faults.(auditError := false)).response
  {
  }

  lemma {:induction false} RejectedIsTerminal(db: Db, admin: Claims, id: string, faults: Faults, later: Faults)
    requires RejectRequest(db, admin, id, faults).response.statusCode == 200
    ensures var db1 := RejectRequest(db, admin, id, faults).db;
      ApproveRequest(db1, admin, id, later).response.statusCode == 404 &&
      RejectRequest(db1, admin, id, later).response.statusCode == 404
  {
    SetStatusLeavesNonePending(db.requests, id, Rejected);
  }
}
