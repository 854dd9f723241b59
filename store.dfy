/**
  The datastore as an object whose tables the approve and reject handlers update in place,
  one awaited call after another. Each handler is proved to leave the store in the state,
  and to answer with the response, that the transition functions of module Approval give;
  the booking invariant is kept as an object invariant.
*/
module StoreObject {
  import opened Common
  import opened Http
  import opened Bookings
  import opened Approval

  class Store {
    var requests: seq<BookingRequest>
    var bookings: seq<Booking>
    var rooms: seq<Room>
    var auditLog: seq<AuditEntry>

    /** No two bookings of a room clash under the inclusive rule. */
    ghost predicate Valid()
      reads this
    {
      NoOverlap(bookings)
    }

    /** The tables' current contents. */
    function State(): Db
      reads this
    {
      Db(requests, bookings, rooms, auditLog)
    }

    constructor (requests: seq<BookingRequest>, bookings: seq<Booking>, rooms: seq<Room>)
      ensures State() == Db(requests, bookings, rooms, [])
      ensures NoOverlap(bookings) ==> Valid()
    {
      this.requests := requests;
      this.bookings := bookings;
      this.rooms := rooms;
      this.auditLog := [];
    }

    /** `adminApproveBooking`: prologue, lookup, conflict query, then insert, update and audit. */
    method Approve(httpMethod: string, authHeader: Option<string>, body: ActionBody,
                   verify: string -> Option<Claims>, faults: Faults) returns (resp: Response<()>)
      modifies this
      ensures Outcome(resp, State()) == ApproveHandler(old(State()), httpMethod, authHeader, body, verify, faults)
      ensures old(Valid()) ==> Valid()
      ensures rooms == old(rooms)
    {
      ghost var before := State();
      var admission := AdmitAction(httpMethod, authHeader, body, verify, ApproveFailedText);
      if admission.Refused? {
        return admission.response;
      }
      var admin, id := admission.admin, admission.requestId;

      var matches := PendingWithId(requests, id);
      if faults.lookupError || |matches| != 1 {
        return Response(404, Message(NotFoundText));
      }
      var request := matches[0];

      if faults.conflictQueryError {
        return Response(500, Message(ApproveFailedText));
      }
      var conflicts := Conflicts(bookings, request.roomId, request.start, request.end);
      if |conflicts| > 0 {
        if !faults.updateError {
          requests := SetStatus(requests, id, Rejected);
        }
        return Response(409, Message(ConflictText));
      }

      if faults.insertError {
        return Response(500, Message(ApproveFailedText));
      }
      if Valid() {
        AppendKeepsNoOverlap(bookings, BookingOf(request));
      }
      bookings := bookings + [BookingOf(request)];

      if faults.updateError {
        return Response(500, Message(ApproveFailedText));
      }
      requests := SetStatus(requests, id, Approved);

      if !faults.auditError {
        auditLog := auditLog + [AuditEntry(admin.username, ApproveBooking, id)];
      }
      resp := Response(200, Message(ApprovedText));
      assert Outcome(resp, State()) == ApproveRequest(before, admin, id, faults);
    }

    /** `adminRejectBooking`: prologue, lookup, status update, then the best-effort audit. */
    method Reject(httpMethod: string, authHeader: Option<string>, body: ActionBody,
                  verify: string -> Option<Claims>, faults: Faults) returns (resp: Response<()>)
      modifies this
      ensures Outcome(resp, State()) == RejectHandler(old(State()), httpMethod, authHeader, body, verify, faults)
      ensures bookings == old(bookings) && rooms == old(rooms)
      ensures old(Valid()) ==> Valid()
    {
      var admission := AdmitAction(httpMethod, authHeader, body, verify, RejectFailedText);
      if admission.Refused? {
        return admission.response;
      }
      var admin, id := admission.admin, admission.requestId;

      var matches := PendingWithId(requests, id);
      if faults.lookupError || |matches| != 1 {
        return Response(404, Message(NotFoundText));
      }

      if faults.updateError {
        return Response(500, Message(RejectFailedText));
      }
      requests := SetStatus(requests, id, Rejected);

      if !faults.auditError {
        auditLog := auditLog + [AuditEntry(admin.username, RejectBooking, id)];
      }
      resp := Response(200, Message(RejectedText));
    }
  }
}
