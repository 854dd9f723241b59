/**
  The tables the admin endpoints read and write, and the conflict rule of the approval
  handler. Timestamps are integers in milliseconds.
*/
module Bookings {

  type Millis = int
  type RoomId = int

  datatype Status = Pending | Approved | Rejected

  datatype Room = Room(id: RoomId, name: string, accessGroup: string, isActive: bool)

  datatype BookingRequest = BookingRequest(
    id: string, studentId: string, roomId: RoomId,
    start: Millis, end: Millis, status: Status, createdAt: Millis)

  /** A confirmed reservation; its own id is generated by the datastore and not modelled. */
  datatype Booking = Booking(studentId: string, roomId: RoomId, start: Millis, end: Millis)

  datatype AdminAction = ApproveBooking | RejectBooking

  /** A row of `audit_logs`; its timestamp is filled in by the datastore and not modelled. */
  datatype AuditEntry = AuditEntry(adminUsername: string, action: AdminAction, relatedRequestId: string)

  /** The booking an approved request materialises. */
  function BookingOf(r: BookingRequest): Booking
  {
    Booking(r.studentId, r.roomId, r.start, r.end)
  }

  /**
    The conflict query `start_time <= end AND end_time >= start` on one room: closed
    intervals, so bookings that only touch at an instant conflict.
  */
  predicate ConflictsWith(b: Booking, roomId: RoomId, start: Millis, end: Millis)
  {
    b.roomId == roomId && b.start <= end && b.end >= start
  }

  /** Two bookings clash under the same inclusive rule. */
  predicate Clash(a: Booking, b: Booking)
  {
    ConflictsWith(a, b.roomId, b.start, b.end)
  }

  /** The rows the conflict query returns, in table order. */
  function Conflicts(bookings: seq<Booking>, roomId: RoomId, start: Millis, end: Millis): seq<Booking>
  {
    if bookings == [] then []
    else
      var rest := Conflicts(bookings[1..], roomId, start, end);
      if ConflictsWith(bookings[0], roomId, start, end) then [bookings[0]] + rest else rest
  }

  /** The query returns exactly the conflicting bookings. */
  lemma {:induction false} ConflictsMembers(bookings: seq<Booking>, roomId: RoomId, start: Millis, end: Millis)
    ensures forall b :: b in Conflicts(bookings, roomId, start, end) <==>
      b in bookings && ConflictsWith(b, roomId, start, end)
  {
    if bookings != [] {
      ConflictsMembers(bookings[1..], roomId, start, end);
      assert bookings == [bookings[0]] + bookings[1..];
    }
  }

  /** The handler's test `conflicts.length > 0` holds exactly when some booking conflicts. */
  lemma ConflictsNonEmpty(bookings: seq<Booking>, roomId: RoomId, start: Millis, end: Millis)
    ensures |Conflicts(bookings, roomId, start, end)| > 0 <==>
      exists i :: 0 <= i < |bookings| && ConflictsWith(bookings[i], roomId, start, end)
  {
    ConflictsMembers(bookings, roomId, start, end);
    var c := Conflicts(bookings, roomId, start, end);
    if |c| > 0 {
      assert c[0] in c;
      var i :| 0 <= i < |bookings| && bookings[i] == c[0];
    }
    if exists i :: 0 <= i < |bookings| && ConflictsWith(bookings[i], roomId, start, end) {
      var i :| 0 <= i < |bookings| && ConflictsWith(bookings[i], roomId, start, end);
      assert bookings[i] in c;
    }
  }

  /** The booking invariant: no two bookings of the same room clash under the inclusive rule. */
  ghost predicate NoOverlap(bookings: seq<Booking>)
  {
    forall i, j :: 0 <= i < j < |bookings| ==> !Clash(bookings[i], bookings[j])
  }

  /** The inclusive rule is symmetric, so the invariant covers every ordered pair. */
  lemma ClashSymmetric(a: Booking, b: Booking)
    ensures Clash(a, b) <==> Clash(b, a)
  {
  }

  /** Appending a booking that the conflict query finds no clash for keeps the invariant. */
  lemma {:induction false} AppendKeepsNoOverlap(bookings: seq<Booking>, b: Booking)
    requires NoOverlap(bookings)
    requires |Conflicts(bookings, b.roomId, b.start, b.end)| == 0
    ensures NoOverlap(bookings + [b])
  {
    ConflictsNonEmpty(bookings, b.roomId, b.start, b.end);
    var s := bookings + [b];
    forall i, j | 0 <= i < j < |s| ensures !Clash(s[i], s[j]) {
      if j == |bookings| {
        assert s[j] == b && s[i] == bookings[i];
        assert !ConflictsWith(bookings[i], b.roomId, b.start, b.end);
      } else {
        assert s[i] == bookings[i] && s[j] == bookings[j];
      }
    }
  }

  /**
    The inclusive invariant is stronger than the half-open one the design asks for:
    no two bookings of a room share any instant of [start, end).
  */
  lemma NoOverlapIsHalfOpenDisjoint(bookings: seq<Booking>)
    requires NoOverlap(bookings)
    ensures forall i, j :: 0 <= i < j < |bookings| && bookings[i].roomId == bookings[j].roomId ==>
      !(bookings[i].start < bookings[j].end && bookings[j].start < bookings[i].end)
  {
  }

  /** A booking is active at `now` when `start_time <= now` and `end_time >= now`. */
  predicate ActiveAt(b: Booking, now: Millis)
  {
    b.start <= now && b.end >= now
  }

  /** Two bookings of one room active at the same instant clash, so the invariant allows at most one. */
  lemma {:induction false} ActiveAtMostOne(bookings: seq<Booking>, now: Millis, i: nat, j: nat)
    requires NoOverlap(bookings)
    requires i < |bookings| && j < |bookings|
    requires bookings[i].roomId == bookings[j].roomId
    requires ActiveAt(bookings[i], now) && ActiveAt(bookings[j], now)
    ensures i == j
  {
    if i < j {
      assert Clash(bookings[i], bookings[j]);
    } else if j < i {
      assert Clash(bookings[j], bookings[i]);
    }
  }
}
