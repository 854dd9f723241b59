/**
  `adminGetPendingRequests`: the pending rows of `booking_requests`, oldest first, each joined
  with its room's name and given a duration in whole minutes.
*/
module PendingRequests {
  import opened Common
  import opened Http
  import opened Bookings
  import opened Sorting

  datatype PendingView = PendingView(
    id: string, studentId: string, roomId: RoomId, roomName: string,
    start: Millis, end: Millis, duration: int, createdAt: Millis)

  /**
    `Math.round((end - start) / 60000)`. Math.round rounds to the nearest integer and halves
    upwards, which on integers is `floor((d + 30000) / 60000)`.
  */
  function DurationMinutes(start: Millis, end: Millis): (m: int)
    ensures 60000 * m - 30000 <= end - start < 60000 * m + 30000
  {
    (end - start + 30000) / 60000
  }

  /** A duration of a whole number of minutes is reported exactly. */
  lemma DurationWholeMinutes(start: Millis, minutes: int)
    ensures DurationMinutes(start, start + 60000 * minutes) == minutes
  {
  }

  /** `.eq('status', 'pending')`, in table order. */
  function OnlyPending(requests: seq<BookingRequest>): seq<BookingRequest>
  {
    if requests == [] then []
    else
      var rest := OnlyPending(requests[1..]);
      if requests[0].status == Pending then [requests[0]] + rest else rest
  }

  lemma {:induction false} OnlyPendingMembers(requests: seq<BookingRequest>)
    ensures forall r :: r in OnlyPending(requests) <==> r in requests && r.status == Pending
  {
    if requests != [] {
      OnlyPendingMembers(requests[1..]);
      assert requests == [requests[0]] + requests[1..];
    }
  }

  function CreatedAtOf(r: BookingRequest): int
  {
    r.createdAt
  }

  /** `.order('created_at', { ascending: true })` applied to the pending rows. */
  function PendingOrder(requests: seq<BookingRequest>): seq<BookingRequest>
  {
    SortBy(OnlyPending(requests), CreatedAtOf)
  }

  /** The room the embedded `rooms (name)` selection joins: the first room with the id. */
  function FindRoom(rooms: seq<Room>, id: RoomId): (found: Option<Room>)
    ensures found.None? <==> forall k :: 0 <= k < |rooms| ==> rooms[k].id != id
    ensures found.Some? ==>
      (exists k :: 0 <= k < |rooms| && rooms[k] == found.value && rooms[k].id == id &&
         forall j :: 0 <= j < k ==> rooms[j].id != id)
  {
    if rooms == [] then None
    else if rooms[0].id == id then Some(rooms[0])
    else
      var found := FindRoom(rooms[1..], id);
      if found.Some? then
        var k :| 0 <= k < |rooms[1..]| && rooms[1..][k] == found.value && rooms[1..][k].id == id &&
          forall j :: 0 <= j < k ==> rooms[1..][j].id != id;
        assert rooms[k + 1] == found.value;
        found
      else found
  }

  /** One element of `requests.map(...)`: fields copied, room name joined, duration computed. */
  function Format(r: BookingRequest, room: Room): PendingView
  {
    PendingView(r.id, r.studentId, r.roomId, room.name, r.start, r.end, DurationMinutes(r.start, r.end), r.createdAt)
  }

  /** A view describes a request when it copies its fields and names the request's room. */
  ghost predicate Describes(v: PendingView, r: BookingRequest, rooms: seq<Room>)
  {
    && v.id == r.id && v.studentId == r.studentId && v.roomId == r.roomId
    && v.start == r.start && v.end == r.end && v.createdAt == r.createdAt
    && v.duration == DurationMinutes(r.start, r.end)
    && FindRoom(rooms, r.roomId).Some? && v.roomName == FindRoom(rooms, r.roomId).value.name
  }

  /**
    `requests.map(...)`. A request whose room does not join has `rooms` null, so reading its
    name throws and the whole map fails.
  */
  function FormatAll(requests: seq<BookingRequest>, rooms: seq<Room>): (views: Option<seq<PendingView>>)
    ensures views.Some? <==> forall k :: 0 <= k < |requests| ==> FindRoom(rooms, requests[k].roomId).Some?
    ensures views.Some? ==>
      (|views.value| == |requests| &&
       forall k :: 0 <= k < |requests| ==> Describes(views.value[k], requests[k], rooms))
  {
    if requests == [] then Some([])
    else
      match FindRoom(rooms, requests[0].roomId)
      case None => None
      case Some(room) =>
        match FormatAll(requests[1..], rooms)
        case None => None
        case Some(rest) => Some([Format(requests[0], room)] + rest)
  }

  const PendingFailedText: string := "Failed to fetch pending requests"

  /** The whole handler; `queryError` stands for an error reported by the select. */
  function PendingHandler(httpMethod: string, header: Option<string>, verify: string -> Option<Claims>,
                          requests: seq<BookingRequest>, rooms: seq<Room>, queryError: bool)
    : Response<seq<PendingView>>
  {
    match Guard("GET", httpMethod, header, verify)
    case Stop(response) => response
    case Pass(_) =>
      if queryError then Response(500, Message(PendingFailedText))
      else match FormatAll(PendingOrder(requests), rooms)
        case None => Response(500, Message(PendingFailedText))
        case Some(views) => Response(200, Data(views))
  }

  /**
    A successful answer lists every pending request once and nothing else, oldest first,
    each entry copying the request's fields, naming its room and giving its rounded duration.
  */
  lemma PendingResult(httpMethod: string, header: Option<string>, verify: string -> Option<Claims>,
                      requests: seq<BookingRequest>, rooms: seq<Room>, queryError: bool)
    requires PendingHandler(httpMethod, header, verify, requests, rooms, queryError).body.Data?
    ensures var resp := PendingHandler(httpMethod, header, verify, requests, rooms, queryError);
      var views := resp.body.value;
      var order := PendingOrder(requests);
      && resp.statusCode == 200
      && multiset(order) == multiset(OnlyPending(requests))
      && (forall r :: r in order <==> r in requests && r.status == Pending)
      && |views| == |order|
      && (forall k :: 0 <= k < |views| ==> Describes(views[k], order[k], rooms))
      && (forall i, j :: 0 <= i < j < |views| ==> views[i].createdAt <= views[j].createdAt)
  {
    var order := PendingOrder(requests);
    SortByPermutes(OnlyPending(requests), CreatedAtOf);
    SortBySorted(OnlyPending(requests), CreatedAtOf);
    OnlyPendingMembers(requests);
    forall r ensures r in order <==> r in OnlyPending(requests) {
      assert r in order <==> r in multiset(order);
      assert r in OnlyPending(requests) <==> r in multiset(OnlyPending(requests));
    }
  }

  /** The method check and the token check come before any query. */
  lemma PendingRefusals(httpMethod: string, header: Option<string>, verify: string -> Option<Claims>,
                        requests: seq<BookingRequest>, rooms: seq<Room>, queryError: bool)
    ensures httpMethod == "OPTIONS" ==>
      PendingHandler(httpMethod, header, verify, requests, rooms, queryError) == Response(200, Empty)
    ensures httpMethod != "OPTIONS" && httpMethod != "GET" ==>
      PendingHandler(httpMethod, header, verify, requests, rooms, queryError) == Response(405, Message(MethodNotAllowedText))
    ensures httpMethod == "GET" && VerifyToken(header, verify).Err? ==>
      PendingHandler(httpMethod, header, verify, requests, rooms, queryError) == Response(401, Message(UnauthorizedText))
  {
    GuardPasses<seq<PendingView>>("GET", httpMethod, header, verify);
  }

  /** A pending request whose room is missing makes the whole answer a 500. */
  lemma {:induction false} MissingRoomFails(httpMethod: string, header: Option<string>, verify: string -> Option<Claims>,
                                           requests: seq<BookingRequest>, rooms: seq<Room>, k: nat)
    requires httpMethod == "GET" && VerifyToken(header, verify).Ok?
    requires k < |requests| && requests[k].status == Pending
    requires forall j :: 0 <= j < |rooms| ==> rooms[j].id != requests[k].roomId
    ensures PendingHandler(httpMethod, header, verify, requests, rooms, false) == Response(500, Message(PendingFailedText))
  {
    GuardPasses<seq<PendingView>>("GET", httpMethod, header, verify);
    var order := PendingOrder(requests);
    OnlyPendingMembers(requests);
    SortByPermutes(OnlyPending(requests), CreatedAtOf);
    assert requests[k] in OnlyPending(requests);
    assert requests[k] in multiset(order);
    var i :| 0 <= i < |order| && order[i] == requests[k];
    assert FindRoom(rooms, order[i].roomId).None?;
  }
}
