/**
  `adminGetRoomStatus`: the active rooms ordered by id, each with the booking that is in
  progress at `now`, if any. The clock is a parameter.
*/
module RoomStatus {
  import opened Common
  import opened Http
  import opened Bookings
  import opened Sorting

  datatype RoomView = RoomView(id: RoomId, name: string, currentBooking: Option<Booking>)

  /** `.eq('is_active', true)`, in table order. */
  function OnlyActive(rooms: seq<Room>): seq<Room>
  {
    if rooms == [] then []
    else
      var rest := OnlyActive(rooms[1..]);
      if rooms[0].isActive then [rooms[0]] + rest else rest
  }

  lemma {:induction false} OnlyActiveMembers(rooms: seq<Room>)
    ensures forall r :: r in OnlyActive(rooms) <==> r in rooms && r.isActive
  {
    if rooms != [] {
      OnlyActiveMembers(rooms[1..]);
      assert rooms == [rooms[0]] + rooms[1..];
    }
  }

  function IdOf(r: Room): int
  {
    r.id
  }

  /** The rooms query: active rooms, `.order('id')`. */
  function ActiveRooms(rooms: seq<Room>): seq<Room>
  {
    SortBy(OnlyActive(rooms), IdOf)
  }

  /** The bookings query: `end_time >= now` and `start_time <= now`, in table order. */
  function ActiveBookings(bookings: seq<Booking>, now: Millis): seq<Booking>
  {
    if bookings == [] then []
    else
      var rest := ActiveBookings(bookings[1..], now);
      if ActiveAt(bookings[0], now) then [bookings[0]] + rest else rest
  }

  lemma {:induction false} ActiveBookingsMembers(bookings: seq<Booking>, now: Millis)
    ensures forall b :: b in ActiveBookings(bookings, now) <==> b in bookings && ActiveAt(b, now)
  {
    if bookings != [] {
      ActiveBookingsMembers(bookings[1..], now);
      assert bookings == [bookings[0]] + bookings[1..];
    }
  }

  /** The map `forEach` builds: each booking overwrites the entry of its room. */
  function LastWins(s: seq<Booking>): map<RoomId, Booking>
  {
    if s == [] then map[]
    else LastWins(s[..|s| - 1])[s[|s| - 1].roomId := s[|s| - 1]]
  }

  /** Reference definition: the last booking of the sequence for a room. */
  function LastFor(s: seq<Booking>, room: RoomId): (last: Option<Booking>)
    ensures last.None? <==> forall k :: 0 <= k < |s| ==> s[k].roomId != room
    ensures last.Some? ==>
      (exists k :: 0 <= k < |s| && s[k] == last.value && s[k].roomId == room &&
         forall j :: k < j < |s| ==> s[j].roomId != room)
  {
    if s == [] then None
    else if s[|s| - 1].roomId == room then Some(s[|s| - 1])
    else
      var init := s[..|s| - 1];
      var last := LastFor(init, room);
      if last.Some? then
        var k :| 0 <= k < |init| && init[k] == last.value && init[k].roomId == room &&
          forall j :: k < j < |init| ==> init[j].roomId != room;
        assert s[k] == last.value;
        last
      else last
  }

  /** The map holds, for every room, exactly the last booking of that room. */
  lemma {:induction false} LastWinsIsLastFor(s: seq<Booking>, room: RoomId)
    ensures room in LastWins(s) <==> LastFor(s, room).Some?
    ensures room in LastWins(s) ==> LastWins(s)[room] == LastFor(s, room).value
  {
    if s != [] && s[|s| - 1].roomId != room {
      LastWinsIsLastFor(s[..|s| - 1], room);
    }
  }

  /** `activeBookings.forEach(booking => { bookingMap[booking.room_id] = booking; })`. */
  method BuildBookingMap(active: seq<Booking>) returns (bookingMap: map<RoomId, Booking>)
    ensures bookingMap == LastWins(active)
  {
    bookingMap := map[];
    var i := 0;
    while i < |active|
      invariant 0 <= i <= |active|
      invariant bookingMap == LastWins(active[..i])
    {
      assert active[..i + 1][..i] == active[..i];
      bookingMap := bookingMap[active[i].roomId := active[i]];
      i := i + 1;
    }
    assert active[..|active|] == active;
  }

  /** `rooms.map(room => ({ id, name, current_booking: bookingMap[room.id] || null }))`. */
  function Join(rooms: seq<Room>, bookingMap: map<RoomId, Booking>): (views: seq<RoomView>)
    ensures |views| == |rooms|
    ensures forall k :: 0 <= k < |rooms| ==>
      views[k] == RoomView(rooms[k].id, rooms[k].name,
                           if rooms[k].id in bookingMap then Some(bookingMap[rooms[k].id]) else None)
  {
    if rooms == [] then []
    else
      var room := rooms[0];
      [RoomView(room.id, room.name, if room.id in bookingMap then Some(bookingMap[room.id]) else None)]
        + Join(rooms[1..], bookingMap)
  }

  const RoomStatusFailedText: string := "Failed to fetch room status"

  /** The handler's answer. `queryError` stands for an error reported by either select. */
  function RoomStatusResponse(httpMethod: string, header: Option<string>, verify: string -> Option<Claims>,
                              now: Millis, rooms: seq<Room>, bookings: seq<Booking>, queryError: bool)
    : Response<seq<RoomView>>
  {
    match Guard("GET", httpMethod, header, verify)
    case Stop(response) => response
    case Pass(_) =>
      if queryError then Response(500, Message(RoomStatusFailedText))
      else Response(200, Data(Join(ActiveRooms(rooms), LastWins(ActiveBookings(bookings, now)))))
  }

  /** The handler as the source runs it, with the `forEach` loop. */
  method GetRoomStatus(httpMethod: string, header: Option<string>, verify: string -> Option<Claims>,
                       now: Millis, rooms: seq<Room>, bookings: seq<Booking>, queryError: bool)
    returns (resp: Response<seq<RoomView>>)
    ensures resp == RoomStatusResponse(httpMethod, header, verify, now, rooms, bookings, queryError)
  {
    var gate := Guard<seq<RoomView>>("GET", httpMethod, header, verify);
    if gate.Stop? {
      return gate.response;
    }
    if queryError {
      return Response(500, Message(RoomStatusFailedText));
    }
    var activeRooms := ActiveRooms(rooms);
    var activeBookings := ActiveBookings(bookings, now);
    var bookingMap := BuildBookingMap(activeBookings);
    resp := Response(200, Data(Join(activeRooms, bookingMap)));
  }

  /**
    A successful answer has one entry per active room, in id order and nothing else; each
    entry names its room and carries the last booking of that room active at `now`, or none
    when no booking of the room is active.
  */
  lemma {:induction false} RoomStatusResult(httpMethod: string, header: Option<string>, verify: string -> Option<Claims>,
                                           now: Millis, rooms: seq<Room>, bookings: seq<Booking>, queryError: bool)
    requires RoomStatusResponse(httpMethod, header, verify, now, rooms, bookings, queryError).body.Data?
    ensures var resp := RoomStatusResponse(httpMethod, header, verify, now, rooms, bookings, queryError);
      var views := resp.body.value;
      var order := ActiveRooms(rooms);
      && resp.statusCode == 200
      && (forall r :: r in order <==> r in rooms && r.isActive)
      && multiset(order) == multiset(OnlyActive(rooms))
      && SortedBy(order, IdOf)
      && |views| == |order|
      && (forall k :: 0 <= k < |views| ==>
            views[k].id == order[k].id && views[k].name == order[k].name &&
            views[k].currentBooking == LastFor(ActiveBookings(bookings, now), order[k].id))
  {
    var order := ActiveRooms(rooms);
    var active := ActiveBookings(bookings, now);
    SortByPermutes(OnlyActive(rooms), IdOf);
    SortBySorted(OnlyActive(rooms), IdOf);
    OnlyActiveMembers(rooms);
    forall r ensures r in order <==> r in OnlyActive(rooms) {
      assert r in order <==> r in multiset(order);
      assert r in OnlyActive(rooms) <==> r in multiset(OnlyActive(rooms));
    }
    forall k | 0 <= k < |order| ensures
      (if order[k].id in LastWins(active) then Some(LastWins(active)[order[k].id]) else None)
        == LastFor(active, order[k].id)
    {
      LastWinsIsLastFor(active, order[k].id);
    }
  }

  /**
    What the entry's booking is: one of the room's bookings that is active at `now`; there is
    none exactly when no booking of the room is active.
  */
  lemma {:induction false} CurrentBookingIsActive(bookings: seq<Booking>, now: Millis, room: RoomId)
    ensures var current := LastFor(ActiveBookings(bookings, now), room);
      && (current.None? <==> forall b :: b in bookings && b.roomId == room ==> !ActiveAt(b, now))
      && (current.Some? ==> current.value in bookings && current.value.roomId == room && ActiveAt(current.value, now))
  {
    var active := ActiveBookings(bookings, now);
    ActiveBookingsMembers(bookings, now);
    var current := LastFor(active, room);
    if current.Some? {
      var k :| 0 <= k < |active| && active[k] == current.value && active[k].roomId == room;
      assert active[k] in active;
    }
  }

  /**
    Under the booking invariant at most one booking of a room is active at any instant, so
    the last-write-wins choice is the only candidate.
  */
  lemma {:induction false} CurrentBookingIsUnique(bookings: seq<Booking>, now: Millis, room: RoomId, i: nat)
    requires NoOverlap(bookings)
    requires i < |bookings| && bookings[i].roomId == room && ActiveAt(bookings[i], now)
    ensures LastFor(ActiveBookings(bookings, now), room) == Some(bookings[i])
  {
    CurrentBookingIsActive(bookings, now, room);
    var current := LastFor(ActiveBookings(bookings, now), room);
    assert bookings[i] in bookings;
    var j :| 0 <= j < |bookings| && bookings[j] == current.value;
    ActiveAtMostOne(bookings, now, i, j);
  }

  /** The method check and the token check come before any query. */
  lemma RoomStatusRefusals(httpMethod: string, header: Option<string>, verify: string -> Option<Claims>,
                           now: Millis, rooms: seq<Room>, bookings: seq<Booking>, queryError: bool)
    ensures httpMethod == "OPTIONS" ==>
      RoomStatusResponse(httpMethod, header, verify, now, rooms, bookings, queryError) == Response(200, Empty)
    ensures httpMethod != "OPTIONS" && httpMethod != "GET" ==>
      RoomStatusResponse(httpMethod, header, verify, now, rooms, bookings, queryError) ==
        Response(405, Message(MethodNotAllowedText))
    ensures httpMethod == "GET" && VerifyToken(header, verify).Err? ==>
      RoomStatusResponse(httpMethod, header, verify, now, rooms, bookings, queryError) ==
        Response(401, Message(UnauthorizedText))
  {
    GuardPasses<seq<RoomView>>("GET", httpMethod, header, verify);
  }
}
