# Study-room booking: admin back end

This project models the administrator side of a study-room booking service. Five
serverless HTTP handlers sit over a small relational store. `adminLogin` issues a
24-hour admin token. `adminGetPendingRequests` lists the pending booking requests,
oldest first. `adminGetRoomStatus` lists the active rooms with the booking in
progress. `adminApproveBooking` turns a pending request into a booking unless a
booking of the same room overlaps it. `adminRejectBooking` rejects a pending request.
A page script, `admin-app.js`, drives these handlers. It keeps a pending confirmation
and the session token, and it labels requests with a "time ago".

The model has these parts:

- `Http` holds the prologue every handler repeats: the OPTIONS/method check, the
  `Bearer ` header check, and the `request_id` test of the two mutating handlers.
- `Bookings` holds the tables' rows, the inclusive conflict rule of the approval query
  and the booking invariant `NoOverlap`.
- `Approval` holds the approve and reject handlers as transitions of the store's value.
  A `Faults` record says which datastore call fails on an invocation.
- `StoreObject.Store` is a class whose tables those handlers update in place, one call
  after another. Each method is proved to answer and end exactly as the transition
  function says. Each method keeps the booking invariant as an object invariant.
- `PendingRequests` and `RoomStatus` model the two read handlers. The
  `forEach` that builds the room-to-booking map is a loop method.
- `Login` models the credential check and the token payload.
- `AdminApp` models `formatTimeAgo` and an `AdminSession` class holding the page's
  `sessionToken` and `pendingAction`.
- `Sorting` provides the stable insertion sort that stands for the datastore's `.order(...)`.

Timestamps are integers in milliseconds, room ids are integers, and strings are `seq<char>`.
The clock (`now`), token verification (`verify`) and datastore failures are
parameters.

Where the code and the service's design description differ, the model follows the code:

- Overlap is inclusive. The conflict query is `start_time <= end AND end_time >= start`, so
  bookings that only touch also conflict. The design asks for half-open intervals; the
  inclusive invariant implies the half-open one (`Bookings.NoOverlapIsHalfOpenDisjoint`).
- A failed request lookup answers 404, not 500, because the code tests `requestError || !request`.
- Approval is not all-or-nothing. The insert, the status update and the audit entry are
  separate calls. An update that fails after the insert leaves the new booking in place
  and the request pending (`Approval.FailedUpdateLeavesBooking`).

## Model

| member | source | states |
|---|---|---|
| Http.BearerToken | netlify/functions/adminApproveBooking.js:10-13 | a token is found exactly when the header is present and starts with `Bearer `, and the header is then that prefix followed by the token |
| Http.VerifyTokenAccepts | netlify/functions/adminApproveBooking.js:9-19 | verification succeeds exactly when the header has the prefix and the verifier accepts the text after its 7 characters, and yields the verifier's claims |
| Http.ClientHeaderRoundTrip | admin-app.js:300-303 | the header the page sends, `Bearer ` plus the token, gives the same token back to the handler |
| Http.Guard | netlify/functions/adminApproveBooking.js:29-39 | OPTIONS answers 200 with an empty body; any other method but the allowed one answers 405 "Method not allowed" |
| Http.GuardPasses | netlify/functions/adminApproveBooking.js:41-42 | the guard lets a request through exactly when the method is allowed and the token verifies, with the token's claims; a bad token on the allowed method answers 401 "Unauthorized" |
| Http.AdmitActionCodes | netlify/functions/adminApproveBooking.js:29-51 | the prologue's refusals in order: 200 for OPTIONS, 405 for another method, 401 for a bad token, 500 for an unparseable body, 400 for a missing or empty `request_id` |
| Http.AdmitActionAdmits | netlify/functions/adminApproveBooking.js:41-51 | a request is admitted exactly when it is a POST with a verified token and a truthy `request_id`, and carries those claims and that id |
| Bookings.ConflictsMembers | netlify/functions/adminApproveBooking.js:70-74 | the conflict query returns exactly the bookings of the room whose interval meets the request's, inclusively |
| Bookings.ConflictsNonEmpty | netlify/functions/adminApproveBooking.js:78 | `conflicts.length > 0` holds exactly when some booking conflicts |
| Bookings.ClashSymmetric | netlify/functions/adminApproveBooking.js:73-74 | the inclusive conflict rule is symmetric between two bookings |
| Bookings.AppendKeepsNoOverlap | netlify/functions/adminApproveBooking.js:70-104 | inserting a booking for which the conflict query found nothing keeps every pair of same-room bookings disjoint |
| Bookings.NoOverlapIsHalfOpenDisjoint | netlify/functions/adminApproveBooking.js:74 | under the inclusive invariant no two bookings of a room share an instant of their half-open intervals |
| Bookings.ActiveAtMostOne | netlify/functions/adminGetRoomStatus.js:59-63 | under the invariant, at most one booking of a room is active at any instant |
| Approval.PendingWithIdMembers | netlify/functions/adminApproveBooking.js:54-59 | the lookup selects exactly the rows with the id whose status is pending |
| Approval.SingleMatch | netlify/functions/adminApproveBooking.js:54-61 | when `.single()` yields a row, that row is a pending request with the id |
| Approval.SetStatus | netlify/functions/adminRejectBooking.js:70-73 | the update gives every row with the id the new status and leaves every other row as it was |
| Approval.SetStatusKeepsOthersPending | netlify/functions/adminApproveBooking.js:107-110 | updating one id leaves the pending rows of every other id unchanged |
| Approval.SetStatusLeavesNonePending | netlify/functions/adminApproveBooking.js:107-110 | after an update to approved or rejected, no row with the id is pending |
| Approval.HandlersRefuseWithoutChange | netlify/functions/adminRejectBooking.js:41-51 | every refusal of the prologue in either handler answers with that refusal and leaves the store unchanged |
| Approval.BadTokenIsUnauthorized | netlify/functions/adminApproveBooking.js:138-144 | a POST whose token does not verify answers 401 "Unauthorized" from both handlers and changes nothing |
| Approval.MissingRequestIdIsBadRequest | netlify/functions/adminApproveBooking.js:45-51 | with a valid token, a missing or empty `request_id` answers 400 from both handlers and changes nothing |
| Approval.ApproveNotFound | netlify/functions/adminApproveBooking.js:54-67 | approve answers 404 exactly when the lookup fails or no single pending row has the id, and then changes nothing |
| Approval.ApproveNonPendingNotFound | netlify/functions/adminApproveBooking.js:57-67 | a request with no pending row (already approved or rejected) is answered 404 "Request not found or already processed" with the store unchanged |
| Approval.ApproveOnConflict | netlify/functions/adminApproveBooking.js:78-92 | a pending request with a conflicting booking answers 409, adds no booking and no audit entry, and its rows become rejected unless that unchecked update fails |
| Approval.ApproveWithoutConflict | netlify/functions/adminApproveBooking.js:94-133 | without conflict and failures, approve answers 200, appends one booking with the request's student, room and interval, marks the request's rows approved, and appends an audit entry unless the audit write fails |
| Approval.ApproveAuditIsBestEffort | netlify/functions/adminApproveBooking.js:114-126 | the approve response does not depend on whether the audit write fails |
| Approval.ApproveAddsAtMostOneBooking | netlify/functions/adminApproveBooking.js:95-112 | approve leaves the bookings as they were or appends exactly the request's booking, and the latter only with a 200 or 500 answer |
| Approval.ApprovePreservesNoOverlap | netlify/functions/adminApproveBooking.js:69-112 | every approve, on every failure path, keeps the booking invariant |
| Approval.ApproveHandlerPreservesNoOverlap | netlify/functions/adminApproveBooking.js:21-155 | the whole approve handler keeps the booking invariant for any request |
| Approval.ApproveKeepsProcessedRequests | netlify/functions/adminApproveBooking.js:80-110 | with unique request ids, approve never changes a request that has already left pending |
| Approval.SecondClashingApprovalConflicts | netlify/functions/adminApproveBooking.js:70-102 | once one of two clashing pending requests is approved, approving the other answers 409 and adds no booking |
| Approval.FailedUpdateLeavesBooking | netlify/functions/adminApproveBooking.js:95-112 | a status update that fails after the insert answers 500 but keeps the new booking with the request still pending, and a retry then finds that booking as a conflict and rejects the request |
| Approval.ApprovedIsTerminal | netlify/functions/adminApproveBooking.js:54-67 | after a successful approve, a further approve or reject of the id answers 404 |
| Approval.RejectNotFound | netlify/functions/adminRejectBooking.js:54-67 | reject answers 404 exactly when the lookup fails or no single pending row has the id, and then changes nothing |
| Approval.RejectPending | netlify/functions/adminRejectBooking.js:69-93 | a pending request is rejected without a conflict check: 200, its rows become rejected, the bookings are untouched, and an audit entry is appended unless the audit write fails |
| Approval.RejectKeepsBookings | netlify/functions/adminRejectBooking.js:69-85 | reject never changes the bookings |
| Approval.RejectAuditIsBestEffort | netlify/functions/adminRejectBooking.js:77-85 | the reject response does not depend on whether the audit write fails |
| Approval.RejectedIsTerminal | netlify/functions/adminRejectBooking.js:54-73 | after a successful reject, a further approve or reject of the id answers 404 |
| StoreObject.Store.Approve | netlify/functions/adminApproveBooking.js:21-155 | the in-place handler answers and leaves the tables as the approve transition says, keeps the booking invariant and never changes the rooms |
| StoreObject.Store.Reject | netlify/functions/adminRejectBooking.js:21-115 | the in-place handler answers and leaves the tables as the reject transition says, and never changes the bookings or rooms |
| Sorting.SortBySorted | netlify/functions/adminGetPendingRequests.js:57 | the sort stands for `.order(...)`: its result is ascending in the key |
| Sorting.SortByPermutes | netlify/functions/adminGetRoomStatus.js:54 | the sorted rows are the queried rows, each as often as before |
| PendingRequests.DurationMinutes | netlify/functions/adminGetPendingRequests.js:65 | the duration is the nearest whole number of minutes, halves rounded up |
| PendingRequests.DurationWholeMinutes | netlify/functions/adminGetPendingRequests.js:63-65 | an interval of a whole number of minutes reports exactly that number |
| PendingRequests.OnlyPendingMembers | netlify/functions/adminGetPendingRequests.js:56 | the filter keeps exactly the pending requests |
| PendingRequests.FindRoom | netlify/functions/adminGetPendingRequests.js:54 | the embedded room is missing exactly when no room has the id, and is otherwise the first room with it |
| PendingRequests.FormatAll | netlify/functions/adminGetPendingRequests.js:62-77 | the mapping succeeds exactly when every request's room is found, and then each entry copies its request's fields, names its room and carries the rounded duration |
| PendingRequests.PendingResult | netlify/functions/adminGetPendingRequests.js:44-83 | a 200 answer lists each pending request once and nothing else, ordered by `created_at` ascending, each entry describing its request |
| PendingRequests.PendingRefusals | netlify/functions/adminGetPendingRequests.js:29-42 | OPTIONS answers 200, a non-GET method 405, and a GET with a bad token 401 |
| PendingRequests.MissingRoomFails | netlify/functions/adminGetPendingRequests.js:71 | a pending request whose room is missing makes the whole answer 500 "Failed to fetch pending requests" |
| RoomStatus.OnlyActiveMembers | netlify/functions/adminGetRoomStatus.js:53 | the rooms filter keeps exactly the active rooms |
| RoomStatus.ActiveBookingsMembers | netlify/functions/adminGetRoomStatus.js:59-63 | the bookings query keeps exactly the bookings with `start_time <= now <= end_time` |
| RoomStatus.LastFor | netlify/functions/adminGetRoomStatus.js:68-71 | the reference choice for a room: none when no booking of the room is listed, otherwise a listed booking of the room after which no booking of the room follows |
| RoomStatus.LastWinsIsLastFor | netlify/functions/adminGetRoomStatus.js:68-71 | the map built by overwriting has an entry for a room exactly when some booking of it is listed, and that entry is the room's last booking |
| RoomStatus.BuildBookingMap | netlify/functions/adminGetRoomStatus.js:68-71 | the `forEach` loop builds the last-write-wins map of the active bookings |
| RoomStatus.Join | netlify/functions/adminGetRoomStatus.js:74-78 | one entry per room, in order, with the room's id and name and its map entry or null |
| RoomStatus.GetRoomStatus | netlify/functions/adminGetRoomStatus.js:23-105 | the handler with its loop answers as the status function does |
| RoomStatus.RoomStatusResult | netlify/functions/adminGetRoomStatus.js:49-84 | a 200 answer lists every active room once and nothing else, in id order, each with its name and the last of its bookings active at `now` |
| RoomStatus.CurrentBookingIsActive | netlify/functions/adminGetRoomStatus.js:59-77 | an entry's booking is a booking of that room active at `now`, and there is none exactly when no booking of the room is active |
| RoomStatus.CurrentBookingIsUnique | netlify/functions/adminGetRoomStatus.js:59-77 | under the booking invariant, the entry's booking is the room's one booking active at `now` |
| RoomStatus.RoomStatusRefusals | netlify/functions/adminGetRoomStatus.js:31-45 | OPTIONS answers 200, a non-GET method 405, and a GET with a bad token 401 |
| Login.LoginSucceedsExactly | netlify/functions/adminLogin.js:41-56 | a POST logs in exactly when both fields equal the configured pair, and the token carries the username, role "admin" and a 24-hour lifetime |
| Login.LoginMismatchIsUnauthorized | netlify/functions/adminLogin.js:57-65 | any other parsed body answers 401 "Invalid credentials" |
| Login.LoginRefusals | netlify/functions/adminLogin.js:23-36 | OPTIONS answers 200, a non-POST method 405, and an unparseable body 500 "Login failed" (the parse error is caught at lines 66-76) |
| Login.IssuedTokenPassesGuard | netlify/functions/adminLogin.js:43-47 | a token that verifies to the claims login signs gets through every admin handler's guard with those claims |
| AdminApp.ElapsedMinutes | admin-app.js:359 | the elapsed time in whole minutes, rounded down, negative values included |
| AdminApp.Bucket | admin-app.js:361-367 | below 1 minute is "just now", 1 is one minute, 2 to 59 are minutes, 60 to 119 one hour, and beyond that the rounded-down hours, at least 2 |
| AdminApp.Decimal | admin-app.js:363 | the numeral printed for a count is made of digits, without a leading zero |
| AdminApp.DecimalRoundTrip | admin-app.js:363 | the printed numeral reads back as the count |
| AdminApp.FormatTimeAgoMeaning | admin-app.js:356-368 | the label in elapsed milliseconds: "Just now" exactly below a minute, "1 min ago", "N mins ago" for N from 2 to 59, "1 hour ago", and "N hours ago" from 2 hours on |
| AdminApp.EndpointFor | admin-app.js:297 | the approve endpoint is chosen exactly for an approve action |
| AdminApp.LoadFailureOf | admin-app.js:153-157 | a response fails exactly when its status is not 2xx, and fails as `Unauthorized` exactly when it is 401 |
| AdminApp.AdminSession.constructor | admin-app.js:36-44 | the session takes over the stored token, no action is pending, and the dashboard refreshes exactly when the token is truthy |
| AdminApp.AdminSession.ApproveRequest | admin-app.js:263-273 | the pending action becomes an approve of the request and the confirmation opens; the token is untouched |
| AdminApp.AdminSession.RejectRequest | admin-app.js:276-286 | the pending action becomes a reject of the request and the confirmation opens; the token is untouched |
| AdminApp.AdminSession.CloseModal | admin-app.js:330-333 | the confirmation closes and no action is pending |
| AdminApp.AdminSession.ExecuteAction | admin-app.js:289-306 | with no pending action nothing happens; otherwise the action read before closing decides the endpoint, the request id goes in the body under the session's bearer header, and no action stays pending |
| AdminApp.AdminSession.LoginAnswered | admin-app.js:88-91 | a 2xx login answer's token becomes the session token and refreshing starts; any other answer changes nothing |
| AdminApp.AdminSession.HandleLogout | admin-app.js:107-113 | the token is forgotten and refreshing stops |
| AdminApp.AdminSession.DashboardLoadFailed | admin-app.js:130-134 | only an `Unauthorized` failure logs out; any other failure leaves the session as it was |
| AdminApp.ActionCallIsAdmitted | admin-app.js:298-306 | the call a confirmed action makes with a verifying token and a non-empty id is admitted by the handler's prologue with that id |

## Left out

- The Supabase client and PostgREST are modelled as in-memory tables and filters. Query strings, HTTP transport and the datastore's own id and timestamp columns (booking id, `created_at` defaults, audit timestamps) are not part of this model.
- JWT signing and verification (`jsonwebtoken`) are cryptography in a library not shown. Verification is an oracle `verify` from token to claims. Signature checking and expiry live inside it. Login answers with the signed payload instead of the token text. No handler checks the `role` claim, and neither does the model.
- Concurrency and transactions: each handler is a sequence of separate datastore calls. Interleavings of two invocations are not modelled; `Approval.SecondClashingApprovalConflicts` covers the sequential case only.
- The reject handler attaches a `.catch` to the audit insert. The model treats that write as best-effort, with no effect on the response, as the approve handler states outright.
- Response headers (CORS, content type), `console.error` logging and the `error: error.message` field of the 500 bodies.
- `JSON.parse` is a parse that either fails or yields the fields. A `request_id` that is not a string (a number, an object) is not modelled: the page always sends a string.
- ISO timestamp strings and `Date` arithmetic are integers in milliseconds. JavaScript's floating-point division is exact division here, which agrees with it for any millisecond difference below 2^53.
- The order among rows with equal `created_at` (or equal room ids) is left open by the datastore. The model's sort keeps table order; only the ordering by the key is claimed.
- `admin-app.js` rendering, `formatTime`, `escapeHtml`, toasts, the modal's DOM and text, `sessionStorage`, the refresh timer's interval, `fetch` and the handling of the action's response (including the success toast), and the `Promise.all` rejection order are left out. `handleLogin` is modelled only from the login answer on (`AdminSession.LoginAnswered`). The trimming of the username and the request are left out.
- AdminApp.AdminSession.LoginAnswered: a second `startAutoRefresh` without a `stopAutoRefresh` leaves an earlier timer running; the model's `autoRefresh` flag does not count timers.
