/**
  The admin page's own logic: the "time ago" label of a request, and the page state that
  decides which endpoint a confirmed action calls (`pendingAction`) and when the session
  ends (`sessionToken`). Rendering, timers, storage and `fetch` are outside the model; an
  endpoint call is returned as a value.
*/
module AdminApp {
  import opened Common
  import opened Http

  // ---------------------------------------------------------------- formatTimeAgo

  /** `Math.floor((now - past) / 60000)`; Dafny's division by a positive constant is floor division. */
  function ElapsedMinutes(now: int, past: int): (m: int)
    ensures 60000 * m <= now - past < 60000 * (m + 1)
  {
    (now - past) / 60000
  }

  /** The five labels of `formatTimeAgo`. */
  datatype Ago = JustNow | OneMinute | Minutes(minutes: nat) | OneHour | Hours(hours: nat)

  function Bucket(diffMinutes: int): (a: Ago)
    ensures a == JustNow <==> diffMinutes < 1
    ensures a == OneMinute <==> diffMinutes == 1
    ensures a.Minutes? <==> 2 <= diffMinutes < 60
    ensures a.Minutes? ==> a.minutes == diffMinutes
    ensures a == OneHour <==> 60 <= diffMinutes < 120
    ensures a.Hours? ==> a.hours >= 2 && 60 * a.hours <= diffMinutes < 60 * (a.hours + 1)
  {
    if diffMinutes < 1 then JustNow
    else if diffMinutes == 1 then OneMinute
    else if diffMinutes < 60 then Minutes(diffMinutes)
    else
      var diffHours := diffMinutes / 60;
      if diffHours == 1 then OneHour else Hours(diffHours)
  }

  function DigitChar(d: nat): (c: char)
    requires d < 10
    ensures '0' <= c <= '9'
  {
    (('0' as int) + d) as char
  }

  /** The decimal numeral JavaScript's template literal prints for a natural number. */
  function Decimal(n: nat): (s: string)
    ensures |s| >= 1 && forall i :: 0 <= i < |s| ==> '0' <= s[i] <= '9'
    ensures s[0] == '0' ==> n == 0
  {
    if n < 10 then [DigitChar(n)] else Decimal(n / 10) + [DigitChar(n % 10)]
  }

  /** Reads a numeral back. */
  function ParseDecimal(s: string): nat
    requires forall i :: 0 <= i < |s| ==> '0' <= s[i] <= '9'
  {
    if s == [] then 0 else ParseDecimal(s[..|s| - 1]) * 10 + (s[|s| - 1] as int - '0' as int)
  }

  /** Every count in a label can be read back from it. */
  lemma {:induction false} DecimalRoundTrip(n: nat)
    ensures ParseDecimal(Decimal(n)) == n
  {
    if n >= 10 {
      DecimalRoundTrip(n / 10);
      var s := Decimal(n);
      assert s[..|s| - 1] == Decimal(n / 10);
    }
  }

  function Label(a: Ago): string
  {
    match a
    case JustNow => "Just now"
    case OneMinute => "1 min ago"
    case Minutes(m) => Decimal(m) + " mins ago"
    case OneHour => "1 hour ago"
    case Hours(h) => Decimal(h) + " hours ago"
  }

  /** `formatTimeAgo(timestamp)` with the clock's reading `now`; both in milliseconds. */
  function FormatTimeAgo(now: int, past: int): string
  {
    Label(Bucket(ElapsedMinutes(now, past)))
  }

  /**
    The label in terms of the elapsed milliseconds: under a minute (negative included) is
    "Just now"; then whole minutes up to 59; then whole hours.
  */
  lemma FormatTimeAgoMeaning(now: int, past: int)
    ensures var d := now - past; var text := FormatTimeAgo(now, past);
      && (text == "Just now" <==> d < 60000)
      && (60000 <= d < 120000 ==> text == "1 min ago")
      && (forall m: nat :: 2 <= m < 60 && 60000 * m <= d < 60000 * (m + 1) ==>
            text == Decimal(m) + " mins ago")
      && (3600000 <= d < 7200000 ==> text == "1 hour ago")
      && (forall h: nat :: h >= 2 && 3600000 * h <= d < 3600000 * (h + 1) ==>
            text == Decimal(h) + " hours ago")
  {
    var m := ElapsedMinutes(now, past);
    var a := Bucket(m);
    if a != JustNow {
      assert Label(a)[0] != 'J' by {
        match a
        case OneMinute =>
        case Minutes(k) => assert Label(a)[0] == Decimal(k)[0];
        case OneHour =>
        case Hours(k) => assert Label(a)[0] == Decimal(k)[0];
      }
    }
  }

  // ---------------------------------------------------------------- page state

  datatype ActionKind = ApproveAction | RejectAction

  /** `pendingAction = { type, requestId }`. */
  datatype PendingAction = PendingAction(kind: ActionKind, requestId: string)

  datatype Endpoint = AdminApproveBooking | AdminRejectBooking

  /** A POST to an endpoint with its `Authorization` header and JSON body. */
  datatype ApiCall = ApiCall(endpoint: Endpoint, authorization: string, body: ActionBody)

  /** `type === 'approve' ? 'adminApproveBooking' : 'adminRejectBooking'`. */
  function EndpointFor(kind: ActionKind): (e: Endpoint)
    ensures e == AdminApproveBooking <==> kind == ApproveAction
  {
    if kind == ApproveAction then AdminApproveBooking else AdminRejectBooking
  }

  /** `` `Bearer ${sessionToken}` ``: a null token is printed as "null". */
  function AuthorizationHeader(token: Option<string>): string
  {
    BearerPrefix + (if token.Some? then token.value else "null")
  }

  /** Why loading the dashboard failed: a 401 is rethrown as `Unauthorized`, anything else is not. */
  datatype LoadFailure = Unauthorized | Failed

  /** The loaders' test of a response: `response.ok` is a 2xx status. */
  function LoadFailureOf(status: int): (f: Option<LoadFailure>)
    ensures f.None? <==> 200 <= status < 300
    ensures f == Some(Unauthorized) <==> status == 401
  {
    if 200 <= status < 300 then None
    else if status == 401 then Some(Unauthorized)
    else Some(Failed)
  }

  class AdminSession {
    var sessionToken: Option<string>
    var pendingAction: Option<PendingAction>
    var modalOpen: bool
    var autoRefresh: bool

    /** `init()`: the stored token is taken over; a truthy one opens the dashboard and its refresh timer. */
    constructor (storedToken: Option<string>)
      ensures sessionToken == storedToken && pendingAction == None && !modalOpen
      ensures autoRefresh == Truthy(storedToken)
    {
      sessionToken := storedToken;
      pendingAction := None;
      modalOpen := false;
      autoRefresh := Truthy(storedToken);
    }

    /** `approveRequest(requestId, …)`: remember the action and open the confirmation. */
    method ApproveRequest(requestId: string)
      modifies this
      ensures pendingAction == Some(PendingAction(ApproveAction, requestId)) && modalOpen
      ensures sessionToken == old(sessionToken) && autoRefresh == old(autoRefresh)
    {
      pendingAction := Some(PendingAction(ApproveAction, requestId));
      modalOpen := true;
    }

    /** `rejectRequest(requestId, …)`. */
    method RejectRequest(requestId: string)
      modifies this
      ensures pendingAction == Some(PendingAction(RejectAction, requestId)) && modalOpen
      ensures sessionToken == old(sessionToken) && autoRefresh == old(autoRefresh)
    {
      pendingAction := Some(PendingAction(RejectAction, requestId));
      modalOpen := true;
    }

    /** `closeModal()`: hide the confirmation and forget the action. */
    method CloseModal()
      modifies this
      ensures pendingAction == None && !modalOpen
      ensures sessionToken == old(sessionToken) && autoRefresh == old(autoRefresh)
    {
      modalOpen := false;
      pendingAction := None;
    }

    /**
      `executeAction()`: nothing without a pending action; otherwise the action is read
      before `closeModal` clears it, and the call goes to the approve endpoint exactly when
      the action is an approval, with the request's id as `request_id`.
    */
    method ExecuteAction() returns (call: Option<ApiCall>)
      modifies this
      ensures old(pendingAction).None? ==> call.None? && unchanged(this)
      ensures old(pendingAction).Some? ==>
        && call == Some(ApiCall(EndpointFor(old(pendingAction).value.kind), AuthorizationHeader(sessionToken),
                                Fields(Some(old(pendingAction).value.requestId))))
        && pendingAction == None && !modalOpen
      ensures sessionToken == old(sessionToken) && autoRefresh == old(autoRefresh)
    {
      if pendingAction.None? {
        return None;
      }
      var kind, requestId := pendingAction.value.kind, pendingAction.value.requestId;
      CloseModal();
      var endpoint := EndpointFor(kind);
      call := Some(ApiCall(endpoint, AuthorizationHeader(sessionToken), Fields(Some(requestId))));
    }

    /** `handleLogout()`: forget the token and stop refreshing. */
    method HandleLogout()
      modifies this
      ensures sessionToken == None && !autoRefresh
      ensures pendingAction == old(pendingAction) && modalOpen == old(modalOpen)
    {
      sessionToken := None;
      autoRefresh := false;
    }

    /**
      `handleLogin()` once the login endpoint has answered: a 2xx answer's token becomes the
      session token and the dashboard starts refreshing; any other answer only shows an error.
    */
    method LoginAnswered(status: int, token: string)
      modifies this
      ensures 200 <= status < 300 ==> sessionToken == Some(token) && autoRefresh
      ensures !(200 <= status < 300) ==> unchanged(this)
      ensures pendingAction == old(pendingAction) && modalOpen == old(modalOpen)
    {
      if 200 <= status < 300 {
        sessionToken := Some(token);
        autoRefresh := true;
      }
    }

    /** The catch clause of `loadDashboardData`: only an `Unauthorized` failure logs out. */
    method DashboardLoadFailed(failure: LoadFailure)
      modifies this
      ensures failure == Unauthorized ==> sessionToken == None && !autoRefresh
      ensures failure != Unauthorized ==> unchanged(this)
      ensures pendingAction == old(pendingAction) && modalOpen == old(modalOpen)
    {
      if failure == Unauthorized {
        HandleLogout();
      }
    }
  }

  /**
    The call a confirmed action makes reaches the handler's store step: with a session token
    its verifier accepts and a non-empty request id, the request is admitted with that id.
  */
  lemma {:induction false} ActionCallIsAdmitted(kind: ActionKind, requestId: string, token: string,
                                               claims: Claims, verify: string -> Option<Claims>, failure: string)
    requires requestId != "" && verify(token) == Some(claims)
    ensures AdmitAction("POST", Some(AuthorizationHeader(Some(token))), Fields(Some(requestId)), verify, failure) ==
      Admitted(claims, requestId)
  {
    ClientHeaderRoundTrip(token);
  }
}
