/**
  The request handling every serverless handler repeats before touching the store:
  the method check, the `Bearer ` header check with token verification, and, for the
  two mutating endpoints, the `request_id` taken from the JSON body.
*/
module Http {
  import opened Common

  /** A response body: empty, a `{message}` object, or an endpoint's data. */
  datatype Body<+T> = Empty | Message(text: string) | Data(value: T)

  datatype Response<+T> = Response(statusCode: int, body: Body<T>)

  /** The claims a verified token carries. Verification itself (signature, expiry) is an oracle. */
  datatype Claims = Claims(username: string, role: string)

  /** What `verifyToken` throws; both messages are mapped to 401 by every handler. */
  datatype AuthError = NoTokenProvided | InvalidToken

  const BearerPrefix: string := "Bearer "

  /** The token a header carries: the header with its first 7 characters removed. */
  function BearerToken(header: Option<string>): (token: Option<string>)
    ensures token.Some? <==> header.Some? && StartsWith(header.value, BearerPrefix)
    ensures token.Some? ==> header.value == BearerPrefix + token.value
  {
    if header.Some? && StartsWith(header.value, BearerPrefix) then
      assert header.value == header.value[..7] + header.value[7..];
      Some(header.value[7..])
    else None
  }

  /** `verifyToken(authHeader)`: the header check, then the verifier on the token. */
  function VerifyToken(header: Option<string>, verify: string -> Option<Claims>): Result<Claims, AuthError>
  {
    match BearerToken(header)
    case None => Err(NoTokenProvided)
    case Some(token) =>
      match verify(token)
      case None => Err(InvalidToken)
      case Some(claims) => Ok(claims)
  }

  lemma VerifyTokenAccepts(header: Option<string>, verify: string -> Option<Claims>)
    ensures VerifyToken(header, verify).Ok? <==>
      header.Some? && StartsWith(header.value, BearerPrefix) && verify(header.value[7..]).Some?
    ensures VerifyToken(header, verify).Ok? ==>
      VerifyToken(header, verify).value == verify(header.value[7..]).value
  {
  }

  /** The header the admin page sends is accepted by the header check, and yields the token back. */
  lemma {:induction false} ClientHeaderRoundTrip(token: string)
    ensures BearerToken(Some(BearerPrefix + token)) == Some(token)
  {
    var h := BearerPrefix + token;
    assert h[..|BearerPrefix|] == BearerPrefix;
    assert h[7..] == token;
  }

  /** Outcome of the steps shared by all handlers: go on with the caller's claims, or answer now. */
  datatype Gate<+T> = Pass(admin: Claims) | Stop(response: Response<T>)

  const UnauthorizedText: string := "Unauthorized"
  const MethodNotAllowedText: string := "Method not allowed"

  /** OPTIONS, then the allowed method, then the token (the handlers' 401 catch clause). */
  function Guard<T>(allowed: string, httpMethod: string, header: Option<string>,
                    verify: string -> Option<Claims>): (g: Gate<T>)
    ensures httpMethod == "OPTIONS" ==> g == Stop(Response(200, Empty))
    ensures httpMethod != "OPTIONS" && httpMethod != allowed ==> g == Stop(Response(405, Message(MethodNotAllowedText)))
  {
    if httpMethod == "OPTIONS" then Stop(Response(200, Empty))
    else if httpMethod != allowed then Stop(Response(405, Message(MethodNotAllowedText)))
    else match VerifyToken(header, verify)
      case Err(_) => Stop(Response(401, Message(UnauthorizedText)))
      case Ok(claims) => Pass(claims)
  }

  /** The guard lets a request through exactly when its method is allowed and its token verifies. */
  lemma GuardPasses<T>(allowed: string, httpMethod: string, header: Option<string>,
                       verify: string -> Option<Claims>)
    requires allowed != "OPTIONS"
    ensures Guard<T>(allowed, httpMethod, header, verify).Pass? <==>
      httpMethod == allowed && VerifyToken(header, verify).Ok?
    ensures Guard<T>(allowed, httpMethod, header, verify).Pass? ==>
      Guard<T>(allowed, httpMethod, header, verify).admin == VerifyToken(header, verify).value
    ensures httpMethod == allowed && VerifyToken(header, verify).Err? ==>
      Guard<T>(allowed, httpMethod, header, verify) == Stop(Response(401, Message(UnauthorizedText)))
  {
  }

  /** `JSON.parse(event.body)` followed by `const { request_id } = …`: either it throws, or it gives the field. */
  datatype ActionBody = Malformed | Fields(requestId: Option<string>)

  datatype Admission = Admitted(admin: Claims, requestId: string) | Refused(response: Response<()>)

  /**
    The prologue of the approve and reject handlers: method POST, the token, the JSON body
    (a parse failure is caught by the generic clause, a 500 with `failure` as message), and
    the `request_id` presence test (400).
  */
  function AdmitAction(httpMethod: string, header: Option<string>, body: ActionBody,
                       verify: string -> Option<Claims>, failure: string): Admission
  {
    match Guard<()>("POST", httpMethod, header, verify)
    case Stop(response) => Refused(response)
    case Pass(admin) =>
      match body
      case Malformed => Refused(Response(500, Message(failure)))
      case Fields(requestId) =>
        if !Truthy(requestId) then Refused(Response(400, Message("request_id is required")))
        else Admitted(admin, requestId.value)
  }

  /** Each way the prologue can end, as a status code; every refusal happens before the store is read. */
  lemma AdmitActionCodes(httpMethod: string, header: Option<string>, body: ActionBody,
                         verify: string -> Option<Claims>, failure: string)
    ensures var a := AdmitAction(httpMethod, header, body, verify, failure);
      && (httpMethod == "OPTIONS" ==> a == Refused(Response(200, Empty)))
      && (httpMethod != "OPTIONS" && httpMethod != "POST" ==> a == Refused(Response(405, Message(MethodNotAllowedText))))
      && (httpMethod == "POST" && VerifyToken(header, verify).Err? ==> a == Refused(Response(401, Message(UnauthorizedText))))
      && (httpMethod == "POST" && VerifyToken(header, verify).Ok? && body.Malformed? ==>
            a == Refused(Response(500, Message(failure))))
      && (httpMethod == "POST" && VerifyToken(header, verify).Ok? && body.Fields? && !Truthy(body.requestId) ==>
            a == Refused(Response(400, Message("request_id is required"))))
  {
  }

  /** Admission happens exactly when every check passes, with the verified claims and the body's id. */
  lemma AdmitActionAdmits(httpMethod: string, header: Option<string>, body: ActionBody,
                          verify: string -> Option<Claims>, failure: string)
    ensures AdmitAction(httpMethod, header, body, verify, failure).Admitted? <==>
      httpMethod == "POST" && VerifyToken(header, verify).Ok? && body.Fields? && Truthy(body.requestId)
    ensures AdmitAction(httpMethod, header, body, verify, failure).Admitted? ==>
      AdmitAction(httpMethod, header, body, verify, failure) ==
        Admitted(VerifyToken(header, verify).value, body.requestId.value)
  {
  }
}
