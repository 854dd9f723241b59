/**
  `adminLogin`: a single configured credential pair; a match yields a token carrying
  `{ username, role: 'admin' }` that expires after 24 hours. Signing is left abstract: the
  model answers with the payload the token is signed over.
*/
module Login {
  import opened Common
  import opened Http

  const AdminUsername: string := "adulibrary"
  const AdminPassword: string := "password123"
  const AdminRole: string := "admin"

  /** `expiresIn: '24h'`, in seconds. */
  const TokenLifetimeSeconds: nat := 24 * 60 * 60

  datatype TokenPayload = TokenPayload(username: string, role: string, expiresInSeconds: nat)

  /** `const { username, password } = JSON.parse(event.body)`: a parse failure, or the two fields. */
  datatype LoginBody = Unparseable | Credentials(username: Option<string>, password: Option<string>)

  function LoginHandler(httpMethod: string, body: LoginBody): Response<TokenPayload>
  {
    if httpMethod == "OPTIONS" then Response(200, Empty)
    else if httpMethod != "POST" then Response(405, Message(MethodNotAllowedText))
    else match body
      case Unparseable => Response(500, Message("Login failed"))
      case Credentials(username, password) =>
        if username == Some(AdminUsername) && password == Some(AdminPassword) then
          Response(200, Data(TokenPayload(username.value, AdminRole, TokenLifetimeSeconds)))
        else Response(401, Message("Invalid credentials"))
  }

  /** A POST with both fields equal to the configured pair, and only that, logs in. */
  lemma LoginSucceedsExactly(body: LoginBody)
    ensures LoginHandler("POST", body).statusCode == 200 <==>
      body == Credentials(Some(AdminUsername), Some(AdminPassword))
    ensures LoginHandler("POST", body).statusCode == 200 ==>
      LoginHandler("POST", body).body == Data(TokenPayload(AdminUsername, "admin", 86400))
  {
  }

  /** Any other parsed body is refused with 401 "Invalid credentials". */
  lemma LoginMismatchIsUnauthorized(username: Option<string>, password: Option<string>)
    requires username != Some(AdminUsername) || password != Some(AdminPassword)
    ensures LoginHandler("POST", Credentials(username, password)) == Response(401, Message("Invalid credentials"))
  {
  }

  lemma LoginRefusals(httpMethod: string, body: LoginBody)
    ensures httpMethod == "OPTIONS" ==> LoginHandler(httpMethod, body) == Response(200, Empty)
    ensures httpMethod != "OPTIONS" && httpMethod != "POST" ==>
      LoginHandler(httpMethod, body) == Response(405, Message(MethodNotAllowedText))
    ensures httpMethod == "POST" && body.Unparseable? ==>
      LoginHandler(httpMethod, body) == Response(500, Message("Login failed"))
  {
  }

  /**
    A token issued here, checked by a verifier that accepts what login signs, admits its
    bearer to the admin endpoints with the admin's claims.
  */
  lemma {:induction false} IssuedTokenPassesGuard(token: string, allowed: string, verify: string -> Option<Claims>)
    requires allowed != "OPTIONS"
    requires verify(token) == Some(Claims(AdminUsername, AdminRole))
    ensures Guard<()>(allowed, allowed, Some(BearerPrefix + token), verify) == Pass(Claims(AdminUsername, AdminRole))
  {
    ClientHeaderRoundTrip(token);
  }
}
