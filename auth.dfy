/**
 * The auth gate (`authenticateToken`) and the login check. Token signing and
 * verification (JSON Web Tokens, HMAC-signed) and password hashing are oracles
 * passed in as functions: `verify` answers with the payload of a token it
 * accepts (signature good and not expired at the moment of the request), and
 * `matches` says whether a plaintext password fits a stored digest.
 */
module Auth {
  import opened Wrappers
  import opened Seqs
  import opened Records
  import opened Users

  /** The authorization scheme prefix, matched case-sensitively as the source does. */
  const Scheme := "Bearer "

  /** The text of `s` before its first space: the piece `split(' ')` puts next. */
  function FirstPiece(s: string): (r: string)
    ensures r <= s && ' ' !in r
    ensures r == s || s[|r|] == ' '
  {
    match FindIndex(s, (c: char) => c == ' ')
    case None => s
    case Some(k) => s[..k]
  }

  /**
   * The token of an authorization header: the second space-separated piece of
   * a header that starts with "Bearer ", when that piece is not empty.
   */
  function BearerToken(header: Option<string>): (r: Option<string>)
    ensures r.Some? <==>
      header.Some? && Scheme <= header.value && |header.value| > |Scheme| && header.value[|Scheme|] != ' '
    ensures r.Some? ==> r.value != [] && ' ' !in r.value && Scheme + r.value <= header.value
    ensures r.Some? ==> |Scheme + r.value| == |header.value| || header.value[|Scheme + r.value|] == ' '
  {
    if header.Some? && Scheme <= header.value then
      var piece := FirstPiece(header.value[|Scheme|..]);
      assert header.value == Scheme + header.value[|Scheme|..];
      if piece == [] then None else Some(piece)
    else None
  }

  /** A token without spaces survives the trip through the header, with or without trailing text. */
  lemma BearerRoundTrip(token: string, rest: string)
    requires token != [] && ' ' !in token
    requires rest == [] || rest[0] == ' '
    ensures BearerToken(Some(Scheme + token + rest)) == Some(token)
  {
    var h := Scheme + token + rest;
    assert h[|Scheme|] == token[0];
    var t := BearerToken(Some(h)).value;
    assert t == h[|Scheme|..|Scheme| + |token|] == token;
  }

  /**
   * The gate's decision: no token, a token the verifier rejects, and a payload
   * naming a user the store no longer has are each a 401; otherwise the
   * principal is `{id, username}` of the first user holding the claimed id.
   */
  function Authenticate(users: seq<User>, header: Option<string>, verify: string -> Option<Identity>): (r: Result<Identity>)
    ensures BearerToken(header).None? ==> r == Err(TokenMissing)
    ensures BearerToken(header).Some? && verify(BearerToken(header).value).None? ==> r == Err(TokenInvalid)
    ensures (&& BearerToken(header).Some?
             && verify(BearerToken(header).value).Some?
             && FindUserById(users, verify(BearerToken(header).value).value.id).None?)
            ==> r == Err(UserGone)
    ensures r.Ok? <==>
      && BearerToken(header).Some?
      && verify(BearerToken(header).value).Some?
      && FindUserById(users, verify(BearerToken(header).value).value.id).Some?
    ensures r.Err? ==> r.fault.Status() == 401
    ensures r.Ok? ==> r.value.id == verify(BearerToken(header).value).value.id
    ensures r.Ok? ==>
      FindUserById(users, r.value.id).Some? && IdentityOf(users[FindUserById(users, r.value.id).value]) == r.value
  {
    match BearerToken(header)
    case None => Err(TokenMissing)
    case Some(token) =>
      match verify(token)
      case None => Err(TokenInvalid)
      case Some(claims) =>
        match FindUserById(users, claims.id)
        case None => Err(UserGone)
        case Some(i) => Ok(IdentityOf(users[i]))
  }

  /** The verifier is asked about the extracted token and nothing else. */
  lemma VerifierSeesOnlyToken(users: seq<User>, header: Option<string>, v1: string -> Option<Identity>, v2: string -> Option<Identity>)
    requires BearerToken(header).Some? ==> v1(BearerToken(header).value) == v2(BearerToken(header).value)
    ensures Authenticate(users, header, v1) == Authenticate(users, header, v2)
  {
  }

  /**
   * The login check: both fields must be truthy, the first user with that
   * username must exist and the password must match its digest; an unknown
   * user and a wrong password are the same fault. On success the token payload
   * is that user's `{id, username}`.
   */
  function LoginDecision(users: seq<User>, username: Option<string>, password: Option<string>, matches: (string, string) -> bool): (r: Result<Identity>)
    ensures !Truthy(username) || !Truthy(password) ==> r == Err(MissingCredentials)
    ensures Truthy(username) && Truthy(password) && r.Err? ==> r == Err(InvalidCredentials)
    ensures r.Ok? <==>
      && Truthy(username) && Truthy(password)
      && FindUserByUsername(users, username.value).Some?
      && matches(password.value, users[FindUserByUsername(users, username.value).value].password)
    ensures r.Ok? ==> r.value == IdentityOf(users[FindUserByUsername(users, username.value).value])
  {
    if !Truthy(username) || !Truthy(password) then Err(MissingCredentials)
    else match FindUserByUsername(users, username.value)
      case None => Err(InvalidCredentials)
      case Some(i) =>
        if matches(password.value, users[i].password) then Ok(IdentityOf(users[i]))
        else Err(InvalidCredentials)
  }

  /** With unique usernames, the user a successful login finds is the only one holding that username. */
  lemma LoginFindsOnlyHolder(users: seq<User>, username: Option<string>, password: Option<string>,
                             matches: (string, string) -> bool, j: nat)
    requires UsernamesUnique(users)
    requires LoginDecision(users, username, password, matches).Ok?
    requires j < |users| && users[j].username == username.value
    ensures FindUserByUsername(users, username.value) == Some(j)
    ensures IdentityOf(users[j]) == LoginDecision(users, username, password, matches).value
  {
  }

  /**
   * Registering then logging in: once a fresh username is appended with the
   * digest of its password, logging in with that password yields the new user's
   * `{id, username}`, provided the hasher's digest matches its own plaintext.
   */
  lemma RegisterThenLogin(users: seq<User>, id: Id, username: string, password: string,
                          hash: string -> string, matches: (string, string) -> bool)
    requires username != [] && password != []
    requires FindUserByUsername(users, username).None?
    requires matches(password, hash(password))
    ensures LoginDecision(users + [User(id, username, hash(password), [])], Some(username), Some(password), matches)
         == Ok(Identity(id, username))
  {
    FindAppended(users, User(id, username, hash(password), []));
  }

  /**
   * Logging in then authenticating: a token whose payload the verifier gives
   * back, sent as "Bearer <token>", admits a principal with the payload's id;
   * when ids are unique it is exactly the user who logged in.
   */
  lemma LoginThenAuthenticate(users: seq<User>, username: Option<string>, password: Option<string>,
                              matches: (string, string) -> bool, token: string, verify: string -> Option<Identity>)
    requires LoginDecision(users, username, password, matches).Ok?
    requires verify(token) == Some(LoginDecision(users, username, password, matches).value)
    requires token != [] && ' ' !in token
    ensures Authenticate(users, Some(Scheme + token), verify).Ok?
    ensures Authenticate(users, Some(Scheme + token), verify).value.id == LoginDecision(users, username, password, matches).value.id
    ensures IdsUnique(users) ==>
      Authenticate(users, Some(Scheme + token), verify) == LoginDecision(users, username, password, matches)
  {
  }
}
