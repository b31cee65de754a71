/**
 * The session routes: `/login` issues a signed token after a password check,
 * `/Authen` verifies the bearer token of the Authorization header, and
 * `/logout` appends the header's token to a process-wide blacklist.
 * Token signing and verification, the password comparison and the account
 * store are parameters.
 */
module Session {
  import opened Values
  import opened Strings

  /** The payload signed into a token: the stored username and Position. */
  datatype Claims = Claims(username: string, position: string)

  // ---------------------------------------------------------------- /Authen

  const BearerPrefix: string := "Bearer "

  /**
   * The token `/Authen` verifies: the header must be present and start with
   * `Bearer `; the token is the second space-separated segment, i.e. the
   * text after the prefix up to the next space.
   */
  function BearerToken(header: Option<string>): (t: Option<string>)
    ensures t.Some? <==> header.Some? && BearerPrefix <= header.value
    ensures t.Some? ==> ' ' !in t.value && BearerPrefix + t.value <= header.value
    ensures t.Some? ==> |header.value| == |BearerPrefix| + |t.value|
                        || header.value[|BearerPrefix| + |t.value|] == ' '
  {
    if header.None? || !(BearerPrefix <= header.value) then None
    else
      var h := header.value;
      var rest := h[|BearerPrefix|..];
      assert h == "Bearer" + [' '] + rest;
      SplitAfterPiece("Bearer", rest, ' ');
      var parts := Split(h, ' ');
      assert parts[1] == Split(rest, ' ')[0];
      Some(parts[1])
  }

  /** A `Bearer ` header followed by a space-free token yields that token. */
  lemma BearerTokenOf(t: string)
    requires ' ' !in t
    ensures BearerToken(Some(BearerPrefix + t)) == Some(t)
  {
    var tok := BearerToken(Some(BearerPrefix + t));
    assert BearerPrefix <= BearerPrefix + t;
    var v := tok.value;
    var h := BearerPrefix + t;
    assert |v| <= |t|;
    forall k | 0 <= k < |v| ensures v[k] == t[k] {
      assert (BearerPrefix + v)[|BearerPrefix| + k] == h[|BearerPrefix| + k];
    }
    assert v == t[..|v|];
    if |v| < |t| {
      assert false;
    }
    assert t[..|t|] == t;
  }

  /** Responses of `/Authen`. */
  datatype AuthenResponse =
    | Unauthorized         // 401: header missing or not a bearer header
    | VerificationFailed   // 401: the token does not verify
    | Authenticated(decoded: Claims)
    | Revoked              // 401: only from the corrected route, token on the blacklist

  function AuthenStatus(r: AuthenResponse): int
  {
    if r.Authenticated? then 200 else 401
  }

  /**
   * `POST /Authen` as written. `verify` stands for the signature and expiry
   * check of the token library with the process secret.
   */
  function Authen(header: Option<string>, verify: string -> Option<Claims>): (r: AuthenResponse)
    ensures r.Unauthorized? <==> !(header.Some? && BearerPrefix <= header.value)
    ensures BearerToken(header).Some? ==> (r.Authenticated? <==> verify(BearerToken(header).value).Some?)
    ensures r.Authenticated? ==> verify(BearerToken(header).value) == Some(r.decoded)
    ensures !r.Revoked?
  {
    match BearerToken(header)
    case None => Unauthorized
    case Some(t) =>
      match verify(t)
      case None => VerificationFailed
      case Some(c) => Authenticated(c)
  }

  /** The corrected route: a blacklisted token is refused before it is verified. */
  function AuthenRevocable(header: Option<string>, verify: string -> Option<Claims>, blacklist: seq<string>): (r: AuthenResponse)
    ensures r.Unauthorized? <==> !(header.Some? && BearerPrefix <= header.value)
    ensures r.Revoked? <==> BearerToken(header).Some? && BearerToken(header).value in blacklist
    ensures r.Authenticated? ==>
              BearerToken(header).value !in blacklist && verify(BearerToken(header).value) == Some(r.decoded)
    ensures BearerToken(header).Some? && BearerToken(header).value !in blacklist ==>
              (r.Authenticated? <==> verify(BearerToken(header).value).Some?)
  {
    match BearerToken(header)
    case None => Unauthorized
    case Some(t) =>
      if t in blacklist then Revoked
      else
        match verify(t)
        case None => VerificationFailed
        case Some(c) => Authenticated(c)
  }

  // ---------------------------------------------------------------- /logout

  /**
   * The token `/logout` takes: the second space-separated segment of a
   * present, non-empty header, with no check of the prefix; a missing or
   * empty segment is no token.
   */
  function LogoutToken(header: Option<string>): (t: Option<string>)
    ensures t.Some? ==> t.value != "" && ' ' !in t.value
    ensures t.Some? ==> header.Some? && ' ' in header.value
  {
    if header.None? || header.value == "" then None
    else
      var parts := Split(header.value, ' ');
      if |parts| < 2 || parts[1] == "" then None
      else
        CountZero(header.value, ' ');
        Some(parts[1])
  }

  /** The segment between the first and the second space is the logout token. */
  lemma LogoutTokenOf(p: string, t: string, rest: string)
    requires ' ' !in p && ' ' !in t && t != ""
    requires rest == "" || rest[0] == ' '
    ensures LogoutToken(Some(p + " " + t + rest)) == Some(t)
  {
    var h := p + " " + t + rest;
    assert h == p + [' '] + (t + rest);
    SplitAfterPiece(p, t + rest, ' ');
    if rest == "" {
      assert t + rest == t;
      SplitPiece(t, ' ');
    } else {
      assert t + rest == t + [' '] + rest[1..];
      SplitAfterPiece(t, rest[1..], ' ');
    }
  }

  /** A header without a space carries no logout token. */
  lemma LogoutTokenMissing(header: Option<string>)
    requires header.None? || ' ' !in header.value
    ensures LogoutToken(header).None?
  {
  }

  /** An empty second segment (`"Bearer "`, `"a  b"`) is no logout token either. */
  lemma {:induction false} LogoutTokenEmpty(p: string, rest: string)
    requires ' ' !in p
    requires rest == "" || rest[0] == ' '
    ensures LogoutToken(Some(p + " " + rest)).None?
  {
    var h := p + " " + rest;
    assert h == p + [' '] + rest;
    SplitAfterPiece(p, rest, ' ');
    if rest == "" {
      SplitPiece(rest, ' ');
    } else {
      assert rest == "" + [' '] + rest[1..];
      SplitAfterPiece("", rest[1..], ' ');
    }
  }

  datatype LogoutResult = LogoutResult(status: int, blacklist: seq<string>)

  /** `POST /logout`: 401 without a token, otherwise the token is appended and 200 sent. */
  function Logout(header: Option<string>, blacklist: seq<string>): (r: LogoutResult)
    ensures r.status == 401 || r.status == 200
    ensures r.status == 401 <==> LogoutToken(header).None?
    ensures r.status == 401 ==> r.blacklist == blacklist
    ensures r.status == 200 ==> |r.blacklist| == |blacklist| + 1
    ensures r.status == 200 ==> r.blacklist[..|blacklist|] == blacklist
    ensures r.status == 200 ==> Some(r.blacklist[|blacklist|]) == LogoutToken(header)
  {
    match LogoutToken(header)
    case None => LogoutResult(401, blacklist)
    case Some(t) => LogoutResult(200, blacklist + [t])
  }

  // ---------------------------------------------------------------- server

  /** The process state the session routes share. */
  datatype Server = Server(blacklist: seq<string>)

  datatype Request = AuthenRequest(header: Option<string>) | LogoutRequest(header: Option<string>)

  datatype Reply = AuthenReply(authen: AuthenResponse) | LogoutReply(status: int)

  datatype Outcome = Outcome(server: Server, reply: Reply)

  /** One request served by the routes as written. */
  function Step(s: Server, req: Request, verify: string -> Option<Claims>): (o: Outcome)
    ensures req.AuthenRequest? ==> o.server == s
    ensures s.blacklist <= o.server.blacklist && |o.server.blacklist| <= |s.blacklist| + 1
  {
    match req
    case AuthenRequest(h) => Outcome(s, AuthenReply(Authen(h, verify)))
    case LogoutRequest(h) =>
      var r := Logout(h, s.blacklist);
      Outcome(Server(r.blacklist), LogoutReply(r.status))
  }

  /** The state after serving `reqs` in order. */
  function Run(s: Server, reqs: seq<Request>, verify: string -> Option<Claims>): Server
    decreases |reqs|
  {
    if |reqs| == 0 then s else Run(Step(s, reqs[0], verify).server, reqs[1..], verify)
  }

  /** The blacklist only grows, by at most one entry per request, and keeps its earlier entries. */
  lemma {:induction false} RunAppendOnly(s: Server, reqs: seq<Request>, verify: string -> Option<Claims>)
    ensures s.blacklist <= Run(s, reqs, verify).blacklist
    ensures |Run(s, reqs, verify).blacklist| <= |s.blacklist| + |reqs|
    decreases |reqs|
  {
    if |reqs| > 0 {
      RunAppendOnly(Step(s, reqs[0], verify).server, reqs[1..], verify);
    }
  }

  /**
   * As written the blacklist is never read: after a logout with
   * `Bearer <t>`, t is blacklisted, yet `/Authen` with the same header still
   * authenticates it.
   */
  lemma LoggedOutTokenStillAccepted(s: Server, t: string, c: Claims, verify: string -> Option<Claims>)
    requires ' ' !in t && t != ""
    requires verify(t) == Some(c)
    ensures var s1 := Step(s, LogoutRequest(Some(BearerPrefix + t)), verify).server;
      && s1.blacklist == s.blacklist + [t]
      && Step(s1, AuthenRequest(Some(BearerPrefix + t)), verify).reply == AuthenReply(Authenticated(c))
  {
    assert BearerPrefix + t == "Bearer" + " " + t + "";
    LogoutTokenOf("Bearer", t, "");
    BearerTokenOf(t);
  }

  /** With the corrected route, a logged-out token is refused. */
  lemma LoggedOutTokenRevoked(s: Server, t: string, verify: string -> Option<Claims>)
    requires ' ' !in t && t != ""
    ensures var s1 := Step(s, LogoutRequest(Some(BearerPrefix + t)), verify).server;
      AuthenRevocable(Some(BearerPrefix + t), verify, s1.blacklist) == Revoked
  {
    assert BearerPrefix + t == "Bearer" + " " + t + "";
    LogoutTokenOf("Bearer", t, "");
    BearerTokenOf(t);
  }

  // ---------------------------------------------------------------- /login

  /** A UserAccount row; `password` holds the stored hash. */
  datatype UserRow = UserRow(id: int, username: string, password: string, position: string)

  /** The result of the password comparison callback. */
  datatype CompareOutcome = Matched | Mismatched | CompareFailed

  datatype LoginResponse =
    | MissingCredentials   // 400
    | UnknownUser          // 404
    | LoggedIn(position: string, token: string)
    | LoginFailed          // 401
    | LoginError           // 500

  function LoginStatus(r: LoginResponse): int
  {
    match r
    case MissingCredentials => 400
    case UnknownUser => 404
    case LoggedIn(_, _) => 200
    case LoginFailed => 401
    case LoginError => 500
  }

  /** Rows returned by `SELECT * FROM UserAccount WHERE username = ?`, in table order. */
  function MatchingRows(users: seq<UserRow>, username: Value): (r: seq<UserRow>)
    ensures forall u :: u in r <==> u in users && username == Str(u.username)
  {
    if |users| == 0 then []
    else (if username == Str(users[0].username) then [users[0]] else []) + MatchingRows(users[1..], username)
  }

  /** The first row matching `username` sits at index `i`. */
  predicate FirstMatch(users: seq<UserRow>, username: Value, i: int)
  {
    0 <= i < |users| && username == Str(users[i].username)
    && forall j :: 0 <= j < i ==> username != Str(users[j].username)
  }

  lemma {:induction false} MatchingRowsHead(users: seq<UserRow>, username: Value)
    ensures |MatchingRows(users, username)| > 0 ==>
      exists i :: FirstMatch(users, username, i) && MatchingRows(users, username)[0] == users[i]
  {
    if |users| > 0 && username != Str(users[0].username) {
      MatchingRowsHead(users[1..], username);
      if |MatchingRows(users, username)| > 0 {
        var i :| FirstMatch(users[1..], username, i) && MatchingRows(users[1..], username)[0] == users[1..][i];
        assert FirstMatch(users, username, i + 1);
      }
    } else if |users| > 0 {
      assert FirstMatch(users, username, 0);
    }
  }

  /**
   * `POST /login`. `storeFails` is the outcome of the account query,
   * `compare` the password check against the stored hash and `sign` the token
   * signing with the process secret and a one-hour expiry.
   */
  function Login(username: Value, password: Value, users: seq<UserRow>, storeFails: bool,
                 compare: (Value, string) -> CompareOutcome, sign: Claims -> string): (r: LoginResponse)
    ensures LoginStatus(r) == 400 <==> Falsy(username) || Falsy(password)
    ensures LoginStatus(r) == 404 <==>
      !Falsy(username) && !Falsy(password) && !storeFails
      && forall i :: 0 <= i < |users| ==> username != Str(users[i].username)
    ensures !Falsy(username) && !Falsy(password) && storeFails ==> r == LoginError
    ensures !Falsy(username) && !Falsy(password) && !storeFails ==>
              forall i :: FirstMatch(users, username, i) ==>
                match compare(password, users[i].password)
                case CompareFailed => r == LoginError
                case Mismatched => r == LoginFailed
                case Matched => r == LoggedIn(users[i].position, sign(Claims(users[i].username, users[i].position)))
    ensures LoginStatus(r) == 500 ==> storeFails || exists i :: FirstMatch(users, username, i) && compare(password, users[i].password) == CompareFailed
    ensures LoginStatus(r) == 200 ==>
              exists i :: (FirstMatch(users, username, i)
                           && compare(password, users[i].password) == Matched
                           && r == LoggedIn(users[i].position, sign(Claims(users[i].username, users[i].position))))
    ensures LoginStatus(r) == 401 ==>
              exists i :: FirstMatch(users, username, i) && compare(password, users[i].password) == Mismatched
  {
    if Falsy(username) || Falsy(password) then MissingCredentials
    else if storeFails then LoginError
    else
      var rows := MatchingRows(users, username);
      MatchingRowsHead(users, username);
      if |rows| == 0 then
        assert forall i :: 0 <= i < |users| ==> username != Str(users[i].username) by {
          forall i | 0 <= i < |users| ensures username != Str(users[i].username) {
            assert users[i] in users;
            assert users[i] !in rows;
          }
        }
        UnknownUser
      else
        assert rows[0] in rows;
        var user := rows[0];
        match compare(password, user.password)
        case CompareFailed => LoginError
        case Mismatched => LoginFailed
        case Matched => LoggedIn(user.position, sign(Claims(user.username, user.position)))
  }

  /** With a correct password for a stored user, the issued token verifies to that user's claims. */
  lemma LoginThenAuthen(username: string, password: Value, users: seq<UserRow>,
                        compare: (Value, string) -> CompareOutcome, sign: Claims -> string,
                        verify: string -> Option<Claims>, i: int)
    requires !Falsy(password) && username != ""
    requires FirstMatch(users, Str(username), i)
    requires compare(password, users[i].password) == Matched
    requires forall c :: ' ' !in sign(c) && verify(sign(c)) == Some(c)
    ensures var r := Login(Str(username), password, users, false, compare, sign);
      r.LoggedIn? && Authen(Some(BearerPrefix + r.token), verify) == Authenticated(Claims(username, users[i].position))
  {
    var r := Login(Str(username), password, users, false, compare, sign);
    var j :| FirstMatch(users, Str(username), j) && compare(password, users[j].password) == Matched
      && r == LoggedIn(users[j].position, sign(Claims(users[j].username, users[j].position)));
    assert j == i by {
      if j < i { assert false; }
      if i < j { assert false; }
    }
    BearerTokenOf(r.token);
  }
}
