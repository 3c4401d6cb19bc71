/** Token lifecycle: the request gate (`middleware` with `delete_auth_token`),
    `sign_up`, `login` and `logout`. Tokens are `"<userId>.<uuid>"` strings
    stored, with their expiry, in the owner's `authTokens` list. */
module Auth {
  import opened Wrappers
  import opened Text
  import opened Seqs
  import opened Records
  import opened Ids

  /** `existing_endpoints`: the gate checks these paths, compared exactly. */
  const ProtectedPaths: seq<string> := ["/applications", "/resume"]

  /** A token is valid for one day after login; times are in seconds. */
  const TokenLifetime: int := 86400

  datatype Request = Request(verb: string, path: string, authorization: Option<string>)

  /** What the gate does with a request: answer a preflight probe itself, let
      the route run, or answer 401 or 500. */
  datatype Gate = Preflight | Proceed | Unauthorized | GateError

  /** `headers["Authorization"].split(" ")[1]`; None where that raises (no
      header, or no space in it). The first word is not checked. */
  function BearerToken(header: Option<string>): Option<string>
  {
    match header
    case None => None
    case Some(h) =>
      var parts := Split(h, ' ');
      if |parts| >= 2 then Some(parts[1]) else None
  }

  /** `token.split(".")[0]`: the user id text the token starts with. */
  function TokenUserId(token: string): string
  {
    Split(token, '.')[0]
  }

  /** The header's user id text, as `get_userid_from_header` computes it. */
  function HeaderUserId(header: Option<string>): Option<string>
  {
    match BearerToken(header)
    case None => None
    case Some(tok) => Some(TokenUserId(tok))
  }

  /** The token login issues: `f"{user.id}.{uuid}"`. */
  function IssueToken(id: int, uuid: string): string
  {
    IntToString(id) + "." + uuid
  }

  /** The first stored entry for token tok: the one the gate looks at. */
  function FirstToken(ts: seq<AuthToken>, tok: string): Option<nat>
  {
    FirstIndex(ts, (t: AuthToken) => t.token == tok)
  }

  /** `delete_auth_token`: every entry equal to e (same token, same expiry) goes. */
  function WithoutEntry(ts: seq<AuthToken>, e: AuthToken): seq<AuthToken>
  {
    Filter(ts, (t: AuthToken) => t != e)
  }

  /** What logout keeps: the entries whose token differs from tok. */
  function WithoutToken(ts: seq<AuthToken>, tok: string): seq<AuthToken>
  {
    Filter(ts, (t: AuthToken) => t.token != tok)
  }

  /** The token-list loops one entry further. */
  lemma WithoutEntrySnoc(ts: seq<AuthToken>, t: AuthToken, e: AuthToken)
    ensures WithoutEntry(ts + [t], e) == WithoutEntry(ts, e) + (if t != e then [t] else [])
  {
    assert (ts + [t])[..|ts|] == ts;
  }

  lemma WithoutTokenSnoc(ts: seq<AuthToken>, t: AuthToken, tok: string)
    ensures WithoutToken(ts + [t], tok) == WithoutToken(ts, tok) + (if t.token != tok then [t] else [])
  {
    assert (ts + [t])[..|ts|] == ts;
  }

  /** The store with user i's token list replaced. */
  function SetTokens(s: State, i: nat, ts: seq<AuthToken>): State
    requires i < |s.users|
  {
    s.(users := s.users[i := s.users[i].(authTokens := ts)])
  }

  /** The `before_request` middleware: the gate's verdict and the store after
      it (changed only when the first matching entry has expired). A user id
      text that is not an integer makes the id query raise: GateError. */
  function Authorize(s: State, req: Request, now: int): (Gate, State)
  {
    if req.verb == "OPTIONS" then (Preflight, s)
    else if req.path !in ProtectedPaths then (Proceed, s)
    else match BearerToken(req.authorization)
      case None => (Unauthorized, s)
      case Some(tok) =>
        match ParseInt(TokenUserId(tok))
        case None => (GateError, s)
        case Some(uid) =>
          match FindUser(s.users, uid)
          case None => (Unauthorized, s)
          case Some(i) =>
            var ts := s.users[i].authTokens;
            match FirstToken(ts, tok)
            case None => (Unauthorized, s)
            case Some(k) =>
              if now <= ts[k].expiry then (Proceed, s)
              else (Unauthorized, SetTokens(s, i, WithoutEntry(ts, ts[k])))
  }

  datatype Profile = Profile(id: int, fullName: Option<string>, username: Option<string>, email: Option<string>)

  /** The body of a successful login: token, expiry and the stored profile. */
  datatype Session = Session(token: string, expiry: int, profile: Profile)

  function ProfileOf(u: User): Profile
  {
    Profile(u.id, u.fullName, u.username, u.email)
  }

  /** `login`: md5 stands for the MD5 hex digest, now for the clock, uuid for
      `uuid.uuid4()`. */
  function Login(s: State, username: Option<string>, password: Option<string>,
                 md5: string -> string, now: int, uuid: string): (Result<Session>, State)
  {
    if username.None? || password.None? then (Err(MissingCredentials), s)
    else match FindUsername(s.users, username.value)
      case None => (Err(UserNotFound), s)
      case Some(i) =>
        var u := s.users[i];
        if u.password != Some(md5(password.value)) then (Err(WrongPassword), s)
        else
          var entry := AuthToken(IssueToken(u.id, uuid), now + TokenLifetime);
          (Ok(Session(entry.token, entry.expiry, ProfileOf(u))), SetTokens(s, i, u.authTokens + [entry]))
  }

  /** `logout`: no gate runs before it, so a missing header, a non-integer
      id or an unknown user make it raise (500). */
  function Logout(s: State, header: Option<string>): (Result<()>, State)
  {
    match BearerToken(header)
    case None => (Err(InternalError), s)
    case Some(tok) =>
      match ParseInt(TokenUserId(tok))
      case None => (Err(InternalError), s)
      case Some(uid) =>
        match FindUser(s.users, uid)
        case None => (Err(InternalError), s)
        case Some(i) => (Ok(()), SetTokens(s, i, WithoutToken(s.users[i].authTokens, tok)))
  }

  /** `sign_up`: the new user is appended with the next user id. The result
      is the whole stored user; the handler's body (`to_json`) shows only its
      id, full name and username. */
  function SignUp(s: State, username: Option<string>, password: Option<string>,
                  fullName: Option<string>, md5: string -> string): (Result<User>, State)
  {
    if username.None? || password.None? || fullName.None? then (Err(MissingFields), s)
    else if FindUsername(s.users, username.value).Some? then (Err(UsernameTaken), s)
    else
      var u := User(NewUserId(s.users), username, Some(md5(password.value)), fullName, Some(""), [], []);
      (Ok(u), s.(users := s.users + [u]))
  }
}
