/** What the gate, login and logout promise, and how they fit together. */
module AuthProperties {
  import opened Wrappers
  import opened Text
  import opened Seqs
  import opened Records
  import opened Ids
  import opened Auth

  /** A preflight probe is answered by the gate itself, whatever its path. */
  lemma PreflightAlwaysPasses(s: State, req: Request, now: int)
    requires req.verb == "OPTIONS"
    ensures Authorize(s, req, now) == (Preflight, s)
  {
  }

  /** Paths outside the list are not checked at all. */
  lemma UncheckedPathsPass(s: State, req: Request, now: int)
    requires req.verb != "OPTIONS" && req.path !in ProtectedPaths
    ensures Authorize(s, req, now) == (Proceed, s)
  {
  }

  /** The item routes of the ledger are outside the exact-match list: a
      delete reaches its handler without any header. */
  lemma ItemRoutesUnchecked(s: State, now: int)
    ensures Authorize(s, Request("DELETE", "/applications/3", None), now) == (Proceed, s)
  {
    assert "/applications/3" != "/applications" by {
      assert |"/applications/3"| != |"/applications"|;
    }
    assert "/applications/3" != "/resume" by {
      assert "/applications/3"[1] != "/resume"[1];
    }
  }

  /** A checked request without a usable header is rejected, and nothing changes. */
  lemma MissingHeaderRejected(s: State, req: Request, now: int)
    requires req.verb != "OPTIONS" && req.path in ProtectedPaths
    requires BearerToken(req.authorization).None?
    ensures Authorize(s, req, now) == (Unauthorized, s)
  {
  }

  /** The user the token names exists and the first entry stored for the
      token has not expired. */
  ghost predicate LiveSession(s: State, tok: string, now: int)
  {
    exists i, k ::
      && 0 <= i < |s.users| && 0 <= k < |s.users[i].authTokens|
      && ParseInt(TokenUserId(tok)) == Some(s.users[i].id)
      && s.users[i].authTokens[k].token == tok
      && now <= s.users[i].authTokens[k].expiry
      && forall j :: 0 <= j < k ==> s.users[i].authTokens[j].token != tok
  }

  /** A token whose first entry for a user (with the id the token names)
      has not expired lets a checked request through. */
  lemma LiveEntryAccepted(s: State, req: Request, now: int, tok: string, i: nat, k: nat)
    requires Valid(s)
    requires req.verb != "OPTIONS" && req.path in ProtectedPaths
    requires BearerToken(req.authorization) == Some(tok)
    requires i < |s.users| && ParseInt(TokenUserId(tok)) == Some(s.users[i].id)
    requires k < |s.users[i].authTokens| && s.users[i].authTokens[k].token == tok
    requires forall j :: 0 <= j < k ==> s.users[i].authTokens[j].token != tok
    requires now <= s.users[i].authTokens[k].expiry
    ensures Authorize(s, req, now) == (Proceed, s)
  {
    var fi := FindUser(s.users, s.users[i].id);
    assert fi == Some(i) by {
      assert fi.Some? && fi.value == i;
    }
    var fk := FirstToken(s.users[i].authTokens, tok);
    assert fk == Some(k) by {
      assert fk.Some? && fk.value == k;
    }
  }

  /** A checked request that proceeds carries the token of a live session. */
  lemma AcceptedIsLive(s: State, req: Request, now: int)
    requires req.verb != "OPTIONS" && req.path in ProtectedPaths
    requires Authorize(s, req, now).0 == Proceed
    ensures BearerToken(req.authorization).Some? && LiveSession(s, BearerToken(req.authorization).value, now)
  {
    var tok := BearerToken(req.authorization).value;
    var uid := ParseInt(TokenUserId(tok)).value;
    var i := FindUser(s.users, uid).value;
    var k := FirstToken(s.users[i].authTokens, tok).value;
    assert s.users[i].authTokens[k].token == tok;
  }

  /** A checked request proceeds exactly when its header carries a token of
      a live session. */
  lemma AuthorizeAcceptsIff(s: State, req: Request, now: int)
    requires Valid(s)
    requires req.verb != "OPTIONS" && req.path in ProtectedPaths
    ensures Authorize(s, req, now).0 == Proceed <==>
              BearerToken(req.authorization).Some? && LiveSession(s, BearerToken(req.authorization).value, now)
  {
    if Authorize(s, req, now).0 == Proceed {
      AcceptedIsLive(s, req, now);
    } else if BearerToken(req.authorization).Some? && LiveSession(s, BearerToken(req.authorization).value, now) {
      var tok := BearerToken(req.authorization).value;
      var i, k :| && 0 <= i < |s.users| && 0 <= k < |s.users[i].authTokens|
                  && ParseInt(TokenUserId(tok)) == Some(s.users[i].id)
                  && s.users[i].authTokens[k].token == tok
                  && now <= s.users[i].authTokens[k].expiry
                  && forall j :: 0 <= j < k ==> s.users[i].authTokens[j].token != tok;
      LiveEntryAccepted(s, req, now, tok, i, k);
    }
  }

  /** The gate changes the store only when it rejects. */
  lemma AcceptIsReadOnly(s: State, req: Request, now: int)
    ensures Authorize(s, req, now).0 != Unauthorized ==> Authorize(s, req, now).1 == s
  {
  }

  /** When the first entry for the token has expired, the request is
      rejected and every entry equal to that one leaves the owner's list;
      the other entries stay, in order, and nothing else changes. */
  lemma ExpiredEntryRemoved(s: State, req: Request, now: int, tok: string, i: nat, k: nat)
    requires Valid(s)
    requires req.verb != "OPTIONS" && req.path in ProtectedPaths
    requires BearerToken(req.authorization) == Some(tok)
    requires i < |s.users| && ParseInt(TokenUserId(tok)) == Some(s.users[i].id)
    requires k < |s.users[i].authTokens| && s.users[i].authTokens[k].token == tok
    requires forall j :: 0 <= j < k ==> s.users[i].authTokens[j].token != tok
    requires s.users[i].authTokens[k].expiry < now
    ensures var (g, s') := Authorize(s, req, now);
            var ts := s.users[i].authTokens;
            && g == Unauthorized
            && s'.jobs == s.jobs && |s'.users| == |s.users|
            && (forall j :: 0 <= j < |s.users| && j != i ==> s'.users[j] == s.users[j])
            && s'.users[i] == s.users[i].(authTokens := WithoutEntry(ts, ts[k]))
            && ts[k] !in s'.users[i].authTokens
  {
    var fi := FindUser(s.users, s.users[i].id);
    assert fi == Some(i) by {
      assert fi.Some? && fi.value == i;
    }
    var fk := FirstToken(s.users[i].authTokens, tok);
    assert fk == Some(k) by {
      assert fk.Some? && fk.value == k;
    }
  }

  /** The header a client sends after login carries the token back. */
  lemma BearerOfToken(tok: string)
    requires ' ' !in tok
    ensures BearerToken(Some("Bearer " + tok)) == Some(tok)
  {
    assert "Bearer " + tok == "Bearer" + [' '] + tok;
    SplitAtFirstSep("Bearer", ' ', tok);
    SplitWithoutSep(tok, ' ');
  }

  /** The id a token starts with is the id it was issued for. */
  lemma IssuedTokenNamesUser(id: int, uuid: string)
    ensures ParseInt(TokenUserId(IssueToken(id, uuid))) == Some(id)
  {
    IntToStringPlain(id);
    assert IssueToken(id, uuid) == IntToString(id) + ['.'] + uuid;
    SplitAtFirstSep(IntToString(id), '.', uuid);
    ParseIntRoundTrip(id);
  }

  /** Login fails without changing anything when a field is missing, the
      user is unknown or the digest differs. */
  lemma LoginErrorsChangeNothing(s: State, username: Option<string>, password: Option<string>,
                                 md5: string -> string, now: int, uuid: string)
    ensures Login(s, username, password, md5, now, uuid).0.Err? ==> Login(s, username, password, md5, now, uuid).1 == s
    ensures Login(s, username, password, md5, now, uuid).0.Ok? <==>
              && username.Some? && password.Some?
              && FindUsername(s.users, username.value).Some?
              && s.users[FindUsername(s.users, username.value).value].password == Some(md5(password.value))
    ensures username.None? || password.None? ==>
              Login(s, username, password, md5, now, uuid).0 == Err(MissingCredentials)
    ensures username.Some? && password.Some? && FindUsername(s.users, username.value).None? ==>
              Login(s, username, password, md5, now, uuid).0 == Err(UserNotFound)
    ensures username.Some? && password.Some? && FindUsername(s.users, username.value).Some? &&
            s.users[FindUsername(s.users, username.value).value].password != Some(md5(password.value)) ==>
              Login(s, username, password, md5, now, uuid).0 == Err(WrongPassword)
  {
  }

  /** A successful login appends exactly one entry, `"<id>.<uuid>"` valid for
      one day, to the user's list and changes nothing else. */
  lemma LoginAppendsOneToken(s: State, username: Option<string>, password: Option<string>,
                             md5: string -> string, now: int, uuid: string)
    requires Login(s, username, password, md5, now, uuid).0.Ok?
    ensures var (r, s') := Login(s, username, password, md5, now, uuid);
            var i := FindUsername(s.users, username.value).value;
            && r.value.token == IssueToken(s.users[i].id, uuid)
            && r.value.expiry == now + TokenLifetime
            && r.value.profile == ProfileOf(s.users[i])
            && s'.jobs == s.jobs && |s'.users| == |s.users|
            && (forall j :: 0 <= j < |s.users| && j != i ==> s'.users[j] == s.users[j])
            && s'.users[i] == s.users[i].(authTokens := s.users[i].authTokens + [AuthToken(r.value.token, r.value.expiry)])
  {
  }

  /** The token login returns opens the checked routes for one day, provided
      the uuid holds no space and was not already issued to that user. */
  lemma LoginThenAuthorize(s: State, username: Option<string>, password: Option<string>,
                           md5: string -> string, t: int, uuid: string, req: Request, now: int)
    requires Valid(s)
    requires Login(s, username, password, md5, t, uuid).0.Ok?
    requires ' ' !in uuid
    requires forall i, k :: 0 <= i < |s.users| && 0 <= k < |s.users[i].authTokens| ==>
               s.users[i].authTokens[k].token != IssueToken(s.users[i].id, uuid)
    requires req.verb != "OPTIONS" && req.path in ProtectedPaths
    requires req.authorization == Some("Bearer " + Login(s, username, password, md5, t, uuid).0.value.token)
    requires t <= now <= t + TokenLifetime
    ensures Authorize(Login(s, username, password, md5, t, uuid).1, req, now) == (Proceed, Login(s, username, password, md5, t, uuid).1)
  {
    var (r, s') := Login(s, username, password, md5, t, uuid);
    var i := FindUsername(s.users, username.value).value;
    var u := s.users[i];
    var tok := IssueToken(u.id, uuid);
    assert r.value.token == tok;
    IntToStringPlain(u.id);
    assert ' ' !in tok;
    BearerOfToken(tok);
    IssuedTokenNamesUser(u.id, uuid);
    var fi := FindUser(s'.users, u.id);
    assert fi == Some(i) by {
      assert s'.users[i].id == u.id;
      assert forall j :: 0 <= j < |s'.users| && j != i ==> s'.users[j].id != u.id;
    }
    var ts := u.authTokens + [AuthToken(tok, t + TokenLifetime)];
    assert s'.users[i].authTokens == ts;
    var fk := FirstToken(ts, tok);
    assert fk == Some(|ts| - 1) by {
      assert ts[|ts| - 1].token == tok;
      forall j | 0 <= j < |ts| - 1 ensures ts[j].token != tok {
        assert ts[j] == u.authTokens[j];
      }
    }
  }

  /** Logout drops exactly the entries carrying its token and keeps the
      others in order; nothing else changes. */
  lemma LogoutRemovesToken(s: State, header: Option<string>)
    requires Logout(s, header).0.Ok?
    ensures var s' := Logout(s, header).1;
            var tok := BearerToken(header).value;
            var i := FindUser(s.users, ParseInt(TokenUserId(tok)).value).value;
            && s'.jobs == s.jobs && |s'.users| == |s.users|
            && (forall j :: 0 <= j < |s.users| && j != i ==> s'.users[j] == s.users[j])
            && s'.users[i] == s.users[i].(authTokens := WithoutToken(s.users[i].authTokens, tok))
            && (forall e :: e in s'.users[i].authTokens <==> e in s.users[i].authTokens && e.token != tok)
  {
  }

  /** After logout the same header no longer passes the gate. */
  lemma LogoutThenAuthorizeRejects(s: State, header: Option<string>, req: Request, now: int)
    requires Valid(s)
    requires Logout(s, header).0.Ok?
    requires req.verb != "OPTIONS" && req.path in ProtectedPaths && req.authorization == header
    ensures Authorize(Logout(s, header).1, req, now).0 == Unauthorized
  {
    var s' := Logout(s, header).1;
    var tok := BearerToken(header).value;
    var uid := ParseInt(TokenUserId(tok)).value;
    var i := FindUser(s.users, uid).value;
    var fi := FindUser(s'.users, uid);
    assert fi == Some(i) by {
      assert s'.users[i].id == uid;
      assert forall j :: 0 <= j < i ==> s'.users[j].id != uid;
    }
    var ts' := s'.users[i].authTokens;
    assert forall j :: 0 <= j < |ts'| ==> ts'[j].token != tok by {
      forall j | 0 <= j < |ts'| ensures ts'[j].token != tok {
        assert ts'[j] in ts';
      }
    }
  }

  /** Sign-up appends one user whose id is larger than every id in use. */
  lemma SignUpAssignsFreshId(s: State, username: Option<string>, password: Option<string>,
                             fullName: Option<string>, md5: string -> string)
    requires SignUp(s, username, password, fullName, md5).0.Ok?
    ensures var (r, s') := SignUp(s, username, password, fullName, md5);
            && s'.users == s.users + [r.value] && s'.jobs == s.jobs
            && r.value.id >= 1
            && (forall i :: 0 <= i < |s.users| ==> s.users[i].id < r.value.id)
            && (|s.users| == 0 ==> r.value.id == 1)
            && (r.value.id == 1 || exists i :: 0 <= i < |s.users| && s.users[i].id == r.value.id - 1)
            && r.value.username == username && r.value.fullName == fullName
            && r.value.password == Some(md5(password.value))
            && r.value.authTokens == [] && r.value.applications == []
  {
  }

  /** Sign-up refuses a request missing a field, and a username already
      taken; either way nothing changes. */
  lemma SignUpRefusals(s: State, username: Option<string>, password: Option<string>,
                       fullName: Option<string>, md5: string -> string)
    ensures username.None? || password.None? || fullName.None? ==>
              SignUp(s, username, password, fullName, md5) == (Err(MissingFields), s)
    ensures username.Some? && password.Some? && fullName.Some? && FindUsername(s.users, username.value).Some? ==>
              SignUp(s, username, password, fullName, md5) == (Err(UsernameTaken), s)
    ensures SignUp(s, username, password, fullName, md5).0.Ok? <==>
              username.Some? && password.Some? && fullName.Some? && FindUsername(s.users, username.value).None?
  {
  }

  /** Replacing one user's tokens keeps the invariant. */
  lemma SetTokensKeepsValid(s: State, i: nat, ts: seq<AuthToken>)
    requires Valid(s) && i < |s.users|
    ensures Valid(SetTokens(s, i, ts))
  {
    var s' := SetTokens(s, i, ts);
    assert forall j :: 0 <= j < |s.users| ==> s'.users[j].id == s.users[j].id;
  }

  /** The gate keeps the store's invariant. */
  lemma AuthorizeKeepsValid(s: State, req: Request, now: int)
    requires Valid(s)
    ensures Valid(Authorize(s, req, now).1)
  {
    if req.verb != "OPTIONS" && req.path in ProtectedPaths && BearerToken(req.authorization).Some? {
      var tok := BearerToken(req.authorization).value;
      var uid := ParseInt(TokenUserId(tok));
      if uid.Some? && FindUser(s.users, uid.value).Some? {
        var i := FindUser(s.users, uid.value).value;
        var ts := s.users[i].authTokens;
        if FirstToken(ts, tok).Some? {
          SetTokensKeepsValid(s, i, WithoutEntry(ts, ts[FirstToken(ts, tok).value]));
        }
      }
    }
  }

  /** Login keeps the store's invariant. */
  lemma LoginKeepsValid(s: State, username: Option<string>, password: Option<string>,
                        md5: string -> string, now: int, uuid: string)
    requires Valid(s)
    ensures Valid(Login(s, username, password, md5, now, uuid).1)
  {
    if username.Some? && FindUsername(s.users, username.value).Some? {
      var i := FindUsername(s.users, username.value).value;
      var u := s.users[i];
      SetTokensKeepsValid(s, i, u.authTokens + [AuthToken(IssueToken(u.id, uuid), now + TokenLifetime)]);
    }
  }

  /** Logout keeps the store's invariant. */
  lemma LogoutKeepsValid(s: State, header: Option<string>)
    requires Valid(s)
    ensures Valid(Logout(s, header).1)
  {
    if BearerToken(header).Some? {
      var tok := BearerToken(header).value;
      var uid := ParseInt(TokenUserId(tok));
      if uid.Some? && FindUser(s.users, uid.value).Some? {
        var i := FindUser(s.users, uid.value).value;
        SetTokensKeepsValid(s, i, WithoutToken(s.users[i].authTokens, tok));
      }
    }
  }

  /** Sign-up keeps the store's invariant: the new id is positive and unused. */
  lemma SignUpKeepsValid(s: State, username: Option<string>, password: Option<string>,
                         fullName: Option<string>, md5: string -> string)
    requires Valid(s)
    ensures Valid(SignUp(s, username, password, fullName, md5).1)
  {
    var (r, s') := SignUp(s, username, password, fullName, md5);
    if r.Ok? {
      assert s'.users == s.users + [r.value];
      assert forall i :: 0 <= i < |s.users| ==> s'.users[i] == s.users[i];
    }
  }
}
