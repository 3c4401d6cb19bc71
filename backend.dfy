/** The Flask application's state and handlers as one object: the `Users`
    and `SharedJobs` collections are its fields, and each handler that
    loops in the source loops here, proved against the store functions of
    the Auth and Routes modules. Database queries (`objects(...).first()`)
    are calls of the lookup functions. */
module Server {
  import opened Wrappers
  import opened Json
  import opened Text
  import opened Seqs
  import opened Records
  import opened Ids
  import opened Auth
  import opened Ledger
  import opened Pool
  import opened Routes
  import AuthProperties
  import RouteProperties

  class Backend {
    var users: seq<User>
    var jobs: seq<SharedJob>

    /** The store this object holds. */
    function Store(): State
      reads this
    {
      State(users, jobs)
    }

    ghost predicate Valid()
      reads this
    {
      Records.Valid(Store())
    }

    /** Empty collections. */
    constructor()
      ensures users == [] && jobs == []
      ensures Valid()
    {
      users := [];
      jobs := [];
    }

    /** `get_new_user_id`: the running maximum of the user ids, plus one. */
    method NewUserId() returns (r: int)
      ensures r == Ids.NewUserId(users)
    {
      if |users| == 0 {
        return 1;
      }
      ghost var ids := UserIds(users);
      var newId := 0;
      for j := 0 to |users|
        invariant newId + 1 == NextId(ids[..j])
      {
        assert ids[..j + 1] == ids[..j] + [users[j].id];
        NextIdSnoc(ids[..j], users[j].id);
        newId := if users[j].id > newId then users[j].id else newId;
      }
      assert ids[..|users|] == ids;
      return newId + 1;
    }

    /** `get_new_application_id`: the running maximum of the user's
        application ids, plus one; an id that is missing or not an integer
        makes `max` raise. */
    method NewApplicationId(uid: int) returns (r: Result<int>)
      ensures r == match FindUser(users, uid)
                   case None => Err(InternalError)
                   case Some(i) => Ids.NewApplicationId(users[i].applications)
    {
      var found := FindUser(users, uid);
      if found.None? {
        return Err(InternalError);
      }
      var apps := users[found.value].applications;
      if |apps| == 0 {
        return Ok(1);
      }
      var newId := 0;
      for j := 0 to |apps|
        invariant IntIds(apps[..j])
        invariant newId + 1 == NextId(AppIds(apps[..j]))
        modifies {}
      {
        var a := apps[j];
        if !("id" in a && a["id"].Int?) {
          return Err(InternalError);
        }
        assert apps[..j + 1] == apps[..j] + [a];
        AppIdsSnoc(apps[..j], a);
        NextIdSnoc(AppIds(apps[..j]), a["id"].n);
        newId := if a["id"].n > newId then a["id"].n else newId;
      }
      assert apps[..|apps|] == apps;
      return Ok(newId + 1);
    }

    /** `delete_auth_token`: rebuild the user's token list without the
        entries equal to e. */
    method DeleteAuthToken(e: AuthToken, uid: int)
      requires FindUser(users, uid).Some?
      modifies this
      ensures Store() == SetTokens(old(Store()), FindUser(old(users), uid).value,
                                   WithoutEntry(old(users)[FindUser(old(users), uid).value].authTokens, e))
    {
      var i := FindUser(users, uid).value;
      var ts := users[i].authTokens;
      var kept: seq<AuthToken> := [];
      for j := 0 to |ts|
        invariant kept == WithoutEntry(ts[..j], e)
        modifies {}
      {
        assert ts[..j + 1] == ts[..j] + [ts[j]];
        WithoutEntrySnoc(ts[..j], ts[j], e);
        if ts[j] != e {
          kept := kept + [ts[j]];
        }
      }
      assert ts[..|ts|] == ts;
      users := users[i := users[i].(authTokens := kept)];
    }

    /** The `before_request` middleware: scan the user's tokens for the
        first one equal to the bearer token and check its expiry. */
    method Middleware(req: Request, now: int) returns (g: Gate)
      modifies this
      ensures (g, Store()) == Authorize(old(Store()), req, now)
      ensures old(Valid()) ==> Valid()
    {
      if Valid() {
        AuthProperties.AuthorizeKeepsValid(Store(), req, now);
      }
      if req.verb == "OPTIONS" {
        return Preflight;
      }
      if req.path !in ProtectedPaths {
        return Proceed;
      }
      var tok := BearerToken(req.authorization);
      if tok.None? {
        return Unauthorized;
      }
      var uid := ParseInt(TokenUserId(tok.value));
      if uid.None? {
        return GateError;
      }
      var found := FindUser(users, uid.value);
      if found.None? {
        return Unauthorized;
      }
      var ts := users[found.value].authTokens;
      var k := 0;
      while k < |ts| && ts[k].token != tok.value
        invariant k <= |ts|
        invariant forall j :: 0 <= j < k ==> ts[j].token != tok.value
      {
        k := k + 1;
      }
      if k == |ts| {
        return Unauthorized;
      }
      assert FirstToken(ts, tok.value) == Some(k);
      if now <= ts[k].expiry {
        return Proceed;
      }
      DeleteAuthToken(ts[k], uid.value);
      return Unauthorized;
    }

    /** `sign_up`. */
    method SignUp(username: Option<string>, password: Option<string>, fullName: Option<string>,
                  md5: string -> string) returns (r: Result<User>)
      modifies this
      ensures (r, Store()) == Auth.SignUp(old(Store()), username, password, fullName, md5)
      ensures old(Valid()) ==> Valid()
    {
      if Valid() {
        AuthProperties.SignUpKeepsValid(Store(), username, password, fullName, md5);
      }
      if username.None? || password.None? || fullName.None? {
        return Err(MissingFields);
      }
      if FindUsername(users, username.value).Some? {
        return Err(UsernameTaken);
      }
      var id := NewUserId();
      var u := User(id, username, Some(md5(password.value)), fullName, Some(""), [], []);
      users := users + [u];
      return Ok(u);
    }

    /** `login`: a new token entry is appended to the user's list. */
    method Login(username: Option<string>, password: Option<string>, md5: string -> string,
                 now: int, uuid: string) returns (r: Result<Session>)
      modifies this
      ensures (r, Store()) == Auth.Login(old(Store()), username, password, md5, now, uuid)
      ensures old(Valid()) ==> Valid()
    {
      if Valid() {
        AuthProperties.LoginKeepsValid(Store(), username, password, md5, now, uuid);
      }
      if username.None? || password.None? {
        return Err(MissingCredentials);
      }
      var found := FindUsername(users, username.value);
      if found.None? {
        return Err(UserNotFound);
      }
      var i := found.value;
      var u := users[i];
      if u.password != Some(md5(password.value)) {
        return Err(WrongPassword);
      }
      var entry := AuthToken(IssueToken(u.id, uuid), now + TokenLifetime);
      users := users[i := u.(authTokens := u.authTokens + [entry])];
      return Ok(Session(entry.token, entry.expiry, ProfileOf(u)));
    }

    /** `logout`: rebuild the user's token list without the bearer token. */
    method Logout(header: Option<string>) returns (r: Result<()>)
      modifies this
      ensures (r, Store()) == Auth.Logout(old(Store()), header)
      ensures old(Valid()) ==> Valid()
    {
      if Valid() {
        AuthProperties.LogoutKeepsValid(Store(), header);
      }
      var tok := BearerToken(header);
      if tok.None? {
        return Err(InternalError);
      }
      var uid := ParseInt(TokenUserId(tok.value));
      if uid.None? {
        return Err(InternalError);
      }
      var found := FindUser(users, uid.value);
      if found.None? {
        return Err(InternalError);
      }
      var i := found.value;
      var ts := users[i].authTokens;
      var kept: seq<AuthToken> := [];
      for j := 0 to |ts|
        invariant kept == WithoutToken(ts[..j], tok.value)
        modifies {}
      {
        assert ts[..j + 1] == ts[..j] + [ts[j]];
        WithoutTokenSnoc(ts[..j], ts[j], tok.value);
        if ts[j].token != tok.value {
          kept := kept + [ts[j]];
        }
      }
      assert ts[..|ts|] == ts;
      users := users[i := users[i].(authTokens := kept)];
      return Ok(());
    }

    /** `add_application`: append the record, then the shared-pool step,
        whose failures are swallowed. */
    method AddApplication(header: Option<string>, req: Option<Record>, jobUuid: string, now: int)
      returns (r: Result<Record>)
      modifies this
      ensures (r, Store()) == Routes.AddApplication(old(Store()), header, req, jobUuid, now)
      ensures old(Valid()) ==> Valid()
    {
      if Valid() {
        RouteProperties.AddKeepsValid(Store(), header, req, jobUuid, now);
      }
      var text := HeaderUserId(header);
      if text.None? {
        return Err(InternalError);
      }
      if req.None? || "jobTitle" !in req.value || "companyName" !in req.value {
        return Err(MissingFields);
      }
      var request := req.value;
      var uid := ParseInt(text.value);
      if uid.None? {
        return Err(InternalError);
      }
      var found := FindUser(users, uid.value);
      if found.None? {
        return Err(InternalError);
      }
      var i := found.value;
      var u := users[i];
      var id := NewApplicationId(uid.value);
      if id.Err? {
        return Err(id.error);
      }
      var rec := NewApplication(id.value, request);
      users := users[i := u.(applications := u.applications + [rec])];
      if "jobLink" in request {
        var existing := FindTriple(jobs, request["jobTitle"], request["companyName"], request["jobLink"]);
        if existing.Some? {
          jobs := Bump(jobs, existing.value);
        } else {
          var job := CreateJob(jobUuid, request, u.id, now);
          if job.Some? {
            jobs := Save(jobs, job.value);
          }
        }
      }
      return Ok(rec);
    }

    /** The field-writing loop of `update_application`:
        `application[key] = value` for every key of the patch. */
    static method MergeFields(application: Record, patch: Record) returns (a: Record)
      ensures a == application + patch
    {
      a := application;
      var keys := patch.Keys;
      while keys != {}
        invariant keys <= patch.Keys
        invariant a.Keys == application.Keys + (patch.Keys - keys)
        invariant forall key :: key in a ==> a[key] == if key in patch && key !in keys then patch[key] else application[key]
        decreases keys
      {
        var key :| key in keys;
        a := a[key := patch[key]];
        keys := keys - {key};
      }
    }

    /** The loop of `update_application`: merge the patch into each record
        with that id and remember the last of them; false when a record has
        no "id" (the KeyError). */
    static method UpdateLoop(apps: seq<Record>, appId: int, patch: Record)
      returns (keyed: bool, updated: seq<Record>, appToUpdate: Record, updatedFlag: bool)
      ensures keyed <==> AllHaveIdKey(apps)
      ensures keyed ==> updated == MergeMatching(apps, appId, patch)
      ensures keyed ==> (updatedFlag <==> LastWithId(apps, appId).Some?)
      ensures keyed && updatedFlag ==> appToUpdate == updated[LastWithId(apps, appId).value]
    {
      updated := [];
      appToUpdate := map[];
      updatedFlag := false;
      for j := 0 to |apps|
        invariant AllHaveIdKey(apps[..j])
        invariant |updated| == j
        invariant updated == MergeMatching(apps[..j], appId, patch)
        invariant updatedFlag <==> LastWithId(apps[..j], appId).Some?
        invariant updatedFlag ==> appToUpdate == updated[LastWithId(apps[..j], appId).value]
      {
        var application := apps[j];
        assert apps[..j + 1] == apps[..j] + [application];
        if "id" !in application {
          return false, updated, appToUpdate, updatedFlag;
        }
        MergeMatchingSnoc(apps[..j], application, appId, patch);
        LastWithIdSnoc(apps[..j], application, appId);
        if application["id"] == Int(appId) {
          application := MergeFields(application, patch);
          appToUpdate := application;
          updatedFlag := true;
        }
        updated := updated + [application];
      }
      assert apps[..|apps|] == apps;
      keyed := true;
    }

    /** `update_application`. */
    method UpdateApplication(header: Option<string>, appId: int, patch: Option<Record>)
      returns (r: Result<Record>)
      modifies this
      ensures (r, Store()) == Routes.UpdateApplication(old(Store()), header, appId, patch)
      ensures old(Valid()) ==> Valid()
    {
      if Valid() {
        RouteProperties.UpdateKeepsValid(Store(), header, appId, patch);
      }
      var text := HeaderUserId(header);
      if text.None? {
        return Err(InternalError);
      }
      if patch.None? {
        return Err(NoFieldsInInput);
      }
      var uid := ParseInt(text.value);
      if uid.None? {
        return Err(InternalError);
      }
      var found := FindUser(users, uid.value);
      if found.None? {
        return Err(InternalError);
      }
      var i := found.value;
      var apps := users[i].applications;
      if |apps| == 0 {
        return Err(NoApplications);
      }
      var keyed, updated, appToUpdate, updatedFlag := UpdateLoop(apps, appId, patch.value);
      if !keyed {
        return Err(InternalError);
      }
      if !updatedFlag {
        return Err(ApplicationNotFound);
      }
      users := users[i := users[i].(applications := updated)];
      return Ok(appToUpdate);
    }

    /** The loop of `delete_application`: keep the records with other ids
        and remember the last one removed; false when a record has no "id". */
    static method DeleteLoop(apps: seq<Record>, appId: int)
      returns (keyed: bool, updated: seq<Record>, appToDelete: Record, deletedFlag: bool)
      ensures keyed <==> AllHaveIdKey(apps)
      ensures keyed ==> updated == WithoutId(apps, appId)
      ensures keyed ==> (deletedFlag <==> LastWithId(apps, appId).Some?)
      ensures keyed && deletedFlag ==> appToDelete == apps[LastWithId(apps, appId).value]
    {
      updated := [];
      appToDelete := map[];
      deletedFlag := false;
      for j := 0 to |apps|
        invariant AllHaveIdKey(apps[..j])
        invariant updated == WithoutId(apps[..j], appId)
        invariant deletedFlag <==> LastWithId(apps[..j], appId).Some?
        invariant deletedFlag ==> appToDelete == apps[LastWithId(apps[..j], appId).value]
      {
        var application := apps[j];
        assert apps[..j + 1] == apps[..j] + [application];
        if "id" !in application {
          return false, updated, appToDelete, deletedFlag;
        }
        WithoutIdSnoc(apps[..j], application, appId);
        LastWithIdSnoc(apps[..j], application, appId);
        if application["id"] != Int(appId) {
          updated := updated + [application];
        } else {
          appToDelete := application;
          deletedFlag := true;
        }
      }
      assert apps[..|apps|] == apps;
      keyed := true;
    }

    /** `delete_application`. */
    method DeleteApplication(header: Option<string>, appId: int) returns (r: Result<Record>)
      modifies this
      ensures (r, Store()) == Routes.DeleteApplication(old(Store()), header, appId)
      ensures old(Valid()) ==> Valid()
    {
      if Valid() {
        RouteProperties.DeleteKeepsValid(Store(), header, appId);
      }
      var text := HeaderUserId(header);
      if text.None? {
        return Err(InternalError);
      }
      var uid := ParseInt(text.value);
      if uid.None? {
        return Err(InternalError);
      }
      var found := FindUser(users, uid.value);
      if found.None? {
        return Err(InternalError);
      }
      var i := found.value;
      var apps := users[i].applications;
      var keyed, updated, appToDelete, deletedFlag := DeleteLoop(apps, appId);
      if !keyed {
        return Err(InternalError);
      }
      if !deletedFlag {
        return Err(ApplicationNotFound);
      }
      users := users[i := users[i].(applications := updated)];
      return Ok(appToDelete);
    }

    /** `add_application_as_wishlist`. */
    method AddToWishlist(header: Option<string>, body: Option<Record>, today: string)
      returns (r: Result<Record>)
      modifies this
      ensures (r, Store()) == Routes.AddToWishlist(old(Store()), header, body, today)
      ensures old(Valid()) ==> Valid()
    {
      if Valid() {
        RouteProperties.WishlistKeepsValid(Store(), header, body, today);
      }
      var text := HeaderUserId(header);
      if text.None? {
        return Err(InternalError);
      }
      if body.None? {
        return Err(InvalidRequestFormat);
      }
      var jobId := Get(body.value, "jobId");
      if Falsy(jobId) {
        return Err(MissingJobId);
      }
      var shared := FindJob(jobs, jobId);
      if shared.None? {
        return Err(SharedJobNotFound);
      }
      var uid := ParseInt(text.value);
      if uid.None? {
        return Err(InternalError);
      }
      var found := FindUser(users, uid.value);
      if found.None? {
        return Err(UserNotFound);
      }
      var i := found.value;
      var u := users[i];
      var id := NewApplicationId(uid.value);
      if id.Err? {
        return Err(id.error);
      }
      var rec := WishlistApplication(id.value, jobs[shared.value], today);
      users := users[i := u.(applications := u.applications + [rec])];
      jobs := Bump(jobs, shared.value);
      return Ok(rec);
    }

    /** `get_shared_jobs`: one pass over the pool keeping the jobs whose
        key is not among the user's own keys. */
    method GetSharedJobs(header: Option<string>) returns (r: Result<seq<JobView>>)
      ensures r == SharedJobs(Store(), header)
    {
      var text := HeaderUserId(header);
      if text.None? {
        return Err(InternalError);
      }
      var uid := ParseInt(text.value);
      if uid.None? {
        return Err(InternalError);
      }
      var found := FindUser(users, uid.value);
      if found.None? {
        return Err(InternalError);
      }
      var apps := users[found.value].applications;
      if !KeyedApps(apps) {
        return Err(InternalError);
      }
      var userApplications := AppKeys(apps);
      var available: seq<JobView> := [];
      for k := 0 to |jobs|
        invariant LinkedJobs(jobs[..k])
        invariant available == Listing(jobs[..k], userApplications)
      {
        var job := jobs[k];
        assert jobs[..k + 1] == jobs[..k] + [job];
        if job.jobLink.None? {
          return Err(InternalError);
        }
        ListingSnoc(jobs[..k], job, userApplications);
        if JobKey(job) !in userApplications {
          available := available + [View(job)];
        }
      }
      assert jobs[..|jobs|] == jobs;
      return Ok(available);
    }
  }
}
