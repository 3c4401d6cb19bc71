/** The ledger and shared-pool routes: POST /applications, PUT and DELETE
    /applications/<id>, POST /wishlist and GET /jobs/shared. Each takes the
    Authorization header and re-derives the user from it. */
module Routes {
  import opened Wrappers
  import opened Json
  import opened Text
  import opened Records
  import opened Ids
  import opened Auth
  import opened Ledger
  import opened Pool

  /** The store with user i's application list replaced. */
  function SetApps(s: State, i: nat, apps: seq<Record>): State
    requires i < |s.users|
  {
    s.(users := s.users[i := s.users[i].(applications := apps)])
  }

  /** The position of the user a header names, when its id text is an
      integer of an existing user. */
  function HeaderUser(s: State, header: Option<string>): Option<nat>
  {
    match HeaderUserId(header)
    case None => None
    case Some(text) =>
      match ParseInt(text)
      case None => None
      case Some(uid) => FindUser(s.users, uid)
  }

  /** `get_data` (GET /applications): the user's list as stored. */
  function ListApplications(s: State, header: Option<string>): Result<seq<Record>>
  {
    match HeaderUser(s, header)
    case None => Err(InternalError)
    case Some(i) => Ok(s.users[i].applications)
  }

  /** `add_application`. `req` is the body's "application" object (None when
      the body is not JSON or lacks it); jobUuid and now stand for
      `uuid.uuid4()` and the clock. The personal record is the answer
      whatever the shared-pool step does. */
  function AddApplication(s: State, header: Option<string>, req: Option<Record>,
                          jobUuid: string, now: int): (Result<Record>, State)
  {
    match HeaderUserId(header)
    case None => (Err(InternalError), s)
    case Some(text) =>
      if req.None? || "jobTitle" !in req.value || "companyName" !in req.value then (Err(MissingFields), s)
      else match ParseInt(text)
        case None => (Err(InternalError), s)
        case Some(uid) =>
          match FindUser(s.users, uid)
          case None => (Err(InternalError), s)
          case Some(i) =>
            var u := s.users[i];
            match NewApplicationId(u.applications)
            case Err(e) => (Err(e), s)
            case Ok(id) =>
              var rec := NewApplication(id, req.value);
              var s1 := SetApps(s, i, u.applications + [rec]);
              (Ok(rec), s1.(jobs := PoolStep(s.jobs, req.value, u.id, jobUuid, now)))
  }

  /** `update_application`. `patch` is the body's "application" object. */
  function UpdateApplication(s: State, header: Option<string>, appId: int,
                             patch: Option<Record>): (Result<Record>, State)
  {
    match HeaderUserId(header)
    case None => (Err(InternalError), s)
    case Some(text) =>
      if patch.None? then (Err(NoFieldsInInput), s)
      else match ParseInt(text)
        case None => (Err(InternalError), s)
        case Some(uid) =>
          match FindUser(s.users, uid)
          case None => (Err(InternalError), s)
          case Some(i) =>
            var apps := s.users[i].applications;
            if |apps| == 0 then (Err(NoApplications), s)
            else if !AllHaveIdKey(apps) then (Err(InternalError), s)
            else match LastWithId(apps, appId)
              case None => (Err(ApplicationNotFound), s)
              case Some(k) =>
                var apps' := MergeMatching(apps, appId, patch.value);
                (Ok(apps'[k]), SetApps(s, i, apps'))
  }

  /** `delete_application`. */
  function DeleteApplication(s: State, header: Option<string>, appId: int): (Result<Record>, State)
  {
    match HeaderUserId(header)
    case None => (Err(InternalError), s)
    case Some(text) =>
      match ParseInt(text)
      case None => (Err(InternalError), s)
      case Some(uid) =>
        match FindUser(s.users, uid)
        case None => (Err(InternalError), s)
        case Some(i) =>
          var apps := s.users[i].applications;
          if !AllHaveIdKey(apps) then (Err(InternalError), s)
          else match LastWithId(apps, appId)
            case None => (Err(ApplicationNotFound), s)
            case Some(k) => (Ok(apps[k]), SetApps(s, i, WithoutId(apps, appId)))
  }

  /** `add_application_as_wishlist`. `body` is the parsed body (None when it
      is not a JSON object); today stands for the formatted current date. */
  function AddToWishlist(s: State, header: Option<string>, body: Option<Record>,
                         today: string): (Result<Record>, State)
  {
    match HeaderUserId(header)
    case None => (Err(InternalError), s)
    case Some(text) =>
      if body.None? then (Err(InvalidRequestFormat), s)
      else
        var jobId := Get(body.value, "jobId");
        if Falsy(jobId) then (Err(MissingJobId), s)
        else match FindJob(s.jobs, jobId)
          case None => (Err(SharedJobNotFound), s)
          case Some(k) =>
            match ParseInt(text)
            case None => (Err(InternalError), s)
            case Some(uid) =>
              match FindUser(s.users, uid)
              case None => (Err(UserNotFound), s)
              case Some(i) =>
                var u := s.users[i];
                match NewApplicationId(u.applications)
                case Err(e) => (Err(e), s)
                case Ok(id) =>
                  var rec := WishlistApplication(id, s.jobs[k], today);
                  var s1 := SetApps(s, i, u.applications + [rec]);
                  (Ok(rec), s1.(jobs := Bump(s.jobs, k)))
  }

  /** `get_shared_jobs`, which changes nothing. A key that cannot be
      computed (an own application or a shared job without a string link)
      makes `.lower()` raise: InternalError. */
  function SharedJobs(s: State, header: Option<string>): Result<seq<JobView>>
  {
    match HeaderUserId(header)
    case None => Err(InternalError)
    case Some(text) =>
      match ParseInt(text)
      case None => Err(InternalError)
      case Some(uid) =>
        match FindUser(s.users, uid)
        case None => Err(InternalError)
        case Some(i) =>
          var apps := s.users[i].applications;
          if !KeyedApps(apps) || !LinkedJobs(s.jobs) then Err(InternalError)
          else Ok(Listing(s.jobs, AppKeys(apps)))
  }
}
