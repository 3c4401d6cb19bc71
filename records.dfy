/** The documents of the two collections (`Users`, `SharedJobs`), the
    handlers' error outcomes, and the store they act on. */
module Records {
  import opened Wrappers
  import opened Json
  import opened Seqs

  /** One session: the token text and the time (in seconds) it stops being valid. */
  datatype AuthToken = AuthToken(token: string, expiry: int)

  /** A `Users` document. Applications are JSON objects because the update
      route writes arbitrary keys into them. */
  datatype User = User(
    id: int,
    username: Option<string>,
    password: Option<string>,
    fullName: Option<string>,
    email: Option<string>,
    authTokens: seq<AuthToken>,
    applications: seq<Record>)

  /** A `SharedJobs` document; `jobTitle` and `companyName` are required
      strings, `location` and `jobLink` may be null. */
  datatype SharedJob = SharedJob(
    id: string,
    jobTitle: string,
    companyName: string,
    location: Option<string>,
    jobLink: Option<string>,
    postedBy: int,
    postedDate: int,
    appliedBy: int,
    active: int)

  /** Both collections, each in its natural (insertion) order. */
  datatype State = State(users: seq<User>, jobs: seq<SharedJob>)

  /** The error bodies the routes answer with. */
  datatype Error =
    | MissingFields          // "Missing fields in input", 400
    | UsernameTaken          // "Username already exists", 400
    | MissingCredentials     // "Missing username or password", 400
    | UserNotFound           // "User not found", 400 on login, 404 on wishlist
    | WrongPassword          // "Wrong username or password", 400
    | NoFieldsInInput        // "No fields found in input", 400
    | NoApplications         // "No applications found", 400
    | ApplicationNotFound    // "Application not found", 400
    | InvalidRequestFormat   // "Invalid request format: ...", 400
    | MissingJobId           // "Missing jobId in request", 400
    | SharedJobNotFound      // "Job not found in shared listings", 404
    | InternalError          // "Internal server error", 500

  datatype Result<+T> = Ok(value: T) | Err(error: Error)

  /** The message each error carries in its `error` field. */
  function Message(e: Error): string
  {
    match e
    case MissingFields => "Missing fields in input"
    case UsernameTaken => "Username already exists"
    case MissingCredentials => "Missing username or password"
    case UserNotFound => "User not found"
    case WrongPassword => "Wrong username or password"
    case NoFieldsInInput => "No fields found in input"
    case NoApplications => "No applications found"
    case ApplicationNotFound => "Application not found"
    case InvalidRequestFormat => "Invalid request format"
    case MissingJobId => "Missing jobId in request"
    case SharedJobNotFound => "Job not found in shared listings"
    case InternalError => "Internal server error"
  }

  /** `Users.objects(id=uid).first()`: the position of that user. */
  function FindUser(users: seq<User>, uid: int): Option<nat>
  {
    FirstIndex(users, (u: User) => u.id == uid)
  }

  /** `Users.objects(username=name).first()`. */
  function FindUsername(users: seq<User>, name: string): Option<nat>
  {
    FirstIndex(users, (u: User) => u.username == Some(name))
  }

  /** The store's invariant: user ids are positive and unique, and every
      shared job counts at least one applicant. */
  ghost predicate Valid(s: State)
  {
    && (forall i :: 0 <= i < |s.users| ==> s.users[i].id >= 1)
    && (forall i, j :: 0 <= i < j < |s.users| ==> s.users[i].id != s.users[j].id)
    && (forall k :: 0 <= k < |s.jobs| ==> s.jobs[k].appliedBy >= 1)
  }
}
