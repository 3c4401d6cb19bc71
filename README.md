# J-Tracker backend: token lifecycle, application ledger and shared job pool

This project is a Dafny model of the core of the J-Tracker Flask backend
(`backend/app.py`). The model covers:

- the request gate (`before_request` middleware with `delete_auth_token`);
- sign-up, login and logout, which issue and revoke the `"<userId>.<uuid>"` bearer tokens;
- the id generators `get_new_user_id` and `get_new_application_id`;
- each user's application ledger: add, update and delete;
- the shared job pool, which add-application and wishlist-add feed and `get_shared_jobs` lists.

The store is `Records.State`. It holds both MongoDB collections, `Users` and
`SharedJobs`, as sequences in their natural (insertion) order, so
`objects(...).first()` is the first match. The model has two layers:

- **Store functions.** Every handler is a function from the store and the
  request to an outcome and a new store: `Auth.Authorize`, `Auth.Login`,
  `Routes.AddApplication` and so on. The lemmas in `AuthProperties` and
  `RouteProperties` state what the handlers promise, about one call and
  about sequences of calls.
- **The server object.** `Server.Backend` holds the two collections as
  fields. Each handler is a method with the same loops as the source: the
  token scan, the token-list rebuilds, the running `max` of the id
  generators, the update and delete passes, the per-key merge and the
  listing loop. Each method is proved equal to its store function and keeps
  the store invariant `Records.Valid`: user ids positive and unique, every
  shared job's count at least one.

Shapes the model keeps from the code:

- **Applications are JSON objects.** They are `map<string, Value>` with
  `Value = Null | Int | Str`, because the update route writes arbitrary
  keys into them.
- **Header parsing is literal.** The token is `split(" ")[1]`; the word
  before it is not checked. The user id is `split(".")[0]`, then MongoEngine's
  `IntField` converts it to an integer: `Text.ParseInt`, where a failure is a 500.
- **Errors are a result.** A handler's error is the `Records.Error` it
  answers with; `Records.Message` gives the message text.

Behaviour kept as written:

- **A token is valid while `now <= expiry`.** A request at the exact
  expiry second is still accepted.
- **The gate only checks the exact paths `/applications` and `/resume`.**
  So `PUT` and `DELETE /applications/<id>`, `/wishlist`, `/jobs/shared` and
  logout pass it unchecked (`AuthProperties.ItemRoutesUnchecked`).
- **A failure inside the gate answers 500.** An id text that is not an
  integer gets "Internal server error", not 401.
- **The two dedup keys differ.** The pool deduplicates on the exact, case-sensitive
  (title, company, link) triple, but the listing hides jobs by the
  lower-cased company:link key. The model keeps both
  (`RouteProperties.DedupKeysDisagree`).
- **A missing link breaks the listing.** After a user adds an application
  without `jobLink`, `GET /jobs/shared` answers 500 for that user, because
  the key computation lowers `None`
  (`RouteProperties.LinklessApplicationBreaksListing`). A shared job whose
  `jobLink` is null makes it answer 500 for every user (`Pool.LinkedJobs`
  in `Routes.SharedJobs`).

## Model

| member | source | states |
|---|---|---|
| Auth.Authorize | backend/app.py:83-115 | the gate as a store function; its properties are the AuthProperties gate lemmas |
| Auth.WithoutEntry | backend/app.py:139-152 | the entries not equal to the given one, in order (a Seqs.Filter) |
| Auth.WithoutToken | backend/app.py:402-407 | the entries with another token, in order (a Seqs.Filter) |
| Auth.SignUp | backend/app.py:228-263 | sign-up as a store function; see SignUpAssignsFreshId and SignUpRefusals |
| Auth.Login | backend/app.py:343-388 | login as a store function; see LoginErrorsChangeNothing and LoginAppendsOneToken |
| Auth.Logout | backend/app.py:399-412 | logout as a store function; see LogoutRemovesToken |
| Ledger.NewApplication | backend/app.py:577-585 | the record add-application stores; see Ledger.NewApplicationFields |
| Ledger.NewApplicationFields | backend/app.py:577-585 | the new record has exactly the seven keys, with fields as given, null when absent, status "1" by default |
| Ledger.MergeMatching | backend/app.py:645-654 | the update pass's list, same length; its per-record effect is MergeMatchingEffect |
| Pool.PoolStep | backend/app.py:590-619 | the shared-pool step; see the RouteProperties pool lemmas |
| Pool.CreateJob | backend/app.py:603-614 | the new shared job with appliedBy 1, or None when validation fails |
| Pool.Save | backend/app.py:614 | save by primary key: replace the job with that id, else append |
| Pool.WishlistApplication | backend/app.py:732-740 | the record copied from a shared job; see Pool.WishlistFields |
| Pool.WishlistFields | backend/app.py:732-740 | the copied record's title, company, link, location and status "1" |
| Pool.Listing | backend/app.py:995-1010 | the listing loop's result, never longer than the pool; see ListingExact |
| Routes.ListApplications | backend/app.py:550-556 | the user's list as stored; see AddThenList |
| Routes.AddApplication | backend/app.py:567-622 | add-application as a store function; see the RouteProperties add lemmas |
| Routes.UpdateApplication | backend/app.py:632-661 | update as a store function; see UpdateErrors and UpdateMerges |
| Routes.DeleteApplication | backend/app.py:671-692 | delete as a store function; see DeleteUnknownId and DeleteFilters |
| Routes.AddToWishlist | backend/app.py:706-753 | wishlist-add as a store function; see the RouteProperties wishlist lemmas |
| Routes.SharedJobs | backend/app.py:984-1015 | the listing as a store function; see ListingExactlyUnapplied |
| Seqs.Filter | backend/app.py:148-151 | the rebuilt list holds exactly the entries that pass the test and is never longer |
| Seqs.FilterConcat | backend/app.py:148-151 | rebuilding keeps the original order: it distributes over concatenation |
| Seqs.FilterDrops | backend/app.py:678-686 | a rebuild that rejects some entry is strictly shorter |
| Seqs.FirstIndex | backend/app.py:99-109 | the first matching position, with no match before it; None only when nothing matches |
| Seqs.LastIndex | backend/app.py:646-654 | the last matching position (the record the loops remember), None only when nothing matches |
| Text.Split | backend/app.py:89-92 | `str.split` gives at least one part and no part contains the separator |
| Text.SplitJoin | backend/app.py:89-92 | joining the parts with the separator gives the text back |
| Text.SplitAtFirstSep | backend/app.py:92 | part 0 of `"<id>.<rest>"` is the text before the first dot |
| Text.ParseIntRoundTrip | backend/app.py:93 | the id MongoEngine's `int()` reads from the decimal text of n is n |
| Ids.NextId | backend/app.py:1234-1238 | the running max from 0, plus one: at least 1, above every id, and 1 or one more than an id present |
| Ids.NewUserId | backend/app.py:1224-1238 | 1 with no users, otherwise above every user id and one more than an id present: the maximum plus one |
| Ids.AppIds | backend/app.py:1253-1255 | the integer ids of a list whose records all carry one, in order |
| Ids.NewApplicationId | backend/app.py:1241-1257 | succeeds exactly when the list is empty or every record has an integer id; then at least 1, above every record's id, and 1 or one more than an id present (the maximum plus one); 1 when empty; InternalError otherwise |
| Ledger.MergeMatchingEffect | backend/app.py:645-654 | records without the id pass through; a record with it gains the patch's keys and values and keeps its other fields |
| Pool.AppKeys | backend/app.py:992-993 | one lower-cased company:link key per application, in order |
| Pool.ListingExact | backend/app.py:994-1012 | every listed entry is the view of a pool job whose key is not the user's, and every such job is listed |
| Pool.ListingConcat | backend/app.py:996-1012 | the listing keeps pool order |
| AuthProperties.PreflightAlwaysPasses | backend/app.py:84-85 | an OPTIONS request is answered by the gate and changes nothing |
| AuthProperties.UncheckedPathsPass | backend/app.py:29 | a path outside the protected list proceeds without a header |
| AuthProperties.ItemRoutesUnchecked | backend/app.py:86 | `DELETE /applications/3` without a header proceeds: the comparison is exact |
| AuthProperties.MissingHeaderRejected | backend/app.py:88-91 | a checked request without a header is rejected with 401 and changes nothing |
| AuthProperties.LiveEntryAccepted | backend/app.py:99-106 | a first matching entry that has not expired lets the request through, store unchanged |
| AuthProperties.AcceptedIsLive | backend/app.py:86-112 | a checked request that proceeds carries the token of a live session |
| AuthProperties.AuthorizeAcceptsIff | backend/app.py:83-115 | a checked request proceeds exactly when its bearer token is live for the user its prefix names |
| AuthProperties.AcceptIsReadOnly | backend/app.py:83-115 | only a rejection can change the store |
| AuthProperties.ExpiredEntryRemoved | backend/app.py:99-111 | an expired first match is rejected and every entry equal to it is removed; the other entries stay in order and nothing else changes |
| AuthProperties.BearerOfToken | backend/app.py:89 | the header `"Bearer <tok>"` yields tok for a token without spaces |
| AuthProperties.IssuedTokenNamesUser | backend/app.py:362 | the id prefix of an issued token parses to the issuing user's id |
| AuthProperties.LoginErrorsChangeNothing | backend/app.py:346-357 | a missing field gives MissingCredentials, an unknown user UserNotFound, a wrong hash WrongPassword; an error changes nothing; login succeeds exactly otherwise |
| AuthProperties.LoginAppendsOneToken | backend/app.py:359-366 | a login appends exactly one entry `"<id>.<uuid>"` expiring one day later; earlier tokens and all else stay |
| AuthProperties.LoginThenAuthorize | backend/app.py:359-366 | the token just issued opens a checked request for a day |
| AuthProperties.LogoutRemovesToken | backend/app.py:399-409 | logout keeps, in order, exactly the entries with another token; nothing else changes |
| AuthProperties.LogoutThenAuthorizeRejects | backend/app.py:399-409 | after logout the token no longer opens a checked request |
| AuthProperties.SignUpAssignsFreshId | backend/app.py:242-259 | the new user is appended with an id above every existing one and one more than an existing id, so the maximum plus one (1 for the first), the given username and full name, the password's digest and empty token and application lists |
| AuthProperties.SignUpRefusals | backend/app.py:232-241 | a missing field gives MissingFields and a taken username UsernameTaken, both without change; sign-up succeeds exactly otherwise |
| AuthProperties.SetTokensKeepsValid | backend/app.py:152 | rewriting a token list keeps user ids positive and unique |
| AuthProperties.AuthorizeKeepsValid | backend/app.py:83-115 | the gate keeps the store invariant |
| AuthProperties.LoginKeepsValid | backend/app.py:343-388 | login keeps the store invariant |
| AuthProperties.LogoutKeepsValid | backend/app.py:399-412 | logout keeps the store invariant |
| AuthProperties.SignUpKeepsValid | backend/app.py:228-263 | sign-up keeps user ids positive and unique |
| RouteProperties.AddRejectsMissingFields | backend/app.py:569-575 | without jobTitle or companyName: "Missing fields in input" and no change |
| RouteProperties.AddAppendsRecord | backend/app.py:577-588 | one record appended with a fresh id; title and company as given, date, jobLink and location as given or null, status "1" by default, and no other key; other users unchanged; the pool takes the shared-pool step |
| RouteProperties.AddFailsOnlyBeforeRecording | backend/app.py:577-622 | with a known user and both fields, the add succeeds exactly when the id can be computed; the pool step never turns it into an error |
| RouteProperties.PoolSkipsWithoutLink | backend/app.py:590-595 | a request without jobLink leaves the pool alone |
| RouteProperties.PoolBumpsExactMatch | backend/app.py:590-601 | a job with the exact triple gains one applicant; nothing else in the pool changes |
| RouteProperties.PoolCreatesJob | backend/app.py:603-616 | with no match, one job is appended with the triple, appliedBy 1 and postedBy the user |
| RouteProperties.SameTripleTwice | backend/app.py:590-616 | the same triple added twice makes one job whose count goes 1 then 2 |
| RouteProperties.PoolStepExtends | backend/app.py:590-619 | the pool step only appends jobs or raises a count |
| RouteProperties.PoolStepKeepsCounts | backend/app.py:590-619 | every job keeps at least one applicant |
| RouteProperties.UpdateErrors | backend/app.py:632-661 | "No fields found in input", "No applications found" and "Application not found" in their cases; an error changes nothing |
| RouteProperties.UpdateMerges | backend/app.py:645-661 | each record with the id gets exactly its old keys plus the patch's, with the patch's values and its other fields kept; other records and order kept; the answer is an updated record |
| RouteProperties.DeleteUnknownId | backend/app.py:687-688 | an unknown id: "Application not found" and no change |
| RouteProperties.DeleteFilters | backend/app.py:671-692 | the list becomes the records without that id, in order, strictly shorter; a removed record is the answer |
| RouteProperties.AddThenList | backend/app.py:550-556 | after an add the user's list is the old list with the new record last |
| RouteProperties.AddThenDelete | backend/app.py:671-692 | deleting the record just added restores every user's list |
| RouteProperties.WishlistErrors | backend/app.py:712-729 | a falsy jobId and an unknown shared job give their errors; an error changes nothing |
| RouteProperties.WishlistCopiesJob | backend/app.py:731-744 | one record appended, copying title, company, link and location, with status "1" and a fresh id |
| RouteProperties.WishlistBumpsJob | backend/app.py:747 | the copied job gains exactly one applicant; no other job changes |
| RouteProperties.ListingExactlyUnapplied | backend/app.py:984-1015 | the listing is, in pool order, exactly the views of the jobs whose key is not among the user's keys |
| RouteProperties.OwnApplicationHidesJob | backend/app.py:992-1000 | no listed job matches one of the user's applications on company and link, ignoring case |
| RouteProperties.LinklessApplicationBreaksListing | backend/app.py:582-583 | after adding an application without a link, the listing answers 500 |
| RouteProperties.DedupKeysDisagree | backend/app.py:592-596 | company "A" creates a second job beside company "a", though both share one listing key |
| RouteProperties.SetAppsKeepsValid | backend/app.py:588 | rewriting an application list keeps the store invariant |
| RouteProperties.AddKeepsValid | backend/app.py:567-622 | add-application keeps the store invariant |
| RouteProperties.UpdateKeepsValid | backend/app.py:632-661 | update keeps the store invariant |
| RouteProperties.DeleteKeepsValid | backend/app.py:671-692 | delete keeps the store invariant |
| RouteProperties.WishlistKeepsValid | backend/app.py:706-753 | wishlist-add keeps the store invariant |
| RouteProperties.AddExtendsPool | backend/app.py:590-619 | given a fresh uuid, no count goes down and no job disappears |
| RouteProperties.WishlistExtendsPool | backend/app.py:747 | wishlist-add never lowers a count |
| Server.Backend.constructor | backend/app.py:1182-1222 | empty collections satisfy the store invariant |
| Server.Backend.NewUserId | backend/app.py:1224-1238 | the running-max loop computes Ids.NewUserId |
| Server.Backend.NewApplicationId | backend/app.py:1241-1257 | the running-max loop computes Ids.NewApplicationId of the user's list; InternalError for an unknown user |
| Server.Backend.DeleteAuthToken | backend/app.py:139-152 | the rebuild loop leaves the user's list without the entries equal to the given one |
| Server.Backend.Middleware | backend/app.py:83-115 | the token scan does what Auth.Authorize states, and keeps the invariant |
| Server.Backend.SignUp | backend/app.py:228-263 | does what Auth.SignUp states, and keeps the invariant |
| Server.Backend.Login | backend/app.py:343-388 | does what Auth.Login states, and keeps the invariant |
| Server.Backend.Logout | backend/app.py:399-412 | the rebuild loop does what Auth.Logout states, and keeps the invariant |
| Server.Backend.AddApplication | backend/app.py:567-622 | does what Routes.AddApplication states, and keeps the invariant |
| Server.Backend.MergeFields | backend/app.py:652-653 | writing each patch key in turn gives the map merge |
| Server.Backend.UpdateLoop | backend/app.py:645-654 | the update pass computes the merge and remembers the last matching record; it fails exactly when a record has no id |
| Server.Backend.UpdateApplication | backend/app.py:632-661 | does what Routes.UpdateApplication states, and keeps the invariant |
| Server.Backend.DeleteLoop | backend/app.py:677-686 | the delete pass computes the filter and remembers the last removed record; it fails exactly when a record has no id |
| Server.Backend.DeleteApplication | backend/app.py:671-692 | does what Routes.DeleteApplication states, and keeps the invariant |
| Server.Backend.AddToWishlist | backend/app.py:706-753 | does what Routes.AddToWishlist states, and keeps the invariant |
| Server.Backend.GetSharedJobs | backend/app.py:984-1015 | the listing loop computes Routes.SharedJobs |

## Left out

- **Google OAuth sign-up** (`signupGoogle`, `authorized`): it relies on an external identity provider and browser redirects.
- **LLM endpoints** (`search`, `parse_resume`, `compare_resume`) and `backend/jobsearch.py`: they are network calls whose output is opaque. `backend/jobsearch.py` is not part of this model.
- **Resume upload and download, analyses storage, profile reads and preference updates**: they are file storage and free-form field writes outside the ledger and the pool. The preference fields of `Users` are left out of `Records.User` for the same reason.
- **MD5**: the hash is a function parameter (`md5`); hex encoding is not modelled.
- **Time**: it is an integer count of seconds. The `strftime`/`strptime` formats, the sub-second truncation of the stored expiry and the date text of the listing are left out; `postedDate` is that integer.
- **Nondeterministic values**: `uuid4()` and today's date are passed in as parameters.
- **Body decoding**: a body that is not JSON, or lacks the key the handler indexes, is `None`. JSON floats, booleans, arrays and nested objects are not values of the model. Sign-up and login take their fields already decoded as optional strings; a non-string password is not modelled.
- **HTTP and storage plumbing**: Flask, `jsonify`, CORS and MongoEngine are reduced to the result datatype and the in-memory store. Status codes are implied by the `Error` case.
- **Bare database failures**: storage-layer exceptions that the handlers turn into 500 are not modelled.
- **Concurrency**: simultaneous requests, including the race of two adds creating the same shared job, are out of scope; every handler runs to completion alone.
- Text.ParseInt: it accepts an optional sign and ASCII digits only. Python `int()` also accepts surrounding whitespace, underscores and non-ASCII digits; those forms are not modelled.
- Text.Lower: it lower-cases ASCII letters only. Python's Unicode case mapping is not modelled.
- Routes.AddApplication: the pool step's `Save` replaces a job whose id equals the new uuid. So freshness of the uuid is a hypothesis of `RouteProperties.PoolCreatesJob` and `RouteProperties.AddExtendsPool`, not a property of the model.
- **No map of users**: `Users` is a sequence rather than a map from id to user. Username lookup returns the first match, and ids grow with insertion, so order and id agree.
