/** The shared job pool: the exact-triple lookup and the counter bump done
    when an application is added, the copy made for the wishlist, and the
    case-insensitive company/link filter of the listing. */
module Pool {
  import opened Wrappers
  import opened Json
  import opened Text
  import opened Seqs
  import opened Records
  import opened Ids

  /** How a query value compares with a stored optional string: null finds
      null, a string finds that string, an integer finds nothing. */
  predicate FieldMatches(stored: Option<string>, v: Value)
  {
    match v
    case Null => stored.None?
    case Str(x) => stored == Some(x)
    case Int(_) => false
  }

  /** `SharedJobs.objects(jobTitle=.., companyName=.., jobLink=..)`: exact,
      case-sensitive equality on all three fields. */
  predicate SameTriple(j: SharedJob, title: Value, company: Value, link: Value)
  {
    title == Str(j.jobTitle) && company == Str(j.companyName) && FieldMatches(j.jobLink, link)
  }

  function FindTriple(jobs: seq<SharedJob>, title: Value, company: Value, link: Value): Option<nat>
  {
    FirstIndex(jobs, (j: SharedJob) => SameTriple(j, title, company, link))
  }

  /** `SharedJobs.objects(id=jobId).first()`. */
  function FindJob(jobs: seq<SharedJob>, jobId: Value): Option<nat>
  {
    FirstIndex(jobs, (j: SharedJob) => jobId == Str(j.id))
  }

  /** `inc__appliedBy=1` on job k. */
  function Bump(jobs: seq<SharedJob>, k: nat): seq<SharedJob>
    requires k < |jobs|
  {
    jobs[k := jobs[k].(appliedBy := jobs[k].appliedBy + 1)]
  }

  /** A value a non-required string field accepts: a string or null. */
  function OptionalString(v: Value): Option<Option<string>>
  {
    match v
    case Null => Some(None)
    case Str(x) => Some(Some(x))
    case Int(_) => None
  }

  /** The new `SharedJobs` document, or None when saving it fails validation
      (a required field not a string, an optional one neither string nor null). */
  function CreateJob(id: string, req: Record, postedBy: int, now: int): Option<SharedJob>
    requires "jobTitle" in req && "companyName" in req
  {
    var location := OptionalString(GetOr(req, "location", Str("")));
    var link := OptionalString(GetOr(req, "jobLink", Str("")));
    if req["jobTitle"].Str? && req["companyName"].Str? && location.Some? && link.Some? then
      Some(SharedJob(id, req["jobTitle"].s, req["companyName"].s, location.value, link.value,
                     postedBy, now, 1, 1))
    else None
  }

  /** `save()` of a document with a primary key: it replaces the document
      with that id, or is added at the end. */
  function Save(jobs: seq<SharedJob>, job: SharedJob): seq<SharedJob>
  {
    match FirstIndex(jobs, (j: SharedJob) => j.id == job.id)
    case Some(k) => jobs[k := job]
    case None => jobs + [job]
  }

  /** The shared-pool step of `add_application`. Indexing a request without
      "jobLink" raises and a failing save raises; both are swallowed, so the
      pool is then left as it was. */
  function PoolStep(jobs: seq<SharedJob>, req: Record, postedBy: int, jobUuid: string, now: int): seq<SharedJob>
    requires "jobTitle" in req && "companyName" in req
  {
    if "jobLink" !in req then jobs
    else match FindTriple(jobs, req["jobTitle"], req["companyName"], req["jobLink"])
      case Some(k) => Bump(jobs, k)
      case None =>
        match CreateJob(jobUuid, req, postedBy, now)
        case None => jobs
        case Some(job) => Save(jobs, job)
  }

  /** The application `add_application_as_wishlist` copies from a shared job. */
  function WishlistApplication(id: int, job: SharedJob, today: string): Record
  {
    map[
      "id" := Int(id),
      "jobTitle" := Str(job.jobTitle),
      "companyName" := Str(job.companyName),
      "date" := Str(today),
      "jobLink" := FromOption(job.jobLink),
      "location" := FromOption(job.location),
      "status" := Str("1")]
  }

  lemma WishlistFields(id: int, job: SharedJob, today: string)
    ensures var a := WishlistApplication(id, job, today);
            && HasId(a, id)
            && a["jobTitle"] == Str(job.jobTitle) && a["companyName"] == Str(job.companyName)
            && a["jobLink"] == FromOption(job.jobLink) && a["location"] == FromOption(job.location)
            && a["status"] == Str("1")
  {
  }

  /** The listing's dedup key: `company.lower() + ":" + link.lower()`. */
  function KeyOf(company: string, link: string): string
  {
    Lower(company) + ":" + Lower(link)
  }

  /** An application's key; None where `.lower()` would raise (the field is
      missing or not a string). */
  function AppKey(a: Record): Option<string>
  {
    if "companyName" in a && a["companyName"].Str? && "jobLink" in a && a["jobLink"].Str? then
      Some(KeyOf(a["companyName"].s, a["jobLink"].s))
    else None
  }

  predicate KeyedApps(apps: seq<Record>)
  {
    forall i :: 0 <= i < |apps| ==> AppKey(apps[i]).Some?
  }

  /** The list comprehension of the user's keys. */
  function AppKeys(apps: seq<Record>): (keys: seq<string>)
    requires KeyedApps(apps)
    ensures |keys| == |apps|
    ensures forall i :: 0 <= i < |apps| ==> keys[i] == AppKey(apps[i]).value
  {
    seq(|apps|, i requires 0 <= i < |apps| => AppKey(apps[i]).value)
  }

  /** Every shared job has a link, so its key can be computed. */
  predicate LinkedJobs(jobs: seq<SharedJob>)
  {
    forall k :: 0 <= k < |jobs| ==> jobs[k].jobLink.Some?
  }

  function JobKey(j: SharedJob): string
    requires j.jobLink.Some?
  {
    KeyOf(j.companyName, j.jobLink.value)
  }

  /** One entry of the listing; postedDate stands for the formatted date. */
  datatype JobView = JobView(id: string, jobTitle: string, companyName: string, location: Option<string>,
                             jobLink: string, postedDate: int, appliedBy: int)

  function View(j: SharedJob): JobView
    requires j.jobLink.Some?
  {
    JobView(j.id, j.jobTitle, j.companyName, j.location, j.jobLink.value, j.postedDate, j.appliedBy)
  }

  /** The listing loop: the views of the jobs whose key is not among keys,
      in pool order. */
  function Listing(jobs: seq<SharedJob>, keys: seq<string>): (r: seq<JobView>)
    requires LinkedJobs(jobs)
    ensures |r| <= |jobs|
  {
    if |jobs| == 0 then []
    else
      var init := jobs[..|jobs| - 1];
      var j := jobs[|jobs| - 1];
      assert forall k :: 0 <= k < |init| ==> init[k] == jobs[k];
      Listing(init, keys) + (if JobKey(j) !in keys then [View(j)] else [])
  }

  /** The listing is exact: every entry is the view of a pool job whose key
      is not among keys, and every such job is listed. */
  lemma {:induction false} ListingExact(jobs: seq<SharedJob>, keys: seq<string>)
    requires LinkedJobs(jobs)
    ensures forall v :: v in Listing(jobs, keys) ==> KeyOf(v.companyName, v.jobLink) !in keys
    ensures forall v :: v in Listing(jobs, keys) ==> exists k :: 0 <= k < |jobs| && v == View(jobs[k])
    ensures forall k :: 0 <= k < |jobs| && JobKey(jobs[k]) !in keys ==> View(jobs[k]) in Listing(jobs, keys)
  {
    if |jobs| > 0 {
      var init := jobs[..|jobs| - 1];
      assert forall k :: 0 <= k < |init| ==> init[k] == jobs[k];
      ListingExact(init, keys);
    }
  }

  /** The listing loop one job further. */
  lemma ListingSnoc(jobs: seq<SharedJob>, j: SharedJob, keys: seq<string>)
    requires LinkedJobs(jobs) && j.jobLink.Some?
    ensures LinkedJobs(jobs + [j])
    ensures Listing(jobs + [j], keys) == Listing(jobs, keys) + (if JobKey(j) !in keys then [View(j)] else [])
  {
    assert (jobs + [j])[..|jobs|] == jobs;
  }

  /** The listing keeps pool order: it distributes over concatenation of pools. */
  lemma {:induction false} ListingConcat(a: seq<SharedJob>, b: seq<SharedJob>, keys: seq<string>)
    requires LinkedJobs(a) && LinkedJobs(b)
    ensures LinkedJobs(a + b)
    ensures Listing(a + b, keys) == Listing(a, keys) + Listing(b, keys)
  {
    assert forall k :: 0 <= k < |a + b| ==> (a + b)[k] == if k < |a| then a[k] else b[k - |a|];
    if |b| > 0 {
      var b' := b[..|b| - 1];
      assert (a + b)[..|a + b| - 1] == a + b';
      ListingConcat(a, b', keys);
    } else {
      assert a + b == a;
    }
  }
}
