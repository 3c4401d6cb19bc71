/** What the ledger and shared-pool routes promise, one call at a time and
    across calls. */
module RouteProperties {
  import opened Wrappers
  import opened Json
  import opened Text
  import opened Seqs
  import opened Records
  import opened Ids
  import opened Auth
  import opened Ledger
  import opened Pool
  import opened Routes

  /** A later pool extends an earlier one: no job disappears or changes,
      except that its applicant count may have grown. */
  ghost predicate PoolExtends(before: seq<SharedJob>, after: seq<SharedJob>)
  {
    && |before| <= |after|
    && forall k :: 0 <= k < |before| ==>
         && after[k] == before[k].(appliedBy := after[k].appliedBy)
         && after[k].appliedBy >= before[k].appliedBy
  }

  /** Only user i's application list differs between the two stores. */
  ghost predicate OnlyLedgerOf(s: State, s': State, i: nat)
  {
    && i < |s.users| && |s'.users| == |s.users|
    && (forall j :: 0 <= j < |s.users| && j != i ==> s'.users[j] == s.users[j])
    && s'.users[i] == s.users[i].(applications := s'.users[i].applications)
  }

  // ---- add_application ----

  /** Without jobTitle or companyName the add fails and nothing changes. */
  lemma AddRejectsMissingFields(s: State, header: Option<string>, req: Option<Record>, jobUuid: string, now: int)
    requires HeaderUserId(header).Some?
    requires req.None? || "jobTitle" !in req.value || "companyName" !in req.value
    ensures AddApplication(s, header, req, jobUuid, now) == (Err(MissingFields), s)
  {
  }

  /** A successful add appends exactly one record, with an id no record of
      that user had, the given title and company and status "1" unless
      given; no other user changes, and the pool takes the shared-pool step. */
  lemma AddAppendsRecord(s: State, header: Option<string>, req: Option<Record>, jobUuid: string, now: int)
    requires AddApplication(s, header, req, jobUuid, now).0.Ok?
    ensures HeaderUser(s, header).Some?
    ensures var (r, s') := AddApplication(s, header, req, jobUuid, now);
            var i := HeaderUser(s, header).value;
            var apps := s.users[i].applications;
            && OnlyLedgerOf(s, s', i)
            && s'.users[i].applications == apps + [r.value]
            && r.value["id"].Int? && r.value["id"].n >= 1
            && (forall j :: 0 <= j < |apps| ==> !HasId(apps[j], r.value["id"].n))
            && r.value["jobTitle"] == req.value["jobTitle"]
            && r.value["companyName"] == req.value["companyName"]
            && r.value["status"] == GetOr(req.value, "status", Str("1"))
            && r.value["date"] == Get(req.value, "date")
            && r.value["jobLink"] == Get(req.value, "jobLink")
            && r.value["location"] == Get(req.value, "location")
            && r.value.Keys == {"id", "jobTitle", "companyName", "date", "jobLink", "location", "status"}
            && s'.jobs == PoolStep(s.jobs, req.value, s.users[i].id, jobUuid, now)
  {
    var i := HeaderUser(s, header).value;
    NewApplicationFields(NewApplicationId(s.users[i].applications).value, req.value);
  }

  /** The add fails with InternalError exactly when the header or the user
      is unusable or an existing record lacks an integer id; it never fails
      because of the shared pool. */
  lemma AddFailsOnlyBeforeRecording(s: State, header: Option<string>, req: Option<Record>, jobUuid: string, now: int)
    requires HeaderUser(s, header).Some?
    requires req.Some? && "jobTitle" in req.value && "companyName" in req.value
    ensures AddApplication(s, header, req, jobUuid, now).0.Ok? <==>
              NewApplicationId(s.users[HeaderUser(s, header).value].applications).Ok?
  {
  }

  /** A request without a link leaves the pool alone. */
  lemma PoolSkipsWithoutLink(jobs: seq<SharedJob>, req: Record, postedBy: int, jobUuid: string, now: int)
    requires "jobTitle" in req && "companyName" in req && "jobLink" !in req
    ensures PoolStep(jobs, req, postedBy, jobUuid, now) == jobs
  {
  }

  /** A job with the exact triple gets one more applicant; nothing else in
      the pool changes and no job is created. */
  lemma PoolBumpsExactMatch(jobs: seq<SharedJob>, req: Record, postedBy: int, jobUuid: string, now: int, k: nat)
    requires "jobTitle" in req && "companyName" in req && "jobLink" in req
    requires FindTriple(jobs, req["jobTitle"], req["companyName"], req["jobLink"]) == Some(k)
    ensures var jobs' := PoolStep(jobs, req, postedBy, jobUuid, now);
            && |jobs'| == |jobs| && k < |jobs|
            && SameTriple(jobs[k], req["jobTitle"], req["companyName"], req["jobLink"])
            && jobs'[k] == jobs[k].(appliedBy := jobs[k].appliedBy + 1)
            && (forall j :: 0 <= j < |jobs| && j != k ==> jobs'[j] == jobs[j])
  {
  }

  /** No job with the triple: one job is created at the end, posted by the
      user, with one applicant and the request's triple (given a fresh uuid
      and a request the job document accepts). */
  lemma PoolCreatesJob(jobs: seq<SharedJob>, req: Record, postedBy: int, jobUuid: string, now: int)
    requires "jobTitle" in req && "companyName" in req && "jobLink" in req
    requires FindTriple(jobs, req["jobTitle"], req["companyName"], req["jobLink"]).None?
    requires CreateJob(jobUuid, req, postedBy, now).Some?
    requires forall k :: 0 <= k < |jobs| ==> jobs[k].id != jobUuid
    ensures var jobs' := PoolStep(jobs, req, postedBy, jobUuid, now);
            && |jobs'| == |jobs| + 1 && jobs'[..|jobs|] == jobs
            && jobs'[|jobs|].id == jobUuid
            && jobs'[|jobs|].appliedBy == 1
            && jobs'[|jobs|].postedBy == postedBy
            && SameTriple(jobs'[|jobs|], req["jobTitle"], req["companyName"], req["jobLink"])
  {
    var job := CreateJob(jobUuid, req, postedBy, now).value;
    assert PoolStep(jobs, req, postedBy, jobUuid, now) == jobs + [job];
    assert FieldMatches(job.jobLink, req["jobLink"]);
  }

  /** The scenario "two users add the same triple": the first add creates
      one job with one applicant, the second finds it and counts two. */
  lemma SameTripleTwice(jobs: seq<SharedJob>, req1: Record, req2: Record, p1: int, p2: int,
                        uuid1: string, uuid2: string, t1: int, t2: int)
    requires "jobTitle" in req1 && "companyName" in req1 && "jobLink" in req1
    requires "jobTitle" in req2 && "companyName" in req2 && "jobLink" in req2
    requires req2["jobTitle"] == req1["jobTitle"] && req2["companyName"] == req1["companyName"]
    requires req2["jobLink"] == req1["jobLink"]
    requires FindTriple(jobs, req1["jobTitle"], req1["companyName"], req1["jobLink"]).None?
    requires CreateJob(uuid1, req1, p1, t1).Some?
    requires forall k :: 0 <= k < |jobs| ==> jobs[k].id != uuid1
    ensures var jobs1 := PoolStep(jobs, req1, p1, uuid1, t1);
            var jobs2 := PoolStep(jobs1, req2, p2, uuid2, t2);
            && |jobs1| == |jobs| + 1 && jobs1[|jobs|].appliedBy == 1
            && |jobs2| == |jobs1| && jobs2[|jobs|].appliedBy == 2
  {
    PoolCreatesJob(jobs, req1, p1, uuid1, t1);
    var jobs1 := PoolStep(jobs, req1, p1, uuid1, t1);
    assert jobs1[..|jobs|] == jobs;
    PoolBumpsExactMatch(jobs1, req2, p2, uuid2, t2, |jobs|);
  }

  /** Given a fresh uuid, the shared-pool step only extends the pool. */
  lemma PoolStepExtends(jobs: seq<SharedJob>, req: Record, postedBy: int, jobUuid: string, now: int)
    requires "jobTitle" in req && "companyName" in req
    requires forall k :: 0 <= k < |jobs| ==> jobs[k].id != jobUuid
    ensures PoolExtends(jobs, PoolStep(jobs, req, postedBy, jobUuid, now))
  {
    if "jobLink" in req && FindTriple(jobs, req["jobTitle"], req["companyName"], req["jobLink"]).None?
       && CreateJob(jobUuid, req, postedBy, now).Some? {
      PoolCreatesJob(jobs, req, postedBy, jobUuid, now);
    }
  }

  /** Every shared job keeps at least one applicant through the pool step. */
  lemma PoolStepKeepsCounts(jobs: seq<SharedJob>, req: Record, postedBy: int, jobUuid: string, now: int)
    requires "jobTitle" in req && "companyName" in req
    requires forall k :: 0 <= k < |jobs| ==> jobs[k].appliedBy >= 1
    ensures var jobs' := PoolStep(jobs, req, postedBy, jobUuid, now);
            forall k :: 0 <= k < |jobs'| ==> jobs'[k].appliedBy >= 1
  {
    if "jobLink" in req && FindTriple(jobs, req["jobTitle"], req["companyName"], req["jobLink"]).None? {
      match CreateJob(jobUuid, req, postedBy, now)
      case None =>
      case Some(job) =>
        var found := FirstIndex(jobs, (j: SharedJob) => j.id == job.id);
        assert job.appliedBy == 1;
    }
  }

  // ---- update_application ----

  /** The update's failures, each leaving the store as it was. */
  lemma UpdateErrors(s: State, header: Option<string>, appId: int, patch: Option<Record>)
    ensures UpdateApplication(s, header, appId, patch).0.Err? ==> UpdateApplication(s, header, appId, patch).1 == s
    ensures HeaderUserId(header).Some? && patch.None? ==>
              UpdateApplication(s, header, appId, patch).0 == Err(NoFieldsInInput)
    ensures patch.Some? && HeaderUser(s, header).Some? && |s.users[HeaderUser(s, header).value].applications| == 0 ==>
              UpdateApplication(s, header, appId, patch).0 == Err(NoApplications)
    ensures patch.Some? && HeaderUser(s, header).Some? &&
            AllHaveIdKey(s.users[HeaderUser(s, header).value].applications) &&
            |s.users[HeaderUser(s, header).value].applications| > 0 &&
            (forall j :: 0 <= j < |s.users[HeaderUser(s, header).value].applications| ==>
               !HasId(s.users[HeaderUser(s, header).value].applications[j], appId)) ==>
              UpdateApplication(s, header, appId, patch).0 == Err(ApplicationNotFound)
  {
  }

  /** A successful update writes every key of the patch into each record
      with that id, keeps their other keys, leaves the other records and
      the order alone, and answers the (last) updated record. */
  lemma UpdateMerges(s: State, header: Option<string>, appId: int, patch: Option<Record>)
    requires UpdateApplication(s, header, appId, patch).0.Ok?
    ensures HeaderUser(s, header).Some? && patch.Some?
    ensures var (r, s') := UpdateApplication(s, header, appId, patch);
            var i := HeaderUser(s, header).value;
            var apps := s.users[i].applications;
            var apps' := s'.users[i].applications;
            && OnlyLedgerOf(s, s', i) && s'.jobs == s.jobs
            && |apps'| == |apps|
            && (forall j :: 0 <= j < |apps| && !HasId(apps[j], appId) ==> apps'[j] == apps[j])
            && (forall j :: 0 <= j < |apps| && HasId(apps[j], appId) ==>
                  && apps'[j].Keys == apps[j].Keys + patch.value.Keys
                  && (forall key :: key in patch.value ==> key in apps'[j] && apps'[j][key] == patch.value[key])
                  && (forall key :: key in apps[j] && key !in patch.value ==> key in apps'[j] && apps'[j][key] == apps[j][key]))
            && (exists k :: 0 <= k < |apps| && HasId(apps[k], appId) && r.value == apps'[k])
  {
    var i := HeaderUser(s, header).value;
    var k := LastWithId(s.users[i].applications, appId).value;
    assert HasId(s.users[i].applications[k], appId);
    MergeMatchingEffect(s.users[i].applications, appId, patch.value);
  }

  // ---- delete_application ----

  /** An unknown id leaves the ledger unchanged and answers "Application not found". */
  lemma DeleteUnknownId(s: State, header: Option<string>, appId: int)
    requires HeaderUser(s, header).Some?
    requires AllHaveIdKey(s.users[HeaderUser(s, header).value].applications)
    requires forall j :: 0 <= j < |s.users[HeaderUser(s, header).value].applications| ==>
               !HasId(s.users[HeaderUser(s, header).value].applications[j], appId)
    ensures DeleteApplication(s, header, appId) == (Err(ApplicationNotFound), s)
  {
  }

  /** A successful delete keeps, in order, exactly the records without that
      id, so the list gets shorter, and answers a removed record. */
  lemma DeleteFilters(s: State, header: Option<string>, appId: int)
    requires DeleteApplication(s, header, appId).0.Ok?
    ensures HeaderUser(s, header).Some?
    ensures var (r, s') := DeleteApplication(s, header, appId);
            var i := HeaderUser(s, header).value;
            var apps := s.users[i].applications;
            var apps' := s'.users[i].applications;
            && OnlyLedgerOf(s, s', i) && s'.jobs == s.jobs
            && apps' == WithoutId(apps, appId)
            && r.value in apps && HasId(r.value, appId)
            && (forall a :: a in apps' <==> a in apps && !HasId(a, appId))
            && |apps'| < |apps|
  {
    var i := HeaderUser(s, header).value;
    var apps := s.users[i].applications;
    var k := LastWithId(apps, appId).value;
    FilterDrops(apps, (a: Record) => !HasId(a, appId), k);
  }

  /** Replacing a list of applications does not change whom a header names. */
  lemma SetAppsKeepsHeaderUser(s: State, i: nat, apps: seq<Record>, header: Option<string>)
    requires i < |s.users|
    ensures HeaderUser(SetApps(s, i, apps), header) == HeaderUser(s, header)
  {
    var s' := SetApps(s, i, apps);
    assert forall j :: 0 <= j < |s.users| ==> s'.users[j].id == s.users[j].id;
    if HeaderUserId(header).Some? && ParseInt(HeaderUserId(header).value).Some? {
      var uid := ParseInt(HeaderUserId(header).value).value;
      var f := FindUser(s.users, uid);
      var f' := FindUser(s'.users, uid);
      assert f' == f;
    }
  }

  /** A record appended with a fresh id is the last one with that id, and
      removing that id gives the list back. */
  lemma RemoveAppended(apps: seq<Record>, rec: Record, n: int)
    requires forall j :: 0 <= j < |apps| ==> !HasId(apps[j], n)
    requires HasId(rec, n)
    ensures LastWithId(apps + [rec], n) == Some(|apps|)
    ensures WithoutId(apps + [rec], n) == apps
  {
    var apps1 := apps + [rec];
    assert HasId(apps1[|apps|], n);
    FilterConcat(apps, [rec], (a: Record) => !HasId(a, n));
    FilterKeepsAll(apps, (a: Record) => !HasId(a, n));
    assert [rec][..0] == [];
  }

  /** The user's list right after an add: the old list and the new record last. */
  lemma AddThenList(s: State, header: Option<string>, req: Option<Record>, jobUuid: string, now: int)
    requires AddApplication(s, header, req, jobUuid, now).0.Ok?
    ensures var (r, s1) := AddApplication(s, header, req, jobUuid, now);
            ListApplications(s1, header) == Ok(s.users[HeaderUser(s, header).value].applications + [r.value])
  {
    var (r, s1) := AddApplication(s, header, req, jobUuid, now);
    var i := HeaderUser(s, header).value;
    SetAppsKeepsHeaderUser(s, i, s.users[i].applications + [r.value], header);
  }

  /** Round trip: deleting the record just added restores every user's
      list (the shared pool keeps what the add did to it). */
  lemma AddThenDelete(s: State, header: Option<string>, req: Option<Record>, jobUuid: string, now: int)
    requires AddApplication(s, header, req, jobUuid, now).0.Ok?
    ensures var (r, s1) := AddApplication(s, header, req, jobUuid, now);
            DeleteApplication(s1, header, r.value["id"].n) == (Ok(r.value), s1.(users := s.users))
  {
    var (r, s1) := AddApplication(s, header, req, jobUuid, now);
    var i := HeaderUser(s, header).value;
    var apps := s.users[i].applications;
    var rec := r.value;
    NewApplicationFields(NewApplicationId(apps).value, req.value);
    var n := rec["id"].n;
    assert s1.users[i].applications == apps + [rec];
    SetAppsKeepsHeaderUser(s, i, apps + [rec], header);
    assert HeaderUser(s1, header) == Some(i);
    assert AllHaveIdKey(apps + [rec]) by {
      assert IntIds(apps) || |apps| == 0;
    }
    RemoveAppended(apps, rec, n);
    assert s1.users[i := s1.users[i].(applications := apps)] == s.users;
  }

  // ---- add_application_as_wishlist ----

  /** The wishlist add's failures, each leaving the store as it was. */
  lemma WishlistErrors(s: State, header: Option<string>, body: Option<Record>, today: string)
    ensures AddToWishlist(s, header, body, today).0.Err? ==> AddToWishlist(s, header, body, today).1 == s
    ensures HeaderUserId(header).Some? && body.Some? && Falsy(Get(body.value, "jobId")) ==>
              AddToWishlist(s, header, body, today).0 == Err(MissingJobId)
    ensures HeaderUserId(header).Some? && body.Some? && !Falsy(Get(body.value, "jobId")) &&
            FindJob(s.jobs, Get(body.value, "jobId")).None? ==>
              AddToWishlist(s, header, body, today).0 == Err(SharedJobNotFound)
  {
  }

  /** A successful wishlist add appends one record copied from the shared
      job (title, company, link, location) with status "1" and a fresh id;
      no other user changes. */
  lemma WishlistCopiesJob(s: State, header: Option<string>, body: Option<Record>, today: string)
    requires AddToWishlist(s, header, body, today).0.Ok?
    ensures HeaderUser(s, header).Some? && body.Some? && FindJob(s.jobs, Get(body.value, "jobId")).Some?
    ensures var (r, s') := AddToWishlist(s, header, body, today);
            var i := HeaderUser(s, header).value;
            var job := s.jobs[FindJob(s.jobs, Get(body.value, "jobId")).value];
            var apps := s.users[i].applications;
            && OnlyLedgerOf(s, s', i)
            && s'.users[i].applications == apps + [r.value]
            && r.value["id"].Int? && r.value["id"].n >= 1
            && (forall j :: 0 <= j < |apps| ==> !HasId(apps[j], r.value["id"].n))
            && r.value["jobTitle"] == Str(job.jobTitle) && r.value["companyName"] == Str(job.companyName)
            && r.value["jobLink"] == FromOption(job.jobLink) && r.value["location"] == FromOption(job.location)
            && r.value["status"] == Str("1")
            && Get(body.value, "jobId") == Str(job.id)
  {
    var i := HeaderUser(s, header).value;
    var k := FindJob(s.jobs, Get(body.value, "jobId")).value;
    var id := NewApplicationId(s.users[i].applications);
    WishlistFields(id.value, s.jobs[k], today);
  }

  /** The wishlist add counts one more applicant on the shared job it
      copied and changes no other job. */
  lemma WishlistBumpsJob(s: State, header: Option<string>, body: Option<Record>, today: string)
    requires AddToWishlist(s, header, body, today).0.Ok?
    ensures body.Some? && FindJob(s.jobs, Get(body.value, "jobId")).Some?
    ensures var s' := AddToWishlist(s, header, body, today).1;
            var k := FindJob(s.jobs, Get(body.value, "jobId")).value;
            && |s'.jobs| == |s.jobs|
            && s'.jobs[k] == s.jobs[k].(appliedBy := s.jobs[k].appliedBy + 1)
            && (forall j :: 0 <= j < |s.jobs| && j != k ==> s'.jobs[j] == s.jobs[j])
  {
  }

  // ---- get_shared_jobs ----

  /** The listing holds, in pool order, the views of exactly the jobs whose
      lower-cased company:link key is not among the user's own keys. */
  lemma ListingExactlyUnapplied(s: State, header: Option<string>)
    requires SharedJobs(s, header).Ok?
    ensures HeaderUser(s, header).Some?
    ensures var apps := s.users[HeaderUser(s, header).value].applications;
            var r := SharedJobs(s, header).value;
            && KeyedApps(apps) && LinkedJobs(s.jobs)
            && r == Listing(s.jobs, AppKeys(apps))
            && (forall v :: v in r ==> KeyOf(v.companyName, v.jobLink) !in AppKeys(apps))
            && (forall v :: v in r ==> exists k :: 0 <= k < |s.jobs| && v == View(s.jobs[k]))
            && (forall k :: 0 <= k < |s.jobs| && JobKey(s.jobs[k]) !in AppKeys(apps) ==> View(s.jobs[k]) in r)
  {
    var apps := s.users[HeaderUser(s, header).value].applications;
    ListingExact(s.jobs, AppKeys(apps));
  }

  /** No listed job has the company and link of one of the user's own
      applications, up to letter case; the title plays no part. */
  lemma OwnApplicationHidesJob(s: State, header: Option<string>, j: nat, company: string, link: string)
    requires SharedJobs(s, header).Ok?
    requires HeaderUser(s, header).Some?
    requires j < |s.users[HeaderUser(s, header).value].applications|
    requires var a := s.users[HeaderUser(s, header).value].applications[j];
             "companyName" in a && a["companyName"] == Str(company) && "jobLink" in a && a["jobLink"] == Str(link)
    ensures forall v :: v in SharedJobs(s, header).value ==>
              !(Lower(v.companyName) == Lower(company) && Lower(v.jobLink) == Lower(link))
  {
    var apps := s.users[HeaderUser(s, header).value].applications;
    assert AppKeys(apps)[j] == KeyOf(company, link);
    assert KeyOf(company, link) in AppKeys(apps);
    ListingExact(s.jobs, AppKeys(apps));
  }

  /** An application added without a link has a null link, on which the
      listing's `.lower()` raises: the user's listing fails from then on. */
  lemma LinklessApplicationBreaksListing(s: State, header: Option<string>, req: Option<Record>, jobUuid: string, now: int)
    requires AddApplication(s, header, req, jobUuid, now).0.Ok?
    requires "jobLink" !in req.value
    ensures SharedJobs(AddApplication(s, header, req, jobUuid, now).1, header) == Err(InternalError)
  {
    var (r, s1) := AddApplication(s, header, req, jobUuid, now);
    var i := HeaderUser(s, header).value;
    var uid := s.users[i].id;
    var fi := FindUser(s1.users, uid);
    assert fi == Some(i) by {
      assert FindUser(s.users, uid) == Some(i);
      assert forall j :: 0 <= j < |s1.users| ==> s1.users[j].id == s.users[j].id;
    }
    var apps1 := s1.users[i].applications;
    assert apps1[|apps1| - 1] == r.value;
    assert AppKey(apps1[|apps1| - 1]).None?;
  }

  /** The two dedup keys disagree: a job posted for company "a" is not the
      same job for an application to company "A" (a second job is created),
      yet the listing hides both from that applicant. */
  lemma DedupKeysDisagree()
    ensures var job := SharedJob("j1", "t", "a", None, Some("l"), 1, 0, 1, 1);
            var req := map["jobTitle" := Str("t"), "companyName" := Str("A"), "jobLink" := Str("l")];
            var jobs' := PoolStep([job], req, 2, "j2", 0);
            && |jobs'| == 2
            && JobKey(jobs'[0]) == JobKey(jobs'[1]) == AppKey(NewApplication(1, req)).value
  {
    var job := SharedJob("j1", "t", "a", None, Some("l"), 1, 0, 1, 1);
    var req := map["jobTitle" := Str("t"), "companyName" := Str("A"), "jobLink" := Str("l")];
    assert !SameTriple(job, req["jobTitle"], req["companyName"], req["jobLink"]) by {
      assert "a" != "A" by { assert "a"[0] != "A"[0]; }
    }
    assert FindTriple([job], req["jobTitle"], req["companyName"], req["jobLink"]) == None;
    var created := CreateJob("j2", req, 2, 0).value;
    assert FirstIndex([job], (j: SharedJob) => j.id == created.id) == None by {
      assert "j1" != "j2" by { assert "j1"[1] != "j2"[1]; }
    }
    assert Lower("A") == Lower("a") by {
      assert LowerChar('A') == 'a';
    }
  }

  // ---- the store's invariant ----

  lemma SetAppsKeepsValid(s: State, i: nat, apps: seq<Record>)
    requires Valid(s) && i < |s.users|
    ensures Valid(SetApps(s, i, apps))
  {
    var s' := SetApps(s, i, apps);
    assert forall j :: 0 <= j < |s.users| ==> s'.users[j].id == s.users[j].id;
  }

  /** Each route keeps user ids unique and positive and every shared job's
      count at least one. */
  lemma AddKeepsValid(s: State, header: Option<string>, req: Option<Record>, jobUuid: string, now: int)
    requires Valid(s)
    ensures Valid(AddApplication(s, header, req, jobUuid, now).1)
  {
    var (r, s') := AddApplication(s, header, req, jobUuid, now);
    if r.Ok? {
      var i := HeaderUser(s, header).value;
      SetAppsKeepsValid(s, i, s'.users[i].applications);
      PoolStepKeepsCounts(s.jobs, req.value, s.users[i].id, jobUuid, now);
    }
  }

  lemma UpdateKeepsValid(s: State, header: Option<string>, appId: int, patch: Option<Record>)
    requires Valid(s)
    ensures Valid(UpdateApplication(s, header, appId, patch).1)
  {
    var (r, s') := UpdateApplication(s, header, appId, patch);
    if r.Ok? {
      var i := HeaderUser(s, header).value;
      SetAppsKeepsValid(s, i, s'.users[i].applications);
    }
  }

  lemma DeleteKeepsValid(s: State, header: Option<string>, appId: int)
    requires Valid(s)
    ensures Valid(DeleteApplication(s, header, appId).1)
  {
    var (r, s') := DeleteApplication(s, header, appId);
    if r.Ok? {
      var i := HeaderUser(s, header).value;
      SetAppsKeepsValid(s, i, s'.users[i].applications);
    }
  }

  lemma WishlistKeepsValid(s: State, header: Option<string>, body: Option<Record>, today: string)
    requires Valid(s)
    ensures Valid(AddToWishlist(s, header, body, today).1)
  {
    var (r, s') := AddToWishlist(s, header, body, today);
    if r.Ok? {
      var i := HeaderUser(s, header).value;
      SetAppsKeepsValid(s, i, s'.users[i].applications);
    }
  }

  /** Applicant counts never go down: the add (given a uuid that is not
      already a job id) and the wishlist add only extend the pool; the
      update and the delete leave it as it was. */
  lemma AddExtendsPool(s: State, header: Option<string>, req: Option<Record>, jobUuid: string, now: int)
    requires forall k :: 0 <= k < |s.jobs| ==> s.jobs[k].id != jobUuid
    ensures PoolExtends(s.jobs, AddApplication(s, header, req, jobUuid, now).1.jobs)
  {
    var (r, s') := AddApplication(s, header, req, jobUuid, now);
    if r.Ok? {
      var i := HeaderUser(s, header).value;
      PoolStepExtends(s.jobs, req.value, s.users[i].id, jobUuid, now);
    } else {
      assert s' == s;
    }
  }

  lemma WishlistExtendsPool(s: State, header: Option<string>, body: Option<Record>, today: string)
    ensures PoolExtends(s.jobs, AddToWishlist(s, header, body, today).1.jobs)
  {
    var (r, s') := AddToWishlist(s, header, body, today);
    if r.Ok? {
      WishlistBumpsJob(s, header, body, today);
    } else {
      WishlistErrors(s, header, body, today);
    }
  }
}
