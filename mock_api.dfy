/**
 * The in-memory store behind the mock API: the module-level tables of users,
 * login tokens, sites, templates, template areas and job details, with their
 * id counters, and one method per route of the request dispatcher.
 *
 * The caller of a protected route is given as an `Actor` (the user its
 * bearer token resolves to); the time of a request is given as a `Clock`;
 * the token a login issues is given as a parameter.
 */
module MockApi {
  import opened Wrappers
  import opened Text
  import opened Entities
  import opened JobRules
  import opened DirectoryRules
  import opened StoreInvariant

  /** What `GET /jobs/:id/captures` returns. */
  datatype CaptureList = CaptureList(captures: seq<Capture>, completionPercentage: nat)

  // ----- the seed data of the store -----

  /** The two seed image URLs, as tokens: a dirty vent (pre) and a clean one (post). */
  const DirtyVent: ImageUrl := 1
  const CleanVent: ImageUrl := 2

  // Text of the seed records.
  const ClientName: string := "Big Easy"
  const Site1Name: string := "Canary Wharf"
  const Site1Street: string := "123 High Street"
  const Site1City: string := "London"
  const Site1Postcode: string := "SW1A 1AA"
  const Site1Contact: string := "Site Supervisor A"
  const Site1Phone: string := "07400111222"
  const Site1Email: string := "canarywharf@bigeasy.example"
  const Site1Notes: string := "Access via loading bay before 9:00 AM."
  const Site2Name: string := "Site B"
  const Site2Street: string := "45 Industrial Rd"
  const Site2Street2: string := "Unit 2"
  const Site2City: string := "Manchester"
  const Site2Postcode: string := "M1 2AB"
  const Site2Contact: string := "Facilities Manager B"
  const Site2Phone: string := "07400333444"
  const Site2Email: string := "manchester@bigeasy.example"
  const Site2Notes: string := "Report to reception and sign in on arrival."
  const CanopyName: string := "Main Canopy"
  const CanopyGuidance: string := "Photograph from below, capture full width"
  const TemplateName: string := "Kitchen Extract Clean"
  const TemplateDescription: string := "TR19 compliant kitchen extract system cleaning"
  const Job1Reference: string := "JOB-20260131-A3F2"
  const Job1Title: string := "Electrical inspection"
  const Job1Description: string := "Annual electrical safety check"
  const JaneName: string := "Jane Engineer"
  const Job2Reference: string := "JOB-20260131-B4E1"
  const Job2Title: string := "Plumbing repair"
  const BobName: string := "Bob Smith"
  const Job3Reference: string := "JOB-20260131-C5D0"
  const Job3Title: string := "Vent deep clean"
  const Job3Description: string := "Completed ventilation deep clean"
  const Job4Reference: string := "JOB-20260131-D6F9"
  const Job4Title: string := "Duct inspection follow-up"
  const Job4Description: string := "Follow-up inspection after initial clean"
  const Job4ReviewNotes: string := "Post-work photo is blurry and does not clearly show the cleaned area."

  function SeedSite1(t: Instant): Site {
    Site(1, ClientName, Some(Site1Name), Site1Street, None, Site1City, Site1Postcode,
         Some(Site1Contact), Some(Site1Phone), Some(Site1Email),
         Some(Site1Notes), 1767225600000, t)
  }

  function SeedSite2(t: Instant): Site {
    Site(2, ClientName, Some(Site2Name), Site2Street, Some(Site2Street2), Site2City, Site2Postcode,
         Some(Site2Contact), Some(Site2Phone), Some(Site2Email),
         Some(Site2Notes), 1767225600000, t)
  }

  function SeedArea(t: Instant): TemplateArea {
    TemplateArea(1, 1, CanopyName, 1, Some(CanopyGuidance), t)
  }

  function SeedCapture(id: int, pre: Option<Instant>, post: Option<Instant>, t: Instant): Capture {
    Capture(id, id, 1, CanopyName, 1, Some(CanopyGuidance),
            if pre.Some? then Some(DirtyVent) else None, if pre.Some? then Some(DirtyVent) else None, pre,
            if post.Some? then Some(CleanVent) else None, if post.Some? then Some(CleanVent) else None, post,
            None, t, t)
  }

  function SeedSites(t: Instant): seq<Site> {
    [SeedSite1(t), SeedSite2(t)]
  }

  function SeedTemplates(t: Instant): seq<Template> {
    [Template(1, TemplateName, Some(TemplateDescription),
              1, true, 1768035600000, [SeedArea(t)])]
  }

  function SeedJobs(t: Instant): seq<Job> {
    [ Job(1, Job1Reference, Job1Title, Some(Job1Description), Submitted,
          None, Some(1768899600000), Some(1768906800000), None, Some(t), None, None, 1768471200000, t,
          SeedSite1(t), Some(EngineerRef(1, JaneName)), [SeedCapture(1, Some(t), Some(t), t)]),
      Job(2, Job2Reference, Job2Title, None, InProgress,
          None, Some(1769002200000), Some(1769013000000), None, None, None, None, 1768471200000, t,
          SeedSite2(t), Some(EngineerRef(2, BobName)), [SeedCapture(2, None, None, t)]),
      Job(3, Job3Reference, Job3Title, Some(Job3Description), Approved,
          None, Some(1768809600000), Some(1768824000000), Some(1768809900000), Some(1768825200000),
          Some(1768827600000), None, 1768471200000, t,
          SeedSite1(t), Some(EngineerRef(2, BobName)), [SeedCapture(3, Some(1768811400000), Some(1768823100000), t)]),
      Job(4, Job4Reference, Job4Title, Some(Job4Description), Rejected,
          None, Some(1768726800000), Some(1768735800000), Some(1768727400000), Some(1768736700000),
          Some(1768738800000), Some(Job4ReviewNotes),
          1768471200000, t,
          SeedSite2(t), Some(EngineerRef(2, BobName)), [SeedCapture(4, Some(1768728000000), Some(1768734000000), t)]) ]
  }


  /** The seed sites satisfy the site invariant. */
  lemma SeedSitesOk(t: Instant)
    ensures SitesOk(SeedSites(t), 3) && SiteIds(SeedSites(t)) == {1, 2}
  {
    var ss := SeedSites(t);
    assert ss[0] in ss && ss[1] in ss;
  }

  /** The seed template and its one area agree. */
  lemma SeedTemplatesOk(t: Instant)
    ensures TemplatesOk(SeedTemplates(t), 2, [SeedArea(t)])
  {
    var ts := SeedTemplates(t);
    assert ts[0] in ts;
    assert AreasOf([SeedArea(t)], 1) == [SeedArea(t)] by {
      assert [SeedArea(t)][..0] == [];
    }
  }

  /** The seed jobs are in id order, at the seed sites, and every seed capture with a post image has a pre image. */
  lemma SeedJobsOk(t: Instant)
    ensures JobsOk(SeedJobs(t), 5, {1, 2})
  {
  }

  /** The module-level tables of the mock API and their id counters. */
  class Store {
    var nextUserId: nat
    var users: seq<User>
    var tokenToUser: map<string, int>
    var nextSiteId: nat
    var sites: seq<Site>
    var nextTemplateId: nat
    var nextAreaId: nat
    var nextCaptureId: nat
    var templates: seq<Template>
    var templateAreas: seq<TemplateArea>
    var nextJobId: nat
    var jobs: seq<Job>

    ghost predicate Valid()
      reads this`users, this`nextUserId, this`tokenToUser, this`sites, this`nextSiteId
      reads this`templates, this`nextTemplateId, this`templateAreas, this`jobs, this`nextJobId
    {
      && UsersOk(users, nextUserId, tokenToUser)
      && SitesOk(sites, nextSiteId)
      && TemplatesOk(templates, nextTemplateId, templateAreas)
      && JobsOk(jobs, nextJobId, SiteIds(sites))
    }

    /** The seed state: two sites, one template with one area, four jobs, no users. */
    constructor (loadTime: Instant)
      ensures Valid()
      ensures users == [] && tokenToUser == map[] && nextUserId == 1
      ensures sites == SeedSites(loadTime) && nextSiteId == 3
      ensures templates == SeedTemplates(loadTime) && nextTemplateId == 2
      ensures templateAreas == [SeedArea(loadTime)] && nextAreaId == 3
      ensures jobs == SeedJobs(loadTime) && nextJobId == 5 && nextCaptureId == 5
    {
      nextUserId := 1;
      users := [];
      tokenToUser := map[];
      nextSiteId := 3;
      sites := SeedSites(loadTime);
      nextTemplateId := 2;
      nextAreaId := 3;
      nextCaptureId := 5;
      templates := SeedTemplates(loadTime);
      templateAreas := [SeedArea(loadTime)];
      nextJobId := 5;
      jobs := SeedJobs(loadTime);
      new;
      SeedSitesOk(loadTime);
      SeedTemplatesOk(loadTime);
      SeedJobsOk(loadTime);
    }

    // ----- POST /auth/login, POST /auth/setup -----

    /**
     * `POST /auth/login`: an unknown email creates an active trade manager;
     * the issued token is recorded for the user.
     */
    method Login(email: Option<string>, password: Option<string>, token: string, clock: Clock)
      returns (r: Result<User, ApiError>)
      requires Valid()
      modifies this`users, this`nextUserId, this`tokenToUser
      ensures Valid()
      ensures !(Filled(email) && Filled(password)) ==>
                r == Err(MissingCredentials) && users == old(users) && nextUserId == old(nextUserId)
                && tokenToUser == old(tokenToUser)
      ensures Filled(email) && Filled(password) ==>
                r.Ok? && r.value in users && r.value.email == email.value
                && tokenToUser == old(tokenToUser)[token := r.value.id]
      ensures Filled(email) && Filled(password) && old(FindUserByEmail(users, email.value)).Some? ==>
                r.value == old(FindUserByEmail(users, email.value)).value
                && users == old(users) && nextUserId == old(nextUserId)
      ensures Filled(email) && Filled(password) && old(FindUserByEmail(users, email.value)).None? ==>
                r.value == LoginUser(old(nextUserId), email.value, clock.now)
                && users == old(users) + [r.value] && nextUserId == old(nextUserId) + 1
    {
      if !(Filled(email) && Filled(password)) {
        return Err(MissingCredentials);
      }
      var found := FindUserByEmail(users, email.value);
      var user: User;
      if found.Some? {
        user := found.value;
      } else {
        user := LoginUser(nextUserId, email.value, clock.now);
        AddUser(user);
      }
      IssueToken(token, user);
      return Ok(user);
    }

    /** Stores a new user under the user counter's id and moves the counter on. */
    method AddUser(user: User)
      requires UsersOk(users, nextUserId, tokenToUser) && user.id == nextUserId
      modifies this`users, this`nextUserId
      ensures UsersOk(users, nextUserId, tokenToUser)
      ensures users == old(users) + [user] && nextUserId == old(nextUserId) + 1
    {
      UserAppended(users, nextUserId, tokenToUser, user);
      nextUserId := nextUserId + 1;
      users := users + [user];
    }

    /** Maps a session token to a stored user. */
    method IssueToken(token: string, user: User)
      requires UsersOk(users, nextUserId, tokenToUser) && user in users
      modifies this`tokenToUser
      ensures UsersOk(users, nextUserId, tokenToUser) && tokenToUser == old(tokenToUser)[token := user.id]
    {
      TokenIssued(users, nextUserId, tokenToUser, token, user);
      tokenToUser := tokenToUser[token := user.id];
    }

    /** `POST /auth/setup`: creates the first user, a super admin, while the user table is empty. */
    method Setup(req: SetupRequest, clock: Clock) returns (r: Result<User, ApiError>)
      requires Valid()
      modifies this`users, this`nextUserId
      ensures Valid()
      ensures r == CheckSetup(|old(users)|, req, old(nextUserId), clock.now)
      ensures r.Ok? ==> users == old(users) + [r.value] && nextUserId == old(nextUserId) + 1 && |users| == 1
      ensures r.Err? ==> users == old(users) && nextUserId == old(nextUserId)
    {
      r := CheckSetup(|users|, req, nextUserId, clock.now);
      if r.Ok? {
        UserAppended(users, nextUserId, tokenToUser, r.value);
        nextUserId := nextUserId + 1;
        users := users + [r.value];
      }
    }

    // ----- jobs -----

    /** `GET /jobs`: an engineer is limited to their own jobs. */
    method ListJobs(actor: Actor, status: string, requested: Option<int>) returns (rows: seq<JobRow>)
      ensures rows == JobList(jobs, status, ListScope(actor, requested))
      ensures actor.role == Engineer ==>
                forall r :: r in rows ==> r.engineer.Some? && r.engineer.value.id == actor.id
    {
      if actor.role == Engineer {
        EngineerSeesOwnJobs(jobs, actor, status, requested);
      }
      rows := JobList(jobs, status, ListScope(actor, requested));
    }

    /** The capture loop of `POST /jobs`: one fresh capture per area, numbered from the capture counter. */
    method SnapshotAreas(areas: seq<TemplateArea>, jobId: int, now: Instant) returns (captures: seq<Capture>)
      modifies this`nextCaptureId
      ensures captures == SnapshotCaptures(areas, old(nextCaptureId), jobId, now)
      ensures nextCaptureId == old(nextCaptureId) + |areas|
    {
      captures := [];
      var i := 0;
      while i < |areas|
        invariant 0 <= i <= |areas|
        invariant nextCaptureId == old(nextCaptureId) + i
        invariant captures == SnapshotCaptures(areas[..i], old(nextCaptureId), jobId, now)
      {
        captures := captures + [NewCapture(nextCaptureId, jobId, areas[i], now)];
        nextCaptureId := nextCaptureId + 1;
        assert areas[..i + 1][..i] == areas[..i];
        i := i + 1;
      }
      assert areas[..i] == areas;
    }

    /** Stores a new job under the job counter's id and moves the counter on. */
    method AppendJob(job: Job)
      requires Valid() && job.id == nextJobId && job.site in sites
      requires forall c :: c in job.captures ==> PreBeforePost(c)
      modifies this`jobs, this`nextJobId
      ensures Valid() && jobs == old(jobs) + [job] && nextJobId == old(nextJobId) + 1
    {
      JobAppended(jobs, nextJobId, SiteIds(sites), job);
      jobs := jobs + [job];
      nextJobId := nextJobId + 1;
    }

    /**
     * `POST /jobs`: on any failed check nothing is stored and no counter
     * moves; otherwise the job takes the next id and one capture per
     * template area takes the next capture ids.
     */
    /** Stores the job a passed check plans, with its snapshot of the template's areas. */
    method StorePlanned(plan: Plan, req: JobRequest, clock: Clock) returns (job: Job)
      requires Valid() && plan.site in sites && Filled(req.title)
      modifies this`jobs, this`nextJobId, this`nextCaptureId
      ensures Valid()
      ensures job == NewJob(plan, req, old(nextJobId),
                            SnapshotCaptures(plan.template.areas, old(nextCaptureId), old(nextJobId), clock.now), clock)
      ensures jobs == old(jobs) + [job] && nextJobId == old(nextJobId) + 1
      ensures nextCaptureId == old(nextCaptureId) + |plan.template.areas|
    {
      var id := nextJobId;
      var captures := SnapshotAreas(plan.template.areas, id, clock.now);
      job := NewJob(plan, req, id, captures, clock);
      AppendJob(job);
    }

    /**
     * `POST /jobs`: on any failed check nothing is stored and no counter
     * moves; otherwise the job takes the next id and one capture per
     * template area takes the next capture ids.
     */
    method CreateJob(req: JobRequest, clock: Clock) returns (r: Result<Job, ApiError>)
      requires Valid()
      modifies this`jobs, this`nextJobId, this`nextCaptureId
      ensures Valid()
      ensures old(CheckNewJob(req, sites, templates, users, clock)).Err? ==>
                && r == Err(old(CheckNewJob(req, sites, templates, users, clock)).error)
                && jobs == old(jobs) && nextJobId == old(nextJobId) && nextCaptureId == old(nextCaptureId)
      ensures old(CheckNewJob(req, sites, templates, users, clock)).Ok? ==>
                var plan := old(CheckNewJob(req, sites, templates, users, clock)).value;
                var captures := SnapshotCaptures(plan.template.areas, old(nextCaptureId), old(nextJobId), clock.now);
                && r.Ok? && r.value == NewJob(plan, req, old(nextJobId), captures, clock)
                && jobs == old(jobs) + [r.value] && nextJobId == old(nextJobId) + 1
                && nextCaptureId == old(nextCaptureId) + |captures|
    {
      var check := CheckNewJob(req, sites, templates, users, clock);
      if check.Err? {
        return Err(check.error);
      }
      var job := StorePlanned(check.value, req, clock);
      return Ok(job);
    }

    /** Stores a job back at its position; its id and site stay, its captures stay sound. */
    method WriteJob(k: nat, job: Job)
      requires Valid() && k < |jobs| && job.id == jobs[k].id && job.site == jobs[k].site
      requires job.captures == jobs[k].captures || forall c :: c in job.captures ==> PreBeforePost(c)
      modifies this`jobs
      ensures Valid() && jobs == old(jobs)[k := job]
    {
      JobReplaced(jobs, nextJobId, SiteIds(sites), k, job);
      jobs := jobs[k := job];
    }

    /**
     * `PUT /jobs/:id`: the fields are written one by one into the stored
     * job, and a failing check leaves the writes made before it in place.
     */
    method UpdateJob(id: int, p: JobPatch, clock: Clock) returns (r: Result<Job, ApiError>)
      requires Valid()
      modifies this`jobs
      ensures Valid()
      ensures FindJob(old(jobs), id).None? ==> r == Err(JobNotFound) && jobs == old(jobs)
      ensures FindJob(old(jobs), id).Some? ==>
                var k := FindJob(old(jobs), id).value;
                var pr := PatchJob(old(jobs)[k], p, users, clock);
                && jobs == old(jobs)[k := pr.job]
                && r == (if pr.error.Some? then Err(pr.error.value) else Ok(pr.job))
    {
      var found := FindJob(jobs, id);
      if found.None? {
        return Err(JobNotFound);
      }
      var k := found.value;
      var pr := ApplyJobPatch(jobs[k], p, users, clock);
      WriteJob(k, pr.job);
      r := if pr.error.Some? then Err(pr.error.value) else Ok(pr.job);
    }

    /** `DELETE /jobs/:id`. */
    method DeleteJob(id: int) returns (r: Result<(), ApiError>)
      requires Valid()
      modifies this`jobs
      ensures Valid()
      ensures FindJob(old(jobs), id).None? ==> r == Err(JobNotFound) && jobs == old(jobs)
      ensures FindJob(old(jobs), id).Some? ==>
                var k := FindJob(old(jobs), id).value;
                r.Ok? && jobs == old(jobs)[..k] + old(jobs)[k + 1..]
      ensures forall j :: j in jobs ==> j.id != id
    {
      var found := FindJob(jobs, id);
      if found.None? {
        return Err(JobNotFound);
      }
      var k := found.value;
      RemoveJobAt(jobs, k);
      JobRemoved(jobs, nextJobId, SiteIds(sites), k);
      jobs := jobs[..k] + jobs[k + 1..];
      return Ok(());
    }

    /** `POST /jobs/:id/approve`: the status becomes approved whatever it was; an unknown id changes nothing. */
    method Approve(id: int)
      requires Valid()
      modifies this`jobs
      ensures Valid()
      ensures FindJob(old(jobs), id).None? ==> jobs == old(jobs)
      ensures FindJob(old(jobs), id).Some? ==>
                var k := FindJob(old(jobs), id).value;
                jobs == old(jobs)[k := old(jobs)[k].(status := Approved)]
    {
      var found := FindJob(jobs, id);
      if found.Some? {
        var k := found.value;
        WriteJob(k, jobs[k].(status := Approved));
      }
    }

    /**
     * `POST /jobs/:id/reject`: the status becomes rejected whatever it was,
     * with the trimmed reason (or null) and the review time.
     */
    method Reject(id: int, reason: Option<string>, clock: Clock)
      requires Valid()
      modifies this`jobs
      ensures Valid()
      ensures FindJob(old(jobs), id).None? ==> jobs == old(jobs)
      ensures FindJob(old(jobs), id).Some? ==>
                var k := FindJob(old(jobs), id).value;
                jobs == old(jobs)[k := old(jobs)[k].(status := Rejected, reviewNotes := TrimmedOrNull(reason),
                                                     reviewedAt := Some(clock.now))]
    {
      var found := FindJob(jobs, id);
      if found.Some? {
        var k := found.value;
        var job := jobs[k].(status := Rejected);
        job := job.(reviewNotes := TrimmedOrNull(reason));
        job := job.(reviewedAt := Some(clock.now));
        WriteJob(k, job);
      }
    }

    /** `GET /jobs/:id/captures`: the captures and the completion percentage. */
    method ListCaptures(id: int) returns (r: Result<CaptureList, ApiError>)
      ensures FindJob(jobs, id).None? ==> r == Err(JobNotFound)
      ensures FindJob(jobs, id).Some? ==>
                var cs := jobs[FindJob(jobs, id).value].captures;
                && r.Ok? && r.value.captures == cs && r.value.completionPercentage <= 100
                && r.value.completionPercentage == CompletionPercentage(cs)
                && 2 * |cs| * r.value.completionPercentage <= 200 * PostCount(cs) + |cs|
                && (cs != [] ==> 200 * PostCount(cs) + |cs| < 2 * |cs| * (r.value.completionPercentage + 1))
                && (cs == [] ==> r.value.completionPercentage == 0)
    {
      var found := FindJob(jobs, id);
      if found.None? {
        return Err(JobNotFound);
      }
      var cs := jobs[found.value].captures;
      return Ok(CaptureList(cs, CompletionPercentage(cs)));
    }

    /**
     * `POST /jobs/:id/captures/:area_id/(pre|post)`: the job is looked up
     * first, then the upload rules of `Upload` apply to it in place.
     */
    method UploadCapture(jobId: int, actor: Actor, areaId: nat, side: Side, body: UploadBody, clock: Clock)
      returns (r: Result<Capture, ApiError>)
      requires Valid()
      modifies this`jobs, this`nextCaptureId
      ensures Valid()
      ensures FindJob(old(jobs), jobId).None? ==>
                r == Err(JobNotFound) && jobs == old(jobs) && nextCaptureId == old(nextCaptureId)
      ensures FindJob(old(jobs), jobId).Some? ==>
                var k := FindJob(old(jobs), jobId).value;
                var u := Upload(old(jobs)[k], actor, areaId, side, body, old(nextCaptureId), clock.now);
                jobs == old(jobs)[k := u.job] && nextCaptureId == u.nextCaptureId && r == u.result
    {
      var found := FindJob(jobs, jobId);
      if found.None? {
        return Err(JobNotFound);
      }
      var k := found.value;
      assert jobs[k] in jobs;
      UploadKeepsPreBeforePost(jobs[k], actor, areaId, side, body, nextCaptureId, clock.now);
      var u := UploadSteps(jobs[k], actor, areaId, side, body, nextCaptureId, clock.now);
      WriteJob(k, u.job);
      nextCaptureId := u.nextCaptureId;
      r := u.result;
    }

    // ----- sites -----

    /** `POST /sites`. */
    method CreateSite(req: SiteRequest, clock: Clock) returns (r: Result<Site, ApiError>)
      requires Valid()
      modifies this`sites, this`nextSiteId
      ensures Valid()
      ensures r == CheckNewSite(req, old(nextSiteId), clock.now)
      ensures r.Ok? ==> sites == old(sites) + [r.value] && nextSiteId == old(nextSiteId) + 1
      ensures r.Err? ==> sites == old(sites) && nextSiteId == old(nextSiteId)
    {
      r := CheckNewSite(req, nextSiteId, clock.now);
      if r.Ok? {
        SiteAppended(sites, nextSiteId, r.value);
        SitesGrown(jobs, nextJobId, SiteIds(sites), SiteIds(sites + [r.value]));
        nextSiteId := nextSiteId + 1;
        sites := sites + [r.value];
      }
    }

    /** `PUT /sites/:id`. */
    method UpdateSite(id: int, p: SitePatch, clock: Clock) returns (r: Result<Site, ApiError>)
      requires Valid()
      modifies this`sites
      ensures Valid()
      ensures FindSiteIndex(old(sites), id).None? ==> r == Err(SiteNotFound) && sites == old(sites)
      ensures FindSiteIndex(old(sites), id).Some? ==>
                var k := FindSiteIndex(old(sites), id).value;
                sites == old(sites)[k := PatchSite(old(sites)[k], p, clock.now)] && r == Ok(sites[k])
    {
      var found := FindSiteIndex(sites, id);
      if found.None? {
        return Err(SiteNotFound);
      }
      var k := found.value;
      assert sites[k] in sites;
      var site := PatchSite(sites[k], p, clock.now);
      SiteReplaced(sites, nextSiteId, k, site);
      sites := sites[k := site];
      return Ok(site);
    }

    /** The filter of `DELETE /sites/:id`: keeps the jobs at other sites, in order. */
    method KeepJobsNotAt(siteId: int)
      modifies this`jobs
      ensures jobs == JobsWithoutSite(old(jobs), siteId)
    {
      var kept: seq<Job> := [];
      var i := 0;
      while i < |jobs|
        invariant 0 <= i <= |jobs|
        invariant kept == JobsWithoutSite(jobs[..i], siteId)
      {
        if jobs[i].site.id != siteId {
          kept := kept + [jobs[i]];
        }
        assert jobs[..i + 1][..i] == jobs[..i];
        i := i + 1;
      }
      assert jobs[..i] == jobs;
      jobs := kept;
    }

    /** The job loop of `DELETE /sites/:id`, as a step that keeps the invariant. */
    method DropJobsAt(id: int)
      requires Valid()
      modifies this`jobs
      ensures Valid() && jobs == JobsWithoutSite(old(jobs), id)
    {
      SiteJobsRemoved(jobs, nextJobId, SiteIds(sites), id);
      SitesGrown(JobsWithoutSite(jobs, id), nextJobId, SiteIds(sites) - {id}, SiteIds(sites));
      KeepJobsNotAt(id);
    }

    /** Removes the site at position `k` once no job is at it. */
    method DropSiteRow(k: nat)
      requires Valid() && k < |sites| && forall j :: j in jobs ==> j.site.id != sites[k].id
      modifies this`sites
      ensures Valid() && sites == old(sites)[..k] + old(sites)[k + 1..]
    {
      SiteRemoved(sites, nextSiteId, k);
      sites := sites[..k] + sites[k + 1..];
    }

    /**
     * `DELETE /sites/:id`: the site goes, and so does every job at it. The
     * jobs are dropped first so that the invariant holds between the steps;
     * the final state is the one the route leaves.
     */
    method DeleteSite(id: int) returns (r: Result<(), ApiError>)
      requires Valid()
      modifies this`sites, this`jobs
      ensures Valid()
      ensures FindSiteIndex(old(sites), id).None? ==> r == Err(SiteNotFound) && sites == old(sites) && jobs == old(jobs)
      ensures FindSiteIndex(old(sites), id).Some? ==>
                var k := FindSiteIndex(old(sites), id).value;
                r.Ok? && sites == old(sites)[..k] + old(sites)[k + 1..] && jobs == JobsWithoutSite(old(jobs), id)
      ensures r.Ok? ==> forall j :: j in jobs ==> j.site.id != id
    {
      var found := FindSiteIndex(sites, id);
      if found.None? {
        return Err(SiteNotFound);
      }
      JobsWithoutSiteMembers(jobs, id);
      DropJobsAt(id);
      DropSiteRow(found.value);
      return Ok(());
    }

    // ----- templates -----

    /** The backwards splice loop: removes every area of one template from the area table. */
    method RemoveAreasOf(templateId: int)
      modifies this`templateAreas
      ensures templateAreas == AreasWithout(old(templateAreas), templateId)
    {
      ghost var orig := templateAreas;
      var i := |templateAreas|;
      while i > 0
        invariant 0 <= i <= |orig|
        invariant templateAreas == orig[..i] + AreasWithout(orig[i..], templateId)
      {
        SpliceStep(orig, i, templateId);
        i := i - 1;
        if templateAreas[i].templateId == templateId {
          templateAreas := templateAreas[..i] + templateAreas[i + 1..];
        }
      }
      assert orig[0..] == orig;
    }

    /** The area loop of `POST /templates`: pushes one numbered area per entry onto the area table. */
    method PushAreas(inputs: seq<AreaInput>, templateId: int, now: Instant) returns (list: seq<TemplateArea>)
      modifies this`templateAreas, this`nextAreaId
      ensures list == NewAreas(inputs, old(nextAreaId), templateId, now)
      ensures templateAreas == old(templateAreas) + list
      ensures nextAreaId == old(nextAreaId) + |inputs|
    {
      list := [];
      var i := 0;
      while i < |inputs|
        invariant 0 <= i <= |inputs|
        invariant nextAreaId == old(nextAreaId) + i
        invariant list == NewAreas(inputs[..i], old(nextAreaId), templateId, now)
        invariant templateAreas == old(templateAreas) + list
      {
        var area := NewArea(inputs[i], i, nextAreaId, templateId, now);
        nextAreaId := nextAreaId + 1;
        templateAreas := templateAreas + [area];
        list := list + [area];
        assert inputs[..i + 1][..i] == inputs[..i];
        i := i + 1;
      }
      assert inputs[..i] == inputs;
    }

    /**
     * Numbers and stores the areas of a new template, then the template
     * itself under the next id; only the template part of the invariant is
     * involved.
     */
    method AddTemplate(name: string, description: Option<string>, inputs: seq<AreaInput>, clock: Clock)
      returns (template: Template)
      requires TemplatesOk(templates, nextTemplateId, templateAreas)
      modifies this`templates, this`templateAreas, this`nextTemplateId, this`nextAreaId
      ensures TemplatesOk(templates, nextTemplateId, templateAreas)
      ensures var list := NewAreas(inputs, old(nextAreaId), old(nextTemplateId), clock.now);
              && template == Template(old(nextTemplateId), name, description, |list|, true, clock.now, list)
              && templates == old(templates) + [template] && templateAreas == old(templateAreas) + list
              && nextTemplateId == old(nextTemplateId) + 1 && nextAreaId == old(nextAreaId) + |list|
    {
      var templateId := nextTemplateId;
      nextTemplateId := nextTemplateId + 1;
      var list := PushAreas(inputs, templateId, clock.now);
      template := Template(templateId, name, description, |list|, true, clock.now, list);
      TemplateAdded(templates, templateId, old(templateAreas), template);
      templates := templates + [template];
    }

    /**
     * `POST /templates`: the areas are numbered from the area counter and
     * pushed onto the area table one by one; the template is active.
     */
    method CreateTemplate(name: Option<string>, description: Option<string>, areas: Option<seq<AreaInput>>, clock: Clock)
      returns (r: Result<Template, ApiError>)
      requires Valid()
      modifies this`templates, this`templateAreas, this`nextTemplateId, this`nextAreaId
      ensures Valid()
      ensures !Filled(name) || areas.None? ==>
                && r == Err(MissingTemplateFields) && templates == old(templates) && templateAreas == old(templateAreas)
                && nextTemplateId == old(nextTemplateId) && nextAreaId == old(nextAreaId)
      ensures Filled(name) && areas.Some? ==>
                var list := NewAreas(areas.value, old(nextAreaId), old(nextTemplateId), clock.now);
                && r.Ok? && r.value == Template(old(nextTemplateId), name.value, description, |list|, true, clock.now, list)
                && templates == old(templates) + [r.value] && templateAreas == old(templateAreas) + list
                && nextTemplateId == old(nextTemplateId) + 1 && nextAreaId == old(nextAreaId) + |list|
    {
      if !Filled(name) || areas.None? {
        return Err(MissingTemplateFields);
      }
      var template := AddTemplate(name.value, description, areas.value, clock);
      return Ok(template);
    }

    /**
     * `PUT /templates/:id`: name, description and active flag as sent; an
     * `areas` array replaces the template's areas by their normalised form,
     * in the area table too.
     */
    method UpdateTemplate(id: int, p: TemplatePatch, clock: Clock) returns (r: Result<Template, ApiError>)
      requires Valid()
      modifies this`templates, this`templateAreas, this`nextAreaId
      ensures Valid()
      ensures FindTemplateIndex(old(templates), id).None? ==>
                r == Err(TemplateNotFound) && templates == old(templates) && templateAreas == old(templateAreas)
                && nextAreaId == old(nextAreaId)
      ensures FindTemplateIndex(old(templates), id).Some? ==>
                var k := FindTemplateIndex(old(templates), id).value;
                && templates == old(templates)[k := PatchTemplate(old(templates)[k], p, old(nextAreaId), clock.now)]
                && r == Ok(templates[k])
                && (p.areas.None? ==> templateAreas == old(templateAreas) && nextAreaId == old(nextAreaId))
                && (p.areas.Some? ==>
                      && templateAreas == AreasWithout(old(templateAreas), id) + templates[k].areas
                      && nextAreaId == old(nextAreaId) + |templates[k].areas|)
    {
      var found := FindTemplateIndex(templates, id);
      if found.None? {
        return Err(TemplateNotFound);
      }
      var k := found.value;
      var t := PatchTemplate(templates[k], p, nextAreaId, clock.now);
      if p.areas.Some? {
        nextAreaId := nextAreaId + |t.areas|;
        ReplaceAreas(k, t);
      } else {
        RewriteTemplate(k, t);
      }
      return Ok(t);
    }

    /** Stores a template back at its position with new areas, replacing its old areas in the area table. */
    method ReplaceAreas(k: nat, t: Template)
      requires Valid() && k < |templates| && t.id == templates[k].id && t.areaCount == |t.areas|
      requires forall i :: 0 <= i < |t.areas| ==> t.areas[i].templateId == t.id
      modifies this`templates, this`templateAreas
      ensures Valid()
      ensures templates == old(templates)[k := t] && templateAreas == AreasWithout(old(templateAreas), t.id) + t.areas
    {
      TemplateReplaced(templates, nextTemplateId, templateAreas, k, t);
      RemoveAreasOf(t.id);
      templateAreas := templateAreas + t.areas;
      templates := templates[k := t];
    }

    /** Stores a template back at its position with its areas unchanged. */
    method RewriteTemplate(k: nat, t: Template)
      requires Valid() && k < |templates| && t.id == templates[k].id
      requires t.areas == templates[k].areas && t.areaCount == templates[k].areaCount
      modifies this`templates
      ensures Valid() && templates == old(templates)[k := t]
    {
      TemplateRenamed(templates, nextTemplateId, templateAreas, k, t);
      templates := templates[k := t];
    }

    /** `DELETE /templates/:id`: the template goes, and so do its areas. */
    method DeleteTemplate(id: int) returns (r: Result<(), ApiError>)
      requires Valid()
      modifies this`templates, this`templateAreas
      ensures Valid()
      ensures FindTemplateIndex(old(templates), id).None? ==>
                r == Err(TemplateNotFound) && templates == old(templates) && templateAreas == old(templateAreas)
      ensures FindTemplateIndex(old(templates), id).Some? ==>
                var k := FindTemplateIndex(old(templates), id).value;
                r.Ok? && templates == old(templates)[..k] + old(templates)[k + 1..]
                && templateAreas == AreasWithout(old(templateAreas), id)
      ensures r.Ok? ==> forall a :: a in templateAreas ==> a.templateId != id
    {
      var found := FindTemplateIndex(templates, id);
      if found.None? {
        return Err(TemplateNotFound);
      }
      var k := found.value;
      AreasWithoutMembers(templateAreas, id);
      RemoveTemplate(k);
      return Ok(());
    }

    /** Splices the template at `k` out of the template table, after its areas out of the area table. */
    method RemoveTemplate(k: nat)
      requires TemplatesOk(templates, nextTemplateId, templateAreas) && k < |templates|
      modifies this`templates, this`templateAreas
      ensures TemplatesOk(templates, nextTemplateId, templateAreas)
      ensures templates == old(templates)[..k] + old(templates)[k + 1..]
      ensures templateAreas == AreasWithout(old(templateAreas), old(templates)[k].id)
    {
      TemplateRemoved(templates, nextTemplateId, templateAreas, k);
      RemoveAreasOf(templates[k].id);
      templates := templates[..k] + templates[k + 1..];
    }

    // ----- users -----

    /** `GET /users`. */
    method ListUsers(actor: Actor, roleFilter: string, activeParam: string) returns (rows: seq<UserRow>)
      ensures rows == UserList(users, actor.role, roleFilter, activeParam)
      ensures actor.role == TradeManager ==> forall r :: r in rows ==> r.role == Engineer
    {
      TradeManagerSeesOnlyEngineers(users, roleFilter, activeParam);
      rows := UserList(users, actor.role, roleFilter, activeParam);
    }

    /** `POST /users`: a trade manager may create engineers only. */
    method CreateUser(actor: Actor, req: UserRequest, clock: Clock) returns (r: Result<User, ApiError>)
      requires Valid()
      modifies this`users, this`nextUserId
      ensures Valid()
      ensures CheckNewUser(actor.role, req).Err? ==>
                r == Err(CheckNewUser(actor.role, req).error) && users == old(users) && nextUserId == old(nextUserId)
      ensures CheckNewUser(actor.role, req).Ok? ==>
                && r.Ok? && r.value == NewUser(old(nextUserId), req, CheckNewUser(actor.role, req).value, actor.id, clock.now)
                && users == old(users) + [r.value] && nextUserId == old(nextUserId) + 1
      ensures actor.role == TradeManager && r.Ok? ==> r.value.role == Engineer
    {
      var check := CheckNewUser(actor.role, req);
      if check.Err? {
        return Err(check.error);
      }
      var user := NewUser(nextUserId, req, check.value, actor.id, clock.now);
      AddUser(user);
      return Ok(user);
    }

    /** The cascade loop of `PUT /users/:id` over the job table. */
    method RefreshAssignments(u: User)
      modifies this`jobs
      ensures jobs == RefreshEngineer(old(jobs), u)
    {
      var i := 0;
      while i < |jobs|
        invariant 0 <= i <= |jobs| == |old(jobs)|
        invariant forall m :: 0 <= m < i ==> jobs[m] == RefreshEngineer(old(jobs), u)[m]
        invariant forall m :: i <= m < |jobs| ==> jobs[m] == old(jobs)[m]
      {
        if jobs[i].engineer.Some? && jobs[i].engineer.value.id == u.id {
          if u.isActive && u.role == Engineer {
            jobs := jobs[i := jobs[i].(engineer := Some(EngineerRef(u.id, u.fullName)))];
          } else {
            jobs := jobs[i := jobs[i].(engineer := None)];
          }
        }
        i := i + 1;
      }
    }

    /** Stores a user back at its position under its own id and refreshes the jobs assigned to it. */
    method StoreUser(k: nat, u: User)
      requires Valid() && k < |users| && u.id == users[k].id
      modifies this`users, this`jobs
      ensures Valid()
      ensures users == old(users)[k := u] && jobs == RefreshEngineer(old(jobs), u)
    {
      UserReplaced(users, nextUserId, tokenToUser, k, u);
      EngineersChanged(jobs, RefreshEngineer(jobs, u), nextJobId, SiteIds(sites));
      users := users[k := u];
      RefreshAssignments(u);
    }

    /**
     * `PUT /users/:id`: the user is patched, then every job assigned to the
     * user is refreshed to the user's new state.
     */
    method UpdateUser(id: int, p: UserPatch, clock: Clock) returns (r: Result<User, ApiError>)
      requires Valid()
      modifies this`users, this`jobs
      ensures Valid()
      ensures FindUser(old(users), id).None? ==> r == Err(UserNotFound) && users == old(users) && jobs == old(jobs)
      ensures FindUser(old(users), id).Some? ==>
                var k := FindUser(old(users), id).value;
                var u := PatchUser(old(users)[k], p, clock.now);
                users == old(users)[k := u] && jobs == RefreshEngineer(old(jobs), u) && r == Ok(u)
    {
      var found := FindUser(users, id);
      if found.None? {
        return Err(UserNotFound);
      }
      var k := found.value;
      var u := PatchUser(users[k], p, clock.now);
      StoreUser(k, u);
      return Ok(u);
    }

    /** The token loop of `DELETE /users/:id`: drops every token issued to the user. */
    method RevokeTokens(id: int)
      modifies this`tokenToUser
      ensures tokenToUser == TokensWithout(old(tokenToUser), id)
    {
      var pending := tokenToUser.Keys;
      while pending != {}
        invariant pending <= old(tokenToUser).Keys
        invariant forall t :: t in tokenToUser <==> t in old(tokenToUser) && (t in pending || old(tokenToUser)[t] != id)
        invariant forall t :: t in tokenToUser ==> tokenToUser[t] == old(tokenToUser)[t]
        decreases |pending|
      {
        var t :| t in pending;
        if tokenToUser[t] == id {
          tokenToUser := tokenToUser - {t};
        }
        pending := pending - {t};
      }
      assert tokenToUser == TokensWithout(old(tokenToUser), id);
    }

    /** The job loop of `DELETE /users/:id`: jobs assigned to the user lose their engineer. */
    method ClearAssignments(id: int)
      modifies this`jobs
      ensures jobs == ClearEngineer(old(jobs), id)
    {
      var i := 0;
      while i < |jobs|
        invariant 0 <= i <= |jobs| == |old(jobs)|
        invariant forall m :: 0 <= m < i ==> jobs[m] == ClearEngineer(old(jobs), id)[m]
        invariant forall m :: i <= m < |jobs| ==> jobs[m] == old(jobs)[m]
      {
        if jobs[i].engineer.Some? && jobs[i].engineer.value.id == id {
          jobs := jobs[i := jobs[i].(engineer := None)];
        }
        i := i + 1;
      }
    }

    /** Removes the user at position `k`, every token issued to it and its job assignments. */
    method DropUser(k: nat)
      requires Valid() && k < |users|
      modifies this`users, this`tokenToUser, this`jobs
      ensures Valid()
      ensures users == old(users)[..k] + old(users)[k + 1..]
      ensures tokenToUser == TokensWithout(old(tokenToUser), old(users)[k].id)
      ensures jobs == ClearEngineer(old(jobs), old(users)[k].id)
    {
      var id := users[k].id;
      UserRemoved(users, nextUserId, tokenToUser, k);
      EngineersChanged(jobs, ClearEngineer(jobs, id), nextJobId, SiteIds(sites));
      users := users[..k] + users[k + 1..];
      RevokeTokens(id);
      ClearAssignments(id);
    }

    /**
     * `DELETE /users/:id`: the user goes, with every token issued to them,
     * and every job assigned to them loses its engineer.
     */
    method DeleteUser(id: int) returns (r: Result<(), ApiError>)
      requires Valid()
      modifies this`users, this`tokenToUser, this`jobs
      ensures Valid()
      ensures FindUser(old(users), id).None? ==>
                r == Err(UserNotFound) && users == old(users) && tokenToUser == old(tokenToUser) && jobs == old(jobs)
      ensures FindUser(old(users), id).Some? ==>
                var k := FindUser(old(users), id).value;
                && r.Ok? && users == old(users)[..k] + old(users)[k + 1..]
                && tokenToUser == TokensWithout(old(tokenToUser), id)
                && jobs == ClearEngineer(old(jobs), id)
      ensures r.Ok? ==> (forall j :: j in jobs ==> !AssignedTo(j, id))
                        && (forall t :: t in tokenToUser ==> tokenToUser[t] != id)
    {
      var found := FindUser(users, id);
      if found.None? {
        return Err(UserNotFound);
      }
      ClearLeavesNoAssignment(jobs, id);
      DropUser(found.value);
      return Ok(());
    }
  }

  /** The first writes of `PUT /jobs/:id`, field by field: title, description, status. */
  method WriteHead(job: Job, p: JobPatch, now: Instant) returns (j: Job)
    ensures j == PatchHead(job, p, now)
  {
    j := job;
    if !p.title.Absent? {
      j := j.(title := TrimmedOr(j.title, p.title));
    }
    if !p.description.Absent? {
      j := j.(description := Nullable(p.description, j.description));
    }
    if p.status.Some? {
      j := j.(status := p.status.value);
      if p.status.value == Submitted {
        j := j.(submittedAt := Some(now));
      }
    }
  }

  /** The engineer write of `PUT /jobs/:id` and the schedule checks a resolved engineer triggers. */
  method WriteEngineer(job: Job, p: JobPatch, users: seq<User>, now: Instant) returns (r: Patched)
    ensures r == PatchEngineer(job, p, users, now)
  {
    var j := job;
    if !p.engineerId.Absent? {
      var engineer := if p.engineerId.Null? then None else ResolveEngineer(users, Some(p.engineerId.value));
      j := j.(engineer := EngineerRefOf(engineer));
      if engineer.Some? {
        if j.scheduledStart.None? || j.scheduledEnd.None? {
          return Patched(j, Some(ScheduleRequired));
        }
        if j.scheduledEnd.value <= j.scheduledStart.value {
          return Patched(j, Some(EndNotAfterStart));
        }
      }
    }
    j := j.(updatedAt := now);
    return Patched(j, None);
  }

  /**
   * The writes of `PUT /jobs/:id` on one job, in the route's order; a
   * failing check returns the job as written so far together with the error.
   */
  method ApplyJobPatch(job: Job, p: JobPatch, users: seq<User>, clock: Clock) returns (r: Patched)
    ensures r == PatchJob(job, p, users, clock)
  {
    var j := WriteHead(job, p, clock.now);
    if !p.scheduledDate.Absent? {
      if p.scheduledDate.Given? && p.scheduledDate.value < clock.today {
        return Patched(j, Some(ScheduledDateInPast));
      }
      j := j.(scheduledDate := Nullable(p.scheduledDate, j.scheduledDate));
    }
    if !p.scheduledStart.Absent? {
      if p.scheduledStart.Given? && p.scheduledStart.value < clock.now {
        return Patched(j, Some(StartBeforeNow));
      }
      j := j.(scheduledStart := Nullable(p.scheduledStart, j.scheduledStart));
    }
    if !p.scheduledEnd.Absent? {
      j := j.(scheduledEnd := Nullable(p.scheduledEnd, j.scheduledEnd));
    }
    r := WriteEngineer(j, p, users, clock.now);
  }

  /**
   * The upload route on a job it found: an unknown area first gets a capture
   * appended, then the checks run and the image is recorded on the capture.
   */
  method UploadSteps(job: Job, actor: Actor, areaId: nat, side: Side, body: UploadBody, nextCaptureId: nat, now: Instant)
    returns (u: Uploaded)
    ensures u == Upload(job, actor, areaId, side, body, nextCaptureId, now)
  {
    if !MayUpload(actor, job) {
      return Uploaded(job, nextCaptureId, Err(Forbidden));
    }
    var j := job;
    var next := nextCaptureId;
    var index := FindCapture(j.captures, areaId);
    var ci: nat;
    if index.None? {
      ci := |j.captures|;
      j := j.(captures := j.captures + [FreshCapture(next, j.id, areaId, |j.captures| + 1, now)]);
      next := next + 1;
    } else {
      ci := index.value;
    }
    var c := j.captures[ci];
    if side == Post && c.preUrl.None? {
      return Uploaded(j, next, Err(PreImageRequired));
    }
    if body.NotMultipart? {
      return Uploaded(j, next, Err(MultipartRequired));
    }
    if body.image.None? {
      return Uploaded(j, next, Err(ImageRequired));
    }
    c := RecordImage(c, side, body.image.value, now);
    j := j.(captures := j.captures[ci := c], updatedAt := now);
    return Uploaded(j, next, Ok(c));
  }
}
