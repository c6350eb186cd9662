/**
 * The pure rules of the job routes of the in-memory store: the job list
 * filter, the checks and the record of job creation, the job reference, the
 * per-area capture snapshot, the completion percentage, the partial update
 * of a job, the review notes of a rejection and the capture upload gate.
 */
module JobRules {
  import opened Wrappers
  import opened Text
  import opened Entities

  // ----- lookups (`Array.prototype.find` by id) -----

  function FindSite(sites: seq<Site>, id: int): (r: Option<Site>)
    ensures r.Some? ==> r.value in sites && r.value.id == id
    ensures r.None? ==> forall s :: s in sites ==> s.id != id
  {
    if sites == [] then None
    else if sites[0].id == id then Some(sites[0])
    else FindSite(sites[1..], id)
  }

  function FindTemplate(templates: seq<Template>, id: int): (r: Option<Template>)
    ensures r.Some? ==> r.value in templates && r.value.id == id
    ensures r.None? ==> forall t :: t in templates ==> t.id != id
  {
    if templates == [] then None
    else if templates[0].id == id then Some(templates[0])
    else FindTemplate(templates[1..], id)
  }

  /**
   * The engineer an `engineer_id` resolves to: the first user with that id
   * whose role is engineer. Whether that user is active is not checked.
   */
  function ResolveEngineer(users: seq<User>, engineerId: Option<int>): (r: Option<User>)
    ensures r.Some? ==> engineerId.Some? && r.value in users
                        && r.value.id == engineerId.value && r.value.role == Engineer
    ensures r.None? && engineerId.Some? ==>
              forall u :: u in users ==> !(u.id == engineerId.value && u.role == Engineer)
  {
    if engineerId.None? || users == [] then None
    else if users[0].id == engineerId.value && users[0].role == Engineer then Some(users[0])
    else ResolveEngineer(users[1..], engineerId)
  }

  /** Index of the job with the given id in the id-ordered job table. */
  function FindJob(jobs: seq<Job>, id: int): (r: Option<nat>)
    ensures r.Some? ==> r.value < |jobs| && jobs[r.value].id == id
    ensures r.None? ==> forall k :: 0 <= k < |jobs| ==> jobs[k].id != id
  {
    IndexOf(jobs, (x: Job) => x.id, id)
  }

  // ----- GET /jobs -----

  function SummaryOf(s: Site): SiteSummary {
    SiteSummary(s.clientName, s.siteName, s.addressLine1, s.addressLine2, s.city, s.postcode)
  }

  function RowOf(j: Job): JobRow {
    JobRow(j.id, j.reference, j.title, j.status, SummaryOf(j.site), j.engineer,
           j.scheduledDate, j.scheduledStart, j.scheduledEnd, j.submittedAt, j.reviewNotes, j.createdAt)
  }

  /**
   * The list filter: an empty `status` and an absent engineer id do not
   * filter; otherwise the row's status name and engineer id must match.
   */
  predicate RowMatches(r: JobRow, status: string, engineerId: Option<int>) {
    && (status == "" || StatusName(r.status) == status)
    && (engineerId.None? || (r.engineer.Some? && r.engineer.value.id == engineerId.value))
  }

  /** `getJobList`: the rows of the jobs, in table order, that pass the filter. */
  function JobList(jobs: seq<Job>, status: string, engineerId: Option<int>): (rows: seq<JobRow>)
    ensures |rows| <= |jobs|
    ensures forall r :: r in rows ==> RowMatches(r, status, engineerId)
    ensures forall r :: r in rows ==> exists j :: j in jobs && r == RowOf(j)
    ensures forall j :: j in jobs && RowMatches(RowOf(j), status, engineerId) ==> RowOf(j) in rows
  {
    if jobs == [] then []
    else
      var rest := JobList(jobs[1..], status, engineerId);
      if RowMatches(RowOf(jobs[0]), status, engineerId) then [RowOf(jobs[0])] + rest else rest
  }

  /**
   * The engineer filter `GET /jobs` applies: an engineer always sees only
   * their own jobs; other roles get the `engineer_id` they asked for, if any.
   */
  function ListScope(actor: Actor, requested: Option<int>): (r: Option<int>)
    ensures actor.role == Engineer ==> r == Some(actor.id)
    ensures actor.role != Engineer ==> r == requested
  {
    if actor.role == Engineer then Some(actor.id) else requested
  }

  /** An engineer's job list holds only jobs assigned to that engineer. */
  lemma EngineerSeesOwnJobs(jobs: seq<Job>, actor: Actor, status: string, requested: Option<int>)
    requires actor.role == Engineer
    ensures forall r :: r in JobList(jobs, status, ListScope(actor, requested)) ==>
              r.engineer.Some? && r.engineer.value.id == actor.id
  {
  }

  // ----- POST /jobs -----

  /** A numeric id that is truthy: present and not zero. */
  predicate NonZero(n: Option<int>) {
    n.Some? && n.value != 0
  }

  /** The body of `POST /jobs`; `None` stands for a missing or null field. */
  datatype JobRequest = JobRequest(
    title: Option<string>,
    description: Option<string>,
    siteId: Option<int>,
    templateId: Option<int>,
    engineerId: Option<int>,
    scheduledDate: Option<Day>,
    scheduledStart: Option<Instant>,
    scheduledEnd: Option<Instant>)

  /** What a valid creation request resolved to. */
  datatype Plan = Plan(site: Site, template: Template, engineer: Option<User>)

  /** The schedule an assigned engineer needs: both ends, not in the past, a non-empty window. */
  predicate ScheduleAcceptable(start: Option<Instant>, end: Option<Instant>, now: Instant) {
    start.Some? && end.Some? && now <= start.value && start.value < end.value
  }

  /** Any of the conditions under which `POST /jobs` throws. */
  predicate CreateRejected(req: JobRequest, sites: seq<Site>, templates: seq<Template>, users: seq<User>, clock: Clock) {
    || !Filled(req.title) || !NonZero(req.siteId) || !NonZero(req.templateId)
    || (req.scheduledDate.Some? && req.scheduledDate.value < clock.today)
    || FindSite(sites, req.siteId.value).None?
    || FindTemplate(templates, req.templateId.value).None?
    || (ResolveEngineer(users, req.engineerId).Some?
        && !ScheduleAcceptable(req.scheduledStart, req.scheduledEnd, clock.now))
  }

  /** The checks of `POST /jobs`, in the order the route makes them. */
  function CheckNewJob(req: JobRequest, sites: seq<Site>, templates: seq<Template>, users: seq<User>, clock: Clock)
    : (r: Result<Plan, ApiError>)
    ensures r.Err? <==> CreateRejected(req, sites, templates, users, clock)
    ensures !Filled(req.title) || !NonZero(req.siteId) || !NonZero(req.templateId) ==> r == Err(MissingJobFields)
    ensures r.Ok? ==> && r.value.site in sites && r.value.site.id == req.siteId.value
                      && r.value.template in templates && r.value.template.id == req.templateId.value
                      && r.value.engineer == ResolveEngineer(users, req.engineerId)
    ensures r.Ok? && r.value.engineer.Some? ==> ScheduleAcceptable(req.scheduledStart, req.scheduledEnd, clock.now)
    ensures r == Err(ScheduleRequired) ==> req.scheduledStart.None? || req.scheduledEnd.None?
    ensures r == Err(StartBeforeNow) ==> req.scheduledStart.Some? && req.scheduledStart.value < clock.now
    ensures r == Err(EndNotAfterStart) ==>
              req.scheduledStart.Some? && req.scheduledEnd.Some? && req.scheduledEnd.value <= req.scheduledStart.value
  {
    if !Filled(req.title) || !NonZero(req.siteId) || !NonZero(req.templateId) then Err(MissingJobFields)
    else if req.scheduledDate.Some? && req.scheduledDate.value < clock.today then Err(ScheduledDateInPast)
    else
      match FindSite(sites, req.siteId.value)
      case None => Err(SiteNotFound)
      case Some(site) =>
        match FindTemplate(templates, req.templateId.value)
        case None => Err(TemplateNotFound)
        case Some(template) =>
          var engineer := ResolveEngineer(users, req.engineerId);
          if engineer.Some? && (req.scheduledStart.None? || req.scheduledEnd.None?) then Err(ScheduleRequired)
          else if engineer.Some? && req.scheduledStart.value < clock.now then Err(StartBeforeNow)
          else if engineer.Some? && req.scheduledEnd.value <= req.scheduledStart.value then Err(EndNotAfterStart)
          else Ok(Plan(site, template, engineer))
  }

  /** `JOB-<yyyymmdd>-<id padded to four digits>`. */
  function Reference(stamp: string, id: nat): string {
    "JOB-" + stamp + "-" + PadStart(Decimal(id), 4, '0')
  }

  /** A reference is `JOB-`, the stamp and `-`, followed by at least four digits that read back as the job id. */
  lemma ReferenceRoundTrip(stamp: string, id: nat)
    ensures var r := Reference(stamp, id);
      && |r| >= 9 + |stamp|
      && r[..4] == "JOB-" && r[4..4 + |stamp|] == stamp && r[4 + |stamp|] == '-'
      && AllDigits(r[5 + |stamp|..]) && DigitsValue(r[5 + |stamp|..]) == id
  {
    var p := PadStart(Decimal(id), 4, '0');
    PadStartShape(Decimal(id), 4, '0');
    assert Reference(stamp, id)[5 + |stamp|..] == p;
    PaddedDecimalValue(id, 4);
  }

  /** Two jobs with different ids never share a reference, whatever day each was created on. */
  lemma ReferencesDistinct(stamp1: string, id1: nat, stamp2: string, id2: nat)
    requires |stamp1| == 8 && |stamp2| == 8 && id1 != id2
    ensures Reference(stamp1, id1) != Reference(stamp2, id2)
  {
    ReferenceRoundTrip(stamp1, id1);
    ReferenceRoundTrip(stamp2, id2);
  }

  function NewCapture(id: int, jobId: int, area: TemplateArea, ts: Instant): Capture {
    Capture(id, jobId, area.id, area.name, area.orderIndex, area.photoGuidance,
            None, None, None, None, None, None, None, ts, ts)
  }

  /**
   * The captures a new job starts with: one per template area, in area
   * order, numbered from `firstId`, copying the area's name, order and
   * guidance, with no image on either side.
   */
  function SnapshotCaptures(areas: seq<TemplateArea>, firstId: int, jobId: int, ts: Instant): (cs: seq<Capture>)
    ensures |cs| == |areas|
    ensures forall i :: 0 <= i < |cs| ==>
              && cs[i].id == firstId + i && cs[i].jobId == jobId
              && cs[i].areaId == areas[i].id && cs[i].areaName == areas[i].name
              && cs[i].orderIndex == areas[i].orderIndex && cs[i].photoGuidance == areas[i].photoGuidance
              && NoImages(cs[i]) && cs[i].notes.None? && cs[i].createdAt == ts && cs[i].updatedAt == ts
    ensures forall c :: c in cs ==> NoImages(c) && c.jobId == jobId
  {
    if areas == [] then []
    else
      var n := |areas| - 1;
      SnapshotCaptures(areas[..n], firstId, jobId, ts) + [NewCapture(firstId + n, jobId, areas[n], ts)]
  }

  function EngineerRefOf(u: Option<User>): (r: Option<EngineerRef>)
    ensures r.Some? <==> u.Some?
  {
    if u.Some? then Some(EngineerRef(u.value.id, u.value.fullName)) else None
  }

  /** The job record `POST /jobs` stores for a request that passed its checks, with its captures. */
  function NewJob(plan: Plan, req: JobRequest, id: nat, captures: seq<Capture>, clock: Clock): (j: Job)
    requires Filled(req.title)
    ensures j.id == id && j.reference == Reference(clock.stamp, id) && j.title == req.title.value
    ensures j.status == Assigned <==> plan.engineer.Some?
    ensures j.status == Draft <==> plan.engineer.None?
    ensures j.engineer.Some? <==> plan.engineer.Some?
    ensures j.engineer.Some? ==> j.engineer.value.id == plan.engineer.value.id
    ensures j.site == plan.site && j.captures == captures
    ensures j.scheduledDate == req.scheduledDate && j.scheduledStart == req.scheduledStart
    ensures j.scheduledEnd == req.scheduledEnd && j.createdAt == clock.now && j.updatedAt == clock.now
    ensures j.startedAt.None? && j.submittedAt.None? && j.reviewedAt.None? && j.reviewNotes.None?
  {
    Job(id, Reference(clock.stamp, id), req.title.value, req.description,
        if plan.engineer.Some? then Assigned else Draft,
        req.scheduledDate, req.scheduledStart, req.scheduledEnd,
        None, None, None, None, clock.now, clock.now,
        plan.site, EngineerRefOf(plan.engineer), captures)
  }

  // ----- GET /jobs/:id/captures -----

  /** How many captures have a post image. */
  function PostCount(cs: seq<Capture>): (n: nat)
    ensures n <= |cs|
    ensures n == 0 <==> forall c :: c in cs ==> c.postUrl.None?
    ensures n == |cs| <==> forall c :: c in cs ==> c.postUrl.Some?
  {
    if cs == [] then 0 else (if cs[0].postUrl.Some? then 1 else 0) + PostCount(cs[1..])
  }

  /** `Math.round(n / d)` for non-negative n: the nearest integer, halves rounded up. */
  function RoundDiv(n: nat, d: nat): (q: nat)
    requires d > 0
    ensures 2 * d * q <= 2 * n + d < 2 * d * (q + 1)
  {
    (2 * n + d) / (2 * d)
  }

  /**
   * The completion percentage: 0 for a job without captures, otherwise the
   * share of captures with a post image, as a rounded percentage.
   */
  function CompletionPercentage(cs: seq<Capture>): (p: nat)
    ensures p <= 100
    ensures cs == [] ==> p == 0
    ensures cs != [] ==> 2 * |cs| * p <= 200 * PostCount(cs) + |cs| < 2 * |cs| * (p + 1)
    ensures PostCount(cs) == 0 ==> p == 0
    ensures cs != [] && PostCount(cs) == |cs| ==> p == 100
  {
    if |cs| > 0 then
      var p := RoundDiv(100 * PostCount(cs), |cs|);
      PercentBound(PostCount(cs), |cs|, p);
      p
    else 0
  }

  lemma PercentBound(done: nat, total: nat, p: nat)
    requires 0 < total && done <= total
    requires 2 * total * p <= 200 * done + total < 2 * total * (p + 1)
    ensures p <= 100
    ensures done == 0 ==> p == 0
    ensures done == total ==> p == 100
  {
    if p > 100 {
      MulMono(2 * total, 101, p);
    }
    if done == 0 && p > 0 {
      MulMono(2 * total, 1, p);
    }
    if done == total && p < 100 {
      MulMono(2 * total, p + 1, 100);
    }
  }

  lemma MulMono(a: nat, b: nat, c: nat)
    requires b <= c
    ensures a * b <= a * c
  {
  }

  /**
   * `Math.round` rounds half up, unlike integer division: the quotient goes
   * up by one exactly when the remainder is at least half the divisor.
   */
  lemma RoundHalfUp(n: nat, d: nat)
    requires d > 0
    ensures RoundDiv(n, d) == n / d + (if 2 * (n % d) >= d then 1 else 0)
  {
    var q, m := n / d, n % d;
    assert n == d * q + m && m < d;
    var e := q + (if 2 * m >= d then 1 else 0);
    RoundBounds(d, q, m, e);
    RoundUnique(n, d, RoundDiv(n, d), e);
  }

  /** The bound `RoundDiv` meets, for the quotient `q` and remainder `m` of `n` by `d`. */
  lemma RoundBounds(d: nat, q: nat, m: nat, e: nat)
    requires 0 < d && m < d && e == q + (if 2 * m >= d then 1 else 0)
    ensures 2 * d * e <= 2 * (d * q + m) + d < 2 * d * (e + 1)
  {
    var dq := d * q;
    assert 2 * d * q == 2 * dq;
    assert 2 * d * (q + 1) == 2 * dq + 2 * d;
    assert 2 * d * (q + 2) == 2 * dq + 4 * d;
  }

  /** The two-sided bound of `RoundDiv` has one solution. */
  lemma RoundUnique(n: nat, d: nat, p: nat, e: nat)
    requires d > 0
    requires 2 * d * p <= 2 * n + d < 2 * d * (p + 1)
    requires 2 * d * e <= 2 * n + d < 2 * d * (e + 1)
    ensures p == e
  {
    if p < e {
      MulMono(2 * d, p + 1, e);
    } else if e < p {
      MulMono(2 * d, e + 1, p);
    }
  }

  // ----- PUT /jobs/:id -----

  /** The body of `PUT /jobs/:id`. */
  datatype JobPatch = JobPatch(
    title: Field<string>,
    description: Field<string>,
    status: Option<Status>,
    scheduledDate: Field<Day>,
    scheduledStart: Field<Instant>,
    scheduledEnd: Field<Instant>,
    engineerId: Field<int>)

  /** The job after an update, and the error the update threw, if any. */
  datatype Patched = Patched(job: Job, error: Option<ApiError>)

  /** The fields of a job that `PUT /jobs/:id` never writes. */
  predicate SameRecord(a: Job, b: Job) {
    && a.id == b.id && a.reference == b.reference && a.site == b.site && a.captures == b.captures
    && a.createdAt == b.createdAt && a.startedAt == b.startedAt && a.reviewedAt == b.reviewedAt
    && a.reviewNotes == b.reviewNotes
  }

  /** The fields the first writes of `PUT /jobs/:id` touch. */
  predicate SameHead(a: Job, b: Job) {
    a.title == b.title && a.description == b.description && a.status == b.status && a.submittedAt == b.submittedAt
  }

  predicate SameSchedule(a: Job, b: Job) {
    a.scheduledDate == b.scheduledDate && a.scheduledStart == b.scheduledStart && a.scheduledEnd == b.scheduledEnd
  }

  /** The first writes of `PUT /jobs/:id`: title, description, and status with its submission stamp. */
  function PatchHead(job: Job, p: JobPatch, now: Instant): (j: Job)
    ensures j.title == TrimmedOr(job.title, p.title)
    ensures j.description == Nullable(p.description, job.description)
    ensures j.status == (if p.status.Some? then p.status.value else job.status)
    ensures j.submittedAt == (if p.status == Some(Submitted) then Some(now) else job.submittedAt)
    ensures SameRecord(j, job) && SameSchedule(j, job) && j.engineer == job.engineer && j.updatedAt == job.updatedAt
  {
    var j1 := if p.title.Absent? then job else job.(title := TrimmedOr(job.title, p.title));
    var j2 := if p.description.Absent? then j1 else j1.(description := Nullable(p.description, j1.description));
    if p.status.None? then j2
    else
      var j3 := j2.(status := p.status.value);
      if p.status.value == Submitted then j3.(submittedAt := Some(now)) else j3
  }

  /**
   * The engineer step of `PUT /jobs/:id`: the engineer is written first, and
   * only then is a resolved engineer checked against the job's schedule.
   */
  function PatchEngineer(job: Job, p: JobPatch, users: seq<User>, now: Instant): (r: Patched)
    ensures SameRecord(r.job, job) && SameHead(r.job, job) && SameSchedule(r.job, job)
    ensures r.job.updatedAt == if r.error.None? then now else job.updatedAt
    ensures p.engineerId.Absent? ==> r.job.engineer == job.engineer && r.error.None?
    ensures p.engineerId.Null? ==> r.job.engineer.None? && r.error.None?
    ensures r.error.None? && p.engineerId.Given? && r.job.engineer.Some? ==>
              r.job.scheduledStart.Some? && r.job.scheduledEnd.Some?
              && r.job.scheduledStart.value < r.job.scheduledEnd.value
    ensures r.error.Some? ==> r.error == Some(ScheduleRequired) || r.error == Some(EndNotAfterStart)
  {
    if p.engineerId.Absent? then Patched(job.(updatedAt := now), None)
    else
      var engineer := if p.engineerId.Null? then None else ResolveEngineer(users, Some(p.engineerId.value));
      var j := job.(engineer := EngineerRefOf(engineer));
      if engineer.Some? && (j.scheduledStart.None? || j.scheduledEnd.None?) then Patched(j, Some(ScheduleRequired))
      else if engineer.Some? && j.scheduledEnd.value <= j.scheduledStart.value then Patched(j, Some(EndNotAfterStart))
      else Patched(j.(updatedAt := now), None)
  }

  /** The scheduled-date write of `PUT /jobs/:id`, made once the date has passed its check. */
  function PatchDate(j: Job, p: JobPatch): (s: Job)
    ensures SameRecord(s, j) && SameHead(s, j) && s.engineer == j.engineer && s.updatedAt == j.updatedAt
    ensures s.scheduledDate == Nullable(p.scheduledDate, j.scheduledDate)
    ensures s.scheduledStart == j.scheduledStart && s.scheduledEnd == j.scheduledEnd
  {
    if p.scheduledDate.Absent? then j else j.(scheduledDate := Nullable(p.scheduledDate, j.scheduledDate))
  }

  /** The start and end writes of `PUT /jobs/:id`, made once the start has passed its check. */
  function PatchTimes(j: Job, p: JobPatch): (s: Job)
    ensures SameRecord(s, j) && SameHead(s, j) && s.engineer == j.engineer && s.updatedAt == j.updatedAt
    ensures s.scheduledDate == j.scheduledDate
    ensures s.scheduledStart == Nullable(p.scheduledStart, j.scheduledStart)
    ensures s.scheduledEnd == Nullable(p.scheduledEnd, j.scheduledEnd)
  {
    var j5 := if p.scheduledStart.Absent? then j else j.(scheduledStart := Nullable(p.scheduledStart, j.scheduledStart));
    if p.scheduledEnd.Absent? then j5 else j5.(scheduledEnd := Nullable(p.scheduledEnd, j5.scheduledEnd))
  }

  /**
   * `PUT /jobs/:id` on one job. Fields are written one after another and a
   * check that fails later leaves the earlier writes in place: the update is
   * not atomic. The status is written without any transition guard.
   */
  function PatchJob(job: Job, p: JobPatch, users: seq<User>, clock: Clock): (r: Patched)
    ensures SameRecord(r.job, job)
  {
    var j3 := PatchHead(job, p, clock.now);
    if p.scheduledDate.Given? && p.scheduledDate.value < clock.today then Patched(j3, Some(ScheduledDateInPast))
    else
      var j4 := PatchDate(j3, p);
      if p.scheduledStart.Given? && p.scheduledStart.value < clock.now then Patched(j4, Some(StartBeforeNow))
      else PatchEngineer(PatchTimes(j4, p), p, users, clock.now)
  }

  /** The head writes of an update take effect whatever happens later; the update time only on success. */
  lemma PatchJobWrites(job: Job, p: JobPatch, users: seq<User>, clock: Clock)
    ensures var r := PatchJob(job, p, users, clock);
      && r.job.status == (if p.status.Some? then p.status.value else job.status)
      && r.job.submittedAt == (if p.status == Some(Submitted) then Some(clock.now) else job.submittedAt)
      && r.job.title == TrimmedOr(job.title, p.title)
      && r.job.description == Nullable(p.description, job.description)
      && (r.error.None? ==> r.job.updatedAt == clock.now)
      && (r.error.Some? ==> r.job.updatedAt == job.updatedAt)
  {
  }

  /**
   * The checks of an update: each error names a check that failed, and a
   * successful update passed every check, so an engineer it assigned has a
   * well-ordered schedule.
   */
  lemma PatchJobChecks(job: Job, p: JobPatch, users: seq<User>, clock: Clock)
    ensures var r := PatchJob(job, p, users, clock);
      && (r.error == Some(ScheduledDateInPast) ==> p.scheduledDate.Given? && p.scheduledDate.value < clock.today)
      && (r.error == Some(StartBeforeNow) ==> p.scheduledStart.Given? && p.scheduledStart.value < clock.now)
      && (r.error.None? ==> ((p.scheduledDate.Given? ==> clock.today <= p.scheduledDate.value)
                             && (p.scheduledStart.Given? ==> clock.now <= p.scheduledStart.value)))
      && (r.error.None? && p.engineerId.Given? && r.job.engineer.Some? ==>
            r.job.scheduledStart.Some? && r.job.scheduledEnd.Some?
            && r.job.scheduledStart.value < r.job.scheduledEnd.value)
      && (p.engineerId.Null? && r.error != Some(ScheduledDateInPast) && r.error != Some(StartBeforeNow) ==>
            r.job.engineer.None?)
  {
  }

  /**
   * A failing update is not all-or-nothing: a new status sent together with
   * a scheduled date in the past is stored although the request throws.
   */
  lemma PatchNotAtomic(job: Job, users: seq<User>, clock: Clock)
    requires job.status == Draft
    ensures var p := JobPatch(Absent, Absent, Some(Approved), Given(clock.today - 1), Absent, Absent, Absent);
            var r := PatchJob(job, p, users, clock);
            r.error == Some(ScheduledDateInPast) && r.job.status == Approved && r.job != job
  {
  }

  // ----- POST /jobs/:id/captures/:area_id/(pre|post) -----

  datatype Side = Pre | Post

  /** The request body: not multipart, or multipart with or without an image part. */
  datatype UploadBody = NotMultipart | Multipart(image: Option<ImageUrl>)

  /** The job after an upload, the capture counter, and what the route returned. */
  datatype Uploaded = Uploaded(job: Job, nextCaptureId: nat, result: Result<Capture, ApiError>)

  /** Index of the first capture of the given template area. */
  function FindCapture(cs: seq<Capture>, areaId: int): (r: Option<nat>)
    ensures r.Some? ==> r.value < |cs| && cs[r.value].areaId == areaId
    ensures r.None? ==> forall k :: 0 <= k < |cs| ==> cs[k].areaId != areaId
  {
    IndexOf(cs, (x: Capture) => x.areaId, areaId)
  }

  /** The capture an upload to an unknown area creates. */
  function FreshCapture(id: nat, jobId: int, areaId: nat, orderIndex: int, ts: Instant): Capture {
    Capture(id, jobId, areaId, "Area " + Decimal(areaId), orderIndex, None,
            None, None, None, None, None, None, None, ts, ts)
  }

  /** Records the image on the chosen side: url, thumbnail and capture time. */
  function RecordImage(c: Capture, side: Side, url: ImageUrl, ts: Instant): Capture {
    match side
    case Pre => c.(preUrl := Some(url), preThumbnail := Some(url), preCapturedAt := Some(ts), updatedAt := ts)
    case Post => c.(postUrl := Some(url), postThumbnail := Some(url), postCapturedAt := Some(ts), updatedAt := ts)
  }

  /** An engineer may upload only to a job assigned to them; other roles to any job. */
  predicate MayUpload(actor: Actor, job: Job) {
    actor.role != Engineer || (job.engineer.Some? && job.engineer.value.id == actor.id)
  }

  /**
   * The upload route on one job. An unknown area first gets a capture
   * appended (kept even when a later check throws); a post image needs a
   * pre image; the image is stored only from a multipart body with an image.
   */
  function Upload(job: Job, actor: Actor, areaId: nat, side: Side, body: UploadBody, nextCaptureId: nat, now: Instant)
    : (r: Uploaded)
    ensures !MayUpload(actor, job) ==> r == Uploaded(job, nextCaptureId, Err(Forbidden))
    ensures MayUpload(actor, job) && FindCapture(job.captures, areaId).None? ==>
              && |r.job.captures| == |job.captures| + 1
              && r.job.captures[|job.captures|].orderIndex == |job.captures| + 1
              && r.job.captures[|job.captures|].areaId == areaId
              && r.job.captures[|job.captures|].id == nextCaptureId
              && r.nextCaptureId == nextCaptureId + 1
    ensures FindCapture(job.captures, areaId).Some? ==> r.nextCaptureId == nextCaptureId && |r.job.captures| == |job.captures|
    ensures r.result.Err? ==> forall k :: 0 <= k < |job.captures| ==> r.job.captures[k] == job.captures[k]
    ensures r.result.Err? ==> r.job.updatedAt == job.updatedAt
    ensures r.result.Ok? ==> r.job.updatedAt == now && r.result.value.updatedAt == now
    ensures r.job.id == job.id && r.job.status == job.status && r.job.engineer == job.engineer
  {
    if !MayUpload(actor, job) then Uploaded(job, nextCaptureId, Err(Forbidden))
    else
      var found := FindCapture(job.captures, areaId);
      var j1 := if found.Some? then job
                else job.(captures := job.captures + [FreshCapture(nextCaptureId, job.id, areaId, |job.captures| + 1, now)]);
      var next := if found.Some? then nextCaptureId else nextCaptureId + 1;
      var idx := if found.Some? then found.value else |job.captures|;
      var c := j1.captures[idx];
      if side == Post && c.preUrl.None? then Uploaded(j1, next, Err(PreImageRequired))
      else if body.NotMultipart? then Uploaded(j1, next, Err(MultipartRequired))
      else if body.image.None? then Uploaded(j1, next, Err(ImageRequired))
      else
        var c' := RecordImage(c, side, body.image.value, now);
        Uploaded(j1.(captures := j1.captures[idx := c'], updatedAt := now), next, Ok(c'))
  }

  /** A post upload to an area without a pre image throws and records no image anywhere. */
  lemma PostNeedsPre(job: Job, actor: Actor, areaId: nat, body: UploadBody, next: nat, now: Instant)
    requires MayUpload(actor, job)
    requires FindCapture(job.captures, areaId).None? || job.captures[FindCapture(job.captures, areaId).value].preUrl.None?
    ensures Upload(job, actor, areaId, Post, body, next, now).result == Err(PreImageRequired)
    ensures forall k :: 0 <= k < |job.captures| ==>
              Upload(job, actor, areaId, Post, body, next, now).job.captures[k] == job.captures[k]
    ensures forall k :: |job.captures| <= k < |Upload(job, actor, areaId, Post, body, next, now).job.captures| ==>
              NoImages(Upload(job, actor, areaId, Post, body, next, now).job.captures[k])
  {
  }

  /**
   * A successful upload sets url, thumbnail and capture time of the chosen
   * side of the area's capture, leaves its other side and every other
   * capture as they were.
   */
  lemma UploadTouchesOneSide(job: Job, actor: Actor, areaId: nat, side: Side, body: UploadBody, next: nat, now: Instant)
    requires Upload(job, actor, areaId, side, body, next, now).result.Ok?
    ensures var r := Upload(job, actor, areaId, side, body, next, now);
            var c := r.result.value;
            var url := body.image.value;
            exists idx :: 0 <= idx < |r.job.captures| && r.job.captures[idx] == c && c.areaId == areaId
              && (side == Pre ==> c.preUrl == Some(url) && c.preThumbnail == Some(url) && c.preCapturedAt == Some(now))
              && (side == Post ==> c.postUrl == Some(url) && c.postThumbnail == Some(url) && c.postCapturedAt == Some(now))
              && (forall k :: 0 <= k < |r.job.captures| && k != idx ==>
                    k < |job.captures| && r.job.captures[k] == job.captures[k])
              && (idx < |job.captures| ==>
                    var before := job.captures[idx];
                    && (side == Pre ==> (c.postUrl == before.postUrl && c.postThumbnail == before.postThumbnail
                                         && c.postCapturedAt == before.postCapturedAt))
                    && (side == Post ==> (c.preUrl == before.preUrl && c.preThumbnail == before.preThumbnail
                                          && c.preCapturedAt == before.preCapturedAt)))
  {
    var found := FindCapture(job.captures, areaId);
    var idx := if found.Some? then found.value else |job.captures|;
    var r := Upload(job, actor, areaId, side, body, next, now);
    assert r.job.captures[idx] == r.result.value;
  }

  /** No upload ever leaves a post image on a capture without a pre image. */
  lemma UploadKeepsPreBeforePost(job: Job, actor: Actor, areaId: nat, side: Side, body: UploadBody, next: nat, now: Instant)
    requires forall c :: c in job.captures ==> PreBeforePost(c)
    ensures forall c :: c in Upload(job, actor, areaId, side, body, next, now).job.captures ==> PreBeforePost(c)
  {
    var r := Upload(job, actor, areaId, side, body, next, now);
    forall c | c in r.job.captures ensures PreBeforePost(c) {
      var k :| 0 <= k < |r.job.captures| && r.job.captures[k] == c;
      if k < |job.captures| && r.job.captures[k] == job.captures[k] {
        assert job.captures[k] in job.captures;
      }
    }
  }
}
