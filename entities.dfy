/**
 * The records kept by the in-memory job-management store: users, sites,
 * templates with their areas, jobs with their work captures, and the
 * summaries the list routes return.
 *
 * Instants (`created_at`, `scheduled_start_time`, ...) are milliseconds since
 * the epoch; `scheduled_date` is a day number, compared by calendar date
 * only. An uploaded image is an opaque token standing for its object URL.
 */
module Entities {
  import opened Wrappers

  type Instant = int
  type Day = int
  type ImageUrl = nat

  datatype Role = SuperAdmin | TradeManager | Engineer

  function RoleName(r: Role): string {
    match r
    case SuperAdmin => "super_admin"
    case TradeManager => "trade_manager"
    case Engineer => "engineer"
  }

  datatype Status = Draft | Assigned | InProgress | Submitted | Approved | Rejected

  function StatusName(s: Status): string {
    match s
    case Draft => "draft"
    case Assigned => "assigned"
    case InProgress => "in_progress"
    case Submitted => "submitted"
    case Approved => "approved"
    case Rejected => "rejected"
  }

  /** The time sources of a request: `Date.now()`, today's UTC date and its `yyyymmdd` digits. */
  datatype Clock = Clock(now: Instant, today: Day, stamp: string)

  /** The authenticated caller of a route (the user its bearer token resolves to). */
  datatype Actor = Actor(id: int, role: Role)

  datatype User = User(
    id: int,
    email: string,
    fullName: string,
    role: Role,
    isActive: bool,
    phoneNumber: Option<string>,
    address: Option<string>,
    createdBy: Option<int>,
    createdAt: Instant,
    updatedAt: Instant)

  datatype Site = Site(
    id: int,
    clientName: string,
    siteName: Option<string>,
    addressLine1: string,
    addressLine2: Option<string>,
    city: string,
    postcode: string,
    contactName: Option<string>,
    contactPhone: Option<string>,
    contactEmail: Option<string>,
    notes: Option<string>,
    createdAt: Instant,
    updatedAt: Instant)

  /** A template area (its `description` is always null in the store and is not kept). */
  datatype TemplateArea = TemplateArea(
    id: int,
    templateId: int,
    name: string,
    orderIndex: int,
    photoGuidance: Option<string>,
    createdAt: Instant)

  datatype Template = Template(
    id: int,
    name: string,
    description: Option<string>,
    areaCount: nat,
    isActive: bool,
    createdAt: Instant,
    areas: seq<TemplateArea>)

  /** The `{ id, full_name }` copy of the assigned engineer kept on a job. */
  datatype EngineerRef = EngineerRef(id: int, fullName: string)

  /** A work capture with the template-area fields copied onto it. */
  datatype Capture = Capture(
    id: int,
    jobId: int,
    areaId: int,
    areaName: string,
    orderIndex: int,
    photoGuidance: Option<string>,
    preUrl: Option<ImageUrl>,
    preThumbnail: Option<ImageUrl>,
    preCapturedAt: Option<Instant>,
    postUrl: Option<ImageUrl>,
    postThumbnail: Option<ImageUrl>,
    postCapturedAt: Option<Instant>,
    notes: Option<string>,
    createdAt: Instant,
    updatedAt: Instant)

  /** No image has been recorded on either side of the capture. */
  predicate NoImages(c: Capture) {
    && c.preUrl.None? && c.preThumbnail.None? && c.preCapturedAt.None?
    && c.postUrl.None? && c.postThumbnail.None? && c.postCapturedAt.None?
  }

  /** A post image is never present without a pre image. */
  predicate PreBeforePost(c: Capture) {
    c.postUrl.Some? ==> c.preUrl.Some?
  }

  /** A job detail: the job with its site, engineer and captures embedded. */
  datatype Job = Job(
    id: int,
    reference: string,
    title: string,
    description: Option<string>,
    status: Status,
    scheduledDate: Option<Day>,
    scheduledStart: Option<Instant>,
    scheduledEnd: Option<Instant>,
    startedAt: Option<Instant>,
    submittedAt: Option<Instant>,
    reviewedAt: Option<Instant>,
    reviewNotes: Option<string>,
    createdAt: Instant,
    updatedAt: Instant,
    site: Site,
    engineer: Option<EngineerRef>,
    captures: seq<Capture>)

  /** The site fields a job row shows. */
  datatype SiteSummary = SiteSummary(
    clientName: string,
    siteName: Option<string>,
    addressLine1: string,
    addressLine2: Option<string>,
    city: string,
    postcode: string)

  /** A row of the job list. */
  datatype JobRow = JobRow(
    id: int,
    reference: string,
    title: string,
    status: Status,
    site: SiteSummary,
    engineer: Option<EngineerRef>,
    scheduledDate: Option<Day>,
    scheduledStart: Option<Instant>,
    scheduledEnd: Option<Instant>,
    submittedAt: Option<Instant>,
    reviewNotes: Option<string>,
    createdAt: Instant)

  /** A row of the user list. */
  datatype UserRow = UserRow(
    id: int,
    email: string,
    fullName: string,
    role: Role,
    isActive: bool,
    phoneNumber: Option<string>,
    address: Option<string>,
    createdAt: Instant)

  /** The errors the routes throw, one per message of the store. */
  datatype ApiError =
    | MissingJobFields          // "title, site_id and template_id are required"
    | ScheduledDateInPast       // "scheduled_date cannot be in the past"
    | SiteNotFound
    | TemplateNotFound
    | JobNotFound
    | UserNotFound
    | ScheduleRequired          // "... required when engineer is assigned"
    | StartBeforeNow            // "scheduled_start_time cannot be before current time"
    | EndNotAfterStart          // "scheduled_end_time must be after scheduled_start_time"
    | Forbidden                 // 403 on another engineer's job
    | PreImageRequired          // "Pre image must be uploaded before post image"
    | ImageRequired             // "image file is required"
    | MultipartRequired         // "multipart/form-data required"
    | MissingCredentials        // "Email and password required"
    | SetupAlreadyCompleted
    | MissingSetupFields
    | MissingSiteFields
    | MissingTemplateFields     // "name and areas array required"
    | MissingUserFields
    | OnlyEngineersAllowed      // 403 "Trade managers can only create engineers"

  /** Index of the first record whose key is `id` (`find` / `findIndex`), or None. */
  function IndexOf<T, K(==)>(s: seq<T>, key: T -> K, id: K): (r: Option<nat>)
    ensures r.Some? ==> r.value < |s| && key(s[r.value]) == id
    ensures r.Some? ==> forall k :: 0 <= k < r.value ==> key(s[k]) != id
    ensures r.None? ==> forall k :: 0 <= k < |s| ==> key(s[k]) != id
  {
    if s == [] then None
    else if key(s[0]) == id then Some(0)
    else match IndexOf(s[1..], key, id)
      case None => None
      case Some(k) => Some(k + 1)
  }
}
