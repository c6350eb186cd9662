/**
 * The pure rules of the directory routes of the in-memory store: users
 * (login, setup, list filter, creation, partial update and the cascade onto
 * jobs), sites (creation, partial update, the cascade of a deletion) and
 * templates (the area lists of creation and update).
 */
module DirectoryRules {
  import opened Wrappers
  import opened Text
  import opened Entities

  // ----- POST /auth/login, POST /auth/setup -----

  /** The first user with the given email. */
  function FindUserByEmail(users: seq<User>, email: string): (r: Option<User>)
    ensures r.Some? ==> r.value in users && r.value.email == email
    ensures r.None? ==> forall u :: u in users ==> u.email != email
    ensures r.Some? ==>
              exists k :: (0 <= k < |users| && users[k] == r.value &&
                           forall j :: 0 <= j < k ==> users[j].email != email)
  {
    match IndexOf(users, (x: User) => x.email, email)
    case None => None
    case Some(k) => Some(users[k])
  }

  /** Index of the user with the given id. */
  function FindUser(users: seq<User>, id: int): (r: Option<nat>)
    ensures r.Some? ==> r.value < |users| && users[r.value].id == id
    ensures r.None? ==> forall k :: 0 <= k < |users| ==> users[k].id != id
  {
    IndexOf(users, (x: User) => x.id, id)
  }

  /**
   * The full name a first login gives a new user: the local part of the
   * email with its dots turned into spaces, or "User" when that is empty.
   */
  function DisplayNameFromEmail(email: string): (name: string)
    ensures name != [] && '@' !in name && '.' !in name
    ensures name == "User" || |name| < |email| || '@' !in email
  {
    var local := Before(email, '@');
    BeforeShape(email, '@');
    ReplaceAllChars(local, '.', ' ');
    if local == [] then "User" else ReplaceAll(local, '.', ' ')
  }

  lemma {:induction false} BeforeLocalPart(local: string, domain: string)
    requires '@' !in local
    ensures Before(local + "@" + domain, '@') == local
  {
    if local != [] {
      assert (local + "@" + domain)[1..] == local[1..] + "@" + domain;
      BeforeLocalPart(local[1..], domain);
    }
  }

  /** For `local@domain` the display name is the local part with dots as spaces. */
  lemma DisplayNameOfAddress(local: string, domain: string)
    requires '@' !in local
    ensures DisplayNameFromEmail(local + "@" + domain) ==
              if local == [] then "User" else ReplaceAll(local, '.', ' ')
  {
    BeforeLocalPart(local, domain);
  }

  /** The user a first login with an unknown email creates: an active trade manager. */
  function LoginUser(id: int, email: string, now: Instant): (u: User)
    ensures u.id == id && u.email == email && u.role == TradeManager && u.isActive
    ensures u.fullName == DisplayNameFromEmail(email) && u.createdBy.None?
  {
    User(id, email, DisplayNameFromEmail(email), TradeManager, true, None, None, None, now, now)
  }

  /** The body of `POST /auth/setup`. */
  datatype SetupRequest = SetupRequest(email: Option<string>, password: Option<string>, fullName: Option<string>)

  /**
   * `POST /auth/setup`: refused once any user exists, then all three fields
   * are required; the first user is an active super admin.
   */
  function CheckSetup(userCount: nat, req: SetupRequest, id: int, now: Instant): (r: Result<User, ApiError>)
    ensures userCount > 0 ==> r == Err(SetupAlreadyCompleted)
    ensures userCount == 0 && !(Filled(req.email) && Filled(req.password) && Filled(req.fullName)) ==>
              r == Err(MissingSetupFields)
    ensures r.Ok? <==> userCount == 0 && Filled(req.email) && Filled(req.password) && Filled(req.fullName)
    ensures r.Ok? ==> && r.value.id == id && r.value.role == SuperAdmin && r.value.isActive
                      && r.value.email == req.email.value && r.value.fullName == req.fullName.value
  {
    if userCount > 0 then Err(SetupAlreadyCompleted)
    else if !(Filled(req.email) && Filled(req.password) && Filled(req.fullName)) then Err(MissingSetupFields)
    else Ok(User(id, req.email.value, req.fullName.value, SuperAdmin, true, None, None, None, now, now))
  }

  // ----- GET /users -----

  function UserRowOf(u: User): UserRow {
    UserRow(u.id, u.email, u.fullName, u.role, u.isActive, u.phoneNumber, u.address, u.createdAt)
  }

  /**
   * The user-list filter: a trade manager sees only engineers; a non-empty
   * `role` keeps that role; a non-empty `is_active` keeps the users whose
   * flag equals `is_active == "true"`. An absent parameter reads as "".
   */
  predicate UserVisible(u: User, viewer: Role, roleFilter: string, activeParam: string) {
    && (viewer == TradeManager ==> u.role == Engineer)
    && (roleFilter == "" || RoleName(u.role) == roleFilter)
    && (activeParam == "" || u.isActive == (activeParam == "true"))
  }

  /** `GET /users`: the rows of the users, in table order, that pass the filter. */
  function UserList(users: seq<User>, viewer: Role, roleFilter: string, activeParam: string): (rows: seq<UserRow>)
    ensures |rows| <= |users|
    ensures forall r :: r in rows ==> exists u :: u in users && r == UserRowOf(u) && UserVisible(u, viewer, roleFilter, activeParam)
    ensures forall u :: u in users && UserVisible(u, viewer, roleFilter, activeParam) ==> UserRowOf(u) in rows
  {
    if users == [] then []
    else
      var rest := UserList(users[1..], viewer, roleFilter, activeParam);
      if UserVisible(users[0], viewer, roleFilter, activeParam) then [UserRowOf(users[0])] + rest else rest
  }

  /** A trade manager's user list holds engineers only, whatever the filters. */
  lemma TradeManagerSeesOnlyEngineers(users: seq<User>, roleFilter: string, activeParam: string)
    ensures forall r :: r in UserList(users, TradeManager, roleFilter, activeParam) ==> r.role == Engineer
  {
  }

  // ----- POST /users -----

  /** The body of `POST /users`; `role` is `None` when missing, null or empty. */
  datatype UserRequest = UserRequest(
    email: Option<string>,
    password: Option<string>,
    fullName: Option<string>,
    phoneNumber: Option<string>,
    address: Option<string>,
    role: Option<Role>)

  predicate UserRequestComplete(req: UserRequest) {
    && Filled(req.email) && Filled(req.password) && Filled(req.fullName)
    && Filled(req.phoneNumber) && Filled(req.address)
  }

  /** `requestedRole || "engineer"`. */
  function EffectiveRole(requested: Option<Role>): Role {
    if requested.Some? then requested.value else Engineer
  }

  /**
   * The checks of `POST /users`: all five fields are required, and a trade
   * manager may create engineers only. The result is the new user's role.
   */
  function CheckNewUser(creator: Role, req: UserRequest): (r: Result<Role, ApiError>)
    ensures !UserRequestComplete(req) ==> r == Err(MissingUserFields)
    ensures r.Ok? <==> UserRequestComplete(req) && (creator == TradeManager ==> EffectiveRole(req.role) == Engineer)
    ensures r.Err? && UserRequestComplete(req) ==> r == Err(OnlyEngineersAllowed)
    ensures r.Ok? ==> r.value == EffectiveRole(req.role)
    ensures r.Ok? && (creator == TradeManager || req.role.None?) ==> r.value == Engineer
  {
    if !UserRequestComplete(req) then Err(MissingUserFields)
    else
      var role := EffectiveRole(req.role);
      if creator == TradeManager && role != Engineer then Err(OnlyEngineersAllowed)
      else Ok(role)
  }

  /** The user `POST /users` stores: active, phone number and address trimmed, created by the caller. */
  function NewUser(id: int, req: UserRequest, role: Role, creator: int, now: Instant): (u: User)
    requires UserRequestComplete(req)
    ensures u.id == id && u.email == req.email.value && u.fullName == req.fullName.value && u.role == role
    ensures u.isActive && u.createdBy == Some(creator) && u.createdAt == now && u.updatedAt == now
    ensures u.phoneNumber == Some(Trim(req.phoneNumber.value)) && u.address == Some(Trim(req.address.value))
  {
    User(id, req.email.value, req.fullName.value, role, true,
         Some(Trim(req.phoneNumber.value)), Some(Trim(req.address.value)), Some(creator), now, now)
  }

  // ----- PUT /users/:id -----

  /** The body of `PUT /users/:id`. */
  datatype UserPatch = UserPatch(
    email: Field<string>,
    fullName: Field<string>,
    isActive: Field<bool>,
    phoneNumber: Field<string>,
    address: Field<string>)

  /** A sent optional contact field: trimmed, and null when blank or null. */
  function TrimmedField(f: Field<string>, current: Option<string>): Option<string> {
    match f
    case Absent => current
    case Null => None
    case Given(s) => TrimmedOrNull(Some(s))
  }

  /**
   * `PUT /users/:id` on one user. Email and name change only to a non-blank
   * trimmed value; role, id and creation data never change.
   */
  function PatchUser(u: User, p: UserPatch, now: Instant): (r: User)
    ensures r.id == u.id && r.role == u.role && r.createdBy == u.createdBy && r.createdAt == u.createdAt
    ensures r.updatedAt == now
    ensures r.email == TrimmedOr(u.email, p.email) && r.fullName == TrimmedOr(u.fullName, p.fullName)
    ensures u.email != "" ==> r.email != ""
    ensures u.fullName != "" ==> r.fullName != ""
    ensures r.isActive == BooleanField(p.isActive, u.isActive)
    ensures p.phoneNumber.Absent? ==> r.phoneNumber == u.phoneNumber
    ensures p.address.Absent? ==> r.address == u.address
    ensures !p.phoneNumber.Absent? && r.phoneNumber.Some? ==> r.phoneNumber.value != "" && IsTrimmed(r.phoneNumber.value)
    ensures !p.address.Absent? && r.address.Some? ==> r.address.value != "" && IsTrimmed(r.address.value)
  {
    u.(email := TrimmedOr(u.email, p.email),
       fullName := TrimmedOr(u.fullName, p.fullName),
       isActive := BooleanField(p.isActive, u.isActive),
       phoneNumber := TrimmedField(p.phoneNumber, u.phoneNumber),
       address := TrimmedField(p.address, u.address),
       updatedAt := now)
  }

  /** The job is assigned to the engineer with the given id. */
  predicate AssignedTo(j: Job, id: int) {
    j.engineer.Some? && j.engineer.value.id == id
  }

  /** The engineer a job of `u` shows after `u` changed: `u` itself if an active engineer, else nobody. */
  function EngineerAfterUpdate(u: User): Option<EngineerRef> {
    if u.isActive && u.role == Engineer then Some(EngineerRef(u.id, u.fullName)) else None
  }

  /** One job under the cascade of `PUT /users/:id`. */
  function RefreshOne(j: Job, u: User): Job {
    if AssignedTo(j, u.id) then j.(engineer := EngineerAfterUpdate(u)) else j
  }

  /**
   * The cascade of `PUT /users/:id`: every job assigned to the user shows
   * the user's current name if the user is an active engineer, and no
   * engineer otherwise. Nothing else changes.
   */
  function RefreshEngineer(jobs: seq<Job>, u: User): (r: seq<Job>)
    ensures |r| == |jobs|
  {
    seq(|jobs|, k requires 0 <= k < |jobs| => RefreshOne(jobs[k], u))
  }

  /**
   * After the cascade, a job still assigned to the user shows the user as an
   * active engineer with the current name, and a job of anybody else is as it was.
   */
  lemma RefreshLeavesCurrentName(jobs: seq<Job>, u: User)
    ensures forall j :: j in RefreshEngineer(jobs, u) && AssignedTo(j, u.id) ==>
              u.isActive && u.role == Engineer && j.engineer.value.fullName == u.fullName
    ensures forall k :: 0 <= k < |jobs| && !AssignedTo(jobs[k], u.id) ==> RefreshEngineer(jobs, u)[k] == jobs[k]
  {
    var r := RefreshEngineer(jobs, u);
    forall j | j in r && AssignedTo(j, u.id)
      ensures u.isActive && u.role == Engineer && j.engineer.value.fullName == u.fullName
    {
      var k :| 0 <= k < |r| && r[k] == j;
      assert AssignedTo(jobs[k], u.id);
    }
  }

  // ----- DELETE /users/:id -----

  /** One job under the cascade of `DELETE /users/:id`. */
  function ClearOne(j: Job, id: int): Job {
    if AssignedTo(j, id) then j.(engineer := None) else j
  }

  /** The cascade of `DELETE /users/:id`: jobs assigned to the user lose their engineer. */
  function ClearEngineer(jobs: seq<Job>, id: int): (r: seq<Job>)
    ensures |r| == |jobs|
  {
    seq(|jobs|, k requires 0 <= k < |jobs| => ClearOne(jobs[k], id))
  }

  /** After the cascade no job is assigned to the user, and every other job is as it was. */
  lemma ClearLeavesNoAssignment(jobs: seq<Job>, id: int)
    ensures forall j :: j in ClearEngineer(jobs, id) ==> !AssignedTo(j, id)
    ensures forall k :: 0 <= k < |jobs| && !AssignedTo(jobs[k], id) ==> ClearEngineer(jobs, id)[k] == jobs[k]
  {
    var r := ClearEngineer(jobs, id);
    forall j | j in r ensures !AssignedTo(j, id) {
      var k :| 0 <= k < |r| && r[k] == j;
    }
  }

  /** The tokens that survive `DELETE /users/:id`: those of every other user. */
  function TokensWithout(tokens: map<string, int>, id: int): (r: map<string, int>)
    ensures forall t :: t in r <==> t in tokens && tokens[t] != id
    ensures forall t :: t in r ==> r[t] == tokens[t]
  {
    map t | t in tokens && tokens[t] != id :: tokens[t]
  }

  // ----- sites -----

  /** The body of `POST /sites`; `None` stands for a missing or null field. */
  datatype SiteRequest = SiteRequest(
    clientName: Option<string>,
    siteName: Option<string>,
    addressLine1: Option<string>,
    addressLine2: Option<string>,
    city: Option<string>,
    postcode: Option<string>,
    contactName: Option<string>,
    contactPhone: Option<string>,
    contactEmail: Option<string>,
    notes: Option<string>)

  predicate SiteRequestComplete(req: SiteRequest) {
    Filled(req.clientName) && Filled(req.addressLine1) && Filled(req.city) && Filled(req.postcode)
  }

  /** The four required fields of a site are non-empty. */
  predicate RequiredFilled(s: Site) {
    s.clientName != "" && s.addressLine1 != "" && s.city != "" && s.postcode != ""
  }

  /** `POST /sites`: the four required fields must be truthy; the others default to null. */
  function CheckNewSite(req: SiteRequest, id: int, now: Instant): (r: Result<Site, ApiError>)
    ensures r.Ok? <==> SiteRequestComplete(req)
    ensures r.Err? ==> r.error == MissingSiteFields
    ensures r.Ok? ==> && r.value.id == id && RequiredFilled(r.value)
                      && r.value.clientName == req.clientName.value && r.value.addressLine1 == req.addressLine1.value
                      && r.value.city == req.city.value && r.value.postcode == req.postcode.value
                      && r.value.siteName == req.siteName && r.value.addressLine2 == req.addressLine2
                      && r.value.contactName == req.contactName && r.value.contactPhone == req.contactPhone
                      && r.value.contactEmail == req.contactEmail && r.value.notes == req.notes
                      && r.value.createdAt == now && r.value.updatedAt == now
  {
    if !SiteRequestComplete(req) then Err(MissingSiteFields)
    else Ok(Site(id, req.clientName.value, req.siteName, req.addressLine1.value, req.addressLine2,
                 req.city.value, req.postcode.value, req.contactName, req.contactPhone, req.contactEmail,
                 req.notes, now, now))
  }

  /** The body of `PUT /sites/:id`. */
  datatype SitePatch = SitePatch(
    clientName: Field<string>,
    siteName: Field<string>,
    addressLine1: Field<string>,
    addressLine2: Field<string>,
    city: Field<string>,
    postcode: Field<string>,
    contactName: Field<string>,
    contactPhone: Field<string>,
    contactEmail: Field<string>,
    notes: Field<string>)

  /**
   * `PUT /sites/:id` on one site: a required field changes only to a
   * non-blank trimmed value, an optional one is cleared by an empty or null
   * value. A site with its required fields filled keeps them filled.
   */
  function PatchSite(s: Site, p: SitePatch, now: Instant): (r: Site)
    ensures r.id == s.id && r.createdAt == s.createdAt && r.updatedAt == now
    ensures RequiredFilled(s) ==> RequiredFilled(r)
    ensures r.clientName == TrimmedOr(s.clientName, p.clientName) && r.addressLine1 == TrimmedOr(s.addressLine1, p.addressLine1)
    ensures r.city == TrimmedOr(s.city, p.city) && r.postcode == TrimmedOr(s.postcode, p.postcode)
    ensures r.siteName == TruthyOrNull(p.siteName, s.siteName) && r.addressLine2 == TruthyOrNull(p.addressLine2, s.addressLine2)
    ensures r.contactName == TruthyOrNull(p.contactName, s.contactName) && r.contactPhone == TruthyOrNull(p.contactPhone, s.contactPhone)
    ensures r.contactEmail == TruthyOrNull(p.contactEmail, s.contactEmail) && r.notes == TruthyOrNull(p.notes, s.notes)
  {
    s.(clientName := TrimmedOr(s.clientName, p.clientName),
       siteName := TruthyOrNull(p.siteName, s.siteName),
       addressLine1 := TrimmedOr(s.addressLine1, p.addressLine1),
       addressLine2 := TruthyOrNull(p.addressLine2, s.addressLine2),
       city := TrimmedOr(s.city, p.city),
       postcode := TrimmedOr(s.postcode, p.postcode),
       contactName := TruthyOrNull(p.contactName, s.contactName),
       contactPhone := TruthyOrNull(p.contactPhone, s.contactPhone),
       contactEmail := TruthyOrNull(p.contactEmail, s.contactEmail),
       notes := TruthyOrNull(p.notes, s.notes),
       updatedAt := now)
  }

  /** Index of the site with the given id (`findIndex`). */
  function FindSiteIndex(sites: seq<Site>, id: int): (r: Option<nat>)
    ensures r.Some? ==> r.value < |sites| && sites[r.value].id == id
    ensures r.None? ==> forall k :: 0 <= k < |sites| ==> sites[k].id != id
  {
    IndexOf(sites, (x: Site) => x.id, id)
  }

  /** The cascade of `DELETE /sites/:id`: the jobs at every other site, in table order. */
  function JobsWithoutSite(jobs: seq<Job>, siteId: int): seq<Job> {
    if jobs == [] then []
    else
      var last := jobs[|jobs| - 1];
      JobsWithoutSite(jobs[..|jobs| - 1], siteId) + (if last.site.id != siteId then [last] else [])
  }

  /** Deleting a site keeps exactly the jobs at the other sites. */
  lemma {:induction false} JobsWithoutSiteMembers(jobs: seq<Job>, siteId: int)
    ensures forall j :: j in JobsWithoutSite(jobs, siteId) <==> j in jobs && j.site.id != siteId
  {
    if jobs != [] {
      var init := jobs[..|jobs| - 1];
      JobsWithoutSiteMembers(init, siteId);
      assert jobs == init + [jobs[|jobs| - 1]];
    }
  }

  /** Job ids ascend strictly along the table. */
  predicate IdsAscending(jobs: seq<Job>) {
    forall a, b :: 0 <= a < b < |jobs| ==> jobs[a].id < jobs[b].id
  }

  /** Dropping the jobs of a site keeps the table in id order. */
  lemma {:induction false} JobsWithoutSiteAscending(jobs: seq<Job>, siteId: int)
    requires IdsAscending(jobs)
    ensures IdsAscending(JobsWithoutSite(jobs, siteId))
  {
    if jobs != [] {
      var init := jobs[..|jobs| - 1];
      var last := jobs[|jobs| - 1];
      JobsWithoutSiteAscending(init, siteId);
      JobsWithoutSiteMembers(init, siteId);
      var r0 := JobsWithoutSite(init, siteId);
      forall j | j in r0 ensures j.id < last.id {
        var k :| 0 <= k < |init| && init[k] == j;
      }
    }
  }

  // ----- templates -----

  /** One entry of the `areas` array of a template body. */
  datatype AreaInput = AreaInput(name: Option<string>, orderIndex: Option<int>, photoGuidance: Option<string>)

  /** The area `POST /templates` makes of the entry at position `i`. */
  function NewArea(a: AreaInput, i: nat, id: int, templateId: int, ts: Instant): TemplateArea {
    TemplateArea(id, templateId,
                 if Filled(a.name) then a.name.value else "Area " + Decimal(i + 1),
                 if a.orderIndex.Some? then a.orderIndex.value else i + 1,
                 a.photoGuidance, ts)
  }

  /**
   * The areas of `POST /templates`: one per entry, in order, numbered from
   * `firstId`; an entry without a name is called "Area <position>", one
   * without a numeric order gets its position (counting from 1).
   */
  function NewAreas(inputs: seq<AreaInput>, firstId: int, templateId: int, ts: Instant): (r: seq<TemplateArea>)
    ensures |r| == |inputs|
    ensures forall i :: 0 <= i < |r| ==>
              && r[i].id == firstId + i && r[i].templateId == templateId && r[i].name != ""
              && (Filled(inputs[i].name) ==> r[i].name == inputs[i].name.value)
              && (!Filled(inputs[i].name) ==> r[i].name == "Area " + Decimal(i + 1))
              && (inputs[i].orderIndex.None? ==> r[i].orderIndex == i + 1)
              && (inputs[i].orderIndex.Some? ==> r[i].orderIndex == inputs[i].orderIndex.value)
              && r[i].photoGuidance == inputs[i].photoGuidance && r[i].createdAt == ts
  {
    if inputs == [] then []
    else
      var n := |inputs| - 1;
      NewAreas(inputs[..n], firstId, templateId, ts) + [NewArea(inputs[n], n, firstId + n, templateId, ts)]
  }

  /** `String(a.name ?? "").trim()` is non-empty. */
  predicate Named(a: AreaInput) {
    a.name.Some? && !IsBlank(a.name.value)
  }

  /** The entries `PUT /templates/:id` keeps: those with a non-blank name, in order. */
  function NamedInputs(inputs: seq<AreaInput>): (r: seq<AreaInput>)
    ensures |r| <= |inputs|
    ensures forall a :: a in r ==> a in inputs && Named(a)
    ensures forall a :: a in inputs && Named(a) ==> a in r
  {
    if inputs == [] then []
    else
      var last := inputs[|inputs| - 1];
      NamedInputs(inputs[..|inputs| - 1]) + (if Named(last) then [last] else [])
  }

  /** Filtering a concatenation filters each part, so the kept entries keep their order. */
  lemma {:induction false} NamedInputsAppend(a: seq<AreaInput>, b: seq<AreaInput>)
    ensures NamedInputs(a + b) == NamedInputs(a) + NamedInputs(b)
  {
    if b != [] {
      var n := |b| - 1;
      NamedInputsAppend(a, b[..n]);
      assert (a + b)[..|a + b| - 1] == a + b[..n];
      assert (a + b)[|a + b| - 1] == b[n];
      assert NamedInputs(b) == NamedInputs(b[..n]) + (if Named(b[n]) then [b[n]] else []);
    } else {
      assert a + b == a;
    }
  }

  /** Every named entry is kept as often as it occurs, and no other entry is. */
  lemma {:induction false} NamedInputsCount(inputs: seq<AreaInput>, a: AreaInput)
    ensures multiset(NamedInputs(inputs))[a] == if Named(a) then multiset(inputs)[a] else 0
  {
    if inputs != [] {
      var n := |inputs| - 1;
      NamedInputsCount(inputs[..n], a);
      assert inputs == inputs[..n] + [inputs[n]];
      assert multiset(inputs) == multiset(inputs[..n]) + multiset{inputs[n]};
    }
  }

  /** A single entry is kept exactly when it has a non-blank name. */
  lemma NamedInputsSingle(a: AreaInput)
    ensures NamedInputs([a]) == if Named(a) then [a] else []
  {
    assert [a][..0] == [];
  }

  /** The area `PUT /templates/:id` makes of the `i`-th kept entry. */
  function NormalisedArea(a: AreaInput, i: nat, id: int, templateId: int, ts: Instant): TemplateArea
    requires Named(a)
  {
    TemplateArea(id, templateId, Trim(a.name.value),
                 if a.orderIndex.Some? && a.orderIndex.value > 0 then a.orderIndex.value else i + 1,
                 TrimmedOrNull(a.photoGuidance), ts)
  }

  function NormalisedFrom(kept: seq<AreaInput>, firstId: int, templateId: int, ts: Instant): (r: seq<TemplateArea>)
    requires forall a :: a in kept ==> Named(a)
    ensures |r| == |kept|
    ensures forall i :: 0 <= i < |r| ==> r[i] == NormalisedArea(kept[i], i, firstId + i, templateId, ts)
  {
    if kept == [] then []
    else
      var n := |kept| - 1;
      NormalisedFrom(kept[..n], firstId, templateId, ts) + [NormalisedArea(kept[n], n, firstId + n, templateId, ts)]
  }

  /**
   * The areas of `PUT /templates/:id`: entries with a blank name are
   * dropped; each kept one gets a trimmed non-empty name, a positive order
   * (its given order if positive, else its position among the kept ones),
   * a trimmed guidance or null, and the next id.
   */
  function NormalisedAreas(inputs: seq<AreaInput>, firstId: int, templateId: int, ts: Instant): (r: seq<TemplateArea>)
    ensures |r| == |NamedInputs(inputs)| <= |inputs|
    ensures forall i :: 0 <= i < |r| ==>
              && r[i].id == firstId + i && r[i].templateId == templateId
              && r[i].name != "" && IsTrimmed(r[i].name)
              && r[i].orderIndex > 0
              && (r[i].photoGuidance.Some? ==> r[i].photoGuidance.value != "")
              && r[i].createdAt == ts
    ensures forall i :: 0 <= i < |r| ==>
              var a := NamedInputs(inputs)[i];
              && a.name.Some? && r[i].name == Trim(a.name.value)
              && r[i].orderIndex == (if a.orderIndex.Some? && a.orderIndex.value > 0 then a.orderIndex.value else i + 1)
              && r[i].photoGuidance == TrimmedOrNull(a.photoGuidance)
  {
    var kept := NamedInputs(inputs);
    var r := NormalisedFrom(kept, firstId, templateId, ts);
    forall i | 0 <= i < |r| ensures r[i].name != "" && IsTrimmed(r[i].name) {
      assert kept[i] in kept;
      TrimmedEnds(kept[i].name.value);
    }
    forall i | 0 <= i < |r|
      ensures kept[i].name.Some? && r[i].name == Trim(kept[i].name.value)
    {
      assert kept[i] in kept;
    }
    r
  }

  /** The areas of one template, in table order. */
  function AreasOf(areas: seq<TemplateArea>, templateId: int): seq<TemplateArea> {
    if areas == [] then []
    else
      var last := areas[|areas| - 1];
      AreasOf(areas[..|areas| - 1], templateId) + (if last.templateId == templateId then [last] else [])
  }

  /** The areas left after the backwards splice loop removes those of one template. */
  function AreasWithout(areas: seq<TemplateArea>, templateId: int): seq<TemplateArea> {
    if areas == [] then []
    else
      var last := areas[|areas| - 1];
      AreasWithout(areas[..|areas| - 1], templateId) + (if last.templateId != templateId then [last] else [])
  }

  /** The backwards splice loop keeps exactly the areas of the other templates. */
  lemma {:induction false} AreasWithoutMembers(areas: seq<TemplateArea>, templateId: int)
    ensures forall a :: a in AreasWithout(areas, templateId) <==> a in areas && a.templateId != templateId
  {
    if areas != [] {
      var init := areas[..|areas| - 1];
      AreasWithoutMembers(init, templateId);
      assert areas == init + [areas[|areas| - 1]];
    }
  }

  lemma {:induction false} AreasOfAppend(a: seq<TemplateArea>, b: seq<TemplateArea>, templateId: int)
    ensures AreasOf(a + b, templateId) == AreasOf(a, templateId) + AreasOf(b, templateId)
  {
    if b != [] {
      var n := |b| - 1;
      assert (a + b)[..|a + b| - 1] == a + b[..n];
      AreasOfAppend(a, b[..n], templateId);
    } else {
      assert a + b == a;
    }
  }

  lemma {:induction false} AreasWithoutAppend(a: seq<TemplateArea>, b: seq<TemplateArea>, templateId: int)
    ensures AreasWithout(a + b, templateId) == AreasWithout(a, templateId) + AreasWithout(b, templateId)
  {
    if b != [] {
      var n := |b| - 1;
      assert (a + b)[..|a + b| - 1] == a + b[..n];
      AreasWithoutAppend(a, b[..n], templateId);
    } else {
      assert a + b == a;
    }
  }

  /** Removing one template's areas leaves every other template's areas as they were, and none of its own. */
  lemma {:induction false} AreasOfWithout(areas: seq<TemplateArea>, removed: int, templateId: int)
    ensures AreasOf(AreasWithout(areas, removed), templateId) ==
              if templateId == removed then [] else AreasOf(areas, templateId)
  {
    if areas != [] {
      var init := areas[..|areas| - 1];
      var last := areas[|areas| - 1];
      AreasOfWithout(init, removed, templateId);
      AreasOfAppend(AreasWithout(init, removed), if last.templateId != removed then [last] else [], templateId);
    }
  }

  /** A list whose areas all belong to one template is that template's list, and no other's. */
  lemma {:induction false} AreasOfUniform(areas: seq<TemplateArea>, owner: int, templateId: int)
    requires forall i :: 0 <= i < |areas| ==> areas[i].templateId == owner
    ensures AreasOf(areas, templateId) == if templateId == owner then areas else []
  {
    if areas != [] {
      AreasOfUniform(areas[..|areas| - 1], owner, templateId);
    }
  }

  /** Index of the template with the given id (`find` / `findIndex`). */
  function FindTemplateIndex(templates: seq<Template>, id: int): (r: Option<nat>)
    ensures r.Some? ==> r.value < |templates| && templates[r.value].id == id
    ensures r.None? ==> forall k :: 0 <= k < |templates| ==> templates[k].id != id
  {
    IndexOf(templates, (x: Template) => x.id, id)
  }

  /** The body of `PUT /templates/:id`; `areas` is `None` when it is not an array. */
  datatype TemplatePatch = TemplatePatch(
    name: Field<string>,
    description: Field<string>,
    isActive: Field<bool>,
    areas: Option<seq<AreaInput>>)

  /**
   * `PUT /templates/:id` on one template: the name changes only to a
   * non-blank trimmed value; an areas array replaces the areas and their count.
   */
  function PatchTemplate(t: Template, p: TemplatePatch, firstAreaId: int, now: Instant): (r: Template)
    ensures r.id == t.id && r.createdAt == t.createdAt
    ensures r.name == TrimmedOr(t.name, p.name) && (t.name != "" ==> r.name != "")
    ensures r.description == Nullable(p.description, t.description)
    ensures r.isActive == BooleanField(p.isActive, t.isActive)
    ensures p.areas.None? ==> r.areas == t.areas && r.areaCount == t.areaCount
    ensures p.areas.Some? ==> r.areas == NormalisedAreas(p.areas.value, firstAreaId, t.id, now)
                              && r.areaCount == |r.areas|
  {
    var t1 := t.(name := TrimmedOr(t.name, p.name), description := Nullable(p.description, t.description),
                 isActive := BooleanField(p.isActive, t.isActive));
    if p.areas.None? then t1
    else
      var list := NormalisedAreas(p.areas.value, firstAreaId, t.id, now);
      t1.(areas := list, areaCount := |list|)
  }
}
