/**
 * The invariant the tables of the mock API keep, stated on plain values,
 * and one lemma per kind of change a route makes to a table.
 */
module StoreInvariant {
  import opened Wrappers
  import opened Entities
  import opened DirectoryRules

  function UserIds(users: seq<User>): set<int> {
    set u | u in users :: u.id
  }

  function SiteIds(sites: seq<Site>): set<int> {
    set s | s in sites :: s.id
  }

  function TemplateIds(templates: seq<Template>): set<int> {
    set t | t in templates :: t.id
  }

  /** Removing the element at `k` keeps ids ascending and loses exactly that element's id. */
  lemma RemoveSiteAt(sites: seq<Site>, k: nat)
    requires k < |sites|
    requires forall a, b :: 0 <= a < b < |sites| ==> sites[a].id < sites[b].id
    ensures var r := sites[..k] + sites[k + 1..];
            && (forall a, b :: 0 <= a < b < |r| ==> r[a].id < r[b].id)
            && SiteIds(r) == SiteIds(sites) - {sites[k].id}
  {
    var r := sites[..k] + sites[k + 1..];
    forall a, b | 0 <= a < b < |r| ensures r[a].id < r[b].id {
      var a' := if a < k then a else a + 1;
      var b' := if b < k then b else b + 1;
      assert r[a] == sites[a'] && r[b] == sites[b'];
    }
    forall x | x in SiteIds(sites) - {sites[k].id} ensures x in SiteIds(r) {
      var s :| s in sites && s.id == x;
      var m :| 0 <= m < |sites| && sites[m] == s;
      assert m != k;
      assert s == r[if m < k then m else m - 1];
    }
  }

  lemma RemoveUserAt(users: seq<User>, k: nat)
    requires k < |users|
    requires forall a, b :: 0 <= a < b < |users| ==> users[a].id < users[b].id
    ensures var r := users[..k] + users[k + 1..];
            && (forall a, b :: 0 <= a < b < |r| ==> r[a].id < r[b].id)
            && UserIds(r) == UserIds(users) - {users[k].id}
  {
    var r := users[..k] + users[k + 1..];
    forall a, b | 0 <= a < b < |r| ensures r[a].id < r[b].id {
      var a' := if a < k then a else a + 1;
      var b' := if b < k then b else b + 1;
      assert r[a] == users[a'] && r[b] == users[b'];
    }
    forall x | x in UserIds(users) - {users[k].id} ensures x in UserIds(r) {
      var u :| u in users && u.id == x;
      var m :| 0 <= m < |users| && users[m] == u;
      assert m != k;
      assert u == r[if m < k then m else m - 1];
    }
  }

  lemma RemoveTemplateAt(templates: seq<Template>, k: nat)
    requires k < |templates|
    requires forall a, b :: 0 <= a < b < |templates| ==> templates[a].id < templates[b].id
    ensures var r := templates[..k] + templates[k + 1..];
            && (forall a, b :: 0 <= a < b < |r| ==> r[a].id < r[b].id)
            && TemplateIds(r) == TemplateIds(templates) - {templates[k].id}
  {
    var r := templates[..k] + templates[k + 1..];
    forall a, b | 0 <= a < b < |r| ensures r[a].id < r[b].id {
      var a' := if a < k then a else a + 1;
      var b' := if b < k then b else b + 1;
      assert r[a] == templates[a'] && r[b] == templates[b'];
    }
    forall x | x in TemplateIds(templates) - {templates[k].id} ensures x in TemplateIds(r) {
      var t :| t in templates && t.id == x;
      var m :| 0 <= m < |templates| && templates[m] == t;
      assert m != k;
      assert t == r[if m < k then m else m - 1];
    }
  }

  lemma RemoveJobAt(jobs: seq<Job>, k: nat)
    requires k < |jobs| && IdsAscending(jobs)
    ensures IdsAscending(jobs[..k] + jobs[k + 1..])
    ensures forall j :: j in jobs[..k] + jobs[k + 1..] ==> j in jobs
  {
    var r := jobs[..k] + jobs[k + 1..];
    forall a, b | 0 <= a < b < |r| ensures r[a].id < r[b].id {
      var a' := if a < k then a else a + 1;
      var b' := if b < k then b else b + 1;
      assert r[a] == jobs[a'] && r[b] == jobs[b'];
    }
  }

  /**
   * One step of the backwards splice loop: splicing out element `i - 1` when
   * it belongs to the template extends the filtered suffix by one position.
   */
  lemma SpliceStep(orig: seq<TemplateArea>, i: nat, templateId: int)
    requires 0 < i <= |orig|
    ensures var cur := orig[..i] + AreasWithout(orig[i..], templateId);
            && cur[i - 1] == orig[i - 1]
            && (if orig[i - 1].templateId == templateId then cur[..i - 1] + cur[i..] else cur)
               == orig[..i - 1] + AreasWithout(orig[i - 1..], templateId)
  {
    var w := AreasWithout(orig[i..], templateId);
    SpliceAt(orig, i, w);
    AreasWithoutStep(orig, i, templateId);
    if orig[i - 1].templateId == templateId {
      assert [] + w == w;
    }
  }

  /** Splicing the element just before a suffix `w` out of `s[..i] + w`, or keeping it. */
  lemma SpliceAt<T>(s: seq<T>, i: nat, w: seq<T>)
    requires 0 < i <= |s|
    ensures var cur := s[..i] + w;
            && cur[i - 1] == s[i - 1]
            && cur[..i - 1] + cur[i..] == s[..i - 1] + w
            && cur == s[..i - 1] + ([s[i - 1]] + w)
  {
    var cur := s[..i] + w;
    assert cur[..i - 1] == s[..i - 1];
    assert cur[i..] == w;
    assert s[..i] == s[..i - 1] + [s[i - 1]];
  }

  /** Filtering a suffix one element longer adds at most that element in front. */
  lemma AreasWithoutStep(orig: seq<TemplateArea>, i: nat, templateId: int)
    requires 0 < i <= |orig|
    ensures AreasWithout(orig[i - 1..], templateId)
            == (if orig[i - 1].templateId != templateId then [orig[i - 1]] else []) + AreasWithout(orig[i..], templateId)
  {
    SplitAt(orig, i - 1);
    AreasWithoutAppend([orig[i - 1]], orig[i..], templateId);
    AreasWithoutSingle(orig[i - 1], templateId);
  }

  /** Cutting a list around one of its elements. */
  lemma SplitAt<T>(s: seq<T>, k: nat)
    requires k < |s|
    ensures s[k..] == [s[k]] + s[k + 1..] && s[..k + 1] == s[..k] + [s[k]]
  {
  }

  /** A single area is kept exactly when it belongs to another template. */
  lemma AreasWithoutSingle(x: TemplateArea, templateId: int)
    ensures AreasWithout([x], templateId) == if x.templateId != templateId then [x] else []
  {
    assert [x][..0] == [];
  }

  /** No area of the list belongs to the given template. */
  lemma {:induction false} AreasOfAbsent(areas: seq<TemplateArea>, templateId: int)
    requires forall a :: a in areas ==> a.templateId != templateId
    ensures AreasOf(areas, templateId) == []
  {
    if areas != [] {
      assert areas[|areas| - 1] in areas;
      AreasOfAbsent(areas[..|areas| - 1], templateId);
    }
  }

  // ----- users and login tokens -----

  /** User ids ascend and stay below the counter; every login token belongs to a stored user. */
  ghost predicate UsersOk(users: seq<User>, nextUserId: int, tokens: map<string, int>) {
    && (forall a, b :: 0 <= a < b < |users| ==> users[a].id < users[b].id)
    && (forall k :: 0 <= k < |users| ==> users[k].id < nextUserId)
    && (forall t :: t in tokens ==> tokens[t] in UserIds(users))
  }

  /** A user created with the counter's id keeps the user invariant once the counter moves on. */
  lemma UserAppended(users: seq<User>, next: int, tokens: map<string, int>, u: User)
    requires UsersOk(users, next, tokens) && u.id == next
    ensures UsersOk(users + [u], next + 1, tokens)
  {
    assert UserIds(users) <= UserIds(users + [u]);
  }

  /** A token issued to a stored user keeps the user invariant. */
  lemma TokenIssued(users: seq<User>, next: int, tokens: map<string, int>, token: string, u: User)
    requires UsersOk(users, next, tokens) && u in users
    ensures UsersOk(users, next, tokens[token := u.id])
  {
  }

  /** Replacing a user by a record with the same id keeps the user invariant. */
  lemma UserReplaced(users: seq<User>, next: int, tokens: map<string, int>, k: nat, u: User)
    requires UsersOk(users, next, tokens) && k < |users| && u.id == users[k].id
    ensures UsersOk(users[k := u], next, tokens)
  {
    var us := users[k := u];
    forall x | x in UserIds(users) ensures x in UserIds(us) {
      var v :| v in users && v.id == x;
      var m :| 0 <= m < |users| && users[m] == v;
      assert us[m].id == x;
    }
  }

  /** Removing a user together with every token issued to them keeps the user invariant. */
  lemma UserRemoved(users: seq<User>, next: int, tokens: map<string, int>, k: nat)
    requires UsersOk(users, next, tokens) && k < |users|
    ensures UsersOk(users[..k] + users[k + 1..], next, TokensWithout(tokens, users[k].id))
  {
    var us := users[..k] + users[k + 1..];
    RemoveUserAt(users, k);
    forall m | 0 <= m < |us| ensures us[m].id < next {
      assert us[m] == users[if m < k then m else m + 1];
    }
  }

  // ----- sites -----

  /** Site ids ascend and stay below the counter; every site has its four required fields. */
  ghost predicate SitesOk(sites: seq<Site>, nextSiteId: int) {
    && (forall a, b :: 0 <= a < b < |sites| ==> sites[a].id < sites[b].id)
    && (forall k :: 0 <= k < |sites| ==> sites[k].id < nextSiteId)
    && (forall s :: s in sites ==> RequiredFilled(s))
  }

  lemma SiteAppended(sites: seq<Site>, next: int, s: Site)
    requires SitesOk(sites, next) && s.id == next && RequiredFilled(s)
    ensures SitesOk(sites + [s], next + 1)
    ensures SiteIds(sites + [s]) == SiteIds(sites) + {s.id}
  {
  }

  lemma SiteReplaced(sites: seq<Site>, next: int, k: nat, s: Site)
    requires SitesOk(sites, next) && k < |sites| && s.id == sites[k].id && RequiredFilled(s)
    ensures SitesOk(sites[k := s], next)
    ensures SiteIds(sites[k := s]) == SiteIds(sites)
  {
    var ss := sites[k := s];
    forall x | x in SiteIds(sites) ensures x in SiteIds(ss) {
      var v :| v in sites && v.id == x;
      var m :| 0 <= m < |sites| && sites[m] == v;
      assert ss[m].id == x;
    }
  }

  lemma SiteRemoved(sites: seq<Site>, next: int, k: nat)
    requires SitesOk(sites, next) && k < |sites|
    ensures SitesOk(sites[..k] + sites[k + 1..], next)
    ensures SiteIds(sites[..k] + sites[k + 1..]) == SiteIds(sites) - {sites[k].id}
  {
    var ss := sites[..k] + sites[k + 1..];
    RemoveSiteAt(sites, k);
    forall m | 0 <= m < |ss| ensures ss[m].id < next && RequiredFilled(ss[m]) {
      assert ss[m] == sites[if m < k then m else m + 1];
    }
  }

  // ----- jobs -----

  /**
   * Job ids ascend (the key order of the job record) and stay below the
   * counter; every job is at a stored site; no capture has a post image
   * without a pre image.
   */
  ghost predicate JobsOk(jobs: seq<Job>, nextJobId: int, siteIds: set<int>) {
    && IdsAscending(jobs)
    && (forall k :: 0 <= k < |jobs| ==> jobs[k].id < nextJobId)
    && (forall j :: j in jobs ==> j.site.id in siteIds)
    && (forall j, c :: j in jobs && c in j.captures ==> PreBeforePost(c))
  }

  /** More sites never break the job invariant. */
  lemma SitesGrown(jobs: seq<Job>, next: int, ids: set<int>, ids': set<int>)
    requires JobsOk(jobs, next, ids) && ids <= ids'
    ensures JobsOk(jobs, next, ids')
  {
  }

  lemma JobAppended(jobs: seq<Job>, next: int, ids: set<int>, j: Job)
    requires JobsOk(jobs, next, ids) && j.id == next && j.site.id in ids
    requires forall c :: c in j.captures ==> PreBeforePost(c)
    ensures JobsOk(jobs + [j], next + 1, ids)
  {
    var js := jobs + [j];
    forall a, b | 0 <= a < b < |js| ensures js[a].id < js[b].id {
      if b == |jobs| {
        assert js[a] == jobs[a];
      }
    }
  }

  /** A job rewritten in place with its id and site kept and sound captures keeps the job invariant. */
  lemma JobReplaced(jobs: seq<Job>, next: int, ids: set<int>, k: nat, j: Job)
    requires JobsOk(jobs, next, ids) && k < |jobs|
    requires j.id == jobs[k].id && j.site == jobs[k].site
    requires j.captures == jobs[k].captures || forall c :: c in j.captures ==> PreBeforePost(c)
    ensures JobsOk(jobs[k := j], next, ids)
  {
    var js := jobs[k := j];
    assert jobs[k] in jobs;
    forall x | x in js ensures x.site.id in ids && forall c :: c in x.captures ==> PreBeforePost(c) {
      var m :| 0 <= m < |js| && js[m] == x;
      assert m != k ==> jobs[m] in jobs;
    }
  }

  lemma JobRemoved(jobs: seq<Job>, next: int, ids: set<int>, k: nat)
    requires JobsOk(jobs, next, ids) && k < |jobs|
    ensures JobsOk(jobs[..k] + jobs[k + 1..], next, ids)
  {
    var js := jobs[..k] + jobs[k + 1..];
    RemoveJobAt(jobs, k);
    forall m | 0 <= m < |js| ensures js[m].id < next {
      assert js[m] == jobs[if m < k then m else m + 1];
    }
  }

  /** Dropping a site together with its jobs keeps the job invariant. */
  lemma SiteJobsRemoved(jobs: seq<Job>, next: int, ids: set<int>, siteId: int)
    requires JobsOk(jobs, next, ids)
    ensures JobsOk(JobsWithoutSite(jobs, siteId), next, ids - {siteId})
  {
    var js := JobsWithoutSite(jobs, siteId);
    JobsWithoutSiteAscending(jobs, siteId);
    JobsWithoutSiteMembers(jobs, siteId);
    forall m | 0 <= m < |js| ensures js[m].id < next {
      assert js[m] in js;
      var i :| 0 <= i < |jobs| && jobs[i] == js[m];
    }
  }

  /** The job invariant survives a change of engineers only. */
  lemma EngineersChanged(before: seq<Job>, after: seq<Job>, next: int, ids: set<int>)
    requires JobsOk(before, next, ids) && |after| == |before|
    requires forall m :: 0 <= m < |after| ==>
               after[m].id == before[m].id && after[m].site == before[m].site && after[m].captures == before[m].captures
    ensures JobsOk(after, next, ids)
  {
    forall j | j in after ensures j.site.id in ids && forall c :: c in j.captures ==> PreBeforePost(c) {
      var m :| 0 <= m < |after| && after[m] == j;
      assert before[m] in before;
    }
  }

  // ----- templates and their areas -----

  /** Template ids ascend and stay below the counter. */
  ghost predicate TemplateIdsOk(templates: seq<Template>, nextTemplateId: int) {
    && (forall a, b :: 0 <= a < b < |templates| ==> templates[a].id < templates[b].id)
    && (forall k :: 0 <= k < |templates| ==> templates[k].id < nextTemplateId)
  }

  /** Each template's area list and count agree with the area table. */
  ghost predicate AreaListsAgree(templates: seq<Template>, areas: seq<TemplateArea>) {
    forall t :: t in templates ==> t.areaCount == |t.areas| && AreasOf(areas, t.id) == t.areas
  }

  /** Every area of the table belongs to a stored template. */
  ghost predicate NoOrphanAreas(templates: seq<Template>, areas: seq<TemplateArea>) {
    forall a :: a in areas ==> a.templateId in TemplateIds(templates)
  }

  /**
   * Template ids ascend and stay below the counter; each template's area
   * list and count agree with the area table, and no area is orphaned.
   */
  ghost predicate TemplatesOk(templates: seq<Template>, nextTemplateId: int, areas: seq<TemplateArea>) {
    TemplateIdsOk(templates, nextTemplateId) && AreaListsAgree(templates, areas) && NoOrphanAreas(templates, areas)
  }

  /** No stored template has the counter's id, so no area of the table belongs to it. */
  lemma NoAreasOfFresh(templates: seq<Template>, next: int, areas: seq<TemplateArea>)
    requires TemplateIdsOk(templates, next) && NoOrphanAreas(templates, areas)
    ensures AreasOf(areas, next) == []
  {
    forall a | a in areas ensures a.templateId != next {
      var m :| 0 <= m < |templates| && templates[m].id == a.templateId;
    }
    AreasOfAbsent(areas, next);
  }

  lemma TemplateIdsAdded(templates: seq<Template>, next: int, t: Template)
    requires TemplateIdsOk(templates, next) && t.id == next
    ensures TemplateIdsOk(templates + [t], next + 1)
  {
    var ts := templates + [t];
    forall a, b | 0 <= a < b < |ts| ensures ts[a].id < ts[b].id {
      if b == |templates| {
        assert ts[a] == templates[a];
      }
    }
  }

  lemma AreaListsAdded(templates: seq<Template>, areas: seq<TemplateArea>, t: Template)
    requires AreaListsAgree(templates, areas) && AreasOf(areas, t.id) == []
    requires forall u :: u in templates ==> u.id != t.id
    requires forall i :: 0 <= i < |t.areas| ==> t.areas[i].templateId == t.id
    requires t.areaCount == |t.areas|
    ensures AreaListsAgree(templates + [t], areas + t.areas)
  {
    forall u | u in templates + [t] ensures u.areaCount == |u.areas| && AreasOf(areas + t.areas, u.id) == u.areas {
      AreasOfAppend(areas, t.areas, u.id);
      AreasOfUniform(t.areas, t.id, u.id);
      if u != t {
        assert u in templates;
      }
    }
  }

  lemma NoOrphansAdded(templates: seq<Template>, areas: seq<TemplateArea>, t: Template)
    requires NoOrphanAreas(templates, areas)
    requires forall i :: 0 <= i < |t.areas| ==> t.areas[i].templateId == t.id
    ensures NoOrphanAreas(templates + [t], areas + t.areas)
  {
    var ts := templates + [t];
    assert TemplateIds(templates) <= TemplateIds(ts);
    assert t.id in TemplateIds(ts) by {
      assert ts[|templates|] == t;
    }
  }

  /** Appending a template with a fresh, larger id and its own new areas keeps the invariant. */
  lemma TemplateAdded(templates: seq<Template>, next: int, areas: seq<TemplateArea>, t: Template)
    requires TemplatesOk(templates, next, areas) && t.id == next && t.areaCount == |t.areas|
    requires forall i :: 0 <= i < |t.areas| ==> t.areas[i].templateId == t.id
    ensures TemplatesOk(templates + [t], next + 1, areas + t.areas)
  {
    TemplateIdsAdded(templates, next, t);
    NoAreasOfFresh(templates, next, areas);
    forall u | u in templates ensures u.id != t.id {
      var m :| 0 <= m < |templates| && templates[m] == u;
    }
    AreaListsAdded(templates, areas, t);
    NoOrphansAdded(templates, areas, t);
  }

  /** Rewriting a template under its own id keeps the ids in order and below the counter. */
  lemma SameIds(templates: seq<Template>, next: int, k: nat, t': Template)
    requires k < |templates| && t'.id == templates[k].id && TemplateIdsOk(templates, next)
    ensures TemplateIdsOk(templates[k := t'], next)
    ensures TemplateIds(templates[k := t']) == TemplateIds(templates)
  {
    var ts := templates[k := t'];
    forall x | x in TemplateIds(templates) ensures x in TemplateIds(ts) {
      var v :| v in templates && v.id == x;
      var m :| 0 <= m < |templates| && templates[m] == v;
      assert ts[m].id == x;
    }
  }

  lemma AreaListsReplaced(templates: seq<Template>, next: int, areas: seq<TemplateArea>, k: nat, t': Template)
    requires TemplateIdsOk(templates, next) && AreaListsAgree(templates, areas) && k < |templates|
    requires t'.id == templates[k].id && t'.areaCount == |t'.areas|
    requires forall i :: 0 <= i < |t'.areas| ==> t'.areas[i].templateId == t'.id
    ensures AreaListsAgree(templates[k := t'], AreasWithout(areas, t'.id) + t'.areas)
  {
    var id := t'.id;
    var rest := AreasWithout(areas, id);
    var ts := templates[k := t'];
    forall u | u in ts ensures u.areaCount == |u.areas| && AreasOf(rest + t'.areas, u.id) == u.areas {
      AreasOfAppend(rest, t'.areas, u.id);
      AreasOfUniform(t'.areas, id, u.id);
      AreasOfWithout(areas, id, u.id);
      var m :| 0 <= m < |ts| && ts[m] == u;
      if m != k {
        assert templates[m] == u && templates[m].id != templates[k].id;
      }
    }
  }

  lemma NoOrphansReplaced(templates: seq<Template>, areas: seq<TemplateArea>, k: nat, t': Template)
    requires NoOrphanAreas(templates, areas) && k < |templates| && t'.id == templates[k].id
    requires TemplateIds(templates[k := t']) == TemplateIds(templates)
    requires forall i :: 0 <= i < |t'.areas| ==> t'.areas[i].templateId == t'.id
    ensures NoOrphanAreas(templates[k := t'], AreasWithout(areas, t'.id) + t'.areas)
  {
    AreasWithoutMembers(areas, t'.id);
    assert templates[k] in templates;
  }

  /** Replacing one template's areas, in its entry and in the area table, keeps the invariant. */
  lemma TemplateReplaced(templates: seq<Template>, next: int, areas: seq<TemplateArea>, k: nat, t': Template)
    requires TemplatesOk(templates, next, areas) && k < |templates|
    requires t'.id == templates[k].id && t'.areaCount == |t'.areas|
    requires forall i :: 0 <= i < |t'.areas| ==> t'.areas[i].templateId == t'.id
    ensures TemplatesOk(templates[k := t'], next, AreasWithout(areas, t'.id) + t'.areas)
  {
    SameIds(templates, next, k, t');
    AreaListsReplaced(templates, next, areas, k, t');
    NoOrphansReplaced(templates, areas, k, t');
  }

  /** Changing a template's name, description or flag keeps the invariant. */
  lemma TemplateRenamed(templates: seq<Template>, next: int, areas: seq<TemplateArea>, k: nat, t': Template)
    requires TemplatesOk(templates, next, areas) && k < |templates|
    requires t'.id == templates[k].id && t'.areas == templates[k].areas && t'.areaCount == templates[k].areaCount
    ensures TemplatesOk(templates[k := t'], next, areas)
  {
    var ts := templates[k := t'];
    SameIds(templates, next, k, t');
    forall u | u in ts ensures u.areaCount == |u.areas| && AreasOf(areas, u.id) == u.areas {
      var m :| 0 <= m < |ts| && ts[m] == u;
      assert templates[k] in templates;
      if m != k {
        assert templates[m] == u;
      }
    }
  }

  lemma AreaListsRemoved(templates: seq<Template>, next: int, areas: seq<TemplateArea>, k: nat)
    requires TemplateIdsOk(templates, next) && AreaListsAgree(templates, areas) && k < |templates|
    ensures AreaListsAgree(templates[..k] + templates[k + 1..], AreasWithout(areas, templates[k].id))
  {
    var id := templates[k].id;
    var ts := templates[..k] + templates[k + 1..];
    forall u | u in ts ensures u.areaCount == |u.areas| && AreasOf(AreasWithout(areas, id), u.id) == u.areas {
      var m :| 0 <= m < |ts| && ts[m] == u;
      var m' := if m < k then m else m + 1;
      assert templates[m'] == u && m' != k;
      AreasOfWithout(areas, id, u.id);
    }
  }

  lemma NoOrphansRemoved(templates: seq<Template>, areas: seq<TemplateArea>, k: nat)
    requires NoOrphanAreas(templates, areas) && k < |templates|
    requires TemplateIds(templates[..k] + templates[k + 1..]) == TemplateIds(templates) - {templates[k].id}
    ensures NoOrphanAreas(templates[..k] + templates[k + 1..], AreasWithout(areas, templates[k].id))
  {
    AreasWithoutMembers(areas, templates[k].id);
  }

  lemma TemplateIdsRemoved(templates: seq<Template>, next: int, k: nat)
    requires TemplateIdsOk(templates, next) && k < |templates|
    ensures TemplateIdsOk(templates[..k] + templates[k + 1..], next)
    ensures TemplateIds(templates[..k] + templates[k + 1..]) == TemplateIds(templates) - {templates[k].id}
  {
    var ts := templates[..k] + templates[k + 1..];
    RemoveTemplateAt(templates, k);
    forall m | 0 <= m < |ts| ensures ts[m].id < next {
      assert ts[m] == templates[if m < k then m else m + 1];
    }
  }

  /** Removing a template together with its areas keeps the invariant. */
  lemma TemplateRemoved(templates: seq<Template>, next: int, areas: seq<TemplateArea>, k: nat)
    requires TemplatesOk(templates, next, areas) && k < |templates|
    ensures TemplatesOk(templates[..k] + templates[k + 1..], next, AreasWithout(areas, templates[k].id))
  {
    TemplateIdsRemoved(templates, next, k);
    AreaListsRemoved(templates, next, areas, k);
    NoOrphansRemoved(templates, areas, k);
  }
}
