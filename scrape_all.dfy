/** `POST /api/scrape/all` (app/api/scrape/all/route.ts): scrape the three
  * platforms, capturing each failure as a platform error; seed the project
  * map from GitHub and run the Netlify and Vercel match-or-insert passes;
  * enrich and upsert every entry, counting successes and collecting
  * per-project errors; write one sync log and answer with the totals.
  * The datastore upsert is an oracle, the clock readings are inputs. */
module ScrapeAll {
  import opened Types
  import opened JsText
  import opened Utils
  import opened AiDescription
  import opened GitHubScraper
  import opened NetlifyScraper
  import opened VercelScraper
  import opened Screenshot
  import opened ProjectMaps
  import opened Reconcile

  // ---------------------------------------------------------------------
  // Scraping with failure capture (route.ts:18-33)
  // ---------------------------------------------------------------------

  /** What `scrapeGitHub()` resolves or rejects with. */
  function GitHubOutcome(listing: Result<seq<Repo>>, fetch: Repo -> Result<RepoDetails>, daysSince: string -> int): Result<seq<GitHubProject>> {
    if listing.Err? then Err(listing.message) else Ok(ProcessRepos(listing.value, fetch, daysSince))
  }

  /** What `scrapeNetlify()` resolves or rejects with. */
  function NetlifyOutcome(response: Result<seq<NetlifySite>>): Result<seq<NetlifyProject>> {
    if response.Err? then Err(response.message)
    else Ok(seq(|response.value|, k requires 0 <= k < |response.value| => NetlifyRecord(response.value[k])))
  }

  /** What `scrapeVercel()` resolves or rejects with. */
  function VercelOutcome(response: Result<VercelResponse>): Result<seq<VercelProject>> {
    if response.Err? then Err(response.message)
    else
      var listed := ListedProjects(response.value);
      Ok(seq(|listed|, k requires 0 <= k < |listed| => VercelRecord(listed[k])))
  }

  /** `.catch(e => { ...; return []; })`: a failed scrape contributes no records. */
  function Listed<T>(r: Result<seq<T>>): (xs: seq<T>)
    ensures r.Err? ==> xs == []
    ensures r.Ok? ==> xs == r.value
  {
    match r
    case Ok(v) => v
    case Err(_) => []
  }

  /** The `{platform, error}` entry a failed scrape pushes, if any. */
  function Captured<T>(platform: Platform, r: Result<seq<T>>): (es: seq<SyncError>)
    ensures r.Ok? <==> es == []
    ensures r.Err? ==> es == [PlatformError(platform, r.message)]
  {
    match r
    case Ok(_) => []
    case Err(m) => [PlatformError(platform, m)]
  }

  /** The errors of the three scrapes, in the order they run. */
  function PlatformErrors(gh: Result<seq<GitHubProject>>, nl: Result<seq<NetlifyProject>>, vc: Result<seq<VercelProject>>): (es: seq<SyncError>)
    ensures |es| == |Captured(GitHub, gh)| + |Captured(Netlify, nl)| + |Captured(Vercel, vc)|
    ensures forall e :: e in es ==> e.PlatformError?
  {
    Captured(GitHub, gh) + Captured(Netlify, nl) + Captured(Vercel, vc)
  }

  /** Each failing platform appends exactly one entry naming it, and a
    * platform that succeeds appends none. */
  lemma PlatformErrorsExact(gh: Result<seq<GitHubProject>>, nl: Result<seq<NetlifyProject>>, vc: Result<seq<VercelProject>>)
    ensures |PlatformErrors(gh, nl, vc)| == (if gh.Err? then 1 else 0) + (if nl.Err? then 1 else 0) + (if vc.Err? then 1 else 0)
    ensures gh.Err? ==> PlatformError(GitHub, gh.message) in PlatformErrors(gh, nl, vc)
    ensures nl.Err? ==> PlatformError(Netlify, nl.message) in PlatformErrors(gh, nl, vc)
    ensures vc.Err? ==> PlatformError(Vercel, vc.message) in PlatformErrors(gh, nl, vc)
    ensures forall e :: e in PlatformErrors(gh, nl, vc) ==>
      (e.platform == GitHub ==> gh.Err? && e.error == gh.message)
      && (e.platform == Netlify ==> nl.Err? && e.error == nl.message)
      && (e.platform == Vercel ==> vc.Err? && e.error == vc.message)
  {
    var es := PlatformErrors(gh, nl, vc);
    var a, b, c := Captured(GitHub, gh), Captured(Netlify, nl), Captured(Vercel, vc);
    assert es == a + b + c;
    forall e | e in es
      ensures (e.platform == GitHub ==> gh.Err? && e.error == gh.message)
      ensures (e.platform == Netlify ==> nl.Err? && e.error == nl.message)
      ensures (e.platform == Vercel ==> vc.Err? && e.error == vc.message)
    {
      assert e in a || e in b || e in c;
    }
  }

  // ---------------------------------------------------------------------
  // Enrichment (route.ts:107-122)
  // ---------------------------------------------------------------------

  /** `project.primary_url && !project.github_url?.includes(project.primary_url)`:
    * a primary URL that the GitHub URL, when there is one, does not contain. */
  predicate WantsScreenshot(primary: Option<string>, githubUrl: Option<string>) {
    Truthy(primary) && (githubUrl.None? || !Includes(githubUrl.value, primary.value))
  }

  /** The field writes on one draft before its upsert: the primary URL, an
    * AI description when there is a README or a description to draw on, a
    * screenshot when the primary URL is not the GitHub page, and the sync
    * time. Nothing else changes. */
  function Enrich(p: Project, key: Option<string>, now: string): Project
  {
    // The description reads none of the fields the enrichment writes, so
    // it is the same before and after `primary_url` is set.
    var primary := PrimaryUrl(p);
    var shoot := WantsScreenshot(primary, p.githubUrl);
    p.(primaryUrl := primary,
       aiDescription := if Truthy(p.readmeContent) || Truthy(p.description) then Some(SmartDescription(p)) else p.aiDescription,
       screenshotUrl := if shoot then Some(ScreenshotUrl(key, primary.value)) else p.screenshotUrl,
       screenshotUpdatedAt := if shoot then Some(now) else p.screenshotUpdatedAt,
       lastSyncedAt := Some(now))
  }

  /** What enrichment writes: the primary URL and the sync time always, an
    * AI description exactly when there is a README or a description to draw
    * on, a screenshot exactly when the primary URL is not the GitHub page,
    * and nothing else. */
  lemma EnrichSpec(p: Project, key: Option<string>, now: string)
    ensures var q := Enrich(p, key, now);
      && q.primaryUrl == PrimaryUrl(p) && q.lastSyncedAt == Some(now)
      && (Truthy(p.readmeContent) || Truthy(p.description) ==> q.aiDescription == Some(SmartDescription(p)))
      && (!Truthy(p.readmeContent) && !Truthy(p.description) ==> q.aiDescription == p.aiDescription)
      && (WantsScreenshot(PrimaryUrl(p), p.githubUrl) ==>
            q.screenshotUrl == Some(ScreenshotUrl(key, PrimaryUrl(p).value)) && q.screenshotUpdatedAt == Some(now))
      && (!WantsScreenshot(PrimaryUrl(p), p.githubUrl) ==>
            q.screenshotUrl == p.screenshotUrl && q.screenshotUpdatedAt == p.screenshotUpdatedAt)
      && q.(primaryUrl := p.primaryUrl, aiDescription := p.aiDescription, screenshotUrl := p.screenshotUrl,
            screenshotUpdatedAt := p.screenshotUpdatedAt, lastSyncedAt := p.lastSyncedAt) == p
  {
  }

  /** A second enrichment at the same time changes nothing: every field
    * enrichment reads is one it does not write. */
  lemma EnrichStable(p: Project, key: Option<string>, now: string)
    ensures Enrich(Enrich(p, key, now), key, now) == Enrich(p, key, now)
  {
    var q := Enrich(p, key, now);
    assert UrlCandidates(q) == UrlCandidates(p);
    assert PrimaryUrl(q) == PrimaryUrl(p);
    assert q.readmeContent == p.readmeContent && q.description == p.description;
    assert q.techStack == p.techStack && q.name == p.name;
    assert SmartDescription(q) == SmartDescription(p);
  }

  /** The map entries after the enrichment loop, in the same order and
    * under the same keys. */
  function EnrichAll(es: seq<Entry>, key: Option<string>, now: string): (r: seq<Entry>)
    ensures |r| == |es| && Keys(r) == Keys(es)
    ensures forall i :: 0 <= i < |es| ==> r[i] == Entry(es[i].key, Enrich(es[i].draft, key, now))
  {
    var r := seq(|es|, i requires 0 <= i < |es| => Entry(es[i].key, Enrich(es[i].draft, key, now)));
    assert Keys(r) == Keys(es);
    r
  }

  /** The drafts of the entries, in map order. */
  function Drafts(es: seq<Entry>): (ps: seq<Project>)
    ensures |ps| == |es|
  {
    seq(|es|, i requires 0 <= i < |es| => es[i].draft)
  }

  // ---------------------------------------------------------------------
  // Upsert accounting (route.ts:124-139)
  // ---------------------------------------------------------------------

  /** The datastore's answer to one `upsert(project, { onConflict: 'slug' })`:
    * saved, or an error (returned or thrown) with its message. */
  datatype UpsertOutcome = Saved | Failed(message: string)

  /** The `{project, error}` entries of the upsert loop, in map order. */
  function UpsertErrors(ps: seq<Project>, upsert: Project -> UpsertOutcome): (es: seq<SyncError>)
    ensures |es| <= |ps|
    ensures forall e :: e in es ==> e.ProjectError?
    decreases |ps|
  {
    if ps == [] then []
    else
      var n := |ps| - 1;
      UpsertErrors(ps[..n], upsert) +
        match upsert(ps[n])
        case Saved => []
        case Failed(m) => [ProjectError(ps[n].name, m)]
  }

  /** `projectsSynced` after the upsert loop. */
  function SyncedCount(ps: seq<Project>, upsert: Project -> UpsertOutcome): (n: nat)
    ensures n <= |ps|
    decreases |ps|
  {
    if ps == [] then 0
    else
      var n := |ps| - 1;
      SyncedCount(ps[..n], upsert) + (if upsert(ps[n]).Saved? then 1 else 0)
  }

  /** Upserting one more draft. */
  lemma UpsertSnoc(ps: seq<Project>, upsert: Project -> UpsertOutcome, i: nat)
    requires i < |ps|
    ensures SyncedCount(ps[..i + 1], upsert) == SyncedCount(ps[..i], upsert) + (if upsert(ps[i]).Saved? then 1 else 0)
    ensures UpsertErrors(ps[..i + 1], upsert) == UpsertErrors(ps[..i], upsert) +
      match upsert(ps[i]) case Saved => [] case Failed(m) => [ProjectError(ps[i].name, m)]
  {
    assert ps[..i + 1][..i] == ps[..i];
  }

  /** Every entry is counted once: as synced or as one error. */
  lemma {:induction false} UpsertAccounting(ps: seq<Project>, upsert: Project -> UpsertOutcome)
    ensures SyncedCount(ps, upsert) + |UpsertErrors(ps, upsert)| == |ps|
    decreases |ps|
  {
    if ps != [] {
      UpsertAccounting(ps[..|ps| - 1], upsert);
    }
  }

  /** The upsert loop reports no error exactly when every upsert succeeds,
    * and then every entry is counted as synced. */
  lemma {:induction false} UpsertErrorsFree(ps: seq<Project>, upsert: Project -> UpsertOutcome)
    ensures UpsertErrors(ps, upsert) == [] <==> forall i :: 0 <= i < |ps| ==> upsert(ps[i]).Saved?
    ensures UpsertErrors(ps, upsert) == [] ==> SyncedCount(ps, upsert) == |ps|
    decreases |ps|
  {
    UpsertAccounting(ps, upsert);
    if ps != [] {
      var n := |ps| - 1;
      UpsertErrorsFree(ps[..n], upsert);
      assert forall i :: 0 <= i < n ==> ps[..n][i] == ps[i];
    }
  }

  // ---------------------------------------------------------------------
  // Log and response (route.ts:141-156)
  // ---------------------------------------------------------------------

  /** The JSON body of the answer. */
  datatype SyncResponse = SyncResponse(success: bool, projectsSynced: nat, errors: seq<SyncError>, duration: int)

  /** The readings of `Date.now()` and `new Date().toISOString()` one run
    * makes: the start, the stamp written into each draft, and the end. */
  datatype Clock = Clock(startMs: int, startIso: string, stampIso: string, endMs: int, endIso: string)

  /** The `sync_logs` row of a manual run. */
  function BuildLog(synced: nat, errors: seq<SyncError>, clock: Clock): (log: SyncLog)
    ensures log.syncType == Manual && log.projectsSynced == synced
    ensures log.status == Error <==> |errors| > 0
    ensures log.errors.None? <==> errors == []
    ensures log.errors.Some? ==> log.errors.value == errors
    ensures log.startedAt == clock.startIso && log.completedAt == Some(clock.endIso)
  {
    SyncLog(Manual, if |errors| > 0 then Error else Success, synced,
            if |errors| > 0 then Some(errors) else None, clock.startIso, Some(clock.endIso))
  }

  /** Everything one run produces: the final map, the response and the log. */
  datatype SyncRun = SyncRun(entries: seq<Entry>, response: SyncResponse, log: SyncLog)

  /** One run on the given platform answers, upsert oracle, screenshot key
    * and clock. */
  function Sync(gh: Result<seq<GitHubProject>>, nl: Result<seq<NetlifyProject>>, vc: Result<seq<VercelProject>>,
                key: Option<string>, upsert: Project -> UpsertOutcome, clock: Clock): (run: SyncRun)
    ensures run.response.success
    ensures run.log.projectsSynced == run.response.projectsSynced
    ensures run.log.status == Error <==> |run.response.errors| > 0
    ensures run.log.errors.None? <==> run.response.errors == []
    ensures run.log.errors.Some? ==> run.log.errors.value == run.response.errors
    ensures run.response.duration == clock.endMs - clock.startMs
  {
    var entries := EnrichAll(Reconciled(Listed(gh), Listed(nl), Listed(vc), Lib), key, clock.stampIso);
    var saved := Drafts(entries);
    var synced := SyncedCount(saved, upsert);
    var errors := PlatformErrors(gh, nl, vc) + UpsertErrors(saved, upsert);
    SyncRun(entries, SyncResponse(true, synced, errors, clock.endMs - clock.startMs), BuildLog(synced, errors, clock))
  }

  /** The run's accounting: the platform errors come first, then one error
    * per failed upsert; synced entries and failed upserts together are the
    * final map, which holds at most one entry per scraped record, keyed by
    * slug, with every draft's primary URL chosen by `getPrimaryUrl`. */
  lemma SyncAccounting(gh: Result<seq<GitHubProject>>, nl: Result<seq<NetlifyProject>>, vc: Result<seq<VercelProject>>,
                       key: Option<string>, upsert: Project -> UpsertOutcome, clock: Clock)
    requires gh.Ok? ==> forall i :: 0 <= i < |gh.value| ==> gh.value[i].slug == Slug(gh.value[i].name)
    ensures var run := Sync(gh, nl, vc, key, upsert, clock);
      && |run.response.errors| >= |PlatformErrors(gh, nl, vc)|
      && run.response.errors[..|PlatformErrors(gh, nl, vc)|] == PlatformErrors(gh, nl, vc)
      && run.response.errors[|PlatformErrors(gh, nl, vc)|..] == UpsertErrors(Drafts(run.entries), upsert)
      && run.response.projectsSynced + (|run.response.errors| - |PlatformErrors(gh, nl, vc)|) == |run.entries|
      && |run.entries| <= |Listed(gh)| + |Listed(nl)| + |Listed(vc)|
      && DistinctKeys(run.entries)
      && (forall i :: 0 <= i < |run.entries| ==> run.entries[i].key == Slug(run.entries[i].draft.name))
      && forall i :: 0 <= i < |run.entries| ==> run.entries[i].draft.primaryUrl == PrimaryUrl(Reconciled(Listed(gh), Listed(nl), Listed(vc), Lib)[i].draft)
  {
    var run := Sync(gh, nl, vc, key, upsert, clock);
    var merged := Reconciled(Listed(gh), Listed(nl), Listed(vc), Lib);
    var saved := Drafts(run.entries);
    UpsertAccounting(saved, upsert);
    LibCoherent();
    GitHubKeyed(Listed(gh));
    ReconciledSpec(Listed(gh), Listed(nl), Listed(vc), Lib);
    forall i | 0 <= i < |run.entries| ensures run.entries[i].key == Slug(run.entries[i].draft.name) {
      EnrichSpec(merged[i].draft, key, clock.stampIso);
    }
    assert DistinctKeys(run.entries) by {
      assert Keys(run.entries) == Keys(merged);
      forall i, j | 0 <= i < j < |run.entries| ensures run.entries[i].key != run.entries[j].key {
        assert Keys(merged)[i] != Keys(merged)[j];
      }
    }
  }

  /** The GitHub records carry the slugs of their names under `Lib`. */
  lemma GitHubKeyed(gh: seq<GitHubProject>)
    requires forall i :: 0 <= i < |gh| ==> gh[i].slug == Slug(gh[i].name)
    ensures forall i :: 0 <= i < |gh| ==> gh[i].slug == Lib.slug(gh[i].name)
  {
  }

  // ---------------------------------------------------------------------
  // The handler, step by step over the in-place map
  // ---------------------------------------------------------------------

  /** The description reads none of the fields the enrichment writes. */
  lemma SmartDescriptionIgnoresUrls(p: Project, u: Option<string>)
    ensures SmartDescription(p.(primaryUrl := u)) == SmartDescription(p)
  {
    var q := p.(primaryUrl := u);
    assert q.readmeContent == p.readmeContent && q.description == p.description;
    assert q.techStack == p.techStack && q.name == p.name;
  }

  /** route.ts:39-44: every GitHub record set under its slug, with its
    * language names as tech stack. */
  method SeedMap(m: ProjectMap, gh: seq<GitHubProject>)
    requires m.Valid()
    modifies m
    ensures m.Valid()
    ensures m.Entries() == SetAll(old(m.Entries()), SeedEntries(gh))
  {
    ghost var e0 := m.Entries();
    ghost var ps := SeedEntries(gh);
    var i := 0;
    while i < |gh|
      invariant 0 <= i <= |gh|
      invariant m.Valid()
      invariant m.Entries() == SetAll(e0, ps[..i])
    {
      var ghProject := gh[i];
      m.Set(ghProject.slug, SeedDraft(ghProject));
      SetAllSnoc(e0, ps, i);
      i := i + 1;
    }
    assert ps[..i] == ps;
  }

  /** The body of a match-or-insert pass for one record (route.ts:49-72
    * for Netlify, 78-101 for Vercel): scan the map in insertion order and
    * merge into the first entry that is the same project, else set a new
    * entry under the record's slug. */
  method MatchOne(m: ProjectMap, rec: Incoming, id: Identity)
    requires m.Valid()
    modifies m
    ensures m.Valid()
    ensures m.Entries() == MatchStep(old(m.Entries()), rec, id)
  {
    var slug := id.slug(Name(rec));
    var matched := false;
    ghost var before := m.Entries();
    var j := 0;
    while j < |m.keys|
      invariant 0 <= j <= |m.keys|
      invariant m.Valid() && m.Entries() == before && !matched
      invariant FirstMatch(before, Name(rec), id.same, 0) == FirstMatch(before, Name(rec), id.same, j)
    {
      var project := m.drafts[m.keys[j]];
      assert before[j] == Entry(m.keys[j], project);
      if id.same(Name(rec), project.name) {
        m.Put(j, Merge(project, rec));
        matched := true;
        MatchStepAt(before, rec, id, j);
        break;
      }
      j := j + 1;
    }
    if !matched {
      MatchStepNone(before, rec, id);
      m.Set(slug, Insert(rec, id.slug));
    }
  }

  /** One match-or-insert pass (route.ts:47-73 for Netlify, 76-102 for
    * Vercel): every record in order. */
  method MatchPass(m: ProjectMap, recs: seq<Incoming>, id: Identity)
    requires m.Valid()
    modifies m
    ensures m.Valid()
    ensures m.Entries() == MatchAll(old(m.Entries()), recs, id)
  {
    ghost var e0 := m.Entries();
    var i := 0;
    while i < |recs|
      invariant 0 <= i <= |recs|
      invariant m.Valid()
      invariant m.Entries() == MatchAll(e0, recs[..i], id)
    {
      MatchOne(m, recs[i], id);
      MatchAllSnoc(e0, recs, id, i);
      i := i + 1;
    }
    assert recs[..i] == recs;
  }

  /** The field writes on one draft (route.ts:108-122), in source order. */
  method EnrichDraft(p: Project, key: Option<string>, now: string) returns (project: Project)
    ensures project == Enrich(p, key, now)
  {
    project := p;
    project := project.(primaryUrl := PrimaryUrl(project));
    if Truthy(project.readmeContent) || Truthy(project.description) {
      SmartDescriptionIgnoresUrls(p, project.primaryUrl);
      project := project.(aiDescription := Some(SmartDescription(project)));
    }
    if WantsScreenshot(project.primaryUrl, project.githubUrl) {
      project := project.(screenshotUrl := Some(ScreenshotUrl(key, project.primaryUrl.value)),
                          screenshotUpdatedAt := Some(now));
    }
    project := project.(lastSyncedAt := Some(now));
  }

  /** Enriching the draft at position `i` of the map in place. */
  method EnrichAt(m: ProjectMap, i: nat, key: Option<string>, now: string) returns (project: Project)
    requires m.Valid() && i < |m.keys|
    modifies m
    ensures m.Valid() && m.keys == old(m.keys)
    ensures project == Enrich(old(m.Entries())[i].draft, key, now)
    ensures m.Entries() == old(m.Entries())[i := Entry(old(m.keys)[i], project)]
  {
    project := m.drafts[m.keys[i]];
    assert Entry(m.keys[i], project) == m.Entries()[i];
    project := EnrichDraft(project, key, now);
    m.Put(i, project);
  }

  /** One upsert of the loop (route.ts:124-139): a success adds one to the
    * count, a failure appends the project's error; the tallies then cover
    * the drafts upserted so far, `done`, and this one. */
  method UpsertOne(project: Project, ghost done: seq<Project>, upsert: Project -> UpsertOutcome,
                   synced: nat, ghost errors0: seq<SyncError>, errors: seq<SyncError>)
    returns (synced': nat, errors': seq<SyncError>)
    requires synced == SyncedCount(done, upsert)
    requires errors == errors0 + UpsertErrors(done, upsert)
    ensures synced' == SyncedCount(done + [project], upsert)
    ensures errors' == errors0 + UpsertErrors(done + [project], upsert)
  {
    assert (done + [project])[..|done|] == done;
    synced', errors' := synced, errors;
    match upsert(project) {
      case Saved =>
        synced' := synced + 1;
      case Failed(message) =>
        errors' := errors + [ProjectError(project.name, message)];
    }
  }

  /** One iteration of the enrichment and upsert loop: the draft at `i`
    * is enriched in place and upserted, so that the first `i + 1` entries
    * are enriched and the tallies cover their upserts. */
  method UpsertStep(m: ProjectMap, i: nat, key: Option<string>, now: string, upsert: Project -> UpsertOutcome,
                    synced: nat, errors: seq<SyncError>, ghost e0: seq<Entry>, ghost errors0: seq<SyncError>)
    returns (synced': nat, errors': seq<SyncError>)
    requires m.Valid() && i < |m.keys| == |e0|
    requires m.Entries() == EnrichAll(e0, key, now)[..i] + e0[i..]
    requires synced == SyncedCount(Drafts(EnrichAll(e0, key, now))[..i], upsert)
    requires errors == errors0 + UpsertErrors(Drafts(EnrichAll(e0, key, now))[..i], upsert)
    modifies m
    ensures m.Valid() && |m.keys| == |e0|
    ensures m.Entries() == EnrichAll(e0, key, now)[..i + 1] + e0[i + 1..]
    ensures synced' == SyncedCount(Drafts(EnrichAll(e0, key, now))[..i + 1], upsert)
    ensures errors' == errors0 + UpsertErrors(Drafts(EnrichAll(e0, key, now))[..i + 1], upsert)
  {
    ghost var target := EnrichAll(e0, key, now);
    ghost var saved := Drafts(target);
    var project := EnrichAt(m, i, key, now);
    assert target[i] == Entry(m.keys[i], project) && saved[i] == project;
    SpliceStep(target, e0, i);
    synced', errors' := UpsertOne(project, saved[..i], upsert, synced, errors0, errors);
    assert saved[..i + 1] == saved[..i] + [project];
  }

  /** The loop's state once every entry has been visited. */
  lemma UpsertPassDone(e0: seq<Entry>, key: Option<string>, now: string)
    ensures EnrichAll(e0, key, now)[..|e0|] + e0[|e0|..] == EnrichAll(e0, key, now)
    ensures Drafts(EnrichAll(e0, key, now))[..|e0|] == Drafts(EnrichAll(e0, key, now))
  {
    var target := EnrichAll(e0, key, now);
    assert target[..|e0|] == target && e0[|e0|..] == [];
  }

  /** The enrichment and upsert loop (route.ts:105-139): each draft is
    * enriched in place, then upserted; a success is counted, a failure
    * appended to `errors` under the project's name. */
  method UpsertPass(m: ProjectMap, key: Option<string>, now: string, upsert: Project -> UpsertOutcome, errors0: seq<SyncError>)
    returns (synced: nat, errors: seq<SyncError>)
    requires m.Valid()
    modifies m
    ensures m.Valid()
    ensures m.Entries() == EnrichAll(old(m.Entries()), key, now)
    ensures synced == SyncedCount(Drafts(m.Entries()), upsert)
    ensures errors == errors0 + UpsertErrors(Drafts(m.Entries()), upsert)
  {
    ghost var e0 := m.Entries();
    synced := 0;
    errors := errors0;
    var i := 0;
    while i < |m.keys|
      invariant 0 <= i <= |m.keys| == |e0|
      invariant m.Valid()
      invariant m.Entries() == EnrichAll(e0, key, now)[..i] + e0[i..]
      invariant synced == SyncedCount(Drafts(EnrichAll(e0, key, now))[..i], upsert)
      invariant errors == errors0 + UpsertErrors(Drafts(EnrichAll(e0, key, now))[..i], upsert)
    {
      synced, errors := UpsertStep(m, i, key, now, upsert, synced, errors, e0, errors0);
      i := i + 1;
    }
    UpsertPassDone(e0, key, now);
  }

  /** `scrapeGitHub().catch(...)` (route.ts:18-22): the records, or none
    * and the platform error appended. */
  method CaughtGitHub(github: Result<seq<Repo>>, fetch: Repo -> Result<RepoDetails>, daysSince: string -> int,
                      errors: seq<SyncError>)
    returns (projects: seq<GitHubProject>, errors': seq<SyncError>)
    ensures projects == Listed(GitHubOutcome(github, fetch, daysSince))
    ensures errors' == errors + Captured(GitHub, GitHubOutcome(github, fetch, daysSince))
  {
    var r := ScrapeGitHub(github, fetch, daysSince);
    projects, errors' := [], errors;
    if r.Err? {
      errors' := errors + [PlatformError(GitHub, r.message)];
    } else {
      projects := r.value;
    }
  }

  /** `scrapeNetlify().catch(...)` (route.ts:24-27). */
  method CaughtNetlify(netlify: Result<seq<NetlifySite>>, errors: seq<SyncError>)
    returns (projects: seq<NetlifyProject>, errors': seq<SyncError>)
    ensures projects == Listed(NetlifyOutcome(netlify))
    ensures errors' == errors + Captured(Netlify, NetlifyOutcome(netlify))
  {
    var r := ScrapeNetlify(netlify);
    projects, errors' := [], errors;
    if r.Err? {
      errors' := errors + [PlatformError(Netlify, r.message)];
    } else {
      projects := r.value;
      assert projects == NetlifyOutcome(netlify).value;
    }
  }

  /** `scrapeVercel().catch(...)` (route.ts:30-33). */
  method CaughtVercel(vercel: Result<VercelResponse>, errors: seq<SyncError>)
    returns (projects: seq<VercelProject>, errors': seq<SyncError>)
    ensures projects == Listed(VercelOutcome(vercel))
    ensures errors' == errors + Captured(Vercel, VercelOutcome(vercel))
  {
    var r := ScrapeVercel(vercel);
    projects, errors' := [], errors;
    if r.Err? {
      errors' := errors + [PlatformError(Vercel, r.message)];
    } else {
      projects := r.value;
      assert projects == VercelOutcome(vercel).value;
    }
  }

  /** route.ts:36-103: a new map, seeded from GitHub, then the Netlify and
    * the Vercel pass. */
  method BuildMap(gh: seq<GitHubProject>, nl: seq<NetlifyProject>, vc: seq<VercelProject>) returns (m: ProjectMap)
    ensures fresh(m) && m.Valid()
    ensures m.Entries() == Reconciled(gh, nl, vc, Lib)
  {
    m := new ProjectMap();
    SeedMap(m, gh);
    MatchPass(m, NetlifyIncoming(nl), Lib);
    MatchPass(m, VercelIncoming(vc), Lib);
  }

  /** `POST()`: the whole run. The platform answers, the upsert oracle, the
    * screenshot key and the clock readings are its inputs; the response and
    * the log row are what it produces. */
  method SyncAll(github: Result<seq<Repo>>, fetch: Repo -> Result<RepoDetails>, daysSince: string -> int,
                 netlify: Result<seq<NetlifySite>>, vercel: Result<VercelResponse>,
                 key: Option<string>, upsert: Project -> UpsertOutcome, clock: Clock)
    returns (response: SyncResponse, log: SyncLog, ghost upserted: seq<Entry>)
    ensures var run := Sync(GitHubOutcome(github, fetch, daysSince), NetlifyOutcome(netlify), VercelOutcome(vercel), key, upsert, clock);
      response == run.response && log == run.log
    ensures upserted == Sync(GitHubOutcome(github, fetch, daysSince), NetlifyOutcome(netlify), VercelOutcome(vercel), key, upsert, clock).entries
  {
    var errors: seq<SyncError> := [];
    var githubProjects, netlifyProjects, vercelProjects;
    githubProjects, errors := CaughtGitHub(github, fetch, daysSince, errors);
    netlifyProjects, errors := CaughtNetlify(netlify, errors);
    vercelProjects, errors := CaughtVercel(vercel, errors);
    ghost var gh, nl, vc := GitHubOutcome(github, fetch, daysSince), NetlifyOutcome(netlify), VercelOutcome(vercel);
    assert errors == PlatformErrors(gh, nl, vc);
    var projectMap := BuildMap(githubProjects, netlifyProjects, vercelProjects);
    var projectsSynced;
    projectsSynced, errors := UpsertPass(projectMap, key, clock.stampIso, upsert, errors);
    log := BuildLog(projectsSynced, errors, clock);
    response := SyncResponse(true, projectsSynced, errors, clock.endMs - clock.startMs);
    upserted := projectMap.Entries();
  }
}
