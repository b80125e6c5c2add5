/** Shared data model: the record shapes of types/project.ts, plus the
  * small wrappers (optional values, failures) that stand in for JavaScript's
  * `undefined`, `null` and thrown errors. */
module Types {

  /** A JavaScript value that may be `undefined` or `null`. */
  datatype Option<+T> = None | Some(value: T)

  /** The outcome of a call that may throw: the value, or the error's message. */
  datatype Result<+T> = Ok(value: T) | Err(message: string)

  /** JavaScript truthiness of an optional string: present and non-empty. */
  predicate Truthy(s: Option<string>) {
    s.Some? && s.value != ""
  }

  /** `a || b` on two optional strings. */
  function OrElse(a: Option<string>, b: Option<string>): (r: Option<string>)
    ensures Truthy(a) ==> r == a
    ensures !Truthy(a) ==> r == b
  {
    if Truthy(a) then a else b
  }

  datatype ProductionStage = Production | Staging | Development | Archived
  datatype CurrentStatus = Active | Paused | Broken | NeedsUpdate

  /** The string literal each stage is stored and compared as. */
  function StageName(s: ProductionStage): string {
    match s
    case Production => "Production"
    case Staging => "Staging"
    case Development => "Development"
    case Archived => "Archived"
  }

  /** The string literal each status is stored and compared as. */
  function StatusName(s: CurrentStatus): string {
    match s
    case Active => "Active"
    case Paused => "Paused"
    case Broken => "Broken"
    case NeedsUpdate => "Needs Update"
  }

  /** An ordered JSON object `{ language: bytes }` as GitHub returns it. */
  type Languages = seq<(string, int)>

  /** `Object.keys` of a language breakdown, in insertion order. */
  function LanguageNames(langs: Languages): (r: seq<string>)
    ensures |r| == |langs|
    ensures forall i :: 0 <= i < |r| ==> r[i] == langs[i].0
  {
    seq(|langs|, i requires 0 <= i < |langs| => langs[i].0)
  }

  /** A project row (the `Project` interface), also used for the loosely
    * typed draft objects the sync builds before upserting them: every field
    * a draft may lack is optional. */
  datatype Project = Project(
    id: Option<string>,
    name: string,
    slug: string,
    tagline: Option<string>,
    description: Option<string>,
    githubUrl: Option<string>,
    netlifyUrl: Option<string>,
    vercelUrl: Option<string>,
    streamlitUrl: Option<string>,
    tiinyUrl: Option<string>,
    customDomain: Option<string>,
    primaryUrl: Option<string>,
    productionStage: Option<ProductionStage>,
    currentStatus: Option<CurrentStatus>,
    isPublic: Option<bool>,
    techStack: Option<seq<string>>,
    githubStars: Option<int>,
    githubLanguages: Option<Languages>,
    githubTopics: Option<seq<string>>,
    readmeContent: Option<string>,
    lastCommitDate: Option<string>,
    isPrivate: Option<bool>,
    screenshotUrl: Option<string>,
    screenshotUpdatedAt: Option<string>,
    aiDescription: Option<string>,
    lastDeployedAt: Option<string>,
    lastSyncedAt: Option<string>
  )

  /** A draft with only a name and a slug; every other field is absent. */
  function BareProject(name: string, slug: string): (p: Project)
    ensures p.name == name && p.slug == slug && p.id.None? && p.isPublic.None?
  {
    Project(None, name, slug, None, None, None, None, None, None, None, None, None,
            None, None, None, None, None, None, None, None, None, None, None, None,
            None, None, None)
  }

  datatype Platform = GitHub | Netlify | Vercel

  /** One entry of a sync run's error list: `{platform, error}` for a failed
    * scrape, `{project, error}` for a failed upsert. */
  datatype SyncError =
    | PlatformError(platform: Platform, error: string)
    | ProjectError(project: string, error: string)

  datatype SyncType = Manual | Cron
  datatype SyncStatus = Success | Error

  /** A row of the append-only `sync_logs` table (the datastore assigns `id`). */
  datatype SyncLog = SyncLog(
    syncType: SyncType,
    status: SyncStatus,
    projectsSynced: nat,
    errors: Option<seq<SyncError>>,
    startedAt: string,
    completedAt: Option<string>
  )
}
