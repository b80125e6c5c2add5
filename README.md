# Portfolio sync pipeline in Dafny

This project models the portfolio dashboard's cross-platform sync, `POST /api/scrape/all`. The run does four things:

- It scrapes the GitHub organisation, the Netlify sites and the Vercel projects. A failing platform is recorded as a platform error and contributes no records.
- It builds an insertion-ordered JavaScript `Map` of project drafts. The map is seeded from GitHub. Each Netlify record, then each Vercel record, is merged into the first entry that is the same project. When no entry matches, the record is inserted under its own slug.
- It enriches every draft and upserts it to the datastore. Each success is counted and each failure is collected as a per-project error.
- It writes one sync log and answers with the totals.

The helpers the run relies on are modelled with it:

- the slug and same-project rules, the primary-URL choice and the tech-stack detection (`lib/utils.ts`);
- the README description extraction (`lib/ai-description.ts`);
- the three per-platform record mappings (`lib/scrapers/*.ts`);
- the screenshot request URL (`lib/screenshot.ts`).

Three small pieces of the user interface are modelled too:

- the admin dashboard's filter and its id-keyed list updates;
- the public page's stage filter;
- the sync-log duration text.

Modules, one per source file:

| module | file | models |
|---|---|---|
| `Types` | `types.dfy` | `types/project.ts`: stages, statuses, the project row, the sync log, JS truthiness |
| `JsText` | `jstext.dfy` | the JavaScript string and array built-ins the sources call: `toLowerCase` (ASCII), `includes`, `trim`, `split`, `join`, number printing, `filter` |
| `Utils` | `utils.dfy` | `lib/utils.ts` |
| `AiDescription` | `ai_description.dfy` | `lib/ai-description.ts` |
| `GitHubScraper`, `NetlifyScraper`, `VercelScraper` | `github.dfy`, `netlify.dfy`, `vercel.dfy` | `lib/scrapers/*.ts` |
| `Screenshot` | `screenshot.dfy` | `lib/screenshot.ts` |
| `ProjectMaps` | `project_map.dfy` | the JavaScript `Map` of `route.ts`, as a class updated in place |
| `Reconcile` | `reconcile.dfy` | the seeding and the match-or-insert passes of `route.ts`, as functions |
| `ScrapeAll` | `scrape_all.dfy` | the `POST` handler of `route.ts`: its loops as methods, proved against the functions of `Reconcile` and of this module |
| `AdminPage`, `HomePage`, `SyncLogsModal` | `admin_page.dfy`, `home_page.dfy`, `sync_logs_modal.dfy` | `app/admin/page.tsx`, `app/page.tsx`, `components/SyncLogsModal.tsx` |

How the model represents the system:

- **The project map.** The map is a `ProjectMap` object whose `Set` and `Put` methods change it in place. Its abstract value is the sequence of `[slug, draft]` entries in insertion order. `set` on a present key replaces that entry where it stands; `set` on a new key appends.
- **The passes.** Each pass is a method whose loop is proved equal to a function (`MatchAll`, `EnrichAll`). The properties are proved about those functions.
- **Identity.** The passes take the pair (`generateSlug`, `isSameProject`) as a parameter `Identity`, and the sync uses `Lib`, the pair from `Utils`. The facts about the passes are proved for every pair in which equal slugs match. `LibCoherent` proves that `Lib` is such a pair.
- **Inputs.** The platform answers, the datastore upsert, the screenshot API key and the clock readings are all inputs of the run.

## Model

| member | source | states |
|---|---|---|
| `Types.OrElse` | lib/scrapers/netlify.ts:24 | `a \|\| b` on optional strings: the first truthy value, else the second |
| `Utils.Slug` | lib/utils.ts:4-9 | `generateSlug` yields only `[a-z0-9-]`, with no doubled hyphen and no leading or trailing hyphen |
| `Utils.SlugIdempotent` | lib/utils.ts:4-9 | slugging a slug gives it back |
| `Utils.SlugFixesSlugs` | lib/utils.ts:4-9 | every string already in slug form is its own slug |
| `Utils.HyphenateShape` | lib/utils.ts:6-7 | replacing every run of other characters by one hyphen leaves no doubled hyphen and keeps a leading slug character |
| `Utils.TrimHyphensShape` | lib/utils.ts:8 | trimming the edge hyphens of a hyphenated string gives a slug |
| `Utils.SameProjectBasics` | lib/utils.ts:14-22 | `isSameProject` is reflexive and symmetric, and holds when the slugs are equal or one contains the other |
| `Utils.EmptySlugMatchesAll` | lib/utils.ts:22 | a name with an empty slug matches every name, in both argument orders |
| `Utils.SuffixVariantsMatch` | lib/utils.ts:25-28 | names whose slugs agree once one generic suffix (`-app`, `-tool`, …) is removed match |
| `Utils.StripGenericSuffix` | lib/utils.ts:25-26 | removing the suffix leaves a prefix of the slug |
| `Utils.PrimaryUrl` | lib/utils.ts:34-44 | the first truthy of custom domain, Netlify, Vercel, Streamlit, Tiiny and GitHub URL, and none exactly when all six are empty or absent |
| `Utils.ManifestOf` | lib/utils.ts:49-51 | `package.json` is parsed, `requirements.txt` is read as text, and any other file name yields no stack |
| `Utils.PackageStack` | lib/utils.ts:52-66 | the push sequence over `package.json` dependencies yields the labels of the passing checks, in check order |
| `Utils.RequirementsStack` | lib/utils.ts:67-73 | the push sequence over `requirements.txt` yields the labels of the words the file includes, in check order |
| `Utils.ExtractTechStack` | lib/utils.ts:49-76 | `extractTechStack` computes `TechStack`, and it is empty for an unknown file or invalid JSON |
| `Utils.TechStackSpec` | lib/utils.ts:49-76 | the stack has no duplicates; it holds a label exactly when its dependency or word is present; and it lists labels in check order |
| `Utils.DetectedMembers` | lib/utils.ts:57-63 | a label is detected exactly when one of its checks passes |
| `Utils.DetectedOrdered` | lib/utils.ts:57-63 | the detected labels are a subsequence of the check labels |
| `Utils.DetectedDistinct` | lib/utils.ts:57-63 | distinct check labels give a duplicate-free stack |
| `AiDescription.BadgesKeepLineBreaks` | lib/ai-description.ts:6 | removing `![..](..)` badges, which never span a line, keeps every line break |
| `AiDescription.StripBadgesNoop` | lib/ai-description.ts:6 | a README without `![` is left unchanged by badge removal |
| `AiDescription.StripCommentsNoop` | lib/ai-description.ts:9 | a README without `<!--` is left unchanged by comment removal |
| `AiDescription.ReadmeLines` | lib/ai-description.ts:12 | every line scanned is non-blank and holds no line break |
| `AiDescription.MainScan` | lib/ai-description.ts:15-32 | the scan stops at the first non-header line whose JavaScript `length` (UTF-16 code units) exceeds 50, or at the first non-header line that mentions install, setup or getting started; every line before it is a header or a short line |
| `AiDescription.FirstParagraph` | lib/ai-description.ts:35 | the fallback is the first non-header line whose `length` in UTF-16 code units exceeds 20, over all lines |
| `AiDescription.DescriptionFromLines` | lib/ai-description.ts:15-36 | the scan's line trimmed, else the fallback line untrimmed, else `""`, which is returned exactly when neither exists |
| `AiDescription.ExtractDescriptionFromReadme` | lib/ai-description.ts:4-37 | the loop with `continue`, `break` and the early return computes `DescriptionFromReadme` |
| `AiDescription.SmartDescription` | lib/ai-description.ts:42-60 | the description is never empty. Each step is taken exactly when every earlier one gives nothing: a non-empty README extraction; then a truthy description, also when the README yields nothing; then `A ` + the stack joined with `, ` + ` project` for a non-empty stack; then `<name> project` for an absent or empty stack |
| `GitHubScraper.ClassifyStage` | lib/scrapers/github.ts:65-72 | Archived exactly when the repository is archived or idle for more than 90 days; otherwise Production exactly for a `main` or `master` default branch, else Development; never Staging |
| `GitHubScraper.ClassifyStatus` | lib/scrapers/github.ts:75-80 | Active exactly when idle for at most 30 days, Paused otherwise |
| `GitHubScraper.BuildRecord` | lib/scrapers/github.ts:59-95 | the slug of the name; the last commit date falling back to `updated_at`; stage and status from that date; the description absent when empty; stars default 0; the topics, or `[]` when absent; the `html_url` and the private flag copied |
| `GitHubScraper.ProcessRepos` | lib/scrapers/github.ts:32-99 | at most one record per repository, each keyed by the slug of its name |
| `GitHubScraper.ProcessReposAppend` | lib/scrapers/github.ts:32-99 | the records of a listing are those of its parts, concatenated: a failing repository affects no other |
| `GitHubScraper.ProcessReposAllFetched` | lib/scrapers/github.ts:32-95 | when every repository's calls succeed, record `k` is built from repository `k` |
| `GitHubScraper.ProcessReposSkipsFailure` | lib/scrapers/github.ts:96-98 | a repository whose calls throw contributes nothing |
| `GitHubScraper.ScrapeGitHub` | lib/scrapers/github.ts:21-105 | a failed listing is rethrown; otherwise the loop returns `ProcessRepos` of the listing |
| `NetlifyScraper.NetlifyRecord` | lib/scrapers/netlify.ts:22-28 | `ssl_url` when truthy, else `url`; the custom domain only when non-empty; the publish time, else `updated_at`; Active exactly for a `ready` deploy, else Broken |
| `NetlifyScraper.ScrapeNetlify` | lib/scrapers/netlify.ts:21-35 | one record per site, in order; any failure rethrown, never a partial list |
| `VercelScraper.First` | lib/scrapers/vercel.ts:22 | `xs?.[0]` is present exactly for a non-empty list and is its head |
| `VercelScraper.VercelRecordSpec` | lib/scrapers/vercel.ts:21-28 | an HTTPS address on the first production alias, else on `<name>.vercel.app`; the custom domain exactly when an alias exists, as `https://` plus that alias; `updatedAt` as deploy time |
| `VercelScraper.ListedProjects` | lib/scrapers/vercel.ts:20 | a missing `projects` field lists nothing |
| `VercelScraper.ScrapeVercel` | lib/scrapers/vercel.ts:14-36 | one record per listed project, in order; any failure rethrown |
| `Screenshot.EncodeUriComponent` | lib/screenshot.ts:5 | the encoded address holds only unreserved characters and `%` escapes, and an address already unreserved is unchanged |
| `Screenshot.DecodeEncodeAscii` | lib/screenshot.ts:5 | decoding the encoded form of an ASCII address gives it back |
| `Screenshot.ScreenshotUrl` | lib/screenshot.ts:1-18 | the URL starts with the endpoint, `access_key=` and the key |
| `Screenshot.ScreenshotQuery` | lib/screenshot.ts:2-16 | with a key free of `&`, the URL is the endpoint followed by `Parameters` joined with `&`, and splitting that query on `&` gives back exactly `access_key=<key>`, `url=<encoded address>` and the fixed rendering and caching parameters in order. The address therefore cannot add or override a parameter |
| `Screenshot.StoredScreenshotAsWritten` | app/api/scrape/all/route.ts:117 | as written, the value stored is never a URL string |
| `Screenshot.StoredScreenshot` | app/api/scrape/all/route.ts:117 | with the call awaited, the stored value is the screenshot URL |
| `Screenshot.ScreenshotPromiseIsLost` | app/api/scrape/all/route.ts:117 | the as-written value differs from every stored URL |
| `ProjectMaps.IndexOf` | app/api/scrape/all/route.ts:36 | the first position of a key, or none when the key is absent |
| `ProjectMaps.Lookup` | app/api/scrape/all/route.ts:36 | `map.get` finds a draft exactly for a key present in the map |
| `ProjectMaps.SetEntry` | app/api/scrape/all/route.ts:40 | `map.set` keeps a present key in place and appends a new one; it leaves other entries alone and keeps keys distinct |
| `ProjectMaps.SetEntryOthers` | app/api/scrape/all/route.ts:40 | setting a key leaves every other key's draft as it was |
| `ProjectMaps.SetAllKeys` | app/api/scrape/all/route.ts:39-44 | after a run of `set` calls, the keys are the old ones and the new ones |
| `ProjectMaps.SetAllLastWins` | app/api/scrape/all/route.ts:39-44 | a key is left with the draft of the last `set` on it |
| `ProjectMaps.ProjectMap.constructor` | app/api/scrape/all/route.ts:36 | `new Map()` is empty |
| `ProjectMaps.ProjectMap.Set` | app/api/scrape/all/route.ts:40 | the object's entries become `SetEntry` of the old ones |
| `ProjectMaps.ProjectMap.Put` | app/api/scrape/all/route.ts:53-55 | writing a draft's fields in place changes only that entry, under the same key |
| `Reconcile.LibCoherent` | lib/utils.ts:14-19 | equal slugs match under `isSameProject` |
| `Reconcile.SeedDraft` | app/api/scrape/all/route.ts:40-43 | a GitHub record spread into a draft with its language names as tech stack |
| `Reconcile.Seed` | app/api/scrape/all/route.ts:39-44 | seeding leaves distinct keys, at most one entry per GitHub record |
| `Reconcile.SeedKeys` | app/api/scrape/all/route.ts:39-44 | the seeded keys are exactly the GitHub slugs |
| `Reconcile.SeedLastWins` | app/api/scrape/all/route.ts:39-44 | a later GitHub record with the same slug replaces the earlier one |
| `Reconcile.SeedKeyed` | app/api/scrape/all/route.ts:39-44 | every seeded entry is filed under the slug of its name |
| `Reconcile.Merge` | app/api/scrape/all/route.ts:53-55 | on a match the platform URL is overwritten and a non-empty incoming custom domain wins. Netlify always writes its deploy time; Vercel writes it only when present. Nothing else changes |
| `Reconcile.MergeIdempotent` | app/api/scrape/all/route.ts:82-84 | merging the same record twice equals merging it once |
| `Reconcile.Insert` | app/api/scrape/all/route.ts:61-72 | an unmatched record becomes a private Production draft under its own slug, with Netlify's status or Active for Vercel |
| `Reconcile.FirstMatchSpec` | app/api/scrape/all/route.ts:51-59 | the scan finds the leftmost entry that is the same project, and finds none only when no entry matches |
| `Reconcile.UnmatchedSlugIsNew` | app/api/scrape/all/route.ts:61-62 | when every key is the slug of its name, an unmatched name's slug is not yet a key, so the insert never overwrites |
| `Reconcile.MatchStep` | app/api/scrape/all/route.ts:49-72 | a record updates at most one entry, the first match, or appends one new entry under its slug |
| `Reconcile.MatchStepAt` | app/api/scrape/all/route.ts:80-88 | a matched record rewrites the matching entry in place |
| `Reconcile.MatchStepNone` | app/api/scrape/all/route.ts:90-101 | an unmatched record is set under its own slug |
| `Reconcile.MatchStepKeyed` | app/api/scrape/all/route.ts:47-102 | a step keeps every entry under the slug of its name |
| `Reconcile.MatchAllSpec` | app/api/scrape/all/route.ts:47-102 | a pass never removes or reorders entries and adds at most one per record. It keeps keys distinct and every entry under the slug of its name |
| `Reconcile.InsertVisibleToLaterRecords` | app/api/scrape/all/route.ts:47-73 | a record inserted earlier in a pass is matched by a later record of the same pass |
| `Reconcile.ReconciledSpec` | app/api/scrape/all/route.ts:36-102 | the final map keeps every GitHub key and holds at most one entry per scraped record. Its keys are distinct, each the slug of its entry's name |
| `ScrapeAll.Listed` | app/api/scrape/all/route.ts:18-33 | a failed scrape contributes an empty list, a successful one its records |
| `ScrapeAll.Captured` | app/api/scrape/all/route.ts:19 | a failed scrape appends exactly one `{platform, error}` entry, a successful one none |
| `ScrapeAll.PlatformErrors` | app/api/scrape/all/route.ts:18-33 | only platform errors, one per failed scrape |
| `ScrapeAll.PlatformErrorsExact` | app/api/scrape/all/route.ts:18-33 | exactly one entry per failing platform, naming it with its message; none for a succeeding one |
| `ScrapeAll.CaughtGitHub` | app/api/scrape/all/route.ts:18-22 | the GitHub records, or none with the error appended |
| `ScrapeAll.CaughtNetlify` | app/api/scrape/all/route.ts:24-27 | the Netlify records, or none with the error appended |
| `ScrapeAll.CaughtVercel` | app/api/scrape/all/route.ts:30-33 | the Vercel records, or none with the error appended |
| `ScrapeAll.SeedMap` | app/api/scrape/all/route.ts:39-44 | the seeding loop sets every GitHub draft in order |
| `ScrapeAll.MatchOne` | app/api/scrape/all/route.ts:48-72 | the scan with its `matched` flag and `break`, then the insert, computes `MatchStep` on the map in place |
| `ScrapeAll.MatchPass` | app/api/scrape/all/route.ts:47-102 | the Netlify or Vercel loop computes `MatchAll` on the map in place |
| `ScrapeAll.BuildMap` | app/api/scrape/all/route.ts:36-102 | the new map ends as `Reconciled` of the three lists |
| `ScrapeAll.EnrichSpec` | app/api/scrape/all/route.ts:108-122 | the primary URL is `getPrimaryUrl`, and the sync time is always written. The AI description is written exactly when a README or description is truthy. The screenshot is written exactly when the primary URL is not inside the GitHub URL. Nothing else changes |
| `ScrapeAll.EnrichStable` | app/api/scrape/all/route.ts:108-122 | enriching twice at the same time equals enriching once |
| `ScrapeAll.SmartDescriptionIgnoresUrls` | app/api/scrape/all/route.ts:108-112 | writing the primary URL first does not change the description |
| `ScrapeAll.EnrichDraft` | app/api/scrape/all/route.ts:108-122 | the field writes in source order compute `Enrich`, which stores the awaited screenshot URL (the corrected line 117, see Findings) |
| `ScrapeAll.EnrichAll` | app/api/scrape/all/route.ts:105-122 | every entry is enriched, in order, under the same key |
| `ScrapeAll.EnrichAt` | app/api/scrape/all/route.ts:105-122 | the draft at one position is enriched in place and nothing else changes |
| `ScrapeAll.UpsertErrors` | app/api/scrape/all/route.ts:131-138 | only project errors, at most one per draft |
| `ScrapeAll.SyncedCount` | app/api/scrape/all/route.ts:134 | at most one success per draft |
| `ScrapeAll.UpsertSnoc` | app/api/scrape/all/route.ts:125-138 | one more upsert adds one success or one error |
| `ScrapeAll.UpsertAccounting` | app/api/scrape/all/route.ts:105-139 | successes plus per-project errors equal the number of entries |
| `ScrapeAll.UpsertErrorsFree` | app/api/scrape/all/route.ts:131-135 | no per-project error exactly when every upsert succeeds, and then all are counted |
| `ScrapeAll.UpsertOne` | app/api/scrape/all/route.ts:125-138 | an upsert adds one to the count or appends the project's error |
| `ScrapeAll.UpsertStep` | app/api/scrape/all/route.ts:105-139 | one iteration enriches one more entry and extends the tallies by its upsert |
| `ScrapeAll.UpsertPass` | app/api/scrape/all/route.ts:105-139 | the loop leaves `EnrichAll` of the map, with the count and the errors of upserting its drafts |
| `ScrapeAll.BuildLog` | app/api/scrape/all/route.ts:142-149 | a manual log whose status is error exactly when there are errors, and whose `errors` is null exactly when there are none; the synced count and the two times |
| `ScrapeAll.Sync` | app/api/scrape/all/route.ts:142-156 | the response reports success with the log's count and the elapsed milliseconds; the log's status is error exactly when there are errors, and its error list, when present, is the response's error list |
| `ScrapeAll.SyncAccounting` | app/api/scrape/all/route.ts:18-156 | platform errors come first, then the upsert errors. Successes plus upsert errors equal the final entries, at most one per scraped record, with distinct keys, each the slug of its name. Every draft's primary URL is `getPrimaryUrl` |
| `ScrapeAll.GitHubKeyed` | lib/scrapers/github.ts:83 | GitHub records carry the slug of their name under `Lib` |
| `ScrapeAll.SyncAll` | app/api/scrape/all/route.ts:10-156 | the handler's response and log are those of `Sync` on the three scrape outcomes, and the map it upserted from is `Sync`'s map |
| `AdminPage.KeptSpec` | app/admin/page.tsx:180-202 | a project is shown exactly when it passes every filter: visibility, status, stage and a case-insensitive search of name, tagline and description |
| `AdminPage.FilteredSpec` | app/admin/page.tsx:180-202 | the shown list is exactly the kept projects, in their original order, each as many times as it occurs in the list |
| `AdminPage.NoFilterShowsAll` | app/admin/page.tsx:182-199 | with no filter set, every project is shown |
| `AdminPage.VisibilityPartition` | app/admin/page.tsx:182-183 | the public and private views are disjoint and together make up the unfiltered view |
| `AdminPage.MapById` | app/admin/page.tsx:99-101 | only projects with the id are changed; length and the others are kept |
| `AdminPage.ToggleSpec` | app/admin/page.tsx:99-101 | toggling sets the opposite flag on the matching project only, with its other fields kept |
| `AdminPage.ToggleTwice` | app/admin/page.tsx:99-101 | toggling back with the shown flag restores the list |
| `AdminPage.UpdatesTouchOnlyTheId` | app/admin/page.tsx:121-123 | update and screenshot regeneration change only the project with the id; regeneration writes only its screenshot |
| `AdminPage.UnknownIdChangesNothing` | app/admin/page.tsx:171-173 | an id no project carries leaves the list unchanged |
| `AdminPage.RegenerateIdempotent` | app/admin/page.tsx:171-173 | applying the same screenshot twice equals applying it once |
| `HomePage.AllShowsEverything` | app/page.tsx:29 | `all` shows the list unchanged |
| `HomePage.StageFilterSpec` | app/page.tsx:28-31 | any other filter shows exactly the projects of that stage, in order, each as many times as it occurs in the list |
| `HomePage.UnknownStageShowsNothing` | app/page.tsx:30 | a filter naming no stage shows nothing |
| `SyncLogsModal.FloorDiv` | components/SyncLogsModal.tsx:57 | `Math.floor(a / b)` is the largest `q` with `q * b <= a` |
| `SyncLogsModal.JsRem` | components/SyncLogsModal.tsx:60 | JavaScript `%` takes the sign of the dividend, is smaller than the divisor, and leaves a multiple of the divisor |
| `SyncLogsModal.ElapsedSeconds` | components/SyncLogsModal.tsx:55-57 | whole seconds between the two times, rounded down |
| `SyncLogsModal.InProgress` | components/SyncLogsModal.tsx:54 | no completion time gives "In progress..." |
| `SyncLogsModal.ShortForm` | components/SyncLogsModal.tsx:58 | under a minute gives the seconds and `s` |
| `SyncLogsModal.LongForm` | components/SyncLogsModal.tsx:59-60 | from a minute on: `<m>m <r>s` with `m >= 1`, `r < 60` and `m * 60 + r` the elapsed seconds |
| `JsText.JsLength` | lib/ai-description.ts:29 | `line.length` lies between the number of characters and twice that |
| `JsText.JsLengthBasic` | lib/ai-description.ts:29 | without characters above U+FFFF, `length` is the number of characters |
| `JsText.JsLengthAstral` | lib/ai-description.ts:35 | a line made only of characters above U+FFFF, such as emoji, has twice as many code units as characters |
| `JsText.LowerSpec` | app/admin/page.tsx:193-197 | `toLowerCase` keeps the length and lowers each ASCII capital |
| `JsText.FilterSpec` | app/page.tsx:28-31 | `filter` keeps exactly the elements passing the test, in order, with their multiplicities |
| `JsText.SplitJoin` | lib/screenshot.ts:2-16 | splitting a join on a separator no part holds gives the parts back |
| `JsText.JoinSplit` | lib/ai-description.ts:12 | joining the pieces of a split on the separator gives the string back |
| `JsText.ParseNatToString` | components/SyncLogsModal.tsx:58-60 | a printed number reads back to itself |

## Left out

- The network:
  - the Octokit calls, the `fetch` calls to Netlify and Vercel, and JSON decoding are inputs: the decoded listing, or the error thrown;
  - base64 decoding of a README is part of the GitHub input;
  - the cron route's call to the sync is not part of this model.
- The datastore:
  - each `upsert` is an oracle answering saved or error, and a thrown error is folded into the same answer;
  - the `sync_logs` insert is modelled as the row it writes; its own error is ignored, as in the code.
- The handler's outer `catch` and its 500 answer (`route.ts:157-162`): every step of the model is total, so nothing throws past the loop. An exception inside enrichment becomes a per-project error in the code and is not modelled separately.
- Clocks:
  - `Date.now()` and `new Date().toISOString()` are inputs of the run, collected in one `Clock`;
  - every draft of a run receives the same sync stamp, while the code reads the clock once per draft;
  - GitHub's days-since-commit is the function `daysSince`;
  - the modal's `getTime()` is the function `timeOf`, and an unparseable date (`NaN`) is not modelled.
- Asynchrony:
  - the awaited scrapes run in source order;
  - Promise scheduling is not modelled apart from the finding below.
- Utils.Slug: ASCII only, as `toLowerCase` is modelled for ASCII letters alone. The Unicode case mappings are not modelled.
- AiDescription.MainScan: the install, setup and getting-started stop test lower-cases ASCII letters only. The same holds for `AiDescription.StopLine` and `AiDescription.ExtractDescriptionFromReadme`.
- AdminPage.KeptSpec: the search lower-cases ASCII letters only, so a search for "é" does not find "CAFÉ" as JavaScript would. The same holds for `AdminPage.Matches`, `AdminPage.Kept` and `AdminPage.FilteredSpec`.
- ScrapeAll.Enrich: stores the awaited screenshot URL, the corrected `route.ts:117`; as written the stored value is `Screenshot.StoredScreenshotAsWritten` (see Findings).
- Utils.ManifestOf: `JSON.parse` is an input returning the parsed dependency sets or nothing.
- Screenshot.DecodeEncodeAscii: the round trip is proved for ASCII addresses only. The encoder emits the UTF-8 escapes of every code point, but only single-byte escapes are decoded.
- AdminPage.UpdateProject: `{...p, ...updated.project}` is modelled as taking the returned row whole, since the PATCH route returns every column.
- The React rendering, state setters, session storage and effects of the page files are not modelled. Neither are the cards, the modals other than `getDuration`, `lib/auth.ts` and the admin verify route.
- The slug and same-project pair is a parameter of `Reconcile`. The sync instantiates it with `Lib`, the two functions of `lib/utils.ts`.
- Behaviour of the code worth noting:
  - a non-empty incoming custom domain replaces the stored one for both platforms (`route.ts:54`, `route.ts:83`);
  - records inserted earlier in a pass are matched by later records of the same pass;
  - a failed log insert is ignored.

## Findings

| source | as written | input that shows it | evidently intended | confidence | as-written member | corrected member |
|---|---|---|---|---|---|---|
| app/api/scrape/all/route.ts:117 | `generateScreenshot` is `async` and is assigned without `await`, so `screenshot_url` holds a Promise, which serialises as `{}` in the upsert | any draft with a primary URL outside its GitHub URL, e.g. a Netlify site `https://a.netlify.app` | store the screenshot URL string | not executed | `Screenshot.StoredScreenshotAsWritten`, `Screenshot.ScreenshotPromiseIsLost` | `Screenshot.StoredScreenshot`, `ScrapeAll.Enrich` |
