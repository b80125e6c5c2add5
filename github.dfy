/** lib/scrapers/github.ts: one record per repository of the organisation,
  * with its production stage and status classified from the archived flag,
  * the days since the last commit and the default branch. The GitHub calls
  * themselves are inputs: the repository listing, and per repository the
  * outcome of the languages, README and commits calls. */
module GitHubScraper {
  import opened Types
  import opened JsText
  import opened Utils

  /** The fields of a listed repository that the scraper reads. */
  datatype Repo = Repo(
    name: string,
    description: Option<string>,
    htmlUrl: string,
    stargazersCount: Option<int>,
    topics: Option<seq<string>>,
    archived: bool,
    defaultBranch: string,
    updatedAt: string,
    isPrivate: bool
  )

  /** What the per-repository calls yield when the languages and commits
    * calls succeed: the language breakdown, the decoded README ("" when the
    * README call failed, which the scraper tolerates) and the author date of
    * the newest commit, when there is one. */
  datatype RepoDetails = RepoDetails(languages: Languages, readme: string, lastCommitAuthorDate: Option<string>)

  /** The `GitHubProject` interface. */
  datatype GitHubProject = GitHubProject(
    name: string,
    slug: string,
    description: Option<string>,
    githubUrl: string,
    githubStars: int,
    githubLanguages: Languages,
    githubTopics: seq<string>,
    readmeContent: string,
    lastCommitDate: string,
    productionStage: ProductionStage,
    currentStatus: CurrentStatus,
    isPrivate: bool
  )

  /** The stage if-chain: archived repositories and those idle for more
    * than 90 days are Archived; otherwise a `main` or `master` default
    * branch means Production and anything else Development. */
  function ClassifyStage(archived: bool, days: int, branch: string): (s: ProductionStage)
    ensures s == Archived <==> archived || days > 90
    ensures s == Production <==> !archived && days <= 90 && (branch == "main" || branch == "master")
    ensures s == Development <==> !archived && days <= 90 && branch != "main" && branch != "master"
    ensures s != Staging
  {
    if archived then Archived
    else if days > 90 then Archived
    else if branch == "main" || branch == "master" then Production
    else Development
  }

  /** The status if-chain: Paused after 30 idle days, Active before. */
  function ClassifyStatus(days: int): (s: CurrentStatus)
    ensures s == Active <==> days <= 30
    ensures s == Paused <==> days > 30
  {
    if days > 30 && days <= 90 then Paused
    else if days > 90 then Paused
    else Active
  }

  /** The record pushed for one repository. `daysSince` stands for
    * `Math.floor((Date.now() - new Date(date).getTime()) / 86400000)`. */
  function BuildRecord(repo: Repo, d: RepoDetails, daysSince: string -> int): (r: GitHubProject)
    ensures r.name == repo.name && r.slug == Slug(repo.name)
    ensures r.lastCommitDate == (if Truthy(d.lastCommitAuthorDate) then d.lastCommitAuthorDate.value else repo.updatedAt)
    ensures r.productionStage == ClassifyStage(repo.archived, daysSince(r.lastCommitDate), repo.defaultBranch)
    ensures r.currentStatus == ClassifyStatus(daysSince(r.lastCommitDate))
    ensures r.description.Some? <==> Truthy(repo.description)
    ensures r.description.Some? ==> r.description == repo.description
    ensures repo.stargazersCount.None? ==> r.githubStars == 0
    ensures repo.stargazersCount.Some? ==> r.githubStars == repo.stargazersCount.value
    ensures repo.topics.None? ==> r.githubTopics == []
    ensures repo.topics.Some? ==> r.githubTopics == repo.topics.value
    ensures r.githubUrl == repo.htmlUrl && r.isPrivate == repo.isPrivate
    ensures r.githubLanguages == d.languages && r.readmeContent == d.readme
  {
    var lastCommitDate := OrElse(d.lastCommitAuthorDate, Some(repo.updatedAt)).value;
    var days := daysSince(lastCommitDate);
    GitHubProject(
      repo.name,
      Slug(repo.name),
      if Truthy(repo.description) then repo.description else None,
      repo.htmlUrl,
      match repo.stargazersCount { case Some(n) => n case None => 0 },
      d.languages,
      match repo.topics { case Some(t) => t case None => [] },
      d.readme,
      lastCommitDate,
      ClassifyStage(repo.archived, days, repo.defaultBranch),
      ClassifyStatus(days),
      repo.isPrivate
    )
  }

  /** The records of `repos` in order, each repository whose calls failed
    * left out. */
  function ProcessRepos(repos: seq<Repo>, fetch: Repo -> Result<RepoDetails>, daysSince: string -> int): (r: seq<GitHubProject>)
    ensures |r| <= |repos|
    ensures forall k :: 0 <= k < |r| ==> r[k].slug == Slug(r[k].name)
    decreases |repos|
  {
    if repos == [] then []
    else
      var n := |repos| - 1;
      var rest := ProcessRepos(repos[..n], fetch, daysSince);
      match fetch(repos[n])
      case Ok(d) => rest + [BuildRecord(repos[n], d, daysSince)]
      case Err(_) => rest
  }

  /** A failing repository affects nobody else: the records of a listing are
    * those of any split of it, concatenated. */
  lemma {:induction false} ProcessReposAppend(a: seq<Repo>, b: seq<Repo>, fetch: Repo -> Result<RepoDetails>, daysSince: string -> int)
    ensures ProcessRepos(a + b, fetch, daysSince) == ProcessRepos(a, fetch, daysSince) + ProcessRepos(b, fetch, daysSince)
    decreases |b|
  {
    if b == [] {
      assert a + b == a;
    } else {
      var n := |b| - 1;
      assert (a + b)[..|a + b| - 1] == a + b[..n];
      assert (a + b)[|a + b| - 1] == b[n];
      ProcessReposAppend(a, b[..n], fetch, daysSince);
    }
  }

  /** When every repository's calls succeed, record `k` is that of
    * repository `k`. */
  lemma {:induction false} ProcessReposAllFetched(repos: seq<Repo>, fetch: Repo -> Result<RepoDetails>, daysSince: string -> int)
    requires forall k :: 0 <= k < |repos| ==> fetch(repos[k]).Ok?
    ensures |ProcessRepos(repos, fetch, daysSince)| == |repos|
    ensures forall k :: 0 <= k < |repos| ==>
      ProcessRepos(repos, fetch, daysSince)[k] == BuildRecord(repos[k], fetch(repos[k]).value, daysSince)
    decreases |repos|
  {
    if repos != [] {
      var n := |repos| - 1;
      var init := repos[..n];
      assert forall k :: 0 <= k < n ==> init[k] == repos[k];
      ProcessReposAllFetched(init, fetch, daysSince);
      var rest := ProcessRepos(init, fetch, daysSince);
      var out := ProcessRepos(repos, fetch, daysSince);
      assert out == rest + [BuildRecord(repos[n], fetch(repos[n]).value, daysSince)];
      forall k | 0 <= k < |repos|
        ensures out[k] == BuildRecord(repos[k], fetch(repos[k]).value, daysSince)
      {
        if k < n {
          assert out[k] == rest[k];
        }
      }
    }
  }

  /** A repository whose calls fail contributes nothing. */
  lemma ProcessReposSkipsFailure(repos: seq<Repo>, bad: Repo, fetch: Repo -> Result<RepoDetails>, daysSince: string -> int)
    requires fetch(bad).Err?
    ensures ProcessRepos(repos + [bad], fetch, daysSince) == ProcessRepos(repos, fetch, daysSince)
  {
    assert (repos + [bad])[..|repos|] == repos;
  }

  /** `scrapeGitHub()`: a failure to list the organisation is rethrown; a
    * repository whose languages or commits call fails is skipped. */
  method ScrapeGitHub(listing: Result<seq<Repo>>, fetch: Repo -> Result<RepoDetails>, daysSince: string -> int)
    returns (r: Result<seq<GitHubProject>>)
    ensures listing.Err? ==> r == Err(listing.message)
    ensures listing.Ok? ==> r == Ok(ProcessRepos(listing.value, fetch, daysSince))
  {
    if listing.Err? {
      return Err(listing.message);
    }
    var repos := listing.value;
    var projects: seq<GitHubProject> := [];
    var i := 0;
    while i < |repos|
      invariant 0 <= i <= |repos|
      invariant projects == ProcessRepos(repos[..i], fetch, daysSince)
      decreases |repos| - i
    {
      var repo := repos[i];
      assert repos[..i + 1][..i] == repos[..i];
      match fetch(repo) {
        case Ok(details) =>
          var lastCommitDate := if Truthy(details.lastCommitAuthorDate) then details.lastCommitAuthorDate.value else repo.updatedAt;
          var days := daysSince(lastCommitDate);
          var productionStage := Development;
          if repo.archived {
            productionStage := Archived;
          } else if days > 90 {
            productionStage := Archived;
          } else if repo.defaultBranch == "main" || repo.defaultBranch == "master" {
            productionStage := Production;
          }
          var currentStatus := Active;
          if days > 30 && days <= 90 {
            currentStatus := Paused;
          } else if days > 90 {
            currentStatus := Paused;
          }
          assert productionStage == ClassifyStage(repo.archived, days, repo.defaultBranch);
          assert currentStatus == ClassifyStatus(days);
          var stars := match repo.stargazersCount { case Some(n) => n case None => 0 };
          var topics := match repo.topics { case Some(t) => t case None => [] };
          var record := GitHubProject(
            repo.name, Slug(repo.name),
            if Truthy(repo.description) then repo.description else None,
            repo.htmlUrl, stars, details.languages, topics, details.readme,
            lastCommitDate, productionStage, currentStatus, repo.isPrivate);
          assert record == BuildRecord(repo, details, daysSince);
          projects := projects + [record];
        case Err(_) =>
      }
      i := i + 1;
    }
    assert repos[..i] == repos;
    return Ok(projects);
  }
}
