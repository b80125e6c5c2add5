/** lib/scrapers/vercel.ts: one `VercelProject` per project the Vercel API
  * lists, in order. The HTTP call and JSON decoding are an input: the
  * decoded response, or the error the call threw. */
module VercelScraper {
  import opened Types
  import opened JsText

  /** The fields of a listed project that the scraper reads:
    * `targets.production.alias`, `alias` and `updatedAt`. */
  datatype VercelApiProject = VercelApiProject(
    name: string,
    productionAlias: Option<seq<string>>,
    alias: Option<seq<string>>,
    updatedAt: Option<string>
  )

  /** The decoded response body; `projects` may be missing. */
  datatype VercelResponse = VercelResponse(projects: Option<seq<VercelApiProject>>)

  /** The `VercelProject` interface. */
  datatype VercelProject = VercelProject(
    name: string,
    vercelUrl: string,
    customDomain: Option<string>,
    lastDeployedAt: Option<string>
  )

  /** `xs?.[0]`: the first element, absent for a missing or empty list. */
  function First(xs: Option<seq<string>>): (r: Option<string>)
    ensures r.Some? <==> xs.Some? && |xs.value| > 0
    ensures r.Some? ==> r.value == xs.value[0]
  {
    if xs.Some? && |xs.value| > 0 then Some(xs.value[0]) else None
  }

  /** The domain the project is served on in production. */
  function ProductionDomain(p: VercelApiProject): string {
    if Truthy(First(p.productionAlias)) then First(p.productionAlias).value
    else p.name + ".vercel.app"
  }

  /** The record pushed for one project: an HTTPS address on the first
    * production alias or on the default `vercel.app` host, the first alias
    * as the custom domain, and `updatedAt` as the deploy time. */
  function VercelRecord(p: VercelApiProject): VercelProject
  {
    VercelProject(
      p.name,
      "https://" + ProductionDomain(p),
      if Truthy(First(p.alias)) then Some("https://" + First(p.alias).value) else None,
      p.updatedAt
    )
  }

  /** What the record says: the project's name, an HTTPS address on the
    * first production alias or else on `<name>.vercel.app`, the first
    * alias (when there is one) as the custom domain, and `updatedAt`. */
  lemma VercelRecordSpec(p: VercelApiProject)
    ensures VercelRecord(p).name == p.name
    ensures StartsWith(VercelRecord(p).vercelUrl, "https://")
    ensures Truthy(First(p.productionAlias)) ==> VercelRecord(p).vercelUrl == "https://" + p.productionAlias.value[0]
    ensures !Truthy(First(p.productionAlias)) ==> VercelRecord(p).vercelUrl == "https://" + p.name + ".vercel.app"
    ensures VercelRecord(p).customDomain.Some? <==> Truthy(First(p.alias))
    ensures VercelRecord(p).customDomain.Some? ==> VercelRecord(p).customDomain.value == "https://" + p.alias.value[0]
    ensures VercelRecord(p).lastDeployedAt == p.updatedAt
  {
  }

  /** `data.projects || []`. */
  function ListedProjects(data: VercelResponse): (r: seq<VercelApiProject>)
    ensures data.projects.None? ==> r == []
  {
    match data.projects
    case Some(ps) => ps
    case None => []
  }

  /** `scrapeVercel()`: one record per listed project, in order, none when
    * the response has no `projects`; any failure is rethrown. */
  method ScrapeVercel(response: Result<VercelResponse>) returns (r: Result<seq<VercelProject>>)
    ensures response.Err? ==> r == Err(response.message)
    ensures response.Ok? ==> r.Ok? && |r.value| == |ListedProjects(response.value)|
    ensures response.Ok? ==> forall k :: 0 <= k < |r.value| ==>
      r.value[k] == VercelRecord(ListedProjects(response.value)[k])
  {
    if response.Err? {
      return Err(response.message);
    }
    var listed := ListedProjects(response.value);
    var projects: seq<VercelProject> := [];
    var i := 0;
    while i < |listed|
      invariant 0 <= i <= |listed|
      invariant |projects| == i
      invariant forall k :: 0 <= k < i ==> projects[k] == VercelRecord(listed[k])
      decreases |listed| - i
    {
      projects := projects + [VercelRecord(listed[i])];
      i := i + 1;
    }
    return Ok(projects);
  }
}
