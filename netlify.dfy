/** lib/scrapers/netlify.ts: one `NetlifyProject` per site the Netlify API
  * lists, in order. The HTTP call and JSON decoding are an input: the
  * decoded list of sites, or the error the call or the iteration threw. */
module NetlifyScraper {
  import opened Types

  /** The `published_deploy` object of a site. */
  datatype PublishedDeploy = PublishedDeploy(publishedAt: Option<string>, state: Option<string>)

  /** The fields of a listed site that the scraper reads. */
  datatype NetlifySite = NetlifySite(
    name: string,
    sslUrl: Option<string>,
    url: Option<string>,
    customDomain: Option<string>,
    publishedDeploy: Option<PublishedDeploy>,
    updatedAt: Option<string>
  )

  /** The `NetlifyProject` interface. */
  datatype NetlifyProject = NetlifyProject(
    name: string,
    netlifyUrl: Option<string>,
    customDomain: Option<string>,
    lastDeployedAt: Option<string>,
    currentStatus: CurrentStatus
  )

  /** `site.published_deploy?.published_at`. */
  function PublishedAt(site: NetlifySite): Option<string> {
    match site.publishedDeploy
    case Some(d) => d.publishedAt
    case None => None
  }

  /** The record pushed for one site: the HTTPS address when there is one,
    * the custom domain only when it is non-empty, the publish time falling
    * back to the site's update time, and Active exactly for a ready deploy. */
  function NetlifyRecord(site: NetlifySite): (r: NetlifyProject)
    ensures r.name == site.name
    ensures Truthy(site.sslUrl) ==> r.netlifyUrl == site.sslUrl
    ensures !Truthy(site.sslUrl) ==> r.netlifyUrl == site.url
    ensures r.customDomain.Some? <==> Truthy(site.customDomain)
    ensures r.customDomain.Some? ==> r.customDomain == site.customDomain
    ensures Truthy(PublishedAt(site)) ==> r.lastDeployedAt == PublishedAt(site)
    ensures !Truthy(PublishedAt(site)) ==> r.lastDeployedAt == site.updatedAt
    ensures r.currentStatus == Active <==>
      site.publishedDeploy.Some? && site.publishedDeploy.value.state == Some("ready")
    ensures r.currentStatus == Active || r.currentStatus == Broken
  {
    NetlifyProject(
      site.name,
      OrElse(site.sslUrl, site.url),
      if Truthy(site.customDomain) then site.customDomain else None,
      OrElse(PublishedAt(site), site.updatedAt),
      if site.publishedDeploy.Some? && site.publishedDeploy.value.state == Some("ready") then Active else Broken
    )
  }

  /** `scrapeNetlify()`: one record per site, in order; any failure is
    * rethrown instead of yielding a partial list. */
  method ScrapeNetlify(response: Result<seq<NetlifySite>>) returns (r: Result<seq<NetlifyProject>>)
    ensures response.Err? ==> r == Err(response.message)
    ensures response.Ok? ==> r.Ok? && |r.value| == |response.value|
    ensures response.Ok? ==> forall k :: 0 <= k < |response.value| ==> r.value[k] == NetlifyRecord(response.value[k])
  {
    if response.Err? {
      return Err(response.message);
    }
    var sites := response.value;
    var projects: seq<NetlifyProject> := [];
    var i := 0;
    while i < |sites|
      invariant 0 <= i <= |sites|
      invariant |projects| == i
      invariant forall k :: 0 <= k < i ==> projects[k] == NetlifyRecord(sites[k])
      decreases |sites| - i
    {
      var site := sites[i];
      projects := projects + [NetlifyRecord(site)];
      i := i + 1;
    }
    return Ok(projects);
  }
}
