/** Cross-platform matching in app/api/scrape/all/route.ts:36-102: GitHub
  * records seed the map under their slugs, then each Netlify and each Vercel
  * record is merged into the first entry, in insertion order, whose name is
  * the same project, or inserted under its own slug. Entries inserted earlier
  * in a pass are visible to the later records of that pass. */
module Reconcile {
  import opened Types
  import opened JsText
  import opened Utils
  import opened ProjectMaps
  import opened GitHubScraper
  import opened NetlifyScraper
  import opened VercelScraper

  /** The two identity functions of lib/utils.ts the sync relies on:
    * `generateSlug` and `isSameProject`. The passes below are stated for
    * any pair in which equal slugs match (`Coherent`); the sync uses
    * `Lib`, the pair from `Utils`. Keeping the pair a parameter lets the
    * proofs about the passes ignore how slugs are computed. */
  datatype Identity = Identity(slug: string -> string, same: (string, string) -> bool)

  const Lib: Identity := Identity(Slug, SameProject)

  ghost predicate Coherent(id: Identity) {
    forall a, b :: id.slug(a) == id.slug(b) ==> id.same(a, b)
  }

  /** `generateSlug` and `isSameProject` are coherent: equal slugs match. */
  lemma LibCoherent()
    ensures Coherent(Lib)
  {
    forall a, b | Slug(a) == Slug(b) ensures SameProject(a, b) {
      SameProjectBasics(a, b);
    }
  }

  // ---------------------------------------------------------------------
  // Seeding from GitHub (route.ts:39-44)
  // ---------------------------------------------------------------------

  /** `{ ...ghProject, tech_stack: Object.keys(ghProject.github_languages) }`. */
  function SeedDraft(g: GitHubProject): (p: Project)
    ensures p.name == g.name && p.slug == g.slug
    ensures p.techStack == Some(LanguageNames(g.githubLanguages))
    ensures p.githubUrl == Some(g.githubUrl) && p.description == g.description
    ensures p.readmeContent == Some(g.readmeContent)
    ensures p.productionStage == Some(g.productionStage) && p.currentStatus == Some(g.currentStatus)
  {
    BareProject(g.name, g.slug).(
      description := g.description,
      githubUrl := Some(g.githubUrl),
      githubStars := Some(g.githubStars),
      githubLanguages := Some(g.githubLanguages),
      githubTopics := Some(g.githubTopics),
      readmeContent := Some(g.readmeContent),
      lastCommitDate := Some(g.lastCommitDate),
      productionStage := Some(g.productionStage),
      currentStatus := Some(g.currentStatus),
      isPrivate := Some(g.isPrivate),
      techStack := Some(LanguageNames(g.githubLanguages)))
  }

  /** The `[slug, draft]` pairs the GitHub records are set under, in order. */
  function SeedEntries(gh: seq<GitHubProject>): (r: seq<Entry>)
    ensures |r| == |gh| && forall i :: 0 <= i < |gh| ==> r[i] == Entry(gh[i].slug, SeedDraft(gh[i]))
  {
    seq(|gh|, i requires 0 <= i < |gh| => Entry(gh[i].slug, SeedDraft(gh[i])))
  }

  /** The map after setting every GitHub record under its slug, in order. */
  function Seed(gh: seq<GitHubProject>): (r: seq<Entry>)
    ensures DistinctKeys(r)
    ensures |r| <= |gh|
  {
    SetAll([], SeedEntries(gh))
  }

  /** Every entry is filed under the slug of its draft's name. */
  predicate Keyed(es: seq<Entry>, slug: string -> string) {
    forall i :: 0 <= i < |es| ==> es[i].key == slug(es[i].draft.name)
  }

  /** Seeding files exactly the GitHub slugs. */
  lemma SeedKeys(gh: seq<GitHubProject>)
    ensures forall k :: k in Keys(Seed(gh)) <==> exists i :: 0 <= i < |gh| && gh[i].slug == k
  {
    var ps := SeedEntries(gh);
    SetAllKeys([], ps);
    forall k ensures k in Keys(ps) <==> exists i :: 0 <= i < |gh| && gh[i].slug == k {
      if k in Keys(ps) {
        var i :| 0 <= i < |ps| && Keys(ps)[i] == k;
        assert gh[i].slug == k;
      }
    }
  }

  /** A later GitHub record with the same slug replaces the earlier one:
    * each slug is filed under the last record that has it. */
  lemma SeedLastWins(gh: seq<GitHubProject>, i: nat)
    requires i < |gh|
    requires forall j :: i < j < |gh| ==> gh[j].slug != gh[i].slug
    ensures Lookup(Seed(gh), gh[i].slug) == Some(SeedDraft(gh[i]))
  {
    SetAllLastWins([], SeedEntries(gh), i);
  }

  /** Seeding keeps every entry under the slug of its name when the GitHub
    * records carry their own slugs. */
  lemma SeedKeyed(gh: seq<GitHubProject>, slug: string -> string)
    requires forall i :: 0 <= i < |gh| ==> gh[i].slug == slug(gh[i].name)
    ensures Keyed(Seed(gh), slug)
  {
    SetAllKeyed([], SeedEntries(gh), slug);
  }

  /** Setting entries that are each under the slug of their name keeps a
    * map keyed. */
  lemma {:induction false} SetAllKeyed(es: seq<Entry>, ps: seq<Entry>, slug: string -> string)
    requires Keyed(es, slug) && DistinctKeys(es) && Keyed(ps, slug)
    ensures Keyed(SetAll(es, ps), slug)
    decreases |ps|
  {
    if ps != [] {
      var n := |ps| - 1;
      var init := ps[..n];
      assert Keyed(init, slug) by {
        forall i | 0 <= i < n ensures init[i].key == slug(init[i].draft.name) {
          assert init[i] == ps[i];
        }
      }
      SetAllKeyed(es, init, slug);
      var mid := SetAll(es, init);
      assert DistinctKeys(mid);
      assert ps[n].key == slug(ps[n].draft.name);
      SetEntryKeyed(mid, ps[n].key, ps[n].draft, slug);
      assert SetAll(es, ps) == SetEntry(mid, ps[n].key, ps[n].draft);
    }
  }

  /** Setting a draft under the slug of its name keeps a map keyed. */
  lemma SetEntryKeyed(es: seq<Entry>, k: string, v: Project, slug: string -> string)
    requires Keyed(es, slug) && DistinctKeys(es) && k == slug(v.name)
    ensures Keyed(SetEntry(es, k, v), slug)
  {
    var r := SetEntry(es, k, v);
    forall j | 0 <= j < |r| ensures r[j].key == slug(r[j].draft.name) {
      KeyedEntry(es, k, v, j, slug);
    }
  }

  /** One entry of `SetEntry(es, k, v)` when `es` is keyed and `k` is the
    * slug of `v`'s name. */
  lemma KeyedEntry(es: seq<Entry>, k: string, v: Project, j: nat, slug: string -> string)
    requires Keyed(es, slug) && DistinctKeys(es) && k == slug(v.name)
    requires j < |SetEntry(es, k, v)|
    ensures SetEntry(es, k, v)[j].key == slug(SetEntry(es, k, v)[j].draft.name)
  {
    var r := SetEntry(es, k, v);
    if j < |es| && es[j].key != k {
      assert r[j] == es[j];
    } else {
      assert r[j].key == k by {
        if j < |es| {
          assert Keys(r)[j] == Keys(es)[j];
        }
      }
      assert Lookup(r, k) == Some(v);
      IndexOfFirst(r, k, j);
    }
  }

  // ---------------------------------------------------------------------
  // Matching Netlify and Vercel records (route.ts:47-102)
  // ---------------------------------------------------------------------

  /** A record of either deployment platform. */
  datatype Incoming = FromNetlify(n: NetlifyProject) | FromVercel(v: VercelProject)

  function Name(rec: Incoming): string {
    match rec
    case FromNetlify(n) => n.name
    case FromVercel(v) => v.name
  }

  /** The field writes on a matched draft: the platform URL is overwritten,
    * a non-empty incoming custom domain wins over the old one, Netlify
    * overwrites the deploy time and Vercel only when it has one. Nothing
    * else changes. */
  function Merge(p: Project, rec: Incoming): (q: Project)
    ensures rec.FromNetlify? ==> q.netlifyUrl == rec.n.netlifyUrl && q.lastDeployedAt == rec.n.lastDeployedAt
    ensures rec.FromNetlify? ==>
      q.(netlifyUrl := p.netlifyUrl, customDomain := p.customDomain, lastDeployedAt := p.lastDeployedAt) == p
    ensures rec.FromNetlify? && Truthy(rec.n.customDomain) ==> q.customDomain == rec.n.customDomain
    ensures rec.FromNetlify? && !Truthy(rec.n.customDomain) ==> q.customDomain == p.customDomain
    ensures rec.FromVercel? ==> q.vercelUrl == Some(rec.v.vercelUrl)
    ensures rec.FromVercel? && Truthy(rec.v.lastDeployedAt) ==> q.lastDeployedAt == rec.v.lastDeployedAt
    ensures rec.FromVercel? && !Truthy(rec.v.lastDeployedAt) ==> q.lastDeployedAt == p.lastDeployedAt
    ensures rec.FromVercel? ==>
      q.(vercelUrl := p.vercelUrl, customDomain := p.customDomain, lastDeployedAt := p.lastDeployedAt) == p
    ensures rec.FromVercel? && Truthy(rec.v.customDomain) ==> q.customDomain == rec.v.customDomain
    ensures rec.FromVercel? && !Truthy(rec.v.customDomain) ==> q.customDomain == p.customDomain
  {
    match rec
    case FromNetlify(n) =>
      p.(netlifyUrl := n.netlifyUrl,
         customDomain := OrElse(n.customDomain, p.customDomain),
         lastDeployedAt := n.lastDeployedAt)
    case FromVercel(v) =>
      p.(vercelUrl := Some(v.vercelUrl),
         customDomain := OrElse(v.customDomain, p.customDomain),
         lastDeployedAt := OrElse(v.lastDeployedAt, p.lastDeployedAt))
  }

  /** Merging the same record twice changes nothing more. */
  lemma MergeIdempotent(p: Project, rec: Incoming)
    ensures Merge(Merge(p, rec), rec) == Merge(p, rec)
  {
  }

  /** The draft inserted for an unmatched record: its own slug, the
    * Production stage, private, and Netlify's status or Active for Vercel. */
  function Insert(rec: Incoming, slug: string -> string): (p: Project)
    ensures p.name == Name(rec) && p.slug == slug(Name(rec))
    ensures p.productionStage == Some(Production) && p.isPublic == Some(false)
    ensures rec.FromNetlify? ==> p.currentStatus == Some(rec.n.currentStatus)
    ensures rec.FromVercel? ==> p.currentStatus == Some(Active)
    ensures rec.FromNetlify? ==> p.netlifyUrl == rec.n.netlifyUrl && p.vercelUrl.None?
    ensures rec.FromVercel? ==> p.vercelUrl == Some(rec.v.vercelUrl) && p.netlifyUrl.None?
    ensures p.githubUrl.None?
  {
    match rec
    case FromNetlify(n) =>
      BareProject(n.name, slug(n.name)).(
        netlifyUrl := n.netlifyUrl,
        customDomain := n.customDomain,
        lastDeployedAt := n.lastDeployedAt,
        productionStage := Some(Production),
        currentStatus := Some(n.currentStatus),
        isPublic := Some(false))
    case FromVercel(v) =>
      BareProject(v.name, slug(v.name)).(
        vercelUrl := Some(v.vercelUrl),
        customDomain := v.customDomain,
        lastDeployedAt := v.lastDeployedAt,
        productionStage := Some(Production),
        currentStatus := Some(Active),
        isPublic := Some(false))
  }

  /** The first entry, from position `from` on, whose draft is the same
    * project as `name`. */
  function FirstMatch(es: seq<Entry>, name: string, same: (string, string) -> bool, from: nat): (r: Option<nat>)
    requires from <= |es|
    ensures r.Some? ==> from <= r.value < |es|
    decreases |es| - from
  {
    if from == |es| then None
    else if same(name, es[from].draft.name) then Some(from)
    else FirstMatch(es, name, same, from + 1)
  }

  /** `FirstMatch` finds the leftmost matching entry, and finds none only
    * when no entry matches. */
  lemma {:induction false} FirstMatchSpec(es: seq<Entry>, name: string, same: (string, string) -> bool, from: nat)
    requires from <= |es|
    ensures FirstMatch(es, name, same, from).Some? ==>
      same(name, es[FirstMatch(es, name, same, from).value].draft.name)
      && forall j :: from <= j < FirstMatch(es, name, same, from).value ==> !same(name, es[j].draft.name)
    ensures FirstMatch(es, name, same, from).None? ==>
      forall j :: from <= j < |es| ==> !same(name, es[j].draft.name)
    decreases |es| - from
  {
    if from < |es| && !same(name, es[from].draft.name) {
      FirstMatchSpec(es, name, same, from + 1);
    }
  }

  /** With every entry under the slug of its name, a name that matches no
    * entry has a slug no entry is filed under: the insert appends and
    * never overwrites. */
  lemma UnmatchedSlugIsNew(es: seq<Entry>, name: string, id: Identity)
    requires Coherent(id) && Keyed(es, id.slug)
    requires FirstMatch(es, name, id.same, 0).None?
    ensures id.slug(name) !in Keys(es)
  {
    FirstMatchSpec(es, name, id.same, 0);
    forall i | 0 <= i < |es| ensures Keys(es)[i] != id.slug(name) {
      assert !id.same(name, es[i].draft.name);
    }
  }

  /** One record of a pass: merged into the first matching entry, or
    * inserted under its own slug. */
  function MatchStep(es: seq<Entry>, rec: Incoming, id: Identity): (r: seq<Entry>)
    ensures FirstMatch(es, Name(rec), id.same, 0).Some? ==>
      var i := FirstMatch(es, Name(rec), id.same, 0).value;
      |r| == |es| && r[i] == Entry(es[i].key, Merge(es[i].draft, rec))
      && forall j :: 0 <= j < |es| && j != i ==> r[j] == es[j]
    ensures FirstMatch(es, Name(rec), id.same, 0).None? && id.slug(Name(rec)) !in Keys(es) ==>
      r == es + [Entry(id.slug(Name(rec)), Insert(rec, id.slug))]
    ensures FirstMatch(es, Name(rec), id.same, 0).None? ==>
      Lookup(r, id.slug(Name(rec))) == Some(Insert(rec, id.slug))
    ensures Keys(r) == Keys(es) || Keys(r) == Keys(es) + [id.slug(Name(rec))]
    ensures DistinctKeys(es) ==> DistinctKeys(r)
  {
    match FirstMatch(es, Name(rec), id.same, 0)
    case Some(i) =>
      var r := es[i := Entry(es[i].key, Merge(es[i].draft, rec))];
      assert Keys(r) == Keys(es);
      r
    case None =>
      SetEntry(es, id.slug(Name(rec)), Insert(rec, id.slug))
  }

  /** A matched record rewrites the first matching entry in place. */
  lemma MatchStepAt(es: seq<Entry>, rec: Incoming, id: Identity, j: nat)
    requires j < |es| && FirstMatch(es, Name(rec), id.same, 0) == Some(j)
    ensures MatchStep(es, rec, id) == es[j := Entry(es[j].key, Merge(es[j].draft, rec))]
  {
  }

  /** An unmatched record is set under its own slug. */
  lemma MatchStepNone(es: seq<Entry>, rec: Incoming, id: Identity)
    requires FirstMatch(es, Name(rec), id.same, 0).None?
    ensures MatchStep(es, rec, id) == SetEntry(es, id.slug(Name(rec)), Insert(rec, id.slug))
  {
  }

  /** Handling one more record of a pass. */
  lemma MatchAllSnoc(es: seq<Entry>, recs: seq<Incoming>, id: Identity, i: nat)
    requires i < |recs|
    ensures MatchAll(es, recs[..i + 1], id) == MatchStep(MatchAll(es, recs[..i], id), recs[i], id)
  {
    assert recs[..i + 1][..i] == recs[..i];
  }

  /** Every entry stays under the slug of its name. */
  lemma MatchStepKeyed(es: seq<Entry>, rec: Incoming, id: Identity)
    requires Coherent(id) && Keyed(es, id.slug)
    ensures Keyed(MatchStep(es, rec, id), id.slug)
  {
    var r := MatchStep(es, rec, id);
    if FirstMatch(es, Name(rec), id.same, 0).Some? {
      var i := FirstMatch(es, Name(rec), id.same, 0).value;
      assert r[i].draft.name == es[i].draft.name;
    } else {
      UnmatchedSlugIsNew(es, Name(rec), id);
    }
  }

  /** The records of a pass, handled one after the other, each seeing the
    * entries the earlier ones inserted. */
  function MatchAll(es: seq<Entry>, recs: seq<Incoming>, id: Identity): (r: seq<Entry>)
    decreases |recs|
  {
    if recs == [] then es
    else
      var n := |recs| - 1;
      MatchStep(MatchAll(es, recs[..n], id), recs[n], id)
  }

  /** A pass never removes or reorders entries, adds at most one per record,
    * and keeps keys distinct and every entry under the slug of its name. */
  lemma {:induction false} MatchAllSpec(es: seq<Entry>, recs: seq<Incoming>, id: Identity)
    ensures |es| <= |MatchAll(es, recs, id)| <= |es| + |recs|
    ensures Keys(es) <= Keys(MatchAll(es, recs, id))
    ensures DistinctKeys(es) ==> DistinctKeys(MatchAll(es, recs, id))
    ensures Coherent(id) && Keyed(es, id.slug) ==> Keyed(MatchAll(es, recs, id), id.slug)
    decreases |recs|
  {
    if recs != [] {
      var n := |recs| - 1;
      var mid := MatchAll(es, recs[..n], id);
      MatchAllSpec(es, recs[..n], id);
      if Coherent(id) && Keyed(mid, id.slug) {
        MatchStepKeyed(mid, recs[n], id);
      }
      var r := MatchAll(es, recs, id);
      assert Keys(mid) <= Keys(r);
    }
  }

  /** An unmatched record's entry is visible to the next record of the same
    * pass: a second record that matches nothing older but is the same
    * project as the first is merged into the first one's new entry. */
  lemma InsertVisibleToLaterRecords(es: seq<Entry>, a: Incoming, b: Incoming, id: Identity)
    requires Coherent(id) && Keyed(es, id.slug)
    requires FirstMatch(es, Name(a), id.same, 0).None? && FirstMatch(es, Name(b), id.same, 0).None?
    requires id.same(Name(b), Name(a))
    ensures MatchAll(es, [a, b], id) == es + [Entry(id.slug(Name(a)), Merge(Insert(a, id.slug), b))]
  {
    assert [a, b][..1] == [a];
    assert [a][..0] == [];
    var mid := MatchAll(es, [a], id);
    assert MatchAll(es, [], id) == es;
    assert mid == MatchStep(es, a, id);
    UnmatchedSlugIsNew(es, Name(a), id);
    assert mid == es + [Entry(id.slug(Name(a)), Insert(a, id.slug))];
    assert FirstMatch(mid, Name(b), id.same, 0) == Some(|es|) by {
      FirstMatchSpec(es, Name(b), id.same, 0);
      assert forall j :: 0 <= j < |es| ==> mid[j] == es[j];
      FirstMatchAt(mid, Name(b), id.same, |es|);
    }
  }

  lemma FirstMatchAt(es: seq<Entry>, name: string, same: (string, string) -> bool, i: nat)
    requires i < |es| && same(name, es[i].draft.name)
    requires forall j :: 0 <= j < i ==> !same(name, es[j].draft.name)
    ensures FirstMatch(es, name, same, 0) == Some(i)
  {
    FirstMatchSpec(es, name, same, 0);
  }

  function NetlifyIncoming(nl: seq<NetlifyProject>): (r: seq<Incoming>)
    ensures |r| == |nl| && forall i :: 0 <= i < |nl| ==> r[i] == FromNetlify(nl[i])
  {
    seq(|nl|, i requires 0 <= i < |nl| => FromNetlify(nl[i]))
  }

  function VercelIncoming(vc: seq<VercelProject>): (r: seq<Incoming>)
    ensures |r| == |vc| && forall i :: 0 <= i < |vc| ==> r[i] == FromVercel(vc[i])
  {
    seq(|vc|, i requires 0 <= i < |vc| => FromVercel(vc[i]))
  }

  /** The map after the GitHub seeding, the Netlify pass and the Vercel pass. */
  function Reconciled(gh: seq<GitHubProject>, nl: seq<NetlifyProject>, vc: seq<VercelProject>, id: Identity): seq<Entry> {
    MatchAll(MatchAll(Seed(gh), NetlifyIncoming(nl), id), VercelIncoming(vc), id)
  }

  /** Entries are never removed: the GitHub keys come first in the final map,
    * which holds at most one entry per record scraped, with distinct keys,
    * each the slug of its entry's name. */
  lemma ReconciledSpec(gh: seq<GitHubProject>, nl: seq<NetlifyProject>, vc: seq<VercelProject>, id: Identity)
    requires Coherent(id)
    requires forall i :: 0 <= i < |gh| ==> gh[i].slug == id.slug(gh[i].name)
    ensures |Reconciled(gh, nl, vc, id)| <= |gh| + |nl| + |vc|
    ensures Keys(Seed(gh)) <= Keys(Reconciled(gh, nl, vc, id))
    ensures DistinctKeys(Reconciled(gh, nl, vc, id))
    ensures Keyed(Reconciled(gh, nl, vc, id), id.slug)
  {
    SeedKeyed(gh, id.slug);
    var s := Seed(gh);
    MatchAllSpec(s, NetlifyIncoming(nl), id);
    MatchAllSpec(MatchAll(s, NetlifyIncoming(nl), id), VercelIncoming(vc), id);
  }
}
