/** app/admin/page.tsx: the dashboard's list filter and the three id-keyed
  * list updates that follow a successful PATCH or screenshot call. The HTTP
  * calls and React state setters are not modelled; each update is the new
  * list handed to `setProjects`. */
module AdminPage {
  import opened Types
  import opened JsText

  /** The visibility selector: `'all' | 'public' | 'private'`. */
  datatype Visibility = AllProjects | PublicOnly | PrivateOnly

  /** The four filter inputs of the dashboard. `status` and `stage` are the
    * selected option strings, "all" or a literal. */
  datatype Filters = Filters(visibility: Visibility, status: string, stage: string, searchTerm: string)

  /** `project.is_public` as JavaScript tests it: an absent flag is falsy. */
  predicate IsPublic(p: Project) {
    p.isPublic == Some(true)
  }

  /** `field?.toLowerCase().includes(search)`: an absent field never matches. */
  predicate Mentions(field: Option<string>, search: string) {
    field.Some? && Includes(Lower(field.value), search)
  }

  /** The search clause for a lower-cased search term. */
  predicate Matches(p: Project, search: string) {
    Includes(Lower(p.name), search) || Mentions(p.tagline, search) || Mentions(p.description, search)
  }

  /** `project.current_status !== statusFilter`. */
  predicate StatusDiffers(p: Project, status: string) {
    p.currentStatus.None? || StatusName(p.currentStatus.value) != status
  }

  /** `project.production_stage !== stageFilter`. */
  predicate StageDiffers(p: Project, stage: string) {
    p.productionStage.None? || StageName(p.productionStage.value) != stage
  }

  /** The callback given to `projects.filter`, with its early returns in
    * source order. */
  predicate Kept(p: Project, f: Filters) {
    if f.visibility == PublicOnly && !IsPublic(p) then false
    else if f.visibility == PrivateOnly && IsPublic(p) then false
    else if f.status != "all" && StatusDiffers(p, f.status) then false
    else if f.stage != "all" && StageDiffers(p, f.stage) then false
    else if f.searchTerm != "" then Matches(p, Lower(f.searchTerm))
    else true
  }

  /** `filteredProjects`. */
  function FilteredProjects(projects: seq<Project>, f: Filters): seq<Project> {
    Filter(projects, p => Kept(p, f))
  }

  /** What each filter demands of a shown project, and that every project
    * meeting all of them is shown: the filters are a conjunction. */
  lemma KeptSpec(p: Project, f: Filters)
    ensures Kept(p, f) <==>
      && (f.visibility == PublicOnly ==> IsPublic(p))
      && (f.visibility == PrivateOnly ==> !IsPublic(p))
      && (f.status != "all" ==> p.currentStatus.Some? && StatusName(p.currentStatus.value) == f.status)
      && (f.stage != "all" ==> p.productionStage.Some? && StageName(p.productionStage.value) == f.stage)
      && (f.searchTerm != "" ==> Matches(p, Lower(f.searchTerm)))
  {
  }

  /** The shown list is exactly the kept projects, in their original order,
    * each as many times as it occurs in the list. */
  lemma FilteredSpec(projects: seq<Project>, f: Filters)
    ensures forall p :: p in FilteredProjects(projects, f) <==> p in projects && Kept(p, f)
    ensures IsSubsequence(FilteredProjects(projects, f), projects)
    ensures forall p :: multiset(FilteredProjects(projects, f))[p] == if Kept(p, f) then multiset(projects)[p] else 0
  {
    FilterSpec(projects, p => Kept(p, f));
  }

  /** With every selector on "all" and an empty search, nothing is hidden. */
  lemma NoFilterShowsAll(projects: seq<Project>)
    ensures FilteredProjects(projects, Filters(AllProjects, "all", "all", "")) == projects
  {
    FilterSpec(projects, p => Kept(p, Filters(AllProjects, "all", "all", "")));
  }

  /** The public and the private view split the list: no project is in
    * both, and every project is in one of them. */
  lemma VisibilityPartition(projects: seq<Project>, status: string, stage: string, searchTerm: string)
    ensures var pub := FilteredProjects(projects, Filters(PublicOnly, status, stage, searchTerm));
            var priv := FilteredProjects(projects, Filters(PrivateOnly, status, stage, searchTerm));
            var all := FilteredProjects(projects, Filters(AllProjects, status, stage, searchTerm));
      && (forall p :: p in pub ==> p !in priv)
      && (forall p :: p in all <==> p in pub || p in priv)
  {
    FilteredSpec(projects, Filters(PublicOnly, status, stage, searchTerm));
    FilteredSpec(projects, Filters(PrivateOnly, status, stage, searchTerm));
    FilteredSpec(projects, Filters(AllProjects, status, stage, searchTerm));
  }

  // ---------------------------------------------------------------------
  // Id-keyed updates: `projects.map(p => p.id === projectId ? {...} : p)`
  // ---------------------------------------------------------------------

  /** `p.id === projectId`. */
  predicate HasId(p: Project, projectId: string) {
    p.id == Some(projectId)
  }

  /** The list with `change` applied to every project carrying the id. */
  function MapById(projects: seq<Project>, projectId: string, change: Project -> Project): (r: seq<Project>)
    ensures |r| == |projects|
    ensures forall i :: 0 <= i < |projects| && HasId(projects[i], projectId) ==> r[i] == change(projects[i])
    ensures forall i :: 0 <= i < |projects| && !HasId(projects[i], projectId) ==> r[i] == projects[i]
  {
    seq(|projects|, i requires 0 <= i < |projects| =>
      if HasId(projects[i], projectId) then change(projects[i]) else projects[i])
  }

  /** `{ ...p, is_public: !isPublic }`. */
  function SetVisibility(isPublic: bool): Project -> Project {
    (p: Project) => p.(isPublic := Some(!isPublic))
  }

  /** `handleToggleVisibility`'s new list. */
  function ToggleVisibility(projects: seq<Project>, projectId: string, isPublic: bool): seq<Project> {
    MapById(projects, projectId, SetVisibility(isPublic))
  }

  /** The toggled project gets the opposite of the flag its card showed;
    * everything else, including every other project, is unchanged. */
  lemma ToggleSpec(projects: seq<Project>, projectId: string, isPublic: bool)
    ensures var r := ToggleVisibility(projects, projectId, isPublic);
      && |r| == |projects|
      && (forall i :: 0 <= i < |r| && HasId(projects[i], projectId) ==>
            r[i].isPublic == Some(!isPublic) && r[i].(isPublic := projects[i].isPublic) == projects[i])
      && (forall i :: 0 <= i < |r| && !HasId(projects[i], projectId) ==> r[i] == projects[i])
  {
  }

  /** Toggling twice, each time with the flag the card then shows, gives
    * back the list, provided the card showed the project's actual flag. */
  lemma ToggleTwice(projects: seq<Project>, projectId: string, isPublic: bool)
    requires forall i :: 0 <= i < |projects| && HasId(projects[i], projectId) ==> projects[i].isPublic == Some(isPublic)
    ensures ToggleVisibility(ToggleVisibility(projects, projectId, isPublic), projectId, !isPublic) == projects
  {
    var once := ToggleVisibility(projects, projectId, isPublic);
    var twice := ToggleVisibility(once, projectId, !isPublic);
    forall i | 0 <= i < |projects| ensures twice[i] == projects[i] {
      if HasId(projects[i], projectId) {
        assert HasId(once[i], projectId);
      }
    }
  }

  /** `handleUpdateProject`'s new list: `{ ...p, ...updated.project }`, where
    * the returned row carries every column, so it replaces the project. */
  function UpdateProject(projects: seq<Project>, projectId: string, row: Project): seq<Project> {
    MapById(projects, projectId, _ => row)
  }

  /** `handleRegenerateScreenshot`'s new list: `{ ...p, screenshot_url }`. */
  function RegenerateScreenshot(projects: seq<Project>, projectId: string, screenshotUrl: Option<string>): seq<Project> {
    MapById(projects, projectId, (p: Project) => p.(screenshotUrl := screenshotUrl))
  }

  /** Only the project with the id takes the returned row or screenshot;
    * the others keep their place and their contents. */
  lemma UpdatesTouchOnlyTheId(projects: seq<Project>, projectId: string, row: Project, screenshotUrl: Option<string>)
    ensures var u := UpdateProject(projects, projectId, row);
      && |u| == |projects|
      && (forall i :: 0 <= i < |u| ==> u[i] == if HasId(projects[i], projectId) then row else projects[i])
    ensures var s := RegenerateScreenshot(projects, projectId, screenshotUrl);
      && |s| == |projects|
      && (forall i :: 0 <= i < |s| && HasId(projects[i], projectId) ==>
            s[i].screenshotUrl == screenshotUrl && s[i].(screenshotUrl := projects[i].screenshotUrl) == projects[i])
      && (forall i :: 0 <= i < |s| && !HasId(projects[i], projectId) ==> s[i] == projects[i])
  {
  }

  /** An id that no project carries leaves the list as it is. */
  lemma UnknownIdChangesNothing(projects: seq<Project>, projectId: string, change: Project -> Project)
    requires forall i :: 0 <= i < |projects| ==> !HasId(projects[i], projectId)
    ensures MapById(projects, projectId, change) == projects
  {
  }

  /** Regenerating a screenshot twice with the same answer is the same as
    * once. */
  lemma RegenerateIdempotent(projects: seq<Project>, projectId: string, screenshotUrl: Option<string>)
    ensures var once := RegenerateScreenshot(projects, projectId, screenshotUrl);
      RegenerateScreenshot(once, projectId, screenshotUrl) == once
  {
    var once := RegenerateScreenshot(projects, projectId, screenshotUrl);
    var twice := RegenerateScreenshot(once, projectId, screenshotUrl);
    forall i | 0 <= i < |once| ensures twice[i] == once[i] {
      if HasId(projects[i], projectId) {
        assert HasId(once[i], projectId);
      }
    }
  }
}
