/** app/page.tsx: the public page's stage filter. The filter value is the
  * string the stage buttons set: "all" or one of the stage literals. */
module HomePage {
  import opened Types
  import opened JsText

  /** `project.production_stage === filter`: an absent stage equals no
    * filter value. */
  predicate HasStage(p: Project, filter: string) {
    p.productionStage.Some? && StageName(p.productionStage.value) == filter
  }

  /** The callback given to `projects.filter`. */
  predicate Shown(p: Project, filter: string) {
    if filter == "all" then true else HasStage(p, filter)
  }

  /** `filteredProjects`. */
  function FilteredProjects(projects: seq<Project>, filter: string): seq<Project> {
    Filter(projects, p => Shown(p, filter))
  }

  /** "all" shows every project, in the order fetched. */
  lemma AllShowsEverything(projects: seq<Project>)
    ensures FilteredProjects(projects, "all") == projects
  {
    FilterSpec(projects, p => Shown(p, "all"));
  }

  /** Any other filter shows exactly the projects whose stage is named by
    * it, each as often as it occurs, and keeps their order. */
  lemma StageFilterSpec(projects: seq<Project>, filter: string)
    requires filter != "all"
    ensures forall p :: p in FilteredProjects(projects, filter) ==> HasStage(p, filter)
    ensures forall p :: p in projects && HasStage(p, filter) ==> p in FilteredProjects(projects, filter)
    ensures IsSubsequence(FilteredProjects(projects, filter), projects)
    ensures forall p :: multiset(FilteredProjects(projects, filter))[p] == (if HasStage(p, filter) then multiset(projects)[p] else 0)
  {
    FilterSpec(projects, p => Shown(p, filter));
  }

  /** A filter naming no stage shows nothing. */
  lemma UnknownStageShowsNothing(projects: seq<Project>, filter: string)
    requires filter !in {"all", "Production", "Staging", "Development", "Archived"}
    ensures FilteredProjects(projects, filter) == []
  {
    forall p ensures !Shown(p, filter) {
      if p.productionStage.Some? {
        assert StageName(p.productionStage.value) in {"Production", "Staging", "Development", "Archived"};
      }
    }
    FilterSpec(projects, p => Shown(p, filter));
  }
}
