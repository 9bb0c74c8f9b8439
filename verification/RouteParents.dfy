/** What the route above a route is, field by field. */
module RouteParents {
  import opened Wrappers
  import opened PathText
  import opened RouteTable
  import opened RouteParsing
  import opened RouteIdentity
  import opened RouteAncestry

  /** A route with no file, commit, file list or number of its own. */
  predicate Plain(r: Route) {
    r.path == "" && r.sha == "" && !r.files && r.number.None?
  }

  /** The innermost detail dropped, and its line with a file; everything else kept. */
  ghost predicate DropsInnermost(r: Route, p: Route) {
    if r.path != "" then p == r.(path := "", line := None)
    else if r.sha != "" then p == r.(sha := "")
    else if r.files then p == r.(files := false)
    else r.number.Some? && p == r.(number := None)
  }

  /** The route above: the same one without its innermost detail, and the tab's home when there is none. */
  ghost predicate IsParent(r: Route, p: Route) {
    if Plain(r) then p == TabHome(TabOfKind(r.kind)) else DropsInnermost(r, p)
  }

  // ----- sections

  lemma SectionMade(sectionId: string, surface: string, options: Route)
    requires sectionId == Trim(sectionId) != "" && surface == Surface(surface)
    requires options.sectionId == sectionId && options.sectionSurface == surface
    ensures SectionDetailRoute(options) == Some(SectionRouteFor(sectionId, surface, options))
  {
  }

  lemma SectionWithoutPath(r: Route, options: Route)
    requires r == SectionRouteFor(r.sectionId, r.sectionSurface, r) && r.path != ""
    requires options == r.(path := "")
             || (r.sectionSurface == "review"
                 && options == ReviewOptions(r).(sectionId := r.sectionId, sectionSurface := "review"))
    ensures SectionRouteFor(r.sectionId, r.sectionSurface, options) == r.(path := "", line := None)
  {
    SectionPathEmpty(r.sectionSurface);
  }

  lemma SectionWithoutSha(r: Route)
    requires r == SectionRouteFor(r.sectionId, r.sectionSurface, r) && r.path == ""
    ensures SectionRouteFor(r.sectionId, r.sectionSurface, r.(sha := "")) == r.(sha := "")
  {
  }

  lemma SectionWithoutFiles(r: Route)
    requires r == SectionRouteFor(r.sectionId, r.sectionSurface, r)
    ensures SectionRouteFor(r.sectionId, r.sectionSurface, r.(files := false)) == r.(files := false)
  {
  }

  lemma SectionWithoutNumber(r: Route)
    requires r == SectionRouteFor(r.sectionId, r.sectionSurface, r) && !r.files
    ensures SectionRouteFor(r.sectionId, r.sectionSurface, r.(number := None)) == r.(number := None)
  {
    assert PositiveInteger("").None?;
  }

  /** Which details a section can have. */
  lemma SectionHas(r: Route)
    requires r == SectionRouteFor(r.sectionId, r.sectionSurface, r)
    ensures r.path != "" ==> r.sectionSurface in ["review", "git", "github"]
    ensures r.sha != "" ==> r.sectionSurface == "git" && r.sectionTool == "log"
    ensures r.files || r.number.Some? ==> r.sectionSurface == "github"
    ensures r.files ==> r.number.Some?
  {
  }

  lemma SectionParent(r: Route)
    requires r == SectionRouteFor(r.sectionId, r.sectionSurface, r)
    requires r.sectionId == Trim(r.sectionId) != "" && r.sectionSurface == Surface(r.sectionSurface)
    requires PositiveOrNone(r.number)
    ensures SectionParentRoute(r).Some? && IsParent(r, SectionParentRoute(r).value)
  {
    SectionHas(r);
    var options := SectionParentOptions(r);
    if options.Some? {
      SectionMade(r.sectionId, r.sectionSurface, options.value);
    }
    if r.path != "" {
      SectionWithoutPath(r, options.value);
    } else if r.sha != "" {
      SectionWithoutSha(r);
    } else if r.files {
      SectionWithoutFiles(r);
    } else if r.number.Some? {
      SectionWithoutNumber(r);
    }
  }

  // ----- the other pages

  lemma ReviewParent(r: Route)
    requires r == TasksRoute(r) && r.review && r.threadId != "" && !r.isNew
    ensures ParentOf(TasksReview, r).Some? && IsParent(r, ParentOf(TasksReview, r).value)
  {
    EmptyReviewPath();
  }

  lemma CompareParent(r: Route)
    requires r == GitCompareRoute(r.threadId, r)
    ensures ParentOf(GitCompare, r).Some? && IsParent(r, ParentOf(GitCompare, r).value)
  {
    EmptyRelativePath();
  }

  lemma LogParent(r: Route)
    requires r == GitLogRoute(r.threadId, r)
    ensures ParentOf(GitLog, r).Some? && IsParent(r, ParentOf(GitLog, r).value)
  {
    EmptyRelativePath();
  }

  lemma IssuesParent(r: Route)
    requires r == GithubIssuesRoute(r.threadId, r)
    ensures r.number.None? ==> IsParent(r, ParentOf(IssuesList, r).value)
    ensures r.number.Some? ==> IsParent(r, ParentOf(IssuesDetail, r).value)
  {
  }

  lemma PullsParent(r: Route)
    requires r == GithubPullsRoute(r.threadId, r) && (r.files ==> r.number.Some?) && (!r.files ==> r.path == "")
    ensures r.number.None? ==> IsParent(r, ParentOf(PullsList, r).value)
    ensures r.number.Some? && !r.files ==> IsParent(r, ParentOf(PullsDetail, r).value)
    ensures r.files ==> IsParent(r, ParentOf(PullsFiles, r).value)
  {
    EmptyRelativePath();
  }

  /** Tasks without a review have no details, so only home is above them. */
  lemma TaskPlain(r: Route)
    requires r == TasksRoute(r) && !r.review
    ensures Plain(r)
  {
  }

  lemma TaskParent(r: Route)
    requires r == TasksRoute(r) && r.sectionId == "" && (r.threadId != "" ==> !r.isNew)
    ensures var p := ParentOf(IdOf(r), r); p.Some? ==> IsParent(r, p.value)
  {
    if r.kind.Tasks? && r.review && r.threadId != "" {
      ReviewParent(r);
    } else {
      TaskPlain(r);
    }
  }

  lemma RepositoryParent(r: Route)
    requires Canonical(r) && RepositoryKind(r.kind)
    ensures var p := ParentOf(IdOf(r), r); p.Some? ==> IsParent(r, p.value)
  {
    match r.kind
    case Compare => CompareParent(r);
    case Log => LogParent(r);
    case Issues => IssuesParent(r);
    case Pulls => PullsParent(r);
  }

  /** A page of notes or settings other than the home has nothing above it but the home. */
  lemma OtherTabParent(r: Route)
    requires (r.kind.Notes? && r == NotesRoute(r.noteId, r.secondaryNoteId)) || (r.kind.Settings? && r == SettingsRoute(r.section))
    ensures var p := ParentOf(IdOf(r), r); p.Some? ==> IsParent(r, p.value)
  {
  }

  lemma ParentOfMeans(r: Route)
    requires Canonical(r)
    ensures var p := ParentOf(IdOf(r), r); p.Some? ==> IsParent(r, p.value)
  {
    if r.kind.Notes? || r.kind.Settings? {
      OtherTabParent(r);
    } else if RepositoryKind(r.kind) {
      RepositoryParent(r);
    } else if r.sectionId != "" {
      SectionFixpoint(r);
      CanonicalSection(r);
      SectionParent(r);
    } else {
      TaskParent(r);
    }
  }

  /** Any parent is the route with its innermost detail dropped, or the home of its tab when it has none. */
  lemma ParentMeans(r: Route)
    requires Canonical(r)
    ensures var p := ParentRoute(r);
            && (p.None? <==> r == TabHome(TabOfKind(r.kind)))
            && (p.Some? ==> IsParent(r, p.value))
  {
    DefinitionForCanonical(r);
    ParentStep(r);
    ParentOfMeans(r);
  }

  lemma CanonicalSection(r: Route)
    requires Canonical(r) && r.kind.Tasks? && r.sectionId != ""
    ensures r.sectionId == Trim(r.sectionId) != "" && r.sectionSurface == Surface(r.sectionSurface)
    ensures IdOf(r).SectionDetail?
  {
    var made := SectionRouteFor(Trim(r.sectionId), Surface(r.sectionSurface), r);
    assert made == r;
  }

  lemma FieldDropped(r: Route)
    ensures r.path != "" ==> Level(r.(path := "", line := None)) == Level(r) - 1
    ensures r.sha != "" ==> Level(r.(sha := "")) == Level(r) - 1
    ensures r.files ==> Level(r.(files := false)) == Level(r) - 1
    ensures r.number.Some? ==> Level(r.(number := None)) == Level(r) - 1
  {
  }

  lemma DropsOneLevel(r: Route, p: Route)
    requires IsParent(r, p) && Level(p) < Level(r)
    requires Plain(r) ==> Level(r) <= 1
    ensures Level(p) == Level(r) - 1
  {
    FieldDropped(r);
  }

  lemma PlainLevel(r: Route)
    requires Plain(r)
    ensures Level(r) <= 1
  {
  }

  /** Every route but a tab's home sits exactly one level below another. */
  lemma ParentOneLevelUp(r: Route)
    requires Canonical(r)
    ensures var p := ParentRoute(r); if p.Some? then Level(p.value) == Level(r) - 1 else Level(r) == 0
  {
    ParentMeans(r);
    ParentStep(r);
    var p := ParentRoute(r);
    if p.Some? {
      if Plain(r) { PlainLevel(r); }
      DropsOneLevel(r, p.value);
    }
  }
}
