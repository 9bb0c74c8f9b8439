/** The route each screen sits under, and how one route stands to another. */
module RouteAncestry {
  import opened Wrappers
  import opened PathText
  import opened RouteTable
  import opened RouteParsing
  import opened RouteIdentity

  // ----- parents

  /** The Task list, which the constructor makes when given nothing. */
  const HOME: Route := EMPTY

  lemma HomeMade()
    ensures TasksRoute(EMPTY) == HOME
  {
  }

  /** What a review page passes up: everything but the file. */
  function ReviewOptions(r: Route): Route {
    EMPTY.(
      reviewScope := r.reviewScope,
      reviewNavigator := r.reviewNavigator,
      reviewViewer := r.reviewViewer,
      baseRef := r.baseRef)
  }

  /** The fields a section's page passes up, its innermost detail dropped; none when only the list is above. */
  function SectionParentOptions(r: Route): Option<Route> {
    if r.sectionSurface == "review" then
      if r.path != "" then Some(ReviewOptions(r).(sectionId := r.sectionId, sectionSurface := "review")) else None
    else if r.sectionSurface == "git" then
      if r.path != "" then Some(r.(path := ""))
      else if r.sectionTool == "log" && r.sha != "" then Some(r.(sha := ""))
      else None
    else if r.sectionSurface == "github" then
      if r.path != "" then Some(r.(path := ""))
      else if r.files then Some(r.(files := false))
      else if Truthy(Get(r, Number)) then Some(r.(number := None))
      else None
    else None
  }

  function SectionParentRoute(r: Route): Option<Route> {
    var options := SectionParentOptions(r);
    if options.Some? then SectionDetailRoute(options.value) else Some(HOME)
  }

  function ParentOf(id: Id, r: Route): Option<Route> {
    match id
    case NotesHome => None
    case NotesNote => Some(NotesRoute("", ""))
    case SettingsHome => None
    case SettingsSection(_) => Some(SettingsRoute(""))
    case SectionDetail => SectionParentRoute(r)
    case TasksHome => None
    case LegacyTasksList => None
    case TasksNew => Some(HOME)
    case TasksReview =>
      if r.path != "" then
        Some(TasksRoute(ReviewOptions(r).(threadId := r.threadId, review := true)))
      else Some(HOME)
    case GitCompare =>
      if r.path != "" then Some(GitCompareRoute(r.threadId, EMPTY.(baseRef := r.baseRef, headRef := r.headRef)))
      else Some(HOME)
    case GitLog =>
      if r.path != "" then Some(GitLogRoute(r.threadId, EMPTY.(page := r.page, sha := r.sha)))
      else if r.sha != "" then Some(GitLogRoute(r.threadId, EMPTY.(page := r.page)))
      else Some(HOME)
    case IssuesList => Some(HOME)
    case IssuesDetail => Some(GithubIssuesRoute(r.threadId, EMPTY.(page := r.page)))
    case PullsList => Some(HOME)
    case PullsDetail => Some(GithubPullsRoute(r.threadId, EMPTY.(page := r.page)))
    case PullsFiles =>
      if r.path != "" then Some(GithubPullsRoute(r.threadId, EMPTY.(page := r.page, number := r.number, files := true)))
      else Some(GithubPullsRoute(r.threadId, EMPTY.(page := r.page, number := r.number)))
    case TasksTerminal => Some(HOME)
    case TasksRecovery => Some(HOME)
    case TasksDetail => Some(HOME)
  }

  function ParentRoute(r: Route): Option<Route> {
    var id := DefinitionFor(r);
    if id.Some? then ParentOf(id.value, r) else None
  }

  datatype Tab = TasksTab | NotesTab | SettingsTab

  function TabOfKind(kind: Kind): Tab {
    if kind.Notes? then NotesTab else if kind.Settings? then SettingsTab else TasksTab
  }

  function RouteTab(r: Route): Tab {
    var id := DefinitionFor(r);
    if id.Some? then TabOfKind(KindOf(id.value)) else TasksTab
  }

  function TabHome(tab: Tab): Route {
    match tab
    case TasksTab => HOME
    case NotesTab => NotesRoute("", "")
    case SettingsTab => SettingsRoute("")
  }

  // ----- one step up

  lemma HomeCanonical()
    ensures Canonical(HOME)
  {
    TasksCanonical(EMPTY);
    HomeMade();
  }

  function CountIf(present: bool): nat {
    if present then 1 else 0
  }

  /** How many fields still separate a route from its tab's home. */
  function Level(r: Route): nat {
    CountIf(r.noteId != "" || r.section != "" || r.sectionId != "" || r.isNew || r.threadId != "") + Details(r)
  }

  function Details(r: Route): nat {
    CountIf(r.path != "") + CountIf(r.sha != "") + CountIf(r.files) + CountIf(r.number.Some?)
  }

  lemma EmptyReviewPath()
    ensures ReviewFilePath("") == ""
  {
    assert Forward("") == "";
    assert PushAll([], [""]) == PushAll([], []) == [];
  }

  lemma EmptyRelativePath()
    ensures SafeRelativePath("") == ""
  {
    assert NamedOnly([""]) == [];
  }

  lemma SectionPathEmpty(surface: string)
    ensures SectionPath(surface, "") == ""
  {
    EmptyReviewPath();
    EmptyRelativePath();
  }

  /** A section's constructor adds no details of its own. */
  lemma SectionDetails(sectionId: string, surface: string, options: Route)
    requires options.path == "" ==> SectionPath(surface, options.path) == ""
    ensures Details(SectionRouteFor(sectionId, surface, options)) <= Details(options)
  {
    if options.path == "" {
      SectionDetailsNoPath(sectionId, surface, options);
    } else {
      SectionNumbers(sectionId, surface, options);
    }
  }

  lemma SectionNumbers(sectionId: string, surface: string, options: Route)
    ensures var made := SectionRouteFor(sectionId, surface, options);
            && CountIf(made.number.Some?) <= CountIf(options.number.Some?)
            && CountIf(made.files) <= CountIf(options.files) && CountIf(made.sha != "") <= CountIf(options.sha != "")
  {
    assert PositiveInteger("").None?;
  }

  lemma SectionDetailsNoPath(sectionId: string, surface: string, options: Route)
    requires SectionPath(surface, options.path) == ""
    ensures Details(SectionRouteFor(sectionId, surface, options)) <= Details(options)
  {
    assert PositiveInteger("").None?;
  }

  lemma SectionOptionsRise(options: Route)
    ensures var p := SectionDetailRoute(options);
            p.Some? ==> p.value.kind.Tasks? && Level(p.value) <= 1 + Details(options)
  {
    SectionPathEmpty(Surface(options.sectionSurface));
    SectionDetails(Trim(options.sectionId), Surface(options.sectionSurface), options);
  }

  lemma SectionRises(r: Route)
    requires r.sectionId != ""
    ensures var p := SectionParentRoute(r); p.Some? ==> p.value.kind.Tasks? && Level(p.value) < Level(r)
  {
    var options := SectionParentOptions(r);
    if options.Some? {
      FewerDetails(r);
      SectionOptionsRise(options.value);
    }
  }

  lemma FewerDetails(r: Route)
    ensures var options := SectionParentOptions(r); options.Some? ==> Details(options.value) < Details(r)
  {
    assert Details(ReviewOptions(r).(sectionId := r.sectionId, sectionSurface := "review")) == 0;
    FewerFields(r);
  }

  /** Dropping a field a route has leaves fewer. */
  lemma FewerFields(r: Route)
    ensures r.path != "" ==> Details(r.(path := "")) < Details(r)
    ensures r.sha != "" ==> Details(r.(sha := "")) < Details(r)
    ensures r.files ==> Details(r.(files := false)) < Details(r)
    ensures r.number.Some? ==> Details(r.(number := None)) < Details(r)
    ensures r.path != "" ==> 0 < Details(r)
  {
  }

  lemma TaskDetails(options: Route)
    requires ReviewFilePath(options.path) == ""
    ensures Details(TasksRoute(options)) == 0
  {
  }

  lemma CompareDetails(threadId: string, options: Route)
    requires SafeRelativePath(options.path) == ""
    ensures Details(GitCompareRoute(threadId, options)) == 0
  {
  }

  lemma LogDetails(threadId: string, options: Route)
    requires SafeRelativePath(options.path) == ""
    ensures Details(GitLogRoute(threadId, options)) == CountIf(options.sha != "")
  {
  }

  lemma PullsDetails(threadId: string, options: Route)
    requires SafeRelativePath(options.path) == ""
    ensures Details(GithubPullsRoute(threadId, options)) == CountIf(options.files) + CountIf(options.number.Some?)
  {
  }

  lemma TaskRises(r: Route)
    requires r.threadId != ""
    ensures var p := ParentOf(TasksReview, r); p.Some? && p.value.kind.Tasks? && Level(p.value) < Level(r)
  {
    EmptyReviewPath();
    TaskDetails(ReviewOptions(r).(threadId := r.threadId, review := true));
  }

  lemma CompareRises(r: Route)
    requires r.threadId != ""
    ensures var p := ParentOf(GitCompare, r); p.Some? && TabOfKind(p.value.kind).TasksTab? && Level(p.value) < Level(r)
  {
    EmptyRelativePath();
    CompareDetails(r.threadId, EMPTY.(baseRef := r.baseRef, headRef := r.headRef));
  }

  lemma LogRises(r: Route)
    requires r.threadId != ""
    ensures var p := ParentOf(GitLog, r); p.Some? && TabOfKind(p.value.kind).TasksTab? && Level(p.value) < Level(r)
  {
    EmptyRelativePath();
    LogDetails(r.threadId, EMPTY.(page := r.page, sha := r.sha));
    LogDetails(r.threadId, EMPTY.(page := r.page));
  }

  lemma PullsDetailRises(r: Route)
    requires r.threadId != "" && r.number.Some?
    ensures var p := ParentOf(PullsDetail, r); p.Some? && TabOfKind(p.value.kind).TasksTab? && Level(p.value) < Level(r)
  {
    EmptyRelativePath();
    PullsDetails(r.threadId, EMPTY.(page := r.page));
  }

  lemma PullsFilesRise(r: Route)
    requires r.threadId != "" && r.number.Some? && r.files
    ensures var p := ParentOf(PullsFiles, r); p.Some? && TabOfKind(p.value.kind).TasksTab? && Level(p.value) < Level(r)
  {
    EmptyRelativePath();
    PullsDetails(r.threadId, EMPTY.(page := r.page, number := r.number));
    PullsDetails(r.threadId, EMPTY.(page := r.page, number := r.number, files := true));
  }

  /** A step up stays in the tab and drops a level. */
  lemma ParentRises(r: Route)
    requires RepositoryKind(r.kind) ==> r.threadId != ""
    ensures var p := ParentOf(IdOf(r), r);
            p.Some? ==> TabOfKind(p.value.kind) == TabOfKind(r.kind) && Level(p.value) < Level(r)
  {
    match IdOf(r)
    case SectionDetail => SectionRises(r);
    case TasksReview => TaskRises(r);
    case GitCompare => CompareRises(r);
    case GitLog => LogRises(r);
    case PullsDetail => PullsDetailRises(r);
    case PullsFiles => PullsFilesRise(r);
    case _ => PlainRises(r);
  }

  lemma PlainRises(r: Route)
    requires RepositoryKind(r.kind) ==> r.threadId != ""
    requires !IdOf(r).SectionDetail? && !IdOf(r).TasksReview? && !IdOf(r).GitCompare? && !IdOf(r).GitLog?
    requires !IdOf(r).PullsDetail? && !IdOf(r).PullsFiles?
    ensures var p := ParentOf(IdOf(r), r);
            p.Some? ==> TabOfKind(p.value.kind) == TabOfKind(r.kind) && Level(p.value) < Level(r)
  {
  }

  /** A step up stays among the routes addresses name. */
  lemma ParentCanonical(r: Route)
    requires PathShape(r) && (RepositoryKind(r.kind) ==> PositiveOrNone(r.page))
    ensures var p := ParentOf(IdOf(r), r); p.Some? ==> Canonical(p.value)
  {
    match IdOf(r)
    case NotesNote => NotesCanonical("", "");
    case SettingsSection(_) => SettingsCanonical("");
    case SectionDetail => SectionParentCanonical(r);
    case TasksReview => ReviewParentCanonical(r);
    case GitCompare => GitParentCanonical(r);
    case GitLog => GitParentCanonical(r);
    case IssuesDetail => IssuesCanonical(r.threadId, EMPTY.(page := r.page));
    case PullsDetail => PullsParentCanonical(r);
    case PullsFiles => PullsParentCanonical(r);
    case _ => HomeCanonical();
  }

  lemma ReviewParentCanonical(r: Route)
    requires r.threadId != "" && Named(r.threadId)
    ensures var p := ParentOf(TasksReview, r); p.Some? && Canonical(p.value)
  {
    HomeCanonical();
    TasksCanonical(ReviewOptions(r).(threadId := r.threadId, review := true));
  }

  lemma GitParentCanonical(r: Route)
    requires Named(r.threadId) && PositiveOrNone(r.page)
    ensures var p := ParentOf(GitCompare, r); p.Some? && Canonical(p.value)
    ensures var p := ParentOf(GitLog, r); p.Some? && Canonical(p.value)
  {
    HomeCanonical();
    CompareCanonical(r.threadId, EMPTY.(baseRef := r.baseRef, headRef := r.headRef));
    LogCanonical(r.threadId, EMPTY.(page := r.page, sha := r.sha));
    LogCanonical(r.threadId, EMPTY.(page := r.page));
  }

  lemma PullsParentCanonical(r: Route)
    requires Named(r.threadId) && PositiveOrNone(r.page) && PositiveOrNone(r.number) && r.number.Some?
    ensures Canonical(GithubPullsRoute(r.threadId, EMPTY.(page := r.page)))
    ensures Canonical(GithubPullsRoute(r.threadId, EMPTY.(page := r.page, number := r.number)))
    ensures Canonical(GithubPullsRoute(r.threadId, EMPTY.(page := r.page, number := r.number, files := true)))
  {
    PullsCanonical(r.threadId, EMPTY.(page := r.page));
    PullsCanonical(r.threadId, EMPTY.(page := r.page, number := r.number));
    PullsCanonical(r.threadId, EMPTY.(page := r.page, number := r.number, files := true));
  }

  lemma SectionParentCanonical(r: Route)
    ensures var p := SectionParentRoute(r); p.Some? ==> Canonical(p.value)
  {
    HomeCanonical();
    var options := SectionParentOptions(r);
    if options.Some? { SectionDetailRouteIdempotent(options.value); }
  }

  lemma CanonicalPage(r: Route)
    requires Canonical(r)
    ensures RepositoryKind(r.kind) ==> PositiveOrNone(r.page)
    ensures r.sectionId != "" && r.kind.Tasks? ==> Trim(r.sectionId) != ""
  {
    if r.kind.Compare? { assert r == GitCompareRoute(r.threadId, r); }
  }

  /** Only the home of its tab sits under nothing. */
  lemma ParentMissing(r: Route)
    requires Canonical(r)
    ensures ParentOf(IdOf(r), r).None? <==> r == TabHome(TabOfKind(r.kind))
  {
    CanonicalPage(r);
    KindOfId(r);
    match IdOf(r)
    case TasksHome => HomeOnly(r);
    case SettingsHome => SettingsOwn(r);
    case SectionDetail => SectionParentPresent(r);
    case NotesHome =>
    case _ => ParentPresent(IdOf(r), r);
  }

  lemma SectionParentPresent(r: Route)
    requires Trim(r.sectionId) != ""
    ensures SectionParentRoute(r).Some?
  {
  }

  lemma ParentPresent(id: Id, r: Route)
    requires !id.TasksHome? && !id.SettingsHome? && !id.NotesHome? && !id.SectionDetail? && !id.LegacyTasksList?
    ensures ParentOf(id, r).Some?
  {
  }

  lemma HomeOnly(r: Route)
    requires Canonical(r) && IdOf(r).TasksHome?
    ensures r == HOME
  {
    KindOfId(r);
    assert r == TasksRoute(r);
    HomeMade();
  }

  /** Every canonical route but a tab's home has a canonical parent in its tab, one level up or more. */
  lemma ParentStep(r: Route)
    requires Canonical(r)
    ensures RouteTab(r) == TabOfKind(r.kind)
    ensures var p := ParentRoute(r);
            && (p.None? <==> r == TabHome(RouteTab(r)))
            && (p.Some? ==> Canonical(p.value) && TabOfKind(p.value.kind) == TabOfKind(r.kind) && Level(p.value) < Level(r))
  {
    DefinitionForCanonical(r);
    KindOfId(r);
    CanonicalPathShape(r);
    CanonicalPage(r);
    ParentMissing(r);
    ParentRises(r);
    ParentCanonical(r);
  }
}
