/** Which routes addresses parse to, and why printing one and parsing it again gives it back. */
module RouteParsing {
  import opened Wrappers
  import opened PathText
  import opened RouteTable
  import opened RouteRoundTrip

  // ----- canonical routes

  /** A Task id a path segment can hold. */
  predicate TaskId(threadId: string) {
    Named(threadId)
  }

  predicate PositiveOrNone(number: Option<nat>) {
    number.Some? ==> number.value > 0
  }

  /** What its own constructor would make of a route it made, plus what a path can carry. */
  ghost predicate Canonical(r: Route) {
    match r.kind
    case Notes => r == NotesRoute(r.noteId, r.secondaryNoteId) && (r.noteId != "" ==> Named(r.noteId))
    case Settings => r == SettingsRoute(r.section)
    case Tasks =>
      if r.sectionId != "" then SectionDetailRoute(r) == Some(r)
      else
        && r == TasksRoute(r)
        && (r.threadId != "" ==> TaskId(r.threadId) && !r.isNew)
        && (r.threadId == "new" ==> r.review || r.recovery || r.terminal)
    case Compare => TaskId(r.threadId) && r == GitCompareRoute(r.threadId, r)
    case Log =>
      TaskId(r.threadId) && r == GitLogRoute(r.threadId, r) && r.page.Some? && PositiveOrNone(r.page)
    case Issues =>
      && TaskId(r.threadId) && r == GithubIssuesRoute(r.threadId, r)
      && r.page.Some? && PositiveOrNone(r.page) && PositiveOrNone(r.number)
    case Pulls =>
      && TaskId(r.threadId) && r == GithubPullsRoute(r.threadId, r)
      && r.page.Some? && PositiveOrNone(r.page) && PositiveOrNone(r.number)
      && (r.files ==> r.number.Some?) && (!r.files ==> r.path == "")
  }

  ghost function SettingsId(section: string): (id: Id)
    ensures section == "" ==> id == SettingsHome
    ensures section != "" && KnownSection(section) ==> id.SettingsSection? && NameText(id.name) == section
  {
    if section != "" && KnownSection(section) then
      var name :| name in SETTINGS_NAMES && NameText(name) == section;
      SettingsSection(name)
    else SettingsHome
  }

  /** The definition a canonical route belongs to. */
  ghost function IdOf(r: Route): Id {
    match r.kind
    case Notes => if r.noteId == "" then NotesHome else NotesNote
    case Settings => SettingsId(r.section)
    case Tasks =>
      if r.sectionId != "" then SectionDetail
      else if r.isNew then TasksNew
      else if r.threadId == "" then TasksHome
      else if r.review then TasksReview
      else if r.recovery then TasksRecovery
      else if r.terminal then TasksTerminal
      else TasksDetail
    case Compare => GitCompare
    case Log => GitLog
    case Issues => if r.number.None? then IssuesList else IssuesDetail
    case Pulls => if r.number.None? then PullsList else if r.files then PullsFiles else PullsDetail
  }

  lemma NamesDiffer(a: SettingsName, b: SettingsName)
    requires NameText(a) == NameText(b)
    ensures a == b
  {
  }

  predicate Generic(id: Id) {
    id.GitCompare? || id.GitLog? || id.IssuesList? || id.IssuesDetail? || id.PullsList? || id.PullsDetail? || id.PullsFiles?
  }

  predicate Numbered(id: Id) {
    id.IssuesDetail? || id.PullsDetail? || id.PullsFiles?
  }

  lemma OwnedFields(id: Id)
    requires Generic(id)
    ensures HasParam(id, ThreadId) && !HasParam(id, Sha) && (HasParam(id, Number) <==> Numbered(id))
    ensures !QueryOwns(id, Number)
    ensures QueryOwns(id, Sha) <==> id.GitLog?
    ensures QueryOwns(id, Path) <==> id.GitCompare? || id.GitLog? || id.PullsFiles?
  {
    OwnedParams(id);
    OwnedQuery(id);
  }

  lemma OwnedParams(id: Id)
    requires Generic(id)
    ensures HasParam(id, ThreadId) && !HasParam(id, Sha) && (HasParam(id, Number) <==> Numbered(id))
  {
    assert Tokens(id)[1] == Param(ThreadId);
    if Numbered(id) { assert Tokens(id)[4] == Param(Number); }
  }

  lemma OwnedQuery(id: Id)
    requires Generic(id)
    ensures !QueryOwns(id, Number)
    ensures QueryOwns(id, Sha) <==> id.GitLog?
    ensures QueryOwns(id, Path) <==> id.GitCompare? || id.GitLog? || id.PullsFiles?
  {
    if id.GitLog? { assert Query(id)[1].field == Sha && Query(id)[2].field == Path; }
    if id.GitCompare? { assert Query(id)[2].field == Path; }
    if id.PullsFiles? { assert Query(id)[1].field == Path; }
  }

  lemma ParamsTruthy(id: Id, r: Route)
    requires Generic(id)
    ensures (forall i :: 0 <= i < |Tokens(id)| && Tokens(id)[i].Param? ==> Truthy(Get(r, Tokens(id)[i].field)))
            <==> r.threadId != "" && (Numbered(id) ==> Truthy(Get(r, Number)))
  {
    assert Tokens(id)[1] == Param(ThreadId);
    if Numbered(id) { assert Tokens(id)[4] == Param(Number); }
  }

  /** The default rule, spelled out for the definitions that use it. */
  lemma DefaultRule(id: Id, r: Route)
    requires Generic(id)
    ensures RouteMatchesDefinition(id, r) <==>
              && r.kind == KindOf(id)
              && r.threadId != ""
              && (id.GitLog? || r.sha == "")
              && (Numbered(id) <==> Truthy(Get(r, Number)))
              && (id.GitCompare? || id.GitLog? || id.PullsFiles? || CleanPath(r.path) == "")
              && (KindOf(id).Pulls? ==> r.files == id.PullsFiles?)
  {
    OwnedFields(id);
    ParamsTruthy(id, r);
  }

  predicate RepositoryKind(kind: Kind) {
    kind.Compare? || kind.Log? || kind.Issues? || kind.Pulls?
  }

  /** What the default rule reads of a canonical Git or GitHub route. */
  ghost predicate RepositoryShape(r: Route) {
    && RepositoryKind(r.kind)
    && r.threadId != ""
    && (r.kind.Log? || r.sha == "")
    && PositiveOrNone(r.number)
    && (r.kind.Compare? || r.kind.Log? ==> r.number.None?)
    && (r.kind.Issues? ==> r.path == "")
    && (r.kind.Pulls? ==> (r.files ==> r.number.Some?) && (!r.files ==> r.path == ""))
  }

  lemma CanonicalRepositoryShape(r: Route)
    requires Canonical(r) && RepositoryKind(r.kind)
    ensures RepositoryShape(r)
  {
    match r.kind
    case Compare => assert r == GitCompareRoute(r.threadId, r);
    case Log => assert r == GitLogRoute(r.threadId, r);
    case Issues => assert r == GithubIssuesRoute(r.threadId, r);
    case Pulls => assert r == GithubPullsRoute(r.threadId, r);
  }

  lemma RepositoryOwn(r: Route)
    requires RepositoryShape(r)
    ensures Generic(IdOf(r)) && RouteMatchesDefinition(IdOf(r), r)
  {
    DefaultRule(IdOf(r), r);
    assert CleanPath("") == "";
  }

  /** Definitions of one kind that use the default rule are told apart by number and files. */
  lemma RepositoryApart(r: Route, id: Id)
    requires RepositoryShape(r) && Index(id) < Index(IdOf(r)) && Generic(id)
    ensures !RouteMatchesDefinition(id, r)
  {
    DefaultRule(id, r);
  }

  lemma SettingsOwn(r: Route)
    requires r.kind.Settings? && r == SettingsRoute(r.section)
    ensures r.section == "" || KnownSection(r.section)
  {
  }

  lemma MatchesOwn(r: Route)
    requires Canonical(r)
    ensures MatchesRoute(IdOf(r), r)
  {
    if r.kind.Settings? {
      SettingsOwn(r);
    } else if RepositoryKind(r.kind) {
      CanonicalRepositoryShape(r);
      RepositoryOwn(r);
    }
  }

  lemma NoneEarlier(r: Route, id: Id)
    requires Canonical(r) && Index(id) < Index(IdOf(r))
    ensures !MatchesRoute(id, r)
  {
    if r.kind.Settings? {
      SettingsOwn(r);
      SettingsNoneEarlier(r, id);
    } else if RepositoryKind(r.kind) {
      CanonicalRepositoryShape(r);
      if Generic(id) { RepositoryApart(r, id); }
    } else if r.kind.Tasks? {
      TasksShape(r);
      TasksNoneEarlier(r, id);
    }
  }

  lemma SettingsNoneEarlier(r: Route, id: Id)
    requires r.kind.Settings? && (r.section == "" || KnownSection(r.section)) && Index(id) < Index(IdOf(r))
    ensures !MatchesRoute(id, r)
  {
    if id.SettingsSection? && NameText(id.name) == r.section {
      NamesDiffer(id.name, IdOf(r).name);
    }
  }

  lemma TasksNoneEarlier(r: Route, id: Id)
    requires r.kind.Tasks? && Index(id) < Index(IdOf(r))
    requires r.isNew ==> r.threadId == ""
    requires r.sectionId != "" ==> !r.isNew && r.threadId == ""
    requires (if r.review then 1 else 0) + (if r.recovery then 1 else 0) + (if r.terminal then 1 else 0) <= 1
    ensures !MatchesRoute(id, r)
  {
  }

  lemma TasksShape(r: Route)
    requires Canonical(r) && r.kind.Tasks?
    ensures r.isNew ==> r.threadId == ""
    ensures r.sectionId != "" ==> !r.isNew && r.threadId == ""
    ensures (if r.review then 1 else 0) + (if r.recovery then 1 else 0) + (if r.terminal then 1 else 0) <= 1
  {
  }

  /** A canonical route is printed by its own definition. */
  lemma DefinitionForCanonical(r: Route)
    requires Canonical(r)
    ensures DefinitionFor(r) == Some(IdOf(r))
  {
    TableAt(IdOf(r));
    MatchesOwn(r);
    forall j | 0 <= j < Index(IdOf(r)) ensures !MatchesRoute(ROUTE_DEFINITIONS[j], r) {
      TableOrder(j);
      NoneEarlier(r, ROUTE_DEFINITIONS[j]);
    }
    FirstMatchingAt(ROUTE_DEFINITIONS, r, Index(IdOf(r)));
  }

  // ----- printing and parsing

  lemma SectionFixpoint(r: Route)
    requires Canonical(r) && r.kind.Tasks? && r.sectionId != ""
    ensures r == SectionRouteFor(r.sectionId, r.sectionSurface, r)
    ensures r.sectionSurface != "" && r.reviewScope != "" && r.reviewNavigator != "" && r.reviewViewer != ""
    ensures r.page.Some? && r.page.value > 0 && PositiveOrNone(r.number)
    ensures r.line.Some? ==> 0 < r.line.value <= MAX_SAFE_INTEGER
  {
    var made := SectionRouteFor(Trim(r.sectionId), Surface(r.sectionSurface), r);
    assert made == r;
    assert r.sectionId == Trim(r.sectionId) && r.sectionSurface == Surface(r.sectionSurface);
  }

  lemma ReviewFixpoint(r: Route)
    requires r == TasksRoute(r) && r.review && (r.threadId != "" ==> !r.isNew)
    ensures r.threadId != "" && !r.isNew
    ensures r.reviewScope != "" && r.reviewNavigator != "" && r.reviewViewer != ""
    ensures r.line.Some? ==> 0 < r.line.value <= MAX_SAFE_INTEGER
  {
    var made := TasksRoute(r);
    assert made == r && made.threadId != "";
    assert r.reviewScope == Scope(r.reviewScope) && r.reviewNavigator == Navigator(r.reviewNavigator);
    assert r.reviewViewer == Viewer(r.reviewViewer);
  }

  /** Every query field of a canonical route's definition survives being written and read. */
  lemma CanonicalCarried(r: Route, i: nat)
    requires Canonical(r) && i < |Query(IdOf(r))|
    ensures Carried(Query(IdOf(r))[i], r)
  {
    match IdOf(r)
    case SectionDetail =>
      SectionFixpoint(r);
      SectionCarried(r, i);
    case TasksReview =>
      TasksShape(r);
      ReviewFixpoint(r);
      ReviewCarried(r, i);
    case NotesNote => PlainCarried(NotesNote, r, i);
    case TasksNew => PlainCarried(TasksNew, r, i);
    case GitCompare => PlainCarried(GitCompare, r, i);
    case GitLog => LogCarried(r, i);
    case _ => PagedCarried(IdOf(r), r, i);
  }

  lemma SectionCarried(r: Route, i: nat)
    requires i < |SECTION_DETAIL_QUERY|
    requires r.sectionSurface != "" && r.reviewScope != "" && r.reviewNavigator != "" && r.reviewViewer != ""
    requires r.page.Some? && r.page.value > 0 && PositiveOrNone(r.number)
    requires r.line.Some? ==> 0 < r.line.value <= MAX_SAFE_INTEGER
    ensures Carried(SECTION_DETAIL_QUERY[i], r)
  {
  }

  /** Text fields with an empty default are carried whatever they hold. */
  lemma PlainCarried(id: Id, r: Route, i: nat)
    requires (id.NotesNote? || id.TasksNew? || id.GitCompare?) && i < |Query(id)|
    ensures Carried(Query(id)[i], r)
  {
  }

  lemma LogCarried(r: Route, i: nat)
    requires i < |Query(GitLog)| && r.page.Some? && r.page.value > 0
    ensures Carried(Query(GitLog)[i], r)
  {
  }

  lemma ReviewCarried(r: Route, i: nat)
    requires i < |TASK_REVIEW_QUERY|
    requires r.reviewScope != "" && r.reviewNavigator != "" && r.reviewViewer != ""
    requires r.line.Some? ==> 0 < r.line.value <= MAX_SAFE_INTEGER
    ensures Carried(TASK_REVIEW_QUERY[i], r)
  {
  }

  lemma PagedCarried(id: Id, r: Route, i: nat)
    requires Generic(id) && !id.GitCompare? && !id.GitLog? && i < |Query(id)|
    requires r.page.Some? && r.page.value > 0
    ensures Carried(Query(id)[i], r)
  {
  }

  ghost predicate Agrees(id: Id, v: Route, r: Route) {
    forall i :: 0 <= i < |Query(id)| ==> Get(v, Query(id)[i].field) == Get(r, Query(id)[i].field)
  }

  /** A record holding the route's query fields and nothing else. */
  ghost predicate Filled(id: Id, v: Route, r: Route) {
    && Agrees(id, v, r)
    && SameRest(v, EMPTY)
    && forall field :: !QueryOwns(id, field) ==> Get(v, field) == Get(EMPTY, field)
  }

  lemma QueryFills(r: Route)
    requires Canonical(r)
    ensures var query := Query(IdOf(r));
            Filled(IdOf(r), ParseQuery(query, WriteQuery(query, r, []), EMPTY), r)
  {
    var query := Query(IdOf(r));
    var search := WriteQuery(query, r, []);
    forall i | 0 <= i < |query| ensures Get(ParseQuery(query, search, EMPTY), query[i].field) == Get(r, query[i].field) {
      CanonicalCarried(r, i);
      QueryRoundTrip(IdOf(r), r, i);
    }
    ParseKeepsRest(query, search, EMPTY);
    forall field | !QueryOwns(IdOf(r), field) ensures Get(ParseQuery(query, search, EMPTY), field) == Get(EMPTY, field) {
      ParseOther(query, search, EMPTY, field);
    }
  }

  lemma SectionAgrees(v: Route, r: Route)
    requires Agrees(SectionDetail, v, r)
    ensures v.sectionId == r.sectionId && v.sectionSurface == r.sectionSurface && v.sectionTool == r.sectionTool
    ensures v.reviewScope == r.reviewScope && v.reviewNavigator == r.reviewNavigator && v.reviewViewer == r.reviewViewer
    ensures v.path == r.path && v.line == r.line && v.baseRef == r.baseRef && v.headRef == r.headRef
    ensures v.page == r.page && v.sha == r.sha && v.number == r.number && v.files == r.files
  {
    SectionStartAgrees(v, r);
    SectionPathAgrees(v, r);
    SectionEndAgrees(v, r);
  }

  lemma SectionStartAgrees(v: Route, r: Route)
    requires Agrees(SectionDetail, v, r)
    ensures v.sectionId == r.sectionId && v.sectionSurface == r.sectionSurface && v.sectionTool == r.sectionTool
    ensures v.reviewScope == r.reviewScope && v.reviewNavigator == r.reviewNavigator && v.reviewViewer == r.reviewViewer
  {
    SectionAgreesAt(v, r, 0, SectionId);
    SectionAgreesAt(v, r, 1, SectionSurface);
    SectionAgreesAt(v, r, 2, SectionTool);
    SectionAgreesAt(v, r, 3, ReviewScope);
    SectionAgreesAt(v, r, 4, ReviewNavigator);
    SectionAgreesAt(v, r, 5, ReviewViewer);
  }

  lemma SectionPathAgrees(v: Route, r: Route)
    requires Agrees(SectionDetail, v, r)
    ensures v.path == r.path && v.line == r.line && v.baseRef == r.baseRef && v.headRef == r.headRef
  {
    SectionAgreesAt(v, r, 6, Path);
    SectionAgreesAt(v, r, 7, Line);
    SectionAgreesAt(v, r, 8, BaseRef);
    SectionAgreesAt(v, r, 9, HeadRef);
  }

  lemma SectionEndAgrees(v: Route, r: Route)
    requires Agrees(SectionDetail, v, r)
    ensures v.page == r.page && v.sha == r.sha && v.number == r.number && v.files == r.files
  {
    SectionAgreesAt(v, r, 10, Page);
    SectionAgreesAt(v, r, 11, Sha);
    SectionAgreesAt(v, r, 12, Number);
    SectionAgreesAt(v, r, 13, Files);
  }

  lemma SectionAgreesAt(v: Route, r: Route, i: nat, field: Field)
    requires Agrees(SectionDetail, v, r) && i < 14 && SectionField(i) == field
    ensures Get(v, field) == Get(r, field)
  {
    SectionFieldAt(i);
  }

  function SectionField(i: nat): Field {
    if i == 0 then SectionId else if i == 1 then SectionSurface else if i == 2 then SectionTool
    else if i == 3 then ReviewScope else if i == 4 then ReviewNavigator else if i == 5 then ReviewViewer
    else if i == 6 then Path else if i == 7 then Line else if i == 8 then BaseRef else if i == 9 then HeadRef
    else if i == 10 then Page else if i == 11 then Sha else if i == 12 then Number else Files
  }

  lemma SectionFieldAt(i: nat)
    requires i < 14
    ensures |Query(SectionDetail)| == 14 && Query(SectionDetail)[i].field == SectionField(i)
  {
  }

  lemma ReviewAgrees(v: Route, r: Route)
    requires Agrees(TasksReview, v, r)
    ensures v.reviewScope == r.reviewScope && v.reviewNavigator == r.reviewNavigator && v.reviewViewer == r.reviewViewer
    ensures v.path == r.path && v.line == r.line && v.baseRef == r.baseRef
  {
    var q := Query(TasksReview);
    assert q[0].field == ReviewScope && q[1].field == ReviewNavigator && q[2].field == ReviewViewer;
    assert q[3].field == Path && q[4].field == Line && q[5].field == BaseRef;
  }

  lemma RepositoryAgrees(id: Id, v: Route, r: Route)
    requires Generic(id) && Agrees(id, v, r)
    ensures id.GitCompare? ==> v.baseRef == r.baseRef && v.headRef == r.headRef && v.path == r.path
    ensures id.GitLog? ==> v.page == r.page && v.sha == r.sha && v.path == r.path
    ensures !id.GitCompare? ==> v.page == r.page
    ensures id.PullsFiles? ==> v.path == r.path
  {
    var q := Query(id);
    if id.GitCompare? {
      assert q[0].field == BaseRef && q[1].field == HeadRef && q[2].field == Path;
    } else {
      assert q[0].field == Page;
      if id.GitLog? { assert q[1].field == Sha && q[2].field == Path; }
      if id.PullsFiles? { assert q[1].field == Path; }
    }
  }

  /** Making the route again from its own fields and query gives it back. */
  lemma Remade(r: Route, fields: Route, v: Route)
    requires Canonical(r)
    requires Filled(IdOf(r), v, r)
    requires forall i :: 0 <= i < |Tokens(IdOf(r))| && Tokens(IdOf(r))[i].Param? ==>
               Get(fields, Tokens(IdOf(r))[i].field) == Get(r, Tokens(IdOf(r))[i].field)
    ensures ToRoute(IdOf(r), fields, v) == Some(r)
  {
    match r.kind
    case Tasks =>
      if r.sectionId != "" {
        RemadeSection(r, fields, v);
      } else {
        RemadeTask(r, fields, v);
      }
    case Notes => RemadeNotes(r, fields, v);
    case Settings => RemadeSettings(r, fields, v);
    case _ => RemadeRepository(r, fields, v);
  }

  lemma RemadeSettings(r: Route, fields: Route, v: Route)
    requires r.kind.Settings? && r == SettingsRoute(r.section)
    ensures ToRoute(IdOf(r), fields, v) == Some(r)
  {
    SettingsOwn(r);
  }

  lemma RemadeSection(r: Route, fields: Route, v: Route)
    requires r.kind.Tasks? && r.sectionId != "" && SectionDetailRoute(r) == Some(r) && Agrees(SectionDetail, v, r)
    ensures ToRoute(IdOf(r), fields, v) == Some(r)
  {
    SectionFromOwnFields(v, r);
  }

  lemma SectionFromOwnFields(v: Route, r: Route)
    requires SectionDetailRoute(r) == Some(r) && Agrees(SectionDetail, v, r)
    ensures SectionDetailRoute(v) == SectionDetailRoute(r)
  {
    SectionAgrees(v, r);
  }

  lemma RemadeNotes(r: Route, fields: Route, v: Route)
    requires Canonical(r) && r.kind.Notes?
    requires Agrees(IdOf(r), v, r)
    requires forall i :: 0 <= i < |Tokens(IdOf(r))| && Tokens(IdOf(r))[i].Param? ==>
               Get(fields, Tokens(IdOf(r))[i].field) == Get(r, Tokens(IdOf(r))[i].field)
    ensures ToRoute(IdOf(r), fields, v) == Some(r)
  {
    if r.noteId != "" {
      assert Query(NotesNote)[0].field == SecondaryNoteId && Tokens(NotesNote)[1] == Param(NoteId);
    }
  }

  lemma RemadeTask(r: Route, fields: Route, v: Route)
    requires r == TasksRoute(r) && (r.threadId != "" ==> !r.isNew)
    requires Filled(IdOf(r), v, r)
    requires forall i :: 0 <= i < |Tokens(IdOf(r))| && Tokens(IdOf(r))[i].Param? ==>
               Get(fields, Tokens(IdOf(r))[i].field) == Get(r, Tokens(IdOf(r))[i].field)
    ensures ToRoute(IdOf(r), fields, v) == Some(r)
  {
    var id := IdOf(r);
    if r.threadId == "" {
      assert Get(v, ThreadId) == Get(EMPTY, ThreadId);
      if r.isNew { assert Query(TasksNew)[0].field == Cwd && v.cwd == r.cwd; }
      RemadeWithoutThread(r, v);
    } else {
      assert Tokens(id)[1] == Param(ThreadId) && fields.threadId == r.threadId;
      if r.review {
        ReviewAgrees(v, r);
        RemadeReview(r, fields, v);
      } else {
        RemadeThread(r, fields, v);
      }
    }
  }

  lemma RemadeWithoutThread(r: Route, v: Route)
    requires r == TasksRoute(r) && r.threadId == "" && v.threadId == "" && !v.isNew
    requires r.isNew ==> v.cwd == r.cwd
    ensures TasksRoute(v.(isNew := r.isNew)) == r
  {
  }

  lemma RemadeReview(r: Route, fields: Route, v: Route)
    requires r == TasksRoute(r) && r.threadId != "" && r.review && !r.isNew
    requires fields.threadId == r.threadId && SameRest(v, EMPTY)
    requires v.reviewScope == r.reviewScope && v.reviewNavigator == r.reviewNavigator && v.reviewViewer == r.reviewViewer
    requires v.path == r.path && v.line == r.line && v.baseRef == r.baseRef
    ensures TasksRoute(v.(threadId := fields.threadId, review := true)) == r
  {
  }

  lemma RemadeThread(r: Route, fields: Route, v: Route)
    requires r == TasksRoute(r) && r.threadId != "" && !r.review && !r.isNew
    requires fields.threadId == r.threadId && SameRest(v, EMPTY)
    ensures !r.recovery && !r.terminal ==> TasksRoute(v.(threadId := fields.threadId)) == r
    ensures r.recovery ==> TasksRoute(EMPTY.(threadId := fields.threadId, recovery := true)) == r
    ensures r.terminal ==> TasksRoute(EMPTY.(threadId := fields.threadId, terminal := true)) == r
  {
  }

  lemma RemadeRepository(r: Route, fields: Route, v: Route)
    requires Canonical(r) && RepositoryKind(r.kind)
    requires Filled(IdOf(r), v, r)
    requires forall i :: 0 <= i < |Tokens(IdOf(r))| && Tokens(IdOf(r))[i].Param? ==>
               Get(fields, Tokens(IdOf(r))[i].field) == Get(r, Tokens(IdOf(r))[i].field)
    ensures ToRoute(IdOf(r), fields, v) == Some(r)
  {
    var id := IdOf(r);
    CanonicalRepositoryShape(r);
    RepositoryAgrees(id, v, r);
    RepositoryParams(id, fields, r);
    RepositoryElse(id, v, r);
    match r.kind
    case Compare => assert r == GitCompareRoute(r.threadId, r);
    case Log => assert r == GitLogRoute(r.threadId, r);
    case Issues => RemadeIssues(r, fields, v);
    case Pulls => RemadePullsFrom(r, fields, v);
  }

  lemma RepositoryParams(id: Id, fields: Route, r: Route)
    requires Generic(id)
    requires forall i :: 0 <= i < |Tokens(id)| && Tokens(id)[i].Param? ==>
               Get(fields, Tokens(id)[i].field) == Get(r, Tokens(id)[i].field)
    ensures fields.threadId == r.threadId
    ensures Numbered(id) ==> fields.number == r.number
  {
    assert Tokens(id)[1] == Param(ThreadId);
    if Numbered(id) { assert Tokens(id)[4] == Param(Number); }
  }

  lemma NoFilesQuery(id: Id)
    requires Generic(id)
    ensures !QueryOwns(id, Files)
  {
  }

  lemma RepositoryElse(id: Id, v: Route, r: Route)
    requires Generic(id) && Filled(id, v, r)
    ensures v.number.None? && !v.files
    ensures id.GitCompare? || id.GitLog? || id.PullsFiles? || v.path == ""
  {
    OwnedFields(id);
    NoFilesQuery(id);
    assert Get(v, Number) == Get(EMPTY, Number) && Get(v, Files) == Get(EMPTY, Files);
    assert QueryOwns(id, Path) || Get(v, Path) == Get(EMPTY, Path);
  }

  lemma RemadeIssues(r: Route, fields: Route, v: Route)
    requires r.kind.Issues? && r == GithubIssuesRoute(r.threadId, r)
    requires fields.threadId == r.threadId && v.page == r.page && v.number.None?
    requires r.number.Some? ==> fields.number == r.number
    ensures ToRoute(IdOf(r), fields, v) == Some(r)
  {
  }

  lemma RemadePullsFrom(r: Route, fields: Route, v: Route)
    requires r.kind.Pulls? && r == GithubPullsRoute(r.threadId, r) && (r.files ==> r.number.Some?)
    requires fields.threadId == r.threadId && (r.number.Some? ==> fields.number == r.number)
    requires v.page == r.page && v.path == r.path && v.number.None? && !v.files
    ensures ToRoute(IdOf(r), fields, v) == Some(r)
  {
    RemadePulls(r, v);
    if r.number.None? {
      assert v.(number := r.number, files := r.files) == v;
    } else if !r.files {
      assert v.(number := r.number, files := r.files) == v.(number := r.number);
    }
  }

  lemma RemadePulls(r: Route, v: Route)
    requires r.kind.Pulls? && r == GithubPullsRoute(r.threadId, r)
    requires v.page == r.page && v.path == r.path
    ensures GithubPullsRoute(r.threadId, v.(number := r.number, files := r.files)) == r
  {
  }
}
