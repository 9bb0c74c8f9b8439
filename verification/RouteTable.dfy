/** The route table: one ordered list of definitions that both reads and writes addresses. */
module RouteTable {
  import opened Wrappers
  import opened PathText

  // ----- routes

  datatype Kind = Tasks | Notes | Settings | Compare | Log | Issues | Pulls

  /**
   * A route with every field any kind reads. A field a kind does not carry has the value the
   * program reads there: the empty text, no number, or false.
   */
  datatype Route = Route(
    kind: Kind,
    isNew: bool,
    threadId: string,
    cwd: string,
    sectionId: string,
    sectionSurface: string,
    sectionTool: string,
    section: string,
    noteId: string,
    secondaryNoteId: string,
    review: bool,
    recovery: bool,
    terminal: bool,
    reviewScope: string,
    reviewNavigator: string,
    reviewViewer: string,
    path: string,
    line: Option<nat>,
    baseRef: string,
    headRef: string,
    page: Option<nat>,
    sha: string,
    number: Option<nat>,
    files: bool)

  const EMPTY: Route :=
    Route(Tasks, false, "", "", "", "", "", "", "", "", false, false, false, "", "", "", "", None, "", "", None, "", None, false)

  /** The fields an address can fill. */
  datatype Field =
    | ThreadId | Cwd | SectionId | SectionSurface | SectionTool | NoteId | SecondaryNoteId
    | ReviewScope | ReviewNavigator | ReviewViewer | Path | Line | BaseRef | HeadRef | Page | Sha | Number | Files

  datatype Value = Text(text: string) | Num(number: nat) | Flag(flag: bool) | Absent

  function Numeric(number: Option<nat>): Value {
    if number.Some? then Num(number.value) else Absent
  }

  function Get(r: Route, field: Field): Value {
    match field
    case ThreadId => Text(r.threadId)
    case Cwd => Text(r.cwd)
    case SectionId => Text(r.sectionId)
    case SectionSurface => Text(r.sectionSurface)
    case SectionTool => Text(r.sectionTool)
    case NoteId => Text(r.noteId)
    case SecondaryNoteId => Text(r.secondaryNoteId)
    case ReviewScope => Text(r.reviewScope)
    case ReviewNavigator => Text(r.reviewNavigator)
    case ReviewViewer => Text(r.reviewViewer)
    case Path => Text(r.path)
    case Line => Numeric(r.line)
    case BaseRef => Text(r.baseRef)
    case HeadRef => Text(r.headRef)
    case Page => Numeric(r.page)
    case Sha => Text(r.sha)
    case Number => Numeric(r.number)
    case Files => Flag(r.files)
  }

  function TextOf(value: Value): string {
    if value.Text? then value.text else ""
  }

  function NumberOf(value: Value): Option<nat> {
    if value.Num? then Some(value.number) else None
  }

  function With(r: Route, field: Field, value: Value): Route {
    match field
    case ThreadId => r.(threadId := TextOf(value))
    case Cwd => r.(cwd := TextOf(value))
    case SectionId => r.(sectionId := TextOf(value))
    case SectionSurface => r.(sectionSurface := TextOf(value))
    case SectionTool => r.(sectionTool := TextOf(value))
    case NoteId => r.(noteId := TextOf(value))
    case SecondaryNoteId => r.(secondaryNoteId := TextOf(value))
    case ReviewScope => r.(reviewScope := TextOf(value))
    case ReviewNavigator => r.(reviewNavigator := TextOf(value))
    case ReviewViewer => r.(reviewViewer := TextOf(value))
    case Path => r.(path := TextOf(value))
    case Line => r.(line := NumberOf(value))
    case BaseRef => r.(baseRef := TextOf(value))
    case HeadRef => r.(headRef := TextOf(value))
    case Page => r.(page := NumberOf(value))
    case Sha => r.(sha := TextOf(value))
    case Number => r.(number := NumberOf(value))
    case Files => r.(files := value == Flag(true))
  }

  function Printed(value: Value): string {
    match value
    case Text(text) => text
    case Num(number) => Decimal(number)
    case Flag(flag) => if flag then "true" else "false"
    case Absent => "null"
  }

  predicate Truthy(value: Value) {
    match value
    case Text(text) => text != ""
    case Num(number) => number != 0
    case Flag(flag) => flag
    case Absent => false
  }

  // ----- constructors

  function EnumValue(value: string, allowed: seq<string>, fallback: string): (r: string)
    ensures value in allowed ==> r == value
    ensures value !in allowed ==> r == fallback
  {
    if value in allowed then value else fallback
  }

  function NumberText(number: Option<nat>): string {
    if number.Some? then Decimal(number.value) else ""
  }

  function TaskCwd(path: string): string {
    if path == "." then "." else CleanPath(path)
  }

  function Scope(value: string): string { EnumValue(value, ["working", "branch"], "working") }

  function Navigator(value: string): string { EnumValue(value, ["changes", "files"], "changes") }

  function Viewer(value: string): string { EnumValue(value, ["diff", "visual", "source", "preview"], "diff") }

  function TasksRoute(options: Route): Route {
    if options.review && options.threadId != "" then WithReview(TaskBase(options), options) else TaskBase(options)
  }

  function TaskBase(options: Route): Route {
    var review := options.review && options.threadId != "";
    EMPTY.(
      kind := Tasks,
      isNew := options.isNew,
      threadId := options.threadId,
      cwd := if options.isNew then TaskCwd(options.cwd) else "",
      recovery := options.recovery && options.threadId != "" && !review,
      terminal := options.terminal && options.threadId != "" && !review && !options.recovery)
  }

  function WithReview(base: Route, options: Route): Route {
    var reviewPath := ReviewFilePath(options.path);
    base.(
      review := true,
      reviewScope := Scope(options.reviewScope),
      reviewNavigator := Navigator(options.reviewNavigator),
      reviewViewer := Viewer(options.reviewViewer),
      path := reviewPath,
      line := if reviewPath != "" then PositiveLine(NumberText(options.line)) else None,
      baseRef := options.baseRef)
  }

  function Surface(value: string): string {
    EnumValue(value, ["new", "review", "git", "github", "terminal"], "new")
  }

  function Tool(surface: string, value: string): string {
    if surface == "git" then EnumValue(value, ["compare", "log"], "compare")
    else if surface == "github" then EnumValue(value, ["issues", "pulls"], "issues")
    else ""
  }

  function SectionPath(surface: string, path: string): string {
    if surface == "review" then ReviewFilePath(path)
    else if surface == "git" || surface == "github" then SafeRelativePath(path)
    else ""
  }

  function PageOr1(page: Option<nat>): Option<nat> {
    if page.Some? then page else Some(1)
  }

  function SectionDetailRoute(options: Route): Option<Route> {
    var sectionId := Trim(options.sectionId);
    if sectionId == "" then None else Some(SectionRouteFor(sectionId, Surface(options.sectionSurface), options))
  }

  function SectionRouteFor(sectionId: string, surface: string, options: Route): Route {
    var tool := Tool(surface, options.sectionTool);
    var path := SectionPath(surface, options.path);
    var number := if surface == "github" then PositiveInteger(NumberText(options.number)) else None;
    EMPTY.(
      kind := Tasks,
      sectionId := sectionId,
      sectionSurface := surface,
      sectionTool := tool,
      reviewScope := Scope(options.reviewScope),
      reviewNavigator := Navigator(options.reviewNavigator),
      reviewViewer := Viewer(options.reviewViewer),
      path := path,
      line := if path != "" then PositiveLine(NumberText(options.line)) else None,
      baseRef := options.baseRef,
      headRef := if surface == "git" && tool == "compare" then options.headRef else "",
      page := if tool == "log" || tool == "issues" || tool == "pulls"
              then PageOr1(PositiveInteger(NumberText(options.page))) else Some(1),
      sha := if surface == "git" && tool == "log" then options.sha else "",
      number := number,
      files := surface == "github" && tool == "pulls" && options.files && number.Some?)
  }

  function NotesRoute(noteId: string, secondaryNoteId: string): Route {
    EMPTY.(
      kind := Notes,
      noteId := noteId,
      secondaryNoteId := if noteId != "" && secondaryNoteId != "" && noteId != secondaryNoteId
                         then secondaryNoteId else "")
  }

  datatype SettingsName =
    | Appearance | Keyboard | FilesSettings | Notifications | RemoteAccess | Voice
    | Jev | Codex | Claude | Grok | Antigravity | About

  function NameText(name: SettingsName): string {
    match name
    case Appearance => "appearance"
    case Keyboard => "keyboard"
    case FilesSettings => "files"
    case Notifications => "notifications"
    case RemoteAccess => "remote-access"
    case Voice => "voice"
    case Jev => "jev"
    case Codex => "codex"
    case Claude => "claude"
    case Grok => "grok"
    case Antigravity => "antigravity"
    case About => "about"
  }

  const SETTINGS_NAMES: seq<SettingsName> :=
    [Appearance, Keyboard, FilesSettings, Notifications, RemoteAccess, Voice,
     Jev, Codex, Claude, Grok, Antigravity, About]

  predicate KnownSection(section: string) {
    exists name :: name in SETTINGS_NAMES && NameText(name) == section
  }

  function SettingsRoute(section: string): Route {
    EMPTY.(kind := Settings, section := if KnownSection(section) then section else "")
  }

  function GitCompareRoute(threadId: string, options: Route): Route {
    EMPTY.(
      kind := Compare,
      threadId := threadId,
      baseRef := options.baseRef,
      headRef := options.headRef,
      path := SafeRelativePath(options.path))
  }

  function GitLogRoute(threadId: string, options: Route): Route {
    EMPTY.(
      kind := Log,
      threadId := threadId,
      page := PageOr1(options.page),
      sha := options.sha,
      path := SafeRelativePath(options.path))
  }

  function GithubIssuesRoute(threadId: string, options: Route): Route {
    EMPTY.(kind := Issues, threadId := threadId, page := PageOr1(options.page), number := options.number)
  }

  function GithubPullsRoute(threadId: string, options: Route): Route {
    EMPTY.(
      kind := Pulls,
      threadId := threadId,
      page := PageOr1(options.page),
      number := options.number,
      files := options.files,
      path := SafeRelativePath(options.path))
  }

  // ----- definitions

  datatype Id =
    | NotesHome | NotesNote | SettingsHome | SettingsSection(name: SettingsName)
    | SectionDetail | TasksHome | LegacyTasksList | TasksNew | TasksReview
    | GitCompare | GitLog | IssuesList | IssuesDetail | PullsList | PullsDetail | PullsFiles
    | TasksTerminal | TasksRecovery | TasksDetail

  datatype Token = Literal(text: string) | Param(field: Field)

  datatype QueryKind = AnyText | PositiveIntegerText | PositiveLineText | BooleanText

  datatype QueryField = QueryField(name: string, field: Field, kind: QueryKind, default: Value)

  const PAGE_QUERY: seq<QueryField> := [QueryField("page", Page, PositiveIntegerText, Num(1))]
  const TASK_REVIEW_QUERY: seq<QueryField> := [
    QueryField("scope", ReviewScope, AnyText, Text("working")),
    QueryField("nav", ReviewNavigator, AnyText, Text("changes")),
    QueryField("view", ReviewViewer, AnyText, Text("diff")),
    QueryField("file", Path, AnyText, Text("")),
    QueryField("line", Line, PositiveLineText, Absent),
    QueryField("base", BaseRef, AnyText, Text(""))]
  const GIT_COMPARE_QUERY: seq<QueryField> := [
    QueryField("base", BaseRef, AnyText, Text("")),
    QueryField("head", HeadRef, AnyText, Text("")),
    QueryField("file", Path, AnyText, Text(""))]
  const GIT_LOG_QUERY: seq<QueryField> := [
    QueryField("page", Page, PositiveIntegerText, Num(1)),
    QueryField("sha", Sha, AnyText, Text("")),
    QueryField("file", Path, AnyText, Text(""))]
  const PULL_FILES_QUERY: seq<QueryField> := [
    QueryField("page", Page, PositiveIntegerText, Num(1)),
    QueryField("file", Path, AnyText, Text(""))]
  const SECTION_DETAIL_QUERY: seq<QueryField> := [
    QueryField("section", SectionId, AnyText, Text("")),
    QueryField("surface", SectionSurface, AnyText, Text("new")),
    QueryField("tool", SectionTool, AnyText, Text("")),
    QueryField("scope", ReviewScope, AnyText, Text("working")),
    QueryField("nav", ReviewNavigator, AnyText, Text("changes")),
    QueryField("view", ReviewViewer, AnyText, Text("diff")),
    QueryField("file", Path, AnyText, Text("")),
    QueryField("line", Line, PositiveLineText, Absent),
    QueryField("base", BaseRef, AnyText, Text("")),
    QueryField("head", HeadRef, AnyText, Text("")),
    QueryField("page", Page, PositiveIntegerText, Num(1)),
    QueryField("sha", Sha, AnyText, Text("")),
    QueryField("number", Number, PositiveIntegerText, Absent),
    QueryField("files", Files, BooleanText, Flag(false))]

  /** Every definition, in the order addresses and routes are tried against. */
  const ROUTE_DEFINITIONS: seq<Id> := [
    NotesHome, NotesNote, SettingsHome,
    SettingsSection(Appearance), SettingsSection(Keyboard), SettingsSection(FilesSettings),
    SettingsSection(Notifications), SettingsSection(RemoteAccess), SettingsSection(Voice),
    SettingsSection(Jev), SettingsSection(Codex), SettingsSection(Claude),
    SettingsSection(Grok), SettingsSection(Antigravity), SettingsSection(About),
    SectionDetail, TasksHome, LegacyTasksList, TasksNew, TasksReview,
    GitCompare, GitLog, IssuesList, IssuesDetail, PullsList, PullsDetail, PullsFiles,
    TasksTerminal, TasksRecovery, TasksDetail]

  function KindOf(id: Id): Kind {
    match id
    case NotesHome => Notes
    case NotesNote => Notes
    case SettingsHome => Settings
    case SettingsSection(_) => Settings
    case GitCompare => Compare
    case GitLog => Log
    case IssuesList => Issues
    case IssuesDetail => Issues
    case PullsList => Pulls
    case PullsDetail => Pulls
    case PullsFiles => Pulls
    case _ => Tasks
  }

  function Tokens(id: Id): seq<Token> {
    match id
    case NotesHome => [Literal("notes")]
    case NotesNote => [Literal("notes"), Param(NoteId)]
    case SettingsHome => [Literal("settings")]
    case SettingsSection(name) => [Literal("settings"), Literal(NameText(name))]
    case SectionDetail => []
    case TasksHome => []
    case LegacyTasksList => [Literal("tasks")]
    case TasksNew => [Literal("tasks"), Literal("new")]
    case TasksReview => [Literal("tasks"), Param(ThreadId), Literal("review")]
    case GitCompare => [Literal("tasks"), Param(ThreadId), Literal("git"), Literal("compare")]
    case GitLog => [Literal("tasks"), Param(ThreadId), Literal("git"), Literal("log")]
    case IssuesList => [Literal("tasks"), Param(ThreadId), Literal("github"), Literal("issues")]
    case IssuesDetail => [Literal("tasks"), Param(ThreadId), Literal("github"), Literal("issues"), Param(Number)]
    case PullsList => [Literal("tasks"), Param(ThreadId), Literal("github"), Literal("pulls")]
    case PullsDetail => [Literal("tasks"), Param(ThreadId), Literal("github"), Literal("pulls"), Param(Number)]
    case PullsFiles =>
      [Literal("tasks"), Param(ThreadId), Literal("github"), Literal("pulls"), Param(Number), Literal("files")]
    case TasksTerminal => [Literal("tasks"), Param(ThreadId), Literal("terminal")]
    case TasksRecovery => [Literal("tasks"), Param(ThreadId), Literal("recovery")]
    case TasksDetail => [Literal("tasks"), Param(ThreadId)]
  }

  function Query(id: Id): seq<QueryField> {
    match id
    case NotesNote => [QueryField("beside", SecondaryNoteId, AnyText, Text(""))]
    case SectionDetail => SECTION_DETAIL_QUERY
    case TasksNew => [QueryField("cwd", Cwd, AnyText, Text(""))]
    case TasksReview => TASK_REVIEW_QUERY
    case GitCompare => GIT_COMPARE_QUERY
    case GitLog => GIT_LOG_QUERY
    case IssuesList => PAGE_QUERY
    case IssuesDetail => PAGE_QUERY
    case PullsList => PAGE_QUERY
    case PullsDetail => PAGE_QUERY
    case PullsFiles => PULL_FILES_QUERY
    case _ => []
  }

  function ToRoute(id: Id, fields: Route, query: Route): Option<Route> {
    match id
    case NotesHome => Some(NotesRoute("", ""))
    case NotesNote => Some(NotesRoute(fields.noteId, query.secondaryNoteId))
    case SettingsHome => Some(SettingsRoute(""))
    case SettingsSection(name) => Some(SettingsRoute(NameText(name)))
    case SectionDetail => SectionDetailRoute(query)
    case TasksHome => Some(TasksRoute(query))
    case LegacyTasksList => Some(TasksRoute(query))
    case TasksNew => Some(TasksRoute(query.(isNew := true)))
    case TasksReview => Some(TasksRoute(query.(threadId := fields.threadId, review := true)))
    case GitCompare => Some(GitCompareRoute(fields.threadId, query))
    case GitLog => Some(GitLogRoute(fields.threadId, query))
    case IssuesList => Some(GithubIssuesRoute(fields.threadId, query))
    case IssuesDetail => Some(GithubIssuesRoute(fields.threadId, query.(number := fields.number)))
    case PullsList => Some(GithubPullsRoute(fields.threadId, query))
    case PullsDetail => Some(GithubPullsRoute(fields.threadId, query.(number := fields.number)))
    case PullsFiles => Some(GithubPullsRoute(fields.threadId, query.(number := fields.number, files := true)))
    case TasksTerminal => Some(TasksRoute(EMPTY.(threadId := fields.threadId, terminal := true)))
    case TasksRecovery => Some(TasksRoute(EMPTY.(threadId := fields.threadId, recovery := true)))
    case TasksDetail => Some(TasksRoute(query.(threadId := fields.threadId)))
  }

  predicate HasParam(id: Id, field: Field) {
    exists i :: 0 <= i < |Tokens(id)| && Tokens(id)[i] == Param(field)
  }

  predicate QueryOwns(id: Id, field: Field) {
    exists i :: 0 <= i < |Query(id)| && Query(id)[i].field == field
  }

  /** A key the route carries has a place in the definition's address. */
  predicate KeyPlaced(id: Id, r: Route, key: Field) {
    HasParam(id, key) || QueryOwns(id, key) || !Truthy(Get(r, key))
  }

  /** The rule for definitions that state none of their own. */
  predicate RouteMatchesDefinition(id: Id, r: Route) {
    && r.kind == KindOf(id)
    && (forall i :: 0 <= i < |Tokens(id)| && Tokens(id)[i].Param? ==> Truthy(Get(r, Tokens(id)[i].field)))
    && KeyPlaced(id, r, ThreadId) && KeyPlaced(id, r, Sha) && KeyPlaced(id, r, Number)
    && (QueryOwns(id, Path) || CleanPath(r.path) == "")
    && (KindOf(id).Pulls? ==> r.files == id.PullsFiles?)
  }

  predicate MatchesRoute(id: Id, r: Route) {
    match id
    case NotesHome => r.kind.Notes? && r.noteId == ""
    case NotesNote => r.kind.Notes? && r.noteId != ""
    case SettingsHome => r.kind.Settings? && r.section == ""
    case SettingsSection(name) => r.kind.Settings? && r.section == NameText(name)
    case SectionDetail => r.kind.Tasks? && r.sectionId != ""
    case TasksHome => r.kind.Tasks? && !r.isNew && r.threadId == ""
    case LegacyTasksList => false
    case TasksNew => r.kind.Tasks? && r.isNew
    case TasksReview => r.kind.Tasks? && r.threadId != "" && r.review
    case TasksTerminal => r.kind.Tasks? && r.threadId != "" && r.terminal
    case TasksRecovery => r.kind.Tasks? && r.threadId != "" && r.recovery
    case TasksDetail => r.kind.Tasks? && r.threadId != "" && !r.review && !r.recovery && !r.terminal
    case _ => RouteMatchesDefinition(id, r)
  }

  function FirstMatching(ids: seq<Id>, r: Route): Option<Id>
    decreases |ids|, r
  {
    if ids == [] then None
    else if MatchesRoute(ids[0], r) then Some(ids[0])
    else FirstMatching(ids[1..], r)
  }

  function DefinitionFor(r: Route): Option<Id> {
    FirstMatching(ROUTE_DEFINITIONS, r)
  }

  // ----- addresses

  /** Percent-encoding of one path segment, and its inverse. */
  datatype Codec = Codec(encode: string -> string, decode: string -> string)

  ghost predicate GoodCodec(codec: Codec) {
    && (forall s :: codec.decode(codec.encode(s)) == s)
    && (forall s :: '/' !in codec.encode(s))
    && (forall s :: codec.encode(s) == "" ==> s == "")
    && (forall s :: Named(s) ==> Named(codec.encode(s)))
    && (forall s :: codec.decode(s) == "" ==> s == "")
    && (forall s :: Unreserved(s) ==> codec.encode(s) == s)
  }

  /** Lower-case letters and hyphens stand for themselves in a path. */
  predicate Unreserved(text: string) {
    forall i :: 0 <= i < |text| ==> 'a' <= text[i] <= 'z' || text[i] == '-'
  }

  /** A parsed address in this application: its path, and its parameters in order. */
  datatype Address = Address(pathname: string, search: seq<(string, string)>)

  function RawPathSegments(pathname: string): seq<string> {
    NonEmpty(Split(pathname))
  }

  function Decoded(codec: Codec, segments: seq<string>): seq<string> {
    seq(|segments|, i requires 0 <= i < |segments| => codec.decode(segments[i]))
  }

  /** Parsing a URL has already resolved its dot segments, so none is left to read. */
  ghost predicate Resolved(codec: Codec, address: Address) {
    forall s :: s in RawPathSegments(address.pathname) ==> Named(codec.decode(s))
  }

  function ReadParam(field: Field, segment: string): Value {
    if field.Number? then Numeric(PositiveInteger(segment)) else Text(segment)
  }

  function MatchTokens(tokens: seq<Token>, segments: seq<string>, fields: Route): Option<Route> {
    if tokens == [] then (if segments == [] then Some(fields) else None)
    else if segments == [] then None
    else
      match tokens[0]
      case Literal(text) =>
        if segments[0] == text then MatchTokens(tokens[1..], segments[1..], fields) else None
      case Param(field) =>
        if ReadParam(field, segments[0]).Absent? then None
        else MatchTokens(tokens[1..], segments[1..], With(fields, field, ReadParam(field, segments[0])))
  }

  function GetParam(search: seq<(string, string)>, name: string): Option<string> {
    if search == [] then None
    else if search[0].0 == name then Some(search[0].1)
    else GetParam(search[1..], name)
  }

  function SetParam(search: seq<(string, string)>, name: string, text: string): seq<(string, string)> {
    if search == [] then [(name, text)]
    else if search[0].0 == name then [(name, text)] + search[1..]
    else [search[0]] + SetParam(search[1..], name, text)
  }

  function OrDefault(number: Option<nat>, default: Value): Value {
    if number.Some? then Num(number.value) else default
  }

  function ReadField(query: QueryField, raw: Option<string>): Value {
    var text := if raw.Some? then raw.value else "";
    match query.kind
    case PositiveIntegerText => OrDefault(PositiveInteger(text), query.default)
    case PositiveLineText => OrDefault(PositiveLine(text), query.default)
    case BooleanText => Flag(raw == Some("true"))
    case AnyText => if raw.Some? then Text(raw.value) else query.default
  }

  function ParseQuery(query: seq<QueryField>, search: seq<(string, string)>, values: Route): Route {
    if query == [] then values
    else
      var value := ReadField(query[0], GetParam(search, query[0].name));
      ParseQuery(query[1..], search, With(values, query[0].field, value))
  }

  function FieldText(query: QueryField, r: Route): Option<string> {
    var value := if Get(r, query.field).Absent? then query.default else Get(r, query.field);
    if Printed(value) == Printed(query.default) || value == Text("") then None else Some(Printed(value))
  }

  function WriteQuery(query: seq<QueryField>, r: Route, search: seq<(string, string)>): seq<(string, string)> {
    if query == [] then search
    else
      var text := FieldText(query[0], r);
      WriteQuery(query[1..], r, if text.Some? then SetParam(search, query[0].name, text.value) else search)
  }

  function Parts(codec: Codec, tokens: seq<Token>, r: Route): seq<string> {
    if tokens == [] then []
    else
      var part := match tokens[0]
                  case Literal(text) => text
                  case Param(field) => codec.encode(Printed(Get(r, field)));
      [part] + Parts(codec, tokens[1..], r)
  }

  /** Setting a URL's path resolves its dot segments. */
  function ResolveDots(stack: seq<string>, parts: seq<string>): seq<string>
    decreases |parts|
  {
    if parts == [] then stack else ResolveDots(Move(stack, parts[0]), parts[1..])
  }

  /** The parameters are written from the notes route as its constructor would make it. */
  function RouteUrl(codec: Codec, r: Route): Address {
    var id := DefinitionFor(r);
    if id.None? then Address("/", [])
    else
      var source := if KindOf(id.value).Notes? then NotesRoute(r.noteId, r.secondaryNoteId) else r;
      Address("/" + Join(ResolveDots([], Parts(codec, Tokens(id.value), r))), WriteQuery(Query(id.value), source, []))
  }

  /** One definition against an address. */
  function Try(codec: Codec, id: Id, address: Address): Option<Route> {
    var fields := MatchTokens(Tokens(id), Decoded(codec, RawPathSegments(address.pathname)), EMPTY);
    if fields.None? then None else ToRoute(id, fields.value, ParseQuery(Query(id), address.search, EMPTY))
  }

  function ParseFrom(codec: Codec, ids: seq<Id>, address: Address): Option<Route>
    decreases |ids|, address
  {
    if ids == [] then None
    else
      var route := Try(codec, ids[0], address);
      if route.Some? then route else ParseFrom(codec, ids[1..], address)
  }

  function ParseRoute(codec: Codec, address: Address): Option<Route> {
    ParseFrom(codec, ROUTE_DEFINITIONS, address)
  }
}
