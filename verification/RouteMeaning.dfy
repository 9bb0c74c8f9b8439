/** Which route each address names, by its path segments and parameters. */
module RouteMeaning {
  import opened Wrappers
  import opened PathText
  import opened PathMeaning
  import opened RouteTable
  import opened RouteRoundTrip

  // ----- what an address says

  /** The decoded segments of an address's path. */
  function Segments(codec: Codec, address: Address): seq<string> {
    Decoded(codec, RawPathSegments(address.pathname))
  }

  /** A parameter's text, or nothing. */
  function TextParam(search: seq<(string, string)>, name: string): string {
    if GetParam(search, name).Some? then GetParam(search, name).value else ""
  }

  /** A parameter's text if it is one of those allowed. */
  function Chosen(search: seq<(string, string)>, name: string, allowed: seq<string>, fallback: string): string {
    if GetParam(search, name).Some? && GetParam(search, name).value in allowed
    then GetParam(search, name).value else fallback
  }

  function PageParam(search: seq<(string, string)>): nat {
    var page := PositiveInteger(TextParam(search, "page"));
    if page.Some? then page.value else 1
  }

  /** No decoded segment is empty. */
  lemma SegmentsNotEmpty(codec: Codec, address: Address, i: nat)
    requires GoodCodec(codec) && i < |Segments(codec, address)|
    ensures Segments(codec, address)[i] != ""
  {
    var raw := RawPathSegments(address.pathname);
    assert raw[i] in raw;
  }

  // ----- patterns spelled by segments

  ghost predicate Spells(tokens: seq<Token>, segments: seq<string>) {
    && |segments| == |tokens|
    && forall i :: 0 <= i < |tokens| ==>
         match tokens[i]
         case Literal(text) => segments[i] == text
         case Param(field) => !ReadParam(field, segments[i]).Absent?
  }

  lemma {:induction false} SpellsIff(tokens: seq<Token>, segments: seq<string>, start: Route)
    ensures MatchTokens(tokens, segments, start).Some? <==> Spells(tokens, segments)
  {
    if tokens != [] && segments != [] {
      var next := match tokens[0]
                  case Literal(_) => start
                  case Param(field) => With(start, field, ReadParam(field, segments[0]));
      SpellsIff(tokens[1..], segments[1..], next);
      SpellsFirst(tokens, segments);
    }
  }

  lemma SpellsFirst(tokens: seq<Token>, segments: seq<string>)
    requires tokens != [] && segments != []
    ensures Spells(tokens, segments) <==>
              && Spells(tokens[1..], segments[1..])
              && (match tokens[0]
                  case Literal(text) => segments[0] == text
                  case Param(field) => !ReadParam(field, segments[0]).Absent?)
  {
    if Spells(tokens[1..], segments[1..]) {
      forall i | 1 <= i < |tokens|
        ensures match tokens[i]
                case Literal(text) => segments[i] == text
                case Param(field) => !ReadParam(field, segments[i]).Absent?
      {
        assert tokens[1..][i - 1] == tokens[i] && segments[1..][i - 1] == segments[i];
      }
    }
    if Spells(tokens, segments) {
      assert forall i :: 0 <= i < |tokens| - 1 ==> tokens[1..][i] == tokens[i + 1] && segments[1..][i] == segments[i + 1];
    }
  }

  lemma ApartSpelled(a: seq<Token>, b: seq<Token>, segments: seq<string>)
    requires TokensApart(a, b) && Spells(b, segments)
    ensures !Spells(a, segments)
  {
  }

  /** The table's first pattern that the segments spell decides, but for a Task named "new" and the root page. */
  lemma FirstSpelled(codec: Codec, address: Address, id: Id)
    requires Spells(Tokens(id), Segments(codec, address)) && Try(codec, id, address).Some?
    requires id.TasksDetail? ==> !Spells(Tokens(TasksNew), Segments(codec, address))
    requires id.TasksHome? ==> Try(codec, SectionDetail, address).None?
    ensures ParseRoute(codec, address) == Try(codec, id, address)
  {
    TableAt(id);
    forall j | 0 <= j < Index(id) ensures Try(codec, ROUTE_DEFINITIONS[j], address).None? {
      TableOrder(j);
      EarlierFails(codec, address, ROUTE_DEFINITIONS[j], id);
    }
    ParseFromAt(codec, ROUTE_DEFINITIONS, address, Index(id));
  }

  lemma EarlierFails(codec: Codec, address: Address, a: Id, id: Id)
    requires Index(a) < Index(id) && Spells(Tokens(id), Segments(codec, address))
    requires id.TasksDetail? ==> !Spells(Tokens(TasksNew), Segments(codec, address))
    requires id.TasksHome? ==> Try(codec, SectionDetail, address).None?
    ensures Try(codec, a, address).None?
  {
    EarlierApart(a, id);
    if Apart(a, id) {
      ApartSpelled(Tokens(a), Tokens(id), Segments(codec, address));
    }
    SpellsIff(Tokens(a), Segments(codec, address), EMPTY);
  }

  /** What an address that spells a pattern is tried as. */
  lemma Tried(codec: Codec, address: Address, id: Id) returns (fields: Route)
    requires Spells(Tokens(id), Segments(codec, address))
    ensures Try(codec, id, address) == ToRoute(id, fields, ParseQuery(Query(id), address.search, EMPTY))
    ensures forall i :: 0 <= i < |Tokens(id)| && Tokens(id)[i].Param? ==>
              Get(fields, Tokens(id)[i].field) == ReadParam(Tokens(id)[i].field, Segments(codec, address)[i])
  {
    SpellsIff(Tokens(id), Segments(codec, address), EMPTY);
    TokensDistinct(id);
    MatchMeaning(Tokens(id), Segments(codec, address), EMPTY);
    fields := MatchTokens(Tokens(id), Segments(codec, address), EMPTY).value;
  }

  // ----- parameters read

  lemma TextRead(id: Id, search: seq<(string, string)>, i: nat, name: string, field: Field, default: string)
    requires i < |Query(id)| && Query(id)[i] == QueryField(name, field, AnyText, Text(default))
    requires Fits(field, Text(""))
    ensures Get(ParseQuery(Query(id), search, EMPTY), field)
            == Text(if GetParam(search, name).Some? then GetParam(search, name).value else default)
  {
    QueriesDistinct(id);
    ParseField(Query(id), search, EMPTY, i);
  }

  lemma PageRead(id: Id, search: seq<(string, string)>, i: nat)
    requires i < |Query(id)| && Query(id)[i] == QueryField("page", Page, PositiveIntegerText, Num(1))
    ensures ParseQuery(Query(id), search, EMPTY).page == Some(PageParam(search))
  {
    QueriesDistinct(id);
    ParseField(Query(id), search, EMPTY, i);
    assert Get(ParseQuery(Query(id), search, EMPTY), Page) == Num(PageParam(search));
  }

  lemma NumberRead(id: Id, search: seq<(string, string)>, i: nat)
    requires i < |Query(id)| && Query(id)[i] == QueryField("number", Number, PositiveIntegerText, Absent)
    ensures ParseQuery(Query(id), search, EMPTY).number == PositiveInteger(TextParam(search, "number"))
  {
    QueriesDistinct(id);
    ParseField(Query(id), search, EMPTY, i);
    assert Get(ParseQuery(Query(id), search, EMPTY), Number) == Numeric(PositiveInteger(TextParam(search, "number")));
  }

  lemma LineRead(id: Id, search: seq<(string, string)>, i: nat)
    requires i < |Query(id)| && Query(id)[i] == QueryField("line", Line, PositiveLineText, Absent)
    ensures ParseQuery(Query(id), search, EMPTY).line == PositiveLine(TextParam(search, "line"))
  {
    QueriesDistinct(id);
    ParseField(Query(id), search, EMPTY, i);
    assert Get(ParseQuery(Query(id), search, EMPTY), Line) == Numeric(PositiveLine(TextParam(search, "line")));
  }

  lemma FilesRead(id: Id, search: seq<(string, string)>, i: nat)
    requires i < |Query(id)| && Query(id)[i] == QueryField("files", Files, BooleanText, Flag(false))
    ensures ParseQuery(Query(id), search, EMPTY).files <==> TextParam(search, "files") == "true"
  {
    QueriesDistinct(id);
    ParseField(Query(id), search, EMPTY, i);
    assert Get(ParseQuery(Query(id), search, EMPTY), Files) == Flag(TextParam(search, "files") == "true");
  }

  lemma NotRead(id: Id, search: seq<(string, string)>, field: Field)
    requires !QueryOwns(id, field)
    ensures Get(ParseQuery(Query(id), search, EMPTY), field) == Get(EMPTY, field)
  {
    ParseOther(Query(id), search, EMPTY, field);
  }

  // ----- segments of the patterns

  /** A page of a Task, two words under it. */
  lemma TaskPage(codec: Codec, address: Address, id: Id, threadId: string, area: string, page: string)
    returns (fields: Route)
    requires Tokens(id) == [Literal("tasks"), Param(ThreadId), Literal(area), Literal(page)]
    requires Segments(codec, address) == ["tasks", threadId, area, page]
    ensures Spells(Tokens(id), Segments(codec, address)) && fields.threadId == threadId
    ensures Try(codec, id, address) == ToRoute(id, fields, ParseQuery(Query(id), address.search, EMPTY))
  {
    var tokens := Tokens(id);
    assert tokens[0] == Literal("tasks") && tokens[1] == Param(ThreadId)
        && tokens[2] == Literal(area) && tokens[3] == Literal(page);
    fields := Tried(codec, address, id);
    assert Get(fields, ThreadId) == Text(threadId);
  }

  lemma NumberedSpelled(threadId: string, page: string, text: string, last: seq<string>)
    requires PositiveInteger(text).Some? && |last| <= 1
    ensures var tokens := [Literal("tasks"), Param(ThreadId), Literal("github"), Literal(page), Param(Number)];
            Spells(tokens + if last == [] then [] else [Literal(last[0])],
                   ["tasks", threadId, "github", page, text] + last)
  {
  }

  lemma ParamsRead(fields: Route, threadId: string, number: Option<nat>)
    requires Get(fields, ThreadId) == Text(threadId) && Get(fields, Number) == Numeric(number)
    ensures fields.threadId == threadId && fields.number == number
  {
  }

  /** A numbered page of a Task. */
  lemma NumberedPage(codec: Codec, address: Address, id: Id, threadId: string, page: string, text: string, last: seq<string>)
    returns (fields: Route)
    requires |last| <= 1
    requires Tokens(id) == [Literal("tasks"), Param(ThreadId), Literal("github"), Literal(page), Param(Number)]
                           + if last == [] then [] else [Literal(last[0])]
    requires Segments(codec, address) == ["tasks", threadId, "github", page, text] + last && PositiveInteger(text).Some?
    ensures Spells(Tokens(id), Segments(codec, address))
    ensures fields.threadId == threadId && fields.number == PositiveInteger(text)
    ensures Try(codec, id, address) == ToRoute(id, fields, ParseQuery(Query(id), address.search, EMPTY))
  {
    NumberedSpelled(threadId, page, text, last);
    fields := Tried(codec, address, id);
    var tokens, segments := Tokens(id), Segments(codec, address);
    assert tokens[1] == Param(ThreadId) && segments[1] == threadId;
    assert tokens[4] == Param(Number) && segments[4] == text;
    ParamsRead(fields, threadId, PositiveInteger(text));
  }

  /** A page of a Task, one word under it. */
  lemma TaskView(codec: Codec, address: Address, id: Id, threadId: string, view: string) returns (fields: Route)
    requires Tokens(id) == [Literal("tasks"), Param(ThreadId), Literal(view)]
    requires Segments(codec, address) == ["tasks", threadId, view]
    ensures Spells(Tokens(id), Segments(codec, address)) && fields.threadId == threadId
    ensures Try(codec, id, address) == ToRoute(id, fields, ParseQuery(Query(id), address.search, EMPTY))
  {
    var tokens := Tokens(id);
    assert tokens[0] == Literal("tasks") && tokens[1] == Param(ThreadId) && tokens[2] == Literal(view);
    fields := Tried(codec, address, id);
    assert Get(fields, ThreadId) == Text(threadId);
  }

  // ----- Git and GitHub pages

  lemma CompareQuery(search: seq<(string, string)>)
    ensures var v := ParseQuery(Query(GitCompare), search, EMPTY);
            && v.baseRef == TextParam(search, "base") && v.headRef == TextParam(search, "head")
            && v.path == TextParam(search, "file")
  {
    TextRead(GitCompare, search, 0, "base", BaseRef, "");
    TextRead(GitCompare, search, 1, "head", HeadRef, "");
    TextRead(GitCompare, search, 2, "file", Path, "");
  }

  lemma CompareAddress(codec: Codec, address: Address, threadId: string)
    requires Segments(codec, address) == ["tasks", threadId, "git", "compare"]
    ensures ParseRoute(codec, address) == Some(EMPTY.(
              kind := Compare,
              threadId := threadId,
              baseRef := TextParam(address.search, "base"),
              headRef := TextParam(address.search, "head"),
              path := SafeRelativePath(TextParam(address.search, "file"))))
  {
    var fields := TaskPage(codec, address, GitCompare, threadId, "git", "compare");
    CompareQuery(address.search);
    FirstSpelled(codec, address, GitCompare);
  }

  lemma LogQuery(search: seq<(string, string)>)
    ensures var v := ParseQuery(Query(GitLog), search, EMPTY);
            && v.page == Some(PageParam(search)) && v.sha == TextParam(search, "sha")
            && v.path == TextParam(search, "file")
  {
    PageRead(GitLog, search, 0);
    TextRead(GitLog, search, 1, "sha", Sha, "");
    TextRead(GitLog, search, 2, "file", Path, "");
  }

  lemma LogAddress(codec: Codec, address: Address, threadId: string)
    requires Segments(codec, address) == ["tasks", threadId, "git", "log"]
    ensures ParseRoute(codec, address) == Some(EMPTY.(
              kind := Log,
              threadId := threadId,
              page := Some(PageParam(address.search)),
              sha := TextParam(address.search, "sha"),
              path := SafeRelativePath(TextParam(address.search, "file"))))
  {
    var fields := TaskPage(codec, address, GitLog, threadId, "git", "log");
    LogQuery(address.search);
    FirstSpelled(codec, address, GitLog);
  }

  /** A paged list or a numbered page has a page and nothing more. */
  lemma PagedQuery(id: Id, search: seq<(string, string)>)
    requires Query(id) == PAGE_QUERY
    ensures var v := ParseQuery(Query(id), search, EMPTY);
            v.page == Some(PageParam(search)) && v.number.None? && !v.files && v.path == ""
  {
    PageRead(id, search, 0);
    NotRead(id, search, Number);
    NotRead(id, search, Files);
    NotRead(id, search, Path);
  }

  lemma IssuesAddress(codec: Codec, address: Address, threadId: string)
    requires Segments(codec, address) == ["tasks", threadId, "github", "issues"]
    ensures ParseRoute(codec, address)
            == Some(EMPTY.(kind := Issues, threadId := threadId, page := Some(PageParam(address.search))))
  {
    var fields := TaskPage(codec, address, IssuesList, threadId, "github", "issues");
    PagedQuery(IssuesList, address.search);
    FirstSpelled(codec, address, IssuesList);
  }

  lemma IssueAddress(codec: Codec, address: Address, threadId: string, text: string)
    requires Segments(codec, address) == ["tasks", threadId, "github", "issues", text] && PositiveInteger(text).Some?
    ensures ParseRoute(codec, address) == Some(EMPTY.(
              kind := Issues,
              threadId := threadId,
              page := Some(PageParam(address.search)),
              number := PositiveInteger(text)))
  {
    var fields := NumberedPage(codec, address, IssuesDetail, threadId, "issues", text, []);
    PagedQuery(IssuesDetail, address.search);
    FirstSpelled(codec, address, IssuesDetail);
  }

  lemma NoPath()
    ensures SafeRelativePath("") == ""
  {
    assert NamedOnly([""]) == [];
  }

  lemma PullsAddress(codec: Codec, address: Address, threadId: string)
    requires Segments(codec, address) == ["tasks", threadId, "github", "pulls"]
    ensures ParseRoute(codec, address)
            == Some(EMPTY.(kind := Pulls, threadId := threadId, page := Some(PageParam(address.search))))
  {
    var fields := TaskPage(codec, address, PullsList, threadId, "github", "pulls");
    PagedQuery(PullsList, address.search);
    NoPath();
    FirstSpelled(codec, address, PullsList);
  }

  lemma PullAddress(codec: Codec, address: Address, threadId: string, text: string)
    requires Segments(codec, address) == ["tasks", threadId, "github", "pulls", text] && PositiveInteger(text).Some?
    ensures ParseRoute(codec, address) == Some(EMPTY.(
              kind := Pulls,
              threadId := threadId,
              page := Some(PageParam(address.search)),
              number := PositiveInteger(text)))
  {
    var fields := NumberedPage(codec, address, PullsDetail, threadId, "pulls", text, []);
    PagedQuery(PullsDetail, address.search);
    NoPath();
    FirstSpelled(codec, address, PullsDetail);
  }

  lemma PullFilesQuery(search: seq<(string, string)>)
    ensures var v := ParseQuery(Query(PullsFiles), search, EMPTY);
            v.page == Some(PageParam(search)) && v.path == TextParam(search, "file")
  {
    PageRead(PullsFiles, search, 0);
    TextRead(PullsFiles, search, 1, "file", Path, "");
  }

  lemma PullFilesAddress(codec: Codec, address: Address, threadId: string, text: string)
    requires Segments(codec, address) == ["tasks", threadId, "github", "pulls", text, "files"]
    requires PositiveInteger(text).Some?
    ensures ParseRoute(codec, address) == Some(EMPTY.(
              kind := Pulls,
              threadId := threadId,
              page := Some(PageParam(address.search)),
              number := PositiveInteger(text),
              files := true,
              path := SafeRelativePath(TextParam(address.search, "file"))))
  {
    var fields := NumberedPage(codec, address, PullsFiles, threadId, "pulls", text, ["files"]);
    PullFilesQuery(address.search);
    FirstSpelled(codec, address, PullsFiles);
  }

  // ----- Tasks

  lemma ViewQuery(id: Id, search: seq<(string, string)>, i: nat)
    requires i + 2 < |Query(id)|
    requires Query(id)[i] == QueryField("scope", ReviewScope, AnyText, Text("working"))
    requires Query(id)[i + 1] == QueryField("nav", ReviewNavigator, AnyText, Text("changes"))
    requires Query(id)[i + 2] == QueryField("view", ReviewViewer, AnyText, Text("diff"))
    ensures var v := ParseQuery(Query(id), search, EMPTY);
            && Scope(v.reviewScope) == Chosen(search, "scope", ["working", "branch"], "working")
            && Navigator(v.reviewNavigator) == Chosen(search, "nav", ["changes", "files"], "changes")
            && Viewer(v.reviewViewer) == Chosen(search, "view", ["diff", "visual", "source", "preview"], "diff")
  {
    TextRead(id, search, i, "scope", ReviewScope, "working");
    TextRead(id, search, i + 1, "nav", ReviewNavigator, "changes");
    TextRead(id, search, i + 2, "view", ReviewViewer, "diff");
  }

  lemma FileQuery(id: Id, search: seq<(string, string)>, i: nat)
    requires i + 2 < |Query(id)|
    requires Query(id)[i] == QueryField("file", Path, AnyText, Text(""))
    requires Query(id)[i + 1] == QueryField("line", Line, PositiveLineText, Absent)
    requires Query(id)[i + 2] == QueryField("base", BaseRef, AnyText, Text(""))
    ensures var v := ParseQuery(Query(id), search, EMPTY);
            && v.path == TextParam(search, "file") && v.line == PositiveLine(TextParam(search, "line"))
            && v.baseRef == TextParam(search, "base")
  {
    TextRead(id, search, i, "file", Path, "");
    LineRead(id, search, i + 1);
    TextRead(id, search, i + 2, "base", BaseRef, "");
  }

  lemma ReviewQuery(search: seq<(string, string)>)
    ensures var v := ParseQuery(Query(TasksReview), search, EMPTY);
            && Scope(v.reviewScope) == Chosen(search, "scope", ["working", "branch"], "working")
            && Navigator(v.reviewNavigator) == Chosen(search, "nav", ["changes", "files"], "changes")
            && Viewer(v.reviewViewer) == Chosen(search, "view", ["diff", "visual", "source", "preview"], "diff")
            && v.path == TextParam(search, "file") && v.line == PositiveLine(TextParam(search, "line"))
            && v.baseRef == TextParam(search, "base") && SameRest(v, EMPTY)
  {
    ViewQuery(TasksReview, search, 0);
    FileQuery(TasksReview, search, 3);
    ParseKeepsRest(Query(TasksReview), search, EMPTY);
  }

  /** A line reads back from its own text. */
  lemma LineKept(text: string)
    ensures PositiveLine(NumberText(PositiveLine(text))) == PositiveLine(text)
  {
    if PositiveLine(text).Some? { PositiveLineOfDecimal(PositiveLine(text).value); }
  }

  lemma ReviewAddress(codec: Codec, address: Address, threadId: string)
    requires Segments(codec, address) == ["tasks", threadId, "review"] && threadId != ""
    ensures var search := address.search;
            var path := ReviewFilePath(TextParam(search, "file"));
            ParseRoute(codec, address) == Some(EMPTY.(
              kind := Tasks,
              threadId := threadId,
              review := true,
              reviewScope := Chosen(search, "scope", ["working", "branch"], "working"),
              reviewNavigator := Chosen(search, "nav", ["changes", "files"], "changes"),
              reviewViewer := Chosen(search, "view", ["diff", "visual", "source", "preview"], "diff"),
              path := path,
              line := if path != "" then PositiveLine(TextParam(search, "line")) else None,
              baseRef := TextParam(search, "base")))
  {
    var fields := TaskView(codec, address, TasksReview, threadId, "review");
    ReviewQuery(address.search);
    LineKept(TextParam(address.search, "line"));
    FirstSpelled(codec, address, TasksReview);
  }

  lemma TerminalAddress(codec: Codec, address: Address, threadId: string)
    requires Segments(codec, address) == ["tasks", threadId, "terminal"] && threadId != ""
    ensures ParseRoute(codec, address) == Some(EMPTY.(threadId := threadId, terminal := true))
  {
    var fields := TaskView(codec, address, TasksTerminal, threadId, "terminal");
    FirstSpelled(codec, address, TasksTerminal);
  }

  lemma RecoveryAddress(codec: Codec, address: Address, threadId: string)
    requires Segments(codec, address) == ["tasks", threadId, "recovery"] && threadId != ""
    ensures ParseRoute(codec, address) == Some(EMPTY.(threadId := threadId, recovery := true))
  {
    var fields := TaskView(codec, address, TasksRecovery, threadId, "recovery");
    FirstSpelled(codec, address, TasksRecovery);
  }

  lemma TaskAddress(codec: Codec, address: Address, threadId: string)
    requires Segments(codec, address) == ["tasks", threadId] && threadId != "new"
    ensures ParseRoute(codec, address) == Some(EMPTY.(threadId := threadId))
  {
    var tokens, segments := Tokens(TasksDetail), Segments(codec, address);
    assert tokens[0] == Literal("tasks") && tokens[1] == Param(ThreadId);
    var fields := Tried(codec, address, TasksDetail);
    assert Get(fields, ThreadId) == Text(threadId);
    assert Tokens(TasksNew)[1] == Literal("new") && segments[1] == threadId;
    assert Query(TasksDetail) == [];
    FirstSpelled(codec, address, TasksDetail);
  }

  lemma NewTaskAddress(codec: Codec, address: Address)
    requires Segments(codec, address) == ["tasks", "new"]
    ensures var cwd := TextParam(address.search, "cwd");
            ParseRoute(codec, address) == Some(EMPTY.(isNew := true, cwd := if cwd == "." then "." else CleanPath(cwd)))
  {
    var tokens := Tokens(TasksNew);
    assert tokens[0] == Literal("tasks") && tokens[1] == Literal("new");
    var fields := Tried(codec, address, TasksNew);
    TextRead(TasksNew, address.search, 0, "cwd", Cwd, "");
    NotRead(TasksNew, address.search, ThreadId);
    ParseKeepsRest(Query(TasksNew), address.search, EMPTY);
    FirstSpelled(codec, address, TasksNew);
  }

  lemma TaskListAddress(codec: Codec, address: Address)
    requires Segments(codec, address) == ["tasks"]
    ensures ParseRoute(codec, address) == Some(EMPTY)
  {
    assert Tokens(LegacyTasksList)[0] == Literal("tasks");
    var fields := Tried(codec, address, LegacyTasksList);
    assert Query(LegacyTasksList) == [];
    FirstSpelled(codec, address, LegacyTasksList);
  }

  // ----- notes and settings

  lemma NotesAddress(codec: Codec, address: Address)
    requires Segments(codec, address) == ["notes"]
    ensures ParseRoute(codec, address) == Some(EMPTY.(kind := Notes))
  {
    assert Tokens(NotesHome)[0] == Literal("notes");
    var fields := Tried(codec, address, NotesHome);
    FirstSpelled(codec, address, NotesHome);
  }

  lemma NoteAddress(codec: Codec, address: Address, noteId: string)
    requires Segments(codec, address) == ["notes", noteId] && noteId != ""
    ensures var beside := TextParam(address.search, "beside");
            ParseRoute(codec, address)
            == Some(EMPTY.(kind := Notes, noteId := noteId, secondaryNoteId := if beside == noteId then "" else beside))
  {
    var tokens := Tokens(NotesNote);
    assert tokens[0] == Literal("notes") && tokens[1] == Param(NoteId);
    var fields := Tried(codec, address, NotesNote);
    assert Get(fields, NoteId) == Text(noteId);
    TextRead(NotesNote, address.search, 0, "beside", SecondaryNoteId, "");
    FirstSpelled(codec, address, NotesNote);
  }

  lemma SettingsAddress(codec: Codec, address: Address)
    requires Segments(codec, address) == ["settings"]
    ensures ParseRoute(codec, address) == Some(EMPTY.(kind := Settings))
  {
    assert Tokens(SettingsHome)[0] == Literal("settings");
    var fields := Tried(codec, address, SettingsHome);
    NoSectionCalledNothing();
    FirstSpelled(codec, address, SettingsHome);
  }

  lemma NoSectionCalledNothing()
    ensures !KnownSection("")
  {
  }

  /** A page named by two words. */
  lemma WordsPage(codec: Codec, address: Address, id: Id, first: string, second: string) returns (fields: Route)
    requires Tokens(id) == [Literal(first), Literal(second)] && Segments(codec, address) == [first, second]
    ensures Spells(Tokens(id), Segments(codec, address))
    ensures Try(codec, id, address) == ToRoute(id, fields, ParseQuery(Query(id), address.search, EMPTY))
  {
    var tokens := Tokens(id);
    assert tokens[0] == Literal(first) && tokens[1] == Literal(second);
    fields := Tried(codec, address, id);
  }

  lemma SettingsSectionAddress(codec: Codec, address: Address, name: SettingsName)
    requires Segments(codec, address) == ["settings", NameText(name)]
    ensures ParseRoute(codec, address) == Some(EMPTY.(kind := Settings, section := NameText(name)))
  {
    var fields := WordsPage(codec, address, SettingsSection(name), "settings", NameText(name));
    NameKnown(name);
    FirstSpelled(codec, address, SettingsSection(name));
  }

  lemma NameKnown(name: SettingsName)
    ensures KnownSection(NameText(name))
  {
    assert SETTINGS_NAMES == [Appearance, Keyboard, FilesSettings, Notifications, RemoteAccess, Voice,
                              Jev, Codex, Claude, Grok, Antigravity, About];
    assert exists i :: 0 <= i < |SETTINGS_NAMES| && SETTINGS_NAMES[i] == name by {
      var i := match name
               case Appearance => 0 case Keyboard => 1 case FilesSettings => 2 case Notifications => 3
               case RemoteAccess => 4 case Voice => 5 case Jev => 6 case Codex => 7
               case Claude => 8 case Grok => 9 case Antigravity => 10 case About => 11;
      assert SETTINGS_NAMES[i] == name;
    }
  }

  // ----- the root page: the Task list, or a section's page

  lemma SectionFirstQuery(search: seq<(string, string)>)
    ensures var v := ParseQuery(Query(SectionDetail), search, EMPTY);
            && v.sectionId == TextParam(search, "section")
            && Surface(v.sectionSurface)
               == Chosen(search, "surface", ["new", "review", "git", "github", "terminal"], "new")
            && v.sectionTool == TextParam(search, "tool")
  {
    TextRead(SectionDetail, search, 0, "section", SectionId, "");
    TextRead(SectionDetail, search, 1, "surface", SectionSurface, "new");
    TextRead(SectionDetail, search, 2, "tool", SectionTool, "");
  }

  lemma SectionRefQuery(search: seq<(string, string)>)
    ensures var v := ParseQuery(Query(SectionDetail), search, EMPTY);
            v.headRef == TextParam(search, "head") && v.sha == TextParam(search, "sha")
  {
    SectionRefFields();
    TextRead(SectionDetail, search, 9, "head", HeadRef, "");
    TextRead(SectionDetail, search, 11, "sha", Sha, "");
  }

  lemma SectionRefFields()
    ensures |Query(SectionDetail)| == 14
    ensures Query(SectionDetail)[9] == QueryField("head", HeadRef, AnyText, Text(""))
    ensures Query(SectionDetail)[11] == QueryField("sha", Sha, AnyText, Text(""))
  {
  }

  lemma SectionNumberQuery(search: seq<(string, string)>)
    ensures var v := ParseQuery(Query(SectionDetail), search, EMPTY);
            && v.number == PositiveInteger(TextParam(search, "number"))
            && (v.files <==> TextParam(search, "files") == "true")
  {
    NumberRead(SectionDetail, search, 12);
    FilesRead(SectionDetail, search, 13);
  }

  /** The tool of a section's surface. */
  function ToolParam(search: seq<(string, string)>, surface: string): string {
    if surface == "git" then Chosen(search, "tool", ["compare", "log"], "compare")
    else if surface == "github" then Chosen(search, "tool", ["issues", "pulls"], "issues")
    else ""
  }

  lemma NumberKept(number: Option<nat>)
    requires number.Some? ==> number.value > 0
    ensures PositiveInteger(NumberText(number)) == number
  {
    if number.Some? { PositiveIntegerOfDecimal(number.value); }
    assert PositiveInteger("").None?;
  }

  /** The page of a section: what of its parameters the section's surface and tool keep. */
  function SectionNamed(search: seq<(string, string)>): Route {
    var surface := Chosen(search, "surface", ["new", "review", "git", "github", "terminal"], "new");
    var tool := ToolParam(search, surface);
    var file := TextParam(search, "file");
    var path := if surface == "review" then ReviewFilePath(file)
                else if surface == "git" || surface == "github" then SafeRelativePath(file)
                else "";
    var number := if surface == "github" then PositiveInteger(TextParam(search, "number")) else None;
    EMPTY.(
      sectionId := Trim(TextParam(search, "section")),
      sectionSurface := surface,
      sectionTool := tool,
      reviewScope := Chosen(search, "scope", ["working", "branch"], "working"),
      reviewNavigator := Chosen(search, "nav", ["changes", "files"], "changes"),
      reviewViewer := Chosen(search, "view", ["diff", "visual", "source", "preview"], "diff"),
      path := path,
      line := if path != "" then PositiveLine(TextParam(search, "line")) else None,
      baseRef := TextParam(search, "base"),
      headRef := if tool == "compare" then TextParam(search, "head") else "",
      page := Some(if tool == "log" || surface == "github" then PageParam(search) else 1),
      sha := if tool == "log" then TextParam(search, "sha") else "",
      number := number,
      files := tool == "pulls" && number.Some? && TextParam(search, "files") == "true")
  }

  /** What a section's parameters were read as, up to its file. */
  ghost predicate SectionViewRead(v: Route, search: seq<(string, string)>) {
    && v.sectionId == TextParam(search, "section")
    && Surface(v.sectionSurface) == Chosen(search, "surface", ["new", "review", "git", "github", "terminal"], "new")
    && v.sectionTool == TextParam(search, "tool")
    && Scope(v.reviewScope) == Chosen(search, "scope", ["working", "branch"], "working")
    && Navigator(v.reviewNavigator) == Chosen(search, "nav", ["changes", "files"], "changes")
    && Viewer(v.reviewViewer) == Chosen(search, "view", ["diff", "visual", "source", "preview"], "diff")
  }

  /** And from its file on. */
  ghost predicate SectionDetailRead(v: Route, search: seq<(string, string)>) {
    && v.path == TextParam(search, "file") && v.line == PositiveLine(TextParam(search, "line"))
    && v.baseRef == TextParam(search, "base") && v.headRef == TextParam(search, "head")
    && v.page == Some(PageParam(search)) && v.sha == TextParam(search, "sha")
    && v.number == PositiveInteger(TextParam(search, "number"))
    && (v.files <==> TextParam(search, "files") == "true")
  }

  lemma SectionViewParams(search: seq<(string, string)>)
    ensures SectionViewRead(ParseQuery(Query(SectionDetail), search, EMPTY), search)
  {
    SectionFirstQuery(search);
    ViewQuery(SectionDetail, search, 3);
  }

  lemma SectionDetailParams(search: seq<(string, string)>)
    ensures SectionDetailRead(ParseQuery(Query(SectionDetail), search, EMPTY), search)
  {
    FileQuery(SectionDetail, search, 6);
    SectionRefQuery(search);
    PageRead(SectionDetail, search, 10);
    SectionNumberQuery(search);
  }

  lemma ToolRead(search: seq<(string, string)>, surface: string)
    ensures Tool(surface, TextParam(search, "tool")) == ToolParam(search, surface)
    ensures ToolParam(search, surface) == "compare" || ToolParam(search, surface) == "log" ==> surface == "git"
    ensures ToolParam(search, surface) == "issues" || ToolParam(search, surface) == "pulls" <==> surface == "github"
  {
  }

  lemma SectionMade(v: Route, search: seq<(string, string)>)
    requires SectionViewRead(v, search) && SectionDetailRead(v, search) && Trim(TextParam(search, "section")) != ""
    ensures SectionDetailRoute(v) == Some(SectionNamed(search))
  {
    ToolRead(search, Surface(v.sectionSurface));
    LineKept(TextParam(search, "line"));
    NumberKept(v.number);
    NumberKept(v.page);
  }

  lemma RootSpelled()
    ensures Spells(Tokens(SectionDetail), []) && Spells(Tokens(TasksHome), [])
  {
  }

  lemma ToSection(fields: Route, v: Route)
    ensures ToRoute(SectionDetail, fields, v) == SectionDetailRoute(v)
  {
  }

  lemma ToHome(fields: Route)
    ensures ToRoute(TasksHome, fields, EMPTY) == Some(EMPTY)
  {
  }

  lemma NoParams(search: seq<(string, string)>)
    ensures ParseQuery(Query(TasksHome), search, EMPTY) == EMPTY
  {
    assert Query(TasksHome) == [];
  }

  lemma SectionTried(codec: Codec, address: Address)
    requires Segments(codec, address) == []
    ensures Try(codec, SectionDetail, address) == SectionDetailRoute(ParseQuery(Query(SectionDetail), address.search, EMPTY))
  {
    RootSpelled();
    var fields := Tried(codec, address, SectionDetail);
    ToSection(fields, ParseQuery(Query(SectionDetail), address.search, EMPTY));
  }

  lemma HomeTried(codec: Codec, address: Address)
    requires Segments(codec, address) == []
    ensures Try(codec, TasksHome, address) == Some(EMPTY)
  {
    RootSpelled();
    var fields := Tried(codec, address, TasksHome);
    NoParams(address.search);
    ToHome(fields);
  }

  /** The root page with a section. */
  lemma SectionAddress(codec: Codec, address: Address)
    requires Segments(codec, address) == [] && Trim(TextParam(address.search, "section")) != ""
    ensures ParseRoute(codec, address) == Some(SectionNamed(address.search))
  {
    RootSpelled();
    SectionTried(codec, address);
    SectionViewParams(address.search);
    SectionDetailParams(address.search);
    SectionMade(ParseQuery(Query(SectionDetail), address.search, EMPTY), address.search);
    FirstSpelled(codec, address, SectionDetail);
  }

  lemma NoSectionMade(v: Route, search: seq<(string, string)>)
    requires v.sectionId == TextParam(search, "section") && Trim(TextParam(search, "section")) == ""
    ensures SectionDetailRoute(v).None?
  {
  }

  /** The root page without a section is the Task list. */
  lemma RootAddress(codec: Codec, address: Address)
    requires Segments(codec, address) == [] && Trim(TextParam(address.search, "section")) == ""
    ensures ParseRoute(codec, address) == Some(EMPTY)
  {
    RootSpelled();
    SectionTried(codec, address);
    HomeTried(codec, address);
    SectionFirstQuery(address.search);
    NoSectionMade(ParseQuery(Query(SectionDetail), address.search, EMPTY), address.search);
    FirstSpelled(codec, address, TasksHome);
  }

  /** An address names a route exactly when its segments spell a pattern of the table. */
  lemma NamesRouteIff(codec: Codec, address: Address)
    ensures ParseRoute(codec, address).Some? <==> exists id :: Spells(Tokens(id), Segments(codec, address))
  {
    if exists id :: Spells(Tokens(id), Segments(codec, address)) {
      var id :| Spells(Tokens(id), Segments(codec, address));
      SpelledNames(codec, address, id);
    }
    if ParseRoute(codec, address).Some? {
      var id := TriedBy(codec, ROUTE_DEFINITIONS, address);
      SpellsIff(Tokens(id), Segments(codec, address), EMPTY);
    }
  }

  lemma SpelledNames(codec: Codec, address: Address, id: Id)
    requires Spells(Tokens(id), Segments(codec, address))
    ensures ParseRoute(codec, address).Some?
  {
    if id.SectionDetail? {
      RootSpelled();
      NothingSpelled(Segments(codec, address));
      HomeTried(codec, address);
      TableAt(TasksHome);
      SomeTried(codec, ROUTE_DEFINITIONS, address, Index(TasksHome));
    } else {
      var fields := Tried(codec, address, id);
      Makes(id, fields, ParseQuery(Query(id), address.search, EMPTY));
      TableAt(id);
      SomeTried(codec, ROUTE_DEFINITIONS, address, Index(id));
    }
  }

  lemma NothingSpelled(segments: seq<string>)
    requires Spells(Tokens(SectionDetail), segments)
    ensures segments == []
  {
  }

  lemma Makes(id: Id, fields: Route, v: Route)
    requires !id.SectionDetail?
    ensures ToRoute(id, fields, v).Some?
  {
  }

  lemma {:induction false} SomeTried(codec: Codec, ids: seq<Id>, address: Address, i: nat)
    requires i < |ids| && Try(codec, ids[i], address).Some?
    ensures ParseFrom(codec, ids, address).Some?
    decreases i
  {
    if i > 0 && Try(codec, ids[0], address).None? { SomeTried(codec, ids[1..], address, i - 1); }
  }

  lemma {:induction false} TriedBy(codec: Codec, ids: seq<Id>, address: Address) returns (id: Id)
    requires ParseFrom(codec, ids, address).Some?
    ensures Try(codec, id, address).Some?
    decreases |ids|
  {
    if Try(codec, ids[0], address).Some? {
      id := ids[0];
    } else {
      id := TriedBy(codec, ids[1..], address);
    }
  }

  // ----- files

  // A file made of plain names is carried as it is by every Git page and by a pull request's files.

  lemma CompareFile(codec: Codec, address: Address, names: seq<string>, threadId: string)
    requires Names(names) && GetParam(address.search, "file") == Some(Join(names))
    requires Segments(codec, address) == ["tasks", threadId, "git", "compare"]
    ensures ParseRoute(codec, address).Some? && ParseRoute(codec, address).value.path == Join(names)
  {
    NamesKept(names);
    CompareAddress(codec, address, threadId);
  }

  lemma LogFile(codec: Codec, address: Address, names: seq<string>, threadId: string)
    requires Names(names) && GetParam(address.search, "file") == Some(Join(names))
    requires Segments(codec, address) == ["tasks", threadId, "git", "log"]
    ensures ParseRoute(codec, address).Some? && ParseRoute(codec, address).value.path == Join(names)
  {
    NamesKept(names);
    LogAddress(codec, address, threadId);
  }

  lemma PullFile(codec: Codec, address: Address, names: seq<string>, threadId: string, text: string)
    requires Names(names) && GetParam(address.search, "file") == Some(Join(names))
    requires Segments(codec, address) == ["tasks", threadId, "github", "pulls", text, "files"] && PositiveInteger(text).Some?
    ensures ParseRoute(codec, address).Some? && ParseRoute(codec, address).value.path == Join(names)
  {
    NamesKept(names);
    PullFilesAddress(codec, address, threadId, text);
  }

  // ----- parameters written

  /** A parameter is written exactly when its field says something other than its default. */
  lemma ParamWrittenIff(id: Id, r: Route, i: nat)
    requires i < |Query(id)| && Fits(Query(id)[i].field, Get(r, Query(id)[i].field))
    ensures var q, value := Query(id)[i], Get(r, Query(id)[i].field);
            GetParam(WriteQuery(Query(id), r, []), q.name)
            == if value.Absent? || value == Text("") || value == q.default then None else Some(Printed(value))
  {
    QueriesDistinct(id);
    WriteField(Query(id), r, [], i);
    DefaultFits(id, i);
    WrittenIff(Query(id)[i], r);
  }

  lemma DefaultFits(id: Id, i: nat)
    requires i < |Query(id)|
    ensures Fits(Query(id)[i].field, Query(id)[i].default)
  {
  }

  lemma WrittenIff(q: QueryField, r: Route)
    requires Fits(q.field, Get(r, q.field)) && Fits(q.field, q.default)
    ensures var value := Get(r, q.field);
            FieldText(q, r)
            == if value.Absent? || value == Text("") || value == q.default then None else Some(Printed(value))
  {
    var value := Get(r, q.field);
    if !value.Absent? {
      PrintedSame(q.field, value, q.default);
    }
  }

  lemma PrintedSame(field: Field, value: Value, default: Value)
    requires Fits(field, value) && Fits(field, default) && !value.Absent?
    ensures Printed(value) == Printed(default) <==> value == default
  {
    if value.Num? {
      DecimalValue(value.number);
      if default.Num? {
        DecimalValue(default.number);
      } else if default.Absent? {
        assert Digit(Decimal(value.number)[0]) && !Digit("null"[0]);
      }
    } else if value.Flag? {
      assert "true"[0] != "false"[0];
    }
  }
}
