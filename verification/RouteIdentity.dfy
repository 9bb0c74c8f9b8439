/** Parsing, printing and parsing again: the routes of addresses are exactly the canonical ones. */
module RouteIdentity {
  import opened Wrappers
  import opened PathText
  import opened RouteTable
  import opened RouteRoundTrip
  import opened RouteParsing

  // ----- a canonical route prints to an address that parses to it

  lemma DecimalNamed(n: nat)
    ensures Named(Decimal(n))
  {
    assert Digit(Decimal(n)[0]);
  }

  lemma NumberParam(id: Id, r: Route)
    requires r.number.Some? && r.number.value > 0
    ensures ReadParam(Number, Printed(Get(r, Number))) == Get(r, Number) && Named(Printed(Get(r, Number)))
  {
    PositiveIntegerOfDecimal(r.number.value);
    DecimalNamed(r.number.value);
  }

  /** What an address reads of a route. */
  ghost predicate PathShape(r: Route) {
    && (r.kind.Notes? && r.noteId != "" ==> Named(r.noteId))
    && (r.kind.Tasks? && r.threadId != "" ==> Named(r.threadId))
    && (r.kind.Tasks? && r.isNew ==> r.threadId == "")
    && (RepositoryKind(r.kind) ==> Named(r.threadId) && PositiveOrNone(r.number))
    && (r.kind.Pulls? && r.files ==> r.number.Some?)
  }

  lemma CanonicalPathShape(r: Route)
    requires Canonical(r)
    ensures PathShape(r)
  {
    if RepositoryKind(r.kind) {
      CanonicalRepositoryShape(r);
    } else if r.kind.Tasks? {
      TasksShape(r);
    }
  }

  /** Which parameters a pattern can have. */
  lemma ParamKinds(id: Id, i: nat)
    requires i < |Tokens(id)| && Tokens(id)[i].Param?
    ensures match Tokens(id)[i].field
            case NoteId => id.NotesNote?
            case Number => Numbered(id)
            case ThreadId => Generic(id) || id.TasksReview? || id.TasksTerminal? || id.TasksRecovery? || id.TasksDetail?
            case _ => false
  {
  }

  lemma CanonicalParam(r: Route, field: Field)
    requires PathShape(r)
    requires match field
             case NoteId => IdOf(r).NotesNote?
             case Number => Numbered(IdOf(r))
             case ThreadId =>
               Generic(IdOf(r)) || IdOf(r).TasksReview? || IdOf(r).TasksTerminal? || IdOf(r).TasksRecovery? || IdOf(r).TasksDetail?
             case _ => false
    ensures Named(Printed(Get(r, field)))
    ensures ReadParam(field, Printed(Get(r, field))) == Get(r, field)
    ensures Fits(field, Get(r, field)) && !Get(r, field).Absent?
  {
    KindOfId(r);
    if field.Number? { NumberParam(IdOf(r), r); }
  }

  lemma CanonicalParams(r: Route)
    requires PathShape(r)
    ensures ParamsNamed(Tokens(IdOf(r)), r)
  {
    var tokens := Tokens(IdOf(r));
    forall i | 0 <= i < |tokens| && tokens[i].Param?
      ensures Named(Printed(Get(r, tokens[i].field)))
      ensures ReadParam(tokens[i].field, Printed(Get(r, tokens[i].field))) == Get(r, tokens[i].field)
      ensures Fits(tokens[i].field, Get(r, tokens[i].field)) && !Get(r, tokens[i].field).Absent?
    {
      ParamKinds(IdOf(r), i);
      CanonicalParam(r, tokens[i].field);
    }
  }

  lemma {:induction false} PlainLiteral(tokens: seq<Token>, r: Route, i: nat)
    requires i < |tokens|
    ensures |PlainParts(tokens, r)| == |tokens|
    ensures tokens[i].Literal? ==> PlainParts(tokens, r)[i] == tokens[i].text
    ensures tokens[i].Param? ==> PlainParts(tokens, r)[i] == Printed(Get(r, tokens[i].field))
  {
    if i > 0 {
      PlainLiteral(tokens[1..], r, i - 1);
    } else if |tokens| > 1 {
      PlainLiteral(tokens[1..], r, 0);
    }
  }

  lemma ApartParts(a: Id, b: Id, r: Route, start: Route)
    requires Apart(a, b) && Tokens(b) != []
    ensures MatchTokens(Tokens(a), PlainParts(Tokens(b), r), start).None?
  {
    ApartTokenParts(Tokens(a), Tokens(b), r, start);
  }

  lemma ApartTokenParts(a: seq<Token>, b: seq<Token>, r: Route, start: Route)
    requires TokensApart(a, b) && b != []
    ensures MatchTokens(a, PlainParts(b, r), start).None?
  {
    PlainLiteral(b, r, 0);
    if |a| != |b| {
      MatchLiterals(a, PlainParts(b, r), start, 0);
    } else {
      var i := if LiteralsDiffer(a, b, 0) then 0 else if LiteralsDiffer(a, b, 1) then 1
               else if LiteralsDiffer(a, b, 2) then 2 else 3;
      PlainLiteral(b, r, i);
      MatchLiterals(a, PlainParts(b, r), start, i);
    }
  }

  lemma PrintedPath(codec: Codec, tokens: seq<Token>, r: Route)
    requires GoodCodec(codec) && LiteralsPlain(tokens) && ParamsNamed(tokens, r)
    ensures var raw := RawPathSegments("/" + Join(ResolveDots([], Parts(codec, tokens, r))));
            && Decoded(codec, raw) == PlainParts(tokens, r)
            && forall s :: s in raw ==> Named(codec.decode(s))
  {
    var parts := Parts(codec, tokens, r);
    PartsDecode(codec, tokens, r);
    NoDotsToResolve([], parts);
    assert [] + parts == parts;
    PathRoundTrip(parts);
    forall s | s in parts ensures Named(codec.decode(s)) {
      var i :| 0 <= i < |parts| && parts[i] == s;
      assert Decoded(codec, parts)[i] == codec.decode(s);
    }
  }

  /** The address of a canonical route, in terms of decoded segments. */
  lemma PrintedAddress(codec: Codec, r: Route)
    requires GoodCodec(codec) && Canonical(r)
    ensures var address := RouteUrl(codec, r);
            && Decoded(codec, RawPathSegments(address.pathname)) == PlainParts(Tokens(IdOf(r)), r)
            && address.search == WriteQuery(Query(IdOf(r)), r, [])
            && Resolved(codec, address)
  {
    DefinitionForCanonical(r);
    TokensPlain(IdOf(r));
    CanonicalPathShape(r);
    CanonicalParams(r);
    PrintedPath(codec, Tokens(IdOf(r)), r);
    KindOfId(r);
    NotesSource(r);
  }

  lemma KindOfId(r: Route)
    ensures KindOf(IdOf(r)) == r.kind
  {
  }

  lemma NotesSource(r: Route)
    requires Canonical(r)
    ensures r.kind.Notes? ==> NotesRoute(r.noteId, r.secondaryNoteId) == r
  {
  }

  lemma OwnParses(codec: Codec, r: Route)
    requires GoodCodec(codec) && Canonical(r)
    ensures Try(codec, IdOf(r), RouteUrl(codec, r)) == Some(r)
  {
    var id := IdOf(r);
    PrintedAddress(codec, r);
    CanonicalPathShape(r);
    CanonicalParams(r);
    TokensDistinct(id);
    MatchOwnParts(Tokens(id), r, EMPTY);
    QueryFills(r);
    var address := RouteUrl(codec, r);
    var fields := MatchTokens(Tokens(id), PlainParts(Tokens(id), r), EMPTY).value;
    Remade(r, fields, ParseQuery(Query(id), address.search, EMPTY));
  }

  lemma EarlierPasses(codec: Codec, r: Route, a: Id, address: Address)
    requires Index(a) < Index(IdOf(r)) && (IdOf(r) == TasksDetail ==> r.threadId != "new")
    requires Decoded(codec, RawPathSegments(address.pathname)) == PlainParts(Tokens(IdOf(r)), r)
    requires IdOf(r) == TasksHome ==> address.search == []
    ensures Try(codec, a, address).None?
  {
    EarlierApart(a, IdOf(r));
    if Apart(a, IdOf(r)) {
      ApartPasses(a, IdOf(r), r, EMPTY);
    } else if a == SectionDetail {
      SectionPasses(codec, address);
    } else {
      NewPasses(r, EMPTY);
    }
  }

  lemma SectionPasses(codec: Codec, address: Address)
    requires address.search == []
    ensures Try(codec, SectionDetail, address).None?
  {
    SectionQueryFirst();
    QueriesDistinct(SectionDetail);
    NoSection(Query(SectionDetail), address.search, EMPTY);
  }

  lemma ApartPasses(a: Id, b: Id, r: Route, start: Route)
    requires Apart(a, b)
    ensures MatchTokens(Tokens(a), PlainParts(Tokens(b), r), start).None?
  {
    if Tokens(b) == [] {
      SomeSegmentsMissing(a, start);
    } else {
      ApartParts(a, b, r, start);
    }
  }

  lemma NotCalledNew(r: Route)
    requires Canonical(r)
    ensures IdOf(r) == TasksDetail ==> r.threadId != "new"
    ensures IdOf(r) == TasksHome ==> WriteQuery(Query(IdOf(r)), r, []) == []
  {
    KindOfId(r);
  }

  lemma NewPasses(r: Route, start: Route)
    requires r.threadId != "new"
    ensures MatchTokens(Tokens(TasksNew), PlainParts(Tokens(TasksDetail), r), start).None?
  {
    var tokens := Tokens(TasksDetail);
    assert Tokens(TasksNew)[1] == Literal("new") && tokens[1] == Param(ThreadId);
    PlainLiteral(tokens, r, 1);
    MatchLiterals(Tokens(TasksNew), PlainParts(tokens, r), start, 1);
  }

  lemma SomeSegmentsMissing(a: Id, start: Route)
    requires Tokens(a) != []
    ensures MatchTokens(Tokens(a), [], start).None?
  {
  }

  /** The root page without a section parameter is not a section's page. */
  lemma NoSection(query: seq<QueryField>, search: seq<(string, string)>, start: Route)
    requires DistinctQuery(query) && query != [] && GetParam(search, query[0].name).None?
    requires query[0].field == SectionId && query[0].kind == AnyText && query[0].default == Text("")
    ensures SectionDetailRoute(ParseQuery(query, search, start)).None?
  {
    var v := ParseQuery(query, search, start);
    ParseField(query, search, start, 0);
    assert Get(v, SectionId) == Text("");
    NoSectionId(v);
  }

  lemma NoSectionId(options: Route)
    requires Trim(options.sectionId) == ""
    ensures SectionDetailRoute(options).None?
  {
  }

  lemma SectionQueryFirst()
    ensures SECTION_DETAIL_QUERY != [] && SECTION_DETAIL_QUERY[0] == QueryField("section", SectionId, AnyText, Text(""))
  {
  }

  /** Printing a canonical route and parsing the address gives the route back. */
  lemma PrintParse(codec: Codec, r: Route)
    requires GoodCodec(codec) && Canonical(r)
    ensures ParseRoute(codec, RouteUrl(codec, r)) == Some(r)
    ensures Resolved(codec, RouteUrl(codec, r))
  {
    var address := RouteUrl(codec, r);
    PrintedAddress(codec, r);
    TableAt(IdOf(r));
    OwnParses(codec, r);
    NotCalledNew(r);
    forall j | 0 <= j < Index(IdOf(r)) ensures Try(codec, ROUTE_DEFINITIONS[j], address).None? {
      TableOrder(j);
      EarlierPasses(codec, r, ROUTE_DEFINITIONS[j], address);
    }
    ParseFromAt(codec, ROUTE_DEFINITIONS, address, Index(IdOf(r)));
  }

  /** Different canonical routes have different addresses. */
  lemma RouteUrlInjective(codec: Codec, a: Route, b: Route)
    requires GoodCodec(codec) && Canonical(a) && Canonical(b)
    requires RouteUrl(codec, a) == RouteUrl(codec, b)
    ensures a == b
  {
    PrintParse(codec, a);
    PrintParse(codec, b);
  }

  // ----- every parsed route is canonical

  lemma LineKept(number: Option<nat>)
    ensures PositiveLine(NumberText(PositiveLine(NumberText(number)))) == PositiveLine(NumberText(number))
  {
    var line := PositiveLine(NumberText(number));
    if line.Some? { PositiveLineOfDecimal(line.value); }
  }

  lemma NumberKept(number: Option<nat>)
    ensures PositiveInteger(NumberText(PositiveInteger(NumberText(number)))) == PositiveInteger(NumberText(number))
  {
    var n := PositiveInteger(NumberText(number));
    if n.Some? { PositiveIntegerOfDecimal(n.value); }
  }

  lemma PageKept(page: Option<nat>)
    ensures var kept := PageOr1(PositiveInteger(NumberText(page)));
            PageOr1(PositiveInteger(NumberText(kept))) == kept
  {
    var kept := PageOr1(PositiveInteger(NumberText(page)));
    PositiveIntegerOfDecimal(kept.value);
  }

  lemma ViewKept(options: Route)
    ensures Scope(Scope(options.reviewScope)) == Scope(options.reviewScope)
    ensures Navigator(Navigator(options.reviewNavigator)) == Navigator(options.reviewNavigator)
    ensures Viewer(Viewer(options.reviewViewer)) == Viewer(options.reviewViewer)
  {
  }

  lemma TaskCwdKept(path: string)
    ensures TaskCwd(TaskCwd(path)) == TaskCwd(path)
  {
    CleanPathIdempotent(path);
  }

  lemma TaskBaseKept(options: Route)
    ensures TaskBase(TasksRoute(options)) == TaskBase(options)
  {
    TaskCwdKept(options.cwd);
  }

  lemma TasksRouteIdempotent(options: Route)
    ensures TasksRoute(TasksRoute(options)) == TasksRoute(options)
  {
    TaskBaseKept(options);
    ReviewKept(TaskBase(options), options);
  }

  lemma ReviewKept(base: Route, options: Route)
    ensures WithReview(base, WithReview(base, options)) == WithReview(base, options)
  {
    ReviewFilePathIdempotent(options.path);
    LineKept(options.line);
    ViewKept(options);
  }

  lemma ToolKept(surface: string, value: string)
    ensures Tool(surface, Tool(surface, value)) == Tool(surface, value)
  {
  }

  lemma SurfaceKept(value: string)
    ensures Surface(Surface(value)) == Surface(value)
  {
  }

  lemma SectionPathKept(surface: string, path: string)
    ensures SectionPath(surface, SectionPath(surface, path)) == SectionPath(surface, path)
  {
    ReviewFilePathIdempotent(path);
    SafeRelativePathIdempotent(path);
  }

  lemma SectionRouteKept(sectionId: string, surface: string, options: Route)
    ensures var made := SectionRouteFor(sectionId, surface, options);
            SectionRouteFor(sectionId, surface, made) == made
  {
    ToolKept(surface, options.sectionTool);
    SectionPathKept(surface, options.path);
    ViewKept(options);
    LineKept(options.line);
    NumberKept(options.number);
    PageKept(options.page);
  }

  lemma SectionDetailRouteIdempotent(options: Route)
    ensures var made := SectionDetailRoute(options);
            made.Some? ==> SectionDetailRoute(made.value) == made && Canonical(made.value)
  {
    TrimIdempotent(options.sectionId);
    SurfaceKept(options.sectionSurface);
    SectionRouteKept(Trim(options.sectionId), Surface(options.sectionSurface), options);
  }

  lemma SettingsCanonical(section: string)
    ensures Canonical(SettingsRoute(section))
  {
  }

  lemma NotesCanonical(noteId: string, secondaryNoteId: string)
    requires noteId == "" || Named(noteId)
    ensures Canonical(NotesRoute(noteId, secondaryNoteId))
  {
  }

  lemma TasksCanonical(options: Route)
    requires options.threadId != "" ==> Named(options.threadId) && !options.isNew
    requires options.threadId == "new" ==> options.review || options.recovery || options.terminal
    ensures Canonical(TasksRoute(options))
  {
    TasksRouteIdempotent(options);
  }

  lemma CompareCanonical(threadId: string, options: Route)
    requires Named(threadId)
    ensures Canonical(GitCompareRoute(threadId, options))
  {
    SafeRelativePathIdempotent(options.path);
  }

  lemma LogCanonical(threadId: string, options: Route)
    requires Named(threadId) && PositiveOrNone(options.page)
    ensures Canonical(GitLogRoute(threadId, options))
  {
    SafeRelativePathIdempotent(options.path);
  }

  lemma IssuesCanonical(threadId: string, options: Route)
    requires Named(threadId) && PositiveOrNone(options.page) && PositiveOrNone(options.number)
    ensures Canonical(GithubIssuesRoute(threadId, options))
  {
  }

  lemma PullsKept(threadId: string, options: Route)
    ensures var r := GithubPullsRoute(threadId, options);
            && GithubPullsRoute(r.threadId, r) == r
            && (options.path == "" ==> r.path == "")
  {
    SafeRelativePathIdempotent(options.path);
    assert NamedOnly([""]) == [];
  }

  lemma PullsCanonical(threadId: string, options: Route)
    requires Named(threadId) && PositiveOrNone(options.page) && PositiveOrNone(options.number)
    requires (options.files ==> options.number.Some?) && (!options.files ==> options.path == "")
    ensures Canonical(GithubPullsRoute(threadId, options))
  {
    PullsKept(threadId, options);
  }

  lemma MatchedParam(codec: Codec, tokens: seq<Token>, raw: seq<string>, start: Route, fields: Route, i: nat)
    requires forall s :: s in raw ==> Named(codec.decode(s))
    requires MatchTokens(tokens, Decoded(codec, raw), start) == Some(fields) && PathParams(tokens)
    requires i < |tokens| && tokens[i].Param?
    ensures tokens[i].field.ThreadId? ==> Named(fields.threadId)
    ensures tokens[i].field.NoteId? ==> Named(fields.noteId)
    ensures tokens[i].field.Number? ==> fields.number.Some? && fields.number.value > 0
  {
    MatchMeaning(tokens, Decoded(codec, raw), start);
    assert raw[i] in raw;
    ParamValue(tokens[i].field, codec.decode(raw[i]), fields);
  }

  lemma ParamValue(field: Field, segment: string, fields: Route)
    requires Named(segment) && Get(fields, field) == ReadParam(field, segment) && !ReadParam(field, segment).Absent?
    ensures field.ThreadId? ==> Named(fields.threadId)
    ensures field.NoteId? ==> Named(fields.noteId)
    ensures field.Number? ==> fields.number.Some? && fields.number.value > 0
  {
  }

  /** What the parameters of a matched path are. */
  lemma MatchedParams(codec: Codec, id: Id, address: Address, fields: Route)
    requires Resolved(codec, address)
    requires MatchTokens(Tokens(id), Decoded(codec, RawPathSegments(address.pathname)), EMPTY) == Some(fields)
    ensures HasParam(id, ThreadId) ==> Named(fields.threadId)
    ensures HasParam(id, NoteId) ==> Named(fields.noteId)
    ensures HasParam(id, Number) ==> fields.number.Some? && fields.number.value > 0
  {
    TokensDistinct(id);
    forall i | 0 <= i < |Tokens(id)| && Tokens(id)[i].Param?
      ensures Tokens(id)[i] == Param(ThreadId) ==> Named(fields.threadId)
      ensures Tokens(id)[i] == Param(NoteId) ==> Named(fields.noteId)
      ensures Tokens(id)[i] == Param(Number) ==> fields.number.Some? && fields.number.value > 0
    {
      MatchedParam(codec, Tokens(id), RawPathSegments(address.pathname), EMPTY, fields, i);
    }
  }

  lemma ThreadParam(id: Id)
    requires id.TasksReview? || id.TasksTerminal? || id.TasksRecovery? || id.TasksDetail? || Generic(id)
    ensures HasParam(id, ThreadId)
  {
    assert Tokens(id)[1] == Param(ThreadId);
  }

  /** A query's page is positive, and a query has no number of its own except a section's. */
  lemma QueryNumbers(id: Id, search: seq<(string, string)>)
    requires Generic(id)
    ensures var v := ParseQuery(Query(id), search, EMPTY);
            && PositiveOrNone(v.page) && v.number.None? && !v.files
            && (id.IssuesList? || id.IssuesDetail? || id.PullsList? || id.PullsDetail? ==> v.path == "")
  {
    OwnedFields(id);
    NoFilesQuery(id);
    NumberNotRead(Query(id), search);
    FilesNotRead(Query(id), search);
    if id.IssuesList? || id.IssuesDetail? || id.PullsList? || id.PullsDetail? {
      PathNotRead(Query(id), search);
    }
    QueryPage(id, search);
  }

  lemma NumberNotRead(query: seq<QueryField>, search: seq<(string, string)>)
    requires forall i :: 0 <= i < |query| ==> query[i].field != Number
    ensures ParseQuery(query, search, EMPTY).number.None?
  {
    ParseOther(query, search, EMPTY, Number);
    assert Get(ParseQuery(query, search, EMPTY), Number) == Absent;
  }

  lemma FilesNotRead(query: seq<QueryField>, search: seq<(string, string)>)
    requires forall i :: 0 <= i < |query| ==> query[i].field != Files
    ensures !ParseQuery(query, search, EMPTY).files
  {
    ParseOther(query, search, EMPTY, Files);
    assert Get(ParseQuery(query, search, EMPTY), Files) == Flag(false);
  }

  lemma PathNotRead(query: seq<QueryField>, search: seq<(string, string)>)
    requires forall i :: 0 <= i < |query| ==> query[i].field != Path
    ensures ParseQuery(query, search, EMPTY).path == ""
  {
    ParseOther(query, search, EMPTY, Path);
    assert Get(ParseQuery(query, search, EMPTY), Path) == Text("");
  }

  lemma QueryPage(id: Id, search: seq<(string, string)>)
    requires Generic(id)
    ensures PositiveOrNone(ParseQuery(Query(id), search, EMPTY).page)
  {
    var v := ParseQuery(Query(id), search, EMPTY);
    QueriesDistinct(id);
    if id.GitCompare? {
      ParseOther(Query(id), search, EMPTY, Page);
      assert Get(v, Page) == Absent;
    } else {
      assert Query(id)[0] == QueryField("page", Page, PositiveIntegerText, Num(1));
      ParseField(Query(id), search, EMPTY, 0);
      assert Get(v, Page) == ReadField(Query(id)[0], GetParam(search, "page"));
    }
  }

  lemma NoQueryThread(id: Id, search: seq<(string, string)>)
    requires id.TasksHome? || id.LegacyTasksList? || id.TasksNew? || id.TasksReview? || id.TasksDetail?
    ensures var v := ParseQuery(Query(id), search, EMPTY);
            v.threadId == "" && SameRest(v, EMPTY)
  {
    ParseOther(Query(id), search, EMPTY, ThreadId);
    ParseKeepsRest(Query(id), search, EMPTY);
    assert Get(ParseQuery(Query(id), search, EMPTY), ThreadId) == Text("");
  }

  lemma TriedCanonical(codec: Codec, id: Id, address: Address, r: Route)
    requires Resolved(codec, address) && Try(codec, id, address) == Some(r)
    requires id.TasksDetail? ==> Try(codec, TasksNew, address).None?
    ensures Canonical(r)
  {
    var segments := Decoded(codec, RawPathSegments(address.pathname));
    var fields := MatchTokens(Tokens(id), segments, EMPTY).value;
    var v := ParseQuery(Query(id), address.search, EMPTY);
    MatchedParams(codec, id, address, fields);
    if Generic(id) {
      GenericTried(id, fields, address.search, r);
    } else if KindOf(id).Tasks? {
      if !id.SectionDetail? && !id.TasksHome? && !id.LegacyTasksList? && !id.TasksNew? { ThreadParam(id); }
      if id.TasksDetail? { DetailNotNew(segments, fields); }
      TasksTried(id, fields, address.search, r);
    } else {
      match id
      case NotesHome => NotesCanonical("", "");
      case NotesNote =>
        assert Tokens(id)[1] == Param(NoteId);
        NotesCanonical(fields.noteId, v.secondaryNoteId);
      case SettingsHome => SettingsCanonical("");
      case SettingsSection(name) => SettingsCanonical(NameText(name));
    }
  }

  lemma TasksTried(id: Id, fields: Route, search: seq<(string, string)>, r: Route)
    requires KindOf(id).Tasks?
    requires !id.SectionDetail? && !id.TasksHome? && !id.LegacyTasksList? && !id.TasksNew? ==> Named(fields.threadId)
    requires id.TasksDetail? ==> fields.threadId != "new"
    requires ToRoute(id, fields, ParseQuery(Query(id), search, EMPTY)) == Some(r)
    ensures Canonical(r)
  {
    var v := ParseQuery(Query(id), search, EMPTY);
    if id.SectionDetail? {
      SectionDetailRouteIdempotent(v);
    } else {
      var options :=
        match id
        case TasksNew => v.(isNew := true)
        case TasksReview => v.(threadId := fields.threadId, review := true)
        case TasksTerminal => EMPTY.(threadId := fields.threadId, terminal := true)
        case TasksRecovery => EMPTY.(threadId := fields.threadId, recovery := true)
        case TasksDetail => v.(threadId := fields.threadId)
        case _ => v;
      if !id.TasksTerminal? && !id.TasksRecovery? { NoQueryThread(id, search); }
      assert r == TasksRoute(options);
      TasksCanonical(options);
    }
  }

  lemma GenericTried(id: Id, fields: Route, search: seq<(string, string)>, r: Route)
    requires Generic(id)
    requires HasParam(id, ThreadId) ==> Named(fields.threadId)
    requires HasParam(id, Number) ==> fields.number.Some? && fields.number.value > 0
    requires ToRoute(id, fields, ParseQuery(Query(id), search, EMPTY)) == Some(r)
    ensures Canonical(r)
  {
    var v := ParseQuery(Query(id), search, EMPTY);
    OwnedFields(id);
    QueryNumbers(id, search);
    match id
    case GitCompare => CompareTried(fields, v, r);
    case GitLog => LogTried(fields, v, r);
    case IssuesList => IssuesListTried(fields, v, r);
    case IssuesDetail => IssuesDetailTried(fields, v, r);
    case PullsList => PullsListTried(fields, v, r);
    case PullsDetail => PullsDetailTried(fields, v, r);
    case PullsFiles => PullsFilesTried(fields, v, r);
  }

  lemma CompareTried(fields: Route, v: Route, r: Route)
    requires Named(fields.threadId) && ToRoute(GitCompare, fields, v) == Some(r)
    ensures Canonical(r)
  {
    CompareCanonical(fields.threadId, v);
  }

  lemma LogTried(fields: Route, v: Route, r: Route)
    requires Named(fields.threadId) && PositiveOrNone(v.page) && ToRoute(GitLog, fields, v) == Some(r)
    ensures Canonical(r)
  {
    LogCanonical(fields.threadId, v);
  }

  lemma IssuesListTried(fields: Route, v: Route, r: Route)
    requires Named(fields.threadId) && PositiveOrNone(v.page) && v.number.None?
    requires ToRoute(IssuesList, fields, v) == Some(r)
    ensures Canonical(r)
  {
    IssuesCanonical(fields.threadId, v);
  }

  lemma IssuesDetailTried(fields: Route, v: Route, r: Route)
    requires Named(fields.threadId) && PositiveOrNone(v.page) && PositiveOrNone(fields.number)
    requires ToRoute(IssuesDetail, fields, v) == Some(r)
    ensures Canonical(r)
  {
    IssuesCanonical(fields.threadId, v.(number := fields.number));
  }

  lemma PullsListTried(fields: Route, v: Route, r: Route)
    requires Named(fields.threadId) && PositiveOrNone(v.page) && v.number.None? && !v.files && v.path == ""
    requires ToRoute(PullsList, fields, v) == Some(r)
    ensures Canonical(r)
  {
    PullsCanonical(fields.threadId, v);
  }

  lemma PullsDetailTried(fields: Route, v: Route, r: Route)
    requires Named(fields.threadId) && PositiveOrNone(v.page) && PositiveOrNone(fields.number) && !v.files && v.path == ""
    requires ToRoute(PullsDetail, fields, v) == Some(r)
    ensures Canonical(r)
  {
    PullsCanonical(fields.threadId, v.(number := fields.number));
  }

  lemma PullsFilesTried(fields: Route, v: Route, r: Route)
    requires Named(fields.threadId) && PositiveOrNone(v.page) && PositiveOrNone(fields.number) && fields.number.Some?
    requires ToRoute(PullsFiles, fields, v) == Some(r)
    ensures Canonical(r)
  {
    PullsCanonical(fields.threadId, v.(number := fields.number, files := true));
  }

  /** The Task list's "new" page is tried first, so no Task page is for a Task called "new". */
  lemma DetailNotNew(segments: seq<string>, fields: Route)
    requires MatchTokens(Tokens(TasksDetail), segments, EMPTY) == Some(fields)
    requires MatchTokens(Tokens(TasksNew), segments, EMPTY).None?
    ensures fields.threadId != "new"
  {
    var tokens := Tokens(TasksDetail);
    TokensDistinct(TasksDetail);
    MatchMeaning(tokens, segments, EMPTY);
    assert tokens[0] == Literal("tasks") && tokens[1] == Param(ThreadId);
    assert segments == ["tasks", segments[1]];
    if segments[1] == "new" { NewMatches(); }
  }

  lemma NewMatches()
    ensures MatchTokens(Tokens(TasksNew), ["tasks", "new"], EMPTY).Some?
  {
    assert ["tasks", "new"][1..] == ["new"] && Tokens(TasksNew)[1..] == [Literal("new")];
    assert MatchTokens([Literal("new")], ["new"], EMPTY) == Some(EMPTY);
  }

  lemma DetailAfterNew(k: nat)
    requires k < |ROUTE_DEFINITIONS| && ROUTE_DEFINITIONS[k].TasksDetail?
    ensures 18 < k && ROUTE_DEFINITIONS[18] == TasksNew
  {
  }

  lemma ParsedCanonical(codec: Codec, address: Address)
    requires Resolved(codec, address)
    ensures var r := ParseRoute(codec, address); r.Some? ==> Canonical(r.value)
  {
    var r := ParseRoute(codec, address);
    if r.Some? {
      var k := ParseFromSource(codec, ROUTE_DEFINITIONS, address);
      if ROUTE_DEFINITIONS[k].TasksDetail? { DetailAfterNew(k); }
      TriedCanonical(codec, ROUTE_DEFINITIONS[k], address, r.value);
    }
  }

  /** Parsing, printing and parsing again changes nothing after the first parse. */
  lemma ParsePrintParse(codec: Codec, address: Address)
    requires GoodCodec(codec) && Resolved(codec, address)
    ensures var r := ParseRoute(codec, address);
            r.Some? ==> ParseRoute(codec, RouteUrl(codec, r.value)) == r
  {
    var r := ParseRoute(codec, address);
    if r.Some? {
      ParsedCanonical(codec, address);
      PrintParse(codec, r.value);
    }
  }

  /** The canonical routes are exactly the ones addresses name. */
  lemma CanonicalIffParsed(codec: Codec, r: Route)
    requires GoodCodec(codec)
    ensures Canonical(r) <==> exists address :: Resolved(codec, address) && ParseRoute(codec, address) == Some(r)
  {
    if Canonical(r) {
      PrintParse(codec, r);
    }
    forall address | Resolved(codec, address) && ParseRoute(codec, address) == Some(r) ensures Canonical(r) {
      ParsedCanonical(codec, address);
    }
  }
}
