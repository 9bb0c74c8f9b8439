/** Addresses and routes are two forms of the same thing: printing and parsing undo each other. */
module RouteRoundTrip {
  import opened Wrappers
  import opened PathText
  import opened RouteTable

  // ----- the table's order

  function Position(name: SettingsName): nat {
    match name
    case Appearance => 0
    case Keyboard => 1
    case FilesSettings => 2
    case Notifications => 3
    case RemoteAccess => 4
    case Voice => 5
    case Jev => 6
    case Codex => 7
    case Claude => 8
    case Grok => 9
    case Antigravity => 10
    case About => 11
  }

  function Index(id: Id): nat {
    match id
    case NotesHome => 0
    case NotesNote => 1
    case SettingsHome => 2
    case SettingsSection(name) => 3 + Position(name)
    case SectionDetail => 15
    case TasksHome => 16
    case LegacyTasksList => 17
    case TasksNew => 18
    case TasksReview => 19
    case GitCompare => 20
    case GitLog => 21
    case IssuesList => 22
    case IssuesDetail => 23
    case PullsList => 24
    case PullsDetail => 25
    case PullsFiles => 26
    case TasksTerminal => 27
    case TasksRecovery => 28
    case TasksDetail => 29
  }

  /** Every definition is in the table exactly once, at its index. */
  lemma TableAt(id: Id)
    ensures Index(id) < |ROUTE_DEFINITIONS| && ROUTE_DEFINITIONS[Index(id)] == id
  {
  }

  lemma TableOrder(j: nat)
    requires j < |ROUTE_DEFINITIONS|
    ensures Index(ROUTE_DEFINITIONS[j]) == j
  {
  }

  lemma {:induction false} FirstMatchingAt(ids: seq<Id>, r: Route, k: nat)
    requires k < |ids| && MatchesRoute(ids[k], r)
    requires forall j :: 0 <= j < k ==> !MatchesRoute(ids[j], r)
    ensures FirstMatching(ids, r) == Some(ids[k])
  {
    if k > 0 { FirstMatchingAt(ids[1..], r, k - 1); }
  }

  lemma {:induction false} ParseFromAt(codec: Codec, ids: seq<Id>, address: Address, k: nat)
    requires k < |ids| && Try(codec, ids[k], address).Some?
    requires forall j :: 0 <= j < k ==> Try(codec, ids[j], address).None?
    ensures ParseFrom(codec, ids, address) == Try(codec, ids[k], address)
  {
    if k > 0 { ParseFromAt(codec, ids[1..], address, k - 1); }
  }

  lemma {:induction false} ParseFromSource(codec: Codec, ids: seq<Id>, address: Address) returns (k: nat)
    requires ParseFrom(codec, ids, address).Some?
    ensures k < |ids| && Try(codec, ids[k], address) == ParseFrom(codec, ids, address)
    ensures forall j :: 0 <= j < k ==> Try(codec, ids[j], address).None?
  {
    if Try(codec, ids[0], address).Some? {
      k := 0;
    } else {
      k := ParseFromSource(codec, ids[1..], address);
      k := k + 1;
    }
  }

  // ----- parameters

  lemma {:induction false} GetAfterSet(search: seq<(string, string)>, name: string, text: string, other: string)
    ensures GetParam(SetParam(search, name, text), other) == if other == name then Some(text) else GetParam(search, other)
  {
    if search != [] && search[0].0 != name {
      GetAfterSet(search[1..], name, text, other);
    }
  }

  lemma GetAfterWith(r: Route, field: Field, value: Value, other: Field)
    ensures other != field ==> Get(With(r, field, value), other) == Get(r, other)
    ensures Fits(field, value) ==> Get(With(r, field, value), field) == value
  {
  }

  /** A value of the type the field holds. */
  predicate Fits(field: Field, value: Value) {
    match field
    case Line => value.Num? || value.Absent?
    case Page => value.Num? || value.Absent?
    case Number => value.Num? || value.Absent?
    case Files => value.Flag?
    case _ => value.Text?
  }

  ghost predicate DistinctQuery(query: seq<QueryField>) {
    && (forall i, j :: 0 <= i < j < |query| ==> query[i].name != query[j].name)
    && (forall i, j :: 0 <= i < j < |query| ==> query[i].field != query[j].field)
  }

  /** Length, first letter and third letter tell the section's parameter names apart. */
  function NameMark(name: string): int {
    if |name| < 3 then 0 else 1000000 * |name| + (name[0] as int) * 1000 + name[2] as int
  }

  lemma SectionNameMarks()
    ensures |SECTION_DETAIL_QUERY| == 14
    ensures var marks := seq(14, i requires 0 <= i < 14 => NameMark(SECTION_DETAIL_QUERY[i].name));
            marks == [7115099, 7115114, 4116111, 5115111, 3110118, 4118101, 4102108, 4108110,
                      4098115, 4104097, 4112103, 3115097, 6110109, 5102108]
  {
  }

  lemma SectionNamesDistinct(i: nat, j: nat)
    requires i < j < |SECTION_DETAIL_QUERY|
    ensures SECTION_DETAIL_QUERY[i].name != SECTION_DETAIL_QUERY[j].name
  {
    SectionNameMarks();
    var marks := seq(14, k requires 0 <= k < 14 => NameMark(SECTION_DETAIL_QUERY[k].name));
    assert marks[i] == NameMark(SECTION_DETAIL_QUERY[i].name) && marks[j] == NameMark(SECTION_DETAIL_QUERY[j].name);
  }

  lemma SectionQueryDistinct()
    ensures DistinctQuery(SECTION_DETAIL_QUERY)
  {
    forall i, j | 0 <= i < j < |SECTION_DETAIL_QUERY|
      ensures SECTION_DETAIL_QUERY[i].name != SECTION_DETAIL_QUERY[j].name
    {
      SectionNamesDistinct(i, j);
    }
    SectionFieldsDistinct();
  }

  lemma SectionFieldsDistinct()
    ensures forall i, j :: 0 <= i < j < |SECTION_DETAIL_QUERY| ==>
              SECTION_DETAIL_QUERY[i].field != SECTION_DETAIL_QUERY[j].field
  {
  }

  lemma ReviewNamesDistinct()
    ensures forall i, j :: 0 <= i < j < |TASK_REVIEW_QUERY| ==> TASK_REVIEW_QUERY[i].name != TASK_REVIEW_QUERY[j].name
  {
  }

  lemma ReviewFieldsDistinct()
    ensures forall i, j :: 0 <= i < j < |TASK_REVIEW_QUERY| ==> TASK_REVIEW_QUERY[i].field != TASK_REVIEW_QUERY[j].field
  {
  }

  lemma ReviewQueryDistinct()
    ensures DistinctQuery(TASK_REVIEW_QUERY)
  {
    ReviewNamesDistinct();
    ReviewFieldsDistinct();
  }

  lemma QueriesDistinct(id: Id)
    ensures DistinctQuery(Query(id))
  {
    match id
    case SectionDetail => SectionQueryDistinct();
    case TasksReview => ReviewQueryDistinct();
    case GitCompare =>
    case GitLog =>
    case PullsFiles =>
    case _ =>
      assert |Query(id)| <= 1;
  }

  lemma {:induction false} WriteOther(query: seq<QueryField>, r: Route, search: seq<(string, string)>, name: string)
    requires forall i :: 0 <= i < |query| ==> query[i].name != name
    ensures GetParam(WriteQuery(query, r, search), name) == GetParam(search, name)
  {
    if query != [] {
      var text := FieldText(query[0], r);
      var next := if text.Some? then SetParam(search, query[0].name, text.value) else search;
      if text.Some? { GetAfterSet(search, query[0].name, text.value, name); }
      WriteOther(query[1..], r, next, name);
    }
  }

  /** Each parameter of a written query holds that field's text, or is left out at its default. */
  lemma {:induction false} WriteField(query: seq<QueryField>, r: Route, search: seq<(string, string)>, i: nat)
    requires DistinctQuery(query) && i < |query| && GetParam(search, query[i].name).None?
    ensures GetParam(WriteQuery(query, r, search), query[i].name) == FieldText(query[i], r)
  {
    var text := FieldText(query[0], r);
    var next := if text.Some? then SetParam(search, query[0].name, text.value) else search;
    if text.Some? { GetAfterSet(search, query[0].name, text.value, query[i].name); }
    if i == 0 {
      WriteOther(query[1..], r, next, query[0].name);
    } else {
      WriteField(query[1..], r, next, i - 1);
    }
  }

  lemma {:induction false} ParseOther(query: seq<QueryField>, search: seq<(string, string)>, values: Route, field: Field)
    requires forall i :: 0 <= i < |query| ==> query[i].field != field
    ensures Get(ParseQuery(query, search, values), field) == Get(values, field)
  {
    if query != [] {
      var value := ReadField(query[0], GetParam(search, query[0].name));
      GetAfterWith(values, query[0].field, value, field);
      ParseOther(query[1..], search, With(values, query[0].field, value), field);
    }
  }

  lemma {:induction false} ParseField(query: seq<QueryField>, search: seq<(string, string)>, values: Route, i: nat)
    requires DistinctQuery(query) && i < |query|
    requires Fits(query[i].field, ReadField(query[i], GetParam(search, query[i].name)))
    ensures Get(ParseQuery(query, search, values), query[i].field) == ReadField(query[i], GetParam(search, query[i].name))
  {
    var value := ReadField(query[0], GetParam(search, query[0].name));
    var next := With(values, query[0].field, value);
    if i == 0 {
      GetAfterWith(values, query[0].field, value, query[0].field);
      ParseOther(query[1..], search, next, query[0].field);
    } else {
      ParseField(query[1..], search, next, i - 1);
    }
  }

  /** The parts of a route no parameter fills. */
  ghost predicate SameRest(a: Route, b: Route) {
    && a.kind == b.kind && a.isNew == b.isNew && a.section == b.section
    && a.review == b.review && a.recovery == b.recovery && a.terminal == b.terminal
  }

  lemma {:induction false} ParseKeepsRest(query: seq<QueryField>, search: seq<(string, string)>, values: Route)
    ensures SameRest(ParseQuery(query, search, values), values)
  {
    if query != [] {
      var value := ReadField(query[0], GetParam(search, query[0].name));
      WithKeepsRest(values, query[0].field, value);
      ParseKeepsRest(query[1..], search, With(values, query[0].field, value));
    }
  }

  lemma WithKeepsRest(r: Route, field: Field, value: Value)
    ensures SameRest(With(r, field, value), r)
  {
    match field
    case Line => NumbersKeepRest(r, field, value);
    case Page => NumbersKeepRest(r, field, value);
    case Number => NumbersKeepRest(r, field, value);
    case Files => NumbersKeepRest(r, field, value);
    case ReviewScope => ReviewsKeepRest(r, field, value);
    case ReviewNavigator => ReviewsKeepRest(r, field, value);
    case ReviewViewer => ReviewsKeepRest(r, field, value);
    case Path => ReviewsKeepRest(r, field, value);
    case BaseRef => ReviewsKeepRest(r, field, value);
    case HeadRef => ReviewsKeepRest(r, field, value);
    case Sha => ReviewsKeepRest(r, field, value);
    case _ => NamesKeepRest(r, field, value);
  }

  lemma NumbersKeepRest(r: Route, field: Field, value: Value)
    requires field.Line? || field.Page? || field.Number? || field.Files?
    ensures SameRest(With(r, field, value), r)
  {
  }

  lemma ReviewsKeepRest(r: Route, field: Field, value: Value)
    requires field.ReviewScope? || field.ReviewNavigator? || field.ReviewViewer? || field.Path?
             || field.BaseRef? || field.HeadRef? || field.Sha?
    ensures SameRest(With(r, field, value), r)
  {
  }

  lemma NamesKeepRest(r: Route, field: Field, value: Value)
    requires field.ThreadId? || field.Cwd? || field.SectionId? || field.SectionSurface? || field.SectionTool?
             || field.NoteId? || field.SecondaryNoteId?
    ensures SameRest(With(r, field, value), r)
  {
  }

  /** A field value the query can carry: what reading its text back gives. */
  ghost predicate Carried(query: QueryField, r: Route) {
    var value := Get(r, query.field);
    match query.kind
    case AnyText => value.Text? && query.default.Text? && (value.text == "" ==> query.default.text == "")
    case PositiveIntegerText =>
      && (value.Num? ==> value.number > 0)
      && (query.default == Num(1) || query.default.Absent?)
      && (value.Num? || (value.Absent? && query.default.Absent?))
    case PositiveLineText =>
      query.default.Absent? && (value.Absent? || (value.Num? && 0 < value.number <= MAX_SAFE_INTEGER))
    case BooleanText => value.Flag? && query.default == Flag(false)
  }

  lemma FieldRoundTrip(query: QueryField, r: Route)
    requires Carried(query, r)
    ensures ReadField(query, FieldText(query, r)) == Get(r, query.field)
  {
    var value := Get(r, query.field);
    if value.Num? {
      PositiveIntegerOfDecimal(value.number);
      PositiveLineOfDecimal(value.number);
      PositiveIntegerOfDecimal(1);
      assert Digit(Decimal(value.number)[0]);
    }
    assert PositiveInteger("").None? && PositiveLine("").None?;
  }

  /** Reading back a written query gives every field the route had. */
  lemma QueryRoundTrip(id: Id, r: Route, i: nat)
    requires i < |Query(id)| && Carried(Query(id)[i], r)
    ensures var query := Query(id);
            Get(ParseQuery(query, WriteQuery(query, r, []), EMPTY), query[i].field) == Get(r, query[i].field)
  {
    QueriesDistinct(id);
    WrittenThenRead(Query(id), r, i);
  }

  lemma WrittenThenRead(query: seq<QueryField>, r: Route, i: nat)
    requires DistinctQuery(query) && i < |query| && Carried(query[i], r)
    ensures Get(ParseQuery(query, WriteQuery(query, r, []), EMPTY), query[i].field) == Get(r, query[i].field)
  {
    WriteField(query, r, [], i);
    FieldRoundTrip(query[i], r);
    ParseField(query, WriteQuery(query, r, []), EMPTY, i);
  }

  // ----- paths

  /** The decoded segments of a definition's address for a route. */
  ghost function PlainParts(tokens: seq<Token>, r: Route): seq<string> {
    if tokens == [] then []
    else
      var part := match tokens[0]
                  case Literal(text) => text
                  case Param(field) => Printed(Get(r, field));
      [part] + PlainParts(tokens[1..], r)
  }

  ghost predicate LiteralsPlain(tokens: seq<Token>) {
    forall i :: 0 <= i < |tokens| && tokens[i].Literal? ==> Unreserved(tokens[i].text) && Named(tokens[i].text)
  }

  lemma NamesPlain(name: SettingsName)
    ensures Unreserved(NameText(name)) && Named(NameText(name))
  {
  }

  lemma WordsPlain(id: Id, i: nat)
    requires i < |Tokens(id)| && Tokens(id)[i].Literal? && !id.SettingsSection?
    ensures Unreserved(Tokens(id)[i].text) && Named(Tokens(id)[i].text)
  {
  }

  lemma TokensPlain(id: Id)
    ensures LiteralsPlain(Tokens(id))
  {
    forall i | 0 <= i < |Tokens(id)| && Tokens(id)[i].Literal?
      ensures Unreserved(Tokens(id)[i].text) && Named(Tokens(id)[i].text)
    {
      if id.SettingsSection? {
        NamesPlain(id.name);
      } else {
        WordsPlain(id, i);
      }
    }
  }

  /** Every parameter of the pattern has a value a path segment can carry. */
  ghost predicate ParamsNamed(tokens: seq<Token>, r: Route) {
    forall i :: 0 <= i < |tokens| && tokens[i].Param? ==>
      && Named(Printed(Get(r, tokens[i].field)))
      && ReadParam(tokens[i].field, Printed(Get(r, tokens[i].field))) == Get(r, tokens[i].field)
      && Fits(tokens[i].field, Get(r, tokens[i].field))
      && !Get(r, tokens[i].field).Absent?
  }

  lemma {:induction false} PartsDecode(codec: Codec, tokens: seq<Token>, r: Route)
    requires GoodCodec(codec) && LiteralsPlain(tokens) && ParamsNamed(tokens, r)
    ensures var parts := Parts(codec, tokens, r);
            && Decoded(codec, parts) == PlainParts(tokens, r)
            && (forall i :: 0 <= i < |parts| ==> Named(parts[i]) && '/' !in parts[i])
            && (forall i :: 0 <= i < |parts| ==> Named(PlainParts(tokens, r)[i]))
            && |parts| == |tokens|
  {
    if tokens != [] {
      PartsDecode(codec, tokens[1..], r);
      var plain := match tokens[0]
                   case Literal(text) => text
                   case Param(field) => Printed(Get(r, field));
      assert tokens[0].Literal? ==> codec.encode(plain) == plain;
      assert Parts(codec, tokens, r)[0] == codec.encode(plain);
      assert codec.decode(codec.encode(plain)) == plain;
    }
  }

  lemma {:induction false} NoDotsToResolve(stack: seq<string>, parts: seq<string>)
    requires forall i :: 0 <= i < |parts| ==> Named(parts[i])
    ensures ResolveDots(stack, parts) == stack + parts
    decreases |parts|
  {
    if parts == [] {
      assert stack + parts == stack;
    } else {
      NoDotsToResolve(stack + [parts[0]], parts[1..]);
      assert stack + [parts[0]] + parts[1..] == stack + parts;
    }
  }

  lemma PathRoundTrip(parts: seq<string>)
    requires forall i :: 0 <= i < |parts| ==> parts[i] != "" && '/' !in parts[i]
    ensures RawPathSegments("/" + Join(parts)) == parts
  {
    SplitFirst("", Join(parts));
    assert "" + "/" + Join(parts) == "/" + Join(parts);
    SplitOfJoined(parts);
    NonEmptyKeeps(parts);
    if parts == [] {
      assert NonEmpty([""]) == [];
      assert [""] + [""] == ["", ""];
      assert NonEmpty(["", ""]) == NonEmpty([""]);
    } else {
      assert ([""] + parts)[1..] == parts;
    }
  }

  ghost predicate PathParams(tokens: seq<Token>) {
    && (forall i, j :: 0 <= i < j < |tokens| && tokens[i].Param? ==> tokens[i] != tokens[j])
    && (forall i :: 0 <= i < |tokens| && tokens[i].Param? ==>
          tokens[i].field.ThreadId? || tokens[i].field.NoteId? || tokens[i].field.Number?)
  }

  lemma TokensDistinct(id: Id)
    ensures PathParams(Tokens(id))
  {
  }

  /** A pattern matches its own address and puts back every parameter. */
  lemma {:induction false} MatchOwnParts(tokens: seq<Token>, r: Route, fields: Route)
    requires ParamsNamed(tokens, r) && PathParams(tokens)
    ensures var m := MatchTokens(tokens, PlainParts(tokens, r), fields);
            && m.Some?
            && (forall i :: 0 <= i < |tokens| && tokens[i].Param? ==> Get(m.value, tokens[i].field) == Get(r, tokens[i].field))
  {
    if tokens != [] {
      var rest := tokens[1..];
      match tokens[0]
      case Literal(text) =>
        MatchOwnParts(rest, r, fields);
      case Param(field) =>
        var value := Get(r, field);
        var next := With(fields, field, value);
        MatchOwnParts(rest, r, next);
        GetAfterWith(fields, field, value, field);
        MatchOther(rest, PlainParts(rest, r), next, field);
    }
  }

  lemma {:induction false} MatchOther(tokens: seq<Token>, segments: seq<string>, fields: Route, field: Field)
    requires forall i :: 0 <= i < |tokens| ==> tokens[i] != Param(field)
    ensures var m := MatchTokens(tokens, segments, fields);
            m.Some? ==> Get(m.value, field) == Get(fields, field)
  {
    if tokens != [] && segments != [] {
      match tokens[0]
      case Literal(text) =>
        MatchOther(tokens[1..], segments[1..], fields, field);
      case Param(f) =>
        var value := ReadParam(f, segments[0]);
        GetAfterWith(fields, f, value, field);
        MatchOther(tokens[1..], segments[1..], With(fields, f, value), field);
    }
  }

  /** What a match says: the segment count, every literal, and every parameter's value. */
  lemma {:induction false} MatchMeaning(tokens: seq<Token>, segments: seq<string>, fields: Route)
    requires PathParams(tokens)
    ensures var m := MatchTokens(tokens, segments, fields);
            m.Some? ==>
              && |segments| == |tokens|
              && (forall i :: 0 <= i < |tokens| && tokens[i].Literal? ==> segments[i] == tokens[i].text)
              && (forall i :: 0 <= i < |tokens| && tokens[i].Param? ==>
                    && !ReadParam(tokens[i].field, segments[i]).Absent?
                    && Get(m.value, tokens[i].field) == ReadParam(tokens[i].field, segments[i]))
  {
    if tokens != [] && segments != [] {
      match tokens[0]
      case Literal(text) =>
        MatchMeaning(tokens[1..], segments[1..], fields);
      case Param(f) =>
        var value := ReadParam(f, segments[0]);
        var next := With(fields, f, value);
        GetAfterWith(fields, f, value, f);
        MatchOther(tokens[1..], segments[1..], next, f);
        MatchMeaning(tokens[1..], segments[1..], next);
    }
  }

  lemma {:induction false} MatchLiterals(tokens: seq<Token>, segments: seq<string>, fields: Route, i: nat)
    requires |segments| != |tokens|
             || (i < |tokens| && tokens[i].Literal? && segments[i] != tokens[i].text)
    ensures MatchTokens(tokens, segments, fields).None?
  {
    if tokens != [] && segments != [] {
      match tokens[0]
      case Literal(text) =>
        if segments[0] == text {
          MatchLiterals(tokens[1..], segments[1..], fields, if i == 0 then 0 else i - 1);
        }
      case Param(f) =>
        MatchLiterals(tokens[1..], segments[1..], With(fields, f, ReadParam(f, segments[0])), if i == 0 then 0 else i - 1);
    }
  }

  // ----- patterns told apart

  ghost predicate LiteralsDiffer(a: seq<Token>, b: seq<Token>, i: nat) {
    i < |a| && i < |b| && a[i].Literal? && b[i].Literal? && a[i] != b[i]
  }

  ghost predicate TokensApart(a: seq<Token>, b: seq<Token>) {
    |a| != |b| || LiteralsDiffer(a, b, 0) || LiteralsDiffer(a, b, 1) || LiteralsDiffer(a, b, 2) || LiteralsDiffer(a, b, 3)
  }

  /** Two patterns no address can match both. */
  ghost predicate Apart(a: Id, b: Id) {
    TokensApart(Tokens(a), Tokens(b))
  }

  /** Only two pairs of patterns overlap: the root page's two readings, and a Task called "new". */
  lemma EarlierApart(a: Id, b: Id)
    requires Index(a) < Index(b)
    ensures Apart(a, b) || (a == SectionDetail && b == TasksHome) || (a == TasksNew && b == TasksDetail)
  {
  }
}
