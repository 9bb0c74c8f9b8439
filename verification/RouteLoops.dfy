/** The loops of the route table, each tied to the function that says what it computes. */
module RouteLoops {
  import opened Wrappers
  import opened PathText
  import opened RouteTable

  method ParseAddress(codec: Codec, address: Address) returns (r: Option<Route>)
    ensures r == ParseRoute(codec, address)
  {
    var i := 0;
    while i < |ROUTE_DEFINITIONS|
      invariant 0 <= i <= |ROUTE_DEFINITIONS|
      invariant ParseRoute(codec, address) == ParseFrom(codec, ROUTE_DEFINITIONS[i..], address)
    {
      var id := ROUTE_DEFINITIONS[i];
      ParseFromNext(codec, i, address);
      var fields := MatchPath(codec, id, address.pathname);
      if fields.Some? {
        var query := ReadQuery(Query(id), address.search);
        r := ToRoute(id, fields.value, query);
        if r.Some? {
          return;
        }
      }
      i := i + 1;
    }
    return None;
  }

  lemma ParseFromNext(codec: Codec, i: nat, address: Address)
    requires i < |ROUTE_DEFINITIONS|
    ensures ParseFrom(codec, ROUTE_DEFINITIONS[i..], address)
            == var route := Try(codec, ROUTE_DEFINITIONS[i], address);
               if route.Some? then route else ParseFrom(codec, ROUTE_DEFINITIONS[i + 1..], address)
  {
    var ids := ROUTE_DEFINITIONS[i..];
    assert ids[0] == ROUTE_DEFINITIONS[i] && ids[1..] == ROUTE_DEFINITIONS[i + 1..];
  }

  method MatchPath(codec: Codec, id: Id, pathname: string) returns (fields: Option<Route>)
    ensures fields == MatchTokens(Tokens(id), Decoded(codec, RawPathSegments(pathname)), EMPTY)
  {
    fields := MatchSegments(Tokens(id), Decoded(codec, RawPathSegments(pathname)), EMPTY);
  }

  method MatchSegments(tokens: seq<Token>, segments: seq<string>, start: Route) returns (fields: Option<Route>)
    ensures fields == MatchTokens(tokens, segments, start)
  {
    var matched := start;
    var segmentIndex := 0;
    while segmentIndex < |tokens|
      invariant 0 <= segmentIndex <= |tokens| && segmentIndex <= |segments|
      invariant MatchTokens(tokens, segments, start)
                == MatchTokens(tokens[segmentIndex..], segments[segmentIndex..], matched)
    {
      var token := tokens[segmentIndex];
      assert tokens[segmentIndex..][0] == token && tokens[segmentIndex..][1..] == tokens[segmentIndex + 1..];
      if segmentIndex == |segments| {
        return None;
      }
      assert segments[segmentIndex..][0] == segments[segmentIndex];
      assert segments[segmentIndex..][1..] == segments[segmentIndex + 1..];
      match token {
        case Literal(text) =>
          if segments[segmentIndex] != text {
            return None;
          }
        case Param(field) =>
          var value := ReadParam(field, segments[segmentIndex]);
          if value.Absent? {
            return None;
          }
          matched := With(matched, field, value);
      }
      segmentIndex := segmentIndex + 1;
    }
    return if segmentIndex == |segments| then Some(matched) else None;
  }

  method ReadQuery(query: seq<QueryField>, search: seq<(string, string)>) returns (values: Route)
    ensures values == ParseQuery(query, search, EMPTY)
  {
    values := ReadFields(query, search, EMPTY);
  }

  method ReadFields(query: seq<QueryField>, search: seq<(string, string)>, start: Route) returns (values: Route)
    ensures values == ParseQuery(query, search, start)
  {
    values := start;
    var i := 0;
    while i < |query|
      invariant 0 <= i <= |query|
      invariant ParseQuery(query, search, start) == ParseQuery(query[i..], search, values)
    {
      assert query[i..][0] == query[i] && query[i..][1..] == query[i + 1..];
      values := With(values, query[i].field, ReadField(query[i], GetParam(search, query[i].name)));
      i := i + 1;
    }
  }

  method PutQuery(query: seq<QueryField>, r: Route) returns (search: seq<(string, string)>)
    ensures search == WriteQuery(query, r, [])
  {
    search := [];
    var i := 0;
    while i < |query|
      invariant 0 <= i <= |query|
      invariant WriteQuery(query, r, []) == WriteQuery(query[i..], r, search)
    {
      assert query[i..][0] == query[i] && query[i..][1..] == query[i + 1..];
      var text := FieldText(query[i], r);
      if text.Some? {
        search := SetParam(search, query[i].name, text.value);
      }
      i := i + 1;
    }
  }

  method BuildPath(codec: Codec, tokens: seq<Token>, r: Route) returns (path: string)
    ensures path == "/" + Join(Parts(codec, tokens, r))
  {
    var parts: seq<string> := [];
    var i := 0;
    while i < |tokens|
      invariant 0 <= i <= |tokens|
      invariant Parts(codec, tokens, r) == parts + Parts(codec, tokens[i..], r)
    {
      assert tokens[i..][0] == tokens[i] && tokens[i..][1..] == tokens[i + 1..];
      match tokens[i] {
        case Literal(text) =>
          parts := parts + [text];
        case Param(field) =>
          parts := parts + [codec.encode(Printed(Get(r, field)))];
      }
      i := i + 1;
    }
    assert parts + [] == parts;
    return "/" + Join(parts);
  }
}
