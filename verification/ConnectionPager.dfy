/** Reading the rest of a paged list, up to a cap. */
module ConnectionPager {
  import opened Wrappers

  const MAX_PULL_CONNECTION_ITEMS: nat := 1000

  datatype PageInfo = PageInfo(hasNextPage: bool, endCursor: Option<string>)

  datatype Connection<T> = Connection(nodes: seq<T>, pageInfo: PageInfo)

  /** What a page that starts at `from` says: a stretch of the list, and whether and where it goes on. */
  ghost predicate PageOf<T>(list: seq<T>, from: nat, page: Connection<T>, position: string -> nat) {
    && from + |page.nodes| <= |list|
    && page.nodes == list[from..from + |page.nodes|]
    && (page.pageInfo.hasNextPage <==> from + |page.nodes| < |list|)
    && (page.pageInfo.endCursor.Some? ==> position(page.pageInfo.endCursor.value) == from + |page.nodes|)
  }

  /** A server that may fail but otherwise pages one list, each page with more to come moving forward. */
  ghost predicate Pages<T>(list: seq<T>, fetch: string -> Option<Connection<T>>, position: string -> nat) {
    forall cursor :: fetch(cursor).Some? ==>
      && PageOf(list, position(cursor), fetch(cursor).value, position)
      && (fetch(cursor).value.pageInfo.hasNextPage ==> fetch(cursor).value.nodes != [])
  }

  /** A server that never fails and names every place it goes on from. */
  ghost predicate Answers<T>(fetch: string -> Option<Connection<T>>) {
    forall cursor :: fetch(cursor).Some? && Continues(fetch(cursor).value.pageInfo)
  }

  predicate Continues(pageInfo: PageInfo) {
    pageInfo.hasNextPage ==> pageInfo.endCursor.Some?
  }

  function Least(a: nat, b: nat): nat {
    if a < b then a else b
  }

  /**
   * With the first page in hand, the rest is exactly what is missing from the list's first thousand
   * items; there is no result only if a page or a cursor is missing.
   */
  method CollectRemainingConnectionNodes<T>(first: Connection<T>, fetchPage: string -> Option<Connection<T>>,
                                            ghost list: seq<T>, ghost position: string -> nat)
    returns (nodes: Option<seq<T>>)
    requires PageOf(list, 0, first, position)
    requires Pages(list, fetchPage, position)
    ensures nodes.Some? && |first.nodes| <= MAX_PULL_CONNECTION_ITEMS ==>
              first.nodes + nodes.value == list[..Least(|list|, MAX_PULL_CONNECTION_ITEMS)]
    ensures nodes.Some? && |first.nodes| > MAX_PULL_CONNECTION_ITEMS ==> nodes.value == []
    ensures Continues(first.pageInfo) && Answers(fetchPage) ==> nodes.Some?
  {
    var pageInfo, totalLen := first.pageInfo, |first.nodes|;
    var collected: seq<T> := [];
    var previousCursor: Option<string> := None;
    ghost var reached := |first.nodes|;
    while pageInfo.hasNextPage && totalLen < MAX_PULL_CONNECTION_ITEMS
      invariant totalLen == |first.nodes| + |collected|
      invariant totalLen <= reached <= |list|
      invariant first.nodes + collected == list[..totalLen]
      invariant totalLen == reached || totalLen == MAX_PULL_CONNECTION_ITEMS
      invariant pageInfo.hasNextPage <==> reached < |list|
      invariant pageInfo.endCursor.Some? ==> position(pageInfo.endCursor.value) == reached
      invariant previousCursor.Some? ==> position(previousCursor.value) < reached
      invariant |first.nodes| > MAX_PULL_CONNECTION_ITEMS ==> collected == []
      invariant |first.nodes| <= MAX_PULL_CONNECTION_ITEMS ==> totalLen <= MAX_PULL_CONNECTION_ITEMS
      invariant Continues(first.pageInfo) && Answers(fetchPage) ==> Continues(pageInfo)
      decreases |list| - reached
    {
      if pageInfo.endCursor.None? {
        return None;
      }
      var cursor := pageInfo.endCursor.value;
      if previousCursor == Some(cursor) {
        return None;
      }
      previousCursor := Some(cursor);
      var connection := fetchPage(cursor);
      if connection.None? {
        return None;
      }
      pageInfo := connection.value.pageInfo;
      var fetched := connection.value.nodes;
      var remaining := MAX_PULL_CONNECTION_ITEMS - totalLen;
      reached := reached + |fetched|;
      if |fetched| > remaining {
        fetched := fetched[..remaining];
      }
      assert list[..totalLen] + fetched == list[..totalLen + |fetched|];
      assert first.nodes + (collected + fetched) == first.nodes + collected + fetched;
      totalLen := totalLen + |fetched|;
      collected := collected + fetched;
    }
    return Some(collected);
  }
}
