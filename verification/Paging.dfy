/** Query results in pages, and the cursors that lead from one page to the next. */
module Paging {
  import opened Collections
  import opened Salesforce

  /** A result as the server splits it: any pages, empty ones too, and a cursor to each but the first. */
  datatype Feed = Feed(pages: seq<seq<Row>>, cursors: seq<string>) {
    ghost predicate Valid() {
      && |pages| == |cursors| + 1
      && (forall i :: 0 <= i < |cursors| ==> cursors[i] != "")
      && (forall i, j :: 0 <= i < j < |cursors| ==> cursors[i] != cursors[j])
    }
  }

  /** A response as the wire carries it; a finished one may still name a url. */
  datatype Response = Response(records: seq<Row>, done: bool, nextUrl: string)

  /** The feed holds the result of a query on a database. */
  ghost predicate Serves(feed: Feed, db: Db, t: Table, conds: seq<Cond>) {
    feed.Valid() && Flatten(feed.pages) == Select(db, t, conds)
  }

  function Position(cursors: seq<string>, cursor: string): Option<nat> {
    if cursors == [] then None
    else if cursors[0] == cursor then Some(0)
    else match Position(cursors[1..], cursor)
         case None => None
         case Some(i) => Some(i + 1)
  }

  /** The page a path leads to: the query itself leads to the first one. */
  function PageIndex(feed: Feed, path: string): Option<nat> {
    if path == "" then Some(0)
    else match Position(feed.cursors, path)
         case None => None
         case Some(i) => Some(i + 1)
  }

  function NextToken(feed: Feed, i: nat): string {
    if i < |feed.cursors| then feed.cursors[i] else ""
  }

  lemma {:induction false} PositionFinds(cursors: seq<string>, i: nat)
    requires i < |cursors|
    requires forall i, j :: 0 <= i < j < |cursors| ==> cursors[i] != cursors[j]
    ensures Position(cursors, cursors[i]) == Some(i)
  {
    if i > 0 {
      assert cursors[1..][i - 1] == cursors[i];
      PositionFinds(cursors[1..], i - 1);
    }
  }

  lemma {:induction false} PositionBound(cursors: seq<string>, cursor: string)
    ensures Position(cursors, cursor).Some? ==>
              Position(cursors, cursor).value < |cursors| && cursors[Position(cursors, cursor).value] == cursor
  {
    if cursors != [] && cursors[0] != cursor {
      PositionBound(cursors[1..], cursor);
    }
  }

  /** The token handed out with a page leads to the page after it. */
  lemma TokenLeadsOn(feed: Feed, i: nat)
    requires feed.Valid() && i < |feed.pages|
    ensures NextToken(feed, i) != "" <==> i + 1 < |feed.pages|
    ensures i + 1 < |feed.pages| ==> PageIndex(feed, NextToken(feed, i)) == Some(i + 1)
  {
    if i < |feed.cursors| {
      PositionFinds(feed.cursors, i);
    }
  }

  /** The server's answer to a query string or to a cursor of it. */
  method Fetch(feed: Feed, path: string) returns (r: Result<Response>)
    requires feed.Valid()
    ensures match PageIndex(feed, path)
            case None => r == Err(Unreachable) || r == Err(UnknownCursor)
            case Some(i) =>
              r == Err(Unreachable)
              || (r.Ok? && i < |feed.pages| && r.value.records == feed.pages[i]
                  && (r.value.done <==> i + 1 == |feed.pages|)
                  && (!r.value.done ==> r.value.nextUrl == feed.cursors[i]))
  {
    if * {
      return Err(Unreachable);
    }
    var i := PageIndex(feed, path);
    if i.None? {
      return Err(UnknownCursor);
    }
    PositionBound(feed.cursors, path);
    var done := i.value + 1 == |feed.pages|;
    r := Ok(Response(feed.pages[i.value], done, if done then "" else feed.cursors[i.value]));
  }

  /** The records of a page and the token for the next one, "" after the last. */
  function QueryResult(feed: Feed, path: string): Result<(seq<Row>, string)> {
    match PageIndex(feed, path)
    case None => Err(UnknownCursor)
    case Some(i) => if i < |feed.pages| then Ok((feed.pages[i], NextToken(feed, i))) else Err(UnknownCursor)
  }

  /** The client's query: the next url counts only when the response is not done. */
  method Query(feed: Feed, path: string) returns (r: Result<(seq<Row>, string)>)
    requires feed.Valid()
    ensures r == Err(Unreachable) || r == QueryResult(feed, path)
  {
    var response := Fetch(feed, path);
    if response.Err? {
      return Err(response.error);
    }
    var nextToken := "";
    if !response.value.done {
      nextToken := response.value.nextUrl;
    }
    r := Ok((response.value.records, nextToken));
  }
}
