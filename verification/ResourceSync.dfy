/** The sync of the resources whose grants come from one query: all but permission sets. */
module ResourceSync {
  import opened Collections
  import opened Salesforce
  import opened Access
  import opened Paging
  import opened SyncViews
  import Groups
  import PermissionSetGroups
  import Profiles
  import Roles
  import Territories

  type OneFeed = kind: Queried | kind != PermissionSet witness Group

  /** One Grants call of a builder: a page of grants and the token of the next page. */
  method Grants(kind: OneFeed, feed: Feed, resource: Id, token: string) returns (r: Result<(seq<Grant>, string)>)
    requires feed.Valid()
    ensures r == Err(Unreachable)
         || match QueryResult(feed, token)
            case Err(e) => r == Err(e)
            case Ok((records, next)) => r == Ok((PageGrants(kind, resource, records), next))
  {
    var page := Query(feed, token);
    if page.Err? {
      return Err(page.error);
    }
    var grants;
    match kind {
      case Group => grants := Groups.Grants(resource, page.value.0);
      case PermissionSetGroup => grants := PermissionSetGroups.Grants(resource, page.value.0);
      case Profile => grants := Profiles.Grants(resource, page.value.0);
      case UserRole => grants := Roles.Grants(resource, page.value.0);
      case Territory => grants := Territories.Grants(resource, page.value.0);
    }
    r := Ok((grants, page.value.1));
  }

  lemma PageStep(kind: OneFeed, resource: Id, pages: seq<seq<Row>>, i: nat)
    requires i < |pages|
    ensures PageGrants(kind, resource, Flatten(pages[..i + 1]))
            == PageGrants(kind, resource, Flatten(pages[..i])) + PageGrants(kind, resource, pages[i])
  {
    FlattenPrefixStep(pages, i);
    FlatMapAppend((r: Row) => RowGrants(kind, resource, r), Flatten(pages[..i]), pages[i]);
  }

  lemma NoGrantsYet(kind: OneFeed, resource: Id)
    ensures PageGrants(kind, resource, []) == []
  {
  }

  /** Feeding the tokens back until "" emits every record's grants, once and in order, in one request a page. */
  method Sync(kind: OneFeed, feed: Feed, resource: Id) returns (r: Result<seq<Grant>>, requests: nat)
    requires feed.Valid()
    ensures r == Err(Unreachable) || r == Ok(PageGrants(kind, resource, Flatten(feed.pages)))
    ensures r.Ok? ==> requests == |feed.pages|
  {
    hide PageGrants;
    var token, grants: seq<Grant> := "", [];
    requests := 0;
    NoGrantsYet(kind, resource);
    while true
      invariant requests < |feed.pages| && PageIndex(feed, token) == Some(requests)
      invariant grants == PageGrants(kind, resource, Flatten(feed.pages[..requests]))
      decreases |feed.pages| - requests
    {
      PageStep(kind, resource, feed.pages, requests);
      TokenLeadsOn(feed, requests);
      var page := Grants(kind, feed, resource, token);
      if page.Err? {
        return Err(page.error), requests;
      }
      grants := grants + page.value.0;
      token := page.value.1;
      requests := requests + 1;
      if token == "" {
        assert feed.pages[..requests] == feed.pages;
        return Ok(grants), requests;
      }
    }
  }

  /** Over any split of the query's result, the run emits exactly the resource's part of the view. */
  lemma SyncEmitsTheView(db: Db, kind: OneFeed, feed: Feed, resource: Id, g: Grant)
    requires resource != "" && Serves(feed, db, FeedTable(kind), CondsOf(kind, resource))
    ensures g in PageGrants(kind, resource, Flatten(feed.pages))
            <==> g in View(db) && g.ent.kind == kind && g.ent.resource == resource
  {
    hide View;
    SyncIsView(db, kind, resource, g);
  }
}
