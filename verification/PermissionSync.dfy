/**
 The two-phase sync of a permission set: first the users assigned directly, then the
 permission set groups that contain it, with the phase carried in the page token.
 */
module PermissionSync {
  import opened Collections
  import opened Strings
  import opened Salesforce
  import opened Access
  import opened Paging
  import opened SyncViews
  import ViewByRows

  const PSG_PREFIX := "psg:"

  datatype Page = Page(grants: seq<Grant>, next: string)

  /** Every component record must have a readable IsDeleted; deleted ones are emitted all the same. */
  predicate Readable(records: seq<Row>) {
    forall r | r in records :: r.Bool(IsDeleted).Some?
  }

  /** The record has the flag, true or false, in whatever form. */
  predicate HasFlag(r: Row) {
    IsDeleted in r.fields && r.fields[IsDeleted] != Null
  }

  lemma ReadableMeans(records: seq<Row>)
    ensures Readable(records) <==> forall r :: r in records ==> HasFlag(r)
  {
  }

  /** A page of the second phase. */
  function GroupedPage(components: Feed, resource: Id, cursor: string): Result<Page> {
    match QueryResult(components, cursor)
    case Err(e) => Err(e)
    case Ok((records, next)) =>
      if !Readable(records) then Err(MalformedField)
      else Ok(Page(ComponentPage(resource, records), if next != "" then PSG_PREFIX + next else ""))
  }

  /** What Grants returns for a token when the server answers. */
  function PageOf(assignments: Feed, components: Feed, resource: Id, token: string): Result<Page> {
    if HasPrefix(token, PSG_PREFIX) then GroupedPage(components, resource, TrimPrefix(token, PSG_PREFIX))
    else
      match QueryResult(assignments, token)
      case Err(e) => Err(e)
      case Ok((records, next)) =>
        Ok(Page(PageGrants(PermissionSet, resource, records), if next != "" then next else PSG_PREFIX))
  }

  /** getIsDeleted on every record of a page, as the client does before it returns the page. */
  method ReadComponents(records: seq<Row>) returns (r: Result<seq<Row>>)
    ensures r == if Readable(records) then Ok(records) else Err(MalformedField)
    ensures r.Ok? <==> forall row :: row in records ==> HasFlag(row)
  {
    ReadableMeans(records);
    var components := [];
    for i := 0 to |records|
      invariant components == records[..i] && Readable(records[..i])
    {
      if records[i].Bool(IsDeleted).None? {
        assert records[i] in records;
        return Err(MalformedField);
      }
      components := components + [records[i]];
    }
    assert records[..|records|] == records;
    r := Ok(components);
  }

  method Grants(assignments: Feed, components: Feed, resource: Id, token: string) returns (r: Result<Page>)
    requires assignments.Valid() && components.Valid()
    ensures r == Err(Unreachable) || r == PageOf(assignments, components, resource, token)
  {
    var grants: seq<Grant> := [];
    if HasPrefix(token, PSG_PREFIX) {
      var fetched := Query(components, TrimPrefix(token, PSG_PREFIX));
      if fetched.Err? {
        return Err(fetched.error);
      }
      var read := ReadComponents(fetched.value.0);
      if read.Err? {
        return Err(read.error);
      }
      var records := read.value;
      ghost var emit := (r: Row) => ComponentGrants(resource, r);
      for i := 0 to |records|
        invariant grants == FlatMap(emit, records[..i])
      {
        FlatMapStep(emit, records, i);
        var group := records[i].Text(PermissionSetGroupId);
        grants := grants + [Grant(Entitlement(PermissionSet, resource, ASSIGNED), Principal(PermissionSetGroup, group),
                                  [MemberEntitlementId(group)])];
      }
      assert records[..|records|] == records;
      var next := "";
      if fetched.value.1 != "" {
        next := PSG_PREFIX + fetched.value.1;
      }
      return Ok(Page(grants, next));
    }
    var fetched := Query(assignments, token);
    if fetched.Err? {
      return Err(fetched.error);
    }
    var records := fetched.value.0;
    ghost var emit := (r: Row) => RowGrants(PermissionSet, resource, r);
    for i := 0 to |records|
      invariant grants == FlatMap(emit, records[..i])
    {
      FlatMapStep(emit, records, i);
      grants := grants + [UserGrant(PermissionSet, resource, ASSIGNED, records[i].Text(AssigneeId))];
    }
    assert records[..|records|] == records;
    r := Ok(Page(grants, if fetched.value.1 != "" then fetched.value.1 else PSG_PREFIX));
  }

  /**
   A page of components: it fails exactly when a record lacks the flag; otherwise every
   record, deleted or not, gives one grant, in order, with the expansion to its group's members.
   */
  lemma SecondPhaseAnswers(assignments: Feed, components: Feed, resource: Id, cursor: string,
                           records: seq<Row>, next: string)
    requires QueryResult(components, cursor) == Ok((records, next))
    ensures var page := PageOf(assignments, components, resource, "psg:" + cursor);
            && (page == Err(MalformedField) <==>
                  exists r :: r in records && (IsDeleted !in r.fields || r.fields[IsDeleted] == Null))
            && (page != Err(MalformedField) ==>
                  && page.Ok? && |page.value.grants| == |records|
                  && (page.value.next == "" <==> next == "") && (next != "" ==> page.value.next == "psg:" + next)
                  && forall i :: 0 <= i < |records| ==>
                       page.value.grants[i] ==
                         Grant(Entitlement(PermissionSet, resource, "assigned"),
                               Principal(PermissionSetGroup, records[i].Text(PermissionSetGroupId)),
                               [ViewByRows.MemberId(records[i].Text(PermissionSetGroupId))]))
  {
    hide ViewByRows.MemberId, MemberEntitlementId;
    assert ("psg:" + cursor)[4..] == cursor && "psg:" <= "psg:" + cursor;
    ReadableMeans(records);
    if Readable(records) {
      OneGrantEach(resource, records);
    }
  }

  lemma {:induction false} OneGrantEach(resource: Id, records: seq<Row>)
    ensures var grants := ComponentPage(resource, records);
            && |grants| == |records|
            && forall i :: 0 <= i < |records| ==>
                 grants[i] == Grant(Entitlement(PermissionSet, resource, "assigned"),
                                    Principal(PermissionSetGroup, records[i].Text(PermissionSetGroupId)),
                                    [ViewByRows.MemberId(records[i].Text(PermissionSetGroupId))])
  {
    hide ViewByRows.MemberId, MemberEntitlementId;
    if records != [] {
      ViewByRows.MemberIdIsBuilt(records[0].Text(PermissionSetGroupId));
      OneGrantEach(resource, records[1..]);
    }
  }

  // ---------------------------------------------------------------- tokens

  datatype Phase = Assigned | Grouped

  function Encode(phase: Phase, cursor: string): string {
    if phase.Assigned? then cursor else PSG_PREFIX + cursor
  }

  function Decode(token: string): (Phase, string) {
    if HasPrefix(token, PSG_PREFIX) then (Grouped, TrimPrefix(token, PSG_PREFIX)) else (Assigned, token)
  }

  /**
   A cursor of the second phase always comes back to it unchanged, even one that begins
   with the prefix itself; a cursor of the first phase does exactly when it does not.
   */
  lemma CursorReplaysInItsPhase(phase: Phase, cursor: string)
    ensures Decode(Encode(phase, cursor)) == (phase, cursor) <==> phase.Grouped? || !HasPrefix(cursor, PSG_PREFIX)
  {
    assert (PSG_PREFIX + cursor)[|PSG_PREFIX|..] == cursor;
  }

  /** The page that a first-phase token should lead to. */
  function NextDirectPage(assignments: Feed, resource: Id, i: nat): Page
    requires i + 1 < |assignments.pages|
  {
    var next := NextToken(assignments, i + 1);
    Page(PageGrants(PermissionSet, resource, assignments.pages[i + 1]), if next != "" then next else PSG_PREFIX)
  }

  /** A prefixed token that leads to an empty page of components, with the given token after it. */
  predicate LeadsToEmpty(components: Feed, token: string, next: string) {
    match PageIndex(components, TrimPrefix(token, PSG_PREFIX))
    case None => false
    case Some(j) =>
      && j < |components.pages| && components.pages[j] == []
      && next == if NextToken(components, j) != "" then PSG_PREFIX + NextToken(components, j) else ""
  }

  /**
   A first-phase token serves the page that follows if and only if its cursor lacks the
   prefix, or both that page and the page of components behind the token are empty and the
   same token comes next.
   */
  lemma FirstPhaseContinuesIff(assignments: Feed, components: Feed, resource: Id, i: nat)
    requires assignments.Valid() && components.Valid() && i + 1 < |assignments.pages|
    ensures var token, due := NextToken(assignments, i), NextDirectPage(assignments, resource, i);
            PageOf(assignments, components, resource, token) == Ok(due) <==>
              || !HasPrefix(token, PSG_PREFIX)
              || (assignments.pages[i + 1] == [] && LeadsToEmpty(components, token, due.next))
  {
    TokenLeadsOn(assignments, i);
    var due := assignments.pages[i + 1];
    forall records
      ensures PageGrants(PermissionSet, resource, due) == ComponentPage(resource, records) <==> due == [] == records
    {
      PagesDiffer(resource, due, records);
    }
  }

  /** The phases emit different grants, so pages of both are equal only when they are empty. */
  lemma PagesDiffer(resource: Id, direct: seq<Row>, components: seq<Row>)
    ensures PageGrants(PermissionSet, resource, direct) == ComponentPage(resource, components)
            <==> direct == [] == components
  {
    var grants, others := PageGrants(PermissionSet, resource, direct), ComponentPage(resource, components);
    FlatMapMembers((r: Row) => RowGrants(PermissionSet, resource, r), direct);
    FlatMapMembers((r: Row) => ComponentGrants(resource, r), components);
    assert forall g :: g in grants ==> g !in others;
    assert direct != [] ==> grants != [] && grants[0] in grants;
    assert components != [] ==> others != [] && others[0] in others;
  }

  /**
   Any first-phase cursor that begins with the prefix, whatever follows it, drops the
   assignments that are left: the run goes on with a component page or an unknown cursor,
   and with a cursor equal to the prefix it goes on as if nothing had happened.
   */
  lemma PrefixCursorSkipsAssignments(assignments: Feed, components: Feed, resource: Id, i: nat, g: Grant)
    requires assignments.Valid() && components.Valid() && i + 1 < |assignments.pages|
    requires HasPrefix(assignments.cursors[i], PSG_PREFIX)
    ensures var page := PageOf(assignments, components, resource, NextToken(assignments, i));
            && (page.Ok? ==> (g in page.value.grants ==> g.principal.kind != User)
                             && (page.value.next == "" || HasPrefix(page.value.next, PSG_PREFIX)))
            && (assignments.cursors[i] == PSG_PREFIX && Readable(components.pages[0]) ==> page.Ok?)
  {
    var token := NextToken(assignments, i);
    var page := PageOf(assignments, components, resource, token);
    assert TrimPrefix(PSG_PREFIX, PSG_PREFIX) == "";
    if page.Ok? {
      var records := QueryResult(components, TrimPrefix(token, PSG_PREFIX)).value.0;
      FlatMapMembers((r: Row) => ComponentGrants(resource, r), records);
    }
  }

  // ---------------------------------------------------------------- the whole run

  /** The token that stands for page `i` of a phase. */
  function TokenAt(assignments: Feed, components: Feed, phase: Phase, i: nat): string {
    match phase
    case Assigned => if i == 0 then "" else NextToken(assignments, i - 1)
    case Grouped => PSG_PREFIX + (if i == 0 then "" else NextToken(components, i - 1))
  }

  /** Every page of the run: what it emits, and the token it hands on. */
  lemma PageAt(assignments: Feed, components: Feed, resource: Id, phase: Phase, i: nat)
    requires assignments.Valid() && components.Valid()
    requires forall c :: c in assignments.cursors ==> !HasPrefix(c, PSG_PREFIX)
    requires i < |(if phase.Assigned? then assignments else components).pages|
    ensures var page := PageOf(assignments, components, resource, TokenAt(assignments, components, phase, i));
            match phase
            case Assigned =>
              page == Ok(Page(PageGrants(PermissionSet, resource, assignments.pages[i]),
                              if i + 1 < |assignments.pages| then TokenAt(assignments, components, Assigned, i + 1)
                              else TokenAt(assignments, components, Grouped, 0)))
            case Grouped =>
              && (!Readable(components.pages[i]) ==> page == Err(MalformedField))
              && (Readable(components.pages[i]) ==>
                    page == Ok(Page(ComponentPage(resource, components.pages[i]),
                                    if i + 1 < |components.pages| then TokenAt(assignments, components, Grouped, i + 1)
                                    else "")))
  {
    var feed := if phase.Assigned? then assignments else components;
    assert PSG_PREFIX + "" == PSG_PREFIX;
    TokenLeadsOn(feed, i);
    if i > 0 {
      TokenLeadsOn(feed, i - 1);
      assert feed.cursors[i - 1] in feed.cursors;
      CursorReplaysInItsPhase(phase, NextToken(feed, i - 1));
    } else {
      CursorReplaysInItsPhase(phase, "");
    }
  }

  lemma DirectStep(resource: Id, pages: seq<seq<Row>>, i: nat)
    requires i < |pages|
    ensures PageGrants(PermissionSet, resource, Flatten(pages[..i + 1]))
            == PageGrants(PermissionSet, resource, Flatten(pages[..i])) + PageGrants(PermissionSet, resource, pages[i])
  {
    FlattenPrefixStep(pages, i);
    FlatMapAppend((r: Row) => RowGrants(PermissionSet, resource, r), Flatten(pages[..i]), pages[i]);
  }

  lemma ComponentStep(resource: Id, pages: seq<seq<Row>>, i: nat)
    requires i < |pages|
    ensures ComponentPage(resource, Flatten(pages[..i + 1]))
            == ComponentPage(resource, Flatten(pages[..i])) + ComponentPage(resource, pages[i])
  {
    FlattenPrefixStep(pages, i);
    FlatMapAppend((r: Row) => ComponentGrants(resource, r), Flatten(pages[..i]), pages[i]);
  }

  /** What the run has emitted when page `i` of a phase is next. */
  function SoFar(assignments: Feed, components: Feed, resource: Id, phase: Phase, i: nat): seq<Grant>
    requires i <= |(if phase.Assigned? then assignments else components).pages|
  {
    match phase
    case Assigned => PageGrants(PermissionSet, resource, Flatten(assignments.pages[..i]))
    case Grouped =>
      PageGrants(PermissionSet, resource, Flatten(assignments.pages))
      + ComponentPage(resource, Flatten(components.pages[..i]))
  }

  lemma EmittedStep(assignments: Feed, components: Feed, resource: Id, phase: Phase, i: nat)
    requires i < |(if phase.Assigned? then assignments else components).pages|
    ensures SoFar(assignments, components, resource, phase, i + 1)
              == SoFar(assignments, components, resource, phase, i)
                 + if phase.Assigned? then PageGrants(PermissionSet, resource, assignments.pages[i])
                   else ComponentPage(resource, components.pages[i])
    ensures SoFar(assignments, components, resource, Assigned, |assignments.pages|)
              == SoFar(assignments, components, resource, Grouped, 0)
    ensures SoFar(assignments, components, resource, Grouped, |components.pages|)
              == PageGrants(PermissionSet, resource, Flatten(assignments.pages))
                 + ComponentPage(resource, Flatten(components.pages))
  {
    hide PageGrants, ComponentPage;
    if phase.Assigned? {
      DirectStep(resource, assignments.pages, i);
    } else {
      ComponentStep(resource, components.pages, i);
    }
    assert assignments.pages[..|assignments.pages|] == assignments.pages;
    assert components.pages[..|components.pages|] == components.pages;
    assert ComponentPage(resource, Flatten(components.pages[..0])) == [] by { EmptyComponentPage(resource); }
  }

  lemma EmptyComponentPage(resource: Id)
    ensures ComponentPage(resource, []) == []
  {
  }

  /**
   Feeding each token back until it is empty, for every split of either result into pages:
   the run ends, never meets an unknown cursor, makes one request a page, and what it emits
   is every assignment and then every component, once and in order.
   */
  method SyncPermissionSet(assignments: Feed, components: Feed, resource: Id)
    returns (r: Result<seq<Grant>>, requests: nat)
    requires assignments.Valid() && components.Valid()
    requires forall c :: c in assignments.cursors ==> !HasPrefix(c, PSG_PREFIX)
    ensures r.Ok? ==> r.value == PageGrants(PermissionSet, resource, Flatten(assignments.pages))
                                 + ComponentPage(resource, Flatten(components.pages))
    ensures r.Ok? ==> requests == |assignments.pages| + |components.pages|
    ensures r == Err(Unreachable) || r == Err(MalformedField) || r.Ok?
    ensures r == Err(Unreachable)
         || (r.Ok? <==> forall page, row :: page in components.pages && row in page ==> HasFlag(row))
  {
    hide PageOf, PageGrants, ComponentPage, SoFar, TokenAt, Readable;
    var token, grants: seq<Grant> := "", [];
    requests := 0;
    ghost var phase, i := Assigned, 0 as nat;
    assert token == TokenAt(assignments, components, Assigned, 0)
           && grants == SoFar(assignments, components, resource, Assigned, 0) by {
      RunStarts(assignments, components, resource);
    }
    while true
      invariant i < |(if phase.Assigned? then assignments else components).pages|
      invariant token == TokenAt(assignments, components, phase, i)
      invariant requests == if phase.Assigned? then i else |assignments.pages| + i
      invariant grants == SoFar(assignments, components, resource, phase, i)
      invariant phase.Grouped? ==> forall j :: 0 <= j < i ==> Readable(components.pages[j])
      decreases if phase.Assigned? then 1 else 0, |(if phase.Assigned? then assignments else components).pages| - i
    {
      PageAt(assignments, components, resource, phase, i);
      TokensAreNotEmpty(assignments, components, phase, i);
      EmittedStep(assignments, components, resource, phase, i);
      var page := Grants(assignments, components, resource, token);
      if page.Err? {
        assert phase.Grouped? ==> components.pages[i] in components.pages;
        ReadableMeans(if phase.Grouped? then components.pages[i] else []);
        return Err(page.error), requests;
      }
      grants := grants + page.value.grants;
      token := page.value.next;
      requests := requests + 1;
      if phase.Assigned? && i + 1 == |assignments.pages| {
        phase, i := Grouped, 0;
      } else {
        i := i + 1;
      }
      if token == "" {
        forall records | records in components.pages ensures forall row :: row in records ==> HasFlag(row) {
          ReadableMeans(records);
        }
        return Ok(grants), requests;
      }
    }
  }

  lemma RunStarts(assignments: Feed, components: Feed, resource: Id)
    requires assignments.Valid()
    ensures TokenAt(assignments, components, Assigned, 0) == ""
    ensures SoFar(assignments, components, resource, Assigned, 0) == []
  {
  }

  lemma TokensAreNotEmpty(assignments: Feed, components: Feed, phase: Phase, i: nat)
    requires assignments.Valid() && components.Valid()
    ensures phase.Assigned? && i + 1 < |assignments.pages| ==> TokenAt(assignments, components, Assigned, i + 1) != ""
    ensures TokenAt(assignments, components, Grouped, 0) != "" && TokenAt(assignments, components, Grouped, i + 1) != ""
  {
    if phase.Assigned? && i + 1 < |assignments.pages| {
      TokenLeadsOn(assignments, i);
    }
  }

  /** A run over the pages of the two queries emits exactly the permission set's part of the view. */
  lemma CompleteSyncIsView(db: Db, assignments: Feed, components: Feed, resource: Id, g: Grant)
    requires resource != ""
    requires Serves(assignments, db, Assignments, [Eq(PermissionSetId, resource)])
    requires Serves(components, db, Components, [Eq(PermissionSetId, resource)])
    ensures g in PageGrants(PermissionSet, resource, Flatten(assignments.pages))
                 + ComponentPage(resource, Flatten(components.pages))
            <==> g in View(db) && g.ent.kind == PermissionSet && g.ent.resource == resource
  {
    hide View;
    SyncIsView(db, PermissionSet, resource, g);
  }
}
