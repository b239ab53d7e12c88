/** The queries behind the builders' Grants methods, resource by resource, and the view they add up to. */
module SyncViews {
  import opened Collections
  import opened Salesforce
  import opened Access

  /** The kinds whose grants come from a query; users have none of their own. */
  type Queried = kind: ResourceType | kind != User witness Group

  function FeedTable(kind: Queried): Table {
    match kind
    case Group => GroupMembers
    case PermissionSet => Assignments
    case PermissionSetGroup => Assignments
    case Profile => Users
    case UserRole => Users
    case Territory => Associations
  }

  function CondsOf(kind: Queried, resource: Id): seq<Cond> {
    match kind
    case Group => [Eq(GroupId, resource)]
    case PermissionSet => [Eq(PermissionSetId, resource)]
    case PermissionSetGroup => [Eq(PermissionSetGroupId, resource)]
    case Profile => [Eq(UserType, STANDARD), Eq(ProfileId, resource)]
    case UserRole => [Eq(UserType, STANDARD), Eq(UserRoleId, resource)]
    case Territory => [Eq(Territory2Id, resource)]
  }

  function RowGrants(kind: Queried, resource: Id, r: Row): seq<Grant> {
    match kind
    case Group => GroupGrants(resource, r)
    case PermissionSet => DirectGrants(resource, r)
    case PermissionSetGroup => GroupAssignmentGrants(resource, r)
    case Profile => ProfileGrants(resource, r)
    case UserRole => RoleGrants(resource, r)
    case Territory => TerritoryGrants(resource, r)
  }

  /** What the records of a query make a builder emit. */
  function PageGrants(kind: Queried, resource: Id, records: seq<Row>): seq<Grant> {
    FlatMap((r: Row) => RowGrants(kind, resource, r), records)
  }

  /** The second phase of a permission set. */
  function ComponentPage(resource: Id, records: seq<Row>): seq<Grant> {
    FlatMap((r: Row) => ComponentGrants(resource, r), records)
  }

  /** Everything that a sync emits for one resource. */
  function SyncOf(db: Db, kind: Queried, resource: Id): seq<Grant> {
    PageGrants(kind, resource, Select(db, FeedTable(kind), CondsOf(kind, resource)))
    + if kind != PermissionSet then []
      else ComponentPage(resource, Select(db, Components, [Eq(PermissionSetId, resource)]))
  }

  lemma EmittedByQuery(db: Db, t: Table, conds: seq<Cond>, f: Row -> seq<Grant>, g: Grant)
    ensures g in FlatMap(f, Select(db, t, conds)) <==> exists r :: r in db.Rows(t) && Matches(r, conds) && g in f(r)
  {
    FlatMapMembers(f, Select(db, t, conds));
    SelectMembers(db, t, conds);
  }

  lemma OneCond(r: Row, f: Field, v: string)
    ensures Matches(r, [Eq(f, v)]) <==> r.Text(f) == v
  {
    assert Matches(r, [Eq(f, v)]) <==> Holds([Eq(f, v)][0], r);
  }

  lemma TwoConds(r: Row, f: Field, v: string, g: Field, w: string)
    ensures Matches(r, [Eq(f, v), Eq(g, w)]) <==> r.Text(f) == v && r.Text(g) == w
  {
    var conds := [Eq(f, v), Eq(g, w)];
    assert Matches(r, conds) <==> Holds(conds[0], r) && Holds(conds[1], r);
  }

  lemma CondsMean(kind: Queried, r: Row, resource: Id)
    ensures Matches(r, CondsOf(kind, resource)) <==> About(kind, r, resource)
  {
    hide Matches;
    match kind
    case Group => OneCond(r, GroupId, resource);
    case PermissionSet => OneCond(r, PermissionSetId, resource);
    case PermissionSetGroup => OneCond(r, PermissionSetGroupId, resource);
    case Profile => TwoConds(r, UserType, STANDARD, ProfileId, resource);
    case UserRole => TwoConds(r, UserType, STANDARD, UserRoleId, resource);
    case Territory => OneCond(r, Territory2Id, resource);
  }

  /** The rows that a query about a resource asks for. */
  predicate About(kind: Queried, r: Row, resource: Id) {
    match kind
    case Group => r.Text(GroupId) == resource
    case PermissionSet => r.Text(PermissionSetId) == resource
    case PermissionSetGroup => r.Text(PermissionSetGroupId) == resource
    case Profile => r.Text(UserType) == STANDARD && r.Text(ProfileId) == resource
    case UserRole => r.Text(UserType) == STANDARD && r.Text(UserRoleId) == resource
    case Territory => r.Text(Territory2Id) == resource
  }

  /** A row that the sync of a resource reads, and a grant it emits for it. */
  ghost predicate Contributes(kind: Queried, t: Table, r: Row, resource: Id, g: Grant) {
    || (t == FeedTable(kind) && About(kind, r, resource) && g in RowGrants(kind, resource, r))
    || (kind == PermissionSet && t == Components && r.Text(PermissionSetId) == resource
        && g in ComponentGrants(resource, r))
  }

  lemma ContributionIsEmitted(kind: Queried, t: Table, r: Row, resource: Id, g: Grant)
    requires resource != "" && Contributes(kind, t, r, resource, g)
    ensures g in Emit(t, r) && g.ent.kind == kind && g.ent.resource == resource
  {
    match kind
    case Group =>
    case PermissionSet =>
    case PermissionSetGroup =>
    case Profile =>
    case UserRole =>
    case Territory =>
  }

  lemma EmissionContributes(kind: Queried, t: Table, r: Row, resource: Id, g: Grant)
    requires resource != "" && g in Emit(t, r) && g.ent.kind == kind && g.ent.resource == resource
    ensures Contributes(kind, t, r, resource, g)
  {
    match t
    case GroupMembers =>
    case Assignments =>
    case Components =>
    case Users =>
    case Associations =>
    case _ =>
  }

  lemma SyncEmits(db: Db, kind: Queried, resource: Id, g: Grant)
    ensures g in SyncOf(db, kind, resource) <==> exists t, r :: r in db.Rows(t) && Contributes(kind, t, r, resource, g)
  {
    hide Matches, About, RowGrants, ComponentGrants, CondsOf, FeedTable;
    var conds := CondsOf(kind, resource);
    EmittedByQuery(db, FeedTable(kind), conds, (r: Row) => RowGrants(kind, resource, r), g);
    EmittedByQuery(db, Components, [Eq(PermissionSetId, resource)], (r: Row) => ComponentGrants(resource, r), g);
    forall r ensures Matches(r, conds) <==> About(kind, r, resource) { CondsMean(kind, r, resource); }
    forall r ensures Matches(r, [Eq(PermissionSetId, resource)]) <==> r.Text(PermissionSetId) == resource {
      OneCond(r, PermissionSetId, resource);
    }
  }

  /** For every kind and resource, the sync emits exactly the resource's part of the view. */
  lemma SyncIsView(db: Db, kind: Queried, resource: Id, g: Grant)
    requires resource != ""
    ensures g in SyncOf(db, kind, resource) <==> g in View(db) && g.ent.kind == kind && g.ent.resource == resource
  {
    hide SyncOf, Emit, Contributes;
    SyncEmits(db, kind, resource, g);
    if t, r :| r in db.Rows(t) && Contributes(kind, t, r, resource, g) {
      ContributionIsEmitted(kind, t, r, resource, g);
    }
    if g in View(db) && g.ent.kind == kind && g.ent.resource == resource {
      var t, r :| r in db.Rows(t) && g in Emit(t, r);
      EmissionContributes(kind, t, r, resource, g);
    }
  }
}
