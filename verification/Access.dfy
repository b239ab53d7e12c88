/**
 Grants as a sync reports them, and the view of a database: every grant that the
 builders' Grants methods emit for it, resource by resource.
 */
module Access {
  import opened Collections
  import opened Strings
  import opened Salesforce

  datatype ResourceType = User | Group | PermissionSet | PermissionSetGroup | Profile | UserRole | Territory {
    function Name(): string {
      match this
      case User => "user"
      case Group => "group"
      case PermissionSet => "permission"
      case PermissionSetGroup => "permission_set_group"
      case Profile => "profile"
      case UserRole => "role"
      case Territory => "territory"
    }
  }

  datatype Principal = Principal(kind: ResourceType, id: Id)

  datatype Entitlement = Entitlement(kind: ResourceType, resource: Id, slug: string) {
    /** The SDK's NewEntitlementID. */
    function EntitlementId(): string {
      kind.Name() + [':'] + (resource + [':'] + slug)
    }
  }

  /** `expands` holds the entitlement ids of a GrantExpandable annotation. */
  datatype Grant = Grant(ent: Entitlement, principal: Principal, expands: seq<string>)

  /** What a Grant or Revoke call tells its caller. */
  datatype Answer =
    | Granted(grants: seq<Grant>) | AlreadyExists
    | Revoked | AlreadyRevoked
    | Failed(error: Error)

  datatype Outcome = Outcome(db: Db, answer: Answer)

  /** What a caller may see of one call, given what the organisation makes of it. */
  ghost predicate Settled(before: Db, after: Db, answer: Answer, outcome: Outcome) {
    || (answer == Failed(Unreachable) && (after == before || after == outcome.db))
    || (answer == outcome.answer && after == outcome.db)
  }

  const MEMBER := "member"
  const ASSIGNED := "assigned"
  const ROLE_PREFIX := "role:"
  const GROUP_ID_PREFIX := "00G"
  const USER_ID_PREFIX := "005"
  const STANDARD := "Standard"

  function UserGrant(kind: ResourceType, resource: Id, slug: string, user: Id): Grant {
    Grant(Entitlement(kind, resource, slug), Principal(User, user), [])
  }

  // ---------------------------------------------------------------- what one row contributes

  /** getIsGroup: None is its "invalid principal id" error, on which the record is skipped. */
  function Classify(id: Id): Option<ResourceType> {
    if HasPrefix(id, GROUP_ID_PREFIX) then Some(Group)
    else if HasPrefix(id, USER_ID_PREFIX) then Some(User)
    else None
  }

  function GroupGrant(group: Id, member: Id): seq<Grant> {
    match Classify(member)
    case None => []
    case Some(kind) => [Grant(Entitlement(Group, group, MEMBER), Principal(kind, member), [])]
  }

  function GroupGrants(group: Id, r: Row): seq<Grant> {
    GroupGrant(group, r.Text(UserOrGroupId))
  }

  function DirectGrants(permissionSet: Id, r: Row): seq<Grant> {
    [UserGrant(PermissionSet, permissionSet, ASSIGNED, r.Text(AssigneeId))]
  }

  /** The entitlement id that the two-phase Grants builds by hand. */
  function MemberEntitlementId(psg: Id): string {
    "permission_set_group" + [':'] + (psg + [':'] + MEMBER)
  }

  function ComponentGrant(permissionSet: Id, psg: Id): Grant {
    Grant(Entitlement(PermissionSet, permissionSet, ASSIGNED), Principal(PermissionSetGroup, psg),
          [MemberEntitlementId(psg)])
  }

  function ComponentGrants(permissionSet: Id, r: Row): seq<Grant> {
    [ComponentGrant(permissionSet, r.Text(PermissionSetGroupId))]
  }

  function GroupAssignmentGrants(psg: Id, r: Row): seq<Grant> {
    [UserGrant(PermissionSetGroup, psg, MEMBER, r.Text(AssigneeId))]
  }

  function ProfileGrants(profile: Id, r: Row): seq<Grant> {
    [UserGrant(Profile, profile, ASSIGNED, r.id)]
  }

  function RoleGrants(role: Id, r: Row): seq<Grant> {
    [UserGrant(UserRole, role, ASSIGNED, r.id)]
  }

  function TerritoryMember(territory: Id, user: Id): Grant {
    UserGrant(Territory, territory, MEMBER, user)
  }

  function TerritoryRole(territory: Id, user: Id, role: string): Grant {
    UserGrant(Territory, territory, ROLE_PREFIX + role, user)
  }

  function TerritoryGrants(territory: Id, r: Row): seq<Grant> {
    [TerritoryMember(territory, r.Text(UserId))]
    + (if r.Text(RoleInTerritory2) != "" then [TerritoryRole(territory, r.Text(UserId), r.Text(RoleInTerritory2))]
       else [])
  }

  /** Everything a row contributes to the sync, over all the resources it names. */
  function Emit(t: Table, r: Row): seq<Grant> {
    match t
    case GroupMembers =>
      if r.Text(GroupId) != "" then GroupGrants(r.Text(GroupId), r) else []
    case Assignments =>
      (if r.Text(PermissionSetId) != "" then DirectGrants(r.Text(PermissionSetId), r) else [])
      + (if r.Text(PermissionSetGroupId) != "" then GroupAssignmentGrants(r.Text(PermissionSetGroupId), r) else [])
    case Components =>
      if r.Text(PermissionSetId) != "" then ComponentGrants(r.Text(PermissionSetId), r) else []
    case Users =>
      if r.Text(UserType) != STANDARD then []
      else (if r.Text(ProfileId) != "" then ProfileGrants(r.Text(ProfileId), r) else [])
           + (if r.Text(UserRoleId) != "" then RoleGrants(r.Text(UserRoleId), r) else [])
    case Associations =>
      if r.Text(Territory2Id) != "" then TerritoryGrants(r.Text(Territory2Id), r) else []
    case _ => []
  }

  ghost predicate Shows(db: Db, g: Grant) {
    exists t, r :: r in db.Rows(t) && g in Emit(t, r)
  }

  ghost function View(db: Db): iset<Grant> {
    iset g | Shows(db, g)
  }

  ghost function Emitted(t: Table, r: Row): iset<Grant> {
    iset g | g in Emit(t, r)
  }

  /** The tables that provisioning writes. */
  predicate Provisioned(t: Table) {
    t == GroupMembers || t == Assignments || t == Users || t == Associations
  }

  /** What a grant tells about the row it came from. */
  ghost predicate TracesTo(g: Grant, t: Table, r: Row) {
    match t
    case GroupMembers =>
      g.ent.kind == Group && g.ent.resource == r.Text(GroupId) && g.principal.id == r.Text(UserOrGroupId)
    case Assignments =>
      && g.principal == Principal(User, r.Text(AssigneeId))
      && (|| (g.ent.kind == PermissionSet && g.ent.resource == r.Text(PermissionSetId) != "")
          || (g.ent.kind == PermissionSetGroup && g.ent.resource == r.Text(PermissionSetGroupId) != ""))
    case Components =>
      g.ent.kind == PermissionSet && g.principal.kind == PermissionSetGroup
    case Users =>
      (g.ent.kind == Profile || g.ent.kind == UserRole) && g.principal.id == r.id
    case Associations =>
      g.ent.kind == Territory && g.ent.resource == r.Text(Territory2Id) && g.principal.id == r.Text(UserId)
    case _ => false
  }

  lemma EmitTraces(t: Table, r: Row, g: Grant)
    requires g in Emit(t, r)
    ensures TracesTo(g, t, r)
  {
  }

  /** Two rows that contribute the same provisioned grant are the same record or conflict. */
  lemma SharedGrantConflicts(t: Table, r: Row, u: Table, s: Row, g: Grant)
    requires Provisioned(t) && g in Emit(t, r) && g in Emit(u, s)
    ensures u == t && (r.id == s.id || Conflict(t, r, s))
  {
    hide Emit;
    EmitTraces(t, r, g);
    EmitTraces(u, s, g);
  }

  /** In a valid database a provisioned grant comes from one row only. */
  lemma OneOwner(db: Db, t: Table, r: Row, u: Table, s: Row, g: Grant)
    requires Valid(db) && Provisioned(t)
    requires r in db.Rows(t) && g in Emit(t, r)
    requires s in db.Rows(u) && g in Emit(u, s)
    ensures u == t && s == r
  {
    hide Emit, Conflict;
    SharedGrantConflicts(t, r, u, s, g);
    assert UniqueRows(t, db.Rows(t));
  }

  // ---------------------------------------------------------------- how writes move the view

  /** `after` is `db` with row `r` of table `t` gone and the rows `added` in its place. */
  ghost predicate Swapped(db: Db, after: Db, t: Table, r: Row, added: set<Row>) {
    forall u, s {:trigger s in after.Rows(u)} {:trigger s in db.Rows(u)} ::
      s in after.Rows(u) <==> (s in db.Rows(u) && !(u == t && s == r)) || (u == t && s in added)
  }

  ghost predicate SoleOwner(db: Db, t: Table, r: Row) {
    forall u, s, g :: s in db.Rows(u) && g in Emit(u, s) && g in Emit(t, r) ==> u == t && s == r
  }

  lemma SoleOwnerInValid(db: Db, t: Table, r: Row)
    requires Valid(db) && Provisioned(t) && r in db.Rows(t)
    ensures SoleOwner(db, t, r)
  {
    forall u, s, g | s in db.Rows(u) && g in Emit(u, s) && g in Emit(t, r) ensures u == t && s == r {
      OneOwner(db, t, r, u, s, g);
    }
  }

  ghost function EmittedBy(t: Table, rows: set<Row>): iset<Grant> {
    iset r, g | r in rows && g in Emit(t, r) :: g
  }

  lemma SwapView(db: Db, after: Db, t: Table, r: Row, added: set<Row>)
    requires Swapped(db, after, t, r, added) && SoleOwner(db, t, r)
    ensures View(after) == View(db) - Emitted(t, r) + EmittedBy(t, added)
  {
    hide Emit;
    forall g | g in View(db) - Emitted(t, r) ensures g in View(after) {
      var u, s :| s in db.Rows(u) && g in Emit(u, s);
      assert s in after.Rows(u);
    }
    forall g | g in EmittedBy(t, added) ensures g in View(after) {
      var s :| s in added && g in Emit(t, s);
      assert s in after.Rows(t);
    }
    forall g | g in View(after) ensures g in View(db) - Emitted(t, r) + EmittedBy(t, added) {
      var u, s :| s in after.Rows(u) && g in Emit(u, s);
      if u == t && s in added {
        assert g in EmittedBy(t, added);
      } else {
        assert s in db.Rows(u);
      }
    }
  }

  lemma InsertView(db: Db, t: Table, at: nat, r: Row)
    requires at <= |db.Rows(t)|
    ensures View(db.With(t, Insert(db.Rows(t), at, r))) == View(db) + Emitted(t, r)
  {
    hide Emit;
    var after := db.With(t, Insert(db.Rows(t), at, r));
    InsertMembers(db.Rows(t), at, r);
    forall g | g in View(db) + Emitted(t, r) ensures g in View(after) {
      if g in Emit(t, r) {
        assert r in after.Rows(t);
      } else {
        var u, s :| s in db.Rows(u) && g in Emit(u, s);
        assert s in after.Rows(u);
      }
    }
    forall g | g in View(after) ensures g in View(db) + Emitted(t, r) {
      var u, s :| s in after.Rows(u) && g in Emit(u, s);
      assert s in db.Rows(u) || (u == t && s == r);
    }
  }

  lemma IdFixesRow(db: Db, t: Table, r: Row)
    requires Valid(db) && r in db.Rows(t)
    ensures forall s :: s in db.Rows(t) && s.id == r.id ==> s == r
  {
    assert UniqueRows(t, db.Rows(t));
  }

  lemma SwappedTable(db: Db, t: Table, r: Row, rows: seq<Row>, added: set<Row>)
    requires forall s :: s in rows <==> (s in db.Rows(t) && s != r) || s in added
    ensures Swapped(db, db.With(t, rows), t, r, added)
  {
  }

  lemma DeletedRows(db: Db, t: Table, r: Row)
    requires Valid(db) && r in db.Rows(t)
    ensures Swapped(db, Deleted(db, t, r.id).db, t, r, {})
  {
    hide Valid, Without, Swapped;
    IdFixesRow(db, t, r);
    WithoutMembers(db.Rows(t), r.id);
    SwappedTable(db, t, r, Without(db.Rows(t), r.id), {});
  }

  lemma PatchedRows(db: Db, t: Table, r: Row, f: Field, v: Value)
    requires Valid(db) && r in db.Rows(t)
    ensures Swapped(db, Patched(db, t, r.id, f, v).db, t, r, {r.Set(f, v)})
  {
    hide Valid, Update, Swapped, Row.Set;
    IdFixesRow(db, t, r);
    UpdateMembers(db.Rows(t), r.id, f, v);
    SwappedTable(db, t, r, Update(db.Rows(t), r.id, f, v), {r.Set(f, v)});
  }

  lemma DeleteView(db: Db, t: Table, r: Row)
    requires Valid(db) && Provisioned(t) && r in db.Rows(t)
    ensures View(Deleted(db, t, r.id).db) == View(db) - Emitted(t, r)
  {
    hide View, Emit, Valid, Swapped, SoleOwner, Deleted;
    DeletedRows(db, t, r);
    SoleOwnerInValid(db, t, r);
    SwapView(db, Deleted(db, t, r.id).db, t, r, {});
    assert EmittedBy(t, {}) == iset{};
  }

  lemma PatchView(db: Db, t: Table, r: Row, f: Field, v: Value)
    requires Valid(db) && Provisioned(t) && r in db.Rows(t)
    ensures View(Patched(db, t, r.id, f, v).db) == View(db) - Emitted(t, r) + Emitted(t, r.Set(f, v))
  {
    hide View, Emit, Valid, Swapped, SoleOwner, Patched;
    var r' := r.Set(f, v);
    PatchedRows(db, t, r, f, v);
    SoleOwnerInValid(db, t, r);
    SwapView(db, Patched(db, t, r.id, f, v).db, t, r, {r'});
    assert EmittedBy(t, {r'}) == Emitted(t, r');
  }
}
