/**
 Rows that link a principal to a resource: group memberships, and permission-set and
 permission-set-group assignments, which share one table.
 */
module Links {
  import opened Collections
  import opened Salesforce
  import opened Access

  datatype Link = Membership | Direct | ByGroup

  function LinkTable(link: Link): Table {
    if link.Membership? then GroupMembers else Assignments
  }

  function CondsOf(link: Link, resource: Id, principal: Id): seq<Cond> {
    match link
    case Membership => [Eq(GroupId, resource), Eq(UserOrGroupId, principal)]
    case Direct => [Eq(AssigneeId, principal), Eq(PermissionSetId, resource)]
    case ByGroup => [Eq(AssigneeId, principal), Eq(PermissionSetGroupId, resource)]
  }

  function FieldsOf(link: Link, resource: Id, principal: Id): map<Field, Value> {
    match link
    case Membership => map[GroupId := Text(resource), UserOrGroupId := Text(principal)]
    case Direct => map[AssigneeId := Text(principal), PermissionSetId := Text(resource)]
    case ByGroup => map[AssigneeId := Text(principal), PermissionSetGroupId := Text(resource)]
  }

  /** The grants a link shows; none for a group member that is neither user nor group. */
  function GrantsOf(link: Link, resource: Id, principal: Id): seq<Grant> {
    match link
    case Membership => GroupGrant(resource, principal)
    case Direct => [UserGrant(PermissionSet, resource, ASSIGNED, principal)]
    case ByGroup => [UserGrant(PermissionSetGroup, resource, MEMBER, principal)]
  }

  ghost function Shown(link: Link, resource: Id, principal: Id): iset<Grant> {
    iset g | g in GrantsOf(link, resource, principal)
  }

  function FindLink(db: Db, link: Link, resource: Id, principal: Id): Option<Row> {
    First(Select(db, LinkTable(link), CondsOf(link, resource, principal)))
  }

  /** The row carries the link. */
  predicate Carries(link: Link, r: Row, resource: Id, principal: Id) {
    match link
    case Membership => r.Text(GroupId) == resource && r.Text(UserOrGroupId) == principal
    case Direct => r.Text(AssigneeId) == principal && r.Text(PermissionSetId) == resource
    case ByGroup => r.Text(AssigneeId) == principal && r.Text(PermissionSetGroupId) == resource
  }

  lemma MatchesIsLinks(link: Link, r: Row, resource: Id, principal: Id)
    ensures Matches(r, CondsOf(link, resource, principal)) <==> Carries(link, r, resource, principal)
  {
    var conds := CondsOf(link, resource, principal);
    assert Matches(r, conds) <==> Holds(conds[0], r) && Holds(conds[1], r);
  }

  lemma FoundLink(db: Db, link: Link, resource: Id, principal: Id)
    ensures var found := FindLink(db, link, resource, principal);
            && (found.Some? ==> found.value in db.Rows(LinkTable(link))
                                && Carries(link, found.value, resource, principal))
            && (found.None? ==> forall r :: r in db.Rows(LinkTable(link)) ==> !Carries(link, r, resource, principal))
  {
    hide Matches, Carries, CondsOf;
    FirstMatch(db, LinkTable(link), CondsOf(link, resource, principal));
    forall r { MatchesIsLinks(link, r, resource, principal); }
  }

  lemma LinkEmits(link: Link, r: Row, resource: Id, principal: Id)
    requires Carries(link, r, resource, principal) && resource != ""
    ensures forall g :: g in GrantsOf(link, resource, principal) ==> g in Emit(LinkTable(link), r)
    ensures link != Membership ==> OneSided(r) ==> Emit(LinkTable(link), r) == GrantsOf(link, resource, principal)
    ensures link == Membership ==> Emit(LinkTable(link), r) == GrantsOf(link, resource, principal)
  {
  }

  lemma EmitterLinks(link: Link, t: Table, r: Row, resource: Id, principal: Id, g: Grant)
    requires g in Emit(t, r) && g in GrantsOf(link, resource, principal)
    ensures t == LinkTable(link) && Carries(link, r, resource, principal)
  {
    hide Emit;
    EmitTraces(t, r, g);
  }

  lemma NewLink(link: Link, id: Id, resource: Id, principal: Id)
    requires resource != ""
    ensures var r := Row(id, FieldsOf(link, resource, principal));
            && Carries(link, r, resource, principal) && OneSided(r)
            && forall s :: Conflict(LinkTable(link), r, s) <==> Carries(link, s, resource, principal)
  {
  }

  /** Creating a link adds its grants to the view, whether or not it was there before. */
  lemma CreatingAdds(db: Db, link: Link, resource: Id, principal: Id, choice: Choice)
    requires Valid(db) && Fresh(db, LinkTable(link), choice) && resource != ""
    ensures var reply := Created(db, LinkTable(link), FieldsOf(link, resource, principal), choice);
            && Valid(reply.db)
            && View(reply.db) == View(db) + Shown(link, resource, principal)
            && (FindLink(db, link, resource, principal).None? ==> reply.result.Ok?)
            && (FindLink(db, link, resource, principal).Some? ==>
                  reply.db == db && (link.Membership? || reply.result == Err(Duplicate)))
            && (link.Membership? ==> reply.result.Ok?)
  {
    hide Valid, View, Conflict, Emit, Carries, FindLink, Created, FieldsOf, GrantsOf, OneSided;
    var r := Row(choice.id, FieldsOf(link, resource, principal));
    NewLink(link, choice.id, resource, principal);
    FoundLink(db, link, resource, principal);
    CreateCases(db, LinkTable(link), r.fields, choice);
    CreateKeepsValid(db, LinkTable(link), r.fields, choice);
    LinkEmits(link, r, resource, principal);
    InsertView(db, LinkTable(link), choice.at, r);
    var found := FindLink(db, link, resource, principal);
    if found.Some? {
      LinkEmits(link, found.value, resource, principal);
      forall g | g in Shown(link, resource, principal) ensures g in View(db) {
        ShownByRow(db, LinkTable(link), found.value, g);
      }
    }
  }

  lemma ShownByRow(db: Db, t: Table, r: Row, g: Grant)
    requires r in db.Rows(t) && g in Emit(t, r)
    ensures g in View(db)
  {
  }

  /** The read of a link finds a row exactly when the view shows the link. */
  lemma FindSeesLink(db: Db, link: Link, resource: Id, principal: Id)
    requires resource != "" && GrantsOf(link, resource, principal) != []
    ensures Shown(link, resource, principal) <= View(db) <==> FindLink(db, link, resource, principal).Some?
    ensures Shown(link, resource, principal) !! View(db) <==> FindLink(db, link, resource, principal).None?
  {
    hide Emit, Carries, FindLink, GrantsOf;
    FoundLink(db, link, resource, principal);
    var found := FindLink(db, link, resource, principal);
    var g0 := GrantsOf(link, resource, principal)[0];
    assert g0 in Shown(link, resource, principal);
    if found.Some? {
      LinkEmits(link, found.value, resource, principal);
      forall g | g in Shown(link, resource, principal) ensures g in View(db) {
        ShownByRow(db, LinkTable(link), found.value, g);
      }
    } else {
      forall g | g in Shown(link, resource, principal) ensures g !in View(db) {
        if t, r :| r in db.Rows(t) && g in Emit(t, r) {
          EmitterLinks(link, t, r, resource, principal, g);
        }
      }
    }
  }

  /** Deleting the found row takes exactly the link's grants out of the view. */
  lemma DeletingRemoves(db: Db, link: Link, resource: Id, principal: Id)
    requires Valid(db) && resource != ""
    ensures match FindLink(db, link, resource, principal)
            case Some(r) =>
              var reply := Deleted(db, LinkTable(link), r.id);
              && reply.result.Ok? && Valid(reply.db)
              && View(reply.db) == View(db) - Shown(link, resource, principal)
            case None => View(db) == View(db) - Shown(link, resource, principal)
  {
    hide View, Conflict, Emit, Carries, FindLink, GrantsOf, OneSided, UniqueRows;
    FoundLink(db, link, resource, principal);
    match FindLink(db, link, resource, principal)
    case Some(r) =>
      LinkEmits(link, r, resource, principal);
      DeleteView(db, LinkTable(link), r);
      DeleteKeepsValid(db, LinkTable(link), r.id);
    case None =>
      if GrantsOf(link, resource, principal) != [] {
        FindSeesLink(db, link, resource, principal);
      }
  }

  // ---------------------------------------------------------------- without the server's uniqueness

  lemma DeletedMembers(db: Db, t: Table, id: Id)
    ensures forall u, s {:trigger s in Deleted(db, t, id).db.Rows(u)} {:trigger s in db.Rows(u)} ::
              s in Deleted(db, t, id).db.Rows(u) <==> s in db.Rows(u) && !(u == t && s.id == id)
  {
    WithoutMembers(db.Rows(t), id);
  }

  /** In any database: what a deletion leaves is what the other rows show. */
  lemma DeletionLeavesOthers(db: Db, t: Table, id: Id, g: Grant)
    ensures g in View(Deleted(db, t, id).db) <==>
              exists u, s :: s in db.Rows(u) && !(u == t && s.id == id) && g in Emit(u, s)
  {
    hide Emit, Deleted;
    var after := Deleted(db, t, id).db;
    DeletedMembers(db, t, id);
    if u, s :| s in db.Rows(u) && !(u == t && s.id == id) && g in Emit(u, s) {
      assert s in after.Rows(u);
    }
    if g in View(after) {
      var u, s :| s in after.Rows(u) && g in Emit(u, s);
      assert s in db.Rows(u) && !(u == t && s.id == id);
    }
  }

  /**
   Whatever the database holds, revoking a link makes its grant disappear exactly when no
   second row carries the link.
   */
  lemma RevokeErasesIffSole(db: Db, link: Link, resource: Id, principal: Id, g: Grant)
    requires resource != "" && GrantsOf(link, resource, principal) == [g]
    requires FindLink(db, link, resource, principal).Some?
    ensures var r := FindLink(db, link, resource, principal).value;
            g !in View(Deleted(db, LinkTable(link), r.id).db) <==>
              forall s :: s in db.Rows(LinkTable(link)) && Carries(link, s, resource, principal) ==> s.id == r.id
  {
    hide View, Emit, Carries, FindLink, GrantsOf, Deleted;
    var r := FindLink(db, link, resource, principal).value;
    DeletionLeavesOthers(db, LinkTable(link), r.id, g);
    if g in View(Deleted(db, LinkTable(link), r.id).db) {
      var u, s :| s in db.Rows(u) && !(u == LinkTable(link) && s.id == r.id) && g in Emit(u, s);
      EmitterLinks(link, u, s, resource, principal, g);
      assert s in db.Rows(LinkTable(link)) && Carries(link, s, resource, principal) && s.id != r.id;
    } else if s :| s in db.Rows(LinkTable(link)) && Carries(link, s, resource, principal) && s.id != r.id {
      LinkEmits(link, s, resource, principal);
    }
  }

  /**
   The two kinds of assignment share a table.  A row that names both a permission set and
   a group is lost to both views: the direct grant outlives the group's revoke exactly
   when another row carries it.
   */
  lemma OtherSideSurvivesIff(db: Db, psg: Id, user: Id)
    requires psg != "" && FindLink(db, ByGroup, psg, user).Some?
    requires FindLink(db, ByGroup, psg, user).value.Text(PermissionSetId) != ""
    ensures var r := FindLink(db, ByGroup, psg, user).value;
            var other := r.Text(PermissionSetId);
            UserGrant(PermissionSet, other, ASSIGNED, user) in View(Deleted(db, Assignments, r.id).db) <==>
              exists s :: s in db.Rows(Assignments) && s.id != r.id && Carries(Direct, s, other, user)
  {
    hide View, Emit, Carries, FindLink, Deleted;
    var r := FindLink(db, ByGroup, psg, user).value;
    var other := r.Text(PermissionSetId);
    var g := UserGrant(PermissionSet, other, ASSIGNED, user);
    assert g in GrantsOf(Direct, other, user);
    DeletionLeavesOthers(db, Assignments, r.id, g);
    if g in View(Deleted(db, Assignments, r.id).db) {
      var u, s :| s in db.Rows(u) && !(u == Assignments && s.id == r.id) && g in Emit(u, s);
      EmitterLinks(Direct, u, s, other, user, g);
      assert s in db.Rows(Assignments) && s.id != r.id && Carries(Direct, s, other, user);
    } else if s :| s in db.Rows(Assignments) && s.id != r.id && Carries(Direct, s, other, user) {
      LinkEmits(Direct, s, other, user);
    }
  }
}
