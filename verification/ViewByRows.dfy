/**
 The view spelled out: for every kind of resource, which rows make a sync show which
 grants, with the entitlements and ids written as the connector writes them.
 */
module ViewByRows {
  import opened Collections
  import opened Salesforce
  import opened Access

  /** The entitlement ids of the kinds that can be granted. */
  lemma IdsAreSpelled(resource: Id, slug: string)
    ensures Entitlement(Group, resource, slug).EntitlementId() == "group:" + (resource + ":" + slug)
    ensures Entitlement(PermissionSet, resource, slug).EntitlementId() == "permission:" + (resource + ":" + slug)
    ensures Entitlement(PermissionSetGroup, resource, slug).EntitlementId()
            == "permission_set_group:" + (resource + ":" + slug)
    ensures Entitlement(Profile, resource, slug).EntitlementId() == "profile:" + (resource + ":" + slug)
    ensures Entitlement(UserRole, resource, slug).EntitlementId() == "role:" + (resource + ":" + slug)
    ensures Entitlement(Territory, resource, slug).EntitlementId() == "territory:" + (resource + ":" + slug)
  {
  }

  /** A membership shows its member as a user or as a group, by the id's prefix; other members are not shown. */
  lemma GroupView(db: Db, group: Id, member: Id)
    requires group != ""
    ensures Grant(Entitlement(Group, group, "member"), Principal(User, member), []) in View(db) <==>
              "005" <= member
              && exists r :: r in db.Rows(GroupMembers) && r.Text(GroupId) == group && r.Text(UserOrGroupId) == member
    ensures Grant(Entitlement(Group, group, "member"), Principal(Group, member), []) in View(db) <==>
              "00G" <= member
              && exists r :: r in db.Rows(GroupMembers) && r.Text(GroupId) == group && r.Text(UserOrGroupId) == member
    ensures forall g :: g in View(db) && g.ent.kind == Group ==>
              g.ent.slug == "member" && (g.principal.kind == User || g.principal.kind == Group) && g.expands == []
  {
    var user := Grant(Entitlement(Group, group, "member"), Principal(User, member), []);
    var nested := Grant(Entitlement(Group, group, "member"), Principal(Group, member), []);
    forall t, r, g | g in Emit(t, r) && g.ent.kind == Group
      ensures t == GroupMembers && GroupRow(r, g)
    {
      EmittedToGroup(t, r, g);
    }
    if r :| r in db.Rows(GroupMembers) && r.Text(GroupId) == group && r.Text(UserOrGroupId) == member {
      assert "005" <= member ==> user in Emit(GroupMembers, r) by { MemberShown(r); }
      assert "00G" <= member ==> nested in Emit(GroupMembers, r) by { MemberShown(r); }
    }
    hide Emit;
  }

  /** What a row makes of a group's grant. */
  predicate GroupRow(r: Row, g: Grant) {
    && g.ent == Entitlement(Group, r.Text(GroupId), "member") && g.expands == []
    && g.principal.id == r.Text(UserOrGroupId)
    && ((g.principal.kind == User && "005" <= r.Text(UserOrGroupId))
        || (g.principal.kind == Group && "00G" <= r.Text(UserOrGroupId)))
  }

  lemma EmittedToGroup(t: Table, r: Row, g: Grant)
    requires g in Emit(t, r) && g.ent.kind == Group
    ensures t == GroupMembers && GroupRow(r, g)
  {
  }

  lemma MemberShown(r: Row)
    requires r.Text(GroupId) != ""
    ensures var member := r.Text(UserOrGroupId);
            && ("005" <= member ==>
                  Grant(Entitlement(Group, r.Text(GroupId), "member"), Principal(User, member), [])
                  in Emit(GroupMembers, r))
            && ("00G" <= member ==>
                  Grant(Entitlement(Group, r.Text(GroupId), "member"), Principal(Group, member), [])
                  in Emit(GroupMembers, r))
  {
    var member := r.Text(UserOrGroupId);
    assert "005" <= member ==> !("00G" <= member) by {
      if "005" <= member { assert member[2] == '5'; }
    }
  }

  function MemberId(psg: Id): string {
    "permission_set_group:" + (psg + ":member")
  }

  lemma MemberIdIsBuilt(psg: Id)
    ensures MemberEntitlementId(psg) == MemberId(psg)
  {
    assert MemberEntitlementId(psg) == "permission_set_group" + [':'] + (psg + [':'] + "member");
    assert "permission_set_group" + [':'] == "permission_set_group:";
    assert psg + [':'] + "member" == psg + ":member";
  }

  /** A permission set shows its assignees, and the permission set groups that contain it with their expansion. */
  lemma PermissionSetView(db: Db, permissionSet: Id, id: Id)
    requires permissionSet != ""
    ensures Grant(Entitlement(PermissionSet, permissionSet, "assigned"), Principal(User, id), []) in View(db) <==>
              exists r :: r in db.Rows(Assignments) && r.Text(PermissionSetId) == permissionSet
                          && r.Text(AssigneeId) == id
    ensures Grant(Entitlement(PermissionSet, permissionSet, "assigned"), Principal(PermissionSetGroup, id),
                  [MemberId(id)]) in View(db) <==>
              exists r :: r in db.Rows(Components) && r.Text(PermissionSetId) == permissionSet
                          && r.Text(PermissionSetGroupId) == id
  {
    hide Emit, MemberId;
    forall t, r, g | g in Emit(t, r) && g.ent.kind == PermissionSet
      ensures PermissionSetRow(t, r, g)
    {
      EmittedToPermissionSet(t, r, g);
    }
    if r :| r in db.Rows(Assignments) && r.Text(PermissionSetId) == permissionSet && r.Text(AssigneeId) == id {
      RowShowsPermissionSet(Assignments, r);
    }
    if r :| r in db.Rows(Components) && r.Text(PermissionSetId) == permissionSet && r.Text(PermissionSetGroupId) == id {
      RowShowsPermissionSet(Components, r);
    }
  }

  /** It shows nothing else. */
  lemma PermissionSetShowsNoMore(db: Db, g: Grant)
    requires g in View(db) && g.ent.kind == PermissionSet
    ensures g.ent.slug == "assigned"
    ensures || (g.principal.kind == User && g.expands == [])
            || (g.principal.kind == PermissionSetGroup && g.expands == [MemberId(g.principal.id)])
  {
    hide Emit, MemberId;
    var t, r :| r in db.Rows(t) && g in Emit(t, r);
    EmittedToPermissionSet(t, r, g);
  }

  predicate PermissionSetRow(t: Table, r: Row, g: Grant) {
    && g.ent == Entitlement(PermissionSet, r.Text(PermissionSetId), "assigned")
    && (|| (t == Assignments && g.principal == Principal(User, r.Text(AssigneeId)) && g.expands == [])
        || (t == Components && g.principal == Principal(PermissionSetGroup, r.Text(PermissionSetGroupId))
            && g.expands == [MemberId(r.Text(PermissionSetGroupId))]))
  }

  lemma EmittedToPermissionSet(t: Table, r: Row, g: Grant)
    requires g in Emit(t, r) && g.ent.kind == PermissionSet
    ensures PermissionSetRow(t, r, g)
  {
    MemberIdIsBuilt(r.Text(PermissionSetGroupId));
    hide MemberEntitlementId, MemberId;
  }

  ghost predicate PermissionSetShown(t: Table, r: Row) {
    var ent := Entitlement(PermissionSet, r.Text(PermissionSetId), "assigned");
    && (t == Assignments && ent.resource != "" ==>
          Grant(ent, Principal(User, r.Text(AssigneeId)), []) in Emit(t, r))
    && (t == Components && ent.resource != "" ==>
          Grant(ent, Principal(PermissionSetGroup, r.Text(PermissionSetGroupId)),
                [MemberId(r.Text(PermissionSetGroupId))]) in Emit(t, r))
  }

  lemma RowShowsPermissionSet(t: Table, r: Row)
    ensures PermissionSetShown(t, r)
  {
    MemberIdIsBuilt(r.Text(PermissionSetGroupId));
    hide MemberEntitlementId, MemberId;
  }

  /** A permission set group shows its assignees as members. */
  lemma PermissionSetGroupView(db: Db, psg: Id, user: Id)
    requires psg != ""
    ensures Grant(Entitlement(PermissionSetGroup, psg, "member"), Principal(User, user), []) in View(db) <==>
              exists r :: r in db.Rows(Assignments) && r.Text(PermissionSetGroupId) == psg && r.Text(AssigneeId) == user
    ensures forall g :: g in View(db) && g.ent.kind == PermissionSetGroup ==>
              g.ent.slug == "member" && g.principal.kind == User && g.expands == []
  {
    var member := Grant(Entitlement(PermissionSetGroup, psg, "member"), Principal(User, user), []);
    forall t, r, g | g in Emit(t, r) && g.ent.kind == PermissionSetGroup
      ensures t == Assignments && g == Grant(Entitlement(PermissionSetGroup, r.Text(PermissionSetGroupId), "member"),
                                             Principal(User, r.Text(AssigneeId)), [])
    {
      EmittedToPermissionSetGroup(t, r, g);
    }
    if r :| r in db.Rows(Assignments) && r.Text(PermissionSetGroupId) == psg && r.Text(AssigneeId) == user {
      assert member in Emit(Assignments, r);
    }
    hide Emit;
  }

  lemma EmittedToPermissionSetGroup(t: Table, r: Row, g: Grant)
    requires g in Emit(t, r) && g.ent.kind == PermissionSetGroup
    ensures t == Assignments && g == Grant(Entitlement(PermissionSetGroup, r.Text(PermissionSetGroupId), "member"),
                                           Principal(User, r.Text(AssigneeId)), [])
  {
  }

  /** Profiles and roles show the standard users whose records name them. */
  lemma UserFieldView(db: Db, id: Id, user: Id)
    requires id != ""
    ensures Grant(Entitlement(Profile, id, "assigned"), Principal(User, user), []) in View(db) <==>
              exists r :: r in db.Rows(Users) && r.id == user && r.Text(UserType) == "Standard"
                          && r.Text(ProfileId) == id
    ensures Grant(Entitlement(UserRole, id, "assigned"), Principal(User, user), []) in View(db) <==>
              exists r :: r in db.Rows(Users) && r.id == user && r.Text(UserType) == "Standard"
                          && r.Text(UserRoleId) == id
    ensures forall g :: g in View(db) && (g.ent.kind == Profile || g.ent.kind == UserRole) ==>
              g.ent.slug == "assigned" && g.principal.kind == User && g.expands == []
  {
    hide Emit;
    var profile := Grant(Entitlement(Profile, id, "assigned"), Principal(User, user), []);
    var role := Grant(Entitlement(UserRole, id, "assigned"), Principal(User, user), []);
    forall t, r, g | g in Emit(t, r) && (g.ent.kind == Profile || g.ent.kind == UserRole)
      ensures t == Users && UserRow(r, g)
    {
      EmittedToUserField(t, r, g);
    }
    if r :| r in db.Rows(Users) && r.id == user && r.Text(UserType) == "Standard" && r.Text(ProfileId) == id {
      assert profile in Emit(Users, r) by { RowShowsUserFields(r); }
    }
    if r :| r in db.Rows(Users) && r.id == user && r.Text(UserType) == "Standard" && r.Text(UserRoleId) == id {
      assert role in Emit(Users, r) by { RowShowsUserFields(r); }
    }
  }

  lemma RowShowsUserFields(r: Row)
    requires r.Text(UserType) == "Standard"
    ensures r.Text(ProfileId) != "" ==>
              Grant(Entitlement(Profile, r.Text(ProfileId), "assigned"), Principal(User, r.id), []) in Emit(Users, r)
    ensures r.Text(UserRoleId) != "" ==>
              Grant(Entitlement(UserRole, r.Text(UserRoleId), "assigned"), Principal(User, r.id), []) in Emit(Users, r)
  {
  }

  predicate UserRow(r: Row, g: Grant) {
    && r.Text(UserType) == "Standard" && g.principal == Principal(User, r.id) && g.expands == []
    && (g.ent == Entitlement(Profile, r.Text(ProfileId), "assigned")
        || g.ent == Entitlement(UserRole, r.Text(UserRoleId), "assigned"))
  }

  lemma EmittedToUserField(t: Table, r: Row, g: Grant)
    requires g in Emit(t, r) && (g.ent.kind == Profile || g.ent.kind == UserRole)
    ensures t == Users && UserRow(r, g)
  {
  }

  /** A territory shows its members, and the roles that are not empty. */
  lemma TerritoryView(db: Db, territory: Id, user: Id, role: string)
    requires territory != ""
    ensures Grant(Entitlement(Territory, territory, "member"), Principal(User, user), []) in View(db) <==>
              exists r :: r in db.Rows(Associations) && r.Text(Territory2Id) == territory && r.Text(UserId) == user
    ensures Grant(Entitlement(Territory, territory, "role:" + role), Principal(User, user), []) in View(db) <==>
              role != "" && exists r :: r in db.Rows(Associations) && r.Text(Territory2Id) == territory
                                        && r.Text(UserId) == user && r.Text(RoleInTerritory2) == role
    ensures forall g :: g in View(db) && g.ent.kind == Territory ==>
              (g.ent.slug == "member" || "role:" < g.ent.slug) && g.principal.kind == User && g.expands == []
  {
    var member := Grant(Entitlement(Territory, territory, "member"), Principal(User, user), []);
    var held := Grant(Entitlement(Territory, territory, "role:" + role), Principal(User, user), []);
    forall t, r, g | g in Emit(t, r) && g.ent.kind == Territory
      ensures t == Associations && TerritoryRow(r, g)
    {
      EmittedToTerritory(t, r, g);
    }
    if r :| r in db.Rows(Associations) && r.Text(Territory2Id) == territory && r.Text(UserId) == user {
      assert member in Emit(Associations, r);
    }
    if r :| role != "" && r in db.Rows(Associations) && r.Text(Territory2Id) == territory && r.Text(UserId) == user
            && r.Text(RoleInTerritory2) == role {
      assert held in Emit(Associations, r);
    }
    hide Emit;
    assert ("role:" + role)[0] == 'r' && "member"[0] == 'm';
    forall other | "role:" + role == "role:" + other ensures role == other {
      assert ("role:" + role)[5..] == role && ("role:" + other)[5..] == other;
    }
  }

  predicate TerritoryRow(r: Row, g: Grant) {
    && g.ent.kind == Territory && g.ent.resource == r.Text(Territory2Id)
    && g.principal == Principal(User, r.Text(UserId)) && g.expands == []
    && (g.ent.slug == "member" || (r.Text(RoleInTerritory2) != "" && g.ent.slug == "role:" + r.Text(RoleInTerritory2)))
  }

  lemma EmittedToTerritory(t: Table, r: Row, g: Grant)
    requires g in Emit(t, r) && g.ent.kind == Territory
    ensures t == Associations && TerritoryRow(r, g)
  {
  }

  /** No other kind of grant is shown, and none for a resource without an id. */
  lemma NothingElseIsShown(db: Db, g: Grant)
    requires g in View(db)
    ensures g.ent.kind != User && g.ent.resource != ""
  {
    var t, r :| r in db.Rows(t) && g in Emit(t, r);
    EmittedKinds(t, r, g);
  }

  lemma EmittedKinds(t: Table, r: Row, g: Grant)
    requires g in Emit(t, r)
    ensures g.ent.kind != User && g.ent.resource != ""
  {
  }
}
