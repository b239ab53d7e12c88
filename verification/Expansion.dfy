/**
 Effective access: a grant to a permission set group is expanded through the entitlement
 ids it carries, to everybody who holds one of those entitlements.
 */
module Expansion {
  import opened Collections
  import opened Strings
  import opened Salesforce
  import opened Access
  import TerritoryEntitlements

  /** A user holds an entitlement by a grant, or by expanding grants up to a depth. */
  ghost predicate HasAccess(view: iset<Grant>, depth: nat, entitlementId: string, user: Id) {
    || (exists g :: g in view && g.ent.EntitlementId() == entitlementId && g.principal == Principal(User, user))
    || (depth > 0 && exists g, e :: g in view && g.ent.EntitlementId() == entitlementId && e in g.expands
                                    && HasAccess(view, depth - 1, e, user))
  }

  ghost predicate Assigned(db: Db, permissionSet: Id, user: Id) {
    exists r :: r in db.Rows(Assignments) && r.Text(PermissionSetId) == permissionSet && r.Text(AssigneeId) == user
  }

  ghost predicate MemberOf(db: Db, psg: Id, user: Id) {
    exists r :: r in db.Rows(Assignments) && r.Text(PermissionSetGroupId) == psg && r.Text(AssigneeId) == user
  }

  predicate ComponentOf(r: Row, psg: Id, permissionSet: Id) {
    r.Text(PermissionSetGroupId) == psg && r.Text(PermissionSetId) == permissionSet
  }

  ghost predicate Contains(db: Db, psg: Id, permissionSet: Id) {
    exists r :: r in db.Rows(Components) && ComponentOf(r, psg, permissionSet)
  }

  /** Entitlement ids of different types differ; within a type the rest of the id decides. */
  lemma IdsSeparateTypes(a: Entitlement, b: Entitlement)
    requires a.EntitlementId() == b.EntitlementId()
    ensures a.kind == b.kind && a.resource + [':'] + a.slug == b.resource + [':'] + b.slug
  {
    TerritoryEntitlements.NamesHaveNoColon(a.kind);
    TerritoryEntitlements.NamesHaveNoColon(b.kind);
    JoinInjective(a.kind.Name(), a.resource + [':'] + a.slug, b.kind.Name(), b.resource + [':'] + b.slug, ':');
    NamesDiffer(a.kind, b.kind);
  }

  lemma NamesDiffer(a: ResourceType, b: ResourceType)
    ensures a.Name() == b.Name() ==> a == b
  {
    assert a.Name()[0] == b.Name()[0] || a.Name() != b.Name();
    assert |a.Name()| == |b.Name()| || a.Name() != b.Name();
  }

  /** What a grant of a kind looks like. */
  predicate WellShaped(g: Grant) {
    match g.ent.kind
    case PermissionSetGroup => g.ent.slug == MEMBER && g.principal.kind == User && g.expands == []
    case PermissionSet =>
      g.ent.slug == ASSIGNED
      && if g.principal.kind == User then g.expands == [] else g == ComponentGrant(g.ent.resource, g.principal.id)
    case _ => true
  }

  lemma EmittedShape(t: Table, r: Row, g: Grant)
    requires g in Emit(t, r)
    ensures WellShaped(g)
  {
    match t
    case GroupMembers =>
    case Assignments =>
    case Components =>
    case Users =>
    case Associations =>
    case _ =>
  }

  lemma SlugsInView(db: Db, g: Grant)
    requires g in View(db)
    ensures WellShaped(g)
  {
    hide Emit, WellShaped;
    var t, r :| r in db.Rows(t) && g in Emit(t, r);
    EmittedShape(t, r, g);
  }

  /**
   The id built by hand matches the member entitlement of the one group it names, and no
   other entitlement of the whole sync, whatever characters the ids hold.
   */
  lemma HandBuiltIdIsTheMemberEntitlement(db: Db, psg: Id, g: Grant)
    requires g in View(db)
    ensures MemberEntitlementId(psg) == Entitlement(PermissionSetGroup, psg, MEMBER).EntitlementId()
    ensures g.ent.EntitlementId() == MemberEntitlementId(psg) <==> g.ent == Entitlement(PermissionSetGroup, psg, MEMBER)
  {
    hide View, Entitlement.EntitlementId;
    assert MemberEntitlementId(psg) == Entitlement(PermissionSetGroup, psg, MEMBER).EntitlementId() by {
      HandBuiltId(psg);
    }
    if g.ent.EntitlementId() == MemberEntitlementId(psg) {
      IdsSeparateTypes(g.ent, Entitlement(PermissionSetGroup, psg, MEMBER));
      SlugsInView(db, g);
      assert g.ent.resource + [':'] + MEMBER == g.ent.resource + ([':'] + MEMBER);
      assert psg + [':'] + MEMBER == psg + ([':'] + MEMBER);
      SameSuffix(g.ent.resource, psg, [':'] + MEMBER);
    }
  }

  lemma HandBuiltId(psg: Id)
    ensures MemberEntitlementId(psg) == Entitlement(PermissionSetGroup, psg, MEMBER).EntitlementId()
  {
  }

  lemma SameSuffix(a: string, b: string, suffix: string)
    requires a + suffix == b + suffix
    ensures a == b
  {
    assert |a| == |b|;
    assert a == (a + suffix)[..|a|] && b == (b + suffix)[..|b|];
  }

  /** A permission set's own entitlement id, too, is matched by its own grants only. */
  lemma PermissionIdIsItsOwn(db: Db, permissionSet: Id, g: Grant)
    requires g in View(db)
    ensures g.ent.EntitlementId() == Entitlement(PermissionSet, permissionSet, ASSIGNED).EntitlementId()
            <==> g.ent == Entitlement(PermissionSet, permissionSet, ASSIGNED)
  {
    hide View, Entitlement.EntitlementId;
    var ent := Entitlement(PermissionSet, permissionSet, ASSIGNED);
    if g.ent.EntitlementId() == ent.EntitlementId() {
      IdsSeparateTypes(g.ent, ent);
      SlugsInView(db, g);
      assert g.ent.resource + [':'] + ASSIGNED == g.ent.resource + ([':'] + ASSIGNED);
      assert permissionSet + [':'] + ASSIGNED == permissionSet + ([':'] + ASSIGNED);
      SameSuffix(g.ent.resource, permissionSet, [':'] + ASSIGNED);
    }
  }

  lemma UserGrantsInView(db: Db, resource: Id, user: Id)
    requires resource != ""
    ensures UserGrant(PermissionSet, resource, ASSIGNED, user) in View(db) <==> Assigned(db, resource, user)
    ensures UserGrant(PermissionSetGroup, resource, MEMBER, user) in View(db) <==> MemberOf(db, resource, user)
  {
    var direct := UserGrant(PermissionSet, resource, ASSIGNED, user);
    var member := UserGrant(PermissionSetGroup, resource, MEMBER, user);
    if r :| r in db.Rows(Assignments) && r.Text(PermissionSetId) == resource && r.Text(AssigneeId) == user {
      assert direct in Emit(Assignments, r);
    }
    if r :| r in db.Rows(Assignments) && r.Text(PermissionSetGroupId) == resource && r.Text(AssigneeId) == user {
      assert member in Emit(Assignments, r);
    }
    hide Emit;
    if direct in View(db) {
      var t, r :| r in db.Rows(t) && direct in Emit(t, r);
      EmitTraces(t, r, direct);
    }
    if member in View(db) {
      var t, r :| r in db.Rows(t) && member in Emit(t, r);
      EmitTraces(t, r, member);
    }
  }

  lemma ComponentGrantsInView(db: Db, permissionSet: Id, psg: Id)
    requires permissionSet != ""
    ensures ComponentGrant(permissionSet, psg) in View(db) <==> Contains(db, psg, permissionSet)
  {
    var g := ComponentGrant(permissionSet, psg);
    if r :| r in db.Rows(Components) && ComponentOf(r, psg, permissionSet) {
      assert g in Emit(Components, r);
    }
    if g in View(db) {
      var t, r :| r in db.Rows(t) && g in Emit(t, r);
      ComponentSource(t, r, g);
    }
  }

  lemma ComponentSource(t: Table, r: Row, g: Grant)
    requires g in Emit(t, r) && g.ent.kind == PermissionSet && g.principal.kind == PermissionSetGroup
    ensures t == Components && ComponentOf(r, g.principal.id, g.ent.resource)
  {
  }

  /** The member entitlement of a group is held by its members, at every depth. */
  lemma MemberAccess(db: Db, psg: Id, depth: nat, user: Id)
    ensures HasAccess(View(db), depth, MemberEntitlementId(psg), user) <==> psg != "" && MemberOf(db, psg, user)
  {
    hide View, MemberOf, MemberEntitlementId, Entitlement.EntitlementId;
    var view, ent := View(db), Entitlement(PermissionSetGroup, psg, MEMBER);
    forall g | g in view ensures g.ent.EntitlementId() == MemberEntitlementId(psg) <==> g.ent == ent {
      HandBuiltIdIsTheMemberEntitlement(db, psg, g);
    }
    forall g | g in view && g.ent == ent ensures g.expands == [] && g.principal.kind == User && g.ent.resource != "" {
      SlugsInView(db, g);
      NamedResources(db, g);
    }
    if psg != "" {
      UserGrantsInView(db, psg, user);
      var own := UserGrant(PermissionSetGroup, psg, MEMBER, user);
      assert own.ent == ent && own.principal == Principal(User, user);
    }
  }

  lemma NamedResources(db: Db, g: Grant)
    requires g in View(db)
    ensures g.ent.resource != ""
  {
    var t, r :| r in db.Rows(t) && g in Emit(t, r);
  }

  /**
   Expanding the synced grants, to any depth, gives a permission set to exactly the users
   assigned directly and the members of the groups that contain it.
   */
  lemma ExpansionPreservesAccess(db: Db, permissionSet: Id, depth: nat, user: Id)
    requires permissionSet != "" && depth > 0
    ensures HasAccess(View(db), depth, Entitlement(PermissionSet, permissionSet, ASSIGNED).EntitlementId(), user) <==>
              || Assigned(db, permissionSet, user)
              || exists psg :: psg != "" && Contains(db, psg, permissionSet) && MemberOf(db, psg, user)
  {
    hide View, MemberOf, Assigned, Contains, MemberEntitlementId, Entitlement.EntitlementId;
    var view, ent := View(db), Entitlement(PermissionSet, permissionSet, ASSIGNED);
    var id := ent.EntitlementId();
    forall g | g in view ensures g.ent.EntitlementId() == id <==> g.ent == ent {
      PermissionIdIsItsOwn(db, permissionSet, g);
    }
    UserGrantsInView(db, permissionSet, user);
    var direct := UserGrant(PermissionSet, permissionSet, ASSIGNED, user);
    assert direct.ent == ent;
    if psg :| psg != "" && Contains(db, psg, permissionSet) && MemberOf(db, psg, user) {
      ComponentGrantsInView(db, permissionSet, psg);
      MemberAccess(db, psg, depth - 1, user);
      var g := ComponentGrant(permissionSet, psg);
      assert g in view && g.ent == ent && MemberEntitlementId(psg) in g.expands;
    }
    if HasAccess(view, depth, id, user) {
      if g :| g in view && g.ent.EntitlementId() == id && g.principal == Principal(User, user) {
        SlugsInView(db, g);
        assert g == direct;
      } else {
        var g, e :| g in view && g.ent.EntitlementId() == id && e in g.expands && HasAccess(view, depth - 1, e, user);
        SlugsInView(db, g);
        var psg := g.principal.id;
        assert g == ComponentGrant(permissionSet, psg) && e == MemberEntitlementId(psg);
        ComponentGrantsInView(db, permissionSet, psg);
        MemberAccess(db, psg, depth - 1, user);
      }
    }
  }

  // ---------------------------------------------------------------- deleted components

  /** A component that is not marked as deleted. */
  predicate IsLive(r: Row) {
    r.Bool(IsDeleted) != Some(true)
  }

  ghost predicate LiveContains(db: Db, psg: Id, permissionSet: Id) {
    exists r :: r in db.Rows(Components) && ComponentOf(r, psg, permissionSet) && IsLive(r)
  }

  /** The access that Salesforce grants: deleted components give none. */
  ghost predicate Live(db: Db, permissionSet: Id, user: Id) {
    || Assigned(db, permissionSet, user)
    || exists psg :: psg != "" && LiveContains(db, psg, permissionSet) && MemberOf(db, psg, user)
  }

  /** A deleted component through which the user would have the permission set. */
  predicate Lingers(db: Db, r: Row, permissionSet: Id) {
    && r in db.Rows(Components) && r.Text(PermissionSetId) == permissionSet
    && r.Text(PermissionSetGroupId) != "" && !IsLive(r)
  }

  /**
   The sync emits deleted components like others, so expanded access is the live access if
   and only if every member of a group that a deleted component names has live access anyway.
   */
  lemma AccessIsLiveIff(db: Db, permissionSet: Id, depth: nat, user: Id)
    requires permissionSet != "" && depth > 0
    ensures (HasAccess(View(db), depth, Entitlement(PermissionSet, permissionSet, ASSIGNED).EntitlementId(), user)
             <==> Live(db, permissionSet, user))
       <==> forall r :: Lingers(db, r, permissionSet) && MemberOf(db, r.Text(PermissionSetGroupId), user) ==>
                        Live(db, permissionSet, user)
  {
    hide View, HasAccess, MemberOf, Assigned, IsLive, Entitlement.EntitlementId;
    ExpansionPreservesAccess(db, permissionSet, depth, user);
    forall psg ensures LiveContains(db, psg, permissionSet) ==> Contains(db, psg, permissionSet) {
    }
    if psg :| psg != "" && Contains(db, psg, permissionSet) && MemberOf(db, psg, user) {
      var r :| r in db.Rows(Components) && ComponentOf(r, psg, permissionSet);
      assert IsLive(r) ==> ComponentOf(r, psg, permissionSet) && LiveContains(db, psg, permissionSet);
      assert !IsLive(r) ==> Lingers(db, r, permissionSet);
    }
    if r :| Lingers(db, r, permissionSet) && MemberOf(db, r.Text(PermissionSetGroupId), user) {
      assert Contains(db, r.Text(PermissionSetGroupId), permissionSet);
    }
  }

  /** One member of one group, and a deleted component that names the group. */
  function Leftover(permissionSet: Id, psg: Id, user: Id): Db {
    Db(map[Assignments := [Row("a", map[AssigneeId := Text(user), PermissionSetGroupId := Text(psg)])],
           Components := [Row("c", map[PermissionSetGroupId := Text(psg), PermissionSetId := Text(permissionSet),
                                       IsDeleted := Flag(true)])]])
  }

  /** There the synced grants give the user a permission set that no live component gives. */
  lemma DeletedComponentGivesAccess(permissionSet: Id, psg: Id, user: Id)
    requires permissionSet != "" && psg != ""
    ensures var db := Leftover(permissionSet, psg, user);
            && Valid(db)
            && HasAccess(View(db), 1, Entitlement(PermissionSet, permissionSet, ASSIGNED).EntitlementId(), user)
            && !Live(db, permissionSet, user)
  {
    hide View, HasAccess, Entitlement.EntitlementId;
    var db := Leftover(permissionSet, psg, user);
    var member := db.Rows(Assignments)[0];
    var component := db.Rows(Components)[0];
    assert component in db.Rows(Components) && member in db.Rows(Assignments);
    assert Contains(db, psg, permissionSet) && MemberOf(db, psg, user);
    ExpansionPreservesAccess(db, permissionSet, 1, user);
    assert forall r :: r in db.Rows(Components) ==> !IsLive(r);
    assert forall r :: r in db.Rows(Assignments) ==> r.Text(PermissionSetId) == "";
  }
}
