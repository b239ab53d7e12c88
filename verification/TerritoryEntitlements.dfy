/** The entitlements offered on territories, and the way back from their ids. */
module TerritoryEntitlements {
  import opened Collections
  import opened Strings
  import opened Salesforce
  import opened Access
  import Territories
  import TerritoryProperties

  function NonEmpty(values: seq<string>): seq<string> {
    Filter(values, (v: string) => v != "")
  }

  function RoleSlugs(roles: seq<string>): seq<string> {
    FlatMap((role: string) => [ROLE_PREFIX + role], roles)
  }

  function StaticSlugs(values: seq<string>): seq<string> {
    [MEMBER] + RoleSlugs(NonEmpty(values))
  }

  /** The active values of the picklist behind an association's role. */
  const ROLE_VALUES: seq<Cond> :=
    [Eq(EntityName, "UserTerritory2Association"), Eq(ParticleName, "RoleInTerritory2"), IsTrue(IsActive)]

  /** The records of the first page of the query, which is all that is read. */
  function RoleRecords(db: Db, limit: nat): seq<Row> {
    var all := Select(db, PicklistValues, ROLE_VALUES);
    if |all| > limit then all[..limit] else all
  }

  function Values(records: seq<Row>): seq<string> {
    seq(|records|, i requires 0 <= i < |records| => records[i].Text(PicklistValue))
  }

  method GetTerritoryRoles(org: Org, limit: nat) returns (r: Result<seq<string>>)
    ensures r == Err(Unreachable) || r == Ok(NonEmpty(Values(RoleRecords(org.db, limit))))
  {
    var page := org.QueryPage(PicklistValues, ROLE_VALUES, limit);
    if page.Err? {
      return Err(page.error);
    }
    var records := page.value.0;
    var roles: seq<string> := [];
    for i := 0 to |records|
      invariant roles == NonEmpty(Values(records)[..i])
    {
      FilterStep(Values(records), (v: string) => v != "", i);
      var value := records[i].Text(PicklistValue);
      if value != "" {
        roles := roles + [value];
      }
    }
    assert Values(records)[..|records|] == Values(records);
    r := Ok(roles);
  }

  method StaticEntitlements(org: Org, limit: nat) returns (r: Result<seq<string>>)
    ensures r == Err(Unreachable) || r == Ok(StaticSlugs(Values(RoleRecords(org.db, limit))))
  {
    var fetched := GetTerritoryRoles(org, limit);
    if fetched.Err? {
      return Err(fetched.error);
    }
    var roles := fetched.value;
    var slugs := [MEMBER];
    for i := 0 to |roles|
      invariant slugs == [MEMBER] + RoleSlugs(roles[..i])
    {
      FlatMapStep((role: string) => [ROLE_PREFIX + role], roles, i);
      slugs := slugs + [ROLE_PREFIX + roles[i]];
    }
    assert roles[..|roles|] == roles;
    r := Ok(slugs);
  }

  lemma NamesHaveNoColon(kind: ResourceType)
    ensures ':' !in kind.Name()
  {
  }

  /** The slug comes back from an entitlement id exactly when the resource id holds no colon. */
  lemma ParseInvertsId(ent: Entitlement)
    ensures Territories.ParseEntitlementId(ent.EntitlementId()) == Some(ent.slug) <==> ':' !in ent.resource
  {
    var rest := ent.resource + [':'] + ent.slug;
    NamesHaveNoColon(ent.kind);
    CutJoin(ent.kind.Name(), rest, ':');
    CutJoin(ent.resource, ent.slug, ':');
    var (_, last) := Cut(rest, ':').value;
    assert SplitN(rest, ':', 2) == [Cut(rest, ':').value.0] + SplitN(last, ':', 1);
    assert SplitN(ent.EntitlementId(), ':', 3) == [ent.kind.Name()] + SplitN(rest, ':', 2);
  }

  /** An id is refused exactly when it has fewer than two colons; else the slug is all that follows the second. */
  lemma ParseMeans(id: string, a: string, b: string, c: string)
    ensures ':' !in a && ':' !in b && id == a + [':'] + (b + [':'] + c) ==>
              Territories.ParseEntitlementId(id) == Some(c)
    ensures Territories.ParseEntitlementId(id).None? <==>
              ':' !in id || (Cut(id, ':').Some? && ':' !in Cut(id, ':').value.1)
  {
    CutIff(id, ':');
    if Cut(id, ':').Some? {
      var (before, after) := Cut(id, ':').value;
      CutIff(after, ':');
      assert SplitN(id, ':', 3) == [before] + SplitN(after, ':', 2);
    }
    if ':' !in a && ':' !in b && id == a + [':'] + (b + [':'] + c) {
      CutJoin(a, b + [':'] + c, ':');
      CutJoin(b, c, ':');
      assert SplitN(b + [':'] + c, ':', 2) == [b] + SplitN(c, ':', 1);
    }
  }

  /** Every role name survives the prefix, whatever colons or prefixes it holds itself. */
  lemma RoleSlugRoundTrip(role: string)
    ensures Territories.RoleOf(ROLE_PREFIX + role) == role
    ensures ROLE_PREFIX + role != MEMBER
  {
    assert (ROLE_PREFIX + role)[|ROLE_PREFIX|..] == role;
    assert (ROLE_PREFIX + role)[0] == 'r' && MEMBER[0] == 'm';
  }

  /** A static slug is "member" or stands for exactly one non-empty picklist value. */
  lemma StaticSlugMeaning(values: seq<string>, slug: string)
    ensures slug in StaticSlugs(values) <==>
              slug == MEMBER || exists role :: role in values && role != "" && slug == ROLE_PREFIX + role
  {
    FilterMembers(values, (v: string) => v != "");
    FlatMapMembers((role: string) => [ROLE_PREFIX + role], NonEmpty(values));
    if role :| role in values && role != "" && slug == ROLE_PREFIX + role {
      assert role in NonEmpty(values) && slug in [ROLE_PREFIX + role];
    }
  }

  predicate IsRoleValue(r: Row) {
    && r.Text(EntityName) == "UserTerritory2Association" && r.Text(ParticleName) == "RoleInTerritory2"
    && r.Bool(IsActive) == Some(true)
  }

  /**
   Every offered role is an active value of the picklist; every active value is offered
   when the values fit on one page, and any page limit that is too small leaves records out.
   */
  lemma OfferedRolesAreActive(db: Db, limit: nat, role: string)
    requires role != ""
    ensures var offered := ROLE_PREFIX + role in StaticSlugs(Values(RoleRecords(db, limit)));
            var active := exists r :: r in db.Rows(PicklistValues) && IsRoleValue(r) && r.Text(PicklistValue) == role;
            && (offered <==> exists r :: r in RoleRecords(db, limit) && r.Text(PicklistValue) == role)
            && (offered ==> active)
            && (|Select(db, PicklistValues, ROLE_VALUES)| <= limit ==> (active ==> offered))
            && (|RoleRecords(db, limit)| < |Select(db, PicklistValues, ROLE_VALUES)| <==>
                  limit < |Select(db, PicklistValues, ROLE_VALUES)|)
  {
    var records := RoleRecords(db, limit);
    var slug := ROLE_PREFIX + role;
    StaticSlugMeaning(Values(records), slug);
    RoleSlugRoundTrip(role);
    SelectMembers(db, PicklistValues, ROLE_VALUES);
    forall r ensures Matches(r, ROLE_VALUES) <==> IsRoleValue(r) {
      assert Matches(r, ROLE_VALUES) <==>
               Holds(ROLE_VALUES[0], r) && Holds(ROLE_VALUES[1], r) && Holds(ROLE_VALUES[2], r);
    }
    assert (role in Values(records)) <==> exists r :: r in records && r.Text(PicklistValue) == role by {
      ValuesMembers(records, role);
    }
    assert slug in StaticSlugs(Values(records)) <==> role in Values(records) by {
      forall other | slug == ROLE_PREFIX + other ensures other == role {
        RoleSlugRoundTrip(other);
      }
    }
    assert forall r :: r in records ==> r in Select(db, PicklistValues, ROLE_VALUES);
  }

  lemma ValuesMembers(records: seq<Row>, value: string)
    ensures value in Values(records) <==> exists r :: r in records && r.Text(PicklistValue) == value
  {
    if r :| r in records && r.Text(PicklistValue) == value {
      var i :| 0 <= i < |records| && records[i] == r;
      assert Values(records)[i] == value;
    }
  }

  /**
   Granting an offered entitlement by its own id: the answer is "already exists" exactly
   when the view has that very grant, and otherwise the grant appears and the reported
   grants are exactly what the view gains.
   */
  lemma OfferedGrantIsTrue(db: Db, values: seq<string>, slug: string, user: Id, territory: Id, choice: Choice)
    requires Valid(db) && Fresh(db, Associations, choice)
    requires slug in StaticSlugs(values)
    requires territory != "" && ':' !in territory
    ensures var ent := Entitlement(Territory, territory, slug);
            var call := Territories.GrantCall(Principal(User, user), territory, ent.EntitlementId());
            var out, wanted := Territories.Run(db, call, choice), UserGrant(Territory, territory, slug, user);
            && (out.answer == AlreadyExists <==> wanted in View(db))
            && (out.answer == AlreadyExists ==> out.db == db)
            && (out.answer != AlreadyExists ==>
                  && out.answer.Granted? && wanted in out.answer.grants
                  && forall g :: g in out.answer.grants <==> g in View(out.db) && g !in View(db))
            && wanted in View(out.db)
  {
    hide View, Valid, Fresh, Territories.Run, Territories.ParseEntitlementId;
    var ent := Entitlement(Territory, territory, slug);
    var call := Territories.GrantCall(Principal(User, user), territory, ent.EntitlementId());
    ParseInvertsId(ent);
    StaticSlugMeaning(values, slug);
    if slug != MEMBER {
      var role :| role != "" && slug == ROLE_PREFIX + role;
      RoleSlugRoundTrip(role);
    }
    TerritoryProperties.GrantAnswersTruly(db, call, slug, choice);
  }

  // ---------------------------------------------------------------- ids that are not offered

  /** What is offered is regular. */
  lemma OfferedSlugsAreRegular(values: seq<string>, slug: string)
    requires slug in StaticSlugs(values)
    ensures TerritoryProperties.Regular(slug)
  {
    StaticSlugMeaning(values, slug);
    if slug != MEMBER {
      var role :| role != "" && slug == ROLE_PREFIX + role;
      RoleSlugRoundTrip(role);
    }
  }

  function Calling(grant: bool, user: Id, territory: Id, slug: string): Territories.TerritoryCall {
    var id := Entitlement(Territory, territory, slug).EntitlementId();
    if grant then Territories.GrantCall(Principal(User, user), territory, id)
    else Territories.RevokeCall(Principal(User, user), territory, id)
  }

  /**
   Among the members with one role, by an id that has that role without the prefix: a grant
   answers "already exists" and a revoke takes the role away, and no view has the named grant.
   */
  lemma UnprefixedIdIsMistaken(user: Id, territory: Id, role: string, choice: Choice)
    requires territory != "" && ':' !in territory
    requires role != "" && role != MEMBER && !HasPrefix(role, ROLE_PREFIX)
    requires Fresh(TerritoryProperties.Crowded(user, territory, role), Associations, choice)
    ensures var db := TerritoryProperties.Crowded(user, territory, role);
            var named := UserGrant(Territory, territory, role, user);
            var revoked := Territories.Run(db, Calling(false, user, territory, role), choice);
            && Valid(db) && named !in View(db)
            && Territories.Run(db, Calling(true, user, territory, role), choice).answer == AlreadyExists
            && revoked.answer == Revoked
            && TerritoryRole(territory, user, role) in View(db)
            && TerritoryRole(territory, user, role) !in View(revoked.db)
  {
    var db := TerritoryProperties.Crowded(user, territory, role);
    ParseInvertsId(Entitlement(Territory, territory, role));
    TerritoryProperties.CrowdedFound(user, territory, role);
    TerritoryProperties.CrowdedShows(user, territory, role, role);
    var grant, revoke := Calling(true, user, territory, role), Calling(false, user, territory, role);
    assert Territories.RoleOf(role) == role && !TerritoryProperties.Regular(role);
    assert TerritoryProperties.SeatOf(db, grant) == TerritoryProperties.Seated(role);
    assert TerritoryProperties.SeatOf(db, revoke) == TerritoryProperties.Seated(role);
    hide View, Valid, Fresh, Territories.Find, Territories.Run, Territories.ParseEntitlementId, Territories.RoleOf,
         TerritoryProperties.Crowded, TerritoryProperties.SeatOf, TerritoryRole, TerritoryProperties.Regular;
    TerritoryProperties.NamedInView(db, grant, role);
    TerritoryProperties.RunMovesSeat(db, grant, role, choice);
    TerritoryProperties.RunMovesSeat(db, revoke, role, choice);
    TerritoryProperties.RevokeAnswersTruly(db, revoke, role, choice);
  }

  /** A member without a role: the empty role "already exists", and no view shows it. */
  lemma EmptyRoleAlreadyExists(user: Id, territory: Id, choice: Choice)
    requires territory != "" && ':' !in territory
    requires Fresh(TerritoryProperties.Crowded(user, territory, ""), Associations, choice)
    ensures var db := TerritoryProperties.Crowded(user, territory, "");
            && Valid(db) && UserGrant(Territory, territory, ROLE_PREFIX, user) !in View(db)
            && Territories.Run(db, Calling(true, user, territory, ROLE_PREFIX), choice).answer == AlreadyExists
  {
    var db, call := TerritoryProperties.Crowded(user, territory, ""), Calling(true, user, territory, ROLE_PREFIX);
    ParseInvertsId(Entitlement(Territory, territory, ROLE_PREFIX));
    TerritoryProperties.CrowdedFound(user, territory, "");
    assert Territories.RoleOf(ROLE_PREFIX) == "" && !TerritoryProperties.Regular(ROLE_PREFIX) && ROLE_PREFIX != MEMBER;
    assert TerritoryProperties.SeatOf(db, call) == TerritoryProperties.Seated("");
    hide View, Valid, Fresh, Territories.Find, Territories.Run, Territories.ParseEntitlementId, Territories.RoleOf,
         TerritoryProperties.Crowded, TerritoryProperties.SeatOf, TerritoryProperties.Regular;
    TerritoryProperties.NamedInView(db, call, ROLE_PREFIX);
    TerritoryProperties.EmptyRoleIsNeverShown(db, call, ROLE_PREFIX, choice);
  }
}
