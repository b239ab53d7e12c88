/** What territory provisioning means in terms of the sync view. */
module TerritoryProperties {
  import opened Collections
  import opened Strings
  import opened Salesforce
  import opened Access
  import opened Territories

  /** Every grant on a user's place in a territory other than the membership. */
  ghost function Roles(territory: Id, user: Id): iset<Access.Grant> {
    iset g: Access.Grant |
      g.ent.kind == Territory && g.ent.resource == territory && g.principal == Principal(User, user)
      && g.ent.slug != MEMBER
  }

  ghost function RoleIn(territory: Id, user: Id, role: string): iset<Access.Grant> {
    if role == "" then iset{} else iset{TerritoryRole(territory, user, role)}
  }

  /**
   The abstract effect of a call on the set of grants: membership is a set, the role
   is a single value that exists only under a membership.
   */
  ghost function Effect(call: TerritoryCall, view: iset<Access.Grant>): iset<Access.Grant> {
    var t, u := call.territory, call.principal.id;
    match ParseEntitlementId(call.entitlementId)
    case None => view
    case Some(p) =>
      if call.GrantCall? then
        if call.principal.kind != User then view
        else if p == MEMBER then view + iset{TerritoryMember(t, u)}
        else view - Roles(t, u) + iset{TerritoryMember(t, u)} + RoleIn(t, u, RoleOf(p))
      else
        if p == MEMBER then view - Roles(t, u) - iset{TerritoryMember(t, u)}
        else view - iset{TerritoryRole(t, u, RoleOf(p))}
  }

  /** The grant of the entitlement that a call names. */
  function Named(call: TerritoryCall, permission: string): Access.Grant {
    UserGrant(Territory, call.territory, permission, call.principal.id)
  }

  /** The slugs of the grants that a sync can show. */
  predicate Regular(permission: string) {
    permission == MEMBER || (HasPrefix(permission, ROLE_PREFIX) && RoleOf(permission) != "")
  }

  /** The grant a call works on: a slug that lacks the prefix is read as the role it spells. */
  function Requested(call: TerritoryCall, permission: string): Access.Grant {
    if permission == MEMBER then TerritoryMember(call.territory, call.principal.id)
    else TerritoryRole(call.territory, call.principal.id, RoleOf(permission))
  }

  lemma RoleGrantsDiffer(territory: Id, user: Id, a: string, b: string)
    ensures TerritoryRole(territory, user, a) == TerritoryRole(territory, user, b) ==> a == b
    ensures TerritoryRole(territory, user, a) != TerritoryMember(territory, user)
  {
    assert (ROLE_PREFIX + a)[|ROLE_PREFIX|..] == a;
    assert (ROLE_PREFIX + b)[|ROLE_PREFIX|..] == b;
    assert (ROLE_PREFIX + a)[0] == 'r' && MEMBER[0] == 'm';
  }

  lemma MatchesPair(r: Row, user: Id, territory: Id)
    ensures Matches(r, MemberConds(user, territory)) <==> r.Text(UserId) == user && r.Text(Territory2Id) == territory
  {
    var conds := MemberConds(user, territory);
    assert Holds(conds[0], r) <==> r.Text(Territory2Id) == territory;
    assert Holds(conds[1], r) <==> r.Text(UserId) == user;
  }

  /** Territory grants come from the association of their own user and territory. */
  lemma TerritoryGrantSource(t: Table, r: Row, g: Access.Grant)
    requires g in Emit(t, r) && g.ent.kind == Territory
    ensures t == Associations && g.ent.resource == r.Text(Territory2Id) != ""
    ensures g.principal == Principal(User, r.Text(UserId))
  {
  }

  /** The grants of one association, as sets. */
  lemma EmittedAssociation(r: Row)
    requires r.Text(Territory2Id) != ""
    ensures var t, u, role := r.Text(Territory2Id), r.Text(UserId), r.Text(RoleInTerritory2);
            Emitted(Associations, r) == iset{TerritoryMember(t, u)} + RoleIn(t, u, role)
  {
  }

  lemma FoundRow(db: Db, user: Id, territory: Id)
    ensures var found := Find(db, user, territory);
            && (found.Some? ==> found.value in db.Rows(Associations)
                                && found.value.Text(UserId) == user && found.value.Text(Territory2Id) == territory)
            && (found.None? ==> forall r :: r in db.Rows(Associations) ==>
                                  !(r.Text(UserId) == user && r.Text(Territory2Id) == territory))
  {
    FirstMatch(db, Associations, MemberConds(user, territory));
    forall r: Row { MatchesPair(r, user, territory); }
  }

  /** All of a user's grants on a territory come from the association that the read finds. */
  lemma FoundRowOwnsPair(db: Db, user: Id, territory: Id, g: Access.Grant)
    requires Valid(db) && g in View(db)
    requires g.ent.kind == Territory && g.ent.resource == territory && g.principal.id == user
    ensures Find(db, user, territory).Some? && g in Emit(Associations, Find(db, user, territory).value)
  {
    hide Find;
    FoundRow(db, user, territory);
    var t, r :| r in db.Rows(t) && g in Emit(t, r);
    TerritoryGrantSource(t, r, g);
    var found := Find(db, user, territory);
    assert UniqueRows(Associations, db.Rows(Associations));
    assert Conflict(Associations, r, found.value);
  }

  /** What the view shows of a user in a territory. */
  ghost function PairView(db: Db, user: Id, territory: Id): iset<Access.Grant> {
    match Find(db, user, territory)
    case None => iset{}
    case Some(r) => iset{TerritoryMember(territory, user)} + RoleIn(territory, user, r.Text(RoleInTerritory2))
  }

  /** What the read finds is exactly what the view says about the pair. */
  lemma FindSeesTheView(db: Db, user: Id, territory: Id)
    requires Valid(db) && territory != ""
    ensures View(db) * (Roles(territory, user) + iset{TerritoryMember(territory, user)})
            == PairView(db, user, territory)
  {
    FoundRow(db, user, territory);
    var found := Find(db, user, territory);
    if found.Some? {
      EmittedAssociation(found.value);
      assert PairView(db, user, territory) == Emitted(Associations, found.value);
      forall g | g in Emit(Associations, found.value) ensures g in View(db) {
        assert found.value in db.Rows(Associations);
      }
    }
    forall g | g in View(db) * (Roles(territory, user) + iset{TerritoryMember(territory, user)})
      ensures g in PairView(db, user, territory)
    {
      FoundRowOwnsPair(db, user, territory, g);
    }
    forall g | g in PairView(db, user, territory)
      ensures g in Roles(territory, user) + iset{TerritoryMember(territory, user)}
    {
      RoleGrantsDiffer(territory, user, "", "");
    }
  }

  // ---------------------------------------------------------------- one write at a time

  lemma NewRowConflictsWithFound(db: Db, r: Row)
    ensures (exists s :: s in db.Rows(Associations) && Conflict(Associations, r, s))
            <==> Find(db, r.Text(UserId), r.Text(Territory2Id)).Some?
  {
    FoundRow(db, r.Text(UserId), r.Text(Territory2Id));
  }

  lemma AddMovesView(db: Db, fields: map<Field, Value>, choice: Choice)
    requires Valid(db) && Fresh(db, Associations, choice) && Row(choice.id, fields).Text(Territory2Id) != ""
    ensures var r := Row(choice.id, fields);
            var t, u, role := r.Text(Territory2Id), r.Text(UserId), r.Text(RoleInTerritory2);
            var reply := Created(db, Associations, fields, choice);
            && Valid(reply.db)
            && (Find(db, u, t).None? ==>
                  && reply.result == Ok(choice.id)
                  && View(reply.db) == View(db) + iset{TerritoryMember(t, u)} + RoleIn(t, u, role))
            && (Find(db, u, t).Some? ==> reply == Reply(db, Err(Duplicate)))
  {
    hide Valid, View, Conflict, Find, Emit, RoleIn, Created;
    var r := Row(choice.id, fields);
    CreateCases(db, Associations, fields, choice);
    NewRowConflictsWithFound(db, r);
    CreateKeepsValid(db, Associations, fields, choice);
    InsertView(db, Associations, choice.at, r);
    EmittedAssociation(r);
  }

  lemma SetRoleMovesView(db: Db, r: Row, role: string)
    requires Valid(db) && r in db.Rows(Associations) && r.Text(Territory2Id) != ""
    ensures var t, u := r.Text(Territory2Id), r.Text(UserId);
            var reply := Patched(db, Associations, r.id, RoleInTerritory2, Text(role));
            && Valid(reply.db) && reply.result == Ok(())
            && View(reply.db) == View(db) - iset{TerritoryMember(t, u)} - RoleIn(t, u, r.Text(RoleInTerritory2))
                                 + iset{TerritoryMember(t, u)} + RoleIn(t, u, role)
  {
    hide Valid, View, Emit, RoleIn;
    var r' := r.Set(RoleInTerritory2, Text(role));
    PatchView(db, Associations, r, RoleInTerritory2, Text(role));
    PatchKeepsValid(db, Associations, r.id, RoleInTerritory2, Text(role));
    EmittedAssociation(r);
    EmittedAssociation(r');
  }

  lemma RemoveMovesView(db: Db, r: Row)
    requires Valid(db) && r in db.Rows(Associations) && r.Text(Territory2Id) != ""
    ensures var t, u := r.Text(Territory2Id), r.Text(UserId);
            var reply := Deleted(db, Associations, r.id);
            && Valid(reply.db) && reply.result == Ok(())
            && View(reply.db) == View(db) - iset{TerritoryMember(t, u)} - RoleIn(t, u, r.Text(RoleInTerritory2))
  {
    hide Valid, View, Emit, RoleIn;
    DeleteView(db, Associations, r);
    DeleteKeepsValid(db, Associations, r.id);
    EmittedAssociation(r);
  }

  // ---------------------------------------------------------------- whole calls

  /** A user's place in a territory: none, or a membership with a role that may be empty. */
  datatype Seat = Outside | Seated(role: string)

  ghost function SeatOf(db: Db, call: TerritoryCall): Seat {
    match Find(db, call.principal.id, call.territory)
    case None => Outside
    case Some(r) => Seated(r.Text(RoleInTerritory2))
  }

  ghost function SeatGrants(call: TerritoryCall, seat: Seat): iset<Access.Grant> {
    match seat
    case Outside => iset{}
    case Seated(role) =>
      iset{TerritoryMember(call.territory, call.principal.id)} + RoleIn(call.territory, call.principal.id, role)
  }

  /** The seat that a call for a permission leaves behind. */
  ghost function NextSeat(call: TerritoryCall, permission: string, seat: Seat): Seat {
    if call.GrantCall? then
      if call.principal.kind != User then seat
      else if permission == MEMBER then (if seat.Outside? then Seated("") else seat)
      else Seated(RoleOf(permission))
    else if permission == MEMBER then Outside
    else if seat == Seated(RoleOf(permission)) then Seated("")
    else seat
  }

  /** The grants a call reports, when it reports any. */
  ghost predicate AnswersFor(call: TerritoryCall, permission: string, seat: Seat, answer: Answer) {
    var after := NextSeat(call, permission, seat);
    if call.RevokeCall? then
      answer == if after != seat then Revoked else AlreadyRevoked
    else if call.principal.kind != User then answer == Failed(NotAUser)
    else if after == seat then answer == AlreadyExists
    else if seat.Outside? then answer == Granted(NewGrants(call))
    else answer == Granted([TerritoryRole(call.territory, call.principal.id, after.role)])
  }

  /** A call without interruption moves one seat, and the view moves with it. */
  lemma RunMovesSeat(db: Db, call: TerritoryCall, permission: string, choice: Choice)
    requires Valid(db) && Fresh(db, Associations, choice) && call.territory != ""
    requires ParseEntitlementId(call.entitlementId) == Some(permission)
    ensures var out, before := Run(db, call, choice), SeatOf(db, call);
            var after := NextSeat(call, permission, before);
            && Valid(out.db)
            && View(out.db) == View(db) - SeatGrants(call, before) + SeatGrants(call, after)
            && AnswersFor(call, permission, before, out.answer)
            && (after == before ==> out.db == db)
  {
    hide Valid, View, RoleIn, Find, RoleOf, ParseEntitlementId, NewGrants, Created, Patched, Deleted, Fresh;
    var u, t := call.principal.id, call.territory;
    var found, role := Find(db, u, t), RoleOf(permission);
    FoundRow(db, u, t);
    SeatInView(db, call);
    if found.None? {
      AddMovesView(db, MemberFields(u, t), choice);
      AddMovesView(db, RoleFields(u, t, role), choice);
      assert RoleIn(t, u, "") == iset{} by { NoEmptyRole(t, u); }
    } else {
      SetRoleMovesView(db, found.value, role);
      SetRoleMovesView(db, found.value, "");
      RemoveMovesView(db, found.value);
    }
  }

  lemma NoEmptyRole(territory: Id, user: Id)
    ensures RoleIn(territory, user, "") == iset{}
  {
  }

  /** Of all places, the view shows exactly the seat the read finds. */
  lemma SeatInView(db: Db, call: TerritoryCall)
    requires Valid(db) && call.territory != ""
    ensures View(db) * (Roles(call.territory, call.principal.id)
                        + iset{TerritoryMember(call.territory, call.principal.id)})
            == SeatGrants(call, SeatOf(db, call))
  {
    hide View, Valid, Roles, RoleIn, Find;
    FindSeesTheView(db, call.principal.id, call.territory);
  }

  lemma RolesAreNoMember(territory: Id, user: Id, role: string)
    ensures TerritoryRole(territory, user, role) in Roles(territory, user)
    ensures TerritoryMember(territory, user) !in Roles(territory, user)
  {
    RoleGrantsDiffer(territory, user, role, role);
  }

  /** Which grants of the pair the view shows, read off the seat. */
  lemma SeatMembership(db: Db, call: TerritoryCall, role: string)
    requires Valid(db) && call.territory != ""
    ensures TerritoryMember(call.territory, call.principal.id) in View(db) <==> SeatOf(db, call).Seated?
    ensures TerritoryRole(call.territory, call.principal.id, role) in View(db) <==>
            role != "" && SeatOf(db, call) == Seated(role)
  {
    hide View, Valid, Find, SeatOf, TerritoryMember, TerritoryRole, Roles;
    var u, t, seat := call.principal.id, call.territory, SeatOf(db, call);
    SeatInView(db, call);
    RolesAreNoMember(t, u, role);
    RoleGrantsDiffer(t, u, role, if seat.Seated? then seat.role else "");
    var place := Roles(t, u) + iset{TerritoryMember(t, u)};
    assert TerritoryMember(t, u) in View(db) <==> TerritoryMember(t, u) in View(db) * place;
    assert TerritoryRole(t, u, role) in View(db) <==> TerritoryRole(t, u, role) in View(db) * place;
  }

  /** Every call, whatever its answer, has its abstract effect on the view. */
  lemma CallRefinesEffect(db: Db, call: TerritoryCall, choice: Choice)
    requires Valid(db) && Fresh(db, Associations, choice) && call.territory != ""
    ensures Valid(Run(db, call, choice).db)
    ensures View(Run(db, call, choice).db) == Effect(call, View(db))
  {
    hide View, Valid, Find, SeatOf, ParseEntitlementId, RoleOf, Fresh, TerritoryMember, TerritoryRole;
    var permission := ParseEntitlementId(call.entitlementId);
    if permission.Some? {
      var u, t, seat, role := call.principal.id, call.territory, SeatOf(db, call), RoleOf(permission.value);
      RunMovesSeat(db, call, permission.value, choice);
      SeatInView(db, call);
      SeatMembership(db, call, role);
      RolesAreNoMember(t, u, role);
      RolesAreNoMember(t, u, if seat.Seated? then seat.role else "");
    } else {
      UnreadableCallChangesNothing(db, call, choice);
    }
  }

  lemma UnreadableCallChangesNothing(db: Db, call: TerritoryCall, choice: Choice)
    requires Fresh(db, Associations, choice) && ParseEntitlementId(call.entitlementId).None?
    ensures Run(db, call, choice).db == db
  {
  }

  /**
   An uninterrupted Grant answers "already exists" exactly when the view has the
   requested grant, and then changes nothing; otherwise it reports exactly the grants
   that the view gains.  Both need the role to be a real one.
   */
  lemma GrantAnswersTruly(db: Db, call: TerritoryCall, permission: string, choice: Choice)
    requires Valid(db) && Fresh(db, Associations, choice) && call.territory != ""
    requires call.GrantCall? && call.principal.kind == User
    requires ParseEntitlementId(call.entitlementId) == Some(permission)
    requires permission == MEMBER || RoleOf(permission) != ""
    ensures var out := Run(db, call, choice);
            && (out.answer == AlreadyExists <==> Requested(call, permission) in View(db))
            && (out.answer == AlreadyExists ==> out.db == db)
            && (out.answer != AlreadyExists ==> out.answer.Granted?)
            && (out.answer.Granted? ==>
                  forall g :: g in out.answer.grants <==> g in View(out.db) && g !in View(db))
            && Requested(call, permission) in View(out.db)
  {
    hide View, Valid, Find, SeatOf, ParseEntitlementId, RoleOf, Fresh, Run, TerritoryMember, TerritoryRole, Roles;
    var u, t, seat, role := call.principal.id, call.territory, SeatOf(db, call), RoleOf(permission);
    RunMovesSeat(db, call, permission, choice);
    SeatInView(db, call);
    SeatMembership(db, call, role);
    RolesAreNoMember(t, u, role);
    RoleGrantsDiffer(t, u, role, if seat.Seated? then seat.role else "");
    RolesAreNoMember(t, u, if seat.Seated? then seat.role else "");
  }

  /** A role grant drops the old role's grant, when there was another one, and nothing else. */
  lemma RoleChangeDropsOldRole(db: Db, call: TerritoryCall, permission: string, choice: Choice)
    requires Valid(db) && Fresh(db, Associations, choice) && call.territory != ""
    requires call.GrantCall? && call.principal.kind == User
    requires ParseEntitlementId(call.entitlementId) == Some(permission) && permission != MEMBER
    ensures forall g :: g in View(db) && g !in View(Run(db, call, choice).db) <==>
                        exists old' :: old' != "" && old' != RoleOf(permission) && SeatOf(db, call) == Seated(old')
                                       && g == TerritoryRole(call.territory, call.principal.id, old')
  {
    hide View, Valid, Find, SeatOf, ParseEntitlementId, RoleOf, Fresh, Run, TerritoryMember, TerritoryRole, Roles;
    var u, t, seat, role := call.principal.id, call.territory, SeatOf(db, call), RoleOf(permission);
    RunMovesSeat(db, call, permission, choice);
    SeatInView(db, call);
    var old' := if seat.Seated? then seat.role else "";
    RoleGrantsDiffer(t, u, old', role);
  }

  /**
   What a successful role Grant reports is in the view afterwards exactly when the role
   is not empty: with the entitlement "role:" it reports a grant no sync will ever show.
   */
  lemma ReportedRoleIsShownIffNamed(db: Db, call: TerritoryCall, permission: string, choice: Choice)
    requires Valid(db) && Fresh(db, Associations, choice) && call.territory != ""
    requires call.GrantCall? && call.principal.kind == User
    requires ParseEntitlementId(call.entitlementId) == Some(permission) && permission != MEMBER
    requires Run(db, call, choice).answer.Granted?
    ensures var out := Run(db, call, choice);
            (forall g :: g in out.answer.grants ==> g in View(out.db)) <==> RoleOf(permission) != ""
  {
    hide View, Valid, Find, SeatOf, ParseEntitlementId, RoleOf, Fresh, Run, TerritoryMember, TerritoryRole, Roles;
    var u, t, seat, role := call.principal.id, call.territory, SeatOf(db, call), RoleOf(permission);
    var out := Run(db, call, choice);
    RunMovesSeat(db, call, permission, choice);
    if role != "" {
      GrantAnswersTruly(db, call, permission, choice);
    } else {
      SeatMembership(out.db, call, role);
      assert TerritoryRole(t, u, role) in out.answer.grants by { GrantedNamesRole(call, permission); }
    }
  }

  /**
   With an empty role "already exists" is never true of the view: it is answered if and
   only if the user is a member without a role, and the requested grant is shown neither
   then nor after any other answer.
   */
  lemma EmptyRoleIsNeverShown(db: Db, call: TerritoryCall, permission: string, choice: Choice)
    requires Valid(db) && Fresh(db, Associations, choice) && call.territory != ""
    requires call.GrantCall? && call.principal.kind == User
    requires ParseEntitlementId(call.entitlementId) == Some(permission)
    requires permission != MEMBER && RoleOf(permission) == ""
    ensures var out := Run(db, call, choice);
            && (out.answer == AlreadyExists <==> SeatOf(db, call) == Seated(""))
            && Requested(call, permission) !in View(db) && Requested(call, permission) !in View(out.db)
  {
    hide View, Valid, Find, SeatOf, ParseEntitlementId, RoleOf, Fresh, Run, TerritoryMember, TerritoryRole, Roles;
    RunMovesSeat(db, call, permission, choice);
    SeatMembership(db, call, "");
    SeatMembership(Run(db, call, choice).db, call, "");
  }

  lemma RegularMeans(permission: string)
    ensures Regular(MEMBER)
    ensures Regular(permission) && permission != MEMBER ==>
              RoleOf(permission) != "" && permission == ROLE_PREFIX + RoleOf(permission)
  {
  }

  /** The named grant is the one worked on for members and prefixed slugs, the empty role's included. */
  lemma NamedIsRequestedIff(call: TerritoryCall, permission: string)
    ensures Named(call, permission) == Requested(call, permission) <==>
              permission == MEMBER || HasPrefix(permission, ROLE_PREFIX)
  {
    if permission != MEMBER {
      assert HasPrefix(permission, ROLE_PREFIX) ==> ROLE_PREFIX + RoleOf(permission) == permission;
      assert HasPrefix(ROLE_PREFIX + RoleOf(permission), ROLE_PREFIX);
    }
  }

  lemma ShownSlugs(db: Db, g: Access.Grant)
    requires g in View(db) && g.ent.kind == Territory
    ensures g.ent.slug == MEMBER || HasPrefix(g.ent.slug, ROLE_PREFIX)
  {
    var t, r :| r in db.Rows(t) && g in Emit(t, r);
  }

  /** When the view has the grant that a call names. */
  lemma NamedInView(db: Db, call: TerritoryCall, permission: string)
    requires Valid(db) && call.territory != ""
    ensures Named(call, permission) in View(db) <==>
              (permission == MEMBER && SeatOf(db, call).Seated?)
              || (permission != MEMBER && Regular(permission) && SeatOf(db, call) == Seated(RoleOf(permission)))
  {
    hide View, Valid, SeatOf, RoleOf;
    SeatMembership(db, call, RoleOf(permission));
    NamedIsRequestedIff(call, permission);
    if Named(call, permission) in View(db) {
      ShownSlugs(db, Named(call, permission));
    }
  }

  /**
   For every entitlement id of a territory: "already exists" is answered exactly when the
   view has the named grant, if and only if the user is not one who holds the role that an
   id without the prefix, or with an empty role, is read as.
   */
  lemma AlreadyExistsIsTrueIff(db: Db, call: TerritoryCall, permission: string, choice: Choice)
    requires Valid(db) && Fresh(db, Associations, choice) && call.territory != ""
    requires call.GrantCall? && call.principal.kind == User
    requires ParseEntitlementId(call.entitlementId) == Some(permission)
    ensures (Run(db, call, choice).answer == AlreadyExists <==> Named(call, permission) in View(db))
       <==> !(permission != MEMBER && (RoleOf(permission) == "" || !HasPrefix(permission, ROLE_PREFIX))
              && SeatOf(db, call) == Seated(RoleOf(permission)))
  {
    hide View, Valid, Find, SeatOf, ParseEntitlementId, RoleOf, Fresh, Run, Named, HasPrefix;
    RunMovesSeat(db, call, permission, choice);
    NamedInView(db, call, permission);
  }

  /** After a grant that does not fail, the named grant is in the view if and only if the id is a regular one. */
  lemma GrantShowsNamedIff(db: Db, call: TerritoryCall, permission: string, choice: Choice)
    requires Valid(db) && Fresh(db, Associations, choice) && call.territory != ""
    requires call.GrantCall? && call.principal.kind == User
    requires ParseEntitlementId(call.entitlementId) == Some(permission)
    ensures Named(call, permission) in View(Run(db, call, choice).db) <==> Regular(permission)
  {
    hide View, Valid, Find, ParseEntitlementId, RoleOf, Fresh, Run, Named, HasPrefix, Regular;
    RunMovesSeat(db, call, permission, choice);
    GrantSeats(db, call, permission, choice);
    hide SeatOf;
    RegularMeans(permission);
    NamedInView(Run(db, call, choice).db, call, permission);
  }

  /** The seat that the read finds after an uninterrupted grant. */
  lemma GrantSeats(db: Db, call: TerritoryCall, permission: string, choice: Choice)
    requires Valid(db) && Fresh(db, Associations, choice) && call.territory != ""
    requires ParseEntitlementId(call.entitlementId) == Some(permission)
    ensures SeatOf(Run(db, call, choice).db, call) == NextSeat(call, permission, SeatOf(db, call))
  {
    hide View, Valid, Find, SeatOf, ParseEntitlementId, RoleOf, Fresh, Run, TerritoryMember, TerritoryRole, Roles,
         RoleIn;
    var before := SeatOf(db, call);
    var after, next := SeatOf(Run(db, call, choice).db, call), NextSeat(call, permission, before);
    RunMovesSeat(db, call, permission, choice);
    SeatInView(db, call);
    SeatInView(Run(db, call, choice).db, call);
    assert SeatGrants(call, after) == SeatGrants(call, next) by {
      SeatGrantsInPlace(call, next);
      SeatGrantsInPlace(call, before);
    }
    SeatsDiffer(call, after, next);
  }

  lemma SeatGrantsInPlace(call: TerritoryCall, seat: Seat)
    ensures SeatGrants(call, seat) <= Roles(call.territory, call.principal.id)
                                      + iset{TerritoryMember(call.territory, call.principal.id)}
  {
    hide TerritoryMember, TerritoryRole, Roles;
    if seat.Seated? {
      RolesAreNoMember(call.territory, call.principal.id, seat.role);
    }
  }

  /** A seat can be read off its grants. */
  lemma SeatsDiffer(call: TerritoryCall, a: Seat, b: Seat)
    requires SeatGrants(call, a) == SeatGrants(call, b)
    ensures a == b
  {
    hide TerritoryMember, TerritoryRole;
    var t, u, member := call.territory, call.principal.id, TerritoryMember(call.territory, call.principal.id);
    assert a.Seated? <==> member in SeatGrants(call, a) by { MemberSeat(call, a); }
    assert b.Seated? <==> member in SeatGrants(call, b) by { MemberSeat(call, b); }
    if a.Seated? && b.Seated? {
      RoleGrantsDiffer(t, u, a.role, b.role);
      RoleGrantsDiffer(t, u, b.role, a.role);
      assert a.role != "" ==> TerritoryRole(t, u, a.role) in SeatGrants(call, a);
      assert b.role != "" ==> TerritoryRole(t, u, b.role) in SeatGrants(call, b);
    }
  }

  lemma MemberSeat(call: TerritoryCall, seat: Seat)
    ensures seat.Seated? <==> TerritoryMember(call.territory, call.principal.id) in SeatGrants(call, seat)
  {
  }

  /**
   For every entitlement id of a territory: "already revoked" is answered exactly when the
   view lacks the named grant, unless the id lacks the prefix and spells the user's role:
   then the revoke takes that role away, whose grant the id does not name.
   */
  lemma AlreadyRevokedIsTrueIff(db: Db, call: TerritoryCall, permission: string, choice: Choice)
    requires Valid(db) && Fresh(db, Associations, choice) && call.territory != ""
    requires call.RevokeCall? && ParseEntitlementId(call.entitlementId) == Some(permission)
    ensures (Run(db, call, choice).answer == AlreadyRevoked <==> Named(call, permission) !in View(db))
       <==> permission == MEMBER || permission == "" || HasPrefix(permission, ROLE_PREFIX)
            || SeatOf(db, call) != Seated(permission)
  {
    assert !HasPrefix(permission, ROLE_PREFIX) ==> RoleOf(permission) == permission;
    hide View, Valid, Find, SeatOf, ParseEntitlementId, RoleOf, Fresh, Run, Named, HasPrefix;
    RunMovesSeat(db, call, permission, choice);
    NamedInView(db, call, permission);
  }

  /** In an empty organisation, granting the empty role reports its grant and shows it to nobody. */
  lemma EmptyRoleIsReported(user: Id, territory: Id, entitlementId: string, permission: string, choice: Choice)
    requires Fresh(Db(map[]), Associations, choice) && territory != ""
    requires ParseEntitlementId(entitlementId) == Some(permission) && permission == ROLE_PREFIX
    ensures var call := GrantCall(Principal(User, user), territory, entitlementId);
            var out := Run(Db(map[]), call, choice);
            && out.answer.Granted? && TerritoryRole(territory, user, "") in out.answer.grants
            && TerritoryRole(territory, user, "") !in View(out.db)
  {
    var call := GrantCall(Principal(User, user), territory, entitlementId);
    var db := Db(map[]);
    assert RoleOf(permission) == "" && permission != MEMBER && ROLE_PREFIX + "" == ROLE_PREFIX;
    assert Valid(db) && SeatOf(db, call) == Outside;
    hide View, Valid, Find, SeatOf, ParseEntitlementId, RoleOf, Fresh, Run, TerritoryMember, TerritoryRole, Roles;
    RunMovesSeat(db, call, permission, choice);
    EmptyRoleIsNeverShown(db, call, permission, choice);
    GrantedNamesRole(call, permission);
  }

  lemma GrantedNamesRole(call: TerritoryCall, permission: string)
    requires ParseEntitlementId(call.entitlementId) == Some(permission) && permission != MEMBER
    ensures NewGrants(call) == [TerritoryMember(call.territory, call.principal.id),
                                TerritoryRole(call.territory, call.principal.id, RoleOf(permission))]
  {
  }

  /**
   An uninterrupted Revoke answers "already revoked" exactly when the view lacks the
   grant, and then changes nothing; otherwise it removes the grant, with the role when
   the grant is the membership.
   */
  lemma RevokeAnswersTruly(db: Db, call: TerritoryCall, permission: string, choice: Choice)
    requires Valid(db) && Fresh(db, Associations, choice) && call.territory != ""
    requires call.RevokeCall? && ParseEntitlementId(call.entitlementId) == Some(permission)
    ensures var out := Run(db, call, choice);
            && (out.answer == AlreadyRevoked <==> Requested(call, permission) !in View(db))
            && (out.answer == AlreadyRevoked ==> out.db == db)
            && (out.answer != AlreadyRevoked ==> out.answer == Revoked)
            && Requested(call, permission) !in View(out.db)
            && (permission == MEMBER ==> View(out.db) !! Roles(call.territory, call.principal.id))
  {
    hide View, Valid, Find, SeatOf, ParseEntitlementId, RoleOf, Fresh, Run, TerritoryMember, TerritoryRole, Roles;
    var u, t, seat, role := call.principal.id, call.territory, SeatOf(db, call), RoleOf(permission);
    RunMovesSeat(db, call, permission, choice);
    SeatInView(db, call);
    SeatMembership(db, call, role);
    RolesAreNoMember(t, u, role);
    RolesAreNoMember(t, u, if seat.Seated? then seat.role else "");
  }

  // ---------------------------------------------------------------- one association

  /** One user, one territory and one association. */
  function Crowded(user: Id, territory: Id, role: string): Db {
    Db(map[Associations := [Row("a", RoleFields(user, territory, role))]])
  }

  lemma CrowdedFound(user: Id, territory: Id, role: string)
    ensures Find(Crowded(user, territory, role), user, territory) == Some(Row("a", RoleFields(user, territory, role)))
    ensures Valid(Crowded(user, territory, role))
  {
    var r := Row("a", RoleFields(user, territory, role));
    var conds := MemberConds(user, territory);
    MatchesPair(r, user, territory);
    assert Crowded(user, territory, role).Rows(Associations) == [r] && [r][1..] == [];
  }

  lemma CrowdedShows(user: Id, territory: Id, role: string, other: string)
    requires territory != ""
    ensures TerritoryRole(territory, user, other) in View(Crowded(user, territory, role)) <==> other == role != ""
  {
    hide Valid, View, Find, Crowded;
    CrowdedFound(user, territory, role);
    SeatMembership(Crowded(user, territory, role), GrantCall(Principal(User, user), territory, ""), other);
  }
}
