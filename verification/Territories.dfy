/** Membership of territories and the role a member has there. */
module Territories {
  import opened Collections
  import opened Strings
  import opened Salesforce
  import opened Access
  import opened SyncViews

  datatype TerritoryCall =
    | GrantCall(principal: Principal, territory: Id, entitlementId: string)
    | RevokeCall(principal: Principal, territory: Id, entitlementId: string)

  function ParseEntitlementId(eID: string): Option<string> {
    var parts := SplitN(eID, ':', 3);
    if |parts| != 3 then None else Some(parts[2])
  }

  function RoleOf(permission: string): string {
    TrimPrefix(permission, ROLE_PREFIX)
  }

  function MemberConds(user: Id, territory: Id): seq<Cond> {
    [Eq(Territory2Id, territory), Eq(UserId, user)]
  }

  function Find(db: Db, user: Id, territory: Id): Option<Row> {
    First(Select(db, Associations, MemberConds(user, territory)))
  }

  function MemberFields(user: Id, territory: Id): map<Field, Value> {
    map[UserId := Text(user), Territory2Id := Text(territory)]
  }

  function RoleFields(user: Id, territory: Id, role: string): map<Field, Value> {
    map[UserId := Text(user), Territory2Id := Text(territory), RoleInTerritory2 := Text(role)]
  }

  // ---------------------------------------------------------------- a call as a read and a write

  /** What is left to do once the association has been read. */
  datatype Plan = Done(answer: Answer) | Add(fields: map<Field, Value>) | SetRole(id: Id, role: string) | Remove(id: Id)

  function Decide(call: TerritoryCall, seen: Option<Row>): Plan {
    var user, territory := call.principal.id, call.territory;
    var permission := ParseEntitlementId(call.entitlementId);
    match call
    case GrantCall(_, _, _) =>
      if call.principal.kind != User then Done(Failed(NotAUser))
      else if permission.None? then Done(Failed(BadEntitlementId))
      else if permission.value == MEMBER then
        if seen.Some? then Done(AlreadyExists) else Add(MemberFields(user, territory))
      else
        var role := RoleOf(permission.value);
        if seen.None? then Add(RoleFields(user, territory, role))
        else if seen.value.Text(RoleInTerritory2) == role then Done(AlreadyExists)
        else SetRole(seen.value.id, role)
    case RevokeCall(_, _, _) =>
      if permission.None? then Done(Failed(BadEntitlementId))
      else if seen.None? then Done(AlreadyRevoked)
      else if permission.value == MEMBER then Remove(seen.value.id)
      else
        var role, current := RoleOf(permission.value), seen.value.Text(RoleInTerritory2);
        if current == "" || current != role then Done(AlreadyRevoked)
        else SetRole(seen.value.id, "")
  }

  /** The grants a successful creation reports. */
  function NewGrants(call: TerritoryCall): seq<Grant> {
    var member := TerritoryMember(call.territory, call.principal.id);
    match ParseEntitlementId(call.entitlementId)
    case None => []
    case Some(p) =>
      if p == MEMBER then [member]
      else [member, TerritoryRole(call.territory, call.principal.id, RoleOf(p))]
  }

  function Carry(db: Db, call: TerritoryCall, plan: Plan, choice: Choice): Outcome
    requires Fresh(db, Associations, choice)
  {
    match plan
    case Done(answer) => Outcome(db, answer)
    case Add(fields) =>
      var reply := Created(db, Associations, fields, choice);
      Outcome(reply.db, match reply.result
                        case Ok(_) => Granted(NewGrants(call))
                        case Err(e) => if e == Duplicate then AlreadyExists else Failed(e))
    case SetRole(id, role) =>
      var reply := Patched(db, Associations, id, RoleInTerritory2, Text(role));
      Outcome(reply.db, match reply.result
                        case Ok(_) =>
                          if call.GrantCall? then Granted([TerritoryRole(call.territory, call.principal.id, role)])
                          else Revoked
                        case Err(e) => Failed(e))
    case Remove(id) =>
      var reply := Deleted(db, Associations, id);
      Outcome(reply.db, if reply.result.Ok? then Revoked else Failed(reply.result.error))
  }

  /** A call that nobody interrupts: read, decide, write. */
  function Run(db: Db, call: TerritoryCall, choice: Choice): Outcome
    requires Fresh(db, Associations, choice)
  {
    Carry(db, call, Decide(call, Find(db, call.principal.id, call.territory)), choice)
  }

  // ---------------------------------------------------------------- the client's requests

  method GetUserTerritoryAssociation(org: Org, user: Id, territory: Id) returns (r: Result<Row>)
    ensures r == Err(Unreachable)
         || r == (match Find(org.db, user, territory) case None => Err(ObjectNotFound) case Some(row) => Ok(row))
  {
    var records := org.Query(Associations, MemberConds(user, territory));
    if records.Err? {
      return Err(records.error);
    }
    if |records.value| == 0 {
      return Err(ObjectNotFound);
    }
    r := Ok(records.value[0]);
  }

  function NamingDuplicates<T>(r: Result<T>): Result<T> {
    if r == Err(Duplicate) then Err(ObjectAlreadyExists) else r
  }

  method AddUserToTerritory(org: Org, user: Id, territory: Id, choice: Choice) returns (r: Result<Id>)
    requires Fresh(org.db, Associations, choice)
    modifies org
    ensures var reply := Created(old(org.db), Associations, MemberFields(user, territory), choice);
            Served(old(org.db), org.db, r, Reply(reply.db, NamingDuplicates(reply.result)))
  {
    r := org.Create(Associations, map[UserId := Text(user), Territory2Id := Text(territory)], choice);
    if r == Err(Duplicate) {
      r := Err(ObjectAlreadyExists);
    }
  }

  method AddUserToTerritoryWithRole(org: Org, user: Id, territory: Id, role: string, choice: Choice)
    returns (r: Result<Id>)
    requires Fresh(org.db, Associations, choice)
    modifies org
    ensures var reply := Created(old(org.db), Associations, RoleFields(user, territory, role), choice);
            Served(old(org.db), org.db, r, Reply(reply.db, NamingDuplicates(reply.result)))
  {
    r := org.Create(Associations,
      map[UserId := Text(user), Territory2Id := Text(territory), RoleInTerritory2 := Text(role)], choice);
    if r == Err(Duplicate) {
      r := Err(ObjectAlreadyExists);
    }
  }

  function RemoveReply(db: Db, user: Id, territory: Id): Reply<()> {
    match Find(db, user, territory)
    case None => Reply(db, Err(ObjectNotFound))
    case Some(row) => Deleted(db, Associations, row.id)
  }

  method RemoveUserFromTerritory(org: Org, user: Id, territory: Id) returns (r: Result<()>)
    modifies org
    ensures Served(old(org.db), org.db, r, RemoveReply(old(org.db), user, territory))
  {
    var record := GetUserTerritoryAssociation(org, user, territory);
    if record.Err? {
      return Err(record.error);
    }
    r := org.Delete(Associations, record.value.id);
  }

  function ClearReply(db: Db, user: Id, territory: Id, expected: string): Reply<()> {
    match Find(db, user, territory)
    case None => Reply(db, Err(ObjectNotFound))
    case Some(row) =>
      if row.Text(RoleInTerritory2) == "" then Reply(db, Err(RoleAlreadyCleared))
      else if row.Text(RoleInTerritory2) != expected then Reply(db, Err(RoleMismatch))
      else Patched(db, Associations, row.id, RoleInTerritory2, Text(""))
  }

  method ClearUserTerritoryRole(org: Org, user: Id, territory: Id, expected: string) returns (r: Result<()>)
    modifies org
    ensures Served(old(org.db), org.db, r, ClearReply(old(org.db), user, territory, expected))
  {
    var record := GetUserTerritoryAssociation(org, user, territory);
    if record.Err? {
      return Err(record.error);
    }
    var current := record.value.Text(RoleInTerritory2);
    if current == "" {
      return Err(RoleAlreadyCleared);
    }
    if current != expected {
      return Err(RoleMismatch);
    }
    r := org.Patch(Associations, record.value.id, RoleInTerritory2, Text(""));
  }

  // ---------------------------------------------------------------- the builder

  method Grant(org: Org, principal: Principal, territory: Id, entitlementId: string, choice: Choice)
    returns (answer: Answer)
    requires Fresh(org.db, Associations, choice)
    modifies org
    ensures Settled(old(org.db), org.db, answer,
                    Run(old(org.db), GrantCall(principal, territory, entitlementId), choice))
  {
    hide Find, RoleOf, ParseEntitlementId, Fresh, Conflicting, Insert, Update;
    if principal.kind != User {
      return Failed(NotAUser);
    }
    var permission := ParseEntitlementId(entitlementId);
    if permission.None? {
      return Failed(BadEntitlementId);
    }
    var membership := GetUserTerritoryAssociation(org, principal.id, territory);
    if membership.Err? && membership.error != ObjectNotFound {
      return Failed(membership.error);
    }
    if permission.value == MEMBER {
      if membership.Ok? {
        return AlreadyExists;
      }
      var added := AddUserToTerritory(org, principal.id, territory, choice);
      if added.Err? {
        return if added.error == ObjectAlreadyExists then AlreadyExists else Failed(added.error);
      }
      return Granted([TerritoryMember(territory, principal.id)]);
    }
    var role := RoleOf(permission.value);
    if membership.Err? {
      var added := AddUserToTerritoryWithRole(org, principal.id, territory, role, choice);
      if added.Err? {
        return if added.error == ObjectAlreadyExists then AlreadyExists else Failed(added.error);
      }
      return Granted([TerritoryMember(territory, principal.id), TerritoryRole(territory, principal.id, role)]);
    }
    if membership.value.Text(RoleInTerritory2) == role {
      return AlreadyExists;
    }
    var set' := org.Patch(Associations, membership.value.id, RoleInTerritory2, Text(role));
    if set'.Err? {
      return Failed(set'.error);
    }
    answer := Granted([TerritoryRole(territory, principal.id, role)]);
  }

  method Revoke(org: Org, principal: Principal, territory: Id, entitlementId: string, ghost choice: Choice)
    returns (answer: Answer)
    requires Fresh(org.db, Associations, choice)
    modifies org
    ensures Settled(old(org.db), org.db, answer,
                    Run(old(org.db), RevokeCall(principal, territory, entitlementId), choice))
  {
    hide Find, RoleOf, ParseEntitlementId, Fresh, Without, Update;
    var permission := ParseEntitlementId(entitlementId);
    if permission.None? {
      return Failed(BadEntitlementId);
    }
    if permission.value == MEMBER {
      var removed := RemoveUserFromTerritory(org, principal.id, territory);
      if removed.Err? {
        return if removed.error == ObjectNotFound then AlreadyRevoked else Failed(removed.error);
      }
      return Revoked;
    }
    var cleared := ClearUserTerritoryRole(org, principal.id, territory, RoleOf(permission.value));
    if cleared.Err? {
      return if cleared.error in {ObjectNotFound, RoleAlreadyCleared, RoleMismatch} then AlreadyRevoked
             else Failed(cleared.error);
    }
    answer := Revoked;
  }

  /** One page of members as grants. */
  method Grants(territory: Id, members: seq<Row>) returns (grants: seq<Access.Grant>)
    ensures grants == PageGrants(Territory, territory, members)
  {
    ghost var emit := (r: Row) => RowGrants(Territory, territory, r);
    grants := [];
    for i := 0 to |members|
      invariant grants == FlatMap(emit, members[..i])
    {
      FlatMapStep(emit, members, i);
      grants := grants + [TerritoryMember(territory, members[i].Text(UserId))];
      if members[i].Text(RoleInTerritory2) != "" {
        grants := grants + [TerritoryRole(territory, members[i].Text(UserId), members[i].Text(RoleInTerritory2))];
      }
    }
    assert members[..|members|] == members;
  }
}
