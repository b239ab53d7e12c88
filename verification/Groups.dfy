/** Groups and their members. */
module Groups {
  import opened Collections
  import opened Strings
  import opened Salesforce
  import opened Access
  import opened SyncViews
  import opened Links

  function GrantOutcome(db: Db, principal: Principal, group: Id, choice: Choice): Outcome
    requires Fresh(db, GroupMembers, choice)
  {
    if principal.kind != User then Outcome(db, Failed(NotAUser))
    else
      var reply := Created(db, GroupMembers, FieldsOf(Membership, group, principal.id), choice);
      Outcome(reply.db, if reply.result.Ok? then Granted([]) else Failed(reply.result.error))
  }

  function RevokeOutcome(db: Db, principal: Principal, group: Id): Outcome {
    match FindLink(db, Membership, group, principal.id)
    case None => Outcome(db, AlreadyRevoked)
    case Some(r) =>
      var reply := Deleted(db, GroupMembers, r.id);
      Outcome(reply.db, if reply.result.Ok? then Revoked else Failed(reply.result.error))
  }

  method Grant(org: Org, principal: Principal, group: Id, choice: Choice) returns (answer: Answer)
    requires Fresh(org.db, GroupMembers, choice)
    modifies org
    ensures Settled(old(org.db), org.db, answer, GrantOutcome(old(org.db), principal, group, choice))
  {
    if principal.kind != User {
      return Failed(NotAUser);
    }
    var added := org.Create(GroupMembers, map[GroupId := Text(group), UserOrGroupId := Text(principal.id)], choice);
    answer := if added.Ok? then Granted([]) else Failed(added.error);
  }

  /** The client's RemoveUserFromGroup: false when there was no membership. */
  method RemoveUserFromGroup(org: Org, user: Id, group: Id) returns (r: Result<bool>)
    modifies org
    ensures var out := RevokeOutcome(old(org.db), Principal(User, user), group);
            Served(old(org.db), org.db, r,
                   Reply(out.db, if out.answer.Failed? then Err(out.answer.error) else Ok(out.answer.Revoked?)))
  {
    var found := org.Query(GroupMembers, [Eq(GroupId, group), Eq(UserOrGroupId, user)]);
    if found.Err? {
      return Err(found.error);
    }
    if |found.value| == 0 {
      return Ok(false);
    }
    var deleted := org.Delete(GroupMembers, found.value[0].id);
    r := if deleted.Ok? then Ok(true) else Err(deleted.error);
  }

  method Revoke(org: Org, principal: Principal, group: Id) returns (answer: Answer)
    modifies org
    ensures Settled(old(org.db), org.db, answer, RevokeOutcome(old(org.db), principal, group))
  {
    var wasRevoked := RemoveUserFromGroup(org, principal.id, group);
    if wasRevoked.Err? {
      return Failed(wasRevoked.error);
    }
    answer := if wasRevoked.value then Revoked else AlreadyRevoked;
  }

  /** One page of memberships as grants; records with an unknown principal are skipped. */
  method Grants(group: Id, memberships: seq<Row>) returns (grants: seq<Access.Grant>)
    ensures grants == PageGrants(Group, group, memberships)
  {
    ghost var emit := (r: Row) => RowGrants(Group, group, r);
    grants := [];
    for i := 0 to |memberships|
      invariant grants == FlatMap(emit, memberships[..i])
    {
      FlatMapStep(emit, memberships, i);
      var principal := memberships[i].Text(UserOrGroupId);
      if HasPrefix(principal, GROUP_ID_PREFIX) {
        grants := grants + [Access.Grant(Entitlement(Group, group, MEMBER), Principal(Group, principal), [])];
      } else if HasPrefix(principal, USER_ID_PREFIX) {
        grants := grants + [Access.Grant(Entitlement(Group, group, MEMBER), Principal(User, principal), [])];
      }
    }
    assert memberships[..|memberships|] == memberships;
  }
}
