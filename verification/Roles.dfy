/** Roles: a user has at most one, and a revoke clears it only if it is the named one. */
module Roles {
  import opened Collections
  import opened Salesforce
  import opened Access
  import opened SyncViews
  import opened UserFields

  function GrantOutcome(db: Db, principal: Principal, role: Id): Outcome {
    if principal.kind != User then Outcome(db, Failed(NotAUser))
    else
      var reply := SetReply(db, principal.id, UserRoleId, role);
      Outcome(reply.db, if reply.result.Ok? then Granted([]) else Failed(reply.result.error))
  }

  function RevokeOutcome(db: Db, principal: Principal, role: Id): Outcome {
    var reply := ClearReply(db, principal.id, UserRoleId, role);
    Outcome(reply.db, if reply.result.Ok? then Revoked else Failed(reply.result.error))
  }

  method Grant(org: Org, principal: Principal, role: Id) returns (answer: Answer)
    modifies org
    ensures Settled(old(org.db), org.db, answer, GrantOutcome(old(org.db), principal, role))
  {
    if principal.kind != User {
      return Failed(NotAUser);
    }
    var set' := SetValue(org, principal.id, UserRoleId, role);
    answer := if set'.Ok? then Granted([]) else Failed(set'.error);
  }

  method Revoke(org: Org, principal: Principal, role: Id) returns (answer: Answer)
    modifies org
    ensures Settled(old(org.db), org.db, answer, RevokeOutcome(old(org.db), principal, role))
  {
    var cleared := ClearValue(org, principal.id, UserRoleId, role);
    answer := if cleared.Ok? then Revoked else Failed(cleared.error);
  }

  /** One page of users with the role as grants. */
  method Grants(role: Id, assignments: seq<Row>) returns (grants: seq<Access.Grant>)
    ensures grants == PageGrants(UserRole, role, assignments)
  {
    ghost var emit := (r: Row) => RowGrants(UserRole, role, r);
    grants := [];
    for i := 0 to |assignments|
      invariant grants == FlatMap(emit, assignments[..i])
    {
      FlatMapStep(emit, assignments, i);
      grants := grants + [UserGrant(UserRole, role, ASSIGNED, assignments[i].id)];
    }
    assert assignments[..|assignments|] == assignments;
  }
}
