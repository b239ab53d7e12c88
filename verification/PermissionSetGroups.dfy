/** Assignments of permission set groups. */
module PermissionSetGroups {
  import opened Collections
  import opened Salesforce
  import opened Access
  import opened SyncViews
  import opened Links

  function GrantOutcome(db: Db, principal: Principal, psg: Id, choice: Choice): Outcome
    requires Fresh(db, Assignments, choice)
  {
    if principal.kind != User then Outcome(db, Failed(NotAUser))
    else if FindLink(db, ByGroup, psg, principal.id).Some? then Outcome(db, AlreadyExists)
    else
      var reply := Created(db, Assignments, FieldsOf(ByGroup, psg, principal.id), choice);
      Outcome(reply.db, if reply.result.Ok? then Granted(GrantsOf(ByGroup, psg, principal.id))
                        else Failed(reply.result.error))
  }

  function RevokeOutcome(db: Db, principal: Principal, psg: Id): Outcome {
    if principal.kind != User then Outcome(db, Failed(NotAUser))
    else match FindLink(db, ByGroup, psg, principal.id)
         case None => Outcome(db, AlreadyRevoked)
         case Some(r) =>
           var reply := Deleted(db, Assignments, r.id);
           Outcome(reply.db, if reply.result.Ok? then Revoked else Failed(reply.result.error))
  }

  method GetOneAssignment(org: Org, user: Id, psg: Id) returns (r: Result<Option<Row>>)
    ensures r == Err(Unreachable) || r == Ok(FindLink(org.db, ByGroup, psg, user))
  {
    var records := org.Query(Assignments, [Eq(AssigneeId, user), Eq(PermissionSetGroupId, psg)]);
    if records.Err? {
      return Err(records.error);
    }
    if |records.value| == 0 {
      return Ok(None);
    }
    r := Ok(Some(records.value[0]));
  }

  method Grant(org: Org, principal: Principal, psg: Id, choice: Choice) returns (answer: Answer)
    requires Fresh(org.db, Assignments, choice)
    modifies org
    ensures Settled(old(org.db), org.db, answer, GrantOutcome(old(org.db), principal, psg, choice))
  {
    if principal.kind != User {
      return Failed(NotAUser);
    }
    var existing := GetOneAssignment(org, principal.id, psg);
    if existing.Err? {
      return Failed(existing.error);
    }
    if existing.value.Some? {
      return AlreadyExists;
    }
    var added := org.Create(Assignments,
      map[AssigneeId := Text(principal.id), PermissionSetGroupId := Text(psg)], choice);
    if added.Err? {
      return Failed(added.error);
    }
    answer := Granted([UserGrant(PermissionSetGroup, psg, MEMBER, principal.id)]);
  }

  method Revoke(org: Org, principal: Principal, psg: Id) returns (answer: Answer)
    modifies org
    ensures Settled(old(org.db), org.db, answer, RevokeOutcome(old(org.db), principal, psg))
  {
    if principal.kind != User {
      return Failed(NotAUser);
    }
    var existing := GetOneAssignment(org, principal.id, psg);
    if existing.Err? {
      return Failed(existing.error);
    }
    if existing.value.None? {
      return AlreadyRevoked;
    }
    var deleted := org.Delete(Assignments, existing.value.value.id);
    answer := if deleted.Ok? then Revoked else Failed(deleted.error);
  }

  method Grants(psg: Id, assignments: seq<Row>) returns (grants: seq<Access.Grant>)
    ensures grants == PageGrants(PermissionSetGroup, psg, assignments)
  {
    ghost var emit := (r: Row) => RowGrants(PermissionSetGroup, psg, r);
    grants := [];
    for i := 0 to |assignments|
      invariant grants == FlatMap(emit, assignments[..i])
    {
      FlatMapStep(emit, assignments, i);
      grants := grants + [UserGrant(PermissionSetGroup, psg, MEMBER, assignments[i].Text(AssigneeId))];
    }
    assert assignments[..|assignments|] == assignments;
  }
}
