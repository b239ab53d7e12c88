/** Direct assignments of permission sets. */
module PermissionSets {
  import opened Salesforce
  import opened Access
  import opened Links

  function GrantOutcome(db: Db, principal: Principal, permissionSet: Id, choice: Choice): Outcome
    requires Fresh(db, Assignments, choice)
  {
    if principal.kind != User then Outcome(db, Failed(NotAUser))
    else
      var reply := Created(db, Assignments, FieldsOf(Direct, permissionSet, principal.id), choice);
      Outcome(reply.db, if reply.result.Ok? then Granted([]) else Failed(reply.result.error))
  }

  function RevokeOutcome(db: Db, principal: Principal, permissionSet: Id): Outcome {
    if principal.kind != User then Outcome(db, Failed(NotAUser))
    else match FindLink(db, Direct, permissionSet, principal.id)
         case None => Outcome(db, Failed(ObjectNotFound))
         case Some(r) =>
           var reply := Deleted(db, Assignments, r.id);
           Outcome(reply.db, if reply.result.Ok? then Revoked else Failed(reply.result.error))
  }

  method Grant(org: Org, principal: Principal, permissionSet: Id, choice: Choice) returns (answer: Answer)
    requires Fresh(org.db, Assignments, choice)
    modifies org
    ensures Settled(old(org.db), org.db, answer, GrantOutcome(old(org.db), principal, permissionSet, choice))
  {
    if principal.kind != User {
      return Failed(NotAUser);
    }
    var added := org.Create(Assignments,
      map[AssigneeId := Text(principal.id), PermissionSetId := Text(permissionSet)], choice);
    answer := if added.Ok? then Granted([]) else Failed(added.error);
  }

  method Revoke(org: Org, principal: Principal, permissionSet: Id) returns (answer: Answer)
    modifies org
    ensures Settled(old(org.db), org.db, answer, RevokeOutcome(old(org.db), principal, permissionSet))
  {
    if principal.kind != User {
      return Failed(NotAUser);
    }
    var found := org.Query(Assignments, [Eq(AssigneeId, principal.id), Eq(PermissionSetId, permissionSet)]);
    if found.Err? {
      return Failed(found.error);
    }
    if |found.value| == 0 {
      return Failed(ObjectNotFound);
    }
    var deleted := org.Delete(Assignments, found.value[0].id);
    answer := if deleted.Ok? then Revoked else Failed(deleted.error);
  }
}
