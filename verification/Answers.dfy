/**
 What Grant and Revoke answer, and what they leave behind, told from the rows of the
 tables and from the view alone.
 */
module Answers {
  import opened Collections
  import opened Salesforce
  import opened Access
  import Links
  import UserFields
  import Groups
  import PermissionSets
  import PermissionSetGroups
  import Profiles
  import Roles
  import Territories
  import TerritoryProperties
  import Provisioning

  // ---------------------------------------------------------------- groups

  ghost predicate InGroup(db: Db, group: Id, member: Id) {
    exists r :: r in db.Rows(GroupMembers) && r.Text(GroupId) == group && r.Text(UserOrGroupId) == member
  }

  lemma FoundInGroup(db: Db, group: Id, member: Id)
    ensures Links.FindLink(db, Links.Membership, group, member).Some? <==> InGroup(db, group, member)
  {
    hide Links.FindLink;
    Links.FoundLink(db, Links.Membership, group, member);
    if r :| r in db.Rows(GroupMembers) && r.Text(GroupId) == group && r.Text(UserOrGroupId) == member {
      assert Links.Carries(Links.Membership, r, group, member);
    }
  }

  /** Only users are added; the membership is there afterwards, and nothing changes if it was before. */
  lemma GroupGrantAnswer(db: Db, principal: Principal, group: Id, choice: Choice)
    requires Valid(db) && Fresh(db, GroupMembers, choice) && group != ""
    ensures var out := Groups.GrantOutcome(db, principal, group, choice);
            if principal.kind != User then out == Outcome(db, Failed(NotAUser))
            else && out.answer == Granted([]) && InGroup(out.db, group, principal.id)
                 && (InGroup(db, group, principal.id) ==> out.db == db)
  {
    var fields := Links.FieldsOf(Links.Membership, group, principal.id);
    var r := Row(choice.id, fields);
    CreateCases(db, GroupMembers, fields, choice);
    InsertMembers(db.Rows(GroupMembers), choice.at, r);
    assert r.Text(GroupId) == group && r.Text(UserOrGroupId) == principal.id;
    assert forall s :: Conflict(GroupMembers, r, s) <==>
                         s.Text(GroupId) == group && s.Text(UserOrGroupId) == principal.id;
    hide Conflict, Created, Links.FieldsOf, Fresh;
  }

  /** "Already revoked" exactly when there is no membership, and then nothing changes; else it is gone. */
  lemma GroupRevokeAnswer(db: Db, principal: Principal, group: Id)
    requires Valid(db) && group != ""
    ensures var out := Groups.RevokeOutcome(db, principal, group);
            if InGroup(db, group, principal.id) then out.answer == Revoked && !InGroup(out.db, group, principal.id)
            else out == Outcome(db, AlreadyRevoked)
  {
    hide Links.FindLink, Valid;
    FoundInGroup(db, group, principal.id);
    LinkGone(db, Links.Membership, group, principal.id);
    FoundInGroup(Groups.RevokeOutcome(db, principal, group).db, group, principal.id);
  }

  lemma LinkGone(db: Db, link: Links.Link, resource: Id, principal: Id)
    requires Valid(db) && resource != ""
    ensures match Links.FindLink(db, link, resource, principal)
            case None => true
            case Some(r) =>
              var reply := Deleted(db, Links.LinkTable(link), r.id);
              reply.result == Ok(()) && Links.FindLink(reply.db, link, resource, principal).None?
  {
    hide Links.FindLink, Links.Carries, Links.LinkTable;
    Links.FoundLink(db, link, resource, principal);
    match Links.FindLink(db, link, resource, principal)
    case None =>
    case Some(r) =>
      var after := Deleted(db, Links.LinkTable(link), r.id).db;
      Links.FoundLink(after, link, resource, principal);
      Links.DeletedMembers(db, Links.LinkTable(link), r.id);
      var left := Links.FindLink(after, link, resource, principal);
      if left.Some? {
        SameLinkSameRow(db, link, resource, principal, r, left.value);
      }
  }

  lemma SameLinkSameRow(db: Db, link: Links.Link, resource: Id, principal: Id, r: Row, s: Row)
    requires Valid(db) && r in db.Rows(Links.LinkTable(link)) && s in db.Rows(Links.LinkTable(link))
    requires Links.Carries(link, r, resource, principal) && Links.Carries(link, s, resource, principal)
    requires resource != ""
    ensures r == s
  {
    assert UniqueRows(Links.LinkTable(link), db.Rows(Links.LinkTable(link)));
    assert Conflict(Links.LinkTable(link), r, s);
  }

  // ---------------------------------------------------------------- permission sets

  ghost predicate Assigned(db: Db, permissionSet: Id, user: Id) {
    exists r :: r in db.Rows(Assignments) && r.Text(PermissionSetId) == permissionSet && r.Text(AssigneeId) == user
  }

  lemma FoundAssigned(db: Db, permissionSet: Id, user: Id)
    ensures Links.FindLink(db, Links.Direct, permissionSet, user).Some? <==> Assigned(db, permissionSet, user)
  {
    hide Links.FindLink;
    Links.FoundLink(db, Links.Direct, permissionSet, user);
    if r :| r in db.Rows(Assignments) && r.Text(PermissionSetId) == permissionSet && r.Text(AssigneeId) == user {
      assert Links.Carries(Links.Direct, r, permissionSet, user);
    }
  }

  /** Only users are assigned; an assignment that is there already is an error that changes nothing. */
  lemma PermissionSetGrantAnswer(db: Db, principal: Principal, permissionSet: Id, choice: Choice)
    requires Valid(db) && Fresh(db, Assignments, choice) && permissionSet != ""
    ensures var out := PermissionSets.GrantOutcome(db, principal, permissionSet, choice);
            if principal.kind != User then out == Outcome(db, Failed(NotAUser))
            else if Assigned(db, permissionSet, principal.id) then out == Outcome(db, Failed(Duplicate))
            else out.answer == Granted([]) && Assigned(out.db, permissionSet, principal.id)
  {
    var fields := Links.FieldsOf(Links.Direct, permissionSet, principal.id);
    var r := Row(choice.id, fields);
    CreateCases(db, Assignments, fields, choice);
    InsertMembers(db.Rows(Assignments), choice.at, r);
    assert r.Text(PermissionSetId) == permissionSet && r.Text(AssigneeId) == principal.id;
    assert forall s :: Conflict(Assignments, r, s) <==>
                         s.Text(PermissionSetId) == permissionSet && s.Text(AssigneeId) == principal.id by {
      Links.NewLink(Links.Direct, choice.id, permissionSet, principal.id);
    }
    hide Conflict, Created, Links.FieldsOf, Fresh;
  }

  /** Only users are revoked; a missing assignment is an error that changes nothing; else it is gone. */
  lemma PermissionSetRevokeAnswer(db: Db, principal: Principal, permissionSet: Id)
    requires Valid(db) && permissionSet != ""
    ensures var out := PermissionSets.RevokeOutcome(db, principal, permissionSet);
            if principal.kind != User then out == Outcome(db, Failed(NotAUser))
            else if Assigned(db, permissionSet, principal.id)
            then out.answer == Revoked && !Assigned(out.db, permissionSet, principal.id)
            else out == Outcome(db, Failed(ObjectNotFound))
  {
    hide Links.FindLink, Valid;
    FoundAssigned(db, permissionSet, principal.id);
    LinkGone(db, Links.Direct, permissionSet, principal.id);
    FoundAssigned(PermissionSets.RevokeOutcome(db, principal, permissionSet).db, permissionSet, principal.id);
  }

  // ---------------------------------------------------------------- permission set groups

  function MemberGrant(psg: Id, user: Id): Grant {
    Grant(Entitlement(PermissionSetGroup, psg, "member"), Principal(User, user), [])
  }

  /**
   "Already exists" exactly when the view has the grant, and then nothing changes; else the
   reported grants are exactly what the view gains, and that is the requested grant.
   */
  lemma PermissionSetGroupGrantAnswer(db: Db, principal: Principal, psg: Id, choice: Choice)
    requires Valid(db) && Fresh(db, Assignments, choice) && psg != "" && principal.kind == User
    ensures var asked := MemberGrant(psg, principal.id);
            var out := PermissionSetGroups.GrantOutcome(db, principal, psg, choice);
            if asked in View(db) then out == Outcome(db, AlreadyExists)
            else out.answer.Granted? && asked in out.answer.grants
                 && forall g :: g in out.answer.grants <==> g in View(out.db) && g !in View(db)
  {
    hide View, Valid, Links.FindLink, Created, Fresh;
    var asked := MemberGrant(psg, principal.id);
    Links.FindSeesLink(db, Links.ByGroup, psg, principal.id);
    Links.CreatingAdds(db, Links.ByGroup, psg, principal.id, choice);
    assert Links.Shown(Links.ByGroup, psg, principal.id) == iset{asked};
    assert asked in iset{asked};
  }

  /** "Already revoked" exactly when the view lacks the grant, and then nothing changes; else just it is gone. */
  lemma PermissionSetGroupRevokeAnswer(db: Db, principal: Principal, psg: Id)
    requires Valid(db) && psg != "" && principal.kind == User
    ensures var out, asked := PermissionSetGroups.RevokeOutcome(db, principal, psg), MemberGrant(psg, principal.id);
            if asked in View(db) then out.answer == Revoked && View(out.db) == View(db) - iset{asked}
            else out == Outcome(db, AlreadyRevoked)
  {
    hide View, Valid, Links.FindLink, Deleted;
    var asked := MemberGrant(psg, principal.id);
    Links.FindSeesLink(db, Links.ByGroup, psg, principal.id);
    Links.DeletingRemoves(db, Links.ByGroup, psg, principal.id);
    LinkGone(db, Links.ByGroup, psg, principal.id);
    assert Links.Shown(Links.ByGroup, psg, principal.id) == iset{asked};
    assert asked in iset{asked};
  }

  /** Other principals are refused by both calls. */
  lemma PermissionSetGroupsAreForUsers(db: Db, principal: Principal, psg: Id, choice: Choice)
    requires Fresh(db, Assignments, choice) && principal.kind != User
    ensures PermissionSetGroups.GrantOutcome(db, principal, psg, choice) == Outcome(db, Failed(NotAUser))
    ensures PermissionSetGroups.RevokeOutcome(db, principal, psg) == Outcome(db, Failed(NotAUser))
  {
  }

  // ---------------------------------------------------------------- profiles, roles and the active state

  /** All records of a user hold the value; there is one if the user exists. */
  ghost predicate Holds(db: Db, user: Id, f: Field, v: string) {
    forall r :: r in db.Rows(Users) && r.id == user ==> r.Text(f) == v
  }

  ghost predicate Exists(db: Db, user: Id) {
    exists r :: r in db.Rows(Users) && r.id == user
  }

  lemma SetWrites(db: Db, user: Id, f: Field, v: string)
    ensures var reply := UserFields.SetReply(db, user, f, v);
            if Exists(db, user) then reply.result == Ok(()) && Exists(reply.db, user) && Holds(reply.db, user, f, v)
            else reply == Reply(db, Err(NoSuchRow))
  {
    hide UserFields.FindUser;
    UserFields.FoundUser(db, user);
    UserFields.SetChangesOneField(db, user, f, v);
    var rows, after := db.Rows(Users), UserFields.SetReply(db, user, f, v).db.Rows(Users);
    if r :| r in rows && r.id == user {
      var i :| 0 <= i < |rows| && rows[i] == r;
      assert after[i] in after && after[i].id == user;
    }
    forall s | s in after && s.id == user ensures s.Text(f) == v {
      var i :| 0 <= i < |after| && after[i] == s;
      assert UserFields.OneFieldChanged(rows[i], after[i], user, f, v);
    }
  }

  /** A profile or role is set for users that exist, whatever they held before; other principals are refused. */
  lemma FieldGrantAnswer(db: Db, principal: Principal, id: Id)
    ensures var out := Profiles.GrantOutcome(db, principal, id);
            if principal.kind != User then out == Outcome(db, Failed(NotAUser))
            else if Exists(db, principal.id) then
              out.answer == Granted([]) && Holds(out.db, principal.id, ProfileId, id)
            else out == Outcome(db, Failed(NoSuchRow))
    ensures var out := Roles.GrantOutcome(db, principal, id);
            if principal.kind != User then out == Outcome(db, Failed(NotAUser))
            else if Exists(db, principal.id) then
              out.answer == Granted([]) && Holds(out.db, principal.id, UserRoleId, id)
            else out == Outcome(db, Failed(NoSuchRow))
  {
    hide UserFields.SetReply;
    SetWrites(db, principal.id, ProfileId, id);
    SetWrites(db, principal.id, UserRoleId, id);
  }

  /** A role is cleared exactly when the user holds it; any other case is an error that changes nothing. */
  lemma RoleRevokeAnswer(db: Db, principal: Principal, role: Id)
    requires Valid(db)
    ensures var out := Roles.RevokeOutcome(db, principal, role);
            if !Exists(db, principal.id) then out == Outcome(db, Failed(NoSuchRow))
            else if Holds(db, principal.id, UserRoleId, role)
            then out.answer == Revoked && Holds(out.db, principal.id, UserRoleId, "")
            else out == Outcome(db, Failed(MissingValue))
  {
    hide UserFields.FindUser;
    UserFields.FoundUser(db, principal.id);
    SetWrites(db, principal.id, UserRoleId, "");
    if Exists(db, principal.id) {
      IdFixesRow(db, Users, UserFields.FindUser(db, principal.id).value);
    }
  }

  /** After an activation the user is active, and after a deactivation not; nobody else's state changes. */
  lemma ActivationTakesEffect(db: Db, mapping: map<string, string>, user: Id, active: bool, choice: Choice)
    requires Fresh(db, Users, choice)
    ensures var out := Provisioning.Apply(db, mapping, Provisioning.Activation(user, active), choice);
            && (if Exists(db, user) then out.answer == Granted([]) else out == Outcome(db, Failed(NoSuchRow)))
            && |out.db.Rows(Users)| == |db.Rows(Users)|
            && forall i :: 0 <= i < |db.Rows(Users)| ==>
                 var before, now := db.Rows(Users)[i], out.db.Rows(Users)[i];
                 && now.id == before.id
                 && now.Bool(IsActive) == if before.id == user then Some(active) else before.Bool(IsActive)
  {
    hide UserFields.FindUser;
    UserFields.FoundUser(db, user);
    SetWrites(db, user, IsActive, if active then "true" else "false");
  }

  // ---------------------------------------------------------------- territories

  /** A territory grant fails for others than users and for malformed ids, a revoke for malformed ids alone. */
  lemma TerritoryFailures(db: Db, principal: Principal, territory: Id, id: string, choice: Choice)
    requires Valid(db) && Fresh(db, Associations, choice) && territory != ""
    ensures var out := Territories.Run(db, Territories.GrantCall(principal, territory, id), choice);
            if principal.kind != User then out == Outcome(db, Failed(NotAUser))
            else if Territories.ParseEntitlementId(id).None? then out == Outcome(db, Failed(BadEntitlementId))
            else out.answer.Granted? || out == Outcome(db, AlreadyExists)
    ensures var out := Territories.Run(db, Territories.RevokeCall(principal, territory, id), choice);
            if Territories.ParseEntitlementId(id).None? then out == Outcome(db, Failed(BadEntitlementId))
            else out.answer == Revoked || out == Outcome(db, AlreadyRevoked)
  {
    hide Territories.ParseEntitlementId, Valid, View;
    var permission := Territories.ParseEntitlementId(id);
    if permission.Some? {
      hide Territories.Run;
      TerritoryProperties.RunMovesSeat(
        db, Territories.GrantCall(principal, territory, id), permission.value, choice);
      TerritoryProperties.RunMovesSeat(
        db, Territories.RevokeCall(principal, territory, id), permission.value, choice);
    }
  }

  // ---------------------------------------------------------------- the least privileged profile

  /** The profile is first among those of its name. */
  ghost predicate FirstNamed(profiles: seq<Row>, q: Row, name: string) {
    exists i :: 0 <= i < |profiles| && profiles[i] == q && q.Text(Name) == name
                && forall j :: 0 <= j < i ==> profiles[j].Text(Name) != name
  }

  /** The chain of records behind a revoke of a profile: its license, and the first profile its name is mapped to. */
  ghost predicate Chain(db: Db, mapping: map<string, string>, profile: Id, p: Row, l: Row, q: Row) {
    && p in db.Rows(Table.Profiles) && p.id == profile
    && l in db.Rows(UserLicenses) && l.id == p.Text(UserLicenseId)
    && l.Text(Name) in mapping && FirstNamed(db.Rows(Table.Profiles), q, mapping[l.Text(Name)])
  }

  lemma ProfileFound(db: Db, id: Id)
    ensures match Profiles.ProfileById(db, id)
            case Some(p) => p in db.Rows(Table.Profiles) && p.id == id
            case None => forall p :: p in db.Rows(Table.Profiles) ==> p.id != id
  {
    FirstMatch(db, Table.Profiles, [IdIs(id)]);
    assert forall p: Row :: Matches(p, [IdIs(id)]) <==> Salesforce.Holds([IdIs(id)][0], p);
  }

  lemma LicenseFound(db: Db, id: Id)
    ensures match Profiles.LicenseById(db, id)
            case Some(l) => l in db.Rows(UserLicenses) && l.id == id
            case None => forall l :: l in db.Rows(UserLicenses) ==> l.id != id
  {
    FirstMatch(db, UserLicenses, [IdIs(id)]);
    assert forall l: Row :: Matches(l, [IdIs(id)]) <==> Salesforce.Holds([IdIs(id)][0], l);
  }

  lemma NamedProfileFound(db: Db, name: string)
    ensures match Profiles.ProfileByName(db, name)
            case Some(q) => FirstNamed(db.Rows(Table.Profiles), q, name)
            case None => forall q :: q in db.Rows(Table.Profiles) ==> q.Text(Name) != name
  {
    assert forall q: Row :: Matches(q, [Eq(Name, name)]) <==> Salesforce.Holds([Eq(Name, name)][0], q);
    FirstMatch(db, Table.Profiles, [Eq(Name, name)]);
    if Profiles.ProfileByName(db, name).Some? {
      var i := FirstInOrder(db, Table.Profiles, [Eq(Name, name)]);
    }
  }

  /** A successful revoke puts the user on the profile at the end of the chain. */
  lemma ProfileRevokeFollowsChain(db: Db, mapping: map<string, string>, principal: Principal, profile: Id)
    requires Profiles.RevokeOutcome(db, mapping, principal, profile).answer == Revoked
    ensures var out := Profiles.RevokeOutcome(db, mapping, principal, profile);
            Exists(out.db, principal.id)
            && exists p, l, q :: Chain(db, mapping, profile, p, l, q) && Holds(out.db, principal.id, ProfileId, q.id)
  {
    hide Profiles.ProfileById, Profiles.LicenseById, Profiles.ProfileByName, UserFields.SetReply, FirstNamed;
    ProfileFound(db, profile);
    var p := Profiles.ProfileById(db, profile).value;
    LicenseFound(db, p.Text(UserLicenseId));
    var l := Profiles.LicenseById(db, p.Text(UserLicenseId)).value;
    NamedProfileFound(db, mapping[l.Text(Name)]);
    var q := Profiles.ProfileByName(db, mapping[l.Text(Name)]).value;
    SetWrites(db, principal.id, ProfileId, q.id);
    assert Chain(db, mapping, profile, p, l, q);
  }

  /** The failures of a revoke, in the records of a database in which ids are unique; none changes anything. */
  lemma ProfileRevokeFailures(db: Db, mapping: map<string, string>, principal: Principal, profile: Id, p: Row)
    requires Valid(db) && p in db.Rows(Table.Profiles) && p.id == profile
    ensures var out := Profiles.RevokeOutcome(db, mapping, principal, profile);
            && (out.answer == Failed(LicenseNotFound) <==>
                  forall l :: l in db.Rows(UserLicenses) ==> l.id != p.Text(UserLicenseId))
            && (out.answer == Failed(NoMappingForLicense) <==>
                  exists l :: l in db.Rows(UserLicenses) && l.id == p.Text(UserLicenseId) && l.Text(Name) !in mapping)
            && (out.answer == Failed(Panic) <==>
                  exists l :: l in db.Rows(UserLicenses) && l.id == p.Text(UserLicenseId) && l.Text(Name) in mapping
                    && forall q :: q in db.Rows(Table.Profiles) ==> q.Text(Name) != mapping[l.Text(Name)])
            && (out.answer == Failed(NoSuchRow) <==>
                  !Exists(db, principal.id) && exists l, q :: Chain(db, mapping, profile, p, l, q))
            && (out.answer != Revoked ==> out.db == db)
  {
    hide Profiles.ProfileById, Profiles.LicenseById, Profiles.ProfileByName;
    hide UserFields.SetReply, FirstNamed, UniqueRows;
    ProfileFound(db, profile);
    IdFixesRow(db, Table.Profiles, p);
    LicenseFound(db, p.Text(UserLicenseId));
    var license := Profiles.LicenseById(db, p.Text(UserLicenseId));
    if license.Some? {
      var l := license.value;
      IdFixesRow(db, UserLicenses, l);
      if l.Text(Name) in mapping {
        NamedProfileFound(db, mapping[l.Text(Name)]);
        var least := Profiles.ProfileByName(db, mapping[l.Text(Name)]);
        if least.Some? {
          SetWrites(db, principal.id, ProfileId, least.value.id);
          assert Chain(db, mapping, profile, p, l, least.value);
        } else {
          forall q ensures !FirstNamed(db.Rows(Table.Profiles), q, mapping[l.Text(Name)]) {
            NotFirstIfNone(db.Rows(Table.Profiles), q, mapping[l.Text(Name)]);
          }
        }
      }
    }
  }

  /** A revoke of a profile that does not exist dereferences nil. */
  lemma ProfileRevokeOfNone(db: Db, mapping: map<string, string>, principal: Principal, profile: Id)
    requires forall p :: p in db.Rows(Table.Profiles) ==> p.id != profile
    ensures Profiles.RevokeOutcome(db, mapping, principal, profile) == Outcome(db, Failed(Panic))
  {
    ProfileFound(db, profile);
  }

  lemma NotFirstIfNone(profiles: seq<Row>, q: Row, name: string)
    requires forall r :: r in profiles ==> r.Text(Name) != name
    ensures !FirstNamed(profiles, q, name)
  {
  }
}
