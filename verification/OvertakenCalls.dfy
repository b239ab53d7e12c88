/**
 The other calls that read before they write, with any writes by anybody in between: the
 revoke of a link deletes the record that was read, the revoke of a user's role clears the
 field that was compared, and a permission set group is granted after an empty read.
 */
module OvertakenCalls {
  import opened Collections
  import opened Salesforce
  import opened Access
  import opened Links
  import opened UserFields

  /** Writes that follow each other; an id in `used` is never given out again. */
  ghost predicate Feasible(db: Db, used: set<Id>, writes: seq<Write>)
    decreases |writes|
  {
    writes == [] ||
    (&& Possible(db, writes[0]) && (writes[0].Creation? ==> writes[0].choice.id !in used)
     && Feasible(Written(db, writes[0]), used, writes[1..]))
  }

  ghost function After(db: Db, used: set<Id>, writes: seq<Write>): Db
    requires Feasible(db, used, writes)
    decreases |writes|
  {
    if writes == [] then db else After(Written(db, writes[0]), used, writes[1..])
  }

  lemma WriteKeepsValid(db: Db, write: Write)
    requires Valid(db) && Possible(db, write)
    ensures Valid(Written(db, write))
  {
    hide Valid, Created, Patched, Deleted;
    match write
    case Creation(t, fields, choice) => CreateKeepsValid(db, t, fields, choice);
    case Patching(t, id, f, v) => PatchKeepsValid(db, t, id, f, v);
    case Deletion(t, id) => DeleteKeepsValid(db, t, id);
  }

  lemma {:induction false} AfterIsValid(db: Db, used: set<Id>, writes: seq<Write>)
    requires Valid(db) && Feasible(db, used, writes)
    ensures Valid(After(db, used, writes))
    decreases |writes|
  {
    hide Valid, Written, Possible;
    if writes != [] {
      WriteKeepsValid(db, writes[0]);
      AfterIsValid(Written(db, writes[0]), used, writes[1..]);
    }
  }

  /** Link records are never changed in place. */
  lemma WriteKeepsLinkRows(db: Db, write: Write, link: Link, r: Row)
    requires Possible(db, write) && r in Written(db, write).Rows(LinkTable(link))
    ensures r in db.Rows(LinkTable(link)) || (write.Creation? && r.id == write.choice.id)
  {
    hide Conflict;
    match write
    case Creation(t, fields, choice) =>
      CreateCases(db, t, fields, choice);
      InsertMembers(db.Rows(t), choice.at, Row(choice.id, fields));
    case Patching(t, id, f, v) =>
    case Deletion(t, id) => WithoutMembers(db.Rows(t), id);
  }

  lemma {:induction false} LinkRowsStay(db: Db, used: set<Id>, writes: seq<Write>, link: Link, r: Row)
    requires Feasible(db, used, writes) && r in After(db, used, writes).Rows(LinkTable(link)) && r.id in used
    ensures r in db.Rows(LinkTable(link))
    decreases |writes|
  {
    hide Written, Possible, LinkTable;
    if writes != [] {
      LinkRowsStay(Written(db, writes[0]), used, writes[1..], link, r);
      WriteKeepsLinkRows(db, writes[0], link, r);
    }
  }

  // ---------------------------------------------------------------- the revoke of a link

  /**
   However the revoke of a membership or an assignment is overtaken, its deletion hits a
   record of its own link or nothing: it takes exactly the named grant out of the view if
   the record that was read is still there, and else fails and changes nothing.
   */
  lemma OvertakenRevokeRemovesItsLink(db: Db, used: set<Id>, writes: seq<Write>,
                                      link: Link, resource: Id, principal: Id)
    requires Valid(db) && Feasible(db, used, writes) && resource != ""
    requires FindLink(db, link, resource, principal).Some? && FindLink(db, link, resource, principal).value.id in used
    ensures var read, now := FindLink(db, link, resource, principal).value, After(db, used, writes);
            var reply := Deleted(now, LinkTable(link), read.id);
            && Valid(reply.db)
            && (reply.result == Ok(()) <==> read in now.Rows(LinkTable(link)))
            && (reply.result == Ok(()) ==> View(reply.db) == View(now) - Shown(link, resource, principal)
                                           && FindLink(reply.db, link, resource, principal).None?)
            && (reply.result != Ok(()) ==> reply == Reply(now, Err(NoSuchRow)))
  {
    hide View, Emit, Carries, FindLink, GrantsOf, LinkTable, Feasible, After, UniqueRows, OneSided;
    var read, now := FindLink(db, link, resource, principal).value, After(db, used, writes);
    AfterIsValid(db, used, writes);
    DeleteKeepsValid(now, LinkTable(link), read.id);
    FoundLink(db, link, resource, principal);
    forall r | r in now.Rows(LinkTable(link)) && r.id == read.id ensures r == read {
      LinkRowsStay(db, used, writes, link, r);
      IdFixesRow(db, LinkTable(link), read);
    }
    if read in now.Rows(LinkTable(link)) {
      FoundIsRead(now, link, resource, principal, read);
      DeletingRemoves(now, link, resource, principal);
      NoneAfterDeletion(now, link, resource, principal);
    }
  }

  lemma FoundIsRead(db: Db, link: Link, resource: Id, principal: Id, r: Row)
    requires Valid(db) && r in db.Rows(LinkTable(link)) && Carries(link, r, resource, principal) && resource != ""
    ensures FindLink(db, link, resource, principal) == Some(r)
  {
    hide FindLink;
    FoundLink(db, link, resource, principal);
    assert UniqueRows(LinkTable(link), db.Rows(LinkTable(link)));
  }

  lemma NoneAfterDeletion(db: Db, link: Link, resource: Id, principal: Id)
    requires Valid(db) && resource != "" && FindLink(db, link, resource, principal).Some?
    ensures var r := FindLink(db, link, resource, principal).value;
            FindLink(Deleted(db, LinkTable(link), r.id).db, link, resource, principal).None?
  {
    hide FindLink, Carries, LinkTable;
    var r := FindLink(db, link, resource, principal).value;
    var after := Deleted(db, LinkTable(link), r.id).db;
    FoundLink(db, link, resource, principal);
    FoundLink(after, link, resource, principal);
    DeletedMembers(db, LinkTable(link), r.id);
    var left := FindLink(after, link, resource, principal);
    if left.Some? {
      FoundIsRead(db, link, resource, principal, left.value);
    }
  }

  // ---------------------------------------------------------------- the grant of a permission set group

  /**
   A grant whose read found no assignment: its write succeeds, and the reported grant
   appears, if and only if nobody else has made the assignment in between; then it fails
   although the grant is in the view.
   */
  lemma OvertakenGrantFailsIff(db: Db, used: set<Id>, writes: seq<Write>, psg: Id, user: Id, choice: Choice)
    requires Valid(db) && Feasible(db, used, writes) && psg != ""
    requires FindLink(db, ByGroup, psg, user).None? && Fresh(After(db, used, writes), Assignments, choice)
    ensures var now := After(db, used, writes);
            var reply := Created(now, Assignments, FieldsOf(ByGroup, psg, user), choice);
            && (reply.result.Ok? <==> FindLink(now, ByGroup, psg, user).None?)
            && (!reply.result.Ok? ==> reply == Reply(now, Err(Duplicate)))
            && UserGrant(PermissionSetGroup, psg, MEMBER, user) in View(reply.db)
            && (reply.result.Ok? <==> UserGrant(PermissionSetGroup, psg, MEMBER, user) !in View(now))
  {
    hide View, Valid, FindLink, Feasible, After, Created, Fresh;
    var now := After(db, used, writes);
    AfterIsValid(db, used, writes);
    CreatingAdds(now, ByGroup, psg, user, choice);
    FindSeesLink(now, ByGroup, psg, user);
    assert UserGrant(PermissionSetGroup, psg, MEMBER, user) in Shown(ByGroup, psg, user);
  }

  /** In an empty organisation: another writer makes the assignment first, and the grant fails. */
  lemma OvertakenGrantFails(psg: Id, user: Id)
    requires psg != ""
    ensures var db, writes := Db(map[]), [Creation(Assignments, FieldsOf(ByGroup, psg, user), Choice("a", 0))];
            && Valid(db) && Feasible(db, {}, writes) && FindLink(db, ByGroup, psg, user).None?
            && var now := After(db, {}, writes);
               && Fresh(now, Assignments, Choice("b", 0))
               && Created(now, Assignments, FieldsOf(ByGroup, psg, user), Choice("b", 0)) == Reply(now, Err(Duplicate))
               && UserGrant(PermissionSetGroup, psg, MEMBER, user) in View(now)
  {
    var fields, first, second := FieldsOf(ByGroup, psg, user), Choice("a", 0), Choice("b", 0);
    var db, write := Db(map[]), Creation(Assignments, fields, first);
    assert Possible(db, write) by { NewLink(ByGroup, "a", psg, user); }
    assert Created(db, Assignments, fields, first).db.Rows(Assignments) == [Row("a", fields)] by {
      CreateCases(db, Assignments, fields, first);
      assert Insert([], 0, Row("a", fields)) == [Row("a", fields)];
    }
    var now := Written(db, write);
    assert Fresh(now, Assignments, second) && Valid(db) && FindLink(db, ByGroup, psg, user).None?;
    hide View, Valid, FindLink, Created, Fresh, Conflict, Possible;
    assert Feasible(now, {}, []) && [write][1..] == [];
    assert Feasible(db, {}, [write]) && After(db, {}, [write]) == now;
    CreatingAdds(db, ByGroup, psg, user, first);
    assert UserGrant(PermissionSetGroup, psg, MEMBER, user) in Shown(ByGroup, psg, user);
    OvertakenGrantFailsIff(db, {}, [write], psg, user, second);
  }

  // ---------------------------------------------------------------- the revoke of a user's role

  /** The write of a role revoke whose read found the role. */
  function ClearWrite(now: Db, user: Id): Reply<()> {
    Patched(now, Users, user, UserRoleId, Text(""))
  }

  /**
   The compare-then-clear of a user's role erases whatever role the user has when the
   write arrives: the named one or none exactly when nobody put another one there.
   */
  lemma OvertakenClearErasesCurrentRole(db: Db, used: set<Id>, writes: seq<Write>, user: Id, role: Id)
    requires Valid(db) && Feasible(db, used, writes) && role != ""
    requires ClearReply(db, user, UserRoleId, role).result.Ok?
    requires Standard(After(db, used, writes), user)
    ensures var now := After(db, used, writes);
            var reply := ClearWrite(now, user);
            var current := FindUser(now, user).value.Text(UserRoleId);
            var lost := iset g | g in View(now) && g !in View(reply.db);
            && reply.result == Ok(()) && Valid(reply.db)
            && lost == Held(UserRoleId, current, user)
            && FieldGrant(UserRoleId, role, user) !in View(reply.db)
            && (lost <= iset{FieldGrant(UserRoleId, role, user)} <==> current in {"", role})
  {
    hide View, Valid, FindUser, Feasible, After, Holdings;
    var now := After(db, used, writes);
    AfterIsValid(db, used, writes);
    FoundUser(now, user);
    SetMovesView(now, user, UserRoleId, "");
    FieldInView(now, user, UserRoleId);
    var current := FindUser(now, user).value.Text(UserRoleId);
    HeldIsHolding(UserRoleId, current, user);
    HeldIsHolding(UserRoleId, role, user);
    assert FieldGrant(UserRoleId, role, user) in Held(UserRoleId, role, user);
    assert current != "" ==> FieldGrant(UserRoleId, current, user) in Held(UserRoleId, current, user);
    assert FieldGrant(UserRoleId, current, user).ent.resource == current;
  }

  /** One standard user with a role. */
  function WithRole(user: Id, role: Id): Db {
    Db(map[Users := [Row(user, map[UserRoleId := Text(role), UserType := Text(STANDARD)])]])
  }

  lemma WithRoleFound(user: Id, role: Id)
    ensures Valid(WithRole(user, role)) && Standard(WithRole(user, role), user)
    ensures WithRole(user, role).Rows(Users) != []
    ensures FindUser(WithRole(user, role), user) == Some(WithRole(user, role).Rows(Users)[0])
    ensures WithRole(user, role).Rows(Users)[0].id == user
    ensures WithRole(user, role).Rows(Users)[0].Text(UserRoleId) == role
  {
    var db := WithRole(user, role);
    assert db.Rows(Users)[0] in db.Rows(Users);
    FoundUser(db, user);
  }

  lemma WithRolePatched(user: Id, role: Id, other: Id)
    ensures Patched(WithRole(user, role), Users, user, UserRoleId, Text(other)) == Reply(WithRole(user, other), Ok(()))
  {
    var db, r := WithRole(user, role), WithRole(user, role).Rows(Users)[0];
    var r' := WithRole(user, other).Rows(Users)[0];
    assert r in db.Rows(Users) && r.Set(UserRoleId, Text(other)).fields == r'.fields;
    assert Update([r], user, UserRoleId, Text(other)) == [r'];
    assert db.With(Users, [r']).tables == WithRole(user, other).tables;
  }

  /** A role revoke that reads one role, is overtaken by a change of it, and erases the other. */
  lemma OvertakenClearErasesOtherRole(user: Id, role: Id, other: Id)
    requires role != "" && other != "" && role != other
    ensures var db, writes := WithRole(user, role), [Patching(Users, user, UserRoleId, Text(other))];
            && Valid(db) && Feasible(db, {user}, writes)
            && ClearReply(db, user, UserRoleId, role).result.Ok?
            && var now := After(db, {user}, writes);
               FieldGrant(UserRoleId, other, user) in View(now)
               && FieldGrant(UserRoleId, other, user) !in View(ClearWrite(now, user).db)
  {
    var db, write := WithRole(user, role), Patching(Users, user, UserRoleId, Text(other));
    WithRoleFound(user, role);
    WithRoleFound(user, other);
    WithRolePatched(user, role, other);
    WithRolePatched(user, role, "");
    hide View, Valid, FindUser, WithRole, Patched;
    assert Feasible(Written(db, write), {user}, []) && [write][1..] == [];
    assert After(db, {user}, [write]) == WithRole(user, other);
    OvertakenClearErasesCurrentRole(db, {user}, [write], user, role);
    assert FieldGrant(UserRoleId, other, user) in Held(UserRoleId, other, user);
  }
}
