/** The single-valued fields of a user: profile, role and active state. */
module UserFields {
  import opened Collections
  import opened Salesforce
  import opened Access
  import Links

  function FindUser(db: Db, id: Id): Option<Row> {
    First(Select(db, Users, [IdIs(id)]))
  }

  function SetReply(db: Db, user: Id, f: Field, v: string): Reply<()> {
    match FindUser(db, user)
    case None => Reply(db, Err(NoSuchRow))
    case Some(r) => Patched(db, Users, r.id, f, Text(v))
  }

  function ClearReply(db: Db, user: Id, f: Field, v: string): Reply<()> {
    match FindUser(db, user)
    case None => Reply(db, Err(NoSuchRow))
    case Some(r) =>
      if r.Text(f) != v then Reply(db, Err(MissingValue)) else Patched(db, Users, r.id, f, Text(""))
  }

  // ---------------------------------------------------------------- the client's requests

  method GetOneUser(org: Org, user: Id) returns (r: Result<Row>)
    ensures r == Err(Unreachable)
         || r == (match FindUser(org.db, user) case None => Err(NoSuchRow) case Some(row) => Ok(row))
  {
    var records := org.Query(Users, [IdIs(user)]);
    if records.Err? {
      return Err(records.error);
    }
    if |records.value| == 0 {
      return Err(NoSuchRow);
    }
    r := Ok(records.value[0]);
  }

  /** A patch body that starts from the allowed fields the record has a value for. */
  method CopySObject(record: Row, allowed: seq<Field>) returns (copy: map<Field, Value>)
    ensures copy.Keys == set f | f in allowed && record.Text(f) != ""
    ensures forall f :: f in copy ==> copy[f] == Text(record.Text(f))
  {
    copy := map[];
    for i := 0 to |allowed|
      invariant copy.Keys == set f | f in allowed[..i] && record.Text(f) != ""
      invariant forall f :: f in copy ==> copy[f] == Text(record.Text(f))
    {
      assert allowed[..i + 1] == allowed[..i] + [allowed[i]];
      if record.Text(allowed[i]) == "" {
        continue;
      }
      copy := copy[allowed[i] := Text(record.Text(allowed[i]))];
    }
    assert allowed[..|allowed|] == allowed;
  }

  /** The body that is sent holds the changed field and no other. */
  method UpdateUser(org: Org, id: Id, copy: map<Field, Value>, f: Field, v: string) returns (r: Result<()>)
    requires copy.Keys <= {f}
    modifies org
    ensures Served(old(org.db), org.db, r, Patched(old(org.db), Users, id, f, Text(v)))
  {
    var body := copy[f := Text(v)];
    assert body == map[f := Text(v)];
    r := org.Patch(Users, id, f, body[f]);
  }

  method SetValue(org: Org, user: Id, f: Field, v: string) returns (r: Result<()>)
    modifies org
    ensures Served(old(org.db), org.db, r, SetReply(old(org.db), user, f, v))
  {
    var record := GetOneUser(org, user);
    if record.Err? {
      return Err(record.error);
    }
    var copy := CopySObject(record.value, [f]);
    r := UpdateUser(org, record.value.id, copy, f, v);
  }

  method ClearValue(org: Org, user: Id, f: Field, v: string) returns (r: Result<()>)
    modifies org
    ensures Served(old(org.db), org.db, r, ClearReply(old(org.db), user, f, v))
  {
    var record := GetOneUser(org, user);
    if record.Err? {
      return Err(record.error);
    }
    if record.value.Text(f) != v {
      return Err(MissingValue);
    }
    var copy := CopySObject(record.value, [f]);
    r := UpdateUser(org, record.value.id, copy, f, "");
  }

  // ---------------------------------------------------------------- the fields in the view

  predicate IsShown(f: Field) {
    f == ProfileId || f == UserRoleId
  }

  function FieldGrant(f: Field, v: Id, user: Id): Grant
    requires IsShown(f)
  {
    UserGrant(if f == ProfileId then Profile else UserRole, v, ASSIGNED, user)
  }

  /** The grant a field value shows: none for the empty value. */
  ghost function Held(f: Field, v: Id, user: Id): iset<Grant>
    requires IsShown(f)
  {
    if v == "" then iset{} else iset{FieldGrant(f, v, user)}
  }

  /** Every profile, or every role, that a user might hold. */
  ghost function Holdings(f: Field, user: Id): iset<Grant>
    requires IsShown(f)
  {
    iset g: Grant | g.ent.kind == (if f == ProfileId then Profile else UserRole) && g.principal == Principal(User, user)
  }

  ghost predicate Standard(db: Db, user: Id) {
    FindUser(db, user).Some? && FindUser(db, user).value.Text(UserType) == STANDARD
  }

  lemma FoundUser(db: Db, user: Id)
    ensures var found := FindUser(db, user);
            && (found.Some? ==> found.value in db.Rows(Users) && found.value.id == user)
            && (found.None? ==> forall r :: r in db.Rows(Users) ==> r.id != user)
  {
    FirstMatch(db, Users, [IdIs(user)]);
    assert forall r: Row :: Matches(r, [IdIs(user)]) <==> r.id == user by {
      assert forall r: Row :: Matches(r, [IdIs(user)]) <==> Holds([IdIs(user)][0], r);
    }
  }

  lemma EmittedUser(r: Row)
    ensures r.Text(UserType) == STANDARD ==>
              Emitted(Users, r) == Held(ProfileId, r.Text(ProfileId), r.id) + Held(UserRoleId, r.Text(UserRoleId), r.id)
    ensures r.Text(UserType) != STANDARD ==> Emitted(Users, r) == iset{}
  {
  }

  lemma HeldIsHolding(f: Field, v: Id, user: Id)
    requires IsShown(f)
    ensures Held(f, v, user) <= Holdings(f, user)
    ensures forall g :: g in Held(f, v, user) ==> g.ent.resource == v != ""
  {
  }

  lemma HoldingSource(f: Field, t: Table, r: Row, g: Grant, user: Id)
    requires IsShown(f) && g in Emit(t, r) && g in Holdings(f, user)
    ensures t == Users && r.id == user
  {
    hide Emit;
    EmitTraces(t, r, g);
  }

  /** The view shows exactly the value that a standard user's row holds. */
  lemma FieldInView(db: Db, user: Id, f: Field)
    requires Valid(db) && IsShown(f)
    ensures View(db) * Holdings(f, user) ==
              if Standard(db, user) then Held(f, FindUser(db, user).value.Text(f), user) else iset{}
  {
    hide Emit, FindUser, Held, Holdings, UniqueRows;
    FoundUser(db, user);
    var found := FindUser(db, user);
    forall g | g in View(db) * Holdings(f, user) ensures found.Some? && g in Emitted(Users, found.value) {
      var t, r :| r in db.Rows(t) && g in Emit(t, r);
      HoldingSource(f, t, r, g, user);
      IdFixesRow(db, Users, r);
    }
    if found.Some? {
      EmittedUser(found.value);
      assert forall g :: g in Emitted(Users, found.value) ==> g in View(db);
      HeldIsHolding(f, found.value.Text(f), user);
      FieldsApart(found.value.Text(ProfileId), found.value.Text(UserRoleId), user);
    }
  }

  lemma FieldsApart(profile: Id, role: Id, user: Id)
    ensures Held(ProfileId, profile, user) !! Holdings(UserRoleId, user)
    ensures Held(UserRoleId, role, user) !! Holdings(ProfileId, user)
  {
  }

  lemma SetKeepsOthers(r: Row, f: Field, v: string)
    ensures var r' := r.Set(f, Text(v));
            r'.id == r.id && r'.Text(f) == v && forall g :: g != f ==> r'.Text(g) == r.Text(g)
  {
  }

  /** Writing the field of a standard user replaces what the view shows of it. */
  lemma SetMovesView(db: Db, user: Id, f: Field, v: string)
    requires Valid(db) && IsShown(f)
    ensures var reply := SetReply(db, user, f, v);
            && Valid(reply.db)
            && (reply.result.Ok? <==> FindUser(db, user).Some?)
            && View(reply.db) ==
                 if Standard(db, user) then View(db) - Holdings(f, user) + Held(f, v, user) else View(db)
  {
    hide Emit, Emitted, FindUser, Held, Holdings, Valid, View, Row.Set;
    FoundUser(db, user);
    if FindUser(db, user).Some? {
      var r := FindUser(db, user).value;
      var r' := r.Set(f, Text(v));
      PatchKeepsValid(db, Users, r.id, f, Text(v));
      PatchView(db, Users, r, f, Text(v));
      FieldInView(db, user, ProfileId);
      FieldInView(db, user, UserRoleId);
      EmittedUser(r);
      EmittedUser(r');
      SetKeepsOthers(r, f, v);
      FieldsApart(r.Text(ProfileId), r.Text(UserRoleId), user);
      HeldIsHolding(f, r.Text(f), user);
    }
  }

  lemma ClearMovesView(db: Db, user: Id, f: Field, v: string)
    requires Valid(db) && IsShown(f) && v != ""
    ensures var reply := ClearReply(db, user, f, v);
            && Valid(reply.db)
            && (reply.result.Ok? <==> FindUser(db, user).Some? && FindUser(db, user).value.Text(f) == v)
            && (reply.result.Err? ==> reply.db == db)
            && View(reply.db) == if Standard(db, user) then View(db) - iset{FieldGrant(f, v, user)} else View(db)
  {
    hide FindUser, Valid, View, Holdings;
    SetMovesView(db, user, f, "");
    FieldInView(db, user, f);
    HeldIsHolding(f, v, user);
    assert FieldGrant(f, v, user) in Held(f, v, user);
    if Standard(db, user) {
      HeldIsHolding(f, FindUser(db, user).value.Text(f), user);
    }
  }

  /** Activating or deactivating a user is invisible to the grants. */
  lemma ActivationKeepsView(db: Db, user: Id, v: string)
    requires Valid(db)
    ensures Valid(SetReply(db, user, IsActive, v).db)
    ensures View(SetReply(db, user, IsActive, v).db) == View(db)
  {
    hide Emit, FindUser, Valid, View;
    FoundUser(db, user);
    if FindUser(db, user).Some? {
      var r := FindUser(db, user).value;
      PatchKeepsValid(db, Users, r.id, IsActive, Text(v));
      PatchView(db, Users, r, IsActive, Text(v));
      SameEmission(r, v);
      forall g | g in Emitted(Users, r) ensures g in View(db) {
        Links.ShownByRow(db, Users, r, g);
      }
    }
  }

  lemma SameEmission(r: Row, v: string)
    ensures Emit(Users, r.Set(IsActive, Text(v))) == Emit(Users, r)
  {
  }

  /** One row before and after a write to a field of a user. */
  ghost predicate OneFieldChanged(before: Row, now: Row, user: Id, f: Field, v: string) {
    && now.id == before.id
    && (before.id != user ==> now == before)
    && (before.id == user ==> now.Text(f) == v)
    && forall g :: g != f ==> now.Text(g) == before.Text(g) && now.Bool(g) == before.Bool(g)
  }

  lemma SetField(r: Row, f: Field, v: string)
    ensures OneFieldChanged(r, r.Set(f, Text(v)), r.id, f, v)
  {
  }

  /** A write to a user's field changes that field of that row and nothing else. */
  lemma SetChangesOneField(db: Db, user: Id, f: Field, v: string)
    ensures var after := SetReply(db, user, f, v).db;
            && (forall t :: t != Users ==> after.Rows(t) == db.Rows(t))
            && |after.Rows(Users)| == |db.Rows(Users)|
            && forall i :: 0 <= i < |db.Rows(Users)| ==>
                 OneFieldChanged(db.Rows(Users)[i], after.Rows(Users)[i], user, f, v)
  {
    hide FindUser, Row.Set;
    var after := SetReply(db, user, f, v).db;
    var rows := db.Rows(Users);
    FoundUser(db, user);
    forall i | 0 <= i < |rows|
      ensures i < |after.Rows(Users)| && OneFieldChanged(rows[i], after.Rows(Users)[i], user, f, v)
    {
      SetField(rows[i], f, v);
      assert rows[i] in rows;
    }
  }
}
