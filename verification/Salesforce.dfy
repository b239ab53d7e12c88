/**
 The remote organisation as the connector sees it: tables of rows, read by
 conjunctive queries and changed by four atomic requests.  Rows stand in the order
 of their ids, which is the order every query asks for.
 */
module Salesforce {
  import opened Collections

  type Id = string

  datatype Table =
    | Users | Profiles | UserLicenses | UserLogins | GroupMembers
    | Assignments   // PermissionSetAssignment: direct and group assignments share it
    | Components    // PermissionSetGroupComponent
    | Associations  // UserTerritory2Association
    | PicklistValues

  datatype Field =
    | GroupId | UserOrGroupId | AssigneeId | PermissionSetId | PermissionSetGroupId | IsDeleted
    | UserId | Territory2Id | RoleInTerritory2 | IsFrozen | IsPasswordLocked
    | Username | Email | FirstName | LastName | UserType | IsActive | ProfileId | UserRoleId | LastLoginDate
    | LicenseDefinitionKey  // Profile.UserLicense.LicenseDefinitionKey of a user
    | Name | UserLicenseId
    | EntityName | ParticleName | PicklistValue

  /** A decoded JSON value. */
  datatype Value = Text(text: string) | Flag(flag: bool) | Number(number: real) | Null

  datatype Row = Row(id: Id, fields: map<Field, Value>) {
    /** simpleforce's StringField: "" when the field is missing or no string. */
    function Text(f: Field): string {
      if f in fields && fields[f].Text? then fields[f].text else ""
    }

    /** getBoolField and getIsActive: None stands for their "unexpected type" error. */
    function Bool(f: Field): Option<bool> {
      if f !in fields then None
      else match fields[f]
           case Flag(b) => Some(b)
           case Text(s) => Some(s == "true")
           case Number(n) => Some(n == 1.0)
           case Null => None
    }

    /**
     parseSalesforceDatetime on a string field.  A date string that parses is kept as the
     number it denotes; None stands for the error on any other non-empty string.
     */
    function Date(f: Field): Option<Option<real>> {
      if f !in fields then Some(None)
      else match fields[f]
           case Number(t) => Some(Some(t))
           case Text(s) => if s == "" then Some(None) else None
           case _ => Some(None)
    }

    function Set(f: Field, v: Value): Row {
      Row(id, fields[f := v])
    }
  }

  /** The forms of a flag that mean true, those that have no meaning, and the dates that do not parse. */
  lemma FieldForms(r: Row, f: Field)
    ensures r.Bool(f) == Some(true) <==>
              f in r.fields && (r.fields[f] == Flag(true) || r.fields[f] == Text("true") || r.fields[f] == Number(1.0))
    ensures r.Bool(f) == None <==> f !in r.fields || r.fields[f] == Null
    ensures r.Date(f) == None <==> exists s :: s != "" && f in r.fields && r.fields[f] == Text(s)
  {
    if f in r.fields && r.fields[f].Text? && r.fields[f].text != "" {
      assert r.fields[f] == Text(r.fields[f].text);
    }
  }

  datatype Error =
    | Unreachable           // the request or its reply was lost
    | Duplicate             // Salesforce's DUPLICATE_VALUE
    | NoSuchRow             // patch, delete or get of an id that is not there
    | UnknownCursor
    | ObjectNotFound | ObjectAlreadyExists | RoleAlreadyCleared | RoleMismatch
    | MissingValue          // clearValue: the user does not hold the value
    | NotAUser | BadEntitlementId
    | LicenseNotFound | NoMappingForLicense
    | Panic                 // a nil profile is dereferenced
    | MalformedField | UnexpectedPagination
    | UserNotFound | RetriesExhausted | InvalidRequest

  datatype Result<+T> = Ok(value: T) | Err(error: Error)

  datatype Db = Db(tables: map<Table, seq<Row>>) {
    function Rows(t: Table): seq<Row> {
      if t in tables then tables[t] else []
    }

    function With(t: Table, rows: seq<Row>): Db {
      Db(tables[t := rows])
    }
  }

  // ---------------------------------------------------------------- queries

  datatype Cond =
    | Eq(field: Field, value: string) | IdIs(id: Id) | AnyOf(field: Field, values: seq<string>)
    | IsTrue(field: Field)

  predicate Holds(c: Cond, r: Row) {
    match c
    case Eq(f, v) => r.Text(f) == v
    case IdIs(id) => r.id == id
    case AnyOf(f, vs) => r.Text(f) in vs
    case IsTrue(f) => r.Bool(f) == Some(true)
  }

  /** WHERE clauses added one after the other form a conjunction. */
  predicate Matches(r: Row, conds: seq<Cond>) {
    forall c | c in conds :: Holds(c, r)
  }

  function Select(db: Db, t: Table, conds: seq<Cond>): seq<Row> {
    Filter(db.Rows(t), (r: Row) => Matches(r, conds))
  }

  /** getSObject and its relatives take the first record. */
  function First(rows: seq<Row>): Option<Row> {
    if rows == [] then None else Some(rows[0])
  }

  lemma SelectMembers(db: Db, t: Table, conds: seq<Cond>)
    ensures forall r :: r in Select(db, t, conds) <==> r in db.Rows(t) && Matches(r, conds)
  {
    FilterMembers(db.Rows(t), (r: Row) => Matches(r, conds));
  }

  lemma FirstMatch(db: Db, t: Table, conds: seq<Cond>)
    ensures var found := First(Select(db, t, conds));
            && (found.Some? ==> found.value in db.Rows(t) && Matches(found.value, conds))
            && (found.None? ==> forall r :: r in db.Rows(t) ==> !Matches(r, conds))
  {
    SelectMembers(db, t, conds);
  }

  /** Among the matching rows it is the one with the lowest id. */
  lemma FirstInOrder(db: Db, t: Table, conds: seq<Cond>) returns (i: nat)
    requires First(Select(db, t, conds)).Some?
    ensures i < |db.Rows(t)| && db.Rows(t)[i] == First(Select(db, t, conds)).value
    ensures forall j :: 0 <= j < i ==> !Matches(db.Rows(t)[j], conds)
  {
    i := FilterFirst(db.Rows(t), (r: Row) => Matches(r, conds));
  }

  // ---------------------------------------------------------------- writes

  /** What the server decides about a new row: its id and where that id sorts. */
  datatype Choice = Choice(id: Id, at: nat)

  datatype Reply<+T> = Reply(db: Db, result: Result<T>)

  /** Two rows of a table that the server does not let coexist. */
  predicate Conflict(t: Table, r: Row, s: Row) {
    match t
    case GroupMembers =>
      r.Text(GroupId) == s.Text(GroupId) && r.Text(UserOrGroupId) == s.Text(UserOrGroupId)
    case Associations =>
      r.Text(UserId) == s.Text(UserId) && r.Text(Territory2Id) == s.Text(Territory2Id)
    case Assignments =>
      && r.Text(AssigneeId) == s.Text(AssigneeId)
      && (|| (r.Text(PermissionSetId) == s.Text(PermissionSetId) != "")
          || (r.Text(PermissionSetGroupId) == s.Text(PermissionSetGroupId) != ""))
    case Users =>
      r.Text(Username) == s.Text(Username) != ""
    case _ => false
  }

  /** Fields that no update request of the organisation changes. */
  predicate IsKey(t: Table, f: Field) {
    match t
    case GroupMembers => true
    case Assignments => true
    case Components => true
    case Associations => f != RoleInTerritory2
    case Users => f == Username || f == UserType
    case Profiles => true
    case UserLicenses => true
    case UserLogins => f == UserId
    case PicklistValues => true
  }

  predicate Fresh(db: Db, t: Table, choice: Choice) {
    choice.id != "" && choice.at <= |db.Rows(t)| && forall r | r in db.Rows(t) :: r.id != choice.id
  }

  function Insert(rows: seq<Row>, at: nat, r: Row): seq<Row>
    requires at <= |rows|
  {
    rows[..at] + [r] + rows[at..]
  }

  function Conflicting(db: Db, t: Table, r: Row): seq<Row> {
    Filter(db.Rows(t), (s: Row) => Conflict(t, r, s))
  }

  /**
   A second membership of a group answers with the first one's id; a second row for a
   unique pair, or a taken user name, is DUPLICATE_VALUE.
   */
  function Created(db: Db, t: Table, fields: map<Field, Value>, choice: Choice): Reply<Id>
    requires Fresh(db, t, choice)
  {
    var r := Row(choice.id, fields);
    var taken := Conflicting(db, t, r);
    if taken == [] then Reply(db.With(t, Insert(db.Rows(t), choice.at, r)), Ok(choice.id))
    else if t == GroupMembers then Reply(db, Ok(taken[0].id))
    else Reply(db, Err(Duplicate))
  }

  function Update(rows: seq<Row>, id: Id, f: Field, v: Value): seq<Row> {
    seq(|rows|, i requires 0 <= i < |rows| => if rows[i].id == id then rows[i].Set(f, v) else rows[i])
  }

  /** PATCH of one field of the row with the given id. */
  function Patched(db: Db, t: Table, id: Id, f: Field, v: Value): Reply<()> {
    if exists r :: r in db.Rows(t) && r.id == id then Reply(db.With(t, Update(db.Rows(t), id, f, v)), Ok(()))
    else Reply(db, Err(NoSuchRow))
  }

  function Without(rows: seq<Row>, id: Id): seq<Row> {
    Filter(rows, (r: Row) => r.id != id)
  }

  function Deleted(db: Db, t: Table, id: Id): Reply<()> {
    if exists r :: r in db.Rows(t) && r.id == id then Reply(db.With(t, Without(db.Rows(t), id)), Ok(()))
    else Reply(db, Err(NoSuchRow))
  }

  /** A write by anybody. */
  datatype Write =
    | Creation(t: Table, fields: map<Field, Value>, choice: Choice)
    | Patching(t: Table, id: Id, f: Field, v: Value)
    | Deletion(t: Table, id: Id)

  predicate Possible(db: Db, write: Write) {
    match write
    case Creation(t, fields, choice) => Fresh(db, t, choice) && (t == Assignments ==> OneSided(Row(choice.id, fields)))
    case Patching(t, _, f, _) => !IsKey(t, f)
    case Deletion(_, _) => true
  }

  function Written(db: Db, write: Write): Db
    requires Possible(db, write)
  {
    match write
    case Creation(t, fields, choice) => Created(db, t, fields, choice).db
    case Patching(t, id, f, v) => Patched(db, t, id, f, v).db
    case Deletion(t, id) => Deleted(db, t, id).db
  }

  // ---------------------------------------------------------------- validity

  /** No two rows of a table share an id or a unique key. */
  ghost predicate UniqueRows(t: Table, rows: seq<Row>) {
    forall r, s :: r in rows && s in rows && (r.id == s.id || Conflict(t, r, s)) ==> r == s
  }

  /** An assignment row grants a permission set or a permission set group, never both. */
  predicate OneSided(r: Row) {
    r.Text(PermissionSetId) == "" || r.Text(PermissionSetGroupId) == ""
  }

  ghost predicate Valid(db: Db) {
    && (forall t :: UniqueRows(t, db.Rows(t)))
    && (forall r :: r in db.Rows(Assignments) ==> OneSided(r))
  }

  lemma InsertMembers(rows: seq<Row>, at: nat, r: Row)
    requires at <= |rows|
    ensures forall s :: s in Insert(rows, at, r) <==> s in rows || s == r
  {
    assert rows == rows[..at] + rows[at..];
  }

  lemma UpdateMembers(rows: seq<Row>, id: Id, f: Field, v: Value)
    ensures forall s :: s in Update(rows, id, f, v) <==>
      || (s in rows && s.id != id)
      || (exists r :: r in rows && r.id == id && s == r.Set(f, v))
  {
    var after := Update(rows, id, f, v);
    forall s | s in rows && s.id != id ensures s in after {
      var i :| 0 <= i < |rows| && rows[i] == s;
      assert after[i] == s;
    }
    forall s | exists r :: r in rows && r.id == id && s == r.Set(f, v) ensures s in after {
      var r :| r in rows && r.id == id && s == r.Set(f, v);
      var i :| 0 <= i < |rows| && rows[i] == r;
      assert after[i] == s;
    }
  }

  lemma WithoutMembers(rows: seq<Row>, id: Id)
    ensures forall s :: s in Without(rows, id) <==> s in rows && s.id != id
  {
    FilterMembers(rows, (r: Row) => r.id != id);
  }

  lemma ConflictingMembers(db: Db, t: Table, r: Row)
    ensures forall s :: s in Conflicting(db, t, r) <==> s in db.Rows(t) && Conflict(t, r, s)
  {
    FilterMembers(db.Rows(t), (s: Row) => Conflict(t, r, s));
  }

  /** Either the row is added, or a conflicting row was there and nothing changes. */
  lemma CreateCases(db: Db, t: Table, fields: map<Field, Value>, choice: Choice)
    requires Fresh(db, t, choice)
    ensures var r := Row(choice.id, fields);
            var reply := Created(db, t, fields, choice);
            var taken := exists s :: s in db.Rows(t) && Conflict(t, r, s);
            && (taken ==> reply.db == db && (t != GroupMembers ==> reply.result == Err(Duplicate)))
            && (taken && t == GroupMembers ==> reply.result.Ok?)
            && (!taken ==> reply.result == Ok(choice.id)
                           && reply.db == db.With(t, Insert(db.Rows(t), choice.at, r)))
  {
    var r := Row(choice.id, fields);
    ConflictingMembers(db, t, r);
    var taken := Conflicting(db, t, r);
    if taken != [] {
      assert taken[0] in taken;
    }
  }

  /** Replacing one table by a valid one keeps the database valid. */
  lemma WithKeepsValid(db: Db, t: Table, rows: seq<Row>)
    requires Valid(db) && UniqueRows(t, rows)
    requires t == Assignments ==> forall r :: r in rows ==> OneSided(r)
    ensures Valid(db.With(t, rows))
  {
    var after := db.With(t, rows);
    forall u ensures UniqueRows(u, after.Rows(u)) {
      assert UniqueRows(u, db.Rows(u));
      assert u != t ==> after.Rows(u) == db.Rows(u);
    }
    assert t != Assignments ==> after.Rows(Assignments) == db.Rows(Assignments);
  }

  lemma ConflictSymmetric(t: Table, r: Row, s: Row)
    ensures Conflict(t, r, s) == Conflict(t, s, r)
  {
  }

  lemma InsertKeepsUnique(t: Table, rows: seq<Row>, at: nat, r: Row)
    requires UniqueRows(t, rows) && at <= |rows|
    requires forall s :: s in rows ==> s.id != r.id && !Conflict(t, r, s)
    ensures UniqueRows(t, Insert(rows, at, r))
  {
    var after := Insert(rows, at, r);
    InsertMembers(rows, at, r);
    forall x, y | x in after && y in after && (x.id == y.id || Conflict(t, x, y)) ensures x == y {
      ConflictSymmetric(t, x, y);
    }
  }

  lemma CreateKeepsValid(db: Db, t: Table, fields: map<Field, Value>, choice: Choice)
    requires Valid(db) && Fresh(db, t, choice)
    requires t == Assignments ==> OneSided(Row(choice.id, fields))
    ensures Valid(Created(db, t, fields, choice).db)
  {
    var r, rows := Row(choice.id, fields), db.Rows(t);
    CreateCases(db, t, fields, choice);
    if !exists s :: s in rows && Conflict(t, r, s) {
      assert UniqueRows(t, rows);
      InsertKeepsUnique(t, rows, choice.at, r);
      InsertMembers(rows, choice.at, r);
      WithKeepsValid(db, t, Insert(rows, choice.at, r));
    }
  }

  /** Setting a field that is no key changes neither identity nor conflicts. */
  lemma SetKeepsConflict(t: Table, f: Field, v: Value, r: Row, s: Row)
    requires !IsKey(t, f)
    ensures Conflict(t, r.Set(f, v), s) == Conflict(t, r, s)
    ensures Conflict(t, s, r.Set(f, v)) == Conflict(t, s, r)
    ensures Conflict(t, r.Set(f, v), s.Set(f, v)) == Conflict(t, r, s)
  {
  }

  lemma UpdateKeepsUnique(t: Table, rows: seq<Row>, id: Id, f: Field, v: Value)
    requires UniqueRows(t, rows) && !IsKey(t, f)
    ensures UniqueRows(t, Update(rows, id, f, v))
  {
    var after := Update(rows, id, f, v);
    forall x, y | x in after && y in after && (x.id == y.id || Conflict(t, x, y)) ensures x == y {
      var i :| 0 <= i < |after| && after[i] == x;
      var j :| 0 <= j < |after| && after[j] == y;
      SetKeepsConflict(t, f, v, rows[i], rows[j]);
      SetKeepsConflict(t, f, v, rows[j], rows[i]);
      assert rows[i] == rows[j];
    }
  }

  lemma PatchKeepsValid(db: Db, t: Table, id: Id, f: Field, v: Value)
    requires Valid(db) && !IsKey(t, f)
    ensures Valid(Patched(db, t, id, f, v).db)
  {
    assert UniqueRows(t, db.Rows(t));
    UpdateKeepsUnique(t, db.Rows(t), id, f, v);
    WithKeepsValid(db, t, Update(db.Rows(t), id, f, v));
  }

  lemma DeleteKeepsValid(db: Db, t: Table, id: Id)
    requires Valid(db)
    ensures Valid(Deleted(db, t, id).db)
  {
    var rows := Without(db.Rows(t), id);
    WithoutMembers(db.Rows(t), id);
    assert UniqueRows(t, db.Rows(t));
    assert UniqueRows(t, rows);
    WithKeepsValid(db, t, rows);
  }

  // ---------------------------------------------------------------- the live organisation

  /**
   What a caller may see of one write request: the server's reply, or a lost message, in
   which case the write may or may not have happened.
   */
  ghost predicate Served<T>(before: Db, after: Db, r: Result<T>, reply: Reply<T>) {
    || (r == Err(Unreachable) && (after == before || after == reply.db))
    || (r == reply.result && after == reply.db)
  }

  /** A page that begins a result and is empty only when all of it is. */
  predicate Begins(page: seq<Row>, all: seq<Row>) {
    page <= all && (page == [] <==> all == [])
  }

  class Org {
    var db: Db

    constructor (db: Db)
      ensures this.db == db
    {
      this.db := db;
    }

    /** The first page of a result, as requests see it that do not follow the next url. */
    method Query(t: Table, conds: seq<Cond>) returns (r: Result<seq<Row>>)
      ensures r == Err(Unreachable) || (r.Ok? && Begins(r.value, Select(db, t, conds)))
    {
      if * {
        return Err(Unreachable);
      }
      var all := Select(db, t, conds);
      var length: nat :| length <= |all| && (length == 0 <==> all == []);
      r := Ok(all[..length]);
    }

    /** The first page at a given page limit, and the path to the next one, "" when there is none. */
    method QueryPage(t: Table, conds: seq<Cond>, limit: nat) returns (r: Result<(seq<Row>, string)>)
      ensures r == Err(Unreachable)
           || (r.Ok? && var all := Select(db, t, conds);
               && (r.value.1 != "" <==> |all| > limit)
               && r.value.0 == if |all| > limit then all[..limit] else all)
    {
      if * {
        return Err(Unreachable);
      }
      var all := Select(db, t, conds);
      r := Ok(if |all| > limit then (all[..limit], "/services/data/next") else (all, ""));
    }

    method Create(t: Table, fields: map<Field, Value>, choice: Choice) returns (r: Result<Id>)
      requires Fresh(db, t, choice)
      modifies this
      ensures Served(old(db), db, r, Created(old(db), t, fields, choice))
    {
      if * {
        return Err(Unreachable);
      }
      var reply := Created(db, t, fields, choice);
      db, r := reply.db, reply.result;
      if * {
        r := Err(Unreachable);
      }
    }

    method Patch(t: Table, id: Id, f: Field, v: Value) returns (r: Result<()>)
      modifies this
      ensures Served(old(db), db, r, Patched(old(db), t, id, f, v))
    {
      if * {
        return Err(Unreachable);
      }
      var reply := Patched(db, t, id, f, v);
      db, r := reply.db, reply.result;
      if * {
        r := Err(Unreachable);
      }
    }

    method Delete(t: Table, id: Id) returns (r: Result<()>)
      modifies this
      ensures Served(old(db), db, r, Deleted(old(db), t, id))
    {
      if * {
        return Err(Unreachable);
      }
      var reply := Deleted(db, t, id);
      db, r := reply.db, reply.result;
      if * {
        r := Err(Unreachable);
      }
    }
  }
}
