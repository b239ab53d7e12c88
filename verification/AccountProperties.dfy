/** What account creation guarantees: one user per name, activation, and who gets the mail. */
module AccountProperties {
  import opened Collections
  import opened Strings
  import opened Salesforce
  import opened UserSync
  import opened AccountLookup
  import opened AccountCreation
  import UserFields
  import UserLogins

  // ---------------------------------------------------------------- at most one user

  /** The ids of the users with a name, in their order. */
  function NamedIds(rows: seq<Row>, name: string): seq<Id> {
    FlatMap((r: Row) => if r.Text(Username) == name then [r.id] else [], rows)
  }

  /** Users neither come nor go nor change their names. */
  ghost predicate SameUsers(before: seq<Row>, after: seq<Row>) {
    && |before| == |after|
    && forall i :: 0 <= i < |before| ==>
         after[i].id == before[i].id && after[i].Text(Username) == before[i].Text(Username)
  }

  /** Whoever has the name keeps it alone; nobody gets it twice. */
  ghost predicate NeverTwice(before: Db, after: Db, name: string) {
    var was, now := NamedIds(before.Rows(Users), name), NamedIds(after.Rows(Users), name);
    if was == [] then |now| <= 1 else now == was
  }

  lemma {:induction false} SameUsersSameIds(before: seq<Row>, after: seq<Row>, name: string)
    requires SameUsers(before, after)
    ensures NamedIds(before, name) == NamedIds(after, name)
  {
    if before != [] {
      SameUsersSameIds(before[1..], after[1..], name);
    }
  }

  lemma ActivationReply(db: Db, user: Id)
    ensures var result := UserFields.SetReply(db, user, IsActive, "true").result;
            result == Ok(()) || result == Err(NoSuchRow)
  {
  }

  lemma ActivationKeepsUsers(db: Db, user: Id)
    ensures SameUsers(db.Rows(Users), UserFields.SetReply(db, user, IsActive, "true").db.Rows(Users))
    ensures UserFields.SetReply(db, user, IsActive, "true").result != Err(Duplicate)
  {
    hide UserFields.SetReply;
    ActivationReply(db, user);
    UserFields.SetChangesOneField(db, user, IsActive, "true");
  }

  lemma NamedMembers(rows: seq<Row>, name: string)
    ensures NamedIds(rows, name) != [] <==> exists r :: r in rows && r.Text(Username) == name
  {
    var f := (r: Row) => if r.Text(Username) == name then [r.id] else [];
    FlatMapMembers(f, rows);
    if NamedIds(rows, name) != [] {
      assert NamedIds(rows, name)[0] in NamedIds(rows, name);
    }
    if r :| r in rows && r.Text(Username) == name {
      assert r.id in f(r) && r.id in NamedIds(rows, name);
    }
  }

  lemma NamedInsert(rows: seq<Row>, at: nat, r: Row, name: string)
    requires at <= |rows|
    ensures r.Text(Username) != name ==> NamedIds(Insert(rows, at, r), name) == NamedIds(rows, name)
    ensures r.Text(Username) == name && NamedIds(rows, name) == [] ==> NamedIds(Insert(rows, at, r), name) == [r.id]
  {
    var f := (s: Row) => if s.Text(Username) == name then [s.id] else [];
    var front, back := rows[..at], rows[at..];
    FlatMapAppend(f, front + [r], back);
    FlatMapAppend(f, front, [r]);
    FlatMapAppend(f, front, back);
    assert rows == front + back;
    assert FlatMap(f, [r]) == f(r) by { assert [r][1..] == []; }
    assert NamedIds(Insert(rows, at, r), name) == FlatMap(f, front) + f(r) + FlatMap(f, back);
    hide FlatMap;
  }

  /** When the create request of a run adds a user, and what it answers otherwise. */
  lemma CreateCasesOfUser(db: Db, request: Request, arrival: Arrival)
    requires Fresh(db, Users, arrival.choice)
    ensures var reply := CreateReply(db, request, true, arrival);
            if request.email != "" && exists r :: r in db.Rows(Users) && r.Text(Username) == request.email
            then reply == Reply(db, Err(Duplicate))
            else reply == Reply(db.With(Users, Insert(db.Rows(Users), arrival.choice.at, NewUser(request, arrival))),
                                Ok(()))
  {
    var row := NewUser(request, arrival);
    NewUserNamed(request, arrival);
    hide NewUser;
    assert row.id == arrival.choice.id && row == Row(row.id, row.fields) by { IdOfNewUser(request, arrival); }
    CreateCases(db, Users, row.fields, arrival.choice);
    assert forall s :: Conflict(Users, row, s) <==> s.Text(Username) == request.email != "";
  }

  lemma IdOfNewUser(request: Request, arrival: Arrival)
    ensures NewUser(request, arrival).id == arrival.choice.id
  {
  }

  lemma ActivationNeverTwice(db: Db, user: Id, name: string)
    ensures NeverTwice(db, UserFields.SetReply(db, user, IsActive, "true").db, name)
  {
    hide NamedIds, UserFields.SetReply;
    ActivationKeepsUsers(db, user);
    SameUsersSameIds(db.Rows(Users), UserFields.SetReply(db, user, IsActive, "true").db.Rows(Users), name);
  }

  lemma CreationNeverTwice(db: Db, request: Request, wellFormed: bool, arrival: Arrival, name: string)
    requires Fresh(db, Users, arrival.choice) && name != ""
    ensures NeverTwice(db, CreateReply(db, request, wellFormed, arrival).db, name)
  {
    hide NamedIds, NewUser;
    if wellFormed {
      NewUserNamed(request, arrival);
      CreateCasesOfUser(db, request, arrival);
      NamedMembers(db.Rows(Users), name);
      NamedInsert(db.Rows(Users), arrival.choice.at, NewUser(request, arrival), name);
    }
  }

  lemma PreparedNeverTwice(db: Db, first: seq<Row>, second: seq<Row>,
                           request: Request, wellFormed: bool, arrival: Arrival, name: string)
    requires Fresh(db, Users, arrival.choice) && name != ""
    ensures NeverTwice(db, Prepared(db, first, second, request, wellFormed, arrival).db, name)
  {
    hide NeverTwice, NamedIds, Lookup, CreateReply, UserFields.SetReply;
    assert NeverTwice(db, db, name) by { SameNeverTwice(db, name); }
    CreationNeverTwice(db, request, wellFormed, arrival, name);
    if Lookup(second).Ok? {
      ActivationNeverTwice(db, Lookup(second).value.id, name);
    }
  }

  lemma SameNeverTwice(db: Db, name: string)
    ensures NeverTwice(db, db, name)
  {
  }

  lemma {:induction false} NamedAfterFilter(rows: seq<Row>, keep: Row -> bool, name: string)
    ensures |NamedIds(Filter(rows, keep), name)| <= |NamedIds(rows, name)|
  {
    if rows != [] {
      NamedAfterFilter(rows[1..], keep, name);
      var f := (r: Row) => if r.Text(Username) == name then [r.id] else [];
      FlatMapAppend(f, if keep(rows[0]) then [rows[0]] else [], Filter(rows[1..], keep));
      assert [rows[0]][1..] == [];
    }
  }

  /** A write by anybody else that is not the deletion of a user. */
  lemma WriteNeverTwice(db: Db, write: Write, name: string)
    requires Possible(db, write) && name != "" && !Removes(write)
    ensures NeverTwice(db, Written(db, write), name)
  {
    hide NamedIds, Conflict;
    var rows := db.Rows(Users);
    match write
    case Creation(t, fields, choice) =>
      var r := Row(choice.id, fields);
      CreateCases(db, t, fields, choice);
      if t == Users {
        NamedMembers(rows, name);
        NamedInsert(rows, choice.at, r, name);
        if s :| s in rows && s.Text(Username) == name == r.Text(Username) {
          assert Conflict(Users, r, s) by { SameNameConflicts(r, s); }
        }
      }
    case Patching(t, id, f, v) =>
      if t == Users {
        SameUsersSameIds(rows, Update(rows, id, f, v), name);
      }
    case Deletion(_, _) =>
  }

  lemma SameNameConflicts(r: Row, s: Row)
    requires r.Text(Username) == s.Text(Username) != ""
    ensures Conflict(Users, r, s)
  {
  }

  /** A step of the history: a run for any account, or a write by anybody else. */
  datatype Step =
    | Run(request: Request, wellFormed: bool, arrival: Arrival, usernameForEmail: bool, result: Result<UserResource>)
    | Elsewhere(write: Write)

  predicate Removes(write: Write) {
    write.Deletion? && write.t == Users
  }

  /** Between the steps time passes, answers are cached and expire, and mails are sent. */
  ghost predicate Follows(before: World, after: World, step: Step) {
    match step
    case Run(request, wellFormed, arrival, usernameForEmail, result) =>
      && Fresh(before.db, Users, arrival.choice)
      && Ran(before, after, result, request, wellFormed, arrival, usernameForEmail)
    case Elsewhere(write) =>
      Possible(before.db, write) && (after.db == before.db || after.db == Written(before.db, write))
  }

  lemma StepNeverTwice(before: World, after: World, step: Step, name: string)
    requires Follows(before, after, step) && name != ""
    ensures !(step.Elsewhere? && Removes(step.write)) ==> NeverTwice(before.db, after.db, name)
    ensures |NamedIds(after.db.Rows(Users), name)| <= AtLeastOne(|NamedIds(before.db.Rows(Users), name)|)
  {
    hide Prepared, NamedIds, Written, Possible;
    assert NeverTwice(before.db, before.db, name);
    match step
    case Run(request, wellFormed, arrival, usernameForEmail, result) =>
      var first, second := RunEnds(before, after, step);
      PreparedNeverTwice(before.db, first, second, request, wellFormed, arrival, name);
    case Elsewhere(write) =>
      if Removes(write) {
        RemovalDwindles(before.db, write, name);
      } else {
        WriteNeverTwice(before.db, write, name);
      }
  }

  /** A run ends with the users as they were or as its first stage leaves them. */
  lemma RunEnds(before: World, after: World, step: Step) returns (first: seq<Row>, second: seq<Row>)
    requires Follows(before, after, step) && step.Run?
    ensures Fresh(before.db, Users, step.arrival.choice)
    ensures after.db == before.db
         || after.db == Prepared(before.db, first, second, step.request, step.wellFormed, step.arrival).db
  {
    hide Prepared, RanOn;
    first, second :| RanOn(before, after, step.result, first, second, step.request, step.wellFormed, step.arrival,
                           step.usernameForEmail);
    RanOnEnds(before, after, step.result, first, second, step.request, step.wellFormed, step.arrival,
              step.usernameForEmail);
  }

  lemma RanOnEnds(before: World, after: World, r: Result<UserResource>, first: seq<Row>, second: seq<Row>,
                  request: Request, wellFormed: bool, arrival: Arrival, usernameForEmail: bool)
    requires Fresh(before.db, Users, arrival.choice)
    requires RanOn(before, after, r, first, second, request, wellFormed, arrival, usernameForEmail)
    ensures after.db == before.db || after.db == Prepared(before.db, first, second, request, wellFormed, arrival).db
  {
    hide Prepared, MailTo, Concluded;
  }

  lemma RemovalDwindles(db: Db, write: Write, name: string)
    requires Possible(db, write) && Removes(write)
    ensures |NamedIds(Written(db, write).Rows(Users), name)| <= |NamedIds(db.Rows(Users), name)|
  {
    NamedAfterFilter(db.Rows(Users), (r: Row) => r.id != write.id, name);
  }

  function AtLeastOne(n: nat): nat {
    if n == 0 then 1 else n
  }

  /**
   Over any history of runs, for this account and for others, and of writes by anybody
   else, with lost requests, stale answers and an index that lags: nobody gets a name that
   somebody has, so at most one user has it; and unless users are deleted, whoever has it
   keeps it alone.
   */
  lemma {:induction false} AtMostOneUserCreated(worlds: seq<World>, steps: seq<Step>, name: string)
    requires |worlds| == |steps| + 1 && name != ""
    requires forall i :: 0 <= i < |steps| ==> Follows(worlds[i], worlds[i + 1], steps[i])
    ensures |NamedIds(worlds[|steps|].db.Rows(Users), name)| <= AtLeastOne(|NamedIds(worlds[0].db.Rows(Users), name)|)
    ensures (forall step :: step in steps ==> !(step.Elsewhere? && Removes(step.write))) ==>
              NeverTwice(worlds[0].db, worlds[|steps|].db, name)
  {
    hide Follows, NamedIds, Removes;
    if steps != [] {
      var n := |steps| - 1;
      AtMostOneUserCreated(worlds[..n + 1], steps[..n], name);
      StepNeverTwice(worlds[n], worlds[n + 1], steps[n], name);
      assert steps[n] in steps && forall step :: step in steps[..n] ==> step in steps;
    }
  }

  // ---------------------------------------------------------------- when a run creates

  /**
   A run adds its user exactly when the lookup answers "not found", the request is well
   formed, and nobody has the name.  It fails as a duplicate, changing nothing, exactly when
   the lookup answers "not found" for a well-formed request whose name is taken.
   */
  lemma CreatesIff(db: Db, first: seq<Row>, second: seq<Row>, request: Request, wellFormed: bool, arrival: Arrival)
    requires Fresh(db, Users, arrival.choice)
    ensures var reply := Prepared(db, first, second, request, wellFormed, arrival);
            var blind := Lookup(first) == Err(UserNotFound);
            var taken := request.email != "" && exists r :: r in db.Rows(Users) && r.Text(Username) == request.email;
            && ((exists r :: r in reply.db.Rows(Users) && r.id == arrival.choice.id) <==> blind && wellFormed && !taken)
            && (reply.result == Err(Duplicate) <==> blind && wellFormed && taken)
            && (reply.result == Err(Duplicate) ==> reply.db == db)
            && (blind && !wellFormed ==> reply == Reply(db, Err(InvalidRequest)))
  {
    hide NewUser, Lookup, UserFields.SetReply;
    var rows := db.Rows(Users);
    if Lookup(first).Ok? && Lookup(second).Ok? {
      var user := Lookup(second).value;
      ActivationKeepsUsers(db, user.id);
      SameUsersFresh(db, UserFields.SetReply(db, user.id, IsActive, "true").db, arrival.choice);
    } else if Lookup(first) == Err(UserNotFound) && wellFormed {
      CreateCasesOfUser(db, request, arrival);
      InsertMembers(rows, arrival.choice.at, NewUser(request, arrival));
      IdOfNewUser(request, arrival);
    }
  }

  lemma SameUsersFresh(before: Db, after: Db, choice: Choice)
    requires SameUsers(before.Rows(Users), after.Rows(Users)) && Fresh(before, Users, choice)
    ensures forall r :: r in after.Rows(Users) ==> r.id != choice.id
  {
  }

  /** Answers that end a run before any write: an unreadable record, or no user at the second lookup. */
  lemma OtherAnswersEndTheRun(db: Db, first: seq<Row>, second: seq<Row>,
                              request: Request, wellFormed: bool, arrival: Arrival)
    requires Fresh(db, Users, arrival.choice)
    ensures var reply := Prepared(db, first, second, request, wellFormed, arrival);
            && (!AllSound(ANY_USER, first) ==> reply == Reply(db, Err(MalformedField)))
            && (Usable(first) && !AllSound(ANY_USER, second) ==> reply == Reply(db, Err(MalformedField)))
            && (Usable(first) && Blank(second) ==> reply == Reply(db, Err(UserNotFound)))
  {
    LookupFindsIff(first);
    LookupFindsIff(second);
    hide Lookup, Usable, Blank, AllSound, CreateReply, UserFields.SetReply;
    assert !AllSound(ANY_USER, first) ==> Lookup(first) == Err(MalformedField) by { UnsoundLookup(first); }
    assert !AllSound(ANY_USER, second) ==> Lookup(second) == Err(MalformedField) by { UnsoundLookup(second); }
  }

  lemma UnsoundLookup(page: seq<Row>)
    ensures !AllSound(ANY_USER, page) ==> Lookup(page) == Err(MalformedField)
  {
  }

  /** What the new record holds of the fields that the model follows; the server decides the user type. */
  lemma NewUserHolds(request: Request, arrival: Arrival)
    ensures var r := NewUser(request, arrival);
            && r.id == arrival.choice.id && r.Text(Username) == request.email && r.Text(Email) == request.email
            && r.Text(ProfileId) == request.profileId
            && ("IsActive" in request.extraFields ==>
                  IsActive in r.fields && r.fields[IsActive] == request.extraFields["IsActive"])
            && ("UserRoleId" in request.extraFields ==>
                  UserRoleId in r.fields && r.fields[UserRoleId] == request.extraFields["UserRoleId"])
            && (UserType in r.fields <==> UserType in arrival.defaults)
            && (UserType in r.fields ==> r.fields[UserType] == arrival.defaults[UserType])
  {
    NewUserNamed(request, arrival);
    AccountRequest.Layered(request, "IsActive");
    AccountRequest.Layered(request, "UserRoleId");
    assert !AccountRequest.Decided("IsActive") && !AccountRequest.Decided("UserRoleId");
    hide AccountRequest.FieldMap, AccountRequest.Decided;
    FieldsOfNewUser(request, arrival);
  }

  lemma FieldsOfNewUser(request: Request, arrival: Arrival)
    ensures var sent, fields := AccountRequest.FieldMap(request), NewUser(request, arrival).fields;
            && ("ProfileId" in sent ==> ProfileId in fields && fields[ProfileId] == sent["ProfileId"])
            && ("IsActive" in sent ==> IsActive in fields && fields[IsActive] == sent["IsActive"])
            && ("UserRoleId" in sent ==> UserRoleId in fields && fields[UserRoleId] == sent["UserRoleId"])
            && (UserType in fields <==> UserType in arrival.defaults)
            && (UserType in fields ==> fields[UserType] == arrival.defaults[UserType])
  {
    hide AccountRequest.FieldMap;
    assert FieldName(ProfileId) == "ProfileId" && FieldName(IsActive) == "IsActive";
    assert FieldName(UserRoleId) == "UserRoleId" && FieldName(UserType) == "";
  }

  // ---------------------------------------------------------------- an existing user

  lemma {:induction false} UpdateFilter(rows: seq<Row>, id: Id, p: Row -> bool)
    requires forall r: Row :: p(r.Set(IsActive, Text("true"))) == p(r)
    ensures Filter(Update(rows, id, IsActive, Text("true")), p) == Update(Filter(rows, p), id, IsActive, Text("true"))
  {
    if rows != [] {
      UpdateFilter(rows[1..], id, p);
      var after := Update(rows, id, IsActive, Text("true"));
      assert after[1..] == Update(rows[1..], id, IsActive, Text("true"));
      assert p(after[0]) == p(rows[0]);
    }
  }

  /** An activation keeps a readable record readable, and changes nothing else about its user. */
  lemma ActivatedRecord(r: Row, id: Id)
    requires Sound(ANY_USER, r)
    ensures var after := if r.id == id then r.Set(IsActive, Text("true")) else r;
            && Sound(ANY_USER, after) && (Kept(ANY_USER, after) <==> Kept(ANY_USER, r))
            && (Kept(ANY_USER, r) ==>
                  UserOf(ANY_USER, r).id == r.id
                  && UserOf(ANY_USER, after) ==
                       if r.id == id then UserOf(ANY_USER, r).(isActive := true) else UserOf(ANY_USER, r))
  {
  }

  /** A page before and after an activation: the same users, the activated one active. */
  lemma {:induction false} UpdateUsers(records: seq<Row>, id: Id)
    requires AllSound(ANY_USER, records)
    ensures var after := Update(records, id, IsActive, Text("true"));
            && AllSound(ANY_USER, after)
            && |UsersOn(ANY_USER, after)| == |UsersOn(ANY_USER, records)|
            && forall i :: 0 <= i < |UsersOn(ANY_USER, records)| ==>
                 var user := UsersOn(ANY_USER, records)[i];
                 UsersOn(ANY_USER, after)[i] == if user.id == id then user.(isActive := true) else user
  {
    hide Kept, Sound;
    if records != [] {
      var after := Update(records, id, IsActive, Text("true"));
      assert after[1..] == Update(records[1..], id, IsActive, Text("true"));
      assert records[0] in records && forall r :: r in records[1..] ==> r in records;
      UpdateUsers(records[1..], id);
      ActivatedRecord(records[0], id);
      assert after == [after[0]] + after[1..];
    }
  }

  /** Activating a user changes the first page of its email in the activated record only. */
  lemma ActivatedPage(w: World, after: Db, email: string, clock: nat, user: Id)
    requires after == w.db.With(Users, Update(w.db.Rows(Users), user, IsActive, Text("true")))
    ensures FirstPage(w.(db := after), email, clock)
            == Update(FirstPage(w, email, clock), user, IsActive, Text("true"))
  {
    var byEmail := (r: Row) => Matches(r, [Eq(Email, email)]);
    var seen := (r: Row) => Visible(w.visibleFrom, clock, r);
    UpdateFilter(w.db.Rows(Users), user, byEmail) by { MatchIgnoresActive(email); }
    UpdateFilter(Filter(w.db.Rows(Users), byEmail), user, seen);
  }

  lemma MatchIgnoresActive(email: string)
    ensures forall r: Row ::
              Matches(r.Set(IsActive, Text("true")), [Eq(Email, email)]) == Matches(r, [Eq(Email, email)])
  {
    forall r: Row
      ensures Matches(r.Set(IsActive, Text("true")), [Eq(Email, email)]) == Matches(r, [Eq(Email, email)])
    {
      assert forall s: Row :: Matches(s, [Eq(Email, email)]) <==> Holds([Eq(Email, email)][0], s);
    }
  }

  /**
   A run whose answers are not stale and find a user: no user is created, every name
   stays, the user that is found is active afterwards, and exactly that user is returned
   and mailed; the run succeeds if and only if the user's login record can be read.
   */
  lemma ExistingUserIsKept(w: World, first: seq<Row>, second: seq<Row>,
                           request: Request, wellFormed: bool, arrival: Arrival, usernameForEmail: bool)
    requires Fresh(w.db, Users, arrival.choice)
    requires Answers(w, request.email, first, second) && (w.caching ==> request.email !in w.cached)
    requires Lookup(FirstPage(w, request.email, w.clock)).Ok?
    ensures var user := Lookup(FirstPage(w, request.email, w.clock)).value;
            var reply := Prepared(w.db, first, second, request, wellFormed, arrival);
            var between := w.(db := reply.db);
            && reply.result == Ok(())
            && SameUsers(w.db.Rows(Users), reply.db.Rows(Users))
            && Retried(between, request.email, 0) == Ok(user.(isActive := true))
            && MailTo(between, request.email) == [user.id]
            && var login := UserLogins.Single(w.db, user.id);
               Concluded(between, request.email, usernameForEmail) ==
                 (if login.Ok? then
                    Ok(ResourceOf(user.(isActive := true), login.value.Some? && login.value.value.isFrozen,
                                  usernameForEmail))
                  else Err(login.error))
  {
    assert first == second == FirstPage(w, request.email, w.clock) by { FreshAnswers(w, request.email, first, second); }
    hide Lookup, UserLogins.Single, FirstPage, ResourceOf, Answers;
    var user := Lookup(FirstPage(w, request.email, w.clock)).value;
    if !user.isActive {
      var r, p := LookupAnswer(w, request.email, w.clock);
      hide Findable, Kept, UserOf;
      assert user.id == r.id by { IdOfUser(r); }
      ActivationKeepsUsers(w.db, user.id);
      ActivatedReply(w, request.email, r);
    }
    LoginsUntouched(w.db, first, second, request, wellFormed, arrival, user.id);
  }

  lemma IdOfUser(r: Row)
    requires Kept(ANY_USER, r)
    ensures UserOf(ANY_USER, r).id == r.id
  {
  }

  /** Without a cached entry both lookups are answered afresh. */
  lemma FreshAnswers(w: World, email: string, first: seq<Row>, second: seq<Row>)
    requires Answers(w, email, first, second) && (w.caching ==> email !in w.cached)
    ensures first == second == FirstPage(w, email, w.clock)
  {
  }

  lemma ActivatedReply(w: World, email: string, r: Row)
    requires Findable(w, email, w.clock, r) && Kept(ANY_USER, r)
    requires Lookup(FirstPage(w, email, w.clock)) == Ok(UserOf(ANY_USER, r))
    ensures var reply := UserFields.SetReply(w.db, r.id, IsActive, "true");
            && reply.result == Ok(())
            && Lookup(FirstPage(w.(db := reply.db), email, w.clock)) == Ok(UserOf(ANY_USER, r).(isActive := true))
  {
    hide FirstPage, UsersOn, Sound, Kept, Typed, Visible;
    UserFields.FoundUser(w.db, r.id);
    IdOfUser(r);
    var reply := UserFields.SetReply(w.db, r.id, IsActive, "true");
    ActivatedPage(w, reply.db, email, w.clock, r.id);
    UpdateUsers(FirstPage(w, email, w.clock), r.id);
  }

  lemma LoginsUntouched(db: Db, first: seq<Row>, second: seq<Row>,
                        request: Request, wellFormed: bool, arrival: Arrival, user: Id)
    requires Fresh(db, Users, arrival.choice)
    ensures UserLogins.Single(Prepared(db, first, second, request, wellFormed, arrival).db, user)
            == UserLogins.Single(db, user)
  {
    hide Lookup, UserFields.FindUser, Update, Insert, Conflicting, NewUser;
    var after := Prepared(db, first, second, request, wellFormed, arrival).db;
    assert after.Rows(Table.UserLogins) == db.Rows(Table.UserLogins);
  }

  /** Over found users the first stage activates the user of the second answer if that calls it inactive. */
  lemma FoundUserIsActivated(db: Db, first: seq<Row>, second: seq<Row>,
                             request: Request, wellFormed: bool, arrival: Arrival)
    requires Fresh(db, Users, arrival.choice) && Lookup(first).Ok? && Lookup(second).Ok?
    ensures var answered := Lookup(second).value;
            Prepared(db, first, second, request, wellFormed, arrival).db.Rows(Users) ==
              if answered.isActive then db.Rows(Users)
              else Update(db.Rows(Users), answered.id, IsActive, Text("true"))
  {
    hide Lookup, UserFields.FindUser;
    UserFields.FoundUser(db, Lookup(second).value.id);
  }

  lemma ActiveAsRecorded(r: Row)
    requires Kept(ANY_USER, r)
    ensures UserOf(ANY_USER, r).id == r.id && (UserOf(ANY_USER, r).isActive <==> r.Bool(IsActive) == Some(true))
  {
  }

  /**
   Whatever the first stage was answered, also from a stale cache: the user that a run
   over found users returns is active if and only if it was so before, or it is the user
   of the second answer and that answer called it inactive.
   */
  lemma ReturnedUserIsActiveIff(w: World, first: seq<Row>, second: seq<Row>,
                                request: Request, wellFormed: bool, arrival: Arrival)
    returns (r: Row)
    requires Fresh(w.db, Users, arrival.choice) && Lookup(first).Ok? && Lookup(second).Ok?
    requires Retried(w.(db := Prepared(w.db, first, second, request, wellFormed, arrival).db), request.email, 0).Ok?
    ensures var answered := Lookup(second).value;
            var returned := Retried(w.(db := Prepared(w.db, first, second, request, wellFormed, arrival).db),
                                    request.email, 0).value;
            && r in w.db.Rows(Users) && returned.id == r.id && r.Text(Email) == request.email
            && (returned.isActive <==> r.Bool(IsActive) == Some(true) || (r.id == answered.id && !answered.isActive))
  {
    var answered := Lookup(second).value;
    var after := Prepared(w.db, first, second, request, wellFormed, arrival).db;
    hide Lookup, Retried, Prepared, IsFirstFindable, Blank, PageOf, Elapsed, Kept, UserOf;
    var r', t, _ := RetryAnswers(w.(db := after), request.email, 0);
    ActiveAsRecorded(r');
    FoundUserIsActivated(w.db, first, second, request, wellFormed, arrival);
    var i :| 0 <= i < |after.Rows(Users)| && after.Rows(Users)[i] == r';
    r := w.db.Rows(Users)[i];
  }

  // ---------------------------------------------------------------- a new user

  lemma NewUserAlone(w: World, after: Db, at: nat, row: Row, email: string)
    requires at <= |w.db.Rows(Users)| && after == w.db.With(Users, Insert(w.db.Rows(Users), at, row))
    requires row.Text(Email) == email && forall r :: r in w.db.Rows(Users) ==> r.Text(Email) != email
    ensures |Select(after, Users, [Eq(Email, email)])| == 1
  {
    var rows := w.db.Rows(Users);
    var p := (r: Row) => Matches(r, [Eq(Email, email)]);
    assert forall r: Row :: Matches(r, [Eq(Email, email)]) <==> Holds([Eq(Email, email)][0], r);
    FilterAppend(rows[..at] + [row], rows[at..], p);
    FilterAppend(rows[..at], [row], p);
    FilterNone(rows[..at], p);
    FilterNone(rows[at..], p);
    assert [row][1..] == [] && after.Rows(Users) == rows[..at] + [row] + rows[at..];
  }

  /**
   A run for an email that nobody has creates the user; the retry loop then finds it if
   and only if it is readable, has a user type and becomes visible within three units,
   and returns exactly the new user.
   */
  lemma NewUserIsFoundIff(w: World, first: seq<Row>, second: seq<Row>, request: Request, arrival: Arrival)
    requires Fresh(w.db, Users, arrival.choice)
    requires Lookup(first) == Err(UserNotFound) && w.pageLimit > 0
    requires forall r :: r in w.db.Rows(Users) ==> r.Text(Email) != request.email && r.Text(Username) != request.email
    ensures var row := NewUser(request, arrival);
            var reply := Prepared(w.db, first, second, request, true, arrival);
            var found := Retried(w.(db := reply.db), request.email, 0);
            && reply == Reply(w.db.With(Users, Insert(w.db.Rows(Users), arrival.choice.at, row)), Ok(()))
            && (found.Ok? <==> Kept(ANY_USER, row) && Visible(w.visibleFrom, w.clock + 3, row))
            && (found.Ok? ==> found.value.id == arrival.choice.id && found.value.email == request.email)
            && (found.Err? && Sound(ANY_USER, row) ==> found.error == RetriesExhausted)
            && MailTo(w.(db := reply.db), request.email) == if found.Ok? then [arrival.choice.id] else []
  {
    var row := NewUser(request, arrival);
    NewUserNamed(request, arrival);
    IdOfNewUser(request, arrival);
    hide NewUser, Lookup, Retried;
    CreateCasesOfUser(w.db, request, arrival);
    var after := w.(db := Prepared(w.db, first, second, request, true, arrival).db);
    NewUserAlone(w, after.db, arrival.choice.at, row, request.email);
    InsertMembers(w.db.Rows(Users), arrival.choice.at, row);
    LoneUserIsFoundIff(after, row, request.email);
  }

  /** If one record has an email, the loop finds it or nothing. */
  lemma LoneUserIsFoundIff(w: World, row: Row, email: string)
    requires row in w.db.Rows(Users) && row.Text(Email) == email && w.pageLimit > 0
    requires forall r :: r in w.db.Rows(Users) && r.Text(Email) == email ==> r == row
    requires |Select(w.db, Users, [Eq(Email, email)])| == 1
    ensures var found := Retried(w, email, 0);
            && (found.Ok? <==> Kept(ANY_USER, row) && Visible(w.visibleFrom, w.clock + 3, row))
            && (found.Ok? ==> found.value.id == row.id && found.value.email == email)
            && (found.Err? && Sound(ANY_USER, row) ==> found.error == RetriesExhausted)
  {
    ElapsedClosedForm(3);
    assert Kept(ANY_USER, row) <==> Sound(ANY_USER, row) && Typed(row);
    hide Sound, Kept, Typed, Visible, Retried;
    var last := w.clock + 3;
    assert CanFind(w, email, last) <==> Findable(w, email, last, row);
    if Sound(ANY_USER, row) {
      RetryFindsIff(w, email);
    }
    if Retried(w, email, 0).Ok? {
      var r, t, _ := RetryAnswers(w, email, 0);
      UserOfNew(r);
    }
  }

  lemma UserOfNew(r: Row)
    requires Kept(ANY_USER, r)
    ensures Sound(ANY_USER, r) && UserOf(ANY_USER, r).id == r.id && UserOf(ANY_USER, r).email == r.Text(Email)
  {
  }

  /**
   The lookup by email does not read the license key: the account type that a run reports
   is the one a sync reports if and only if the license does not make it a service account,
   or the user type does so already.
   */
  lemma AccountTypeAgreesIff(userType: string, license: string)
    ensures AccountTypeOf(userType, "") == AccountTypeOf(userType, license) <==>
              AccountTypeOf("", license) == Human || userType == AUTOMATED_PROCESS || userType == CLOUD_INTEGRATION
  {
    assert !HasPrefix("", AGENT_LICENSE_PREFIX) && !HasSuffix("", INTEGRATION_LICENSE_SUFFIX);
  }

  // ---------------------------------------------------------------- who is returned

  /**
   A successful run returns, and mails, a typed user of the requested email: of those that
   are visible at the read, after 0, 1 or 3 units, the first in the order of ids.
   */
  lemma ReturnedUserHasTheEmail(w: World, email: string, usernameForEmail: bool) returns (r: Row, t: nat, p: nat)
    requires Concluded(w, email, usernameForEmail).Ok?
    ensures t == w.clock || t == w.clock + 1 || t == w.clock + 3
    ensures r in w.db.Rows(Users) && r.Text(Email) == email && r.Text(UserType) != "" && Visible(w.visibleFrom, t, r)
    ensures p < |w.db.Rows(Users)| && w.db.Rows(Users)[p] == r
    ensures forall q :: 0 <= q < p ==>
              var other := w.db.Rows(Users)[q];
              other.Text(Email) != email || other.Text(UserType) == "" || !Visible(w.visibleFrom, t, other)
    ensures var x := Concluded(w, email, usernameForEmail).value;
            && x.id == r.id && MailTo(w, email) == [r.id] && x.login == r.Text(Username)
            && (usernameForEmail ==> x.email == r.Text(Username)) && (!usernameForEmail ==> x.email == email)
    ensures Concluded(w, email, usernameForEmail).value.status == Enabled <==>
              r.Bool(IsActive) == Some(true)
              && var login := First(UserLogins.LoginsOf(w.db.Rows(Table.UserLogins), r.id));
                 !(login.Some? && login.value.Bool(IsFrozen) == Some(true))
  {
    hide Retried, PageOf, Blank;
    ElapsedClosedForm(3);
    r, t, p := RetryAnswers(w, email, 0);
    var n: nat :| n < MAX_RETRIES && t == w.clock + Elapsed(n);
    assert n == 0 || n == 1 || n == 2;
    forall q | 0 <= q < p ensures !Findable(w, email, t, w.db.Rows(Users)[q]) {
    }
  }

  // ---------------------------------------------------------------- runs that go wrong

  /** A readable user of an email, active or not. */
  function SomeUser(email: string, active: bool): Row {
    Row("u", map[Username := Text(email), Email := Text(email), UserType := Text("Standard"), IsActive := Flag(active)])
  }

  function OneUser(email: string, active: bool, visibleFrom: nat, cached: map<string, seq<Row>>): World {
    World(Db(map[Users := [SomeUser(email, active)]]), map["u" := visibleFrom], 0, cached, true, 1, [])
  }

  lemma OneUserPage(email: string, active: bool, visibleFrom: nat, cached: map<string, seq<Row>>, clock: nat)
    ensures var w := OneUser(email, active, visibleFrom, cached);
            && FirstPage(w, email, clock) == (if visibleFrom <= clock then [SomeUser(email, active)] else [])
            && |Select(w.db, Users, [Eq(Email, email)])| == 1
    ensures Kept(ANY_USER, SomeUser(email, active)) && UserOf(ANY_USER, SomeUser(email, active)).isActive == active
            && UserOf(ANY_USER, SomeUser(email, active)).id == "u"
  {
    var w, r := OneUser(email, active, visibleFrom, cached), SomeUser(email, active);
    assert Matches(r, [Eq(Email, email)]) by { assert Holds([Eq(Email, email)][0], r); }
    assert w.db.Rows(Users) == [r];
    FilterAll([r], (s: Row) => Matches(s, [Eq(Email, email)]));
    if visibleFrom <= clock {
      FilterAll([r], (s: Row) => Visible(w.visibleFrom, clock, s));
    } else {
      FilterNone([r], (s: Row) => Visible(w.visibleFrom, clock, s));
    }
  }

  /** While the index does not return a user, a run for its email fails as a duplicate, active user or not. */
  lemma LaggingIndexIsRefused(email: string, active: bool, request: Request, arrival: Arrival)
    requires email != "" && request.email == email && arrival.choice.at <= 1 && arrival.choice.id !in {"", "u"}
    ensures var w := OneUser(email, active, 5, map[]);
            && Fresh(w.db, Users, arrival.choice) && Answers(w, email, [], [])
            && Prepared(w.db, [], [], request, true, arrival) == Reply(w.db, Err(Duplicate))
  {
    var w := OneUser(email, active, 5, map[]);
    OneUserPage(email, active, 5, map[], 0);
    assert Answers(w, email, [], []) by { AnswerStays(w, email, []); }
    assert Fresh(w.db, Users, arrival.choice) && SomeUser(email, active) in w.db.Rows(Users);
    assert Lookup([]) == Err(UserNotFound);
    hide Lookup, SomeUser, FirstPage;
    CreatesIff(w.db, [], [], request, true, arrival);
    assert SomeUser(email, active).Text(Username) == email by { NameOfSomeUser(email, active); }
  }

  lemma NameOfSomeUser(email: string, active: bool)
    ensures SomeUser(email, active).Text(Username) == email
  {
  }

  /** A user without a user type, or one who has the email as name only. */
  function HiddenUser(email: string, untyped: bool): Row {
    Row("u", map[Username := Text(email), Email := Text(if untyped then email else ""),
                 UserType := Text(if untyped then "" else "Standard"), IsActive := Flag(true)])
  }

  /** Without any lag or cache, a run for such a user's name fails as a duplicate too. */
  lemma HiddenUserIsRefused(untyped: bool, email: string, request: Request, arrival: Arrival)
    requires email != "" && request.email == email && arrival.choice.at <= 1 && arrival.choice.id !in {"", "u"}
    ensures var w := World(Db(map[Users := [HiddenUser(email, untyped)]]), map[], 0, map[], false, 1, []);
            var page := FirstPage(w, email, 0);
            && Fresh(w.db, Users, arrival.choice) && Answers(w, email, page, page)
            && Prepared(w.db, page, page, request, true, arrival) == Reply(w.db, Err(Duplicate))
  {
    var r := HiddenUser(email, untyped);
    var w := World(Db(map[Users := [r]]), map[], 0, map[], false, 1, []);
    var page := FirstPage(w, email, 0);
    assert r in w.db.Rows(Users) && Fresh(w.db, Users, arrival.choice);
    assert r.Text(Username) == email && Blank(page) by { HiddenPage(email, untyped); }
    AnswerStays(w, email, page);
    LookupFindsIff(page);
    hide Lookup, HiddenUser, FirstPage, Blank, Usable;
    CreatesIff(w.db, page, page, request, true, arrival);
  }

  lemma HiddenPage(email: string, untyped: bool)
    requires email != ""
    ensures HiddenUser(email, untyped).Text(Username) == email
    ensures var db := Db(map[Users := [HiddenUser(email, untyped)]]);
            Blank(FirstPage(World(db, map[], 0, map[], false, 1, []), email, 0))
  {
    var r := HiddenUser(email, untyped);
    var w := World(Db(map[Users := [r]]), map[], 0, map[], false, 1, []);
    IndexedMembers(w, email, 0);
    assert w.db.Rows(Users) == [r];
    assert forall s :: s in FirstPage(w, email, 0) ==> s in Indexed(w, email, 0);
    assert Sound(ANY_USER, r) && (untyped ==> !Typed(r)) && (!untyped ==> r.Text(Email) != email);
  }

  /** A cached answer that calls an inactive user active: the run succeeds and the user stays inactive. */
  lemma StaleAnswerLeavesInactive(email: string, request: Request, arrival: Arrival)
    requires request.email == email && arrival.choice.at <= 1 && arrival.choice.id !in {"", "u"}
    ensures var stale := [SomeUser(email, true)];
            var w := OneUser(email, false, 0, map[email := stale]);
            && Fresh(w.db, Users, arrival.choice) && Answers(w, email, stale, stale)
            && Prepared(w.db, stale, stale, request, true, arrival) == Reply(w.db, Ok(()))
            && Retried(w, email, 0).Ok? && !Retried(w, email, 0).value.isActive
  {
    var stale := [SomeUser(email, true)];
    var w := OneUser(email, false, 0, map[email := stale]);
    OneUserPage(email, true, 0, map[], 0);
    OneUserPage(email, false, 0, map[email := stale], 0);
    assert Answers(w, email, stale, stale) by { AnswerStays(w, email, stale); }
    OneRecordLookup(SomeUser(email, true));
    OneRecordLookup(SomeUser(email, false));
    assert Elapsed(0) == 0;
    hide Lookup, SomeUser, FirstPage, UserOf, Kept;
    RetriedStep(w, email, 0);
  }

  lemma OneRecordLookup(r: Row)
    requires Kept(ANY_USER, r)
    ensures Lookup([r]) == Ok(UserOf(ANY_USER, r))
  {
    assert [r][1..] == [];
    assert UsersOn(ANY_USER, [r]) == KeptUser(ANY_USER, r) + UsersOn(ANY_USER, []);
  }

  /** An agent's user: a service account to the sync, a human to the run that finds it by email. */
  lemma AgentIsReportedHuman()
    ensures AccountTypeOf("Standard", AGENT_LICENSE_PREFIX) == Service && AccountTypeOf("Standard", "") == Human
  {
    AccountTypeAgreesIff("Standard", AGENT_LICENSE_PREFIX);
    assert !HasPrefix("", AGENT_LICENSE_PREFIX) && !HasSuffix("", INTEGRATION_LICENSE_SUFFIX);
  }
}
