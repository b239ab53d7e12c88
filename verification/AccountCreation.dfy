/** Creating an account: find or activate the user, else create it, wait for it, and mail it. */
module AccountCreation {
  import opened Salesforce
  import opened UserSync
  import opened AccountLookup
  import AccountRequest
  import UserFields
  import UserLogins

  type Request = AccountRequest.UserCreateRequest

  /** What the server decides about a new user: id and place, user type, default activity. */
  datatype Arrival = Arrival(choice: Choice, defaults: map<Field, Value>)

  /** The writable user fields that the model follows. */
  function FieldName(f: Field): string {
    match f
    case Username => "Username"
    case Email => "Email"
    case IsActive => "IsActive"
    case ProfileId => "ProfileId"
    case UserRoleId => "UserRoleId"
    case _ => ""
  }

  function ToFields(body: map<string, Value>): map<Field, Value> {
    map f: Field | FieldName(f) != "" && FieldName(f) in body :: body[FieldName(f)]
  }

  function NewUser(request: Request, arrival: Arrival): Row {
    Row(arrival.choice.id, arrival.defaults + ToFields(AccountRequest.FieldMap(request)))
  }

  lemma NewUserNamed(request: Request, arrival: Arrival)
    ensures NewUser(request, arrival).Text(Username) == request.email
    ensures NewUser(request, arrival).Text(Email) == request.email
  {
    hide AccountRequest.FieldMap;
    var body := AccountRequest.FieldMap(request);
    AccountRequest.EmailIsUsername(request);
    assert FieldName(Username) in body && FieldName(Email) in body;
    assert Username in ToFields(body) && Email in ToFields(body);
  }

  // ---------------------------------------------------------------- the three stages

  function CreateReply(db: Db, request: Request, wellFormed: bool, arrival: Arrival): Reply<()>
    requires Fresh(db, Users, arrival.choice)
  {
    if !wellFormed then Reply(db, Err(InvalidRequest))
    else
      var reply := Created(db, Users, NewUser(request, arrival).fields, arrival.choice);
      Reply(reply.db, if reply.result.Ok? then Ok(()) else Err(reply.result.error))
  }

  /** CreateUser; whether the address parses and the time zone loads is up to Go's libraries. */
  method CreateUser(org: Org, request: Request, addressParses: bool, zoneLoads: bool, arrival: Arrival)
    returns (r: Result<()>)
    requires Fresh(org.db, Users, arrival.choice)
    modifies org
    ensures Served(old(org.db), org.db, r, CreateReply(old(org.db), request, addressParses && zoneLoads, arrival))
  {
    if !addressParses {
      return Err(InvalidRequest);
    }
    if !zoneLoads {
      return Err(InvalidRequest);
    }
    var userData := AccountRequest.UserData(request);
    var created := org.Create(Users, arrival.defaults + ToFields(userData), arrival.choice);
    r := if created.Ok? then Ok(()) else Err(created.error);
  }

  /** The answers to the two lookups that precede the writes; the second follows a positive first. */
  ghost predicate Answers(w: World, email: string, first: seq<Row>, second: seq<Row>) {
    MayAnswer(w, email, first) && MayAnswer(Remembered(w, email, first), email, second)
  }

  /** The first stage: a user that the lookups find is activated at most, any other is created. */
  function Prepared(db: Db, first: seq<Row>, second: seq<Row>,
                    request: Request, wellFormed: bool, arrival: Arrival): Reply<()>
    requires Fresh(db, Users, arrival.choice)
  {
    match Existence(Lookup(first))
    case Err(e) => Reply(db, Err(e))
    case Ok(false) => CreateReply(db, request, wellFormed, arrival)
    case Ok(true) =>
      match Lookup(second)
      case Err(e) => Reply(db, Err(e))
      case Ok(user) =>
        if user.isActive then Reply(db, Ok(())) else UserFields.SetReply(db, user.id, IsActive, "true")
  }

  method Prepare(server: Server, request: Request, addressParses: bool, zoneLoads: bool, arrival: Arrival)
    returns (r: Result<()>, ghost first: seq<Row>, ghost second: seq<Row>)
    requires Fresh(server.org.db, Users, arrival.choice)
    modifies server, server.org
    ensures (r == Err(Unreachable) && server.Now() == old(server.Now()).(cached := server.cached))
         || (Answers(old(server.Now()), request.email, first, second)
             && Served(old(server.org.db), server.org.db, r,
                       Prepared(old(server.org.db), first, second, request, addressParses && zoneLoads, arrival)))
    ensures server.Now() == old(server.Now()).(db := server.org.db, cached := server.cached)
  {
    hide Lookup, MayAnswer, UserFields.SetReply, CreateReply;
    var exist;
    second := [];
    exist, first := UserExist(server, request.email);
    if exist == Err(Unreachable) {
      return Err(Unreachable), first, second;
    }
    second := first;
    assert Answers(old(server.Now()), request.email, first, first) by {
      AnswerStays(old(server.Now()), request.email, first);
    }
    if exist.Err? {
      return Err(exist.error), first, second;
    }
    if exist.value {
      var user;
      user, second := GetUserByEmail(server, request.email);
      if user.Err? {
        return Err(user.error), first, second;
      }
      if !user.value.isActive {
        r := UserFields.SetValue(server.org, user.value.id, IsActive, "true");
      } else {
        r := Ok(());
      }
    } else {
      r := CreateUser(server.org, request, addressParses, zoneLoads, arrival);
    }
  }

  /** The second lookup may be answered like the first. */
  lemma AnswerStays(w: World, email: string, page: seq<Row>)
    requires MayAnswer(w, email, page)
    ensures MayAnswer(Remembered(w, email, page), email, page)
  {
  }

  /** The second stage: the user that the retry loop finds, with its login record. */
  function Concluded(w: World, email: string, usernameForEmail: bool): Result<UserResource> {
    match Retried(w, email, 0)
    case Err(e) => Err(e)
    case Ok(user) =>
      match UserLogins.Single(w.db, user.id)
      case Err(e) => Err(e)
      case Ok(login) => Ok(ResourceOf(user, login.Some? && login.value.isFrozen, usernameForEmail))
  }

  function MailTo(w: World, email: string): seq<Id> {
    match Retried(w, email, 0)
    case Err(_) => []
    case Ok(user) => [user.id]
  }

  method Report(server: Server, email: string, usernameForEmail: bool) returns (r: Result<UserResource>)
    modifies server
    ensures r == Err(Unreachable) || r == Concluded(old(server.Now()), email, usernameForEmail)
    ensures r != Err(Unreachable) ==> server.mailed == old(server.mailed) + MailTo(old(server.Now()), email)
    ensures server.mailed == old(server.mailed)
         || server.mailed == old(server.mailed) + MailTo(old(server.Now()), email)
    ensures r.Ok? ==> server.mailed == old(server.mailed) + [r.value.id]
  {
    hide Retried, UserLogins.Single;
    var user, _ := GetUserByEmailWithRetry(server, email);
    if user.Err? {
      return Err(user.error);
    }
    var sent := server.SendResetPasswordEmail(user.value.id);
    if sent.Err? {
      return Err(sent.error);
    }
    var login := UserLogins.GetUserLogin(server.org, user.value.id);
    if login.Err? {
      return Err(login.error);
    }
    var resource := BuildResource(user.value, login.value, usernameForEmail);
    r := Ok(resource);
  }

  /** What one run may make of the world: both stages in full, or as far as the requests got. */
  ghost predicate RanOn(before: World, after: World, r: Result<UserResource>, first: seq<Row>, second: seq<Row>,
                        request: Request, wellFormed: bool, arrival: Arrival, usernameForEmail: bool)
    requires Fresh(before.db, Users, arrival.choice)
  {
    var reply := Prepared(before.db, first, second, request, wellFormed, arrival);
    var between := before.(db := reply.db);
    || (r == Err(Unreachable) && (after.db == before.db || after.db == reply.db)
        && (after.mailed == before.mailed
            || (reply.result.Ok? && after.db == reply.db
                && after.mailed == before.mailed + MailTo(between, request.email))))
    || (reply.result.Err? && r == Err(reply.result.error) && after.db == reply.db && after.mailed == before.mailed)
    || (reply.result.Ok? && r == Concluded(between, request.email, usernameForEmail)
        && after.db == reply.db && after.mailed == before.mailed + MailTo(between, request.email))
  }

  /** One run, on answers that the server or the cache may give. */
  ghost predicate Ran(before: World, after: World, r: Result<UserResource>,
                      request: Request, wellFormed: bool, arrival: Arrival, usernameForEmail: bool)
    requires Fresh(before.db, Users, arrival.choice)
  {
    exists first, second :: Answers(before, request.email, first, second)
      && RanOn(before, after, r, first, second, request, wellFormed, arrival, usernameForEmail)
  }

  /** An unusable profile is refused before anything is read; otherwise one run takes place. */
  method CreateAccount(server: Server, profile: AccountRequest.AccountProfile, addressParses: bool, zoneLoads: bool,
                       arrival: Arrival, usernameForEmail: bool)
    returns (r: Result<UserResource>)
    requires Fresh(server.org.db, Users, arrival.choice)
    modifies server, server.org
    ensures !AccountRequest.Acceptable(profile) ==> r == Err(InvalidRequest) && server.Now() == old(server.Now())
    ensures AccountRequest.Acceptable(profile) ==>
              exists request :: AccountRequest.Requests(profile, request)
                && Ran(old(server.Now()), server.Now(), r,
                       request, addressParses && zoneLoads, arrival, usernameForEmail)
    ensures r.Ok? ==> server.mailed == old(server.mailed) + [r.value.id]
  {
    hide Prepared, Retried, MayAnswer, AccountRequest.Requests, AccountRequest.Acceptable;
    var params := AccountRequest.GetUserCreateRequestParams(profile);
    if params.Err? {
      return Err(params.error);
    }
    var request := params.value;
    ghost var before := server.Now();
    var prepared;
    ghost var first, second;
    prepared, first, second := Prepare(server, request, addressParses, zoneLoads, arrival);
    if prepared.Err? {
      r := Err(prepared.error);
    } else {
      RetryIgnoresCache(before.(db := server.org.db), server.Now(), request.email, 0);
      r := Report(server, request.email, usernameForEmail);
    }
    if prepared == Err(Unreachable) && server.Now() == before.(cached := server.cached) {
      LostAtOnce(before, server.Now(), request, addressParses && zoneLoads, arrival, usernameForEmail);
    } else {
      assert RanOn(before, server.Now(), r, first, second,
                   request, addressParses && zoneLoads, arrival, usernameForEmail);
    }
    assert Ran(before, server.Now(), r, request, addressParses && zoneLoads, arrival, usernameForEmail);
  }

  /** A run whose first requests are lost leaves everything as it was. */
  lemma LostAtOnce(before: World, after: World,
                   request: Request, wellFormed: bool, arrival: Arrival, usernameForEmail: bool)
    requires Fresh(before.db, Users, arrival.choice) && after == before.(cached := after.cached)
    ensures Ran(before, after, Err(Unreachable), request, wellFormed, arrival, usernameForEmail)
  {
    hide Prepared, Retried;
    var page := FirstPage(before, request.email, before.clock);
    AnswerStays(before, request.email, page);
    assert Answers(before, request.email, page, page);
    assert RanOn(before, after, Err(Unreachable), page, page, request, wellFormed, arrival, usernameForEmail);
  }

  /** Every read of the loop is a fresh one, so what was cached before it does not matter. */
  lemma {:induction false} RetryIgnoresCache(w: World, v: World, email: string, k: nat)
    requires v == w.(cached := v.cached)
    ensures Retried(v, email, k) == Retried(w, email, k)
    decreases MAX_RETRIES - k
  {
    hide Lookup, FirstPage;
    if k < MAX_RETRIES {
      SameIndex(w, v, email);
      RetryIgnoresCache(w, v, email, k + 1);
    }
  }
}
