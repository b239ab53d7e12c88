/** The sync of users: pages of user records, filtered and joined with the login records. */
module UserSync {
  import opened Collections
  import opened Strings
  import opened Salesforce
  import opened Access
  import opened Paging
  import opened UserLogins

  const USER_TYPES_TO_SKIP := {"CspLitePortal", "CustomerSuccess", "PowerCustomerSuccess", "CsnOnly", "Guest"}

  /** `readLicense` is off for the lookup by email, which does not read the license key. */
  datatype Options = Options(syncDeactivated: bool, syncNonStandard: bool, usernameForEmail: bool, readLicense: bool)

  datatype SalesforceUser = SalesforceUser(
    id: Id, username: string, email: string, firstName: string, lastName: string, userType: string,
    license: string, isActive: bool, lastLogin: Option<real>)

  datatype Status = Enabled | Disabled

  datatype AccountType = Human | Service

  datatype UserResource = UserResource(
    id: Id, displayName: string, login: string, email: string, userType: string,
    accountType: AccountType, lastLogin: Option<real>, status: Status)

  predicate ShouldSkip(r: Row, syncNonStandard: bool) {
    r.Text(UserType) == "" || (!syncNonStandard && r.Text(UserType) in USER_TYPES_TO_SKIP)
  }

  predicate HasActive(r: Row) {
    r.Bool(IsActive).Some?
  }

  /** The record passes the filters; the last login of a record that does not is never parsed. */
  predicate Passes(o: Options, r: Row) {
    HasActive(r) && (o.syncDeactivated || r.Bool(IsActive).value) && !ShouldSkip(r, o.syncNonStandard)
  }

  /** Reading the record raises no error. */
  predicate Sound(o: Options, r: Row) {
    HasActive(r) && (Passes(o, r) ==> r.Date(LastLoginDate).Some?)
  }

  predicate AllSound(o: Options, records: seq<Row>) {
    forall r | r in records :: Sound(o, r)
  }

  function UserOf(o: Options, r: Row): SalesforceUser
    requires Sound(o, r) && Passes(o, r)
  {
    SalesforceUser(r.id, r.Text(Username), r.Text(Email), r.Text(FirstName), r.Text(LastName), r.Text(UserType),
                   if o.readLicense then r.Text(LicenseDefinitionKey) else "",
                   r.Bool(IsActive).value, r.Date(LastLoginDate).value)
  }

  predicate Kept(o: Options, r: Row) {
    Sound(o, r) && Passes(o, r)
  }

  /** What the client makes of one record. */
  function KeptUser(o: Options, r: Row): seq<SalesforceUser> {
    if Kept(o, r) then [UserOf(o, r)] else []
  }

  function UsersOn(o: Options, records: seq<Row>): seq<SalesforceUser> {
    FlatMap((r: Row) => KeptUser(o, r), records)
  }

  /** The loop over the records of one response, shared by the sync and the lookup by email. */
  method ReadUsers(o: Options, records: seq<Row>) returns (r: Result<seq<SalesforceUser>>)
    ensures r == if AllSound(o, records) then Ok(UsersOn(o, records)) else Err(MalformedField)
  {
    var users: seq<SalesforceUser> := [];
    ghost var keep := (row: Row) => KeptUser(o, row);
    for i := 0 to |records|
      invariant users == FlatMap(keep, records[..i])
      invariant forall j :: 0 <= j < i ==> Sound(o, records[j])
    {
      FlatMapStep(keep, records, i);
      var record := records[i];
      assert record in records;
      var isActive := record.Bool(IsActive);
      if isActive.None? {
        assert !Sound(o, record);
        return Err(MalformedField);
      }
      if !o.syncDeactivated && !isActive.value {
        continue;
      }
      if ShouldSkip(record, o.syncNonStandard) {
        continue;
      }
      var lastLogin := record.Date(LastLoginDate);
      if lastLogin.None? {
        assert !Sound(o, record);
        return Err(MalformedField);
      }
      users := users + [UserOf(o, record)];
    }
    assert records[..|records|] == records;
    r := Ok(users);
  }

  /** The server's part of the filter. */
  function UserQuery(o: Options): seq<Cond> {
    if o.syncNonStandard then [] else [Eq(UserType, STANDARD)]
  }

  // ---------------------------------------------------------------- one user

  const AUTOMATED_PROCESS := "AutomatedProcess"
  const CLOUD_INTEGRATION := "CloudIntegrationUser"
  const AGENT_LICENSE_PREFIX := "PID_DigitalAgent"
  const INTEGRATION_LICENSE_SUFFIX := "_INTEGRATION_USER"
  const X_ORG_PROXY_LICENSE := "PID_XOrg_Proxy_User"

  /** Service accounts are told by their user type or by their license. */
  function AccountTypeOf(userType: string, license: string): AccountType {
    if userType == AUTOMATED_PROCESS || userType == CLOUD_INTEGRATION then Service
    else if HasPrefix(license, AGENT_LICENSE_PREFIX) || HasSuffix(license, INTEGRATION_LICENSE_SUFFIX)
            || license == X_ORG_PROXY_LICENSE then Service
    else Human
  }

  /** userResource: an active user is enabled unless a login record says it is frozen. */
  method BuildResource(user: SalesforceUser, login: Option<UserLogin>, usernameForEmail: bool) returns (r: UserResource)
    ensures r == ResourceOf(user, login.Some? && login.value.isFrozen, usernameForEmail)
  {
    var displayName := user.firstName + " " + user.lastName;
    var status := Disabled;
    if user.isActive {
      if login.Some? && login.value.isFrozen {
        status := Disabled;
      } else {
        status := Enabled;
      }
    }
    var email := user.email;
    if usernameForEmail {
      email := user.username;
    }
    r := UserResource(user.id, displayName, user.username, email, user.userType,
                      AccountTypeOf(user.userType, user.license), user.lastLogin, status);
  }

  /** A user as the sync should report it. */
  function ResourceOf(user: SalesforceUser, frozen: bool, usernameForEmail: bool): UserResource {
    UserResource(user.id, user.firstName + " " + user.lastName, user.username,
                 if usernameForEmail then user.username else user.email, user.userType,
                 AccountTypeOf(user.userType, user.license), user.lastLogin,
                 if user.isActive && !frozen then Enabled else Disabled)
  }

  predicate Frozen(db: Db, user: Id) {
    var last := LastOf(db.Rows(Table.UserLogins), user);
    last.Some? && last.value.Bool(IsFrozen) == Some(true)
  }

  /** Read off the two tables. */
  function Reported(db: Db, o: Options, user: SalesforceUser): UserResource {
    ResourceOf(user, Frozen(db, user.id), o.usernameForEmail)
  }

  function ReportedAll(db: Db, o: Options, users: seq<SalesforceUser>): seq<UserResource> {
    FlatMap((u: SalesforceUser) => [Reported(db, o, u)], users)
  }

  // ---------------------------------------------------------------- one page

  method GetUsers(feed: Feed, token: string, o: Options) returns (r: Result<(seq<SalesforceUser>, string)>)
    requires feed.Valid()
    ensures r == Err(Unreachable)
         || match QueryResult(feed, token)
            case Err(e) => r == Err(e)
            case Ok((records, next)) =>
              r == if AllSound(o, records) then Ok((UsersOn(o, records), next)) else Err(MalformedField)
  {
    var page := Query(feed, token);
    if page.Err? {
      return Err(page.error);
    }
    var users := ReadUsers(o, page.value.0);
    r := if users.Ok? then Ok((users.value, page.value.1)) else Err(users.error);
  }

  function UserIds(users: seq<SalesforceUser>): seq<Id> {
    seq(|users|, i requires 0 <= i < |users| => users[i].id)
  }

  /** The page can be read in full: no broken flag or date, and no login query that overflows. */
  ghost predicate Healthy(db: Db, o: Options, records: seq<Row>, limit: nat) {
    AllSound(o, records) && Clean(db, UserIds(UsersOn(o, records)), limit)
  }

  lemma JoinReports(db: Db, userIDs: seq<Id>, logins: map<Id, UserLogin>, user: Id)
    requires Complete(db, userIDs, logins) && user in userIDs
    ensures Frozen(db, user) <==> user in logins && logins[user].isFrozen
  {
    assert CompleteAt(db, userIDs, logins, user);
  }

  /** One page: the kept users, each joined with its login, and the token of the next page. */
  method List(org: Org, feed: Feed, token: string, o: Options, limit: nat)
    returns (r: Result<(seq<UserResource>, string)>)
    requires feed.Valid()
    ensures r == Err(Unreachable)
         || match QueryResult(feed, token)
            case Err(e) => r == Err(e)
            case Ok((records, next)) =>
              && (r.Ok? <==> Healthy(org.db, o, records, limit))
              && (r.Ok? ==> r.value == (ReportedAll(org.db, o, UsersOn(o, records)), next))
  {
    hide Clean, Complete, UsersOn, AllSound;
    ghost var db := org.db;
    var page := GetUsers(feed, token, o);
    if page.Err? {
      return Err(page.error);
    }
    var users := page.value.0;
    var userIDs: seq<Id> := [];
    for i := 0 to |users|
      invariant userIDs == UserIds(users[..i])
    {
      userIDs := userIDs + [users[i].id];
    }
    assert users[..|users|] == users;
    var logins, _ := GetUserLoginsByUserIDs(org, userIDs, limit);
    if logins.Err? {
      return Err(logins.error);
    }
    var resources: seq<UserResource> := [];
    ghost var report := (u: SalesforceUser) => [Reported(db, o, u)];
    for i := 0 to |users|
      invariant resources == FlatMap(report, users[..i])
    {
      FlatMapStep(report, users, i);
      assert userIDs[i] == users[i].id;
      JoinReports(db, userIDs, logins.value, users[i].id);
      var resource := BuildResource(users[i], Batched(logins.value, users[i].id), o.usernameForEmail);
      assert resource == Reported(db, o, users[i]);
      resources := resources + [resource];
    }
    r := Ok((resources, page.value.1));
  }

  // ---------------------------------------------------------------- the whole run

  lemma ReportStep(db: Db, o: Options, pages: seq<seq<Row>>, i: nat)
    requires i < |pages|
    ensures ReportedAll(db, o, UsersOn(o, Flatten(pages[..i + 1])))
            == ReportedAll(db, o, UsersOn(o, Flatten(pages[..i]))) + ReportedAll(db, o, UsersOn(o, pages[i]))
  {
    FlattenPrefixStep(pages, i);
    FlatMapAppend((r: Row) => KeptUser(o, r), Flatten(pages[..i]), pages[i]);
    FlatMapAppend((u: SalesforceUser) => [Reported(db, o, u)], UsersOn(o, Flatten(pages[..i])), UsersOn(o, pages[i]));
  }

  /**
   Feeding the tokens back until "" visits every page, also those of which nothing is kept.
   If every request is answered, the run succeeds exactly when every page is healthy, and
   it emits the kept users of all pages, once and in order.
   */
  method SyncUsers(org: Org, feed: Feed, o: Options, limit: nat)
    returns (r: Result<seq<UserResource>>, pages: nat)
    requires feed.Valid()
    ensures r == Err(Unreachable) || (r.Ok? <==> forall page :: page in feed.pages ==> Healthy(org.db, o, page, limit))
    ensures r.Ok? ==> r.value == ReportedAll(org.db, o, UsersOn(o, Flatten(feed.pages))) && pages == |feed.pages|
  {
    hide Healthy, ReportedAll, UsersOn;
    var token, resources: seq<UserResource> := "", [];
    pages := 0;
    assert ReportedAll(org.db, o, UsersOn(o, Flatten(feed.pages[..0]))) == [] by { NothingReported(org.db, o); }
    while true
      invariant pages < |feed.pages| && PageIndex(feed, token) == Some(pages)
      invariant resources == ReportedAll(org.db, o, UsersOn(o, Flatten(feed.pages[..pages])))
      invariant forall i :: 0 <= i < pages ==> Healthy(org.db, o, feed.pages[i], limit)
      decreases |feed.pages| - pages
    {
      ReportStep(org.db, o, feed.pages, pages);
      TokenLeadsOn(feed, pages);
      assert feed.pages[pages] in feed.pages;
      var page := List(org, feed, token, o, limit);
      if page.Err? {
        return Err(page.error), pages;
      }
      resources := resources + page.value.0;
      token := page.value.1;
      pages := pages + 1;
      if token == "" {
        assert feed.pages[..pages] == feed.pages;
        return Ok(resources), pages;
      }
    }
  }

  lemma NothingReported(db: Db, o: Options)
    ensures ReportedAll(db, o, UsersOn(o, [])) == []
  {
  }

  // ---------------------------------------------------------------- what the run means

  /** The users an operator asks for with the two sync options. */
  predicate Wanted(o: Options, r: Row) {
    && (o.syncDeactivated || r.Bool(IsActive) == Some(true))
    && r.Text(UserType) != ""
    && (o.syncNonStandard || r.Text(UserType) == STANDARD)
  }

  /** With non-standard users off, the client's own type filter drops nothing the server kept. */
  lemma SkipIsRedundant(db: Db, o: Options, r: Row)
    requires !o.syncNonStandard && r in Select(db, Users, UserQuery(o))
    ensures !ShouldSkip(r, o.syncNonStandard)
  {
    SelectMembers(db, Users, UserQuery(o));
    assert Holds(UserQuery(o)[0], r);
  }

  lemma QueryAndSkip(o: Options, r: Row)
    requires Sound(o, r)
    ensures Matches(r, UserQuery(o)) && Kept(o, r) <==> Wanted(o, r)
  {
    if !o.syncNonStandard {
      assert Matches(r, UserQuery(o)) <==> Holds(UserQuery(o)[0], r);
    }
  }

  lemma ReportedOf(db: Db, o: Options, records: seq<Row>, x: UserResource)
    ensures x in ReportedAll(db, o, UsersOn(o, records))
            <==> exists r :: r in records && Kept(o, r) && x == Reported(db, o, UserOf(o, r))
  {
    hide Reported, Sound, Passes;
    var users := UsersOn(o, records);
    FlatMapMembers((r: Row) => KeptUser(o, r), records);
    FlatMapMembers((u: SalesforceUser) => [Reported(db, o, u)], users);
    if r :| r in records && Kept(o, r) && x == Reported(db, o, UserOf(o, r)) {
      assert UserOf(o, r) in KeptUser(o, r) && UserOf(o, r) in users;
    }
  }

  /** A complete run reports exactly the wanted users of the organisation. */
  lemma SyncReportsWantedUsers(db: Db, feed: Feed, o: Options, x: UserResource)
    requires Serves(feed, db, Users, UserQuery(o)) && AllSound(o, Flatten(feed.pages))
    ensures x in ReportedAll(db, o, UsersOn(o, Flatten(feed.pages)))
            <==> exists r :: r in db.Rows(Users) && Wanted(o, r) && Kept(o, r) && x == Reported(db, o, UserOf(o, r))
    ensures forall r :: r in db.Rows(Users) && Wanted(o, r) ==> Kept(o, r)
  {
    hide Kept, Sound, Reported, ReportedAll, UsersOn;
    var records := Flatten(feed.pages);
    ReportedOf(db, o, records, x);
    SelectMembers(db, Users, UserQuery(o));
    forall r | r in db.Rows(Users) && Wanted(o, r) ensures r in records && Kept(o, r) {
      WantedIsQueried(o, r);
      QueryAndSkip(o, r);
    }
    forall r | r in records ensures Kept(o, r) <==> Wanted(o, r) {
      QueryAndSkip(o, r);
    }
  }

  lemma WantedIsQueried(o: Options, r: Row)
    requires Wanted(o, r)
    ensures Matches(r, UserQuery(o))
  {
  }

  /** The types of users that are left out: always none at all, and without the option the portal and guest types. */
  lemma SkippedTypes(r: Row)
    ensures ShouldSkip(r, true) <==> r.Text(UserType) == ""
    ensures ShouldSkip(r, false) <==>
              r.Text(UserType) in {"", "CspLitePortal", "CustomerSuccess", "PowerCustomerSuccess", "CsnOnly", "Guest"}
  {
  }

  /** Service accounts, by user type or license. */
  lemma ServiceAccounts(userType: string, license: string)
    ensures AccountTypeOf(userType, license) == Service <==>
              || userType == "AutomatedProcess" || userType == "CloudIntegrationUser"
              || "PID_DigitalAgent" <= license || license == "PID_XOrg_Proxy_User"
              || exists s :: license == s + "_INTEGRATION_USER"
  {
    if HasSuffix(license, "_INTEGRATION_USER") {
      var s := license[..|license| - |"_INTEGRATION_USER"|];
      assert license == s + "_INTEGRATION_USER";
    }
    if s :| license == s + "_INTEGRATION_USER" {
      assert license[|license| - |"_INTEGRATION_USER"|..] == "_INTEGRATION_USER";
    }
  }

  /**
   What is reported of a record: enabled exactly when it is active and the user's last
   login record, if there is one, is not frozen.
   */
  lemma ReportTells(db: Db, o: Options, r: Row)
    requires Kept(o, r)
    ensures var x := Reported(db, o, UserOf(o, r));
            && x.id == r.id && x.displayName == r.Text(FirstName) + " " + r.Text(LastName)
            && x.login == r.Text(Username) && x.userType == r.Text(UserType)
            && (o.usernameForEmail ==> x.email == r.Text(Username))
            && (!o.usernameForEmail ==> x.email == r.Text(Email))
            && (o.readLicense ==> x.accountType == AccountTypeOf(r.Text(UserType), r.Text(LicenseDefinitionKey)))
            && Some(x.lastLogin) == r.Date(LastLoginDate)
    ensures Reported(db, o, UserOf(o, r)).status == Enabled <==>
              && r.Bool(IsActive) == Some(true)
              && var logins := db.Rows(Table.UserLogins);
                 forall i :: 0 <= i < |logins| && logins[i].Text(UserId) == r.id
                             && logins[i].Bool(IsFrozen) == Some(true)
                             ==> exists j :: i < j < |logins| && logins[j].Text(UserId) == r.id
  {
    hide Frozen;
    FrozenMeans(db, r.id);
  }

  /** The last login record of the user says frozen. */
  lemma FrozenMeans(db: Db, user: Id)
    ensures var logins := db.Rows(Table.UserLogins);
            !Frozen(db, user) <==>
              forall i :: 0 <= i < |logins| && logins[i].Text(UserId) == user && logins[i].Bool(IsFrozen) == Some(true)
                          ==> exists j :: i < j < |logins| && logins[j].Text(UserId) == user
  {
    var logins := db.Rows(Table.UserLogins);
    if LoginsOf(logins, user) != [] {
      var last := FilterLast(logins, (s: Row) => OfUser(s, user));
      assert logins[last] == LastOf(logins, user).value;
      forall i | 0 <= i < |logins| && logins[i].Text(UserId) == user && i != last
        ensures exists j :: i < j < |logins| && logins[j].Text(UserId) == user
      {
        assert i < last && logins[last].Text(UserId) == user;
      }
    } else {
      FilterEmpty(logins, (s: Row) => OfUser(s, user));
    }
  }

  ghost predicate DistinctIds(records: seq<Row>) {
    forall i, j :: 0 <= i < j < |records| ==> records[i].id != records[j].id
  }

  /** Records with distinct ids are reported once each: no two resources share an id. */
  lemma {:induction false} ReportedOnce(db: Db, o: Options, records: seq<Row>)
    requires DistinctIds(records)
    ensures var all := ReportedAll(db, o, UsersOn(o, records));
            forall i, j :: 0 <= i < j < |all| ==> all[i].id != all[j].id
  {
    if records != [] {
      var rest := records[1..];
      ReportedOnce(db, o, rest);
      var report := (u: SalesforceUser) => [Reported(db, o, u)];
      FlatMapAppend(report, KeptUser(o, records[0]), UsersOn(o, rest));
      var tail := ReportedAll(db, o, UsersOn(o, rest));
      forall x | x in tail ensures x.id != records[0].id {
        ReportedOf(db, o, rest, x);
        var r :| r in rest && Kept(o, r) && x == Reported(db, o, UserOf(o, r));
      }
      if Kept(o, records[0]) {
        assert KeptUser(o, records[0])[1..] == [];
        assert ReportedAll(db, o, UsersOn(o, records)) == [Reported(db, o, UserOf(o, records[0]))] + tail;
      } else {
        assert ReportedAll(db, o, UsersOn(o, records)) == tail;
      }
    }
  }
}
