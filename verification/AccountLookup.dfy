/**
 Looking a user up by email: an index that lags behind the table, a response cache in
 front of it, and the retry loop that waits for a new user to appear.
 */
module AccountLookup {
  import opened Collections
  import opened Salesforce
  import opened UserSync

  const MAX_RETRIES := 3

  /** `visibleFrom` tells when queries begin to return a record; records not listed are returned at once. */
  datatype World = World(
    db: Db,
    visibleFrom: map<Id, nat>,
    clock: nat,
    cached: map<string, seq<Row>>,
    caching: bool,
    pageLimit: nat,
    mailed: seq<Id>)

  predicate Visible(visibleFrom: map<Id, nat>, clock: nat, r: Row) {
    r.id in visibleFrom ==> visibleFrom[r.id] <= clock
  }

  /** All records with an email that queries return at a given time. */
  function Indexed(w: World, email: string, clock: nat): seq<Row> {
    Filter(Select(w.db, Users, [Eq(Email, email)]), (r: Row) => Visible(w.visibleFrom, clock, r))
  }

  /** The first page of them, which is all that the lookup reads. */
  function FirstPage(w: World, email: string, clock: nat): seq<Row> {
    var all := Indexed(w, email, clock);
    if |all| > w.pageLimit then all[..w.pageLimit] else all
  }

  /** A request for an email is answered afresh, or from the cache while its entry has not expired. */
  ghost predicate MayAnswer(w: World, email: string, page: seq<Row>) {
    page == FirstPage(w, email, w.clock) || (w.caching && email in w.cached && page == w.cached[email])
  }

  function Remembered(w: World, email: string, page: seq<Row>): World {
    if w.caching then w.(cached := w.cached[email := page]) else w
  }

  /** GetUserByEmail: inactive and non-standard users count, records without a user type do not. */
  const ANY_USER := Options(true, true, false, false)

  function Lookup(records: seq<Row>): (r: Result<SalesforceUser>)
    ensures r.Err? ==> r.error == MalformedField || r.error == UserNotFound
  {
    if !AllSound(ANY_USER, records) then Err(MalformedField)
    else if UsersOn(ANY_USER, records) == [] then Err(UserNotFound)
    else Ok(UsersOn(ANY_USER, records)[0])
  }

  function Existence(found: Result<SalesforceUser>): Result<bool> {
    if found.Ok? then Ok(true) else if found.error == UserNotFound then Ok(false) else Err(found.error)
  }

  // ---------------------------------------------------------------- the server

  class Server {
    const org: Org
    const visibleFrom: map<Id, nat>
    const caching: bool
    const pageLimit: nat
    var clock: nat
    var cached: map<string, seq<Row>>
    var mailed: seq<Id>

    constructor (org: Org, visibleFrom: map<Id, nat>, caching: bool, pageLimit: nat)
      ensures this.org == org
      ensures Now() == World(org.db, visibleFrom, 0, map[], caching, pageLimit, [])
    {
      this.org, this.visibleFrom, this.caching, this.pageLimit := org, visibleFrom, caching, pageLimit;
      clock, cached, mailed := 0, map[], [];
    }

    function Now(): World
      reads this, org
    {
      World(org.db, visibleFrom, clock, cached, caching, pageLimit, mailed)
    }

    /** The query for an email, through the response cache. */
    method ByEmail(email: string) returns (r: Result<seq<Row>>)
      modifies this
      ensures (r == Err(Unreachable) && Now() == old(Now()))
           || (r.Ok? && MayAnswer(old(Now()), email, r.value) && Now() == Remembered(old(Now()), email, r.value))
    {
      if caching && email in cached {
        assert cached == cached[email := cached[email]];
        if * {
          return Ok(cached[email]);
        }
      }
      if * {
        return Err(Unreachable);
      }
      var page := FirstPage(Now(), email, clock);
      if caching {
        cached := cached[email := page];
      }
      r := Ok(page);
    }

    method ClearCaches() returns (r: Result<()>)
      modifies this
      ensures (r == Err(Unreachable) && Now() == old(Now())) || (r == Ok(()) && Now() == old(Now()).(cached := map[]))
    {
      if * {
        return Err(Unreachable);
      }
      cached := map[];
      r := Ok(());
    }

    method Wait(delay: nat)
      modifies this
      ensures Now() == old(Now()).(clock := old(clock) + delay)
    {
      clock := clock + delay;
    }

    /** The mail may have gone out although its request was lost. */
    method SendResetPasswordEmail(id: Id) returns (r: Result<()>)
      modifies this
      ensures (r == Err(Unreachable) && Now() == old(Now()))
           || ((r == Ok(()) || r == Err(Unreachable)) && Now() == old(Now()).(mailed := old(mailed) + [id]))
    {
      if * {
        return Err(Unreachable);
      }
      mailed := mailed + [id];
      if * {
        return Err(Unreachable);
      }
      r := Ok(());
    }
  }

  // ---------------------------------------------------------------- the client

  method GetUserByEmail(server: Server, email: string) returns (r: Result<SalesforceUser>, ghost page: seq<Row>)
    modifies server
    ensures (r == Err(Unreachable) && server.Now() == old(server.Now()))
         || (r == Lookup(page) && MayAnswer(old(server.Now()), email, page)
             && server.Now() == Remembered(old(server.Now()), email, page))
  {
    page := [];
    var records := server.ByEmail(email);
    if records.Err? {
      return Err(records.error), page;
    }
    page := records.value;
    var users := ReadUsers(ANY_USER, records.value);
    if users.Err? {
      return Err(users.error), page;
    }
    if |users.value| == 0 {
      return Err(UserNotFound), page;
    }
    r := Ok(users.value[0]);
  }

  method UserExist(server: Server, email: string) returns (r: Result<bool>, ghost page: seq<Row>)
    modifies server
    ensures (r == Err(Unreachable) && server.Now() == old(server.Now()))
         || (r == Existence(Lookup(page)) && MayAnswer(old(server.Now()), email, page)
             && server.Now() == Remembered(old(server.Now()), email, page))
  {
    var user;
    user, page := GetUserByEmail(server, email);
    if user.Err? {
      if user.error == UserNotFound {
        return Ok(false), page;
      }
      return Err(user.error), page;
    }
    r := Ok(true);
  }

  /** The pause before attempt `k`, all earlier pauses included. */
  function Elapsed(k: nat): nat {
    if k == 0 then 0 else Elapsed(k - 1) + k
  }

  /** What the loop returns from attempt `k` on; every read is a fresh one. */
  function Retried(w: World, email: string, k: nat): Result<SalesforceUser>
    decreases MAX_RETRIES - k
  {
    if k >= MAX_RETRIES then Err(RetriesExhausted)
    else
      var found := Lookup(FirstPage(w, email, w.clock + Elapsed(k)));
      if found == Err(UserNotFound) then Retried(w, email, k + 1) else found
  }

  /** One attempt: the caches are cleared first, so the answer is a fresh one. */
  method Attempt(server: Server, email: string) returns (r: Result<SalesforceUser>)
    modifies server
    ensures r == Err(Unreachable) || r == Lookup(FirstPage(old(server.Now()), email, old(server.clock)))
    ensures server.Now() == old(server.Now()).(cached := server.cached)
  {
    hide Lookup, FirstPage;
    var cleared := server.ClearCaches();
    if cleared.Err? {
      return Err(cleared.error);
    }
    SameIndex(old(server.Now()), server.Now(), email);
    ghost var page;
    r, page := GetUserByEmail(server, email);
  }

  /** Reads at most three times, never from a stale cache, and stops at the first other answer. */
  method GetUserByEmailWithRetry(server: Server, email: string)
    returns (r: Result<SalesforceUser>, readTimes: seq<nat>)
    modifies server
    ensures r == Err(Unreachable) || r == Retried(old(server.Now()), email, 0)
    ensures |readTimes| <= MAX_RETRIES
    ensures forall i :: 0 <= i < |readTimes| ==> readTimes[i] == old(server.clock) + Elapsed(i)
    ensures |readTimes| > 0 && server.clock == readTimes[|readTimes| - 1]
    ensures r == Err(RetriesExhausted) ==> |readTimes| == MAX_RETRIES
    ensures server.Now() == old(server.Now()).(clock := server.clock, cached := server.cached)
  {
    hide Lookup, FirstPage, Retried, Elapsed, Visible;
    ghost var start := server.Now();
    readTimes := [];
    assert Elapsed(0) == 0 by { ElapsedStep(0); }
    for attempt := 0 to MAX_RETRIES
      invariant |readTimes| == attempt && forall i :: 0 <= i < attempt ==> readTimes[i] == start.clock + Elapsed(i)
      invariant server.Now() == start.(clock := server.clock, cached := server.cached)
      invariant server.clock == start.clock + Elapsed(if attempt < MAX_RETRIES then attempt else MAX_RETRIES - 1)
      invariant Retried(start, email, attempt) == Retried(start, email, 0)
    {
      readTimes := readTimes + [server.clock];
      RetriedStep(start, email, attempt);
      ElapsedStep(attempt);
      SameIndex(start, server.Now(), email);
      var user := Attempt(server, email);
      if user.Ok? {
        return Ok(user.value), readTimes;
      }
      if user.error != UserNotFound {
        return Err(user.error), readTimes;
      }
      if attempt < MAX_RETRIES - 1 {
        server.Wait(attempt + 1);
      }
    }
    RetriedStep(start, email, 0);
    r := Err(RetriesExhausted);
  }

  lemma RetriedStep(w: World, email: string, k: nat)
    requires k < MAX_RETRIES
    ensures var found := Lookup(FirstPage(w, email, w.clock + Elapsed(k)));
            Retried(w, email, k) == if found == Err(UserNotFound) then Retried(w, email, k + 1) else found
    ensures Retried(w, email, MAX_RETRIES) == Err(RetriesExhausted)
  {
    hide Lookup, FirstPage, Elapsed;
  }

  lemma ElapsedStep(k: nat)
    ensures Elapsed(0) == 0 && Elapsed(k + 1) == Elapsed(k) + k + 1
  {
  }

  /** Neither the clock nor the cache decides what the index holds at a given time. */
  lemma SameIndex(w: World, v: World, email: string)
    requires v == w.(clock := v.clock, cached := v.cached)
    ensures forall clock :: FirstPage(v, email, clock) == FirstPage(w, email, clock)
    ensures v.cached == map[] ==> forall page :: MayAnswer(v, email, page) ==> page == FirstPage(w, email, v.clock)
  {
  }

  // ---------------------------------------------------------------- what the loop achieves

  /** After n reads the loop has waited n(n-1)/2 units; with three reads, 0, 1 and 3. */
  lemma {:induction false} ElapsedClosedForm(n: nat)
    requires n > 0
    ensures 2 * Elapsed(n - 1) == n * (n - 1)
    ensures Elapsed(0) == 0 && Elapsed(1) == 1 && Elapsed(2) == 3
  {
    if n > 1 {
      ElapsedClosedForm(n - 1);
    }
  }

  lemma {:induction false} ElapsedGrows(k: nat, n: nat)
    requires k <= n
    ensures Elapsed(k) <= Elapsed(n)
  {
    if k < n {
      ElapsedGrows(k, n - 1);
    }
  }

  lemma IndexedMembers(w: World, email: string, clock: nat)
    ensures forall r :: r in Indexed(w, email, clock) <==>
              r in w.db.Rows(Users) && r.Text(Email) == email && Visible(w.visibleFrom, clock, r)
  {
    SelectMembers(w.db, Users, [Eq(Email, email)]);
    FilterMembers(Select(w.db, Users, [Eq(Email, email)]), (r: Row) => Visible(w.visibleFrom, clock, r));
    assert forall r: Row :: Matches(r, [Eq(Email, email)]) <==> r.Text(Email) == email by {
      assert forall r: Row :: Matches(r, [Eq(Email, email)]) <==> Holds([Eq(Email, email)][0], r);
    }
  }

  lemma {:induction false} FilterShorter<T>(xs: seq<T>, p: T -> bool)
    ensures |Filter(xs, p)| <= |xs|
  {
    if xs != [] {
      FilterShorter(xs[1..], p);
    }
  }

  predicate Typed(r: Row) {
    r.Text(UserType) != ""
  }

  /** A page that makes a lookup succeed: no record raises an error, and one has a user type. */
  ghost predicate Usable(page: seq<Row>) {
    AllSound(ANY_USER, page) && exists r :: r in page && Typed(r)
  }

  /** A page that makes a lookup answer "not found". */
  ghost predicate Blank(page: seq<Row>) {
    AllSound(ANY_USER, page) && forall r :: r in page ==> !Typed(r)
  }

  lemma KeptIfTyped(page: seq<Row>)
    requires AllSound(ANY_USER, page)
    ensures UsersOn(ANY_USER, page) != [] <==> exists r :: r in page && Typed(r)
  {
    FlatMapMembers((row: Row) => KeptUser(ANY_USER, row), page);
    if UsersOn(ANY_USER, page) != [] {
      assert UsersOn(ANY_USER, page)[0] in UsersOn(ANY_USER, page);
    }
    if r :| r in page && Typed(r) {
      assert UserOf(ANY_USER, r) in KeptUser(ANY_USER, r) && UserOf(ANY_USER, r) in UsersOn(ANY_USER, page);
    }
  }

  /** What a lookup makes of a page, whatever the page holds. */
  lemma LookupFindsIff(page: seq<Row>)
    ensures Lookup(page).Ok? <==> Usable(page)
    ensures Lookup(page) == Err(UserNotFound) <==> Blank(page)
  {
    hide Sound, UsersOn, Typed;
    if AllSound(ANY_USER, page) {
      KeptIfTyped(page);
    }
  }

  /** The page that attempt `k` of the loop reads. */
  function PageOf(w: World, email: string, k: nat): seq<Row> {
    FirstPage(w, email, w.clock + Elapsed(k))
  }

  /** The first page that is not blank is a usable one. */
  ghost predicate UsableFrom(w: World, email: string, k: nat) {
    exists n: nat :: k <= n < MAX_RETRIES && Usable(PageOf(w, email, n))
                     && forall j: nat :: k <= j < n ==> Blank(PageOf(w, email, j))
  }

  /** The loop succeeds exactly when the first of its pages that is not blank is usable. */
  lemma {:induction false} RetrySucceedsIff(w: World, email: string, k: nat)
    ensures Retried(w, email, k).Ok? <==> UsableFrom(w, email, k)
    decreases MAX_RETRIES - k
  {
    hide Lookup, Usable, Blank, FirstPage;
    if k < MAX_RETRIES {
      var page := PageOf(w, email, k);
      LookupFindsIff(page);
      RetrySucceedsIff(w, email, k + 1);
      assert !(Usable(page) && Blank(page)) by { UsableIsNotBlank(page); }
      if Blank(page) {
        assert UsableFrom(w, email, k + 1) ==> UsableFrom(w, email, k);
      }
    }
  }

  lemma UsableIsNotBlank(page: seq<Row>)
    ensures !(Usable(page) && Blank(page))
  {
  }

  // ---------------------------------------------------------------- in terms of visibility

  /** The users of an email fit on one page, and all their records can be read. */
  ghost predicate Plain(w: World, email: string) {
    && |Select(w.db, Users, [Eq(Email, email)])| <= w.pageLimit
    && forall r :: r in w.db.Rows(Users) && r.Text(Email) == email ==> Sound(ANY_USER, r)
  }

  /** A user that a lookup by email accepts at the given time. */
  predicate Findable(w: World, email: string, clock: nat, r: Row) {
    r in w.db.Rows(Users) && r.Text(Email) == email && Typed(r) && Visible(w.visibleFrom, clock, r)
  }

  ghost predicate CanFind(w: World, email: string, clock: nat) {
    exists r :: Findable(w, email, clock, r)
  }

  lemma PlainPages(w: World, email: string, clock: nat)
    requires Plain(w, email)
    ensures Usable(FirstPage(w, email, clock)) <==> CanFind(w, email, clock)
    ensures Blank(FirstPage(w, email, clock)) <==> !CanFind(w, email, clock)
  {
    hide Sound, Typed, Visible, Indexed;
    var page := FirstPage(w, email, clock);
    IndexedMembers(w, email, clock);
    assert page == Indexed(w, email, clock) by { WholePage(w, email, clock); }
    assert AllSound(ANY_USER, page);
    assert forall r :: r in page && Typed(r) <==> Findable(w, email, clock, r);
  }

  lemma WholePage(w: World, email: string, clock: nat)
    requires |Select(w.db, Users, [Eq(Email, email)])| <= w.pageLimit
    ensures FirstPage(w, email, clock) == Indexed(w, email, clock)
  {
    FilterShorter(Select(w.db, Users, [Eq(Email, email)]), (r: Row) => Visible(w.visibleFrom, clock, r));
  }

  /** The retry finds a user if and only if one is visible three units after the first read. */
  lemma RetryFindsIff(w: World, email: string)
    requires Plain(w, email)
    ensures Retried(w, email, 0).Ok? <==> CanFind(w, email, w.clock + 3)
    ensures Retried(w, email, 0).Err? ==> Retried(w, email, 0) == Err(RetriesExhausted)
  {
    ElapsedClosedForm(3);
    RetryFindsFrom(w, email, 0);
  }

  /** From attempt `k` on, the loop finds a user exactly when one is findable by the last read. */
  lemma {:induction false} RetryFindsFrom(w: World, email: string, k: nat)
    requires Plain(w, email) && k < MAX_RETRIES
    ensures Retried(w, email, k).Ok? <==> CanFind(w, email, w.clock + Elapsed(MAX_RETRIES - 1))
    ensures Retried(w, email, k).Err? ==> Retried(w, email, k).error == RetriesExhausted
    decreases MAX_RETRIES - k
  {
    hide Plain, Lookup, FirstPage, Usable, Blank;
    var now, last := w.clock + Elapsed(k), w.clock + Elapsed(MAX_RETRIES - 1);
    LookupFindsIff(FirstPage(w, email, now));
    PlainPages(w, email, now);
    ElapsedGrows(k, MAX_RETRIES - 1);
    if r :| Findable(w, email, now, r) {
      assert Findable(w, email, last, r);
    } else if k + 1 < MAX_RETRIES {
      RetryFindsFrom(w, email, k + 1);
    }
  }

  /**
   A user that the loop returns is the first findable one at the time of its read, in the
   order of ids, and every earlier read saw a blank page.
   */
  lemma {:induction false} RetryAnswers(w: World, email: string, k: nat) returns (r: Row, t: nat, p: nat)
    requires Retried(w, email, k).Ok?
    ensures exists n: nat :: k <= n < MAX_RETRIES && t == w.clock + Elapsed(n)
                             && forall m: nat :: k <= m < n ==> Blank(PageOf(w, email, m))
    ensures w.clock <= t <= w.clock + Elapsed(MAX_RETRIES - 1)
    ensures Findable(w, email, t, r) && Kept(ANY_USER, r) && Retried(w, email, k) == Ok(UserOf(ANY_USER, r))
    ensures IsFirstFindable(w, email, t, r, p)
    decreases MAX_RETRIES - k
  {
    hide Findable, IsFirstFindable, Kept, Lookup, FirstPage, Blank, Usable;
    t := w.clock + Elapsed(k);
    ElapsedGrows(k, MAX_RETRIES - 1);
    LookupFindsIff(FirstPage(w, email, t));
    if Lookup(FirstPage(w, email, t)) == Err(UserNotFound) {
      r, t, p := RetryAnswers(w, email, k + 1);
      var n: nat :| k + 1 <= n < MAX_RETRIES && t == w.clock + Elapsed(n)
                    && forall m: nat :: k + 1 <= m < n ==> Blank(PageOf(w, email, m));
      assert Blank(PageOf(w, email, k));
      assert forall m: nat :: k <= m < n ==> Blank(PageOf(w, email, m));
    } else {
      r, p := LookupAnswer(w, email, t);
    }
  }

  /** The record stands at a place of the table before which no other is findable. */
  ghost predicate IsFirstFindable(w: World, email: string, t: nat, r: Row, p: nat) {
    && p < |w.db.Rows(Users)| && w.db.Rows(Users)[p] == r
    && forall q :: 0 <= q < p ==> !Findable(w, email, t, w.db.Rows(Users)[q])
  }

  /** A lookup takes the first record of the page with a user type, as it stands. */
  lemma {:induction false} LookupTakesFirst(page: seq<Row>) returns (i: nat)
    requires Lookup(page).Ok?
    ensures i < |page| && Typed(page[i]) && Kept(ANY_USER, page[i]) && Lookup(page) == Ok(UserOf(ANY_USER, page[i]))
    ensures Lookup(page).value.id == page[i].id && Lookup(page).value.username == page[i].Text(Username)
    ensures Lookup(page).value.email == page[i].Text(Email)
    ensures Lookup(page).value.isActive <==> page[i].Bool(IsActive) == Some(true)
    ensures forall j :: 0 <= j < i ==> !Typed(page[j])
  {
    assert page[0] in page && forall r :: r in page[1..] ==> r in page;
    if Typed(page[0]) {
      i := 0;
      assert KeptUser(ANY_USER, page[0]) == [UserOf(ANY_USER, page[0])];
    } else {
      assert UsersOn(ANY_USER, page) == UsersOn(ANY_USER, page[1..]);
      var k := LookupTakesFirst(page[1..]);
      i := k + 1;
      forall j | 0 <= j < i ensures !Typed(page[j]) {
        assert j > 0 ==> page[1..][j - 1] == page[j];
      }
    }
  }

  lemma LookupAnswer(w: World, email: string, t: nat) returns (r: Row, p: nat)
    requires Lookup(FirstPage(w, email, t)).Ok?
    ensures Findable(w, email, t, r) && Kept(ANY_USER, r) && Lookup(FirstPage(w, email, t)) == Ok(UserOf(ANY_USER, r))
    ensures IsFirstFindable(w, email, t, r, p)
  {
    var page := FirstPage(w, email, t);
    var i := LookupTakesFirst(page);
    hide Lookup, Sound, Visible, Typed;
    r := page[i];
    IndexedMembers(w, email, t);
    assert r == Indexed(w, email, t)[i] && Indexed(w, email, t)[..i] == page[..i];
    p := IndexedInOrder(w, email, t, i);
    assert forall s :: s in page[..i] ==> !Typed(s);
  }

  /** The index holds the records in the order of the table. */
  lemma IndexedInOrder(w: World, email: string, t: nat, i: nat) returns (p: nat)
    requires i < |Indexed(w, email, t)|
    ensures p < |w.db.Rows(Users)| && w.db.Rows(Users)[p] == Indexed(w, email, t)[i]
    ensures forall q :: 0 <= q < p && Findable(w, email, t, w.db.Rows(Users)[q]) ==>
              w.db.Rows(Users)[q] in Indexed(w, email, t)[..i]
  {
    hide Visible, Typed;
    var conds := [Eq(Email, email)];
    var byEmail := Select(w.db, Users, conds);
    assert forall s: Row :: Matches(s, conds) <==> s.Text(Email) == email by {
      assert forall s: Row :: Matches(s, conds) <==> Holds(conds[0], s);
    }
    var k := FilterIndex(byEmail, (s: Row) => Visible(w.visibleFrom, t, s), i);
    p := FilterIndex(w.db.Rows(Users), (s: Row) => Matches(s, conds), k);
    forall q | 0 <= q < p && Findable(w, email, t, w.db.Rows(Users)[q])
      ensures w.db.Rows(Users)[q] in Indexed(w, email, t)[..i]
    {
      var j :| 0 <= j < k && byEmail[j] == w.db.Rows(Users)[q];
    }
  }
}
