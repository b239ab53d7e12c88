/** Login records of many users in few queries, against one query per user. */
module UserLogins {
  import opened Collections
  import opened Salesforce

  const CHUNK_SIZE := 250

  datatype UserLogin = UserLogin(id: Id, userId: Id, isFrozen: bool, isPasswordLocked: bool)

  predicate Readable(r: Row) {
    r.Bool(IsFrozen).Some? && r.Bool(IsPasswordLocked).Some?
  }

  function Login(r: Row): UserLogin
    requires Readable(r)
  {
    UserLogin(r.id, r.Text(UserId), r.Bool(IsFrozen).value, r.Bool(IsPasswordLocked).value)
  }

  function ReadLogin(r: Row): Result<UserLogin> {
    if Readable(r) then Ok(Login(r)) else Err(MalformedField)
  }

  predicate OfUser(r: Row, user: Id) {
    r.Text(UserId) == user
  }

  /** The login records of one user, in id order. */
  function LoginsOf(rows: seq<Row>, user: Id): seq<Row> {
    Filter(rows, (r: Row) => OfUser(r, user))
  }

  function LastOf(rows: seq<Row>, user: Id): Option<Row> {
    var mine := LoginsOf(rows, user);
    if mine == [] then None else Some(mine[|mine| - 1])
  }

  // ---------------------------------------------------------------- one user

  lemma {:induction false} SameFilter<T>(xs: seq<T>, p: T -> bool, q: T -> bool)
    requires forall x :: p(x) == q(x)
    ensures Filter(xs, p) == Filter(xs, q)
  {
    if xs != [] {
      SameFilter(xs[1..], p, q);
    }
  }

  /** Filtering twice: the inner filter either keeps or drops everything the outer one wants. */
  lemma {:induction false} FilterTwice<T>(xs: seq<T>, p: T -> bool, q: T -> bool)
    ensures (forall x :: q(x) ==> p(x)) ==> Filter(Filter(xs, p), q) == Filter(xs, q)
    ensures (forall x :: q(x) ==> !p(x)) ==> Filter(Filter(xs, p), q) == []
  {
    if xs != [] {
      FilterTwice(xs[1..], p, q);
      FilterAppend(if p(xs[0]) then [xs[0]] else [], Filter(xs[1..], p), q);
      assert [xs[0]][1..] == [];
    }
  }

  lemma SelectIsLoginsOf(db: Db, user: Id)
    ensures Select(db, Table.UserLogins, [Eq(UserId, user)]) == LoginsOf(db.Rows(Table.UserLogins), user)
  {
    assert forall r: Row :: Matches(r, [Eq(UserId, user)]) == OfUser(r, user) by {
      assert forall r: Row :: Matches(r, [Eq(UserId, user)]) <==> Holds([Eq(UserId, user)][0], r);
    }
    SameFilter(db.Rows(Table.UserLogins), (r: Row) => Matches(r, [Eq(UserId, user)]), (r: Row) => OfUser(r, user));
  }

  /** GetUserLogin: the first record decides. */
  function Single(db: Db, user: Id): Result<Option<UserLogin>> {
    match First(LoginsOf(db.Rows(Table.UserLogins), user))
    case None => Ok(None)
    case Some(r) => if Readable(r) then Ok(Some(Login(r))) else Err(MalformedField)
  }

  method GetUserLogin(org: Org, user: Id) returns (r: Result<Option<UserLogin>>)
    ensures r == Err(Unreachable) || r == Single(org.db, user)
  {
    var records := org.Query(Table.UserLogins, [Eq(UserId, user)]);
    SelectIsLoginsOf(org.db, user);
    if records.Err? {
      return Err(records.error);
    }
    if |records.value| == 0 {
      return Ok(None);
    }
    var login := ReadLogin(records.value[0]);
    r := if login.Ok? then Ok(Some(login.value)) else Err(login.error);
  }

  // ---------------------------------------------------------------- many users

  function ChunkCount(n: nat): nat {
    (n + CHUNK_SIZE - 1) / CHUNK_SIZE
  }

  function Chunk(userIDs: seq<Id>, k: nat): seq<Id>
    requires k < ChunkCount(|userIDs|)
  {
    userIDs[k * CHUNK_SIZE .. if (k + 1) * CHUNK_SIZE <= |userIDs| then (k + 1) * CHUNK_SIZE else |userIDs|]
  }

  function ChunkRows(db: Db, chunk: seq<Id>): seq<Row> {
    Select(db, Table.UserLogins, [AnyOf(UserId, chunk)])
  }

  /** No chunk overflows the server's page, and every record that is read is readable. */
  ghost predicate Clean(db: Db, userIDs: seq<Id>, limit: nat) {
    forall k: nat :: k < ChunkCount(|userIDs|) ==>
      |ChunkRows(db, Chunk(userIDs, k))| <= limit
      && forall r :: r in ChunkRows(db, Chunk(userIDs, k)) ==> Readable(r)
  }

  /** A user has an entry exactly if asked for and known, and it is the last record. */
  ghost predicate CompleteAt(db: Db, userIDs: seq<Id>, result: map<Id, UserLogin>, user: Id) {
    var last := LastOf(db.Rows(Table.UserLogins), user);
    && (user in result <==> user in userIDs && last.Some?)
    && (user in result ==> Readable(last.value) && result[user] == Login(last.value))
  }

  /** The map holds the last login record of every one of these users who has one. */
  ghost predicate Complete(db: Db, userIDs: seq<Id>, result: map<Id, UserLogin>) {
    forall u :: CompleteAt(db, userIDs, result, u)
  }

  lemma ChunkRowsOfUser(db: Db, chunk: seq<Id>, user: Id)
    ensures LoginsOf(ChunkRows(db, chunk), user)
            == if user in chunk then LoginsOf(db.Rows(Table.UserLogins), user) else []
  {
    var conds := [AnyOf(UserId, chunk)];
    assert forall r: Row :: Matches(r, conds) <==> r.Text(UserId) in chunk by {
      assert forall r: Row :: Matches(r, conds) <==> Holds(conds[0], r);
    }
    FilterTwice(db.Rows(Table.UserLogins), (r: Row) => Matches(r, conds), (r: Row) => OfUser(r, user));
  }

  lemma LastOfStep(records: seq<Row>, j: nat, user: Id)
    requires j < |records|
    ensures LastOf(records[..j + 1], user)
            == if OfUser(records[j], user) then Some(records[j]) else LastOf(records[..j], user)
  {
    FilterStep(records, (r: Row) => OfUser(r, user), j);
  }

  /** What a user's entry is after records were put into a map one after the other. */
  ghost predicate MergedAt(before: map<Id, UserLogin>, records: seq<Row>, result: map<Id, UserLogin>, user: Id) {
    match LastOf(records, user)
    case None => (user in result <==> user in before) && (user in before ==> result[user] == before[user])
    case Some(last) => Readable(last) && user in result && result[user] == Login(last)
  }

  /** The records of one chunk, put into the map one after the other. */
  method Collect(before: map<Id, UserLogin>, records: seq<Row>) returns (r: Result<map<Id, UserLogin>>)
    ensures r.Ok? <==> forall row :: row in records ==> Readable(row)
    ensures r.Err? ==> r.error == MalformedField
    ensures r.Ok? ==> forall u :: MergedAt(before, records, r.value, u)
  {
    var result := before;
    for j := 0 to |records|
      invariant forall i :: 0 <= i < j ==> Readable(records[i])
      invariant forall u :: MergedAt(before, records[..j], result, u)
    {
      var login := ReadLogin(records[j]);
      if login.Err? {
        assert records[j] in records;
        return Err(login.error);
      }
      var next := result[login.value.userId := login.value];
      ghost var grown := records[..j + 1];
      forall u ensures MergedAt(before, grown, next, u) {
        assert MergedAt(before, records[..j], result, u);
        LastOfStep(records, j, u);
      }
      result := next;
    }
    assert records[..|records|] == records;
    r := Ok(result);
  }

  lemma CompleteStep(db: Db, done: seq<Id>, chunk: seq<Id>, before: map<Id, UserLogin>, after: map<Id, UserLogin>)
    requires Complete(db, done, before)
    requires forall u :: MergedAt(before, ChunkRows(db, chunk), after, u)
    ensures Complete(db, done + chunk, after)
  {
    forall u ensures CompleteAt(db, done + chunk, after, u) {
      assert CompleteAt(db, done, before, u) && MergedAt(before, ChunkRows(db, chunk), after, u);
      ChunkRowsOfUser(db, chunk, u);
    }
  }

  /**
   All login records of the given users, in ceil(n / 250) queries.  If every request is
   answered, the call succeeds exactly when no chunk is paginated and all records are
   readable, and a success is complete: every user with a login is in the map.
   */
  method GetUserLoginsByUserIDs(org: Org, userIDs: seq<Id>, limit: nat)
    returns (r: Result<map<Id, UserLogin>>, queries: nat)
    ensures r == Err(Unreachable) || (r.Ok? <==> Clean(org.db, userIDs, limit))
    ensures r.Ok? ==> Complete(org.db, userIDs, r.value) && queries == ChunkCount(|userIDs|)
  {
    hide LastOf, ChunkRows, Readable;
    var result: map<Id, UserLogin> := map[];
    queries := 0;
    if |userIDs| == 0 {
      return Ok(result), 0;
    }
    var totalChunks := (|userIDs| + CHUNK_SIZE - 1) / CHUNK_SIZE;
    var start := 0;
    while start < |userIDs|
      invariant start == queries * CHUNK_SIZE && queries <= totalChunks == ChunkCount(|userIDs|)
      invariant Complete(org.db, userIDs[..if start < |userIDs| then start else |userIDs|], result)
      invariant forall k: nat :: k < queries ==>
        |ChunkRows(org.db, Chunk(userIDs, k))| <= limit
        && forall row :: row in ChunkRows(org.db, Chunk(userIDs, k)) ==> Readable(row)
    {
      var end := if start + CHUNK_SIZE < |userIDs| then start + CHUNK_SIZE else |userIDs|;
      var chunk := userIDs[start..end];
      var chunkIndex := start / CHUNK_SIZE + 1;
      assert 1 <= chunkIndex <= totalChunks && chunk == Chunk(userIDs, queries);
      var page := QueryChunk(org, chunk, limit);
      if page.Err? {
        return Err(page.error), queries + 1;
      }
      if page.value.1 != "" {
        return Err(UnexpectedPagination), queries + 1;
      }
      var collected := Collect(result, page.value.0);
      if collected.Err? {
        return Err(collected.error), queries + 1;
      }
      CompleteStep(org.db, userIDs[..start], chunk, result, collected.value);
      assert userIDs[..start] + chunk == userIDs[..end];
      result := collected.value;
      queries := queries + 1;
      start := start + CHUNK_SIZE;
    }
    assert userIDs[..|userIDs|] == userIDs;
    r := Ok(result);
  }

  method QueryChunk(org: Org, chunk: seq<Id>, limit: nat) returns (r: Result<(seq<Row>, string)>)
    ensures r == Err(Unreachable)
         || (r.Ok? && (r.value.1 != "" <==> |ChunkRows(org.db, chunk)| > limit)
             && (r.value.1 == "" ==> r.value.0 == ChunkRows(org.db, chunk)))
  {
    r := org.QueryPage(Table.UserLogins, [AnyOf(UserId, chunk)], limit);
  }

  /** The login tells what the record says. */
  predicate Tells(login: UserLogin, r: Row) {
    && login.id == r.id && login.userId == r.Text(UserId)
    && (login.isFrozen <==> r.Bool(IsFrozen) == Some(true))
    && (login.isPasswordLocked <==> r.Bool(IsPasswordLocked) == Some(true))
  }

  /** The single lookup takes the first record of the user, in the order of ids; without one there is no login. */
  lemma SingleTakesFirst(db: Db, user: Id) returns (i: nat)
    ensures var rows := db.Rows(Table.UserLogins);
            match Single(db, user)
            case Ok(None) => forall j :: 0 <= j < |rows| ==> rows[j].Text(UserId) != user
            case Ok(Some(login)) =>
              && i < |rows| && rows[i].Text(UserId) == user && Tells(login, rows[i])
              && forall j :: 0 <= j < i ==> rows[j].Text(UserId) != user
            case Err(e) =>
              && e == MalformedField && i < |rows| && rows[i].Text(UserId) == user
              && (rows[i].Bool(IsFrozen) == None || rows[i].Bool(IsPasswordLocked) == None)
  {
    var rows := db.Rows(Table.UserLogins);
    i := 0;
    if LoginsOf(rows, user) == [] {
      FilterEmpty(rows, (r: Row) => OfUser(r, user));
    } else {
      i := FilterFirst(rows, (r: Row) => OfUser(r, user));
    }
  }

  /** The batch takes the last one. */
  lemma BatchTakesLast(db: Db, userIDs: seq<Id>, result: map<Id, UserLogin>, user: Id) returns (i: nat)
    requires Complete(db, userIDs, result) && user in result
    ensures var rows := db.Rows(Table.UserLogins);
            && i < |rows| && rows[i].Text(UserId) == user && Tells(result[user], rows[i])
            && forall j :: i < j < |rows| ==> rows[j].Text(UserId) != user
  {
    assert CompleteAt(db, userIDs, result, user);
    i := FilterLast(db.Rows(Table.UserLogins), (r: Row) => OfUser(r, user));
  }

  /** And it has no entry for a requested user exactly when there is no record. */
  lemma BatchOmitsIff(db: Db, userIDs: seq<Id>, result: map<Id, UserLogin>, user: Id)
    requires Complete(db, userIDs, result) && user in userIDs
    ensures user !in result <==> forall r :: r in db.Rows(Table.UserLogins) ==> r.Text(UserId) != user
  {
    assert CompleteAt(db, userIDs, result, user);
    FilterMembers(db.Rows(Table.UserLogins), (r: Row) => OfUser(r, user));
    var mine := LoginsOf(db.Rows(Table.UserLogins), user);
    assert mine != [] ==> mine[0] in mine;
  }

  // ---------------------------------------------------------------- the two forms compared

  /** What a caller reads off the batch: a missing key is "no login". */
  function Batched(result: map<Id, UserLogin>, user: Id): Option<UserLogin> {
    if user in result then Some(result[user]) else None
  }

  /**
   For a requested user the batch agrees with the single lookup exactly when the user's
   first and last records are the same one: the batch keeps the last, the lookup the first.
   */
  lemma BatchAgreesIff(db: Db, userIDs: seq<Id>, result: map<Id, UserLogin>, user: Id)
    requires Valid(db) && Complete(db, userIDs, result) && user in userIDs
    ensures Single(db, user) == Ok(Batched(result, user)) <==>
              First(LoginsOf(db.Rows(Table.UserLogins), user)) == LastOf(db.Rows(Table.UserLogins), user)
  {
    assert CompleteAt(db, userIDs, result, user);
    var rows := db.Rows(Table.UserLogins);
    var mine := LoginsOf(rows, user);
    FilterMembers(rows, (r: Row) => OfUser(r, user));
    if mine != [] {
      var first, last := mine[0], mine[|mine| - 1];
      assert first in mine && last in mine && first in rows && last in rows;
      assert UniqueRows(Table.UserLogins, rows);
    }
  }

  /** With at most one login record a user, the batch is the map of the single lookups. */
  lemma BatchIsMapOfSingles(db: Db, userIDs: seq<Id>, result: map<Id, UserLogin>)
    requires Valid(db) && Complete(db, userIDs, result)
    requires forall r, s ::
      r in db.Rows(Table.UserLogins) && s in db.Rows(Table.UserLogins) && r.Text(UserId) == s.Text(UserId) ==> r == s
    ensures forall u :: u in userIDs ==> Single(db, u) == Ok(Batched(result, u))
    ensures forall u :: u in result ==> u in userIDs
  {
    hide Valid;
    forall u | u in result ensures u in userIDs {
      assert CompleteAt(db, userIDs, result, u);
    }
    var rows := db.Rows(Table.UserLogins);
    forall u | u in userIDs ensures Single(db, u) == Ok(Batched(result, u)) {
      var mine := LoginsOf(rows, u);
      FilterMembers(rows, (r: Row) => OfUser(r, u));
      if mine != [] {
        assert mine[0] in mine && mine[|mine| - 1] in mine;
      }
      BatchAgreesIff(db, userIDs, result, u);
    }
  }

  /** Two login records of one user; only the second is frozen. */
  function TwoLogins(user: Id): Db {
    Db(map[Table.UserLogins := [
        Row("1", map[UserId := Text(user), IsFrozen := Flag(false), IsPasswordLocked := Flag(false)]),
        Row("2", map[UserId := Text(user), IsFrozen := Flag(true), IsPasswordLocked := Flag(false)])]])
  }

  /** There the batch reports the user as frozen, and the single lookup does not. */
  lemma BatchDiffers(user: Id, result: map<Id, UserLogin>)
    requires Complete(TwoLogins(user), [user], result)
    ensures Valid(TwoLogins(user))
    ensures Batched(result, user).Some? && Batched(result, user).value.isFrozen
    ensures Single(TwoLogins(user), user).Ok? && Single(TwoLogins(user), user).value.Some?
            && !Single(TwoLogins(user), user).value.value.isFrozen
  {
    var rows := TwoLogins(user).Rows(Table.UserLogins);
    assert CompleteAt(TwoLogins(user), [user], result, user);
    FilterAll(rows, (r: Row) => OfUser(r, user));
  }
}
