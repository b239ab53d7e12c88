/**
 Account creation one request at a time: any number of runs, writes by anybody else, the
 passing of time and the expiry of cached answers fall between the requests of a run.
 */
module AccountInterleaving {
  import opened Collections
  import opened Salesforce
  import opened UserSync
  import opened AccountLookup
  import opened AccountCreation
  import Histories = AccountProperties
  import UserFields
  import UserLogins

  datatype Phase =
    | Looking                                      // UserExist
    | Finding                                      // GetUserByEmail, after a user was found
    | Activating(user: Id)
    | Creating
    | Clearing(attempt: nat, notBefore: nat)       // the retry loop clears the caches
    | Reading(attempt: nat)                        // and reads
    | Mailing(found: SalesforceUser)
    | Reporting(found: SalesforceUser)             // the mail is out, the login record is read
    | Ended(result: Result<UserResource>)

  datatype Process = Process(request: Request, wellFormed: bool, usernameForEmail: bool, phase: Phase, mailed: seq<Id>)

  datatype System = System(world: World, procs: map<nat, Process>)

  datatype Step =
    | Begin(k: nat, request: Request, wellFormed: bool, usernameForEmail: bool)
    | Advance(k: nat, page: seq<Row>, arrival: Arrival)    // the next request of a run, answered
    | Lose(k: nat, arrival: Arrival, applied: bool)        // the next request of a run, lost
    | Elsewhere(write: Write)
    | Pass(time: nat)
    | Expire(email: string)

  predicate Reads(phase: Phase) {
    phase.Looking? || phase.Finding? || phase.Reading?
  }

  ghost predicate Enabled(s: System, step: Step) {
    match step
    case Begin(k, _, _, _) => k !in s.procs
    case Advance(k, page, arrival) =>
      && k in s.procs && !s.procs[k].phase.Ended? && Fresh(s.world.db, Users, arrival.choice)
      && (Reads(s.procs[k].phase) ==> MayAnswer(s.world, s.procs[k].request.email, page))
      && (s.procs[k].phase.Clearing? ==> s.procs[k].phase.notBefore <= s.world.clock)
    case Lose(k, arrival, _) => k in s.procs && !s.procs[k].phase.Ended? && Fresh(s.world.db, Users, arrival.choice)
    case Elsewhere(write) => Possible(s.world.db, write)
    case _ => true
  }

  /** The world after the next request of a run. */
  function Effect(w: World, p: Process, page: seq<Row>, arrival: Arrival): World
    requires Fresh(w.db, Users, arrival.choice)
  {
    match p.phase
    case Activating(user) => w.(db := UserFields.SetReply(w.db, user, IsActive, "true").db)
    case Creating => w.(db := CreateReply(w.db, p.request, p.wellFormed, arrival).db)
    case Clearing(_, _) => w.(cached := map[])
    case Mailing(found) => w.(mailed := w.mailed + [found.id])
    case _ => if Reads(p.phase) then Remembered(w, p.request.email, page) else w
  }

  /** What the run does with the answer. */
  function NextPhase(w: World, p: Process, page: seq<Row>, arrival: Arrival): Phase
    requires Fresh(w.db, Users, arrival.choice)
  {
    match p.phase
    case Looking =>
      (match Existence(Lookup(page))
       case Err(e) => Ended(Err(e))
       case Ok(exist) => if exist then Finding else Creating)
    case Finding =>
      (match Lookup(page)
       case Err(e) => Ended(Err(e))
       case Ok(user) => if user.isActive then Clearing(0, w.clock) else Activating(user.id))
    case Activating(user) =>
      (match UserFields.SetReply(w.db, user, IsActive, "true").result
       case Err(e) => Ended(Err(e))
       case Ok(_) => Clearing(0, w.clock))
    case Creating =>
      (match CreateReply(w.db, p.request, p.wellFormed, arrival).result
       case Err(e) => Ended(Err(e))
       case Ok(_) => Clearing(0, w.clock))
    case Clearing(attempt, _) => Reading(attempt)
    case Reading(attempt) =>
      (match Lookup(page)
       case Ok(user) => Mailing(user)
       case Err(e) =>
         if e != UserNotFound then Ended(Err(e))
         else if attempt + 1 < MAX_RETRIES then Clearing(attempt + 1, w.clock + attempt + 1)
         else Ended(Err(RetriesExhausted)))
    case Mailing(found) => Reporting(found)
    case Reporting(found) =>
      (match UserLogins.Single(w.db, found.id)
       case Err(e) => Ended(Err(e))
       case Ok(login) => Ended(Ok(ResourceOf(found, login.Some? && login.value.isFrozen, p.usernameForEmail))))
    case Ended(result) => Ended(result)
  }

  function Mailed(p: Process): seq<Id> {
    if p.phase.Mailing? then p.mailed + [p.phase.found.id] else p.mailed
  }

  ghost function Do(s: System, step: Step): System
    requires Enabled(s, step)
  {
    match step
    case Begin(k, request, wellFormed, usernameForEmail) =>
      s.(procs := s.procs[k := Process(request, wellFormed, usernameForEmail, Looking, [])])
    case Advance(k, page, arrival) =>
      var p := s.procs[k];
      System(Effect(s.world, p, page, arrival),
             s.procs[k := p.(phase := NextPhase(s.world, p, page, arrival), mailed := Mailed(p))])
    case Lose(k, arrival, applied) =>
      var p := s.procs[k];
      System(if applied && !Reads(p.phase) then Effect(s.world, p, [], arrival) else s.world,
             s.procs[k := p.(phase := Ended(Err(Unreachable)), mailed := if applied then Mailed(p) else p.mailed)])
    case Elsewhere(write) => s.(world := s.world.(db := Written(s.world.db, write)))
    case Pass(time) => s.(world := s.world.(clock := s.world.clock + time))
    case Expire(email) => s.(world := s.world.(cached := s.world.cached - {email}))
  }

  ghost predicate History(b: seq<System>, steps: seq<Step>) {
    && |b| == |steps| + 1 && b[0].procs == map[]
    && forall i :: 0 <= i < |steps| ==> Enabled(b[i], steps[i]) && b[i + 1] == Do(b[i], steps[i])
  }

  // ---------------------------------------------------------------- at most one user

  predicate Removes(step: Step) {
    step.Elsewhere? && Histories.Removes(step.write)
  }

  ghost predicate CreatedByRun(db: Db, after: Db) {
    exists request: Request, wellFormed: bool, arrival: Arrival ::
      Fresh(db, Users, arrival.choice) && after == CreateReply(db, request, wellFormed, arrival).db
  }

  /** The users after a step: as they were, or after one activation, creation, or write by anybody else. */
  lemma StepWrites(s: System, step: Step)
    requires Enabled(s, step)
    ensures var db, after := s.world.db, Do(s, step).world.db;
            || after == db
            || (exists user :: after == UserFields.SetReply(db, user, IsActive, "true").db)
            || CreatedByRun(db, after)
            || (step.Elsewhere? && after == Written(db, step.write))
  {
    hide UserFields.SetReply, CreateReply, Written, Lookup, MayAnswer;
  }

  lemma StepNeverTwice(s: System, step: Step, name: string)
    requires Enabled(s, step) && name != ""
    ensures !Removes(step) ==> Histories.NeverTwice(s.world.db, Do(s, step).world.db, name)
    ensures |Histories.NamedIds(Do(s, step).world.db.Rows(Users), name)|
            <= Histories.AtLeastOne(|Histories.NamedIds(s.world.db.Rows(Users), name)|)
  {
    var db, after := s.world.db, Do(s, step).world.db;
    StepWrites(s, step);
    assert step.Elsewhere? ==> Possible(db, step.write);
    hide UserFields.SetReply, CreateReply, Written, Possible, Do, Enabled, Histories.NamedIds, Histories.Removes;
    Histories.SameNeverTwice(db, name);
    if user :| after == UserFields.SetReply(db, user, IsActive, "true").db {
      Histories.ActivationNeverTwice(db, user, name);
    } else if CreatedByRun(db, after) {
      var request, wellFormed, arrival: Arrival :|
        Fresh(db, Users, arrival.choice) && after == CreateReply(db, request, wellFormed, arrival).db;
      Histories.CreationNeverTwice(db, request, wellFormed, arrival, name);
    } else if step.Elsewhere? && after == Written(db, step.write) {
      if Histories.Removes(step.write) {
        Histories.RemovalDwindles(db, step.write, name);
      } else {
        Histories.WriteNeverTwice(db, step.write, name);
      }
    }
  }

  /**
   Whatever falls between the requests of any number of runs, also of runs for the same
   email: at most one user has a name, and unless users are deleted whoever has it keeps it
   alone.
   */
  lemma {:induction false} AtMostOneUserCreated(b: seq<System>, steps: seq<Step>, name: string)
    requires History(b, steps) && name != ""
    ensures |Histories.NamedIds(b[|steps|].world.db.Rows(Users), name)|
            <= Histories.AtLeastOne(|Histories.NamedIds(b[0].world.db.Rows(Users), name)|)
    ensures (forall step :: step in steps ==> !Removes(step)) ==>
              Histories.NeverTwice(b[0].world.db, b[|steps|].world.db, name)
    decreases |steps|
  {
    hide Enabled, Do, Removes, Histories.NamedIds;
    if steps != [] {
      var n := |steps| - 1;
      AtMostOneUserCreated(b[..n + 1], steps[..n], name);
      StepNeverTwice(b[n], steps[n], name);
      assert steps[n] in steps && forall step :: step in steps[..n] ==> step in steps;
    }
  }

  // ---------------------------------------------------------------- mails

  /** Who has been mailed at a phase: nobody before the mail, and after it the user it reports. */
  ghost predicate MailsFit(p: Process) {
    match p.phase
    case Reporting(found) => p.mailed == [found.id]
    case Ended(result) => if result.Ok? then p.mailed == [result.value.id] else |p.mailed| <= 1
    case _ => p.mailed == []
  }

  lemma StepKeepsMails(s: System, step: Step)
    requires Enabled(s, step) && forall k :: k in s.procs ==> MailsFit(s.procs[k])
    ensures forall k :: k in Do(s, step).procs ==> MailsFit(Do(s, step).procs[k])
  {
    hide UserFields.SetReply, CreateReply, Written, Possible, Lookup, MayAnswer, Effect, UserLogins.Single;
  }

  /** In every reachable state a run has sent at most one mail, and a success exactly one, to the user it returns. */
  lemma {:induction false} MailGoesToReturnedUser(b: seq<System>, steps: seq<Step>, n: nat, k: nat)
    requires History(b, steps) && n < |b| && k in b[n].procs
    ensures MailsFit(b[n].procs[k])
  {
    hide Enabled, Do;
    AllMailsFit(b, steps, n);
  }

  lemma {:induction false} AllMailsFit(b: seq<System>, steps: seq<Step>, n: nat)
    requires History(b, steps) && n < |b|
    ensures forall k :: k in b[n].procs ==> MailsFit(b[n].procs[k])
  {
    hide Enabled, Do, MailsFit;
    if n > 0 {
      AllMailsFit(b, steps, n - 1);
      StepKeepsMails(b[n - 1], steps[n - 1]);
    }
  }

  // ---------------------------------------------------------------- the returned user

  /** From instant `i` on up to `n`, run `k` has stood before the read of one attempt. */
  ghost predicate ReadingSince(b: seq<System>, k: nat, i: nat, n: nat) {
    i <= n < |b| && forall j :: i <= j <= n ==> k in b[j].procs && b[j].procs[k].phase.Reading?
  }

  /** The page is the index's answer at an instant since run `k` cleared the caches. */
  ghost predicate Recent(b: seq<System>, k: nat, n: nat, email: string, page: seq<Row>) {
    exists i: nat :: ReadingSince(b, k, i, n) && page == FirstPage(b[i].world, email, b[i].world.clock)
  }

  lemma RecentStays(b: seq<System>, k: nat, n: nat, email: string, page: seq<Row>)
    requires n + 1 < |b| && Recent(b, k, n, email, page)
    requires k in b[n + 1].procs && b[n + 1].procs[k].phase.Reading?
    ensures Recent(b, k, n + 1, email, page)
  {
    var i: nat :| ReadingSince(b, k, i, n) && page == FirstPage(b[i].world, email, b[i].world.clock);
    assert ReadingSince(b, k, i, n + 1);
  }

  /** A step that leaves a run before its read, and what it may put into the cache. */
  lemma StepCaches(s: System, step: Step, k: nat, email: string)
    requires Enabled(s, step) && k in Do(s, step).procs && Do(s, step).procs[k].phase.Reading?
    requires email in Do(s, step).world.cached
    ensures k in s.procs && s.procs[k].phase.Reading?
    ensures MayAnswer(s.world, email, Do(s, step).world.cached[email])
         || (email in s.world.cached && Do(s, step).world.cached[email] == s.world.cached[email])
  {
    hide UserFields.SetReply, CreateReply, Written, Possible, Lookup, FirstPage, UserLogins.Single;
  }

  /** While a run stands before its read, the cache holds recent answers only. */
  lemma {:induction false} CacheIsRecent(b: seq<System>, steps: seq<Step>, n: nat, k: nat, email: string)
    requires History(b, steps) && n < |b|
    requires k in b[n].procs && b[n].procs[k].phase.Reading? && email in b[n].world.cached
    ensures Recent(b, k, n, email, b[n].world.cached[email])
  {
    hide Enabled, Do, FirstPage;
    assert n > 0;
    StepCaches(b[n - 1], steps[n - 1], k, email);
    if email in b[n - 1].world.cached && b[n].world.cached[email] == b[n - 1].world.cached[email] {
      CacheIsRecent(b, steps, n - 1, k, email);
    } else {
      assert ReadingSince(b, k, n - 1, n - 1);
    }
    RecentStays(b, k, n - 1, email, b[n].world.cached[email]);
  }

  lemma AnswerIsRecent(b: seq<System>, steps: seq<Step>, n: nat, k: nat, page: seq<Row>)
    requires History(b, steps) && n < |b| && k in b[n].procs && b[n].procs[k].phase.Reading?
    requires MayAnswer(b[n].world, b[n].procs[k].request.email, page)
    ensures Recent(b, k, n, b[n].procs[k].request.email, page)
  {
    hide History, FirstPage;
    var email := b[n].procs[k].request.email;
    if page == FirstPage(b[n].world, email, b[n].world.clock) {
      assert ReadingSince(b, k, n, n);
    } else {
      CacheIsRecent(b, steps, n, k, email);
    }
  }

  /** The id of the user that a run has settled on. */
  function Settled(phase: Phase): Option<Id> {
    match phase
    case Mailing(found) => Some(found.id)
    case Reporting(found) => Some(found.id)
    case Ended(Ok(resource)) => Some(resource.id)
    case _ => None
  }

  /** How a run comes to settle on a user. */
  lemma StepSettles(s: System, step: Step, k: nat)
    requires Enabled(s, step) && k in Do(s, step).procs && Settled(Do(s, step).procs[k].phase).Some?
    ensures k in s.procs && s.procs[k].request == Do(s, step).procs[k].request
    ensures Settled(s.procs[k].phase) == Settled(Do(s, step).procs[k].phase)
         || (s.procs[k].phase.Reading? && step.Advance? && step.k == k
             && MayAnswer(s.world, s.procs[k].request.email, step.page)
             && Lookup(step.page).Ok? && Settled(Do(s, step).procs[k].phase) == Some(Lookup(step.page).value.id))
  {
    hide UserFields.SetReply, CreateReply, Written, Possible, Lookup, MayAnswer, Effect, UserLogins.Single;
  }

  /**
   The user that a run returns and mails was there at an instant inside the attempt that
   found it, after the run's own clearing of the caches: the first typed, readable user of
   the requested email that the index returned.  No other run's cached answer can make it older.
   */
  lemma {:induction false} ReturnedUserWasThere(b: seq<System>, steps: seq<Step>, n: nat, k: nat)
    requires History(b, steps) && n < |b| && k in b[n].procs && Settled(b[n].procs[k].phase).Some?
    ensures exists i: nat, r, p: nat :: i < n && k in b[i].procs && b[i].procs[k].phase.Reading?
              && Findable(b[i].world, b[n].procs[k].request.email, b[i].world.clock, r) && Kept(ANY_USER, r)
              && IsFirstFindable(b[i].world, b[n].procs[k].request.email, b[i].world.clock, r, p)
              && Settled(b[n].procs[k].phase) == Some(r.id)
  {
    assert n > 0;
    var s, step := b[n - 1], steps[n - 1];
    StepSettles(s, step, k);
    hide Enabled, Do, FirstPage, Lookup, Findable, IsFirstFindable, Kept;
    var email := s.procs[k].request.email;
    if Settled(s.procs[k].phase) == Settled(b[n].procs[k].phase) {
      ReturnedUserWasThere(b, steps, n - 1, k);
      var i: nat, r, p: nat :| i < n - 1 && k in b[i].procs && b[i].procs[k].phase.Reading?
        && Findable(b[i].world, email, b[i].world.clock, r) && Kept(ANY_USER, r)
        && IsFirstFindable(b[i].world, email, b[i].world.clock, r, p)
        && Settled(s.procs[k].phase) == Some(r.id);
      assert i < n;
    } else {
      AnswerIsRecent(b, steps, n - 1, k, step.page);
      var i: nat :| ReadingSince(b, k, i, n - 1) && step.page == FirstPage(b[i].world, email, b[i].world.clock);
      var r, p := LookupAnswer(b[i].world, email, b[i].world.clock);
      Histories.IdOfUser(r);
    }
  }

  // ---------------------------------------------------------------- the uninterrupted run

  /** The requests before the retry loop, one after the other. */
  function FirstStage(w: World, p: Process, first: seq<Row>, second: seq<Row>, arrival: Arrival): (World, Phase)
    requires Fresh(w.db, Users, arrival.choice) && p.phase == Looking
  {
    var w1, p1 := Effect(w, p, first, arrival), p.(phase := NextPhase(w, p, first, arrival));
    if p1.phase.Ended? then (w1, p1.phase)
    else
      var w2, p2 := Effect(w1, p1, second, arrival), p1.(phase := NextPhase(w1, p1, second, arrival));
      if p2.phase.Activating? then (Effect(w2, p2, [], arrival), NextPhase(w2, p2, [], arrival)) else (w2, p2.phase)
  }

  /** Uninterrupted, they do what the first stage of a sequential run does. */
  lemma FirstStageIsPrepared(w: World, p: Process, first: seq<Row>, second: seq<Row>, arrival: Arrival)
    requires Fresh(w.db, Users, arrival.choice) && p.phase == Looking
    ensures var reply := Prepared(w.db, first, second, p.request, p.wellFormed, arrival);
            var (after, phase) := FirstStage(w, p, first, second, arrival);
            && after.db == reply.db && after.clock == w.clock
            && phase == if reply.result.Ok? then Clearing(0, w.clock) else Ended(Err(reply.result.error))
  {
    hide Lookup, UserFields.SetReply, CreateReply, Fresh;
  }

  /** The attempts of the retry loop from one on, with no more time passing than they wait. */
  function Attempts(w: World, p: Process, arrival: Arrival): Phase
    requires Fresh(w.db, Users, arrival.choice) && p.phase.Clearing? && p.phase.attempt < MAX_RETRIES
    decreases MAX_RETRIES - p.phase.attempt
  {
    var start := w.(clock := p.phase.notBefore);
    var cleared, reading := Effect(start, p, [], arrival), p.(phase := NextPhase(start, p, [], arrival));
    var page := FirstPage(cleared, p.request.email, cleared.clock);
    var next := NextPhase(cleared, reading, page, arrival);
    if next.Clearing? then Attempts(Effect(cleared, reading, page, arrival), p.(phase := next), arrival) else next
  }

  /** Uninterrupted, they are the sequential retry loop. */
  lemma {:induction false} AttemptsAreRetried(w: World, p: Process, arrival: Arrival, start: World)
    requires Fresh(w.db, Users, arrival.choice) && p.phase.Clearing? && p.phase.attempt < MAX_RETRIES
    requires w == start.(clock := w.clock, cached := w.cached)
    requires p.phase.notBefore == start.clock + Elapsed(p.phase.attempt)
    ensures Attempts(w, p, arrival) == match Retried(start, p.request.email, p.phase.attempt)
                                       case Ok(user) => Mailing(user)
                                       case Err(e) => Ended(Err(e))
    decreases MAX_RETRIES - p.phase.attempt
  {
    hide Lookup, FirstPage, Retried, Elapsed, Fresh;
    var attempt := p.phase.attempt;
    RetriedStep(start, p.request.email, attempt);
    ElapsedStep(attempt);
    var begin := w.(clock := p.phase.notBefore);
    var cleared := Effect(begin, p, [], arrival);
    SameIndex(start, cleared, p.request.email);
    var page := FirstPage(cleared, p.request.email, cleared.clock);
    var reading := p.(phase := Reading(attempt));
    var next := NextPhase(cleared, reading, page, arrival);
    if next.Clearing? {
      AttemptsAreRetried(Effect(cleared, reading, page, arrival), p.(phase := next), arrival, start);
    }
  }

  /** Uninterrupted, the mail and the login read that follow are the sequential second stage. */
  lemma ReportingIsConcluded(w: World, p: Process, arrival: Arrival)
    requires Fresh(w.db, Users, arrival.choice) && p.phase.Mailing?
    requires Retried(w, p.request.email, 0) == Ok(p.phase.found)
    ensures var mailed, reporting := Effect(w, p, [], arrival), p.(phase := NextPhase(w, p, [], arrival));
            && mailed == w.(mailed := w.mailed + MailTo(w, p.request.email))
            && NextPhase(mailed, reporting, [], arrival) == Ended(Concluded(w, p.request.email, p.usernameForEmail))
            && Effect(mailed, reporting, [], arrival) == mailed
  {
    hide Retried, UserLogins.Single, ResourceOf;
  }
}
