/**
 Territory calls as they really run: a read request and a later write request by record
 id, with any number of other calls and other writers of the organisation in between.
 */
module TerritoryInterleaving {
  import opened Collections
  import opened Salesforce
  import opened Access
  import opened Territories
  import opened TerritoryProperties
  import TerritoryEntitlements

  datatype Phase = Waiting | Planned(plan: Plan) | Answered(answer: Answer)

  datatype Process = Process(call: TerritoryCall, phase: Phase)

  /** `used` holds every association id that was ever given out: ids are never reused. */
  datatype System = System(db: Db, used: set<Id>, procs: map<nat, Process>)

  datatype Step =
    | Begin(k: nat, call: TerritoryCall)
    | Reading(k: nat)                                       // the read request and the decision on it
    | Writing(k: nat, choice: Choice)                       // the write request and its answer
    | Losing(k: nat, choice: Choice, applied: bool)         // the write request, with its reply lost
    | Other(write: Write)                                    // a write by anybody else

  predicate New(s: System, t: Table, choice: Choice) {
    choice.id !in s.used && Fresh(s.db, t, choice)
  }

  predicate Enabled(s: System, step: Step) {
    match step
    case Begin(k, call) => k !in s.procs && call.territory != ""
    case Reading(k) => k in s.procs && s.procs[k].phase.Waiting?
    case Writing(k, choice) => k in s.procs && s.procs[k].phase.Planned? && New(s, Associations, choice)
    case Losing(k, choice, _) => k in s.procs && s.procs[k].phase.Planned? && New(s, Associations, choice)
    case Other(write) => Possible(s.db, write) && (write.Creation? ==> write.choice.id !in s.used)
  }

  function ReadPhase(db: Db, call: TerritoryCall): Phase {
    var plan := Decide(call, Find(db, call.principal.id, call.territory));
    if plan.Done? then Answered(plan.answer) else Planned(plan)
  }

  function Do(s: System, step: Step): System
    requires Enabled(s, step)
  {
    match step
    case Begin(k, call) => s.(procs := s.procs[k := Process(call, Waiting)])
    case Reading(k) =>
      s.(procs := s.procs[k := s.procs[k].(phase := ReadPhase(s.db, s.procs[k].call))])
    case Writing(k, choice) =>
      var out := Carry(s.db, s.procs[k].call, s.procs[k].phase.plan, choice);
      System(out.db, s.used + {choice.id}, s.procs[k := s.procs[k].(phase := Answered(out.answer))])
    case Losing(k, choice, applied) =>
      var out := Carry(s.db, s.procs[k].call, s.procs[k].phase.plan, choice);
      System(if applied then out.db else s.db, s.used + {choice.id},
             s.procs[k := s.procs[k].(phase := Answered(Failed(Unreachable)))])
    case Other(write) =>
      System(Written(s.db, write), if write.Creation? then s.used + {write.choice.id} else s.used, s.procs)
  }

  // ---------------------------------------------------------------- the invariant

  /** A plan writes to the pair of its own call, and only what the call asks for. */
  predicate Fits(call: TerritoryCall, plan: Plan) {
    match ParseEntitlementId(call.entitlementId)
    case None => false
    case Some(p) =>
      match plan
      case Done(_) => false
      case Add(fields) =>
        call.GrantCall? &&
        fields == if p == MEMBER then MemberFields(call.principal.id, call.territory)
                  else RoleFields(call.principal.id, call.territory, RoleOf(p))
      case SetRole(_, role) => p != MEMBER && role == if call.GrantCall? then RoleOf(p) else ""
      case Remove(_) => p == MEMBER && call.RevokeCall?
  }

  ghost predicate Targets(s: System, call: TerritoryCall, id: Id) {
    id in s.used && forall r :: r in s.db.Rows(Associations) && r.id == id ==>
                       r.Text(UserId) == call.principal.id && r.Text(Territory2Id) == call.territory
  }

  /** The record a plan names is the record of its pair for as long as it exists. */
  ghost predicate OnTarget(s: System, call: TerritoryCall, plan: Plan) {
    && Fits(call, plan)
    && (plan.SetRole? ==> Targets(s, call, plan.id))
    && (plan.Remove? ==> Targets(s, call, plan.id))
  }

  ghost predicate Inv(s: System) {
    && Valid(s.db)
    && (forall r :: r in s.db.Rows(Associations) ==> r.id in s.used)
    && (forall k :: k in s.procs ==> s.procs[k].call.territory != "")
    && (forall k :: k in s.procs && s.procs[k].phase.Planned? ==> OnTarget(s, s.procs[k].call, s.procs[k].phase.plan))
  }

  ghost predicate Initial(s: System) {
    Valid(s.db) && s.procs == map[] && forall r :: r in s.db.Rows(Associations) ==> r.id in s.used
  }

  /** Associations keep their key fields, and new ones carry ids never used before. */
  ghost predicate Continues(s: System, s': System) {
    && s.used <= s'.used
    && (forall r' :: r' in s'.db.Rows(Associations) ==>
          || (r'.id !in s.used && r'.id in s'.used)
          || (exists r :: r in s.db.Rows(Associations) && r.id == r'.id
                          && r.Text(UserId) == r'.Text(UserId) && r.Text(Territory2Id) == r'.Text(Territory2Id)))
  }

  lemma CreationContinues(s: System, t: Table, fields: map<Field, Value>, choice: Choice, procs: map<nat, Process>)
    requires New(s, t, choice)
    ensures Continues(s, System(Created(s.db, t, fields, choice).db, s.used + {choice.id}, procs))
  {
    CreateCases(s.db, t, fields, choice);
    InsertMembers(s.db.Rows(t), choice.at, Row(choice.id, fields));
  }

  lemma PatchingContinues(s: System, t: Table, id: Id, f: Field, v: Value, used: set<Id>, procs: map<nat, Process>)
    requires !IsKey(t, f) && s.used <= used
    ensures Continues(s, System(Patched(s.db, t, id, f, v).db, used, procs))
  {
    hide Update;
    var after := Patched(s.db, t, id, f, v).db;
    UpdateMembers(s.db.Rows(t), id, f, v);
    forall r' | r' in after.Rows(Associations)
      ensures exists r :: r in s.db.Rows(Associations) && r.id == r'.id
                          && r.Text(UserId) == r'.Text(UserId) && r.Text(Territory2Id) == r'.Text(Territory2Id)
    {
      if !(r' in s.db.Rows(Associations)) {
        assert t == Associations;
        var r :| r in s.db.Rows(t) && r.id == id && r' == r.Set(f, v);
        assert r.id == r'.id && r.Text(UserId) == r'.Text(UserId) && r.Text(Territory2Id) == r'.Text(Territory2Id);
      }
    }
  }

  lemma DeletionContinues(s: System, t: Table, id: Id, used: set<Id>, procs: map<nat, Process>)
    requires s.used <= used
    ensures Continues(s, System(Deleted(s.db, t, id).db, used, procs))
  {
    WithoutMembers(s.db.Rows(t), id);
  }

  lemma CarryContinues(s: System, call: TerritoryCall, plan: Plan, choice: Choice, procs: map<nat, Process>)
    requires Valid(s.db) && New(s, Associations, choice)
    ensures Valid(Carry(s.db, call, plan, choice).db)
    ensures Continues(s, System(Carry(s.db, call, plan, choice).db, s.used + {choice.id}, procs))
  {
    hide Valid, Continues, Created, Patched, Deleted, Fresh, NewGrants;
    match plan
    case Done(_) => SameContinues(s, s.used + {choice.id}, procs);
    case Add(fields) =>
      CreateKeepsValid(s.db, Associations, fields, choice);
      CreationContinues(s, Associations, fields, choice, procs);
    case SetRole(id, role) =>
      PatchKeepsValid(s.db, Associations, id, RoleInTerritory2, Text(role));
      PatchingContinues(s, Associations, id, RoleInTerritory2, Text(role), s.used + {choice.id}, procs);
    case Remove(id) =>
      DeleteKeepsValid(s.db, Associations, id);
      DeletionContinues(s, Associations, id, s.used + {choice.id}, procs);
  }

  lemma SameContinues(s: System, used: set<Id>, procs: map<nat, Process>)
    requires s.used <= used
    ensures Continues(s, System(s.db, used, procs))
  {
  }

  lemma StepContinues(s: System, step: Step)
    requires Valid(s.db) && Enabled(s, step)
    ensures Valid(Do(s, step).db) && Continues(s, Do(s, step))
  {
    hide Valid, Continues, Created, Patched, Deleted, Fresh, Carry, IsKey, OneSided;
    var s' := Do(s, step);
    match step
    case Begin(_, _) => SameContinues(s, s'.used, s'.procs);
    case Reading(_) => SameContinues(s, s'.used, s'.procs);
    case Writing(k, choice) => CarryContinues(s, s.procs[k].call, s.procs[k].phase.plan, choice, s'.procs);
    case Losing(k, choice, _) =>
      CarryContinues(s, s.procs[k].call, s.procs[k].phase.plan, choice, s'.procs);
      SameContinues(s, s'.used, s'.procs);
    case Other(Creation(t, fields, choice)) =>
      CreateKeepsValid(s.db, t, fields, choice);
      CreationContinues(s, t, fields, choice, s'.procs);
    case Other(Patching(t, id, f, v)) =>
      PatchKeepsValid(s.db, t, id, f, v);
      PatchingContinues(s, t, id, f, v, s'.used, s'.procs);
    case Other(Deletion(t, id)) =>
      DeleteKeepsValid(s.db, t, id);
      DeletionContinues(s, t, id, s'.used, s'.procs);
  }

  lemma ReadFits(db: Db, call: TerritoryCall)
    ensures var plan := Decide(call, Find(db, call.principal.id, call.territory));
            && (!plan.Done? ==> Fits(call, plan))
            && (plan.SetRole? || plan.Remove? ==>
                  exists r :: r in db.Rows(Associations) && r.id == plan.id
                              && r.Text(UserId) == call.principal.id && r.Text(Territory2Id) == call.territory)
  {
    FoundRow(db, call.principal.id, call.territory);
  }

  lemma ReadOnTarget(s: System, call: TerritoryCall, plan: Plan)
    requires Inv(s) && plan == Decide(call, Find(s.db, call.principal.id, call.territory)) && !plan.Done?
    ensures OnTarget(s, call, plan)
  {
    hide Decide, Find, Fits, Conflict;
    ReadFits(s.db, call);
    assert UniqueRows(Associations, s.db.Rows(Associations));
  }

  lemma OnTargetContinues(s: System, s': System, call: TerritoryCall, plan: Plan)
    requires OnTarget(s, call, plan) && Continues(s, s')
    ensures OnTarget(s', call, plan)
  {
    hide Fits;
  }

  /** Every step of every interleaving keeps the invariant. */
  lemma StepKeepsInv(s: System, step: Step)
    requires Inv(s) && Enabled(s, step)
    ensures Inv(Do(s, step))
  {
    hide Valid, Decide, Find, OnTarget, Fits, Created, Patched, Deleted, Carry, New, IsKey, OneSided;
    var s' := Do(s, step);
    StepContinues(s, step);
    forall k | k in s'.procs && s'.procs[k].phase.Planned?
      ensures OnTarget(s', s'.procs[k].call, s'.procs[k].phase.plan)
    {
      if step == Reading(k) {
        ReadOnTarget(s, s'.procs[k].call, s'.procs[k].phase.plan);
      } else {
        assert s.procs[k] == s'.procs[k];
      }
      OnTargetContinues(s, s', s'.procs[k].call, s'.procs[k].phase.plan);
    }
  }

  // ---------------------------------------------------------------- what the answers promise

  ghost predicate HasSeat(seat: Seat, permission: string, weak: bool) {
    if permission == MEMBER || weak then seat.Seated? else seat == Seated(RoleOf(permission))
  }

  /**
   The fact an answer promises about the user's place in the territory: after a grant the
   membership and the role, also an empty one; after a revoke no such place.  `weak` leaves
   the role of an "already exists" out.
   */
  ghost predicate Promise(db: Db, call: TerritoryCall, answer: Answer, weak: bool) {
    var seat := SeatOf(db, call);
    match ParseEntitlementId(call.entitlementId)
    case None => answer.Failed?
    case Some(p) =>
      match answer
      case Failed(_) => true
      case Granted(_) => HasSeat(seat, p, false)
      case AlreadyExists => HasSeat(seat, p, weak)
      case _ => if p == MEMBER then seat.Outside? else RoleOf(p) == "" || seat != Seated(RoleOf(p))
  }

  lemma FoundIs(db: Db, r: Row)
    requires Valid(db) && r in db.Rows(Associations)
    ensures Find(db, r.Text(UserId), r.Text(Territory2Id)) == Some(r)
  {
    hide Find;
    FoundRow(db, r.Text(UserId), r.Text(Territory2Id));
    assert UniqueRows(Associations, db.Rows(Associations));
    var found := Find(db, r.Text(UserId), r.Text(Territory2Id));
    assert Conflict(Associations, r, found.value);
  }

  lemma AddedSeat(db: Db, call: TerritoryCall, fields: map<Field, Value>, choice: Choice)
    requires Valid(db) && Fresh(db, Associations, choice) && call.territory != ""
    requires Row(choice.id, fields).Text(UserId) == call.principal.id
    requires Row(choice.id, fields).Text(Territory2Id) == call.territory
    ensures var out := Carry(db, call, Add(fields), choice);
            && (out.answer == AlreadyExists ==> out.db == db && SeatOf(out.db, call).Seated?)
            && (out.answer.Granted? ==> SeatOf(out.db, call) == Seated(Row(choice.id, fields).Text(RoleInTerritory2)))
            && (out.answer.Granted? || out.answer == AlreadyExists)
  {
    hide Valid, View, Find, NewGrants, Conflict;
    var r := Row(choice.id, fields);
    var out := Carry(db, call, Add(fields), choice);
    AddMovesView(db, fields, choice);
    FoundRow(db, call.principal.id, call.territory);
    if out.answer.Granted? {
      CreateCases(db, Associations, fields, choice);
      InsertMembers(db.Rows(Associations), choice.at, r);
      FoundIs(out.db, r);
    }
  }

  lemma PatchedSeat(db: Db, call: TerritoryCall, r: Row, role: string, choice: Choice)
    requires Valid(db) && Fresh(db, Associations, choice) && call.territory != ""
    requires r in db.Rows(Associations) && r.Text(UserId) == call.principal.id && r.Text(Territory2Id) == call.territory
    ensures SeatOf(Carry(db, call, SetRole(r.id, role), choice).db, call) == Seated(role)
  {
    hide Valid, View, Find, Conflict;
    var r' := r.Set(RoleInTerritory2, Text(role));
    PatchKeepsValid(db, Associations, r.id, RoleInTerritory2, Text(role));
    UpdateMembers(db.Rows(Associations), r.id, RoleInTerritory2, Text(role));
    FoundIs(Patched(db, Associations, r.id, RoleInTerritory2, Text(role)).db, r');
  }

  lemma RemovedSeat(db: Db, call: TerritoryCall, r: Row, choice: Choice)
    requires Valid(db) && Fresh(db, Associations, choice) && call.territory != ""
    requires r in db.Rows(Associations) && r.Text(UserId) == call.principal.id && r.Text(Territory2Id) == call.territory
    ensures SeatOf(Carry(db, call, Remove(r.id), choice).db, call) == Outside
  {
    hide Valid, View, Find, Conflict;
    var after := Deleted(db, Associations, r.id).db;
    FoundIs(db, r);
    WithoutMembers(db.Rows(Associations), r.id);
    FoundRow(after, call.principal.id, call.territory);
    var left := Find(after, call.principal.id, call.territory);
    if left.Some? {
      FoundIs(db, left.value);
    }
  }

  /** The seat that a planned write leaves, if the organisation carries it out. */
  lemma CarriedSeat(s: System, call: TerritoryCall, plan: Plan, choice: Choice)
    requires Inv(s) && OnTarget(s, call, plan) && New(s, Associations, choice) && call.territory != ""
    ensures var out := Carry(s.db, call, plan, choice);
            && Valid(out.db)
            && (plan.Add? ==> out.answer.Granted? || out.answer == AlreadyExists)
            && (plan.Add? && out.answer == AlreadyExists ==> out.db == s.db && SeatOf(out.db, call).Seated?)
            && (plan.Add? && out.answer.Granted? ==>
                  SeatOf(out.db, call) == Seated(Row(choice.id, plan.fields).Text(RoleInTerritory2)))
            && (plan.SetRole? && !out.answer.Failed? ==> SeatOf(out.db, call) == Seated(plan.role))
            && (plan.Remove? && !out.answer.Failed? ==> SeatOf(out.db, call) == Outside)
  {
    hide Valid, Inv, SeatOf, Continues, NewGrants;
    assert Valid(s.db) by { InvIsValid(s); }
    CarryContinues(s, call, plan, choice, s.procs);
    match plan
    case Add(fields) => AddedSeat(s.db, call, fields, choice);
    case SetRole(id, role) =>
      if r :| r in s.db.Rows(Associations) && r.id == id {
        PatchedSeat(s.db, call, r, role, choice);
      }
    case Remove(id) =>
      if r :| r in s.db.Rows(Associations) && r.id == id {
        RemovedSeat(s.db, call, r, choice);
      }
    case Done(_) =>
  }

  lemma InvIsValid(s: System)
    requires Inv(s)
    ensures Valid(s.db)
  {
  }

  lemma ReadKeepsPromise(db: Db, call: TerritoryCall)
    requires Valid(db) && call.territory != ""
    ensures ReadPhase(db, call).Answered? ==> Promise(db, call, ReadPhase(db, call).answer, false)
  {
    hide Valid, View, Find, RoleOf;
  }

  lemma WriteKeepsPromise(s: System, call: TerritoryCall, plan: Plan, choice: Choice)
    requires Inv(s) && OnTarget(s, call, plan) && New(s, Associations, choice) && call.territory != ""
    ensures var out := Carry(s.db, call, plan, choice);
            Promise(out.db, call, out.answer, true) && (out.answer == AlreadyExists ==> plan.Add? && out.db == s.db)
  {
    hide Valid, View, Inv, Find, SeatOf, Targets, TerritoryMember, TerritoryRole;
    CarriedSeat(s, call, plan, choice);
  }

  // ---------------------------------------------------------------- whole runs

  ghost predicate IsStep(s: System, s': System) {
    exists step :: Enabled(s, step) && s' == Do(s, step)
  }

  ghost predicate IsRun(b: seq<System>) {
    |b| > 0 && Initial(b[0]) && forall i :: 0 <= i < |b| - 1 ==> IsStep(b[i], b[i + 1])
  }

  lemma {:induction false} RunKeepsInv(b: seq<System>, i: nat)
    requires IsRun(b) && i < |b|
    ensures Inv(b[i])
  {
    if i > 0 {
      RunKeepsInv(b, i - 1);
      var s := b[i - 1];
      assert IsStep(s, b[i - 1 + 1]);
      var step :| Enabled(s, step) && b[i] == Do(s, step);
      StepKeepsInv(s, step);
    }
  }

  /**
   In every reachable state a user has at most one association with a territory, at most
   one role there, and a role only together with the membership.
   */
  lemma ReachableStatesAreSound(b: seq<System>, i: nat, user: Id, territory: Id)
    requires IsRun(b) && i < |b|
    ensures forall r, s :: SamePair(b[i].db, r, s) && r.Text(UserId) == user && r.Text(Territory2Id) == territory
                           ==> r == s
    ensures forall p, q ::
              TerritoryRole(territory, user, p) in View(b[i].db) && TerritoryRole(territory, user, q) in View(b[i].db)
              ==> p == q
    ensures forall p :: TerritoryRole(territory, user, p) in View(b[i].db) ==>
                        p != "" && TerritoryMember(territory, user) in View(b[i].db)
  {
    RunKeepsInv(b, i);
    var db := b[i].db;
    PairsAreUnique(db);
    hide Find, Valid, SeatOf, Inv, IsRun;
    forall p | TerritoryRole(territory, user, p) in View(db)
      ensures p != "" && TerritoryMember(territory, user) in View(db)
              && SeatOf(db, GrantCall(Principal(User, user), territory, "")) == Seated(p)
    {
      assert territory != "" by { ShownTerritory(db, TerritoryRole(territory, user, p)); }
      SeatMembership(db, GrantCall(Principal(User, user), territory, ""), p);
    }
  }

  lemma ShownTerritory(db: Db, g: Access.Grant)
    requires g in View(db) && g.ent.kind == Territory
    ensures g.ent.resource != ""
  {
    var t, r :| r in db.Rows(t) && g in Emit(t, r);
    TerritoryGrantSource(t, r, g);
  }

  /** Two associations of one user with one territory. */
  predicate SamePair(db: Db, r: Row, s: Row) {
    && r in db.Rows(Associations) && s in db.Rows(Associations)
    && r.Text(UserId) == s.Text(UserId) && r.Text(Territory2Id) == s.Text(Territory2Id)
  }

  lemma PairsAreUnique(db: Db)
    requires Valid(db)
    ensures forall r, s :: SamePair(db, r, s) ==> r == s
  {
    assert UniqueRows(Associations, db.Rows(Associations));
    assert forall r, s :: SamePair(db, r, s) ==> Conflict(Associations, r, s);
  }

  /** `i` is an instant between the read of call `k` and the end of that call. */
  predicate Inside(b: seq<System>, k: nat, i: nat) {
    && 0 < i < |b|
    && k in b[i].procs && !b[i].procs[k].phase.Waiting?
    && k in b[i - 1].procs && !b[i - 1].procs[k].phase.Answered?
  }

  /** Call `k` was answered by the server's refusal of a second association. */
  predicate RefusedAsDuplicate(b: seq<System>, k: nat, i: nat) {
    && Inside(b, k, i) && b[i - 1].procs[k].phase.Planned? && b[i - 1].procs[k].phase.plan.Add?
    && b[i].procs[k].phase == Answered(AlreadyExists)
  }

  /**
   Every answer of every interleaved call is true at some instant inside the call; only
   the role of a grant that was refused as a duplicate may be missing, and then the
   membership is there.
   */
  lemma {:induction false} AnswersHoldInside(b: seq<System>, k: nat)
    requires IsRun(b)
    requires k in b[|b| - 1].procs && b[|b| - 1].procs[k].phase.Answered?
    ensures exists i: nat :: Inside(b, k, i)
              && b[i].procs[k] == b[|b| - 1].procs[k]
              && Promise(b[i].db, b[i].procs[k].call, b[i].procs[k].phase.answer, RefusedAsDuplicate(b, k, i))
    decreases |b|
  {
    hide Valid, Promise, Inv, Do, Enabled;
    var n := |b| - 1;
    assert n > 0;
    var s, s' := b[n - 1], b[n];
    assert IsStep(b[n - 1], b[n - 1 + 1]);
    if k in s.procs && s.procs[k].phase.Answered? {
      var shorter := b[..n];
      PrefixIsRun(b, n);
      AnswersHoldInside(shorter, k);
      var i: nat :| Inside(shorter, k, i) && shorter[i].procs[k] == s.procs[k]
        && Promise(shorter[i].db, shorter[i].procs[k].call, shorter[i].procs[k].phase.answer,
                   RefusedAsDuplicate(shorter, k, i));
      assert Inside(b, k, i) && RefusedAsDuplicate(b, k, i) == RefusedAsDuplicate(shorter, k, i);
      AnsweredStays(s, s', k);
    } else {
      RunKeepsInv(b, n - 1);
      FinishKeepsPromise(s, s', k);
      assert Inside(b, k, n);
    }
  }

  /**
   In terms of the view, for the very entitlement that a call names.  If the id is a
   regular one, a grant's answer is true at an instant inside the call, a refused
   duplicate's role excepted; any other id names a grant that no state shows, so that no
   grant's answer is ever true of it.  A revoke's answer is true at an instant for every id.
   */
  lemma NamedAnswersHoldInside(b: seq<System>, k: nat, permission: string)
    requires IsRun(b) && k in b[|b| - 1].procs && b[|b| - 1].procs[k].phase.Answered?
    requires !b[|b| - 1].procs[k].phase.answer.Failed?
    requires ParseEntitlementId(b[|b| - 1].procs[k].call.entitlementId) == Some(permission)
    ensures var call, answer := b[|b| - 1].procs[k].call, b[|b| - 1].procs[k].phase.answer;
            if answer.Granted? || answer == AlreadyExists then
              if Regular(permission) then
                exists i: nat :: Inside(b, k, i)
                  && (Named(call, permission) in View(b[i].db)
                      || (RefusedAsDuplicate(b, k, i)
                          && TerritoryMember(call.territory, call.principal.id) in View(b[i].db)))
              else forall i :: 0 <= i < |b| ==> Named(call, permission) !in View(b[i].db)
            else exists i: nat :: Inside(b, k, i) && Named(call, permission) !in View(b[i].db)
  {
    var call := b[|b| - 1].procs[k].call;
    AnswersHoldInside(b, k);
    var i: nat :| Inside(b, k, i) && b[i].procs[k] == b[|b| - 1].procs[k]
      && Promise(b[i].db, b[i].procs[k].call, b[i].procs[k].phase.answer, RefusedAsDuplicate(b, k, i));
    assert i < |b|;
    NamedTerritory(b, k);
    hide Valid, View, Inv, Do, IsRun, Inside, RefusedAsDuplicate, SeatOf, RoleOf, Regular, Named, TerritoryMember;
    forall j: nat | j < |b| ensures ShownAt(b[j], call, permission) {
      RunKeepsInv(b, j);
      InvIsValid(b[j]);
      NamedInView(b[j].db, call, permission);
      SeatMembership(b[j].db, call, "");
    }
    RegularMeans(permission);
    assert ShownAt(b[i], call, permission);
    forall j | 0 <= j < |b| && !Regular(permission) ensures Named(call, permission) !in View(b[j].db) {
      assert ShownAt(b[j], call, permission);
    }
  }

  /** What a state's view has of a call's place, read off the seat. */
  ghost predicate ShownAt(s: System, call: TerritoryCall, permission: string) {
    && (Named(call, permission) in View(s.db) <==>
          (permission == MEMBER && SeatOf(s.db, call).Seated?)
          || (permission != MEMBER && Regular(permission) && SeatOf(s.db, call) == Seated(RoleOf(permission))))
    && (TerritoryMember(call.territory, call.principal.id) in View(s.db) <==> SeatOf(s.db, call).Seated?)
  }

  lemma NamedTerritory(b: seq<System>, k: nat)
    requires IsRun(b) && k in b[|b| - 1].procs
    ensures b[|b| - 1].procs[k].call.territory != ""
  {
    RunKeepsInv(b, |b| - 1);
  }

  lemma PrefixIsRun(b: seq<System>, n: nat)
    requires IsRun(b) && 0 < n <= |b|
    ensures IsRun(b[..n])
  {
    forall i | 0 <= i < n - 1 ensures IsStep(b[..n][i], b[..n][i + 1]) {
      assert IsStep(b[i], b[i + 1]);
    }
  }

  lemma AnsweredStays(s: System, s': System, k: nat)
    requires IsStep(s, s') && k in s.procs && s.procs[k].phase.Answered?
    ensures k in s'.procs && s'.procs[k] == s.procs[k]
  {
  }

  /** The step that ends a call makes its answer's promise true. */
  lemma FinishKeepsPromise(s: System, s': System, k: nat)
    requires Inv(s) && IsStep(s, s')
    requires k in s'.procs && s'.procs[k].phase.Answered? && !(k in s.procs && s.procs[k].phase.Answered?)
    ensures k in s.procs && s'.procs[k].call == s.procs[k].call
    ensures Promise(s'.db, s.procs[k].call, s'.procs[k].phase.answer,
                    s.procs[k].phase.Planned? && s.procs[k].phase.plan.Add?
                    && s'.procs[k].phase.answer == AlreadyExists)
  {
    var step :| Enabled(s, step) && s' == Do(s, step);
    hide Valid, View, Promise, Carry, OnTarget, Find, Decide;
    var call := s.procs[k].call;
    if step.Reading? {
      ReadKeepsPromise(s.db, call);
    } else if step.Writing? {
      WriteKeepsPromise(s, call, s.procs[k].phase.plan, step.choice);
      if s'.procs[k].phase.answer != AlreadyExists {
        StrengthenPromise(s'.db, call, s'.procs[k].phase.answer);
      }
    } else {
      FailurePromisesNothing(s'.db, call);
    }
  }

  lemma StrengthenPromise(db: Db, call: TerritoryCall, answer: Answer)
    requires Promise(db, call, answer, true) && answer != AlreadyExists
    ensures Promise(db, call, answer, false)
  {
  }

  lemma FailurePromisesNothing(db: Db, call: TerritoryCall)
    ensures forall weak :: Promise(db, call, Failed(Unreachable), weak)
  {
  }

  // ---------------------------------------------------------------- what goes wrong, exactly

  /** A write that follows its read at once is the uninterrupted call. */
  lemma UninterruptedIsRun(s: System, k: nat, choice: Choice)
    requires k in s.procs && s.procs[k].phase.Waiting? && New(s, Associations, choice)
    ensures var mid := Do(s, Reading(k));
            var out := Run(s.db, s.procs[k].call, choice);
            if mid.procs[k].phase.Answered? then mid.db == out.db && mid.procs[k].phase.answer == out.answer
            else var end := Do(mid, Writing(k, choice));
                 end.db == out.db && end.procs[k].phase == Answered(out.answer)
  {
  }

  /**
   The compare-then-clear of a role revoke erases whatever role the association has when
   the write arrives: only the revoked one exactly when nobody changed it in between.
   */
  lemma ClearErasesCurrentRole(s: System, k: nat, choice: Choice)
    requires Inv(s) && k in s.procs && s.procs[k].phase.Planned? && s.procs[k].phase.plan.SetRole?
    requires s.procs[k].call.RevokeCall? && Enabled(s, Writing(k, choice))
    requires Do(s, Writing(k, choice)).procs[k].phase.answer == Revoked
    ensures var call, s' := s.procs[k].call, Do(s, Writing(k, choice));
            var role := RoleOf(ParseEntitlementId(call.entitlementId).value);
            var lost := iset g | g in View(s.db) && g !in View(s'.db);
            && SeatOf(s.db, call).Seated?
            && lost == RoleIn(call.territory, call.principal.id, SeatOf(s.db, call).role)
            && (lost <= iset{TerritoryRole(call.territory, call.principal.id, role)}
                <==> SeatOf(s.db, call).role in {"", role})
  {
    hide Valid, View, Find, Fits;
    var call, plan := s.procs[k].call, s.procs[k].phase.plan;
    assert OnTarget(s, call, plan);
    var r :| r in s.db.Rows(Associations) && r.id == plan.id;
    ClearingPlan(call, plan);
    FoundIs(s.db, r);
    SetRoleMovesView(s.db, r, "");
    NoEmptyRole(call.territory, call.principal.id);
    var role, current := RoleOf(ParseEntitlementId(call.entitlementId).value), r.Text(RoleInTerritory2);
    RoleGrantsDiffer(call.territory, call.principal.id, role, current);
    SeatMembership(s.db, call, current);
    RolesAreNoMember(call.territory, call.principal.id, current);
  }

  lemma ClearingPlan(call: TerritoryCall, plan: Plan)
    requires Fits(call, plan) && plan.SetRole? && call.RevokeCall?
    ensures plan.role == "" && ParseEntitlementId(call.entitlementId).Some?
  {
  }

  /**
   A grant that the server refuses as a duplicate answers "already exists" truly if and
   only if the membership was asked for or the association that came first has the role.
   */
  lemma DuplicateIsTrueIff(s: System, k: nat, choice: Choice)
    requires Inv(s) && k in s.procs && s.procs[k].phase.Planned? && s.procs[k].phase.plan.Add?
    requires Enabled(s, Writing(k, choice)) && Do(s, Writing(k, choice)).procs[k].phase.answer == AlreadyExists
    ensures var call, s' := s.procs[k].call, Do(s, Writing(k, choice));
            ParseEntitlementId(call.entitlementId).Some? && s'.db == s.db
            && var permission := ParseEntitlementId(call.entitlementId).value;
               (Named(call, permission) in View(s'.db) <==>
                  permission == MEMBER
                  || (Regular(permission) && SeatOf(s.db, call) == Seated(RoleOf(permission))))
  {
    hide Valid, View, Carry, SeatOf, RoleOf, Regular, Named;
    var call, plan := s.procs[k].call, s.procs[k].phase.plan;
    assert OnTarget(s, call, plan);
    CarriedSeat(s, call, plan, choice);
    NamedInView(s.db, call, ParseEntitlementId(call.entitlementId).value);
  }

  // ---------------------------------------------------------------- a revoke that is overtaken

  function RoleRevoke(user: Id, territory: Id, role: string): TerritoryCall {
    RevokeCall(Principal(User, user), territory, Entitlement(Territory, territory, ROLE_PREFIX + role).EntitlementId())
  }

  lemma RoleRevokeParses(user: Id, territory: Id, role: string)
    requires ':' !in territory
    ensures var call := RoleRevoke(user, territory, role);
            && call.RevokeCall? && call.principal == Principal(User, user) && call.territory == territory
            && ParseEntitlementId(call.entitlementId) == Some(ROLE_PREFIX + role)
    ensures RoleOf(ROLE_PREFIX + role) == role && ROLE_PREFIX + role != MEMBER
  {
    TerritoryEntitlements.ParseInvertsId(Entitlement(Territory, territory, ROLE_PREFIX + role));
    TerritoryEntitlements.RoleSlugRoundTrip(role);
  }

  /** The states of the run: nothing, begun, read, another writer changes the role, cleared. */
  function Robbed(user: Id, territory: Id, role: string, other: string): seq<System> {
    var call := RoleRevoke(user, territory, role);
    [System(Crowded(user, territory, role), {"a"}, map[]),
     System(Crowded(user, territory, role), {"a"}, map[0 := Process(call, Waiting)]),
     System(Crowded(user, territory, role), {"a"}, map[0 := Process(call, Planned(SetRole("a", "")))]),
     System(Crowded(user, territory, other), {"a"}, map[0 := Process(call, Planned(SetRole("a", "")))]),
     System(Crowded(user, territory, ""), {"a", "b"}, map[0 := Process(call, Answered(Revoked))])]
  }

  lemma CrowdedPatched(user: Id, territory: Id, role: string, other: string)
    ensures Patched(Crowded(user, territory, role), Associations, "a", RoleInTerritory2, Text(other))
            == Reply(Crowded(user, territory, other), Ok(()))
  {
    var r, r' := Row("a", RoleFields(user, territory, role)), Row("a", RoleFields(user, territory, other));
    var db := Crowded(user, territory, role);
    assert db.Rows(Associations) == [r] && r in db.Rows(Associations);
    assert r.Set(RoleInTerritory2, Text(other)).fields == r'.fields;
    assert Update([r], "a", RoleInTerritory2, Text(other)) == [r'];
    assert db.With(Associations, [r']).tables == Crowded(user, territory, other).tables;
  }

  lemma RobbedBegins(user: Id, territory: Id, role: string, other: string)
    requires territory != "" && ':' !in territory && role != ""
    ensures var b := Robbed(user, territory, role, other); IsStep(b[0], b[1]) && IsStep(b[1], b[2])
  {
    var b, call := Robbed(user, territory, role, other), RoleRevoke(user, territory, role);
    RoleRevokeParses(user, territory, role);
    CrowdedFound(user, territory, role);
    hide ParseEntitlementId, RoleOf, RoleRevoke, Crowded, Find;
    assert Enabled(b[0], Begin(0, call)) && Do(b[0], Begin(0, call)) == b[1];
    assert Enabled(b[1], Reading(0)) && Do(b[1], Reading(0)) == b[2];
  }

  lemma RobbedOvertakes(user: Id, territory: Id, role: string, other: string)
    ensures var b := Robbed(user, territory, role, other); IsStep(b[2], b[3])
  {
    var b := Robbed(user, territory, role, other);
    var write := Other(Patching(Associations, "a", RoleInTerritory2, Text(other)));
    CrowdedPatched(user, territory, role, other);
    hide RoleRevoke, Crowded, Patched;
    assert Enabled(b[2], write) && Do(b[2], write) == b[3];
  }

  lemma RobbedEnds(user: Id, territory: Id, role: string, other: string)
    ensures var b := Robbed(user, territory, role, other); IsStep(b[3], b[4])
  {
    var b, second := Robbed(user, territory, role, other), Choice("b", 0);
    CrowdedPatched(user, territory, other, "");
    assert New(b[3], Associations, second) by {
      assert b[3].db.Rows(Associations) == [Row("a", RoleFields(user, territory, other))];
    }
    assert RoleRevoke(user, territory, role).RevokeCall?;
    hide RoleRevoke, Crowded, Patched, New;
    assert Enabled(b[3], Writing(0, second)) && Do(b[3], Writing(0, second)) == b[4];
  }

  /**
   A run in which the revoke of one role is answered "revoked" and erases another: the
   other role's grant is shown until the revoke's write, and gone after it.
   */
  lemma RevokeErasesOtherRole(user: Id, territory: Id, role: string, other: string)
    requires territory != "" && ':' !in territory && role != "" && other != "" && role != other
    ensures var b := Robbed(user, territory, role, other);
            && IsRun(b)
            && b[4].procs[0].call == RoleRevoke(user, territory, role) && b[4].procs[0].phase == Answered(Revoked)
            && SeatOf(b[3].db, b[3].procs[0].call) == Seated(other)
            && TerritoryRole(territory, user, other) in View(b[3].db)
            && TerritoryRole(territory, user, other) !in View(b[4].db)
  {
    var b := Robbed(user, territory, role, other);
    RoleRevokeParses(user, territory, role);
    RobbedBegins(user, territory, role, other);
    RobbedOvertakes(user, territory, role, other);
    RobbedEnds(user, territory, role, other);
    CrowdedFound(user, territory, role);
    CrowdedFound(user, territory, other);
    CrowdedShows(user, territory, other, other);
    CrowdedShows(user, territory, "", other);
    assert b[0].db.Rows(Associations) == [Row("a", RoleFields(user, territory, role))];
    hide Valid, View, IsStep, TerritoryRole, RoleRevoke, Crowded, Find;
    forall i | 0 <= i < |b| - 1 ensures IsStep(b[i], b[i + 1]) {
      assert i == 0 || i == 1 || i == 2 || i == 3;
    }
  }

  // ---------------------------------------------------------------- the weaker promise is needed

  function RoleCall(user: Id, territory: Id, role: string): TerritoryCall {
    GrantCall(Principal(User, user), territory, Entitlement(Territory, territory, ROLE_PREFIX + role).EntitlementId())
  }

  lemma RoleCallParses(user: Id, territory: Id, role: string)
    requires ':' !in territory
    ensures ParseEntitlementId(RoleCall(user, territory, role).entitlementId) == Some(ROLE_PREFIX + role)
    ensures RoleOf(ROLE_PREFIX + role) == role && ROLE_PREFIX + role != MEMBER
  {
    TerritoryEntitlements.ParseInvertsId(Entitlement(Territory, territory, ROLE_PREFIX + role));
    TerritoryEntitlements.RoleSlugRoundTrip(role);
  }

  /** The states of the run: nothing, begun, read, overtaken by another writer, refused. */
  function Overtaken(user: Id, territory: Id, role: string, other: string): seq<System> {
    var call := RoleCall(user, territory, role);
    [System(Db(map[]), {}, map[]),
     System(Db(map[]), {}, map[0 := Process(call, Waiting)]),
     System(Db(map[]), {}, map[0 := Process(call, Planned(Add(RoleFields(user, territory, role))))]),
     System(Crowded(user, territory, other), {"a"},
            map[0 := Process(call, Planned(Add(RoleFields(user, territory, role))))]),
     System(Crowded(user, territory, other), {"a", "b"}, map[0 := Process(call, Answered(AlreadyExists))])]
  }

  lemma OvertakenBegins(user: Id, territory: Id, role: string, other: string)
    requires territory != "" && ':' !in territory
    ensures var b := Overtaken(user, territory, role, other); IsStep(b[0], b[1]) && IsStep(b[1], b[2])
  {
    hide ParseEntitlementId, RoleOf, RoleCall;
    var b, call := Overtaken(user, territory, role, other), RoleCall(user, territory, role);
    RoleCallParses(user, territory, role);
    assert call.GrantCall? && call.principal == Principal(User, user) && call.territory == territory by {
      RoleCallFields(user, territory, role);
    }
    assert Enabled(b[0], Begin(0, call)) && Do(b[0], Begin(0, call)) == b[1];
    assert Find(b[1].db, user, territory) == None;
    assert Enabled(b[1], Reading(0)) && Do(b[1], Reading(0)) == b[2];
  }

  lemma RoleCallFields(user: Id, territory: Id, role: string)
    ensures var call := RoleCall(user, territory, role);
            call.GrantCall? && call.principal == Principal(User, user) && call.territory == territory
  {
  }

  lemma OvertakenOvertakes(user: Id, territory: Id, role: string, other: string)
    ensures var b := Overtaken(user, territory, role, other); IsStep(b[2], b[3])
  {
    hide ParseEntitlementId, RoleOf, RoleCall, RoleFields;
    var b := Overtaken(user, territory, role, other);
    var fields, first := RoleFields(user, territory, other), Choice("a", 0);
    var write := Other(Creation(Associations, fields, first));
    CreateCases(b[2].db, Associations, fields, first);
    assert b[2].db.Rows(Associations) == [];
    assert Insert([], 0, Row("a", fields)) == [Row("a", fields)];
    assert Created(b[2].db, Associations, fields, first).db.tables == b[3].db.tables;
    assert Enabled(b[2], write) && Do(b[2], write) == b[3];
  }

  lemma OvertakenIsRefused(user: Id, territory: Id, role: string, other: string)
    ensures var b := Overtaken(user, territory, role, other); IsStep(b[3], b[4])
  {
    hide ParseEntitlementId, RoleOf, RoleCall;
    var b := Overtaken(user, territory, role, other);
    var fields, second := RoleFields(user, territory, role), Choice("b", 0);
    CreateCases(b[3].db, Associations, fields, second);
    var r := Row("a", RoleFields(user, territory, other));
    assert r in b[3].db.Rows(Associations) && Conflict(Associations, Row("b", fields), r);
    assert New(b[3], Associations, second) by { assert b[3].db.Rows(Associations) == [r]; }
    hide Created, Crowded, New, RoleFields, Conflict;
    assert Enabled(b[3], Writing(0, second)) && Do(b[3], Writing(0, second)) == b[4];
  }

  /**
   A run in which a role grant answers "already exists" although the user has that role
   in none of its states, because another writer's association came first.
   */
  lemma DuplicateHidesMissingRole(user: Id, territory: Id, role: string, other: string)
    requires territory != "" && ':' !in territory && role != other
    ensures var b := Overtaken(user, territory, role, other);
            && IsRun(b)
            && b[4].procs[0].call == RoleCall(user, territory, role)
            && b[4].procs[0].phase == Answered(AlreadyExists)
            && forall i :: 0 <= i < |b| ==> TerritoryRole(territory, user, role) !in View(b[i].db)
  {
    hide Valid, View, IsStep, RoleFields, TerritoryRole, RoleCall, Emit, Inv;
    var b := Overtaken(user, territory, role, other);
    OvertakenBegins(user, territory, role, other);
    OvertakenOvertakes(user, territory, role, other);
    OvertakenIsRefused(user, territory, role, other);
    assert Valid(Db(map[])) by { EmptyIsValid(); }
    forall i | 0 <= i < |b| - 1 ensures IsStep(b[i], b[i + 1]) {
      assert i == 0 || i == 1 || i == 2 || i == 3;
    }
    assert TerritoryRole(territory, user, role) !in View(Db(map[])) by { EmptyShowsNothing(); }
    assert TerritoryRole(territory, user, role) !in View(Crowded(user, territory, other)) by {
      CrowdedShows(user, territory, other, role);
    }
  }

  lemma EmptyIsValid()
    ensures Valid(Db(map[]))
  {
  }

  lemma EmptyShowsNothing()
    ensures View(Db(map[])) == iset{}
  {
  }
}
