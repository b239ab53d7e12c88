/**
 Provisioning against the sync: after any run of grant and revoke calls over all six
 kinds of resource, what a full sync emits is what folding the calls' abstract effects
 over the first sync gives.
 */
module Provisioning {
  import opened Collections
  import opened Salesforce
  import opened Access
  import opened Paging
  import SyncViews
  import Links
  import UserFields
  import Groups
  import PermissionSets
  import PermissionSetGroups
  import Profiles
  import Roles
  import Territories
  import TerritoryProperties

  datatype Call =
    | Provision(kind: ResourceType, grant: bool, principal: Principal, resource: Id, entitlementId: string)
    | Activation(user: Id, active: bool)

  /** The table a call may create a row in. */
  function CreatesIn(call: Call): Table {
    if call.Activation? then Users
    else match call.kind
         case Group => GroupMembers
         case PermissionSet => Assignments
         case PermissionSetGroup => Assignments
         case Territory => Associations
         case _ => Users
  }

  function TerritoryCallOf(call: Call): Territories.TerritoryCall
    requires call.Provision?
  {
    if call.grant then Territories.GrantCall(call.principal, call.resource, call.entitlementId)
    else Territories.RevokeCall(call.principal, call.resource, call.entitlementId)
  }

  /** Users cannot be granted or revoked: there is no builder for them. */
  predicate WellFormed(call: Call) {
    call.Provision? ==> call.kind != User && call.resource != ""
  }

  /** What the organisation makes of a call of the matching builder. */
  function Apply(db: Db, mapping: map<string, string>, call: Call, choice: Choice): Outcome
    requires WellFormed(call) && Fresh(db, CreatesIn(call), choice)
  {
    match call
    case Activation(user, active) =>
      var reply := UserFields.SetReply(db, user, IsActive, if active then "true" else "false");
      Outcome(reply.db, if reply.result.Ok? then Granted([]) else Failed(reply.result.error))
    case Provision(kind, grant, principal, resource, _) =>
      match kind
      case Group =>
        if grant then Groups.GrantOutcome(db, principal, resource, choice)
        else Groups.RevokeOutcome(db, principal, resource)
      case PermissionSet =>
        if grant then PermissionSets.GrantOutcome(db, principal, resource, choice)
        else PermissionSets.RevokeOutcome(db, principal, resource)
      case PermissionSetGroup =>
        if grant then PermissionSetGroups.GrantOutcome(db, principal, resource, choice)
        else PermissionSetGroups.RevokeOutcome(db, principal, resource)
      case Profile =>
        if grant then Profiles.GrantOutcome(db, principal, resource)
        else Profiles.RevokeOutcome(db, mapping, principal, resource)
      case UserRole =>
        if grant then Roles.GrantOutcome(db, principal, resource)
        else Roles.RevokeOutcome(db, principal, resource)
      case Territory => Territories.Run(db, TerritoryCallOf(call), choice)
  }

  /** The builder's method for a call, and the deactivation behind the deletion of a user. */
  method Perform(org: Org, mapping: map<string, string>, call: Call, choice: Choice) returns (answer: Answer)
    requires WellFormed(call) && Fresh(org.db, CreatesIn(call), choice)
    modifies org
    ensures Settled(old(org.db), org.db, answer, Apply(old(org.db), mapping, call, choice))
  {
    match call {
      case Activation(user, active) =>
        var set' := UserFields.SetValue(org, user, IsActive, if active then "true" else "false");
        answer := if set'.Ok? then Granted([]) else Failed(set'.error);
      case Provision(kind, grant, principal, resource, entitlementId) =>
        answer := Provide(org, mapping, kind, grant, principal, resource, entitlementId, choice);
    }
  }

  method Provide(org: Org, mapping: map<string, string>, kind: ResourceType, grant: bool,
                 principal: Principal, resource: Id, entitlementId: string, choice: Choice)
    returns (answer: Answer)
    requires WellFormed(Provision(kind, grant, principal, resource, entitlementId))
    requires Fresh(org.db, CreatesIn(Provision(kind, grant, principal, resource, entitlementId)), choice)
    modifies org
    ensures Settled(old(org.db), org.db, answer,
                    Apply(old(org.db), mapping, Provision(kind, grant, principal, resource, entitlementId), choice))
  {
    hide Groups.GrantOutcome, Groups.RevokeOutcome, PermissionSets.GrantOutcome, PermissionSets.RevokeOutcome,
         PermissionSetGroups.GrantOutcome, PermissionSetGroups.RevokeOutcome, Profiles.GrantOutcome,
         Profiles.RevokeOutcome, Roles.GrantOutcome, Roles.RevokeOutcome, Territories.Run, Fresh;
    match kind {
      case Group =>
        if grant {
          answer := Groups.Grant(org, principal, resource, choice);
        } else {
          answer := Groups.Revoke(org, principal, resource);
        }
      case PermissionSet =>
        if grant {
          answer := PermissionSets.Grant(org, principal, resource, choice);
        } else {
          answer := PermissionSets.Revoke(org, principal, resource);
        }
      case PermissionSetGroup =>
        if grant {
          answer := PermissionSetGroups.Grant(org, principal, resource, choice);
        } else {
          answer := PermissionSetGroups.Revoke(org, principal, resource);
        }
      case Profile =>
        if grant {
          answer := Profiles.Grant(org, principal, resource);
        } else {
          answer := Profiles.Revoke(org, mapping, principal, resource);
        }
      case UserRole =>
        if grant {
          answer := Roles.Grant(org, principal, resource);
        } else {
          answer := Roles.Revoke(org, principal, resource);
        }
      case Territory =>
        if grant {
          answer := Territories.Grant(org, principal, resource, entitlementId, choice);
        } else {
          answer := Territories.Revoke(org, principal, resource, entitlementId, choice);
        }
    }
  }

  // ---------------------------------------------------------------- abstract effects

  ghost function Replaced(view: iset<Grant>, f: Field, value: Id, user: Id): iset<Grant>
    requires UserFields.IsShown(f)
  {
    view - UserFields.Holdings(f, user) + UserFields.Held(f, value, user)
  }

  ghost function LinkEffect(link: Links.Link, call: Call, view: iset<Grant>): iset<Grant>
    requires call.Provision?
  {
    var shown := Links.Shown(link, call.resource, call.principal.id);
    if call.grant then (if call.principal.kind == User then view + shown else view)
    else if link != Links.Membership && call.principal.kind != User then view
    else view - shown
  }

  /**
   Sets for groups, permission sets and permission set groups; one value per standard
   user for profiles and roles; the two-level structure of territories.  `facts` is any
   database of the run: only its user types, profiles and licenses are looked at.
   */
  ghost function Effect(facts: Db, mapping: map<string, string>, call: Call, view: iset<Grant>): iset<Grant>
    requires WellFormed(call)
  {
    match call
    case Activation(_, _) => view
    case Provision(kind, grant, principal, resource, _) =>
      var u := principal.id;
      match kind
      case Group => LinkEffect(Links.Membership, call, view)
      case PermissionSet => LinkEffect(Links.Direct, call, view)
      case PermissionSetGroup => LinkEffect(Links.ByGroup, call, view)
      case Profile =>
        if !UserFields.Standard(facts, u) then view
        else if grant then (if principal.kind == User then Replaced(view, ProfileId, resource, u) else view)
        else
          var least := Profiles.LeastProfile(facts, mapping, resource);
          if least.Ok? then Replaced(view, ProfileId, least.value, u) else view
      case UserRole =>
        if !UserFields.Standard(facts, u) then view
        else if grant then (if principal.kind == User then Replaced(view, UserRoleId, resource, u) else view)
        else view - iset{UserFields.FieldGrant(UserRoleId, resource, u)}
      case Territory => TerritoryProperties.Effect(TerritoryCallOf(call), view)
  }

  // ---------------------------------------------------------------- one call

  /** The tables and user types that provisioning never touches. */
  ghost predicate SameFacts(a: Db, b: Db) {
    && a.Rows(Table.Profiles) == b.Rows(Table.Profiles)
    && a.Rows(UserLicenses) == b.Rows(UserLicenses)
    && forall u :: UserFields.Standard(a, u) <==> UserFields.Standard(b, u)
  }

  lemma OtherTableKeepsFacts(db: Db, t: Table, rows: seq<Row>)
    requires t == GroupMembers || t == Assignments || t == Associations
    ensures SameFacts(db, db.With(t, rows))
  {
  }

  lemma UserWriteKeepsFacts(db: Db, id: Id, f: Field, v: string)
    requires Valid(db) && f != UserType
    ensures SameFacts(db, Patched(db, Users, id, f, Text(v)).db)
  {
    hide Valid, UserFields.FindUser;
    var after := Patched(db, Users, id, f, Text(v)).db;
    forall u ensures UserFields.Standard(db, u) <==> UserFields.Standard(after, u) {
      UserFields.FoundUser(db, u);
      UserFields.FoundUser(after, u);
      if UserFields.FindUser(db, u).Some? {
        IdFixesRow(db, Users, UserFields.FindUser(db, u).value);
      }
      var rows, rows' := db.Rows(Users), after.Rows(Users);
      assert SameTypes(rows, rows') by { UpdatedTypes(rows, id, f, v); }
      if UserFields.FindUser(db, u).Some? {
        var i :| 0 <= i < |rows| && rows[i] == UserFields.FindUser(db, u).value;
        assert rows'[i] in rows';
      }
      if UserFields.FindUser(after, u).Some? {
        var i :| 0 <= i < |rows'| && rows'[i] == UserFields.FindUser(after, u).value;
        assert rows[i] in rows;
      }
    }
  }

  ghost predicate SameTypes(rows: seq<Row>, rows': seq<Row>) {
    && |rows| == |rows'|
    && forall i :: 0 <= i < |rows| ==> rows[i].id == rows'[i].id && rows[i].Text(UserType) == rows'[i].Text(UserType)
  }

  /** A write to another field leaves every id and every user type where it was. */
  lemma UpdatedTypes(rows: seq<Row>, id: Id, f: Field, v: string)
    requires f != UserType
    ensures SameTypes(rows, rows) && SameTypes(rows, Update(rows, id, f, Text(v)))
  {
  }

  lemma CreationKeepsFacts(db: Db, t: Table, fields: map<Field, Value>, choice: Choice)
    requires Fresh(db, t, choice) && (t == GroupMembers || t == Assignments || t == Associations)
    ensures SameFacts(db, Created(db, t, fields, choice).db)
  {
    CreateCases(db, t, fields, choice);
    OtherTableKeepsFacts(db, t, Insert(db.Rows(t), choice.at, Row(choice.id, fields)));
  }

  lemma CallKeepsFacts(db: Db, mapping: map<string, string>, call: Call, choice: Choice)
    requires Valid(db) && WellFormed(call) && Fresh(db, CreatesIn(call), choice)
    ensures SameFacts(db, Apply(db, mapping, call, choice).db)
  {
    hide Valid, SameFacts, Created, Fresh, UserFields.FindUser, Links.FindLink,
         Territories.Find, Territories.Decide, Profiles.LeastProfile;
    SameAsItself(db);
    match call
    case Activation(user, active) => WriteKeepsFacts(db, user, IsActive, if active then "true" else "false");
    case Provision(kind, grant, principal, resource, _) =>
      match kind
      case Group => LinkKeepsFacts(db, Links.Membership, call, choice);
      case PermissionSet => LinkKeepsFacts(db, Links.Direct, call, choice);
      case PermissionSetGroup => LinkKeepsFacts(db, Links.ByGroup, call, choice);
      case Profile =>
        WriteKeepsFacts(db, principal.id, ProfileId, resource);
        var least := Profiles.LeastProfile(db, mapping, resource);
        if least.Ok? {
          WriteKeepsFacts(db, principal.id, ProfileId, least.value);
        }
      case UserRole =>
        WriteKeepsFacts(db, principal.id, UserRoleId, resource);
        WriteKeepsFacts(db, principal.id, UserRoleId, "");
      case Territory => TerritoryKeepsFacts(db, TerritoryCallOf(call), choice);
  }

  lemma SameAsItself(db: Db)
    ensures SameFacts(db, db)
  {
  }

  lemma WriteKeepsFacts(db: Db, user: Id, f: Field, v: string)
    requires Valid(db) && f != UserType
    ensures SameFacts(db, UserFields.SetReply(db, user, f, v).db)
  {
    hide Valid, SameFacts, Patched;
    SameAsItself(db);
    if UserFields.FindUser(db, user).Some? {
      UserWriteKeepsFacts(db, UserFields.FindUser(db, user).value.id, f, v);
    }
  }

  lemma LinkKeepsFacts(db: Db, link: Links.Link, call: Call, choice: Choice)
    requires call.Provision? && Fresh(db, Links.LinkTable(link), choice)
    ensures var fields := Links.FieldsOf(link, call.resource, call.principal.id);
            SameFacts(db, Created(db, Links.LinkTable(link), fields, choice).db)
    ensures forall id :: SameFacts(db, Deleted(db, Links.LinkTable(link), id).db)
  {
    hide SameFacts, Created;
    SameAsItself(db);
    CreationKeepsFacts(db, Links.LinkTable(link), Links.FieldsOf(link, call.resource, call.principal.id), choice);
    forall id ensures SameFacts(db, Deleted(db, Links.LinkTable(link), id).db) {
      OtherTableKeepsFacts(db, Links.LinkTable(link), Without(db.Rows(Links.LinkTable(link)), id));
    }
  }

  lemma TerritoryKeepsFacts(db: Db, call: Territories.TerritoryCall, choice: Choice)
    requires Fresh(db, Associations, choice)
    ensures SameFacts(db, Territories.Run(db, call, choice).db)
  {
    hide SameFacts, Created, Territories.Find, Territories.Decide;
    SameAsItself(db);
    var plan := Territories.Decide(call, Territories.Find(db, call.principal.id, call.territory));
    match plan
    case Done(_) =>
    case Add(fields) => CreationKeepsFacts(db, Associations, fields, choice);
    case SetRole(id, role) =>
      OtherTableKeepsFacts(db, Associations, Update(db.Rows(Associations), id, RoleInTerritory2, Text(role)));
    case Remove(id) => OtherTableKeepsFacts(db, Associations, Without(db.Rows(Associations), id));
  }

  lemma LinkCallRefines(db: Db, mapping: map<string, string>, link: Links.Link, call: Call, choice: Choice)
    requires Valid(db) && WellFormed(call) && call.Provision? && Fresh(db, CreatesIn(call), choice)
    requires call.kind == (match link
                           case Membership => Group
                           case Direct => PermissionSet
                           case ByGroup => PermissionSetGroup)
    ensures Valid(Apply(db, mapping, call, choice).db)
    ensures View(Apply(db, mapping, call, choice).db) == LinkEffect(link, call, View(db))
  {
    hide Valid, View, Created, Deleted, Links.FindLink, Links.Shown, Links.FieldsOf;
    Links.CreatingAdds(db, link, call.resource, call.principal.id, choice);
    Links.DeletingRemoves(db, link, call.resource, call.principal.id);
    if link.ByGroup? && Links.FindLink(db, link, call.resource, call.principal.id).Some? {
      assert View(db) == View(db) + Links.Shown(link, call.resource, call.principal.id);
    }
  }

  /** Whatever its answer, a call does to the view what its abstract effect says. */
  lemma CallRefinesEffect(db: Db, mapping: map<string, string>, call: Call, choice: Choice)
    requires Valid(db) && WellFormed(call) && Fresh(db, CreatesIn(call), choice)
    ensures Valid(Apply(db, mapping, call, choice).db)
    ensures View(Apply(db, mapping, call, choice).db) == Effect(db, mapping, call, View(db))
  {
    hide Valid, View, Fresh, Created, UserFields.SetReply, UserFields.ClearReply, UserFields.Standard, Territories.Run,
         TerritoryProperties.Effect, Profiles.LeastProfile, UserFields.Holdings, UserFields.Held, LinkEffect;
    match call
    case Activation(user, active) => UserFields.ActivationKeepsView(db, user, if active then "true" else "false");
    case Provision(kind, grant, principal, resource, _) =>
      match kind
      case Group => LinkCallRefines(db, mapping, Links.Membership, call, choice);
      case PermissionSet => LinkCallRefines(db, mapping, Links.Direct, call, choice);
      case PermissionSetGroup => LinkCallRefines(db, mapping, Links.ByGroup, call, choice);
      case Profile =>
        UserFields.SetMovesView(db, principal.id, ProfileId, resource);
        var least := Profiles.LeastProfile(db, mapping, resource);
        if least.Ok? {
          UserFields.SetMovesView(db, principal.id, ProfileId, least.value);
        }
      case UserRole =>
        UserFields.SetMovesView(db, principal.id, UserRoleId, resource);
        UserFields.ClearMovesView(db, principal.id, UserRoleId, resource);
      case Territory =>
        TerritoryProperties.CallRefinesEffect(db, TerritoryCallOf(call), choice);
  }

  lemma EffectOfSameFacts(a: Db, b: Db, mapping: map<string, string>, call: Call, view: iset<Grant>)
    requires SameFacts(a, b) && WellFormed(call)
    ensures Effect(a, mapping, call, view) == Effect(b, mapping, call, view)
  {
    hide UserFields.Standard, TerritoryProperties.Effect, LinkEffect;
    if call.Provision? {
      assert Profiles.LeastProfile(a, mapping, call.resource) == Profiles.LeastProfile(b, mapping, call.resource);
    }
  }

  // ---------------------------------------------------------------- runs

  /** A call, the server's choices for it, and whether its write arrived at all. */
  datatype Event = Event(call: Call, choice: Choice, arrived: bool)

  function After(db: Db, mapping: map<string, string>, e: Event): Db
    requires WellFormed(e.call) && Fresh(db, CreatesIn(e.call), e.choice)
  {
    if e.arrived then Apply(db, mapping, e.call, e.choice).db else db
  }

  ghost predicate Feasible(db: Db, mapping: map<string, string>, events: seq<Event>)
    decreases |events|
  {
    events == [] ||
    (&& WellFormed(events[0].call) && Fresh(db, CreatesIn(events[0].call), events[0].choice)
     && Feasible(After(db, mapping, events[0]), mapping, events[1..]))
  }

  ghost function RunAll(db: Db, mapping: map<string, string>, events: seq<Event>): Db
    requires Feasible(db, mapping, events)
    decreases |events|
  {
    if events == [] then db else RunAll(After(db, mapping, events[0]), mapping, events[1..])
  }

  /** The abstract effects of the calls that arrived, folded over a first view. */
  ghost function Fold(facts: Db, mapping: map<string, string>, view: iset<Grant>, events: seq<Event>): iset<Grant>
    requires forall e :: e in events ==> WellFormed(e.call)
    decreases |events|
  {
    if events == [] then view
    else Fold(facts, mapping,
              if events[0].arrived then Effect(facts, mapping, events[0].call, view) else view,
              events[1..])
  }

  lemma {:induction false} FeasibleCalls(db: Db, mapping: map<string, string>, events: seq<Event>)
    requires Feasible(db, mapping, events)
    ensures forall e :: e in events ==> WellFormed(e.call)
    decreases |events|
  {
    if events != [] {
      FeasibleCalls(After(db, mapping, events[0]), mapping, events[1..]);
      assert events == [events[0]] + events[1..];
    }
  }

  /** The main result, for every run over every valid database. */
  lemma {:induction false} RunRefinesFold(facts: Db, db: Db, mapping: map<string, string>, events: seq<Event>)
    requires Valid(db) && SameFacts(facts, db) && Feasible(db, mapping, events)
    ensures forall e :: e in events ==> WellFormed(e.call)
    ensures Valid(RunAll(db, mapping, events)) && SameFacts(facts, RunAll(db, mapping, events))
    ensures View(RunAll(db, mapping, events)) == Fold(facts, mapping, View(db), events)
    decreases |events|
  {
    hide Valid, View, Effect, Apply, SameFacts, Fresh, WellFormed;
    FeasibleCalls(db, mapping, events);
    if events != [] {
      var e := events[0];
      var next := After(db, mapping, e);
      if e.arrived {
        CallRefinesEffect(db, mapping, e.call, e.choice);
        CallKeepsFacts(db, mapping, e.call, e.choice);
        FactsAreTransitive(facts, db, next);
        EffectOfSameFacts(facts, db, mapping, e.call, View(db));
      }
      RunRefinesFold(facts, next, mapping, events[1..]);
    }
  }

  lemma FactsAreTransitive(a: Db, b: Db, c: Db)
    requires SameFacts(a, b) && SameFacts(b, c)
    ensures SameFacts(a, c)
  {
  }

  /** What a full sync emits after a run, resource by resource, is the fold of the run's effects. */
  lemma SyncAfterRunIsFold(db: Db, mapping: map<string, string>, events: seq<Event>,
                           kind: SyncViews.Queried, resource: Id, g: Grant)
    requires Valid(db) && Feasible(db, mapping, events) && resource != ""
    ensures forall e :: e in events ==> WellFormed(e.call)
    ensures g in SyncViews.SyncOf(RunAll(db, mapping, events), kind, resource) <==>
              g in Fold(db, mapping, View(db), events) && g.ent.kind == kind && g.ent.resource == resource
  {
    hide View, Fold, RunAll, SyncViews.SyncOf;
    SameAsItself(db);
    RunRefinesFold(db, db, mapping, events);
    SyncViews.SyncIsView(RunAll(db, mapping, events), kind, resource, g);
  }

  /** The same for the pages of a sync, however the server splits them; `components` is for permission sets. */
  lemma PagedSyncAfterRunIsFold(db: Db, mapping: map<string, string>, events: seq<Event>,
                                kind: SyncViews.Queried, feed: Feed, components: Feed, resource: Id, g: Grant)
    requires Valid(db) && Feasible(db, mapping, events) && resource != ""
    requires Serves(feed, RunAll(db, mapping, events), SyncViews.FeedTable(kind), SyncViews.CondsOf(kind, resource))
    requires Serves(components, RunAll(db, mapping, events), Components, [Eq(PermissionSetId, resource)])
    ensures forall e :: e in events ==> WellFormed(e.call)
    ensures var emitted := SyncViews.PageGrants(kind, resource, Flatten(feed.pages))
                           + if kind != PermissionSet then []
                             else SyncViews.ComponentPage(resource, Flatten(components.pages));
            g in emitted <==>
              g in Fold(db, mapping, View(db), events) && g.ent.kind == kind && g.ent.resource == resource
  {
    hide View, Fold, RunAll, SyncViews.PageGrants, SyncViews.ComponentPage;
    SyncAfterRunIsFold(db, mapping, events, kind, resource, g);
  }

  // ---------------------------------------------------------------- frames and single profiles

  /** The grants a call is about. */
  ghost predicate Touches(call: Call, g: Grant) {
    && call.Provision? && g.ent.kind == call.kind && g.principal.id == call.principal.id
    && (call.kind in {Profile, UserRole} || g.ent.resource == call.resource)
  }

  /**
   A call leaves every grant of other users, other kinds and, but for the single-valued
   kinds, other resources as it was.  In particular permission sets and permission set
   groups, which share a table, never change each other's view.
   */
  lemma CallFrames(db: Db, mapping: map<string, string>, call: Call, choice: Choice, g: Grant)
    requires Valid(db) && WellFormed(call) && Fresh(db, CreatesIn(call), choice) && !Touches(call, g)
    ensures g in View(Apply(db, mapping, call, choice).db) <==> g in View(db)
  {
    hide Valid, View, Fresh, Apply, UserFields.Standard, Profiles.LeastProfile,
         Territories.ParseEntitlementId, Territories.RoleOf;
    CallRefinesEffect(db, mapping, call, choice);
  }

  ghost predicate HasOneProfile(view: iset<Grant>, user: Id) {
    exists p ::
      p != "" && view * UserFields.Holdings(ProfileId, user) == iset{UserFields.FieldGrant(ProfileId, p, user)}
  }

  lemma CallKeepsOneProfile(db: Db, mapping: map<string, string>, call: Call, choice: Choice, user: Id)
    requires Valid(db) && WellFormed(call) && Fresh(db, CreatesIn(call), choice)
    requires forall p :: p in db.Rows(Table.Profiles) ==> p.id != ""
    requires HasOneProfile(View(db), user)
    ensures HasOneProfile(View(Apply(db, mapping, call, choice).db), user)
  {
    hide Valid, View, Fresh, Apply, Effect, UserFields.Standard, Profiles.LeastProfile, UserFields.Held;
    var view, after := View(db), View(Apply(db, mapping, call, choice).db);
    var p :| p != "" && view * UserFields.Holdings(ProfileId, user) == iset{UserFields.FieldGrant(ProfileId, p, user)};
    CallRefinesEffect(db, mapping, call, choice);
    if call.Provision? && call.kind == Profile && call.principal.id == user && after != view {
      var q := ReplacingProfile(db, mapping, call, view);
      UserFields.HeldIsHolding(ProfileId, q, user);
      HeldValue(q, user);
      assert after * UserFields.Holdings(ProfileId, user) == iset{UserFields.FieldGrant(ProfileId, q, user)};
    } else {
      forall g | g in UserFields.Holdings(ProfileId, user) ensures g in after <==> g in view {
        if after != view {
          CallFrames(db, mapping, call, choice, g);
        }
      }
      assert after * UserFields.Holdings(ProfileId, user) == view * UserFields.Holdings(ProfileId, user);
    }
  }

  lemma HeldValue(q: Id, user: Id)
    requires q != ""
    ensures UserFields.Held(ProfileId, q, user) == iset{UserFields.FieldGrant(ProfileId, q, user)}
  {
  }

  /** A profile call that changes anything puts one real profile in place of the old one. */
  lemma ReplacingProfile(db: Db, mapping: map<string, string>, call: Call, view: iset<Grant>) returns (q: Id)
    requires WellFormed(call) && call.Provision? && call.kind == Profile
    requires forall p :: p in db.Rows(Table.Profiles) ==> p.id != ""
    requires Effect(db, mapping, call, view) != view
    ensures q != "" && Effect(db, mapping, call, view) == Replaced(view, ProfileId, q, call.principal.id)
  {
    hide UserFields.Standard, UserFields.Held, UserFields.Holdings, Profiles.ProfileById,
         Profiles.LicenseById, Profiles.ProfileByName;
    if call.grant {
      q := call.resource;
    } else {
      q := Profiles.LeastProfile(db, mapping, call.resource).value;
      var license := Profiles.LicenseById(db, Profiles.ProfileById(db, call.resource).value.Text(UserLicenseId)).value;
      Profiles.ProfilesFound(db, call.resource, mapping[license.Text(Name)]);
    }
  }

  /** From a user with exactly one profile, every run ends with exactly one. */
  lemma {:induction false} RunKeepsOneProfile(db: Db, mapping: map<string, string>, events: seq<Event>, user: Id)
    requires Valid(db) && Feasible(db, mapping, events)
    requires forall p :: p in db.Rows(Table.Profiles) ==> p.id != ""
    requires HasOneProfile(View(db), user)
    ensures HasOneProfile(View(RunAll(db, mapping, events)), user)
    decreases |events|
  {
    hide Valid, View, Apply, Fresh, WellFormed, HasOneProfile, UserFields.Standard;
    if events != [] {
      var e := events[0];
      var next := After(db, mapping, e);
      if e.arrived {
        CallRefinesEffect(db, mapping, e.call, e.choice);
        CallKeepsFacts(db, mapping, e.call, e.choice);
        CallKeepsOneProfile(db, mapping, e.call, e.choice, user);
      }
      RunKeepsOneProfile(next, mapping, events[1..], user);
    }
  }
}
