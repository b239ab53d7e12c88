/** Profiles: every user has one, so a revoke puts another one in its place. */
module Profiles {
  import opened Collections
  import opened Salesforce
  import opened Access
  import opened SyncViews
  import opened UserFields

  function ProfileById(db: Db, id: Id): Option<Row> {
    First(Select(db, Table.Profiles, [IdIs(id)]))
  }

  function ProfileByName(db: Db, name: string): Option<Row> {
    First(Select(db, Table.Profiles, [Eq(Name, name)]))
  }

  function LicenseById(db: Db, id: Id): Option<Row> {
    First(Select(db, UserLicenses, [IdIs(id)]))
  }

  /**
   The least privileged profile for a profile's license, along the chain of reads.  The
   source dereferences both profiles without checking that they were found.
   */
  function LeastProfile(db: Db, mapping: map<string, string>, profile: Id): Result<Id> {
    match ProfileById(db, profile)
    case None => Err(Panic)
    case Some(p) =>
      match LicenseById(db, p.Text(UserLicenseId))
      case None => Err(LicenseNotFound)
      case Some(license) =>
        if license.Text(Name) !in mapping then Err(NoMappingForLicense)
        else match ProfileByName(db, mapping[license.Text(Name)])
             case None => Err(Panic)
             case Some(least) => Ok(least.id)
  }

  function GrantOutcome(db: Db, principal: Principal, profile: Id): Outcome {
    if principal.kind != User then Outcome(db, Failed(NotAUser))
    else
      var reply := SetReply(db, principal.id, ProfileId, profile);
      Outcome(reply.db, if reply.result.Ok? then Granted([]) else Failed(reply.result.error))
  }

  function RevokeOutcome(db: Db, mapping: map<string, string>, principal: Principal, profile: Id): Outcome {
    match LeastProfile(db, mapping, profile)
    case Err(e) => Outcome(db, Failed(e))
    case Ok(least) =>
      var reply := SetReply(db, principal.id, ProfileId, least);
      Outcome(reply.db, if reply.result.Ok? then Revoked else Failed(reply.result.error))
  }

  method QueryOne(org: Org, t: Table, conds: seq<Cond>) returns (r: Result<Option<Row>>)
    ensures r == Err(Unreachable) || r == Ok(First(Select(org.db, t, conds)))
  {
    var records := org.Query(t, conds);
    if records.Err? {
      return Err(records.error);
    }
    if |records.value| == 0 {
      return Ok(None);
    }
    r := Ok(Some(records.value[0]));
  }

  method Grant(org: Org, principal: Principal, profile: Id) returns (answer: Answer)
    modifies org
    ensures Settled(old(org.db), org.db, answer, GrantOutcome(old(org.db), principal, profile))
  {
    if principal.kind != User {
      return Failed(NotAUser);
    }
    var set' := SetValue(org, principal.id, ProfileId, profile);
    answer := if set'.Ok? then Granted([]) else Failed(set'.error);
  }

  method Revoke(org: Org, mapping: map<string, string>, principal: Principal, profile: Id) returns (answer: Answer)
    modifies org
    ensures Settled(old(org.db), org.db, answer, RevokeOutcome(old(org.db), mapping, principal, profile))
  {
    var revoked := QueryOne(org, Table.Profiles, [IdIs(profile)]);
    if revoked.Err? {
      return Failed(revoked.error);
    }
    if revoked.value.None? {
      return Failed(Panic);
    }
    var license := QueryOne(org, UserLicenses, [IdIs(revoked.value.value.Text(UserLicenseId))]);
    if license.Err? {
      return Failed(license.error);
    }
    if license.value.None? {
      return Failed(LicenseNotFound);
    }
    if license.value.value.Text(Name) !in mapping {
      return Failed(NoMappingForLicense);
    }
    var least := QueryOne(org, Table.Profiles, [Eq(Name, mapping[license.value.value.Text(Name)])]);
    if least.Err? {
      return Failed(least.error);
    }
    if least.value.None? {
      return Failed(Panic);
    }
    var set' := SetValue(org, principal.id, ProfileId, least.value.value.id);
    answer := if set'.Ok? then Revoked else Failed(set'.error);
  }

  /** One page of users with the profile as grants. */
  method Grants(profile: Id, assignments: seq<Row>) returns (grants: seq<Access.Grant>)
    ensures grants == PageGrants(Profile, profile, assignments)
  {
    ghost var emit := (r: Row) => RowGrants(Profile, profile, r);
    grants := [];
    for i := 0 to |assignments|
      invariant grants == FlatMap(emit, assignments[..i])
    {
      FlatMapStep(emit, assignments, i);
      grants := grants + [UserGrant(Profile, profile, ASSIGNED, assignments[i].id)];
    }
    assert assignments[..|assignments|] == assignments;
  }

  lemma ProfilesFound(db: Db, id: Id, name: string)
    ensures ProfileById(db, id).None? <==> forall p :: p in db.Rows(Table.Profiles) ==> p.id != id
    ensures ProfileByName(db, name).None? <==> forall p :: p in db.Rows(Table.Profiles) ==> p.Text(Name) != name
    ensures ProfileById(db, id).Some? ==> ProfileById(db, id).value.id == id
    ensures ProfileByName(db, name).Some? ==>
              var found := ProfileByName(db, name).value;
              found in db.Rows(Table.Profiles) && found.Text(Name) == name
  {
    FirstMatch(db, Table.Profiles, [IdIs(id)]);
    FirstMatch(db, Table.Profiles, [Eq(Name, name)]);
    assert forall p: Row :: Matches(p, [IdIs(id)]) <==> Holds([IdIs(id)][0], p);
    assert forall p: Row :: Matches(p, [Eq(Name, name)]) <==> Holds([Eq(Name, name)][0], p);
  }

  /** The revoke panics exactly when the profile, or the profile its license maps to, is unknown. */
  lemma RevokePanicsIff(db: Db, mapping: map<string, string>, principal: Principal, profile: Id)
    ensures RevokeOutcome(db, mapping, principal, profile).answer == Failed(Panic) <==>
              || (forall p :: p in db.Rows(Table.Profiles) ==> p.id != profile)
              || (ProfileById(db, profile).Some?
                  && var license := LicenseById(db, ProfileById(db, profile).value.Text(UserLicenseId));
                     license.Some? && license.value.Text(Name) in mapping
                     && forall p :: p in db.Rows(Table.Profiles) ==> p.Text(Name) != mapping[license.value.Text(Name)])
  {
    ProfilesFound(db, profile, "");
    if ProfileById(db, profile).Some? {
      var license := LicenseById(db, ProfileById(db, profile).value.Text(UserLicenseId));
      if license.Some? && license.value.Text(Name) in mapping {
        ProfilesFound(db, profile, mapping[license.value.Text(Name)]);
      }
    }
  }

  /**
   After a successful revoke a standard user shows exactly one profile, the one mapped
   from the revoked profile's license, so the revoked grant is gone exactly when that is
   another profile.
   */
  lemma RevokeLeavesLeastProfile(db: Db, mapping: map<string, string>, principal: Principal, profile: Id)
    requires Valid(db) && Standard(db, principal.id)
    requires RevokeOutcome(db, mapping, principal, profile).answer == Revoked
    requires forall p :: p in db.Rows(Table.Profiles) ==> p.id != ""
    ensures var out, least := RevokeOutcome(db, mapping, principal, profile), LeastProfile(db, mapping, profile).value;
            && View(out.db) * Holdings(ProfileId, principal.id) == iset{FieldGrant(ProfileId, least, principal.id)}
            && (FieldGrant(ProfileId, profile, principal.id) !in View(out.db) <==> least != profile)
            && View(out.db) - Holdings(ProfileId, principal.id) == View(db) - Holdings(ProfileId, principal.id)
  {
    hide View, Valid, Standard;
    var least := LeastProfile(db, mapping, profile).value;
    assert least != "" by {
      var license := LicenseById(db, ProfileById(db, profile).value.Text(UserLicenseId)).value;
      ProfilesFound(db, profile, mapping[license.Text(Name)]);
    }
    SetMovesView(db, principal.id, ProfileId, least);
    var revoked := FieldGrant(ProfileId, profile, principal.id);
    assert revoked in Holdings(ProfileId, principal.id);
    assert FieldGrant(ProfileId, least, principal.id) in Holdings(ProfileId, principal.id);
  }

  /**
   A revoke does not look at the profile the user holds: it takes a grant other than the
   named one away if and only if the user holds neither the named profile nor the least
   privileged one.
   */
  lemma RevokeTakesAnotherProfileIff(db: Db, mapping: map<string, string>, principal: Principal, profile: Id)
    requires Valid(db) && Standard(db, principal.id) && LeastProfile(db, mapping, profile).Ok?
    ensures var out, least := RevokeOutcome(db, mapping, principal, profile), LeastProfile(db, mapping, profile).value;
            var held := FindUser(db, principal.id).value.Text(ProfileId);
            (exists g :: g in View(db) && g !in View(out.db) && g != FieldGrant(ProfileId, profile, principal.id))
            <==> held != "" && held != profile && held != least
  {
    hide View, Valid, FindUser, LeastProfile, SetReply;
    var least, held := LeastProfile(db, mapping, profile).value, FindUser(db, principal.id).value.Text(ProfileId);
    SetMovesView(db, principal.id, ProfileId, least);
    FieldInView(db, principal.id, ProfileId);
    HeldIsHolding(ProfileId, held, principal.id);
    HeldIsHolding(ProfileId, least, principal.id);
    var lost := FieldGrant(ProfileId, held, principal.id);
    assert held != "" ==> lost in Held(ProfileId, held, principal.id);
    assert lost.ent.resource == held && FieldGrant(ProfileId, profile, principal.id).ent.resource == profile;
    var after := View(RevokeOutcome(db, mapping, principal, profile).db);
    assert lost in after ==> lost in Held(ProfileId, least, principal.id) || lost !in Holdings(ProfileId, principal.id);
    forall g | g in View(db) && g !in after
      ensures held != "" && held != least && g == lost
    {
      assert g in Held(ProfileId, held, principal.id);
    }
  }

  /** An organisation with one user and no profile of the given id. */
  function WithoutProfile(user: Id, held: Id): Db {
    Db(map[Users := [Row(user, map[ProfileId := Text(held), UserType := Text(STANDARD)])]])
  }

  /** There, revoking any profile panics. */
  lemma RevokePanics(mapping: map<string, string>, user: Id, held: Id, profile: Id)
    ensures Valid(WithoutProfile(user, held))
    ensures RevokeOutcome(WithoutProfile(user, held), mapping, Principal(User, user), profile)
            == Outcome(WithoutProfile(user, held), Failed(Panic))
  {
    hide Conflict;
    var db := WithoutProfile(user, held);
    assert db.Rows(Table.Profiles) == [];
    RevokePanicsIff(db, mapping, Principal(User, user), profile);
  }

  /** An organisation in which a user holds one profile, and a call revokes another one. */
  function HoldingAnother(user: Id, held: Id, profile: Id, least: Id): Db {
    Db(map[Users := [Row(user, map[ProfileId := Text(held), UserType := Text(STANDARD)])],
           Table.Profiles := [Row(profile, map[Name := Text("P"), UserLicenseId := Text("l")]),
                              Row(least, map[Name := Text("L"), UserLicenseId := Text("l")])],
           UserLicenses := [Row("l", map[Name := Text("S")])]])
  }

  /** There, the revoke takes the held profile away although it names another one. */
  lemma RevokeTakesHeldProfile(user: Id, held: Id, profile: Id, least: Id)
    requires held != "" && held != profile && held != least && profile != least
    ensures var db, mapping := HoldingAnother(user, held, profile, least), map["S" := "L"];
            var out := RevokeOutcome(db, mapping, Principal(User, user), profile);
            && Valid(db) && out.answer == Revoked
            && exists g :: g in View(db) && g !in View(out.db) && g != FieldGrant(ProfileId, profile, user)
  {
    var db, mapping := HoldingAnother(user, held, profile, least), map["S" := "L"];
    assert Valid(db) && FindUser(db, user) == Some(db.Rows(Users)[0]) by {
      HoldingAnotherIsValid(user, held, profile, least);
    }
    assert LeastProfile(db, mapping, profile) == Ok(least) by { LeastOfAnother(user, held, profile, least); }
    hide View, Valid, HoldingAnother, LeastProfile, FindUser;
    RevokeTakesAnotherProfileIff(db, mapping, Principal(User, user), profile);
  }

  lemma HoldingAnotherIsValid(user: Id, held: Id, profile: Id, least: Id)
    requires profile != least
    ensures var db := HoldingAnother(user, held, profile, least);
            Valid(db) && FindUser(db, user) == Some(db.Rows(Users)[0]) && |db.Rows(Users)| == 1
            && db.Rows(Users)[0].Text(ProfileId) == held && db.Rows(Users)[0].Text(UserType) == STANDARD
  {
    FoundUser(HoldingAnother(user, held, profile, least), user);
  }

  lemma LeastOfAnother(user: Id, held: Id, profile: Id, least: Id)
    requires profile != least
    ensures LeastProfile(HoldingAnother(user, held, profile, least), map["S" := "L"], profile) == Ok(least)
  {
    var db := HoldingAnother(user, held, profile, least);
    ProfilesFound(db, profile, "L");
    FirstMatch(db, Table.Profiles, [IdIs(profile)]);
    FirstMatch(db, UserLicenses, [IdIs("l")]);
    assert forall r: Row :: Matches(r, [IdIs("l")]) <==> Holds([IdIs("l")][0], r);
    assert db.Rows(UserLicenses)[0] in db.Rows(UserLicenses);
    var profiles := db.Rows(Table.Profiles);
    assert profiles[0] in profiles && profiles[1] in profiles;
  }

  /** An organisation with one profile, which is also the least privileged one of its license. */
  function OneProfile(user: Id, profile: Id): Db {
    Db(map[Users := [Row(user, map[ProfileId := Text(profile), UserType := Text(STANDARD)])],
           Table.Profiles := [Row(profile, map[Name := Text("L"), UserLicenseId := Text("l")])],
           UserLicenses := [Row("l", map[Name := Text("S")])]])
  }

  /** There, the revoke of the profile succeeds and the user keeps it. */
  lemma RevokeKeepsLeastProfile(user: Id, profile: Id)
    requires profile != ""
    ensures var db, mapping := OneProfile(user, profile), map["S" := "L"];
            var out := RevokeOutcome(db, mapping, Principal(User, user), profile);
            && Valid(db) && out.answer == Revoked && FieldGrant(ProfileId, profile, user) in View(out.db)
  {
    var db, mapping := OneProfile(user, profile), map["S" := "L"];
    assert Valid(db) && Standard(db, user) by { OneProfileIsValid(user, profile); }
    assert LeastProfile(db, mapping, profile) == Ok(profile) by { LeastOfOne(user, profile); }
    assert forall p :: p in db.Rows(Table.Profiles) ==> p.id != "";
    hide View, Valid, OneProfile, LeastProfile, Standard;
    SetMovesView(db, user, ProfileId, profile);
    RevokeLeavesLeastProfile(db, mapping, Principal(User, user), profile);
  }

  lemma OneProfileIsValid(user: Id, profile: Id)
    ensures Valid(OneProfile(user, profile)) && Standard(OneProfile(user, profile), user)
    ensures FindUser(OneProfile(user, profile), user).Some?
  {
    var db := OneProfile(user, profile);
    FoundUser(db, user);
    assert db.Rows(Users)[0] in db.Rows(Users);
  }

  lemma LeastOfOne(user: Id, profile: Id)
    ensures LeastProfile(OneProfile(user, profile), map["S" := "L"], profile) == Ok(profile)
  {
    var db := OneProfile(user, profile);
    ProfilesFound(db, profile, "L");
    FirstMatch(db, UserLicenses, [IdIs("l")]);
    FirstMatch(db, Table.Profiles, [IdIs(profile)]);
    assert forall r: Row :: Matches(r, [IdIs("l")]) <==> Holds([IdIs("l")][0], r);
    assert db.Rows(UserLicenses)[0] in db.Rows(UserLicenses) && db.Rows(Table.Profiles)[0] in db.Rows(Table.Profiles);
  }
}
