# Verification of the Salesforce connector's core

The connector writes access into a Salesforce organisation (`Grant`, `Revoke`,
`CreateAccount`) and reads it back page by page (`Grants`, `List`).  This project
models both sides over one abstract organisation and proves that they agree.

## The organisation

`Salesforce.dfy` holds a database of tables (`User`, `Profile`, `UserLicense`,
`UserLogin`, `GroupMember`, `PermissionSetAssignment`, `PermissionSetGroupComponent`,
`UserTerritory2Association`), each a sequence of rows in id order.  It answers
conjunctive queries and four atomic requests: query, create, patch of one field of the
row with a given id, delete by id.  Class `Org` is the live organisation.  Every request
may be lost, and a lost write may or may not have happened: such calls end in
`Unreachable`.  What the server decides by itself about a new row, its id and where that
id sorts, is a parameter (`Choice`).

`Access.dfy` defines the **view** of a database: the set of all grants that the builders'
`Grants` methods emit for it.  `SyncViews.dfy` proves that this set is, resource by
resource, what the builders' queries yield.

What the server guarantees (stated in `Conflict`, `Created` and `Valid`): ids are unique
within a table; a second `GroupMember` row for a pair answers with the first one's id; a
second association of a user with a territory, a second assignment of the same permission
set or permission set group, or a second `User` with a `Username`, is `DUPLICATE_VALUE`.
An assignment row names a permission set or a permission set group, not both.  The
lemmas `Links.RevokeErasesIffSole` and `Links.OtherSideSurvivesIff` drop these two
guarantees and say exactly what is lost without them.

## What is proved

* **Provisioning against the view** (`Provisioning.dfy`, with `Links`, `UserFields`,
  `Groups`, `PermissionSets`, `PermissionSetGroups`, `Profiles`, `Roles`,
  `TerritoryProperties`).  Each `Grant` and `Revoke` is a method over `Org`, proved
  against an outcome function; each outcome refines an abstract effect on the view (set
  insertion and removal; one replaceable value per user; a role that exists only under a
  membership).  For every finite run of calls over all six kinds, with any of the writes
  lost, what a full sync emits at the end, over any split into pages, is the fold of the
  effects over the view at the start.
* **Territories as interleaved steps** (`TerritoryInterleaving.dfy`).  Each call is a read
  and a later write by record id; other calls and arbitrary other writers run in between.
  Every reachable state has one association per pair, at most one role, and no role
  without membership, and every answer is true of the user's place in the territory at an
  instant inside its call, except that a grant refused as a duplicate promises the
  membership only.  A concrete run shows that this exception is needed.  In terms of the
  grant that the entitlement id names, this holds exactly for the ids that are offered:
  "member", and the prefix with a role that is not empty.
* **Answers and views by rows** (`Answers.dfy`, `ViewByRows.dfy`).  What each call answers
  and leaves behind, and what each sync shows, is stated once more in terms of the rows
  alone, with ids, slugs and prefixes spelled out.
* **The other calls that read before they write** (`OvertakenCalls.dfy`), with any writes by
  anybody in between: link revokes, permission set group grants, user role revokes.
* **Paged sync as a run** (`Paging`, `ResourceSync`, `PermissionSync`, `UserSync`).  For
  every split of the results into pages, empty ones included, feeding tokens back from
  `""` until `""` terminates and emits everything once and in order, including the
  two-phase machine of permission sets whose phase lives in the token.
* **Effective access** (`Expansion.dfy`).  Expanding the synced grants gives a permission
  set to exactly the users assigned directly and the members of the groups that contain it.
* **Batched join** (`UserLogins.dfy`).  The chunked login query is complete or fails, and
  agrees with the single lookups exactly where a user's first and last records coincide.
* **Account creation** (`AccountRequest`, `AccountLookup`, `AccountCreation`,
  `AccountProperties`).  A closed form of the field map; the retry loop over an index that
  lags and a response cache whose entries may expire; one user per name over any history
  of runs and of writes by anybody else.  In `AccountInterleaving.dfy` every request of a
  run is a step of its own, and other runs, other writers and time come in between.
* **Shared selector slices** (`Selectors.dfy`).

## Where the code does not do what one might expect

Each point names the lemma with an input that shows it, and the one with its exact condition.

* The profile `Revoke` reads fields of two profiles without checking that they were found;
  the model answers `Panic` (`Profiles.RevokePanics`, `Profiles.RevokePanicsIff`).
* The profile `Revoke` does not look at the user's current profile.  It takes a profile
  away that it does not name (`Profiles.RevokeTakesHeldProfile`,
  `Profiles.RevokeTakesAnotherProfileIff`), and it keeps the named one when that is the
  least privileged one itself (`Profiles.RevokeKeepsLeastProfile`,
  `Profiles.RevokeLeavesLeastProfile`).
* Territory calls accept two kinds of entitlement ids that are never offered
  (`TerritoryEntitlements.OfferedSlugsAreRegular`).  With an empty role (`role:`), `Grant`
  reports a grant that no sync shows, or answers "already exists" for it
  (`TerritoryProperties.EmptyRoleIsReported`, `TerritoryEntitlements.EmptyRoleAlreadyExists`,
  `TerritoryProperties.ReportedRoleIsShownIffNamed`, `TerritoryProperties.EmptyRoleIsNeverShown`).
  A slug without the prefix (`Manager`) is read as the role it spells: `Grant` answers
  "already exists", and `Revoke` takes away the grant of `role:Manager`, while no sync shows
  the grant that was named (`TerritoryEntitlements.UnprefixedIdIsMistaken`).  The exact
  conditions are `TerritoryProperties.AlreadyExistsIsTrueIff`,
  `TerritoryProperties.GrantShowsNamedIff` and `TerritoryProperties.AlreadyRevokedIsTrueIff`.
* Between its compare and its clear, a role `Revoke` can be overtaken and then erases
  the other role (`TerritoryInterleaving.RevokeErasesOtherRole`,
  `TerritoryInterleaving.ClearErasesCurrentRole`); so can the revoke of a user's role
  (`OvertakenCalls.OvertakenClearErasesOtherRole`, `OvertakenCalls.OvertakenClearErasesCurrentRole`).
* A permission set group `Grant` whose read is overtaken by the same assignment fails,
  although the grant is there (`OvertakenCalls.OvertakenGrantFails`,
  `OvertakenCalls.OvertakenGrantFailsIff`).
* A role `Grant` that loses the race for a new association answers "already exists" though
  the role is missing (`TerritoryInterleaving.DuplicateHidesMissingRole`,
  `TerritoryInterleaving.DuplicateIsTrueIff`).
* The batch of logins keeps the last record of a user, the single lookup the first
  (`UserLogins.BatchDiffers`, `UserLogins.BatchAgreesIff`).
* A first-phase cursor that begins with `psg:` is replayed in the second phase
  (`PermissionSync.PrefixCursorSkipsAssignments`, `PermissionSync.CursorReplaysInItsPhase`,
  `PermissionSync.FirstPhaseContinuesIff`).
* Components of a permission set group that are marked deleted are emitted like others, so
  expanded access can exceed the live one (`Expansion.DeletedComponentGivesAccess`,
  `Expansion.AccessIsLiveIff`).
* Whenever the lookup answers "not found" for a name that is taken, `CreateAccount` tries to
  create a user that exists; the server's unique user name refuses it and the run fails
  instead of activating the user (`AccountProperties.CreatesIff`).  The index may lag
  (`AccountProperties.LaggingIndexIsRefused`), or the user may have no user type, or have
  the email as name only (`AccountProperties.HiddenUserIsRefused`).
* A stale cached answer that calls an inactive user active lets a run succeed and leaves
  the user inactive (`AccountProperties.StaleAnswerLeavesInactive`,
  `AccountProperties.ReturnedUserIsActiveIff`).
* The lookup by email does not read the license key, so a run reports a human account
  where a sync reports a service account (`AccountProperties.AgentIsReportedHuman`,
  `AccountProperties.AccountTypeAgreesIff`).

## Assumptions

Salesforce ids are not empty and hold no `:`; user ids begin with `005`, group ids with
`00G`; ids are never reused.  A first page is empty only when the whole result is.  A response that is not done carries a non-empty cursor, the
cursors of one result differ, and first-phase cursors do not begin with `psg:`.  The
profile and role views speak of users with `UserType = Standard` only.  A call's resource
id is not empty.  Where a lemma needs one of these, it is among its preconditions or in
the type of its input.

## Model

| member | source | states |
|---|---|---|
| Salesforce.CreateCases | test/testHelpers.go:380-423 | a create adds the row, or finds a conflicting one and changes nothing: success for a group membership, DUPLICATE_VALUE otherwise |
| Salesforce.CreateKeepsValid | pkg/connector/client/request.go:182-220 | no create makes two rows share an id or a unique pair |
| Salesforce.PatchKeepsValid | pkg/connector/client/request.go:222-243 | no update of a non-key field breaks uniqueness |
| Salesforce.DeleteKeepsValid | pkg/connector/client/request.go:245-270 | no deletion breaks uniqueness |
| Salesforce.FirstMatch | pkg/connector/client/request.go:146-178 | taking the first record finds a matching row, and finds none only if none matches |
| Salesforce.FirstInOrder | pkg/connector/client/request.go:146-178 | the record taken is the first match in the order of ids |
| Salesforce.FieldForms | pkg/connector/client/salesforce.go:183-217 | which forms of a flag mean true, which are unreadable, and which dates do not parse |
| Salesforce.Org.Query | pkg/connector/client/request.go:54-88 | a request that does not follow the next url sees some first page of the rows that satisfy all conditions, empty only if there are none |
| Salesforce.Org.QueryPage | pkg/connector/client/request.go:54-88 | the first page at a given page limit, with a next url exactly when the result is longer |
| Salesforce.Org.Create | pkg/connector/client/request.go:182-220 | a create has the server's effect and answer, or is lost with or without its effect |
| Salesforce.Org.Patch | pkg/connector/client/request.go:222-243 | the same for an update of one field of one row |
| Salesforce.Org.Delete | pkg/connector/client/request.go:245-270 | the same for a deletion by id |
| Access.EmitTraces | pkg/connector/client/salesforce.go:568 | every grant of a sync names the resource and the principal of the row it came from |
| Access.OneOwner | pkg/connector/client/request.go:20-23 | a grant on a provisioned kind comes from exactly one row |
| Access.InsertView | pkg/connector/client/request.go:182-220 | a new row adds exactly its own grants to the view |
| Access.DeleteView | pkg/connector/client/request.go:245-270 | deleting a row removes exactly its own grants from the view |
| Access.PatchView | pkg/connector/client/request.go:222-243 | patching a row exchanges its old grants for its new ones |
| SyncViews.SyncIsView | pkg/connector/client/salesforce.go:556-708 | for every kind and resource the builder's queries emit exactly the resource's part of the view |
| ViewByRows.GroupView | pkg/connector/client/salesforce.go:653-708 | a membership row shows its member as a user exactly for an id that begins with "005", as a group exactly for "00G"; groups show nothing else |
| ViewByRows.PermissionSetView | pkg/connector/permissions.go:140-190 | a permission set shows a user exactly for an assignment row, and a group with its expansion id exactly for a component row |
| ViewByRows.PermissionSetShowsNoMore | pkg/connector/permissions.go:140-190 | and nothing else |
| ViewByRows.PermissionSetGroupView | pkg/connector/permission_set_group.go:97-107 | a permission set group shows exactly its assignees, as members |
| ViewByRows.UserFieldView | pkg/connector/client/salesforce.go:556-615 | profiles and roles show exactly the users of type "Standard" whose record names them |
| ViewByRows.TerritoryView | pkg/connector/territories.go:94-104 | a territory shows a member for each association, and a role exactly where it is not empty |
| ViewByRows.NothingElseIsShown | pkg/connector/client/salesforce.go:556-708 | no sync shows a grant on a user or on a resource without an id |
| Links.CreatingAdds | pkg/connector/client/salesforce.go:744-796 | adding a member or an assignment inserts its grant into the view, whether it was there or not, and says when the server refuses |
| Links.FindSeesLink | pkg/connector/client/salesforce.go:710-742 | the read before a write finds a row exactly when the view shows the grant |
| Links.DeletingRemoves | pkg/connector/client/salesforce.go:766-808 | removing a member or an assignment takes exactly its grant out of the view |
| Links.DeletionLeavesOthers | pkg/connector/client/request.go:245-270 | in any database, what remains after a deletion is what the other rows show |
| Links.RevokeErasesIffSole | pkg/connector/client/salesforce.go:727-742 | in any database, a revoke makes the grant disappear if and only if no second row carries it |
| Links.OtherSideSurvivesIff | pkg/connector/client/salesforce.go:966-1014 | a row that served both assignment kinds: the direct grant survives the group's revoke if and only if another row carries it |
| Answers.GroupGrantAnswer | pkg/connector/groups.go:170-192 | by rows: others than users are refused; else the membership is there afterwards, and nothing changes if it was before |
| Answers.GroupRevokeAnswer | pkg/connector/groups.go:194-212 | by rows: "already revoked" exactly when there is no membership, and then nothing changes; else "revoked", and it is gone |
| Answers.PermissionSetGrantAnswer | pkg/connector/permissions.go:204-226 | by rows: an assignment that is there is an error without effect; else it is there afterwards |
| Answers.PermissionSetRevokeAnswer | pkg/connector/permissions.go:228-243 | by rows: a missing assignment is an error without effect; else "revoked", and it is gone |
| Answers.PermissionSetGroupGrantAnswer | pkg/connector/permission_set_group.go:121-150 | by the view: "already exists" exactly when the view has the grant, and then nothing changes; else the reported grants are exactly what the view gains, the requested one among them |
| Answers.PermissionSetGroupRevokeAnswer | pkg/connector/permission_set_group.go:152-175 | by the view: "already revoked" exactly when the view lacks the grant, and then nothing changes; else "revoked", and exactly that grant is gone |
| Answers.FieldGrantAnswer | pkg/connector/profiles.go:148-170 | by rows: a profile or role grant leaves an existing user with the value, whatever was there; others than users, and absent ones, are errors without effect |
| Answers.RoleRevokeAnswer | pkg/connector/roles.go:179-190 | by rows: the role is cleared exactly when the user holds it; else an error without effect |
| Answers.ActivationTakesEffect | pkg/connector/client/salesforce.go:842-853 | by rows: an activated user is active, a deactivated one is not, and nobody else's state changes |
| Answers.TerritoryFailures | pkg/connector/territories.go:112-212 | a grant fails exactly for others than users and, after that, for malformed ids, a revoke for malformed ids alone; no failure and no "already" answer has an effect |
| Answers.ProfileRevokeFollowsChain | pkg/connector/profiles.go:172-220 | by rows: after a revoke the user is on the first profile that has the name which the mapping gives for the license of the revoked profile |
| Answers.ProfileRevokeFailures | pkg/connector/profiles.go:186-218 | by rows: "no license" exactly when no license row has the profile's license id, "no mapping" exactly when that license's name is not mapped, a nil dereference exactly when no profile has the mapped name, "no such user" exactly when the chain leads to a profile and the user is absent; none has an effect |
| Answers.ProfileRevokeOfNone | pkg/connector/profiles.go:177-182 | by rows: a profile that does not exist is dereferenced, without effect |
| Groups.Grant | pkg/connector/groups.go:170-192 | only users are accepted; the membership is created |
| Groups.RemoveUserFromGroup | pkg/connector/client/salesforce.go:766-781 | tells whether there was a membership, and removes it |
| Groups.Revoke | pkg/connector/groups.go:194-212 | "already revoked" when there was no membership |
| Groups.Grants | pkg/connector/groups.go:124-168 | one grant per membership of a user or a group, other principals are skipped |
| PermissionSets.Grant | pkg/connector/permissions.go:204-226 | only users are accepted; the assignment is created |
| PermissionSets.Revoke | pkg/connector/permissions.go:228-243 | the assignment is deleted; a missing one is an error |
| PermissionSetGroups.GetOneAssignment | pkg/connector/client/salesforce.go:966-992 | the assignment of the pair, or none |
| PermissionSetGroups.Grant | pkg/connector/permission_set_group.go:121-150 | "already exists" exactly when the read finds the assignment, else it is created and its grant returned |
| PermissionSetGroups.Revoke | pkg/connector/permission_set_group.go:152-175 | "already revoked" exactly when the read finds no assignment, else it is deleted |
| PermissionSetGroups.Grants | pkg/connector/permission_set_group.go:84-113 | one member grant per assignment |
| UserFields.GetOneUser | pkg/connector/client/request.go:272-293 | the user's record, or an error when there is none |
| UserFields.CopySObject | pkg/connector/client/request.go:378-395 | the copy carries the allowed fields that have a value and no others |
| UserFields.UpdateUser | pkg/connector/client/request.go:295-315 | the body that is sent holds the changed field alone |
| UserFields.SetValue | pkg/connector/client/request.go:317-353 | the field of the existing user is set |
| UserFields.ClearValue | pkg/connector/client/request.go:355-376 | the field is cleared only when it holds the expected value at the read; with nobody writing in between (see the OvertakenCalls rows for the rest) |
| UserFields.FieldInView | pkg/connector/client/salesforce.go:556-615 | the profile and role views show exactly the value a standard user's record holds |
| UserFields.SetMovesView | pkg/connector/client/salesforce.go:810-832 | granting a profile or role replaces the user's previous one in the view and touches nothing else |
| UserFields.ClearMovesView | pkg/connector/client/salesforce.go:834-840 | revoking a role removes that role's grant if and only if the user holds it, and otherwise fails without effect |
| UserFields.ActivationKeepsView | pkg/connector/client/salesforce.go:842-853 | activating or deactivating a user changes no grant |
| UserFields.SetChangesOneField | pkg/connector/client/request.go:317-395 | profile, role and active-state updates change one field of one user record, and no other table |
| Profiles.QueryOne | pkg/connector/client/salesforce.go:328-368 | the first record of a query, or none |
| Profiles.Grant | pkg/connector/profiles.go:148-170 | only users are accepted; the profile is set |
| Profiles.Revoke | pkg/connector/profiles.go:172-220 | the chain of reads from profile to license to least privileged profile, with each of its failures, then the write |
| Profiles.Grants | pkg/connector/profiles.go:110-146 | one grant per user with the profile |
| Profiles.RevokePanicsIff | pkg/connector/profiles.go:177-213 | a nil profile is dereferenced if and only if the profile, or the profile its license is mapped to, does not exist |
| Profiles.RevokePanics | pkg/connector/profiles.go:177-182 | an organisation in which every profile revoke dereferences a nil profile |
| Profiles.RevokeTakesAnotherProfileIff | pkg/connector/profiles.go:172-220 | a grant other than the named one leaves the view if and only if the user holds neither the named profile nor the least privileged one |
| Profiles.RevokeTakesHeldProfile | pkg/connector/profiles.go:172-220 | an organisation in which revoking one profile takes another one away |
| Profiles.RevokeKeepsLeastProfile | pkg/connector/profiles.go:172-220 | an organisation in which a successful revoke leaves the named grant |
| Profiles.RevokeLeavesLeastProfile | pkg/connector/profiles.go:172-220 | after a successful revoke the user shows exactly the least privileged profile, so the grant is gone if and only if that is another profile |
| Roles.Grant | pkg/connector/roles.go:155-177 | only users are accepted; the role is set |
| Roles.Revoke | pkg/connector/roles.go:179-190 | the role is cleared only if it is the named one |
| Roles.Grants | pkg/connector/roles.go:117-153 | one grant per user with the role |
| Territories.GetUserTerritoryAssociation | pkg/connector/client/salesforce.go:1323-1334 | the association of the pair, or "not found" |
| Territories.AddUserToTerritory | pkg/connector/client/salesforce.go:1336-1356 | creates the association; a duplicate becomes "already exists" |
| Territories.AddUserToTerritoryWithRole | pkg/connector/client/salesforce.go:1375-1393 | the same with a role |
| Territories.RemoveUserFromTerritory | pkg/connector/client/salesforce.go:1358-1373 | deletes the association that the read found |
| Territories.ClearUserTerritoryRole | pkg/connector/client/salesforce.go:1405-1436 | clears the role only when the read finds the expected one, with a different error for each other case |
| Territories.Grant | pkg/connector/territories.go:112-179 | every branch of the grant, as a read, a decision and a write |
| Territories.Revoke | pkg/connector/territories.go:181-212 | every branch of the revoke, with three errors turned into "already revoked" |
| Territories.Grants | pkg/connector/territories.go:87-110 | a member grant per association and a role grant where there is a role |
| TerritoryProperties.FindSeesTheView | pkg/connector/client/salesforce.go:1323-1334 | the read finds an association exactly when the view shows the membership, with the role the view shows |
| TerritoryProperties.RunMovesSeat | pkg/connector/territories.go:112-212 | an uninterrupted call moves the user's place in the territory as asked and the view with it, and answers accordingly |
| TerritoryProperties.SeatMembership | pkg/connector/territories.go:94-104 | which of the pair's grants the view shows |
| TerritoryProperties.CallRefinesEffect | pkg/connector/territories.go:112-212 | whatever it answers, a call has its abstract effect: membership as a set, a single role beneath it, member revoke cascading to the role |
| TerritoryProperties.GrantAnswersTruly | pkg/connector/territories.go:112-179 | for the membership or non-empty role that the slug is read as: "already exists" if and only if the view has its grant, and then nothing changes; else the reported grants are exactly what the view gains; the named grant, empty roles and slugs without the prefix are the subject of the next three rows and of EmptyRoleIsNeverShown |
| TerritoryProperties.NamedIsRequestedIff | pkg/connector/territories.go:150 | the grant a call works on is the one its id names if and only if the slug is "member" or has the prefix |
| TerritoryProperties.NamedInView | pkg/connector/territories.go:94-104 | the view has the named grant if and only if the id is regular and the user has that place |
| TerritoryProperties.GrantShowsNamedIff | pkg/connector/territories.go:112-179 | after a grant that does not fail the named grant is in the view if and only if the slug is "member" or the prefix with a non-empty role |
| TerritoryProperties.EmptyRoleIsNeverShown | pkg/connector/territories.go:150-178 | with an empty role "already exists" is answered if and only if the user is a member without a role, and the grant is never in the view |
| TerritoryProperties.AlreadyExistsIsTrueIff | pkg/connector/territories.go:112-179 | for every entitlement id, "already exists" is answered exactly when the view has the named grant, if and only if the user does not hold the role that an id without the prefix or with an empty role is read as |
| TerritoryProperties.AlreadyRevokedIsTrueIff | pkg/connector/territories.go:181-212 | for every entitlement id, "already revoked" is answered exactly when the view lacks the named grant, unless an id without the prefix spells the user's role |
| TerritoryProperties.EmptyRoleIsReported | pkg/connector/territories.go:150-165 | a grant of the empty role that is reported and never shown |
| TerritoryProperties.RoleChangeDropsOldRole | pkg/connector/territories.go:168-178 | a role grant removes from the view exactly the old role's grant |
| TerritoryProperties.ReportedRoleIsShownIffNamed | pkg/connector/territories.go:150-178 | the reported grants are in the view if and only if the role is not empty |
| TerritoryProperties.RevokeAnswersTruly | pkg/connector/territories.go:181-212 | for the membership or role that the slug is read as, also without the prefix and also when empty: "already revoked" if and only if the view lacks its grant, and then nothing changes; else the grant is gone, and every role with the membership |
| TerritoryEntitlements.GetTerritoryRoles | pkg/connector/client/salesforce.go:1299-1321 | the non-empty values among the first page of the picklist's active records |
| TerritoryEntitlements.StaticEntitlements | pkg/connector/territories.go:57-85 | the member slug, then one role slug per role |
| TerritoryEntitlements.ParseInvertsId | pkg/connector/territories.go:235-241 | parsing an entitlement id gives its slug back if and only if the resource id holds no colon, whatever the slug holds |
| TerritoryEntitlements.ParseMeans | pkg/connector/territories.go:235-241 | an id is refused exactly when it has fewer than two colons; else the slug is everything after the second |
| TerritoryEntitlements.RoleSlugRoundTrip | pkg/connector/territories.go:150 | trimming the prefix gives back every role name, and no role slug is "member" |
| TerritoryEntitlements.StaticSlugMeaning | pkg/connector/territories.go:64-82 | a slug is offered if and only if it is "member" or stands for a non-empty picklist value |
| TerritoryEntitlements.OfferedRolesAreActive | pkg/connector/client/salesforce.go:1297-1320 | a role is offered if and only if a record of the first page has it; every offered role is active, and every active one is offered when the records fit on one page |
| TerritoryEntitlements.OfferedGrantIsTrue | pkg/connector/territories.go:57-179 | from offer to grant: for every offered entitlement the answer and the reported grants are true of the view |
| TerritoryEntitlements.OfferedSlugsAreRegular | pkg/connector/territories.go:64-82 | no id without the prefix or with an empty role is offered |
| TerritoryEntitlements.UnprefixedIdIsMistaken | pkg/connector/territories.go:150-212 | an id without the prefix for which the grant answers "already exists" and the revoke takes another grant away, while no view has the named one |
| TerritoryEntitlements.EmptyRoleAlreadyExists | pkg/connector/territories.go:150-171 | a member without a role for whom the empty role "already exists" |
| TerritoryInterleaving.StepKeepsInv | pkg/connector/territories.go:128-212 | every step of every interleaving keeps uniqueness and keeps each planned write on its own pair |
| TerritoryInterleaving.RunKeepsInv | pkg/connector/territories.go:128-212 | the invariant holds in every reachable state |
| TerritoryInterleaving.ReachableStatesAreSound | pkg/connector/client/salesforce.go:1336-1436 | in every reachable state a pair has at most one association and at most one role, and a role only with the membership |
| TerritoryInterleaving.AnswersHoldInside | pkg/connector/territories.go:128-212 | every answer is true of the user's place in the territory, with the role the slug is read as, empty or not, at some instant between the call's read and its end; only a duplicate's role may be missing |
| TerritoryInterleaving.NamedAnswersHoldInside | pkg/connector/territories.go:128-212 | of the grant the id names: for regular ids a grant's answer is true at an instant inside the call, a duplicate's role excepted; with an empty role or without the prefix no state ever shows it; a revoke's answer is true at an instant for every id |
| TerritoryInterleaving.CarriedSeat | pkg/connector/client/salesforce.go:1336-1436 | the place that a planned write leaves, whatever happened since the read |
| TerritoryInterleaving.UninterruptedIsRun | pkg/connector/territories.go:112-212 | without interruption the two steps are the sequential call |
| TerritoryInterleaving.ClearErasesCurrentRole | pkg/connector/client/salesforce.go:1411-1435 | a clear erases the role that is there at the write: only the revoked one if and only if nobody changed it |
| TerritoryInterleaving.RevokeErasesOtherRole | pkg/connector/client/salesforce.go:1411-1435 | a run in which the revoke of one role is answered "revoked" and another role's grant, shown until then, disappears |
| TerritoryInterleaving.DuplicateIsTrueIff | pkg/connector/territories.go:155-162 | a refused duplicate's "already exists" is true of the named grant if and only if the membership was asked for, or a regular role that the other association has |
| TerritoryInterleaving.DuplicateHidesMissingRole | pkg/connector/territories.go:155-162 | a run in which a role grant is answered "already exists" though the user never has the role |
| OvertakenCalls.OvertakenRevokeRemovesItsLink | pkg/connector/client/salesforce.go:766-808 | whatever is written between the read and the deletion, a link revoke takes exactly its own grant out of the view, or fails without effect because the record is gone |
| OvertakenCalls.OvertakenGrantFailsIff | pkg/connector/permission_set_group.go:126-149 | a group grant after an empty read fails if and only if the assignment was made in between, and then the grant is in the view |
| OvertakenCalls.OvertakenGrantFails | pkg/connector/permission_set_group.go:126-141 | such a grant |
| OvertakenCalls.OvertakenClearErasesCurrentRole | pkg/connector/client/request.go:355-376 | the clear of a user's role erases the role that is there at the write: none but the named one if and only if nobody put another there |
| OvertakenCalls.OvertakenClearErasesOtherRole | pkg/connector/client/request.go:355-376 | a revoke that erases another role |
| Provisioning.Perform | pkg/connector/groups.go:170-212 | each call does what its outcome says, or is lost with or without effect |
| Provisioning.CallRefinesEffect | pkg/connector/groups.go:170-212 | for all six kinds, a call does to the view what its abstract effect says, and keeps the database valid |
| Provisioning.CallKeepsFacts | pkg/connector/client/request.go:317-395 | no call changes profiles, licenses or anybody's user type |
| Provisioning.RunRefinesFold | pkg/connector/permissions.go:112-243 | for every finite run, with writes lost anywhere, the view is the fold of the abstract effects |
| Provisioning.SyncAfterRunIsFold | pkg/connector/permission_set_group.go:84-175 | for every kind and resource, what the sync after a run emits is that resource's part of the fold |
| Provisioning.PagedSyncAfterRunIsFold | pkg/connector/permissions.go:112-243 | the same for the pages of the sync, however the server splits the results |
| Provisioning.CallFrames | pkg/connector/client/salesforce.go:966-1014 | a call changes no grant of another user or kind, nor, for kinds that are not single-valued, of another resource; the two assignment kinds leave each other alone |
| Provisioning.CallKeepsOneProfile | pkg/connector/profiles.go:148-220 | a user with exactly one profile has exactly one after any call |
| Provisioning.RunKeepsOneProfile | pkg/connector/profiles.go:148-220 | and after any run |
| Paging.Fetch | pkg/connector/client/request.go:67-88 | the server's answer to a query string or to a cursor of it |
| Paging.Query | pkg/connector/client/request.go:35-88 | the page, and the next url only when the response is not done |
| Paging.TokenLeadsOn | pkg/connector/client/request.go:84-88 | a page's token is empty exactly on the last page, and else leads to the page after it |
| ResourceSync.Grants | pkg/connector/groups.go:124-168 | one page of a builder's grants and its next token |
| ResourceSync.Sync | pkg/connector/territories_test.go:36-52 | following the tokens emits the grants of every record once and in order, for every split into pages, with one request a page |
| ResourceSync.SyncEmitsTheView | pkg/connector/territories.go:87-110 | what such a run emits is exactly the resource's part of the view |
| PermissionSync.ReadComponents | pkg/connector/client/salesforce.go:920-932 | a page is refused exactly when a record has no deletion flag or a null one; deleted components are kept |
| PermissionSync.Grants | pkg/connector/permissions.go:112-202 | one call of the two-phase machine |
| PermissionSync.SecondPhaseAnswers | pkg/connector/client/salesforce.go:920-932 | a page of components fails exactly when a record has no deletion flag or a null one; else each record, deleted or not, gives one grant in order, with its expansion id |
| PermissionSync.CursorReplaysInItsPhase | pkg/connector/permissions.go:126-128 | encoding and decoding a cursor gives it back in its phase if and only if it is of the second phase or does not begin with the prefix |
| PermissionSync.FirstPhaseContinuesIff | pkg/connector/permissions.go:126-201 | a first-phase token serves the next page of assignments if and only if it lacks the prefix, or that page and the page of components behind it are both empty and the same token follows |
| PermissionSync.PrefixCursorSkipsAssignments | pkg/connector/permissions.go:126-167 | any first-phase cursor that begins with the prefix serves no direct assignment and never leads back to one; one equal to the prefix goes on without an error |
| PermissionSync.PageAt | pkg/connector/permissions.go:112-202 | what every page of a run emits and which token it hands on |
| PermissionSync.SyncPermissionSet | pkg/connector/permissions.go:121-201 | the run from "" to "" terminates and emits every assignment and then every component, deleted or not, once and in order, in one request a page; if all requests are answered it fails exactly when a component has no deletion flag or a null one |
| PermissionSync.CompleteSyncIsView | pkg/connector/permissions.go:112-202 | what the run emits is exactly the permission set's part of the view |
| Expansion.IdsSeparateTypes | pkg/connector/resource_types.go:16-83 | equal entitlement ids are of the same resource type |
| Expansion.HandBuiltIdIsTheMemberEntitlement | pkg/connector/permissions.go:141-145 | the id built by hand is matched by the member entitlement of the named group and by nothing else in the sync |
| Expansion.MemberAccess | pkg/connector/permission_set_group.go:97-107 | the member entitlement is held by exactly the group's members |
| Expansion.AccessIsLiveIff | pkg/connector/client/salesforce.go:920-932 | expanded access is the access through components that are not deleted if and only if no deleted component gives a member access that is not live otherwise |
| Expansion.DeletedComponentGivesAccess | pkg/connector/permissions.go:140-157 | an organisation in which a deleted component still gives access |
| Expansion.ExpansionPreservesAccess | pkg/connector/permissions.go:140-190 | expanded access is exactly direct assignment or membership of a containing group, for every depth |
| UserLogins.GetUserLogin | pkg/connector/client/salesforce.go:1203-1245 | the first login record of a user, none, or an error for an unreadable flag |
| UserLogins.SingleTakesFirst | pkg/connector/client/salesforce.go:1203-1245 | by rows: the login told is that of the user's first record in the order of ids, field by field; none exactly for a user without a record; an error only for an unreadable flag |
| UserLogins.Collect | pkg/connector/client/salesforce.go:1175-1198 | putting a chunk's records into the map: the last record of a user wins, any unreadable flag fails the chunk |
| UserLogins.GetUserLoginsByUserIDs | pkg/connector/client/salesforce.go:1112-1201 | if all requests are answered it succeeds if and only if no chunk is paginated and all flags are readable; a success holds every requested user with a login, after ceil(n/250) queries |
| UserLogins.BatchTakesLast | pkg/connector/client/salesforce.go:1192-1198 | by rows: an entry of the batch tells the user's last record, field by field |
| UserLogins.BatchOmitsIff | pkg/connector/client/salesforce.go:1104-1111 | a requested user has no entry exactly when there is no record |
| UserLogins.BatchAgreesIff | pkg/connector/client/salesforce.go:1104-1111 | the batch agrees with the single lookup if and only if the user's first and last records are the same |
| UserLogins.BatchDiffers | pkg/connector/client/salesforce.go:1192-1226 | two login records for which the batch reports a frozen user and the single lookup does not |
| UserLogins.BatchIsMapOfSingles | pkg/connector/client/salesforce.go:1104-1111 | with at most one login per user the batch is the map of the single lookups, for every id list |
| UserSync.ReadUsers | pkg/connector/client/salesforce.go:296-324 | the kept users of a response; an unreadable flag, or an unreadable last login of a kept user, fails it |
| UserSync.BuildResource | pkg/connector/users.go:55-116 | a user is enabled if and only if active and not frozen; the email may be the user name; the account type comes from the user type and the license |
| UserSync.ReportTells | pkg/connector/users.go:55-116 | by rows: which field of the record each reported field is, the email by the option; enabled exactly when active and the last login record, if any, is not frozen |
| UserSync.ServiceAccounts | pkg/connector/users.go:29-52 | the user types and licenses that make a service account, spelled out |
| UserSync.GetUsers | pkg/connector/client/salesforce.go:262-326 | the kept users of a page and the next token; one unreadable flag or last login fails the page |
| UserSync.List | pkg/connector/users.go:124-171 | the kept users of a page joined with their logins; fails if and only if a flag or date is unreadable or the login query overflows |
| UserSync.SyncUsers | pkg/connector/users.go:124-171 | the run visits every page, also those filtered down to nothing, and reports every kept user once and in order |
| UserSync.SkipIsRedundant | pkg/connector/client/salesforce.go:275-284 | with non-standard users off, the client's type filter drops nothing the server kept |
| UserSync.SkippedTypes | pkg/connector/client/salesforce.go:43-49 | the user types that are skipped, spelled out |
| UserSync.SyncReportsWantedUsers | pkg/connector/client/salesforce.go:219-326 | a complete run reports exactly the users the two sync options ask for |
| UserSync.ReportedOnce | pkg/connector/users.go:153-168 | no user is reported twice |
| AccountRequest.CollectExtras | pkg/connector/users.go:232-248 | the extra fields are the non-null keys outside the schema, in whatever order the map is visited; any other kind of value is refused |
| AccountRequest.GetUserCreateRequestParams | pkg/connector/users.go:199-260 | a profile is accepted if and only if each required key holds a string and each extra value is null, string, number or bool |
| AccountRequest.AcceptableMeans | pkg/connector/users.go:199-260 | the same with the six required keys and the seven schema keys spelled out |
| AccountRequest.MergeExtras | pkg/connector/client/user.go:37-47 | extra fields overwrite what is there, in any order |
| AccountRequest.UserData | pkg/connector/client/user.go:37-60 | core fields overwrite extra fields, which overwrite defaults |
| AccountRequest.EmailIsUsername | pkg/connector/client/user.go:50-52 | the requested email is the user name and the email, whatever the extra fields say |
| AccountRequest.FieldsComeFromProfile | pkg/connector/client/user.go:37-60 | where each field of the new user comes from, read off the profile alone |
| AccountRequest.CoreFieldsAreSent | pkg/connector/client/user.go:50-57 | each of the seven core fields is sent with the text of its own profile key |
| AccountRequest.ExtrasAreSentUnchanged | pkg/connector/users.go:232-248 | an extra field is sent as it is, false as false and zero as zero; a null one is not sent |
| AccountRequest.SameProfileSameFields | pkg/connector/users.go:232-248 | the field map depends on the schema keys and the non-null extra keys only |
| AccountLookup.GetUserByEmail | pkg/connector/client/user.go:129-184 | the first typed user on the first page, "not found", or an error for an unreadable flag or date, from a fresh or a cached answer |
| AccountLookup.LookupTakesFirst | pkg/connector/client/user.go:183 | the user returned is the first record of the page with a user type, field by field |
| AccountLookup.UserExist | pkg/connector/client/user.go:72-88 | only "not found" counts as absence |
| AccountLookup.Server.ClearCaches | pkg/connector/client/user.go:102-106 | clears every cached answer, or fails |
| AccountLookup.Server.SendResetPasswordEmail | pkg/connector/client/user.go:186-197 | mails one user; a lost reply may hide a sent mail |
| AccountLookup.GetUserByEmailWithRetry | pkg/connector/client/user.go:90-127 | at most three reads at delays 0, 1 and 3, each past the cache; stops at once on any answer but "not found", and does not wait after the last |
| AccountLookup.ElapsedClosedForm | pkg/connector/client/user.go:115-123 | n reads wait n(n-1)/2 units in all |
| AccountLookup.Attempt | pkg/connector/client/user.go:100-112 | one attempt never uses a cached answer |
| AccountLookup.LookupFindsIff | pkg/connector/client/user.go:148-183 | for every page: a lookup succeeds if and only if all records are readable and one has a user type, and is "not found" if and only if none has |
| AccountLookup.RetrySucceedsIff | pkg/connector/client/user.go:90-127 | for every world: the loop succeeds if and only if the first of its pages that is not blank is usable |
| AccountLookup.RetryFindsIff | pkg/connector/client/user.go:90-127 | for readable users that fit on one page: the loop finds one if and only if one is visible three units after the first read |
| AccountLookup.RetryAnswers | pkg/connector/client/user.go:90-127 | the returned user is visible, typed and of that email at one of the read times, the first such in the order of ids, and every earlier read saw a blank page |
| AccountCreation.CreateUser | pkg/connector/client/user.go:26-70 | a bad address or time zone is refused before the request; else the server's answer to the merged fields |
| AccountCreation.NewUserNamed | pkg/connector/client/user.go:50-52 | the new row carries the requested email as name and email |
| AccountCreation.Prepare | pkg/connector/users.go:307-333 | on any two answers, fresh or cached: a user found twice is activated at most, one not found is created, any other answer ends the run |
| AccountCreation.Report | pkg/connector/users.go:335-358 | the mail goes to the user that is returned |
| AccountCreation.CreateAccount | pkg/connector/users.go:289-360 | a bad profile changes nothing; else one run takes place, complete or cut short by a lost request, and a success has mailed exactly the returned user; with nobody else acting in between (see the AccountInterleaving rows for the rest) |
| AccountInterleaving.AtMostOneUserCreated | pkg/connector/users.go:289-360 | with other runs, other writers, time and expiry between any two requests: at most one user has a name, and unless users are deleted whoever has it keeps it alone |
| AccountInterleaving.MailGoesToReturnedUser | pkg/connector/users.go:335-358 | in every reachable state a run has sent at most one mail, and a success exactly one, to the user it returns |
| AccountInterleaving.CacheIsRecent | pkg/connector/client/user.go:100-107 | while a run stands between clearing the caches and its read, the cache holds answers from after the clearing only, whichever run put them there |
| AccountInterleaving.ReturnedUserWasThere | pkg/connector/client/user.go:90-127 | the user a run returns was, in the order of ids, the first typed, readable, visible user of the email at an instant inside the attempt that found it |
| AccountInterleaving.FirstStageIsPrepared | pkg/connector/users.go:302-333 | uninterrupted, the requests before the retry loop are the sequential first stage |
| AccountInterleaving.AttemptsAreRetried | pkg/connector/client/user.go:90-127 | uninterrupted, the attempts are the sequential retry loop |
| AccountInterleaving.ReportingIsConcluded | pkg/connector/users.go:335-358 | uninterrupted, the mail and the login read are the sequential second stage |
| AccountProperties.PreparedNeverTwice | pkg/connector/users.go:307-333 | a run gives nobody a name that somebody has, and nobody a name twice |
| AccountProperties.AtMostOneUserCreated | pkg/connector/users.go:289-360 | over any history of whole runs and of creations, updates and deletions by anybody else, with lost requests, stale answers and a lagging index, at most one user has a name, and unless users are deleted whoever has it keeps it alone |
| AccountProperties.CreatesIff | pkg/connector/users.go:307-333 | a run adds its user if and only if the lookup says "not found", the request is well formed and the name is free; it fails as a duplicate, without effect, if and only if the name is taken instead |
| AccountProperties.OtherAnswersEndTheRun | pkg/connector/users.go:307-311 | any other answer to the lookup is the answer of the run, without effect |
| AccountProperties.NewUserHolds | pkg/connector/client/user.go:37-60 | what the new row holds as name, email, profile, activity and role, read off the profile |
| AccountProperties.HiddenUserIsRefused | pkg/connector/client/user.go:139-183 | users without a user type, or with the email as name only, for whom a run fails as a duplicate without any lag |
| AccountProperties.LaggingIndexIsRefused | pkg/connector/users.go:307-333 | an existing user for whom a run fails as a duplicate |
| AccountProperties.ReturnedUserIsActiveIff | pkg/connector/users.go:313-343 | on any answers, also stale ones: the returned user is active if and only if it was, or is the answered user and was called inactive |
| AccountProperties.StaleAnswerLeavesInactive | pkg/connector/users.go:313-326 | a stale answer for which a run succeeds and the user stays inactive |
| AccountProperties.AccountTypeAgreesIff | pkg/connector/users.go:37-52 | a run and a sync report the same account type if and only if the license does not make a service account, or the user type does |
| AccountProperties.AgentIsReportedHuman | pkg/connector/client/user.go:166-175 | a license for which they differ |
| AccountProperties.ExistingUserIsKept | pkg/connector/users.go:307-343 | a user that a fresh lookup finds is not recreated, is active afterwards, and is the one returned and mailed; the run fails only on its login record |
| AccountProperties.NewUserIsFoundIff | pkg/connector/users.go:328-343 | a new user is found if and only if its record is readable, it has a user type and it becomes visible within three units, and then it is the one returned |
| AccountProperties.ReturnedUserHasTheEmail | pkg/connector/users.go:335-358 | a success returns and mails, of the typed users with the requested email that are visible after 0, 1 or 3 units, the first in the order of ids; enabled if and only if active and not frozen |
| Selectors.Append | pkg/connector/client/query.go:157 | appending writes in place exactly when the slice has room |
| Selectors.SelectedMeans | pkg/connector/client/query.go:150-164 | the wildcard selects all fields; else the given fields or, without any, those of the table, and always the id |
| Selectors.Catalog.NewQuery | pkg/connector/client/query.go:150-164 | a query gets an array of its own if and only if the caller's slice is not the wildcard and has no room, and then changes neither the shared field mapping nor the selectors of another query |
| Selectors.RoomIsShared | pkg/connector/client/query.go:150-164 | with room in a slice, two queries would share one array and the second would overwrite the first |

## Left out

- HTTP transport, login, token sources, client initialisation, request retries and rate limits: wrappers over libraries that are not part of this model.
- SOQL text, its quoting, and case-insensitive comparison in Salesforce: a query is a conjunction of exact comparisons over rows in id order.
- A server whose first page is empty although the result is not: the reads of a single record (`getSObject`, `GetUserLogin`, the profile and license reads) would then miss it.
- A write that arrives after its caller has already been told it was lost: a lost write happens at once or never.
- The syntax of dates, addresses and time zones: a record's date either parses or not, and the other two are inputs of `CreateUser`.
- Failures while a user resource is assembled from its parts: that is code of the SDK.
- The resource `List` methods other than that of users, agents, connected applications, and configuration: plain paging with the same token loop.
- The SDK's own storage and grant expansion: `Expansion.HasAccess` is a relational specification of expansion.
- Cancellation of the context during the retry's pauses: it would end the run like a lost request.
- Caching of queries other than the lookup by email.
- UserFields.SetValue: the read before the patch only tells whether the user exists, which the patch does as well; in the interleaved modules the two are one step.
- Profiles.Revoke: its chain of reads is one instant; profiles and licenses that others replace between the reads are not followed.
- Renaming of users by other writers: among the fields of a user, the user name and the user type are never patched.
- TerritoryEntitlements.GetTerritoryRoles: the query asks for no order; the model keeps id order.
- Territories.Grant: an empty resource id is outside the view lemmas, since no row with one is ever synced.
- UserSync.ReportedOnce: takes distinct ids of the queried records as given by the server's primary key.
- AccountLookup.RetryFindsIff: is in terms of visibility, which decides only when the users of the email fit on the page that is read and are readable; AccountLookup.RetrySucceedsIff covers the rest.
- AccountLookup.GetUserByEmailWithRetry: requests take no time, only the pauses do.
- TerritoryInterleaving.AnswersHoldInside: a call that fails or whose reply is lost promises nothing.
