# Verified model of the Matrix identity admin

The application gives an admin one place to act on three upstream systems: Keycloak (identities), the Matrix
Authentication Service or MAS (accounts and sessions) and Synapse (rooms). It decides who belongs in which room from a
table of policy bindings, and it records what it did in an audit table. This project models that logic in Dafny and
proves what an admin may rely on. `dafny verify dfyconfig.toml` checks all of it.

## How the model is built

**One world, calls that may fail.** `Upstream.World` holds Keycloak, MAS, the Matrix rooms, the audit table and a trace of
every call. Each call of a workflow is one `Attempt`. Whether it goes through is decided by a fault script, which may be
any function from call numbers to booleans. A failed call changes the trace only; a successful one has its effect. So
"under every fault script" means: whatever fails, at whatever point, as often as it likes.

**Methods against specifications.** The workflows are methods with the loops, early returns and warning vectors of the
source, working on a `Services` object whose state changes with every call. Each is proved equal, call for call, to a
function over worlds. The properties are lemmas about those functions.

**One room as one user sees it.** A `RoomView` holds membership, power level, and how often the user was joined, kicked
and given a level. Every list of bindings folds over such a view (`DecideAll`), and the workflows are proved to refine that
fold. This is what makes final-state, preview, retry and bulk results statements about a simple list.

The modules, in reading order:

- `Upstream`, `Policy`, `Rooms`: the world, the bindings, and the room steps that workflows share.
- `Requirements`: who belongs in which room, said independently of any workflow.
- `Reconcile`, `Decisions`, `ReconcileResults`, `Isolation`, `Preview`: room reconciliation of one user.
- `Bulk`, `BulkResults`, `BulkSoundness`, `BulkPages`, `BulkIsolation`, `UnknownRoles`: reconciliation of everyone.
- `Lifecycle`, `OffboardResults`, `OffboardOrder`: offboarding. `Delete`: deletion.
- `Steps`, `OffboardSteps`, `DeleteSteps`: which steps the two take, whatever fails, read off the trace.
- `AuditTrail`, `StaysOut`: workflows one after the other, and what the audit table then says.
- `PolicyTable`, `PolicyHistory`, `PolicyResults`: the bindings table over time, and what its order means.
- `TokenCache`, `KeycloakClient`: the shared admin token, as interleaved steps and as an object with fields.
- `Text`, `Calendar`, `Timestamps`, `AuditQuery`, `Csv`: audit timestamps, text filters, pages and the export.
- `InviteEmail`: the invite address grammar.

## Where the code does not do what one might expect

Each of these is proved with its exact condition, for all inputs, and with a concrete run in which it happens:

- The dry-run preview is right about a room except exactly when one binding moves the user and a later one moves the user
  back: it judges every binding by where the user is now (`Preview.PreviewIsExactIff`, `Preview.PreviewMayMislead`).
- A second reconcile run is quiet in a room exactly when no two bindings conflict there; otherwise the user is moved again
  on every run, and ends in the same place (`ReconcileResults.SecondRunIsQuietIff`, `ReconcileResults.SecondRunMayRepeat`).
- A retry repairs membership, but a power level only where it sets one itself: a user whom the failed run has already
  joined is skipped (`ReconcileResults.RetryPower` for any room, `ReconcileResults.RetryDoesNotRepairPower`).
- In a bulk run, a user whose roles cannot be fetched counts as having none, and loses exactly the rooms that are owed to a
  role (`UnknownRoles.UnknownRolesMatterIff`, `UnknownRoles.UnknownRolesMayRemove`).
- A deletion closes the MAS account exactly when it was closed before or could be looked up; an account left open stays
  open, since deleting again cannot reach it (`Delete.DeletionClosesAccountIff`, `Delete.LeftoverAccountIsPermanent`,
  `Delete.AccountMayBeLeft`).
- A bootstrap whose mark could not be written is repeated at the next start and brings deleted bindings back
  (`PolicyHistory.BootstrapChangesNothingIff`, `PolicyHistory.DeletedComesBackIff`,
  `PolicyHistory.UnmarkedBootstrapRepeats`).
- The policy engine design (`docs/plans/2026-03-09-dynamic-policy-engine-design.md`, line 186) promises audit entries for
  power levels, too. The code writes none. So a reconcile run reports all its changes exactly when its bindings join the
  user to no room with a power level (`AuditTrail.ReconcileReportsAllIff`, `AuditTrail.TableIsTheChangesIff`,
  `AuditTrail.LevelIsNotReported`).
- Timestamps sort as text up to the end of year 9999 and no further (`Timestamps.TextOrderHoldsIff`,
  `Timestamps.Year10000SortsFirst`).
- A CSV reader that takes CRLF, too, for the end of a record gets the exported rows back exactly when no unquoted last field
  ends in CR (`Csv.ExportCsv`, `Csv.ReceivedIff`, `Csv.CrMayBeCut`).

## Model

| member | source | states |
|---|---|---|
| Rooms.ExpandTargets | src/services/reconcile_membership.rs:18-35 | a room expands to itself and its children, in order; when the children are unknown, to itself with one warning |
| Rooms.HonestKickOne | src/services/reconcile_membership.rs:150-203 | one kick visit, whatever fails: it is logged with its true result, it directly follows a successful read, and the warnings are those for the calls that failed, a lost audit entry first |
| Rooms.KickOneOnView | src/services/reconcile_membership.rs:150-203 | one kick visit changes nothing but this user in this room, by one kick at most; without failures the user is out |
| Rooms.KickVisitCalls | src/services/reconcile_membership.rs:150-203 | the calls of a kick visit, whatever fails: the read, and after a successful read of a present user the kick and one entry with both ids, the action, the room, the subject and the true result; nothing else |
| Rooms.KickTargets | src/services/reconcile_membership.rs:148-204 | the backward loop visits the targets in reverse order, and a failure in one room does not stop the next |
| Rooms.KickRoomsOnView | src/services/reconcile_membership.rs:148-204 | a kick loop touches only the listed rooms and only that user, whatever fails; without failures the user is out of each of them with at most one kick |
| Reconcile.HonestJoinOne | src/services/reconcile_membership.rs:87-145 | one join visit, whatever fails: the join is logged with its true result, it directly follows a successful read, and the warnings are those for the calls that failed, in order |
| Reconcile.JoinOneOnView | src/services/reconcile_membership.rs:87-145 | one join visit changes nothing but this user in this room, and nothing at all unless the user was absent and is joined; without failures the user is in, with the binding's power level if newly joined |
| Reconcile.JoinVisitCalls | src/services/reconcile_membership.rs:87-145 | the calls of a join visit, whatever fails: the read; after a successful read of an absent user the join and one entry with both ids, the room, the subject and the true result; after a successful join the binding's power level, even if the entry was lost; nothing else |
| Reconcile.BindingEntries | src/services/reconcile_membership.rs:105-126 | whatever fails, all entries written for a binding name the user's two ids, the binding's subject and the action that fits |
| Reconcile.JoinTargets | src/services/reconcile_membership.rs:85-146 | the forward loop, going on after failures |
| Reconcile.VisitBinding | src/services/reconcile_membership.rs:80-206 | one binding: expansion, then joins for a match, kicks for a removing non-match, nothing otherwise |
| Reconcile.ReconcileMembership | src/services/reconcile_membership.rs:67-209 | the whole run makes the calls, and returns the warnings, of the bindings one after the other |
| Reconcile.BindingOnView | src/services/reconcile_membership.rs:80-206 | one binding changes only rooms it covers, only for this user and only if it decides; without failures it does exactly what the binding says for that room |
| Reconcile.ReconcileIsHonest | src/services/reconcile_membership.rs:67-209 | under every fault script: audit writes report the joins and kicks one for one, in order, with true results; the warnings are, in order, exactly those for the calls that failed; every join or kick directly follows a successful read of that room; Keycloak, MAS and the space graph are untouched |
| Reconcile.ReconcileTouchesDecidedRoomsOnly | src/services/reconcile_membership.rs:80-206 | under every fault script other users, and rooms no deciding binding covers, keep membership and power level and see no call |
| Reconcile.ReconcileVisitsInOrder | src/services/reconcile_membership.rs:80-152 | whatever fails, rooms are read in binding order: a space before its children for joins, the last child first and the space last for kicks, and a room alone when its children are unknown |
| Reconcile.ReconcileExpandsAll | src/services/reconcile_membership.rs:80-83 | whatever fails, the room of every binding is expanded, once per binding and in list order |
| Reconcile.ReconcileRefinesDecisions | src/services/reconcile_membership.rs:80-206 | a failure-free run leaves every room, its power level and the number of joins and kicks as the fold of the bindings over that one room |
| Reconcile.WarningFreeIsFailureFree | src/services/reconcile_membership.rs:67-209 | a run without warnings made the same calls and reached the same state as the run in which nothing fails |
| Decisions.LastDecides | src/services/reconcile_membership.rs:80-206 | the last deciding binding fixes membership, whatever came before |
| Decisions.AgreedRoomIsQuiet | src/services/reconcile_membership.rs:80-206 | a list of bindings changes nothing in a room if and only if every deciding one wants what already holds |
| Decisions.MovedAway | src/services/reconcile_membership.rs:80-206 | the user leaves the initial state at some point if and only if some deciding binding wants that |
| Decisions.MovedBack | src/services/reconcile_membership.rs:80-206 | the user returns to the initial state if and only if one binding moves the user and a later one moves the user back |
| Decisions.AgreedRoomMovesOnce | src/services/reconcile_membership.rs:80-206 | a room on which the deciding bindings agree is acted on at most once |
| Decisions.FirstMatchSetsPower | src/services/reconcile_membership.rs:133-145 | for an absent user the first matching binding joins, and its power level is the one that stays |
| Decisions.SettledMeansConflictFree | src/services/reconcile_membership.rs:80-206 | after a run the room agrees with all its bindings if and only if no two of them conflict |
| Decisions.LevelOfFold | src/services/reconcile_membership.rs:133-145 | the power level ends as the last one that the bindings set, and is kept if and only if they set none |
| ReconcileResults.NoWarningsMeansNothingFailed | src/services/reconcile_membership.rs:67-209 | no warnings if and only if no call failed, an audit write included; the run is then the failure-free run, and the failure-free run never warns |
| ReconcileResults.LastDecidingBindingWins | src/services/reconcile_membership.rs:80-206 | after a warning-free run the user is in a room exactly if the last binding in list order that covers it and decides is a match |
| ReconcileResults.RunGivesWhatBelongs | src/services/reconcile_membership.rs:39-48 | after a warning-free run the user is in a room if and only if the user belongs there: the last binding that reaches the room, and either names a group or role of the user or removes, says so |
| Isolation.TroubleElsewhereIsHarmless | src/services/reconcile_membership.rs:61-63 | whatever else fails: if no call that concerns the user's place in a room failed, the room, its power level and its joins and kicks are as the bindings decide |
| Isolation.UntroubledRoomIsRight | src/services/reconcile_membership.rs:61-63 | then the user is in that room if and only if the user belongs there |
| ReconcileResults.OthersAreUntouched | src/services/reconcile_membership.rs:80-206 | under every fault script, everyone else and every undecided room are left as they were |
| ReconcileResults.RetryRepairsMembership | src/services/reconcile_membership.rs:61-209 | however a first run fails, a warning-free second one ends with the membership of one failure-free run; with no failure at all, two runs are as good as one |
| ReconcileResults.SecondRunIsQuietIff | src/services/reconcile_membership.rs:80-206 | a second failure-free run leaves a room alone if and only if no two bindings conflict on it |
| ReconcileResults.SecondRunMayRepeat | src/services/reconcile_membership.rs:80-206 | a concrete input: a group throws the user out, a role lets the user in, and every run kicks and joins again |
| ReconcileResults.ScriptsAgree | src/services/reconcile_membership.rs:67-209 | a run depends on the faults of its own calls only |
| ReconcileResults.OneActionPerRoom | src/services/reconcile_membership.rs:80-206 | on a conflict-free room one run makes at most one join or kick |
| ReconcileResults.FirstMatchGivesPower | src/services/reconcile_membership.rs:133-145 | a user joined to a conflict-free room has the power level of the first matching binding that covers it |
| ReconcileResults.MatchedRoomAllOrNothing | src/services/reconcile_membership.rs:86-146 | where all deciding bindings match, a present user is never touched, and a run that leaves the user absent has done nothing there, whatever fails |
| ReconcileResults.RetryPower | src/services/reconcile_membership.rs:100-145 | for any room, the power level after a failed run and a retry, and after one failure-free run: the last level the bindings set, given where the user stands when the run starts, else the level found there |
| ReconcileResults.RetryPowerWhereMatched | src/services/reconcile_membership.rs:100-145 | where all deciding bindings match, a retry yields the failure-free level exactly where it still has to join, and otherwise keeps the level the failed run left |
| ReconcileResults.RetryDoesNotRepairPower | src/services/reconcile_membership.rs:133-145 | a concrete run: the level call fails, the retry skips the member, and the configured level is never set |
| Preview.PreviewOneNames | src/services/reconcile_membership.rs:249-276 | one visit lists its own room only, as a join or a kick only if the binding wants the user moved; without failures it does list it |
| Preview.PreviewMembership | src/services/reconcile_membership.rs:237-281 | the nested loops gather actions and warnings in binding and target order |
| Preview.PreviewOnlyReads | src/services/reconcile_membership.rs:229-281 | whatever fails, a preview changes none of the systems and writes no audit entry |
| Preview.PreviewNamesFailures | src/services/reconcile_membership.rs:250-262 | whatever fails, the warnings of a preview are, in order, exactly those for the calls that failed |
| Preview.PreviewLists | src/services/reconcile_membership.rs:264-277 | whatever fails, each listed join, kick or correct room has the room, subject and power level of a binding that asks for it, judged by where the user is now; and all such entries for a room are listed unless a call that concerns the room failed |
| Preview.FailureFreePreview | src/services/reconcile_membership.rs:244-278 | when nothing fails, the three lists are complete and in order: binding by binding, the space before its children |
| Preview.PreviewNames | src/services/reconcile_membership.rs:244-278 | whatever fails, a room is listed as a join or a kick only if some deciding binding disagrees with where the user is now; without failures all such rooms are listed |
| Preview.PreviewIsExactIff | src/services/reconcile_membership.rs:237-281 | the preview announces exactly the joins and kicks the failure-free run makes in a room, if and only if the bindings do not move the user there and back |
| Preview.PreviewMayMislead | src/services/reconcile_membership.rs:237-281 | a concrete input: a kick is announced and no join, and the run makes both |
| Preview.ConflictFreeNeverFlipsBack | src/services/reconcile_membership.rs:237-281 | so on conflict-free rooms previews are exact |
| Bulk.ReconcileUser | src/handlers/bulk_reconcile.rs:74-130 | disabled users and unknown groups are skipped, unknown roles count as none, and warnings carry the username |
| Bulk.ReconcilePage | src/handlers/bulk_reconcile.rs:74-130 | one page, in order, with the two counters |
| Bulk.ReconcilePages | src/handlers/bulk_reconcile.rs:60-136 | the paging loop ends, at an empty or a short page, and fails as a whole only when a page cannot be listed |
| Bulk.BulkReconcile | src/handlers/bulk_reconcile.rs:40-136 | the request is refused without Synapse, when users cannot be counted or exceed the limit, or when the bindings cannot be read, and otherwise is the paging loop |
| BulkResults.EveryUserOnce | src/handlers/bulk_reconcile.rs:59-136 | under every fault script a request that answers has counted each user once and asked for the groups of each enabled one exactly once and in order; the users processed are exactly those whose groups were fetched, and for each of them in turn, and nobody else, the rooms of all bindings were expanded in order |
| BulkResults.UserIsReconciledAsFetched | src/handlers/bulk_reconcile.rs:74-118 | whatever fails: a disabled user, or one whose groups cannot be fetched, is skipped without a change; any other is reconciled under both ids with the fetched groups, and with the roles if those were fetched |
| BulkResults.BulkIsUserByUser | src/handlers/bulk_reconcile.rs:59-136 | without failures each enabled user ends, in every room, where reconciling that user alone from the start would end, and nobody else is touched |
| BulkResults.BulkGivesWhatBelongs | src/handlers/bulk_reconcile.rs:59-136 | without failures each enabled user of the directory ends up in exactly the rooms where the user belongs by group and role |
| BulkIsolation.TroubleForOthersIsHarmless | src/handlers/bulk_reconcile.rs:83-130 | whatever else fails: an enabled user is right in a room unless a call failed that concerns the user's groups or roles, or the user's place in that room |
| BulkResults.AnyOrderOfUsers | src/handlers/bulk_reconcile.rs:59-136 | without failures the final rooms and power levels are those of taking the users one by one in any order |
| BulkResults.BulkLeavesOthersAlone | src/handlers/bulk_reconcile.rs:74-78 | under every fault script, even when the request fails half-way, whoever is no enabled user of the directory is joined nowhere, kicked nowhere, and keeps every power level |
| BulkSoundness.BulkIsSound | src/handlers/bulk_reconcile.rs:40-136 | under every fault script the audit writes of a bulk run report every mutation truly and in order, an answer has one warning for each failed call, and a refusal has its reason |
| BulkSoundness.BulkWithoutWarnings | src/handlers/bulk_reconcile.rs:59-136 | an answer without warnings is the answer and the state of the run in which nothing fails |
| BulkSoundness.UserWarnings | src/handlers/bulk_reconcile.rs:85-123 | the warnings of a user's run bear the user's name and are, in order, exactly those for the calls that failed |
| BulkSoundness.BulkWarnings | src/handlers/bulk_reconcile.rs:59-136 | the warnings of an answer are, in order, exactly those for the calls that failed |
| BulkPages.PagesAreHundreds | src/handlers/bulk_reconcile.rs:59-136 | whatever fails, an answered request searched for users at 0, 100, 200 and so on, up to the first page that is not full |
| BulkPages.FailureFreeAnswersIff | src/handlers/bulk_reconcile.rs:47-58 | when nothing fails, the request is answered if and only if there is Synapse and at most a thousand users |
| UnknownRoles.ForgettingRoles | src/services/reconcile_membership.rs:44-47 | without the roles the bindings leave the user in a room if and only if they do so with the roles and the room is not owed to a role |
| UnknownRoles.UnknownRolesMatterIff | src/handlers/bulk_reconcile.rs:96-107 | when the roles are the only thing that could not be fetched, the user is left in a room if and only if the run with the roles would and the room is not owed to a role |
| UnknownRoles.UnknownRolesMayRemove | src/handlers/bulk_reconcile.rs:96-107 | a concrete run: one failed lookup of roles, and the user is kicked from a room the user's role gives access to |
| StaysOut.OffboardedStaysOut | src/handlers/bulk_reconcile.rs:74-78 | a user offboarded without warnings stays out of every mapped room through a later bulk run over what Keycloak then lists, with any bindings and any faults |
| Lifecycle.ListActiveSessions | src/clients/mas.rs:188-213 | both session families are fetched, and a family that fails is skipped with a warning |
| Lifecycle.RevokeAuthSessions | src/services/lifecycle_steps.rs:23-102 | lookup, listing and one logged attempt for each unfinished session; no failure aborts |
| OffboardResults.LogoutStep | src/services/lifecycle_steps.rs:108-149 | the logout stays in scope and its audit entry is true; warnings are those for the calls that failed, and without any the user is logged out |
| OffboardResults.GateIsSound | src/services/lifecycle_steps.rs:155-190 | up to the fatal disable step: an error, for a lost audit entry, too, means a failed call, and otherwise the warnings so far are exactly those for the calls that failed |
| OffboardResults.DeactivateIsSound | src/services/lifecycle_steps.rs:237-273 | the fatal deactivation: its audit entry is true, an error means a failed call or a lost entry, and success means that neither failed |
| Lifecycle.KickFromAllMappedRooms | src/services/lifecycle_steps.rs:335-426 | each binding room not seen before is expanded and emptied of the user, children first |
| Lifecycle.RemoveUser | src/services/offboard_user.rs:80-124 | the steps behind the gate: rooms if Synapse is there, a warning if it is missing and rooms are mapped, then the account; a failed lookup is a warning, a failed deactivation an error |
| Lifecycle.OffboardUser | src/services/offboard_user.rs:24-125 | the five steps in order, with their early returns and warnings |
| OffboardResults.ListActiveStep | src/services/lifecycle_steps.rs:48-66 | the listing holds only the account's sessions and, without warnings, every unfinished one |
| OffboardResults.KickAllMappedStep | src/services/lifecycle_steps.rs:335-426 | kicks stay within the mapped rooms whatever fails; a warning-free run leaves the user in no expanded room, skipped duplicates included |
| OffboardResults.OffboardEffects | src/services/offboard_user.rs:24-125 | under every fault script offboarding changes nothing outside its scope (this user's Keycloak record, sessions, account and mapped rooms), and `Ok` with no warning but the one for a missing Synapse means the whole scope is done |
| OffboardResults.OffboardIsSound | src/services/offboard_user.rs:24-125 | under every fault script the audit writes report every mutation truly and in order, an error means a failed call, and otherwise the warnings are, in order, exactly those for the failed calls, with the one for a missing Synapse among them if rooms are mapped |
| OffboardSteps.OffboardTakesItsSteps | src/services/offboard_user.rs:35-124 | whatever fails: a fetched user is looked up, logged out and disabled, each tried exactly once and in this order; only a user who was disabled, with the entry written, gets to the rooms (each expanded once) and to the account step, which is always tried then; the result is an error if and only if the fetch, the disabling, the deactivation, or the entry about one of the latter two failed |
| OffboardSteps.OffboardTriesFetchedSessions | src/services/lifecycle_steps.rs:58-99 | whatever fails, the run tries to finish every unfinished session of each family it could fetch |
| OffboardSteps.UntroubledRoomsAreEmptied | src/services/lifecycle_steps.rs:330-334 | whatever else fails, a mapped room is empty of the user afterwards unless a call that concerns this room failed |
| OffboardSteps.OffboardEntries | src/services/offboard_user.rs:35-125 | whatever fails, every entry of a run names the user's two ids and, where it has one, the username |
| OffboardSteps.MappedRoomEntries | src/services/lifecycle_steps.rs:388-413 | the entries about rooms name the subject of the binding that maps them |
| OffboardSteps.MissingSynapseIsSaid | src/services/offboard_user.rs:94-98 | a run that gets through without Synapse although rooms are mapped says so |
| OffboardResults.SuccessMeansOffboarded | src/services/offboard_user.rs:15-125 | `Ok` without warnings: sessions finished, logged out, disabled, absent from every expanded mapped room, account deactivated, and nothing else changed |
| OffboardResults.CleanRunMeansOffboarded | src/services/offboard_user.rs:80-124 | the same without Synapse, where rooms are out of scope and one warning says so |
| OffboardResults.FailureFreeSucceedsIff | src/services/offboard_user.rs:80-98 | without failures offboarding succeeds without warnings if and only if the user exists and either Synapse is configured or no room is mapped |
| OffboardResults.PartialCleanupKeepsGoal | src/services/offboard_user.rs:39-124 | any partly done clean-up has the same goal state as the start |
| OffboardResults.RetryConverges | src/services/offboard_user.rs:39-124 | after any number of runs failing anywhere, one failure-free run leaves Keycloak, MAS and Matrix as a single failure-free run from the start would, with or without Synapse and mapped rooms |
| OffboardResults.CleanRetryConverges | src/services/offboard_user.rs:39-124 | it need not be failure-free: any run with no warning but the one for a missing Synapse will do |
| OffboardOrder.NothingRemovedBeforeDisable | src/services/offboard_user.rs:66-124 | at every point of every run, a room kick or account deactivation comes after this run disabled the Keycloak account |
| OffboardOrder.SeenRoomsMayBeSkipped | src/services/lifecycle_steps.rs:347-353 | when neither run has warnings, the set of seen rooms does not change who is left in which room, compared with visiting every binding |
| OffboardOrder.EachRoomExpandedOnce | src/services/lifecycle_steps.rs:347-377 | whatever fails, the rooms expanded are the binding rooms without repetition, in order of first mention |
| OffboardOrder.UnseenRoomsAreExact | src/services/lifecycle_steps.rs:347-353 | that list holds every binding room not seen before, once |
| OffboardOrder.EachRoomKickedOnce | src/services/lifecycle_steps.rs:379-423 | whatever fails, the user is kicked from a room at most once, nobody is joined and nobody else is touched |
| OffboardOrder.SpaceIsVisitedLast | src/services/lifecycle_steps.rs:355-388 | whatever fails, children are visited before their space, the last one first |
| Delete.RecordNames | src/services/delete_user.rs:95-132 | the warnings of a result are, in order, exactly those for the calls that failed, the removal of the record included |
| Delete.DeleteUserAccount | src/services/delete_user.rs:40-133 | lookup, deactivation and removal with their early returns |
| Delete.DeleteIsSound | src/services/delete_user.rs:40-133 | under every fault script the audit writes report every mutation truly, an error means a failed call, and otherwise the warnings are, in order, exactly those for the failed calls |
| Delete.DeleteOutcomes | src/services/delete_user.rs:11-25 | what each result means: `Deleted` without warnings removed the record and deactivated the account and nothing else; a partial failure left the record and a deactivated account; `Deleted` with a warning left the account as it was |
| DeleteSteps.DeleteTakesItsSteps | src/services/delete_user.rs:49-132 | whatever fails: the steps of a deletion in order; an error if and only if the fetch or the deactivation or an entry failed, or the record stayed without a deactivation; otherwise a partial failure if and only if the record stayed |
| DeleteSteps.DeleteEntries | src/services/delete_user.rs:77-118 | whatever fails, both entries name the user's ids and username, and the one about the record says whether a deactivation came before |
| Delete.FailureFreeDeletesIff | src/services/delete_user.rs:40-133 | without failures exactly the known users are deleted, without warnings |
| Delete.RetryConverges | src/services/delete_user.rs:49-132 | after any number of failing runs that leave the record, one successful run ends where a single failure-free run from the start ends |
| Delete.RecordGoesLast | src/services/delete_user.rs:53-97 | the record is attempted only after the account was deactivated, found missing, or could not be looked up |
| Delete.DeletionClosesAccountIff | src/services/delete_user.rs:53-67 | given that the record was deleted, the account is deactivated if and only if it was so before or could be looked up |
| Delete.LeftoverAccountIsPermanent | src/services/delete_user.rs:49-65 | an account left active by a deletion stays active however often the deletion is tried again |
| Delete.AccountMayBeLeft | src/services/delete_user.rs:55-65 | a concrete run: only the lookup fails, the record goes and the account stays active |
| Upstream.LogIsTheMutations | src/services/audit_service.rs:21-44 | with no failed audit write, the stored entries read back as the claimed events, in order |
| AuditTrail.TableIsTheMutations | src/services/audit_service.rs:21-44 | after any sequence of reconcile, offboard, delete and bulk runs, whatever failed among the other calls and provided no audit write failed, the audit table is exactly the sequence of attempted joins, kicks, session ends, logouts, disables, deletions and deactivations with their true results; power levels are not among them |
| AuditTrail.EveryActionCanBeFiltered | src/handlers/audit.rs:12-34 | the action of every entry that these workflows write is one the audit page can filter by |
| AuditTrail.TableIsTheChangesIff | src/services/reconcile_membership.rs:133-145 | the table holds every attempted change, power levels included, if and only if no power level was attempted |
| AuditTrail.ReconcileReportsAllIff | src/services/reconcile_membership.rs:133-145 | a failure-free reconcile run reports all its changes if and only if its bindings join the user to no room with a power level |
| AuditTrail.LevelIsNotReported | src/services/reconcile_membership.rs:133-145 | a concrete run that sets a power level and does not report it |
| AuditTrail.LostWritesShow | src/services/lifecycle_steps.rs:165-190 | a run that lost an audit entry never reports plain success: it returns an error or a warning |
| PolicyTable.PolicyDb.CreateBinding | src/db/policy.rs:86-118 | a row is added exactly when its types, id and key satisfy the constraints, and the table keeps them |
| PolicyTable.InsertIsRefusedIff | migrations/0002_policy_bindings.sql:2-13 | an insert is refused if and only if a type is not allowed, the id is taken, or another row has the same subject type, subject value and room |
| PolicyTable.PolicyDb.UpdateBinding | src/db/policy.rs:122-144 | only power level, removal flag and time of the named row change, and the result says whether there was one |
| PolicyTable.UpdateSetsThree | src/db/policy.rs:122-144 | the named row gets the new level, flag and time and keeps its other columns; all other rows stay |
| PolicyTable.PolicyDb.DeleteBinding | src/db/policy.rs:148-155 | exactly the rows with that id go, and the result says whether there was one |
| PolicyTable.DeletedRows | src/db/policy.rs:148-155 | what a deletion leaves: all rows with another id |
| PolicyTable.PolicyDb.BootstrapFromEnv | src/services/policy_service.rs:209-243 | nothing happens when the mark cannot be read; a marked database is left alone and 0 returned; otherwise the mappings are imported and the database is marked, or an error is returned when the mark fails |
| PolicyTable.ImportAddsNewKeysOnce | src/services/policy_service.rs:217-241 | an import keeps old rows, adds one row for each distinct new key among the inserts the database was up for, and returns exactly that number |
| PolicyTable.ImportedRows | src/services/policy_service.rs:220-233 | each imported row gives the group of a mapping its room, as a room, without a power level and without removal |
| PolicyHistory.Perform | src/services/policy_service.rs:29-243 | the operations that histories are made of do what the database methods do |
| PolicyHistory.KeysStayUnique | migrations/0002_policy_bindings.sql:2-13 | ids and keys stay unique over any history of edits and restarts |
| PolicyHistory.BootstrapHappensOnce | src/services/policy_service.rs:214-216 | once a bootstrap has completed, the database develops as if later ones were not there, so nothing deleted comes back through them |
| PolicyHistory.BootstrapChangesNothingIff | src/services/policy_service.rs:214-242 | a bootstrap leaves the rows alone if and only if its mark cannot be read, or is there, or no mapping it reaches is new |
| PolicyHistory.DeletedComesBackIff | src/services/policy_service.rs:214-242 | a missing key comes back with a bootstrap if and only if the mark is readable and missing and a reached mapping asks for the key |
| PolicyHistory.UnmarkedBootstrapRepeats | src/services/policy_service.rs:241-242 | a concrete history: the mark fails, a binding is deleted, and the next start brings it back |
| PolicyHistory.ListingIsSorted | src/db/policy.rs:69-82 | the listing is strictly increasing in subject type, subject value and room |
| PolicyHistory.SortKeepsRows | src/db/policy.rs:69-82 | the listing holds exactly the rows of the table |
| PolicyHistory.RowIsListed | src/db/policy.rs:22-82 | each row is listed exactly once, as a binding with its id, subject kind and value, target kind and room, level, flag and times |
| PolicyHistory.ListedIsRow | src/db/policy.rs:22-82 | nothing else is listed |
| PolicyHistory.ListingOrder | src/db/policy.rs:69-82 | the bindings come groups first, then by subject, then by room |
| PolicyHistory.SameRowsSameListing | src/db/policy.rs:69-82 | tables with the same rows, ids and times aside, list the same bindings in the same order, whatever histories led to them |
| PolicyHistory.GroupsBeforeRoles | src/db/policy.rs:22-78 | group bindings are listed before role bindings |
| PolicyResults.ReconcileIgnoresIds | src/services/reconcile_membership.rs:67-209 | calls, answers, warnings and final state do not depend on binding ids and times |
| PolicyResults.SameRowsSameRun | src/handlers/bulk_reconcile.rs:61 | equal policy rows give equal reconcile runs under any fault script, however the rows came about |
| PolicyResults.RolesOverrideGroups | src/db/policy.rs:69-82 | on a room some role binding decides, the last such role binding fixes membership, whatever the group bindings say |
| TokenCache.RunKeepsInv | src/clients/keycloak.rs:85-164 | every step of every interleaving keeps the lock, cache, task and history invariants |
| TokenCache.OneFetchAtATime | src/clients/keycloak.rs:85-86 | in every interleaving at most one token fetch is in flight |
| TokenCache.ServedTokensLast | src/clients/keycloak.rs:88-92 | a token served from the cache has more than 30 seconds of its reported lifetime left |
| TokenCache.CacheServesIff | src/clients/keycloak.rs:88-126 | a stored token is served if and only if more than 30 seconds of its reported lifetime are left |
| TokenCache.RetryUsesFreshToken | src/clients/keycloak.rs:139-153 | a second attempt comes only after the first was answered with 401 and its token cleared; it carries a token whose fetch began after the clear, and so not the rejected one |
| TokenCache.AtMostTwoAttempts | src/clients/keycloak.rs:139-153 | no request is sent more than twice |
| TokenCache.SomeoneCanMove | src/clients/keycloak.rs:85-164 | no deadlock: while a request is unfinished, some request can go on |
| KeycloakClient.KeycloakClient.AdminToken | src/clients/keycloak.rs:85-133 | the cached token while it lasts, else a fetched one that replaces it; a failed fetch leaves the cache; each call is a run of the shared machine |
| KeycloakClient.KeycloakClient.ClearCachedToken | src/clients/keycloak.rs:135-137 | the cache is empty and the clear is on record |
| KeycloakClient.KeycloakClient.SendAdminRequestOnce | src/clients/keycloak.rs:155-164 | one attempt: it is answered if and only if a token is cached or can be fetched, and what is reported is the last thing sent |
| KeycloakClient.KeycloakClient.SendAdminRequest | src/clients/keycloak.rs:139-153 | the request is one run of the machine; it is answered if and only if it gets a token, and a second one if the first attempt was met with 401; a second attempt is made exactly in that case, and its answer counts |
| Calendar.YearOfEraIsRight | src/services/audit_service.rs:139-141 | the closed form finds the one year of a 400-year era that a day falls into, and the day within it |
| Calendar.ClosedFormIsCounting | src/services/audit_service.rs:135-148 | for every day number the closed form gives the date reached from 1970-01-01 by stepping one day at a time under the leap rule |
| Calendar.ClosedFormSteps | src/services/audit_service.rs:135-148 | the result is always a valid date, and consecutive day numbers give consecutive dates |
| Calendar.ClosedFormNeverUnderflows | src/services/audit_service.rs:137-146 | no unsigned subtraction goes below zero, and no intermediate exceeds the shifted day number |
| Calendar.CountInvertsClosedForm | src/services/audit_service.rs:135-148 | counting whole years, months and days of the result gives the day number back |
| Calendar.ClosedFormInvertsCount | src/services/audit_service.rs:135-148 | every valid date from 1970 on is reached from its day number |
| Calendar.ClosedFormIsMonotone | src/services/audit_service.rs:135-148 | dates are ordered exactly as day numbers are |
| Text.FixedSortsAsNumber | src/services/audit_service.rs:132 | zero-padded fields of one width sort as text exactly as their numbers do |
| Timestamps.StampsSortAsInstants | src/services/audit_service.rs:114-133 | up to the end of year 9999 timestamps sort as text exactly as the instants do |
| Timestamps.TextOrderHoldsIff | src/services/audit_service.rs:114-133 | the text order is right below a limit if and only if the limit stays within year 9999 |
| Timestamps.Year10000SortsFirst | src/services/audit_service.rs:132 | the first instant of year 10000 sorts before the last of year 9999 |
| Timestamps.ValidateDateFormatIsExact | src/handlers/audit.rs:235-249 | the accepted texts are exactly the fixed-width dates, in the calendar or not |
| Timestamps.ReadDate | src/handlers/audit.rs:235-249 | an accepted text is the text of the date it is read as |
| Timestamps.FilterSelectsDates | src/db/audit.rs:33-41 | the two text tests hold exactly for the entries whose UTC date is not before the one date and not after the other |
| Timestamps.FilterSelectsDays | src/db/audit.rs:33-41 | for calendar dates the two tests together select exactly the entries whose UTC day lies in the range |
| AuditQuery.BuildWhereClause | src/db/audit.rs:17-48 | conditions and values are pushed in step, one pair for each field that is set |
| AuditQuery.WhereMeansFilter | src/db/audit.rs:17-48 | read back as SQL with positional values, the text is well-formed and selects a row exactly when the filter accepts it |
| AuditQuery.RequestSelectsDates | src/handlers/audit.rs:98-117 | from the request to the row: an entry is shown exactly when each filled-in field agrees and its UTC date is within the dates |
| AuditQuery.CountWithFilter | src/db/audit.rs:163-175 | the count is the length of the unpaged result |
| AuditQuery.PageWithFilter | src/db/audit.rs:178-198 | one slice of the unpaged result |
| AuditQuery.AllWithFilter | src/db/audit.rs:201-218 | exactly the accepted rows, in table order |
| AuditQuery.MatchingRowByRow | src/db/audit.rs:201-218 | selecting goes row by row: accepted rows stay, as often as they are there and in their order |
| AuditQuery.List | src/handlers/audit.rs:93-127 | bad filters are refused; otherwise the page exists, is the requested one if that exists and the nearest if not, and is empty only if nothing matches |
| AuditQuery.PagesCoverResult | src/handlers/audit.rs:119-127 | pages 1 to the last, one after the other, are the unpaged result |
| AuditQuery.MatchingKeepsOrder | src/db/audit.rs:178-218 | the selected rows are the accepted ones, and newest-first stays newest-first |
| Csv.ReadField | src/handlers/audit.rs:219-225 | an escaped field is read back as itself, whatever it contains |
| Csv.QuotedOnlyIfNeeded | src/handlers/audit.rs:219-225 | a field is written as it is if and only if it has no comma, quote or line feed |
| Csv.FieldsMatchHeader | src/handlers/audit.rs:191-203 | each field of a row stands under the name of its column, and a missing one is empty |
| Csv.ReadRecord | src/handlers/audit.rs:195-203 | a written record is read back as its fields, save a CR at the end of an unquoted last field for readers that know CRLF |
| Csv.ReceivedIff | src/handlers/audit.rs:194-203 | the rows received are the rows written if and only if no such CR is cut |
| Csv.CrMayBeCut | src/handlers/audit.rs:219-225 | a concrete entry whose last field loses its CR |
| Csv.ExportCsv | src/handlers/audit.rs:191-204 | a reader for the quoting rules of section 2 of RFC 4180 with records ended by LF gets back the header and the same rows, with commas, quotes and line feeds anywhere; one that also knows CRLF does so if and only if no unquoted last field ends in CR |
| InviteEmail.LocalpartIsExact | src/services/invite_user.rs:243-272 | on non-empty texts the check accepts exactly the dot-separated non-empty atoms |
| InviteEmail.AtomCharIsAtext | src/services/invite_user.rs:247-271 | the characters of an atom are those of section 3.2.3 of RFC 5322, without capitals and without the vertical bar |
| InviteEmail.InviteEmailLimits | src/services/invite_user.rs:208-210 | the limits: 64, 253 and 254 characters, and 63 for a label |
| InviteEmail.CheckLabels | src/services/invite_user.rs:279-297 | the loop accepts exactly when every part between dots is a label, and counts the parts |
| InviteEmail.IsValidEmailDomain | src/services/invite_user.rs:274-298 | accepts exactly two or more dot-separated labels |
| InviteEmail.LabelsImplyDots | src/services/invite_user.rs:275-277 | the dot tests before the loop refuse nothing that the loop would accept |
| InviteEmail.DomainIsLabels | src/services/invite_user.rs:279-297 | the grammar of domains, in terms of the parts between dots |
| InviteEmail.ValidateInviteEmail | src/services/invite_user.rs:207-241 | accepts exactly the normalised addresses of the grammar within the length limits, and returns the two parts |

## Left out

- HTTP, JSON decoding, timeouts and SQLite itself: calls either go through or fail, and tables are sequences of rows.
- Changes made by others during a run: the space graph, other members and the user directory stay fixed while one workflow runs; only the token cache is modelled with interleaving.
- Audit entries carry target, action, result and metadata in the workflow model; the acting admin, ids and timestamps of entries are not in it.
- Audit entries of policy edits (`src/services/policy_service.rs`): one write after each edit, which would only add easy members.
- Exact wording of warnings and errors: they are tagged values that name the room, session or step (`Rooms.Complaint`).
- BulkResults.AnyOrderOfUsers: assumes distinct usernames, which Keycloak guarantees; the count and the listing are taken from the same directory.
- StaysOut.OffboardedStaysOut: assumes that usernames are unique, which Keycloak guarantees.
- Bulk.ReconcileUser: the branch for an error returned by reconciliation is absent, because reconciliation never returns one.
- Lifecycle.ListActiveSessions: the two families are fetched one after the other where the source joins two futures, and the page limit of the session listing is not modelled.
- Delete.DeleteUserAccount: deactivating a MAS account marks it deactivated; that MAS also ends its sessions is not part of this model.
- KeycloakClient.KeycloakClient.SendAdminRequest: one request after the other, with the lock free when it starts; interleaved requests are covered by the steps of `TokenCache`.
- TokenCache.SomeoneCanMove: fairness of the mutex is not modelled; any waiting request may get it next.
- PolicyTable.PolicyDb.BootstrapFromEnv: generated ids are inputs; that they are new is assumed only where added rows are counted or compared.
- AuditQuery.AllWithFilter: the rows come in the order of ORDER BY; entries with equal timestamps keep one fixed order.
- AuditQuery.List: counts are unbounded, so the overflow of 64-bit arithmetic at absurd table sizes is not modelled.
- Timestamps.StampsSortAsInstants: the clock reading is an input.
- InviteEmail.ValidateInviteEmail: trimming and lower-casing come first and are not part of this model. Lengths are counted in characters; the source counts bytes, which agrees on every text the grammar accepts.
- Csv.ExportCsv: a bare CR is data, in the export as in both readers; a reader that refuses one outside quotes is not modelled.
- `pct_encode`, `disable_user`, `reactivate_user`, `invite_user` beyond validation, the identity mapper, `effective_bindings_for_user`, `refresh_room_cache`: they would only add easy members.
- OIDC login, cookies, CSRF tokens, templates, dashboard counters, deployment files.
