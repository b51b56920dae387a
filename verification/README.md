# Verified model of the event platform's core

This project models the parts of the platform's backend where state, concurrency and arithmetic meet, and proves what
they keep. Each module follows one component:

| module | component | main results |
|---|---|---|
| `SeedModel`, `SeedReset`, `SeedRoundTrip`, `SeedGuarantees` (with `Digraph`) | the demo-data seeder's ownership engine | the rows it deletes are the greatest set nothing outside refers to; deletion succeeds exactly when the non-null references among them are acyclic between tables; seeding and resetting is the identity, with the exact condition |
| `Scheduling`, `ScheduleLocks`, `ScheduleWaits` | venue and resource scheduling | no double booking inside one scope over every run, and over every interleaving of locking transactions that work on different items; exactly when booking transactions can wait for each other in a circle; other overlaps really can be booked |
| `Cloning`, `CloneGuarantees` | event snapshots and clones | a clone is the snapshot renamed and moved in time; cloning back undoes the move; exactly when a clone is complete |
| `AccountStatus` (with `Digraph`) | account activation | no deadlock, every commit is authorized by an active account, an active super admin survives |
| `Categories` | taxonomy, filing of events, manager assignment | cascades, filing and the single manager over every run |
| `Standings` (with `Sorting`) | competition standings | order independence, ranking, conservation |
| `Connections`, `ConnectionRaces`, `Matchmaking`, `Activities` | participant networking | the connection table agrees with its history, blocking, and exactly when a block can be lost; two score computations; bounded paging |
| `OneTimeCodes` | one-time codes and rate limits in Redis | attempt counting with expiring keys, request limits over every interleaving of Redis calls |
| `Dedupe`, `DedupeCircles` | notification creation | one row per dedupe key over every interleaving; exactly when two creators can wait for each other |
| `Polls` | event polls | rows refine ballots, counts, percentages |

`Common` holds the small types they share. Tables are maps or sequences of rows, ids are natural numbers in the order of
their text, times are integers. A service whose methods change rows is a class whose methods are proved against functions
on values; the results over all runs are lemmas about those functions. Interleavings are state machines over the single
steps of each transaction.

Where the code does less than its surroundings suggest, the model keeps the code and states the exact condition:

- Schedule conflicts are looked up by venue *and* resource when both are given, so only items in the same scope exclude
  each other (`Scheduling.PreventedIffSameScope`).
- Locks keep concurrent bookings apart as long as no two transactions work on one item. Two overlapping reschedules of one
  item leave a slot that neither has checked (`ScheduleLocks.NeverDoubleBooked`, `ScheduleLocks.LastWriteMerges`,
  `ScheduleLocks.SameItemDoubleBooked`).
- The venue's lock is taken before the resource's. Single bookings can wait for each other in a circle exactly when two
  different locks each belong to a venue and to a resource. Clones, which book in the order of their schedule, can as soon
  as there are two locks; a common order of the locks would prevent it (`ScheduleWaits.SingleBookingsCircle`,
  `ScheduleWaits.SeveralBookingsCircle`, `ScheduleWaits.OrderedNeverCircle`).
- A clone reproduces the source exactly when the source has no shared venue, its schedule uses only its own venues and
  its policies only its own zones (`Cloning.CopyIffOwnOnly`).
- A page of activities can miss rows, because the rows are fetched in another order than they are merged in. All pages are
  exact exactly when each query keeps up with the merged order. When sessions start at distinct times, up to one competition
  more than there are sessions may have been created in any order (`Activities.AllPagesExact`,
  `Activities.FewCompetitions`, `Activities.CreationOrderCanHideRows`).
- A request or answer that has read a connection before it is blocked takes the block back when it writes afterwards; only
  such a write can (`ConnectionRaces.LateWriteTakesBlockBack`, `ConnectionRaces.BlockLostIffOverwritten`).
- With two active registrations of one user the ordering score and the reported score differ
  (`Matchmaking.TwoRegistrationsDisagree`, `Matchmaking.ScoresAgree`).
- A poll that is still stored as scheduled is opened, not closed, by a vote past its end: that one vote is accepted and no
  later one. Looking at the poll or its results stores no status, so only the stored status counts (`Polls.OpenForVotes`,
  `Polls.OneLateVote`, `Polls.LateVoteHappens`).
- The per-address limit of code requests holds in an interval of one window length exactly when the interval starts with a
  window; in every other one twice the maximum is reached (`OneTimeCodes.IntervalKeptIffAligned`,
  `OneTimeCodes.TwiceIsReached`).
- Verifications of one code that overlap can exceed the maximum number of tries by as many as overlap, less one, and no
  more; up to as many as overlap can succeed with the one code (`OneTimeCodes.OverlapBound`,
  `OneTimeCodes.OverlapTallies`).
- Creating a notification raises when the row loses to another one with the empty text as its key, or when its event,
  recipient or template does not exist and no row with its key is found (`Dedupe.RecoverRaises`, `Dedupe.EmptyTextRaises`,
  `Dedupe.UnresolvedRaises`).
- Two creators of notifications can wait for each other exactly when their lists of keys cross
  (`DedupeCircles.CircleIffCrossing`); a common order of the keys prevents it (`Dedupe.OrderedNeverCircle`).
- Resetting after seeding fails to restore the database when an audit row already named a seeded user or event
  (`SeedRoundTrip.SeedThenReset`, `SeedRoundTrip.NamedSeedStays`).

## Model

| member | source | states |
|---|---|---|
| SeedModel.DeletableIsGreatestClosed | scripts/seed/ownership.py:37-68 | the deletable rows are a subset of the registered ones that nothing outside refers to, and contain every other such subset |
| SeedModel.DeletableMarks | scripts/seed/ownership.py:37-68 | unfolds the specification: deletable means registered and not reached by a chain of references from a row outside the registered set |
| SeedModel.ReachedByReference | scripts/seed/ownership.py:56-68 | protection is transitive: a reference from an outside or protected row protects its target |
| SeedModel.ClosedIsDeletable | scripts/seed/ownership.py:37-68 | if nothing outside refers to the registered rows, none is protected |
| SeedReset.Session.CollectCandidates | scripts/seed/ownership.py:29-37 | collects the existing registered rows and fails exactly when a registered table is unknown |
| SeedReset.Session.ProtectFromAudit | scripts/seed/ownership.py:41-55 | one pass over the audit columns removes only rows that something outside refers to, and reports no change only if there are none |
| SeedReset.Session.ProtectFromLinks | scripts/seed/ownership.py:56-68 | the same for declared foreign keys, with the set shrinking during the pass |
| SeedReset.Session.StableIsDeletable | scripts/seed/ownership.py:38-40 | once a pass changes nothing, what is left is exactly the deletable set |
| SeedReset.Session.Protect | scripts/seed/ownership.py:38-68 | the loop terminates with the deletable set, for every order of tables and keys |
| SeedReset.Session.ClearNullableLinks | scripts/seed/ownership.py:69-75 | clears exactly the nullable links between marked rows; the databases it goes through are one update statement apart, from the first to the last, and all keep every foreign key resolved |
| SeedReset.Session.ClearLink | scripts/seed/ownership.py:72-75 | one foreign key's update statement clears exactly its nullable links between marked rows |
| SeedReset.SurvivingLinks | scripts/seed/ownership.py:69-75 | between marked rows, exactly the non-null links survive the clearing |
| SeedReset.ClearOneMore | scripts/seed/ownership.py:69-75 | clearing link by link is clearing them all |
| SeedReset.BlockedIffPredecessor | scripts/seed/ownership.py:80-85 | a pending table is blocked exactly when a pending table has a non-null reference to it in the original database |
| SeedReset.DeleteNext | scripts/seed/ownership.py:86-89 | deleting an unblocked table leaves no dangling reference |
| SeedReset.RankNext | scripts/seed/ownership.py:77-89 | tables in order of deletion respect all non-null references |
| SeedReset.NoProgressMeansCycle | scripts/seed/ownership.py:90-91 | a pass that deletes nothing means the references form a cycle |
| SeedReset.EndDeleting | scripts/seed/ownership.py:77-91 | when nothing is pending any more the references were acyclic and exactly the marked rows are gone |
| SeedReset.SelfReferenceFails | scripts/seed/ownership.py:79-91 | a non-null reference of a deleted row into its own table makes the reset fail |
| SeedReset.Session.DeleteIfUnblocked | scripts/seed/ownership.py:79-89 | one table is deleted exactly when it has no pending predecessor, keeping every reference resolved |
| SeedReset.Session.DeletePass | scripts/seed/ownership.py:78-89 | a pass deletes something exactly when some pending table had no pending predecessor; its databases are one delete statement apart and all keep every foreign key resolved |
| SeedReset.Session.DeleteTables | scripts/seed/ownership.py:76-91 | terminates, raises exactly on a cycle; the databases it goes through are one table's deletion apart, from the first to the last, and none has a dangling reference |
| SeedReset.Session.ClearAndDelete | scripts/seed/ownership.py:69-91 | all databases from the protected state to the end, one statement apart, keep every foreign key resolved |
| SeedReset.Session.ResetOwned | scripts/seed/ownership.py:22-96 | succeeds exactly when all tables are known and the non-null references among the deletable rows are acyclic; then exactly those rows and the manifest are gone, and the result counts the protected rows per table; every database on the way is one statement after the one before and keeps every foreign key resolved |
| SeedReset.Session.ResetInTransaction | scripts/seed_platform.py:227-233 | in its transaction the reset is all or nothing |
| SeedReset.AfterResetRow | scripts/seed/ownership.py:22-96 | unfolds the specification: a row survives, unchanged, exactly when it is neither deletable nor the manifest |
| SeedRoundTrip.SeedWriter.Add | scripts/seed/ownership.py:106-115 | inserts under the derived id unless the id exists, records the id either way, and changes nothing exactly when some foreign key holds an id that neither exists nor is the row's own |
| SeedRoundTrip.SeedWriter.Save | scripts/seed/ownership.py:117-125 | merges the recorded ids into the manifest without duplicates and counts them per table |
| SeedRoundTrip.SeededRows | scripts/seed/ownership.py:99-125 | the seeded database is the old one plus the seeds plus the manifest |
| SeedRoundTrip.CandidatesAreSeeds | scripts/seed/ownership.py:29-37 | a reset after seeding picks up exactly the seeds |
| SeedRoundTrip.OutsideReference | scripts/seed/ownership.py:41-68 | after fresh seeding only old audit rows can refer to a seed from outside |
| SeedRoundTrip.SeedThenReset | scripts/seed/ownership.py:22-125 | seeding then resetting restores the database exactly if and only if no old audit row names a seed and the non-null references among the seeds are acyclic between tables |
| SeedRoundTrip.NamedSeedStays | scripts/seed/ownership.py:22-125 | a failing input: an old audit row naming the seeded user |
| SeedRoundTrip.SelfReferringSeedStays | scripts/seed/ownership.py:22-125 | a failing input: a seed that refers to itself through a non-null column |
| SeedRoundTrip.SeedAgain | scripts/seed/ownership.py:106-125 | replaying the same additions and saving again changes no row and leaves the manifest equal |
| SeedRoundTrip.SnapshotUnowned | scripts/seed/ownership.py:128-141 | the baseline holds exactly the rows that are neither registered nor the manifest |
| SeedRoundTrip.CompareRow | scripts/seed/ownership.py:154-158 | finds a changed column exactly when there is one that may not change |
| SeedRoundTrip.CompareTable | scripts/seed/ownership.py:146-158 | intact exactly when every row is there unchanged; otherwise names a deleted or changed row |
| SeedRoundTrip.AssertPreserved | scripts/seed/ownership.py:144-158 | does not raise exactly when every baseline row is preserved; when it raises, its witness is one that is not |
| SeedRoundTrip.ReseedingPreserves | scripts/seed/ownership.py:22-158 | after a reset, and after seeding again, every unowned row is identical, so the check never raises |
| SeedGuarantees.NamedEventSurvives | scripts/seed/ownership.py:41-55 | an existing event that an audit row outside the registered rows names by entity type "event" and its entity id survives every successful reset unchanged |
| SeedGuarantees.NamedUserSurvives | scripts/seed/ownership.py:41-55 | so does a user named by entity type "user" |
| SeedGuarantees.ActorSurvives | scripts/seed/ownership.py:41-55 | so does a user that is its actor, whatever the entity |
| SeedGuarantees.HeldSurvives | scripts/seed/ownership.py:56-68 | so does a row that an unregistered row holds through a foreign key, nullable or not |
| SeedGuarantees.UnlistedSurvives | scripts/seed/ownership.py:22-96 | so does every unregistered row but the manifest |
| SeedGuarantees.UnnamedIsGone | scripts/seed/ownership.py:41-96 | without foreign keys a registered row is gone exactly when no outside audit row names it |
| SeedGuarantees.CountsMean | scripts/seed/ownership.py:96-96 | the result counts, for each table that has any, the registered rows that are still there |
| SeedGuarantees.SavedLists | scripts/seed/ownership.py:117-125 | saving lists per table every id recorded before or now, in increasing order |
| SeedGuarantees.SavedColumns | scripts/seed/ownership.py:117-125 | a new manifest has the seed dataset as its entity type, itself as its entity and its action; an old one keeps its columns |
| SeedGuarantees.SavedKeepsRows | scripts/seed/ownership.py:117-125 | saving changes no other row |
| SeedGuarantees.PreservedMeans | scripts/seed/ownership.py:144-158 | a row passes the check exactly when it is there with all its columns; a label refresh may change name and update time of main and sub categories |
| Scheduling.SameScopeIsMutual | app/modules/events/repository.py:252-263 | two requests are in the same scope exactly when each finds the other |
| Scheduling.MoveKeepsSound | app/modules/events/service.py:643-712 | every add, reschedule, cancel, delete, event creation and event deletion keeps the calendar free of double bookings |
| Scheduling.RunKeepsSound | app/modules/events/service.py:643-712 | so does every sequence of them |
| Scheduling.RunNeverTwoAtOnce | app/modules/events/service.py:643-712 | after every run no two active items of live events at one venue under one resource text, or without any, take place at one instant |
| Scheduling.FreeByInstants | app/modules/events/repository.py:244-266 | a slot is free exactly when no other active item of a live event, at the venue and under the resource it names, takes place at any of its instants |
| Scheduling.TouchingIsFree | app/modules/events/repository.py:244-248 | a slot that begins where others end, or ends where they begin, is free |
| Scheduling.PreventedIffSameScope | app/modules/events/repository.py:244-266 | two overlapping slots can both be booked, for some events and venues and through every check of the service, exactly when their times are in order and they are not in the same scope |
| Scheduling.SameScopePrevents | app/modules/events/repository.py:244-266 | two overlapping slots in one scope are never both in the calendar after any run |
| Scheduling.ScheduleService.CheckAvailability | app/modules/events/service.py:626-641 | open exactly when all windows are well formed and, if there are any, one covers the slot |
| Scheduling.ScheduleService.FindOverlapping | app/modules/events/repository.py:244-266 | finds nothing exactly when no active item of a live event overlaps in every scope asked for |
| Scheduling.ScheduleService.ValidateSchedule | app/modules/events/service.py:643-667 | accepts exactly the bookable slots without a conflict; each error is given exactly when its check is the first to fail |
| Scheduling.ScheduleService.AddScheduleItem | app/modules/events/service.py:669-675 | adds exactly one item, exactly when the event is live, the slot is valid and nothing takes place in its scopes at any of its instants |
| Scheduling.ScheduleService.UpdateScheduleItem | app/modules/events/service.py:677-691 | reschedules exactly when the item exists, is not cancelled, and the merged slot is valid and free of all other items |
| Scheduling.ScheduleService.CancelScheduleItem | app/modules/events/service.py:693-701 | cancels exactly the one item, if it exists |
| Scheduling.ScheduleService.DeleteScheduleItem | app/modules/events/service.py:703-712 | deletes exactly the one item, if it exists and is cancelled |
| Scheduling.ScheduleService.CreateFixture | app/modules/funnels/service.py:182-199 | a fixture books its venue without a resource, so it excludes every active overlapping item at that venue |
| Scheduling.ScheduleService.DeleteEvent | app/modules/events/service.py:256-271 | only marks a live event deleted, which releases its items |
| ScheduleLocks.SameScopeSharesKey | app/modules/events/repository.py:236-242 | items in the same scope take a common advisory lock, whatever the hash |
| ScheduleLocks.LockedApart | app/modules/events/repository.py:236-266 | rows of two transactions that hold their locks are never double-booked |
| ScheduleLocks.StepKeepsInvariant | app/modules/events/service.py:663-712 | every lock, check, write, commit, rollback, cancel, delete, event creation and event deletion step keeps the locking invariant, for new items and for items given a new slot |
| ScheduleLocks.RunKeepsInvariant | app/modules/events/service.py:663-712 | so does every interleaving in which no two transactions work on one item |
| ScheduleLocks.NeverDoubleBooked | app/modules/events/service.py:663-712 | then no reachable database has two active committed items in one scope that overlap: none at one venue under one resource text, or without any, that take place at one instant |
| ScheduleLocks.RunKeepsExclusive | app/modules/events/repository.py:236-242 | over every interleaving no two transactions hold one lock |
| ScheduleLocks.LastWriteMerges | app/modules/events/service.py:677-691 | two transactions that reschedule one item at once, each finding its slot free, leave the columns of both slots merged; that double-books something exactly when the merged slot is not free |
| ScheduleLocks.SameItemDoubleBooked | app/modules/events/service.py:677-691 | a run of two such reschedules, one to another venue and one to another time, that ends with a double booking |
| ScheduleWaits.SingleBookingsCircle | app/modules/events/repository.py:236-242 | transactions that make one booking each can wait for each other in a circle if and only if two different locks are each the hash of a venue and of a resource |
| ScheduleWaits.SeveralBookingsCircle | app/modules/events/service.py:317-320 | transactions with several bookings, as a clone makes them, can wait in a circle if and only if there are two different locks at all |
| ScheduleWaits.OrderedNeverCircle | app/modules/events/repository.py:236-242 | transactions with any number of bookings that take their new locks in one common order never wait in a circle |
| Cloning.CloneService.TemplateSnapshot | app/modules/events/service.py:174-205 | the snapshot holds exactly the event's configuration, schemas, venues, scheduled items, zones and policies |
| Cloning.CloneService.CopyVenues | app/modules/events/service.py:306-316 | one new venue per own venue and the same venue for a shared one; fails exactly when a shared one is gone |
| Cloning.CloneService.CopySchedule | app/modules/events/service.py:317-320 | books the renamed and moved items one by one, or stops at one that does not fit next to those there are |
| Cloning.ClonesAreImage | app/modules/events/service.py:317-320 | when no two items become equal the copies are exactly the image of the items, with the same multiplicities |
| Cloning.CloneService.CopyZones | app/modules/events/service.py:321-326 | one new zone per zone, with the map between them |
| Cloning.CloneService.CopyPolicies | app/modules/events/service.py:327-328 | policies with renamed zones and moved dates, those of other events untouched |
| Cloning.CloneService.StartClone | app/modules/events/service.py:295-305 | the new event with its moved configuration deadlines and field schemas; fails exactly on an invalid deadline |
| Cloning.CloneService.CloneSnapshot | app/modules/events/service.py:283-329 | a successful clone holds the copies its steps make (one new venue per venue that is not shared, one moved item per scheduled item, every zone, each policy with the known zones), is the renamed and moved snapshot exactly when the source is self-contained, and leaves other events unchanged |
| Cloning.CloneService.DuplicateEvent | app/modules/events/service.py:331-338 | duplicates a live event as `CloneSnapshot` does or changes nothing, with the exact cause of every refusal but a slot that does not fit; `CloneGuarantees.CloneIsDuplicate` says what the clone holds |
| CloneGuarantees.CloneIsDuplicate | app/modules/events/service.py:155-205 | a duplicate has as many items as the source has scheduled ones, each with title, resource, attendance and both times later by the difference of the starts, at the copy of its venue; a new venue and zone with the same columns for each own one; each policy with its dates later by the difference and its zones' copies; and the configuration with the two deadlines later and all else equal; no other row changes |
| CloneGuarantees.ShiftableMeans | app/modules/events/service.py:161-172 | cloning fails on the details exactly when one of the two deadlines is neither empty nor a date |
| Cloning.CopyOfCopy | app/modules/events/service.py:155-205 | copying a copy is copying once, renamed by the composed maps and moved by the sum |
| Cloning.CloneBack | app/modules/events/service.py:283-329 | cloning back to the original start restores everything but the ids |
| Cloning.UnmovedCopy | app/modules/events/service.py:155-172 | a copy moved by nothing differs in ids only |
| Cloning.CopyIsOwnOnly | app/modules/events/service.py:283-329 | the copy of a self-contained event is self-contained |
| Cloning.CopyIffOwnOnly | app/modules/events/service.py:283-329 | the clone's own snapshot is a renamed and moved copy of the source's exactly when the source is self-contained |
| AccountStatus.OnlySuperManagesSuper | app/core/permissions.py:99-139 | only an active super admin can manage a super admin |
| AccountStatus.ManagesIffEntitled | app/core/permissions.py:99-139 | an active account may manage another one exactly when it is a super admin; or operations admin and the target's roles are just event manager; or finance admin and they are finance operator or auditor; or it manages live events and the target only helps at those: staff there alone, an approved volunteer application there, no other counted application, registrations only with the organizations of those events |
| AccountStatus.EntitledByKind | app/core/permissions.py:99-139 | the same as an equivalence for each kind of actor; nobody else may |
| AccountStatus.CommitIsAuthorized | app/modules/identity/service.py:446-473 | a commit is made by an active account that may manage its target and is not its target |
| AccountStatus.StepKeepsInvariant | app/modules/identity/service.py:446-475 | lock order, exclusive locks and decided checks stay valid over every step |
| AccountStatus.NoDeadlock | app/modules/identity/service.py:446-450 | transactions never wait for each other in a circle |
| AccountStatus.Progress | app/modules/identity/service.py:446-475 | while a transaction is unfinished, some unfinished one can take a step |
| AccountStatus.SuperAdminSurvives | app/modules/identity/service.py:446-475 | over every interleaving an active super admin remains |
| AccountStatus.EveryCommitIsAuthorized | app/modules/identity/service.py:446-475 | every committed change was made by another account that was active before and after it and entitled to it |
| AccountStatus.AccountService.UpdateAccountStatus | app/modules/identity/service.py:439-477 | one change alone: it happens exactly when the other account's status differs and the active actor is entitled to change it, with the error of the first check that fails |
| Categories.ResolveIsWellFiled | app/modules/events/service.py:56-104 | resolved categories are live and belong together, and a required sub category is there |
| Categories.ResolveIffUsable | app/modules/events/service.py:56-104 | refused exactly when a category named, or the sub category's main one, is missing, deleted or inactive, the two do not belong together, or a required sub category is missing |
| Categories.OpKeepsSound | app/modules/event_categories/service.py:125-228 | every category and event operation keeps live events filed under live, matching categories and managed by at most their organizer |
| Categories.RunKeepsSound | app/modules/event_categories/service.py:125-228 | so does every run |
| Categories.LiveEventIsFiled | app/modules/events/service.py:56-104 | in every such state a live event's main category exists and is not deleted, and its sub category exists, is not deleted and belongs to that main category |
| Categories.LiveSubIsFiled | app/modules/event_categories/service.py:153-168 | in every such state a live sub category belongs to a main category that exists and is not deleted |
| Categories.SingleManager | app/modules/events/manager.py:26-42 | unfolds the invariant for one event: at most one active manager assignment, that of its organizer, and the event is live |
| Categories.DeleteMainCascades | app/modules/event_categories/service.py:125-151 | deleting a main category deletes exactly the events and sub categories under it and revokes exactly their events' assignments |
| Categories.RevokeOthersMeaning | app/modules/events/manager.py:29-35 | the loop keeps at most the first active assignment of the user and touches no other event |
| Categories.AssignedMeaning | app/modules/events/manager.py:26-42 | afterwards the user is the event's only active manager |
| Categories.AssignedPlainly | app/modules/events/manager.py:26-42 | afterwards there is exactly one active manager row of the event, held by the user, at most one row is new, and rows of other roles or events are as before |
| Categories.CategoryService.CreateMainCategory | app/modules/event_categories/service.py:89-102 | adds exactly one live category |
| Categories.CategoryService.DeleteMainCategory | app/modules/event_categories/service.py:125-151 | the bulk updates have exactly the specified effect |
| Categories.CategoryService.CreateSubCategory | app/modules/event_categories/service.py:153-168 | adds a sub category exactly under a live active main category |
| Categories.CategoryService.UpdateSubCategory | app/modules/event_categories/service.py:170-205 | moves a sub category only while no event uses it |
| Categories.CategoryService.DeleteSubCategory | app/modules/event_categories/service.py:207-228 | deletes the sub category and its events and revokes their assignments |
| Categories.CategoryService.RevokeOtherManagers | app/modules/events/manager.py:26-35 | the loop over the active assignments |
| Categories.CategoryService.AssignEventManager | app/modules/events/manager.py:14-42 | refuses or makes the user the only active manager and the organizer |
| Categories.CategoryService.CreateNewEvent | app/modules/events/service.py:106-141 | a new event is filed and managed as resolved, or nothing changes |
| Categories.CategoryService.UpdateEventFields | app/modules/events/service.py:407-440 | refiles and reassigns together, or changes nothing |
| Categories.CategoryService.CloneEventRow | app/modules/events/service.py:283-300 | the clone's row, filing and manager |
| Categories.CategoryService.DeleteOneEvent | app/modules/events/service.py:256-271 | deletes the event and revokes its assignments |
| Standings.ComputeStandings | app/modules/funnels/service.py:279-298 | the loop, sort and numbering compute the standings function; more points come first, then the larger difference, the larger score and the smaller id |
| Standings.ApplyMatch | app/modules/funnels/service.py:284-295 | one match changes exactly the two rows, also when both are the same row |
| Standings.StandingsRank | app/modules/funnels/service.py:296-298 | the result is the entries with positions 1 to n, by points, difference and score descending, then by id |
| Standings.TallyColumns | app/modules/funnels/service.py:283-295 | a row counts the entry's matches, wins, losses and draws among those with both participants in the table, sums its scores with missing ones as nothing, and has three points per win and one per draw |
| Standings.StandingsIgnoreOrder | app/modules/funnels/service.py:279-298 | the result is the same for every order of the matches |
| Standings.StandingsIgnoreEntryOrder | app/modules/funnels/service.py:280-298 | and for every order in which the entries are read |
| Standings.Conservation | app/modules/funnels/service.py:284-298 | wins equal losses, matches count twice, differences cancel, points are 3 per decisive and 2 per drawn counted match |
| Connections.PairOf | app/modules/networking/service.py:163-166 | both directions name the same ordered pair |
| Connections.OpKeepsSound | app/modules/networking/service.py:173-226 | every operation keeps one well-formed row per event and unordered pair |
| Connections.RunKeepsSound | app/modules/networking/service.py:173-226 | so does every run |
| Connections.RunAgrees | app/modules/networking/service.py:173-226 | a pair has a row exactly when its history calls for one, with the status and requester its last steps call for |
| Connections.AcceptedByTheOther | app/modules/networking/service.py:196-211 | an accepted row was accepted by the end that did not request it, right after the latest request |
| Connections.OtherStatusesExplained | app/modules/networking/service.py:173-226 | a pending row was requested last by its requester, a rejected one rejected by the other end and a cancelled one cancelled by the requester right after the request, a blocked one blocked last by an end |
| Connections.BlockedIsHidden | app/modules/networking/service.py:70-77 | a blocked pair is hidden from both sides and neither can send a request |
| Connections.HiddenIffBlocked | app/modules/networking/service.py:73-77 | two visible registered participants discover each other exactly when they are not blocked |
| Connections.DiscoverableMeans | app/modules/networking/service.py:61-84 | discovery lists exactly the other visible, registered participants without a blocked row in between, and exactly their profiles open; recommendations leave out dismissed and accepted ones |
| Connections.BlockedUntilLifted | app/modules/networking/service.py:173-226 | a blocked pair stays blocked over every run of whole operations without an unblock of that pair |
| ConnectionRaces.RunKeepsOrder | app/modules/networking/service.py:181-211 | also when requests and responses read the row first and write it later, in every interleaving, there is one well-formed row per pair |
| ConnectionRaces.BlockLostIffOverwritten | app/modules/networking/service.py:181-226 | a block can be lost without an unblock if and only if, when it is there, some request or response has read the pair's row before and is still to write another status |
| ConnectionRaces.LateWriteTakesBlockBack | app/modules/networking/service.py:185-226 | every request that opens a row again, and every answer, that has read the row before a block takes that block back when it writes after it |
| Connections.UnblockStartsAfresh | app/modules/networking/service.py:173-194 | after an unblock by either end a request is possible again |
| Connections.BlockKeepsRequester | app/modules/networking/service.py:213-226 | blocking an existing row keeps its requester on record |
| Connections.NetworkingService.SendRequest | app/modules/networking/service.py:181-194 | opens a new row or a rejected or cancelled one again, with the error of the first check that fails |
| Connections.NetworkingService.Transition | app/modules/networking/service.py:196-211 | changes exactly the status and answer time of the one row, for the allowed ends and transitions |
| Connections.NetworkingService.BlockParticipant | app/modules/networking/service.py:213-226 | blocks the pair, creating its row if needed; only the other's eligibility is checked |
| Connections.NetworkingService.UnblockParticipant | app/modules/networking/service.py:173-179 | removes the blocked row of the pair |
| Matchmaking.AddCases | app/modules/networking/service.py:92-95 | the generated case expressions add the weight once per shared value |
| Matchmaking.EvaluateScore | app/modules/networking/service.py:91-103 | the query's score expression evaluates to the specified score |
| Matchmaking.ScoresMean | app/modules/networking/service.py:84-121 | two points per common interest, one per skill, two for the organization, one for the designation, three for a common competition, two for the participation type of the viewer's first active registration |
| Matchmaking.ScoresAgree | app/modules/networking/service.py:87-121 | ordering score and reported score of a row are equal exactly when they agree on the participation type, always with one active registration per user |
| Matchmaking.TwoRegistrationsDisagree | app/modules/networking/service.py:100-121 | with two active registrations they can differ |
| Matchmaking.RecommendedPage | app/modules/networking/service.py:104-123 | a page is the slice of the ordered candidates with the recomputed scores |
| Matchmaking.ReportedScoresDescend | app/modules/networking/service.py:104-123 | with one active registration each, reported scores never increase within or across pages |
| Matchmaking.ListIsOrdered | app/modules/networking/service.py:104-108 | the list is ordered by the query's score, descending, and then by id |
| Matchmaking.EveryCandidateIsListed | app/modules/networking/service.py:104-108 | every candidate has exactly one place |
| Activities.ActivityPage | app/modules/networking/service.py:145-161 | total and page length are right; the page is in order, and equals the slice of the merged list exactly when each query covers its part of the list up to the page's end |
| Activities.PageLength | app/modules/networking/service.py:152-161 | the length needs no condition |
| Activities.FetchedFirst | app/modules/networking/service.py:152-153 | each query fetches the sessions that start first, or the competitions created first, by id among equals |
| Activities.PageExact | app/modules/networking/service.py:152-161 | a page is exact if and only if it is empty or the first rows of each table by the merge key, up to the page's end, are among the rows its query fetched |
| Activities.MergedIsSplit | app/modules/networking/service.py:158-158 | the merged list is the sessions by start, title and id, then the competitions by title and id |
| Activities.AllPagesExact | app/modules/networking/service.py:145-161 | every page of every size is exact if and only if the i-th session by the merge key is among the first i rows of its query, and the j-th competition among as many rows of its query as there are sessions and j more |
| Activities.PagesRefineMergedList | app/modules/networking/service.py:145-161 | with agreeing orders every page is exact |
| Activities.FewCompetitions | app/modules/networking/service.py:145-161 | with agreeing sessions and at most one competition more than sessions every page is exact, whatever the creation order of the competitions |
| Activities.DisagreeingCanBeExact | app/modules/networking/service.py:152-158 | agreeing orders are not needed: one session and two competitions created against their title order |
| Activities.AgreeingTables | app/modules/networking/service.py:152-158 | distinct start times, or creation in title order, make the orders agree |
| Activities.CreationOrderCanHideRows | app/modules/networking/service.py:153-161 | without sessions, the first page of one item is wrong for those two competitions |
| OneTimeCodes.ClaimsAreApart | app/modules/identity/service.py:71-79 | over any interleaving of calls, successful claims of one cooldown key are at least the cooldown apart |
| OneTimeCodes.CounterIsExact | app/modules/identity/service.py:116-122 | a window counter cannot run out within its window, so it counts every request |
| OneTimeCodes.WindowLimit | app/modules/identity/service.py:116-122 | at most the maximum passes in each aligned window |
| OneTimeCodes.IntervalLimit | app/modules/identity/service.py:116-122 | at most twice the maximum passes in any interval of one window length |
| OneTimeCodes.TwiceIsReached | app/modules/identity/service.py:116-122 | for all settings and every maximum, an interval that does not start with a window sees twice the maximum in some run |
| OneTimeCodes.IntervalKeptIffAligned | app/modules/identity/service.py:116-122 | over all runs the maximum holds for an interval of one window length exactly when it starts with a window |
| OneTimeCodes.DeployedLimits | app/modules/identity/service.py:116-122 | the deployed numbers: 10 per minute of the clock, 20 in any 60 seconds |
| OneTimeCodes.RunKeepsTold | app/modules/identity/service.py:93-203 | over every run, each sent code is tried wrongly at most the maximum number of times and rightly at most once, and while it is live the stored count is exact |
| OneTimeCodes.TriesAreBounded | app/modules/identity/service.py:158-174 | over every run of requests and verifications each sent code is tried wrongly at most the maximum number of times and rightly at most once, and a code that is still stored has not been used |
| OneTimeCodes.SentCodeLives | app/modules/identity/service.py:136-140 | right after sending, the code is there exactly until its expiry has passed since it was stored, and no earlier wrong try is left |
| OneTimeCodes.SessionKeepsTold | app/modules/identity/service.py:136-174 | one request or verification keeps that, also while keys run out between its calls |
| OneTimeCodes.LiveVerification | app/modules/identity/service.py:151-174 | while the code lives, a verification is right exactly for the latest code with tries left |
| OneTimeCodes.OverlapBound | app/modules/identity/service.py:158-174 | when at most n verifications of one code overlap, at most n succeed, and right and wrong tries together are at most the maximum plus n less one; while the code can be used the stored count is the number of wrong tries |
| OneTimeCodes.OverlapTallies | app/modules/identity/service.py:158-174 | exactly the numbers of wrong and right tries within that bound happen in some run, for every n and every maximum of at least one |
| OneTimeCodes.SendsAreApart | app/modules/identity/service.py:106-115 | two sent codes for one subject claimed its cooldown at least the cooldown apart |
| OneTimeCodes.DeployedCodes | app/config.py:58-65 | with the default settings: at most 5 wrong tries per code, sends to one subject 30 seconds apart, at most 1000 requests per minute of the clock in all |
| OneTimeCodes.RefusedIffStopped | app/modules/identity/service.py:106-134 | a request sends no code exactly when it finds its cooldown or device key there or a window count is above its maximum; too soon means the cooldown |
| OneTimeCodes.CodeService.ClaimCooldown | app/modules/identity/service.py:106-115 | looks, then claims; refuses as too soon exactly when either finds the key |
| OneTimeCodes.CodeService.CountWindow | app/modules/identity/service.py:116-134 | counts in the window of the moment and lets through exactly when the count is at most the maximum |
| OneTimeCodes.CodeService.ClaimDevice | app/modules/identity/service.py:123-127 | claims the device's own cooldown and restarts it |
| OneTimeCodes.CodeService.RequestOtp | app/modules/identity/service.py:93-149 | sends exactly when every gate let the request through; only then are code and tries replaced; a refusal names the first gate that refused |
| OneTimeCodes.CodeService.SendEmailCode | app/modules/identity/service.py:182-203 | the same for mail codes, with the cooldown as the only gate |
| OneTimeCodes.CodeService.VerifyCode | app/modules/identity/service.py:158-174 | reads the tries, then the code, compares only below the maximum, counts a wrong try and consumes a right code |
| Dedupe.StepKeepsSound | app/modules/notifications/repository.py:20-51 | every step of every transaction keeps keys unique and returned rows valid |
| Dedupe.RunKeepsSound | app/modules/notifications/repository.py:20-51 | so does every interleaving |
| Dedupe.OneRowPerKey | app/modules/notifications/repository.py:29-45 | at most one row, committed or not, has a key |
| Dedupe.CreatorsAgree | app/modules/notifications/repository.py:20-51 | all committed creators of a key that got a row got the same committed row; only an unresolved foreign key leaves one without |
| Dedupe.RecoverRaises | app/modules/notifications/repository.py:46-50 | after a failed insert: a lost race raises exactly for the empty text, an unresolved foreign key exactly when the look-up has no key or finds no row |
| Dedupe.WhatRaises | app/modules/notifications/repository.py:20-51 | over every interleaving, without unresolved foreign keys only the empty text raises; otherwise a visible row with the key is returned |
| Dedupe.EmptyTextRaises | app/modules/notifications/repository.py:22-50 | a run of two creators in which the empty text raises |
| Dedupe.UnresolvedRaises | app/modules/notifications/repository.py:43-50 | for every key, a run in which an unresolved foreign key raises |
| Dedupe.LostInsertKeepsAll | app/modules/notifications/repository.py:43-46 | a failed insert takes no row and no earlier result away and leaves the session usable |
| Dedupe.EarlierRowsSurvive | app/modules/notifications/repository.py:43-51 | rows and results of a transaction that does not abort stay over every run |
| Dedupe.WaitingIsForSomeone | app/modules/notifications/repository.py:43-45 | an insert waits exactly when another running transaction holds an uncommitted row with its key |
| Dedupe.OrderedNeverCircle | app/modules/notifications/repository.py:20-51 | transactions that ask for their keys in one common order never wait for each other in a circle |
| Dedupe.OppositeOrdersCircle | app/modules/notifications/repository.py:20-51 | a run of two that insert two keys in opposite order and wait for each other |
| DedupeCircles.CircleIffCrossing | app/modules/notifications/repository.py:20-51 | two transactions with given lists of keys can wait for each other if and only if, at some point of both lists, they have no key in common so far and each next asks for one the other has |
| DedupeCircles.RunIsGoing | app/modules/notifications/repository.py:29-51 | while both run, each has rows with exactly the keys it has asked for |
| Dedupe.OthersKeepRely | app/modules/notifications/repository.py:29-45 | what a creator relies on holds of every step of another transaction |
| Dedupe.NotificationRepository.Create | app/modules/notifications/repository.py:20-51 | with others moving in between: returns the row of the key, adds at most its own new row, keeps everything else, and raises exactly when a row with the empty text won, or the row did not resolve and a look-up finds nothing |
| Polls.Dedup | app/modules/interactions/service.py:137-137 | each selected option once, in the order of first occurrence |
| Polls.RunMeaning | app/modules/interactions/service.py:130-161 | over every run a user's ballot is the last accepted selection, one the poll permits; without vote changes at most one is accepted |
| Polls.BallotIsAllowed | app/modules/interactions/service.py:137-145 | a ballot holds distinct options of the poll, one for a single choice, at most the limit if there is one |
| Polls.AcceptedIff | app/modules/interactions/service.py:130-148 | a vote is accepted exactly when the stored status and time permit it, the user may take part, every option is the poll's, the distinct options are one for a single choice and within the limit, and the user has no ballot yet or may change it |
| Polls.OpenForVotes | app/modules/interactions/service.py:43-55 | time refuses no vote exactly when the stored status is live before the end or scheduled from the start on; so past the end it refuses none exactly when the stored status is scheduled and the start has passed |
| Polls.OneLateVote | app/modules/interactions/service.py:43-55 | over every run at most one vote per poll is accepted past its end, and none once the poll has been opened |
| Polls.LateVoteHappens | app/modules/interactions/service.py:130-135 | a run in which one is |
| Polls.VoteRefines | app/modules/interactions/service.py:150-158 | replacing the rows of one response keeps rows and ballots in agreement |
| Polls.CountIsVoters | app/modules/interactions/service.py:178-178 | the rows counted for an option are as many as the users whose ballot has it |
| Polls.TotalIsVoters | app/modules/interactions/service.py:178-179 | the total is the sum of the options' voters |
| Polls.PercentagesAddUp | app/modules/interactions/service.py:179-180 | as soon as there is a vote the rounded percentages sum to 100 within 0.005 per option |
| Polls.HundredthsNearest | app/modules/interactions/service.py:180-180 | a percentage is rounded to the nearest hundredth, to the even one when two are equally near |
| Polls.PollService.CheckVote | app/modules/interactions/service.py:130-148 | refuses with the error of the first check that fails |
| Polls.PollService.ReplaceRows | app/modules/interactions/service.py:150-158 | deletes the earlier rows and writes one row per option |
| Polls.PollService.CastVote | app/modules/interactions/service.py:130-161 | rows and ballots move together; a refused vote changes nothing |
| Polls.PollService.ChangeStatus | app/modules/interactions/service.py:83-97 | moves the status exactly along the allowed transitions |
| Polls.PollService.VoteFor | app/modules/interactions/service.py:163-167 | the rows read back are the user's ballot |
| Polls.PollService.Results | app/modules/interactions/service.py:169-180 | who may see the results: a manager, or by visibility nobody, those who voted, everybody, or once the poll is stored as closed or archived or as live past its end; and tallies that count the users per option with their percentages |

## Left out

- Cloning.CloneService.DuplicateEvent: does not say in advance whether every moved item will fit; that depends on the
  order in which the items are booked, because conflict lookups are not symmetric. `CopySchedule` states it per item.
- Cloning.CopyIffOwnOnly: the snapshot itself drops a policy's list of valid dates, so a clone never has it; snapshots are
  compared as the code builds them.
- Connections.RunAgrees: each operation is one atomic step. The code reads the row without a lock in requests and answers;
  for those interleavings `ConnectionRaces` states what becomes of the rows and of a block, not of the whole history. There,
  a block of a pair that has no row yet is atomic; in the code it can also fail when a row is inserted in between.
- OneTimeCodes.RunKeepsTold: sessions run one at a time (each call at its own time). Overlapping verifications are treated
  on their own, for one sent code (`OverlapBound`). The rate limits are proved for every interleaving of calls. A request
  that reads the clock in one window and increments in the next is not modelled.
- ScheduleLocks.NeverDoubleBooked: an update writes the columns that differ from the row read, as the object-relational
  mapper does; cancelling and deleting are single steps that wait for the row's lock.
- ScheduleWaits.SingleBookingsCircle: the lock that `create_match` takes before the scope locks is not modelled; its hash
  could coincide with theirs, too.
- Polls.PercentagesAddUp: percentages are computed over the reals and rounded half to even; binary rounding errors of the
  division are not modelled.
- Matchmaking.RecommendedPage: filters, search terms and the total count are not modelled; candidates are the rows that
  pass the filters, and a list column contains a value when the value is one of its elements.
- AccountStatus.SuperAdminSurvives: roles are fixed; granting and revoking roles is not modelled.
- Dedupe.CreatorsAgree: statements see what is committed when they run; a snapshot per transaction is not modelled, and
  rows are not deleted. Of the other constraints only the foreign keys can fail an insert.
- Dedupe.EarlierRowsSurvive: a transaction that the database gives up to break a circle of waiting ones loses its rows like
  any aborted one; how the database detects circles is not modelled.
- SeedReset.Session.ResetOwned: that deleting the manifest itself leaves no dangling reference is stated for schemas without
  foreign keys into the audit table, as the platform's is.
- Seeder: tables and their foreign keys are one list of links; the manifest document is reduced to its records; the legacy
  inventory file is a parameter; other constraints of seeded rows and automatic update timestamps are not modelled.
- Scheduling: locks exist as on the production database; the branch that skips them elsewhere is not modelled. The
  checks of `create_match` of the stage and the entries, and the match row itself, are not modelled.
- Cloning: who may clone, and the category and manager of the clone, are in `Categories.CloneEventRow`.
- Categories: unique names, `update_main_category` and descriptive fields do not touch the invariant.
- Categories: `AccountStatus` and `Categories` take the assignments of other roles as given.
- Codes: normalizing numbers and addresses, generating, hashing and sending codes, and checks of the account around the
  Redis calls; equal hashes stand for equal codes. The compatibility path of `_claim_rate_limit` without atomic claims is
  not part of this model.
- Networking: profiles, dismissals, reports and search filters; eligibility and visibility are inputs that may change
  between operations.
- Polls: creating polls, questions and upvotes.
- Audit-log entries, notifications sent along the way, payments, tickets, registrations, waitlists and staff.
