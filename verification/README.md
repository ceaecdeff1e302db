# Schedule service: a verified model

A Dafny 4.11 model of a calendar service (schedules, reminders, recurrence series,
a transactional outbox, account erasure, iCalendar export, extraction admission)
and proofs of what the service keeps over every run.

`dafny verify dfyconfig.toml` checks everything.

## What is modelled

The service keeps its tables in a database and changes them one transaction at a
time. `Ledger` states what each call does as a function from tables to tables: a
call is refused, answered from an earlier idempotency claim, or commits a list of
row changes, each with its own outbox event. `Transactions` holds the service's
methods, statement by statement and loop by loop, on a copy of the tables;
returning the copy is the commit, returning the tables as given is the rollback,
and every method is proved to do exactly what the ledger says. `Service` is the
object whose table field these methods replace.

On the ledger rest the results about all runs from empty tables, for any mix of
calls, users, erasures and passing time:

- `Journal`, `Runs`: the outbox is a faithful journal of every schedule.
- `Structure`: reminder sets, series and their places keep their shape.
- `Claims`: idempotency keys and expected revisions decide which call takes effect.
- `Tails`, `PatchEffect`, `CallEffect`: what each call writes, field by field, and
  which error it meets.
- `ReminderIds`, `NormalForm`: reminder numbers and time normal form over runs.
- `Erasure`, `AccountDeletion`: erasure is final, and reported only when done.
- `Replica`: what a subscriber rebuilds from the events; message ids never clash.

`Outbox` is the dispatcher's protocol (any number of workers, leases, crashes,
lost and repeated publishes), `Dispatching` a worker as it runs, and `Delivery`
puts ledger, dispatcher and broker together and proves the end-to-end result;
`Recovery` shows that nothing in the pipeline is ever stuck.

`LocalTime`, `Calendar`, `Recurrence`, `Creation` and `Patching` cover wall-clock
resolution, the Gregorian calendar, recurrence expansion, the times of new
schedules and the merge of a PATCH; `Expansion` says what an expansion means
in terms of the request. `Paging` is keyset pagination over a changing
table, `Ics` the iCalendar printer with its reader, `Admission` the limiter for
extraction requests.

A time zone is any function from instants to offsets within 48 hours, together
with the instant at which each of its days begins. Dates are day numbers of the
proleptic Gregorian calendar. Instants of schedules are nanoseconds, instants of
the database clock are milliseconds. Identifiers are numbers handed out in order.

## Where the code and the obvious statement differ

- Replaying a creation after its schedule was deleted is a conflict
  (internal/service/schedules.go:146-149), although README.md:203-204 of the
  service promises the original response. `Claims.CreateReplaysWhileItExists` gives
  the exact condition, `Claims.ReplayAfterDeleteConflicts` the failing case.
- A following-scope PATCH that changes the timezone measures the shift between the
  old and the new zone and applies it to readings in the new zone. The series then
  moves as one exactly if both zones had the same offset at the selected
  occurrence's old start: `Patching.ShiftUniformIffOffsetsAgree`, with
  `Patching.TimezoneChangeMovesLaterRows` as a failing case.
- An all-day creation given by local times stores no dates
  (internal/api/schedules.go:588-607): `Creation.AllDayByLocalTimeIsNotNormal`.
  `Creation.NormalUnlessAllDayByLocalTime` shows that this is the only way, and
  `NormalForm.RowsStayNormal` that nothing else in a run leaves normal form.
- The list handler refuses a cursor at or after the end of the range
  (internal/api/schedules.go:263), which its own page can hand out:
  `Paging.OwnCursorAcceptedIff` and `Paging.CursorRefusedAtItsOwnPage`.
- Two changes of offset between neighbouring probes can hide an instant from the
  resolver: `LocalTime.TwoStepsInOneGapHideAnInstant`.
- A worker stalled past its lease is joined by a second one on the same row:
  `Outbox.StalledWorkerIsJoined`. Likewise an extraction still going after 20 s:
  `Admission.OverlongRunIsJoined`.
- MySQL evaluates SET clauses from left to right, so the backoff sees the raised
  counter: the first wait is 4 s, and the 300 s cap never bites
  (`Outbox.BackoffIsBounded`).

## Model

| member | source | states |
|---|---|---|
| LocalTime.ResolveLocalDateTime | internal/api/localtime.go:15-62 | for any zone, reading and fold: the only candidate, or the least or greatest of several as the fold says; nonexistent exactly when there is none, ambiguous when several and no fold decides, fold refused when not needed |
| LocalTime.ProbeOffsets | internal/api/localtime.go:28-32 | the set holds exactly the offsets in force at the seven probe points |
| LocalTime.TryOffsets | internal/api/localtime.go:33-42 | keeps exactly the instants that read back as the asked wall time, in whatever order the map is walked |
| LocalTime.Choose | internal/api/localtime.go:43-61 | the sorted ends of any listing of the candidates give the answer, so map order never matters |
| LocalTime.SortedEnds | internal/api/localtime.go:43 | sorting a duplicate-free listing puts the least candidate first and the greatest last |
| LocalTime.ResolveRecurringLocal | internal/api/recurrence.go:232-238 | a fold is used only when the time is ambiguous |
| LocalTime.ResolveServiceWall | internal/service/schedules.go:862-894 | the updater's resolver, which deduplicates by instant, computes the specified answer or fails on an unknown zone |
| LocalTime.ResolveWallAnswers | internal/service/schedules.go:868-893 | that answer is the one every correct resolver gives over the candidates |
| LocalTime.ResolversAgree | internal/api/recurrence.go:232-238 | for every wall time, zone and fold the two independent resolvers succeed together, fail together with the same error and name the same instant |
| LocalTime.ReadsBack | internal/service/schedules.go:869-875 | a candidate instant reads exactly as the asked wall time, to the nanosecond |
| LocalTime.CandidatesAreAllPreimages | internal/api/localtime.go:28-42 | if the offset changes at most once between neighbouring probes, the candidates are precisely all instants that read the wall time |
| LocalTime.ResolutionIsExact | internal/api/localtime.go:28-61 | under that condition the resolver's answer is about all instants: earliest, latest, unique, none |
| LocalTime.SingleTransitionIsRegular | internal/api/localtime.go:28-32 | one transition within 48 h satisfies the condition, and then at most two instants read the wall time |
| LocalTime.TwoStepsInOneGapHideAnInstant | internal/api/localtime.go:28-32 | for every reading, every gap between probes and every place strictly inside it, a zone with two changes there where an instant exists but no probe leads to it |
| Calendar.ClosedForm | internal/api/recurrence.go:130-136 | month lengths added up agree with the closed leap-year formula |
| Calendar.MonthUnique | internal/api/recurrence.go:224 | every day lies in exactly one month |
| Calendar.YearSpan | internal/api/recurrence.go:116 | AddDate(1,0,0) moves any date by 365 or 366 days |
| Calendar.MondaysApart | internal/api/recurrence.go:208-210 | the distance of two Mondays divided by seven counts the weeks between the dates |
| Calendar.KnownSunday | internal/api/recurrence.go:49 | the day count is anchored right: 8 March 2026 is a Sunday |
| Recurrence.GenerateOccurrences | internal/api/recurrence.go:30-201 | succeeds exactly on valid requests that want 1 to 100 dates all of which can be realized, and then returns one occurrence per wanted date, in order, with the months passed over |
| Recurrence.ChosenAreFirstAdmissible | internal/api/recurrence.go:113-187 | the wanted dates ascend, are admissible, and leave out an admissible date only when the count is used up by earlier ones |
| Recurrence.MatchesAgree | internal/api/recurrence.go:203-222 | Go's arithmetic on Mondays and day differences is the rule's meaning |
| Recurrence.DayCandidates | internal/api/recurrence.go:119-127 | the loop bounded by 366 finds every matching day up to the limit |
| Recurrence.MonthLoop | internal/api/recurrence.go:128-144 | the loop bounded by 12 reaches every matching day up to the limit, in order, and records every month that is too short |
| Recurrence.MonthsEqualScan | internal/api/recurrence.go:128-144 | stepping by months finds exactly the days that scanning every day finds |
| Recurrence.Materialize | internal/api/recurrence.go:146-184 | skips exdates, stops at the count, fails exactly when one of the dates before that cannot be realized |
| Recurrence.Realize | internal/api/recurrence.go:151-180 | the occurrence on a day has that day's boundaries or resolved wall times, and an end after its start |
| Recurrence.FilterInPlace | internal/api/recurrence.go:192-198 | filtering into the front of the same buffer equals the functional filter |
| Recurrence.TrimSkipped | internal/api/recurrence.go:188-199 | keeps exactly the short months up to the last occurrence; the final sort is a no-op |
| Recurrence.SkippedBefore | internal/api/recurrence.go:188-198 | the records kept are exactly the short months before the month of the last occurrence |
| Recurrence.Validate | internal/api/recurrence.go:35-110 | accepts exactly the valid requests and yields the rule read from its anchor |
| Recurrence.WeekdaySet | internal/api/recurrence.go:47-54 | accepts exactly duplicate-free lists of known codes |
| Recurrence.ExdateSet | internal/api/recurrence.go:85-92 | accepts exactly lists of parsable dates |
| Recurrence.OccurrencesIncrease | internal/api/recurrence.go:146-184 | in zones never set back by a whole day, local dates and instants of an expansion strictly increase |
| Recurrence.MonthsAccounted | internal/api/recurrence.go:128-149 | each month the rule lands on through the last occurrence is accounted for exactly once: an occurrence, an exdate, or a skipped record |
| Recurrence.ValidateRule | internal/api/recurrence.go:35-57 | accepts exactly a known frequency every 1 to 30 units, a count of 1 to 100 or an until date, at most 100 exdates, weekdays for weekly rules only |
| Recurrence.ValidateSpan | internal/api/recurrence.go:63-101 | accepts exactly all-day spans of 1 to 366 days between parsable dates |
| Expansion.ValidMeans | internal/api/recurrence.go:35-110 | the requests that are expanded, in terms of the request's own fields and readings |
| Expansion.DatesAreExact | internal/api/recurrence.go:113-187 | the dates of an expansion ascend, lie within a year of the anchor and not after until, are on the rule and not excluded, and an admitted date is missing only if the count is used up by earlier ones |
| Expansion.OccurrencesKeepTheClock | internal/api/recurrence.go:161-178 | every timed occurrence starts at the clock time of the request's start on its own day, and lasts on the wall clock as long as the request, down to the second |
| Expansion.OccurrencesAreWholeDays | internal/api/recurrence.go:151-159 | every all-day occurrence spans as many whole local days as the request |
| Expansion.FirstOccurrenceIsTheStart | internal/api/recurrence.go:146-184 | if the request's own date is on the rule and not excluded it comes first, and if its reading is unambiguous it starts at the very second of the request |
| Expansion.RealizableMeans | internal/api/recurrence.go:161-178 | a date can be realized exactly if its start and end readings have answers, the end after the start |
| Creation.ResolveScheduleTimes | internal/api/schedules.go:570-642 | succeeds exactly on the acceptable requests (an allowed combination of fields, a known zone where one is used, dates that parse and begin in order, local times that resolve) and then yields exactly the times they stand for; only local times can be unresolved |
| Creation.NormalUnlessAllDayByLocalTime | internal/api/schedules.go:571-641 | what an accepted request stores is in normal form exactly if it is not an all-day request given by local times |
| Creation.AllDayByLocalTimeIsNotNormal | internal/api/schedules.go:588-607 | such requests are accepted: an all-day request with any local start in UTC stores no dates |
| Creation.ResolveNs | internal/api/localtime.go:15-62 | a local time resolves exactly if the resolver has an answer, else with the resolver's reason |
| Creation.FromDates | internal/api/schedules.go:571-584 | succeeds exactly if both dates parse in a known zone and the second day begins after the first, with those whole days |
| Creation.FromLocalTimes | internal/api/schedules.go:588-607 | succeeds exactly if the local times resolve, with no dates; otherwise the start's failure, then the end's |
| Creation.Widened | internal/api/schedules.go:618-637 | instants of an all-day schedule are widened to whole local days, at least one |
| Patching.MergeSchedulePatchFields | internal/service/schedules.go:775-839 | the field-by-field merge is the specified merge, error cases included |
| Patching.ShiftFollowing | internal/service/schedules.go:686-744 | one turn of the following-update loop writes the specified fields to a later occurrence |
| Patching.ShiftTimed | internal/service/schedules.go:717-740 | the timed branch: both wall readings resolved, end after start or refused |
| Patching.MergeIsNormal | internal/service/schedules.go:495-528 | after any successful PATCH the row is timed without dates, or all-day with start date before end date and both instants at those midnights |
| Patching.FollowingIsNormal | internal/service/schedules.go:686-744 | so is every later occurrence a following-scope PATCH rewrites |
| Patching.LaterShift | internal/service/schedules.go:666-671 | every later timed occurrence moves by the one wall shift and gets the one wall length |
| Patching.UniformShift | internal/service/schedules.go:666-723 | with the timezone unchanged, a later occurrence moves by exactly what the selected one moves |
| Patching.ShiftUniformIffOffsetsAgree | internal/service/schedules.go:666-723 | with a new timezone it does so if and only if both zones had the same offset at the selected occurrence's old start |
| Patching.TimezoneChangeMovesLaterRows | internal/service/schedules.go:666-723 | a patch of the timezone alone that leaves the selected instant and moves later ones by an hour |
| Patching.UniformDayShift | internal/service/schedules.go:673-716 | all-day occurrences move by one number of days and span one number of days |
| Patching.MillisecondIsTheThreshold | internal/api/dto.go:25-28 | a gap of 1 ms or more, and no smaller one, always survives rounding or truncation to milliseconds |
| Changes.ScanIsExact | internal/service/reminders.go:19-38 | a reminder list passes exactly if every entry is in range and on a known channel and none is listed twice |
| Changes.PlanIsValid | internal/service/schedules.go:20-1166 | whatever a call commits is a list of changes to the caller's own rows: new rows at revision 1, edits that raise the revision by one and keep owner and place, deletions |
| Changes.TargetsComplete | internal/service/schedules.go:610 | the targets of a following-scope call miss no schedule of the series in the index range |
| Journal.ApplyKeeps | internal/service/events.go:65-76 | one change with its event keeps every schedule's journal in step with the table |
| Journal.EraseKeeps | internal/service/account_deletion.go:23-27 | erasure removes whole journals, never parts of one |
| Journal.RevisionsDiffer | internal/service/events.go:39-76 | two events of one schedule carry different revisions, in outbox order |
| Structure.CommitSound | internal/service/schedules.go:195-223 | every committed call keeps reminders valid, places unique and owned, and no series without an occurrence |
| Structure.PruneTidies | internal/service/schedules.go:924 | pruning within its scope leaves no series without an occurrence |
| Structure.EraseSound | internal/service/account_deletion.go:28-40 | so does erasing an account |
| Runs.OutboxTellsTheStory | internal/service/events.go:39-76 | in every reachable state a schedule's events carry revisions 1..n each once; if it is live, n is its revision and event n shows the row field by field; if deleted, event n is the deletion |
| Runs.TablesKeepTheirShape | internal/service/reminders.go:19-38 | in every reachable state: at most five valid, distinct reminders; no empty series; occurrences owned by the series' owner at distinct indices |
| Runs.ErasureIsAbsorbing | internal/service/account_deletion.go:13-54 | after cleanup, whatever happens next, the user owns no row in any table and every call of theirs is refused without effect |
| Erasure.EraseTakesAll | internal/service/account_deletion.go:19-41 | cleanup leaves the tombstone and nothing else of the user |
| Erasure.EraseSparesOthers | internal/service/account_deletion.go:23-40 | cleanup takes no row from anybody else, in any table |
| Erasure.EraseTwice | internal/service/account_deletion.go:13-42 | cleaning up twice is cleaning up once |
| Erasure.ErasedIsRefused | internal/service/account_deletion.go:44-54 | a tombstoned user's call is refused and changes nothing |
| Claims.ExactlyOnce | internal/service/schedules.go:1050-1073 | within 24 h of a call that took effect, a call with its user, operation and key changes nothing; with the same content it is answered as the first or refused, with other content refused as a conflict |
| Claims.AtMostOneTakesEffect | internal/service/schedules.go:116-153 | in any run, two calls with one user, operation and key that both take effect are at least 24 h apart |
| Claims.ClaimsComeFromCommits | internal/service/schedules.go:97-106 | a claim is visible only if the mutation it guards committed, and holds what was asked and answered then |
| Claims.CreateReplaysWhileItExists | internal/service/schedules.go:139-152 | a repeated creation gets the first reply exactly while the schedule still exists, else a conflict |
| Claims.ReplayAfterDeleteConflicts | internal/service/schedules.go:146-149 | create, delete, create again with the same key: a conflict, for every creation |
| Claims.UpdateReplaysWhileItExists | internal/service/schedules.go:436-451 | a repeated PATCH gets the first reply exactly while the schedule is still the caller's, else it is not found |
| Claims.DeletionsAlwaysReplay | internal/service/schedules.go:905-911 | a repeated deletion of any kind always gets the first reply |
| Claims.ReminderReplaysWhileItExists | internal/service/reminders.go:76-97 | a repeated reminder creation gets the first reply exactly while schedule and reminder are there, else not found or a conflict |
| Claims.KeyIsFreeAfterADay | internal/service/schedules.go:1051-1056 | a claim is no longer live 24 h after it was filed |
| Claims.KeysMean | internal/service/schedules.go:1054-1066 | keys are told apart by user, kind of call and text |
| Claims.SameRequestMeans | internal/service/schedules.go:116-123 | what makes two requests the same: the input of a creation with its defaults, the ids, or the body |
| Claims.AtMostOneSucceeds | internal/service/schedules.go:453-459 | of all conditional writes of a run that expect the same revision of one schedule, at most one takes effect |
| Claims.ReplayAgrees | internal/service/schedules.go:265-289 | the early answer to a repeated PATCH is what the full update would answer, and that update would change nothing |
| Tails.TargetsAreTheTail | internal/service/schedules.go:610 | the targets are exactly the series' schedules at or after the selected one |
| Tails.FollowingChangesTheTail | internal/service/schedules.go:681-758 | a following-update rewrites exactly those rows, each revision raised by one, and touches no other schedule |
| Tails.SelectedAsIfAlone | internal/service/schedules.go:651-687 | the selected row ends up as an update of it alone would leave it, with the same reply |
| PatchEffect.MergeAsAsked | internal/service/schedules.go:464-528 | merging succeeds exactly on mergeable patches, and then each field is the patch's value where it has one and the old value where it has none, with whole local days if all-day |
| PatchEffect.UpdateOutcome | internal/service/schedules.go:421-570 | which error a PATCH of one schedule meets; otherwise the row is as asked for, one revision on, no other row changes, and the reply is that row |
| PatchEffect.UpdateWritesWhatIsAsked | internal/service/schedules.go:464-550 | a PATCH of either scope that takes effect leaves the schedule it names, and replies, as asked for |
| PatchEffect.UnknownScopeIsRefused | internal/service/schedules.go:425-427 | any other scope is refused |
| PatchEffect.LaterIsAsAsked | internal/service/schedules.go:686-744 | a later occurrence is rewritten exactly if it can be, with plain fields as asked for and its times moved by the selected occurrence's shift |
| PatchEffect.FollowingOutcome | internal/service/schedules.go:572-773 | which error a following-scope PATCH meets; otherwise every row of the tail is as asked for, no other row changes, and the reply is the selected row |
| Tails.FollowingLeavesNormalRows | internal/service/schedules.go:742-747 | every row written is in normal form |
| Tails.PatchLeavesNormalRow | internal/service/schedules.go:421-570 | any PATCH that takes effect, of either scope, leaves the schedule it names in normal form |
| NormalForm.RowsStayNormal | internal/service/schedules.go:495-528 | if every creation of a run brings normal times, every row is in normal form in every state of the run |
| NormalForm.AbnormalIsStored | internal/service/schedules.go:56-71 | a creation that does not is stored as it is |
| NormalForm.HandlerBringsNormal | internal/api/schedules.go:65-74 | the handler's accepted creations are normal exactly if they are not all-day requests given by local times |
| Tails.TailMovesAsOne | internal/service/schedules.go:717-740 | with timezone and all-day mode unchanged, all timed rows move by one wall shift and get one wall length, or all lose their end |
| Tails.TailMovesByDays | internal/service/schedules.go:692-716 | all dated all-day rows move by one number of days and span one number of days |
| Tails.DeleteFollowingRemovesTheTail | internal/service/schedules.go:971-1035 | deletion from one occurrence on removes exactly the tail |
| Tails.BulkDeleteIsAllOrNothing | internal/service/schedules.go:1104-1150 | takes effect if and only if every id is the caller's and listed once; then removes exactly those, else changes nothing |
| CallEffect.ReminderFaultMeans | internal/service/reminders.go:19-38 | a list passes exactly if it has at most five good, different entries; else too many is reported first, then the first wrong entry |
| CallEffect.CreateOutcome | internal/service/schedules.go:20-112 | a creation is refused for its reminders alone; else exactly one row more, with the input's fields, the defaults for what was empty, revision 1 and exactly the reminders asked for, which is also the reply |
| CallEffect.CreateSeriesOutcome | internal/service/schedules.go:158-252 | which error a series creation meets; else exactly one row per occurrence with its own times and place, the series, and nothing else |
| CallEffect.AddReminderOutcome | internal/service/reminders.go:98-171 | which error it meets; else the list gains exactly the reminder in its place, fields and other rows stay |
| CallEffect.DeleteReminderOutcome | internal/service/reminders.go:193-229 | not found, or the list loses exactly the reminder, fields and other rows stay |
| CallEffect.DeleteOutcome | internal/service/schedules.go:912-939 | not found, or exactly that schedule goes |
| CallEffect.DeleteFollowingOutcome | internal/service/schedules.go:964-1047 | which error it meets; else exactly the tail goes |
| CallEffect.EventsAreStamped | internal/service/events.go:65-76 | whatever a call announces carries the time of its transaction |
| ReminderIds.NumbersDiffer | internal/service/reminders.go:119-130 | in every reachable state the reminders of a schedule carry different numbers |
| ReminderIds.DeletesExactlyOne | internal/service/reminders.go:202-208 | in every reachable state deleting a reminder takes exactly one away |
| Transactions.ValidateReminderSet | internal/service/reminders.go:19-38 | the loop with its seen-set returns the first fault of the list |
| Transactions.ClaimMutation | internal/service/schedules.go:1050-1073 | inserts a fresh claim over an expired one, or finds a conflict or a replay |
| Transactions.Begin | internal/service/schedules.go:433-451 | an early end is exactly the ledger's answer without effect; otherwise the claim is in place |
| Transactions.ToScheduleEvent | internal/service/events.go:39-63 | the event holds the row's published part with the full reminder list |
| Ledger.SnapshotPictures | internal/service/events.go:39-63 | the published snapshot is the one that shows the row's title, times, dates, timezone, source, status and whole reminder list |
| Transactions.CreateSchedule | internal/service/schedules.go:20-112 | tables and reply are what the ledger says of the call |
| Transactions.CreateRecurringSchedules | internal/service/schedules.go:158-252 | inserting all rows and then all events equals the ledger's row-by-row effect |
| Transactions.UpdateSchedule | internal/service/schedules.go:421-570 | tables and reply are what the ledger says of the call, for both scopes |
| Transactions.UpdateTail | internal/service/schedules.go:598-758 | the following-scope work: same effect or same error as the ledger |
| Transactions.QueryTail | internal/service/schedules.go:610-631 | the query's rows, ordered by index, are the ledger's targets |
| Transactions.LockAll | internal/service/schedules.go:635-641 | succeeds exactly if every target is the user's, and records their revisions |
| Transactions.DeleteSchedule | internal/service/schedules.go:896-940 | tables and reply are what the ledger says of the call |
| Transactions.DeleteScheduleFollowing | internal/service/schedules.go:942-1048 | tables and reply are what the ledger says of the call |
| Transactions.BulkDeleteSchedules | internal/service/schedules.go:1077-1166 | tables and reply are what the ledger says of the call |
| Transactions.OwnedCount | internal/service/schedules.go:1105-1111 | comparing two counts decides that all ids are owned and none is repeated |
| Transactions.AddReminderTo | internal/service/reminders.go:64-172 | tables and reply are what the ledger says of the call |
| Transactions.DeleteReminderFrom | internal/service/reminders.go:177-230 | tables and reply are what the ledger says of the call |
| Transactions.ReplayScheduleUpdate | internal/service/schedules.go:265-289 | finds nothing, a replay, a conflict or a missing schedule as specified |
| Transactions.CleanupDeletedAccount | internal/service/account_deletion.go:13-42 | the statements together are the specified erasure |
| Service.Service.Serve | internal/service/schedules.go:20-1166 | the object's tables become what the ledger says, and its invariant holds again |
| Service.Service.ServePatch | internal/api/schedules.go:363-548 | answering a repeated PATCH early is not visible: same tables, same reply |
| Service.Service.Cleanup | internal/service/account_deletion.go:13-42 | the object's tables become the erased ones, and its invariant holds again |
| AccountDeletion.HandleMessage | internal/accountdeletion/consumer.go:87-117 | cleanup, result, acknowledgement in that order, each of which may fail; acknowledges exactly invalid messages and published results |
| AccountDeletion.CompletedMeansErased | internal/accountdeletion/consumer.go:99-116 | over all interleavings and redeliveries, whenever a "completed" result is out its user owns nothing |
| AccountDeletion.AcknowledgedIsReported | internal/accountdeletion/consumer.go:110-116 | an acknowledged valid request has its result in the stream |
| AccountDeletion.NewReportIsExact | internal/accountdeletion/consumer.go:103-112 | a result that is new to the broker says which request it answers and how it ended |
| AccountDeletion.RedeliveryIsHarmless | internal/accountdeletion/consumer.go:100-102 | handling a request again changes no table |
| Replica.FoldIsTheNewest | internal/service/events.go:36-63 | the fold keeps, per schedule, the delivered event with the highest revision |
| Replica.AnyOrderRebuilds | internal/service/events.go:36-76 | a user's events in any order with any repetition fold to exactly their live schedules, each as it is now |
| Replica.Replay | internal/service/events.go:36-63 | the subscriber's loop computes that fold |
| Replica.MessageIdTells | internal/events/publisher.go:151 | equal message ids mean equal events |
| Replica.MessageIdsNeverClash | internal/events/publisher.go:131-161 | two different outbox rows of a run never share a message id, even across erasures |
| Replica.RunKeepsRows | internal/outbox/outbox.go:39-67 | a committed outbox row stays until its owner's account is erased |
| Outbox.DoKeeps | internal/outbox/outbox.go:72-137 | every step of every worker keeps the protocol's invariant |
| Outbox.PublishedWasAccepted | internal/outbox/outbox.go:80-85 | in every run a row marked published was accepted by the broker, and the stream repeats an event only after the dedup window |
| Outbox.PublishedIsFinal | internal/outbox/outbox.go:84 | no step changes a published row |
| Outbox.OvertakenChangesNothing | internal/outbox/outbox.go:84-87 | once a row was taken over, the earlier worker's mark or reschedule leaves the table unchanged |
| Outbox.MutualExclusion | internal/outbox/outbox.go:99-126 | two workers are on one row only if the earlier one's lease ended before the later one claimed |
| Outbox.StalledWorkerIsJoined | internal/outbox/outbox.go:99-126 | a worker stalled past its lease meets a second one on its row |
| Outbox.BackoffIsBounded | internal/outbox/outbox.go:133-135 | the wait is 4 to 256 s and the 300 s cap never bites |
| Outbox.RescheduleWaits | internal/outbox/outbox.go:133-135 | a failed attempt is counted and the next waits 4, 8, ... 256 s by the old count |
| Outbox.ClaimableAfterTheWait | internal/outbox/outbox.go:99-102 | a rescheduled row can be claimed exactly from the end of its wait on |
| Outbox.ClaimableAfterTheLease | internal/outbox/outbox.go:99-126 | a claimed row can be claimed again exactly when its 30 s are over |
| Outbox.NewRowIsClaimable | internal/outbox/outbox.go:60-62 | a new row can be claimed at once |
| Outbox.RowsStay | internal/outbox/outbox.go:72-137 | rows leave the table only by erasure and keep their event |
| Outbox.ClaimableWithin256Seconds | internal/outbox/outbox.go:99-102 | in every run an unpublished row that nobody touches is claimable within 256 s |
| Outbox.AlwaysRecoverable | internal/outbox/outbox.go:72-91 | from every reachable state an idle worker can get any unpublished row published |
| Dispatching.Dispatcher.ClaimRow | internal/outbox/outbox.go:93-130 | claims the first claimable row by available and created time under a fresh lock and a 30 s lease, or none is claimable |
| Dispatching.Dispatcher.PublishRow | internal/events/publisher.go:131-161 | hands the stored event to the broker, which ignores an id it remembers |
| Dispatching.Dispatcher.MarkPublished | internal/outbox/outbox.go:83-86 | marks the row only under the worker's own lock |
| Dispatching.Dispatcher.Reschedule | internal/outbox/outbox.go:132-137 | raises attempts and sets the wait only under the worker's own lock |
| Dispatching.Dispatcher.DispatchOnce | internal/outbox/outbox.go:72-91 | one claim, publish and mark or reschedule, with any steps of others in between, or nothing was claimable |
| Dispatching.TimelyDispatchSettles | internal/outbox/outbox.go:80-91 | a dispatch done within its lease publishes its row and changes nothing else of it, or returns it with one attempt more and the wait that goes with it; nobody touches it in between |
| Delivery.NextKeeps | internal/outbox/outbox.go:39-137 | every step of the whole pipeline keeps ledger and dispatcher table in agreement |
| Recovery.EverythingGetsOut | internal/outbox/outbox.go:69-91 | from every reachable state of the pipeline some continuation marks every row of every user published and changes nothing in the ledger but the time |
| Recovery.TruthIsAlwaysInReach | internal/outbox/outbox.go:69-91 | so from every reachable state some continuation brings every subscriber who reads on to exactly the user's present schedules |
| Delivery.SubscribersSeeTheTruth | internal/outbox/outbox.go:69-91 | once all of a user's rows are marked published, whoever has read the user's messages, in any order with any repetition, holds exactly the user's present schedules |
| Paging.QueryPage | internal/repo/schedules.sql.go:375-390 | the rows after the cursor, in order, none passed over, up to the limit |
| Paging.ListSchedulesPage | internal/service/schedules.go:368-412 | a page: matching rows in order, none passed over, and more exactly when matching rows lie beyond |
| Paging.ListPage | internal/api/schedules.go:255-284 | refuses exactly undecodable cursors and those at or after the end; else returns the page and the next cursor |
| Paging.MatchesMeans | internal/repo/schedules.sql.go:378-384 | a row is listed exactly if it is the user's, has a day or an instant in common with the range, has the status asked for and holds the text searched for |
| Paging.WalkAscends | internal/service/schedules.go:368-412 | however the table changes between pages, the rows shown ascend strictly over all pages |
| Paging.UnchangedRowShownOnce | internal/service/schedules.go:368-412 | a row that matches and stays put through a completed walk is shown exactly once |
| Paging.FixedTableGivesAll | internal/service/schedules.go:368-412 | on a fixed table the concatenated pages are the whole filtered list in order |
| Paging.CursorRoundTrip | internal/api/schedules.go:303-325 | decoding inverts encoding under the same filter and under no other |
| Paging.OwnCursorAcceptedIff | internal/api/schedules.go:263-266 | the handler takes back its own cursor exactly if the last row is timed or starts before the end of the range, and not at Go's zero time |
| Paging.CursorRefusedAtItsOwnPage | internal/api/schedules.go:263-266 | two all-day rows in normal form for which it does not |
| Ics.EscapeIcs | internal/api/ics.go:105-113 | the six replacements compute the one-pass escape |
| Ics.SixPassesAreOne | internal/api/ics.go:105-113 | six sequential replacements equal one left-to-right pass, on every text |
| Ics.UnescapeInvertsEscape | internal/api/ics.go:105-113 | unescaping gives back the text with line breaks normalised (section 3.3.11 of RFC 5545) |
| Ics.EscapeIsOneLine | internal/api/ics.go:105-113 | an escaped text holds no line break |
| Ics.FoldIcsLine | internal/api/ics.go:116-129 | the loop computes the specified folding |
| Ics.UnfoldInvertsFold | internal/api/ics.go:116-129 | unfolding undoes folding, whatever follows (section 3.1 of RFC 5545) |
| Ics.FoldFits | internal/api/ics.go:116-129 | no physical line of a folded line exceeds 75 octets of UTF-8 |
| Ics.ReadInvertsPrint | internal/api/ics.go:97-102 | unfolding and splitting a printed text gives back its content lines |
| Ics.CalendarReadsBack | internal/api/ics.go:68-103 | whatever text the schedules hold, a reader finds exactly the content lines built from them, in lines of at most 75 octets |
| Ics.SchedulesCalendar | internal/api/ics.go:68-103 | the two loops print that calendar |
| Ics.TextsReadBack | internal/api/ics.go:80-86 | from each event a reader recovers title, description and location, and none that is not there |
| Ics.TimesReadBack | internal/api/ics.go:72-79 | a timed event carries its instants, a dated one carries none |
| Ics.DatesReadBack | internal/api/ics.go:72-73 | a dated event carries its first day and the day after its last, a timed one none |
| Ics.DateDigits | internal/api/ics.go:73 | a date YYYY-MM-DD is printed as YYYYMMDD |
| Ics.UidReadsBack | internal/api/ics.go:71 | every event carries its schedule's identity |
| Ics.StatusReadsBack | internal/api/ics.go:87-93 | and its status: cancelled, tentative, or else confirmed |
| Admission.AtMostFivePerMinute | internal/service/extract.go:135-176 | in every run, with the clock read anew by each statement, every 60 s window holds at most five admissions |
| Admission.AtMostOneInProgress | internal/service/extract.go:158-165 | if no run is still going 20 s after its admission, at most one is ever in progress |
| Admission.AtMostOneWithinLimits | internal/service/extract.go:178-184 | so it is if runs keep to their limits of 15 s and 3 s |
| Admission.FewLeaveRoom | internal/service/extract.go:155-168 | fewer than five rows after the purge means the fifth last admission is a minute old |
| Admission.AdmitsExactly | internal/service/extract.go:155-171 | an undisturbed request is admitted exactly if the last minute saw fewer than five admissions and no run younger than 20 s is unfinished |
| Admission.OverlongRunIsJoined | internal/service/extract.go:159-165 | the limit is exact: a run still going any time from 20 s after its admission on is joined by another |
| Admission.Admissions.AdmitExtraction | internal/service/extract.go:135-176 | lock, purge, count, insert and commit with others' steps in between; busy or rate-limited exactly as the count says and then nothing is admitted, otherwise admitted as the next request, which is then running |
| Admission.Admissions.CheckCounts | internal/service/extract.go:158-168 | busy exactly if an unfinished row younger than 20 s is left, else rate-limited exactly at five rows |
| Admission.Admissions.FinishExtraction | internal/service/extract.go:178-184 | records the finish and ends the run |

## Left out

- Child tables: reminders and series places, which the schema keys by schedule and deletes with it, are held inside the schedule's row; foreign-key cascades are thereby built in.
- The create and mutation claim tables are one table keyed by user, operation and key; a claim whose response column is still empty carries `Removed`.
- Isolation: each transaction of the ledger is atomic; locks, deadlocks, gap locks and retries inside the database are not modelled. The dispatcher and the admission limiter are modelled statement by statement.
- Hashes are taken as injective, JSON and base64 as lossless, generated UUIDs as fresh; UUID order is creation order.
- Created and updated timestamps of schedules, reminder creation times, extraction ids and the stored local start of an occurrence: carried data with no property.
- The recurrence rule stored with a series is an opaque value to the ledger; `Recurrence` models how it is expanded.
- The link from `Recurrence` to the ledger (the handler passing the expansion to the create call) and the field-by-field defaulting of clone: plumbing.
- Recurrence.Validate: local dates before year 0 are not modelled, so the start must read as year 0 or later.
- Recurrence.GenerateOccurrences: local dates before year 0 are not modelled, so the start must read as year 0 or later.
- Go's `time.Date` is unspecified when local midnight does not exist; a zone here names the instant at which each day begins, and `Creation.NormalUnlessAllDayByLocalTime` concludes whole days only for zones whose days begin in order.
- Text comparison in the list filter is exact; collations and case folding of the database are not modelled.
- Strings in the iCalendar export are sequences of Unicode characters; malformed UTF-8 is not modelled. UUIDs, dates and timestamps are taken as printed by the library, on one line.
- The dispatcher's trace headers, error texts and metrics, and the endless loop with its one-second ticker around a single dispatch.
- The account-deletion stream's subscription, reconnection and redelivery delay: any delivery may be repeated at any time.
- HTTP routing, request decoding, status codes, authentication, If-Match parsing, metrics, tracing, configuration, the Gemini client, duplicate marking of extraction candidates and the notify service.
