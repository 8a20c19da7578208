# Verification of Zulip's analytics, remote-server sync and group sync

This project models three parts of the Zulip server whose correctness is a matter of protocol rather than of one
function, and proves what they promise for every input, run or history.

**The analytics fill engine.** A periodic job moves every statistic's `FillState` along a grid of end times:
`DONE t`, `STARTED t + increment`, pull the rows of the slot, aggregate them by realm, aggregate those into the
installation, `DONE t + increment`. A run may die between any two database statements; the next run deletes the
half-written slot and steps back. Some statistics depend on others, and some are logged as events happen, so that live
upserts share their tables with periodic aggregation.

**The remote-server sync.** A self-hosted server uploads its counts and audit logs to the push notification bouncer
above a reported high-water mark; the bouncer inserts them in slices with conflicts ignored, and keeps push counters of
its own in the same tables. Beside it, reported realms are reconciled with registered ones, and device tokens are
reconciled up to letter case.

**Group synchronisation.** An identity provider's group list becomes group memberships, either at login or, by way of a
preregistration record, at signup.

## How the model is organised

| file | contents |
|---|---|
| `Options.dfy`, `Sums.dfy` | nullable values; finite sums and GROUP BY |
| `Times.dfy` | hours and days, rounding, the grid of end times, `time_range` |
| `CountTables.dfy` | the four count tables, their partial unique constraints, INSERT, DELETE, the grouping keys of the aggregations |
| `Source.dfy` | the tables statistics are computed from, each pull query as a relational specification |
| `SourceGrowth.dfy` | what may change in them while statistics are filled, and what that cannot change |
| `Stats.dfy` | the declared statistics, the contents of one slot of one statistic |
| `FillMachine.dfy` | runs as a state machine, one step for each SQL statement or `save()`, with crashes, source changes and logged increments as further actions |
| `FillInvariant.dfy`, `FillSteps.dfy`, `FillInserts.dfy`, `FillActions.dfy` | the invariant and its preservation |
| `FillTheorems.dfy` | crash refinement, insert safety, monotone progress, dependency soundness |
| `FillProgress.dfy` | where runs stop, and what clean runs leave behind |
| `FillEngine.dfy` | the job as imperative code over the tables, proved to follow the state machine |
| `Stored.dfy`, `Levels.dfy` | the value stored in a filled slot; aggregation conserves totals |
| `Dependents.dfy`, `Messages.dfy`, `StreamMessages.dfy`, `Activity.dfy` | what particular statistics hold, and how they relate |
| `Logging.dfy`, `Months.dfy` | logged statistics against the ledger of all increments; the month accumulator |
| `RemoteTables.dfy` | the bouncer's three tables, their unique constraints, inserting in slices |
| `RemoteSync.dfy`, `RemoteHistory.dfy` | submissions and counters; the invariant over all histories |
| `RemoteExactlyOnce.dfy` | no silent loss, at most once, and when a submission is stored completely |
| `RemoteCounters.dfy`, `PushCounts.dfy` | ownership of rows; pushes forwarded against pushes received |
| `RemoteEngine.dfy` | the bouncer's endpoint code over its tables |
| `RealmReconcile.dfy`, `RealmRegistry.dfy` | realm reconciliation: what it means, and the code |
| `DeviceTokens.dfy` | the tokens a server is told to delete |
| `GroupSync.dfy` | the group mapping, the login path and the signup path |

Times are whole microseconds since 1970, the resolution of the database. A key of the count tables holds all columns but
the value, and which of the four tables a row is in; uniqueness is not built in but stated as in `analytics/models.py`,
so that "no INSERT can collide" is a theorem.

Assumptions, each stated as a hypothesis or built into an action: `installation_epoch()` is fixed; while statistics
are filled, source rows are only added, with times not before any `fill_to_time` already used, and an activity interval
moves only its ends from there on (`SourceGrowth.HeartbeatMovesBeyond` shows this of heartbeats); no user has two audit
events of the counted types at one time, as the source's comment at analytics/lib/counts.py:708-711 asks; at most one
run of a statistic at a time, while runs of different statistics interleave statement by statement. Increments may come
at any time in the results about logged rows and months; where totals of filled slots are concerned they go to slots
whose filling has not begun, and `Logging.LateIncrementsAreMissing` says what the others amount to.

## Model

| member | source | states |
|---|---|---|
| Times.Floor | zerver/lib/timestamp.py:27-34 | the latest hour or day boundary not after a time |
| Times.Ceiling | zerver/lib/timestamp.py:37-48 | the earliest hour or day boundary not before a time |
| Times.CeilingMonotone | zerver/lib/timestamp.py:37-48 | rounding up keeps the order of times and crosses no boundary: an event is in a slot up to s exactly if it is not after s |
| Times.TimeRange | analytics/lib/time_utils.py:11-33 | the list built backwards and reversed is the grid from the (padded) start to the end |
| Times.GridMember | analytics/lib/time_utils.py:6-10 | exactly the aligned times between the bounds are listed |
| Times.GridIncreasing | analytics/lib/time_utils.py:6-10 | the list is strictly increasing |
| Times.GridLength | analytics/lib/time_utils.py:26-28 | a start n - 1 steps before the last end time gives n end times |
| Times.PaddedLength | analytics/lib/time_utils.py:26-28 | a list shorter than the minimum asked for is padded to it exactly, any other is left alone |
| Sums.RollGroupBy | analytics/lib/counts.py:625-664 | grouping groups again by a coarser key is grouping the input rows by it |
| Sums.GroupByWhere | analytics/lib/counts.py:234-302 | what the groups satisfying a condition hold is what the rows falling into them contribute |
| Sums.ExecuteGroupBy | analytics/lib/counts.py:246-302 | one pass over the rows in any order computes the GROUP BY |
| FillInserts.KnownCollision | analytics/models.py:47-154 | rows whose realm is that of their user or stream violate a partial unique constraint only if they are one row, although the constraints leave the realm out |
| SourceGrowth.HeartbeatMovesBeyond | zerver/actions/user_activity.py:8-29 | heartbeats keep intervals at least 15 minutes long and touch nothing a query for an earlier end time can see |
| SourceGrowth.HeartbeatCovers | zerver/actions/user_activity.py:8-29 | a heartbeat makes its user active for exactly its 15 minutes, besides when the user was before, whether an interval is extended or made |
| SourceGrowth.TypeStable | analytics/lib/counts.py:614-664 | a stream or huddle created later with the id of an unrelated recipient changes no message's type |
| SourceGrowth.PullStable | analytics/lib/counts.py:545-824 | what any query returns for an end time already reached does not depend on when it runs |
| Source.PullShaped | analytics/lib/counts.py:454-508 | every row a query inserts belongs to its statistic, end time and output table |
| Stats.KeptOfComplete | analytics/lib/counts.py:222-302 | aggregation adds only rows that an undo deletes, so an undo after any stage restores the base rows |
| Dependents.DeclaredWellFormed | analytics/lib/counts.py:847-968 | the declared statistics form a registry as the theorems require: dependencies declared, intervals positive |
| Dependents.DeclaredMeetHypotheses | analytics/lib/counts.py:847-968 | the declared actives have windows of 1, 7 and 15 days less 15 minutes, and every other pulled statistic the query, frequency and interval that the theorem about it asks for |
| FillSteps.UndoneStep | analytics/lib/counts.py:164-169 | with the derived rows of the STARTED slot deleted the fill steps back and the invariant holds |
| FillSteps.StartingStep | analytics/lib/counts.py:186-190 | the next slot to be started holds nothing a fill has written |
| FillSteps.FinishingStep | analytics/lib/counts.py:191-193 | marking the slot done extends the exactly filled part of the tables by it |
| FillInserts.PullingFacts | analytics/lib/counts.py:205-219 | a run about to pull reads only complete rows, and its INSERT into an empty slot is accepted |
| FillInserts.AggregatingFacts | analytics/lib/counts.py:246-275 | the INSERT into RealmCount is accepted |
| FillInserts.SummarizingFacts | analytics/lib/counts.py:284-310 | the INSERT into InstallationCount is accepted |
| FillActions.BaseStable | analytics/lib/counts.py:205-219 | the ideal contents of a slot do not depend on when they are computed |
| FillActions.ApplyKeeps | analytics/lib/counts.py:143-231 | every step, crash, source change and increment keeps the invariant and moves no fill backwards |
| FillActions.InvAlways | analytics/lib/counts.py:143-231 | after every history: slots up to the last successful fill are exactly right, the STARTED slot is as far as its run or arbitrary, later slots hold nothing a fill wrote |
| FillActions.AddOnConflictIsUpsert | analytics/lib/counts.py:413-430 | the conflict target of the upsert is the row with the same columns |
| FillTheorems.CrashRefinement | analytics/lib/counts.py:143-231 | whenever a pulled statistic is DONE t, its rows in all four tables are a function of the source and t alone |
| FillProgress.CrashesLeaveNoTrace | analytics/lib/counts.py:143-231 | they are the rows of clean first runs over the same source, of what the statistic depends on, in order, and then of the statistic to t |
| FillProgress.NearsGoal | analytics/lib/counts.py:157-194 | no step of a run fails, except for want of a dependency's first run, and each brings the same stopping point nearer |
| FillProgress.RunStopsExactly | analytics/lib/counts.py:157-194 | from any reachable state an uninterrupted run, of a statistic with dependencies or without, ends DONE at the greatest grid point not after fill_to_time and every dependency's last successful fill, or where it was, with ideal tables |
| FillProgress.StopsCompose | analytics/lib/counts.py:185-194 | running to t1 and then to t2 stops where running to the later one does |
| FillProgress.FilledSlotsAreTimeRange | analytics/lib/time_utils.py:11-33 | the slots filled from the epoch to T are the end times a reader asks for |
| FillTheorems.InsertSafety | analytics/models.py:47-154 | in every reachable state a user, stream, realm or the installation has one row at most for a property, subgroup or none, and end time, and the pull or aggregation INSERT that is pending adds rows where there is none |
| FillTheorems.InsertableMeans | analytics/models.py:47-154 | the two partial constraints together accept exactly such INSERTs |
| FillTheorems.NeverBackwards | analytics/lib/counts.py:79-85 | last_successful_fill never decreases over steps, crashes and undos |
| FillTheorems.FilledSlotsPersist | analytics/lib/counts.py:164-169 | a filled slot of a pulled statistic is never changed again |
| FillTheorems.DependencySoundness | analytics/lib/counts.py:175-183 | a dependent statistic is never filled or being filled past a dependency's last successful fill |
| FillProgress.BoundedIsLeast | analytics/lib/counts.py:175-183 | the bound is at most fill_to_time and every dependency's fill and one of them, and is missing exactly if a dependency was never filled |
| FillEngine.Analytics.DeleteCountsAtHour | analytics/lib/counts.py:222-231 | the slot is deleted from the summary tables of a logging statistic, from all four tables otherwise |
| FillEngine.Analytics.PullMinutesActive | analytics/lib/counts.py:545-578 | the dictionary loop computes whole minutes of the clipped intervals, by user |
| FillEngine.Analytics.AggregateToRealms | analytics/lib/counts.py:246-275 | the realm rows of the slot are added, or nothing |
| FillEngine.Analytics.AggregateToInstallation | analytics/lib/counts.py:284-310 | the installation rows of the slot are added, or nothing |
| FillEngine.Analytics.FillCountStatAtHour | analytics/lib/counts.py:205-219 | pulling and aggregating follow the state machine and never fail |
| FillEngine.Analytics.PrepareFill | analytics/lib/counts.py:157-173 | the FillState is created, or a half-filled slot undone, and the run starts where the last successful fill was |
| FillEngine.Analytics.LowerToDependencies | analytics/lib/counts.py:175-183 | the dependency loop computes the least of fill_to_time and the dependencies' fills |
| FillEngine.Analytics.FillSlots | analytics/lib/counts.py:185-194 | the loop stops at the greatest grid point not after its bound |
| FillEngine.Analytics.ProcessCountStat | analytics/lib/counts.py:143-194 | from any state runs and crashes leave behind: refused off the hour, stopped when a dependency has never run, otherwise DONE at the exact stopping point with ideal tables |
| FillEngine.Analytics.IncrementLoggingStat | analytics/lib/counts.py:326-430 | the row of the event's bucket, subgroup and end time grows by the increment, at any time; a zero increment does nothing |
| Levels.CompleteTotal | analytics/lib/counts.py:234-302 | user, stream, realm and installation totals of a completed slot are sums of its base rows, by subgroup or over all |
| Stored.StoredRow | analytics/lib/counts.py:205-219 | in a filled slot the rows of a pulled statistic in its own table are exactly the pulled rows |
| Dependents.ActiveHumansExact | analytics/lib/counts.py:775-824 | realm_active_humans counts exactly the humans whose latest counted audit event is no deactivation and who have an interval that starts before the end time and does not end before the 15-day window |
| Dependents.ActiveUsersExact | analytics/lib/counts.py:712-748 | active_users_audit counts exactly the users, bots or not, whose latest counted audit event before the end time created, activated or reactivated them |
| Dependents.ActiveHumansAtMostAudit | analytics/lib/counts.py:712-748 | it is at most the non-bot active_users_audit value |
| Messages.MessageTypeIsTrue | analytics/lib/counts.py:625-664 | the CASE expression gives a message's true type although type_id is joined against unrelated streams and huddles |
| Messages.StoredCount | analytics/lib/counts.py:581-665 | a filled slot holds, for every user, realm and the installation, the number of messages sent in its interval |
| Messages.StoredBotCount | analytics/lib/counts.py:854-860 | under each value of is_bot, the number of messages of bots, or of others, who had joined before the end time |
| Messages.StoredClientCount | analytics/lib/counts.py:866-872 | under each client, the number of messages sent with it by users who had joined before the end time |
| Messages.StoredTypeCount | analytics/lib/counts.py:614-665 | under each message type, the number of messages of that true type |
| Messages.DayConservation | analytics/lib/counts.py:581-665 | 24 hourly totals, the by-client total and the by-type total of a day all equal the number of messages sent |
| StreamMessages.StoredStreamCount | analytics/lib/counts.py:672-704 | a filled slot holds, for every stream, every realm and the installation, the number of messages sent to it or to its streams |
| StreamMessages.StoredStreamBotCount | analytics/lib/counts.py:873-879 | under each value of is_bot, the number of messages of bots, or of others, sent to streams created before the end time |
| StreamMessages.StreamConservation | analytics/lib/counts.py:614-704 | over the installation, the messages counted by stream are those counted under the two stream types |
| Activity.WindowDecomposition | analytics/lib/counts.py:908-925 | an interval starts before t and ends at or after the start of the n-day window exactly if it does so for a one-day window or lies in one of the gaps between them |
| Activity.StoredActive | analytics/lib/counts.py:751-772 | a filled n-day slot at t has a row for a user exactly if some interval of the user starts before t and ends at or after t less n days and plus 15 minutes; none if all end earlier |
| Activity.ActivesAreUnionOfDays | analytics/lib/counts.py:751-772 | with no interval shorter than 15 minutes, the n-day actives are the union of n one-day actives, and both are the users with an interval in the window |
| Activity.StoredMinutes | analytics/lib/counts.py:545-578 | a filled day holds the whole minutes of the user's clipped intervals |
| Activity.DaysPartition | analytics/lib/counts.py:560-564 | consecutive day windows partition the intervals |
| Activity.CoveringDays | analytics/lib/counts.py:560-564 | if the days cover the intervals the clipped times add up to their total length |
| Activity.MinutesUndercount | analytics/lib/counts.py:545-578 | over n days the stored minutes never exceed the active time and fall short of it by less than n minutes |
| Activity.AtMostADay | analytics/lib/counts.py:545-578 | with pairwise disjoint intervals no day exceeds 1440 minutes |
| Activity.HeartbeatKeepsDisjoint | zerver/actions/user_activity.py:8-29 | a heartbeat, whenever it arrives, keeps a user's intervals disjoint exactly if those other than the latest leave room for its 15 minutes |
| Activity.InOrderKeepsDisjoint | zerver/actions/user_activity.py:8-29 | heartbeats in time order keep them disjoint |
| Activity.LateHeartbeatOverlaps | zerver/actions/user_activity.py:10-12 | a late heartbeat that leaves two intervals overlapping |
| Logging.StepSparesLogged | analytics/lib/counts.py:222-226 | no step of any run changes a logged row |
| Logging.LoggedRowIsSum | analytics/lib/counts.py:326-430 | after every history a logged row exists exactly if there was an increment for its bucket and subgroup whose event lies in the hour or day that ends at its end time, and is the sum of these, whenever they came |
| Logging.LoggedRowsPersist | analytics/lib/counts.py:222-226 | no logged row is ever deleted |
| Logging.AnyOrder | analytics/lib/counts.py:413-430 | the logged rows do not depend on the order of the increments |
| Logging.LoggedTotals | analytics/lib/counts.py:234-302 | in every filled slot the user, realm and installation totals are the sums of the increments inside, none of which came late |
| Logging.IncrementChangesOwnTotal | analytics/lib/counts.py:413-430 | an increment changes only the totals of its own bucket |
| Logging.LateIncrementsAreMissing | analytics/lib/counts.py:234-302 | increments that come after a slot was filled are exactly what its realm and installation totals fall short of |
| Months.NextMonthStart | analytics/lib/counts.py:89-94 | the next month starts as many days later as the month has, December included |
| Months.MonthAccounting | analytics/lib/counts.py:87-106 | the accumulator is the sum of the user's increments with event times after the start of the month and up to the next |
| Months.MonthsPartition | analytics/lib/counts.py:87-106 | consecutive months partition the increments |
| RemoteTables.InsertInTwo | zilencer/views.py:1193-1201 | inserting one slice after the other is inserting all at once |
| RemoteTables.InsertMembers | zilencer/views.py:1193-1201 | a row is stored exactly if it was before or conflicts with nothing kept before it |
| RemoteTables.InsertedOrLost | zilencer/views.py:1193-1201 | every row is stored or conflicts with a stored row |
| RemoteTables.StoredCompletely | zilencer/views.py:1193-1210 | a list is stored completely exactly if its rows differ from each other and from everything stored in remote id and in the columns of every unique index of the table |
| RemoteTables.InsertExtends | zilencer/views.py:1184-1201 | existing rows stay as they are |
| RemoteTables.InsertKeepsUnique | zilencer/models.py:413-495 | no unique constraint is violated afterwards |
| RemoteTables.InsertInSlices | zilencer/views.py:1179-1202 | for every list and slice size one left-to-right pass results, and inserted plus dropped is the length |
| RemoteSync.LastRemoteIdIsGreatest | zilencer/views.py:1808-1820 | the mark is the greatest id of the server's rows, rows without one not counting |
| RemoteSync.ValidatedMeans | zilencer/views.py:1141-1173 | accepted exactly if every property is one skipped by name or a known one that is not the bouncer's own, every event type is synced, and the ids increase strictly above the mark |
| RemoteSync.FixedMeans | zilencer/views.py:1783-1805 | after a fix every unlinked row of the server with a reported realm id is under the reported realm, and no other row has changed |
| RemoteSync.FixFails | zilencer/models.py:466-495 | a fix violates a unique constraint exactly if it would put two rows of one count under one remote realm |
| RemoteHistory.ApplyKeeps | zilencer/views.py:1571-1712 | every event keeps the invariant, and every stored row in its place |
| RemoteHistory.EvolvesAlways | zilencer/views.py:1783-1805 | a stored row is only ever linked to its realm or, if it is the bouncer's own, incremented |
| RemoteExactlyOnce.MarkNeverDecreases | zilencer/views.py:1808-1820 | the reported mark never decreases |
| RemoteExactlyOnce.StoredAtMostOnce | zilencer/models.py:399-495 | a client row is stored in at most one row |
| RemoteExactlyOnce.NoTwoAgree | zilencer/models.py:413-495 | no two stored rows agree in the columns of a unique index of their table |
| RemoteExactlyOnce.OnlyAcceptableStored | zilencer/views.py:1149-1165 | only counts of known properties that are neither the bouncer's own nor skipped, and audit entries of synced types, are ever stored |
| RemoteExactlyOnce.NoSilentLoss | zilencer/views.py:1605-1712 | every client row up to the mark is stored with all it holds, has one of the four property names that are skipped, or is kept out by a stored row with its remote id or with its columns in a unique index |
| RemoteExactlyOnce.AllStoredExactly | zilencer/views.py:1605-1712 | an accepted submission is stored completely, but for the skipped names, exactly if its rows differ from each other and from everything stored in id and in the columns of every unique index; each is then under the realm reported for it |
| RemoteExactlyOnce.AddedRowIs | zilencer/views.py:1629-1712 | every row a submission adds is one it sent, unchanged, under the remote realm its realm id was reported with |
| RemoteExactlyOnce.AcceptedTwiceStoredNothing | zilencer/views.py:1170-1173 | a batch accepted again later had stored nothing |
| RemoteCounters.OwnershipAlways | zilencer/models.py:399-410 | a row of the count tables has no remote id exactly if its property is bouncer-only |
| RemoteCounters.IncrementSparesSynced | analytics/lib/counts.py:357-377 | an increment changes no synced row |
| RemoteCounters.PostSparesCounters | zilencer/views.py:1647-1675 | a submission changes no counter of the bouncer |
| RemoteCounters.IncrementTotal | analytics/lib/counts.py:413-430 | an increment adds to the totals of its owner and counter over its slot, and to no others |
| PushCounts.ForwardedAtMostReceived | zilencer/views.py:981-1054 | for every owner and end time, pushes forwarded in slots up to it are at most those received |
| PushCounts.DayBalance | analytics/lib/counts.py:1011-1017 | on every day, what was received and what crossed into the day is what was forwarded, missed and is outstanding |
| PushCounts.OneDay | analytics/lib/counts.py:1011-1017 | a single day shows at most the pushes of requests that crossed into it more forwarded than received, none more if none crossed, and more exactly if those exceed what was received that day and not delivered that day |
| PushCounts.OneDayMayViolate | analytics/lib/counts.py:1011-1017 | a day that does show more |
| RemoteEngine.Bouncer.ValidateIncomingTableData | zilencer/views.py:1141-1173 | the loop reports the fault of the first faulty row |
| RemoteEngine.Bouncer.BatchCreateTableData | zilencer/views.py:1179-1210 | slices of 1000 insert like one pass; existing rows stay; inserted and dropped add up; nothing is dropped exactly if the rows differ from each other and from those stored in the columns of every unique index |
| RemoteEngine.Bouncer.StoreSubmission | zilencer/views.py:1629-1712 | the writes of a validated submission, up to the error that ends them |
| RemoteEngine.Bouncer.FixRemoteRealmForeignKeys | zilencer/views.py:1783-1805 | one realm id after the other links all rows at once, or fails exactly if a uniqueness conflict results |
| RemoteEngine.Bouncer.PostAnalytics | zilencer/views.py:1571-1712 | in one transaction the version is recorded, the realms are reconciled and all three tables extended, or nothing changes; which error is reported; every row stored or linked is under the uuid last reported for its realm id |
| RemoteEngine.Bouncer.DoIncrementLoggingStat | analytics/lib/counts.py:357-430 | the counter's row grows by the increment or is created, and the invariant is kept |
| RealmReconcile.Reconciliation | zilencer/views.py:1232-1397 | every reported realm ends up registered with the attributes reported last and not marked deleted, a new one with the reported secret and creation time; every other realm of the server is marked deleted; no realm changes server, secret or creation time |
| RealmReconcile.LogReplays | zilencer/views.py:1284-1350 | replaying a run's audit entries turns the old attributes and deletion mark into the new ones, each entry starting from the value it says it found |
| RealmReconcile.SecondRunIsIdle | zilencer/views.py:1232-1397 | a second identical run is accepted, changes nothing and logs nothing |
| RealmReconcile.LookupIsTotal | zilencer/views.py:1768-1780 | after a successful run the lookup by realm id that follows cannot fail, and gives the uuid reported last for each id |
| RealmReconcile.LookupIs | zilencer/views.py:1768-1780 | it fails exactly if a reported uuid is not registered to the server; otherwise it has exactly the reported ids, each with the uuid reported last for it |
| RealmRegistry.Registry.CreateNew | zilencer/views.py:1248-1277 | new realms are registered, or none if a uuid is taken or reported twice |
| RealmRegistry.Registry.RefreshRealm | zilencer/views.py:1287-1336 | the attribute loop copies what differs and logs it |
| RealmRegistry.Registry.RefreshAll | zilencer/views.py:1284-1350 | every reported registered realm is refreshed and logged, no other is touched |
| RealmRegistry.Registry.MarkMissing | zilencer/views.py:1352-1397 | every unreported realm is marked deleted, and logged if it was not marked before |
| RealmRegistry.Registry.UpdateRemoteRealmDataForServer | zilencer/views.py:1227-1397 | reconciles and logs exactly, or refuses a duplicate registration and changes nothing |
| DeviceTokens.OneSurvivorEach | zilencer/views.py:1107-1138 | survivors have distinct lowercase forms, all known, and each listed and known form has exactly one |
| DeviceTokens.LowerIs | zilencer/views.py:1107-1138 | two tokens have one lowercase form exactly if they differ at most in the case of letters |
| DeviceTokens.LessIsLexicographic | zilencer/views.py:1083-1138 | the order of the lists: one token is a proper beginning of the other or smaller where they first differ |
| DeviceTokens.SecondTimeNothing | zilencer/views.py:1107-1138 | reconciling the survivors again removes nothing |
| DeviceTokens.GetDeletedDevices | zilencer/views.py:1083-1138 | the loop over a dictionary and a set computes exactly the tokens to delete, each once, sorted |
| GroupSync.HeldExactly | zproject/backends.py:2142-2346 | a group that some external name stands for is held exactly if a received one does and it exists or has a valid name, where the last configured item about a name decides and "*" means every active group that is no system group and every received name; other groups are held as before |
| GroupSync.SecondSyncIsIdle | zproject/backends.py:2142-2208 | a second sync changes neither memberships nor groups, also when "*" now finds more groups |
| GroupSync.SignupAgreesWithLogin | zproject/backends.py:2432-2487 | signup gives the memberships login would have given |
| GroupSync.SystemNameStopsLogin | zproject/backends.py:2159-2162 | login stops at its assertion exactly if some external name stands for a system group |
| GroupSync.CheckUserGroupName | zerver/lib/user_groups.py:557-574 | a name is refused exactly if it is blank, too long or begins with one of the reserved prefixes, and which of these is reported |
| GroupSync.Realm.ProcessGroupSyncInfo | zproject/backends.py:2256-2346 | the mapping loop finds exactly the groups that received names stand for and those that any name stands for; zulip_groups is removed in every case, and counts as empty if it is missing |
| GroupSync.Realm.EnsureMissingGroups | zproject/backends.py:2211-2241 | exactly the valid missing names become groups |
| GroupSync.Realm.FindOrCreate | zproject/backends.py:2105-2119 | comparing two counts is enough to know whether names are missing |
| GroupSync.Realm.SyncGroups | zproject/backends.py:2142-2208 | groups and memberships afterwards are as specified, or unchanged after a failed assertion |
| GroupSync.Realm.SyncGroupsForPreregUser | zproject/backends.py:2090-2139 | the preregistration record's groups are synced by the same specification |
| GroupSync.Realm.SyncAtLogin | zproject/backends.py:2480-2487 | the whole login path ends in the memberships just described, or stops exactly if a name stands for a system group |
| GroupSync.Realm.SyncAtSignup | zproject/backends.py:2432-2442 | the whole signup path ends in the same memberships for the groups of the role and the invitation together |

Where the code and its comments differ, the model follows the code. The comment on `mobile_pushes_forwarded` says it
should be at most `mobile_pushes_received` up to offsets of requests received before midnight and sent after it;
`PushCounts.ForwardedAtMostReceived` says what holds of sums up to a time, `PushCounts.OneDay` what holds of single days
and that such requests are the only offsets. The signup path has no
counterpart of the login path's assertion on system group names; agreement is stated where no such name is syncable, and
`GroupSync.SystemNameStopsLogin` says when that is.

## Left out

- upload_quota_used_bytes::day: attachments can be deleted, so recomputing a slot after a crash may give another value.
- count_stream_by_realm_query and the single-realm arguments: unused, and undefined for FillState by the code's own comment.
- do_drop_single_stat and do_drop_all_analytics_tables: administrative resets outside the protocol.
- Source rows that change or disappear (a stream made private, a user turned into a bot, deleted messages or realms): a slot recomputed after such a change may differ from one computed before it.
- Two runs of the same statistic at once: the management command takes a lock.
- SQL text, query plans and isolation levels: each statement is one atomic relational effect.
- The four count tables are one map whose keys say which table a row is in; ids of rows are not modelled, except the remote ids of synced rows.
- The width of BIGINT columns: values are unbounded integers.
- FillEngine.Analytics.PullMinutesActive: sums of total_seconds() are exact, not floating point.
- FillEngine.Analytics.ExecutePull: the SQL queries are given by their relational meaning, except for the pull of active minutes, which is a loop in the source too.
- Messages.DayConservation: assumes that no message was sent before its sender joined; two of the three queries select only messages of senders joined before the end of the interval, the by-type query does not. `Messages.StoredBotCount` and `Messages.StoredClientCount` need no such assumption.
- StreamMessages.StoredStreamCount: assumes that no message was sent to a stream before the stream was created, a condition the query puts on streams. `StreamMessages.StoredStreamBotCount` does not.
- RemoteEngine.Bouncer.PostAnalytics: leaves out the time of the last audit log update, the license ledger and the response; the audit entries of the reconciliation are kept in the registry's own log.
- RealmRegistry.Registry.UpdateRemoteRealmDataForServer: leaves out the notices sent for deleted realms on paid plans.
- RealmRegistry.Registry.RefreshAll: entries of different realms may be logged in any order, as the query that lists them has none.
- DeviceTokens.GetDeletedDevices: lowercase is that of ASCII letters; tokens are hexadecimal.
- GroupSync.Realm.SyncAtSignup: the new user's role-based memberships are given; what the signup form does in between is not modelled.
- Bulk membership events, audit log rows for group changes, and logging of messages.
- delete_duplicate_registrations, push sending, challenges, billing sessions and customer migration.
- LDAP, SAML and OIDC flows around group sync, decorators, rate limits and forms.
- The confirmation state machine, settings, URL tables and fixtures.
