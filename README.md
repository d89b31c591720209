# Advocourt case management: a verified model of its core logic

Advocourt (repository "casepilot") is a case management application for a law
practice. It has an Express and Mongoose backend over cases, tasks, documents,
clients and notifications, and a React front end. This project models, in
Dafny, the logic of that application that computes something, and proves what
the code promises about it:

- **The analytics of `/api/stats`.** Covered:
  - the range token and the attorney and category filters;
  - resolution rate, average days to close, task on-time rate and outcome classification;
  - per-attorney workload, billable hours, completion tallies and average case value;
  - the status funnel and the category-by-status heat map, and documents by review status;
  - the date-sorted "this week's deadlines" timeline with its user fallback.
- **Backend helpers.** Covered:
  - the calendar event assembly;
  - the task ownership guard and pagination arithmetic;
  - the error handler's status classification and the notification builder;
  - the case reference generator with the schema's enum defaults;
  - the upload filter, size limit and stored file name.
- **The browser-side user registry.** A class holding the stored user list and the session.
- **The front end's small algorithms.** Covered:
  - the formatters, the paginator window and the progress clamp;
  - the quick-search recent list and keyboard index;
  - month navigation, the calendar grid and events per day;
  - the dashboard's greeting and deadline buckets, and the top bar's title and badge;
  - the pages' validators, checklist edits, label round trip and number coercions;
  - the team-member, account and login handlers over the registry.

Each source file becomes one module. `Text`, `Numeric`, `Seqs` and `Tally`
model the JavaScript built-ins these files use:

- `trim` and `split`;
- `Math.round` and `Math.ceil`;
- `filter` and a stable `sort`;
- plain objects used as insertion-ordered dictionaries.

`Records` holds the case, task and document records as the routes read them.

Timestamps are integer milliseconds. The current time, and the dates JavaScript
derives from it, are parameters. Store queries are filters over sequences, and
a Mongo `$group`/`$sort` pipeline is a fold followed by a stable sort.

Code that changes state in the source is imperative here:
- the `forEach`/`push` loops;
- the error dictionaries that pages fill field by field;
- the pre-save hook;
- the user registry;
- the palette, calendar and task editor state.

Each method is proved against a function, and the lemmas are stated about that function.

## Model

| member | source | states |
|---|---|---|
| StatsRange.DateFrom | backend/routes/stats.js:196-207 | the token `'all'` gives the epoch 0 |
| StatsRange.UnknownRangeIsYear | backend/routes/stats.js:196-207 | a missing token and any token outside the switch give the same bound as `'12m'` |
| StatsRange.DateFromWidens | backend/routes/stats.js:199-207 | longer ranges give earlier bounds: all ≤ 12m ≤ 6m ≤ 3m ≤ 1m |
| StatsRange.CasesInRange | backend/routes/stats.js:210-223 | a case is selected iff it is stored, filed on or after the bound, and matches the attorney and category when those are given |
| StatsRange.TasksInRange | backend/routes/stats.js:214-238 | a task is selected iff its deadline is on or after the bound and, when an attorney is given, that attorney owns it |
| StatsRange.DocsInRange | backend/routes/stats.js:217-218 | a document is selected iff it is due on or after the bound and, when an attorney is given, that attorney prepared it |
| StatsRange.AttorneyNarrowsCases | backend/routes/stats.js:211 | naming an attorney keeps, of the cases the other filters select, those whose lead attorney it is, in order |
| StatsRange.AttorneyNarrowsTasks | backend/routes/stats.js:215 | naming an attorney keeps, of the date-selected tasks, those the attorney owns |
| StatsRange.AttorneyNarrowsDocs | backend/routes/stats.js:218 | naming an attorney keeps, of the date-selected documents, those the attorney prepared |
| StatsRange.FilterOptions | backend/routes/stats.js:343-349 | the attorney and category choices are sorted, without repeats, and are exactly the values found on stored cases |
| StatsMetrics.ClosedCases | backend/routes/stats.js:225 | the closed cases are exactly the in-range cases with status Closed |
| StatsMetrics.ResolutionRateRange | backend/routes/stats.js:229 | the resolution rate lies in [0,100]; it is 0 with no case in range and 100 when every case in range is closed |
| StatsMetrics.DayCount | backend/routes/stats.js:234 | the whole days between filing and last update, rounded half up as `Math.round` does |
| StatsMetrics.DaysToClose | backend/routes/stats.js:232-234 | at most one day count per closed case |
| StatsMetrics.DaysToCloseIsFilterMap | backend/routes/stats.js:232-234 | the day counts are the closed cases kept by `filedOn && updatedAt`, in order, each mapped to its rounded day count |
| StatsMetrics.DaysToCloseSkipsUndated | backend/routes/stats.js:233 | a closed case missing its filing date or its update date adds no day count |
| StatsMetrics.AvgDaysToClose | backend/routes/stats.js:235 | the average is 0 when no closed case carries both dates; otherwise it is `Math.round` of the mean of the already rounded day counts, the nearest integer to their sum over their number with halves up |
| StatsMetrics.AvgDaysToCloseBounds | backend/routes/stats.js:235 | the rounded average lies between the smallest and the largest day count |
| StatsMetrics.TaskOnTimeRateRange | backend/routes/stats.js:239-245 | the on-time rate lies in [0,100], and is 0 when no task in range is Done |
| StatsMetrics.DoneTasksOnTime | backend/routes/stats.js:238-245 | when some in-range task is Done and every Done task has no deadline, has no resolution date or was resolved by its deadline, the on-time rate is 100 |
| StatsMetrics.OutcomeName | backend/routes/stats.js:251-255 | no outcome is named `'Resolved'` |
| StatsMetrics.Lowered | backend/routes/stats.js:250 | each label is lower-cased in place |
| StatsMetrics.Classify | backend/routes/stats.js:250-255 | the first match of won, settled, dismissed, lost decides; Won iff "won" is among the lowered labels, Settled iff "won" is absent and "settled" is present, Dismissed iff neither "won" nor "settled" is present and "dismissed" is, Lost iff none of "won", "settled", "dismissed" is present and "lost" is, Other iff none of the four is present |
| StatsMetrics.ClassifyBySet | backend/routes/stats.js:250-255 | the outcome depends only on the set of lowered labels, not on case, order or repeats |
| StatsMetrics.OutcomesPartition | backend/routes/stats.js:248-261 | every closed case is counted in one bucket; the counts sum to the closed count; the list is empty iff no case is closed; the `'Resolved'` fallback never appears |
| StatsMetrics.OutcomeCounts | backend/routes/stats.js:256 | each outcome's counter is the number of closed cases classified so, absent when there are none |
| StatsMetrics.CaseOutcomes | backend/routes/stats.js:248-261 | the `forEach` over closed cases plus the fallback push computes the outcome list; its counts sum to the closed count and no entry is `'Resolved'` |
| StatsMetrics.DocsByStatus | backend/routes/stats.js:336-340 | one counter per review status present, in order of first appearance (the `Seqs.Dedup` of the statuses, ordered by Seqs.DedupFirstAppearance), each counting its documents, summing to the number of in-range documents |
| StatsAttorneys.LoadFold | backend/routes/stats.js:268 | an attorney's group counts exactly the cases they lead, with a value between count × lowest and count × highest portfolio value |
| StatsAttorneys.WorkloadSorted | backend/routes/stats.js:270 | the workload is ordered by non-increasing case count |
| StatsAttorneys.WorkloadTotals | backend/routes/stats.js:266-271 | the case counts sum to the number of in-range cases and the values to their total portfolio value |
| StatsAttorneys.WorkloadNames | backend/routes/stats.js:268-269 | exactly one entry per lead attorney of an in-range case |
| StatsAttorneys.WorkloadEntry | backend/routes/stats.js:268-269 | every entry is an attorney's group, holding that attorney's fold |
| StatsAttorneys.WorkloadCounts | backend/routes/stats.js:268 | every entry counts exactly the cases its attorney leads, at least one |
| StatsAttorneys.AvgCaseValue | backend/routes/stats.js:305-308 | one entry per workload entry, same attorney, same order; its value is `Math.round(value / cases)` when the attorney has cases, else 0 |
| StatsAttorneys.AvgCaseValueBounds | backend/routes/stats.js:305-308 | if every in-range portfolio value lies in [lo, hi], so does every attorney's rounded average |
| StatsAttorneys.BillableFacts | backend/routes/stats.js:274-279 | billable rows are ordered by non-increasing logged hours, one per owner (the empty owner included), and planned and logged hours each sum to the in-range totals |
| StatsAttorneys.LateIsNotOnTime | backend/routes/stats.js:289 | the per-owner "late" test is the negation of the on-time test of the rate |
| StatsAttorneys.TaskCompletionByAttorney | backend/routes/stats.js:282-302 | the `forEach` that fills the per-owner tallies, skipping unowned tasks, followed by the rows, computes the specified rows |
| StatsAttorneys.CompletionFold | backend/routes/stats.js:285-294 | an owner's tally counts every owned task once in total; done counts the owner's Done tasks and late those of them resolved after a deadline they had; on time is the rest of the done ones; done ≤ total |
| StatsAttorneys.CompletionRowsSound | backend/routes/stats.js:296-301 | each row's owner is non-empty; on time + late + pending equals the owner's tasks; on time + late is the number of the owner's Done tasks and late the number of those resolved after their deadline; the rate is `Math.round(done / total * 100)` and lies in [0,100] |
| StatsAttorneys.CompletionRowsOrder | backend/routes/stats.js:302 | rows are ordered by non-increasing rate, and no owner appears twice |
| StatsPipeline.CountStatus | backend/routes/stats.js:316 | a status count never exceeds the number of cases |
| StatsPipeline.CountCategory | backend/routes/stats.js:326 | a category count never exceeds the number of cases |
| StatsPipeline.CountCell | backend/routes/stats.js:326 | a cell never exceeds its category's count or its status's count |
| StatsPipeline.StatusesPartition | backend/models/Case.js:19-24 | since every case has one of the five statuses, the five status counts sum to the number of cases |
| StatsPipeline.CellsPartition | backend/routes/stats.js:325-327 | within a category, the five cells sum to the category's count |
| StatsPipeline.Funnel | backend/routes/stats.js:313-318 | the loop yields Pending, Active, On Hold, Appeal, Closed in this order, each counting its in-range cases, summing to the number of in-range cases |
| StatsPipeline.Categories | backend/routes/stats.js:321 | the categories are sorted, without repeats, and are exactly those of the in-range cases |
| StatsPipeline.Rows | backend/routes/stats.js:323-329 | one row per category, in order, each counting its category per status |
| StatsPipeline.RowTotalIsCategoryCount | backend/routes/stats.js:325-327 | a row's cells sum to its category's count |
| StatsPipeline.CategoriesCover | backend/routes/stats.js:321-329 | counting cases under distinct categories that cover them counts every case once |
| StatsPipeline.HeatmapTotal | backend/routes/stats.js:321-329 | all heat-map cells sum to the number of in-range cases, as the funnel does |
| StatsPipeline.HeatmapRows | backend/routes/stats.js:321-323 | row categories are strictly ascending and are exactly the in-range categories |
| StatsWeek.ResolveUser | backend/routes/stats.js:112-117 | the header user when it is non-empty, otherwise the first stored case's lead attorney, otherwise `''` |
| StatsWeek.Hearings | backend/routes/stats.js:143-162 | one hearing entry per case the user leads with a hearing in the week, in query order, each dated inside the week |
| StatsWeek.Tasks | backend/routes/stats.js:148-163 | one task entry per task the user owns, due in the week and neither Done nor Dropped, each dated inside the week |
| StatsWeek.Docs | backend/routes/stats.js:153-164 | one document entry per document the user prepared, due in the week and neither Filed nor Approved, each dated inside the week |
| StatsWeek.WeekDeadlinesContents | backend/routes/stats.js:161-165 | the timeline is sorted by date and is a permutation of the hearing, task and document entries; one entry per qualifying record |
| StatsWeek.WeekDeadlinesInWeek | backend/routes/stats.js:143-158 | every timeline entry is dated from now to the week's end |
| StatsWeek.WeekDeadlinesTies | backend/routes/stats.js:161-165 | the stable sort keeps, for each date, the hearings, then the tasks, then the documents of that date, each in query order |
| StatsWeek.WeekDeadlinesTieOrder | backend/routes/stats.js:161-165 | on one date, no task precedes a hearing and no document precedes a task or a hearing |
| Calendar.ParsedOr | backend/routes/calendar.js:9-10 | `parseInt(x) \|\| current`: an unparsable value or 0 gives the current value, any other number itself |
| Calendar.MonthRange | backend/routes/calendar.js:12-13 | the range starts at the first day's midnight and ends 1000 ms before the next month's midnight |
| Calendar.HearingsIn | backend/routes/calendar.js:18 | a case is selected iff its hearing date lies in the range |
| Calendar.FilingsIn | backend/routes/calendar.js:19 | a case is selected iff its filing date lies in the range |
| Calendar.TasksIn | backend/routes/calendar.js:20 | a task is selected iff its deadline lies in the range |
| Calendar.DocsIn | backend/routes/calendar.js:21 | a document is selected iff its due date lies in the range |
| Calendar.HearingEvents | backend/routes/calendar.js:26-35 | one hearing event per selected case, in order |
| Calendar.FilingEvents | backend/routes/calendar.js:37-45 | one filing event per selected case, in order |
| Calendar.TaskEvents | backend/routes/calendar.js:47-57 | one task event per selected task, in order |
| Calendar.DocEvents | backend/routes/calendar.js:59-68 | one document event per selected document, in order |
| Calendar.PushHearings | backend/routes/calendar.js:26-35 | the loop appends exactly the hearing events to the list it started from |
| Calendar.PushFilings | backend/routes/calendar.js:37-45 | the loop appends exactly the filing events |
| Calendar.PushTasks | backend/routes/calendar.js:47-57 | the loop appends exactly the task events |
| Calendar.PushDocs | backend/routes/calendar.js:59-68 | the loop appends exactly the document events |
| Calendar.AssembleEvents | backend/routes/calendar.js:17-68 | the route's four loops build exactly the specified event list |
| Calendar.EventsCount | backend/routes/calendar.js:26-68 | the number of events is the sum of the four query counts |
| Calendar.EventsInRange | backend/routes/calendar.js:15-21 | every event is dated inside the requested range |
| Calendar.EventsGrouped | backend/routes/calendar.js:24-68 | events come as all hearings, then filings, then task deadlines, then document due dates |
| Calendar.EventLabels | backend/routes/calendar.js:30-66 | case events are hearings or filings labelled `ref — title`; a task event carries a listed task's title and that task's case ref, `''` when none; a document event carries a listed document's name and its case ref, `''` when none |
| Calendar.UnlinkedTaskRef | backend/routes/calendar.js:55 | a task with no linked case gets the empty case ref |
| Calendar.UnlinkedDocRef | backend/routes/calendar.js:66 | a document with no linked case gets the empty case ref |
| TaskRoute.NormalizeEmptyIffBlank | backend/routes/tasks.js:88-90 | a name normalizes to `''` iff it is blank |
| TaskRoute.BlankNeverRefused | backend/routes/tasks.js:91-119 | a blank header user or a blank owner never refuses |
| TaskRoute.RefusedExactly | backend/routes/tasks.js:88-91 | refusal iff the user and owner are not blank and the user differs from both owner and creator after trimming and lower-casing |
| TaskRoute.NormalizeIgnoresSpacingAndCase | backend/routes/tasks.js:88-90 | surrounding spaces and upper case do not change the normalized name |
| TaskRoute.Guard | backend/routes/tasks.js:84-121 | 404 `'Task not found'` iff the task is missing; otherwise 403 iff the ownership rule refuses |
| TaskRoute.EditDeleteSameRule | backend/routes/tasks.js:85-121 | edit and delete proceed on the same inputs; only the refusal text differs |
| TaskRoute.Pages | backend/routes/tasks.js:47 | `Math.ceil(total / limit)`: a zero limit gives no integer; a positive limit gives the least page count whose pages hold `total` records; a negative limit, which `parseInt` lets through, gives the least integer not below `total / limit`, zero or negative (-2 for 12 records and limit -5) |
| TaskRoute.PageOfRecord | backend/routes/tasks.js:40-47 | with a positive limit, record k lies on exactly one page in 1..pages, inside that page's skip window |
| TaskRoute.SortDirection | backend/routes/tasks.js:17-39 | the direction is 1 iff the order is `'asc'`, otherwise -1 |
| ErrorHandler.Handle | backend/middleware/errorHandler.js:1-31 | every response has `success: false` |
| ErrorHandler.HandleByKind | backend/middleware/errorHandler.js:4-30 | validation 400 with one message per field error; duplicate key 409 naming the fields; bad id 400; file size 413; otherwise the error's status or 500, with its message or `'Internal Server Error'` |
| ErrorHandler.FirstMatchWins | backend/middleware/errorHandler.js:5-14 | a validation error that also carries code 11000 still gives 400 "Validation Error" |
| ErrorHandler.DuplicateFieldsRecoverable | backend/middleware/errorHandler.js:12-13 | the key fields can be read back from the duplicate-key message when no field name contains a comma |
| Notify.LevelFor | backend/utils/notifyHelper.js:8-18 | success iff the action is created, alert iff deleted, info for everything else |
| Notify.Actor | backend/utils/notifyHelper.js:15-24 | the actor is never empty; it is the given name when there is one, otherwise `'System'` |
| Notify.BuildConsistent | backend/utils/notifyHelper.js:14-24 | heading `entity action`; body `entity "name" was action by actor.`; the stored `triggeredBy` is the body's actor |
| Notify.CreateAlert | backend/utils/notifyHelper.js:17-28 | a successful insert appends the alert; a failed one leaves the store as it was and is not passed on |
| CaseModel.RefSerialValue | backend/models/Case.js:74 | the serial has at least four digits and reads back as count + 1 |
| CaseModel.RefSerialShort | backend/models/Case.js:74 | below 10000 the serial has exactly four digits |
| CaseModel.RefSerialLong | backend/models/Case.js:74 | from 10000 on the serial is the plain decimal number, never cut |
| CaseModel.ParseUrgency | backend/models/Case.js:25-29 | an accepted urgency name is the name of the urgency returned |
| CaseModel.StatusOnSave | backend/models/Case.js:19-24 | Pending when no status is given; a listed name is that status; any other value is rejected and carried in the error |
| CaseModel.UrgencyOnSave | backend/models/Case.js:25-30 | Standard when no urgency is given; a listed name is that urgency; any other value is rejected |
| CaseModel.EnumsAccepted | backend/models/Case.js:19-30 | every enum value is accepted as itself, and only enum names are accepted |
| CaseModel.CaseDoc.constructor | backend/models/Case.js:3-67 | a document with the given ref, status and urgency |
| CaseModel.CaseDoc.PreSave | backend/models/Case.js:70-77 | a missing ref becomes `CP-<year>-<count+1 padded to 4>`; an existing ref is kept; nothing else changes |
| CaseModel.SaveTwice | backend/models/Case.js:71 | a second save never overwrites the ref the first save assigned |
| Records.StatusName | backend/models/Case.js:22 | every status has a non-empty name |
| Records.ParseStatus | backend/models/Case.js:22 | an accepted status name is the name of the status returned |
| Records.ParseStatusName | backend/models/Case.js:22 | every status name parses back to its status |
| Upload.FileFilter | backend/routes/upload.js:16-33 | accepted iff the MIME type is one of the nine listed; otherwise rejected with the listed message |
| Upload.ExtnameShape | backend/routes/upload.js:11 | an extension is empty or a dot followed by neither a dot nor a slash |
| Upload.ExtnameAfterPlainPrefix | backend/routes/upload.js:11-12 | a plain stem followed by an extension has that extension |
| Upload.StoredNameKeepsExtension | backend/routes/upload.js:9-13 | the stored name `<stamp>-<random><ext>` keeps the original file's extension |
| Upload.ReceiveFailures | backend/routes/upload.js:28-45 | no file gives 400 `'No file uploaded'`; an unlisted type gives 500 with the filter's message; a file over 20·1024·1024 bytes gives 413 |
| Upload.ReceiveStores | backend/routes/upload.js:38-57 | a listed type within the limit is stored under a name with the original extension and served at `/files/<name>` |
| AuthStore.Merge | frontend/src/utils/authStore.js:40 | a merge never changes the email when the updates carry none |
| AuthStore.MergeIdempotent | frontend/src/utils/authStore.js:40-45 | merging the same updates twice is merging them once; merging nothing changes nothing |
| AuthStore.DefaultUsers | frontend/src/utils/authStore.js:4-10 | five accounts, only the first an administrator, all with the default password |
| AuthStore.DefaultsDistinct | frontend/src/utils/authStore.js:4-10 | the default accounts have distinct emails |
| AuthStore.IndexOfEmail | frontend/src/utils/authStore.js:38 | none iff no user has the email; otherwise a position holding it |
| AuthStore.FindIn | frontend/src/utils/authStore.js:27-30 | a user is found iff one matches both email and password exactly, and the result is such a user |
| AuthStore.ByEmail | frontend/src/utils/authStore.js:32-34 | none iff no user has the email; otherwise a stored user with it |
| AuthStore.WithUpdate | frontend/src/utils/authStore.js:36-41 | same length; every email unchanged; entries with another email unchanged |
| AuthStore.UpdateTouchesOne | frontend/src/utils/authStore.js:38-40 | with distinct emails, only that user changes, merged with the updates |
| AuthStore.WithAdded | frontend/src/utils/authStore.js:50-58 | refused with the duplicate message iff the email is taken; otherwise the user is appended |
| AuthStore.WithoutEmail | frontend/src/utils/authStore.js:60-63 | the users kept are exactly those with another email |
| AuthStore.DeleteAbsent | frontend/src/utils/authStore.js:61 | deleting an absent email leaves the list as it was |
| AuthStore.ChangesKeepEmailsDistinct | frontend/src/utils/authStore.js:36-63 | update, a successful add and delete all keep emails unique |
| AuthStore.Store.constructor | frontend/src/utils/authStore.js:1-2 | a registry with the given stored list and session |
| AuthStore.Store.InitUsers | frontend/src/utils/authStore.js:12-18 | a missing list, or one that mentions the old domain, is reset to the defaults; otherwise the list stays; the session is untouched |
| AuthStore.Store.UpdateUser | frontend/src/utils/authStore.js:36-48 | an absent email gives null and no change; otherwise the list is updated and a session with that email gets the same updates |
| AuthStore.Store.AddUser | frontend/src/utils/authStore.js:50-58 | a taken email gives the error and no change; otherwise the user is appended |
| AuthStore.Store.DeleteUser | frontend/src/utils/authStore.js:60-63 | the stored list loses every user with the email; the session is untouched |
| AuthStore.Store.SetSession | frontend/src/utils/authStore.js:70-72 | the session then reads back as the user given |
| AuthStore.Store.ClearSession | frontend/src/utils/authStore.js:74-76 | the session then reads back as none |
| Formatters.FormatDate | frontend/src/utils/formatters.js:3-8 | a dash for a missing or invalid date; otherwise month name, day and year |
| Formatters.FormatDateShort | frontend/src/utils/formatters.js:10-15 | a dash for a missing or invalid date; otherwise day and month name |
| Formatters.FormatsAgree | frontend/src/utils/formatters.js:3-15 | both formats show the dash for the same arguments; otherwise they name the same month |
| Formatters.TimeAgoBuckets | frontend/src/utils/formatters.js:24-39 | under a minute `just now`, then whole minutes, hours, days, and months of thirty days, each rounded down |
| Formatters.Heads | frontend/src/utils/formatters.js:45-46 | at most one letter per word |
| Formatters.Initials | frontend/src/utils/formatters.js:41-49 | `'??'` for an empty name; never more than two characters |
| Formatters.HeadsOfNonEmptyWords | frontend/src/utils/formatters.js:45-46 | the letters are the first characters of the non-empty words, one each, in order |
| Formatters.InitialsOfOneWord | frontend/src/utils/formatters.js:41-49 | a single word gives its upper-cased first letter alone |
| Formatters.InitialsSkipLeadingSpace | frontend/src/utils/formatters.js:44-46 | a leading space gives an empty word, which adds no letter |
| Formatters.InitialsSkipDoubleSpace | frontend/src/utils/formatters.js:44-46 | a double space between words gives an empty word, which adds no letter |
| Formatters.InitialsOfTwoWords | frontend/src/utils/formatters.js:43-48 | two words give their upper-cased first letters |
| Formatters.InitialsIgnoreLaterWords | frontend/src/utils/formatters.js:48 | words after the second do not change the initials |
| Formatters.Lookup | frontend/src/utils/formatters.js:58-94 | an unlisted key gets the grey class; a listed one its own class |
| Formatters.EnumsHaveColours | frontend/src/utils/formatters.js:51-86 | every urgency has a colour other than grey; every case status and every schema task stage is listed |
| Formatters.ToInt32 | frontend/src/utils/formatters.js:104 | the 32-bit conversion of `<<` lies in [-2^31, 2^31) |
| Formatters.AvatarColor | frontend/src/utils/formatters.js:97-107 | the loop computes the hash, and the class is the one at `\|hash\| % 8` |
| Formatters.AvatarInRange | frontend/src/utils/formatters.js:97-107 | the class is one of the eight listed; the empty name hashes to 0 and one character to its code |
| Paginator.ShownWithinList | frontend/src/components/ui/Paginator.jsx:6-7 | on a page in range, the shown range is non-empty, inside the list and at most a page long, exactly a page before the last page |
| Paginator.ArrowsStayInRange | frontend/src/components/ui/Paginator.jsx:37-61 | prev is disabled iff on page 1 and next iff on the last page; an enabled arrow leads to a page in range |
| Paginator.Window | frontend/src/components/ui/Paginator.jsx:11-16 | the window lies inside 1..pages, has min(pages, 5) pages and holds the current page when it is in range |
| Paginator.Run | frontend/src/components/ui/Paginator.jsx:21 | the consecutive page numbers from a up to b |
| Paginator.GetPages | frontend/src/components/ui/Paginator.jsx:9-27 | the pushes and the loop build the specified listing |
| Paginator.ListingEnds | frontend/src/components/ui/Paginator.jsx:17-25 | the listing starts with page 1, ends with the last page, and shows the current page when it is in range |
| Paginator.ListingSteps | frontend/src/components/ui/Paginator.jsx:17-25 | neighbouring numbers are consecutive, and a marker sits only, and always, between numbers that skip at least one page |
| MiniProgress.Clamp | frontend/src/components/ui/MiniProgress.jsx:2 | the result lies in [0,100]; values inside stay; below gives 0; above gives 100 |
| MiniProgress.ClampIdempotentMonotone | frontend/src/components/ui/MiniProgress.jsx:2 | clamping twice is clamping once, and clamping keeps order |
| QuickSearch.Label | frontend/src/components/QuickSearch.jsx:43 | the first non-empty of title, full name, name, then ref |
| QuickSearch.UpdateRecent | frontend/src/components/QuickSearch.jsx:44-45 | the new entry first, 1 to 8 entries, no other with its id, the rest a prefix of the old list without that id |
| QuickSearch.Origin | frontend/src/components/QuickSearch.jsx:45 | every later entry of the new list sat somewhere in the old list |
| QuickSearch.RecentKeepsOrder | frontend/src/components/QuickSearch.jsx:45 | surviving older entries keep their relative order |
| QuickSearch.RecentKeepsIdsDistinct | frontend/src/components/QuickSearch.jsx:45 | a list with distinct ids keeps distinct ids |
| QuickSearch.GroupItems | frontend/src/components/QuickSearch.jsx:38 | one flat entry per hit of the group, in order |
| QuickSearch.FlattenCount | frontend/src/components/QuickSearch.jsx:36-39 | one flat entry per hit over all groups |
| QuickSearch.Route | frontend/src/components/QuickSearch.jsx:50-51 | a case with an id opens `/cases/<id>`; any other listed group, a case without an id included, opens its list page `ROUTE_MAP[group]`, which is `'/' + group`; an unknown group opens `/dashboard` |
| QuickSearch.Palette.constructor | frontend/src/components/QuickSearch.jsx:22 | no results and no active item, with the stored recent list |
| QuickSearch.Palette.AllItems | frontend/src/components/QuickSearch.jsx:36-39 | the nested `forEach` builds the flattened list |
| QuickSearch.Palette.DoSearch | frontend/src/components/QuickSearch.jsx:24-32 | searched iff the query is two UTF-16 code units or longer (a single emoji is); otherwise results cleared; nothing else changes |
| QuickSearch.Palette.HandleSelect | frontend/src/components/QuickSearch.jsx:41-53 | the recent list is updated with the hit's label, group and id; returns the hit's route |
| QuickSearch.Palette.HandleKeyDown | frontend/src/components/QuickSearch.jsx:55-63 | the arrows move within [-1, n-1]; Enter selects only an existing item; results unchanged |
| TasksPage.WithItem | frontend/src/pages/Tasks.jsx:109-113 | a blank input adds nothing; otherwise its trimmed text, not done, is appended |
| TasksPage.Toggled | frontend/src/pages/Tasks.jsx:114-116 | only the item at idx flips done; length and other items unchanged |
| TasksPage.Removed | frontend/src/pages/Tasks.jsx:117-119 | one item fewer, the others in order; an index past the end removes nothing |
| TasksPage.ToggleTwice | frontend/src/pages/Tasks.jsx:114-116 | toggling the same item twice restores the list |
| TasksPage.RemoveKeepsOthers | frontend/src/pages/Tasks.jsx:117-119 | the remaining items plus the removed one are the old list |
| TasksPage.RemoveUndoesAdd | frontend/src/pages/Tasks.jsx:109-119 | removing the item just added restores the list |
| TasksPage.TaskEditor.constructor | frontend/src/pages/Tasks.jsx:23 | an empty title, checklist and item input |
| TasksPage.TaskEditor.AddCheckItem | frontend/src/pages/Tasks.jsx:109-113 | the checklist becomes WithItem of the input, and the input is cleared unless it was blank |
| TasksPage.TaskEditor.ToggleCheckItem | frontend/src/pages/Tasks.jsx:114-116 | the checklist becomes Toggled at idx; its frame lets no other field change |
| TasksPage.TaskEditor.RemoveCheckItem | frontend/src/pages/Tasks.jsx:117-119 | the checklist becomes Removed at idx; its frame lets no other field change |
| TasksPage.TitleError | frontend/src/pages/Tasks.jsx:84-89 | no error iff the trimmed title is non-empty; else `'Title is required'` |
| TasksPage.TitleValidIff | frontend/src/pages/Tasks.jsx:84-89 | the form is valid iff the title holds a non-space character |
| TasksPage.Coerce | frontend/src/pages/Tasks.jsx:95 | `Number(x) \|\| 0` on each input; the saved hours and progress are never negative, which follows from the model's `Number` reading no sign or fraction (see Left out), not from the form |
| TasksPage.CoerceBlankAndDecimal | frontend/src/pages/Tasks.jsx:95 | blank inputs save 0; a decimal number saves as that number |
| TasksPage.OverdueVersusCount | frontend/src/pages/Tasks.jsx:182 | the page marks every task the dashboard counts, plus late Dropped tasks; a Done task is never marked |
| TasksPage.Column | frontend/src/pages/Tasks.jsx:212-213 | a column holds exactly the tasks whose stage is its name |
| TasksPage.BoardPlacement | frontend/src/pages/Tasks.jsx:212-213 | a task is on the board iff its stage is in the page's list, in its own column only; Todo, Review and Dropped tasks are in none |
| TasksPage.SchemaStagesOnBoard | backend/models/Task.js:35 | of the schema's stages only Backlog, In Progress and Done have a column |
| CasesPage.FormErrors | frontend/src/pages/Cases.jsx:115-124 | each field has an error iff it is missing (the title iff blank), with the page's messages |
| CasesPage.ValidateForm | frontend/src/pages/Cases.jsx:115-124 | the field-by-field fill gives FormErrors; ok iff there are none |
| CasesPage.FormValidIff | frontend/src/pages/Cases.jsx:115-124 | valid iff the title is not blank and category, status, urgency and lead attorney are set |
| CasesPage.Portfolio | frontend/src/pages/Cases.jsx:132 | a blank value saves 0; a saved value is never negative, which follows from the model's `Number` reading no sign or fraction (see Left out), not from the page |
| CasesPage.SavedLabels | frontend/src/pages/Cases.jsx:133 | empty text gives no labels; every label is non-empty, trimmed and comma-free |
| CasesPage.EditForm | frontend/src/pages/Cases.jsx:94-113 | status defaults to Pending, urgency to Standard; dates become their first 10 characters |
| CasesPage.EditSaveRoundTrip | frontend/src/pages/Cases.jsx:107-133 | saving an untouched edit keeps the portfolio value and, for clean labels, the labels |
| CasesPage.HearingMarksExclusive | frontend/src/pages/Cases.jsx:222-223 | never both past and soon; soon iff from now to seven days ahead |
| DocumentsPage.FormErrors | frontend/src/pages/Documents.jsx:72-79 | each field has an error iff it is missing (the name iff blank), with the page's messages |
| DocumentsPage.ValidateForm | frontend/src/pages/Documents.jsx:72-79 | the field-by-field fill gives FormErrors; ok iff there are none |
| DocumentsPage.FormValidIff | frontend/src/pages/Documents.jsx:72-79 | valid iff the name is not blank and a type and a status are chosen |
| DocumentsPage.Revision | frontend/src/pages/Documents.jsx:99 | at least 1; blank, non-numeric and 0 give 1 |
| DocumentsPage.EditForm | frontend/src/pages/Documents.jsx:68 | the due date becomes its first 10 characters; the revision shows 1 when none is set |
| DocumentsPage.EditSaveRoundTrip | frontend/src/pages/Documents.jsx:68-99 | an untouched edit keeps a set revision, saves 1 for none, and keeps clean labels |
| DocumentsPage.OverdueMatchesCount | frontend/src/pages/Documents.jsx:156 | the page marks exactly the documents the dashboard counts; Filed and Approved never |
| ClientsPage.Validate | frontend/src/pages/Clients.jsx:68-75 | a name error iff the name is blank; `'Email is required'` iff the email is blank; `'Invalid email'` iff non-blank and not address-shaped |
| ClientsPage.ValidIff | frontend/src/pages/Clients.jsx:73-74 | valid iff the name is not blank and the email is address-shaped |
| ClientsPage.StandingColor | frontend/src/pages/Clients.jsx:94 | Active emerald, Suspended rose, anything else gray |
| ClientsPage.StandingColorIff | frontend/src/pages/Clients.jsx:94 | a colour other than gray iff Active or Suspended |
| Forms.EmailLikeShape | frontend/src/pages/Clients.jsx:72 | a match has `@`, a later `.`, at least five characters, and keeps matching inside any text |
| Forms.EmailExamples | frontend/src/pages/TeamMembers.jsx:39 | sample addresses that match and fail the pattern |
| Forms.ParseLabels | frontend/src/pages/Cases.jsx:133 | every parsed label is non-empty, trimmed and comma-free |
| Forms.LabelsRoundTrip | frontend/src/pages/Cases.jsx:109-133 | parsing the `', '` join gives the labels back when each is clean |
| Forms.LabelsStable | frontend/src/pages/Documents.jsx:68-99 | saving, opening and saving again gives the first save's labels |
| Forms.JsNumber | frontend/src/pages/Tasks.jsx:95 | blank is 0; a value is never negative, because only unsigned decimal digits are read (see Left out) |
| Forms.NumberOr | frontend/src/pages/Documents.jsx:99 | `Number(s) \|\| d`: NaN and 0 give the default; otherwise the non-zero number |
| Forms.NumberOfDecimal | frontend/src/pages/Cases.jsx:107-132 | the decimal text of a number reads back as it |
| Forms.NumberOrDefault | frontend/src/pages/Tasks.jsx:95 | a blank input takes the default; a non-zero default is never replaced by 0; decimal digits give their value |
| TeamMembers.Validate | frontend/src/pages/TeamMembers.jsx:35-43 | a name error iff blank; an email error iff blank or not address-shaped; a password error iff shorter than 4 UTF-16 code units |
| TeamMembers.ValidIff | frontend/src/pages/TeamMembers.jsx:35-43 | valid iff the name is not blank, the email matches the pattern and the password is at least 4 UTF-16 code units |
| TeamMembers.EditKeepsEmails | frontend/src/pages/TeamMembers.jsx:48 | an edit keeps every email and gives the member the form's name, role, password and admin flag |
| TeamMembers.ToggleFlipsOnlyAdmin | frontend/src/pages/TeamMembers.jsx:108-109 | the toggle flips that member's admin flag and nothing else |
| TeamMembers.HandleSave | frontend/src/pages/TeamMembers.jsx:45-58 | an invalid form changes nothing; an edit updates the member, and when the edited member is the signed-in user the session receives the same updates, the session otherwise staying as it was; a new taken email is refused unchanged; a new free email is appended |
| TeamMembers.HandleDelete | frontend/src/pages/TeamMembers.jsx:60-66 | refused iff the target is the session's user, then nothing changes; otherwise the target is removed and the session kept |
| TeamMembers.ToggleAdmin | frontend/src/pages/TeamMembers.jsx:108-109 | applied iff the member is not the session's user; otherwise nothing changes; when applied, only that member's flag flips and the session stays as it was |
| MyAccount.AccountUser | frontend/src/pages/MyAccount.jsx:10 | the account shown has the session's email |
| MyAccount.PasswordCheck | frontend/src/pages/MyAccount.jsx:29-32 | pass iff all four checks hold, the length counted in UTF-16 code units; otherwise the first failing check's message |
| MyAccount.LengthInCodeUnits | frontend/src/pages/MyAccount.jsx:31 | two emoji make a password of length 4, which passes; three letters are too short |
| MyAccount.ChangedPasswordIsCurrent | frontend/src/pages/MyAccount.jsx:35 | after a change the next change is checked against the new password |
| MyAccount.HandlePwSave | frontend/src/pages/MyAccount.jsx:28-40 | on failure nothing changes; on success the password is stored, the session receives the new password when the account is in the registry, and the inputs are cleared |
| MyAccount.ProfileSetsNameAndRole | frontend/src/pages/MyAccount.jsx:21 | a profile save sets exactly the name and the role |
| MyAccount.HandleProfileSave | frontend/src/pages/MyAccount.jsx:17-26 | refused iff the name is blank, then nothing changes; otherwise the registry and the session get the name and role, and the email stays |
| Login.InputErrors | frontend/src/pages/Login.jsx:18-21 | an error for each missing field, reported together |
| Login.HandleSubmit | frontend/src/pages/Login.jsx:16-31 | a missing field stops before lookup; unmatched credentials set the form error and no session; a match becomes the session, welcomed by its first word |
| Login.SignInIff | frontend/src/pages/Login.jsx:18-28 | sign-in succeeds iff both fields are given and a user matches both exactly |
| Login.WelcomeIsFirstWord | frontend/src/pages/Login.jsx:29 | the welcome word has no space and is followed by a space or the end of the name |
| CalendarView.Next | frontend/src/pages/CalendarView.jsx:35 | December goes to January of the next year; other months to the next month |
| CalendarView.Prev | frontend/src/pages/CalendarView.jsx:34 | January goes to December of the previous year; other months to the previous month |
| CalendarView.PrevNextInverse | frontend/src/pages/CalendarView.jsx:34-35 | back after forward, and forward after back, restore the month; both stay in 1..12 |
| CalendarView.NextTwelve | frontend/src/pages/CalendarView.jsx:35 | k ≤ 12 steps forward add k months, wrapping into the next year |
| CalendarView.Grid | frontend/src/pages/CalendarView.jsx:39-46 | firstDay empty cells, then days 1..daysInMonth |
| CalendarView.GridDayOnce | frontend/src/pages/CalendarView.jsx:39-46 | each day of the month has exactly one cell |
| CalendarView.CalendarDays | frontend/src/pages/CalendarView.jsx:42-45 | the two push loops build the grid |
| CalendarView.Pad2Digits | frontend/src/pages/CalendarView.jsx:51 | a day or month up to 99 pads to two digits worth it |
| CalendarView.DateKeyDistinct | frontend/src/pages/CalendarView.jsx:51 | different days of a month have different keys |
| CalendarView.Calendar.constructor | frontend/src/pages/CalendarView.jsx:15-21 | the page opens on the given month and day, with no events |
| CalendarView.Calendar.PrevMonth | frontend/src/pages/CalendarView.jsx:34 | the previous month, day 1 selected, events kept |
| CalendarView.Calendar.NextMonth | frontend/src/pages/CalendarView.jsx:35 | the next month, day 1 selected, events kept |
| CalendarView.Calendar.EventsForDay | frontend/src/pages/CalendarView.jsx:49-53 | none for no day or 0; otherwise exactly the events dated on that day |
| CalendarView.Calendar.EventsForDayInOrder | frontend/src/pages/CalendarView.jsx:49-53 | the events of a day keep their relative order from the full list |
| CalendarView.Calendar.DaysDisjoint | frontend/src/pages/CalendarView.jsx:49-53 | no event is listed under two days |
| Dashboard.Greeting | frontend/src/pages/Dashboard.jsx:48-53 | morning before 12, afternoon before 17, evening after |
| Dashboard.GreetingMonotone | frontend/src/pages/Dashboard.jsx:48-53 | a later hour never gets an earlier part of the day |
| Dashboard.FirstName | frontend/src/pages/Dashboard.jsx:55 | never empty and without a space; `'there'` with no session |
| Dashboard.FirstNameIsWelcomeWord | frontend/src/pages/Dashboard.jsx:55 | the dashboard uses the sign-in welcome word, or `'there'` when it is empty |
| Dashboard.CaughtUpIff | frontend/src/pages/Dashboard.jsx:83-95 | "All caught up!" iff neither overdue count is known to be positive |
| Dashboard.DeadlineLabel | frontend/src/pages/Dashboard.jsx:223 | TODAY up to 0 days, TOMORROW at 1, otherwise `N days left` |
| Dashboard.DeadlineTone | frontend/src/pages/Dashboard.jsx:222 | rose up to 1 day, amber up to 3, grey after |
| Dashboard.DeadlineLabelByGap | frontend/src/pages/Dashboard.jsx:206-223 | TODAY iff the date has passed; TOMORROW iff within 24 hours; otherwise days rounded up |
| Dashboard.HearingStrip | frontend/src/pages/Dashboard.jsx:293-295 | rose iff ≤ 5 days, amber iff 6 to 14, none after |
| Dashboard.HearingStripByGap | frontend/src/pages/Dashboard.jsx:292-306 | in milliseconds: rose iff at most 5 days ahead, amber iff 5 to 14 days; URGENT iff rose |
| TopBar.Segments | frontend/src/components/layout/TopBar.jsx:28 | segments are non-empty and free of slashes |
| TopBar.PathBaseAsWritten | frontend/src/components/layout/TopBar.jsx:28 | as written, a path without segments gives `'/undefined'` |
| TopBar.RootTitleAsWritten | frontend/src/components/layout/TopBar.jsx:9-30 | as written, `/` gets the fallback, not Dashboard |
| TopBar.DashboardTitleAsWritten | frontend/src/components/layout/TopBar.jsx:9-30 | as written, `/dashboard` gets the fallback |
| TopBar.CaseTitleAsWritten | frontend/src/components/layout/TopBar.jsx:11-30 | as written, every case page gets `'Cases'` |
| TopBar.CaseDetailsUnreachable | frontend/src/components/layout/TopBar.jsx:29-30 | as written, no path gets `'Case Details'` |
| TopBar.PathBase | frontend/src/components/layout/TopBar.jsx:28 | `'/'` without segments, otherwise `'/'` and the first segment |
| TopBar.RootTitle | frontend/src/components/layout/TopBar.jsx:9-10 | corrected, `/` gets Dashboard |
| TopBar.CaseTitle | frontend/src/components/layout/TopBar.jsx:29-30 | corrected, a case page gets `'Case Details'` |
| TopBar.PageTitleOfSegment | frontend/src/components/layout/TopBar.jsx:9-30 | corrected, a one-segment page gets its listed title, or the fallback when unlisted |
| TopBar.BadgeText | frontend/src/components/layout/TopBar.jsx:73-76 | no badge iff the count is ≤ 0; `'99+'` above 99 |
| TopBar.BadgeFits | frontend/src/components/layout/TopBar.jsx:73-76 | one to three characters; the exact count from 1 to 99 |
| Tally.Find | backend/routes/stats.js:336-339 | a key is absent iff no entry carries it |
| Tally.Upsert | backend/routes/stats.js:336-339 | a new key goes last, an existing one keeps its place; only that key's value changes |
| Tally.GroupBy | backend/routes/stats.js:282-295 | the keys are `Seqs.Dedup` of the elements' keys: once each, in order of first appearance by Seqs.DedupFirstAppearance |
| Tally.GroupByFind | backend/routes/stats.js:282-295 | each key holds the fold of its elements; an unseen key is absent |
| Tally.GroupBySum | backend/routes/stats.js:268-276 | the groups' measures sum to the weights of all elements |
| Tally.SumValsPermutation | backend/routes/stats.js:270-278 | reordering the entries keeps every sum |
| Tally.CountByFind | backend/routes/stats.js:336-339 | the counter under a key is the number of elements with that key |
| Tally.CountByTotal | backend/routes/stats.js:336-339 | the counters sum to the number of elements |
| Tally.CountByEmpty | backend/routes/stats.js:258-259 | counting gives the empty dictionary iff there is nothing to count |
| Tally.CountEach | backend/routes/stats.js:336-339 | the counting loop computes the counters |
| Seqs.SortByKey | backend/routes/stats.js:165 | the result is sorted by the key and is a permutation of the input |
| Seqs.SortByKeyStable | backend/routes/stats.js:165 | elements with equal keys keep their input order |
| Seqs.SortStrings | backend/routes/stats.js:321-349 | the result is sorted and has the same elements; distinct input stays distinct |
| Seqs.Dedup | backend/routes/stats.js:321 | distinct, with exactly the input's elements, no longer than the input |
| Seqs.DedupFirstAppearance | backend/routes/stats.js:321 | `[...new Set(s)]` lists the elements in the order of their first occurrence in `s` |
| Seqs.FilterPosMonotone | frontend/src/components/QuickSearch.jsx:45 | filtering keeps the order of what it keeps |
| Numeric.RoundDiv | backend/routes/stats.js:235 | `Math.round(num / den)`: halves round up |
| Numeric.CeilDiv | frontend/src/pages/Dashboard.jsx:206 | `Math.ceil(num / den)`: the least r with num ≤ r·den |
| Numeric.Percent | backend/routes/stats.js:229 | 0 for den 0; otherwise `round(100·num/den)` |
| Numeric.PercentBounds | backend/routes/stats.js:229 | a rounded share of a whole lies in [0,100] |
| Numeric.RoundedMeanBounds | backend/routes/stats.js:235 | a rounded mean stays within the bounds of the values |
| Text.Trim | frontend/src/pages/Tasks.jsx:86-111 | the result has no space at either end and is an infix of the input |
| Text.TrimEmptyIffBlank | frontend/src/pages/Cases.jsx:117 | `!s.trim()` holds exactly of the blank strings |
| Text.TrimIdempotent | frontend/src/pages/Cases.jsx:133 | trimming twice is trimming once |
| Text.Split | frontend/src/pages/Cases.jsx:133 | at least one part, none containing the separator |
| Text.SplitJoin | frontend/src/pages/Cases.jsx:109-133 | splitting a join gives the parts back when none holds the separator |
| Text.SplitJoinSpaced | backend/middleware/errorHandler.js:12 | splitting a `', '` join at commas gives the first part and, after a space, every other one |
| Text.FirstWord | frontend/src/pages/Login.jsx:29 | the text up to the first space, itself free of spaces |
| Text.FirstWordIsSplitHead | frontend/src/pages/Dashboard.jsx:55 | the first word is the head of the split at spaces |
| Text.Slice0 | frontend/src/pages/Cases.jsx:105-106 | the first min(n, length) characters |
| Text.Utf16Length | frontend/src/pages/MyAccount.jsx:31 | `.length` in UTF-16 code units: between the character count and twice it |
| Text.Utf16LengthIsLength | frontend/src/pages/TeamMembers.jsx:40 | the UTF-16 length equals the character count iff no character lies outside the Basic Multilingual Plane |
| Text.NatToString | backend/models/Case.js:74 | the shortest decimal digits worth n |
| Text.PadStart | backend/models/Case.js:74 | the input, after enough fill characters to reach the length |
| Text.ToLower | backend/routes/stats.js:250 | each ASCII letter lower-cased in place |
| Text.ToUpper | frontend/src/utils/formatters.js:47 | each ASCII letter upper-cased in place |
| Text.LowerForgetsCase | backend/routes/tasks.js:88-90 | lower-casing forgets upper case |

## Left out

- I/O is not modelled: MongoDB queries, `localStorage`, axios calls, toasts and navigation. A query is a filter over a sequence. The registry's stored list and session are fields. A toast or navigation is a returned value or is left out.
- `Promise.all` runs the queries concurrently; the model reads them in order. `setTimeout` delays, debouncing and polling are left out.
- JavaScript `Date` arithmetic is left out: `setMonth`, `setFullYear`, `getDay`, days in a month, time zones and the clock. These enter as parameters: `now`, the range anchors, a month's first midnight and length, `firstDay`, `daysInMonth` and the local hour.
- Date parsing is left out. Formatters.FormatDate and Formatters.FormatDateShort take the parsed day, or its absence, as input.
- Floating point is left out:
  - `formatCurrency`;
  - the heat-map colours;
  - chart percentages;
  - the KPI easing.
- MiniProgress.Clamp works on `real`.
- Formatters.Hash adds exactly. The loop's sum stays far below 2^53 for any realistic name, so double precision does not change it.
- Mongo `$group` returns groups in no defined order. The model uses first-appearance order and then the stable sort, so the order among equal sort keys is this model's choice.
- Forms.JsNumber: reads only blank text and optionally space-padded decimal digits. Any other text, including a sign, a fraction, an exponent or hex, is NaN here, whereas `Number` accepts some of these.
- CasesPage.Portfolio, DocumentsPage.Revision and TasksPage.Coerce inherit this restriction. The hours inputs are `type="number"` with `step="0.5"`, so the source saves "1.5" as 1.5 and a typed "-3" as -3. The model saves 0 for both, and its "never negative" holds only because of the restriction.
- Text.ToLower and Text.ToUpper: map only ASCII letters. Unicode case mapping is not modelled.
- TasksPage.Toggled and TasksPage.TaskEditor.ToggleCheckItem: require the index to be in range. The source throws a TypeError reading `done` of a missing item, and that exception is not modelled.
- Upload.Receive takes the clock value and the random number as parameters. Multer's disk storage and the static `/files` mount are not modelled.
- Notify.CreateAlert takes the outcome of the store insert as a boolean. The log line written on failure is left out.
- ErrorHandler.Handle: the console log is left out. An error's fields are a datatype: name, code, field messages, key fields, value, status and message.
- The task list's query-building and regex search (backend/routes/tasks.js:20-37) are thin pass-through to the store. Only `skip`, `pages` and the sort direction are modelled. TaskRoute.Skip carries no contract of its own; TaskRoute.PageOfRecord states it.
- The dashboard counters and "my work" counts (backend/routes/stats.js:15-108, 118-137) are store counts and are not modelled. The overdue rules at lines 32-33 are, because the Tasks and Documents pages are compared with them.
- The calendar page's `goToday` and the data loading in its effect are not modelled.
- Calendar.Event: has no `id` field. The route sends each record's `_id` with its event (backend/routes/calendar.js:31, 42, 52 and 64). Records.CaseRec, Records.TaskRec and Records.DocRec carry no store-assigned identifier, so the events do not either. The event's date, kind, label, status, urgency and case reference are modelled.
- The Escape key of the search palette only closes it. It is a `Key` value that changes nothing in the palette's state.
- The admin redirect of the Team page (TeamMembers.Admits) and the paginator's "nothing rendered" guard (Paginator.Renders) are predicates with no contract of their own. Paginator.Window and the listing lemmas assume the guard has passed (`pages > 1`), as the source does.
- Tally.Upsert, Tally.GroupBy, Tally.CountBy and StatsAttorneys.TaskCompletionByAttorney: a plain object is modelled as a dictionary of its own keys. An owner or key named after an inherited `Object.prototype` property, such as `constructor` or `toString`, finds a value already there in the source, so at backend/routes/stats.js:285 that owner gets no row. The model gives that owner a row.
- Tally.GroupBy and the rows built on it keep every key in insertion order. `Object.entries` lists integer-like keys first, in ascending numeric order, for example an owner named `7`. After the stable sort at backend/routes/stats.js:296-302 that can change the order of rows with equal rates.
- Formatters.Lookup, ClientsPage.StandingColor and Notify.LevelFor: for a key naming an inherited property, such as `constructor`, the source's lookup object returns that property, a function, instead of falling back to grey, gray or `'info'`. The model returns the fallback.
- Numeric.Percent, StatsMetrics.ResolutionRate, StatsMetrics.TaskOnTimeRate and StatsAttorneys.ToRow: the percentage is rounded from the exact ratio. The source computes `(num / den) * 100` in double precision first, so a ratio that lands a hair below a half rounds down there. For 23 of 40, `(23/40)*100` is 57.49999999999999 and the source reports 57, where the model gives 58. The same happens for 29, 57 and 113 of 200.
- Formatters.Hash, Formatters.AvatarColor, Formatters.Initials and Seqs.SortStrings: a string is a sequence of code points here. JavaScript's `charCodeAt`, `w[0]`, `.length` and `slice` count UTF-16 code units (the password and query length tests use Text.Utf16Length, which counts them too), so for characters outside the Basic Multilingual Plane (an emoji, say) the hash, the first letter and the two-character cut differ. The default `sort()` at backend/routes/stats.js:321 and 343 compares code units too, so there a character outside that plane sorts before the characters U+E000 to U+FFFF; Seqs.StrLe puts it after them.
- Records.CaseRec and Records.TaskRec hold the portfolio value and the planned and logged hours as integers; the schemas declare them `Number`. The model assumes stored amounts are whole numbers. With fractional amounts, the `$sum` totals, `Math.round(value / cases)` and the billable-hours figures are not modelled.
- Seed data, the CRUD, search and notification routes, the other schemas' validators, the server and database wiring, and all presentation components are not part of this model.

## Findings

| source | as written | input that shows it | evidently intended | confidence | as-written member | corrected member |
|---|---|---|---|---|---|---|
| frontend/src/components/layout/TopBar.jsx:28 | `'/' + segments[0] \|\| '/'` is never empty, so the `\|\| '/'` fallback never applies and a path without segments gives `'/undefined'`; the title map's `'/'` entry is never used, and the root path is titled "Advocourt". The router sends `/` on to `/dashboard` (frontend/src/App.jsx:94), which the map does not list either, so the dashboard a user sees is titled "Advocourt" (TopBar.DashboardTitleAsWritten) | the path `/` | a path without segments has base `'/'` and is titled "Dashboard"; the `'/'` entry names the dashboard, so `/dashboard` should be titled "Dashboard" as well, but TopBar.PageTitle corrects only the base and keeps the map, so `/dashboard` still gets "Advocourt" there | not executed | TopBar.RootTitleAsWritten | TopBar.RootTitle |
| frontend/src/components/layout/TopBar.jsx:29-30 | the title map is consulted first and `'/cases'` is listed, so every `/cases/<id>` page gets "Cases" and the `'Case Details'` branch is dead | the path `/cases/42` | a case's own page is titled "Case Details" | not executed | TopBar.CaseTitleAsWritten | TopBar.CaseTitle |
