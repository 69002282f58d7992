# launchpad-reports in Dafny

This project models the core of launchpad-reports. That is a pair of
reporting applications, an older one (`launchpad-reporting/`) and a
current one (`launchpad_reporting/`), for bugs of the Fuel and MOS
projects on Launchpad. The project proves properties of that model.

The tracker's bugs are copied into a document store by a synchroniser.
Three are modelled: the flag-based one of `db.py`, the older `syncdb.py`
and the current `db/util.py`. A cleanup script removes stored tasks that
the tracker no longer lists.

The reporting side reads the store through a query layer. It has:

- the bug searches;
- the distinct-id counts;
- the common milestones;
- the targets of a bug;
- the filtering of a report's team tables;
- the OAuth authorisation URL.

On top of the query layer sit:

- the bug wrappers, including the status timeline of a bug;
- the release charts (trend lines and weekly incoming/outgoing counts);
- the SLA criteria and reports;
- the memoising `ttl_cache` decorator.

Values are modelled as follows:

- Dynamically typed values (JSON, store documents, attribute dictionaries) are the `Documents.Value` datatype.
- Dates are integer seconds.
- Python exceptions are the `Error` cases of a `Result`.
- The store, the tracker's search results, the configuration file and the clock are parameters.

Code that updates state step by step is a method with loops, proved against a specification function:

- the timeline algorithm;
- the synchronisers;
- the chart sweeps;
- the filters;
- the cache.

The properties the source promises are lemmas about those functions.

Modules follow the source files:

| module | models |
|---|---|
| `Wrappers`, `Strings`, `Sorting`, `Sifting`, `Documents`, `Store` | Python's result/exception flow, string methods, `sorted`, list comprehensions that may raise, dynamic values, the document store |
| `Statuses`, `LegacyStatuses` | `BUG_STATUSES` of the current and the older query layer |
| `Timeline` | `get_status_changes` (the same algorithm in both bug wrappers) |
| `LpBug` | launchpad_reporting/launchpad/bug.py |
| `LegacyBug` | launchpad-reporting/launchpad/bug.py |
| `ReleaseChart` | launchpad_reporting/launchpad/release_chart.py |
| `SyncUtil` | launchpad_reporting/db/util.py |
| `LegacySync` | launchpad-reporting/syncdb.py |
| `FlagSync` | launchpad-reporting/db.py |
| `Cleanup` | cleanup.py |
| `Tasks`, `LpData` | launchpad_reporting/launchpad/lpdata.py |
| `LegacyLpData` | launchpad-reporting/launchpad/lpdata.py |
| `Criterias` | launchpad_reporting/criterias.py |
| `SlaConfig`, `SlaReports` | launchpad_reporting/sla_reports.py |
| `TtlCache` | launchpad-reporting/launchpad/ttl_cache.py |

## Model

| member | source | states |
|---|---|---|
| Timeline.MinPresent | launchpad_reporting/launchpad/bug.py:65-67 | the open date is the least of the present dates, one of them; none exactly when all four are absent |
| Timeline.FirstPresent | launchpad_reporting/launchpad/bug.py:84-86 | `next(...)` gives the first present date, every earlier one being absent; none when all are absent |
| Timeline.ResolvedDate | launchpad_reporting/launchpad/bug.py:84-86 | the resolved date is `date_fix_committed` when present, else `date_closed` |
| Timeline.MatchesFromGroups | launchpad_reporting/launchpad/bug.py:71-72 | Open matches are the Open group without "In Progress", Resolved matches the Closed group without "Fix Released" (lines 90-91), Incomplete matches its group |
| Timeline.Candidates | launchpad_reporting/launchpad/bug.py:62-107 | five candidate events, one per lifecycle kind, in the order Open, In Progress, Resolved, Verified, Incomplete |
| Timeline.Dated | launchpad_reporting/launchpad/bug.py:110 | dropping undated entries keeps only candidates that carry a date, never more than there were |
| Timeline.DatedRanksAbove | launchpad_reporting/launchpad/bug.py:110 | dropping undated entries keeps every rank bound the candidates had |
| Timeline.DatedKeepsOrder | launchpad_reporting/launchpad/bug.py:110 | dropping undated entries keeps the kinds strictly in lifecycle order |
| Timeline.ObsoleteMarks | launchpad_reporting/launchpad/bug.py:113-116 | entry i is marked exactly when some later entry has a strictly earlier date |
| Timeline.MarkObsolete | launchpad_reporting/launchpad/bug.py:113-116 | the double loop fills the mark array with exactly those marks |
| Timeline.Unmarked | launchpad_reporting/launchpad/bug.py:119 | removing marked entries keeps only entries of the list |
| Timeline.SurvivorsSorted | launchpad_reporting/launchpad/bug.py:113-119 | after obsolete removal the dates are non-decreasing and the kinds stay in lifecycle order |
| Timeline.FirstMatch | launchpad_reporting/launchpad/bug.py:121-126 | the index of the first event whose matches contain the status, no earlier one matching; none exactly when no event matches |
| Timeline.FindFirstMatch | launchpad_reporting/launchpad/bug.py:122-126 | the search loop gives that index, or -1 when no event matches |
| Timeline.CutShape | launchpad_reporting/launchpad/bug.py:129-134 | the cut result is a prefix, still sorted, ending at an event that matches the status with no earlier one matching |
| Timeline.StatusChanges | launchpad_reporting/launchpad/bug.py:47-136 | the imperative algorithm (min, append, comprehension, double loop, search, slice) computes the specification timeline |
| Timeline.NewHasNoEvents | launchpad_reporting/launchpad/bug.py:58-59 | a bug in the New group has no events |
| Timeline.FailsWithoutOpenDate | launchpad_reporting/launchpad/bug.py:65-67 | the timeline raises exactly when the bug is not New and all four open dates are absent (`min` of an empty sequence) |
| Timeline.TimelineShape | launchpad_reporting/launchpad/bug.py:109-136 | a timeline is date-sorted, its kinds in lifecycle order, its last event matches the status and no earlier one does |
| Timeline.TimelineIsShortestMatchingPrefix | launchpad_reporting/launchpad/bug.py:121-136 | the timeline is the shortest prefix of the surviving events ending at a match, or empty when none matches |
| LpBug.CopiedAttrs | launchpad_reporting/launchpad/bug.py:44-45 | the copied attributes are exactly the listed field names |
| LpBug.Bug.constructor | launchpad_reporting/launchpad/bug.py:40-45 | every listed field is set to `lpbug.get(name)`, so an absent key gives None |
| LpBug.MissingCommaDropsFields | launchpad_reporting/launchpad/bug.py:11-35 | as written the list has 22 names, one of them `web_linkmilestone`; reading `web_link` or `milestone` raises, while the intended 23-name list sets both |
| LpBug.NotInAsWritten | launchpad_reporting/launchpad/bug.py:24-25 | neither `web_link` nor `milestone` is in the list as written |
| LpBug.Bug.GetStatusChanges | launchpad_reporting/launchpad/bug.py:47-136 | the timeline of the copied dates and status, date-sorted and in lifecycle order |
| LegacyBug.SanitizeString | launchpad-reporting/launchpad/bug.py:36-37 | keeps exactly the printable characters, never lengthens, and leaves an all-printable string unchanged |
| LegacyBug.AssigneeOf | launchpad-reporting/launchpad/bug.py:49-54 | the assignee has no `~` and is never "None"; the link is empty or `https://launchpad.net/~` + the assignee |
| LegacyBug.AssigneeFromLink | launchpad-reporting/launchpad/bug.py:50-51 | a link ending in `~name` gives the assignee `name` and its profile link |
| LegacyBug.NoAssignee | launchpad-reporting/launchpad/bug.py:52-54 | a None link gives an empty assignee and an empty link |
| LegacyBug.LinkSegment | launchpad-reporting/launchpad/bug.py:57-63 | the milestone and the id are each a single path segment of their link |
| LegacyBug.SegmentFromLink | launchpad-reporting/launchpad/bug.py:57-63 | the milestone and the id are the text after the last `/`, and a None milestone link gives "None" |
| LegacyBug.TitleOf | launchpad-reporting/launchpad/bug.py:60 | the title succeeds exactly when it is a string whose printable part has a `:`, and is then the stripped text after the first `:` |
| LegacyBug.TitleFromHeader | launchpad-reporting/launchpad/bug.py:60 | a title `Bug #n in P: "text"` gives `text` |
| LegacyBug.FirstMissing | launchpad-reporting/launchpad/bug.py:42-47 | the first listed name missing from a dictionary, none exactly when all are present |
| LegacyBug.NewBug | launchpad-reporting/launchpad/bug.py:39-63 | a missing object attribute raises `AttributeError` and a missing JSON key raises `KeyError`, each for the first missing name; otherwise the bug exists exactly when the title parses, with every field copied and parsed |
| LegacyBug.CopyObjectAttrs | launchpad-reporting/launchpad/bug.py:42-43 | the first loop copies every object attribute or raises `AttributeError` for the first missing one |
| LegacyBug.CheckJsonKeys | launchpad-reporting/launchpad/bug.py:46-47 | the second loop raises `KeyError` for the first missing JSON key, otherwise every key is present |
| LegacyBug.Bug.Parsed | launchpad-reporting/launchpad/bug.py:39-63 | the wrapper holds the copied attributes and the parsed assignee, link, milestone, title and id |
| LegacyBug.Bug.GetStatusChanges | launchpad-reporting/launchpad/bug.py:65-127 | the timeline of the copied dates and status, date-sorted and in lifecycle order |
| ReleaseChart.Chart.constructor | launchpad_reporting/launchpad/release_chart.py:16-21 | the chart's bugs are the concatenated results of `get_bugs` for every status group |
| ReleaseChart.WithStatus | launchpad_reporting/launchpad/release_chart.py:19-21 | a group query keeps exactly the records whose status is in the group |
| ReleaseChart.GroupMultiplicity | launchpad_reporting/launchpad/release_chart.py:18-21 | a bug comes back once for every group that holds its status |
| ReleaseChart.IncompleteInThreeGroups | launchpad_reporting/launchpad/release_chart.py:18-21 | an Incomplete bug is fetched three times, through Incomplete, Closed and All |
| ReleaseChart.DayStart | launchpad_reporting/launchpad/release_chart.py:53-54 | truncation to midnight gives the start of the day holding the instant |
| ReleaseChart.DayStartMonotone | launchpad_reporting/launchpad/release_chart.py:52-54 | truncation keeps `d1 <= d2`, so a span never ends before it starts |
| ReleaseChart.SpanAt | launchpad_reporting/launchpad/release_chart.py:43-59 | each consecutive pair gives at most one span, of the first event's kind, and only when the dates are in order |
| ReleaseChart.MarksCount | launchpad_reporting/launchpad/release_chart.py:56-57 | the +1/-1 marks summed up to a day count the spans covering that day, and all marks together sum to zero |
| ReleaseChart.MarksOnEndpoints | launchpad_reporting/launchpad/release_chart.py:56-59 | every mark's date is in the set of dates, so the binary search finds it |
| ReleaseChart.MarksOnGrid | launchpad_reporting/launchpad/release_chart.py:58-62 | every mark of a series lies on the sorted grid of dates |
| ReleaseChart.SortedDistinct | launchpad_reporting/launchpad/release_chart.py:62 | `sorted(all_dates)` is strictly increasing and holds exactly the collected dates |
| ReleaseChart.InsertDistinct | launchpad_reporting/launchpad/release_chart.py:58-59 | adding a date to the sorted set keeps it increasing and adds exactly that date |
| ReleaseChart.SumUpToSort | launchpad_reporting/launchpad/release_chart.py:70 | sorting the marks by `(date, -num)` changes no running sum and no total |
| ReleaseChart.SortedMarks | launchpad_reporting/launchpad/release_chart.py:70 | the sorted marks are date-sorted, lie on the grid exactly when the unsorted ones do, and have the same level every day |
| ReleaseChart.BisectLeft | launchpad_reporting/launchpad/release_chart.py:77 | `bisect_left`: every element before the index is smaller, every one from it on is not |
| ReleaseChart.BisectFinds | launchpad_reporting/launchpad/release_chart.py:77-80 | the element at the index equals the date exactly when the date is in the grid |
| ReleaseChart.Sweep | launchpad_reporting/launchpad/release_chart.py:73-81 | the sweep succeeds exactly when every mark is on the grid, and stores at each grid date the running total after the last mark on that date |
| ReleaseChart.ForwardFill | launchpad_reporting/launchpad/release_chart.py:84-94 | empty slots take the last defined value before them, leading empty slots the first defined value |
| ReleaseChart.FillIsLevel | launchpad_reporting/launchpad/release_chart.py:84-94 | after the fill, each slot holds the level of the series on its date |
| ReleaseChart.SweepAndFill | launchpad_reporting/launchpad/release_chart.py:70-94 | sweep and fill together put the level of the series in every grid slot, and raise exactly when a mark is off the grid |
| ReleaseChart.SeriesPoints | launchpad_reporting/launchpad/release_chart.py:70-104 | one series' points are the level on every grid day but the last, in milliseconds since the epoch |
| ReleaseChart.LevelPoints | launchpad_reporting/launchpad/release_chart.py:98-103 | a series has `n - 1` points, point k being grid day k in milliseconds with the level that day |
| ReleaseChart.LevelIsCoverage | launchpad_reporting/launchpad/release_chart.py:70-94 | a series without marks is 0 everywhere; otherwise the level on a day is the number of spans covering the later of that day and the first mark date (before its first mark a series takes its first defined value), so it is never negative |
| ReleaseChart.TrendCounts | launchpad_reporting/launchpad/release_chart.py:70-94 | every series of the trend chart is non-negative on every day and its marks cancel out |
| ReleaseChart.LastGridDayEmpty | launchpad_reporting/launchpad/release_chart.py:96-99 | on the last grid day every series is zero, which is why the chart leaves that point out |
| ReleaseChart.AllTimelines | launchpad_reporting/launchpad/release_chart.py:41-42 | one timeline per bug |
| ReleaseChart.GetTrendsData | launchpad_reporting/launchpad/release_chart.py:23-106 | the chart exists exactly when every bug's timeline does; it has one series per kind, in the order Verified, Resolved, In Progress, Open, Incomplete, each with the points of its spans over the grid of all span endpoints |
| ReleaseChart.TrendChart | launchpad_reporting/launchpad/release_chart.py:68-104 | the per-kind loop produces the series of every kind in that order |
| ReleaseChart.AddSpans | launchpad_reporting/launchpad/release_chart.py:44-59 | the inner loop adds exactly the spans of one timeline to the series and the dates |
| ReleaseChart.TrendStep | launchpad_reporting/launchpad/release_chart.py:41-59 | one bug either raises (so the whole chart raises) or adds its spans |
| ReleaseChart.Monday | launchpad_reporting/launchpad/release_chart.py:126-127 | the Monday midnight at or before the event's date, less than a week before it |
| ReleaseChart.WeekStep | launchpad_reporting/launchpad/release_chart.py:129-135 | an Open event counts in Incoming and a Resolved event in Outgoing for its week, adding the week to the dates; other kinds add nothing |
| ReleaseChart.AddWeeks | launchpad_reporting/launchpad/release_chart.py:124-135 | the event loop tallies every event of one timeline |
| ReleaseChart.WeeklyValues | launchpad_reporting/launchpad/release_chart.py:147-158 | a weekly series has one point per grid week holding that week's count, 0 for a week without events of its kind |
| ReleaseChart.WeeksCounted | launchpad_reporting/launchpad/release_chart.py:129-138 | every week on the grid has at least one incoming or outgoing event |
| ReleaseChart.WeekCountZero | launchpad_reporting/launchpad/release_chart.py:150 | a week without events of a kind counts 0 (the `defaultdict(int)`) |
| ReleaseChart.GetIncomingOutgoingData | launchpad_reporting/launchpad/release_chart.py:108-161 | the chart exists exactly when every timeline does, and holds the Incoming and Outgoing weekly series over the sorted weeks of all events |
| SyncUtil.NewBug | launchpad_reporting/db/util.py:9-17 | the wrapper's loop sets the parsed value of every entry, or stops at the first entry that fails to parse |
| SyncUtil.ParseSucceeds | launchpad_reporting/db/util.py:11-17 | a wrapper is built exactly when every entry parses |
| SyncUtil.ParsedKeys | launchpad_reporting/db/util.py:11-17 | a built wrapper has one attribute per entry key and no other |
| SyncUtil.ParsedValues | launchpad_reporting/db/util.py:12-17 | a truthy value under a `date` key is parsed as a timestamp, any other value is copied unchanged |
| SyncUtil.ParseFailsFrom | launchpad_reporting/db/util.py:11-15 | a failed entry ends construction with its error |
| SyncUtil.YoungerThan | launchpad_reporting/db/util.py:20-29 | `None` is recent, a date is recent exactly when strictly after the threshold, and anything else raises |
| SyncUtil.ProcessDate | launchpad_reporting/db/util.py:32-36 | `None` stays `None` and a date keeps its instant; anything else raises |
| SyncUtil.ProcessedDates | launchpad_reporting/db/util.py:42-54 | the date dictionary holds exactly the eleven lifecycle dates, unchanged, or raises when one is missing or not a date |
| SyncUtil.FieldAfter | launchpad_reporting/db/util.py:56 | `split(sep)[1]` succeeds exactly when the separator occurs, and gives text without it |
| SyncUtil.AssigneeFields | launchpad_reporting/db/util.py:56-59 | no link gives no assignee and no link; a link without `~` raises; otherwise the assignee is the text after the first `~` and the link is kept, an empty name giving no assignee and an empty link (lines 87-92) |
| SyncUtil.MilestoneFields | launchpad_reporting/db/util.py:60-62 | the milestone is the last `/` segment of a present link; the stored link is a one-element tuple, holding the link only beside a non-empty milestone (lines 75-80) |
| SyncUtil.LinksOf | launchpad_reporting/db/util.py:41-64 | the first reads of `serialize_bug`: web link, processed dates, assignee, milestone and owner, each from the bug task's attributes |
| SyncUtil.BugItem | launchpad_reporting/db/util.py:66-69 | id, tags, title and last update come from the given task's bug, else from the bug task's own bug |
| SyncUtil.FieldsOf | launchpad_reporting/db/util.py:71-104 | the record's other fields are read from the bug item and the bug task, as the literal lists them |
| SyncUtil.FlagsOf | launchpad_reporting/db/util.py:105-108 | a missing creation or fix date makes both its flags true; a present one is recent exactly when after the week or month threshold |
| SyncUtil.Serialize | launchpad_reporting/db/util.py:39-109 | the record exists exactly when its links, fields and flags do, and is made of them |
| SyncUtil.RecordDocKeys | launchpad_reporting/db/util.py:71-75 | a stored record carries its target name, id and milestone |
| SyncUtil.RecordUpsertKey | launchpad_reporting/db/util.py:167-171 | a record goes to the collection named by its target up to the first `/`, keyed by its id and milestone |
| SyncUtil.RecordDocDates | launchpad_reporting/db/util.py:93-103 | a stored record carries the bug task's lifecycle dates unchanged |
| SyncUtil.MilestoneSeries | launchpad_reporting/db/util.py:117-121 | the loop builds the milestone-to-series map |
| SyncUtil.SeriesMap | launchpad_reporting/db/util.py:118-119 | the map has exactly the names of the active milestones |
| SyncUtil.SeriesOf | launchpad_reporting/db/util.py:121-144 | `milestone_series.get` gives a series exactly for an active milestone |
| SyncUtil.TargetLinks | launchpad_reporting/db/util.py:141 | one target link per related task, in order, or the error of the first entry without one |
| SyncUtil.RelatedRecordsStep | launchpad_reporting/db/util.py:147-150 | one more related task adds its record or ends the loop with its error |
| SyncUtil.RelatedFailFrom | launchpad_reporting/db/util.py:147-150 | after a failing related task no later one is serialised |
| SyncUtil.RelatedRecordsComplete | launchpad_reporting/db/util.py:147-150 | without error there is one record per related task, in order |
| SyncUtil.RemoveId | launchpad_reporting/db/util.py:126-128 | `remove({'id': id})` drops exactly the documents with that id from that collection and no other |
| SyncUtil.RemoveUntargetedEffect | launchpad_reporting/db/util.py:135-137 | untargeting removes exactly the documents with the bug's id from the listed projects that are not its targets |
| SyncUtil.LoadBugMonotone | launchpad_reporting/db/util.py:124-153 | a fetched bug only removes documents and only appends to the queue, whether or not it fails |
| SyncUtil.LoadBugLoaded | launchpad_reporting/db/util.py:124-153 | a loaded non-duplicate bug leaves no document with its id in its own project's collection nor in any listed project it does not target, and queues its records |
| SyncUtil.BugQueuedRecords | launchpad_reporting/db/util.py:143-153 | with related tasks the primary record is queued only when its milestone's series is not among their targets, then every related record; without them the primary record is queued once |
| SyncUtil.LoadBugDuplicate | launchpad_reporting/db/util.py:125-131 | a duplicate is removed from its own project's collection and queues nothing |
| SyncUtil.LoadFailsFrom | launchpad_reporting/db/util.py:124-153 | an error on one fetched bug ends the loader, later bugs untouched |
| SyncUtil.RecordDocs | launchpad_reporting/db/util.py:166-171 | one store document per queued record, in order |
| SyncUtil.Sync.constructor | launchpad_reporting/db/util.py:112-121 | a synchroniser starts from the given store with an empty queue |
| SyncUtil.Sync.LoadProjectBugs | launchpad_reporting/db/util.py:112-160 | the loader's new store, queue and error are those of the specification run over all fetched bugs |
| SyncUtil.Sync.LoadOne | launchpad_reporting/db/util.py:125-153 | the loop body for one fetched bug does what `LoadBug` specifies |
| SyncUtil.Sync.EnqueueBug | launchpad_reporting/db/util.py:139-153 | the queueing part appends exactly the bug's records and changes no collection |
| SyncUtil.Sync.RemoveUntargetedLoop | launchpad_reporting/db/util.py:135-137 | the removal loop leaves the store as `RemoveUntargeted` says and the queue unchanged |
| SyncUtil.Sync.EnqueueRelated | launchpad_reporting/db/util.py:147-150 | the related loop appends the related records, stopping at the first error |
| SyncUtil.Sync.EnqueueNext | launchpad_reporting/db/util.py:148-150 | one iteration appends the next related record |
| SyncUtil.Sync.ProcessBugs | launchpad_reporting/db/util.py:163-176 | draining the queue upserts every queued record, in order, and empties the queue |
| LegacySync.AssigneeFromLink | launchpad-reporting/syncdb.py:78-81 | the fallback assignee is the text after the first `~` of a truthy link (a link without `~` raises) or `None`, with the link kept as it is |
| LegacySync.AssigneeAlwaysFromLink | launchpad-reporting/syncdb.py:75-81 | the guarded block always fails, because the assignee's name is a string without `web_link`; the assignee therefore always comes from the link |
| LegacySync.LegacyMilestone | launchpad-reporting/syncdb.py:83-90 | the milestone's name and web link when both reads succeed, else the last `/` segment of the milestone link and the link itself |
| LegacySync.LegacyOwner | launchpad-reporting/syncdb.py:92-97 | the owner's name and web link when both reads succeed, else the text after the first `~` of the owner link, raising when there is none |
| LegacySync.After | launchpad-reporting/syncdb.py:126-131 | `parse(d.ctime()) > threshold` succeeds only for a date and compares it with the threshold |
| LegacySync.FixedFlag | launchpad-reporting/syncdb.py:137-148 | a fix flag is `None` without a fix date, else the comparison |
| LegacySync.RawDates | launchpad-reporting/syncdb.py:62-74 | the lifecycle dates are read unchanged; only a missing one raises, naming it |
| LegacySync.PreludeOf | launchpad-reporting/syncdb.py:61-102 | the reads before the literal: dates, assignee, milestone, owner and the bug item |
| LegacySync.LegacyFlagsOf | launchpad-reporting/syncdb.py:126-148 | the created flags are booleans and need a creation date; the fix flags are `None` without a fix date |
| LegacySync.LinksOf | launchpad-reporting/syncdb.py:107-125 | the milestone is kept only when truthy, its link stored as a one-element tuple; the assignee link is kept only beside a truthy assignee |
| LegacySync.LegacyFieldsOf | launchpad-reporting/syncdb.py:104-117 | id, tags and title come from the bug item, target, status and importance from the bug task |
| LegacySync.LegacySerializeParts | launchpad-reporting/syncdb.py:59-149 | a record is made exactly when the prelude, the fields and the flags succeed, and carries their values |
| LegacySync.LegacySerializeFlags | launchpad-reporting/syncdb.py:126-148 | a serialised task had a creation date and a fix date that is a date or `None`; both fix flags are `None` exactly when the fix date is |
| LegacySync.RelatedFailFrom | launchpad-reporting/syncdb.py:159-162 | after a failing related task no later one is serialised |
| LegacySync.BugRecordsCount | launchpad-reporting/syncdb.py:157-165 | a bug with related tasks queues one record per related task and never its own; a bug without them queues its own once |
| LegacySync.LoadFailsFrom | launchpad-reporting/syncdb.py:156-165 | an error on one fetched bug ends the loader |
| LegacySync.LegacyDocs | launchpad-reporting/syncdb.py:179-184 | one store document per queued record, in order |
| LegacySync.LegacySync.constructor | launchpad-reporting/syncdb.py:244 | a run starts from the given store with an empty queue |
| LegacySync.LegacySync.LoadProjectBugs | launchpad-reporting/syncdb.py:152-172 | the loader appends the records of all fetched bugs, stopping at the first error, and leaves the store alone |
| LegacySync.LegacySync.LoadNext | launchpad-reporting/syncdb.py:157-165 | one loop iteration appends the next bug's records |
| LegacySync.LegacySync.LoadOne | launchpad-reporting/syncdb.py:157-165 | the records of one fetched bug go on the queue |
| LegacySync.LegacySync.EnqueueRelated | launchpad-reporting/syncdb.py:159-162 | the related loop appends the related records, stopping at the first error |
| LegacySync.LegacySync.EnqueueNext | launchpad-reporting/syncdb.py:160-162 | one iteration wraps and serialises the next related task |
| LegacySync.LegacySync.ProcessBugs | launchpad-reporting/syncdb.py:175-189 | draining the queue upserts every queued record in order and empties the queue |
| LegacySync.LegacySync.WriteWatermark | launchpad-reporting/syncdb.py:268-270 | `update_date` is replaced by one document holding the time and nothing else changes |
| LegacySync.LegacySync.Run | launchpad-reporting/syncdb.py:152-270 | every loader runs to its end or its first exception and every queued record is upserted in order; without an exception the watermark follows, and after one (the first loader to raise, which never sets its stop event) the store holds the upserted records and no watermark |
| LegacySync.RunErrorFirst | launchpad-reporting/syncdb.py:152-172 | a run is stuck exactly when some loader raises, and reports the exception of the first such project |
| FlagSync.NameOrSelf | launchpad-reporting/db.py:56-69 | `obj.name if obj else obj`: a falsy object is stored as it is, a truthy one by its member |
| FlagSync.RawDateValues | launchpad-reporting/db.py:70-80 | the eleven lifecycle dates are read unchanged, failing only on a missing one |
| FlagSync.RecencyFlags | launchpad-reporting/db.py:81-98 | the flags exist only for a dated creation and a dated or absent fix; created flags compare the creation date with the thresholds, fixed flags are `None` without a fix date |
| FlagSync.DateNamesPlain | launchpad-reporting/db.py:53-99 | the date names clash with none of the literal's other keys |
| FlagSync.Compose | launchpad-reporting/db.py:53-99 | the written document carries the id, `flag: True`, the dates and the other fields |
| FlagSync.BugWriteShape | launchpad-reporting/db.py:51-99 | a write goes to the collection of the whole target name and carries the bug's id, the fresh flag, the dates unchanged and the creation flags |
| FlagSync.BugDocumentParts | launchpad-reporting/db.py:53-99 | a built document has all its reads succeed: id, own fields, people, dates and flags |
| FlagSync.WrittenFlag | launchpad-reporting/db.py:81-98 | each recency flag of the document is the one computed from the bug's dates |
| FlagSync.FixedFlagsNone | launchpad-reporting/db.py:89-98 | both fixed flags are `None` exactly when the fix date is `None` |
| FlagSync.FixedFlagsDated | launchpad-reporting/db.py:89-98 | with a fix date the fixed flags compare it with the week and month thresholds |
| FlagSync.NoCreationDateStuck | launchpad-reporting/db.py:49-103 | a bug without a creation date can never be written, so its worker retries it for ever |
| FlagSync.MatchesId | launchpad-reporting/db.py:52 | `{'id': x}` matches exactly the documents with id x |
| FlagSync.SetStale | launchpad-reporting/db.py:45 | `$set flag False` on every document, nothing else changed |
| FlagSync.ResetCollStale | launchpad-reporting/db.py:45 | after the reset every document is stale and each is an old one with only its flag changed; an empty collection gets one stale document |
| FlagSync.ResetCollIdempotent | launchpad-reporting/db.py:45 | resetting twice is resetting once |
| FlagSync.RemoveIdempotent | launchpad-reporting/db.py:119 | removing twice is removing once |
| FlagSync.ResetAllColl | launchpad-reporting/db.py:44-45 | every listed collection is reset, the others untouched |
| FlagSync.PurgeAllColl | launchpad-reporting/db.py:118-119 | every listed collection loses its stale documents, the others untouched |
| FlagSync.WritesStep | launchpad-reporting/db.py:48-103 | one more bug adds its write, or the worker is stuck on it |
| FlagSync.WritesStop | launchpad-reporting/db.py:48-103 | once stuck, a worker writes no later bug |
| FlagSync.WritesInOrder | launchpad-reporting/db.py:48-103 | no bug is skipped: the writes are those of the first bugs in order, and a stuck worker is stuck on the next bug |
| FlagSync.SliceBounds | launchpad-reporting/db.py:106-109 | slice starts are non-decreasing, the first is 0 and the end of the tenth is the list length |
| FlagSync.Slices | launchpad-reporting/db.py:106-110 | k slices for k workers |
| FlagSync.SlicesCover | launchpad-reporting/db.py:106-109 | the slices follow each other without gap or overlap and together are the whole list |
| FlagSync.SliceBugs | launchpad-reporting/db.py:106-112 | the loop builds the ten slices |
| FlagSync.PartsWritesAll | launchpad-reporting/db.py:106-115 | when no worker is stuck the workers together write every bug of the list, in order |
| FlagSync.WritesAppend | launchpad-reporting/db.py:48-103 | the writes of two lists are those of the first then those of the second |
| FlagSync.Latest | launchpad-reporting/db.py:51-52 | the last written document with an id, none when no written document has it |
| FlagSync.LatestAppend | launchpad-reporting/db.py:51-52 | a new write with the id becomes the latest |
| FlagSync.TracksReset | launchpad-reporting/db.py:45 | a reset collection tracks an empty run |
| FlagSync.TracksUpsert | launchpad-reporting/db.py:51-100 | an upsert keyed by id keeps the collection tracking what was written |
| FlagSync.ReplaceOnlyOne | launchpad-reporting/db.py:51-100 | no fresh document besides the replaced one carries the written id |
| FlagSync.WriteAllTracks | launchpad-reporting/db.py:47-103 | writes leave other collections alone and keep the target collection tracked |
| FlagSync.PurgedIsLatest | launchpad-reporting/db.py:117-119 | what survives the purge is the last document written with its id |
| FlagSync.LatestIsPurged | launchpad-reporting/db.py:117-119 | the last document written with an id survives the purge |
| FlagSync.TracksPurged | launchpad-reporting/db.py:117-119 | after the purge a collection holds exactly the last document written for each id |
| FlagSync.WritesFresh | launchpad-reporting/db.py:99 | every written document carries `flag: True` |
| FlagSync.RunWritesAll | launchpad-reporting/db.py:106-115 | when no worker is stuck the ten workers together write every fetched bug in order |
| FlagSync.ResetWrittenTracks | launchpad-reporting/db.py:44-103 | a listed collection reset and then written tracks what was written into it |
| FlagSync.RunKeepsLatest | launchpad-reporting/db.py:44-119 | after a run each listed collection holds exactly the last document written for each id among the fetched bugs, one per id |
| FlagSync.Database.constructor | launchpad-reporting/db.py:10-11 | the script starts from the given store |
| FlagSync.Database.ResetFlags | launchpad-reporting/db.py:44-45 | every listed collection is marked stale |
| FlagSync.Database.CreateCollections | launchpad-reporting/db.py:47-103 | the store receives the writes of the bugs, and the worker is stuck exactly when a bug's document cannot be built |
| FlagSync.Database.RunWorkers | launchpad-reporting/db.py:106-115 | the workers' writes go in one after the other; stuck exactly when some worker is |
| FlagSync.Database.Purge | launchpad-reporting/db.py:117-119 | the stale documents of every listed collection are removed |
| FlagSync.Database.Run | launchpad-reporting/db.py:42-119 | reset, the ten workers over their slices, and the purge once all are done; a stuck worker leaves the store unpurged |
| FlagSync.PartsWritesStep | launchpad-reporting/db.py:106-115 | one more worker adds its writes after the others' |
| FlagSync.WriteAllAppend | launchpad-reporting/db.py:47-103 | writing two lists is writing one after the other |
| Cleanup.LastSegmentAfterLast | cleanup.py:33 | `split('/')[-1]` is the text after the last `/`, or the whole string when there is none |
| Cleanup.LastSegmentShape | cleanup.py:54 | the id is a `/`-free suffix of the link, preceded by a `/` unless it is the whole link |
| Cleanup.AddTaskLookup | cleanup.py:32-37 | adding a task appends its web link to the list of its own id, creating the list for a new id, and touches no other id |
| Cleanup.AddTasksStep | cleanup.py:40-49 | adding one more task is one more `add_task_to_cache` |
| Cleanup.LinksWithIdMembers | cleanup.py:32-37 | the links gathered for an id are exactly those of the tasks with that id |
| Cleanup.AddTasksLinks | cleanup.py:32-49 | after adding tasks every id's list is the old list followed by the added tasks' links with that id, in order; an id is present exactly when it was before or some added task has it |
| Cleanup.AddTasksAppend | cleanup.py:40-49 | adding two lists of tasks is adding one then the other |
| Cleanup.BuildCache | cleanup.py:30-49 | the cache holds the tasks of every series search, then those of the project search |
| Cleanup.AddAll | cleanup.py:47-49 | the loop adds every task in order |
| Cleanup.Outdated | cleanup.py:53-59 | a stored task goes exactly when its web link's id is not in the cache or its link is not in that id's list; a missing or non-string link raises |
| Cleanup.SweptOnlyRemoves | cleanup.py:53-59 | cleanup never inserts or modifies a document: what is left was there |
| Cleanup.SweptFails | cleanup.py:53-59 | the sweep raises exactly when some visited document has no string web link |
| Cleanup.MatchesSelfOnly | cleanup.py:56-59 | removing a stored document with itself as the query removes only it |
| Cleanup.SweptKeeps | cleanup.py:53-59 | after a sweep without exception a document is left exactly when it was not visited or is not outdated |
| Cleanup.CleanupRule | cleanup.py:19-59 | after a cleanup without exception a stored task is left exactly when the tracker listed a task with exactly its web link under the id that link ends with |
| Cleanup.SweptStep | cleanup.py:53-59 | one more visited document is removed when outdated, kept otherwise, or stops the sweep with its error |
| Cleanup.SweptStops | cleanup.py:53-59 | after an exception no later document is visited |
| Cleanup.BugsDb.constructor | cleanup.py:69-71 | cleanup starts from the given store |
| Cleanup.BugsDb.Cleanup | cleanup.py:19-59 | the collection becomes the sweep of its own documents against the cache of all searched tasks; no other collection changes |
| Criterias.Fields | launchpad_reporting/criterias.py:51-104 | only `NonTriaged` and `SLAConfirmedTriaged` have a `threshold` attribute; the other two have per-importance thresholds |
| Criterias.Construct | launchpad_reporting/criterias.py:54-104 | `ImplClass(**kwargs)` succeeds exactly when the keyword arguments are the constructor's parameters, and the instance then holds them |
| Criterias.BusinessDaysAgo | launchpad_reporting/criterias.py:15-17 | only an integer number of days can be subtracted, giving the calendar's instant |
| Criterias.OlderThan | launchpad_reporting/criterias.py:58 | `bug.field < business_days_ago(days)` succeeds exactly for a present date and integer days, and is the comparison |
| Criterias.CustomerFound | launchpad_reporting/criterias.py:22 | the tag test is list membership for a list of tags, and raises when tags are missing or neither list nor string |
| Criterias.NonTriagedRule | launchpad_reporting/criterias.py:57-61 | `NonTriaged` holds exactly when the bug was created before the threshold and lacks a milestone, an importance or an assignee |
| Criterias.FullLifecycleRule | launchpad_reporting/criterias.py:71-79 | High bugs use the High threshold, Critical bugs the Critical one, and every other bug gives False without anything else being read |
| Criterias.ConfirmedTriagedRule | launchpad_reporting/criterias.py:88-91 | False outside Confirmed and Triaged; for those it compares `date_last_updated` with the threshold |
| Criterias.InProgressDays | launchpad_reporting/criterias.py:110-118 | the threshold by precedence: Critical with the tag, Critical, High with the tag, High, the rest |
| Criterias.InProgressRule | launchpad_reporting/criterias.py:106-118 | False outside In Progress; for those it compares `date_in_progress` with the threshold chosen by that precedence |
| Criterias.Format | launchpad_reporting/criterias.py:48 | `template.format(**data)` succeeds exactly when every field of the template is in the data |
| Criterias.HintThreshold | launchpad_reporting/criterias.py:24-41 | a truthy `threshold` is reported as it is; otherwise the attribute named by importance and tag; when that is missing, a customer-found bug falls back to the name without `_customer_found` (raising `AttributeError` when that is missing too) and any other bug raises `NameError` for the unbound `threshold`; a bug without `importance` raises `AttributeError` |
| Criterias.HintThresholdAgrees | launchpad_reporting/criterias.py:21-48 | for a bug a criterion flags, the hint reports the threshold the rule compared against |
| Criterias.CustomerFoundHint | launchpad_reporting/criterias.py:43-47 | the `with_customer_found` text is non-empty exactly when the bug carries the tag |
| Criterias.FalsyThresholdHint | launchpad_reporting/criterias.py:24-41 | a single-threshold criterion with a falsy threshold fails: with the tag on the missing fallback attribute, without it on an unbound variable |
| Criterias.ConfirmedTriagedWithoutUpdate | launchpad_reporting/criterias.py:88-90 | a Confirmed or Triaged bug without `date_last_updated` makes the rule raise |
| Criterias.ConfirmedTriagedOnStoredBug | launchpad_reporting/criterias.py:88-90 | a stored bug wrapped with the listed fields has no `date_last_updated` (launchpad_reporting/launchpad/bug.py lists none), so the rule raises for every Confirmed or Triaged bug |
| Criterias.NonTriagedWithoutMilestone | launchpad_reporting/criterias.py:58-59 | an old enough bug without a `milestone` attribute makes `NonTriaged` raise |
| Criterias.NonTriagedAsWritten | launchpad_reporting/criterias.py:58-59 | with the field list as written (missing comma) `milestone` is never set, so `NonTriaged` raises for every stored bug created before its threshold |
| SlaConfig.FirstNamed | launchpad_reporting/sla_reports.py:43-47 | the position of the first configured criterion with the name, none exactly when no criterion has it |
| SlaConfig.GetCriteriaByName | launchpad_reporting/sla_reports.py:41-47 | the first criterion with the name, or `ValueError` exactly when there is none |
| SlaConfig.KwargsResolved | launchpad_reporting/sla_reports.py:66-77 | the keyword names are exactly the configured names; each value is the `<milestone>_<name>` override when the report has it, else the default |
| SlaConfig.KwargsKeys | launchpad_reporting/sla_reports.py:68-77 | one keyword per configured name and no other |
| SlaConfig.KwargsValue | launchpad_reporting/sla_reports.py:73-77 | the value of one keyword is its override or its default |
| SlaConfig.ImplementationFields | launchpad_reporting/sla_reports.py:50-79 | an instantiated criterion is of the class named by the last `.` segment of `implementation` and holds exactly the resolved keyword arguments |
| SlaConfig.Lines | launchpad_reporting/sla_reports.py:94-109 | one legend line per configured keyword, in configuration order, reading `\t<text or name>: <value>` |
| SlaConfig.GetCriteriaDescription | launchpad_reporting/sla_reports.py:82-112 | the legend is stripped: it neither starts nor ends with whitespace |
| SlaConfig.DescriptionFails | launchpad_reporting/sla_reports.py:91-92 | the legend raises exactly when the report names a criterion the configuration lacks |
| SlaConfig.BlocksOk | launchpad_reporting/sla_reports.py:91-110 | every named criterion configured gives a legend |
| SlaConfig.BlocksMissing | launchpad_reporting/sla_reports.py:92 | one unconfigured criterion makes the legend raise |
| SlaConfig.BlocksStep | launchpad_reporting/sla_reports.py:91-110 | one more criterion keeps the legend exactly when it is configured |
| SlaConfig.BlockWithoutConfig | launchpad_reporting/sla_reports.py:107-110 | a criterion without keywords contributes `<text> (<name>):` and two newlines |
| SlaConfig.SingleDescription | launchpad_reporting/sla_reports.py:107-112 | the legend of one criterion without keywords is its title line |
| SlaConfig.StripTitle | launchpad_reporting/sla_reports.py:112 | stripping removes exactly the trailing newlines of a title line |
| SlaReports.FillOptionsIdempotent | launchpad_reporting/sla_reports.py:125-127 | an empty options dictionary gets every status and every importance, and filling again changes nothing |
| SlaReports.DefaultOptionsKeys | launchpad_reporting/sla_reports.py:125-127 | the filled dictionary has a status and an importance list |
| SlaReports.OptionList | launchpad_reporting/sla_reports.py:145-146 | `options[key]`, or `KeyError` exactly when the key is absent |
| SlaReports.TeamMembers | launchpad_reporting/sla_reports.py:26-38 | a team's roster, or `IndexError` exactly when the team has none |
| SlaReports.OtherMembersSpec | launchpad_reporting/sla_reports.py:155-156 | the pooled members are exactly those of the teams other than Unknown, and pooling fails exactly when one of them has no roster |
| SlaReports.UnknownTeamRule | launchpad_reporting/sla_reports.py:154-158 | the Unknown team keeps exactly the assignees in no other team's roster and needs all four other rosters |
| SlaReports.KeepAssigned | launchpad_reporting/sla_reports.py:150-158 | the private bugs kept are exactly those the team rule admits; an unreadable assignee raises |
| SlaReports.MarkPrivate | launchpad_reporting/sla_reports.py:142-143 | every private bug is marked `Private`, nothing else changed |
| SlaReports.Found | launchpad_reporting/sla_reports.py:145-163 | the query finds exactly the stored records matching status, importance, milestone and the team rule |
| SlaReports.Wrapped | launchpad_reporting/sla_reports.py:163 | one bug wrapper per found record, holding its copied fields (as intended: over the 23-name field list) |
| SlaReports.StoredBugsFound | launchpad_reporting/sla_reports.py:160-163 | every stored bug of a report wraps a record of one of its projects that the query finds (as intended: over the 23-name field list) |
| SlaReports.PrivateBugsMarked | launchpad_reporting/sla_reports.py:129-161 | every private bug among the report's bugs is marked private and passes the team rule |
| SlaReports.BugHitsFail | launchpad_reporting/sla_reports.py:173-175 | one criterion's pass raises exactly when its rule raises on some bug |
| SlaReports.BugHitsSound | launchpad_reporting/sla_reports.py:175-184 | a criterion flags only bugs its rule holds for, with its name and its hint (empty when the hint fails) |
| SlaReports.BugHitsOrdered | launchpad_reporting/sla_reports.py:173 | a criterion flags each bug at most once, in bug order |
| SlaReports.BugHitsComplete | launchpad_reporting/sla_reports.py:173-175 | a criterion flags every bug its rule holds for |
| SlaReports.BugHitsStep | launchpad_reporting/sla_reports.py:173-193 | one more bug adds its hit, nothing, or the rule's exception |
| SlaReports.BugHitsErrExtends | launchpad_reporting/sla_reports.py:175 | once a rule raises, the criterion's pass ends with that exception |
| SlaReports.AllHitsStep | launchpad_reporting/sla_reports.py:167-170 | one more criterion adds its hits after the others' |
| SlaReports.AllHitsErrExtends | launchpad_reporting/sla_reports.py:167-175 | once a criterion raises, the report raises that exception |
| SlaReports.AllHitsBounded | launchpad_reporting/sla_reports.py:167-193 | every hit is of one of the report's bugs |
| SlaReports.Position | launchpad_reporting/sla_reports.py:186-187 | `result.index(bug)`: where the bug's line is, none exactly when it has none |
| SlaReports.MergeSpec | launchpad_reporting/sla_reports.py:186-193 | every flagged bug gets one line listing the names and hints of the criteria flagging it, in the order they were met |
| SlaReports.MergeStep | launchpad_reporting/sla_reports.py:186-193 | recording one more hit keeps the lines merged |
| SlaReports.MergeFound | launchpad_reporting/sla_reports.py:186-189 | a hit of a bug with a line extends that line |
| SlaReports.MergeNew | launchpad_reporting/sla_reports.py:190-193 | a hit of a bug without a line appends a new line |
| SlaReports.HintsForLength | launchpad_reporting/sla_reports.py:188-189 | a bug has as many hints as criteria names |
| SlaReports.MergeBounded | launchpad_reporting/sla_reports.py:186-193 | every line is of a flagged bug |
| SlaReports.RecordHit | launchpad_reporting/sla_reports.py:186-193 | the in-place update of the lines records one more hit |
| SlaReports.MatchCriterion | launchpad_reporting/sla_reports.py:173-193 | the inner loop records every hit of one criterion, or gives its exception |
| SlaReports.MatchAll | launchpad_reporting/sla_reports.py:167-193 | the nested loops give the merged lines of every hit, or the first exception |
| SlaReports.IndexOfSpec | launchpad_reporting/sla_reports.py:198 | `BUG_IMPORTANCE.index(v)` is the first position of v, `ValueError` exactly when v is absent |
| SlaReports.RankedPreorder | launchpad_reporting/sla_reports.py:197-199 | the sort key orders every pair of bugs, transitively |
| SlaReports.Keyed | launchpad_reporting/sla_reports.py:197-199 | the keys are computed for every bug before sorting; the first that raises stops the sort |
| SlaReports.OrderedSpec | launchpad_reporting/sla_reports.py:197-199 | the result is a permutation of the lines, ordered by importance and, within one importance, customer-found bugs first |
| SlaReports.OrderedStable | launchpad_reporting/sla_reports.py:197-199 | bugs of equal rank keep their order |
| SlaReports.Annotated | launchpad_reporting/sla_reports.py:191-192 | each listed bug carries its line's criteria names and hints |
| SlaReports.OptionsDict.constructor | launchpad_reporting/sla_reports.py:214-215 | the shared options dictionary starts with the report's entries |
| SlaReports.GetBugsByCriteria | launchpad_reporting/sla_reports.py:119-200 | fills the shared options when empty, then gives the report's flagged bugs, merged and ranked |
| SlaReports.FindReport | launchpad_reporting/sla_reports.py:205-208 | the first report with the name, `ValueError` exactly when none has it |
| SlaReports.CriteriaNames | launchpad_reporting/sla_reports.py:212 | the names of the report's criteria, in order |
| SlaReports.TeamPartsShape | launchpad_reporting/sla_reports.py:219-234 | one part per team, in order, each titled for its team and listing that team's bugs |
| SlaReports.TeamPartsStep | launchpad_reporting/sla_reports.py:219-234 | one more team adds its part, or its exception |
| SlaReports.TeamPartsErrExtends | launchpad_reporting/sla_reports.py:219-234 | once a team's part raises, the report raises that exception |
| SlaReports.ReportsProperties | launchpad_reporting/sla_reports.py:251-254 | the properties are the filled options plus the criteria names |
| SlaReports.TeamReportShape | launchpad_reporting/sla_reports.py:217-234 | a report grouped by team has five parts in the order of `TEAMS`, each listing its team's bugs |
| SlaReports.SingleReportShape | launchpad_reporting/sla_reports.py:235-249 | any other report has one part, named by its text, that sees no private bugs |
| SlaReports.CollectTeamPart | launchpad_reporting/sla_reports.py:220-234 | one team's part: its bugs over the shared options, then the legend |
| SlaReports.CollectTeamParts | launchpad_reporting/sla_reports.py:219-234 | the loop over the teams gives the specified parts, sharing one options dictionary |
| SlaReports.CollectSinglePart | launchpad_reporting/sla_reports.py:237-249 | the single part, filling the shared options |
| SlaReports.CollectParts | launchpad_reporting/sla_reports.py:217-249 | the parts of the report, read through the shared options |
| SlaReports.GetReportsData | launchpad_reporting/sla_reports.py:203-257 | the data of a report is its parts and properties as specified |
| TtlCache.TimeDelta | launchpad-reporting/launchpad/ttl_cache.py:7 | the window in seconds: seconds count as themselves and minutes as sixty seconds each |
| TtlCache.ByNamePreorder | launchpad-reporting/launchpad/ttl_cache.py:21 | sorting keyword arguments by name uses a total preorder |
| TtlCache.StrAll | launchpad-reporting/launchpad/ttl_cache.py:21 | the positional part of the key is `str` of every argument, in order |
| TtlCache.KwargsOrderIrrelevant | launchpad-reporting/launchpad/ttl_cache.py:21 | the order in which keyword arguments are written does not change the key |
| TtlCache.StrConflatesArguments | launchpad-reporting/launchpad/ttl_cache.py:21 | positional arguments count only through `str`, so `1` and `"1"` share a key |
| TtlCache.Step | launchpad-reporting/launchpad/ttl_cache.py:15-38 | a call is served from the cache exactly when a result is stored and not older than the window, changing nothing; otherwise the timestamp is set, the function is called, and only a value it returns is stored |
| TtlCache.OtherKeysUntouched | launchpad-reporting/launchpad/ttl_cache.py:29-38 | only the entry of the called key changes |
| TtlCache.ServedWithinWindow | launchpad-reporting/launchpad/ttl_cache.py:27-38 | a computed result is served to every call of its key within the window, without calling the function and without moving its timestamp |
| TtlCache.Run | launchpad-reporting/launchpad/ttl_cache.py:15-38 | a sequence of calls keeps every stored result timestamped and gives one result per call |
| TtlCache.FailureNotCached | launchpad-reporting/launchpad/ttl_cache.py:31-34 | a call whose function raises stores no result, so the next call of a new key computes again |
| TtlCache.ExpiredFailureServesOldResult | launchpad-reporting/launchpad/ttl_cache.py:29-34 | an expired entry whose recomputation raises keeps its old result with a new timestamp, and that old result is served for another full window |
| TtlCache.Cache.constructor | launchpad-reporting/launchpad/ttl_cache.py:5-13 | a decorated function starts with empty timestamps and results and the given window |
| TtlCache.Cache.Call | launchpad-reporting/launchpad/ttl_cache.py:15-38 | `do_cache` updates the dictionaries and returns what `Step` specifies, keeping every stored result timestamped |
| Statuses.Group | launchpad_reporting/launchpad/lpdata.py:131-143 | every status of every named group is one of the statuses of "All" |
| Statuses.GroupInclusions | launchpad_reporting/launchpad/lpdata.py:131-143 | "NotDone", "Open" and "Fixed" lie within "All", "Fixed" within "Closed", and "Incomplete" is both an incomplete and a closed status |
| LegacyStatuses.AllOmitsOpinionAndExpired | launchpad-reporting/launchpad/lpdata.py:16-24 | the older "All" lacks "Opinion" and "Expired", which "Closed" holds, while every unfinished status is in "All" |
| Tasks.ProjectOf | launchpad_reporting/launchpad/lpdata.py:207 | `split('/')[0]` succeeds exactly on a string and gives its longest prefix without a slash |
| Tasks.RelatedProjects | launchpad_reporting/launchpad/lpdata.py:208-209 | one project per related task, or the exception of the first task without a usable target name |
| Tasks.TargetsMembers | launchpad_reporting/launchpad/lpdata.py:205-210 | a target set holds exactly the bug's own project and the projects of its related tasks |
| Tasks.GetBugTargets | launchpad_reporting/launchpad/lpdata.py:205-210 | the loop over the related tasks builds the specified target set |
| Tasks.RelatedFailFrom | launchpad_reporting/launchpad/lpdata.py:208-209 | once a related task raises, the whole computation raises that exception |
| LpData.Directory | launchpad_reporting/launchpad/lpdata.py:44 | a relative page is resolved against the root up to and including its last `/`; a root with a host and an empty path gets a `/` added, as `urlunsplit` does |
| LpData.UrlJoinHost | launchpad_reporting/launchpad/lpdata.py:44 | `scheme://host` and `scheme://host/` both join a page after exactly one `/` |
| LpData.AuthorizationUrlLevels | launchpad_reporting/launchpad/lpdata.py:29-44 | the URL is the token page with the token, followed by one `&allow_permission=` per access level, resolved against the web root; no levels add nothing |
| LpData.DefaultAuthorizationUrl | launchpad_reporting/launchpad/lpdata.py:29-44 | by default the URL asks for DESKTOP_INTEGRATION access only |
| LpData.Find | launchpad_reporting/launchpad/lpdata.py:183 | `find({"$and": search})` keeps exactly the documents meeting every condition, in store order |
| LpData.Wrap | launchpad_reporting/launchpad/lpdata.py:183 | one wrapped bug per found record, holding the copied attributes (as intended: over the 23-name field list) |
| LpData.SearchSelects | launchpad_reporting/launchpad/lpdata.py:169-181 | a document meets the search exactly when its status is listed, its milestone is the given one when given, its importance is listed when some are given, and its tags meet the tag condition (none of the tags with `condition`, some of them otherwise) when tags are given |
| LpData.SearchParts | launchpad_reporting/launchpad/lpdata.py:169-181 | the search is the status condition followed by the milestone, importance and tag conditions, each present exactly when its argument is given |
| LpData.AnonymousGetBugsSelects | launchpad_reporting/launchpad/lpdata.py:165-183 | the anonymous search gives the selected documents of the project's collection, in store order |
| LpData.TaskTags | launchpad_reporting/launchpad/lpdata.py:453-456 | `task.bug.tags` is readable exactly when the bug task has a bug object whose tags are a list or string |
| LpData.SerializeAll | launchpad_reporting/launchpad/lpdata.py:457 | serialising the selected tasks gives one record per task, or the first exception (as intended: over the 23-name field list) |
| LpData.StageKeeps | launchpad_reporting/launchpad/lpdata.py:442-456 | an active comprehension stage keeps exactly the tasks its test accepts, in order; an inactive one keeps all |
| LpData.PrivateSelectionKeeps | launchpad_reporting/launchpad/lpdata.py:439-456 | the private search keeps, in order, exactly the tasks whose status is listed, whose milestone link ends in the given milestone when given, whose importance is listed when given, and whose tags meet the tag condition when tags are given |
| LpData.CommonMilestone | launchpad_reporting/launchpad/lpdata.py:224-225 | the common milestones are exactly those in both lists, each once; the older layer's lines 86-87 of launchpad-reporting/launchpad/lpdata.py are the same |
| LpData.Ids | launchpad_reporting/launchpad/lpdata.py:238-241 | one id per bug, in order |
| LpData.DistinctCountBound | launchpad_reporting/launchpad/lpdata.py:243 | the number of distinct ids is at most the number of ids, and at least one when there are any |
| LpData.CountIds | launchpad_reporting/launchpad/lpdata.py:237-243 | the id loops count the distinct ids of the fuel and mos bugs, at most as many as the bugs found |
| LpData.Count | launchpad_reporting/launchpad/lpdata.py:232-243 | `count` is the number of distinct ids over the fuel and mos searches of the status group |
| LpData.BugsIds | launchpad_reporting/launchpad/lpdata.py:227-250 | "done" counts the closed bugs, "total" all bugs, "high" the unfinished critical or high ones |
| LpData.BugsIdsBounded | launchpad_reporting/launchpad/lpdata.py:245-248 | neither "done" nor "high" exceeds "total" |
| LpData.CountMonotone | launchpad_reporting/launchpad/lpdata.py:232-243 | a narrower status group, with or without an importance filter, never counts more than a wider group without one |
| LpData.IdsWithin | launchpad_reporting/launchpad/lpdata.py:165-183 | every id a narrower search finds, a wider search without an importance filter finds too |
| LpData.FilterField | launchpad_reporting/launchpad/lpdata.py:332-338 | `_filter` keeps, in order, the bugs whose attribute is among the allowed values, or raises for the first bug without it |
| LpData.FilterTags | launchpad_reporting/launchpad/lpdata.py:354-361 | the tag stage keeps, in order, the bugs sharing a tag with the filter |
| LpData.Put | launchpad_reporting/launchpad/lpdata.py:366-367 | a dictionary assignment replaces the entry of an existing key in place and appends a new key at the end |
| LpData.PutKeys | launchpad_reporting/launchpad/lpdata.py:366-367 | an assignment keeps keys distinct and adds exactly its key |
| LpData.UpdateKeys | launchpad_reporting/launchpad/lpdata.py:366-367 | `dict.update` keeps keys distinct and gives the union of both key sets |
| LpData.MergedKeys | launchpad_reporting/launchpad/lpdata.py:364-367 | the merged roster has distinct keys, exactly the keys of all teams' rosters |
| LpData.MergeTeams | launchpad_reporting/launchpad/lpdata.py:364-367 | the loop over the teams' rosters builds the merged roster |
| LpData.KeepAssignee | launchpad_reporting/launchpad/lpdata.py:375-384 | one bug passes the assignee stage as the stage's test specifies: unknown assignees when "unknown" is chosen, members or leads of chosen rosters otherwise |
| LpData.FilterAssignee | launchpad_reporting/launchpad/lpdata.py:373-386 | the assignee stage keeps, in order, the bugs passing that test |
| LpData.AssigneeKeeps | launchpad_reporting/launchpad/lpdata.py:363-386 | on bugs that have an assignee the stage keeps, in order, exactly the bugs with an unknown assignee when "unknown" is chosen or with a chosen lead or member |
| LpData.Satisfies | launchpad_reporting/launchpad/lpdata.py:391-412 | the date loop of one bug gives what the date test specifies |
| LpData.FilterDates | launchpad_reporting/launchpad/lpdata.py:388-417 | the date stage keeps, in order, the bugs passing the date test |
| LpData.DatesWithin | launchpad_reporting/launchpad/lpdata.py:394-412 | a bug passes exactly when, for each of the four states, its date lies within the given bounds, and a state without a date has no bounds |
| LpData.DatesWithinFrom | launchpad_reporting/launchpad/lpdata.py:394-412 | the same from any state on: the remaining states all lie within their bounds |
| LpData.FilterFields | launchpad_reporting/launchpad/lpdata.py:345-352 | the status, importance and criteria stages, each applied when its filter is set, give the specified result |
| LpData.FilterLater | launchpad_reporting/launchpad/lpdata.py:354-417 | the tag, assignee and date stages give the specified result |
| LpData.FilterTeam | launchpad_reporting/launchpad/lpdata.py:345-417 | one team's table goes through every stage, in order |
| LpData.FilterTeams | launchpad_reporting/launchpad/lpdata.py:344-417 | one table per team, however the filtering ends |
| LpData.FilterBugs | launchpad_reporting/launchpad/lpdata.py:330-419 | the loop over the teams replaces each table in place by its filtered table, leaving the rest unchanged once a stage raises |
| LpData.FilterTeamsStep | launchpad_reporting/launchpad/lpdata.py:344-417 | one more team appends its filtered table, or its exception |
| LpData.FilterTeamsStops | launchpad_reporting/launchpad/lpdata.py:344-417 | once a team's filtering raises, the later teams keep their tables |
| LpData.TeamPipelineOrder | launchpad_reporting/launchpad/lpdata.py:345-417 | a filtered table is a subsequence of the team's bugs |
| LpData.TeamPipelineMembers | launchpad_reporting/launchpad/lpdata.py:345-417 | without an exception, a bug stays exactly when it passes every set filter |
| LpData.FieldStagesMembers | launchpad_reporting/launchpad/lpdata.py:345-352 | without an exception, a bug passes the field stages exactly when its status, importance and criteria are allowed wherever a filter is set |
| LpData.LaterStagesMembers | launchpad_reporting/launchpad/lpdata.py:354-417 | without an exception, a bug passes the later stages exactly when it meets the tag, assignee and date filters |
| LpData.FilterTeamsKeep | launchpad_reporting/launchpad/lpdata.py:344-419 | every team's filtered table is a subsequence of its original table |
| LpData.NoFiltersKeepAll | launchpad_reporting/launchpad/lpdata.py:344-417 | with no filter set and all dates present, every bug is kept |
| LegacyLpData.ConditionsHold | launchpad-reporting/launchpad/lpdata.py:44-65 | a record meets the store query exactly when its status is listed, its milestone is the given one when a milestone is given, and, when tags and an importance are also given, its importance matches (equal to the argument as written, in it as intended) |
| LegacyLpData.SelectionCascade | launchpad-reporting/launchpad/lpdata.py:44-65 | the records selected are, in store order, the status matches without a milestone; the status and milestone matches without tags; and with tags also only those sharing a tag, and matching the importance when one is given |
| LegacyLpData.GetBugsRaises | launchpad-reporting/launchpad/lpdata.py:44-65 | as written, any non-empty selection raises `AttributeError` for the first copied field, since store dictionaries do not answer `getattr` |
| LegacyLpData.ImportanceListAsWritten | launchpad-reporting/launchpad/lpdata.py:61-65 | as written, an importance list selects only records whose importance is that very list |
| LegacyLpData.ImportanceListIntended | launchpad-reporting/launchpad/lpdata.py:61-65 | as intended, a record whose importance string is in the list, sharing a tag, is selected |
| LegacyLpData.IntendedGetBugs | launchpad-reporting/launchpad/lpdata.py:41-65 | as intended: the selected records in store order, exactly those whose status is listed, whose milestone is the given one when given, that share a tag once tags are also given, and whose importance is in the list once an importance is also given |
| LegacyLpData.Count | launchpad-reporting/launchpad/lpdata.py:94-103 | `count` is the number of distinct ids over the fuel and mos searches, or the first search's exception (as intended: over `IntendedGetBugs`) |
| LegacyLpData.CountBoth | launchpad-reporting/launchpad/lpdata.py:95-103 | the first search's exception, else the second's, else the distinct ids of both (as intended: over `IntendedGetBugs`) |
| LegacyLpData.CountBounded | launchpad-reporting/launchpad/lpdata.py:94-103 | a count never exceeds the number of records found (as intended: over `IntendedGetBugs`) |
| LegacyLpData.BugsIds | launchpad-reporting/launchpad/lpdata.py:89-109 | "done", "total" and "high" are the counts of the closed, all and unfinished critical or high bugs, or the first exception (as intended: over `IntendedGetBugs`) |
| LegacyLpData.DoneMayExceedTotal | launchpad-reporting/launchpad/lpdata.py:19-24 | one fuel bug in status Opinion counts as done but not in the total (as intended: over `IntendedGetBugs`) |
| LegacyLpData.OpinionCounts | launchpad-reporting/launchpad/lpdata.py:94-107 | a one-record store counts its record exactly when its status is in the group, with or without the importance list (as intended: over `IntendedGetBugs`) |
| Store.Remove | launchpad_reporting/db/util.py:126-128 | `remove(query)` drops exactly the matching documents |
| Store.UpsertUnique | launchpad_reporting/db/util.py:167-171 | an upsert keeps the collection unique on its key, leaves the document the only one with its key, keeps every document of another key, and grows by one exactly when no document had the key |
| Store.Drain | launchpad_reporting/db/util.py:163-175 | writing the queued documents one by one gives the specified store |
| Store.ProcessedKeyed | launchpad_reporting/db/util.py:163-171 | the store stays unique on id and milestone, and the last written document is the one stored under its key |
| Sorting.SortSorted | launchpad_reporting/sla_reports.py:197-199 | `sorted` with a total preorder gives an ordered list |
| Sorting.Sort | launchpad_reporting/sla_reports.py:197-199 | `sorted` gives a permutation of its input |
| Sorting.SortStable | launchpad_reporting/sla_reports.py:197-199 | `sorted` is stable: equivalent elements keep their order |
| Sifting.SiftKeeps | launchpad_reporting/launchpad/lpdata.py:442-456 | a comprehension whose test never raises keeps exactly the accepted elements, in order |
| Sifting.SiftFails | launchpad_reporting/launchpad/lpdata.py:442-456 | a comprehension raises exactly when its test raises on some element, and then raises the first such exception |

## Left out

- Concurrency: the `multiprocessing` queue, its stop events and `time.sleep` polling, the `Process` slices of `launchpad-reporting/db.py`, and the `RLock` of `ttl_cache`. Loaders and processors run one after another over an in-memory store: the processors take the records project by project, where the source's processors may interleave the loaders' records.
- The clock and date arithmetic of the libraries: `datetime.now`, `date.today()`, `relativedelta`, pandas `BDay` and `time.time()`. The current time, the recency thresholds and `business_days_ago` are parameters (`Thresholds`, `ago`, `now`).
- `strptime` and `dateutil` parsing: date strings are modelled as already parsed `VDate` values, and the time zone replace does not change the instant. The `strptime` of the `filter_bugs` date bounds and its `ValueError` are not modelled; the bounds are given as parsed integers.
- Floating point: the chart's millisecond timestamps are integer seconds times 1000.
- `urljoin` is modelled only for a relative page without `.` or `..` segments and a root without query or fragment: the page replaces the last path segment of the root, and a root `scheme://host` with an empty path gains a `/`.
- Mongo query-operator semantics beyond `$in`, `$nin`, `$and` and equality, `upsert`/`multi` options other than those used, and the connection setup in `db/__init__.py`.
- `read_config_file` and YAML: the SLA configuration is a value.
- Python 2 dictionary iteration order: the status groups of the release chart and the keyword arguments of the legend follow declaration order. The results proved do not depend on it.
- `str.format`/`%` formatting of messages and printed output; every `print`.
- Object identity: bugs are identified by their index in the list they come from. `filter_bugs`' `b not in newbugs` is decided per bug, treating the bugs of a table as distinct objects.
- `filter_bugs` raises `KeyError` for a missing filter key; the `Filters` record always has every key.
- The authenticated data source's tracker search (`get_all_bugs_by`) is a list of task documents; the remote searches of the synchronisers are sequences of tasks whose related tasks are JSON entries.
- The `ttl_cache` memoisation of the query-layer methods (`get_project`, `get_bug_targets`, `serialize_private`, the older `get_bugs`): the cache itself is modelled in `TtlCache`, and the methods are modelled uncached.
- `BUG_STATUSES_ALL`, `SimpleLaunchpad`, `login_with`, `_get_paths`, `get_project`, `get_all_bugs`, `get_all_bugs_by`, `get_update_time`, `dump_object` and `common_statistic_for_project`: remote API calls, OAuth and filesystem setup, or output.
- The team rosters of `get_team_members` and `fuel_teams.json` are given as a map.
- The collection set-up of `launchpad-reporting/db.py` (the milestones, projects and subprojects collections) and of `syncdb.py`; `cleanup.py` reads the global `project_name`, modelled as the collection parameter.
- `main.py` of both packages, `collect_assignees.py`, `tools/` and the vendored libraries: Flask routes, templates, network and file access.
- LpData.Wrap, LpData.SerializeAll, SlaReports.Wrapped, SlaReports.StoredBugsFound: modelled over the corrected 23-name field list; as written every wrapped stored bug lacks `web_link` and `milestone` (first row of the findings).
- LegacyLpData.Count, LegacyLpData.CountBoth, LegacyLpData.CountBounded, LegacyLpData.BugsIds, LegacyLpData.DoneMayExceedTotal, LegacyLpData.OpinionCounts: modelled over `IntendedGetBugs`; as written `bugs_ids` raises `AttributeError` on any non-empty selection and compares importance with the whole list (second and third rows of the findings).
- SlaConfig.Lines: the source keys the legend's dictionary by display text, so keywords sharing a text give a single line holding the last value, and its order is Python 2 dictionary order; the model gives one line per keyword in configuration order.
- SlaConfig.Implementation: `getattr` on the criteria module finds any of its attributes; a class name other than the four rule classes (`BugCriteria`, or a module-level name such as `datetime` or `business_days_ago`) is modelled as the `ValueError` of a missing class, where the source builds a `BugCriteria` without `is_satisfied` (raising `AttributeError` once a bug is checked) or raises `TypeError`.
- TtlCache.TimeDelta: states the window only for seconds alone and for minutes alone, the two forms the source uses; hours and days are added in the body but not stated.
- LpData.AssigneeKeeps: states the kept bugs only when every bug has an assignee; otherwise `FilterAssignee` states the `AttributeError` through the stage's test.
- LpData.NoFiltersKeepAll: assumes every bug has the four date attributes, which the wrapped bugs of the current package always set.

## Findings

| source | as written | input that shows it | evidently intended | confidence | as-written member | corrected member |
|---|---|---|---|---|---|---|
| launchpad_reporting/launchpad/bug.py:24-25 | `"web_link"` and `"milestone"` lack a comma between them, so the list holds `web_linkmilestone` instead of both | any record: the wrapped bug has no `web_link` and no `milestone`, so `NonTriaged` raises `AttributeError` for a bug created before its threshold | both names are copied (23 fields) | high, not executed | LpBug.MissingCommaDropsFields | LpBug.Bug.constructor |
| launchpad-reporting/launchpad/lpdata.py:44-65 | the older `get_bugs` wraps store dictionaries in `Bug(r)`, whose constructor reads every field with `getattr` (launchpad-reporting/launchpad/bug.py:41-43) | a store with one record matching the statuses: `AttributeError('date_assigned')` | the selected records are returned | medium, not executed | LegacyLpData.GetBugsRaises | LegacyLpData.IntendedGetBugs |
| launchpad-reporting/launchpad/lpdata.py:61-65, 107 | `{'importance': importance}` with `["Critical", "High"]` asks for importance equal to the whole list | a record with importance `"High"`, a milestone and a shared tag is not counted in "high" | importance in the list (`$in`, as in launchpad-reporting/main.py:130-133) | high, not executed | LegacyLpData.ImportanceListAsWritten | LegacyLpData.ImportanceListIntended |
