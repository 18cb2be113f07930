# FamilyWall MCP: a verified model

This project models the stateful parts of the FamilyWall MCP server and the computations they rest on, and proves what
they promise. `dafny verify dfyconfig.toml` checks all of it.

- **Idempotent writes over receipts.** The five write tools (add item, set assignees, mark item, create event, set
  attendees) are a labelled transition system per call (`WriteTools`, `WriteProtocol`). Whole runs (`WriteRuns`) interleave any number of
  calls step by step, crash them anywhere, let time pass and purge expired receipts; only calls with one key
  (subject and operation ID) are kept from overlapping. `WriteTheorems` has the promises, `WriteEvidence` what a call must have
  read before it sends or confirms, `WriteLimits` where the promises stop, with runs that show it. `WriteScripts` and
  `ToolScripts` write each tool's executions out, reply by reply. `ListService` and `CalendarService` are the tools as they
  run, against the `Backend`; `ServiceRuns` shows that each of them is a piece of a whole run.
- **Wire forms.** `WireForms` has the form bodies and shows that a payload hash identifies the intent of a request;
  `FormEntries` has every key and value of the five forms as text.
  The hash is taken to be collision-free, so it is modelled by what is hashed.
- **Receipt storage.** `ReceiptStore` has the SQLite and the in-memory repository, `IsoTime` the order of ISO 8601
  texts that the SQLite purge relies on, `Migration` the schema migration run by many processes with failures.
  `ReceiptRefinement` shows that the write protocol over that table has the same runs as the write protocol, on the calendar
  of `datetime` (`Calendar`), so its promises reach the table; `ReceiptCoding` shows that what it asks of the texts can be met.
- **Week overview.** `WeekOverview` has the fetch, de-duplication, cap, day buckets and order, against a declarative overview.
- **Event times.** `EventTime` has the fold rules of PEP 495 over a zone given as a sequence of offset transitions.
- **Names.** `Members` resolves names to account IDs and describes them back; normalisation is any function.
- **OAuth.** `OAuthStore` has the four token tables, `OAuthRuns` the token endpoints as requests that interleave
  between store calls, `OAuthTheorems` and `OAuthRevocation` their promises, `OAuthRaces` runs in which their situations
  arise, `OAuthProvider` the provider as it runs, proved to take steps of that system, and what clients get from several
  calls. Secrets are taken to be fresh and their hash injective. `LoginThrottle` is the per-address login throttle.
- **Sessions and contexts.** `SessionPool` is the pool as one caller sees it, with the LRU window over its history;
  `PoolRuns` and `ContextCache` have the pool and the context cache under concurrent callers, every lock explicit;
  `PoolRefinement` and `ResolverRuns` show that one caller alone is a run of each.

Assumptions that come with the system: operations on the receipt store are atomic, the clock never runs backwards
where a statement says so, FamilyWall may answer anything, and stored instants are UTC datetimes.

Where the code and its own description differ, the model follows the code:

- A mark-item receipt with status "unknown" is replayed as "confirmed", and a refusal leaves it "pending"
  (`src/familywall_mcp/services/lists.py:616-686`); `WriteLimits.CheckedReplayIsFaithfulIffConfirmed` says exactly when its replay is faithful;
  `WriteLimits.LostReplyRetried` and `WriteLimits.RefusedMarkingRetried` give the runs in which it is not.
- Marking an item compares the payload only after it has answered for a pending receipt, so another intent under the key of
  a pending marking is answered "unknown" instead of refused (`src/familywall_mcp/services/lists.py:628-637`);
  `WriteTheorems.OtherIntentConflicts` says exactly when.
- At most one request per key needs calls with that key not to overlap; `WriteLimits.OverlapSendsTwice` shows what happens otherwise.
- Refresh tokens rotate without forking in every run in which refreshes of one token do not overlap between load and mark;
  `OAuthRevocation.OverlappingRefreshesFork` shows what happens otherwise.
- The login throttle checks and records in two steps, so overlapping callbacks can record a sixth failure;
  `LoginThrottle.Throttle.RecordFailure` says exactly when.
- The OAuth tables are purged at the expiry itself but read until after it; `OAuthStore.PurgeShowsOnlyAtExpiry` says exactly when that shows.

## Model

| member | source | states |
|---|---|---|
| WriteTheorems.AtMostOneSend | src/familywall_mcp/services/lists.py:319-344 | over every run with crashes and non-overlapping retries, at most one mutating request goes out per subject and operation ID: always in memory, and over SQLite as long as the pending receipts of that key lie within one lifetime |
| WriteTheorems.SendsAreALifetimeApart | src/familywall_mcp/services/lists.py:482-526 | two mutations for one key need a store that expires receipts, and pending receipts written a full lifetime apart |
| WriteTheorems.OneSendPerCall | src/familywall_mcp/services/calendar.py:417-434 | a single call sends its mutation at most once, wherever it is interrupted |
| WriteTheorems.ReceiptsMoveForward | src/familywall_mcp/services/calendar.py:394-448 | the receipts of a call only move pending, then rejected, unknown or succeeded, and succeeded first with the acknowledgement (or the detected other list) before the final result |
| WriteTheorems.GetFindsLastReceipt | src/familywall_mcp/services/lists.py:319-321 | within a lifetime, a retry finds exactly the last receipt the interrupted call had written |
| WriteTheorems.ReceiptsLastADay | src/familywall_mcp/services/lists.py:54 | every receipt of every run expires 24 hours after it was written, and none is found at its expiry or later |
| WriteTheorems.LookupsFindTheLastPut | src/familywall_mcp/storage/sqlite.py:111-174 | a lookup finds exactly the receipt last written under its key, and nothing once 24 hours have passed over an expiring store |
| WriteTheorems.ReplayRepeatsAnswer | src/familywall_mcp/services/lists.py:785-820 | a call that returned, or whose mutation its endpoint refused, is repeated by every retry with the same intent: the same result, or the same code, message and recovery |
| WriteTheorems.ReplayAfterCrash | src/familywall_mcp/services/calendar.py:680-741 | wherever the call stands or crashed, a retry answers unknown before the acknowledgement is recorded, the acknowledgement until the final result is, and then that result; after an unknown receipt unknown, after a rejected one the stored refusal |
| WriteTheorems.RefusalRecorded | src/familywall_mcp/services/lists.py:346-353 | once the endpoint has refused its mutation, a call either stands before the rejected receipt or has written it with that refusal and raises it |
| WriteTheorems.OtherIntentConflicts | src/familywall_mcp/services/lists.py:785-804 | a key in use with another intent raises operation_id_conflict, except a marking under the key of a marking that is still pending, which is answered unknown |
| WriteTheorems.RetryIsSilent | src/familywall_mcp/services/calendar.py:390-392 | in the whole run a call that looks up a key in use, whatever its intent, only reads the receipt and answers with its replay |
| WriteTheorems.ReplayIsSilent | src/familywall_mcp/services/calendar.py:390-392 | a call that finds a receipt makes no upstream call, writes nothing and answers with the replay |
| WriteTheorems.SendsAreGated | src/familywall_mcp/services/calendar.py:600-613 | in every run nothing is sent before this very call met the item in a list it had seen as accessible, or met the event in the requested day and calendar: editable, not recurring, no exception, an ordinary event, timed |
| WriteTheorems.ConfirmedIsBacked | src/familywall_mcp/services/calendar.py:450-477 | every confirmed outcome of the other four tools, fresh or replayed, stands on one call of the same key and intent that read its target, sent exactly once, and then read it as requested and otherwise as before the send |
| WriteEvidence.SentOnlyWhenGated | src/familywall_mcp/services/lists.py:486-503 | within a call, the mutation comes after its gates, and carries exactly the form of the request |
| WriteEvidence.ConfirmedReceiptIsBacked | src/familywall_mcp/services/lists.py:548-571 | a receipt that says confirmed is only written after a read before the send, the send, and a later read that agrees with the request and with the earlier read |
| WriteEvidence.ReadbackIsJudged | src/familywall_mcp/services/lists.py:394-421 | a readback confirms exactly when it shows the target as requested and otherwise unchanged, names fields exactly when it holds the target otherwise, and keeps the acknowledgement when it does not hold it |
| WriteProtocol.CrashAnywhere | src/familywall_mcp/services/lists.py:341-392 | cutting an execution at any point leaves an execution |
| WriteProtocol.TraceStanding | src/familywall_mcp/services/lists.py:323-392 | at every point of a call, what it has put and sent so far is fixed by where it stands |
| WriteScripts.RefusedAtOnce | src/familywall_mcp/services/lists.py:308-318 | a call reads nothing and raises exactly when its operation ID is blank, an ID is of the wrong kind or nobody is assigned, and which error that is |
| WriteScripts.AnsweredFromReceipt | src/familywall_mcp/services/lists.py:785-820 | any receipt found under the key, whoever wrote it, is the only thing the call looks at, and its action, payload, status and stored text fix the answer |
| WriteScripts.ReceiptsNameTheirCall | src/familywall_mcp/services/lists.py:323-339 | every receipt of a call carries its key, family, tool and payload, and the resource that its tool is about |
| WriteScripts.AfterFailedSend | src/familywall_mcp/services/lists.py:343-356 | what is written and answered after a failed mutation: unknown, the refusal without its endpoint, or nothing when another exception escapes |
| ToolScripts.SentAtOnce | src/familywall_mcp/services/calendar.py:417-420 | adding an item and creating an event write the pending receipt and send, with no lookup |
| ToolScripts.ListsScanned | src/familywall_mcp/services/lists.py:484-503 | the lists are read in the order given until one holds the item; only then is anything written, and every other way out is named |
| ToolScripts.ItemReadRightBefore | src/familywall_mcp/services/lists.py:486-503 | the item is as last read right before the receipt was opened, the first one of its list with the ID |
| ToolScripts.EventLookedUp | src/familywall_mcp/services/calendar.py:600-613 | an event past all six gates is written to, any other is refused as unsupported, a missing one as not found, and nothing is written then |
| ToolScripts.EventReadRightBefore | src/familywall_mcp/services/calendar.py:744-759 | right before the receipt is opened the event was read in the requested day and calendar, and satisfies each of the six gates |
| ToolScripts.ItemCreated | src/familywall_mcp/services/lists.py:358-389 | how the reply to taskcreate2 decides between unknown, acknowledged, misfiled and a readback of the requested list |
| ToolScripts.AddedItemRead | src/familywall_mcp/services/lists.py:394-421 | the added item is confirmed exactly when the first item with its ID carries the assignment, everyone or just these members |
| ToolScripts.ItemMarked | src/familywall_mcp/services/lists.py:652-686 | an accepted taskmark is recorded and answered as confirmed |
| ToolScripts.AssigneesSet | src/familywall_mcp/services/lists.py:531-571 | after taskupdate2 the list that held the item is read again, and the comparison with the item as found decides the outcome |
| ToolScripts.ItemNames | src/familywall_mcp/services/lists.py:735-754 | which fields of a read-back item are named as differing, each by its own condition and in order |
| ToolScripts.EventCreated | src/familywall_mcp/services/calendar.py:434-448 | how the reply to evtcreate decides between an acknowledgement and a readback around the requested times |
| ToolScripts.CreatedEventRead | src/familywall_mcp/services/calendar.py:450-492 | the created event is confirmed exactly when the first event with its ID differs in no field, and which result it is otherwise |
| ToolScripts.CreatedNames | src/familywall_mcp/services/calendar.py:826-865 | which fields of a read-back event are named as differing from the request, each by its own condition and in order |
| ToolScripts.AttendeesSet | src/familywall_mcp/services/calendar.py:632-668 | after evtupdate the same day is read again, and the comparison with the event as looked up decides the outcome |
| ToolScripts.AttendeeNames | src/familywall_mcp/services/calendar.py:762-806 | which fields of a read-back event are named as differing from the event before, each by its own condition and in order |
| WriteRuns.RunInv | src/familywall_mcp/services/lists.py:573-686 | the invariant of the whole system: sent implies opened, openings of one key are a lifetime apart, the store is what was last put |
| WriteLimits.CheckedReplayIsFaithfulIffConfirmed | src/familywall_mcp/services/lists.py:616-686 | marking an item replays its first answer exactly when that was confirmed: any returned outcome is replayed as confirmed, a refusal as unknown |
| WriteLimits.OverlapSendsTwice | src/familywall_mcp/services/lists.py:319-344 | any two calls with one key, of whichever tools, that are both under way can both send |
| WriteLimits.LostReplyRetried | src/familywall_mcp/services/lists.py:684-700 | for every call that gets as far as its receipt there is a run in which its reply is lost, it answers unknown, and its retry answers unknown, or confirmed when it marks an item |
| WriteLimits.RefusedMarkingRetried | src/familywall_mcp/services/lists.py:684-700 | for every marking there is a run in which it is refused and raises, and its retry answers unknown |
| Backend.CallBackend.Get | src/familywall_mcp/storage/sqlite.py:111-174 | finds the receipt unless it has expired, and changes nothing |
| Backend.CallBackend.Put | src/familywall_mcp/storage/sqlite.py:176-228 | replaces the receipt of its key and no other |
| ListService.AddItem | src/familywall_mcp/services/lists.py:248-421 | the tool as it runs is an uninterrupted execution of the protocol that ends in its answer, with the receipts stored and the clock, store and replies followed |
| ListService.SetItemAssignees | src/familywall_mcp/services/lists.py:423-571 | the same for setting assignees, with its nested scan |
| ListService.SetItemChecked | src/familywall_mcp/services/lists.py:573-686 | the same for marking an item |
| ListService.ScanLists | src/familywall_mcp/services/lists.py:486-503 | the nested scan stops at the first list that holds the item, and fails when none does |
| ListService.FirstItem | src/familywall_mcp/services/lists.py:490-500 | the inner scan loop finds the first item with the ID |
| ListService.ReadBack | src/familywall_mcp/services/lists.py:394-421 | a readback settles the call, or lets a refusal of the readback escape |
| CalendarService.CreateEvent | src/familywall_mcp/services/calendar.py:324-492 | the tool as it runs is an uninterrupted execution of the protocol |
| CalendarService.SetEventAttendees | src/familywall_mcp/services/calendar.py:494-668 | the same for setting attendees |
| CalendarService.LookUp | src/familywall_mcp/services/calendar.py:600-611 | the day lookup and the safety gates, each with its own refusal |
| CalendarService.ConfirmCreated | src/familywall_mcp/services/calendar.py:450-492 | the readback of a created event; a refused readback keeps the acknowledgement |
| CalendarService.ConfirmAttendees | src/familywall_mcp/services/calendar.py:643-668 | the readback of an updated event |
| ServiceRuns.MethodIsARun | src/familywall_mcp/services/lists.py:248-392 | what a tool did against its backend is a continuation of any whole run in which its key is free |
| WireForms.DigestIdentifiesIntent | src/familywall_mcp/services/calendar.py:671-677 | equal payload hashes mean the same tool and the same intent, up to absent against empty text and fractions of a second, and nothing else does |
| WireForms.WithIdsReadBack | src/familywall_mcp/familywall/calendar.py:467-498 | reading the indexed keys back gives the exact ID sequence, and no fixed key is shadowed |
| WireForms.DecodeIndexed | src/familywall_mcp/familywall/calendar.py:542-554 | counting indices up until one is missing recovers the IDs in order |
| WireForms.IndexKeyInjective | src/familywall_mcp/familywall/lists.py:489-504 | different indices have different keys |
| WireForms.ListFormsDiffer | src/familywall_mcp/familywall/lists.py:540-574 | the keys of a list form tell its tool |
| WireForms.FillForm | src/familywall_mcp/familywall/lists.py:489-504 | the enumerating loop builds the fixed entries, one key per ID, and the trailing entries |
| WireForms.BuildFields | src/familywall_mcp/familywall/lists.py:449-574 | the builders fail with the first violated check, else give the form |
| FormEntries.CreateItemEntries | src/familywall_mcp/familywall/lists.py:449-504 | every key and value of a taskcreate2 form as text: list, text, the everyone flag, one key for each assignee, and nothing else |
| FormEntries.UpdateAssigneesEntries | src/familywall_mcp/familywall/lists.py:507-552 | every key and value of a taskupdate2 form as text |
| FormEntries.MarkEntries | src/familywall_mcp/familywall/lists.py:555-574 | a taskmark form names the item and says "true" exactly when it is to be checked |
| FormEntries.CreateEventEntries | src/familywall_mcp/familywall/calendar.py:417-498 | every key and value of an evtcreate form as text, with the times to the second, the default reminder and one key for each attendee |
| FormEntries.UpdateAttendeesEntries | src/familywall_mcp/familywall/calendar.py:501-554 | every key and value of an evtupdate form as text |
| FormEntries.DecimalIsPlain | src/familywall_mcp/familywall/calendar.py:482-483 | an index is written in decimal digits without leading zeros, and is the number it says |
| IsoTime.IsoOrder | src/familywall_mcp/storage/sqlite.py:237-253 | for UTC datetimes, text order of isoformat strings is chronological order, with the fraction omitted when zero |
| IsoTime.ParseIsoText | src/familywall_mcp/storage/sqlite.py:153-159 | fromisoformat reads back what isoformat wrote |
| IsoTime.IsoLayout | src/familywall_mcp/storage/sqlite.py:218-228 | where each field, separator, fraction and offset of an isoformat text stands |
| IsoTime.IsoSecondsLayout | src/familywall_mcp/familywall/calendar.py:467-498 | where each field, the sign and the parts of the offset stand in a text to the second |
| IsoTime.IsoSecondsInjective | src/familywall_mcp/familywall/calendar.py:467-498 | local times with offsets have equal texts exactly when they agree to the second |
| ReceiptStore.SqliteReceipts.Get | src/familywall_mcp/storage/sqlite.py:111-174 | answers the stored receipt unless its parsed expiry is not after now |
| ReceiptStore.SqliteReceipts.Put | src/familywall_mcp/storage/sqlite.py:176-228 | an upsert of one key |
| ReceiptStore.SqliteReceipts.PurgeExpired | src/familywall_mcp/storage/sqlite.py:230-259 | the text comparison deletes exactly the receipts whose instant is not after now |
| ReceiptStore.TextTestIsInstantTest | src/familywall_mcp/storage/sqlite.py:237-253 | the SQL comparison of texts is the comparison of instants |
| ReceiptStore.SqliteAgreesWithMemory | src/familywall_mcp/storage/memory.py:23-57 | after any history of puts and purges, get answers as the in-memory map does, but for expiry and the empty upstream ID |
| ReceiptRefinement.TableRunsAreRuns | src/familywall_mcp/storage/sqlite.py:111-259 | whatever calls do over the SQLite table, with its texts for hash and outcome and its datetimes of the real calendar, is a run of the write protocol with the same log |
| ReceiptRefinement.RunsAreTableRuns | src/familywall_mcp/storage/sqlite.py:111-259 | and the other way round, before the end of year 9999: whatever the protocol can do, calls over the table can do, every expiry 24 hours after its put included |
| ReceiptRefinement.FindMirrors | src/familywall_mcp/storage/sqlite.py:111-174 | what the table answers stands for what the protocol's store answers |
| ReceiptRefinement.AtMostOneSendOverTable | src/familywall_mcp/storage/sqlite.py:176-228 | so over the table too, at most one mutation goes out for a key within a lifetime |
| ReceiptCoding.PlainCodingIsFaithful | src/familywall_mcp/storage/sqlite.py:176-228 | there are codings of hashes and outcomes into texts that confuse nothing |
| Calendar.InstantOrder | src/familywall_mcp/storage/sqlite.py:153-159 | of two datetimes of the real calendar, the earlier by fields is the earlier instant in microseconds |
| Calendar.StampAt | src/familywall_mcp/services/lists.py:323-339 | every instant of the years 1 to 9999 is that of a datetime |
| Calendar.NextYear | src/familywall_mcp/storage/sqlite.py:153-159 | the closed count of the days before a year adds the days of the years one after the other |
| Calendar.MonthLengths | src/familywall_mcp/storage/sqlite.py:153-159 | the twelve month lengths, with the rule for leap years |
| ReceiptStore.InMemoryReceipts.Get | src/familywall_mcp/storage/memory.py:34-46 | answers the last receipt put, whatever its expiry |
| ReceiptStore.InMemoryReceipts.Put | src/familywall_mcp/storage/memory.py:48-57 | replaces the receipt of one key |
| Migration.MigrationIsAllOrNothing | src/familywall_mcp/storage/sqlite.py:270-303 | with any number of processes and a failure at any statement, what is committed is the database as found or its image plus later puts, with no half-made table left; an initialised process sees the new schema |
| Migration.EveryRowIsAccountedFor | src/familywall_mcp/storage/sqlite.py:288-297 | each row of the new table is the receipt stored last under its key, or else the row found, field by field |
| Migration.Database.Initialise | src/familywall_mcp/storage/sqlite.py:63-109 | one process: success exactly when no statement raises and no half-made table is in the way, with every row kept; otherwise nothing changes |
| Migration.Database.MigrateLegacyTable | src/familywall_mcp/storage/sqlite.py:270-303 | the transaction commits the image of the table or rolls back to the database as it was |
| Migration.ImageKeepsRows | src/familywall_mcp/storage/sqlite.py:288-297 | migrating loses and duplicates no row and keeps every field: the list column becomes the resource, the action becomes legacy |
| Migration.ImageLosesNothing | src/familywall_mcp/storage/sqlite.py:288-297 | only one legacy table has a given image |
| Migration.LoneMigration | src/familywall_mcp/storage/sqlite.py:92-101 | an undisturbed migrator succeeds exactly when no half-made table is in the way, and otherwise changes nothing |
| WeekOverview.GetWeekOverview | src/familywall_mcp/services/calendar.py:218-322 | computes the declarative overview of what one fetch of the whole week returned, or passes its error on |
| WeekOverview.FetchWeek | src/familywall_mcp/services/calendar.py:246-286 | one request for seven days, first-wins de-duplication, cap and notes |
| WeekOverview.Deduplicate | src/familywall_mcp/services/calendar.py:269-272 | what was kept before, then the fetched events, the first of each ID |
| WeekOverview.AssignEvents | src/familywall_mcp/services/calendar.py:288-303 | every day of the dict holds the kept events that cover it, in fetch order |
| WeekOverview.AssignDays | src/familywall_mcp/services/calendar.py:868-924 | walking an event's days appends it to exactly those the dict has |
| WeekOverview.OrderEventsInDay | src/familywall_mcp/services/calendar.py:927-965 | splitting, sorting each part by its own key and joining gives the two-key order |
| WeekOverview.ParseEvents | src/familywall_mcp/familywall/calendar.py:163-173 | the well-formed entries in order, and a count of the others |
| WeekOverview.DayHoldsExactly | src/familywall_mcp/services/calendar.py:303-313 | a day lists exactly the kept events on it, each once: all-day events from their first to their last day, timed ones from the local day they start to the local day they end; all-day first by ID, then by start and ID |
| WeekOverview.KeptExactly | src/familywall_mcp/services/calendar.py:259-286 | an event is kept exactly when some entry of the payload is that event, no earlier entry has its ID, and fewer IDs than the cap come before it |
| WeekOverview.NotesSayWhy | src/familywall_mcp/services/calendar.py:259-286 | the notes count the malformed entries and name the cap, each exactly when it applies; the total is the number of IDs up to the cap |
| WeekOverview.OrderDoesNotMatter | src/familywall_mcp/services/calendar.py:266-286 | any permutation of a payload with distinct IDs within the cap gives the identical overview |
| WeekOverview.FirstSeenIsFirst | src/familywall_mcp/services/calendar.py:269-272 | an event is kept exactly when no earlier one has its ID |
| WeekOverview.CompleteIffNothingLost | src/familywall_mcp/services/calendar.py:259-283 | complete holds exactly when nothing was malformed and the distinct IDs fit the cap |
| WeekOverview.SortedIsUnique | src/familywall_mcp/services/calendar.py:944-965 | there is only one way to list given events in order |
| WeekOverview.WeekStartIsUnique | src/familywall_mcp/services/ranges.py:60-71 | the resolved week is the only one that starts on a Monday, or Sunday, of the calendar and holds the reference day |
| WeekOverview.BucketsAreOverlaps | src/familywall_mcp/services/ranges.py:168-190 | where the local date is monotone, a timed event is listed on a day exactly when it overlaps the local day, or ends at its midnight |
| EventTime.AcceptedIffUnambiguous | src/familywall_mcp/services/ranges.py:263-283 | a wall-clock time is accepted exactly when one instant shows it and resolves to that instant; it is refused exactly when none or two do |
| EventTime.DifferentFolds | src/familywall_mcp/services/ranges.py:278-282 | when the two folds differ, the sign of the difference tells a skipped time from a repeated one, and fold 0 is the earlier instant |
| EventTime.ReadingsResolveBack | src/familywall_mcp/services/ranges.py:275-283 | showing an instant and resolving it again gives the instant, unless another instant shows the same |
| EventTime.OffsetInForce | src/familywall_mcp/services/ranges.py:275-283 | what the wall clock shows: the instant plus the first offset, or that of the last transition past |
| EventTime.RefusedInputs | src/familywall_mcp/services/ranges.py:260-274 | an unknown zone, a bare date and an unreadable text are refused, each with its own error |
| Members.ResolveMembers | src/familywall_mcp/services/members.py:105-163 | the loop computes the resolution, first error included |
| Members.FirstErrorWins | src/familywall_mcp/services/members.py:143-150 | resolution fails exactly with the error of the first name that has one |
| Members.ResolvedInFirstMentionOrder | src/familywall_mcp/services/members.py:139-157 | the resolved accounts are exactly those mentioned, each once, by first mention |
| Members.MatchIffPicked | src/familywall_mcp/services/members.py:166-184 | a name matches exactly when one member has it in full, or nobody does and one has it as first name |
| Members.NameDecides | src/familywall_mcp/services/members.py:97-184 | by full names, then first names: one member with the name is meant, several are ambiguous, none is unknown, a blank name invalid |
| Members.DescribeThenResolve | src/familywall_mcp/services/members.py:187-207 | in a well-named family, describing a resolved assignment and resolving the names again gives the same accounts, nobody unresolved |
| Members.DescribesOneMore | src/familywall_mcp/services/members.py:187-207 | each ID adds the name of its last member, in order, or counts as unresolved, and the everyone flag is passed through |
| LoginThrottle.Throttle.HandleCallback | src/familywall_mcp/auth/provider.py:428-466 | a callback is refused exactly when at least five failures of its address since its last success are younger than 900 seconds |
| LoginThrottle.Throttle.CheckRateLimit | src/familywall_mcp/auth/provider.py:367-379 | the pruned list decides as the whole history would |
| LoginThrottle.Throttle.RecordFailure | src/familywall_mcp/auth/provider.py:381-382 | one failure more, at any time; the history then has six failures within a lockout period exactly when it had before or five were recent already |
| LoginThrottle.Throttle.NeverSixInASpan | src/familywall_mcp/auth/provider.py:428-466 | after callbacks one at a time, no stretch of the history without a success holds six failures of an address in a span shorter than 900 seconds |
| LoginThrottle.AtMostFiveInASpan | src/familywall_mcp/auth/provider.py:367-379 | failures of which any six in a row take a lockout period put at most five in any shorter span |
| OAuthStore.PurgeShowsOnlyAtExpiry | src/familywall_mcp/auth/storage.py:525-550 | a purge changes what a later read says exactly when both happen at the very expiry of the row |
| OAuthStore.Store.DeleteCode | src/familywall_mcp/auth/storage.py:296-313 | deletes a code and says whether there was one |
| OAuthStore.Store.GetRefreshToken | src/familywall_mcp/auth/storage.py:422-448 | an expired row is deleted and not returned |
| OAuthStore.Store.MarkConsumed | src/familywall_mcp/auth/storage.py:450-465 | marks the row if it is still there |
| OAuthStore.Store.RevokeTokenPair | src/familywall_mcp/auth/storage.py:481-504 | deletes either or both rows by hash |
| OAuthStore.Store.RevokeAllForSubject | src/familywall_mcp/auth/storage.py:506-523 | deletes the token rows of one subject and no others |
| OAuthStore.Store.PurgeExpired | src/familywall_mcp/auth/storage.py:525-550 | deletes every row whose expiry has been reached, in all four tables |
| OAuthTheorems.OnePairPerCode | src/familywall_mcp/auth/provider.py:203-232 | under every interleaving of store calls, one code is exchanged for at most one token pair (RFC 6749, section 4.1.2) |
| OAuthTheorems.EverySubjectSignedIn | src/familywall_mcp/auth/provider.py:459-481 | every stored code and token goes back to one sign-in, of its client and as its subject, with the very password configured for that subject |
| OAuthTheorems.PairsNameEachOther | src/familywall_mcp/auth/provider.py:314-348 | between any two store calls, an access and a refresh row of which one names the other name each other, share client and subject, and the access token expires first |
| OAuthTheorems.OneUnusedTokenPerChain | src/familywall_mcp/auth/provider.py:254-284 | in any run in which refreshes of a chain's tokens do not overlap between load and mark, the chain holds at most one unconsumed refresh token (RFC 6749, section 10.4) |
| OAuthRevocation.OverlappingRefreshesFork | src/familywall_mcp/auth/provider.py:234-284 | from any state with a presentable token, two overlapping refreshes can leave its chain with two unconsumed tokens |
| OAuthRevocation.RevocationNamesBoth | src/familywall_mcp/auth/provider.py:299-312 | whichever token of a live pair is presented, the request goes on to delete both |
| OAuthRevocation.RevokedForGood | src/familywall_mcp/auth/storage.py:481-504 | once a pair is revoked, neither token is in the store in any later state (RFC 7009, section 2.1) |
| OAuthRevocation.ReuseWipesSubject | src/familywall_mcp/auth/provider.py:234-245 | in any run, loading the owner's unexpired consumed token turns the request to punishing; its next store call leaves no token row of the subject and every other row as it was, and no token handed out to the subject before then is in the store in any later state |
| OAuthRevocation.UnfinishedPairOutlivesWipe | src/familywall_mcp/auth/provider.py:325-348 | a pair of the wiped subject that was not handed out yet can still have its refresh row stored |
| OAuthRaces.WipedSubjectCanKeepAToken | src/familywall_mcp/auth/provider.py:234-284 | from the start, for any user and client, there is a run in which the subject is wiped and the next store call stores a refresh token of it |
| OAuthRaces.ChainsCanFork | src/familywall_mcp/auth/provider.py:234-284 | from the start, there is a run that leaves a chain with two unconsumed tokens |
| OAuthRaces.TokensGetPresentable | src/familywall_mcp/auth/provider.py:455-481 | for any user and client there is a run from the start after which the client can present a refresh token of the user |
| OAuthProvider.Provider.Authorize | src/familywall_mcp/auth/provider.py:160-183 | one step of the system: a pending login under an unused key, with its lifetime |
| OAuthProvider.Provider.HandleLoginCallback | src/familywall_mcp/auth/provider.py:455-481 | a code exists afterwards exactly when the login was pending and the password equal to the one configured, for that user and the client that asked |
| OAuthProvider.Provider.LoadAuthorizationCode | src/familywall_mcp/auth/provider.py:185-201 | the row of a live code that belongs to the client |
| OAuthProvider.Provider.ExchangeAuthorizationCode | src/familywall_mcp/auth/provider.py:203-232 | a pair is issued exactly when the code was still there, and it is gone afterwards |
| OAuthProvider.Provider.LoadRefreshToken | src/familywall_mcp/auth/provider.py:234-252 | the row of an unexpired, unconsumed token of the client; an expired row goes, a reused token wipes its subject |
| OAuthProvider.Provider.ExchangeRefreshToken | src/familywall_mcp/auth/provider.py:254-284 | the presented token is marked, a new pair stored, and no other refresh row touched |
| OAuthProvider.Provider.IssueTokenPair | src/familywall_mcp/auth/provider.py:314-348 | both rows name each other with their own lifetimes, the refresh token unused |
| OAuthProvider.Provider.RevokeRefreshToken | src/familywall_mcp/auth/provider.py:303-307 | a live refresh token takes its access token with it |
| OAuthProvider.Provider.RevokeAccessToken | src/familywall_mcp/auth/provider.py:308-312 | a live access token takes its refresh token with it |
| OAuthProvider.Provider.LoadAccessToken | src/familywall_mcp/auth/provider.py:286-297 | the row of an unexpired access token; an expired row goes |
| OAuthProvider.Provider.PurgeExpired | src/familywall_mcp/server.py:266-268 | the startup purge is one more step of the system |
| OAuthProvider.Provider.RedeemTwice | src/familywall_mcp/auth/provider.py:203-214 | of two requests that loaded one code, the first to exchange gets a pair and the second an error, and nobody can load it again; a code that expired between the loads gives nobody a pair |
| OAuthProvider.Provider.RefreshOnce | src/familywall_mcp/auth/provider.py:234-284 | a client that waits for its refreshes keeps every chain at one unconsumed token |
| OAuthProvider.Provider.ReuseOnce | src/familywall_mcp/auth/provider.py:237-245 | presenting a rotated token again before it expires gives nothing and leaves the subject no token at all, the new pair included |
| SessionPool.Pool.Acquire | src/familywall_mcp/services/session.py:123-219 | returns the subject's session if it is neither idle nor of another generation, else a new one; with later clock readings the pool stays exactly the most recently acquired subjects, and the session is pooled and open |
| SessionPool.Pool.AcquireEach | src/familywall_mcp/services/session.py:123-219 | after any sequence of acquires that sign in where they must, with later and later clock readings, the pool is exactly the most recently acquired subjects |
| SessionPool.Pool.FindPooled | src/familywall_mcp/services/session.py:146-172 | a pooled session is touched and returned unless its generation differs or it is idle, and then dropped |
| SessionPool.Pool.EvictIfNeeded | src/familywall_mcp/services/session.py:257-270 | only a pool over its bound loses a session, the least recently used |
| SessionPool.Pool.Call | src/familywall_mcp/services/session.py:272-318 | exactly when each send happens, through which session and with which answer: a write once, a read again after an expiry and a new sign-in, with the first client closed; a failed sign-in is the error |
| SessionPool.Pool.Invalidate | src/familywall_mcp/services/session.py:221-232 | drops the subject's session and nobody else's |
| SessionPool.Pool.CloseAll | src/familywall_mcp/services/session.py:234-244 | closes every client that was ever discovered |
| SessionPool.SettledIsMostRecent | src/familywall_mcp/services/session.py:257-270 | evicting the least recently used keeps the pool at the window of the most recently acquired subjects |
| SessionPool.MostRecentMeans | src/familywall_mcp/services/session.py:257-270 | a subject is in the window exactly when fewer others than its size were acquired since it last was |
| SessionPool.Pool.UsableMeans | src/familywall_mcp/services/session.py:75-78 | a session is usable exactly when it has not been idle for longer than the limit and its generation is not outdated |
| SessionPool.TopAfter | src/familywall_mcp/services/session.py:174-219 | how the window of most recent subjects moves with each acquire |
| PoolRuns.SignInsAreSeparated | src/familywall_mcp/services/session.py:174-219 | under every interleaving, two sign-ins of one subject are separated by a removal of its session |
| PoolRuns.OwnSessionOnly | src/familywall_mcp/services/session.py:174-180 | every returned session was created for the subject that asked |
| PoolRuns.PooledOrClosed | src/familywall_mcp/services/session.py:229-270 | every client whose discovery succeeded is in exactly one of pooled and closed, and the pool keeps its bound |
| PoolRuns.NeverDeadlocks | src/familywall_mcp/services/session.py:174-175 | while a caller is not done, some caller can move, whatever was cancelled or closed meanwhile |
| PoolRefinement.AcquireAsRun | src/familywall_mcp/services/session.py:123-219 | an undisturbed acquire leaves the pool object as a caller of the interleaved system leaves its state, the session evicted being the least recently used |
| PoolRefinement.DropAsRun | src/familywall_mcp/services/session.py:221-244 | the same for dropping one session, and for closing all |
| ContextCache.OneBuildPerSubject | src/familywall_mcp/services/principal_context.py:164-180 | at most one discovery build is in flight per subject |
| ContextCache.OwnContextOnly | src/familywall_mcp/services/principal_context.py:148-180 | every cached and every returned context was built for its own subject |
| ContextCache.SubjectsDoNotBlockEachOther | src/familywall_mcp/services/principal_context.py:168-170 | a caller waits only for a build of its own subject |
| ContextCache.NeverDeadlocks | src/familywall_mcp/services/principal_context.py:164-180 | while a caller is not done, some caller can move |
| ContextCache.StoredOncePerInvalidation | src/familywall_mcp/services/principal_context.py:171-185 | however many callers race, a context is stored again only after an invalidation of that subject |
| ContextCache.Resolver.Resolve | src/familywall_mcp/services/principal_context.py:148-180 | undisturbed: the cached context of the token's subject, else a freshly built one, which is kept |
| ContextCache.Resolver.Refresh | src/familywall_mcp/services/principal_context.py:187-203 | rebuilds the caller's own context and touches no other |
| ResolverRuns.ResolveIsARun | src/familywall_mcp/services/principal_context.py:148-180 | what one undisturbed resolve does to the cache and returns is what a caller of the interleaved system does |
| ResolverRuns.RefreshIsARun | src/familywall_mcp/services/principal_context.py:187-203 | the same for a refresh |

## Left out

- Network, process and framework code: `familywall/client.py`, `server.py`, `cli.py` and the tool registry; FamilyWall is an arbitrary reply or error at each call.
- JSON and pydantic detail, envelope parsing and field coercion: replies and stored results are datatypes; a stored text is readable or not.
- Whitespace stripping of model fields, and the items tuple that `add_item` returns beside its result.
- Error texts with fixed wording are named rather than spelled; refusals keep their code, message and recovery.
- The local ISO texts of a mismatched event readback are represented by the span they render, and the margin of the readback window by a window around the event.
- A stored result of another tool's shape is replayed as acknowledged, as validation failures are; a text that validates by accident is not modelled.
- HTML login page, CSRF signature, cookies, and random generation: a callback that reaches the password check has passed them.
- Token rows without an expiry, which the provider never writes.
- Files, modes, WAL and `asyncio.to_thread`: tables are maps and each store call is one atomic step; the migration is a transaction.
- The receipts of the in-memory repository are lost when the process ends; a crash in a run of that repository ends the call, not the process.
- Cancellation inside a critical section takes effect before or after the section, not between its statements.
- A session pool clock that runs backwards: the LRU statement asks for later readings.
- The rule-based end of a time zone (its transitions after the last listed one) and other `zoneinfo` internals: a zone is a finite sequence of transitions.
- NFKC, casefold and whitespace splitting of names: any normalisation and any first-token function.
- `select_list`, configuration checks, `parse_boundary_input` and `all_day_overlaps`: small single-branch facts.
- OAuthTheorems.OneUnusedTokenPerChain: does not cover runs in which refreshes of one token overlap, as `OAuthRevocation.OverlappingRefreshesFork` shows.
- OAuthRevocation.ReuseWipesSubject: does not cover a pair of the subject whose refresh row is still to be stored at the wipe, as `OAuthRevocation.UnfinishedPairOutlivesWipe` shows.
- ReceiptRefinement.RunsAreTableRuns: ends with the calendar, where the code would raise an overflow error.
- ReceiptRefinement.TableRunsAreRuns: starts from a table whose rows all stand for receipts; rows that some other program wrote are not covered.
- WriteTheorems.ConfirmedIsBacked: does not cover the replay of a confirmation that the store already held before the run.
- WriteTheorems.AtMostOneSend: does not cover overlapping calls with one key, as `WriteLimits.OverlapSendsTwice` shows.
