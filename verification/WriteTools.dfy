/** What each write tool decides: which call comes next, how a reply is judged, how a receipt replays. */
module WriteTools {
  import opened Common
  import opened Domain
  import opened WireForms

  // ----- upstream traffic -----

  datatype Window =
    | DayWindow(from: int, to: int)
    | AroundWindow(start: Moment, end: Moment)   // one day of margin on each side

  datatype Upstream =
    | GetLists
    | GetList(listId: string)
    | ListInterval(calendarId: string, window: Window)
    | Mutate(endpoint: string, fields: Form)

  /** A reply by what the endpoint's parser makes of it. */
  datatype Reply =
    | Lists(listIds: seq<string>)
    | Items(items: seq<ListItem>)
    | Events(events: seq<CalendarEvent>)
    | Created(metaId: Option<string>, taskId: Option<string>, taskListId: Option<string>, eventId: Option<string>)
    | OtherShape
    | Failed(error: UpstreamError)

  function AsLists(r: Reply): Result<seq<string>, UpstreamError>
  {
    match r
    case Lists(ids) =>
      if forall id :: id in ids ==> "taskList/" <= id then Ok(ids) else Err(Indeterminate(ErrorInfo(MalformedPayload, None)))
    case Failed(e) => Err(e)
    case _ => Err(Indeterminate(ErrorInfo(MalformedPayload, None)))
  }

  function AsItems(r: Reply): Result<seq<ListItem>, UpstreamError>
  {
    match r
    case Items(items) => Ok(items)
    case Failed(e) => Err(e)
    case _ => Err(Indeterminate(ErrorInfo(MalformedPayload, None)))
  }

  function AsEvents(r: Reply): Result<seq<CalendarEvent>, UpstreamError>
  {
    match r
    case Events(events) => Ok(events)
    case Failed(e) => Err(e)
    case _ => Err(Indeterminate(ErrorInfo(MalformedPayload, None)))
  }

  /** `next((item for item in items if item.item_id == id), None)` */
  function FindItem(items: seq<ListItem>, id: string): (found: Option<ListItem>)
    ensures found.Some? ==> found.value in items && found.value.itemId == id
    ensures found.None? ==> forall item :: item in items ==> item.itemId != id
  {
    if items == [] then None
    else if items[0].itemId == id then Some(items[0])
    else FindItem(items[1..], id)
  }

  function FindEvent(events: seq<CalendarEvent>, id: string): (found: Option<CalendarEvent>)
    ensures found.Some? ==> found.value in events && found.value.occurrenceId == id
    ensures found.None? ==> forall e :: e in events ==> e.occurrenceId != id
  {
    if events == [] then None
    else if events[0].occurrenceId == id then Some(events[0])
    else FindEvent(events[1..], id)
  }

  /** The first item of a list with this ID. */
  predicate FirstItemAt(items: seq<ListItem>, id: string, x: int)
  {
    0 <= x < |items| && items[x].itemId == id && forall y :: 0 <= y < x ==> items[y].itemId != id
  }

  predicate FirstEventAt(events: seq<CalendarEvent>, id: string, x: int)
  {
    0 <= x < |events| && events[x].occurrenceId == id && forall y :: 0 <= y < x ==> events[y].occurrenceId != id
  }

  lemma {:induction false} FindsFirstItem(items: seq<ListItem>, id: string, x: int)
    requires FirstItemAt(items, id, x)
    ensures FindItem(items, id) == Some(items[x])
  {
    if x > 0 {
      FindsFirstItem(items[1..], id, x - 1);
    }
  }

  lemma {:induction false} FirstOfFound(items: seq<ListItem>, id: string) returns (x: nat)
    requires FindItem(items, id).Some?
    ensures FirstItemAt(items, id, x) && FindItem(items, id) == Some(items[x])
  {
    if items[0].itemId == id {
      x := 0;
    } else {
      x := FirstOfFound(items[1..], id);
      x := x + 1;
    }
  }

  lemma {:induction false} FirstOfFoundEvent(events: seq<CalendarEvent>, id: string) returns (x: nat)
    requires FindEvent(events, id).Some?
    ensures FirstEventAt(events, id, x) && FindEvent(events, id) == Some(events[x])
  {
    if events[0].occurrenceId == id {
      x := 0;
    } else {
      x := FirstOfFoundEvent(events[1..], id);
      x := x + 1;
    }
  }

  lemma {:induction false} FindsFirstEvent(events: seq<CalendarEvent>, id: string, x: int)
    requires FirstEventAt(events, id, x)
    ensures FindEvent(events, id) == Some(events[x])
  {
    if x > 0 {
      FindsFirstEvent(events[1..], id, x - 1);
    }
  }

  // ----- judging a readback -----

  /** Everyone must be flagged as everyone; named members must be flagged as named, with the same ID set. */
  predicate AssignmentShown(toAll: Option<bool>, ids: seq<string>, a: Assignment)
  {
    if a.toAll then toAll == Some(true) else toAll == Some(false) && IdSet(ids) == IdSet(a.accountIds)
  }

  function Named(differs: bool, field: string): (names: seq<string>)
    ensures names == [] <==> !differs
  {
    if differs then [field] else []
  }

  function ItemMismatches(found: ListItem, before: ListItem, a: Assignment): seq<string>
  {
    Named(!AssignmentShown(found.toAll, found.assigneeIds, a), "assignees")
    + Named(found.text != before.text, "text")
    + Named(found.description != before.description, "description")
    + Named(found.completed != before.completed, "completed")
    + Named(found.listId != before.listId, "list_id")
    + Named(found.dueDate != before.dueDate, "due_date")
    + Named(found.reminder != before.reminder, "reminder")
  }

  /** The item carries the assignment and is otherwise as it was. */
  predicate OnlyAssignmentSet(found: ListItem, before: ListItem, a: Assignment)
  {
    && AssignmentShown(found.toAll, found.assigneeIds, a)
    && found == before.(itemId := found.itemId, assigneeIds := found.assigneeIds, toAll := found.toAll)
  }

  function SpanMismatches(after: Span, before: Span): seq<string>
  {
    if before.Timed? && after.Timed? then
      Named(after.start != before.start, "start") + Named(after.end != before.end, "end")
    else Named(before.Timed? != after.Timed?, "all_day")
  }

  function AttendeeMismatches(before: CalendarEvent, after: CalendarEvent, a: Assignment): seq<string>
  {
    Named(after.title != before.title, "title")
    + SpanMismatches(after.span, before.span)
    + Named(after.eventTimezone != before.eventTimezone, "timezone")
    + Named(OrEmpty(after.location) != OrEmpty(before.location), "location")
    + Named(OrEmpty(after.description) != OrEmpty(before.description), "description")
    + Named((after.isRecurring, after.isSeriesException) != (before.isRecurring, before.isSeriesException), "recurrence")
    + Named(after.calendarId != before.calendarId, "calendar")
    + Named(!AssignmentShown(after.toAll, after.attendeeIds, a), "attendees")
    + Named(after.reminders != before.reminders, "reminder")
  }

  /** The timed event carries the attendees and every compared field is as it was. */
  predicate OnlyAttendeesSet(before: CalendarEvent, after: CalendarEvent, a: Assignment)
  {
    && AssignmentShown(after.toAll, after.attendeeIds, a)
    && after.title == before.title && after.span == before.span
    && after.eventTimezone == before.eventTimezone
    && OrEmpty(after.location) == OrEmpty(before.location)
    && OrEmpty(after.description) == OrEmpty(before.description)
    && after.isRecurring == before.isRecurring && after.isSeriesException == before.isSeriesException
    && after.calendarId == before.calendarId && after.reminders == before.reminders
  }

  function CreatedSpanMismatches(span: Span, r: NewTimedEvent): seq<string>
  {
    if span.Timed?
    then Named(span.start != r.start.instant, "start") + Named(span.end != r.end.instant, "end")
    else ["all_day"]
  }

  function CreatedMismatches(e: CalendarEvent, r: NewTimedEvent, a: Assignment, calendarId: string): seq<string>
  {
    Named(e.title != r.title, "title")
    + CreatedSpanMismatches(e.span, r)
    + Named(e.eventTimezone != Some(r.timezone), "timezone")
    + Named(OrEmpty(e.location) != OrEmpty(r.location), "location")
    + Named(OrEmpty(e.description) != OrEmpty(r.description), "description")
    + Named(e.isRecurring || e.isSeriesException, "recurrence")
    + Named(e.calendarId != Some(calendarId), "calendar")
    + Named(!AssignmentShown(e.toAll, e.attendeeIds, a), "attendees")
    + Named(e.reminders != Some([DEFAULT_REMINDER]), "reminder")
  }

  /** The event is there exactly as requested. */
  predicate CreatedAsRequested(e: CalendarEvent, r: NewTimedEvent, a: Assignment, calendarId: string)
  {
    && AssignmentShown(e.toAll, e.attendeeIds, a)
    && e.title == r.title && e.span == Timed(r.start.instant, r.end.instant) && e.eventTimezone == Some(r.timezone)
    && OrEmpty(e.location) == OrEmpty(r.location) && OrEmpty(e.description) == OrEmpty(r.description)
    && !e.isRecurring && !e.isSeriesException && e.calendarId == Some(calendarId)
    && e.reminders == Some([DEFAULT_REMINDER])
  }

  /** No field is named exactly when the item carries the assignment and is otherwise unchanged. */
  lemma ItemsAgree(found: ListItem, before: ListItem, a: Assignment)
    ensures ItemMismatches(found, before, a) == [] <==> OnlyAssignmentSet(found, before, a)
  {
  }

  /** The same for an event that was timed before the write; two all-day spans are never compared. */
  lemma AttendeesAgree(before: CalendarEvent, after: CalendarEvent, a: Assignment)
    requires before.span.Timed?
    ensures AttendeeMismatches(before, after, a) == [] <==> OnlyAttendeesSet(before, after, a)
  {
  }

  lemma CreatedAgree(e: CalendarEvent, r: NewTimedEvent, a: Assignment, calendarId: string)
    ensures CreatedMismatches(e, r, a, calendarId) == [] <==> CreatedAsRequested(e, r, a, calendarId)
  {
  }

  /** The gates an event must pass before its attendees may be written. */
  predicate Unsafe(e: CalendarEvent, calendarId: string)
  {
    || e.calendarId != Some(calendarId)
    || e.editable != Some(true)
    || e.isRecurring
    || e.isSeriesException
    || e.eventType != "UNKNOWN"
    || e.span.AllDay?
  }

  // ----- phases of one write call -----

  /** What was read of the target before the write. */
  datatype Before = Nothing | FoundItem(inList: string, item: ListItem) | FoundEvent(event: CalendarEvent)

  datatype Answer = Returned(result: WriteResult) | Raised(info: ErrorInfo)

  /** Where a call stands: the name says what it does next. */
  datatype Phase =
    | Checking                                    // get the receipt
    | Listing                                     // fetch the accessible lists
    | Scanning(remaining: seq<string>)            // fetch the next list
    | LookingUp                                   // fetch the local day
    | Opening(before: Before)                     // put pending
    | Sending(before: Before)                     // send the mutation
    | Refusing(before: Before, info: ErrorInfo)   // put rejected
    | GivingUp(before: Before)                    // put unknown
    | Acknowledging(before: Before, ack: WriteResult)  // put the acknowledgement
    | ReadingBack(before: Before, ack: WriteResult)    // read the target back
    | Settling(before: Before, result: WriteResult)    // put the final result
    | Closing(answer: Answer)                     // return or raise
    | Closed

  datatype Call = Call(key: Key, familyId: string, request: Request)

  /** The checks that come before the receipt is read. */
  function FirstPhase(c: Call): Phase
  {
    if Blank(c.key.operationId) then Closing(Raised(ErrorInfo(ValueError, None)))
    else match FormError(c.request)
         case Some(info) => Closing(Raised(info))
         case None => Checking
  }

  predicate Accepted(c: Call)
  {
    FirstPhase(c) == Checking
  }

  function ActionOf(r: Request): Action
  {
    match r
    case AddItem(_, _, _) => ListAddItem
    case SetAssignees(_, _) => ListSetAssignees
    case SetChecked(_, _) => ListSetChecked
    case CreateEvent(_, _, _) => CalendarCreateEvent
    case SetAttendees(_, _, _, _) => CalendarSetAttendees
  }

  function ResourceOf(r: Request, b: Before): string
  {
    match r
    case AddItem(listId, _, _) => listId
    case SetAssignees(itemId, _) => itemId
    case SetChecked(_, _) => if b.FoundItem? then b.inList else ""
    case CreateEvent(_, _, calendarId) => calendarId
    case SetAttendees(eventId, _, _, _) => eventId
  }

  /** The result that says only `outcome`. */
  function Bare(r: Request, outcome: Outcome): WriteResult
  {
    match r
    case AddItem(_, _, _) => AddItemResult(outcome, None, None, None, [])
    case SetAssignees(_, _) => SetAssigneesResult(outcome, [])
    case SetChecked(_, _) => SetCheckedResult(outcome)
    case CreateEvent(_, _, _) => CreateEventResult(outcome, None, [], None)
    case SetAttendees(eventId, _, _, _) => SetAttendeesResult(outcome, eventId, [])
  }

  /** The stored JSON has the shape of this tool's result. */
  predicate OwnKind(r: Request, result: WriteResult)
  {
    match r
    case AddItem(_, _, _) => result.AddItemResult?
    case SetAssignees(_, _) => result.SetAssigneesResult?
    case SetChecked(_, _) => result.SetCheckedResult?
    case CreateEvent(_, _, _) => result.CreateEventResult?
    case SetAttendees(_, _, _, _) => result.SetAttendeesResult?
  }

  function RebuildRejection(stored: Option<Stored>): ErrorInfo
  {
    match stored
    case Some(StoredRefusal(info)) => info.(endpoint := None)
    case _ => ErrorInfo(UpstreamRejected, None)
  }

  function ReplayChecked(r: Request, receipt: Receipt): Answer
    requires FormError(r) == None
  {
    if receipt.status == Pending then Returned(SetCheckedResult(Unclear))
    else if receipt.payloadHash != DigestOf(r) then Raised(ErrorInfo(OperationIdConflict, None))
    else match receipt.upstreamId
         case Some(StoredResult(result)) =>
           Returned(SetCheckedResult(if receipt.status == Succeeded then result.outcome else Confirmed))
         case _ => Returned(SetCheckedResult(Confirmed))
  }

  /** How a repeated operation ID is answered from its receipt alone. */
  function Replay(r: Request, receipt: Receipt): Answer
    requires FormError(r) == None
  {
    if receipt.action != ActionOf(r) && receipt.action != Legacy then Raised(ErrorInfo(OperationIdConflict, None))
    else if r.SetChecked? then ReplayChecked(r, receipt)
    else if receipt.payloadHash != DigestOf(r) then Raised(ErrorInfo(OperationIdConflict, None))
    else if receipt.status == Rejected then Raised(RebuildRejection(receipt.upstreamId))
    else if receipt.status == Succeeded && receipt.upstreamId.Some? then
      match receipt.upstreamId.value
      case StoredResult(result) => Returned(if OwnKind(r, result) then result else Bare(r, Acknowledged))
      case _ => Returned(Bare(r, Acknowledged))
    else Returned(Bare(r, Unclear))
  }

  /** No usable receipt: what is done before anything is written. */
  function AfterMiss(r: Request): Phase
  {
    match r
    case AddItem(_, _, _) => Opening(Nothing)
    case CreateEvent(_, _, _) => Opening(Nothing)
    case SetAssignees(_, _) => Listing
    case SetChecked(_, _) => Listing
    case SetAttendees(_, window, _, _) => if window.None? then Closing(Raised(ErrorInfo(ValueError, None))) else LookingUp
  }

  function ScanOf(lists: seq<string>): Phase
  {
    if lists == [] then Closing(Raised(ErrorInfo(UnsupportedConfiguration, None))) else Scanning(lists)
  }

  function AfterLists(reply: Reply): Phase
  {
    match AsLists(reply)
    case Ok(lists) => ScanOf(lists)
    case Err(e) => Closing(Raised(e.info))
  }

  function AfterScan(r: Request, remaining: seq<string>, reply: Reply): Phase
    requires remaining != [] && (r.SetAssignees? || r.SetChecked?)
  {
    match AsItems(reply)
    case Ok(items) =>
      (match FindItem(items, r.itemId)
       case Some(item) => Opening(FoundItem(remaining[0], item))
       case None => ScanOf(remaining[1..]))
    case Err(e) => Closing(Raised(e.info))
  }

  function AfterLookup(r: Request, reply: Reply): Phase
    requires r.SetAttendees?
  {
    match AsEvents(reply)
    case Ok(events) =>
      (match FindEvent(events, r.eventId)
       case Some(e) => if Unsafe(e, r.calendarId) then Closing(Raised(ErrorInfo(UnsupportedEvent, None))) else Opening(FoundEvent(e))
       case None => Closing(Raised(ErrorInfo(EventNotFound, None))))
    case Err(e) => Closing(Raised(e.info))
  }

  /** Python's truth of an optional string. */
  function Truthy(text: Option<string>): Option<string>
  {
    if text == Some("") then None else text
  }

  function Or(a: Option<string>, b: Option<string>): Option<string>
  {
    if a.Some? then a else b
  }

  function NotBlank(text: Option<string>): Option<string>
  {
    if text.Some? && Blank(text.value) then None else text
  }

  function AfterCreateItem(listId: string, b: Before, reply: Reply): Phase
  {
    if !reply.Created? then GivingUp(b)
    else
      var itemId := Or(Truthy(reply.metaId), Truthy(reply.taskId));
      var inList := Truthy(reply.taskListId);
      if itemId.None? then GivingUp(b)
      else if inList.None? then Settling(b, AddItemResult(Acknowledged, itemId, None, None, []))
      else if inList.value != listId then Settling(b, AddItemResult(Misfiled, itemId, inList, Some(listId), []))
      else Acknowledging(b, AddItemResult(Acknowledged, itemId, None, None, []))
  }

  function AfterCreateEvent(b: Before, reply: Reply): Phase
  {
    var eventId := if reply.Created? then Or(NotBlank(reply.eventId), NotBlank(reply.metaId)) else None;
    var ack := CreateEventResult(Acknowledged, eventId, [], None);
    if eventId.None? then Settling(b, ack) else Acknowledging(b, ack)
  }

  /** How the mutation's own reply is taken. */
  function AfterSend(r: Request, b: Before, reply: Reply): Phase
  {
    match reply
    case Failed(Indeterminate(_)) => GivingUp(b)
    case Failed(Escaping(info)) => Closing(Raised(info))
    case Failed(Refused(info)) => if r.SetChecked? then Closing(Raised(info)) else Refusing(b, info)
    case _ =>
      match r
      case AddItem(listId, _, _) => AfterCreateItem(listId, b, reply)
      case CreateEvent(_, _, _) => AfterCreateEvent(b, reply)
      case SetChecked(_, _) => Settling(b, SetCheckedResult(Confirmed))
      case SetAssignees(_, _) => Acknowledging(b, Bare(r, Acknowledged))
      case SetAttendees(_, _, _, _) => Acknowledging(b, Bare(r, Acknowledged))
  }

  /** The read that follows an acknowledged write. */
  function ReadbackCall(r: Request, b: Before): Upstream
  {
    match r
    case AddItem(listId, _, _) => GetList(listId)
    case CreateEvent(e, _, calendarId) => ListInterval(calendarId, AroundWindow(e.start, e.end))
    case SetAttendees(_, Some(day), _, calendarId) => ListInterval(calendarId, DayWindow(day.0, day.1))
    case _ => GetList(if b.FoundItem? then b.inList else "")
  }

  /** The list services let a refused readback escape; the calendar service keeps its acknowledgement. */
  function AfterFailedReadback(r: Request, b: Before, ack: WriteResult, e: UpstreamError): Phase
  {
    if e.Indeterminate? || (e.Refused? && (r.CreateEvent? || r.SetAttendees?))
    then Settling(b, ack)
    else Closing(Raised(e.info))
  }

  function JudgeAdded(r: Request, ack: WriteResult, items: seq<ListItem>): WriteResult
    requires r.AddItem? && ack.AddItemResult? && ack.itemId.Some?
  {
    match FindItem(items, ack.itemId.value)
    case None => ack
    case Some(item) =>
      if AssignmentShown(item.toAll, item.assigneeIds, r.assignment)
      then AddItemResult(Confirmed, ack.itemId, None, None, [])
      else AddItemResult(Mismatched, ack.itemId, None, None, ["assignees"])
  }

  function JudgeAssigned(r: Request, b: Before, items: seq<ListItem>): WriteResult
    requires r.SetAssignees? && b.FoundItem?
  {
    match FindItem(items, r.itemId)
    case None => SetAssigneesResult(Acknowledged, [])
    case Some(item) =>
      var differences := ItemMismatches(item, b.item, r.assignment);
      SetAssigneesResult(if differences == [] then Confirmed else Mismatched, differences)
  }

  function JudgeCreated(r: Request, ack: WriteResult, events: seq<CalendarEvent>): WriteResult
    requires r.CreateEvent? && ack.CreateEventResult? && ack.eventId.Some?
  {
    match FindEvent(events, ack.eventId.value)
    case None => ack
    case Some(e) =>
      var differences := CreatedMismatches(e, r.event, r.assignment, r.calendarId);
      if differences == [] then CreateEventResult(Confirmed, ack.eventId, [], None)
      else CreateEventResult(Mismatched, ack.eventId, differences, Some(e.span))
  }

  function JudgeAttendees(r: Request, b: Before, events: seq<CalendarEvent>): WriteResult
    requires r.SetAttendees? && b.FoundEvent?
  {
    match FindEvent(events, r.eventId)
    case None => Bare(r, Acknowledged)
    case Some(e) =>
      var differences := AttendeeMismatches(b.event, e, r.assignment);
      SetAttendeesResult(if differences == [] then Confirmed else Mismatched, r.eventId, differences)
  }

  /** The shape a readback needs: what was read before, and an ID to look for. */
  predicate CanReadBack(r: Request, b: Before, ack: WriteResult)
  {
    match r
    case AddItem(_, _, _) => ack.AddItemResult? && ack.itemId.Some?
    case SetAssignees(_, _) => b.FoundItem? && ack == Bare(r, Acknowledged)
    case SetChecked(_, _) => false
    case CreateEvent(_, _, _) => ack.CreateEventResult? && ack.eventId.Some?
    case SetAttendees(_, window, _, _) => b.FoundEvent? && window.Some? && ack == Bare(r, Acknowledged)
  }

  function AfterReadback(r: Request, b: Before, ack: WriteResult, reply: Reply): Phase
    requires CanReadBack(r, b, ack)
  {
    if r.AddItem? || r.SetAssignees? then
      match AsItems(reply)
      case Err(e) => AfterFailedReadback(r, b, ack, e)
      case Ok(items) => Settling(b, if r.AddItem? then JudgeAdded(r, ack, items) else JudgeAssigned(r, b, items))
    else
      match AsEvents(reply)
      case Err(e) => AfterFailedReadback(r, b, ack, e)
      case Ok(events) => Settling(b, if r.CreateEvent? then JudgeCreated(r, ack, events) else JudgeAttendees(r, b, events))
  }
}
