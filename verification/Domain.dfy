/** Values shared by the write services: items, events, assignments, requests and receipts. */
module Domain {
  import opened Common
  import opened IsoTime

  // ----- errors -----

  /** The code, message and recovery of an error: the fixed ones by name, any others by their text. */
  datatype ErrorText =
    | OperationIdConflict
    | UpstreamRejected
    | UnsupportedConfiguration
    | EventNotFound
    | UnsupportedEvent
    | MalformedPayload
    | ValueError           // a Python exception, which carries no ErrorInfo
    | Text(code: string, message: string, recovery: string)

  datatype ErrorInfo = ErrorInfo(text: ErrorText, endpoint: Option<string>)

  /** What an upstream call can raise, by how a write treats it. */
  datatype UpstreamError =
    | Indeterminate(info: ErrorInfo)  // transport, rate limit, envelope or payload: may have arrived
    | Refused(info: ErrorInfo)        // UpstreamRejectedError or AuthenticationError: did not take effect
    | Escaping(info: ErrorInfo)       // any other exception

  // ----- family data -----

  datatype Assignment = Assignment(toAll: bool, accountIds: seq<string>)

  function IdSet(ids: seq<string>): set<string>
  {
    set id | id in ids
  }

  datatype ListItem = ListItem(
    itemId: string, listId: string, text: string, completed: bool, description: Option<string>,
    assigneeIds: seq<string>, toAll: Option<bool>, dueDate: Option<string>, reminder: Option<(string, string, string)>)

  datatype Span =
    | Timed(start: int, end: int)             // instants
    | AllDay(startDate: int, endDate: int)    // calendar days, both included

  datatype Reminder = Reminder(kind: string, unit: string, value: string)

  datatype CalendarEvent = CalendarEvent(
    occurrenceId: string, title: string, span: Span, eventType: string, calendarId: Option<string>,
    eventTimezone: Option<string>, location: Option<string>, description: Option<string>,
    isRecurring: bool, isSeriesException: bool, attendeeIds: seq<string>,
    toAll: Option<bool>, editable: Option<bool>, reminders: Option<seq<Reminder>>)

  const DEFAULT_REMINDER := Reminder("SNOOZE", "MINUTE", "30")

  datatype MomentFields = MomentFields(instant: int, local: Stamp, offset: int)

  /** An aware datetime: the instant (microseconds), and how its own zone writes it. */
  type Moment = m: MomentFields | InRange(m.local) && OffsetInRange(m.offset)
    witness MomentFields(0, Stamp(1970, 1, 1, 0, 0, 0, 0), 0)

  datatype NewTimedEvent = NewTimedEvent(
    title: string, start: Moment, end: Moment, timezone: string, location: Option<string>, description: Option<string>)

  /** Python's `value or ""`. */
  function OrEmpty(text: Option<string>): string
  {
    match text case None => "" case Some(s) => s
  }

  /** Python's `c.isspace()`. */
  predicate IsSpace(c: char)
  {
    || '\t' <= c <= '\r' || '\U{1C}' <= c <= ' ' || c == '\U{85}' || c == '\U{A0}' || c == '\U{1680}'
    || '\U{2000}' <= c <= '\U{200A}' || c == '\U{2028}' || c == '\U{2029}' || c == '\U{202F}' || c == '\U{205F}'
    || c == '\U{3000}'
  }

  /** Python's `not text.strip()`. */
  predicate Blank(text: string)
  {
    forall c :: c in text ==> IsSpace(c)
  }

  // ----- write requests -----

  datatype Request =
    | AddItem(listId: string, text: string, assignment: Assignment)
    | SetAssignees(itemId: string, assignment: Assignment)
    | SetChecked(itemId: string, checked: bool)
    | CreateEvent(event: NewTimedEvent, assignment: Assignment, calendarId: string)
      // `window` is the local day the event is looked up in; None when its timezone is unknown
    | SetAttendees(eventId: string, window: Option<(int, int)>, assignment: Assignment, calendarId: string)

  // ----- results -----

  datatype Outcome = Confirmed | Acknowledged | Misfiled | Mismatched | Unclear

  datatype WriteResult =
    | AddItemResult(outcome: Outcome, itemId: Option<string>, actualListId: Option<string>,
                    requestedListId: Option<string>, mismatched: seq<string>)
    | SetAssigneesResult(outcome: Outcome, mismatched: seq<string>)
    | SetCheckedResult(outcome: Outcome)
      // the local ISO texts of a mismatched readback are represented by the span they render
    | CreateEventResult(outcome: Outcome, eventId: Option<string>, mismatched: seq<string>, actual: Option<Span>)
    | SetAttendeesResult(outcome: Outcome, targetId: string, mismatched: seq<string>)

  // ----- receipts -----

  /** What a payload hash is computed from: with a collision-free hash, the hash itself. */
  datatype Digest =
    | ListDigest(fields: map<string, string>)
    | CalendarDigest(endpoint: string, calendarId: string, fields: map<string, string>)

  datatype Action = ListAddItem | ListSetChecked | ListSetAssignees | CalendarCreateEvent | CalendarSetAttendees | Legacy

  datatype Status = Pending | Succeeded | Unknown | Rejected

  /** The JSON text of a receipt's `upstream_id`, by what it decodes to. */
  datatype Stored = StoredResult(result: WriteResult) | StoredRefusal(info: ErrorInfo) | Unreadable

  datatype Key = Key(subject: string, operationId: string)

  datatype Receipt = Receipt(
    key: Key, familyId: string, resourceId: string, action: Action, payloadHash: Digest,
    status: Status, upstreamId: Option<Stored>, expiresAt: int)
}
