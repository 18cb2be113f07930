/** The calendar write tools as the service runs them, proved to be uninterrupted executions of the write protocol. */
module CalendarService {
  import opened Common
  import opened Domain
  import opened WireForms
  import opened WriteTools
  import opened WriteProtocol
  import opened Backend

  /** `create_event`: one evtcreate, then a readback when its reply carries an event ID. */
  method CreateEvent(backend: CallBackend, c: Call) returns (answer: Answer)
    requires c.request.CreateEvent? && backend.trace == []
    modifies backend
    ensures At(backend, old(backend.receipts), c, Closing(answer))
  {
    ghost var before := backend.receipts;
    var fields := CheckRequest(c);
    if fields.Err? {
      return Raised(fields.error);
    }
    var existing := FindReceipt(backend, c, before);
    if existing.Some? {
      return Replay(c.request, existing.value);
    }
    RecordPending(backend, c, Nothing, before);
    var reply := Send(backend, c, Nothing, "evtcreate", fields.value, before);
    if reply.Failed? {
      answer := Fail(backend, c, Nothing, reply.error, before);
      return;
    }
    answer := SettleCreated(backend, c, reply, before);
  }

  /** An accepted reply: record the acknowledgement, confirm it when there is an ID to look for, record the result. */
  method SettleCreated(backend: CallBackend, c: Call, reply: Reply, ghost before: map<Key, Receipt>) returns (answer: Answer)
    requires c.request.CreateEvent? && !reply.Failed? && At(backend, before, c, AfterSend(c.request, Nothing, reply))
    modifies backend
    ensures At(backend, before, c, Closing(answer))
  {
    hide RunOf, Faithful, AfterPuts;
    var eventId := if reply.Created? then Or(NotBlank(reply.eventId), NotBlank(reply.metaId)) else None;
    var result := CreateEventResult(Acknowledged, eventId, [], None);
    if eventId.Some? {
      RecordAcknowledged(backend, c, Nothing, result, before);
      var read := ConfirmCreated(backend, c, result, before);
      if read.Err? {
        return Raised(read.error);
      }
      result := read.value;
    }
    RecordResult(backend, c, Nothing, result, before);
    return Returned(result);
  }

  method ConfirmCreated(backend: CallBackend, c: Call, ack: WriteResult, ghost before: map<Key, Receipt>)
      returns (result: Result<WriteResult, ErrorInfo>)
    requires c.request.CreateEvent? && At(backend, before, c, ReadingBack(Nothing, ack))
    modifies backend
    ensures match result
            case Ok(settled) => At(backend, before, c, Settling(Nothing, settled))
            case Err(info) => At(backend, before, c, Closing(Raised(info)))
  {
    hide RunOf, Faithful, AfterPuts;
    var request := c.request.event;
    var reply := Ask(backend, c, ListInterval(c.request.calendarId, AroundWindow(request.start, request.end)),
                     before, ReadingBack(Nothing, ack));
    var events := AsEvents(reply);
    if events.Err? {
      return if events.error.Escaping? then Err(events.error.info) else Ok(ack);
    }
    return Ok(JudgeCreated(c.request, ack, events.value));
  }

  /** `set_event_attendees`: look the event up, check the gates, one evtupdate, read the same day again. */
  method SetEventAttendees(backend: CallBackend, c: Call) returns (answer: Answer)
    requires c.request.SetAttendees? && backend.trace == []
    modifies backend
    ensures At(backend, old(backend.receipts), c, Closing(answer))
  {
    ghost var before := backend.receipts;
    var fields := CheckRequest(c);
    if fields.Err? {
      return Raised(fields.error);
    }
    var existing := FindReceipt(backend, c, before);
    if existing.Some? {
      return Replay(c.request, existing.value);
    }
    var found := LookUp(backend, c, before);
    if found.Err? {
      return Raised(found.error);
    }
    var b := FoundEvent(found.value);
    RecordPending(backend, c, b, before);
    var reply := Send(backend, c, b, "evtupdate", fields.value, before);
    if reply.Failed? {
      answer := Fail(backend, c, b, reply.error, before);
      return;
    }
    var ack := SetAttendeesResult(Acknowledged, c.request.eventId, []);
    RecordAcknowledged(backend, c, b, ack, before);
    var read := ConfirmAttendees(backend, c, b, ack, before);
    if read.Err? {
      return Raised(read.error);
    }
    RecordResult(backend, c, b, read.value, before);
    return Returned(read.value);
  }

  method LookUp(backend: CallBackend, c: Call, ghost before: map<Key, Receipt>) returns (found: Result<CalendarEvent, ErrorInfo>)
    requires c.request.SetAttendees? && At(backend, before, c, AfterMiss(c.request))
    modifies backend
    ensures match found
            case Ok(event) => At(backend, before, c, Opening(FoundEvent(event)))
            case Err(info) => At(backend, before, c, Closing(Raised(info)))
  {
    hide RunOf, Faithful, AfterPuts;
    if c.request.window.None? {
      return Err(ErrorInfo(ValueError, None));
    }
    var day := c.request.window.value;
    var reply := Ask(backend, c, ListInterval(c.request.calendarId, DayWindow(day.0, day.1)), before, LookingUp);
    var events := AsEvents(reply);
    if events.Err? {
      return Err(events.error.info);
    }
    var event := FindEvent(events.value, c.request.eventId);
    if event.None? {
      return Err(ErrorInfo(EventNotFound, None));
    }
    if Unsafe(event.value, c.request.calendarId) {
      return Err(ErrorInfo(UnsupportedEvent, None));
    }
    return Ok(event.value);
  }

  method ConfirmAttendees(backend: CallBackend, c: Call, b: Before, ack: WriteResult, ghost before: map<Key, Receipt>)
      returns (result: Result<WriteResult, ErrorInfo>)
    requires c.request.SetAttendees? && At(backend, before, c, ReadingBack(b, ack))
    modifies backend
    ensures match result
            case Ok(settled) => At(backend, before, c, Settling(b, settled))
            case Err(info) => At(backend, before, c, Closing(Raised(info)))
  {
    hide RunOf, Faithful, AfterPuts;
    var day := c.request.window.value;
    var reply := Ask(backend, c, ListInterval(c.request.calendarId, DayWindow(day.0, day.1)), before, ReadingBack(b, ack));
    var events := AsEvents(reply);
    if events.Err? {
      return if events.error.Escaping? then Err(events.error.info) else Ok(ack);
    }
    return Ok(JudgeAttendees(c.request, b, events.value));
  }
}
