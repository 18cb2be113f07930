/**
 * Each write tool from its lookup to its answer, written out reply by reply: what must have been read before the mutation,
 * how the mutation's reply is taken, and how the readback is judged, field by field.
 */
module ToolScripts {
  import opened Common
  import opened Domain
  import opened WireForms
  import opened WriteTools
  import opened WriteProtocol
  import opened WriteEvidence
  import opened WriteScripts

  lemma SendFits(c: Call, b: Before, reply: Reply)
    requires PhaseFits(c, Sending(b))
    ensures var q := AfterSend(c.request, b, reply);
            && (q.Closing? || ((q.Refusing? || q.GivingUp? || q.Acknowledging? || q.Settling?) && q.before == b))
            && (q.Closing? ==> reply.Failed?)
            && (q.Acknowledging? ==> CanReadBack(c.request, b, q.ack) && q.ack.outcome == Acknowledged)
  {
    AfterSendFits(c, b, reply);
  }

  /** An acknowledged mutation leads to its readback. */
  lemma AcknowledgedRead(c: Call, t: Trace, k: nat, answer: Answer) returns (ack: WriteResult, reply: Reply)
    requires RunOf(c, t) == Some(Closing(answer)) && k + 2 < |t| && IsSend(t[k]) && !t[k].reply.Failed?
    ensures RunOf(c, t[..k]).Some? && RunOf(c, t[..k]).value.Sending?
    ensures Wrote(t[k + 1], Succeeded, Some(StoredResult(ack))) && ack.outcome == Acknowledged
    ensures t[k + 1].Put? && t[k + 1].receipt.upstreamId == Some(StoredResult(ack))
    ensures var b := RunOf(c, t[..k]).value.before;
            && BeforeFits(c.request, b) && CanReadBack(c.request, b, ack)
            && t[k + 2] == Exchanged(ReadbackCall(c.request, b), reply)
            && RunOf(c, t[..k + 3]) == Some(AfterReadback(c.request, b, ack, reply))
  {
    hide *;
    SendStands(c, t, k);
    var b, q := RunOf(c, t[..k]).value.before, RunOf(c, t[..k + 1]).value;
    SendFits(c, b, t[k].reply);
    KnownFits(c, RunOf(c, t[..k]).value);
    Ends(c, t, k + 1, answer);
    if q.GivingUp? {
      GivenUpSo(c, t, k + 1, b, answer);
    } else if q.Settling? {
      SettledSo(c, t, k + 1, b, q.result, answer);
    } else if q.Refusing? {
      Refuses(c, b, q.info);
      PutThenAnswer(c, t, k + 1, q, Raised(q.info), answer);
    }
    assert q.Acknowledging?;
    ack := q.ack;
    AcknowledgedSo(c, t, k + 1, b, ack, answer);
    reply := t[k + 2].reply;
  }

  // ----- what comes right before a mutation -----

  lemma SendingAfterOpening(c: Call, p: Phase, e: Effect, b: Before)
    requires PhaseFits(c, p) && Allowed(c, p, e) && NextPhase(c, p, e) == Sending(b)
    ensures p == Opening(b) && Wrote(e, Pending, None)
  {
    hide AfterSend, AfterReadback, DigestOf, FormOf;
    if p.Sending? {
      AfterSendFits(c, p.before, e.reply);
    } else if p.ReadingBack? {
      ReadbackLeads(c, p.before, p.ack, e.reply);
    }
  }

  /** A call opens its receipt after it has looked it up in vain, has met the item, or has met the event. */
  lemma OpeningAfterLookup(c: Call, p: Phase, e: Effect, b: Before)
    requires PhaseFits(c, p) && Allowed(c, p, e) && NextPhase(c, p, e) == Opening(b)
    ensures match c.request
            case AddItem(_, _, _) => p.Checking? && e == Got(None)
            case CreateEvent(_, _, _) => p.Checking? && e == Got(None)
            case SetAttendees(_, _, _, _) => p.LookingUp? && e.Exchanged? && AfterLookup(c.request, e.reply) == Opening(b)
            case _ => p.Scanning? && e.Exchanged? && AfterScan(c.request, p.remaining, e.reply) == Opening(b)
  {
    hide AfterSend, AfterReadback, DigestOf, FormOf;
    if p.Sending? {
      AfterSendFits(c, p.before, e.reply);
    } else if p.ReadingBack? {
      ReadbackLeads(c, p.before, p.ack, e.reply);
    }
  }

  lemma NotAtFirst(c: Call)
    ensures FirstPhase(c).Checking? || FirstPhase(c).Closing?
  {
  }

  /** The pending receipt is written right before the mutation, and the target is read right before that. */
  lemma OpenedRightBefore(c: Call, t: Trace, k: nat)
    requires RunOf(c, t).Some? && k < |t| && IsSend(t[k])
    ensures k >= 2 && Wrote(t[k - 1], Pending, None) && RunOf(c, t[..k]).Some? && RunOf(c, t[..k]).value.Sending?
    ensures var b := RunOf(c, t[..k]).value.before;
            && RunOf(c, t[..k - 2]).Some? && Allowed(c, RunOf(c, t[..k - 2]).value, t[k - 2])
            && NextPhase(c, RunOf(c, t[..k - 2]).value, t[k - 2]) == Opening(b)
  {
    hide *;
    SendStands(c, t, k);
    NotAtFirst(c);
    Started(c, t);
    Onwards(c, t, k - 1);
    SendingAfterOpening(c, RunOf(c, t[..k - 1]).value, t[k - 1], RunOf(c, t[..k]).value.before);
    Onwards(c, t, k - 2);
  }

  /** An item is set or marked only as it was last read: in the accessible list that was read right before the receipt was opened. */
  lemma ItemReadRightBefore(c: Call, t: Trace, k: nat)
    requires RunOf(c, t).Some? && k < |t| && IsSend(t[k]) && (c.request.SetAssignees? || c.request.SetChecked?)
    ensures FormError(c.request) == None
    ensures t[k].call == Mutate(if c.request.SetAssignees? then "taskupdate2" else "taskmark", FormOf(c.request))
    ensures k >= 2 && Wrote(t[k - 1], Pending, None)
    ensures t[k - 2].Exchanged? && t[k - 2].call.GetList? && t[k - 2].reply.Items?
    ensures RunOf(c, t[..k]).Some? && RunOf(c, t[..k]).value.Sending?
    ensures var items, b := t[k - 2].reply.items, RunOf(c, t[..k]).value.before;
            && (exists x :: FirstItemAt(items, c.request.itemId, x))
            && forall x :: FirstItemAt(items, c.request.itemId, x) ==> b == FoundItem(t[k - 2].call.listId, items[x])
  {
    hide *;
    SendStands(c, t, k);
    ToolNames(c.request, Unclear, SetCheckedResult(Unclear));
    OpenedRightBefore(c, t, k);
    var p, b := RunOf(c, t[..k - 2]).value, RunOf(c, t[..k]).value.before;
    OpeningAfterLookup(c, p, t[k - 2], b);
    ScanMeets(c, p, t[k - 2], b);
  }

  /** The scan goes on to open the receipt when the list that it reads holds the item. */
  lemma ScanMeets(c: Call, p: Phase, e: Effect, b: Before)
    requires PhaseFits(c, p) && Allowed(c, p, e) && p.Scanning? && AfterScan(c.request, p.remaining, e.reply) == Opening(b)
    ensures e.Exchanged? && e.call == GetList(p.remaining[0]) && e.reply.Items?
    ensures var items := e.reply.items;
            && (exists x :: FirstItemAt(items, c.request.itemId, x))
            && forall x :: FirstItemAt(items, c.request.itemId, x) ==> b == FoundItem(p.remaining[0], items[x])
  {
    var x := FirstOfFound(e.reply.items, c.request.itemId);
    forall y | FirstItemAt(e.reply.items, c.request.itemId, y)
      ensures y == x
    {
    }
  }

  /**
   * Attendees are set only of an event that was read right before the receipt was opened, in the requested day and calendar:
   * editable, neither recurring nor an exception in a series, an ordinary event, and timed.
   */
  lemma EventReadRightBefore(c: Call, t: Trace, k: nat)
    requires RunOf(c, t).Some? && k < |t| && IsSend(t[k]) && c.request.SetAttendees?
    ensures FormError(c.request) == None && t[k].call == Mutate("evtupdate", FormOf(c.request))
    ensures k >= 2 && Wrote(t[k - 1], Pending, None) && c.request.window.Some?
    ensures var day := c.request.window.value;
            t[k - 2].Exchanged? && t[k - 2].call == ListInterval(c.request.calendarId, DayWindow(day.0, day.1)) && t[k - 2].reply.Events?
    ensures RunOf(c, t[..k]).Some? && RunOf(c, t[..k]).value.Sending?
    ensures var events, b := t[k - 2].reply.events, RunOf(c, t[..k]).value.before;
            && (exists x :: FirstEventAt(events, c.request.eventId, x))
            && forall x :: FirstEventAt(events, c.request.eventId, x) ==>
                 var e := events[x];
                 && b == FoundEvent(e) && e.calendarId == Some(c.request.calendarId) && e.editable == Some(true)
                 && !e.isRecurring && !e.isSeriesException && e.eventType == "UNKNOWN" && e.span.Timed?
  {
    hide *;
    SendStands(c, t, k);
    ToolNames(c.request, Unclear, SetCheckedResult(Unclear));
    OpenedRightBefore(c, t, k);
    var p, b := RunOf(c, t[..k - 2]).value, RunOf(c, t[..k]).value.before;
    OpeningAfterLookup(c, p, t[k - 2], b);
    LookupMeets(c, p, t[k - 2], b);
  }

  /** The lookup goes on to open the receipt when it meets the event and the event passes every gate. */
  lemma LookupMeets(c: Call, p: Phase, e: Effect, b: Before)
    requires PhaseFits(c, p) && Allowed(c, p, e) && p.LookingUp? && AfterLookup(c.request, e.reply) == Opening(b)
    ensures e.Exchanged? && e.reply.Events? && c.request.SetAttendees? && c.request.window.Some?
    ensures e.call == ListInterval(c.request.calendarId, DayWindow(c.request.window.value.0, c.request.window.value.1))
    ensures var events := e.reply.events;
            && (exists x :: FirstEventAt(events, c.request.eventId, x))
            && forall x :: FirstEventAt(events, c.request.eventId, x) ==>
                 var e := events[x];
                 && b == FoundEvent(e) && e.calendarId == Some(c.request.calendarId) && e.editable == Some(true)
                 && !e.isRecurring && !e.isSeriesException && e.eventType == "UNKNOWN" && e.span.Timed?
  {
    var x := FirstOfFoundEvent(e.reply.events, c.request.eventId);
    forall y | FirstEventAt(e.reply.events, c.request.eventId, y)
      ensures y == x
    {
    }
  }

  // ----- adding an item -----

  /**
   * An accepted taskcreate2: without an ID its outcome is unknown; without a list it is acknowledged; with another list the
   * item is misfiled; with the requested list the acknowledgement is recorded and that list is read back.
   */
  lemma ItemCreated(c: Call, t: Trace, k: nat, answer: Answer)
    requires c.request.AddItem? && RunOf(c, t) == Some(Closing(answer)) && k < |t| && IsSend(t[k]) && !t[k].reply.Failed?
    ensures var reply, listId := t[k].reply, c.request.listId;
            var id := if !reply.Created? then None
                      else if reply.metaId.Some? && reply.metaId.value != "" then reply.metaId
                      else if reply.taskId.Some? && reply.taskId.value != "" then reply.taskId
                      else None;
            var ack := AddItemResult(Acknowledged, id, None, None, []);
            if id.None? then
              |t| == k + 2 && Wrote(t[k + 1], Unknown, None) && answer == Returned(AddItemResult(Unclear, None, None, None, []))
            else if reply.taskListId.None? || reply.taskListId.value == "" then
              SettledWith(t, k + 1, answer, ack)
            else if reply.taskListId.value != listId then
              SettledWith(t, k + 1, answer, AddItemResult(Misfiled, id, reply.taskListId, Some(listId), []))
            else
              && |t| >= k + 3 && Wrote(t[k + 1], Succeeded, Some(StoredResult(ack)))
              && t[k + 2].Exchanged? && t[k + 2].call == GetList(listId)
  {
    SendStands(c, t, k);
    var b, q := RunOf(c, t[..k]).value.before, RunOf(c, t[..k + 1]).value;
    hide RunOf, FormError, Endpoint, FormOf, AfterReadback;
    if q.GivingUp? {
      GivenUpSo(c, t, k + 1, b, answer);
    } else if q.Settling? {
      SettledSo(c, t, k + 1, b, q.result, answer);
    } else {
      AcknowledgedSo(c, t, k + 1, b, q.ack, answer);
    }
  }

  /** Everyone is flagged as everyone; named members as named, and they are the same. */
  lemma ShownMeans(toAll: Option<bool>, ids: seq<string>, a: Assignment)
    ensures AssignmentShown(toAll, ids, a) <==>
            if a.toAll then toAll == Some(true) else toAll == Some(false) && forall i :: i in ids <==> i in a.accountIds
  {
    assert forall i :: i in ids <==> i in IdSet(ids);
    assert forall i :: i in a.accountIds <==> i in IdSet(a.accountIds);
  }

  lemma AddedItemJudged(r: Request, b: Before, id: string, reply: Reply)
    requires r.AddItem?
    ensures var ack, a := AddItemResult(Acknowledged, Some(id), None, None, []), r.assignment;
            CanReadBack(r, b, ack) &&
            var q := AfterReadback(r, b, ack, reply);
            match reply
            case Failed(Indeterminate(_)) => q == Settling(b, ack)
            case Failed(e) => q == Closing(Raised(e.info))
            case Items(items) =>
              && ((forall item :: item in items ==> item.itemId != id) ==> q == Settling(b, ack))
              && forall x :: FirstItemAt(items, id, x) ==>
                   var item := items[x];
                   var shown := if a.toAll then item.toAll == Some(true)
                                else item.toAll == Some(false) && forall i :: i in item.assigneeIds <==> i in a.accountIds;
                   q == Settling(b, if shown then AddItemResult(Confirmed, Some(id), None, None, [])
                                    else AddItemResult(Mismatched, Some(id), None, None, ["assignees"]))
            case _ => q == Settling(b, ack)
  {
    if reply.Items? {
      forall x | FirstItemAt(reply.items, id, x)
        ensures FindItem(reply.items, id) == Some(reply.items[x])
      {
        FindsFirstItem(reply.items, id, x);
      }
      var found := FindItem(reply.items, id);
      if found.Some? {
        ShownMeans(found.value.toAll, found.value.assigneeIds, r.assignment);
      }
    }
  }

  /** The readback of an added item: confirmed exactly when the first item with its ID carries the requested assignment. */
  lemma AddedItemRead(c: Call, t: Trace, k: nat, id: string, answer: Answer)
    requires c.request.AddItem? && RunOf(c, t) == Some(Closing(answer)) && k + 2 < |t| && IsSend(t[k]) && !t[k].reply.Failed?
    requires Wrote(t[k + 1], Succeeded, Some(StoredResult(AddItemResult(Acknowledged, Some(id), None, None, []))))
    ensures t[k + 2].Exchanged?
    ensures var ack, a := AddItemResult(Acknowledged, Some(id), None, None, []), c.request.assignment;
            match t[k + 2].reply
            case Failed(Indeterminate(_)) => SettledWith(t, k + 3, answer, ack)
            case Failed(e) => |t| == k + 3 && answer == Raised(e.info)
            case Items(items) =>
              && ((forall item :: item in items ==> item.itemId != id) ==> SettledWith(t, k + 3, answer, ack))
              && forall x :: FirstItemAt(items, id, x) ==>
                   var item := items[x];
                   var shown := if a.toAll then item.toAll == Some(true)
                                else item.toAll == Some(false) && forall i :: i in item.assigneeIds <==> i in a.accountIds;
                   SettledWith(t, k + 3, answer, if shown then AddItemResult(Confirmed, Some(id), None, None, [])
                                                 else AddItemResult(Mismatched, Some(id), None, None, ["assignees"]))
            case _ => SettledWith(t, k + 3, answer, ack)
  {
    hide RunOf, FormError, Endpoint, FormOf, AfterReadback, AfterSend, SettledWith, Allowed, PhaseFits, FirstItemAt;
    var ack, reply := AcknowledgedRead(c, t, k, answer);
    AddedItemJudged(c.request, RunOf(c, t[..k]).value.before, id, reply);
    OutcomeOfReadback(c, RunOf(c, t[..k]).value.before, ack, reply);
    ReadbackSettles(c, t, k + 3, AfterReadback(c.request, RunOf(c, t[..k]).value.before, ack, reply), answer);
  }

  // ----- marking an item -----

  /** An accepted taskmark is confirmed without a readback. */
  lemma ItemMarked(c: Call, t: Trace, k: nat, answer: Answer)
    requires c.request.SetChecked? && RunOf(c, t) == Some(Closing(answer)) && k < |t| && IsSend(t[k]) && !t[k].reply.Failed?
    ensures SettledWith(t, k + 1, answer, SetCheckedResult(Confirmed))
  {
    SendStands(c, t, k);
    hide RunOf, FormError, Endpoint, FormOf, SettledWith;
    SettledSo(c, t, k + 1, RunOf(c, t[..k]).value.before, SetCheckedResult(Confirmed), answer);
  }

  // ----- creating an event -----

  lemma CreatedReplyTaken(r: Request, b: Before, reply: Reply)
    requires r.CreateEvent? && !reply.Failed?
    ensures var id := if !reply.Created? then None
                      else if reply.eventId.Some? && exists x :: x in reply.eventId.value && x !in WHITE_SPACE then reply.eventId
                      else if reply.metaId.Some? && exists x :: x in reply.metaId.value && x !in WHITE_SPACE then reply.metaId
                      else None;
            var ack := CreateEventResult(Acknowledged, id, [], None);
            AfterSend(r, b, reply) == if id.None? then Settling(b, ack) else Acknowledging(b, ack)
  {
    hide IsSpace;
    forall x
      ensures IsSpace(x) <==> x in WHITE_SPACE
    {
      WhiteSpace(x);
    }
  }

  /**
   * An accepted evtcreate: acknowledged, with the event ID of the reply, or else its meta ID, a blank one being none.
   * With an ID the acknowledgement is recorded and the calendar read back around the requested times.
   */
  lemma EventCreated(c: Call, t: Trace, k: nat, answer: Answer)
    requires c.request.CreateEvent? && RunOf(c, t) == Some(Closing(answer)) && k < |t| && IsSend(t[k]) && !t[k].reply.Failed?
    ensures var reply, e := t[k].reply, c.request.event;
            var id := if !reply.Created? then None
                      else if reply.eventId.Some? && exists x :: x in reply.eventId.value && x !in WHITE_SPACE then reply.eventId
                      else if reply.metaId.Some? && exists x :: x in reply.metaId.value && x !in WHITE_SPACE then reply.metaId
                      else None;
            if id.None? then SettledWith(t, k + 1, answer, CreateEventResult(Acknowledged, None, [], None))
            else
              && |t| >= k + 3 && Wrote(t[k + 1], Succeeded, Some(StoredResult(CreateEventResult(Acknowledged, id, [], None))))
              && t[k + 2].Exchanged? && t[k + 2].call == ListInterval(c.request.calendarId, AroundWindow(e.start, e.end))
  {
    hide RunOf, FormError, Endpoint, FormOf, AfterReadback, AfterSend, SettledWith, CanReadBack;
    SendStands(c, t, k);
    var b, q := RunOf(c, t[..k]).value.before, RunOf(c, t[..k + 1]).value;
    CreatedReplyTaken(c.request, b, t[k].reply);
    if q.Settling? {
      SettledSo(c, t, k + 1, b, q.result, answer);
    } else {
      AcknowledgedSo(c, t, k + 1, b, q.ack, answer);
    }
  }

  /** The fields in which an event differs from the one requested, by name and in this order. */
  lemma CreatedNames(e: CalendarEvent, wanted: NewTimedEvent, a: Assignment, calendarId: string)
    ensures var shown := if a.toAll then e.toAll == Some(true)
                         else e.toAll == Some(false) && forall i :: i in e.attendeeIds <==> i in a.accountIds;
            CreatedMismatches(e, wanted, a, calendarId) ==
            (if e.title != wanted.title then ["title"] else [])
            + (if e.span.AllDay? then ["all_day"]
               else (if e.span.start != wanted.start.instant then ["start"] else [])
                    + (if e.span.end != wanted.end.instant then ["end"] else []))
            + (if e.eventTimezone != Some(wanted.timezone) then ["timezone"] else [])
            + (if OrEmpty(e.location) != OrEmpty(wanted.location) then ["location"] else [])
            + (if OrEmpty(e.description) != OrEmpty(wanted.description) then ["description"] else [])
            + (if e.isRecurring || e.isSeriesException then ["recurrence"] else [])
            + (if e.calendarId != Some(calendarId) then ["calendar"] else [])
            + (if !shown then ["attendees"] else [])
            + (if e.reminders != Some([Reminder("SNOOZE", "MINUTE", "30")]) then ["reminder"] else [])
  {
    ShownMeans(e.toAll, e.attendeeIds, a);
    hide AssignmentShown, OrEmpty;
  }

  lemma CreatedEventJudged(r: Request, b: Before, id: string, reply: Reply)
    requires r.CreateEvent?
    ensures var ack, a, wanted := CreateEventResult(Acknowledged, Some(id), [], None), r.assignment, r.event;
            CanReadBack(r, b, ack) &&
            var q := AfterReadback(r, b, ack, reply);
            match reply
            case Failed(Escaping(info)) => q == Closing(Raised(info))
            case Events(events) =>
              && ((forall e :: e in events ==> e.occurrenceId != id) ==> q == Settling(b, ack))
              && forall x :: FirstEventAt(events, id, x) ==>
                   var e := events[x];
                   var names := CreatedMismatches(e, wanted, a, r.calendarId);
                   q == Settling(b, if names == [] then CreateEventResult(Confirmed, Some(id), [], None)
                                    else CreateEventResult(Mismatched, Some(id), names, Some(e.span)))
            case _ => q == Settling(b, ack)
  {
    if reply.Events? {
      forall x | FirstEventAt(reply.events, id, x)
        ensures FindEvent(reply.events, id) == Some(reply.events[x])
      {
        FindsFirstEvent(reply.events, id, x);
      }
      hide CreatedMismatches;
    }
  }

  /** The readback of a created event: confirmed exactly when the first event with its ID differs in no field. */
  lemma CreatedEventRead(c: Call, t: Trace, k: nat, id: string, answer: Answer)
    requires c.request.CreateEvent? && RunOf(c, t) == Some(Closing(answer)) && k + 2 < |t| && IsSend(t[k]) && !t[k].reply.Failed?
    requires Wrote(t[k + 1], Succeeded, Some(StoredResult(CreateEventResult(Acknowledged, Some(id), [], None))))
    ensures t[k + 2].Exchanged?
    ensures var ack, r := CreateEventResult(Acknowledged, Some(id), [], None), c.request;
            match t[k + 2].reply
            case Failed(Escaping(info)) => |t| == k + 3 && answer == Raised(info)
            case Events(events) =>
              && ((forall e :: e in events ==> e.occurrenceId != id) ==> SettledWith(t, k + 3, answer, ack))
              && forall x :: FirstEventAt(events, id, x) ==>
                   var names := CreatedMismatches(events[x], r.event, r.assignment, r.calendarId);
                   SettledWith(t, k + 3, answer, if names == [] then CreateEventResult(Confirmed, Some(id), [], None)
                                                 else CreateEventResult(Mismatched, Some(id), names, Some(events[x].span)))
            case _ => SettledWith(t, k + 3, answer, ack)
  {
    hide RunOf, FormError, Endpoint, FormOf, AfterReadback, AfterSend, SettledWith, Allowed, PhaseFits, FirstEventAt, CreatedMismatches;
    var ack, reply := AcknowledgedRead(c, t, k, answer);
    CreatedEventJudged(c.request, RunOf(c, t[..k]).value.before, id, reply);
    OutcomeOfReadback(c, RunOf(c, t[..k]).value.before, ack, reply);
    ReadbackSettles(c, t, k + 3, AfterReadback(c.request, RunOf(c, t[..k]).value.before, ack, reply), answer);
  }

  // ----- setting who an item is assigned to -----

  /** The fields in which an item differs from what it was, or from the assignment, by name and in this order. */
  lemma ItemNames(item: ListItem, before: ListItem, a: Assignment)
    ensures var shown := if a.toAll then item.toAll == Some(true)
                         else item.toAll == Some(false) && forall i :: i in item.assigneeIds <==> i in a.accountIds;
            ItemMismatches(item, before, a) ==
            (if !shown then ["assignees"] else [])
            + (if item.text != before.text then ["text"] else [])
            + (if item.description != before.description then ["description"] else [])
            + (if item.completed != before.completed then ["completed"] else [])
            + (if item.listId != before.listId then ["list_id"] else [])
            + (if item.dueDate != before.dueDate then ["due_date"] else [])
            + (if item.reminder != before.reminder then ["reminder"] else [])
  {
    ShownMeans(item.toAll, item.assigneeIds, a);
    hide AssignmentShown;
  }

  /** Setting assignees or attendees has nothing to learn from an accepted reply: it always reads back. */
  lemma AcceptedLeadsOn(c: Call, t: Trace, k: nat, ack: WriteResult, answer: Answer)
    requires RunOf(c, t) == Some(Closing(answer)) && k < |t| && IsSend(t[k]) && !t[k].reply.Failed?
    requires c.request.SetAssignees? || c.request.SetAttendees?
    requires ack == if c.request.SetAssignees? then SetAssigneesResult(Acknowledged, [])
                    else SetAttendeesResult(Acknowledged, c.request.eventId, [])
    ensures |t| >= k + 3 && t[k + 1].Put? && Wrote(t[k + 1], Succeeded, Some(StoredResult(ack)))
    ensures t[k + 1].receipt.upstreamId == Some(StoredResult(ack))
  {
    SendStands(c, t, k);
    hide RunOf, FormError, Endpoint, FormOf, ReadbackCall, AfterReadback, CanReadBack;
    AcknowledgedSo(c, t, k + 1, RunOf(c, t[..k]).value.before, ack, answer);
  }

  lemma AssignedItemJudged(r: Request, b: Before, reply: Reply)
    requires r.SetAssignees? && b.FoundItem?
    ensures var ack := SetAssigneesResult(Acknowledged, []);
            CanReadBack(r, b, ack) && ReadbackCall(r, b) == GetList(b.inList) &&
            var q := AfterReadback(r, b, ack, reply);
            match reply
            case Failed(Indeterminate(_)) => q == Settling(b, ack)
            case Failed(e) => q == Closing(Raised(e.info))
            case Items(items) =>
              && ((forall item :: item in items ==> item.itemId != r.itemId) ==> q == Settling(b, ack))
              && forall x :: FirstItemAt(items, r.itemId, x) ==>
                   var names := ItemMismatches(items[x], b.item, r.assignment);
                   q == Settling(b, SetAssigneesResult(if names == [] then Confirmed else Mismatched, names))
            case _ => q == Settling(b, ack)
  {
    if reply.Items? {
      forall x | FirstItemAt(reply.items, r.itemId, x)
        ensures FindItem(reply.items, r.itemId) == Some(reply.items[x])
      {
        FindsFirstItem(reply.items, r.itemId, x);
      }
      hide ItemMismatches;
    }
  }

  /**
   * An accepted taskupdate2: the acknowledgement is recorded, and the list in which the item was found is read back.  It is
   * confirmed exactly when the item carries the assignment and is otherwise as it was found.
   */
  lemma AssigneesSet(c: Call, t: Trace, k: nat, answer: Answer)
    requires c.request.SetAssignees? && RunOf(c, t) == Some(Closing(answer)) && k < |t| && IsSend(t[k]) && !t[k].reply.Failed?
    ensures k >= 2 && |t| >= k + 3 && t[k - 2].Exchanged? && t[k - 2].call.GetList? && t[k - 2].reply.Items?
    ensures Wrote(t[k + 1], Succeeded, Some(StoredResult(SetAssigneesResult(Acknowledged, []))))
    ensures t[k + 2].Exchanged? && t[k + 2].call == t[k - 2].call
    ensures var ack, r, found := SetAssigneesResult(Acknowledged, []), c.request, t[k - 2].reply.items;
            match t[k + 2].reply
            case Failed(Indeterminate(_)) => SettledWith(t, k + 3, answer, ack)
            case Failed(e) => |t| == k + 3 && answer == Raised(e.info)
            case Items(items) =>
              && ((forall item :: item in items ==> item.itemId != r.itemId) ==> SettledWith(t, k + 3, answer, ack))
              && forall x, y :: FirstItemAt(items, r.itemId, x) && FirstItemAt(found, r.itemId, y) ==>
                   var names := ItemMismatches(items[x], found[y], r.assignment);
                   SettledWith(t, k + 3, answer, SetAssigneesResult(if names == [] then Confirmed else Mismatched, names))
            case _ => SettledWith(t, k + 3, answer, ack)
  {
    hide *;
    ItemReadRightBefore(c, t, k);
    AcceptedLeadsOn(c, t, k, SetAssigneesResult(Acknowledged, []), answer);
    var ack, reply := AcknowledgedRead(c, t, k, answer);
    var b := RunOf(c, t[..k]).value.before;
    AssignedItemJudged(c.request, b, reply);
    OutcomeOfReadback(c, b, ack, reply);
    ReadbackSettles(c, t, k + 3, AfterReadback(c.request, b, ack, reply), answer);
  }

  // ----- setting who attends an event -----

  /** The fields in which an event differs from what it was, or from the attendees asked for, by name and in this order. */
  lemma AttendeeNames(before: CalendarEvent, e: CalendarEvent, a: Assignment)
    ensures var shown := if a.toAll then e.toAll == Some(true)
                         else e.toAll == Some(false) && forall i :: i in e.attendeeIds <==> i in a.accountIds;
            AttendeeMismatches(before, e, a) ==
            (if e.title != before.title then ["title"] else [])
            + (if before.span.Timed? && e.span.Timed? then
                 (if e.span.start != before.span.start then ["start"] else []) + (if e.span.end != before.span.end then ["end"] else [])
               else if before.span.Timed? || e.span.Timed? then ["all_day"] else [])
            + (if e.eventTimezone != before.eventTimezone then ["timezone"] else [])
            + (if OrEmpty(e.location) != OrEmpty(before.location) then ["location"] else [])
            + (if OrEmpty(e.description) != OrEmpty(before.description) then ["description"] else [])
            + (if e.isRecurring != before.isRecurring || e.isSeriesException != before.isSeriesException then ["recurrence"] else [])
            + (if e.calendarId != before.calendarId then ["calendar"] else [])
            + (if !shown then ["attendees"] else [])
            + (if e.reminders != before.reminders then ["reminder"] else [])
  {
    ShownMeans(e.toAll, e.attendeeIds, a);
    hide AssignmentShown, OrEmpty;
  }

  lemma AttendeesJudged(r: Request, b: Before, reply: Reply)
    requires r.SetAttendees? && b.FoundEvent? && r.window.Some?
    ensures var ack := SetAttendeesResult(Acknowledged, r.eventId, []);
            && CanReadBack(r, b, ack)
            && ReadbackCall(r, b) == ListInterval(r.calendarId, DayWindow(r.window.value.0, r.window.value.1)) &&
            var q := AfterReadback(r, b, ack, reply);
            match reply
            case Failed(Escaping(info)) => q == Closing(Raised(info))
            case Events(events) =>
              && ((forall e :: e in events ==> e.occurrenceId != r.eventId) ==> q == Settling(b, ack))
              && forall x :: FirstEventAt(events, r.eventId, x) ==>
                   var names := AttendeeMismatches(b.event, events[x], r.assignment);
                   q == Settling(b, SetAttendeesResult(if names == [] then Confirmed else Mismatched, r.eventId, names))
            case _ => q == Settling(b, ack)
  {
    if reply.Events? {
      forall x | FirstEventAt(reply.events, r.eventId, x)
        ensures FindEvent(reply.events, r.eventId) == Some(reply.events[x])
      {
        FindsFirstEvent(reply.events, r.eventId, x);
      }
      hide AttendeeMismatches;
    }
  }

  /**
   * An accepted evtupdate: the acknowledgement is recorded, and the same day is read again.  It is confirmed exactly when the
   * event carries the attendees and is otherwise as it was read before the mutation.
   */
  lemma AttendeesSet(c: Call, t: Trace, k: nat, answer: Answer)
    requires c.request.SetAttendees? && RunOf(c, t) == Some(Closing(answer)) && k < |t| && IsSend(t[k]) && !t[k].reply.Failed?
    ensures k >= 2 && |t| >= k + 3 && t[k - 2].Exchanged? && t[k - 2].reply.Events?
    ensures Wrote(t[k + 1], Succeeded, Some(StoredResult(SetAttendeesResult(Acknowledged, c.request.eventId, []))))
    ensures t[k + 2].Exchanged? && t[k + 2].call == t[k - 2].call
    ensures var ack, r, found := SetAttendeesResult(Acknowledged, c.request.eventId, []), c.request, t[k - 2].reply.events;
            match t[k + 2].reply
            case Failed(Escaping(info)) => |t| == k + 3 && answer == Raised(info)
            case Events(events) =>
              && ((forall e :: e in events ==> e.occurrenceId != r.eventId) ==> SettledWith(t, k + 3, answer, ack))
              && forall x, y :: FirstEventAt(events, r.eventId, x) && FirstEventAt(found, r.eventId, y) ==>
                   var names := AttendeeMismatches(found[y], events[x], r.assignment);
                   SettledWith(t, k + 3, answer, SetAttendeesResult(if names == [] then Confirmed else Mismatched, r.eventId, names))
            case _ => SettledWith(t, k + 3, answer, ack)
  {
    hide *;
    EventReadRightBefore(c, t, k);
    AcceptedLeadsOn(c, t, k, SetAttendeesResult(Acknowledged, c.request.eventId, []), answer);
    var ack, reply := AcknowledgedRead(c, t, k, answer);
    var b := RunOf(c, t[..k]).value.before;
    AttendeesJudged(c.request, b, reply);
    OutcomeOfReadback(c, b, ack, reply);
    ReadbackSettles(c, t, k + 3, AfterReadback(c.request, b, ack, reply), answer);
  }

  // ----- from the missing receipt to the mutation -----

  lemma Misses(c: Call, t: Trace, answer: Answer)
    requires RunOf(c, t) == Some(Closing(answer)) && t != [] && t[0] == Got(None)
    ensures FormError(c.request) == None && RunOf(c, t[..1]) == Some(AfterMiss(c.request))
  {
    Onwards(c, t, 0);
    assert t[..0] == [];
    hide FormError, AfterMiss;
  }

  lemma Opens(c: Call, t: Trace, i: nat, b: Before, answer: Answer)
    requires RunOf(c, t) == Some(Closing(answer)) && i <= |t| && RunOf(c, t[..i]) == Some(Opening(b))
    ensures |t| >= i + 2 && Wrote(t[i], Pending, None) && IsSend(t[i + 1])
  {
    hide *;
    Ends(c, t, i, answer);
    Onwards(c, t, i);
    OpensThenSends(c, b, t[i]);
    Ends(c, t, i + 1, answer);
    Onwards(c, t, i + 1);
    OnlySends(c, b, t[i + 1]);
  }

  lemma OpensThenSends(c: Call, b: Before, e: Effect)
    requires PhaseFits(c, Opening(b)) && Allowed(c, Opening(b), e)
    ensures Wrote(e, Pending, None) && NextPhase(c, Opening(b), e) == Sending(b)
  {
  }

  lemma OnlySends(c: Call, b: Before, e: Effect)
    requires PhaseFits(c, Sending(b)) && Allowed(c, Sending(b), e)
    ensures IsSend(e)
  {
  }

  /** Adding an item and creating an event need no lookup: the pending receipt, then the mutation. */
  lemma SentAtOnce(c: Call, t: Trace, answer: Answer)
    requires RunOf(c, t) == Some(Closing(answer)) && t != [] && t[0] == Got(None) && (c.request.AddItem? || c.request.CreateEvent?)
    ensures |t| >= 3 && Wrote(t[1], Pending, None) && IsSend(t[2]) && FormError(c.request) == None
    ensures t[2].call == Mutate(if c.request.AddItem? then "taskcreate2" else "evtcreate", FormOf(c.request))
  {
    Misses(c, t, answer);
    hide RunOf, Wrote, FormError, Endpoint, FormOf;
    Opens(c, t, 1, Nothing, answer);
    SendStands(c, t, 2);
    ToolNames(c.request, Unclear, SetCheckedResult(Unclear));
  }

  /**
   * Setting attendees looks the event up in the local day and calendar.  An event that passes all six gates is written;
   * one that does not is refused as unsupported, and a missing one as not found, with nothing sent or written.
   */
  lemma EventLookedUp(c: Call, t: Trace, answer: Answer)
    requires c.request.SetAttendees? && RunOf(c, t) == Some(Closing(answer)) && t != [] && t[0] == Got(None)
    ensures c.request.window.None? ==> |t| == 1 && answer == Raised(ErrorInfo(ValueError, None))
    ensures c.request.window.Some? ==>
              var r, day := c.request, c.request.window.value;
              && |t| >= 2 && t[1].Exchanged? && t[1].call == ListInterval(r.calendarId, DayWindow(day.0, day.1))
              && match t[1].reply
                 case Failed(e) => |t| == 2 && answer == Raised(e.info)
                 case Events(events) =>
                   && ((forall e :: e in events ==> e.occurrenceId != r.eventId) ==>
                         |t| == 2 && answer == Raised(ErrorInfo(EventNotFound, None)))
                   && forall x :: FirstEventAt(events, r.eventId, x) ==>
                        var e := events[x];
                        if && e.calendarId == Some(r.calendarId) && e.editable == Some(true) && !e.isRecurring
                           && !e.isSeriesException && e.eventType == "UNKNOWN" && e.span.Timed?
                        then |t| >= 4 && Wrote(t[2], Pending, None) && IsSend(t[3])
                        else |t| == 2 && answer == Raised(ErrorInfo(UnsupportedEvent, None))
                 case _ => |t| == 2 && answer == Raised(ErrorInfo(MalformedPayload, None))
  {
    Misses(c, t, answer);
    hide RunOf, FormError, IsSend, Wrote;
    Ends(c, t, 1, answer);
    if c.request.window.Some? {
      Onwards(c, t, 1);
      Ends(c, t, 2, answer);
      LookupTaken(c.request, t[1].reply);
      var q := RunOf(c, t[..2]).value;
      hide AfterLookup, Allowed, PhaseFits, FirstEventAt;
      if q.Opening? {
        Opens(c, t, 2, q.before, answer);
      }
    }
  }

  lemma LookupTaken(r: Request, reply: Reply)
    requires r.SetAttendees?
    ensures match reply
            case Failed(e) => AfterLookup(r, reply) == Closing(Raised(e.info))
            case Events(events) =>
              && ((forall e :: e in events ==> e.occurrenceId != r.eventId) ==>
                    AfterLookup(r, reply) == Closing(Raised(ErrorInfo(EventNotFound, None))))
              && forall x :: FirstEventAt(events, r.eventId, x) ==>
                   var e := events[x];
                   AfterLookup(r, reply) ==
                   if && e.calendarId == Some(r.calendarId) && e.editable == Some(true) && !e.isRecurring
                      && !e.isSeriesException && e.eventType == "UNKNOWN" && e.span.Timed?
                   then Opening(FoundEvent(e)) else Closing(Raised(ErrorInfo(UnsupportedEvent, None)))
            case _ => AfterLookup(r, reply) == Closing(Raised(ErrorInfo(MalformedPayload, None)))
    ensures AfterLookup(r, reply).Opening? || AfterLookup(r, reply).Closing?
  {
    if reply.Events? {
      forall x | FirstEventAt(reply.events, r.eventId, x)
        ensures FindEvent(reply.events, r.eventId) == Some(reply.events[x])
      {
        FindsFirstEvent(reply.events, r.eventId, x);
      }
    }
  }

  /** The list at position `j` of the scan was read, and it does not hold the item. */
  predicate WithoutItem(t: Trace, ids: seq<string>, j: nat, itemId: string)
    requires j < |ids|
  {
    && 2 + j < |t| && t[2 + j].Exchanged? && t[2 + j].call == GetList(ids[j]) && t[2 + j].reply.Items?
    && forall item :: item in t[2 + j].reply.items ==> item.itemId != itemId
  }

  lemma ScanTaken(r: Request, lists: seq<string>, reply: Reply)
    requires (r.SetAssignees? || r.SetChecked?) && lists != []
    ensures var q := AfterScan(r, lists, reply);
            match reply
            case Failed(e) => q == Closing(Raised(e.info))
            case Items(items) =>
              if exists item :: item in items && item.itemId == r.itemId then q.Opening?
              else q == if |lists| == 1 then Closing(Raised(ErrorInfo(UnsupportedConfiguration, None))) else Scanning(lists[1..])
            case _ => q == Closing(Raised(ErrorInfo(MalformedPayload, None)))
  {
  }

  lemma ListsTaken(reply: Reply)
    ensures match reply
            case Failed(e) => AfterLists(reply) == Closing(Raised(e.info))
            case Lists(ids) =>
              AfterLists(reply) ==
              if exists id :: id in ids && !("taskList/" <= id) then Closing(Raised(ErrorInfo(MalformedPayload, None)))
              else if ids == [] then Closing(Raised(ErrorInfo(UnsupportedConfiguration, None)))
              else Scanning(ids)
            case _ => AfterLists(reply) == Closing(Raised(ErrorInfo(MalformedPayload, None)))
  {
  }

  lemma ScansNext(c: Call, lists: seq<string>, e: Effect)
    requires PhaseFits(c, Scanning(lists)) && Allowed(c, Scanning(lists), e)
    ensures lists != [] && e.Exchanged? && e.call == GetList(lists[0]) && (c.request.SetAssignees? || c.request.SetChecked?)
    ensures NextPhase(c, Scanning(lists), e) == AfterScan(c.request, lists, e.reply)
  {
  }

  /** How a scan goes on from the list at position `j`: it comes to position `m`, where it ends. */
  lemma {:induction false} ScannedFrom(c: Call, t: Trace, ids: seq<string>, j: nat, answer: Answer) returns (m: nat)
    requires RunOf(c, t) == Some(Closing(answer)) && j < |ids| && 2 + j <= |t| && RunOf(c, t[..2 + j]) == Some(Scanning(ids[j..]))
    ensures c.request.SetAssignees? || c.request.SetChecked?
    ensures j <= m <= |ids| && |t| >= 2 + m && forall i :: j <= i < m ==> WithoutItem(t, ids, i, c.request.itemId)
    ensures m == |ids| ==> |t| == 2 + m && answer == Raised(ErrorInfo(UnsupportedConfiguration, None))
    ensures m < |ids| ==>
              && |t| >= 3 + m && t[2 + m].Exchanged? && t[2 + m].call == GetList(ids[m])
              && match t[2 + m].reply
                 case Failed(e) => |t| == 3 + m && answer == Raised(e.info)
                 case Items(items) =>
                   && (exists item :: item in items && item.itemId == c.request.itemId)
                   && |t| >= 5 + m && Wrote(t[3 + m], Pending, None) && IsSend(t[4 + m])
                 case _ => |t| == 3 + m && answer == Raised(ErrorInfo(MalformedPayload, None))
    decreases |ids| - j
  {
    hide RunOf, Allowed, NextPhase, PhaseFits, AfterScan, Wrote, IsSend;
    Ends(c, t, 2 + j, answer);
    Onwards(c, t, 2 + j);
    ScansNext(c, ids[j..], t[2 + j]);
    assert ids[j..][0] == ids[j] && ids[j..][1..] == ids[j + 1..];
    ScanTaken(c.request, ids[j..], t[2 + j].reply);
    Ends(c, t, 3 + j, answer);
    var q := RunOf(c, t[..3 + j]).value;
    if q.Opening? {
      m := j;
      Opens(c, t, 3 + j, q.before, answer);
    } else if q.Scanning? {
      m := ScannedFrom(c, t, ids, j + 1, answer);
    } else {
      m := if t[2 + j].reply.Items? then j + 1 else j;
    }
  }

  lemma MissLists(r: Request)
    requires r.SetAssignees? || r.SetChecked?
    ensures AfterMiss(r) == Listing
  {
  }

  lemma ListsFirst(c: Call, e: Effect)
    requires PhaseFits(c, Listing) && Allowed(c, Listing, e)
    ensures e.Exchanged? && e.call == GetLists && NextPhase(c, Listing, e) == AfterLists(e.reply)
  {
  }

  /**
   * Setting assignees or marking an item reads the accessible lists, and then list after list until one holds the item.
   * Only then is anything written; an item in none of them is refused, and so is a list ID of another kind.
   */
  lemma ListsScanned(c: Call, t: Trace, answer: Answer) returns (m: nat)
    requires (c.request.SetAssignees? || c.request.SetChecked?) && RunOf(c, t) == Some(Closing(answer)) && t != [] && t[0] == Got(None)
    ensures |t| >= 2 && t[1].Exchanged? && t[1].call == GetLists
    ensures match t[1].reply
            case Failed(e) => |t| == 2 && answer == Raised(e.info)
            case Lists(ids) =>
              if exists id :: id in ids && !("taskList/" <= id) then |t| == 2 && answer == Raised(ErrorInfo(MalformedPayload, None))
              else
                && m <= |ids| && |t| >= 2 + m && (forall i :: 0 <= i < m ==> WithoutItem(t, ids, i, c.request.itemId))
                && (m == |ids| ==> |t| == 2 + m && answer == Raised(ErrorInfo(UnsupportedConfiguration, None)))
                && (m < |ids| ==>
                      && |t| >= 3 + m && t[2 + m].Exchanged? && t[2 + m].call == GetList(ids[m])
                      && match t[2 + m].reply
                         case Failed(e) => |t| == 3 + m && answer == Raised(e.info)
                         case Items(items) =>
                           && (exists item :: item in items && item.itemId == c.request.itemId)
                           && |t| >= 5 + m && Wrote(t[3 + m], Pending, None) && IsSend(t[4 + m])
                         case _ => |t| == 3 + m && answer == Raised(ErrorInfo(MalformedPayload, None)))
            case _ => |t| == 2 && answer == Raised(ErrorInfo(MalformedPayload, None))
  {
    hide *;
    Misses(c, t, answer);
    MissLists(c.request);
    Ends(c, t, 1, answer);
    Onwards(c, t, 1);
    ListsFirst(c, t[1]);
    ListsTaken(t[1].reply);
    Ends(c, t, 2, answer);
    m := 0;
    if RunOf(c, t[..2]).value.Scanning? {
      var ids := t[1].reply.listIds;
      assert ids[0..] == ids;
      m := ScannedFrom(c, t, ids, 0, answer);
    }
  }
}
