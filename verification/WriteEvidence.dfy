/** What a write call must have seen before it sent, and before it says "confirmed". */
module WriteEvidence {
  import opened Common
  import opened Domain
  import opened WireForms
  import opened WriteTools
  import opened WriteProtocol

  /** The nested scan met the item: in this call, in a list that this call saw as accessible. */
  ghost predicate ScanFound(t: Trace, itemId: string, inList: string, item: ListItem)
  {
    exists i, j, lists: Reply, items: Reply ::
      && 0 <= i < j < |t| && t[i] == Exchanged(GetLists, lists) && t[j] == Exchanged(GetList(inList), items)
      && AsLists(lists).Ok? && inList in AsLists(lists).value
      && AsItems(items).Ok? && FindItem(AsItems(items).value, itemId) == Some(item)
  }

  /** The lookup met the event in the requested day, and every safety gate passed. */
  ghost predicate LookupPassed(c: Call, t: Trace, event: CalendarEvent)
    requires LooksUp(c.request)
  {
    var day := c.request.window.value;
    !Unsafe(event, c.request.calendarId)
    && exists i, events: Reply ::
         && 0 <= i < |t| && t[i] == Exchanged(ListInterval(c.request.calendarId, DayWindow(day.0, day.1)), events)
         && AsEvents(events).Ok? && FindEvent(AsEvents(events).value, c.request.eventId) == Some(event)
  }

  /** What must have been read before the mutation may go out. */
  ghost predicate Gated(c: Call, t: Trace, b: Before)
    requires BeforeFits(c.request, b)
  {
    match c.request
    case SetAssignees(itemId, _) => ScanFound(t, itemId, b.inList, b.item)
    case SetChecked(itemId, _) => ScanFound(t, itemId, b.inList, b.item)
    case SetAttendees(_, _, _, _) => LookupPassed(c, t, b.event)
    case _ => true
  }

  /** The ID FamilyWall gave the created item or event, as the acknowledgement carries it. */
  predicate AcknowledgedBy(c: Call, ack: WriteResult, reply: Reply)
  {
    !reply.Failed? &&
    match c.request
    case AddItem(listId, _, _) =>
      reply.Created? && ack.AddItemResult? && ack.itemId == Or(Truthy(reply.metaId), Truthy(reply.taskId))
      && reply.taskListId == Some(listId)
    case CreateEvent(_, _, _) =>
      reply.Created? && ack.CreateEventResult? && ack.eventId == Or(NotBlank(reply.eventId), NotBlank(reply.metaId))
    case _ => true
  }

  /** The mutation went out after its gates had been read, and its reply gave the acknowledgement. */
  ghost predicate SentFor(c: Call, t: Trace, b: Before, ack: WriteResult)
    requires FormError(c.request) == None && BeforeFits(c.request, b)
  {
    exists k, reply: Reply ::
      0 <= k < |t| && t[k] == Exchanged(Mutate(Endpoint(c.request), FormOf(c.request)), reply)
      && AcknowledgedBy(c, ack, reply) && Gated(c, t[..k], b)
  }

  /** The reply shows the target as the request wants it, and otherwise as it was. */
  predicate Shows(c: Call, b: Before, ack: WriteResult, reply: Reply)
    requires CanReadBack(c.request, b, ack)
  {
    var r := c.request;
    if r.AddItem? then
      var items := AsItems(reply);
      items.Ok? && var found := FindItem(items.value, ack.itemId.value);
      found.Some? && AssignmentShown(found.value.toAll, found.value.assigneeIds, r.assignment)
    else if r.SetAssignees? then
      var items := AsItems(reply);
      items.Ok? && var found := FindItem(items.value, r.itemId);
      found.Some? && OnlyAssignmentSet(found.value, b.item, r.assignment)
    else if r.CreateEvent? then
      var events := AsEvents(reply);
      events.Ok? && var found := FindEvent(events.value, ack.eventId.value);
      found.Some? && CreatedAsRequested(found.value, r.event, r.assignment, r.calendarId)
    else
      var events := AsEvents(reply);
      events.Ok? && var found := FindEvent(events.value, r.eventId);
      found.Some? && OnlyAttendeesSet(b.event, found.value, r.assignment)
  }

  /**
   * What was read before the send, then the acknowledged send, then a read that shows the target as requested and
   * otherwise as it was read before the send.
   */
  ghost predicate Backed(c: Call, t: Trace)
    requires FormError(c.request) == None
  {
    exists b, ack, j, reply: Reply ::
      && BeforeFits(c.request, b) && CanReadBack(c.request, b, ack)
      && 0 <= j < |t| && SentFor(c, t[..j], b, ack)
      && t[j] == Exchanged(ReadbackCall(c.request, b), reply) && Shows(c, b, ack, reply)
  }

  predicate Claims(r: Request, result: WriteResult)
  {
    result.outcome == Confirmed && !r.SetChecked?
  }

  /** What a call knows in each phase, in terms of what it has read and sent. */
  ghost predicate Informed(c: Call, t: Trace, p: Phase)
    requires PhaseFits(c, p)
  {
    match p
    case Scanning(remaining) =>
      exists i, lists: Reply :: 0 <= i < |t| && t[i] == Exchanged(GetLists, lists) && AsLists(lists).Ok?
                                && forall id :: id in remaining ==> id in AsLists(lists).value
    case Opening(b) => Gated(c, t, b)
    case Sending(b) => Gated(c, t, b)
    case Acknowledging(b, ack) => SentFor(c, t, b, ack)
    case ReadingBack(b, ack) => SentFor(c, t, b, ack)
    case Settling(_, result) => Claims(c.request, result) ==> Backed(c, t)
    case _ => true
  }

  // ----- growth of a trace keeps every sighting -----

  lemma ScanFoundGrows(t: Trace, more: Trace, itemId: string, inList: string, item: ListItem)
    requires ScanFound(t, itemId, inList, item)
    ensures ScanFound(t + more, itemId, inList, item)
  {
    var i, j, lists: Reply, items: Reply :|
      && 0 <= i < j < |t| && t[i] == Exchanged(GetLists, lists) && t[j] == Exchanged(GetList(inList), items)
      && AsLists(lists).Ok? && inList in AsLists(lists).value
      && AsItems(items).Ok? && FindItem(AsItems(items).value, itemId) == Some(item);
    assert (t + more)[i] == t[i] && (t + more)[j] == t[j];
  }

  lemma LookupGrows(c: Call, t: Trace, more: Trace, event: CalendarEvent)
    requires LooksUp(c.request) && LookupPassed(c, t, event)
    ensures LookupPassed(c, t + more, event)
  {
    var day := c.request.window.value;
    var i, events: Reply :|
      && 0 <= i < |t| && t[i] == Exchanged(ListInterval(c.request.calendarId, DayWindow(day.0, day.1)), events)
      && AsEvents(events).Ok? && FindEvent(AsEvents(events).value, c.request.eventId) == Some(event);
    assert (t + more)[i] == t[i];
  }

  lemma GatedGrows(c: Call, t: Trace, more: Trace, b: Before)
    requires BeforeFits(c.request, b) && Gated(c, t, b)
    ensures Gated(c, t + more, b)
  {
    match c.request
    case SetAssignees(itemId, _) => ScanFoundGrows(t, more, itemId, b.inList, b.item);
    case SetChecked(itemId, _) => ScanFoundGrows(t, more, itemId, b.inList, b.item);
    case SetAttendees(_, _, _, _) => LookupGrows(c, t, more, b.event);
    case _ =>
  }

  lemma SentForGrows(c: Call, t: Trace, more: Trace, b: Before, ack: WriteResult)
    requires FormError(c.request) == None && BeforeFits(c.request, b) && SentFor(c, t, b, ack)
    ensures SentFor(c, t + more, b, ack)
  {
    hide FormError, FormOf, Endpoint, BeforeFits, AcknowledgedBy, Gated;
    var k, reply: Reply :|
      0 <= k < |t| && t[k] == Exchanged(Mutate(Endpoint(c.request), FormOf(c.request)), reply)
      && AcknowledgedBy(c, ack, reply) && Gated(c, t[..k], b);
    assert (t + more)[k] == t[k] && (t + more)[..k] == t[..k];
  }

  lemma BackedGrows(c: Call, t: Trace, more: Trace)
    requires FormError(c.request) == None && Backed(c, t)
    ensures Backed(c, t + more)
  {
    var b, ack, j, reply: Reply :|
      && BeforeFits(c.request, b) && CanReadBack(c.request, b, ack)
      && 0 <= j < |t| && SentFor(c, t[..j], b, ack)
      && t[j] == Exchanged(ReadbackCall(c.request, b), reply) && Shows(c, b, ack, reply);
    assert (t + more)[..j] == t[..j] && (t + more)[j] == t[j];
  }

  // ----- one step of knowledge per phase -----

  lemma ListStep(c: Call, t: Trace, reply: Reply)
    requires PhaseFits(c, Listing)
    ensures PhaseFits(c, AfterLists(reply)) && Informed(c, t + [Exchanged(GetLists, reply)], AfterLists(reply))
  {
    var u := t + [Exchanged(GetLists, reply)];
    assert u[|t|] == Exchanged(GetLists, reply);
  }

  lemma ScanStep(c: Call, t: Trace, lists: seq<string>, reply: Reply)
    requires PhaseFits(c, Scanning(lists)) && Informed(c, t, Scanning(lists))
    ensures var q := AfterScan(c.request, lists, reply);
            PhaseFits(c, q) && Informed(c, t + [Exchanged(GetList(lists[0]), reply)], q)
  {
    var e := Exchanged(GetList(lists[0]), reply);
    var u := t + [e];
    var i, all: Reply :| 0 <= i < |t| && t[i] == Exchanged(GetLists, all) && AsLists(all).Ok?
                         && forall id :: id in lists ==> id in AsLists(all).value;
    assert u[i] == Exchanged(GetLists, all) && u[|t|] == e;
    assert forall id :: id in lists[1..] ==> id in AsLists(all).value;
    match AfterScan(c.request, lists, reply)
    case Opening(b) => assert ScanFound(u, c.request.itemId, b.inList, b.item);
    case _ =>
  }

  lemma LookupStep(c: Call, t: Trace, reply: Reply)
    requires PhaseFits(c, LookingUp)
    ensures var q := AfterLookup(c.request, reply);
            var day := c.request.window.value;
            && PhaseFits(c, q)
            && Informed(c, t + [Exchanged(ListInterval(c.request.calendarId, DayWindow(day.0, day.1)), reply)], q)
  {
    var day := c.request.window.value;
    var e := Exchanged(ListInterval(c.request.calendarId, DayWindow(day.0, day.1)), reply);
    assert (t + [e])[|t|] == e;
    match AfterLookup(c.request, reply)
    case Opening(b) => assert LookupPassed(c, t + [e], b.event);
    case _ =>
  }

  lemma AfterSendAcknowledges(c: Call, b: Before, reply: Reply)
    requires Accepted(c) && BeforeFits(c.request, b)
    ensures var q := AfterSend(c.request, b, reply);
            && (q.Acknowledging? ==> AcknowledgedBy(c, q.ack, reply) && q.before == b)
            && (q.Settling? ==> !Claims(c.request, q.result))
  {
  }

  lemma SendStep(c: Call, t: Trace, b: Before, reply: Reply)
    requires PhaseFits(c, Sending(b)) && Informed(c, t, Sending(b))
    ensures var q := AfterSend(c.request, b, reply);
            PhaseFits(c, q) && Informed(c, t + [Exchanged(Mutate(Endpoint(c.request), FormOf(c.request)), reply)], q)
  {
    var e := Exchanged(Mutate(Endpoint(c.request), FormOf(c.request)), reply);
    AfterSendFits(c, b, reply);
    AfterSendAcknowledges(c, b, reply);
    assert (t + [e])[|t|] == e && (t + [e])[..|t|] == t;
  }

  lemma AddedShows(c: Call, b: Before, ack: WriteResult, reply: Reply)
    requires c.request.AddItem? && CanReadBack(c.request, b, ack) && ack.outcome == Acknowledged
    ensures var q := AfterReadback(c.request, b, ack, reply);
            q.Settling? && Claims(c.request, q.result) <==> Shows(c, b, ack, reply)
  {
  }

  lemma AssignedShows(c: Call, b: Before, ack: WriteResult, reply: Reply)
    requires c.request.SetAssignees? && CanReadBack(c.request, b, ack) && ack.outcome == Acknowledged
    ensures var q := AfterReadback(c.request, b, ack, reply);
            q.Settling? && Claims(c.request, q.result) <==> Shows(c, b, ack, reply)
  {
    if AsItems(reply).Ok? && FindItem(AsItems(reply).value, c.request.itemId).Some? {
      ItemsAgree(FindItem(AsItems(reply).value, c.request.itemId).value, b.item, c.request.assignment);
    }
  }

  lemma CreatedShows(c: Call, b: Before, ack: WriteResult, reply: Reply)
    requires c.request.CreateEvent? && CanReadBack(c.request, b, ack) && ack.outcome == Acknowledged
    ensures var q := AfterReadback(c.request, b, ack, reply);
            q.Settling? && Claims(c.request, q.result) <==> Shows(c, b, ack, reply)
  {
    if AsEvents(reply).Ok? && FindEvent(AsEvents(reply).value, ack.eventId.value).Some? {
      CreatedAgree(FindEvent(AsEvents(reply).value, ack.eventId.value).value, c.request.event, c.request.assignment, c.request.calendarId);
    }
  }

  lemma AttendeesShow(c: Call, b: Before, ack: WriteResult, reply: Reply)
    requires c.request.SetAttendees? && CanReadBack(c.request, b, ack) && ack.outcome == Acknowledged && b.event.span.Timed?
    ensures var q := AfterReadback(c.request, b, ack, reply);
            q.Settling? && Claims(c.request, q.result) <==> Shows(c, b, ack, reply)
  {
    if AsEvents(reply).Ok? && FindEvent(AsEvents(reply).value, c.request.eventId).Some? {
      AttendeesAgree(b.event, FindEvent(AsEvents(reply).value, c.request.eventId).value, c.request.assignment);
    }
  }

  /** A readback confirms exactly when it shows the target as requested. */
  lemma ConfirmedShows(c: Call, b: Before, ack: WriteResult, reply: Reply)
    requires CanReadBack(c.request, b, ack) && ack.outcome == Acknowledged
    requires c.request.SetAttendees? ==> b.event.span.Timed?
    ensures var q := AfterReadback(c.request, b, ack, reply);
            q.Settling? && Claims(c.request, q.result) <==> Shows(c, b, ack, reply)
  {
    match c.request
    case AddItem(_, _, _) => AddedShows(c, b, ack, reply);
    case SetAssignees(_, _) => AssignedShows(c, b, ack, reply);
    case CreateEvent(_, _, _) => CreatedShows(c, b, ack, reply);
    case SetAttendees(_, _, _, _) => AttendeesShow(c, b, ack, reply);
  }

  /** The reply could be read and holds the target, whatever it looks like. */
  predicate Holds(c: Call, ack: WriteResult, reply: Reply)
    requires c.request.AddItem? ==> ack.AddItemResult? && ack.itemId.Some?
    requires c.request.CreateEvent? ==> ack.CreateEventResult? && ack.eventId.Some?
  {
    match c.request
    case AddItem(_, _, _) => AsItems(reply).Ok? && FindItem(AsItems(reply).value, ack.itemId.value).Some?
    case SetAssignees(itemId, _) => AsItems(reply).Ok? && FindItem(AsItems(reply).value, itemId).Some?
    case CreateEvent(_, _, _) => AsEvents(reply).Ok? && FindEvent(AsEvents(reply).value, ack.eventId.value).Some?
    case SetAttendees(eventId, _, _, _) => AsEvents(reply).Ok? && FindEvent(AsEvents(reply).value, eventId).Some?
    case SetChecked(_, _) => false
  }

  lemma NamesWhenOtherwise(c: Call, b: Before, ack: WriteResult, reply: Reply)
    requires CanReadBack(c.request, b, ack) && ack.outcome == Acknowledged
    requires c.request.SetAttendees? ==> b.event.span.Timed?
    ensures var q := AfterReadback(c.request, b, ack, reply);
            && (Holds(c, ack, reply) ==> q.Settling? && q.result.outcome in {Confirmed, Mismatched} && !q.result.SetCheckedResult?
                                         && (q.result.mismatched == [] <==> q.result.outcome == Confirmed))
            && (!Holds(c, ack, reply) && q.Settling? ==> q.result == ack)
  {
  }

  /**
   * How a readback is judged: confirmed exactly when it shows the target as requested, a mismatch with fields named exactly
   * when it holds the target otherwise, and when it does not hold the target the acknowledgement stands.
   */
  lemma ReadbackIsJudged(c: Call, b: Before, ack: WriteResult, reply: Reply)
    requires CanReadBack(c.request, b, ack) && ack.outcome == Acknowledged
    requires c.request.SetAttendees? ==> b.event.span.Timed?
    ensures var q := AfterReadback(c.request, b, ack, reply);
            && (q.Settling? && q.result.outcome == Confirmed <==> Shows(c, b, ack, reply))
            && (q.Settling? && q.result.outcome == Mismatched <==> Holds(c, ack, reply) && !Shows(c, b, ack, reply))
            && (q.Settling? && q.result.outcome == Mismatched ==> !q.result.SetCheckedResult? && q.result.mismatched != [])
            && (!Holds(c, ack, reply) && q.Settling? ==> q.result == ack)
  {
    ConfirmedShows(c, b, ack, reply);
    NamesWhenOtherwise(c, b, ack, reply);
  }

  lemma ShownIsBacked(c: Call, t: Trace, b: Before, ack: WriteResult, reply: Reply)
    requires FormError(c.request) == None && BeforeFits(c.request, b) && CanReadBack(c.request, b, ack)
    requires SentFor(c, t, b, ack) && Shows(c, b, ack, reply)
    ensures Backed(c, t + [Exchanged(ReadbackCall(c.request, b), reply)])
  {
    var e := Exchanged(ReadbackCall(c.request, b), reply);
    var u := t + [e];
    assert u[|t|] == e && u[..|t|] == t;
  }

  lemma OutcomeOfReadback(c: Call, b: Before, ack: WriteResult, reply: Reply)
    requires CanReadBack(c.request, b, ack)
    ensures var q := AfterReadback(c.request, b, ack, reply); q.Settling? || q.Closing?
  {
  }

  lemma ReadbackStep(c: Call, t: Trace, b: Before, ack: WriteResult, reply: Reply)
    requires PhaseFits(c, ReadingBack(b, ack)) && Informed(c, t, ReadingBack(b, ack))
    ensures var q := AfterReadback(c.request, b, ack, reply);
            PhaseFits(c, q) && Informed(c, t + [Exchanged(ReadbackCall(c.request, b), reply)], q)
  {
    AfterReadbackFits(c, b, ack, reply);
    OutcomeOfReadback(c, b, ack, reply);
    ConfirmedShows(c, b, ack, reply);
    if Shows(c, b, ack, reply) {
      ShownIsBacked(c, t, b, ack, reply);
    }
  }

  lemma InformedStep(c: Call, t: Trace, p: Phase, e: Effect)
    requires PhaseFits(c, p) && Allowed(c, p, e) && Informed(c, t, p)
    ensures PhaseFits(c, NextPhase(c, p, e)) && Informed(c, t + [e], NextPhase(c, p, e))
  {
    NextPhaseFits(c, p, e);
    match p
    case Listing => ListStep(c, t, e.reply);
    case Scanning(lists) => ScanStep(c, t, lists, e.reply);
    case LookingUp => LookupStep(c, t, e.reply);
    case Opening(b) => GatedGrows(c, t, [e], b);
    case Sending(b) => SendStep(c, t, b, e.reply);
    case Acknowledging(b, ack) => SentForGrows(c, t, [e], b, ack);
    case ReadingBack(b, ack) => ReadbackStep(c, t, b, ack, e.reply);
    case _ =>
  }

  lemma {:induction false} TraceInformed(c: Call, t: Trace)
    requires RunOf(c, t).Some?
    ensures Informed(c, t, RunOf(c, t).value)
  {
    if t != [] {
      var u := t[..|t| - 1];
      TraceInformed(c, u);
      InformedStep(c, u, RunOf(c, u).value, t[|t| - 1]);
      assert u + [t[|t| - 1]] == t;
    }
  }

  // ----- the two results -----

  /** Nothing is sent before its gates: the scan found the item, or the looked-up event passed every check. */
  lemma SentOnlyWhenGated(c: Call, t: Trace, i: nat)
    requires RunOf(c, t).Some? && i < |t| && IsSend(t[i])
    ensures exists b :: BeforeFits(c.request, b) && Gated(c, t[..i], b)
    ensures FormError(c.request) == None && t[i].call == Mutate(Endpoint(c.request), FormOf(c.request))
  {
    SendHappensInSending(c, t, i);
    TraceInformed(c, t[..i]);
    var b := RunOf(c, t[..i]).value.before;
    assert Gated(c, t[..i], b);
  }

  /** Every effect of an execution was allowed where the call stood. */
  lemma EffectAllowed(c: Call, t: Trace, i: nat)
    requires RunOf(c, t).Some? && i < |t|
    ensures RunOf(c, t[..i]).Some? && Allowed(c, RunOf(c, t[..i]).value, t[i])
  {
    hide *;
    CrashAnywhere(c, t, i);
    CrashAnywhere(c, t, i + 1);
    assert t[..i + 1] == t[..i] + [t[i]];
    RunOfStep(c, t[..i], t[i]);
  }

  lemma SendHappensInSending(c: Call, t: Trace, i: nat)
    requires RunOf(c, t).Some? && i < |t| && IsSend(t[i])
    ensures RunOf(c, t[..i]).Some? && RunOf(c, t[..i]).value.Sending? && Allowed(c, RunOf(c, t[..i]).value, t[i])
  {
    EffectAllowed(c, t, i);
    SendAllowedOnlyInSending(c, RunOf(c, t[..i]).value, t[i]);
  }

  lemma SendAllowedOnlyInSending(c: Call, p: Phase, e: Effect)
    requires PhaseFits(c, p) && Allowed(c, p, e) && IsSend(e)
    ensures p.Sending?
  {
  }

  lemma ConfirmingPutSettles(c: Call, p: Phase, e: Effect)
    requires PhaseFits(c, p) && Allowed(c, p, e) && e.Put? && e.receipt.upstreamId.Some? && e.receipt.upstreamId.value.StoredResult?
    requires Claims(c.request, e.receipt.upstreamId.value.result)
    ensures FormError(c.request) == None && p.Settling? && p.result == e.receipt.upstreamId.value.result
  {
  }

  /** A receipt that says "confirmed" was written after a send and a read that shows the target as requested. */
  lemma ConfirmedReceiptIsBacked(c: Call, t: Trace, i: nat)
    requires RunOf(c, t).Some? && i < |t| && t[i].Put?
    requires t[i].receipt.upstreamId.Some? && t[i].receipt.upstreamId.value.StoredResult?
    requires Claims(c.request, t[i].receipt.upstreamId.value.result)
    ensures FormError(c.request) == None && Backed(c, t[..i])
  {
    EffectAllowed(c, t, i);
    TraceInformed(c, t[..i]);
    var p := RunOf(c, t[..i]).value;
    ConfirmingPutSettles(c, p, t[i]);
    SettledClaimIsBacked(c, t[..i], p);
  }

  lemma SettledClaimIsBacked(c: Call, t: Trace, p: Phase)
    requires PhaseFits(c, p) && Informed(c, t, p) && p.Settling? && Claims(c.request, p.result)
    ensures FormError(c.request) == None && Backed(c, t)
  {
  }
}
