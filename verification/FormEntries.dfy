/** What is on the wire, entry by entry: the keys of the five forms and their values, as texts. */
module FormEntries {
  import opened Common
  import opened IsoTime
  import opened Domain
  import opened WireForms

  // ----- numbers in keys -----

  /** The ten digits. */
  lemma Digits(d: nat)
    requires d < 10
    ensures Digit(d) == "0123456789"[d] && DigitValue("0123456789"[d]) == d
  {
  }

  /** An index is written in decimal digits, without leading zeros. */
  lemma {:induction false} DecimalIsPlain(n: nat)
    ensures Decimal(n) != [] && (n > 0 ==> Decimal(n)[0] != '0') && forall i :: 0 <= i < |Decimal(n)| ==> Decimal(n)[i] in "0123456789"
    ensures Number(Decimal(n)) == n
  {
    Digits(n % 10);
    if n < 10 {
      assert Number(Decimal(n)[..0]) == 0;
    } else {
      DecimalIsPlain(n / 10);
      NumberOfDecimal(n);
    }
  }

  // ----- indexed entries -----

  /** The keys of an ID list are one for each ID. */
  lemma {:induction false} IndexedKeys(slot: Slot, ids: seq<string>, key: string)
    requires key in Indexed(slot, ids)
    ensures exists k: nat :: k < |ids| && key == IndexKey(slot, k)
  {
    if ids != [] && key != IndexKey(slot, |ids| - 1) {
      IndexedKeys(slot, ids[..|ids| - 1], key);
    }
  }

  /** A form with an ID list has its fixed keys and one key for each ID; the fixed values stay, and each ID has its own key. */
  lemma ListFormEntries(head: Form, slot: Slot, ids: seq<string>, tail: Form)
    requires Apart(head) && Apart(tail) && StartsWith(slot.prefix, 'a')
    ensures var form := WithIds(head, slot, ids, tail);
            && (forall key :: key in form <==> key in head || key in tail || exists k: nat :: k < |ids| && key == IndexKey(slot, k))
            && (forall key :: key in tail ==> form[key] == tail[key])
            && (forall key :: key in head && key !in tail ==> form[key] == head[key])
            && (forall k: nat :: k < |ids| ==> IndexKey(slot, k) in form && form[IndexKey(slot, k)] == ids[k])
  {
    var form := WithIds(head, slot, ids, tail);
    WithIdsReadBack(head, slot, ids, tail);
    IndexedEntries(slot, ids);
    forall key | key in form && key !in head && key !in tail
      ensures exists k: nat :: k < |ids| && key == IndexKey(slot, k)
    {
      IndexedKeys(slot, ids, key);
    }
    forall k: nat | k < |ids|
      ensures IndexKey(slot, k) in form && form[IndexKey(slot, k)] == ids[k]
    {
      assert StartsWith(IndexKey(slot, k), 'a');
    }
  }

  // ----- the five forms -----

  predicate Carries(form: Form, key: string, value: string)
  {
    key in form && form[key] == value
  }

  /** taskmark: the item, "true" exactly when it is to be checked, and nothing else. */
  lemma MarkEntries(r: Request)
    requires r.SetChecked? && FormError(r) == None
    ensures var form := FormOf(r);
            && form.Keys == {"partnerScope", "a00taskId", "a00complete"}
            && Carries(form, "partnerScope", "Family") && Carries(form, "a00taskId", r.itemId)
            && Carries(form, "a00complete", if r.checked then "true" else "false")
    ensures DigestOf(r) == ListDigest(FormOf(r))
  {
  }

  /** One of assignee.0, assignee.1, and so on, up to the number of assignees. */
  predicate AssigneeKey(key: string, count: nat)
  {
    exists k :: 0 <= k < count && key == "assignee." + Decimal(k)
  }

  predicate AttendeeKey(key: string, count: nat)
  {
    exists k :: 0 <= k < count && key == "attendee." + Decimal(k) + ".accountId"
  }

  lemma AssigneeKeys(key: string, count: nat)
    ensures AssigneeKey(key, count) <==> exists k: nat :: k < count && key == IndexKey(ASSIGNEE, k)
  {
    assert forall k: nat :: IndexKey(ASSIGNEE, k) == "assignee." + Decimal(k) + "";
    if k: nat :| k < count && key == IndexKey(ASSIGNEE, k) {
      assert key == "assignee." + Decimal(k);
    }
    if AssigneeKey(key, count) {
      var k :| 0 <= k < count && key == "assignee." + Decimal(k);
      assert key == IndexKey(ASSIGNEE, k);
    }
  }

  lemma AttendeeKeys(key: string, count: nat)
    ensures AttendeeKey(key, count) <==> exists k: nat :: k < count && key == IndexKey(ATTENDEE, k)
  {
    if k: nat :| k < count && key == IndexKey(ATTENDEE, k) {
      assert key == "attendee." + Decimal(k) + ".accountId";
    }
    if AttendeeKey(key, count) {
      var k :| 0 <= k < count && key == "attendee." + Decimal(k) + ".accountId";
      assert key == IndexKey(ATTENDEE, k);
    }
  }

  /** A list form has its fixed entries, and the keys assignee.0, assignee.1, and so on. */
  lemma AssigneeForm(head: Form, ids: seq<string>)
    requires Apart(head)
    ensures var form := WithIds(head, ASSIGNEE, ids, map[]);
            && (forall key :: key in form <==> key in head.Keys || AssigneeKey(key, |ids|))
            && (forall key, value :: Carries(head, key, value) ==> Carries(form, key, value))
            && (forall k: nat :: k < |ids| ==> Carries(form, "assignee." + Decimal(k), ids[k]))
  {
    ListFormEntries(head, ASSIGNEE, ids, map[]);
    hide WithIds, Indexed, Decimal, AssigneeKey;
    forall key
      ensures AssigneeKey(key, |ids|) <==> exists k: nat :: k < |ids| && key == IndexKey(ASSIGNEE, k)
    {
      AssigneeKeys(key, |ids|);
    }
    forall k: nat | k < |ids|
      ensures IndexKey(ASSIGNEE, k) == "assignee." + Decimal(k)
    {
      assert "assignee." + Decimal(k) + "" == "assignee." + Decimal(k);
    }
  }

  /** An event form has its fixed entries, and the keys attendee.0.accountId, attendee.1.accountId, and so on. */
  lemma AttendeeForm(head: Form, ids: seq<string>, tail: Form)
    requires Apart(head) && Apart(tail) && head.Keys !! tail.Keys
    ensures var form := WithIds(head, ATTENDEE, ids, tail);
            && (forall key :: key in form <==> key in head.Keys + tail.Keys || AttendeeKey(key, |ids|))
            && (forall key, value :: Carries(head, key, value) || Carries(tail, key, value) ==> Carries(form, key, value))
            && (forall k: nat :: k < |ids| ==> Carries(form, "attendee." + Decimal(k) + ".accountId", ids[k]))
  {
    ListFormEntries(head, ATTENDEE, ids, tail);
    hide WithIds, Indexed, Decimal, AttendeeKey;
    forall key
      ensures AttendeeKey(key, |ids|) <==> exists k: nat :: k < |ids| && key == IndexKey(ATTENDEE, k)
    {
      AttendeeKeys(key, |ids|);
    }
    forall k: nat | k < |ids|
      ensures IndexKey(ATTENDEE, k) == "attendee." + Decimal(k) + ".accountId"
    {
    }
  }

  lemma CreateItemHeadEntries(listId: string, text: string, toAll: bool)
    ensures var head := CreateItemHead(listId, text, toAll);
            && head.Keys == {"partnerScope", "taskListId", "text", "taskCategoryId", "dueDate", "picture", "toAll"}
            && Carries(head, "taskListId", listId) && Carries(head, "text", text)
            && Carries(head, "toAll", if toAll then "true" else "false")
            && Carries(head, "partnerScope", "Family") && Carries(head, "taskCategoryId", "")
            && Carries(head, "dueDate", "$empty") && Carries(head, "picture", "$empty")
  {
  }

  /** taskcreate2: the list, the text, whether it is for everyone, each assignee under its own index, and nothing else. */
  lemma CreateItemEntries(r: Request)
    requires r.AddItem? && FormError(r) == None
    ensures var form, ids := FormOf(r), r.assignment.accountIds;
            && Carries(form, "taskListId", r.listId) && Carries(form, "text", r.text)
            && Carries(form, "toAll", if r.assignment.toAll then "true" else "false")
            && Carries(form, "partnerScope", "Family") && Carries(form, "taskCategoryId", "")
            && Carries(form, "dueDate", "$empty") && Carries(form, "picture", "$empty")
            && (forall k: nat :: k < |ids| ==> Carries(form, "assignee." + Decimal(k), ids[k]))
    ensures var fixed := {"partnerScope", "taskListId", "text", "taskCategoryId", "dueDate", "picture", "toAll"};
            forall key :: key in FormOf(r) <==> key in fixed || AssigneeKey(key, |r.assignment.accountIds|)
    ensures DigestOf(r) == ListDigest(FormOf(r))
  {
    hide Carries, WithIds, Decimal, CreateItemHead, FormError, AssigneeKey;
    CreateItemHeadApart(r.listId, r.text, r.assignment.toAll);
    AssigneeForm(CreateItemHead(r.listId, r.text, r.assignment.toAll), r.assignment.accountIds);
    CreateItemHeadEntries(r.listId, r.text, r.assignment.toAll);
  }

  lemma UpdateAssigneesHeadEntries(itemId: string, toAll: bool)
    ensures var head := UpdateAssigneesHead(itemId, toAll);
            && head.Keys == {"partnerScope", "taskId", "toAll"}
            && Carries(head, "partnerScope", "Family") && Carries(head, "taskId", itemId)
            && Carries(head, "toAll", if toAll then "true" else "false")
  {
  }

  /** taskupdate2: the item, whether it is for everyone, each assignee under its own index, and nothing else. */
  lemma UpdateAssigneesEntries(r: Request)
    requires r.SetAssignees? && FormError(r) == None
    ensures var form, ids := FormOf(r), r.assignment.accountIds;
            && Carries(form, "partnerScope", "Family") && Carries(form, "taskId", r.itemId)
            && Carries(form, "toAll", if r.assignment.toAll then "true" else "false")
            && (forall k: nat :: k < |ids| ==> Carries(form, "assignee." + Decimal(k), ids[k]))
    ensures var fixed := {"partnerScope", "taskId", "toAll"};
            forall key :: key in FormOf(r) <==> key in fixed || AssigneeKey(key, |r.assignment.accountIds|)
    ensures DigestOf(r) == ListDigest(FormOf(r))
  {
    hide Carries, WithIds, Decimal, UpdateAssigneesHead, FormError, AssigneeKey;
    UpdateAssigneesHeadApart(r.itemId, r.assignment.toAll);
    AssigneeForm(UpdateAssigneesHead(r.itemId, r.assignment.toAll), r.assignment.accountIds);
    UpdateAssigneesHeadEntries(r.itemId, r.assignment.toAll);
  }

  lemma UpdateAttendeesHeadEntries(eventId: string, calendarId: string, toAll: bool)
    ensures var head := UpdateAttendeesHead(eventId, calendarId, toAll);
            && head.Keys == {"partnerScope", "option", "calendarId", "metaId", "isToAll"}
            && Carries(head, "partnerScope", "Family") && Carries(head, "option", "All") && Carries(head, "calendarId", calendarId)
            && Carries(head, "metaId", eventId) && Carries(head, "isToAll", if toAll then "true" else "false")
  {
  }

  /** evtupdate: the event, its calendar, the option "All", whether it is for everyone, each attendee, and nothing else. */
  lemma UpdateAttendeesEntries(r: Request)
    requires r.SetAttendees? && FormError(r) == None
    ensures var form, ids := FormOf(r), r.assignment.accountIds;
            && Carries(form, "partnerScope", "Family") && Carries(form, "option", "All") && Carries(form, "calendarId", r.calendarId)
            && Carries(form, "metaId", r.eventId) && Carries(form, "isToAll", if r.assignment.toAll then "true" else "false")
            && (forall k: nat :: k < |ids| ==> Carries(form, "attendee." + Decimal(k) + ".accountId", ids[k]))
    ensures var fixed := {"partnerScope", "option", "calendarId", "metaId", "isToAll"};
            forall key :: key in FormOf(r) <==> key in fixed || AttendeeKey(key, |r.assignment.accountIds|)
    ensures DigestOf(r) == CalendarDigest("evtupdate", r.calendarId, FormOf(r))
  {
    hide Carries, WithIds, Decimal, UpdateAttendeesHead, FormError, AttendeeKey;
    UpdateAttendeesHeadApart(r.eventId, r.calendarId, r.assignment.toAll);
    AttendeeForm(UpdateAttendeesHead(r.eventId, r.calendarId, r.assignment.toAll), r.assignment.accountIds, map[]);
    UpdateAttendeesHeadEntries(r.eventId, r.calendarId, r.assignment.toAll);
  }

  /** evtcreate, what the request says: to the second, an absent text as an empty one. */
  lemma CreateEventHeadEntries(e: NewTimedEvent, toAll: bool)
    ensures var head := CreateEventHead(e, toAll);
            && Carries(head, "partnerScope", "Family") && Carries(head, "text", e.title) && Carries(head, "timeZone", e.timezone)
            && Carries(head, "startDate", IsoSecondsText(e.start.local, e.start.offset))
            && Carries(head, "endDate", IsoSecondsText(e.end.local, e.end.offset))
            && Carries(head, "where", if e.location.Some? then e.location.value else "")
            && Carries(head, "description", if e.description.Some? then e.description.value else "")
            && Carries(head, "isToAll", if toAll then "true" else "false")
  {
    hide IsoSecondsText;
  }

  lemma CreateEventHeadKeys(e: NewTimedEvent, toAll: bool)
    ensures CreateEventHead(e, toAll).Keys ==
            {"partnerScope", "text", "startDate", "endDate", "timeZone", "where", "description", "isToAll"}
  {
    hide IsoSecondsText;
  }

  lemma CreateEventTailEntries()
    ensures var tail := CreateEventTail(DEFAULT_REMINDER);
            && Carries(tail, "picture", "$empty") && Carries(tail, "private", "")
            && Carries(tail, "recurrency", "NONE") && Carries(tail, "recurrencyInterval", "1")
            && Carries(tail, "byDay", "") && Carries(tail, "byMonthDay", "") && Carries(tail, "recurrencyEndDate", "$empty")
            && Carries(tail, "reminderList.0.reminderType", "SNOOZE") && Carries(tail, "reminderList.0.reminderUnit", "MINUTE")
            && Carries(tail, "reminderList.0.reminderValue", "30")
  {
  }

  lemma CreateEventTailKeys()
    ensures CreateEventTail(DEFAULT_REMINDER).Keys ==
            {"picture", "private", "recurrency", "recurrencyInterval", "byDay", "byMonthDay", "recurrencyEndDate",
             "reminderList.0.reminderType", "reminderList.0.reminderUnit", "reminderList.0.reminderValue"}
  {
  }

  /**
   * evtcreate: the event as requested, each attendee under its own index, no picture, not private, no recurrence, one reminder
   * half an hour before; and nothing else.
   */
  lemma CreateEventEntries(r: Request)
    requires r.CreateEvent? && FormError(r) == None
    ensures var form, ids, e := FormOf(r), r.assignment.accountIds, r.event;
            && Carries(form, "partnerScope", "Family") && Carries(form, "text", e.title) && Carries(form, "timeZone", e.timezone)
            && Carries(form, "startDate", IsoSecondsText(e.start.local, e.start.offset))
            && Carries(form, "endDate", IsoSecondsText(e.end.local, e.end.offset))
            && Carries(form, "where", if e.location.Some? then e.location.value else "")
            && Carries(form, "description", if e.description.Some? then e.description.value else "")
            && Carries(form, "isToAll", if r.assignment.toAll then "true" else "false")
            && Carries(form, "picture", "$empty") && Carries(form, "private", "")
            && Carries(form, "recurrency", "NONE") && Carries(form, "recurrencyInterval", "1")
            && Carries(form, "byDay", "") && Carries(form, "byMonthDay", "") && Carries(form, "recurrencyEndDate", "$empty")
            && Carries(form, "reminderList.0.reminderType", "SNOOZE") && Carries(form, "reminderList.0.reminderUnit", "MINUTE")
            && Carries(form, "reminderList.0.reminderValue", "30")
            && (forall k: nat :: k < |ids| ==> Carries(form, "attendee." + Decimal(k) + ".accountId", ids[k]))
    ensures var fixed := {"partnerScope", "text", "startDate", "endDate", "timeZone", "where", "description", "isToAll"};
            var trailing := {"picture", "private", "recurrency", "recurrencyInterval", "byDay", "byMonthDay", "recurrencyEndDate",
                             "reminderList.0.reminderType", "reminderList.0.reminderUnit", "reminderList.0.reminderValue"};
            forall key :: key in FormOf(r) <==> key in fixed + trailing || AttendeeKey(key, |r.assignment.accountIds|)
    ensures DigestOf(r) == CalendarDigest("evtcreate", r.calendarId, FormOf(r))
  {
    hide Carries, WithIds, Decimal, CreateEventHead, CreateEventTail, IsoSecondsText, FormError, AttendeeKey;
    CreateEventHeadApart(r.event, r.assignment.toAll);
    CreateEventPartsDisjoint(r.event, r.assignment.toAll);
    AttendeeForm(CreateEventHead(r.event, r.assignment.toAll), r.assignment.accountIds, CreateEventTail(DEFAULT_REMINDER));
    CreateEventHeadEntries(r.event, r.assignment.toAll);
    CreateEventTailEntries();
    CreateEventHeadKeys(r.event, r.assignment.toAll);
    CreateEventTailKeys();
  }
}
