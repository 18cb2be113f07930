/** The form bodies of the five mutating endpoints, and what a payload hash over them identifies. */
module WireForms {
  import opened Common
  import opened IsoTime
  import opened Domain

  type Form = map<string, string>

  function Flag(b: bool): string
  {
    if b then "true" else "false"
  }

  // ----- indexed keys: attendee.N.accountId and assignee.N -----

  /** `str(n)`. */
  function Decimal(n: nat): (s: string)
  {
    if n < 10 then [Digit(n)] else Decimal(n / 10) + [Digit(n % 10)]
  }

  lemma {:induction false} NumberOfDecimal(n: nat)
    ensures Number(Decimal(n)) == n
  {
    var d := Decimal(n);
    if n >= 10 {
      NumberOfDecimal(n / 10);
      assert d[..|d| - 1] == Decimal(n / 10);
    } else {
      assert d[..|d| - 1] == "" && Number("") == 0;
    }
  }

  /** Where an ID list goes: the text around the index. */
  datatype Slot = Slot(prefix: string, suffix: string)

  const ATTENDEE := Slot("attendee.", ".accountId")
  const ASSIGNEE := Slot("assignee.", "")

  function IndexKey(slot: Slot, i: nat): string
  {
    slot.prefix + Decimal(i) + slot.suffix
  }

  lemma IndexKeyInjective(slot: Slot, i: nat, j: nat)
    ensures IndexKey(slot, i) == IndexKey(slot, j) ==> i == j
  {
    if IndexKey(slot, i) == IndexKey(slot, j) {
      var a, b := Decimal(i), Decimal(j);
      assert slot.prefix + (a + slot.suffix) == IndexKey(slot, i);
      assert slot.prefix + (b + slot.suffix) == IndexKey(slot, j);
      ConcatCancel(slot.prefix, slot.prefix, a + slot.suffix, b + slot.suffix);
      assert |a| == |b|;
      ConcatCancel(a, b, slot.suffix, slot.suffix);
      NumberOfDecimal(i);
      NumberOfDecimal(j);
    }
  }

  /** The entries an ID list adds to a form. */
  function Indexed(slot: Slot, ids: seq<string>): Form
  {
    if ids == [] then map[]
    else Indexed(slot, ids[..|ids| - 1])[IndexKey(slot, |ids| - 1) := ids[|ids| - 1]]
  }

  lemma {:induction false} IndexedEntries(slot: Slot, ids: seq<string>)
    ensures forall k: nat :: IndexKey(slot, k) in Indexed(slot, ids) <==> k < |ids|
    ensures forall k: nat :: k < |ids| ==> Indexed(slot, ids)[IndexKey(slot, k)] == ids[k]
    ensures forall key :: key in Indexed(slot, ids) && StartsWith(slot.prefix, 'a') ==> StartsWith(key, 'a')
  {
    if ids != [] {
      var last := |ids| - 1;
      IndexedEntries(slot, ids[..last]);
      forall k: nat
        ensures IndexKey(slot, k) == IndexKey(slot, last) ==> k == last
      {
        IndexKeyInjective(slot, k, last);
      }
    }
  }

  /** Reads the IDs back: index 0, 1, 2, ... until a key is missing. */
  function Decode(slot: Slot, form: Form, i: nat): seq<string>
    decreases form.Keys
  {
    var key := IndexKey(slot, i);
    if key in form then [form[key]] + Decode(slot, form - {key}, i + 1) else []
  }

  lemma {:induction false} DecodeIndexed(slot: Slot, form: Form, ids: seq<string>, i: nat)
    requires i <= |ids|
    requires forall k: nat :: i <= k ==> (IndexKey(slot, k) in form <==> k < |ids|)
    requires forall k: nat :: i <= k < |ids| ==> form[IndexKey(slot, k)] == ids[k]
    ensures Decode(slot, form, i) == ids[i..]
    decreases |ids| - i
  {
    if i < |ids| {
      var key := IndexKey(slot, i);
      forall k: nat | i < k
        ensures IndexKey(slot, k) != key
      {
        IndexKeyInjective(slot, k, i);
      }
      DecodeIndexed(slot, form - {key}, ids, i + 1);
    }
  }

  // ----- the five forms -----

  /** A form that carries an ID list beside fixed entries. */
  function WithIds(head: Form, slot: Slot, ids: seq<string>, tail: Form): Form
  {
    head + Indexed(slot, ids) + tail
  }

  predicate StartsWith(text: string, c: char)
  {
    |text| > 0 && text[0] == c
  }

  /** Every indexed key starts with an 'a'; no fixed key beside one does. */
  predicate Apart(fixed: Form)
  {
    forall key :: key in fixed ==> !StartsWith(key, 'a')
  }

  /** Indexed keys never collide with fixed ones, so both parts can be read back. */
  lemma WithIdsReadBack(head: Form, slot: Slot, ids: seq<string>, tail: Form)
    requires Apart(head) && Apart(tail) && StartsWith(slot.prefix, 'a')
    ensures var form := WithIds(head, slot, ids, tail);
            && Decode(slot, form, 0) == ids
            && (forall key :: !StartsWith(key, 'a') ==>
                  (key in form <==> key in head + tail) && (key in form ==> form[key] == (head + tail)[key]))
  {
    IndexedEntries(slot, ids);
    DecodeIndexed(slot, WithIds(head, slot, ids, tail), ids, 0);
  }

  function CreateEventHead(e: NewTimedEvent, toAll: bool): Form
  {
    map["partnerScope" := "Family",
        "text" := e.title,
        "startDate" := IsoSecondsText(e.start.local, e.start.offset),
        "endDate" := IsoSecondsText(e.end.local, e.end.offset),
        "timeZone" := e.timezone,
        "where" := OrEmpty(e.location),
        "description" := OrEmpty(e.description),
        "isToAll" := Flag(toAll)]
  }

  function CreateEventTail(reminder: Reminder): Form
  {
    map["picture" := "$empty", "private" := "", "recurrency" := "NONE", "recurrencyInterval" := "1",
        "byDay" := "", "byMonthDay" := "", "recurrencyEndDate" := "$empty",
        "reminderList.0.reminderType" := reminder.kind, "reminderList.0.reminderUnit" := reminder.unit,
        "reminderList.0.reminderValue" := reminder.value]
  }

  function UpdateAttendeesHead(eventId: string, calendarId: string, toAll: bool): Form
  {
    map["partnerScope" := "Family", "option" := "All", "calendarId" := calendarId,
        "metaId" := eventId, "isToAll" := Flag(toAll)]
  }

  function CreateItemHead(listId: string, text: string, toAll: bool): Form
  {
    map["partnerScope" := "Family", "taskListId" := listId, "text" := text, "taskCategoryId" := "",
        "dueDate" := "$empty", "picture" := "$empty", "toAll" := Flag(toAll)]
  }

  function UpdateAssigneesHead(itemId: string, toAll: bool): Form
  {
    map["partnerScope" := "Family", "taskId" := itemId, "toAll" := Flag(toAll)]
  }

  function MarkItemForm(itemId: string, checked: bool): Form
  {
    map["partnerScope" := "Family", "a00taskId" := itemId, "a00complete" := Flag(checked)]
  }

  /** The prefix and emptiness checks the builders make before anything else happens. */
  function FormError(r: Request): Option<ErrorInfo>
  {
    match r
    case AddItem(listId, _, a) =>
      if !("taskList/" <= listId) then Some(ErrorInfo(MalformedPayload, None))
      else if a.accountIds == [] then Some(ErrorInfo(ValueError, None)) else None
    case SetAssignees(itemId, a) =>
      if !("task/" <= itemId) then Some(ErrorInfo(MalformedPayload, None))
      else if a.accountIds == [] then Some(ErrorInfo(ValueError, None)) else None
    case SetChecked(itemId, _) =>
      if !("task/" <= itemId) then Some(ErrorInfo(MalformedPayload, None)) else None
    case CreateEvent(e, a, _) =>
      if a.accountIds == [] then Some(ErrorInfo(ValueError, None)) else None
    case SetAttendees(_, _, a, _) =>
      if a.accountIds == [] then Some(ErrorInfo(ValueError, None)) else None
  }

  function FormOf(r: Request): Form
    requires FormError(r) == None
  {
    match r
    case AddItem(listId, text, a) => WithIds(CreateItemHead(listId, text, a.toAll), ASSIGNEE, a.accountIds, map[])
    case SetAssignees(itemId, a) => WithIds(UpdateAssigneesHead(itemId, a.toAll), ASSIGNEE, a.accountIds, map[])
    case SetChecked(itemId, checked) => MarkItemForm(itemId, checked)
    case CreateEvent(e, a, _) => WithIds(CreateEventHead(e, a.toAll), ATTENDEE, a.accountIds, CreateEventTail(DEFAULT_REMINDER))
    case SetAttendees(eventId, _, a, calendarId) =>
      WithIds(UpdateAttendeesHead(eventId, calendarId, a.toAll), ATTENDEE, a.accountIds, map[])
  }

  function Endpoint(r: Request): string
  {
    match r
    case AddItem(_, _, _) => "taskcreate2"
    case SetAssignees(_, _) => "taskupdate2"
    case SetChecked(_, _) => "taskmark"
    case CreateEvent(_, _, _) => "evtcreate"
    case SetAttendees(_, _, _, _) => "evtupdate"
  }

  function DigestOf(r: Request): Digest
    requires FormError(r) == None
  {
    match r
    case CreateEvent(_, _, calendarId) => CalendarDigest("evtcreate", calendarId, FormOf(r))
    case SetAttendees(_, _, _, calendarId) => CalendarDigest("evtupdate", calendarId, FormOf(r))
    case _ => ListDigest(FormOf(r))
  }

  /** The same event as the wire sees it: an absent text equals an empty one, and seconds are the precision. */
  predicate SameEvent(e: NewTimedEvent, f: NewTimedEvent)
  {
    && e.title == f.title && e.timezone == f.timezone
    && SameSecond(e.start.local, f.start.local) && e.start.offset == f.start.offset
    && SameSecond(e.end.local, f.end.local) && e.end.offset == f.end.offset
    && OrEmpty(e.location) == OrEmpty(f.location) && OrEmpty(e.description) == OrEmpty(f.description)
  }

  /** The same tool asked for the same thing; the lookup window is not part of the intent. */
  predicate SameIntent(r: Request, q: Request)
  {
    match (r, q)
    case (AddItem(l, t, a), AddItem(l', t', a')) => l == l' && t == t' && a == a'
    case (SetAssignees(i, a), SetAssignees(i', a')) => i == i' && a == a'
    case (SetChecked(i, c), SetChecked(i', c')) => i == i' && c == c'
    case (CreateEvent(e, a, c), CreateEvent(e', a', c')) => SameEvent(e, e') && a == a' && c == c'
    case (SetAttendees(i, _, a, c), SetAttendees(i', _, a', c')) => i == i' && a == a' && c == c'
    case _ => false
  }

  /** The form determines both the ID sequence and the fixed entries. */
  lemma WithIdsInjective(h: Form, h': Form, slot: Slot, ids: seq<string>, ids': seq<string>, tail: Form)
    requires Apart(h) && Apart(h') && Apart(tail) && StartsWith(slot.prefix, 'a')
    requires h.Keys == h'.Keys && h.Keys !! tail.Keys
    requires WithIds(h, slot, ids, tail) == WithIds(h', slot, ids', tail)
    ensures ids == ids' && h == h'
  {
    WithIdsReadBack(h, slot, ids, tail);
    WithIdsReadBack(h', slot, ids', tail);
    forall key | key in h
      ensures h[key] == h'[key]
    {
      assert (h + tail)[key] == h[key] && (h' + tail)[key] == h'[key];
    }
  }

  lemma FlagInjective(a: bool, b: bool)
    ensures Flag(a) == Flag(b) <==> a == b
  {
    assert |Flag(true)| == 4 && |Flag(false)| == 5;
  }

  lemma CreateItemHeadApart(l: string, t: string, all: bool)
    ensures Apart(CreateItemHead(l, t, all))
  {
  }

  lemma UpdateAssigneesHeadApart(i: string, all: bool)
    ensures Apart(UpdateAssigneesHead(i, all))
  {
  }

  lemma UpdateAttendeesHeadApart(i: string, c: string, all: bool)
    ensures Apart(UpdateAttendeesHead(i, c, all))
  {
  }

  lemma CreateEventHeadApart(e: NewTimedEvent, all: bool)
    ensures Apart(CreateEventHead(e, all)) && Apart(CreateEventTail(DEFAULT_REMINDER))
  {
  }

  lemma CreateItemHeadInjective(l: string, t: string, all: bool, l': string, t': string, all': bool)
    requires CreateItemHead(l, t, all) == CreateItemHead(l', t', all')
    ensures l == l' && t == t' && all == all'
  {
    FlagInjective(all, all');
    var h, h' := CreateItemHead(l, t, all), CreateItemHead(l', t', all');
    assert h["taskListId"] == l;
    assert h'["taskListId"] == l';
    assert h["text"] == t;
    assert h'["text"] == t';
    assert h["toAll"] == Flag(all);
    assert h'["toAll"] == Flag(all');
  }

  lemma UpdateAssigneesHeadInjective(i: string, all: bool, i': string, all': bool)
    requires UpdateAssigneesHead(i, all) == UpdateAssigneesHead(i', all')
    ensures i == i' && all == all'
  {
    FlagInjective(all, all');
    var h, h' := UpdateAssigneesHead(i, all), UpdateAssigneesHead(i', all');
    assert h["taskId"] == i;
    assert h'["taskId"] == i';
    assert h["toAll"] == Flag(all);
    assert h'["toAll"] == Flag(all');
  }

  lemma MarkItemFormInjective(i: string, c: bool, i': string, c': bool)
    requires MarkItemForm(i, c) == MarkItemForm(i', c')
    ensures i == i' && c == c'
  {
    FlagInjective(c, c');
    var h, h' := MarkItemForm(i, c), MarkItemForm(i', c');
    assert h["a00taskId"] == i;
    assert h'["a00taskId"] == i';
    assert h["a00complete"] == Flag(c);
    assert h'["a00complete"] == Flag(c');
  }

  lemma UpdateAttendeesHeadInjective(i: string, c: string, all: bool, i': string, c': string, all': bool)
    requires UpdateAttendeesHead(i, c, all) == UpdateAttendeesHead(i', c', all')
    ensures i == i' && c == c' && all == all'
  {
    FlagInjective(all, all');
    var h, h' := UpdateAttendeesHead(i, c, all), UpdateAttendeesHead(i', c', all');
    assert h["metaId"] == i;
    assert h'["metaId"] == i';
    assert h["calendarId"] == c;
    assert h'["calendarId"] == c';
    assert h["isToAll"] == Flag(all);
    assert h'["isToAll"] == Flag(all');
  }

  lemma CreateEventTexts(e: NewTimedEvent, all: bool)
    ensures var h := CreateEventHead(e, all);
            && "text" in h && h["text"] == e.title
            && "timeZone" in h && h["timeZone"] == e.timezone
            && "where" in h && h["where"] == OrEmpty(e.location)
            && "description" in h && h["description"] == OrEmpty(e.description)
  {
  }

  lemma CreateEventTimes(e: NewTimedEvent, all: bool)
    ensures var h := CreateEventHead(e, all);
            && "startDate" in h && h["startDate"] == IsoSecondsText(e.start.local, e.start.offset)
            && "endDate" in h && h["endDate"] == IsoSecondsText(e.end.local, e.end.offset)
            && "isToAll" in h && h["isToAll"] == Flag(all)
  {
  }

  lemma CreateEventHeadInjective(e: NewTimedEvent, all: bool, f: NewTimedEvent, all': bool)
    requires CreateEventHead(e, all) == CreateEventHead(f, all')
    ensures SameEvent(e, f) && all == all'
  {
    FlagInjective(all, all');
    CreateEventTexts(e, all);
    CreateEventTexts(f, all');
    CreateEventTimes(e, all);
    CreateEventTimes(f, all');
    IsoSecondsInjective(e.start.local, e.start.offset, f.start.local, f.start.offset);
    IsoSecondsInjective(e.end.local, e.end.offset, f.end.local, f.end.offset);
  }

  lemma SameEventSameHead(e: NewTimedEvent, f: NewTimedEvent, all: bool)
    requires SameEvent(e, f)
    ensures CreateEventHead(e, all) == CreateEventHead(f, all)
  {
    IsoSecondsInjective(e.start.local, e.start.offset, f.start.local, f.start.offset);
    IsoSecondsInjective(e.end.local, e.end.offset, f.end.local, f.end.offset);
  }

  lemma CreateEventPartsDisjoint(e: NewTimedEvent, all: bool)
    ensures CreateEventHead(e, all).Keys !! CreateEventTail(DEFAULT_REMINDER).Keys
  {
  }

  lemma CreateEventKeys(e: NewTimedEvent, all: bool, f: NewTimedEvent, all': bool)
    ensures CreateEventHead(e, all).Keys == CreateEventHead(f, all').Keys
  {
  }

  lemma CreateItemFormKeys(l: string, t: string, a: Assignment)
    ensures var form := WithIds(CreateItemHead(l, t, a.toAll), ASSIGNEE, a.accountIds, map[]);
            "taskListId" in form && "taskId" !in form
  {
    CreateItemHeadApart(l, t, a.toAll);
    WithIdsReadBack(CreateItemHead(l, t, a.toAll), ASSIGNEE, a.accountIds, map[]);
    var h := CreateItemHead(l, t, a.toAll);
    assert "taskListId" in h;
    assert "taskId" !in h;
    assert h + map[] == h;
  }

  lemma UpdateAssigneesFormKeys(i: string, a: Assignment)
    ensures var form := WithIds(UpdateAssigneesHead(i, a.toAll), ASSIGNEE, a.accountIds, map[]);
            "taskListId" !in form && "taskId" in form
  {
    UpdateAssigneesHeadApart(i, a.toAll);
    WithIdsReadBack(UpdateAssigneesHead(i, a.toAll), ASSIGNEE, a.accountIds, map[]);
    var h := UpdateAssigneesHead(i, a.toAll);
    assert "taskListId" !in h;
    assert "taskId" in h;
    assert h + map[] == h;
  }

  /** A list form names its tool: only taskcreate2 has a list, only taskupdate2 a plain task ID. */
  lemma ListFormsDiffer(r: Request)
    requires FormError(r) == None && (r.AddItem? || r.SetAssignees? || r.SetChecked?)
    ensures "taskListId" in FormOf(r) <==> r.AddItem?
    ensures "taskId" in FormOf(r) <==> r.SetAssignees?
  {
    match r
    case AddItem(l, t, a) => CreateItemFormKeys(l, t, a);
    case SetAssignees(i, a) => UpdateAssigneesFormKeys(i, a);
    case SetChecked(i, c) =>
  }

  lemma EqualListDigests(r: Request, q: Request)
    requires FormError(r) == None && FormError(q) == None
    requires DigestOf(r) == DigestOf(q) && DigestOf(r).ListDigest?
    ensures SameIntent(r, q)
  {
    ListFormsDiffer(r);
    ListFormsDiffer(q);
    hide WithIds, CreateItemHead, UpdateAssigneesHead, MarkItemForm;
    match (r, q)
    case (AddItem(l, t, a), AddItem(l', t', a')) =>
      CreateItemHeadApart(l, t, a.toAll);
      CreateItemHeadApart(l', t', a'.toAll);
      WithIdsInjective(CreateItemHead(l, t, a.toAll), CreateItemHead(l', t', a'.toAll),
                       ASSIGNEE, a.accountIds, a'.accountIds, map[]);
      CreateItemHeadInjective(l, t, a.toAll, l', t', a'.toAll);
    case (SetAssignees(i, a), SetAssignees(i', a')) =>
      UpdateAssigneesHeadApart(i, a.toAll);
      UpdateAssigneesHeadApart(i', a'.toAll);
      WithIdsInjective(UpdateAssigneesHead(i, a.toAll), UpdateAssigneesHead(i', a'.toAll),
                       ASSIGNEE, a.accountIds, a'.accountIds, map[]);
      UpdateAssigneesHeadInjective(i, a.toAll, i', a'.toAll);
    case (SetChecked(i, c), SetChecked(i', c')) =>
      MarkItemFormInjective(i, c, i', c');
    case _ =>
  }

  lemma EqualCalendarDigests(r: Request, q: Request)
    requires FormError(r) == None && FormError(q) == None
    requires DigestOf(r) == DigestOf(q) && DigestOf(r).CalendarDigest?
    ensures SameIntent(r, q)
  {
    assert "evtcreate" != "evtupdate";
    match (r, q)
    case (CreateEvent(e, a, _), CreateEvent(f, b, _)) =>
      CreateEventHeadApart(e, a.toAll);
      CreateEventHeadApart(f, b.toAll);
      CreateEventPartsDisjoint(e, a.toAll);
      CreateEventKeys(e, a.toAll, f, b.toAll);
      WithIdsInjective(CreateEventHead(e, a.toAll), CreateEventHead(f, b.toAll),
                       ATTENDEE, a.accountIds, b.accountIds, CreateEventTail(DEFAULT_REMINDER));
      CreateEventHeadInjective(e, a.toAll, f, b.toAll);
    case (SetAttendees(i, _, a, c), SetAttendees(i', _, a', c')) =>
      UpdateAttendeesHeadApart(i, c, a.toAll);
      UpdateAttendeesHeadApart(i', c', a'.toAll);
      WithIdsInjective(UpdateAttendeesHead(i, c, a.toAll), UpdateAttendeesHead(i', c', a'.toAll),
                       ATTENDEE, a.accountIds, a'.accountIds, map[]);
      UpdateAttendeesHeadInjective(i, c, a.toAll, i', c', a'.toAll);
    case _ =>
  }

  lemma SameIntentSameDigest(r: Request, q: Request)
    requires FormError(r) == None && FormError(q) == None && SameIntent(r, q)
    ensures DigestOf(r) == DigestOf(q)
  {
    match (r, q)
    case (CreateEvent(e, a, _), CreateEvent(f, b, _)) => SameEventSameHead(e, f, a.toAll);
    case _ =>
  }

  /** Equal payload hashes mean the same tool and the same intent, and nothing else does. */
  lemma DigestIdentifiesIntent(r: Request, q: Request)
    requires FormError(r) == None && FormError(q) == None
    ensures DigestOf(r) == DigestOf(q) <==> SameIntent(r, q)
  {
    if DigestOf(r) == DigestOf(q) {
      if DigestOf(r).ListDigest? {
        EqualListDigests(r, q);
      } else {
        EqualCalendarDigests(r, q);
      }
    } else if SameIntent(r, q) {
      SameIntentSameDigest(r, q);
    }
  }

  // ----- the builders that fill a dict in a loop -----

  /** The builders' common loop: `enumerate` the IDs into the dict, then `update` it with what follows. */
  method FillForm(head: Form, slot: Slot, ids: seq<string>, tail: Form) returns (fields: Form)
    ensures fields == WithIds(head, slot, ids, tail)
  {
    fields := head;
    for index := 0 to |ids|
      invariant fields == head + Indexed(slot, ids[..index])
    {
      fields := fields[IndexKey(slot, index) := ids[index]];
      assert ids[..index + 1][..index] == ids[..index];
    }
    assert ids[..|ids|] == ids;
    fields := fields + tail;
  }

  /** Every builder: its checks first, then the fixed entries, the IDs, and the trailing entries. */
  method BuildFields(r: Request) returns (fields: Result<Form, ErrorInfo>)
    ensures match FormError(r)
            case Some(error) => fields == Err(error)
            case None => fields == Ok(FormOf(r))
  {
    if FormError(r).Some? {
      return Err(FormError(r).value);
    }
    var form: Form;
    match r {
      case AddItem(listId, text, a) =>
        form := FillForm(CreateItemHead(listId, text, a.toAll), ASSIGNEE, a.accountIds, map[]);
      case SetAssignees(itemId, a) =>
        form := FillForm(UpdateAssigneesHead(itemId, a.toAll), ASSIGNEE, a.accountIds, map[]);
      case SetChecked(itemId, checked) =>
        form := MarkItemForm(itemId, checked);
      case CreateEvent(e, a, _) =>
        form := FillForm(CreateEventHead(e, a.toAll), ATTENDEE, a.accountIds, CreateEventTail(DEFAULT_REMINDER));
      case SetAttendees(eventId, _, a, calendarId) =>
        form := FillForm(UpdateAttendeesHead(eventId, calendarId, a.toAll), ATTENDEE, a.accountIds, map[]);
    }
    return Ok(form);
  }
}
