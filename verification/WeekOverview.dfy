/** The weekly overview: one fetch, first-wins de-duplication, a cap, day buckets and a two-key order. */
module WeekOverview {
  import opened Common
  import opened Domain

  // ----- the week -----

  /** `date.weekday()` of a proleptic ordinal: 0 is Monday, and ordinal 1 is one. */
  function Weekday(day: int): nat
  {
    (day + 6) % 7
  }

  /** The first day of the week that holds `reference`. */
  function WeekStart(reference: int, sunday: bool): int
  {
    reference - (if sunday then (Weekday(reference) + 1) % 7 else Weekday(reference))
  }

  /**
   * The week starts on the right weekday and holds the reference day; no other week does.  Day 1 of the calendar is a
   * Monday, so Mondays are the days 1, 8, 15, and Sundays 7, 14, 21.
   */
  lemma WeekStartIsUnique(reference: int, sunday: bool, start: int)
    ensures start == WeekStart(reference, sunday)
            <==> start <= reference < start + 7 && start % 7 == if sunday then 0 else 1
  {
  }

  const MAX_DAYS_PER_REQUEST := 31

  // ----- what is fetched and kept -----

  /** A fetched list: each entry an event, or None where it was malformed. */
  type Payload = seq<Option<CalendarEvent>>

  function ParsedEvents(payload: Payload): seq<CalendarEvent>
  {
    if payload == [] then []
    else ParsedEvents(payload[..|payload| - 1])
         + match payload[|payload| - 1] case Some(e) => [e] case None => []
  }

  function Skipped(payload: Payload): nat
  {
    if payload == [] then 0
    else Skipped(payload[..|payload| - 1]) + if payload[|payload| - 1].None? then 1 else 0
  }

  function Ids(events: seq<CalendarEvent>): set<string>
  {
    set e | e in events :: e.occurrenceId
  }

  predicate Distinct(events: seq<CalendarEvent>)
  {
    forall i, j :: 0 <= i < j < |events| ==> events[i].occurrenceId != events[j].occurrenceId
  }

  /** The first event of every occurrence ID, in order. */
  function FirstSeen(events: seq<CalendarEvent>): seq<CalendarEvent>
  {
    if events == [] then []
    else
      var before, last := FirstSeen(events[..|events| - 1]), events[|events| - 1];
      if last.occurrenceId in Ids(before) then before else before + [last]
  }

  function Capped(events: seq<CalendarEvent>, maxEvents: nat): seq<CalendarEvent>
  {
    if |events| > maxEvents then events[..maxEvents] else events
  }

  /** The local days an event is shown on: the end's own day is included, even when the end is its midnight. */
  predicate Covers(e: CalendarEvent, day: int, dateOf: int -> int)
  {
    match e.span
    case Timed(start, end) => dateOf(start) <= day <= dateOf(end)
    case AllDay(first, last) => first <= day <= last
  }

  function Covering(events: seq<CalendarEvent>, day: int, dateOf: int -> int): seq<CalendarEvent>
  {
    if events == [] then []
    else
      var before, last := Covering(events[..|events| - 1], day, dateOf), events[|events| - 1];
      if Covers(last, day, dateOf) then before + [last] else before
  }

  // ----- the order within a day -----

  /** All-day events first, by ID; then timed ones, by start and ID. */
  predicate Before(e: CalendarEvent, f: CalendarEvent)
  {
    match (e.span, f.span)
    case (AllDay(_, _), AllDay(_, _)) => LexLess(e.occurrenceId, f.occurrenceId)
    case (AllDay(_, _), Timed(_, _)) => true
    case (Timed(_, _), AllDay(_, _)) => false
    case (Timed(s, _), Timed(t, _)) => s < t || (s == t && LexLess(e.occurrenceId, f.occurrenceId))
  }

  predicate Sorted(events: seq<CalendarEvent>)
  {
    forall i, j :: 0 <= i < j < |events| ==> Before(events[i], events[j])
  }

  function Insert(e: CalendarEvent, events: seq<CalendarEvent>): seq<CalendarEvent>
  {
    if events == [] || Before(e, events[0]) then [e] + events else [events[0]] + Insert(e, events[1..])
  }

  /** `list.sort` with the keys of the day order. */
  function SortEvents(events: seq<CalendarEvent>): seq<CalendarEvent>
  {
    if events == [] then [] else Insert(events[|events| - 1], SortEvents(events[..|events| - 1]))
  }

  lemma BeforeIsStrictOrder(e: CalendarEvent, f: CalendarEvent, g: CalendarEvent)
    ensures !(Before(e, f) && Before(f, e))
    ensures Before(e, f) && Before(f, g) ==> Before(e, g)
    ensures e.occurrenceId != f.occurrenceId ==> Before(e, f) || Before(f, e)
  {
    if Before(e, f) && Before(f, e) {
      LexTransitive(e.occurrenceId, f.occurrenceId, e.occurrenceId);
      LexIrreflexive(e.occurrenceId);
    }
    if LexLess(e.occurrenceId, f.occurrenceId) && LexLess(f.occurrenceId, g.occurrenceId) {
      LexTransitive(e.occurrenceId, f.occurrenceId, g.occurrenceId);
    }
    LexTotal(e.occurrenceId, f.occurrenceId);
  }

  /** The same events, however often and in whatever order. */
  ghost predicate SameEvents(a: seq<CalendarEvent>, b: seq<CalendarEvent>)
  {
    forall e :: e in a <==> e in b
  }

  lemma {:induction false} InsertSorted(e: CalendarEvent, events: seq<CalendarEvent>)
    requires Sorted(events) && forall f :: f in events ==> f.occurrenceId != e.occurrenceId
    ensures SameEvents(Insert(e, events), [e] + events)
    ensures Sorted(Insert(e, events))
  {
    if events == [] {
    } else if Before(e, events[0]) {
      forall j | 0 <= j < |events|
        ensures Before(e, events[j])
      {
        BeforeIsStrictOrder(e, events[0], events[j]);
      }
    } else {
      var head, rest := events[0], Insert(e, events[1..]);
      InsertSorted(e, events[1..]);
      BeforeIsStrictOrder(e, head, head);
      assert events == [head] + events[1..];
      forall i | 0 <= i < |rest|
        ensures Before(head, rest[i])
      {
        assert rest[i] in [e] + events[1..];
      }
    }
  }

  lemma {:induction false} SortSorts(events: seq<CalendarEvent>)
    requires Distinct(events)
    ensures Sorted(SortEvents(events)) && SameEvents(SortEvents(events), events)
  {
    if events != [] {
      var before, last := events[..|events| - 1], events[|events| - 1];
      SortSorts(before);
      assert events == before + [last];
      InsertSorted(last, SortEvents(before));
    }
  }

  lemma SortedTail(a: seq<CalendarEvent>)
    requires Sorted(a) && a != []
    ensures Sorted(a[1..]) && a[0] !in a[1..] && forall e :: e in a <==> e == a[0] || e in a[1..]
  {
    BeforeIsStrictOrder(a[0], a[0], a[0]);
    assert a == [a[0]] + a[1..];
  }

  lemma SortedHead(a: seq<CalendarEvent>, e: CalendarEvent)
    requires Sorted(a) && e in a
    ensures e == a[0] || Before(a[0], e)
  {
  }

  lemma SomeEvent(a: seq<CalendarEvent>)
    requires a != []
    ensures exists e :: e in a
  {
    assert a[0] in a;
  }

  /** There is only one way to list given events in order. */
  lemma {:induction false} SortedIsUnique(a: seq<CalendarEvent>, b: seq<CalendarEvent>)
    requires Sorted(a) && Sorted(b) && SameEvents(a, b)
    ensures a == b
  {
    if a == [] {
      if b != [] {
        SomeEvent(b);
      }
    } else if b == [] {
      SomeEvent(a);
    } else {
      SortedHead(a, b[0]);
      SortedHead(b, a[0]);
      BeforeIsStrictOrder(a[0], b[0], a[0]);
      SortedTail(a);
      SortedTail(b);
      SortedIsUnique(a[1..], b[1..]);
      assert a == [a[0]] + a[1..] && b == [b[0]] + b[1..];
    }
  }

  // ----- the overview -----

  datatype Note = SkippedMalformed(count: nat) | ReachedCap(maxEvents: nat)

  datatype Overview = Overview(start: int, days: seq<seq<CalendarEvent>>, total: nat, complete: bool, notes: seq<Note>)

  function WeekEvents(payload: Payload, maxEvents: nat): seq<CalendarEvent>
  {
    Capped(FirstSeen(ParsedEvents(payload)), maxEvents)
  }

  function NotesOf(payload: Payload, maxEvents: nat): seq<Note>
  {
    (if Skipped(payload) > 0 then [SkippedMalformed(Skipped(payload))] else [])
    + (if |FirstSeen(ParsedEvents(payload))| > maxEvents then [ReachedCap(maxEvents)] else [])
  }

  /** The declarative overview: keep, filter by day, sort. */
  function OverviewOf(start: int, payload: Payload, maxEvents: nat, dateOf: int -> int): Overview
  {
    var events := WeekEvents(payload, maxEvents);
    Overview(start, seq(7, i => SortEvents(Covering(events, start + i, dateOf))), |events|,
             NotesOf(payload, maxEvents) == [], NotesOf(payload, maxEvents))
  }

  // ----- facts about keeping and filtering -----

  lemma {:induction false} FirstSeenKeeps(events: seq<CalendarEvent>)
    ensures Distinct(FirstSeen(events)) && Ids(FirstSeen(events)) == Ids(events)
    ensures forall e :: e in FirstSeen(events) ==> e in events
  {
    if events != [] {
      var before, last := events[..|events| - 1], events[|events| - 1];
      FirstSeenKeeps(before);
      assert events == before + [last];
      var kept := FirstSeen(before);
      assert Ids(before + [last]) == Ids(before) + {last.occurrenceId};
      assert Ids(kept + [last]) == Ids(kept) + {last.occurrenceId};
      if last.occurrenceId !in Ids(kept) {
        forall i | 0 <= i < |kept|
          ensures kept[i].occurrenceId != last.occurrenceId
        {
          assert kept[i] in kept;
        }
      }
    }
  }

  predicate IsFirst(events: seq<CalendarEvent>, j: nat)
    requires j < |events|
  {
    forall i :: 0 <= i < j ==> events[i].occurrenceId != events[j].occurrenceId
  }

  /** The event is in the payload, at a place where no earlier event has its ID. */
  ghost predicate ComesFirst(events: seq<CalendarEvent>, e: CalendarEvent)
  {
    exists j :: 0 <= j < |events| && events[j] == e && IsFirst(events, j)
  }

  lemma FirstInLonger(before: seq<CalendarEvent>, last: CalendarEvent, j: nat)
    requires j < |before|
    ensures IsFirst(before + [last], j) <==> IsFirst(before, j)
  {
    var events := before + [last];
    assert forall i :: 0 <= i <= j ==> events[i] == before[i];
  }

  lemma LastIsFirst(before: seq<CalendarEvent>, last: CalendarEvent)
    ensures IsFirst(before + [last], |before|) <==> last.occurrenceId !in Ids(before)
  {
    var events := before + [last];
    assert forall i :: 0 <= i < |before| ==> events[i] == before[i] && before[i] in before;
  }

  lemma ComesFirstInLonger(before: seq<CalendarEvent>, last: CalendarEvent, e: CalendarEvent)
    ensures ComesFirst(before + [last], e) <==> ComesFirst(before, e) || (e == last && last.occurrenceId !in Ids(before))
  {
    var events := before + [last];
    LastIsFirst(before, last);
    if ComesFirst(events, e) {
      var j :| 0 <= j < |events| && events[j] == e && IsFirst(events, j);
      if j < |before| {
        FirstInLonger(before, last, j);
        assert before[j] == e;
      }
    }
    if ComesFirst(before, e) {
      var j :| 0 <= j < |before| && before[j] == e && IsFirst(before, j);
      FirstInLonger(before, last, j);
      assert events[j] == e;
    } else if e == last && last.occurrenceId !in Ids(before) {
      assert events[|before|] == e;
    }
  }

  /** An event is kept exactly when no earlier one has its ID. */
  lemma {:induction false} FirstSeenIsFirst(events: seq<CalendarEvent>, e: CalendarEvent)
    ensures e in FirstSeen(events) <==> ComesFirst(events, e)
  {
    if events != [] {
      var before, last := events[..|events| - 1], events[|events| - 1];
      assert events == before + [last];
      FirstSeenIsFirst(before, e);
      FirstSeenKeeps(before);
      ComesFirstInLonger(before, last, e);
    }
  }

  lemma {:induction false} DistinctKeptAll(events: seq<CalendarEvent>)
    requires Distinct(events)
    ensures FirstSeen(events) == events
  {
    if events != [] {
      var before, last := events[..|events| - 1], events[|events| - 1];
      DistinctKeptAll(before);
      assert events == before + [last];
    }
  }

  lemma {:induction false} CoveringIsFilter(events: seq<CalendarEvent>, day: int, dateOf: int -> int)
    ensures forall e :: e in Covering(events, day, dateOf) <==> e in events && Covers(e, day, dateOf)
  {
    if events != [] {
      var before, last := events[..|events| - 1], events[|events| - 1];
      CoveringIsFilter(before, day, dateOf);
      assert events == before + [last];
    }
  }

  lemma {:induction false} CoveringDistinct(events: seq<CalendarEvent>, day: int, dateOf: int -> int)
    requires Distinct(events)
    ensures Distinct(Covering(events, day, dateOf))
  {
    if events != [] {
      var before, last := events[..|events| - 1], events[|events| - 1];
      CoveringDistinct(before, day, dateOf);
      CoveringIsFilter(before, day, dateOf);
      var kept := Covering(before, day, dateOf);
      forall i | 0 <= i < |kept|
        ensures kept[i].occurrenceId != last.occurrenceId
      {
        assert kept[i] in before;
      }
    }
  }

  lemma WeekEventsDistinct(payload: Payload, maxEvents: nat)
    ensures Distinct(WeekEvents(payload, maxEvents)) && |WeekEvents(payload, maxEvents)| <= maxEvents
  {
    FirstSeenKeeps(ParsedEvents(payload));
  }

  // ----- which events are kept, by their places in the payload -----

  /** The occurrence IDs of the well-formed entries. */
  function IdsIn(payload: Payload): set<string>
  {
    set i | 0 <= i < |payload| && payload[i].Some? :: payload[i].value.occurrenceId
  }

  /** Entry `j` is well-formed, and the first with its ID. */
  predicate IntroducesId(payload: Payload, j: int)
  {
    0 <= j < |payload| && payload[j].Some? && payload[j].value.occurrenceId !in IdsIn(payload[..j])
  }

  lemma IdsInLonger(payload: Payload)
    requires payload != []
    ensures var before, last := payload[..|payload| - 1], payload[|payload| - 1];
            IdsIn(payload) == IdsIn(before) + if last.Some? then {last.value.occurrenceId} else {}
  {
    var before, last := payload[..|payload| - 1], payload[|payload| - 1];
    assert forall i :: 0 <= i < |before| ==> payload[i] == before[i];
    forall id
      ensures id in IdsIn(payload) <==> id in IdsIn(before) || (last.Some? && id == last.value.occurrenceId)
    {
      if id in IdsIn(before) {
        var i :| 0 <= i < |before| && before[i].Some? && before[i].value.occurrenceId == id;
        assert payload[i].Some? && payload[i].value.occurrenceId == id;
      }
      if last.Some? && id == last.value.occurrenceId {
        assert payload[|payload| - 1].Some?;
      }
    }
  }

  lemma IdsSnoc(events: seq<CalendarEvent>, e: CalendarEvent)
    ensures Ids(events + [e]) == Ids(events) + {e.occurrenceId}
  {
  }

  lemma {:induction false} IdsParsed(payload: Payload)
    ensures IdsIn(payload) == Ids(ParsedEvents(payload))
  {
    if payload == [] {
      assert IdsIn(payload) == {};
    } else {
      var before, last := payload[..|payload| - 1], payload[|payload| - 1];
      IdsInLonger(payload);
      IdsParsed(before);
      if last.Some? {
        IdsSnoc(ParsedEvents(before), last.value);
      } else {
        assert ParsedEvents(payload) == ParsedEvents(before);
      }
      hide Ids, IdsIn;
    }
  }

  /** As many events are seen first as there are IDs. */
  lemma IdsSeen(payload: Payload)
    ensures IdsIn(payload) == Ids(FirstSeen(ParsedEvents(payload))) && |IdsIn(payload)| == |FirstSeen(ParsedEvents(payload))|
  {
    IdsParsed(payload);
    FirstSeenKeeps(ParsedEvents(payload));
    CountIds(FirstSeen(ParsedEvents(payload)));
  }

  lemma FirstSeenSnoc(events: seq<CalendarEvent>, e: CalendarEvent)
    ensures FirstSeen(events + [e]) == FirstSeen(events) + if e.occurrenceId in Ids(FirstSeen(events)) then [] else [e]
  {
    assert (events + [e])[..|events|] == events;
    hide Ids;
  }

  /** What one more entry adds to the events seen first. */
  lemma SeenNext(payload: Payload)
    requires payload != []
    ensures var seen := FirstSeen(ParsedEvents(payload[..|payload| - 1]));
            FirstSeen(ParsedEvents(payload)) ==
            seen + if IntroducesId(payload, |payload| - 1) then [payload[|payload| - 1].value] else []
  {
    var before, last := payload[..|payload| - 1], payload[|payload| - 1];
    IdsSeen(before);
    if last.Some? {
      FirstSeenSnoc(ParsedEvents(before), last.value);
    } else {
      assert ParsedEvents(payload) == ParsedEvents(before);
    }
    hide Ids, IdsIn, FirstSeen;
  }

  /** An entry that introduces an ID is the event seen first that has as many IDs before it. */
  lemma {:induction false} IntroducedAt(payload: Payload, j: nat)
    requires IntroducesId(payload, j)
    ensures var seen, k := FirstSeen(ParsedEvents(payload)), |IdsIn(payload[..j])|; k < |seen| && seen[k] == payload[j].value
    decreases |payload|
  {
    var before := payload[..|payload| - 1];
    SeenNext(payload);
    if j == |payload| - 1 {
      IdsSeen(before);
    } else {
      assert before[..j] == payload[..j];
      IntroducedAt(before, j);
    }
  }

  lemma {:induction false} SeenWasIntroduced(payload: Payload, k: nat) returns (j: nat)
    requires k < |FirstSeen(ParsedEvents(payload))|
    ensures IntroducesId(payload, j) && payload[j].value == FirstSeen(ParsedEvents(payload))[k] && |IdsIn(payload[..j])| == k
    decreases |payload|
  {
    var before := payload[..|payload| - 1];
    SeenNext(payload);
    IdsSeen(before);
    if k == |FirstSeen(ParsedEvents(before))| {
      j := |payload| - 1;
    } else {
      j := SeenWasIntroduced(before, k);
      assert before[..j] == payload[..j];
    }
  }

  /** An event is kept exactly when some entry is that event and the first with its ID, with fewer IDs before it than the cap. */
  lemma KeptExactly(payload: Payload, maxEvents: nat, e: CalendarEvent)
    ensures e in WeekEvents(payload, maxEvents) <==>
            exists j :: IntroducesId(payload, j) && payload[j] == Some(e) && |IdsIn(payload[..j])| < maxEvents
  {
    var seen, kept := FirstSeen(ParsedEvents(payload)), WeekEvents(payload, maxEvents);
    if e in kept {
      var k :| 0 <= k < |kept| && kept[k] == e;
      var j := SeenWasIntroduced(payload, k);
    }
    if j :| IntroducesId(payload, j) && payload[j] == Some(e) && |IdsIn(payload[..j])| < maxEvents {
      IntroducedAt(payload, j);
      assert kept[|IdsIn(payload[..j])|] == e;
    }
  }

  // ----- which day shows which events -----

  /** All-day events come first, by ID; timed ones after them, by start and then ID. */
  predicate InDayOrder(agenda: seq<CalendarEvent>)
  {
    forall p, q :: 0 <= p < q < |agenda| ==>
      && (agenda[p].span.Timed? ==> agenda[q].span.Timed?)
      && (agenda[p].span.AllDay? && agenda[q].span.AllDay? ==> LexLess(agenda[p].occurrenceId, agenda[q].occurrenceId))
      && (agenda[p].span.Timed? && agenda[q].span.Timed? ==>
            agenda[p].span.start < agenda[q].span.start
            || (agenda[p].span.start == agenda[q].span.start && LexLess(agenda[p].occurrenceId, agenda[q].occurrenceId)))
  }

  lemma SortedInDayOrder(agenda: seq<CalendarEvent>)
    requires Sorted(agenda)
    ensures InDayOrder(agenda)
  {
    hide LexLess;
    forall p, q | 0 <= p < q < |agenda|
      ensures Before(agenda[p], agenda[q])
    {
    }
  }

  /**
   * Day `i` lists exactly the kept events that cover it, in order and without repetition: an all-day event on each of its
   * days, its last one included, and a timed one from the local day it starts on to the local day it ends on.
   */
  lemma DayHoldsExactly(start: int, payload: Payload, maxEvents: nat, dateOf: int -> int, i: nat, e: CalendarEvent)
    requires i < 7
    ensures var agenda := OverviewOf(start, payload, maxEvents, dateOf).days[i];
            && InDayOrder(agenda) && Distinct(agenda)
            && (e in agenda <==>
                  && e in WeekEvents(payload, maxEvents)
                  && match e.span
                     case Timed(from, to) => dateOf(from) <= start + i <= dateOf(to)
                     case AllDay(first, last) => first <= start + i <= last)
  {
    var events := WeekEvents(payload, maxEvents);
    var covering := Covering(events, start + i, dateOf);
    WeekEventsDistinct(payload, maxEvents);
    CoveringDistinct(events, start + i, dateOf);
    CoveringIsFilter(events, start + i, dateOf);
    SortSorts(covering);
    SortedInDayOrder(SortEvents(covering));
    SortedDistinct(SortEvents(covering), events);
    hide InDayOrder, Sorted, Distinct, WeekEvents, SortEvents, Covering;
  }

  /** In an ordered list of events with different IDs, each comes once. */
  lemma SortedDistinct(agenda: seq<CalendarEvent>, events: seq<CalendarEvent>)
    requires Sorted(agenda) && Distinct(events) && forall e :: e in agenda ==> e in events
    ensures Distinct(agenda)
  {
    forall i, j | 0 <= i < j < |agenda|
      ensures agenda[i].occurrenceId != agenda[j].occurrenceId
    {
      assert agenda[i] in events && agenda[j] in events;
      BeforeIsStrictOrder(agenda[i], agenda[i], agenda[i]);
    }
  }

  lemma PermutedDistinct(a: seq<CalendarEvent>, b: seq<CalendarEvent>)
    requires Distinct(a) && multiset(a) == multiset(b)
    ensures Distinct(b)
  {
    forall i, j | 0 <= i < j < |b|
      ensures b[i].occurrenceId != b[j].occurrenceId
    {
      assert b[i] in multiset(a) && b[j] in multiset(a);
      if b[i] == b[j] {
        Twice(b, i, j);
        Once(a, b[i]);
      }
    }
  }

  lemma Twice(s: seq<CalendarEvent>, i: nat, j: nat)
    requires i < j < |s| && s[i] == s[j]
    ensures multiset(s)[s[i]] >= 2
  {
    assert s == s[..i] + [s[i]] + s[i + 1..j] + [s[j]] + s[j + 1..];
  }

  lemma {:induction false} Once(s: seq<CalendarEvent>, e: CalendarEvent)
    requires Distinct(s)
    ensures multiset(s)[e] <= 1
  {
    if s != [] {
      var before := s[..|s| - 1];
      Once(before, e);
      assert s == before + [s[|s| - 1]];
      if e == s[|s| - 1] {
        assert e !in before;
        assert multiset(before)[e] == 0;
      }
    }
  }

  // ----- the promises -----

  lemma {:induction false} SkippedNone(payload: Payload)
    ensures Skipped(payload) == 0 <==> None !in payload
  {
    if payload != [] {
      SkippedNone(payload[..|payload| - 1]);
      assert payload == payload[..|payload| - 1] + [payload[|payload| - 1]];
    }
  }

  /** The overview says it is complete exactly when no entry was malformed and the cap was not exceeded. */
  lemma CompleteIffNothingLost(start: int, payload: Payload, maxEvents: nat, dateOf: int -> int)
    ensures OverviewOf(start, payload, maxEvents, dateOf).complete <==> None !in payload && |IdsIn(payload)| <= maxEvents
  {
    SkippedNone(payload);
    IdsSeen(payload);
  }

  /** The notes count the malformed entries, and name the cap when there were more events; the total is what was kept. */
  lemma NotesSayWhy(start: int, payload: Payload, maxEvents: nat, dateOf: int -> int)
    ensures var overview := OverviewOf(start, payload, maxEvents, dateOf);
            && overview.start == start && |overview.days| == 7
            && overview.total == (if |IdsIn(payload)| > maxEvents then maxEvents else |IdsIn(payload)|)
            && overview.notes == (if None in payload then [SkippedMalformed(multiset(payload)[None])] else [])
                                 + (if |IdsIn(payload)| > maxEvents then [ReachedCap(maxEvents)] else [])
  {
    SkippedNone(payload);
    SkippedMultiset(payload);
    IdsSeen(payload);
  }

  lemma {:induction false} CountIds(events: seq<CalendarEvent>)
    requires Distinct(events)
    ensures |Ids(events)| == |events|
  {
    if events == [] {
      assert Ids(events) == {};
    } else {
      var before, last := events[..|events| - 1], events[|events| - 1];
      CountIds(before);
      assert events == before + [last];
      assert Ids(events) == Ids(before) + {last.occurrenceId};
      assert last.occurrenceId !in Ids(before);
    }
  }

  lemma {:induction false} ParsedMultiset(payload: Payload, e: CalendarEvent)
    ensures multiset(ParsedEvents(payload))[e] == multiset(payload)[Some(e)]
  {
    if payload != [] {
      var before, last := payload[..|payload| - 1], payload[|payload| - 1];
      ParsedMultiset(before, e);
      assert payload == before + [last];
      assert multiset(payload)[Some(e)] == multiset(before)[Some(e)] + if last == Some(e) then 1 else 0;
      if last.None? {
        assert ParsedEvents(payload) == ParsedEvents(before);
      } else {
        assert ParsedEvents(payload) == ParsedEvents(before) + [last.value];
      }
    }
  }

  lemma {:induction false} SkippedMultiset(payload: Payload)
    ensures Skipped(payload) == multiset(payload)[None]
  {
    if payload != [] {
      SkippedMultiset(payload[..|payload| - 1]);
      assert payload == payload[..|payload| - 1] + [payload[|payload| - 1]];
    }
  }

  /** The order in which the server lists the events does not matter, as long as their IDs differ and fit the cap. */
  lemma OrderDoesNotMatter(start: int, payload: Payload, other: Payload, maxEvents: nat, dateOf: int -> int)
    requires multiset(payload) == multiset(other)
    requires Distinct(ParsedEvents(payload)) && |ParsedEvents(payload)| <= maxEvents
    ensures OverviewOf(start, payload, maxEvents, dateOf) == OverviewOf(start, other, maxEvents, dateOf)
  {
    var a, b := ParsedEvents(payload), ParsedEvents(other);
    SameParsed(payload, other);
    PermutedDistinct(a, b);
    DistinctKeptAll(a);
    DistinctKeptAll(b);
    SkippedMultiset(payload);
    SkippedMultiset(other);
    SameOverview(start, payload, other, maxEvents, dateOf);
  }

  lemma SameOverview(start: int, payload: Payload, other: Payload, maxEvents: nat, dateOf: int -> int)
    requires NotesOf(payload, maxEvents) == NotesOf(other, maxEvents)
    requires var a, b := WeekEvents(payload, maxEvents), WeekEvents(other, maxEvents);
             |a| == |b| && Distinct(a) && Distinct(b) && SameEvents(a, b)
    ensures OverviewOf(start, payload, maxEvents, dateOf) == OverviewOf(start, other, maxEvents, dateOf)
  {
    var left, right := OverviewOf(start, payload, maxEvents, dateOf), OverviewOf(start, other, maxEvents, dateOf);
    forall i | 0 <= i < 7
      ensures left.days[i] == right.days[i]
    {
      SameDay(WeekEvents(payload, maxEvents), WeekEvents(other, maxEvents), start + i, dateOf);
    }
    assert left.days == right.days;
  }

  lemma SameParsed(payload: Payload, other: Payload)
    requires multiset(payload) == multiset(other)
    ensures multiset(ParsedEvents(payload)) == multiset(ParsedEvents(other)) && |ParsedEvents(payload)| == |ParsedEvents(other)|
    ensures SameEvents(ParsedEvents(payload), ParsedEvents(other))
  {
    var a, b := ParsedEvents(payload), ParsedEvents(other);
    forall e
      ensures multiset(a)[e] == multiset(b)[e]
    {
      ParsedMultiset(payload, e);
      ParsedMultiset(other, e);
    }
    assert multiset(a) == multiset(b);
    assert |multiset(a)| == |a| && |multiset(b)| == |b|;
    assert forall e :: e in a <==> e in multiset(a);
    assert forall e :: e in b <==> e in multiset(b);
  }

  lemma SameDay(a: seq<CalendarEvent>, b: seq<CalendarEvent>, day: int, dateOf: int -> int)
    requires Distinct(a) && Distinct(b) && SameEvents(a, b)
    ensures SortEvents(Covering(a, day, dateOf)) == SortEvents(Covering(b, day, dateOf))
  {
    CoveringIsFilter(a, day, dateOf);
    CoveringIsFilter(b, day, dateOf);
    CoveringDistinct(a, day, dateOf);
    CoveringDistinct(b, day, dateOf);
    var x, y := Covering(a, day, dateOf), Covering(b, day, dateOf);
    SortSorts(x);
    SortSorts(y);
    SortedIsUnique(SortEvents(x), SortEvents(y));
  }

  // ----- buckets and the server's overlap rule -----

  /** `midnight(d)` is the first instant whose local date is `d` or later. */
  ghost predicate Midnights(dateOf: int -> int, midnight: int -> int)
  {
    forall t, d :: dateOf(t) >= d <==> t >= midnight(d)
  }

  /**
   * Where the local date is monotone, the days are the server's overlap rule on the local day: a kept timed event is on day
   * `i` when it starts before the day ends and ends after the day starts, and also when it ends exactly at its midnight.
   */
  lemma BucketsAreOverlaps(start: int, payload: Payload, maxEvents: nat, dateOf: int -> int, midnight: int -> int, i: nat, e: CalendarEvent)
    requires Midnights(dateOf, midnight) && i < 7 && e in WeekEvents(payload, maxEvents) && e.span.Timed?
    ensures var from, to := midnight(start + i), midnight(start + i + 1);
            e in OverviewOf(start, payload, maxEvents, dateOf).days[i] <==>
            (e.span.start < to && e.span.end > from) || (e.span.start < to && e.span.end == from)
  {
    DayHoldsExactly(start, payload, maxEvents, dateOf, i, e);
    assert dateOf(e.span.start) >= start + i + 1 <==> e.span.start >= midnight(start + i + 1);
    assert dateOf(e.span.end) >= start + i <==> e.span.end >= midnight(start + i);
  }

  // ----- as the service runs it -----

  type Agendas = map<int, seq<CalendarEvent>>

  /** The dict of days with the event appended to each key that it covers. */
  function WithEvent(days: Agendas, e: CalendarEvent, first: int, last: int): Agendas
  {
    map d | d in days :: if first <= d <= last then days[d] + [e] else days[d]
  }

  /** Walk the event's days, appending it to those that the dict has. */
  method AssignDays(e: CalendarEvent, first: int, last: int, days: Agendas) returns (filled: Agendas)
    ensures filled == WithEvent(days, e, first, last)
  {
    filled := days;
    var day := first;
    while day <= last
      invariant first <= day && (day <= last + 1 || (first == day && filled == days))
      invariant filled == WithEvent(days, e, first, day - 1)
    {
      if day in filled {
        filled := filled[day := filled[day] + [e]];
      }
      day := day + 1;
    }
  }

  lemma FirstSeenAppend(kept: seq<CalendarEvent>, parsed: seq<CalendarEvent>, i: nat)
    requires i < |parsed|
    ensures var all := FirstSeen(kept + parsed[..i]);
            FirstSeen(kept + parsed[..i + 1]) == if parsed[i].occurrenceId in Ids(all) then all else all + [parsed[i]]
  {
    var before := kept + parsed[..i];
    assert kept + parsed[..i + 1] == before + [parsed[i]];
    assert (before + [parsed[i]])[..|before|] == before;
  }

  /** Add what was fetched, the first of each ID; an insertion-ordered dict is its values in order. */
  method Deduplicate(kept: seq<CalendarEvent>, parsed: seq<CalendarEvent>) returns (all: seq<CalendarEvent>)
    requires Distinct(kept)
    ensures all == FirstSeen(kept + parsed)
  {
    all := kept;
    DistinctKeptAll(kept);
    assert kept + parsed[..0] == kept;
    for i := 0 to |parsed|
      invariant all == FirstSeen(kept + parsed[..i])
    {
      FirstSeenAppend(kept, parsed, i);
      if parsed[i].occurrenceId !in Ids(all) {
        all := all + [parsed[i]];
      }
    }
    assert parsed[..|parsed|] == parsed;
  }

  method ParseEvents(payload: Payload) returns (events: seq<CalendarEvent>, skipped: nat)
    ensures events == ParsedEvents(payload) && skipped == Skipped(payload)
  {
    events, skipped := [], 0;
    for i := 0 to |payload|
      invariant events == ParsedEvents(payload[..i]) && skipped == Skipped(payload[..i])
    {
      assert payload[..i + 1][..i] == payload[..i];
      match payload[i] {
        case Some(e) => events := events + [e];
        case None => skipped := skipped + 1;
      }
    }
    assert payload[..|payload|] == payload;
  }

  /** Separate all-day from timed events, sort each part by its own key, put all-day first. */
  method OrderEventsInDay(events: seq<CalendarEvent>) returns (ordered: seq<CalendarEvent>)
    requires Distinct(events)
    ensures ordered == SortEvents(events)
  {
    var allDay: seq<CalendarEvent>, timed: seq<CalendarEvent> := [], [];
    for i := 0 to |events|
      invariant Distinct(allDay) && Distinct(timed)
      invariant forall e :: e in allDay <==> e in events[..i] && e.span.AllDay?
      invariant forall e :: e in timed <==> e in events[..i] && e.span.Timed?
    {
      assert events[..i + 1] == events[..i] + [events[i]];
      assert forall e :: e in events[..i] ==> e.occurrenceId != events[i].occurrenceId;
      if events[i].span.AllDay? {
        allDay := allDay + [events[i]];
      } else {
        timed := timed + [events[i]];
      }
    }
    assert events[..|events|] == events;
    SortSorts(allDay);
    SortSorts(timed);
    SortSorts(events);
    ordered := SortEvents(allDay) + SortEvents(timed);
    assert forall i :: 0 <= i < |SortEvents(allDay)| ==> SortEvents(allDay)[i] in allDay;
    assert forall i :: 0 <= i < |SortEvents(timed)| ==> SortEvents(timed)[i] in timed;
    SortedIsUnique(ordered, SortEvents(events));
  }

  /** The dict after some events: each day holds those that cover it, in fetch order. */
  function Buckets(start: int, events: seq<CalendarEvent>, dateOf: int -> int): Agendas
  {
    map d | start <= d < start + 7 :: Covering(events, d, dateOf)
  }

  method AssignEvents(start: int, events: seq<CalendarEvent>, dateOf: int -> int) returns (days: Agendas)
    ensures days == Buckets(start, events, dateOf)
  {
    days := map[];
    for offset := 0 to 7
      invariant forall d :: d in days <==> start <= d < start + offset
      invariant forall d :: d in days ==> days[d] == []
    {
      days := days[start + offset := []];
    }
    for i := 0 to |events|
      invariant days == Buckets(start, events[..i], dateOf)
    {
      assert events[..i + 1][..i] == events[..i];
      match events[i].span {
        case Timed(from, to) => days := AssignDays(events[i], dateOf(from), dateOf(to), days);
        case AllDay(first, last) => days := AssignDays(events[i], first, last, days);
      }
    }
    assert events[..|events|] == events;
  }

  /** The fetch loop: 31 days at most per request, stopping at the cap. */
  method FetchWeek(start: int, maxEvents: nat, fetch: (int, int) -> Result<Payload, ErrorInfo>)
      returns (fetched: Result<(seq<CalendarEvent>, bool, seq<Note>), ErrorInfo>)
    ensures match fetch(start, 7)
            case Err(error) => fetched == Err(error)
            case Ok(payload) =>
              fetched == Ok((WeekEvents(payload, maxEvents), NotesOf(payload, maxEvents) == [], NotesOf(payload, maxEvents)))
  {
    var all: seq<CalendarEvent>, complete, notes: seq<Note> := [], true, [];
    var current, end := start, start + 7;
    while current < end
      invariant current == start || current == end
      invariant current == start ==> all == [] && complete && notes == []
      invariant current == end ==>
                  fetch(start, 7).Ok?
                  && all == WeekEvents(fetch(start, 7).value, maxEvents) && notes == NotesOf(fetch(start, 7).value, maxEvents)
                  && complete == (notes == [])
    {
      var chunk := if end - current < MAX_DAYS_PER_REQUEST then end - current else MAX_DAYS_PER_REQUEST;
      var reply := fetch(current, chunk);
      if reply.Err? {
        return Err(reply.error);
      }
      var parsed, skipped := ParseEvents(reply.value);
      if skipped > 0 {
        complete, notes := false, notes + [SkippedMalformed(skipped)];
      }
      assert [] + parsed == parsed;
      all := Deduplicate(all, parsed);
      if |all| > maxEvents {
        all, complete, notes := all[..maxEvents], false, notes + [ReachedCap(maxEvents)];
        break;
      }
      current := current + chunk;
    }
    assert all == WeekEvents(fetch(start, 7).value, maxEvents);
    assert notes == NotesOf(fetch(start, 7).value, maxEvents);
    return Ok((all, complete, notes));
  }

  /** The agenda of each of the seven days. */
  method OrderDays(start: int, events: seq<CalendarEvent>, days: Agendas, dateOf: int -> int)
      returns (agendas: seq<seq<CalendarEvent>>)
    requires Distinct(events) && days == Buckets(start, events, dateOf)
    ensures agendas == seq(7, i => SortEvents(Covering(events, start + i, dateOf)))
  {
    agendas := [];
    for offset := 0 to 7
      invariant |agendas| == offset
      invariant forall i :: 0 <= i < offset ==> agendas[i] == SortEvents(Covering(events, start + i, dateOf))
    {
      CoveringDistinct(events, start + offset, dateOf);
      var ordered := OrderEventsInDay(days[start + offset]);
      agendas := agendas + [ordered];
    }
  }

  /** `get_week_overview` computes the declarative overview of what one fetch of the whole week returned. */
  method GetWeekOverview(reference: int, sunday: bool, maxEvents: nat, dateOf: int -> int,
                         fetch: (int, int) -> Result<Payload, ErrorInfo>) returns (overview: Result<Overview, ErrorInfo>)
    ensures var start := WeekStart(reference, sunday);
            match fetch(start, 7)
            case Err(error) => overview == Err(error)
            case Ok(payload) => overview == Ok(OverviewOf(start, payload, maxEvents, dateOf))
  {
    var start := WeekStart(reference, sunday);
    var fetched := FetchWeek(start, maxEvents, fetch);
    if fetched.Err? {
      return Err(fetched.error);
    }
    var (events, complete, notes) := fetched.value;
    var days := AssignEvents(start, events, dateOf);
    WeekEventsDistinct(fetch(start, 7).value, maxEvents);
    var agendas := OrderDays(start, events, days, dateOf);
    assert agendas == OverviewOf(start, fetch(start, 7).value, maxEvents, dateOf).days;
    return Ok(Overview(start, agendas, |events|, complete, notes));
  }
}
