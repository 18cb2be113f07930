/** Where the promises of the write protocol stop: the weaker replay of `set_item_checked`, and overlapping calls. */
module WriteLimits {
  import opened Common
  import opened Domain
  import opened WireForms
  import opened WriteTools
  import opened WriteProtocol
  import opened WriteRuns
  import opened WriteTheorems

  lemma CheckedReplays(c: Call, q: Request, answer: Answer, last: Receipt)
    requires FormError(c.request) == None && FormError(q) == None && SameIntent(c.request, q) && q.SetChecked?
    requires Recorded(c, answer, last)
    ensures answer.Returned? ==> Replay(q, last) == Returned(SetCheckedResult(Confirmed))
    ensures answer.Returned? ==> (Replay(q, last) == answer <==> answer.result.outcome == Confirmed)
    ensures answer.Raised? ==> Replay(q, last) == Returned(SetCheckedResult(Unclear))
  {
    SameIntentSameDigest(c.request, q);
    BareOfSameIntent(c.request, q, Unclear);
  }

  /**
   * Marking an item replays the first answer exactly when that answer was "confirmed": any returned outcome, unknown
   * included, is replayed as confirmed, and a refusal as unknown.
   */
  lemma CheckedReplayIsFaithfulIffConfirmed(s: System, o: nat, i: nat, g: nat)
    requires Reachable(s) && Retries(s, o, g) && s.begun[s.log[g].id].request.SetChecked?
    requires o < i < g && s.log[i].id == s.log[o].id && s.log[i].effect.Answered?
    ensures s.log[g].effect.found.Some?
    ensures var answer, replay := s.log[i].effect.answer, Replay(s.begun[s.log[g].id].request, s.log[g].effect.found.value);
            && (SameAnswer(replay, answer) <==> answer.Returned? && answer.result.outcome == Confirmed)
            && replay == Returned(SetCheckedResult(if answer.Returned? then Confirmed else Unclear))
  {
    ReachableInv(s);
    GetFindsLastReceipt(s, o, g);
    var c := s.begun[s.log[o].id];
    AnswerIsRecorded(c, s.log, i);
    TraceStops(s.log, i, g);
    PrefixPuts(s.log, i, s.log[i].id);
    CheckedReplays(c, s.begun[s.log[g].id].request, s.log[i].effect.answer, s.log[g].effect.found.value);
  }

  // ----- runs that show where the promises stop -----

  /** Some steps lead from `origin` to `s`. */
  ghost predicate Leads(origin: System, s: System)
  {
    exists steps :: After(origin, steps) == Some(s)
  }

  lemma LeadsOn(origin: System, s: System, step: Step)
    requires Leads(origin, s) && Enabled(s, step)
    ensures Leads(origin, Next(s, step))
  {
    var steps :| After(origin, steps) == Some(s);
    assert (steps + [step])[..|steps|] == steps;
    assert After(origin, steps + [step]) == Some(Next(s, step));
  }

  /** Call `id` has had effects `t`, its phase is `p`, and it can go on. */
  ghost predicate Stands(s: System, id: nat, c: Call, t: Trace, p: Phase)
  {
    id in s.active && id < |s.begun| && s.begun[id] == c && TraceOf(s.log, id) == t && RunOf(c, t) == Some(p)
  }

  /** From `s` to `s'` only call `id` has moved, at one instant. */
  ghost predicate Moved(s: System, s': System, id: nat)
  {
    && s'.begun == s.begun && s'.now == s.now && s'.expiring == s.expiring && s.log <= s'.log
    && forall other: nat :: other != id ==>
         TraceOf(s'.log, other) == TraceOf(s.log, other) && (other in s'.active <==> other in s.active)
  }

  /** One more effect of a call. */
  lemma Acts(origin: System, s: System, id: nat, c: Call, t: Trace, p: Phase, e: Effect) returns (s': System)
    requires Leads(origin, s) && Stands(s, id, c, t, p) && Allowed(c, p, e)
    requires e.Got? ==> e.found == Live(s.expiring, s.receipts, s.now, c.key)
    requires e.Put? ==> e.receipt.expiresAt == s.now + RECEIPT_TTL
    ensures Leads(origin, s') && Moved(s, s', id) && s'.log == s.log + [Entry(id, c.key, s.now, e)]
    ensures s'.receipts == (if e.Put? then s.receipts[e.receipt.key := e.receipt] else s.receipts)
    ensures s'.active == if e.Answered? then s.active - {id} else s.active
    ensures !e.Answered? ==> Stands(s', id, c, t + [e], NextPhase(c, p, e))
  {
    s' := Next(s, Act(id, e));
    RunOfStep(c, t, e);
    forall jd: nat {
      TraceOfAppend(s.log, Entry(id, c.key, s.now, e), jd);
    }
    LeadsOn(origin, s, Act(id, e));
  }

  lemma MovedOn(s: System, r: System, s': System, id: nat)
    requires Moved(s, r, id) && Moved(r, s', id)
    ensures Moved(s, s', id)
  {
  }

  lemma NotMoved(s: System, id: nat, c: Call, t: Trace, p: Phase)
    requires Stands(s, id, c, t, p)
    ensures Moved(s, s, id) && RunOf(c, t) == Some(p)
  {
  }

  /** Any further exchanges of a call. */
  lemma {:induction false} Exchanges(origin: System, s: System, id: nat, c: Call, t: Trace, p: Phase, more: Trace, q: Phase)
      returns (s': System)
    requires Leads(origin, s) && Stands(s, id, c, t, p)
    requires RunOf(c, t + more) == Some(q) && forall e :: e in more ==> e.Exchanged?
    ensures Leads(origin, s') && Moved(s, s', id) && s'.receipts == s.receipts && s'.active == s.active
    ensures Stands(s', id, c, t + more, q)
    decreases |more|
  {
    hide *;
    if more == [] {
      assert t + more == t;
      s' := s;
      NotMoved(s, id, c, t, p);
    } else {
      var fewer, e := more[..|more| - 1], more[|more| - 1];
      assert e in more && e.Exchanged?;
      assert t + more == t + fewer + [e];
      var k := LastStep(c, t + fewer, e);
      var r := Exchanges(origin, s, id, c, t, p, fewer, k);
      s' := Acts(origin, r, id, c, t + fewer, k, e);
      MovedOn(s, r, s', id);
    }
  }

  /** A call that gets as far as its receipt, when FamilyWall holds its target. */
  predicate CanOpen(c: Call)
  {
    Accepted(c) && (c.request.SetAttendees? ==> c.request.window.Some?)
  }

  /** A target that passes every gate. */
  function Target(r: Request): Before
  {
    match r
    case SetAssignees(itemId, _) => FoundItem("taskList/1", ListItem(itemId, "taskList/1", "", false, None, [], None, None, None))
    case SetChecked(itemId, _) => FoundItem("taskList/1", ListItem(itemId, "taskList/1", "", false, None, [], None, None, None))
    case SetAttendees(eventId, _, _, calendarId) =>
      FoundEvent(CalendarEvent(eventId, "", Timed(0, 1), "UNKNOWN", Some(calendarId), None, None, None, false, false, [], None,
                               Some(true), None))
    case _ => Nothing
  }

  /** The reads that find it. */
  function Reads(r: Request): Trace
  {
    match r
    case SetAssignees(_, _) => ScanOfOne(Target(r).item)
    case SetChecked(_, _) => ScanOfOne(Target(r).item)
    case SetAttendees(_, Some(day), _, calendarId) =>
      [Exchanged(ListInterval(calendarId, DayWindow(day.0, day.1)), Events([Target(r).event]))]
    case _ => []
  }

  function ScanOfOne(item: ListItem): Trace
  {
    [Exchanged(GetLists, Lists(["taskList/1"])), Exchanged(GetList("taskList/1"), Items([item]))]
  }

  lemma ScanOpens(c: Call)
    requires Accepted(c) && Scans(c.request)
    ensures RunOf(c, [Got(None)] + Reads(c.request)) == Some(Opening(Target(c.request)))
  {
    var item := Target(c.request).item;
    var u := [Got(None)];
    var lists, found := Exchanged(GetLists, Lists(["taskList/1"])), Exchanged(GetList("taskList/1"), Items([item]));
    RunOfStep(c, [], Got(None));
    assert [] + [Got(None)] == u;
    RunOfStep(c, u, lists);
    assert ScanOf(["taskList/1"]) == Scanning(["taskList/1"]);
    RunOfStep(c, u + [lists], found);
    assert u + [lists] + [found] == u + Reads(c.request);
  }

  lemma LookupOpens(c: Call)
    requires Accepted(c) && LooksUp(c.request)
    ensures RunOf(c, [Got(None)] + Reads(c.request)) == Some(Opening(Target(c.request)))
  {
    RunOfStep(c, [], Got(None));
    assert [] + [Got(None)] == [Got(None)];
    RunOfStep(c, [Got(None)], Reads(c.request)[0]);
    assert [Got(None)] + [Reads(c.request)[0]] == [Got(None)] + Reads(c.request);
  }

  lemma ReadsOpen(c: Call)
    requires CanOpen(c)
    ensures RunOf(c, [Got(None)]) == Some(AfterMiss(c.request))
    ensures RunOf(c, [Got(None)] + Reads(c.request)) == Some(Opening(Target(c.request)))
  {
    RunOfStep(c, [], Got(None));
    assert [] + [Got(None)] == [Got(None)];
    if Scans(c.request) {
      ScanOpens(c);
    } else if c.request.SetAttendees? {
      LookupOpens(c);
    } else {
      assert [Got(None)] + Reads(c.request) == [Got(None)];
    }
  }

  /** A call that found no receipt reads its target and opens, whatever the others have done. */
  lemma Opens(origin: System, s: System, id: nat, c: Call) returns (s': System, t: Trace, b: Before)
    requires CanOpen(c) && Leads(origin, s) && Stands(s, id, c, [Got(None)], AfterMiss(c.request))
    ensures Leads(origin, s') && Moved(s, s', id) && s'.active == s.active && |s'.log| > |s.log|
    ensures Stands(s', id, c, t, Sending(b))
    ensures var last := s'.log[|s'.log| - 1]; last == Entry(id, c.key, s.now, last.effect) && IsOpening(last.effect)
  {
    ReadsOpen(c);
    b := Target(c.request);
    var r := Exchanges(origin, s, id, c, [Got(None)], AfterMiss(c.request), Reads(c.request), Opening(b));
    s' := Acts(origin, r, id, c, [Got(None)] + Reads(c.request), Opening(b), OpeningPut(c, s.now));
    t := [Got(None)] + Reads(c.request) + [OpeningPut(c, s.now)];
    MovedOn(s, r, s', id);
  }

  function OpeningPut(c: Call, now: int): Effect
    requires Accepted(c)
  {
    Put(ReceiptOf(c, Target(c.request), Pending, None, now + RECEIPT_TTL))
  }

  function Sent(c: Call, reply: Reply): Effect
    requires Accepted(c)
  {
    Exchanged(Mutate(Endpoint(c.request), FormOf(c.request)), reply)
  }

  lemma SendAllowed(c: Call, b: Before, reply: Reply)
    requires PhaseFits(c, Sending(b))
    ensures Allowed(c, Sending(b), Sent(c, reply))
    ensures NextPhase(c, Sending(b), Sent(c, reply)) == AfterSend(c.request, b, reply)
  {
  }

  // ----- calls with one key that overlap -----

  /** Two calls, both started, before either has read its receipt. */
  function BothStarted(a: Call, b: Call): System
  {
    System(true, map[], map[], [], 0, [a, b], {0, 1})
  }

  /** Both look the receipt up before either writes one: neither sees the other. */
  lemma BothMiss(a: Call, b: Call) returns (s: System)
    requires CanOpen(a) && CanOpen(b)
    ensures Leads(BothStarted(a, b), s)
    ensures Stands(s, 0, a, [Got(None)], AfterMiss(a.request)) && Stands(s, 1, b, [Got(None)], AfterMiss(b.request))
  {
    var s0 := BothStarted(a, b);
    assert After(s0, []) == Some(s0);
    assert Stands(s0, 0, a, [], Checking) && Stands(s0, 1, b, [], Checking);
    assert [] + [Got(None)] == [Got(None)];
    var s1 := Acts(s0, s0, 0, a, [], Checking, Got(None));
    assert Stands(s1, 1, b, [], Checking);
    s := Acts(s0, s1, 1, b, [], Checking, Got(None));
  }

  lemma OpensAndSends(origin: System, s: System, id: nat, c: Call) returns (s': System)
    requires CanOpen(c) && Leads(origin, s) && Stands(s, id, c, [Got(None)], AfterMiss(c.request))
    ensures Leads(origin, s') && Moved(s, s', id) && |s'.log| > |s.log|
    ensures IsSend(s'.log[|s'.log| - 1].effect) && s'.log[|s'.log| - 1].key == c.key
  {
    hide RunOf, TraceOf, After, Leads, Moved, PhaseFits, Allowed;
    var r, t, b := Opens(origin, s, id, c);
    SendAllowed(c, b, OtherShape);
    s' := Acts(origin, r, id, c, t, Sending(b), Sent(c, OtherShape));
    MovedOn(s, r, s', id);
  }

  /**
   * The condition that calls with one key do not overlap is needed: any two calls with the same key that get as far as
   * their receipts, of whichever tools, can both send once both are under way.
   */
  lemma OverlapSendsTwice(a: Call, b: Call)
    requires CanOpen(a) && CanOpen(b) && a.key == b.key
    ensures exists s, i, j ::
              && Leads(BothStarted(a, b), s) && 0 <= i < j < |s.log|
              && IsSend(s.log[i].effect) && IsSend(s.log[j].effect) && s.log[i].key == s.log[j].key
  {
    var s2 := BothMiss(a, b);
    var s4 := OpensAndSends(BothStarted(a, b), s2, 0, a);
    assert Stands(s4, 1, b, [Got(None)], AfterMiss(b.request));
    var s6 := OpensAndSends(BothStarted(a, b), s4, 1, b);
    var i, j := |s4.log| - 1, |s6.log| - 1;
    assert s6.log[i] == s4.log[i];
  }

  // ----- the replay statements are about something -----

  function Fresh(): System
  {
    Initial(true, map[], 0)
  }

  lemma Starts(s: System, c: Call) returns (s': System)
    requires Leads(Fresh(), s) && s.active == {} && Accepted(c)
    ensures Leads(Fresh(), s') && Stands(s', |s.begun|, c, [], Checking) && s'.active == {|s.begun|}
    ensures s' == s.(begun := s.begun + [c], active := {|s.begun|})
  {
    ReachableIds(s);
    UnseenTrace(s.log, |s.begun|);
    s' := Next(s, Start(c));
    assert s.active + {|s.begun|} == {|s.begun|};
    LeadsOn(Fresh(), s, Start(c));
  }

  /** The only call so far opened at log position `o`, has had effects `t` and stands at `p`. */
  ghost predicate Alone(s: System, c: Call, t: Trace, p: Phase, o: nat)
  {
    && Leads(Fresh(), s) && s.begun == [c] && s.active == {0} && s.now == 0 && s.expiring && Stands(s, 0, c, t, p)
    && o < |s.log| && s.log[o] == Entry(0, c.key, 0, s.log[o].effect) && IsOpening(s.log[o].effect)
  }

  lemma AloneActs(s: System, c: Call, t: Trace, p: Phase, o: nat, e: Effect) returns (s': System)
    requires Alone(s, c, t, p, o) && Allowed(c, p, e) && !e.Got? && !e.Answered? && (e.Put? ==> e.receipt.expiresAt == RECEIPT_TTL)
    ensures Alone(s', c, t + [e], NextPhase(c, p, e), o)
  {
    s' := Acts(Fresh(), s, 0, c, t, p, e);
    assert s'.log[o] == s.log[o];
  }

  lemma AloneAnswers(s: System, c: Call, t: Trace, answer: Answer, o: nat) returns (s': System, i: nat)
    requires Alone(s, c, t, Closing(answer), o)
    ensures AnsweredOnce(s', c, o, i, answer)
  {
    s' := Acts(Fresh(), s, 0, c, t, Closing(answer), Answered(answer));
    i := |s.log|;
    assert s'.log[o] == s.log[o];
  }

  /** A call on its own opens its receipt and is about to send. */
  lemma OpensAlone(c: Call) returns (s: System, t: Trace, b: Before, o: nat)
    requires CanOpen(c)
    ensures Alone(s, c, t, Sending(b), o)
  {
    hide RunOf, TraceOf, After, PhaseFits;
    var r := MissesAlone(c);
    s, t, b := Opens(Fresh(), r, 0, c);
    o := |s.log| - 1;
  }

  lemma MissesAlone(c: Call) returns (s: System)
    requires CanOpen(c)
    ensures Leads(Fresh(), s) && s.begun == [c] && s.active == {0} && s.now == 0 && s.expiring
    ensures Stands(s, 0, c, [Got(None)], AfterMiss(c.request))
  {
    assert After(Fresh(), []) == Some(Fresh());
    var r := Starts(Fresh(), c);
    s := Acts(Fresh(), r, 0, c, [], Checking, Got(None));
    assert [] + [Got(None)] == [Got(None)];
  }

  /** The same call sends, its reply is lost, and it answers "unknown". */
  lemma LosesItsReply(c: Call) returns (s: System, o: nat, i: nat)
    requires CanOpen(c)
    ensures AnsweredOnce(s, c, o, i, Returned(Bare(c.request, Unclear)))
  {
    hide RunOf, TraceOf, After, Leads, PhaseFits, Allowed, Fresh, AnsweredOnce;
    var r, t, b, k := OpensAlone(c);
    var lost := Sent(c, Failed(Indeterminate(ErrorInfo(MalformedPayload, None))));
    SendAllowed(c, b, lost.reply);
    var u := AloneActs(r, c, t, Sending(b), k, lost);
    s, i := GivesUpAlone(u, c, t + [lost], b, k);
    o := k;
  }

  lemma GivesUpAlone(r: System, c: Call, t: Trace, b: Before, o: nat) returns (s: System, i: nat)
    requires Alone(r, c, t, GivingUp(b), o)
    ensures AnsweredOnce(s, c, o, i, Returned(Bare(c.request, Unclear)))
  {
    var put := Put(ReceiptOf(c, b, Unknown, None, RECEIPT_TTL));
    var u := AloneActs(r, c, t, GivingUp(b), o, put);
    s, i := AloneAnswers(u, c, t + [put], Returned(Bare(c.request, Unclear)), o);
  }

  /** A marking on its own is refused, and raises that. */
  lemma IsRefused(c: Call, info: ErrorInfo) returns (s: System, o: nat, i: nat)
    requires CanOpen(c) && c.request.SetChecked?
    ensures AnsweredOnce(s, c, o, i, Raised(info))
  {
    hide RunOf, TraceOf, After, Leads, PhaseFits, Allowed, Fresh, AnsweredOnce;
    var r, t, b, k := OpensAlone(c);
    var refused := Sent(c, Failed(Refused(info)));
    SendAllowed(c, b, refused.reply);
    var u := AloneActs(r, c, t, Sending(b), k, refused);
    s, i := AloneAnswers(u, c, t + [refused], Raised(info), k);
    o := k;
  }

  /** The only call so far opened at `o` and answered at `i`. */
  ghost predicate AnsweredOnce(s: System, c: Call, o: nat, i: nat, answer: Answer)
  {
    && Leads(Fresh(), s) && s.begun == [c] && s.active == {} && s.now == 0 && s.expiring
    && o < i < |s.log| && s.log[o] == Entry(0, c.key, 0, s.log[o].effect) && IsOpening(s.log[o].effect)
    && s.log[i] == Entry(0, c.key, 0, Answered(answer))
  }

  /** In a run, a call opened at `o` and answered at `i`, and a retry that looked up at `g` answered next. */
  ghost predicate AnsweredTwice(s: System, o: nat, i: nat, g: nat, first: Answer, second: Answer)
  {
    && Reachable(s) && Retries(s, o, g) && o < i < g < |s.log| - 1
    && s.log[i].id == s.log[o].id && s.log[i].effect == Answered(first)
    && s.log[g + 1].id == s.log[g].id && s.log[g + 1].effect == Answered(second)
  }

  /** After `s` the retry `d` has started and has found the receipt. */
  ghost predicate Found(s: System, r: System, d: Call, o: nat)
  {
    && Leads(Fresh(), r) && Reachable(r) && Retries(r, o, |s.log|) && |r.log| == |s.log| + 1 && s.log <= r.log
    && r.begun == s.begun + [d] && r.log[|s.log|].id == |s.begun| && r.log[|s.log|].effect.found.Some?
    && Stands(r, |s.begun|, d, [r.log[|s.log|].effect], Closing(Replay(d.request, r.log[|s.log|].effect.found.value)))
  }

  lemma FindsIt(s: System, c: Call, d: Call, o: nat, i: nat, first: Answer) returns (r: System)
    requires AnsweredOnce(s, c, o, i, first) && FormError(c.request) == None
    requires Accepted(d) && c.key == d.key && SameIntent(c.request, d.request)
    ensures Found(s, r, d, o)
  {
    r := LooksUpNext(s, c, d, o, i, first);
    GetFindsLastReceipt(r, o, |s.log|);
  }

  lemma LooksUpNext(s: System, c: Call, d: Call, o: nat, i: nat, first: Answer) returns (r: System)
    requires AnsweredOnce(s, c, o, i, first) && FormError(c.request) == None
    requires Accepted(d) && c.key == d.key && SameIntent(c.request, d.request)
    ensures Leads(Fresh(), r) && Reachable(r) && Retries(r, o, |s.log|) && |r.log| == |s.log| + 1 && s.log <= r.log
    ensures r.begun == [c, d] && r.log[|s.log|].id == 1
    ensures Stands(r, 1, d, [r.log[|s.log|].effect], NextPhase(d, Checking, r.log[|s.log|].effect))
  {
    var s1 := Starts(s, d);
    var got := Got(Live(s1.expiring, s1.receipts, s1.now, d.key));
    r := Acts(Fresh(), s1, 1, d, [], Checking, got);
    assert [] + [got] == [got];
    assert r.log[o] == s.log[o];
  }

  /** The retry answers with its replay. */
  lemma AnswersAgain(s: System, r: System, c: Call, d: Call, o: nat, i: nat, first: Answer)
    requires AnsweredOnce(s, c, o, i, first) && Found(s, r, d, o)
    ensures exists u :: AnsweredTwice(u, o, i, |s.log|, first, Replay(d.request, r.log[|s.log|].effect.found.value))
  {
    var g := |s.log|;
    var second := Replay(d.request, r.log[g].effect.found.value);
    var u := Acts(Fresh(), r, 1, d, [r.log[g].effect], Closing(second), Answered(second));
    assert u.log[o] == s.log[o] && u.log[i] == s.log[i] && u.log[g] == r.log[g];
    assert AnsweredTwice(u, o, i, g, first, second);
  }

  /**
   * The situation of the replay statements arises, for any call that gets as far as its receipt and any retry of its
   * intent: the first one's reply is lost and it answers "unknown".  The retry answers the same, except that marking an
   * item is now answered "confirmed", although nothing more was learned.
   */
  lemma LostReplyRetried(c: Call, d: Call)
    requires CanOpen(c) && Accepted(d) && c.key == d.key && SameIntent(c.request, d.request)
    ensures var first, second := Bare(c.request, Unclear), Bare(c.request, if c.request.SetChecked? then Confirmed else Unclear);
            exists u, o: nat, i: nat, g: nat :: AnsweredTwice(u, o, i, g, Returned(first), Returned(second))
  {
    var s, o, i := LosesItsReply(c);
    var first, g := Returned(Bare(c.request, Unclear)), |s.log|;
    var r := FindsIt(s, c, d, o, i, first);
    ReplayOfUnclear(s, r, c, d, o, i);
    AnswersAgain(s, r, c, d, o, i, first);
    var u :| AnsweredTwice(u, o, i, g, first, Replay(d.request, r.log[g].effect.found.value));
  }

  lemma ReplayOfUnclear(s: System, r: System, c: Call, d: Call, o: nat, i: nat)
    requires AnsweredOnce(s, c, o, i, Returned(Bare(c.request, Unclear))) && Found(s, r, d, o)
    ensures Replay(d.request, r.log[|s.log|].effect.found.value) ==
            Returned(Bare(c.request, if c.request.SetChecked? then Confirmed else Unclear))
  {
    var g := |s.log|;
    assert r.log[i] == s.log[i] && r.log[o] == s.log[o];
    assert r.begun[0] == c && r.begun[1] == d;
    if c.request.SetChecked? {
      CheckedReplayIsFaithfulIffConfirmed(r, o, i, g);
    } else {
      ReplayRepeatsAnswer(r, o, i, g);
    }
  }

  /** Any marking can be refused and raise that refusal, and its retry is then answered "unknown". */
  lemma RefusedMarkingRetried(c: Call, d: Call, info: ErrorInfo)
    requires CanOpen(c) && c.request.SetChecked?
    requires Accepted(d) && c.key == d.key && SameIntent(c.request, d.request)
    ensures exists u, o: nat, i: nat, g: nat ::
              AnsweredTwice(u, o, i, g, Raised(info), Returned(SetCheckedResult(Unclear)))
  {
    var s, o, i := IsRefused(c, info);
    var r := FindsIt(s, c, d, o, i, Raised(info));
    assert r.log[i] == s.log[i] && r.log[o] == s.log[o];
    CheckedReplayIsFaithfulIffConfirmed(r, o, i, |s.log|);
    AnswersAgain(s, r, c, d, o, i, Raised(info));
  }
}
