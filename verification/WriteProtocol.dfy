/**
 * One write call as a labelled transition system: which effect each phase has on the receipt store
 * or on FamilyWall, and what every finite execution of it, crashed anywhere, has done.
 */
module WriteProtocol {
  import opened Common
  import opened Domain
  import opened WireForms
  import opened WriteTools

  datatype Effect =
    | Got(found: Option<Receipt>)
    | Put(receipt: Receipt)
    | Exchanged(call: Upstream, reply: Reply)
    | Answered(answer: Answer)

  type Trace = seq<Effect>

  function ReceiptOf(c: Call, b: Before, status: Status, stored: Option<Stored>, expiresAt: int): Receipt
    requires FormError(c.request) == None
  {
    Receipt(c.key, c.familyId, ResourceOf(c.request, b), ActionOf(c.request), DigestOf(c.request), status, stored, expiresAt)
  }

  predicate BeforeFits(r: Request, b: Before)
  {
    match r
    case AddItem(_, _, _) => b.Nothing?
    case CreateEvent(_, _, _) => b.Nothing?
    case SetAssignees(_, _) => b.FoundItem?
    case SetChecked(_, _) => b.FoundItem?
    case SetAttendees(_, window, _, _) => b.FoundEvent? && window.Some?
  }

  predicate Scans(r: Request)
  {
    r.SetAssignees? || r.SetChecked?
  }

  predicate LooksUp(r: Request)
  {
    r.SetAttendees? && r.window.Some?
  }

  /** The phases that an accepted call of this request can be in. */
  predicate PhaseFits(c: Call, p: Phase)
  {
    match p
    case Checking => Accepted(c)
    case Listing => Accepted(c) && Scans(c.request)
    case Scanning(lists) => Accepted(c) && Scans(c.request) && lists != []
    case LookingUp => Accepted(c) && LooksUp(c.request)
    case Opening(b) => Accepted(c) && BeforeFits(c.request, b)
    case Sending(b) => Accepted(c) && BeforeFits(c.request, b)
    case Refusing(b, _) => Accepted(c) && BeforeFits(c.request, b) && !c.request.SetChecked?
    case GivingUp(b) => Accepted(c) && BeforeFits(c.request, b)
    case Acknowledging(b, ack) => Accepted(c) && BeforeFits(c.request, b) && CanReadBack(c.request, b, ack) && ack.outcome == Acknowledged
    case ReadingBack(b, ack) => Accepted(c) && BeforeFits(c.request, b) && CanReadBack(c.request, b, ack) && ack.outcome == Acknowledged
    case Settling(b, result) =>
      && Accepted(c) && BeforeFits(c.request, b) && OwnKind(c.request, result)
      && (c.request.SetChecked? ==> result == SetCheckedResult(Confirmed))
    case Closing(_) => true
    case Closed => true
  }

  predicate PutFits(c: Call, b: Before, status: Status, stored: Option<Stored>, e: Effect)
    requires FormError(c.request) == None
  {
    e.Put? && e.receipt == ReceiptOf(c, b, status, stored, e.receipt.expiresAt)
  }

  /** The one kind of effect that a phase has. */
  predicate Allowed(c: Call, p: Phase, e: Effect)
    requires PhaseFits(c, p)
  {
    match p
    case Checking => e.Got?
    case Listing => e.Exchanged? && e.call == GetLists
    case Scanning(lists) => e.Exchanged? && e.call == GetList(lists[0])
    case LookingUp =>
      e.Exchanged?
      && e.call == ListInterval(c.request.calendarId, DayWindow(c.request.window.value.0, c.request.window.value.1))
    case Opening(b) => PutFits(c, b, Pending, None, e)
    case Sending(b) => e.Exchanged? && e.call == Mutate(Endpoint(c.request), FormOf(c.request))
    case Refusing(b, info) => PutFits(c, b, Rejected, Some(StoredRefusal(info.(endpoint := None))), e)
    case GivingUp(b) => PutFits(c, b, Unknown, None, e)
    case Acknowledging(b, ack) => PutFits(c, b, Succeeded, Some(StoredResult(ack)), e)
    case ReadingBack(b, ack) => e.Exchanged? && e.call == ReadbackCall(c.request, b)
    case Settling(b, result) => PutFits(c, b, Succeeded, Some(StoredResult(result)), e)
    case Closing(answer) => e == Answered(answer)
    case Closed => false
  }

  function NextPhase(c: Call, p: Phase, e: Effect): Phase
    requires PhaseFits(c, p) && Allowed(c, p, e)
  {
    match p
    case Checking => (match e.found case Some(r) => Closing(Replay(c.request, r)) case None => AfterMiss(c.request))
    case Listing => AfterLists(e.reply)
    case Scanning(lists) => AfterScan(c.request, lists, e.reply)
    case LookingUp => AfterLookup(c.request, e.reply)
    case Opening(b) => Sending(b)
    case Sending(b) => AfterSend(c.request, b, e.reply)
    case Refusing(_, info) => Closing(Raised(info))
    case GivingUp(_) => Closing(Returned(Bare(c.request, Unclear)))
    case Acknowledging(b, ack) => ReadingBack(b, ack)
    case ReadingBack(b, ack) => AfterReadback(c.request, b, ack, e.reply)
    case Settling(_, result) => Closing(Returned(result))
    case Closing(_) => Closed
  }

  /**
   * What a call may record without a readback: the acknowledgement, or the detected other list of an added item.
   * Marking an item has no readback and records its confirmation.
   */
  predicate Direct(r: Request, result: WriteResult)
  {
    if r.SetChecked? then result == SetCheckedResult(Confirmed)
    else result.outcome == Acknowledged || (r.AddItem? && result.outcome == Misfiled)
  }

  lemma AfterSendFits(c: Call, b: Before, reply: Reply)
    requires Accepted(c) && BeforeFits(c.request, b)
    ensures var q := AfterSend(c.request, b, reply);
            && PhaseFits(c, q)
            && ((q.Closing? && q.answer.Raised?)
                || ((q.Refusing? || q.GivingUp? || q.Acknowledging? || q.Settling?) && q.before == b))
            && (q.Settling? ==> Direct(c.request, q.result))
  {
  }

  lemma AfterReadbackFits(c: Call, b: Before, ack: WriteResult, reply: Reply)
    requires Accepted(c) && BeforeFits(c.request, b) && CanReadBack(c.request, b, ack)
    ensures PhaseFits(c, AfterReadback(c.request, b, ack, reply))
  {
  }

  lemma NextPhaseFits(c: Call, p: Phase, e: Effect)
    requires PhaseFits(c, p) && Allowed(c, p, e)
    ensures PhaseFits(c, NextPhase(c, p, e))
  {
    match p
    case Sending(b) => AfterSendFits(c, b, e.reply);
    case ReadingBack(b, ack) => AfterReadbackFits(c, b, ack, e.reply);
    case _ =>
  }

  /** The phase reached by a trace, or None when the trace is not one of this call. */
  function RunOf(c: Call, t: Trace): (p: Option<Phase>)
    ensures p.Some? ==> PhaseFits(c, p.value)
  {
    if t == [] then Some(FirstPhase(c))
    else
      match RunOf(c, t[..|t| - 1])
      case Some(p) =>
        if Allowed(c, p, t[|t| - 1]) then
          NextPhaseFits(c, p, t[|t| - 1]);
          Some(NextPhase(c, p, t[|t| - 1]))
        else None
      case None => None
  }

  lemma RunOfStep(c: Call, t: Trace, e: Effect)
    ensures RunOf(c, t + [e]) ==
            match RunOf(c, t)
            case Some(p) => if Allowed(c, p, e) then Some(NextPhase(c, p, e)) else None
            case None => None
  {
    assert (t + [e])[..|t|] == t;
  }

  lemma LastStep(c: Call, t: Trace, e: Effect) returns (p: Phase)
    requires RunOf(c, t + [e]).Some?
    ensures RunOf(c, t) == Some(p) && PhaseFits(c, p) && Allowed(c, p, e) && RunOf(c, t + [e]) == Some(NextPhase(c, p, e))
  {
    RunOfStep(c, t, e);
    p := RunOf(c, t).value;
  }

  /** Every prefix of an execution, that is, every crash point, is an execution. */
  lemma {:induction false} CrashAnywhere(c: Call, t: Trace, n: nat)
    requires RunOf(c, t).Some? && n <= |t|
    ensures RunOf(c, t[..n]).Some?
    decreases |t|
  {
    if n == |t| {
      assert t[..n] == t;
    } else {
      var u := t[..|t| - 1];
      CrashAnywhere(c, u, n);
      assert u[..n] == t[..n];
    }
  }

  // ----- what a trace contains -----

  predicate IsSend(e: Effect)
  {
    e.Exchanged? && e.call.Mutate?
  }

  function Puts(t: Trace): seq<Receipt>
  {
    if t == [] then []
    else Puts(t[..|t| - 1]) + (if t[|t| - 1].Put? then [t[|t| - 1].receipt] else [])
  }

  function SendCount(t: Trace): nat
  {
    if t == [] then 0
    else SendCount(t[..|t| - 1]) + (if IsSend(t[|t| - 1]) then 1 else 0)
  }

  function ExchangeCount(t: Trace): nat
  {
    if t == [] then 0
    else ExchangeCount(t[..|t| - 1]) + (if t[|t| - 1].Exchanged? then 1 else 0)
  }

  function Last<T>(s: seq<T>): T
    requires s != []
  {
    s[|s| - 1]
  }

  ghost predicate Writes(c: Call, r: Receipt, status: Status, stored: Option<Stored>)
    requires FormError(c.request) == None
  {
    exists b :: BeforeFits(c.request, b) && r == ReceiptOf(c, b, status, stored, r.expiresAt)
  }

  /** The receipts of one call so far: pending, then at most one verdict, an acknowledgement possibly first. */
  ghost predicate Story(c: Call, puts: seq<Receipt>)
    requires FormError(c.request) == None
  {
    || puts == []
    || (|puts| == 1 && Writes(c, puts[0], Pending, None))
    || (|puts| == 2 && Writes(c, puts[0], Pending, None) && Writes(c, puts[1], Unknown, None))
    || (|puts| == 2 && Writes(c, puts[0], Pending, None) && !c.request.SetChecked?
        && exists info: ErrorInfo :: Writes(c, puts[1], Rejected, Some(StoredRefusal(info))))
    || (|puts| == 2 && Writes(c, puts[0], Pending, None)
        && exists result :: OwnKind(c.request, result) && Direct(c.request, result)
                            && Writes(c, puts[1], Succeeded, Some(StoredResult(result))))
    || (|puts| == 3 && Writes(c, puts[0], Pending, None) && !c.request.SetChecked?
        && (exists ack :: OwnKind(c.request, ack) && ack.outcome == Acknowledged
              && Writes(c, puts[1], Succeeded, Some(StoredResult(ack))))
        && (exists result :: OwnKind(c.request, result) && Writes(c, puts[2], Succeeded, Some(StoredResult(result)))))
  }

  /** The call has written its pending receipt and nothing else. */
  predicate Opened(c: Call, b: Before, puts: seq<Receipt>)
    requires FormError(c.request) == None
  {
    |puts| == 1 && BeforeFits(c.request, b) && puts[0] == ReceiptOf(c, b, Pending, None, puts[0].expiresAt)
  }

  /** The call has written its pending receipt and its acknowledgement. */
  predicate Acked(c: Call, b: Before, puts: seq<Receipt>, ack: WriteResult)
    requires FormError(c.request) == None
  {
    && |puts| == 2 && BeforeFits(c.request, b)
    && puts[0] == ReceiptOf(c, b, Pending, None, puts[0].expiresAt)
    && puts[1] == ReceiptOf(c, b, Succeeded, Some(StoredResult(ack)), puts[1].expiresAt)
    && ack.outcome == Acknowledged && OwnKind(c.request, ack) && !c.request.SetChecked?
  }

  /** What the phase says about the receipts written and the mutations sent so far. */
  ghost predicate Standing(c: Call, p: Phase, puts: seq<Receipt>, sends: nat)
    requires PhaseFits(c, p)
  {
    match p
    case Sending(b) => sends == 0 && Opened(c, b, puts)
    case Refusing(b, _) => sends == 1 && Opened(c, b, puts)
    case GivingUp(b) => sends == 1 && Opened(c, b, puts)
    case Acknowledging(b, _) => sends == 1 && Opened(c, b, puts)
    case ReadingBack(b, ack) => sends == 1 && Acked(c, b, puts, ack)
    case Settling(b, result) =>
      sends == 1 && ((Opened(c, b, puts) && Direct(c.request, result)) || exists ack :: Acked(c, b, puts, ack))
    case Closing(answer) => AtEnd(c, answer, puts, sends)
    case Closed => exists answer :: AtEnd(c, answer, puts, sends)
    case _ => puts == [] && sends == 0
  }

  /** The last receipt says what was answered, unless the answer is an exception that no receipt records. */
  ghost predicate Recorded(c: Call, answer: Answer, last: Receipt)
    requires FormError(c.request) == None
  {
    match answer
    case Returned(result) =>
      && OwnKind(c.request, result)
      && ((Writes(c, last, Succeeded, Some(StoredResult(result)))
           && (c.request.SetChecked? ==> result == SetCheckedResult(Confirmed)))
          || (Writes(c, last, Unknown, None) && result == Bare(c.request, Unclear)))
    case Raised(info) =>
      || (Writes(c, last, Rejected, Some(StoredRefusal(info.(endpoint := None)))) && !c.request.SetChecked?)
      || Writes(c, last, Pending, None)
      || (!c.request.SetChecked?
          && (exists ack :: OwnKind(c.request, ack) && ack.outcome == Acknowledged
                && Writes(c, last, Succeeded, Some(StoredResult(ack)))))
  }

  ghost predicate AtEnd(c: Call, answer: Answer, puts: seq<Receipt>, sends: nat)
  {
    || (puts == [] && sends == 0)
    || (Accepted(c) && puts != [] && Story(c, puts) && sends == 1 && Recorded(c, answer, Last(puts)))
  }

  lemma PendingStory(c: Call, x: Receipt)
    requires FormError(c.request) == None && Writes(c, x, Pending, None)
    ensures Story(c, [x])
  {
  }

  lemma OpenedIsStory(c: Call, b: Before, puts: seq<Receipt>)
    requires FormError(c.request) == None && Opened(c, b, puts)
    ensures Story(c, puts) && Writes(c, Last(puts), Pending, None)
  {
    assert puts == [puts[0]];
    PendingStory(c, puts[0]);
  }

  lemma AckedIsStory(c: Call, b: Before, puts: seq<Receipt>, ack: WriteResult)
    requires FormError(c.request) == None && Acked(c, b, puts, ack)
    ensures Story(c, puts) && Writes(c, Last(puts), Succeeded, Some(StoredResult(ack)))
  {
    assert Writes(c, puts[0], Pending, None) && Writes(c, puts[1], Succeeded, Some(StoredResult(ack)));
  }

  /** A call that raises what escaped from its send has written its opening only. */
  lemma EscapeStands(c: Call, b: Before, info: ErrorInfo, puts: seq<Receipt>)
    requires Accepted(c) && Opened(c, b, puts)
    ensures AtEnd(c, Raised(info), puts, 1)
  {
    OpenedIsStory(c, b, puts);
    assert puts != [];
    hide Story, Opened, Writes;
    assert Recorded(c, Raised(info), Last(puts));
  }

  lemma EndStands(c: Call, answer: Answer, puts: seq<Receipt>, sends: nat)
    requires AtEnd(c, answer, puts, sends) && PhaseFits(c, Closing(answer))
    ensures Standing(c, Closing(answer), puts, sends)
  {
    hide AtEnd, PhaseFits;
  }

  /** Any other call goes on to write what came of its send. */
  lemma SentStands(c: Call, b: Before, q: Phase, puts: seq<Receipt>)
    requires FormError(c.request) == None && Opened(c, b, puts) && PhaseFits(c, q)
    requires (q.Refusing? || q.GivingUp? || q.Acknowledging? || q.Settling?) && q.before == b
    requires q.Settling? ==> Direct(c.request, q.result)
    ensures Standing(c, q, puts, 1)
  {
    hide Opened, Direct, PhaseFits, FormError;
  }

  lemma SendStep(c: Call, b: Before, reply: Reply, puts: seq<Receipt>)
    requires Accepted(c) && Opened(c, b, puts)
    ensures PhaseFits(c, AfterSend(c.request, b, reply)) && Standing(c, AfterSend(c.request, b, reply), puts, 1)
  {
    AfterSendFits(c, b, reply);
    var q := AfterSend(c.request, b, reply);
    hide AfterSend, PhaseFits, Opened, AtEnd, Standing;
    if q.Closing? {
      EscapeStands(c, b, q.answer.info, puts);
      EndStands(c, q.answer, puts, 1);
    } else {
      SentStands(c, b, q, puts);
    }
  }

  lemma ReadbackLeads(c: Call, b: Before, ack: WriteResult, reply: Reply)
    requires CanReadBack(c.request, b, ack)
    ensures var q := AfterReadback(c.request, b, ack, reply);
            (q.Settling? && q.before == b) || (q.Closing? && q.answer.Raised?)
  {
  }

  lemma ReadbackStep(c: Call, b: Before, ack: WriteResult, reply: Reply, puts: seq<Receipt>)
    requires Accepted(c) && CanReadBack(c.request, b, ack) && Acked(c, b, puts, ack)
    ensures var q := AfterReadback(c.request, b, ack, reply);
            PhaseFits(c, q) && Standing(c, q, puts, 1)
  {
    AfterReadbackFits(c, b, ack, reply);
    ReadbackLeads(c, b, ack, reply);
    hide AfterReadback, FormError, CanReadBack, OwnKind, ReceiptOf;
    AckedIsStory(c, b, puts, ack);
  }

  lemma RefuseStep(c: Call, b: Before, info: ErrorInfo, r: Receipt, puts: seq<Receipt>)
    requires Accepted(c) && Opened(c, b, puts) && !c.request.SetChecked?
    requires r == ReceiptOf(c, b, Rejected, Some(StoredRefusal(info.(endpoint := None))), r.expiresAt)
    ensures AtEnd(c, Raised(info), puts + [r], 1)
  {
    assert Writes(c, puts[0], Pending, None);
    assert Writes(c, r, Rejected, Some(StoredRefusal(info.(endpoint := None))));
  }

  lemma UnknownStory(c: Call, x: Receipt, y: Receipt)
    requires FormError(c.request) == None && Writes(c, x, Pending, None) && Writes(c, y, Unknown, None)
    ensures Story(c, [x, y])
  {
  }

  lemma UnknownRecorded(c: Call, r: Receipt)
    requires FormError(c.request) == None && Writes(c, r, Unknown, None)
    ensures Recorded(c, Returned(Bare(c.request, Unclear)), r)
  {
  }

  lemma GiveUpStep(c: Call, b: Before, r: Receipt, puts: seq<Receipt>)
    requires Accepted(c) && Opened(c, b, puts) && r == ReceiptOf(c, b, Unknown, None, r.expiresAt)
    ensures AtEnd(c, Returned(Bare(c.request, Unclear)), puts + [r], 1)
  {
    assert puts + [r] == [puts[0], r];
    assert Writes(c, puts[0], Pending, None) && Writes(c, r, Unknown, None);
    hide Story, Writes, Recorded, Opened, FormError;
    UnknownStory(c, puts[0], r);
    UnknownRecorded(c, r);
  }

  lemma ResultStory(c: Call, x: Receipt, y: Receipt, result: WriteResult)
    requires FormError(c.request) == None && OwnKind(c.request, result) && Direct(c.request, result)
    requires Writes(c, x, Pending, None) && Writes(c, y, Succeeded, Some(StoredResult(result)))
    ensures Story(c, [x, y])
  {
  }

  lemma AcknowledgedStory(c: Call, x: Receipt, y: Receipt, z: Receipt, ack: WriteResult, result: WriteResult)
    requires FormError(c.request) == None && !c.request.SetChecked?
    requires OwnKind(c.request, ack) && ack.outcome == Acknowledged && OwnKind(c.request, result)
    requires Writes(c, x, Pending, None) && Writes(c, y, Succeeded, Some(StoredResult(ack)))
    requires Writes(c, z, Succeeded, Some(StoredResult(result)))
    ensures Story(c, [x, y, z])
  {
  }

  lemma SettleAtOnce(c: Call, b: Before, result: WriteResult, r: Receipt, puts: seq<Receipt>)
    requires PhaseFits(c, Settling(b, result)) && Opened(c, b, puts) && Direct(c.request, result)
    requires r == ReceiptOf(c, b, Succeeded, Some(StoredResult(result)), r.expiresAt)
    ensures AtEnd(c, Returned(result), puts + [r], 1)
  {
    assert puts + [r] == [puts[0], r];
    ResultStory(c, puts[0], r, result);
  }

  lemma SettleAfterReadback(c: Call, b: Before, ack: WriteResult, result: WriteResult, r: Receipt, puts: seq<Receipt>)
    requires PhaseFits(c, Settling(b, result)) && Acked(c, b, puts, ack)
    requires r == ReceiptOf(c, b, Succeeded, Some(StoredResult(result)), r.expiresAt)
    ensures AtEnd(c, Returned(result), puts + [r], 1)
  {
    assert puts + [r] == [puts[0], puts[1], r];
    AcknowledgedStory(c, puts[0], puts[1], r, ack, result);
  }

  lemma AcknowledgeStep(c: Call, b: Before, ack: WriteResult, r: Receipt, puts: seq<Receipt>)
    requires PhaseFits(c, Acknowledging(b, ack)) && Opened(c, b, puts)
    requires r == ReceiptOf(c, b, Succeeded, Some(StoredResult(ack)), r.expiresAt)
    ensures Acked(c, b, puts + [r], ack)
  {
  }

  lemma PutStep(c: Call, p: Phase, e: Effect, puts: seq<Receipt>, sends: nat)
    requires PhaseFits(c, p) && Allowed(c, p, e) && Standing(c, p, puts, sends) && e.Put?
    ensures PhaseFits(c, NextPhase(c, p, e)) && Standing(c, NextPhase(c, p, e), puts + [e.receipt], sends)
  {
    match p
    case Refusing(b, info) => RefuseStep(c, b, info, e.receipt, puts);
    case GivingUp(b) => GiveUpStep(c, b, e.receipt, puts);
    case Acknowledging(b, ack) => AcknowledgeStep(c, b, ack, e.receipt, puts);
    case Settling(b, result) =>
      if Opened(c, b, puts) && Direct(c.request, result) {
        SettleAtOnce(c, b, result, e.receipt, puts);
      } else {
        var ack :| Acked(c, b, puts, ack);
        SettleAfterReadback(c, b, ack, result, e.receipt, puts);
      }
    case _ =>
  }

  lemma ReadStep(c: Call, p: Phase, e: Effect, puts: seq<Receipt>, sends: nat)
    requires PhaseFits(c, p) && Allowed(c, p, e) && Standing(c, p, puts, sends) && !e.Put?
    ensures PhaseFits(c, NextPhase(c, p, e))
    ensures Standing(c, NextPhase(c, p, e), puts, sends + if IsSend(e) then 1 else 0)
  {
    NextPhaseFits(c, p, e);
    hide AfterSend, AfterReadback, AtEnd, Opened, Acked, FormError, CanReadBack;
    match p
    case Sending(b) => SendStep(c, b, e.reply, puts);
    case ReadingBack(b, ack) => ReadbackStep(c, b, ack, e.reply, puts);
    case _ =>
  }

  lemma StandingStep(c: Call, p: Phase, e: Effect, puts: seq<Receipt>, sends: nat)
    requires PhaseFits(c, p) && Allowed(c, p, e) && Standing(c, p, puts, sends)
    ensures PhaseFits(c, NextPhase(c, p, e))
    ensures Standing(c, NextPhase(c, p, e), puts + (if e.Put? then [e.receipt] else []), sends + if IsSend(e) then 1 else 0)
  {
    if e.Put? {
      PutStep(c, p, e, puts, sends);
    } else {
      ReadStep(c, p, e, puts, sends);
      assert puts + [] == puts;
    }
  }

  lemma {:induction false} TraceStanding(c: Call, t: Trace)
    requires RunOf(c, t).Some?
    ensures Standing(c, RunOf(c, t).value, Puts(t), SendCount(t))
  {
    if t == [] {
    } else {
      var u := t[..|t| - 1];
      TraceStanding(c, u);
      StandingStep(c, RunOf(c, u).value, t[|t| - 1], Puts(u), SendCount(u));
    }
  }
}
