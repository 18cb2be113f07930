/**
 * What whole executions of the write tools look like: which calls go out in which order, what is recorded and what is
 * answered, in terms of the request and the replies alone.
 */
module WriteScripts {
  import opened Common
  import opened Domain
  import opened WireForms
  import opened WriteTools
  import opened WriteProtocol
  import opened WriteEvidence
  import opened WriteTheorems

  /** The effect writes a receipt with this status and stored outcome. */
  predicate Wrote(e: Effect, status: Status, stored: Option<Stored>)
  {
    e.Put? && e.receipt.status == status && e.receipt.upstreamId == stored
  }

  /** The effect at `i` records this result as the final one, and it is returned. */
  predicate SettledWith(t: Trace, i: nat, answer: Answer, result: WriteResult)
  {
    |t| == i + 1 && Wrote(t[i], Succeeded, Some(StoredResult(result))) && answer == Returned(result)
  }

  // ----- walking along an execution -----

  /** From one phase of an execution to the next. */
  lemma Onwards(c: Call, t: Trace, i: nat)
    requires RunOf(c, t).Some? && i < |t|
    ensures RunOf(c, t[..i]).Some? && Allowed(c, RunOf(c, t[..i]).value, t[i])
    ensures RunOf(c, t[..i + 1]) == Some(NextPhase(c, RunOf(c, t[..i]).value, t[i]))
  {
    hide *;
    EffectAllowed(c, t, i);
    assert t[..i + 1] == t[..i] + [t[i]];
    RunOfStep(c, t[..i], t[i]);
  }

  lemma Started(c: Call, t: Trace)
    ensures RunOf(c, t[..0]) == Some(FirstPhase(c))
  {
    assert t[..0] == [];
    hide FirstPhase;
  }

  lemma AnsweringCloses(c: Call, answer: Answer, e: Effect)
    requires PhaseFits(c, Closing(answer)) && Allowed(c, Closing(answer), e)
    ensures NextPhase(c, Closing(answer), e) == Closed && forall f :: !Allowed(c, Closed, f)
  {
  }

  /** An execution that has come to its answer ends where it has one. */
  lemma Ends(c: Call, t: Trace, i: nat, answer: Answer)
    requires RunOf(c, t) == Some(Closing(answer)) && i <= |t| && RunOf(c, t[..i]).Some?
    ensures RunOf(c, t[..i]).value.Closing? <==> i == |t|
    ensures i == |t| ==> RunOf(c, t[..i]) == Some(Closing(answer))
  {
    hide *;
    if i == |t| {
      assert t[..i] == t;
    } else {
      assert i + 1 == |t| ==> t[..i + 1] == t;
      Onwards(c, t, i);
      if RunOf(c, t[..i]).value.Closing? {
        AnsweringCloses(c, RunOf(c, t[..i]).value.answer, t[i]);
        if i + 1 < |t| {
          Onwards(c, t, i + 1);
        }
      }
    }
  }

  /** After a put, the answer. */
  lemma PutThenAnswer(c: Call, t: Trace, i: nat, p: Phase, given: Answer, answer: Answer)
    requires RunOf(c, t) == Some(Closing(answer)) && i <= |t| && RunOf(c, t[..i]) == Some(p) && !p.Closing?
    requires PhaseFits(c, p) && forall e :: Allowed(c, p, e) ==> NextPhase(c, p, e) == Closing(given)
    ensures |t| == i + 1 && answer == given && Allowed(c, p, t[i])
  {
    hide *;
    Ends(c, t, i, answer);
    Onwards(c, t, i);
    Ends(c, t, i + 1, answer);
  }

  // ----- before the receipt is read -----

  /** The characters of which a blank text consists. */
  const WHITE_SPACE := "\t\n\U{0B}\U{0C}\r\U{1C}\U{1D}\U{1E}\U{1F} \U{85}\U{A0}\U{1680}\U{2000}\U{2001}\U{2002}\U{2003}\U{2004}"
                       + "\U{2005}\U{2006}\U{2007}\U{2008}\U{2009}\U{200A}\U{2028}\U{2029}\U{202F}\U{205F}\U{3000}"

  lemma WhiteSpace(x: char)
    ensures IsSpace(x) <==> x in WHITE_SPACE
  {
  }

  /** What is refused before anything is read: a blank operation ID, an ID of the wrong kind, nobody to assign. */
  lemma RefusedAtOnce(c: Call, t: Trace, answer: Answer)
    requires RunOf(c, t) == Some(Closing(answer))
    ensures var r := c.request;
            var blank := forall x :: x in c.key.operationId ==> x in WHITE_SPACE;
            var malformed :=
              (r.AddItem? && !("taskList/" <= r.listId)) || ((r.SetAssignees? || r.SetChecked?) && !("task/" <= r.itemId));
            var nobody := !r.SetChecked? && r.assignment.accountIds == [];
            && (t == [] <==> blank || malformed || nobody)
            && (t == [] ==> answer == Raised(ErrorInfo(if !blank && malformed then MalformedPayload else ValueError, None)))
            && (t != [] ==> t[0].Got? && FormError(r) == None)
  {
    hide IsSpace;
    forall x
      ensures IsSpace(x) <==> x in WHITE_SPACE
    {
      WhiteSpace(x);
    }
    Ends(c, t, 0, answer);
    if t != [] {
      Onwards(c, t, 0);
    }
    assert t[..0] == [];
  }

  /** What each tool is called by, the shape of its results, and the one that says only an outcome. */
  lemma ToolNames(r: Request, outcome: Outcome, result: WriteResult)
    ensures match r
            case AddItem(_, _, _) =>
              && ActionOf(r) == ListAddItem && Endpoint(r) == "taskcreate2"
              && (OwnKind(r, result) <==> result.AddItemResult?) && Bare(r, outcome) == AddItemResult(outcome, None, None, None, [])
            case SetAssignees(_, _) =>
              && ActionOf(r) == ListSetAssignees && Endpoint(r) == "taskupdate2"
              && (OwnKind(r, result) <==> result.SetAssigneesResult?) && Bare(r, outcome) == SetAssigneesResult(outcome, [])
            case SetChecked(_, _) =>
              && ActionOf(r) == ListSetChecked && Endpoint(r) == "taskmark"
              && (OwnKind(r, result) <==> result.SetCheckedResult?) && Bare(r, outcome) == SetCheckedResult(outcome)
            case CreateEvent(_, _, _) =>
              && ActionOf(r) == CalendarCreateEvent && Endpoint(r) == "evtcreate"
              && (OwnKind(r, result) <==> result.CreateEventResult?) && Bare(r, outcome) == CreateEventResult(outcome, None, [], None)
            case SetAttendees(eventId, _, _, _) =>
              && ActionOf(r) == CalendarSetAttendees && Endpoint(r) == "evtupdate"
              && (OwnKind(r, result) <==> result.SetAttendeesResult?) && Bare(r, outcome) == SetAttendeesResult(outcome, eventId, [])
  {
  }

  /**
   * A call that finds any receipt under its key, whoever wrote it, answers from it and does nothing else.  Another tool's
   * receipt conflicts, and so does another payload; a migrated one is taken by any tool.  Marking an item answers for a
   * pending receipt before it looks at the payload, and reports whatever it cannot read as confirmed.
   */
  lemma AnsweredFromReceipt(c: Call, t: Trace, answer: Answer)
    requires RunOf(c, t) == Some(Closing(answer)) && t != [] && t[0].Got? && t[0].found.Some?
    ensures |t| == 1 && FormError(c.request) == None && answer == Replay(c.request, t[0].found.value)
    ensures var r, receipt, conflict := c.request, t[0].found.value, Raised(ErrorInfo(OperationIdConflict, None));
            if receipt.action != ActionOf(r) && receipt.action != Legacy then answer == conflict
            else if r.SetChecked? && receipt.status == Pending then answer == Returned(SetCheckedResult(Unclear))
            else if receipt.payloadHash != DigestOf(r) then answer == conflict
            else
              match (receipt.status, receipt.upstreamId)
              case (Succeeded, Some(StoredResult(result))) =>
                answer == Returned(if r.SetChecked? then SetCheckedResult(result.outcome)
                                   else if OwnKind(r, result) then result else Bare(r, Acknowledged))
              case (Succeeded, Some(_)) => answer == Returned(Bare(r, if r.SetChecked? then Confirmed else Acknowledged))
              case (Rejected, Some(StoredRefusal(info))) =>
                answer == if r.SetChecked? then Returned(SetCheckedResult(Confirmed)) else Raised(info.(endpoint := None))
              case (Rejected, _) =>
                answer == if r.SetChecked? then Returned(SetCheckedResult(Confirmed)) else Raised(ErrorInfo(UpstreamRejected, None))
              case _ => answer == Returned(Bare(r, if r.SetChecked? then Confirmed else Unclear))
  {
    ReplayIsSilent(c, t);
    hide RunOf, FormError, DigestOf;
  }

  // ----- what is written -----

  /** The phases that know what was read of the target. */
  predicate Knows(p: Phase)
  {
    p.Opening? || p.Sending? || p.Refusing? || p.GivingUp? || p.Acknowledging? || p.ReadingBack? || p.Settling?
  }

  lemma KnownStays(c: Call, p: Phase, e: Effect)
    requires PhaseFits(c, p) && Allowed(c, p, e) && Knows(NextPhase(c, p, e))
    ensures NextPhase(c, p, e).Opening? || (Knows(p) && NextPhase(c, p, e).before == p.before)
  {
    if p.Sending? {
      AfterSendFits(c, p.before, e.reply);
    } else if p.ReadingBack? {
      ReadbackLeads(c, p.before, p.ack, e.reply);
    }
    hide AfterSend, AfterReadback, FormError, DigestOf;
  }

  /** What a call knows of its target, this very call has read. */
  lemma {:induction false} KnownWasRead(c: Call, t: Trace)
    requires RunOf(c, t).Some? && Knows(RunOf(c, t).value)
    ensures BeforeFits(c.request, RunOf(c, t).value.before) && Gated(c, t, RunOf(c, t).value.before)
  {
    KnownFits(c, RunOf(c, t).value);
    if t == [] {
    } else {
      var u, e := t[..|t| - 1], t[|t| - 1];
      assert t == u + [e];
      var p := LastStep(c, u, e);
      TraceInformed(c, t);
      KnownStays(c, p, e);
      hide RunOf, NextPhase, Allowed, Gated;
      if !RunOf(c, t).value.Opening? {
        KnownWasRead(c, u);
        GatedGrows(c, u, [e], p.before);
      }
    }
  }

  lemma KnownFits(c: Call, p: Phase)
    requires PhaseFits(c, p) && Knows(p)
    ensures FormError(c.request) == None && BeforeFits(c.request, p.before)
  {
  }

  lemma PutKnows(c: Call, p: Phase, e: Effect)
    requires PhaseFits(c, p) && Allowed(c, p, e) && e.Put?
    ensures Knows(p) && FormError(c.request) == None
    ensures e.receipt == ReceiptOf(c, p.before, e.receipt.status, e.receipt.upstreamId, e.receipt.expiresAt)
  {
    hide DigestOf, FormOf;
  }

  /** Every receipt of a call carries its key, family, tool and payload, and the resource that the tool is about. */
  lemma ReceiptsNameTheirCall(c: Call, t: Trace, i: nat)
    requires RunOf(c, t).Some? && i < |t| && t[i].Put?
    ensures FormError(c.request) == None
    ensures var receipt := t[i].receipt;
            && receipt.key == c.key && receipt.familyId == c.familyId
            && receipt.payloadHash == DigestOf(c.request)
            && match c.request
               case AddItem(listId, _, _) => receipt.action == ListAddItem && receipt.resourceId == listId
               case SetAssignees(itemId, _) => receipt.action == ListSetAssignees && receipt.resourceId == itemId
               case SetChecked(itemId, _) =>
                 receipt.action == ListSetChecked &&
                 exists j :: 0 < j < i && t[j].Exchanged? && t[j].call == GetList(receipt.resourceId) && t[j].reply.Items?
                             && exists item :: item in t[j].reply.items && item.itemId == itemId
               case CreateEvent(_, _, calendarId) => receipt.action == CalendarCreateEvent && receipt.resourceId == calendarId
               case SetAttendees(eventId, _, _, _) => receipt.action == CalendarSetAttendees && receipt.resourceId == eventId
  {
    Onwards(c, t, i);
    var p := RunOf(c, t[..i]).value;
    PutKnows(c, p, t[i]);
    KnownWasRead(c, t[..i]);
    hide RunOf, Allowed, FormError, DigestOf;
  }

  // ----- after a mutation -----

  lemma SendStands(c: Call, t: Trace, k: nat)
    requires RunOf(c, t).Some? && k < |t| && IsSend(t[k])
    ensures RunOf(c, t[..k]).Some? && RunOf(c, t[..k]).value.Sending? && FormError(c.request) == None
    ensures t[k].Exchanged? && t[k].call == Mutate(Endpoint(c.request), FormOf(c.request))
    ensures RunOf(c, t[..k + 1]) == Some(AfterSend(c.request, RunOf(c, t[..k]).value.before, t[k].reply))
  {
    SendHappensInSending(c, t, k);
    SentOnlyWhenGated(c, t, k);
    Onwards(c, t, k);
    hide FormOf, AfterSend, FormError, RunOf;
  }

  lemma GivesUp(c: Call, b: Before)
    requires PhaseFits(c, GivingUp(b))
    ensures forall e :: Allowed(c, GivingUp(b), e) ==>
              && Wrote(e, Unknown, None)
              && NextPhase(c, GivingUp(b), e) == Closing(Returned(Bare(c.request, Unclear)))
  {
  }

  lemma Refuses(c: Call, b: Before, info: ErrorInfo)
    requires PhaseFits(c, Refusing(b, info))
    ensures forall e :: Allowed(c, Refusing(b, info), e) ==>
              && Wrote(e, Rejected, Some(StoredRefusal(info.(endpoint := None))))
              && NextPhase(c, Refusing(b, info), e) == Closing(Raised(info))
  {
  }

  lemma Settles(c: Call, b: Before, result: WriteResult)
    requires PhaseFits(c, Settling(b, result))
    ensures forall e :: Allowed(c, Settling(b, result), e) ==>
              && Wrote(e, Succeeded, Some(StoredResult(result)))
              && NextPhase(c, Settling(b, result), e) == Closing(Returned(result))
  {
  }

  lemma Acknowledges(c: Call, b: Before, ack: WriteResult)
    requires PhaseFits(c, Acknowledging(b, ack))
    ensures forall e :: Allowed(c, Acknowledging(b, ack), e) ==>
              && e.Put? && e.receipt.upstreamId == Some(StoredResult(ack)) && Wrote(e, Succeeded, Some(StoredResult(ack)))
              && NextPhase(c, Acknowledging(b, ack), e) == ReadingBack(b, ack)
  {
  }

  lemma ReadsBack(c: Call, b: Before, ack: WriteResult)
    requires PhaseFits(c, ReadingBack(b, ack))
    ensures CanReadBack(c.request, b, ack)
    ensures forall e :: Allowed(c, ReadingBack(b, ack), e) ==>
              && e.Exchanged? && e.call == ReadbackCall(c.request, b)
              && NextPhase(c, ReadingBack(b, ack), e) == AfterReadback(c.request, b, ack, e.reply)
  {
  }

  /** The final result is recorded and returned. */
  lemma SettledSo(c: Call, t: Trace, i: nat, b: Before, result: WriteResult, answer: Answer)
    requires RunOf(c, t) == Some(Closing(answer)) && i <= |t| && RunOf(c, t[..i]) == Some(Settling(b, result))
    ensures |t| == i + 1 && SettledWith(t, i, answer, result)
  {
    hide RunOf, Allowed, NextPhase;
    Settles(c, b, result);
    PutThenAnswer(c, t, i, Settling(b, result), Returned(result), answer);
  }

  lemma GivenUpSo(c: Call, t: Trace, i: nat, b: Before, answer: Answer)
    requires RunOf(c, t) == Some(Closing(answer)) && i <= |t| && RunOf(c, t[..i]) == Some(GivingUp(b))
    ensures |t| == i + 1 && Wrote(t[i], Unknown, None)
    ensures answer == Returned(Bare(c.request, Unclear))
  {
    hide RunOf, Allowed, NextPhase, Bare;
    GivesUp(c, b);
    PutThenAnswer(c, t, i, GivingUp(b), Returned(Bare(c.request, Unclear)), answer);
  }

  /** The acknowledgement is recorded, and the target read back. */
  lemma AcknowledgedSo(c: Call, t: Trace, i: nat, b: Before, ack: WriteResult, answer: Answer)
    requires RunOf(c, t) == Some(Closing(answer)) && i <= |t| && RunOf(c, t[..i]) == Some(Acknowledging(b, ack))
    ensures |t| >= i + 2 && Wrote(t[i], Succeeded, Some(StoredResult(ack)))
    ensures t[i].Put? && t[i].receipt.upstreamId == Some(StoredResult(ack))
    ensures CanReadBack(c.request, b, ack) && t[i + 1].Exchanged? && t[i + 1].call == ReadbackCall(c.request, b)
    ensures RunOf(c, t[..i + 2]) == Some(AfterReadback(c.request, b, ack, t[i + 1].reply))
  {
    hide *;
    Ends(c, t, i, answer);
    Onwards(c, t, i);
    Acknowledges(c, b, ack);
    Ends(c, t, i + 1, answer);
    Onwards(c, t, i + 1);
    ReadsBack(c, b, ack);
  }

  /**
   * A mutation whose reply never came, or cannot be read, is recorded and answered "unknown".  A refusal is recorded, but
   * for the endpoint, and raised; marking an item only raises it.  Any other exception escapes.
   */
  lemma AfterFailedSend(c: Call, t: Trace, k: nat, answer: Answer)
    requires RunOf(c, t) == Some(Closing(answer)) && k < |t| && IsSend(t[k]) && t[k].reply.Failed?
    ensures match t[k].reply.error
            case Indeterminate(_) =>
              && |t| == k + 2 && Wrote(t[k + 1], Unknown, None)
              && answer == Returned(match c.request
                                    case AddItem(_, _, _) => AddItemResult(Unclear, None, None, None, [])
                                    case SetAssignees(_, _) => SetAssigneesResult(Unclear, [])
                                    case SetChecked(_, _) => SetCheckedResult(Unclear)
                                    case CreateEvent(_, _, _) => CreateEventResult(Unclear, None, [], None)
                                    case SetAttendees(eventId, _, _, _) => SetAttendeesResult(Unclear, eventId, []))
            case Refused(info) =>
              && answer == Raised(info)
              && if c.request.SetChecked? then |t| == k + 1
                 else |t| == k + 2 && Wrote(t[k + 1], Rejected, Some(StoredRefusal(info.(endpoint := None))))
            case Escaping(info) => answer == Raised(info) && |t| == k + 1
  {
    ToolNames(c.request, Unclear, SetCheckedResult(Unclear));
    SendStands(c, t, k);
    var b, q := RunOf(c, t[..k]).value.before, RunOf(c, t[..k + 1]).value;
    Ends(c, t, k + 1, answer);
    hide RunOf, Bare, Endpoint, FormOf, FormError;
    if q.GivingUp? {
      GivenUpSo(c, t, k + 1, b, answer);
    } else if q.Refusing? {
      Refuses(c, b, q.info);
      hide Allowed, NextPhase;
      PutThenAnswer(c, t, k + 1, q, Raised(q.info), answer);
    }
  }

  /** After the readback: the result is recorded and returned, or an exception escapes. */
  lemma ReadbackSettles(c: Call, t: Trace, i: nat, q: Phase, answer: Answer)
    requires RunOf(c, t) == Some(Closing(answer)) && i <= |t| && RunOf(c, t[..i]) == Some(q) && (q.Settling? || q.Closing?)
    ensures if q.Closing? then |t| == i && answer == q.answer
            else SettledWith(t, i, answer, q.result)
  {
    hide *;
    Ends(c, t, i, answer);
    if q.Settling? {
      SettledSo(c, t, i, q.before, q.result, answer);
    }
  }
}
