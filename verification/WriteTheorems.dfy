/** The promises of the write protocol, over every run from every initial store. */
module WriteTheorems {
  import opened Common
  import opened Domain
  import opened WireForms
  import opened WriteTools
  import opened WriteProtocol
  import opened WriteEvidence
  import opened WriteRuns

  /** `s` is the state of some run. */
  ghost predicate Reachable(s: System)
  {
    exists expiring, receipts, now, steps :: After(Initial(expiring, receipts, now), steps) == Some(s)
  }

  lemma ReachableInv(s: System)
    requires Reachable(s)
    ensures Inv(s)
  {
    var expiring, receipts, now, steps :| After(Initial(expiring, receipts, now), steps) == Some(s);
    InitialInv(expiring, receipts, now);
    RunInv(Initial(expiring, receipts, now), steps);
  }

  lemma ReachableIds(s: System)
    requires Reachable(s)
    ensures forall i :: 0 <= i < |s.log| ==> s.log[i].id < |s.begun|
  {
    ReachableInv(s);
  }

  // ----- at most one mutation per key -----

  lemma PrefixTrace(log: Log, n: nat, id: nat)
    requires n < |log|
    ensures TraceOf(log[..n + 1], id) == if log[n].id == id then TraceOf(log[..n], id) + [log[n].effect] else TraceOf(log[..n], id)
  {
    assert log[..n + 1] == log[..n] + [log[n]];
    TraceOfAppend(log[..n], log[n], id);
  }

  lemma PrefixPuts(log: Log, n: nat, id: nat)
    requires n < |log|
    ensures Puts(TraceOf(log[..n + 1], id)) ==
            if log[n].id == id && log[n].effect.Put? then Puts(TraceOf(log[..n], id)) + [log[n].effect.receipt]
            else Puts(TraceOf(log[..n], id))
  {
    PrefixTrace(log, n, id);
    CountsAppend(TraceOf(log[..n], id), log[n].effect);
  }

  lemma PrefixLastPut(log: Log, n: nat, k: Key)
    requires n < |log|
    ensures LastPut(log[..n + 1], k) == if log[n].effect.Put? && log[n].key == k then Some(log[n].effect.receipt) else LastPut(log[..n], k)
  {
    assert log[..n + 1] == log[..n] + [log[n]];
    LastPutAppend(log[..n], log[n], k);
  }

  function SendsBy(log: Log, id: nat, n: nat): nat
    requires n <= |log|
  {
    SendCount(TraceOf(log[..n], id))
  }

  lemma PrefixSends(log: Log, n: nat, id: nat)
    requires n < |log|
    ensures SendsBy(log, id, n + 1) == SendsBy(log, id, n) + if log[n].id == id && IsSend(log[n].effect) then 1 else 0
  {
    PrefixTrace(log, n, id);
    CountsAppend(TraceOf(log[..n], id), log[n].effect);
  }

  lemma {:induction false} SendsAccumulate(log: Log, id: nat, m: nat, n: nat)
    requires m <= n <= |log|
    ensures SendsBy(log, id, m) <= SendsBy(log, id, n)
    decreases n
  {
    if m < n {
      SendsAccumulate(log, id, m, n - 1);
      PrefixSends(log, n - 1, id);
    }
  }

  lemma TwoSends(log: Log, i: nat, j: nat)
    requires i < j < |log| && log[i].id == log[j].id && IsSend(log[i].effect) && IsSend(log[j].effect)
    ensures SendsBy(log, log[i].id, |log|) >= 2
  {
    var id := log[i].id;
    PrefixSends(log, i, id);
    SendsAccumulate(log, id, i + 1, j);
    PrefixSends(log, j, id);
    SendsAccumulate(log, id, j + 1, |log|);
  }

  lemma StandingBounds(c: Call, p: Phase, puts: seq<Receipt>, sends: nat)
    requires PhaseFits(c, p) && Standing(c, p, puts, sends)
    ensures sends <= 1
  {
  }

  /** One call sends at most once, wherever it is interrupted. */
  lemma OneSendPerCall(s: System, id: nat)
    requires Reachable(s) && id < |s.begun|
    ensures SendCount(TraceOf(s.log, id)) <= 1
  {
    ReachableInv(s);
    var c, t := s.begun[id], TraceOf(s.log, id);
    TraceStanding(c, t);
    StandingBounds(c, RunOf(c, t).value, Puts(t), SendCount(t));
  }

  lemma SendsAreByDifferentCalls(s: System, i: nat, j: nat)
    requires Reachable(s)
    requires i < j < |s.log| && IsSend(s.log[i].effect) && IsSend(s.log[j].effect)
    ensures s.log[i].id != s.log[j].id
  {
    if s.log[i].id == s.log[j].id {
      ReachableIds(s);
      TwoSends(s.log, i, j);
      assert s.log[..|s.log|] == s.log;
      OneSendPerCall(s, s.log[i].id);
    }
  }

  /** Two calls that opened the same key did so a receipt's lifetime apart, over a store that expires receipts. */
  predicate Apart(expiring: bool, log: Log, a: int, b: int)
  {
    && 0 <= a < |log| && 0 <= b < |log| && IsOpening(log[a].effect) && IsOpening(log[b].effect)
    && log[a].key == log[b].key && expiring && log[b].time >= log[a].time + RECEIPT_TTL
  }

  lemma OpeningOfSend(log: Log, begun: seq<Call>, active: set<nat>, i: nat) returns (a: nat)
    requires AllOpened(log) && Numbered(begun, active, log) && i < |log| && (IsSend(log[i].effect) || log[i].effect.Put?)
    ensures a <= i && IsOpening(log[a].effect) && log[a].id == log[i].id && log[a].key == log[i].key
  {
    assert OpenedBy(log, i);
    a :| 0 <= a <= i && log[a].id == log[i].id && IsOpening(log[a].effect);
  }

  lemma OpeningsOfTwoCalls(expiring: bool, log: Log, a: nat, b: nat)
    requires OpeningsApart(expiring, log) && a < |log| && b < |log| && IsOpening(log[a].effect) && IsOpening(log[b].effect)
    requires log[a].key == log[b].key && log[a].id != log[b].id
    ensures Apart(expiring, log, a, b) || Apart(expiring, log, b, a)
  {
  }

  /** Two mutations for one key need a store that expires receipts, and pending receipts a lifetime apart. */
  lemma SendsAreALifetimeApart(s: System, i: nat, j: nat)
    requires Reachable(s)
    requires i < j < |s.log| && IsSend(s.log[i].effect) && IsSend(s.log[j].effect) && s.log[i].key == s.log[j].key
    ensures exists a, b :: Apart(s.expiring, s.log, a, b) && s.log[a].key == s.log[i].key
  {
    SendsAreByDifferentCalls(s, i, j);
    ReachableInv(s);
    var a := OpeningOfSend(s.log, s.begun, s.active, i);
    var b := OpeningOfSend(s.log, s.begun, s.active, j);
    OpeningsOfTwoCalls(s.expiring, s.log, a, b);
  }

  /** The pending receipts of this key were all written within one lifetime. */
  predicate OpenedWithinALifetime(log: Log, k: Key)
  {
    forall a, b :: 0 <= a < |log| && 0 <= b < |log| && IsOpening(log[a].effect) && IsOpening(log[b].effect)
      && log[a].key == k && log[b].key == k
      ==> log[b].time < log[a].time + RECEIPT_TTL
  }

  /**
   * At most one mutating request per key: always over the in-memory store, and over the SQLite store as long as
   * the pending receipts of that key lie within one lifetime.
   */
  lemma AtMostOneSend(s: System, i: nat, j: nat)
    requires Reachable(s)
    requires i < |s.log| && j < |s.log| && IsSend(s.log[i].effect) && IsSend(s.log[j].effect) && s.log[i].key == s.log[j].key
    requires s.expiring ==> OpenedWithinALifetime(s.log, s.log[i].key)
    ensures i == j
  {
    if i < j {
      SendsAreALifetimeApart(s, i, j);
    } else if j < i {
      SendsAreALifetimeApart(s, j, i);
    }
  }

  // ----- receipts of one call, and what a later call finds -----

  lemma StandingIsStory(c: Call, p: Phase, puts: seq<Receipt>, sends: nat)
    requires PhaseFits(c, p) && Standing(c, p, puts, sends) && FormError(c.request) == None
    ensures Story(c, puts)
  {
    match p
    case Sending(b) => OpenedIsStory(c, b, puts);
    case Refusing(b, _) => OpenedIsStory(c, b, puts);
    case GivingUp(b) => OpenedIsStory(c, b, puts);
    case Acknowledging(b, _) => OpenedIsStory(c, b, puts);
    case ReadingBack(b, ack) => AckedIsStory(c, b, puts, ack);
    case Settling(b, _) =>
      if |puts| == 1 {
        OpenedIsStory(c, b, puts);
      } else {
        var ack :| Acked(c, b, puts, ack);
        AckedIsStory(c, b, puts, ack);
      }
    case _ =>
  }

  /** A call's receipts only move forward: pending, then an acknowledgement or a verdict, then the final result. */
  lemma ReceiptsMoveForward(s: System, id: nat)
    requires Reachable(s) && id < |s.begun| && FormError(s.begun[id].request) == None
    ensures Story(s.begun[id], Puts(TraceOf(s.log, id)))
  {
    ReachableInv(s);
    var c, t := s.begun[id], TraceOf(s.log, id);
    TraceStanding(c, t);
    StandingIsStory(c, RunOf(c, t).value, Puts(t), SendCount(t));
  }

  /** Within a receipt's lifetime of an opening, every put for that key is by the call that opened. */
  lemma PutsAreOwn(s: System, o: nat, b: nat)
    requires Numbered(s.begun, s.active, s.log) && AllOpened(s.log)
    requires OpeningsApart(s.expiring, s.log) && Separate(s.log, s.active) && InTime(s.log, s.now)
    requires o < b < |s.log| && IsOpening(s.log[o].effect) && s.log[b].effect.Put? && s.log[b].key == s.log[o].key
    requires s.expiring ==> s.log[b].time < s.log[o].time + RECEIPT_TTL
    ensures s.log[b].id == s.log[o].id
  {
    var a := OpeningOfSend(s.log, s.begun, s.active, b);
    SameOpener(s, o, a, b);
  }

  lemma SameOpener(s: System, o: nat, a: nat, b: nat)
    requires OpeningsApart(s.expiring, s.log) && Separate(s.log, s.active) && o < |s.log| && a <= b < |s.log| && o < b
    requires IsOpening(s.log[o].effect) && IsOpening(s.log[a].effect) && s.log[a].key == s.log[o].key
    requires s.log[a].id == s.log[b].id
    requires s.expiring ==> s.log[b].time < s.log[o].time + RECEIPT_TTL
    requires forall i, j :: 0 <= i <= j < |s.log| ==> s.log[i].time <= s.log[j].time
    ensures s.log[a].id == s.log[o].id
  {
  }

  /** The last receipt of a key is the last one of this call, and outlives the call's opening by a lifetime. */
  ghost predicate LastIsOwn(log: Log, id: nat, k: Key, since: int)
  {
    var puts := Puts(TraceOf(log, id));
    puts != [] && LastPut(log, k) == Some(Last(puts)) && Last(puts).expiresAt >= since + RECEIPT_TTL
  }

  lemma {:induction false} LastPutIsOwn(log: Log, now: int, o: nat, n: nat)
    requires InTime(log, now) && o < n <= |log| && IsOpening(log[o].effect)
    requires forall b :: o < b < n && log[b].effect.Put? ==> (log[b].key == log[o].key <==> log[b].id == log[o].id)
    ensures LastIsOwn(log[..n], log[o].id, log[o].key, log[o].time)
    decreases n
  {
    if n - 1 > o {
      LastPutIsOwn(log, now, o, n - 1);
    }
    LastPutStep(log, now, o, n - 1);
  }

  lemma LastPutStep(log: Log, now: int, o: nat, n: nat)
    requires InTime(log, now) && o <= n < |log|
    requires log[n].effect.Put? ==> (log[n].key == log[o].key <==> log[n].id == log[o].id)
    requires if n == o then log[o].effect.Put? else LastIsOwn(log[..n], log[o].id, log[o].key, log[o].time)
    ensures LastIsOwn(log[..n + 1], log[o].id, log[o].key, log[o].time)
  {
    PrefixPuts(log, n, log[o].id);
    PrefixLastPut(log, n, log[o].key);
    assert log[o].time <= log[n].time;
  }

  /**
   * A `get` within the lifetime of an opening finds exactly the last receipt that the opening call has written so far,
   * wherever that call was interrupted.
   */
  lemma GetFindsLastReceipt(s: System, o: nat, g: nat)
    requires Reachable(s) && o < g < |s.log| && IsOpening(s.log[o].effect) && s.log[g].effect.Got? && s.log[g].key == s.log[o].key
    requires s.expiring ==> s.log[g].time < s.log[o].time + RECEIPT_TTL
    ensures var puts := Puts(TraceOf(s.log[..g], s.log[o].id));
            puts != [] && s.log[g].effect.found == Some(Last(puts))
  {
    ReachableInv(s);
    forall b | o < b < g && s.log[b].effect.Put? && s.log[b].key == s.log[o].key
      ensures s.log[b].id == s.log[o].id
    {
      assert s.log[b].time <= s.log[g].time;
      PutsAreOwn(s, o, b);
    }
    LastPutIsOwn(s.log, s.now, o, g);
    assert GetFits(s.expiring, s.initial, s.log, g);
  }

  /** The same answer, except that a stored refusal forgets the endpoint that refused. */
  predicate SameAnswer(a: Answer, b: Answer)
  {
    match (a, b)
    case (Returned(r), Returned(q)) => r == q
    case (Raised(i), Raised(j)) => i.(endpoint := None) == j.(endpoint := None)
    case _ => false
  }

  lemma BareOfSameIntent(r: Request, q: Request, outcome: Outcome)
    requires SameIntent(r, q)
    ensures Bare(r, outcome) == Bare(q, outcome) && ActionOf(r) == ActionOf(q)
    ensures forall result :: OwnKind(r, result) <==> OwnKind(q, result)
  {
  }

  /** How a receipt of a run replays for a request of the same intent. */
  lemma ReplayByStatus(c: Call, q: Request, last: Receipt, status: Status, stored: Option<Stored>)
    requires FormError(c.request) == None && FormError(q) == None && SameIntent(c.request, q) && !q.SetChecked?
    requires Writes(c, last, status, stored)
    ensures status == Pending || status == Unknown ==> Replay(q, last) == Returned(Bare(q, Unclear))
    ensures status == Succeeded && stored.Some? && stored.value.StoredResult? && OwnKind(c.request, stored.value.result)
            ==> Replay(q, last) == Returned(stored.value.result)
    ensures status == Rejected && stored.Some? && stored.value.StoredRefusal?
            ==> Replay(q, last) == Raised(stored.value.info.(endpoint := None))
  {
    SameIntentSameDigest(c.request, q);
    BareOfSameIntent(c.request, q, Unclear);
  }

  lemma RecordedReplays(c: Call, q: Request, answer: Answer, last: Receipt)
    requires FormError(c.request) == None && FormError(q) == None && SameIntent(c.request, q) && !q.SetChecked?
    requires Recorded(c, answer, last) && (answer.Returned? || last.status == Rejected)
    ensures SameAnswer(Replay(q, last), answer)
    ensures Replay(q, last) == match answer case Returned(result) => Returned(result) case Raised(info) => Raised(info.(endpoint := None))
  {
    BareOfSameIntent(c.request, q, Unclear);
    match answer
    case Returned(result) =>
      if Writes(c, last, Unknown, None) {
        ReplayByStatus(c, q, last, Unknown, None);
      } else {
        ReplayByStatus(c, q, last, Succeeded, Some(StoredResult(result)));
      }
    case Raised(info) =>
      ReplayByStatus(c, q, last, Rejected, Some(StoredRefusal(info.(endpoint := None))));
  }

  lemma {:induction false} PrefixesRun(c: Call, log: Log, id: nat, n: nat)
    requires RunOf(c, TraceOf(log, id)).Some? && n <= |log|
    ensures RunOf(c, TraceOf(log[..n], id)).Some?
    decreases |log| - n
  {
    if n == |log| {
      assert log[..n] == log;
    } else {
      PrefixesRun(c, log, id, n + 1);
      PrefixTrace(log, n, id);
      RunOfStep(c, TraceOf(log[..n], id), log[n].effect);
    }
  }

  lemma AnswerCloses(c: Call, p: Phase, e: Effect)
    requires PhaseFits(c, p) && Allowed(c, p, e) && e.Answered?
    ensures p == Closing(e.answer) && NextPhase(c, p, e) == Closed
  {
  }

  /** Where a call stood when it answered. */
  lemma AnsweredFrom(c: Call, log: Log, i: nat)
    requires i < |log| && RunOf(c, TraceOf(log, log[i].id)).Some? && log[i].effect.Answered?
    ensures RunOf(c, TraceOf(log[..i], log[i].id)) == Some(Closing(log[i].effect.answer))
    ensures RunOf(c, TraceOf(log[..i + 1], log[i].id)) == Some(Closed)
  {
    PrefixesRun(c, log, log[i].id, i);
    PrefixesRun(c, log, log[i].id, i + 1);
    PrefixTrace(log, i, log[i].id);
    var t := TraceOf(log[..i], log[i].id);
    RunOfStep(c, t, log[i].effect);
    AnswerCloses(c, RunOf(c, t).value, log[i].effect);
  }

  /** A call that was answered never acts again. */
  lemma {:induction false} TraceStops(log: Log, i: nat, n: nat)
    requires i < n <= |log| && forall j :: i < j < |log| ==> log[j].id != log[i].id
    ensures TraceOf(log[..n], log[i].id) == TraceOf(log[..i + 1], log[i].id)
    decreases n
  {
    if n - 1 > i {
      TraceStops(log, i, n - 1);
      PrefixTrace(log, n - 1, log[i].id);
    }
  }

  /** What a call had recorded when it answered. */
  lemma AnswerIsRecorded(c: Call, log: Log, i: nat)
    requires i < |log| && RunOf(c, TraceOf(log, log[i].id)).Some? && log[i].effect.Answered?
    ensures var puts := Puts(TraceOf(log[..i], log[i].id));
            puts != [] ==> FormError(c.request) == None && Recorded(c, log[i].effect.answer, Last(puts))
  {
    var t := TraceOf(log[..i], log[i].id);
    AnsweredFrom(c, log, i);
    TraceStanding(c, t);
    assert AtEnd(c, log[i].effect.answer, Puts(t), SendCount(t));
  }

  /** At `g` a call looks its receipt up under the key that another call opened at `o`, within that receipt's lifetime. */
  predicate LooksUpAgain(s: System, o: nat, g: nat)
  {
    && o < g < |s.log| && s.log[o].id < |s.begun| && s.log[g].id < |s.begun|
    && IsOpening(s.log[o].effect) && s.log[g].effect.Got? && s.log[g].key == s.log[o].key
    && (s.expiring ==> s.log[g].time < s.log[o].time + RECEIPT_TTL)
    && FormError(s.begun[s.log[o].id].request) == None && FormError(s.begun[s.log[g].id].request) == None
  }

  /** The same, with the intent of the call that opened. */
  predicate Retries(s: System, o: nat, g: nat)
  {
    LooksUpAgain(s, o, g) && SameIntent(s.begun[s.log[o].id].request, s.begun[s.log[g].id].request)
  }

  /** The mutation of this trace was answered by a refusal. */
  ghost predicate SendRefused(t: Trace, info: ErrorInfo)
  {
    exists n :: 0 <= n < |t| && IsSend(t[n]) && t[n].reply == Failed(Refused(info))
  }

  /** A call whose mutation was refused stands before the rejected receipt, or has written it and raises the refusal. */
  predicate RefusalStands(c: Call, info: ErrorInfo, p: Phase, puts: seq<Receipt>)
  {
    || (p.Refusing? && p.info == info)
    || ((p == Closing(Raised(info)) || p == Closed)
        && puts != [] && Last(puts).status == Rejected
        && Last(puts).upstreamId == Some(StoredRefusal(info.(endpoint := None))))
  }

  lemma RefusalStep(c: Call, info: ErrorInfo, p: Phase, e: Effect, puts: seq<Receipt>)
    requires PhaseFits(c, p) && Allowed(c, p, e) && RefusalStands(c, info, p, puts)
    ensures RefusalStands(c, info, NextPhase(c, p, e), if e.Put? then puts + [e.receipt] else puts)
  {
  }

  lemma RefusalLeads(c: Call, u: Trace, e: Effect, info: ErrorInfo)
    requires RunOf(c, u + [e]).Some? && IsSend(e) && e.reply == Failed(Refused(info)) && !c.request.SetChecked?
    ensures RefusalStands(c, info, RunOf(c, u + [e]).value, Puts(u + [e]))
  {
    var p := LastStep(c, u, e);
    SendAllowedOnlyInSending(c, p, e);
  }

  lemma RefusalGoesOn(c: Call, u: Trace, e: Effect, info: ErrorInfo)
    requires RunOf(c, u + [e]).Some? && RunOf(c, u).Some? && RefusalStands(c, info, RunOf(c, u).value, Puts(u))
    ensures RefusalStands(c, info, RunOf(c, u + [e]).value, Puts(u + [e]))
  {
    var p := LastStep(c, u, e);
    CountsAppend(u, e);
    RefusalStep(c, info, p, e, Puts(u));
  }

  lemma {:induction false} RefusalRecorded(c: Call, t: Trace, n: nat, info: ErrorInfo)
    requires RunOf(c, t).Some? && !c.request.SetChecked?
    requires n < |t| && IsSend(t[n]) && t[n].reply == Failed(Refused(info))
    ensures RefusalStands(c, info, RunOf(c, t).value, Puts(t))
  {
    assert RunOf(c, t[..|t| - 1]).Some?;
    hide *;
    var u, e := t[..|t| - 1], t[|t| - 1];
    assert u + [e] == t;
    if n == |u| {
      RefusalLeads(c, u, e, info);
    } else {
      assert u[n] == t[n];
      RefusalRecorded(c, u, n, info);
      RefusalGoesOn(c, u, e, info);
    }
  }

  /** The call's mutation was refused by its endpoint before the call answered at log position `i`. */
  ghost predicate RefusedByEndpoint(s: System, id: nat, i: nat)
    requires i < |s.log|
  {
    exists info :: SendRefused(TraceOf(s.log[..i], id), info)
  }

  /** A call answers a refusal of its endpoint by raising it, with the rejected receipt written. */
  lemma RefusalIsAnswered(c: Call, log: Log, i: nat, info: ErrorInfo)
    requires i < |log| && RunOf(c, TraceOf(log, log[i].id)).Some? && log[i].effect.Answered?
    requires !c.request.SetChecked? && SendRefused(TraceOf(log[..i], log[i].id), info)
    ensures log[i].effect.answer == Raised(info)
    ensures var puts := Puts(TraceOf(log[..i], log[i].id)); puts != [] && Last(puts).status == Rejected
  {
    var t := TraceOf(log[..i], log[i].id);
    AnsweredFrom(c, log, i);
    var n :| 0 <= n < |t| && IsSend(t[n]) && t[n].reply == Failed(Refused(info));
    RefusalRecorded(c, t, n, info);
  }

  /**
   * Replay is faithful.  A call of the four tools that opened a receipt and returned, or was refused by the mutating
   * endpoint, is repeated by every later call with the same key and intent while the receipt lives:
   * that call finds a receipt and answers the same.
   */
  lemma ReplayRepeatsAnswer(s: System, o: nat, i: nat, g: nat)
    requires Reachable(s) && Retries(s, o, g) && !s.begun[s.log[g].id].request.SetChecked?
    requires o < i < g && s.log[i].id == s.log[o].id && s.log[i].effect.Answered?
    requires s.log[i].effect.answer.Returned? || RefusedByEndpoint(s, s.log[o].id, i)
    ensures s.log[g].effect.found.Some?
    ensures Replay(s.begun[s.log[g].id].request, s.log[g].effect.found.value) ==
            match s.log[i].effect.answer
            case Returned(result) => Returned(result)
            case Raised(info) => Raised(info.(endpoint := None))
  {
    ReachableInv(s);
    GetFindsLastReceipt(s, o, g);
    var c := s.begun[s.log[o].id];
    AnswerIsRecorded(c, s.log, i);
    TraceStops(s.log, i, g);
    PrefixPuts(s.log, i, s.log[i].id);
    if s.log[i].effect.answer.Raised? {
      var info :| SendRefused(TraceOf(s.log[..i], s.log[o].id), info);
      RefusalIsAnswered(c, s.log, i, info);
    }
    RecordedReplays(c, s.begun[s.log[g].id].request, s.log[i].effect.answer, s.log[g].effect.found.value);
  }

  /** What a retry answers, by the last receipt of the call it repeats. */
  predicate RepeatsLast(r: Request, q: Request, puts: seq<Receipt>, reply: Answer)
    requires puts != []
  {
    var last := Last(puts);
    match last.status
    case Pending => reply == Returned(Bare(q, Unclear))
    case Unknown => reply == Returned(Bare(q, Unclear))
    case Rejected =>
      last.upstreamId.Some? && last.upstreamId.value.StoredRefusal?
      && reply == Raised(last.upstreamId.value.info.(endpoint := None))
    case Succeeded =>
      last.upstreamId.Some? && last.upstreamId.value.StoredResult? && reply == Returned(last.upstreamId.value.result)
      && (|puts| == 2 ==> Direct(r, last.upstreamId.value.result))
  }

  /** What a retry answers, by where the call it repeats stands, crashed or not. */
  predicate RepeatsProgress(q: Request, p: Phase, puts: seq<Receipt>, reply: Answer)
  {
    match p
    case Sending(_) => reply == Returned(Bare(q, Unclear))
    case Refusing(_, _) => reply == Returned(Bare(q, Unclear))
    case GivingUp(_) => reply == Returned(Bare(q, Unclear))
    case Acknowledging(_, _) => reply == Returned(Bare(q, Unclear))
    case ReadingBack(_, ack) => ack.outcome == Acknowledged && reply == Returned(ack)
    case Settling(_, _) =>
      if |puts| == 1 then reply == Returned(Bare(q, Unclear)) else reply.Returned? && reply.result.outcome == Acknowledged
    case Closing(answer) => answer.Returned? || (puts != [] && Last(puts).status == Rejected) ==> SameAnswer(reply, answer)
    case _ => true
  }

  /**
   * A call interrupted anywhere after its opening is reported as what it had recorded: unknown before the
   * acknowledgement, the acknowledgement until the final result, and then that result; a recorded refusal is raised.
   */
  lemma ReplayAfterCrash(s: System, o: nat, g: nat)
    requires Reachable(s) && Retries(s, o, g) && !s.begun[s.log[g].id].request.SetChecked?
    ensures s.log[g].effect.found.Some?
    ensures var c, q := s.begun[s.log[o].id], s.begun[s.log[g].id].request;
            var t := TraceOf(s.log[..g], s.log[o].id);
            var reply := Replay(q, s.log[g].effect.found.value);
            && Puts(t) != [] && RunOf(c, t).Some?
            && RepeatsLast(c.request, q, Puts(t), reply)
            && RepeatsProgress(q, RunOf(c, t).value, Puts(t), reply)
  {
    ReachableInv(s);
    GetFindsLastReceipt(s, o, g);
    var id, c := s.log[o].id, s.begun[s.log[o].id];
    var q := s.begun[s.log[g].id].request;
    var t := TraceOf(s.log[..g], id);
    PrefixesRun(c, s.log, id, g);
    TraceStanding(c, t);
    StandingIsStory(c, RunOf(c, t).value, Puts(t), SendCount(t));
    StoryReplays(c, q, Puts(t));
    StandingReplays(c, q, RunOf(c, t).value, Puts(t), SendCount(t));
  }

  /** What the last receipt of a call was written with. */
  lemma LastWritten(c: Call, puts: seq<Receipt>)
    requires FormError(c.request) == None && Story(c, puts) && puts != []
    ensures var last := Last(puts);
            && Writes(c, last, last.status, last.upstreamId)
            && (last.status == Rejected ==> last.upstreamId.Some? && last.upstreamId.value.StoredRefusal?)
            && (last.status == Succeeded ==>
                  && last.upstreamId.Some? && last.upstreamId.value.StoredResult? && OwnKind(c.request, last.upstreamId.value.result)
                  && (|puts| == 2 ==> Direct(c.request, last.upstreamId.value.result)))
  {
  }

  lemma StoryReplays(c: Call, q: Request, puts: seq<Receipt>)
    requires FormError(c.request) == None && FormError(q) == None && SameIntent(c.request, q) && !q.SetChecked?
    requires Story(c, puts) && puts != []
    ensures RepeatsLast(c.request, q, puts, Replay(q, Last(puts)))
  {
    LastWritten(c, puts);
    ReplayByStatus(c, q, Last(puts), Last(puts).status, Last(puts).upstreamId);
  }

  lemma StandingReplays(c: Call, q: Request, p: Phase, puts: seq<Receipt>, sends: nat)
    requires FormError(c.request) == None && FormError(q) == None && SameIntent(c.request, q) && !q.SetChecked?
    requires PhaseFits(c, p) && Standing(c, p, puts, sends) && puts != []
    ensures RepeatsProgress(q, p, puts, Replay(q, Last(puts)))
  {
    hide Replay, Opened, Acked, Recorded, Story, Bare;
    match p
    case Closing(answer) =>
      if answer.Returned? || Last(puts).status == Rejected {
        RecordedReplays(c, q, answer, Last(puts));
      }
    case ReadingBack(b, ack) => AckedReplays(c, q, b, puts, ack);
    case Settling(b, result) => SettlingReplays(c, q, b, result, puts, sends);
    case Sending(b) => OpenedReplays(c, q, b, puts);
    case Refusing(b, _) => OpenedReplays(c, q, b, puts);
    case GivingUp(b) => OpenedReplays(c, q, b, puts);
    case Acknowledging(b, _) => OpenedReplays(c, q, b, puts);
    case _ =>
  }

  lemma SettlingReplays(c: Call, q: Request, b: Before, result: WriteResult, puts: seq<Receipt>, sends: nat)
    requires FormError(c.request) == None && FormError(q) == None && SameIntent(c.request, q) && !q.SetChecked?
    requires PhaseFits(c, Settling(b, result)) && Standing(c, Settling(b, result), puts, sends)
    ensures RepeatsProgress(q, Settling(b, result), puts, Replay(q, Last(puts)))
  {
    if Opened(c, b, puts) {
      OpenedReplays(c, q, b, puts);
    } else {
      var ack :| Acked(c, b, puts, ack);
      AckedReplays(c, q, b, puts, ack);
    }
  }

  lemma OpenedReplays(c: Call, q: Request, b: Before, puts: seq<Receipt>)
    requires FormError(c.request) == None && FormError(q) == None && SameIntent(c.request, q) && !q.SetChecked?
    requires Opened(c, b, puts)
    ensures Replay(q, Last(puts)) == Returned(Bare(q, Unclear))
  {
    OpenedIsStory(c, b, puts);
    ReplayByStatus(c, q, Last(puts), Pending, None);
  }

  lemma AckedReplays(c: Call, q: Request, b: Before, puts: seq<Receipt>, ack: WriteResult)
    requires FormError(c.request) == None && FormError(q) == None && SameIntent(c.request, q) && !q.SetChecked?
    requires Acked(c, b, puts, ack)
    ensures Replay(q, Last(puts)) == Returned(ack)
  {
    AckedIsStory(c, b, puts, ack);
    ReplayByStatus(c, q, Last(puts), Succeeded, Some(StoredResult(ack)));
  }

  // ----- the same key with another intent -----

  lemma WrittenNamesIntent(c: Call, r: Receipt, status: Status, stored: Option<Stored>)
    requires FormError(c.request) == None && Writes(c, r, status, stored)
    ensures r.action == ActionOf(c.request) && r.payloadHash == DigestOf(c.request)
  {
  }

  lemma StoryNamesIntent(c: Call, puts: seq<Receipt>)
    requires FormError(c.request) == None && Story(c, puts) && puts != []
    ensures Last(puts).action == ActionOf(c.request) && Last(puts).payloadHash == DigestOf(c.request)
  {
    LastWritten(c, puts);
    WrittenNamesIntent(c, Last(puts), Last(puts).status, Last(puts).upstreamId);
  }

  lemma OtherIntentReplay(r: Request, q: Request, last: Receipt)
    requires FormError(r) == None && FormError(q) == None && !SameIntent(r, q)
    requires last.action == ActionOf(r) && last.payloadHash == DigestOf(r)
    ensures Replay(q, last) == if q.SetChecked? && r.SetChecked? && last.status == Pending
                               then Returned(SetCheckedResult(Unclear)) else Raised(ErrorInfo(OperationIdConflict, None))
  {
    DigestIdentifiesIntent(r, q);
  }

  /**
   * A key used again for another intent raises operation_id_conflict.  The one exception is marking an item while the
   * marking that holds the key is still pending: that is answered "unknown" before the payload is compared.
   */
  lemma OtherIntentConflicts(s: System, o: nat, g: nat)
    requires Reachable(s) && LooksUpAgain(s, o, g)
    requires !SameIntent(s.begun[s.log[o].id].request, s.begun[s.log[g].id].request)
    ensures s.log[g].effect.found.Some?
    ensures var r, q := s.begun[s.log[o].id].request, s.begun[s.log[g].id].request;
            var puts := Puts(TraceOf(s.log[..g], s.log[o].id));
            && puts != []
            && Replay(q, s.log[g].effect.found.value) ==
               if r.SetChecked? && q.SetChecked? && Last(puts).status == Pending
               then Returned(SetCheckedResult(Unclear)) else Raised(ErrorInfo(OperationIdConflict, None))
  {
    ReachableInv(s);
    GetFindsLastReceipt(s, o, g);
    var id, c := s.log[o].id, s.begun[s.log[o].id];
    var t := TraceOf(s.log[..g], id);
    PrefixesRun(c, s.log, id, g);
    TraceStanding(c, t);
    StandingIsStory(c, RunOf(c, t).value, Puts(t), SendCount(t));
    StoryNamesIntent(c, Puts(t));
    OtherIntentReplay(c.request, s.begun[s.log[g].id].request, Last(Puts(t)));
  }

  lemma {:induction false} SeenInTrace(log: Log, j: nat)
    requires j < |log|
    ensures log[j].effect in TraceOf(log, log[j].id)
    decreases |log|
  {
    var u, e := log[..|log| - 1], log[|log| - 1];
    assert u + [e] == log;
    TraceOfAppend(u, e, log[j].id);
    if j < |u| {
      SeenInTrace(u, j);
    }
  }

  /** A call reads its receipt first of all. */
  lemma GotIsFirst(c: Call, log: Log, g: nat)
    requires g < |log| && RunOf(c, TraceOf(log, log[g].id)).Some? && log[g].effect.Got?
    ensures var t := TraceOf(log, log[g].id); t != [] && t[0] == log[g].effect
  {
    var id := log[g].id;
    PrefixesRun(c, log, id, g);
    PrefixesRun(c, log, id, g + 1);
    PrefixTrace(log, g, id);
    RunOfStep(c, TraceOf(log[..g], id), log[g].effect);
    GotOnlyWhenChecking(c, RunOf(c, TraceOf(log[..g], id)).value, log[g].effect);
    CheckingIsFirst(c, TraceOf(log[..g], id));
    var more := TraceExtends(log, id, g + 1, |log|);
    assert log[..|log|] == log;
  }

  /**
   * A call that looks up a key in use, whatever its intent, does nothing in the whole run but read the receipt and
   * answer with its replay: it sends nothing, reads nothing of FamilyWall and writes nothing.
   */
  lemma RetryIsSilent(s: System, o: nat, g: nat, j: nat)
    requires Reachable(s) && LooksUpAgain(s, o, g) && j < |s.log| && s.log[j].id == s.log[g].id
    ensures s.log[g].effect.found.Some?
    ensures s.log[j].effect == s.log[g].effect
            || s.log[j].effect == Answered(Replay(s.begun[s.log[g].id].request, s.log[g].effect.found.value))
  {
    GetFindsLastReceipt(s, o, g);
    ReachableRuns(s, s.log[g].id);
    HitIsSilent(s.begun[s.log[g].id], s.log, g, j);
  }

  lemma ReachableRuns(s: System, id: nat)
    requires Reachable(s) && id < |s.begun|
    ensures RunOf(s.begun[id], TraceOf(s.log, id)).Some?
  {
    ReachableInv(s);
  }

  lemma HitIsSilent(c: Call, log: Log, g: nat, j: nat)
    requires g < |log| && j < |log| && log[j].id == log[g].id && RunOf(c, TraceOf(log, log[g].id)).Some?
    requires log[g].effect.Got? && log[g].effect.found.Some? && FormError(c.request) == None
    ensures log[j].effect == log[g].effect || log[j].effect == Answered(Replay(c.request, log[g].effect.found.value))
  {
    var t := TraceOf(log, log[g].id);
    GotIsFirst(c, log, g);
    ReplayIsSilent(c, t);
    SeenInTrace(log, j);
    var n :| 0 <= n < |t| && t[n] == log[j].effect;
    assert n == 0 || n == 1;
  }

  /** A call that found a receipt makes no upstream call and writes nothing; it answers with the replay. */
  lemma {:induction false} ReplayIsSilent(c: Call, t: Trace)
    requires RunOf(c, t).Some? && t != [] && t[0].Got? && t[0].found.Some?
    ensures |t| <= 2 && (|t| == 2 ==> FormError(c.request) == None && t[1] == Answered(Replay(c.request, t[0].found.value)))
    ensures |t| == 1 ==> FormError(c.request) == None && RunOf(c, t) == Some(Closing(Replay(c.request, t[0].found.value)))
    ensures |t| == 2 ==> RunOf(c, t) == Some(Closed)
  {
    var u := t[..|t| - 1];
    if u == [] {
      GotOnlyWhenChecking(c, FirstPhase(c), t[0]);
    } else {
      assert u[0] == t[0];
      ReplayIsSilent(c, u);
      if |u| == 1 {
        AnswersOnly(c, RunOf(c, u).value, t[|t| - 1]);
      }
    }
  }

  lemma GotOnlyWhenChecking(c: Call, p: Phase, e: Effect)
    requires PhaseFits(c, p) && Allowed(c, p, e) && e.Got?
    ensures p.Checking?
  {
  }

  lemma AnswersOnly(c: Call, p: Phase, e: Effect)
    requires p.Closing? && Allowed(c, p, e)
    ensures e == Answered(p.answer) && NextPhase(c, p, e) == Closed
  {
  }

  // ----- gates and confirmations over whole runs -----

  /** An earlier scan of the accessible lists met the item. */
  ghost predicate MetItem(t: Trace, itemId: string)
  {
    exists m, n, x :: 0 <= m < n < |t|
      && t[m].Exchanged? && t[m].call == GetLists && t[m].reply.Lists?
      && t[n].Exchanged? && t[n].call.GetList? && t[n].call.listId in t[m].reply.listIds
      && t[n].reply.Items? && FirstItemAt(t[n].reply.items, itemId, x)
  }

  /**
   * An earlier lookup of the local day in the family calendar met the event: of that calendar, editable, neither recurring
   * nor an exception in a series, an ordinary event, and timed.
   */
  ghost predicate MetEvent(t: Trace, eventId: string, day: (int, int), calendarId: string)
  {
    exists n, x :: 0 <= n < |t|
      && t[n].Exchanged? && t[n].call == ListInterval(calendarId, DayWindow(day.0, day.1)) && t[n].reply.Events?
      && FirstEventAt(t[n].reply.events, eventId, x)
      && var e := t[n].reply.events[x];
         && e.calendarId == Some(calendarId) && e.editable == Some(true) && !e.isRecurring
         && !e.isSeriesException && e.eventType == "UNKNOWN" && e.span.Timed?
  }

  lemma ScanMetItem(t: Trace, itemId: string, inList: string, item: ListItem)
    requires ScanFound(t, itemId, inList, item)
    ensures MetItem(t, itemId)
  {
    var i, j, lists: Reply, items: Reply :| 0 <= i < j < |t| && t[i] == Exchanged(GetLists, lists)
      && t[j] == Exchanged(GetList(inList), items) && AsLists(lists).Ok? && inList in AsLists(lists).value
      && AsItems(items).Ok? && FindItem(AsItems(items).value, itemId) == Some(item);
    var x := FirstOfFound(items.items, itemId);
    assert FirstItemAt(t[j].reply.items, itemId, x);
  }

  lemma LookupMetEvent(c: Call, t: Trace, event: CalendarEvent)
    requires LooksUp(c.request) && LookupPassed(c, t, event)
    ensures MetEvent(t, c.request.eventId, c.request.window.value, c.request.calendarId)
  {
    var day := c.request.window.value;
    var i, events: Reply :| 0 <= i < |t| && t[i] == Exchanged(ListInterval(c.request.calendarId, DayWindow(day.0, day.1)), events)
      && AsEvents(events).Ok? && FindEvent(AsEvents(events).value, c.request.eventId) == Some(event);
    var x := FirstOfFoundEvent(events.events, c.request.eventId);
    assert FirstEventAt(t[i].reply.events, c.request.eventId, x);
  }

  /**
   * In every run, no mutation goes out before this very call has read its target: the item in a list that it saw as
   * accessible, or the event in the requested day and calendar, past every safety gate.
   */
  lemma SendsAreGated(s: System, i: nat)
    requires Reachable(s) && i < |s.log| && IsSend(s.log[i].effect)
    ensures s.log[i].id < |s.begun|
    ensures var t := TraceOf(s.log[..i], s.log[i].id);
            match s.begun[s.log[i].id].request
            case SetAssignees(itemId, _) => MetItem(t, itemId)
            case SetChecked(itemId, _) => MetItem(t, itemId)
            case SetAttendees(eventId, window, _, calendarId) => window.Some? && MetEvent(t, eventId, window.value, calendarId)
            case _ => true
  {
    hide *;
    ReachableInv(s);
    ReachableIds(s);
    var id, c := s.log[i].id, s.begun[s.log[i].id];
    ReachableRuns(s, id);
    var t := TraceOf(s.log[..i + 1], id);
    PrefixesRun(c, s.log, id, i + 1);
    PrefixTrace(s.log, i, id);
    assert t[|t| - 1] == s.log[i].effect && t[..|t| - 1] == TraceOf(s.log[..i], id);
    SentOnlyWhenGated(c, t, |t| - 1);
    var b :| BeforeFits(c.request, b) && Gated(c, TraceOf(s.log[..i], id), b);
    GateMet(c, TraceOf(s.log[..i], id), b);
  }

  lemma GateMet(c: Call, t: Trace, b: Before)
    requires BeforeFits(c.request, b) && Gated(c, t, b)
    ensures match c.request
            case SetAssignees(itemId, _) => MetItem(t, itemId)
            case SetChecked(itemId, _) => MetItem(t, itemId)
            case SetAttendees(eventId, window, _, calendarId) => window.Some? && MetEvent(t, eventId, window.value, calendarId)
            case _ => true
  {
    hide MetItem, MetEvent, ScanFound, LookupPassed;
    match c.request
    case SetAssignees(itemId, _) => ScanMetItem(t, itemId, b.inList, b.item);
    case SetChecked(itemId, _) => ScanMetItem(t, itemId, b.inList, b.item);
    case SetAttendees(_, _, _, _) => LookupMetEvent(c, t, b.event);
    case _ =>
  }

  // ----- how long a receipt lasts -----

  /** Every receipt is written to last 24 hours, and over an expiring store none is found when its time has come. */
  lemma ReceiptsLastADay(s: System, i: nat)
    requires Reachable(s) && i < |s.log|
    ensures s.log[i].effect.Put? ==> s.log[i].effect.receipt.expiresAt == s.log[i].time + 24 * 60 * 60 * 1_000_000
    ensures s.expiring && s.log[i].effect.Got? && s.log[i].effect.found.Some? ==> s.log[i].time < s.log[i].effect.found.value.expiresAt
  {
    ReachableInv(s);
    if s.log[i].effect.Got? {
      assert GetFits(s.expiring, s.initial, s.log, i);
    }
    hide RunOf, FormError;
  }

  lemma {:induction false} LastPutIs(log: Log, p: nat, n: nat)
    requires p < n <= |log| && log[p].effect.Put?
    requires forall q :: p < q < n && log[q].effect.Put? ==> log[q].key != log[p].key
    ensures LastPut(log[..n], log[p].key) == Some(log[p].effect.receipt)
    decreases n
  {
    PrefixLastPut(log, n - 1, log[p].key);
    if p < n - 1 {
      LastPutIs(log, p, n - 1);
    }
  }

  /** A lookup finds the receipt that was last written under its key, unless the store expires receipts and 24 hours have passed. */
  lemma LookupsFindTheLastPut(s: System, p: nat, g: nat)
    requires Reachable(s) && p < g < |s.log| && s.log[p].effect.Put? && s.log[g].effect.Got? && s.log[g].key == s.log[p].key
    requires forall q :: p < q < g && s.log[q].effect.Put? ==> s.log[q].key != s.log[p].key
    ensures s.log[g].effect.found == if s.expiring && s.log[g].time >= s.log[p].time + 24 * 60 * 60 * 1_000_000 then None
                                     else Some(s.log[p].effect.receipt)
  {
    ReachableInv(s);
    ReceiptsLastADay(s, p);
    LastPutIs(s.log, p, g);
    assert GetFits(s.expiring, s.initial, s.log, g);
    hide Inv, Reachable, LastPut;
  }

  /** A call's trace at a later point of the log extends its earlier one. */
  lemma {:induction false} TraceExtends(log: Log, id: nat, m: nat, n: nat) returns (more: Trace)
    requires m <= n <= |log|
    ensures TraceOf(log[..n], id) == TraceOf(log[..m], id) + more
    decreases n
  {
    if m == n {
      more := [];
    } else {
      more := TraceExtends(log, id, m, n - 1);
      PrefixTrace(log, n - 1, id);
      if log[n - 1].id == id {
        more := more + [log[n - 1].effect];
      }
    }
  }

  lemma BackedStays(c: Call, log: Log, id: nat, m: nat, n: nat)
    requires FormError(c.request) == None && m <= n <= |log| && Backed(c, TraceOf(log[..m], id))
    ensures Backed(c, TraceOf(log[..n], id))
  {
    var more := TraceExtends(log, id, m, n);
    BackedGrows(c, TraceOf(log[..m], id), more);
  }

  lemma {:induction false} LastPutPosition(t: Trace) returns (n: nat)
    requires Puts(t) != []
    ensures n < |t| && t[n] == Put(Last(Puts(t)))
  {
    var u := t[..|t| - 1];
    if t[|t| - 1].Put? {
      n := |t| - 1;
    } else {
      assert Puts(t) == Puts(u) + [] == Puts(u);
      n := LastPutPosition(u);
    }
  }

  lemma {:induction false} LastPutInLog(log: Log, k: Key) returns (q: nat)
    requires LastPut(log, k).Some?
    ensures q < |log| && log[q].effect == Put(LastPut(log, k).value) && log[q].key == k
  {
    var last := |log| - 1;
    if log[last].effect.Put? && log[last].key == k {
      q := last;
    } else {
      q := LastPutInLog(log[..last], k);
    }
  }

  /** A call that returned without writing had found a receipt. */
  lemma ReturnedUnwritten(c: Call, t: Trace)
    requires RunOf(c, t).Some? && Puts(t) == []
    ensures var p := RunOf(c, t).value;
            p.Closing? && p.answer.Returned? ==>
              |t| == 1 && t[0].Got? && t[0].found.Some? && FormError(c.request) == None
              && Replay(c.request, t[0].found.value) == p.answer
  {
    if t != [] {
      var u, e := t[..|t| - 1], t[|t| - 1];
      assert u + [e] == t;
      var p := LastStep(c, u, e);
      CountsAppend(u, e);
      hide RunOf, Puts, NextPhase, Allowed, PhaseFits, Replay;
      ReturnsAtOnce(c, u, e);
      assert u == [] ==> t[0] == e;
    }
  }

  lemma ReturnsAtOnce(c: Call, u: Trace, e: Effect)
    requires RunOf(c, u).Some? && Puts(u) == [] && Allowed(c, RunOf(c, u).value, e) && !e.Put?
    ensures var q := NextPhase(c, RunOf(c, u).value, e);
            q.Closing? && q.answer.Returned? ==>
              u == [] && e.Got? && e.found.Some? && FormError(c.request) == None && Replay(c.request, e.found.value) == q.answer
  {
    TraceStanding(c, u);
    ReturnsFrom(c, RunOf(c, u).value, e, Puts(u), SendCount(u));
    CheckingIsFirst(c, u);
  }

  lemma CheckingIsFirst(c: Call, t: Trace)
    requires RunOf(c, t).Some?
    ensures RunOf(c, t).value.Checking? ==> t == []
  {
    FoundNothing(c, t);
  }

  lemma ReturnsFrom(c: Call, p: Phase, e: Effect, puts: seq<Receipt>, sends: nat)
    requires PhaseFits(c, p) && Allowed(c, p, e) && Standing(c, p, puts, sends) && puts == [] && !e.Put?
    ensures var q := NextPhase(c, p, e);
            q.Closing? && q.answer.Returned? ==> p.Checking? && e.found.Some? && q.answer == Replay(c.request, e.found.value)
  {
  }

  lemma LatePut(c: Call, p: Phase, e: Effect, puts: seq<Receipt>, sends: nat)
    requires PhaseFits(c, p) && Allowed(c, p, e) && Standing(c, p, puts, sends) && e.Put? && !IsOpening(e)
    ensures sends == 1
  {
  }

  lemma PutDigest(c: Call, p: Phase, e: Effect)
    requires PhaseFits(c, p) && Allowed(c, p, e) && e.Put?
    ensures FormError(c.request) == None && e.receipt.payloadHash == DigestOf(c.request)
  {
  }

  lemma BareOutcome(r: Request, outcome: Outcome)
    ensures Bare(r, outcome).outcome == outcome
  {
  }

  /** The receipt behind a replayed confirmation is itself a confirmation of the same intent. */
  lemma ConfirmedReplay(r: Request, receipt: Receipt, result: WriteResult)
    requires FormError(r) == None && Replay(r, receipt) == Returned(result) && Claims(r, result)
    ensures receipt.payloadHash == DigestOf(r) && receipt.upstreamId == Some(StoredResult(result)) && receipt.status == Succeeded
  {
    BareOutcome(r, Acknowledged);
    BareOutcome(r, Unclear);
  }

  /** A confirming receipt at log position `q`: its own call had sent once and then read the target as requested. */
  lemma ConfirmingPut(s: System, q: nat, result: WriteResult)
    requires Reachable(s) && Inv(s) && q < |s.log| && s.log[q].effect.Put?
    requires s.log[q].effect.receipt.upstreamId == Some(StoredResult(result)) && s.log[q].effect.receipt.status == Succeeded
    requires Claims(s.begun[s.log[q].id].request, result)
    ensures var id, c := s.log[q].id, s.begun[s.log[q].id];
            && FormError(c.request) == None && s.log[q].effect.receipt.payloadHash == DigestOf(c.request)
            && Backed(c, TraceOf(s.log[..q], id)) && SendsBy(s.log, id, q) == 1
  {
    var id, c := s.log[q].id, s.begun[s.log[q].id];
    var t, e := TraceOf(s.log[..q], id), s.log[q].effect;
    PrefixesRun(c, s.log, id, q);
    PrefixesRun(c, s.log, id, q + 1);
    PrefixTrace(s.log, q, id);
    RunOfStep(c, t, e);
    TraceStanding(c, t);
    PutDigest(c, RunOf(c, t).value, e);
    LatePut(c, RunOf(c, t).value, e, Puts(t), SendCount(t));
    assert (t + [e])[|t|] == e && (t + [e])[..|t|] == t;
    ConfirmedReceiptIsBacked(c, t + [e], |t|);
  }

  /** A read-only summary of what stands behind a confirmation. */
  ghost predicate StandsBehind(s: System, i: nat, id: nat, jd: nat)
    requires i < |s.log| && id < |s.begun| && jd < |s.begun|
  {
    && s.begun[jd].key == s.begun[id].key
    && FormError(s.begun[id].request) == None && FormError(s.begun[jd].request) == None
    && SameIntent(s.begun[jd].request, s.begun[id].request)
    && SendsBy(s.log, jd, i) == 1
    && Backed(s.begun[jd], TraceOf(s.log[..i], jd))
  }

  lemma StillOneSend(s: System, jd: nat, q: nat, i: nat)
    requires Reachable(s) && jd < |s.begun| && q <= i <= |s.log| && SendsBy(s.log, jd, q) == 1
    ensures SendsBy(s.log, jd, i) == 1
  {
    SendsAccumulate(s.log, jd, q, i);
    SendsAccumulate(s.log, jd, i, |s.log|);
    assert s.log[..|s.log|] == s.log;
    OneSendPerCall(s, jd);
  }

  lemma PutAtDigest(s: System, q: nat)
    requires Numbered(s.begun, s.active, s.log) && Executions(s.begun, s.log) && q < |s.log| && s.log[q].effect.Put?
    ensures var c := s.begun[s.log[q].id];
            FormError(c.request) == None && s.log[q].effect.receipt.payloadHash == DigestOf(c.request)
  {
    var id, c := s.log[q].id, s.begun[s.log[q].id];
    PrefixesRun(c, s.log, id, q);
    PrefixesRun(c, s.log, id, q + 1);
    PrefixTrace(s.log, q, id);
    RunOfStep(c, TraceOf(s.log[..q], id), s.log[q].effect);
    PutDigest(c, RunOf(c, TraceOf(s.log[..q], id)).value, s.log[q].effect);
  }

  /** Log position `q` holds a receipt that says `result` for this request's payload. */
  predicate Confirms(log: Log, q: nat, r: Request, k: Key, result: WriteResult)
  {
    && FormError(r) == None && q < |log| && log[q].effect.Put? && log[q].key == k
    && log[q].effect.receipt.upstreamId == Some(StoredResult(result)) && log[q].effect.receipt.status == Succeeded
    && log[q].effect.receipt.payloadHash == DigestOf(r)
  }

  /** A replayed confirmation rests on the receipt it found, which some call put earlier. */
  lemma ReplayedSource(s: System, i: nat, result: WriteResult) returns (q: nat)
    requires Numbered(s.begun, s.active, s.log) && GetsFit(s.expiring, s.initial, s.log)
    requires i < |s.log| && s.log[i].key !in s.initial && Claims(s.begun[s.log[i].id].request, result)
    requires var c, t := s.begun[s.log[i].id], TraceOf(s.log[..i], s.log[i].id);
             Puts(t) == [] && RunOf(c, t) == Some(Closing(Returned(result)))
    ensures q < i && Confirms(s.log, q, s.begun[s.log[i].id].request, s.log[i].key, result)
  {
    var id, c := s.log[i].id, s.begun[s.log[i].id];
    var t := TraceOf(s.log[..i], id);
    ReturnedUnwritten(c, t);
    SeenInLog(s.log[..i], id, 0);
    var g :| 0 <= g < i && s.log[..i][g].id == id && s.log[..i][g].effect == t[0];
    assert s.log[g].effect == t[0] && s.log[g].key == c.key;
    assert GetFits(s.expiring, s.initial, s.log, g);
    q := LastPutInLog(s.log[..g], c.key);
    assert s.log[q] == s.log[..g][q];
    ConfirmedReplay(c.request, t[0].found.value, result);
  }

  lemma LastPutOfAnswer(c: Call, t: Trace, result: WriteResult)
    requires Puts(t) != [] && RunOf(c, t) == Some(Closing(Returned(result))) && Claims(c.request, result)
    ensures FormError(c.request) == None
    ensures var last := Last(Puts(t));
            last.upstreamId == Some(StoredResult(result)) && last.status == Succeeded && last.payloadHash == DigestOf(c.request)
  {
    TraceStanding(c, t);
    assert AtEnd(c, Returned(result), Puts(t), SendCount(t));
    LastIsTheResult(c, result, Last(Puts(t)));
  }

  /** A fresh confirmation rests on the call's own last receipt. */
  lemma OwnSource(s: System, i: nat, result: WriteResult) returns (q: nat)
    requires Numbered(s.begun, s.active, s.log)
    requires i < |s.log| && Claims(s.begun[s.log[i].id].request, result)
    requires var c, t := s.begun[s.log[i].id], TraceOf(s.log[..i], s.log[i].id);
             Puts(t) != [] && RunOf(c, t) == Some(Closing(Returned(result)))
    ensures q < i && Confirms(s.log, q, s.begun[s.log[i].id].request, s.log[i].key, result)
  {
    var id, c := s.log[i].id, s.begun[s.log[i].id];
    var t := TraceOf(s.log[..i], id);
    LastPutOfAnswer(c, t, result);
    var n := LastPutPosition(t);
    SeenInLog(s.log[..i], id, n);
    q :| 0 <= q < i && s.log[..i][q].id == id && s.log[..i][q].effect == t[n];
    assert s.log[q] == s.log[..i][q];
  }

  lemma LastIsTheResult(c: Call, result: WriteResult, last: Receipt)
    requires FormError(c.request) == None && Recorded(c, Returned(result), last) && Claims(c.request, result)
    ensures last.upstreamId == Some(StoredResult(result)) && last.status == Succeeded && last.payloadHash == DigestOf(c.request)
  {
  }

  lemma SourceStandsBehind(s: System, i: nat, q: nat, result: WriteResult)
    requires Reachable(s) && Inv(s) && q < i < |s.log| && Claims(s.begun[s.log[i].id].request, result)
    requires Confirms(s.log, q, s.begun[s.log[i].id].request, s.log[i].key, result)
    ensures StandsBehind(s, i, s.log[i].id, s.log[q].id)
  {
    var id, jd := s.log[i].id, s.log[q].id;
    PutAtDigest(s, q);
    DigestIdentifiesIntent(s.begun[jd].request, s.begun[id].request);
    ConfirmingPut(s, q, result);
    BackedStays(s.begun[jd], s.log, jd, q, i);
    StillOneSend(s, jd, q, i);
  }

  /**
   * Every "confirmed", fresh or replayed, is backed: some call with the same key and the same intent sent exactly one
   * mutation and afterwards read the target exactly as requested.  A replayed one may also rest on a receipt from before
   * the run, when the store already had one for its key.
   */
  lemma ConfirmedIsBacked(s: System, i: nat, result: WriteResult)
    requires Reachable(s) && i < |s.log| && s.log[i].effect == Answered(Returned(result))
    requires s.log[i].id < |s.begun| && Claims(s.begun[s.log[i].id].request, result)
    requires s.log[i].key !in s.initial || Puts(TraceOf(s.log[..i], s.log[i].id)) != []
    ensures exists jd: nat :: jd < |s.begun| && StandsBehind(s, i, s.log[i].id, jd)
  {
    hide RunOf, TraceOf, Puts, Reachable, Backed, Confirms;
    ReachableInv(s);
    var id, c := s.log[i].id, s.begun[s.log[i].id];
    AnsweredFrom(c, s.log, i);
    var q: nat;
    if Puts(TraceOf(s.log[..i], id)) == [] {
      q := ReplayedSource(s, i, result);
    } else {
      q := OwnSource(s, i, result);
    }
    SourceStandsBehind(s, i, q, result);
  }
}
