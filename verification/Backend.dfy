/**
 * What one write call works against: the receipt repository, the clock and FamilyWall.
 * Replies and clock readings are arbitrary functions of how many effects the call has had.
 */
module Backend {
  import opened Common
  import opened Domain
  import opened WireForms
  import opened WriteTools
  import opened WriteProtocol
  import opened WriteRuns

  /** What the store holds after some receipts were put, in order. */
  function AfterPuts(receipts: map<Key, Receipt>, puts: seq<Receipt>): map<Key, Receipt>
  {
    if puts == [] then receipts
    else AfterPuts(receipts, puts[..|puts| - 1])[Last(puts).key := Last(puts)]
  }

  class CallBackend {
    const expiring: bool
    const replies: nat -> Reply
    const clock: nat -> int
    var receipts: map<Key, Receipt>
    var trace: Trace

    constructor (expiring: bool, replies: nat -> Reply, clock: nat -> int, receipts: map<Key, Receipt>)
      ensures this.expiring == expiring && this.replies == replies && this.clock == clock
      ensures this.receipts == receipts && trace == []
    {
      this.expiring, this.replies, this.clock := expiring, replies, clock;
      this.receipts, trace := receipts, [];
    }

    method Get(k: Key) returns (found: Option<Receipt>)
      modifies this
      ensures receipts == old(receipts) && trace == old(trace) + [Got(found)]
      ensures found == Live(expiring, receipts, clock(|old(trace)|), k)
    {
      var now := clock(|trace|);
      found := if k in receipts && (!expiring || now < receipts[k].expiresAt) then Some(receipts[k]) else None;
      trace := trace + [Got(found)];
    }

    method Put(r: Receipt)
      modifies this
      ensures receipts == old(receipts)[r.key := r] && trace == old(trace) + [Effect.Put(r)]
    {
      receipts := receipts[r.key := r];
      trace := trace + [Effect.Put(r)];
    }

    method Exchange(call: Upstream) returns (reply: Reply)
      modifies this
      ensures receipts == old(receipts) && trace == old(trace) + [Exchanged(call, reply)]
      ensures reply == replies(|old(trace)|)
    {
      reply := replies(|trace|);
      trace := trace + [Exchanged(call, reply)];
    }
  }

  /** Every effect agrees with the store, the clock and FamilyWall at its turn. */
  ghost predicate Faithful(backend: CallBackend, before: map<Key, Receipt>, c: Call)
    reads backend
  {
    forall i :: 0 <= i < |backend.trace| ==>
      FaithfulAt(backend.expiring, backend.replies, backend.clock, before, c, backend.trace, i)
  }

  predicate FaithfulAt(expiring: bool, replies: nat -> Reply, clock: nat -> int,
                       before: map<Key, Receipt>, c: Call, t: Trace, i: nat)
    requires i < |t|
  {
    match t[i]
    case Got(found) => found == Live(expiring, AfterPuts(before, Puts(t[..i])), clock(i), c.key)
    case Put(r) => r.expiresAt == clock(i) + RECEIPT_TTL
    case Exchanged(_, reply) => reply == replies(i)
    case Answered(_) => false
  }

  /** The call's effects ran the protocol to phase `p`, and the store holds what they put. */
  ghost predicate At(backend: CallBackend, before: map<Key, Receipt>, c: Call, p: Phase)
    reads backend
  {
    && RunOf(c, backend.trace) == Some(p)
    && backend.receipts == AfterPuts(before, Puts(backend.trace))
    && Faithful(backend, before, c)
  }

  lemma AfterOnePut(before: map<Key, Receipt>, puts: seq<Receipt>, r: Receipt)
    ensures AfterPuts(before, puts + [r]) == AfterPuts(before, puts)[r.key := r]
  {
    assert (puts + [r])[..|puts|] == puts;
  }

  /** One more faithful effect, allowed where the call stands, takes it to the next phase. */
  lemma Grown(backend: CallBackend, before: map<Key, Receipt>, c: Call, p: Phase, t: Trace, receipts: map<Key, Receipt>, e: Effect)
    requires RunOf(c, t) == Some(p) && Allowed(c, p, e) && receipts == AfterPuts(before, Puts(t))
    requires forall i :: 0 <= i < |t| ==> FaithfulAt(backend.expiring, backend.replies, backend.clock, before, c, t, i)
    requires backend.trace == t + [e] && backend.receipts == if e.Put? then receipts[e.receipt.key := e.receipt] else receipts
    requires match e
             case Got(found) => found == Live(backend.expiring, receipts, backend.clock(|t|), c.key)
             case Put(r) => r.expiresAt == backend.clock(|t|) + RECEIPT_TTL
             case Exchanged(_, reply) => reply == backend.replies(|t|)
             case Answered(_) => false
    ensures At(backend, before, c, NextPhase(c, p, e))
  {
    RunOfStep(c, t, e);
    CountsAppend(t, e);
    if e.Put? {
      AfterOnePut(before, Puts(t), e.receipt);
    }
    var u := t + [e];
    forall i | 0 <= i < |u|
      ensures FaithfulAt(backend.expiring, backend.replies, backend.clock, before, c, u, i)
    {
      if i < |t| {
        assert FaithfulAt(backend.expiring, backend.replies, backend.clock, before, c, t, i);
        assert u[..i] == t[..i] && u[i] == t[i];
      } else {
        assert u[..i] == t;
      }
    }
  }

  // ----- the steps that the write services share -----

  /** The checks and the form, before anything else happens. */
  method CheckRequest(c: Call) returns (fields: Result<Form, ErrorInfo>)
    ensures match fields
            case Ok(form) => FirstPhase(c) == Checking && form == FormOf(c.request)
            case Err(info) => FirstPhase(c) == Closing(Raised(info))
  {
    if Blank(c.key.operationId) {
      return Err(ErrorInfo(ValueError, None));
    }
    fields := BuildFields(c.request);
  }

  method FindReceipt(backend: CallBackend, c: Call, ghost before: map<Key, Receipt>) returns (found: Option<Receipt>)
    requires At(backend, before, c, Checking)
    modifies backend
    ensures match found
            case Some(r) => At(backend, before, c, Closing(Replay(c.request, r)))
            case None => At(backend, before, c, AfterMiss(c.request))
  {
    ghost var t, receipts := backend.trace, backend.receipts;
    found := backend.Get(c.key);
    Grown(backend, before, c, Checking, t, receipts, Got(found));
  }

  /** Which reply comes is no part of what a phase allows. */
  lemma AnyReply(c: Call, p: Phase, call: Upstream, reply: Reply)
    requires PhaseFits(c, p) && Allowed(c, p, Exchanged(call, OtherShape))
    ensures Allowed(c, p, Exchanged(call, reply))
  {
  }

  method Ask(backend: CallBackend, c: Call, call: Upstream, ghost before: map<Key, Receipt>, ghost p: Phase) returns (reply: Reply)
    requires At(backend, before, c, p) && Allowed(c, p, Exchanged(call, OtherShape))
    modifies backend
    ensures At(backend, before, c, NextPhase(c, p, Exchanged(call, reply)))
  {
    ghost var t, receipts := backend.trace, backend.receipts;
    reply := backend.Exchange(call);
    AnyReply(c, p, call, reply);
    Grown(backend, before, c, p, t, receipts, Exchanged(call, reply));
  }

  /** The receipt that the call puts in phase `p` is the one for this status, and leads to `q`. */
  ghost predicate Records(c: Call, b: Before, status: Status, stored: Option<Stored>, p: Phase, q: Phase)
    requires PhaseFits(c, p) && Accepted(c)
  {
    forall at: int ::
      var e := Put(ReceiptOf(c, b, status, stored, at));
      Allowed(c, p, e) && NextPhase(c, p, e) == q
  }

  /** Put this call's receipt with a new status and a new lifetime. */
  method Record(backend: CallBackend, c: Call, b: Before, status: Status, stored: Option<Stored>,
                ghost before: map<Key, Receipt>, ghost p: Phase, ghost q: Phase)
    requires At(backend, before, c, p) && Accepted(c) && Records(c, b, status, stored, p, q)
    modifies backend
    ensures At(backend, before, c, q)
  {
    ghost var t, receipts := backend.trace, backend.receipts;
    var r := ReceiptOf(c, b, status, stored, backend.clock(|backend.trace|) + RECEIPT_TTL);
    backend.Put(r);
    assert Allowed(c, p, Put(r)) && NextPhase(c, p, Put(r)) == q;
    Grown(backend, before, c, p, t, receipts, Put(r));
  }

  lemma UnknownRecords(c: Call, b: Before)
    requires PhaseFits(c, GivingUp(b))
    ensures Records(c, b, Unknown, None, GivingUp(b), Closing(Returned(Bare(c.request, Unclear))))
  {
  }

  lemma AcknowledgedRecords(c: Call, b: Before, ack: WriteResult)
    requires PhaseFits(c, Acknowledging(b, ack))
    ensures Records(c, b, Succeeded, Some(StoredResult(ack)), Acknowledging(b, ack), ReadingBack(b, ack))
  {
  }

  lemma ResultRecords(c: Call, b: Before, result: WriteResult)
    requires PhaseFits(c, Settling(b, result))
    ensures Records(c, b, Succeeded, Some(StoredResult(result)), Settling(b, result), Closing(Returned(result)))
  {
  }

  method RecordPending(backend: CallBackend, c: Call, b: Before, ghost before: map<Key, Receipt>)
    requires At(backend, before, c, Opening(b))
    modifies backend
    ensures At(backend, before, c, Sending(b))
  {
    hide RunOf, Faithful, AfterPuts;
    Record(backend, c, b, Pending, None, before, Opening(b), Sending(b));
  }

  lemma RejectedRecords(c: Call, b: Before, info: ErrorInfo)
    requires PhaseFits(c, Refusing(b, info))
    ensures Records(c, b, Rejected, Some(StoredRefusal(info.(endpoint := None))), Refusing(b, info), Closing(Raised(info)))
  {
  }

  method RecordRejected(backend: CallBackend, c: Call, b: Before, info: ErrorInfo, ghost before: map<Key, Receipt>)
    requires At(backend, before, c, Refusing(b, info))
    modifies backend
    ensures At(backend, before, c, Closing(Raised(info)))
  {
    hide RunOf, Faithful, AfterPuts;
    RejectedRecords(c, b, info);
    hide Records;
    Record(backend, c, b, Rejected, Some(StoredRefusal(info.(endpoint := None))), before, Refusing(b, info), Closing(Raised(info)));
  }

  method RecordUnknown(backend: CallBackend, c: Call, b: Before, ghost before: map<Key, Receipt>) returns (answer: Answer)
    requires At(backend, before, c, GivingUp(b))
    modifies backend
    ensures At(backend, before, c, Closing(answer))
  {
    hide RunOf, Faithful, AfterPuts;
    answer := Returned(Bare(c.request, Unclear));
    UnknownRecords(c, b);
    Record(backend, c, b, Unknown, None, before, GivingUp(b), Closing(answer));
  }

  method RecordAcknowledged(backend: CallBackend, c: Call, b: Before, ack: WriteResult, ghost before: map<Key, Receipt>)
    requires At(backend, before, c, Acknowledging(b, ack))
    modifies backend
    ensures At(backend, before, c, ReadingBack(b, ack))
  {
    hide RunOf, Faithful, AfterPuts;
    AcknowledgedRecords(c, b, ack);
    Record(backend, c, b, Succeeded, Some(StoredResult(ack)), before, Acknowledging(b, ack), ReadingBack(b, ack));
  }

  method RecordResult(backend: CallBackend, c: Call, b: Before, result: WriteResult, ghost before: map<Key, Receipt>)
    requires At(backend, before, c, Settling(b, result))
    modifies backend
    ensures At(backend, before, c, Closing(Returned(result)))
  {
    hide RunOf, Faithful, AfterPuts;
    ResultRecords(c, b, result);
    Record(backend, c, b, Succeeded, Some(StoredResult(result)), before, Settling(b, result), Closing(Returned(result)));
  }

  /** Send the mutation, once. */
  method Send(backend: CallBackend, c: Call, b: Before, endpoint: string, fields: Form, ghost before: map<Key, Receipt>)
      returns (reply: Reply)
    requires At(backend, before, c, Sending(b)) && endpoint == Endpoint(c.request) && fields == FormOf(c.request)
    modifies backend
    ensures At(backend, before, c, AfterSend(c.request, b, reply))
  {
    hide RunOf, Faithful, AfterPuts;
    reply := Ask(backend, c, Mutate(endpoint, fields), before, Sending(b));
  }

  /** The mutation failed: a refusal is recorded and raised, an unclear failure is recorded as unknown. */
  method Fail(backend: CallBackend, c: Call, b: Before, error: UpstreamError, ghost before: map<Key, Receipt>) returns (answer: Answer)
    requires !c.request.SetChecked?
    requires At(backend, before, c, AfterSend(c.request, b, Failed(error)))
    modifies backend
    ensures At(backend, before, c, Closing(answer))
  {
    hide RunOf, Faithful, AfterPuts;
    match error
    case Refused(info) =>
      RecordRejected(backend, c, b, info, before);
      return Raised(info);
    case Indeterminate(_) =>
      answer := RecordUnknown(backend, c, b, before);
    case Escaping(info) =>
      return Raised(info);
  }
}
