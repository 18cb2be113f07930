/**
 * Whole runs of the write protocol: any number of calls, interleaved step by step and crashed anywhere,
 * over one receipt store and one clock.  Calls with the same key do not overlap.
 */
module WriteRuns {
  import opened Common
  import opened Domain
  import opened WriteTools
  import opened WriteProtocol

  /** 24 hours, in microseconds, which is how finely datetimes tell the time. */
  const RECEIPT_TTL := 24 * 60 * 60 * 1_000_000

  datatype Entry = Entry(id: nat, key: Key, time: int, effect: Effect)

  type Log = seq<Entry>

  /** `expiring` tells the SQLite repository from the in-memory one, which never drops a receipt. */
  datatype System = System(
    expiring: bool, initial: map<Key, Receipt>, receipts: map<Key, Receipt>,
    log: Log, now: int, begun: seq<Call>, active: set<nat>)

  datatype Step =
    | Start(call: Call)
    | Act(id: nat, effect: Effect)
    | Crash(id: nat)
    | Tick(micros: nat)
    | Purge

  /** The effects of one call, in order. */
  function TraceOf(log: Log, id: nat): Trace
  {
    if log == [] then []
    else TraceOf(log[..|log| - 1], id) + (if log[|log| - 1].id == id then [log[|log| - 1].effect] else [])
  }

  /** The receipt `get` finds: an expired one counts as absent. */
  function Live(expiring: bool, receipts: map<Key, Receipt>, now: int, k: Key): Option<Receipt>
  {
    if k in receipts && (!expiring || now < receipts[k].expiresAt) then Some(receipts[k]) else None
  }

  function Initial(expiring: bool, receipts: map<Key, Receipt>, now: int): System
  {
    System(expiring, receipts, receipts, [], now, [], {})
  }

  /** A call may start while others run, but not while one with its own key does. */
  predicate Enabled(s: System, step: Step)
  {
    match step
    case Start(c) => forall id :: id in s.active && id < |s.begun| ==> s.begun[id].key != c.key
    case Act(id, e) =>
      && id in s.active && id < |s.begun|
      && var p := RunOf(s.begun[id], TraceOf(s.log, id));
      && p.Some? && Allowed(s.begun[id], p.value, e)
      && (e.Got? ==> e.found == Live(s.expiring, s.receipts, s.now, s.begun[id].key))
      && (e.Put? ==> e.receipt.expiresAt == s.now + RECEIPT_TTL)
    case Crash(id) => id in s.active
    case Tick(_) => true
    case Purge => s.expiring
  }

  function Next(s: System, step: Step): System
    requires Enabled(s, step)
  {
    match step
    case Start(c) => s.(begun := s.begun + [c], active := s.active + {|s.begun|})
    case Act(id, e) =>
      s.(log := s.log + [Entry(id, s.begun[id].key, s.now, e)],
         receipts := if e.Put? then s.receipts[e.receipt.key := e.receipt] else s.receipts,
         active := if e.Answered? then s.active - {id} else s.active)
    case Crash(id) => s.(active := s.active - {id})
    case Tick(micros) => s.(now := s.now + micros)
    case Purge => s.(receipts := map k | k in s.receipts && s.now < s.receipts[k].expiresAt :: s.receipts[k])
  }

  /** The state after `steps`, or None when one of them is not enabled. */
  function After(s: System, steps: seq<Step>): Option<System>
  {
    if steps == [] then Some(s)
    else
      match After(s, steps[..|steps| - 1])
      case Some(r) => if Enabled(r, steps[|steps| - 1]) then Some(Next(r, steps[|steps| - 1])) else None
      case None => None
  }

  // ----- views of the log -----

  predicate IsOpening(e: Effect)
  {
    e.Put? && e.receipt.status == Pending
  }

  /** The last receipt written for a key. */
  function LastPut(log: Log, k: Key): Option<Receipt>
  {
    if log == [] then None
    else
      var e := log[|log| - 1];
      if e.effect.Put? && e.key == k then Some(e.effect.receipt) else LastPut(log[..|log| - 1], k)
  }

  ghost predicate Numbered(begun: seq<Call>, active: set<nat>, log: Log)
  {
    && (forall id :: id in active ==> id < |begun|)
    && (forall i :: 0 <= i < |log| ==> log[i].id < |begun| && log[i].key == begun[log[i].id].key)
    && (forall id, jd :: id in active && jd in active && begun[id].key == begun[jd].key ==> id == jd)
  }

  ghost predicate Executions(begun: seq<Call>, log: Log)
  {
    forall id: nat :: id < |begun| ==> RunOf(begun[id], TraceOf(log, id)).Some?
  }

  ghost predicate InTime(log: Log, now: int)
  {
    && (forall i :: 0 <= i < |log| ==> log[i].time <= now)
    && (forall i, j :: 0 <= i <= j < |log| ==> log[i].time <= log[j].time)
    && (forall i :: 0 <= i < |log| && log[i].effect.Put? ==>
          log[i].effect.receipt.expiresAt == log[i].time + RECEIPT_TTL && log[i].effect.receipt.key == log[i].key)
  }

  /** While a call runs, its key's entries since its first one are its own; finished calls never interleaved. */
  ghost predicate Separate(log: Log, active: set<nat>)
  {
    && (forall i, j :: 0 <= i < j < |log| && log[i].id in active && log[j].key == log[i].key ==> log[j].id == log[i].id)
    && (forall i, j, k :: 0 <= i < j < k < |log| && log[i].id == log[k].id && log[j].key == log[i].key
          ==> log[j].id == log[i].id)
  }

  /** The store holds the last receipt written for each key, until it expires and is purged. */
  ghost predicate StoreIsLastPut(expiring: bool, initial: map<Key, Receipt>, receipts: map<Key, Receipt>, log: Log, now: int)
  {
    forall k ::
      match LastPut(log, k)
      case Some(r) => if k in receipts then receipts[k] == r else expiring && r.expiresAt <= now
      case None => k in receipts ==> k in initial && receipts[k] == initial[k]
  }

  /** A receipt written at time `t` still blocks its key, or its lifetime is over. */
  predicate Covered(expiring: bool, receipts: map<Key, Receipt>, now: int, k: Key, t: int)
  {
    (k in receipts && receipts[k].expiresAt >= t + RECEIPT_TTL) || (expiring && now >= t + RECEIPT_TTL)
  }

  ghost predicate AllCovered(expiring: bool, receipts: map<Key, Receipt>, log: Log, now: int)
  {
    forall i :: 0 <= i < |log| && log[i].effect.Put? ==> Covered(expiring, receipts, now, log[i].key, log[i].time)
  }

  /** A running call that found no receipt, and has written none, knows that all earlier ones are over. */
  ghost predicate Cleared(expiring: bool, log: Log, active: set<nat>, now: int)
  {
    forall g, i :: 0 <= g < |log| && log[g].id in active && log[g].effect == Got(None) && Puts(TraceOf(log, log[g].id)) == []
      && 0 <= i < |log| && log[i].effect.Put? && log[i].key == log[g].key
      ==> expiring && now >= log[i].time + RECEIPT_TTL
  }

  /** Two calls that both wrote receipts for one key opened a full lifetime apart. */
  ghost predicate OpeningsApart(expiring: bool, log: Log)
  {
    forall i, j :: 0 <= i < j < |log| && log[i].effect.Put? && IsOpening(log[j].effect)
      && log[i].id != log[j].id && log[i].key == log[j].key
      ==> expiring && log[j].time >= log[i].time + RECEIPT_TTL
  }

  ghost predicate OpenedBy(log: Log, j: int)
    requires 0 <= j < |log|
  {
    exists i :: 0 <= i <= j && log[i].id == log[j].id && IsOpening(log[i].effect)
  }

  ghost predicate AllOpened(log: Log)
  {
    forall j :: 0 <= j < |log| && (log[j].effect.Put? || IsSend(log[j].effect)) ==> OpenedBy(log, j)
  }

  /** What a `get` found is what the log before it had put. */
  ghost predicate GetFits(expiring: bool, initial: map<Key, Receipt>, log: Log, i: int)
    requires 0 <= i < |log| && log[i].effect.Got?
  {
    var last := LastPut(log[..i], log[i].key);
    match log[i].effect.found
    case Some(r) =>
      && (expiring ==> log[i].time < r.expiresAt)
      && (if last.Some? then last.value == r else log[i].key in initial && initial[log[i].key] == r)
    case None => last.Some? ==> expiring && last.value.expiresAt <= log[i].time
  }

  ghost predicate GetsFit(expiring: bool, initial: map<Key, Receipt>, log: Log)
  {
    forall i :: 0 <= i < |log| && log[i].effect.Got? ==> GetFits(expiring, initial, log, i)
  }

  /** A call that answered is over. */
  ghost predicate AnswersAreLast(log: Log, active: set<nat>)
  {
    forall i :: 0 <= i < |log| && log[i].effect.Answered? ==>
      log[i].id !in active && forall j :: i < j < |log| ==> log[j].id != log[i].id
  }

  ghost predicate Inv(s: System)
  {
    && Numbered(s.begun, s.active, s.log)
    && Executions(s.begun, s.log)
    && InTime(s.log, s.now)
    && Separate(s.log, s.active)
    && StoreIsLastPut(s.expiring, s.initial, s.receipts, s.log, s.now)
    && AllCovered(s.expiring, s.receipts, s.log, s.now)
    && Cleared(s.expiring, s.log, s.active, s.now)
    && OpeningsApart(s.expiring, s.log)
    && AllOpened(s.log)
    && GetsFit(s.expiring, s.initial, s.log)
    && AnswersAreLast(s.log, s.active)
  }

  // ----- how an appended entry changes each view of the log -----

  lemma TraceOfAppend(log: Log, e: Entry, id: nat)
    ensures TraceOf(log + [e], id) == if e.id == id then TraceOf(log, id) + [e.effect] else TraceOf(log, id)
  {
    assert (log + [e])[..|log|] == log;
    assert TraceOf(log, id) + [] == TraceOf(log, id);
  }

  lemma LastPutAppend(log: Log, e: Entry, k: Key)
    ensures LastPut(log + [e], k) == if e.effect.Put? && e.key == k then Some(e.effect.receipt) else LastPut(log, k)
  {
    assert (log + [e])[..|log|] == log;
  }

  lemma CountsAppend(t: Trace, e: Effect)
    ensures Puts(t + [e]) == if e.Put? then Puts(t) + [e.receipt] else Puts(t)
    ensures SendCount(t + [e]) == SendCount(t) + if IsSend(e) then 1 else 0
  {
    assert (t + [e])[..|t|] == t;
    assert Puts(t) + [] == Puts(t);
  }

  /** A call that never appears in the log has an empty trace. */
  lemma {:induction false} UnseenTrace(log: Log, id: nat)
    requires forall i :: 0 <= i < |log| ==> log[i].id != id
    ensures TraceOf(log, id) == []
  {
    if log != [] {
      UnseenTrace(log[..|log| - 1], id);
    }
  }

  /** Every effect of a trace is in the log. */
  lemma {:induction false} SeenInLog(log: Log, id: nat, n: nat)
    requires n < |TraceOf(log, id)|
    ensures exists i :: 0 <= i < |log| && log[i].id == id && log[i].effect == TraceOf(log, id)[n]
  {
    var u, e := log[..|log| - 1], log[|log| - 1];
    assert u + [e] == log;
    TraceOfAppend(u, e, id);
    if n < |TraceOf(u, id)| {
      SeenInLog(u, id, n);
      var i :| 0 <= i < |u| && u[i].id == id && u[i].effect == TraceOf(u, id)[n];
      assert log[i] == u[i];
    } else {
      assert log[|log| - 1].id == id;
    }
  }

  lemma {:induction false} SomePut(t: Trace)
    requires Puts(t) != []
    ensures exists n :: 0 <= n < |t| && t[n].Put?
  {
    var u := t[..|t| - 1];
    if !t[|t| - 1].Put? {
      assert Puts(t) == Puts(u) + [] == Puts(u);
      SomePut(u);
      var n :| 0 <= n < |u| && u[n].Put?;
      assert t[n] == u[n];
    }
  }

  // ----- what a phase allows, in the terms used here -----

  lemma LatePhases(c: Call, p: Phase, e: Effect, puts: seq<Receipt>, sends: nat)
    requires PhaseFits(c, p) && Allowed(c, p, e) && Standing(c, p, puts, sends)
    requires (e.Put? && !IsOpening(e)) || IsSend(e)
    ensures puts != []
  {
  }

  lemma OpeningPhase(c: Call, p: Phase, e: Effect, puts: seq<Receipt>, sends: nat)
    requires PhaseFits(c, p) && Allowed(c, p, e) && Standing(c, p, puts, sends) && IsOpening(e)
    ensures p.Opening? && puts == []
  {
  }

  lemma PutKey(c: Call, p: Phase, e: Effect)
    requires PhaseFits(c, p) && Allowed(c, p, e) && e.Put?
    ensures e.receipt.key == c.key
  {
  }

  lemma MissOpens(c: Call, e: Effect)
    requires PhaseFits(c, Checking) && e.Got?
    ensures NextPhase(c, Checking, e).Closing? || e == Got(None)
    ensures !NextPhase(c, Checking, e).Checking? && !NextPhase(c, Checking, e).Closed?
  {
  }

  lemma NeverBackToChecking(c: Call, p: Phase, e: Effect)
    requires PhaseFits(c, p) && Allowed(c, p, e) && !p.Checking?
    ensures !NextPhase(c, p, e).Checking?
  {
  }

  /** A call past its `get` and not ending found nothing there. */
  lemma {:induction false} FoundNothing(c: Call, t: Trace)
    requires RunOf(c, t).Some?
    ensures var p := RunOf(c, t).value;
            if p.Checking? then t == []
            else p.Closing? || p.Closed? || (t != [] && t[0] == Got(None))
  {
    if t != [] {
      var u := t[..|t| - 1];
      FoundNothing(c, u);
      var p := RunOf(c, u).value;
      if p.Checking? {
        assert t[0] == t[|t| - 1];
        MissOpens(c, t[0]);
      } else {
        NeverBackToChecking(c, p, t[|t| - 1]);
        if !p.Closing? {
          assert u[0] == t[0];
        }
      }
    }
  }

  // ----- preservation, one view at a time -----

  lemma ActKeepsExecutions(s: System, id: nat, e: Effect)
    requires Numbered(s.begun, s.active, s.log) && Executions(s.begun, s.log) && Enabled(s, Act(id, e))
    ensures Executions(s.begun, Next(s, Act(id, e)).log)
  {
    var s' := Next(s, Act(id, e));
    forall jd: nat | jd < |s.begun|
      ensures RunOf(s.begun[jd], TraceOf(s'.log, jd)).Some?
    {
      TraceOfAppend(s.log, s'.log[|s.log|], jd);
      RunOfStep(s.begun[jd], TraceOf(s.log, jd), e);
    }
  }

  lemma AppendInTime(log: Log, now: int, e: Entry)
    requires InTime(log, now) && e.time == now
    requires e.effect.Put? ==> e.effect.receipt.expiresAt == now + RECEIPT_TTL && e.effect.receipt.key == e.key
    ensures InTime(log + [e], now)
  {
  }

  lemma AppendSeparate(log: Log, active: set<nat>, e: Entry, begun: seq<Call>)
    requires Separate(log, active) && Numbered(begun, active, log) && e.id in active && e.key == begun[e.id].key
    ensures Separate(log + [e], active)
  {
  }

  lemma FewerSeparate(log: Log, active: set<nat>, fewer: set<nat>)
    requires Separate(log, active) && fewer <= active
    ensures Separate(log, fewer)
  {
  }

  lemma AppendStore(expiring: bool, initial: map<Key, Receipt>, receipts: map<Key, Receipt>, log: Log, now: int, e: Entry)
    requires StoreIsLastPut(expiring, initial, receipts, log, now)
    ensures StoreIsLastPut(expiring, initial, if e.effect.Put? then receipts[e.key := e.effect.receipt] else receipts, log + [e], now)
  {
    forall k {
      LastPutAppend(log, e, k);
    }
  }

  lemma AppendCovered(expiring: bool, receipts: map<Key, Receipt>, log: Log, now: int, e: Entry)
    requires AllCovered(expiring, receipts, log, now) && InTime(log, now) && e.time == now
    requires e.effect.Put? ==> e.effect.receipt.expiresAt == now + RECEIPT_TTL
    ensures AllCovered(expiring, if e.effect.Put? then receipts[e.key := e.effect.receipt] else receipts, log + [e], now)
  {
    var receipts' := if e.effect.Put? then receipts[e.key := e.effect.receipt] else receipts;
    forall i | 0 <= i < |log| && log[i].effect.Put?
      ensures Covered(expiring, receipts', now, log[i].key, log[i].time)
    {
      assert Covered(expiring, receipts, now, log[i].key, log[i].time);
    }
  }

  lemma AppendCleared(s: System, e: Entry)
    requires Cleared(s.expiring, s.log, s.active, s.now) && AllCovered(s.expiring, s.receipts, s.log, s.now)
    requires Numbered(s.begun, s.active, s.log) && e.id in s.active && e.key == s.begun[e.id].key
    requires e.effect.Got? ==> e.effect.found == Live(s.expiring, s.receipts, s.now, e.key)
    ensures Cleared(s.expiring, s.log + [e], s.active, s.now)
  {
    var log := s.log + [e];
    forall g, i | 0 <= g < |log| && log[g].id in s.active && log[g].effect == Got(None) && Puts(TraceOf(log, log[g].id)) == []
                  && 0 <= i < |log| && log[i].effect.Put? && log[i].key == log[g].key
      ensures s.expiring && s.now >= log[i].time + RECEIPT_TTL
    {
      var id := log[g].id;
      TraceOfAppend(s.log, e, id);
      CountsAppend(TraceOf(s.log, id), e.effect);
      if i == |s.log| {
        assert false;
      } else if g < |s.log| {
        assert s.log[g] == log[g] && s.log[i] == log[i];
      } else {
        assert Covered(s.expiring, s.receipts, s.now, s.log[i].key, s.log[i].time);
      }
    }
  }

  lemma FewerCleared(expiring: bool, log: Log, active: set<nat>, fewer: set<nat>, now: int)
    requires Cleared(expiring, log, active, now) && fewer <= active
    ensures Cleared(expiring, log, fewer, now)
  {
  }

  /** A call that is about to open its receipt has looked one up in vain, and put nothing since. */
  lemma OpenerFoundNothing(s: System, id: nat, e: Effect) returns (g: nat)
    requires Numbered(s.begun, s.active, s.log) && Executions(s.begun, s.log) && Enabled(s, Act(id, e)) && IsOpening(e)
    ensures g < |s.log| && s.log[g].id == id && s.log[g].effect == Got(None) && s.log[g].key == s.begun[id].key
    ensures Puts(TraceOf(s.log, id)) == []
  {
    var c, t := s.begun[id], TraceOf(s.log, id);
    TraceStanding(c, t);
    OpeningPhase(c, RunOf(c, t).value, e, Puts(t), SendCount(t));
    FoundNothing(c, t);
    SeenInLog(s.log, id, 0);
    g :| 0 <= g < |s.log| && s.log[g].id == id && s.log[g].effect == Got(None);
  }

  lemma ActKeepsOpenings(s: System, id: nat, e: Effect)
    requires Numbered(s.begun, s.active, s.log) && Executions(s.begun, s.log) && Enabled(s, Act(id, e))
    requires OpeningsApart(s.expiring, s.log) && Cleared(s.expiring, s.log, s.active, s.now)
    ensures OpeningsApart(s.expiring, Next(s, Act(id, e)).log)
  {
    var log := Next(s, Act(id, e)).log;
    if IsOpening(e) {
      var g := OpenerFoundNothing(s, id, e);
    }
    forall i, j | 0 <= i < j < |log| && log[i].effect.Put? && IsOpening(log[j].effect)
                  && log[i].id != log[j].id && log[i].key == log[j].key
      ensures s.expiring && log[j].time >= log[i].time + RECEIPT_TTL
    {
      assert log[i] == s.log[i];
      if j < |s.log| {
        assert log[j] == s.log[j];
      }
    }
  }

  lemma ActKeepsOpened(s: System, id: nat, e: Effect)
    requires Numbered(s.begun, s.active, s.log) && Executions(s.begun, s.log) && Enabled(s, Act(id, e))
    requires AllOpened(s.log)
    ensures AllOpened(Next(s, Act(id, e)).log)
  {
    hide RunOf, TraceOf, Enabled, Numbered, Executions, IsOpening, IsSend;
    var log := Next(s, Act(id, e)).log;
    forall j | 0 <= j < |log| && (log[j].effect.Put? || IsSend(log[j].effect))
      ensures OpenedBy(log, j)
    {
      if j < |s.log| {
        assert log[j] == s.log[j] && OpenedBy(s.log, j);
        var i :| 0 <= i <= j && s.log[i].id == s.log[j].id && IsOpening(s.log[i].effect);
        assert log[i] == s.log[i];
      } else if !IsOpening(e) {
        var i := OpeningOf(s, id, e);
        assert log[i] == s.log[i];
      }
    }
  }

  /** The first put of a call is its pending receipt: any later one, and its send, come after that. */
  lemma OpeningOf(s: System, id: nat, e: Effect) returns (i: int)
    requires Executions(s.begun, s.log) && AllOpened(s.log) && Enabled(s, Act(id, e))
    requires (e.Put? && !IsOpening(e)) || IsSend(e)
    ensures 0 <= i < |s.log| && s.log[i].id == id && IsOpening(s.log[i].effect)
  {
    var c, t := s.begun[id], TraceOf(s.log, id);
    TraceStanding(c, t);
    LatePhases(c, RunOf(c, t).value, e, Puts(t), SendCount(t));
    SomePut(t);
    var n :| 0 <= n < |t| && t[n].Put?;
    SeenInLog(s.log, id, n);
    var j :| 0 <= j < |s.log| && s.log[j].id == id && s.log[j].effect == t[n];
    assert OpenedBy(s.log, j);
    i :| 0 <= i <= j && s.log[i].id == s.log[j].id && IsOpening(s.log[i].effect);
  }

  lemma AppendGets(s: System, e: Entry)
    requires GetsFit(s.expiring, s.initial, s.log) && e.time == s.now
    requires StoreIsLastPut(s.expiring, s.initial, s.receipts, s.log, s.now)
    requires e.effect.Got? ==> e.effect.found == Live(s.expiring, s.receipts, s.now, e.key)
    ensures GetsFit(s.expiring, s.initial, s.log + [e])
  {
    var log := s.log + [e];
    forall i | 0 <= i < |log| && log[i].effect.Got?
      ensures GetFits(s.expiring, s.initial, log, i)
    {
      if i < |s.log| {
        assert log[i] == s.log[i] && log[..i] == s.log[..i];
        assert GetFits(s.expiring, s.initial, s.log, i);
      } else {
        assert log[..i] == s.log;
      }
    }
  }

  lemma ActKeepsTimes(s: System, id: nat, e: Effect)
    requires Numbered(s.begun, s.active, s.log) && InTime(s.log, s.now) && Enabled(s, Act(id, e))
    ensures InTime(Next(s, Act(id, e)).log, s.now)
  {
    if e.Put? {
      PutKey(s.begun[id], RunOf(s.begun[id], TraceOf(s.log, id)).value, e);
    }
    AppendInTime(s.log, s.now, Entry(id, s.begun[id].key, s.now, e));
  }

  lemma ActKeepsSeparate(s: System, id: nat, e: Effect)
    requires Numbered(s.begun, s.active, s.log) && Separate(s.log, s.active) && Enabled(s, Act(id, e))
    ensures Separate(Next(s, Act(id, e)).log, Next(s, Act(id, e)).active)
    ensures Numbered(s.begun, Next(s, Act(id, e)).active, Next(s, Act(id, e)).log)
  {
    var s' := Next(s, Act(id, e));
    AppendSeparate(s.log, s.active, Entry(id, s.begun[id].key, s.now, e), s.begun);
    FewerSeparate(s'.log, s.active, s'.active);
  }

  lemma ActKeepsStore(s: System, id: nat, e: Effect)
    requires StoreIsLastPut(s.expiring, s.initial, s.receipts, s.log, s.now) && Enabled(s, Act(id, e))
    ensures StoreIsLastPut(s.expiring, s.initial, Next(s, Act(id, e)).receipts, Next(s, Act(id, e)).log, s.now)
  {
    if e.Put? {
      PutKey(s.begun[id], RunOf(s.begun[id], TraceOf(s.log, id)).value, e);
    }
    AppendStore(s.expiring, s.initial, s.receipts, s.log, s.now, Entry(id, s.begun[id].key, s.now, e));
  }

  lemma ActKeepsCovered(s: System, id: nat, e: Effect)
    requires AllCovered(s.expiring, s.receipts, s.log, s.now) && InTime(s.log, s.now) && Enabled(s, Act(id, e))
    ensures AllCovered(s.expiring, Next(s, Act(id, e)).receipts, Next(s, Act(id, e)).log, s.now)
  {
    if e.Put? {
      PutKey(s.begun[id], RunOf(s.begun[id], TraceOf(s.log, id)).value, e);
    }
    AppendCovered(s.expiring, s.receipts, s.log, s.now, Entry(id, s.begun[id].key, s.now, e));
  }

  lemma ActKeepsCleared(s: System, id: nat, e: Effect)
    requires Cleared(s.expiring, s.log, s.active, s.now) && AllCovered(s.expiring, s.receipts, s.log, s.now)
    requires Numbered(s.begun, s.active, s.log) && Enabled(s, Act(id, e))
    ensures Cleared(s.expiring, Next(s, Act(id, e)).log, Next(s, Act(id, e)).active, s.now)
  {
    var s' := Next(s, Act(id, e));
    AppendCleared(s, Entry(id, s.begun[id].key, s.now, e));
    FewerCleared(s.expiring, s'.log, s.active, s'.active, s.now);
  }

  lemma ActKeepsGets(s: System, id: nat, e: Effect)
    requires GetsFit(s.expiring, s.initial, s.log) && Enabled(s, Act(id, e))
    requires StoreIsLastPut(s.expiring, s.initial, s.receipts, s.log, s.now)
    ensures GetsFit(s.expiring, s.initial, Next(s, Act(id, e)).log)
  {
    AppendGets(s, Entry(id, s.begun[id].key, s.now, e));
  }

  lemma ActKeepsAnswers(s: System, id: nat, e: Effect)
    requires AnswersAreLast(s.log, s.active) && Enabled(s, Act(id, e))
    ensures AnswersAreLast(Next(s, Act(id, e)).log, Next(s, Act(id, e)).active)
  {
  }

  lemma ActKeeps(s: System, id: nat, e: Effect)
    requires Inv(s) && Enabled(s, Act(id, e))
    ensures Inv(Next(s, Act(id, e)))
  {
    ActKeepsExecutions(s, id, e);
    ActKeepsTimes(s, id, e);
    ActKeepsSeparate(s, id, e);
    ActKeepsStore(s, id, e);
    ActKeepsCovered(s, id, e);
    ActKeepsCleared(s, id, e);
    ActKeepsOpenings(s, id, e);
    ActKeepsOpened(s, id, e);
    ActKeepsGets(s, id, e);
    ActKeepsAnswers(s, id, e);
  }

  lemma StartKeepsNumbers(s: System, c: Call)
    requires Numbered(s.begun, s.active, s.log) && Executions(s.begun, s.log) && Enabled(s, Start(c))
    ensures var s' := Next(s, Start(c)); Numbered(s'.begun, s'.active, s'.log) && Executions(s'.begun, s'.log)
  {
    UnseenTrace(s.log, |s.begun|);
    assert RunOf(c, []).Some?;
  }

  lemma NewcomerIsSeparate(expiring: bool, log: Log, active: set<nat>, now: int, id: nat)
    requires Separate(log, active) && Cleared(expiring, log, active, now) && AnswersAreLast(log, active)
    requires forall i :: 0 <= i < |log| ==> log[i].id != id
    ensures Separate(log, active + {id}) && Cleared(expiring, log, active + {id}, now) && AnswersAreLast(log, active + {id})
  {
  }

  lemma StartKeeps(s: System, c: Call)
    requires Inv(s) && Enabled(s, Start(c))
    ensures Inv(Next(s, Start(c)))
  {
    StartKeepsNumbers(s, c);
    NewcomerIsSeparate(s.expiring, s.log, s.active, s.now, |s.begun|);
  }

  lemma LaterCovered(expiring: bool, receipts: map<Key, Receipt>, log: Log, now: int, later: int)
    requires AllCovered(expiring, receipts, log, now) && now <= later
    ensures AllCovered(expiring, receipts, log, later)
  {
    forall i | 0 <= i < |log| && log[i].effect.Put?
      ensures Covered(expiring, receipts, later, log[i].key, log[i].time)
    {
      assert Covered(expiring, receipts, now, log[i].key, log[i].time);
    }
  }

  lemma LaterStore(expiring: bool, initial: map<Key, Receipt>, receipts: map<Key, Receipt>, log: Log, now: int, later: int)
    requires StoreIsLastPut(expiring, initial, receipts, log, now) && now <= later
    ensures StoreIsLastPut(expiring, initial, receipts, log, later)
  {
  }

  lemma LaterTimes(expiring: bool, log: Log, active: set<nat>, now: int, later: int)
    requires InTime(log, now) && Cleared(expiring, log, active, now) && now <= later
    ensures InTime(log, later) && Cleared(expiring, log, active, later)
  {
  }

  lemma TickKeeps(s: System, micros: nat)
    requires Inv(s)
    ensures Inv(Next(s, Tick(micros)))
  {
    var s' := Next(s, Tick(micros));
    LaterCovered(s.expiring, s.receipts, s.log, s.now, s'.now);
    LaterStore(s.expiring, s.initial, s.receipts, s.log, s.now, s'.now);
    LaterTimes(s.expiring, s.log, s.active, s.now, s'.now);
    assert Numbered(s'.begun, s'.active, s'.log) && Executions(s'.begun, s'.log);
  }

  lemma PurgeKeepsStore(s: System)
    requires StoreIsLastPut(s.expiring, s.initial, s.receipts, s.log, s.now) && Enabled(s, Purge)
    ensures StoreIsLastPut(s.expiring, s.initial, Next(s, Purge).receipts, s.log, s.now)
  {
  }

  lemma PurgeKeepsCovered(s: System)
    requires AllCovered(s.expiring, s.receipts, s.log, s.now) && Enabled(s, Purge)
    ensures AllCovered(s.expiring, Next(s, Purge).receipts, s.log, s.now)
  {
    forall i | 0 <= i < |s.log| && s.log[i].effect.Put?
      ensures Covered(s.expiring, Next(s, Purge).receipts, s.now, s.log[i].key, s.log[i].time)
    {
      assert Covered(s.expiring, s.receipts, s.now, s.log[i].key, s.log[i].time);
    }
  }

  lemma PurgeKeeps(s: System)
    requires Inv(s) && Enabled(s, Purge)
    ensures Inv(Next(s, Purge))
  {
    PurgeKeepsStore(s);
    PurgeKeepsCovered(s);
  }

  lemma CrashKeeps(s: System, id: nat)
    requires Inv(s) && Enabled(s, Crash(id))
    ensures Inv(Next(s, Crash(id)))
  {
    FewerSeparate(s.log, s.active, s.active - {id});
    FewerCleared(s.expiring, s.log, s.active, s.active - {id}, s.now);
  }

  /** Every state of every run satisfies the invariant. */
  lemma {:induction false} RunInv(s: System, steps: seq<Step>)
    requires Inv(s) && After(s, steps).Some?
    ensures Inv(After(s, steps).value)
  {
    if steps != [] {
      RunInv(s, steps[..|steps| - 1]);
      var r := After(s, steps[..|steps| - 1]).value;
      match steps[|steps| - 1]
      case Start(c) => StartKeeps(r, c);
      case Act(id, e) => ActKeeps(r, id, e);
      case Crash(id) => CrashKeeps(r, id);
      case Tick(micros) => TickKeeps(r, micros);
      case Purge => PurgeKeeps(r);
    }
  }

  lemma InitialInv(expiring: bool, receipts: map<Key, Receipt>, now: int)
    ensures Inv(Initial(expiring, receipts, now))
  {
  }
}
