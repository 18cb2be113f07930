/** The context cache as one caller runs it is a run of the interleaved system in which nobody else moves. */
module ResolverRuns {
  import opened Common
  import opened ContextCache

  /** Some moves lead from `s` to `t`. */
  ghost predicate Leads(s: System, t: System)
  {
    exists steps :: After(s, steps) == Some(t)
  }

  lemma Onwards(s: System, t: System, step: Step)
    requires Leads(s, t) && Enabled(t, step)
    ensures Leads(s, Next(t, step))
  {
    var steps :| After(s, steps) == Some(t);
    assert (steps + [step])[..|steps|] == steps;
    assert After(s, steps + [step]) == Some(Next(t, step));
  }

  /** The cache lock is free, and so is the subject's build lock. */
  predicate Undisturbed(s: System, subject: string)
  {
    s.cacheOwner.None? && (subject in s.buildLocks ==> s.buildLocks[subject] !in s.buildOwner)
  }

  /** Only this caller has moved; it is done and holds nothing. */
  predicate DoneAlone(s: System, t: System, id: nat)
  {
    t.callers == s.callers[id := Gone] && t.cacheOwner.None? && t.buildOwner == s.buildOwner
  }

  /** A lock that is made now is nobody's. */
  lemma NewLockIsFree(s: System)
    requires Reachable(s)
    ensures s.nextLock !in s.buildOwner
  {
    ReachableInv(s);
    forall lock | lock in s.buildOwner
      ensures lock < s.nextLock
    {
      var owner := s.callers[s.buildOwner[lock]];
      assert HoldsLock(owner, lock) && LockIsOwn(owner, s.buildLocks);
    }
  }

  /** Nothing is cached: the caller looks, and then waits for its build lock, which is free. */
  lemma Misses(origin: System, s: System, id: nat, subject: string) returns (t: System, lock: LockId)
    requires Leads(origin, s) && Reachable(s) && Undisturbed(s, subject) && subject !in s.cache
    requires id in s.callers && s.callers[id] == WantsCache(subject)
    ensures Leads(origin, t) && lock !in s.buildOwner
    ensures t == s.(callers := s.callers[id := WantsBuild(subject, lock)], buildLocks := t.buildLocks, nextLock := t.nextLock)
  {
    NewLockIsFree(s);
    lock := LockOf(s, subject);
    Onwards(origin, s, Move(id, true));
    var s1 := Next(s, Move(id, true));
    Onwards(origin, s1, Move(id, true));
    t := Next(s1, Move(id, true));
  }

  /** With the build lock it looks again, and starts to build. */
  lemma LooksTwice(origin: System, t: System, id: nat, subject: string, lock: LockId) returns (u: System)
    requires Leads(origin, t) && t.cacheOwner.None? && lock !in t.buildOwner && subject !in t.cache
    requires id in t.callers && t.callers[id] == WantsBuild(subject, lock)
    ensures Leads(origin, u)
    ensures u == t.(callers := t.callers[id := Builds(subject, lock)], buildOwner := t.buildOwner[lock := id])
  {
    Onwards(origin, t, Move(id, true));
    var t1 := Next(t, Move(id, true));
    Onwards(origin, t1, Move(id, true));
    var t2 := Next(t1, Move(id, true));
    Onwards(origin, t2, Move(id, true));
    u := Next(t2, Move(id, true));
  }

  /** Discovery fails: the build lock is given back. */
  lemma Fails(origin: System, t: System, id: nat, subject: string, lock: LockId) returns (u: System)
    requires Leads(origin, t) && id in t.callers && t.callers[id] == Builds(subject, lock)
    ensures Leads(origin, u)
    ensures u == t.(callers := t.callers[id := Gone], buildOwner := t.buildOwner - {lock})
  {
    Onwards(origin, t, Move(id, false));
    u := Next(t, Move(id, false));
  }

  /** Discovery succeeds: its context is stored and returned, and both locks are given back. */
  lemma Succeeds(origin: System, t: System, id: nat, subject: string, lock: LockId) returns (u: System)
    requires Leads(origin, t) && t.cacheOwner.None? && id in t.callers && t.callers[id] == Builds(subject, lock)
    ensures Leads(origin, u)
    ensures u.callers == t.callers[id := Gone] && u.buildOwner == t.buildOwner - {lock} && u.cacheOwner.None?
    ensures var context := Context(subject, t.nextSerial);
            u.cache == t.cache[subject := context] && u.log == t.log + [Stored(subject)] + [Handed(subject, context)]
  {
    Onwards(origin, t, Move(id, true));
    var t1 := Next(t, Move(id, true));
    Onwards(origin, t1, Move(id, true));
    var t2 := Next(t1, Move(id, true));
    Onwards(origin, t2, Move(id, true));
    u := Next(t2, Move(id, true));
  }

  lemma Discovers(origin: System, s: System, id: nat, subject: string, discovers: bool) returns (u: System)
    requires Leads(origin, s) && Reachable(s) && Undisturbed(s, subject) && subject !in s.cache
    requires id in s.callers && s.callers[id] == WantsCache(subject)
    ensures Leads(origin, u) && DoneAlone(s, u, id)
    ensures var context := Context(subject, s.nextSerial);
            if discovers then u.cache == s.cache[subject := context] && u.log == s.log + [Stored(subject)] + [Handed(subject, context)]
            else u.cache == s.cache && u.log == s.log
  {
    var t, lock := Misses(origin, s, id, subject);
    var v := LooksTwice(origin, t, id, subject, lock);
    if discovers {
      u := Succeeds(origin, v, id, subject, lock);
    } else {
      u := Fails(origin, v, id, subject, lock);
    }
    assert s.buildOwner[lock := id] - {lock} == s.buildOwner;
  }

  /** The context is cached: two moves. */
  lemma Hits(origin: System, s: System, id: nat, subject: string) returns (u: System)
    requires Leads(origin, s) && s.cacheOwner.None? && subject in s.cache
    requires id in s.callers && s.callers[id] == WantsCache(subject)
    ensures Leads(origin, u) && DoneAlone(s, u, id)
    ensures u.cache == s.cache && u.log == s.log + [Handed(subject, s.cache[subject])]
  {
    Onwards(origin, s, Move(id, true));
    var s1 := Next(s, Move(id, true));
    Onwards(origin, s1, Move(id, true));
    u := Next(s1, Move(id, true));
  }

  /** A caller that nobody disturbs, from its wait for the cache lock on. */
  lemma GoesOn(origin: System, s: System, id: nat, subject: string, discovers: bool) returns (u: System)
    requires Leads(origin, s) && Reachable(s) && Undisturbed(s, subject) && subject != ""
    requires id in s.callers && s.callers[id] == WantsCache(subject)
    ensures Leads(origin, u) && DoneAlone(s, u, id)
    ensures var r := Resolved(s.cache, Some(subject), if discovers then Some(s.nextSerial) else None);
            && u.cache == (if r.Ok? then s.cache[subject := r.value] else s.cache)
            && (r.Ok? ==> u.log != [] && u.log[|u.log| - 1] == Handed(subject, r.value))
            && (r.Err? ==> u.log == s.log)
  {
    if subject in s.cache {
      u := Hits(origin, s, id, subject);
    } else {
      u := Discovers(origin, s, id, subject, discovers);
    }
  }

  /** The same for `Resolver.Refresh`: the subject's context is dropped first, and then resolved. */
  lemma RefreshIsARun(s: System, id: nat, subject: string, discovers: bool) returns (u: System)
    requires Reachable(s) && Undisturbed(s, subject) && subject != "" && id !in s.callers
    ensures Leads(s, u) && DoneAlone(s, u, id)
    ensures var r := Resolved(s.cache - {subject}, Some(subject), if discovers then Some(s.nextSerial) else None);
            && u.cache == (if r.Ok? then (s.cache - {subject})[subject := r.value] else s.cache - {subject})
            && (r.Ok? ==> u.log != [] && u.log[|u.log| - 1] == Handed(subject, r.value))
  {
    var t := DropsFirst(s, id, subject);
    StaysReachable(s, t);
    u := GoesOn(s, t, id, subject, discovers);
  }

  lemma DropsFirst(s: System, id: nat, subject: string) returns (t: System)
    requires id !in s.callers && s.cacheOwner.None?
    ensures Leads(s, t)
    ensures t == s.(callers := s.callers[id := WantsCache(subject)], cache := s.cache - {subject}, log := s.log + [Invalidated(subject)])
  {
    assert After(s, []) == Some(s);
    var arrive := Arrive(id, WantsDrop(subject, true));
    Onwards(s, s, arrive);
    var s1 := Next(s, arrive);
    Onwards(s, s1, Move(id, true));
    var s2 := Next(s1, Move(id, true));
    Onwards(s, s2, Move(id, true));
    t := Next(s2, Move(id, true));
  }

  lemma StaysReachable(s: System, t: System)
    requires Reachable(s) && Leads(s, t)
    ensures Reachable(t)
  {
    var before :| After(INITIAL, before) == Some(s);
    var more :| After(s, more) == Some(t);
    AfterBoth(INITIAL, before, s, more);
  }

  lemma {:induction false} AfterBoth(origin: System, before: seq<Step>, s: System, more: seq<Step>)
    requires After(origin, before) == Some(s) && After(s, more).Some?
    ensures After(origin, before + more) == After(s, more)
  {
    if more == [] {
      assert before + more == before;
    } else {
      AfterBoth(origin, before, s, more[..|more| - 1]);
      assert (before + more)[..|before + more| - 1] == before + more[..|more| - 1];
    }
  }

  /** What `Resolver.Resolve` does to the cache, and what it returns, is what a caller does that nobody disturbs. */
  lemma ResolveIsARun(s: System, id: nat, subject: string, discovers: bool) returns (u: System)
    requires Reachable(s) && Undisturbed(s, subject) && subject != "" && id !in s.callers
    ensures Leads(s, u) && DoneAlone(s, u, id)
    ensures var r := Resolved(s.cache, Some(subject), if discovers then Some(s.nextSerial) else None);
            u.cache == (if r.Ok? then s.cache[subject := r.value] else s.cache)
            && (r.Ok? ==> u.log != [] && u.log[|u.log| - 1] == Handed(subject, r.value))
  {
    assert After(s, []) == Some(s);
    var arrive := Arrive(id, WantsCache(subject));
    Onwards(s, s, arrive);
    StaysReachable(s, Next(s, arrive));
    u := GoesOn(s, Next(s, arrive), id, subject, discovers);
  }
}
