/** The session pool as one caller sees it is the interleaved pool in a run in which nobody else moves. */
module PoolRefinement {
  import opened Common
  import opened SessionPool
  import opened PoolRuns

  /** The state of the pool object, as the interleaved system has it. */
  ghost predicate Shows(pool: Pool, c: Core)
    reads pool
  {
    && c.pool == Held(pool.sessions) && c.generations == pool.generations && c.maxSessions == pool.maxSessions
    && c.discovered == pool.discovered && c.closed == pool.closed && c.nextClient == pool.nextClient
  }

  /** Some steps lead from `s` to `t`. */
  ghost predicate Leads(s: System, t: System)
  {
    exists steps :: After(s, steps) == Some(t)
  }

  lemma Onwards(s: System, t: System, step: Step)
    requires Leads(s, t) && Enabled(t, step)
    ensures Leads(s, Next(t, step))
  {
    var steps :| After(s, steps) == Some(t);
    assert (steps + [step])[..|steps|] == steps;
    assert After(s, steps + [step]) == Some(Next(t, step));
  }

  lemma {:induction false} AfterBoth(origin: System, before: seq<Step>, s: System, more: seq<Step>)
    requires After(origin, before) == Some(s) && After(s, more).Some?
    ensures After(origin, before + more) == After(s, more)
  {
    if more == [] {
      assert before + more == before;
    } else {
      AfterBoth(origin, before, s, more[..|more| - 1]);
      assert (before + more)[..|before + more| - 1] == before + more[..|more| - 1];
    }
  }

  lemma StaysSound(s: System, t: System)
    requires Reachable(s) && Leads(s, t)
    ensures Reachable(t) && PoolFits(t.core)
  {
    var maxSessions, before :| After(Initial(maxSessions), before) == Some(s);
    var more :| After(s, more) == Some(t);
    AfterBoth(Initial(maxSessions), before, s, more);
    ReachableInv(t);
  }

  // ----- what follows from who holds what -----

  lemma SameClients(sessions: Sessions)
    requires OnePerSubject(sessions)
    ensures PoolRuns.Clients(Held(sessions)) == SessionPool.Clients(sessions)
  {
    forall x
      ensures x in PoolRuns.Clients(Held(sessions)) <==> x in SessionPool.Clients(sessions)
    {
      if x in PoolRuns.Clients(Held(sessions)) {
        var k :| k in Held(sessions) && Held(sessions)[k].client == x;
        HeldHolds(sessions, k);
        var i := IndexOf(sessions, k);
        HeldAt(sessions, i);
        assert sessions[i] in sessions;
      }
      if x in SessionPool.Clients(sessions) {
        var i :| 0 <= i < |sessions| && sessions[i].session.client == x;
        HeldAt(sessions, i);
      }
    }
  }

  /** Who was discovered and who is pooled tells who is closed. */
  lemma SameClosed(pool: Pool, c: Core)
    requires pool.Consistent() && PoolFits(c) && c.pool == Held(pool.sessions) && c.discovered == pool.discovered
    ensures c.closed == pool.closed
  {
    SameClients(pool.sessions);
  }

  lemma SameSize(sessions: Sessions)
    requires OnePerSubject(sessions)
    ensures |Held(sessions)| == |sessions|
  {
    HeldKeys(sessions);
    UseCount(sessions);
    assert |Held(sessions).Keys| == |Held(sessions)| && |LastUse(sessions).Keys| == |LastUse(sessions)|;
  }

  // ----- the two critical sections, in terms of who holds what -----

  /** The generation given is not the one noted. */
  predicate Differs(c: Core, subject: string, generation: Option<int>)
  {
    generation.Some? && subject in c.generations && c.generations[subject] != generation.value
  }

  lemma FirstSectionHits(c: Core, id: nat, subject: string, generation: Option<int>)
    requires subject in c.pool && !Differs(c, subject, generation)
    ensures var (d, next) := FirstSection(c, id, subject, generation, false);
            && next == Gone && d.pool == c.pool && d.maxSessions == c.maxSessions
            && d.discovered == c.discovered && d.nextClient == c.nextClient
            && d.generations == (if generation.Some? then c.generations[subject := generation.value] else c.generations)
            && d.log == c.log + [Handed(id, subject, c.pool[subject])]
  {
  }

  lemma FirstSectionMisses(c: Core, id: nat, subject: string, generation: Option<int>)
    ensures var (d, next) := FirstSection(c, id, subject, generation, true);
            && next == LooksUpLock(subject) && d.pool == c.pool - {subject} && d.maxSessions == c.maxSessions
            && d.discovered == c.discovered && d.nextClient == c.nextClient
            && d.generations == (if generation.Some? then c.generations[subject := generation.value] else c.generations)
            && subject in d.loginLocks
  {
  }

  lemma SecondSectionCreates(c: Core, id: nat, subject: string, chance: Chance, gone: Option<string>)
    requires subject !in c.pool && (chance.login == LoggedIn ==> (gone.Some? <==> |c.pool| + 1 > c.maxSessions))
    requires gone.Some? && chance.login == LoggedIn ==> chance.victim == gone.value && gone.value in c.pool[subject := Session(subject, c.nextClient)]
    ensures var d, session := SecondSection(c, id, subject, chance), Session(subject, c.nextClient);
            && d.generations == c.generations && d.maxSessions == c.maxSessions
            && match chance.login
               case NoClient(_) => d == c
               case NoFamily(_) => d == c.(nextClient := c.nextClient + 1)
               case LoggedIn =>
                 && d.pool == Less(c.pool[subject := session], gone) && d.discovered == c.discovered + {c.nextClient}
                 && d.nextClient == c.nextClient + 1 && d.log != [] && d.log[|d.log| - 1] == Handed(id, subject, session)
  {
    assert |c.pool[subject := Session(subject, c.nextClient)]| == |c.pool| + 1 by {
      var more := c.pool[subject := Session(subject, c.nextClient)];
      assert more.Keys == c.pool.Keys + {subject};
      assert |more.Keys| == |more| && |c.pool.Keys| == |c.pool|;
    }
  }

  // ----- the steps of a caller that nobody disturbs -----

  /** Nobody is inside a critical section, and nobody is signing in. */
  predicate Undisturbed(s: System)
  {
    s.poolOwner.None? && s.loginOwner == map[]
  }

  lemma RunsFirst(s: System, id: nat, subject: string, generation: Option<int>, idle: bool) returns (t: System)
    requires Undisturbed(s) && id !in s.callers
    ensures Leads(s, t) && Undisturbed(t)
    ensures var (d, next) := FirstSection(s.core, id, subject, generation, idle);
            t.core == d && t.callers == s.callers[id := next]
  {
    var arrive, move := Arrive(id, WantsPool(subject, generation)), Move(id, Chance(idle, LoggedIn, subject));
    assert After(s, []) == Some(s);
    Onwards(s, s, arrive);
    var s1 := Next(s, arrive);
    Onwards(s, s1, move);
    var s2 := Next(s1, move);
    Onwards(s, s2, move);
    t := Next(s2, move);
  }

  lemma RunsToLogin(s: System, t: System, id: nat, subject: string) returns (u: System, lock: PoolRuns.LockId)
    requires Leads(s, t) && Undisturbed(t) && id in t.callers && t.callers[id] == LooksUpLock(subject) && subject in t.core.loginLocks
    ensures Leads(s, u)
    ensures u == t.(loginOwner := map[lock := id], poolOwner := Some(id), callers := t.callers[id := InBoth(subject, lock)])
  {
    lock := t.core.loginLocks[subject];
    var move := Move(id, Chance(false, LoggedIn, subject));
    Onwards(s, t, move);
    var t1 := Next(t, move);
    Onwards(s, t1, move);
    var t2 := Next(t1, move);
    Onwards(s, t2, move);
    u := Next(t2, move);
  }

  lemma RunsSecond(s: System, t: System, id: nat, subject: string, chance: Chance) returns (u: System)
    requires Leads(s, t) && Undisturbed(t) && id in t.callers && t.callers[id] == LooksUpLock(subject) && subject in t.core.loginLocks
    requires chance.victim in t.core.pool || chance.victim == subject
    ensures Leads(s, u) && Undisturbed(u)
    ensures u.core == SecondSection(t.core, id, subject, chance) && u.callers == t.callers[id := Gone]
  {
    var v, lock := RunsToLogin(s, t, id, subject);
    Onwards(s, v, Move(id, chance));
    u := Next(v, Move(id, chance));
    assert map[lock := id] - {lock} == map[];
  }

  // ----- the class takes steps of the system -----

  /** After the first section the pool shows the state after three steps. */
  lemma FirstShown(pool: Pool, s: System, id: nat, subject: string, generation: Option<int>, idle: bool) returns (t: System)
    requires pool.Valid() && Reachable(s) && Undisturbed(s) && id !in s.callers
    requires pool.maxSessions == s.core.maxSessions && pool.discovered == s.core.discovered && pool.nextClient == s.core.nextClient
    requires pool.generations == if generation.Some? then s.core.generations[subject := generation.value] else s.core.generations
    requires if idle then Held(pool.sessions) == s.core.pool - {subject}
             else Held(pool.sessions) == s.core.pool && subject in s.core.pool && !Differs(s.core, subject, generation)
    ensures Leads(s, t) && Undisturbed(t) && Shows(pool, t.core) && t.callers == s.callers[id := if idle then LooksUpLock(subject) else Gone]
    ensures if idle then subject in t.core.loginLocks
            else t.core.log == s.core.log + [Handed(id, subject, s.core.pool[subject])]
  {
    t := RunsFirst(s, id, subject, generation, idle);
    if idle {
      FirstSectionMisses(s.core, id, subject, generation);
    } else {
      FirstSectionHits(s.core, id, subject, generation);
    }
    StaysSound(s, t);
    SameClosed(pool, t.core);
  }

  /** The second section of `acquire`. */
  method CreateAsRun(pool: Pool, subject: string, generation: Option<int>, accessed: real, login: Login,
                     ghost s: System, ghost t: System, ghost id: nat) returns (r: Result<Session, Failure>, ghost u: System)
    requires pool.Valid() && Shows(pool, t.core) && !Holds(pool.sessions, subject)
    requires Reachable(s) && Leads(s, t) && Undisturbed(t) && id in t.callers && t.callers[id] == LooksUpLock(subject)
    requires subject in t.core.loginLocks
    modifies pool
    ensures pool.Valid() && Leads(s, u) && Shows(pool, u.core)
    ensures Undisturbed(u) && u.callers == t.callers[id := Gone]
    ensures r.Ok? ==> u.core.log != [] && u.core.log[|u.core.log| - 1] == Handed(id, subject, r.value)
  {
    hide Leads, Reachable, Holds, Held, LastUse, SecondSection;
    SameSize(pool.sessions);
    HeldHolds(pool.sessions, subject);
    ghost var gone: Option<string>;
    r, gone := pool.Create(subject, generation, login, accessed);
    ghost var chance := Chance(false, login, if gone.Some? then gone.value else subject);
    u := RunsSecond(s, t, id, subject, chance);
    StaysSound(s, u);
    SecondSectionCreates(t.core, id, subject, chance, gone);
    SameClosed(pool, u.core);
  }

  /** `acquire`, undisturbed: the pool goes on to show the state that a caller of the system reaches. */
  method AcquireAsRun(pool: Pool, subject: string, generation: Option<int>, checked: real, accessed: real, login: Login,
                      ghost s: System, ghost id: nat) returns (r: Result<Session, Failure>, ghost u: System)
    requires pool.Valid() && Shows(pool, s.core) && Reachable(s) && Undisturbed(s) && id !in s.callers
    modifies pool
    ensures pool.Valid() && Leads(s, u) && Shows(pool, u.core)
    ensures Undisturbed(u) && u.callers == s.callers[id := Gone]
    ensures r.Ok? ==> u.core.log != [] && u.core.log[|u.core.log| - 1] == Handed(id, subject, r.value)
  {
    hide Leads, Reachable, Held, LastUse;
    ghost var before := pool.sessions;
    HeldHolds(before, subject);
    var hit := pool.FindPooled(subject, generation, checked, accessed);
    if hit.Some? {
      u := FirstShown(pool, s, id, subject, generation, false);
      HeldAt(before, IndexOf(before, subject));
      return Ok(hit.value), u;
    }
    ghost var t := FirstShown(pool, s, id, subject, generation, true);
    r, u := CreateAsRun(pool, subject, generation, accessed, login, s, t, id);
  }

  lemma RunsDrop(s: System, id: nat, target: Option<string>) returns (t: System)
    requires Undisturbed(s) && id !in s.callers
    ensures Leads(s, t) && Undisturbed(t) && t.callers == s.callers[id := Gone]
    ensures t.core == if target.Some? then Dropped(s.core, target.value) else ClosedAll(s.core)
  {
    var arrive, move := Arrive(id, WantsDrop(target)), Move(id, Chance(false, LoggedIn, ""));
    assert After(s, []) == Some(s);
    Onwards(s, s, arrive);
    var s1 := Next(s, arrive);
    Onwards(s, s1, move);
    var s2 := Next(s1, move);
    Onwards(s, s2, move);
    t := Next(s2, move);
  }

  /** `invalidate`, or `aclose` when there is no target. */
  method DropAsRun(pool: Pool, target: Option<string>, ghost s: System, ghost id: nat) returns (ghost u: System)
    requires pool.Valid() && Shows(pool, s.core) && Reachable(s) && Undisturbed(s) && id !in s.callers
    modifies pool
    ensures pool.Valid() && Leads(s, u) && Shows(pool, u.core) && Undisturbed(u) && u.callers == s.callers[id := Gone]
    ensures target.Some? ==> u.core.pool == s.core.pool - {target.value} && u.core.loginLocks == s.core.loginLocks
    ensures target.None? ==> u.core.pool == map[] && u.core.generations == map[] && u.core.loginLocks == map[]
  {
    hide Leads, Reachable, LastUse;
    u := RunsDrop(s, id, target);
    StaysSound(s, u);
    if target.Some? {
      pool.Invalidate(target.value);
      assert u.core.pool == s.core.pool - {target.value};
    } else {
      pool.CloseAll();
    }
    SameClosed(pool, u.core);
  }
}
