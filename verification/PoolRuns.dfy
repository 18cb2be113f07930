/**
 * The session pool under concurrent callers: every lock is explicit, and a caller can be cancelled wherever it waits
 * or works.  What happens inside the pool lock is one step.
 */
module PoolRuns {
  import opened Common
  import opened SessionPool

  type LockId = nat

  /** A caller, by what it does next. */
  datatype Caller =
    | WantsPool(subject: string, generation: Option<int>)     // acquire: waiting for the pool lock
    | InPool(subject: string, generation: Option<int>)        // holding it, in the first critical section
    | LooksUpLock(subject: string)                            // about to fetch the subject's login lock
    | WantsLogin(subject: string, lock: LockId)               // waiting for the login lock
    | HoldsLogin(subject: string, lock: LockId)               // holding it, waiting for the pool lock
    | InBoth(subject: string, lock: LockId)                   // holding both, in the second critical section
    | WantsDrop(target: Option<string>)                      // invalidate, or aclose when None
    | Drops(target: Option<string>)                          // holding the pool lock
    | Gone

  datatype Event =
    | SignedIn(subject: string, client: nat)
    | Removed(subject: string)
    | RemovedAll
    | Handed(caller: nat, subject: string, session: Session)

  /** What the pool lock guards, with the history of what happened. */
  datatype Core = Core(
    maxSessions: nat, pool: map<string, Session>, generations: map<string, int>,
    loginLocks: map<string, LockId>, nextLock: LockId,
    discovered: set<nat>, closed: set<nat>, nextClient: nat, log: seq<Event>)

  datatype System = System(core: Core, loginOwner: map<LockId, nat>, poolOwner: Option<nat>, callers: map<nat, Caller>)

  /** What the critical sections find that is not part of the state: idleness, the sign-in, the session to evict. */
  datatype Chance = Chance(idle: bool, login: Login, victim: string)

  datatype Step =
    | Arrive(id: nat, caller: Caller)
    | Move(id: nat, chance: Chance)
    | Cancel(id: nat)

  predicate HoldsPool(c: Caller)
  {
    c.InPool? || c.InBoth? || c.Drops?
  }

  predicate HoldsLock(c: Caller, lock: LockId)
  {
    (c.HoldsLogin? || c.InBoth?) && c.lock == lock
  }

  // ----- the critical sections -----

  function Dropped(c: Core, subject: string): Core
  {
    if subject in c.pool then
      c.(pool := c.pool - {subject}, closed := c.closed + {c.pool[subject].client}, log := c.log + [Removed(subject)])
    else c
  }

  function Clients(pool: map<string, Session>): set<nat>
  {
    set k | k in pool :: pool[k].client
  }

  /** `aclose`: all sessions closed, all login locks forgotten. */
  function ClosedAll(c: Core): Core
  {
    c.(pool := map[], closed := c.closed + Clients(c.pool), loginLocks := map[], generations := map[], log := c.log + [RemovedAll])
  }

  function NotedGeneration(c: Core, subject: string, generation: Option<int>): Core
  {
    if generation.None? then c
    else
      var d := if subject in c.generations && c.generations[subject] != generation.value then Dropped(c, subject) else c;
      d.(generations := d.generations[subject := generation.value])
  }

  function WithLock(c: Core, subject: string): Core
  {
    if subject in c.loginLocks then c
    else c.(loginLocks := c.loginLocks[subject := c.nextLock], nextLock := c.nextLock + 1)
  }

  function Hand(c: Core, id: nat, subject: string, session: Session): Core
  {
    c.(log := c.log + [Handed(id, subject, session)])
  }

  /** Note the generation; return a session that is not idle; else drop an idle one and see to a login lock. */
  function FirstSection(c: Core, id: nat, subject: string, generation: Option<int>, idle: bool): (r: (Core, Caller))
    ensures r.1 == Gone || r.1 == LooksUpLock(subject)
  {
    var d := NotedGeneration(c, subject, generation);
    if subject in d.pool && !idle then (Hand(d, id, subject, d.pool[subject]), Gone)
    else (WithLock(Dropped(d, subject), subject), LooksUpLock(subject))
  }

  /** A new session in the pool. */
  function Stored(c: Core, subject: string): Core
  {
    c.(pool := c.pool[subject := Session(subject, c.nextClient)], nextClient := c.nextClient + 1,
       discovered := c.discovered + {c.nextClient}, log := c.log + [SignedIn(subject, c.nextClient)])
  }

  function Evicted(c: Core, victim: string): Core
  {
    if |c.pool| > c.maxSessions then Dropped(c, victim) else c
  }

  /** Look again; else create a client, sign in, store the session and evict one too many. */
  function SecondSection(c: Core, id: nat, subject: string, chance: Chance): Core
  {
    if subject in c.pool then Hand(c, id, subject, c.pool[subject])
    else
      match chance.login
      case NoClient(_) => c
      case NoFamily(_) => c.(nextClient := c.nextClient + 1)
      case LoggedIn => Hand(Evicted(Stored(c, subject), chance.victim), id, subject, Session(subject, c.nextClient))
  }

  // ----- the steps -----

  predicate CanMove(s: System, id: nat)
    requires id in s.callers
  {
    match s.callers[id]
    case WantsPool(_, _) => s.poolOwner.None?
    case WantsDrop(_) => s.poolOwner.None?
    case HoldsLogin(_, _) => s.poolOwner.None?
    case WantsLogin(_, lock) => lock !in s.loginOwner
    case Gone => false
    case _ => true
  }

  predicate Enabled(s: System, step: Step)
  {
    match step
    case Arrive(id, caller) => id !in s.callers && (caller.WantsPool? || caller.WantsDrop?)
    case Move(id, chance) =>
      && id in s.callers && CanMove(s, id)
      && (s.callers[id].InBoth? ==> chance.victim in s.core.pool || chance.victim == s.callers[id].subject)
    case Cancel(id) => id in s.callers
  }

  function Moved(s: System, id: nat, chance: Chance): System
    requires Enabled(s, Move(id, chance))
  {
    match s.callers[id]
    case WantsPool(subject, generation) => s.(poolOwner := Some(id), callers := s.callers[id := InPool(subject, generation)])
    case InPool(subject, generation) =>
      var (core, next) := FirstSection(s.core, id, subject, generation, chance.idle);
      s.(core := core, poolOwner := None, callers := s.callers[id := next])
    case LooksUpLock(subject) =>
      var locks := s.core.loginLocks;
      s.(callers := s.callers[id := if subject in locks then WantsLogin(subject, locks[subject]) else Gone])
    case WantsLogin(subject, lock) =>
      s.(loginOwner := s.loginOwner[lock := id], callers := s.callers[id := HoldsLogin(subject, lock)])
    case HoldsLogin(subject, lock) => s.(poolOwner := Some(id), callers := s.callers[id := InBoth(subject, lock)])
    case InBoth(subject, lock) =>
      s.(core := SecondSection(s.core, id, subject, chance), poolOwner := None, loginOwner := s.loginOwner - {lock},
         callers := s.callers[id := Gone])
    case WantsDrop(target) => s.(poolOwner := Some(id), callers := s.callers[id := Drops(target)])
    case Drops(target) =>
      s.(core := if target.Some? then Dropped(s.core, target.value) else ClosedAll(s.core),
         poolOwner := None, callers := s.callers[id := Gone])
  }

  /** A cancelled caller gives back what it holds. */
  function Cancelled(s: System, id: nat): System
    requires id in s.callers
  {
    var c := s.callers[id];
    s.(poolOwner := if HoldsPool(c) then None else s.poolOwner,
       loginOwner := if c.HoldsLogin? || c.InBoth? then s.loginOwner - {c.lock} else s.loginOwner,
       callers := s.callers[id := Gone])
  }

  function Next(s: System, step: Step): System
    requires Enabled(s, step)
  {
    match step
    case Arrive(id, caller) => s.(callers := s.callers[id := caller])
    case Move(id, chance) => Moved(s, id, chance)
    case Cancel(id) => Cancelled(s, id)
  }

  function After(s: System, steps: seq<Step>): Option<System>
  {
    if steps == [] then Some(s)
    else
      match After(s, steps[..|steps| - 1])
      case Some(r) => if Enabled(r, steps[|steps| - 1]) then Some(Next(r, steps[|steps| - 1])) else None
      case None => None
  }

  function Initial(maxSessions: nat): System
  {
    System(Core(maxSessions, map[], map[], map[], 0, {}, {}, 0, []), map[], None, map[])
  }

  ghost predicate Reachable(s: System)
  {
    exists maxSessions, steps :: After(Initial(maxSessions), steps) == Some(s)
  }

  // ----- invariants -----

  /** The pool lock is held by exactly the caller that says so. */
  ghost predicate PoolLockFits(owner: Option<nat>, callers: map<nat, Caller>)
  {
    && (forall id :: id in callers && HoldsPool(callers[id]) ==> owner == Some(id))
    && (owner.Some? ==> owner.value in callers && HoldsPool(callers[owner.value]))
  }

  /** So is every login lock, even one that `aclose` has forgotten. */
  ghost predicate LoginLocksFit(owners: map<LockId, nat>, callers: map<nat, Caller>)
  {
    && (forall id, lock :: id in callers && HoldsLock(callers[id], lock) ==> lock in owners && owners[lock] == id)
    && (forall lock :: lock in owners ==> owners[lock] in callers && HoldsLock(callers[owners[lock]], lock))
  }

  ghost predicate LocksFit(s: System)
  {
    PoolLockFits(s.poolOwner, s.callers) && LoginLocksFit(s.loginOwner, s.callers)
  }

  /** Every pooled session was created for its subject; each discovered client is pooled once or closed. */
  ghost predicate PoolFits(c: Core)
  {
    && (forall k :: k in c.pool ==> c.pool[k].owner == k)
    && (forall j, k :: j in c.pool && k in c.pool && c.pool[j].client == c.pool[k].client ==> j == k)
    && c.discovered == c.closed + Clients(c.pool) && c.closed !! Clients(c.pool)
    && (forall x :: x in c.discovered ==> x < c.nextClient)
  }

  /** The client that a subject is signed in with, by the log. */
  function Standing(log: seq<Event>, subject: string): Option<nat>
  {
    if log == [] then None
    else
      match log[|log| - 1]
      case SignedIn(k, client) => if k == subject then Some(client) else Standing(log[..|log| - 1], subject)
      case Removed(k) => if k == subject then None else Standing(log[..|log| - 1], subject)
      case RemovedAll => None
      case Handed(_, _, _) => Standing(log[..|log| - 1], subject)
  }

  /** The log tells what is pooled; nobody signs in while signed in; nobody is handed another's session. */
  ghost predicate LogFits(pool: map<string, Session>, log: seq<Event>)
  {
    && (forall k :: Standing(log, k) == if k in pool then Some(pool[k].client) else None)
    && (forall i :: 0 <= i < |log| && log[i].SignedIn? ==> Standing(log[..i], log[i].subject).None?)
    && (forall i :: 0 <= i < |log| && log[i].Handed? ==> log[i].session.owner == log[i].subject)
  }

  ghost predicate Sound(c: Core)
  {
    PoolFits(c) && LogFits(c.pool, c.log)
  }

  ghost predicate Inv(s: System)
  {
    LocksFit(s) && Sound(s.core) && |s.core.pool| <= s.core.maxSessions
  }

  // ----- what each change keeps -----

  lemma LogAppend(pool: map<string, Session>, next: map<string, Session>, log: seq<Event>, e: Event)
    requires LogFits(pool, log)
    requires match e
             case SignedIn(k, client) => k !in pool && next == pool[k := Session(k, client)]
             case Removed(k) => next == pool - {k}
             case RemovedAll => next == map[]
             case Handed(_, subject, session) => next == pool && session.owner == subject
    ensures LogFits(next, log + [e])
  {
    var more := log + [e];
    assert more[..|log|] == log;
    forall k
      ensures Standing(more, k) == if k in next then Some(next[k].client) else None
    {
      assert Standing(log, k) == if k in pool then Some(pool[k].client) else None;
    }
    forall i | 0 <= i < |more| && more[i].SignedIn?
      ensures Standing(more[..i], more[i].subject).None?
    {
      if i < |log| {
        assert more[..i] == log[..i] && more[i] == log[i];
      }
    }
  }

  lemma DroppedClients(c: Core, subject: string)
    requires PoolFits(c) && subject in c.pool
    ensures PoolFits(Dropped(c, subject)) && |Dropped(c, subject).pool| == |c.pool| - 1
  {
    var d := Dropped(c, subject);
    assert d.pool.Keys == c.pool.Keys - {subject};
    assert |d.pool.Keys| == |d.pool| && |c.pool.Keys| == |c.pool|;
    forall x
      ensures x in Clients(c.pool) <==> x in Clients(d.pool) || x == c.pool[subject].client
    {
      if x in Clients(c.pool) {
        var k :| k in c.pool && c.pool[k].client == x;
        assert k != subject ==> k in d.pool && d.pool[k].client == x;
      }
    }
  }

  lemma DroppedKeeps(c: Core, subject: string)
    requires Sound(c)
    ensures Sound(Dropped(c, subject)) && Dropped(c, subject).maxSessions == c.maxSessions
    ensures |Dropped(c, subject).pool| == |c.pool| - if subject in c.pool then 1 else 0
  {
    if subject in c.pool {
      LogAppend(c.pool, c.pool - {subject}, c.log, Removed(subject));
      DroppedClients(c, subject);
    }
  }

  lemma ClosedAllKeeps(c: Core)
    requires Sound(c)
    ensures Sound(ClosedAll(c)) && |ClosedAll(c).pool| == 0
  {
    LogAppend(c.pool, map[], c.log, RemovedAll);
  }

  lemma StoredSet(pool: map<string, Session>, subject: string, session: Session)
    requires subject !in pool
    ensures Clients(pool[subject := session]) == Clients(pool) + {session.client}
    ensures |pool[subject := session]| == |pool| + 1
  {
    var more := pool[subject := session];
    assert more.Keys == pool.Keys + {subject};
    assert |more.Keys| == |more| && |pool.Keys| == |pool|;
    forall x
      ensures x in Clients(more) <==> x in Clients(pool) || x == session.client
    {
      if x in Clients(pool) {
        var k :| k in pool && pool[k].client == x;
        assert k in more && more[k].client == x;
      }
      assert subject in more && more[subject].client == session.client;
    }
  }

  lemma StoredClients(c: Core, subject: string)
    requires PoolFits(c) && subject !in c.pool
    ensures PoolFits(Stored(c, subject)) && |Stored(c, subject).pool| == |c.pool| + 1
  {
    assert forall k :: k in c.pool ==> c.pool[k].client in Clients(c.pool);
    hide Clients;
    StoredSet(c.pool, subject, Session(subject, c.nextClient));
  }

  lemma StoredKeeps(c: Core, subject: string)
    requires Sound(c) && subject !in c.pool
    ensures Sound(Stored(c, subject)) && |Stored(c, subject).pool| == |c.pool| + 1
  {
    LogAppend(c.pool, Stored(c, subject).pool, c.log, SignedIn(subject, c.nextClient));
    StoredClients(c, subject);
  }

  lemma HandKeeps(c: Core, id: nat, subject: string, session: Session)
    requires Sound(c) && session.owner == subject
    ensures Sound(Hand(c, id, subject, session))
  {
    LogAppend(c.pool, c.pool, c.log, Handed(id, subject, session));
  }

  /** Generations and login locks are no part of what is pooled. */
  lemma OnlyPoolMatters(c: Core, d: Core)
    requires Sound(c) && d.pool == c.pool && d.log == c.log && d.discovered == c.discovered && d.closed == c.closed
    requires d.nextClient >= c.nextClient
    ensures Sound(d)
  {
  }

  lemma NotedKeeps(c: Core, subject: string, generation: Option<int>)
    requires Sound(c)
    ensures var d := NotedGeneration(c, subject, generation); Sound(d) && |d.pool| <= |c.pool| && d.maxSessions == c.maxSessions
  {
    if generation.Some? {
      DroppedKeeps(c, subject);
      var d := if subject in c.generations && c.generations[subject] != generation.value then Dropped(c, subject) else c;
      OnlyPoolMatters(d, NotedGeneration(c, subject, generation));
    }
  }

  lemma FirstSectionKeeps(c: Core, id: nat, subject: string, generation: Option<int>, idle: bool)
    requires Sound(c)
    ensures var d := FirstSection(c, id, subject, generation, idle).0;
            Sound(d) && |d.pool| <= |c.pool| && d.maxSessions == c.maxSessions
  {
    hide LogFits, Clients, NotedGeneration;
    NotedKeeps(c, subject, generation);
    var d := NotedGeneration(c, subject, generation);
    if subject in d.pool && !idle {
      assert d.pool[subject].owner == subject;
      HandKeeps(d, id, subject, d.pool[subject]);
    } else {
      DroppedKeeps(d, subject);
      OnlyPoolMatters(Dropped(d, subject), WithLock(Dropped(d, subject), subject));
    }
  }

  lemma EvictedKeeps(c: Core, victim: string)
    requires Sound(c) && victim in c.pool && |c.pool| <= c.maxSessions + 1
    ensures var d := Evicted(c, victim); Sound(d) && |d.pool| <= d.maxSessions && d.maxSessions == c.maxSessions
  {
    DroppedKeeps(c, victim);
  }

  lemma SecondSectionKeeps(c: Core, id: nat, subject: string, chance: Chance)
    requires Sound(c) && |c.pool| <= c.maxSessions && (chance.victim in c.pool || chance.victim == subject)
    ensures var d := SecondSection(c, id, subject, chance);
            Sound(d) && |d.pool| <= d.maxSessions && d.maxSessions == c.maxSessions
  {
    hide LogFits, Clients;
    if subject in c.pool {
      assert c.pool[subject].owner == subject;
      HandKeeps(c, id, subject, c.pool[subject]);
    } else if chance.login.NoFamily? {
      OnlyPoolMatters(c, SecondSection(c, id, subject, chance));
    } else if chance.login.LoggedIn? {
      var d := Stored(c, subject);
      StoredKeeps(c, subject);
      EvictedKeeps(d, chance.victim);
      HandKeeps(Evicted(d, chance.victim), id, subject, Session(subject, c.nextClient));
    }
  }

  lemma MovedCore(s: System, id: nat, chance: Chance)
    requires Sound(s.core) && |s.core.pool| <= s.core.maxSessions && Enabled(s, Move(id, chance))
    ensures var c := Moved(s, id, chance).core; Sound(c) && |c.pool| <= c.maxSessions
  {
    hide Sound, FirstSection, SecondSection, Dropped, ClosedAll;
    match s.callers[id]
    case InPool(subject, generation) => FirstSectionKeeps(s.core, id, subject, generation, chance.idle);
    case InBoth(subject, lock) => SecondSectionKeeps(s.core, id, subject, chance);
    case Drops(target) =>
      if target.Some? {
        DroppedKeeps(s.core, target.value);
      } else {
        ClosedAllKeeps(s.core);
      }
    case _ =>
  }

  // ----- locks -----

  /** A caller takes the pool lock when it is free, gives it back, or has nothing to do with it. */
  lemma PoolLockMoves(owner: Option<nat>, callers: map<nat, Caller>, id: nat, c: Caller)
    requires PoolLockFits(owner, callers)
    requires HoldsPool(c) ==> owner.None? || owner == Some(id)
    ensures PoolLockFits(if HoldsPool(c) then Some(id) else if owner == Some(id) then None else owner, callers[id := c])
  {
  }

  lemma LoginLockTaken(owners: map<LockId, nat>, callers: map<nat, Caller>, id: nat, c: Caller)
    requires LoginLocksFit(owners, callers) && c.HoldsLogin? && c.lock !in owners
    requires id in callers ==> !callers[id].HoldsLogin? && !callers[id].InBoth?
    ensures LoginLocksFit(owners[c.lock := id], callers[id := c])
  {
  }

  lemma LoginLockGiven(owners: map<LockId, nat>, callers: map<nat, Caller>, id: nat, c: Caller)
    requires LoginLocksFit(owners, callers) && id in callers && (callers[id].HoldsLogin? || callers[id].InBoth?)
    requires !c.HoldsLogin? && !c.InBoth?
    ensures LoginLocksFit(owners - {callers[id].lock}, callers[id := c])
  {
    var lock, next := callers[id].lock, callers[id := c];
    assert HoldsLock(callers[id], lock) && owners[lock] == id;
    forall j, l | j in next && HoldsLock(next[j], l)
      ensures l in owners - {lock} && owners[l] == j
    {
      assert j != id && HoldsLock(callers[j], l);
    }
  }

  lemma LoginLockKept(owners: map<LockId, nat>, callers: map<nat, Caller>, id: nat, c: Caller)
    requires LoginLocksFit(owners, callers)
    requires forall lock :: HoldsLock(c, lock) <==> id in callers && HoldsLock(callers[id], lock)
    ensures LoginLocksFit(owners, callers[id := c])
  {
  }

  lemma MovedLocks(s: System, id: nat, chance: Chance)
    requires LocksFit(s) && Enabled(s, Move(id, chance))
    ensures LocksFit(Moved(s, id, chance))
  {
    var next := Moved(s, id, chance).callers[id];
    PoolLockMoves(s.poolOwner, s.callers, id, next);
    match s.callers[id]
    case WantsLogin(_, _) => LoginLockTaken(s.loginOwner, s.callers, id, next);
    case InBoth(_, _) => LoginLockGiven(s.loginOwner, s.callers, id, next);
    case _ => LoginLockKept(s.loginOwner, s.callers, id, next);
  }

  lemma CancelledLocks(s: System, id: nat)
    requires LocksFit(s) && id in s.callers
    ensures LocksFit(Cancelled(s, id))
  {
    PoolLockMoves(s.poolOwner, s.callers, id, Gone);
    if s.callers[id].HoldsLogin? || s.callers[id].InBoth? {
      LoginLockGiven(s.loginOwner, s.callers, id, Gone);
    } else {
      LoginLockKept(s.loginOwner, s.callers, id, Gone);
    }
  }

  lemma ArrivedLocks(s: System, id: nat, caller: Caller)
    requires LocksFit(s) && Enabled(s, Arrive(id, caller))
    ensures LocksFit(Next(s, Arrive(id, caller)))
  {
    PoolLockMoves(s.poolOwner, s.callers, id, caller);
    LoginLockKept(s.loginOwner, s.callers, id, caller);
  }

  lemma StepKeeps(s: System, step: Step)
    requires Inv(s) && Enabled(s, step)
    ensures Inv(Next(s, step))
  {
    match step
    case Arrive(id, caller) =>
      ArrivedLocks(s, id, caller);
    case Move(id, chance) =>
      MovedLocks(s, id, chance);
      MovedCore(s, id, chance);
    case Cancel(id) =>
      CancelledLocks(s, id);
  }

  lemma {:induction false} RunKeeps(s: System, steps: seq<Step>)
    requires Inv(s) && After(s, steps).Some?
    ensures Inv(After(s, steps).value)
  {
    if steps != [] {
      RunKeeps(s, steps[..|steps| - 1]);
      StepKeeps(After(s, steps[..|steps| - 1]).value, steps[|steps| - 1]);
    }
  }

  lemma ReachableInv(s: System)
    requires Reachable(s)
    ensures Inv(s)
  {
    var maxSessions, steps :| After(Initial(maxSessions), steps) == Some(s);
    RunKeeps(Initial(maxSessions), steps);
  }

  // ----- the promises -----

  /** Some removal of the subject's session lies between two positions of the log. */
  ghost predicate RemovedBetween(log: seq<Event>, subject: string, i: nat, j: nat)
  {
    exists k :: i < k < j && k < |log| && (log[k].RemovedAll? || (log[k].Removed? && log[k].subject == subject))
  }

  lemma {:induction false} StandsUntilRemoved(log: seq<Event>, subject: string, i: nat, j: nat)
    requires i < j <= |log| && log[i].SignedIn? && log[i].subject == subject && Standing(log[..j], subject).None?
    ensures RemovedBetween(log, subject, i, j)
    decreases j
  {
    assert log[..j][..j - 1] == log[..j - 1] && log[..j][j - 1] == log[j - 1];
    if j - 1 > i && !(log[j - 1].RemovedAll? || (log[j - 1].Removed? && log[j - 1].subject == subject)) {
      StandsUntilRemoved(log, subject, i, j - 1);
      var k :| i < k < j - 1 && k < |log| && (log[k].RemovedAll? || (log[k].Removed? && log[k].subject == subject));
      assert i < k < j;
    }
  }

  /** Two successful sign-ins of one subject are separated by a removal of that subject's session. */
  lemma SignInsAreSeparated(s: System, i: nat, j: nat)
    requires Reachable(s)
    requires var log := s.core.log;
             i < j < |log| && log[i].SignedIn? && log[j].SignedIn? && log[i].subject == log[j].subject
    ensures RemovedBetween(s.core.log, s.core.log[i].subject, i, j)
  {
    ReachableInv(s);
    StandsUntilRemoved(s.core.log, s.core.log[i].subject, i, j);
  }

  /** Every returned session was created for the subject that asked. */
  lemma OwnSessionOnly(s: System, i: nat)
    requires Reachable(s) && i < |s.core.log| && s.core.log[i].Handed?
    ensures s.core.log[i].session.owner == s.core.log[i].subject
  {
    ReachableInv(s);
  }

  predicate InPoolNow(c: Core, client: nat)
  {
    exists k :: k in c.pool && c.pool[k].client == client
  }

  /** Every client whose discovery succeeded is in exactly one of pooled and closed, and the pool keeps its bound. */
  lemma PooledOrClosed(s: System, client: nat)
    requires Reachable(s)
    ensures client in s.core.discovered <==> client in s.core.closed || InPoolNow(s.core, client)
    ensures !(client in s.core.closed && InPoolNow(s.core, client))
    ensures |s.core.pool| <= s.core.maxSessions
  {
    ReachableInv(s);
    assert client in Clients(s.core.pool) <==> InPoolNow(s.core, client);
  }

  /** As long as somebody is not done, somebody can move: the two lock levels cannot deadlock. */
  lemma NeverDeadlocks(s: System, id: nat)
    requires Reachable(s) && id in s.callers && !s.callers[id].Gone?
    ensures exists j, chance :: j in s.callers && !s.callers[j].Gone? && Enabled(s, Move(j, chance))
  {
    ReachableInv(s);
    var j := id;
    if s.poolOwner.Some? {
      j := s.poolOwner.value;
    } else if s.callers[id].WantsLogin? && s.callers[id].lock in s.loginOwner {
      j := s.loginOwner[s.callers[id].lock];
    }
    var chance := Chance(false, LoggedIn, if s.callers[j].InBoth? then s.callers[j].subject else "");
    assert Enabled(s, Move(j, chance));
  }
}
