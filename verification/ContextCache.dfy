/**
 * The per-subject context cache: as one caller runs it, and under concurrent resolves, refreshes and invalidations,
 * with the cache lock and the per-subject build locks explicit.
 */
module ContextCache {
  import opened Common

  type LockId = nat

  /** A discovered context, by the subject whose session it was discovered through. */
  datatype Context = Context(builtFor: string, serial: nat)

  datatype Failure = MissingAccessToken | DiscoveryFailed

  // ----- one caller at a time -----

  class Resolver {
    var cache: map<string, Context>
    var buildLocks: set<string>

    ghost predicate Valid()
      reads this
    {
      forall k :: k in cache ==> cache[k].builtFor == k && k in buildLocks
    }

    constructor ()
      ensures Valid() && cache == map[] && buildLocks == {}
    {
      cache, buildLocks := map[], {};
    }

    /** `resolve`: the token's subject decides; a cached context is returned as it is, a missing one is built and kept. */
    method Resolve(subject: Option<string>, discovered: Option<nat>) returns (r: Result<Context, Failure>)
      requires Valid()
      modifies this
      ensures Valid() && r == Resolved(old(cache), subject, discovered)
      ensures r == if subject.None? || subject.value == "" then Err(MissingAccessToken)
                   else if subject.value in old(cache) then Ok(old(cache)[subject.value])
                   else if discovered.Some? then Ok(Context(subject.value, discovered.value)) else Err(DiscoveryFailed)
      ensures cache == if r.Ok? then old(cache)[subject.value := r.value] else old(cache)
    {
      if subject.None? || subject.value == "" {
        return Err(MissingAccessToken);
      }
      if subject.value in cache {
        return Ok(cache[subject.value]);
      }
      buildLocks := buildLocks + {subject.value};
      if discovered.None? {
        return Err(DiscoveryFailed);
      }
      var context := Context(subject.value, discovered.value);
      cache := cache[subject.value := context];
      return Ok(context);
    }

    method Invalidate(subject: string)
      requires Valid()
      modifies this
      ensures Valid() && cache == old(cache) - {subject}
    {
      cache := cache - {subject};
    }

    /** `refresh`: always the caller's own subject; a failed rebuild leaves it uncached. */
    method Refresh(subject: Option<string>, discovered: Option<nat>) returns (r: Result<Context, Failure>)
      requires Valid()
      modifies this
      ensures Valid()
      ensures subject.None? || subject.value == "" ==> r == Err(MissingAccessToken) && cache == old(cache)
      ensures subject.Some? && subject.value != "" ==>
                && r == (if discovered.Some? then Ok(Context(subject.value, discovered.value)) else Err(DiscoveryFailed))
                && cache - {subject.value} == old(cache) - {subject.value} && (subject.value in cache <==> r.Ok?)
    {
      if subject.None? || subject.value == "" {
        return Err(MissingAccessToken);
      }
      Invalidate(subject.value);
      r := Resolve(subject, discovered);
    }
  }

  /** The cached context if there is one, else whatever discovery for this very subject gives. */
  function Resolved(cache: map<string, Context>, subject: Option<string>, discovered: Option<nat>): Result<Context, Failure>
  {
    if subject.None? || subject.value == "" then Err(MissingAccessToken)
    else if subject.value in cache then Ok(cache[subject.value])
    else if discovered.None? then Err(DiscoveryFailed)
    else Ok(Context(subject.value, discovered.value))
  }

  // ----- many callers -----

  /** A caller, by what it does next; the locks it holds follow from that. */
  datatype Caller =
    | WantsCache(subject: string)                              // resolve: waiting for the cache lock
    | Looks(subject: string)                                   // holding it, first look
    | WantsBuild(subject: string, lock: LockId)                // waiting for the build lock
    | WantsSecondLook(subject: string, lock: LockId)           // holding it, waiting for the cache lock
    | LooksAgain(subject: string, lock: LockId)                // holding both
    | Builds(subject: string, lock: LockId)                    // holding the build lock, discovering
    | WantsStore(subject: string, lock: LockId, context: Context)
    | Stores(subject: string, lock: LockId, context: Context)  // holding both
    | WantsDrop(subject: string, thenResolve: bool)            // invalidate, or the first half of refresh
    | Drops(subject: string, thenResolve: bool)
    | Gone

  datatype Event = Stored(subject: string) | Invalidated(subject: string) | Handed(subject: string, context: Context)

  datatype System = System(
    cache: map<string, Context>, buildLocks: map<string, LockId>, nextLock: LockId, nextSerial: nat,
    buildOwner: map<LockId, nat>, cacheOwner: Option<nat>, callers: map<nat, Caller>, log: seq<Event>)

  datatype Step =
    | Arrive(id: nat, caller: Caller)
    | Move(id: nat, discovers: bool)
    | Cancel(id: nat)

  predicate HoldsCache(c: Caller)
  {
    c.Looks? || c.LooksAgain? || c.Stores? || c.Drops?
  }

  predicate HoldsBuild(c: Caller)
  {
    c.WantsSecondLook? || c.LooksAgain? || c.Builds? || c.WantsStore? || c.Stores?
  }

  predicate CanMove(s: System, id: nat)
    requires id in s.callers
  {
    match s.callers[id]
    case WantsCache(_) => s.cacheOwner.None?
    case WantsSecondLook(_, _) => s.cacheOwner.None?
    case WantsStore(_, _, _) => s.cacheOwner.None?
    case WantsDrop(_, _) => s.cacheOwner.None?
    case WantsBuild(_, lock) => lock !in s.buildOwner
    case Gone => false
    case _ => true
  }

  predicate Enabled(s: System, step: Step)
  {
    match step
    case Arrive(id, caller) => id !in s.callers && (caller.WantsCache? || caller.WantsDrop?)
    case Move(id, _) => id in s.callers && CanMove(s, id)
    case Cancel(id) => id in s.callers
  }

  function Turn(s: System, id: nat, c: Caller): System
  {
    s.(callers := s.callers[id := c])
  }

  /** `setdefault`: the lock of a subject is made once and never replaced. */
  function LockOf(s: System, subject: string): LockId
  {
    if subject in s.buildLocks then s.buildLocks[subject] else s.nextLock
  }

  /** What the caller does next after its move. */
  function NextCaller(s: System, id: nat, discovers: bool): Caller
    requires Enabled(s, Move(id, discovers))
  {
    match s.callers[id]
    case WantsCache(subject) => Looks(subject)
    case Looks(subject) => if subject in s.cache then Gone else WantsBuild(subject, LockOf(s, subject))
    case WantsBuild(subject, lock) => WantsSecondLook(subject, lock)
    case WantsSecondLook(subject, lock) => LooksAgain(subject, lock)
    case LooksAgain(subject, lock) => if subject in s.cache then Gone else Builds(subject, lock)
    case Builds(subject, lock) => if discovers then WantsStore(subject, lock, Context(subject, s.nextSerial)) else Gone
    case WantsStore(subject, lock, context) => Stores(subject, lock, context)
    case Stores(_, _, _) => Gone
    case WantsDrop(subject, thenResolve) => Drops(subject, thenResolve)
    case Drops(subject, thenResolve) => if thenResolve then WantsCache(subject) else Gone
  }

  /** What the move does to the cache and the locks. */
  function Touched(s: System, id: nat, discovers: bool): System
    requires Enabled(s, Move(id, discovers))
  {
    match s.callers[id]
    case WantsCache(_) => s.(cacheOwner := Some(id))
    case Looks(subject) =>
      if subject in s.cache then s.(cacheOwner := None, log := s.log + [Handed(subject, s.cache[subject])])
      else s.(cacheOwner := None, buildLocks := s.buildLocks[subject := LockOf(s, subject)],
              nextLock := if subject in s.buildLocks then s.nextLock else s.nextLock + 1)
    case WantsBuild(_, lock) => s.(buildOwner := s.buildOwner[lock := id])
    case WantsSecondLook(_, _) => s.(cacheOwner := Some(id))
    case LooksAgain(subject, lock) =>
      if subject in s.cache
      then s.(cacheOwner := None, buildOwner := s.buildOwner - {lock}, log := s.log + [Handed(subject, s.cache[subject])])
      else s.(cacheOwner := None)
    case Builds(_, lock) => if discovers then s.(nextSerial := s.nextSerial + 1) else s.(buildOwner := s.buildOwner - {lock})
    case WantsStore(_, _, _) => s.(cacheOwner := Some(id))
    case Stores(subject, lock, context) =>
      s.(cache := s.cache[subject := context], cacheOwner := None, buildOwner := s.buildOwner - {lock},
         log := s.log + [Stored(subject)] + [Handed(subject, context)])
    case WantsDrop(_, _) => s.(cacheOwner := Some(id))
    case Drops(subject, _) => s.(cache := s.cache - {subject}, cacheOwner := None, log := s.log + [Invalidated(subject)])
  }

  function Moved(s: System, id: nat, discovers: bool): System
    requires Enabled(s, Move(id, discovers))
  {
    Turn(Touched(s, id, discovers), id, NextCaller(s, id, discovers))
  }

  /** A cancelled caller gives back what it holds. */
  function Cancelled(s: System, id: nat): System
    requires id in s.callers
  {
    var c := s.callers[id];
    Turn(s, id, Gone).(cacheOwner := if HoldsCache(c) then None else s.cacheOwner,
                       buildOwner := if HoldsBuild(c) then s.buildOwner - {c.lock} else s.buildOwner)
  }

  function Next(s: System, step: Step): System
    requires Enabled(s, step)
  {
    match step
    case Arrive(id, caller) => Turn(s, id, caller)
    case Move(id, discovers) => Moved(s, id, discovers)
    case Cancel(id) => Cancelled(s, id)
  }

  function After(s: System, steps: seq<Step>): Option<System>
  {
    if steps == [] then Some(s)
    else
      match After(s, steps[..|steps| - 1])
      case Some(r) => if Enabled(r, steps[|steps| - 1]) then Some(Next(r, steps[|steps| - 1])) else None
      case None => None
  }

  const INITIAL := System(map[], map[], 0, 0, map[], None, map[], [])

  ghost predicate Reachable(s: System)
  {
    exists steps :: After(INITIAL, steps) == Some(s)
  }

  // ----- invariants -----

  ghost predicate CacheLockFits(owner: Option<nat>, callers: map<nat, Caller>)
  {
    && (forall id :: id in callers && HoldsCache(callers[id]) ==> owner == Some(id))
    && (owner.Some? ==> owner.value in callers && HoldsCache(callers[owner.value]))
  }

  predicate HoldsLock(c: Caller, lock: LockId)
  {
    HoldsBuild(c) && c.lock == lock
  }

  ghost predicate BuildLocksFit(owners: map<LockId, nat>, callers: map<nat, Caller>)
  {
    && (forall id, lock :: id in callers && HoldsLock(callers[id], lock) ==> lock in owners && owners[lock] == id)
    && (forall lock :: lock in owners ==> owners[lock] in callers && HoldsLock(callers[owners[lock]], lock))
  }

  /** A caller's build lock is its own subject's. */
  predicate LockIsOwn(c: Caller, locks: map<string, LockId>)
  {
    HoldsBuild(c) || c.WantsBuild? ==> c.subject in locks && locks[c.subject] == c.lock
  }

  ghost predicate LocksAreOwn(locks: map<string, LockId>, nextLock: LockId, callers: map<nat, Caller>)
  {
    && (forall k :: k in locks ==> locks[k] < nextLock)
    && (forall j, k :: j in locks && k in locks && locks[j] == locks[k] ==> j == k)
    && (forall id :: id in callers ==> LockIsOwn(callers[id], locks))
  }

  /** A caller that found nothing keeps it so until it stores, for its own subject. */
  predicate BuildsForOwn(c: Caller, cache: map<string, Context>)
  {
    && (c.Builds? || c.WantsStore? || c.Stores? ==> c.subject !in cache)
    && (c.WantsStore? || c.Stores? ==> c.context.builtFor == c.subject)
  }

  ghost predicate ContentsFit(cache: map<string, Context>, callers: map<nat, Caller>)
  {
    && (forall k :: k in cache ==> cache[k].builtFor == k)
    && (forall id :: id in callers ==> BuildsForOwn(callers[id], cache))
  }

  /** Whether a subject is cached, by the log. */
  predicate Standing(log: seq<Event>, subject: string)
  {
    log != [] &&
    match log[|log| - 1]
    case Stored(k) => k == subject || Standing(log[..|log| - 1], subject)
    case Invalidated(k) => k != subject && Standing(log[..|log| - 1], subject)
    case Handed(_, _) => Standing(log[..|log| - 1], subject)
  }

  ghost predicate LogFits(cache: map<string, Context>, log: seq<Event>)
  {
    && (forall k :: Standing(log, k) <==> k in cache)
    && (forall i :: 0 <= i < |log| && log[i].Stored? ==> !Standing(log[..i], log[i].subject))
    && (forall i :: 0 <= i < |log| && log[i].Handed? ==> log[i].context.builtFor == log[i].subject)
  }

  ghost predicate Inv(s: System)
  {
    && CacheLockFits(s.cacheOwner, s.callers) && BuildLocksFit(s.buildOwner, s.callers)
    && LocksAreOwn(s.buildLocks, s.nextLock, s.callers)
    && ContentsFit(s.cache, s.callers) && LogFits(s.cache, s.log)
  }

  // ----- what each move keeps -----

  lemma CacheLockTaken(owner: Option<nat>, callers: map<nat, Caller>, id: nat, c: Caller)
    requires CacheLockFits(owner, callers) && owner.None? && HoldsCache(c)
    ensures CacheLockFits(Some(id), callers[id := c])
  {
  }

  lemma CacheLockGiven(owner: Option<nat>, callers: map<nat, Caller>, id: nat, c: Caller)
    requires CacheLockFits(owner, callers) && id in callers && HoldsCache(callers[id]) && !HoldsCache(c)
    ensures CacheLockFits(None, callers[id := c])
  {
  }

  lemma CacheLockKept(owner: Option<nat>, callers: map<nat, Caller>, id: nat, c: Caller)
    requires CacheLockFits(owner, callers) && (id in callers ==> !HoldsCache(callers[id])) && !HoldsCache(c)
    ensures CacheLockFits(owner, callers[id := c])
  {
  }

  lemma BuildLockTaken(owners: map<LockId, nat>, callers: map<nat, Caller>, id: nat, c: Caller)
    requires BuildLocksFit(owners, callers) && HoldsBuild(c) && c.lock !in owners
    requires id in callers && !HoldsBuild(callers[id])
    ensures BuildLocksFit(owners[c.lock := id], callers[id := c])
  {
  }

  lemma BuildLockGiven(owners: map<LockId, nat>, callers: map<nat, Caller>, id: nat, c: Caller)
    requires BuildLocksFit(owners, callers) && id in callers && HoldsBuild(callers[id]) && !HoldsBuild(c)
    ensures BuildLocksFit(owners - {callers[id].lock}, callers[id := c])
  {
    var lock, next := callers[id].lock, callers[id := c];
    assert HoldsLock(callers[id], lock) && owners[lock] == id;
    forall j, l | j in next && HoldsLock(next[j], l)
      ensures l in owners - {lock} && owners[l] == j
    {
      assert j != id && HoldsLock(callers[j], l);
    }
  }

  lemma BuildLockKept(owners: map<LockId, nat>, callers: map<nat, Caller>, id: nat, c: Caller)
    requires BuildLocksFit(owners, callers)
    requires forall lock :: HoldsLock(c, lock) <==> id in callers && HoldsLock(callers[id], lock)
    ensures BuildLocksFit(owners, callers[id := c])
  {
  }

  /** Only the caller that moves changes. */
  lemma MovedCallers(s: System, id: nat, discovers: bool)
    requires Enabled(s, Move(id, discovers))
    ensures Moved(s, id, discovers).callers == s.callers[id := NextCaller(s, id, discovers)]
  {
    hide Enabled, LockOf;
  }

  /** What a move does to the cache lock, by whether the caller holds it before and after. */
  lemma MovedCacheOwner(s: System, id: nat, discovers: bool)
    requires Enabled(s, Move(id, discovers))
    ensures var c, next, t := s.callers[id], NextCaller(s, id, discovers), Moved(s, id, discovers);
            if HoldsCache(next) then !HoldsCache(c) && s.cacheOwner.None? && t.cacheOwner == Some(id)
            else t.cacheOwner == if HoldsCache(c) then None else s.cacheOwner
  {
  }

  /** A caller with a build lock keeps it or gives it back. */
  lemma HolderMoves(s: System, id: nat, discovers: bool)
    requires Enabled(s, Move(id, discovers)) && HoldsBuild(s.callers[id])
    ensures var c, next, owners := s.callers[id], NextCaller(s, id, discovers), Moved(s, id, discovers).buildOwner;
            if HoldsBuild(next) then next.lock == c.lock && owners == s.buildOwner else owners == s.buildOwner - {c.lock}
  {
  }

  /** A caller without one takes only a free one. */
  lemma OtherMoves(s: System, id: nat, discovers: bool)
    requires Enabled(s, Move(id, discovers)) && !HoldsBuild(s.callers[id])
    ensures var next, owners := NextCaller(s, id, discovers), Moved(s, id, discovers).buildOwner;
            if HoldsBuild(next) then next.lock !in s.buildOwner && owners == s.buildOwner[next.lock := id]
            else owners == s.buildOwner
  {
  }

  lemma MovedCacheLock(s: System, id: nat, discovers: bool)
    requires CacheLockFits(s.cacheOwner, s.callers) && Enabled(s, Move(id, discovers))
    ensures var t := Moved(s, id, discovers); CacheLockFits(t.cacheOwner, t.callers)
  {
    var next := NextCaller(s, id, discovers);
    MovedCallers(s, id, discovers);
    MovedCacheOwner(s, id, discovers);
    if HoldsCache(next) {
      CacheLockTaken(s.cacheOwner, s.callers, id, next);
    } else if HoldsCache(s.callers[id]) {
      CacheLockGiven(s.cacheOwner, s.callers, id, next);
    } else {
      CacheLockKept(s.cacheOwner, s.callers, id, next);
    }
  }

  lemma MovedBuildLock(s: System, id: nat, discovers: bool)
    requires BuildLocksFit(s.buildOwner, s.callers) && Enabled(s, Move(id, discovers))
    ensures var t := Moved(s, id, discovers); BuildLocksFit(t.buildOwner, t.callers)
  {
    var next := NextCaller(s, id, discovers);
    MovedCallers(s, id, discovers);
    if HoldsBuild(s.callers[id]) {
      HolderMoves(s, id, discovers);
      if HoldsBuild(next) {
        BuildLockKept(s.buildOwner, s.callers, id, next);
      } else {
        BuildLockGiven(s.buildOwner, s.callers, id, next);
      }
    } else {
      OtherMoves(s, id, discovers);
      if HoldsBuild(next) {
        BuildLockTaken(s.buildOwner, s.callers, id, next);
      } else {
        BuildLockKept(s.buildOwner, s.callers, id, next);
      }
    }
  }

  lemma TurnIsOwn(locks: map<string, LockId>, nextLock: LockId, callers: map<nat, Caller>, id: nat, c: Caller)
    requires LocksAreOwn(locks, nextLock, callers) && LockIsOwn(c, locks)
    ensures LocksAreOwn(locks, nextLock, callers[id := c])
  {
  }

  /** A new lock is nobody else's, and changes nobody's. */
  lemma NewLockIsOwn(locks: map<string, LockId>, nextLock: LockId, callers: map<nat, Caller>, subject: string)
    requires LocksAreOwn(locks, nextLock, callers) && subject !in locks
    ensures LocksAreOwn(locks[subject := nextLock], nextLock + 1, callers)
  {
    var more := locks[subject := nextLock];
    forall id | id in callers
      ensures LockIsOwn(callers[id], more)
    {
      assert LockIsOwn(callers[id], locks);
    }
  }

  lemma MovedOwn(s: System, id: nat, discovers: bool)
    requires LocksAreOwn(s.buildLocks, s.nextLock, s.callers) && Enabled(s, Move(id, discovers))
    ensures var t := Moved(s, id, discovers); LocksAreOwn(t.buildLocks, t.nextLock, t.callers)
  {
    var c, next := s.callers[id], Moved(s, id, discovers).callers[id];
    assert LockIsOwn(c, s.buildLocks);
    if c.Looks? && c.subject !in s.cache && c.subject !in s.buildLocks {
      NewLockIsOwn(s.buildLocks, s.nextLock, s.callers, c.subject);
      TurnIsOwn(s.buildLocks[c.subject := s.nextLock], s.nextLock + 1, s.callers, id, next);
    } else {
      if c.Looks? && c.subject !in s.cache {
        assert s.buildLocks[c.subject := s.buildLocks[c.subject]] == s.buildLocks;
      }
      TurnIsOwn(s.buildLocks, s.nextLock, s.callers, id, next);
    }
  }

  /** Of callers that hold a subject's build lock, there is only one. */
  lemma OneHolder(s: System, i: nat, j: nat)
    requires BuildLocksFit(s.buildOwner, s.callers) && LocksAreOwn(s.buildLocks, s.nextLock, s.callers)
    requires i in s.callers && j in s.callers && HoldsBuild(s.callers[i]) && HoldsBuild(s.callers[j])
    requires s.callers[i].subject == s.callers[j].subject
    ensures i == j
  {
    assert LockIsOwn(s.callers[i], s.buildLocks) && LockIsOwn(s.callers[j], s.buildLocks);
    var lock := s.callers[i].lock;
    assert HoldsLock(s.callers[i], lock) && HoldsLock(s.callers[j], lock);
    assert s.buildOwner[lock] == i;
  }

  lemma StoreFits(s: System, id: nat)
    requires Inv(s) && id in s.callers && s.callers[id].Stores?
    ensures var c := s.callers[id]; ContentsFit(s.cache[c.subject := c.context], s.callers[id := Gone])
  {
    var c := s.callers[id];
    var cache, callers := s.cache[c.subject := c.context], s.callers[id := Gone];
    assert BuildsForOwn(c, s.cache);
    forall j | j in callers
      ensures BuildsForOwn(callers[j], cache)
    {
      if j != id {
        assert BuildsForOwn(s.callers[j], s.cache);
        if HoldsBuild(s.callers[j]) && s.callers[j].subject == c.subject {
          OneHolder(s, id, j);
        }
      }
    }
  }

  lemma FewerFits(cache: map<string, Context>, callers: map<nat, Caller>, id: nat, c: Caller, subject: string)
    requires ContentsFit(cache, callers) && (c.WantsCache? || c.Gone?)
    ensures ContentsFit(cache - {subject}, callers[id := c])
  {
    forall j | j in callers
      ensures BuildsForOwn(callers[j], cache - {subject})
    {
      assert BuildsForOwn(callers[j], cache);
    }
  }

  lemma TurnFits(cache: map<string, Context>, callers: map<nat, Caller>, id: nat, c: Caller)
    requires ContentsFit(cache, callers) && BuildsForOwn(c, cache)
    ensures ContentsFit(cache, callers[id := c])
  {
  }

  lemma MovedContents(s: System, id: nat, discovers: bool)
    requires Inv(s) && Enabled(s, Move(id, discovers))
    ensures var t := Moved(s, id, discovers); ContentsFit(t.cache, t.callers)
  {
    var c, next := s.callers[id], Moved(s, id, discovers).callers[id];
    assert BuildsForOwn(c, s.cache);
    match c
    case Stores(_, _, _) => StoreFits(s, id);
    case Drops(subject, _) => FewerFits(s.cache, s.callers, id, next, subject);
    case _ => TurnFits(s.cache, s.callers, id, next);
  }

  lemma LogAppend(cache: map<string, Context>, next: map<string, Context>, log: seq<Event>, e: Event)
    requires LogFits(cache, log)
    requires match e
             case Stored(k) => k !in cache && next.Keys == cache.Keys + {k}
             case Invalidated(k) => next.Keys == cache.Keys - {k}
             case Handed(subject, context) => next.Keys == cache.Keys && context.builtFor == subject
    ensures LogFits(next, log + [e])
  {
    var more := log + [e];
    assert more[..|log|] == log;
    forall i | 0 <= i < |more| && more[i].Stored?
      ensures !Standing(more[..i], more[i].subject)
    {
      if i < |log| {
        assert more[..i] == log[..i] && more[i] == log[i];
      }
    }
  }

  lemma MovedLog(s: System, id: nat, discovers: bool)
    requires Inv(s) && Enabled(s, Move(id, discovers))
    ensures var t := Moved(s, id, discovers); LogFits(t.cache, t.log)
  {
    var c, t := s.callers[id], Moved(s, id, discovers);
    assert BuildsForOwn(c, s.cache);
    if (c.Looks? || c.LooksAgain?) && c.subject in s.cache {
      LogAppend(s.cache, s.cache, s.log, Handed(c.subject, s.cache[c.subject]));
    } else if c.Stores? {
      LogAppend(s.cache, t.cache, s.log, Stored(c.subject));
      LogAppend(t.cache, t.cache, s.log + [Stored(c.subject)], Handed(c.subject, c.context));
    } else if c.Drops? {
      LogAppend(s.cache, t.cache, s.log, Invalidated(c.subject));
    }
  }

  lemma CancelKeeps(s: System, id: nat)
    requires Inv(s) && id in s.callers
    ensures Inv(Cancelled(s, id))
  {
    if HoldsCache(s.callers[id]) {
      CacheLockGiven(s.cacheOwner, s.callers, id, Gone);
    } else {
      CacheLockKept(s.cacheOwner, s.callers, id, Gone);
    }
    if HoldsBuild(s.callers[id]) {
      BuildLockGiven(s.buildOwner, s.callers, id, Gone);
    } else {
      BuildLockKept(s.buildOwner, s.callers, id, Gone);
    }
    TurnFits(s.cache, s.callers, id, Gone);
  }

  lemma ArriveKeeps(s: System, id: nat, caller: Caller)
    requires Inv(s) && Enabled(s, Arrive(id, caller))
    ensures Inv(Turn(s, id, caller))
  {
    CacheLockKept(s.cacheOwner, s.callers, id, caller);
    BuildLockKept(s.buildOwner, s.callers, id, caller);
    TurnFits(s.cache, s.callers, id, caller);
  }

  lemma StepKeeps(s: System, step: Step)
    requires Inv(s) && Enabled(s, step)
    ensures Inv(Next(s, step))
  {
    match step
    case Arrive(id, caller) => ArriveKeeps(s, id, caller);
    case Move(id, discovers) =>
      MovedCacheLock(s, id, discovers);
      MovedBuildLock(s, id, discovers);
      MovedOwn(s, id, discovers);
      MovedContents(s, id, discovers);
      MovedLog(s, id, discovers);
    case Cancel(id) => CancelKeeps(s, id);
  }

  lemma {:induction false} RunKeeps(steps: seq<Step>)
    requires After(INITIAL, steps).Some?
    ensures Inv(After(INITIAL, steps).value)
  {
    if steps != [] {
      RunKeeps(steps[..|steps| - 1]);
      StepKeeps(After(INITIAL, steps[..|steps| - 1]).value, steps[|steps| - 1]);
    }
  }

  lemma ReachableInv(s: System)
    requires Reachable(s)
    ensures Inv(s)
  {
    var steps :| After(INITIAL, steps) == Some(s);
    RunKeeps(steps);
  }

  // ----- the promises -----

  /** At most one discovery build is in flight for a subject. */
  lemma OneBuildPerSubject(s: System, i: nat, j: nat)
    requires Reachable(s) && i in s.callers && j in s.callers && s.callers[i].Builds? && s.callers[j].Builds?
    requires s.callers[i].subject == s.callers[j].subject
    ensures i == j
  {
    ReachableInv(s);
    OneHolder(s, i, j);
  }

  /** Every cached and every returned context was built for the subject it is kept for or returned to. */
  lemma OwnContextOnly(s: System, k: string, i: nat)
    requires Reachable(s)
    ensures k in s.cache ==> s.cache[k].builtFor == k
    ensures i < |s.log| && s.log[i].Handed? ==> s.log[i].context.builtFor == s.log[i].subject
  {
    ReachableInv(s);
  }

  /** A caller only ever waits for a build lock that a caller for the same subject holds. */
  lemma SubjectsDoNotBlockEachOther(s: System, i: nat)
    requires Reachable(s) && i in s.callers && s.callers[i].WantsBuild? && s.callers[i].lock in s.buildOwner
    ensures var owner := s.buildOwner[s.callers[i].lock];
            owner in s.callers && !s.callers[owner].Gone? && s.callers[owner].subject == s.callers[i].subject
  {
    ReachableInv(s);
    var owner := s.buildOwner[s.callers[i].lock];
    assert HoldsLock(s.callers[owner], s.callers[i].lock);
    assert LockIsOwn(s.callers[owner], s.buildLocks) && LockIsOwn(s.callers[i], s.buildLocks);
  }

  /** As long as somebody is not done, somebody can move: the nesting of the two locks cannot deadlock. */
  lemma NeverDeadlocks(s: System, id: nat)
    requires Reachable(s) && id in s.callers && !s.callers[id].Gone?
    ensures exists j, discovers :: j in s.callers && !s.callers[j].Gone? && Enabled(s, Move(j, discovers))
  {
    ReachableInv(s);
    var j := id;
    if s.cacheOwner.Some? {
      j := s.cacheOwner.value;
    } else if s.callers[id].WantsBuild? && s.callers[id].lock in s.buildOwner {
      j := s.buildOwner[s.callers[id].lock];
      assert HoldsLock(s.callers[j], s.callers[id].lock);
    }
    assert Enabled(s, Move(j, true));
  }

  /** Between two positions of the log, the subject's context was invalidated. */
  ghost predicate InvalidatedBetween(log: seq<Event>, subject: string, i: nat, j: nat)
  {
    exists k :: i < k < j && k < |log| && log[k] == Invalidated(subject)
  }

  lemma {:induction false} StandsUntilInvalidated(log: seq<Event>, subject: string, i: nat, j: nat)
    requires i < j <= |log| && log[i] == Stored(subject) && !Standing(log[..j], subject)
    ensures InvalidatedBetween(log, subject, i, j)
    decreases j
  {
    assert log[..j][..j - 1] == log[..j - 1] && log[..j][j - 1] == log[j - 1];
    if j - 1 > i && log[j - 1] != Invalidated(subject) {
      StandsUntilInvalidated(log, subject, i, j - 1);
      var k :| i < k < j - 1 && k < |log| && log[k] == Invalidated(subject);
      assert i < k < j;
    }
  }

  /** However many callers race, a subject's context is stored again only after an invalidation. */
  lemma StoredOncePerInvalidation(s: System, i: nat, j: nat)
    requires Reachable(s) && i < j < |s.log| && s.log[i].Stored? && s.log[j] == s.log[i]
    ensures InvalidatedBetween(s.log, s.log[i].subject, i, j)
  {
    ReachableInv(s);
    StandsUntilInvalidated(s.log, s.log[i].subject, i, j);
  }
}
