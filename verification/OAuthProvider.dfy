/**
 * The authorization server as it runs: each method makes its store calls in order, and is proved to be a sequence of
 * steps of the interleaved system, so that every promise about runs covers it.
 */
module OAuthProvider {
  import opened Common
  import opened OAuthStore
  import opened OAuthRuns
  import opened OAuthTheorems
  import opened OAuthRevocation

  datatype TokenError = CodeAlreadyUsed

  /** No refresh in this run loads a token while another one of its chain holds it. */
  ghost predicate Calm(s: System, steps: seq<Step>)
  {
    forall root :: NonOverlapping(s, steps, root)
  }

  /** `u` is reached from `s` by some steps, a calm run of them if `calm` says so. */
  ghost predicate Reaches(s: System, u: System, calm: bool)
  {
    exists steps :: After(s, steps) == Some(u) && (calm ==> Calm(s, steps))
  }

  /** The step loads a refresh token that another request holds. */
  ghost predicate Clashes(s: System, step: Step)
  {
    exists root :: Overlaps(s, step, root)
  }

  lemma ReachesItself(s: System)
    ensures Reaches(s, s, true)
  {
    assert After(s, []) == Some(s) && Calm(s, []);
  }

  lemma ReachesNext(s: System, u: System, step: Step, calm: bool)
    requires Reaches(s, u, calm) && Enabled(u, step) && (calm ==> !Clashes(u, step))
    ensures Reaches(s, Next(u, step), calm)
  {
    var steps :| After(s, steps) == Some(u) && (calm ==> Calm(s, steps));
    var more := steps + [step];
    assert more[..|steps|] == steps;
    assert After(s, more) == Some(Next(u, step));
    if calm {
      forall root
        ensures NonOverlapping(s, more, root)
      {
        assert NonOverlapping(s, steps, root) && !Overlaps(u, step, root);
      }
    }
  }

  lemma CalmBefore(s: System, steps: seq<Step>)
    requires After(s, steps).Some? && Calm(s, steps) && steps != []
    ensures Calm(s, steps[..|steps| - 1])
    ensures !Clashes(After(s, steps[..|steps| - 1]).value, steps[|steps| - 1])
  {
    var before, step := steps[..|steps| - 1], steps[|steps| - 1];
    forall root
      ensures NonOverlapping(s, before, root) && !Overlaps(After(s, before).value, step, root)
    {
      assert NonOverlapping(s, steps, root);
    }
  }

  lemma {:induction false} ReachesOn(s: System, u: System, steps: seq<Step>)
    requires Reaches(s, u, true) && After(u, steps).Some? && Calm(u, steps)
    ensures Reaches(s, After(u, steps).value, true)
  {
    if steps != [] {
      var before, step := steps[..|steps| - 1], steps[|steps| - 1];
      CalmBefore(u, steps);
      ReachesOn(s, u, before);
      ReachesNext(s, After(u, before).value, step, true);
    }
  }

  /** The state of a calm run from the start. */
  ghost predicate Orderly(s: System)
  {
    exists users, now :: Reaches(Initial(users, now), s, true)
  }

  lemma OrderlyOn(s: System, u: System)
    requires Reaches(s, u, true)
    ensures Orderly(s) ==> Orderly(u)
  {
    if Orderly(s) {
      var users, now :| Reaches(Initial(users, now), s, true);
      var steps :| After(s, steps) == Some(u) && Calm(s, steps);
      ReachesOn(Initial(users, now), s, steps);
    }
  }

  /** No chain has two unused refresh tokens. */
  ghost predicate SingleEnds(s: System)
  {
    forall root, q, r ::
      BelongsTo(s, q, root) && s.tables.refresh[q].consumedAt.None? && BelongsTo(s, r, root) && s.tables.refresh[r].consumedAt.None?
      ==> q == r
  }

  lemma OrderlyHasSingleEnds(s: System)
    requires Orderly(s)
    ensures SingleEnds(s)
  {
    var users, now :| Reaches(Initial(users, now), s, true);
    var steps :| After(Initial(users, now), steps) == Some(s) && Calm(Initial(users, now), steps);
    forall root, q, r |
      BelongsTo(s, q, root) && s.tables.refresh[q].consumedAt.None? && BelongsTo(s, r, root) && s.tables.refresh[r].consumedAt.None?
      ensures q == r
    {
      OneUnusedTokenPerChain(users, now, steps, s, root, q, r);
    }
  }

  /** No request is between loading and marking a refresh token. */
  ghost predicate Quiet(s: System)
  {
    forall id :: id in s.requests ==> !s.requests[id].Marking?
  }

  /** The requests in flight in `s` are untouched in `u`, and no new one holds a refresh token. */
  ghost predicate Apart(s: System, u: System)
  {
    && (forall id :: id in s.requests ==> id in u.requests && u.requests[id] == s.requests[id])
    && (forall id :: id in u.requests && u.requests[id].Marking? ==> id in s.requests)
  }

  /** A client that waits for each of its refreshes to end. */
  ghost predicate Sequential(s: System)
  {
    Orderly(s) && Quiet(s)
  }

  lemma StaysSequential(s: System, u: System)
    requires Reaches(s, u, true) && Apart(s, u)
    ensures Sequential(s) ==> Sequential(u)
  {
    OrderlyOn(s, u);
  }

  /** A pair whose refresh row is being written has been handed out after that. */
  lemma StoredIsDelivered(s: System, id: nat, at: int, asked: seq<string>)
    requires Reachable(s) && Enabled(s, Act(id, at, asked)) && s.requests[id].Storing?
    ensures var m, u := s.requests[id].mint, Acted(s, id, at, asked);
            Delivered(u, m.access) && Delivered(u, m.refresh) && m.access < u.drawn && m.refresh < u.drawn
  {
    ReachableSound(s);
    var m, u := s.requests[id].mint, Acted(s, id, at, asked);
    assert Informed(s, s.requests[id]);
    forall i | i in u.requests && u.requests[i].Storing?
      ensures u.requests[i].mint.access != m.access && u.requests[i].mint.refresh != m.refresh
      ensures u.requests[i].mint.access != m.refresh && u.requests[i].mint.refresh != m.access
    {
      assert i != id && Informed(s, s.requests[i]);
    }
  }

  /** The row a client may refresh with: its own, neither expired nor consumed. */
  function Usable(t: Tables, client: string, token: Secret, now: int): Option<Refresh>
  {
    var found := GetRefresh(t, token, now);
    if found.Some? && found.value.client == client && found.value.consumedAt.None? then found else None
  }

  /** What presenting a refresh token leaves of the tables: an expired row goes, a reused token wipes its subject. */
  function AfterLoad(t: Tables, client: string, token: Secret, now: int): Tables
  {
    var found := GetRefresh(t, token, now);
    if found.None? then ReadRefresh(t, token, now)
    else if found.value.client == client && found.value.consumedAt.Some? then RevokeAll(t, found.value.subject)
    else t
  }

  /** A secret that has been handed out stays so. */
  lemma {:induction false} StaysDelivered(s: System, steps: seq<Step>, token: Secret)
    requires Sound(s) && After(s, steps).Some? && token < s.drawn && Delivered(s, token)
    ensures Sound(After(s, steps).value) && token < After(s, steps).value.drawn && Delivered(After(s, steps).value, token)
  {
    if steps != [] {
      var before := steps[..|steps| - 1];
      StaysDelivered(s, before, token);
      StepKeeps(After(s, before).value, steps[|steps| - 1]);
      DeliveredStays(After(s, before).value, steps[|steps| - 1], token);
    }
  }

  lemma DeliveredOn(s: System, u: System, calm: bool, token: Secret)
    requires Reachable(s) && Reaches(s, u, calm) && token < s.drawn && Delivered(s, token)
    ensures token < u.drawn && Delivered(u, token)
  {
    ReachableSound(s);
    var steps :| After(s, steps) == Some(u) && (calm ==> Calm(s, steps));
    StaysDelivered(s, steps, token);
  }

  lemma MintRows(s: System, r: Request, at: int)
    requires r.Minting?
    ensures var m := NewMint(s, r, at);
            && m.access == s.drawn && m.refresh == s.drawn + 1
            && AccessRow(m) == Access(r.client, r.subject, r.resource, r.scopes, at + ACCESS_TTL, s.drawn + 1)
            && RefreshRow(m) == Refresh(r.client, r.subject, r.scopes, at + REFRESH_TTL, s.drawn, None)
  {
  }

  lemma HeldStays(s: System, now: int, id: nat, r: Request, token: Secret)
    requires id !in s.requests && !r.Marking?
    ensures Held(s.(now := now, requests := s.requests[id := r]), token) <==> Held(s, token)
  {
    var u := s.(now := now, requests := s.requests[id := r]);
    assert forall i :: i in s.requests ==> u.requests[i] == s.requests[i];
  }

  class Provider {
    const users: map<string, string>
    const store: Store
    var nextSecret: Secret           // the source of unused secrets
    ghost var world: System
    ghost var nextId: nat

    /** The store holds the tables of a state that some run reaches. */
    ghost predicate Valid()
      reads this, store
    {
      && world.tables == store.Contents() && world.drawn == nextSecret && world.users == users
      && Reachable(world) && forall id :: id in world.requests ==> id < nextId
    }

    constructor (users: map<string, string>, now: int)
      ensures Valid() && fresh(store) && this.users == users
      ensures world == Initial(users, now) && Sequential(world)
    {
      this.users := users;
      store := new Store();
      nextSecret := 0;
      world := Initial(users, now);
      nextId := 0;
      new;
      ReachesItself(world);
      assert After(Initial(users, now), []) == Some(world);
    }

    /** One step of the system, which the store has just made. */
    ghost method Note(start: System, step: Step, calm: bool)
      requires Enabled(world, step) && Reaches(start, world, calm) && Reachable(world) && (calm ==> !Clashes(world, step))
      modifies this`world
      ensures world == Next(old(world), step) && Reaches(start, world, calm) && Reachable(world)
    {
      ReachesNext(start, world, step, calm);
      ReachableNext(world, step);
      world := Next(world, step);
    }

    /** The clock has moved since the last operation. */
    ghost method Reading(start: System, now: int, calm: bool)
      requires Valid() && now >= world.now && Reaches(start, world, calm)
      modifies this`world
      ensures Valid() && world == old(world).(now := now) && Reaches(start, world, calm)
    {
      Note(start, Tick(now - world.now), calm);
    }

    /** The step in which the callback's code was stored. */
    ghost method NoteCode(start: System, id: nat, state: Secret, login: Pending, username: string, password: string, now: int)
      requires Reaches(start, world, true) && Reachable(world) && now == world.now
      requires id in world.requests && world.requests[id] == Coding(state, login, username, password)
      modifies this`world
      ensures Reaches(start, world, true) && Reachable(world)
      ensures world.now == now && world.users == old(world).users
      ensures world.drawn == old(world).drawn + 1 && world.requests == old(world).requests[id := Clearing(state)]
      ensures world.tables.codes == old(world).tables.codes[old(world).drawn := Code(login.client, username, login.terms, now + CODE_TTL)]
      ensures world.tables == old(world).tables.(codes := world.tables.codes)
    {
      Note(start, Act(id, now, []), true);
    }

    /** The step in which a pair was drawn and its access row stored. */
    ghost method NoteMint(start: System, id: nat, now: int) returns (mint: Mint)
      requires Reaches(start, world, true) && Reachable(world) && now == world.now
      requires id in world.requests && world.requests[id].Minting?
      modifies this`world
      ensures Reaches(start, world, true) && Reachable(world)
      ensures world.now == now && world.users == old(world).users && world.drawn == old(world).drawn + 2
      ensures world.requests == old(world).requests[id := Storing(mint)]
      ensures mint == NewMint(old(world), old(world).requests[id], now)
      ensures world.tables == old(world).tables.(access := old(world).tables.access[mint.access := AccessRow(mint)])
    {
      mint := NewMint(world, world.requests[id], now);
      Note(start, Act(id, now, []), true);
    }

    /** A new request arrives. */
    ghost method Arrive(start: System, r: Request, calm: bool) returns (id: nat)
      requires Starts(r) && Presents(world, r) && Reaches(start, world, calm) && Reachable(world)
      requires forall i :: i in world.requests ==> i < nextId
      modifies this`world, this`nextId
      ensures world == old(world).(requests := old(world).requests[id := r]) && id !in old(world).requests
      ensures Reaches(start, world, calm) && Reachable(world) && forall i :: i in world.requests ==> i < nextId
    {
      id := nextId;
      Note(start, Begin(id, r), calm);
      nextId := nextId + 1;
    }

    /** A new request arrives, some time after the last operation. */
    ghost method ArriveAt(start: System, r: Request, now: int, calm: bool) returns (id: nat)
      requires Valid() && now >= world.now && Starts(r) && Presents(world, r) && Reaches(start, world, calm)
      modifies this`world, this`nextId
      ensures Valid() && Reaches(start, world, calm) && id !in old(world).requests
      ensures world == old(world).(now := now, requests := old(world).requests[id := r])
    {
      Reading(start, now, calm);
      id := Arrive(start, r, calm);
    }

    ghost method ArriveToRefresh(client: string, token: Secret, now: int) returns (id: nat)
      requires Valid() && now >= world.now && token < nextSecret && Delivered(world, token)
      modifies this`world, this`nextId
      ensures Valid() && Reaches(old(world), world, !Held(old(world), token)) && id !in old(world).requests
      ensures world == old(world).(now := now, requests := old(world).requests[id := LoadingRefresh(client, token)])
      ensures Held(world, token) <==> Held(old(world), token)
    {
      ghost var start := world;
      ReachesItself(start);
      id := ArriveAt(start, LoadingRefresh(client, token), now, !Held(start, token));
      HeldStays(start, now, id, LoadingRefresh(client, token), token);
    }

    // ----- one store call each, as the step it is -----

    method FindLogin(state: Secret, username: string, password: string, now: int, ghost start: System, ghost id: nat)
        returns (login: Option<Pending>)
      requires Valid() && now == world.now && Reaches(start, world, true)
      requires id in world.requests && world.requests[id] == Logging(state, username, password)
      modifies this`world, store
      ensures Valid() && Reaches(start, world, true) && login == GetPending(old(world).tables, state, now)
      ensures world == Go(old(world), id,
                          if login.Some? && SignedIn(users, username, password)
                          then Coding(state, login.value, username, password) else Over,
                          ReadPending(old(world).tables, state, now))
    {
      login := store.GetPendingAuthorization(state, now);
      Note(start, Act(id, now, []), true);
    }

    method SaveCode(state: Secret, login: Pending, username: string, password: string, now: int, ghost start: System, ghost id: nat)
        returns (code: Secret)
      requires Valid() && now == world.now && Reaches(start, world, true)
      requires id in world.requests && world.requests[id] == Coding(state, login, username, password)
      modifies this, store
      ensures Valid() && Reaches(start, world, true) && code == old(nextSecret) && world.now == now
      ensures world.requests == old(world).requests[id := Clearing(state)]
      ensures store.Contents() == old(store.Contents()).(
                codes := old(store.codes)[code := Code(login.client, username, login.terms, now + CODE_TTL)])
    {
      SecretsAreUnused(world);
      code := nextSecret;
      nextSecret := nextSecret + 1;
      store.PutCode(code, Code(login.client, username, login.terms, now + CODE_TTL));
      NoteCode(start, id, state, login, username, password, now);
    }

    method ClearLogin(state: Secret, now: int, ghost start: System, ghost id: nat)
      requires Valid() && now == world.now && Reaches(start, world, true)
      requires id in world.requests && world.requests[id] == Clearing(state)
      modifies this`world, store
      ensures Valid() && Reaches(start, world, true) && world.now == now
      ensures world.requests == old(world).requests[id := Over]
      ensures store.Contents() == old(store.Contents()).(pending := old(store.pending) - {state})
    {
      store.DeletePending(state);
      Note(start, Act(id, now, []), true);
    }

    method SaveAccess(client: string, subject: string, scopes: seq<string>, resource: Option<string>, now: int,
                      ghost start: System, ghost id: nat) returns (pair: (Secret, Secret), ghost mint: Mint)
      requires Valid() && now == world.now && Reaches(start, world, true) && id in world.requests && world.requests[id].Minting?
      requires var r := world.requests[id]; r.client == client && r.subject == subject && r.scopes == scopes && r.resource == resource
      modifies this, store
      ensures Valid() && Reaches(start, world, true) && world.now == now && pair.1 !in store.refresh && pair.1 > old(nextSecret)
      ensures pair.0 !in old(store.access) && nextId == old(nextId)
      ensures store.Contents() == old(store.Contents()).(
                access := old(store.access)[pair.0 := Access(client, subject, resource, scopes, now + ACCESS_TTL, pair.1)])
      ensures world.requests == old(world).requests[id := Storing(mint)] && mint.access == pair.0 && mint.refresh == pair.1
      ensures RefreshRow(mint) == Refresh(client, subject, scopes, now + REFRESH_TTL, pair.0, None)
    {
      hide Reaches, Reachable;
      SecretsAreUnused(world);
      pair := (nextSecret, nextSecret + 1);
      nextSecret := nextSecret + 2;
      store.PutAccess(pair.0, Access(client, subject, resource, scopes, now + ACCESS_TTL, pair.1));
      MintRows(world, world.requests[id], now);
      mint := NoteMint(start, id, now);
    }

    method SaveRefresh(token: Secret, row: Refresh, now: int, ghost start: System, ghost id: nat)
      requires Valid() && now == world.now && Reaches(start, world, true) && id in world.requests && world.requests[id].Storing?
      requires token == world.requests[id].mint.refresh && row == RefreshRow(world.requests[id].mint) && token !in store.refresh
      modifies this`world, store
      ensures Valid() && Reaches(start, world, true) && world.now == now
      ensures store.Contents() == old(store.Contents()).(refresh := old(store.refresh)[token := row])
      ensures world.requests == old(world).requests[id := Over]
      ensures var m := old(world).requests[id].mint;
              Delivered(world, m.access) && Delivered(world, m.refresh) && m.access < nextSecret && m.refresh < nextSecret
    {
      StoredIsDelivered(world, id, now, []);
      store.PutRefresh(token, row);
      Note(start, Act(id, now, []), true);
    }

    method FindRefresh(client: string, token: Secret, now: int, ghost start: System, ghost id: nat, ghost calm: bool)
        returns (row: Option<Refresh>)
      requires Valid() && now == world.now && Reaches(start, world, calm) && (calm ==> !Held(world, token))
      requires id in world.requests && world.requests[id] == LoadingRefresh(client, token)
      modifies this`world, store
      ensures Valid() && Reaches(start, world, calm) && row == GetRefresh(old(world).tables, token, now) && world.now == now
      ensures store.Contents() == ReadRefresh(old(world).tables, token, now)
      ensures world.requests == old(world).requests[id :=
                if row.None? || row.value.client != client then Over
                else if row.value.consumedAt.Some? then Punishing(row.value.subject)
                else Marking(token, row.value)]
    {
      row := store.GetRefreshToken(token, now);
      Note(start, Act(id, now, []), calm);
    }

    method Punish(subject: string, now: int, ghost start: System, ghost id: nat, ghost calm: bool)
      requires Valid() && now == world.now && Reaches(start, world, calm)
      requires id in world.requests && world.requests[id] == Punishing(subject)
      modifies this`world, store
      ensures Valid() && Reaches(start, world, calm) && world.now == now
      ensures world.requests == old(world).requests[id := Over]
      ensures store.Contents() == RevokeAll(old(store.Contents()), subject)
    {
      store.RevokeAllForSubject(subject);
      Note(start, Act(id, now, []), calm);
    }

    method Mark(token: Secret, row: Refresh, asked: seq<string>, now: int, ghost start: System, ghost id: nat)
      requires Valid() && now == world.now && Reaches(start, world, true)
      requires id in world.requests && world.requests[id] == Marking(token, row)
      modifies this`world, store
      ensures Valid() && Reaches(start, world, true) && world.now == now && token < nextSecret
      ensures store.Contents() == Consume(old(store.Contents()), token, now)
      ensures id in world.requests && world.requests == old(world).requests[id := world.requests[id]] && world.requests[id].Minting?
      ensures var q := world.requests[id];
              && q.client == row.client && q.subject == row.subject && q.resource == None
              && q.scopes == if asked == [] then row.scopes else asked
    {
      HolderKnows(world, id);
      store.MarkConsumed(token, now);
      Note(start, Act(id, now, asked), true);
    }

    method FindPartner(token: Secret, now: int, ghost start: System, ghost id: nat) returns (partner: Option<Secret>)
      requires Valid() && now == world.now && Reaches(start, world, true)
      requires id in world.requests && world.requests[id] == FindingRefresh(token)
      modifies this`world, store
      ensures Valid() && Reaches(start, world, true) && world.now == now
      ensures var row := GetRefresh(old(world).tables, token, now);
              partner == if row.Some? then Some(row.value.paired) else None
      ensures store.Contents() == ReadRefresh(old(world).tables, token, now)
      ensures world.requests == old(world).requests[id := Unpairing(partner, Some(token))]
    {
      var row := store.GetRefreshToken(token, now);
      partner := if row.Some? then Some(row.value.paired) else None;
      Note(start, Act(id, now, []), true);
    }

    method FindRefreshOf(token: Secret, now: int, ghost start: System, ghost id: nat) returns (partner: Option<Secret>)
      requires Valid() && now == world.now && Reaches(start, world, true)
      requires id in world.requests && world.requests[id] == FindingAccess(token)
      modifies this`world, store
      ensures Valid() && Reaches(start, world, true) && world.now == now
      ensures var row := GetAccess(old(world).tables, token, now);
              partner == if row.Some? then Some(row.value.paired) else None
      ensures store.Contents() == ReadAccess(old(world).tables, token, now)
      ensures world.requests == old(world).requests[id := Unpairing(Some(token), partner)]
    {
      var row := store.GetAccessToken(token, now);
      partner := if row.Some? then Some(row.value.paired) else None;
      Note(start, Act(id, now, []), true);
    }

    method Unpair(accessToken: Option<Secret>, refreshToken: Option<Secret>, now: int, ghost start: System, ghost id: nat)
      requires Valid() && now == world.now && Reaches(start, world, true)
      requires id in world.requests && world.requests[id] == Unpairing(accessToken, refreshToken)
      modifies this`world, store
      ensures Valid() && Reaches(start, world, true) && world.now == now
      ensures world.requests == old(world).requests[id := Over]
      ensures store.Contents() == RevokePair(old(store.Contents()), accessToken, refreshToken)
    {
      store.RevokeTokenPair(accessToken, refreshToken);
      Note(start, Act(id, now, []), true);
    }

    // ----- the provider's operations -----

    method Authorize(client: string, terms: Terms, clientState: Option<string>, now: int) returns (state: Secret)
      requires Valid() && now >= world.now
      modifies this, store
      ensures Valid() && world.now == now && Reaches(old(world), world, true) && Apart(old(world), world)
      ensures state == old(nextSecret)
      ensures store.Contents() == old(store.Contents()).(
                pending := old(store.pending)[state := Pending(client, terms, clientState, now + 10 * 60)])
      ensures Sequential(old(world)) ==> Sequential(world)
    {
      hide Reaches, Reachable;
      ghost var start := world;
      ReachesItself(start);
      Reading(start, now, true);
      SecretsAreUnused(world);
      state := nextSecret;
      nextSecret := nextSecret + 1;
      store.PutPending(state, Pending(client, terms, clientState, now + LOGIN_TTL));
      Note(start, Step.Authorize(client, terms, clientState), true);
      StaysSequential(start, world);
    }

    /** The store effects of the login callback: a code for a checked password, and the pending login deleted. */
    method HandleLoginCallback(state: Secret, username: string, password: string, now: int) returns (code: Option<Secret>)
      requires Valid() && now >= world.now
      modifies this, store
      ensures Valid() && world.now == now && Reaches(old(world), world, true) && Apart(old(world), world)
      ensures code.Some? <==>
                && state in old(store.pending) && now <= old(store.pending)[state].expiresAt
                && username in users && users[username] == password
      ensures code.Some? ==>
                && code.value == old(nextSecret) && store.pending == old(store.pending) - {state}
                && store.codes == old(store.codes)[code.value := Code(old(store.pending)[state].client, username,
                                                                      old(store.pending)[state].terms, now + 5 * 60)]
      ensures code.None? ==> store.codes == old(store.codes)
      ensures code.None? ==> store.pending == if state in old(store.pending) && now > old(store.pending)[state].expiresAt
                                              then old(store.pending) - {state} else old(store.pending)
      ensures store.access == old(store.access) && store.refresh == old(store.refresh)
      ensures Sequential(old(world)) ==> Sequential(world)
    {
      hide Reaches, Reachable;
      ghost var start := world;
      ReachesItself(start);
      ghost var id := ArriveAt(start, Logging(state, username, password), now, true);
      var login := FindLogin(state, username, password, now, start, id);
      if login.None? || !SignedIn(users, username, password) {
        StaysSequential(start, world);
        return None;
      }
      var saved := GrantCode(state, login.value, username, password, now, start, id);
      StaysSequential(start, world);
      return Some(saved);
    }

    /** The code is stored first, then the pending login is deleted. */
    method GrantCode(state: Secret, login: Pending, username: string, password: string, now: int, ghost start: System, ghost id: nat)
        returns (code: Secret)
      requires Valid() && now == world.now && Reaches(start, world, true)
      requires id in world.requests && world.requests[id] == Coding(state, login, username, password)
      modifies this, store
      ensures Valid() && Reaches(start, world, true) && code == old(nextSecret) && world.now == now
      ensures world.requests == old(world).requests[id := Over]
      ensures store.Contents() == old(store.Contents()).(
                codes := old(store.codes)[code := Code(login.client, username, login.terms, now + CODE_TTL)],
                pending := old(store.pending) - {state})
    {
      code := SaveCode(state, login, username, password, now, start, id);
      ClearLogin(state, now, start, id);
    }

    /** `load_authorization_code`; the request stays in flight, holding the row. */
    method LoadAuthorizationCode(client: string, code: Secret, now: int) returns (row: Option<Code>, ghost id: nat)
      requires Valid() && now >= world.now
      modifies this, store
      ensures Valid() && world.now == now && Reaches(old(world), world, true) && Apart(old(world), world)
      ensures row == if code in old(store.codes) && now <= old(store.codes)[code].expiresAt && old(store.codes)[code].client == client
                     then Some(old(store.codes)[code]) else None
      ensures store.Contents() == ReadCode(old(world).tables, code, now)
      ensures id !in old(world).requests && id in world.requests && (row.Some? ==> world.requests[id] == Consuming(code, row.value))
      ensures Sequential(old(world)) ==> Sequential(world)
    {
      hide Reaches, Reachable;
      ghost var start := world;
      ReachesItself(start);
      id := ArriveAt(start, LoadingCode(client, code), now, true);
      row := store.GetAuthorizationCode(code, now);
      Note(start, Act(id, now, []), true);
      if row.Some? && row.value.client != client {
        row := None;
      }
      StaysSequential(start, world);
    }

    /** `exchange_authorization_code`: only the caller whose delete found the row is given a pair. */
    method ExchangeAuthorizationCode(code: Secret, row: Code, now: int, ghost id: nat) returns (pair: Result<(Secret, Secret), TokenError>)
      requires Valid() && now >= world.now && id in world.requests && world.requests[id] == Consuming(code, row)
      modifies this, store
      ensures Valid() && world.now == now && Reaches(old(world), world, true)
      ensures world.requests == old(world).requests[id := Over]
      ensures store.codes == old(store.codes) - {code}
      ensures pair.Ok? <==> code in old(store.codes)
      ensures pair.Ok? ==>
                && PairStored(pair.value, row.client, row.subject, row.terms.scopes, now)
                && store.access == old(store.access)[pair.value.0 :=
                     Access(row.client, row.subject, row.terms.resource, row.terms.scopes, now + 60 * 60, pair.value.1)]
                && store.refresh == old(store.refresh)[pair.value.1 :=
                     Refresh(row.client, row.subject, row.terms.scopes, now + 30 * 24 * 60 * 60, pair.value.0, None)]
      ensures pair.Err? ==> pair == Err(CodeAlreadyUsed) && store.access == old(store.access) && store.refresh == old(store.refresh)
      ensures Sequential(old(world)) ==> Sequential(world)
    {
      hide Reaches, Reachable;
      ghost var start := world;
      ReachesItself(start);
      Reading(start, now, true);
      var consumed := store.DeleteCode(code);
      Note(start, Act(id, now, []), true);
      if !consumed {
        OrderlyOn(start, world);
        return Err(CodeAlreadyUsed);
      }
      var issued := IssueTokenPair(row.client, row.subject, row.terms.scopes, row.terms.resource, now, start, id);
      OrderlyOn(start, world);
      return Ok(issued);
    }

    /** Both rows are there, name each other and expire after their lifetimes; the refresh token is unused. */
    ghost predicate PairStored(pair: (Secret, Secret), client: string, subject: string, scopes: seq<string>, now: int)
      reads this, store
    {
      && pair.0 in store.access && pair.1 in store.refresh
      && store.access[pair.0].paired == pair.1
      && store.access[pair.0].client == client && store.access[pair.0].subject == subject && store.access[pair.0].scopes == scopes
      && store.access[pair.0].expiresAt == now + 60 * 60
      && store.refresh[pair.1] == Refresh(client, subject, scopes, now + 30 * 24 * 60 * 60, pair.0, None)
      && pair.0 < nextSecret && pair.1 < nextSecret && Delivered(world, pair.0) && Delivered(world, pair.1)
    }

    /** `_issue_token_pair`: the access row first, then the refresh row. */
    method IssueTokenPair(client: string, subject: string, scopes: seq<string>, resource: Option<string>, now: int,
                          ghost start: System, ghost id: nat) returns (pair: (Secret, Secret))
      requires Valid() && now >= world.now && Reaches(start, world, true) && id in world.requests && world.requests[id].Minting?
      requires var r := world.requests[id]; r.client == client && r.subject == subject && r.scopes == scopes && r.resource == resource
      modifies this, store
      ensures Valid() && world.now == now && Reaches(start, world, true) && PairStored(pair, client, subject, scopes, now)
      ensures world.requests == old(world).requests[id := Over]
      ensures pair.0 !in old(store.access) && pair.1 !in old(store.refresh) && pair.1 > old(nextSecret)
      ensures store.codes == old(store.codes) && store.pending == old(store.pending)
      ensures store.access == old(store.access)[pair.0 := Access(client, subject, resource, scopes, now + ACCESS_TTL, pair.1)]
      ensures store.refresh == old(store.refresh)[pair.1 := Refresh(client, subject, scopes, now + REFRESH_TTL, pair.0, None)]
    {
      hide Reaches, Reachable;
      Reading(start, now, true);
      ghost var mint: Mint;
      pair, mint := SaveAccess(client, subject, scopes, resource, now, start, id);
      SaveRefresh(pair.1, Refresh(client, subject, scopes, now + REFRESH_TTL, pair.0, None), now, start, id);
    }

    /** `load_refresh_token`: a consumed token is taken for theft, and everything of its subject is revoked. */
    method LoadRefreshToken(client: string, token: Secret, now: int) returns (row: Option<Refresh>, ghost id: nat)
      requires Valid() && now >= world.now && token < nextSecret && Delivered(world, token)
      modifies this, store
      ensures Valid() && world.now == now && Reaches(old(world), world, !Held(old(world), token))
      ensures row == Usable(old(world).tables, client, token, now)
      ensures row == if token in old(store.refresh) && now <= old(store.refresh)[token].expiresAt
                        && old(store.refresh)[token].client == client && old(store.refresh)[token].consumedAt.None?
                     then Some(old(store.refresh)[token]) else None
      ensures store.Contents() == AfterLoad(old(world).tables, client, token, now)
      ensures if token in old(store.refresh) && now > old(store.refresh)[token].expiresAt then
                store.access == old(store.access) && store.refresh == old(store.refresh) - {token}
              else if token in old(store.refresh) && old(store.refresh)[token].client == client && old(store.refresh)[token].consumedAt.Some? then
                var subject := old(store.refresh)[token].subject;
                && store.access == (map k | k in old(store.access) && old(store.access)[k].subject != subject :: old(store.access)[k])
                && store.refresh == (map k | k in old(store.refresh) && old(store.refresh)[k].subject != subject :: old(store.refresh)[k])
              else store.access == old(store.access) && store.refresh == old(store.refresh)
      ensures id !in old(world).requests
      ensures world.requests == old(world).requests[id := if row.Some? then Marking(token, row.value) else Over]
    {
      hide Reaches, Reachable;
      ghost var start, calm := world, !Held(world, token);
      id := ArriveToRefresh(client, token, now);
      row := JudgeRefresh(client, token, now, start, id, calm);
      assert world.requests == start.requests[id := world.requests[id]];
    }

    method JudgeRefresh(client: string, token: Secret, now: int, ghost start: System, ghost id: nat, ghost calm: bool)
        returns (row: Option<Refresh>)
      requires Valid() && now == world.now && Reaches(start, world, calm) && (calm ==> !Held(world, token))
      requires id in world.requests && world.requests[id] == LoadingRefresh(client, token)
      modifies this`world, store
      ensures Valid() && world.now == now && Reaches(start, world, calm)
      ensures row == Usable(old(world).tables, client, token, now)
      ensures store.Contents() == AfterLoad(old(world).tables, client, token, now)
      ensures world.requests == old(world).requests[id := if row.Some? then Marking(token, row.value) else Over]
    {
      hide Reaches, Reachable;
      row := FindRefresh(client, token, now, start, id, calm);
      if row.None? || row.value.client != client {
        return None;
      }
      if row.value.consumedAt.Some? {
        Punish(row.value.subject, now, start, id, calm);
        return None;
      }
    }

    /** `exchange_refresh_token`: the presented token is marked, and a new pair issued. */
    method ExchangeRefreshToken(token: Secret, row: Refresh, asked: seq<string>, now: int, ghost id: nat) returns (pair: (Secret, Secret))
      requires Valid() && now >= world.now && id in world.requests && world.requests[id] == Marking(token, row)
      modifies this, store
      ensures Valid() && world.now == now && Reaches(old(world), world, true)
      ensures world.requests == old(world).requests[id := Over]
      ensures PairStored(pair, row.client, row.subject, if asked == [] then row.scopes else asked, now)
      ensures pair.1 !in old(store.refresh) && pair.0 !in old(store.access)
      ensures store.refresh == Consume(old(store.Contents()), token, now).refresh[pair.1 := store.refresh[pair.1]]
      ensures token in old(store.refresh) ==> store.refresh[token] == old(store.refresh)[token].(consumedAt := Some(now))
      ensures store.access == old(store.access)[pair.0 :=
                Access(row.client, row.subject, None, if asked == [] then row.scopes else asked, now + 60 * 60, pair.1)]
      ensures Orderly(old(world)) ==> Orderly(world)
    {
      hide Reaches, Reachable;
      ghost var start := world;
      ReachesItself(start);
      Reading(start, now, true);
      Mark(token, row, asked, now, start, id);
      pair := IssueTokenPair(row.client, row.subject, if asked == [] then row.scopes else asked, None, now, start, id);
      OrderlyOn(start, world);
    }

    /** `load_access_token`. */
    method LoadAccessToken(token: Secret, now: int) returns (row: Option<Access>)
      requires Valid() && now >= world.now
      modifies this, store
      ensures Valid() && world.now == now && Reaches(old(world), world, true) && Apart(old(world), world)
      ensures row == if token in old(store.access) && now <= old(store.access)[token].expiresAt then Some(old(store.access)[token]) else None
      ensures store.Contents() == ReadAccess(old(world).tables, token, now)
      ensures Sequential(old(world)) ==> Sequential(world)
    {
      hide Reaches, Reachable;
      ghost var start := world;
      ReachesItself(start);
      Reading(start, now, true);
      row := store.GetAccessToken(token, now);
      Note(start, UseAccess(token), true);
      StaysSequential(start, world);
    }

    /** `revoke_token` for a refresh token: look its partner up, then delete both. */
    method RevokeRefreshToken(token: Secret, now: int)
      requires Valid() && now >= world.now && token < nextSecret && Delivered(world, token)
      modifies this, store
      ensures Valid() && world.now == now && Reaches(old(world), world, true) && Apart(old(world), world)
      ensures token !in store.refresh && store.refresh == old(store.refresh) - {token}
      ensures store.access == old(store.access) - if token in old(store.refresh) && now <= old(store.refresh)[token].expiresAt
                                                  then {old(store.refresh)[token].paired} else {}
      ensures store.pending == old(store.pending) && store.codes == old(store.codes)
      ensures token in old(store.refresh) && now <= old(store.refresh)[token].expiresAt ==> old(store.refresh)[token].paired !in store.access
      ensures Sequential(old(world)) ==> Sequential(world)
    {
      hide Reaches, Reachable;
      ghost var start := world;
      ReachesItself(start);
      ghost var id := ArriveAt(start, FindingRefresh(token), now, true);
      var partner := FindPartner(token, now, start, id);
      Unpair(partner, Some(token), now, start, id);
      StaysSequential(start, world);
    }

    /** `revoke_token` for an access token. */
    method RevokeAccessToken(token: Secret, now: int)
      requires Valid() && now >= world.now && token < nextSecret && Delivered(world, token)
      modifies this, store
      ensures Valid() && world.now == now && Reaches(old(world), world, true) && Apart(old(world), world)
      ensures token !in store.access && store.access == old(store.access) - {token}
      ensures store.refresh == old(store.refresh) - if token in old(store.access) && now <= old(store.access)[token].expiresAt
                                                    then {old(store.access)[token].paired} else {}
      ensures store.pending == old(store.pending) && store.codes == old(store.codes)
      ensures token in old(store.access) && now <= old(store.access)[token].expiresAt ==> old(store.access)[token].paired !in store.refresh
      ensures Sequential(old(world)) ==> Sequential(world)
    {
      hide Reaches, Reachable;
      ghost var start := world;
      ReachesItself(start);
      ghost var id := ArriveAt(start, FindingAccess(token), now, true);
      var partner := FindRefreshOf(token, now, start, id);
      Unpair(Some(token), partner, now, start, id);
      StaysSequential(start, world);
    }

    /** The startup purge of the store. */
    method PurgeExpired(now: int)
      requires Valid() && now >= world.now
      modifies this, store
      ensures Valid() && world.now == now && Reaches(old(world), world, true) && Apart(old(world), world)
      ensures store.Contents() == Purge(old(store.Contents()), now)
      ensures Sequential(old(world)) ==> Sequential(world)
    {
      ghost var start := world;
      ReachesItself(start);
      Reading(start, now, true);
      store.PurgeExpired(now);
      Note(start, Sweep, true);
      StaysSequential(start, world);
    }

    // ----- what clients get from several calls -----

    /** Two requests that hold the same code exchange it one after the other. */
    method ExchangeBoth(code: Secret, row: Code, now: int, ghost id: nat, ghost jd: nat)
        returns (pair: Result<(Secret, Secret), TokenError>, other: Result<(Secret, Secret), TokenError>)
      requires Valid() && now >= world.now && id != jd && id in world.requests && jd in world.requests
      requires world.requests[id] == Consuming(code, row) && world.requests[jd] == Consuming(code, row)
      modifies this, store
      ensures Valid() && world.now == now && code !in store.codes
      ensures (pair.Ok? <==> code in old(store.codes)) && other == Err(CodeAlreadyUsed)
    {
      pair := ExchangeAuthorizationCode(code, row, now, id);
      other := ExchangeAuthorizationCode(code, row, now, jd);
    }

    /**
     * A code is good once.  Two requests load it, and then both exchange it: the first gets a pair and the second an error.
     * If it expired before the second load, that load deletes it and the first request gets the error.  Nobody can load it
     * afterwards.
     */
    method RedeemTwice(client: string, code: Secret, first: int, second: int, third: int)
        returns (got: Option<Result<(Secret, Secret), TokenError>>, again: Option<Result<(Secret, Secret), TokenError>>, later: Option<Code>)
      requires Valid() && world.now <= first <= second <= third
      modifies this, store
      ensures Valid() && world.now == third
      ensures got.Some? <==> GetCode(old(world).tables, code, first).Some? && old(world).tables.codes[code].client == client
      ensures got.Some? ==>
                && (if second <= old(store.codes)[code].expiresAt then got.value.Ok? && again == Some(Err(CodeAlreadyUsed))
                    else got.value.Err? && again == None)
                && later == None
    {
      hide Reaches, Reachable;
      var row, id := LoadAuthorizationCode(client, code, first);
      if row.None? {
        got, again := None, None;
      } else {
        got, again := LoadAndExchange(client, code, row.value, second, id);
      }
      ghost var jd;
      later, jd := LoadAuthorizationCode(client, code, third);
    }

    /** A second request loads a code that the first one holds; then each of them exchanges it. */
    method LoadAndExchange(client: string, code: Secret, row: Code, now: int, ghost id: nat)
        returns (got: Option<Result<(Secret, Secret), TokenError>>, again: Option<Result<(Secret, Secret), TokenError>>)
      requires Valid() && now >= world.now && code in store.codes && store.codes[code] == row && row.client == client
      requires id in world.requests && world.requests[id] == Consuming(code, row)
      modifies this, store
      ensures Valid() && world.now == now && code !in store.codes && got.Some?
      ensures if now <= row.expiresAt then got.value.Ok? && again == Some(Err(CodeAlreadyUsed)) else got.value.Err? && again == None
    {
      hide Reaches, Reachable;
      var held, jd := LoadAuthorizationCode(client, code, now);
      if held.Some? {
        var pair, other := ExchangeBoth(code, row, now, id, jd);
        return Some(pair), Some(other);
      }
      var pair := ExchangeAuthorizationCode(code, row, now, id);
      return Some(pair), None;
    }

    /** A client that waits: it loads its refresh token and exchanges it at once. */
    method RefreshOnce(client: string, token: Secret, asked: seq<string>, now: int) returns (pair: Option<(Secret, Secret)>)
      requires Valid() && now >= world.now && token < nextSecret && Delivered(world, token)
      modifies this, store
      ensures Valid() && world.now == now
      ensures var found := Usable(old(world).tables, client, token, now);
              && (pair.Some? <==> found.Some?)
              && (pair.Some? ==>
                    && PairStored(pair.value, client, found.value.subject, if asked == [] then found.value.scopes else asked, now)
                    && pair.value.1 != token && token in store.refresh
                    && store.refresh[token] == found.value.(consumedAt := Some(now)))
              && (pair.None? ==> store.Contents() == AfterLoad(old(world).tables, client, token, now))
      ensures token < nextSecret && Delivered(world, token)
      ensures Sequential(old(world)) ==> Sequential(world) && SingleEnds(world)
    {
      hide Reaches, Reachable, Orderly, Delivered, PairStored;
      ghost var start := world;
      var row, id := LoadRefreshToken(client, token, now);
      ghost var loaded := world;
      DeliveredOn(start, loaded, !Held(start, token), token);
      if Quiet(start) {
        OrderlyOn(start, loaded);
      }
      if row.None? {
        pair := None;
      } else {
        var issued := ExchangeRefreshToken(token, row.value, asked, now, id);
        pair := Some(issued);
        DeliveredOn(loaded, world, true, token);
      }
      if Sequential(start) {
        OrderlyHasSingleEnds(world);
      }
    }

    /**
     * Whoever presents a token again after it was rotated, while it has not expired, gets nothing, and the subject loses
     * the new pair too.
     */
    method ReuseOnce(client: string, token: Secret, now: int, later: int) returns (pair: Option<(Secret, Secret)>, again: Option<(Secret, Secret)>)
      requires Valid() && world.now <= now <= later && token < nextSecret && Delivered(world, token)
      modifies this, store
      ensures Valid() && world.now == later
      ensures pair.Some? ==> token in old(store.refresh)
      ensures pair.Some? && later <= old(store.refresh)[token].expiresAt ==>
                && again == None && pair.value.0 !in store.access && pair.value.1 !in store.refresh
                && (forall k :: k in store.access ==> store.access[k].subject != old(store.refresh)[token].subject)
                && (forall k :: k in store.refresh ==> store.refresh[k].subject != old(store.refresh)[token].subject)
    {
      hide Reaches, Reachable;
      pair := RefreshOnce(client, token, [], now);
      again := RefreshOnce(client, token, [], later);
    }
  }
}
