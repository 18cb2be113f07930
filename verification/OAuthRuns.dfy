/**
 * The token endpoints as interleaved requests: each request is a sequence of store calls, and any number of requests
 * run at once, interleaved between calls and dropped anywhere.  Secrets are numbers drawn in order.
 */
module OAuthRuns {
  import opened Common
  import opened OAuthStore

  const ACCESS_TTL := 60 * 60
  const REFRESH_TTL := 30 * 24 * 60 * 60
  const CODE_TTL := 5 * 60
  const LOGIN_TTL := 10 * 60

  /** The sign-in behind a code: whose client asked, who signed in, and with which password. */
  datatype Grant = Grant(client: string, subject: string, password: string)

  /** One issued pair.  `root` is the code it descends from; `parent` is the refresh token it was rotated from. */
  datatype Mint = Mint(
    access: Secret, refresh: Secret, client: string, subject: string, scopes: seq<string>, resource: Option<string>,
    at: int, root: Secret, parent: Option<Secret>)

  /** A request in flight, named by the store call it makes next. */
  datatype Request =
    | Logging(state: Secret, username: string, password: string)
    | Coding(state: Secret, login: Pending, username: string, password: string)
    | Clearing(state: Secret)
    | LoadingCode(client: string, code: Secret)
    | Consuming(code: Secret, codeRow: Code)
    | Minting(client: string, subject: string, scopes: seq<string>, resource: Option<string>, root: Secret, parent: Option<Secret>)
    | Storing(mint: Mint)
    | LoadingRefresh(client: string, token: Secret)
    | Punishing(subject: string)
    | Marking(token: Secret, row: Refresh)
    | FindingAccess(token: Secret)
    | FindingRefresh(token: Secret)
    | Unpairing(accessToken: Option<Secret>, refreshToken: Option<Secret>)
    | Over

  datatype System = System(
    users: map<string, string>, tables: Tables, now: int, drawn: Secret, requests: map<nat, Request>,
    grants: map<Secret, Grant>, mints: map<Secret, Mint>)

  datatype Step =
    | Authorize(client: string, terms: Terms, clientState: Option<string>)
    | Begin(id: nat, request: Request)
    | Act(id: nat, at: int, asked: seq<string>)   // `at` is the clock reading used; `asked` the scopes of a refresh
    | Drop(id: nat)
    | UseAccess(token: Secret)
    | Tick(seconds: nat)
    | Sweep

  function AccessRow(m: Mint): Access
  {
    Access(m.client, m.subject, m.resource, m.scopes, m.at + ACCESS_TTL, m.refresh)
  }

  function RefreshRow(m: Mint): Refresh
  {
    Refresh(m.client, m.subject, m.scopes, m.at + REFRESH_TTL, m.access, None)
  }

  predicate Starts(r: Request)
  {
    r.Logging? || r.LoadingCode? || r.LoadingRefresh? || r.FindingAccess? || r.FindingRefresh?
  }

  /** A token can be presented once its pair has been handed out: secrets are not guessed. */
  predicate Delivered(s: System, token: Secret)
  {
    forall id :: id in s.requests && s.requests[id].Storing? ==>
      s.requests[id].mint.access != token && s.requests[id].mint.refresh != token
  }

  predicate Presents(s: System, r: Request)
  {
    (r.LoadingRefresh? || r.FindingAccess? || r.FindingRefresh?) ==> r.token < s.drawn && Delivered(s, r.token)
  }

  predicate Enabled(s: System, step: Step)
  {
    match step
    case Authorize(_, _, _) => true
    case Begin(id, r) => id !in s.requests && Starts(r) && Presents(s, r)
    case Act(id, at, _) => id in s.requests && !s.requests[id].Over? && at <= s.now
    case Drop(id) => id in s.requests
    case UseAccess(_) => true
    case Tick(_) => true
    case Sweep => true
  }

  /** The password check of the callback, against the configured users. */
  predicate SignedIn(users: map<string, string>, username: string, password: string)
  {
    username in users && users[username] == password
  }

  function Go(s: System, id: nat, r: Request, t: Tables): System
  {
    s.(requests := s.requests[id := r], tables := t)
  }

  predicate Writes(r: Request)
  {
    r.Coding? || r.Minting? || r.Storing? || r.Marking?
  }

  /** The store calls that read or delete, and what the request does next. */
  function Looked(s: System, r: Request): (Request, Tables)
    requires !Writes(r)
  {
    var t := s.tables;
    match r
    case Logging(state, username, password) =>
      var found := GetPending(t, state, s.now);
      (if found.Some? && SignedIn(s.users, username, password) then Coding(state, found.value, username, password) else Over,
       ReadPending(t, state, s.now))
    case Clearing(state) => (Over, t.(pending := t.pending - {state}))
    case LoadingCode(client, code) =>
      var found := GetCode(t, code, s.now);
      (if found.Some? && found.value.client == client then Consuming(code, found.value) else Over, ReadCode(t, code, s.now))
    case Consuming(code, row) =>
      (if code in t.codes then Minting(row.client, row.subject, row.terms.scopes, row.terms.resource, code, None) else Over,
       t.(codes := t.codes - {code}))
    case LoadingRefresh(client, token) =>
      var found := GetRefresh(t, token, s.now);
      (if found.None? || found.value.client != client then Over
       else if found.value.consumedAt.Some? then Punishing(found.value.subject)
       else Marking(token, found.value),
       ReadRefresh(t, token, s.now))
    case Punishing(subject) => (Over, RevokeAll(t, subject))
    case FindingAccess(token) =>
      var found := GetAccess(t, token, s.now);
      (Unpairing(Some(token), if found.Some? then Some(found.value.paired) else None), ReadAccess(t, token, s.now))
    case FindingRefresh(token) =>
      var found := GetRefresh(t, token, s.now);
      (Unpairing(if found.Some? then Some(found.value.paired) else None, Some(token)), ReadRefresh(t, token, s.now))
    case Unpairing(accessToken, refreshToken) => (Over, RevokePair(t, accessToken, refreshToken))
    case Over => (Over, t)
  }

  function NewMint(s: System, r: Request, at: int): Mint
    requires r.Minting?
  {
    Mint(s.drawn, s.drawn + 1, r.client, r.subject, r.scopes, r.resource, at, r.root, r.parent)
  }

  function Acted(s: System, id: nat, at: int, asked: seq<string>): System
    requires Enabled(s, Act(id, at, asked))
  {
    var t, r := s.tables, s.requests[id];
    if !Writes(r) then Go(s, id, Looked(s, r).0, Looked(s, r).1)
    else
      match r
      case Coding(state, login, username, password) =>
        Go(s, id, Clearing(state), t.(codes := t.codes[s.drawn := Code(login.client, username, login.terms, at + CODE_TTL)]))
        .(drawn := s.drawn + 1, grants := s.grants[s.drawn := Grant(login.client, username, password)])
      case Minting(_, _, _, _, _, _) =>
        var m := NewMint(s, r, at);
        Go(s, id, Storing(m), t.(access := t.access[m.access := AccessRow(m)]))
        .(drawn := s.drawn + 2, mints := s.mints[m.access := m])
      case Storing(m) => Go(s, id, Over, t.(refresh := t.refresh[m.refresh := RefreshRow(m)]))
      case Marking(token, row) =>
        Go(s, id,
           if row.paired in s.mints then
             Minting(row.client, row.subject, if asked == [] then row.scopes else asked, None, s.mints[row.paired].root, Some(token))
           else Over,
           Consume(t, token, at))
  }

  function Next(s: System, step: Step): System
    requires Enabled(s, step)
  {
    match step
    case Authorize(client, terms, clientState) =>
      s.(tables := s.tables.(pending := s.tables.pending[s.drawn := Pending(client, terms, clientState, s.now + LOGIN_TTL)]),
         drawn := s.drawn + 1)
    case Begin(id, r) => s.(requests := s.requests[id := r])
    case Act(id, at, asked) => Acted(s, id, at, asked)
    case Drop(id) => s.(requests := s.requests[id := Over])
    case UseAccess(token) => s.(tables := ReadAccess(s.tables, token, s.now))
    case Tick(seconds) => s.(now := s.now + seconds)
    case Sweep => s.(tables := Purge(s.tables, s.now))
  }

  function After(s: System, steps: seq<Step>): Option<System>
  {
    if steps == [] then Some(s)
    else
      match After(s, steps[..|steps| - 1])
      case Some(r) => if Enabled(r, steps[|steps| - 1]) then Some(Next(r, steps[|steps| - 1])) else None
      case None => None
  }

  function Initial(users: map<string, string>, now: int): System
  {
    System(users, Tables(map[], map[], map[], map[]), now, 0, map[], map[], map[])
  }

  // ----- invariants -----

  /** Nobody knows a secret that is still to be drawn. */
  ghost predicate Drawn(s: System)
  {
    && (forall k :: k in s.tables.pending ==> k < s.drawn)
    && (forall k :: k in s.tables.codes ==> k < s.drawn)
    && (forall k :: k in s.grants ==> k < s.drawn)
    && (forall a :: a in s.mints ==> s.mints[a].access == a && a < s.mints[a].refresh < s.drawn)
    && (forall a, b :: a in s.mints && b in s.mints ==> s.mints[a].refresh != b)
    && (forall a, b :: a in s.mints && b in s.mints && s.mints[a].refresh == s.mints[b].refresh ==> a == b)
  }

  /** Every token row is the one its pair was issued with, but for the mark of consumption. */
  ghost predicate RowsFit(t: Tables, mints: map<Secret, Mint>)
  {
    && (forall a :: a in t.access ==> a in mints && t.access[a] == AccessRow(mints[a]))
    && (forall r :: r in t.refresh ==> RefreshFits(mints, r, t.refresh[r]))
  }

  predicate RefreshFits(mints: map<Secret, Mint>, r: Secret, row: Refresh)
  {
    && row.paired in mints && mints[row.paired].refresh == r
    && row.(consumedAt := None) == RefreshRow(mints[row.paired])
  }

  /** The subject and the client are those of the sign-in that the code came from. */
  predicate Descends(grants: map<Secret, Grant>, root: Secret, client: string, subject: string)
  {
    root in grants && grants[root].client == client && grants[root].subject == subject
  }

  ghost predicate Provenance(s: System)
  {
    && (forall c :: c in s.grants ==> SignedIn(s.users, s.grants[c].subject, s.grants[c].password))
    && (forall c :: c in s.tables.codes ==> Descends(s.grants, c, s.tables.codes[c].client, s.tables.codes[c].subject))
    && (forall a :: a in s.mints ==> Descends(s.grants, s.mints[a].root, s.mints[a].client, s.mints[a].subject))
  }

  /** What each request in flight knows. */
  predicate Informed(s: System, r: Request)
  {
    match r
    case Coding(_, _, username, password) => SignedIn(s.users, username, password)
    case Consuming(code, row) => Descends(s.grants, code, row.client, row.subject)
    case Minting(client, subject, _, _, root, _) => Descends(s.grants, root, client, subject)
    case Storing(m) => m.access in s.mints && s.mints[m.access] == m && m.refresh !in s.tables.refresh
    case Marking(token, row) => RefreshFits(s.mints, token, row)
    case FindingAccess(token) => token < s.drawn
    case FindingRefresh(token) => token < s.drawn
    case Unpairing(a, r) => (a.Some? ==> a.value < s.drawn) && (r.Some? ==> r.value < s.drawn)
    case _ => true
  }

  ghost predicate AllInformed(s: System)
  {
    forall id :: id in s.requests ==> Informed(s, s.requests[id])
  }

  ghost predicate StoringApart(requests: map<nat, Request>)
  {
    forall i, j ::
      (i in requests && j in requests && requests[i].Storing? && requests[j].Storing?
       && requests[i].mint.access == requests[j].mint.access) ==> i == j
  }

  ghost predicate Sound(s: System)
  {
    Drawn(s) && RowsFit(s.tables, s.mints) && Provenance(s) && AllInformed(s) && StoringApart(s.requests)
  }

  // ----- preservation -----

  /** `u` is `t` with some rows removed. */
  ghost predicate Fewer(u: Tables, t: Tables)
  {
    && u.pending.Keys <= t.pending.Keys
    && (forall k :: k in u.codes ==> k in t.codes && u.codes[k] == t.codes[k])
    && (forall k :: k in u.access ==> k in t.access && u.access[k] == t.access[k])
    && (forall k :: k in u.refresh ==> k in t.refresh && u.refresh[k] == t.refresh[k])
  }

  lemma RemovalKeeps(s: System, t: Tables)
    requires Sound(s) && Fewer(t, s.tables)
    ensures Sound(s.(tables := t))
  {
    var u := s.(tables := t);
    forall id | id in u.requests
      ensures Informed(u, u.requests[id])
    {
      assert Informed(s, s.requests[id]);
    }
  }

  /** A request that moves on to something it has the knowledge for. */
  lemma MoveKeeps(s: System, id: nat, r: Request)
    requires Sound(s) && Informed(s, r) && !r.Storing?
    ensures Sound(s.(requests := s.requests[id := r]))
  {
    var u := s.(requests := s.requests[id := r]);
    forall i | i in u.requests
      ensures Informed(u, u.requests[i])
    {
      assert i in s.requests ==> Informed(s, s.requests[i]);
    }
  }

  lemma LaterKeeps(s: System, drawn: Secret, now: int)
    requires Sound(s) && s.drawn <= drawn
    ensures Sound(s.(drawn := drawn, now := now))
  {
    var u := s.(drawn := drawn, now := now);
    forall i | i in u.requests
      ensures Informed(u, u.requests[i])
    {
      assert Informed(s, s.requests[i]);
    }
  }

  lemma PendingKeeps(s: System, pending: map<Secret, Pending>)
    requires Sound(s) && forall k :: k in pending ==> k < s.drawn
    ensures Sound(s.(tables := s.tables.(pending := pending)))
  {
    var u := s.(tables := s.tables.(pending := pending));
    forall id | id in u.requests
      ensures Informed(u, u.requests[id])
    {
      assert Informed(s, s.requests[id]);
    }
  }

  lemma CodeKeeps(s: System, id: nat, at: int, asked: seq<string>)
    requires Sound(s) && Enabled(s, Act(id, at, asked)) && s.requests[id].Coding?
    ensures Sound(Acted(s, id, at, asked))
  {
    assert Informed(s, s.requests[id]);
    CodeInformsAll(s, id, at, asked);
    CodeDraws(s, id, at, asked);
    CodeDescends(s, id, at, asked);
    hide Informed, AllInformed, Drawn, Provenance, RefreshFits, AccessRow;
  }

  lemma CodeDraws(s: System, id: nat, at: int, asked: seq<string>)
    requires Drawn(s) && Enabled(s, Act(id, at, asked)) && s.requests[id].Coding?
    ensures Drawn(Acted(s, id, at, asked))
  {
  }

  lemma CodeDescends(s: System, id: nat, at: int, asked: seq<string>)
    requires Drawn(s) && Provenance(s) && Enabled(s, Act(id, at, asked)) && s.requests[id].Coding? && Informed(s, s.requests[id])
    ensures Provenance(Acted(s, id, at, asked))
  {
    hide SignedIn;
  }

  lemma CodeInformsAll(s: System, id: nat, at: int, asked: seq<string>)
    requires Sound(s) && Enabled(s, Act(id, at, asked)) && s.requests[id].Coding?
    ensures AllInformed(Acted(s, id, at, asked))
  {
    hide Provenance, RowsFit, StoringApart, RefreshFits;
    var u := Acted(s, id, at, asked);
    forall i | i in u.requests
      ensures Informed(u, u.requests[i])
    {
      assert Informed(s, s.requests[i]);
    }
  }

  lemma MintFits(t: Tables, mints: map<Secret, Mint>, m: Mint)
    requires RowsFit(t, mints) && m.access !in mints
    ensures RowsFit(t.(access := t.access[m.access := AccessRow(m)]), mints[m.access := m])
  {
    forall r | r in t.refresh
      ensures RefreshFits(mints[m.access := m], r, t.refresh[r])
    {
      assert RefreshFits(mints, r, t.refresh[r]);
    }
  }

  lemma MintInforms(s: System, m: Mint, r: Request)
    requires Drawn(s) && Informed(s, r) && m.access == s.drawn
    ensures Informed(s.(mints := s.mints[m.access := m], drawn := s.drawn + 2), r)
  {
  }

  lemma MintDraws(s: System, id: nat, at: int, asked: seq<string>)
    requires Drawn(s) && Enabled(s, Act(id, at, asked)) && s.requests[id].Minting?
    ensures Drawn(Acted(s, id, at, asked))
  {
    hide AccessRow;
  }

  lemma MintDescends(s: System, id: nat, at: int, asked: seq<string>)
    requires Drawn(s) && Provenance(s) && Enabled(s, Act(id, at, asked)) && s.requests[id].Minting? && Informed(s, s.requests[id])
    ensures Provenance(Acted(s, id, at, asked))
  {
    hide SignedIn, Drawn, AccessRow;
  }

  lemma MintKeeps(s: System, id: nat, at: int, asked: seq<string>)
    requires Sound(s) && Enabled(s, Act(id, at, asked)) && s.requests[id].Minting?
    ensures Sound(Acted(s, id, at, asked))
  {
    var m := NewMint(s, s.requests[id], at);
    assert Informed(s, s.requests[id]);
    MintInformsAll(s, id, at, asked);
    MintDraws(s, id, at, asked);
    MintDescends(s, id, at, asked);
    assert m.access !in s.mints;
    hide Informed, AllInformed, Drawn, Provenance, RowsFit;
    MintFits(s.tables, s.mints, m);
    NewMintIsApart(s, m);
  }

  lemma MintInformsAll(s: System, id: nat, at: int, asked: seq<string>)
    requires Sound(s) && Enabled(s, Act(id, at, asked)) && s.requests[id].Minting?
    ensures AllInformed(Acted(s, id, at, asked))
  {
    hide Provenance, RowsFit, StoringApart, Drawn;
    var m, u := NewMint(s, s.requests[id], at), Acted(s, id, at, asked);
    forall i | i in u.requests
      ensures Informed(u, u.requests[i])
    {
      assert Informed(s, s.requests[i]);
      if i == id {
        NewTokenIsUnstored(s, m);
      } else {
        MintInforms(s, m, s.requests[i]);
      }
    }
  }

  lemma NewTokenIsUnstored(s: System, m: Mint)
    requires Drawn(s) && RowsFit(s.tables, s.mints) && m.refresh > s.drawn
    ensures m.refresh !in s.tables.refresh
  {
    RefreshKnown(s, m.refresh);
  }

  lemma NewMintIsApart(s: System, m: Mint)
    requires Drawn(s) && AllInformed(s) && m.access == s.drawn
    ensures forall i :: i in s.requests && s.requests[i].Storing? ==> s.requests[i].mint.access != m.access
  {
    forall i | i in s.requests && s.requests[i].Storing?
      ensures s.requests[i].mint.access != m.access
    {
      assert Informed(s, s.requests[i]);
    }
  }

  lemma StoreKeeps(s: System, id: nat, at: int, asked: seq<string>)
    requires Sound(s) && Enabled(s, Act(id, at, asked)) && s.requests[id].Storing?
    ensures Sound(Acted(s, id, at, asked))
  {
    var u := Acted(s, id, at, asked);
    assert Informed(s, s.requests[id]);
    forall i | i in u.requests
      ensures Informed(u, u.requests[i])
    {
      assert Informed(s, s.requests[i]);
    }
  }

  lemma ConsumedFits(t: Tables, mints: map<Secret, Mint>, token: Secret, at: int)
    requires RowsFit(t, mints)
    ensures RowsFit(Consume(t, token, at), mints) && Consume(t, token, at).refresh.Keys == t.refresh.Keys
  {
    assert token in t.refresh ==> RefreshFits(mints, token, t.refresh[token]);
  }

  lemma ConsumeKeeps(s: System, token: Secret, at: int)
    requires Sound(s)
    ensures Sound(s.(tables := Consume(s.tables, token, at)))
  {
    var u := s.(tables := Consume(s.tables, token, at));
    ConsumedFits(s.tables, s.mints, token, at);
    forall i | i in u.requests
      ensures Informed(u, u.requests[i])
    {
      assert Informed(s, s.requests[i]);
    }
  }

  lemma MarkInforms(s: System, r: Request, at: int, q: Request)
    requires Provenance(s) && r.Marking? && Informed(s, r)
    requires q.Minting? && r.row.paired in s.mints
             && q.root == s.mints[r.row.paired].root && q.client == r.row.client && q.subject == r.row.subject
    ensures Informed(s.(tables := Consume(s.tables, r.token, at)), q)
  {
  }

  lemma MarkKeeps(s: System, id: nat, at: int, asked: seq<string>)
    requires Sound(s) && Enabled(s, Act(id, at, asked)) && s.requests[id].Marking?
    ensures Sound(Acted(s, id, at, asked))
  {
    var r, q := s.requests[id], Acted(s, id, at, asked).requests[id];
    assert Informed(s, r);
    ConsumeKeeps(s, r.token, at);
    MarkInforms(s, r, at, q);
    MoveKeeps(s.(tables := Consume(s.tables, r.token, at)), id, q);
  }

  lemma LookedRemoves(s: System, r: Request)
    requires !Writes(r)
    ensures Fewer(Looked(s, r).1, s.tables)
  {
  }

  lemma RefreshKnown(s: System, token: Secret)
    requires Drawn(s) && RowsFit(s.tables, s.mints)
    ensures token in s.tables.refresh ==>
              token < s.drawn && s.tables.refresh[token].paired < s.drawn && RefreshFits(s.mints, token, s.tables.refresh[token])
  {
    assert token in s.tables.refresh ==> RefreshFits(s.mints, token, s.tables.refresh[token]);
  }

  lemma AccessKnown(s: System, token: Secret)
    requires Drawn(s) && RowsFit(s.tables, s.mints)
    ensures token in s.tables.access ==> token < s.drawn && s.tables.access[token].paired < s.drawn
  {
  }

  lemma CodeKnown(s: System, code: Secret)
    requires Provenance(s)
    ensures code in s.tables.codes ==> Descends(s.grants, code, s.tables.codes[code].client, s.tables.codes[code].subject)
  {
  }

  lemma LookedInforms(s: System, r: Request)
    requires Informed(s, r) && !Writes(r)
    requires r.LoadingCode? ==> r.code in s.tables.codes ==>
               Descends(s.grants, r.code, s.tables.codes[r.code].client, s.tables.codes[r.code].subject)
    requires r.FindingAccess? ==> r.token in s.tables.access ==> s.tables.access[r.token].paired < s.drawn
    requires r.LoadingRefresh? || r.FindingRefresh? ==> r.token in s.tables.refresh ==>
               s.tables.refresh[r.token].paired < s.drawn && RefreshFits(s.mints, r.token, s.tables.refresh[r.token])
    ensures Informed(s.(tables := Looked(s, r).1), Looked(s, r).0) && !Looked(s, r).0.Storing?
  {
  }

  lemma LookKeeps(s: System, id: nat)
    requires Sound(s) && id in s.requests && !Writes(s.requests[id])
    ensures Sound(Go(s, id, Looked(s, s.requests[id]).0, Looked(s, s.requests[id]).1))
  {
    var r := s.requests[id];
    assert Informed(s, r);
    LookedRemoves(s, r);
    if r.LoadingCode? {
      CodeKnown(s, r.code);
    } else if r.FindingAccess? {
      AccessKnown(s, r.token);
    } else if r.LoadingRefresh? || r.FindingRefresh? {
      RefreshKnown(s, r.token);
    }
    LookedInforms(s, r);
    RemovalKeeps(s, Looked(s, r).1);
    MoveKeeps(s.(tables := Looked(s, r).1), id, Looked(s, r).0);
  }

  lemma ActKeeps(s: System, id: nat, at: int, asked: seq<string>)
    requires Sound(s) && Enabled(s, Act(id, at, asked))
    ensures Sound(Acted(s, id, at, asked))
  {
    match s.requests[id]
    case Coding(_, _, _, _) => CodeKeeps(s, id, at, asked);
    case Minting(_, _, _, _, _, _) => MintKeeps(s, id, at, asked);
    case Storing(_) => StoreKeeps(s, id, at, asked);
    case Marking(_, _) => MarkKeeps(s, id, at, asked);
    case _ => LookKeeps(s, id);
  }

  lemma AuthorizeKeeps(s: System, step: Step)
    requires Sound(s) && step.Authorize?
    ensures Sound(Next(s, step))
  {
    LaterKeeps(s, s.drawn + 1, s.now);
    var v, pending := s.(drawn := s.drawn + 1, now := s.now), Next(s, step).tables.pending;
    assert forall k :: k in s.tables.pending ==> k < s.drawn;
    PendingKeeps(v, pending);
  }

  lemma StepKeeps(s: System, step: Step)
    requires Sound(s) && Enabled(s, step)
    ensures Sound(Next(s, step))
  {
    hide Sound, Acted, Looked;
    match step
    case Authorize(_, _, _) => AuthorizeKeeps(s, step);
    case Begin(id, r) => MoveKeeps(s, id, r);
    case Act(id, at, asked) => ActKeeps(s, id, at, asked);
    case Drop(id) => MoveKeeps(s, id, Over);
    case UseAccess(token) => RemovalKeeps(s, Next(s, step).tables);
    case Tick(seconds) => LaterKeeps(s, s.drawn, s.now + seconds);
    case Sweep => RemovalKeeps(s, Next(s, step).tables);
  }

  ghost predicate Reachable(s: System)
  {
    exists users, now, steps :: After(Initial(users, now), steps) == Some(s)
  }

  lemma {:induction false} RunSound(s: System, steps: seq<Step>)
    requires Sound(s) && After(s, steps).Some?
    ensures Sound(After(s, steps).value)
  {
    if steps != [] {
      RunSound(s, steps[..|steps| - 1]);
      StepKeeps(After(s, steps[..|steps| - 1]).value, steps[|steps| - 1]);
    }
  }

  lemma ReachableSound(s: System)
    requires Reachable(s)
    ensures Sound(s)
  {
    var users, now, steps :| After(Initial(users, now), steps) == Some(s);
    RunSound(Initial(users, now), steps);
  }

  lemma ReachableNext(s: System, step: Step)
    requires Reachable(s) && Enabled(s, step)
    ensures Reachable(Next(s, step))
  {
    var users, now, steps :| After(Initial(users, now), steps) == Some(s);
    assert (steps + [step])[..|steps|] == steps;
    assert After(Initial(users, now), steps + [step]) == Some(Next(s, step));
  }

  /** The next secrets are in no table. */
  lemma SecretsAreUnused(s: System)
    requires Reachable(s)
    ensures s.drawn !in s.tables.pending && s.drawn !in s.tables.codes && s.drawn !in s.tables.access
    ensures s.drawn + 1 !in s.tables.refresh
  {
    ReachableSound(s);
    RefreshKnown(s, s.drawn + 1);
  }

  lemma HolderKnows(s: System, id: nat)
    requires Reachable(s) && id in s.requests && s.requests[id].Marking?
    ensures s.requests[id].row.paired in s.mints && s.requests[id].token < s.drawn
  {
    ReachableSound(s);
    assert Informed(s, s.requests[id]);
  }
}
