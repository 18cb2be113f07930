/** Runs that show the situations of the token statements: a token that can be presented, and a wipe that races with a refresh. */
module OAuthRaces {
  import opened Common
  import opened OAuthStore
  import opened OAuthRuns
  import opened OAuthTheorems
  import opened OAuthRevocation

  // ----- from the start to a refresh token -----

  /** A client asks for a login. */
  lemma AsksForLogin(client: string, terms: Terms, subject: string, password: string) returns (s: System)
    ensures Reachable(s) && s.now == 0 && s.drawn == 1 && s.requests == map[] && s.mints == map[] && s.users == map[subject := password]
    ensures s.tables == Tables(map[0 := Pending(client, terms, None, LOGIN_TTL)], map[], map[], map[])
  {
    var s0 := Initial(map[subject := password], 0);
    assert After(s0, []) == Some(s0);
    ReachableNext(s0, Step.Authorize(client, terms, None));
    s := Next(s0, Step.Authorize(client, terms, None));
  }

  /** A user signs in: there is a code for it. */
  lemma SignsIn(client: string, terms: Terms, subject: string, password: string) returns (s: System, code: Secret)
    ensures Reachable(s) && s.now == 0 && code in s.tables.codes && code < s.drawn
    ensures s.tables.codes[code] == Code(client, subject, terms, CODE_TTL)
    ensures s.requests == map[0 := Clearing(0)] && s.mints == map[] && s.tables.refresh == map[]
  {
    hide Reachable;
    var s1 := AsksForLogin(client, terms, subject, password);
    ReachableNext(s1, Begin(0, Logging(0, subject, password)));
    var s2 := Next(s1, Begin(0, Logging(0, subject, password)));
    ReachableNext(s2, Act(0, 0, []));
    var s3 := Next(s2, Act(0, 0, []));
    assert s3.requests[0] == Coding(0, s1.tables.pending[0], subject, password);
    ReachableNext(s3, Act(0, 0, []));
    s, code := Next(s3, Act(0, 0, [])), s3.drawn;
  }

  /** A code is loaded and consumed: its pair is about to be drawn. */
  lemma Redeems(s: System, id: nat, code: Secret) returns (u: System)
    requires Reachable(s) && id !in s.requests && GetCode(s.tables, code, s.now).Some?
    ensures var row := s.tables.codes[code];
            && Reachable(u) && u.now == s.now && u.drawn == s.drawn && u.mints == s.mints && u.tables.refresh == s.tables.refresh
            && u.requests == s.requests[id := Minting(row.client, row.subject, row.terms.scopes, row.terms.resource, code, None)]
  {
    hide Reachable;
    var row := s.tables.codes[code];
    ReachableNext(s, Begin(id, LoadingCode(row.client, code)));
    var s1 := Next(s, Begin(id, LoadingCode(row.client, code)));
    ReachableNext(s1, Act(id, s.now, []));
    var s2 := Next(s1, Act(id, s.now, []));
    assert s2.requests[id] == Consuming(code, row);
    ReachableNext(s2, Act(id, s.now, []));
    u := Next(s2, Act(id, s.now, []));
  }

  /** The pair is drawn, and its access row stored. */
  lemma Draws(s: System, id: nat) returns (u: System, m: Mint)
    requires Reachable(s) && id in s.requests && s.requests[id].Minting?
    ensures m == NewMint(s, s.requests[id], s.now)
    ensures Reachable(u) && u.now == s.now && u.mints == s.mints[m.access := m] && u.tables.refresh == s.tables.refresh
    ensures u.requests == s.requests[id := Storing(m)] && m.refresh < u.drawn && s.drawn <= m.access < m.refresh
  {
    m := NewMint(s, s.requests[id], s.now);
    ReachableNext(s, Act(id, s.now, []));
    u := Next(s, Act(id, s.now, []));
  }

  lemma StoresRefresh(s: System, id: nat) returns (u: System)
    requires Reachable(s) && id in s.requests && s.requests[id].Storing?
    ensures var m := s.requests[id].mint;
            && Reachable(u) && u.now == s.now && u.drawn == s.drawn && u.mints == s.mints && u.requests == s.requests[id := Over]
            && u.tables.refresh == s.tables.refresh[m.refresh := RefreshRow(m)]
  {
    ReachableNext(s, Act(id, s.now, []));
    u := Next(s, Act(id, s.now, []));
  }

  /** For every client and user there is a run after which the client can present a refresh token of that user. */
  lemma TokensGetPresentable(client: string, terms: Terms, subject: string, password: string) returns (s: System, token: Secret)
    ensures Reachable(s) && Presentable(s, client, token) && s.tables.refresh[token].subject == subject
    ensures forall id :: id in s.requests ==> id < 2
  {
    hide Reachable;
    var s1, code := SignsIn(client, terms, subject, password);
    var s2 := Redeems(s1, 1, code);
    var s3, m := Draws(s2, 1);
    s := StoresRefresh(s3, 1);
    token := m.refresh;
    assert s.requests == map[0 := Clearing(0), 1 := Over];
  }

  // ----- a refresh, and the same token presented again -----

  /** A client loads its refresh token. */
  lemma Presented(s: System, id: nat, client: string, token: Secret) returns (u: System)
    requires Reachable(s) && id !in s.requests && token < s.drawn && Delivered(s, token)
    requires GetRefresh(s.tables, token, s.now).Some? && s.tables.refresh[token].client == client
    ensures var row := s.tables.refresh[token];
            && Reachable(u)
            && u == s.(requests := s.requests[id := if row.consumedAt.Some? then Punishing(row.subject) else Marking(token, row)])
  {
    hide Reachable;
    ReachableNext(s, Begin(id, LoadingRefresh(client, token)));
    var s1 := Next(s, Begin(id, LoadingRefresh(client, token)));
    ReachableNext(s1, Act(id, s.now, []));
    u := Next(s1, Act(id, s.now, []));
  }

  /** The token is marked, and a new pair of the same subject is about to be drawn. */
  lemma Rotates(s: System, id: nat, token: Secret, row: Refresh) returns (u: System)
    requires Reachable(s) && id in s.requests && s.requests[id] == Marking(token, row) && token in s.tables.refresh
    ensures Reachable(u) && u.now == s.now && u.drawn == s.drawn && id in u.requests
    ensures u.requests[id].Minting? && u.requests[id].subject == row.subject && u.requests == s.requests[id := u.requests[id]]
    ensures u.tables.refresh == s.tables.refresh[token := s.tables.refresh[token].(consumedAt := Some(s.now))]
  {
    HolderKnows(s, id);
    ReachableNext(s, Act(id, s.now, []));
    u := Next(s, Act(id, s.now, []));
  }

  /**
   * The situation of `UnfinishedPairOutlivesWipe` arises from any presentable token: its refresh has drawn a pair and not
   * yet stored it all, when the token is presented again and its subject is about to be wiped.
   */
  lemma WipeRacesWithRefresh(s: System, i: nat, j: nat, client: string, token: Secret) returns (u: System, a: Secret)
    requires Reachable(s) && i != j && i !in s.requests && j !in s.requests && Presentable(s, client, token)
    ensures Reachable(u) && j in u.requests && u.requests[j] == Punishing(s.tables.refresh[token].subject)
    ensures a in u.mints && !Delivered(u, a) && u.mints[a].subject == s.tables.refresh[token].subject
  {
    hide Reachable;
    var row := s.tables.refresh[token];
    var s1 := Presented(s, i, client, token);
    var s2 := Rotates(s1, i, token, row);
    var s3, m := Draws(s2, i);
    u := Presented(s3, j, client, token);
    a := m.access;
    assert u.requests[i] == Storing(m);
  }

  /** A stored refresh token belongs to the subject of its pair. */
  lemma StoredForItsSubject(s: System, a: Secret)
    requires Reachable(s) && a in s.mints && s.mints[a].refresh in s.tables.refresh
    ensures s.tables.refresh[s.mints[a].refresh].subject == s.mints[a].subject
  {
    ReachableSound(s);
    RefreshKnown(s, s.mints[a].refresh);
  }

  /** From any such state on, the subject is wiped and has a refresh token in the store afterwards. */
  lemma KeepsAToken(u: System, id: nat, a: Secret, subject: string)
    requires Reachable(u) && id in u.requests && u.requests[id] == Punishing(subject)
    requires a in u.mints && !Delivered(u, a) && u.mints[a].subject == subject
    ensures exists v, w :: Follows(u, v) && Wiped(u.tables, v.tables, subject) && Follows(v, w) && HasToken(w, subject)
  {
    UnfinishedPairOutlivesWipe(u, id, a);
    var jd: nat, v, w :|
      && jd in u.requests && v == Next(u, Act(id, u.now, [])) && Enabled(v, Act(jd, u.now, []))
      && w == Next(v, Act(jd, u.now, []))
      && Wiped(u.tables, v.tables, subject) && u.mints[a].refresh in w.tables.refresh;
    hide Reachable;
    ReachableNext(u, Act(id, u.now, []));
    ReachableNext(v, Act(jd, u.now, []));
    KeepsMints(u, Act(id, u.now, []));
    KeepsMints(v, Act(jd, u.now, []));
    StoredForItsSubject(w, a);
    assert Follows(u, v) && Follows(v, w) && HasToken(w, subject);
  }

  /** One step leads from `s` to `t`. */
  ghost predicate Follows(s: System, t: System)
  {
    exists step :: Enabled(s, step) && t == Next(s, step)
  }

  ghost predicate HasToken(s: System, subject: string)
  {
    exists k :: k in s.tables.refresh && s.tables.refresh[k].subject == subject
  }

  lemma KeepsMints(s: System, step: Step)
    requires Reachable(s) && Enabled(s, step)
    ensures forall a :: a in s.mints ==> a in Next(s, step).mints && Next(s, step).mints[a] == s.mints[a]
  {
    ReachableSound(s);
  }

  /** From the start: any subject can be wiped and have a refresh token in the store afterwards. */
  lemma WipedSubjectCanKeepAToken(client: string, terms: Terms, subject: string, password: string)
    ensures exists u, v, w ::
              Reachable(u) && Follows(u, v) && Wiped(u.tables, v.tables, subject) && Follows(v, w) && HasToken(w, subject)
  {
    hide Reachable, Wiped, HasToken, Follows;
    var s, token := TokensGetPresentable(client, terms, subject, password);
    var u, a := WipeRacesWithRefresh(s, 2, 3, client, token);
    KeepsAToken(u, 3, a, subject);
  }

  /** From the start: the chain of any sign-in can be left with two unused refresh tokens. */
  lemma ChainsCanFork(client: string, terms: Terms, subject: string, password: string)
    ensures exists s, steps, u, q, r, root ::
              Reachable(s) && After(s, steps) == Some(u) && q != r
              && Unused(u.tables.refresh, q, u.mints, root) && Unused(u.tables.refresh, r, u.mints, root)
  {
    hide Reachable, After, Unused;
    var s, token := TokensGetPresentable(client, terms, subject, password);
    OverlappingRefreshesFork(s, 2, 3, client, token);
  }
}
