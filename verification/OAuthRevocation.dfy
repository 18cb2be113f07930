/** Revocation, reuse of a rotated refresh token, and what overlapping refreshes of one token can do. */
module OAuthRevocation {
  import opened Common
  import opened OAuthStore
  import opened OAuthRuns
  import opened OAuthTheorems

  // ----- revocation is final -----

  /** A revocation in flight names only tokens that had been handed out. */
  ghost predicate Revokers(s: System)
  {
    forall id :: id in s.requests ==> RevokesDelivered(s, s.requests[id])
  }

  predicate RevokesDelivered(s: System, r: Request)
  {
    match r
    case FindingAccess(token) => Delivered(s, token)
    case FindingRefresh(token) => Delivered(s, token)
    case Unpairing(a, b) => (a.Some? ==> Delivered(s, a.value)) && (b.Some? ==> Delivered(s, b.value))
    case _ => true
  }

  /** No step hands a pair out again: a new pair's secrets are new. */
  lemma DeliveredStays(s: System, step: Step, token: Secret)
    requires Sound(s) && Enabled(s, step) && Delivered(s, token) && token < s.drawn
    ensures Delivered(Next(s, step), token) && token < Next(s, step).drawn
  {
    hide Sound, Looked;
    if step.Act? && !Writes(s.requests[step.id]) {
      LookedStoresNothing(s, s.requests[step.id]);
    }
  }

  lemma LookedStoresNothing(s: System, r: Request)
    requires !Writes(r)
    ensures !Looked(s, r).0.Storing?
  {
  }

  /** The other half of a delivered pair is delivered too. */
  lemma PartnerDelivered(s: System, a: Secret)
    requires Sound(s) && a in s.mints
    ensures Delivered(s, a) <==> Delivered(s, s.mints[a].refresh)
  {
    forall id | id in s.requests && s.requests[id].Storing?
      ensures s.requests[id].mint.access != s.mints[a].refresh && s.requests[id].mint.refresh != a
      ensures s.requests[id].mint.access == a <==> s.requests[id].mint.refresh == s.mints[a].refresh
    {
      assert Informed(s, s.requests[id]);
    }
  }

  /** A lookup that finds its token live names the whole pair; both halves had been handed out. */
  lemma FindingAccessNames(s: System, token: Secret)
    requires Sound(s) && Delivered(s, token) && token < s.drawn
    ensures var q := Looked(s, FindingAccess(token)).0; RevokesDelivered(s, q) && Informed(s, q)
  {
    AccessKnown(s, token);
    if token in s.tables.access {
      PartnerDelivered(s, token);
    }
  }

  lemma FindingRefreshNames(s: System, token: Secret)
    requires Sound(s) && Delivered(s, token) && token < s.drawn
    ensures var q := Looked(s, FindingRefresh(token)).0; RevokesDelivered(s, q) && Informed(s, q)
  {
    RefreshKnown(s, token);
    if token in s.tables.refresh {
      PartnerDelivered(s, s.tables.refresh[token].paired);
    }
  }

  lemma LookersFollow(s: System, r: Request)
    requires !Writes(r)
    ensures var q := Looked(s, r).0;
            !q.FindingAccess? && !q.FindingRefresh? && (q.Unpairing? ==> r.FindingAccess? || r.FindingRefresh?)
  {
  }

  lemma WritersFollow(s: System, id: nat, at: int, asked: seq<string>)
    requires Enabled(s, Act(id, at, asked)) && Writes(s.requests[id])
    ensures var q := Acted(s, id, at, asked).requests[id]; q.Clearing? || q.Storing? || q.Over? || q.Minting?
  {
  }

  lemma ActedRequests(s: System, id: nat, at: int, asked: seq<string>)
    requires Enabled(s, Act(id, at, asked))
    ensures var u := Acted(s, id, at, asked);
            id in u.requests && u.requests == s.requests[id := u.requests[id]]
            && (!Writes(s.requests[id]) ==> u.requests[id] == Looked(s, s.requests[id]).0)
  {
  }

  lemma RevokerStays(s: System, step: Step, r: Request)
    requires Sound(s) && Enabled(s, step) && RevokesDelivered(s, r) && Informed(s, r)
    ensures RevokesDelivered(Next(s, step), r)
  {
    match r
    case FindingAccess(token) => DeliveredStays(s, step, token);
    case FindingRefresh(token) => DeliveredStays(s, step, token);
    case Unpairing(a, b) =>
      if a.Some? {
        DeliveredStays(s, step, a.value);
      }
      if b.Some? {
        DeliveredStays(s, step, b.value);
      }
    case _ =>
  }

  lemma NewRevoker(s: System, id: nat, at: int, asked: seq<string>)
    requires Sound(s) && Revokers(s) && Enabled(s, Act(id, at, asked))
    ensures id in Acted(s, id, at, asked).requests
    ensures var q := Acted(s, id, at, asked).requests[id]; RevokesDelivered(s, q) && (q.Unpairing? ==> Informed(s, q))
    ensures var q := Acted(s, id, at, asked).requests[id]; !q.FindingAccess? && !q.FindingRefresh?
  {
    var r := s.requests[id];
    assert Informed(s, r) && RevokesDelivered(s, r);
    ActedRequests(s, id, at, asked);
    if Writes(r) {
      WritersFollow(s, id, at, asked);
    } else {
      LookersFollow(s, r);
      if r.FindingAccess? {
        FindingAccessNames(s, r.token);
      } else if r.FindingRefresh? {
        FindingRefreshNames(s, r.token);
      }
    }
  }

  lemma StepKeepsRevokers(s: System, step: Step)
    requires Sound(s) && Revokers(s) && Enabled(s, step)
    ensures Revokers(Next(s, step))
  {
    var u := Next(s, step);
    if step.Act? {
      NewRevoker(s, step.id, step.at, step.asked);
      ActedRequests(s, step.id, step.at, step.asked);
    }
    forall i | i in u.requests
      ensures RevokesDelivered(u, u.requests[i])
    {
      var q := u.requests[i];
      if i in s.requests && q == s.requests[i] {
        assert Informed(s, q) && RevokesDelivered(s, q);
        RevokerStays(s, step, q);
      } else if step.Act? && q.Unpairing? {
        RevokerStays(s, step, q);
      } else if step.Begin? && (q.FindingAccess? || q.FindingRefresh?) {
        DeliveredStays(s, step, q.token);
      }
    }
  }

  /** Both tokens of a pair are gone, and nothing in flight can bring either back. */
  ghost predicate Gone(s: System, a: Secret, r: Secret)
  {
    && a !in s.tables.access && r !in s.tables.refresh
    && a < s.drawn && r < s.drawn && Delivered(s, a) && Delivered(s, r)
  }

  lemma LookedAddsNothing(s: System, r: Request)
    requires !Writes(r)
    ensures Looked(s, r).1.access.Keys <= s.tables.access.Keys && Looked(s, r).1.refresh.Keys <= s.tables.refresh.Keys
  {
  }

  lemma WritersAdd(s: System, id: nat, at: int, asked: seq<string>, k: Secret)
    requires Enabled(s, Act(id, at, asked)) && Writes(s.requests[id]) && k < s.drawn && Delivered(s, k)
    ensures k in Acted(s, id, at, asked).tables.access ==> k in s.tables.access
    ensures k in Acted(s, id, at, asked).tables.refresh ==> k in s.tables.refresh
  {
  }

  lemma GoneStays(s: System, step: Step, a: Secret, r: Secret)
    requires Sound(s) && Enabled(s, step) && Gone(s, a, r)
    ensures Gone(Next(s, step), a, r)
  {
    DeliveredStays(s, step, a);
    DeliveredStays(s, step, r);
    match step
    case Act(id, at, asked) =>
      if Writes(s.requests[id]) {
        WritersAdd(s, id, at, asked, a);
        WritersAdd(s, id, at, asked, r);
      } else {
        LookedAddsNothing(s, s.requests[id]);
      }
    case _ =>
  }

  lemma {:induction false} GoneForGood(s: System, steps: seq<Step>, a: Secret, r: Secret)
    requires Sound(s) && Gone(s, a, r) && After(s, steps).Some?
    ensures Sound(After(s, steps).value) && Gone(After(s, steps).value, a, r)
  {
    if steps != [] {
      var before := steps[..|steps| - 1];
      GoneForGood(s, before, a, r);
      StepKeeps(After(s, before).value, steps[|steps| - 1]);
      GoneStays(After(s, before).value, steps[|steps| - 1], a, r);
    }
  }

  lemma {:induction false} RunKeepsRevokers(s: System, steps: seq<Step>)
    requires Sound(s) && Revokers(s) && After(s, steps).Some?
    ensures Sound(After(s, steps).value) && Revokers(After(s, steps).value)
  {
    if steps != [] {
      var before := steps[..|steps| - 1];
      RunKeepsRevokers(s, before);
      StepKeeps(After(s, before).value, steps[|steps| - 1]);
      StepKeepsRevokers(After(s, before).value, steps[|steps| - 1]);
    }
  }

  /** Whichever token of a pair is presented while it is live, the request goes on to delete both. */
  lemma RevocationNamesBoth(s: System, id: nat, at: int, asked: seq<string>)
    requires Reachable(s) && Enabled(s, Act(id, at, asked))
    ensures var q := Acted(s, id, at, asked).requests[id];
            && (s.requests[id].FindingAccess? && GetAccess(s.tables, s.requests[id].token, s.now).Some? ==>
                  var a := s.requests[id].token; a in s.mints && q == Unpairing(Some(a), Some(s.mints[a].refresh)))
            && (s.requests[id].FindingRefresh? && GetRefresh(s.tables, s.requests[id].token, s.now).Some? ==>
                  exists a :: a in s.mints && s.mints[a].refresh == s.requests[id].token
                              && q == Unpairing(Some(a), Some(s.requests[id].token)))
  {
    hide Reachable, StoringApart, Provenance, AllInformed;
    ReachableSound(s);
    if s.requests[id].FindingRefresh? {
      RefreshKnown(s, s.requests[id].token);
    }
  }

  /** Once that request has deleted the pair, neither token is in the store in any later state. */
  lemma RevokedForGood(s: System, id: nat, at: int, asked: seq<string>, a: Secret, r: Secret, steps: seq<Step>)
    requires Reachable(s) && Enabled(s, Act(id, at, asked)) && s.requests[id] == Unpairing(Some(a), Some(r))
    requires After(Next(s, Act(id, at, asked)), steps).Some?
    ensures var u := After(Next(s, Act(id, at, asked)), steps).value; a !in u.tables.access && r !in u.tables.refresh
  {
    var users, now, before :| After(Initial(users, now), before) == Some(s);
    RunKeepsRevokers(Initial(users, now), before);
    assert Informed(s, s.requests[id]) && RevokesDelivered(s, s.requests[id]);
    var step := Act(id, at, asked);
    StepKeeps(s, step);
    DeliveredStays(s, step, a);
    DeliveredStays(s, step, r);
    GoneForGood(Next(s, step), steps, a, r);
  }

  // ----- presenting a rotated refresh token again -----

  /** A client that presents its own unexpired but consumed token moves on to the subject-wide revocation. */
  lemma ReuseIsPunished(s: System, id: nat, at: int, asked: seq<string>)
    requires Enabled(s, Act(id, at, asked)) && s.requests[id].LoadingRefresh?
    ensures var found := GetRefresh(s.tables, s.requests[id].token, s.now);
            var q := Acted(s, id, at, asked).requests[id];
            (q.Punishing? <==> found.Some? && found.value.client == s.requests[id].client && found.value.consumedAt.Some?)
            && (q.Punishing? ==> q.subject == found.value.subject)
            && (q.Marking? ==> found.value.consumedAt.None?)
  {
  }

  /** That revocation leaves no token row of the subject and touches nobody else's. */
  lemma PunishedSubjectHasNothing(s: System, id: nat, at: int, asked: seq<string>, k: Secret)
    requires Enabled(s, Act(id, at, asked)) && s.requests[id].Punishing?
    ensures var t, u, subject := s.tables, Acted(s, id, at, asked).tables, s.requests[id].subject;
            && u.pending == t.pending && u.codes == t.codes
            && (k in u.access <==> k in t.access && t.access[k].subject != subject)
            && (k in u.refresh <==> k in t.refresh && t.refresh[k].subject != subject)
            && (k in u.access ==> u.access[k] == t.access[k]) && (k in u.refresh ==> u.refresh[k] == t.refresh[k])
  {
  }

  /** A request about to punish does so or is dropped. */
  lemma {:induction false} PunishingStays(s: System, steps: seq<Step>, id: nat)
    requires After(s, steps).Some? && id in s.requests && (s.requests[id].Punishing? || s.requests[id].Over?)
    ensures var u := After(s, steps).value; id in u.requests && (u.requests[id] == s.requests[id] || u.requests[id] == Over)
  {
    if steps != [] {
      var before := steps[..|steps| - 1];
      PunishingStays(s, before, id);
      PunishingStep(After(s, before).value, steps[|steps| - 1], id);
    }
  }

  lemma PunishingStep(s: System, step: Step, id: nat)
    requires Enabled(s, step) && id in s.requests && (s.requests[id].Punishing? || s.requests[id].Over?)
    ensures var u := Next(s, step); id in u.requests && (u.requests[id] == s.requests[id] || u.requests[id] == Over)
  {
    if step.Act? {
      ActedRequests(s, step.id, step.at, step.asked);
    }
  }

  /** Every pair of the subject that has been handed out is out of the store after the punishing step. */
  lemma PunishedPairIsGone(s: System, id: nat, at: int, asked: seq<string>, a: Secret)
    requires Sound(s) && Enabled(s, Act(id, at, asked)) && s.requests[id].Punishing?
    requires a in s.mints && s.mints[a].subject == s.requests[id].subject && Delivered(s, a)
    ensures Gone(Acted(s, id, at, asked), a, s.mints[a].refresh)
  {
    var r := s.mints[a].refresh;
    var step := Act(id, at, asked);
    PartnerDelivered(s, a);
    DeliveredStays(s, step, a);
    DeliveredStays(s, step, r);
    RefreshKnown(s, r);
    PunishedSubjectHasNothing(s, id, at, asked, a);
    PunishedSubjectHasNothing(s, id, at, asked, r);
  }

  /** A request has just loaded its client's unexpired token, which had been rotated before. */
  predicate Reuses(s: System, id: nat, subject: string)
  {
    && id in s.requests && s.requests[id].LoadingRefresh?
    && var found := GetRefresh(s.tables, s.requests[id].token, s.now);
    && found.Some? && found.value.client == s.requests[id].client && found.value.consumedAt.Some?
    && found.value.subject == subject
  }

  /** `u` has no token row of the subject, and otherwise exactly the rows of `t`. */
  ghost predicate Wiped(t: Tables, u: Tables, subject: string)
  {
    && u.pending == t.pending && u.codes == t.codes
    && (forall k :: k in u.access <==> k in t.access && t.access[k].subject != subject)
    && (forall k :: k in u.refresh <==> k in t.refresh && t.refresh[k].subject != subject)
    && (forall k :: k in u.access ==> u.access[k] == t.access[k])
    && (forall k :: k in u.refresh ==> u.refresh[k] == t.refresh[k])
  }

  lemma ReachableOnwards(s: System, steps: seq<Step>)
    requires Sound(s) && After(s, steps).Some?
    ensures Sound(After(s, steps).value)
  {
    RunSound(s, steps);
  }

  /**
   * Reuse of a rotated refresh token wipes its subject, over whole runs.  A load of the owner's unexpired consumed token
   * turns the request to punishing; whatever happens before its next store call, that call leaves no token row of the
   * subject and every other row as it was; and no token of a pair of that subject handed out before then is in the store
   * in any later state.
   */
  lemma ReuseWipesSubject(s: System, id: nat, at: int, asked: seq<string>, subject: string, mid: seq<Step>,
                          at': int, asked': seq<string>, later: seq<Step>)
    requires Reachable(s) && Enabled(s, Act(id, at, asked)) && Reuses(s, id, subject)
    requires After(Next(s, Act(id, at, asked)), mid).Some?
    ensures Next(s, Act(id, at, asked)).requests[id] == Punishing(subject)
    ensures var u := After(Next(s, Act(id, at, asked)), mid).value;
            && id in u.requests && u.requests[id] in {Punishing(subject), Over}
            && (Enabled(u, Act(id, at', asked')) ==>
                  var v := Next(u, Act(id, at', asked'));
                  && Wiped(u.tables, v.tables, subject)
                  && (After(v, later).Some? ==> forall a :: a in u.mints && u.mints[a].subject == subject && Delivered(u, a) ==>
                        var w := After(v, later).value; a !in w.tables.access && u.mints[a].refresh !in w.tables.refresh))
  {
    hide Reachable, Sound, Wiped, Delivered, After;
    ReachableSound(s);
    ReuseIsPunished(s, id, at, asked);
    var s1 := Next(s, Act(id, at, asked));
    StepKeeps(s, Act(id, at, asked));
    PunishingStays(s1, mid, id);
    ReachableOnwards(s1, mid);
    var u := After(s1, mid).value;
    if Enabled(u, Act(id, at', asked')) {
      WipesForGood(u, id, at', asked', later);
    }
  }

  lemma WipesForGood(u: System, id: nat, at: int, asked: seq<string>, later: seq<Step>)
    requires Sound(u) && Enabled(u, Act(id, at, asked)) && u.requests[id].Punishing?
    ensures var v, subject := Next(u, Act(id, at, asked)), u.requests[id].subject;
            && Wiped(u.tables, v.tables, subject)
            && (After(v, later).Some? ==> forall a :: a in u.mints && u.mints[a].subject == subject && Delivered(u, a) ==>
                  var w := After(v, later).value; a !in w.tables.access && u.mints[a].refresh !in w.tables.refresh)
  {
    var v, subject := Next(u, Act(id, at, asked)), u.requests[id].subject;
    StepKeeps(u, Act(id, at, asked));
    if After(v, later).Some? {
      forall a | a in u.mints && u.mints[a].subject == subject && Delivered(u, a)
        ensures var w := After(v, later).value; a !in w.tables.access && u.mints[a].refresh !in w.tables.refresh
      {
        PunishedPairIsGone(u, id, at, asked, a);
        GoneForGood(v, later, a, u.mints[a].refresh);
      }
    }
  }

  /**
   * The condition on handed-out pairs is needed: a pair of the subject whose refresh row is still to be stored when the
   * subject is wiped can have that row stored afterwards.
   */
  lemma UnfinishedPairOutlivesWipe(s: System, id: nat, a: Secret)
    requires Reachable(s) && id in s.requests && s.requests[id].Punishing?
    requires a in s.mints && !Delivered(s, a) && s.mints[a].subject == s.requests[id].subject
    ensures exists jd: nat, v, w ::
              && jd in s.requests && v == Next(s, Act(id, s.now, [])) && Enabled(v, Act(jd, s.now, []))
              && w == Next(v, Act(jd, s.now, []))
              && Wiped(s.tables, v.tables, s.requests[id].subject) && s.mints[a].refresh in w.tables.refresh
  {
    hide Reachable, Wiped;
    ReachableSound(s);
    var jd :| jd in s.requests && s.requests[jd].Storing?
              && (s.requests[jd].mint.access == a || s.requests[jd].mint.refresh == a);
    assert Informed(s, s.requests[jd]);
    StoresAfterWipe(s, id, jd);
  }

  lemma StoresAfterWipe(s: System, id: nat, jd: nat)
    requires id in s.requests && s.requests[id].Punishing? && jd in s.requests && s.requests[jd].Storing?
    ensures var v := Next(s, Act(id, s.now, []));
            && Enabled(v, Act(jd, s.now, [])) && Wiped(s.tables, v.tables, s.requests[id].subject)
            && s.requests[jd].mint.refresh in Next(v, Act(jd, s.now, [])).tables.refresh
  {
    var v := Next(s, Act(id, s.now, []));
    assert v.requests[jd] == s.requests[jd];
  }

  // ----- overlapping refreshes -----

  lemma Extended(s0: System, steps: seq<Step>, s: System, step: Step)
    requires After(s0, steps) == Some(s) && Enabled(s, step)
    ensures After(s0, steps + [step]) == Some(Next(s, step))
  {
    assert (steps + [step])[..|steps|] == steps;
  }

  predicate Presentable(s: System, client: string, token: Secret)
  {
    && GetRefresh(s.tables, token, s.now).Some? && s.tables.refresh[token].client == client
    && s.tables.refresh[token].consumedAt.None? && s.tables.refresh[token].paired in s.mints
    && token < s.drawn && Delivered(s, token)
  }

  /** Two requests load the same unused token before either marks it. */
  lemma BothLoad(s: System, i: nat, j: nat, client: string, token: Secret) returns (steps: seq<Step>)
    requires i != j && i !in s.requests && j !in s.requests && Presentable(s, client, token)
    ensures var held := Marking(token, s.tables.refresh[token]);
            After(s, steps) == Some(s.(requests := s.requests[i := held][j := held]))
  {
    var held := Marking(token, s.tables.refresh[token]);
    var asks := LoadingRefresh(client, token);
    assert After(s, []) == Some(s);
    Extended(s, [], s, Begin(i, asks));
    var s1 := s.(requests := s.requests[i := asks]);
    Extended(s, [] + [Begin(i, asks)], s1, Act(i, s.now, []));
    var s2 := s.(requests := s.requests[i := held]);
    assert s1.requests[i := held] == s2.requests;
    assert Delivered(s2, token);
    steps := [] + [Begin(i, asks)] + [Act(i, s.now, [])];
    Extended(s, steps, s2, Begin(j, asks));
    var s3 := s2.(requests := s2.requests[j := asks]);
    Extended(s, steps + [Begin(j, asks)], s3, Act(j, s.now, []));
    assert s3.requests[j := held] == s2.requests[j := held];
    steps := steps + [Begin(j, asks)] + [Act(j, s.now, [])];
  }

  /** A request that holds a token marks it, whatever its row says by now, and goes on to issue a new pair. */
  lemma MarksAnyway(s0: System, before: seq<Step>, s: System, id: nat) returns (steps: seq<Step>, u: System)
    requires After(s0, before) == Some(s) && id in s.requests && s.requests[id].Marking? && s.requests[id].row.paired in s.mints
    ensures After(s0, steps) == Some(u) && u.mints == s.mints
    ensures id in u.requests && u.requests[id].Minting? && u.requests == s.requests[id := u.requests[id]]
    ensures u.requests[id].root == s.mints[s.requests[id].row.paired].root
  {
    var step := Act(id, s.now, []);
    Extended(s0, before, s, step);
    steps, u := before + [step], Next(s, step);
  }

  lemma UnusedAfterMint(t: Tables, mints: map<Secret, Mint>, m: Mint)
    requires m.access !in mints && m.refresh !in t.refresh
    ensures var more, refresh := mints[m.access := m], t.refresh[m.refresh := RefreshRow(m)];
            && Unused(refresh, m.refresh, more, m.root)
            && forall q, root :: Unused(t.refresh, q, mints, root) ==> Unused(refresh, q, more, root)
  {
  }

  lemma NewMintIsUnstored(s0: System, before: seq<Step>, s: System, m: Mint)
    requires Reachable(s0) && After(s0, before) == Some(s) && m.access == s.drawn && m.refresh == s.drawn + 1
    ensures m.access !in s.mints && m.refresh !in s.tables.refresh
  {
    ReachableSound(s0);
    RunSound(s0, before);
    NewTokenIsUnstored(s, m);
  }

  lemma Mints(s0: System, before: seq<Step>, s: System, id: nat) returns (steps: seq<Step>, v: System)
    requires Reachable(s0) && After(s0, before) == Some(s) && id in s.requests && s.requests[id].Minting?
    ensures After(s0, steps) == Some(v)
    ensures var m := NewMint(s, s.requests[id], s.now);
            && m.access !in s.mints && m.refresh !in s.tables.refresh && m.root == s.requests[id].root
            && v.mints == s.mints[m.access := m] && v.tables.refresh == s.tables.refresh
            && v.requests == s.requests[id := Storing(m)]
  {
    var step := Act(id, s.now, []);
    Extended(s0, before, s, step);
    NewMintIsUnstored(s0, before, s, NewMint(s, s.requests[id], s.now));
    steps, v := before + [step], Next(s, step);
  }

  lemma Stores(s0: System, before: seq<Step>, v: System, id: nat) returns (steps: seq<Step>, u: System, r: Secret)
    requires After(s0, before) == Some(v) && id in v.requests && v.requests[id].Storing?
    ensures After(s0, steps) == Some(u) && u.mints == v.mints && u.requests == v.requests[id := Over]
    ensures var m := v.requests[id].mint; r == m.refresh && u.tables.refresh == v.tables.refresh[r := RefreshRow(m)]
  {
    var step := Act(id, v.now, []);
    Extended(s0, before, v, step);
    steps, u, r := before + [step], Next(v, step), v.requests[id].mint.refresh;
  }

  /** Issuing adds an unused token to the chain and leaves every other unused token as it is. */
  lemma Issues(s0: System, before: seq<Step>, s: System, id: nat) returns (steps: seq<Step>, u: System, r: Secret)
    requires Reachable(s0) && After(s0, before) == Some(s) && id in s.requests && s.requests[id].Minting?
    ensures After(s0, steps) == Some(u) && r !in s.tables.refresh && Unused(u.tables.refresh, r, u.mints, s.requests[id].root)
    ensures forall q, root :: Unused(s.tables.refresh, q, s.mints, root) ==> Unused(u.tables.refresh, q, u.mints, root)
    ensures forall i :: i in s.requests && i != id ==> i in u.requests && u.requests[i] == s.requests[i]
  {
    var steps1, v := Mints(s0, before, s, id);
    UnusedAfterMint(s.tables, s.mints, v.requests[id].mint);
    steps, u, r := Stores(s0, steps1, v, id);
  }

  /**
   * The condition that refreshes of one token do not overlap is needed: from any state where an unused token can be
   * presented, two overlapping refreshes can leave its chain with two unused tokens.
   */
  lemma OverlappingRefreshesFork(s: System, i: nat, j: nat, client: string, token: Secret)
    requires Reachable(s) && i != j && i !in s.requests && j !in s.requests && Presentable(s, client, token)
    ensures exists steps, u, q, r ::
              && After(s, steps) == Some(u) && q != r
              && Unused(u.tables.refresh, q, u.mints, s.mints[s.tables.refresh[token].paired].root)
              && Unused(u.tables.refresh, r, u.mints, s.mints[s.tables.refresh[token].paired].root)
  {
    var steps1 := BothLoad(s, i, j, client, token);
    var s1 := After(s, steps1).value;
    var steps2, s2 := MarksAnyway(s, steps1, s1, i);
    var steps3, s3 := MarksAnyway(s, steps2, s2, j);
    var q, r;
    var steps4, s4: System;
    steps4, s4, q := Issues(s, steps3, s3, i);
    var steps5, s5: System;
    steps5, s5, r := Issues(s, steps4, s4, j);
  }
}
