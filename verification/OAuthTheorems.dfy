/** The promises of the token endpoints, over every interleaved run. */
module OAuthTheorems {
  import opened Common
  import opened OAuthStore
  import opened OAuthRuns

  // ----- codes are single-use -----

  /** A code still in the table has issued nothing; no code issues two pairs. */
  ghost predicate SingleUse(codes: map<Secret, Code>, mints: map<Secret, Mint>, requests: map<nat, Request>)
  {
    && (forall a :: a in mints ==> mints[a].root !in codes)
    && (forall i :: i in requests && requests[i].Minting? ==> requests[i].root !in codes)
    && (forall a, b :: a in mints && b in mints && FromCode(mints[a]) && FromCode(mints[b]) && mints[a].root == mints[b].root
          ==> a == b)
    && (forall i, a :: i in requests && a in mints && MintsFromCode(requests[i]) && FromCode(mints[a])
          ==> requests[i].root != mints[a].root)
    && (forall i, j ::
          (i in requests && j in requests && MintsFromCode(requests[i]) && MintsFromCode(requests[j])
           && requests[i].root == requests[j].root) ==> i == j)
  }

  predicate FromCode(m: Mint)
  {
    m.parent.None?
  }

  predicate MintsFromCode(r: Request)
  {
    r.Minting? && r.parent.None?
  }

  lemma SingleUseRemoval(codes: map<Secret, Code>, fewer: map<Secret, Code>, mints: map<Secret, Mint>, requests: map<nat, Request>)
    requires SingleUse(codes, mints, requests) && fewer.Keys <= codes.Keys
    ensures SingleUse(fewer, mints, requests)
  {
  }

  lemma SingleUseMove(codes: map<Secret, Code>, mints: map<Secret, Mint>, requests: map<nat, Request>, id: nat, r: Request)
    requires SingleUse(codes, mints, requests)
    requires r.Minting? ==> r.parent.Some? && r.root !in codes
    ensures SingleUse(codes, mints, requests[id := r])
  {
  }

  /** Only the request whose delete found the row goes on, and the row is gone. */
  lemma SingleUseConsume(codes: map<Secret, Code>, mints: map<Secret, Mint>, requests: map<nat, Request>, id: nat, r: Request)
    requires SingleUse(codes, mints, requests) && r.Minting? && r.root in codes
    ensures SingleUse(codes - {r.root}, mints, requests[id := r])
  {
  }

  lemma SingleUseMint(codes: map<Secret, Code>, mints: map<Secret, Mint>, requests: map<nat, Request>, id: nat, m: Mint)
    requires SingleUse(codes, mints, requests) && m.access !in mints
    requires id in requests && requests[id].Minting? && m.root == requests[id].root && m.parent == requests[id].parent
    ensures SingleUse(codes, mints[m.access := m], requests[id := Storing(m)])
  {
  }

  lemma SingleUseCode(codes: map<Secret, Code>, mints: map<Secret, Mint>, requests: map<nat, Request>, id: nat, code: Secret, row: Code)
    requires SingleUse(codes, mints, requests)
    requires (forall a :: a in mints ==> mints[a].root != code) && (forall i :: i in requests && requests[i].Minting? ==> requests[i].root != code)
    requires id in requests && requests[id].Coding?
    ensures SingleUse(codes[code := row], mints, requests[id := Clearing(requests[id].state)])
  {
  }

  lemma NewCodeIsNoRoot(s: System)
    requires Sound(s)
    ensures forall a :: a in s.mints ==> s.mints[a].root != s.drawn
    ensures forall i :: i in s.requests && s.requests[i].Minting? ==> s.requests[i].root != s.drawn
  {
    forall i | i in s.requests && s.requests[i].Minting?
      ensures s.requests[i].root != s.drawn
    {
      assert Informed(s, s.requests[i]);
    }
  }

  ghost predicate CodesOnce(s: System)
  {
    SingleUse(s.tables.codes, s.mints, s.requests)
  }

  lemma LookedCodes(s: System, r: Request)
    requires !Writes(r)
    ensures Looked(s, r).1.codes.Keys <= s.tables.codes.Keys
    ensures Looked(s, r).0.Minting? ==>
              r.Consuming? && r.code in s.tables.codes && Looked(s, r).0.root == r.code && Looked(s, r).1.codes == s.tables.codes - {r.code}
  {
  }

  lemma ActKeepsCodes(s: System, id: nat, at: int, asked: seq<string>)
    requires Sound(s) && CodesOnce(s) && Enabled(s, Act(id, at, asked))
    ensures CodesOnce(Acted(s, id, at, asked))
  {
    var r := s.requests[id];
    assert Informed(s, r);
    if !Writes(r) {
      LookedCodes(s, r);
      var (q, t) := Looked(s, r);
      if q.Minting? {
        SingleUseConsume(s.tables.codes, s.mints, s.requests, id, q);
      } else {
        SingleUseMove(s.tables.codes, s.mints, s.requests, id, q);
        SingleUseRemoval(s.tables.codes, t.codes, s.mints, s.requests[id := q]);
      }
    } else if r.Coding? {
      NewCodeIsNoRoot(s);
      SingleUseCode(s.tables.codes, s.mints, s.requests, id, s.drawn, Acted(s, id, at, asked).tables.codes[s.drawn]);
    } else if r.Minting? {
      SingleUseMint(s.tables.codes, s.mints, s.requests, id, NewMint(s, r, at));
    } else {
      SingleUseMove(s.tables.codes, s.mints, s.requests, id, Acted(s, id, at, asked).requests[id]);
    }
  }

  lemma StepKeepsCodes(s: System, step: Step)
    requires Sound(s) && CodesOnce(s) && Enabled(s, step)
    ensures CodesOnce(Next(s, step))
  {
    match step
    case Begin(id, r) => SingleUseMove(s.tables.codes, s.mints, s.requests, id, r);
    case Act(id, at, asked) => ActKeepsCodes(s, id, at, asked);
    case Drop(id) => SingleUseMove(s.tables.codes, s.mints, s.requests, id, Over);
    case Sweep => SingleUseRemoval(s.tables.codes, Next(s, step).tables.codes, s.mints, s.requests);
    case _ =>
  }

  // ----- a rotation chain has one live end -----

  /** The chain that a request is about to extend. */
  function Extends(r: Request, mints: map<Secret, Mint>): Option<Secret>
  {
    match r
    case Minting(_, _, _, _, root, _) => Some(root)
    case Storing(m) => Some(m.root)
    case Marking(_, row) => if row.paired in mints then Some(mints[row.paired].root) else None
    case _ => None
  }

  predicate Unused(refresh: map<Secret, Refresh>, r: Secret, mints: map<Secret, Mint>, root: Secret)
  {
    r in refresh && refresh[r].consumedAt.None? && refresh[r].paired in mints && mints[refresh[r].paired].root == root
  }

  /** The chain has one unused token, or one request about to add one, or one request holding the unused token. */
  ghost predicate OneEnd(refresh: map<Secret, Refresh>, mints: map<Secret, Mint>, requests: map<nat, Request>, root: Secret)
  {
    && (forall r, q :: Unused(refresh, r, mints, root) && Unused(refresh, q, mints, root) ==> r == q)
    && (forall i, j ::
          (i in requests && j in requests && Extends(requests[i], mints) == Some(root)
           && Extends(requests[j], mints) == Some(root)) ==> i == j)
    && (forall i, r :: i in requests && Extends(requests[i], mints) == Some(root) && Unused(refresh, r, mints, root)
          ==> requests[i].Marking? && requests[i].token == r)
  }

  lemma OneEndRemoval(refresh: map<Secret, Refresh>, fewer: map<Secret, Refresh>, mints: map<Secret, Mint>,
                      requests: map<nat, Request>, root: Secret)
    requires OneEnd(refresh, mints, requests, root) && forall r :: r in fewer ==> r in refresh && fewer[r] == refresh[r]
    ensures OneEnd(fewer, mints, requests, root)
  {
    assert forall r :: Unused(fewer, r, mints, root) ==> Unused(refresh, r, mints, root);
  }

  lemma OneEndMove(refresh: map<Secret, Refresh>, mints: map<Secret, Mint>, requests: map<nat, Request>, root: Secret,
                   id: nat, r: Request)
    requires OneEnd(refresh, mints, requests, root) && Extends(r, mints) != Some(root)
    ensures OneEnd(refresh, mints, requests[id := r], root)
  {
  }

  /** A chain begins: its code was still in the table, so nothing had come of it. */
  lemma OneEndBegins(refresh: map<Secret, Refresh>, mints: map<Secret, Mint>, requests: map<nat, Request>, root: Secret,
                     id: nat, r: Request)
    requires OneEnd(refresh, mints, requests, root) && r.Minting?
    requires forall a :: a in mints ==> mints[a].root != r.root
    requires forall i :: i in requests ==> Extends(requests[i], mints) != Some(r.root)
    ensures OneEnd(refresh, mints, requests[id := r], root)
  {
  }

  lemma OneEndMint(refresh: map<Secret, Refresh>, mints: map<Secret, Mint>, requests: map<nat, Request>, root: Secret,
                   id: nat, m: Mint)
    requires OneEnd(refresh, mints, requests, root) && m.access !in mints
    requires id in requests && requests[id].Minting? && m.root == requests[id].root
    requires forall r :: r in refresh ==> refresh[r].paired in mints
    requires forall i :: i in requests && requests[i].Marking? ==> requests[i].row.paired in mints
    ensures OneEnd(refresh, mints[m.access := m], requests[id := Storing(m)], root)
  {
    var more := mints[m.access := m];
    assert forall r :: Unused(refresh, r, more, root) <==> Unused(refresh, r, mints, root);
    assert forall i :: i in requests ==> Extends(requests[i], more) == Extends(requests[i], mints);
  }

  lemma OneEndStore(refresh: map<Secret, Refresh>, mints: map<Secret, Mint>, requests: map<nat, Request>, root: Secret, id: nat)
    requires OneEnd(refresh, mints, requests, root)
    requires id in requests && requests[id].Storing? && var m := requests[id].mint; m.access in mints && mints[m.access] == m
    ensures var m := requests[id].mint; OneEnd(refresh[m.refresh := RefreshRow(m)], mints, requests[id := Over], root)
  {
    var m := requests[id].mint;
    var more := refresh[m.refresh := RefreshRow(m)];
    assert forall r :: Unused(more, r, mints, root) ==> Unused(refresh, r, mints, root) || (r == m.refresh && root == m.root);
    assert Extends(requests[id], mints) == Some(m.root);
  }

  lemma OneEndLoad(refresh: map<Secret, Refresh>, mints: map<Secret, Mint>, requests: map<nat, Request>, root: Secret,
                   id: nat, token: Secret)
    requires OneEnd(refresh, mints, requests, root)
    requires token in refresh && refresh[token].consumedAt.None? && refresh[token].paired in mints
    requires mints[refresh[token].paired].root == root ==>
               forall i :: i in requests && requests[i].Marking? ==> requests[i].token != token
    ensures OneEnd(refresh, mints, requests[id := Marking(token, refresh[token])], root)
  {
    assert Unused(refresh, token, mints, mints[refresh[token].paired].root);
  }

  lemma OneEndMark(refresh: map<Secret, Refresh>, mints: map<Secret, Mint>, requests: map<nat, Request>, root: Secret,
                   id: nat, r: Request, at: int)
    requires OneEnd(refresh, mints, requests, root)
    requires id in requests && requests[id].Marking? && r.Minting? && Extends(requests[id], mints) == Some(r.root)
    ensures var token := requests[id].token;
            OneEnd(if token in refresh then refresh[token := refresh[token].(consumedAt := Some(at))] else refresh,
                   mints, requests[id := r], root)
  {
    var token := requests[id].token;
    var marked := if token in refresh then refresh[token := refresh[token].(consumedAt := Some(at))] else refresh;
    assert forall q :: Unused(marked, q, mints, root) ==> Unused(refresh, q, mints, root) && q != token;
  }

  ghost predicate Chain(s: System, root: Secret)
  {
    OneEnd(s.tables.refresh, s.mints, s.requests, root)
  }

  /** Another request has loaded this refresh token and not yet marked it. */
  predicate Held(s: System, token: Secret)
  {
    exists id :: id in s.requests && s.requests[id].Marking? && s.requests[id].token == token
  }

  /** The chain that a stored refresh token belongs to. */
  predicate BelongsTo(s: System, token: Secret, root: Secret)
  {
    token in s.tables.refresh && s.tables.refresh[token].paired in s.mints && s.mints[s.tables.refresh[token].paired].root == root
  }

  /** A refresh loads a token of this chain while another one holds it. */
  predicate Overlaps(s: System, step: Step, root: Secret)
  {
    && step.Act? && step.id in s.requests && s.requests[step.id].LoadingRefresh?
    && BelongsTo(s, s.requests[step.id].token, root) && Held(s, s.requests[step.id].token)
  }

  /** In this run no two refreshes of a token of this chain overlap between load and mark. */
  predicate NonOverlapping(s: System, steps: seq<Step>, root: Secret)
  {
    steps == []
    || (var before := steps[..|steps| - 1];
        NonOverlapping(s, before, root)
        && (After(s, before).Some? ==> !Overlaps(After(s, before).value, steps[|steps| - 1], root)))
  }

  lemma LookedChains(s: System, r: Request)
    requires !Writes(r)
    ensures forall k :: k in Looked(s, r).1.refresh ==> k in s.tables.refresh && Looked(s, r).1.refresh[k] == s.tables.refresh[k]
    ensures var q := Looked(s, r).0;
            Extends(q, s.mints).Some? ==>
              || (q.Minting? && r.Consuming? && q.root == r.code && r.code in s.tables.codes)
              || (q.Marking? && r.LoadingRefresh? && q.token == r.token && r.token in s.tables.refresh
                  && q.row == s.tables.refresh[r.token] && q.row.consumedAt.None? && Looked(s, r).1.refresh == s.tables.refresh)
  {
  }

  lemma UnusedCodeHasNoChain(s: System, code: Secret)
    requires Sound(s) && CodesOnce(s) && code in s.tables.codes
    ensures forall a :: a in s.mints ==> s.mints[a].root != code
    ensures forall i :: i in s.requests ==> Extends(s.requests[i], s.mints) != Some(code)
  {
    forall i | i in s.requests
      ensures Extends(s.requests[i], s.mints) != Some(code)
    {
      assert Informed(s, s.requests[i]);
    }
  }

  lemma LookKeepsChain(s: System, id: nat, at: int, asked: seq<string>, root: Secret)
    requires Sound(s) && CodesOnce(s) && Chain(s, root) && Enabled(s, Act(id, at, asked)) && !Writes(s.requests[id])
    requires !Overlaps(s, Act(id, at, asked), root)
    ensures Chain(Acted(s, id, at, asked), root)
  {
    var r := s.requests[id];
    var (q, t) := Looked(s, r);
    LookedChains(s, r);
    if Extends(q, s.mints).None? {
      OneEndMove(s.tables.refresh, s.mints, s.requests, root, id, q);
    } else if q.Minting? {
      UnusedCodeHasNoChain(s, r.code);
      OneEndBegins(s.tables.refresh, s.mints, s.requests, root, id, q);
    } else {
      RefreshKnown(s, r.token);
      OneEndLoad(s.tables.refresh, s.mints, s.requests, root, id, r.token);
    }
    OneEndRemoval(s.tables.refresh, t.refresh, s.mints, s.requests[id := q], root);
  }

  lemma RowsAreMinted(s: System)
    requires Sound(s)
    ensures forall r :: r in s.tables.refresh ==> s.tables.refresh[r].paired in s.mints
    ensures forall i :: i in s.requests && s.requests[i].Marking? ==> s.requests[i].row.paired in s.mints
  {
    forall r | r in s.tables.refresh
      ensures s.tables.refresh[r].paired in s.mints
    {
      assert RefreshFits(s.mints, r, s.tables.refresh[r]);
    }
    forall i | i in s.requests && s.requests[i].Marking?
      ensures s.requests[i].row.paired in s.mints
    {
      assert Informed(s, s.requests[i]);
    }
  }

  lemma WriteKeepsChain(s: System, id: nat, at: int, asked: seq<string>, root: Secret)
    requires Sound(s) && Chain(s, root) && Enabled(s, Act(id, at, asked)) && Writes(s.requests[id])
    ensures Chain(Acted(s, id, at, asked), root)
  {
    var r := s.requests[id];
    var q := Acted(s, id, at, asked).requests[id];
    assert Informed(s, r);
    RowsAreMinted(s);
    match r
    case Coding(_, _, _, _) => OneEndMove(s.tables.refresh, s.mints, s.requests, root, id, q);
    case Minting(_, _, _, _, _, _) => OneEndMint(s.tables.refresh, s.mints, s.requests, root, id, NewMint(s, r, at));
    case Storing(_) => OneEndStore(s.tables.refresh, s.mints, s.requests, root, id);
    case Marking(_, _) => OneEndMark(s.tables.refresh, s.mints, s.requests, root, id, q, at);
  }

  lemma StepKeepsChain(s: System, step: Step, root: Secret)
    requires Sound(s) && CodesOnce(s) && Chain(s, root) && Enabled(s, step) && !Overlaps(s, step, root)
    ensures Chain(Next(s, step), root)
  {
    hide OneEnd, Sound, SingleUse, Overlaps, Acted;
    match step
    case Begin(id, r) => OneEndMove(s.tables.refresh, s.mints, s.requests, root, id, r);
    case Act(id, at, asked) =>
      if Writes(s.requests[id]) {
        WriteKeepsChain(s, id, at, asked, root);
      } else {
        LookKeepsChain(s, id, at, asked, root);
      }
    case Drop(id) => OneEndMove(s.tables.refresh, s.mints, s.requests, root, id, Over);
    case Sweep => OneEndRemoval(s.tables.refresh, Next(s, step).tables.refresh, s.mints, s.requests, root);
    case _ =>
  }

  lemma {:induction false} RunCodesOnce(s: System, steps: seq<Step>)
    requires Sound(s) && CodesOnce(s) && After(s, steps).Some?
    ensures CodesOnce(After(s, steps).value)
  {
    if steps != [] {
      RunSound(s, steps[..|steps| - 1]);
      RunCodesOnce(s, steps[..|steps| - 1]);
      StepKeepsCodes(After(s, steps[..|steps| - 1]).value, steps[|steps| - 1]);
    }
  }

  lemma {:induction false} RunKeepsChain(s: System, steps: seq<Step>, root: Secret)
    requires Sound(s) && CodesOnce(s) && Chain(s, root) && After(s, steps).Some? && NonOverlapping(s, steps, root)
    ensures Chain(After(s, steps).value, root)
  {
    if steps != [] {
      var before := steps[..|steps| - 1];
      RunSound(s, before);
      RunCodesOnce(s, before);
      RunKeepsChain(s, before, root);
      StepKeepsChain(After(s, before).value, steps[|steps| - 1], root);
    }
  }

  lemma ReachableCodesOnce(s: System)
    requires Reachable(s)
    ensures CodesOnce(s)
  {
    var users, now, steps :| After(Initial(users, now), steps) == Some(s);
    RunCodesOnce(Initial(users, now), steps);
  }

  // ----- the promises -----

  /** Under every interleaving, one authorization code is exchanged for at most one token pair. */
  lemma OnePairPerCode(s: System, a: Secret, b: Secret)
    requires Reachable(s) && a in s.mints && b in s.mints
    requires s.mints[a].parent.None? && s.mints[b].parent.None? && s.mints[a].root == s.mints[b].root
    ensures a == b
  {
    ReachableCodesOnce(s);
    assert FromCode(s.mints[a]) && FromCode(s.mints[b]);
  }

  /**
   * Every stored code and token goes back to a sign-in of its own client, as its own subject, with the password that is
   * configured for that subject.
   */
  lemma EverySubjectSignedIn(s: System, k: Secret)
    requires Reachable(s)
    ensures k in s.tables.codes ==>
              var row := s.tables.codes[k];
              k in s.grants && s.grants[k].client == row.client && s.grants[k].subject == row.subject
              && row.subject in s.users && s.users[row.subject] == s.grants[k].password
    ensures k in s.tables.access ==>
              var row := s.tables.access[k];
              k in s.mints &&
              var root := s.mints[k].root;
              root in s.grants && s.grants[root].client == row.client && s.grants[root].subject == row.subject
              && row.subject in s.users && s.users[row.subject] == s.grants[root].password
    ensures k in s.tables.refresh ==>
              var row := s.tables.refresh[k];
              row.paired in s.mints && s.mints[row.paired].refresh == k &&
              var root := s.mints[row.paired].root;
              root in s.grants && s.grants[root].client == row.client && s.grants[root].subject == row.subject
              && row.subject in s.users && s.users[row.subject] == s.grants[root].password
  {
    ReachableSound(s);
    if k in s.tables.codes {
      assert Descends(s.grants, k, s.tables.codes[k].client, s.tables.codes[k].subject);
    }
    if k in s.tables.access {
      assert Descends(s.grants, s.mints[k].root, s.tables.access[k].client, s.tables.access[k].subject);
    }
    if k in s.tables.refresh {
      RefreshKnown(s, k);
      assert Descends(s.grants, s.mints[s.tables.refresh[k].paired].root, s.tables.refresh[k].client, s.tables.refresh[k].subject);
    }
  }

  /**
   * Between any two store calls: an access row and a refresh row, either of which names the other, name each other,
   * share client and subject, and the access token expires first.
   */
  lemma PairsNameEachOther(s: System, a: Secret, r: Secret)
    requires Reachable(s) && a in s.tables.access && r in s.tables.refresh
    requires s.tables.access[a].paired == r || s.tables.refresh[r].paired == a
    ensures s.tables.access[a].paired == r && s.tables.refresh[r].paired == a
    ensures s.tables.access[a].client == s.tables.refresh[r].client && s.tables.access[a].subject == s.tables.refresh[r].subject
    ensures s.tables.access[a].expiresAt < s.tables.refresh[r].expiresAt
  {
    ReachableSound(s);
    RefreshKnown(s, r);
  }

  /**
   * In any run in which the refreshes of a chain's tokens do not overlap between load and mark, the chain holds at most
   * one unused refresh token.
   */
  lemma OneUnusedTokenPerChain(users: map<string, string>, now: int, steps: seq<Step>, s: System, root: Secret, q: Secret, r: Secret)
    requires After(Initial(users, now), steps) == Some(s) && NonOverlapping(Initial(users, now), steps, root)
    requires BelongsTo(s, q, root) && s.tables.refresh[q].consumedAt.None?
    requires BelongsTo(s, r, root) && s.tables.refresh[r].consumedAt.None?
    ensures q == r
  {
    RunKeepsChain(Initial(users, now), steps, root);
    assert Unused(s.tables.refresh, q, s.mints, root) && Unused(s.tables.refresh, r, s.mints, root);
  }
}
