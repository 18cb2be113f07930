/** The four keyed tables of the OAuth store, with expiry on read, and every store call as one atomic operation. */
module OAuthStore {
  import opened Common

  /** A secret value.  Tables are keyed by its hash; with an injective hash that is the secret itself. */
  type Secret = nat

  datatype Terms = Terms(
    redirectUri: string, explicitRedirect: bool, codeChallenge: string, resource: Option<string>, scopes: seq<string>)

  datatype Pending = Pending(client: string, terms: Terms, clientState: Option<string>, expiresAt: int)

  datatype Code = Code(client: string, subject: string, terms: Terms, expiresAt: int)

  datatype Access = Access(
    client: string, subject: string, resource: Option<string>, scopes: seq<string>, expiresAt: int, paired: Secret)

  datatype Refresh = Refresh(
    client: string, subject: string, scopes: seq<string>, expiresAt: int, paired: Secret, consumedAt: Option<int>)

  datatype Tables = Tables(
    pending: map<Secret, Pending>, codes: map<Secret, Code>, access: map<Secret, Access>, refresh: map<Secret, Refresh>)

  // ----- reading: a row past its expiry is deleted and not returned -----

  function GetPending(t: Tables, k: Secret, now: int): Option<Pending>
  {
    if k in t.pending && now <= t.pending[k].expiresAt then Some(t.pending[k]) else None
  }

  function GetCode(t: Tables, k: Secret, now: int): Option<Code>
  {
    if k in t.codes && now <= t.codes[k].expiresAt then Some(t.codes[k]) else None
  }

  function GetAccess(t: Tables, k: Secret, now: int): Option<Access>
  {
    if k in t.access && now <= t.access[k].expiresAt then Some(t.access[k]) else None
  }

  function GetRefresh(t: Tables, k: Secret, now: int): Option<Refresh>
  {
    if k in t.refresh && now <= t.refresh[k].expiresAt then Some(t.refresh[k]) else None
  }

  function ReadPending(t: Tables, k: Secret, now: int): Tables
  {
    if GetPending(t, k, now).None? then t.(pending := t.pending - {k}) else t
  }

  function ReadCode(t: Tables, k: Secret, now: int): Tables
  {
    if GetCode(t, k, now).None? then t.(codes := t.codes - {k}) else t
  }

  function ReadAccess(t: Tables, k: Secret, now: int): Tables
  {
    if GetAccess(t, k, now).None? then t.(access := t.access - {k}) else t
  }

  function ReadRefresh(t: Tables, k: Secret, now: int): Tables
  {
    if GetRefresh(t, k, now).None? then t.(refresh := t.refresh - {k}) else t
  }

  // ----- changing -----

  /** `UPDATE ... SET consumed_at`: nothing happens when the row is gone. */
  function Consume(t: Tables, k: Secret, at: int): Tables
  {
    if k in t.refresh then t.(refresh := t.refresh[k := t.refresh[k].(consumedAt := Some(at))]) else t
  }

  function SetOf(k: Option<Secret>): set<Secret>
  {
    if k.Some? then {k.value} else {}
  }

  function RevokePair(t: Tables, access: Option<Secret>, refresh: Option<Secret>): Tables
  {
    t.(access := t.access - SetOf(access), refresh := t.refresh - SetOf(refresh))
  }

  function RevokeAll(t: Tables, subject: string): Tables
  {
    t.(access := map k | k in t.access && t.access[k].subject != subject :: t.access[k],
       refresh := map k | k in t.refresh && t.refresh[k].subject != subject :: t.refresh[k])
  }

  function Purge(t: Tables, now: int): Tables
  {
    Tables(map k | k in t.pending && now < t.pending[k].expiresAt :: t.pending[k],
           map k | k in t.codes && now < t.codes[k].expiresAt :: t.codes[k],
           map k | k in t.access && now < t.access[k].expiresAt :: t.access[k],
           map k | k in t.refresh && now < t.refresh[k].expiresAt :: t.refresh[k])
  }

  /**
   * Purging deletes at the expiry itself, reading only after it: so a purge changes what a later read says
   * exactly when both happen at the very expiry of the row.
   */
  lemma PurgeShowsOnlyAtExpiry(t: Tables, k: Secret, now: int, later: int)
    requires now <= later
    ensures GetPending(Purge(t, now), k, later) == GetPending(t, k, later)
            <==> !(k in t.pending && t.pending[k].expiresAt == now == later)
    ensures GetCode(Purge(t, now), k, later) == GetCode(t, k, later)
            <==> !(k in t.codes && t.codes[k].expiresAt == now == later)
    ensures GetAccess(Purge(t, now), k, later) == GetAccess(t, k, later)
            <==> !(k in t.access && t.access[k].expiresAt == now == later)
    ensures GetRefresh(Purge(t, now), k, later) == GetRefresh(t, k, later)
            <==> !(k in t.refresh && t.refresh[k].expiresAt == now == later)
  {
    assert k in Purge(t, now).refresh <==> k in t.refresh && now < t.refresh[k].expiresAt;
  }

  // ----- the store object -----

  class Store {
    var pending: map<Secret, Pending>
    var codes: map<Secret, Code>
    var access: map<Secret, Access>
    var refresh: map<Secret, Refresh>

    function Contents(): Tables
      reads this
    {
      Tables(pending, codes, access, refresh)
    }

    constructor ()
      ensures Contents() == Tables(map[], map[], map[], map[])
    {
      pending, codes, access, refresh := map[], map[], map[], map[];
    }

    method PutPending(state: Secret, data: Pending)
      requires state !in pending
      modifies this
      ensures Contents() == old(Contents()).(pending := old(pending)[state := data])
    {
      pending := pending[state := data];
    }

    method GetPendingAuthorization(state: Secret, now: int) returns (found: Option<Pending>)
      modifies this
      ensures found == GetPending(old(Contents()), state, now) && Contents() == ReadPending(old(Contents()), state, now)
      ensures found == if state in old(pending) && now <= old(pending)[state].expiresAt then Some(old(pending)[state]) else None
      ensures pending == if state in old(pending) && now > old(pending)[state].expiresAt then old(pending) - {state} else old(pending)
    {
      if state in pending && pending[state].expiresAt < now {
        DeletePending(state);
        return None;
      }
      return if state in pending then Some(pending[state]) else None;
    }

    method DeletePending(state: Secret)
      modifies this
      ensures Contents() == old(Contents()).(pending := old(pending) - {state})
    {
      pending := pending - {state};
    }

    method PutCode(code: Secret, data: Code)
      requires code !in codes
      modifies this
      ensures Contents() == old(Contents()).(codes := old(codes)[code := data])
    {
      codes := codes[code := data];
    }

    method GetAuthorizationCode(code: Secret, now: int) returns (found: Option<Code>)
      modifies this
      ensures found == GetCode(old(Contents()), code, now) && Contents() == ReadCode(old(Contents()), code, now)
      ensures found == if code in old(codes) && now <= old(codes)[code].expiresAt then Some(old(codes)[code]) else None
      ensures codes == if code in old(codes) && now > old(codes)[code].expiresAt then old(codes) - {code} else old(codes)
    {
      if code in codes && codes[code].expiresAt < now {
        var deleted := DeleteCode(code);
        return None;
      }
      return if code in codes then Some(codes[code]) else None;
    }

    /** True exactly when a row was deleted, so that one caller of many learns that it was the first. */
    method DeleteCode(code: Secret) returns (deleted: bool)
      modifies this
      ensures deleted <==> code in old(codes)
      ensures Contents() == old(Contents()).(codes := old(codes) - {code})
    {
      deleted := code in codes;
      codes := codes - {code};
    }

    method PutAccess(token: Secret, data: Access)
      requires token !in access
      modifies this
      ensures Contents() == old(Contents()).(access := old(access)[token := data])
    {
      access := access[token := data];
    }

    method GetAccessToken(token: Secret, now: int) returns (found: Option<Access>)
      modifies this
      ensures found == GetAccess(old(Contents()), token, now) && Contents() == ReadAccess(old(Contents()), token, now)
      ensures found == if token in old(access) && now <= old(access)[token].expiresAt then Some(old(access)[token]) else None
      ensures access == if token in old(access) && now > old(access)[token].expiresAt then old(access) - {token} else old(access)
    {
      if token in access && access[token].expiresAt < now {
        access := access - {token};
        return None;
      }
      return if token in access then Some(access[token]) else None;
    }

    method PutRefresh(token: Secret, data: Refresh)
      requires token !in refresh && data.consumedAt == None
      modifies this
      ensures Contents() == old(Contents()).(refresh := old(refresh)[token := data])
    {
      refresh := refresh[token := data];
    }

    method GetRefreshToken(token: Secret, now: int) returns (found: Option<Refresh>)
      modifies this
      ensures found == GetRefresh(old(Contents()), token, now) && Contents() == ReadRefresh(old(Contents()), token, now)
      ensures found == if token in old(refresh) && now <= old(refresh)[token].expiresAt then Some(old(refresh)[token]) else None
      ensures refresh == if token in old(refresh) && now > old(refresh)[token].expiresAt then old(refresh) - {token} else old(refresh)
    {
      if token in refresh && refresh[token].expiresAt < now {
        refresh := refresh - {token};
        return None;
      }
      return if token in refresh then Some(refresh[token]) else None;
    }

    method MarkConsumed(token: Secret, now: int)
      modifies this
      ensures Contents() == Consume(old(Contents()), token, now)
    {
      if token in refresh {
        refresh := refresh[token := refresh[token].(consumedAt := Some(now))];
      }
    }

    method RevokeTokenPair(accessToken: Option<Secret>, refreshToken: Option<Secret>)
      modifies this
      ensures Contents() == RevokePair(old(Contents()), accessToken, refreshToken)
    {
      if accessToken.Some? {
        access := access - {accessToken.value};
      }
      if refreshToken.Some? {
        refresh := refresh - {refreshToken.value};
      }
    }

    method RevokeAllForSubject(subject: string)
      modifies this
      ensures Contents() == RevokeAll(old(Contents()), subject)
      ensures forall k :: k in access <==> k in old(access) && old(access)[k].subject != subject
      ensures forall k :: k in refresh <==> k in old(refresh) && old(refresh)[k].subject != subject
    {
      access := map k | k in access && access[k].subject != subject :: access[k];
      refresh := map k | k in refresh && refresh[k].subject != subject :: refresh[k];
    }

    method PurgeExpired(now: int)
      modifies this
      ensures Contents() == Purge(old(Contents()), now)
      ensures forall k :: k in pending <==> k in old(pending) && now < old(pending)[k].expiresAt
      ensures forall k :: k in codes <==> k in old(codes) && now < old(codes)[k].expiresAt
      ensures forall k :: k in access <==> k in old(access) && now < old(access)[k].expiresAt
      ensures forall k :: k in refresh <==> k in old(refresh) && now < old(refresh)[k].expiresAt
    {
      pending := map k | k in pending && now < pending[k].expiresAt :: pending[k];
      codes := map k | k in codes && now < codes[k].expiresAt :: codes[k];
      access := map k | k in access && now < access[k].expiresAt :: access[k];
      refresh := map k | k in refresh && now < refresh[k].expiresAt :: refresh[k];
    }
  }
}
