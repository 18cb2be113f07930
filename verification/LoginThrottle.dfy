/** The login throttle: a pruned list of failure times per source address, against the whole history of failures. */
module LoginThrottle {
  import opened Common

  const MAX_ATTEMPTS := 5
  const LOCKOUT_SECONDS: real := 900.0

  /** What the rest of the callback makes of a request that was let through. */
  datatype Verdict = Malformed | WrongPassword | RightPassword

  datatype Reply = TooManyAttempts | BadRequest | Unauthorized | SignedIn

  /** What happened to the throttle, in order: a failure recorded at a time, or a success. */
  datatype Event = Failed(ip: string, at: real) | Succeeded(ip: string)

  /** `[t for t in attempts if now - t < LOGIN_LOCKOUT_SECONDS]` */
  function Recent(times: seq<real>, now: real): seq<real>
  {
    if times == [] then []
    else Recent(times[..|times| - 1], now) + if now - times[|times| - 1] < LOCKOUT_SECONDS then [times[|times| - 1]] else []
  }

  /** Every failure from this address since its last success, however old. */
  function Failures(events: seq<Event>, ip: string): seq<real>
  {
    if events == [] then []
    else
      match events[|events| - 1]
      case Failed(i, at) => Failures(events[..|events| - 1], ip) + if i == ip then [at] else []
      case Succeeded(i) => if i == ip then [] else Failures(events[..|events| - 1], ip)
  }

  // ----- facts about recent failures -----

  lemma {:induction false} RecentOfRecent(times: seq<real>, now: real, later: real)
    requires now <= later
    ensures Recent(Recent(times, now), later) == Recent(times, later)
  {
    if times != [] {
      var before, t := times[..|times| - 1], times[|times| - 1];
      RecentOfRecent(before, now, later);
      if now - t < LOCKOUT_SECONDS {
        RecentAppend(Recent(before, now), t, later);
      } else {
        assert Recent(times, now) == Recent(before, now);
      }
    }
  }

  lemma RecentAppend(times: seq<real>, t: real, now: real)
    ensures Recent(times + [t], now) == Recent(times, now) + if now - t < LOCKOUT_SECONDS then [t] else []
  {
    assert (times + [t])[..|times|] == times;
  }

  predicate Ordered(times: seq<real>)
  {
    forall i, j :: 0 <= i < j < |times| ==> times[i] <= times[j]
  }

  /** If the `k`-th last failure is recent, at least `k` are. */
  lemma {:induction false} AtLeastRecent(times: seq<real>, k: nat, now: real)
    requires Ordered(times) && 0 < k <= |times| && now - times[|times| - k] < LOCKOUT_SECONDS
    ensures |Recent(times, now)| >= k
  {
    if k > 1 {
      var before := times[..|times| - 1];
      AtLeastRecent(before, k - 1, now);
    }
  }

  /** If at least `k` failures are recent, the `k`-th last one is. */
  lemma {:induction false} RecentAtLeast(times: seq<real>, k: nat, now: real)
    requires Ordered(times) && 0 < k && |Recent(times, now)| >= k
    ensures k <= |times| && now - times[|times| - k] < LOCKOUT_SECONDS
  {
    var before, last := times[..|times| - 1], times[|times| - 1];
    if now - last >= LOCKOUT_SECONDS {
      RecentAtLeast(before, k, now);
    } else if k > 1 {
      RecentAtLeast(before, k - 1, now);
    }
  }

  /** Five failures, then a sixth, take at least a lockout period. */
  predicate Spread(times: seq<real>)
  {
    forall j :: 0 <= j < |times| ==> FarFromFifthBefore(times, j)
  }

  predicate FarFromFifthBefore(times: seq<real>, j: nat)
    requires j < |times|
  {
    j >= MAX_ATTEMPTS ==> times[j] - times[j - MAX_ATTEMPTS] >= LOCKOUT_SECONDS
  }

  /** One more failure stays clear of the fifth before it exactly when fewer than five are recent. */
  lemma SpreadGrows(times: seq<real>, at: real)
    requires Ordered(times)
    ensures Spread(times + [at]) <==> Spread(times) && |Recent(times, at)| < MAX_ATTEMPTS
  {
    var more, n := times + [at], |times|;
    assert forall j :: 0 <= j < n ==> (FarFromFifthBefore(more, j) <==> FarFromFifthBefore(times, j));
    assert Spread(more) <==> Spread(times) && FarFromFifthBefore(more, n);
    if |Recent(times, at)| >= MAX_ATTEMPTS {
      RecentAtLeast(times, MAX_ATTEMPTS, at);
    } else if n >= MAX_ATTEMPTS && at - times[n - MAX_ATTEMPTS] < LOCKOUT_SECONDS {
      AtLeastRecent(times, MAX_ATTEMPTS, at);
    }
  }

  /** How many of the failures lie in a span of time. */
  function CountIn(times: seq<real>, from: real, to: real): nat
  {
    if times == [] then 0
    else CountIn(times[..|times| - 1], from, to) + if from <= times[|times| - 1] <= to then 1 else 0
  }

  /** In any span shorter than the lockout period there are at most five. */
  lemma {:induction false} AtMostFiveInASpan(times: seq<real>, from: real, to: real)
    requires Ordered(times) && Spread(times) && to - from < LOCKOUT_SECONDS
    ensures CountIn(times, from, to) <= MAX_ATTEMPTS
  {
    if times != [] {
      var before, n := times[..|times| - 1], |times| - 1;
      assert forall j :: 0 <= j < n ==> (FarFromFifthBefore(times, j) <==> FarFromFifthBefore(before, j));
      AtMostFiveInASpan(before, from, to);
      if from <= times[n] <= to && n >= MAX_ATTEMPTS {
        assert FarFromFifthBefore(times, n);
        CountFromTail(before, MAX_ATTEMPTS - 1, from, to);
      } else if n < MAX_ATTEMPTS {
        CountBound(before, from, to);
      }
    }
  }

  lemma {:induction false} CountBound(times: seq<real>, from: real, to: real)
    ensures CountIn(times, from, to) <= |times|
  {
    if times != [] {
      CountBound(times[..|times| - 1], from, to);
    }
  }

  /** When the `k + 1`-th last failure is before the span, at most `k` are in it. */
  lemma {:induction false} CountFromTail(times: seq<real>, k: nat, from: real, to: real)
    requires Ordered(times) && k < |times| && times[|times| - 1 - k] < from
    ensures CountIn(times, from, to) <= k
  {
    var before := times[..|times| - 1];
    if k == 0 {
      NoneIn(times, from, to);
    } else {
      CountFromTail(before, k - 1, from, to);
    }
  }

  lemma {:induction false} NoneIn(times: seq<real>, from: real, to: real)
    requires forall i :: 0 <= i < |times| ==> times[i] < from
    ensures CountIn(times, from, to) == 0
  {
    if times != [] {
      NoneIn(times[..|times| - 1], from, to);
    }
  }

  /** Counting in two parts. */
  lemma {:induction false} CountInParts(a: seq<real>, b: seq<real>, from: real, to: real)
    ensures CountIn(a + b, from, to) == CountIn(a, from, to) + CountIn(b, from, to)
  {
    if b == [] {
      assert a + b == a;
    } else {
      var before := b[..|b| - 1];
      CountInParts(a, before, from, to);
      assert (a + b)[..|a + b| - 1] == a + before;
    }
  }

  // ----- what the throttle keeps -----

  /** Failures are recorded in order of time, and none in the future. */
  ghost predicate Chronological(events: seq<Event>, clock: real)
  {
    && (forall i :: 0 <= i < |events| && events[i].Failed? ==> events[i].at <= clock)
    && (forall i, j :: 0 <= i < j < |events| && events[i].Failed? && events[j].Failed? ==> events[i].at <= events[j].at)
  }

  lemma {:induction false} FailuresInOrder(events: seq<Event>, ip: string, clock: real)
    requires Chronological(events, clock)
    ensures Ordered(Failures(events, ip)) && forall i :: 0 <= i < |Failures(events, ip)| ==> Failures(events, ip)[i] <= clock
  {
    if events != [] {
      var before, last := events[..|events| - 1], events[|events| - 1];
      FailuresInOrder(before, ip, if last.Failed? then last.at else clock);
      assert Failures(before, ip) + [] == Failures(before, ip);
    }
  }

  /** No six failures of any address since its last success lie within a lockout period. */
  ghost predicate SpreadNow(events: seq<Event>)
  {
    forall ip :: Spread(Failures(events, ip))
  }

  /** At every moment of this history, no six failures of an address without a success between lie within a lockout period. */
  ghost predicate Spaced(events: seq<Event>)
  {
    forall n :: 0 <= n <= |events| ==> SpreadNow(events[..n])
  }

  lemma SpacedGrows(events: seq<Event>, e: Event)
    ensures Spaced(events + [e]) <==> Spaced(events) && SpreadNow(events + [e])
  {
    var more := events + [e];
    assert more[..|more|] == more;
    if Spaced(more) {
      forall n | 0 <= n <= |events|
        ensures SpreadNow(events[..n])
      {
        assert more[..n] == events[..n] && SpreadNow(more[..n]);
      }
      assert SpreadNow(more[..|more|]);
    }
    if Spaced(events) && SpreadNow(more) {
      forall n | 0 <= n <= |more|
        ensures SpreadNow(more[..n])
      {
        if n < |more| {
          assert more[..n] == events[..n] && SpreadNow(events[..n]);
        }
      }
    }
  }

  /** A failure keeps the history spaced exactly when fewer than five of its address are recent. */
  lemma FailureKeepsSpaced(events: seq<Event>, ip: string, at: real)
    requires Chronological(events, at)
    ensures Spaced(events + [Failed(ip, at)]) <==> Spaced(events) && |Recent(Failures(events, ip), at)| < MAX_ATTEMPTS
  {
    var more := events + [Failed(ip, at)];
    SpacedGrows(events, Failed(ip, at));
    FailuresInOrder(events, ip, at);
    SpreadGrows(Failures(events, ip), at);
    FailureAppends(events, ip, ip, at);
    assert events[..|events|] == events;
    if Spaced(events) {
      assert SpreadNow(events[..|events|]);
      forall i | i != ip
        ensures Spread(Failures(more, i))
      {
        FailureAppends(events, ip, i, at);
      }
    }
  }

  lemma SuccessKeepsSpaced(events: seq<Event>, ip: string)
    requires Spaced(events)
    ensures Spaced(events + [Succeeded(ip)])
  {
    SpacedGrows(events, Succeeded(ip));
    assert (events + [Succeeded(ip)])[..|events|] == events && events[..|events|] == events;
    assert SpreadNow(events[..|events|]);
    assert forall i :: Failures(events + [Succeeded(ip)], i) == if i == ip then [] else Failures(events, i);
  }

  /** Between two moments without a success, failures only accumulate. */
  lemma {:induction false} FailuresAccumulate(events: seq<Event>, ip: string, m: nat, n: nat)
    requires m <= n <= |events| && Succeeded(ip) !in events[m..n]
    ensures Failures(events[..n], ip) == Failures(events[..m], ip) + Failures(events[m..n], ip)
    decreases n
  {
    if m < n {
      assert events[m..n][..n - 1 - m] == events[m..n - 1] && events[..n][..n - 1] == events[..n - 1];
      assert events[m..n][n - 1 - m] == events[n - 1];
      FailuresAccumulate(events, ip, m, n - 1);
    } else {
      assert events[m..n] == [];
    }
  }

  lemma RecentFades(times: seq<real>, now: real, later: real)
    requires now <= later
    ensures |Recent(times, later)| <= |Recent(times, now)|
  {
    RecentOfRecent(times, now, later);
    RecentBound(Recent(times, now), later);
  }

  lemma {:induction false} RecentBound(times: seq<real>, now: real)
    ensures |Recent(times, now)| <= |times|
  {
    if times != [] {
      RecentBound(times[..|times| - 1], now);
    }
  }

  function Kept(attempts: map<string, seq<real>>, ip: string): seq<real>
  {
    if ip in attempts then attempts[ip] else []
  }

  /** From now on, the pruned list of an address shows the same recent failures as its whole history. */
  ghost predicate Agrees(attempts: map<string, seq<real>>, events: seq<Event>, ip: string, clock: real)
  {
    forall later: real :: later >= clock ==> Recent(Kept(attempts, ip), later) == Recent(Failures(events, ip), later)
  }

  lemma PruningAgrees(attempts: map<string, seq<real>>, events: seq<Event>, ip: string, clock: real, now: real)
    requires Agrees(attempts, events, ip, clock) && now >= clock && ip in attempts
    ensures Agrees(attempts[ip := Recent(attempts[ip], now)], events, ip, now)
  {
    forall later: real | later >= now
      ensures Recent(Recent(attempts[ip], now), later) == Recent(Failures(events, ip), later)
    {
      RecentOfRecent(attempts[ip], now, later);
    }
  }

  lemma FailureAppends(events: seq<Event>, ip: string, i: string, at: real)
    ensures Failures(events + [Failed(ip, at)], i) == if i == ip then Failures(events, i) + [at] else Failures(events, i)
  {
    assert (events + [Failed(ip, at)])[..|events|] == events;
    assert Failures(events, i) + [] == Failures(events, i);
  }

  lemma FailingAgrees(attempts: map<string, seq<real>>, events: seq<Event>, ip: string, clock: real, now: real)
    requires Agrees(attempts, events, ip, clock) && now >= clock
    ensures Agrees(attempts[ip := Kept(attempts, ip) + [now]], events + [Failed(ip, now)], ip, now)
  {
    FailureAppends(events, ip, ip, now);
    forall later: real | later >= now
      ensures Recent(Kept(attempts, ip) + [now], later) == Recent(Failures(events, ip) + [now], later)
    {
      RecentAppend(Kept(attempts, ip), now, later);
      RecentAppend(Failures(events, ip), now, later);
    }
  }

  lemma StillTrueLater(attempts: map<string, seq<real>>, events: seq<Event>, ip: string, clock: real, now: real)
    requires Agrees(attempts, events, ip, clock) && now >= clock
    ensures Agrees(attempts, events, ip, now)
  {
  }

  // ----- counting in the history itself -----

  /** At place `i` this address failed, in the last 15 minutes, and no success of it has followed. */
  predicate RecentFailureAt(events: seq<Event>, ip: string, now: real, i: int)
  {
    0 <= i < |events| && events[i].Failed? && events[i].ip == ip && now - events[i].at < 900.0 && Succeeded(ip) !in events[i..]
  }

  function RecentFailures(events: seq<Event>, ip: string, now: real): set<int>
  {
    set i | 0 <= i < |events| && RecentFailureAt(events, ip, now, i)
  }

  lemma RecentPlaceNext(before: seq<Event>, last: Event, ip: string, now: real, i: int)
    ensures RecentFailureAt(before + [last], ip, now, i) <==>
            if i == |before| then last.Failed? && last.ip == ip && now - last.at < 900.0
            else last != Succeeded(ip) && RecentFailureAt(before, ip, now, i)
  {
    if 0 <= i < |before| {
      assert (before + [last])[i..] == before[i..] + [last];
      assert last in (before + [last])[i..];
    } else if i == |before| {
      assert (before + [last])[i..] == [last];
    }
  }

  /** A new failure adds its place, if it is recent; a success of the address takes all places away. */
  lemma RecentFailuresNext(before: seq<Event>, last: Event, ip: string, now: real)
    ensures var places := RecentFailures(before, ip, now);
            |RecentFailures(before + [last], ip, now)| ==
            if last == Succeeded(ip) then 0
            else |places| + if last.Failed? && last.ip == ip && now - last.at < 900.0 then 1 else 0
  {
    hide RecentFailureAt;
    var places, more := RecentFailures(before, ip, now), RecentFailures(before + [last], ip, now);
    forall i
      ensures RecentFailureAt(before + [last], ip, now, i) <==>
              if i == |before| then last.Failed? && last.ip == ip && now - last.at < 900.0
              else last != Succeeded(ip) && RecentFailureAt(before, ip, now, i)
    {
      RecentPlaceNext(before, last, ip, now, i);
    }
    if last == Succeeded(ip) {
      assert more == {};
    } else if last.Failed? && last.ip == ip && now - last.at < 900.0 {
      assert more == places + {|before|};
    } else {
      assert more == places;
    }
  }

  lemma FailuresNext(before: seq<Event>, last: Event, ip: string)
    ensures Failures(before + [last], ip) ==
            if last == Succeeded(ip) then []
            else if last.Failed? && last.ip == ip then Failures(before, ip) + [last.at]
            else Failures(before, ip)
  {
    assert (before + [last])[..|before|] == before;
    assert Failures(before, ip) + [] == Failures(before, ip);
  }

  /** The places count what the pruned list of the provider counts. */
  lemma {:induction false} RecentByPlace(events: seq<Event>, ip: string, now: real)
    ensures |Recent(Failures(events, ip), now)| == |RecentFailures(events, ip, now)|
  {
    if events == [] {
      assert RecentFailures(events, ip, now) == {};
    } else {
      assert Recent([], now) == [];
      hide Recent, RecentFailures, Failures;
      var before, last := events[..|events| - 1], events[|events| - 1];
      assert events == before + [last];
      RecentByPlace(before, ip, now);
      RecentFailuresNext(before, last, ip, now);
      FailuresNext(before, last, ip);
      if last.Failed? {
        RecentAppend(Failures(before, ip), last.at, now);
      }
    }
  }

  /** At place `i` this address failed, within the span of time. */
  predicate FailureAt(events: seq<Event>, ip: string, from: real, to: real, i: int)
  {
    0 <= i < |events| && events[i].Failed? && events[i].ip == ip && from <= events[i].at <= to
  }

  function FailuresIn(stretch: seq<Event>, ip: string, from: real, to: real): set<int>
  {
    set i | 0 <= i < |stretch| && FailureAt(stretch, ip, from, to, i)
  }

  /** In a stretch without a success, the places count what the list of all failures counts. */
  lemma {:induction false} CountByPlace(stretch: seq<Event>, ip: string, from: real, to: real)
    requires Succeeded(ip) !in stretch
    ensures CountIn(Failures(stretch, ip), from, to) == |FailuresIn(stretch, ip, from, to)|
  {
    if stretch == [] {
      assert FailuresIn(stretch, ip, from, to) == {};
    } else {
      hide Failures, FailuresIn, FailureAt;
      var before, last := stretch[..|stretch| - 1], stretch[|stretch| - 1];
      assert stretch == before + [last];
      CountByPlace(before, ip, from, to);
      FailuresNext(before, last, ip);
      FailuresInNext(before, last, ip, from, to);
      if last.Failed? {
        CountInParts(Failures(before, ip), [last.at], from, to);
      }
    }
  }

  lemma FailuresInNext(before: seq<Event>, last: Event, ip: string, from: real, to: real)
    ensures |FailuresIn(before + [last], ip, from, to)| ==
            |FailuresIn(before, ip, from, to)| + if last.Failed? && last.ip == ip && from <= last.at <= to then 1 else 0
  {
    var places, more := FailuresIn(before, ip, from, to), FailuresIn(before + [last], ip, from, to);
    assert forall i :: FailureAt(before + [last], ip, from, to, i) <==>
                         if i == |before| then last.Failed? && last.ip == ip && from <= last.at <= to
                         else FailureAt(before, ip, from, to, i);
    hide FailureAt;
    assert more == if last.Failed? && last.ip == ip && from <= last.at <= to then places + {|before|} else places;
  }

  // ----- as the provider runs it -----

  class Throttle {
    var attempts: map<string, seq<real>>
    /** Everything that happened, never pruned, and the last reading of the clock. */
    ghost var events: seq<Event>
    ghost var clock: real

    ghost predicate Valid()
      reads this
    {
      Chronological(events, clock) && forall ip :: Agrees(attempts, events, ip, clock)
    }

    constructor (now: real)
      ensures Valid() && events == [] && clock == now && Spaced(events)
    {
      attempts, events, clock := map[], [], now;
    }

    /** `_check_login_rate_limit`: prune, then count. */
    method CheckRateLimit(ip: string, now: real) returns (refused: bool)
      requires Valid() && now >= clock
      modifies this
      ensures Valid() && events == old(events) && clock == now
      ensures refused <==> |Recent(Failures(events, ip), now)| >= MAX_ATTEMPTS
      ensures refused <==> |RecentFailures(events, ip, now)| >= 5
    {
      RecentByPlace(events, ip, now);
      ghost var before, last := attempts, clock;
      assert Agrees(before, events, ip, last);
      assert Recent(Kept(attempts, ip), now) == Recent(Failures(events, ip), now);
      clock := now;
      if Kept(attempts, ip) == [] {
        forall i
          ensures Agrees(attempts, events, i, now)
        {
          StillTrueLater(before, events, i, last, now);
        }
        return false;
      }
      var recent := Recent(attempts[ip], now);
      attempts := attempts[ip := recent];
      forall i
        ensures Agrees(attempts, events, i, now)
      {
        StillTrueLater(before, events, i, last, now);
        if i == ip {
          PruningAgrees(before, events, ip, last, now);
        }
      }
      return |recent| >= MAX_ATTEMPTS;
    }

    /**
     * `_record_login_failure`, which never looks at the list: with callbacks that overlap it may come after others have
     * filled it.  Six failures then lie within a lockout period exactly when five were recent already.
     */
    method RecordFailure(ip: string, now: real)
      requires Valid() && clock <= now
      modifies this
      ensures Valid() && events == old(events) + [Failed(ip, now)] && clock == now
      ensures Spaced(events) <==> Spaced(old(events)) && |Recent(Failures(old(events), ip), now)| < MAX_ATTEMPTS
    {
      ghost var before, history, last := attempts, events, clock;
      attempts := attempts[ip := Kept(attempts, ip) + [now]];
      events := events + [Failed(ip, now)];
      clock := now;
      FailureKeepsSpaced(history, ip, now);
      forall i
        ensures Agrees(attempts, events, i, now)
      {
        assert Agrees(before, history, i, last);
        FailureAppends(history, ip, i, now);
        if i == ip {
          FailingAgrees(before, history, ip, last, now);
        }
      }
    }

    /** `self._login_attempts.pop(ip, None)` */
    method Forget(ip: string)
      requires Valid()
      modifies this
      ensures Valid() && events == old(events) + [Succeeded(ip)] && clock == old(clock)
      ensures Spaced(old(events)) ==> Spaced(events)
    {
      ghost var before, history := attempts, events;
      attempts := attempts - {ip};
      events := events + [Succeeded(ip)];
      assert events[..|events| - 1] == history;
      if Spaced(history) {
        SuccessKeepsSpaced(history, ip);
      }
      forall i
        ensures Agrees(attempts, events, i, clock)
      {
        assert Agrees(before, history, i, clock);
      }
    }

    /**
     * `handle_login_callback`, its effect on the throttle: a request is refused exactly when five failures since
     * the address's last success are younger than the lockout period, and then nothing is recorded.
     */
    method HandleCallback(ip: string, verdict: Verdict, checked: real, now: real) returns (reply: Reply)
      requires Valid() && clock <= checked <= now
      modifies this
      ensures Valid() && (Spaced(old(events)) ==> Spaced(events))
      ensures reply == TooManyAttempts <==> |RecentFailures(old(events), ip, checked)| >= 5
      ensures events == old(events) + match reply
                                      case Unauthorized => [Failed(ip, now)]
                                      case SignedIn => [Succeeded(ip)]
                                      case _ => []
      ensures reply != TooManyAttempts ==>
                reply == match verdict case Malformed => BadRequest case WrongPassword => Unauthorized case RightPassword => SignedIn
    {
      RecentByPlace(events, ip, checked);
      var refused := CheckRateLimit(ip, checked);
      if refused {
        return TooManyAttempts;
      }
      match verdict
      case Malformed =>
        return BadRequest;
      case WrongPassword =>
        RecentFades(Failures(events, ip), checked, now);
        RecordFailure(ip, now);
        return Unauthorized;
      case RightPassword =>
        Forget(ip);
        return SignedIn;
    }

    /**
     * After callbacks one at a time, no stretch of the history without a success, however long ago, holds six failures
     * of an address in a span shorter than the lockout period.
     */
    lemma NeverSixInASpan(ip: string, m: nat, n: nat, from: real, to: real)
      requires Valid() && Spaced(events) && to - from < 900.0
      requires m <= n <= |events| && Succeeded(ip) !in events[m..n]
      ensures |FailuresIn(events[m..n], ip, from, to)| <= 5
    {
      CountByPlace(events[m..n], ip, from, to);
      assert SpreadNow(events[..n]);
      FailuresInOrder(events[..n], ip, clock);
      AtMostFiveInASpan(Failures(events[..n], ip), from, to);
      FailuresAccumulate(events, ip, m, n);
      CountInParts(Failures(events[..m], ip), Failures(events[m..n], ip), from, to);
    }
  }
}
