/** A service method's uninterrupted execution is one call's worth of steps of a whole run, from any state. */
module ServiceRuns {
  import opened Common
  import opened Domain
  import opened WriteTools
  import opened WriteProtocol
  import opened WriteRuns
  import opened Backend

  /** `s'` is `s` after the new call `c` has had effects `t`, and nothing else has happened. */
  predicate Solo(s: System, c: Call, t: Trace, s': System)
  {
    && s'.expiring == s.expiring && s'.initial == s.initial
    && s'.begun == s.begun + [c] && s'.active == s.active + {|s.begun|}
    && TraceOf(s'.log, |s.begun|) == t && s'.receipts == AfterPuts(s.receipts, Puts(t))
  }

  lemma StepsSnoc(s: System, steps: seq<Step>, step: Step)
    requires After(s, steps).Some? && Enabled(After(s, steps).value, step)
    ensures After(s, steps + [step]) == Some(Next(After(s, steps).value, step))
  {
    assert (steps + [step])[..|steps|] == steps;
  }

  /** The clock reads at least `now` from the start, and never runs backwards. */
  ghost predicate Forward(clock: nat -> int, now: int)
  {
    clock(0) >= now && forall i: nat :: clock(i) <= clock(i + 1)
  }

  lemma SoloEffect(s: System, c: Call, t: Trace, e: Effect, r: System)
    requires Solo(s, c, t, r) && !e.Answered? && Enabled(r, Act(|s.begun|, e))
    requires e.Put? ==> e.receipt.key == c.key
    ensures Solo(s, c, t + [e], Next(r, Act(|s.begun|, e))) && Next(r, Act(|s.begun|, e)).now == r.now
  {
    TraceOfAppend(r.log, Entry(|s.begun|, c.key, r.now, e), |s.begun|);
    CountsAppend(t, e);
    if e.Put? {
      AfterOnePut(s.receipts, Puts(t), e.receipt);
    }
  }

  lemma FaithfulEnables(s: System, c: Call, t: Trace, n: nat, replies: nat -> Reply, clock: nat -> int, r: System)
    requires n < |t| && Solo(s, c, t[..n], r) && RunOf(c, t[..n + 1]).Some? && r.now == clock(n)
    requires FaithfulAt(s.expiring, replies, clock, s.receipts, c, t, n)
    ensures Enabled(r, Act(|s.begun|, t[n]))
  {
    assert t[..n + 1] == t[..n] + [t[n]];
    RunOfStep(c, t[..n], t[n]);
    assert r.begun[|s.begun|] == c;
  }

  /** One faithful effect is a tick and an action of the run. */
  lemma SoloStep(s: System, c: Call, t: Trace, n: nat, replies: nat -> Reply, clock: nat -> int, s': System) returns (more: seq<Step>)
    requires n < |t| && Solo(s, c, t[..n], s') && RunOf(c, t[..n + 1]).Some?
    requires FaithfulAt(s.expiring, replies, clock, s.receipts, c, t, n) && s'.now <= clock(n)
    requires t[n].Put? ==> t[n].receipt.key == c.key
    ensures After(s', more).Some? && Solo(s, c, t[..n + 1], After(s', more).value) && After(s', more).value.now == clock(n)
  {
    assert t[..n + 1] == t[..n] + [t[n]];
    var tick, act := Tick(clock(n) - s'.now), Act(|s.begun|, t[n]);
    var r := Next(s', tick);
    FaithfulEnables(s, c, t, n, replies, clock, r);
    SoloEffect(s, c, t[..n], t[n], r);
    more := TwoSteps(s', tick, act);
  }

  lemma TwoSteps(s: System, a: Step, b: Step) returns (steps: seq<Step>)
    requires Enabled(s, a) && Enabled(Next(s, a), b)
    ensures After(s, steps) == Some(Next(Next(s, a), b))
  {
    steps := [a, b];
    assert After(s, []) == Some(s);
    StepsSnoc(s, [], a);
    assert [] + [a] == [a];
    StepsSnoc(s, [a], b);
    assert [a] + [b] == steps;
  }

  lemma {:induction false} StepsConcat(s: System, a: seq<Step>, b: seq<Step>)
    requires After(s, a).Some?
    ensures After(s, a + b) == After(After(s, a).value, b)
  {
    if b == [] {
      assert a + b == a;
    } else {
      StepsConcat(s, a, b[..|b| - 1]);
      assert (a + b)[..|a + b| - 1] == a + b[..|b| - 1];
    }
  }

  lemma PutIsOwn(c: Call, t: Trace, n: nat)
    requires n < |t| && RunOf(c, t[..n + 1]).Some? && t[n].Put?
    ensures t[n].receipt.key == c.key
  {
    assert t[..n + 1] == t[..n] + [t[n]];
    RunOfStep(c, t[..n], t[n]);
    PutKey(c, RunOf(c, t[..n]).value, t[n]);
  }

  lemma {:induction false} SoloPrefix(s: System, c: Call, t: Trace, n: nat, replies: nat -> Reply, clock: nat -> int) returns (steps: seq<Step>)
    requires Enabled(s, Start(c)) && RunOf(c, t).Some? && n <= |t| && Forward(clock, s.now)
    requires Numbered(s.begun, s.active, s.log)
    requires forall i :: 0 <= i < |t| ==> FaithfulAt(s.expiring, replies, clock, s.receipts, c, t, i)
    ensures After(s, steps).Some? && Solo(s, c, t[..n], After(s, steps).value)
    ensures After(s, steps).value.now <= clock(n)
  {
    if n == 0 {
      steps := [Start(c)];
      assert After(s, []) == Some(s);
      StepsSnoc(s, [], Start(c));
      assert [] + [Start(c)] == [Start(c)];
      UnseenTrace(s.log, |s.begun|);
    } else {
      var first := SoloPrefix(s, c, t, n - 1, replies, clock);
      CrashAnywhere(c, t, n);
      if t[n - 1].Put? {
        PutIsOwn(c, t, n - 1);
      }
      var more := SoloStep(s, c, t, n - 1, replies, clock, After(s, first).value);
      StepsConcat(s, first, more);
      steps := first + more;
    }
  }

  /**
   * What a service method did against its backend is a continuation of any run in which its key is free:
   * so every promise about whole runs covers it.
   */
  lemma MethodIsARun(s: System, c: Call, t: Trace, answer: Answer, replies: nat -> Reply, clock: nat -> int) returns (steps: seq<Step>)
    requires Numbered(s.begun, s.active, s.log) && Enabled(s, Start(c)) && RunOf(c, t) == Some(Closing(answer)) && Forward(clock, s.now)
    requires forall i :: 0 <= i < |t| ==> FaithfulAt(s.expiring, replies, clock, s.receipts, c, t, i)
    ensures After(s, steps).Some?
    ensures var s' := After(s, steps).value;
            && s'.begun == s.begun + [c] && s'.active == s.active
            && TraceOf(s'.log, |s.begun|) == t + [Answered(answer)]
            && s'.receipts == AfterPuts(s.receipts, Puts(t))
  {
    var first := SoloPrefix(s, c, t, |t|, replies, clock);
    assert t[..|t|] == t;
    SoloAnswer(s, c, t, answer, After(s, first).value);
    StepsSnoc(s, first, Act(|s.begun|, Answered(answer)));
    steps := first + [Act(|s.begun|, Answered(answer))];
  }

  lemma SoloAnswer(s: System, c: Call, t: Trace, answer: Answer, r: System)
    requires Solo(s, c, t, r) && RunOf(c, t) == Some(Closing(answer)) && |s.begun| !in s.active
    ensures Enabled(r, Act(|s.begun|, Answered(answer)))
    ensures var s' := Next(r, Act(|s.begun|, Answered(answer)));
            && s'.begun == s.begun + [c] && s'.active == s.active
            && TraceOf(s'.log, |s.begun|) == t + [Answered(answer)]
            && s'.receipts == AfterPuts(s.receipts, Puts(t))
  {
    assert r.begun[|s.begun|] == c;
    TraceOfAppend(r.log, Entry(|s.begun|, c.key, r.now, Answered(answer)), |s.begun|);
  }
}
