/** The session pool as one caller at a time sees it: generations, idle drops, and LRU eviction against a history. */
module SessionPool {
  import opened Common

  /** A validated session: the client that holds it, and the subject it was created for. */
  datatype Session = Session(owner: string, client: nat)

  datatype Pooled = Pooled(session: Session, generation: int, lastAccessed: real)

  /** The pool's dict, as its values in insertion order; the key of a value is its session's owner. */
  type Sessions = seq<Pooled>

  predicate Holds(pool: Sessions, subject: string)
  {
    exists i :: 0 <= i < |pool| && pool[i].session.owner == subject
  }

  function IndexOf(pool: Sessions, subject: string): (i: nat)
    requires Holds(pool, subject)
    ensures i < |pool| && pool[i].session.owner == subject
  {
    if pool[0].session.owner == subject then 0
    else
      assert exists j :: 0 <= j < |pool[1..]| && pool[1..][j].session.owner == subject by {
        var j :| 0 <= j < |pool| && pool[j].session.owner == subject;
        assert pool[1..][j - 1] == pool[j];
      }
      IndexOf(pool[1..], subject) + 1
  }

  predicate OnePerSubject(pool: Sessions)
  {
    forall i, j :: 0 <= i < j < |pool| ==> pool[i].session.owner != pool[j].session.owner
  }

  function RemoveAt(pool: Sessions, i: nat): Sessions
    requires i < |pool|
  {
    pool[..i] + pool[i + 1..]
  }

  /** `min(values, key=last_accessed)`: the first of the least recently used. */
  function Oldest(pool: Sessions): (i: nat)
    requires pool != []
    ensures i < |pool|
    ensures forall j :: 0 <= j < |pool| ==> pool[i].lastAccessed <= pool[j].lastAccessed
    ensures forall j :: 0 <= j < i ==> pool[i].lastAccessed < pool[j].lastAccessed
  {
    if |pool| == 1 then 0
    else
      var k := Oldest(pool[..|pool| - 1]);
      if pool[|pool| - 1].lastAccessed < pool[k].lastAccessed then |pool| - 1 else k
  }

  // ----- the reference: most recently acquired subjects -----

  function Without(subjects: seq<string>, s: string): (r: seq<string>)
    ensures s !in r && (forall x :: x in r <==> x in subjects && x != s) && |r| <= |subjects|
  {
    if subjects == [] then []
    else if subjects[0] == s then Without(subjects[1..], s)
    else [subjects[0]] + Without(subjects[1..], s)
  }

  /** The distinct subjects of a history of acquires, most recent first. */
  function ByRecency(history: seq<string>): seq<string>
  {
    if history == [] then [] else [history[|history| - 1]] + Without(ByRecency(history[..|history| - 1]), history[|history| - 1])
  }

  /** The first `n`, or all of them. */
  function Top(subjects: seq<string>, n: nat): seq<string>
  {
    if |subjects| <= n then subjects else subjects[..n]
  }

  /** The `n` most recently acquired distinct subjects. */
  function MostRecent(history: seq<string>, n: nat): seq<string>
  {
    Top(ByRecency(history), n)
  }

  predicate Different(subjects: seq<string>)
  {
    forall i, j :: 0 <= i < j < |subjects| ==> subjects[i] != subjects[j]
  }

  /** When each pooled subject was last used. */
  ghost function LastUse(pool: Sessions): map<string, real>
  {
    if pool == [] then map[]
    else LastUse(pool[..|pool| - 1])[pool[|pool| - 1].session.owner := pool[|pool| - 1].lastAccessed]
  }

  /** Exactly these subjects are in use, most recently used first. */
  ghost predicate InOrder(use: map<string, real>, subjects: seq<string>)
  {
    (forall s :: s in use <==> s in subjects) && Decreasing(use, subjects)
  }

  /** Each subject was used after all that follow it. */
  ghost predicate Decreasing(use: map<string, real>, subjects: seq<string>)
  {
    subjects == [] ||
    (&& subjects[0] in use
     && (forall x :: x in subjects[1..] && x in use ==> use[subjects[0]] > use[x])
     && Decreasing(use, subjects[1..]))
  }

  // ----- facts about recency -----

  lemma {:induction false} WithoutAbsent(subjects: seq<string>, s: string)
    requires s !in subjects
    ensures Without(subjects, s) == subjects
  {
    if subjects != [] {
      WithoutAbsent(subjects[1..], s);
    }
  }

  lemma {:induction false} WithoutKeepsOrder(subjects: seq<string>, s: string)
    requires Different(subjects)
    ensures Different(Without(subjects, s))
  {
    if subjects != [] {
      WithoutKeepsOrder(subjects[1..], s);
      if subjects[0] != s {
        ConsDifferent(subjects[0], Without(subjects[1..], s));
      }
    }
  }

  lemma ConsDifferent(x: string, rest: seq<string>)
    requires Different(rest) && x !in rest
    ensures Different([x] + rest)
  {
  }

  lemma {:induction false} RecencyIsDistinct(history: seq<string>)
    ensures Different(ByRecency(history))
  {
    if history != [] {
      var before, last := history[..|history| - 1], history[|history| - 1];
      RecencyIsDistinct(before);
      WithoutKeepsOrder(ByRecency(before), last);
    }
  }

  /** Removing an element at position `k` keeps what comes before it and moves up what comes after. */
  lemma {:induction false} WithoutAt(subjects: seq<string>, k: nat)
    requires Different(subjects) && k < |subjects|
    ensures Without(subjects, subjects[k]) == subjects[..k] + subjects[k + 1..]
  {
    if k == 0 {
      WithoutAbsent(subjects[1..], subjects[0]);
    } else {
      WithoutAt(subjects[1..], k - 1);
      assert subjects[..k] == [subjects[0]] + subjects[1..][..k - 1];
      assert subjects[k + 1..] == subjects[1..][k..];
    }
  }

  function Subjects(history: seq<string>): set<string>
  {
    set s | s in history
  }

  lemma SubjectsOf(a: seq<string>, b: seq<string>)
    ensures Subjects(a + b) == Subjects(a) + Subjects(b)
  {
  }

  /** What comes before a subject stays before it when another one is removed. */
  lemma {:induction false} WithoutPrefix(subjects: seq<string>, x: string, j: nat) returns (k: nat)
    requires j < |Without(subjects, x)|
    ensures k < |subjects| && subjects[k] == Without(subjects, x)[j]
    ensures Subjects(Without(subjects, x)[..j]) == Subjects(subjects[..k]) - {x}
  {
    var rest := Without(subjects[1..], x);
    if subjects[0] == x {
      k := WithoutPrefix(subjects[1..], x, j);
      k := k + 1;
      assert subjects[..k] == [x] + subjects[1..][..k - 1];
      SubjectsOf([x], subjects[1..][..k - 1]);
    } else if j == 0 {
      k := 0;
    } else {
      k := WithoutPrefix(subjects[1..], x, j - 1);
      k := k + 1;
      assert subjects[..k] == [subjects[0]] + subjects[1..][..k - 1];
      assert Without(subjects, x)[..j] == [subjects[0]] + rest[..j - 1];
      SubjectsOf([subjects[0]], subjects[1..][..k - 1]);
      SubjectsOf([subjects[0]], rest[..j - 1]);
    }
  }

  /** The subjects that come before one in the order of recency are those acquired since its own last acquire. */
  lemma {:induction false} AcquiredSince(history: seq<string>, k: nat) returns (i: nat)
    requires k < |ByRecency(history)|
    ensures i < |history| && history[i] == ByRecency(history)[k] && history[i] !in history[i + 1..]
    ensures Subjects(ByRecency(history)[..k]) == Subjects(history[i + 1..])
  {
    var before, x := history[..|history| - 1], history[|history| - 1];
    var subjects := ByRecency(before);
    if k == 0 {
      i := |history| - 1;
    } else {
      var j := WithoutPrefix(subjects, x, k - 1);
      i := AcquiredSince(before, j);
      assert history[i + 1..] == before[i + 1..] + [x];
      assert ByRecency(history)[..k] == [x] + Without(subjects, x)[..k - 1];
      SubjectsOf(before[i + 1..], [x]);
      SubjectsOf([x], Without(subjects, x)[..k - 1]);
    }
  }

  lemma {:induction false} CountSubjects(subjects: seq<string>)
    requires Different(subjects)
    ensures |Subjects(subjects)| == |subjects|
  {
    if subjects != [] {
      var before, x := subjects[..|subjects| - 1], subjects[|subjects| - 1];
      CountSubjects(before);
      assert Subjects(subjects) == Subjects(before) + {x};
    }
  }

  lemma {:induction false} RecentWereAcquired(history: seq<string>, s: string)
    ensures s in ByRecency(history) <==> s in history
  {
    if history != [] {
      RecentWereAcquired(history[..|history| - 1], s);
      assert history == history[..|history| - 1] + [history[|history| - 1]];
    }
  }

  /**
   * A subject is among the `n` most recent exactly when it was acquired, and fewer than `n` others were acquired since its
   * own last acquire.
   */
  lemma MostRecentMeans(history: seq<string>, n: nat, s: string)
    ensures s in MostRecent(history, n) <==>
            exists i :: 0 <= i < |history| && history[i] == s && s !in history[i + 1..] && |Subjects(history[i + 1..])| < n
  {
    RecencyIsDistinct(history);
    RecentWereAcquired(history, s);
    if s in history {
      var subjects := ByRecency(history);
      var k :| 0 <= k < |subjects| && subjects[k] == s;
      var i := AcquiredSince(history, k);
      CountSubjects(subjects[..k]);
      InTop(subjects, n, k);
      forall j | 0 <= j < |history| && history[j] == s && s !in history[j + 1..]
        ensures j == i
      {
        OnlyLast(history, i, j);
      }
    }
  }

  lemma OnlyLast(history: seq<string>, i: nat, j: nat)
    requires i < |history| && j < |history| && history[i] == history[j]
    requires history[i] !in history[i + 1..] && history[j] !in history[j + 1..]
    ensures i == j
  {
  }

  lemma InTop(subjects: seq<string>, n: nat, k: nat)
    requires Different(subjects) && k < |subjects|
    ensures subjects[k] in Top(subjects, n) <==> k < n
  {
    if k < n {
      assert Top(subjects, n)[k] == subjects[k];
    }
  }

  lemma EarlyIsInTop(subjects: seq<string>, n: nat, k: nat)
    requires k < |subjects| && n <= |subjects|
    ensures k < n ==> subjects[k] in subjects[..n]
  {
    if k < n {
      assert subjects[..n][k] == subjects[k];
    }
  }

  /** Acquiring one of the most recent `n` moves it to the front. */
  lemma TopAfterHit(subjects: seq<string>, s: string, n: nat)
    requires Different(subjects) && n >= 1 && s in Top(subjects, n)
    ensures Top([s] + Without(subjects, s), n) == [s] + Without(Top(subjects, n), s)
  {
    hide Without;
    var top, rest := Top(subjects, n), Without(subjects, s);
    var k :| 0 <= k < |top| && top[k] == s;
    WithoutAt(subjects, k);
    WithoutAt(top, k);
    assert subjects[k] == s;
    if |subjects| > n {
      assert ([s] + rest)[..n] == [s] + (subjects[..k] + subjects[k + 1..n]);
      assert top[..k] + top[k + 1..] == subjects[..k] + subjects[k + 1..n];
    }
  }

  /** Acquiring a subject outside a full window drops the last of it. */
  lemma TopAfterMiss(subjects: seq<string>, s: string, n: nat)
    requires Different(subjects) && 1 <= n < |subjects| && s !in Top(subjects, n)
    ensures Top([s] + Without(subjects, s), n) == [s] + Top(subjects, n)[..n - 1]
  {
    var top, rest := Top(subjects, n), Without(subjects, s);
    if s in subjects {
      var k :| 0 <= k < |subjects| && subjects[k] == s;
      EarlyIsInTop(subjects, n, k);
      WithoutAt(subjects, k);
    } else {
      WithoutAbsent(subjects, s);
    }
    assert ([s] + rest)[..n] == [s] + subjects[..n - 1];
    assert top[..n - 1] == subjects[..n - 1];
  }

  /** What acquiring `s` does to the most recent `n`: it comes first, and only a full window without it drops its last. */
  lemma TopAfter(subjects: seq<string>, s: string, n: nat)
    requires Different(subjects) && n >= 1
    ensures var top, next := Top(subjects, n), Top([s] + Without(subjects, s), n);
            next == [s] + if s in top || |top| < n then Without(top, s) else top[..n - 1]
  {
    var top, rest := Top(subjects, n), Without(subjects, s);
    if s in top {
      TopAfterHit(subjects, s, n);
    } else if |subjects| > n {
      TopAfterMiss(subjects, s, n);
    } else {
      WithoutAbsent(subjects, s);
      assert top == subjects && rest == subjects;
      if |subjects| == n {
        assert ([s] + rest)[..n] == [s] + subjects[..n - 1];
      }
    }
  }

  // ----- the order of use, under the pool's edits -----

  lemma {:induction false} UseAt(pool: Sessions, i: nat)
    requires OnePerSubject(pool) && i < |pool|
    ensures pool[i].session.owner in LastUse(pool) && LastUse(pool)[pool[i].session.owner] == pool[i].lastAccessed
  {
    if i < |pool| - 1 {
      UseAt(pool[..|pool| - 1], i);
    }
  }

  lemma {:induction false} UseHolds(pool: Sessions, s: string)
    ensures s in LastUse(pool) <==> Holds(pool, s)
  {
    if pool != [] {
      var before, last := pool[..|pool| - 1], pool[|pool| - 1];
      UseHolds(before, s);
      if Holds(before, s) {
        var i :| 0 <= i < |before| && before[i].session.owner == s;
        assert pool[i].session.owner == s;
      }
      if Holds(pool, s) && last.session.owner != s {
        var i :| 0 <= i < |pool| && pool[i].session.owner == s;
        assert before[i].session.owner == s;
      }
    }
  }

  /** Two pools that agree on who holds what have the same order of use. */
  lemma UseExtensional(pool: Sessions, use: map<string, real>)
    requires OnePerSubject(pool)
    requires forall s :: s in use <==> Holds(pool, s)
    requires forall i :: 0 <= i < |pool| ==> pool[i].session.owner in use && use[pool[i].session.owner] == pool[i].lastAccessed
    ensures LastUse(pool) == use
  {
    forall s
      ensures s in LastUse(pool) <==> s in use
      ensures s in use ==> LastUse(pool)[s] == use[s]
    {
      UseHolds(pool, s);
      if s in use {
        UseAt(pool, IndexOf(pool, s));
      }
    }
  }

  lemma HoldsAt(pool: Sessions, i: nat)
    requires i < |pool|
    ensures Holds(pool, pool[i].session.owner)
  {
  }

  lemma AppendUse(pool: Sessions, p: Pooled)
    requires OnePerSubject(pool) && !Holds(pool, p.session.owner)
    ensures OnePerSubject(pool + [p]) && LastUse(pool + [p]) == LastUse(pool)[p.session.owner := p.lastAccessed]
  {
    assert (pool + [p])[..|pool|] == pool;
    forall i | 0 <= i < |pool|
      ensures pool[i].session.owner != p.session.owner
    {
      HoldsAt(pool, i);
    }
  }

  lemma RemovedFrom(pool: Sessions, i: nat, j: nat)
    requires i < |pool| && j < |pool| - 1
    ensures RemoveAt(pool, i)[j] == pool[if j < i then j else j + 1]
  {
  }

  lemma RemoveHolds(pool: Sessions, i: nat, s: string)
    requires OnePerSubject(pool) && i < |pool|
    ensures Holds(RemoveAt(pool, i), s) <==> Holds(pool, s) && s != pool[i].session.owner
  {
    var rest := RemoveAt(pool, i);
    if Holds(pool, s) && s != pool[i].session.owner {
      var j :| 0 <= j < |pool| && pool[j].session.owner == s;
      RemovedFrom(pool, i, if j < i then j else j - 1);
      assert rest[if j < i then j else j - 1].session.owner == s;
    }
    if Holds(rest, s) {
      var j :| 0 <= j < |rest| && rest[j].session.owner == s;
      RemovedFrom(pool, i, j);
      HoldsAt(pool, if j < i then j else j + 1);
    }
  }

  lemma RemoveKeepsOne(pool: Sessions, i: nat)
    requires OnePerSubject(pool) && i < |pool|
    ensures OnePerSubject(RemoveAt(pool, i))
  {
    var rest := RemoveAt(pool, i);
    forall j, k | 0 <= j < k < |rest|
      ensures rest[j].session.owner != rest[k].session.owner
    {
      RemovedFrom(pool, i, j);
      RemovedFrom(pool, i, k);
    }
  }

  lemma RemoveUse(pool: Sessions, i: nat)
    requires OnePerSubject(pool) && i < |pool|
    ensures OnePerSubject(RemoveAt(pool, i)) && LastUse(RemoveAt(pool, i)) == LastUse(pool) - {pool[i].session.owner}
    ensures !Holds(RemoveAt(pool, i), pool[i].session.owner)
  {
    var rest, use := RemoveAt(pool, i), LastUse(pool) - {pool[i].session.owner};
    RemoveKeepsOne(pool, i);
    RemoveHolds(pool, i, pool[i].session.owner);
    forall s
      ensures s in use <==> Holds(rest, s)
    {
      UseHolds(pool, s);
      RemoveHolds(pool, i, s);
    }
    forall j | 0 <= j < |rest|
      ensures rest[j].session.owner in use && use[rest[j].session.owner] == rest[j].lastAccessed
    {
      RemovedFrom(pool, i, j);
      UseAt(pool, if j < i then j else j + 1);
    }
    UseExtensional(rest, use);
  }

  lemma TouchUse(pool: Sessions, i: nat, p: Pooled)
    requires OnePerSubject(pool) && i < |pool| && p.session.owner == pool[i].session.owner
    ensures OnePerSubject(pool[i := p]) && LastUse(pool[i := p]) == LastUse(pool)[p.session.owner := p.lastAccessed]
  {
    var touched, use := pool[i := p], LastUse(pool)[p.session.owner := p.lastAccessed];
    forall s
      ensures s in use <==> Holds(touched, s)
    {
      UseHolds(pool, s);
      if Holds(pool, s) {
        var j :| 0 <= j < |pool| && pool[j].session.owner == s;
        assert touched[j].session.owner == s;
      }
      if Holds(touched, s) {
        var j :| 0 <= j < |touched| && touched[j].session.owner == s;
        assert pool[j].session.owner == s;
      }
      if s == p.session.owner {
        assert touched[i].session.owner == s;
      }
    }
    forall j | 0 <= j < |touched|
      ensures touched[j].session.owner in use && use[touched[j].session.owner] == touched[j].lastAccessed
    {
      UseAt(pool, j);
    }
    UseExtensional(touched, use);
  }

  lemma {:induction false} UseCount(pool: Sessions)
    requires OnePerSubject(pool)
    ensures |LastUse(pool)| == |pool|
  {
    if pool != [] {
      var before, last := pool[..|pool| - 1], pool[|pool| - 1];
      UseCount(before);
      UseHolds(before, last.session.owner);
      assert LastUse(pool).Keys == LastUse(before).Keys + {last.session.owner};
    }
  }

  lemma {:induction false} DifferentCount(subjects: seq<string>, keys: set<string>)
    requires Different(subjects) && forall s :: s in keys <==> s in subjects
    ensures |keys| == |subjects|
  {
    if subjects == [] {
      assert keys == {};
    } else {
      DifferentCount(subjects[1..], keys - {subjects[0]});
    }
  }

  lemma {:induction false} DecreasingElsewhere(use: map<string, real>, subjects: seq<string>, s: string, t: real)
    requires Decreasing(use, subjects)
    ensures Decreasing(use[s := t], Without(subjects, s))
  {
    if subjects != [] {
      DecreasingElsewhere(use, subjects[1..], s, t);
    }
  }

  /** Using a subject that is in the window, or one more while there is room, puts it first. */
  lemma UsePutsFirst(use: map<string, real>, subjects: seq<string>, s: string, t: real)
    requires InOrder(use, subjects) && forall x :: x in use ==> use[x] < t
    ensures InOrder(use[s := t], [s] + Without(subjects, s))
  {
    DecreasingElsewhere(use, subjects, s, t);
    assert ([s] + Without(subjects, s))[1..] == Without(subjects, s);
  }

  lemma {:induction false} LastIsOldest(use: map<string, real>, subjects: seq<string>, x: string)
    requires Decreasing(use, subjects) && x in subjects && (forall s :: s in subjects ==> s in use)
    ensures x == subjects[|subjects| - 1] || use[x] > use[subjects[|subjects| - 1]]
  {
    if |subjects| > 1 {
      assert subjects[|subjects| - 1] == subjects[1..][|subjects| - 2];
      assert subjects[|subjects| - 1] in subjects[1..];
      if x != subjects[0] {
        LastIsOldest(use, subjects[1..], x);
      }
    }
  }

  lemma {:induction false} DecreasingPrefix(use: map<string, real>, subjects: seq<string>, k: nat)
    requires Decreasing(use, subjects) && k <= |subjects|
    ensures Decreasing(use, subjects[..k])
  {
    if k > 0 {
      DecreasingPrefix(use, subjects[1..], k - 1);
      assert subjects[..k][1..] == subjects[1..][..k - 1];
      assert forall x :: x in subjects[1..][..k - 1] ==> x in subjects[1..];
    }
  }

  lemma {:induction false} DecreasingAgrees(use: map<string, real>, other: map<string, real>, subjects: seq<string>)
    requires Decreasing(use, subjects)
    requires forall x :: x in subjects ==> x in use && x in other && use[x] == other[x]
    ensures Decreasing(other, subjects)
  {
    if subjects != [] {
      DecreasingAgrees(use, other, subjects[1..]);
    }
  }

  lemma {:induction false} LastOnce(subjects: seq<string>)
    requires Different(subjects) && subjects != []
    ensures forall x :: x in subjects <==> x in subjects[..|subjects| - 1] || x == subjects[|subjects| - 1]
    ensures subjects[|subjects| - 1] !in subjects[..|subjects| - 1]
  {
    var last := |subjects| - 1;
    assert subjects == subjects[..last] + [subjects[last]];
  }

  /** The oldest of a window is its last. */
  lemma OldestIsLast(use: map<string, real>, subjects: seq<string>, s: string, t: real, oldest: string)
    requires InOrder(use, subjects) && s !in subjects && subjects != []
    requires forall x :: x in use ==> use[x] < t
    requires oldest in use[s := t] && forall x :: x in subjects ==> use[s := t][oldest] <= use[x]
    ensures oldest == subjects[|subjects| - 1]
  {
    assert subjects[|subjects| - 1] in subjects;
    assert oldest in subjects;
    LastIsOldest(use, subjects, oldest);
  }

  /** With a full window, one more subject goes first and the least recently used one goes out. */
  lemma EvictionDropsLast(use: map<string, real>, subjects: seq<string>, s: string, t: real, oldest: string)
    requires InOrder(use, subjects) && Different(subjects) && s !in subjects && subjects != []
    requires forall x :: x in use ==> use[x] < t
    requires oldest in use[s := t] && forall x :: x in subjects ==> use[s := t][oldest] <= use[x]
    ensures oldest == subjects[|subjects| - 1]
    ensures InOrder(use[s := t] - {oldest}, [s] + subjects[..|subjects| - 1])
  {
    var last, kept := |subjects| - 1, subjects[..|subjects| - 1];
    OldestIsLast(use, subjects, s, t, oldest);
    LastOnce(subjects);
    hide Different;
    DecreasingPrefix(use, subjects, last);
    var after := use[s := t] - {oldest};
    DecreasingAgrees(use, after, kept);
    assert ([s] + kept)[1..] == kept;
  }

  /** How the window of the `n` most recent subjects moves when `s` is acquired. */
  lemma WindowMoves(history: seq<string>, s: string, n: nat)
    requires n >= 1
    ensures Different(MostRecent(history, n)) && |MostRecent(history, n)| <= n
    ensures var top := MostRecent(history, n);
            MostRecent(history + [s], n) == [s] + if s in top || |top| < n then Without(top, s) else top[..n - 1]
  {
    assert (history + [s])[..|history|] == history;
    RecencyIsDistinct(history);
    TopIsDistinct(ByRecency(history), n);
    TopAfter(ByRecency(history), s, n);
  }

  /** No session has to go exactly when the subject is in the window, or the window has room. */
  lemma WindowHasRoom(use: map<string, real>, top: seq<string>, s: string, t: real, n: nat)
    requires InOrder(use, top) && Different(top) && |top| <= n
    ensures |use[s := t]| <= n <==> s in top || |top| < n
  {
    DifferentCount(top, use.Keys);
    assert use[s := t].Keys == use.Keys + {s};
    assert |use[s := t].Keys| == |use[s := t]|;
  }

  lemma WindowAfter(use: map<string, real>, history: seq<string>, s: string, t: real, n: nat)
    requires InOrder(use, MostRecent(history, n)) && n >= 1 && forall x :: x in use ==> use[x] < t
    requires |use[s := t]| <= n
    ensures InOrder(use[s := t], MostRecent(history + [s], n))
  {
    WindowMoves(history, s, n);
    WindowHasRoom(use, MostRecent(history, n), s, t, n);
    UsePutsFirst(use, MostRecent(history, n), s, t);
  }

  lemma TopIsDistinct(subjects: seq<string>, n: nat)
    requires Different(subjects)
    ensures Different(Top(subjects, n)) && |Top(subjects, n)| <= n
  {
  }

  lemma WindowAfterEviction(use: map<string, real>, history: seq<string>, s: string, t: real, n: nat, oldest: string)
    requires InOrder(use, MostRecent(history, n)) && n >= 1 && (forall x :: x in use ==> use[x] < t)
    requires |use[s := t]| > n && oldest in use[s := t]
    requires forall x :: x in use && x != s ==> use[s := t][oldest] <= use[x]
    ensures InOrder(use[s := t] - {oldest}, MostRecent(history + [s], n)) && oldest != s
  {
    var top := MostRecent(history, n);
    WindowMoves(history, s, n);
    WindowHasRoom(use, top, s, t, n);
    EvictionDropsLast(use, top, s, t, oldest);
    assert top[|top| - 1] in top;
  }

  /** The times of use after at most one session, the least recently used, was evicted for being one too many. */
  ghost predicate Settled(use: map<string, real>, gone: Option<string>, after: map<string, real>, n: nat)
  {
    match gone
    case None => after == use && |use| <= n
    case Some(oldest) => |use| > n && oldest in use && after == use - {oldest} && forall x :: x in use ==> use[oldest] <= use[x]
  }

  lemma SettledIsMostRecent(use: map<string, real>, window: seq<string>, subject: string, accessed: real,
                            gone: Option<string>, after: map<string, real>, n: nat)
    requires Settled(use[subject := accessed], gone, after, n) && n >= 1
    requires InOrder(use, MostRecent(window, n)) && forall s :: s in use ==> use[s] < accessed
    ensures InOrder(after, MostRecent(window + [subject], n)) && gone != Some(subject)
    ensures forall s :: s in after ==> after[s] <= accessed
  {
    var times := use[subject := accessed];
    match gone
    case None => WindowAfter(use, window, subject, accessed, n);
    case Some(oldest) =>
      forall x | x in use && x != subject
        ensures times[oldest] <= use[x]
      {
        assert x in times && times[x] == use[x];
      }
      WindowAfterEviction(use, window, subject, accessed, n, oldest);
  }

  lemma OldestUse(pool: Sessions)
    requires OnePerSubject(pool) && pool != []
    ensures var oldest := pool[Oldest(pool)].session.owner;
            oldest in LastUse(pool) && forall x :: x in LastUse(pool) ==> LastUse(pool)[oldest] <= LastUse(pool)[x]
  {
    UseAt(pool, Oldest(pool));
    forall x | x in LastUse(pool)
      ensures LastUse(pool)[pool[Oldest(pool)].session.owner] <= LastUse(pool)[x]
    {
      UseHolds(pool, x);
      UseAt(pool, IndexOf(pool, x));
    }
  }

  // ----- the clients of a pool -----

  function Clients(pool: Sessions): set<nat>
  {
    set p | p in pool :: p.session.client
  }

  predicate OnePerClient(pool: Sessions)
  {
    forall i, j :: 0 <= i < j < |pool| ==> pool[i].session.client != pool[j].session.client
  }

  lemma RemoveClient(pool: Sessions, i: nat)
    requires OnePerClient(pool) && i < |pool|
    ensures OnePerClient(RemoveAt(pool, i)) && Clients(RemoveAt(pool, i)) == Clients(pool) - {pool[i].session.client}
  {
    var rest := RemoveAt(pool, i);
    forall j, k | 0 <= j < k < |rest|
      ensures rest[j].session.client != rest[k].session.client
    {
      RemovedFrom(pool, i, j);
      RemovedFrom(pool, i, k);
    }
    assert pool == pool[..i] + [pool[i]] + pool[i + 1..];
    assert forall p :: p in pool <==> p in rest || p == pool[i];
    forall p | p in rest
      ensures p.session.client != pool[i].session.client
    {
      var j :| 0 <= j < |rest| && rest[j] == p;
      RemovedFrom(pool, i, j);
    }
  }

  lemma AppendClient(pool: Sessions, p: Pooled)
    requires OnePerClient(pool) && p.session.client !in Clients(pool)
    ensures OnePerClient(pool + [p]) && Clients(pool + [p]) == Clients(pool) + {p.session.client}
  {
    assert forall i :: 0 <= i < |pool| ==> pool[i].session.client in Clients(pool);
  }

  lemma TouchClient(pool: Sessions, i: nat, p: Pooled)
    requires OnePerClient(pool) && i < |pool| && p.session == pool[i].session
    ensures OnePerClient(pool[i := p]) && Clients(pool[i := p]) == Clients(pool)
  {
    var touched := pool[i := p];
    forall c
      ensures c in Clients(touched) <==> c in Clients(pool)
    {
      if c in Clients(pool) {
        var j :| 0 <= j < |pool| && pool[j].session.client == c;
        assert touched[j] in touched && touched[j].session.client == c;
      }
      if c in Clients(touched) {
        var j :| 0 <= j < |touched| && touched[j].session.client == c;
        assert pool[j] in pool && pool[j].session.client == c;
      }
    }
  }

  // ----- who holds which session -----

  /** The session of each pooled subject. */
  ghost function Held(pool: Sessions): map<string, Session>
  {
    if pool == [] then map[] else Held(pool[..|pool| - 1])[pool[|pool| - 1].session.owner := pool[|pool| - 1].session]
  }

  lemma {:induction false} HeldAt(pool: Sessions, i: nat)
    requires OnePerSubject(pool) && i < |pool|
    ensures pool[i].session.owner in Held(pool) && Held(pool)[pool[i].session.owner] == pool[i].session
  {
    if i < |pool| - 1 {
      HeldAt(pool[..|pool| - 1], i);
    }
  }

  lemma {:induction false} HeldKeys(pool: Sessions)
    ensures Held(pool).Keys == LastUse(pool).Keys
  {
    if pool != [] {
      HeldKeys(pool[..|pool| - 1]);
    }
  }

  lemma HeldHolds(pool: Sessions, s: string)
    ensures s in Held(pool) <==> Holds(pool, s)
  {
    HeldKeys(pool);
    UseHolds(pool, s);
  }

  /** Two pools that agree on who holds what. */
  lemma HeldExtensional(pool: Sessions, held: map<string, Session>)
    requires OnePerSubject(pool)
    requires forall s :: s in held <==> Holds(pool, s)
    requires forall i :: 0 <= i < |pool| ==> pool[i].session.owner in held && held[pool[i].session.owner] == pool[i].session
    ensures Held(pool) == held
  {
    hide *;
    forall s
      ensures s in Held(pool) <==> s in held
      ensures s in held ==> Held(pool)[s] == held[s]
    {
      HeldHolds(pool, s);
      if s in held {
        HeldAt(pool, IndexOf(pool, s));
      }
    }
  }

  lemma AppendHeld(pool: Sessions, p: Pooled)
    ensures Held(pool + [p]) == Held(pool)[p.session.owner := p.session]
  {
    assert (pool + [p])[..|pool|] == pool;
  }

  lemma RemoveHeld(pool: Sessions, i: nat)
    requires OnePerSubject(pool) && i < |pool|
    ensures Held(RemoveAt(pool, i)) == Held(pool) - {pool[i].session.owner}
  {
    var rest, held := RemoveAt(pool, i), Held(pool) - {pool[i].session.owner};
    RemoveKeepsOne(pool, i);
    forall s
      ensures s in held <==> Holds(rest, s)
    {
      HeldHolds(pool, s);
      RemoveHolds(pool, i, s);
    }
    RemoveHolds(pool, i, pool[i].session.owner);
    forall j | 0 <= j < |rest|
      ensures rest[j].session.owner in held && held[rest[j].session.owner] == rest[j].session
    {
      RemovedFrom(pool, i, j);
      HeldAt(pool, if j < i then j else j + 1);
      HoldsAt(rest, j);
    }
    HeldExtensional(rest, held);
  }

  lemma TouchHeld(pool: Sessions, i: nat, p: Pooled)
    requires OnePerSubject(pool) && i < |pool| && p.session == pool[i].session
    ensures Held(pool[i := p]) == Held(pool)
  {
    var touched := pool[i := p];
    forall s
      ensures s in Held(pool) <==> Holds(touched, s)
    {
      HeldHolds(pool, s);
      if Holds(pool, s) {
        var j :| 0 <= j < |pool| && pool[j].session.owner == s;
        assert touched[j].session.owner == s;
      }
      if Holds(touched, s) {
        var j :| 0 <= j < |touched| && touched[j].session.owner == s;
        assert pool[j].session.owner == s;
      }
    }
    forall j | 0 <= j < |touched|
      ensures touched[j].session.owner in Held(pool) && Held(pool)[touched[j].session.owner] == touched[j].session
    {
      HeldAt(pool, j);
    }
    HeldExtensional(touched, Held(pool));
  }

  /** The pool without the session that an eviction takes. */
  function Less(held: map<string, Session>, gone: Option<string>): map<string, Session>
  {
    if gone.Some? then held - {gone.value} else held
  }

  // ----- the pool -----

  datatype Failure = LoginFailed | SessionExpired | CallFailed

  /** What creating the client and discovering the family come to. */
  datatype Login = NoClient(why: Failure) | NoFamily(why: Failure) | LoggedIn

  /** What one authenticated upstream call comes to. */
  datatype Reply = Answered(text: string) | Expired | Failed(why: Failure)

  function Outcome(reply: Reply): Result<string, Failure>
  {
    match reply
    case Answered(text) => Ok(text)
    case Expired => Err(SessionExpired)
    case Failed(why) => Err(why)
  }

  /** A caller's acquire: the clock readings it gets, and what signing in would come to. */
  datatype Demand = Demand(subject: string, generation: Option<int>, checked: real, accessed: real, login: Login)

  class Pool {
    const maxIdle: real
    const maxSessions: nat
    var sessions: Sessions
    var generations: map<string, int>
    var nextClient: nat
    var closed: set<nat>
    /** Every client whose discovery succeeded; the subjects acquired, in order; the last clock reading used. */
    ghost var discovered: set<nat>
    ghost var history: seq<string>
    ghost var clock: real

    /** Each subject once; each discovered client either pooled or closed. */
    ghost predicate Consistent()
      reads this
    {
      && OnePerSubject(sessions) && OnePerClient(sessions)
      && discovered == closed + Clients(sessions) && closed !! Clients(sessions)
      && forall c :: c in discovered ==> c < nextClient
    }

    ghost predicate Valid()
      reads this
    {
      Consistent() && |sessions| <= maxSessions
    }

    /** The pool is exactly the most recently used window of the history. */
    ghost predicate IsMostRecent()
      reads this
    {
      && InOrder(LastUse(sessions), MostRecent(history, maxSessions))
      && forall s :: s in LastUse(sessions) ==> LastUse(sessions)[s] <= clock
    }

    /** The pool then has a session for exactly those subjects. */
    lemma MostRecentArePooled(s: string)
      requires IsMostRecent()
      ensures Holds(sessions, s) <==> s in MostRecent(history, maxSessions)
    {
      UseHolds(sessions, s);
    }

    constructor (maxIdle: real, maxSessions: nat, now: real)
      ensures Valid() && IsMostRecent() && history == [] && clock == now
      ensures this.maxIdle == maxIdle && this.maxSessions == maxSessions
    {
      this.maxIdle, this.maxSessions := maxIdle, maxSessions;
      sessions, generations, nextClient, closed := [], map[], 0, {};
      discovered, history, clock := {}, [], now;
    }

    /** Pop a session and close its client. */
    method Drop(i: nat)
      requires Consistent() && i < |sessions|
      modifies this`sessions, this`closed
      ensures Consistent() && |sessions| == |old(sessions)| - 1 && sessions == RemoveAt(old(sessions), i)
      ensures closed == old(closed) + {old(sessions)[i].session.client}
      ensures LastUse(sessions) == old(LastUse(sessions)) - {old(sessions)[i].session.owner}
      ensures Held(sessions) == old(Held(sessions)) - {old(sessions)[i].session.owner}
      ensures !Holds(sessions, old(sessions)[i].session.owner)
    {
      RemoveUse(sessions, i);
      RemoveHeld(sessions, i);
      RemoveClient(sessions, i);
      assert sessions[i] in sessions;
      closed := closed + {sessions[i].session.client};
      sessions := RemoveAt(sessions, i);
    }

    method DropSubject(subject: string)
      requires Consistent()
      modifies this`sessions, this`closed
      ensures Consistent() && !Holds(sessions, subject) && |sessions| <= |old(sessions)|
      ensures LastUse(sessions) == old(LastUse(sessions)) - {subject} && Held(sessions) == old(Held(sessions)) - {subject}
      ensures forall p :: p in old(sessions) && p.session.owner != subject ==> p in sessions
      ensures old(closed) <= closed
      ensures forall p :: p in old(sessions) && p.session.owner == subject ==> p.session.client in closed
    {
      UseHolds(sessions, subject);
      HeldHolds(sessions, subject);
      if Holds(sessions, subject) {
        var i := IndexOf(sessions, subject);
        assert sessions == sessions[..i] + [sessions[i]] + sessions[i + 1..];
        Drop(i);
      } else {
        assert LastUse(sessions) == LastUse(sessions) - {subject};
        assert Held(sessions) == Held(sessions) - {subject};
      }
    }

    method Touch(i: nat, accessed: real) returns (session: Session)
      requires Valid() && i < |sessions|
      modifies this`sessions
      ensures Valid() && session == old(sessions)[i].session
      ensures sessions == old(sessions)[i := old(sessions)[i].(lastAccessed := accessed)]
      ensures LastUse(sessions) == old(LastUse(sessions))[session.owner := accessed] && Held(sessions) == old(Held(sessions))
    {
      var p := sessions[i].(lastAccessed := accessed);
      TouchHeld(sessions, i, p);
      TouchUse(sessions, i, p);
      TouchClient(sessions, i, p);
      sessions := sessions[i := p];
      return p.session;
    }

    /** The subject has a session that is neither idle nor of another credential generation. */
    ghost predicate Usable(subject: string, generation: Option<int>, checked: real)
      reads this
    {
      && Holds(sessions, subject)
      && !(generation.Some? && subject in generations && generations[subject] != generation.value)
      && checked - sessions[IndexOf(sessions, subject)].lastAccessed <= maxIdle
    }

    /** A session is usable when it is the subject's, has been idle for no longer than the limit, and is of no other generation. */
    lemma UsableMeans(subject: string, generation: Option<int>, checked: real)
      ensures Usable(subject, generation, checked) ==>
                exists i :: 0 <= i < |sessions| && sessions[i].session.owner == subject && checked - sessions[i].lastAccessed <= maxIdle
      ensures OnePerSubject(sessions) && !Usable(subject, generation, checked) ==>
                forall i :: 0 <= i < |sessions| && sessions[i].session.owner == subject ==>
                  checked - sessions[i].lastAccessed > maxIdle
                  || (generation.Some? && subject in generations && generations[subject] != generation.value)
      ensures generation.Some? && subject in generations && generations[subject] != generation.value ==>
                !Usable(subject, generation, checked)
    {
      if OnePerSubject(sessions) && !Usable(subject, generation, checked) {
        forall i | 0 <= i < |sessions| && sessions[i].session.owner == subject
          ensures Holds(sessions, subject) && IndexOf(sessions, subject) == i
        {
        }
      }
    }

    /** Note the credential generation; a different one drops the subject's session. */
    method CheckGeneration(subject: string, generation: Option<int>)
      requires Valid()
      modifies this
      ensures Valid() && history == old(history) && clock == old(clock) && nextClient == old(nextClient)
      ensures generations == if generation.Some? then old(generations)[subject := generation.value] else old(generations)
      ensures discovered == old(discovered)
      ensures var differs := generation.Some? && subject in old(generations) && old(generations)[subject] != generation.value;
              if differs then
                && !Holds(sessions, subject)
                && LastUse(sessions) == old(LastUse(sessions)) - {subject} && Held(sessions) == old(Held(sessions)) - {subject}
              else sessions == old(sessions)
      ensures forall p :: p in old(sessions) && p.session.owner != subject ==> p in sessions
      ensures old(closed) <= closed
    {
      if generation.Some? {
        if subject in generations && generations[subject] != generation.value {
          DropSubject(subject);
        }
        generations := generations[subject := generation.value];
      }
    }

    /** The first critical section: a pooled session that is not idle is touched and returned, an idle one dropped. */
    method FindPooled(subject: string, generation: Option<int>, checked: real, accessed: real) returns (hit: Option<Session>)
      requires Valid()
      modifies this
      ensures Valid() && history == old(history) && clock == old(clock)
      ensures hit.Some? <==> old(Usable(subject, generation, checked))
      ensures nextClient == old(nextClient) && discovered == old(discovered)
      ensures generations == if generation.Some? then old(generations)[subject := generation.value] else old(generations)
      ensures match hit
              case Some(session) =>
                && session == old(sessions)[IndexOf(old(sessions), subject)].session
                && session.owner == subject && Pools(session) && subject in old(LastUse(sessions))
                && LastUse(sessions) == old(LastUse(sessions))[subject := accessed] && Held(sessions) == old(Held(sessions))
              case None =>
                && !Holds(sessions, subject)
                && LastUse(sessions) == old(LastUse(sessions)) - {subject} && Held(sessions) == old(Held(sessions)) - {subject}
      ensures forall p :: p in old(sessions) && p.session.owner != subject ==> p in sessions
      ensures old(closed) <= closed
    {
      hide Held, LastUse, OnePerSubject, OnePerClient, Clients;
      CheckGeneration(subject, generation);
      UseHolds(sessions, subject);
      UseHolds(old(sessions), subject);
      if Holds(sessions, subject) {
        var i := IndexOf(sessions, subject);
        if checked - sessions[i].lastAccessed <= maxIdle {
          ghost var before := sessions;
          var session := Touch(i, accessed);
          assert sessions[i].session == session;
          assert forall p :: p in before && p.session.owner != subject ==> p in sessions by {
            TouchKeepsOthers(before, i, sessions[i]);
          }
          return Some(session);
        }
        DropSubject(subject);
      } else {
        HeldHolds(sessions, subject);
        assert LastUse(sessions) == old(LastUse(sessions)) - {subject};
        assert Held(sessions) == old(Held(sessions)) - {subject};
      }
      return None;
    }

    /** `_evict_lru_if_needed` */
    method EvictIfNeeded() returns (ghost gone: Option<string>)
      requires Consistent() && |sessions| <= maxSessions + 1 && |LastUse(sessions)| == |sessions|
      modifies this`sessions, this`closed
      ensures Valid() && Settled(old(LastUse(sessions)), gone, LastUse(sessions), maxSessions)
      ensures Held(sessions) == Less(old(Held(sessions)), gone) && (gone.Some? ==> gone.value in old(Held(sessions)))
      ensures gone.Some? <==> |old(sessions)| > maxSessions
      ensures forall p :: p in old(sessions) && gone != Some(p.session.owner) ==> p in sessions
      ensures forall p :: p in old(sessions) ==> p in sessions || p.session.client in closed
      ensures old(closed) <= closed
    {
      gone := None;
      if |sessions| > maxSessions {
        var i := Oldest(sessions);
        ghost var before := sessions;
        gone := Some(sessions[i].session.owner);
        OldestUse(sessions);
        HeldAt(sessions, i);
        assert before == before[..i] + [before[i]] + before[i + 1..];
        Drop(i);
      }
    }

    /** Put a new session in the pool; it may then hold one too many. */
    method StoreSession(subject: string, generation: Option<int>, accessed: real) returns (p: Pooled)
      requires Valid() && !Holds(sessions, subject)
      modifies this`sessions, this`discovered, this`nextClient
      ensures Consistent() && sessions == old(sessions) + [p] && p in sessions
      ensures p.session == Session(subject, old(nextClient)) && p.session.client in discovered
      ensures nextClient == old(nextClient) + 1 && discovered == old(discovered) + {old(nextClient)}
      ensures Held(sessions) == old(Held(sessions))[subject := p.session]
      ensures LastUse(sessions) == old(LastUse(sessions))[subject := accessed] && |LastUse(sessions)| == |sessions|
    {
      p := Pooled(Session(subject, nextClient), if generation.Some? then generation.value else 0, accessed);
      AppendUse(sessions, p);
      AppendHeld(sessions, p);
      AppendClient(sessions, p);
      sessions, discovered := sessions + [p], discovered + {nextClient};
      nextClient := nextClient + 1;
      UseCount(sessions);
      assert sessions[|sessions| - 1] == p;
    }

    /** A new session enters the pool, and the least recently used one leaves a pool that is over its bound. */
    method Admit(subject: string, generation: Option<int>, accessed: real) returns (session: Session, ghost gone: Option<string>)
      requires Valid() && !Holds(sessions, subject)
      modifies this
      ensures Valid() && history == old(history) && clock == old(clock) && nextClient == old(nextClient) + 1
      ensures session == Session(subject, old(nextClient)) && discovered == old(discovered) + {session.client}
      ensures Held(sessions) == Less(old(Held(sessions))[subject := session], gone) && generations == old(generations)
      ensures (gone.Some? <==> |old(sessions)| + 1 > maxSessions) && (gone.Some? ==> gone.value in old(Held(sessions))[subject := session])
      ensures Settled(old(LastUse(sessions))[subject := accessed], gone, LastUse(sessions), maxSessions)
      ensures if gone != Some(subject) then Pools(session) else Pools(session) || session.client in closed
      ensures forall p :: p in old(sessions) ==> p in sessions || p.session.client in closed
      ensures old(closed) <= closed
    {
      hide Settled, LastUse, Held, Holds, OnePerSubject, OnePerClient, Clients;
      var p := StoreSession(subject, generation, accessed);
      gone := EvictIfNeeded();
      session := p.session;
      assert p in sessions ==> Pools(session);
    }

    /** The second critical section, when nobody else has created the session meanwhile. */
    method Create(subject: string, generation: Option<int>, login: Login, accessed: real)
        returns (r: Result<Session, Failure>, ghost gone: Option<string>)
      requires Valid() && !Holds(sessions, subject)
      modifies this
      ensures Valid() && history == old(history) && clock == old(clock) && nextClient >= old(nextClient)
      ensures generations == old(generations)
      ensures match login
              case LoggedIn =>
                && r == Ok(Session(subject, old(nextClient))) && discovered == old(discovered) + {old(nextClient)}
                && nextClient == old(nextClient) + 1
                && Held(sessions) == Less(old(Held(sessions))[subject := r.value], gone)
                && (gone.Some? <==> |old(sessions)| + 1 > maxSessions)
                && (gone.Some? ==> gone.value in old(Held(sessions))[subject := r.value])
              case NoClient(why) =>
                r == Err(why) && gone == None && sessions == old(sessions) && discovered == old(discovered) && nextClient == old(nextClient)
              case NoFamily(why) =>
                r == Err(why) && gone == None && sessions == old(sessions) && discovered == old(discovered)
                && nextClient == old(nextClient) + 1
      ensures r.Ok? ==> Settled(old(LastUse(sessions))[subject := accessed], gone, LastUse(sessions), maxSessions)
      ensures r.Ok? ==> if gone != Some(subject) then Pools(r.value) else Pools(r.value) || r.value.client in closed
      ensures forall p :: p in old(sessions) ==> p in sessions || p.session.client in closed
      ensures old(closed) <= closed
    {
      gone := None;
      if login.NoClient? {
        return Err(login.why), gone;
      }
      if login.NoFamily? {
        nextClient := nextClient + 1;
        return Err(login.why), gone;
      }
      var session;
      session, gone := Admit(subject, generation, accessed);
      return Ok(session), gone;
    }

    /** Both critical sections, one after the other. */
    method Obtain(subject: string, generation: Option<int>, checked: real, accessed: real, login: Login)
        returns (r: Result<Session, Failure>, ghost gone: Option<string>)
      requires Valid()
      modifies this
      ensures Valid() && history == old(history) && clock == old(clock) && nextClient >= old(nextClient)
      ensures old(Usable(subject, generation, checked)) ==> r == Ok(old(sessions)[IndexOf(old(sessions), subject)].session)
      ensures old(Usable(subject, generation, checked)) ==> nextClient == old(nextClient)
      ensures !old(Usable(subject, generation, checked)) ==>
                match login
                case LoggedIn => r == Ok(Session(subject, old(nextClient))) && nextClient == old(nextClient) + 1
                case NoClient(why) => r == Err(why) && nextClient == old(nextClient)
                case NoFamily(why) => r == Err(why) && nextClient == old(nextClient) + 1
      ensures r.Ok? ==> r.value.owner == subject && Settled(old(LastUse(sessions))[subject := accessed], gone, LastUse(sessions), maxSessions)
      ensures r.Ok? ==> if gone != Some(subject) then Pools(r.value) else Pools(r.value) || r.value.client in closed
      ensures r.Err? ==> !Holds(sessions, subject)
      ensures forall p :: p in old(sessions) && p.session.owner != subject ==> p in sessions || p.session.client in closed
      ensures old(closed) <= closed
    {
      ghost var use := LastUse(sessions);
      gone := None;
      var hit := FindPooled(subject, generation, checked, accessed);
      if hit.Some? {
        UseCount(sessions);
        return Ok(hit.value), gone;
      }
      assert (use - {subject})[subject := accessed] == use[subject := accessed];
      r, gone := Create(subject, generation, login, accessed);
    }

    /** `acquire`, undisturbed by other callers. */
    method Acquire(subject: string, generation: Option<int>, checked: real, accessed: real, login: Login)
        returns (r: Result<Session, Failure>)
      requires Valid()
      modifies this
      ensures Valid() && nextClient >= old(nextClient)
      ensures old(Usable(subject, generation, checked)) ==> r == Ok(old(sessions)[IndexOf(old(sessions), subject)].session)
      ensures old(Usable(subject, generation, checked)) ==> nextClient == old(nextClient)
      ensures !old(Usable(subject, generation, checked)) ==>
                match login
                case LoggedIn => r == Ok(Session(subject, old(nextClient))) && nextClient == old(nextClient) + 1
                case NoClient(why) => r == Err(why) && nextClient == old(nextClient)
                case NoFamily(why) => r == Err(why) && nextClient == old(nextClient) + 1
      ensures r.Ok? ==> r.value.owner == subject && history == old(history) + [subject]
      ensures r.Err? ==> history == old(history) && !Holds(sessions, subject)
      ensures r.Ok? && maxSessions >= 1 && old(IsMostRecent()) && old(clock) < accessed ==>
                IsMostRecent() && clock == accessed && Pools(r.value) && r.value.client in discovered && r.value.client !in closed
      ensures r.Ok? ==> Pools(r.value) || r.value.client in closed
      ensures forall p :: p in old(sessions) && p.session.owner != subject ==> p in sessions || p.session.client in closed
      ensures old(closed) <= closed
    {
      hide Holds, Held, LastUse, MostRecent, Settled, InOrder, OnePerSubject, OnePerClient, Clients, IndexOf;
      ghost var use, window := LastUse(sessions), history;
      ghost var gone: Option<string>;
      r, gone := Obtain(subject, generation, checked, accessed, login);
      if r.Ok? {
        history, clock := history + [subject], accessed;
        if maxSessions >= 1 && InOrder(use, MostRecent(window, maxSessions)) && forall s :: s in use ==> use[s] < accessed {
          SettledIsMostRecent(use, window, subject, accessed, gone, LastUse(sessions), maxSessions);
          PoolsIsOpen(r.value);
        }
      }
    }

    /**
     * Any sequence of acquires that all sign in where they must, with later and later clock readings: each is answered with
     * a session of its own subject, and the pool is then exactly the most recently acquired subjects.
     */
    method AcquireEach(demands: seq<Demand>) returns (given: seq<Session>)
      requires Valid() && IsMostRecent() && maxSessions >= 1
      requires forall i :: 0 <= i < |demands| ==> demands[i].login == LoggedIn && clock < demands[i].accessed
      requires forall i, j :: 0 <= i < j < |demands| ==> demands[i].accessed < demands[j].accessed
      modifies this
      ensures Valid() && IsMostRecent() && history == old(history) + seq(|demands|, i requires 0 <= i < |demands| => demands[i].subject)
      ensures |given| == |demands| && forall i :: 0 <= i < |demands| ==> given[i].owner == demands[i].subject
      ensures forall s :: Holds(sessions, s) <==> s in MostRecent(history, maxSessions)
    {
      hide *;
      given := [];
      for k := 0 to |demands|
        invariant Valid() && IsMostRecent()
        invariant |given| == k && forall i :: 0 <= i < k ==> given[i].owner == demands[i].subject
        invariant forall i :: k <= i < |demands| ==> clock < demands[i].accessed
        invariant |history| == |old(history)| + k && history[..|old(history)|] == old(history)
        invariant forall i :: 0 <= i < k ==> history[|old(history)| + i] == demands[i].subject
      {
        var demand := demands[k];
        var session := Acquire(demand.subject, demand.generation, demand.checked, demand.accessed, demand.login);
        given := given + [session.value];
      }
      forall s
        ensures Holds(sessions, s) <==> s in MostRecent(history, maxSessions)
      {
        MostRecentArePooled(s);
      }
    }

    /** `invalidate`: the subject's session goes, and nobody else's. */
    method Invalidate(subject: string)
      requires Valid()
      modifies this
      ensures Valid() && !Holds(sessions, subject) && history == old(history) && nextClient == old(nextClient)
      ensures Held(sessions) == old(Held(sessions)) - {subject} && discovered == old(discovered) && generations == old(generations)
      ensures forall p :: p in old(sessions) && p.session.owner != subject ==> p in sessions
      ensures old(closed) <= closed
      ensures forall p :: p in old(sessions) && p.session.owner == subject ==> p.session.client in closed
    {
      DropSubject(subject);
    }

    /** `aclose`: every client that was ever discovered is closed. */
    method CloseAll()
      requires Valid()
      modifies this
      ensures Valid() && sessions == [] && generations == map[] && closed == old(discovered) && discovered == old(discovered)
      ensures nextClient == old(nextClient)
    {
      closed := closed + Clients(sessions);
      sessions, generations := [], map[];
    }

    /**
     * `call`: a write is sent at most once; a read that finds its session expired drops that session, signs in
     * once more and is sent once more, whatever comes of it.  `sent` tells the sessions that the sends went through:
     * the pooled one if it is usable, else a new one; the second send goes through a new one of the same subject, and the
     * client of the first is closed by then.  A sign-in that fails is what the call fails with.
     */
    method Call(subject: string, isRead: bool, first: Reply, second: Reply,
                checked: seq<real>, accessed: seq<real>, logins: seq<Login>) returns (r: Result<string, Failure>, sent: seq<Session>)
      requires Valid() && |checked| == |accessed| == |logins| == 2
      modifies this
      ensures Valid()
      ensures sent == [] <==> !old(Usable(subject, None, checked[0])) && !logins[0].LoggedIn?
      ensures sent == [] ==> !logins[0].LoggedIn? && r == Err(logins[0].why) && !Holds(sessions, subject)
      ensures sent != [] ==> sent[0] == if old(Usable(subject, None, checked[0]))
                                        then old(sessions)[IndexOf(old(sessions), subject)].session
                                        else Session(subject, old(nextClient))
      ensures |sent| == 2 <==> sent != [] && isRead && first == Expired && logins[1].LoggedIn?
      ensures sent != [] && isRead && first == Expired ==>
                && sent[0].client in closed
                && (logins[1].LoggedIn? ==>
                      && r == match second case Answered(text) => Ok(text) case Expired => Err(SessionExpired) case Failed(why) => Err(why))
                && (!logins[1].LoggedIn? ==> |sent| == 1 && r == Err(logins[1].why) && !Holds(sessions, subject))
      ensures |sent| == 2 ==>
                sent[1] == Session(subject, old(nextClient) + if old(Usable(subject, None, checked[0])) then 0 else 1)
                && sent[1].client != sent[0].client
      ensures sent != [] && !(isRead && first == Expired) ==>
                && |sent| == 1
                && r == match first case Answered(text) => Ok(text) case Expired => Err(SessionExpired) case Failed(why) => Err(why)
      ensures sent != [] && !(isRead && first == Expired) && maxSessions >= 1 && old(IsMostRecent()) && old(clock) < accessed[0] ==>
                IsMostRecent() && Pools(sent[0]) && history == old(history) + [subject]
      ensures forall session :: session in sent ==> session.owner == subject
    {
      var session := Acquire(subject, None, checked[0], accessed[0], logins[0]);
      if session.Err? {
        return Err(session.error), [];
      }
      var used := session.value;
      sent := [used];
      if first != Expired || !isRead {
        return Outcome(first), sent;
      }
      Known(used);
      Invalidate(subject);
      session := Acquire(subject, None, checked[1], accessed[1], logins[1]);
      if session.Err? {
        return Err(session.error), sent;
      }
      return Outcome(second), sent + [session.value];
    }

    /** A session that was pooled or has been closed has a client in use already. */
    lemma Known(session: Session)
      requires Consistent() && (Pools(session) || session.client in closed)
      ensures session.client < nextClient
      ensures session.client in closed || exists p :: p in sessions && p.session == session
    {
      if Pools(session) {
        PoolsIsOpen(session);
        var i :| 0 <= i < |sessions| && sessions[i].session == session;
        assert sessions[i] in sessions;
      }
    }

    ghost predicate Pools(session: Session)
      reads this
    {
      exists i :: 0 <= i < |sessions| && sessions[i].session == session
    }

    lemma PoolsIsOpen(session: Session)
      requires Consistent() && Pools(session)
      ensures session.client in discovered && session.client !in closed
    {
      var i :| 0 <= i < |sessions| && sessions[i].session == session;
      assert sessions[i] in sessions;
      assert session.client in Clients(sessions);
    }
  }

  lemma TouchKeepsOthers(pool: Sessions, i: nat, p: Pooled)
    requires i < |pool| && p.session.owner == pool[i].session.owner
    ensures forall q :: q in pool && q.session.owner != p.session.owner ==> q in pool[i := p]
  {
    forall q | q in pool && q.session.owner != p.session.owner
      ensures q in pool[i := p]
    {
      var j :| 0 <= j < |pool| && pool[j] == q;
      assert pool[i := p][j] == q;
    }
  }
}
