/**
 * Resolving a wall-clock event time in a zone, with the fold rules of PEP 495: a zone is a first offset
 * and a sequence of offset transitions.
 */
module EventTime {
  import opened Common

  datatype Transition = Transition(at: int, offset: int)  // the instant, and the UTC offset from then on

  datatype Zone = Zone(first: int, changes: seq<Transition>)

  /** The offset in force before transition `i`, which is also the one after transition `i - 1`. */
  function Offset(z: Zone, i: nat): int
    requires i <= |z.changes|
  {
    if i == 0 then z.first else z.changes[i - 1].offset
  }

  function Max(a: int, b: int): int
  {
    if a < b then b else a
  }

  function Min(a: int, b: int): int
  {
    if a < b then a else b
  }

  /** The wall clock from which transition `i` counts as passed: the later reading for fold 0, the earlier for fold 1. */
  function Threshold(z: Zone, i: nat, fold: nat): int
    requires i < |z.changes|
  {
    z.changes[i].at + if fold == 0 then Max(Offset(z, i), Offset(z, i + 1)) else Min(Offset(z, i), Offset(z, i + 1))
  }

  function Size(z: Zone, i: nat): nat
    requires i < |z.changes|
  {
    Max(Offset(z, i), Offset(z, i + 1)) - Min(Offset(z, i), Offset(z, i + 1))
  }

  /** Transitions are further apart than the offset changes on either side of the time between them. */
  predicate Spaced(z: Zone)
  {
    forall i :: 0 <= i < |z.changes| - 1 ==> SpacedAt(z, i)
  }

  predicate SpacedAt(z: Zone, i: nat)
    requires i < |z.changes| - 1
  {
    z.changes[i + 1].at - z.changes[i].at > Size(z, i) + Size(z, i + 1)
  }

  /** How many of the first `n` transitions are past at instant `t`: a search from the end. */
  function PassedAt(z: Zone, t: int, n: nat): (k: nat)
    requires n <= |z.changes|
    ensures k <= n && (k > 0 ==> z.changes[k - 1].at <= t) && forall i :: k <= i < n ==> t < z.changes[i].at
  {
    if n == 0 then 0 else if z.changes[n - 1].at <= t then n else PassedAt(z, t, n - 1)
  }

  /** The same for a wall-clock reading and a fold. */
  function PassedReading(z: Zone, w: int, fold: nat, n: nat): (k: nat)
    requires n <= |z.changes|
    ensures k <= n && (k > 0 ==> Threshold(z, k - 1, fold) <= w) && forall i :: k <= i < n ==> w < Threshold(z, i, fold)
  {
    if n == 0 then 0 else if Threshold(z, n - 1, fold) <= w then n else PassedReading(z, w, fold, n - 1)
  }

  /** `utcoffset()` of an instant. */
  function OffsetAt(z: Zone, t: int): int
  {
    Offset(z, PassedAt(z, t, |z.changes|))
  }

  /** `utcoffset()` of a naive reading with a fold. */
  function OffsetOf(z: Zone, w: int, fold: nat): int
  {
    Offset(z, PassedReading(z, w, fold, |z.changes|))
  }

  /** What the wall clock shows at an instant. */
  function Local(z: Zone, t: int): int
  {
    t + OffsetAt(z, t)
  }

  datatype Input = Naive(reading: int) | Aware(instant: int) | BareDate | Unreadable

  datatype Refusal = UnknownTimezone | TimeRequired | Invalid | SkippedOrRepeated

  /** `resolve_event_time`: the instant that the value means in the zone. */
  function ResolveEventTime(zone: Option<Zone>, value: Input): Result<int, Refusal>
  {
    match zone
    case None => Err(UnknownTimezone)
    case Some(z) =>
      match value
      case BareDate => Err(TimeRequired)
      case Unreadable => Err(Invalid)
      case Aware(instant) => Ok(instant)
      case Naive(w) => if OffsetOf(z, w, 0) != OffsetOf(z, w, 1) then Err(SkippedOrRepeated) else Ok(w - OffsetOf(z, w, 0))
  }

  // ----- proofs -----

  lemma {:induction false} InstantsSorted(z: Zone, i: nat, j: nat)
    requires Spaced(z) && i <= j < |z.changes|
    ensures i < j ==> z.changes[i].at < z.changes[j].at
  {
    if i < j {
      InstantsSorted(z, i, j - 1);
      assert SpacedAt(z, j - 1);
    }
  }

  /** Even the late reading of a transition comes before the early reading of the next. */
  lemma {:induction false} ThresholdsSorted(z: Zone, i: nat, j: nat)
    requires Spaced(z) && i < j < |z.changes|
    ensures Threshold(z, i, 0) < Threshold(z, j, 1)
    ensures Threshold(z, i, 1) <= Threshold(z, i, 0)
  {
    assert SpacedAt(z, j - 1);
    if i < j - 1 {
      ThresholdsSorted(z, i, j - 1);
    }
  }

  /** Stretch `k` of the zone's time, between transitions `k - 1` and `k`, holds the reading. */
  predicate InStretch(z: Zone, w: int, k: nat)
  {
    && k <= |z.changes|
    && (k > 0 ==> z.changes[k - 1].at + Offset(z, k) <= w)
    && (k < |z.changes| ==> w < z.changes[k].at + Offset(z, k))
  }

  /** The instants that show a reading are one for each stretch that holds it. */
  lemma StretchShows(z: Zone, w: int, k: nat)
    requires Spaced(z) && InStretch(z, w, k)
    ensures Local(z, w - Offset(z, k)) == w && PassedAt(z, w - Offset(z, k), |z.changes|) == k
  {
    var t := w - Offset(z, k);
    var p := PassedAt(z, t, |z.changes|);
    assert k > 0 ==> z.changes[k - 1].at <= t;
    if p > k {
      InstantsSorted(z, k, p - 1);
    }
  }

  lemma ShownFromStretch(z: Zone, w: int, t: int)
    requires Local(z, t) == w
    ensures var k := PassedAt(z, t, |z.changes|); InStretch(z, w, k) && t == w - Offset(z, k)
  {
  }

  /** The two folds see the same stretch, or neighbouring ones around one transition. */
  lemma FoldsAreClose(z: Zone, w: int)
    requires Spaced(z)
    ensures var n := |z.changes|;
            PassedReading(z, w, 0, n) <= PassedReading(z, w, 1, n) <= PassedReading(z, w, 0, n) + 1
  {
    var n := |z.changes|;
    var k0, k1 := PassedReading(z, w, 0, n), PassedReading(z, w, 1, n);
    assert k0 > 0 ==> Threshold(z, k0 - 1, 1) <= w;
    if k1 > k0 + 1 {
      ThresholdsSorted(z, k0, k1 - 1);
    }
  }

  lemma ThresholdsMonotone(z: Zone, i: nat, j: nat)
    requires Spaced(z) && i <= j < |z.changes|
    ensures Threshold(z, i, 0) <= Threshold(z, j, 0) && Threshold(z, i, 1) <= Threshold(z, j, 1)
  {
    if i < j {
      ThresholdsSorted(z, i, j);
      assert Threshold(z, j, 1) <= Threshold(z, j, 0);
    }
  }

  lemma StretchBounds(z: Zone, w: int, k: nat)
    requires InStretch(z, w, k)
    ensures (k < |z.changes| ==> w < Threshold(z, k, 0)) && (k > 0 ==> Threshold(z, k - 1, 1) <= w)
  {
  }

  /** A stretch away from where the folds look cannot hold the reading. */
  lemma OtherStretches(z: Zone, w: int, k: nat)
    requires Spaced(z) && InStretch(z, w, k)
    ensures PassedReading(z, w, 0, |z.changes|) <= k <= PassedReading(z, w, 1, |z.changes|)
  {
    var k0, k1 := PassedReading(z, w, 0, |z.changes|), PassedReading(z, w, 1, |z.changes|);
    StretchBounds(z, w, k);
    if k + 1 < k0 {
      ThresholdsMonotone(z, k, k0 - 1);
    }
  }

  /** When the folds agree the reading lies in their stretch; when they differ, it depends on the sign of the change. */
  lemma FoldStretches(z: Zone, w: int)
    requires Spaced(z)
    ensures var n := |z.changes|;
            var k0, k1 := PassedReading(z, w, 0, n), PassedReading(z, w, 1, n);
            if k0 == k1 then InStretch(z, w, k0)
            else
              && k1 == k0 + 1 && Offset(z, k0) != Offset(z, k1)
              && (Offset(z, k0) < Offset(z, k1) ==> !InStretch(z, w, k0) && !InStretch(z, w, k1))
              && (Offset(z, k0) > Offset(z, k1) ==> InStretch(z, w, k0) && InStretch(z, w, k1))
  {
    FoldsAreClose(z, w);
    var n := |z.changes|;
    var k0, k1 := PassedReading(z, w, 0, n), PassedReading(z, w, 1, n);
    assert k0 < n ==> w < Threshold(z, k0, 0);
    assert k1 < n ==> w < Threshold(z, k1, 1);
  }

  /** The only instant with this wall-clock reading. */
  ghost predicate OnlyInstant(z: Zone, w: int, t: int)
  {
    Local(z, t) == w && forall u :: Local(z, u) == w ==> u == t
  }

  ghost predicate NoInstant(z: Zone, w: int)
  {
    forall u :: Local(z, u) != w
  }

  /** Exactly two instants have the reading, `t` before `u`. */
  ghost predicate TwoInstants(z: Zone, w: int, t: int, u: int)
  {
    t < u && Local(z, t) == w && Local(z, u) == w && forall v :: Local(z, v) == w ==> v == t || v == u
  }

  lemma InstantsByFold(z: Zone, w: int, u: int)
    requires Spaced(z) && Local(z, u) == w
    ensures u == w - OffsetOf(z, w, 0) || u == w - OffsetOf(z, w, 1)
  {
    ShownFromStretch(z, w, u);
    OtherStretches(z, w, PassedAt(z, u, |z.changes|));
    FoldsAreClose(z, w);
  }

  lemma EqualFolds(z: Zone, w: int)
    requires Spaced(z) && OffsetOf(z, w, 0) == OffsetOf(z, w, 1)
    ensures OnlyInstant(z, w, w - OffsetOf(z, w, 0))
  {
    FoldStretches(z, w);
    StretchShows(z, w, PassedReading(z, w, 0, |z.changes|));
    forall u | Local(z, u) == w
      ensures u == w - OffsetOf(z, w, 0)
    {
      InstantsByFold(z, w, u);
    }
  }

  lemma DifferentFolds(z: Zone, w: int)
    requires Spaced(z) && OffsetOf(z, w, 0) != OffsetOf(z, w, 1)
    ensures if OffsetOf(z, w, 0) < OffsetOf(z, w, 1) then NoInstant(z, w)
            else TwoInstants(z, w, w - OffsetOf(z, w, 0), w - OffsetOf(z, w, 1))
  {
    FoldStretches(z, w);
    var k0, k1 := PassedReading(z, w, 0, |z.changes|), PassedReading(z, w, 1, |z.changes|);
    if OffsetOf(z, w, 0) < OffsetOf(z, w, 1) {
      forall u
        ensures Local(z, u) != w
      {
        if Local(z, u) == w {
          ShownFromStretch(z, w, u);
          OtherStretches(z, w, PassedAt(z, u, |z.changes|));
        }
      }
    } else {
      StretchShows(z, w, k0);
      StretchShows(z, w, k1);
      forall u | Local(z, u) == w
        ensures u == w - OffsetOf(z, w, 0) || u == w - OffsetOf(z, w, 1)
      {
        InstantsByFold(z, w, u);
      }
    }
  }

  /**
   * A wall-clock time is accepted exactly when one instant shows it, and resolves to that instant, so showing the
   * result in the zone gives the input back; it is refused exactly when none or two do.
   */
  lemma AcceptedIffUnambiguous(z: Zone, w: int)
    requires Spaced(z)
    ensures var r := ResolveEventTime(Some(z), Naive(w));
            && (r.Ok? <==> exists t :: OnlyInstant(z, w, t))
            && (r.Ok? ==> OnlyInstant(z, w, r.value) && Local(z, r.value) == w)
            && (r.Err? <==> NoInstant(z, w) || exists t, u :: TwoInstants(z, w, t, u))
            && (r.Err? ==> r.error == SkippedOrRepeated)
  {
    if OffsetOf(z, w, 0) == OffsetOf(z, w, 1) {
      EqualFolds(z, w);
    } else {
      DifferentFolds(z, w);
    }
  }

  /** Every instant has a wall-clock reading; a value that carries an offset is taken as it is. */
  lemma ReadingsResolveBack(z: Zone, t: int)
    requires Spaced(z)
    ensures ResolveEventTime(Some(z), Aware(t)) == Ok(t)
    ensures ResolveEventTime(Some(z), Naive(Local(z, t))) == Ok(t)
            || ResolveEventTime(Some(z), Naive(Local(z, t))) == Err(SkippedOrRepeated)
    ensures ResolveEventTime(Some(z), Naive(Local(z, t))).Err? <==> exists u :: u != t && Local(z, u) == Local(z, t)
  {
    AcceptedIffUnambiguous(z, Local(z, t));
  }

  /** The offset in force at an instant: the first one before any transition, else that of the last transition that is past. */
  lemma OffsetInForce(z: Zone, t: int)
    requires Spaced(z)
    ensures (forall i :: 0 <= i < |z.changes| ==> t < z.changes[i].at) ==> Local(z, t) == t + z.first
    ensures forall i :: 0 <= i < |z.changes| && z.changes[i].at <= t && (i + 1 < |z.changes| ==> t < z.changes[i + 1].at) ==>
              Local(z, t) == t + z.changes[i].offset
  {
    var k := PassedAt(z, t, |z.changes|);
    forall i | 0 <= i < |z.changes| && z.changes[i].at <= t && (i + 1 < |z.changes| ==> t < z.changes[i + 1].at)
      ensures k == i + 1
    {
      if i + 1 < k {
        InstantsSorted(z, i + 1, k - 1);
      }
    }
  }

  /** What is refused before any reading: an unknown zone first of all, then a bare date, then what cannot be read. */
  lemma RefusedInputs(z: Zone, value: Input)
    ensures ResolveEventTime(None, value) == Err(UnknownTimezone)
    ensures ResolveEventTime(Some(z), BareDate) == Err(TimeRequired) && ResolveEventTime(Some(z), Unreadable) == Err(Invalid)
  {
  }
}
