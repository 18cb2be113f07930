/**
 * The write protocol over the table of the SQLite repository: every run against rows with texts for expiry, payload hash
 * and outcome is a run of the protocol over receipts, so the promises about runs hold of the table as well.
 */
module ReceiptRefinement {
  import opened Common
  import opened IsoTime
  import opened Calendar
  import opened Domain
  import opened ReceiptStore
  import opened WriteTools
  import opened WriteProtocol
  import opened WriteRuns
  import opened WriteTheorems

  /** How receipts become rows: the payload hash, and the JSON text of an outcome. */
  datatype Coding = Coding(hash: Digest -> string, text: Stored -> string)

  /** Neither the hash nor the JSON text confuses anything, and no text is empty. */
  ghost predicate Faithful(coding: Coding)
  {
    && (forall a, b :: coding.hash(a) == coding.hash(b) ==> a == b)
    && (forall a, b :: coding.text(a) == coding.text(b) ==> a == b)
    && (forall a :: coding.text(a) != "")
  }

  function TextOf(coding: Coding, stored: Option<Stored>): Option<string>
  {
    match stored
    case Some(s) => Some(coding.text(s))
    case None => None
  }

  /** The dated row contents that stand for a receipt. */
  predicate Codes(coding: Coding, r: Receipt, d: Dated)
  {
    && d.content == Content(r.familyId, r.resourceId, r.action, coding.hash(r.payloadHash), r.status, TextOf(coding, r.upstreamId))
    && Instant(d.expiresAt) == r.expiresAt
  }

  /** Only one receipt of a key has a given row. */
  lemma CodesOnce(coding: Coding, r: Receipt, q: Receipt, d: Dated)
    requires Faithful(coding) && Codes(coding, r, d) && Codes(coding, q, d) && r.key == q.key
    ensures r == q
  {
    assert r.upstreamId.Some? ==> coding.text(r.upstreamId.value) == coding.text(q.upstreamId.value);
  }

  /** Every row stands for the receipt of its key. */
  ghost predicate Mirrors(coding: Coding, contents: map<Key, Dated>, receipts: map<Key, Receipt>)
  {
    && contents.Keys == receipts.Keys
    && forall k :: k in contents ==> receipts[k].key == k && Codes(coding, receipts[k], contents[k])
  }

  // ----- the three store operations -----

  /** What the table answers stands for what the protocol's store answers; a coded row is read back as it is. */
  lemma FindMirrors(coding: Coding, contents: map<Key, Dated>, receipts: map<Key, Receipt>, k: Key, now: Utc)
    requires Faithful(coding) && Mirrors(coding, contents, receipts)
    ensures var found, live := Find(contents, k, now), Live(true, receipts, Instant(now), k);
            && (found.Some? <==> live.Some?)
            && (found.Some? ==> live.value.key == k && Codes(coding, live.value, found.value))
  {
    hide Instant, IsDatetime, Earlier;
    if k in contents {
      assert receipts[k].key == k && Codes(coding, receipts[k], contents[k]);
      InstantOrder(now, contents[k].expiresAt);
    }
  }

  lemma PutMirrors(coding: Coding, contents: map<Key, Dated>, receipts: map<Key, Receipt>, r: Receipt, d: Dated)
    requires Mirrors(coding, contents, receipts) && Codes(coding, r, d)
    ensures Mirrors(coding, contents[r.key := d], receipts[r.key := r])
  {
  }

  lemma PurgeMirrors(coding: Coding, contents: map<Key, Dated>, receipts: map<Key, Receipt>, now: Utc)
    requires Faithful(coding) && Mirrors(coding, contents, receipts)
    ensures Mirrors(coding, Unexpired(contents, now),
                    map k | k in receipts && Instant(now) < receipts[k].expiresAt :: receipts[k])
  {
    forall k | k in contents
      ensures Earlier(now, contents[k].expiresAt) <==> Instant(now) < receipts[k].expiresAt
    {
      assert Codes(coding, receipts[k], contents[k]);
      InstantOrder(now, contents[k].expiresAt);
    }
  }

  // ----- runs over the table -----

  /** The protocol's state with the table in place of the receipts. */
  datatype Tabled = Tabled(contents: map<Key, Dated>, log: Log, now: int, begun: seq<Call>, active: set<nat>)

  /** A step, the datetime at which it is made, and the row it stores. */
  datatype Deed = Deed(step: Step, at: Utc, row: Option<Dated>)

  /** A call makes the step from what the table answers, and stores the row of what it puts. */
  predicate CanDo(coding: Coding, t: Tabled, deed: Deed)
  {
    Instant(deed.at) == t.now &&
    match deed.step
    case Start(c) => forall id :: id in t.active && id < |t.begun| ==> t.begun[id].key != c.key
    case Act(id, e) =>
      && id in t.active && id < |t.begun|
      && var p := RunOf(t.begun[id], TraceOf(t.log, id));
      && p.Some? && Allowed(t.begun[id], p.value, e)
      && (e.Got? ==> Reads(coding, e.found, t.begun[id].key, Find(t.contents, t.begun[id].key, deed.at)))
      && (e.Put? ==> e.receipt.expiresAt == t.now + RECEIPT_TTL && deed.row.Some? && Codes(coding, e.receipt, deed.row.value))
    case Crash(id) => id in t.active
    case _ => true
  }

  /** `found` is the receipt that the row read stands for. */
  predicate Reads(coding: Coding, found: Option<Receipt>, k: Key, row: Option<Dated>)
  {
    && (found.Some? <==> row.Some?)
    && (found.Some? ==> found.value.key == k && Codes(coding, found.value, row.value))
  }

  function Do(coding: Coding, t: Tabled, deed: Deed): Tabled
    requires CanDo(coding, t, deed)
  {
    match deed.step
    case Start(c) => t.(begun := t.begun + [c], active := t.active + {|t.begun|})
    case Act(id, e) =>
      t.(log := t.log + [Entry(id, t.begun[id].key, t.now, e)],
         contents := if e.Put? then t.contents[e.receipt.key := deed.row.value] else t.contents,
         active := if e.Answered? then t.active - {id} else t.active)
    case Crash(id) => t.(active := t.active - {id})
    case Tick(micros) => t.(now := t.now + micros)
    case Purge => t.(contents := Unexpired(t.contents, deed.at))
  }

  function DoAll(coding: Coding, t: Tabled, deeds: seq<Deed>): Option<Tabled>
  {
    if deeds == [] then Some(t)
    else
      match DoAll(coding, t, deeds[..|deeds| - 1])
      case Some(u) => if CanDo(coding, u, deeds[|deeds| - 1]) then Some(Do(coding, u, deeds[|deeds| - 1])) else None
      case None => None
  }

  /** The protocol's state stands for the tabled one. */
  ghost predicate Matches(coding: Coding, t: Tabled, s: System)
  {
    && s.expiring && s.log == t.log && s.now == t.now && s.begun == t.begun && s.active == t.active
    && Mirrors(coding, t.contents, s.receipts)
  }

  lemma ReadMatches(coding: Coding, t: Tabled, s: System, k: Key, at: Utc, found: Option<Receipt>)
    requires Faithful(coding) && Matches(coding, t, s) && Instant(at) == t.now
    requires Reads(coding, found, k, Find(t.contents, k, at))
    ensures found == Live(s.expiring, s.receipts, s.now, k)
  {
    FindMirrors(coding, t.contents, s.receipts, k, at);
    if found.Some? {
      CodesOnce(coding, found.value, Live(true, s.receipts, s.now, k).value, Find(t.contents, k, at).value);
    }
  }

  lemma DeedMatches(coding: Coding, t: Tabled, s: System, deed: Deed)
    requires Faithful(coding) && Matches(coding, t, s) && CanDo(coding, t, deed)
    ensures Enabled(s, deed.step) && Matches(coding, Do(coding, t, deed), Next(s, deed.step))
  {
    hide RunOf, TraceOf, Mirrors, Allowed, PhaseFits, Find;
    match deed.step
    case Act(id, e) =>
      if e.Got? {
        ReadMatches(coding, t, s, t.begun[id].key, deed.at, e.found);
      } else if e.Put? {
        PutMirrors(coding, t.contents, s.receipts, e.receipt, deed.row.value);
      }
    case Purge => PurgeMirrors(coding, t.contents, s.receipts, deed.at);
    case _ =>
  }

  function StepsOf(deeds: seq<Deed>): (steps: seq<Step>)
    ensures |steps| == |deeds|
  {
    if deeds == [] then [] else StepsOf(deeds[..|deeds| - 1]) + [deeds[|deeds| - 1].step]
  }

  /** A run over the table is a run of the protocol, step by step. */
  lemma {:induction false} DeedsMatch(coding: Coding, t: Tabled, s: System, deeds: seq<Deed>)
    requires Faithful(coding) && Matches(coding, t, s) && DoAll(coding, t, deeds).Some?
    ensures After(s, StepsOf(deeds)).Some? && Matches(coding, DoAll(coding, t, deeds).value, After(s, StepsOf(deeds)).value)
  {
    hide Matches, CanDo, Do, Faithful, RunOf, TraceOf, Enabled, Next;
    if deeds != [] {
      var before, deed := deeds[..|deeds| - 1], deeds[|deeds| - 1];
      DeedsMatch(coding, t, s, before);
      DeedMatches(coding, DoAll(coding, t, before).value, After(s, StepsOf(before)).value, deed);
      assert StepsOf(deeds)[..|before|] == StepsOf(before);
    }
  }

  /** Whatever happens over the table has happened, with the same log, in some run of the protocol. */
  lemma TableRunsAreRuns(coding: Coding, contents: map<Key, Dated>, receipts: map<Key, Receipt>, now: int, deeds: seq<Deed>)
      returns (s: System)
    requires Faithful(coding) && Mirrors(coding, contents, receipts)
    requires DoAll(coding, Tabled(contents, [], now, [], {}), deeds).Some?
    ensures Reachable(s) && Matches(coding, DoAll(coding, Tabled(contents, [], now, [], {}), deeds).value, s)
  {
    DeedsMatch(coding, Tabled(contents, [], now, [], {}), Initial(true, receipts, now), deeds);
    s := After(Initial(true, receipts, now), StepsOf(deeds)).value;
  }

  // ----- the table can do whatever the protocol can -----

  /** As long as the calendar lasts, every step of the protocol is one that a call can make over the table. */
  lemma TableFollows(coding: Coding, t: Tabled, s: System, step: Step) returns (deed: Deed)
    requires Faithful(coding) && Matches(coding, t, s) && Enabled(s, step)
    requires InCalendar(s.now) && InCalendar(s.now + RECEIPT_TTL)
    ensures deed.step == step && CanDo(coding, t, deed)
  {
    var at := StampAt(s.now);
    deed := Deed(step, at, None);
    if step.Act? {
      if step.effect.Got? {
        FindMirrors(coding, t.contents, s.receipts, t.begun[step.id].key, at);
      } else if step.effect.Put? {
        var row := RowFor(coding, step.effect.receipt);
        deed := Deed(step, at, Some(row));
      }
    }
  }

  /** The row that stores a receipt. */
  lemma RowFor(coding: Coding, r: Receipt) returns (row: Dated)
    requires InCalendar(r.expiresAt)
    ensures Codes(coding, r, row)
  {
    var expiresAt := StampAt(r.expiresAt);
    row := Dated(Content(r.familyId, r.resourceId, r.action, coding.hash(r.payloadHash), r.status, TextOf(coding, r.upstreamId)),
                 expiresAt);
  }

  lemma {:induction false} TimeRuns(s: System, steps: seq<Step>)
    requires After(s, steps).Some?
    ensures s.now <= After(s, steps).value.now
  {
    if steps != [] {
      TimeRuns(s, steps[..|steps| - 1]);
    }
  }

  lemma {:induction false} TableFollowsRun(coding: Coding, t: Tabled, s: System, steps: seq<Step>) returns (deeds: seq<Deed>)
    requires Faithful(coding) && Matches(coding, t, s) && After(s, steps).Some?
    requires InCalendar(s.now) && InCalendar(After(s, steps).value.now + RECEIPT_TTL)
    ensures StepsOf(deeds) == steps && DoAll(coding, t, deeds).Some?
    ensures Matches(coding, DoAll(coding, t, deeds).value, After(s, steps).value)
  {
    hide Matches, CanDo, Do, Faithful, RunOf, TraceOf;
    if steps == [] {
      deeds := [];
    } else {
      var before, step := steps[..|steps| - 1], steps[|steps| - 1];
      var r := After(s, before).value;
      TimeRuns(s, before);
      assert r.now <= Next(r, step).now;
      var done := TableFollowsRun(coding, t, s, before);
      var u := DoAll(coding, t, done).value;
      var deed := TableFollows(coding, u, r, step);
      DeedMatches(coding, u, r, deed);
      deeds := done + [deed];
      assert deeds[..|done|] == done;
    }
  }

  /** Whatever the protocol does before the end of year 9999, calls over the table can do, with the same log. */
  lemma RunsAreTableRuns(coding: Coding, contents: map<Key, Dated>, receipts: map<Key, Receipt>, now: int, steps: seq<Step>)
      returns (deeds: seq<Deed>)
    requires Faithful(coding) && Mirrors(coding, contents, receipts) && After(Initial(true, receipts, now), steps).Some?
    requires InCalendar(now) && InCalendar(After(Initial(true, receipts, now), steps).value.now + RECEIPT_TTL)
    ensures var end := DoAll(coding, Tabled(contents, [], now, [], {}), deeds);
            end.Some? && Matches(coding, end.value, After(Initial(true, receipts, now), steps).value)
  {
    hide CanDo, Do, Faithful, RunOf, TraceOf, After, DoAll, StepsOf;
    deeds := TableFollowsRun(coding, Tabled(contents, [], now, [], {}), Initial(true, receipts, now), steps);
  }

  // ----- a promise, over the table -----

  /** For one: over the table, at most one mutation goes out for a key whose pending rows lie within one lifetime. */
  lemma AtMostOneSendOverTable(coding: Coding, contents: map<Key, Dated>, receipts: map<Key, Receipt>, now: int,
                               deeds: seq<Deed>, i: nat, j: nat)
    requires Faithful(coding) && Mirrors(coding, contents, receipts)
    requires DoAll(coding, Tabled(contents, [], now, [], {}), deeds).Some?
    requires var log := DoAll(coding, Tabled(contents, [], now, [], {}), deeds).value.log;
             && i < |log| && j < |log| && IsSend(log[i].effect) && IsSend(log[j].effect) && log[i].key == log[j].key
             && OpenedWithinALifetime(log, log[i].key)
    ensures i == j
  {
    var s := TableRunsAreRuns(coding, contents, receipts, now, deeds);
    AtMostOneSend(s, i, j);
  }
}
