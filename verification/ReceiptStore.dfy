/** The receipt repositories: rows with expiry as text against a plain map, and why purging is invisible. */
module ReceiptStore {
  import opened Common
  import opened IsoTime
  import opened Calendar
  import opened Domain

  /** A receipt as the caller sees it, without its key. */
  datatype Content = Content(
    familyId: string, resourceId: string, action: Action, payloadHash: string, status: Status, upstreamId: Option<string>)

  /** A UTC datetime. */
  type Utc = s: Stamp | IsDatetime(s) witness Stamp(1970, 1, 1, 0, 0, 0, 0)

  datatype Dated = Dated(content: Content, expiresAt: Utc)

  /** A table row: the expiry is an ISO 8601 string. */
  datatype Row = Row(content: Content, expiresAt: string)

  /** Reading a row turns an empty upstream ID into none. */
  function AsRead(d: Dated): Dated
  {
    if d.content.upstreamId == Some("") then d.(content := d.content.(upstreamId := None)) else d
  }

  /** What `get` answers at `now`: an expired receipt is as good as absent. */
  function Find(contents: map<Key, Dated>, k: Key, now: Utc): Option<Dated>
  {
    if k in contents && Earlier(now, contents[k].expiresAt) then Some(AsRead(contents[k])) else None
  }

  function Unexpired(contents: map<Key, Dated>, now: Utc): map<Key, Dated>
  {
    map k | k in contents && Earlier(now, contents[k].expiresAt) :: contents[k]
  }

  lemma EarlierTransitive(a: Stamp, b: Stamp, c: Stamp)
    requires Earlier(a, b) && Earlier(b, c)
    ensures Earlier(a, c)
  {
  }

  lemma EarlierTotal(a: Stamp, b: Stamp)
    ensures Earlier(a, b) || a == b || Earlier(b, a)
    ensures !(Earlier(a, b) && Earlier(b, a)) && !Earlier(a, a)
  {
  }

  /** `expires_at <= ?` between texts. */
  predicate PastText(expiry: string, now: string)
  {
    LexLess(expiry, now) || expiry == now
  }

  /** The SQL test on the texts is the test on the instants. */
  lemma TextTestIsInstantTest(expiry: Utc, now: Utc)
    ensures PastText(IsoText(expiry), IsoText(now)) <==> !Earlier(now, expiry)
    ensures PastText(IsoText(expiry), IsoText(now)) <==> Instant(expiry) <= Instant(now)
  {
    IsoOrder(expiry, now);
    IsoOrder(now, expiry);
    EarlierTotal(expiry, now);
    InstantOrder(now, expiry);
    hide Earlier, IsoText, Instant, LexLess;
  }

  // ----- the two repositories -----

  /** The row that stores a receipt. */
  function RowOf(d: Dated): Row
  {
    Row(d.content, IsoText(d.expiresAt))
  }

  class SqliteReceipts {
    var rows: map<Key, Row>
    ghost var contents: map<Key, Dated>

    /** Every row is the stored form of one dated receipt. */
    ghost predicate Valid()
      reads this
    {
      rows.Keys == contents.Keys && forall k :: k in rows ==> rows[k] == RowOf(contents[k])
    }

    constructor ()
      ensures Valid() && contents == map[]
    {
      rows, contents := map[], map[];
    }

    method Get(k: Key, now: Utc) returns (found: Option<Dated>)
      requires Valid()
      ensures found == Find(contents, k, now)
      ensures found.Some? <==> k in contents && Instant(now) < Instant(contents[k].expiresAt)
      ensures found.Some? ==>
                && found.value.expiresAt == contents[k].expiresAt
                && found.value.content == contents[k].content.(upstreamId :=
                     if contents[k].content.upstreamId == Some("") then None else contents[k].content.upstreamId)
    {
      if k !in rows {
        return None;
      }
      InstantOrder(now, contents[k].expiresAt);
      ParseIsoText(contents[k].expiresAt);
      var expiresAt: Utc := ParseIso(rows[k].expiresAt).value;
      EarlierTotal(expiresAt, now);
      if expiresAt == now || Earlier(expiresAt, now) {
        return None;
      }
      var upstreamId := if rows[k].content.upstreamId == Some("") then None else rows[k].content.upstreamId;
      return Some(Dated(rows[k].content.(upstreamId := upstreamId), expiresAt));
    }

    method Put(k: Key, d: Dated)
      requires Valid()
      modifies this
      ensures Valid() && contents == old(contents)[k := d]
    {
      rows := rows[k := RowOf(d)];
      contents := contents[k := d];
    }

    /** `DELETE ... WHERE expires_at <= ?`: the comparison is between texts. */
    method PurgeExpired(now: Utc)
      requires Valid()
      modifies this
      ensures Valid() && contents == Unexpired(old(contents), now)
      ensures forall k :: k in contents <==> k in old(contents) && Instant(now) < Instant(old(contents)[k].expiresAt)
      ensures forall k :: k in contents ==> contents[k] == old(contents)[k]
    {
      hide Earlier, IsoText, PastText, Instant;
      forall k | k in rows
        ensures PastText(rows[k].expiresAt, IsoText(now)) <==> !Earlier(now, contents[k].expiresAt)
      {
        TextTestIsInstantTest(contents[k].expiresAt, now);
      }
      forall k | k in contents
        ensures Earlier(now, contents[k].expiresAt) <==> Instant(now) < Instant(contents[k].expiresAt)
      {
        InstantOrder(now, contents[k].expiresAt);
      }
      rows := map k | k in rows && !PastText(rows[k].expiresAt, IsoText(now)) :: rows[k];
      contents := Unexpired(contents, now);
    }
  }

  class InMemoryReceipts {
    var receipts: map<Key, Dated>

    constructor ()
      ensures receipts == map[]
    {
      receipts := map[];
    }

    method Get(k: Key) returns (found: Option<Dated>)
      ensures found == if k in receipts then Some(receipts[k]) else None
    {
      if k in receipts {
        return Some(receipts[k]);
      }
      return None;
    }

    method Put(k: Key, d: Dated)
      modifies this
      ensures receipts == old(receipts)[k := d]
    {
      receipts := receipts[k := d];
    }
  }

  // ----- histories of one store -----

  datatype Use = Stored(key: Key, dated: Dated) | Purged

  datatype Used = Used(at: Utc, use: Use)

  /** The SQLite contents after a history. */
  function Kept(history: seq<Used>): map<Key, Dated>
  {
    if history == [] then map[]
    else
      var before, last := Kept(history[..|history| - 1]), history[|history| - 1];
      match last.use
      case Stored(k, d) => before[k := d]
      case Purged => Unexpired(before, last.at)
  }

  /** The in-memory contents after the same history. */
  function Remembered(history: seq<Used>): map<Key, Dated>
  {
    if history == [] then map[]
    else
      var before, last := Remembered(history[..|history| - 1]), history[|history| - 1];
      match last.use
      case Stored(k, d) => before[k := d]
      case Purged => before
  }

  /** The clock never runs backwards, and reads `now` at the end or later. */
  predicate Chronological(history: seq<Used>, now: Utc)
  {
    && (forall i, j :: 0 <= i < j < |history| ==> !Earlier(history[j].at, history[i].at))
    && (forall i :: 0 <= i < |history| ==> !Earlier(now, history[i].at))
  }

  lemma LateIsLate(expiry: Utc, purged: Utc, now: Utc)
    requires !Earlier(purged, expiry) && !Earlier(now, purged)
    ensures !Earlier(now, expiry)
  {
    EarlierTotal(purged, now);
    EarlierTotal(expiry, purged);
    EarlierTotal(expiry, now);
    if Earlier(now, expiry) {
      if Earlier(purged, now) {
        EarlierTransitive(purged, now, expiry);
      }
    }
  }

  /** The table keeps what the dict remembers, except receipts that have expired. */
  lemma {:induction false} KeptAreRemembered(history: seq<Used>, now: Utc, k: Key)
    requires Chronological(history, now)
    ensures k in Kept(history) ==> k in Remembered(history) && Kept(history)[k] == Remembered(history)[k]
    ensures k in Remembered(history) && k !in Kept(history) ==> !Earlier(now, Remembered(history)[k].expiresAt)
  {
    if history != [] {
      var before, last := history[..|history| - 1], history[|history| - 1];
      KeptAreRemembered(before, last.at, k);
      if k in Remembered(before) && !Earlier(last.at, Remembered(before)[k].expiresAt) {
        LateIsLate(Remembered(before)[k].expiresAt, last.at, now);
      }
    }
  }

  /**
   * Purging never changes an answer: at any later time the SQLite repository answers as the in-memory one does,
   * expiry and the empty upstream ID apart.
   */
  lemma SqliteAgreesWithMemory(history: seq<Used>, now: Utc, k: Key)
    requires Chronological(history, now)
    ensures Find(Kept(history), k, now) == Find(Remembered(history), k, now)
  {
    KeptAreRemembered(history, now, k);
  }
}
