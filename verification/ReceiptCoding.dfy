/** A coding of receipts into texts that confuses nothing, so that the statements about faithful codings are about something. */
module ReceiptCoding {
  import opened Common
  import opened IsoTime
  import opened Domain
  import opened WireForms
  import opened ReceiptRefinement

  // ----- texts that tell where they end -----

  /** Each character is announced, and so is the end. */
  function Quoted(text: string): string
  {
    if text == "" then "." else [':', text[0]] + Quoted(text[1..])
  }

  lemma {:induction false} QuotedCancel(a: string, b: string, x: string, y: string)
    requires Quoted(a) + x == Quoted(b) + y
    ensures a == b && x == y
  {
    var u, v := Quoted(a) + x, Quoted(b) + y;
    assert u[0] == v[0];
    if a != "" && b != "" {
      assert u[1] == a[0] && v[1] == b[0];
      assert u[2..] == Quoted(a[1..]) + x && v[2..] == Quoted(b[1..]) + y;
      QuotedCancel(a[1..], b[1..], x, y);
      assert a == [a[0]] + a[1..] && b == [b[0]] + b[1..];
    } else {
      assert a == "" ==> u[1..] == x;
      assert b == "" ==> v[1..] == y;
    }
  }

  function Listed(parts: seq<string>): string
  {
    if parts == [] then "." else ":" + (Quoted(parts[0]) + Listed(parts[1..]))
  }

  lemma {:induction false} ListedInjective(a: seq<string>, b: seq<string>)
    requires Listed(a) == Listed(b)
    ensures a == b
  {
    assert Listed(a)[0] == Listed(b)[0];
    if a != [] && b != [] {
      assert Listed(a)[1..] == Quoted(a[0]) + Listed(a[1..]) && Listed(b)[1..] == Quoted(b[0]) + Listed(b[1..]);
      QuotedCancel(a[0], b[0], Listed(a[1..]), Listed(b[1..]));
      ListedInjective(a[1..], b[1..]);
      assert a == [a[0]] + a[1..] && b == [b[0]] + b[1..];
    }
  }

  // ----- payload hashes -----

  /** The keys and values of a form, in some order. */
  ghost function Entries(fields: Form): seq<string>
    decreases |fields|
  {
    if fields == map[] then []
    else
      var k :| k in fields;
      [k, fields[k]] + Entries(fields - {k})
  }

  function FromEntries(parts: seq<string>): Form
  {
    if |parts| < 2 then map[] else FromEntries(parts[2..])[parts[0] := parts[1]]
  }

  lemma {:induction false} EntriesReadBack(fields: Form)
    ensures FromEntries(Entries(fields)) == fields
    decreases |fields|
  {
    if fields != map[] {
      var k :| k in fields && Entries(fields) == [k, fields[k]] + Entries(fields - {k});
      EntriesReadBack(fields - {k});
      assert Entries(fields)[2..] == Entries(fields - {k});
    }
  }

  ghost function DigestParts(d: Digest): seq<string>
  {
    match d
    case ListDigest(fields) => [""] + Entries(fields)
    case CalendarDigest(endpoint, calendarId, fields) => ["calendar", endpoint, calendarId] + Entries(fields)
  }

  lemma DigestPartsInjective(a: Digest, b: Digest)
    requires DigestParts(a) == DigestParts(b)
    ensures a == b
  {
    var u, v := DigestParts(a), DigestParts(b);
    assert u[0] == v[0];
    EntriesReadBack(a.fields);
    EntriesReadBack(b.fields);
    if a.ListDigest? {
      assert u[1..] == Entries(a.fields) && v[1..] == Entries(b.fields);
    } else {
      assert u[1] == v[1] && u[2] == v[2];
      assert u[3..] == Entries(a.fields) && v[3..] == Entries(b.fields);
    }
  }

  // ----- stored outcomes -----

  /** A mark of its own for each kind of thing. */
  function Tag(n: nat): (tag: string)
    ensures |tag| == n
  {
    seq(n, _ => '#')
  }

  function IntText(n: int): string
  {
    if n < 0 then ['-'] + Decimal(-n) else ['+'] + Decimal(n)
  }

  lemma IntTextInjective(m: int, n: int)
    requires IntText(m) == IntText(n)
    ensures m == n
  {
    assert IntText(m)[0] == IntText(n)[0] && IntText(m)[1..] == IntText(n)[1..];
    NumberOfDecimal(if m < 0 then -m else m);
    NumberOfDecimal(if n < 0 then -n else n);
  }

  function MaybeText(text: Option<string>): string
  {
    match text
    case None => ""
    case Some(s) => ['+'] + s
  }

  lemma MaybeTextInjective(a: Option<string>, b: Option<string>)
    requires MaybeText(a) == MaybeText(b)
    ensures a == b
  {
    if a.Some? && b.Some? {
      assert MaybeText(a)[1..] == MaybeText(b)[1..];
    }
  }

  function OutcomeTag(outcome: Outcome): string
  {
    match outcome
    case Confirmed => Tag(0)
    case Acknowledged => Tag(1)
    case Misfiled => Tag(2)
    case Mismatched => Tag(3)
    case Unclear => Tag(4)
  }

  function SpanParts(span: Option<Span>): seq<string>
  {
    match span
    case None => []
    case Some(Timed(start, end)) => [Tag(0), IntText(start), IntText(end)]
    case Some(AllDay(start, end)) => [Tag(1), IntText(start), IntText(end)]
  }

  function SpanText(span: Option<Span>): string
  {
    Listed(SpanParts(span))
  }

  lemma SpanTextInjective(a: Option<Span>, b: Option<Span>)
    requires SpanText(a) == SpanText(b)
    ensures a == b
  {
    var u, v := SpanParts(a), SpanParts(b);
    ListedInjective(u, v);
    if a.Some? && b.Some? {
      assert u[0] == v[0] && u[1] == v[1] && u[2] == v[2];
      var (m, n) := if a.value.Timed? then (a.value.start, a.value.end) else (a.value.startDate, a.value.endDate);
      var (p, q) := if b.value.Timed? then (b.value.start, b.value.end) else (b.value.startDate, b.value.endDate);
      IntTextInjective(m, p);
      IntTextInjective(n, q);
    }
  }

  /** The fixed fields of a result; the names of mismatched fields follow. */
  function ResultHead(result: WriteResult): (head: seq<string>)
    ensures |head| == 6
  {
    match result
    case AddItemResult(outcome, itemId, actual, requested, _) =>
      [Tag(0), OutcomeTag(outcome), MaybeText(itemId), MaybeText(actual), MaybeText(requested), ""]
    case SetAssigneesResult(outcome, _) => [Tag(1), OutcomeTag(outcome), "", "", "", ""]
    case SetCheckedResult(outcome) => [Tag(2), OutcomeTag(outcome), "", "", "", ""]
    case CreateEventResult(outcome, eventId, _, actual) => [Tag(3), OutcomeTag(outcome), MaybeText(eventId), SpanText(actual), "", ""]
    case SetAttendeesResult(outcome, targetId, _) => [Tag(4), OutcomeTag(outcome), targetId, "", "", ""]
  }

  function MismatchesOf(result: WriteResult): seq<string>
  {
    if result.SetCheckedResult? then [] else result.mismatched
  }

  lemma ResultHeadInjective(a: WriteResult, b: WriteResult)
    requires ResultHead(a) == ResultHead(b) && MismatchesOf(a) == MismatchesOf(b)
    ensures a == b
  {
    var u, v := ResultHead(a), ResultHead(b);
    assert |u[0]| == |v[0]| && |u[1]| == |v[1]| && u[2] == v[2] && u[3] == v[3] && u[4] == v[4];
    assert a.outcome == b.outcome;
    match a
    case AddItemResult(_, _, _, _, _) =>
      MaybeTextInjective(a.itemId, b.itemId);
      MaybeTextInjective(a.actualListId, b.actualListId);
      MaybeTextInjective(a.requestedListId, b.requestedListId);
    case CreateEventResult(_, _, _, _) =>
      MaybeTextInjective(a.eventId, b.eventId);
      SpanTextInjective(a.actual, b.actual);
    case _ =>
  }

  function RefusalHead(info: ErrorInfo): (head: seq<string>)
    ensures |head| == 6
  {
    var (tag, code, message, recovery) :=
      match info.text
      case OperationIdConflict => (Tag(5), "", "", "")
      case UpstreamRejected => (Tag(6), "", "", "")
      case UnsupportedConfiguration => (Tag(7), "", "", "")
      case EventNotFound => (Tag(8), "", "", "")
      case UnsupportedEvent => (Tag(9), "", "", "")
      case MalformedPayload => (Tag(10), "", "", "")
      case ValueError => (Tag(11), "", "", "")
      case Text(code, message, recovery) => (Tag(12), code, message, recovery);
    [tag, code, message, recovery, MaybeText(info.endpoint), ""]
  }

  lemma RefusalHeadInjective(a: ErrorInfo, b: ErrorInfo)
    requires RefusalHead(a) == RefusalHead(b)
    ensures a == b
  {
    var u, v := RefusalHead(a), RefusalHead(b);
    assert |u[0]| == |v[0]| && u[1] == v[1] && u[2] == v[2] && u[3] == v[3] && u[4] == v[4];
    MaybeTextInjective(a.endpoint, b.endpoint);
  }

  function StoredHead(stored: Stored): (head: seq<string>)
    ensures |head| == 6
  {
    match stored
    case StoredResult(result) => ResultHead(result)
    case StoredRefusal(info) => RefusalHead(info)
    case Unreadable => [Tag(13), "", "", "", "", ""]
  }

  function StoredParts(stored: Stored): seq<string>
  {
    StoredHead(stored) + if stored.StoredResult? then MismatchesOf(stored.result) else []
  }

  lemma StoredKinds(stored: Stored)
    ensures |StoredHead(stored)[0]| < 5 <==> stored.StoredResult?
    ensures |StoredHead(stored)[0]| == 13 <==> stored.Unreadable?
  {
  }

  lemma StoredPartsInjective(a: Stored, b: Stored)
    requires StoredParts(a) == StoredParts(b)
    ensures a == b
  {
    var u, v := StoredParts(a), StoredParts(b);
    assert StoredHead(a) == u[..6] == v[..6] == StoredHead(b);
    StoredKinds(a);
    StoredKinds(b);
    match a
    case StoredResult(result) =>
      assert MismatchesOf(result) == u[6..] == v[6..] == MismatchesOf(b.result);
      ResultHeadInjective(result, b.result);
    case StoredRefusal(info) => RefusalHeadInjective(info, b.info);
    case Unreadable =>
  }

  /** One coding of which all that is asked holds. */
  ghost function PlainCoding(): Coding
  {
    Coding(d => Listed(DigestParts(d)), stored => Listed(StoredParts(stored)))
  }

  lemma PlainCodingIsFaithful()
    ensures Faithful(PlainCoding())
  {
    var coding := PlainCoding();
    forall a, b | coding.hash(a) == coding.hash(b)
      ensures a == b
    {
      ListedInjective(DigestParts(a), DigestParts(b));
      DigestPartsInjective(a, b);
    }
    forall a, b | coding.text(a) == coding.text(b)
      ensures a == b
    {
      ListedInjective(StoredParts(a), StoredParts(b));
      StoredPartsInjective(a, b);
    }
  }
}
