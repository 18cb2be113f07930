/**
 * The list write tools as the service runs them: sequenced calls and receipt puts, scan loops that update
 * locals, early returns.  Each is proved to be an uninterrupted execution of the write protocol.
 */
module ListService {
  import opened Common
  import opened Domain
  import opened WireForms
  import opened WriteTools
  import opened WriteProtocol
  import opened Backend

  /** Fetch the accessible lists, then each list in turn until one holds the item. */
  method ScanLists(backend: CallBackend, c: Call, ghost before: map<Key, Receipt>)
      returns (found: Result<Option<(string, ListItem)>, ErrorInfo>)
    requires At(backend, before, c, Listing)
    modifies backend
    ensures match found
            case Ok(Some((inList, item))) => At(backend, before, c, Opening(FoundItem(inList, item)))
            case Ok(None) => At(backend, before, c, Closing(Raised(ErrorInfo(UnsupportedConfiguration, None))))
            case Err(info) => At(backend, before, c, Closing(Raised(info)))
  {
    hide RunOf, Faithful, AfterPuts;
    var reply := Ask(backend, c, GetLists, before, Listing);
    var accessible := AsLists(reply);
    if accessible.Err? {
      return Err(accessible.error.info);
    }
    var lists := accessible.value;
    for k := 0 to |lists|
      invariant At(backend, before, c, ScanOf(lists[k..]))
    {
      assert lists[k..][0] == lists[k] && lists[k..][1..] == lists[k + 1..];
      reply := Ask(backend, c, GetList(lists[k]), before, Scanning(lists[k..]));
      var items := AsItems(reply);
      if items.Err? {
        return Err(items.error.info);
      }
      var item := FirstItem(items.value, c.request.itemId);
      if item.Some? {
        return Ok(Some((lists[k], item.value)));
      }
    }
    return Ok(None);
  }

  /** The inner scan loop, with its early exit. */
  method FirstItem(items: seq<ListItem>, itemId: string) returns (found: Option<ListItem>)
    ensures found == FindItem(items, itemId)
  {
    for k := 0 to |items|
      invariant FindItem(items, itemId) == FindItem(items[k..], itemId)
    {
      if items[k].itemId == itemId {
        return Some(items[k]);
      }
      assert items[k..][1..] == items[k + 1..];
    }
    return None;
  }

  /** What a failed readback leaves: the acknowledgement, or an exception that escapes. */
  method ReadBack(backend: CallBackend, c: Call, b: Before, ack: WriteResult, ghost before: map<Key, Receipt>)
      returns (result: Result<WriteResult, ErrorInfo>)
    requires c.request.AddItem? || c.request.SetAssignees?
    requires At(backend, before, c, ReadingBack(b, ack))
    modifies backend
    ensures match result
            case Ok(settled) => At(backend, before, c, Settling(b, settled))
            case Err(info) => At(backend, before, c, Closing(Raised(info)))
  {
    hide RunOf, Faithful, AfterPuts;
    var inList := if c.request.AddItem? then c.request.listId else b.inList;
    var reply := Ask(backend, c, GetList(inList), before, ReadingBack(b, ack));
    var items := AsItems(reply);
    if items.Err? {
      return if items.error.Indeterminate? then Ok(ack) else Err(items.error.info);
    }
    var wanted := if c.request.AddItem? then ack.itemId.value else c.request.itemId;
    var found := FindItem(items.value, wanted);
    if found.None? {
      return Ok(ack);
    }
    if c.request.SetAssignees? {
      var differences := ItemMismatches(found.value, b.item, c.request.assignment);
      return Ok(SetAssigneesResult(if differences == [] then Confirmed else Mismatched, differences));
    }
    if !AssignmentShown(found.value.toAll, found.value.assigneeIds, c.request.assignment) {
      return Ok(AddItemResult(Mismatched, ack.itemId, None, None, ["assignees"]));
    }
    return Ok(AddItemResult(Confirmed, ack.itemId, None, None, []));
  }

  /** `add_item`: one taskcreate2, then a readback when its reply names the requested list. */
  method AddItem(backend: CallBackend, c: Call) returns (answer: Answer)
    requires c.request.AddItem? && backend.trace == []
    modifies backend
    ensures At(backend, old(backend.receipts), c, Closing(answer))
  {
    ghost var before := backend.receipts;
    var fields := CheckRequest(c);
    if fields.Err? {
      return Raised(fields.error);
    }
    var existing := FindReceipt(backend, c, before);
    if existing.Some? {
      return Replay(c.request, existing.value);
    }
    RecordPending(backend, c, Nothing, before);
    var reply := Send(backend, c, Nothing, "taskcreate2", fields.value, before);
    if reply.Failed? {
      answer := Fail(backend, c, Nothing, reply.error, before);
      return;
    }
    var itemId := if reply.Created? then Or(Truthy(reply.metaId), Truthy(reply.taskId)) else None;
    if itemId.None? {
      answer := RecordUnknown(backend, c, Nothing, before);
      return;
    }
    var inList := Truthy(reply.taskListId);
    var result := AddItemResult(Acknowledged, itemId, None, None, []);
    if inList.Some? && inList.value == c.request.listId {
      RecordAcknowledged(backend, c, Nothing, result, before);
      var read := ReadBack(backend, c, Nothing, result, before);
      if read.Err? {
        return Raised(read.error);
      }
      result := read.value;
    } else if inList.Some? {
      result := AddItemResult(Misfiled, itemId, inList, Some(c.request.listId), []);
    }
    RecordResult(backend, c, Nothing, result, before);
    return Returned(result);
  }

  /** `set_item_assignees`: scan, one taskupdate2, readback. */
  method SetItemAssignees(backend: CallBackend, c: Call) returns (answer: Answer)
    requires c.request.SetAssignees? && backend.trace == []
    modifies backend
    ensures At(backend, old(backend.receipts), c, Closing(answer))
  {
    ghost var before := backend.receipts;
    var fields := CheckRequest(c);
    if fields.Err? {
      return Raised(fields.error);
    }
    var existing := FindReceipt(backend, c, before);
    if existing.Some? {
      return Replay(c.request, existing.value);
    }
    var found := ScanLists(backend, c, before);
    if found.Err? {
      return Raised(found.error);
    }
    if found.value.None? {
      return Raised(ErrorInfo(UnsupportedConfiguration, None));
    }
    var b := FoundItem(found.value.value.0, found.value.value.1);
    RecordPending(backend, c, b, before);
    var reply := Send(backend, c, b, "taskupdate2", fields.value, before);
    if reply.Failed? {
      answer := Fail(backend, c, b, reply.error, before);
      return;
    }
    var ack := SetAssigneesResult(Acknowledged, []);
    RecordAcknowledged(backend, c, b, ack, before);
    var read := ReadBack(backend, c, b, ack, before);
    if read.Err? {
      return Raised(read.error);
    }
    RecordResult(backend, c, b, read.value, before);
    return Returned(read.value);
  }

  /** `set_item_checked`: scan, one taskmark; a refusal is not recorded, and nothing is read back. */
  method SetItemChecked(backend: CallBackend, c: Call) returns (answer: Answer)
    requires c.request.SetChecked? && backend.trace == []
    modifies backend
    ensures At(backend, old(backend.receipts), c, Closing(answer))
  {
    ghost var before := backend.receipts;
    var fields := CheckRequest(c);
    if fields.Err? {
      return Raised(fields.error);
    }
    var existing := FindReceipt(backend, c, before);
    if existing.Some? {
      return Replay(c.request, existing.value);
    }
    var found := ScanLists(backend, c, before);
    if found.Err? {
      return Raised(found.error);
    }
    if found.value.None? {
      return Raised(ErrorInfo(UnsupportedConfiguration, None));
    }
    var b := FoundItem(found.value.value.0, found.value.value.1);
    RecordPending(backend, c, b, before);
    var reply := Send(backend, c, b, "taskmark", fields.value, before);
    if reply.Failed? {
      if !reply.error.Indeterminate? {
        return Raised(reply.error.info);
      }
      answer := RecordUnknown(backend, c, b, before);
      return;
    }
    RecordResult(backend, c, b, SetCheckedResult(Confirmed), before);
    return Returned(SetCheckedResult(Confirmed));
  }
}
