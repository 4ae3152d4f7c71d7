/** How a modem reply is turned into a list of message records:
    `extract_messages` (alcatelik40_smsctl.py:158-170) and the
    received-only filter of `get_sms_list` and `get_sms_by_contact`
    (alcatelik40_smsctl.py:104-127). */
module Payload {
  import opened Json

  /** `isinstance(value, list) and value and isinstance(value[0], dict)`:
      a non-empty list whose first element is an object. */
  predicate IsRecordList(v: Json)
  {
    v.JArr? && v.items != [] && v.items[0].JObj?
  }

  /** The position of the first member, in key order, whose value is a
      record list (the `items()` loop of alcatelik40_smsctl.py:167-169). */
  function FirstRecordList(fields: Fields): (r: Option<nat>)
    ensures r.Some? ==> r.value < |fields| && IsRecordList(fields[r.value].1)
    ensures r.Some? ==> forall j :: 0 <= j < r.value ==> !IsRecordList(fields[j].1)
    ensures r.None? <==> forall j :: 0 <= j < |fields| ==> !IsRecordList(fields[j].1)
  {
    if fields == [] then None
    else if IsRecordList(fields[0].1) then Some(0)
    else
      match FirstRecordList(fields[1..])
      case None => None
      case Some(k) => Some(k + 1)
  }

  /** Python `data[key]` after `key in data` held: a dict gives the value,
      a list or a string raises TypeError on a string index. */
  function Subscript(data: Json, key: string): Result<Json>
  {
    if data.JObj? then Ok(GetOr(data.fields, key, JNull)) else Err(TypeError)
  }

  /** `extract_messages(data)`: a falsy payload gives `[]`; otherwise the
      value under MessageList, SMSList or ContentList, tried in that order
      and returned as it is; otherwise the first record list among the
      values; otherwise `[]`. A truthy payload that is not a dict makes
      Python raise. */
  function ExtractMessages(data: Json): Result<Json>
  {
    if !Truthy(data) then Ok(JArr([]))
    else
      var hasMessages :- Contains(data, "MessageList");
      if hasMessages then Subscript(data, "MessageList")
      else
        var hasSms :- Contains(data, "SMSList");
        if hasSms then Subscript(data, "SMSList")
        else
          var hasContent :- Contains(data, "ContentList");
          if hasContent then Subscript(data, "ContentList")
          else if !data.JObj? then Err(AttributeError)
          else
            match FirstRecordList(data.fields)
            case Some(k) => Ok(data.fields[k].1)
            case None => Ok(JArr([]))
  }

  /** One of the three container names the modem uses. */
  predicate HasContainer(fields: Fields)
  {
    Has(fields, "MessageList") || Has(fields, "SMSList") || Has(fields, "ContentList")
  }

  /** What `extract_messages` gives, case by case: `[]` for a falsy
      payload; on an object, the first container name present wins and its
      value is returned unchanged, whatever its type; with no container,
      the first record list in key order, or `[]` when there is none. On
      an object it never fails. */
  lemma ExtractCases(data: Json)
    ensures !Truthy(data) ==> ExtractMessages(data) == Ok(JArr([]))
    ensures data.JObj? ==> ExtractMessages(data).Ok?
    ensures data.JObj? && Truthy(data) && Has(data.fields, "MessageList") ==>
      ExtractMessages(data) == Ok(GetOr(data.fields, "MessageList", JNull))
    ensures data.JObj? && Truthy(data) && !Has(data.fields, "MessageList") && Has(data.fields, "SMSList") ==>
      ExtractMessages(data) == Ok(GetOr(data.fields, "SMSList", JNull))
    ensures (data.JObj? && Truthy(data) && !Has(data.fields, "MessageList") && !Has(data.fields, "SMSList")
      && Has(data.fields, "ContentList")) ==>
      ExtractMessages(data) == Ok(GetOr(data.fields, "ContentList", JNull))
    ensures data.JObj? && !HasContainer(data.fields) ==>
      forall k :: (0 <= k < |data.fields| && IsRecordList(data.fields[k].1) &&
        (forall j :: 0 <= j < k ==> !IsRecordList(data.fields[j].1))) ==>
        ExtractMessages(data) == Ok(data.fields[k].1)
    ensures (data.JObj? && !HasContainer(data.fields) &&
      (forall j :: 0 <= j < |data.fields| ==> !IsRecordList(data.fields[j].1))) ==>
      ExtractMessages(data) == Ok(JArr([]))
  {
  }

  /** On a truthy payload that is not an object `extract_messages` raises:
      TypeError when `in` is not defined for it or a container name is
      found in a list or a string, AttributeError from `.items()` when not. */
  lemma ExtractRaisesOnNonObjects(data: Json)
    requires Truthy(data) && !data.JObj?
    ensures ExtractMessages(data).Err?
    ensures (data.JNull? || data.JBool? || data.JInt?) ==> ExtractMessages(data) == Err(TypeError)
    ensures (data.JArr? && JStr("MessageList") !in data.items && JStr("SMSList") !in data.items &&
      JStr("ContentList") !in data.items) ==> ExtractMessages(data) == Err(AttributeError)
  {
  }

  /** `msg.get('SMSType') == 0`: the message is an incoming one. A record
      without SMSType is not; `False` counts as 0, as in Python. */
  predicate IsReceived(msg: Json)
  {
    msg.JObj? && EqualsInt(Get(msg.fields, "SMSType"), 0)
  }

  /** `[msg for msg in messages if msg.get('SMSType') == 0]` over the
      elements a `for` loop visits; `.get` on an element that is not a dict
      raises AttributeError. */
  function FilterReceived(items: seq<Json>): Result<seq<Json>>
  {
    if items == [] then Ok([])
    else if !items[0].JObj? then Err(AttributeError)
    else
      var rest :- FilterReceived(items[1..]);
      Ok(if IsReceived(items[0]) then [items[0]] + rest else rest)
  }

  /** `r` is `s` with some elements left out, the rest in their order. */
  predicate IsSubsequence(r: seq<Json>, s: seq<Json>)
    decreases |s|
  {
    if r == [] then true
    else if s == [] then false
    else if r[0] == s[0] then IsSubsequence(r[1..], s[1..])
    else IsSubsequence(r, s[1..])
  }

  lemma {:induction false} SubsequenceOfTail(r: seq<Json>, s: seq<Json>, x: Json)
    requires IsSubsequence(r, s)
    ensures IsSubsequence(r, [x] + s)
    decreases |s|, 1
  {
    assert ([x] + s)[1..] == s;
    if r != [] && r[0] == x {
      SubsequenceDropHead(r, s);
    }
  }

  lemma {:induction false} SubsequenceDropHead(r: seq<Json>, s: seq<Json>)
    requires r != [] && IsSubsequence(r, s)
    ensures IsSubsequence(r[1..], s)
    decreases |s|, 0
  {
    if r[0] != s[0] {
      SubsequenceDropHead(r, s[1..]);
      SubsequenceOfTail(r[1..], s[1..], s[0]);
    } else if r[1..] != [] {
      SubsequenceOfTail(r[1..], s[1..], s[0]);
    }
  }

  /** The received filter fails exactly when some element is not an
      object; otherwise it keeps, in order and unchanged, exactly the
      received messages, each as often as it occurs. */
  lemma {:induction false} FilterReceivedSpec(items: seq<Json>)
    ensures FilterReceived(items).Err? <==> exists i :: 0 <= i < |items| && !items[i].JObj?
    ensures FilterReceived(items).Ok? ==> IsSubsequence(FilterReceived(items).value, items)
    ensures FilterReceived(items).Ok? ==> forall x ::
      multiset(FilterReceived(items).value)[x] == if IsReceived(x) then multiset(items)[x] else 0
  {
    if items != [] {
      var tail := items[1..];
      assert items == [items[0]] + tail;
      FilterReceivedSpec(tail);
      if !items[0].JObj? {
      } else if FilterReceived(tail).Err? {
        var i :| 0 <= i < |tail| && !tail[i].JObj?;
        assert !items[i + 1].JObj?;
      } else {
        var rest := FilterReceived(tail).value;
        forall i | 0 <= i < |items| ensures items[i].JObj? {
          if i > 0 {
            assert items[i] == tail[i - 1];
          }
        }
        SubsequenceOfTail(rest, tail, items[0]);
        if IsReceived(items[0]) {
          assert ([items[0]] + rest)[1..] == rest;
        }
      }
    }
  }

  /** A filtered list holds received messages only, and every received
      message of the source list is in it. */
  lemma FilterReceivedMembers(items: seq<Json>)
    requires FilterReceived(items).Ok?
    ensures forall x :: x in FilterReceived(items).value <==> x in items && IsReceived(x)
  {
    FilterReceivedSpec(items);
    var r := FilterReceived(items).value;
    forall x ensures x in r <==> x in items && IsReceived(x) {
      assert x in r <==> multiset(r)[x] > 0;
      assert x in items <==> multiset(items)[x] > 0;
    }
  }

  /** `received_only` post-processing of a fetched list: extract the
      records, keep the received ones, and wrap them again under `key`. */
  function ReceivedUnder(data: Json, key: string): Result<Json>
  {
    var messages :- ExtractMessages(data);
    var elements :- Iterate(messages);
    var received :- FilterReceived(elements);
    Ok(JObj([(key, JArr(received))]))
  }

  /** `get_sms_list(unread_only, received_only)` given the reply of the
      request: None when the request failed or the reply is an error,
      otherwise the `result` member, filtered and wrapped under
      MessageList when `received_only` is set. Which of the two list
      requests was sent (all or unread) only changes the reply. */
  function GetSmsList(reply: Reply, receivedOnly: bool): Result<Option<Json>>
  {
    if ReplyFailed(reply) then Ok(None)
    else
      var data := GetOr(reply.value, "result", JObj([]));
      if receivedOnly then
        var wrapped :- ReceivedUnder(data, "MessageList");
        Ok(Some(wrapped))
      else Ok(Some(data))
  }

  /** `get_sms_by_contact(contact_id, received_only)` given the reply of
      the request: as `GetSmsList`, with the filtered list wrapped under
      ContentList. */
  function GetSmsByContact(reply: Reply, receivedOnly: bool): Result<Option<Json>>
  {
    if ReplyFailed(reply) then Ok(None)
    else
      var data := GetOr(reply.value, "result", JObj([]));
      if receivedOnly then
        var wrapped :- ReceivedUnder(data, "ContentList");
        Ok(Some(wrapped))
      else Ok(Some(data))
  }

  /** The filtered list, wrapped under either name, is extracted back
      unchanged: this is what `find_contact_id` scans. */
  lemma ReceivedRoundTrip(received: seq<Json>)
    ensures ExtractMessages(JObj([("MessageList", JArr(received))])) == Ok(JArr(received))
    ensures ExtractMessages(JObj([("ContentList", JArr(received))])) == Ok(JArr(received))
  {
    var byList := [("MessageList", JArr(received))];
    var byContent := [("ContentList", JArr(received))];
    assert Has(byList, "MessageList") by {
      assert byList[0].0 == "MessageList";
    }
    assert !Has(byContent, "MessageList") && !Has(byContent, "SMSList") by {
      assert byContent[0].0 == "ContentList";
    }
    assert Has(byContent, "ContentList") by {
      assert byContent[0].0 == "ContentList";
    }
  }

  /** A successful received-only listing holds exactly the received
      messages of the reply's payload, in their order, under MessageList. */
  lemma GetSmsListReceived(reply: Reply)
    requires GetSmsList(reply, true).Ok? && GetSmsList(reply, true).value.Some?
    ensures !ReplyFailed(reply)
    ensures var data := GetOr(reply.value, "result", JObj([]));
      ExtractMessages(data).Ok? && Iterate(ExtractMessages(data).value).Ok? &&
      var elements := Iterate(ExtractMessages(data).value).value;
      exists received: seq<Json> ::
        GetSmsList(reply, true).value.value == JObj([("MessageList", JArr(received))]) &&
        ExtractMessages(JObj([("MessageList", JArr(received))])) == Ok(JArr(received)) &&
        IsSubsequence(received, elements) &&
        (forall x :: multiset(received)[x] == if IsReceived(x) then multiset(elements)[x] else 0) &&
        forall x :: x in received ==> IsReceived(x)
  {
    var data := GetOr(reply.value, "result", JObj([]));
    var messages := ExtractMessages(data).value;
    var elements := Iterate(messages).value;
    var received := FilterReceived(elements).value;
    ReceivedRoundTrip(received);
    FilterReceivedSpec(elements);
    FilterReceivedMembers(elements);
  }

  /** A successful received-only contact listing holds exactly the
      received messages of the reply's payload, in their order, under
      ContentList. */
  lemma GetSmsByContactReceived(reply: Reply)
    requires GetSmsByContact(reply, true).Ok? && GetSmsByContact(reply, true).value.Some?
    ensures !ReplyFailed(reply)
    ensures var data := GetOr(reply.value, "result", JObj([]));
      ExtractMessages(data).Ok? && Iterate(ExtractMessages(data).value).Ok? &&
      var elements := Iterate(ExtractMessages(data).value).value;
      exists received: seq<Json> ::
        GetSmsByContact(reply, true).value.value == JObj([("ContentList", JArr(received))]) &&
        ExtractMessages(JObj([("ContentList", JArr(received))])) == Ok(JArr(received)) &&
        IsSubsequence(received, elements) &&
        (forall x :: multiset(received)[x] == if IsReceived(x) then multiset(elements)[x] else 0) &&
        forall x :: x in received ==> IsReceived(x)
  {
    var data := GetOr(reply.value, "result", JObj([]));
    var messages := ExtractMessages(data).value;
    var elements := Iterate(messages).value;
    var received := FilterReceived(elements).value;
    ReceivedRoundTrip(received);
    FilterReceivedSpec(elements);
    FilterReceivedMembers(elements);
  }
}
