/** The three command loops whose network calls are replaced by the
    replies they receive: the delivery polling of `send_sms`
    (alcatelik40_smsctl.py:77-102), the counting loop of `delete_all_sms`
    (alcatelik40_smsctl.py:229-254) and the option loop of `receive`
    (alcatelik40_smsctl.py:321-347). */
module Commands {
  import opened Json
  import opened PyText
  import opened Payload
  import opened Decode

  // ---------------------------------------------------------------- send

  /** How the modem reports a submitted message. */
  datatype SendStatus = Delivered | Rejected | Pending

  /** What `send_sms` returns: True, False, or (when the replies given run
      out while the modem still reports it pending) no answer yet. */
  datatype SendOutcome = Sent | NotSent | StillPolling

  /** Python `v > n` for an integer `n`: integers and booleans compare by
      value, anything else (None, a string, a list, a dict) raises
      TypeError. */
  function GreaterThan(v: Json, n: int): (r: Result<bool>)
    ensures r.Ok? <==> v.JInt? || v.JBool?
    ensures v.JInt? ==> r == Ok(v.i > n)
  {
    match v
    case JInt(i) => Ok(i > n)
    case JBool(b) => Ok((if b then 1 else 0) > n)
    case _ => Err(TypeError)
  }

  /** `send_status == 2` succeeds, else `send_status > 2` fails, else the
      loop polls again. */
  function ClassifySendStatus(status: Json): Result<SendStatus>
  {
    if EqualsInt(status, 2) then Ok(Delivered)
    else
      var greater :- GreaterThan(status, 2);
      Ok(if greater then Rejected else Pending)
  }

  /** The classification, code by code: only status 2 is a delivery, every
      integer above 2 a rejection, every integer below 2 (and a boolean) a
      reason to poll again; a missing status (None) or a string raises at
      the `>` comparison. */
  lemma ClassifyCases(status: Json)
    ensures ClassifySendStatus(status) == Ok(Delivered) <==> status == JInt(2)
    ensures ClassifySendStatus(status) == Ok(Rejected) <==> status.JInt? && status.i > 2
    ensures ClassifySendStatus(status) == Ok(Pending) <==> (status.JInt? && status.i < 2) || status.JBool?
    ensures ClassifySendStatus(status).Err? <==> !(status.JInt? || status.JBool?)
    ensures ClassifySendStatus(JNull) == Err(TypeError)
  {
  }

  /** `status_result.get("result", {}).get("SendStatus")`: the inner `.get`
      raises AttributeError when `result` holds something other than a
      dict. */
  function StatusOf(reply: Fields): Result<Json>
  {
    var result := GetOr(reply, "result", JObj([]));
    if result.JObj? then Ok(Get(result.fields, "SendStatus")) else Err(AttributeError)
  }

  /** The classification a status check reply leads to. */
  function CheckOutcome(check: Reply): Result<SendStatus>
    requires !ReplyFailed(check)
  {
    var status :- StatusOf(check.value);
    ClassifySendStatus(status)
  }

  /** The polling loop over the replies of successive status checks: a
      failed check ends it with False, a delivery with True, a rejection
      with False, a pending status moves on to the next check. */
  function PollOutcome(checks: seq<Reply>): Result<SendOutcome>
  {
    if checks == [] then Ok(StillPolling)
    else if ReplyFailed(checks[0]) then Ok(NotSent)
    else
      var status :- CheckOutcome(checks[0]);
      match status
      case Delivered => Ok(Sent)
      case Rejected => Ok(NotSent)
      case Pending => PollOutcome(checks[1..])
  }

  /** The check does not end the polling. */
  predicate PendingCheck(check: Reply)
  {
    !ReplyFailed(check) && CheckOutcome(check) == Ok(Pending)
  }

  /** The check that ends the polling with success. */
  predicate DeliveredCheck(check: Reply)
  {
    !ReplyFailed(check) && CheckOutcome(check) == Ok(Delivered)
  }

  /** Check `k` reports the delivery after only pending checks. */
  predicate DeliveredAt(checks: seq<Reply>, k: nat)
  {
    k < |checks| && (forall j :: 0 <= j < k ==> PendingCheck(checks[j])) && DeliveredCheck(checks[k])
  }

  /** A delivery after pending checks, seen from the second check on. */
  lemma DeliveredAtShift(checks: seq<Reply>, k: nat)
    requires checks != [] && PendingCheck(checks[0]) && DeliveredAt(checks[1..], k)
    ensures DeliveredAt(checks, k + 1)
  {
    var tail := checks[1..];
    forall j | 0 <= j < k + 1 ensures PendingCheck(checks[j]) {
      if j > 0 {
        assert checks[j] == tail[j - 1];
      }
    }
  }

  /** A delivery after pending checks, seen from the first check. */
  lemma DeliveredAtUnshift(checks: seq<Reply>, k: nat)
    requires k > 0 && DeliveredAt(checks, k)
    ensures PendingCheck(checks[0]) && DeliveredAt(checks[1..], k - 1)
  {
    var tail := checks[1..];
    forall j | 0 <= j < k - 1 ensures PendingCheck(tail[j]) {
      assert tail[j] == checks[j + 1];
    }
  }

  /** `send_sms` reports success exactly when some status check says 2 and
      every check before it was accepted and pending. */
  lemma {:induction false} SentIffDelivered(checks: seq<Reply>)
    ensures PollOutcome(checks) == Ok(Sent) <==> exists k :: DeliveredAt(checks, k)
  {
    if checks != [] {
      var tail := checks[1..];
      SentIffDelivered(tail);
      if PollOutcome(checks) == Ok(Sent) {
        if !DeliveredCheck(checks[0]) {
          var k :| DeliveredAt(tail, k);
          DeliveredAtShift(checks, k);
        } else {
          assert DeliveredAt(checks, 0);
        }
      } else {
        forall k | DeliveredAt(checks, k) ensures false {
          if k > 0 {
            DeliveredAtUnshift(checks, k);
          }
        }
      }
    }
  }

  /** Polling is sequential: the checks after a sequence of pending ones
      decide alone, and a sequence that ends the polling is not affected by
      later replies. */
  lemma {:induction false} PollAppend(a: seq<Reply>, b: seq<Reply>)
    ensures PollOutcome(a + b) == if PollOutcome(a) == Ok(StillPolling) then PollOutcome(b) else PollOutcome(a)
  {
    if a == [] {
      assert a + b == b;
    } else {
      assert (a + b)[0] == a[0];
      assert (a + b)[1..] == a[1..] + b;
      PollAppend(a[1..], b);
    }
  }

  /** `send_sms(phone_number, message)` given the reply to the SendSMS
      request and those of the successive status checks. */
  method SendSms(sendReply: Reply, checks: seq<Reply>) returns (r: Result<SendOutcome>)
    ensures r == if ReplyFailed(sendReply) then Ok(NotSent) else PollOutcome(checks)
  {
    if ReplyFailed(sendReply) {
      return Ok(NotSent);
    }
    var i := 0;
    while i < |checks|
      invariant 0 <= i <= |checks|
      invariant PollOutcome(checks) == PollOutcome(checks[i..])
    {
      var statusResult := checks[i];
      assert checks[i..][0] == statusResult && checks[i..][1..] == checks[i + 1..];
      if ReplyFailed(statusResult) {
        return Ok(NotSent);
      }
      var sendStatus := StatusOf(statusResult.value);
      if sendStatus.Err? {
        return Err(sendStatus.error);
      }
      if EqualsInt(sendStatus.value, 2) {
        return Ok(Sent);
      }
      var greater := GreaterThan(sendStatus.value, 2);
      if greater.Err? {
        return Err(greater.error);
      }
      if greater.value {
        return Ok(NotSent);
      }
      i := i + 1;
    }
    return Ok(StillPolling);
  }

  // -------------------------------------------------------------- delete

  /** `msg.get('ContactId')`. */
  function ContactIdOf(fields: Fields): Json
  {
    Get(fields, "ContactId")
  }

  /** `msg.get('SMSId', msg.get('Id'))`. */
  function SmsIdOf(fields: Fields): Json
  {
    GetOr(fields, "SMSId", Get(fields, "Id"))
  }

  /** The (ContactId, SMSId-else-Id) pair of a record, as the delete loop
      reads it. */
  function DeleteKey(fields: Fields): (Json, Json)
  {
    (ContactIdOf(fields), SmsIdOf(fields))
  }

  /** The request a record leads to: none unless both ids are truthy. */
  function RequestOf(fields: Fields): seq<(Json, Json)>
  {
    var key := DeleteKey(fields);
    if Truthy(key.0) && Truthy(key.1) then [key] else []
  }

  /** The records before the first one that is not a dict. */
  function RecordPrefix(messages: seq<Json>): (n: nat)
    ensures n <= |messages|
    ensures forall j :: 0 <= j < n ==> messages[j].JObj?
    ensures n < |messages| ==> !messages[n].JObj?
  {
    if messages == [] || !messages[0].JObj? then 0 else 1 + RecordPrefix(messages[1..])
  }

  /** The delete requests the loop submits, in order: one per record whose
      contact id and message id are both truthy, up to the first element
      that is not a dict (where `.get` raises). */
  function Submitted(messages: seq<Json>): seq<(Json, Json)>
  {
    if messages == [] || !messages[0].JObj? then []
    else
      RequestOf(messages[0].fields) + Submitted(messages[1..])
  }

  /** How many of the first `n` delete requests the modem accepted, when
      the `i`-th request gets the reply `replies(i)`. */
  function CountAccepted(replies: nat -> Reply, n: nat): (c: nat)
    ensures c <= n
  {
    if n == 0 then 0 else CountAccepted(replies, n - 1) + (if ReplyAccepted(replies(n - 1)) then 1 else 0)
  }

  /** Every submitted request names a truthy contact id and a truthy message
      id taken from one record of the list, every record before the first
      non-dict whose two ids are truthy is submitted, and there are no more
      requests than records. */
  lemma {:induction false} SubmittedSpec(messages: seq<Json>)
    ensures |Submitted(messages)| <= RecordPrefix(messages) <= |messages|
    ensures forall p :: p in Submitted(messages) ==> Truthy(p.0) && Truthy(p.1)
    ensures forall p :: p in Submitted(messages) ==>
      exists k :: 0 <= k < RecordPrefix(messages) && messages[k].JObj? && DeleteKey(messages[k].fields) == p
    ensures forall k ::
      (0 <= k < RecordPrefix(messages) && Truthy(ContactIdOf(messages[k].fields)) && Truthy(SmsIdOf(messages[k].fields)))
      ==> DeleteKey(messages[k].fields) in Submitted(messages)
  {
    if messages != [] && messages[0].JObj? {
      var tail := messages[1..];
      SubmittedSpec(tail);
      var key := DeleteKey(messages[0].fields);
      forall k | 0 <= k < RecordPrefix(messages) && Truthy(ContactIdOf(messages[k].fields)) &&
        Truthy(SmsIdOf(messages[k].fields))
        ensures DeleteKey(messages[k].fields) in Submitted(messages)
      {
        if k > 0 {
          assert messages[k] == tail[k - 1];
          assert DeleteKey(tail[k - 1].fields) in Submitted(tail);
        }
      }
      forall p | p in Submitted(messages)
        ensures exists k :: 0 <= k < RecordPrefix(messages) && messages[k].JObj? && DeleteKey(messages[k].fields) == p
      {
        if p in Submitted(tail) {
          var k :| 0 <= k < RecordPrefix(tail) && tail[k].JObj? && DeleteKey(tail[k].fields) == p;
          assert messages[k + 1] == tail[k];
        } else {
          assert p == key;
        }
      }
    }
  }

  /** The message id is the first of SMSId and Id the record holds, even a
      null one, and None when it holds neither. */
  lemma SmsIdFallback(fields: Fields)
    ensures SmsIdOf(fields) == FirstPresent(fields, ["SMSId", "Id"], JNull)
  {
    var keys := ["SMSId", "Id"];
    assert keys[1..] == ["Id"] && keys[1..][1..] == [];
    assert FirstPresent(fields, ["Id"], JNull) == GetOr(fields, "Id", JNull);
  }

  /** One step of the loop: the requests from position `i` on are those of
      the record at `i`, then those of the rest. */
  lemma SubmittedStep(messages: seq<Json>, i: nat)
    requires i < |messages| && messages[i].JObj?
    ensures Submitted(messages[i..]) == RequestOf(messages[i].fields) + Submitted(messages[i + 1..])
  {
    assert messages[i..][0] == messages[i] && messages[i..][1..] == messages[i + 1..];
  }

  /** The prefix of records ends at `i` when every element before `i` is a
      dict and the one at `i`, if any, is not. */
  lemma PrefixEndsAt(messages: seq<Json>, i: nat)
    requires i <= |messages| && forall j :: 0 <= j < i ==> messages[j].JObj?
    requires i == |messages| || !messages[i].JObj?
    ensures RecordPrefix(messages) == i
  {
  }

  /** One more dict. */
  lemma RecordsExtend(messages: seq<Json>, i: nat)
    requires i < |messages| && messages[i].JObj? && forall j :: 0 <= j < i ==> messages[j].JObj?
    ensures forall j :: 0 <= j < i + 1 ==> messages[j].JObj?
  {
  }

  /** The loop invariant survives the record at `i`: it adds the record's
      request, if it has one, to those already submitted. */
  lemma SubmitRecord(messages: seq<Json>, i: nat, before: seq<(Json, Json)>)
    requires i < |messages| && messages[i].JObj?
    requires before + Submitted(messages[i..]) == Submitted(messages)
    ensures var contactId := ContactIdOf(messages[i].fields);
      var smsId := SmsIdOf(messages[i].fields);
      (if Truthy(contactId) && Truthy(smsId) then before + [(contactId, smsId)] else before)
        + Submitted(messages[i + 1..]) == Submitted(messages)
  {
    var fields := messages[i].fields;
    SubmittedStep(messages, i);
    ConcatAssoc(before, RequestOf(fields), Submitted(messages[i + 1..]));
  }

  /** The counting loop of `delete_all_sms` over the extracted list: each
      record with a truthy ContactId and a truthy SMSId (else Id) is
      submitted, and the accepted ones are counted. It returns the count,
      or the AttributeError of an element that is not a dict, together with
      the requests submitted before it ended. */
  method DeleteMessages(messages: seq<Json>, replies: nat -> Reply)
    returns (r: Result<nat>, submitted: seq<(Json, Json)>)
    ensures submitted == Submitted(messages)
    ensures r.Err? <==> RecordPrefix(messages) < |messages|
    ensures r.Ok? ==> r.value == CountAccepted(replies, |submitted|)
  {
    var deletedCount := 0;
    submitted := [];
    ghost var n := 0;
    var i := 0;
    while i < |messages|
      invariant 0 <= i <= |messages|
      invariant forall j :: 0 <= j < i ==> messages[j].JObj?
      invariant submitted + Submitted(messages[i..]) == Submitted(messages)
      invariant deletedCount == CountAccepted(replies, n)
      invariant n == |submitted|
    {
      var msg := messages[i];
      if !msg.JObj? {
        PrefixEndsAt(messages, i);
        assert Submitted(messages[i..]) == [];
        assert submitted + [] == submitted;
        return Err(AttributeError), submitted;
      }
      SubmitRecord(messages, i, submitted);
      RecordsExtend(messages, i);
      var contactId := ContactIdOf(msg.fields);
      var smsId := SmsIdOf(msg.fields);
      if Truthy(contactId) && Truthy(smsId) {
        assert CountAccepted(replies, n + 1) == CountAccepted(replies, n) + if ReplyAccepted(replies(n)) then 1 else 0;
        if ReplyAccepted(replies(|submitted|)) {
          deletedCount := deletedCount + 1;
        }
        submitted := submitted + [(contactId, smsId)];
        n := n + 1;
      }
      i := i + 1;
    }
    PrefixEndsAt(messages, i);
    assert Submitted(messages[i..]) == [];
    assert submitted + [] == submitted;
    return Ok(deletedCount), submitted;
  }

  /** Sequence concatenation is associative; kept apart so that the
      solver sees the three pieces as opaque terms. */
  lemma ConcatAssoc<T>(a: seq<T>, b: seq<T>, c: seq<T>)
    ensures (a + b) + c == a + (b + c)
  {
  }

  /** The elements `delete_all_sms` iterates over: those of the list
      extracted from the unfiltered listing, or None when the listing
      failed or is falsy (it then returns False without deleting). */
  function DeleteList(reply: Reply): Result<Option<seq<Json>>>
  {
    if ReplyFailed(reply) then Ok(None)
    else
      var data := GetOr(reply.value, "result", JObj([]));
      if !Truthy(data) then Ok(None)
      else
        var messages :- ExtractMessages(data);
        var elements :- Iterate(messages);
        Ok(Some(elements))
  }

  /** `delete_all_sms()` given the reply of the unfiltered listing and the
      replies of the delete requests: False when the listing failed or is
      empty, otherwise whether at least one delete was accepted. */
  method DeleteAllSms(reply: Reply, replies: nat -> Reply)
    returns (r: Result<bool>, submitted: seq<(Json, Json)>)
    ensures DeleteList(reply) == Ok(None) ==> r == Ok(false) && submitted == []
    ensures DeleteList(reply).Err? ==> r == Err(DeleteList(reply).error) && submitted == []
    ensures DeleteList(reply).Ok? && DeleteList(reply).value.Some? ==>
      var elements := DeleteList(reply).value.value;
      submitted == Submitted(elements) &&
      (r.Err? <==> RecordPrefix(elements) < |elements|) &&
      (r.Ok? ==> r.value == (CountAccepted(replies, |submitted|) > 0))
    ensures r.Ok? && r.value ==> exists n :: 0 < n <= |submitted| && CountAccepted(replies, n) > 0
    ensures r.Ok? && r.value ==> !ReplyFailed(reply)
    ensures |submitted| > 0 ==> !ReplyFailed(reply)
    ensures forall p :: p in submitted ==> Truthy(p.0) && Truthy(p.1)
  {
    var messagesData := GetSmsList(reply, false).value;
    submitted := [];
    if messagesData.None? || !Truthy(messagesData.value) {
      return Ok(false), submitted;
    }
    var messages := ExtractMessages(messagesData.value);
    if messages.Err? {
      return Err(messages.error), submitted;
    }
    var elements := Iterate(messages.value);
    if elements.Err? {
      return Err(elements.error), submitted;
    }
    var deleted;
    deleted, submitted := DeleteMessages(elements.value, replies);
    SubmittedSpec(elements.value);
    if deleted.Err? {
      return Err(deleted.error), submitted;
    }
    return Ok(deleted.value > 0), submitted;
  }

  /** The count is at most the number of requests, and a listing with no
      record that has both ids gives False. */
  lemma DeleteCountBounds(messages: seq<Json>, replies: nat -> Reply)
    ensures CountAccepted(replies, |Submitted(messages)|) <= |Submitted(messages)| <= |messages|
    ensures Submitted(messages) == [] ==> CountAccepted(replies, |Submitted(messages)|) == 0
  {
    SubmittedSpec(messages);
  }

  /** When every delete is accepted, the count is the number of requests;
      when none is, it is 0. */
  lemma {:induction false} CountAcceptedExtremes(replies: nat -> Reply, n: nat)
    ensures (forall i :: 0 <= i < n ==> ReplyAccepted(replies(i))) ==> CountAccepted(replies, n) == n
    ensures (forall i :: 0 <= i < n ==> !ReplyAccepted(replies(i))) ==> CountAccepted(replies, n) == 0
  {
    if n > 0 {
      CountAcceptedExtremes(replies, n - 1);
    }
  }

  // ------------------------------------------------------------- receive

  /** The settings of the `receive` command. */
  datatype ReceiveOptions = ReceiveOptions(
    unreadOnly: bool,
    saveToFile: bool,
    saveJson: bool,
    contactNumber: Option<string>,
    receivedOnly: bool)

  /** The settings before any option is read. */
  const Defaults := ReceiveOptions(false, false, false, None, true)

  /** Why the command line is refused: `--contact` without a number, or an
      argument that is no option (reported lower-cased); both print a
      message and `quit(1)`. */
  datatype UsageError = MissingContact | UnknownArgument(arg: string)

  datatype Parse = Options(options: ReceiveOptions) | Usage(error: UsageError)

  /** The option loop from position `i` of `argv` on, with settings `o` so
      far. Options are matched after lower-casing; the number after
      `--contact` is taken as typed. */
  function ParseFrom(argv: seq<string>, i: nat, o: ReceiveOptions): Parse
    decreases |argv| - i
  {
    if i >= |argv| then Options(o)
    else
      var arg := Lower(argv[i]);
      if arg == "--contact" then
        if i + 1 >= |argv| then Usage(MissingContact)
        else ParseFrom(argv, i + 2, o.(contactNumber := Some(argv[i + 1])))
      else if arg == "--unread" then ParseFrom(argv, i + 1, o.(unreadOnly := true))
      else if arg == "--all" then ParseFrom(argv, i + 1, o.(unreadOnly := false))
      else if arg == "--file" then ParseFrom(argv, i + 1, o.(saveToFile := true))
      else if arg == "--json" then ParseFrom(argv, i + 1, o.(saveJson := true))
      else if arg == "--sent" then ParseFrom(argv, i + 1, o.(receivedOnly := false))
      else Usage(UnknownArgument(arg))
  }

  /** The option loop of `receive`, over `sys.argv` from its third element. */
  method ParseReceive(argv: seq<string>) returns (r: Parse)
    ensures r == ParseFrom(argv, 2, Defaults)
  {
    var unreadOnly, saveToFile, saveJson := false, false, false;
    var contactNumber: Option<string> := None;
    var receivedOnly := true;
    var i := 2;
    while i < |argv|
      invariant 2 <= i
      invariant ParseFrom(argv, i, ReceiveOptions(unreadOnly, saveToFile, saveJson, contactNumber, receivedOnly))
        == ParseFrom(argv, 2, Defaults)
      decreases |argv| - i
    {
      var arg := Lower(argv[i]);
      if arg == "--contact" {
        if i + 1 >= |argv| {
          return Usage(MissingContact);
        }
        contactNumber := Some(argv[i + 1]);
        i := i + 2;
      } else if arg == "--unread" {
        unreadOnly := true;
        i := i + 1;
      } else if arg == "--all" {
        unreadOnly := false;
        i := i + 1;
      } else if arg == "--file" {
        saveToFile := true;
        i := i + 1;
      } else if arg == "--json" {
        saveJson := true;
        i := i + 1;
      } else if arg == "--sent" {
        receivedOnly := false;
        i := i + 1;
      } else {
        return Usage(UnknownArgument(arg));
      }
    }
    return Options(ReceiveOptions(unreadOnly, saveToFile, saveJson, contactNumber, receivedOnly));
  }

  /** Options are read left to right: once a prefix of the command line has
      been read, the rest continues from the settings it left. */
  lemma {:induction false} ParseAppend(a: seq<string>, b: seq<string>, i: nat, o: ReceiveOptions)
    requires ParseFrom(a, i, o).Options?
    ensures ParseFrom(a + b, i, o) == ParseFrom(a + b, if i <= |a| then |a| else i, ParseFrom(a, i, o).options)
    decreases |a| - i
  {
    if i < |a| {
      var arg := Lower(a[i]);
      assert (a + b)[i] == a[i];
      if arg == "--contact" {
        assert (a + b)[i + 1] == a[i + 1];
        ParseAppend(a, b, i + 2, o.(contactNumber := Some(a[i + 1])));
      } else if arg == "--unread" {
        ParseAppend(a, b, i + 1, o.(unreadOnly := true));
      } else if arg == "--all" {
        ParseAppend(a, b, i + 1, o.(unreadOnly := false));
      } else if arg == "--file" {
        ParseAppend(a, b, i + 1, o.(saveToFile := true));
      } else if arg == "--json" {
        ParseAppend(a, b, i + 1, o.(saveJson := true));
      } else if arg == "--sent" {
        ParseAppend(a, b, i + 1, o.(receivedOnly := false));
      }
    }
  }

  /** The six option names, as matched after lower-casing. */
  predicate IsOption(arg: string)
  {
    arg in ["--contact", "--unread", "--all", "--file", "--json", "--sent"]
  }

  /** Reading one more argument after a command line that parsed. */
  lemma {:induction false} ParseLast(a: seq<string>, arg: string)
    requires |a| >= 2 && ParseFrom(a, 2, Defaults).Options?
    ensures ParseFrom(a + [arg], 2, Defaults) == ParseFrom(a + [arg], |a|, ParseFrom(a, 2, Defaults).options)
  {
    ParseAppend(a, [arg], 2, Defaults);
  }

  /** A later `--all` (in any case) overrides an earlier `--unread`, and
      the other settings stay as they were. */
  lemma AllOverrides(a: seq<string>, flag: string)
    requires |a| >= 2 && ParseFrom(a, 2, Defaults).Options?
    requires Lower(flag) == "--all"
    ensures ParseFrom(a + [flag], 2, Defaults) ==
      Options(ParseFrom(a, 2, Defaults).options.(unreadOnly := false))
  {
    ParseLast(a, flag);
    assert (a + [flag])[|a|] == flag;
  }

  /** A later `--unread` (in any case) overrides an earlier `--all`, and
      the other settings stay as they were. */
  lemma UnreadOverrides(a: seq<string>, flag: string)
    requires |a| >= 2 && ParseFrom(a, 2, Defaults).Options?
    requires Lower(flag) == "--unread"
    ensures ParseFrom(a + [flag], 2, Defaults) ==
      Options(ParseFrom(a, 2, Defaults).options.(unreadOnly := true))
  {
    ParseLast(a, flag);
    assert (a + [flag])[|a|] == flag;
  }

  /** `--contact` takes the next argument as typed, not lower-cased, even
      when it looks like an option; a later `--contact` replaces it. */
  lemma ContactTakenAsTyped(a: seq<string>, flag: string, number: string)
    requires |a| >= 2 && ParseFrom(a, 2, Defaults).Options?
    requires Lower(flag) == "--contact"
    ensures ParseFrom(a + [flag, number], 2, Defaults) ==
      Options(ParseFrom(a, 2, Defaults).options.(contactNumber := Some(number)))
  {
    ParseAppend(a, [flag, number], 2, Defaults);
    var b := a + [flag, number];
    assert b[|a|] == flag && b[|a| + 1] == number;
  }

  /** `--contact` as the last argument is a usage error. */
  lemma ContactNeedsNumber(a: seq<string>, flag: string)
    requires |a| >= 2 && ParseFrom(a, 2, Defaults).Options?
    requires Lower(flag) == "--contact"
    ensures ParseFrom(a + [flag], 2, Defaults) == Usage(MissingContact)
  {
    ParseLast(a, flag);
    assert (a + [flag])[|a|] == flag;
  }

  /** An argument that is no option, in any case, is a usage error naming
      it lower-cased. */
  lemma UnknownIsRefused(a: seq<string>, arg: string)
    requires |a| >= 2 && ParseFrom(a, 2, Defaults).Options?
    requires !IsOption(Lower(arg))
    ensures ParseFrom(a + [arg], 2, Defaults) == Usage(UnknownArgument(Lower(arg)))
  {
    ParseLast(a, arg);
    assert (a + [arg])[|a|] == arg;
  }

  /** With no option the settings are the defaults: all received
      messages, printed. */
  lemma NoOptions(argv: seq<string>)
    requires |argv| <= 2
    ensures ParseFrom(argv, 2, Defaults) == Options(ReceiveOptions(false, false, false, None, true))
  {
  }
}
