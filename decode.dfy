/** How one message record is shown: the code decoders `get_message_status`
    (alcatelik40_smsctl.py:226-227) and `get_message_type`
    (alcatelik40_smsctl.py:288-289), and the "first present key wins" field
    lookups of `print_sms_messages` (alcatelik40_smsctl.py:299-305) and
    `save_sms_to_file` (alcatelik40_smsctl.py:190-194). */
module Decode {
  import opened Json
  import opened PyText

  /** The values of `{0:"Unknown",1:"Unread",2:"Read",3:"Sent",4:"Draft",5:"Failed"}`. */
  const StatusLabels: seq<string> := ["Unknown", "Unread", "Read", "Sent", "Draft", "Failed"]

  /** The values of `{0:"Received",1:"Draft",2:"Sent",3:"Outbox"}`. */
  const TypeLabels: seq<string> := ["Received", "Draft", "Sent", "Outbox"]

  /** `f"Unknown ({code})"`: the label of a code the table does not hold. */
  function UnknownLabel(code: Json): string
  {
    "Unknown (" + Str(code) + ")"
  }

  /** The key that `table.get(code)` finds in a dict whose keys are
      `0 .. size - 1`: an integer finds itself, a boolean finds 0 or 1
      (Python hashes `False` and `True` as 0 and 1), anything else finds
      nothing. A list or a dict is unhashable, so the lookup raises. */
  function TableKey(code: Json, size: nat): (r: Result<Option<nat>>)
    requires size >= 2
    ensures r.Err? <==> code.JArr? || code.JObj?
    ensures r.Ok? && r.value.Some? ==> r.value.value < size
    ensures code.JInt? ==> r == Ok(if 0 <= code.i < size then Some(code.i as nat) else None)
    ensures (code.JNull? || code.JStr?) ==> r == Ok(None)
  {
    match code
    case JInt(i) => Ok(if 0 <= i < size then Some(i as nat) else None)
    case JBool(b) => Ok(Some(if b then 1 else 0))
    case JArr(_) => Err(TypeError)
    case JObj(_) => Err(TypeError)
    case _ => Ok(None)
  }

  /** `table.get(code, f"Unknown ({code})")` for a table given by its
      values, keyed `0 .. |table| - 1`. */
  function Lookup(table: seq<string>, code: Json): (r: Result<string>)
    requires |table| >= 2
    ensures r.Err? <==> code.JArr? || code.JObj?
    ensures code.JInt? && 0 <= code.i < |table| ==> r == Ok(table[code.i])
    ensures (code.JNull? || code.JStr? || (code.JInt? && !(0 <= code.i < |table|))) ==>
      r == Ok(UnknownLabel(code))
    ensures code.JBool? ==> r == Ok(table[if code.b then 1 else 0])
  {
    var key :- TableKey(code, |table|);
    match key
    case Some(k) => Ok(table[k])
    case None => Ok(UnknownLabel(code))
  }

  /** `get_message_status(tag_type)`. */
  function MessageStatus(code: Json): Result<string>
  {
    Lookup(StatusLabels, code)
  }

  /** `get_message_type(sms_type)`. */
  function MessageType(code: Json): Result<string>
  {
    Lookup(TypeLabels, code)
  }

  /** Both decoders give a label for every code the modem can send as a
      scalar; only a list or an object as code makes the dict lookup raise. */
  lemma DecodersTotal(code: Json)
    ensures MessageStatus(code).Ok? <==> !(code.JArr? || code.JObj?)
    ensures MessageType(code).Ok? <==> !(code.JArr? || code.JObj?)
    ensures MessageStatus(code).Ok? ==>
      MessageStatus(code).value in StatusLabels || MessageStatus(code).value == UnknownLabel(code)
    ensures MessageType(code).Ok? ==>
      MessageType(code).value in TypeLabels || MessageType(code).value == UnknownLabel(code)
  {
  }

  /** Two fallback labels are equal only when the codes print alike; for
      integer codes, only when the codes are equal. */
  lemma {:induction false} UnknownLabelInjective(a: int, b: int)
    requires UnknownLabel(JInt(a)) == UnknownLabel(JInt(b))
    ensures a == b
  {
    var la, lb := UnknownLabel(JInt(a)), UnknownLabel(JInt(b));
    assert la[9..|la| - 1] == IntStr(a);
    assert lb[9..|lb| - 1] == IntStr(b);
    IntStrInjective(a, b);
  }

  /** The type label tells integer codes apart: distinct codes never get
      the same label, in or out of the table. */
  lemma TypeLabelInjective(a: int, b: int)
    requires MessageType(JInt(a)) == MessageType(JInt(b))
    ensures a == b
  {
    if !(0 <= a < |TypeLabels|) && !(0 <= b < |TypeLabels|) {
      UnknownLabelInjective(a, b);
    }
  }

  /** The status label tells integer codes apart; in particular status 0,
      "Unknown", is not the fallback label of any code. */
  lemma StatusLabelInjective(a: int, b: int)
    requires MessageStatus(JInt(a)) == MessageStatus(JInt(b))
    ensures a == b
  {
    if !(0 <= a < |StatusLabels|) && !(0 <= b < |StatusLabels|) {
      UnknownLabelInjective(a, b);
    }
  }

  /** Type 2 is "Sent" and 9, outside the table, is "Unknown (9)"; status 1
      is "Unread" and status 0 is "Unknown", which differs from the
      fallback "Unknown (0)". A boolean code is looked up as 0 or 1. */
  lemma DecoderExamples()
    ensures MessageType(JInt(2)) == Ok("Sent")
    ensures MessageType(JInt(9)) == Ok("Unknown (9)")
    ensures MessageStatus(JInt(1)) == Ok("Unread")
    ensures MessageStatus(JInt(0)) == Ok("Unknown")
    ensures MessageStatus(JInt(0)).value != UnknownLabel(JInt(0))
    ensures MessageType(JInt(0)) == Ok("Received")
    ensures MessageType(JBool(false)) == Ok("Received")
  {
    assert NatStr(9) == "9";
    assert UnknownLabel(JInt(9)) == "Unknown (" + "9" + ")" == "Unknown (9)";
  }

  /** `d.get(keys[0], d.get(keys[1], ... d.get(keys[n-1], default)))`: the
      value under the first key of `keys` the record holds, even a null
      one, or `default` when it holds none of them. */
  function FirstPresent(fields: Fields, keys: seq<string>, default: Json): (r: Json)
    ensures keys != [] && Has(fields, keys[0]) ==> r == Get(fields, keys[0])
  {
    if keys == [] then default
    else GetOr(fields, keys[0], FirstPresent(fields, keys[1..], default))
  }

  /** The first key present decides: the lookup gives the value under the
      first key of `keys` the record holds, and `default` only when it holds
      none of them. */
  lemma {:induction false} FirstPresentSpec(fields: Fields, keys: seq<string>, default: Json)
    ensures (forall k :: k in keys ==> !Has(fields, k)) ==> FirstPresent(fields, keys, default) == default
    ensures forall i :: (0 <= i < |keys| && Has(fields, keys[i]) &&
      (forall j :: 0 <= j < i ==> !Has(fields, keys[j]))) ==>
      FirstPresent(fields, keys, default) == Get(fields, keys[i])
  {
    if keys != [] {
      var tail := keys[1..];
      FirstPresentSpec(fields, tail, default);
      forall i | 1 <= i < |keys| && Has(fields, keys[i]) && (forall j :: 0 <= j < i ==> !Has(fields, keys[j]))
        ensures FirstPresent(fields, keys, default) == Get(fields, keys[i])
      {
        assert keys[i] == tail[i - 1];
        assert !Has(fields, keys[0]);
        forall j | 0 <= j < i - 1 ensures !Has(fields, tail[j]) {
          assert tail[j] == keys[j + 1];
        }
      }
      if forall k :: k in keys ==> !Has(fields, k) {
        assert keys[0] in keys;
        assert forall k :: k in tail ==> k in keys;
      }
    }
  }

  /** A record as the tool shows it, each field after its fallbacks. */
  datatype MessageView = MessageView(
    id: Json,          // SMSId, else Id, else "N/A"
    contactId: Json,   // ContactId, else "N/A"
    from: Json,        // PhoneNumber, else Number, else "Unknown"
    time: Json,        // SMSTime, else Time, else "Unknown"
    messageType: string,
    status: string,
    content: Json)     // SMSContent, else Content, else "No content"

  /** The fields `print_sms_messages` shows for one record (the file
      export shows the same ones bar id and contact id). The type code is
      SMSType with default 0, the status code TagType, else Status, else 0.
      `.get` on a record that is not a dict raises AttributeError. */
  function View(msg: Json): (r: Result<MessageView>)
    ensures r.Ok? ==> msg.JObj?
    ensures r.Ok? ==> MessageType(GetOr(msg.fields, "SMSType", JInt(0))) == Ok(r.value.messageType)
    ensures r.Ok? ==>
      MessageStatus(FirstPresent(msg.fields, ["TagType", "Status"], JInt(0))) == Ok(r.value.status)
  {
    if !msg.JObj? then Err(AttributeError)
    else
      var f := msg.fields;
      var messageType :- MessageType(GetOr(f, "SMSType", JInt(0)));
      var status :- MessageStatus(FirstPresent(f, ["TagType", "Status"], JInt(0)));
      Ok(MessageView(
        FirstPresent(f, ["SMSId", "Id"], JStr("N/A")),
        GetOr(f, "ContactId", JStr("N/A")),
        FirstPresent(f, ["PhoneNumber", "Number"], JStr("Unknown")),
        FirstPresent(f, ["SMSTime", "Time"], JStr("Unknown")),
        messageType,
        status,
        FirstPresent(f, ["SMSContent", "Content"], JStr("No content"))))
  }

  /** A record in the modem's own field names is shown with its own values;
      without type and status codes it is shown as "Received" and
      "Unknown". Viewing fails only on a record that is not an object or
      whose codes are a list or an object. */
  lemma ViewCases(msg: Json)
    ensures View(msg).Err? <==>
      !msg.JObj? ||
      GetOr(msg.fields, "SMSType", JInt(0)).JArr? || GetOr(msg.fields, "SMSType", JInt(0)).JObj? ||
      FirstPresent(msg.fields, ["TagType", "Status"], JInt(0)).JArr? ||
      FirstPresent(msg.fields, ["TagType", "Status"], JInt(0)).JObj?
    ensures (msg.JObj? && !Has(msg.fields, "SMSType") && !Has(msg.fields, "TagType") &&
      !Has(msg.fields, "Status")) ==>
      View(msg).Ok? && View(msg).value.messageType == "Received" && View(msg).value.status == "Unknown"
  {
    if msg.JObj? && !Has(msg.fields, "SMSType") && !Has(msg.fields, "TagType") && !Has(msg.fields, "Status") {
      FirstPresentSpec(msg.fields, ["TagType", "Status"], JInt(0));
    }
  }

  /** A record in the modem's own field names, as the list requests return
      it: `{"SMSId": .., "ContactId": .., "PhoneNumber": .., "SMSType": ..,
      "TagType": .., "SMSContent": ..}`. */
  function ModemRecord(id: Json, contact: Json, numbers: Json, typeCode: int, tag: int, content: Json): Fields
  {
    [("SMSId", id), ("ContactId", contact), ("PhoneNumber", numbers),
     ("SMSType", JInt(typeCode)), ("TagType", JInt(tag)), ("SMSContent", content)]
  }

  /** The key of the `i`-th member of a modem record. */
  const ModemKeys: seq<string> := ["SMSId", "ContactId", "PhoneNumber", "SMSType", "TagType", "SMSContent"]

  lemma ModemKeysDistinct()
    ensures forall i, j :: 0 <= i < j < |ModemKeys| ==> ModemKeys[i] != ModemKeys[j]
    ensures "SMSTime" !in ModemKeys && "Time" !in ModemKeys
  {
    assert "SMSType"[0] != "TagType"[0];
    assert "SMSTime"[4] != "SMSType"[4] && "SMSTime"[0] != "TagType"[0];
  }

  /** The member at position `i` is what a lookup of its key finds when no
      earlier member has that key. */
  lemma FieldAt(f: Fields, i: nat, key: string)
    requires i < |f| && f[i].0 == key && forall j :: 0 <= j < i ==> f[j].0 != key
    ensures Has(f, key) && forall d :: GetOr(f, key, d) == f[i].1
  {
  }

  lemma ModemIdentity(id: Json, contact: Json, numbers: Json, typeCode: int, tag: int, content: Json, f: Fields)
    requires f == ModemRecord(id, contact, numbers, typeCode, tag, content)
    ensures FirstPresent(f, ["SMSId", "Id"], JStr("N/A")) == id
    ensures GetOr(f, "ContactId", JStr("N/A")) == contact
    ensures FirstPresent(f, ["PhoneNumber", "Number"], JStr("Unknown")) == numbers
    ensures forall d :: GetOr(f, "PhoneNumber", d) == numbers && GetOr(f, "ContactId", d) == contact
  {
    ModemKeysDistinct();
    assert forall i :: 0 <= i < |f| ==> f[i].0 == ModemKeys[i];
    FieldAt(f, 0, "SMSId");
    FieldAt(f, 1, "ContactId");
    FieldAt(f, 2, "PhoneNumber");
  }

  lemma ModemCodes(id: Json, contact: Json, numbers: Json, typeCode: int, tag: int, content: Json, f: Fields)
    requires f == ModemRecord(id, contact, numbers, typeCode, tag, content)
    ensures GetOr(f, "SMSType", JInt(0)) == JInt(typeCode)
    ensures FirstPresent(f, ["TagType", "Status"], JInt(0)) == JInt(tag)
    ensures FirstPresent(f, ["SMSContent", "Content"], JStr("No content")) == content
    ensures forall d :: GetOr(f, "SMSType", d) == JInt(typeCode)
  {
    ModemKeysDistinct();
    assert forall i :: 0 <= i < |f| ==> f[i].0 == ModemKeys[i];
    FieldAt(f, 3, "SMSType");
    FieldAt(f, 4, "TagType");
    FieldAt(f, 5, "SMSContent");
  }

  lemma ModemNoTime(id: Json, contact: Json, numbers: Json, typeCode: int, tag: int, content: Json, f: Fields)
    requires f == ModemRecord(id, contact, numbers, typeCode, tag, content)
    ensures FirstPresent(f, ["SMSTime", "Time"], JStr("Unknown")) == JStr("Unknown")
  {
    ModemKeysDistinct();
    assert forall i :: 0 <= i < |f| ==> f[i].0 == ModemKeys[i];
    assert !Has(f, "SMSTime") && !Has(f, "Time");
    FirstPresentSpec(f, ["SMSTime", "Time"], JStr("Unknown"));
  }

  /** A record in the modem's field names is shown with its own id,
      contact, numbers and content, its codes decoded, and "Unknown" as
      time, since it carries neither SMSTime nor Time. */
  lemma ModemView(id: Json, contact: Json, numbers: Json, typeCode: int, tag: int, content: Json, f: Fields)
    requires f == ModemRecord(id, contact, numbers, typeCode, tag, content)
    ensures View(JObj(f)) == Ok(MessageView(id, contact, numbers, JStr("Unknown"),
      MessageType(JInt(typeCode)).value, MessageStatus(JInt(tag)).value, content))
  {
    ModemIdentity(id, contact, numbers, typeCode, tag, content, f);
    ModemCodes(id, contact, numbers, typeCode, tag, content, f);
    ModemNoTime(id, contact, numbers, typeCode, tag, content, f);
  }

  /** The record `{"SMSId": 5, "ContactId": 2, "PhoneNumber": ["89161234567"],
      "SMSType": 0, "TagType": 1, "SMSContent": "hi"}` is shown as message 5
      of contact 2, a received, unread message reading "hi". */
  lemma SampleView(f: Fields)
    requires f == ModemRecord(JInt(5), JInt(2), JArr([JStr("89161234567")]), 0, 1, JStr("hi"))
    ensures View(JObj(f)) == Ok(MessageView(JInt(5), JInt(2), JArr([JStr("89161234567")]),
      JStr("Unknown"), "Received", "Unread", JStr("hi")))
  {
    var numbers := JArr([JStr("89161234567")]);
    ModemView(JInt(5), JInt(2), numbers, 0, 1, JStr("hi"), f);
    DecoderExamples();
  }
}
