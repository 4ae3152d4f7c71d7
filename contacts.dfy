/** `find_contact_id` (alcatelik40_smsctl.py:129-142): the contact whose
    received messages carry a given phone number, and the `clear --contact`
    decision it guards (alcatelik40_smsctl.py:266-280). */
module Contacts {
  import opened Json
  import opened PyText
  import opened Phone
  import opened Payload
  import opened Decode

  /** `msg.get('PhoneNumber', [])`, wrapped in a one-element list when it
      is not a list: the numbers a record carries. */
  function NumbersOf(fields: Fields): seq<Json>
  {
    var numbers := GetOr(fields, "PhoneNumber", JArr([]));
    if numbers.JArr? then numbers.items else [numbers]
  }

  /** Some number of the sequence normalises to `target`. */
  predicate AnyNormalisesTo(numbers: seq<Json>, target: string)
  {
    exists m {:trigger NormalizePhone(numbers[m])} :: 0 <= m < |numbers| && NormalizePhone(numbers[m]) == target
  }

  /** Some number of the record normalises to `target`. */
  predicate Matches(fields: Fields, target: string)
  {
    AnyNormalisesTo(NumbersOf(fields), target)
  }

  /** The scan stops at a message: it is not a dict (`msg.get` raises) or
      it carries the target. */
  predicate Stops(msg: Json, target: string)
  {
    !msg.JObj? || Matches(msg.fields, target)
  }

  /** The position of the first message that matches, None when no message
      does, or the AttributeError of a message that is not a dict met
      before any match. */
  function FirstMatch(messages: seq<Json>, target: string): (r: Result<Option<nat>>)
    ensures r.Ok? && r.value.Some? ==>
      r.value.value < |messages| && messages[r.value.value].JObj? &&
      Matches(messages[r.value.value].fields, target)
    ensures r.Ok? ==> forall j :: 0 <= j < (if r.value.Some? then r.value.value else |messages|) ==>
      !Stops(messages[j], target)
  {
    if messages == [] then Ok(None)
    else if !messages[0].JObj? then Err(AttributeError)
    else if Matches(messages[0].fields, target) then Ok(Some(0))
    else
      var rest :- FirstMatch(messages[1..], target);
      assert forall j :: 1 <= j < |messages| ==> messages[j] == messages[1..][j - 1];
      Ok(match rest
        case None => None
        case Some(k) => Some(k + 1))
  }

  /** The scan raises only at a message that is not a dict, met before
      any message it would stop at. */
  lemma {:induction false} FirstMatchErr(messages: seq<Json>, target: string)
    requires FirstMatch(messages, target).Err?
    ensures FirstMatch(messages, target).error == AttributeError
    ensures exists k :: 0 <= k < |messages| && !messages[k].JObj? && forall j :: 0 <= j < k ==> !Stops(messages[j], target)
  {
    if messages[0].JObj? {
      var tail := messages[1..];
      FirstMatchErr(tail, target);
      var k :| 0 <= k < |tail| && !tail[k].JObj? && forall j :: 0 <= j < k ==> !Stops(tail[j], target);
      assert !messages[k + 1].JObj?;
      forall j | 0 <= j < k + 1 ensures !Stops(messages[j], target) {
        if j > 0 {
          assert messages[j] == tail[j - 1];
        }
      }
    } else {
      assert !messages[0].JObj?;
    }
  }

  /** The scan is decided by the first message it stops at. */
  lemma FirstMatchAt(messages: seq<Json>, target: string, i: nat)
    requires i < |messages| && Stops(messages[i], target)
    requires forall j :: 0 <= j < i ==> !Stops(messages[j], target)
    ensures FirstMatch(messages, target) ==
      if messages[i].JObj? then Ok(Some(i)) else Err(AttributeError)
  {
    var r := FirstMatch(messages, target);
    if r.Err? {
      FirstMatchErr(messages, target);
      var k :| 0 <= k < |messages| && !messages[k].JObj? && forall j :: 0 <= j < k ==> !Stops(messages[j], target);
      assert Stops(messages[k], target);
      assert k == i;
    } else if r.value.Some? {
      var p := r.value.value;
      assert Stops(messages[p], target);
      assert p == i;
    }
  }

  /** A scan that never stops finds nothing. */
  lemma FirstMatchNone(messages: seq<Json>, target: string)
    requires forall j :: 0 <= j < |messages| ==> !Stops(messages[j], target)
    ensures FirstMatch(messages, target) == Ok(None)
  {
    if FirstMatch(messages, target).Err? {
      FirstMatchErr(messages, target);
    }
  }

  /** What the matching loop returns: the ContactId of the first matching
      message (`msg.get('ContactId')`, None when it has none), or None
      when no message matches. */
  function ContactOf(messages: seq<Json>, target: string): Result<Json>
  {
    var k :- FirstMatch(messages, target);
    Ok(if k.None? then JNull else Get(messages[k.value].fields, "ContactId"))
  }

  /** One more number that does not normalise to the target. */
  lemma NoMatchExtends(numbers: seq<Json>, k: nat, target: string)
    requires k < |numbers| && NormalizePhone(numbers[k]) != target
    requires forall m :: 0 <= m < k ==> NormalizePhone(numbers[m]) != target
    ensures forall m :: 0 <= m < k + 1 ==> NormalizePhone(numbers[m]) != target
  {
  }

  /** One more message at which the scan does not stop. */
  lemma NoStopExtends(messages: seq<Json>, i: nat, target: string)
    requires i < |messages| && !Stops(messages[i], target)
    requires forall j :: 0 <= j < i ==> !Stops(messages[j], target)
    ensures forall j :: 0 <= j < i + 1 ==> !Stops(messages[j], target)
  {
  }

  /** The inner loop of `find_contact_id`: the numbers of one message are
      tried in order, up to the first that normalises to the target. */
  method CarriesTarget(msgNumbers: seq<Json>, target: string) returns (found: bool)
    ensures found <==> AnyNormalisesTo(msgNumbers, target)
  {
    var k := 0;
    while k < |msgNumbers|
      invariant 0 <= k <= |msgNumbers|
      invariant forall m :: 0 <= m < k ==> NormalizePhone(msgNumbers[m]) != target
    {
      if NormalizePhone(msgNumbers[k]) == target {
        return true;
      }
      NoMatchExtends(msgNumbers, k, target);
      k := k + 1;
    }
    return false;
  }

  /** The matching loop of `find_contact_id`: normalise the target once,
      then scan the messages in order and each message's numbers in order,
      returning on the first number that normalises to the target. */
  method FindContactIn(messages: seq<Json>, phoneNumber: string) returns (r: Result<Json>)
    ensures r == ContactOf(messages, NormalizePhone(JStr(phoneNumber)))
  {
    var target := NormalizePhone(JStr(phoneNumber));
    var i := 0;
    while i < |messages|
      invariant 0 <= i <= |messages|
      invariant forall j :: 0 <= j < i ==> !Stops(messages[j], target)
    {
      var msg := messages[i];
      if !msg.JObj? {
        FirstMatchAt(messages, target, i);
        return Err(AttributeError);
      }
      var msgNumbers := GetOr(msg.fields, "PhoneNumber", JArr([]));
      if !msgNumbers.JArr? {
        msgNumbers := JArr([msgNumbers]);
      }
      assert msgNumbers.items == NumbersOf(msg.fields);
      var found := CarriesTarget(msgNumbers.items, target);
      if found {
        FirstMatchAt(messages, target, i);
        return Ok(Get(msg.fields, "ContactId"));
      }
      NoStopExtends(messages, i, target);
      i := i + 1;
    }
    FirstMatchNone(messages, target);
    return Ok(JNull);
  }

  /** The messages `find_contact_id` searches: the received messages of the
      `get_sms_list(False)` reply, None when the request failed. */
  function ReceivedMessages(reply: Reply): Result<Option<seq<Json>>>
  {
    if ReplyFailed(reply) then Ok(None)
    else
      var data := GetOr(reply.value, "result", JObj([]));
      var messages :- ExtractMessages(data);
      var elements :- Iterate(messages);
      var received :- FilterReceived(elements);
      Ok(Some(received))
  }

  /** The received listing `get_sms_list(False)` returns is the received
      messages wrapped under MessageList. */
  lemma ListingIsReceived(reply: Reply)
    ensures ReceivedMessages(reply).Err? <==> GetSmsList(reply, true).Err?
    ensures ReceivedMessages(reply) == Ok(None) <==> GetSmsList(reply, true) == Ok(None)
    ensures ReceivedMessages(reply).Ok? && ReceivedMessages(reply).value.Some? ==>
      GetSmsList(reply, true) == Ok(Some(JObj([("MessageList", JArr(ReceivedMessages(reply).value.value))])))
  {
  }

  /** What `find_contact_id` gives for a listing reply: None when the
      listing failed, otherwise the contact of the first received message
      carrying the number. */
  function ContactFor(reply: Reply, phoneNumber: string): Result<Json>
  {
    match ReceivedMessages(reply)
    case Err(e) => Err(e)
    case Ok(None) => Ok(JNull)
    case Ok(Some(received)) => ContactOf(received, NormalizePhone(JStr(phoneNumber)))
  }

  /** `find_contact_id(phone_number)` given the reply of the listing
      request: the matching loop over the list `get_sms_list(False)`
      returns, itself extracted again. */
  method FindContactId(reply: Reply, phoneNumber: string) returns (r: Result<Json>)
    ensures r == ContactFor(reply, phoneNumber)
  {
    var listing := GetSmsList(reply, true);
    ListingIsReceived(reply);
    if listing.Err? {
      return Err(listing.error);
    }
    var messagesData := listing.value;
    if messagesData.None? || !Truthy(messagesData.value) {
      return Ok(JNull);
    }
    var received := ReceivedMessages(reply).value.value;
    ReceivedRoundTrip(received);
    var messages := ExtractMessages(messagesData.value);
    var elements := Iterate(messages.value);
    r := FindContactIn(elements.value, phoneNumber);
  }

  /** The contact lookup only ever searches received messages, which are
      all dicts, so it never raises on them. */
  lemma {:induction false} ObjectsNeverRaise(messages: seq<Json>, target: string)
    requires forall x :: x in messages ==> IsReceived(x)
    ensures FirstMatch(messages, target).Ok?
  {
    if messages != [] {
      assert IsReceived(messages[0]);
      var tail := messages[1..];
      assert forall x :: x in tail ==> x in messages;
      ObjectsNeverRaise(tail, target);
    }
  }

  /** Every message the contact lookup searches is a received one. */
  lemma SearchesReceivedOnly(reply: Reply)
    ensures ReceivedMessages(reply).Ok? && ReceivedMessages(reply).value.Some? ==>
      forall x :: x in ReceivedMessages(reply).value.value ==> IsReceived(x)
  {
    if ReceivedMessages(reply).Ok? && ReceivedMessages(reply).value.Some? {
      var data := GetOr(reply.value, "result", JObj([]));
      FilterReceivedMembers(Iterate(ExtractMessages(data).value).value);
    }
  }

  /** Over received messages the scan never raises: it gives the
      ContactId of the first message carrying a number that normalises to
      the target, and None when no message carries one. */
  lemma {:induction false} ContactOfReceived(received: seq<Json>, target: string)
    requires forall x :: x in received ==> IsReceived(x)
    ensures ContactOf(received, target).Ok?
    ensures (forall j :: 0 <= j < |received| ==> !Stops(received[j], target)) ==>
      ContactOf(received, target) == Ok(JNull)
    ensures forall k :: (0 <= k < |received| && received[k].JObj? && Matches(received[k].fields, target) &&
      (forall j :: 0 <= j < k ==> !Stops(received[j], target))) ==>
      ContactOf(received, target) == Ok(Get(received[k].fields, "ContactId"))
  {
    ObjectsNeverRaise(received, target);
    forall k | 0 <= k < |received| && received[k].JObj? && Matches(received[k].fields, target) &&
      (forall j :: 0 <= j < k ==> !Stops(received[j], target))
      ensures ContactOf(received, target) == Ok(Get(received[k].fields, "ContactId"))
    {
      FirstMatchAt(received, target, k);
    }
    if forall j :: 0 <= j < |received| ==> !Stops(received[j], target) {
      FirstMatchNone(received, target);
    }
  }

  /** What `clear_command` would do. */
  datatype ClearAction =
    | DeleteContact(contactId: Json)  // `delete_contact_messages(contact_id)`
    | DeleteAll                       // `delete_all_sms()`
    | Cancelled                       // the confirmation was not "y"
    | NoMessages                      // no contact carries the number
    | Usage                           // `--contact` without a number: usage and `quit(1)`

  /** `clear_command()` for the command line `argv`, the reply of the
      listing request and the answer typed at the confirmation prompt. */
  function ClearPlan(argv: seq<string>, reply: Reply, confirm: string): Result<ClearAction>
  {
    if |argv| > 2 && Lower(argv[2]) == "--contact" then
      if |argv| < 4 then Ok(Usage)
      else
        var contactId :- ContactFor(reply, argv[3]);
        if !Truthy(contactId) then Ok(NoMessages)
        else if Lower(confirm) == "y" then Ok(DeleteContact(contactId))
        else Ok(Cancelled)
    else if Lower(confirm) == "y" then Ok(DeleteAll)
    else Ok(Cancelled)
  }

  /** A contact's thread is deleted only when the user confirmed with "y",
      the contact id is truthy (a contact id of 0 counts as not found), and
      it is the ContactId of the first received message carrying a number
      that normalises exactly as the one typed does. */
  lemma ClearDeletesOnlyMatched(argv: seq<string>, reply: Reply, confirm: string, c: Json)
    requires ClearPlan(argv, reply, confirm) == Ok(DeleteContact(c))
    ensures |argv| >= 4 && Lower(argv[2]) == "--contact" && Lower(confirm) == "y" && Truthy(c)
    ensures exists received: seq<Json>, k: nat ::
      ReceivedMessages(reply) == Ok(Some(received)) && k < |received| && IsReceived(received[k]) &&
      Matches(received[k].fields, NormalizePhone(JStr(argv[3]))) &&
      (forall j :: 0 <= j < k ==> !Stops(received[j], NormalizePhone(JStr(argv[3])))) &&
      Get(received[k].fields, "ContactId") == c
  {
    var received := ReceivedMessages(reply).value.value;
    var target := NormalizePhone(JStr(argv[3]));
    SearchesReceivedOnly(reply);
    var k := FirstMatch(received, target).value.value;
    assert received[k] in received;
  }

  /** Without `--contact`, a "y" in any case plans `delete_all_sms()`
      (see `Commands.DeleteAllSms` for what it deletes); any other answer
      cancels. */
  lemma ClearAllNeedsConfirmation(argv: seq<string>, reply: Reply, confirm: string)
    requires !(|argv| > 2 && Lower(argv[2]) == "--contact")
    ensures ClearPlan(argv, reply, confirm) == if Lower(confirm) == "y" then Ok(DeleteAll) else Ok(Cancelled)
  {
  }

  /** A modem record with type code 0, alone under MessageList, is
      extracted and kept by the received filter unchanged. */
  lemma ModemRecordReceived(id: Json, contact: Json, numbers: Json, tag: int, content: Json, f: Fields)
    requires f == ModemRecord(id, contact, numbers, 0, tag, content)
    ensures ExtractMessages(JObj([("MessageList", JArr([JObj(f)]))])) == Ok(JArr([JObj(f)]))
    ensures FilterReceived([JObj(f)]) == Ok([JObj(f)])
  {
    ModemCodes(id, contact, numbers, 0, tag, content, f);
    ReceivedRoundTrip([JObj(f)]);
    var messages := [JObj(f)];
    assert IsReceived(messages[0]);
    assert messages[1..] == [];
    assert FilterReceived(messages[1..]) == Ok([]);
    assert FilterReceived(messages) == Ok([messages[0]] + []);
    assert [messages[0]] + [] == messages;
    assert ExtractMessages(JObj([("MessageList", JArr(messages))])) == Ok(JArr(messages));
  }

  /** A received record that carries a subscriber's number in domestic form
      (8 and ten digits) is found by the international form (+7 and the
      same ten digits), and its contact is returned. */
  lemma DomesticRecordMatches(subscriber: string, id: Json, contact: Json, tag: int, content: Json, f: Fields)
    requires |subscriber| == 10 && IsDigits(subscriber)
    requires f == ModemRecord(id, contact, JArr([JStr("8" + subscriber)]), 0, tag, content)
    ensures ContactOf([JObj(f)], NormalizePhone(JStr("+7" + subscriber))) == Ok(contact)
  {
    var numbers := JArr([JStr("8" + subscriber)]);
    ModemIdentity(id, contact, numbers, 0, tag, content, f);
    DomesticMatchesInternational(subscriber);
    var target := NormalizePhone(JStr("+7" + subscriber));
    assert NumbersOf(f) == [JStr("8" + subscriber)];
    assert NormalizePhone(NumbersOf(f)[0]) == target;
    var messages := [JObj(f)];
    FirstMatchAt(messages, target, 0);
    assert ContactOf(messages, target) == Ok(contact);
  }

  /** A target that is blank after trimming normalises to "", as does
      every falsy number, e.g. a null or empty PhoneNumber entry: such a
      target matches those records. */
  lemma BlankTarget(phoneNumber: string, number: Json)
    requires forall i :: 0 <= i < |phoneNumber| ==> IsSpace(phoneNumber[i])
    requires !Truthy(number)
    ensures NormalizePhone(JStr(phoneNumber)) == NormalizePhone(number) == ""
  {
    if phoneNumber != [] {
      SpacesHaveNoDigits(phoneNumber);
      LowerKeepsSpaces(phoneNumber);
      StripSpaces(Lower(phoneNumber));
      NoDigitsFallsBack(JStr(phoneNumber));
    }
  }

  lemma {:induction false} SpacesHaveNoDigits(s: string)
    requires forall i :: 0 <= i < |s| ==> IsSpace(s[i])
    ensures DigitsAndPlus(s) == []
  {
    if s != [] {
      SpacesHaveNoDigits(s[1..]);
    }
  }

  lemma {:induction false} LowerKeepsSpaces(s: string)
    requires forall i :: 0 <= i < |s| ==> IsSpace(s[i])
    ensures forall i :: 0 <= i < |Lower(s)| ==> IsSpace(Lower(s)[i])
    ensures |Lower(s)| == |s|
  {
    if s != [] {
      LowerKeepsSpaces(s[1..]);
      assert Lower(s) == [s[0]] + Lower(s[1..]);
    }
  }

  lemma {:induction false} StripSpaces(s: string)
    requires forall i :: 0 <= i < |s| ==> IsSpace(s[i])
    ensures Strip(s) == []
  {
    StripLeftSpaces(s);
  }

  lemma {:induction false} StripLeftSpaces(s: string)
    requires forall i :: 0 <= i < |s| ==> IsSpace(s[i])
    ensures StripLeft(s) == []
  {
    if s != [] {
      StripLeftSpaces(s[1..]);
    }
  }

  /** A PhoneNumber that is not a list is read as the one-element list
      holding it, wherever the field stands, so a record matches the same
      targets either way. */
  lemma ScalarNumberAsList(fields: Fields, i: nat, x: Json, target: string)
    requires i < |fields| && fields[i] == ("PhoneNumber", x) && !x.JArr?
    requires forall j :: 0 <= j < i ==> fields[j].0 != "PhoneNumber"
    ensures NumbersOf(fields) == NumbersOf(fields[i := ("PhoneNumber", JArr([x]))]) == [x]
    ensures Matches(fields, target) <==> Matches(fields[i := ("PhoneNumber", JArr([x]))], target)
  {
    var listed := fields[i := ("PhoneNumber", JArr([x]))];
    assert fields[i].0 == "PhoneNumber" && listed[i].0 == "PhoneNumber";
    assert forall j :: 0 <= j < i ==> listed[j] == fields[j];
    assert IndexOf(fields, "PhoneNumber") == Some(i);
    assert IndexOf(listed, "PhoneNumber") == Some(i);
  }

  /** A record without PhoneNumber carries no numbers and matches nothing. */
  lemma MissingNumberMatchesNothing(fields: Fields, target: string)
    requires !Has(fields, "PhoneNumber")
    ensures NumbersOf(fields) == [] && !Matches(fields, target)
  {
  }
}
