# Alcatel IK40 SMS control: a Dafny model of its message logic

`alcatelik40_smsctl.py` is a command-line tool for an Alcatel Linkkey
IK40V/IK41VE1 4G dongle. It sends, lists and deletes SMS messages through the
modem's JSON-RPC web API. This project models the deterministic logic between
the HTTP calls and proves properties of it:

- **phone numbers** (`phone.dfy`): how `normalize_phone` canonicalises a number
  before two numbers are compared. The Python built-ins it relies on
  (`str()`, `lower()`, `strip()`, `isdigit()`) are modelled in `pytext.dfy`,
  restricted to ASCII.
- **payloads** (`payload.dfy`): how `extract_messages` finds the message list
  in a reply, and the `SMSType == 0` filter behind `received_only`.
- **display** (`decode.dfy`): the status and type decoders, and the
  "first present key wins" field lookups used to show a message record.
- **contacts** (`contacts.dfy`): the matching loop of `find_contact_id`, seen
  over the received listing it searches, and the decision
  `clear --contact` takes on its result.
- **commands** (`commands.dfy`): three loops whose network calls are replaced
  by the replies they would receive:
  - the delivery polling of `send_sms`;
  - the counting loop of `delete_all_sms`;
  - the option loop of `receive`.

JSON is a datatype. An object is an ordered sequence of members, because a
Python dict iterates in insertion order (`json.dfy`). The model spells out the
Python behaviour the script depends on:

- truthiness;
- `dict.get`, where a key that is present with a null value still wins;
- `in`;
- `for` iteration;
- `False == 0`;
- booleans hashing as 0 and 1.

When a payload has an unexpected shape, the script raises. The model
returns that exception as an error value instead: `TypeError` or
`AttributeError`.

The loops are Dafny methods. Each one is proved equal to a recursive
specification function, and the properties are proved about that function:

- `FindContactIn` against `ContactOf`;
- `SendSms` against `PollOutcome`;
- `DeleteMessages` against `Submitted` and `CountAccepted`;
- `ParseReceive` against `ParseFrom`.

Four behaviours of the code are easy to misread, and the model keeps them
as written:

- `extract_messages` does not always succeed: it raises on a truthy payload
  that is not a dict.
- The decoders do not always succeed: they raise `TypeError` when the code
  is a list or a dict, because both are unhashable.
- A blank `--contact` target normalises to `""`, and so does a PhoneNumber
  entry that is null, `""`, 0 or False. So such a target matches those
  records, and `clear --contact " "` offers to delete their contact's thread
  (`Contacts.BlankTarget`).
- Only the field names the code spells out are read. There is no lower-case
  alternative (`from`, `text`, `time`, `read`).

## Model

| member | source | states |
|---|---|---|
| `Json.ReplyFailed` | alcatelik40_smsctl.py:86 | Definition of `not result or "error" in result`, the failure test repeated at lines 92, 106 and 119. Used by `Payload.GetSmsList`, `Payload.GetSmsByContact`, `Contacts.ReceivedMessages`, `Commands.PollOutcome`, `Commands.SendSms` and `Commands.DeleteList`. |
| `Json.ReplyAccepted` | alcatelik40_smsctl.py:254 | `bool(result and "error" not in result)`, the test repeated at line 264. Its contract says it holds exactly when `Json.ReplyFailed` does not. Used by `Commands.CountAccepted`. |
| `Phone.NormalizePhone` | alcatelik40_smsctl.py:144-156 | Definition of `normalize_phone`. Its contract says a falsy value gives `""`; its full behaviour is `Phone.NormalizeCases`. |
| `Phone.DigitsAndPlus` | alcatelik40_smsctl.py:149 | Definition of the `re.sub(r'[^\d+]', '', …)` filter; its properties are `Phone.DigitsAndPlusShape`. |
| `Phone.TrunkToCountry` | alcatelik40_smsctl.py:150-151 | Definition of the trunk rewrite; its properties are `Phone.DomesticNumber` and `Phone.StepsYieldCanonical`. |
| `Phone.DropPlus` | alcatelik40_smsctl.py:152-153 | Definition of the leading-plus drop; its properties are `Phone.PlusDigits` and `Phone.StepsYieldCanonical`. |
| `Phone.NormalizeCases` | alcatelik40_smsctl.py:144-156 | A falsy value gives `""`. If the digits-and-plus form looks like a number (digits, optionally after one `+`), the result is its canonical digits. Otherwise the result is `lower().strip()` of the stringified value, and that form was empty or still held a `+`. |
| `Phone.StepsYieldCanonical` | alcatelik40_smsctl.py:150-154 | The trunk rewrite, then the plus drop, give all digits exactly when the form looks like a number. They then give its order-independent canonical digits. |
| `Phone.DigitsAndPlusShape` | alcatelik40_smsctl.py:149 | The `re.sub` filter keeps only digits and plus signs and never lengthens the text. |
| `Phone.NormalizeNumberText` | alcatelik40_smsctl.py:149-156 | A text whose filtered form looks like a number normalises to that form's canonical digits. |
| `Phone.NormalizeIgnoresFormatting` | alcatelik40_smsctl.py:149 | Two values with the same number-like digits-and-plus form normalise alike, whatever other characters they hold. |
| `Phone.MatchIsExact` | alcatelik40_smsctl.py:150-153 | Equal canonical forms agree on every digit after the first. The first digits differ only for an 11-digit number starting with 8 against a 7. |
| `Phone.DomesticMatchesInternational` | alcatelik40_smsctl.py:150-153 | For any ten-digit subscriber, `8…`, `+7…` and `7…` all normalise to `7…`. |
| `Phone.FormattedNumber` | alcatelik40_smsctl.py:149-153 | `"+7 (AAA) BBB-CC-DD"` normalises to `"7AAABBBCCDD"` for any digit groups. |
| `Phone.DomesticNumber` | alcatelik40_smsctl.py:150-151 | An 11-digit number starting with 8 becomes the same number starting with 7. |
| `Phone.PlusDigits` | alcatelik40_smsctl.py:152-153 | `+` followed by digits loses only the plus, and no trunk rewrite applies. |
| `Phone.NoDigitsFallsBack` | alcatelik40_smsctl.py:154-155 | A value whose text has no digit and no plus is compared by its lower-cased, stripped text. |
| `Phone.FormattedExample` | alcatelik40_smsctl.py:149-156 | `"+7 (916) 123-45-67"` normalises to `"79161234567"`. |
| `Phone.DomesticExample` | alcatelik40_smsctl.py:150-151 | `"89161234567"` normalises to `"79161234567"`. |
| `Phone.InternationalExample` | alcatelik40_smsctl.py:152-153 | `"+79161234567"` normalises to `"79161234567"`. |
| `Phone.ShortCodeExample` | alcatelik40_smsctl.py:154-155 | `"ShortCode"` normalises to `"shortcode"`. |
| `Phone.NotIdempotent` | alcatelik40_smsctl.py:150-153 | The trunk rewrite is checked before the plus is dropped. So `"+89161234567"` gives `"89161234567"`, and normalising that again gives `"79161234567"`. |
| `PyText.NatStrRoundTrip` | alcatelik40_smsctl.py:227 | Reading back the decimal text `str()` prints for a natural number gives the number. |
| `PyText.IntStrInjective` | alcatelik40_smsctl.py:289 | Distinct integers print differently under `str()`. |
| `Payload.IsRecordList` | alcatelik40_smsctl.py:168 | Definition of `isinstance(value, list) and value and isinstance(value[0], dict)`. Used by `Payload.FirstRecordList` and `Payload.ExtractCases`. |
| `Payload.Subscript` | alcatelik40_smsctl.py:161-166 | Definition of `messages_data[key]` after `key in messages_data` held: the value on a dict, TypeError on a list or a string. Used by `Payload.ExtractMessages`; its cases are in `Payload.ExtractCases` and `Payload.ExtractRaisesOnNonObjects`. |
| `Payload.ReceivedUnder` | alcatelik40_smsctl.py:110-113 | Definition of the `received_only` post-processing (also lines 123-126): extract, keep the received messages, wrap under the given key. Used by `Payload.GetSmsList` and `Payload.GetSmsByContact`; its properties are `Payload.GetSmsListReceived` and `Payload.GetSmsByContactReceived`. |
| `Payload.ExtractMessages` | alcatelik40_smsctl.py:158-170 | Definition of `extract_messages`; its properties are `Payload.ExtractCases`, `Payload.ExtractRaisesOnNonObjects` and `Payload.ReceivedRoundTrip`. |
| `Payload.IsReceived` | alcatelik40_smsctl.py:112 | Definition of `msg.get('SMSType') == 0`, with `False` equal to 0; used by `Payload.FilterReceivedSpec`. |
| `Payload.FilterReceived` | alcatelik40_smsctl.py:112 | Definition of the received-only comprehension; its properties are `Payload.FilterReceivedSpec` and `Payload.FilterReceivedMembers`. |
| `Payload.GetSmsList` | alcatelik40_smsctl.py:104-114 | Definition of `get_sms_list` on the reply it gets; its properties are `Payload.GetSmsListReceived` and `Contacts.ListingIsReceived`. |
| `Payload.GetSmsByContact` | alcatelik40_smsctl.py:116-127 | Definition of the reply handling of `get_sms_by_contact`; its property is `Payload.GetSmsByContactReceived`. |
| `Payload.FirstRecordList` | alcatelik40_smsctl.py:167-169 | The result is the first member, in key order, whose value is a non-empty list headed by a dict. It is None exactly when no member's value is one. |
| `Payload.ExtractCases` | alcatelik40_smsctl.py:158-170 | A falsy payload gives `[]`. Otherwise MessageList, then SMSList, then ContentList wins, and its value is returned unchanged. With none of them, the first record list in key order is returned, else `[]`. Extraction never fails on an object. |
| `Payload.ExtractRaisesOnNonObjects` | alcatelik40_smsctl.py:158-167 | A truthy payload that is not a dict raises: a TypeError from `in` on a scalar, or an AttributeError from `.items()` on a list without the container names. |
| `Payload.FilterReceivedSpec` | alcatelik40_smsctl.py:112 | The filter fails exactly when some element is not a dict. Otherwise it returns an order-preserving subsequence holding every message with `SMSType == 0`, each unchanged and as often as in the input, and no other message. |
| `Payload.FilterReceivedMembers` | alcatelik40_smsctl.py:125 | A message is in the filtered list exactly when it is in the input and its SMSType equals 0. A message without SMSType is excluded. |
| `Payload.ReceivedRoundTrip` | alcatelik40_smsctl.py:110-113 | The list re-wrapped under MessageList or ContentList extracts back unchanged. |
| `Payload.GetSmsListReceived` | alcatelik40_smsctl.py:104-113 | A successful received-only listing comes from a request that did not fail and is `{"MessageList": received}`. `received` is an order-preserving subsequence of the payload's elements holding each received message as often as the payload does, and nothing else. The wrapper extracts back to `received`. |
| `Payload.GetSmsByContactReceived` | alcatelik40_smsctl.py:116-126 | A successful received-only contact listing comes from a request that did not fail and is `{"ContentList": received}`. `received` is an order-preserving subsequence of the payload's elements holding each received message as often as the payload does, and nothing else. The wrapper extracts back to `received`. |
| `Contacts.NumbersOf` | alcatelik40_smsctl.py:136-138 | Definition of the numbers a record carries; its properties are `Contacts.ScalarNumberAsList` and `Contacts.MissingNumberMatchesNothing`. |
| `Contacts.ScalarNumberAsList` | alcatelik40_smsctl.py:136-138 | Wherever PhoneNumber stands, a single value `x` and the one-element list holding it give the same numbers `[x]`, so the record matches the same targets. |
| `Contacts.MissingNumberMatchesNothing` | alcatelik40_smsctl.py:136-138 | A record without PhoneNumber carries no numbers and matches no target. |
| `Contacts.ContactOf` | alcatelik40_smsctl.py:134-142 | Definition of what the matching loop returns; its properties are `Contacts.ContactOfReceived` and `Contacts.FindContactIn`. |
| `Contacts.ReceivedMessages` | alcatelik40_smsctl.py:130-133 | Definition of the list `find_contact_id` searches; its properties are `Contacts.ListingIsReceived` and `Contacts.SearchesReceivedOnly`. |
| `Contacts.ContactFor` | alcatelik40_smsctl.py:129-142 | Definition of `find_contact_id` on the listing reply; `Contacts.FindContactId` is proved equal to it. |
| `Contacts.ClearPlan` | alcatelik40_smsctl.py:266-286 | Definition of the decision `clear_command` takes; its properties are `Contacts.ClearDeletesOnlyMatched` and `Contacts.ClearAllNeedsConfirmation`. |
| `Contacts.FirstMatch` | alcatelik40_smsctl.py:135-141 | A found index is a dict message with a number normalising to the target. No message before the found index, or before the end when nothing is found, stops the scan. |
| `Contacts.FirstMatchErr` | alcatelik40_smsctl.py:135-136 | The scan raises only AttributeError, and only at a message that is not a dict, met before any message that carries the target. |
| `Contacts.FirstMatchAt` | alcatelik40_smsctl.py:135-141 | The scan is decided by the first message it stops at. That message's index is returned if it is a dict, and AttributeError is raised if it is not. |
| `Contacts.FirstMatchNone` | alcatelik40_smsctl.py:135-142 | When no message carries the target and all are dicts, the scan returns None. |
| `Contacts.CarriesTarget` | alcatelik40_smsctl.py:139-141 | The inner loop over one message's numbers finds a number exactly when some number normalises to the target. |
| `Contacts.FindContactIn` | alcatelik40_smsctl.py:133-142 | The outer loop over the messages, with the inner loop, its early returns and the rebinding of a scalar PhoneNumber to a one-element list, computes `ContactOf`: the ContactId of the first message holding a number that normalises as the target does, else None. |
| `Contacts.ListingIsReceived` | alcatelik40_smsctl.py:104-113 | `get_sms_list(False)` fails, returns None, or returns the received messages wrapped under MessageList, in correspondence with the list `find_contact_id` searches. |
| `Contacts.FindContactId` | alcatelik40_smsctl.py:129-142 | `find_contact_id` returns None for a failed listing. Otherwise it returns the matching loop's result over the received messages of the listing. |
| `Contacts.ObjectsNeverRaise` | alcatelik40_smsctl.py:135-141 | Over received messages, all of which are dicts, the scan never raises. |
| `Contacts.SearchesReceivedOnly` | alcatelik40_smsctl.py:130 | Every message the contact lookup searches has `SMSType == 0`. |
| `Contacts.ContactOfReceived` | alcatelik40_smsctl.py:134-142 | Over received messages the lookup succeeds. It gives None when no message carries the target, and otherwise the ContactId of the first message that does. |
| `Contacts.ClearDeletesOnlyMatched` | alcatelik40_smsctl.py:266-276 | `clear --contact` deletes a contact's thread only when all of these hold: the number was given, the answer lower-cases to "y", the id is truthy (so a ContactId of 0 counts as not found), and the id is the ContactId of the first received message carrying a number that normalises exactly as the typed one. |
| `Contacts.ClearAllNeedsConfirmation` | alcatelik40_smsctl.py:281-286 | Without `--contact`, a "y" (in any case) plans that `delete_all_sms()` runs; see `Commands.DeleteAllSms` for what it deletes. Any other answer cancels. |
| `Contacts.ModemRecordReceived` | alcatelik40_smsctl.py:110-113 | A modem record with type 0 survives extraction and the received filter unchanged. |
| `Contacts.DomesticRecordMatches` | alcatelik40_smsctl.py:134-141 | A received record holding `8` plus a subscriber's ten digits is found by `+7` plus the same digits, and its contact is returned. |
| `Contacts.BlankTarget` | alcatelik40_smsctl.py:144-155 | A target of only whitespace normalises to `""`, as does every falsy number on a record (None, `""`, 0). |
| `Decode.UnknownLabel` | alcatelik40_smsctl.py:227 | Definition of the f-string default `f"Unknown ({c})"`, also at line 289. Used by `Decode.Lookup`; its property is `Decode.UnknownLabelInjective`. |
| `Decode.MessageStatus` | alcatelik40_smsctl.py:226-227 | Definition of `get_message_status`; its properties are `Decode.Lookup`, `Decode.DecodersTotal`, `Decode.StatusLabelInjective` and `Decode.DecoderExamples`. |
| `Decode.MessageType` | alcatelik40_smsctl.py:288-289 | Definition of `get_message_type`; its properties are `Decode.Lookup`, `Decode.DecodersTotal`, `Decode.TypeLabelInjective` and `Decode.DecoderExamples`. |
| `Decode.TableKey` | alcatelik40_smsctl.py:227 | A dict lookup finds an integer key in range and finds nothing for None, a string or an out-of-range integer. A list or dict key raises. |
| `Decode.Lookup` | alcatelik40_smsctl.py:226-227 | An in-range integer gives its table entry. A boolean gives entry 0 or 1. None, a string or an out-of-range integer gives `"Unknown (c)"`. A list or dict raises TypeError. |
| `Decode.DecodersTotal` | alcatelik40_smsctl.py:288-289 | Both decoders succeed exactly on scalar codes. Their label is then a table value or the code's own fallback label. |
| `Decode.UnknownLabelInjective` | alcatelik40_smsctl.py:227 | Two fallback labels for integer codes are equal only when the codes are. |
| `Decode.TypeLabelInjective` | alcatelik40_smsctl.py:288-289 | Distinct integer type codes get distinct labels. |
| `Decode.StatusLabelInjective` | alcatelik40_smsctl.py:226-227 | Distinct integer status codes get distinct labels. In particular status 0's "Unknown" is not any code's fallback label. |
| `Decode.DecoderExamples` | alcatelik40_smsctl.py:288-289 | Type 2 is "Sent", 9 is "Unknown (9)", and 0 and False are "Received". Status 1 is "Unread", and 0 is "Unknown", which is not "Unknown (0)". |
| `Decode.FirstPresent` | alcatelik40_smsctl.py:299 | When the first key is present, its value is used even if it is null. |
| `Decode.FirstPresentSpec` | alcatelik40_smsctl.py:299-305 | The nested `.get` fallbacks give the value under the first key of the list the record holds. They give the default only when it holds none of the keys. |
| `Decode.View` | alcatelik40_smsctl.py:297-305 | A shown record is a dict. Its type is the decoded SMSType (default 0), and its status is the decoded TagType, else Status, else 0. |
| `Decode.ViewCases` | alcatelik40_smsctl.py:299-305 | Showing fails exactly on a non-dict record or a list or dict code. Without SMSType, TagType and Status, a record shows as "Received" and "Unknown". |
| `Decode.ModemView` | alcatelik40_smsctl.py:297-305 | A record in the modem's own field names shows its own id, contact, numbers and content, its decoded codes, and time "Unknown". The export at lines 190-194 uses the same field lookups. |
| `Decode.SampleView` | alcatelik40_smsctl.py:299-305 | The record with SMSId 5, ContactId 2, PhoneNumber ["89161234567"], SMSType 0, TagType 1 and SMSContent "hi" shows as received, unread, "hi". |
| `Commands.StatusOf` | alcatelik40_smsctl.py:95 | Definition of `status_result.get("result", {}).get("SendStatus")`, with AttributeError when `result` is not a dict. Used by `Commands.CheckOutcome`. |
| `Commands.CheckOutcome` | alcatelik40_smsctl.py:95-101 | Definition of what one accepted status check leads to: its status, then `Commands.ClassifySendStatus`. Used by `Commands.PollOutcome` and `Commands.SendSms`. |
| `Commands.ClassifySendStatus` | alcatelik40_smsctl.py:95-101 | Definition of the reading of `send_status`; its properties are `Commands.ClassifyCases`. |
| `Commands.PollOutcome` | alcatelik40_smsctl.py:90-102 | Definition of the polling outcome over the status replies; its properties are `Commands.SentIffDelivered` and `Commands.PollAppend`, and `Commands.SendSms` is proved equal to it. |
| `Commands.GreaterThan` | alcatelik40_smsctl.py:99 | `v > 2` is defined exactly for integers and booleans. For an integer it is the integer comparison. |
| `Commands.ClassifyCases` | alcatelik40_smsctl.py:95-101 | Status 2 exactly means delivered, every integer above 2 means rejected, and integers below 2 and booleans mean poll again. A missing status (None) or a string raises TypeError. |
| `Commands.SentIffDelivered` | alcatelik40_smsctl.py:90-102 | Polling reports success exactly when some check reports status 2 and every earlier check was accepted and pending. |
| `Commands.PollAppend` | alcatelik40_smsctl.py:90-102 | Polling is sequential. Replies after a decided check do not matter, and after only pending checks the following replies decide alone. |
| `Commands.SendSms` | alcatelik40_smsctl.py:77-102 | A failed send request gives False. Otherwise the `while True` loop over the status checks computes `PollOutcome`. |
| `Commands.ContactIdOf` | alcatelik40_smsctl.py:237 | Definition of `msg.get('ContactId')`. Used by `Commands.DeleteKey` and `Commands.DeleteMessages`. |
| `Commands.SmsIdOf` | alcatelik40_smsctl.py:238 | Definition of `msg.get('SMSId', msg.get('Id'))`; its property is `Commands.SmsIdFallback`. |
| `Commands.DeleteKey` | alcatelik40_smsctl.py:237-238 | Definition of the (ContactId, SMSId-else-Id) pair the loop reads. Used by `Commands.RequestOf` and `Commands.SubmittedSpec`. |
| `Commands.RequestOf` | alcatelik40_smsctl.py:237-240 | Definition of the request a record leads to, present only when both ids are truthy (line 239). Used by `Commands.Submitted`. |
| `Commands.Submitted` | alcatelik40_smsctl.py:236-241 | Definition of the delete requests the loop submits; its properties are `Commands.SubmittedSpec` and `Commands.DeleteCountBounds`, and `Commands.DeleteMessages` is proved to submit exactly these. |
| `Commands.RecordPrefix` | alcatelik40_smsctl.py:236-237 | The loop reads records up to the first element that is not a dict, where `.get` raises. |
| `Commands.CountAccepted` | alcatelik40_smsctl.py:240-241 | The count of accepted deletes never exceeds the number of requests. |
| `Commands.PrefixEndsAt` | alcatelik40_smsctl.py:236-237 | The loop stops reading records exactly at the first element that is not a dict. |
| `Commands.SubmittedSpec` | alcatelik40_smsctl.py:236-241 | Every submitted delete has a truthy ContactId and a truthy SMSId (else Id), both taken from one record before the first non-dict. Conversely, every such record whose two ids are truthy is submitted. There are at most as many deletes as records. |
| `Commands.SmsIdFallback` | alcatelik40_smsctl.py:238 | `msg.get('SMSId', msg.get('Id'))` is the first-present-key lookup over SMSId then Id, with None as default: a present null SMSId still wins. |
| `Commands.DeleteMessages` | alcatelik40_smsctl.py:234-244 | The loop submits exactly `Submitted(messages)`. It fails exactly if some element is not a dict. Otherwise `deleted_count` is the number of submitted deletes the modem accepted. |
| `Commands.DeleteList` | alcatelik40_smsctl.py:230-234 | Definition of the elements `delete_all_sms` iterates: None for a failed or falsy listing. Used by `Commands.DeleteAllSms`. |
| `Commands.DeleteAllSms` | alcatelik40_smsctl.py:229-244 | A failed or falsy listing gives False with nothing submitted, and a listing that cannot be extracted or iterated raises with nothing submitted. Otherwise the submitted deletes are exactly `Submitted` of the listed elements. The call fails exactly when an element is not a dict, and otherwise returns whether the count of accepted deletes is above 0. |
| `Commands.DeleteCountBounds` | alcatelik40_smsctl.py:236-244 | The count is at most the number of deletes, which is at most the list length. With no eligible record the count is 0. |
| `Commands.CountAcceptedExtremes` | alcatelik40_smsctl.py:240-241 | When every delete is accepted, the count is the number of deletes. When none is, the count is 0. |
| `Commands.ParseFrom` | alcatelik40_smsctl.py:328-347 | Definition of the option loop read from position `i`; its properties are `Commands.ParseAppend`, the override lemmas and `Commands.UnknownIsRefused`, and `Commands.ParseReceive` is proved equal to it. |
| `Commands.ParseReceive` | alcatelik40_smsctl.py:321-347 | The `while i < len(sys.argv)` loop computes `ParseFrom(argv, 2, Defaults)`. |
| `Commands.ParseAppend` | alcatelik40_smsctl.py:328-347 | Options are read left to right. After a prefix parses, the rest continues from the settings that prefix left. |
| `Commands.AllOverrides` | alcatelik40_smsctl.py:336-339 | A later `--all`, in any case, turns `unread_only` off and changes nothing else. |
| `Commands.UnreadOverrides` | alcatelik40_smsctl.py:336-337 | A later `--unread`, in any case, turns `unread_only` on and changes nothing else. |
| `Commands.ContactTakenAsTyped` | alcatelik40_smsctl.py:330-335 | `--contact` takes the next argument as typed, not lower-cased (even one that looks like an option). A later `--contact` replaces it. |
| `Commands.ContactNeedsNumber` | alcatelik40_smsctl.py:330-333 | `--contact` as the last argument is a usage error. |
| `Commands.UnknownIsRefused` | alcatelik40_smsctl.py:346-347 | An argument that is no option is a usage error naming it in lower case. |
| `Commands.NoOptions` | alcatelik40_smsctl.py:322-327 | With no options the settings are the defaults: all received messages, printed. |

## Left out

- `send_request`, `requests.post`, the URL, the headers and the request templates (alcatelik40_smsctl.py:23-75) are network I/O. Each call is replaced by the reply it returns. A reply is None when the request failed, otherwise the decoded reply object. A reply that decodes to a JSON value other than an object is not modelled.
- The request bodies sent by `send_sms`, `get_sms_list`, `get_sms_by_contact`, `delete_single_message` and `delete_contact_messages`, and the choice between the unread and the full listing request, are left out. They only change which reply comes back.
- `get_sms_by_contact` writes the contact id into the global template `JSON_GET_SMS_CONTENT` (alcatelik40_smsctl.py:117). That in-place write only affects the outgoing request, so it is not modelled. Its reply handling is `Payload.GetSmsByContact`.
- `save_sms_to_file` and `save_sms_json` (alcatelik40_smsctl.py:172-224) are filesystem I/O. Only their field lookups are modelled, in `Decode.View`.
- `print_sms_messages` (alcatelik40_smsctl.py:291-306) is console output. What it shows of a record is modelled by `Decode.View`; the printing is not.
- All other `print` calls, `time.sleep` and `datetime.now()` (alcatelik40_smsctl.py:78, 89, 102, 242) are effects without a result the logic uses.
- `input()` and `sys.argv` become parameters. `quit(1)` becomes a usage-error value. The dispatch in `main` (alcatelik40_smsctl.py:308-320, 348-370) is not modelled, including the use `receive` makes of the parsed options.
- `Commands.SendSms`: the `while True` loop polls as long as the modem reports a pending status. The model reads a finite sequence of status replies, and when they run out while the status is still pending it returns StillPolling. Endless polling is not represented.
- Objects with a repeated key are outside the model. A reply decoded by Python's `json` holds each key once, keeping the last value given for it. The model's lookups read the first member with the key, so they agree with Python only on objects whose keys are distinct (`Json.UniqueKeys`).
- Float status codes or ids are left out, because JSON numbers are modelled as integers.
- Characters are ASCII only. `\d`, `isdigit()`, `isspace()` and `lower()` are modelled on ASCII; their Unicode behaviour is not.
- `str()` of a float has no model, because floats have none.

