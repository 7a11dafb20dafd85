# Aparell mailbox, modelled in Dafny

Aparell is a two-party mailbox service between two devices named "marti" and
"ella". This project models the state machine at the core of the service
and proves properties about it.

- **`app_v2.py` (`MailboxV2`)**. There is one message slot per participant.
  A new message overwrites the recipient's slot. A global counter allocates
  message ids and is shared by both slots. Each participant also has a
  presence record that is not persisted. It holds the time of that
  participant's last poll and its read watermark, which is the
  `last_seen_message_id` it has acknowledged. There are three handlers:
  - `nuevo_mensaje` sends a message to the other participant.
  - `estado` polls. It stamps the poller's presence and reports `has_unread`
    and whether the other participant is online.
  - `mensaje_visto` acknowledges a message by moving the watermark.

  Each handler is written in two forms. The first is a function from the old
  state and the normalised request fields to the new state and the reply
  (`SendStep`, `PollStep`, `AcknowledgeStep`). The normalised fields are the
  stripped text and the participant named by a stripped, lower-cased field.
  The second is a method of the class `Server`, whose
  fields are the counter, the slots and the presence records. The methods
  update those fields in place and are proved equal to the functions. Lemmas
  relate several calls: the invariant, slot isolation, the unread and
  presence rules, idempotence, and unique ids over any run of requests.
- **`app.py` (`MailboxV1`)**. This is the older variant, with a single
  record `mensaje_actual`. A post overwrites the record field by field:
  it sets a new id, the stripped text and a timestamp, and marks the
  message unread. `ultimo_mensaje` reads the record back.
- **`Text`**. This module models Python's `str.strip()` and `str.lower()`,
  which the handlers apply to request fields.
- **`Wrappers`**. This module defines `Option` and `Result`.

Request fields arrive already parsed:
- `None` stands for an absent field.
- `message_id` is an `Option<int>`. `None` means that `int()` failed.
- `now` is an integer number of seconds.
- Timestamps are opaque strings.

## Behaviour as coded

The model follows the code. Where the code is looser than the service's
intended design, the model does what the code does:

- `nuevo_mensaje` refuses empty text before it checks the sender.
- An absent or empty `from` field counts as "marti".
- `mensaje_visto` accepts any integer that is at most `next_message_id`.
  That includes negative ids and ids already below the watermark. It sets
  the watermark to exactly that value, so the watermark can move backwards.
- The watermark may equal the id that the next send will allocate.
  `AcknowledgeAheadHidesNextMessage` shows the effect on a fresh mailbox:
  acknowledging id 1 before anything is sent means that message 1 is never
  reported as unread. `SendThenPollRecipient` states the general rule: a
  new message is reported unread exactly when the recipient's watermark was
  below its id.
- At startup each watermark is set to the id of the message already in that
  slot, so nothing left over from before the restart counts as unread.
- A failure to save is ignored. In this model, saving does nothing.

## Model

| member | source | states |
|---|---|---|
| `Text.IsSpace` | app_v2.py:112-113 | `str.isspace()` on one character, the set `strip()` removes: blank, tab and line breaks are in it, no ASCII letter is |
| `Text.Strip` | app_v2.py:112-113 | `str.strip()`: the result is the slice of the input left after removing white space only, at both ends, and it neither starts nor ends with white space |
| `Text.StripEmptyIff` | app_v2.py:112-116 | the text stripped by the handlers is empty exactly when every character is white space |
| `Text.StripIdempotent` | app_v2.py:112-113 | stripping twice is stripping once |
| `Text.LowerChar` | app_v2.py:113 | one character lowered: the result is never an upper-case letter; an upper-case letter becomes the lower-case letter 32 code points above it; anything else is kept |
| `Text.Lower` | app_v2.py:113 | `str.lower()`: same length, no upper-case letter left, each upper-case letter replaced by its lower-case letter and every other character kept |
| `Text.LowerIdempotent` | app_v2.py:113 | lower-casing twice is lower-casing once |
| `Text.StripLower` | app_v2.py:113 | `.strip().lower()` equals `.lower().strip()`, because lower-casing neither creates nor removes white space |
| `MailboxV2.Other` | app_v2.py:122 | the recipient is always the participant other than the sender |
| `MailboxV2.DefaultSnapshot` | app_v2.py:14-23 | `default_state()`: counter at 1, both slots empty |
| `MailboxV2.LoadState` | app_v2.py:26-40 | a missing file or a record without either key gives the default state; otherwise the loaded counter, with missing slots filled as empty |
| `MailboxV2.InitialWatermark` | app_v2.py:67-71 | the starting watermark is 0 for an empty slot, and otherwise the lowest watermark at which the slot's message is not unread, namely its id |
| `MailboxV2.Startup` | app_v2.py:60-81 | after startup both presence records are unset and each watermark equals the id in that slot (or 0), so no slot reports unread |
| `MailboxV2.StartupConsistent` | app_v2.py:63-81 | starting from any snapshot this program could have written gives a state where every watermark is at most the counter |
| `MailboxV2.DefaultStartupConsistent` | app_v2.py:60 | starting without a state file satisfies the invariant |
| `MailboxV2.UnreadMonotone` | app_v2.py:177-180 | `has_unread` (`HasUnread`): an empty slot is never unread, and raising the watermark can turn an unread slot read but never the reverse |
| `MailboxV2.IsOnline` | app_v2.py:84-88 | never seen means offline; otherwise online exactly when at most `timeout` seconds have passed, with the boundary counted as online |
| `MailboxV2.ParseParticipant` | app_v2.py:113-119 | a name is accepted exactly when, stripped and lower-cased, it is "marti" or "ella", and it maps to the participant with that name |
| `MailboxV2.ParseName` | app_v2.py:118 | each participant's own name is accepted as that participant |
| `MailboxV2.ParseNormalised` | app_v2.py:113-119 | parsing a name ignores case and surrounding white space: a field already stripped, or already lower-cased, parses to the same participant |
| `MailboxV2.OrEmpty` | app_v2.py:112 | `(field or "")`: an absent field reads as the empty string, a present one as itself |
| `MailboxV2.SenderField` | app_v2.py:113 | `(from or "marti")`: an absent or empty sender parses as marti; any other value is kept as it is |
| `MailboxV2.SendStep` | app_v2.py:115-141 | given the stripped text and the parsed sender: refuses empty text first and an unknown sender second, with no change in either case; succeeds exactly when both checks pass, and then id = old counter, counter + 1, recipient = other participant, only the recipient's slot replaced, sender's slot and all presence records unchanged |
| `MailboxV2.PollStep` | app_v2.py:166-195 | given the parsed device: refuses an unknown device with no change; otherwise only that device's `last_seen` becomes `now`; `has_unread` holds exactly when the slot holds a message whose id is above the device's watermark; `other_online` holds exactly when the other participant has polled and at most 30 seconds have passed since |
| `MailboxV2.AcknowledgeStep` | app_v2.py:211-229 | given the parsed device and id: refuses an unknown device first and a missing id second, with no change; succeeds exactly when both are present, and then sets the watermark to exactly the id when the id is at most the counter, leaves it otherwise, changes nothing else, and returns the watermark after the call |
| `MailboxV2.SendConsistent` | app_v2.py:124-136 | sending keeps the invariant: each watermark at most the counter, each stored message in its recipient's slot with an id below the counter |
| `MailboxV2.PollConsistent` | app_v2.py:169-170 | polling keeps the invariant |
| `MailboxV2.AcknowledgeConsistent` | app_v2.py:221-222 | acknowledging keeps the invariant, thanks to the guard against ids above the counter |
| `MailboxV2.SendFreshId` | app_v2.py:124-125 | a new message's id differs from the id of every message already in a slot |
| `MailboxV2.SendThenPollRecipient` | app_v2.py:139-141 | after a send, the recipient's poll returns the new message and reports it unread exactly when the recipient's watermark was below its id; otherwise the watermark equals that id |
| `MailboxV2.AcknowledgeAheadHidesNextMessage` | app_v2.py:219-222 | acknowledging id 1 on a fresh mailbox is accepted, and any message marti then sends to ella gets id 1 and is not reported unread |
| `MailboxV2.SendIsolation` | app_v2.py:135-136 | a send leaves the sender's own poll reply exactly as it was |
| `MailboxV2.AcknowledgeThenPoll` | app_v2.py:221-222 | after acknowledging an id that is at most the counter, the reply is that id, and a poll reports unread exactly when the slot's message id is above it |
| `MailboxV2.AcknowledgeIdempotent` | app_v2.py:210-228 | repeating an acknowledgement gives the same state and the same reply |
| `MailboxV2.AcknowledgeIsolation` | app_v2.py:222 | one participant's acknowledgement leaves the other participant's poll reply unchanged |
| `MailboxV2.PresenceWindow` | app_v2.py:183-185 | when the other participant last polled at `t`, a poll at `now` reports it online exactly when `now - t <= 30` |
| `MailboxV2.ExchangeScenario` | app_v2.py:101-229 | on a fresh mailbox a message from marti (such as "hola") gets id 1 and goes to ella; ella's poll shows it unread; acknowledging 1 returns 1; ella's next poll shows nothing unread |
| `MailboxV2.ApplyCounter` | app_v2.py:124-125 | one request either hands out no id and leaves the counter alone, or hands out the old counter and adds one to it |
| `MailboxV2.RunConsistent` | app_v2.py:221-222 | every run of sends, polls and acknowledgements keeps the invariant, so no watermark ever exceeds the counter |
| `MailboxV2.RunCounter` | app_v2.py:124-125 | over any run the counter grows by exactly the number of successful sends and never decreases |
| `MailboxV2.RunIds` | app_v2.py:124-125 | over any run the ids handed out are strictly increasing and lie between the old and the new counter |
| `MailboxV2.RunIdsUnique` | app_v2.py:124 | two different successful sends in a run never share an id |
| `MailboxV2.Server.constructor` | app_v2.py:60-81 | the server starts in the state `Startup` gives for the stored record |
| `MailboxV2.Server.Send` | app_v2.py:101-156 | strips the text; treats an absent or empty `from` as "marti", then strips and lower-cases it; then hands them to `Deliver`, ending in the state and reply of `SendStep` |
| `MailboxV2.Server.Deliver` | app_v2.py:115-141 | the checks and the in-place update of `nuevo_mensaje` on the normalised fields: refuses or bumps the counter and replaces the recipient's slot, ending in the state and reply of `SendStep` |
| `MailboxV2.Server.Poll` | app_v2.py:159-195 | parses `device` (absent is empty, then strip and lower-case); stamps its `last_seen` in place, ending in the state and reply of `PollStep` |
| `MailboxV2.Server.Acknowledge` | app_v2.py:198-230 | parses `device` as `estado` does; updates its watermark in place, ending in the state and reply of `AcknowledgeStep` |
| `MailboxV1.DefaultRecord` | app.py:16-21 | with no saved message, the record has id 0, the placeholder text, and `is_read` false |
| `MailboxV1.IdOrZero` | app.py:50 | `.get("id", 0)`: a missing id counts as 0, a present one as itself |
| `MailboxV1.PostStep` | app.py:43-53 | text that is empty after strip is refused; otherwise id = previous id + 1 (missing id counts as 0), the stripped text and the stamp are stored, and `is_read` is false |
| `MailboxV1.PostAllCounts` | app.py:49-53 | after a series of posts the id is the starting id plus the number of accepted posts; the message is unread once any post was accepted, and unchanged if none was |
| `MailboxV1.Board.constructor` | app.py:11-30 | `mensaje_actual` starts as the saved record, or as the default one when there is none |
| `MailboxV1.Board.Post` | app.py:39-57 | overwrites `mensaje_actual` field by field on success and leaves it unchanged on refusal, as `PostStep` says |
| `MailboxV1.Board.Latest` | app.py:60-63 | returns the current record and modifies nothing |

## Left out

- HTTP routing, `render_template` and request parsing (`get_json`, `request.form`, `request.args`) are not modelled. Handlers take already-parsed fields. A non-string JSON value, on which `.strip()` would raise, is not modelled.
- The HTTP status codes and the exact JSON and error strings of the replies are not modelled. Replies are `Result` values with an `Error` constructor.
- Reading and writing the JSON files (`save_state`, `save_message`, the file access in `load_state` and `load_message`) are not modelled. A stored record is a parameter, and saving does nothing. `save_state` ignores failures, so the in-memory state is the same either way.
- Loaded records whose fields have other JSON types (for example a string id, which would make `+ 1` raise in app.py) are not modelled. Neither is an unreadable `mensaje.json`, on which app.py raises at startup.
- Time is not modelled as a clock. `now` is an integer number of seconds, not `datetime.now`, and timestamps are opaque strings.
- `MailboxV2.IsOnline`: compares integer seconds, not the floating-point `total_seconds()`. Within one poll it also uses the same `now` that was stamped, while `is_online` reads the clock a second time.
- `int()` coercion of `message_id` (floats truncating, numeric strings parsing) is not modelled. The id is already parsed, or `None` when parsing failed.
- `Text.Lower`: lowers ASCII letters only. `str.lower()` also lowers other letters, but no other character lowers to a letter of "marti" or "ella" on its own, so comparisons with the two names give the same result.
- Concurrency between Flask workers is not modelled. The code takes no locks, and the model is the sequential state machine.
