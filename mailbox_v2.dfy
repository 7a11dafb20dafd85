/**
 * The two-party mailbox of app_v2.py: one message slot per participant, a
 * global message-id counter shared by both slots, and a per-participant
 * presence record (last poll time and read watermark) that is not persisted.
 *
 * Each handler is first given as a function from the old state to the new
 * state and the reply (SendStep, PollStep, AcknowledgeStep); the class Server
 * holds the three pieces of state as fields and its methods update them in
 * place, proved equal to those functions. The lemmas relate several calls.
 */
module MailboxV2 {
  import opened Wrappers
  import opened Text

  /** The two hard-wired participants, "marti" and "ella". */
  datatype Participant = Marti | Ella

  /** The key under which a participant appears in requests and in the state dictionaries. */
  function Name(p: Participant): string
  {
    match p
    case Marti => "marti"
    case Ella => "ella"
  }

  /** The recipient of a message from `p`, and the peer whose presence `p` is told about. */
  function Other(p: Participant): (q: Participant)
    ensures q != p
  {
    if p == Marti then Ella else Marti
  }

  /** Seconds since the last poll within which a participant still counts as online. */
  const LivenessWindow: int := 30

  /** Creation time of a message; never inspected, so kept as an opaque string. */
  type Timestamp = string

  datatype Message = Message(id: int, text: string, from: Participant, to: Participant, timestamp: Timestamp)

  /** One entry of `devices_state`: the time of the last poll (in seconds) and the read watermark. */
  datatype DeviceRecord = DeviceRecord(lastSeen: Option<int>, lastSeenMessageId: int)

  /** The persisted part of the state: the counter and the slots of `messages_state`. */
  datatype Snapshot = Snapshot(nextMessageId: int, messages: map<Participant, Option<Message>>)

  /** Everything the handlers read and write: the snapshot plus `devices_state`. */
  datatype MailboxState = MailboxState(
    nextMessageId: int,
    messages: map<Participant, Option<Message>>,
    devices: map<Participant, DeviceRecord>)

  datatype Error = EmptyText | InvalidSender | InvalidDevice | InvalidMessageId

  /** The body of a successful `/estado` reply. */
  datatype Status = Status(
    device: Participant,
    otherDevice: Participant,
    otherOnline: bool,
    hasUnread: bool,
    message: Option<Message>)

  /** The state after a handler ran, with its reply. */
  datatype Step<T> = Step(state: MailboxState, reply: Result<T, Error>)

  /** Both dictionaries have an entry for both participants. */
  ghost predicate Complete(s: MailboxState)
  {
    && (forall p: Participant :: p in s.messages)
    && (forall p: Participant :: p in s.devices)
  }

  /** Every stored message sits in its recipient's slot and has an id below the counter. */
  ghost predicate SlotsBelow(messages: map<Participant, Option<Message>>, next: int)
    requires forall p: Participant :: p in messages
  {
    forall p: Participant :: messages[p].Some? ==> messages[p].value.id < next && messages[p].value.to == p
  }

  /**
   * The invariant the handlers keep: the slots are as `SlotsBelow` says, and
   * no watermark is above the counter.
   */
  ghost predicate Consistent(s: MailboxState)
  {
    && Complete(s)
    && SlotsBelow(s.messages, s.nextMessageId)
    && (forall p: Participant :: s.devices[p].lastSeenMessageId <= s.nextMessageId)
  }

  // ---------- Startup ----------

  /** `default_state()`: the counter at 1 and both slots empty. */
  function DefaultSnapshot(): (s: Snapshot)
    ensures s.nextMessageId == 1
    ensures forall p: Participant :: p in s.messages && s.messages[p] == None
  {
    var slots: map<Participant, Option<Message>> := map[Marti := None, Ella := None];
    assert forall p: Participant :: p in slots by {
      forall p: Participant ensures p in slots {
        assert p.Marti? || p.Ella?;
      }
    }
    Snapshot(1, slots)
  }

  /**
   * What a state file may hold once parsed: either key may be missing, and
   * `messages_state` may lack a participant.
   */
  datatype StoredState = StoredState(nextMessageId: Option<int>, messages: Option<map<Participant, Option<Message>>>)

  /**
   * `load_state()`, with the file read abstracted: `None` is a missing or
   * unreadable file. A record lacking either key gives the default state;
   * otherwise a participant missing from the slots gets an empty slot.
   */
  function LoadState(stored: Option<StoredState>): (s: Snapshot)
    ensures forall p: Participant :: p in s.messages
    ensures (|| stored.None?
             || stored.value.nextMessageId.None?
             || stored.value.messages.None?) ==> s == DefaultSnapshot()
    ensures stored.Some? && stored.value.nextMessageId.Some? && stored.value.messages.Some? ==>
      && s.nextMessageId == stored.value.nextMessageId.value
      && forall p: Participant :: s.messages[p] ==
           (if p in stored.value.messages.value then stored.value.messages.value[p] else None)
  {
    match stored
    case None => DefaultSnapshot()
    case Some(StoredState(Some(next), Some(slots))) =>
      Snapshot(next, map p: Participant :: if p in slots then slots[p] else None)
    case Some(_) => DefaultSnapshot()
  }

  /**
   * The watermark a participant starts with: 0 for an empty slot; otherwise
   * the id of the message already there, which is the lowest watermark at
   * which that message does not count as unread.
   */
  function InitialWatermark(slot: Option<Message>): (w: int)
    ensures slot.None? ==> w == 0
    ensures !HasUnread(slot, w)
    ensures slot.Some? ==> forall v: int :: v < w ==> HasUnread(slot, v)
  {
    if slot.Some? then slot.value.id else 0
  }

  /**
   * The state after startup: the loaded snapshot, nobody seen yet, and each
   * watermark set so that what is already in the slot counts as read.
   */
  function Startup(stored: Option<StoredState>): (s: MailboxState)
    ensures Complete(s)
    ensures var snap := LoadState(stored);
      s.nextMessageId == snap.nextMessageId && s.messages == snap.messages
    ensures forall p: Participant :: s.devices[p].lastSeen == None
    ensures forall p: Participant ::
      s.devices[p].lastSeenMessageId == (if s.messages[p].Some? then s.messages[p].value.id else 0)
    ensures forall p: Participant :: !HasUnread(s.messages[p], s.devices[p].lastSeenMessageId)
  {
    var snap := LoadState(stored);
    MailboxState(
      snap.nextMessageId,
      snap.messages,
      map p: Participant :: DeviceRecord(None, InitialWatermark(snap.messages[p])))
  }

  /** A snapshot this program could have written: every message in its recipient's slot, below the counter. */
  ghost predicate WellFormed(snap: Snapshot)
  {
    && snap.nextMessageId >= 1
    && (forall p: Participant :: p in snap.messages)
    && SlotsBelow(snap.messages, snap.nextMessageId)
  }

  /** Startup from a well-formed snapshot, in particular from no file at all, satisfies the invariant. */
  lemma StartupConsistent(stored: Option<StoredState>)
    requires WellFormed(LoadState(stored))
    ensures Consistent(Startup(stored))
  {
  }

  lemma DefaultStartupConsistent()
    ensures Consistent(Startup(None))
  {
    StartupConsistent(None);
  }

  // ---------- Derived predicates ----------

  /** `has_unread`: there is a message in the slot and its id is above the watermark. */
  predicate HasUnread(slot: Option<Message>, watermark: int)
  {
    slot.Some? && slot.value.id > watermark
  }

  /**
   * An empty slot is never unread, and raising the watermark can only turn
   * an unread slot into a read one, never the reverse.
   */
  lemma UnreadMonotone(slot: Option<Message>, lower: int, higher: int)
    requires lower <= higher
    ensures slot.None? ==> !HasUnread(slot, lower)
    ensures HasUnread(slot, higher) ==> HasUnread(slot, lower)
    ensures !HasUnread(slot, lower) ==> !HasUnread(slot, higher)
  {
  }

  /**
   * `is_online(last_seen, timeout_seconds)`: never seen means offline,
   * otherwise online while at most `timeout` seconds have passed.
   */
  function IsOnline(lastSeen: Option<int>, now: int, timeout: int): (r: bool)
    ensures lastSeen.None? ==> !r
    ensures lastSeen.Some? && now <= lastSeen.value + timeout ==> r
    ensures lastSeen.Some? && now > lastSeen.value + timeout ==> !r
  {
    match lastSeen
    case None => false
    case Some(t) => now - t <= timeout
  }

  // ---------- Request fields ----------

  /** `(field or "")`: an absent field reads as the empty string, a present one as itself. */
  function OrEmpty(field: Option<string>): (r: string)
    ensures field.None? ==> r == ""
    ensures field.Some? ==> r == field.value
  {
    if field.Some? then field.value else ""
  }


  /** `raw.strip().lower()` checked against the two participant names. */
  function ParseParticipant(raw: string): (r: Option<Participant>)
    ensures r.Some? <==> Lower(Strip(raw)) in {"marti", "ella"}
    ensures r.Some? ==> Name(r.value) == Lower(Strip(raw))
  {
    var key := Lower(Strip(raw));
    if key == "marti" then Some(Marti)
    else if key == "ella" then Some(Ella)
    else None
  }

  /** A participant's own name is accepted as that participant. */
  lemma ParseName(p: Participant)
    ensures ParseParticipant(Name(p)) == Some(p)
  {
    StripUntrimmed(Name(p));
    LowerUnchanged(Name(p));
  }

  /**
   * Parsing a name ignores case and the white space around it: a field that
   * is already stripped, or already lower-cased, is parsed the same way.
   */
  lemma ParseNormalised(raw: string)
    ensures ParseParticipant(Strip(raw)) == ParseParticipant(raw)
    ensures ParseParticipant(Lower(raw)) == ParseParticipant(raw)
  {
    StripIdempotent(raw);
    StripLower(raw);
    LowerIdempotent(Strip(raw));
  }

  /**
   * `(data.get("from") or "marti")`: an absent or empty sender is taken as
   * marti; any other value is kept as it is, to be parsed.
   */
  function SenderField(from: Option<string>): (r: string)
    ensures from.None? || from.value == "" ==> ParseParticipant(r) == Some(Marti)
    ensures from.Some? && from.value != "" ==> r == from.value
  {
    ParseName(Marti);
    match from
    case None => "marti"
    case Some(f) => if f == "" then "marti" else f
  }

  // ---------- Handlers as functions of the state ----------
  //
  // Each takes the request fields as the handler has normalised them: the
  // stripped text, and the participant named by the stripped, lower-cased
  // field (`None` when it names neither). Server below does that parsing.

  /**
   * `nuevo_mensaje`: empty text is refused first, then an unknown sender;
   * otherwise the message takes the counter's value as id, the counter moves
   * up by one, and the message replaces whatever was in the slot of the
   * participant other than the sender. Watermarks and presence are left
   * alone, so the recipient will see it as unread.
   */
  function SendStep(s: MailboxState, body: string, sender: Option<Participant>, stamp: Timestamp): (r: Step<Message>)
    requires Complete(s)
    ensures Complete(r.state)
    ensures r.reply == Failure(EmptyText) <==> body == []
    ensures r.reply == Failure(InvalidSender) <==> body != [] && sender.None?
    ensures r.reply.Success? <==> body != [] && sender.Some?
    ensures r.reply.Failure? ==> r.state == s
    ensures r.reply.Success? ==>
      var m := r.reply.value;
      && sender == Some(m.from)
      && m.to == Other(m.from)
      && m.id == s.nextMessageId
      && m.text == body
      && m.timestamp == stamp
      && r.state.nextMessageId == s.nextMessageId + 1
      && r.state.messages[m.to] == Some(m)
      && r.state.messages[m.from] == s.messages[m.from]
      && r.state.devices == s.devices
  {
    if body == [] then Step(s, Failure(EmptyText))
    else if sender.None? then Step(s, Failure(InvalidSender))
    else
      var to := Other(sender.value);
      var m := Message(s.nextMessageId, body, sender.value, to, stamp);
      Step(s.(nextMessageId := s.nextMessageId + 1, messages := s.messages[to := Some(m)]), Success(m))
  }

  /**
   * `estado`: an unknown device is refused with no change. Otherwise the
   * poll time of that device is set to `now` and nothing else changes; the
   * reply carries the device's slot, whether it is unread, and whether the
   * other participant polled within the liveness window.
   */
  function PollStep(s: MailboxState, device: Option<Participant>, now: int): (r: Step<Status>)
    requires Complete(s)
    ensures Complete(r.state)
    ensures r.reply.Failure? <==> device.None?
    ensures r.reply.Failure? ==> r.reply.error == InvalidDevice && r.state == s
    ensures r.reply.Success? ==>
      var st := r.reply.value;
      && device == Some(st.device)
      && st.otherDevice == Other(st.device)
      && st.message == s.messages[st.device]
      && (st.hasUnread <==> st.message.Some? && st.message.value.id > s.devices[st.device].lastSeenMessageId)
      && (st.otherOnline <==>
            s.devices[st.otherDevice].lastSeen.Some?
            && now - s.devices[st.otherDevice].lastSeen.value <= LivenessWindow)
      && r.state.nextMessageId == s.nextMessageId
      && r.state.messages == s.messages
      && r.state.devices[st.device] == s.devices[st.device].(lastSeen := Some(now))
      && r.state.devices[st.otherDevice] == s.devices[st.otherDevice]
  {
    match device
    case None => Step(s, Failure(InvalidDevice))
    case Some(d) =>
      var s' := s.(devices := s.devices[d := s.devices[d].(lastSeen := Some(now))]);
      var slot := s'.messages[d];
      var other := Other(d);
      var status := Status(
        d, other,
        IsOnline(s'.devices[other].lastSeen, now, LivenessWindow),
        HasUnread(slot, s'.devices[d].lastSeenMessageId),
        slot);
      Step(s', Success(status))
  }

  /**
   * `mensaje_visto`: an unknown device is refused first, then a missing or
   * non-integer id (`None`). Otherwise the watermark becomes exactly the id
   * when it does not exceed the counter (it may go down, or below zero) and
   * stays as it was when it does; the reply is the watermark after the call.
   */
  function AcknowledgeStep(s: MailboxState, device: Option<Participant>, messageId: Option<int>): (r: Step<int>)
    requires Complete(s)
    ensures Complete(r.state)
    ensures r.reply == Failure(InvalidDevice) <==> device.None?
    ensures r.reply == Failure(InvalidMessageId) <==> device.Some? && messageId.None?
    ensures r.reply.Success? <==> device.Some? && messageId.Some?
    ensures r.reply.Failure? ==> r.state == s
    ensures r.reply.Success? ==>
      var d := device.value;
      && messageId.Some?
      && r.reply.value == r.state.devices[d].lastSeenMessageId
      && r.reply.value == (if messageId.value <= s.nextMessageId then messageId.value
                           else s.devices[d].lastSeenMessageId)
      && r.state.devices[d].lastSeen == s.devices[d].lastSeen
      && r.state.devices[Other(d)] == s.devices[Other(d)]
      && r.state.nextMessageId == s.nextMessageId
      && r.state.messages == s.messages
  {
    match device
    case None => Step(s, Failure(InvalidDevice))
    case Some(d) =>
      match messageId
      case None => Step(s, Failure(InvalidMessageId))
      case Some(id) =>
        var s' := if id <= s.nextMessageId
                  then s.(devices := s.devices[d := s.devices[d].(lastSeenMessageId := id)])
                  else s;
        Step(s', Success(s'.devices[d].lastSeenMessageId))
  }

  // ---------- The invariant is kept ----------

  lemma SendConsistent(s: MailboxState, body: string, sender: Option<Participant>, stamp: Timestamp)
    requires Consistent(s)
    ensures Consistent(SendStep(s, body, sender, stamp).state)
  {
  }

  lemma PollConsistent(s: MailboxState, device: Option<Participant>, now: int)
    requires Consistent(s)
    ensures Consistent(PollStep(s, device, now).state)
  {
  }

  lemma AcknowledgeConsistent(s: MailboxState, device: Option<Participant>, messageId: Option<int>)
    requires Consistent(s)
    ensures Consistent(AcknowledgeStep(s, device, messageId).state)
  {
  }

  // ---------- Properties relating several calls ----------

  /** A new message gets an id that no message already in a slot has. */
  lemma SendFreshId(s: MailboxState, body: string, sender: Option<Participant>, stamp: Timestamp, p: Participant)
    requires Consistent(s)
    requires SendStep(s, body, sender, stamp).reply.Success?
    requires s.messages[p].Some?
    ensures s.messages[p].value.id != SendStep(s, body, sender, stamp).reply.value.id
  {
  }

  /**
   * After a send, the recipient's next poll returns the message, and reports
   * it unread exactly when the recipient's watermark was below the new id.
   * Under the invariant the watermark is at most that id, so the only way to
   * miss it is a watermark already equal to the id the send allocated.
   */
  lemma SendThenPollRecipient(s: MailboxState, body: string, sender: Option<Participant>, stamp: Timestamp, now: int)
    requires Consistent(s)
    requires SendStep(s, body, sender, stamp).reply.Success?
    ensures var m := SendStep(s, body, sender, stamp).reply.value;
      var poll := PollStep(SendStep(s, body, sender, stamp).state, Some(m.to), now);
      && poll.reply.Success?
      && poll.reply.value.message == Some(m)
      && (poll.reply.value.hasUnread <==> s.devices[m.to].lastSeenMessageId < m.id)
      && (!poll.reply.value.hasUnread ==> s.devices[m.to].lastSeenMessageId == m.id)
  {
  }

  /**
   * The watermark can reach the id the next send will use: acknowledging
   * id 1 on a fresh mailbox is accepted, and any message marti then sends
   * to ella (say "hola") gets id 1 and is not reported as unread.
   */
  lemma AcknowledgeAheadHidesNextMessage(body: string, stamp: Timestamp, now: int)
    requires body != []
    ensures var s0 := Startup(None);
      var ack := AcknowledgeStep(s0, Some(Ella), Some(1));
      var send := SendStep(ack.state, body, Some(Marti), stamp);
      var poll := PollStep(send.state, Some(Ella), now);
      && ack.reply == Success(1)
      && send.reply.Success? && send.reply.value.id == 1 && send.reply.value.to == Ella
      && poll.reply.Success? && poll.reply.value.message == Some(send.reply.value)
      && !poll.reply.value.hasUnread
  {
    var s0 := Startup(None);
    DefaultStartupConsistent();
    var ack := AcknowledgeStep(s0, Some(Ella), Some(1));
    AcknowledgeConsistent(s0, Some(Ella), Some(1));
    SendThenPollRecipient(ack.state, body, Some(Marti), stamp, now);
  }

  /** The sender's own poll is unaffected by what it sends: slots are isolated. */
  lemma SendIsolation(s: MailboxState, body: string, sender: Option<Participant>, stamp: Timestamp, now: int)
    requires Complete(s)
    requires SendStep(s, body, sender, stamp).reply.Success?
    ensures PollStep(SendStep(s, body, sender, stamp).state, sender, now).reply == PollStep(s, sender, now).reply
  {
  }

  /**
   * After acknowledging an id no greater than the counter, a poll reports
   * the slot's message unread exactly when its id is above the acknowledged one.
   */
  lemma AcknowledgeThenPoll(s: MailboxState, p: Participant, id: int, now: int)
    requires Complete(s)
    requires id <= s.nextMessageId
    ensures var ack := AcknowledgeStep(s, Some(p), Some(id));
      var poll := PollStep(ack.state, Some(p), now);
      && ack.reply == Success(id)
      && poll.reply.Success?
      && (poll.reply.value.hasUnread <==> s.messages[p].Some? && s.messages[p].value.id > id)
  {
  }

  /** Acknowledging twice with the same arguments gives the same state and reply as once. */
  lemma AcknowledgeIdempotent(s: MailboxState, device: Option<Participant>, messageId: Option<int>)
    requires Complete(s)
    ensures var once := AcknowledgeStep(s, device, messageId);
      AcknowledgeStep(once.state, device, messageId) == once
  {
  }

  /** An acknowledgement by one participant changes nothing in the other's poll. */
  lemma AcknowledgeIsolation(s: MailboxState, p: Participant, messageId: Option<int>, now: int)
    requires Complete(s)
    ensures PollStep(AcknowledgeStep(s, Some(p), messageId).state, Some(Other(p)), now).reply ==
            PollStep(s, Some(Other(p)), now).reply
  {
  }

  /**
   * Presence: when the other participant polled at `t`, the next poll at
   * `now` reports it online exactly when `now - t` is at most the liveness
   * window (the boundary itself counts as online).
   */
  lemma PresenceWindow(s: MailboxState, p: Participant, t: int, now: int)
    requires Complete(s)
    ensures var first := PollStep(s, Some(Other(p)), t);
      var second := PollStep(first.state, Some(p), now);
      second.reply.Success? && (second.reply.value.otherOnline <==> now - t <= LivenessWindow)
  {
  }

  /**
   * A full exchange on a fresh mailbox: a message from marti (say "hola")
   * gets id 1 and goes to ella; ella's poll shows it unread; acknowledging 1
   * returns 1; ella's next poll shows nothing unread.
   */
  lemma ExchangeScenario(body: string, stamp: Timestamp, t1: int, t2: int)
    requires body != []
    ensures var s0 := Startup(None);
      var send := SendStep(s0, body, Some(Marti), stamp);
      var poll1 := PollStep(send.state, Some(Ella), t1);
      var ack := AcknowledgeStep(poll1.state, Some(Ella), Some(1));
      var poll2 := PollStep(ack.state, Some(Ella), t2);
      && send.reply.Success? && send.reply.value.id == 1 && send.reply.value.to == Ella
      && poll1.reply.Success? && poll1.reply.value.hasUnread && poll1.reply.value.message == Some(send.reply.value)
      && ack.reply == Success(1)
      && poll2.reply.Success? && !poll2.reply.value.hasUnread
  {
    var s0 := Startup(None);
    DefaultStartupConsistent();
    SendThenPollRecipient(s0, body, Some(Marti), stamp, t1);
    var send := SendStep(s0, body, Some(Marti), stamp);
    var poll1 := PollStep(send.state, Some(Ella), t1);
    AcknowledgeThenPoll(poll1.state, Ella, 1, t2);
  }

  // ---------- Runs of many requests ----------

  /** One request to one of the three handlers, with its fields normalised. */
  datatype Request =
    | SendRequest(body: string, sender: Option<Participant>, stamp: Timestamp)
    | PollRequest(device: Option<Participant>, now: int)
    | AcknowledgeRequest(device: Option<Participant>, messageId: Option<int>)

  function Apply(s: MailboxState, req: Request): (t: MailboxState)
    requires Complete(s)
    ensures Complete(t)
  {
    match req
    case SendRequest(body, sender, stamp) => SendStep(s, body, sender, stamp).state
    case PollRequest(device, now) => PollStep(s, device, now).state
    case AcknowledgeRequest(device, messageId) => AcknowledgeStep(s, device, messageId).state
  }

  /** The state after handling the requests in order. */
  function Run(s: MailboxState, reqs: seq<Request>): (t: MailboxState)
    requires Complete(s)
    ensures Complete(t)
    decreases |reqs|
  {
    if reqs == [] then s else Run(Apply(s, reqs[0]), reqs[1..])
  }

  /** The id handed out by one request: one id for a successful send, none otherwise. */
  function SentId(s: MailboxState, req: Request): seq<int>
    requires Complete(s)
  {
    match req
    case SendRequest(body, sender, stamp) =>
      var r := SendStep(s, body, sender, stamp);
      if r.reply.Success? then [r.reply.value.id] else []
    case _ => []
  }

  /** The ids handed out by the successful sends among the requests, in order. */
  function SentIds(s: MailboxState, reqs: seq<Request>): seq<int>
    requires Complete(s)
    decreases |reqs|
  {
    if reqs == [] then []
    else SentId(s, reqs[0]) + SentIds(Apply(s, reqs[0]), reqs[1..])
  }

  lemma ApplyConsistent(s: MailboxState, req: Request)
    requires Consistent(s)
    ensures Consistent(Apply(s, req))
  {
    match req
    case SendRequest(body, sender, stamp) => SendConsistent(s, body, sender, stamp);
    case PollRequest(device, now) => PollConsistent(s, device, now);
    case AcknowledgeRequest(device, messageId) => AcknowledgeConsistent(s, device, messageId);
  }

  /** Every run of requests keeps the invariant, so no watermark ever exceeds the counter. */
  lemma {:induction false} RunConsistent(s: MailboxState, reqs: seq<Request>)
    requires Consistent(s)
    ensures Consistent(Run(s, reqs))
    decreases |reqs|
  {
    if reqs != [] {
      ApplyConsistent(s, reqs[0]);
      RunConsistent(Apply(s, reqs[0]), reqs[1..]);
    }
  }

  /** One request moves the counter up by one exactly when it hands out an id, and that id is the old counter. */
  lemma ApplyCounter(s: MailboxState, req: Request)
    requires Complete(s)
    ensures SentId(s, req) == [] || SentId(s, req) == [s.nextMessageId]
    ensures Apply(s, req).nextMessageId == s.nextMessageId + |SentId(s, req)|
  {
  }

  /** The counter grows by exactly one per successful send, so it never goes down. */
  lemma {:induction false} RunCounter(s: MailboxState, reqs: seq<Request>)
    requires Complete(s)
    ensures Run(s, reqs).nextMessageId == s.nextMessageId + |SentIds(s, reqs)|
    decreases |reqs|
  {
    if reqs != [] {
      ApplyCounter(s, reqs[0]);
      RunCounter(Apply(s, reqs[0]), reqs[1..]);
    }
  }

  /** The ids are in strictly increasing order. */
  ghost predicate Increasing(ids: seq<int>)
  {
    forall i, j | 0 <= i < j < |ids| :: ids[i] < ids[j]
  }

  /** Every id lies in `[lo, hi)`. */
  ghost predicate Within(ids: seq<int>, lo: int, hi: int)
  {
    forall i | 0 <= i < |ids| :: lo <= ids[i] < hi
  }

  /** Putting the id of one send in front of the later, larger ids keeps them increasing. */
  lemma PrependId(head: seq<int>, tail: seq<int>, lo: int, hi: int)
    requires head == [] || head == [lo]
    requires lo + |head| <= hi
    requires Increasing(tail) && Within(tail, lo + |head|, hi)
    ensures Increasing(head + tail) && Within(head + tail, lo, hi)
  {
    var ids := head + tail;
    forall i | 0 <= i < |ids| ensures lo <= ids[i] < hi {
      if i >= |head| {
        assert ids[i] == tail[i - |head|];
      }
    }
    forall i, j | 0 <= i < j < |ids| ensures ids[i] < ids[j] {
      if i >= |head| {
        assert ids[i] == tail[i - |head|] && ids[j] == tail[j - |head|];
      }
    }
  }

  /**
   * The ids handed out are strictly increasing, hence never reused, and lie
   * between the old and the new counter.
   */
  lemma {:induction false} RunIds(s: MailboxState, reqs: seq<Request>)
    requires Complete(s)
    ensures Increasing(SentIds(s, reqs))
    ensures Within(SentIds(s, reqs), s.nextMessageId, Run(s, reqs).nextMessageId)
    decreases |reqs|
  {
    if reqs != [] {
      var s' := Apply(s, reqs[0]);
      ApplyCounter(s, reqs[0]);
      RunIds(s', reqs[1..]);
      RunCounter(s', reqs[1..]);
      assert Run(s, reqs) == Run(s', reqs[1..]);
      assert SentIds(s, reqs) == SentId(s, reqs[0]) + SentIds(s', reqs[1..]);
      PrependId(SentId(s, reqs[0]), SentIds(s', reqs[1..]), s.nextMessageId, Run(s, reqs).nextMessageId);
    }
  }

  /** Two different successful sends in a run never share an id. */
  lemma RunIdsUnique(s: MailboxState, reqs: seq<Request>, i: int, j: int)
    requires Complete(s)
    requires 0 <= i < |SentIds(s, reqs)| && 0 <= j < |SentIds(s, reqs)| && i != j
    ensures SentIds(s, reqs)[i] != SentIds(s, reqs)[j]
  {
    RunIds(s, reqs);
  }

  // ---------- The server object ----------

  /**
   * The module-level state of app_v2.py: the counter and slots of `state`,
   * and `devices_state`. Saving after a send is a no-op here.
   */
  class Server {
    var nextMessageId: int
    var messages: map<Participant, Option<Message>>
    var devices: map<Participant, DeviceRecord>

    ghost function State(): MailboxState
      reads this
    {
      MailboxState(nextMessageId, messages, devices)
    }

    ghost predicate Valid()
      reads this
    {
      Complete(State())
    }

    /** Module start-up: `state = load_state()`, then `devices_state` from the loaded slots. */
    constructor (stored: Option<StoredState>)
      ensures Valid()
      ensures State() == Startup(stored)
    {
      var snap := LoadState(stored);
      nextMessageId := snap.nextMessageId;
      messages := snap.messages;
      devices := map p: Participant :: DeviceRecord(None, InitialWatermark(snap.messages[p]));
    }

    /**
     * `nuevo_mensaje` on the `text` and `from` fields: strips the text,
     * defaults, strips and lower-cases the sender, then delivers.
     */
    method Send(text: Option<string>, from: Option<string>, stamp: Timestamp) returns (r: Result<Message, Error>)
      requires Valid()
      modifies this
      ensures Valid()
      ensures Step(State(), r) == SendStep(old(State()), Strip(OrEmpty(text)), ParseParticipant(SenderField(from)), stamp)
    {
      var body := Strip(OrEmpty(text));
      var sender := ParseParticipant(SenderField(from));
      r := Deliver(body, sender, stamp);
    }

    /** The checks and the update of `nuevo_mensaje`, on the normalised text and sender. */
    method Deliver(body: string, sender: Option<Participant>, stamp: Timestamp) returns (r: Result<Message, Error>)
      requires Valid()
      modifies this
      ensures Valid()
      ensures Step(State(), r) == SendStep(old(State()), body, sender, stamp)
    {
      if body == [] {
        return Failure(EmptyText);
      }
      if sender.None? {
        return Failure(InvalidSender);
      }
      var to := Other(sender.value);
      var id := nextMessageId;
      nextMessageId := nextMessageId + 1;
      var m := Message(id, body, sender.value, to, stamp);
      messages := messages[to := Some(m)];
      r := Success(m);
    }

    /** `estado` on the `device` query field, at time `now` in seconds. */
    method Poll(device: Option<string>, now: int) returns (r: Result<Status, Error>)
      requires Valid()
      modifies this
      ensures Valid()
      ensures Step(State(), r) == PollStep(old(State()), ParseParticipant(OrEmpty(device)), now)
    {
      var d := ParseParticipant(OrEmpty(device));
      if d.None? {
        return Failure(InvalidDevice);
      }
      var me := d.value;
      devices := devices[me := devices[me].(lastSeen := Some(now))];
      var slot := messages[me];
      var watermark := devices[me].lastSeenMessageId;
      var hasUnread := HasUnread(slot, watermark);
      var other := Other(me);
      var otherOnline := IsOnline(devices[other].lastSeen, now, LivenessWindow);
      r := Success(Status(me, other, otherOnline, hasUnread, slot));
    }

    /** `mensaje_visto` on the `device` field and the already-converted `message_id`. */
    method Acknowledge(device: Option<string>, messageId: Option<int>) returns (r: Result<int, Error>)
      requires Valid()
      modifies this
      ensures Valid()
      ensures Step(State(), r) == AcknowledgeStep(old(State()), ParseParticipant(OrEmpty(device)), messageId)
    {
      var d := ParseParticipant(OrEmpty(device));
      if d.None? {
        return Failure(InvalidDevice);
      }
      if messageId.None? {
        return Failure(InvalidMessageId);
      }
      var me := d.value;
      if messageId.value <= nextMessageId {
        devices := devices[me := devices[me].(lastSeenMessageId := messageId.value)];
      }
      r := Success(devices[me].lastSeenMessageId);
    }
  }
}
