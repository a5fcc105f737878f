/** Inbox messages, cursors and what each inbox call means for the per-channel logs. */
module InboxModel {
  import opened Wrappers
  import opened Sequences
  import opened Ordering
  import opened Numbers

  type Time = int

  /** A channel, consumer or idempotency key. `Inherited` names are the properties every JavaScript object inherits
      ("constructor", "toString", ...), which the source's plain-object tables already answer for; `Malformed` ones fail
      the pattern or length check. */
  datatype Name = Plain(code: int) | Inherited(code: int) | Malformed(code: int)

  datatype Payload = Payload(code: int)

  /** SHA-256 of the canonical payload text, taken to be injective. */
  datatype Digest = Sha256(payload: Payload)

  /** `aimsg_<hash of channel>_<padded seq>`. */
  datatype MessageId = MessageId(channel: Name, seqNo: nat)

  datatype Message = Message(channel: Name, seqNo: nat, messageId: MessageId, idempotencyKey: Name, publishedAt: Time,
    payload: Payload, payloadHash: Digest)

  datatype Cursor = Cursor(channel: Name, seqNo: nat, messageId: MessageId, publishedAt: Time)

  datatype Checkpoint = Checkpoint(cursor: Cursor, ackedAt: Time)

  /** The word that the message of a decoding error contains, which is how an acknowledgement picks its refusal. */
  datatype Mention = NoName | TheChannel | TheConsumer

  /** A cursor argument: absent, a token that does not decode, or a decoded cursor. */
  datatype CursorInput = NoCursor | BadToken(mention: Mention) | Token(cursor: Cursor)

  datatype Reason = ChannelInvalid | ConsumerInvalid | IdempotencyKeyInvalid | IdempotencyConflict | LimitInvalid
    | CursorInvalid | CursorChannelMismatch | CursorNotFound | AckCursorRequired | AckCursorNotFound
    | AckCursorRegression | AckOutOfOrder | Threw

  datatype PublishOutcome =
    | Published(message: Message, cursor: Cursor, deduped: bool, head: Option<Cursor>)
    | PublishRefused(reason: Reason)

  datatype ListOutcome =
    | Page(messages: seq<Message>, nextCursor: Option<Cursor>, hasMore: bool, head: Option<Cursor>)
    | ListRefused(reason: Reason)

  datatype AckOutcome =
    | Acknowledged(checkpoint: Option<Cursor>, expectedNextSeq: nat, noop: bool)
    | AckRefused(reason: Reason)
    | AckMisplaced(reason: Reason, checkpoint: Option<Cursor>, expectedNextSeq: nat)

  const MAX_LIMIT: int := 1000

  // ----- the abstract state: one log per channel, one checkpoint per channel and consumer -----

  datatype Model = Model(logs: map<Name, seq<Message>>, checkpoints: map<(Name, Name), Checkpoint>) {
    function Log(ch: Name): seq<Message> {
      if ch in logs then logs[ch] else []
    }
    function Checkpointed(ch: Name, consumer: Name): Option<Cursor> {
      if (ch, consumer) in checkpoints then Some(checkpoints[(ch, consumer)].cursor) else None
    }
    function AckedSeq(ch: Name, consumer: Name): nat {
      var c := Checkpointed(ch, consumer);
      if c.Some? then c.value.seqNo else 0
    }
  }

  const EMPTY: Model := Model(map[], map[])

  function NewMessage(ch: Name, seqNo: nat, key: Name, payload: Payload, at: Time): Message {
    Message(ch, seqNo, MessageId(ch, seqNo), key, at, payload, Sha256(payload))
  }

  function CursorOf(m: Message): Cursor {
    Cursor(m.channel, m.seqNo, m.messageId, m.publishedAt)
  }

  function Head(log: seq<Message>): Option<Cursor> {
    if log == [] then None else Some(CursorOf(log[|log| - 1]))
  }

  /** Where the message published under `key` stands in the log. */
  function FindKey(log: seq<Message>, key: Name): (r: Option<nat>)
    ensures r.Some? ==> r.value < |log| && log[r.value].idempotencyKey == key
    ensures r.None? ==> forall i :: 0 <= i < |log| ==> log[i].idempotencyKey != key
  {
    if log == [] then None
    else if log[|log| - 1].idempotencyKey == key then Some(|log| - 1)
    else FindKey(log[..|log| - 1], key)
  }

  /** Where a cursor stands in the log; its `publishedAt` is not looked at. */
  function FindCursor(log: seq<Message>, c: Cursor): Option<nat> {
    if 1 <= c.seqNo <= |log| && log[c.seqNo - 1].messageId == c.messageId && log[c.seqNo - 1].channel == c.channel
    then Some(c.seqNo - 1)
    else None
  }

  function Publish(m: Model, ch: Name, key: Name, payload: Payload, at: Time): (Model, PublishOutcome) {
    var log := m.Log(ch);
    var known := FindKey(log, key);
    if ch.Malformed? then (m, PublishRefused(ChannelInvalid))
    else if key.Malformed? then (m, PublishRefused(IdempotencyKeyInvalid))
    else if ch.Inherited? then (m, PublishRefused(ChannelInvalid))
    else if key.Inherited? then (m, PublishRefused(IdempotencyConflict))
    else if known.Some? then
      var original := log[known.value];
      if original.payload == payload then (m, Published(original, CursorOf(original), true, Head(log)))
      else (m, PublishRefused(IdempotencyConflict))
    else
      var msg := NewMessage(ch, |log| + 1, key, payload, at);
      (m.(logs := m.logs[ch := log + [msg]]), Published(msg, CursorOf(msg), false, Some(CursorOf(msg))))
  }

  function List(m: Model, ch: Name, input: CursorInput, limit: int): ListOutcome {
    var log := m.Log(ch);
    var found := if input.Token? then FindCursor(log, input.cursor) else None;
    if ch.Malformed? then ListRefused(ChannelInvalid)
    else if limit <= 0 || limit > MAX_LIMIT then ListRefused(LimitInvalid)
    else if input.BadToken? then ListRefused(CursorInvalid)
    else if input.Token? && input.cursor.channel != ch then ListRefused(CursorChannelMismatch)
    else if ch.Inherited? then ListRefused(Threw)
    else if input.Token? && found.None? then ListRefused(CursorNotFound)
    else
      var from := if found.Some? then found.value + 1 else 0;
      var to := Min(from + limit, |log|);
      var given := if input.Token? then Some(input.cursor) else None;
      Page(log[from..to], if from < to then Some(CursorOf(log[to - 1])) else given, to < |log|, Head(log))
  }

  function Read(m: Model, ch: Name, consumer: Name, limit: int): ListOutcome {
    if ch.Malformed? then ListRefused(ChannelInvalid)
    else if consumer.Malformed? then ListRefused(ConsumerInvalid)
    else if ch.Inherited? || consumer.Inherited? then ListRefused(ChannelInvalid)
    else
      var checkpoint := m.Checkpointed(ch, consumer);
      List(m, ch, if checkpoint.Some? then Token(checkpoint.value) else NoCursor, limit)
  }

  function BadTokenReason(mention: Mention): Reason {
    match mention case NoName => CursorInvalid case TheChannel => ChannelInvalid case TheConsumer => ConsumerInvalid
  }

  function Ack(m: Model, ch: Name, consumer: Name, input: CursorInput, at: Time): (Model, AckOutcome) {
    var log := m.Log(ch);
    var acked := m.AckedSeq(ch, consumer);
    if input.NoCursor? then (m, AckRefused(AckCursorRequired))
    else if ch.Malformed? then (m, AckRefused(ChannelInvalid))
    else if consumer.Malformed? then (m, AckRefused(ConsumerInvalid))
    else if input.BadToken? then (m, AckRefused(BadTokenReason(input.mention)))
    else if input.cursor.channel != ch then (m, AckRefused(CursorChannelMismatch))
    else if ch.Inherited? then (m, AckRefused(Threw))
    else if FindCursor(log, input.cursor).None? then (m, AckRefused(AckCursorNotFound))
    else if consumer.Inherited? then (m, AckRefused(Threw))
    else if input.cursor.seqNo < acked then
      (m, AckMisplaced(AckCursorRegression, m.Checkpointed(ch, consumer), acked + 1))
    else if input.cursor.seqNo == acked then (m, Acknowledged(m.Checkpointed(ch, consumer), acked + 1, true))
    else if input.cursor.seqNo != acked + 1 then
      (m, AckMisplaced(AckOutOfOrder, m.Checkpointed(ch, consumer), acked + 1))
    else
      (m.(checkpoints := m.checkpoints[(ch, consumer) := Checkpoint(input.cursor, at)]),
       Acknowledged(Some(input.cursor), acked + 2, false))
  }

  /** Negative, zero or positive as the cursors compare; no answer for cursors of different channels. */
  function CompareCursors(idLess: (MessageId, MessageId) -> bool, a: Cursor, b: Cursor): Option<int> {
    if a.channel != b.channel then None
    else if a.seqNo != b.seqNo then Some(if a.seqNo < b.seqNo then -1 else 1)
    else if a.messageId == b.messageId then Some(0)
    else Some(if idLess(a.messageId, b.messageId) then -1 else 1)
  }
}

/** The inbox object: channel tables with an idempotency index, and checkpoint tables. */
module Inbox {
  import opened Wrappers
  import opened Numbers
  import opened InboxModel

  datatype IdempotencyEntry = IdempotencyEntry(index: nat, seqNo: nat, messageId: MessageId, payloadHash: Digest)

  datatype ChannelState = ChannelState(nextSeq: nat, messages: seq<Message>, idempotency: map<Name, IdempotencyEntry>)

  const EMPTY_CHANNEL: ChannelState := ChannelState(1, [], map[])

  ghost predicate ChannelValid(ch: Name, s: ChannelState) {
    && s.nextSeq == |s.messages| + 1
    && (forall i :: 0 <= i < |s.messages| ==>
          && s.messages[i] == NewMessage(ch, i + 1, s.messages[i].idempotencyKey, s.messages[i].payload,
            s.messages[i].publishedAt)
          && s.messages[i].idempotencyKey in s.idempotency
          && s.idempotency[s.messages[i].idempotencyKey].index == i)
    && (forall key :: key in s.idempotency ==>
          var e := s.idempotency[key];
          && key.Plain? && e.index < |s.messages|
          && s.messages[e.index].idempotencyKey == key && e.seqNo == s.messages[e.index].seqNo
          && e.messageId == s.messages[e.index].messageId && e.payloadHash == s.messages[e.index].payloadHash)
  }

  lemma {:induction false} IndexFindsKey(ch: Name, s: ChannelState, key: Name)
    requires ChannelValid(ch, s)
    ensures FindKey(s.messages, key) == if key in s.idempotency then Some(s.idempotency[key].index) else None
    ensures key in s.idempotency ==>
      s.idempotency[key].index < |s.messages|
        && s.idempotency[key].payloadHash == Sha256(s.messages[s.idempotency[key].index].payload)
    ensures s.nextSeq == |s.messages| + 1
  {
  }

  lemma {:induction false} AppendKeepsChannel(ch: Name, s: ChannelState, key: Name, payload: Payload, at: Time)
    requires ChannelValid(ch, s) && key.Plain? && key !in s.idempotency
    ensures var msg := NewMessage(ch, s.nextSeq, key, payload, at);
      ChannelValid(ch, ChannelState(s.nextSeq + 1, s.messages + [msg],
        s.idempotency[key := IdempotencyEntry(|s.messages|, msg.seqNo, msg.messageId, msg.payloadHash)]))
  {
  }

  lemma {:induction false} FoundInLog(log: seq<Message>, input: CursorInput)
    ensures input.Token? && FindCursor(log, input.cursor).Some? ==> FindCursor(log, input.cursor).value < |log|
  {
  }

  type Channels = map<Name, ChannelState>

  type Checkpoints = map<Name, map<Name, Checkpoint>>

  function LogIn(channels: Channels, ch: Name): seq<Message> {
    if ch in channels then channels[ch].messages else []
  }

  function CursorIn(checkpoints: Checkpoints, ch: Name, c: Name): Option<Cursor> {
    if ch in checkpoints && c in checkpoints[ch] then Some(checkpoints[ch][c].cursor) else None
  }

  /** The tables hold exactly the model's logs and checkpoints. */
  ghost predicate Represents(channels: Channels, checkpoints: Checkpoints, m: Model) {
    && (forall ch :: m.Log(ch) == LogIn(channels, ch))
    && (forall ch :: ch in channels ==> ch.Plain? && ChannelValid(ch, channels[ch]))
    && (forall ch, c :: m.Checkpointed(ch, c) == CursorIn(checkpoints, ch, c))
  }

  lemma {:induction false} ViewChannel(channels: Channels, checkpoints: Checkpoints, m: Model, ch: Name)
    requires Represents(channels, checkpoints, m)
    ensures m.Log(ch) == LogIn(channels, ch)
    ensures ch in channels ==> ch.Plain? && ChannelValid(ch, channels[ch])
  {
  }

  lemma {:induction false} ViewCheckpoint(channels: Channels, checkpoints: Checkpoints, m: Model, ch: Name, c: Name)
    requires Represents(channels, checkpoints, m)
    ensures m.Checkpointed(ch, c) == CursorIn(checkpoints, ch, c)
  {
  }

  lemma {:induction false} EmptyRepresents()
    ensures Represents(map[], map[], EMPTY)
  {
  }

  lemma {:induction false} AddChannelRepresents(channels: Channels, checkpoints: Checkpoints, m: Model, ch: Name)
    requires Represents(channels, checkpoints, m) && ch.Plain? && ch !in channels
    ensures Represents(channels[ch := EMPTY_CHANNEL], checkpoints, m)
  {
  }

  lemma {:induction false} AddTableRepresents(channels: Channels, checkpoints: Checkpoints, m: Model, ch: Name)
    requires Represents(channels, checkpoints, m) && ch !in checkpoints
    ensures Represents(channels, checkpoints[ch := map[]], m)
  {
  }

  lemma {:induction false} AppendRepresents(channels: Channels, checkpoints: Checkpoints, m: Model, ch: Name,
      s: ChannelState)
    requires Represents(channels, checkpoints, m) && ch.Plain? && ChannelValid(ch, s)
    ensures Represents(channels[ch := s], checkpoints, m.(logs := m.logs[ch := s.messages]))
  {
    hide ChannelValid;
    var m' := m.(logs := m.logs[ch := s.messages]);
    assert forall k, c :: m'.Checkpointed(k, c) == m.Checkpointed(k, c);
    assert forall k :: m'.Log(k) == if k == ch then s.messages else m.Log(k);
  }

  lemma {:induction false} AckRepresents(channels: Channels, checkpoints: Checkpoints, m: Model, ch: Name, c: Name,
      cp: Checkpoint)
    requires Represents(channels, checkpoints, m) && ch in checkpoints
    ensures Represents(channels, checkpoints[ch := checkpoints[ch][c := cp]],
      m.(checkpoints := m.checkpoints[(ch, c) := cp]))
  {
    var m' := m.(checkpoints := m.checkpoints[(ch, c) := cp]);
    assert forall k :: m'.Log(k) == m.Log(k);
    assert forall k, d :: m'.Checkpointed(k, d) == if k == ch && d == c then Some(cp.cursor) else m.Checkpointed(k, d);
  }

  class AgentInbox {
    var channels: Channels
    var checkpoints: Checkpoints
    ghost var model: Model

    ghost predicate Valid()
      reads this
    {
      Represents(channels, checkpoints, model)
    }

    constructor ()
      ensures Valid() && model == EMPTY
    {
      channels, checkpoints := map[], map[];
      model := EMPTY;
      new;
      EmptyRepresents();
    }

    /** A missing channel comes into being empty. */
    method EnsureChannel(ch: Name)
      requires Valid() && ch.Plain?
      modifies this`channels
      ensures Valid() && ch in channels
    {
      if ch !in channels {
        AddChannelRepresents(channels, checkpoints, model, ch);
        channels := channels[ch := EMPTY_CHANNEL];
      }
    }

    method EnsureCheckpoints(ch: Name)
      requires Valid()
      modifies this`checkpoints
      ensures Valid() && ch in checkpoints
    {
      if ch !in checkpoints {
        AddTableRepresents(channels, checkpoints, model, ch);
        checkpoints := checkpoints[ch := map[]];
      }
    }

    method PublishMessage(ch: Name, key: Name, payload: Payload, at: Time) returns (outcome: PublishOutcome)
      requires Valid()
      modifies this
      ensures Valid()
      ensures (model, outcome) == Publish(old(model), ch, key, payload, at)
    {
      hide Represents, ChannelValid, FindKey;
      if ch.Malformed? {
        return PublishRefused(ChannelInvalid);
      }
      if key.Malformed? {
        return PublishRefused(IdempotencyKeyInvalid);
      }
      if ch.Inherited? {
        return PublishRefused(ChannelInvalid);
      }
      EnsureChannel(ch);
      if key.Inherited? {
        return PublishRefused(IdempotencyConflict);
      }
      var state := channels[ch];
      var hash := Sha256(payload);
      ViewChannel(channels, checkpoints, model, ch);
      IndexFindsKey(ch, state, key);
      if key in state.idempotency {
        var existing := state.idempotency[key];
        if existing.payloadHash != hash {
          return PublishRefused(IdempotencyConflict);
        }
        var replayed := state.messages[existing.index];
        return Published(replayed, CursorOf(replayed), true, Head(state.messages));
      }
      var seqNo := state.nextSeq;
      var message := NewMessage(ch, seqNo, key, payload, at);
      AppendKeepsChannel(ch, state, key, payload, at);
      state := ChannelState(seqNo + 1, state.messages + [message],
        state.idempotency[key := IdempotencyEntry(|state.messages|, message.seqNo, message.messageId, hash)]);
      AppendRepresents(channels, checkpoints, model, ch, state);
      channels := channels[ch := state];
      model := model.(logs := model.logs[ch := state.messages]);
      outcome := Published(message, CursorOf(message), false, Head(state.messages));
    }

    method ListMessages(ch: Name, input: CursorInput, limit: int) returns (outcome: ListOutcome)
      requires Valid()
      modifies this`channels
      ensures Valid()
      ensures outcome == List(model, ch, input, limit)
    {
      hide Represents, ChannelValid, FindCursor, Head, CursorOf;
      if ch.Malformed? {
        return ListRefused(ChannelInvalid);
      }
      if limit <= 0 || limit > MAX_LIMIT {
        return ListRefused(LimitInvalid);
      }
      if input.BadToken? {
        return ListRefused(CursorInvalid);
      }
      if input.Token? && input.cursor.channel != ch {
        return ListRefused(CursorChannelMismatch);
      }
      if ch.Inherited? {
        return ListRefused(Threw);
      }
      EnsureChannel(ch);
      var log := channels[ch].messages;
      ViewChannel(channels, checkpoints, model, ch);
      var start := 0;
      if input.Token? {
        var at := FindCursor(log, input.cursor);
        if at.None? {
          return ListRefused(CursorNotFound);
        }
        start := at.value + 1;
      }
      assert start <= |log| by {
        FoundInLog(log, input);
      }
      var to := Min(start + limit, |log|);
      var messages := log[start..to];
      assert start < to ==> messages[|messages| - 1] == log[to - 1];
      var given := if input.Token? then Some(input.cursor) else None;
      var next := if messages != [] then Some(CursorOf(messages[|messages| - 1])) else given;
      outcome := Page(messages, next, start + |messages| < |log|, Head(log));
    }

    method ReadForConsumer(ch: Name, consumer: Name, limit: int) returns (outcome: ListOutcome)
      requires Valid()
      modifies this`channels, this`checkpoints
      ensures Valid()
      ensures outcome == Read(model, ch, consumer, limit)
    {
      hide Represents;
      if ch.Malformed? {
        return ListRefused(ChannelInvalid);
      }
      if consumer.Malformed? {
        return ListRefused(ConsumerInvalid);
      }
      if ch.Inherited? {
        return ListRefused(ChannelInvalid);
      }
      EnsureCheckpoints(ch);
      if consumer.Inherited? {
        return ListRefused(ChannelInvalid);
      }
      ViewCheckpoint(channels, checkpoints, model, ch, consumer);
      var input := if consumer in checkpoints[ch] then Token(checkpoints[ch][consumer].cursor) else NoCursor;
      outcome := ListMessages(ch, input, limit);
    }

    method AckCursor(ch: Name, consumer: Name, input: CursorInput, at: Time) returns (outcome: AckOutcome)
      requires Valid()
      modifies this
      ensures Valid()
      ensures (model, outcome) == Ack(old(model), ch, consumer, input, at)
    {
      hide Represents;
      if input.NoCursor? {
        return AckRefused(AckCursorRequired);
      }
      if ch.Malformed? {
        return AckRefused(ChannelInvalid);
      }
      if consumer.Malformed? {
        return AckRefused(ConsumerInvalid);
      }
      if input.BadToken? {
        return AckRefused(BadTokenReason(input.mention));
      }
      var cursor := input.cursor;
      if cursor.channel != ch {
        return AckRefused(CursorChannelMismatch);
      }
      if ch.Inherited? {
        return AckRefused(Threw);
      }
      EnsureChannel(ch);
      ViewChannel(channels, checkpoints, model, ch);
      if FindCursor(channels[ch].messages, cursor).None? {
        return AckRefused(AckCursorNotFound);
      }
      EnsureCheckpoints(ch);
      if consumer.Inherited? {
        return AckRefused(Threw);
      }
      ViewCheckpoint(channels, checkpoints, model, ch, consumer);
      var existing := if consumer in checkpoints[ch] then Some(checkpoints[ch][consumer].cursor) else None;
      var existingSeq := if existing.Some? then existing.value.seqNo else 0;
      if cursor.seqNo < existingSeq {
        return AckMisplaced(AckCursorRegression, existing, existingSeq + 1);
      }
      if cursor.seqNo == existingSeq {
        return Acknowledged(existing, existingSeq + 1, true);
      }
      if cursor.seqNo != existingSeq + 1 {
        return AckMisplaced(AckOutOfOrder, existing, existingSeq + 1);
      }
      var updated := Checkpoint(cursor, at);
      AckRepresents(channels, checkpoints, model, ch, consumer, updated);
      checkpoints := checkpoints[ch := checkpoints[ch][consumer := updated]];
      model := model.(checkpoints := model.checkpoints[(ch, consumer) := updated]);
      outcome := Acknowledged(Some(cursor), cursor.seqNo + 1, false);
    }
  }
}
