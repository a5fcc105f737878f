/** What holds over whole runs of inbox calls. */
module InboxRuns {
  import opened Wrappers
  import opened Sequences
  import opened Numbers
  import opened InboxModel

  datatype Command =
    | DoPublish(ch: Name, key: Name, payload: Payload, at: Time)
    | DoList(ch: Name, input: CursorInput, limit: int)
    | DoRead(ch: Name, consumer: Name, limit: int)
    | DoAck(ch: Name, consumer: Name, input: CursorInput, at: Time)

  function Step(m: Model, c: Command): Model {
    match c
    case DoPublish(ch, key, payload, at) => Publish(m, ch, key, payload, at).0
    case DoList(_, _, _) => m
    case DoRead(_, _, _) => m
    case DoAck(ch, consumer, input, at) => Ack(m, ch, consumer, input, at).0
  }

  function Run(m: Model, cs: seq<Command>): Model {
    if cs == [] then m else Step(Run(m, cs[..|cs| - 1]), cs[|cs| - 1])
  }

  // ----- the shape of every reachable state -----

  ghost predicate LogValid(ch: Name, log: seq<Message>) {
    && (forall i :: 0 <= i < |log| ==>
          && log[i] == NewMessage(ch, i + 1, log[i].idempotencyKey, log[i].payload, log[i].publishedAt)
          && log[i].idempotencyKey.Plain?)
    && (forall i, j :: 0 <= i < j < |log| ==> log[i].idempotencyKey != log[j].idempotencyKey)
  }

  /** Message `i` has seq `i + 1`, keys and messages are in bijection, and no checkpoint passes the head of its log. */
  ghost predicate ModelValid(m: Model) {
    && (forall ch :: LogValid(ch, m.Log(ch)))
    && (forall ch, c :: (ch, c) in m.checkpoints ==>
          var cursor := m.checkpoints[(ch, c)].cursor;
          ch.Plain? && c.Plain? && cursor.channel == ch && FindCursor(m.Log(ch), cursor).Some?)
  }

  ghost predicate Extends(m: Model, m': Model) {
    && (forall ch :: m.Log(ch) <= m'.Log(ch))
    && (forall ch, c :: m.AckedSeq(ch, c) <= m'.AckedSeq(ch, c))
  }

  lemma {:induction false} PublishKeepsLog(log: seq<Message>, ch: Name, key: Name, payload: Payload, at: Time)
    requires LogValid(ch, log) && key.Plain? && FindKey(log, key).None?
    ensures LogValid(ch, log + [NewMessage(ch, |log| + 1, key, payload, at)])
    ensures forall c :: FindCursor(log, c).Some? ==>
      FindCursor(log + [NewMessage(ch, |log| + 1, key, payload, at)], c).Some?
  {
  }

  lemma {:induction false} PublishKeepsValid(m: Model, ch: Name, key: Name, payload: Payload, at: Time)
    requires ModelValid(m)
    ensures ModelValid(Publish(m, ch, key, payload, at).0) && Extends(m, Publish(m, ch, key, payload, at).0)
  {
    hide LogValid, FindKey, FindCursor;
    var log, m' := m.Log(ch), Publish(m, ch, key, payload, at).0;
    if m' != m {
      PublishKeepsLog(log, ch, key, payload, at);
      var log' := log + [NewMessage(ch, |log| + 1, key, payload, at)];
      assert forall k :: m'.Log(k) == if k == ch then log' else m.Log(k);
      assert forall k, c :: m'.AckedSeq(k, c) == m.AckedSeq(k, c);
    }
  }

  lemma {:induction false} AckKeepsValid(m: Model, ch: Name, consumer: Name, input: CursorInput, at: Time)
    requires ModelValid(m)
    ensures ModelValid(Ack(m, ch, consumer, input, at).0) && Extends(m, Ack(m, ch, consumer, input, at).0)
  {
    hide LogValid, FindCursor;
    var m' := Ack(m, ch, consumer, input, at).0;
    assert forall k :: m'.Log(k) == m.Log(k);
  }

  lemma {:induction false} StepKeepsValid(m: Model, c: Command)
    requires ModelValid(m)
    ensures ModelValid(Step(m, c)) && Extends(m, Step(m, c))
  {
    match c
    case DoPublish(ch, key, payload, at) => PublishKeepsValid(m, ch, key, payload, at);
    case DoAck(ch, consumer, input, at) => AckKeepsValid(m, ch, consumer, input, at);
    case _ =>
  }

  lemma {:induction false} RunKeepsValid(m: Model, cs: seq<Command>)
    requires ModelValid(m)
    ensures ModelValid(Run(m, cs)) && Extends(m, Run(m, cs))
  {
    if cs != [] {
      RunKeepsValid(m, cs[..|cs| - 1]);
      StepKeepsValid(Run(m, cs[..|cs| - 1]), cs[|cs| - 1]);
    }
  }

  lemma {:induction false} EveryReachableStateIsValid(cs: seq<Command>)
    ensures ModelValid(Run(EMPTY, cs))
  {
    RunKeepsValid(EMPTY, cs);
  }

  // ----- idempotent publishing -----

  /** Publishing succeeds exactly for plain names whose key is new or was used for the same payload. */
  lemma {:induction false} PublishSucceedsIff(m: Model, ch: Name, key: Name, payload: Payload, at: Time)
    requires ModelValid(m)
    ensures var log := m.Log(ch);
      Publish(m, ch, key, payload, at).1.Published? <==>
        ch.Plain? && key.Plain? && forall i :: 0 <= i < |log| && log[i].idempotencyKey == key ==>
          log[i].payload == payload
  {
    var log := m.Log(ch);
    var known := FindKey(log, key);
    if known.Some? {
      assert log[known.value].idempotencyKey == key;
    }
  }

  /** An inherited name such as "constructor" is refused as a conflict although no message carries it. */
  lemma {:induction false} InheritedKeyAlwaysConflicts(m: Model, ch: Name, code: int, payload: Payload, at: Time)
    requires ModelValid(m) && ch.Plain?
    ensures Publish(m, ch, Inherited(code), payload, at) == (m, PublishRefused(IdempotencyConflict))
    ensures forall i :: 0 <= i < |m.Log(ch)| ==> m.Log(ch)[i].idempotencyKey != Inherited(code)
  {
    assert LogValid(ch, m.Log(ch));
  }

  /** Whatever happens in between, republishing a key returns the original message for the same payload
      and is a conflict for any other; neither changes the inbox. */
  lemma {:induction false} RepublishReturnsOriginal(m: Model, ch: Name, key: Name, payload: Payload, at: Time,
      cs: seq<Command>, payload2: Payload, at2: Time)
    requires ModelValid(m) && Publish(m, ch, key, payload, at).1.Published?
    ensures var first := Publish(m, ch, key, payload, at); var later := Run(first.0, cs);
      var again := Publish(later, ch, key, payload2, at2);
      && again.0 == later
      && (payload2 == payload ==> again.1.Published? && again.1.message == first.1.message && again.1.deduped)
      && (payload2 != payload ==> again.1 == PublishRefused(IdempotencyConflict))
  {
    var first := Publish(m, ch, key, payload, at);
    var later := Run(first.0, cs);
    StepKeepsValid(m, DoPublish(ch, key, payload, at));
    var k := PublishedIsStored(m, ch, key, payload, at);
    RunKeepsValid(first.0, cs);
    StoredIsFound(first.0.Log(ch), later.Log(ch), ch, k);
  }

  lemma {:induction false} PublishedIsStored(m: Model, ch: Name, key: Name, payload: Payload, at: Time) returns (k: nat)
    requires Publish(m, ch, key, payload, at).1.Published?
    ensures var first := Publish(m, ch, key, payload, at); var log := first.0.Log(ch);
      && k < |log| && log[k] == first.1.message && log[k].idempotencyKey == key && log[k].payload == payload
      && ch.Plain? && key.Plain?
  {
    var known := FindKey(m.Log(ch), key);
    k := if known.Some? then known.value else |m.Log(ch)|;
  }

  lemma {:induction false} StoredIsFound(log: seq<Message>, later: seq<Message>, ch: Name, k: nat)
    requires LogValid(ch, later) && log <= later && k < |log|
    ensures FindKey(later, log[k].idempotencyKey) == Some(k) && later[k] == log[k]
  {
    assert later[k] == log[k];
    var found := FindKey(later, log[k].idempotencyKey);
    assert found.Some?;
  }

  // ----- acknowledgements -----

  function AckedBy(m: Model, c: Command, ch: Name, consumer: Name): seq<nat> {
    if c.DoAck? && c.ch == ch && c.consumer == consumer then
      var outcome := Ack(m, ch, consumer, c.input, c.at).1;
      if outcome.Acknowledged? && !outcome.noop then [c.input.cursor.seqNo] else []
    else []
  }

  /** The seqs of a consumer's successful acknowledgements that were not no-ops, in order. */
  function AckTrace(m: Model, cs: seq<Command>, ch: Name, consumer: Name): seq<nat> {
    if cs == [] then []
    else
      var n := |cs| - 1;
      AckTrace(m, cs[..n], ch, consumer) + AckedBy(Run(m, cs[..n]), cs[n], ch, consumer)
  }

  lemma {:induction false} StepAcks(m: Model, c: Command, ch: Name, consumer: Name)
    requires ModelValid(m)
    ensures Step(m, c).AckedSeq(ch, consumer) == m.AckedSeq(ch, consumer) + |AckedBy(m, c, ch, consumer)|
    ensures AckedBy(m, c, ch, consumer) != [] ==> AckedBy(m, c, ch, consumer)[0] == m.AckedSeq(ch, consumer) + 1
  {
  }

  /** Over any run the acknowledgements of one consumer are exactly 1, 2, ..., k, where k is its checkpoint. */
  lemma {:induction false} AcksHaveNoGaps(cs: seq<Command>, ch: Name, consumer: Name)
    ensures var k := Run(EMPTY, cs).AckedSeq(ch, consumer);
      |AckTrace(EMPTY, cs, ch, consumer)| == k <= |Run(EMPTY, cs).Log(ch)|
        && forall i :: 0 <= i < k ==> AckTrace(EMPTY, cs, ch, consumer)[i] == i + 1
  {
    EveryReachableStateIsValid(cs);
    if cs != [] {
      var n := |cs| - 1;
      AcksHaveNoGaps(cs[..n], ch, consumer);
      EveryReachableStateIsValid(cs[..n]);
      StepAcks(Run(EMPTY, cs[..n]), cs[n], ch, consumer);
    }
  }

  /** No call moves another channel's log or another consumer's checkpoint. */
  lemma {:induction false} CallsAreIndependent(m: Model, c: Command, ch: Name, consumer: Name)
    ensures !(c.DoPublish? && c.ch == ch) ==> Step(m, c).Log(ch) == m.Log(ch)
    ensures !(c.DoAck? && c.ch == ch && c.consumer == consumer) ==>
      Step(m, c).Checkpointed(ch, consumer) == m.Checkpointed(ch, consumer)
  {
  }

  /** A consumer that has acknowledged k messages reads on from exactly message k + 1. */
  lemma {:induction false} ReadResumesAfterAck(m: Model, ch: Name, consumer: Name, limit: int)
    requires ModelValid(m) && ch.Plain? && consumer.Plain? && 1 <= limit <= MAX_LIMIT
    ensures var k := m.AckedSeq(ch, consumer); var log := m.Log(ch);
      var page := Read(m, ch, consumer, limit);
      k <= |log| && page.Page? && page.messages == log[k..Min(k + limit, |log|)]
        && (page.hasMore <==> k + limit < |log|)
  {
  }

  // ----- paging while others publish -----

  datatype ReaderStep = Other(command: Command) | NextPage(limit: int)

  datatype Reader = Reader(model: Model, cursor: Option<Cursor>, collected: seq<Message>)

  /** A reader that follows `nextCursor`; a refused call changes nothing. */
  function ReadStep(r: Reader, ch: Name, s: ReaderStep): Reader {
    match s
    case Other(c) => r.(model := Step(r.model, c))
    case NextPage(limit) =>
      var page := List(r.model, ch, if r.cursor.Some? then Token(r.cursor.value) else NoCursor, limit);
      if page.Page? then Reader(r.model, page.nextCursor, r.collected + page.messages) else r
  }

  function ReadAll(r: Reader, ch: Name, steps: seq<ReaderStep>): Reader {
    if steps == [] then r else ReadStep(ReadAll(r, ch, steps[..|steps| - 1]), ch, steps[|steps| - 1])
  }

  /** What has been collected is a prefix of the log, and the cursor stands at its end. */
  ghost predicate InStep(r: Reader, ch: Name) {
    && ModelValid(r.model)
    && r.collected <= r.model.Log(ch)
    && r.cursor == if r.collected == [] then None else Some(CursorOf(r.collected[|r.collected| - 1]))
  }

  /** The page a reader in step asks for next, and where it leaves the reader. */
  lemma {:induction false} NextPageIs(r: Reader, ch: Name, limit: int)
    requires InStep(r, ch) && ch.Plain? && 1 <= limit <= MAX_LIMIT
    ensures var log := r.model.Log(ch); var k := |r.collected|; var to := Min(k + limit, |log|);
      && k <= to <= |log|
      && List(r.model, ch, if r.cursor.Some? then Token(r.cursor.value) else NoCursor, limit)
         == Page(log[k..to], if k < to then Some(CursorOf(log[to - 1])) else r.cursor, to < |log|, Head(log))
  {
    var log, k := r.model.Log(ch), |r.collected|;
    assert LogValid(ch, log);
    CursorStandsAt(log, ch, r.collected, r.cursor);
    hide LogValid, ModelValid, FindCursor, List, CursorOf, Head;
    PageFrom(r.model, ch, if r.cursor.Some? then Token(r.cursor.value) else NoCursor, limit, k);
  }

  /** The reader that has collected the first `n` messages. */
  function ReaderAt(m: Model, ch: Name, n: nat): Reader
    requires n <= |m.Log(ch)|
  {
    Reader(m, if n == 0 then None else Some(CursorOf(m.Log(ch)[n - 1])), m.Log(ch)[..n])
  }

  lemma {:induction false} InStepIffReaderAt(r: Reader, ch: Name)
    requires ModelValid(r.model)
    ensures InStep(r, ch) <==> |r.collected| <= |r.model.Log(ch)| && r == ReaderAt(r.model, ch, |r.collected|)
  {
  }

  lemma {:induction false} ReadStepIs(r: Reader, ch: Name, limit: int, page: ListOutcome)
    requires page.Page? && page == List(r.model, ch, if r.cursor.Some? then Token(r.cursor.value) else NoCursor, limit)
    ensures ReadStep(r, ch, NextPage(limit)) == Reader(r.model, page.nextCursor, r.collected + page.messages)
  {
  }

  lemma {:induction false} PageExtendsPrefix(r: Reader, ch: Name, limit: int)
    requires InStep(r, ch) && ch.Plain? && 1 <= limit <= MAX_LIMIT
    ensures |r.collected| <= |r.model.Log(ch)|
    ensures ReadStep(r, ch, NextPage(limit)) == ReaderAt(r.model, ch, Min(|r.collected| + limit, |r.model.Log(ch)|))
  {
    var log, k := r.model.Log(ch), |r.collected|;
    var to := Min(k + limit, |log|);
    InStepIffReaderAt(r, ch);
    NextPageIs(r, ch, limit);
    var next := if k < to then Some(CursorOf(log[to - 1])) else r.cursor;
    hide *;
    ReadStepIs(r, ch, limit, Page(log[k..to], next, to < |log|, Head(log)));
    SlicesJoin(log, k, to);
    ReaderAtIs(r.model, ch, to);
    ReaderAtIs(r.model, ch, k);
  }

  lemma {:induction false} SlicesJoin(log: seq<Message>, k: nat, to: nat)
    requires k <= to <= |log|
    ensures log[..k] + log[k..to] == log[..to]
  {
  }

  lemma {:induction false} ReaderAtIs(m: Model, ch: Name, n: nat)
    requires n <= |m.Log(ch)|
    ensures ReaderAt(m, ch, n) == Reader(m, if n == 0 then None else Some(CursorOf(m.Log(ch)[n - 1])), m.Log(ch)[..n])
  {
  }

  /** `hasMore` is false exactly when the page reached the end of the log. */
  lemma {:induction false} HasMoreUntilEnd(r: Reader, ch: Name, limit: int)
    requires InStep(r, ch) && ch.Plain? && 1 <= limit <= MAX_LIMIT
    ensures var page := List(r.model, ch, if r.cursor.Some? then Token(r.cursor.value) else NoCursor, limit);
      page.Page? && (page.hasMore <==> ReadStep(r, ch, NextPage(limit)).collected != r.model.Log(ch))
  {
    NextPageIs(r, ch, limit);
    PageExtendsPrefix(r, ch, limit);
    hide InStep, ModelValid, List, ReadStep;
    var log, to := r.model.Log(ch), Min(|r.collected| + limit, |r.model.Log(ch)|);
    assert log[..to] == log <==> to == |log|;
  }

  lemma {:induction false} PageFrom(m: Model, ch: Name, input: CursorInput, limit: int, k: nat)
    requires ch.Plain? && 1 <= limit <= MAX_LIMIT && k <= |m.Log(ch)| && !input.BadToken?
    requires if input.Token? then k > 0 && input.cursor.channel == ch
      && FindCursor(m.Log(ch), input.cursor) == Some(k - 1) else k == 0
    ensures var log := m.Log(ch); var to := Min(k + limit, |log|);
      List(m, ch, input, limit) == Page(log[k..to],
        if k < to then Some(CursorOf(log[to - 1])) else if input.Token? then Some(input.cursor)
          else None, to < |log|, Head(log))
  {
  }

  lemma {:induction false} CursorStandsAt(log: seq<Message>, ch: Name, collected: seq<Message>, cursor: Option<Cursor>)
    requires LogValid(ch, log) && collected <= log
    requires cursor == if collected == [] then None else Some(CursorOf(collected[|collected| - 1]))
    ensures collected != [] ==> FindCursor(log, cursor.value) == Some(|collected| - 1) && cursor.value.channel == ch
  {
    assert collected != [] ==> collected[|collected| - 1] == log[|collected| - 1];
  }

  lemma {:induction false} ReadStepKeepsPrefix(r: Reader, ch: Name, s: ReaderStep)
    requires InStep(r, ch) && ch.Plain?
    ensures InStep(ReadStep(r, ch, s), ch)
  {
    match s
    case Other(c) => StepKeepsValid(r.model, c);
    case NextPage(limit) =>
      if 1 <= limit <= MAX_LIMIT {
        PageExtendsPrefix(r, ch, limit);
        InStepIffReaderAt(ReadStep(r, ch, s), ch);
      }
  }

  /** Pages read by following the cursor concatenate to a prefix
      of the current log, whatever is published in between. */
  lemma {:induction false} PagesAreAPrefix(ch: Name, steps: seq<ReaderStep>)
    requires ch.Plain?
    ensures var r := ReadAll(Reader(EMPTY, None, []), ch, steps);
      InStep(r, ch) && r.collected == r.model.Log(ch)[..|r.collected|]
  {
    if steps != [] {
      PagesAreAPrefix(ch, steps[..|steps| - 1]);
      ReadStepKeepsPrefix(ReadAll(Reader(EMPTY, None, []), ch, steps[..|steps| - 1]), ch, steps[|steps| - 1]);
    }
  }

  function PagesOnly(limits: seq<int>): seq<ReaderStep> {
    if limits == [] then [] else PagesOnly(limits[..|limits| - 1]) + [NextPage(limits[|limits| - 1])]
  }

  /** Once publishing stops, every page advances: as many pages as messages are left reach the end of the log. */
  lemma {:induction false} PagingFinishes(r: Reader, ch: Name, limits: seq<int>)
    requires InStep(r, ch) && ch.Plain? && forall i :: 0 <= i < |limits| ==> 1 <= limits[i] <= MAX_LIMIT
    ensures var r' := ReadAll(r, ch, PagesOnly(limits));
      && InStep(r', ch) && r'.model == r.model
      && |r'.collected| >= Min(|r.collected| + |limits|, |r.model.Log(ch)|)
      && (|r.collected| + |limits| >= |r.model.Log(ch)| ==> r'.collected == r.model.Log(ch))
  {
    if limits != [] {
      hide InStep, ModelValid, ReadStep, ReadAll, PagesOnly;
      var n := |limits| - 1;
      PagingFinishes(r, ch, limits[..n]);
      var before := ReadAll(r, ch, PagesOnly(limits[..n]));
      OnePageMore(r, ch, limits);
      NextPageAdvances(before, ch, limits[n]);
    }
  }

  lemma {:induction false} OnePageMore(r: Reader, ch: Name, limits: seq<int>)
    requires limits != []
    ensures ReadAll(r, ch, PagesOnly(limits))
      == ReadStep(ReadAll(r, ch, PagesOnly(limits[..|limits| - 1])), ch, NextPage(limits[|limits| - 1]))
  {
    hide ReadStep;
    var steps := PagesOnly(limits[..|limits| - 1]);
    assert (steps + [NextPage(limits[|limits| - 1])])[..|steps|] == steps;
  }

  lemma {:induction false} NextPageAdvances(r: Reader, ch: Name, limit: int)
    requires InStep(r, ch) && ch.Plain? && 1 <= limit <= MAX_LIMIT
    ensures var r' := ReadStep(r, ch, NextPage(limit)); var log := r.model.Log(ch);
      && InStep(r', ch) && r'.model == r.model && |r'.collected| == Min(|r.collected| + limit, |log|)
      && (|r'.collected| == |log| ==> r'.collected == log)
  {
    PageExtendsPrefix(r, ch, limit);
    ReaderAtIs(r.model, ch, Min(|r.collected| + limit, |r.model.Log(ch)|));
    ReadStepKeepsPrefix(r, ch, NextPage(limit));
    hide InStep, ModelValid, ReadStep, List, ReaderAt;
  }

  /** Comparing the cursors of two messages of a log compares their positions. */
  lemma {:induction false} CursorOrderIsLogOrder(m: Model, ch: Name, i: nat, j: nat,
      idLess: (MessageId, MessageId) -> bool)
    requires ModelValid(m) && i < |m.Log(ch)| && j < |m.Log(ch)|
    ensures CompareCursors(idLess, CursorOf(m.Log(ch)[i]), CursorOf(m.Log(ch)[j]))
      == Some(if i < j then -1 else if i == j then 0 else 1)
  {
    assert LogValid(ch, m.Log(ch));
  }

  /** Cursors compare exactly within one channel, both ways alike, by seq and then by message id; they are equal when
      seq and id are. */
  lemma {:induction false} CursorsCompareBothWays(idLess: (MessageId, MessageId) -> bool, a: Cursor, b: Cursor)
    requires forall x, y :: x != y ==> idLess(x, y) != idLess(y, x)
    ensures var r, s := CompareCursors(idLess, a, b), CompareCursors(idLess, b, a);
      && (r.Some? <==> a.channel == b.channel) && (s.Some? <==> a.channel == b.channel)
      && (r.Some? ==>
            && r.value == -s.value && (a.seqNo < b.seqNo ==> r.value < 0)
            && (a.seqNo == b.seqNo && idLess(a.messageId, b.messageId) && a.messageId != b.messageId ==> r.value < 0)
            && (r.value == 0 <==> a.seqNo == b.seqNo && a.messageId == b.messageId))
  {
  }

  /** A cursor acknowledges the same message whatever publication time the client puts in it. */
  lemma {:induction false} CheckpointIgnoresPublishedAt(m: Model, ch: Name, consumer: Name, c: Cursor, t: Time,
      at: Time)
    requires Ack(m, ch, consumer, Token(c), at).1.Acknowledged? && !Ack(m, ch, consumer, Token(c), at).1.noop
    ensures Ack(m, ch, consumer, Token(c.(publishedAt := t)), at).1.Acknowledged?
    ensures Ack(m, ch, consumer, Token(c.(publishedAt := t)), at).0.AckedSeq(ch, consumer) == c.seqNo
  {
  }

  // ----- exactly what each call does -----

  /** The cursor of a log's message number `i + 1`. */
  function CursorAt(log: seq<Message>, i: nat): Cursor
    requires i < |log|
  {
    Cursor(log[i].channel, i + 1, MessageId(log[i].channel, i + 1), log[i].publishedAt)
  }

  /** The cursor is that of some message of the log, whatever its publication time. */
  ghost predicate StandsIn(log: seq<Message>, c: Cursor) {
    exists i :: 0 <= i < |log| && c == CursorAt(log, i).(publishedAt := c.publishedAt)
  }

  lemma {:induction false} FoundIff(ch: Name, log: seq<Message>, c: Cursor)
    requires LogValid(ch, log)
    ensures FindCursor(log, c) == if StandsIn(log, c) then Some(c.seqNo - 1) else None
    ensures StandsIn(log, c) ==> c.channel == ch && 1 <= c.seqNo <= |log|
  {
    if 1 <= c.seqNo <= |log| && log[c.seqNo - 1].messageId == c.messageId && log[c.seqNo - 1].channel == c.channel {
      assert c == CursorAt(log, c.seqNo - 1).(publishedAt := c.publishedAt);
    }
  }

  /** Publishing in a plain channel under a plain key: a new key appends one message
      with the next seq and returns its cursor; a used key returns the message that
      carries it when the payload is the same, and is a conflict when not. */
  lemma {:induction false} PublishExactly(m: Model, ch: Name, key: Name, payload: Payload, at: Time)
    requires ModelValid(m) && ch.Plain? && key.Plain?
    ensures var log := m.Log(ch); var n := |log|; var r := Publish(m, ch, key, payload, at);
      && ((forall i :: 0 <= i < n ==> log[i].idempotencyKey != key) ==>
            var msg := Message(ch, n + 1, MessageId(ch, n + 1), key, at, payload, Sha256(payload));
            var cursor := Cursor(ch, n + 1, MessageId(ch, n + 1), at);
            r == (m.(logs := m.logs[ch := log + [msg]]), Published(msg, cursor, false, Some(cursor))))
      && (forall i :: 0 <= i < n && log[i].idempotencyKey == key ==>
            r == (m, if log[i].payload == payload
              then Published(log[i], CursorAt(log, i), true, Some(CursorAt(log, n - 1)))
              else PublishRefused(IdempotencyConflict)))
  {
    var log := m.Log(ch);
    assert LogValid(ch, log);
    var known := FindKey(log, key);
    hide ModelValid, FindKey;
    if known.Some? {
      assert log[known.value].idempotencyKey == key;
    }
  }

  /** Listing succeeds exactly for a plain channel, a limit of 1 to 1000, and no cursor or one that stands in the log;
      with no cursor the page starts at the first message, otherwise after the cursor's. */
  lemma {:induction false} ListExactly(m: Model, ch: Name, input: CursorInput, limit: int)
    requires ModelValid(m)
    ensures var log := m.Log(ch); var r := List(m, ch, input, limit);
      && (r.Page? <==>
            && ch.Plain? && 1 <= limit <= 1000 && !input.BadToken? && (input.Token? ==> StandsIn(log, input.cursor)))
      && (r.Page? && input.NoCursor? ==> PageIs(r, log, 0, limit, None))
      && (r.Page? && input.Token? ==>
            1 <= input.cursor.seqNo <= |log| && PageIs(r, log, input.cursor.seqNo, limit, Some(input.cursor)))
  {
    assert LogValid(ch, m.Log(ch));
    hide LogValid, ModelValid, FindCursor, StandsIn, List, PageIs;
    ListSucceedsIff(m, ch, input, limit);
    if List(m, ch, input, limit).Page? {
      if input.Token? {
        FoundIff(ch, m.Log(ch), input.cursor);
        ListedPage(m, ch, input, limit, input.cursor.seqNo);
      } else {
        ListedPage(m, ch, input, limit, 0);
      }
    }
  }

  lemma {:induction false} ListedPage(m: Model, ch: Name, input: CursorInput, limit: int, k: nat)
    requires ModelValid(m) && ch.Plain? && 1 <= limit <= MAX_LIMIT && k <= |m.Log(ch)| && !input.BadToken?
    requires if input.Token? then k > 0 && input.cursor.channel == ch
      && FindCursor(m.Log(ch), input.cursor) == Some(k - 1) else k == 0
    ensures PageIs(List(m, ch, input, limit), m.Log(ch), k, limit, if input.Token? then Some(input.cursor) else None)
  {
    hide LogValid, ModelValid, FindCursor, List, PageIs;
    PageFrom(m, ch, input, limit, k);
    CursorsAre(m, ch);
    PageWithCursors(m.Log(ch), k, limit, if input.Token? then Some(input.cursor) else None);
  }

  lemma {:induction false} PageWithCursors(log: seq<Message>, k: nat, limit: nat, given: Option<Cursor>)
    requires k <= |log| && forall i :: 0 <= i < |log| ==> CursorOf(log[i]) == CursorAt(log, i)
    ensures var to := Min(k + limit, |log|);
      PageIs(Page(log[k..to], if k < to then Some(CursorOf(log[to - 1])) else given, to < |log|, Head(log)), log, k,
        limit, given)
  {
    hide CursorOf, CursorAt;
  }

  lemma {:induction false} CursorsAre(m: Model, ch: Name)
    requires ModelValid(m)
    ensures forall i :: 0 <= i < |m.Log(ch)| ==> CursorOf(m.Log(ch)[i]) == CursorAt(m.Log(ch), i)
  {
    assert LogValid(ch, m.Log(ch));
  }

  lemma {:induction false} ListSucceedsIff(m: Model, ch: Name, input: CursorInput, limit: int)
    requires LogValid(ch, m.Log(ch))
    ensures List(m, ch, input, limit).Page? <==>
      && ch.Plain? && 1 <= limit <= 1000 && !input.BadToken?
      && (input.Token? ==> StandsIn(m.Log(ch), input.cursor))
  {
    if input.Token? {
      FoundIff(ch, m.Log(ch), input.cursor);
    }
    hide LogValid, FindCursor, StandsIn, CursorOf, Head;
  }

  /** The page of up to `limit` messages after the first `from`, with the cursor of its last message or, when it is
      empty, the one given; more is left exactly when it stops before the end. */
  predicate PageIs(r: ListOutcome, log: seq<Message>, from: nat, limit: nat, given: Option<Cursor>)
    requires from <= |log|
  {
    var to := if from + limit <= |log| then from + limit else |log|;
    r == Page(log[from..to], if from < to then Some(CursorAt(log, to - 1)) else given, to < |log|,
      if log == [] then None else Some(CursorAt(log, |log| - 1)))
  }

  /** A consumer read of a plain channel by a plain consumer is the page after the messages it has acknowledged. */
  lemma {:induction false} ReadExactly(m: Model, ch: Name, consumer: Name, limit: int)
    requires ModelValid(m) && ch.Plain? && consumer.Plain? && 1 <= limit <= MAX_LIMIT
    ensures var k := m.AckedSeq(ch, consumer); var log := m.Log(ch);
      k <= |log| && PageIs(Read(m, ch, consumer, limit), log, k, limit, m.Checkpointed(ch, consumer))
  {
    var checkpoint := m.Checkpointed(ch, consumer);
    ListExactly(m, ch, if checkpoint.Some? then Token(checkpoint.value) else NoCursor, limit);
    assert LogValid(ch, m.Log(ch));
    assert checkpoint.Some? ==> (ch, consumer) in m.checkpoints;
    hide PageIs, List, LogValid, ModelValid;
    if checkpoint.Some? {
      var c := checkpoint.value;
      assert c == CursorAt(m.Log(ch), c.seqNo - 1).(publishedAt := c.publishedAt);
    }
  }

  /** What acknowledging the cursor of message `i + 1` does when `k` messages have been acknowledged: the next message
      moves the checkpoint to it; the current one is a no-op that returns the stored cursor; an earlier one is a
      regression and a later one is out of order. */
  lemma {:induction false} AckExactly(m: Model, ch: Name, consumer: Name, i: nat, publishedAt: Time, at: Time)
    requires ModelValid(m) && ch.Plain? && consumer.Plain? && i < |m.Log(ch)|
    ensures var k := m.AckedSeq(ch, consumer); var c := CursorAt(m.Log(ch), i).(publishedAt := publishedAt);
      Ack(m, ch, consumer, Token(c), at)
        == if i + 1 < k then (m, AckMisplaced(AckCursorRegression, m.Checkpointed(ch, consumer), k + 1))
           else if i + 1 == k then (m, Acknowledged(m.Checkpointed(ch, consumer), k + 1, true))
           else if i == k then
             (m.(checkpoints := m.checkpoints[(ch, consumer) := Checkpoint(c, at)]),
              Acknowledged(Some(c), k + 2, false))
           else (m, AckMisplaced(AckOutOfOrder, m.Checkpointed(ch, consumer), k + 1))
  {
    assert LogValid(ch, m.Log(ch));
    hide ModelValid;
  }

  /** A cursor that does not stand in the log of its plain channel is not found, whoever acknowledges it. */
  lemma {:induction false} AckMissing(m: Model, ch: Name, consumer: Name, c: Cursor, at: Time)
    requires ModelValid(m) && ch.Plain? && !consumer.Malformed? && c.channel == ch
    requires !StandsIn(m.Log(ch), c)
    ensures Ack(m, ch, consumer, Token(c), at) == (m, AckRefused(AckCursorNotFound))
  {
    assert LogValid(ch, m.Log(ch));
    FoundIff(ch, m.Log(ch), c);
    hide ModelValid, FindCursor, StandsIn;
  }

  /** Acknowledging the messages after the first `k`, one by one, up to number `n`. */
  function AckUpTo(log: seq<Message>, ch: Name, consumer: Name, k: nat, n: nat, at: Time): seq<Command>
    requires n <= |log|
  {
    if n <= k then []
    else AckUpTo(log, ch, consumer, k, n - 1, at) + [DoAck(ch, consumer, Token(CursorAt(log, n - 1)), at)]
  }

  /** From every reachable state a consumer can acknowledge on to any message of the log, up to its head, without
      anything being published or changed on the way. */
  lemma {:induction false} CanAcknowledgeAll(m: Model, ch: Name, consumer: Name, n: nat, at: Time)
    requires ModelValid(m) && ch.Plain? && consumer.Plain? && m.AckedSeq(ch, consumer) <= n <= |m.Log(ch)|
    ensures var m' := Run(m, AckUpTo(m.Log(ch), ch, consumer, m.AckedSeq(ch, consumer), n, at));
      ModelValid(m') && m'.AckedSeq(ch, consumer) == n && m'.logs == m.logs
    decreases n
  {
    var log, k := m.Log(ch), m.AckedSeq(ch, consumer);
    if k < n {
      CanAcknowledgeAll(m, ch, consumer, n - 1, at);
      var front := AckUpTo(log, ch, consumer, k, n - 1, at);
      RunStep(m, front, DoAck(ch, consumer, Token(CursorAt(log, n - 1)), at));
      hide ModelValid, Step, Run, CursorAt;
      AckNext(Run(m, front), ch, consumer, at);
    }
  }

  lemma {:induction false} RunStep(m: Model, cs: seq<Command>, c: Command)
    ensures Run(m, cs + [c]) == Step(Run(m, cs), c)
  {
    assert (cs + [c])[..|cs|] == cs;
  }

  lemma {:induction false} AckNext(m: Model, ch: Name, consumer: Name, at: Time)
    requires ModelValid(m) && ch.Plain? && consumer.Plain? && m.AckedSeq(ch, consumer) < |m.Log(ch)|
    ensures var k := m.AckedSeq(ch, consumer);
      var m' := Step(m, DoAck(ch, consumer, Token(CursorAt(m.Log(ch), k)), at));
      ModelValid(m') && m'.AckedSeq(ch, consumer) == k + 1 && m'.logs == m.logs
  {
    var k := m.AckedSeq(ch, consumer);
    AckExactly(m, ch, consumer, k, m.Log(ch)[k].publishedAt, at);
    StepKeepsValid(m, DoAck(ch, consumer, Token(CursorAt(m.Log(ch), k)), at));
    hide ModelValid, Ack;
  }

  /** A call is refused for its names first, an unusable channel before an unusable key or consumer. */
  lemma {:induction false} RefusedForNames(m: Model, ch: Name, name: Name, payload: Payload, limit: int, at: Time)
    ensures !ch.Plain? && !name.Malformed? ==>
      && Publish(m, ch, name, payload, at) == (m, PublishRefused(ChannelInvalid))
      && Read(m, ch, name, limit) == ListRefused(ChannelInvalid)
    ensures !ch.Malformed? && name.Malformed? ==>
      && Publish(m, ch, name, payload, at) == (m, PublishRefused(IdempotencyKeyInvalid))
      && Read(m, ch, name, limit) == ListRefused(ConsumerInvalid)
    ensures ch.Malformed? ==>
      && Publish(m, ch, name, payload, at) == (m, PublishRefused(ChannelInvalid))
      && Read(m, ch, name, limit) == ListRefused(ChannelInvalid)
      && List(m, ch, NoCursor, limit) == ListRefused(ChannelInvalid)
  {
    hide FindKey;
  }

  /** Then for its limit and its cursor. */
  lemma {:induction false} RefusedForCursor(m: Model, ch: Name, consumer: Name, input: CursorInput, limit: int,
      at: Time)
    requires ModelValid(m) && ch.Plain? && consumer.Plain?
    ensures input.NoCursor? ==> Ack(m, ch, consumer, input, at) == (m, AckRefused(AckCursorRequired))
    ensures limit < 1 || limit > 1000 ==> List(m, ch, input, limit) == ListRefused(LimitInvalid)
    ensures 1 <= limit <= 1000 && input.BadToken? ==> List(m, ch, input, limit) == ListRefused(CursorInvalid)
    ensures 1 <= limit <= 1000 && input.Token? && input.cursor.channel != ch ==>
      && List(m, ch, input, limit) == ListRefused(CursorChannelMismatch)
      && Ack(m, ch, consumer, input, at) == (m, AckRefused(CursorChannelMismatch))
    ensures 1 <= limit <= 1000 && input.Token? && input.cursor.channel == ch && !StandsIn(m.Log(ch), input.cursor) ==>
      List(m, ch, input, limit) == ListRefused(CursorNotFound)
  {
    assert LogValid(ch, m.Log(ch));
    if input.Token? {
      FoundIff(ch, m.Log(ch), input.cursor);
    }
    hide ModelValid, FindCursor, StandsIn;
  }
}
