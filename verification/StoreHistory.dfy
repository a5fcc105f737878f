/** What the state of a store is, read off its history of records: every stream, the emergency controls, every table row
    and the outbox, failing records included. */
module StoreHistory {
  import opened Wrappers
  import opened Sequences
  import opened Ordering
  import opened AgentRuns
  import opened Emergency
  import opened Ledgers
  import opened StoreModel
  import opened Recovery
  import opened StoreRuns

  /** An operation with the time of its record. */
  datatype Stamped = Stamped(at: int, op: Op)

  // ----- which operations take effect -----

  /** The first event of the batch names the hash of the stream's last event, or none for an empty stream, and every
      other one the hash of the event before it. */
  ghost predicate Chained(stream: seq<RunEvent>, events: seq<RunEvent>) {
    && (|events| > 0 ==> events[0].prevChainHash == if stream == [] then None else stream[|stream| - 1].chainHash)
    && forall i, j :: 0 <= i < |events| && j == i + 1 < |events| ==> events[j].prevChainHash == events[i].chainHash
  }

  lemma {:induction false} ChainedIff(stream: seq<RunEvent>, events: seq<RunEvent>)
    ensures LinkedFrom(HeadHash(stream), events) <==> Chained(stream, events)
  {
    if Chained(stream, events) {
      forall j | 0 < j < |events| ensures events[j].prevChainHash == events[j - 1].chainHash {
        assert events[j - 1] == events[j - 1];
      }
    }
  }

  /** Over any history every event of a stream names the hash of the one before it, and the first names none. */
  lemma {:induction false} StreamsAreChained(locale: Leq<Ref>, records: seq<Record>, key: StreamKey)
    ensures Chained([], StreamOf(CoreHistory(locale, records), key))
  {
    StreamsStayLinked(locale, records, key);
    ChainedIff([], StreamOf(CoreHistory(locale, records), key));
    hide CoreHistory, StreamOf, Chained, LinkedFrom;
  }

  /** An operation does what it can: a batch must be nonempty, continue its stream and, for a run, reduce; an emergency
      event must not differ from the one stored under its id; a ledger entry must have an id. */
  ghost predicate IsApplicable(locale: Leq<Ref>, core: Core, at: int, op: Op) {
    match op
    case AppendEvents(key, events) =>
      && events != [] && Chained(StreamOf(core, key), events)
      && (key.kind.AgentRunStream? ==> Reduce(locale, Extended(key, StreamOf(core, key), events)).Success?)
    case EmergencyEvent(tenant, event) =>
      var k := (tenant, event.eventId);
      k in core.emergency.events ==> core.emergency.events[k] == Normalize(tenant, event, at)
    case LedgerEntryApplied(_, entry) => entry.Some?
    case OutboxEnqueue(_) => true
    case PutRow(_, _) => true
    case UnknownOp => false
  }

  /** Exactly when an operation succeeds. */
  lemma {:induction false} OpSucceedsIff(locale: Leq<Ref>, core: Core, at: int, op: Op)
    ensures ApplyCore(locale, core, at, op).Done? <==> IsApplicable(locale, core, at, op)
  {
    if op.AppendEvents? {
      ChainedIff(StreamOf(core, op.key), op.events);
    }
    hide Reduce, LinkedFrom, Chained, Extended, StreamOf, Accept;
  }

  /** Why an operation fails, and what a failure leaves: nothing, but for a run batch that is stored before it is
      reduced. */
  lemma {:induction false} OpFails(locale: Leq<Ref>, core: Core, at: int, op: Op)
    requires ApplyCore(locale, core, at, op).Threw?
    ensures var o := ApplyCore(locale, core, at, op);
      && (op.EmergencyEvent? ==> o == Threw(core, EmergencyConflict))
      && (op.LedgerEntryApplied? ==> o == Threw(core, EntryIdMissing))
      && (op.UnknownOp? ==> o == Threw(core, BadOperation))
      && (op.AppendEvents? ==>
            if op.events == [] then o == Threw(core, BadOperation)
            else if !Chained(StreamOf(core, op.key), op.events) then o == Threw(core, PrevChainHashMismatch)
            else
              var stored := Extended(op.key, StreamOf(core, op.key), op.events);
              && Reduce(locale, stored).Failure?
              && o == Threw(core.(streams := core.streams[op.key := stored]),
                   ReducerFailed(Reduce(locale, stored).error)))
  {
    OpSucceedsIff(locale, core, at, op);
    if op.AppendEvents? {
      ChainedIff(StreamOf(core, op.key), op.events);
    }
    hide Reduce, LinkedFrom, Chained, Extended, StreamOf, Accept;
  }

  /** A run batch that was stored although it does not reduce. */
  predicate StoredUnreduced(o: Outcome<Core>) {
    o.Threw? && o.error.ReducerFailed?
  }

  /** The operations of a record that take effect: those that succeed before the first failure, and a run batch that
      fails only after it has been stored. */
  function Effective(locale: Leq<Ref>, core: Core, at: int, ops: seq<Op>): seq<Op> {
    if ops == [] then []
    else
      var front, op := ops[..|ops| - 1], ops[|ops| - 1];
      var before := CoreOps(locale, core, at, front);
      if before.Threw? then Effective(locale, core, at, front)
      else
        var o := ApplyCore(locale, before.st, at, op);
        if o.Done? || StoredUnreduced(o) then Effective(locale, core, at, front) + [op]
        else Effective(locale, core, at, front)
  }

  /** They are all of the record, or all up to its first operation that fails. */
  lemma {:induction false} EffectiveIsPrefix(locale: Leq<Ref>, core: Core, at: int, ops: seq<Op>)
    ensures CoreOps(locale, core, at, ops).Done? ==> Effective(locale, core, at, ops) == ops
    ensures CoreOps(locale, core, at, ops).Threw? ==> exists n :: 0 <= n < |ops| && FailsAt(locale, core, at, ops, n)
  {
    if ops == [] {
      assert CoreOps(locale, core, at, ops).Done?;
    } else {
      hide *;
      var m := |ops| - 1;
      EffectiveIsPrefix(locale, core, at, ops[..m]);
      EffectiveStep(locale, core, at, ops);
      if CoreOps(locale, core, at, ops[..m]).Threw? {
        var n :| 0 <= n < m && FailsAt(locale, core, at, ops[..m], n);
        FailsStill(locale, core, at, ops, n);
      } else {
        assert ops == ops[..m] + [ops[m]];
        if CoreOps(locale, core, at, ops).Threw? {
          FailsLast(locale, core, at, ops[..m], ops[m]);
        }
      }
    }
  }

  /** Operation `n` is the first to fail; it takes effect exactly when it is a run batch that was stored unreduced. */
  ghost predicate FailsAt(locale: Leq<Ref>, core: Core, at: int, ops: seq<Op>, n: nat) {
    && n < |ops| && CoreOps(locale, core, at, ops[..n]).Done?
    && var o := ApplyCore(locale, CoreOps(locale, core, at, ops[..n]).st, at, ops[n]);
    && o.Threw? && CoreOps(locale, core, at, ops) == o
    && Effective(locale, core, at, ops) == if StoredUnreduced(o) then ops[..n + 1] else ops[..n]
  }

  lemma {:induction false} FailsStill(locale: Leq<Ref>, core: Core, at: int, ops: seq<Op>, n: nat)
    requires ops != [] && FailsAt(locale, core, at, ops[..|ops| - 1], n)
    ensures FailsAt(locale, core, at, ops, n)
  {
    var front := ops[..|ops| - 1];
    EffectiveStep(locale, core, at, ops);
    assert front[..n] == ops[..n] && front[..n + 1] == ops[..n + 1] && front[n] == ops[n];
    hide CoreOps, ApplyCore, Effective;
  }

  lemma {:induction false} FailsLast(locale: Leq<Ref>, core: Core, at: int, front: seq<Op>, op: Op)
    requires CoreOps(locale, core, at, front).Done? && CoreOps(locale, core, at, front + [op]).Threw?
    requires Effective(locale, core, at, front) == front
    ensures FailsAt(locale, core, at, front + [op], |front|)
  {
    var ops := front + [op];
    assert ops[..|front|] == front && ops[|front|] == op;
    EffectiveStep(locale, core, at, ops);
    hide CoreOps, ApplyCore, Effective;
    assert ops[..|front| + 1] == ops;
  }

  function StampAll(at: int, ops: seq<Op>): seq<Stamped> {
    MapSeq((op: Op) => Stamped(at, op), ops)
  }

  /** Everything that took effect over a history of records. */
  function History(locale: Leq<Ref>, records: seq<Record>): seq<Stamped> {
    if records == [] then []
    else
      var front, r := records[..|records| - 1], records[|records| - 1];
      History(locale, front) + StampAll(r.at, Effective(locale, CoreHistory(locale, front), r.at, r.ops))
  }

  // ----- what a history says the state must be -----

  function DeliveriesIn(h: seq<Stamped>): seq<Delivery> {
    if h == [] then []
    else
      var x := h[|h| - 1];
      DeliveriesIn(h[..|h| - 1])
        + if x.op.EmergencyEvent? then [Delivery(x.op.tenant, x.op.event, x.at)] else []
  }

  /** The value last put into a row. */
  function LastPut(h: seq<Stamped>, k: TableKey): Option<int> {
    if h == [] then None
    else
      var x := h[|h| - 1];
      if x.op.PutRow? && x.op.row == k then Some(x.op.value) else LastPut(h[..|h| - 1], k)
  }

  function EnqueuedIn(h: seq<Stamped>): seq<Message> {
    if h == [] then []
    else
      var x := h[|h| - 1];
      EnqueuedIn(h[..|h| - 1]) + if x.op.OutboxEnqueue? then x.op.messages else []
  }

  /** The batches appended to a stream, one after the other. */
  function AppendedIn(h: seq<Stamped>, key: StreamKey): seq<RunEvent> {
    if h == [] then []
    else
      var x := h[|h| - 1];
      AppendedIn(h[..|h| - 1], key) + if x.op.AppendEvents? && x.op.key == key then x.op.events else []
  }

  function TableAt(core: Core, k: TableKey): Option<int> {
    if k in core.tables then Some(core.tables[k]) else None
  }

  /** A run's events are stored with their schema tag. */
  function AsStored(key: StreamKey, events: seq<RunEvent>): seq<RunEvent> {
    if key.kind.AgentRunStream? then Tagged(events) else events
  }

  /** The state is what the history says. */
  ghost predicate Follows(core: Core, h: seq<Stamped>) {
    && core.emergency == DeliverAll(DeliveriesIn(h))
    && core.outbox == EnqueuedIn(h)
    && (forall k :: TableAt(core, k) == LastPut(h, k))
    && (forall key :: StreamOf(core, key) == AsStored(key, AppendedIn(h, key)))
  }

  lemma {:induction false} HistoryStep(h: seq<Stamped>, x: Stamped)
    ensures DeliveriesIn(h + [x])
      == DeliveriesIn(h) + if x.op.EmergencyEvent? then [Delivery(x.op.tenant, x.op.event, x.at)] else []
    ensures EnqueuedIn(h + [x]) == EnqueuedIn(h) + if x.op.OutboxEnqueue? then x.op.messages else []
    ensures forall k ::
      LastPut(h + [x], k) == if x.op.PutRow? && x.op.row == k then Some(x.op.value) else LastPut(h, k)
    ensures forall key ::
      AppendedIn(h + [x], key)
        == AppendedIn(h, key) + if x.op.AppendEvents? && x.op.key == key then x.op.events else []
  {
    assert (h + [x])[..|h|] == h;
  }

  lemma {:induction false} AsStoredGrows(key: StreamKey, xs: seq<RunEvent>, ys: seq<RunEvent>)
    ensures Extended(key, AsStored(key, xs), ys) == AsStored(key, xs + ys)
  {
  }

  /** Where an append takes effect, and where it does not. */
  lemma {:induction false} AppendEffect(locale: Leq<Ref>, core: Core, key: StreamKey, events: seq<RunEvent>)
    ensures var o := ApplyAppend(locale, core, key, events);
      && o.Final().emergency == core.emergency && o.Final().tables == core.tables && o.Final().outbox == core.outbox
      && (if o.Done? || StoredUnreduced(o) then StreamOf(o.Final(), key) == Extended(key, StreamOf(core, key), events)
          else o.Final() == core)
  {
    hide Reduce, LinkedFrom, Extended;
  }

  lemma {:induction false} OtherEffect(locale: Leq<Ref>, core: Core, at: int, op: Op)
    requires !op.AppendEvents?
    ensures var o := ApplyCore(locale, core, at, op);
      && !StoredUnreduced(o)
      && (o.Threw? ==> o.left == core)
      && (o.Done? ==>
            && (forall key :: StreamOf(o.st, key) == StreamOf(core, key))
            && o.st.emergency == (if op.EmergencyEvent? then Deliver(core.emergency, Delivery(op.tenant, op.event, at))
              else core.emergency)
            && o.st.outbox == core.outbox + (if op.OutboxEnqueue? then op.messages else [])
            && (forall k ::
                 TableAt(o.st, k) == if op.PutRow? && op.row == k then Some(op.value) else TableAt(core, k)))
  {
    hide Accept;
    assert core.outbox + [] == core.outbox;
  }

  lemma {:induction false} AppendFollows(locale: Leq<Ref>, core: Core, at: int, op: Op, h: seq<Stamped>)
    requires op.AppendEvents? && Follows(core, h)
    ensures var o := ApplyCore(locale, core, at, op);
      Follows(o.Final(), if o.Done? || StoredUnreduced(o) then h + [Stamped(at, op)] else h)
  {
    var o := ApplyCore(locale, core, at, op);
    AppendEffect(locale, core, op.key, op.events);
    HistoryStep(h, Stamped(at, op));
    hide ApplyAppend, DeliverAll, DeliveriesIn, EnqueuedIn, LastPut, AppendedIn, AsStored, StreamOf;
    forall key | key != op.key ensures StreamOf(o.Final(), key) == StreamOf(core, key) {
      AppendFrame(locale, core, op.key, op.events, key);
    }
    AsStoredGrows(op.key, AppendedIn(h, op.key), op.events);
    assert DeliveriesIn(h) + [] == DeliveriesIn(h) && EnqueuedIn(h) + [] == EnqueuedIn(h);
    forall key | key != op.key ensures AppendedIn(h + [Stamped(at, op)], key) == AppendedIn(h, key) {
      assert AppendedIn(h, key) + [] == AppendedIn(h, key);
    }
    forall k ensures TableAt(o.Final(), k) == TableAt(core, k) {
    }
  }

  lemma {:induction false} OtherFollows(locale: Leq<Ref>, core: Core, at: int, op: Op, h: seq<Stamped>)
    requires !op.AppendEvents? && Follows(core, h)
    ensures var o := ApplyCore(locale, core, at, op);
      Follows(o.Final(), if o.Done? || StoredUnreduced(o) then h + [Stamped(at, op)] else h)
  {
    hide *;
    OtherEffect(locale, core, at, op);
    FollowsPoint(core, h);
    var o, h' := ApplyCore(locale, core, at, op), h + [Stamped(at, op)];
    if o.Done? {
      HistoryStep(h, Stamped(at, op));
      if op.EmergencyEvent? {
        DeliverOneMore(DeliveriesIn(h), Delivery(op.tenant, op.event, at));
      } else {
        assert DeliveriesIn(h) + [] == DeliveriesIn(h);
      }
      forall key ensures AppendedIn(h', key) == AppendedIn(h, key) {
        assert AppendedIn(h, key) + [] == AppendedIn(h, key);
      }
      FollowsFrom(o.st, h');
      FinalOfDone(o);
    } else {
      FinalOfThrown(o);
    }
  }

  lemma {:induction false} FollowsPoint(core: Core, h: seq<Stamped>)
    requires Follows(core, h)
    ensures core.emergency == DeliverAll(DeliveriesIn(h)) && core.outbox == EnqueuedIn(h)
    ensures forall k :: TableAt(core, k) == LastPut(h, k)
    ensures forall key :: StreamOf(core, key) == AsStored(key, AppendedIn(h, key))
  {
    hide DeliverAll, DeliveriesIn, EnqueuedIn, LastPut, AppendedIn, AsStored, StreamOf, TableAt;
  }

  lemma {:induction false} FollowsFrom(core: Core, h: seq<Stamped>)
    requires core.emergency == DeliverAll(DeliveriesIn(h)) && core.outbox == EnqueuedIn(h)
    requires forall k :: TableAt(core, k) == LastPut(h, k)
    requires forall key :: StreamOf(core, key) == AsStored(key, AppendedIn(h, key))
    ensures Follows(core, h)
  {
    hide DeliverAll, DeliveriesIn, EnqueuedIn, LastPut, AppendedIn, AsStored, StreamOf, TableAt;
  }

  lemma {:induction false} FinalOfDone(o: Outcome<Core>)
    ensures o.Done? ==> o.Final() == o.st && !StoredUnreduced(o)
  {
  }

  lemma {:induction false} FinalOfThrown(o: Outcome<Core>)
    ensures o.Threw? ==> o.Final() == o.left
  {
  }

  lemma {:induction false} StampAllStep(h: seq<Stamped>, at: int, ops: seq<Op>, op: Op)
    ensures h + StampAll(at, ops + [op]) == (h + StampAll(at, ops)) + [Stamped(at, op)]
  {
    assert StampAll(at, ops + [op]) == StampAll(at, ops) + [Stamped(at, op)];
  }

  lemma {:induction false} OpFollows(locale: Leq<Ref>, core: Core, at: int, op: Op, h: seq<Stamped>)
    requires Follows(core, h)
    ensures var o := ApplyCore(locale, core, at, op);
      Follows(o.Final(), if o.Done? || StoredUnreduced(o) then h + [Stamped(at, op)] else h)
  {
    hide Follows, ApplyCore, StoredUnreduced;
    if op.AppendEvents? {
      AppendFollows(locale, core, at, op, h);
    } else {
      OtherFollows(locale, core, at, op, h);
    }
  }

  lemma {:induction false} EffectiveStep(locale: Leq<Ref>, core: Core, at: int, ops: seq<Op>)
    requires ops != []
    ensures var front, op := ops[..|ops| - 1], ops[|ops| - 1]; var before := CoreOps(locale, core, at, front);
      if before.Threw? then
        && CoreOps(locale, core, at, ops) == before
        && Effective(locale, core, at, ops) == Effective(locale, core, at, front)
      else
        var o := ApplyCore(locale, before.st, at, op);
        && CoreOps(locale, core, at, ops) == o
        && Effective(locale, core, at, ops)
           == if o.Done? || StoredUnreduced(o) then Effective(locale, core, at, front) + [op]
              else Effective(locale, core, at, front)
  {
    hide ApplyCore;
  }

  lemma {:induction false} OpsFollow(locale: Leq<Ref>, core: Core, at: int, ops: seq<Op>, h: seq<Stamped>)
    requires Follows(core, h)
    ensures Follows(CoreOps(locale, core, at, ops).Final(), h + StampAll(at, Effective(locale, core, at, ops)))
  {
    if ops == [] {
      assert h + StampAll(at, []) == h;
    } else {
      hide *;
      var front, op := ops[..|ops| - 1], ops[|ops| - 1];
      OpsFollow(locale, core, at, front, h);
      EffectiveStep(locale, core, at, ops);
      var before, done := CoreOps(locale, core, at, front), Effective(locale, core, at, front);
      if before.Done? {
        FinalOfDone(before);
        OpFollows(locale, before.st, at, op, h + StampAll(at, done));
        StampAllStep(h, at, done, op);
      }
    }
  }

  /** Over any history of records, the failing ones included: the emergency state is that of the events delivered in the
      order of the records, each with its record's time; a table row holds the value last put into it; the outbox holds
      the messages in the order in which they were enqueued; and a stream is its batches one after the other. */
  lemma {:induction false} StateFollowsHistory(locale: Leq<Ref>, records: seq<Record>)
    ensures Follows(CoreHistory(locale, records), History(locale, records))
  {
    if records == [] {
      assert forall key :: StreamOf(EMPTY_CORE, key) == [] == AsStored(key, []);
    } else {
      hide CoreOps, Follows, Effective;
      var n := |records| - 1;
      StateFollowsHistory(locale, records[..n]);
      OpsFollow(locale, CoreHistory(locale, records[..n]), records[n].at, records[n].ops,
        History(locale, records[..n]));
    }
  }

  // ----- what blocks after a history of commits -----

  /** After any history of records, what blocks a query is decided by the emergency events that took effect: a control
      blocks exactly when the query is about it and the last accepted event that touched it was not a resume. */
  lemma {:induction false} CommittedBlocksIff(locale: Leq<Ref>, records: seq<Record>, q: Query, k: Key)
    ensures var st := CoreHistory(locale, records).emergency;
      var h := Filter(Touching(k), Accepted(DeliveriesIn(History(locale, records))));
      && StateValid(st)
      && (k in st.controls && Covers(q, st.controls[k]) <==>
            && k.tenant == q.tenant && AsksAbout(q, k.scope)
            && (q.controlTypes.Some? ==> k.control in q.controlTypes.value)
            && h != [] && !h[|h| - 1].action.Resume?)
  {
    StateFollowsHistory(locale, records);
    hide CoreHistory, History, DeliveriesIn, StateValid, Covers, AsksAbout, Filter, Accepted, Touching, DeliverAll;
    CoversIff(DeliveriesIn(History(locale, records)), q, k);
    DeliveriesKeepStateValid(DeliveriesIn(History(locale, records)));
  }

  /** Whatever came before, committing the activation of a control under a new event id leaves that control active. */
  lemma {:induction false} CommittedActivationIsActive(locale: Leq<Ref>, records: seq<Record>, at: int, tenant: Tenant,
      event: Event)
    requires event.action.Activate?
    requires (tenant, event.eventId) !in CoreHistory(locale, records).emergency.events
    ensures var st := CoreHistory(locale, records + [Record(at, [EmergencyEvent(tenant, event)])]).emergency;
      var k := Key(tenant, event.scope, event.controlType.GetOr(event.action.control));
      k in st.controls && st.controls[k].active && st.controls[k].lastEventId == event.eventId
  {
    var op := EmergencyEvent(tenant, event);
    var r, core := Record(at, [op]), CoreHistory(locale, records);
    assert (records + [r])[..|records|] == records;
    assert [op][..0] == [];
    assert CoreOps(locale, core, at, []) == Done(core);
    assert CoreOps(locale, core, at, [op]) == ApplyCore(locale, core, at, op);
    var s := Normalize(tenant, event, at);
    PutOne(core.emergency.(events := core.emergency.events[(tenant, s.eventId) := s]), s, s.controlType.value);
    hide PutAll, CoreOps;
  }
}
