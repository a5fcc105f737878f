/** The event-sourced store: what one operation, one record and one drain of the outbox do to its state. */
module StoreModel {
  import opened Wrappers
  import opened Sequences
  import opened Ordering
  import opened AgentRuns
  import opened Emergency
  import opened Ledgers

  datatype StreamKind = JobStream | RobotStream | OperatorStream | AgentRunStream | SessionStream | MonthStream

  datatype StreamKey = StreamKey(kind: StreamKind, tenant: Tenant, id: Id)

  datatype TableKey = TableKey(table: int, key: int)

  /** An outbox message; a ledger message without an entry id cannot be applied. */
  datatype Message =
    | LedgerApply(tenant: Tenant, entry: Option<Entry>)
    | Notify(topic: int, tenant: Tenant, payload: int)
    | ForOtherWorkers(body: int)

  datatype Notification = Notification(outboxIndex: nat, topic: int, tenant: Tenant, payload: int)

  /** `PutRow` stands for the operations that write one table row computed from the operation alone. */
  datatype Op =
    | AppendEvents(key: StreamKey, events: seq<RunEvent>)
    | EmergencyEvent(tenant: Tenant, event: Event)
    | LedgerEntryApplied(tenant: Tenant, entry: Option<Entry>)
    | OutboxEnqueue(messages: seq<Message>)
    | PutRow(row: TableKey, value: int)
    | UnknownOp

  datatype Record = Record(at: int, ops: seq<Op>)

  /** The part of the state that operations read. */
  datatype Core = Core(streams: map<StreamKey, seq<RunEvent>>, runs: map<StreamKey, Run>, emergency: State,
    tables: map<TableKey, int>, outbox: seq<Message>)

  datatype Effects = Effects(cursor: nat, ledger: Ledger, notifications: seq<Notification>)

  datatype StoreState = StoreState(core: Core, effects: Effects)

  datatype StoreError = PrevChainHashMismatch | ReducerFailed(reason: RunError) | EmergencyConflict | BadOperation
      | EntryIdMissing

  /** A step either finishes or throws and leaves the state as far as it came. */
  datatype Outcome<S> = Done(st: S) | Threw(left: S, error: StoreError) {
    function Final(): S {
      if Done? then st else left
    }
  }

  const EMPTY_CORE: Core := Core(map[], map[], EMPTY, map[], [])

  const EMPTY_STORE: StoreState := StoreState(EMPTY_CORE, Effects(0, NO_ENTRIES, []))

  // ----- operations -----

  function StreamOf(core: Core, key: StreamKey): seq<RunEvent> {
    if key in core.streams then core.streams[key] else []
  }

  function HeadHash(stream: seq<RunEvent>): Option<Hash> {
    if stream == [] then None else stream[|stream| - 1].chainHash
  }

  predicate LinkedFrom(head: Option<Hash>, events: seq<RunEvent>) {
    && (events != [] ==> events[0].prevChainHash == head)
    && forall i :: 0 < i < |events| ==> events[i].prevChainHash == events[i - 1].chainHash
  }

  function Tagged(events: seq<RunEvent>): (r: seq<RunEvent>)
    ensures |r| == |events| && forall i :: 0 <= i < |events| ==> r[i] == events[i].(schemaTagged := true)
  {
    seq(|events|, i requires 0 <= i < |events| => events[i].(schemaTagged := true))
  }

  function Extended(key: StreamKey, existing: seq<RunEvent>, events: seq<RunEvent>): seq<RunEvent> {
    if key.kind.AgentRunStream? then Tagged(existing) + Tagged(events) else existing + events
  }

  /** Appends a batch built on the current head; the events of a run are stored before they are reduced. */
  function ApplyAppend(locale: Leq<Ref>, core: Core, key: StreamKey, events: seq<RunEvent>): Outcome<Core> {
    var existing := StreamOf(core, key);
    if events == [] then Threw(core, BadOperation)
    else if !LinkedFrom(HeadHash(existing), events) then Threw(core, PrevChainHashMismatch)
    else
      var next := Extended(key, existing, events);
      var stored := core.(streams := core.streams[key := next]);
      if !key.kind.AgentRunStream? then Done(stored)
      else
        var run := Reduce(locale, next);
        if run.Failure? then Threw(stored, ReducerFailed(run.error))
        else if run.value.None? then Done(stored)
        else Done(stored.(runs := stored.runs[key := run.value.value]))
  }

  function ApplyCore(locale: Leq<Ref>, core: Core, at: int, op: Op): Outcome<Core> {
    match op
    case AppendEvents(key, events) => ApplyAppend(locale, core, key, events)
    case EmergencyEvent(tenant, event) =>
      var r := Append(core.emergency, tenant, event, at);
      if r.Success? then Done(core.(emergency := r.value)) else Threw(core, EmergencyConflict)
    case LedgerEntryApplied(_, entry) => if entry.Some? then Done(core) else Threw(core, EntryIdMissing)
    case OutboxEnqueue(messages) => Done(core.(outbox := core.outbox + messages))
    case PutRow(key, value) => Done(core.(tables := core.tables[key := value]))
    case UnknownOp => Threw(core, BadOperation)
  }

  /** The ledger entries an operation applies at once. */
  function Direct(op: Op): seq<Attempt> {
    if op.LedgerEntryApplied? && op.entry.Some? then [Attempt(op.tenant, op.entry.value)] else []
  }

  function ApplyOp(locale: Leq<Ref>, st: StoreState, at: int, op: Op): Outcome<StoreState> {
    var core := ApplyCore(locale, st.core, at, op);
    if core.Threw? then Threw(st.(core := core.left), core.error)
    else Done(StoreState(core.st, st.effects.(ledger := PostAll(st.effects.ledger, Direct(op)))))
  }

  function ApplyOps(locale: Leq<Ref>, st: StoreState, at: int, ops: seq<Op>): Outcome<StoreState> {
    if ops == [] then Done(st)
    else
      var front := ApplyOps(locale, st, at, ops[..|ops| - 1]);
      if front.Threw? then front else ApplyOp(locale, front.st, at, ops[|ops| - 1])
  }

  // ----- the outbox -----

  /** Processes the message at the cursor; the cursor moves even when the message cannot be applied. */
  function DrainOne(st: StoreState): Outcome<StoreState>
    requires st.effects.cursor < |st.core.outbox|
  {
    var c := st.effects.cursor;
    var moved := st.effects.(cursor := c + 1);
    match st.core.outbox[c]
    case LedgerApply(tenant, entry) =>
      if entry.None? then Threw(st.(effects := moved), EntryIdMissing)
      else Done(st.(effects := moved.(ledger := Post(moved.ledger, Attempt(tenant, entry.value)))))
    case Notify(topic, tenant, payload) =>
      Done(st.(effects := moved.(notifications := moved.notifications + [Notification(c, topic, tenant, payload)])))
    case ForOtherWorkers(_) => Done(st.(effects := moved))
  }

  /** Drains up to `max` messages. */
  function Drain(st: StoreState, max: nat): Outcome<StoreState>
    decreases max
  {
    if max == 0 || st.effects.cursor >= |st.core.outbox| then Done(st)
    else
      var one := DrainOne(st);
      if one.Threw? then one else Drain(one.st, max - 1)
  }

  function DrainFully(st: StoreState): Outcome<StoreState> {
    Drain(st, if st.effects.cursor <= |st.core.outbox| then |st.core.outbox| - st.effects.cursor else 0)
  }

  // ----- commits, runs of commits, and restart -----

  function Commit(locale: Leq<Ref>, st: StoreState, r: Record): Outcome<StoreState> {
    var applied := ApplyOps(locale, st, r.at, r.ops);
    if applied.Threw? then applied else DrainFully(applied.st)
  }

  /** A run in which every commit succeeds; the first failure ends it. */
  function Live(locale: Leq<Ref>, records: seq<Record>): Outcome<StoreState> {
    if records == [] then Done(EMPTY_STORE)
    else
      var front := Live(locale, records[..|records| - 1]);
      if front.Threw? then front else Commit(locale, front.st, records[|records| - 1])
  }

  function ReplayRecords(locale: Leq<Ref>, records: seq<Record>): Outcome<StoreState> {
    if records == [] then Done(EMPTY_STORE)
    else
      var front := ReplayRecords(locale, records[..|records| - 1]);
      if front.Threw? then front
      else ApplyOps(locale, front.st, records[|records| - 1].at, records[|records| - 1].ops)
  }

  /** Start-up: every record is applied, then the outbox is drained once. */
  function Restart(locale: Leq<Ref>, records: seq<Record>): Outcome<StoreState> {
    var replayed := ReplayRecords(locale, records);
    if replayed.Threw? then replayed else DrainFully(replayed.st)
  }
}

/** The store object itself. */
module Store {
  import opened Wrappers
  import opened Sequences
  import opened Ordering
  import opened AgentRuns
  import opened Emergency
  import opened Ledgers
  import opened StoreModel

  /** The loop that compares each event with its predecessor. */
  method CheckLinks(head: Option<Hash>, events: seq<RunEvent>) returns (ok: bool)
    requires events != []
    ensures ok == LinkedFrom(head, events)
  {
    if events[0].prevChainHash != head {
      return false;
    }
    for i := 1 to |events|
      invariant LinkedFrom(head, events[..i])
    {
      if events[i].prevChainHash != events[i - 1].chainHash {
        return false;
      }
    }
    assert events[..|events|] == events;
    ok := true;
  }

  class EventStore {
    const locale: Leq<Ref>
    var log: seq<Record>
    var streams: map<StreamKey, seq<RunEvent>>
    var runs: map<StreamKey, Run>
    var emergency: State
    var tables: map<TableKey, int>
    var outbox: seq<Message>
    var outboxCursor: nat
    var ledger: Ledger
    var notifications: seq<Notification>

    ghost function Snapshot(): StoreState
      reads this
    {
      StoreState(Core(streams, runs, emergency, tables, outbox), Effects(outboxCursor, ledger, notifications))
    }

    /** A fresh store over an empty log. */
    constructor (locale: Leq<Ref>)
      ensures this.locale == locale && log == [] && Snapshot() == EMPTY_STORE
    {
      this.locale := locale;
      log, streams, runs, emergency, tables := [], map[], map[], EMPTY, map[];
      outbox, outboxCursor, ledger, notifications := [], 0, NO_ENTRIES, [];
    }

    method AppendToStream(key: StreamKey, events: seq<RunEvent>) returns (error: Option<StoreError>)
      modifies this`streams, this`runs
      ensures var o := ApplyAppend(locale, old(Snapshot()).core, key, events);
        Snapshot().core == o.Final() && error == if o.Done? then None else Some(o.error)
    {
      if events == [] {
        return Some(BadOperation);
      }
      var existing := if key in streams then streams[key] else [];
      var linked := CheckLinks(HeadHash(existing), events);
      if !linked {
        return Some(PrevChainHashMismatch);
      }
      var next := Extended(key, existing, events);
      streams := streams[key := next];
      if key.kind.AgentRunStream? {
        var run := ReduceAgentRun(locale, next);
        if run.Failure? {
          return Some(ReducerFailed(run.error));
        }
        if run.value.Some? {
          runs := runs[key := run.value.value];
        }
      }
      error := None;
    }

    method ApplyOperation(at: int, op: Op) returns (error: Option<StoreError>)
      modifies this`streams, this`runs, this`emergency, this`tables, this`outbox, this`ledger
      ensures var o := ApplyOp(locale, old(Snapshot()), at, op);
        Snapshot() == o.Final() && error == if o.Done? then None else Some(o.error)
    {
      error := None;
      match op {
        case AppendEvents(key, events) =>
          error := AppendToStream(key, events);
        case EmergencyEvent(tenant, event) =>
          var r := RecordEvent(emergency, tenant, event, at);
          if r.Failure? {
            return Some(EmergencyConflict);
          }
          emergency := r.value;
        case LedgerEntryApplied(tenant, entry) =>
          if entry.None? {
            return Some(EntryIdMissing);
          }
          PostOne(ledger, Attempt(tenant, entry.value));
          ledger := ApplyJournalEntry(ledger, Attempt(tenant, entry.value));
        case OutboxEnqueue(messages) =>
          outbox := outbox + messages;
        case PutRow(key, value) =>
          tables := tables[key := value];
        case UnknownOp =>
          error := Some(BadOperation);
      }
    }

    method ApplyTxRecord(r: Record) returns (error: Option<StoreError>)
      modifies this`streams, this`runs, this`emergency, this`tables, this`outbox, this`ledger
      ensures var o := ApplyOps(locale, old(Snapshot()), r.at, r.ops);
        Snapshot() == o.Final() && error == if o.Done? then None else Some(o.error)
    {
      error := None;
      for i := 0 to |r.ops|
        invariant error.None? && ApplyOps(locale, old(Snapshot()), r.at, r.ops[..i]) == Done(Snapshot())
      {
        hide ApplyOp;
        PrefixStep(r.ops, i);
        error := ApplyOperation(r.at, r.ops[i]);
        if error.Some? {
          ThrowStays(locale, old(Snapshot()), r.at, r.ops, i + 1);
          return;
        }
      }
      assert r.ops[..|r.ops|] == r.ops;
    }

    method ProcessOutbox(max: nat) returns (error: Option<StoreError>)
      modifies this`outboxCursor, this`ledger, this`notifications
      ensures var o := Drain(old(Snapshot()), max);
        Snapshot() == o.Final() && error == if o.Done? then None else Some(o.error)
    {
      var processed := 0;
      while outboxCursor < |outbox| && processed < max
        invariant processed <= max
        invariant Drain(old(Snapshot()), max) == Drain(Snapshot(), max - processed)
        decreases max - processed
      {
        var message := outbox[outboxCursor];
        outboxCursor := outboxCursor + 1;
        processed := processed + 1;
        match message {
          case LedgerApply(tenant, entry) =>
            if entry.None? {
              return Some(EntryIdMissing);
            }
            ledger := ApplyJournalEntry(ledger, Attempt(tenant, entry.value));
          case Notify(topic, tenant, payload) =>
            notifications := notifications + [Notification(outboxCursor - 1, topic, tenant, payload)];
          case ForOtherWorkers(_) =>
        }
      }
      error := None;
    }

    /** The record is logged before it is applied, so a record that throws stays in the log. */
    method CommitTx(r: Record) returns (error: Option<StoreError>)
      modifies this
      ensures r.ops == [] ==> error == Some(BadOperation) && Snapshot() == old(Snapshot()) && log == old(log)
      ensures r.ops != [] ==>
        var o := Commit(locale, old(Snapshot()), r);
        log == old(log) + [r] && Snapshot() == o.Final() && error == if o.Done? then None else Some(o.error)
    {
      if r.ops == [] {
        return Some(BadOperation);
      }
      log := log + [r];
      error := ApplyTxRecord(r);
      if error.Some? {
        return;
      }
      var pending := if outboxCursor <= |outbox| then |outbox| - outboxCursor else 0;
      error := ProcessOutbox(pending);
    }

    /** Start-up over a stored log; a record that throws aborts it. */
    method Recover(records: seq<Record>) returns (error: Option<StoreError>)
      requires Snapshot() == EMPTY_STORE
      modifies this
      ensures var o := Restart(locale, records);
        log == records && Snapshot() == o.Final() && error == if o.Done? then None else Some(o.error)
    {
      hide ApplyOps, Drain;
      log := records;
      error := None;
      for i := 0 to |records|
        invariant error.None? && log == records && ReplayRecords(locale, records[..i]) == Done(Snapshot())
      {
        PrefixStep(records, i);
        error := ApplyTxRecord(records[i]);
        if error.Some? {
          ReplayThrowStays(locale, records, i + 1);
          return;
        }
      }
      assert records[..|records|] == records;
      var pending := if outboxCursor <= |outbox| then |outbox| - outboxCursor else 0;
      error := ProcessOutbox(pending);
    }
  }

  lemma {:induction false} PostOne(l: Ledger, x: Attempt)
    ensures PostAll(l, [x]) == Post(l, x)
  {
    assert [x][..0] == [];
  }

  lemma {:induction false} ThrowStays(locale: Leq<Ref>, st: StoreState, at: int, ops: seq<Op>, k: nat)
    requires k <= |ops| && ApplyOps(locale, st, at, ops[..k]).Threw?
    ensures ApplyOps(locale, st, at, ops) == ApplyOps(locale, st, at, ops[..k])
    decreases |ops|
  {
    hide ApplyOp;
    if k == |ops| {
      assert ops[..k] == ops;
    } else {
      var n := |ops| - 1;
      assert ops[..n][..k] == ops[..k];
      ThrowStays(locale, st, at, ops[..n], k);
    }
  }

  lemma {:induction false} ReplayThrowStays(locale: Leq<Ref>, records: seq<Record>, k: nat)
    requires k <= |records| && ReplayRecords(locale, records[..k]).Threw?
    ensures ReplayRecords(locale, records) == ReplayRecords(locale, records[..k])
    decreases |records|
  {
    hide ApplyOps;
    if k == |records| {
      assert records[..k] == records;
    } else {
      var n := |records| - 1;
      assert records[..n][..k] == records[..k];
      ReplayThrowStays(locale, records[..n], k);
    }
  }
}
