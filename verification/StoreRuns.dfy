/** What holds of streams and run snapshots over every history of records, the failing ones included. */
module StoreRuns {
  import opened Wrappers
  import opened Sequences
  import opened Ordering
  import opened AgentRuns
  import opened Emergency
  import opened Ledgers
  import opened StoreModel
  import opened Recovery

  /** The core after any history: a record that throws leaves the state
      as far as it came, and the next record goes on from there. */
  function CoreHistory(locale: Leq<Ref>, records: seq<Record>): Core {
    if records == [] then EMPTY_CORE
    else
      var r := records[|records| - 1];
      CoreOps(locale, CoreHistory(locale, records[..|records| - 1]), r.at, r.ops).Final()
  }

  /** Draining never touches what operations read. */
  lemma {:induction false} DrainKeepsCore(st: StoreState, max: nat)
    ensures Drain(st, max).Final().core == st.core
    decreases max
  {
    if max > 0 && st.effects.cursor < |st.core.outbox| {
      var one := DrainOne(st);
      if one.Done? {
        DrainKeepsCore(one.st, max - 1);
      }
    }
  }

  /** One commit, successful or not, moves the core as the record's operations do. */
  lemma {:induction false} CommitMovesCore(locale: Leq<Ref>, st: StoreState, r: Record)
    ensures Commit(locale, st, r).Final().core == CoreOps(locale, st.core, r.at, r.ops).Final()
  {
    OpsSplit(locale, st, r.at, r.ops);
    hide CoreOps, Drain;
    var applied := ApplyOps(locale, st, r.at, r.ops);
    hide ApplyOps;
    if applied.Done? {
      var pending := if applied.st.effects.cursor <= |applied.st.core.outbox|
        then |applied.st.core.outbox| - applied.st.effects.cursor else 0;
      DrainKeepsCore(applied.st, pending);
    }
  }

  // ----- streams stay linked -----

  lemma {:induction false} LinkedConcat(head: Option<Hash>, xs: seq<RunEvent>, ys: seq<RunEvent>)
    requires LinkedFrom(head, xs) && LinkedFrom(if xs == [] then head else HeadHash(xs), ys)
    ensures LinkedFrom(head, xs + ys)
  {
    var whole := xs + ys;
    forall i | 0 < i < |whole| ensures whole[i].prevChainHash == whole[i - 1].chainHash {
      if i > |xs| {
        assert whole[i] == ys[i - |xs|] && whole[i - 1] == ys[i - |xs| - 1];
      }
    }
  }

  lemma {:induction false} ExtendedLinks(key: StreamKey, existing: seq<RunEvent>, events: seq<RunEvent>)
    requires LinkedFrom(None, existing) && LinkedFrom(HeadHash(existing), events) && events != []
    ensures LinkedFrom(None, Extended(key, existing, events))
    ensures HeadHash(Extended(key, existing, events)) == events[|events| - 1].chainHash
  {
    if key.kind.AgentRunStream? {
      assert LinkedFrom(None, Tagged(existing)) && LinkedFrom(HeadHash(Tagged(existing)), Tagged(events));
      LinkedConcat(None, Tagged(existing), Tagged(events));
    } else {
      LinkedConcat(None, existing, events);
    }
  }

  /** An append touches its own stream and snapshot only. */
  lemma {:induction false} AppendFrame(locale: Leq<Ref>, core: Core, key: StreamKey, events: seq<RunEvent>,
      other: StreamKey)
    requires other != key
    ensures var after := ApplyAppend(locale, core, key, events).Final();
      && StreamOf(after, other) == StreamOf(core, other)
      && (other in after.runs <==> other in core.runs)
      && (other in core.runs ==> after.runs[other] == core.runs[other])
  {
    hide Reduce, LinkedFrom, Extended;
  }

  /** The stream after an append: extended exactly when the batch is nonempty and built on the head. */
  lemma {:induction false} AppendStream(locale: Leq<Ref>, core: Core, key: StreamKey, events: seq<RunEvent>)
    ensures var o := ApplyAppend(locale, core, key, events); var existing := StreamOf(core, key);
      if events != [] && LinkedFrom(HeadHash(existing), events)
        then StreamOf(o.Final(), key) == Extended(key, existing, events)
      else o.Threw? && o.left == core
  {
    hide Reduce, LinkedFrom, Extended;
  }

  lemma {:induction false} OpKeepsStream(locale: Leq<Ref>, core: Core, at: int, op: Op, key: StreamKey)
    requires !op.AppendEvents?
    ensures StreamOf(ApplyCore(locale, core, at, op).Final(), key) == StreamOf(core, key)
    ensures ApplyCore(locale, core, at, op).Final().runs == core.runs
  {
    hide Append;
  }

  lemma {:induction false} OpKeepsLinks(locale: Leq<Ref>, core: Core, at: int, op: Op, key: StreamKey)
    requires LinkedFrom(None, StreamOf(core, key))
    ensures LinkedFrom(None, StreamOf(ApplyCore(locale, core, at, op).Final(), key))
  {
    hide LinkedFrom, StreamOf, ApplyAppend, Extended, HeadHash;
    if !op.AppendEvents? {
      OpKeepsStream(locale, core, at, op, key);
    } else if op.key != key {
      AppendFrame(locale, core, op.key, op.events, key);
    } else {
      AppendStream(locale, core, key, op.events);
      if op.events != [] && LinkedFrom(HeadHash(StreamOf(core, key)), op.events) {
        ExtendedLinks(key, StreamOf(core, key), op.events);
      }
    }
  }

  lemma {:induction false} OpsKeepLinks(locale: Leq<Ref>, core: Core, at: int, ops: seq<Op>, key: StreamKey)
    requires LinkedFrom(None, StreamOf(core, key))
    ensures LinkedFrom(None, StreamOf(CoreOps(locale, core, at, ops).Final(), key))
  {
    if ops != [] {
      hide ApplyCore, LinkedFrom, StreamOf;
      OpsKeepLinks(locale, core, at, ops[..|ops| - 1], key);
      var front := CoreOps(locale, core, at, ops[..|ops| - 1]);
      OpKeepsLinks(locale, front.Final(), at, ops[|ops| - 1], key);
    }
  }

  /** Over any history of records, every stream is linked from a null head. */
  lemma {:induction false} StreamsStayLinked(locale: Leq<Ref>, records: seq<Record>, key: StreamKey)
    ensures LinkedFrom(None, StreamOf(CoreHistory(locale, records), key))
  {
    if records != [] {
      hide CoreOps, LinkedFrom, StreamOf;
      var n := |records| - 1;
      StreamsStayLinked(locale, records[..n], key);
      OpsKeepLinks(locale, CoreHistory(locale, records[..n]), records[n].at, records[n].ops, key);
    }
  }

  // ----- two appends built on the same head -----

  /** No batch for `key` in `ops` ends with the hash `h`. */
  ghost predicate NeverBackTo(ops: seq<Op>, key: StreamKey, h: Option<Hash>) {
    forall i :: 0 <= i < |ops| ==> KeepsAway(ops[i], key, h)
  }

  predicate KeepsAway(op: Op, key: StreamKey, h: Option<Hash>) {
    op.AppendEvents? && op.key == key && op.events != [] ==> op.events[|op.events| - 1].chainHash != h
  }

  lemma {:induction false} ExtendedHead(key: StreamKey, existing: seq<RunEvent>, events: seq<RunEvent>)
    requires events != []
    ensures HeadHash(Extended(key, existing, events)) == events[|events| - 1].chainHash
  {
  }

  lemma {:induction false} OpMovesHead(locale: Leq<Ref>, core: Core, at: int, op: Op, key: StreamKey, h: Option<Hash>)
    requires KeepsAway(op, key, h) && HeadHash(StreamOf(core, key)) != h
    ensures HeadHash(StreamOf(ApplyCore(locale, core, at, op).Final(), key)) != h
  {
    hide LinkedFrom, StreamOf, ApplyAppend, Extended, HeadHash;
    if !op.AppendEvents? {
      OpKeepsStream(locale, core, at, op, key);
    } else if op.key != key {
      AppendFrame(locale, core, op.key, op.events, key);
    } else {
      AppendStream(locale, core, key, op.events);
      if op.events != [] {
        ExtendedHead(key, StreamOf(core, key), op.events);
      }
    }
  }

  lemma {:induction false} OpsMoveHead(locale: Leq<Ref>, core: Core, at: int, ops: seq<Op>, key: StreamKey,
      h: Option<Hash>)
    requires NeverBackTo(ops, key, h) && HeadHash(StreamOf(core, key)) != h
    ensures HeadHash(StreamOf(CoreOps(locale, core, at, ops).Final(), key)) != h
  {
    if ops != [] {
      hide ApplyCore, StreamOf, HeadHash, KeepsAway;
      var n := |ops| - 1;
      assert NeverBackTo(ops[..n], key, h);
      OpsMoveHead(locale, core, at, ops[..n], key, h);
      OpMovesHead(locale, CoreOps(locale, core, at, ops[..n]).Final(), at, ops[n], key, h);
    }
  }

  /** Of two batches built on the same head, once the first is stored the second is refused, whatever is applied in
      between, as long as no stored batch ends with that head's own hash. */
  lemma {:induction false} SecondAppendOnSameHeadFails(locale: Leq<Ref>, core: Core, key: StreamKey,
      first: seq<RunEvent>, at: int, between: seq<Op>, second: seq<RunEvent>)
    requires first != [] && second != [] && LinkedFrom(HeadHash(StreamOf(core, key)), first)
    requires second[0].prevChainHash == first[0].prevChainHash
    requires first[|first| - 1].chainHash != first[0].prevChainHash && NeverBackTo(between, key, first[0].prevChainHash)
    ensures var later := CoreOps(locale, ApplyAppend(locale, core, key, first).Final(), at, between).Final();
      ApplyAppend(locale, later, key, second) == Threw(later, PrevChainHashMismatch)
  {
    AppendStream(locale, core, key, first);
    ExtendedHead(key, StreamOf(core, key), first);
    var stored := ApplyAppend(locale, core, key, first).Final();
    OpsMoveHead(locale, stored, at, between, key, first[0].prevChainHash);
    hide CoreOps, Reduce, StreamOf, HeadHash, NeverBackTo;
  }

  // ----- run snapshots -----

  function SnapshotOf(core: Core, key: StreamKey): Option<Run> {
    if key in core.runs then Some(core.runs[key]) else None
  }

  /** Where the stored stream reduces, the snapshot is its reduction. */
  predicate SnapshotFresh(locale: Leq<Ref>, core: Core, key: StreamKey) {
    Reduce(locale, StreamOf(core, key)).Success? ==> SnapshotOf(core, key) == Reduce(locale, StreamOf(core, key)).value
  }

  lemma {:induction false} TagIgnored(locale: Leq<Ref>, run: Option<Run>, ev: RunEvent)
    ensures ApplyEvent(locale, run, ev.(schemaTagged := true)) == ApplyEvent(locale, run, ev)
  {
    hide AddRef;
  }

  lemma {:induction false} TaggingKeepsReduction(locale: Leq<Ref>, run: Option<Run>, events: seq<RunEvent>)
    ensures ReduceFrom(locale, run, Tagged(events)) == ReduceFrom(locale, run, events)
  {
    if events != [] {
      hide ReduceFrom, ApplyEvent;
      var n := |events| - 1;
      TaggingKeepsReduction(locale, run, events[..n]);
      assert Tagged(events) == Tagged(events[..n]) + [events[n].(schemaTagged := true)];
      assert events == events[..n] + [events[n]];
      ReduceStep(locale, run, Tagged(events[..n]), events[n].(schemaTagged := true));
      ReduceStep(locale, run, events[..n], events[n]);
      if ReduceFrom(locale, run, events[..n]).Success? {
        TagIgnored(locale, ReduceFrom(locale, run, events[..n]).value, events[n]);
      }
    }
  }

  /** The reduction of the extended stream is the fold of the new events from the old stream's run. */
  lemma {:induction false} ExtendedReduces(locale: Leq<Ref>, key: StreamKey, existing: seq<RunEvent>,
      events: seq<RunEvent>)
    requires key.kind.AgentRunStream?
    ensures Reduce(locale, Extended(key, existing, events))
      == (var before := Reduce(locale, existing);
        if before.Failure? then before else ReduceFrom(locale, before.value, events))
  {
    ReduceConcat(locale, None, Tagged(existing), Tagged(events));
    TaggingKeepsReduction(locale, None, existing);
    if Reduce(locale, existing).Success? {
      TaggingKeepsReduction(locale, Reduce(locale, existing).value, events);
    }
  }

  /** A nonempty batch never reduces to nothing. */
  lemma {:induction false} ReducedToSome(locale: Leq<Ref>, run: Option<Run>, events: seq<RunEvent>)
    requires events != []
    ensures ReduceFrom(locale, run, events).Success? ==> ReduceFrom(locale, run, events).value.Some?
  {
  }

  lemma {:induction false} AppendSnapshot(locale: Leq<Ref>, core: Core, key: StreamKey, events: seq<RunEvent>)
    requires key.kind.AgentRunStream? && events != [] && LinkedFrom(HeadHash(StreamOf(core, key)), events)
    ensures var o := ApplyAppend(locale, core, key, events);
      var run := Reduce(locale, Extended(key, StreamOf(core, key), events));
      && (o.Done? <==> run.Success?)
      && (o.Done? ==> SnapshotOf(o.st, key) == run.value)
      && (o.Threw? ==> o.left.runs == core.runs)
  {
    ReducedToSome(locale, None, Extended(key, StreamOf(core, key), events));
    hide ReduceFrom, LinkedFrom, Extended, StreamOf;
  }

  lemma {:induction false} OpKeepsSnapshot(locale: Leq<Ref>, core: Core, at: int, op: Op, key: StreamKey)
    requires key.kind.AgentRunStream? && SnapshotFresh(locale, core, key)
    ensures SnapshotFresh(locale, ApplyCore(locale, core, at, op).Final(), key)
  {
    hide LinkedFrom, StreamOf, ApplyAppend, Extended, HeadHash, Reduce;
    if !op.AppendEvents? {
      OpKeepsStream(locale, core, at, op, key);
    } else if op.key != key {
      AppendFrame(locale, core, op.key, op.events, key);
    } else {
      AppendStream(locale, core, key, op.events);
      if op.events != [] && LinkedFrom(HeadHash(StreamOf(core, key)), op.events) {
        AppendSnapshot(locale, core, key, op.events);
      }
    }
  }

  lemma {:induction false} OpsKeepSnapshot(locale: Leq<Ref>, core: Core, at: int, ops: seq<Op>, key: StreamKey)
    requires key.kind.AgentRunStream? && SnapshotFresh(locale, core, key)
    ensures SnapshotFresh(locale, CoreOps(locale, core, at, ops).Final(), key)
  {
    if ops != [] {
      hide ApplyCore, SnapshotFresh;
      OpsKeepSnapshot(locale, core, at, ops[..|ops| - 1], key);
      OpKeepsSnapshot(locale, CoreOps(locale, core, at, ops[..|ops| - 1]).Final(), at, ops[|ops| - 1], key);
    }
  }

  /** Over any history, a run whose stored stream reduces is stored as exactly that reduction. */
  lemma {:induction false} SnapshotsAreReductions(locale: Leq<Ref>, records: seq<Record>, key: StreamKey)
    requires key.kind.AgentRunStream?
    ensures SnapshotFresh(locale, CoreHistory(locale, records), key)
  {
    if records == [] {
      assert SnapshotOf(EMPTY_CORE, key) == None;
    } else {
      hide CoreOps, SnapshotFresh;
      var n := |records| - 1;
      SnapshotsAreReductions(locale, records[..n], key);
      OpsKeepSnapshot(locale, CoreHistory(locale, records[..n]), records[n].at, records[n].ops, key);
    }
  }

  lemma {:induction false} OpsReduce(locale: Leq<Ref>, core: Core, at: int, ops: seq<Op>, key: StreamKey)
    requires key.kind.AgentRunStream? && Reduce(locale, StreamOf(core, key)).Success?
      && CoreOps(locale, core, at, ops).Done?
    ensures Reduce(locale, StreamOf(CoreOps(locale, core, at, ops).st, key)).Success?
  {
    if ops != [] {
      hide StreamOf, ApplyAppend, Extended, HeadHash, Reduce, LinkedFrom;
      var front, op := CoreOps(locale, core, at, ops[..|ops| - 1]), ops[|ops| - 1];
      OpsReduce(locale, core, at, ops[..|ops| - 1], key);
      if !op.AppendEvents? {
        OpKeepsStream(locale, front.st, at, op, key);
      } else if op.key != key {
        AppendFrame(locale, front.st, op.key, op.events, key);
      } else {
        AppendStream(locale, front.st, key, op.events);
        AppendSnapshot(locale, front.st, key, op.events);
      }
    }
  }

  /** After any run of successful commits every run stream reduces, so every stored run is the reduction of its stream,
      in the live store and in the restarted one alike. */
  lemma {:induction false} LiveSnapshotsAreReductions(locale: Leq<Ref>, records: seq<Record>, key: StreamKey)
    requires key.kind.AgentRunStream? && Live(locale, records).Done?
    ensures Restart(locale, records).Done? && Restart(locale, records).st.core == Live(locale, records).st.core
    ensures Reduce(locale, StreamOf(Live(locale, records).st.core, key))
      == Success(SnapshotOf(Live(locale, records).st.core, key))
  {
    RestartEqualsLive(locale, records);
    LiveIs(locale, records);
    hide Live, Restart, LiveAttempts, RestartAttempts, CoreOps;
    SuccessfulHistory(locale, records, key);
    SnapshotsAreReductions(locale, records, key);
  }

  lemma {:induction false} SuccessfulHistory(locale: Leq<Ref>, records: seq<Record>, key: StreamKey)
    requires key.kind.AgentRunStream? && CoreAfter(locale, records).Done?
    ensures CoreHistory(locale, records) == CoreAfter(locale, records).st
    ensures Reduce(locale, StreamOf(CoreAfter(locale, records).st, key)).Success?
  {
    if records != [] {
      hide CoreOps, StreamOf, Reduce;
      var n := |records| - 1;
      SuccessfulHistory(locale, records[..n], key);
      OpsReduce(locale, CoreAfter(locale, records[..n]).st, records[n].at, records[n].ops, key);
    }
  }

  /** An accepted append continues the fold from the stored run: incremental and full reduction agree. */
  lemma {:induction false} AppendContinuesFold(locale: Leq<Ref>, core: Core, key: StreamKey, events: seq<RunEvent>)
    requires key.kind.AgentRunStream? && Reduce(locale, StreamOf(core, key)) == Success(SnapshotOf(core, key))
    requires events != [] && LinkedFrom(HeadHash(StreamOf(core, key)), events)
    ensures var o := ApplyAppend(locale, core, key, events);
      var run := ReduceFrom(locale, SnapshotOf(core, key), events);
      && (o.Done? <==> run.Success?)
      && (o.Done? ==> SnapshotOf(o.st, key) == run.value)
      && (o.Threw? ==> o.left.runs == core.runs)
  {
    AppendSnapshot(locale, core, key, events);
    ExtendedReduces(locale, key, StreamOf(core, key), events);
    hide Reduce, LinkedFrom, Extended, StreamOf;
  }

  /** Once a batch that does not reduce has been stored, every later
      append to that run throws, and its snapshot stays as it was. */
  lemma {:induction false} PoisonedStreamStaysPoisoned(locale: Leq<Ref>, core: Core, key: StreamKey,
      events: seq<RunEvent>)
    requires key.kind.AgentRunStream? && Reduce(locale, StreamOf(core, key)).Failure?
    ensures var o := ApplyAppend(locale, core, key, events);
      && o.Threw? && o.left.runs == core.runs
      && Reduce(locale, StreamOf(o.left, key)) == Reduce(locale, StreamOf(core, key))
  {
    AppendStream(locale, core, key, events);
    if events != [] && LinkedFrom(HeadHash(StreamOf(core, key)), events) {
      AppendSnapshot(locale, core, key, events);
      ExtendedReduces(locale, key, StreamOf(core, key), events);
    }
    hide Reduce, LinkedFrom, Extended, StreamOf;
  }

  /** One logged batch that starts a run nobody created: the commit throws,
      the event stays stored, and the stream can never be reduced. */
  lemma {:induction false} StartWithoutCreationPoisons(locale: Leq<Ref>)
    ensures var key := StreamKey(AgentRunStream, Tenant(0), Id(0));
      var started := RunEvent(true, RunId(0), 0, None, None, Some(Hash(0)), RunStarted(RunId(0)));
      var r := Record(0, [AppendEvents(key, [started])]);
      && Commit(locale, EMPTY_STORE, r).Threw?
      && StreamOf(CoreHistory(locale, [r]), key) == [started]
      && Reduce(locale, [started]) == Failure(MissingCreated)
  {
    var key := StreamKey(AgentRunStream, Tenant(0), Id(0));
    var started := RunEvent(true, RunId(0), 0, None, None, Some(Hash(0)), RunStarted(RunId(0)));
    var op := AppendEvents(key, [started]);
    var r := Record(0, [op]);
    assert [started][..0] == [] && [op][..0] == [] && [r][..0] == [];
    assert Reduce(locale, []) == Success(None);
    assert Reduce(locale, [started]) == Failure(MissingCreated);
    assert Extended(key, [], [started]) == [started];
    AppendSnapshot(locale, EMPTY_CORE, key, [started]);
    AppendStream(locale, EMPTY_CORE, key, [started]);
    hide Reduce, Extended, ApplyAppend, LinkedFrom;
    assert CoreOps(locale, EMPTY_CORE, 0, []) == Done(EMPTY_CORE);
    assert CoreOps(locale, EMPTY_CORE, 0, r.ops) == ApplyAppend(locale, EMPTY_CORE, key, [started]);
    OpsSplit(locale, EMPTY_STORE, 0, r.ops);
  }
}
