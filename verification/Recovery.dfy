/** Restarting from the log compared with the live store, and what holds over every history of commits. */
module Recovery {
  import opened Wrappers
  import opened Sequences
  import opened Numbers
  import opened Ordering
  import opened AgentRuns
  import opened Emergency
  import opened Ledgers
  import opened StoreModel
  import Store

  // ----- what a successful drain does -----

  predicate Broken(m: Message) {
    m.LedgerApply? && m.entry.None?
  }

  /** Every ledger message carries an entry id. */
  predicate Deliverable(messages: seq<Message>) {
    forall i :: 0 <= i < |messages| ==> !Broken(messages[i])
  }

  lemma {:induction false} DeliverableConcat(xs: seq<Message>, ys: seq<Message>)
    ensures Deliverable(xs + ys) <==> Deliverable(xs) && Deliverable(ys)
  {
    hide Broken;
    if Deliverable(xs + ys) {
      forall i | 0 <= i < |xs| ensures !Broken(xs[i]) {
        assert (xs + ys)[i] == xs[i];
      }
      forall i | 0 <= i < |ys| ensures !Broken(ys[i]) {
        assert (xs + ys)[|xs| + i] == ys[i];
      }
    }
  }

  function QueuedIn(messages: seq<Message>): seq<Attempt> {
    if messages == [] then []
    else
      var m := messages[|messages| - 1];
      QueuedIn(messages[..|messages| - 1]) +
      if m.LedgerApply? && m.entry.Some? then [Attempt(m.tenant, m.entry.value)] else []
  }

  function NotesIn(messages: seq<Message>): seq<Notification> {
    if messages == [] then []
    else
      var n := |messages| - 1;
      NotesIn(messages[..n]) +
      if messages[n].Notify? then [Notification(n, messages[n].topic, messages[n].tenant, messages[n].payload)] else []
  }

  /** The effects of having drained exactly the first `n` messages, over a ledger the attempts `posted` have gone to. */
  function DrainedTo(core: Core, n: nat, posted: seq<Attempt>): StoreState
    requires n <= |core.outbox|
  {
    StoreState(core, Effects(n, PostAll(NO_ENTRIES, posted), NotesIn(core.outbox[..n])))
  }

  lemma {:induction false} QueuedOne(m: Message)
    ensures QueuedIn([m]) == if m.LedgerApply? && m.entry.Some? then [Attempt(m.tenant, m.entry.value)] else []
  {
    assert [m][..0] == [];
  }

  lemma {:induction false} PostedOneMore(posted: seq<Attempt>, x: Attempt)
    ensures PostAll(NO_ENTRIES, posted + [x]) == Post(PostAll(NO_ENTRIES, posted), x)
  {
    assert (posted + [x])[..|posted|] == posted;
  }

  lemma {:induction false} NotesStep(outbox: seq<Message>, n: nat)
    requires n < |outbox|
    ensures var m := outbox[n];
      NotesIn(outbox[..n + 1]) == if m.Notify?
        then NotesIn(outbox[..n]) + [Notification(n, m.topic, m.tenant, m.payload)] else NotesIn(outbox[..n])
  {
    PrefixStep(outbox, n);
    assert NotesIn(outbox[..n]) + [] == NotesIn(outbox[..n]);
  }

  lemma {:induction false} DrainOneStep(core: Core, n: nat, posted: seq<Attempt>)
    requires n < |core.outbox|
    ensures Broken(core.outbox[n]) ==> DrainOne(DrainedTo(core, n, posted)).Threw?
    ensures !Broken(core.outbox[n]) ==>
      DrainOne(DrainedTo(core, n, posted)) == Done(DrainedTo(core, n + 1, posted + QueuedIn([core.outbox[n]])))
  {
    hide PostAll, Post, NotesIn, QueuedIn;
    var m := core.outbox[n];
    NotesStep(core.outbox, n);
    QueuedOne(m);
    if m.LedgerApply? && m.entry.Some? {
      PostedOneMore(posted, Attempt(m.tenant, m.entry.value));
    } else {
      assert posted + [] == posted;
    }
  }

  lemma {:induction false} QueuedConcat(xs: seq<Message>, ys: seq<Message>)
    ensures QueuedIn(xs + ys) == QueuedIn(xs) + QueuedIn(ys)
  {
    if ys == [] {
      assert xs + ys == xs;
    } else {
      var n := |ys| - 1;
      assert (xs + ys)[..|xs| + n] == xs + ys[..n];
      QueuedConcat(xs, ys[..n]);
    }
  }

  function Until(core: Core, n: nat, max: nat): nat
    requires n <= |core.outbox|
    ensures n <= Until(core, n, max) <= |core.outbox|
  {
    if n + max <= |core.outbox| then n + max else |core.outbox|
  }

  lemma {:induction false} BatchSplit(outbox: seq<Message>, n: nat, to: nat, posted: seq<Attempt>)
    requires n < to <= |outbox|
    ensures Deliverable(outbox[n..to]) <==> !Broken(outbox[n]) && Deliverable(outbox[n + 1..to])
    ensures posted + QueuedIn(outbox[n..to]) == posted + QueuedIn([outbox[n]]) + QueuedIn(outbox[n + 1..to])
  {
    var m, rest := outbox[n], outbox[n + 1..to];
    assert outbox[n..to] == [m] + rest;
    assert [m][0] == m;
    assert Deliverable([m]) <==> !Broken(m);
    DeliverableConcat([m], rest);
    QueuedConcat([m], rest);
    hide *;
    assert posted + QueuedIn([m]) + QueuedIn(rest) == posted + (QueuedIn([m]) + QueuedIn(rest));
  }

  lemma {:induction false} DrainNone(core: Core, n: nat, posted: seq<Attempt>, max: nat)
    requires n <= |core.outbox| && Until(core, n, max) == n
    ensures var batch := core.outbox[n..Until(core, n, max)];
      Deliverable(batch) && Drain(DrainedTo(core, n, posted), max) == Done(DrainedTo(core, n, posted + QueuedIn(batch)))
  {
    hide PostAll, NotesIn;
    assert posted + [] == posted;
  }

  /** Draining a batch of at most `max` messages: it throws exactly when one of them cannot be delivered. */
  lemma {:induction false} DrainIs(core: Core, n: nat, posted: seq<Attempt>, max: nat)
    requires n <= |core.outbox|
    ensures var to := Until(core, n, max); var batch := core.outbox[n..to];
      if Deliverable(batch) then Drain(DrainedTo(core, n, posted), max)
        == Done(DrainedTo(core, to, posted + QueuedIn(batch)))
      else Drain(DrainedTo(core, n, posted), max).Threw?
    decreases max
  {
    hide Drain, DrainedTo, Deliverable, QueuedIn, Broken;
    if max == 0 || n == |core.outbox| {
      DrainNone(core, n, posted, max);
    } else {
      DrainMore(core, n, posted, max);
      DrainIs(core, n + 1, posted + QueuedIn([core.outbox[n]]), max - 1);
      BatchSplit(core.outbox, n, Until(core, n, max), posted);
    }
  }

  lemma {:induction false} DrainMore(core: Core, n: nat, posted: seq<Attempt>, max: nat)
    requires n < |core.outbox| && max > 0
    ensures Until(core, n + 1, max - 1) == Until(core, n, max)
    ensures Broken(core.outbox[n]) ==> Drain(DrainedTo(core, n, posted), max).Threw?
    ensures !Broken(core.outbox[n]) ==>
      Drain(DrainedTo(core, n, posted), max)
        == Drain(DrainedTo(core, n + 1, posted + QueuedIn([core.outbox[n]])), max - 1)
  {
    DrainOneStep(core, n, posted);
    hide DrainOne, QueuedIn, PostAll, NotesIn, Broken;
  }

  /** Draining in two bounded batches is draining once. */
  lemma {:induction false} BatchesDrainAlike(st: StoreState, a: nat, b: nat)
    ensures Drain(st, a).Done? ==> Drain(st, a + b) == Drain(Drain(st, a).st, b)
    ensures Drain(st, a).Threw? ==> Drain(st, a + b) == Drain(st, a)
    decreases a
  {
    if a > 0 && st.effects.cursor < |st.core.outbox| {
      var one := DrainOne(st);
      if one.Done? {
        BatchesDrainAlike(one.st, a - 1, b);
      }
    } else if a > 0 {
      assert Drain(st, a) == Done(st);
    }
  }

  // ----- records, split into what they change at once and what they queue -----

  function DirectIn(ops: seq<Op>): seq<Attempt> {
    if ops == [] then [] else DirectIn(ops[..|ops| - 1]) + Direct(ops[|ops| - 1])
  }

  function CoreOps(locale: Leq<Ref>, core: Core, at: int, ops: seq<Op>): Outcome<Core> {
    if ops == [] then Done(core)
    else
      var front := CoreOps(locale, core, at, ops[..|ops| - 1]);
      if front.Threw? then front else ApplyCore(locale, front.st, at, ops[|ops| - 1])
  }

  /** Operations read and write the core alone; of the effects they only post their own entries. */
  lemma {:induction false} OpsSplit(locale: Leq<Ref>, st: StoreState, at: int, ops: seq<Op>)
    ensures var core := CoreOps(locale, st.core, at, ops); var whole := ApplyOps(locale, st, at, ops);
      && (core.Done? <==> whole.Done?)
      && whole.Final().core == core.Final()
      && (core.Done? ==> whole.st.effects == st.effects.(ledger := PostAll(st.effects.ledger, DirectIn(ops))))
      && (core.Threw? ==> whole.error == core.error)
  {
    if ops != [] {
      hide ApplyCore;
      var n := |ops| - 1;
      OpsSplit(locale, st, at, ops[..n]);
      PostAllConcat(st.effects.ledger, DirectIn(ops[..n]), Direct(ops[n]));
    }
  }

  lemma {:induction false} OutboxGrows(locale: Leq<Ref>, core: Core, at: int, ops: seq<Op>)
    ensures core.outbox <= CoreOps(locale, core, at, ops).Final().outbox
  {
    if ops != [] {
      OutboxGrows(locale, core, at, ops[..|ops| - 1]);
    }
  }

  function CoreAfter(locale: Leq<Ref>, records: seq<Record>): Outcome<Core> {
    if records == [] then Done(EMPTY_CORE)
    else
      var front := CoreAfter(locale, records[..|records| - 1]);
      if front.Threw? then front
      else CoreOps(locale, front.st, records[|records| - 1].at, records[|records| - 1].ops)
  }

  function OutboxAfter(locale: Leq<Ref>, records: seq<Record>): seq<Message> {
    CoreAfter(locale, records).Final().outbox
  }

  /** What the last record queued. */
  function QueuedByLast(locale: Leq<Ref>, records: seq<Record>): seq<Attempt>
    requires records != []
  {
    var before, after := OutboxAfter(locale, records[..|records| - 1]), OutboxAfter(locale, records);
    if |before| <= |after| then QueuedIn(after[|before|..]) else []
  }

  /** The order in which the live store attempts entries: each record's own, then what it queued. */
  function LiveAttempts(locale: Leq<Ref>, records: seq<Record>): seq<Attempt> {
    if records == [] then []
    else
      LiveAttempts(locale, records[..|records| - 1]) + DirectIn(records[|records| - 1].ops)
        + QueuedByLast(locale, records)
  }

  function DirectAttempts(records: seq<Record>): seq<Attempt> {
    if records == [] then [] else DirectAttempts(records[..|records| - 1]) + DirectIn(records[|records| - 1].ops)
  }

  /** The order in which a restart attempts them: all records' own entries, then everything queued. */
  function RestartAttempts(locale: Leq<Ref>, records: seq<Record>): seq<Attempt> {
    DirectAttempts(records) + QueuedIn(OutboxAfter(locale, records))
  }

  lemma {:induction false} OutboxPrefix(locale: Leq<Ref>, records: seq<Record>)
    requires records != []
    ensures OutboxAfter(locale, records[..|records| - 1]) <= OutboxAfter(locale, records)
  {
    var n := |records| - 1;
    var front := CoreAfter(locale, records[..n]);
    if front.Done? {
      OutboxGrows(locale, front.st, records[n].at, records[n].ops);
    }
  }

  lemma {:induction false} PostedAfter(locale: Leq<Ref>, core: Core, n: nat, posted: seq<Attempt>, at: int,
      ops: seq<Op>)
    requires n <= |core.outbox| && CoreOps(locale, core, at, ops).Done?
    ensures var core' := CoreOps(locale, core, at, ops).st;
      n <= |core'.outbox| && ApplyOps(locale, DrainedTo(core, n, posted), at, ops)
        == Done(DrainedTo(core', n, posted + DirectIn(ops)))
  {
    var core' := CoreOps(locale, core, at, ops).st;
    OpsSplit(locale, DrainedTo(core, n, posted), at, ops);
    OutboxGrows(locale, core, at, ops);
    PostAllConcat(NO_ENTRIES, posted, DirectIn(ops));
    assert core'.outbox[..n] == core.outbox[..n];
  }

  /** The live store after a run of successful commits. */
  lemma {:induction false} LiveIs(locale: Leq<Ref>, records: seq<Record>)
    requires Live(locale, records).Done?
    ensures CoreAfter(locale, records).Done? && Deliverable(OutboxAfter(locale, records))
    ensures var core := CoreAfter(locale, records).st;
      Live(locale, records) == Done(DrainedTo(core, |core.outbox|, LiveAttempts(locale, records)))
  {
    if records == [] {
      assert EMPTY_CORE.outbox[..0] == [];
    } else {
      var n := |records| - 1;
      var r := records[n];
      LiveIs(locale, records[..n]);
      var core0 := CoreAfter(locale, records[..n]).st;
      LiveCommit(locale, core0, LiveAttempts(locale, records[..n]), r);
    }
  }

  lemma {:induction false} LiveCommit(locale: Leq<Ref>, core: Core, posted: seq<Attempt>, r: Record)
    requires Deliverable(core.outbox) && Commit(locale, DrainedTo(core, |core.outbox|, posted), r).Done?
    ensures var after := CoreOps(locale, core, r.at, r.ops);
      && after.Done? && |core.outbox| <= |after.st.outbox| && Deliverable(after.st.outbox)
      && Commit(locale, DrainedTo(core, |core.outbox|, posted), r)
         == Done(DrainedTo(after.st, |after.st.outbox|,
           posted + DirectIn(r.ops) + QueuedIn(after.st.outbox[|core.outbox|..])))
  {
    hide ApplyOps, CoreOps, PostAll, NotesIn, QueuedIn, DirectIn, Deliverable, DrainFully, DrainedTo, Commit;
    var n := |core.outbox|;
    CommitSplits(locale, core, n, posted, r);
    OutboxGrows(locale, core, r.at, r.ops);
    var core' := CoreOps(locale, core, r.at, r.ops).st;
    DrainRest(core', n, posted + DirectIn(r.ops));
    assert core'.outbox == core.outbox + core'.outbox[n..];
    DeliverableConcat(core.outbox, core'.outbox[n..]);
  }

  lemma {:induction false} CommitSplits(locale: Leq<Ref>, core: Core, n: nat, posted: seq<Attempt>, r: Record)
    requires n <= |core.outbox|
    ensures var after := CoreOps(locale, core, r.at, r.ops); var whole := Commit(locale, DrainedTo(core, n, posted), r);
      && (whole.Done? ==> after.Done?)
      && (after.Done? ==>
           n <= |after.st.outbox| && whole == DrainFully(DrainedTo(after.st, n, posted + DirectIn(r.ops))))
  {
    OpsSplit(locale, DrainedTo(core, n, posted), r.at, r.ops);
    if CoreOps(locale, core, r.at, r.ops).Done? {
      PostedAfter(locale, core, n, posted, r.at, r.ops);
    }
    hide ApplyOps, CoreOps, DrainFully, DrainedTo;
  }

  lemma {:induction false} DrainRest(core: Core, n: nat, posted: seq<Attempt>)
    requires n <= |core.outbox|
    ensures var rest := core.outbox[n..];
      if Deliverable(rest) then DrainFully(DrainedTo(core, n, posted))
        == Done(DrainedTo(core, |core.outbox|, posted + QueuedIn(rest)))
      else DrainFully(DrainedTo(core, n, posted)).Threw?
  {
    DrainIs(core, n, posted, |core.outbox| - n);
    hide Drain, QueuedIn, Deliverable, PostAll, NotesIn;
    assert core.outbox[n..|core.outbox|] == core.outbox[n..];
  }

  lemma {:induction false} ReplayIs(locale: Leq<Ref>, records: seq<Record>)
    ensures ReplayRecords(locale, records).Done? <==> CoreAfter(locale, records).Done?
    ensures CoreAfter(locale, records).Done? ==>
      ReplayRecords(locale, records) == Done(DrainedTo(CoreAfter(locale, records).st, 0, DirectAttempts(records)))
  {
    if records == [] {
      assert EMPTY_CORE.outbox[..0] == [];
    } else {
      var n := |records| - 1;
      ReplayIs(locale, records[..n]);
      var front := CoreAfter(locale, records[..n]);
      if front.Done? {
        OpsSplit(locale, DrainedTo(front.st, 0, DirectAttempts(records[..n])), records[n].at, records[n].ops);
        if CoreAfter(locale, records).Done? {
          PostedAfter(locale, front.st, 0, DirectAttempts(records[..n]), records[n].at, records[n].ops);
        }
      }
    }
  }

  /** Restarting after a run of successful commits succeeds, and everything but the ledger is as it was live:
      streams, run snapshots, emergency controls, tables, outbox, cursor and notifications. */
  lemma {:induction false} RestartEqualsLive(locale: Leq<Ref>, records: seq<Record>)
    requires Live(locale, records).Done?
    ensures Restart(locale, records).Done?
    ensures var live := Live(locale, records).st; var restarted := Restart(locale, records).st;
      && restarted.core == live.core
      && restarted.effects.cursor == live.effects.cursor == |live.core.outbox|
      && restarted.effects.notifications == live.effects.notifications
      && live.effects.ledger == PostAll(NO_ENTRIES, LiveAttempts(locale, records))
      && restarted.effects.ledger == PostAll(NO_ENTRIES, RestartAttempts(locale, records))
  {
    LiveIs(locale, records);
    ReplayIs(locale, records);
    var core := CoreAfter(locale, records).st;
    DrainRest(core, 0, DirectAttempts(records));
    assert core.outbox[0..] == core.outbox;
  }

  /** A log restarts exactly when every commit that wrote it succeeded: a record that threw when it was applied, or
      whose drain threw, stays in the log and makes every later restart throw. */
  lemma {:induction false} RestartSucceedsIff(locale: Leq<Ref>, records: seq<Record>)
    ensures Restart(locale, records).Done? <==> Live(locale, records).Done?
  {
    if Live(locale, records).Done? {
      RestartEqualsLive(locale, records);
    }
    ReplayIs(locale, records);
    if CoreAfter(locale, records).Done? {
      var core := CoreAfter(locale, records).st;
      DrainRest(core, 0, DirectAttempts(records));
      assert core.outbox[0..] == core.outbox;
      if Deliverable(core.outbox) {
        DeliverableRunSucceeds(locale, records);
      }
    }
  }

  lemma {:induction false} DeliverableRunSucceeds(locale: Leq<Ref>, records: seq<Record>)
    requires CoreAfter(locale, records).Done? && Deliverable(OutboxAfter(locale, records))
    ensures Live(locale, records).Done?
  {
    if records != [] {
      hide Commit, CoreOps, Deliverable, DrainFully, DrainedTo, LiveAttempts;
      var n := |records| - 1;
      var r := records[n];
      OutboxPrefix(locale, records);
      var before, after := OutboxAfter(locale, records[..n]), OutboxAfter(locale, records);
      assert after == before + after[|before|..];
      DeliverableConcat(before, after[|before|..]);
      DeliverableRunSucceeds(locale, records[..n]);
      LiveIs(locale, records[..n]);
      var core, posted := CoreAfter(locale, records[..n]).st, LiveAttempts(locale, records[..n]);
      CommitSplits(locale, core, |core.outbox|, posted, r);
      DrainRest(CoreAfter(locale, records).st, |core.outbox|, posted + DirectIn(r.ops));
    }
  }

  // ----- when the ledgers agree as well -----

  /** The record in which an id is first posted directly, and the entry. */
  function FirstDirect(records: seq<Record>, t: Tenant, id: Id): Option<(nat, Entry)> {
    if records == [] then None
    else
      var n := |records| - 1;
      var earlier := FirstDirect(records[..n], t, id);
      var here := Winner(DirectIn(records[n].ops), t, id);
      if earlier.Some? then earlier else if here.Some? then Some((n, here.value)) else None
  }

  /** The record by which an id is first queued, and the entry. */
  function FirstQueued(locale: Leq<Ref>, records: seq<Record>, t: Tenant, id: Id): Option<(nat, Entry)> {
    if records == [] then None
    else
      var n := |records| - 1;
      var earlier := FirstQueued(locale, records[..n], t, id);
      var here := Winner(QueuedByLast(locale, records), t, id);
      if earlier.Some? then earlier else if here.Some? then Some((n, here.value)) else None
  }

  /** No entry that a record queued is overtaken by a different
      entry that a later record posts directly under its id. */
  ghost predicate NothingOvertaken(locale: Leq<Ref>, records: seq<Record>) {
    forall t, id ::
      var d, q := FirstDirect(records, t, id), FirstQueued(locale, records, t, id);
      d.Some? && q.Some? && q.value.0 < d.value.0 ==> q.value.1 == d.value.1
  }

  function EntryOf(x: Option<(nat, Entry)>): Option<Entry> {
    if x.Some? then Some(x.value.1) else None
  }

  lemma {:induction false} DirectWinner(records: seq<Record>, t: Tenant, id: Id)
    ensures Winner(DirectAttempts(records), t, id) == EntryOf(FirstDirect(records, t, id))
    ensures FirstDirect(records, t, id).Some? ==> FirstDirect(records, t, id).value.0 < |records|
  {
    if records != [] {
      var n := |records| - 1;
      DirectWinner(records[..n], t, id);
      WinnerConcat(DirectAttempts(records[..n]), DirectIn(records[n].ops), t, id);
    }
  }

  lemma {:induction false} QueuedWinner(locale: Leq<Ref>, records: seq<Record>, t: Tenant, id: Id)
    ensures Winner(QueuedIn(OutboxAfter(locale, records)), t, id) == EntryOf(FirstQueued(locale, records, t, id))
    ensures FirstQueued(locale, records, t, id).Some? ==> FirstQueued(locale, records, t, id).value.0 < |records|
  {
    if records != [] {
      var n := |records| - 1;
      QueuedWinner(locale, records[..n], t, id);
      OutboxPrefix(locale, records);
      var before, after := OutboxAfter(locale, records[..n]), OutboxAfter(locale, records);
      assert after == before + after[|before|..];
      QueuedConcat(before, after[|before|..]);
      WinnerConcat(QueuedIn(before), QueuedIn(after[|before|..]), t, id);
    }
  }

  /** Live, an id goes to whichever of its first direct and first
      queued entry is in the earlier record; directs win a tie. */
  lemma {:induction false} LiveWinner(locale: Leq<Ref>, records: seq<Record>, t: Tenant, id: Id)
    ensures var d, q := FirstDirect(records, t, id), FirstQueued(locale, records, t, id);
      Winner(LiveAttempts(locale, records), t, id)
        == if d.Some? && q.Some? && q.value.0 < d.value.0 then EntryOf(q) else EntryOf(d.OrElse(q))
  {
    if records != [] {
      var n := |records| - 1;
      var front := records[..n];
      LiveWinner(locale, front, t, id);
      DirectWinner(front, t, id);
      QueuedWinner(locale, front, t, id);
      var live, direct := LiveAttempts(locale, front), DirectIn(records[n].ops);
      WinnerConcat(live, direct, t, id);
      WinnerConcat(live + direct, QueuedByLast(locale, records), t, id);
    }
  }

  lemma {:induction false} RestartWinner(locale: Leq<Ref>, records: seq<Record>, t: Tenant, id: Id)
    ensures Winner(RestartAttempts(locale, records), t, id)
      == EntryOf(FirstDirect(records, t, id).OrElse(FirstQueued(locale, records, t, id)))
  {
    DirectWinner(records, t, id);
    QueuedWinner(locale, records, t, id);
    WinnerConcat(DirectAttempts(records), QueuedIn(OutboxAfter(locale, records)), t, id);
  }

  /** After a run of successful commits the restarted ledger holds the
      live ledger's entries exactly when nothing was overtaken. */
  lemma {:induction false} LedgersAgreeIff(locale: Leq<Ref>, records: seq<Record>)
    requires Live(locale, records).Done?
    ensures Restart(locale, records).Done?
    ensures multiset(Restart(locale, records).st.effects.ledger.entries)
      == multiset(Live(locale, records).st.effects.ledger.entries)
      <==> NothingOvertaken(locale, records)
  {
    RestartEqualsLive(locale, records);
    var live, restart := LiveAttempts(locale, records), RestartAttempts(locale, records);
    SameEntriesIffSameWinners(restart, live);
    forall t, id
      ensures Winner(restart, t, id) == Winner(live, t, id) <==>
        (var d, q := FirstDirect(records, t, id), FirstQueued(locale, records, t, id);
         d.Some? && q.Some? && q.value.0 < d.value.0 ==> q.value.1 == d.value.1)
    {
      LiveWinner(locale, records, t, id);
      RestartWinner(locale, records, t, id);
    }
  }

  /** The entry that a restart holds where the live ledger holds `x`: an overtaken entry gives way to the direct one. */
  function Restarted(locale: Leq<Ref>, records: seq<Record>): Attempt -> Attempt {
    (x: Attempt) =>
      var d, q := FirstDirect(records, x.tenant, x.entry.id), FirstQueued(locale, records, x.tenant, x.entry.id);
      if d.Some? && q.Some? && q.value.0 < d.value.0 then Attempt(x.tenant, d.value.1) else x
  }

  lemma {:induction false} RestartedKeepsId(locale: Leq<Ref>, records: seq<Record>, x: Attempt)
    ensures var y := Restarted(locale, records)(x); y.tenant == x.tenant && y.entry.id == x.entry.id
  {
    DirectWinner(records, x.tenant, x.entry.id);
    WinnerHasId(DirectAttempts(records), x.tenant, x.entry.id);
    hide FirstDirect, FirstQueued, Winner, DirectAttempts;
  }

  /** The two winners of an id: neither has one, or the restart's is what the live one becomes. */
  lemma {:induction false} WinnersCorrespond(locale: Leq<Ref>, records: seq<Record>, t: Tenant, id: Id)
    ensures var live := Winner(LiveAttempts(locale, records), t, id);
      var restart := Winner(RestartAttempts(locale, records), t, id);
      && (live.Some? <==> restart.Some?)
      && (live.Some? ==>
           live.value.id == id && restart == Some(Restarted(locale, records)(Attempt(t, live.value)).entry))
  {
    LiveWinner(locale, records, t, id);
    RestartWinner(locale, records, t, id);
    WinnerHasId(LiveAttempts(locale, records), t, id);
    hide FirstDirect, FirstQueued, Winner, LiveAttempts, RestartAttempts;
  }

  lemma {:induction false} SameIdSameEntry(xs: seq<Attempt>, x: Attempt, y: Attempt)
    requires x in PostAll(NO_ENTRIES, xs).entries && y in PostAll(NO_ENTRIES, xs).entries
    requires x.tenant == y.tenant && x.entry.id == y.entry.id
    ensures x == y
  {
    EntryIffWinner(xs, x);
    EntryIffWinner(xs, y);
  }

  lemma {:induction false} RestartedDistinct(locale: Leq<Ref>, records: seq<Record>)
    ensures Distinct(MapSeq(Restarted(locale, records), PostAll(NO_ENTRIES, LiveAttempts(locale, records)).entries))
  {
    var live := LiveAttempts(locale, records);
    var es := PostAll(NO_ENTRIES, live).entries;
    var f := Restarted(locale, records);
    EntriesDistinct(live);
    hide PostAll, LiveAttempts, Restarted;
    forall i, j | 0 <= i < j < |es| ensures f(es[i]) != f(es[j]) {
      RestartedKeepsId(locale, records, es[i]);
      RestartedKeepsId(locale, records, es[j]);
      assert es[i] in es && es[j] in es && es[i] != es[j];
      if f(es[i]) == f(es[j]) {
        SameIdSameEntry(live, es[i], es[j]);
      }
    }
  }

  lemma {:induction false} RestartedMembers(locale: Leq<Ref>, records: seq<Record>, y: Attempt)
    ensures y in PostAll(NO_ENTRIES, RestartAttempts(locale, records)).entries <==>
      y in MapSeq(Restarted(locale, records), PostAll(NO_ENTRIES, LiveAttempts(locale, records)).entries)
  {
    var live, restart, f := LiveAttempts(locale, records), RestartAttempts(locale, records), Restarted(locale, records);
    var es := PostAll(NO_ENTRIES, live).entries;
    var gs := MapSeq(f, es);
    EntryIffWinner(restart, y);
    WinnersCorrespond(locale, records, y.tenant, y.entry.id);
    hide PostAll, LiveAttempts, RestartAttempts, Restarted, Winner;
    if y in gs {
      var i :| 0 <= i < |gs| && gs[i] == y;
      RestartedKeepsId(locale, records, es[i]);
      assert es[i] in es;
      EntryIffWinner(live, es[i]);
      assert Attempt(y.tenant, es[i].entry) == es[i];
    }
    var won := Winner(live, y.tenant, y.entry.id);
    if Winner(restart, y.tenant, y.entry.id) == Some(y.entry) {
      var x := Attempt(y.tenant, won.value);
      EntryIffWinner(live, x);
      RestartedKeepsId(locale, records, x);
      assert f(x) == y;
      var i :| 0 <= i < |es| && es[i] == x;
      assert gs[i] == y;
    }
  }

  /** The restarted ledger holds the live ledger's entries, each
      overtaken one replaced by the entry that overtook it. */
  lemma {:induction false} RestartReplacesOvertaken(locale: Leq<Ref>, records: seq<Record>)
    requires Live(locale, records).Done?
    ensures Restart(locale, records).Done?
    ensures multiset(Restart(locale, records).st.effects.ledger.entries)
      == multiset(MapSeq(Restarted(locale, records), Live(locale, records).st.effects.ledger.entries))
  {
    RestartEqualsLive(locale, records);
    var es := PostAll(NO_ENTRIES, LiveAttempts(locale, records)).entries;
    var fs := PostAll(NO_ENTRIES, RestartAttempts(locale, records)).entries;
    EntriesDistinct(RestartAttempts(locale, records));
    RestartedDistinct(locale, records);
    hide PostAll, LiveAttempts, RestartAttempts, Restarted, Live, Restart, Distinct;
    forall y ensures y in fs <==> y in MapSeq(Restarted(locale, records), es) {
      RestartedMembers(locale, records, y);
    }
    SameMembersSameMultiset(fs, MapSeq(Restarted(locale, records), es));
  }

  /** What overtaking changes in one account: the overtaking entries' postings less the overtaken ones'. */
  function OvertakenNet(locale: Leq<Ref>, records: seq<Record>, t: Tenant, a: Account): Attempt -> int {
    (x: Attempt) => Net(t, a)(Restarted(locale, records)(x)) - Net(t, a)(x)
  }

  /** After successful commits each restarted balance is the live one plus what overtaking changed, summed over the live
      entries; so the two agree exactly when these changes cancel out. */
  lemma {:induction false} RestartBalanceDifference(locale: Leq<Ref>, records: seq<Record>, t: Tenant, a: Account)
    requires Live(locale, records).Done?
    ensures Restart(locale, records).Done?
    ensures var live, restarted := Live(locale, records).st.effects.ledger, Restart(locale, records).st.effects.ledger;
      Balance(restarted.balances, t, a)
        == Balance(live.balances, t, a) + Sum(OvertakenNet(locale, records, t, a), live.entries)
  {
    RestartEqualsLive(locale, records);
    RestartReplacesOvertaken(locale, records);
    BalanceIsSum(LiveAttempts(locale, records), t, a);
    BalanceIsSum(RestartAttempts(locale, records), t, a);
    hide *;
    ReplacedSum(locale, records, t, a, Live(locale, records).st.effects.ledger.entries,
      Restart(locale, records).st.effects.ledger.entries);
  }

  lemma {:induction false} ReplacedSum(locale: Leq<Ref>, records: seq<Record>, t: Tenant, a: Account,
      live: seq<Attempt>, restarted: seq<Attempt>)
    requires multiset(restarted) == multiset(MapSeq(Restarted(locale, records), live))
    ensures Sum(Net(t, a), restarted) == Sum(Net(t, a), live) + Sum(OvertakenNet(locale, records, t, a), live)
  {
    hide Net, Restarted, Sum;
    SumPermutation(Net(t, a), restarted, MapSeq(Restarted(locale, records), live));
    OvertakenNetIs(locale, records, t, a);
    hide *;
    SumOfMapped(Net(t, a), Restarted(locale, records), OvertakenNet(locale, records, t, a), live);
  }

  lemma {:induction false} OvertakenNetIs(locale: Leq<Ref>, records: seq<Record>, t: Tenant, a: Account)
    ensures forall x ::
      OvertakenNet(locale, records, t, a)(x) == Net(t, a)(Restarted(locale, records)(x)) - Net(t, a)(x)
  {
    hide Net, Restarted;
  }

  /** And then every balance is the same. */
  lemma {:induction false} BalancesAgree(locale: Leq<Ref>, records: seq<Record>, t: Tenant, a: Account)
    requires Live(locale, records).Done? && NothingOvertaken(locale, records)
    ensures Restart(locale, records).Done?
    ensures Balance(Restart(locale, records).st.effects.ledger.balances, t, a)
      == Balance(Live(locale, records).st.effects.ledger.balances, t, a)
  {
    LedgersAgreeIff(locale, records);
    RestartEqualsLive(locale, records);
    SameEntriesSameBalances(RestartAttempts(locale, records), LiveAttempts(locale, records), t, a);
  }

  /** A balanced entry that moves `cents` from account 1 to account 0. */
  function MovedCents(cents: int): Entry {
    Entry(Id(0), [Posting(Account(0), cents), Posting(Account(1), -cents)])
  }

  lemma {:induction false} MovedCentsPosted(cents: int)
    requires cents != 0 && -MAX_SAFE <= cents <= MAX_SAFE
    ensures JournalEntry(MovedCents(cents))
    ensures Balance(AddPostings(map[], Tenant(0), MovedCents(cents).postings), Tenant(0), Account(0)) == cents
  {
    var ps := MovedCents(cents).postings;
    assert ps[..1] == [ps[0]] && [ps[0]][..0] == [];
    assert Sum(Cents(), ps[..1]) == cents;
    assert AddPostings(map[], Tenant(0), ps[..1]) == map[(Tenant(0), Account(0)) := cents];
  }

  /** The other case occurs with proper journal entries: one that moves 5 cents is queued, and a later record applies
      one that moves 7 under the same id. The live balance is 5, the restarted one 7. */
  lemma {:induction false} OvertakenEntryChangesBalance(locale: Leq<Ref>)
    ensures JournalEntry(MovedCents(5)) && JournalEntry(MovedCents(7))
    ensures var t := Tenant(0);
      var records := [Record(0, [OutboxEnqueue([LedgerApply(t, Some(MovedCents(5)))])]),
                      Record(1, [LedgerEntryApplied(t, Some(MovedCents(7)))])];
      && Live(locale, records).Done? && Restart(locale, records).Done?
      && Balance(Live(locale, records).st.effects.ledger.balances, t, Account(0)) == 5
      && Balance(Restart(locale, records).st.effects.ledger.balances, t, Account(0)) == 7
  {
    var t := Tenant(0);
    var queued, direct := MovedCents(5), MovedCents(7);
    var m := LedgerApply(t, Some(queued));
    var r1, r2 := Record(0, [OutboxEnqueue([m])]), Record(1, [LedgerEntryApplied(t, Some(direct))]);
    var q, d := Attempt(t, queued), Attempt(t, direct);
    TwoCores(locale, r1, r2, m, d);
    TwoAttempts(locale, r1, r2, m, q, d);
    hide Live, Restart, CoreAfter, LiveAttempts, RestartAttempts, JournalEntry;
    RestartSucceedsIff(locale, [r1, r2]);
    RestartEqualsLive(locale, [r1, r2]);
    TwoPosted(q, d);
    TwoPosted(d, q);
    MovedCentsPosted(5);
    MovedCentsPosted(7);
    hide Balance, AddPostings, PostAll;
  }

  /** A record of an unknown operation throws when it is committed, stays in the log, and makes every restart throw. */
  lemma {:induction false} UnknownOpBlocksRestart(locale: Leq<Ref>, more: seq<Record>)
    ensures var bad := Record(0, [UnknownOp]);
      Commit(locale, EMPTY_STORE, bad).Threw? && Restart(locale, [bad] + more).Threw?
  {
    var bad := Record(0, [UnknownOp]);
    assert bad.ops[..0] == [];
    assert ([bad] + more)[..1] == [bad] && [bad][..0] == [];
    Store.ReplayThrowStays(locale, [bad] + more, 1);
  }

  lemma {:induction false} TwoCores(locale: Leq<Ref>, r1: Record, r2: Record, m: Message, d: Attempt)
    requires r1.ops == [OutboxEnqueue([m])] && r2.ops == [LedgerEntryApplied(d.tenant, Some(d.entry))] && !Broken(m)
    ensures CoreAfter(locale, [r1]) == Done(EMPTY_CORE.(outbox := [m])) == CoreAfter(locale, [r1, r2])
    ensures Live(locale, [r1, r2]).Done?
  {
    var core := EMPTY_CORE.(outbox := [m]);
    assert EMPTY_CORE.outbox + [m] == [m];
    assert r1.ops[..0] == [] && r2.ops[..0] == [];
    assert CoreOps(locale, EMPTY_CORE, r1.at, []) == Done(EMPTY_CORE) && CoreOps(locale, core, r2.at, []) == Done(core);
    assert CoreOps(locale, EMPTY_CORE, r1.at, r1.ops) == Done(core)
      && CoreOps(locale, core, r2.at, r2.ops) == Done(core);
    assert [r1, r2][..1] == [r1] && [r1][..0] == [];
    assert CoreAfter(locale, []) == Done(EMPTY_CORE);
    hide CoreOps;
    assert CoreAfter(locale, [r1]) == Done(core);
    DeliverableRunSucceeds(locale, [r1, r2]);
  }

  lemma {:induction false} TwoAttempts(locale: Leq<Ref>, r1: Record, r2: Record, m: Message, q: Attempt, d: Attempt)
    requires r1.ops == [OutboxEnqueue([m])] && r2.ops == [LedgerEntryApplied(d.tenant, Some(d.entry))]
    requires m == LedgerApply(q.tenant, Some(q.entry))
    requires CoreAfter(locale, [r1]) == Done(EMPTY_CORE.(outbox := [m])) == CoreAfter(locale, [r1, r2])
    ensures LiveAttempts(locale, [r1, r2]) == [q, d] && RestartAttempts(locale, [r1, r2]) == [d, q]
  {
    assert CoreAfter(locale, []) == Done(EMPTY_CORE);
    hide CoreAfter, CoreOps;
    assert [r1, r2][..1] == [r1] && [r1][..0] == [];
    QueuedOne(m);
    assert r1.ops[..0] == [] && r2.ops[..0] == [];
    assert DirectIn(r1.ops) == [] && DirectIn(r2.ops) == [d];
    assert [m][0..] == [m] && [m][1..] == [];
    assert QueuedByLast(locale, [r1]) == [q] && QueuedByLast(locale, [r1, r2]) == [];
    assert LiveAttempts(locale, []) == [] && DirectAttempts([]) == [];
    assert LiveAttempts(locale, [r1]) == [q];
    assert DirectAttempts([r1]) == [];
  }

  lemma {:induction false} TwoPosted(x: Attempt, y: Attempt)
    requires x.tenant == y.tenant && x.entry.id == y.entry.id
    ensures PostAll(NO_ENTRIES, [x, y]).balances == AddPostings(map[], x.tenant, x.entry.postings)
  {
    assert [x, y] == [x] + [y] && [x] == [] + [x];
    PostedOneMore([], x);
    PostedOneMore([x], y);
  }
}
