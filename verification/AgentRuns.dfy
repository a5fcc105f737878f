/** Agent runs as folds of their event streams. */
module AgentRuns {
  import opened Wrappers
  import opened Sequences
  import opened Ordering

  type Time = int

  datatype RunId = RunId(code: int)
  datatype Ref = Ref(code: int)
  datatype Hash = Hash(code: int)

  /** A validated payload; `Invalid` stands for an unknown event type or a payload that fails its checks. */
  datatype Payload =
    | RunCreated(runId: RunId, agentId: int, tenantId: int, taskType: Option<int>, inputRef: Option<int>)
    | RunStarted(runId: RunId)
    | RunHeartbeat(runId: RunId)
    | EvidenceAdded(runId: RunId, evidenceRef: Ref)
    | RunCompleted(runId: RunId, metrics: Option<int>)
    | RunFailed(runId: RunId, code: Option<int>, message: Option<int>)
    | Invalid

  /** `schemaVersion` is `AgentEvent.v1` on every stored event. */
  datatype RunEvent = RunEvent(schemaTagged: bool, streamId: RunId, at: Time, id: Option<int>,
      prevChainHash: Option<Hash>, chainHash: Option<Hash>, payload: Payload)

  datatype RunStatus = Created | Running | Completed | Failed

  datatype Run = Run(runId: RunId, agentId: int, tenantId: int, taskType: Option<int>, inputRef: Option<int>,
    status: RunStatus, evidenceRefs: seq<Ref>, metrics: Option<int>, failure: Option<(Option<int>, Option<int>)>,
    startedAt: Option<Time>, completedAt: Option<Time>, failedAt: Option<Time>, revision: int, createdAt: Time,
    updatedAt: Time, lastEventId: Option<int>, lastChainHash: Option<Hash>)

  datatype RunError = InvalidPayload | AlreadyInitialized | RunIdMismatch | MissingCreated | TerminalRun

  predicate Terminal(s: RunStatus) {
    s.Completed? || s.Failed?
  }

  function AddRef(locale: Leq<Ref>, refs: seq<Ref>, ref: Ref): seq<Ref> {
    StableSort(locale, if ref in refs then refs else refs + [ref])
  }

  function NewRun(ev: RunEvent): Run
    requires ev.payload.RunCreated?
  {
    var p := ev.payload;
    Run(p.runId, p.agentId, p.tenantId, p.taskType, p.inputRef, Created, [], None, None, None, None, None, 0, ev.at,
      ev.at, ev.id, ev.chainHash)
  }

  /** The fields one later event of a live run changes. */
  function Changed(locale: Leq<Ref>, run: Run, ev: RunEvent): Run {
    match ev.payload
    case RunStarted(_) => run.(status := Running, startedAt := run.startedAt.OrElse(Some(ev.at)))
    case RunHeartbeat(_) =>
      if run.status.Created? then run.(status := Running, startedAt := run.startedAt.OrElse(Some(ev.at))) else run
    case EvidenceAdded(_, ref) => run.(evidenceRefs := AddRef(locale, run.evidenceRefs, ref))
    case RunCompleted(_, metrics) =>
      run.(status := Completed, startedAt := run.startedAt.OrElse(Some(ev.at)), completedAt := Some(ev.at),
        failedAt := None, failure := None, metrics := metrics.OrElse(run.metrics))
    case RunFailed(_, code, message) =>
      run.(status := Failed, startedAt := run.startedAt.OrElse(Some(ev.at)), failedAt := Some(ev.at),
        completedAt := None, failure := Some((code, message)))
    case _ => run
  }

  function Touched(run: Run, ev: RunEvent): Run {
    run.(revision := run.revision + 1, updatedAt := ev.at, lastEventId := ev.id.OrElse(run.lastEventId),
         lastChainHash := ev.chainHash.OrElse(run.lastChainHash))
  }

  function ApplyEvent(locale: Leq<Ref>, run: Option<Run>, ev: RunEvent): Result<Run, RunError> {
    if ev.payload.Invalid? then Failure(InvalidPayload)
    else if ev.payload.RunCreated? then
      if run.Some? then Failure(AlreadyInitialized)
      else if ev.payload.runId != ev.streamId then Failure(RunIdMismatch)
      else Success(NewRun(ev))
    else if run.None? then Failure(MissingCreated)
    else if ev.payload.runId != run.value.runId then Failure(RunIdMismatch)
    else if Terminal(run.value.status) then Failure(TerminalRun)
    else Success(Touched(Changed(locale, run.value, ev), ev))
  }

  /** Continues the fold from an earlier result. */
  function ReduceFrom(locale: Leq<Ref>, run: Option<Run>, events: seq<RunEvent>): Result<Option<Run>, RunError> {
    if events == [] then Success(run)
    else
      var front := ReduceFrom(locale, run, events[..|events| - 1]);
      if front.Failure? then front
      else
        var next := ApplyEvent(locale, front.value, events[|events| - 1]);
        if next.Failure? then Failure(next.error) else Success(Some(next.value))
  }

  function Reduce(locale: Leq<Ref>, events: seq<RunEvent>): Result<Option<Run>, RunError> {
    ReduceFrom(locale, None, events)
  }

  lemma {:induction false} FailureStays(locale: Leq<Ref>, run: Option<Run>, events: seq<RunEvent>, k: nat)
    requires k <= |events| && ReduceFrom(locale, run, events[..k]).Failure?
    ensures ReduceFrom(locale, run, events) == ReduceFrom(locale, run, events[..k])
    decreases |events|
  {
    if k == |events| {
      assert events[..k] == events;
    } else {
      var n := |events| - 1;
      assert events[..n][..k] == events[..k];
      FailureStays(locale, run, events[..n], k);
    }
  }

  /** The loop that assigns the run's fields event by event computes the fold. */
  method ReduceAgentRun(locale: Leq<Ref>, events: seq<RunEvent>) returns (r: Result<Option<Run>, RunError>)
    ensures r == Reduce(locale, events)
  {
    var run: Option<Run> := None;
    var revision := 0;
    for i := 0 to |events|
      invariant ReduceFrom(locale, None, events[..i]) == Success(run)
      invariant run.Some? ==> run.value.revision == revision
      invariant run.None? ==> revision == 0
    {
      PrefixStep(events, i);
      var ev := events[i];
      ghost var before := run;
      var next := ApplyEvent(locale, before, ev);
      if next.Failure? {
        FailureStays(locale, None, events, i + 1);
      }
      if ev.payload.Invalid? {
        return Failure(InvalidPayload);
      }
      if ev.payload.RunCreated? {
        if run.Some? {
          return Failure(AlreadyInitialized);
        }
        if ev.payload.runId != ev.streamId {
          return Failure(RunIdMismatch);
        }
        run := Some(NewRun(ev).(revision := revision));
      } else {
        if run.None? {
          return Failure(MissingCreated);
        }
        if ev.payload.runId != run.value.runId {
          return Failure(RunIdMismatch);
        }
        if Terminal(run.value.status) {
          return Failure(TerminalRun);
        }
        var changed := Changed(locale, run.value, ev);
        revision := revision + 1;
        run := Some(changed.(revision := revision, updatedAt := ev.at, lastEventId := ev.id.OrElse(changed.lastEventId),
          lastChainHash := ev.chainHash.OrElse(changed.lastChainHash)));
      }
    }
    assert events[..|events|] == events;
    r := Success(run);
  }

  lemma {:induction false} ReduceStep(locale: Leq<Ref>, run: Option<Run>, events: seq<RunEvent>, ev: RunEvent)
    ensures var front := ReduceFrom(locale, run, events);
      ReduceFrom(locale, run, events + [ev])
        == if front.Failure? then front
           else
             var next := ApplyEvent(locale, front.value, ev);
             if next.Failure? then Failure(next.error) else Success(Some(next.value))
  {
    assert (events + [ev])[..|events|] == events;
  }

  /** Reducing a concatenation continues the fold from the prefix's result. */
  lemma {:induction false} ReduceConcat(locale: Leq<Ref>, run: Option<Run>, xs: seq<RunEvent>, ys: seq<RunEvent>)
    ensures ReduceFrom(locale, run, xs + ys)
      == (var front := ReduceFrom(locale, run, xs);
        if front.Failure? then front else ReduceFrom(locale, front.value, ys))
  {
    if ys == [] {
      assert xs + ys == xs;
    } else {
      hide ReduceFrom, ApplyEvent;
      var front, ev := ys[..|ys| - 1], ys[|ys| - 1];
      ReduceConcat(locale, run, xs, front);
      ReduceStep(locale, run, xs + front, ev);
      assert xs + ys == (xs + front) + [ev] && ys == front + [ev];
      var mid := ReduceFrom(locale, run, xs);
      if mid.Success? {
        ReduceStep(locale, mid.value, front, ev);
      }
    }
  }

  /** A run that completed or failed accepts no further event, so no longer stream reduces. */
  lemma {:induction false} TerminalRejectsEverything(locale: Leq<Ref>, events: seq<RunEvent>, more: seq<RunEvent>)
    requires Reduce(locale, events).Success? && Reduce(locale, events).value.Some?
    requires Terminal(Reduce(locale, events).value.value.status) && more != []
    ensures Reduce(locale, events + more).Failure?
  {
    var run := Reduce(locale, events).value;
    assert ReduceFrom(locale, run, more[..0]) == Success(run);
    assert more[..1][..0] == more[..0];
    assert ReduceFrom(locale, run, more[..1]).Failure?;
    FailureStays(locale, run, more, 1);
    ReduceConcat(locale, None, events, more);
  }

  ghost predicate Added(events: seq<RunEvent>, ref: Ref) {
    exists i :: 0 <= i < |events| && events[i].payload.EvidenceAdded? && events[i].payload.evidenceRef == ref
  }

  /** The events that set a run going or end it. */
  predicate Starts(p: Payload) {
    p.RunStarted? || p.RunHeartbeat? || p.RunCompleted? || p.RunFailed?
  }

  /** The time of the first event that sets the run going or ends it. */
  function FirstStart(events: seq<RunEvent>): Option<Time> {
    if events == [] then None
    else
      var last := events[|events| - 1];
      FirstStart(events[..|events| - 1]).OrElse(if Starts(last.payload) then Some(last.at) else None)
  }

  /** What a successful reduction says about its run. */
  ghost predicate RunShape(locale: Leq<Ref>, run: Run, events: seq<RunEvent>) {
    && events != [] && run.revision == |events| - 1
    && run.startedAt == FirstStart(events)
    && (run.startedAt.Some? <==> !run.status.Created?)
    && (run.status.Completed? <==> events[|events| - 1].payload.RunCompleted?)
    && (run.status.Failed? <==> events[|events| - 1].payload.RunFailed?)
    && run.completedAt == (if run.status.Completed? then Some(run.updatedAt) else None)
    && run.failedAt == (if run.status.Failed? then Some(run.updatedAt) else None)
    && (run.failure.Some? <==> run.status.Failed?)
    && run.createdAt == events[0].at && run.updatedAt == events[|events| - 1].at
    && run.runId == events[0].streamId
    && Distinct(run.evidenceRefs) && Sorted(locale, run.evidenceRefs)
    && (forall ref :: ref in run.evidenceRefs <==> Added(events, ref))
  }

  lemma {:induction false} AddRefShape(locale: Leq<Ref>, refs: seq<Ref>, ref: Ref)
    requires TotalPreorder(locale) && Distinct(refs)
    ensures Distinct(AddRef(locale, refs, ref)) && Sorted(locale, AddRef(locale, refs, ref))
    ensures forall r :: r in AddRef(locale, refs, ref) <==> r in refs || r == ref
  {
    var extended := if ref in refs then refs else refs + [ref];
    StableSortSorted(locale, extended);
    StableSortContents(locale, extended);
    PermutationKeepsDistinct(extended, AddRef(locale, refs, ref));
  }

  lemma {:induction false} AddedStep(events: seq<RunEvent>, ev: RunEvent, ref: Ref)
    ensures Added(events + [ev], ref)
      <==> Added(events, ref) || (ev.payload.EvidenceAdded? && ev.payload.evidenceRef == ref)
  {
    if Added(events, ref) {
      var i :| 0 <= i < |events| && events[i].payload.EvidenceAdded? && events[i].payload.evidenceRef == ref;
      assert (events + [ev])[i] == events[i];
    }
    if ev.payload.EvidenceAdded? && ev.payload.evidenceRef == ref {
      assert (events + [ev])[|events|] == ev;
    }
  }

  lemma {:induction false} StepKeepsShape(locale: Leq<Ref>, run: Run, events: seq<RunEvent>, ev: RunEvent)
    requires TotalPreorder(locale) && RunShape(locale, run, events) && ApplyEvent(locale, Some(run), ev).Success?
    ensures RunShape(locale, ApplyEvent(locale, Some(run), ev).value, events + [ev])
  {
    forall ref ensures Added(events + [ev], ref)
      <==> Added(events, ref) || (ev.payload.EvidenceAdded? && ev.payload.evidenceRef == ref) {
      AddedStep(events, ev, ref);
    }
    if ev.payload.EvidenceAdded? {
      AddRefShape(locale, run.evidenceRefs, ev.payload.evidenceRef);
    }
    assert (events + [ev])[..|events|] == events;
    hide AddRef, Added, Distinct, Sorted, TotalPreorder;
  }

  /** Every run a stream reduces to has the shape: revision, timestamps and the exact evidence. */
  lemma {:induction false} ReducedRunsHaveShape(locale: Leq<Ref>, events: seq<RunEvent>)
    requires TotalPreorder(locale) && Reduce(locale, events).Success?
    ensures events == [] <==> Reduce(locale, events).value.None?
    ensures events != [] ==> RunShape(locale, Reduce(locale, events).value.value, events)
  {
    if events != [] {
      hide ReduceFrom, RunShape, TotalPreorder, ApplyEvent;
      var front, ev := events[..|events| - 1], events[|events| - 1];
      assert events == front + [ev];
      ReduceStep(locale, None, front, ev);
      ReducedRunsHaveShape(locale, front);
      if front != [] {
        StepKeepsShape(locale, Reduce(locale, front).value.value, front, ev);
      } else {
        FirstKeepsShape(locale, ev);
        assert front + [ev] == [ev];
      }
    } else {
      assert events == [];
    }
  }

  lemma {:induction false} FirstKeepsShape(locale: Leq<Ref>, ev: RunEvent)
    ensures Reduce(locale, []) == Success(None)
    ensures ApplyEvent(locale, None, ev).Success? ==> RunShape(locale, ApplyEvent(locale, None, ev).value, [ev])
  {
    if ApplyEvent(locale, None, ev).Success? {
      assert !exists ref :: Added([ev], ref);
      assert [ev][..0] == [];
    }
  }

  // ----- which streams reduce, and to what -----

  predicate Ends(p: Payload) {
    p.RunCompleted? || p.RunFailed?
  }

  /** A stream that begins with the creation of its own run, goes on with valid events of that run, and ends with the
      first event that completes or fails it. */
  ghost predicate Reducible(events: seq<RunEvent>) {
    events != [] ==>
      && events[0].payload.RunCreated? && events[0].payload.runId == events[0].streamId
      && (forall i :: 0 < i < |events| ==> Continues(events[i].payload, events[0].streamId))
      && (forall i :: 0 <= i < |events| - 1 ==> !Ends(events[i].payload))
  }

  predicate Continues(p: Payload, runId: RunId) {
    !p.Invalid? && !p.RunCreated? && p.runId == runId
  }

  /** The last value given for a field that an event may leave out. */
  function LastGiven(field: RunEvent -> Option<int>, events: seq<RunEvent>): Option<int> {
    if events == [] then None
    else
      var last := field(events[|events| - 1]);
      if last.Some? then last else LastGiven(field, events[..|events| - 1])
  }

  function EventIds(): RunEvent -> Option<int> {
    (ev: RunEvent) => ev.id
  }

  function ChainHashes(): RunEvent -> Option<int> {
    (ev: RunEvent) => if ev.chainHash.Some? then Some(ev.chainHash.value.code) else None
  }

  /** What a run says about its stream, besides times and evidence. */
  ghost predicate RunFields(run: Run, events: seq<RunEvent>)
    requires events != [] && events[0].payload.RunCreated?
  {
    var first, last := events[0].payload, events[|events| - 1].payload;
    && run.runId == first.runId && run.agentId == first.agentId && run.tenantId == first.tenantId
    && run.taskType == first.taskType && run.inputRef == first.inputRef
    && run.status == (if last.RunCompleted? then Completed else if last.RunFailed? then Failed
                      else if FirstStart(events).Some? then Running else Created)
    && run.metrics == (if last.RunCompleted? then last.metrics else None)
    && run.failure == (if last.RunFailed? then Some((last.code, last.message)) else None)
    && run.lastEventId == LastGiven(EventIds(), events)
    && (match run.lastChainHash case None => None case Some(h) => Some(h.code)) == LastGiven(ChainHashes(), events)
  }

  lemma {:induction false} FieldsStep(locale: Leq<Ref>, run: Run, events: seq<RunEvent>, ev: RunEvent)
    requires events != [] && events[0].payload.RunCreated? && RunFields(run, events)
    requires !Ends(events[|events| - 1].payload) && Continues(ev.payload, run.runId)
    ensures ApplyEvent(locale, Some(run), ev).Success?
    ensures RunFields(ApplyEvent(locale, Some(run), ev).value, events + [ev])
  {
    hide AddRef;
    assert (events + [ev])[..|events|] == events;
  }

  lemma {:induction false} ReducibleStep(events: seq<RunEvent>, ev: RunEvent)
    requires events != []
    ensures Reducible(events + [ev]) <==>
      Reducible(events) && Continues(ev.payload, events[0].streamId) && !Ends(events[|events| - 1].payload)
  {
    var all := events + [ev];
    assert all[0] == events[0] && all[|events|] == ev && all[|events| - 1] == events[|events| - 1];
    assert forall i :: 0 <= i < |events| ==> all[i] == events[i];
    hide Continues, Ends;
  }

  /** A stream reduces exactly when it is one run's from creation to at most one end; then its run carries what the
      creation says, the outcome of the end, and the last event id and hash given. */
  lemma {:induction false} ReducesIff(locale: Leq<Ref>, events: seq<RunEvent>)
    ensures Reduce(locale, events).Success? <==> Reducible(events)
    ensures Reducible(events) ==> (Reduce(locale, events).value.None? <==> events == [])
    ensures Reducible(events) && events != [] ==> RunFields(Reduce(locale, events).value.value, events)
  {
    if events == [] {
      assert Reduce(locale, []) == Success(None);
    } else {
      var front, ev := events[..|events| - 1], events[|events| - 1];
      assert events == front + [ev];
      ReducesIff(locale, front);
      ReduceStep(locale, None, front, ev);
      hide ReduceFrom, RunFields, AddRef, ApplyEvent;
      if front == [] {
        FirstFields(locale, ev);
        assert events == [ev];
      } else {
        ReducibleStep(front, ev);
        if Reducible(front) {
          var run := Reduce(locale, front).value.value;
          RejectedIf(locale, run, front, ev);
          if Continues(ev.payload, run.runId) && !Ends(front[|front| - 1].payload) {
            FieldsStep(locale, run, front, ev);
          }
        }
      }
    }
  }

  lemma {:induction false} FirstFields(locale: Leq<Ref>, ev: RunEvent)
    ensures Reduce(locale, []) == Success(None)
    ensures ApplyEvent(locale, None, ev).Success? <==> Reducible([ev])
    ensures Reducible([ev]) ==> RunFields(ApplyEvent(locale, None, ev).value, [ev])
  {
    assert [ev][..0] == [];
  }

  lemma {:induction false} RejectedIf(locale: Leq<Ref>, run: Run, events: seq<RunEvent>, ev: RunEvent)
    requires events != [] && events[0].payload.RunCreated? && RunFields(run, events)
    ensures run.runId == events[0].payload.runId
    ensures !Continues(ev.payload, run.runId) || Ends(events[|events| - 1].payload) ==>
      ApplyEvent(locale, Some(run), ev).Failure?
  {
  }

  /** Why the first event too many is rejected; whatever follows it, the reduction fails with the same reason. */
  lemma {:induction false} RejectionReason(locale: Leq<Ref>, events: seq<RunEvent>, ev: RunEvent, more: seq<RunEvent>)
    requires Reducible(events) && !Reducible(events + [ev])
    ensures Reduce(locale, events + [ev] + more)
      == Failure(
           if ev.payload.Invalid? then InvalidPayload
           else if ev.payload.RunCreated? then if events == [] then RunIdMismatch else AlreadyInitialized
           else if events == [] then MissingCreated
           else if ev.payload.runId != events[0].streamId then RunIdMismatch else TerminalRun)
  {
    ReducesIff(locale, events);
    ReduceStep(locale, None, events, ev);
    var all := events + [ev] + more;
    assert all[..|events| + 1] == events + [ev];
    if events == [] {
      assert events + [ev] == [ev];
    } else {
      ReducibleStep(events, ev);
    }
    hide ReduceFrom, Changed;
    ReducesIff(locale, events + [ev]);
    FailureStays(locale, None, all, |events| + 1);
  }

  /** A run is started by the first event that starts it, keeps it alive, completes it or fails it; until then it is not
      started. */
  lemma {:induction false} StartedWhen(locale: Leq<Ref>, events: seq<RunEvent>)
    requires TotalPreorder(locale) && Reducible(events) && events != []
    ensures Reduce(locale, events).Success? && Reduce(locale, events).value.Some?
    ensures StartedBy(events, Reduce(locale, events).value.value.startedAt)
  {
    ReducesIff(locale, events);
    ReducedRunsHaveShape(locale, events);
    FirstStartIs(events);
    hide ReduceFrom, StartedBy, FirstStart, Added, Sorted, Distinct, TotalPreorder;
  }

  ghost predicate StartedBy(events: seq<RunEvent>, t: Option<Time>) {
    match t
    case None => forall i :: 0 <= i < |events| ==> events[i].payload.RunCreated? || IsQuiet(events[i].payload)
    case Some(at) =>
      exists i ::
        && 0 <= i < |events| && events[i].at == at
        && (events[i].payload.RunStarted? || events[i].payload.RunHeartbeat? || Ends(events[i].payload))
        && forall j :: 0 <= j < i ==> events[j].payload.RunCreated? || IsQuiet(events[j].payload)
  }

  /** Evidence does not start a run. */
  predicate IsQuiet(p: Payload) {
    p.EvidenceAdded? || p.Invalid?
  }

  lemma {:induction false} FirstStartIs(events: seq<RunEvent>)
    ensures StartedBy(events, FirstStart(events))
  {
    if events != [] {
      var n := |events| - 1;
      FirstStartIs(events[..n]);
      assert forall j :: 0 <= j < n ==> events[j] == events[..n][j];
      if FirstStart(events[..n]).Some? {
        var i :|
          && 0 <= i < n && events[..n][i].at == FirstStart(events[..n]).value
          && (events[..n][i].payload.RunStarted? || events[..n][i].payload.RunHeartbeat?
              || Ends(events[..n][i].payload))
          && forall j :: 0 <= j < i ==> events[..n][j].payload.RunCreated? || IsQuiet(events[..n][j].payload);
        assert events[i] == events[..n][i];
      }
    }
  }
}
