/** Agent-run settlements: resolution, reconciliation and the dispute that runs beside them. */
module Settlements {
  import opened Wrappers
  import opened Sequences
  import opened Numbers
  import opened Wallets

  datatype RunId = RunId(code: int)
  datatype Ref = Ref(code: int)

  /** A non-blank string; one family of them is the dispute ids generated from run ids. */
  datatype Text = Text(code: int) | DisputeOf(run: RunId)

  datatype Status = Locked | Released | Refunded

  datatype DisputeKind = Quality | Delivery | Fraud | Policy | Payment | OtherKind
  datatype Priority = LowPriority | NormalPriority | HighPriority | Critical
  datatype Channel = Counterparty | PolicyEngine | Arbiter | External
  datatype Level = L1Counterparty | L2Arbiter | L3External
  datatype Outcome = Accepted | Rejected | Partial | Withdrawn | Unresolved

  datatype Context = Context(kind: DisputeKind, priority: Priority, channel: Channel, level: Level,
      openedBy: Option<Agent>, reason: Option<Text>, evidence: seq<Ref>, jurisdiction: Option<Text>)

  datatype Resolution = Resolution(outcome: Outcome, level: Level, closedBy: Option<Agent>, summary: Option<Text>,
    closedAt: Option<Time>, rate: Option<int>, evidence: seq<Ref>, jurisdiction: Option<Text>)

  datatype DisputeStatus = NoDispute | Open | Closed

  datatype Dispute = Dispute(status: DisputeStatus, id: Option<Text>, openedAt: Option<Time>, closedAt: Option<Time>,
    context: Option<Context>, resolution: Option<Resolution>)

  datatype DecisionStatus = Pending | AutoResolved | ManualReviewRequired | ManualResolved
  datatype DecisionMode = Automatic | ManualReview

  datatype Decision = Decision(status: DecisionStatus, mode: DecisionMode, policyHash: Option<Text>,
      reason: Option<Text>, trace: Option<Text>, updatedAt: Time)

  datatype Settlement = Settlement(run: RunId, tenant: Tenant, payee: Agent, payer: Agent, amount: int,
      currency: Currency, status: Status, lockedAt: Time, resolvedAt: Option<Time>, resolutionEventId: Option<Text>,
      runStatus: Option<Text>, released: int, refunded: int, rate: Option<int>, windowDays: int,
      windowEndsAt: Option<Time>, dispute: Dispute, decision: Decision, revision: int, createdAt: Time, updatedAt: Time)

  datatype SettlementError = InvalidSettlement | InvalidTarget | AlreadyResolved | NotReleased | NotResolved | NotLocked
    | MissingRunStatus | InvalidSplit | InvalidRate | InvalidWindow | DisputeIsOpen | DisputeNotOpen | DisputeIdMismatch
    | InvalidEvidence | InvalidResolution

  const NO_DISPUTE: Dispute := Dispute(NoDispute, None, None, None, None, None)

  const DAY_MS: int := 86400000

  /** The largest time a `Date` can hold. */
  const MAX_TIME: int := 8640000000000000

  // ----- evidence lists -----

  /** An evidence item as sent; `None` stands for one that is not a non-blank string. */
  type Item = Option<Ref>

  predicate AllGiven(items: seq<Item>) {
    items == [] || (AllGiven(items[..|items| - 1]) && items[|items| - 1].Some?)
  }

  lemma {:induction false} AllGivenPrefix(items: seq<Item>, i: nat)
    requires i < |items| && items[i].None?
    ensures !AllGiven(items)
    decreases |items|
  {
    var n := |items| - 1;
    if i < n {
      AllGivenPrefix(items[..n], i);
    }
  }

  lemma {:induction false} PushStep(pushed: seq<Ref>, items: seq<Item>, i: nat)
    requires i < |items|
    ensures AllGiven(items[..i + 1]) <==> AllGiven(items[..i]) && items[i].Some?
    ensures items[i].Some? ==>
      var before := Dedup(pushed + Somes(items[..i]));
      Dedup(pushed + Somes(items[..i + 1])) == if items[i].value in before then before else before + [items[i].value]
  {
    PrefixStep(items, i);
    if items[i].Some? {
      assert pushed + Somes(items[..i + 1]) == (pushed + Somes(items[..i])) + [items[i].value];
      DedupStep(pushed + Somes(items[..i]), items[i].value);
    }
  }

  /** Pushes the items that have not been seen yet, the first occurrence of each; stops at an invalid item. */
  method PushRefs(merged: seq<Ref>, seen: set<Ref>, items: seq<Item>, ghost pushed: seq<Ref>)
      returns (ok: bool, merged': seq<Ref>, seen': set<Ref>)
    requires merged == Dedup(pushed) && forall r :: r in seen <==> r in merged
    ensures ok == AllGiven(items)
    ensures ok ==> merged' == Dedup(pushed + Somes(items)) && forall r :: r in seen' <==> r in merged'
  {
    merged', seen' := merged, seen;
    assert pushed + Somes([]) == pushed;
    assert AllGiven([]);
    hide AllGiven, Somes, Dedup;
    for i := 0 to |items|
      invariant AllGiven(items[..i]) && merged' == Dedup(pushed + Somes(items[..i]))
      invariant forall r :: r in seen' <==> r in merged'
    {
      PushStep(pushed, items, i);
      if items[i].None? {
        AllGivenPrefix(items, i);
        return false, merged', seen';
      }
      if items[i].value !in seen' {
        seen' := seen' + {items[i].value};
        merged' := merged' + [items[i].value];
      }
    }
    assert items[..|items|] == items;
    ok := true;
  }

  function NormalEvidence(items: seq<Item>): Result<seq<Ref>, SettlementError> {
    if AllGiven(items) then Success(Dedup(Somes(items))) else Failure(InvalidEvidence)
  }

  method NormalizeDisputeEvidenceRefs(items: seq<Item>) returns (r: Result<seq<Ref>, SettlementError>)
    ensures r == NormalEvidence(items)
  {
    var ok, merged, _ := PushRefs([], {}, items, []);
    assert [] + Somes(items) == Somes(items);
    r := if ok then Success(merged) else Failure(InvalidEvidence);
  }

  function MergedEvidence(existing: seq<Ref>, patch: seq<Item>,
      appended: seq<Item>): Result<seq<Ref>, SettlementError> {
    if AllGiven(patch) && AllGiven(appended) then Success(Dedup(existing + Somes(patch) + Somes(appended)))
    else Failure(InvalidEvidence)
  }

  lemma {:induction false} AllSomeIsGiven(refs: seq<Ref>)
    ensures AllGiven(AllSome(refs)) && Somes(AllSome(refs)) == refs
  {
    SomesOfAllSome(refs);
    if refs != [] {
      var n := |refs| - 1;
      AllSomeIsGiven(refs[..n]);
      assert AllSome(refs)[..n] == AllSome(refs[..n]);
    }
  }

  /** The three loops over one seen-set: what is stored, what the patch lists, what is appended. */
  method MergeEvidence(existing: seq<Ref>, patch: seq<Item>, appended: seq<Item>)
      returns (r: Result<seq<Ref>, SettlementError>)
    ensures r == MergedEvidence(existing, patch, appended)
  {
    AllSomeIsGiven(existing);
    var ok, merged, seen := PushRefs([], {}, AllSome(existing), []);
    assert [] + Somes(AllSome(existing)) == existing;
    ok, merged, seen := PushRefs(merged, seen, patch, existing);
    if !ok {
      return Failure(InvalidEvidence);
    }
    ok, merged, seen := PushRefs(merged, seen, appended, existing + Somes(patch));
    r := if ok then Success(merged) else Failure(InvalidEvidence);
  }

  // ----- contexts and resolutions -----

  datatype ContextInput = ContextInput(kind: Option<DisputeKind>, priority: Option<Priority>, channel: Option<Channel>,
    level: Option<Level>, openedBy: Option<Agent>, reason: Option<Text>, evidence: seq<Item>,
      jurisdiction: Option<Text>)

  function NormalContext(c: ContextInput, defaultLevel: Level): Result<Context, SettlementError> {
    var evidence := NormalEvidence(c.evidence);
    if evidence.Failure? then Failure(evidence.error)
    else Success(Context(c.kind.GetOr(OtherKind), c.priority.GetOr(NormalPriority), c.channel.GetOr(Counterparty),
      c.level.GetOr(defaultLevel), c.openedBy, c.reason, evidence.value, c.jurisdiction))
  }

  datatype ResolutionInput = ResolutionInput(outcome: Option<Outcome>, level: Option<Level>, closedBy: Option<Agent>,
    summary: Option<Text>, closedAt: Option<Time>, rate: Option<int>, evidence: seq<Item>, jurisdiction: Option<Text>)

  /** The release rates an outcome admits. */
  predicate RateFits(outcome: Outcome, rate: Option<int>) {
    && (rate.Some? ==> 0 <= rate.value <= 100)
    && match outcome
       case Accepted => rate.None? || rate.value == 100
       case Rejected => rate.None? || rate.value == 0
       case Partial => rate.Some? && 0 < rate.value < 100
       case _ => rate.None?
  }

  function NormalResolution(r: ResolutionInput, at: Time): Result<Resolution, SettlementError> {
    var outcome := r.outcome.GetOr(Unresolved);
    var evidence := NormalEvidence(r.evidence);
    if !RateFits(outcome, r.rate) then Failure(InvalidResolution)
    else if evidence.Failure? then Failure(evidence.error)
    else Success(Resolution(outcome, r.level.GetOr(L1Counterparty), r.closedBy, r.summary,
      r.closedAt.OrElse(Some(at)), r.rate, evidence.value, r.jurisdiction))
  }

  // ----- the record checks around every step -----

  predicate NormalNumbers(s: Settlement) {
    && Amount(s.amount) && Safe(s.released) && Safe(s.refunded) && s.released + s.refunded <= s.amount
    && (s.rate.Some? ==> 0 <= s.rate.value <= 100)
    && Safe(s.windowDays) && Safe(s.revision)
  }

  function NormalDispute(d: Dispute): Dispute {
    d.(context := if d.context.Some? then Some(d.context.value.(evidence := Dedup(d.context.value.evidence))) else None,
       resolution := if d.resolution.Some? then
         Some(d.resolution.value.(evidence := Dedup(d.resolution.value.evidence),
           closedAt := d.resolution.value.closedAt.OrElse(d.closedAt)))
         else None)
  }

  function Normalize(s: Settlement): Result<Settlement, SettlementError> {
    if !NormalNumbers(s) then Failure(InvalidSettlement)
    else if s.dispute.resolution.Some?
      && !RateFits(s.dispute.resolution.value.outcome, s.dispute.resolution.value.rate) then Failure(InvalidSettlement)
    else Success(s.(dispute := NormalDispute(s.dispute)))
  }

  /** Every step ends by counting a revision and checking the record it made. */
  function Stepped(current: Settlement, next: Settlement, at: Time): Result<Settlement, SettlementError> {
    Normalize(next.(revision := current.revision + 1, updatedAt := at))
  }

  // ----- steps -----

  datatype CreateInput = CreateInput(tenant: Tenant, run: RunId, payee: Agent, payer: Agent, amount: int,
      currency: Currency, windowDays: int, at: Time)

  function Initial(c: CreateInput): Settlement {
    Settlement(c.run, c.tenant, c.payee, c.payer, c.amount, c.currency, Locked, c.at, None, None, None, 0, 0, None,
      c.windowDays, None, NO_DISPUTE, Decision(Pending, Automatic, None, None, None, c.at), 0, c.at, c.at)
  }

  function Create(c: CreateInput): Result<Settlement, SettlementError> {
    if !Amount(c.amount) || !Safe(c.windowDays) then Failure(InvalidSettlement) else Normalize(Initial(c))
  }

  datatype DecisionInput = DecisionInput(status: Option<DecisionStatus>, mode: Option<DecisionMode>,
      policyHash: Option<Text>, reason: Option<Text>, trace: Option<Text>)

  function Decided(d: DecisionInput, status: DecisionStatus, mode: DecisionMode, trace: Option<Text>,
      at: Time): Decision {
    Decision(d.status.GetOr(status), d.mode.GetOr(mode), d.policyHash, d.reason, d.trace.OrElse(trace), at)
  }

  /** What a resolution asks for; `runStatus` is `None` when it is missing or blank. */
  datatype ResolveInput = ResolveInput(target: Status, runStatus: Option<Text>, released: Option<int>,
      refunded: Option<int>, rate: Option<int>, windowDays: Option<int>, decision: DecisionInput,
      eventId: Option<Text>, at: Time)

  /** The two parts of the amount: releasing fills in a missing refund, refunding does not. */
  function Split(target: Status, amount: int, released: Option<int>,
      refunded: Option<int>): Result<(int, int), SettlementError> {
    var part := released.GetOr(if target.Released? then amount else 0);
    var rest := refunded.GetOr(if target.Released? then amount - part else amount);
    if !Safe(part) || !Safe(rest) || part + rest != amount then Failure(InvalidSplit) else Success((part, rest))
  }

  /** `Math.round(part * 100 / amount)`. */
  function RoundedRate(part: int, amount: int): int
    requires amount > 0
  {
    (200 * part + amount) / (2 * amount)
  }

  function RateFor(amount: int, part: int, rate: Option<int>): Result<int, SettlementError>
    requires amount > 0
  {
    var r := rate.GetOr(RoundedRate(part, amount));
    if 0 <= r <= 100 then Success(r) else Failure(InvalidRate)
  }

  function WindowEnd(days: int, at: Time): Result<Option<Time>, SettlementError> {
    if !Safe(days) then Failure(InvalidWindow)
    else if days == 0 then Success(None)
    else if at + days * DAY_MS > MAX_TIME then Failure(InvalidWindow)
    else Success(Some(at + days * DAY_MS))
  }

  function Resolve(s: Settlement, i: ResolveInput): Result<Settlement, SettlementError> {
    var n := Normalize(s);
    if n.Failure? then n
    else
      var current := n.value;
      if i.target.Locked? then Failure(InvalidTarget)
      else if !current.status.Locked? then Failure(AlreadyResolved)
      else if i.runStatus.None? then Failure(MissingRunStatus)
      else
        var split := Split(i.target, current.amount, i.released, i.refunded);
        if split.Failure? then Failure(split.error)
        else
          var rate := RateFor(current.amount, split.value.0, i.rate);
          var days := i.windowDays.GetOr(current.windowDays);
          var window := WindowEnd(days, i.at);
          if rate.Failure? then Failure(rate.error)
          else if window.Failure? then Failure(window.error)
          else
            var decision := Decided(i.decision, AutoResolved, Automatic, None, i.at);
            Stepped(current, current.(status := i.target, runStatus := i.runStatus, released := split.value.0,
              refunded := split.value.1, rate := Some(rate.value), windowDays := days, windowEndsAt := window.value,
              dispute := NO_DISPUTE, decision := decision, resolvedAt := Some(i.at), resolutionEventId := i.eventId),
              i.at)
  }

  /** As sent, with the default run status and reason filled in; `runStatus` is `None` when it is null or blank. */
  datatype RefundInput = RefundInput(runStatus: Option<Text>, decision: DecisionInput, eventId: Option<Text>, at: Time)

  function RefundReleased(s: Settlement, i: RefundInput): Result<Settlement, SettlementError> {
    var n := Normalize(s);
    if n.Failure? then n
    else
      var current := n.value;
      if !current.status.Released? then Failure(NotReleased)
      else if i.runStatus.None? then Failure(MissingRunStatus)
      else
        var decision := Decided(i.decision, ManualResolved, ManualReview, current.decision.trace, i.at);
        Stepped(current, current.(status := Refunded, runStatus := i.runStatus, released := 0,
          refunded := current.amount, rate := Some(0), dispute := NO_DISPUTE, decision := decision,
          resolvedAt := Some(i.at), resolutionEventId := i.eventId.OrElse(current.resolutionEventId)), i.at)
  }

  /** Resolves again; the dispute window stays as it was. */
  function Reconcile(s: Settlement, i: ResolveInput): Result<Settlement, SettlementError> {
    var n := Normalize(s);
    if n.Failure? then n
    else
      var current := n.value;
      if current.status.Locked? then Failure(NotResolved)
      else if i.target.Locked? then Failure(InvalidTarget)
      else if i.runStatus.OrElse(current.runStatus).None? then Failure(MissingRunStatus)
      else
        var split := Split(i.target, current.amount, i.released, i.refunded);
        if split.Failure? then Failure(split.error)
        else
          var rate := RateFor(current.amount, split.value.0, i.rate);
          if rate.Failure? then Failure(rate.error)
          else
            var decision := Decided(i.decision, ManualResolved, ManualReview, current.decision.trace, i.at);
            Stepped(current, current.(status := i.target, runStatus := i.runStatus.OrElse(current.runStatus),
              released := split.value.0, refunded := split.value.1, rate := Some(rate.value), dispute := NO_DISPUTE,
              decision := decision, resolvedAt := Some(i.at),
              resolutionEventId := i.eventId.OrElse(current.resolutionEventId)), i.at)
  }

  /** The fields a decision update gives replace the stored ones. */
  function Redecided(c: Decision, d: DecisionInput, at: Time): Decision {
    Decision(d.status.GetOr(c.status), d.mode.GetOr(c.mode), d.policyHash.OrElse(c.policyHash),
      d.reason.OrElse(c.reason), d.trace.OrElse(c.trace), at)
  }

  function Decide(s: Settlement, d: DecisionInput, at: Time): Result<Settlement, SettlementError> {
    var n := Normalize(s);
    if n.Failure? then n
    else if !n.value.status.Locked? then Failure(NotLocked)
    else Stepped(n.value, n.value.(decision := Redecided(n.value.decision, d, at)), at)
  }

  function OpenDispute(s: Settlement, id: Option<Text>, input: ContextInput,
      at: Time): Result<Settlement, SettlementError> {
    var n := Normalize(s);
    if n.Failure? then n
    else if n.value.dispute.status.Open? then Failure(DisputeIsOpen)
    else
      var context := NormalContext(input, L1Counterparty);
      if context.Failure? then Failure(context.error)
      else
        var id' := id.OrElse(n.value.dispute.id).GetOr(DisputeOf(n.value.run));
        Stepped(n.value, n.value.(dispute := Dispute(Open, Some(id'), Some(at), None, Some(context.value), None)), at)
  }

  function CloseDispute(s: Settlement, id: Option<Text>, input: ResolutionInput,
      at: Time): Result<Settlement, SettlementError> {
    var n := Normalize(s);
    if n.Failure? then n
    else if !n.value.dispute.status.Open? then Failure(DisputeNotOpen)
    else if id.Some? && id != n.value.dispute.id then Failure(DisputeIdMismatch)
    else
      var resolution := NormalResolution(input, at);
      if resolution.Failure? then Failure(resolution.error)
      else
        var dispute := n.value.dispute.(status := Closed, closedAt := Some(at), resolution := Some(resolution.value));
        Stepped(n.value, n.value.(dispute := dispute), at)
  }

  /** A patch leaves a field alone, sets it to null, or gives it a value. */
  datatype Field<+T> = Absent | Null | Value(value: T) {
    function Over(stored: Option<T>): Option<T> {
      match this
      case Absent => stored
      case Null => None
      case Value(v) => Some(v)
    }
  }

  datatype ContextPatch = ContextPatch(kind: Field<DisputeKind>, priority: Field<Priority>, channel: Field<Channel>,
      level: Field<Level>, openedBy: Field<Agent>, reason: Field<Text>, evidence: seq<Item>, jurisdiction: Field<Text>)

  const EMPTY_CONTEXT: Context := Context(OtherKind, NormalPriority, Counterparty, L1Counterparty, None, None, [], None)

  /** The spread of the patch over the stored context, normalised with the stored level as default. */
  function Patched(c: Context, p: ContextPatch, evidence: seq<Ref>): Context {
    Context(p.kind.Over(Some(c.kind)).GetOr(OtherKind), p.priority.Over(Some(c.priority)).GetOr(NormalPriority),
      p.channel.Over(Some(c.channel)).GetOr(Counterparty), p.level.Over(Some(c.level)).GetOr(c.level),
      p.openedBy.Over(c.openedBy), p.reason.Over(c.reason), evidence, p.jurisdiction.Over(c.jurisdiction))
  }

  function PatchContext(s: Settlement, p: ContextPatch, appended: seq<Item>,
      at: Time): Result<Settlement, SettlementError> {
    var n := Normalize(s);
    if n.Failure? then n
    else if !n.value.dispute.status.Open? then Failure(DisputeNotOpen)
    else
      var c := n.value.dispute.context.GetOr(EMPTY_CONTEXT);
      var evidence := MergedEvidence(c.evidence, p.evidence, appended);
      if evidence.Failure? then Failure(evidence.error)
      else Stepped(n.value, n.value.(dispute := n.value.dispute.(context := Some(Patched(c, p, evidence.value)))), at)
  }

  method PatchAgentRunSettlementDisputeContext(s: Settlement, p: ContextPatch, appended: seq<Item>, at: Time)
      returns (r: Result<Settlement, SettlementError>)
    ensures r == PatchContext(s, p, appended, at)
  {
    var n := Normalize(s);
    if n.Failure? {
      return n;
    }
    var current := n.value;
    if !current.dispute.status.Open? {
      return Failure(DisputeNotOpen);
    }
    var existing := current.dispute.context.GetOr(EMPTY_CONTEXT);
    var merged := MergeEvidence(existing.evidence, p.evidence, appended);
    if merged.Failure? {
      return Failure(merged.error);
    }
    r := Stepped(current, current.(dispute := current.dispute.(context := Some(Patched(existing, p, merged.value)))),
      at);
  }

  // ----- what every step keeps -----

  datatype Action =
    | ResolveAction(resolve: ResolveInput)
    | RefundReleasedAction(refund: RefundInput)
    | ReconcileAction(resolve: ResolveInput)
    | DecideAction(decision: DecisionInput, at: Time)
    | OpenAction(id: Option<Text>, context: ContextInput, at: Time)
    | CloseAction(id: Option<Text>, resolution: ResolutionInput, at: Time)
    | PatchAction(patch: ContextPatch, appended: seq<Item>, at: Time)

  function Step(s: Settlement, a: Action): Result<Settlement, SettlementError> {
    match a
    case ResolveAction(i) => Resolve(s, i)
    case RefundReleasedAction(i) => RefundReleased(s, i)
    case ReconcileAction(i) => Reconcile(s, i)
    case DecideAction(d, at) => Decide(s, d, at)
    case OpenAction(id, c, at) => OpenDispute(s, id, c, at)
    case CloseAction(id, r, at) => CloseDispute(s, id, r, at)
    case PatchAction(p, items, at) => PatchContext(s, p, items, at)
  }

  ghost predicate ContextShape(c: Option<Context>) {
    c.Some? && Distinct(c.value.evidence)
  }

  ghost predicate ResolutionShape(r: Option<Resolution>) {
    r.Some? && r.value.closedAt.Some? && Distinct(r.value.evidence) && RateFits(r.value.outcome, r.value.rate)
  }

  /** The dispute fields agree with the dispute status. */
  ghost predicate DisputeShape(d: Dispute) {
    match d.status
    case NoDispute => d == NO_DISPUTE
    case Open => d.id.Some? && d.openedAt.Some? && d.closedAt.None? && d.resolution.None? && ContextShape(d.context)
    case Closed =>
      && d.id.Some? && d.openedAt.Some? && d.closedAt.Some?
      && ContextShape(d.context) && ResolutionShape(d.resolution)
  }

  /** Nothing paid out while locked; everything paid out, once, when resolved. */
  predicate MoneyShape(s: Settlement) {
    && Amount(s.amount) && s.released >= 0 && s.refunded >= 0
    && if s.status.Locked? then
         s.released == 0 && s.refunded == 0 && s.rate.None? && s.resolvedAt.None? && s.runStatus.None?
       else
         && s.released + s.refunded == s.amount && s.rate.Some? && 0 <= s.rate.value <= 100
         && s.resolvedAt.Some? && s.runStatus.Some?
  }

  ghost predicate Reachable(s: Settlement) {
    MoneyShape(s) && DisputeShape(s.dispute) && Safe(s.windowDays) && Safe(s.revision)
  }

  /** What a settlement is about. */
  function Terms(s: Settlement): (RunId, Tenant, Agent, Agent, int, Currency, Time, Time) {
    (s.run, s.tenant, s.payee, s.payer, s.amount, s.currency, s.lockedAt, s.createdAt)
  }

  lemma {:induction false} CreatedShape(c: CreateInput)
    ensures Create(c).Success? <==> Amount(c.amount) && Safe(c.windowDays)
    ensures Create(c).Success? ==>
      var s := Create(c).value;
      && Reachable(s) && s.status.Locked? && s.revision == 0 && s.dispute == NO_DISPUTE
      && s.windowDays == c.windowDays && s.windowEndsAt.None? && s.resolutionEventId.None?
      && s.decision == Decision(Pending, Automatic, None, None, None, c.at) && s.updatedAt == c.at
  {
  }

  /** Checking a reachable record changes nothing. */
  lemma {:induction false} NormalizeReachable(s: Settlement)
    requires Reachable(s)
    ensures Normalize(s) == Success(s)
  {
    if s.dispute.context.Some? {
      DedupDistinct(s.dispute.context.value.evidence);
    }
    if s.dispute.resolution.Some? {
      DedupDistinct(s.dispute.resolution.value.evidence);
    }
    hide Distinct;
    assert s.dispute == NormalDispute(s.dispute);
  }

  lemma {:induction false} RateInRange(part: int, amount: int)
    requires 0 <= part <= amount && amount > 0
    ensures 0 <= RoundedRate(part, amount) <= 100
    ensures part == amount ==> RoundedRate(part, amount) == 100
    ensures part == 0 ==> RoundedRate(part, amount) == 0
  {
    var n, d := 200 * part + amount, 2 * amount;
    DivAtLeast(n, d, 0);
    DivAtMost(n, d, 100);
    if part == amount {
      DivAtLeast(n, d, 100);
    }
    if part == 0 {
      DivAtMost(n, d, 0);
    }
  }

  /** The rounded rate is the nearest percentage, half upwards. */
  lemma {:induction false} RateIsNearest(part: int, amount: int)
    requires 0 <= part && amount > 0
    ensures var r := RoundedRate(part, amount); (2 * r - 1) * amount <= 200 * part < (2 * r + 1) * amount
  {
    var n, d := 200 * part + amount, 2 * amount;
    assert n == (n / d) * d + n % d;
  }

  lemma {:induction false} SteppedShape(current: Settlement, next: Settlement, at: Time)
    requires MoneyShape(next) && DisputeShape(next.dispute) && Safe(next.windowDays) && current.revision >= 0
    ensures Stepped(current, next, at).Success? ==>
      Stepped(current, next, at).value == next.(revision := current.revision + 1, updatedAt := at)
        && Reachable(Stepped(current, next, at).value)
    ensures current.revision < MAX_SAFE ==> Stepped(current, next, at).Success?
  {
    if current.revision < MAX_SAFE {
      NormalizeReachable(next.(revision := current.revision + 1, updatedAt := at));
    }
    hide DisputeShape, NormalDispute;
  }

  lemma {:induction false} SplitWhole(target: Status, amount: int, released: Option<int>, refunded: Option<int>)
    requires Amount(amount)
    ensures Split(target, amount, released, refunded).Success? ==>
      var parts := Split(target, amount, released, refunded).value;
      parts.0 >= 0 && parts.1 >= 0 && parts.0 + parts.1 == amount
  {
  }

  /** With no refund given, releasing accepts any part of the amount; refunding accepts none but zero, because it does
      not work out the rest. */
  lemma {:induction false} SplitWithoutRefundIff(target: Status, amount: int, part: int)
    requires Amount(amount)
    ensures target.Released? ==>
      (Split(target, amount, Some(part), None) == Success((part, amount - part)) <==> 0 <= part <= amount)
    ensures target.Refunded? ==> (Split(target, amount, Some(part), None).Success? <==> part == 0)
    ensures Split(Released, amount, None, None) == Success((amount, 0))
      && Split(Refunded, amount, None, None) == Success((0, amount))
  {
  }

  lemma {:induction false} ContextKeepsShape(input: ContextInput, level: Level)
    ensures NormalContext(input, level).Success? ==> ContextShape(Some(NormalContext(input, level).value))
  {
    DedupContents(Somes(input.evidence));
  }

  lemma {:induction false} ResolutionKeepsShape(input: ResolutionInput, at: Time)
    ensures NormalResolution(input, at).Success? ==> ResolutionShape(Some(NormalResolution(input, at).value))
  {
    DedupContents(Somes(input.evidence));
  }

  /** The merged evidence: the stored list stays in front, nothing is listed twice, and nothing is lost or invented. */
  lemma {:induction false} MergeKeepsStored(existing: seq<Ref>, patch: seq<Item>, appended: seq<Item>)
    requires Distinct(existing) && MergedEvidence(existing, patch, appended).Success?
    ensures var merged := MergedEvidence(existing, patch, appended).value;
      && existing <= merged && Distinct(merged)
      && forall r :: r in merged <==> r in existing || Some(r) in patch || Some(r) in appended
  {
    var all := existing + Somes(patch) + Somes(appended);
    DedupContents(all);
    DedupPrefix(existing, Somes(patch) + Somes(appended));
    assert all == existing + (Somes(patch) + Somes(appended));
    DedupDistinct(existing);
    hide Dedup, Somes, Distinct;
    forall r ensures r in all <==> r in existing || Some(r) in patch || Some(r) in appended {
      SomesContents(patch, r);
      SomesContents(appended, r);
    }
  }

  /** What a successful step does to a reachable settlement. */
  ghost predicate GoodStep(s: Settlement, next: Settlement) {
    && Reachable(next)
    && Terms(next) == Terms(s)
    && next.revision == s.revision + 1
    && (!s.status.Locked? ==> !next.status.Locked?)
    && (s.status.Locked? && next.status.Locked? ==> next.windowDays == s.windowDays)
  }

  lemma {:induction false} ResolveIsGood(s: Settlement, i: ResolveInput)
    requires Reachable(s) && Resolve(s, i).Success?
    ensures GoodStep(s, Resolve(s, i).value) && s.status.Locked? && !Resolve(s, i).value.status.Locked?
  {
    NormalizeReachable(s);
    hide RoundedRate, Split;
    SplitWhole(i.target, s.amount, i.released, i.refunded);
  }

  /** What a resolution asked for is what it records: its target, the released part, the refund that makes up the
      amount, and the given rate or else the percentage nearest to the released part. */
  ghost predicate Records(next: Settlement, i: ResolveInput) {
    && next.status == i.target && next.resolvedAt == Some(i.at) && next.updatedAt == i.at
    && next.released == i.released.GetOr(if i.target.Released? then next.amount else 0)
    && next.refunded == next.amount - next.released
    && (if i.rate.Some? then next.rate == i.rate
        else
          && next.rate.Some?
          && (2 * next.rate.value - 1) * next.amount <= 200 * next.released < (2 * next.rate.value + 1) * next.amount)
    && next.dispute == NO_DISPUTE
  }

  /** A decision as a step records it: what the input gives, or else the step's own status, mode and trace. */
  predicate DecidedAs(next: Decision, d: DecisionInput, status: DecisionStatus, mode: DecisionMode,
      trace: Option<Text>, at: Time) {
    && next.status == (if d.status.Some? then d.status.value else status)
    && next.mode == (if d.mode.Some? then d.mode.value else mode)
    && next.policyHash == d.policyHash && next.reason == d.reason
    && next.trace == (if d.trace.Some? then d.trace else trace) && next.updatedAt == at
  }

  /** A dispute window of some days ends that many days of 86,400,000 ms after the resolution; none ends never. */
  predicate WindowSet(next: Settlement, days: int, at: Time) {
    && next.windowDays == days
    && next.windowEndsAt == if days == 0 then None else Some(at + days * 86400000)
  }

  lemma {:induction false} ResolutionRecords(s: Settlement, i: ResolveInput)
    requires Reachable(s) && Resolve(s, i).Success?
    ensures var next := Resolve(s, i).value;
      && Records(next, i) && next.runStatus == i.runStatus && next.resolutionEventId == i.eventId
      && DecidedAs(next.decision, i.decision, AutoResolved, Automatic, None, i.at)
      && WindowSet(next, if i.windowDays.Some? then i.windowDays.value else s.windowDays, i.at)
  {
    NormalizeReachable(s);
    var part := i.released.GetOr(if i.target.Released? then s.amount else 0);
    if part >= 0 {
      RateIsNearest(part, s.amount);
    }
    hide RoundedRate, Reachable;
  }

  /** A reconciliation records the same, but leaves the window alone and keeps the stored run status, event id and trace
      where none is given. */
  lemma {:induction false} ReconciliationRecords(s: Settlement, i: ResolveInput)
    requires Reachable(s) && Reconcile(s, i).Success?
    ensures var next := Reconcile(s, i).value;
      && Records(next, i) && next.windowDays == s.windowDays && next.windowEndsAt == s.windowEndsAt
      && next.runStatus == (if i.runStatus.Some? then i.runStatus else s.runStatus)
      && next.resolutionEventId == (if i.eventId.Some? then i.eventId else s.resolutionEventId)
      && DecidedAs(next.decision, i.decision, ManualResolved, ManualReview, s.decision.trace, i.at)
  {
    NormalizeReachable(s);
    var part := i.released.GetOr(if i.target.Released? then s.amount else 0);
    if part >= 0 {
      RateIsNearest(part, s.amount);
    }
    hide RoundedRate, Reachable;
  }

  /** Refunding what was released: possible exactly for a released settlement, with a run status and a revision to
      spare. Nothing stays released, the whole amount is refunded at rate 0, and the terms and the window stay. */
  lemma {:induction false} RefundReleasedIsGood(s: Settlement, i: RefundInput)
    requires Reachable(s)
    ensures RefundReleased(s, i).Success? <==> s.status.Released? && i.runStatus.Some? && s.revision < MAX_SAFE
    ensures RefundReleased(s, i).Success? ==> var next := RefundReleased(s, i).value;
      && GoodStep(s, next) && next.status.Refunded?
      && next.released == 0 && next.refunded == s.amount && next.rate == Some(0) && next.dispute == NO_DISPUTE
      && next.runStatus == i.runStatus && next.resolvedAt == Some(i.at) && next.updatedAt == i.at
      && next.resolutionEventId == (if i.eventId.Some? then i.eventId else s.resolutionEventId)
      && next.windowDays == s.windowDays && next.windowEndsAt == s.windowEndsAt
      && DecidedAs(next.decision, i.decision, ManualResolved, ManualReview, s.decision.trace, i.at)
  {
    NormalizeReachable(s);
  }

  lemma {:induction false} ReconcileIsGood(s: Settlement, i: ResolveInput)
    requires Reachable(s) && Reconcile(s, i).Success?
    ensures GoodStep(s, Reconcile(s, i).value) && !s.status.Locked?
  {
    NormalizeReachable(s);
    hide RoundedRate, Split;
    SplitWhole(i.target, s.amount, i.released, i.refunded);
  }

  /** Only the dispute and the bookkeeping of the step differ. */
  predicate SameButDispute(s: Settlement, next: Settlement) {
    next == s.(dispute := next.dispute, revision := next.revision, updatedAt := next.updatedAt)
  }

  lemma {:induction false} SteppedDispute(s: Settlement, d: Dispute, at: Time)
    requires Reachable(s) && DisputeShape(d)
    ensures Stepped(s, s.(dispute := d), at).Success? ==>
      var next := Stepped(s, s.(dispute := d), at).value;
      next == s.(dispute := d, revision := s.revision + 1, updatedAt := at) && GoodStep(s, next)
    ensures s.revision < MAX_SAFE ==> Stepped(s, s.(dispute := d), at).Success?
  {
    SteppedShape(s, s.(dispute := d), at);
    hide Stepped, DisputeShape;
  }

  /** Updating the decision: possible exactly for a locked settlement with a revision to spare; what is given replaces
      what is stored, and nothing else changes. */
  lemma {:induction false} DecideIsGood(s: Settlement, d: DecisionInput, at: Time)
    requires Reachable(s)
    ensures Decide(s, d, at).Success? <==> s.status.Locked? && s.revision < MAX_SAFE
    ensures Decide(s, d, at).Success? ==> var next := Decide(s, d, at).value;
      && GoodStep(s, next)
      && next == s.(decision := next.decision, revision := s.revision + 1, updatedAt := at)
      && next.decision.status == (if d.status.Some? then d.status.value else s.decision.status)
      && next.decision.mode == (if d.mode.Some? then d.mode.value else s.decision.mode)
      && next.decision.policyHash == (if d.policyHash.Some? then d.policyHash else s.decision.policyHash)
      && next.decision.reason == (if d.reason.Some? then d.reason else s.decision.reason)
      && next.decision.trace == (if d.trace.Some? then d.trace else s.decision.trace)
      && next.decision.updatedAt == at
  {
    NormalizeReachable(s);
    SteppedShape(s, s.(decision := Redecided(s.decision, d, at)), at);
    hide Stepped, DisputeShape, Normalize;
  }

  lemma {:induction false} AllGivenIff(items: seq<Item>)
    ensures AllGiven(items) <==> None !in items
  {
    if items != [] {
      var n := |items| - 1;
      assert items == items[..n] + [items[n]];
      AllGivenIff(items[..n]);
    }
  }

  /** The list holds exactly the given references, each once, in the order of their first mention. */
  ghost predicate FirstMentions(refs: seq<Ref>, items: seq<Item>) {
    && Distinct(refs) && (forall r :: r in refs <==> Some(r) in items)
    && forall i, j :: 0 <= i < j < |refs| ==> MentionedFirst(items, refs[i], refs[j])
  }

  /** Some mention of `r` has no mention of `q` up to it. */
  ghost predicate MentionedFirst(items: seq<Item>, r: Ref, q: Ref) {
    exists u :: 0 <= u < |items| && items[u] == Some(r) && Some(q) !in items[..u + 1]
  }

  lemma {:induction false} NormalEvidenceIs(items: seq<Item>)
    ensures NormalEvidence(items).Success? <==> None !in items
    ensures NormalEvidence(items).Success? ==> FirstMentions(NormalEvidence(items).value, items)
  {
    AllGivenIff(items);
    if AllGiven(items) {
      var refs := Somes(items);
      GivenSomes(items);
      DedupContents(refs);
      forall i, j | 0 <= i < j < |Dedup(refs)| ensures MentionedFirst(items, Dedup(refs)[i], Dedup(refs)[j]) {
        var u := DedupKeepsOrder(refs, i, j);
        assert forall v :: 0 <= v <= u ==> items[v] != Some(Dedup(refs)[j]);
      }
      forall r ensures r in Dedup(refs) <==> Some(r) in items {
        SomesContents(items, r);
      }
    }
  }

  lemma {:induction false} GivenSomes(items: seq<Item>)
    requires AllGiven(items)
    ensures |Somes(items)| == |items| && forall i :: 0 <= i < |items| ==> items[i] == Some(Somes(items)[i])
  {
    if items != [] {
      GivenSomes(items[..|items| - 1]);
    }
  }

  /** Opening: possible exactly when no dispute is open, all evidence is given and a revision is left. A fresh open
      dispute with the caller's id, else the last one's, else one generated from the run; its context is what is given,
      with the defaults for what is not. */
  lemma {:induction false} OpenIsGood(s: Settlement, id: Option<Text>, input: ContextInput, at: Time)
    requires Reachable(s)
    ensures OpenDispute(s, id, input, at).Success? <==>
      !s.dispute.status.Open? && None !in input.evidence && s.revision < MAX_SAFE
    ensures OpenDispute(s, id, input, at).Success? ==> var next := OpenDispute(s, id, input, at).value;
      && GoodStep(s, next) && SameButDispute(s, next) && next.updatedAt == at
      && next.dispute.status.Open? && next.dispute.openedAt == Some(at) && next.dispute.context.Some?
      && (next.dispute.id == if id.Some? then id else if s.dispute.id.Some? then s.dispute.id
        else Some(DisputeOf(s.run)))
      && ContextAsGiven(next.dispute.context.value, input)
  {
    NormalizeReachable(s);
    ContextKeepsShape(input, L1Counterparty);
    NormalEvidenceIs(input.evidence);
    if NormalContext(input, L1Counterparty).Success? {
      var context := NormalContext(input, L1Counterparty).value;
      var d := Dispute(Open, Some(id.OrElse(s.dispute.id).GetOr(DisputeOf(s.run))), Some(at), None, Some(context),
        None);
      SteppedDispute(s, d, at);
    }
    hide Stepped, DisputeShape, Normalize, NormalEvidence, Reachable, FirstMentions, Distinct;
  }

  ghost predicate ContextAsGiven(c: Context, input: ContextInput) {
    && c.kind == (if input.kind.Some? then input.kind.value else OtherKind)
    && c.priority == (if input.priority.Some? then input.priority.value else NormalPriority)
    && c.channel == (if input.channel.Some? then input.channel.value else Counterparty)
    && c.level == (if input.level.Some? then input.level.value else L1Counterparty)
    && c.openedBy == input.openedBy && c.reason == input.reason && c.jurisdiction == input.jurisdiction
    && FirstMentions(c.evidence, input.evidence)
  }

  /** The outcome of a dispute admits a release rate: all or nothing said for an accepted one, zero or nothing said
      for a rejected one, a proper part for a partial one, and nothing said for the others. */
  predicate RateAllowed(outcome: Outcome, rate: Option<int>) {
    && (outcome == Accepted ==> rate in {None, Some(100)})
    && (outcome == Rejected ==> rate in {None, Some(0)})
    && (outcome == Partial ==> rate.Some? && 1 <= rate.value <= 99)
    && (outcome == Withdrawn || outcome == Unresolved ==> rate == None)
  }

  lemma {:induction false} RateFitsIff(outcome: Outcome, rate: Option<int>)
    ensures RateFits(outcome, rate) <==> RateAllowed(outcome, rate)
  {
  }

  /** Closing: possible exactly for an open dispute whose id, where one is given, is the caller's, with a release rate
      that fits the outcome, all evidence given and a revision left. The dispute's id, opening time and context stay,
      and the resolution is what is given, with the defaults for what is not. */
  lemma {:induction false} CloseIsGood(s: Settlement, id: Option<Text>, input: ResolutionInput, at: Time)
    requires Reachable(s)
    ensures CloseDispute(s, id, input, at).Success? <==>
      && s.dispute.status.Open? && (id.Some? ==> id == s.dispute.id)
      && RateAllowed(if input.outcome.Some? then input.outcome.value else Unresolved, input.rate)
      && None !in input.evidence && s.revision < MAX_SAFE
    ensures CloseDispute(s, id, input, at).Success? ==> var next := CloseDispute(s, id, input, at).value;
      && GoodStep(s, next) && SameButDispute(s, next) && next.updatedAt == at
      && next.dispute.status.Closed? && next.dispute.closedAt == Some(at)
      && next.dispute.id == s.dispute.id && next.dispute.openedAt == s.dispute.openedAt
      && next.dispute.context == s.dispute.context && next.dispute.resolution.Some?
      && ResolutionAsGiven(next.dispute.resolution.value, input, at)
  {
    NormalizeReachable(s);
    ResolutionKeepsShape(input, at);
    NormalEvidenceIs(input.evidence);
    RateFitsIff(input.outcome.GetOr(Unresolved), input.rate);
    if NormalResolution(input, at).Success? && s.dispute.status.Open? {
      var resolution := NormalResolution(input, at).value;
      SteppedDispute(s, s.dispute.(status := Closed, closedAt := Some(at), resolution := Some(resolution)), at);
    }
    hide Stepped, Normalize, NormalEvidence, FirstMentions, Distinct, RateFits, RateAllowed, DisputeShape;
  }

  ghost predicate ResolutionAsGiven(r: Resolution, input: ResolutionInput, at: Time) {
    && r.outcome == (if input.outcome.Some? then input.outcome.value else Unresolved)
    && r.level == (if input.level.Some? then input.level.value else L1Counterparty)
    && r.closedAt == (if input.closedAt.Some? then input.closedAt else Some(at))
    && r.closedBy == input.closedBy && r.summary == input.summary && r.rate == input.rate
    && r.jurisdiction == input.jurisdiction && FirstMentions(r.evidence, input.evidence)
  }

  /** Patching: possible exactly for an open dispute, with all evidence given and a revision left. Only the dispute's
      context changes: what the patch gives or clears, with the stored evidence in front of a duplicate-free list. */
  lemma {:induction false} PatchIsGood(s: Settlement, p: ContextPatch, appended: seq<Item>, at: Time)
    requires Reachable(s)
    ensures PatchContext(s, p, appended, at).Success? <==>
      s.dispute.status.Open? && None !in p.evidence && None !in appended && s.revision < MAX_SAFE
    ensures PatchContext(s, p, appended, at).Success? ==> var next := PatchContext(s, p, appended, at).value;
      && GoodStep(s, next) && SameButDispute(s, next) && next.updatedAt == at
      && next.dispute == s.dispute.(context := next.dispute.context)
      && s.dispute.context.Some? && next.dispute.context.Some?
      && ContextAsPatched(s.dispute.context.value, next.dispute.context.value, p, appended)
  {
    NormalizeReachable(s);
    AllGivenIff(p.evidence);
    AllGivenIff(appended);
    if s.dispute.status.Open? && AllGiven(p.evidence) && AllGiven(appended) {
      var c := s.dispute.context.value;
      MergeKeepsStored(c.evidence, p.evidence, appended);
      var evidence := MergedEvidence(c.evidence, p.evidence, appended).value;
      var d := s.dispute.(context := Some(Patched(c, p, evidence)));
      SteppedDispute(s, d, at);
      PatchedFields(c, p, evidence);
    }
    hide Stepped, Normalize, Dedup, Somes, AllGiven, Patched;
  }

  lemma {:induction false} PatchedFields(c: Context, p: ContextPatch, evidence: seq<Ref>)
    ensures FieldsAsPatched(c, Patched(c, p, evidence), p) && Patched(c, p, evidence).evidence == evidence
  {
  }

  /** A field of the patch is left alone, falls back to its default when it is null, or takes the value given; a null
      level stays what it was. */
  predicate FieldsAsPatched(c: Context, after: Context, p: ContextPatch) {
    && after.kind == (match p.kind case Absent => c.kind case Null => OtherKind case Value(v) => v)
    && after.priority == (match p.priority case Absent => c.priority case Null => NormalPriority case Value(v) => v)
    && after.channel == (match p.channel case Absent => c.channel case Null => Counterparty case Value(v) => v)
    && after.level == (match p.level case Absent => c.level case Null => c.level case Value(v) => v)
    && after.openedBy == (match p.openedBy case Absent => c.openedBy case Null => None case Value(v) => Some(v))
    && after.reason == (match p.reason case Absent => c.reason case Null => None case Value(v) => Some(v))
    && after.jurisdiction
       == (match p.jurisdiction case Absent => c.jurisdiction case Null => None case Value(v) => Some(v))
  }

  ghost predicate ContextAsPatched(c: Context, after: Context, p: ContextPatch, appended: seq<Item>) {
    && FieldsAsPatched(c, after, p) && c.evidence <= after.evidence && Distinct(after.evidence)
    && forall r :: r in after.evidence <==> r in c.evidence || Some(r) in p.evidence || Some(r) in appended
  }

  // ----- every run -----

  lemma {:induction false} EveryStepIsGood(s: Settlement, a: Action)
    requires Reachable(s) && Step(s, a).Success?
    ensures GoodStep(s, Step(s, a).value)
  {
    hide Reachable, GoodStep, Resolve, RefundReleased, Reconcile, Decide, OpenDispute, CloseDispute, PatchContext,
      SameButDispute;
    match a
    case ResolveAction(i) => ResolveIsGood(s, i);
    case RefundReleasedAction(i) => RefundReleasedIsGood(s, i);
    case ReconcileAction(i) => ReconcileIsGood(s, i);
    case DecideAction(d, at) => DecideIsGood(s, d, at);
    case OpenAction(id, c, at) => OpenIsGood(s, id, c, at);
    case CloseAction(id, r, at) => CloseIsGood(s, id, r, at);
    case PatchAction(p, items, at) => PatchIsGood(s, p, items, at);
  }

  /** A step that throws leaves the stored settlement as it was. */
  function After(s: Settlement, actions: seq<Action>): Settlement {
    if actions == [] then s
    else
      var before := After(s, actions[..|actions| - 1]);
      var r := Step(before, actions[|actions| - 1]);
      if r.Success? then r.value else before
  }

  function Steps(s: Settlement, actions: seq<Action>): nat {
    if actions == [] then 0
    else
      var front, last := actions[..|actions| - 1], actions[|actions| - 1];
      Steps(s, front) + if Step(After(s, front), last).Success? then 1 else 0
  }

  /** Over every run: the shape holds, the terms never change, each successful step adds one revision, and a resolved
      settlement never becomes locked again. */
  lemma {:induction false} RunKeepsShape(s: Settlement, actions: seq<Action>)
    requires Reachable(s)
    ensures Reachable(After(s, actions)) && Terms(After(s, actions)) == Terms(s)
    ensures After(s, actions).revision == s.revision + Steps(s, actions)
    ensures !s.status.Locked? ==> !After(s, actions).status.Locked?
  {
    if actions != [] {
      hide Reachable, Step, Terms;
      var front, a := actions[..|actions| - 1], actions[|actions| - 1];
      RunKeepsShape(s, front);
      if Step(After(s, front), a).Success? {
        EveryStepIsGood(After(s, front), a);
      }
    }
  }

  /** From creation on: locked with nothing paid, or resolved with
      the whole amount split, and dispute fields that agree. */
  lemma {:induction false} CreatedRunKeepsShape(c: CreateInput, actions: seq<Action>)
    requires Create(c).Success?
    ensures var s := After(Create(c).value, actions);
      && MoneyShape(s) && DisputeShape(s.dispute)
        && Terms(s) == (c.run, c.tenant, c.payee, c.payer, c.amount, c.currency, c.at, c.at)
      && s.revision == Steps(Create(c).value, actions)
  {
    CreatedShape(c);
    RunKeepsShape(Create(c).value, actions);
    hide Step, MoneyShape, DisputeShape;
  }

  /** At most one resolution of a run succeeds: after one, every later one is refused. */
  lemma {:induction false} ResolvesOnce(s: Settlement, first: ResolveInput, between: seq<Action>, second: ResolveInput)
    requires Reachable(s) && Resolve(s, first).Success? && !second.target.Locked?
    ensures Resolve(After(Resolve(s, first).value, between), second) == Failure(AlreadyResolved)
  {
    ResolveIsGood(s, first);
    RunKeepsShape(Resolve(s, first).value, between);
    NormalizeReachable(After(Resolve(s, first).value, between));
    hide After, Reachable, Normalize;
  }

  /** The parts a resolution asks for fit the amount: the released part, all or nothing by default, lies within it, and
      the refunded part is the rest. A missing refund is taken as the rest when releasing, and as the whole when
      refunding. */
  predicate PartsFit(target: Status, amount: int, released: Option<int>, refunded: Option<int>) {
    var part := if released.Some? then released.value else if target.Released? then amount else 0;
    && 0 <= part <= amount
    && if refunded.Some? then refunded.value == amount - part else target.Released? || part == 0
  }

  /** The days are a safe integer and the window ends no later than the last date there is. */
  predicate WindowFits(days: int, at: Time) {
    0 <= days <= 9007199254740991 && (days > 0 ==> at + days * 86400000 <= 8640000000000000)
  }

  /** Exactly when a settlement can be resolved. */
  lemma {:induction false} ResolveSucceedsIff(s: Settlement, i: ResolveInput)
    requires Reachable(s)
    ensures Resolve(s, i).Success? <==>
      && s.status.Locked? && !i.target.Locked? && i.runStatus.Some?
      && PartsFit(i.target, s.amount, i.released, i.refunded)
      && (i.rate.Some? ==> 0 <= i.rate.value <= 100)
      && WindowFits(if i.windowDays.Some? then i.windowDays.value else s.windowDays, i.at)
      && s.revision < MAX_SAFE
  {
    NormalizeReachable(s);
    var split := Split(i.target, s.amount, i.released, i.refunded);
    SplitFits(i.target, s.amount, i.released, i.refunded);
    SplitWhole(i.target, s.amount, i.released, i.refunded);
    if split.Success? {
      RateInRange(split.value.0, s.amount);
    }
    hide RoundedRate, Split, PartsFit;
  }

  lemma {:induction false} SplitFits(target: Status, amount: int, released: Option<int>, refunded: Option<int>)
    requires Amount(amount)
    ensures !target.Locked? ==>
      (Split(target, amount, released, refunded).Success? <==> PartsFit(target, amount, released, refunded))
  {
  }

  /** Exactly when a resolved settlement can be reconciled. */
  lemma {:induction false} ReconcileSucceedsIff(s: Settlement, i: ResolveInput)
    requires Reachable(s)
    ensures Reconcile(s, i).Success? <==>
      && !s.status.Locked? && !i.target.Locked?
      && PartsFit(i.target, s.amount, i.released, i.refunded)
      && (i.rate.Some? ==> 0 <= i.rate.value <= 100)
      && s.revision < MAX_SAFE
  {
    NormalizeReachable(s);
    var split := Split(i.target, s.amount, i.released, i.refunded);
    SplitFits(i.target, s.amount, i.released, i.refunded);
    SplitWhole(i.target, s.amount, i.released, i.refunded);
    if split.Success? {
      RateInRange(split.value.0, s.amount);
    }
    hide RoundedRate, Split, PartsFit;
  }

  /** A step that the status of the settlement, of its dispute or a missing run status forbids is refused for that. */
  lemma {:induction false} RefusedForStatus(s: Settlement, i: ResolveInput, refund: RefundInput, d: DecisionInput,
      id: Option<Text>, context: ContextInput, resolution: ResolutionInput, p: ContextPatch, items: seq<Item>, at: Time)
    requires Reachable(s)
    ensures !s.status.Locked? && !i.target.Locked? ==> Resolve(s, i) == Failure(AlreadyResolved)
    ensures s.status.Locked? && !i.target.Locked? && i.runStatus.None? ==> Resolve(s, i) == Failure(MissingRunStatus)
    ensures s.status.Locked? ==> Reconcile(s, i) == Failure(NotResolved)
    ensures !s.status.Released? ==> RefundReleased(s, refund) == Failure(NotReleased)
    ensures s.status.Released? && refund.runStatus.None? ==> RefundReleased(s, refund) == Failure(MissingRunStatus)
    ensures !s.status.Locked? ==> Decide(s, d, at) == Failure(NotLocked)
    ensures s.dispute.status.Open? ==> OpenDispute(s, id, context, at) == Failure(DisputeIsOpen)
    ensures !s.dispute.status.Open? ==>
      && CloseDispute(s, id, resolution, at) == Failure(DisputeNotOpen)
      && PatchContext(s, p, items, at) == Failure(DisputeNotOpen)
    ensures s.dispute.status.Open? && id.Some? && id != s.dispute.id ==>
      CloseDispute(s, id, resolution, at) == Failure(DisputeIdMismatch)
  {
    NormalizeReachable(s);
    hide Normalize, Reachable, Split, RateFor, WindowEnd, Stepped;
  }
}
