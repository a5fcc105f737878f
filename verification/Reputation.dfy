/** Agent reputation: windowed counters over runs and settlements, and the scores computed from them. */
module Reputation {
  import opened Wrappers
  import opened Sequences
  import opened Numbers

  datatype Tenant = Tenant(code: int)
  datatype Agent = Agent(code: int)

  /** A time field: absent, present but not a date, or milliseconds. */
  datatype Stamp = Missing | Bad | At(ms: int)

  datatype RunStatus = Created | Running | Completed | Failed | OtherStatus

  /** `evidence` is the number of non-blank evidence references. */
  datatype RunRow = RunRow(tenant: Tenant, agent: Agent, status: RunStatus, evidence: nat, createdAt: Stamp,
      startedAt: Stamp, updatedAt: Stamp, completedAt: Stamp, failedAt: Stamp)

  datatype SettlementStatus = Locked | Released | Refunded | Unlisted

  datatype SettlementRow = SettlementRow(tenant: Tenant, agent: Agent, status: SettlementStatus, lockedAt: Stamp,
      resolvedAt: Stamp)

  /** One agent's rows observed from `cutoff`, where there is one, up to `asOf`. */
  datatype Scope = Scope(tenant: Tenant, agent: Agent, cutoff: Option<int>, asOf: int)

  datatype RiskTier = LowRisk | Guarded | Elevated | HighRisk

  datatype RunCounts = RunCounts(total: int, created: int, running: int, completed: int, failed: int, withEvidence: int,
    durationSum: int, durations: int)

  datatype SettlementCounts = SettlementCounts(locked: int, released: int, refunded: int)

  datatype Breakdown = Breakdown(runQuality: int, settlementQuality: int, evidenceQuality: int, activityScore: int)

  datatype Summary = Summary(trustScore: int, riskTier: RiskTier, runs: RunCounts, terminalRuns: int,
    settlements: SettlementCounts, totalSettlements: int, completionRate: Option<int>, evidenceRate: Option<int>,
    releaseRate: Option<int>, averageDuration: Option<int>, breakdown: Breakdown)

  // ----- observation times and windows -----

  function Or(a: Stamp, b: Stamp): Stamp {
    if a.Missing? then b else a
  }

  function Parsed(s: Stamp): Option<int> {
    if s.At? then Some(s.ms) else None
  }

  function EndStamp(r: RunRow): Stamp {
    if r.status.Completed? then r.completedAt else if r.status.Failed? then r.failedAt else Missing
  }

  function RunObservedAt(r: RunRow): Option<int> {
    Parsed(Or(EndStamp(r), Or(r.updatedAt, Or(r.startedAt, r.createdAt))))
  }

  function SettlementObservedAt(s: SettlementRow): Option<int> {
    Parsed(if s.status.Locked? then s.lockedAt else Or(s.resolvedAt, s.lockedAt))
  }

  predicate ShouldInclude(observed: Option<int>, cutoff: Option<int>, asOf: int) {
    if observed.Some? && observed.value > asOf then false
    else if cutoff.None? then true
    else if observed.None? then false
    else observed.value >= cutoff.value
  }

  function InScope(q: Scope): RunRow -> bool {
    (r: RunRow) => r.tenant == q.tenant && r.agent == q.agent && ShouldInclude(RunObservedAt(r), q.cutoff, q.asOf)
  }

  function WithStatus(q: Scope, s: RunStatus): RunRow -> bool {
    (r: RunRow) => InScope(q)(r) && r.status == s
  }

  function WithEvidence(q: Scope): RunRow -> bool {
    (r: RunRow) => InScope(q)(r) && r.evidence > 0
  }

  function Timed(q: Scope): RunRow -> bool {
    (r: RunRow) => InScope(q)(r) && r.startedAt.At? && EndStamp(r).At? && EndStamp(r).ms >= r.startedAt.ms
  }

  function Duration(q: Scope): RunRow -> int {
    (r: RunRow) => if Timed(q)(r) then EndStamp(r).ms - r.startedAt.ms else 0
  }

  function SettledAs(q: Scope, s: SettlementStatus): SettlementRow -> bool {
    (r: SettlementRow) =>
      r.tenant == q.tenant && r.agent == q.agent && ShouldInclude(SettlementObservedAt(r), q.cutoff, q.asOf)
        && r.status == s
  }

  function CountRuns(q: Scope, rows: seq<RunRow>): RunCounts {
    RunCounts(Count(InScope(q), rows), Count(WithStatus(q, Created), rows), Count(WithStatus(q, Running), rows),
      Count(WithStatus(q, Completed), rows), Count(WithStatus(q, Failed), rows), Count(WithEvidence(q), rows),
      Sum(Duration(q), rows), Count(Timed(q), rows))
  }

  function CountSettlements(q: Scope, rows: seq<SettlementRow>): SettlementCounts {
    SettlementCounts(Count(SettledAs(q, Locked), rows), Count(SettledAs(q, Released), rows),
      Count(SettledAs(q, Refunded), rows))
  }

  // ----- scores -----

  /** `Math.round(n / d)` brought into `lo..hi`. */
  function ClampRounded(n: int, d: int, lo: int, hi: int): int
    requires d > 0
  {
    var rounded := (2 * n + d) / (2 * d);
    if rounded < lo then lo else if rounded > hi then hi else rounded
  }

  function RatioPct(numerator: int, denominator: int): Option<int> {
    if denominator <= 0 then None else Some(ClampRounded(numerator * 100, denominator, 0, 100))
  }

  function TierOf(trust: int): RiskTier {
    if trust >= 90 then LowRisk else if trust >= 75 then Guarded else if trust >= 50 then Elevated else HighRisk
  }

  function Weighted(b: Breakdown): int {
    ClampRounded(b.runQuality * 55 + b.settlementQuality * 30 + b.evidenceQuality * 10 + b.activityScore * 5, 100, 0,
      100)
  }

  function Scored(r: RunCounts, s: SettlementCounts): Summary {
    var terminal, resolved := r.completed + r.failed, s.released + s.refunded;
    var completion, evidence, release :=
      RatioPct(r.completed, terminal), RatioPct(r.withEvidence, terminal), RatioPct(s.released, resolved);
    var runQuality := completion.GetOr(50);
    var breakdown := Breakdown(runQuality, release.GetOr(runQuality), evidence.GetOr(50),
      ClampRounded(Min(r.total, 50) * 100, 50, 0, 100));
    var trust := Weighted(breakdown);
    Summary(trust, TierOf(trust), r, terminal, s, s.locked + resolved, completion, evidence, release,
      if r.durations > 0 then Some(r.durationSum / r.durations) else None, breakdown)
  }

  function Summarize(q: Scope, runs: seq<RunRow>, settlements: seq<SettlementRow>): Summary {
    Scored(CountRuns(q, runs), CountSettlements(q, settlements))
  }

  lemma {:induction false} RunCountsStep(q: Scope, rows: seq<RunRow>, i: nat)
    requires i < |rows|
    ensures var r, c := rows[i], CountRuns(q, rows[..i]);
      CountRuns(q, rows[..i + 1])
        == if !InScope(q)(r) then c
           else RunCounts(c.total + 1, c.created + (if r.status.Created? then 1 else 0),
             c.running + (if r.status.Running? then 1 else 0),
             c.completed + (if r.status.Completed? then 1 else 0), c.failed + (if r.status.Failed? then 1 else 0),
             c.withEvidence + (if r.evidence > 0 then 1 else 0),
             c.durationSum + Duration(q)(r), c.durations + (if Timed(q)(r) then 1 else 0))
  {
    CountPrefixStep(InScope(q), rows, i);
    CountPrefixStep(WithStatus(q, Created), rows, i);
    CountPrefixStep(WithStatus(q, Running), rows, i);
    CountPrefixStep(WithStatus(q, Completed), rows, i);
    CountPrefixStep(WithStatus(q, Failed), rows, i);
    CountPrefixStep(WithEvidence(q), rows, i);
    SumPrefixStep(Duration(q), rows, i);
    CountPrefixStep(Timed(q), rows, i);
    hide Count, Sum, InScope;
  }

  lemma {:induction false} SettlementCountsStep(q: Scope, rows: seq<SettlementRow>, i: nat)
    requires i < |rows|
    ensures var r, c := rows[i], CountSettlements(q, rows[..i]);
      CountSettlements(q, rows[..i + 1])
        == SettlementCounts(c.locked + (if SettledAs(q, Locked)(r) then 1 else 0),
          c.released + (if SettledAs(q, Released)(r) then 1 else 0),
             c.refunded + (if SettledAs(q, Refunded)(r) then 1 else 0))
  {
    CountPrefixStep(SettledAs(q, Locked), rows, i);
    CountPrefixStep(SettledAs(q, Released), rows, i);
    CountPrefixStep(SettledAs(q, Refunded), rows, i);
    hide Count, SettledAs;
  }

  /** The first loop: eight counters over the runs. */
  method CountRunRows(q: Scope, rows: seq<RunRow>) returns (c: RunCounts)
    ensures c == CountRuns(q, rows)
  {
    var totalRuns, createdRuns, runningRuns, completedRuns, failedRuns := 0, 0, 0, 0, 0;
    var runsWithEvidence, durationSumMs, durationCount := 0, 0, 0;
    for i := 0 to |rows|
      invariant CountRuns(q, rows[..i])
        == RunCounts(totalRuns, createdRuns, runningRuns, completedRuns, failedRuns, runsWithEvidence, durationSumMs,
          durationCount)
    {
      RunCountsStep(q, rows, i);
      hide CountRuns, ShouldInclude, RunObservedAt;
      var row := rows[i];
      if row.tenant != q.tenant || row.agent != q.agent {
        continue;
      }
      if !ShouldInclude(RunObservedAt(row), q.cutoff, q.asOf) {
        continue;
      }
      totalRuns := totalRuns + 1;
      match row.status {
        case Created => createdRuns := createdRuns + 1;
        case Running => runningRuns := runningRuns + 1;
        case Completed => completedRuns := completedRuns + 1;
        case Failed => failedRuns := failedRuns + 1;
        case OtherStatus =>
      }
      if row.evidence > 0 {
        runsWithEvidence := runsWithEvidence + 1;
      }
      var ended := EndStamp(row);
      if row.startedAt.At? && ended.At? && ended.ms >= row.startedAt.ms {
        durationSumMs := durationSumMs + (ended.ms - row.startedAt.ms);
        durationCount := durationCount + 1;
      }
    }
    assert rows[..|rows|] == rows;
    c := RunCounts(totalRuns, createdRuns, runningRuns, completedRuns, failedRuns, runsWithEvidence, durationSumMs,
      durationCount);
  }

  /** The second loop: three counters over the settlements. */
  method CountSettlementRows(q: Scope, rows: seq<SettlementRow>) returns (c: SettlementCounts)
    ensures c == CountSettlements(q, rows)
  {
    var locked, released, refunded := 0, 0, 0;
    for i := 0 to |rows|
      invariant CountSettlements(q, rows[..i]) == SettlementCounts(locked, released, refunded)
    {
      SettlementCountsStep(q, rows, i);
      hide CountSettlements, ShouldInclude, SettlementObservedAt;
      var row := rows[i];
      if row.tenant != q.tenant || row.agent != q.agent {
        continue;
      }
      if !ShouldInclude(SettlementObservedAt(row), q.cutoff, q.asOf) {
        continue;
      }
      match row.status {
        case Locked => locked := locked + 1;
        case Released => released := released + 1;
        case Refunded => refunded := refunded + 1;
        case Unlisted =>
      }
    }
    assert rows[..|rows|] == rows;
    c := SettlementCounts(locked, released, refunded);
  }

  method ComputeReputationSummary(q: Scope, runs: seq<RunRow>, settlements: seq<SettlementRow>) returns (s: Summary)
    ensures s == Summarize(q, runs, settlements)
  {
    var r := CountRunRows(q, runs);
    var c := CountSettlementRows(q, settlements);
    s := Scored(r, c);
  }

  // ----- the three windows -----

  datatype Window = SevenDays | ThirtyDays | AllTime

  const DAY_MS: int := 86400000

  function ScopeOf(tenant: Tenant, agent: Agent, now: int, w: Window): Scope {
    var cutoff :=
      match w case SevenDays => Some(now - 7 * DAY_MS) case ThirtyDays => Some(now - 30 * DAY_MS) case AllTime => None;
    Scope(tenant, agent, cutoff, now)
  }

  datatype ReputationV2 = ReputationV2(primaryWindow: Window, trustScore: int, riskTier: RiskTier, sevenDays: Summary,
      thirtyDays: Summary, allTime: Summary)

  /** The reputation headed by the primary window's scores; thirty days unless another window is asked for. */
  function ComputeV2(tenant: Tenant, agent: Agent, runs: seq<RunRow>, settlements: seq<SettlementRow>, now: int,
      primary: Option<Window>): ReputationV2 {
    var week := Summarize(ScopeOf(tenant, agent, now, SevenDays), runs, settlements);
    var month := Summarize(ScopeOf(tenant, agent, now, ThirtyDays), runs, settlements);
    var ever := Summarize(ScopeOf(tenant, agent, now, AllTime), runs, settlements);
    var w := primary.GetOr(ThirtyDays);
    var head := match w case SevenDays => week case ThirtyDays => month case AllTime => ever;
    ReputationV2(w, head.trustScore, head.riskTier, week, month, ever)
  }

  // ----- properties of the scores -----

  /** All scores of every summary lie in 0..100, and so does every rate that is given. */
  lemma {:induction false} ScoresInRange(q: Scope, runs: seq<RunRow>, settlements: seq<SettlementRow>)
    ensures var s := Summarize(q, runs, settlements); var b := s.breakdown;
      && 0 <= s.trustScore <= 100 && 0 <= b.runQuality <= 100 && 0 <= b.settlementQuality <= 100
      && 0 <= b.evidenceQuality <= 100 && 0 <= b.activityScore <= 100
      && (s.completionRate.Some? ==> 0 <= s.completionRate.value <= 100)
      && (s.evidenceRate.Some? ==> 0 <= s.evidenceRate.value <= 100)
      && (s.releaseRate.Some? ==> 0 <= s.releaseRate.value <= 100)
  {
    hide CountRuns, CountSettlements;
  }

  lemma {:induction false} RoundedBetween(n: int, d: int, lo: int, hi: int)
    requires d > 0 && lo * d <= n <= hi * d
    ensures lo <= (2 * n + d) / (2 * d) <= hi
  {
    assert lo * (2 * d) == 2 * (lo * d) && (hi + 1) * (2 * d) == 2 * (hi * d) + 2 * d;
    DivAtLeast(2 * n + d, 2 * d, lo);
    DivAtMost(2 * n + d, 2 * d, hi);
  }

  /** The trust score never leaves the range of its four parts. */
  lemma {:induction false} TrustBetweenParts(b: Breakdown, lo: int, hi: int)
    requires 0 <= lo <= hi <= 100
    requires lo <= b.runQuality <= hi && lo <= b.settlementQuality <= hi && lo <= b.evidenceQuality <= hi
      && lo <= b.activityScore <= hi
    ensures lo <= Weighted(b) <= hi
  {
    RoundedBetween(b.runQuality * 55 + b.settlementQuality * 30 + b.evidenceQuality * 10 + b.activityScore * 5, 100, lo,
      hi);
  }

  lemma {:induction false} RoundedMonotone(n: int, m: int, d: int, lo: int, hi: int)
    requires d > 0 && n <= m
    ensures ClampRounded(n, d, lo, hi) <= ClampRounded(m, d, lo, hi) || lo > hi
  {
    DivMonotone(2 * n + d, 2 * m + d, 2 * d);
  }

  /** No part's rounding or fallback can turn a better part into a lower trust score. */
  lemma {:induction false} TrustMonotone(a: Breakdown, b: Breakdown)
    requires a.runQuality <= b.runQuality && a.settlementQuality <= b.settlementQuality
      && a.evidenceQuality <= b.evidenceQuality
    requires a.activityScore <= b.activityScore
    ensures Weighted(a) <= Weighted(b)
  {
    RoundedMonotone(a.runQuality * 55 + a.settlementQuality * 30 + a.evidenceQuality * 10 + a.activityScore * 5,
      b.runQuality * 55 + b.settlementQuality * 30 + b.evidenceQuality * 10 + b.activityScore * 5, 100, 0, 100);
    hide ClampRounded;
  }

  /** A rate is the percentage nearest to its ratio, half upwards;
      a numerator beyond the denominator counts as all of it. */
  lemma {:induction false} RatioIsNearest(n: nat, d: nat)
    requires d > 0
    ensures RatioPct(n, d).Some?
    ensures n <= d ==> var r := RatioPct(n, d).value; (2 * r - 1) * d <= 200 * n < (2 * r + 1) * d
    ensures n >= d ==> RatioPct(n, d) == Some(100)
  {
    var num, den := 200 * n + d, 2 * d;
    assert num == 2 * (n * 100) + d;
    if n <= d {
      DivAtLeast(num, den, 0);
      DivAtMost(num, den, 100);
      QuotientNearest(n, d);
    }
    if n >= d {
      DivAtLeast(num, den, 100);
    }
  }

  lemma {:induction false} QuotientNearest(n: nat, d: nat)
    requires d > 0
    ensures var q := (200 * n + d) / (2 * d); (2 * q - 1) * d <= 200 * n < (2 * q + 1) * d
  {
    var num, den := 200 * n + d, 2 * d;
    var q := num / den;
    assert num == q * den + num % den && 0 <= num % den < den;
    assert q * den == 2 * q * d;
  }

  /** The trust score is the mean of its parts with weights 55, 30, 10 and 5, to within half a point. */
  lemma {:induction false} TrustIsWeightedMean(b: Breakdown)
    requires 0 <= b.runQuality <= 100 && 0 <= b.settlementQuality <= 100 && 0 <= b.evidenceQuality <= 100
    requires 0 <= b.activityScore <= 100
    ensures var mean100 := 55 * b.runQuality + 30 * b.settlementQuality + 10 * b.evidenceQuality + 5 * b.activityScore;
      100 * Weighted(b) - 50 <= mean100 < 100 * Weighted(b) + 50
  {
  }

  // ----- row order -----

  lemma {:induction false} RunOrderIrrelevant(q: Scope, xs: seq<RunRow>, ys: seq<RunRow>)
    requires multiset(xs) == multiset(ys)
    ensures CountRuns(q, xs) == CountRuns(q, ys)
  {
    CountPermutation(InScope(q), xs, ys);
    CountPermutation(WithStatus(q, Created), xs, ys);
    CountPermutation(WithStatus(q, Running), xs, ys);
    CountPermutation(WithStatus(q, Completed), xs, ys);
    CountPermutation(WithStatus(q, Failed), xs, ys);
    CountPermutation(WithEvidence(q), xs, ys);
    SumPermutation(Duration(q), xs, ys);
    CountPermutation(Timed(q), xs, ys);
    hide Count, Sum;
  }

  lemma {:induction false} SettlementOrderIrrelevant(q: Scope, xs: seq<SettlementRow>, ys: seq<SettlementRow>)
    requires multiset(xs) == multiset(ys)
    ensures CountSettlements(q, xs) == CountSettlements(q, ys)
  {
    CountPermutation(SettledAs(q, Locked), xs, ys);
    CountPermutation(SettledAs(q, Released), xs, ys);
    CountPermutation(SettledAs(q, Refunded), xs, ys);
    hide Count;
  }

  /** The whole reputation is the same for every order of the rows. */
  lemma {:induction false} RowOrderIrrelevant(tenant: Tenant, agent: Agent, runs: seq<RunRow>, runs': seq<RunRow>,
      settlements: seq<SettlementRow>, settlements': seq<SettlementRow>, now: int, primary: Option<Window>)
    requires multiset(runs) == multiset(runs') && multiset(settlements) == multiset(settlements')
    ensures ComputeV2(tenant, agent, runs, settlements, now, primary)
      == ComputeV2(tenant, agent, runs', settlements', now, primary)
  {
    hide CountRuns, CountSettlements, Scored;
    SameSummary(ScopeOf(tenant, agent, now, SevenDays), runs, runs', settlements, settlements');
    SameSummary(ScopeOf(tenant, agent, now, ThirtyDays), runs, runs', settlements, settlements');
    SameSummary(ScopeOf(tenant, agent, now, AllTime), runs, runs', settlements, settlements');
    hide Summarize;
  }

  lemma {:induction false} SameSummary(q: Scope, runs: seq<RunRow>, runs': seq<RunRow>, settlements: seq<SettlementRow>,
      settlements': seq<SettlementRow>)
    requires multiset(runs) == multiset(runs') && multiset(settlements) == multiset(settlements')
    ensures Summarize(q, runs, settlements) == Summarize(q, runs', settlements')
  {
    RunOrderIrrelevant(q, runs, runs');
    SettlementOrderIrrelevant(q, settlements, settlements');
    hide CountRuns, CountSettlements, Scored;
  }

  // ----- nested windows -----

  predicate RunsWithin(a: RunCounts, b: RunCounts) {
    && a.total <= b.total && a.created <= b.created && a.running <= b.running && a.completed <= b.completed
      && a.failed <= b.failed
    && a.withEvidence <= b.withEvidence && a.durationSum <= b.durationSum && a.durations <= b.durations
  }

  predicate SettlementsWithin(a: SettlementCounts, b: SettlementCounts) {
    a.locked <= b.locked && a.released <= b.released && a.refunded <= b.refunded
  }

  /** `wide` looks back at least as far as `narrow`. */
  predicate Wider(narrow: Scope, wide: Scope) {
    && narrow.tenant == wide.tenant && narrow.agent == wide.agent && narrow.asOf == wide.asOf
    && (wide.cutoff.Some? ==> narrow.cutoff.Some? && wide.cutoff.value <= narrow.cutoff.value)
  }

  lemma {:induction false} SumMonotone<T(!new)>(f: T -> int, g: T -> int, xs: seq<T>)
    requires forall x :: x in xs ==> f(x) <= g(x)
    ensures Sum(f, xs) <= Sum(g, xs)
  {
    if xs != [] {
      var n := |xs| - 1;
      assert xs[n] in xs;
      SumMonotone(f, g, xs[..n]);
    }
  }

  lemma {:induction false} DurationIs(q: Scope, r: RunRow)
    ensures Timed(q)(r) ==> EndStamp(r).At? && r.startedAt.At? && Duration(q)(r) == EndStamp(r).ms - r.startedAt.ms >= 0
    ensures !Timed(q)(r) ==> Duration(q)(r) == 0
  {
  }

  lemma {:induction false} ScopesNest(narrow: Scope, wide: Scope, r: RunRow)
    requires Wider(narrow, wide)
    ensures InScope(narrow)(r) ==> InScope(wide)(r)
    ensures Timed(narrow)(r) ==> Timed(wide)(r)
    ensures Duration(narrow)(r) <= Duration(wide)(r)
  {
    assert ShouldInclude(RunObservedAt(r), narrow.cutoff, narrow.asOf) ==>
      ShouldInclude(RunObservedAt(r), wide.cutoff, wide.asOf);
    assert InScope(narrow)(r) ==> InScope(wide)(r);
    DurationIs(narrow, r);
    DurationIs(wide, r);
  }

  lemma {:induction false} WiderCountsMoreRuns(narrow: Scope, wide: Scope, runs: seq<RunRow>)
    requires Wider(narrow, wide)
    ensures RunsWithin(CountRuns(narrow, runs), CountRuns(wide, runs))
  {
    forall r ensures (InScope(narrow)(r) ==> InScope(wide)(r)) && (Timed(narrow)(r) ==> Timed(wide)(r))
      && Duration(narrow)(r) <= Duration(wide)(r) {
      ScopesNest(narrow, wide, r);
    }
    hide InScope, Timed, Duration, Count, Sum, Wider;
    CountMonotone(InScope(narrow), InScope(wide), runs);
    CountMonotone(WithStatus(narrow, Created), WithStatus(wide, Created), runs);
    CountMonotone(WithStatus(narrow, Running), WithStatus(wide, Running), runs);
    CountMonotone(WithStatus(narrow, Completed), WithStatus(wide, Completed), runs);
    CountMonotone(WithStatus(narrow, Failed), WithStatus(wide, Failed), runs);
    CountMonotone(WithEvidence(narrow), WithEvidence(wide), runs);
    SumMonotone(Duration(narrow), Duration(wide), runs);
    CountMonotone(Timed(narrow), Timed(wide), runs);
  }

  lemma {:induction false} WiderCountsMoreSettlements(narrow: Scope, wide: Scope, settlements: seq<SettlementRow>)
    requires Wider(narrow, wide)
    ensures SettlementsWithin(CountSettlements(narrow, settlements), CountSettlements(wide, settlements))
  {
    CountMonotone(SettledAs(narrow, Locked), SettledAs(wide, Locked), settlements);
    CountMonotone(SettledAs(narrow, Released), SettledAs(wide, Released), settlements);
    CountMonotone(SettledAs(narrow, Refunded), SettledAs(wide, Refunded), settlements);
    hide Count;
  }

  /** Every run and settlement counter of seven days is at most
      that of thirty days, and that at most the one of all time. */
  lemma {:induction false} WindowsNested(tenant: Tenant, agent: Agent, runs: seq<RunRow>,
      settlements: seq<SettlementRow>, now: int, primary: Option<Window>)
    ensures var v := ComputeV2(tenant, agent, runs, settlements, now, primary);
      && RunsWithin(v.sevenDays.runs, v.thirtyDays.runs) && RunsWithin(v.thirtyDays.runs, v.allTime.runs)
      && SettlementsWithin(v.sevenDays.settlements, v.thirtyDays.settlements)
        && SettlementsWithin(v.thirtyDays.settlements, v.allTime.settlements)
  {
    hide CountRuns, CountSettlements;
    var week, month, ever := ScopeOf(tenant, agent, now, SevenDays), ScopeOf(tenant, agent, now, ThirtyDays),
      ScopeOf(tenant, agent, now, AllTime);
    WiderCountsMoreRuns(week, month, runs);
    WiderCountsMoreRuns(month, ever, runs);
    WiderCountsMoreSettlements(week, month, settlements);
    WiderCountsMoreSettlements(month, ever, settlements);
    hide RunsWithin, SettlementsWithin, RatioPct, Weighted, ClampRounded;
  }

  // ----- completing instead of failing -----

  /** The same run, completed at the time at which it failed. */
  function CompletedInstead(r: RunRow): RunRow {
    r.(status := Completed, completedAt := r.failedAt)
  }

  lemma {:induction false} CompletedSameTimes(q: Scope, r: RunRow)
    requires r.status.Failed?
    ensures var c := CompletedInstead(r);
      InScope(q)(c) == InScope(q)(r) && Timed(q)(c) == Timed(q)(r) && Duration(q)(c) == Duration(q)(r)
  {
  }

  lemma {:induction false} CompletedCounts(q: Scope, runs: seq<RunRow>, i: nat)
    requires i < |runs| && runs[i].status.Failed?
    ensures var a, b := CountRuns(q, runs), CountRuns(q, runs[i := CompletedInstead(runs[i])]);
      var k := if InScope(q)(runs[i]) then 1 else 0;
      b == a.(completed := a.completed + k, failed := a.failed - k)
  {
    var c := CompletedInstead(runs[i]);
    CompletedSameTimes(q, runs[i]);
    CountUpdate(InScope(q), runs, i, c);
    CountUpdate(WithStatus(q, Created), runs, i, c);
    CountUpdate(WithStatus(q, Running), runs, i, c);
    CountUpdate(WithStatus(q, Completed), runs, i, c);
    CountUpdate(WithStatus(q, Failed), runs, i, c);
    CountUpdate(WithEvidence(q), runs, i, c);
    SumUpdate(Duration(q), runs, i, c);
    CountUpdate(Timed(q), runs, i, c);
    hide Count, Sum, InScope, Timed, Duration;
  }

  /** Turning a failed run into one completed at the same times never lowers the trust score of any scope, through every
      rounding and through the settlement quality that falls back on the run quality. */
  lemma {:induction false} CompletingNeverHurts(q: Scope, runs: seq<RunRow>, settlements: seq<SettlementRow>, i: nat)
    requires i < |runs| && runs[i].status.Failed?
    ensures Summarize(q, runs, settlements).trustScore
      <= Summarize(q, runs[i := CompletedInstead(runs[i])], settlements).trustScore
  {
    CompletedCounts(q, runs, i);
    hide CountRuns, CountSettlements, InScope;
    CompletionRaisesTrust(CountRuns(q, runs), CountSettlements(q, settlements), if InScope(q)(runs[i]) then 1 else 0);
    hide Scored;
  }

  lemma {:induction false} CompletionRaisesTrust(a: RunCounts, s: SettlementCounts, k: nat)
    ensures Scored(a, s).trustScore <= Scored(a.(completed := a.completed + k, failed := a.failed - k), s).trustScore
  {
    var b := a.(completed := a.completed + k, failed := a.failed - k);
    CompletionRaisesParts(a, s, k);
    TrustIsWeighted(a, s);
    TrustIsWeighted(b, s);
    hide Scored, Weighted;
    TrustMonotone(Scored(a, s).breakdown, Scored(b, s).breakdown);
  }

  lemma {:induction false} TrustIsWeighted(a: RunCounts, s: SettlementCounts)
    ensures Scored(a, s).trustScore == Weighted(Scored(a, s).breakdown)
  {
    hide Weighted, RatioPct, ClampRounded;
  }

  lemma {:induction false} CompletionRaisesParts(a: RunCounts, s: SettlementCounts, k: nat)
    ensures var x, y := Scored(a, s).breakdown,
      Scored(a.(completed := a.completed + k, failed := a.failed - k), s).breakdown;
      && x.runQuality <= y.runQuality && x.settlementQuality <= y.settlementQuality
      && x.evidenceQuality == y.evidenceQuality && x.activityScore == y.activityScore
  {
    var terminal := a.completed + a.failed;
    assert (a.completed + k) + (a.failed - k) == terminal;
    if terminal > 0 {
      RoundedMonotone(a.completed * 100, (a.completed + k) * 100, terminal, 0, 100);
    }
    hide ClampRounded, Weighted;
  }

  // ----- what a summary says -----

  /** The time at which a run is observed: that of its end, or else of its update, start or creation, whichever is the
      first to be given; a time that is given but is no date gives none. */
  lemma {:induction false} RunObserved(r: RunRow)
    ensures var ended := (r.status.Completed? && !r.completedAt.Missing?) || (r.status.Failed? && !r.failedAt.Missing?);
      && (r.status.Completed? && r.completedAt.At? ==> RunObservedAt(r) == Some(r.completedAt.ms))
      && (r.status.Failed? && r.failedAt.At? ==> RunObservedAt(r) == Some(r.failedAt.ms))
      && (ended && !RunObservedAt(r).Some? ==> r.completedAt.Bad? || r.failedAt.Bad?)
      && (!ended && r.updatedAt.At? ==> RunObservedAt(r) == Some(r.updatedAt.ms))
      && (!ended && r.updatedAt.Missing? && r.startedAt.At? ==> RunObservedAt(r) == Some(r.startedAt.ms))
      && (!ended && r.updatedAt.Missing? && r.startedAt.Missing? ==>
           RunObservedAt(r) == if r.createdAt.At? then Some(r.createdAt.ms) else None)
      && (!ended && (r.updatedAt.Bad? || (r.updatedAt.Missing? && r.startedAt.Bad?)) ==> RunObservedAt(r).None?)
  {
  }

  /** A settlement is observed when it was resolved, or when it was locked if it still is or no time of resolution is
      given. */
  lemma {:induction false} SettlementObserved(s: SettlementRow)
    ensures s.status.Locked? || s.resolvedAt.Missing? ==>
      SettlementObservedAt(s) == if s.lockedAt.At? then Some(s.lockedAt.ms) else None
    ensures !s.status.Locked? && !s.resolvedAt.Missing? ==>
      SettlementObservedAt(s) == if s.resolvedAt.At? then Some(s.resolvedAt.ms) else None
  {
  }

  /** Which observation times a window takes in, at time `now`: none after now, and none before the last 7 or 30 days of
      86,400,000 ms; a row without a time counts for all time only. */
  predicate InWindow(observed: Option<int>, w: Window, now: int) {
    match observed
    case None => w.AllTime?
    case Some(t) =>
      t <= now && (w.SevenDays? ==> t >= now - 604800000) && (w.ThirtyDays? ==> t >= now - 2592000000)
  }

  lemma {:induction false} WindowTakes(tenant: Tenant, agent: Agent, now: int, w: Window, r: RunRow, s: SettlementRow,
      status: SettlementStatus)
    ensures var q := ScopeOf(tenant, agent, now, w);
      && (InScope(q)(r) <==> r.tenant == tenant && r.agent == agent && InWindow(RunObservedAt(r), w, now))
      && (SettledAs(q, status)(s) <==>
            && s.tenant == tenant && s.agent == agent && s.status == status
            && InWindow(SettlementObservedAt(s), w, now))
  {
    hide RunObservedAt, SettlementObservedAt;
  }

  /** The counters count the rows of the scope by status, those
      with evidence, and those with a start and a later end. */
  lemma {:induction false} CountersCount(q: Scope, runs: seq<RunRow>, settlements: seq<SettlementRow>)
    ensures var c := Summarize(q, runs, settlements).runs;
      && c.total == Count(InScope(q), runs)
      && c.created == Count((r: RunRow) => InScope(q)(r) && r.status.Created?, runs)
      && c.running == Count((r: RunRow) => InScope(q)(r) && r.status.Running?, runs)
      && c.completed == Count((r: RunRow) => InScope(q)(r) && r.status.Completed?, runs)
      && c.failed == Count((r: RunRow) => InScope(q)(r) && r.status.Failed?, runs)
      && c.withEvidence == Count((r: RunRow) => InScope(q)(r) && r.evidence >= 1, runs)
      && c.durations == Count(Timed(q), runs) && c.durationSum == Sum(Duration(q), runs)
    ensures var c := Summarize(q, runs, settlements).settlements;
      && c.locked == Count(SettledAs(q, Locked), settlements)
      && c.released == Count(SettledAs(q, Released), settlements)
      && c.refunded == Count(SettledAs(q, Refunded), settlements)
  {
    SameCount(WithStatus(q, Created), (r: RunRow) => InScope(q)(r) && r.status.Created?, runs);
    SameCount(WithStatus(q, Running), (r: RunRow) => InScope(q)(r) && r.status.Running?, runs);
    SameCount(WithStatus(q, Completed), (r: RunRow) => InScope(q)(r) && r.status.Completed?, runs);
    SameCount(WithStatus(q, Failed), (r: RunRow) => InScope(q)(r) && r.status.Failed?, runs);
    SameCount(WithEvidence(q), (r: RunRow) => InScope(q)(r) && r.evidence >= 1, runs);
    hide Count, Sum, InScope, Timed, Duration, RatioPct, ClampRounded, Weighted, TierOf;
  }

  /** A run is timed from its start to its completion or failure, when both are dates and in that order. */
  lemma {:induction false} TimedIff(q: Scope, r: RunRow)
    ensures var ended :=
        if r.status.Completed? then r.completedAt else if r.status.Failed? then r.failedAt else Missing;
      && (Timed(q)(r) <==> InScope(q)(r) && r.startedAt.At? && ended.At? && r.startedAt.ms <= ended.ms)
      && Duration(q)(r) == if Timed(q)(r) then ended.ms - r.startedAt.ms else 0
  {
    hide InScope;
  }

  lemma {:induction false} SameCount(p: RunRow -> bool, p': RunRow -> bool, runs: seq<RunRow>)
    requires forall r :: p(r) == p'(r)
    ensures Count(p, runs) == Count(p', runs)
  {
    if runs != [] {
      SameCount(p, p', runs[..|runs| - 1]);
    }
  }

  /** A rate of `n` in `d`: none of nothing, else the nearest percentage, at most 100. */
  predicate IsRate(rate: Option<int>, n: int, d: int) {
    if d <= 0 then rate == None
    else rate.Some? && if n >= d then rate.value == 100
                       else (2 * rate.value - 1) * d <= 200 * n < (2 * rate.value + 1) * d
  }

  /** Which rate is of what. */
  ghost predicate RatesAre(s: Summary) {
    && s.terminalRuns == s.runs.completed + s.runs.failed
    && s.totalSettlements == s.settlements.locked + s.settlements.released + s.settlements.refunded
    && IsRate(s.completionRate, s.runs.completed, s.terminalRuns)
    && IsRate(s.evidenceRate, s.runs.withEvidence, s.terminalRuns)
    && IsRate(s.releaseRate, s.settlements.released, s.settlements.released + s.settlements.refunded)
  }

  /** Which rate feeds which part of the trust score, and what stands in for a rate that is not there. */
  predicate PartsAre(s: Summary) {
    var b := s.breakdown;
    && b.runQuality == (if s.completionRate.Some? then s.completionRate.value else 50)
    && b.settlementQuality == (if s.releaseRate.Some? then s.releaseRate.value else b.runQuality)
    && b.evidenceQuality == (if s.evidenceRate.Some? then s.evidenceRate.value else 50)
    && b.activityScore == (if s.runs.total >= 50 then 100 else 2 * s.runs.total)
    && s.trustScore == Weighted(b)
  }

  /** Where the risk tiers begin. */
  predicate TierIs(s: Summary) {
    && (s.riskTier == LowRisk <==> s.trustScore >= 90) && (s.riskTier == Guarded <==> 75 <= s.trustScore <= 89)
    && (s.riskTier == Elevated <==> 50 <= s.trustScore <= 74) && (s.riskTier == HighRisk <==> s.trustScore <= 49)
  }

  /** The average duration, rounded down; none when no run has one. */
  predicate AverageIs(s: Summary) {
    var n := s.runs.durations;
    if n == 0 then s.averageDuration == None
    else
      var a := s.averageDuration.GetOr(-1);
      s.averageDuration.Some? && a * n <= s.runs.durationSum < (a + 1) * n
  }

  lemma {:induction false} ScoredRates(c: RunCounts, t: SettlementCounts)
    requires c.completed >= 0 && c.withEvidence >= 0 && t.released >= 0
    ensures RatesAre(Scored(c, t))
  {
    hide ClampRounded, Weighted, TierOf;
    RateIs(c.completed, c.completed + c.failed);
    RateIs(c.withEvidence, c.completed + c.failed);
    RateIs(t.released, t.released + t.refunded);
    hide RatioPct, IsRate;
  }

  lemma {:induction false} ScoredParts(c: RunCounts, t: SettlementCounts)
    requires c.total >= 0
    ensures PartsAre(Scored(c, t)) && TierIs(Scored(c, t))
  {
    hide RatioPct, Weighted;
  }

  lemma {:induction false} ScoredAverage(c: RunCounts, t: SettlementCounts)
    requires c.durations >= 0
    ensures AverageIs(Scored(c, t))
  {
    hide RatioPct, Weighted, ClampRounded, TierOf;
    if c.durations > 0 {
      var a := c.durationSum / c.durations;
      assert c.durationSum == a * c.durations + c.durationSum % c.durations;
      assert (a + 1) * c.durations == a * c.durations + c.durations;
    }
  }

  /** What every summary says: its rates, the parts and the tier of its trust score, and its average duration. */
  lemma {:induction false} SummaryIs(q: Scope, runs: seq<RunRow>, settlements: seq<SettlementRow>)
    ensures var s := Summarize(q, runs, settlements); RatesAre(s) && PartsAre(s) && TierIs(s) && AverageIs(s)
  {
    ScoredRates(CountRuns(q, runs), CountSettlements(q, settlements));
    ScoredParts(CountRuns(q, runs), CountSettlements(q, settlements));
    ScoredAverage(CountRuns(q, runs), CountSettlements(q, settlements));
    hide Scored, RatesAre, PartsAre, TierIs, AverageIs, Count, Sum;
  }

  lemma {:induction false} RateIs(n: int, d: int)
    requires n >= 0
    ensures IsRate(RatioPct(n, d), n, d)
  {
    if d > 0 {
      RatioIsNearest(n, d);
    }
  }

  /** The reputation shows the summaries of the three windows, headed by the one asked for or else by thirty days. */
  lemma {:induction false} HeadedBy(tenant: Tenant, agent: Agent, runs: seq<RunRow>, settlements: seq<SettlementRow>,
      now: int, primary: Option<Window>)
    ensures var v := ComputeV2(tenant, agent, runs, settlements, now, primary);
      && v.sevenDays == Summarize(Scope(tenant, agent, Some(now - 604800000), now), runs, settlements)
      && v.thirtyDays == Summarize(Scope(tenant, agent, Some(now - 2592000000), now), runs, settlements)
      && v.allTime == Summarize(Scope(tenant, agent, None, now), runs, settlements)
      && v.primaryWindow == (if primary.Some? then primary.value else ThirtyDays)
      && (v.primaryWindow == SevenDays ==> v.trustScore == v.sevenDays.trustScore && v.riskTier == v.sevenDays.riskTier)
      && (v.primaryWindow == ThirtyDays ==>
           v.trustScore == v.thirtyDays.trustScore && v.riskTier == v.thirtyDays.riskTier)
      && (v.primaryWindow == AllTime ==> v.trustScore == v.allTime.trustScore && v.riskTier == v.allTime.riskTier)
  {
    hide Summarize;
  }
}
