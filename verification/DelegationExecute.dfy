/** Checking and executing in one call, and what happens when the call is repeated on its own result. */
module DelegationExecutes {
  import opened Wrappers
  import opened Sequences
  import opened Ordering
  import opened Delegations
  import opened DelegationGraph
  import opened DelegationPlans

  datatype Executed<Plan> = Executed(plan: Plan, result: PlanResult)

  ghost predicate CascadeExecuted(rows: seq<Row>, start: AgreementHash, res: Resolution,
      r: Result<Executed<CascadePlan>, PlanError>) {
    match r
    case Success(x) =>
      && UniqueParents(Links(rows)) && IsCascadePlan(Links(rows), start, x.plan)
      && ApplyPlan(rows, x.plan.edges, res) == Success(x.result)
    case Failure(GraphRejected(_)) => !UniqueParents(Links(rows)) || Revisits(Links(rows), start)
    case Failure(e) =>
      exists plan :: IsCascadePlan(Links(rows), start, plan) && ApplyPlan(rows, plan.edges, res) == Failure(e)
  }

  ghost predicate RefundExecuted(locale: Leq<AgreementHash>, rows: seq<Row>, start: AgreementHash, res: Resolution,
    r: Result<Executed<UnwindPlan>, PlanError>)
  {
    match r
    case Success(x) =>
      && UniqueParents(Links(rows)) && IsUnwindPlan(locale, Links(rows), start, x.plan)
      && ApplyPlan(rows, x.plan.edges, res) == Success(x.result)
    case Failure(GraphRejected(_)) => !UniqueParents(Links(rows))
    case Failure(e) =>
      exists plan :: IsUnwindPlan(locale, Links(rows), start, plan) && ApplyPlan(rows, plan.edges, res) == Failure(e)
  }

  method CascadeExecute(locale: Leq<AgreementHash>, rows: seq<Row>, start: AgreementHash, res: Resolution)
    returns (r: Result<Executed<CascadePlan>, PlanError>)
    ensures CascadeExecuted(rows, start, res, r)
  {
    var checked := CascadeSettlementCheck(locale, rows, start);
    if checked.Failure? {
      return Failure(GraphRejected(checked.error));
    }
    PlanErrorsAreOwn(rows, checked.value.edges, res);
    var applied := ApplyDelegationResolutionPlan(rows, checked.value.edges, res);
    if applied.Failure? {
      return Failure(applied.error);
    }
    r := Success(Executed(checked.value, applied.value));
  }

  method CascadeSettlementExecute(locale: Leq<AgreementHash>, rows: seq<Row>, start: AgreementHash, at: Time,
      metadata: Option<int>)
    returns (r: Result<Executed<CascadePlan>, PlanError>)
    ensures CascadeExecuted(rows, start, Resolution(Settled, at, metadata), r)
  {
    r := CascadeExecute(locale, rows, start, Resolution(Settled, at, metadata));
  }

  method CascadeUnwindExecute(locale: Leq<AgreementHash>, rows: seq<Row>, start: AgreementHash, at: Time,
      metadata: Option<int>)
    returns (r: Result<Executed<CascadePlan>, PlanError>)
    ensures CascadeExecuted(rows, start, Resolution(Revoked, at, metadata), r)
  {
    r := CascadeExecute(locale, rows, start, Resolution(Revoked, at, metadata));
  }

  method RefundUnwindExecute(locale: Leq<AgreementHash>, rows: seq<Row>, start: AgreementHash, at: Time,
      metadata: Option<int>)
    returns (r: Result<Executed<UnwindPlan>, PlanError>)
    ensures RefundExecuted(locale, rows, start, Resolution(Revoked, at, metadata), r)
  {
    var checked := RefundUnwindCheck(locale, rows, start);
    if checked.Failure? {
      return Failure(GraphRejected(checked.error));
    }
    var res := Resolution(Revoked, at, metadata);
    PlanErrorsAreOwn(rows, checked.value.edges, res);
    var applied := ApplyDelegationResolutionPlan(rows, checked.value.edges, res);
    if applied.Failure? {
      return Failure(applied.error);
    }
    r := Success(Executed(checked.value, applied.value));
  }

  lemma {:induction false} PlanErrorsAreOwn(rows: seq<Row>, edges: seq<Link>, res: Resolution)
    ensures FirstProblem(rows, res, edges).Some? ==> !FirstProblem(rows, res, edges).value.GraphRejected?
  {
    if edges != [] {
      PlanErrorsAreOwn(rows, edges[..|edges| - 1], res);
    }
  }

  // ----- the rows after a successful execution -----

  lemma {:induction false} RowNamedAfter(rows: seq<Row>, edges: seq<Link>, res: Resolution, id: DelegationId)
    ensures RowNamed(AfterAll(res, edges, rows), id)
      == match RowNamed(rows, id) case None => None case Some(row) => Some(After(res, edges, row))
  {
    if rows != [] {
      var n := |rows| - 1;
      RowNamedAfter(rows[..n], edges, res, id);
      var front := AfterAll(res, edges, rows[..n]);
      if HasId(rows[n]) {
        assert (front + [After(res, edges, rows[n])])[..|front|] == front;
      } else {
        assert AfterAll(res, edges, rows) == front;
      }
    }
  }

  lemma {:induction false} NoDuplicatesAfter(rows: seq<Row>, edges: seq<Link>, res: Resolution)
    requires FirstDuplicate(rows).None?
    ensures FirstDuplicate(AfterAll(res, edges, rows)).None?
  {
    if rows != [] {
      var n := |rows| - 1;
      NoDuplicatesAfter(rows[..n], edges, res);
      var front := AfterAll(res, edges, rows[..n]);
      if HasId(rows[n]) {
        RowNamedAfter(rows[..n], edges, res, rows[n].core.delegationId.value);
        assert (front + [After(res, edges, rows[n])])[..|front|] == front;
      } else {
        assert AfterAll(res, edges, rows) == front;
      }
    }
  }

  /** Every edge names a row that already has the target status, or a stuck one. */
  ghost predicate AllDone(rows: seq<Row>, edges: seq<Link>, target: Status) {
    forall e :: e in edges ==> IsDone(rows, e, target)
  }

  ghost predicate IsDone(rows: seq<Row>, e: Link, target: Status) {
    && e.delegationId.Some? && RowNamed(rows, e.delegationId.value).Some?
    && var row := RowNamed(rows, e.delegationId.value).value; row.status == target || (Stuck(row) && Accepted(row))
  }

  lemma {:induction false} DoneStep(rows: seq<Row>, edges: seq<Link>, res: Resolution, e: Link)
    requires Terminal(res.target)
    requires FirstProblem(rows, res, edges).None? && IsDone(rows, e, res.target)
    ensures FirstProblem(rows, res, edges + [e]).None?
    ensures Count(IsApplied(), OperationsOf(rows, res, edges + [e]))
      == Count(IsApplied(), OperationsOf(rows, res, edges)) + if NamesStuck(rows)(e) then 1 else 0
  {
    assert (edges + [e])[..|edges|] == edges;
    AppliedStep(rows, edges, res, e);
  }

  lemma {:induction false} DoneAppliesStuck(rows: seq<Row>, edges: seq<Link>, res: Resolution)
    requires Terminal(res.target)
    requires AllDone(rows, edges, res.target)
    ensures FirstProblem(rows, res, edges).None?
    ensures Count(IsApplied(), OperationsOf(rows, res, edges)) == StuckEdges(rows, edges)
  {
    if edges != [] {
      hide FirstProblem, OperationsOf, Count, RowNamed, IsDone, NamesStuck;
      var front, e := edges[..|edges| - 1], edges[|edges| - 1];
      assert edges == front + [e];
      DoneAppliesStuck(rows, front, res);
      DoneStep(rows, front, res, e);
      CountStep(NamesStuck(rows), front, e);
    } else {
      assert StuckEdges(rows, edges) == 0;
    }
  }

  lemma {:induction false} DoneLeavesRows(rows: seq<Row>, edges: seq<Link>, res: Resolution, part: seq<Row>)
    requires FirstDuplicate(rows).None? && AllDone(rows, edges, res.target) && res.target != Active
    requires forall r :: r in part ==> r in rows && HasId(r)
    ensures AfterAll(res, edges, part) == part
  {
    if part != [] {
      var n := |part| - 1;
      assert part == part[..n] + [part[n]];
      DoneLeavesRows(rows, edges, res, part[..n]);
      var row := part[n];
      if Names(edges, row.core.delegationId) {
        var k :| 0 <= k < |rows| && rows[k] == row;
        RowNamedUnique(rows, k);
        var e :| e in edges && e.delegationId == row.core.delegationId;
      }
    }
  }

  lemma {:induction false} AfterAllHasIds(rows: seq<Row>, edges: seq<Link>, res: Resolution)
    ensures forall r :: r in AfterAll(res, edges, rows) ==> HasId(r)
    ensures forall r ::
      r in AfterAll(res, edges, rows) <==> exists q :: q in rows && HasId(q) && After(res, edges, q) == r
  {
    AfterAllIsMap(res, edges, rows);
    FilterContents(HasId, rows);
    var kept, next := Filter(HasId, rows), AfterAll(res, edges, rows);
    forall r ensures r in next <==> exists q :: q in rows && HasId(q) && After(res, edges, q) == r {
      if r in next {
        var i :| 0 <= i < |next| && next[i] == r;
        assert kept[i] in kept;
      }
      if q :| q in rows && HasId(q) && After(res, edges, q) == r {
        assert q in kept;
        var i :| 0 <= i < |kept| && kept[i] == q;
        assert next[i] == r;
      }
    }
  }

  /** Executing a plan whose rows are all done already succeeds, reports
      the stuck rows as applied and returns every row as it is. */
  lemma {:induction false} DonePlanKeepsRows(rows: seq<Row>, edges0: seq<Link>, res0: Resolution, edges: seq<Link>,
      res: Resolution)
    requires ApplyPlan(rows, edges0, res0).Success?
    requires Terminal(res.target)
    requires AllDone(AfterAll(res0, edges0, rows), edges, res.target)
    ensures var next := ApplyPlan(rows, edges0, res0).value.delegations;
      && ApplyPlan(next, edges, res).Success?
      && ApplyPlan(next, edges, res).value.applied == StuckEdges(next, edges)
      && ApplyPlan(next, edges, res).value.delegations == next
  {
    var next := AfterAll(res0, edges0, rows);
    NoDuplicatesAfter(rows, edges0, res0);
    AfterAllHasIds(rows, edges0, res0);
    DoneAppliesStuck(next, edges, res);
    DoneLeavesRows(next, edges, res, next);
  }

  lemma {:induction false} PlanRowsAreDone(rows: seq<Row>, edges: seq<Link>, res: Resolution)
    requires ApplyPlan(rows, edges, res).Success?
    ensures AllDone(AfterAll(res, edges, rows), edges, res.target)
  {
    forall e | e in edges ensures IsDone(AfterAll(res, edges, rows), e, res.target) {
      NoProblemAnywhere(rows, res, edges, e);
      RowNamedAfter(rows, edges, res, e.delegationId.value);
      RowNamedMeaning(rows, e.delegationId.value);
    }
  }

  /** Execution neither makes a row stuck nor frees one. */
  lemma {:induction false} StuckStays(rows: seq<Row>, edges0: seq<Link>, res: Resolution, edges: seq<Link>)
    requires Terminal(res.target)
    ensures StuckEdges(AfterAll(res, edges0, rows), edges) == StuckEdges(rows, edges)
  {
    forall e: Link ensures NamesStuck(AfterAll(res, edges0, rows))(e) == NamesStuck(rows)(e) {
      if e.delegationId.Some? {
        RowNamedAfter(rows, edges0, res, e.delegationId.value);
      }
    }
    hide NamesStuck;
    CountSame(NamesStuck(AfterAll(res, edges0, rows)), NamesStuck(rows), edges);
  }

  lemma {:induction false} CountSame(p: Link -> bool, q: Link -> bool, edges: seq<Link>)
    requires forall e :: p(e) == q(e)
    ensures Count(p, edges) == Count(q, edges)
  {
    CountMonotone(p, q, edges);
    CountMonotone(q, p, edges);
  }

  // ----- repeating a cascade settlement -----

  function HasLinkId(): Link -> bool {
    (l: Link) => l.delegationId.Some?
  }

  lemma {:induction false} LinkOfSettled(edges: seq<Link>, res: Resolution, row: Row)
    requires res.target == Settled
    ensures LinkIfLive(After(res, edges, row)) == LinkIfLive(row)
    ensures Filter(HasLinkId(), LinkIfLive(row)) == if HasId(row) then LinkIfLive(row) else []
  {
    if IsLive(row) {
      assert [LinkOf(row)][..0] == [];
    }
  }

  /** Settling keeps every link whose row has an id. */
  lemma {:induction false} LinksAfterSettling(rows: seq<Row>, edges: seq<Link>, res: Resolution)
    requires res.target == Settled
    ensures Links(AfterAll(res, edges, rows)) == Filter(HasLinkId(), Links(rows))
  {
    if rows != [] {
      var n := |rows| - 1;
      var front, row := rows[..n], rows[n];
      LinksAfterSettling(front, edges, res);
      assert rows == front + [row];
      AfterAllStep(front, edges, res, row);
      LinksStep(front, row);
      LinksStep(AfterAll(res, edges, front), After(res, edges, row));
      FilterConcat(HasLinkId(), Links(front), LinkIfLive(row));
      LinkOfSettled(edges, res, row);
    }
  }

  lemma {:induction false} LastNamingWithIds(links: seq<Link>, c: AgreementHash)
    requires LastNaming(links, c).Some? ==> LastNaming(links, c).value.delegationId.Some?
    ensures LastNaming(Filter(HasLinkId(), links), c) == LastNaming(links, c)
  {
    if links != [] {
      var n := |links| - 1;
      if links[n].child != c {
        LastNamingWithIds(links[..n], c);
      }
      if HasLinkId()(links[n]) {
        var front := Filter(HasLinkId(), links[..n]);
        assert (front + [links[n]])[..|front|] == front;
      }
    }
  }

  /** Repeating a cascade settlement follows the same chain, succeeds and leaves every row as it is; it reports nothing
      as applied exactly when no link of the chain names a stuck row. */
  lemma {:induction false} SettlementRepeatIsIdle(rows: seq<Row>, start: AgreementHash, plan: CascadePlan,
      res: Resolution, again: CascadePlan, res2: Resolution)
    requires UniqueParents(Links(rows)) && IsCascadePlan(Links(rows), start, plan)
    requires res.target == res2.target == Settled && ApplyPlan(rows, plan.edges, res).Success?
    requires IsCascadePlan(Links(ApplyPlan(rows, plan.edges, res).value.delegations), start, again)
    ensures again == plan
    ensures var next := ApplyPlan(rows, plan.edges, res).value.delegations;
      && UniqueParents(Links(next)) && ApplyPlan(next, again.edges, res2).Success?
      && ApplyPlan(next, again.edges, res2).value.delegations == next
      && ApplyPlan(next, again.edges, res2).value.applied == StuckEdges(rows, plan.edges)
      && (ApplyPlan(next, again.edges, res2).value.applied == 0
        <==> forall e :: e in plan.edges ==> !NamesStuck(rows)(e))
  {
    SettlementKeepsPlan(rows, start, plan, res);
    var next := AfterAll(res, plan.edges, rows);
    CascadePlanUnique(Links(next), start, plan, again);
    LinksAfterSettling(rows, plan.edges, res);
    FilterContents(HasLinkId(), Links(rows));
    PlanRowsAreDone(rows, plan.edges, res);
    DonePlanKeepsRows(rows, plan.edges, res, plan.edges, res2);
    StuckStays(rows, plan.edges, res, plan.edges);
    NoneStuck(rows, plan.edges);
    hide NamesStuck, AllDone, IsCascadePlan, Filter, FirstProblem, OperationsOf;
  }

  /** The repeated walk therefore succeeds as well. */
  lemma {:induction false} SettlementKeepsPlan(rows: seq<Row>, start: AgreementHash, plan: CascadePlan, res: Resolution)
    requires UniqueParents(Links(rows)) && IsCascadePlan(Links(rows), start, plan)
    requires res.target == Settled && ApplyPlan(rows, plan.edges, res).Success?
    ensures IsCascadePlan(Links(ApplyPlan(rows, plan.edges, res).value.delegations), start, plan)
  {
    var links, path := Links(rows), [start] + plan.parents;
    LinksAfterSettling(rows, plan.edges, res);
    forall i | 0 <= i < |plan.edges|
      ensures LastNaming(Filter(HasLinkId(), links), path[i]) == Some(plan.edges[i])
    {
      NoProblemAnywhere(rows, res, plan.edges, plan.edges[i]);
      LastNamingWithIds(links, path[i]);
    }
    LastNamingWithIds(links, Top(start, plan));
  }

  // ----- repeating a refund unwind -----

  lemma {:induction false} NamedIsRevoked(rows: seq<Row>, edges: seq<Link>, res: Resolution, r: Row)
    requires res.target == Revoked && FirstProblem(rows, res, edges).None? && FirstDuplicate(rows).None?
    requires r in rows && HasId(r)
    ensures Names(edges, r.core.delegationId) && !r.padded ==>
      After(res, edges, r).status == Revoked && !After(res, edges, r).padded
    ensures Names(edges, r.core.delegationId) && r.padded ==>
      After(res, edges, r) == r && (Stuck(r) || r.status == Revoked)
    ensures !Names(edges, r.core.delegationId) ==> After(res, edges, r) == r
  {
    if Names(edges, r.core.delegationId) {
      var e :| e in edges && e.delegationId == r.core.delegationId;
      NoProblemAnywhere(rows, res, edges, e);
      var k :| 0 <= k < |rows| && rows[k] == r;
      RowNamedUnique(rows, k);
    }
  }

  /** A row survives revocation when the plan does not name it, or when its status is padded. */
  predicate Survives(edges: seq<Link>, r: Row) {
    IsLive(r) && HasId(r) && (!Names(edges, r.core.delegationId) || r.padded)
  }

  /** A link is left after revocation exactly when it is that of a surviving row. */
  lemma {:induction false} LiveAfterRevoking(rows: seq<Row>, edges: seq<Link>, res: Resolution, l: Link)
    requires res.target == Revoked && FirstProblem(rows, res, edges).None? && FirstDuplicate(rows).None?
    ensures l in Links(AfterAll(res, edges, rows)) <==> exists r :: r in rows && Survives(edges, r) && LinkOf(r) == l
  {
    var next := AfterAll(res, edges, rows);
    LinksContents(next);
    AfterAllHasIds(rows, edges, res);
    if l in Links(next) {
      var q :| q in next && IsLive(q) && LinkOf(q) == l;
      var r :| r in rows && HasId(r) && After(res, edges, r) == q;
      NamedIsRevoked(rows, edges, res, r);
    }
    if r :| r in rows && Survives(edges, r) && LinkOf(r) == l {
      NamedIsRevoked(rows, edges, res, r);
      assert r in next;
    }
  }

  /** A search that finds anything starts with a link that leaves the start. */
  lemma {:induction false} FoundMeansLinkBelow(locale: Leq<AgreementHash>, links: seq<Link>, start: AgreementHash,
      plan: UnwindPlan)
    requires IsUnwindPlan(locale, links, start, plan) && plan != UnwindPlan([], [])
    ensures exists l :: l in links && l.parent == start
  {
    var order := [start] + plan.children;
    var via :| IsSearchTree(links, order, via, |order|);
    if plan.children == [] {
      OutgoingFromContents(locale, links, order);
      assert plan.edges[0] in plan.edges && order == [start];
    } else {
      assert via[1] == 0 && HasLink(links, order[0], order[1]);
    }
  }

  ghost predicate Within(xs: seq<Link>, ys: seq<Link>) {
    forall l :: l in xs ==> l in ys
  }

  lemma {:induction false} FewerLinksReachLess(xs: seq<Link>, ys: seq<Link>, a: AgreementHash, c: AgreementHash, n: nat)
    requires Within(xs, ys) && ReachesIn(xs, a, c, n)
    ensures ReachesIn(ys, a, c, n)
    decreases n
  {
    if n > 0 {
      var m :| ReachesIn(xs, a, m, n - 1) && HasLink(xs, m, c);
      FewerLinksReachLess(xs, ys, a, m, n - 1);
      assert HasLink(ys, m, c);
    }
  }

  lemma {:induction false} LinksLeft(rows: seq<Row>, edges: seq<Link>, res: Resolution)
    requires res.target == Revoked && ApplyPlan(rows, edges, res).Success?
    ensures Within(Links(AfterAll(res, edges, rows)), Links(rows))
  {
    LinksContents(rows);
    forall l | l in Links(AfterAll(res, edges, rows)) ensures l in Links(rows) {
      LiveAfterRevoking(rows, edges, res, l);
    }
  }

  /** What lies below the start is in the plan. */
  lemma {:induction false} LinkBelowIsPlanned(locale: Leq<AgreementHash>, links: seq<Link>, start: AgreementHash,
      plan: UnwindPlan, l: Link)
    requires IsUnwindPlan(locale, links, start, plan) && l in links && Reaches(links, start, l.parent)
    ensures l in plan.edges
  {
    UnwindReachesExactly(locale, links, start, plan);
    OutgoingFromContents(locale, links, [start] + plan.children);
    hide Reaches;
    assert l.parent in [start] + plan.children;
  }

  lemma {:induction false} PlannedIsBelow(locale: Leq<AgreementHash>, links: seq<Link>, start: AgreementHash,
      plan: UnwindPlan, l: Link)
    requires IsUnwindPlan(locale, links, start, plan) && l in plan.edges
    ensures l in links && Reaches(links, start, l.parent)
  {
    UnwindReachesExactly(locale, links, start, plan);
    OutgoingFromContents(locale, links, [start] + plan.children);
    if l.parent == start {
      assert ReachesIn(links, start, start, 0);
    } else {
      hide Reaches;
      assert l.parent in plan.children;
    }
  }

  /** The repeated search only meets links of the first plan. */
  lemma {:induction false} RepeatedSearchIsWithin(locale: Leq<AgreementHash>, rows: seq<Row>, start: AgreementHash,
      plan: UnwindPlan, res: Resolution, again: UnwindPlan)
    requires IsUnwindPlan(locale, Links(rows), start, plan)
    requires res.target == Revoked && ApplyPlan(rows, plan.edges, res).Success?
    requires IsUnwindPlan(locale, Links(AfterAll(res, plan.edges, rows)), start, again)
    ensures Within(again.edges, plan.edges)
  {
    var links, left := Links(rows), Links(AfterAll(res, plan.edges, rows));
    LinksLeft(rows, plan.edges, res);
    forall l | l in again.edges ensures l in plan.edges {
      PlannedIsBelow(locale, left, start, again, l);
      var n: nat :| ReachesIn(left, start, l.parent, n);
      FewerLinksReachLess(left, links, start, l.parent, n);
      LinkBelowIsPlanned(locale, links, start, plan, l);
    }
  }

  /** Repeating a refund unwind succeeds and leaves every row as it is; what it reports as applied are the links it
      meets that name a stuck row. Without padded rows it meets none at all. */
  lemma {:induction false} RefundRepeatKeepsRows(locale: Leq<AgreementHash>, rows: seq<Row>, start: AgreementHash,
      plan: UnwindPlan, res: Resolution, again: UnwindPlan, res2: Resolution)
    requires IsUnwindPlan(locale, Links(rows), start, plan)
    requires res.target == res2.target == Revoked && ApplyPlan(rows, plan.edges, res).Success?
    requires IsUnwindPlan(locale, Links(ApplyPlan(rows, plan.edges, res).value.delegations), start, again)
    ensures var next := ApplyPlan(rows, plan.edges, res).value.delegations;
      && ApplyPlan(next, again.edges, res2).Success?
      && ApplyPlan(next, again.edges, res2).value.delegations == next
      && ApplyPlan(next, again.edges, res2).value.applied == StuckEdges(rows, again.edges)
    ensures (forall r :: r in rows ==> !r.padded) ==> again == UnwindPlan([], [])
  {
    hide IsUnwindPlan, Links, IsDone, StuckEdges, FirstProblem, OperationsOf, FirstDuplicate;
    RepeatedSearchIsWithin(locale, rows, start, plan, res, again);
    PlanRowsAreDone(rows, plan.edges, res);
    DonePlanKeepsRows(rows, plan.edges, res, again.edges, res2);
    StuckStays(rows, plan.edges, res, again.edges);
    hide AllDone, Within;
    if forall r :: r in rows ==> !r.padded {
      NothingMetAgain(locale, rows, start, plan, res, again);
    }
  }

  lemma {:induction false} NothingMetAgain(locale: Leq<AgreementHash>, rows: seq<Row>, start: AgreementHash,
      plan: UnwindPlan, res: Resolution, again: UnwindPlan)
    requires IsUnwindPlan(locale, Links(rows), start, plan)
    requires res.target == Revoked && ApplyPlan(rows, plan.edges, res).Success?
    requires IsUnwindPlan(locale, Links(AfterAll(res, plan.edges, rows)), start, again)
    requires forall r :: r in rows ==> !r.padded
    ensures again == UnwindPlan([], [])
  {
    NoLinkBelowStart(locale, rows, start, plan, res);
    hide Links, ApplyPlan;
    if again != UnwindPlan([], []) {
      FoundMeansLinkBelow(locale, Links(AfterAll(res, plan.edges, rows)), start, again);
    }
  }

  lemma {:induction false} NoLinkBelowStart(locale: Leq<AgreementHash>, rows: seq<Row>, start: AgreementHash,
      plan: UnwindPlan, res: Resolution)
    requires IsUnwindPlan(locale, Links(rows), start, plan)
    requires res.target == Revoked && ApplyPlan(rows, plan.edges, res).Success?
    requires forall r :: r in rows ==> !r.padded
    ensures forall l :: l in Links(AfterAll(res, plan.edges, rows)) ==> l.parent != start
  {
    forall l | l in Links(AfterAll(res, plan.edges, rows)) ensures l.parent != start {
      LiveAfterRevoking(rows, plan.edges, res, l);
      var r :| r in rows && Survives(plan.edges, r) && LinkOf(r) == l;
      LinksContents(rows);
      OutgoingFromContents(locale, Links(rows), [start] + plan.children);
      assert l.parent == start ==> l in plan.edges;
    }
  }

  function IsPadded(): Row -> bool {
    (r: Row) => r.padded
  }

  /** The links of the rows whose status is padded. */
  function PaddedLinks(rows: seq<Row>): seq<Link> {
    Links(Filter(IsPadded(), rows))
  }

  /** Below the start, the links left after a refund unwind are those of padded rows. */
  lemma {:induction false} LeftBelowIsPadded(locale: Leq<AgreementHash>, rows: seq<Row>, start: AgreementHash,
      plan: UnwindPlan, res: Resolution, l: Link)
    requires IsUnwindPlan(locale, Links(rows), start, plan)
    requires res.target == Revoked && ApplyPlan(rows, plan.edges, res).Success?
    requires Reaches(Links(rows), start, l.parent)
    ensures l in Links(AfterAll(res, plan.edges, rows)) <==> l in PaddedLinks(rows)
  {
    var padded := Filter(IsPadded(), rows);
    LinksContents(rows);
    LinksContents(padded);
    FilterContents(IsPadded(), rows);
    LiveAfterRevoking(rows, plan.edges, res, l);
    hide Links, Reaches, IsUnwindPlan, AfterAll, Filter, FirstProblem, OperationsOf, FirstDuplicate;
    if r :| r in rows && Survives(plan.edges, r) && LinkOf(r) == l {
      LinkBelowIsPlanned(locale, Links(rows), start, plan, l);
      assert Names(plan.edges, r.core.delegationId);
      assert r in padded;
    }
    if r :| r in padded && IsLive(r) && LinkOf(r) == l {
      LinkBelowIsPlanned(locale, Links(rows), start, plan, l);
      NoProblemAnywhere(rows, res, plan.edges, l);
      assert Survives(plan.edges, r);
    }
  }

  lemma {:induction false} PaddedLinksAreLinks(rows: seq<Row>)
    ensures Within(PaddedLinks(rows), Links(rows))
  {
    LinksContents(rows);
    LinksContents(Filter(IsPadded(), rows));
    FilterContents(IsPadded(), rows);
    hide Links, Filter;
    forall l | l in PaddedLinks(rows) ensures l in Links(rows) {
      var r :| r in Filter(IsPadded(), rows) && IsLive(r) && LinkOf(r) == l;
    }
  }

  lemma {:induction false} SameLinksBelow(locale: Leq<AgreementHash>, rows: seq<Row>, start: AgreementHash,
      plan: UnwindPlan, res: Resolution, m: AgreementHash, c: AgreementHash)
    requires IsUnwindPlan(locale, Links(rows), start, plan)
    requires res.target == Revoked && ApplyPlan(rows, plan.edges, res).Success?
    requires Reaches(Links(rows), start, m)
    ensures HasLink(Links(AfterAll(res, plan.edges, rows)), m, c) <==> HasLink(PaddedLinks(rows), m, c)
  {
    var left, padded := Links(AfterAll(res, plan.edges, rows)), PaddedLinks(rows);
    hide Links, PaddedLinks, IsUnwindPlan, AfterAll, Reaches;
    forall l: Link | l.parent == m ensures l in left <==> l in padded {
      LeftBelowIsPadded(locale, rows, start, plan, res, l);
    }
  }

  lemma {:induction false} ReachesUnfolds(links: seq<Link>, a: AgreementHash, c: AgreementHash, n: nat)
    ensures ReachesIn(links, a, c, n)
      <==> if n == 0 then a == c else exists m :: ReachesIn(links, a, m, n - 1) && HasLink(links, m, c)
  {
  }

  lemma {:induction false} SameReach(locale: Leq<AgreementHash>, rows: seq<Row>, start: AgreementHash, plan: UnwindPlan,
      res: Resolution, c: AgreementHash, n: nat)
    requires IsUnwindPlan(locale, Links(rows), start, plan)
    requires res.target == Revoked && ApplyPlan(rows, plan.edges, res).Success?
    ensures ReachesIn(Links(AfterAll(res, plan.edges, rows)), start, c, n)
      <==> ReachesIn(PaddedLinks(rows), start, c, n)
    decreases n, 0
  {
    hide *;
    var left, padded := Links(AfterAll(res, plan.edges, rows)), PaddedLinks(rows);
    ReachesUnfolds(left, start, c, n);
    ReachesUnfolds(padded, start, c, n);
    if n > 0 {
      if ReachesIn(left, start, c, n) {
        var m :| ReachesIn(left, start, m, n - 1) && HasLink(left, m, c);
        SameStep(locale, rows, start, plan, res, m, c, n - 1);
      }
      if ReachesIn(padded, start, c, n) {
        var m :| ReachesIn(padded, start, m, n - 1) && HasLink(padded, m, c);
        SameStep(locale, rows, start, plan, res, m, c, n - 1);
      }
    }
  }

  lemma {:induction false} SameStep(locale: Leq<AgreementHash>, rows: seq<Row>, start: AgreementHash, plan: UnwindPlan,
      res: Resolution, m: AgreementHash, c: AgreementHash, n: nat)
    requires IsUnwindPlan(locale, Links(rows), start, plan)
    requires res.target == Revoked && ApplyPlan(rows, plan.edges, res).Success?
    ensures ReachesIn(Links(AfterAll(res, plan.edges, rows)), start, m, n)
      <==> ReachesIn(PaddedLinks(rows), start, m, n)
    ensures ReachesIn(PaddedLinks(rows), start, m, n) ==>
      (HasLink(Links(AfterAll(res, plan.edges, rows)), m, c) <==> HasLink(PaddedLinks(rows), m, c))
    decreases n, 1
  {
    hide *;
    SameReach(locale, rows, start, plan, res, m, n);
    if ReachesIn(PaddedLinks(rows), start, m, n) {
      ReachedThroughPadded(rows, start, m, n);
      SameLinksBelow(locale, rows, start, plan, res, m, c);
    }
  }

  lemma {:induction false} ReachedThroughPadded(rows: seq<Row>, start: AgreementHash, m: AgreementHash, n: nat)
    requires ReachesIn(PaddedLinks(rows), start, m, n)
    ensures Reaches(Links(rows), start, m)
  {
    PaddedLinksAreLinks(rows);
    FewerLinksReachLess(PaddedLinks(rows), Links(rows), start, m, n);
  }

  lemma {:induction false} SameReaches(locale: Leq<AgreementHash>, rows: seq<Row>, start: AgreementHash,
      plan: UnwindPlan, res: Resolution, c: AgreementHash)
    requires IsUnwindPlan(locale, Links(rows), start, plan)
    requires res.target == Revoked && ApplyPlan(rows, plan.edges, res).Success?
    ensures Reaches(Links(AfterAll(res, plan.edges, rows)), start, c) <==> Reaches(PaddedLinks(rows), start, c)
    ensures Reaches(PaddedLinks(rows), start, c) ==> Reaches(Links(rows), start, c)
  {
    var left, padded := Links(AfterAll(res, plan.edges, rows)), PaddedLinks(rows);
    PaddedLinksAreLinks(rows);
    hide Links, PaddedLinks, IsUnwindPlan, AfterAll, ReachesIn, ApplyPlan;
    if Reaches(left, start, c) {
      var n: nat :| ReachesIn(left, start, c, n);
      SameReach(locale, rows, start, plan, res, c, n);
    }
    if Reaches(padded, start, c) {
      var n: nat :| ReachesIn(padded, start, c, n);
      SameReach(locale, rows, start, plan, res, c, n);
      FewerLinksReachLess(padded, Links(rows), start, c, n);
    }
  }

  /** A stuck row that can be reached from the start through padded rows. */
  ghost predicate StuckWithinReach(rows: seq<Row>, start: AgreementHash, r: Row) {
    r in rows && Stuck(r) && IsLive(r) && Reaches(PaddedLinks(rows), start, r.core.parent.value)
  }

  lemma {:induction false} StuckIsMetAgain(locale: Leq<AgreementHash>, rows: seq<Row>, start: AgreementHash,
      plan: UnwindPlan, res: Resolution, again: UnwindPlan, r: Row)
    requires IsUnwindPlan(locale, Links(rows), start, plan)
    requires res.target == Revoked && ApplyPlan(rows, plan.edges, res).Success?
    requires IsUnwindPlan(locale, Links(AfterAll(res, plan.edges, rows)), start, again)
    requires StuckWithinReach(rows, start, r)
    ensures LinkOf(r) in again.edges && NamesStuck(rows)(LinkOf(r))
  {
    var l, left := LinkOf(r), Links(AfterAll(res, plan.edges, rows));
    var k :| 0 <= k < |rows| && rows[k] == r;
    SameReaches(locale, rows, start, plan, res, l.parent);
    LinksContents(rows);
    LinksContents(Filter(IsPadded(), rows));
    FilterContents(IsPadded(), rows);
    LeftBelowIsPadded(locale, rows, start, plan, res, l);
    LinkBelowIsPlanned(locale, left, start, again, l);
    LinkBelowIsPlanned(locale, Links(rows), start, plan, l);
    hide Links, IsUnwindPlan, AfterAll, Filter, Reaches, OperationsOf;
    NoProblemAnywhere(rows, res, plan.edges, l);
    RowNamedUnique(rows, k);
  }

  lemma {:induction false} MetAgainIsStuck(locale: Leq<AgreementHash>, rows: seq<Row>, start: AgreementHash,
      plan: UnwindPlan, res: Resolution, again: UnwindPlan, e: Link)
    requires IsUnwindPlan(locale, Links(rows), start, plan)
    requires res.target == Revoked && ApplyPlan(rows, plan.edges, res).Success?
    requires IsUnwindPlan(locale, Links(AfterAll(res, plan.edges, rows)), start, again)
    requires e in again.edges && NamesStuck(rows)(e)
    ensures StuckWithinReach(rows, start, RowNamed(rows, e.delegationId.value).value)
  {
    PlannedIsBelow(locale, Links(AfterAll(res, plan.edges, rows)), start, again, e);
    SameReaches(locale, rows, start, plan, res, e.parent);
    LiveAfterRevoking(rows, plan.edges, res, e);
    hide Links, IsUnwindPlan, AfterAll, PaddedLinks, Reaches, OperationsOf;
    var r :| r in rows && Survives(plan.edges, r) && LinkOf(r) == e;
    var k :| 0 <= k < |rows| && rows[k] == r;
    RowNamedUnique(rows, k);
  }

  /** The repeat of a refund unwind reports nothing as applied exactly when no stuck row can be reached from the start
      through rows with padded statuses. */
  lemma {:induction false} RefundRepeatIsIdleIff(locale: Leq<AgreementHash>, rows: seq<Row>, start: AgreementHash,
      plan: UnwindPlan, res: Resolution, again: UnwindPlan, res2: Resolution)
    requires IsUnwindPlan(locale, Links(rows), start, plan)
    requires res.target == res2.target == Revoked && ApplyPlan(rows, plan.edges, res).Success?
    requires IsUnwindPlan(locale, Links(ApplyPlan(rows, plan.edges, res).value.delegations), start, again)
    ensures var next := ApplyPlan(rows, plan.edges, res).value.delegations;
      ApplyPlan(next, again.edges, res2).Success?
      && (ApplyPlan(next, again.edges, res2).value.applied == 0 <==> forall r :: !StuckWithinReach(rows, start, r))
  {
    hide IsUnwindPlan, Links, FirstProblem, OperationsOf, FirstDuplicate;
    RefundRepeatKeepsRows(locale, rows, start, plan, res, again, res2);
    NoneStuck(rows, again.edges);
    hide StuckWithinReach, NamesStuck;
    if r :| StuckWithinReach(rows, start, r) {
      StuckIsMetAgain(locale, rows, start, plan, res, again, r);
    }
    if e :| e in again.edges && NamesStuck(rows)(e) {
      MetAgainIsStuck(locale, rows, start, plan, res, again, e);
    }
  }

  // ----- repeating a cascade unwind -----

  /** Every link names a revoked row; being links, they are those of rows whose status is padded. */
  ghost predicate AllRevoked(rows: seq<Row>, edges: seq<Link>) {
    forall e :: e in edges ==>
      e.delegationId.Some? && RowNamed(rows, e.delegationId.value).Some?
        && RowNamed(rows, e.delegationId.value).value.status == Revoked
  }

  lemma {:induction false} IdleIffAllRevoked(rows: seq<Row>, edges: seq<Link>, res: Resolution)
    requires res.target == Revoked && FirstDuplicate(rows).None?
    ensures ApplyPlan(rows, edges, res).Success? && ApplyPlan(rows, edges, res).value.applied == 0
      <==> AllRevoked(rows, edges)
  {
    NoneStuck(rows, edges);
    if AllRevoked(rows, edges) {
      DoneAppliesStuck(rows, edges, res);
    }
    if FirstProblem(rows, res, edges).None? {
      AppliedCountsIds(rows, edges, res);
      hide FirstProblem, OperationsOf, Count;
      forall e | e in edges
        ensures EdgeProblem(rows, res, e).None?
          && (NamesPending(rows, e.delegationId) ==> AppliedIds(rows, edges) != {})
      {
        NoProblemAnywhere(rows, res, edges, e);
        if NamesPending(rows, e.delegationId) {
          assert e.delegationId.value in AppliedIds(rows, edges);
        }
      }
    }
  }

  function LiveBelow(c: AgreementHash): Row -> bool {
    (r: Row) => IsLive(r) && HasId(r) && r.core.child == Some(c)
  }

  ghost predicate RepeatIsIdle(next: seq<Row>, start: AgreementHash, res: Resolution) {
    exists again ::
      && IsCascadePlan(Links(next), start, again) && ApplyPlan(next, again.edges, res).Success?
      && ApplyPlan(next, again.edges, res).value.applied == 0
  }

  function PaddedBelow(c: AgreementHash): Row -> bool {
    (r: Row) => LiveBelow(c)(r) && r.padded
  }

  lemma {:induction false} CountAtMostOne(p: Row -> bool, rows: seq<Row>)
    ensures Count(p, rows) <= 1 <==> forall i, j :: 0 <= i < j < |rows| ==> !(p(rows[i]) && p(rows[j]))
    ensures Count(p, rows) == 0 <==> forall i :: 0 <= i < |rows| ==> !p(rows[i])
  {
    if rows != [] {
      var n := |rows| - 1;
      CountAtMostOne(p, rows[..n]);
      forall i | 0 <= i < n ensures rows[..n][i] == rows[i] {
      }
    }
  }

  /** The row behind the first link of the walk. */
  lemma {:induction false} FirstRow(rows: seq<Row>, start: AgreementHash, plan: CascadePlan, res: Resolution)
      returns (k: nat)
    requires IsCascadePlan(Links(rows), start, plan) && plan.edges != []
    requires res.target == Revoked && ApplyPlan(rows, plan.edges, res).Success?
    ensures k < |rows| && LiveBelow(start)(rows[k]) && LinkOf(rows[k]) == plan.edges[0]
  {
    var links := Links(rows);
    assert LastNaming(links, ([start] + plan.parents)[0]) == Some(plan.edges[0]);
    LastNamingMeaning(links, start);
    LinksContents(rows);
    NoProblemAnywhere(rows, res, plan.edges, plan.edges[0]);
    var r :| r in rows && IsLive(r) && LinkOf(r) == plan.edges[0];
    k :| 0 <= k < |rows| && rows[k] == r;
  }

  /** Of the live rows below `start`, the plan names exactly the one whose link it follows. */
  lemma {:induction false} OnlyFirstRowNamed(rows: seq<Row>, start: AgreementHash, plan: CascadePlan, i: nat)
    requires IsCascadePlan(Links(rows), start, plan) && FirstDuplicate(rows).None?
    requires i < |rows| && LiveBelow(start)(rows[i]) && Names(plan.edges, rows[i].core.delegationId)
    ensures plan.edges != [] && LinkOf(rows[i]) == plan.edges[0]
  {
    var path, links := [start] + plan.parents, Links(rows);
    var e :| e in plan.edges && e.delegationId == rows[i].core.delegationId;
    var j :| 0 <= j < |plan.edges| && plan.edges[j] == e;
    assert LastNaming(links, path[j]) == Some(e);
    LastNamingMeaning(links, path[j]);
    LinksContents(rows);
    var r :| r in rows && IsLive(r) && LinkOf(r) == e;
    var k :| 0 <= k < |rows| && rows[k] == r;
    RowNamedUnique(rows, i);
    RowNamedUnique(rows, k);
    assert path[0] == start;
  }

  lemma {:induction false} SurvivorHasTwin(rows: seq<Row>, start: AgreementHash, plan: CascadePlan, res: Resolution,
      i: nat)
    requires IsCascadePlan(Links(rows), start, plan)
    requires res.target == Revoked && ApplyPlan(rows, plan.edges, res).Success?
    requires i < |rows| && LiveBelow(start)(rows[i]) && !Names(plan.edges, rows[i].core.delegationId)
    ensures Count(LiveBelow(start), rows) > 1
  {
    CountAtMostOne(LiveBelow(start), rows);
    LinksContents(rows);
    LastNamingMeaning(Links(rows), start);
    assert LinkOf(rows[i]) in Links(rows);
    var k := FirstRow(rows, start, plan, res);
    assert plan.edges[0] in plan.edges && Names(plan.edges, rows[k].core.delegationId);
    assert i < k || k < i;
  }

  lemma {:induction false} TwinSurvives(rows: seq<Row>, start: AgreementHash, plan: CascadePlan, i: nat, j: nat)
    requires IsCascadePlan(Links(rows), start, plan) && FirstDuplicate(rows).None?
    requires i < j < |rows| && LiveBelow(start)(rows[i]) && LiveBelow(start)(rows[j])
    ensures !Names(plan.edges, rows[i].core.delegationId) || !Names(plan.edges, rows[j].core.delegationId)
  {
    DistinctIds(rows, i, j);
    if Names(plan.edges, rows[i].core.delegationId) && Names(plan.edges, rows[j].core.delegationId) {
      OnlyFirstRowNamed(rows, start, plan, i);
      OnlyFirstRowNamed(rows, start, plan, j);
    }
  }

  lemma {:induction false} SurvivorsBelowStart(rows: seq<Row>, start: AgreementHash, plan: CascadePlan, res: Resolution)
    requires IsCascadePlan(Links(rows), start, plan)
    requires res.target == Revoked && ApplyPlan(rows, plan.edges, res).Success?
    ensures LastNaming(Links(AfterAll(res, plan.edges, rows)), start).None?
      <==> Count(LiveBelow(start), rows) <= 1 && Count(PaddedBelow(start), rows) == 0
  {
    hide Links, LastNaming, Count, AfterAll, Names, IsCascadePlan;
    var links' := Links(AfterAll(res, plan.edges, rows));
    LastNamingMeaning(links', start);
    CountAtMostOne(LiveBelow(start), rows);
    CountAtMostOne(PaddedBelow(start), rows);
    if l :| l in links' && l.child == start {
      LiveAfterRevoking(rows, plan.edges, res, l);
      var r :| r in rows && Survives(plan.edges, r) && LinkOf(r) == l;
      var i :| 0 <= i < |rows| && rows[i] == r;
      if !Names(plan.edges, r.core.delegationId) {
        SurvivorHasTwin(rows, start, plan, res, i);
      }
    }
    if i, j :| 0 <= i < j < |rows| && LiveBelow(start)(rows[i]) && LiveBelow(start)(rows[j]) {
      TwinSurvives(rows, start, plan, i, j);
      var m := if Names(plan.edges, rows[i].core.delegationId) then j else i;
      assert rows[m] in rows;
      LiveAfterRevoking(rows, plan.edges, res, LinkOf(rows[m]));
    }
    if i :| 0 <= i < |rows| && PaddedBelow(start)(rows[i]) {
      assert rows[i] in rows;
      LiveAfterRevoking(rows, plan.edges, res, LinkOf(rows[i]));
    }
  }

  lemma {:induction false} DistinctIds(rows: seq<Row>, i: nat, j: nat)
    requires FirstDuplicate(rows).None? && i < j < |rows| && HasId(rows[i]) && HasId(rows[j])
    ensures rows[i].core.delegationId != rows[j].core.delegationId
    decreases |rows|
  {
    var n := |rows| - 1;
    assert rows[..n][i] == rows[i];
    if j < n {
      DistinctIds(rows[..n], i, j);
    } else {
      RowNamedMeaning(rows[..n], rows[i].core.delegationId.value);
    }
  }

  ghost predicate NoPaddedRevoked(rows: seq<Row>) {
    forall r :: r in rows ==> !(r.padded && r.status == Revoked)
  }

  /** Repeating a cascade unwind applies nothing exactly when every delegation the repeated walk follows is revoked
      already, under a padded status. Where no revoked status is padded this means that at most one live row was below
      the start and its status was not padded: a parallel delegation of the same pair survives the first call and is
      taken up, or rejected, by the second. */
  lemma {:induction false} CascadeUnwindRepeatIdleIff(rows: seq<Row>, start: AgreementHash, plan: CascadePlan,
      res: Resolution, res2: Resolution)
    requires IsCascadePlan(Links(rows), start, plan)
    requires res.target == res2.target == Revoked && ApplyPlan(rows, plan.edges, res).Success?
    ensures var next := ApplyPlan(rows, plan.edges, res).value.delegations;
      && (RepeatIsIdle(next, start, res2)
        <==> exists again :: IsCascadePlan(Links(next), start, again) && AllRevoked(next, again.edges))
      && (NoPaddedRevoked(rows) ==>
           (RepeatIsIdle(next, start, res2) <==>
              Count(LiveBelow(start), rows) <= 1 && Count(PaddedBelow(start), rows) == 0))
  {
    var next := AfterAll(res, plan.edges, rows);
    NoDuplicatesAfter(rows, plan.edges, res);
    forall again: CascadePlan
      ensures ApplyPlan(next, again.edges, res2).Success? && ApplyPlan(next, again.edges, res2).value.applied == 0
        <==> AllRevoked(next, again.edges)
    {
      IdleIffAllRevoked(next, again.edges, res2);
    }
    if NoPaddedRevoked(rows) {
      RepeatIdleWithoutPaddedRevoked(rows, start, plan, res, res2);
    }
  }

  lemma {:induction false} RepeatIdleWithoutPaddedRevoked(rows: seq<Row>, start: AgreementHash, plan: CascadePlan,
      res: Resolution, res2: Resolution)
    requires IsCascadePlan(Links(rows), start, plan) && NoPaddedRevoked(rows)
    requires res.target == res2.target == Revoked && ApplyPlan(rows, plan.edges, res).Success?
    ensures RepeatIsIdle(ApplyPlan(rows, plan.edges, res).value.delegations, start, res2)
      <==> Count(LiveBelow(start), rows) <= 1 && Count(PaddedBelow(start), rows) == 0
  {
    var next := AfterAll(res, plan.edges, rows);
    SurvivorsBelowStart(rows, start, plan, res);
    NoDuplicatesAfter(rows, plan.edges, res);
    KeepsNoPaddedRevoked(rows, plan.edges, res);
    hide Count, LiveBelow, PaddedBelow, Links, AfterAll, FirstDuplicate, FirstProblem, OperationsOf;
    if LastNaming(Links(next), start).None? {
      EmptyWalkIsIdle(next, start, res2);
    } else {
      hide LastNaming, IsCascadePlan;
      forall again | IsCascadePlan(Links(next), start, again) && ApplyPlan(next, again.edges, res2).Success?
        ensures ApplyPlan(next, again.edges, res2).value.applied > 0
      {
        SurvivorIsApplied(next, start, again, res2);
      }
    }
  }

  lemma {:induction false} KeepsNoPaddedRevoked(rows: seq<Row>, edges: seq<Link>, res: Resolution)
    requires NoPaddedRevoked(rows)
    ensures NoPaddedRevoked(AfterAll(res, edges, rows))
  {
    AfterAllHasIds(rows, edges, res);
    hide AfterAll, Names;
  }

  lemma {:induction false} EmptyWalkIsIdle(rows: seq<Row>, start: AgreementHash, res: Resolution)
    requires FirstDuplicate(rows).None? && res.target == Revoked && LastNaming(Links(rows), start).None?
    ensures RepeatIsIdle(rows, start, res)
  {
    var none := CascadePlan([], []);
    assert [start] + none.parents == [start];
    assert IsCascadePlan(Links(rows), start, none);
    IdleIffAllRevoked(rows, none.edges, res);
    hide Links, LastNaming, FirstProblem, OperationsOf, IsCascadePlan;
  }

  lemma {:induction false} SurvivorIsApplied(rows: seq<Row>, start: AgreementHash, plan: CascadePlan, res: Resolution)
    requires IsCascadePlan(Links(rows), start, plan) && LastNaming(Links(rows), start).Some? && NoPaddedRevoked(rows)
    requires res.target == Revoked && ApplyPlan(rows, plan.edges, res).Success?
    ensures ApplyPlan(rows, plan.edges, res).value.applied > 0
  {
    assert plan.edges != [];
    var k := FirstRow(rows, start, plan, res);
    RowNamedUnique(rows, k);
    assert plan.edges[0] in plan.edges && rows[k] in rows;
    IdleIffAllRevoked(rows, plan.edges, res);
    hide Links, LastNaming, IsCascadePlan, FirstProblem, OperationsOf;
  }

  // ----- the cases that fail, on concrete rows -----

  /** A delegation from agreement 0 to agreement 1 as it is built. */
  function Sample(id: DelegationId): Row {
    var core := Core(Some(id), 0, Some(AgreementHash(0)), Some(AgreementHash(1)), 0, 1, 1, 0, 0, 0, None, 0);
    Row(core, Sha256(core), Active, false, 0, 0, None, None)
  }

  const UPWARD: CascadePlan := CascadePlan([AgreementHash(0)], [Link(Some(2), AgreementHash(0), AgreementHash(1))])

  lemma {:induction false} TwoLinks(first: Row, second: Row)
    requires IsLive(first) && IsLive(second)
    ensures Links([first, second]) == [LinkOf(first), LinkOf(second)]
  {
    assert [first, second] == [first] + [second] && [first] == [] + [first];
    LinksNone();
    LinksStep([], first);
    LinksStep([first], second);
  }

  lemma {:induction false} WalkToTop(links: seq<Link>)
    requires links == [Link(Some(1), AgreementHash(0), AgreementHash(1)), UPWARD.edges[0]]
    ensures IsCascadePlan(links, AgreementHash(1), UPWARD)
  {
    assert [AgreementHash(1)] + UPWARD.parents == [AgreementHash(1), AgreementHash(0)];
    assert links[..1] == [links[0]] && [links[0]][..0] == [];
    assert LastNaming(links, AgreementHash(1)) == Some(UPWARD.edges[0]);
    assert LastNaming(links[..1], AgreementHash(0)).None?;
  }

  lemma {:induction false} OnlySecondNamed(first: Row, second: Row, res: Resolution)
    requires first.core.delegationId == Some(1) && second.core.delegationId == Some(2)
    requires Accepted(second) && second.status == Active && res.target == Revoked
    ensures var rows, edges := [first, second], UPWARD.edges;
      && RowNamed(rows, 2) == Some(second) && FirstDuplicate(rows).None? && FirstProblem(rows, res, edges).None?
      && AfterAll(res, edges, rows) == [first, After(res, edges, second)]
  {
    var rows, edges := [first, second], UPWARD.edges;
    assert rows[..1] == [first] && [first][..0] == [] && edges[..0] == [];
    assert RowNamed([], 2).None? && RowNamed([], 1).None?;
    assert RowNamed([first], 2).None?;
    assert FirstDuplicate([first]).None?;
    assert FirstProblem(rows, res, []).None?;
    assert edges[0].delegationId == Some(2);
    assert !Names(edges, Some(1));
    assert AfterAll(res, edges, [first]) == [first];
  }

  lemma {:induction false} SecondIsRevoked(first: Row, second: Row, res: Resolution)
    requires first.core.delegationId == Some(1) && second.core.delegationId == Some(2)
    requires Accepted(second) && second.status == Active && res.target == Revoked
    ensures ApplyPlan([first, second], UPWARD.edges, res).Success?
    ensures ApplyPlan([first, second], UPWARD.edges, res).value.delegations == [first, After(res, UPWARD.edges, second)]
    ensures ApplyPlan([first, second], UPWARD.edges, res).value.applied == 1
  {
    var rows, edges := [first, second], UPWARD.edges;
    OnlySecondNamed(first, second, res);
    hide RowNamed, FirstDuplicate, AfterAll;
    assert edges[..0] == [] && FirstProblem(rows, res, []).None? && !Names([], Some(2));
    assert OperationsOf(rows, res, []) == [];
    assert edges[0].delegationId == Some(2);
    assert OperationsOf(rows, res, edges) == [Operation(2, Applied, Active, Revoked)];
    assert [Operation(2, Applied, Active, Revoked)][..0] == [];
  }

  /** Two parallel active delegations: the first cascade unwind revokes the one it follows, and a repeat is not idle. */
  lemma {:induction false} ParallelDelegationIsTakenUp(at: Time, at2: Time)
    ensures var rows := [Sample(1), Sample(2)]; var res := Resolution(Revoked, at, None);
      && IsCascadePlan(Links(rows), AgreementHash(1), UPWARD)
      && ApplyPlan(rows, UPWARD.edges, res).Success? && ApplyPlan(rows, UPWARD.edges, res).value.applied == 1
      && !RepeatIsIdle(ApplyPlan(rows, UPWARD.edges, res).value.delegations, AgreementHash(1),
        Resolution(Revoked, at2, None))
  {
    var rows, res := [Sample(1), Sample(2)], Resolution(Revoked, at, None);
    assert LiveBelow(AgreementHash(1))(rows[0]) && LiveBelow(AgreementHash(1))(rows[1]);
    assert NoPaddedRevoked(rows);
    SecondIsRevoked(rows[0], rows[1], res);
    TwoLinks(rows[0], rows[1]);
    hide ApplyPlan, Links, Count, IsCascadePlan, RepeatIsIdle, NoPaddedRevoked;
    WalkToTop(Links(rows));
    CountAtMostOne(LiveBelow(AgreementHash(1)), rows);
    CascadeUnwindRepeatIdleIff(rows, AgreementHash(1), UPWARD, res, Resolution(Revoked, at2, None));
  }

  /** A row whose active status is padded is reported as applied and comes back unchanged, still counted active. */
  lemma {:induction false} PaddedRowIsReportedApplied(at: Time)
    ensures var stuck := Sample(2).(padded := true); var rows := [Sample(1), stuck];
      var res := Resolution(Revoked, at, None);
      && Accepted(stuck)
      && ApplyPlan(rows, UPWARD.edges, res).Success? && ApplyPlan(rows, UPWARD.edges, res).value.applied == 1
      && ApplyPlan(rows, UPWARD.edges, res).value.delegations == rows
  {
    var stuck := Sample(2).(padded := true);
    SecondIsRevoked(Sample(1), stuck, Resolution(Revoked, at, None));
    hide ApplyPlan;
  }

  // ----- which rows an execution changes -----

  /** With distinct ids, an edge taken from the rows' own links names the row it was taken from and no other. */
  lemma {:induction false} NamedIffFollowed(rows: seq<Row>, edges: seq<Link>, row: Row)
    requires FirstDuplicate(rows).None? && row in rows && HasId(row) && forall e :: e in edges ==> e in Links(rows)
    ensures Names(edges, row.core.delegationId) <==> IsLive(row) && LinkOf(row) in edges
  {
    LinksContents(rows);
    var k :| 0 <= k < |rows| && rows[k] == row;
    RowNamedUnique(rows, k);
    if Names(edges, row.core.delegationId) {
      var e :| e in edges && e.delegationId == row.core.delegationId;
      var r :| r in rows && IsLive(r) && LinkOf(r) == e;
      var j :| 0 <= j < |rows| && rows[j] == r;
      RowNamedUnique(rows, j);
    }
  }

  /** A refund unwind revokes exactly the rows that are active without padding and whose parent agreement is the start
      or can be reached from it. */
  lemma {:induction false} RefundRevokesReachable(locale: Leq<AgreementHash>, rows: seq<Row>, start: AgreementHash,
      plan: UnwindPlan, res: Resolution, i: nat)
    requires IsUnwindPlan(locale, Links(rows), start, plan) && ApplyPlan(rows, plan.edges, res).Success?
    requires i < |Filter(HasId, rows)|
    ensures var row := Filter(HasId, rows)[i]; var next := ApplyPlan(rows, plan.edges, res).value.delegations;
      i < |next|
      && (next[i] != row <==>
           Pending(row) && row.core.child.Some? && row.core.parent.Some?
           && Reaches(Links(rows), start, row.core.parent.value))
  {
    var links, row := Links(rows), Filter(HasId, rows)[i];
    PlanChangesExactly(rows, plan.edges, res);
    FilterContents(HasId, rows);
    assert row in Filter(HasId, rows);
    OutgoingFromContents(locale, links, [start] + plan.children);
    hide ApplyPlan, OutgoingFrom, RowNamed, FirstProblem, OperationsOf, AfterAll, Filter;
    NamedIffFollowed(rows, plan.edges, row);
    UnwindReachesExactly(locale, links, start, plan);
    assert ReachesIn(links, start, start, 0);
    LinksContents(rows);
    hide IsUnwindPlan, Links, Distinct, ReachesIn;
  }

  lemma {:induction false} LastOfChildIsNamed(links: seq<Link>, link: Link)
    requires IsLastOfChild(links, link)
    ensures LastNaming(links, link.child) == Some(link)
  {
    var n := |links| - 1;
    var i :| 0 <= i < |links| && links[i] == link && forall j :: i < j < |links| ==> links[j].child != link.child;
    if i < n {
      assert links[..n][i] == link && forall j :: i < j < n ==> links[..n][j].child != link.child;
      LastOfChildIsNamed(links[..n], link);
    }
  }

  /** A cascade follows exactly the links that are the last to name the start or one of its ancestors. */
  lemma {:induction false} CascadeFollowsExactly(links: seq<Link>, start: AgreementHash, plan: CascadePlan, link: Link)
    requires IsCascadePlan(links, start, plan)
    ensures link in plan.edges <==>
      IsLastOfChild(links, link) && exists k: nat :: Ancestor(links, start, k) == Some(link.child)
  {
    var path := [start] + plan.parents;
    if link in plan.edges {
      var k :| 0 <= k < |plan.edges| && plan.edges[k] == link;
      CascadePlanFollowsLastLinks(links, start, plan, k);
      ClimbIsAncestry(links, start, plan, k);
      assert path[k] == link.child;
    }
    if IsLastOfChild(links, link) && exists k: nat :: Ancestor(links, start, k) == Some(link.child) {
      var k: nat :| Ancestor(links, start, k) == Some(link.child);
      LastOfChildIsNamed(links, link);
      if k > |plan.parents| {
        NoAncestorPastTop(links, start, plan, k);
      }
      ClimbIsAncestry(links, start, plan, k);
      assert path[|plan.parents|] == Top(start, plan);
      assert LastNaming(links, path[k]) == Some(plan.edges[k]);
    }
  }

  /** A cascade settles, or revokes, exactly the rows that are active without padding and are the last live ones to give
      the start or one of its ancestors a parent. */
  lemma {:induction false} CascadeResolvesChain(rows: seq<Row>, start: AgreementHash, plan: CascadePlan,
      res: Resolution, i: nat)
    requires IsCascadePlan(Links(rows), start, plan) && ApplyPlan(rows, plan.edges, res).Success?
    requires i < |Filter(HasId, rows)|
    ensures var row := Filter(HasId, rows)[i]; var next := ApplyPlan(rows, plan.edges, res).value.delegations;
      i < |next|
      && (next[i] != row <==>
           Pending(row) && IsLive(row) && IsLastOfChild(Links(rows), LinkOf(row))
           && exists k: nat :: Ancestor(Links(rows), start, k) == row.core.child)
  {
    var links, row := Links(rows), Filter(HasId, rows)[i];
    PlanChangesExactly(rows, plan.edges, res);
    FilterContents(HasId, rows);
    assert row in Filter(HasId, rows);
    hide ApplyPlan, RowNamed, FirstProblem, OperationsOf, AfterAll, Filter;
    forall e | e in plan.edges ensures e in links {
      CascadeFollowsExactly(links, start, plan, e);
    }
    hide IsCascadePlan;
    NamedIffFollowed(rows, plan.edges, row);
    if IsLive(row) {
      CascadeFollowsExactly(links, start, plan, LinkOf(row));
    }
    hide Links, IsLastOfChild, Ancestor;
  }
}
