/** Executing a settlement or unwind plan against the rows it was made from. */
module DelegationPlans {
  import opened Wrappers
  import opened Sequences
  import opened Ordering
  import opened Delegations
  import opened DelegationGraph

  datatype Outcome = Applied | Noop

  datatype Operation = Operation(delegationId: DelegationId, outcome: Outcome, fromStatus: Status, toStatus: Status)

  datatype PlanError =
    | TargetNotTerminal
    | DuplicateDelegationId(delegationId: DelegationId)
    | EdgeIdRequired
    | EdgeNotFound(delegationId: DelegationId)
    | TerminalConflict(delegationId: DelegationId, current: Status, target: Status)
    | RowRejected(reason: ResolveError)
    | GraphRejected(graphReason: GraphError)

  datatype PlanResult = PlanResult(operations: seq<Operation>, applied: nat, noop: nat, ledger: Ledger,
      delegations: seq<Row>)

  /** How an edge's row is to be changed. */
  datatype Resolution = Resolution(target: Status, at: Time, metadata: Option<int>)

  predicate HasId(row: Row) {
    row.core.delegationId.Some?
  }

  function RowNamed(rows: seq<Row>, id: DelegationId): Option<Row> {
    if rows == [] then None
    else if rows[|rows| - 1].core.delegationId == Some(id) then Some(rows[|rows| - 1])
    else RowNamed(rows[..|rows| - 1], id)
  }

  function FirstDuplicate(rows: seq<Row>): Option<DelegationId> {
    if rows == [] then None
    else
      var n := |rows| - 1;
      var earlier := FirstDuplicate(rows[..n]);
      if earlier.Some? then earlier
      else if HasId(rows[n]) && RowNamed(rows[..n], rows[n].core.delegationId.value).Some?
        then rows[n].core.delegationId
      else None
  }

  // ----- what executing a plan means, edge by edge against the original rows -----

  function EdgeProblem(rows: seq<Row>, res: Resolution, edge: Link): Option<PlanError> {
    if edge.delegationId.None? then Some(EdgeIdRequired)
    else
      var id := edge.delegationId.value;
      var row := RowNamed(rows, id);
      if row.None? then Some(EdgeNotFound(id))
      else if row.value.status != Active && row.value.status != res.target then
        Some(TerminalConflict(id, row.value.status, res.target))
      else if row.value.status == Active && !Accepted(row.value) then Some(RowRejected(InvalidDelegation))
      else None
  }

  function FirstProblem(rows: seq<Row>, res: Resolution, edges: seq<Link>): Option<PlanError> {
    if edges == [] then None
    else
      var earlier := FirstProblem(rows, res, edges[..|edges| - 1]);
      if earlier.Some? then earlier else EdgeProblem(rows, res, edges[|edges| - 1])
  }

  predicate Names(edges: seq<Link>, id: Option<DelegationId>) {
    exists e :: e in edges && e.delegationId == id
  }

  /** The first edge that names a pending row applies, and so does every
      edge that names a stuck one; every other edge is a no-op. */
  function OperationsOf(rows: seq<Row>, res: Resolution, edges: seq<Link>): seq<Operation>
    requires FirstProblem(rows, res, edges).None?
  {
    if edges == [] then []
    else
      var n := |edges| - 1;
      var id := edges[n].delegationId.value;
      OperationsOf(rows, res, edges[..n]) +
      [if Stuck(RowNamed(rows, id).value) || (Pending(RowNamed(rows, id).value) && !Names(edges[..n], Some(id)))
       then Operation(id, Applied, Active, res.target)
       else Operation(id, Noop, res.target, res.target)]
  }

  function After(res: Resolution, edges: seq<Link>, row: Row): Row {
    if Pending(row) && Names(edges, row.core.delegationId)
    then Resolved(row, res.target, res.at, res.metadata)
    else row
  }

  function AfterAll(res: Resolution, edges: seq<Link>, rows: seq<Row>): seq<Row> {
    if rows == [] then []
    else
      var n := |rows| - 1;
      AfterAll(res, edges, rows[..n]) + if HasId(rows[n]) then [After(res, edges, rows[n])] else []
  }

  function IsApplied(): Operation -> bool {
    (op: Operation) => op.outcome == Applied
  }

  function IsNoop(): Operation -> bool {
    (op: Operation) => op.outcome == Noop
  }

  function ApplyPlan(rows: seq<Row>, edges: seq<Link>, res: Resolution): Result<PlanResult, PlanError> {
    var problem := FirstProblem(rows, res, edges);
    if !Terminal(res.target) then Failure(TargetNotTerminal)
    else if FirstDuplicate(rows).Some? then Failure(DuplicateDelegationId(FirstDuplicate(rows).value))
    else if problem.Some? then Failure(problem.value)
    else
      var operations := OperationsOf(rows, res, edges);
      var next := AfterAll(res, edges, rows);
      Success(PlanResult(operations, Count(IsApplied(), operations), Count(IsNoop(), operations), LedgerOf(next), next))
  }

  // ----- the method the source runs -----

  ghost predicate ByIdOf(rows: seq<Row>, byId: map<DelegationId, Row>) {
    forall id :: RowNamed(rows, id) == if id in byId then Some(byId[id]) else None
  }

  lemma {:induction false} DuplicateStays(rows: seq<Row>, k: nat)
    requires k <= |rows| && FirstDuplicate(rows[..k]).Some?
    ensures FirstDuplicate(rows) == FirstDuplicate(rows[..k])
    decreases |rows|
  {
    if k == |rows| {
      assert rows[..k] == rows;
    } else {
      var n := |rows| - 1;
      assert rows[..n][..k] == rows[..k];
      DuplicateStays(rows[..n], k);
    }
  }

  datatype IdIndex = IdIndex(byId: map<DelegationId, Row>)

  method IndexDelegationsById(rows: seq<Row>) returns (r: Result<IdIndex, PlanError>)
    ensures r.Success? ==> FirstDuplicate(rows).None? && ByIdOf(rows, r.value.byId)
    ensures r.Failure? ==> r.error.DuplicateDelegationId? && FirstDuplicate(rows) == Some(r.error.delegationId)
  {
    var byId: map<DelegationId, Row> := map[];
    for i := 0 to |rows|
      invariant FirstDuplicate(rows[..i]).None? && ByIdOf(rows[..i], byId)
    {
      PrefixStep(rows, i);
      if HasId(rows[i]) {
        var id := rows[i].core.delegationId.value;
        if id in byId {
          DuplicateStays(rows, i + 1);
          return Failure(DuplicateDelegationId(id));
        }
        byId := byId[id := rows[i]];
      }
    }
    assert rows[..|rows|] == rows;
    r := Success(IdIndex(byId));
  }

  /** What resolution makes of an active row. */
  function Attempted(res: Resolution, row: Row): Row {
    if row.padded then row else Resolved(row, res.target, res.at, res.metadata)
  }

  ghost predicate UpdatesOf(rows: seq<Row>, res: Resolution, edges: seq<Link>, updates: map<DelegationId, Row>) {
    forall id :: (id in updates
      <==> RowNamed(rows, id).Some? && RowNamed(rows, id).value.status == Active && Names(edges, Some(id)))
      && (id in updates ==> updates[id] == Attempted(res, RowNamed(rows, id).value))
  }

  lemma {:induction false} ProblemStays(rows: seq<Row>, res: Resolution, edges: seq<Link>, k: nat)
    requires k <= |edges| && FirstProblem(rows, res, edges[..k]).Some?
    ensures FirstProblem(rows, res, edges) == FirstProblem(rows, res, edges[..k])
    decreases |edges|
  {
    if k == |edges| {
      assert edges[..k] == edges;
    } else {
      var n := |edges| - 1;
      assert edges[..n][..k] == edges[..k];
      ProblemStays(rows, res, edges[..n], k);
    }
  }

  lemma {:induction false} NamesStep(edges: seq<Link>, edge: Link)
    ensures forall id :: Names(edges + [edge], id) <==> Names(edges, id) || id == edge.delegationId
  {
    forall id ensures Names(edges + [edge], id) <==> Names(edges, id) || id == edge.delegationId {
      if id == edge.delegationId {
        assert edge in edges + [edge];
      }
      if Names(edges, id) {
        var e :| e in edges && e.delegationId == id;
        assert e in edges + [edge];
      }
    }
  }

  /** One edge of the plan: the same decision from `updates` and `byId` as from the original rows. */
  method ApplyEdge(ghost rows: seq<Row>, ghost done: seq<Link>, byId: map<DelegationId, Row>,
      updates0: map<DelegationId, Row>, edge: Link, res: Resolution)
    returns (r: Result<Operation, PlanError>, updates: map<DelegationId, Row>)
    requires res.target == Settled || res.target == Revoked
    requires ByIdOf(rows, byId) && UpdatesOf(rows, res, done, updates0) && FirstProblem(rows, res, done).None?
    ensures r.Failure? ==> FirstProblem(rows, res, done + [edge]) == Some(r.error)
    ensures r.Success? ==> FirstProblem(rows, res, done + [edge]).None? && UpdatesOf(rows, res, done + [edge], updates)
    ensures r.Success? ==> OperationsOf(rows, res, done + [edge]) == OperationsOf(rows, res, done) + [r.value]
  {
    updates := updates0;
    assert (done + [edge])[..|done|] == done;
    NamesStep(done, edge);
    if edge.delegationId.None? {
      return Failure(EdgeIdRequired), updates;
    }
    var id := edge.delegationId.value;
    assert RowNamed(rows, id) == if id in byId then Some(byId[id]) else None;
    if id !in updates && id !in byId {
      return Failure(EdgeNotFound(id)), updates;
    }
    var current := if id in updates then updates[id] else byId[id];
    if current.status != Active && current.status != res.target {
      return Failure(TerminalConflict(id, current.status, res.target)), updates;
    }
    if current.status == res.target {
      if id in updates {
        ghost var e :| e in done && e.delegationId == Some(id);
        NoProblemAnywhere(rows, res, done, e);
      }
      return Success(Operation(id, Noop, current.status, res.target)), updates;
    }
    var resolved := Resolve(current, res.target, res.at, res.metadata);
    if resolved.Failure? {
      return Failure(RowRejected(resolved.error)), updates;
    }
    updates := updates[id := resolved.value];
    r := Success(Operation(id, Applied, current.status, res.target));
  }

  method ReplaceRows(rows: seq<Row>, ghost edges: seq<Link>, ghost res: Resolution, updates: map<DelegationId, Row>)
    returns (next: seq<Row>)
    requires FirstDuplicate(rows).None? && UpdatesOf(rows, res, edges, updates)
    ensures next == AfterAll(res, edges, rows)
  {
    next := [];
    for i := 0 to |rows|
      invariant next == AfterAll(res, edges, rows[..i])
    {
      PrefixStep(rows, i);
      if HasId(rows[i]) {
        RowNamedUnique(rows, i);
        var id := rows[i].core.delegationId.value;
        next := next + [if id in updates then updates[id] else rows[i]];
      }
    }
    assert rows[..|rows|] == rows;
  }

  lemma {:induction false} RowNamedUnique(rows: seq<Row>, i: nat)
    requires FirstDuplicate(rows).None? && i < |rows| && HasId(rows[i])
    ensures RowNamed(rows, rows[i].core.delegationId.value) == Some(rows[i])
    decreases |rows|
  {
    var n := |rows| - 1;
    if i < n {
      RowNamedUnique(rows[..n], i);
    }
  }

  method ApplyDelegationResolutionPlan(rows: seq<Row>, edges: seq<Link>, res: Resolution)
    returns (r: Result<PlanResult, PlanError>)
    ensures r == ApplyPlan(rows, edges, res)
  {
    if !Terminal(res.target) {
      return Failure(TargetNotTerminal);
    }
    var indexed := IndexDelegationsById(rows);
    if indexed.Failure? {
      return Failure(indexed.error);
    }
    var updates: map<DelegationId, Row> := map[];
    var operations: seq<Operation> := [];
    for i := 0 to |edges|
      invariant FirstProblem(rows, res, edges[..i]).None?
      invariant UpdatesOf(rows, res, edges[..i], updates)
      invariant operations == OperationsOf(rows, res, edges[..i])
    {
      PrefixStep(edges, i);
      var step;
      step, updates := ApplyEdge(rows, edges[..i], indexed.value.byId, updates, edges[i], res);
      if step.Failure? {
        ProblemStays(rows, res, edges, i + 1);
        return Failure(step.error);
      }
      operations := operations + [step.value];
    }
    assert edges[..|edges|] == edges;
    var next := ReplaceRows(rows, edges, res, updates);
    var ledger := SummarizeLedger(next);
    r := Success(PlanResult(operations, Count(IsApplied(), operations), Count(IsNoop(), operations), ledger, next));
  }

  // ----- what a successful execution changes -----

  /** Row by row: the plan's pending rows are resolved once and keep a valid hash; every other row keeps its place
      unchanged. A row the plan names then has the target status unless it is stuck. */
  lemma {:induction false} PlanChangesExactly(rows: seq<Row>, edges: seq<Link>, res: Resolution)
    requires ApplyPlan(rows, edges, res).Success?
    ensures var kept := Filter(HasId, rows); var next := ApplyPlan(rows, edges, res).value.delegations;
      && |next| == |kept|
      && forall i :: 0 <= i < |next| ==>
           && next[i].core == kept[i].core && next[i].delegationHash == kept[i].delegationHash
           && (Names(edges, kept[i].core.delegationId) ==> (next[i].status == res.target <==> !Stuck(kept[i])))
           && (next[i] != kept[i] <==> Names(edges, kept[i].core.delegationId) && Pending(kept[i]))
           && (next[i] != kept[i] ==>
                 (next[i].revision == kept[i].revision + 1 && next[i].updatedAt == res.at
                  && next[i].resolvedAt == Some(res.at) && next[i].delegationHash == Sha256(next[i].core)
                  && next[i].metadata == (if res.metadata.Some? then res.metadata else kept[i].metadata)))
  {
    AfterAllIsMap(res, edges, rows);
    var kept := Filter(HasId, rows);
    FilterContents(HasId, rows);
    forall i | 0 <= i < |kept| && Names(edges, kept[i].core.delegationId)
      ensures kept[i].status == Active ==> Accepted(kept[i])
      ensures kept[i].status == Active || kept[i].status == res.target
    {
      assert kept[i] in rows && HasId(kept[i]);
      var k :| 0 <= k < |rows| && rows[k] == kept[i];
      RowNamedUnique(rows, k);
      var e :| e in edges && e.delegationId == kept[i].core.delegationId;
      NoProblemAnywhere(rows, res, edges, e);
    }
  }

  lemma {:induction false} AfterAllIsMap(res: Resolution, edges: seq<Link>, rows: seq<Row>)
    ensures var kept := Filter(HasId, rows);
      && |AfterAll(res, edges, rows)| == |kept|
      && forall i :: 0 <= i < |kept| ==> AfterAll(res, edges, rows)[i] == After(res, edges, kept[i])
  {
    if rows != [] {
      AfterAllIsMap(res, edges, rows[..|rows| - 1]);
    }
  }

  lemma {:induction false} NoProblemAnywhere(rows: seq<Row>, res: Resolution, edges: seq<Link>, e: Link)
    requires FirstProblem(rows, res, edges).None? && e in edges
    ensures EdgeProblem(rows, res, e).None?
  {
    var n := |edges| - 1;
    if e != edges[n] {
      assert edges == edges[..n] + [edges[n]];
      NoProblemAnywhere(rows, res, edges[..n], e);
    }
  }

  ghost predicate NamesPending(rows: seq<Row>, id: Option<DelegationId>) {
    id.Some? && RowNamed(rows, id.value).Some? && Pending(RowNamed(rows, id.value).value)
  }

  function NamesStuck(rows: seq<Row>): Link -> bool {
    (e: Link) => e.delegationId.Some? && RowNamed(rows, e.delegationId.value).Some?
      && Stuck(RowNamed(rows, e.delegationId.value).value)
  }

  /** How many edges name a stuck row: each is reported as applied and changes nothing. */
  function StuckEdges(rows: seq<Row>, edges: seq<Link>): nat {
    Count(NamesStuck(rows), edges)
  }

  /** The ids an execution resolves, each by exactly one operation. */
  ghost function AppliedIds(rows: seq<Row>, edges: seq<Link>): set<DelegationId> {
    set e | e in edges && NamesPending(rows, e.delegationId) :: e.delegationId.value
  }

  lemma {:induction false} AppliedIdsMeaning(rows: seq<Row>, edges: seq<Link>, id: DelegationId)
    ensures id in AppliedIds(rows, edges) <==> NamesPending(rows, Some(id)) && Names(edges, Some(id))
  {
  }

  lemma {:induction false} AppliedIdsStep(rows: seq<Row>, edges: seq<Link>, e: Link)
    ensures AppliedIds(rows, edges + [e])
      == if NamesPending(rows, e.delegationId) then AppliedIds(rows, edges) + {e.delegationId.value}
        else AppliedIds(rows, edges)
  {
    forall id ensures id in AppliedIds(rows, edges + [e])
      <==> id in AppliedIds(rows, edges) || (NamesPending(rows, e.delegationId) && id == e.delegationId.value)
    {
      NamesStep(edges, e);
      AppliedIdsMeaning(rows, edges, id);
      AppliedIdsMeaning(rows, edges + [e], id);
    }
  }

  lemma {:induction false} AppliedStep(rows: seq<Row>, edges: seq<Link>, res: Resolution, e: Link)
    requires FirstProblem(rows, res, edges + [e]).None? && FirstProblem(rows, res, edges).None?
    ensures var hit := if NamesStuck(rows)(e)
      || (NamesPending(rows, e.delegationId) && !Names(edges, e.delegationId)) then 1 else 0;
      var ops, before := OperationsOf(rows, res, edges + [e]), OperationsOf(rows, res, edges);
      && Count(IsApplied(), ops) == Count(IsApplied(), before) + hit
      && Count(IsNoop(), ops) == Count(IsNoop(), before) + 1 - hit
  {
    assert (edges + [e])[..|edges|] == edges;
    var ops, before := OperationsOf(rows, res, edges + [e]), OperationsOf(rows, res, edges);
    CountStep(IsApplied(), before, ops[|ops| - 1]);
    CountStep(IsNoop(), before, ops[|ops| - 1]);
    NoProblemAnywhere(rows, res, edges + [e], e);
  }

  lemma {:induction false} AppliedCountsIds(rows: seq<Row>, edges: seq<Link>, res: Resolution)
    requires FirstProblem(rows, res, edges).None?
    ensures Count(IsApplied(), OperationsOf(rows, res, edges)) == |AppliedIds(rows, edges)| + StuckEdges(rows, edges)
    ensures Count(IsApplied(), OperationsOf(rows, res, edges)) + Count(IsNoop(), OperationsOf(rows, res, edges))
      == |edges|
  {
    if edges != [] {
      var n := |edges| - 1;
      var front, e := edges[..n], edges[n];
      AppliedCountsIds(rows, front, res);
      assert edges == front + [e];
      NoProblemAnywhere(rows, res, edges, e);
      AppliedStep(rows, front, res, e);
      AppliedIdsStep(rows, front, e);
      CountStep(NamesStuck(rows), front, e);
      var id, ids := e.delegationId.value, AppliedIds(rows, front);
      AppliedIdsMeaning(rows, front, id);
      if id in ids {
        assert ids + {id} == ids;
      }
      assert AppliedIds(rows, edges) == if NamesPending(rows, Some(id)) then ids + {id} else ids;
    }
  }

  function PlannedActive(edges: seq<Link>): Row -> bool {
    (r: Row) => Pending(r) && HasId(r) && Names(edges, r.core.delegationId)
  }

  ghost function PlannedIds(rows: seq<Row>, edges: seq<Link>): set<DelegationId> {
    set r | r in rows && PlannedActive(edges)(r) :: r.core.delegationId.value
  }

  lemma {:induction false} PlannedIdsStep(rows: seq<Row>, edges: seq<Link>, row: Row)
    ensures PlannedIds(rows + [row], edges)
      == if PlannedActive(edges)(row) then PlannedIds(rows, edges) + {row.core.delegationId.value}
        else PlannedIds(rows, edges)
    ensures PlannedActive(edges)(row) && row.core.delegationId.value in PlannedIds(rows, edges)
      ==> RowNamed(rows, row.core.delegationId.value).Some?
  {
    if PlannedActive(edges)(row) && row.core.delegationId.value in PlannedIds(rows, edges) {
      var id := row.core.delegationId.value;
      var r :| r in rows && PlannedActive(edges)(r) && r.core.delegationId.value == id;
      RowNamedMeaning(rows, id);
    }
  }

  lemma {:induction false} PlannedCountsIds(rows: seq<Row>, edges: seq<Link>)
    requires FirstDuplicate(rows).None?
    ensures Count(PlannedActive(edges), rows) == |PlannedIds(rows, edges)|
  {
    if rows != [] {
      var n := |rows| - 1;
      PlannedCountsIds(rows[..n], edges);
      PlannedIdsStep(rows[..n], edges, rows[n]);
      assert rows[..n] + [rows[n]] == rows;
    }
  }

  lemma {:induction false} RowNamedMeaning(rows: seq<Row>, id: DelegationId)
    ensures RowNamed(rows, id).Some? <==> exists r :: r in rows && r.core.delegationId == Some(id)
    ensures RowNamed(rows, id).Some? ==>
      RowNamed(rows, id).value in rows && RowNamed(rows, id).value.core.delegationId == Some(id)
  {
    if rows != [] {
      var n := |rows| - 1;
      assert rows == rows[..n] + [rows[n]];
      RowNamedMeaning(rows[..n], id);
    }
  }

  lemma {:induction false} AppliedIdsArePlanned(rows: seq<Row>, edges: seq<Link>)
    requires FirstDuplicate(rows).None?
    ensures AppliedIds(rows, edges) == PlannedIds(rows, edges)
  {
    forall id ensures id in AppliedIds(rows, edges) <==> id in PlannedIds(rows, edges) {
      RowNamedMeaning(rows, id);
      if id in PlannedIds(rows, edges) {
        var r :| r in rows && PlannedActive(edges)(r) && r.core.delegationId.value == id;
        var k :| 0 <= k < |rows| && rows[k] == r;
        RowNamedUnique(rows, k);
        var e :| e in edges && e.delegationId == Some(id);
      }
      if id in AppliedIds(rows, edges) {
        var e :| e in edges && e.delegationId == Some(id) && Pending(RowNamed(rows, id).value);
        assert Names(edges, Some(id));
      }
    }
  }

  lemma {:induction false} AfterAllStep(rows: seq<Row>, edges: seq<Link>, res: Resolution, row: Row)
    ensures AfterAll(res, edges, rows + [row])
      == if HasId(row) then AfterAll(res, edges, rows) + [After(res, edges, row)] else AfterAll(res, edges, rows)
    ensures Filter(HasId, rows + [row]) == if HasId(row) then Filter(HasId, rows) + [row] else Filter(HasId, rows)
    ensures Count(PlannedActive(edges), rows + [row])
      == Count(PlannedActive(edges), rows) + if PlannedActive(edges)(row) then 1 else 0
  {
    assert (rows + [row])[..|rows|] == rows;
  }

  lemma {:induction false} CountStep<T(!new)>(p: T -> bool, xs: seq<T>, x: T)
    ensures Count(p, xs + [x]) == Count(p, xs) + if p(x) then 1 else 0
  {
    assert (xs + [x])[..|xs|] == xs;
  }

  lemma {:induction false} StatusCountsMove(rows: seq<Row>, edges: seq<Link>, res: Resolution, s: Status)
    requires res.target != Active
    ensures var planned: int := Count(PlannedActive(edges), rows);
      var before: int := Count(WithStatus(s), Filter(HasId, rows));
      Count(WithStatus(s), AfterAll(res, edges, rows))
        == if s == Active then before - planned else if s == res.target then before + planned else before
  {
    if rows != [] {
      var n := |rows| - 1;
      StatusCountsMove(rows[..n], edges, res, s);
      MoveStep(rows[..n], edges, res, s, rows[n]);
      assert rows[..n] + [rows[n]] == rows;
    }
  }

  lemma {:induction false} MoveStep(rows: seq<Row>, edges: seq<Link>, res: Resolution, s: Status, row: Row)
    requires res.target != Active
    ensures var hit := if PlannedActive(edges)(row) then 1 else 0;
      && Count(PlannedActive(edges), rows + [row]) == Count(PlannedActive(edges), rows) + hit
      && Count(WithStatus(s), AfterAll(res, edges, rows + [row])) as int - Count(WithStatus(s),
        Filter(HasId, rows + [row]))
         == Count(WithStatus(s), AfterAll(res, edges, rows)) as int - Count(WithStatus(s), Filter(HasId, rows))
            + if s == Active then -hit else if s == res.target then hit else 0
  {
    AfterAllStep(rows, edges, res, row);
    CountStep(WithStatus(s), AfterAll(res, edges, rows), After(res, edges, row));
    CountStep(WithStatus(s), Filter(HasId, rows), row);
  }

  /** The ledger moves out of active into the target status by what was applied less the edges that name a stuck row,
      and stays as it was otherwise; so it moves by exactly `applied` when and only when no edge names a stuck row. */
  lemma {:induction false} PlanLedgerMoves(rows: seq<Row>, edges: seq<Link>, res: Resolution)
    requires ApplyPlan(rows, edges, res).Success?
    ensures var before := LedgerOf(Filter(HasId, rows)); var r := ApplyPlan(rows, edges, res).value;
      var moved := r.applied - StuckEdges(rows, edges);
      && r.ledger.active == before.active - moved
      && r.ledger.settled == before.settled + (if res.target == Settled then moved else 0)
      && r.ledger.revoked == before.revoked + (if res.target == Revoked then moved else 0)
      && r.ledger.total == before.total
      && r.applied + r.noop == |edges|
      && (r.ledger.active == before.active - r.applied <==> forall e :: e in edges ==> !NamesStuck(rows)(e))
  {
    AppliedCountsIds(rows, edges, res);
    PlannedCountsIds(rows, edges);
    AppliedIdsArePlanned(rows, edges);
    NoneStuck(rows, edges);
    hide NamesStuck;
    StatusCountsMove(rows, edges, res, Active);
    StatusCountsMove(rows, edges, res, Settled);
    StatusCountsMove(rows, edges, res, Revoked);
    AfterAllIsMap(res, edges, rows);
  }

  lemma {:induction false} NoneStuck(rows: seq<Row>, edges: seq<Link>)
    ensures StuckEdges(rows, edges) == 0 <==> forall e :: e in edges ==> !NamesStuck(rows)(e)
  {
    if edges != [] {
      var n := |edges| - 1;
      assert edges == edges[..n] + [edges[n]];
      NoneStuck(rows, edges[..n]);
    }
  }

  // ----- what an execution reports -----

  lemma {:induction false} OperationsLength(rows: seq<Row>, res: Resolution, edges: seq<Link>)
    requires FirstProblem(rows, res, edges).None?
    ensures |OperationsOf(rows, res, edges)| == |edges|
  {
    if edges != [] {
      OperationsLength(rows, res, edges[..|edges| - 1]);
    }
  }

  /** Operation `k`, where `row` is what edge `k` names: the first edge that names a pending row applies, and so does
      every edge that names a stuck one; any other edge is a no-op on a row that has the target status already. */
  ghost predicate Reported(edges: seq<Link>, k: nat, row: Row, op: Operation, target: Status)
    requires k < |edges|
  {
    && row.core.delegationId == edges[k].delegationId == Some(op.delegationId)
    && op.toStatus == target
    && match op.outcome
       case Applied =>
         && op.fromStatus == Active == row.status
         && (row.padded || forall j :: 0 <= j < k ==> edges[j].delegationId != edges[k].delegationId)
       case Noop =>
         && op.fromStatus == target
         && (row.status == target
             || (row.status == Active && !row.padded
                 && exists j :: 0 <= j < k && edges[j].delegationId == edges[k].delegationId))
  }

  lemma {:induction false} OperationAt(rows: seq<Row>, res: Resolution, edges: seq<Link>, k: nat)
    requires FirstProblem(rows, res, edges).None? && Terminal(res.target) && k < |edges|
    ensures |OperationsOf(rows, res, edges)| == |edges|
    ensures edges[k].delegationId.Some? && RowNamed(rows, edges[k].delegationId.value).Some?
    ensures var row := RowNamed(rows, edges[k].delegationId.value).value;
      row in rows && Reported(edges, k, row, OperationsOf(rows, res, edges)[k], res.target)
  {
    OperationsLength(rows, res, edges);
    var n := |edges| - 1;
    OperationsLength(rows, res, edges[..n]);
    if k < n {
      OperationAt(rows, res, edges[..n], k);
    } else {
      NoProblemAnywhere(rows, res, edges, edges[n]);
      RowNamedMeaning(rows, edges[n].delegationId.value);
      if Names(edges[..n], edges[n].delegationId) {
        var e :| e in edges[..n] && e.delegationId == edges[n].delegationId;
        var j :| 0 <= j < n && edges[..n][j] == e;
      } else {
        forall j | 0 <= j < n ensures edges[j].delegationId != edges[n].delegationId {
          assert edges[..n][j] in edges[..n];
        }
      }
      hide RowNamed, FirstProblem, Names;
    }
  }

  /** What a successful execution reports: one operation for each edge, in the order of the edges, for the row that the
      edge names; and how many of them were applied and how many were not. */
  lemma {:induction false} OperationsExplained(rows: seq<Row>, edges: seq<Link>, res: Resolution, k: nat)
    requires ApplyPlan(rows, edges, res).Success? && k < |edges|
    ensures var r := ApplyPlan(rows, edges, res).value;
      && |r.operations| == |edges|
      && (exists row :: row in rows && Reported(edges, k, row, r.operations[k], res.target))
      && r.applied == Count((op: Operation) => op.outcome == Applied, r.operations)
      && r.noop == |edges| - r.applied
  {
    OperationAt(rows, res, edges, k);
    AppliedCountsIds(rows, edges, res);
    hide RowNamed, FirstProblem, Names, Count, OperationsOf, Reported;
    SameCount(OperationsOf(rows, res, edges));
  }

  lemma {:induction false} SameCount(ops: seq<Operation>)
    ensures Count(IsApplied(), ops) == Count((op: Operation) => op.outcome == Applied, ops)
  {
    if ops != [] {
      SameCount(ops[..|ops| - 1]);
    }
  }

  // ----- when an execution succeeds, and how it fails -----

  ghost predicate DistinctIds(rows: seq<Row>) {
    forall i, j :: 0 <= i < j < |rows| && HasId(rows[i]) ==> rows[i].core.delegationId != rows[j].core.delegationId
  }

  /** Row `j` is the first to repeat an id. */
  ghost predicate FirstToRepeat(rows: seq<Row>, j: nat) {
    j < |rows| && DistinctIds(rows[..j]) && !DistinctIds(rows[..j + 1])
  }

  lemma {:induction false} DistinctIdsStep(rows: seq<Row>, row: Row)
    ensures DistinctIds(rows + [row]) <==>
      DistinctIds(rows) && (HasId(row) ==> RowNamed(rows, row.core.delegationId.value).None?)
  {
    var all := rows + [row];
    assert forall i :: 0 <= i < |rows| ==> all[i] == rows[i];
    if HasId(row) {
      RowNamedMeaning(rows, row.core.delegationId.value);
    }
    hide RowNamed;
    if DistinctIds(all) && HasId(row) {
      forall r | r in rows ensures r.core.delegationId != row.core.delegationId {
        var i :| 0 <= i < |rows| && rows[i] == r;
        assert all[i] == r && all[|rows|] == row;
      }
    }
  }

  /** The id check passes exactly for distinct ids, and otherwise names the first id to be repeated. */
  lemma {:induction false} NoDuplicateIff(rows: seq<Row>)
    ensures FirstDuplicate(rows).None? <==> DistinctIds(rows)
    ensures FirstDuplicate(rows).Some? ==>
      exists j :: 0 <= j < |rows| && FirstToRepeat(rows, j) && rows[j].core.delegationId == FirstDuplicate(rows)
  {
    if rows != [] {
      var n := |rows| - 1;
      NoDuplicateIff(rows[..n]);
      DistinctIdsStep(rows[..n], rows[n]);
      assert rows == rows[..n] + [rows[n]];
      hide DistinctIds, RowNamed;
      if FirstDuplicate(rows[..n]).Some? {
        var j :|
          0 <= j < n && FirstToRepeat(rows[..n], j) && rows[..n][j].core.delegationId == FirstDuplicate(rows[..n]);
        assert rows[..n][..j] == rows[..j] && rows[..n][..j + 1] == rows[..j + 1];
        assert FirstToRepeat(rows, j);
      } else if FirstDuplicate(rows).Some? {
        assert rows[..n + 1] == rows;
        assert FirstToRepeat(rows, n);
      }
    }
  }

  /** The edge names a row that has the target status, or an acceptable active one. */
  ghost predicate Executable(rows: seq<Row>, target: Status, e: Link) {
    && e.delegationId.Some?
    && exists r :: r in rows && r.core.delegationId == e.delegationId
         && (r.status == target || (r.status == Active && Accepted(r)))
  }

  lemma {:induction false} ExecutableIff(rows: seq<Row>, res: Resolution, e: Link)
    requires FirstDuplicate(rows).None? && Terminal(res.target)
    ensures EdgeProblem(rows, res, e).None? <==> Executable(rows, res.target, e)
  {
    if e.delegationId.Some? {
      RowNamedMeaning(rows, e.delegationId.value);
      if r :|
        && r in rows && r.core.delegationId == e.delegationId
        && (r.status == res.target || (r.status == Active && Accepted(r))) {
        var k :| 0 <= k < |rows| && rows[k] == r;
        RowNamedUnique(rows, k);
      }
    }
  }

  /** Exactly when an execution succeeds: the target is terminal,
      no two rows share an id, and every edge is executable. */
  lemma {:induction false} PlanSucceedsIff(rows: seq<Row>, edges: seq<Link>, res: Resolution)
    ensures ApplyPlan(rows, edges, res).Success? <==>
      && (res.target == Settled || res.target == Revoked) && DistinctIds(rows)
      && forall e :: e in edges ==> Executable(rows, res.target, e)
  {
    NoDuplicateIff(rows);
    hide DistinctIds, Executable, RowNamed, EdgeProblem, AfterAll, OperationsOf;
    if Terminal(res.target) && FirstDuplicate(rows).None? {
      AllEdgesExecutable(rows, res, edges);
    }
  }

  lemma {:induction false} AllEdgesExecutable(rows: seq<Row>, res: Resolution, edges: seq<Link>)
    requires FirstDuplicate(rows).None? && Terminal(res.target)
    ensures FirstProblem(rows, res, edges).None? <==> forall e :: e in edges ==> Executable(rows, res.target, e)
  {
    if edges != [] {
      hide Executable, EdgeProblem, FirstDuplicate;
      var n := |edges| - 1;
      assert edges == edges[..n] + [edges[n]];
      AllEdgesExecutable(rows, res, edges[..n]);
      ExecutableIff(rows, res, edges[n]);
    }
  }

  /** What is wrong with an edge that cannot be executed. */
  ghost predicate Explains(rows: seq<Row>, target: Status, e: Link, error: PlanError) {
    match error
    case EdgeIdRequired => e.delegationId.None?
    case EdgeNotFound(id) => e.delegationId == Some(id) && forall r :: r in rows ==> r.core.delegationId != Some(id)
    case TerminalConflict(id, current, wanted) =>
      && e.delegationId == Some(id) && wanted == target && current != Active && current != target
      && exists r :: r in rows && r.core.delegationId == Some(id) && r.status == current
    case RowRejected(reason) =>
      && reason == InvalidDelegation
      && exists r :: r in rows && r.core.delegationId == e.delegationId && r.status == Active && !Accepted(r)
    case _ => false
  }

  lemma {:induction false} ProblemExplained(rows: seq<Row>, res: Resolution, e: Link)
    requires EdgeProblem(rows, res, e).Some?
    ensures Explains(rows, res.target, e, EdgeProblem(rows, res, e).value)
  {
    if e.delegationId.Some? {
      RowNamedMeaning(rows, e.delegationId.value);
      hide RowNamed;
    }
  }

  /** A failure over rows with distinct ids is explained by the first edge that cannot be executed. */
  lemma {:induction false} FailureIsFirst(rows: seq<Row>, edges: seq<Link>, res: Resolution)
    requires Terminal(res.target) && DistinctIds(rows) && ApplyPlan(rows, edges, res).Failure?
    ensures exists k ::
      && 0 <= k < |edges| && Explains(rows, res.target, edges[k], ApplyPlan(rows, edges, res).error)
      && forall j :: 0 <= j < k ==> Executable(rows, res.target, edges[j])
  {
    NoDuplicateIff(rows);
    FirstProblemExplained(rows, res, edges);
    hide DistinctIds, Executable, Explains, RowNamed, EdgeProblem, AfterAll, OperationsOf;
  }

  lemma {:induction false} FirstProblemExplained(rows: seq<Row>, res: Resolution, edges: seq<Link>)
    requires Terminal(res.target) && FirstDuplicate(rows).None? && FirstProblem(rows, res, edges).Some?
    ensures exists k ::
      && 0 <= k < |edges| && Explains(rows, res.target, edges[k], FirstProblem(rows, res, edges).value)
      && forall j :: 0 <= j < k ==> Executable(rows, res.target, edges[j])
  {
    hide Executable, EdgeProblem, FirstDuplicate, Explains;
    var n := |edges| - 1;
    if FirstProblem(rows, res, edges[..n]).Some? {
      FirstProblemExplained(rows, res, edges[..n]);
      var k :| 0 <= k < n && Explains(rows, res.target, edges[..n][k], FirstProblem(rows, res, edges).value)
        && forall j :: 0 <= j < k ==> Executable(rows, res.target, edges[..n][j]);
      assert forall j :: 0 <= j < k ==> edges[..n][j] == edges[j];
    } else {
      ProblemExplained(rows, res, edges[n]);
      AllEdgesExecutable(rows, res, edges[..n]);
      forall j | 0 <= j < n ensures Executable(rows, res.target, edges[j]) {
        assert edges[..n][j] in edges[..n];
      }
    }
  }
}
