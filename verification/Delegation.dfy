/** AgreementDelegation rows: validity, resolution and the status ledger. */
module Delegations {
  import opened Wrappers
  import opened Sequences
  import opened Numbers

  // Identifiers and hashes are codes: only their equality and the collation order passed as a parameter matter.
  datatype AgreementHash = AgreementHash(code: int)
  type DelegationId = int
  type AgentId = int
  type Time = int

  datatype Status = Active | Settled | Revoked | Unsupported(code: int)

  /** The fields covered by `delegationHash`. */
  datatype Core = Core(delegationId: Option<DelegationId>, tenantId: int, parent: Option<AgreementHash>,
    child: Option<AgreementHash>, delegatorAgentId: AgentId, delegateeAgentId: AgentId, budgetCapCents: int,
    currency: int, delegationDepth: int, maxDelegationDepth: int, ancestorChain: Option<seq<AgreementHash>>,
    createdAt: Time)

  /** SHA-256 of the canonical JSON text, taken to be injective. */
  datatype Digest = Sha256(core: Core)

  /** `status` is the status text trimmed and lower-cased; `padded` says that white space surrounds the stored text.
      Some places compare the trimmed text, others the stored one, which no known status equals when it is padded. */
  datatype Row = Row(core: Core, delegationHash: Digest, status: Status, padded: bool, revision: int, updatedAt: Time,
    resolvedAt: Option<Time>, metadata: Option<int>)

  datatype ResolveError = InvalidDelegation | InvalidTarget

  predicate NoDuplicates(xs: seq<AgreementHash>) {
    forall i, j :: 0 <= i < j < |xs| ==> xs[i] != xs[j]
  }

  predicate CoreAccepted(c: Core) {
    && c.delegationId.Some? && c.parent.Some? && c.child.Some? && c.parent != c.child
    && 0 < c.budgetCapCents <= MAX_SAFE
    && Safe(c.delegationDepth) && Safe(c.maxDelegationDepth)
    && c.delegationDepth <= c.maxDelegationDepth
    && (c.ancestorChain.Some? ==>
          var chain := c.ancestorChain.value;
          && NoDuplicates(chain)
          && |chain| == c.delegationDepth
          && (chain != [] ==> Some(chain[|chain| - 1]) == c.parent))
  }

  predicate Accepted(row: Row) {
    && CoreAccepted(row.core)
    && !row.status.Unsupported?
    && Safe(row.revision)
    && row.delegationHash == Sha256(row.core)
  }

  function Build(core: Core): Result<Row, ResolveError> {
    if !CoreAccepted(core) then Failure(InvalidDelegation)
    else Success(Row(core, Sha256(core), Active, false, 0, core.createdAt, None, None))
  }

  /** Active as resolution sees it. */
  predicate Pending(row: Row) {
    row.status == Active && !row.padded
  }

  /** Active for the plan, the ledger and validation, but not for resolution. */
  predicate Stuck(row: Row) {
    row.status == Active && row.padded
  }

  predicate Terminal(s: Status) {
    s.Settled? || s.Revoked?
  }

  function Resolve(row: Row, target: Status, at: Time, metadata: Option<int>): Result<Row, ResolveError> {
    if !Accepted(row) then Failure(InvalidDelegation)
    else if !Terminal(target) then Failure(InvalidTarget)
    else if !Pending(row) then Success(row)
    else Success(Resolved(row, target, at, metadata))
  }

  function Resolved(row: Row, target: Status, at: Time, metadata: Option<int>): Row {
    row.(status := target, padded := false, resolvedAt := Some(at), revision := row.revision + 1, updatedAt := at,
         metadata := metadata.OrElse(row.metadata))
  }

  /** Resolving an accepted row to a terminal status succeeds, changes only a pending one, and settles the matter:
      resolving the result again, to whatever status, is either refused or leaves it as it is. The result is accepted
      unless the revision has run out of safe integers. */
  lemma {:induction false} ResolvedOnceForGood(row: Row, target: Status, at: Time, metadata: Option<int>,
      target2: Status, at2: Time, metadata2: Option<int>)
    requires Accepted(row) && (target == Settled || target == Revoked)
    ensures Resolve(row, target, at, metadata).Success?
    ensures var next := Resolve(row, target, at, metadata).value;
      && next.core == row.core && next.delegationHash == row.delegationHash
      && (next != row <==> Pending(row))
      && (Pending(row) ==>
            next == Row(row.core, row.delegationHash, target, false, row.revision + 1, at, Some(at),
              if metadata.Some? then metadata else row.metadata))
      && (Accepted(next) <==> Pending(row) ==> row.revision < MAX_SAFE)
      && (Accepted(next) ==>
            Resolve(next, target2, at2, metadata2)
              == if target2 == Settled || target2 == Revoked then Success(next) else Failure(InvalidTarget))
  {
  }

  /** Exactly when a delegation is built: it has an id, two different agreements, a positive safe budget, and a depth
      within its maximum; and its ancestor chain, where one is given, has no duplicates, one agreement for each level,
      and the parent at its end. */
  lemma {:induction false} BuildSucceedsIff(c: Core)
    ensures Build(c).Success? <==>
      && c.delegationId != None && c.parent != None && c.child != None && c.parent != c.child
      && 1 <= c.budgetCapCents <= 9007199254740991
      && 0 <= c.delegationDepth <= c.maxDelegationDepth <= 9007199254740991
      && (c.ancestorChain.Some? ==>
            var chain := c.ancestorChain.value;
            && |chain| == c.delegationDepth && (forall i, j :: 0 <= i < j < |chain| ==> chain[i] != chain[j])
            && (|chain| > 0 ==> c.parent == Some(chain[|chain| - 1])))
    ensures Build(c).Success? ==>
      var row := Build(c).value;
      && Accepted(row) && Pending(row) && row.core == c && row.revision == 0 && row.updatedAt == c.createdAt
      && row.resolvedAt == None && row.metadata == None
  {
  }

  /** A delegation as it is built is resolved exactly once. */
  lemma {:induction false} BuiltResolvesOnce(core: Core, target: Status, at: Time, metadata: Option<int>,
      target2: Status, at2: Time, metadata2: Option<int>)
    requires (target == Settled || target == Revoked) && (target2 == Settled || target2 == Revoked)
    ensures Build(core).Success? ==>
      var once := Resolve(Build(core).value, target, at, metadata);
      && once.Success? && Accepted(once.value) && once.value.status == target && once.value.revision == 1
      && once.value.delegationHash == Sha256(core)
      && Resolve(once.value, target2, at2, metadata2) == once
  {
    if Build(core).Success? {
      ResolvedOnceForGood(Build(core).value, target, at, metadata, target2, at2, metadata2);
    }
  }

  /** A delegation below an acceptable one, whose chain is continued, is acceptable exactly when it does not come back
      to an agreement of the chain and the depth allows it. */
  lemma {:induction false} ChainContinues(c: Core, child: AgreementHash)
    requires CoreAccepted(c) && c.ancestorChain.Some?
    ensures var chain := c.ancestorChain.value;
      CoreAccepted(c.(parent := c.child, child := Some(child), delegationDepth := c.delegationDepth + 1,
        ancestorChain := Some(chain + [c.child.value])))
      <==> c.child.value !in chain && child != c.child.value && c.delegationDepth < c.maxDelegationDepth
  {
    var chain := c.ancestorChain.value;
    if c.child.value in chain {
      var i :| 0 <= i < |chain| && chain[i] == c.child.value;
      assert (chain + [c.child.value])[i] == (chain + [c.child.value])[|chain|];
    }
  }

  datatype LedgerCode = LedgerOk | StatusUnknown | LedgerImbalanced

  datatype Ledger = Ledger(total: nat, active: nat, settled: nat, revoked: nat, terminal: nat, unresolved: nat,
      code: LedgerCode)

  function WithStatus(s: Status): Row -> bool {
    (r: Row) => r.status == s
  }

  /** What the ledger summary is meant to count. */
  function LedgerOf(rows: seq<Row>): Ledger {
    var active := Count(WithStatus(Active), rows);
    var settled := Count(WithStatus(Settled), rows);
    var revoked := Count(WithStatus(Revoked), rows);
    Ledger(|rows|, active, settled, revoked, settled + revoked, active,
      if exists r :: r in rows && r.status.Unsupported? then LedgerImbalanced else LedgerOk)
  }

  lemma {:induction false} CountsCoverKnown(rows: seq<Row>)
    ensures Count(WithStatus(Active), rows) + Count(WithStatus(Settled), rows) + Count(WithStatus(Revoked), rows)
      <= |rows|
    ensures Count(WithStatus(Active), rows) + Count(WithStatus(Settled), rows) + Count(WithStatus(Revoked), rows)
      == |rows|
      <==> forall r :: r in rows ==> !r.status.Unsupported?
  {
    if rows != [] {
      var n := |rows| - 1;
      CountsCoverKnown(rows[..n]);
      assert rows == rows[..n] + [rows[n]];
    }
  }

  /** A ledger adds up exactly when every status is known, and its code says whether it does. */
  lemma {:induction false} LedgerAddsUpIff(rows: seq<Row>)
    ensures var l := LedgerOf(rows);
      && l.unresolved == l.active && l.terminal == l.settled + l.revoked && l.total == |rows|
      && (l.code == LedgerOk <==> l.terminal + l.unresolved == l.total)
      && (l.code == LedgerImbalanced <==> l.terminal + l.unresolved < l.total)
  {
    CountsCoverKnown(rows);
  }

  /** `LedgerImbalanced` always overrides the status code the loop sets. */
  method SummarizeLedger(rows: seq<Row>) returns (ledger: Ledger)
    ensures ledger == LedgerOf(rows)
  {
    var total, active, settled, revoked, terminal, unresolved := 0, 0, 0, 0, 0, 0;
    var code := LedgerOk;
    for i := 0 to |rows|
      invariant total == i
      invariant active == unresolved == Count(WithStatus(Active), rows[..i])
      invariant settled == Count(WithStatus(Settled), rows[..i])
      invariant revoked == Count(WithStatus(Revoked), rows[..i])
      invariant terminal == settled + revoked
      invariant code == LedgerOk || exists r :: r in rows[..i] && r.status.Unsupported?
    {
      PrefixStep(rows, i);
      total := total + 1;
      match rows[i].status {
        case Active =>
          active, unresolved := active + 1, unresolved + 1;
        case Settled =>
          settled, terminal := settled + 1, terminal + 1;
        case Revoked =>
          revoked, terminal := revoked + 1, terminal + 1;
        case Unsupported(_) =>
          code := StatusUnknown;
          assert rows[i] in rows[..i + 1];
      }
    }
    assert rows[..|rows|] == rows;
    CountsCoverKnown(rows);
    if total != active + settled + revoked {
      code := LedgerImbalanced;
    }
    ledger := Ledger(total, active, settled, revoked, terminal, unresolved, code);
  }
}
