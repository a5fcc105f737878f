/** Agent wallets: escrow arithmetic, and what every run of wallet operations conserves. */
module Wallets {
  import opened Wrappers
  import opened Sequences
  import opened Numbers

  type Time = int

  datatype Agent = Agent(code: int)
  datatype Tenant = Tenant(code: int)
  datatype Currency = Currency(code: int)

  datatype Wallet = Wallet(tenant: Tenant, agent: Agent, currency: Currency, available: int, escrow: int, debited: int,
    credited: int, revision: int, createdAt: Time, updatedAt: Time)

  datatype WalletError = InvalidAmount | InvalidRecord | InsufficientBalance | InsufficientEscrow | CurrencyMismatch
      | TenantMismatch
    | UnknownWallet

  predicate Amount(x: int) {
    1 <= x <= MAX_SAFE
  }

  predicate Normal(w: Wallet) {
    Safe(w.available) && Safe(w.escrow) && Safe(w.debited) && Safe(w.credited) && Safe(w.revision)
  }

  function Create(tenant: Tenant, agent: Agent, currency: Currency, at: Time): Wallet {
    Wallet(tenant, agent, currency, 0, 0, 0, 0, 0, at, at)
  }

  /** The checks around every update: the record before and the record after must both be normal. */
  function Updated(base: Wallet, next: Wallet, at: Time): Result<Wallet, WalletError> {
    var w := next.(revision := base.revision + 1, updatedAt := at);
    if !Normal(base) || !Normal(w) then Failure(InvalidRecord) else Success(w)
  }

  function Credit(w: Wallet, amount: int, at: Time): Result<Wallet, WalletError> {
    if !Amount(amount) then Failure(InvalidAmount)
    else Updated(w, w.(available := w.available + amount, credited := w.credited + amount), at)
  }

  function Lock(w: Wallet, amount: int, at: Time): Result<Wallet, WalletError> {
    if !Amount(amount) then Failure(InvalidAmount)
    else if !Normal(w) then Failure(InvalidRecord)
    else if w.available < amount then Failure(InsufficientBalance)
    else Updated(w, w.(available := w.available - amount, escrow := w.escrow + amount), at)
  }

  /** Takes `amount` out of the payer's escrow. */
  function Debit(w: Wallet, amount: int, at: Time): Result<Wallet, WalletError> {
    if !Normal(w) then Failure(InvalidRecord)
    else if w.escrow < amount then Failure(InsufficientEscrow)
    else Updated(w, w.(escrow := w.escrow - amount, debited := w.debited + amount), at)
  }

  /** The new payer and payee records; nothing compares their currencies or tenants. */
  function Release(payer: Wallet, payee: Wallet, amount: int, at: Time): Result<(Wallet, Wallet), WalletError> {
    if !Amount(amount) then Failure(InvalidAmount)
    else
      var p := Debit(payer, amount, at);
      if p.Failure? then Failure(p.error)
      else
        var q := Credit(payee, amount, at);
        if q.Failure? then Failure(q.error) else Success((p.value, q.value))
  }

  /** A refund also raises the credited total. */
  function Refund(w: Wallet, amount: int, at: Time): Result<Wallet, WalletError> {
    if !Amount(amount) then Failure(InvalidAmount)
    else if !Normal(w) then Failure(InvalidRecord)
    else if w.escrow < amount then Failure(InsufficientEscrow)
    else Updated(w, w.(escrow := w.escrow - amount, available := w.available + amount, credited := w.credited + amount),
      at)
  }

  function Transfer(source: Wallet, target: Wallet, amount: int, at: Time): Result<(Wallet, Wallet), WalletError> {
    if !Amount(amount) then Failure(InvalidAmount)
    else if !Normal(source) || !Normal(target) then Failure(InvalidRecord)
    else if source.currency != target.currency then Failure(CurrencyMismatch)
    else if source.tenant != target.tenant then Failure(TenantMismatch)
    else if source.available < amount then Failure(InsufficientBalance)
    else
      var p := Updated(source, source.(available := source.available - amount, debited := source.debited + amount), at);
      if p.Failure? then Failure(p.error)
      else
        var q := Credit(target, amount, at);
        if q.Failure? then Failure(q.error) else Success((p.value, q.value))
  }

  // ----- a table of wallets and runs over it -----

  datatype Move =
    | CreditMove(on: nat, amount: int, at: Time)
    | LockMove(on: nat, amount: int, at: Time)
    | RefundMove(on: nat, amount: int, at: Time)
    | ReleaseMove(on: nat, to: nat, amount: int, at: Time)
    | TransferMove(on: nat, to: nat, amount: int, at: Time)

  predicate TwoSided(m: Move) {
    m.ReleaseMove? || m.TransferMove?
  }

  function OneWallet(w: Wallet, m: Move): Result<Wallet, WalletError>
    requires !TwoSided(m)
  {
    match m
    case CreditMove(_, amount, at) => Credit(w, amount, at)
    case LockMove(_, amount, at) => Lock(w, amount, at)
    case RefundMove(_, amount, at) => Refund(w, amount, at)
  }

  function TwoWallets(a: Wallet, b: Wallet, m: Move): Result<(Wallet, Wallet), WalletError>
    requires TwoSided(m)
  {
    if m.ReleaseMove? then Release(a, b, m.amount, m.at) else Transfer(a, b, m.amount, m.at)
  }

  /** The records a move returns are written back, the paying side first; `AppliedReceiverFirst` is the other order. */
  function Apply(ws: seq<Wallet>, m: Move): Result<seq<Wallet>, WalletError> {
    if m.on >= |ws| || (TwoSided(m) && m.to >= |ws|) then Failure(UnknownWallet)
    else if TwoSided(m) then
      var r := TwoWallets(ws[m.on], ws[m.to], m);
      if r.Failure? then Failure(r.error) else Success(ws[m.on := r.value.0][m.to := r.value.1])
    else
      var r := OneWallet(ws[m.on], m);
      if r.Failure? then Failure(r.error) else Success(ws[m.on := r.value])
  }

  /** A move that throws changes nothing. */
  function Run(ws: seq<Wallet>, ms: seq<Move>): seq<Wallet> {
    if ms == [] then ws
    else
      var before := Run(ws, ms[..|ms| - 1]);
      var r := Apply(before, ms[|ms| - 1]);
      if r.Success? then r.value else before
  }

  function Holdings(): Wallet -> int {
    (w: Wallet) => w.available + w.escrow
  }

  function PaidInBy(ws: seq<Wallet>, m: Move): int {
    if m.CreditMove? && Apply(ws, m).Success? then m.amount else 0
  }

  /** What successful credits have paid in. */
  function PaidIn(ws: seq<Wallet>, ms: seq<Move>): int {
    if ms == [] then 0 else PaidIn(ws, ms[..|ms| - 1]) + PaidInBy(Run(ws, ms[..|ms| - 1]), ms[|ms| - 1])
  }

  function RefundedBy(ws: seq<Wallet>, m: Move, k: nat): int {
    if m.RefundMove? && m.on == k && Apply(ws, m).Success? then m.amount else 0
  }

  /** What successful refunds have returned within wallet `k`. */
  function RefundedTo(ws: seq<Wallet>, ms: seq<Move>, k: nat): int {
    if ms == [] then 0 else RefundedTo(ws, ms[..|ms| - 1], k) + RefundedBy(Run(ws, ms[..|ms| - 1]), ms[|ms| - 1], k)
  }

  ghost predicate AllNormal(ws: seq<Wallet>) {
    forall w :: w in ws ==> Normal(w)
  }

  lemma {:induction false} StepKeepsNormal(ws: seq<Wallet>, m: Move)
    requires AllNormal(ws)
    ensures Apply(ws, m).Success? ==> AllNormal(Apply(ws, m).value) && |Apply(ws, m).value| == |ws|
  {
  }

  /** Every wallet a run reaches has nonnegative, safe amounts, whatever its moves. */
  lemma {:induction false} RunKeepsNormal(ws: seq<Wallet>, ms: seq<Move>)
    requires AllNormal(ws)
    ensures AllNormal(Run(ws, ms)) && |Run(ws, ms)| == |ws|
  {
    if ms != [] {
      hide Apply, AllNormal;
      RunKeepsNormal(ws, ms[..|ms| - 1]);
      StepKeepsNormal(Run(ws, ms[..|ms| - 1]), ms[|ms| - 1]);
    }
  }

  /** What a caller stores when it writes the receiving side first. */
  function AppliedReceiverFirst(ws: seq<Wallet>, m: Move): seq<Wallet>
    requires TwoSided(m) && Apply(ws, m).Success?
  {
    var r := TwoWallets(ws[m.on], ws[m.to], m).value;
    ws[m.to := r.1][m.on := r.0]
  }

  lemma {:induction false} BothHoldings(a: Wallet, b: Wallet, m: Move)
    requires TwoSided(m) && TwoWallets(a, b, m).Success?
    ensures var r := TwoWallets(a, b, m).value;
      Holdings()(r.0) == Holdings()(a) - m.amount && Holdings()(r.1) == Holdings()(b) + m.amount
  {
  }

  /** A successful move between two places of the table keeps the total exactly when they are different places. With one
      wallet as both sides the record written last stands alone: writing the credited record last makes the amount
      appear from nothing, writing the debited record last makes it disappear. */
  lemma {:induction false} TwoSidedKeepsTotalIff(ws: seq<Wallet>, m: Move)
    requires TwoSided(m) && Apply(ws, m).Success?
    ensures Sum(Holdings(), Apply(ws, m).value) == Sum(Holdings(), ws) + if m.on == m.to then m.amount else 0
    ensures Sum(Holdings(), AppliedReceiverFirst(ws, m)) == Sum(Holdings(), ws) - if m.on == m.to then m.amount else 0
    ensures Sum(Holdings(), Apply(ws, m).value) == Sum(Holdings(), ws) <==> m.on != m.to
    ensures Sum(Holdings(), AppliedReceiverFirst(ws, m)) == Sum(Holdings(), ws) <==> m.on != m.to
  {
    var r := TwoWallets(ws[m.on], ws[m.to], m).value;
    BothHoldings(ws[m.on], ws[m.to], m);
    hide Sum, TwoWallets;
    SumUpdate(Holdings(), ws, m.on, r.0);
    SumUpdate(Holdings(), ws[m.on := r.0], m.to, r.1);
    SumUpdate(Holdings(), ws, m.to, r.1);
    SumUpdate(Holdings(), ws[m.to := r.1], m.on, r.0);
  }

  /** A release of 5 from a wallet to itself succeeds: 5 become
      10, or nothing, as the caller writes the records back. */
  lemma {:induction false} SelfReleaseChangesTotal()
    ensures var w := Wallet(Tenant(0), Agent(0), Currency(0), 0, 5, 0, 5, 1, 0, 0); var m := ReleaseMove(0, 0, 5, 1);
      && Sum(Holdings(), [w]) == 5 && Apply([w], m).Success?
      && Sum(Holdings(), Apply([w], m).value) == 10 && Sum(Holdings(), AppliedReceiverFirst([w], m)) == 0
  {
    var w := Wallet(Tenant(0), Agent(0), Currency(0), 0, 5, 0, 5, 1, 0, 0);
    SumOne(Holdings(), w);
    TwoSidedKeepsTotalIff([w], ReleaseMove(0, 0, 5, 1));
    hide Sum;
  }

  lemma {:induction false} OneSidedTotal(ws: seq<Wallet>, m: Move)
    requires !TwoSided(m) && Apply(ws, m).Success?
    ensures Sum(Holdings(), Apply(ws, m).value) == Sum(Holdings(), ws) + PaidInBy(ws, m)
  {
    SumUpdate(Holdings(), ws, m.on, OneWallet(ws[m.on], m).value);
    hide Sum;
  }

  /** Over every run whose moves name two different wallets, available plus escrow over all wallets is what was there
      plus what credits paid in. */
  lemma {:induction false} MoneyIsConserved(ws: seq<Wallet>, ms: seq<Move>)
    requires forall i :: 0 <= i < |ms| && TwoSided(ms[i]) ==> ms[i].on != ms[i].to
    ensures Sum(Holdings(), Run(ws, ms)) == Sum(Holdings(), ws) + PaidIn(ws, ms)
  {
    if ms != [] {
      hide Apply, Sum;
      var front, m := ms[..|ms| - 1], ms[|ms| - 1];
      MoneyIsConserved(ws, front);
      var before := Run(ws, front);
      if Apply(before, m).Success? {
        if TwoSided(m) {
          TwoSidedKeepsTotalIff(before, m);
        } else {
          OneSidedTotal(before, m);
        }
      }
    }
  }

  /** What a wallet holds beyond its credited minus its debited total. */
  function Excess(w: Wallet): int {
    w.available + w.escrow - w.credited + w.debited
  }

  lemma {:induction false} StepExcess(ws: seq<Wallet>, m: Move, k: nat)
    requires k < |ws| && Apply(ws, m).Success?
    ensures |Apply(ws, m).value| == |ws| && Excess(Apply(ws, m).value[k]) == Excess(ws[k]) - RefundedBy(ws, m, k)
  {
  }

  /** Per wallet, available plus escrow is credited minus debited minus refunds, because a refund is credited again. */
  lemma {:induction false} WalletEquation(ws: seq<Wallet>, ms: seq<Move>, k: nat)
    requires k < |ws|
    ensures |Run(ws, ms)| == |ws| && Excess(Run(ws, ms)[k]) == Excess(ws[k]) - RefundedTo(ws, ms, k)
  {
    if ms != [] {
      hide Apply, Excess;
      var front := ms[..|ms| - 1];
      WalletEquation(ws, front, k);
      if Apply(Run(ws, front), ms[|ms| - 1]).Success? {
        StepExcess(Run(ws, front), ms[|ms| - 1], k);
      }
    }
  }

  /** From newly created wallets: nothing is negative, the total
      is what was paid in, and each wallet's equation holds. */
  lemma {:induction false} FromCreatedWallets(ws: seq<Wallet>, ms: seq<Move>, k: nat)
    requires forall w :: w in ws ==> w == Create(w.tenant, w.agent, w.currency, w.createdAt)
    requires k < |ws| && forall i :: 0 <= i < |ms| && TwoSided(ms[i]) ==> ms[i].on != ms[i].to
    ensures AllNormal(Run(ws, ms)) && |Run(ws, ms)| == |ws|
    ensures Sum(Holdings(), Run(ws, ms)) == PaidIn(ws, ms)
    ensures var w := Run(ws, ms)[k]; w.available + w.escrow == w.credited - w.debited - RefundedTo(ws, ms, k)
  {
    RunKeepsNormal(ws, ms);
    MoneyIsConserved(ws, ms);
    WalletEquation(ws, ms, k);
    SumOfZeros(ws);
    assert ws[k] == Create(ws[k].tenant, ws[k].agent, ws[k].currency, ws[k].createdAt);
  }

  lemma {:induction false} SumOfZeros(ws: seq<Wallet>)
    requires forall w :: w in ws ==> w.available == 0 && w.escrow == 0
    ensures Sum(Holdings(), ws) == 0
  {
    if ws != [] {
      assert ws[|ws| - 1] in ws;
      SumOfZeros(ws[..|ws| - 1]);
    }
  }

  // ----- what each move does, wallet by wallet -----

  /** How a move changes the amounts of one wallet. */
  datatype Flow = Flow(available: int, escrow: int, debited: int, credited: int)

  function Outflow(m: Move): Flow {
    match m
    case CreditMove(_, amount, _) => Flow(amount, 0, 0, amount)
    case LockMove(_, amount, _) => Flow(-amount, amount, 0, 0)
    case RefundMove(_, amount, _) => Flow(amount, -amount, 0, amount)
    case ReleaseMove(_, _, amount, _) => Flow(0, -amount, amount, 0)
    case TransferMove(_, _, amount, _) => Flow(-amount, 0, amount, 0)
  }

  /** The receiving side of a release or a transfer. */
  function Inflow(m: Move): Flow {
    Flow(m.amount, 0, 0, m.amount)
  }

  predicate Flowed(w: Wallet, next: Wallet, f: Flow, at: Time) {
    next == w.(available := w.available + f.available, escrow := w.escrow + f.escrow, debited := w.debited + f.debited,
      credited := w.credited + f.credited, revision := w.revision + 1, updatedAt := at)
  }

  /** Whether the amounts stay safe integers; only a decrease can make one negative. */
  predicate CanFlow(w: Wallet, f: Flow) {
    Safe(w.available + f.available) && Safe(w.escrow + f.escrow) && Safe(w.debited + f.debited)
      && Safe(w.credited + f.credited)
      && w.revision < MAX_SAFE
  }

  /** A move between different wallets succeeds exactly when its amount is positive and safe, a transfer keeps to one
      currency and tenant, and every amount it leaves is a safe integer. */
  lemma {:induction false} MoveSucceedsIff(ws: seq<Wallet>, m: Move)
    requires AllNormal(ws) && m.on < |ws| && (TwoSided(m) ==> m.to < |ws| && m.to != m.on)
    ensures Apply(ws, m).Success? <==>
      && Amount(m.amount) && CanFlow(ws[m.on], Outflow(m)) && (TwoSided(m) ==> CanFlow(ws[m.to], Inflow(m)))
      && (m.TransferMove? ==> ws[m.on].currency == ws[m.to].currency && ws[m.on].tenant == ws[m.to].tenant)
  {
    assert ws[m.on] in ws && (TwoSided(m) ==> ws[m.to] in ws);
    hide AllNormal;
  }

  /** Then the paying side sees the outflow, the receiving side the inflow, and every other wallet is untouched. */
  lemma {:induction false} MoveFlows(ws: seq<Wallet>, m: Move, k: nat)
    requires k < |ws| && Apply(ws, m).Success? && (TwoSided(m) ==> m.to != m.on)
    ensures var after := Apply(ws, m).value;
      && |after| == |ws|
      && if k == m.on then Flowed(ws[k], after[k], Outflow(m), m.at)
         else if TwoSided(m) && k == m.to then Flowed(ws[k], after[k], Inflow(m), m.at)
         else after[k] == ws[k]
  {
  }

  /** Without the balance or the escrow it takes from, a move of a proper amount is refused for that; a transfer is
      refused for its currencies first, then for its tenants. */
  lemma {:induction false} RefusedForLack(ws: seq<Wallet>, m: Move)
    requires AllNormal(ws) && m.on < |ws| && (TwoSided(m) ==> m.to < |ws|)
    ensures !Amount(m.amount) ==> Apply(ws, m) == Failure(InvalidAmount)
    ensures Amount(m.amount) && m.LockMove? && ws[m.on].available < m.amount ==>
      Apply(ws, m) == Failure(InsufficientBalance)
    ensures Amount(m.amount) && (m.RefundMove? || m.ReleaseMove?) && ws[m.on].escrow < m.amount ==>
      Apply(ws, m) == Failure(InsufficientEscrow)
    ensures Amount(m.amount) && m.TransferMove? ==>
      var a, b := ws[m.on], ws[m.to];
      && (a.currency != b.currency ==> Apply(ws, m) == Failure(CurrencyMismatch))
      && (a.currency == b.currency && a.tenant != b.tenant ==> Apply(ws, m) == Failure(TenantMismatch))
      && (a.currency == b.currency && a.tenant == b.tenant && a.available < m.amount ==>
           Apply(ws, m) == Failure(InsufficientBalance))
  {
    assert ws[m.on] in ws && (TwoSided(m) ==> ws[m.to] in ws);
    hide AllNormal;
  }
}
