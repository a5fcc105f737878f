/** Wallets and settlements together: every hold is paired with a settlement of its full amount, and every first
    resolution with a release and a refund of its two parts. */
module Escrow {
  import opened Wrappers
  import opened Sequences
  import opened Numbers
  import opened Wallets
  import opened Settlements

  datatype Owner = Owner(tenant: Tenant, agent: Agent)

  datatype Book = Book(wallets: seq<Wallet>, settlements: seq<Settlement>)

  datatype EscrowError = NoWallet | NoSettlement | SameParty | WalletFailed(wallet: WalletError)
      | SettlementFailed(settlement: SettlementError)

  datatype Deal =
    | Fund(owner: Owner, amount: int, at: Time)
    | Pay(owner: Owner, to: Owner, amount: int, at: Time)
    | Hold(terms: CreateInput)
    | Settle(index: nat, resolve: ResolveInput)
    | Amend(index: nat, action: Action)

  function OwnerOf(w: Wallet): Owner {
    Owner(w.tenant, w.agent)
  }

  function PayerOf(s: Settlement): Owner {
    Owner(s.tenant, s.payer)
  }

  function PayeeOf(s: Settlement): Owner {
    Owner(s.tenant, s.payee)
  }

  /** The wallet of an owner; wallets are keyed by tenant and agent. */
  function FindWallet(ws: seq<Wallet>, o: Owner): (r: Option<nat>)
    ensures r.Some? ==> r.value < |ws| && OwnerOf(ws[r.value]) == o
  {
    if ws == [] then None
    else if OwnerOf(ws[|ws| - 1]) == o then Some(|ws| - 1)
    else FindWallet(ws[..|ws| - 1], o)
  }

  function Moved(b: Book, m: Move): Result<Book, EscrowError> {
    var r := Apply(b.wallets, m);
    if r.Failure? then Failure(WalletFailed(r.error)) else Success(b.(wallets := r.value))
  }

  /** The release and the refund of a resolution, each only when its part is not zero. */
  function Payout(ws: seq<Wallet>, payer: nat, payee: nat, released: int, refunded: int,
      at: Time): Result<seq<Wallet>, WalletError> {
    var first := if released > 0 then Apply(ws, ReleaseMove(payer, payee, released, at)) else Success(ws);
    if first.Failure? || refunded <= 0 then first else Apply(first.value, RefundMove(payer, refunded, at))
  }

  function Settled(b: Book, index: nat, i: ResolveInput): Result<Book, EscrowError>
    requires index < |b.settlements|
  {
    var s := b.settlements[index];
    var next := Resolve(s, i);
    var payer, payee := FindWallet(b.wallets, PayerOf(s)), FindWallet(b.wallets, PayeeOf(s));
    if next.Failure? then Failure(SettlementFailed(next.error))
    else if payer.None? || payee.None? then Failure(NoWallet)
    else
      var ws := Payout(b.wallets, payer.value, payee.value, next.value.released, next.value.refunded, i.at);
      if ws.Failure? then Failure(WalletFailed(ws.error))
        else Success(Book(ws.value, b.settlements[index := next.value]))
  }

  function Act(b: Book, d: Deal): Result<Book, EscrowError> {
    match d
    case Fund(o, amount, at) =>
      var w := FindWallet(b.wallets, o);
      if w.None? then Failure(NoWallet) else Moved(b, CreditMove(w.value, amount, at))
    case Pay(o, to, amount, at) =>
      var w, v := FindWallet(b.wallets, o), FindWallet(b.wallets, to);
      if o == to then Failure(SameParty)
      else if w.None? || v.None? then Failure(NoWallet)
      else Moved(b, TransferMove(w.value, v.value, amount, at))
    case Hold(terms) =>
      var w := FindWallet(b.wallets, Owner(terms.tenant, terms.payer));
      var s := Settlements.Create(terms);
      if terms.payer == terms.payee then Failure(SameParty)
      else if w.None? then Failure(NoWallet)
      else if s.Failure? then Failure(SettlementFailed(s.error))
      else
        var locked := Moved(b, LockMove(w.value, terms.amount, terms.at));
        if locked.Failure? then locked else Success(locked.value.(settlements := b.settlements + [s.value]))
    case Settle(index, i) => if index >= |b.settlements| then Failure(NoSettlement) else Settled(b, index, i)
    case Amend(index, action) =>
      if index >= |b.settlements| then Failure(NoSettlement)
      else
        var r := Step(b.settlements[index], action);
        if r.Failure? then Failure(SettlementFailed(r.error))
          else Success(b.(settlements := b.settlements[index := r.value]))
  }

  // ----- the pairing invariant -----

  /** What a settlement keeps locked in `o`'s escrow. */
  function LockedFor(o: Owner): Settlement -> int {
    (s: Settlement) => if s.status.Locked? && PayerOf(s) == o then s.amount else 0
  }

  ghost predicate DistinctOwners(ws: seq<Wallet>) {
    forall i, j :: 0 <= i < j < |ws| ==> OwnerOf(ws[i]) != OwnerOf(ws[j])
  }

  ghost predicate GoodSettlements(ss: seq<Settlement>) {
    forall i :: 0 <= i < |ss| ==> Reachable(ss[i]) && ss[i].payer != ss[i].payee
  }

  /** Every wallet's escrow is the sum of the amounts of its locked settlements. */
  ghost predicate Backed(b: Book) {
    forall k :: 0 <= k < |b.wallets| ==> b.wallets[k].escrow == Sum(LockedFor(OwnerOf(b.wallets[k])), b.settlements)
  }

  ghost predicate Balanced(b: Book) {
    AllNormal(b.wallets) && DistinctOwners(b.wallets) && GoodSettlements(b.settlements) && Backed(b)
  }

  function EscrowChange(m: Move, k: nat): int {
    if m.LockMove? && m.on == k then m.amount
    else if m.RefundMove? && m.on == k then -m.amount
    else if m.ReleaseMove? && m.on == k && m.to != k then -m.amount
    else 0
  }

  /** What a move does to each wallet's owner and escrow. */
  lemma {:induction false} MoveEscrow(ws: seq<Wallet>, m: Move, k: nat)
    requires k < |ws| && Apply(ws, m).Success?
    ensures |Apply(ws, m).value| == |ws|
    ensures OwnerOf(Apply(ws, m).value[k]) == OwnerOf(ws[k])
    ensures Apply(ws, m).value[k].escrow == ws[k].escrow + EscrowChange(m, k)
  {
  }

  /** The wallets of `after` are those of `before` with `change(k)` added to wallet k's escrow. */
  ghost predicate Shifted(before: seq<Wallet>, after: seq<Wallet>, payer: nat, change: int) {
    && |after| == |before| && AllNormal(after)
    && forall k :: 0 <= k < |before| ==>
         && OwnerOf(after[k]) == OwnerOf(before[k])
         && after[k].escrow == before[k].escrow + if k == payer then change else 0
  }

  lemma {:induction false} MoveShifts(ws: seq<Wallet>, m: Move, payer: nat, change: int)
    requires AllNormal(ws) && Apply(ws, m).Success?
    requires forall k: nat :: EscrowChange(m, k) == if k == payer then change else 0
    ensures Shifted(ws, Apply(ws, m).value, payer, change)
  {
    StepKeepsNormal(ws, m);
    forall k | 0 <= k < |ws|
      ensures OwnerOf(Apply(ws, m).value[k]) == OwnerOf(ws[k])
        && Apply(ws, m).value[k].escrow == ws[k].escrow + if k == payer then change else 0
    {
      MoveEscrow(ws, m, k);
    }
    hide Apply, AllNormal, EscrowChange;
  }

  lemma {:induction false} PayoutShifts(ws: seq<Wallet>, payer: nat, payee: nat, released: int, refunded: int, at: Time)
    requires AllNormal(ws) && payer != payee && released >= 0 && refunded >= 0
    requires Payout(ws, payer, payee, released, refunded, at).Success?
    ensures Shifted(ws, Payout(ws, payer, payee, released, refunded, at).value, payer, -(released + refunded))
  {
    hide Apply, AllNormal;
    var mid := ws;
    if released > 0 {
      var m := ReleaseMove(payer, payee, released, at);
      MoveShifts(ws, m, payer, -released);
      mid := Apply(ws, m).value;
    }
    if refunded > 0 {
      MoveShifts(mid, RefundMove(payer, refunded, at), payer, -refunded);
    }
  }

  lemma {:induction false} ShiftedOwners(before: seq<Wallet>, after: seq<Wallet>, payer: nat, change: int)
    requires DistinctOwners(before) && Shifted(before, after, payer, change)
    ensures DistinctOwners(after)
  {
    forall i, j | 0 <= i < j < |after| ensures OwnerOf(after[i]) != OwnerOf(after[j]) {
      assert OwnerOf(after[i]) == OwnerOf(before[i]) && OwnerOf(after[j]) == OwnerOf(before[j]);
    }
  }

  /** Escrow shifts by `change` at `payer` while the locked sum of that owner moves by the same amount. */
  lemma {:induction false} ShiftedBacked(b: Book, ws: seq<Wallet>, ss: seq<Settlement>, payer: nat, change: int)
    requires Balanced(b) && payer < |b.wallets| && Shifted(b.wallets, ws, payer, change) && GoodSettlements(ss)
    requires forall o :: Sum(LockedFor(o), ss) == Sum(LockedFor(o), b.settlements) + if o == OwnerOf(b.wallets[payer])
      then change else 0
    ensures Balanced(Book(ws, ss))
  {
    hide AllNormal, GoodSettlements, Sum, LockedFor;
    ShiftedOwners(b.wallets, ws, payer, change);
    forall k | 0 <= k < |ws| ensures ws[k].escrow == Sum(LockedFor(OwnerOf(ws[k])), ss) {
      assert OwnerOf(ws[k]) == OwnerOf(b.wallets[k]);
      assert k != payer ==> OwnerOf(b.wallets[k]) != OwnerOf(b.wallets[payer]);
    }
  }

  lemma {:induction false} MoveBacked(b: Book, m: Move)
    requires Balanced(b) && Moved(b, m).Success? && (m.CreditMove? || m.TransferMove?)
    ensures Balanced(Moved(b, m).value)
  {
    MoveShifts(b.wallets, m, m.on, 0);
    hide Apply, AllNormal, GoodSettlements;
    ShiftedBacked(b, Moved(b, m).value.wallets, b.settlements, m.on, 0);
  }

  lemma {:induction false} HoldBacked(b: Book, terms: CreateInput)
    requires Balanced(b) && Act(b, Hold(terms)).Success?
    ensures Balanced(Act(b, Hold(terms)).value)
  {
    var w := FindWallet(b.wallets, Owner(terms.tenant, terms.payer)).value;
    var s := Settlements.Create(terms).value;
    CreatedShape(terms);
    MoveShifts(b.wallets, LockMove(w, terms.amount, terms.at), w, terms.amount);
    assert s.payer == terms.payer && s.payee == terms.payee && s.tenant == terms.tenant && s.amount == terms.amount
      && s.status.Locked?;
    var ss := b.settlements + [s];
    hide Apply, AllNormal, Reachable, Settlements.Create, Sum;
    forall o ensures Sum(LockedFor(o), ss) == Sum(LockedFor(o), b.settlements) + if o == OwnerOf(b.wallets[w])
      then terms.amount else 0 {
      SumConcat(LockedFor(o), b.settlements, [s]);
      SumOne(LockedFor(o), s);
    }
    ShiftedBacked(b, Act(b, Hold(terms)).value.wallets, ss, w, terms.amount);
  }

  /** Replacing one settlement by a later state of it. */
  lemma {:induction false} ReplacedSum(ss: seq<Settlement>, index: nat, next: Settlement, o: Owner)
    requires index < |ss| && GoodStep(ss[index], next)
    ensures Sum(LockedFor(o), ss[index := next]) == Sum(LockedFor(o), ss)
      - if ss[index].status.Locked? && !next.status.Locked? && o == PayerOf(ss[index]) then ss[index].amount else 0
  {
    SumUpdate(LockedFor(o), ss, index, next);
    hide Sum, Reachable;
  }

  lemma {:induction false} ReplacedGood(ss: seq<Settlement>, index: nat, next: Settlement)
    requires index < |ss| && GoodSettlements(ss) && GoodStep(ss[index], next)
    ensures GoodSettlements(ss[index := next])
  {
    hide Reachable;
  }

  lemma {:induction false} SettleBacked(b: Book, index: nat, i: ResolveInput)
    requires Balanced(b) && Act(b, Settle(index, i)).Success?
    ensures Balanced(Act(b, Settle(index, i)).value)
  {
    var s := b.settlements[index];
    ResolveIsGood(s, i);
    var next := Resolve(s, i).value;
    hide Resolve, Apply, Sum, AllNormal, Payout;
    var payer, payee := FindWallet(b.wallets, PayerOf(s)).value, FindWallet(b.wallets, PayeeOf(s)).value;
    hide FindWallet;
    PayoutShifts(b.wallets, payer, payee, next.released, next.refunded, i.at);
    ReplacedGood(b.settlements, index, next);
    var ss := b.settlements[index := next];
    forall o ensures Sum(LockedFor(o), ss) == Sum(LockedFor(o), b.settlements) + if o == OwnerOf(b.wallets[payer])
      then -s.amount else 0 {
      ReplacedSum(b.settlements, index, next, o);
    }
    ShiftedBacked(b, Act(b, Settle(index, i)).value.wallets, ss, payer, -s.amount);
  }

  /** Every settlement step but a first resolution leaves a locked settlement locked and a resolved one resolved. */
  lemma {:induction false} AmendKeepsLock(s: Settlement, a: Action)
    requires Reachable(s) && Step(s, a).Success? && !a.ResolveAction?
    ensures Step(s, a).value.status.Locked? <==> s.status.Locked?
  {
    EveryStepIsGood(s, a);
    hide Reachable, Resolve, RefundReleased, Reconcile, Decide, OpenDispute, CloseDispute, PatchContext;
    match a
    case ReconcileAction(i) => ReconcileIsGood(s, i);
    case RefundReleasedAction(i) => RefundReleasedIsGood(s, i);
    case DecideAction(d, at) => DecideIsGood(s, d, at);
    case OpenAction(id, c, at) => OpenIsGood(s, id, c, at);
    case CloseAction(id, r, at) => CloseIsGood(s, id, r, at);
    case PatchAction(p, items, at) => PatchIsGood(s, p, items, at);
  }

  lemma {:induction false} AmendBacked(b: Book, index: nat, a: Action)
    requires Balanced(b) && !a.ResolveAction? && Act(b, Amend(index, a)).Success?
    ensures Balanced(Act(b, Amend(index, a)).value)
  {
    var s := b.settlements[index];
    EveryStepIsGood(s, a);
    AmendKeepsLock(s, a);
    var next := Step(s, a).value;
    hide Step, Sum, AllNormal, FindWallet;
    ReplacedGood(b.settlements, index, next);
    forall k | 0 <= k < |b.wallets|
      ensures b.wallets[k].escrow == Sum(LockedFor(OwnerOf(b.wallets[k])), b.settlements[index := next])
    {
      ReplacedSum(b.settlements, index, next, OwnerOf(b.wallets[k]));
    }
  }

  /** The runs of the program: a settlement is resolved for the first time only together with its payout. */
  predicate Paired(d: Deal) {
    d.Amend? ==> !d.action.ResolveAction?
  }

  lemma {:induction false} DealKeepsBalance(b: Book, d: Deal)
    requires Balanced(b) && Paired(d) && Act(b, d).Success?
    ensures Balanced(Act(b, d).value)
  {
    hide Balanced, Apply, Resolve, Step, Settlements.Create, FindWallet, Settled;
    match d
    case Fund(o, amount, at) => MoveBacked(b, CreditMove(FindWallet(b.wallets, o).value, amount, at));
    case Pay(o, to, amount, at) => MoveBacked(b,
      TransferMove(FindWallet(b.wallets, o).value, FindWallet(b.wallets, to).value, amount, at));
    case Hold(terms) => HoldBacked(b, terms);
    case Settle(index, i) => SettleBacked(b, index, i);
    case Amend(index, a) => AmendBacked(b, index, a);
  }

  /** A deal that fails changes nothing. */
  function Deals(b: Book, ds: seq<Deal>): Book {
    if ds == [] then b
    else
      var before := Deals(b, ds[..|ds| - 1]);
      var r := Act(before, ds[|ds| - 1]);
      if r.Success? then r.value else before
  }

  /** Over every run of paired deals, each wallet's escrow is exactly the sum of its locked settlements. */
  lemma {:induction false} RunKeepsBalance(b: Book, ds: seq<Deal>)
    requires Balanced(b) && forall i :: 0 <= i < |ds| ==> Paired(ds[i])
    ensures Balanced(Deals(b, ds))
  {
    if ds != [] {
      hide Balanced, Act, Paired;
      RunKeepsBalance(b, ds[..|ds| - 1]);
      var before := Deals(b, ds[..|ds| - 1]);
      if Act(before, ds[|ds| - 1]).Success? {
        DealKeepsBalance(before, ds[|ds| - 1]);
      }
    }
  }

  /** The start: newly created wallets of different owners and no settlements. */
  lemma {:induction false} FreshBookBalanced(ws: seq<Wallet>)
    requires DistinctOwners(ws) && forall w :: w in ws ==>
      w == Wallets.Create(w.tenant, w.agent, w.currency, w.createdAt)
    ensures Balanced(Book(ws, []))
  {
    forall k | 0 <= k < |ws| ensures ws[k].escrow == 0 {
      assert ws[k] in ws;
    }
  }

  // ----- resolution never lacks escrow -----

  lemma {:induction false} LockedIsCovered(b: Book, index: nat, k: nat)
    requires Balanced(b) && index < |b.settlements| && k < |b.wallets|
    requires b.settlements[index].status.Locked? && OwnerOf(b.wallets[k]) == PayerOf(b.settlements[index])
    ensures b.wallets[k].escrow >= b.settlements[index].amount
  {
    var f := LockedFor(OwnerOf(b.wallets[k]));
    forall s | s in b.settlements ensures f(s) >= 0 {
    }
    SumNonNegative(f, b.settlements);
    assert b.settlements[index] in b.settlements;
    hide Sum;
  }

  /** The amounts a payout would leave stay within safe integers. */
  predicate Fits(payer: Wallet, payee: Wallet, released: int, refunded: int) {
    && payer.debited + released <= MAX_SAFE && payer.available + refunded <= MAX_SAFE
      && payer.credited + refunded <= MAX_SAFE
    && payer.revision + (if released > 0 then 1 else 0) + (if refunded > 0 then 1 else 0) <= MAX_SAFE
    && (released > 0 ==>
         payee.available + released <= MAX_SAFE && payee.credited + released <= MAX_SAFE && payee.revision < MAX_SAFE)
  }

  /** With the escrow covered, a payout fails only by overflowing a safe integer. */
  lemma {:induction false} CoveredPayout(ws: seq<Wallet>, payer: nat, payee: nat, released: int, refunded: int,
      at: Time)
    requires AllNormal(ws) && payer < |ws| && payee < |ws| && payer != payee
    requires released >= 0 && refunded >= 0 && 0 < released + refunded <= ws[payer].escrow
    ensures Payout(ws, payer, payee, released, refunded, at).Success?
      <==> Fits(ws[payer], ws[payee], released, refunded)
    ensures Payout(ws, payer, payee, released, refunded, at).Failure? ==>
      Payout(ws, payer, payee, released, refunded, at).error == InvalidRecord
  {
    assert ws[payer] in ws && ws[payee] in ws;
    hide AllNormal;
  }

  /** In a balanced book the payout of a valid resolution never lacks escrow:
      it succeeds exactly when no amount leaves the safe integers. */
  lemma {:induction false} ResolutionNeverLacksEscrow(b: Book, index: nat, i: ResolveInput)
    requires Balanced(b) && index < |b.settlements| && Resolve(b.settlements[index], i).Success?
    requires FindWallet(b.wallets, PayerOf(b.settlements[index])).Some?
      && FindWallet(b.wallets, PayeeOf(b.settlements[index])).Some?
    ensures var payer, payee :=
      FindWallet(b.wallets, PayerOf(b.settlements[index])).value,
        FindWallet(b.wallets, PayeeOf(b.settlements[index])).value;
      var next := Resolve(b.settlements[index], i).value;
      && (Act(b, Settle(index, i)).Success? <==> Fits(b.wallets[payer], b.wallets[payee], next.released, next.refunded))
      && (Act(b, Settle(index, i)).Failure? ==> Act(b, Settle(index, i)).error == WalletFailed(InvalidRecord))
  {
    var s := b.settlements[index];
    ResolveIsGood(s, i);
    var next := Resolve(s, i).value;
    hide Resolve;
    var payer, payee := FindWallet(b.wallets, PayerOf(s)).value, FindWallet(b.wallets, PayeeOf(s)).value;
    LockedIsCovered(b, index, payer);
    assert s.payer != s.payee;
    hide FindWallet, Payout, Fits, Backed;
    CoveredPayout(b.wallets, payer, payee, next.released, next.refunded, i.at);
  }

  /** A successful resolution pays the released part to the payee and the refunded part back to the payer, takes both
      out of the payer's escrow, and touches no other wallet. */
  lemma {:induction false} SettlePays(b: Book, index: nat, i: ResolveInput, k: nat)
    requires Balanced(b) && Act(b, Settle(index, i)).Success? && k < |b.wallets|
    ensures var s := b.settlements[index]; var after := Act(b, Settle(index, i)).value;
      var next := Resolve(s, i).value;
        var payer, payee := FindWallet(b.wallets, PayerOf(s)).value, FindWallet(b.wallets, PayeeOf(s)).value;
      && Resolve(s, i).Success? && after.settlements == b.settlements[index := next]
      && payer != payee && |after.wallets| == |b.wallets|
      && after.wallets[k].available
        == b.wallets[k].available + (if k == payee then next.released else if k == payer then next.refunded else 0)
      && after.wallets[k].escrow == b.wallets[k].escrow - (if k == payer then s.amount else 0)
  {
    var s := b.settlements[index];
    ResolveIsGood(s, i);
    var next := Resolve(s, i).value;
    assert s.payer != s.payee && next.released + next.refunded == s.amount && next.released >= 0 && next.refunded >= 0;
    hide Resolve, Reachable, Backed, Apply;
    var payer, payee := FindWallet(b.wallets, PayerOf(s)).value, FindWallet(b.wallets, PayeeOf(s)).value;
    PayoutFlows(b.wallets, payer, payee, next.released, next.refunded, i.at, k);
    hide FindWallet, Payout;
  }

  lemma {:induction false} PayoutFlows(ws: seq<Wallet>, payer: nat, payee: nat, released: int, refunded: int, at: Time,
      k: nat)
    requires AllNormal(ws) && payer < |ws| && payee < |ws| && payer != payee && k < |ws| && released >= 0
      && refunded >= 0
    requires Payout(ws, payer, payee, released, refunded, at).Success?
    ensures var after := Payout(ws, payer, payee, released, refunded, at).value;
      && |after| == |ws|
      && after[k].available == ws[k].available + (if k == payee then released else if k == payer then refunded else 0)
      && after[k].escrow == ws[k].escrow - (if k == payer then released + refunded else 0)
  {
    hide Apply, AllNormal;
    var mid := ws;
    if released > 0 {
      var m := ReleaseMove(payer, payee, released, at);
      StepKeepsNormal(ws, m);
      MoveFlows(ws, m, k);
      mid := Apply(ws, m).value;
    }
    if refunded > 0 {
      MoveFlows(mid, RefundMove(payer, refunded, at), k);
    }
  }

  // ----- conservation over deals -----

  function FundedBy(b: Book, d: Deal): int {
    if d.Fund? && Act(b, d).Success? then d.amount else 0
  }

  function Funded(b: Book, ds: seq<Deal>): int {
    if ds == [] then 0 else Funded(b, ds[..|ds| - 1]) + FundedBy(Deals(b, ds[..|ds| - 1]), ds[|ds| - 1])
  }

  lemma {:induction false} PayoutTotal(ws: seq<Wallet>, payer: nat, payee: nat, released: int, refunded: int, at: Time)
    requires payer != payee && Payout(ws, payer, payee, released, refunded, at).Success?
    ensures Sum(Holdings(), Payout(ws, payer, payee, released, refunded, at).value) == Sum(Holdings(), ws)
  {
    hide Apply, Sum;
    var mid := ws;
    if released > 0 {
      TwoSidedKeepsTotalIff(ws, ReleaseMove(payer, payee, released, at));
      mid := Apply(ws, ReleaseMove(payer, payee, released, at)).value;
    }
    if refunded > 0 {
      OneSidedTotal(mid, RefundMove(payer, refunded, at));
    }
  }

  lemma {:induction false} DealTotal(b: Book, d: Deal)
    requires GoodSettlements(b.settlements) && Act(b, d).Success?
    ensures Sum(Holdings(), Act(b, d).value.wallets) == Sum(Holdings(), b.wallets) + FundedBy(b, d)
  {
    hide Apply, Sum, Resolve, Step, Settlements.Create, FindWallet, Payout, Reachable;
    match d
    case Fund(o, amount, at) => OneSidedTotal(b.wallets, CreditMove(FindWallet(b.wallets, o).value, amount, at));
    case Pay(o, to, amount, at) =>
      TwoSidedKeepsTotalIff(b.wallets,
        TransferMove(FindWallet(b.wallets, o).value, FindWallet(b.wallets, to).value, amount, at));
    case Hold(terms) =>
      OneSidedTotal(b.wallets, LockMove(FindWallet(b.wallets, Owner(terms.tenant, terms.payer)).value, terms.amount,
        terms.at));
    case Settle(index, i) =>
      var s := b.settlements[index];
      var next := Resolve(s, i).value;
      PayoutTotal(b.wallets, FindWallet(b.wallets, PayerOf(s)).value, FindWallet(b.wallets, PayeeOf(s)).value,
        next.released, next.refunded, i.at);
    case Amend(_, _) =>
  }

  /** Over every run of paired deals the wallets hold together what they held before plus what was funded. */
  lemma {:induction false} DealsConserveMoney(b: Book, ds: seq<Deal>)
    requires Balanced(b) && forall i :: 0 <= i < |ds| ==> Paired(ds[i])
    ensures Sum(Holdings(), Deals(b, ds).wallets) == Sum(Holdings(), b.wallets) + Funded(b, ds)
  {
    if ds != [] {
      hide Act, Paired, Sum, FundedBy;
      DealsConserveMoney(b, ds[..|ds| - 1]);
      RunKeepsBalance(b, ds[..|ds| - 1]);
      var before, d := Deals(b, ds[..|ds| - 1]), ds[|ds| - 1];
      if Act(before, d).Success? {
        DealTotal(before, d);
      } else {
        NothingFunded(before, d);
      }
    }
  }

  lemma {:induction false} NothingFunded(b: Book, d: Deal)
    requires Act(b, d).Failure?
    ensures FundedBy(b, d) == 0
  {
  }

  // ----- what each deal moves -----

  /** What a deal adds to what the wallet of `o` holds free and in escrow, but for the payout of a resolution. */
  function DealFlow(d: Deal, o: Owner): (int, int) {
    match d
    case Fund(owner, amount, _) => if o == owner then (amount, 0) else (0, 0)
    case Pay(owner, to, amount, _) => if o == owner then (-amount, 0) else if o == to then (amount, 0) else (0, 0)
    case Hold(c) => if o == Owner(c.tenant, c.payer) then (-c.amount, c.amount) else (0, 0)
    case Settle(_, _) => (0, 0)
    case Amend(_, _) => (0, 0)
  }

  /** Holding adds a locked settlement of its terms, amending changes one by a step, and the others change none. */
  ghost predicate SettlementsAfter(before: seq<Settlement>, after: seq<Settlement>, d: Deal) {
    match d
    case Hold(c) =>
      && |after| == |before| + 1 && after[..|before|] == before && after[|before|].status.Locked?
      && Terms(after[|before|]) == (c.run, c.tenant, c.payee, c.payer, c.amount, c.currency, c.at, c.at)
    case Amend(i, a) =>
      i < |before| && Step(before[i], a).Success? && after == before[i := Step(before[i], a).value]
    case _ => after == before
  }

  /** Funding pays in, paying moves between two different owners, holding locks the payer's amount, and amending moves
      nothing. */
  lemma {:induction false} DealMoves(b: Book, d: Deal, k: nat)
    requires Balanced(b) && Act(b, d).Success? && !d.Settle? && k < |b.wallets|
    ensures var after := Act(b, d).value; var flow := DealFlow(d, OwnerOf(b.wallets[k]));
      && |after.wallets| == |b.wallets| && OwnerOf(after.wallets[k]) == OwnerOf(b.wallets[k])
      && after.wallets[k].available == b.wallets[k].available + flow.0
      && after.wallets[k].escrow == b.wallets[k].escrow + flow.1
  {
    OneWalletEach(b.wallets, k);
    hide Step, FindWallet, Settlements.Create, Reachable, Sum, Backed;
    match d
    case Fund(o, amount, at) => MoveFlows(b.wallets, CreditMove(FindWallet(b.wallets, o).value, amount, at), k);
    case Pay(o, to, amount, at) =>
      var w, v := FindWallet(b.wallets, o).value, FindWallet(b.wallets, to).value;
      MoveFlows(b.wallets, TransferMove(w, v, amount, at), k);
    case Hold(c) =>
      MoveFlows(b.wallets, LockMove(FindWallet(b.wallets, Owner(c.tenant, c.payer)).value, c.amount, c.at), k);
    case Amend(_, _) =>
  }

  /** Of these, holding adds a locked settlement of its terms and amending takes one settlement a step further. */
  lemma {:induction false} DealSettles(b: Book, d: Deal)
    requires Act(b, d).Success? && !d.Settle?
    ensures SettlementsAfter(b.settlements, Act(b, d).value.settlements, d)
  {
    hide Step, FindWallet, Reachable, Apply;
    if d.Hold? {
      CreatedShape(d.terms);
      assert (b.settlements + [Settlements.Create(d.terms).value])[..|b.settlements|] == b.settlements;
    }
  }

  /** A wallet is the one found for its owner and for no other. */
  lemma {:induction false} OneWalletEach(ws: seq<Wallet>, k: nat)
    requires DistinctOwners(ws) && k < |ws|
    ensures forall o :: FindWallet(ws, o) == Some(k) <==> o == OwnerOf(ws[k])
  {
    forall o ensures FindWallet(ws, o) == Some(k) <==> o == OwnerOf(ws[k]) {
      if o == OwnerOf(ws[k]) {
        FoundThere(ws, k);
      }
    }
  }

  lemma {:induction false} FoundThere(ws: seq<Wallet>, k: nat)
    requires DistinctOwners(ws) && k < |ws|
    ensures FindWallet(ws, OwnerOf(ws[k])) == Some(k)
  {
    var n := |ws| - 1;
    if k < n {
      FoundThere(ws[..n], k);
    }
  }
}
