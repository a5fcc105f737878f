/** The journal: entries are applied at most once per id, and balances follow the entries applied. */
module Ledgers {
  import opened Wrappers
  import opened Sequences
  import opened Numbers
  import opened Emergency

  datatype Account = Account(code: int)

  datatype Posting = Posting(account: Account, cents: int)

  datatype Entry = Entry(id: Id, postings: seq<Posting>)

  /** One tenant's attempt to apply an entry. */
  datatype Attempt = Attempt(tenant: Tenant, entry: Entry)

  /** The ledgers of all tenants. */
  datatype Ledger = Ledger(entries: seq<Attempt>, entryIds: set<(Tenant, Id)>, balances: map<(Tenant, Account), int>)

  const NO_ENTRIES: Ledger := Ledger([], {}, map[])

  function Cents(): Posting -> int {
    (p: Posting) => p.cents
  }

  /** What `createJournalEntry` produces: at least two postings, none of them zero, that add up to zero. */
  predicate JournalEntry(e: Entry) {
    && |e.postings| >= 2 && Sum(Cents(), e.postings) == 0
    && forall i :: 0 <= i < |e.postings| ==> e.postings[i].cents != 0 && -MAX_SAFE <= e.postings[i].cents <= MAX_SAFE
  }

  function Balance(balances: map<(Tenant, Account), int>, t: Tenant, a: Account): int {
    if (t, a) in balances then balances[(t, a)] else 0
  }

  function AddPostings(balances: map<(Tenant, Account), int>, t: Tenant,
      postings: seq<Posting>): map<(Tenant, Account), int> {
    if postings == [] then balances
    else
      var front := AddPostings(balances, t, postings[..|postings| - 1]);
      var p := postings[|postings| - 1];
      front[(t, p.account) := Balance(front, t, p.account) + p.cents]
  }

  function Post(l: Ledger, x: Attempt): Ledger {
    if (x.tenant, x.entry.id) in l.entryIds then l
    else Ledger(l.entries + [x], l.entryIds + {(x.tenant, x.entry.id)},
      AddPostings(l.balances, x.tenant, x.entry.postings))
  }

  method ApplyJournalEntry(l: Ledger, x: Attempt) returns (r: Ledger)
    ensures r == Post(l, x)
  {
    if (x.tenant, x.entry.id) in l.entryIds {
      return l;
    }
    var balances := l.balances;
    for i := 0 to |x.entry.postings|
      invariant balances == AddPostings(l.balances, x.tenant, x.entry.postings[..i])
    {
      PrefixStep(x.entry.postings, i);
      var p := x.entry.postings[i];
      var current := Balance(balances, x.tenant, p.account);
      balances := balances[(x.tenant, p.account) := current + p.cents];
    }
    assert x.entry.postings[..|x.entry.postings|] == x.entry.postings;
    r := Ledger(l.entries + [x], l.entryIds + {(x.tenant, x.entry.id)}, balances);
  }

  function PostAll(l: Ledger, xs: seq<Attempt>): Ledger {
    if xs == [] then l else Post(PostAll(l, xs[..|xs| - 1]), xs[|xs| - 1])
  }

  lemma {:induction false} PostAllConcat(l: Ledger, xs: seq<Attempt>, ys: seq<Attempt>)
    ensures PostAll(l, xs + ys) == PostAll(PostAll(l, xs), ys)
  {
    if ys == [] {
      assert xs + ys == xs;
    } else {
      var n := |ys| - 1;
      assert (xs + ys)[..|xs| + n] == xs + ys[..n];
      PostAllConcat(l, xs, ys[..n]);
    }
  }

  // ----- which attempt wins, and what the balances are -----

  /** The first entry attempted under an id. */
  function Winner(xs: seq<Attempt>, t: Tenant, id: Id): Option<Entry> {
    if xs == [] then None
    else
      var x := xs[|xs| - 1];
      var earlier := Winner(xs[..|xs| - 1], t, id);
      if earlier.Some? then earlier else if x.tenant == t && x.entry.id == id then Some(x.entry) else None
  }

  function Net(t: Tenant, a: Account): Attempt -> int {
    (x: Attempt) =>
      if x.tenant == t then Sum((p: Posting) => if p.account == a then p.cents else 0, x.entry.postings) else 0
  }

  lemma {:induction false} AddPostingsBalance(balances: map<(Tenant, Account), int>, t: Tenant, postings: seq<Posting>,
      u: Tenant, a: Account)
    ensures Balance(AddPostings(balances, t, postings), u, a)
      == Balance(balances, u, a)
         + if u == t then Sum((p: Posting) => if p.account == a then p.cents else 0, postings) else 0
  {
    if postings != [] {
      AddPostingsBalance(balances, t, postings[..|postings| - 1], u, a);
    }
  }

  /** Every balance is the sum of the postings of the entries the ledger holds. */
  lemma {:induction false} BalanceIsSum(xs: seq<Attempt>, t: Tenant, a: Account)
    ensures var l := PostAll(NO_ENTRIES, xs); Balance(l.balances, t, a) == Sum(Net(t, a), l.entries)
  {
    if xs != [] {
      hide AddPostings, Balance;
      var n := |xs| - 1;
      BalanceIsSum(xs[..n], t, a);
      var before, x := PostAll(NO_ENTRIES, xs[..n]), xs[n];
      AddPostingsBalance(before.balances, x.tenant, x.entry.postings, t, a);
      SumConcat(Net(t, a), before.entries, [x]);
      SumOne(Net(t, a), x);
    }
  }

  /** After any attempts, the ledger holds exactly the winners. */
  lemma {:induction false} LedgerHoldsWinners(xs: seq<Attempt>, t: Tenant, id: Id)
    ensures var l := PostAll(NO_ENTRIES, xs);
      && ((t, id) in l.entryIds <==> Winner(xs, t, id).Some?)
      && (forall x ::
           x in l.entries && x.tenant == t && x.entry.id == id <==>
             x == Attempt(t, x.entry) && Winner(xs, t, id) == Some(x.entry))
  {
    if xs != [] {
      hide AddPostings;
      LedgerHoldsWinners(xs[..|xs| - 1], t, id);
    }
  }

  lemma {:induction false} EntriesDistinct(xs: seq<Attempt>)
    ensures Distinct(PostAll(NO_ENTRIES, xs).entries)
    ensures forall x :: x in PostAll(NO_ENTRIES, xs).entries ==>
      (x.tenant, x.entry.id) in PostAll(NO_ENTRIES, xs).entryIds
  {
    if xs != [] {
      EntriesDistinct(xs[..|xs| - 1]);
    }
  }

  lemma {:induction false} EntryIffWinner(xs: seq<Attempt>, x: Attempt)
    ensures x in PostAll(NO_ENTRIES, xs).entries <==> Winner(xs, x.tenant, x.entry.id) == Some(x.entry)
  {
    LedgerHoldsWinners(xs, x.tenant, x.entry.id);
  }

  ghost predicate SameWinners(xs: seq<Attempt>, ys: seq<Attempt>) {
    forall t, id :: Winner(xs, t, id) == Winner(ys, t, id)
  }

  /** Two orders of attempts leave the same entries exactly when every id has the same winner. */
  lemma {:induction false} SameEntriesIffSameWinners(xs: seq<Attempt>, ys: seq<Attempt>)
    ensures multiset(PostAll(NO_ENTRIES, xs).entries) == multiset(PostAll(NO_ENTRIES, ys).entries)
      <==> SameWinners(xs, ys)
  {
    var es, fs := PostAll(NO_ENTRIES, xs).entries, PostAll(NO_ENTRIES, ys).entries;
    EntriesDistinct(xs);
    EntriesDistinct(ys);
    if multiset(es) == multiset(fs) {
      forall t, id ensures Winner(xs, t, id) == Winner(ys, t, id) {
        WinnerFromEntries(xs, ys, t, id);
        WinnerFromEntries(ys, xs, t, id);
      }
    }
    if SameWinners(xs, ys) {
      forall x ensures x in es <==> x in fs {
        EntryIffWinner(xs, x);
        EntryIffWinner(ys, x);
      }
      SameMembersSameMultiset(es, fs);
    }
  }

  lemma {:induction false} WinnerFromEntries(xs: seq<Attempt>, ys: seq<Attempt>, t: Tenant, id: Id)
    requires multiset(PostAll(NO_ENTRIES, xs).entries) == multiset(PostAll(NO_ENTRIES, ys).entries)
    ensures Winner(xs, t, id).Some? ==> Winner(ys, t, id) == Winner(xs, t, id)
  {
    var won := Winner(xs, t, id);
    if won.Some? {
      WinnerHasId(xs, t, id);
      var x := Attempt(t, won.value);
      EntryIffWinner(xs, x);
      EntryIffWinner(ys, x);
      assert x in multiset(PostAll(NO_ENTRIES, xs).entries);
    }
  }

  lemma {:induction false} WinnerHasId(xs: seq<Attempt>, t: Tenant, id: Id)
    ensures Winner(xs, t, id).Some? ==> Winner(xs, t, id).value.id == id
  {
    if xs != [] {
      WinnerHasId(xs[..|xs| - 1], t, id);
    }
  }

  /** The same entries in any order give the same balances. */
  lemma {:induction false} SameEntriesSameBalances(xs: seq<Attempt>, ys: seq<Attempt>, t: Tenant, a: Account)
    requires multiset(PostAll(NO_ENTRIES, xs).entries) == multiset(PostAll(NO_ENTRIES, ys).entries)
    ensures Balance(PostAll(NO_ENTRIES, xs).balances, t, a) == Balance(PostAll(NO_ENTRIES, ys).balances, t, a)
  {
    BalanceIsSum(xs, t, a);
    BalanceIsSum(ys, t, a);
    SumPermutation(Net(t, a), PostAll(NO_ENTRIES, xs).entries, PostAll(NO_ENTRIES, ys).entries);
  }

  lemma {:induction false} WinnerConcat(xs: seq<Attempt>, ys: seq<Attempt>, t: Tenant, id: Id)
    ensures Winner(xs + ys, t, id) == Winner(xs, t, id).OrElse(Winner(ys, t, id))
  {
    if ys == [] {
      assert xs + ys == xs;
    } else {
      var n := |ys| - 1;
      assert (xs + ys)[..|xs| + n] == xs + ys[..n];
      WinnerConcat(xs, ys[..n], t, id);
    }
  }
}
