/** Receipt pages: sorted one way, resumed by a cursor that compares another way. */
module Receipts {
  import opened Wrappers
  import opened Sequences
  import opened Ordering
  import opened Numbers

  datatype ReceiptId = ReceiptId(code: int)

  datatype Name = Name(code: int)

  /** A stored receipt with a parseable settlement time; `body` stands for the fields no page looks at. */
  datatype Receipt = Receipt(id: ReceiptId, settledAt: int, payer: Option<Name>, provider: Option<Name>,
      agentKey: Option<Name>, sponsor: Option<Name>, sponsorWallet: Option<Name>, tool: Option<Name>,
        state: Option<Name>, body: int)

  datatype Query = Query(agent: Option<Name>, sponsor: Option<Name>, sponsorWallet: Option<Name>, tool: Option<Name>,
    state: Option<Name>, start: Option<int>, end: Option<int>)

  datatype Cursor = Cursor(settledAt: int, id: ReceiptId)

  datatype Page = Page(receipts: seq<Receipt>, nextCursor: Option<Cursor>)

  datatype PageError = InvalidLimit

  /** The collation of ids, and the order of their code units. */
  datatype Orders = Orders(collates: Leq<ReceiptId>, precedes: Leq<ReceiptId>)

  const PAGE_MAX: nat := 1000

  function Matches(q: Query): Receipt -> bool {
    (r: Receipt) =>
      && (q.agent.Some? ==> r.payer == q.agent || r.provider == q.agent || r.agentKey == q.agent)
      && (q.sponsor.Some? ==> r.sponsor == q.sponsor)
      && (q.sponsorWallet.Some? ==> r.sponsorWallet == q.sponsorWallet)
      && (q.tool.Some? ==> r.tool == q.tool)
      && (q.state.Some? ==> r.state == q.state)
      && (q.start.Some? ==> r.settledAt >= q.start.value)
      && (q.end.Some? ==> r.settledAt <= q.end.value)
  }

  /** The sort: latest settlement first, then collation of the ids. */
  function SortOrder(o: Orders): Leq<Receipt> {
    (a: Receipt, b: Receipt) => a.settledAt > b.settledAt || (a.settledAt == b.settledAt && o.collates(a.id, b.id))
  }

  function CursorOf(r: Receipt): Cursor {
    Cursor(r.settledAt, r.id)
  }

  /** The cursor test: an earlier settlement, or the same one and a later id by code units. */
  function IsAfter(o: Orders, c: Option<Cursor>): Receipt -> bool {
    (r: Receipt) =>
      c.Some? ==> r.settledAt < c.value.settledAt || (r.settledAt == c.value.settledAt && o.precedes(c.value.id, r.id))
  }

  /** All rows of a query, in page order. */
  function Listing(o: Orders, rows: seq<Receipt>, q: Query): seq<Receipt> {
    StableSort(SortOrder(o), Filter(Matches(q), rows))
  }

  /** The slice of the listing that one request returns. */
  function Slice(o: Orders, listing: seq<Receipt>, c: Option<Cursor>, offset: nat, limit: nat): Page {
    var rest := Filter(IsAfter(o, c), listing);
    var from := Min(offset, |rest|);
    var page := rest[from..Min(from + Min(PAGE_MAX, limit), |rest|)];
    Page(page, if |rest| > offset + |page| && page != [] then Some(CursorOf(page[|page| - 1])) else None)
  }

  function ListReceiptsPage(o: Orders, rows: seq<Receipt>, q: Query, c: Option<Cursor>, offset: nat,
      limit: int): Result<Page, PageError> {
    if limit <= 0 then Failure(InvalidLimit) else Success(Slice(o, Listing(o, rows, q), c, offset, limit))
  }

  // ----- following the cursor -----

  datatype Reading = Reading(receipts: seq<Receipt>, done: bool)

  /** Follows `nextCursor` from `c`, one request for each limit, until there is no next cursor. */
  function Follow(o: Orders, listing: seq<Receipt>, c: Option<Cursor>, limits: seq<nat>): Reading
    decreases |limits|
  {
    if limits == [] then Reading([], false)
    else
      var page := Slice(o, listing, c, 0, limits[0]);
      if page.nextCursor.None? then Reading(page.receipts, true)
      else
        var rest := Follow(o, listing, page.nextCursor, limits[1..]);
        Reading(page.receipts + rest.receipts, rest.done)
  }

  /** The same as a client sees it, request by request over a fixed store; a refused request ends it. */
  function FollowRequests(o: Orders, rows: seq<Receipt>, q: Query, c: Option<Cursor>, limits: seq<nat>): Reading
    decreases |limits|
  {
    if limits == [] then Reading([], false)
    else
      var page := ListReceiptsPage(o, rows, q, c, 0, limits[0]);
      if page.Failure? then Reading([], false)
      else if page.value.nextCursor.None? then Reading(page.value.receipts, true)
      else
        var rest := FollowRequests(o, rows, q, page.value.nextCursor, limits[1..]);
        Reading(page.value.receipts + rest.receipts, rest.done)
  }

  lemma {:induction false} RequestsFollow(o: Orders, rows: seq<Receipt>, q: Query, c: Option<Cursor>, limits: seq<nat>)
    requires AllPositive(limits)
    ensures FollowRequests(o, rows, q, c, limits) == Follow(o, Listing(o, rows, q), c, limits)
    decreases |limits|
  {
    if limits != [] {
      hide Slice, Listing;
      assert limits[0] > 0 && AllPositive(limits[1..]);
      RequestsFollow(o, rows, q, Slice(o, Listing(o, rows, q), c, 0, limits[0]).nextCursor, limits[1..]);
    }
  }

  /** `a` is strictly before `b` for the cursor test. */
  predicate Before(o: Orders, a: Receipt, b: Receipt) {
    IsAfter(o, Some(CursorOf(a)))(b)
  }

  ghost predicate StrictlyOrdered(o: Orders, rows: seq<Receipt>) {
    forall i, j :: 0 <= i < j < |rows| ==> Before(o, rows[i], rows[j])
  }

  /** Code-unit order never puts an id before itself and is transitive. */
  ghost predicate CodeUnitOrder(o: Orders) {
    && (forall a :: !o.precedes(a, a))
    && (forall a, b, c :: o.precedes(a, b) && o.precedes(b, c) ==> o.precedes(a, c))
  }

  lemma {:induction false} BeforeTransitive(o: Orders, a: Receipt, b: Receipt, c: Receipt)
    requires CodeUnitOrder(o) && Before(o, a, b) && Before(o, b, c)
    ensures Before(o, a, c)
  {
  }

  lemma {:induction false} NotBeforeItself(o: Orders, a: Receipt)
    requires CodeUnitOrder(o)
    ensures !Before(o, a, a)
  {
  }

  /** Where reading has got to after the first `k` rows. */
  function CursorAt(listing: seq<Receipt>, k: nat): Option<Cursor>
    requires k <= |listing|
  {
    if k == 0 then None else Some(CursorOf(listing[k - 1]))
  }

  /** In a strictly ordered listing the rows after row k are exactly the rest. */
  lemma {:induction false} AfterIsRest(o: Orders, listing: seq<Receipt>, k: nat)
    requires CodeUnitOrder(o) && StrictlyOrdered(o, listing) && k <= |listing|
    ensures Filter(IsAfter(o, CursorAt(listing, k)), listing) == listing[k..]
  {
    var p := IsAfter(o, CursorAt(listing, k));
    forall i | 0 <= i < |listing| ensures p(listing[i]) <==> i >= k {
      if k > 0 && i >= k {
        assert Before(o, listing[k - 1], listing[i]);
      } else if k > 0 {
        NotBeforeItself(o, listing[i]);
        if i < k - 1 && Before(o, listing[k - 1], listing[i]) {
          BeforeTransitive(o, listing[i], listing[k - 1], listing[i]);
        }
      }
    }
    hide CodeUnitOrder, StrictlyOrdered, IsAfter;
    assert listing == listing[..k] + listing[k..];
    FilterConcat(p, listing[..k], listing[k..]);
    FilterNone(p, listing[..k]);
    FilterAll(p, listing[k..]);
  }

  predicate AllPositive(limits: seq<nat>) {
    forall i :: 0 <= i < |limits| ==> limits[i] > 0
  }

  /** How many rows requests with these limits can return. */
  function Reach(limits: seq<nat>): nat {
    if limits == [] then 0 else Min(PAGE_MAX, limits[0]) + Reach(limits[1..])
  }

  /** Consecutive rows from row `k` on, as far as the limits reach; done when they reach the end. */
  function ConsecutiveRows(listing: seq<Receipt>, k: nat, limits: seq<nat>): Reading
    requires k <= |listing|
  {
    Reading(listing[k..Min(k + Reach(limits), |listing|)], limits != [] && |listing| <= k + Reach(limits))
  }

  lemma {:induction false} ConsecutiveStep(listing: seq<Receipt>, k: nat, limits: seq<nat>)
    requires k <= |listing| && limits != [] && limits[0] > 0
    ensures var n := Min(k + Min(PAGE_MAX, limits[0]), |listing|);
      if n == |listing| then ConsecutiveRows(listing, k, limits) == Reading(listing[k..n], true)
      else
        var rest := ConsecutiveRows(listing, n, limits[1..]);
        ConsecutiveRows(listing, k, limits) == Reading(listing[k..n] + rest.receipts, rest.done)
  {
    var n := Min(k + Min(PAGE_MAX, limits[0]), |listing|);
    var m := Min(k + Reach(limits), |listing|);
    assert n < |listing| ==> Min(n + Reach(limits[1..]), |listing|) == m;
    assert listing[k..n] + listing[n..m] == listing[k..m];
    if limits[1..] == [] {
      assert Reach(limits[1..]) == 0;
    }
  }

  /** In a strictly ordered listing, whatever the limits, the pages read from row k on are consecutive rows with no gap
      and no repeat, and reading ends exactly when every row has been read. */
  lemma {:induction false} FollowReadsRest(o: Orders, listing: seq<Receipt>, k: nat, limits: seq<nat>)
    requires CodeUnitOrder(o) && StrictlyOrdered(o, listing) && k <= |listing| && AllPositive(limits)
    ensures Follow(o, listing, CursorAt(listing, k), limits) == ConsecutiveRows(listing, k, limits)
    decreases |limits|
  {
    FollowUnfolds(o, listing, CursorAt(listing, k), limits);
    if limits != [] {
      assert limits[0] > 0 && AllPositive(limits[1..]);
      SliceReadsRows(o, listing, k, limits[0]);
      ConsecutiveStep(listing, k, limits);
      var n := Min(k + Min(PAGE_MAX, limits[0]), |listing|);
      hide *;
      if n < |listing| {
        FollowReadsRest(o, listing, n, limits[1..]);
      }
    }
  }

  lemma {:induction false} FollowUnfolds(o: Orders, listing: seq<Receipt>, c: Option<Cursor>, limits: seq<nat>)
    ensures limits == [] ==> Follow(o, listing, c, limits) == Reading([], false)
    ensures limits != [] ==>
      var page := Slice(o, listing, c, 0, limits[0]);
      var rest := Follow(o, listing, page.nextCursor, limits[1..]);
      Follow(o, listing, c, limits)
        == if page.nextCursor.None? then Reading(page.receipts, true)
          else Reading(page.receipts + rest.receipts, rest.done)
  {
    hide Slice;
  }

  lemma {:induction false} SliceReadsRows(o: Orders, listing: seq<Receipt>, k: nat, limit: nat)
    requires CodeUnitOrder(o) && StrictlyOrdered(o, listing) && k <= |listing| && limit > 0
    ensures var n := Min(k + Min(PAGE_MAX, limit), |listing|);
      Slice(o, listing, CursorAt(listing, k), 0, limit)
        == Page(listing[k..n], if n < |listing| then CursorAt(listing, n) else None)
  {
    AfterIsRest(o, listing, k);
    hide CodeUnitOrder, StrictlyOrdered, IsAfter, Filter;
    var n := Min(k + Min(PAGE_MAX, limit), |listing|);
    assert listing[k..][0..n - k] == listing[k..n];
  }

  // ----- the converse -----

  lemma {:induction false} SliceContents(o: Orders, listing: seq<Receipt>, c: Option<Cursor>, limit: nat)
    ensures var page := Slice(o, listing, c, 0, limit);
      && (forall r :: r in page.receipts ==> r in listing && IsAfter(o, c)(r))
      && (page.nextCursor.Some? ==>
        page.receipts != [] && page.nextCursor.value == CursorOf(page.receipts[|page.receipts| - 1]))
  {
    FilterContents(IsAfter(o, c), listing);
    var rest := Filter(IsAfter(o, c), listing);
    var page := Slice(o, listing, c, 0, limit);
    hide Filter, IsAfter;
    forall r | r in page.receipts ensures r in rest {
      var i :| 0 <= i < |page.receipts| && page.receipts[i] == r;
      assert rest[i] == r;
    }
  }

  /** Everything read from a cursor on comes after that cursor. */
  lemma {:induction false} FollowStaysAfter(o: Orders, listing: seq<Receipt>, c: Option<Cursor>, limits: seq<nat>)
    requires CodeUnitOrder(o)
    ensures forall r :: r in Follow(o, listing, c, limits).receipts ==> IsAfter(o, c)(r)
    decreases |limits|
  {
    if limits != [] {
      SliceContents(o, listing, c, limits[0]);
      var page := Slice(o, listing, c, 0, limits[0]);
      hide Slice;
      if page.nextCursor.Some? {
        FollowStaysAfter(o, listing, page.nextCursor, limits[1..]);
        var last := page.receipts[|page.receipts| - 1];
        var rest := Follow(o, listing, page.nextCursor, limits[1..]).receipts;
        forall r | r in rest ensures IsAfter(o, c)(r) {
          AfterTransitive(o, c, last, r);
        }
        hide IsAfter, Follow;
        assert forall r :: r in page.receipts + rest ==> r in page.receipts || r in rest;
      }
    }
  }

  lemma {:induction false} AfterTransitive(o: Orders, c: Option<Cursor>, a: Receipt, b: Receipt)
    requires CodeUnitOrder(o) && IsAfter(o, c)(a) && IsAfter(o, Some(CursorOf(a)))(b)
    ensures IsAfter(o, c)(b)
  {
    if c.Some? && o.precedes(c.value.id, a.id) && o.precedes(a.id, b.id) {
      assert o.precedes(c.value.id, b.id);
    }
  }

  function Ones(n: nat): (r: seq<nat>)
    ensures |r| == n && forall i :: 0 <= i < n ==> r[i] == 1
  {
    seq(n, (i: nat) => 1)
  }

  lemma {:induction false} OneRowPage(o: Orders, listing: seq<Receipt>, c: Option<Cursor>)
    ensures |Slice(o, listing, c, 0, 1).receipts| <= 1
    ensures Slice(o, listing, c, 0, 1).nextCursor.Some? <==> |Filter(IsAfter(o, c), listing)| > 1
  {
    hide Filter, IsAfter;
  }

  /** What is read one row at a time is strictly ordered for the cursor test. */
  lemma {:induction false} OneByOneIsOrdered(o: Orders, listing: seq<Receipt>, c: Option<Cursor>, n: nat)
    requires CodeUnitOrder(o)
    ensures StrictlyOrdered(o, Follow(o, listing, c, Ones(n)).receipts)
    decreases n
  {
    if n > 0 {
      assert Ones(n)[1..] == Ones(n - 1);
      OneRowPage(o, listing, c);
      SliceContents(o, listing, c, 1);
      var page := Slice(o, listing, c, 0, 1);
      hide Slice, CodeUnitOrder, Before;
      if page.nextCursor.Some? {
        OneByOneIsOrdered(o, listing, page.nextCursor, n - 1);
        FollowStaysAfter(o, listing, page.nextCursor, Ones(n - 1));
        var rest := Follow(o, listing, page.nextCursor, Ones(n - 1)).receipts;
        hide Follow;
        forall j | 0 <= j < |rest| ensures Before(o, page.receipts[0], rest[j]) {
          assert rest[j] in rest;
          AfterIsBefore(o, page.receipts[0], rest[j]);
        }
      }
    }
  }

  lemma {:induction false} AfterIsBefore(o: Orders, a: Receipt, b: Receipt)
    requires IsAfter(o, Some(CursorOf(a)))(b)
    ensures Before(o, a, b)
  {
  }

  lemma {:induction false} FilterShrinks<T(!new)>(p: T -> bool, q: T -> bool, xs: seq<T>)
    requires forall x :: x in xs && q(x) ==> p(x)
    ensures |Filter(q, xs)| <= |Filter(p, xs)|
    ensures (exists x :: x in xs && p(x) && !q(x)) ==> |Filter(q, xs)| < |Filter(p, xs)|
  {
    if xs != [] {
      var n := |xs| - 1;
      assert xs == xs[..n] + [xs[n]];
      FilterShrinks(p, q, xs[..n]);
    }
  }

  /** Reading one row at a time ends. */
  lemma {:induction false} OneByOneEnds(o: Orders, listing: seq<Receipt>, c: Option<Cursor>, n: nat)
    requires CodeUnitOrder(o) && n > |Filter(IsAfter(o, c), listing)|
    ensures Follow(o, listing, c, Ones(n)).done
    decreases n
  {
    assert Ones(n)[1..] == Ones(n - 1);
    OneRowPage(o, listing, c);
    SliceContents(o, listing, c, 1);
    var page := Slice(o, listing, c, 0, 1);
    hide Slice;
    if page.nextCursor.Some? {
      var last := page.receipts[0];
      var p, q := IsAfter(o, c), IsAfter(o, page.nextCursor);
      forall r | r in listing && q(r) ensures p(r) {
        AfterTransitive(o, c, last, r);
      }
      NotBeforeItself(o, last);
      assert last in listing && p(last) && !q(last);
      FilterShrinks(p, q, listing);
      OneByOneEnds(o, listing, page.nextCursor, n - 1);
    }
  }

  /** Every reading that ends has returned the whole listing, each row once and in order. */
  ghost predicate EveryReadingComplete(o: Orders, rows: seq<Receipt>, q: Query) {
    forall limits: seq<nat> :: AllPositive(limits) && FollowRequests(o, rows, q, None, limits).done ==>
      FollowRequests(o, rows, q, None, limits).receipts == Listing(o, rows, q)
  }

  /** Following the cursor returns the sorted rows exactly once for all limits, exactly when the sorted rows are
      strictly ordered for the cursor test. */
  lemma {:induction false} PagingCompleteIff(o: Orders, rows: seq<Receipt>, q: Query)
    requires CodeUnitOrder(o)
    ensures EveryReadingComplete(o, rows, q) <==> StrictlyOrdered(o, Listing(o, rows, q))
  {
    var listing := Listing(o, rows, q);
    hide Listing, FollowRequests;
    if StrictlyOrdered(o, listing) {
      forall limits: seq<nat> | AllPositive(limits) && FollowRequests(o, rows, q, None, limits).done
        ensures FollowRequests(o, rows, q, None, limits).receipts == listing
      {
        RequestsFollow(o, rows, q, None, limits);
        FollowReadsRest(o, listing, 0, limits);
        assert listing[0..|listing|] == listing;
      }
    }
    if EveryReadingComplete(o, rows, q) {
      hide Follow, CodeUnitOrder, StrictlyOrdered;
      var n := |Filter(IsAfter(o, None), listing)| + 1;
      OneByOneEnds(o, listing, None, n);
      OneByOneIsOrdered(o, listing, None, n);
      assert AllPositive(Ones(n));
      RequestsFollow(o, rows, q, None, Ones(n));
    }
  }

  // ----- when the two orders agree -----

  ghost predicate DistinctIds(rows: seq<Receipt>) {
    forall i, j :: 0 <= i < j < |rows| ==> rows[i].id != rows[j].id
  }

  /** On rows settled at the same time, the earlier id by collation is the earlier one by code units. */
  ghost predicate OrdersAgree(o: Orders, rows: seq<Receipt>) {
    forall a, b :: a in rows && b in rows && a.settledAt == b.settledAt && a.id != b.id && o.collates(a.id, b.id) ==>
      o.precedes(a.id, b.id)
  }

  /** Collation is a total preorder that tells the ids of the rows apart. */
  ghost predicate Collation(o: Orders, rows: seq<Receipt>) {
    && TotalPreorder(o.collates)
    && forall a, b :: a in rows && b in rows && o.collates(a.id, b.id) && o.collates(b.id, a.id) ==> a.id == b.id
  }

  lemma {:induction false} SortOrderTotal(o: Orders)
    requires TotalPreorder(o.collates)
    ensures TotalPreorder(SortOrder(o))
  {
    var leq := SortOrder(o);
    forall a, b ensures leq(a, b) || leq(b, a) {
      assert o.collates(a.id, b.id) || o.collates(b.id, a.id);
    }
    forall a, b, c | leq(a, b) && leq(b, c) ensures leq(a, c) {
      assert o.collates(a.id, b.id) && o.collates(b.id, c.id) ==> o.collates(a.id, c.id);
    }
  }

  lemma {:induction false} FilterKeepsIds(p: Receipt -> bool, rows: seq<Receipt>)
    requires DistinctIds(rows)
    ensures DistinctIds(Filter(p, rows))
  {
    if rows != [] {
      var n := |rows| - 1;
      FilterKeepsIds(p, rows[..n]);
      FilterContents(p, rows[..n]);
      var front := Filter(p, rows[..n]);
      forall i | 0 <= i < |front| ensures front[i].id != rows[n].id {
        assert front[i] in front;
      }
    }
  }

  lemma {:induction false} IdOnce(rows: seq<Receipt>, id: ReceiptId)
    ensures Count((r: Receipt) => r.id == id, rows) >= 0
    ensures DistinctIds(rows) ==> Count((r: Receipt) => r.id == id, rows) <= 1
    ensures (forall r :: r in rows ==> r.id != id) ==> Count((r: Receipt) => r.id == id, rows) == 0
  {
    if rows != [] {
      var n := |rows| - 1;
      assert rows == rows[..n] + [rows[n]];
      IdOnce(rows[..n], id);
    }
  }

  lemma {:induction false} TwoOfOneId(rows: seq<Receipt>, i: nat, j: nat)
    requires i < j < |rows| && rows[i].id == rows[j].id
    ensures Count((r: Receipt) => r.id == rows[i].id, rows) >= 2
  {
    var p := (r: Receipt) => r.id == rows[i].id;
    assert rows == rows[..j] + rows[j..] && rows[..j] == rows[..i] + rows[i..j];
    CountConcat(p, rows[..j], rows[j..]);
    CountConcat(p, rows[..i], rows[i..j]);
    FirstCounts(p, rows[i..j]);
    FirstCounts(p, rows[j..]);
  }

  lemma {:induction false} FirstCounts(p: Receipt -> bool, rows: seq<Receipt>)
    requires rows != [] && p(rows[0])
    ensures Count(p, rows) >= 1
  {
    if |rows| > 1 {
      FirstCounts(p, rows[..|rows| - 1]);
    }
  }

  lemma {:induction false} SortKeepsIds(o: Orders, rows: seq<Receipt>)
    requires DistinctIds(rows)
    ensures DistinctIds(StableSort(SortOrder(o), rows))
  {
    var sorted := StableSort(SortOrder(o), rows);
    hide StableSort;
    forall i, j | 0 <= i < j < |sorted| ensures sorted[i].id != sorted[j].id {
      if sorted[i].id == sorted[j].id {
        TwoOfOneId(sorted, i, j);
        IdOnce(rows, sorted[i].id);
        CountPermutation((r: Receipt) => r.id == sorted[i].id, rows, sorted);
      }
    }
  }

  lemma {:induction false} AgreementOrders(o: Orders, listing: seq<Receipt>)
    requires Sorted(SortOrder(o), listing) && DistinctIds(listing) && OrdersAgree(o, listing)
    ensures StrictlyOrdered(o, listing)
  {
    forall i, j | 0 <= i < j < |listing| ensures Before(o, listing[i], listing[j]) {
      assert SortOrder(o)(listing[i], listing[j]);
      assert listing[i] in listing && listing[j] in listing;
    }
  }

  lemma {:induction false} OrderedPair(o: Orders, listing: seq<Receipt>, i: nat, j: nat)
    requires Sorted(SortOrder(o), listing) && StrictlyOrdered(o, listing) && i < |listing| && j < |listing|
    ensures i < j ==> SortOrder(o)(listing[i], listing[j]) && Before(o, listing[i], listing[j])
  {
  }

  lemma {:induction false} OrderedAgrees(o: Orders, listing: seq<Receipt>, i: nat, j: nat)
    requires Collation(o, listing) && Sorted(SortOrder(o), listing) && StrictlyOrdered(o, listing) && i < |listing|
      && j < |listing|
    requires listing[i].settledAt == listing[j].settledAt && listing[i].id != listing[j].id
      && o.collates(listing[i].id, listing[j].id)
    ensures o.precedes(listing[i].id, listing[j].id)
  {
    OrderedPair(o, listing, i, j);
    OrderedPair(o, listing, j, i);
  }

  /** With ids that collation tells apart, the listing is strictly ordered exactly when the two orders agree on every
      two rows of the query that were settled at the same time. */
  lemma {:induction false} StrictlyOrderedIffOrdersAgree(o: Orders, rows: seq<Receipt>, q: Query)
    requires Collation(o, Filter(Matches(q), rows)) && DistinctIds(rows)
    ensures StrictlyOrdered(o, Listing(o, rows, q)) <==> OrdersAgree(o, Filter(Matches(q), rows))
  {
    var matching := Filter(Matches(q), rows);
    var listing := Listing(o, rows, q);
    FilterKeepsIds(Matches(q), rows);
    SortKeepsIds(o, matching);
    SortOrderTotal(o);
    StableSortSorted(SortOrder(o), matching);
    StableSortContents(SortOrder(o), matching);
    assert Collation(o, listing) by {
      hide Filter, StableSort, Matches, SortOrder, Sorted, StrictlyOrdered, DistinctIds, TotalPreorder;
    }
    hide Filter, StableSort, Matches, SortOrder, Sorted, StrictlyOrdered, DistinctIds, Collation, TotalPreorder;
    if OrdersAgree(o, matching) {
      AgreementOrders(o, listing);
    }
    if StrictlyOrdered(o, listing) {
      forall a, b | a in matching && b in matching && a.settledAt == b.settledAt && a.id != b.id
        && o.collates(a.id, b.id)
        ensures o.precedes(a.id, b.id)
      {
        assert a in listing && b in listing;
        var i :| 0 <= i < |listing| && listing[i] == a;
        var j :| 0 <= j < |listing| && listing[j] == b;
        OrderedAgrees(o, listing, i, j);
      }
    }
  }

  /** With offset 0 and agreeing orders, following the cursor through a fixed store reads the sorted matching receipts
      exactly once each, in order, whatever the limits. */
  lemma {:induction false} PagingIsExactWhenOrdersAgree(o: Orders, rows: seq<Receipt>, q: Query, limits: seq<nat>)
    requires CodeUnitOrder(o) && Collation(o, Filter(Matches(q), rows)) && DistinctIds(rows)
    requires OrdersAgree(o, Filter(Matches(q), rows))
    requires AllPositive(limits) && limits != []
    ensures var listing := Listing(o, rows, q); var r := FollowRequests(o, rows, q, None, limits);
      && Sorted(SortOrder(o), listing) && multiset(listing) == multiset(Filter(Matches(q), rows))
      && r.receipts == listing[..Min(Reach(limits), |listing|)]
      && (r.done <==> |listing| <= Reach(limits))
  {
    StrictlyOrderedIffOrdersAgree(o, rows, q);
    SortOrderTotal(o);
    StableSortSorted(SortOrder(o), Filter(Matches(q), rows));
    FollowReadsRest(o, Listing(o, rows, q), 0, limits);
    RequestsFollow(o, rows, q, None, limits);
    hide CodeUnitOrder, Collation, StrictlyOrdered, Filter, StableSort, Follow;
  }

  /** Collation by increasing code, code units by decreasing code: "a" against "B". */
  const OPPOSITE: Orders :=
    Orders((x: ReceiptId, y: ReceiptId) => x.code <= y.code, (x: ReceiptId, y: ReceiptId) => x.code > y.code)

  function Bare(id: int): Receipt {
    Receipt(ReceiptId(id), 0, None, None, None, None, None, None, None, 0)
  }

  lemma {:induction false} OppositeOrders()
    ensures CodeUnitOrder(OPPOSITE) && Collation(OPPOSITE, [Bare(0), Bare(1)])
  {
  }

  /** The orders do disagree: collation puts "a" before "B", code units put "B" first. Paged one at a time, "B" is never
      returned, although reading ends. */
  lemma {:induction false} DisagreementLosesReceipt()
    ensures var a, b := Bare(0), Bare(1);
      && CodeUnitOrder(OPPOSITE) && Collation(OPPOSITE, [a, b]) && DistinctIds([a, b])
      && Listing(OPPOSITE, [a, b], ANY_RECEIPT) == [a, b]
      && FollowRequests(OPPOSITE, [a, b], ANY_RECEIPT, None, [1, 1]) == Reading([a], true)
  {
    var a, b := Bare(0), Bare(1);
    OppositeOrders();
    OppositeRows();
    hide *;
    TwoRowsReadOne(OPPOSITE, a, b);
    TwoRowsListed(OPPOSITE, a, b);
    TwoRequests(OPPOSITE, [a, b], ANY_RECEIPT);
  }

  const ANY_RECEIPT: Query := Query(None, None, None, None, None, None, None)

  lemma {:induction false} OppositeRows()
    ensures var a, b := Bare(0), Bare(1);
      && !Before(OPPOSITE, a, a) && !Before(OPPOSITE, a, b) && SortOrder(OPPOSITE)(a, b) && DistinctIds([a, b])
  {
  }

  lemma {:induction false} TwoRequests(o: Orders, rows: seq<Receipt>, q: Query)
    ensures FollowRequests(o, rows, q, None, [1, 1]) == Follow(o, Listing(o, rows, q), None, [1, 1])
  {
    RequestsFollow(o, rows, q, None, [1, 1]);
  }

  lemma {:induction false} TwoRowsListed(o: Orders, a: Receipt, b: Receipt)
    requires SortOrder(o)(a, b)
    ensures Listing(o, [a, b], ANY_RECEIPT) == [a, b]
  {
    FilterAll(Matches(ANY_RECEIPT), [a, b]);
    hide Filter, StableSort, SortOrder, Matches;
    StableSortFixed(SortOrder(o), [a, b]);
  }

  lemma {:induction false} TwoRowsReadOne(o: Orders, a: Receipt, b: Receipt)
    requires !Before(o, a, a) && !Before(o, a, b)
    ensures Follow(o, [a, b], None, [1, 1]) == Reading([a], true)
  {
    FilterAll(IsAfter(o, None), [a, b]);
    FilterNone(IsAfter(o, Some(CursorOf(a))), [a, b]);
    hide Filter, IsAfter;
    assert Slice(o, [a, b], None, 0, 1) == Page([a], Some(CursorOf(a)));
    assert Slice(o, [a, b], Some(CursorOf(a)), 0, 1) == Page([], None);
    assert [1, 1][1..] == [1];
    assert Follow(o, [a, b], Some(CursorOf(a)), [1]) == Reading([], true);
  }

  // ----- which receipts are listed, in what order, and on which page -----

  /** A receipt is listed exactly when it is stored and meets every condition the query states: the agent is its payer,
      its provider or its agent key; sponsor, wallet, tool and state are its own; and it was settled no earlier than the
      start and no later than the end. */
  lemma {:induction false} ListedIff(o: Orders, rows: seq<Receipt>, q: Query, r: Receipt)
    ensures r in Listing(o, rows, q) <==>
      && r in rows
      && (q.agent == None || q.agent in {r.payer, r.provider, r.agentKey})
      && q.sponsor in {None, r.sponsor} && q.sponsorWallet in {None, r.sponsorWallet}
      && q.tool in {None, r.tool} && q.state in {None, r.state}
      && !(q.start.Some? && r.settledAt < q.start.value) && !(q.end.Some? && q.end.value < r.settledAt)
  {
    FilterContents(Matches(q), rows);
    StableSortContents(SortOrder(o), Filter(Matches(q), rows));
    hide Filter, StableSort;
  }

  /** The latest settlement comes first, and of one time the earlier id in collation. */
  lemma {:induction false} ListingNewestFirst(o: Orders, rows: seq<Receipt>, q: Query, i: nat, j: nat)
    requires TotalPreorder(o.collates) && i < j < |Listing(o, rows, q)|
    ensures var listing := Listing(o, rows, q);
      && listing[i].settledAt >= listing[j].settledAt
      && (listing[i].settledAt == listing[j].settledAt ==> o.collates(listing[i].id, listing[j].id))
  {
    SortOrderTotal(o);
    StableSortSorted(SortOrder(o), Filter(Matches(q), rows));
    hide Filter, StableSort, TotalPreorder, Matches;
    assert SortOrder(o)(Listing(o, rows, q)[i], Listing(o, rows, q)[j]);
  }

  /** Rows that the order cannot tell apart are listed as they are stored. */
  lemma {:induction false} ListingIsStable(o: Orders, rows: seq<Receipt>, q: Query, r: Receipt)
    requires TotalPreorder(o.collates)
    ensures Filter(SettledLike(o, r), Listing(o, rows, q)) == Filter(SettledLike(o, r), Filter(Matches(q), rows))
  {
    var matching := Filter(Matches(q), rows);
    SortOrderTotal(o);
    StableSortStable(SortOrder(o), matching, r);
    FilterSame(SettledLike(o, r), Alike(SortOrder(o), r), matching);
    FilterSame(SettledLike(o, r), Alike(SortOrder(o), r), Listing(o, rows, q));
    hide Filter, StableSort, TotalPreorder, Matches;
  }

  /** Settled at the same time as `r`, with an id that collation does not tell apart from its. */
  function SettledLike(o: Orders, r: Receipt): Receipt -> bool {
    (x: Receipt) => x.settledAt == r.settledAt && o.collates(x.id, r.id) && o.collates(r.id, x.id)
  }

  /** A request is refused exactly for a limit that is not positive;
      no page has more rows than its limit or than 1000. */
  lemma {:induction false} PageSize(o: Orders, rows: seq<Receipt>, q: Query, c: Option<Cursor>, offset: nat, limit: int)
    ensures var r := ListReceiptsPage(o, rows, q, c, offset, limit);
      && (r.Failure? <==> limit <= 0)
      && (r.Success? ==> |r.value.receipts| <= 1000 && |r.value.receipts| <= limit)
  {
    hide Filter, Listing, IsAfter;
  }

  lemma {:induction false} RestSlice(listing: seq<Receipt>, k: nat, offset: nat, n: nat)
    requires k <= |listing|
    ensures var from := Min(offset, |listing| - k); var to := Min(from + n, |listing| - k);
      && listing[k..][from..to] == listing[k + from..k + to]
      && k + from == Min(k + offset, |listing|) && k + to == Min(k + from + n, |listing|)
      && (from < to ==> listing[k..][from..to][to - from - 1] == listing[k + to - 1])
  {
  }

  /** In a strictly ordered listing a page with an offset skips that many of the rows after the cursor; its next
      cursor is that of its last row, where rows are left after it. */
  lemma {:induction false} OffsetSkipsRows(o: Orders, listing: seq<Receipt>, k: nat, offset: nat, limit: nat)
    requires CodeUnitOrder(o) && StrictlyOrdered(o, listing) && k <= |listing| && limit > 0
    ensures var from := Min(k + offset, |listing|); var to := Min(from + Min(1000, limit), |listing|);
      Slice(o, listing, CursorAt(listing, k), offset, limit)
        == Page(listing[from..to],
             if from < to < |listing| then Some(Cursor(listing[to - 1].settledAt, listing[to - 1].id)) else None)
  {
    AfterIsRest(o, listing, k);
    hide CodeUnitOrder, StrictlyOrdered, IsAfter, Filter;
    RestSlice(listing, k, offset, Min(1000, limit));
  }
}
