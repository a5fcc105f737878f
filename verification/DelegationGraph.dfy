/** The graph of live delegations: its two indexes, the upward settlement walk and the downward unwind search. */
module DelegationGraph {
  import opened Wrappers
  import opened Sequences
  import opened Ordering
  import opened Delegations

  datatype Link = Link(delegationId: Option<DelegationId>, parent: AgreementHash, child: AgreementHash)

  datatype GraphError = MultipleParents(child: AgreementHash) | Cycle(agreement: AgreementHash)

  datatype Index = Index(byChild: map<AgreementHash, Link>, childrenByParent: map<AgreementHash, seq<Link>>)

  datatype CascadePlan = CascadePlan(parents: seq<AgreementHash>, edges: seq<Link>)

  datatype UnwindPlan = UnwindPlan(children: seq<AgreementHash>, edges: seq<Link>)

  // ----- the live links and the lookups the indexes stand for -----

  /** Only an unpadded revoked status takes a row out of the graph. */
  predicate IsLive(row: Row) {
    (row.status != Revoked || row.padded) && row.core.parent.Some? && row.core.child.Some?
  }

  function LinkOf(row: Row): Link
    requires IsLive(row)
  {
    Link(row.core.delegationId, row.core.parent.value, row.core.child.value)
  }

  function LinkIfLive(row: Row): seq<Link> {
    if IsLive(row) then [LinkOf(row)] else []
  }

  function Links(rows: seq<Row>): seq<Link> {
    if rows == [] then []
    else Links(rows[..|rows| - 1]) + LinkIfLive(rows[|rows| - 1])
  }

  lemma {:induction false} LinksStep(rows: seq<Row>, row: Row)
    ensures Links(rows + [row]) == Links(rows) + LinkIfLive(row)
  {
    assert (rows + [row])[..|rows|] == rows;
  }

  lemma {:induction false} LinksNone()
    ensures Links([]) == []
  {
  }

  lemma {:induction false} LinksConcat(xs: seq<Row>, ys: seq<Row>)
    ensures Links(xs + ys) == Links(xs) + Links(ys)
  {
    hide *;
    if ys == [] {
      assert xs + ys == xs;
      LinksNone();
    } else {
      var front, last := ys[..|ys| - 1], ys[|ys| - 1];
      LinksConcat(xs, front);
      LinksStep(xs + front, last);
      LinksStep(front, last);
      assert xs + ys == (xs + front) + [last] && ys == front + [last];
    }
  }

  lemma {:induction false} LinksContents(rows: seq<Row>)
    ensures forall r :: r in rows && IsLive(r) ==> LinkOf(r) in Links(rows)
    ensures forall l :: l in Links(rows) ==> exists r :: r in rows && IsLive(r) && LinkOf(r) == l
  {
    if rows != [] {
      var n := |rows| - 1;
      assert rows == rows[..n] + [rows[n]];
      LinksContents(rows[..n]);
    }
  }

  /** The entry `byChild` ends up with: the last live link that names the child. */
  function LastNaming(links: seq<Link>, child: AgreementHash): Option<Link> {
    if links == [] then None
    else
      var n := |links| - 1;
      if links[n].child == child then Some(links[n]) else LastNaming(links[..n], child)
  }

  lemma {:induction false} LastNamingMeaning(links: seq<Link>, child: AgreementHash)
    ensures var r := LastNaming(links, child);
      && (r.Some? ==> r.value in links && r.value.child == child)
      && (r.None? <==> forall l :: l in links ==> l.child != child)
  {
    if links != [] {
      var n := |links| - 1;
      assert links == links[..n] + [links[n]];
      LastNamingMeaning(links[..n], child);
    }
  }

  /** `link` is in the list and no link after it names its child. */
  ghost predicate IsLastOfChild(links: seq<Link>, link: Link) {
    exists i :: 0 <= i < |links| && links[i] == link && forall j :: i < j < |links| ==> links[j].child != link.child
  }

  lemma {:induction false} LastNamingIsLast(links: seq<Link>, child: AgreementHash)
    ensures LastNaming(links, child).Some? ==>
      IsLastOfChild(links, LastNaming(links, child).value) && LastNaming(links, child).value.child == child
  {
    if links != [] {
      var n := |links| - 1;
      LastNamingIsLast(links[..n], child);
      if links[n].child != child && LastNaming(links[..n], child).Some? {
        var link := LastNaming(links[..n], child).value;
        var i :| 0 <= i < n && links[..n][i] == link && forall j :: i < j < n ==> links[..n][j].child != child;
        assert forall j :: i < j < n ==> links[j] == links[..n][j];
      }
    }
  }

  /** The links are the rows with a parent and a child, but for those plainly revoked. */
  lemma {:induction false} LinksExactly(rows: seq<Row>, p: AgreementHash, c: AgreementHash)
    ensures HasLink(Links(rows), p, c) <==>
      exists r :: r in rows && r.core.parent == Some(p) && r.core.child == Some(c)
        && !(r.status == Revoked && !r.padded)
  {
    LinksContents(rows);
    if r :| r in rows && r.core.parent == Some(p) && r.core.child == Some(c) && !(r.status == Revoked && !r.padded) {
      assert IsLive(r) && LinkOf(r) in Links(rows);
    }
  }

  function From(parent: AgreementHash): Link -> bool {
    (l: Link) => l.parent == parent
  }

  function ChildLeq(locale: Leq<AgreementHash>): Leq<Link> {
    (a: Link, b: Link) => locale(a.child, b.child)
  }

  function Outgoing(locale: Leq<AgreementHash>, links: seq<Link>, parent: AgreementHash): seq<Link> {
    StableSort(ChildLeq(locale), Filter(From(parent), links))
  }

  lemma {:induction false} OutgoingContents(locale: Leq<AgreementHash>, links: seq<Link>, p: AgreementHash)
    ensures forall l :: l in Outgoing(locale, links, p) <==> l in links && l.parent == p
  {
    FilterContents(From(p), links);
    StableSortContents(ChildLeq(locale), Filter(From(p), links));
  }

  /** No link comes before one whose child collates earlier. */
  ghost predicate Ascends(locale: Leq<AgreementHash>, list: seq<Link>) {
    forall i, j :: 0 <= i < j < |list| ==> locale(list[i].child, list[j].child)
  }

  ghost predicate UniqueParents(links: seq<Link>) {
    forall a, b :: a in links && b in links && a.child == b.child ==> a.parent == b.parent
  }

  predicate Conflicts(known: Option<Link>, link: Link) {
    known.Some? && known.value.parent != link.parent
  }

  function FirstConflict(links: seq<Link>): Option<AgreementHash> {
    if links == [] then None
    else
      var n := |links| - 1;
      var earlier := FirstConflict(links[..n]);
      if earlier.Some? then earlier
      else if Conflicts(LastNaming(links[..n], links[n].child), links[n]) then Some(links[n].child)
      else None
  }

  lemma {:induction false} ConflictFreeIffUniqueParents(links: seq<Link>)
    ensures FirstConflict(links).None? <==> UniqueParents(links)
  {
    if links != [] {
      var n := |links| - 1;
      assert links == links[..n] + [links[n]];
      ConflictFreeIffUniqueParents(links[..n]);
      LastNamingMeaning(links[..n], links[n].child);
    }
  }

  /** Link `j` is the first to give a child a second parent. */
  ghost predicate FirstToConflict(links: seq<Link>, j: nat) {
    j < |links| && UniqueParents(links[..j]) && !UniqueParents(links[..j + 1])
  }

  lemma {:induction false} ConflictIsFirst(links: seq<Link>) returns (j: nat)
    requires FirstConflict(links).Some?
    ensures FirstToConflict(links, j) && links[j].child == FirstConflict(links).value
  {
    var n := |links| - 1;
    if FirstConflict(links[..n]).Some? {
      j := ConflictIsFirst(links[..n]);
      hide UniqueParents;
      assert links[..n][..j] == links[..j] && links[..n][..j + 1] == links[..j + 1];
    } else {
      j := n;
      hide UniqueParents;
      ConflictFreeIffUniqueParents(links[..n]);
      ConflictFreeIffUniqueParents(links);
      assert links[..n + 1] == links;
    }
  }

  lemma {:induction false} ConflictStays(xs: seq<Link>, ys: seq<Link>)
    requires FirstConflict(xs).Some?
    ensures FirstConflict(xs + ys) == FirstConflict(xs)
  {
    if ys == [] {
      assert xs + ys == xs;
    } else {
      var n := |ys| - 1;
      assert (xs + ys)[..|xs| + n] == xs + ys[..n];
      ConflictStays(xs, ys[..n]);
    }
  }

  ghost predicate ByChildOf(links: seq<Link>, byChild: map<AgreementHash, Link>) {
    forall c :: LastNaming(links, c) == if c in byChild then Some(byChild[c]) else None
  }

  /** Each list of children before it is sorted. */
  ghost predicate ListsOf(links: seq<Link>, lists: map<AgreementHash, seq<Link>>) {
    forall p :: Filter(From(p), links) == if p in lists then lists[p] else []
  }

  ghost predicate IsIndexOf(locale: Leq<AgreementHash>, links: seq<Link>, idx: Index) {
    && ByChildOf(links, idx.byChild)
    && forall p :: Outgoing(locale, links, p) == if p in idx.childrenByParent then idx.childrenByParent[p] else []
  }

  lemma {:induction false} IndexStep(links: seq<Link>, byChild: map<AgreementHash, Link>,
      lists: map<AgreementHash, seq<Link>>, link: Link)
    requires ByChildOf(links, byChild) && ListsOf(links, lists)
    ensures ByChildOf(links + [link], byChild[link.child := link])
    ensures ListsOf(links + [link],
      lists[link.parent := (if link.parent in lists then lists[link.parent] else []) + [link]])
  {
    assert (links + [link])[..|links|] == links;
  }

  lemma {:induction false} IndexStarts()
    ensures Links([]) == [] && FirstConflict([]).None? && ByChildOf([], map[]) && ListsOf([], map[])
  {
  }

  /** A link that contradicts `byChild` is the first conflict of the whole input. */
  lemma {:induction false} IndexConflict(rows: seq<Row>, i: nat, byChild: map<AgreementHash, Link>)
    requires i < |rows| && IsLive(rows[i]) && ByChildOf(Links(rows[..i]), byChild)
      && FirstConflict(Links(rows[..i])).None?
    ensures var link := LinkOf(rows[i]); var links := Links(rows[..i]);
      if link.child in byChild && byChild[link.child].parent != link.parent
      then FirstConflict(Links(rows)) == Some(link.child)
      else FirstConflict(links + [link]).None?
  {
    hide Links, LastNaming, FirstConflict;
    var link, links := LinkOf(rows[i]), Links(rows[..i]);
    NextConflict(links, byChild, link);
    if link.child in byChild && byChild[link.child].parent != link.parent {
      LinksStep(rows[..i], rows[i]);
      LinksConcat(rows[..i] + [rows[i]], rows[i + 1..]);
      assert rows[..i] + [rows[i]] + rows[i + 1..] == rows;
      ConflictStays(links + [link], Links(rows[i + 1..]));
    }
  }

  lemma {:induction false} NextConflict(links: seq<Link>, byChild: map<AgreementHash, Link>, link: Link)
    requires ByChildOf(links, byChild) && FirstConflict(links).None?
    ensures FirstConflict(links + [link])
      == if link.child in byChild && byChild[link.child].parent != link.parent then Some(link.child) else None
  {
    assert LastNaming(links, link.child) == if link.child in byChild then Some(byChild[link.child]) else None;
    assert (links + [link])[..|links|] == links;
  }

  lemma {:induction false} IndexEnds(locale: Leq<AgreementHash>, links: seq<Link>, byChild: map<AgreementHash, Link>,
      lists: map<AgreementHash, seq<Link>>, sorted: map<AgreementHash, seq<Link>>)
    requires ByChildOf(links, byChild) && ListsOf(links, lists) && sorted.Keys == lists.Keys
    requires forall p :: p in sorted ==> sorted[p] == StableSort(ChildLeq(locale), lists[p])
    ensures IsIndexOf(locale, links, Index(byChild, sorted))
  {
  }

  method SortChildren(locale: Leq<AgreementHash>, unsorted: map<AgreementHash, seq<Link>>)
    returns (sorted: map<AgreementHash, seq<Link>>)
    ensures sorted.Keys == unsorted.Keys
    ensures forall p :: p in sorted ==> sorted[p] == StableSort(ChildLeq(locale), unsorted[p])
  {
    sorted := unsorted;
    var todo: set<AgreementHash> := unsorted.Keys;
    while todo != {}
      invariant sorted.Keys == unsorted.Keys
      invariant forall p :: p in todo ==> p in unsorted && sorted[p] == unsorted[p]
      invariant forall p :: p in unsorted && p !in todo ==> sorted[p] == StableSort(ChildLeq(locale), unsorted[p])
      decreases |todo|
    {
      var p :| p in todo;
      sorted := sorted[p := StableSort(ChildLeq(locale), sorted[p])];
      todo := todo - {p};
    }
  }

  method IndexDelegations(locale: Leq<AgreementHash>, rows: seq<Row>) returns (r: Result<Index, GraphError>)
    ensures r.Success? ==> FirstConflict(Links(rows)).None? && IsIndexOf(locale, Links(rows), r.value)
    ensures r.Success? && TotalPreorder(locale) ==>
      forall p :: p in r.value.childrenByParent ==> Ascends(locale, r.value.childrenByParent[p])
    ensures r.Failure? ==> r.error.MultipleParents? && FirstConflict(Links(rows)) == Some(r.error.child)
  {
    hide Links, FirstConflict, LastNaming, Filter, ByChildOf, ListsOf, IsIndexOf, StableSort, Ascends, TotalPreorder,
      SiblingsLike;
    var byChild: map<AgreementHash, Link> := map[];
    var lists: map<AgreementHash, seq<Link>> := map[];
    ghost var links: seq<Link> := [];
    IndexStarts();
    for i := 0 to |rows|
      invariant links == Links(rows[..i]) && FirstConflict(links).None?
      invariant ByChildOf(links, byChild) && ListsOf(links, lists)
    {
      PrefixStep(rows, i);
      LinksStep(rows[..i], rows[i]);
      if IsLive(rows[i]) {
        var link := LinkOf(rows[i]);
        IndexConflict(rows, i, byChild);
        if link.child in byChild && byChild[link.child].parent != link.parent {
          return Failure(MultipleParents(link.child));
        }
        IndexStep(links, byChild, lists, link);
        byChild := byChild[link.child := link];
        var list := if link.parent in lists then lists[link.parent] else [];
        lists := lists[link.parent := list + [link]];
        links := links + [link];
      }
    }
    assert rows[..|rows|] == rows;
    var sorted := SortChildren(locale, lists);
    IndexEnds(locale, links, byChild, lists, sorted);
    r := Success(Index(byChild, sorted));
    if TotalPreorder(locale) {
      forall p | p in sorted ensures Ascends(locale, sorted[p]) {
        IndexListsAscend(locale, links, r.value, p, p);
      }
    }
  }

  // ----- the upward walk -----

  ghost function Ancestor(links: seq<Link>, c: AgreementHash, k: nat): Option<AgreementHash> {
    if k == 0 then Some(c)
    else
      var below := Ancestor(links, c, k - 1);
      if below.None? then None
      else
        var link := LastNaming(links, below.value);
        if link.None? then None else Some(link.value.parent)
  }

  /** The walk up from `start` reaches `a` at two different heights. */
  ghost predicate ReturnsTo(links: seq<Link>, start: AgreementHash, a: AgreementHash) {
    exists i: nat, j: nat ::
      i < j && Ancestor(links, start, i) == Some(a) && Ancestor(links, start, j) == Some(a)
  }

  /** `a` is the first agreement that the walk up from `start` meets a second time. */
  ghost predicate FirstReturnsTo(links: seq<Link>, start: AgreementHash, a: AgreementHash) {
    exists i: nat, m: nat ::
      && i < m && Ancestor(links, start, i) == Some(a) && Ancestor(links, start, m) == Some(a)
      && forall j: nat, k: nat :: j < k < m ==> Ancestor(links, start, j) != Ancestor(links, start, k)
  }

  /** Following parents from `start` meets some agreement twice. */
  ghost predicate Revisits(links: seq<Link>, start: AgreementHash) {
    exists a :: ReturnsTo(links, start, a)
  }

  ghost predicate IsClimb(links: seq<Link>, start: AgreementHash, plan: CascadePlan) {
    var path := [start] + plan.parents;
    && |plan.edges| == |plan.parents|
    && Distinct(path)
    && forall i :: 0 <= i < |plan.edges| ==>
         LastNaming(links, path[i]) == Some(plan.edges[i]) && plan.edges[i].parent == path[i + 1]
  }

  function Top(start: AgreementHash, plan: CascadePlan): AgreementHash {
    if plan.parents == [] then start else plan.parents[|plan.parents| - 1]
  }

  /** The whole chain of ancestors, in order, with the link followed at each step. */
  ghost predicate IsCascadePlan(links: seq<Link>, start: AgreementHash, plan: CascadePlan) {
    IsClimb(links, start, plan) && LastNaming(links, Top(start, plan)).None?
  }

  lemma {:induction false} ClimbIsAncestry(links: seq<Link>, start: AgreementHash, plan: CascadePlan, k: nat)
    requires IsClimb(links, start, plan) && k <= |plan.parents|
    ensures Ancestor(links, start, k) == Some(([start] + plan.parents)[k])
  {
    if k > 0 {
      ClimbIsAncestry(links, start, plan, k - 1);
      assert LastNaming(links, ([start] + plan.parents)[k - 1]) == Some(plan.edges[k - 1]);
    }
  }

  lemma {:induction false} ClimbStep(links: seq<Link>, start: AgreementHash, plan: CascadePlan, link: Link)
    requires IsClimb(links, start, plan) && LastNaming(links, Top(start, plan)) == Some(link)
    ensures Ancestor(links, start, |plan.parents| + 1) == Some(link.parent)
    ensures link.parent in [start] + plan.parents ==>
      FirstReturnsTo(links, start, link.parent) && Revisits(links, start)
    ensures link.parent !in [start] + plan.parents ==>
      IsClimb(links, start, CascadePlan(plan.parents + [link.parent], plan.edges + [link]))
  {
    var path := [start] + plan.parents;
    assert Top(start, plan) == path[|plan.parents|];
    ClimbIsAncestry(links, start, plan, |plan.parents|);
    if link.parent in path {
      var i: nat :| i < |path| && path[i] == link.parent;
      ClimbIsAncestry(links, start, plan, i);
      assert Ancestor(links, start, |plan.parents| + 1) == Some(link.parent);
      assert ReturnsTo(links, start, link.parent);
      forall j: nat, k: nat | j < k < |path| ensures Ancestor(links, start, j) != Ancestor(links, start, k) {
        ClimbIsAncestry(links, start, plan, j);
        ClimbIsAncestry(links, start, plan, k);
        assert path[j] != path[k];
      }
    } else {
      assert [start] + (plan.parents + [link.parent]) == path + [link.parent];
    }
  }

  lemma {:induction false} NoAncestorPastTop(links: seq<Link>, start: AgreementHash, plan: CascadePlan, k: nat)
    requires IsCascadePlan(links, start, plan) && k > |plan.parents|
    ensures Ancestor(links, start, k).None?
  {
    if k == |plan.parents| + 1 {
      ClimbIsAncestry(links, start, plan, k - 1);
    } else {
      NoAncestorPastTop(links, start, plan, k - 1);
    }
  }

  /** A finished walk lists the ancestors in order, and nothing above them. */
  lemma {:induction false} CascadePlanIsAncestry(links: seq<Link>, start: AgreementHash, plan: CascadePlan)
    requires IsCascadePlan(links, start, plan)
    ensures forall k: nat :: k >= 1 ==>
      Ancestor(links, start, k) == if k <= |plan.parents| then Some(plan.parents[k - 1]) else None
  {
    forall k: nat | k >= 1
      ensures Ancestor(links, start, k) == if k <= |plan.parents| then Some(plan.parents[k - 1]) else None
    {
      if k <= |plan.parents| {
        ClimbIsAncestry(links, start, plan, k);
      } else {
        NoAncestorPastTop(links, start, plan, k);
      }
    }
  }

  /** A walk that finishes never came round. */
  lemma {:induction false} CascadePlanNeverRevisits(links: seq<Link>, start: AgreementHash, plan: CascadePlan)
    requires IsCascadePlan(links, start, plan)
    ensures !Revisits(links, start)
  {
    var path := [start] + plan.parents;
    forall i: nat, j: nat | i < j && Ancestor(links, start, i).Some?
      ensures Ancestor(links, start, i) != Ancestor(links, start, j)
    {
      if j <= |plan.parents| {
        ClimbIsAncestry(links, start, plan, i);
        ClimbIsAncestry(links, start, plan, j);
        assert path[i] != path[j];
      } else {
        NoAncestorPastTop(links, start, plan, j);
      }
    }
  }

  /** Each step follows the last live link that names the agreement it stands at. */
  lemma {:induction false} CascadePlanFollowsLastLinks(links: seq<Link>, start: AgreementHash, plan: CascadePlan,
      k: nat)
    requires IsCascadePlan(links, start, plan) && k < |plan.edges|
    ensures |plan.edges| == |plan.parents| && plan.edges[k].parent == plan.parents[k]
    ensures plan.edges[k].child == if k == 0 then start else plan.parents[k - 1]
    ensures IsLastOfChild(links, plan.edges[k])
  {
    var path := [start] + plan.parents;
    assert LastNaming(links, path[k]) == Some(plan.edges[k]) && path[k + 1] == plan.parents[k];
    LastNamingIsLast(links, path[k]);
  }

  lemma {:induction false} CascadePlanUnique(links: seq<Link>, start: AgreementHash, a: CascadePlan, b: CascadePlan)
    requires IsCascadePlan(links, start, a) && IsCascadePlan(links, start, b)
    ensures a == b
  {
    CascadePlanIsAncestry(links, start, a);
    CascadePlanIsAncestry(links, start, b);
    assert Ancestor(links, start, |a.parents| + 1).None? && Ancestor(links, start, |b.parents| + 1).None?;
    forall k | 0 <= k < |a.parents| ensures a.parents[k] == b.parents[k] {
      assert Ancestor(links, start, k + 1) == Some(a.parents[k]);
    }
    assert a.parents == b.parents;
    forall k | 0 <= k < |a.edges| ensures a.edges[k] == b.edges[k] {
      assert LastNaming(links, ([start] + a.parents)[k]) == Some(a.edges[k]);
    }
  }

  ghost function Agreements(links: seq<Link>, start: AgreementHash): set<AgreementHash> {
    {start} + (set l | l in links :: l.parent) + (set l | l in links :: l.child)
  }

  /** Walks up from `start`; stops with an error exactly when an agreement comes round again. */
  method CascadeSettlementCheck(locale: Leq<AgreementHash>, rows: seq<Row>, start: AgreementHash)
    returns (r: Result<CascadePlan, GraphError>)
    ensures r.Success? <==> UniqueParents(Links(rows)) && !Revisits(Links(rows), start)
    ensures r.Success? ==> IsCascadePlan(Links(rows), start, r.value)
    ensures r.Failure? && r.error.MultipleParents? ==> FirstConflict(Links(rows)) == Some(r.error.child)
    ensures r.Failure? && r.error.Cycle? ==>
      UniqueParents(Links(rows)) && FirstReturnsTo(Links(rows), start, r.error.agreement)
  {
    hide FirstReturnsTo, Revisits;
    ghost var links := Links(rows);
    ConflictFreeIffUniqueParents(links);
    var indexed := IndexDelegations(locale, rows);
    if indexed.Failure? {
      return Failure(indexed.error);
    }
    var byChild := indexed.value.byChild;
    var parents: seq<AgreementHash>, edges: seq<Link> := [], [];
    var seen := {start};
    var cursor := start;
    while cursor in byChild
      invariant IsClimb(links, start, CascadePlan(parents, edges))
      invariant cursor == Top(start, CascadePlan(parents, edges))
      invariant forall a :: a in seen <==> a in [start] + parents
      invariant seen <= Agreements(links, start)
      decreases |Agreements(links, start)| - |parents|
    {
      DistinctBounded([start] + parents, Agreements(links, start));
      var link := byChild[cursor];
      assert LastNaming(links, cursor) == Some(link);
      LastNamingMeaning(links, cursor);
      ClimbStep(links, start, CascadePlan(parents, edges), link);
      if link.parent in seen {
        return Failure(Cycle(link.parent));
      }
      seen := seen + {link.parent};
      edges := edges + [Link(link.delegationId, link.parent, cursor)];
      parents := parents + [link.parent];
      cursor := link.parent;
    }
    assert LastNaming(links, cursor) == None;
    r := Success(CascadePlan(parents, edges));
    CascadePlanNeverRevisits(links, start, r.value);
  }

  // ----- the downward search -----

  ghost predicate HasLink(links: seq<Link>, p: AgreementHash, c: AgreementHash) {
    exists l :: l in links && l.parent == p && l.child == c
  }

  /** `c` lies exactly `n` links below `a` along some path. */
  ghost predicate ReachesIn(links: seq<Link>, a: AgreementHash, c: AgreementHash, n: nat)
    decreases n
  {
    if n == 0 then a == c
    else exists m :: ReachesIn(links, a, m, n - 1) && HasLink(links, m, c)
  }

  ghost predicate Reaches(links: seq<Link>, a: AgreementHash, c: AgreementHash) {
    exists n: nat :: ReachesIn(links, a, c, n)
  }

  function ChildrenOf(edges: seq<Link>): seq<AgreementHash> {
    if edges == [] then []
    else ChildrenOf(edges[..|edges| - 1]) + [edges[|edges| - 1].child]
  }

  lemma {:induction false} ChildrenOfContents(edges: seq<Link>)
    ensures forall l :: l in edges ==> l.child in ChildrenOf(edges)
  {
    if edges != [] {
      assert edges == edges[..|edges| - 1] + [edges[|edges| - 1]];
      ChildrenOfContents(edges[..|edges| - 1]);
    }
  }

  function OutgoingFrom(locale: Leq<AgreementHash>, links: seq<Link>, order: seq<AgreementHash>): seq<Link> {
    if order == [] then []
    else OutgoingFrom(locale, links, order[..|order| - 1]) + Outgoing(locale, links, order[|order| - 1])
  }

  lemma {:induction false} OutgoingFromContents(locale: Leq<AgreementHash>, links: seq<Link>, order: seq<AgreementHash>)
    ensures forall l :: l in OutgoingFrom(locale, links, order) <==> l in links && l.parent in order
  {
    if order != [] {
      var n := |order| - 1;
      OutgoingFromContents(locale, links, order[..n]);
      OutgoingContents(locale, links, order[n]);
      assert order == order[..n] + [order[n]];
    }
  }

  /** The agreements in order of discovery along a list of edges. */
  function Discovered(start: AgreementHash, edges: seq<Link>): seq<AgreementHash> {
    Dedup([start] + ChildrenOf(edges))
  }

  lemma {:induction false} DiscoveredStep(start: AgreementHash, edges: seq<Link>, link: Link)
    ensures var known := Discovered(start, edges);
      Discovered(start, edges + [link]) == if link.child in known then known else known + [link.child]
  {
    assert (edges + [link])[..|edges|] == edges;
    assert [start] + ChildrenOf(edges + [link]) == ([start] + ChildrenOf(edges)) + [link.child];
    DedupStep([start] + ChildrenOf(edges), link.child);
  }

  lemma {:induction false} DiscoveredNone(start: AgreementHash)
    ensures Discovered(start, []) == [start]
  {
    assert [start] + ChildrenOf([]) == [start];
    DedupDistinct([start]);
  }

  /** `via[i]` is the position of the agreement from which `order[i]` was first found; the first `done` are explored. */
  ghost predicate IsSearchTree(links: seq<Link>, order: seq<AgreementHash>, via: seq<nat>, done: nat) {
    && |via| == |order| > 0 && done <= |order|
    && (forall i :: 0 < i < |order| ==> via[i] < i && via[i] < done && HasLink(links, order[via[i]], order[i]))
    && (forall i, j :: 0 < i <= j < |order| ==> via[i] <= via[j])
    && (forall j, i :: 0 <= j < done && 0 < i < |order| && HasLink(links, order[j], order[i]) ==> via[i] <= j)
  }

  /** Breadth-first order: agreements by first discovery, with every link that leaves them, in that order. */
  ghost predicate IsUnwindPlan(locale: Leq<AgreementHash>, links: seq<Link>, start: AgreementHash, plan: UnwindPlan) {
    var order := [start] + plan.children;
    && order == Discovered(start, plan.edges)
    && plan.edges == OutgoingFrom(locale, links, order)
    && exists via :: IsSearchTree(links, order, via, |order|)
  }

  /** What holds while the links that leave `order[h]` are being followed, or (with `h == |order|`) at the end. */
  ghost predicate IsSearch(links: seq<Link>, start: AgreementHash, order: seq<AgreementHash>, via: seq<nat>, done: nat,
    closed: nat)
  {
    && IsSearchTree(links, order, via, done) && closed <= done
    && Distinct(order) && order[0] == start
    && (forall a :: a in order ==> a in Agreements(links, start))
    && (forall j, c :: 0 <= j < closed && HasLink(links, order[j], c) ==> c in order)
  }

  lemma {:induction false} SearchAdvance(links: seq<Link>, start: AgreementHash, order: seq<AgreementHash>,
      via: seq<nat>, h: nat)
    requires h < |order| && IsSearch(links, start, order, via, h, h)
    ensures IsSearch(links, start, order, via, h + 1, h)
  {
    forall j, i | 0 <= j < h + 1 && 0 < i < |order| && HasLink(links, order[j], order[i]) ensures via[i] <= j {
      assert via[i] < h;
    }
  }

  lemma {:induction false} SearchDiscover(links: seq<Link>, start: AgreementHash, order: seq<AgreementHash>,
      via: seq<nat>, h: nat, link: Link)
    requires h < |order| && IsSearch(links, start, order, via, h + 1, h)
    requires link in links && link.parent == order[h] && link.child !in order
    ensures IsSearch(links, start, order + [link.child], via + [h], h + 1, h)
  {
    var order', via' := order + [link.child], via + [h];
    assert HasLink(links, order[h], link.child);
    forall j, i | 0 <= j < h + 1 && 0 < i < |order'| && HasLink(links, order'[j], order'[i]) ensures via'[i] <= j {
      assert order'[j] == order[j];
      if i < |order| {
        assert order'[i] == order[i] && via'[i] == via[i];
      }
    }
    forall i, j | 0 < i <= j < |order'| ensures via'[i] <= via'[j] {
      if i < |order| {
        assert via[i] < h + 1;
      }
    }
    forall j, c | 0 <= j < h && HasLink(links, order'[j], c) ensures c in order' {
      assert order'[j] == order[j];
    }
  }

  lemma {:induction false} SearchClose(locale: Leq<AgreementHash>, links: seq<Link>, start: AgreementHash,
      order: seq<AgreementHash>, via: seq<nat>, h: nat)
    requires h < |order| && IsSearch(links, start, order, via, h + 1, h)
    requires forall l :: l in Outgoing(locale, links, order[h]) ==> l.child in order
    ensures IsSearch(links, start, order, via, h + 1, h + 1)
  {
    OutgoingContents(locale, links, order[h]);
    forall c | HasLink(links, order[h], c) ensures c in order {
      var l :| l in links && l.parent == order[h] && l.child == c;
      assert l in Outgoing(locale, links, order[h]);
    }
  }

  /** The variables of the search loop. */
  datatype SearchState = SearchState(children: seq<AgreementHash>, edges: seq<Link>, seen: set<AgreementHash>,
      queue: seq<AgreementHash>)

  /** `queue` holds the discovered agreements from position `next` on. */
  ghost predicate IsFrontier(links: seq<Link>, start: AgreementHash, st: SearchState, via: seq<nat>, next: nat,
      done: nat, closed: nat) {
    var order := [start] + st.children;
    && order == Discovered(start, st.edges)
    && next <= |order| && st.queue == order[next..]
    && (forall a :: a in st.seen <==> a in order)
    && IsSearch(links, start, order, via, done, closed)
  }

  function Visit(st: SearchState, link: Link): SearchState {
    var edges := st.edges + [Link(link.delegationId, link.parent, link.child)];
    if link.child in st.seen then st.(edges := edges)
    else SearchState(st.children + [link.child], edges, st.seen + {link.child}, st.queue + [link.child])
  }

  lemma {:induction false} AppendChild(start: AgreementHash, children: seq<AgreementHash>, next: nat, c: AgreementHash)
    requires next <= |children| + 1
    ensures [start] + (children + [c]) == ([start] + children) + [c]
    ensures ([start] + (children + [c]))[next..] == ([start] + children)[next..] + [c]
    ensures forall a :: a in [start] + (children + [c]) <==> a in [start] + children || a == c
  {
  }

  lemma {:induction false} VisitKeepsFrontier(links: seq<Link>, start: AgreementHash, st: SearchState, via: seq<nat>,
      h: nat, link: Link)
    returns (via': seq<nat>)
    requires h <= |st.children| && IsFrontier(links, start, st, via, h + 1, h + 1, h)
    requires link in links && link.parent == ([start] + st.children)[h]
    ensures IsFrontier(links, start, Visit(st, link), via', h + 1, h + 1, h)
    ensures st.children <= Visit(st, link).children && link.child in [start] + Visit(st, link).children
  {
    var order := [start] + st.children;
    DiscoveredStep(start, st.edges, link);
    if link.child in st.seen {
      via' := via;
    } else {
      SearchDiscover(links, start, order, via, h, link);
      via' := via + [h];
      AppendChild(start, st.children, h + 1, link.child);
    }
  }

  lemma {:induction false} FrontierStarts(links: seq<Link>, start: AgreementHash)
    ensures IsFrontier(links, start, SearchState([], [], {start}, [start]), [0], 0, 0, 0)
  {
    DiscoveredNone(start);
    assert [start] + [] == [start];
  }

  lemma {:induction false} FrontierDequeue(links: seq<Link>, start: AgreementHash, st: SearchState, via: seq<nat>,
      h: nat)
    requires IsFrontier(links, start, st, via, h, h, h) && st.queue != []
    ensures h <= |st.children| < |Agreements(links, start)|
    ensures st.queue[0] == ([start] + st.children)[h]
    ensures IsFrontier(links, start, st.(queue := st.queue[1..]), via, h + 1, h + 1, h)
  {
    var order := [start] + st.children;
    SearchAdvance(links, start, order, via, h);
    forall a | a in order ensures a in Agreements(links, start) {
    }
    DistinctBounded(order, Agreements(links, start));
  }

  lemma {:induction false} FrontierClose(locale: Leq<AgreementHash>, links: seq<Link>, start: AgreementHash,
      st: SearchState, via: seq<nat>, h: nat)
    requires h <= |st.children| && IsFrontier(links, start, st, via, h + 1, h + 1, h)
    requires forall l :: l in Outgoing(locale, links, ([start] + st.children)[h]) ==> l.child in [start] + st.children
    ensures IsFrontier(links, start, st, via, h + 1, h + 1, h + 1)
  {
    SearchClose(locale, links, start, [start] + st.children, via, h);
  }

  lemma {:induction false} OutgoingFromStep(locale: Leq<AgreementHash>, links: seq<Link>, start: AgreementHash,
      before: seq<AgreementHash>, after: seq<AgreementHash>, h: nat)
    requires before <= after && h <= |before|
    ensures OutgoingFrom(locale, links, ([start] + after)[..h + 1])
      == OutgoingFrom(locale, links, ([start] + before)[..h]) + Outgoing(locale, links, ([start] + before)[h])
  {
    PrefixStep([start] + before, h);
    assert ([start] + after)[..h + 1] == ([start] + before)[..h + 1];
  }

  lemma {:induction false} SearchEnds(locale: Leq<AgreementHash>, links: seq<Link>, start: AgreementHash,
      st: SearchState, via: seq<nat>, h: nat)
    requires IsFrontier(links, start, st, via, h, h, h) && st.queue == []
    requires st.edges == OutgoingFrom(locale, links, ([start] + st.children)[..h])
    ensures IsUnwindPlan(locale, links, start, UnwindPlan(st.children, st.edges))
  {
    assert ([start] + st.children)[..h] == [start] + st.children;
  }

  lemma {:induction false} IndexedOutgoing(locale: Leq<AgreementHash>, links: seq<Link>, idx: Index, p: AgreementHash)
    requires IsIndexOf(locale, links, idx)
    ensures Outgoing(locale, links, p) == if p in idx.childrenByParent then idx.childrenByParent[p] else []
    ensures forall l :: l in Outgoing(locale, links, p) ==> l in links && l.parent == p
  {
    OutgoingContents(locale, links, p);
  }

  lemma {:induction false} VisitAddsEdge(st: SearchState, link: Link)
    ensures Visit(st, link).edges == st.edges + [link]
  {
  }

  /** Follows every link out of one dequeued agreement, queueing the children not seen before. */
  method FollowLinks(locale: Leq<AgreementHash>, ghost links: seq<Link>, ghost start: AgreementHash,
      before: SearchState, ghost via0: seq<nat>, ghost h: nat, out: seq<Link>)
    returns (st: SearchState, ghost via: seq<nat>)
    requires h <= |before.children| && IsFrontier(links, start, before, via0, h + 1, h + 1, h)
    requires out == Outgoing(locale, links, ([start] + before.children)[h])
    requires forall l :: l in out ==> l in links && l.parent == ([start] + before.children)[h]
    ensures before.children <= st.children && st.edges == before.edges + out
    ensures IsFrontier(links, start, st, via, h + 1, h + 1, h + 1)
  {
    hide *;
    st, via := before, via0;
    for k := 0 to |out|
      invariant before.children <= st.children && st.edges == before.edges + out[..k]
      invariant IsFrontier(links, start, st, via, h + 1, h + 1, h)
      invariant forall l :: l in out[..k] ==> l.child in [start] + st.children
    {
      PrefixStep(out, k);
      VisitAddsEdge(st, out[k]);
      via := VisitKeepsFrontier(links, start, st, via, h, out[k]);
      st := Visit(st, out[k]);
    }
    assert out[..|out|] == out;
    FrontierClose(locale, links, start, st, via, h);
  }

  /** Searches down from `start`; always finishes, cycles included. */
  method RefundUnwindCheck(locale: Leq<AgreementHash>, rows: seq<Row>, start: AgreementHash)
    returns (r: Result<UnwindPlan, GraphError>)
    ensures r.Success? <==> UniqueParents(Links(rows))
    ensures r.Success? ==> IsUnwindPlan(locale, Links(rows), start, r.value)
    ensures r.Failure? ==> r.error.MultipleParents? && FirstConflict(Links(rows)) == Some(r.error.child)
  {
    ghost var links := Links(rows);
    ConflictFreeIffUniqueParents(links);
    var indexed := IndexDelegations(locale, rows);
    if indexed.Failure? {
      return Failure(indexed.error);
    }
    var plan := Search(locale, links, start, indexed.value);
    r := Success(plan);
  }

  method Search(locale: Leq<AgreementHash>, ghost links: seq<Link>, start: AgreementHash, idx: Index)
    returns (plan: UnwindPlan)
    requires IsIndexOf(locale, links, idx)
    ensures IsUnwindPlan(locale, links, start, plan)
  {
    hide *;
    var st := SearchState([], [], {start}, [start]);
    ghost var via, h: nat := [0], 0;
    FrontierStarts(links, start);
    OutgoingFromNone(locale, links, start);
    while st.queue != []
      invariant IsFrontier(links, start, st, via, h, h, h)
      invariant h <= |st.children| + 1 && st.edges == OutgoingFrom(locale, links, ([start] + st.children)[..h])
      decreases |Agreements(links, start)| - h
    {
      FrontierDequeue(links, start, st, via, h);
      var parent := st.queue[0];
      var out := if parent in idx.childrenByParent then idx.childrenByParent[parent] else [];
      IndexedOutgoing(locale, links, idx, parent);
      ghost var before := st;
      st, via := FollowLinks(locale, links, start, st.(queue := st.queue[1..]), via, h, out);
      OutgoingFromStep(locale, links, start, before.children, st.children, h);
      h := h + 1;
    }
    SearchEnds(locale, links, start, st, via, h);
    plan := UnwindPlan(st.children, st.edges);
  }

  lemma {:induction false} OutgoingFromNone(locale: Leq<AgreementHash>, links: seq<Link>, start: AgreementHash)
    ensures OutgoingFrom(locale, links, ([start] + [])[..0]) == []
  {
  }

  // ----- what the unwind plan means -----

  ghost function Depth(via: seq<nat>, i: nat): nat
    requires i < |via| && forall k :: 0 < k < |via| ==> via[k] < k
  {
    if i == 0 then 0 else Depth(via, via[i]) + 1
  }

  lemma {:induction false} DepthGrows(links: seq<Link>, order: seq<AgreementHash>, via: seq<nat>, i: nat, j: nat)
    requires IsSearchTree(links, order, via, |order|) && i <= j < |order|
    ensures Depth(via, i) <= Depth(via, j)
    decreases j
  {
    if 0 < i {
      DepthGrows(links, order, via, via[i], via[j]);
    }
  }

  lemma {:induction false} DepthIsReached(links: seq<Link>, order: seq<AgreementHash>, via: seq<nat>, i: nat)
    requires IsSearchTree(links, order, via, |order|) && i < |order|
    ensures ReachesIn(links, order[0], order[i], Depth(via, i))
  {
    if 0 < i {
      DepthIsReached(links, order, via, via[i]);
      assert HasLink(links, order[via[i]], order[i]);
    }
  }

  lemma {:induction false} UnwindClosed(locale: Leq<AgreementHash>, links: seq<Link>, start: AgreementHash,
      plan: UnwindPlan, m: AgreementHash, c: AgreementHash)
    requires IsUnwindPlan(locale, links, start, plan)
    requires m in [start] + plan.children && HasLink(links, m, c)
    ensures c in [start] + plan.children
  {
    OutgoingFromContents(locale, links, [start] + plan.children);
    var l :| l in links && l.parent == m && l.child == c;
    assert l in plan.edges;
    ChildrenOfContents(plan.edges);
    DedupContents([start] + ChildrenOf(plan.edges));
  }

  lemma {:induction false} ReachedWithinDepth(locale: Leq<AgreementHash>, links: seq<Link>, start: AgreementHash,
      plan: UnwindPlan, via: seq<nat>, c: AgreementHash, n: nat) returns (i: nat)
    requires IsUnwindPlan(locale, links, start, plan)
    requires IsSearchTree(links, [start] + plan.children, via, |plan.children| + 1)
    requires ReachesIn(links, start, c, n)
    ensures i <= |plan.children| && ([start] + plan.children)[i] == c && Depth(via, i) <= n
    decreases n
  {
    hide IsUnwindPlan, Discovered, OutgoingFrom, Dedup, HasLink, Distinct;
    var order := [start] + plan.children;
    if n == 0 {
      i := 0;
    } else {
      var m :| ReachesIn(links, start, m, n - 1) && HasLink(links, m, c);
      var j := ReachedWithinDepth(locale, links, start, plan, via, m, n - 1);
      assert order[j] == m;
      UnwindClosed(locale, links, start, plan, m, c);
      i :| 0 <= i < |order| && order[i] == c;
      if 0 < i {
        DepthGrows(links, order, via, via[i], j);
      }
    }
  }

  lemma {:induction false} UnwindDistinct(locale: Leq<AgreementHash>, links: seq<Link>, start: AgreementHash,
      plan: UnwindPlan)
    requires IsUnwindPlan(locale, links, start, plan)
    ensures Distinct([start] + plan.children) && start !in plan.children
  {
    var order := [start] + plan.children;
    DedupContents([start] + ChildrenOf(plan.edges));
    forall i | 0 <= i < |plan.children| ensures plan.children[i] != start {
      assert order[0] != order[i + 1];
    }
  }

  lemma {:induction false} UnwindListedIsReached(locale: Leq<AgreementHash>, links: seq<Link>, start: AgreementHash,
      plan: UnwindPlan, i: nat)
    requires IsUnwindPlan(locale, links, start, plan) && i < |plan.children|
    ensures Reaches(links, start, plan.children[i])
  {
    var order := [start] + plan.children;
    var via :| IsSearchTree(links, order, via, |order|);
    DepthIsReached(links, order, via, i + 1);
    assert order[i + 1] == plan.children[i] && order[0] == start;
  }

  lemma {:induction false} UnwindReachedIsListed(locale: Leq<AgreementHash>, links: seq<Link>, start: AgreementHash,
      plan: UnwindPlan, c: AgreementHash)
    requires IsUnwindPlan(locale, links, start, plan) && c != start && Reaches(links, start, c)
    ensures c in plan.children
  {
    var order := [start] + plan.children;
    var via :| IsSearchTree(links, order, via, |order|);
    var n: nat :| ReachesIn(links, start, c, n);
    var i := ReachedWithinDepth(locale, links, start, plan, via, c, n);
    assert order[i] == c && order[0] == start;
    assert plan.children[i - 1] == c;
  }

  /** The children listed are exactly the agreements reachable from the start, other than the start, each once. */
  lemma {:induction false} UnwindReachesExactly(locale: Leq<AgreementHash>, links: seq<Link>, start: AgreementHash,
      plan: UnwindPlan)
    requires IsUnwindPlan(locale, links, start, plan)
    ensures Distinct([start] + plan.children)
    ensures forall c :: c in plan.children <==> c != start && Reaches(links, start, c)
  {
    hide *;
    UnwindDistinct(locale, links, start, plan);
    forall c ensures c in plan.children <==> c != start && Reaches(links, start, c) {
      if c in plan.children {
        var i: nat :| i < |plan.children| && plan.children[i] == c;
        UnwindListedIsReached(locale, links, start, plan, i);
      }
      if c != start && Reaches(links, start, c) {
        UnwindReachedIsListed(locale, links, start, plan, c);
      }
    }
  }

  lemma {:induction false} SamePlace(order: seq<AgreementHash>, i: nat, j: nat)
    requires Distinct(order) && i < |order| && j < |order| && order[i] == order[j]
    ensures i == j
  {
  }

  lemma {:induction false} TreeShape(links: seq<Link>, order: seq<AgreementHash>, via: seq<nat>)
    requires IsSearchTree(links, order, via, |order|)
    ensures (forall k :: 0 < k < |via| ==> via[k] < k) && |via| == |order|
  {
  }

  lemma {:induction false} NearestFirstVia(locale: Leq<AgreementHash>, links: seq<Link>, start: AgreementHash,
      plan: UnwindPlan, via: seq<nat>, i: nat, j: nat, n: nat)
    requires IsUnwindPlan(locale, links, start, plan)
    requires IsSearchTree(links, [start] + plan.children, via, |plan.children| + 1)
    requires i <= j < |plan.children| && ReachesIn(links, start, plan.children[j], n)
    ensures (forall k :: 0 < k < |via| ==> via[k] < k) && |via| == |plan.children| + 1
    ensures Depth(via, i + 1) <= n && ReachesIn(links, start, plan.children[i], Depth(via, i + 1))
  {
    var order := [start] + plan.children;
    hide *;
    TreeShape(links, order, via);
    DepthIsReached(links, order, via, i + 1);
    DepthGrows(links, order, via, i + 1, j + 1);
    var k := ReachedWithinDepth(locale, links, start, plan, via, plan.children[j], n);
    UnwindDistinct(locale, links, start, plan);
    SamePlace(order, k, j + 1);
    assert order[i + 1] == plan.children[i];
  }

  /** The children are listed nearest first: whatever reaches a later one has a path no longer to each earlier one. */
  lemma {:induction false} UnwindNearestFirst(locale: Leq<AgreementHash>, links: seq<Link>, start: AgreementHash,
      plan: UnwindPlan, i: nat, j: nat, n: nat)
    requires IsUnwindPlan(locale, links, start, plan)
    requires i <= j < |plan.children| && ReachesIn(links, start, plan.children[j], n)
    ensures exists m: nat :: m <= n && ReachesIn(links, start, plan.children[i], m)
  {
    var order := [start] + plan.children;
    var via :| IsSearchTree(links, order, via, |order|);
    NearestFirstVia(locale, links, start, plan, via, i, j, n);
  }

  function FromAny(order: seq<AgreementHash>): Link -> bool {
    (l: Link) => l.parent in order
  }

  lemma {:induction false} SplitFilter(links: seq<Link>, order: seq<AgreementHash>, a: AgreementHash)
    requires a !in order
    ensures multiset(Filter(FromAny(order + [a]), links))
      == multiset(Filter(FromAny(order), links)) + multiset(Filter(From(a), links))
  {
    if links != [] {
      SplitFilter(links[..|links| - 1], order, a);
    }
  }

  lemma {:induction false} NothingKept(links: seq<Link>)
    ensures Filter(FromAny([]), links) == []
  {
    if links != [] {
      NothingKept(links[..|links| - 1]);
    }
  }

  lemma {:induction false} OutgoingFromMultiset(locale: Leq<AgreementHash>, links: seq<Link>, order: seq<AgreementHash>)
    requires Distinct(order)
    ensures multiset(OutgoingFrom(locale, links, order)) == multiset(Filter(FromAny(order), links))
  {
    if order == [] {
      NothingKept(links);
    } else {
      var n := |order| - 1;
      OutgoingFromMultiset(locale, links, order[..n]);
      assert order == order[..n] + [order[n]];
      SplitFilter(links, order[..n], order[n]);
    }
  }

  /** Every live link that leaves the start or a reached agreement
      is an edge of the plan, exactly as often as it occurs. */
  lemma {:induction false} UnwindEdgesExactly(locale: Leq<AgreementHash>, links: seq<Link>, start: AgreementHash,
      plan: UnwindPlan)
    requires IsUnwindPlan(locale, links, start, plan)
    ensures multiset(plan.edges) == multiset(Filter((l: Link) => l.parent in [start] + plan.children, links))
  {
    DedupContents([start] + ChildrenOf(plan.edges));
    OutgoingFromMultiset(locale, links, [start] + plan.children);
    FilterSame(FromAny([start] + plan.children), (l: Link) => l.parent in [start] + plan.children, links);
  }

  // ----- the order of an unwind plan -----

  lemma {:induction false} ChildLeqTotal(locale: Leq<AgreementHash>)
    requires TotalPreorder(locale)
    ensures TotalPreorder(ChildLeq(locale))
  {
    var leq := ChildLeq(locale);
    forall a, b ensures leq(a, b) || leq(b, a) {
      assert locale(a.child, b.child) || locale(b.child, a.child);
    }
    forall a, b, c | leq(a, b) && leq(b, c) ensures leq(a, c) {
      assert locale(a.child, b.child) && locale(b.child, c.child) ==> locale(a.child, c.child);
    }
  }

  lemma {:induction false} OutgoingAscends(locale: Leq<AgreementHash>, links: seq<Link>, p: AgreementHash)
    requires TotalPreorder(locale)
    ensures Ascends(locale, Outgoing(locale, links, p))
  {
    ChildLeqTotal(locale);
    StableSortSorted(ChildLeq(locale), Filter(From(p), links));
    hide StableSort, Filter;
    var out := Outgoing(locale, links, p);
    forall i, j | 0 <= i < j < |out| ensures locale(out[i].child, out[j].child) {
      assert ChildLeq(locale)(out[i], out[j]);
    }
  }

  /** Every list of an index ascends in collation, holds exactly the live links of its parent, and keeps the order of
      the rows among children that collate alike. */
  lemma {:induction false} IndexListsAscend(locale: Leq<AgreementHash>, links: seq<Link>, idx: Index,
      p: AgreementHash, c: AgreementHash)
    requires TotalPreorder(locale) && IsIndexOf(locale, links, idx) && p in idx.childrenByParent
    ensures var list := idx.childrenByParent[p];
      && Ascends(locale, list) && multiset(list) == multiset(Filter((l: Link) => l.parent == p, links))
      && Filter(SiblingsLike(locale, p, c), list) == Filter(SiblingsLike(locale, p, c), links)
  {
    OutgoingAscends(locale, links, p);
    OutgoingIsStable(locale, links, p, p, c);
    FilterSame(From(p), (l: Link) => l.parent == p, links);
    assert idx.childrenByParent[p] == Outgoing(locale, links, p);
  }

  lemma {:induction false} OutgoingFromInOrder(locale: Leq<AgreementHash>, links: seq<Link>, order: seq<AgreementHash>,
      i: nat, j: nat, a: nat, b: nat)
    requires TotalPreorder(locale) && Distinct(order) && a < |order| && b < |order|
    requires i < j < |OutgoingFrom(locale, links, order)|
    requires OutgoingFrom(locale, links, order)[i].parent == order[a]
    requires OutgoingFrom(locale, links, order)[j].parent == order[b]
    ensures a <= b
    ensures a == b ==>
      var edges := OutgoingFrom(locale, links, order); locale(edges[i].child, edges[j].child)
    decreases |order|
  {
    hide *;
    var n := |order| - 1;
    var front, out := OutgoingFrom(locale, links, order[..n]), Outgoing(locale, links, order[n]);
    OutgoingFromSplit(locale, links, order);
    OutgoingFromContents(locale, links, order[..n]);
    OutgoingContents(locale, links, order[n]);
    ParentsSplit(front, out, order);
    if j < |front| {
      OutgoingFromInOrder(locale, links, order[..n], i, j, a, b);
    } else if i >= |front| {
      OutgoingAscends(locale, links, order[n]);
      AscendsAt(locale, out, i - |front|, j - |front|);
    }
  }

  lemma {:induction false} OutgoingFromSplit(locale: Leq<AgreementHash>, links: seq<Link>, order: seq<AgreementHash>)
    requires order != []
    ensures OutgoingFrom(locale, links, order)
      == OutgoingFrom(locale, links, order[..|order| - 1]) + Outgoing(locale, links, order[|order| - 1])
  {
    hide Outgoing;
  }

  lemma {:induction false} AscendsAt(locale: Leq<AgreementHash>, list: seq<Link>, i: nat, j: nat)
    requires Ascends(locale, list) && i < j < |list|
    ensures locale(list[i].child, list[j].child)
  {
  }

  /** Edges of the earlier agreements, then those of the last one. */
  lemma {:induction false} ParentsSplit(front: seq<Link>, out: seq<Link>, order: seq<AgreementHash>)
    requires order != [] && Distinct(order)
    requires forall l :: l in front ==> l.parent in order[..|order| - 1]
    requires forall l :: l in out ==> l.parent == order[|order| - 1]
    ensures forall i, a :: 0 <= i < |front| && 0 <= a < |order| && front[i].parent == order[a] ==> a < |order| - 1
    ensures forall i, a :: 0 <= i < |out| && 0 <= a < |order| && out[i].parent == order[a] ==> a == |order| - 1
    ensures Distinct(order[..|order| - 1])
  {
    forall i, a | 0 <= i < |front| && 0 <= a < |order| && front[i].parent == order[a] ensures a < |order| - 1 {
      assert front[i] in front;
    }
    forall i, a | 0 <= i < |out| && 0 <= a < |order| && out[i].parent == order[a] ensures a == |order| - 1 {
      assert out[i] in out;
    }
  }

  /** The edges of a finished search come agreement by agreement, in the order in which these are listed, and the edges
      of one agreement in ascending collation of their children. */
  lemma {:induction false} UnwindEdgesInOrder(locale: Leq<AgreementHash>, links: seq<Link>, start: AgreementHash,
      plan: UnwindPlan, i: nat, j: nat)
    requires TotalPreorder(locale) && IsUnwindPlan(locale, links, start, plan) && i < j < |plan.edges|
    ensures var order := [start] + plan.children;
      exists a, b :: 0 <= a <= b < |order| && plan.edges[i].parent == order[a] && plan.edges[j].parent == order[b]
    ensures plan.edges[i].parent == plan.edges[j].parent ==> locale(plan.edges[i].child, plan.edges[j].child)
  {
    var order := [start] + plan.children;
    OutgoingFromContents(locale, links, order);
    UnwindDistinct(locale, links, start, plan);
    assert plan.edges[i] in plan.edges && plan.edges[j] in plan.edges;
    var a: nat :| a < |order| && order[a] == plan.edges[i].parent;
    var b: nat :| b < |order| && order[b] == plan.edges[j].parent;
    hide TotalPreorder, IsSearchTree, Discovered;
    OutgoingFromInOrder(locale, links, order, i, j, a, b);
    if plan.edges[i].parent == plan.edges[j].parent {
      SamePlace(order, a, b);
    }
  }

  /** The links from `p` to children that collate like `c`. */
  function SiblingsLike(locale: Leq<AgreementHash>, p: AgreementHash, c: AgreementHash): Link -> bool {
    (l: Link) => l.parent == p && locale(l.child, c) && locale(c, l.child)
  }

  lemma {:induction false} OutgoingIsStable(locale: Leq<AgreementHash>, links: seq<Link>, q: AgreementHash,
      p: AgreementHash, c: AgreementHash)
    requires TotalPreorder(locale)
    ensures Filter(SiblingsLike(locale, p, c), Outgoing(locale, links, q))
      == if q == p then Filter(SiblingsLike(locale, p, c), links) else []
  {
    var out, like := Outgoing(locale, links, q), SiblingsLike(locale, p, c);
    OutgoingContents(locale, links, q);
    if q == p {
      var alike := Alike(ChildLeq(locale), Link(None, p, c));
      ChildLeqTotal(locale);
      StableSortStable(ChildLeq(locale), Filter(From(p), links), Link(None, p, c));
      FilterSame(like, alike, out);
      FilterTwice(alike, From(p), like, links);
    } else {
      forall i | 0 <= i < |out| ensures !like(out[i]) {
        assert out[i] in out;
      }
      FilterNone(like, out);
    }
  }

  lemma {:induction false} OutgoingFromIsStable(locale: Leq<AgreementHash>, links: seq<Link>,
      order: seq<AgreementHash>, p: AgreementHash, c: AgreementHash)
    requires TotalPreorder(locale) && Distinct(order)
    ensures Filter(SiblingsLike(locale, p, c), OutgoingFrom(locale, links, order))
      == if p in order then Filter(SiblingsLike(locale, p, c), links) else []
  {
    if order == [] {
      assert Filter(SiblingsLike(locale, p, c), []) == [];
    } else {
      var n := |order| - 1;
      assert order == order[..n] + [order[n]];
      assert order[n] !in order[..n];
      var front, out := OutgoingFrom(locale, links, order[..n]), Outgoing(locale, links, order[n]);
      assert OutgoingFrom(locale, links, order) == front + out;
      OutgoingFromIsStable(locale, links, order[..n], p, c);
      hide *;
      OutgoingIsStable(locale, links, order[n], p, c);
      FilterConcat(SiblingsLike(locale, p, c), front, out);
    }
  }

  /** Links of one parent whose children collate alike are followed in the order of the rows. */
  lemma {:induction false} SiblingsKeepRowOrder(locale: Leq<AgreementHash>, links: seq<Link>, start: AgreementHash,
      plan: UnwindPlan, p: AgreementHash, c: AgreementHash)
    requires TotalPreorder(locale) && IsUnwindPlan(locale, links, start, plan) && p in [start] + plan.children
    ensures Filter(SiblingsLike(locale, p, c), plan.edges) == Filter(SiblingsLike(locale, p, c), links)
  {
    UnwindDistinct(locale, links, start, plan);
    OutgoingFromIsStable(locale, links, [start] + plan.children, p, c);
  }

  lemma {:induction false} ChildrenOfAt(edges: seq<Link>, k: nat)
    requires k < |edges|
    ensures |ChildrenOf(edges)| == |edges| && ChildrenOf(edges)[k] == edges[k].child
  {
    ChildrenOfLength(edges);
    var n := |edges| - 1;
    if k < n {
      ChildrenOfAt(edges[..n], k);
    } else {
      ChildrenOfLength(edges[..n]);
    }
  }

  lemma {:induction false} ChildrenOfLength(edges: seq<Link>)
    ensures |ChildrenOf(edges)| == |edges|
  {
    if edges != [] {
      ChildrenOfLength(edges[..|edges| - 1]);
    }
  }

  /** The children are listed in the order in which the edges first lead to them. */
  lemma {:induction false} ChildrenInEdgeOrder(locale: Leq<AgreementHash>, links: seq<Link>, start: AgreementHash,
      plan: UnwindPlan, i: nat, j: nat)
    requires IsUnwindPlan(locale, links, start, plan) && i < j < |plan.children|
    ensures LedToFirst(plan.edges, plan.children[i], plan.children[j])
  {
    hide *;
    DiscoveryOrder(locale, links, start, plan);
    FirstMet(start, plan.edges, plan.children, i, j);
  }

  lemma {:induction false} FirstMet(start: AgreementHash, edges: seq<Link>, children: seq<AgreementHash>, i: nat,
      j: nat)
    requires [start] + children == Dedup([start] + ChildrenOf(edges))
    requires i < j < |children| && children[i] != start
    ensures LedToFirst(edges, children[i], children[j])
  {
    var met := [start] + ChildrenOf(edges);
    hide Dedup, ChildrenOf;
    var u := DedupKeepsOrder(met, i + 1, j + 1);
    assert Dedup(met)[i + 1] == children[i] && Dedup(met)[j + 1] == children[j];
    ChildrenOfLength(edges);
    assert u > 0;
    ChildrenOfAt(edges, u - 1);
    forall v | 0 <= v <= u - 1 ensures edges[v].child != children[j] {
      ChildrenOfAt(edges, v);
      assert met[v + 1] == edges[v].child;
    }
  }

  lemma {:induction false} DiscoveryOrder(locale: Leq<AgreementHash>, links: seq<Link>, start: AgreementHash,
      plan: UnwindPlan)
    requires IsUnwindPlan(locale, links, start, plan)
    ensures [start] + plan.children == Dedup([start] + ChildrenOf(plan.edges))
    ensures forall i :: 0 <= i < |plan.children| ==> plan.children[i] != start
  {
    UnwindDistinct(locale, links, start, plan);
    hide Dedup, ChildrenOf, Distinct, OutgoingFrom, IsSearchTree;
  }

  /** Some edge leads to `c` with no edge to `d` up to it. */
  ghost predicate LedToFirst(edges: seq<Link>, c: AgreementHash, d: AgreementHash) {
    exists u :: 0 <= u < |edges| && edges[u].child == c && forall v :: 0 <= v <= u ==> edges[v].child != d
  }

  // ----- the two searches agree -----

  lemma {:induction false} AncestorShift(links: seq<Link>, c: AgreementHash, k: nat)
    ensures Ancestor(links, c, k + 1)
      == match LastNaming(links, c) case None => None case Some(l) => Ancestor(links, l.parent, k)
  {
    if k > 0 {
      AncestorShift(links, c, k - 1);
    } else {
      assert Ancestor(links, c, 0) == Some(c);
    }
  }

  lemma {:induction false} UniqueParentLink(links: seq<Link>, p: AgreementHash, c: AgreementHash)
    requires UniqueParents(links)
    ensures HasLink(links, p, c) <==> LastNaming(links, c).Some? && LastNaming(links, c).value.parent == p
  {
    LastNamingMeaning(links, c);
  }

  lemma {:induction false} DescentIsAncestry(links: seq<Link>, a: AgreementHash, c: AgreementHash, n: nat)
    requires UniqueParents(links)
    ensures ReachesIn(links, a, c, n) <==> Ancestor(links, c, n) == Some(a)
    decreases n
  {
    if n > 0 {
      AncestorShift(links, c, n - 1);
      var last := LastNaming(links, c);
      forall m ensures HasLink(links, m, c) <==> last.Some? && last.value.parent == m {
        UniqueParentLink(links, m, c);
      }
      if last.Some? {
        DescentIsAncestry(links, a, last.value.parent, n - 1);
        assert HasLink(links, last.value.parent, c);
      }
    }
  }

  /** Duality: `p` is among the parents walked from `c` exactly when `c` is among the children found from `p`. */
  lemma {:induction false} TraversalsAreDual(locale: Leq<AgreementHash>, links: seq<Link>, c: AgreementHash,
      up: CascadePlan, p: AgreementHash, down: UnwindPlan)
    requires UniqueParents(links)
    requires IsCascadePlan(links, c, up) && IsUnwindPlan(locale, links, p, down)
    ensures p in up.parents <==> c in down.children
  {
    CascadePlanIsAncestry(links, c, up);
    UnwindReachesExactly(locale, links, p, down);
    if p in up.parents {
      var i: nat :| i < |up.parents| && up.parents[i] == p;
      var path := [c] + up.parents;
      assert path[0] != path[i + 1];
      assert Ancestor(links, c, i + 1) == Some(p);
      DescentIsAncestry(links, p, c, i + 1);
    }
    if c in down.children {
      var n: nat :| ReachesIn(links, p, c, n);
      DescentIsAncestry(links, p, c, n);
      assert Ancestor(links, c, n) == Some(p);
    }
  }
}
