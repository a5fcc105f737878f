/** Audit lineage: building a sorted, counted and hashed page of records, and verifying one. */
module Lineage {
  import opened Wrappers
  import opened Sequences
  import opened Ordering
  import opened Numbers

  /** A record kind is used as a key of a plain object. `Inherited` is a name that `Object.prototype` defines, such as
      `constructor`: reading it before it is set yields a function. `Proto` is `__proto__`: setting it to a text or a
      number does nothing. `Blank` is a missing name, or one that trims to nothing. */
  datatype Kind = Plain(code: int) | Inherited(code: int) | Proto | Blank

  datatype Name = Name(code: int)

  /** A time as sent: missing, unparseable, or milliseconds. */
  datatype TimeInput = NoTime | BadTime | At(ms: int)

  /** A record as sent; `None` stands for a missing or blank string. */
  datatype RecordInput = RecordInput(kind: Kind, recordId: Option<Name>, at: TimeInput, status: Option<Name>,
    traceIds: seq<Option<Name>>, agentIds: seq<Option<Name>>, refs: int)

  datatype Record = Record(kind: Kind, recordId: Name, at: Option<int>, status: Option<Name>, traceIds: seq<Name>,
    agentIds: seq<Name>, refs: int)

  /** What a count holds: a number, or the text of an inherited function followed by some ones. */
  datatype CountValue = Number(n: int) | Text(ones: int)

  /** A property of a count object, under its key after trimming: keys that trim alike are properties of their own. */
  datatype Entry = Entry(kind: Kind, count: CountValue)

  datatype Summary = Summary(total: int, returned: int, limit: int, offset: int, hasMore: bool, kindCounts: seq<Entry>)

  /** A summary as it is hashed, with one count for each kind; the
      hash sorts properties, so their order does not enter. */
  datatype Digest = Digest(total: int, returned: int, limit: int, offset: int, hasMore: bool,
      table: map<Kind, CountValue>)

  /** The hash is injective in what it covers. */
  datatype Hash = HashOf(tenant: Name, filters: int, summary: Digest, records: seq<Record>)

  datatype Lineage = Lineage(schemaOk: bool, tenant: Option<Name>, filters: int, summary: Summary,
      records: seq<RecordInput>, hash: Option<Hash>)

  datatype BuildError = TenantMissing | InvalidRecord | InvalidLimit | InvalidOffset

  datatype Verdict = Verified | SchemaInvalid | RecordOrderInvalid | SummaryInvalid | HashInvalid | HashMismatch

  /** The collations of kinds and of other strings. */
  datatype Orders = Orders(kinds: Leq<Kind>, names: Leq<Name>)

  // ----- normalising records -----

  function NormalNames(o: Orders, items: seq<Option<Name>>): seq<Name> {
    StableSort(o.names, Dedup(Somes(items)))
  }

  lemma {:induction false} SomesStep(items: seq<Option<Name>>, i: nat)
    requires i < |items|
    ensures Somes(items[..i + 1]) == if items[i].Some? then Somes(items[..i]) + [items[i].value] else Somes(items[..i])
  {
    PrefixStep(items, i);
  }

  method NormalizeStringArray(o: Orders, items: seq<Option<Name>>) returns (r: seq<Name>)
    ensures r == NormalNames(o, items)
  {
    r := [];
    var seen: set<Name> := {};
    for i := 0 to |items|
      invariant r == Dedup(Somes(items[..i])) && forall x :: x in seen <==> x in r
    {
      SomesStep(items, i);
      if items[i].None? {
        continue;
      }
      DedupStep(Somes(items[..i]), items[i].value);
      hide Dedup, Somes;
      if items[i].value in seen {
        continue;
      }
      seen := seen + {items[i].value};
      r := r + [items[i].value];
    }
    assert items[..|items|] == items;
    r := StableSort(o.names, r);
  }

  predicate Acceptable(r: RecordInput) {
    !r.kind.Blank? && r.recordId.Some? && !r.at.BadTime?
  }

  function Normal(o: Orders): RecordInput -> Record {
    (r: RecordInput) => Record(r.kind, r.recordId.GetOr(Name(0)), if r.at.At? then Some(r.at.ms) else None, r.status,
      NormalNames(o, r.traceIds), NormalNames(o, r.agentIds), r.refs)
  }

  predicate AllAcceptable(rs: seq<RecordInput>) {
    forall i :: 0 <= i < |rs| ==> Acceptable(rs[i])
  }

  /** A normalised record sent again. */
  function Resent(): Record -> RecordInput {
    (r: Record) => RecordInput(r.kind, Some(r.recordId), if r.at.Some? then At(r.at.value) else NoTime, r.status,
      AllSome(r.traceIds), AllSome(r.agentIds), r.refs)
  }

  ghost predicate Collations(o: Orders) {
    TotalPreorder(o.kinds) && TotalPreorder(o.names)
  }

  lemma {:induction false} NormalNamesAgain(o: Orders, items: seq<Option<Name>>)
    requires TotalPreorder(o.names)
    ensures NormalNames(o, AllSome(NormalNames(o, items))) == NormalNames(o, items)
  {
    var names := NormalNames(o, items);
    DedupContents(Somes(items));
    PermutationKeepsDistinct(Dedup(Somes(items)), names);
    StableSortSorted(o.names, Dedup(Somes(items)));
    SomesOfAllSome(names);
    DedupDistinct(names);
    StableSortFixed(o.names, names);
  }

  /** Normalising a normalised record changes nothing. */
  lemma {:induction false} NormalAgain(o: Orders, r: RecordInput)
    requires Collations(o) && Acceptable(r)
    ensures var n := Normal(o)(r); Acceptable(Resent()(n)) && Normal(o)(Resent()(n)) == n
  {
    NormalNamesAgain(o, r.traceIds);
    NormalNamesAgain(o, r.agentIds);
    hide NormalNames, TotalPreorder;
  }

  // ----- the order of records -----

  /** A missing time sorts as the millisecond before the epoch. */
  function AtMs(r: Record): int {
    r.at.GetOr(-1)
  }

  function RecordOrder(o: Orders): Leq<Record> {
    (a: Record, b: Record) =>
      if AtMs(a) != AtMs(b) then AtMs(a) > AtMs(b)
      else if !(o.kinds(a.kind, b.kind) && o.kinds(b.kind, a.kind)) then o.kinds(a.kind, b.kind)
      else o.names(a.recordId, b.recordId)
  }

  lemma {:induction false} RecordOrderTotal(o: Orders)
    requires Collations(o)
    ensures TotalPreorder(RecordOrder(o))
  {
    var leq := RecordOrder(o);
    forall a, b ensures leq(a, b) || leq(b, a) {
      assert o.kinds(a.kind, b.kind) || o.kinds(b.kind, a.kind);
      assert o.names(a.recordId, b.recordId) || o.names(b.recordId, a.recordId);
    }
    forall a, b, c | leq(a, b) && leq(b, c) ensures leq(a, c) {
      KindsChain(o, a.kind, b.kind, c.kind);
      KindsChain(o, c.kind, b.kind, a.kind);
      KindsChain(o, b.kind, c.kind, a.kind);
      KindsChain(o, c.kind, a.kind, b.kind);
      assert o.names(a.recordId, b.recordId) && o.names(b.recordId, c.recordId) ==> o.names(a.recordId, c.recordId);
    }
  }

  lemma {:induction false} KindsChain(o: Orders, a: Kind, b: Kind, c: Kind)
    requires TotalPreorder(o.kinds)
    ensures o.kinds(a, b) && o.kinds(b, c) ==> o.kinds(a, c)
    ensures o.kinds(a, b) || o.kinds(b, a)
  {
  }

  /** The loop that compares neighbours. */
  method IsDeterministicallySorted(o: Orders, records: seq<Record>) returns (ok: bool)
    requires TotalPreorder(RecordOrder(o))
    ensures ok <==> Sorted(RecordOrder(o), records)
  {
    hide RecordOrder;
    var i := 1;
    while i < |records|
      invariant 1 <= i && (i <= |records| ==> Sorted(RecordOrder(o), records[..i])) && (i > |records| ==> records == [])
    {
      if !RecordOrder(o)(records[i - 1], records[i]) {
        return false;
      }
      SortedGrows(RecordOrder(o), records, i);
      i := i + 1;
    }
    assert records[..|records|] == records;
    ok := true;
  }

  lemma {:induction false} SortedGrows(leq: Leq<Record>, records: seq<Record>, i: nat)
    requires TotalPreorder(leq) && 0 < i < |records| && Sorted(leq, records[..i]) && leq(records[i - 1], records[i])
    ensures Sorted(leq, records[..i + 1])
  {
    forall j | 0 <= j < i ensures leq(records[j], records[i]) {
      if j < i - 1 {
        assert leq(records[..i][j], records[..i][i - 1]);
      }
    }
  }

  // ----- counting kinds -----

  function KindOf(): Record -> Kind {
    (r: Record) => r.kind
  }

  function OfKind(k: Kind): Record -> bool {
    (r: Record) => r.kind == k
  }

  function Settable(): Kind -> bool {
    (k: Kind) => !k.Proto?
  }

  /** The kinds that get an entry. */
  function Kinds(rows: seq<Record>): seq<Kind> {
    Filter(Settable(), Dedup(MapSeq(KindOf(), rows)))
  }

  function CountOf(rows: seq<Record>): Kind -> Entry {
    (k: Kind) => Entry(k, if k.Inherited? then Text(Count(OfKind(k), rows)) else Number(Count(OfKind(k), rows)))
  }

  /** What counting leaves in the object: one entry for each kind that can be set, in order of first occurrence. */
  function Tally(rows: seq<Record>): seq<Entry> {
    MapSeq(CountOf(rows), Kinds(rows))
  }

  function EntryOrder(o: Orders): Leq<Entry> {
    (a: Entry, b: Entry) => o.kinds(a.kind, b.kind)
  }

  function FindKind(entries: seq<Entry>, k: Kind): (r: Option<nat>)
    ensures r.Some? ==> r.value < |entries| && entries[r.value].kind == k
  {
    if entries == [] then None
    else if entries[|entries| - 1].kind == k then Some(|entries| - 1)
    else FindKind(entries[..|entries| - 1], k)
  }

  lemma {:induction false} FindKindNone(entries: seq<Entry>, k: Kind, i: nat)
    requires i < |entries| && entries[i].kind == k
    ensures FindKind(entries, k).Some?
    decreases |entries|
  {
    if i < |entries| - 1 {
      FindKindNone(entries[..|entries| - 1], k, i);
    }
  }

  function PlusOne(v: CountValue): CountValue {
    match v
    case Number(n) => Number(n + 1)
    case Text(ones) => Text(ones + 1)
  }

  /** `object[kind] = (object[kind] ?? 0) + 1` on a plain object. */
  function Bump(entries: seq<Entry>, k: Kind): seq<Entry> {
    if k.Proto? then entries
    else
      var at := FindKind(entries, k);
      if at.Some? then entries[at.value := Entry(k, PlusOne(entries[at.value].count))]
      else entries + [Entry(k, if k.Inherited? then Text(1) else Number(1))]
  }

  lemma {:induction false} KindsContents(rows: seq<Record>)
    ensures Distinct(Kinds(rows))
    ensures forall k :: k in Kinds(rows) <==> !k.Proto? && k in MapSeq(KindOf(), rows)
  {
    var all := MapSeq(KindOf(), rows);
    DedupContents(all);
    FilterKeepsDistinct(Settable(), Dedup(all));
    FilterContents(Settable(), Dedup(all));
    hide Filter, Dedup, Distinct;
  }

  lemma {:induction false} KindsStep(rows: seq<Record>, r: Record)
    ensures Kinds(rows + [r]) == if r.kind.Proto? || r.kind in Kinds(rows) then Kinds(rows) else Kinds(rows) + [r.kind]
  {
    var all := MapSeq(KindOf(), rows);
    assert MapSeq(KindOf(), rows + [r]) == all + [r.kind];
    DedupStep(all, r.kind);
    FilterContents(Settable(), Dedup(all));
    hide Dedup;
    assert (Dedup(all) + [r.kind])[..|Dedup(all)|] == Dedup(all);
  }

  lemma {:induction false} CountStep(rows: seq<Record>, r: Record, k: Kind)
    ensures Count(OfKind(k), rows + [r]) == Count(OfKind(k), rows) + if r.kind == k then 1 else 0
  {
    assert (rows + [r])[..|rows|] == rows;
  }

  lemma {:induction false} NoneCounted(rows: seq<Record>, k: Kind)
    requires k !in MapSeq(KindOf(), rows)
    ensures Count(OfKind(k), rows) == 0
  {
    if rows != [] {
      var n := |rows| - 1;
      assert MapSeq(KindOf(), rows)[n] == rows[n].kind;
      assert MapSeq(KindOf(), rows) == MapSeq(KindOf(), rows[..n]) + [rows[n].kind];
      NoneCounted(rows[..n], k);
    }
  }

  lemma {:induction false} TallyAt(rows: seq<Record>)
    ensures |Tally(rows)| == |Kinds(rows)|
    ensures forall i :: 0 <= i < |Kinds(rows)| ==>
      Tally(rows)[i] == CountOf(rows)(Kinds(rows)[i]) && Tally(rows)[i].kind == Kinds(rows)[i]
  {
    hide Filter, Dedup, Count;
  }

  lemma {:induction false} EntryStep(rows: seq<Record>, r: Record, k: Kind)
    ensures CountOf(rows + [r])(k) == if k == r.kind then Entry(k, PlusOne(CountOf(rows)(k).count))
      else CountOf(rows)(k)
  {
    CountStep(rows, r, k);
    hide Count;
  }

  /** A kind has an entry exactly when it is among the counted kinds. */
  lemma {:induction false} FindInTally(rows: seq<Record>, k: Kind)
    ensures var at := FindKind(Tally(rows), k);
      && (at.Some? <==> k in Kinds(rows))
      && (at.Some? ==> at.value < |Kinds(rows)| && Kinds(rows)[at.value] == k)
  {
    TallyAt(rows);
    hide Tally, Kinds, CountOf;
    if k in Kinds(rows) {
      var i :| 0 <= i < |Kinds(rows)| && Kinds(rows)[i] == k;
      FindKindNone(Tally(rows), k, i);
    }
  }

  lemma {:induction false} NewEntry(rows: seq<Record>, r: Record)
    requires !r.kind.Proto? && r.kind !in Kinds(rows)
    ensures CountOf(rows + [r])(r.kind) == Entry(r.kind, if r.kind.Inherited? then Text(1) else Number(1))
  {
    KindsContents(rows);
    NoneCounted(rows, r.kind);
    CountStep(rows, r, r.kind);
    hide Count, Kinds;
  }

  /** One more record bumps the tally, whatever its kind. */
  lemma {:induction false} TallyStep(rows: seq<Record>, r: Record)
    ensures Tally(rows + [r]) == Bump(Tally(rows), r.kind)
  {
    KindsStep(rows, r);
    KindsContents(rows);
    TallyAt(rows);
    TallyAt(rows + [r]);
    FindInTally(rows, r.kind);
    var kinds := Kinds(rows);
    hide Tally, Kinds, CountOf, FindKind, PlusOne;
    forall i | 0 <= i < |kinds|
      ensures CountOf(rows + [r])(kinds[i]) == if kinds[i] == r.kind
        then Entry(kinds[i], PlusOne(CountOf(rows)(kinds[i]).count)) else CountOf(rows)(kinds[i])
    {
      EntryStep(rows, r, kinds[i]);
    }
    if !r.kind.Proto? && r.kind !in kinds {
      NewEntry(rows, r);
    }
  }

  /** The counting loop over the sorted records. */
  method CountKinds(rows: seq<Record>) returns (entries: seq<Entry>)
    ensures entries == Tally(rows)
  {
    entries := [];
    for i := 0 to |rows|
      invariant entries == Tally(rows[..i])
    {
      PrefixStep(rows, i);
      TallyStep(rows[..i], rows[i]);
      entries := Bump(entries, rows[i].kind);
    }
    assert rows[..|rows|] == rows;
  }

  // ----- building -----

  /** All records, normalised and in order. */
  function Arranged(o: Orders, records: seq<RecordInput>): seq<Record> {
    StableSort(RecordOrder(o), MapSeq(Normal(o), records))
  }

  function Page(rows: seq<Record>, limit: nat, offset: nat): seq<Record> {
    rows[Min(offset, |rows|)..Min(offset + limit, |rows|)]
  }

  function SortedCounts(o: Orders, rows: seq<Record>): seq<Entry> {
    StableSort(EntryOrder(o), Tally(rows))
  }

  /** Whether a key sets a property of its own on a plain object. */
  predicate Sets(k: Kind) {
    !k.Proto? && !k.Blank?
  }

  /** One count for each kind: of properties whose keys trim alike the last one wins. */
  function TableOf(entries: seq<Entry>): map<Kind, CountValue> {
    if entries == [] then map[]
    else
      var front, e := TableOf(entries[..|entries| - 1]), entries[|entries| - 1];
      if Sets(e.kind) then front[e.kind := e.count] else front
  }

  function DigestOf(s: Summary): Digest {
    Digest(s.total, s.returned, s.limit, s.offset, s.hasMore, TableOf(s.kindCounts))
  }

  function SummaryOf(o: Orders, rows: seq<Record>, limit: nat, offset: nat): Summary {
    var page := Page(rows, limit, offset);
    Summary(|rows|, |page|, limit, offset, |rows| > offset + |page|, SortedCounts(o, rows))
  }

  function Built(o: Orders, tenant: Name, filters: int, rows: seq<Record>, limit: nat, offset: nat): Lineage {
    var page, summary := Page(rows, limit, offset), SummaryOf(o, rows, limit, offset);
    Lineage(true, Some(tenant), filters, summary, MapSeq(Resent(), page),
      Some(HashOf(tenant, filters, DigestOf(summary), page)))
  }

  function Build(o: Orders, tenant: Option<Name>, filters: int, records: seq<RecordInput>, limit: int,
      offset: int): Result<Lineage, BuildError> {
    if tenant.None? then Failure(TenantMissing)
    else if limit <= 0 || limit > MAX_SAFE then Failure(InvalidLimit)
    else if !Safe(offset) then Failure(InvalidOffset)
    else if !AllAcceptable(records) then Failure(InvalidRecord)
    else Success(Built(o, tenant.value, filters, Arranged(o, records), limit, offset))
  }

  method BuildAuditLineage(o: Orders, tenant: Option<Name>, filters: int, records: seq<RecordInput>, limit: int,
      offset: int)
      returns (r: Result<Lineage, BuildError>)
    ensures r == Build(o, tenant, filters, records, limit, offset)
  {
    if tenant.None? {
      return Failure(TenantMissing);
    }
    if limit <= 0 || limit > MAX_SAFE {
      return Failure(InvalidLimit);
    }
    if !Safe(offset) {
      return Failure(InvalidOffset);
    }
    if !AllAcceptable(records) {
      return Failure(InvalidRecord);
    }
    var rows := StableSort(RecordOrder(o), MapSeq(Normal(o), records));
    var kindCounts := CountKinds(rows);
    var paged := Page(rows, limit, offset);
    var summary := Summary(|rows|, |paged|, limit, offset, |rows| > offset + |paged|,
      StableSort(EntryOrder(o), kindCounts));
    r := Success(Lineage(true, tenant, filters, summary, MapSeq(Resent(), paged),
      Some(HashOf(tenant.value, filters, DigestOf(summary), paged))));
  }

  // ----- verifying -----

  predicate ValidCount(v: CountValue) {
    v.Number? && Safe(v.n)
  }

  /** A property under a blank key is skipped. */
  function CountIn(): Entry -> int {
    (e: Entry) => if e.kind.Blank? then 0 else match e.count case Number(n) => n case Text(ones) => ones
  }

  predicate AllValid(entries: seq<Entry>) {
    forall i :: 0 <= i < |entries| ==> entries[i].kind.Blank? || ValidCount(entries[i].count)
  }

  predicate NumbersFit(s: Summary, recordCount: nat) {
    && Safe(s.total) && Safe(s.returned) && 0 < s.limit <= MAX_SAFE && Safe(s.offset)
    && s.returned == recordCount && s.total >= s.returned
    && (s.hasMore <==> s.total > s.offset + s.returned)
  }

  /** The summary as verification hashes it, or nothing when it contradicts itself. The total is compared with the sum
      over all properties, overwritten ones included. */
  function CheckedSummary(s: Summary, recordCount: nat): Option<Digest> {
    if NumbersFit(s, recordCount) && AllValid(s.kindCounts)
      && Sum(CountIn(), s.kindCounts) == s.total then Some(DigestOf(s))
    else None
  }

  lemma {:induction false} TableStep(entries: seq<Entry>, i: nat)
    requires i < |entries|
    ensures Sum(CountIn(), entries[..i + 1]) == Sum(CountIn(), entries[..i]) + CountIn()(entries[i])
    ensures TableOf(entries[..i + 1])
      == if Sets(entries[i].kind) then TableOf(entries[..i])[entries[i].kind := entries[i].count]
        else TableOf(entries[..i])
  {
    PrefixStep(entries, i);
  }

  method NormalizeSummary(s: Summary, recordCount: nat) returns (r: Option<Digest>)
    ensures r == CheckedSummary(s, recordCount)
  {
    if !NumbersFit(s, recordCount) {
      return None;
    }
    var kindCounts: map<Kind, CountValue> := map[];
    var total := 0;
    for i := 0 to |s.kindCounts|
      invariant AllValid(s.kindCounts[..i])
      invariant total == Sum(CountIn(), s.kindCounts[..i]) && kindCounts == TableOf(s.kindCounts[..i])
    {
      var e := s.kindCounts[i];
      TableStep(s.kindCounts, i);
      if e.kind.Blank? {
        continue;
      }
      if !ValidCount(e.count) {
        return None;
      }
      if !e.kind.Proto? {
        kindCounts := kindCounts[e.kind := e.count];
      }
      total := total + e.count.n;
    }
    assert s.kindCounts[..|s.kindCounts|] == s.kindCounts;
    if total != s.total {
      return None;
    }
    r := Some(Digest(s.total, s.returned, s.limit, s.offset, s.hasMore, kindCounts));
  }

  ghost function VerdictOn(o: Orders, l: Lineage): Verdict {
    if !l.schemaOk || l.tenant.None? || !AllAcceptable(l.records) then SchemaInvalid
    else
      var records := MapSeq(Normal(o), l.records);
      if !Sorted(RecordOrder(o), records) then RecordOrderInvalid
      else
        var summary := CheckedSummary(l.summary, |records|);
        if summary.None? then SummaryInvalid
        else if l.hash.None? then HashInvalid
        else if l.hash.value != HashOf(l.tenant.value, l.filters, summary.value, records) then HashMismatch
        else Verified
  }

  method VerifyAuditLineage(o: Orders, l: Lineage) returns (v: Verdict)
    requires Collations(o)
    ensures v == VerdictOn(o, l)
  {
    if !l.schemaOk || l.tenant.None? || !AllAcceptable(l.records) {
      return SchemaInvalid;
    }
    var records := MapSeq(Normal(o), l.records);
    RecordOrderTotal(o);
    hide RecordOrder, Normal, CheckedSummary;
    var sorted := IsDeterministicallySorted(o, records);
    if !sorted {
      return RecordOrderInvalid;
    }
    var summary := NormalizeSummary(l.summary, |records|);
    if summary.None? {
      return SummaryInvalid;
    }
    if l.hash.None? {
      return HashInvalid;
    }
    v := if l.hash.value == HashOf(l.tenant.value, l.filters, summary.value, records) then Verified else HashMismatch;
  }

  // ----- the counts -----

  function HasEntry(): Record -> bool {
    (r: Record) => Sets(r.kind)
  }

  lemma {:induction false} BumpSum(entries: seq<Entry>, k: Kind)
    ensures Sum(CountIn(), Bump(entries, k)) == Sum(CountIn(), entries) + if Sets(k) then 1 else 0
  {
    if !k.Proto? {
      var at := FindKind(entries, k);
      if at.Some? {
        SumUpdate(CountIn(), entries, at.value, Entry(k, PlusOne(entries[at.value].count)));
      } else {
        var e := Entry(k, if k.Inherited? then Text(1) else Number(1));
        assert (entries + [e])[..|entries|] == entries;
      }
    }
  }

  /** What the entries hold, as numbers or as ones at the end of a
      text, adds up to the records whose kind can be set. */
  lemma {:induction false} CountsSum(rows: seq<Record>)
    ensures Sum(CountIn(), Tally(rows)) == Count(HasEntry(), rows)
  {
    if rows == [] {
      assert Tally(rows) == [];
    } else {
      var n := |rows| - 1;
      assert rows == rows[..n] + [rows[n]];
      CountsSum(rows[..n]);
      TallyStep(rows[..n], rows[n]);
      BumpSum(Tally(rows[..n]), rows[n].kind);
      hide Tally, Bump;
    }
  }

  lemma {:induction false} CountAtMost(p: Record -> bool, rows: seq<Record>)
    ensures Count(p, rows) <= |rows|
    ensures Count(p, rows) == |rows| <==> forall i :: 0 <= i < |rows| ==> p(rows[i])
  {
    if rows != [] {
      var n := |rows| - 1;
      assert rows == rows[..n] + [rows[n]];
      CountAtMost(p, rows[..n]);
      if Count(p, rows) == |rows| {
        forall i | 0 <= i < |rows| ensures p(rows[i]) {
          assert i < n ==> rows[..n][i] == rows[i];
        }
      }
    }
  }

  predicate AllPlain(rows: seq<Record>) {
    forall i :: 0 <= i < |rows| ==> rows[i].kind.Plain?
  }

  lemma {:induction false} PlainTally(rows: seq<Record>)
    requires AllPlain(rows)
    ensures forall e :: e in Tally(rows) ==> e.kind.Plain? && e.count.Number? && 0 <= e.count.n <= |rows|
    ensures Sum(CountIn(), Tally(rows)) == |rows|
  {
    CountsSum(rows);
    CountAtMost(HasEntry(), rows);
    KindsContents(rows);
    TallyAt(rows);
    hide Tally, Kinds, Count, Sum;
    forall e | e in Tally(rows) ensures e.kind.Plain? && e.count.Number? && 0 <= e.count.n <= |rows| {
      var i :| 0 <= i < |Tally(rows)| && Tally(rows)[i] == e;
      assert e == CountOf(rows)(e.kind) && e.kind in Kinds(rows);
      var j :| 0 <= j < |rows| && MapSeq(KindOf(), rows)[j] == e.kind;
      assert rows[j].kind.Plain?;
      CountAtMost(OfKind(e.kind), rows);
    }
  }

  /** With a kind named like an inherited property, an entry is text or the counts fall short of the total. */
  lemma {:induction false} UnplainTally(rows: seq<Record>, i: nat)
    requires i < |rows| && !rows[i].kind.Plain?
    ensures !AllValid(Tally(rows)) || Sum(CountIn(), Tally(rows)) < |rows|
  {
    CountsSum(rows);
    CountAtMost(HasEntry(), rows);
    KindsContents(rows);
    TallyAt(rows);
    hide Tally, Kinds, Count, Sum;
    if rows[i].kind.Inherited? {
      assert MapSeq(KindOf(), rows)[i] == rows[i].kind;
      assert rows[i].kind in Kinds(rows);
      var j :| 0 <= j < |Kinds(rows)| && Kinds(rows)[j] == rows[i].kind;
      assert Tally(rows)[j].count.Text?;
    }
  }

  lemma {:induction false} SameEntriesSameChecks(xs: seq<Entry>, ys: seq<Entry>)
    requires multiset(xs) == multiset(ys)
    ensures AllValid(xs) ==> AllValid(ys)
    ensures Sum(CountIn(), xs) == Sum(CountIn(), ys)
  {
    SumPermutation(CountIn(), xs, ys);
    hide Sum;
    if AllValid(xs) {
      forall i | 0 <= i < |ys| ensures ys[i].kind.Blank? || ValidCount(ys[i].count) {
        assert ys[i] in multiset(xs);
        var j :| 0 <= j < |xs| && xs[j] == ys[i];
      }
    }
  }

  lemma {:induction false} BuiltNumbersFit(o: Orders, rows: seq<Record>, limit: nat, offset: nat)
    requires 0 < limit <= MAX_SAFE && Safe(offset) && |rows| <= MAX_SAFE
    ensures NumbersFit(SummaryOf(o, rows, limit, offset), |Page(rows, limit, offset)|)
  {
    hide SortedCounts;
  }

  /** The counts of a build are numbers that add up to its records exactly when every kind is plain. */
  lemma {:induction false} CountsAddUpIff(o: Orders, rows: seq<Record>)
    requires |rows| <= MAX_SAFE
    ensures AllValid(SortedCounts(o, rows)) && Sum(CountIn(), SortedCounts(o, rows)) == |rows| <==> AllPlain(rows)
  {
    var tally, counts := Tally(rows), SortedCounts(o, rows);
    SameEntriesSameChecks(tally, counts);
    SameEntriesSameChecks(counts, tally);
    if AllPlain(rows) {
      PlainTally(rows);
      hide StableSort, Tally, Sum, AllPlain;
      assert forall i :: 0 <= i < |tally| ==> tally[i] in tally;
    } else {
      var i :| 0 <= i < |rows| && !rows[i].kind.Plain?;
      UnplainTally(rows, i);
      hide StableSort, Tally, Sum, AllPlain;
    }
  }

  /** The check of a built summary succeeds exactly for plain kinds. */
  lemma {:induction false} BuiltSummaryChecks(o: Orders, rows: seq<Record>, limit: nat, offset: nat)
    requires 0 < limit <= MAX_SAFE && Safe(offset) && |rows| <= MAX_SAFE
    ensures var s := SummaryOf(o, rows, limit, offset);
      CheckedSummary(s, |Page(rows, limit, offset)|) == if AllPlain(rows) then Some(DigestOf(s)) else None
  {
    BuiltNumbersFit(o, rows, limit, offset);
    CountsAddUpIff(o, rows);
    hide StableSort, Sum, SortedCounts, AllPlain, Page, NumbersFit, AllValid, TableOf;
  }

  lemma {:induction false} ArrangedContents(o: Orders, records: seq<RecordInput>, i: nat)
    requires i < |records|
    ensures |Arranged(o, records)| == |records|
    ensures exists j :: 0 <= j < |records| && Arranged(o, records)[i] == Normal(o)(records[j])
  {
    var all := MapSeq(Normal(o), records);
    StableSortContents(RecordOrder(o), all);
    hide StableSort, Normal;
    assert Arranged(o, records)[i] in all;
    var j :| 0 <= j < |all| && all[j] == Arranged(o, records)[i];
    assert all[j] == Normal(o)(records[j]);
  }

  lemma {:induction false} ArrangedLength(o: Orders, records: seq<RecordInput>)
    ensures |Arranged(o, records)| == |records|
  {
    hide StableSort;
  }

  lemma {:induction false} ResentOne(o: Orders, records: seq<RecordInput>, i: nat)
    requires Collations(o) && AllAcceptable(records) && i < |records|
    ensures |Arranged(o, records)| == |records|
    ensures var r := Arranged(o, records)[i]; Acceptable(Resent()(r)) && Normal(o)(Resent()(r)) == r
  {
    ArrangedContents(o, records, i);
    hide Normal, Resent, Arranged, Collations, Acceptable;
    var j :| 0 <= j < |records| && Arranged(o, records)[i] == Normal(o)(records[j]);
    NormalAgain(o, records[j]);
  }

  lemma {:induction false} PageSorted(o: Orders, records: seq<RecordInput>, limit: nat, offset: nat)
    requires Collations(o)
    ensures Sorted(RecordOrder(o), Page(Arranged(o, records), limit, offset))
  {
    RecordOrderTotal(o);
    StableSortSorted(RecordOrder(o), MapSeq(Normal(o), records));
    hide Normal, StableSort, RecordOrder, Collations;
  }

  /** Sending normalised records again, as a built lineage does, gives the same records in the same order. */
  lemma {:induction false} ResentPage(o: Orders, records: seq<RecordInput>, limit: nat, offset: nat)
    requires Collations(o) && AllAcceptable(records)
    ensures var page := Page(Arranged(o, records), limit, offset); var sent := MapSeq(Resent(), page);
      AllAcceptable(sent) && MapSeq(Normal(o), sent) == page && Sorted(RecordOrder(o), page)
  {
    hide Normal, Resent, Acceptable, Arranged, RecordOrder, Sorted, Collations;
    PageSorted(o, records, limit, offset);
    var rows := Arranged(o, records);
    ArrangedLength(o, records);
    var page := Page(rows, limit, offset);
    forall i | 0 <= i < |page| ensures Acceptable(Resent()(page[i])) && Normal(o)(Resent()(page[i])) == page[i] {
      ResentOne(o, records, Min(offset, |rows|) + i);
    }
    hide *;
    SentBack(o, page);
  }

  lemma {:induction false} SentBack(o: Orders, page: seq<Record>)
    requires forall i :: 0 <= i < |page| ==> Acceptable(Resent()(page[i])) && Normal(o)(Resent()(page[i])) == page[i]
    ensures AllAcceptable(MapSeq(Resent(), page)) && MapSeq(Normal(o), MapSeq(Resent(), page)) == page
  {
    hide Normal, Resent, Acceptable;
    var sent := MapSeq(Resent(), page);
    assert forall i :: 0 <= i < |page| ==> sent[i] == Resent()(page[i]);
  }

  /** The verdict on a built lineage, for every filter, limit and offset: it is accepted exactly when no record's kind
      is the name of a property that plain objects inherit; otherwise its own summary contradicts it. */
  lemma {:induction false} VerifyAcceptsBuiltIff(o: Orders, tenant: Option<Name>, filters: int,
      records: seq<RecordInput>, limit: int, offset: int)
    requires Collations(o) && |records| <= MAX_SAFE
    ensures var b := Build(o, tenant, filters, records, limit, offset);
      b.Success? ==> VerdictOn(o, b.value) == if AllPlain(Arranged(o, records)) then Verified else SummaryInvalid
  {
    if Build(o, tenant, filters, records, limit, offset).Success? {
      var rows := Arranged(o, records);
      ResentPage(o, records, limit, offset);
      BuiltSummaryChecks(o, rows, limit, offset);
      hide Arranged, Collations, CheckedSummary, SummaryOf, AllPlain, AllAcceptable, Sorted, Normal, Resent, Page,
        RecordOrder;
    }
  }

  /** Verified lineages with one hash have the same tenant, filters, normalised records and page, and their count
      objects give the same table: of keys that trim alike the last count is what agrees. */
  lemma {:induction false} SameHashSameContent(o: Orders, l: Lineage, m: Lineage)
    requires VerdictOn(o, l) == Verified && VerdictOn(o, m) == Verified && l.hash == m.hash
    ensures l.tenant == m.tenant && l.filters == m.filters
      && MapSeq(Normal(o), l.records) == MapSeq(Normal(o), m.records)
    ensures DigestOf(l.summary) == DigestOf(m.summary)
  {
    hide TableOf, Sum, Normal, Sorted;
  }

  /** No two keys trim alike; blank keys and `__proto__` set nothing and do not matter. */
  ghost predicate DistinctKinds(entries: seq<Entry>) {
    forall i, j :: 0 <= i < j < |entries| && Sets(entries[i].kind) ==> entries[i].kind != entries[j].kind
  }

  /** The table holds the last count of each kind. */
  lemma {:induction false} TableHoldsLast(entries: seq<Entry>, k: Kind)
    ensures k in TableOf(entries) <==> Sets(k) && FindKind(entries, k).Some?
    ensures k in TableOf(entries) ==> TableOf(entries)[k] == entries[FindKind(entries, k).value].count
  {
    if entries != [] {
      TableHoldsLast(entries[..|entries| - 1], k);
    }
  }

  lemma {:induction false} DistinctKindsKept(entries: seq<Entry>, e: Entry)
    requires DistinctKinds(entries) && Sets(e.kind)
    ensures e in entries <==> e.kind in TableOf(entries) && TableOf(entries)[e.kind] == e.count
  {
    TableHoldsLast(entries, e.kind);
    hide TableOf;
    var at := FindKind(entries, e.kind);
    if e in entries {
      var i :| 0 <= i < |entries| && entries[i] == e;
      FindKindNone(entries, e.kind, i);
      assert at.value == i;
    }
    if at.Some? && entries[at.value].count == e.count {
      assert entries[at.value] == e;
    }
  }

  /** So their counts agree as they were sent when in both no two keys trim alike. */
  lemma {:induction false} SameHashSameCounts(o: Orders, l: Lineage, m: Lineage, e: Entry)
    requires VerdictOn(o, l) == Verified && VerdictOn(o, m) == Verified && l.hash == m.hash
    requires DistinctKinds(l.summary.kindCounts) && DistinctKinds(m.summary.kindCounts) && Sets(e.kind)
    ensures e in l.summary.kindCounts <==> e in m.summary.kindCounts
  {
    SameHashSameContent(o, l, m);
    hide TableOf, VerdictOn, DistinctKinds;
    DistinctKindsKept(l.summary.kindCounts, e);
    DistinctKindsKept(m.summary.kindCounts, e);
  }

  /** A page of no records of a total of 4, with a hash of its summary. */
  function EmptyPage(counts: seq<Entry>): Lineage {
    var s := Summary(4, 0, 1, 0, true, counts);
    Lineage(true, Some(Name(0)), 0, s, [], Some(HashOf(Name(0), 0, DigestOf(s), [])))
  }

  lemma {:induction false} EmptyPageVerified(o: Orders, counts: seq<Entry>)
    requires AllValid(counts) && Sum(CountIn(), counts) == 4
    ensures VerdictOn(o, EmptyPage(counts)) == Verified
  {
    hide Sum, TableOf;
    assert MapSeq(Normal(o), []) == [];
  }

  /** Otherwise they need not agree: with keys that all trim to one kind,
      the counts 1, 1, 2 and the counts 2, 2 verify under one hash. */
  lemma {:induction false} SameHashDifferentCounts(o: Orders)
    ensures var a := Plain(0);
      var l := EmptyPage([Entry(a, Number(1)), Entry(a, Number(1)), Entry(a, Number(2))]);
      var m := EmptyPage([Entry(a, Number(2)), Entry(a, Number(2))]);
      && VerdictOn(o, l) == Verified && VerdictOn(o, m) == Verified && l.hash == m.hash
      && Entry(a, Number(1)) in l.summary.kindCounts && Entry(a, Number(1)) !in m.summary.kindCounts
  {
    var one, two := Entry(Plain(0), Number(1)), Entry(Plain(0), Number(2));
    assert [one, one, two][..2] == [one, one] && [one, one][..1] == [one] && [one][..0] == [];
    assert [two, two][..1] == [two] && [two][..0] == [];
    assert Sum(CountIn(), [one]) == 1 && Sum(CountIn(), [one, one]) == 2 && Sum(CountIn(), [two]) == 2;
    assert TableOf([one]) == map[Plain(0) := Number(1)] == TableOf([one, one]);
    assert TableOf([two]) == map[Plain(0) := Number(2)];
    assert TableOf([one, one, two]) == map[Plain(0) := Number(2)] == TableOf([two, two]);
    assert Sum(CountIn(), [one, one, two]) == 4 == Sum(CountIn(), [two, two]);
    hide Sum, TableOf, VerdictOn;
    EmptyPageVerified(o, [one, one, two]);
    EmptyPageVerified(o, [two, two]);
  }

  // ----- what a verified table adds up to -----

  /** The sum of a table's numbers. */
  ghost function TableSum(table: map<Kind, CountValue>): int
    decreases |table|
  {
    if table == map[] then 0
    else
      var k :| k in table;
      NumberIn(table[k]) + TableSum(table - {k})
  }

  function NumberIn(v: CountValue): int {
    match v case Number(n) => n case Text(ones) => ones
  }

  lemma {:induction false} TableSumWithout(table: map<Kind, CountValue>, k: Kind)
    requires k in table
    ensures TableSum(table) == NumberIn(table[k]) + TableSum(table - {k})
    decreases |table|
  {
    var p :| p in table && TableSum(table) == NumberIn(table[p]) + TableSum(table - {p});
    if p != k {
      TableSumWithout(table - {p}, k);
      TableSumWithout(table - {k}, p);
      assert table - {p} - {k} == table - {k} - {p};
    }
  }

  lemma {:induction false} TableSumUpdated(table: map<Kind, CountValue>, k: Kind, v: CountValue)
    ensures TableSum(table[k := v]) == TableSum(table) + NumberIn(v) - if k in table then NumberIn(table[k]) else 0
  {
    TableSumWithout(table[k := v], k);
    assert table[k := v] - {k} == table - {k};
    if k in table {
      TableSumWithout(table, k);
    } else {
      assert table - {k} == table;
    }
  }

  /** What is counted into the total without reaching the table: overwritten counts, and those under `__proto__`. */
  function Lost(entries: seq<Entry>): int {
    if entries == [] then 0
    else
      var front, e := entries[..|entries| - 1], entries[|entries| - 1];
      Lost(front) + if e.kind.Proto? then NumberIn(e.count)
                    else if e.kind in TableOf(front) then NumberIn(TableOf(front)[e.kind]) else 0
  }

  lemma {:induction false} TableSumsToRest(entries: seq<Entry>)
    ensures TableSum(TableOf(entries)) == Sum(CountIn(), entries) - Lost(entries)
  {
    if entries == [] {
      assert TableSum(map[]) == 0;
    } else {
      var front, e := entries[..|entries| - 1], entries[|entries| - 1];
      TableSumsToRest(front);
      hide TableSum;
      if Sets(e.kind) {
        TableSumUpdated(TableOf(front), e.kind, e.count);
      } else if e.kind.Blank? {
        TableHoldsLast(front, e.kind);
      }
    }
  }

  /** Every count that is overwritten, or stands under `__proto__`, is zero. */
  ghost predicate NothingLost(entries: seq<Entry>) {
    && (forall i, j :: 0 <= i < j < |entries| && Sets(entries[i].kind) && entries[i].kind == entries[j].kind ==>
      NumberIn(entries[i].count) == 0)
    && (forall i :: 0 <= i < |entries| && entries[i].kind.Proto? ==> NumberIn(entries[i].count) == 0)
  }

  lemma {:induction false} LostIsZeroIff(entries: seq<Entry>)
    requires AllValid(entries)
    ensures Lost(entries) >= 0 && (Lost(entries) == 0 <==> NothingLost(entries))
  {
    if entries != [] {
      var n := |entries| - 1;
      var front, e := entries[..n], entries[n];
      assert AllValid(front);
      LostIsZeroIff(front);
      LostStep(front, e);
      assert entries == front + [e];
    }
  }

  lemma {:induction false} LostStep(front: seq<Entry>, e: Entry)
    requires AllValid(front + [e]) && Lost(front) >= 0 && (Lost(front) == 0 <==> NothingLost(front))
    ensures Lost(front + [e]) >= 0 && (Lost(front + [e]) == 0 <==> NothingLost(front + [e]))
  {
    var all, at := front + [e], FindKind(front, e.kind);
    assert all[..|front|] == front && all[|front|] == e;
    TableHoldsLast(front, e.kind);
    assert forall i :: 0 <= i < |front| ==> all[i] == front[i];
    if Sets(e.kind) && at.Some? {
      assert all[at.value] == front[at.value] && ValidCount(front[at.value].count);
    }
    hide TableOf;
    forall i | 0 <= i < |front| && front[i].kind == e.kind ensures at.Some? && i <= at.value {
      FoundLast(front, e.kind, i);
    }
  }

  lemma {:induction false} FoundLast(entries: seq<Entry>, k: Kind, i: nat)
    requires i < |entries| && entries[i].kind == k
    ensures FindKind(entries, k).Some? && i <= FindKind(entries, k).value
    decreases |entries|
  {
    if i < |entries| - 1 {
      FoundLast(entries[..|entries| - 1], k, i);
    }
  }

  /** In a verified lineage the hashed counts add up to the total exactly when every overwritten count is zero. */
  lemma {:induction false} VerifiedCountsAddUpIff(o: Orders, l: Lineage)
    requires VerdictOn(o, l) == Verified
    ensures TableSum(DigestOf(l.summary).table) == l.summary.total <==> NothingLost(l.summary.kindCounts)
  {
    TableSumsToRest(l.summary.kindCounts);
    LostIsZeroIff(l.summary.kindCounts);
    hide TableSum, TableOf, Sum, Lost, NothingLost, Normal, Sorted;
  }

  /** In terms of the records sent. */
  lemma {:induction false} ArrangedPlain(o: Orders, records: seq<RecordInput>)
    requires AllAcceptable(records)
    ensures AllPlain(Arranged(o, records)) <==> forall i :: 0 <= i < |records| ==> records[i].kind.Plain?
  {
    var rows, all := Arranged(o, records), MapSeq(Normal(o), records);
    StableSortContents(RecordOrder(o), all);
    hide StableSort;
    if AllPlain(rows) {
      forall i | 0 <= i < |records| ensures records[i].kind.Plain? {
        assert all[i] in rows && all[i].kind == records[i].kind;
        var j :| 0 <= j < |rows| && rows[j] == all[i];
      }
    }
    if forall i :: 0 <= i < |records| ==> records[i].kind.Plain? {
      forall i | 0 <= i < |rows| ensures rows[i].kind.Plain? {
        assert rows[i] in all;
        var j :| 0 <= j < |all| && all[j] == rows[i];
        assert all[j].kind == records[j].kind;
      }
    }
  }

  // ----- pages -----

  function Total(limits: seq<nat>): nat {
    if limits == [] then 0 else limits[0] + Total(limits[1..])
  }

  predicate AllPositive(limits: seq<nat>) {
    limits != [] ==> limits[0] > 0 && AllPositive(limits[1..])
  }

  /** The records of consecutive builds over the same input, each starting where the one before it ended. */
  function ConsecutivePages(o: Orders, tenant: Option<Name>, filters: int, records: seq<RecordInput>, offset: nat,
      limits: seq<nat>): seq<RecordInput>
    decreases |limits|
  {
    if limits == [] then []
    else
      var b := Build(o, tenant, filters, records, limits[0], offset);
      (if b.Success? then b.value.records else [])
        + ConsecutivePages(o, tenant, filters, records, offset + limits[0], limits[1..])
  }

  /** The `n` records from `offset` on, as far as there are any. */
  function Stretch(all: seq<RecordInput>, offset: nat, n: nat): seq<RecordInput> {
    all[Min(offset, |all|)..Min(offset + n, |all|)]
  }

  lemma {:induction false} BuiltRecords(o: Orders, tenant: Option<Name>, filters: int, records: seq<RecordInput>,
      limit: nat, offset: nat)
    requires tenant.Some? && AllAcceptable(records) && 0 < limit && offset + limit <= MAX_SAFE
    ensures var b := Build(o, tenant, filters, records, limit, offset);
      var all := MapSeq(Resent(), Arranged(o, records));
      && b.Success? && b.value.records == Stretch(all, offset, limit)
      && (b.value.summary.hasMore <==> |all| > offset + limit)
  {
    hide Arranged, Resent, SortedCounts, DigestOf, AllAcceptable;
    var rows := Arranged(o, records);
    assert MapSeq(Resent(), Page(rows, limit, offset))
      == MapSeq(Resent(), rows)[Min(offset, |rows|)..Min(offset + limit, |rows|)];
  }

  lemma {:induction false} StretchesJoin(all: seq<RecordInput>, offset: nat, n: nat, m: nat)
    ensures Stretch(all, offset, n) + Stretch(all, offset + n, m) == Stretch(all, offset, n + m)
    ensures Stretch(all, offset, 0) == []
    ensures n >= |all| ==> Stretch(all, 0, n) == all
  {
    var a, b, c := Min(offset, |all|), Min(offset + n, |all|), Min(offset + n + m, |all|);
    assert all[a..b] + all[b..c] == all[a..c];
  }

  /** Consecutive pages concatenate to the stretch of the whole sorted list they span. */
  lemma {:induction false} PagesConcatenate(o: Orders, tenant: Option<Name>, filters: int, records: seq<RecordInput>,
      offset: nat, limits: seq<nat>)
    requires tenant.Some? && AllAcceptable(records) && AllPositive(limits) && offset + Total(limits) <= MAX_SAFE
    ensures ConsecutivePages(o, tenant, filters, records, offset, limits)
      == Stretch(MapSeq(Resent(), Arranged(o, records)), offset, Total(limits))
    decreases |limits|
  {
    hide Build, Arranged, AllAcceptable, Resent, Stretch, ConsecutivePages;
    var all := MapSeq(Resent(), Arranged(o, records));
    PagesUnfold(o, tenant, filters, records, offset, limits);
    if limits == [] {
      StretchesJoin(all, offset, 0, 0);
    } else {
      var first, rest := limits[0], limits[1..];
      BuiltRecords(o, tenant, filters, records, first, offset);
      PagesConcatenate(o, tenant, filters, records, offset + first, rest);
      StretchesJoin(all, offset, first, Total(rest));
    }
  }

  lemma {:induction false} PagesUnfold(o: Orders, tenant: Option<Name>, filters: int, records: seq<RecordInput>,
      offset: nat, limits: seq<nat>)
    ensures limits == [] ==> ConsecutivePages(o, tenant, filters, records, offset, limits) == []
    ensures limits != [] && Build(o, tenant, filters, records, limits[0], offset).Success? ==>
      ConsecutivePages(o, tenant, filters, records, offset, limits)
        == Build(o, tenant, filters, records, limits[0], offset).value.records
         + ConsecutivePages(o, tenant, filters, records, offset + limits[0], limits[1..])
  {
    hide Build;
  }

  /** Pages from the start that span everything are everything, in order, once. */
  lemma {:induction false} PagesAreWhole(o: Orders, tenant: Option<Name>, filters: int, records: seq<RecordInput>,
      limits: seq<nat>)
    requires tenant.Some? && AllAcceptable(records) && AllPositive(limits)
    requires |records| <= Total(limits) <= MAX_SAFE
    ensures ConsecutivePages(o, tenant, filters, records, 0, limits) == MapSeq(Resent(), Arranged(o, records))
  {
    hide Build, AllAcceptable, Resent, Stretch, ConsecutivePages;
    PagesConcatenate(o, tenant, filters, records, 0, limits);
    StretchesJoin(MapSeq(Resent(), Arranged(o, records)), 0, Total(limits), 0);
  }

  // ----- input order -----

  /** What records are sorted by. */
  function SortKey(r: Record): (int, Kind, Name) {
    (AtMs(r), r.kind, r.recordId)
  }

  ghost predicate DistinctKeys(rows: seq<Record>) {
    forall i, j :: 0 <= i < j < |rows| ==> SortKey(rows[i]) != SortKey(rows[j])
  }

  /** Collation tells different strings apart. */
  ghost predicate Discerning(o: Orders) {
    && (forall a, b :: o.kinds(a, b) && o.kinds(b, a) ==> a == b)
    && (forall a, b :: o.names(a, b) && o.names(b, a) ==> a == b)
  }

  lemma {:induction false} TiesShareKeys(o: Orders, a: Record, b: Record)
    requires Discerning(o) && Collations(o) && RecordOrder(o)(a, b) && RecordOrder(o)(b, a)
    ensures SortKey(a) == SortKey(b)
  {
  }

  lemma {:induction false} KeysArranged(rows: seq<Record>, sorted: seq<Record>, a: Record, b: Record)
    requires DistinctKeys(rows) && multiset(rows) == multiset(sorted) && a in sorted && b in sorted
      && SortKey(a) == SortKey(b)
    ensures a == b
  {
    assert a in multiset(rows) && b in multiset(rows);
    var i :| 0 <= i < |rows| && rows[i] == a;
    var j :| 0 <= j < |rows| && rows[j] == b;
  }

  /** Records with distinct keys are arranged alike from every input order. */
  lemma {:induction false} ArrangedAlike(o: Orders, xs: seq<RecordInput>, ys: seq<RecordInput>)
    requires Collations(o) && Discerning(o) && multiset(xs) == multiset(ys) && DistinctKeys(MapSeq(Normal(o), xs))
    ensures Arranged(o, xs) == Arranged(o, ys)
  {
    var ps, qs := MapSeq(Normal(o), xs), MapSeq(Normal(o), ys);
    MapPermutation(Normal(o), xs, ys);
    RecordOrderTotal(o);
    StableSortSorted(RecordOrder(o), ps);
    StableSortSorted(RecordOrder(o), qs);
    var leq, sorted, other := RecordOrder(o), Arranged(o, xs), Arranged(o, ys);
    assert multiset(sorted) == multiset(ps) && multiset(other) == multiset(qs);
    hide Normal, StableSort, Arranged, Sorted;
    forall a, b | a in sorted && b in sorted && leq(a, b) && leq(b, a) ensures a == b {
      TiesShareKeys(o, a, b);
      KeysArranged(ps, sorted, a, b);
    }
    hide RecordOrder, DistinctKeys, Collations, Discerning;
    SortedUnique(leq, sorted, other);
  }

  lemma {:induction false} AcceptableAlike(xs: seq<RecordInput>, ys: seq<RecordInput>)
    requires multiset(xs) == multiset(ys) && AllAcceptable(xs)
    ensures AllAcceptable(ys)
  {
    forall i | 0 <= i < |ys| ensures Acceptable(ys[i]) {
      assert ys[i] in multiset(xs);
      var j :| 0 <= j < |xs| && xs[j] == ys[i];
    }
  }

  /** The whole built lineage, its hash included, does not depend on the order of the input when the times, kinds and
      record ids together are distinct. */
  lemma {:induction false} InputOrderIrrelevant(o: Orders, tenant: Option<Name>, filters: int, xs: seq<RecordInput>,
      ys: seq<RecordInput>, limit: int, offset: int)
    requires Collations(o) && Discerning(o) && multiset(xs) == multiset(ys) && DistinctKeys(MapSeq(Normal(o), xs))
    ensures Build(o, tenant, filters, xs, limit, offset) == Build(o, tenant, filters, ys, limit, offset)
  {
    hide Arranged, Built, Normal, Collations, Discerning, DistinctKeys, AllAcceptable;
    ArrangedAlike(o, xs, ys);
    if AllAcceptable(xs) {
      AcceptableAlike(xs, ys);
    }
    if AllAcceptable(ys) {
      AcceptableAlike(ys, xs);
    }
  }

  // ----- the order and the contents of what is built and verified -----

  /** `a` is listed before `b`: it is newer, a missing time standing for the millisecond before the epoch; or of the
      same time and of an earlier kind; or of the same time and alike kinds and with an earlier id. */
  predicate ListedBefore(o: Orders, a: Record, b: Record) {
    var s, t := if a.at.Some? then a.at.value else -1, if b.at.Some? then b.at.value else -1;
    && s >= t
    && (s == t ==> o.kinds(a.kind, b.kind))
    && (s == t && o.kinds(b.kind, a.kind) ==> o.names(a.recordId, b.recordId))
  }

  ghost predicate NewestFirst(o: Orders, rows: seq<Record>) {
    forall i, j :: 0 <= i < j < |rows| ==> ListedBefore(o, rows[i], rows[j])
  }

  lemma {:induction false} OrderIsListing(o: Orders, a: Record, b: Record)
    requires Collations(o)
    ensures RecordOrder(o)(a, b) <==> ListedBefore(o, a, b)
  {
    KindsChain(o, a.kind, b.kind, a.kind);
  }

  lemma {:induction false} SortedIsNewestFirst(o: Orders, rows: seq<Record>)
    requires Collations(o)
    ensures Sorted(RecordOrder(o), rows) <==> NewestFirst(o, rows)
  {
    forall i, j | 0 <= i < j < |rows|
      ensures RecordOrder(o)(rows[i], rows[j]) <==> ListedBefore(o, rows[i], rows[j])
    {
      OrderIsListing(o, rows[i], rows[j]);
    }
    hide RecordOrder, ListedBefore, Collations;
  }

  /** A record as it is kept: its fields, the time if there is one, and its trace and agent ids, each listed once and in
      collation order. */
  ghost predicate KeptAs(o: Orders, r: RecordInput, n: Record) {
    && n.kind == r.kind && Some(n.recordId) == r.recordId && n.status == r.status && n.refs == r.refs
    && n.at == (if r.at.At? then Some(r.at.ms) else None)
    && ListsNames(o, r.traceIds, n.traceIds) && ListsNames(o, r.agentIds, n.agentIds)
  }

  ghost predicate ListsNames(o: Orders, items: seq<Option<Name>>, names: seq<Name>) {
    Distinct(names) && Sorted(o.names, names) && forall x :: x in names <==> Some(x) in items
  }

  lemma {:induction false} NormalNamesList(o: Orders, items: seq<Option<Name>>)
    requires TotalPreorder(o.names)
    ensures ListsNames(o, items, NormalNames(o, items))
  {
    var names := Dedup(Somes(items));
    DedupContents(Somes(items));
    StableSortSorted(o.names, names);
    StableSortContents(o.names, names);
    PermutationKeepsDistinct(names, NormalNames(o, items));
    forall x ensures x in NormalNames(o, items) <==> Some(x) in items {
      SomesContents(items, x);
    }
  }

  lemma {:induction false} NormalIs(o: Orders, r: RecordInput)
    requires Collations(o) && Acceptable(r)
    ensures KeptAs(o, r, Normal(o)(r))
  {
    NormalNamesList(o, r.traceIds);
    NormalNamesList(o, r.agentIds);
    hide NormalNames, ListsNames;
  }

  /** The arranged records are the records sent, normalised, newest first. */
  lemma {:induction false} ArrangedNewestFirst(o: Orders, records: seq<RecordInput>)
    requires Collations(o) && AllAcceptable(records)
    ensures NewestFirst(o, Arranged(o, records))
    ensures multiset(Arranged(o, records)) == multiset(MapSeq(Normal(o), records))
    ensures forall i :: 0 <= i < |records| ==> KeptAs(o, records[i], MapSeq(Normal(o), records)[i])
  {
    RecordOrderTotal(o);
    StableSortSorted(RecordOrder(o), MapSeq(Normal(o), records));
    SortedIsNewestFirst(o, Arranged(o, records));
    forall i | 0 <= i < |records| ensures KeptAs(o, records[i], MapSeq(Normal(o), records)[i]) {
      NormalIs(o, records[i]);
    }
    hide RecordOrder, StableSort, Normal, KeptAs, Acceptable, Collations;
  }

  /** Exactly when a build succeeds, and the numbers of its summary. */
  lemma {:induction false} BuildSucceedsIff(o: Orders, tenant: Option<Name>, filters: int, records: seq<RecordInput>,
      limit: int, offset: int)
    ensures var b := Build(o, tenant, filters, records, limit, offset);
      && (b.Success? <==>
            && tenant.Some? && 1 <= limit <= 9007199254740991 && 0 <= offset <= 9007199254740991
            && forall r :: r in records ==> !r.kind.Blank? && r.recordId.Some? && !r.at.BadTime?)
      && (b.Success? ==>
            var s := b.value.summary;
            && b.value.tenant == tenant && b.value.filters == filters
            && s.total == |records| && s.limit == limit && s.offset == offset
            && s.returned == |b.value.records|
            && s.returned == (if offset >= |records| then 0 else Min(limit, |records| - offset))
            && (s.hasMore <==> |records| > offset + limit))
  {
    ArrangedLength(o, records);
    assert AllAcceptable(records) <==> forall r :: r in records ==> Acceptable(r);
    hide Arranged, Resent, SortedCounts, DigestOf, AllAcceptable;
  }

  /** What is counted for plain kinds: each kind of the records once, in collation order, with the number of its
      records. */
  lemma {:induction false} CountsPerKind(o: Orders, rows: seq<Record>)
    requires Collations(o) && AllPlain(rows)
    ensures var counts := SortedCounts(o, rows); var kinds := MapSeq((e: Entry) => e.kind, counts);
      && Distinct(kinds) && Sorted(o.kinds, kinds)
      && (forall k :: k in kinds <==> k in MapSeq((r: Record) => r.kind, rows))
      && (forall e :: e in counts ==> e.count == Number(Count((r: Record) => r.kind == e.kind, rows)))
  {
    var tally, counts := Tally(rows), SortedCounts(o, rows);
    EntryOrderTotal(o);
    StableSortSorted(EntryOrder(o), tally);
    StableSortContents(EntryOrder(o), tally);
    MapPermutation(KindIn(), tally, counts);
    TallyDistinct(rows);
    hide StableSort, Tally, Kinds, Count, TotalPreorder, CountOf, SortedCounts;
    PermutationKeepsDistinct(MapSeq(KindIn(), tally), MapSeq(KindIn(), counts));
    assert MapSeq((e: Entry) => e.kind, counts) == MapSeq(KindIn(), counts);
    assert MapSeq((r: Record) => r.kind, rows) == MapSeq(KindOf(), rows);
    forall i, j | 0 <= i < j < |counts| ensures o.kinds(counts[i].kind, counts[j].kind) {
      assert EntryOrder(o)(counts[i], counts[j]);
    }
    forall k ensures k in MapSeq(KindIn(), counts) <==> k in MapSeq(KindOf(), rows) {
      assert k in MapSeq(KindIn(), counts) <==> k in multiset(MapSeq(KindIn(), tally));
      PlainKinds(rows, k);
    }
    forall e | e in counts ensures e.count == Number(Count((r: Record) => r.kind == e.kind, rows)) {
      EntryCounts(rows, e);
    }
  }

  lemma {:induction false} EntryCounts(rows: seq<Record>, e: Entry)
    requires AllPlain(rows) && e in Tally(rows)
    ensures e.count == Number(Count((r: Record) => r.kind == e.kind, rows))
  {
    TallyAt(rows);
    hide Tally, Kinds, Count;
    var i :| 0 <= i < |Tally(rows)| && Tally(rows)[i] == e;
    assert e.kind in Kinds(rows);
    PlainKinds(rows, e.kind);
    SameKindCount(rows, e.kind);
  }

  function KindIn(): Entry -> Kind {
    (e: Entry) => e.kind
  }

  lemma {:induction false} EntryOrderTotal(o: Orders)
    requires TotalPreorder(o.kinds)
    ensures TotalPreorder(EntryOrder(o))
  {
    var leq := EntryOrder(o);
    forall a, b, c | leq(a, b) && leq(b, c) ensures leq(a, c) {
      assert o.kinds(a.kind, b.kind) && o.kinds(b.kind, c.kind) ==> o.kinds(a.kind, c.kind);
    }
    forall a, b ensures leq(a, b) || leq(b, a) {
      assert o.kinds(a.kind, b.kind) || o.kinds(b.kind, a.kind);
    }
  }

  lemma {:induction false} TallyDistinct(rows: seq<Record>)
    ensures MapSeq(KindIn(), Tally(rows)) == Kinds(rows) && Distinct(Kinds(rows))
  {
    TallyAt(rows);
    KindsContents(rows);
    hide Tally, Kinds, CountOf;
  }

  lemma {:induction false} PlainKinds(rows: seq<Record>, k: Kind)
    requires AllPlain(rows)
    ensures k in Kinds(rows) <==> k in MapSeq(KindOf(), rows)
    ensures k in Kinds(rows) ==> k.Plain?
  {
    KindsContents(rows);
    hide Kinds;
    if k in MapSeq(KindOf(), rows) {
      var i :| 0 <= i < |rows| && MapSeq(KindOf(), rows)[i] == k;
      assert rows[i].kind.Plain?;
    }
  }

  lemma {:induction false} SameKindCount(rows: seq<Record>, k: Kind)
    ensures Count(OfKind(k), rows) == Count((r: Record) => r.kind == k, rows)
  {
    if rows != [] {
      SameKindCount(rows[..|rows| - 1], k);
    }
  }

  /** What a verified lineage must be, whoever made its hash: acceptable records listed newest first, as many as the
      summary says, a total that is not less, counts that are safe numbers adding up to the total, more to come exactly
      when the total says so, and a hash of that very content. */
  lemma {:induction false} VerifiedIff(o: Orders, l: Lineage)
    requires Collations(o)
    ensures VerdictOn(o, l) == Verified <==>
      && l.schemaOk && l.tenant.Some? && AllAcceptable(l.records)
      && NewestFirst(o, MapSeq(Normal(o), l.records))
      && SummaryHolds(l.summary, |l.records|)
      && l.hash == Some(HashOf(l.tenant.value, l.filters, DigestOf(l.summary), MapSeq(Normal(o), l.records)))
  {
    SortedIsNewestFirst(o, MapSeq(Normal(o), l.records));
    SummaryHoldsIff(l.summary, |l.records|);
    hide Normal, Sorted, NewestFirst, AllAcceptable, DigestOf, SummaryHolds, NumbersFit, AllValid, Sum;
  }

  ghost predicate SummaryHolds(s: Summary, records: nat) {
    && 1 <= s.limit <= MAX_SAFE && 0 <= s.offset <= MAX_SAFE
    && records == s.returned <= s.total <= MAX_SAFE
    && (s.hasMore <==> s.total > s.offset + s.returned)
    && (forall e :: e in s.kindCounts && !e.kind.Blank? ==> e.count.Number? && 0 <= e.count.n <= MAX_SAFE)
    && s.total == Sum((e: Entry) => if !e.kind.Blank? && e.count.Number? then e.count.n else 0, s.kindCounts)
  }

  lemma {:induction false} SummaryHoldsIff(s: Summary, records: nat)
    ensures CheckedSummary(s, records) == if SummaryHolds(s, records) then Some(DigestOf(s)) else None
  {
    assert AllValid(s.kindCounts) <==>
      forall e :: e in s.kindCounts && !e.kind.Blank? ==> e.count.Number? && 0 <= e.count.n <= MAX_SAFE;
    if AllValid(s.kindCounts) {
      CountsAlike(s.kindCounts);
    }
    hide Sum, DigestOf, AllValid, CountIn;
  }

  lemma {:induction false} CountsAlike(entries: seq<Entry>)
    requires AllValid(entries)
    ensures Sum(CountIn(), entries)
      == Sum((e: Entry) => if !e.kind.Blank? && e.count.Number? then e.count.n else 0, entries)
  {
    if entries != [] {
      CountsAlike(entries[..|entries| - 1]);
    }
  }
}
