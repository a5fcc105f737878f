/** Emergency controls: activate and resume events folded into per-scope state, and the search that consults it. */
module Emergency {
  import opened Wrappers
  import opened Sequences
  import opened Ordering

  type Time = int

  datatype Tenant = Tenant(code: int)
  datatype Id = Id(code: int)

  datatype Scope = TenantScope | AgentScope(agentId: Id) | AdapterScope(adapterId: Id)

  datatype ControlType = KillSwitch | Pause | Quarantine | Revoke

  datatype Action = Activate(control: ControlType) | Resume

  /** `body` stands for the remaining fields of the event: reason, operator action and the like. */
  datatype Event = Event(eventId: Id, action: Action, scope: Scope, controlType: Option<ControlType>,
    resumeControlTypes: Option<seq<ControlType>>, effectiveAt: Option<Time>, createdAt: Option<Time>, body: int)

  datatype Stored = Stored(tenant: Tenant, eventId: Id, action: Action, scope: Scope, controlType: Option<ControlType>,
    resumeTypes: seq<ControlType>, effectiveAt: Time, createdAt: Time, body: int)

  datatype Key = Key(tenant: Tenant, scope: Scope, control: ControlType)

  datatype Control = Control(key: Key, active: bool, activatedAt: Option<Time>, resumedAt: Option<Time>,
      updatedAt: Time, lastEventId: Id, lastAction: Action, body: int, revision: nat)

  /** `order` is the insertion order in which the control table is iterated. */
  datatype State = State(events: map<(Tenant, Id), Stored>, controls: map<Key, Control>, order: seq<Key>)

  datatype Error = EventConflict

  const EMPTY: State := State(map[], map[], [])

  /** All control types in collation order. */
  const ALL_TYPES: seq<ControlType> := [KillSwitch, Pause, Quarantine, Revoke]

  /** Deduplicated and sorted: the listed types in collation order. */
  function NormalizeTypes(types: seq<ControlType>): seq<ControlType> {
    Filter((t: ControlType) => t in types, ALL_TYPES)
  }

  function Normalize(tenant: Tenant, ev: Event, recordAt: Time): Stored {
    var effectiveAt := ev.effectiveAt.GetOr(recordAt);
    var requested := ev.resumeControlTypes.OrElse(if ev.controlType.Some? then Some([ev.controlType.value]) else None);
    Stored(tenant, ev.eventId, ev.action, ev.scope,
      if ev.action.Resume? then ev.controlType else Some(ev.controlType.GetOr(ev.action.control)),
      if ev.action.Resume? then NormalizeTypes(requested.GetOr(ALL_TYPES)) else [],
      effectiveAt, ev.createdAt.GetOr(effectiveAt), ev.body)
  }

  function Affected(s: Stored): seq<ControlType> {
    if s.action.Resume? then s.resumeTypes else if s.controlType.Some? then [s.controlType.value] else []
  }

  function NextControl(existing: Option<Control>, s: Stored, t: ControlType): Control {
    var active := s.action.Activate?;
    Control(Key(s.tenant, s.scope, t), active,
      if active then Some(s.effectiveAt) else if existing.Some? then existing.value.activatedAt else None,
      if active then None else Some(s.effectiveAt),
      s.effectiveAt, s.eventId, s.action, s.body, if existing.Some? then existing.value.revision + 1 else 1)
  }

  function Lookup(st: State, k: Key): Option<Control> {
    if k in st.controls then Some(st.controls[k]) else None
  }

  function PutState(st: State, s: Stored, t: ControlType): State {
    var k := Key(s.tenant, s.scope, t);
    st.(controls := st.controls[k := NextControl(Lookup(st, k), s, t)],
        order := if k in st.controls then st.order else st.order + [k])
  }

  function PutAll(st: State, s: Stored, types: seq<ControlType>): State {
    if types == [] then st else PutState(PutAll(st, s, types[..|types| - 1]), s, types[|types| - 1])
  }

  function Accept(st: State, s: Stored): State {
    PutAll(st.(events := st.events[(s.tenant, s.eventId) := s]), s, Affected(s))
  }

  function Append(st: State, tenant: Tenant, ev: Event, recordAt: Time): Result<State, Error> {
    var s := Normalize(tenant, ev, recordAt);
    var k := (tenant, s.eventId);
    if k in st.events then
      if st.events[k] == s then Success(st) else Failure(EventConflict)
    else Success(Accept(st, s))
  }

  lemma {:induction false} PutOne(st: State, s: Stored, t: ControlType)
    ensures PutAll(st, s, [t]) == PutState(st, s, t)
  {
    assert [t][..0] == [];
  }

  /** The loop over the affected control types, row by row. */
  method RecordEvent(st: State, tenant: Tenant, ev: Event, recordAt: Time) returns (r: Result<State, Error>)
    ensures r == Append(st, tenant, ev, recordAt)
  {
    var s := Normalize(tenant, ev, recordAt);
    if (tenant, s.eventId) in st.events {
      if st.events[(tenant, s.eventId)] != s {
        return Failure(EventConflict);
      }
      return Success(st);
    }
    var next := st.(events := st.events[(tenant, s.eventId) := s]);
    if s.action.Resume? {
      ghost var start := next;
      for i := 0 to |s.resumeTypes|
        invariant next == PutAll(start, s, s.resumeTypes[..i])
      {
        PrefixStep(s.resumeTypes, i);
        next := PutState(next, s, s.resumeTypes[i]);
      }
      assert s.resumeTypes[..|s.resumeTypes|] == s.resumeTypes;
    } else {
      PutOne(next, s, s.controlType.value);
      next := PutState(next, s, s.controlType.value);
    }
    r := Success(next);
  }

  // ----- what the table says about a whole history -----

  datatype Delivery = Delivery(tenant: Tenant, event: Event, recordAt: Time)

  /** A conflicting delivery is refused before anything changes. */
  function Deliver(st: State, d: Delivery): State {
    var r := Append(st, d.tenant, d.event, d.recordAt);
    if r.Success? then r.value else st
  }

  function DeliverAll(ds: seq<Delivery>): State {
    if ds == [] then EMPTY else Deliver(DeliverAll(ds[..|ds| - 1]), ds[|ds| - 1])
  }

  /** The distinct accepted events, in order. */
  function Accepted(ds: seq<Delivery>): seq<Stored> {
    if ds == [] then []
    else
      var d := ds[|ds| - 1];
      var s := Normalize(d.tenant, d.event, d.recordAt);
      Accepted(ds[..|ds| - 1]) + if (d.tenant, s.eventId) in DeliverAll(ds[..|ds| - 1]).events then [] else [s]
  }

  function Touching(k: Key): Stored -> bool {
    (s: Stored) => s.tenant == k.tenant && s.scope == k.scope && k.control in Affected(s)
  }

  function LastActivation(h: seq<Stored>): Option<Time> {
    if h == [] then None
    else if h[|h| - 1].action.Activate? then Some(h[|h| - 1].effectiveAt)
    else LastActivation(h[..|h| - 1])
  }

  /** What the control of `k` must be after the events `h` that touched it. */
  function ControlAfter(k: Key, h: seq<Stored>): Option<Control> {
    if h == [] then None
    else
      var last := h[|h| - 1];
      Some(Control(k, last.action.Activate?, LastActivation(h),
        if last.action.Activate? then None else Some(last.effectiveAt),
        last.effectiveAt, last.eventId, last.action, last.body, |h|))
  }

  lemma {:induction false} NormalizedTypesDistinct(types: seq<ControlType>)
    ensures Distinct(NormalizeTypes(types))
    ensures forall t :: t in NormalizeTypes(types) <==> t in types
  {
    FilterContents((t: ControlType) => t in types, ALL_TYPES);
    FilterKeepsDistinct((t: ControlType) => t in types, ALL_TYPES);
    forall t: ControlType ensures t in ALL_TYPES {
      match t case KillSwitch => assert ALL_TYPES[0] == t; case Pause => assert ALL_TYPES[1] == t;
      case Quarantine => assert ALL_TYPES[2] == t; case Revoke => assert ALL_TYPES[3] == t;
    }
  }

  lemma {:induction false} PutAllPoint(st: State, s: Stored, types: seq<ControlType>, k: Key)
    requires Distinct(types)
    ensures Lookup(PutAll(st, s, types), k)
      == if k.tenant == s.tenant && k.scope == s.scope && k.control in types
         then Some(NextControl(Lookup(st, k), s, k.control)) else Lookup(st, k)
    ensures PutAll(st, s, types).events == st.events
  {
    if types != [] {
      var n := |types| - 1;
      PutAllPoint(st, s, types[..n], k);
      assert types == types[..n] + [types[n]];
      assert types[n] !in types[..n];
    }
  }

  predicate IsAffected(ev: Event, t: ControlType) {
    match ev.action
    case Activate(control) => t == if ev.controlType.Some? then ev.controlType.value else control
    case Resume =>
      if ev.resumeControlTypes.Some? then t in ev.resumeControlTypes.value
      else ev.controlType.Some? ==> t == ev.controlType.value
  }

  /** The control types an event touches: the one it activates; or those its resume lists, else the one it names, else
      all four. Its times default to each other and to the record's. */
  lemma {:induction false} NormalFormIs(tenant: Tenant, ev: Event, at: Time)
    ensures var s := Normalize(tenant, ev, at);
      && s.tenant == tenant && s.eventId == ev.eventId && s.action == ev.action && s.scope == ev.scope
      && s.body == ev.body
      && s.effectiveAt == (if ev.effectiveAt.Some? then ev.effectiveAt.value else at)
      && s.createdAt == (if ev.createdAt.Some? then ev.createdAt.value else s.effectiveAt)
      && forall t :: t in Affected(s) <==> IsAffected(ev, t)
  {
    NormalizedTypesDistinct(ev.resumeControlTypes.OrElse(if ev.controlType.Some? then Some([ev.controlType.value])
      else None).GetOr(ALL_TYPES));
    forall t: ControlType ensures t in ALL_TYPES {
      NormalizedTypesDistinct([t]);
      FilterContents((u: ControlType) => u in [t], ALL_TYPES);
    }
    hide NormalizeTypes;
  }

  lemma {:induction false} NextControlContinues(k: Key, h: seq<Stored>, s: Stored)
    requires Touching(k)(s)
    ensures Some(NextControl(ControlAfter(k, h), s, k.control)) == ControlAfter(k, h + [s])
  {
    assert (h + [s])[..|h|] == h;
  }

  lemma {:induction false} AffectedDistinct(tenant: Tenant, ev: Event, recordAt: Time)
    ensures Distinct(Affected(Normalize(tenant, ev, recordAt)))
  {
    NormalizedTypesDistinct(ev.resumeControlTypes.OrElse(if ev.controlType.Some? then Some([ev.controlType.value])
      else None).GetOr(ALL_TYPES));
  }

  /** Over any history of deliveries, each control is exactly what the accepted events touching it make it:
      active unless the last of them was a resume, at a revision equal to their number. */
  lemma {:induction false} ControlsFollowHistory(ds: seq<Delivery>, k: Key)
    ensures Lookup(DeliverAll(ds), k) == ControlAfter(k, Filter(Touching(k), Accepted(ds)))
  {
    if ds != [] {
      var n := |ds| - 1;
      ControlsFollowHistory(ds[..n], k);
      var st, d, h := DeliverAll(ds[..n]), ds[n], Accepted(ds[..n]);
      DeliverMovesControl(st, d, h, k);
    }
  }

  lemma {:induction false} DeliverMovesControl(st: State, d: Delivery, h: seq<Stored>, k: Key)
    requires Lookup(st, k) == ControlAfter(k, Filter(Touching(k), h))
    ensures var s := Normalize(d.tenant, d.event, d.recordAt);
      var h' := h + if (d.tenant, s.eventId) in st.events then [] else [s];
      Lookup(Deliver(st, d), k) == ControlAfter(k, Filter(Touching(k), h'))
  {
    var s := Normalize(d.tenant, d.event, d.recordAt);
    if (d.tenant, s.eventId) in st.events {
      assert h + [] == h;
    } else {
      AffectedDistinct(d.tenant, d.event, d.recordAt);
      PutAllPoint(st.(events := st.events[(s.tenant, s.eventId) := s]), s, Affected(s), k);
      assert (h + [s])[..|h|] == h;
      if Touching(k)(s) {
        NextControlContinues(k, Filter(Touching(k), h), s);
      }
      hide PutAll, ControlAfter, NextControl;
    }
  }

  /** `t` is the time of the last activation in `h`. */
  ghost predicate ActivatedAt(h: seq<Stored>, t: Option<Time>) {
    match t
    case None => forall i :: 0 <= i < |h| ==> h[i].action.Resume?
    case Some(at) =>
      exists i ::
        && 0 <= i < |h| && h[i].action.Activate? && h[i].effectiveAt == at
        && forall j :: i < j < |h| ==> h[j].action.Resume?
  }

  lemma {:induction false} LastActivationIs(h: seq<Stored>)
    ensures ActivatedAt(h, LastActivation(h))
  {
    if h != [] {
      var n := |h| - 1;
      LastActivationIs(h[..n]);
      if h[n].action.Resume? && LastActivation(h[..n]).Some? {
        var i :|
          && 0 <= i < n && h[..n][i].action.Activate? && h[..n][i].effectiveAt == LastActivation(h).value
          && forall j :: i < j < n ==> h[..n][j].action.Resume?;
        assert h[i] == h[..n][i] && forall j :: i < j < n ==> h[j] == h[..n][j];
      } else if h[n].action.Resume? {
        assert forall j :: 0 <= j < n ==> h[j] == h[..n][j];
      }
    }
  }

  /** A control is active exactly when the last accepted event that touched it was not a resume; its times, event,
      action and body are those of that event, and it was activated by the last activation. */
  lemma {:induction false} ActiveIffLastIsNotResume(ds: seq<Delivery>, k: Key)
    ensures var h := Filter(Touching(k), Accepted(ds)); var c := Lookup(DeliverAll(ds), k);
      && (c.Some? <==> h != [])
      && (c.Some? ==>
            var last := h[|h| - 1];
            && c.value.key == k && c.value.revision == |h| && (c.value.active <==> !last.action.Resume?)
            && ActivatedAt(h, c.value.activatedAt)
            && c.value.resumedAt == (if last.action.Resume? then Some(last.effectiveAt) else None)
            && c.value.updatedAt == last.effectiveAt && c.value.lastEventId == last.eventId
            && c.value.lastAction == last.action && c.value.body == last.body)
  {
    ControlsFollowHistory(ds, k);
    LastActivationIs(Filter(Touching(k), Accepted(ds)));
    hide DeliverAll, Accepted, Filter, Touching, ActivatedAt, LastActivation;
  }

  lemma {:induction false} DeliverKeepsStored(st: State, d: Delivery, k: (Tenant, Id))
    requires k in st.events
    ensures k in Deliver(st, d).events && Deliver(st, d).events[k] == st.events[k]
  {
    var s := Normalize(d.tenant, d.event, d.recordAt);
    AffectedDistinct(d.tenant, d.event, d.recordAt);
    PutAllPoint(st.(events := st.events[(s.tenant, s.eventId) := s]), s, Affected(s), Key(s.tenant, s.scope, Pause));
    hide PutAll, Normalize;
  }

  lemma {:induction false} DeliverOneMore(ds: seq<Delivery>, d: Delivery)
    ensures DeliverAll(ds + [d]) == Deliver(DeliverAll(ds), d)
  {
    assert (ds + [d])[..|ds|] == ds;
    hide Deliver;
  }

  lemma {:induction false} StoredStays(ds: seq<Delivery>, more: seq<Delivery>, k: (Tenant, Id))
    requires k in DeliverAll(ds).events
    ensures k in DeliverAll(ds + more).events && DeliverAll(ds + more).events[k] == DeliverAll(ds).events[k]
  {
    hide *;
    if more == [] {
      assert ds + more == ds;
    } else {
      var n := |more| - 1;
      assert ds + more == (ds + more[..n]) + [more[n]];
      StoredStays(ds, more[..n], k);
      DeliverOneMore(ds + more[..n], more[n]);
      DeliverKeepsStored(DeliverAll(ds + more[..n]), more[n], k);
    }
  }

  /** What is stored under an id is the first event delivered under it. */
  lemma {:induction false} StoredIsFirst(ds: seq<Delivery>, k: (Tenant, Id))
    ensures k !in DeliverAll(ds).events ==> forall i :: 0 <= i < |ds| ==> (ds[i].tenant, ds[i].event.eventId) != k
    ensures k in DeliverAll(ds).events ==> exists i :: IsFirstDelivery(ds, i, k, DeliverAll(ds).events[k])
  {
    if ds != [] {
      hide *;
      var n := |ds| - 1;
      var st, d := DeliverAll(ds[..n]), ds[n];
      StoredIsFirst(ds[..n], k);
      DeliverStores(st, d, k);
      DeliverOneMore(ds[..n], d);
      assert ds[..n] + [d] == ds;
      if k in st.events {
        var i :| IsFirstDelivery(ds[..n], i, k, st.events[k]);
        FirstStays(ds, n, i, k, st.events[k]);
      } else {
        assert forall j :: 0 <= j < n ==> ds[..n][j] == ds[j];
        if k == (d.tenant, d.event.eventId) {
          LastIsFirst(ds, k);
        }
      }
    } else {
      assert DeliverAll(ds) == EMPTY;
    }
  }

  ghost predicate IsFirstDelivery(ds: seq<Delivery>, i: int, k: (Tenant, Id), s: Stored) {
    && 0 <= i < |ds| && (ds[i].tenant, ds[i].event.eventId) == k
    && s == Normalize(ds[i].tenant, ds[i].event, ds[i].recordAt)
    && forall j :: 0 <= j < i ==> (ds[j].tenant, ds[j].event.eventId) != k
  }

  lemma {:induction false} FirstStays(ds: seq<Delivery>, n: nat, i: int, k: (Tenant, Id), s: Stored)
    requires n <= |ds| && IsFirstDelivery(ds[..n], i, k, s)
    ensures IsFirstDelivery(ds, i, k, s)
  {
    assert ds[..n][i] == ds[i] && forall j :: 0 <= j < i ==> ds[..n][j] == ds[j];
  }

  lemma {:induction false} LastIsFirst(ds: seq<Delivery>, k: (Tenant, Id))
    requires ds != [] && var d := ds[|ds| - 1]; k == (d.tenant, d.event.eventId)
    requires forall i :: 0 <= i < |ds| - 1 ==> (ds[i].tenant, ds[i].event.eventId) != k
    ensures var d := ds[|ds| - 1]; IsFirstDelivery(ds, |ds| - 1, k, Normalize(d.tenant, d.event, d.recordAt))
  {
    hide Normalize;
  }

  lemma {:induction false} DeliverStores(st: State, d: Delivery, k: (Tenant, Id))
    ensures k in Deliver(st, d).events <==> k in st.events || k == (d.tenant, d.event.eventId)
    ensures k in Deliver(st, d).events ==>
      Deliver(st, d).events[k] == if k in st.events then st.events[k] else Normalize(d.tenant, d.event, d.recordAt)
  {
    var s := Normalize(d.tenant, d.event, d.recordAt);
    AffectedDistinct(d.tenant, d.event, d.recordAt);
    PutAllPoint(st.(events := st.events[(s.tenant, s.eventId) := s]), s, Affected(s), Key(s.tenant, s.scope, Pause));
    hide PutAll, Normalize;
  }

  lemma {:induction false} SameFormIff(tenant: Tenant, ev: Event, at: Time, at2: Time)
    ensures Normalize(tenant, ev, at) == Normalize(tenant, ev, at2) <==> ev.effectiveAt.Some? || at == at2
  {
  }

  /** Delivering a stored event again, at any later point, changes nothing when the event carries its own effective time
      or the record has the same time as the first; otherwise the event conflicts with itself. */
  lemma {:induction false} RedeliveryIsNoopIff(ds: seq<Delivery>, more: seq<Delivery>, d: Delivery, at: Time)
    requires var k := (d.tenant, d.event.eventId);
      k in DeliverAll(ds).events && DeliverAll(ds).events[k] == Normalize(d.tenant, d.event, d.recordAt)
    ensures Append(DeliverAll(ds + more), d.tenant, d.event, at)
      == if d.event.effectiveAt.Some? || at == d.recordAt then Success(DeliverAll(ds + more))
        else Failure(EventConflict)
  {
    StoredStays(ds, more, (d.tenant, d.event.eventId));
    SameFormIff(d.tenant, d.event, at, d.recordAt);
  }

  /** An accepted delivery stores the normal form of its event. */
  lemma {:induction false} DeliveryIsStored(ds: seq<Delivery>, d: Delivery)
    requires Append(DeliverAll(ds), d.tenant, d.event, d.recordAt).Success?
    ensures var k := (d.tenant, d.event.eventId);
      k in DeliverAll(ds + [d]).events && DeliverAll(ds + [d]).events[k] == Normalize(d.tenant, d.event, d.recordAt)
  {
    assert (ds + [d])[..|ds|] == ds;
    var s := Normalize(d.tenant, d.event, d.recordAt);
    AffectedDistinct(d.tenant, d.event, d.recordAt);
    PutAllPoint(DeliverAll(ds).(events := DeliverAll(ds).events[(s.tenant, s.eventId) := s]), s, Affected(s),
      Key(s.tenant, s.scope, Pause));
    hide PutAll, Normalize;
  }

  /** A pause without an effective time, delivered in a record of
      time 1, conflicts with itself in a record of time 2. */
  lemma {:induction false} PauseConflictsWithItself()
    ensures var ev := Event(Id(0), Activate(Pause), TenantScope, None, None, None, None, 0);
      var d := Delivery(Tenant(0), ev, 1);
      && Append(EMPTY, d.tenant, ev, 1).Success?
      && Append(DeliverAll([d]), d.tenant, ev, 2) == Failure(EventConflict)
  {
    var ev := Event(Id(0), Activate(Pause), TenantScope, None, None, None, None, 0);
    var d := Delivery(Tenant(0), ev, 1);
    DeliveryIsStored([], d);
    assert [] + [d] == [d] && [d] + [] == [d];
    RedeliveryIsNoopIff([d], [], d, 2);
  }

  // ----- finding a block -----

  function ControlPriority(t: ControlType): nat {
    match t case KillSwitch => 0 case Revoke => 1 case Quarantine => 2 case Pause => 3
  }

  function ScopePriority(s: Scope): nat {
    match s case AgentScope(_) => 0 case AdapterScope(_) => 1 case TenantScope => 2
  }

  /** The comparator of the search: control, scope, most recently updated, then event id. */
  function BlockLeq(locale: Leq<Id>): Leq<Control> {
    (a: Control, b: Control) =>
      var ca, cb := ControlPriority(a.key.control), ControlPriority(b.key.control);
      var sa, sb := ScopePriority(a.key.scope), ScopePriority(b.key.scope);
      if ca != cb then ca < cb
      else if sa != sb then sa < sb
      else if a.updatedAt != b.updatedAt then a.updatedAt > b.updatedAt
      else locale(a.lastEventId, b.lastEventId)
  }

  datatype Query = Query(tenant: Tenant, controlTypes: Option<set<ControlType>>, agentIds: set<Id>, adapterIds: set<Id>)

  /** An active control of an allowed type that covers the tenant or a listed agent or adapter. */
  predicate Covers(q: Query, c: Control) {
    && c.key.tenant == q.tenant && c.active
    && (q.controlTypes.Some? ==> c.key.control in q.controlTypes.value)
    && match c.key.scope
       case AgentScope(id) => id in q.agentIds
       case AdapterScope(id) => id in q.adapterIds
       case TenantScope => true
  }

  ghost predicate StateValid(st: State) {
    && (forall k :: k in st.order <==> k in st.controls)
    && (forall k :: k in st.controls ==> st.controls[k].key == k)
  }

  lemma {:induction false} DeliveriesKeepStateValid(ds: seq<Delivery>)
    ensures StateValid(DeliverAll(ds))
  {
    if ds != [] {
      var n := |ds| - 1;
      DeliveriesKeepStateValid(ds[..n]);
      var st := DeliverAll(ds[..n]);
      var s := Normalize(ds[n].tenant, ds[n].event, ds[n].recordAt);
      PutAllKeepsStateValid(st.(events := st.events[(s.tenant, s.eventId) := s]), s, Affected(s));
    }
  }

  lemma {:induction false} PutAllKeepsStateValid(st: State, s: Stored, types: seq<ControlType>)
    requires StateValid(st)
    ensures StateValid(PutAll(st, s, types))
  {
    if types != [] {
      PutAllKeepsStateValid(st, s, types[..|types| - 1]);
    }
  }

  lemma {:induction false} BlockLeqTotal(locale: Leq<Id>)
    requires TotalPreorder(locale)
    ensures TotalPreorder(BlockLeq(locale))
  {
    var leq := BlockLeq(locale);
    forall a, b ensures leq(a, b) || leq(b, a) {
      assert locale(a.lastEventId, b.lastEventId) || locale(b.lastEventId, a.lastEventId);
    }
    forall a, b, c | leq(a, b) && leq(b, c) ensures leq(a, c) {
      assert locale(a.lastEventId, b.lastEventId) && locale(b.lastEventId, c.lastEventId) ==>
        locale(a.lastEventId, c.lastEventId);
    }
  }

  method FindBlock(locale: Leq<Id>, st: State, q: Query) returns (r: Option<Control>)
    requires TotalPreorder(locale) && StateValid(st)
    ensures r.Some? <==> exists k :: k in st.controls && Covers(q, st.controls[k])
    ensures r.Some? ==> r.value.key in st.controls && st.controls[r.value.key] == r.value && Covers(q, r.value)
    ensures r.Some? ==> forall k :: k in st.controls && Covers(q, st.controls[k]) ==>
      BlockLeq(locale)(r.value, st.controls[k])
  {
    var matches: seq<Control> := [];
    for i := 0 to |st.order|
      invariant forall c :: c in matches <==> exists j :: 0 <= j < i && st.controls[st.order[j]] == c && Covers(q, c)
    {
      assert st.order[i] in st.order;
      var row := st.controls[st.order[i]];
      if Covers(q, row) {
        matches := matches + [row];
      }
    }
    var sorted := StableSort(BlockLeq(locale), matches);
    StableSortContents(BlockLeq(locale), matches);
    BlockLeqTotal(locale);
    StableSortSorted(BlockLeq(locale), matches);
    forall k | k in st.controls && Covers(q, st.controls[k])
      ensures st.controls[k] in sorted
    {
      assert k in st.order;
      var j :| 0 <= j < |st.order| && st.order[j] == k;
    }
    if sorted == [] {
      return None;
    }
    r := Some(sorted[0]);
    assert sorted[0] in sorted;
  }

  /** What comes before what: kill switches, then revocations, quarantines and
      pauses; among controls of one type those of an agent, then of an adapter, then
      of the tenant; then the latest update, and of one time the lesser event id. */
  lemma {:induction false} BlockIsMostSevere(locale: Leq<Id>, a: Control, b: Control)
    requires BlockLeq(locale)(a, b)
    ensures b.key.control.KillSwitch? ==> a.key.control.KillSwitch?
    ensures b.key.control.Revoke? ==> a.key.control.KillSwitch? || a.key.control.Revoke?
    ensures a.key.control.Quarantine? ==> b.key.control.Quarantine? || b.key.control.Pause?
    ensures a.key.control.Pause? ==> b.key.control.Pause?
    ensures a.key.control == b.key.control ==>
      && (b.key.scope.AgentScope? ==> a.key.scope.AgentScope?)
      && (a.key.scope.TenantScope? ==> b.key.scope.TenantScope?)
    ensures a.key.control == b.key.control && SameScopeType(a.key.scope, b.key.scope) ==>
      a.updatedAt >= b.updatedAt && (a.updatedAt == b.updatedAt ==> locale(a.lastEventId, b.lastEventId))
  {
    PriorityFirst(locale, a, b);
    assert SameScopeType(a.key.scope, b.key.scope) ==> ScopePriority(a.key.scope) == ScopePriority(b.key.scope);
  }

  predicate SameScopeType(s: Scope, t: Scope) {
    (s.AgentScope? <==> t.AgentScope?) && (s.TenantScope? <==> t.TenantScope?)
  }

  lemma {:induction false} PriorityFirst(locale: Leq<Id>, a: Control, b: Control)
    requires BlockLeq(locale)(a, b)
    ensures ControlPriority(a.key.control) <= ControlPriority(b.key.control)
    ensures a.key.control == b.key.control ==> ScopePriority(a.key.scope) <= ScopePriority(b.key.scope)
  {
  }

  /** The scopes a query asks about. */
  predicate AsksAbout(q: Query, s: Scope) {
    s == TenantScope || (exists id :: id in q.agentIds && s == AgentScope(id))
    || (exists id :: id in q.adapterIds && s == AdapterScope(id))
  }

  /** After any history a key has a control that blocks a query exactly when the query is about its tenant, type and
      scope and the last accepted event that touched it was not a resume. */
  lemma {:induction false} CoversIff(ds: seq<Delivery>, q: Query, k: Key)
    ensures var h := Filter(Touching(k), Accepted(ds)); var st := DeliverAll(ds);
      k in st.controls && Covers(q, st.controls[k]) <==>
        && k.tenant == q.tenant && AsksAbout(q, k.scope)
        && (q.controlTypes.Some? ==> k.control in q.controlTypes.value)
        && h != [] && !h[|h| - 1].action.Resume?
  {
    ActiveIffLastIsNotResume(ds, k);
    DeliveriesKeepStateValid(ds);
    hide DeliverAll, Accepted, Filter, Touching;
  }
}
