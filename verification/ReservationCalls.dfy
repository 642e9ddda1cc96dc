/** The reservation service with each call as one atomic step of one process: the table, the sold-out marker
    in its two levels, the cached items, and the queue slot a finished reserve gives back. */
module ReservationCalls {
  import opened Common
  import opened ReservationTable
  import opened ReservationStore
  import opened ReservationProtocol
  import opened ReservationCaches
  import VQ = VirtualQueueScripts
  import VS = VirtualQueueService

  datatype Desk = Desk(
    now: int,
    events: map<EventId, Event>,
    rows: seq<Row>,
    lru: map<EventId, int>,
    flags: map<EventId, int>,
    items: map<CacheKey, (Item, int)>)

  datatype ServiceError = Database(failure: Failure) | QueueInProgress | KeyReused

  function MarkBlocked(d: Desk, e: EventId): Desk {
    d.(lru := d.lru[e := d.now + LRU_BLOCK_TTL], flags := d.flags[e := d.now + EVENT_BLOCKED_TTL])
  }

  function MarkUnblocked(d: Desk, e: EventId): Desk {
    d.(lru := d.lru - {e}, flags := d.flags - {e})
  }

  predicate Blocked(d: Desk, e: EventId) {
    Alive(d.lru, e, d.now) || Alive(d.flags, e, d.now)
  }

  /** IsBlockEvent: a hit in Redis alone re-seeds the LRU. */
  function AfterCheck(d: Desk, e: EventId): Desk {
    if !Alive(d.lru, e, d.now) && Alive(d.flags, e, d.now) then d.(lru := d.lru[e := d.now + LRU_BLOCK_TTL]) else d
  }

  /** The reservation under a key: the cached item, else the table's row. */
  function LookUp(d: Desk, at: CacheKey): Option<Item> {
    if at in d.items && d.now <= d.items[at].1 then Some(d.items[at].0)
    else
      var found := FindKey(d.rows, at.event, at.user, at.key);
      if found.Some? then Some(Item(found.value, d.rows[found.value])) else None
  }

  predicate GivesSlotBack(f: Failure) {
    f == InsufficientCapacity || f == ExceedMaxReserveQuantity
  }

  /** What the service writes down once the database has answered. */
  function Recorded(d: Desk, req: Request, rows: seq<Row>, reply: Reply): Desk {
    var d1 := d.(rows := rows);
    var d2 := if reply.isCapped then MarkBlocked(d1, req.event) else d1;
    if reply.result.Err? || reply.result.value.row.key.None? then d2
    else
      var at := CacheKey(req.event, req.user, reply.result.value.row.key.value);
      d2.(items := d2.items[at := (reply.result.value, d.now + RESERVATION_ITEM_TTL)])
  }

  /** The part of ReserveEvent past the block check, the key lookup and the whitelist check. */
  function ReserveInDatabase(c: VQ.Config, d: Desk, q: VQ.Queue, req: Request)
    : (Desk, VQ.Queue, Result<Item, ServiceError>)
    requires req.quantity < TWO_32
  {
    var (rows', reply) := Reserve(d.events, d.rows, d.now, d.now, req.event, req.user, req.quantity, req.key);
    var d' := Recorded(d, req, rows', reply);
    match reply.result
    case Err(f) => (d', if GivesSlotBack(f) then VS.ReleaseSlot(c, q, req.user) else q, Err(Database(f)))
    case Ok(item) => (d', VS.ReleaseSlot(c, q, req.user), Ok(item))
  }

  function ReserveCall(c: VQ.Config, d: Desk, q: VQ.Queue, req: Request): (Desk, VQ.Queue, Result<Item, ServiceError>)
    requires req.quantity < TWO_32
  {
    if Blocked(d, req.event) then
      (AfterCheck(d, req.event), VS.ReleaseSlot(c, q, req.user), Err(Database(InsufficientCapacity)))
    else
      var cached := if req.key.Some? then LookUp(d, CacheKey(req.event, req.user, req.key.value)) else None;
      if cached.Some? then
        (d, q, if cached.value.row.quantity != req.quantity then Err(KeyReused) else Ok(cached.value))
      else if req.user !in q.whitelist then (d, q, Err(QueueInProgress))
      else if req.event !in d.events then (d, q, Err(Database(EventNotFound)))
      else ReserveInDatabase(c, d, q, req)
  }

  function ReleaseCall(d: Desk, u: UserId, id: nat): (Desk, Option<Failure>) {
    var (rows', result) := Update(d.rows, d.now, d.now, u, id, Released);
    if result.Err? then (d, Some(result.error)) else (MarkUnblocked(d.(rows := rows'), result.value), None)
  }

  function ConfirmCall(d: Desk, u: UserId, id: nat): (Desk, bool) {
    var (rows', ok) := Confirm(d.rows, d.now, d.now, u, id);
    (d.(rows := rows'), ok)
  }

  /** A sweep that got the lock: expire the due holds, unblock every event that lost one. */
  function SweepCall(d: Desk): Desk {
    d.(rows := Swept(d.rows, d.now),
       lru := d.lru - DueEvents(d.rows, d.now), flags := d.flags - DueEvents(d.rows, d.now))
  }

  function CapacityCall(d: Desk, e: EventId, capacity: nat): Desk
    requires e in d.events
  {
    MarkUnblocked(d.(events := d.events[e := d.events[e].(capacity := capacity)]), e)
  }

  // ---- the sold-out marker ----

  /** A marker, lapsed or not, only ever stands for an event whose holds and sales fill it. */
  ghost predicate MarkersSound(d: Desk) {
    forall e | e in d.events && (e in d.lru || e in d.flags) :: d.events[e].capacity <= PendingTotal(d.rows, e)
  }

  ghost predicate ItemsNamed(d: Desk) {
    && UniqueKeys(d.rows)
    && forall at | at in d.items :: d.items[at].0.id < |d.rows|
         && SameKey(d.rows[d.items[at].0.id], at.event, at.user, at.key)
         && IdentityOf(d.items[at].0.row) == IdentityOf(d.rows[d.items[at].0.id])
  }

  /** isCapped tells of a full event, except perhaps on a replay, which the key lookup rules out here. */
  lemma CappedIsFull(d: Desk, req: Request)
    requires req.quantity < TWO_32 && req.event in d.events && Replayed(d.rows, req.event, req.user, req.key).None?
    ensures var (rows', reply) := Reserve(d.events, d.rows, d.now, d.now, req.event, req.user, req.quantity, req.key);
            reply.isCapped ==> d.events[req.event].capacity <= PendingTotal(rows', req.event)
  {
    ActiveWithinPending(d.rows, req.event, d.now);
    UserWithinEvent(d.rows, req.event, req.user, d.now);
    PendingAppend(d.rows, NewHold(req.event, req.user, req.quantity, req.key, d.now), req.event);
  }

  lemma ReserveRowsGrow(d: Desk, req: Request, e: EventId)
    requires req.quantity < TWO_32
    ensures var rows' := Reserve(d.events, d.rows, d.now, d.now, req.event, req.user, req.quantity, req.key).0;
            && PendingTotal(d.rows, e) <= PendingTotal(rows', e)
            && (rows' == d.rows || rows' == d.rows + [NewHold(req.event, req.user, req.quantity, req.key, d.now)])
  {
    UserWithinEvent(d.rows, req.event, req.user, d.now);
    PendingAppend(d.rows, NewHold(req.event, req.user, req.quantity, req.key, d.now), e);
  }

  lemma LookUpMisses(d: Desk, req: Request)
    requires req.key.Some? ==> LookUp(d, CacheKey(req.event, req.user, req.key.value)).None?
    ensures Replayed(d.rows, req.event, req.user, req.key).None?
  {
  }

  lemma RecordedKeepsMarkers(d: Desk, req: Request, rows: seq<Row>, reply: Reply)
    requires MarkersSound(d) && forall e :: PendingTotal(d.rows, e) <= PendingTotal(rows, e)
    requires reply.isCapped && req.event in d.events ==> d.events[req.event].capacity <= PendingTotal(rows, req.event)
    ensures MarkersSound(Recorded(d, req, rows, reply))
  {
    var d' := Recorded(d, req, rows, reply);
    forall e | e in d'.events && (e in d'.lru || e in d'.flags)
      ensures d'.events[e].capacity <= PendingTotal(d'.rows, e)
    {
      assert PendingTotal(d.rows, e) <= PendingTotal(rows, e);
    }
  }

  lemma ReserveKeepsMarkers(c: VQ.Config, d: Desk, q: VQ.Queue, req: Request)
    requires req.quantity < TWO_32 && MarkersSound(d)
    ensures MarkersSound(ReserveCall(c, d, q, req).0)
  {
    var cached := if req.key.Some? then LookUp(d, CacheKey(req.event, req.user, req.key.value)) else None;
    if !Blocked(d, req.event) && cached.None? && req.user in q.whitelist && req.event in d.events {
      LookUpMisses(d, req);
      CappedIsFull(d, req);
      var (rows', reply) := Reserve(d.events, d.rows, d.now, d.now, req.event, req.user, req.quantity, req.key);
      forall e ensures PendingTotal(d.rows, e) <= PendingTotal(rows', e) { ReserveRowsGrow(d, req, e); }
      RecordedKeepsMarkers(d, req, rows', reply);
    }
  }

  lemma ConfirmKeepsMarkers(d: Desk, u: UserId, id: nat)
    requires MarkersSound(d)
    ensures MarkersSound(ConfirmCall(d, u, id).0)
  {
    var d' := ConfirmCall(d, u, id).0;
    forall e | e in d'.events && (e in d'.lru || e in d'.flags)
      ensures d'.events[e].capacity <= PendingTotal(d'.rows, e)
    {
      PendingSame(d.rows, d'.rows, e);
    }
  }

  lemma ReleaseKeepsMarkers(d: Desk, u: UserId, id: nat)
    requires MarkersSound(d)
    ensures MarkersSound(ReleaseCall(d, u, id).0)
  {
    var d' := ReleaseCall(d, u, id).0;
    forall e | e in d'.events && (e in d'.lru || e in d'.flags)
      ensures d'.events[e].capacity <= PendingTotal(d'.rows, e)
    {
      PendingSame(d.rows, d'.rows, e);
    }
  }

  lemma SweepKeepsMarkers(d: Desk)
    requires MarkersSound(d)
    ensures MarkersSound(SweepCall(d))
  {
    var d' := SweepCall(d);
    forall e | e in d'.events && (e in d'.lru || e in d'.flags)
      ensures d'.events[e].capacity <= PendingTotal(d'.rows, e)
    {
      assert e !in DueEvents(d.rows, d.now);
      PendingSame(d.rows, d'.rows, e);
    }
  }

  /** While the markers are sound and no expired hold of the event waits for the sweep, the fast reject never
      turns away a request the database would have taken. */
  lemma FastRejectRight(d: Desk, req: Request)
    requires MarkersSound(d) && req.event in d.events && Blocked(d, req.event)
    requires forall i | 0 <= i < |d.rows| && d.rows[i].event == req.event :: !Due(d.rows[i], d.now)
    requires req.quantity < TWO_32 && !Wraps(Total(d.rows, req.event, Everyone, d.now), req.quantity)
    requires d.events[req.event].maxPerUser <= INT32_MAX
    ensures !Accepted(d, req)
  {
    PendingIsActive(d.rows, req.event, d.now);
    ReserveDecides(d.events, d.rows, d.now, d.now, req.event, req.user, req.quantity, req.key);
  }

  function Newcomer(rows: seq<Row>): (u: UserId)
    ensures forall i | 0 <= i < |rows| :: rows[i].user < u
  {
    if rows == [] then 0
    else
      var rest := Newcomer(rows[..|rows| - 1]);
      if rows[|rows| - 1].user < rest then rest else rows[|rows| - 1].user + 1
  }

  lemma {:induction false} NewcomerHasNothing(rows: seq<Row>, e: EventId, u: UserId, t: int)
    requires forall i | 0 <= i < |rows| :: rows[i].user < u
    ensures Total(rows, e, Only(u), t) == 0
  {
    if rows != [] {
      var rest := rows[..|rows| - 1];
      NewcomerHasNothing(rest, e, u, t);
      TotalAppend(rest, rows[|rows| - 1], e, Only(u), t);
      assert rest + [rows[|rows| - 1]] == rows;
    }
  }

  predicate Accepted(d: Desk, req: Request)
    requires req.quantity < TWO_32
  {
    Reserve(d.events, d.rows, d.now, d.now, req.event, req.user, req.quantity, req.key).1.result.Ok?
  }

  /** Whatever the markers, there is a request for the event that the database would take exactly when its
      active seats are below its capacity: then, and only then, can a fast reject be wrong. */
  lemma FastRejectWrongExactly(d: Desk, e: EventId)
    requires e in d.events && 0 < d.events[e].maxPerUser <= INT32_MAX && d.events[e].capacity <= INT32_MAX
    ensures (exists req: Request | req.event == e && req.quantity < TWO_32
               && !Wraps(Total(d.rows, e, Everyone, d.now), req.quantity) ::
               Accepted(d, req))
       <==> Total(d.rows, e, Everyone, d.now) < d.events[e].capacity
  {
    var total := Total(d.rows, e, Everyone, d.now);
    forall req: Request | req.event == e && req.quantity < TWO_32 && !Wraps(total, req.quantity) && Accepted(d, req)
      ensures total < d.events[e].capacity
    {
      ReserveDecides(d.events, d.rows, d.now, d.now, e, req.user, req.quantity, req.key);
    }
    if total < d.events[e].capacity {
      var req := Request(e, Newcomer(d.rows), 1, None);
      NewcomerHasNothing(d.rows, e, req.user, d.now);
      ReserveDecides(d.events, d.rows, d.now, d.now, e, req.user, 1, None);
      assert Accepted(d, req);
    }
  }

  // ---- idempotency, call by call ----

  /** What the database answers to a request whose key is free. */
  lemma FreshMatches(c: VQ.Config, d: Desk, q: VQ.Queue, req: Request)
    requires req.quantity < TWO_32 && Replayed(d.rows, req.event, req.user, req.key).None?
    requires ReserveInDatabase(c, d, q, req).2.Ok?
    ensures var (d', _, result) := ReserveInDatabase(c, d, q, req);
            && result.value.row.quantity == req.quantity
            && result.value.id < |d'.rows| && d'.rows[result.value.id] == result.value.row
            && (req.key.Some? ==> SameKey(result.value.row, req.event, req.user, req.key.value))
  {
    ReserveInserts(d.events, d.rows, d.now, d.now, req.event, req.user, req.quantity, req.key);
  }

  /** With atomic calls a successful reserve always answers with the quantity it was asked for, under the one
      row that has its key. */
  lemma SuccessMatches(c: VQ.Config, d: Desk, q: VQ.Queue, req: Request)
    requires req.quantity < TWO_32 && ItemsNamed(d) && ReserveCall(c, d, q, req).2.Ok?
    ensures var (d', _, result) := ReserveCall(c, d, q, req);
            && result.value.row.quantity == req.quantity
            && result.value.id < |d'.rows|
            && IdentityOf(d'.rows[result.value.id]) == IdentityOf(result.value.row)
            && (req.key.Some? ==> SameKey(d'.rows[result.value.id], req.event, req.user, req.key.value))
  {
    var cached := if req.key.Some? then LookUp(d, CacheKey(req.event, req.user, req.key.value)) else None;
    if cached.None? {
      LookUpMisses(d, req);
      assert ReserveCall(c, d, q, req) == ReserveInDatabase(c, d, q, req);
      FreshMatches(c, d, q, req);
    } else {
      var at := CacheKey(req.event, req.user, req.key.value);
      assert ReserveCall(c, d, q, req) == (d, q, Ok(cached.value));
      if at in d.items { assert SameKey(d.rows[d.items[at].0.id], req.event, req.user, req.key.value); }
    }
  }

  /** A replay of a key that names a reservation changes neither table nor queue. It gets that reservation back
      exactly when the event is not marked blocked and the quantity is the same: the block test comes first. */
  lemma ReplayAnswersExactly(c: VQ.Config, d: Desk, q: VQ.Queue, req: Request, id: nat)
    requires req.quantity < TWO_32 && ItemsNamed(d) && req.key.Some?
    requires id < |d.rows| && SameKey(d.rows[id], req.event, req.user, req.key.value)
    ensures var (d', q', result) := ReserveCall(c, d, q, req);
            && d'.rows == d.rows
            && (result.Ok? <==> !Blocked(d, req.event) && d.rows[id].quantity == req.quantity)
            && (result.Ok? ==> result.value.id == id && q' == q)
  {
    var at := CacheKey(req.event, req.user, req.key.value);
    var found := FindKey(d.rows, req.event, req.user, req.key.value);
    assert found.Some? && found.value == id;
    if at in d.items { assert d.items[at].0.id == id; }
  }

  lemma UniqueAppend(rows: seq<Row>, r: Row)
    requires UniqueKeys(rows) && (r.key.Some? ==> FindKey(rows, r.event, r.user, r.key.value).None?)
    ensures UniqueKeys(rows + [r])
  {
    assert forall i | 0 <= i < |rows| && r.key.Some? :: !SameKey(rows[i], r.event, r.user, r.key.value);
  }

  lemma ItemsAppend(d: Desk, d': Desk, r: Row)
    requires ItemsNamed(d) && d'.rows == d.rows + [r] && UniqueKeys(d'.rows) && d'.items == d.items
    ensures ItemsNamed(d')
  {
  }

  lemma RecordedKeepsItems(d: Desk, req: Request, rows: seq<Row>, reply: Reply)
    requires ItemsNamed(d) && Replayed(d.rows, req.event, req.user, req.key).None?
    requires var hold := NewHold(req.event, req.user, req.quantity, req.key, d.now);
             (reply.result.Err? && rows == d.rows)
             || (reply.result == Ok(Item(|d.rows|, hold)) && rows == d.rows + [hold])
    ensures ItemsNamed(Recorded(d, req, rows, reply))
  {
    if reply.result.Ok? {
      var hold := NewHold(req.event, req.user, req.quantity, req.key, d.now);
      UniqueAppend(d.rows, hold);
      ItemsAppend(d, d.(rows := d.rows + [hold]), hold);
    }
  }

  lemma ReserveKeepsItems(c: VQ.Config, d: Desk, q: VQ.Queue, req: Request)
    requires req.quantity < TWO_32 && ItemsNamed(d)
    ensures ItemsNamed(ReserveCall(c, d, q, req).0)
  {
    var cached := if req.key.Some? then LookUp(d, CacheKey(req.event, req.user, req.key.value)) else None;
    if !Blocked(d, req.event) && cached.None? && req.user in q.whitelist && req.event in d.events {
      LookUpMisses(d, req);
      ReserveInserts(d.events, d.rows, d.now, d.now, req.event, req.user, req.quantity, req.key);
      var (rows', reply) := Reserve(d.events, d.rows, d.now, d.now, req.event, req.user, req.quantity, req.key);
      RecordedKeepsItems(d, req, rows', reply);
    }
  }

  lemma IdentitiesKeepItems(d: Desk, d': Desk)
    requires ItemsNamed(d) && |d.rows| == |d'.rows| && d'.items == d.items
    requires forall i | 0 <= i < |d.rows| :: IdentityOf(d'.rows[i]) == IdentityOf(d.rows[i])
    ensures ItemsNamed(d')
  {
    forall i | 0 <= i < |d.rows|
      ensures d'.rows[i].event == d.rows[i].event && d'.rows[i].user == d.rows[i].user
      ensures d'.rows[i].key == d.rows[i].key
    {
      assert IdentityOf(d'.rows[i]) == IdentityOf(d.rows[i]);
    }
  }

  // ---- the slot ----

  /** A reserve gives its slot back and admits the next in line exactly when it ends in a success of its own, a
      sold-out or over-quota refusal, or the fast reject; otherwise it leaves the queue alone. */
  lemma ReserveAndSlot(c: VQ.Config, d: Desk, q: VQ.Queue, req: Request)
    requires req.quantity < TWO_32
    ensures var (d', q', result) := ReserveCall(c, d, q, req);
            var replay := req.key.Some? && LookUp(d, CacheKey(req.event, req.user, req.key.value)).Some?;
            var ends := || (result.Ok? && !replay)
                        || result == Err(Database(InsufficientCapacity))
                        || result == Err(Database(ExceedMaxReserveQuantity));
            q' == if ends then VS.ReleaseSlot(c, q, req.user) else q
  {
  }

  /** So a reserve call keeps a settled queue settled. */
  lemma ReserveKeepsSettled(c: VQ.Config, d: Desk, s: VS.Site, req: Request)
    requires req.quantity < TWO_32 && VS.SiteOk(c, s)
    ensures VS.SiteOk(c, s.(q := ReserveCall(c, d, s.q, req).1))
    ensures VS.Settled(c, s.q) ==> VS.Settled(c, ReserveCall(c, d, s.q, req).1)
  {
    ReserveAndSlot(c, d, s.q, req);
    VS.ReleaseSlotSettles(c, s, req.user);
  }

  // ---- whole runs of calls ----

  datatype Call =
    | ReserveBy(c: VQ.Config, q: VQ.Queue, req: Request)
    | ReleaseBy(user: UserId, id: nat)
    | ConfirmBy(user: UserId, id: nat)
    | SweepRuns
    | CheckBlocked(event: EventId)
    | SetCapacityOf(event: EventId, capacity: nat)
    | Evict(event: EventId)
    | TimePasses(to: int)

  predicate Callable(d: Desk, a: Call) {
    match a
    case ReserveBy(_, _, req) => req.quantity < TWO_32
    case SetCapacityOf(e, capacity) => e in d.events && 0 < capacity <= INT32_MAX
    case TimePasses(to) => d.now <= to
    case _ => true
  }

  function Serve(d: Desk, a: Call): Desk
    requires Callable(d, a)
  {
    match a
    case ReserveBy(c, q, req) => ReserveCall(c, d, q, req).0
    case ReleaseBy(u, id) => ReleaseCall(d, u, id).0
    case ConfirmBy(u, id) => ConfirmCall(d, u, id).0
    case SweepRuns => SweepCall(d)
    case CheckBlocked(e) => AfterCheck(d, e)
    case SetCapacityOf(e, capacity) => CapacityCall(d, e, capacity)
    case Evict(e) => d.(lru := d.lru - {e})
    case TimePasses(to) => d.(now := to)
  }

  lemma MarkersKept(d: Desk, a: Call)
    requires MarkersSound(d) && Callable(d, a)
    ensures MarkersSound(Serve(d, a))
  {
    match a
    case ReserveBy(c, q, req) => ReserveKeepsMarkers(c, d, q, req);
    case ReleaseBy(u, id) => ReleaseKeepsMarkers(d, u, id);
    case ConfirmBy(u, id) => ConfirmKeepsMarkers(d, u, id);
    case SweepRuns => SweepKeepsMarkers(d);
    case CheckBlocked(e) =>
    case SetCapacityOf(e, capacity) =>
    case Evict(e) =>
    case TimePasses(to) =>
  }

  lemma ItemsKept(d: Desk, a: Call)
    requires ItemsNamed(d) && Callable(d, a)
    ensures ItemsNamed(Serve(d, a))
  {
    if a.ReserveBy? {
      ReserveKeepsItems(a.c, d, a.q, a.req);
    } else {
      IdentitiesKeepItems(d, Serve(d, a));
    }
  }

  ghost predicate ServedAt(run: seq<Desk>, calls: seq<Call>, i: nat)
    requires |run| == |calls| + 1 && i < |calls|
  {
    Callable(run[i], calls[i]) && run[i + 1] == Serve(run[i], calls[i])
  }

  ghost predicate IsServed(run: seq<Desk>, calls: seq<Call>) {
    && |run| == |calls| + 1
    && run[0].rows == [] && run[0].lru == map[] && run[0].flags == map[] && run[0].items == map[]
    && forall i | 0 <= i < |calls| :: ServedAt(run, calls, i)
  }

  /** Over every run of calls the markers stay sound and the cached items keep naming their rows. */
  lemma {:induction false} MarkersAlwaysSound(run: seq<Desk>, calls: seq<Call>, n: nat)
    requires IsServed(run, calls) && n < |run|
    ensures MarkersSound(run[n]) && ItemsNamed(run[n])
  {
    if n > 0 {
      MarkersAlwaysSound(run, calls, n - 1);
      assert ServedAt(run, calls, n - 1);
      MarkersKept(run[n - 1], calls[n - 1]);
      ItemsKept(run[n - 1], calls[n - 1]);
    }
  }

  ghost predicate Reachable(d: Desk) {
    exists run, calls :: IsServed(run, calls) && run[|calls|] == d
  }

  lemma Step(d: Desk, a: Call)
    requires Reachable(d) && Callable(d, a)
    ensures Reachable(Serve(d, a))
  {
    var run, calls :| IsServed(run, calls) && run[|calls|] == d;
    var run', calls' := run + [Serve(d, a)], calls + [a];
    forall i | 0 <= i < |calls'| ensures ServedAt(run', calls', i) {
      if i < |calls| { assert ServedAt(run, calls, i); }
    }
    assert IsServed(run', calls');
  }

  lemma MarkedPastExpiry(c: VQ.Config, q: VQ.Queue)
    requires 1 in q.whitelist
    ensures Reachable(Desk(600, map[0 := Event(1, 1)], [NewHold(0, 1, 1, None, 0)],
                           map[0 := 604], map[0 := 614], map[]))
  {
    var req, hold := Request(0, 1, 1, None), NewHold(0, 1, 1, None, 0);
    var d0 := Desk(0, map[0 := Event(1, 1)], [], map[], map[], map[]);
    assert IsServed([d0], []);
    FillsUp(c, q);
    Step(d0, ReserveBy(c, q, req));
    var d1 := d0.(rows := [hold], lru := map[0 := 5], flags := map[0 := 15]);
    Step(d1, TimePasses(599));
    MarksAgain(c, q);
    Step(d1.(now := 599), ReserveBy(c, q, req));
    Step(d1.(now := 599, lru := map[0 := 604], flags := map[0 := 614]), TimePasses(600));
  }

  /** A run in which a known key is refused: its own reserve sold the event out. */
  lemma KnownKeyRefused(c: VQ.Config, q: VQ.Queue)
    requires 1 in q.whitelist
    ensures exists d | Reachable(d) ::
              var req := Request(0, 1, 1, Some("k"));
              && Replayed(d.rows, 0, 1, Some("k")).Some?
              && d.rows[Replayed(d.rows, 0, 1, Some("k")).value].quantity == 1
              && ReserveCall(c, d, q, req).2 == Err(Database(InsufficientCapacity))
  {
    var req, hold := Request(0, 1, 1, Some("k")), NewHold(0, 1, 1, Some("k"), 0);
    var d0 := Desk(0, map[0 := Event(1, 1)], [], map[], map[], map[]);
    assert IsServed([d0], []);
    Step(d0, ReserveBy(c, q, req));
    ReserveDecides(d0.events, [], 0, 0, 0, 1, 1, Some("k"));
    assert [] + [hold] == [hold];
    var d := Serve(d0, ReserveBy(c, q, req));
    assert d.rows == [hold] && SameKey(d.rows[0], 0, 1, "k");
    assert Blocked(d, 0);
  }

  /** The expired-but-unswept hold matters: a run in which the only seat is free again, the event still marked,
      and a request turned away that the database would take. */
  lemma FastRejectCanBeWrong(c: VQ.Config, q: VQ.Queue)
    requires 1 in q.whitelist
    ensures exists d | Reachable(d) :: d.events == map[0 := Event(1, 1)] && Blocked(d, 0)
              && Accepted(d, Request(0, 2, 1, None))
  {
    MarkedPastExpiry(c, q);
    var hold := NewHold(0, 1, 1, None, 0);
    var d := Desk(600, map[0 := Event(1, 1)], [hold], map[0 := 604], map[0 := 614], map[]);
    TotalAppend([], hold, 0, Everyone, 600);
    TotalAppend([], hold, 0, Only(2), 600);
    assert [] + [hold] == [hold];
    ReserveDecides(d.events, d.rows, 600, 600, 0, 2, 1, None);
  }

  lemma FillsUp(c: VQ.Config, q: VQ.Queue)
    requires 1 in q.whitelist
    ensures var d := Desk(0, map[0 := Event(1, 1)], [], map[], map[], map[]);
            ReserveCall(c, d, q, Request(0, 1, 1, None)).0
            == d.(rows := [NewHold(0, 1, 1, None, 0)], lru := map[0 := 5], flags := map[0 := 15])
  {
    var hold := NewHold(0, 1, 1, None, 0);
    assert [] + [hold] == [hold];
    ReserveDecides(map[0 := Event(1, 1)], [], 0, 0, 0, 1, 1, None);
  }

  lemma MarksAgain(c: VQ.Config, q: VQ.Queue)
    requires 1 in q.whitelist
    ensures var d := Desk(599, map[0 := Event(1, 1)], [NewHold(0, 1, 1, None, 0)], map[0 := 5], map[0 := 15], map[]);
            ReserveCall(c, d, q, Request(0, 1, 1, None)).0 == d.(lru := map[0 := 604], flags := map[0 := 614])
  {
    var hold := NewHold(0, 1, 1, None, 0);
    assert [] + [hold] == [hold];
    TotalAppend([], hold, 0, Everyone, 599);
    TotalAppend([], hold, 0, Only(1), 599);
    ReserveDecides(map[0 := Event(1, 1)], [hold], 599, 599, 0, 1, 1, None);
    var l: map<EventId, int>, f: map<EventId, int> := map[0 := 5], map[0 := 15];
    assert l[0 := 604] == map[0 := 604] && f[0 := 614] == map[0 := 614];
  }
}
