/** What each service call answers, and what it leaves behind, told from the table, the caches and the whitelist
    it finds. */
module ReservationAnswers {
  import opened Common
  import opened ReservationTable
  import opened ReservationStore
  import opened ReservationProtocol
  import opened ReservationCaches
  import opened ReservationCalls
  import VQ = VirtualQueueScripts
  import VS = VirtualQueueService

  // ---- reserve ----

  /** The reservation that the request's key already names, as the service finds it. */
  function Found(d: Desk, req: Request): Option<Item> {
    if req.key.Some? then LookUp(d, CacheKey(req.event, req.user, req.key.value)) else None
  }

  /** The lookup finds something exactly when a row has the key, whether it asks the cache or the table, and what it
      finds is that row: the cached copy while its minute lasts, else the row as it stands. */
  lemma FoundExactly(d: Desk, req: Request)
    requires ItemsNamed(d)
    ensures Found(d, req).Some? <==>
              req.key.Some? && exists i | 0 <= i < |d.rows| :: SameKey(d.rows[i], req.event, req.user, req.key.value)
    ensures Found(d, req).Some? ==>
              var item := Found(d, req).value;
              && item.id < |d.rows| && SameKey(d.rows[item.id], req.event, req.user, req.key.value)
              && item.row.quantity == d.rows[item.id].quantity
              && var at := CacheKey(req.event, req.user, req.key.value);
                 if at in d.items && d.now <= d.items[at].1 then item == d.items[at].0
                 else item.row == d.rows[item.id]
  {
    if req.key.Some? {
      var at := CacheKey(req.event, req.user, req.key.value);
      if at in d.items {
        assert SameKey(d.rows[d.items[at].0.id], at.event, at.user, at.key);
        assert IdentityOf(d.items[at].0.row) == IdentityOf(d.rows[d.items[at].0.id]);
      }
    }
  }

  /** The order of the service's own tests: sold out, then the key, then the whitelist. Whoever they turn away
      leaves the table, the items and, but for the fast reject, the queue as they were. */
  lemma ReserveTurnsAway(c: VQ.Config, d: Desk, q: VQ.Queue, req: Request)
    requires req.quantity < TWO_32
    ensures var (d', q', result) := ReserveCall(c, d, q, req);
            var found := Found(d, req);
            && (Blocked(d, req.event) ==>
                  result == Err(Database(InsufficientCapacity)) && d'.rows == d.rows && d'.items == d.items)
            && (!Blocked(d, req.event) && found.Some? ==>
                  && result == (if found.value.row.quantity == req.quantity then Ok(found.value) else Err(KeyReused))
                  && d' == d && q' == q)
            && (result == Err(KeyReused) ==> !Blocked(d, req.event) && found.Some?)
            && (result == Err(QueueInProgress) <==>
                  !Blocked(d, req.event) && found.None? && req.user !in q.whitelist)
            && (result == Err(QueueInProgress) ==> d' == d && q' == q)
  {
  }

  /** Whoever gets past them: no marker, no reservation under the key, and a slot in hand. */
  predicate Admitted(d: Desk, q: VQ.Queue, req: Request) {
    !Blocked(d, req.event) && Found(d, req).None? && req.user in q.whitelist
  }

  /** What an admitted request is answered, from the sums alone, unless a sum carries. */
  lemma ReserveCallAnswers(c: VQ.Config, d: Desk, q: VQ.Queue, req: Request)
    requires req.quantity < TWO_32 && Admitted(d, q, req)
    ensures var result := ReserveCall(c, d, q, req).2;
            var total, userTotal :=
              Total(d.rows, req.event, Everyone, d.now), Total(d.rows, req.event, Only(req.user), d.now);
            && (result == Err(Database(EventNotFound)) <==> req.event !in d.events)
            && (req.event in d.events && total + req.quantity < TWO_32 ==>
                  var quota, capacity := d.events[req.event].maxPerUser, d.events[req.event].capacity;
                  var fitsUser := req.quantity <= quota && userTotal + req.quantity <= quota;
                  var fitsEvent := total + req.quantity <= capacity;
                  && (result == Err(Database(ExceedMaxReserveQuantity)) <==> !fitsUser)
                  && (result == Err(Database(InsufficientCapacity)) <==> fitsUser && !fitsEvent)
                  && (result == Err(Database(ConstraintViolated)) <==> fitsUser && fitsEvent && req.quantity == 0)
                  && (result.Ok? <==> fitsUser && fitsEvent && 0 < req.quantity))
  {
    RefusalExact(d.events, d.rows, d.now, d.now, req.event, req.user, req.quantity, req.key);
  }

  lemma ReachesDatabase(c: VQ.Config, d: Desk, q: VQ.Queue, req: Request)
    requires req.quantity < TWO_32 && Admitted(d, q, req) && req.event in d.events
    ensures ReserveCall(c, d, q, req) == ReserveInDatabase(c, d, q, req)
  {
  }

  lemma DatabaseRecords(c: VQ.Config, d: Desk, q: VQ.Queue, req: Request)
    requires req.quantity < TWO_32
    ensures var (d', _, result) := ReserveInDatabase(c, d, q, req);
            var (rows', reply) := Reserve(d.events, d.rows, d.now, d.now, req.event, req.user, req.quantity, req.key);
            d' == Recorded(d, req, rows', reply) && (result.Ok? <==> reply.result.Ok?)
            && (result.Ok? ==> result.value == reply.result.value)
  {
  }

  lemma RecordedRows(d: Desk, req: Request, rows: seq<Row>, reply: Reply)
    ensures var d' := Recorded(d, req, rows, reply); d'.rows == rows && d'.events == d.events && d'.now == d.now
  {
  }

  lemma DatabaseInserts(c: VQ.Config, d: Desk, q: VQ.Queue, req: Request)
    requires req.quantity < TWO_32
    ensures var d' := ReserveInDatabase(c, d, q, req).0;
            && d'.rows == Reserve(d.events, d.rows, d.now, d.now, req.event, req.user, req.quantity, req.key).0
            && d'.events == d.events && d'.now == d.now
  {
    var (rows', reply) := Reserve(d.events, d.rows, d.now, d.now, req.event, req.user, req.quantity, req.key);
    DatabaseRecords(c, d, q, req);
    RecordedRows(d, req, rows', reply);
  }

  lemma NotAdmittedKeeps(c: VQ.Config, d: Desk, q: VQ.Queue, req: Request)
    requires req.quantity < TWO_32 && !(Admitted(d, q, req) && req.event in d.events)
    ensures var d' := ReserveCall(c, d, q, req).0; d'.rows == d.rows && d'.events == d.events && d'.now == d.now
  {
  }

  /** Only an admitted request inserts, and it inserts one hold, for ten minutes. */
  lemma ReserveCallInserts(c: VQ.Config, d: Desk, q: VQ.Queue, req: Request)
    requires req.quantity < TWO_32
    ensures var d' := ReserveCall(c, d, q, req).0;
            var r := Row(req.event, req.user, req.quantity, Held, req.key, d.now, d.now + 600, None, None);
            && (d'.rows == d.rows || (Admitted(d, q, req) && d'.rows == d.rows + [r]))
            && d'.events == d.events && d'.now == d.now
  {
    if Admitted(d, q, req) && req.event in d.events {
      ReachesDatabase(c, d, q, req);
      DatabaseInserts(c, d, q, req);
      FreshHold(d.events, d.rows, d.now, d.now, req.event, req.user, req.quantity, req.key);
    } else {
      NotAdmittedKeeps(c, d, q, req);
    }
  }

  /** What an admitted request leaves in the caches: a full event is marked for fifteen seconds in Redis and five in
      this process, and a reservation under a key is kept for a minute. */
  lemma ReserveRecords(c: VQ.Config, d: Desk, q: VQ.Queue, req: Request)
    requires req.quantity < TWO_32 && Admitted(d, q, req) && req.event in d.events
    ensures var (d', _, result) := ReserveCall(c, d, q, req);
            var reply := Reserve(d.events, d.rows, d.now, d.now, req.event, req.user, req.quantity, req.key).1;
            var capped := reply.isCapped;
            && d'.lru == (if capped then d.lru[req.event := d.now + 5] else d.lru)
            && d'.flags == (if capped then d.flags[req.event := d.now + 15] else d.flags)
            && d'.items == (if result.Ok? && req.key.Some?
                            then d.items[CacheKey(req.event, req.user, req.key.value) := (result.value, d.now + 60)]
                            else d.items)
  {
    LookUpMisses(d, req);
    ReachesDatabase(c, d, q, req);
    DatabaseRecords(c, d, q, req);
    ReserveInserts(d.events, d.rows, d.now, d.now, req.event, req.user, req.quantity, req.key);
  }

  /** So the reserve that fills an event leaves it marked. */
  lemma FillingMarks(c: VQ.Config, d: Desk, q: VQ.Queue, req: Request)
    requires req.quantity < TWO_32 && Admitted(d, q, req) && req.event in d.events
    requires ReserveCall(c, d, q, req).2.Ok?
    requires d.events[req.event].capacity <= Total(d.rows, req.event, Everyone, d.now) + req.quantity < TWO_32
    ensures Blocked(ReserveCall(c, d, q, req).0, req.event)
  {
    UserWithinEvent(d.rows, req.event, req.user, d.now);
    ReserveRecords(c, d, q, req);
  }

  // ---- confirm, release, sweep, capacity, check ----

  /** A confirm succeeds exactly when it leaves the caller holding a confirmed reservation; it changes nothing but a
      live hold of the caller's. */
  lemma ConfirmCallAnswers(d: Desk, u: UserId, id: nat)
    ensures var (d', ok) := ConfirmCall(d, u, id);
            var live := id < |d.rows| && d.rows[id].user == u && d.rows[id].status == Held
              && d.now < d.rows[id].expiresAt;
            && (ok <==> id < |d'.rows| && d'.rows[id].user == u && d'.rows[id].status == Confirmed)
            && d' == d.(rows := if live then d.rows[id := d.rows[id].(status := Confirmed, confirmedAt := Some(d.now))]
                                else d.rows)
            && (id < |d.rows| && d.rows[id].status == Confirmed ==> d' == d && (ok <==> d.rows[id].user == u))
  {
  }

  /** A release succeeds exactly on a live hold of the caller's, and then lifts that event's markers and no others. */
  lemma ReleaseCallAnswers(d: Desk, u: UserId, id: nat)
    ensures var (d', failure) := ReleaseCall(d, u, id);
            var live := id < |d.rows| && d.rows[id].user == u && d.rows[id].status == Held
              && d.now < d.rows[id].expiresAt;
            && failure == (if live then None else Some(ReservationNotFound))
            && (!live ==> d' == d)
            && (live ==> d' == d.(rows := d.rows[id := d.rows[id].(status := Released, releasedAt := Some(d.now))],
                                  lru := d.lru - {d.rows[id].event}, flags := d.flags - {d.rows[id].event}))
  {
  }

  /** A sweep expires the holds that have run out, and lifts the markers of exactly the events that lost one. */
  lemma SweepCallDoes(d: Desk, e: EventId)
    ensures var d' := SweepCall(d);
            var lost := exists i | 0 <= i < |d.rows| ::
                          d.rows[i].event == e && d.rows[i].status == Held && d.rows[i].expiresAt <= d.now;
            && ExpiresDue(d.rows, d'.rows, d.now)
            && (e in d'.lru <==> e in d.lru && !lost) && (e in d'.flags <==> e in d.flags && !lost)
            && d'.items == d.items && d'.events == d.events
  {
    SweptExpires(d.rows, d.now);
    if i :| 0 <= i < |d.rows| && d.rows[i].event == e && d.rows[i].status == Held && d.rows[i].expiresAt <= d.now {
      assert Due(d.rows[i], d.now);
    }
  }

  /** A check answers whether either level is alive, and leaves the answer in the LRU for five seconds if it had to
      ask Redis. */
  lemma CheckReseeds(d: Desk, e: EventId)
    ensures var d' := AfterCheck(d, e);
            && (Alive(d'.lru, e, d.now) <==> Blocked(d, e))
            && (Blocked(d, e) && !Alive(d.lru, e, d.now) ==> d'.lru == d.lru[e := d.now + 5])
            && d' == d.(lru := d'.lru) && (forall f | f != e :: Alive(d'.lru, f, d.now) <==> Alive(d.lru, f, d.now))
  {
  }

  // ---- over runs of calls ----

  /** No call changes a row's identity or a row that is settled. */
  lemma RowStays(d: Desk, a: Call, id: nat)
    requires Callable(d, a) && id < |d.rows|
    ensures id < |Serve(d, a).rows| && IdentityOf(Serve(d, a).rows[id]) == IdentityOf(d.rows[id])
    ensures d.rows[id].status != Held ==> Serve(d, a).rows[id] == d.rows[id]
  {
    match a
    case ReserveBy(c, q, req) => ReserveCallInserts(c, d, q, req);
    case SweepRuns => SweptExpires(d.rows, d.now);
    case _ =>
  }

  /** The reserve that inserted the row: by its user, for its event and quantity, with a slot in hand. */
  ghost predicate InsertedAt(run: seq<Desk>, calls: seq<Call>, k: nat, r: Row)
    requires |run| == |calls| + 1 && k < |calls|
  {
    && calls[k].ReserveBy? && calls[k].req == Request(r.event, r.user, r.quantity, r.key)
    && r.user in calls[k].q.whitelist && r.reservedAt == run[k].now && r.expiresAt == run[k].now + 600
  }

  /** Every reservation in the table was made by a user who held a slot at that call. */
  lemma {:induction false} EveryRowHadASlot(run: seq<Desk>, calls: seq<Call>, n: nat, id: nat)
    requires IsServed(run, calls) && n < |run| && id < |run[n].rows|
    ensures exists k | 0 <= k < n :: InsertedAt(run, calls, k, run[n].rows[id])
  {
    if n > 0 {
      var p := n - 1;
      assert ServedAt(run, calls, p);
      if id < |run[p].rows| {
        EveryRowHadASlot(run, calls, p, id);
        RowStays(run[p], calls[p], id);
        var k :| 0 <= k < p && InsertedAt(run, calls, k, run[p].rows[id]);
        assert InsertedAt(run, calls, k, run[n].rows[id]);
      } else {
        RowsOnlyFromReserve(run[p], calls[p]);
        ReserveCallInserts(calls[p].c, run[p], calls[p].q, calls[p].req);
        assert InsertedAt(run, calls, p, run[n].rows[id]);
      }
    }
  }

  lemma RowsOnlyFromReserve(d: Desk, a: Call)
    requires Callable(d, a) && |d.rows| < |Serve(d, a).rows|
    ensures a.ReserveBy?
  {
  }

  lemma {:induction false} SettledStays(run: seq<Desk>, calls: seq<Call>, m: nat, n: nat, id: nat)
    requires IsServed(run, calls) && m <= n < |run| && id < |run[m].rows| && run[m].rows[id].status != Held
    ensures id < |run[n].rows| && run[n].rows[id] == run[m].rows[id]
  {
    if m < n {
      SettledStays(run, calls, m, n - 1, id);
      assert ServedAt(run, calls, n - 1);
      RowStays(run[n - 1], calls[n - 1], id);
    }
  }

  /** Once a reservation is confirmed, every later confirm by its owner succeeds, every confirm by anyone else
      fails, and neither changes anything. */
  lemma ConfirmCallReplays(run: seq<Desk>, calls: seq<Call>, m: nat, n: nat, id: nat, v: UserId)
    requires IsServed(run, calls) && m <= n < |run| && id < |run[m].rows| && run[m].rows[id].status == Confirmed
    ensures ConfirmCall(run[n], v, id) == (run[n], v == run[m].rows[id].user)
  {
    SettledStays(run, calls, m, n, id);
    ConfirmCallAnswers(run[n], v, id);
  }
}
