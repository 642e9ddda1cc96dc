/** The Postgres repository: each method is one transaction that runs without interruption.
    ReservationProtocol interleaves the same transactions step by step. */
module ReservationStore {
  import opened Common
  import opened ReservationTable

  datatype Failure =
    | EventNotFound
    | ReservationNotFound
    | ExceedMaxReserveQuantity
    | InsufficientCapacity
    | InvalidUpdateStatus
    | ScanOutOfRange
    | ConstraintViolated

  datatype Item = Item(id: nat, row: Row)

  datatype CacheKey = CacheKey(event: EventId, user: UserId, key: Key)

  datatype Verdict = Accept | Refuse(why: Failure, isCapped: bool)

  /** The Go checks between the locked read and the INSERT, in machine arithmetic. A sum that does
      not fit uint32 fails in Scan, before isCapped is set. */
  function Check(capacity: nat, maxPerUser: nat, total: nat, userTotal: nat, quantity: nat): Verdict
    requires userTotal <= total && quantity < TWO_32
  {
    if TWO_32 <= total then Refuse(ScanOutOfRange, false)
    else if Add32(userTotal, quantity) > maxPerUser then Refuse(ExceedMaxReserveQuantity, capacity <= total)
    else if Add32(total, quantity) > capacity then Refuse(InsufficientCapacity, capacity <= total)
    else if quantity == 0 then Refuse(ConstraintViolated, capacity <= total)
    else Accept
  }

  predicate Wraps(total: nat, quantity: nat) {
    TWO_32 <= total + quantity
  }

  /** The user addition decides the true inequality exactly when it does not carry. */
  lemma UserCheckExact(maxPerUser: nat, userTotal: nat, quantity: nat)
    requires quantity <= maxPerUser <= INT32_MAX && userTotal < TWO_32
    ensures (Add32(userTotal, quantity) > maxPerUser <==> userTotal + quantity > maxPerUser)
       <==> !Wraps(userTotal, quantity)
  {
    if Wraps(userTotal, quantity) {
      assert Add32(userTotal, quantity) < quantity;
    }
  }

  /** So does the event addition, unless what the carry leaves over is itself above the capacity. */
  lemma EventCheckExact(capacity: nat, total: nat, quantity: nat)
    requires capacity <= INT32_MAX && quantity <= INT32_MAX && total < TWO_32
    ensures (Add32(total, quantity) > capacity <==> total + quantity > capacity)
       <==> !Wraps(total, quantity) || total + quantity - TWO_32 > capacity
  {
    if Wraps(total, quantity) {
      assert Add32(total, quantity) == total + quantity - TWO_32;
      assert total + quantity > capacity;
    }
  }

  /** Without a carry the checks accept exactly the requests that fit, and report a full event. */
  lemma CheckDecides(capacity: nat, maxPerUser: nat, total: nat, userTotal: nat, quantity: nat)
    requires userTotal <= total && quantity < TWO_32 && !Wraps(total, quantity)
    ensures Check(capacity, maxPerUser, total, userTotal, quantity).Accept?
       <==> 0 < quantity && userTotal + quantity <= maxPerUser && total + quantity <= capacity
    ensures Check(capacity, maxPerUser, total, userTotal, quantity).Refuse? ==>
              (Check(capacity, maxPerUser, total, userTotal, quantity).isCapped <==> capacity <= total)
  {
    assert Add32(userTotal, quantity) == userTotal + quantity;
    assert Add32(total, quantity) == total + quantity;
  }

  datatype Reply = Reply(result: Result<Item, Failure>, isCapped: bool)

  /** One reserve transaction begun at now whose INSERT is stamped with the later clock reading stamp. */
  function Reserve(events: map<EventId, Event>, rows: seq<Row>, now: int, stamp: int,
                   e: EventId, u: UserId, q: nat, k: Option<Key>): (seq<Row>, Reply)
    requires q < TWO_32
  {
    if e !in events then (rows, Reply(Err(EventNotFound), false))
    else if q > events[e].maxPerUser then (rows, Reply(Err(ExceedMaxReserveQuantity), false))
    else
      var total, userTotal := Total(rows, e, Everyone, now), Total(rows, e, Only(u), now);
      UserWithinEvent(rows, e, u, now);
      match Check(events[e].capacity, events[e].maxPerUser, total, userTotal, q)
      case Refuse(why, isCapped) => (rows, Reply(Err(why), isCapped))
      case Accept =>
        var (rows', id) := Upsert(rows, NewHold(e, u, q, k, stamp));
        (rows', Reply(Ok(Item(id, rows'[id])), Add32(total, q) >= events[e].capacity))
  }

  /** The row a request's key already names. */
  function Replayed(rows: seq<Row>, e: EventId, u: UserId, k: Option<Key>): Option<nat> {
    if k.Some? then FindKey(rows, e, u, k.value) else None
  }

  /** Without a carry a reserve succeeds exactly when the request fits, and then either adds one hold for
      it or, when its key is taken, changes nothing and answers with the row that has the key. */
  lemma ReserveDecides(events: map<EventId, Event>, rows: seq<Row>, now: int, stamp: int,
                       e: EventId, u: UserId, q: nat, k: Option<Key>)
    requires q < TWO_32 && !Wraps(Total(rows, e, Everyone, now), q)
    requires e in events ==> events[e].maxPerUser <= INT32_MAX
    ensures var (rows', reply) := Reserve(events, rows, now, stamp, e, u, q, k);
            && (reply.result.Ok? <==>
                  && e in events && 0 < q
                  && Total(rows, e, Only(u), now) + q <= events[e].maxPerUser
                  && Total(rows, e, Everyone, now) + q <= events[e].capacity)
            && (reply.result.Err? ==> rows' == rows)
            && (reply.result.Ok? && Replayed(rows, e, u, k).None? ==>
                  && rows' == rows + [NewHold(e, u, q, k, stamp)]
                  && reply.result.value == Item(|rows|, NewHold(e, u, q, k, stamp)))
            && (reply.result.Ok? && Replayed(rows, e, u, k).Some? ==>
                  && rows' == rows
                  && reply.result.value == Item(Replayed(rows, e, u, k).value, rows[Replayed(rows, e, u, k).value]))
  {
    if e in events {
      UserWithinEvent(rows, e, u, now);
      CheckDecides(events[e].capacity, events[e].maxPerUser,
                   Total(rows, e, Everyone, now), Total(rows, e, Only(u), now), q);
    }
  }

  /** Why a reserve refuses, from the sums alone. A sum beyond uint32 is refused whatever else is wrong; without a
      carry the user's quota is judged before the event's capacity, and an empty request fits both and is refused
      by the table. */
  lemma RefusalExact(events: map<EventId, Event>, rows: seq<Row>, now: int, stamp: int,
                     e: EventId, u: UserId, q: nat, k: Option<Key>)
    requires q < TWO_32
    ensures var result := Reserve(events, rows, now, stamp, e, u, q, k).1.result;
            var total, userTotal := Total(rows, e, Everyone, now), Total(rows, e, Only(u), now);
            && (result == Err(EventNotFound) <==> e !in events)
            && (result == Err(ScanOutOfRange) <==> e in events && q <= events[e].maxPerUser && TWO_32 <= total)
            && (e in events && (q <= events[e].maxPerUser ==> total + q < TWO_32) ==>
                  var fitsUser := q <= events[e].maxPerUser && userTotal + q <= events[e].maxPerUser;
                  var fitsEvent := total + q <= events[e].capacity;
                  && (result == Err(ExceedMaxReserveQuantity) <==> !fitsUser)
                  && (result == Err(InsufficientCapacity) <==> fitsUser && !fitsEvent)
                  && (result == Err(ConstraintViolated) <==> fitsUser && fitsEvent && q == 0)
                  && (result.Ok? <==> fitsUser && fitsEvent && 0 < q))
  {
    UserWithinEvent(rows, e, u, now);
  }

  /** The row a reserve inserts: held for the request, for ten minutes from its clock reading. */
  lemma FreshHold(events: map<EventId, Event>, rows: seq<Row>, now: int, stamp: int,
                  e: EventId, u: UserId, q: nat, k: Option<Key>)
    requires q < TWO_32
    ensures var rows' := Reserve(events, rows, now, stamp, e, u, q, k).0;
            rows' == rows || rows' == rows + [Row(e, u, q, Held, k, stamp, stamp + 600, None, None)]
  {
    UserWithinEvent(rows, e, u, now);
  }

  /** Carry or no carry, a reserve whose key is free either changes nothing or appends its own hold. */
  lemma ReserveInserts(events: map<EventId, Event>, rows: seq<Row>, now: int, stamp: int,
                       e: EventId, u: UserId, q: nat, k: Option<Key>)
    requires q < TWO_32 && Replayed(rows, e, u, k).None?
    ensures var (rows', reply) := Reserve(events, rows, now, stamp, e, u, q, k);
            var hold := NewHold(e, u, q, k, stamp);
            (reply.result.Err? && rows' == rows) || (reply.result == Ok(Item(|rows|, hold)) && rows' == rows + [hold])
  {
    UserWithinEvent(rows, e, u, now);
  }

  /** isCapped tells the truth about the table a reserve leaves behind, except here: the early guard answers
      false before any sum is read; so does a sum beyond uint32; a check that carried and passed compares what
      the carry left over; and a replay counts seats that were never inserted, which matters only if they would
      have made the difference. */
  lemma IsCappedExact(events: map<EventId, Event>, rows: seq<Row>, now: int, stamp: int,
                      e: EventId, u: UserId, q: nat, k: Option<Key>)
    requires q < TWO_32 && now < stamp + RESERVATION_TTL
    requires e in events && events[e].capacity <= INT32_MAX && events[e].maxPerUser <= INT32_MAX
    ensures var (rows', reply) := Reserve(events, rows, now, stamp, e, u, q, k);
            var total, capacity := Total(rows, e, Everyone, now), events[e].capacity;
            (reply.isCapped <==> Total(rows', e, Everyone, now) >= capacity) <==>
              if q > events[e].maxPerUser then total < capacity
              else if TWO_32 <= total then false
              else if Wraps(total, q) then reply.result.Err? || total + q - TWO_32 == capacity
              else reply.result.Err? || Replayed(rows, e, u, k).None? || total >= capacity || total + q < capacity
  {
    UserWithinEvent(rows, e, u, now);
    TotalAppend(rows, NewHold(e, u, q, k, stamp), e, Everyone, now);
  }

  /** A replay that reports a full event with a seat still free. */
  lemma ReplayMiscounts()
    ensures var rows := [NewHold(0, 1, 1, Some("k"), 0)];
            var (rows', reply) := Reserve(map[0 := Event(2, 2)], rows, 0, 0, 0, 1, 1, Some("k"));
            rows' == rows && reply.isCapped && Total(rows', 0, Everyone, 0) == 1
  {
    var hold := NewHold(0, 1, 1, Some("k"), 0);
    TotalAppend([], hold, 0, Everyone, 0);
    TotalAppend([], hold, 0, Only(1), 0);
    assert [] + [hold] == [hold];
  }

  /** A request above the quota that reports room in a full event. */
  lemma GuardMiscounts()
    ensures var rows := [NewHold(0, 1, 1, None, 0)];
            var (rows', reply) := Reserve(map[0 := Event(1, 1)], rows, 0, 0, 0, 2, 2, None);
            rows' == rows && !reply.isCapped && Total(rows', 0, Everyone, 0) == 1
  {
    TotalAppend([], NewHold(0, 1, 1, None, 0), 0, Everyone, 0);
    assert [] + [NewHold(0, 1, 1, None, 0)] == [NewHold(0, 1, 1, None, 0)];
  }

  /** One confirm or release transaction. */
  function Update(rows: seq<Row>, now: int, stamp: int, u: UserId, id: nat, target: Status)
    : (seq<Row>, Result<EventId, Failure>)
  {
    if target != Confirmed && target != Released then (rows, Err(InvalidUpdateStatus))
    else if !Updatable(rows, id, u, now) then (rows, Err(ReservationNotFound))
    else (rows[id := Settle(rows[id], target, stamp)], Ok(rows[id].event))
  }

  /** What confirm and release do to the row, and whom they refuse: only the owner's hold that has not run out
      changes, in its status and that status's own stamp. */
  lemma UpdateDoes(rows: seq<Row>, now: int, stamp: int, u: UserId, id: nat, target: Status)
    ensures var (rows', result) := Update(rows, now, stamp, u, id, target);
            var live := id < |rows| && rows[id].user == u && rows[id].status == Held && now < rows[id].expiresAt;
            && (result == Err(InvalidUpdateStatus) <==> target == Held || target == Expired)
            && (result == Err(ReservationNotFound) <==> (target == Confirmed || target == Released) && !live)
            && (result.Err? ==> rows' == rows)
            && (result.Ok? ==>
                  && live && result.value == rows[id].event
                  && rows' == rows[id := if target == Confirmed
                                         then rows[id].(status := Confirmed, confirmedAt := Some(stamp))
                                         else rows[id].(status := Released, releasedAt := Some(stamp))])
  {
  }

  /** What confirm and release do to the seats of any event and user at any time: a confirm makes the hold's seats
      last for ever, a release gives them back, and neither touches anybody else's. */
  lemma UpdateMovesSeats(rows: seq<Row>, now: int, stamp: int, u: UserId, id: nat,
                         target: Status, e: EventId, w: Scope, t: int)
    ensures var (rows', result) := Update(rows, now, stamp, u, id, target);
            && (result.Ok? <==> (target == Confirmed || target == Released) && Updatable(rows, id, u, now))
            && (result.Err? ==> rows' == rows)
            && (result.Ok? ==>
                  var own := if Concerns(rows[id], e, w) then rows[id].quantity else 0;
                  Total(rows', e, w, t) ==
                    Total(rows, e, w, t) - (if t < rows[id].expiresAt then own else 0)
                    + (if target == Confirmed then own else 0))
  {
    if Updatable(rows, id, u, now) && (target == Confirmed || target == Released) {
      TotalUpdate(rows, id, Settle(rows[id], target, stamp), e, w, t);
    }
  }

  /** A hold released by its owner before it expires leaves every sum as if it had never been reserved. */
  lemma ReleaseUndoesReserve(events: map<EventId, Event>, rows: seq<Row>, now: int, stamp: int, later: int,
                             req: (EventId, UserId, nat, Option<Key>), e: EventId, w: Scope, t: int)
    requires req.2 < TWO_32 && Replayed(rows, req.0, req.1, req.3).None?
    requires var (rows', reply) := Reserve(events, rows, now, stamp, req.0, req.1, req.2, req.3);
             reply.result.Ok? && later < stamp + RESERVATION_TTL
    ensures var (rows', reply) := Reserve(events, rows, now, stamp, req.0, req.1, req.2, req.3);
            var (rows'', released) := Update(rows', later, later, req.1, reply.result.value.id, Released);
            released == Ok(req.0) && Total(rows'', e, w, t) == Total(rows, e, w, t)
  {
    var (rows', reply) := Reserve(events, rows, now, stamp, req.0, req.1, req.2, req.3);
    ReserveInserts(events, rows, now, stamp, req.0, req.1, req.2, req.3);
    TotalAppend(rows, NewHold(req.0, req.1, req.2, req.3, stamp), e, w, t);
    UpdateMovesSeats(rows', later, later, req.1, reply.result.value.id, Released, e, w, t);
  }

  /** The service's replay-tolerant confirm: not found becomes success when the caller already holds a
      confirmed reservation under that id. */
  function Confirm(rows: seq<Row>, now: int, stamp: int, u: UserId, id: nat): (seq<Row>, bool) {
    var (rows', result) := Update(rows, now, stamp, u, id, Confirmed);
    (rows', result.Ok? || (id < |rows| && rows[id].user == u && rows[id].status == Confirmed))
  }

  // ---- the sweep's grouped result ----

  /** Rows of the events in es that a sweep at now turns to expired. */
  function DueIn(rows: seq<Row>, now: int, es: set<EventId>): nat {
    if rows == [] then 0
    else DueIn(rows[..|rows| - 1], now, es) +
         (if Due(rows[|rows| - 1], now) && rows[|rows| - 1].event in es then 1 else 0)
  }

  function DueEvents(rows: seq<Row>, now: int): set<EventId> {
    set i | 0 <= i < |rows| && Due(rows[i], now) :: rows[i].event
  }

  lemma {:induction false} DueSplits(rows: seq<Row>, now: int, es: set<EventId>, e: EventId)
    requires e !in es
    ensures DueIn(rows, now, es + {e}) == DueIn(rows, now, es) + DueIn(rows, now, {e})
  {
    if rows != [] {
      DueSplits(rows[..|rows| - 1], now, es, e);
    }
  }

  lemma {:induction false} DueNowhere(rows: seq<Row>, now: int)
    ensures DueIn(rows, now, {}) == 0
  {
    if rows != [] {
      DueNowhere(rows[..|rows| - 1], now);
    }
  }

  ghost function Changed(before: seq<Row>, after: seq<Row>): set<nat>
    requires |before| == |after|
  {
    set i: nat | i < |before| && before[i] != after[i]
  }

  /** Counting the due rows of all due events counts the rows the sweep changes. */
  lemma {:induction false} DueRowsAreTheChangedOnes(rows: seq<Row>, now: int, es: set<EventId>)
    requires forall i :: 0 <= i < |rows| && Due(rows[i], now) ==> rows[i].event in es
    ensures DueIn(rows, now, es) == |Changed(rows, Swept(rows, now))|
  {
    if rows == [] {
      assert Changed(rows, Swept(rows, now)) == {};
    } else {
      var n := |rows| - 1;
      DueRowsAreTheChangedOnes(rows[..n], now, es);
      var rest := Changed(rows[..n], Swept(rows[..n], now));
      assert Changed(rows, Swept(rows, now)) == if Due(rows[n], now) then rest + {n} else rest;
    }
  }

  /** The events a sweep names are those of the rows it changes. */
  lemma DueEventsLostAHold(rows: seq<Row>, now: int, e: EventId)
    ensures e in DueEvents(rows, now) <==> exists i | i in Changed(rows, Swept(rows, now)) :: rows[i].event == e
  {
    if e in DueEvents(rows, now) {
      var i :| 0 <= i < |rows| && Due(rows[i], now) && rows[i].event == e;
      assert i in Changed(rows, Swept(rows, now));
    }
  }

  class PostgresReservationRepository {
    var events: map<EventId, Event>
    var rows: seq<Row>

    ghost predicate Valid()
      reads this
    {
      && UniqueKeys(rows)
      && (forall i :: 0 <= i < |rows| ==> ValidRow(rows[i]) && rows[i].event in events)
      && (forall e :: e in events ==> events[e].capacity <= INT32_MAX && events[e].maxPerUser <= INT32_MAX)
    }

    constructor (events: map<EventId, Event>)
      requires forall e :: e in events ==> events[e].capacity <= INT32_MAX && events[e].maxPerUser <= INT32_MAX
      ensures Valid() && rows == [] && this.events == events
    {
      this.events := events;
      rows := [];
    }

    method ReserveEvent(now: int, stamp: int, e: EventId, u: UserId, quantity: nat, key: Option<Key>)
      returns (result: Result<Item, Failure>, isCapped: bool)
      requires Valid() && quantity < TWO_32
      modifies this`rows
      ensures Valid()
      ensures (rows, Reply(result, isCapped)) == Reserve(events, old(rows), now, stamp, e, u, quantity, key)
    {
      if e !in events { return Err(EventNotFound), false; }
      var capacity, maxPerUser := events[e].capacity, events[e].maxPerUser;
      if quantity > maxPerUser { return Err(ExceedMaxReserveQuantity), false; }

      var activeReserved := Total(rows, e, Everyone, now);
      var activePerUserReserved := Total(rows, e, Only(u), now);
      UserWithinEvent(rows, e, u, now);
      if activeReserved >= TWO_32 { return Err(ScanOutOfRange), false; }
      isCapped := activeReserved >= capacity;
      if Add32(activePerUserReserved, quantity) > maxPerUser { return Err(ExceedMaxReserveQuantity), isCapped; }
      if Add32(activeReserved, quantity) > capacity { return Err(InsufficientCapacity), isCapped; }
      if quantity == 0 { return Err(ConstraintViolated), isCapped; }

      var inserted := Upsert(rows, NewHold(e, u, quantity, key, stamp));
      rows := inserted.0;
      isCapped := Add32(activeReserved, quantity) >= capacity;
      result := Ok(Item(inserted.1, rows[inserted.1]));
    }

    method UpdateReservation(now: int, stamp: int, u: UserId, id: nat, target: Status)
      returns (result: Result<EventId, Failure>)
      requires Valid()
      modifies this`rows
      ensures Valid()
      ensures (rows, result) == Update(old(rows), now, stamp, u, id, target)
      ensures result.Ok? ==> id < |rows| == |old(rows)| && rows[id].status == target
      ensures result.Ok? ==> (if target == Confirmed then rows[id].confirmedAt else rows[id].releasedAt) == Some(stamp)
      ensures forall i | 0 <= i < |rows| && !(result.Ok? && i == id) :: rows[i] == old(rows)[i]
    {
      if target != Confirmed && target != Released { return Err(InvalidUpdateStatus); }
      if !Updatable(rows, id, u, now) { return Err(ReservationNotFound); }
      rows := rows[id := Settle(rows[id], target, stamp)];
      result := Ok(rows[id].event);
    }

    // The statement's UPDATE.
    method ExpireHolds(now: int)
      requires Valid()
      modifies this`rows
      ensures Valid()
      ensures rows == Swept(old(rows), now) && ExpiresDue(old(rows), rows, now)
    {
      SweptExpires(rows, now);
      SweptKeepsKeys(rows, now);
      rows := Swept(rows, now);
    }

    /** The sweep, and Go's loop over the grouped rows it returns, which arrive in any order. */
    method RefreshEventStatus(now: int) returns (eventIds: seq<EventId>, total: nat)
      requires Valid()
      modifies this`rows
      ensures Valid()
      ensures rows == Swept(old(rows), now) && ExpiresDue(old(rows), rows, now)
      ensures forall e :: e in eventIds <==> e in DueEvents(old(rows), now)
      ensures forall i, j :: 0 <= i < j < |eventIds| ==> eventIds[i] != eventIds[j]
      ensures total == |Changed(old(rows), rows)|
    {
      var before := rows;
      ExpireHolds(now);
      eventIds, total := CollectGroups(before, now);
      DueRowsAreTheChangedOnes(before, now, DueEvents(before, now));
    }

    static method CollectGroups(before: seq<Row>, now: int) returns (eventIds: seq<EventId>, total: nat)
      ensures forall e :: e in eventIds <==> e in DueEvents(before, now)
      ensures forall i, j :: 0 <= i < j < |eventIds| ==> eventIds[i] != eventIds[j]
      ensures total == DueIn(before, now, DueEvents(before, now))
    {
      var groups := DueEvents(before, now);
      eventIds, total := [], 0;
      ghost var seen: set<EventId> := {};
      DueNowhere(before, now);
      while groups != {}
        invariant seen + groups == DueEvents(before, now) && seen !! groups
        invariant forall e :: e in eventIds <==> e in seen
        invariant forall i, j :: 0 <= i < j < |eventIds| ==> eventIds[i] != eventIds[j]
        invariant total == DueIn(before, now, seen)
      {
        var e :| e in groups;
        var count := DueIn(before, now, {e});
        DueSplits(before, now, seen, e);
        eventIds := eventIds + [e];
        total := total + count;
        groups, seen := groups - {e}, seen + {e};
      }
    }

    method GetTotalReserved(now: int, e: EventId) returns (total: nat)
      ensures total == Total(rows, e, Everyone, now)
    {
      total := Total(rows, e, Everyone, now);
    }

    method GetReservationByIdempotencyKey(e: EventId, u: UserId, k: Key) returns (result: Result<Item, Failure>)
      requires Valid()
      ensures result.Err? <==> forall i :: 0 <= i < |rows| ==> !SameKey(rows[i], e, u, k)
      ensures result.Ok? ==> result.value.id < |rows| && result.value.row == rows[result.value.id]
      ensures result.Ok? ==> forall i :: 0 <= i < |rows| && SameKey(rows[i], e, u, k) <==> i == result.value.id
    {
      var found := FindKey(rows, e, u, k);
      if found.None? { return Err(ReservationNotFound); }
      result := Ok(Item(found.value, rows[found.value]));
    }
  }
}
