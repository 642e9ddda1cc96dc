/** The reservations table: rows, the sums the SQL takes over them, and what each statement changes. */
module ReservationTable {
  import opened Common

  // Ten minutes, in seconds.
  const RESERVATION_TTL: int := 600

  datatype Status = Held | Confirmed | Released | Expired

  // A row's id is its position in the table: ids are only ever compared, and a new row gets a new one.
  datatype Row = Row(
    event: EventId,
    user: UserId,
    quantity: nat,
    status: Status,
    key: Option<Key>,
    reservedAt: int,
    expiresAt: int,
    confirmedAt: Option<int>,
    releasedAt: Option<int>)

  datatype Event = Event(capacity: nat, maxPerUser: nat)

  // What a row keeps for ever.
  datatype Identity = Identity(event: EventId, user: UserId, quantity: nat, key: Option<Key>,
    reservedAt: int, expiresAt: int)

  function IdentityOf(r: Row): Identity {
    Identity(r.event, r.user, r.quantity, r.key, r.reservedAt, r.expiresAt)
  }

  // Whose seats a sum counts: the plain sum, or the one with FILTER (WHERE user_id = ...).
  datatype Scope = Everyone | Only(user: UserId)

  predicate Concerns(r: Row, e: EventId, w: Scope) {
    r.event == e && (w.Only? ==> r.user == w.user)
  }

  predicate Active(r: Row, t: int) {
    (r.status == Held && r.expiresAt > t) || r.status == Confirmed
  }

  predicate Pending(r: Row) {
    r.status == Held || r.status == Confirmed
  }

  // The columns' CHECK constraints and the two timestamps' meaning.
  predicate ValidRow(r: Row) {
    && 0 < r.quantity
    && (r.confirmedAt.Some? <==> r.status == Confirmed)
    && (r.releasedAt.Some? <==> r.status == Released || r.status == Expired)
  }

  function Sum(ws: seq<nat>): nat {
    if ws == [] then 0 else Sum(ws[..|ws| - 1]) + ws[|ws| - 1]
  }

  function SeatsAt(r: Row, e: EventId, w: Scope, t: int): nat {
    if Concerns(r, e, w) && Active(r, t) then r.quantity else 0
  }

  function ActiveWeights(rows: seq<Row>, e: EventId, w: Scope, t: int): seq<nat> {
    seq(|rows|, i requires 0 <= i < |rows| => SeatsAt(rows[i], e, w, t))
  }

  /** Seats held and unexpired at t, or confirmed. */
  function Total(rows: seq<Row>, e: EventId, w: Scope, t: int): nat {
    Sum(ActiveWeights(rows, e, w, t))
  }

  function PendingWeights(rows: seq<Row>, e: EventId): seq<nat> {
    seq(|rows|, i requires 0 <= i < |rows| => if rows[i].event == e && Pending(rows[i]) then rows[i].quantity else 0)
  }

  /** Seats held or confirmed, whether or not the hold has expired. */
  function PendingTotal(rows: seq<Row>, e: EventId): nat {
    Sum(PendingWeights(rows, e))
  }

  // ---- sums ----

  lemma {:induction false} SumMono(xs: seq<nat>, ys: seq<nat>)
    requires |xs| == |ys|
    requires forall i :: 0 <= i < |xs| ==> xs[i] <= ys[i]
    ensures Sum(xs) <= Sum(ys)
  {
    if xs != [] {
      SumMono(xs[..|xs| - 1], ys[..|ys| - 1]);
    }
  }

  lemma SumAppend(xs: seq<nat>, x: nat)
    ensures Sum(xs + [x]) == Sum(xs) + x
  {
    assert (xs + [x])[..|xs|] == xs;
  }

  lemma {:induction false} SumSplit(xs: seq<nat>, ys: seq<nat>, zs: seq<nat>)
    requires |xs| == |ys| == |zs|
    requires forall i :: 0 <= i < |xs| ==> xs[i] == ys[i] + zs[i]
    ensures Sum(xs) == Sum(ys) + Sum(zs)
  {
    if xs != [] {
      SumSplit(xs[..|xs| - 1], ys[..|ys| - 1], zs[..|zs| - 1]);
    }
  }

  lemma {:induction false} SumUpdate(xs: seq<nat>, i: nat, x: nat)
    requires i < |xs|
    ensures Sum(xs[i := x]) + xs[i] == Sum(xs) + x
  {
    var n := |xs| - 1;
    if i == n {
      assert xs[i := x][..n] == xs[..n];
    } else {
      SumUpdate(xs[..n], i, x);
      assert xs[i := x][..n] == xs[..n][i := x];
    }
  }

  // ---- the statements ----

  predicate SameKey(r: Row, e: EventId, u: UserId, k: Key) {
    r.event == e && r.user == u && r.key == Some(k)
  }

  /** SELECT ... WHERE event_id = e AND user_id = u AND idempotency_key = k. */
  function FindKey(rows: seq<Row>, e: EventId, u: UserId, k: Key): (r: Option<nat>)
    ensures r.Some? ==> r.value < |rows| && SameKey(rows[r.value], e, u, k)
    ensures r.None? ==> forall i :: 0 <= i < |rows| ==> !SameKey(rows[i], e, u, k)
  {
    if rows == [] then None
    else
      var n := |rows| - 1;
      if SameKey(rows[n], e, u, k) then Some(n) else FindKey(rows[..n], e, u, k)
  }

  /** The partial unique index on (event_id, user_id, idempotency_key). */
  ghost predicate UniqueKeys(rows: seq<Row>) {
    forall i, j | 0 <= i < |rows| && 0 <= j < |rows| && rows[i].key.Some? && rows[i].key == rows[j].key
      && rows[i].event == rows[j].event && rows[i].user == rows[j].user :: i == j
  }

  function NewHold(e: EventId, u: UserId, q: nat, k: Option<Key>, stamp: int): Row {
    Row(e, u, q, Held, k, stamp, stamp + RESERVATION_TTL, None, None)
  }

  /** INSERT ... ON CONFLICT (event_id, user_id, idempotency_key) DO UPDATE ... RETURNING: the table
      and the id of the row returned. The conflicting row gets back the key it already had. */
  function Upsert(rows: seq<Row>, r: Row): (result: (seq<Row>, nat))
    ensures result.1 < |result.0|
    ensures IdentityOf(result.0[result.1]).key == r.key
  {
    var found := if r.key.Some? then FindKey(rows, r.event, r.user, r.key.value) else None;
    if found.Some? then (rows, found.value) else (rows + [r], |rows|)
  }

  /** The row UPDATE ... WHERE id AND user_id AND status = 'held' AND expires_at > now() would touch. */
  predicate Updatable(rows: seq<Row>, id: nat, u: UserId, now: int) {
    id < |rows| && rows[id].user == u && rows[id].status == Held && rows[id].expiresAt > now
  }

  function Settle(r: Row, target: Status, stamp: int): Row {
    if target == Confirmed then r.(status := Confirmed, confirmedAt := Some(stamp))
    else r.(status := target, releasedAt := Some(stamp))
  }

  predicate Due(r: Row, now: int) {
    r.status == Held && r.expiresAt <= now
  }

  /** UPDATE ... SET status = 'expired' WHERE status = 'held' AND expires_at <= now(). */
  function Swept(rows: seq<Row>, now: int): (r: seq<Row>)
    ensures |r| == |rows|
  {
    seq(|rows|, i requires 0 <= i < |rows| => if Due(rows[i], now) then Settle(rows[i], Expired, now) else rows[i])
  }

  // ---- what the statements do to the sums ----

  lemma TotalAppend(rows: seq<Row>, r: Row, e: EventId, w: Scope, t: int)
    ensures Total(rows + [r], e, w, t) == Total(rows, e, w, t) + SeatsAt(r, e, w, t)
  {
    assert ActiveWeights(rows + [r], e, w, t) == ActiveWeights(rows, e, w, t) + [SeatsAt(r, e, w, t)];
    SumAppend(ActiveWeights(rows, e, w, t), SeatsAt(r, e, w, t));
  }

  lemma TotalUpdate(rows: seq<Row>, i: nat, r: Row, e: EventId, w: Scope, t: int)
    requires i < |rows|
    ensures Total(rows[i := r], e, w, t) + SeatsAt(rows[i], e, w, t) == Total(rows, e, w, t) + SeatsAt(r, e, w, t)
  {
    assert ActiveWeights(rows[i := r], e, w, t) == ActiveWeights(rows, e, w, t)[i := SeatsAt(r, e, w, t)];
    SumUpdate(ActiveWeights(rows, e, w, t), i, SeatsAt(r, e, w, t));
  }

  lemma UserWithinEvent(rows: seq<Row>, e: EventId, u: UserId, t: int)
    ensures Total(rows, e, Only(u), t) <= Total(rows, e, Everyone, t)
  {
    SumMono(ActiveWeights(rows, e, Only(u), t), ActiveWeights(rows, e, Everyone, t));
  }

  lemma ActiveWithinPending(rows: seq<Row>, e: EventId, t: int)
    ensures Total(rows, e, Everyone, t) <= PendingTotal(rows, e)
  {
    SumMono(ActiveWeights(rows, e, Everyone, t), PendingWeights(rows, e));
  }

  lemma PendingAppend(rows: seq<Row>, r: Row, e: EventId)
    requires Pending(r)
    ensures PendingTotal(rows + [r], e) == PendingTotal(rows, e) + (if r.event == e then r.quantity else 0)
  {
    var extra := if r.event == e then r.quantity else 0;
    assert PendingWeights(rows + [r], e) == PendingWeights(rows, e) + [extra];
    SumAppend(PendingWeights(rows, e), extra);
  }

  lemma PendingSame(rows: seq<Row>, rows': seq<Row>, e: EventId)
    requires |rows| == |rows'|
    requires forall i | 0 <= i < |rows| && (rows[i].event == e || rows'[i].event == e) ::
               rows'[i].event == rows[i].event && rows'[i].quantity == rows[i].quantity
               && (Pending(rows'[i]) <==> Pending(rows[i]))
    ensures PendingTotal(rows', e) == PendingTotal(rows, e)
  {
    assert PendingWeights(rows', e) == PendingWeights(rows, e);
  }

  /** With no expired hold left unswept the two sums agree. */
  lemma PendingIsActive(rows: seq<Row>, e: EventId, t: int)
    requires forall i :: 0 <= i < |rows| && rows[i].event == e ==> !Due(rows[i], t)
    ensures Total(rows, e, Everyone, t) == PendingTotal(rows, e)
  {
    assert ActiveWeights(rows, e, Everyone, t) == PendingWeights(rows, e);
  }

  /** The sweep conserves every event's active seats, now and at every later time. */
  lemma SweepConservesSeats(rows: seq<Row>, now: int, e: EventId, w: Scope, t: int)
    requires now <= t
    ensures Total(Swept(rows, now), e, w, t) == Total(rows, e, w, t)
  {
    assert ActiveWeights(Swept(rows, now), e, w, t) == ActiveWeights(rows, e, w, t);
  }

  /** Every hold that has run out has become expired, stamped with the clock, and every other row is as it was. */
  ghost predicate ExpiresDue(before: seq<Row>, after: seq<Row>, now: int) {
    && |after| == |before|
    && forall i | 0 <= i < |before| ::
         after[i] == if before[i].status == Held && before[i].expiresAt <= now
                     then before[i].(status := Expired, releasedAt := Some(now)) else before[i]
  }

  lemma SweptExpires(rows: seq<Row>, now: int)
    ensures ExpiresDue(rows, Swept(rows, now), now)
  {
  }

  lemma SweptKeepsKeys(rows: seq<Row>, now: int)
    requires UniqueKeys(rows)
    ensures UniqueKeys(Swept(rows, now))
  {
    var after := Swept(rows, now);
    assert forall i | 0 <= i < |rows| :: IdentityOf(after[i]) == IdentityOf(rows[i]);
    assert forall i | 0 <= i < |rows| ::
      after[i].key == rows[i].key && after[i].event == rows[i].event && after[i].user == rows[i].user;
  }
}
