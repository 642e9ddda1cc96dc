/** The per-process LRU and the shared Redis keys of the reservation repository: the sold-out marker, the
    cached reservation, and the sweep's lock. Times are whole seconds; a key lives up to and including its
    expiry. */
module ReservationCaches {
  import opened Common
  import opened ReservationStore

  const LRU_BLOCK_TTL: int := 5
  const EVENT_BLOCKED_TTL: int := 15
  const RESERVATION_ITEM_TTL: int := 60
  const MARGIN_TTL: int := 5

  predicate Alive<K>(expiries: map<K, int>, k: K, now: int) {
    k in expiries && now <= expiries[k]
  }

  // ---- the sweep lock ----

  datatype Lock = Lock(token: nat, expiry: int)

  predicate LockFree(lock: Option<Lock>, now: int) {
    lock.None? || lock.value.expiry < now
  }

  /** SETNX with the remaining deadline plus the margin as its TTL. */
  function SetNX(lock: Option<Lock>, now: int, token: nat, remaining: int): (Option<Lock>, bool) {
    if LockFree(lock, now) then (Some(Lock(token, now + remaining + MARGIN_TTL)), true) else (lock, false)
  }

  /** The unlock script: delete only what still carries the caller's token. */
  function Unlock(lock: Option<Lock>, now: int, token: nat): Option<Lock> {
    if !LockFree(lock, now) && lock.value.token == token then None else lock
  }

  class LRUReservationRepository {
    var expiries: map<EventId, int>

    constructor ()
      ensures expiries == map[]
    {
      expiries := map[];
    }

    method BlockEvent(now: int, e: EventId)
      modifies this
      ensures expiries == old(expiries)[e := now + LRU_BLOCK_TTL]
    {
      expiries := expiries[e := now + LRU_BLOCK_TTL];
    }

    method UnblockEvent(e: EventId)
      modifies this
      ensures expiries == old(expiries) - {e}
    {
      expiries := expiries - {e};
    }

    method IsBlockEvent(now: int, e: EventId) returns (blocked: bool)
      ensures blocked <==> Alive(expiries, e, now)
    {
      blocked := e in expiries && now <= expiries[e];
    }

    method ClearBlockedEvents()
      modifies this
      ensures expiries == map[]
    {
      expiries := map[];
    }
  }

  class RemoteCacheReservationRepository {
    var flags: map<EventId, int>
    var items: map<CacheKey, (Item, int)>
    var lock: Option<Lock>

    constructor ()
      ensures flags == map[] && items == map[] && lock == None
    {
      flags, items, lock := map[], map[], None;
    }

    method BlockEvent(now: int, e: EventId)
      modifies this`flags
      ensures flags == old(flags)[e := now + EVENT_BLOCKED_TTL]
    {
      flags := flags[e := now + EVENT_BLOCKED_TTL];
    }

    method UnblockEvent(e: EventId)
      modifies this`flags
      ensures flags == old(flags) - {e}
    {
      flags := flags - {e};
    }

    method IsBlockEvent(now: int, e: EventId) returns (blocked: bool)
      ensures blocked <==> Alive(flags, e, now)
    {
      blocked := e in flags && now <= flags[e];
    }

    method SetReservationByIdempotencyKey(now: int, at: CacheKey, item: Item)
      modifies this`items
      ensures items == old(items)[at := (item, now + RESERVATION_ITEM_TTL)]
    {
      items := items[at := (item, now + RESERVATION_ITEM_TTL)];
    }

    method GetReservationByIdempotencyKey(now: int, at: CacheKey) returns (item: Option<Item>)
      ensures item == if at in items && now <= items[at].1 then Some(items[at].0) else None
    {
      item := if at in items && now <= items[at].1 then Some(items[at].0) else None;
    }

    /** Fails when the context's deadline has passed or somebody else holds the lock. */
    method LockRefreshEventStatus(now: int, token: nat, remaining: int) returns (ok: bool)
      modifies this`lock
      ensures ok <==> 0 < remaining && LockFree(old(lock), now)
      ensures lock == if ok then SetNX(old(lock), now, token, remaining).0 else old(lock)
    {
      if remaining <= 0 || !LockFree(lock, now) { return false; }
      lock := Some(Lock(token, now + remaining + MARGIN_TTL));
      ok := true;
    }

    method ReleaseRefreshEventStatus(now: int, token: nat)
      modifies this`lock
      ensures lock == Unlock(old(lock), now, token)
      ensures old(lock).Some? && old(lock).value.token != token ==> lock == old(lock)
    {
      if !LockFree(lock, now) && lock.value.token == token { lock := None; }
    }
  }
}
