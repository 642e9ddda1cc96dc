/** The reservation repository and service as objects: the database, the process's LRU, the shared Redis keys
    and the event's queue, changed step by step as the Go code does. */
module ReservationService {
  import opened Common
  import opened ReservationTable
  import opened ReservationStore
  import opened ReservationProtocol
  import opened ReservationCaches
  import opened ReservationCalls
  import VQ = VirtualQueueScripts
  import VS = VirtualQueueService

  ghost function Elements(eventIds: seq<EventId>): set<EventId> {
    set e | e in eventIds
  }

  class ReservationRepository {
    const postgres: PostgresReservationRepository
    const remote: RemoteCacheReservationRepository
    const local: LRUReservationRepository

    ghost predicate Valid()
      reads postgres
    {
      postgres.Valid()
    }

    ghost function DeskAt(now: int): Desk
      reads postgres, remote, local
    {
      Desk(now, postgres.events, postgres.rows, local.expiries, remote.flags, remote.items)
    }

    constructor (postgres: PostgresReservationRepository, remote: RemoteCacheReservationRepository,
                 local: LRUReservationRepository)
      ensures this.postgres == postgres && this.remote == remote && this.local == local
    {
      this.postgres, this.remote, this.local := postgres, remote, local;
    }

    method BlockEvent(now: int, e: EventId)
      modifies local, remote`flags
      ensures DeskAt(now) == MarkBlocked(old(DeskAt(now)), e)
    {
      local.BlockEvent(now, e);
      remote.BlockEvent(now, e);
    }

    method UnblockEvent(now: int, e: EventId)
      modifies local, remote`flags
      ensures DeskAt(now) == MarkUnblocked(old(DeskAt(now)), e)
    {
      local.UnblockEvent(e);
      remote.UnblockEvent(e);
    }

    method IsBlockEvent(now: int, e: EventId) returns (blocked: bool)
      modifies local
      ensures blocked <==> Blocked(old(DeskAt(now)), e)
      ensures DeskAt(now) == AfterCheck(old(DeskAt(now)), e)
    {
      var here := local.IsBlockEvent(now, e);
      if here { return true; }
      blocked := remote.IsBlockEvent(now, e);
      if blocked { local.BlockEvent(now, e); }
    }

    method GetReservationByIdempotencyKey(now: int, at: CacheKey) returns (item: Option<Item>)
      requires Valid()
      ensures item == LookUp(DeskAt(now), at)
    {
      item := remote.GetReservationByIdempotencyKey(now, at);
      if item.None? {
        var found := postgres.GetReservationByIdempotencyKey(at.event, at.user, at.key);
        item := if found.Ok? then Some(found.value) else None;
      }
    }

    method ReleaseReservation(now: int, u: UserId, id: nat) returns (failure: Option<Failure>)
      requires Valid()
      modifies postgres`rows, local, remote`flags
      ensures Valid()
      ensures (DeskAt(now), failure) == ReleaseCall(old(DeskAt(now)), u, id)
    {
      var result := postgres.UpdateReservation(now, now, u, id, Released);
      if result.Err? { return Some(result.error); }
      UnblockEvent(now, result.value);
      failure := None;
    }

    method UnblockEvents(now: int, eventIds: seq<EventId>)
      modifies local, remote`flags
      ensures DeskAt(now) == old(DeskAt(now)).(
                lru := old(local.expiries) - Elements(eventIds), flags := old(remote.flags) - Elements(eventIds))
    {
      var i := 0;
      while i < |eventIds|
        invariant i <= |eventIds|
        invariant local.expiries == old(local.expiries) - Elements(eventIds[..i])
        invariant remote.flags == old(remote.flags) - Elements(eventIds[..i])
      {
        UnblockEvent(now, eventIds[i]);
        assert Elements(eventIds[..i + 1]) == Elements(eventIds[..i]) + {eventIds[i]};
        i := i + 1;
      }
      assert eventIds[..i] == eventIds;
    }

    /** The sweep under its lock. When another replica holds the lock nothing happens; when it ran, the lock is
        free again. */
    method RefreshEventStatus(now: int, token: nat, remaining: int) returns (swept: bool)
      requires Valid()
      modifies postgres`rows, local, remote`flags, remote`lock
      ensures Valid()
      ensures swept <==> 0 < remaining && LockFree(old(remote.lock), now)
      ensures DeskAt(now) == if swept then SweepCall(old(DeskAt(now))) else old(DeskAt(now))
      ensures remote.lock == if swept then None else old(remote.lock)
    {
      swept := remote.LockRefreshEventStatus(now, token, remaining);
      if !swept { return; }
      ghost var due := DueEvents(postgres.rows, now);
      var eventIds, expired := postgres.RefreshEventStatus(now);
      UnblockEvents(now, eventIds);
      assert Elements(eventIds) == due;
      remote.ReleaseRefreshEventStatus(now, token);
    }
  }

  class ReservationService {
    const repository: ReservationRepository

    constructor (repository: ReservationRepository)
      ensures this.repository == repository
    {
      this.repository := repository;
    }

    // queue holds the keys of the requested event; now is one reading of its clock.
    method ReserveEvent(queue: VQ.EventQueue, req: Request) returns (result: Result<Item, ServiceError>)
      requires repository.Valid() && queue.Valid() && req.quantity < TWO_32
      modifies repository.postgres`rows, repository.local, repository.remote`flags, repository.remote`items, queue
      ensures repository.Valid() && queue.Valid()
      ensures (repository.DeskAt(queue.now), queue.State(), result)
           == ReserveCall(queue.cfg, old(repository.DeskAt(queue.now)), old(queue.State()), req)
    {
      var now := queue.now;
      var blocked := repository.IsBlockEvent(now, req.event);
      if blocked {
        ReleaseQueueSlot(queue, req.user);
        return Err(Database(InsufficientCapacity));
      }
      if req.key.Some? {
        var cached := repository.GetReservationByIdempotencyKey(now, CacheKey(req.event, req.user, req.key.value));
        if cached.Some? {
          if cached.value.row.quantity != req.quantity { return Err(KeyReused); }
          return Ok(cached.value);
        }
      }
      var whitelistTTL := queue.GetWhitelistedUserTTL(req.user);
      if whitelistTTL <= 0 { return Err(QueueInProgress); }
      if req.event !in repository.postgres.events { return Err(Database(EventNotFound)); }
      result := ReserveAdmitted(queue, req);
    }

    // The transaction, and what the service writes down about its outcome.
    method ReserveAndRecord(now: int, req: Request) returns (result: Result<Item, Failure>)
      requires repository.Valid() && req.quantity < TWO_32
      modifies repository.postgres`rows, repository.local, repository.remote`flags, repository.remote`items
      ensures repository.Valid()
      ensures var d := old(repository.DeskAt(now));
              var (rows', reply) := Reserve(d.events, d.rows, now, now, req.event, req.user, req.quantity, req.key);
              result == reply.result && repository.DeskAt(now) == Recorded(d, req, rows', reply)
    {
      var isCapped;
      result, isCapped := repository.postgres.ReserveEvent(now, now, req.event, req.user, req.quantity, req.key);
      if isCapped { repository.BlockEvent(now, req.event); }
      if result.Ok? && result.value.row.key.Some? {
        repository.remote.SetReservationByIdempotencyKey(now,
          CacheKey(req.event, req.user, result.value.row.key.value), result.value);
      }
    }

    method ReserveAdmitted(queue: VQ.EventQueue, req: Request) returns (result: Result<Item, ServiceError>)
      requires repository.Valid() && queue.Valid() && req.quantity < TWO_32
      modifies repository.postgres`rows, repository.local, repository.remote`flags, repository.remote`items, queue
      ensures repository.Valid() && queue.Valid()
      ensures (repository.DeskAt(queue.now), queue.State(), result)
           == ReserveInDatabase(queue.cfg, old(repository.DeskAt(queue.now)), old(queue.State()), req)
    {
      var reserved := ReserveAndRecord(queue.now, req);
      if reserved.Err? && reserved.error != InsufficientCapacity && reserved.error != ExceedMaxReserveQuantity {
        return Err(Database(reserved.error));
      }
      ReleaseQueueSlot(queue, req.user);
      result := if reserved.Ok? then Ok(reserved.value) else Err(Database(reserved.error));
    }

    method ReleaseQueueSlot(queue: VQ.EventQueue, u: UserId)
      requires queue.Valid()
      modifies queue
      ensures queue.Valid() && queue.State() == VS.ReleaseSlot(queue.cfg, old(queue.State()), u)
    {
      var _ := queue.DeleteWhitelistedUserTTL(u);
      var _ := queue.TryWhitelistEventQueue(1);
    }

    method ConfirmReservation(now: int, u: UserId, id: nat) returns (ok: bool)
      requires repository.Valid()
      modifies repository.postgres`rows
      ensures repository.Valid()
      ensures (repository.DeskAt(now), ok) == ConfirmCall(old(repository.DeskAt(now)), u, id)
    {
      var result := repository.postgres.UpdateReservation(now, now, u, id, Confirmed);
      if result == Err(ReservationNotFound) {
        var rows := repository.postgres.rows;
        if id < |rows| && rows[id].user == u && rows[id].status == Confirmed { return true; }
      }
      ok := result.Ok?;
    }
  }
}
