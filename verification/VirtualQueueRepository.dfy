/** The repository with its promoter, and the service, over the keys of every event. */
module VirtualQueueRepository {
  import opened Common
  import opened VirtualQueueScripts
  import opened VirtualQueueProtocol
  import opened VirtualQueueService
  import RC = ReservationCalls
  import RS = ReservationService

  /** The script's count as the repository reports it: a refusal, or whether the user is new to the queue. */
  function Outcome(affected: int): Result<bool, EnqueueError> {
    if affected < 0 then Err(VirtualQueueExists) else Ok(0 < affected)
  }

  /** So an enqueue is refused exactly on a live heartbeat, and tells whether the queue, as the sweep leaves it, had
      no place for the user. */
  lemma OutcomeExactly(c: Config, q: Queue, u: UserId)
    requires ValidConfig(c) && WellFormed(q)
    ensures var result := Outcome(VirtualQueueScripts.Enqueue(c, q, q.now, u).1);
            && (result == Err(VirtualQueueExists) <==> u in q.beats)
            && (result.Err? <==> u in q.beats)
            && (result.Ok? ==> (result.value <==> forall x | x in q.entries :: x.user == u ==> x.score <= q.now))
  {
    EnqueueAnswers(c, q, q.now, u);
  }

  class QueueRepository {
    const cfg: Config
    const queues: map<EventId, EventQueue>
    var activeEvents: set<EventId>

    ghost predicate Valid()
      reads this, queues.Values
    {
      && (forall e | e in queues :: queues[e].Valid() && queues[e].cfg == cfg)
      && (forall e, f | e in queues && f in queues && queues[e] == queues[f] :: e == f)
      && activeEvents <= queues.Keys
    }

    ghost function SiteOf(e: EventId): Site
      requires e in queues
      reads this, queues[e]
    {
      Site(queues[e].State(), e in activeEvents)
    }

    constructor (cfg: Config, queues: map<EventId, EventQueue>)
      requires forall e | e in queues :: queues[e].Valid() && queues[e].cfg == cfg
      requires forall e, f | e in queues && f in queues && queues[e] == queues[f] :: e == f
      ensures Valid() && this.cfg == cfg && this.queues == queues && activeEvents == {}
    {
      this.cfg, this.queues, activeEvents := cfg, queues, {};
    }

    /** The enqueue script and then SADD, also when the script refuses. */
    method Enqueue(e: EventId, u: UserId) returns (result: Result<bool, EnqueueError>)
      requires Valid() && e in queues
      modifies this`activeEvents, queues[e]
      ensures Valid() && activeEvents == old(activeEvents) + {e}
      ensures var q := old(queues[e].State());
              (queues[e].State(), result) ==
                (VirtualQueueScripts.Enqueue(cfg, q, q.now, u).0,
                 Outcome(VirtualQueueScripts.Enqueue(cfg, q, q.now, u).1))
    {
      var currentTime := queues[e].now;
      EnqueueKeeps(cfg, queues[e].State(), currentTime, u);
      var affected := queues[e].EnqueueScript(currentTime, u);
      activeEvents := activeEvents + {e};
      if affected < 0 { return Err(VirtualQueueExists); }
      result := Ok(affected > 0);
    }

    method UntrackIdleEvent(e: EventId) returns (removed: bool)
      requires Valid() && e in queues
      modifies this`activeEvents
      ensures Valid()
      ensures removed <==> e in old(activeEvents) && queues[e].entries == []
      ensures activeEvents == if removed then old(activeEvents) - {e} else old(activeEvents)
    {
      if |queues[e].entries| > 0 { return false; }
      removed := e in activeEvents;
      activeEvents := activeEvents - {e};
    }

    method TryWhitelistEventQueue(e: EventId, desired: nat)
      requires Valid() && e in queues
      modifies queues[e]
      ensures Valid() && SiteOf(e) == old(SiteOf(e)).(q := TryWhitelist(cfg, old(queues[e].State()), desired).0)
      ensures forall f | f in queues && f != e :: SiteOf(f) == old(SiteOf(f))
    {
      var _ := queues[e].TryWhitelistEventQueue(desired);
    }

    /** The promoter's turn at one event. */
    method PromoteEvent(e: EventId)
      requires Valid() && e in queues && e in activeEvents
      modifies this`activeEvents, queues[e]
      ensures Valid() && SiteOf(e) == PromoterTick(cfg, old(SiteOf(e)))
      ensures forall f | f in queues && f != e :: SiteOf(f) == old(SiteOf(f))
    {
      var queued := |queues[e].entries|;
      if queued == 0 {
        var _ := UntrackIdleEvent(e);
        return;
      }
      var whitelisted := |queues[e].whitelist|;
      var maxConcurrent := queues[e].GetEventMaxConcurrent();
      var free := Difference64(maxConcurrent, whitelisted);
      if free <= 0 { return; }
      if free > queued { free := queued; }
      TryWhitelistEventQueue(e, free);
    }

    ghost predicate SitesAre(sites: map<EventId, Site>)
      reads this, queues.Values
    {
      sites.Keys == queues.Keys && forall e | e in queues :: SiteOf(e) == sites[e]
    }

    method TakeTurn(e: EventId, ghost sites: map<EventId, Site>)
      requires Valid() && e in queues && e in activeEvents && SitesAre(sites)
      modifies this`activeEvents, queues.Values
      ensures Valid() && SitesAre(sites[e := PromoterTick(cfg, sites[e])])
    {
      PromoteEvent(e);
      forall f | f in queues && f != e ensures SiteOf(f) == sites[f] {
        assert SiteOf(f) == old(SiteOf(f));
      }
    }

    /** One tick: every event listed at its start gets one turn, and no other event is touched. */
    method PromoteActiveEvents()
      requires Valid()
      modifies this`activeEvents, queues.Values
      ensures Valid()
      ensures forall e | e in queues :: SiteOf(e) == PromoterTick(cfg, old(SiteOf(e)))
    {
      var eventIds := activeEvents;
      ghost var before := map e | e in queues :: SiteOf(e);
      Unstarted(cfg, before, eventIds);
      while eventIds != {}
        invariant Valid() && eventIds <= queues.Keys && forall e | e in eventIds :: before[e].tracked
        invariant SitesAre(Partly(cfg, before, eventIds))
      {
        var e :| e in eventIds;
        TurnTaken(cfg, before, eventIds, e);
        assert SiteOf(e) == Partly(cfg, before, eventIds)[e];
        TakeTurn(e, Partly(cfg, before, eventIds));
        eventIds := eventIds - {e};
      }
      assert forall e | e in queues :: SiteOf(e) == Partly(cfg, before, {})[e];
    }
  }

  /** The events when only those outside waiting have had their turn. */
  ghost function Partly(c: Config, before: map<EventId, Site>, waiting: set<EventId>): map<EventId, Site> {
    map e | e in before :: if e in waiting then before[e] else PromoterTick(c, before[e])
  }

  lemma Unstarted(c: Config, before: map<EventId, Site>, listed: set<EventId>)
    requires forall e | e in before && e !in listed :: !before[e].tracked
    ensures Partly(c, before, listed) == before
  {
  }

  lemma TurnTaken(c: Config, before: map<EventId, Site>, waiting: set<EventId>, e: EventId)
    requires e in before && e in waiting
    ensures Partly(c, before, waiting)[e] == before[e]
    ensures Partly(c, before, waiting)[e := PromoterTick(c, before[e])] == Partly(c, before, waiting - {e})
  {
  }

  class QueueService {
    const repository: QueueRepository
    const reservations: RS.ReservationRepository

    constructor (repository: QueueRepository, reservations: RS.ReservationRepository)
      ensures this.repository == repository && this.reservations == reservations
    {
      this.repository, this.reservations := repository, reservations;
    }

    method Enqueue(e: EventId, u: UserId) returns (result: Result<int, EnqueueError>)
      requires repository.Valid() && e in repository.queues
      modifies repository`activeEvents, repository.queues[e]
      ensures repository.Valid()
      ensures (repository.SiteOf(e), result) == EnqueueCall(repository.cfg, old(repository.SiteOf(e)), u)
    {
      var queue: EventQueue := repository.queues[e];
      var whitelistTTL: int := queue.GetWhitelistedUserTTL(u);
      if whitelistTTL > 0 { return Ok(whitelistTTL); }

      result := Join(e, u);
    }

    // What follows the whitelist check.
    method Join(e: EventId, u: UserId) returns (result: Result<int, EnqueueError>)
      requires repository.Valid() && e in repository.queues && u !in repository.queues[e].whitelist
      modifies repository`activeEvents, repository.queues[e]
      ensures repository.Valid()
      ensures (repository.SiteOf(e), result) == EnqueueCall(repository.cfg, old(repository.SiteOf(e)), u)
    {
      var enqueued: Result<bool, EnqueueError> := repository.Enqueue(e, u);
      if enqueued.Err? { return Err(enqueued.error); }
      var whitelistTTL := AdmitNext(e, u);
      result := Ok(whitelistTTL);
    }

    // The admission after an enqueue, and the second look at the whitelist.
    method AdmitNext(e: EventId, u: UserId) returns (whitelistTTL: int)
      requires repository.Valid() && e in repository.queues
      modifies repository.queues[e]
      ensures repository.Valid()
      ensures repository.SiteOf(e)
           == old(repository.SiteOf(e)).(q := TryWhitelist(repository.cfg, old(repository.queues[e].State()), 1).0)
      ensures whitelistTTL == SlotTime(repository.queues[e].State(), u)
    {
      repository.TryWhitelistEventQueue(e, 1);
      var queue: EventQueue := repository.queues[e];
      whitelistTTL := queue.GetWhitelistedUserTTL(u);
      if whitelistTTL <= 0 { whitelistTTL := 0; }
    }

    method Dequeue(e: EventId, u: UserId)
      requires repository.Valid() && e in repository.queues
      modifies repository.queues[e]
      ensures repository.Valid()
      ensures repository.SiteOf(e) == DequeueCall(repository.cfg, old(repository.SiteOf(e)), u)
    {
      var queue: EventQueue := repository.queues[e];
      var _, releasedSlot := queue.DequeueScript(u);
      if releasedSlot {
        repository.TryWhitelistEventQueue(e, 1);
      }
    }

    /** now is the clock of the sold-out marker; the block check may re-seed this process's LRU. */
    method Ping(now: int, e: EventId, u: UserId) returns (whitelistTTL: int, alive: bool, soldOut: bool)
      requires repository.Valid() && e in repository.queues
      modifies repository.queues[e], reservations.local
      ensures repository.Valid()
      ensures var q := old(repository.queues[e].State());
              repository.SiteOf(e)
              == old(repository.SiteOf(e)).(q := VirtualQueueScripts.Ping(repository.cfg, q, u).0)
      ensures alive <==> u in repository.queues[e].whitelist || u in repository.queues[e].beats
      ensures whitelistTTL == SlotTime(repository.queues[e].State(), u)
      ensures soldOut <==> RC.Blocked(old(reservations.DeskAt(now)), e)
      ensures reservations.DeskAt(now) == RC.AfterCheck(old(reservations.DeskAt(now)), e)
    {
      whitelistTTL, alive := repository.queues[e].PingScript(u);
      soldOut := reservations.IsBlockEvent(now, e);
    }
  }
}
