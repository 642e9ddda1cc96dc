/** Every transaction of ReservationStore broken at the points where another can run in between.
    Any number of reserves, confirms and releases are in flight, interleaved with sweeps, capacity changes,
    cache writes and clock ticks. Only a reserve takes the event row's lock, and now() stays at BEGIN. */
module ReservationProtocol {
  import opened Common
  import opened ReservationTable
  import opened ReservationStore

  datatype Request = Request(event: EventId, user: UserId, quantity: nat, key: Option<Key>)

  // A checked reserve remembers the sum it saw and the capacity it compared it with.
  datatype Txn =
    | Begun(now: int, req: Request)
    | Locked(now: int, req: Request, capacity: nat, maxPerUser: nat)
    | Checked(now: int, req: Request, seen: nat, capacity: nat)
    | Replying(at: CacheKey, item: Item)
    | Updating(now: int, user: UserId, id: nat, target: Status)
  {
    predicate HoldsLock(e: EventId) {
      (Locked? || Checked?) && req.event == e
    }

    predicate InDatabase() {
      !Replying?
    }
  }

  datatype Answer = Answer(at: CacheKey, requested: nat, item: Item)

  // History, which no step reads: the largest capacity an event has had, the confirms that committed at
  // or after their hold's expiry, the events where an accepted check carried, and the successful answers.
  datatype History = History(peak: map<EventId, nat>, late: set<nat>, wrapped: set<EventId>, answers: set<Answer>)

  datatype State = State(
    clock: int,
    events: map<EventId, Event>,
    rows: seq<Row>,
    txns: map<nat, Txn>,
    cache: map<CacheKey, Item>,
    history: History)

  datatype Action =
    | Tick(to: int)
    | BeginReserve(t: nat, req: Request)
    | LockEvent(t: nat)
    | SumSeats(t: nat)
    | CommitReserve(t: nat, stamp: int)
    | StoreItem(t: nat)
    | BeginUpdate(t: nat, user: UserId, id: nat, target: Status)
    | CommitUpdate(t: nat, stamp: int)
    | Abort(t: nat)
    | Sweep(began: int)
    | SetCapacity(event: EventId, capacity: nat)
    | LookUpCache(at: CacheKey, requested: nat)
    | LookUpTable(at: CacheKey, requested: nat)
    | ExpireItem(at: CacheKey)

  predicate Unlocked(s: State, e: EventId) {
    forall t | t in s.txns :: !s.txns[t].HoldsLock(e)
  }

  predicate Enabled(s: State, a: Action) {
    match a
    case Tick(to) => s.clock <= to
    case BeginReserve(t, req) => t !in s.txns && req.quantity < TWO_32
    case LockEvent(t) => t in s.txns && s.txns[t].Begun? && Unlocked(s, s.txns[t].req.event)
    case SumSeats(t) => t in s.txns && s.txns[t].Locked? && s.txns[t].req.quantity < TWO_32
    case CommitReserve(t, stamp) => t in s.txns && s.txns[t].Checked? && s.txns[t].now <= stamp <= s.clock
    case StoreItem(t) => t in s.txns && s.txns[t].Replying?
    case BeginUpdate(t, _, _, target) => t !in s.txns && (target == Confirmed || target == Released)
    case CommitUpdate(t, stamp) => t in s.txns && s.txns[t].Updating? && s.txns[t].now <= stamp <= s.clock
    case Abort(t) => t in s.txns
    case Sweep(began) => began <= s.clock
    case SetCapacity(e, c) => e in s.events && 0 < c <= INT32_MAX && Unlocked(s, e)
    case LookUpCache(at, _) => at in s.cache
    case LookUpTable(at, _) => FindKey(s.rows, at.event, at.user, at.key).Some?
    case ExpireItem(at) => at in s.cache
  }

  function Replied(s: State, at: CacheKey, requested: nat, item: Item): State {
    s.(history := s.history.(answers := s.history.answers + {Answer(at, requested, item)}))
  }

  /** Why a reserve ends once it has the event's row, if it does. */
  function LockRefusal(s: State, t: nat): Option<Failure>
    requires Enabled(s, LockEvent(t))
  {
    var req := s.txns[t].req;
    if req.event !in s.events then Some(EventNotFound)
    else if req.quantity > s.events[req.event].maxPerUser then Some(ExceedMaxReserveQuantity)
    else None
  }

  function ApplyLock(s: State, t: nat): State
    requires Enabled(s, LockEvent(t))
  {
    if LockRefusal(s, t).Some? then s.(txns := s.txns - {t})
    else
      var req := s.txns[t].req;
      var ev := s.events[req.event];
      s.(txns := s.txns[t := Locked(s.txns[t].now, req, ev.capacity, ev.maxPerUser)])
  }

  /** The event's active seats as the sum finds them: the table of the moment, the clock of BEGIN. */
  function SumSeen(s: State, t: nat): nat
    requires Enabled(s, SumSeats(t))
  {
    Total(s.rows, s.txns[t].req.event, Everyone, s.txns[t].now)
  }

  function SumVerdict(s: State, t: nat): Verdict
    requires Enabled(s, SumSeats(t))
  {
    var x := s.txns[t];
    UserWithinEvent(s.rows, x.req.event, x.req.user, x.now);
    Check(x.capacity, x.maxPerUser, SumSeen(s, t), Total(s.rows, x.req.event, Only(x.req.user), x.now), x.req.quantity)
  }

  function ApplySum(s: State, t: nat): State
    requires Enabled(s, SumSeats(t))
  {
    if SumVerdict(s, t).Refuse? then s.(txns := s.txns - {t})
    else
      var x := s.txns[t];
      var carried := if Wraps(SumSeen(s, t), x.req.quantity) then {x.req.event} else {};
      s.(txns := s.txns[t := Checked(x.now, x.req, SumSeen(s, t), x.capacity)],
         history := s.history.(wrapped := s.history.wrapped + carried))
  }

  function ApplyCommitReserve(s: State, t: nat, stamp: int): State
    requires Enabled(s, CommitReserve(t, stamp))
  {
    var req := s.txns[t].req;
    var (rows', id) := Upsert(s.rows, NewHold(req.event, req.user, req.quantity, req.key, stamp));
    if req.key.None? then s.(rows := rows', txns := s.txns - {t})
    else
      var at, item := CacheKey(req.event, req.user, req.key.value), Item(id, rows'[id]);
      Replied(s.(rows := rows', txns := s.txns[t := Replying(at, item)]), at, req.quantity, item)
  }

  function ApplyCommitUpdate(s: State, t: nat, stamp: int): State
    requires Enabled(s, CommitUpdate(t, stamp))
  {
    var x := s.txns[t];
    var s' := s.(rows := Update(s.rows, x.now, stamp, x.user, x.id, x.target).0, txns := s.txns - {t});
    if Updatable(s.rows, x.id, x.user, x.now) && x.target == Confirmed && s.rows[x.id].expiresAt <= s.clock
    then s'.(history := s.history.(late := s.history.late + {x.id}))
    else s'
  }

  function Apply(s: State, a: Action): State
    requires Enabled(s, a)
  {
    match a
    case Tick(to) => s.(clock := to)
    case BeginReserve(t, req) => s.(txns := s.txns[t := Begun(s.clock, req)])
    case LockEvent(t) => ApplyLock(s, t)
    case SumSeats(t) => ApplySum(s, t)
    case CommitReserve(t, stamp) => ApplyCommitReserve(s, t, stamp)
    case StoreItem(t) => s.(cache := s.cache[s.txns[t].at := s.txns[t].item], txns := s.txns - {t})
    case BeginUpdate(t, u, id, target) => s.(txns := s.txns[t := Updating(s.clock, u, id, target)])
    case CommitUpdate(t, stamp) => ApplyCommitUpdate(s, t, stamp)
    case Abort(t) => s.(txns := s.txns - {t})
    case Sweep(began) => s.(rows := Swept(s.rows, began))
    case SetCapacity(e, c) =>
      s.(events := s.events[e := s.events[e].(capacity := c)],
         history := if e in s.history.peak && s.history.peak[e] < c
                    then s.history.(peak := s.history.peak[e := c]) else s.history)
    case LookUpCache(at, q) =>
      if s.cache[at].row.quantity == q then Replied(s, at, q, s.cache[at]) else s
    case LookUpTable(at, q) =>
      var id := FindKey(s.rows, at.event, at.user, at.key).value;
      if s.rows[id].quantity == q then Replied(s, at, q, Item(id, s.rows[id])) else s
    case ExpireItem(at) => s.(cache := s.cache - {at})
  }

  ghost predicate Init(s: State) {
    && s.rows == [] && s.txns == map[] && s.cache == map[]
    && s.history == History(map e | e in s.events :: s.events[e].capacity, {}, {}, {})
    && forall e | e in s.events :: 0 < s.events[e].capacity <= INT32_MAX && 0 < s.events[e].maxPerUser <= INT32_MAX
  }

  ghost predicate StepAt(run: seq<State>, acts: seq<Action>, i: nat)
    requires |run| == |acts| + 1 && i < |acts|
  {
    Enabled(run[i], acts[i]) && run[i + 1] == Apply(run[i], acts[i])
  }

  ghost predicate IsRun(run: seq<State>, acts: seq<Action>) {
    && |run| == |acts| + 1
    && Init(run[0])
    && forall i | 0 <= i < |acts| :: StepAt(run, acts, i)
  }

  // ---- seats whose confirm, if any, was on time ----

  function OnTimeAt(r: Row, late: bool, e: EventId, w: Scope, t: int): nat {
    if late then 0 else SeatsAt(r, e, w, t)
  }

  function OnTimeWeights(rows: seq<Row>, late: set<nat>, e: EventId, w: Scope, t: int): seq<nat> {
    seq(|rows|, i requires 0 <= i < |rows| => OnTimeAt(rows[i], i in late, e, w, t))
  }

  function OnTime(rows: seq<Row>, late: set<nat>, e: EventId, w: Scope, t: int): nat {
    Sum(OnTimeWeights(rows, late, e, w, t))
  }

  function LateWeights(rows: seq<Row>, late: set<nat>, e: EventId, w: Scope): seq<nat> {
    seq(|rows|, i requires 0 <= i < |rows| => if i in late && Concerns(rows[i], e, w) then rows[i].quantity else 0)
  }

  /** Seats of confirms that committed at or after their own hold's expires_at. */
  function LateSeats(rows: seq<Row>, late: set<nat>, e: EventId, w: Scope): nat {
    Sum(LateWeights(rows, late, e, w))
  }

  lemma TotalIsOnTimePlusLate(rows: seq<Row>, late: set<nat>, e: EventId, w: Scope, t: int)
    requires forall i | i in late :: i < |rows| && rows[i].status == Confirmed
    ensures Total(rows, e, w, t) == OnTime(rows, late, e, w, t) + LateSeats(rows, late, e, w)
  {
    SumSplit(ActiveWeights(rows, e, w, t), OnTimeWeights(rows, late, e, w, t), LateWeights(rows, late, e, w));
  }

  lemma OnTimeShrinks(rows: seq<Row>, late: set<nat>, rows': seq<Row>, late': set<nat>,
                      e: EventId, w: Scope, t: int, t': int)
    requires |rows| == |rows'|
    requires forall i | 0 <= i < |rows| ::
               OnTimeAt(rows'[i], i in late', e, w, t') <= OnTimeAt(rows[i], i in late, e, w, t)
    ensures OnTime(rows', late', e, w, t') <= OnTime(rows, late, e, w, t)
  {
    SumMono(OnTimeWeights(rows', late', e, w, t'), OnTimeWeights(rows, late, e, w, t));
  }

  lemma OnTimeAppend(rows: seq<Row>, late: set<nat>, r: Row, e: EventId, w: Scope, t: int)
    requires |rows| !in late
    ensures OnTime(rows + [r], late, e, w, t) == OnTime(rows, late, e, w, t) + SeatsAt(r, e, w, t)
  {
    assert OnTimeWeights(rows + [r], late, e, w, t) == OnTimeWeights(rows, late, e, w, t) + [SeatsAt(r, e, w, t)];
    SumAppend(OnTimeWeights(rows, late, e, w, t), SeatsAt(r, e, w, t));
  }

  // ---- the invariant ----

  ghost predicate TxnOk(s: State, x: Txn) {
    && (x.InDatabase() ==> x.now <= s.clock)
    && (x.Locked? || x.Checked? ==> x.req.event in s.events && x.req.quantity <= s.events[x.req.event].maxPerUser)
    && (x.Updating? ==> x.target == Confirmed || x.target == Released)
    && (x.Locked? ==> s.events[x.req.event] == Event(x.capacity, x.maxPerUser))
  }

  ghost predicate OneHolder(s: State) {
    forall t, t', e | t in s.txns && t' in s.txns && s.txns[t].HoldsLock(e) && s.txns[t'].HoldsLock(e) :: t == t'
  }

  ghost predicate Bookkeeping(s: State) {
    && s.history.peak.Keys == s.events.Keys
    && (forall e | e in s.events ::
          0 < s.events[e].maxPerUser <= INT32_MAX && 0 < s.events[e].capacity <= s.history.peak[e] <= INT32_MAX)
    && (forall i | i in s.history.late :: i < |s.rows| && s.rows[i].status == Confirmed)
    && (forall t | t in s.txns :: TxnOk(s, s.txns[t]))
    && OneHolder(s)
  }

  function Limit(s: State, e: EventId, w: Scope): nat
    requires e in s.events && e in s.history.peak
  {
    if w.Everyone? then s.history.peak[e] else s.events[e].maxPerUser
  }

  function Booked(s: State, e: EventId, w: Scope, t: int): nat {
    OnTime(s.rows, s.history.late, e, w, t)
  }

  ghost predicate WithinLimits(s: State)
    requires Bookkeeping(s)
  {
    forall e, w | e in s.events && e !in s.history.wrapped :: Booked(s, e, w, s.clock) <= Limit(s, e, w)
  }

  // What a passed check promises until its INSERT commits, although its now() may be long past.
  ghost predicate Covered(s: State, x: Txn, w: Scope)
    requires Bookkeeping(s) && x.Checked? && TxnOk(s, x)
  {
    (w.Only? ==> w.user == x.req.user) ==>
      Booked(s, x.req.event, w, x.now) + x.req.quantity <= Limit(s, x.req.event, w)
  }

  ghost predicate PromisesKept(s: State)
    requires Bookkeeping(s)
  {
    forall t, w | t in s.txns && s.txns[t].Checked? && s.txns[t].req.event !in s.history.wrapped ::
      Covered(s, s.txns[t], w)
  }

  ghost predicate Inv(s: State) {
    Bookkeeping(s) && WithinLimits(s) && PromisesKept(s)
  }

  lemma UpdateChanges(s: State, t: nat, stamp: int)
    requires Enabled(s, CommitUpdate(t, stamp)) && TxnOk(s, s.txns[t])
    ensures var x := s.txns[t]; var s' := ApplyCommitUpdate(s, t, stamp);
            && |s'.rows| == |s.rows|
            && (forall i | 0 <= i < |s.rows| && i != x.id :: s'.rows[i] == s.rows[i])
            && (x.id < |s.rows| ==> s'.rows[x.id] == if Updatable(s.rows, x.id, x.user, x.now)
                                                     then Settle(s.rows[x.id], x.target, stamp) else s.rows[x.id])
  {
  }

  // Confirmed rows stay where they are and as they are.
  lemma ConfirmedRowsKept(s: State, a: Action)
    requires Bookkeeping(s) && Enabled(s, a)
    ensures |s.rows| <= |Apply(s, a).rows|
    ensures forall i | 0 <= i < |s.rows| && s.rows[i].status == Confirmed :: Apply(s, a).rows[i] == s.rows[i]
  {
    if a.CommitUpdate? {
      UpdateChanges(s, a.t, a.stamp);
    }
  }

  lemma LateKept(s: State, a: Action)
    requires Bookkeeping(s) && Enabled(s, a)
    ensures forall i | i in Apply(s, a).history.late ::
              i < |Apply(s, a).rows| && Apply(s, a).rows[i].status == Confirmed
  {
    ConfirmedRowsKept(s, a);
    if a.CommitUpdate? {
      UpdateChanges(s, a.t, a.stamp);
    }
  }

  /** Only a capacity change touches the events, and it needs their row's lock. */
  lemma OnlySetCapacity(s: State, a: Action)
    requires Enabled(s, a)
    ensures !a.SetCapacity? ==> Apply(s, a).events == s.events && Apply(s, a).history.peak == s.history.peak
  {
  }

  lemma EventsKept(s: State, a: Action)
    requires Bookkeeping(s) && Enabled(s, a)
    ensures var s' := Apply(s, a);
            && s'.events.Keys == s.events.Keys == s'.history.peak.Keys
            && (forall e | e in s.events :: s'.events[e].maxPerUser == s.events[e].maxPerUser
                  && 0 < s'.events[e].capacity <= s'.history.peak[e] <= INT32_MAX)
            && (forall e | e in s.events :: s.history.peak[e] <= s'.history.peak[e])
            && (forall e | e in s.events && !Unlocked(s, e) :: s'.events[e] == s.events[e])
  {
    OnlySetCapacity(s, a);
    if a.SetCapacity? {
      var s' := Apply(s, a);
      assert s'.events == s.events[a.event := s.events[a.event].(capacity := a.capacity)];
      assert s'.history.peak == s.history.peak || s'.history.peak == s.history.peak[a.event := a.capacity];
    }
  }

  /** A step leaves a transaction as it was, or is that transaction's own step. */
  lemma TxnWas(s: State, a: Action, t: nat)
    requires Enabled(s, a) && t in Apply(s, a).txns
    ensures var x := Apply(s, a).txns[t];
            || (t in s.txns && x == s.txns[t])
            || (a.BeginReserve? && x == Begun(s.clock, a.req))
            || (a == LockEvent(t) && x == ApplyLock(s, t).txns[t] && x.Locked?)
            || (a == SumSeats(t) && s.txns[t].Locked? && x == ApplySum(s, t).txns[t] && x.Checked?
                && x.now == s.txns[t].now && x.req == s.txns[t].req)
            || (a.CommitReserve? && x.Replying?)
            || (a.BeginUpdate? && x == Updating(s.clock, a.user, a.id, a.target))
  {
  }

  lemma TxnsKept(s: State, a: Action, t: nat)
    requires Bookkeeping(s) && Enabled(s, a) && t in Apply(s, a).txns
    ensures TxnOk(Apply(s, a), Apply(s, a).txns[t])
  {
    EventsKept(s, a);
    TxnWas(s, a, t);
    ClockAdvances(s, a);
    var x := Apply(s, a).txns[t];
    if t in s.txns {
      assert TxnOk(s, s.txns[t]);
      assert x.Locked? && x == s.txns[t] ==> x.HoldsLock(x.req.event);
    }
    if a == LockEvent(t) && x.Locked? {
      assert x.capacity == s.events[x.req.event].capacity;
    }
  }

  lemma ClockAdvances(s: State, a: Action)
    requires Enabled(s, a)
    ensures s.clock <= Apply(s, a).clock
    ensures a.LockEvent? ==> Apply(s, a).events == s.events
  {
  }

  lemma OneHolderKept(s: State, a: Action)
    requires Bookkeeping(s) && Enabled(s, a)
    ensures OneHolder(Apply(s, a))
  {
    var s' := Apply(s, a);
    forall t, t', e | t in s'.txns && t' in s'.txns && s'.txns[t].HoldsLock(e) && s'.txns[t'].HoldsLock(e)
      ensures t == t'
    {
      HolderWas(s, a, t, e);
      HolderWas(s, a, t', e);
    }
  }

  // Whoever holds a lock after a step held it before, or has just been granted it.
  lemma HolderWas(s: State, a: Action, t: nat, e: EventId)
    requires Bookkeeping(s) && Enabled(s, a)
    requires t in Apply(s, a).txns && Apply(s, a).txns[t].HoldsLock(e)
    ensures t in s.txns
    ensures s.txns[t].HoldsLock(e) || (a == LockEvent(t) && Unlocked(s, e))
  {
  }

  lemma BookkeepingKept(s: State, a: Action)
    requires Bookkeeping(s) && Enabled(s, a)
    ensures Bookkeeping(Apply(s, a))
  {
    EventsKept(s, a);
    LateKept(s, a);
    OneHolderKept(s, a);
    forall t | t in Apply(s, a).txns ensures TxnOk(Apply(s, a), Apply(s, a).txns[t]) {
      TxnsKept(s, a, t);
    }
  }

  /** A step that does not insert never adds on-time seats as seen from a clock reading already taken. */
  lemma StepShrinks(s: State, a: Action, e: EventId, w: Scope, t: int)
    requires Bookkeeping(s) && Enabled(s, a) && t <= s.clock
    requires !a.CommitReserve?
    ensures Booked(Apply(s, a), e, w, t) <= Booked(s, e, w, t)
  {
    var s' := Apply(s, a);
    if a.CommitUpdate? {
      UpdateChanges(s, a.t, a.stamp);
      OnTimeShrinks(s.rows, s.history.late, s'.rows, s'.history.late, e, w, t, t);
    } else if a.Sweep? {
      OnTimeShrinks(s.rows, s.history.late, s'.rows, s'.history.late, e, w, t, t);
    }
  }

  lemma BookedFades(s: State, e: EventId, w: Scope, t: int, t': int)
    requires t <= t'
    ensures Booked(s, e, w, t') <= Booked(s, e, w, t)
  {
    OnTimeShrinks(s.rows, s.history.late, s.rows, s.history.late, e, w, t, t');
  }

  /** What a commit adds: nothing for other events and users, at most the request for its own. */
  lemma CommitAdds(s: State, a: Action, e: EventId, w: Scope, t: int)
    requires Bookkeeping(s) && a.CommitReserve? && Enabled(s, a)
    ensures var req := s.txns[a.t].req;
            Booked(Apply(s, a), e, w, t) <= Booked(s, e, w, t) +
              (if e == req.event && (w.Only? ==> w.user == req.user) then req.quantity else 0)
  {
    var req := s.txns[a.t].req;
    OnTimeAppend(s.rows, s.history.late, NewHold(req.event, req.user, req.quantity, req.key, a.stamp), e, w, t);
  }

  /** A check that passes without a carry covers the request, seen from the transaction's own now(). */
  lemma CheckCovers(s: State, t: nat, w: Scope)
    requires Inv(s) && Enabled(s, SumSeats(t))
    requires t in ApplySum(s, t).txns && s.txns[t].req.event !in ApplySum(s, t).history.wrapped
    requires w.Only? ==> w.user == s.txns[t].req.user
    ensures Booked(s, s.txns[t].req.event, w, s.txns[t].now) + s.txns[t].req.quantity
         <= Limit(s, s.txns[t].req.event, w)
  {
    var x := s.txns[t];
    assert TxnOk(s, x);
    var e := x.req.event;
    UserWithinEvent(s.rows, e, x.req.user, x.now);
    CheckDecides(x.capacity, x.maxPerUser, Total(s.rows, e, Everyone, x.now),
                 Total(s.rows, e, Only(x.req.user), x.now), x.req.quantity);
    TotalIsOnTimePlusLate(s.rows, s.history.late, e, w, x.now);
  }

  lemma CommitStaysWithin(s: State, a: Action, e: EventId, w: Scope)
    requires Inv(s) && a.CommitReserve? && Enabled(s, a) && e in s.events && e !in s.history.wrapped
    ensures Booked(Apply(s, a), e, w, s.clock) <= Limit(s, e, w)
  {
    var x := s.txns[a.t];
    assert TxnOk(s, x) && Booked(s, e, w, s.clock) <= Limit(s, e, w);
    CommitAdds(s, a, e, w, s.clock);
    if e == x.req.event && (w.Only? ==> w.user == x.req.user) {
      assert Covered(s, x, w);
      BookedFades(s, e, w, x.now, s.clock);
    }
  }

  lemma LimitGrows(s: State, a: Action, e: EventId, w: Scope)
    requires Bookkeeping(s) && Enabled(s, a) && e in s.events
    ensures e in Apply(s, a).events && e in Apply(s, a).history.peak && Limit(s, e, w) <= Limit(Apply(s, a), e, w)
  {
    EventsKept(s, a);
  }

  lemma StaysWithin(s: State, a: Action, e: EventId, w: Scope)
    requires Inv(s) && Enabled(s, a) && e in s.events && e !in s.history.wrapped
    ensures Booked(Apply(s, a), e, w, Apply(s, a).clock) <= Limit(s, e, w)
  {
    if a.CommitReserve? {
      CommitStaysWithin(s, a, e, w);
    } else {
      assert Booked(s, e, w, s.clock) <= Limit(s, e, w);
      ClockAdvances(s, a);
      StepShrinks(s, a, e, w, s.clock);
      BookedFades(Apply(s, a), e, w, s.clock, Apply(s, a).clock);
    }
  }

  lemma WithinLimitsKept(s: State, a: Action)
    requires Inv(s) && Enabled(s, a) && Bookkeeping(Apply(s, a))
    ensures WithinLimits(Apply(s, a))
  {
    var s' := Apply(s, a);
    EventsSame(s, a);
    WrappedGrows(s, a);
    forall e, w | e in s'.events && e !in s'.history.wrapped ensures Booked(s', e, w, s'.clock) <= Limit(s', e, w) {
      StaysWithin(s, a, e, w);
      LimitGrows(s, a, e, w);
    }
  }

  lemma EventsSame(s: State, a: Action)
    requires Enabled(s, a)
    ensures Apply(s, a).events.Keys == s.events.Keys
  {
  }

  /** While one reserve has passed its checks, another can only insert for another event. */
  lemma OthersElsewhere(s: State, t: nat, t': nat)
    requires OneHolder(s) && t in s.txns && s.txns[t].Checked? && t' in s.txns && s.txns[t'].Checked? && t != t'
    ensures s.txns[t].req.event != s.txns[t'].req.event
  {
    assert s.txns[t].HoldsLock(s.txns[t].req.event) && s.txns[t'].HoldsLock(s.txns[t'].req.event);
  }

  lemma BookedStill(s: State, a: Action, t: nat, w: Scope)
    requires Bookkeeping(s) && Enabled(s, a) && t in s.txns && s.txns[t].Checked?
    requires a.CommitReserve? ==> a.t != t
    ensures Booked(Apply(s, a), s.txns[t].req.event, w, s.txns[t].now)
         <= Booked(s, s.txns[t].req.event, w, s.txns[t].now)
  {
    assert TxnOk(s, s.txns[t]);
    if a.CommitReserve? {
      OthersElsewhere(s, t, a.t);
      CommitAdds(s, a, s.txns[t].req.event, w, s.txns[t].now);
    } else {
      StepShrinks(s, a, s.txns[t].req.event, w, s.txns[t].now);
    }
  }

  lemma CoveredStill(s: State, a: Action, t: nat, w: Scope)
    requires Inv(s) && Enabled(s, a) && Bookkeeping(Apply(s, a))
    requires t in s.txns && s.txns[t].Checked? && t in Apply(s, a).txns && Apply(s, a).txns[t] == s.txns[t]
    requires s.txns[t].req.event !in s.history.wrapped
    ensures TxnOk(Apply(s, a), s.txns[t]) && Covered(Apply(s, a), s.txns[t], w)
  {
    var x := s.txns[t];
    assert TxnOk(s, x) && TxnOk(Apply(s, a), x) && Covered(s, x, w);
    LimitGrows(s, a, x.req.event, w);
    BookedStill(s, a, t, w);
  }

  lemma CoveredFirst(s: State, t: nat, w: Scope)
    requires Inv(s) && Enabled(s, SumSeats(t)) && Bookkeeping(ApplySum(s, t))
    requires t in ApplySum(s, t).txns && s.txns[t].req.event !in ApplySum(s, t).history.wrapped
    ensures ApplySum(s, t).txns[t].Checked? && ApplySum(s, t).txns[t].now == s.txns[t].now
    ensures ApplySum(s, t).txns[t].req == s.txns[t].req
    ensures TxnOk(ApplySum(s, t), ApplySum(s, t).txns[t]) && Covered(ApplySum(s, t), ApplySum(s, t).txns[t], w)
  {
    assert TxnOk(ApplySum(s, t), ApplySum(s, t).txns[t]);
    if w.Only? ==> w.user == s.txns[t].req.user {
      CheckCovers(s, t, w);
    }
  }

  lemma WrappedGrows(s: State, a: Action)
    requires Enabled(s, a)
    ensures s.history.wrapped <= Apply(s, a).history.wrapped
  {
  }

  lemma PromisesStillKept(s: State, a: Action)
    requires Inv(s) && Enabled(s, a) && Bookkeeping(Apply(s, a))
    ensures PromisesKept(Apply(s, a))
  {
    var s' := Apply(s, a);
    forall t, w | t in s'.txns && s'.txns[t].Checked? && s'.txns[t].req.event !in s'.history.wrapped
      ensures Covered(s', s'.txns[t], w)
    {
      TxnWas(s, a, t);
      if a == SumSeats(t) {
        CoveredFirst(s, t, w);
      } else {
        WrappedGrows(s, a);
        CoveredStill(s, a, t, w);
      }
    }
  }

  lemma InvKept(s: State, a: Action)
    requires Inv(s) && Enabled(s, a)
    ensures Inv(Apply(s, a))
  {
    BookkeepingKept(s, a);
    WithinLimitsKept(s, a);
    PromisesStillKept(s, a);
  }

  lemma {:induction false} InvHolds(run: seq<State>, acts: seq<Action>, n: nat)
    requires IsRun(run, acts) && n < |run|
    ensures Inv(run[n])
  {
    if n == 0 {
      assert Init(run[0]);
    } else {
      InvHolds(run, acts, n - 1);
      assert StepAt(run, acts, n - 1);
      InvKept(run[n - 1], acts[n - 1]);
    }
  }
}
