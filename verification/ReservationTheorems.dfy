/** What holds over whole runs of ReservationProtocol: no overselling, the lifecycle of a row, and one row
    per idempotency key. Where a claim fails, a concrete run shows how. */
module ReservationTheorems {
  import opened Common
  import opened ReservationTable
  import opened ReservationStore
  import opened ReservationProtocol

  lemma RunStep(run: seq<State>, acts: seq<Action>, n: nat)
    requires IsRun(run, acts) && 0 < n < |run|
    ensures Enabled(run[n - 1], acts[n - 1]) && run[n] == Apply(run[n - 1], acts[n - 1])
    ensures Inv(run[n - 1])
  {
    InvHolds(run, acts, n - 1);
    assert StepAt(run, acts, n - 1);
  }

  // ---- no overselling ----

  /** In every state of every run, an event's active seats are at most the largest capacity it has had plus
      the seats of late confirms, and a user's are at most the quota plus that user's late seats. The one
      proviso is that no accepted check of the event carried out of 32 bits. */
  lemma NoOverselling(run: seq<State>, acts: seq<Action>, n: nat, e: EventId, u: UserId)
    requires IsRun(run, acts) && n < |run|
    requires e in run[n].events && e !in run[n].history.wrapped
    ensures e in run[n].history.peak
    ensures Total(run[n].rows, e, Everyone, run[n].clock)
         <= run[n].history.peak[e] + LateSeats(run[n].rows, run[n].history.late, e, Everyone)
    ensures Total(run[n].rows, e, Only(u), run[n].clock)
         <= run[n].events[e].maxPerUser + LateSeats(run[n].rows, run[n].history.late, e, Only(u))
  {
    InvHolds(run, acts, n);
    var s := run[n];
    TotalIsOnTimePlusLate(s.rows, s.history.late, e, Everyone, s.clock);
    TotalIsOnTimePlusLate(s.rows, s.history.late, e, Only(u), s.clock);
    assert Booked(s, e, Everyone, s.clock) <= Limit(s, e, Everyone);
    assert Booked(s, e, Only(u), s.clock) <= Limit(s, e, Only(u));
  }

  ghost predicate NeverLowered(run: seq<State>, acts: seq<Action>, n: nat, e: EventId)
    requires IsRun(run, acts) && n < |run|
  {
    forall i | 0 <= i < n && acts[i].SetCapacity? && acts[i].event == e ::
      e in run[i].events && run[i].events[e].capacity <= acts[i].capacity
  }

  lemma PeakStep(s: State, a: Action, e: EventId)
    requires Bookkeeping(s) && Enabled(s, a) && e in s.events && s.history.peak[e] == s.events[e].capacity
    requires a.SetCapacity? && a.event == e ==> s.events[e].capacity <= a.capacity
    ensures e in Apply(s, a).history.peak && e in Apply(s, a).events
    ensures Apply(s, a).history.peak[e] == Apply(s, a).events[e].capacity
  {
    OnlySetCapacity(s, a);
    EventsKept(s, a);
  }

  lemma {:induction false} PeakIsCapacity(run: seq<State>, acts: seq<Action>, n: nat, e: EventId)
    requires IsRun(run, acts) && n < |run| && NeverLowered(run, acts, n, e) && e in run[n].events
    ensures e in run[n].history.peak && run[n].history.peak[e] == run[n].events[e].capacity
  {
    if n == 0 {
      assert Init(run[0]);
    } else {
      RunStep(run, acts, n);
      EventsKept(run[n - 1], acts[n - 1]);
      PeakIsCapacity(run, acts, n - 1, e);
      PeakStep(run[n - 1], acts[n - 1], e);
    }
  }

  function IssuedWeights(rows: seq<Row>, e: EventId): seq<nat> {
    seq(|rows|, i requires 0 <= i < |rows| => if rows[i].event == e then rows[i].quantity else 0)
  }

  /** Seats of every hold ever inserted for the event, whatever became of it. */
  function Issued(rows: seq<Row>, e: EventId): nat {
    Sum(IssuedWeights(rows, e))
  }

  lemma IssuedGrows(s: State, a: Action, e: EventId)
    requires Bookkeeping(s) && Enabled(s, a)
    ensures Issued(s.rows, e) <= Issued(Apply(s, a).rows, e)
  {
    var s' := Apply(s, a);
    if a.CommitReserve? {
      var req := s.txns[a.t].req;
      var r := NewHold(req.event, req.user, req.quantity, req.key, a.stamp);
      if s'.rows == s.rows + [r] {
        assert IssuedWeights(s'.rows, e) == IssuedWeights(s.rows, e) + [if r.event == e then r.quantity else 0];
        SumAppend(IssuedWeights(s.rows, e), if r.event == e then r.quantity else 0);
      }
    } else {
      if a.CommitUpdate? { UpdateChanges(s, a.t, a.stamp); }
      assert IssuedWeights(s'.rows, e) == IssuedWeights(s.rows, e);
    }
  }

  lemma CarryStep(s: State, a: Action, e: EventId)
    requires Inv(s) && Enabled(s, a) && e !in s.history.wrapped && e in Apply(s, a).history.wrapped
    ensures e in s.events && TWO_32 <= Issued(s.rows, e) + s.events[e].maxPerUser
  {
    assert a.SumSeats? && s.txns[a.t].req.event == e;
    assert TxnOk(s, s.txns[a.t]);
    SumMono(ActiveWeights(s.rows, e, Everyone, s.txns[a.t].now), IssuedWeights(s.rows, e));
  }

  /** A check can carry only once more than four billion seats, less one request, have been issued for the
      event: a condition on the table alone. */
  lemma {:induction false} CarryNeedsManySeats(run: seq<State>, acts: seq<Action>, n: nat, e: EventId)
    requires IsRun(run, acts) && n < |run| && e in run[n].history.wrapped
    ensures e in run[n].events && TWO_32 <= Issued(run[n].rows, e) + run[n].events[e].maxPerUser
  {
    if n > 0 {
      RunStep(run, acts, n);
      EventsKept(run[n - 1], acts[n - 1]);
      IssuedGrows(run[n - 1], acts[n - 1], e);
      if e in run[n - 1].history.wrapped {
        CarryNeedsManySeats(run, acts, n - 1, e);
      } else {
        CarryStep(run[n - 1], acts[n - 1], e);
      }
    }
  }

  /** The plain claim, for runs that keep the three conditions a deployment can check. */
  lemma NeverOversold(run: seq<State>, acts: seq<Action>, n: nat, e: EventId, u: UserId)
    requires IsRun(run, acts) && n < |run| && e in run[n].events
    requires NeverLowered(run, acts, n, e)
    requires Issued(run[n].rows, e) + run[n].events[e].maxPerUser < TWO_32
    requires LateSeats(run[n].rows, run[n].history.late, e, Everyone) == 0
    ensures Total(run[n].rows, e, Everyone, run[n].clock) <= run[n].events[e].capacity
    ensures Total(run[n].rows, e, Only(u), run[n].clock) <= run[n].events[e].maxPerUser
  {
    if e in run[n].history.wrapped {
      CarryNeedsManySeats(run, acts, n, e);
    }
    NoOverselling(run, acts, n, e, u);
    PeakIsCapacity(run, acts, n, e);
    SumMono(LateWeights(run[n].rows, run[n].history.late, e, Only(u)),
            LateWeights(run[n].rows, run[n].history.late, e, Everyone));
  }

  /** A reserve that nothing interrupts is the repository's transaction: the same table, the same answer, and on
      a refusal the same reason and the same isCapped. */
  lemma ReserveUninterrupted(s: State, t: nat, req: Request)
    requires Inv(s) && t !in s.txns && req.quantity < TWO_32 && Unlocked(s, req.event)
    ensures var (rows', reply) :=
              Reserve(s.events, s.rows, s.clock, s.clock, req.event, req.user, req.quantity, req.key);
            var s1 := Apply(s, BeginReserve(t, req));
            && Enabled(s1, LockEvent(t))
            && var s2 := Apply(s1, LockEvent(t));
            && (LockRefusal(s1, t).Some? ==>
                  t !in s2.txns && s2.rows == rows' && reply == Reply(Err(LockRefusal(s1, t).value), false))
            && (LockRefusal(s1, t).None? ==>
                  && Enabled(s2, SumSeats(t))
                  && var s3 := Apply(s2, SumSeats(t));
                  && (SumVerdict(s2, t).Refuse? ==>
                        && t !in s3.txns && s3.rows == rows'
                        && reply == Reply(Err(SumVerdict(s2, t).why), SumVerdict(s2, t).isCapped))
                  && (SumVerdict(s2, t).Accept? ==>
                        && Enabled(s3, CommitReserve(t, s.clock))
                        && var s4 := Apply(s3, CommitReserve(t, s.clock));
                        && s4.rows == rows' && reply.result.Ok?
                        && (reply.isCapped <==> Add32(s3.txns[t].seen, req.quantity) >= s3.txns[t].capacity)
                        && (req.key.Some? ==> s4.txns[t].Replying? && s4.txns[t].item == reply.result.value)))
  {
    var s1 := Apply(s, BeginReserve(t, req));
    assert s1.txns[t] == Begun(s.clock, req);
    if LockRefusal(s1, t).None? {
      var s2 := Apply(s1, LockEvent(t));
      assert s2.txns[t] == Locked(s.clock, req, s.events[req.event].capacity, s.events[req.event].maxPerUser);
      UserWithinEvent(s.rows, req.event, req.user, s.clock);
    }
  }

  // ---- the two ways past the bound ----

  lemma TotalOfTwo(a: Row, b: Row, e: EventId, w: Scope, t: int)
    ensures Total([a, b], e, w, t) == SeatsAt(a, e, w, t) + SeatsAt(b, e, w, t)
  {
    TotalAppend([], a, e, w, t);
    TotalAppend([a], b, e, w, t);
    assert [] + [a] == [a] && [a] + [b] == [a, b];
  }

  lemma TotalOfOne(a: Row, e: EventId, w: Scope, t: int)
    ensures Total([a], e, w, t) == SeatsAt(a, e, w, t)
  {
    TotalAppend([], a, e, w, t);
    assert [] + [a] == [a];
  }

  ghost predicate Reachable(s: State) {
    exists run, acts :: IsRun(run, acts) && run[|run| - 1] == s
  }

  lemma Start(s: State)
    requires Init(s)
    ensures Reachable(s)
  {
    assert IsRun([s], []);
  }

  lemma Step(s: State, a: Action)
    requires Reachable(s) && Enabled(s, a)
    ensures Reachable(Apply(s, a))
  {
    var run, acts :| IsRun(run, acts) && run[|run| - 1] == s;
    var run', acts' := run + [Apply(s, a)], acts + [a];
    forall i | 0 <= i < |acts'| ensures StepAt(run', acts', i) {
      if i < |acts| { assert StepAt(run, acts, i); }
    }
    assert IsRun(run', acts');
  }

  /** A reserve that has just passed its checks. */
  function Passed(s: State, req: Request): Txn
    requires req.event in s.events
  {
    Checked(s.clock, req, Total(s.rows, req.event, Everyone, s.clock), s.events[req.event].capacity)
  }

  /** A reserve that passes its checks, interrupted by nothing up to its INSERT. */
  lemma QuickCheck(s: State, t: nat, req: Request)
    requires Reachable(s)
    requires t !in s.txns && Unlocked(s, req.event) && req.event in s.events
    requires 0 < req.quantity <= INT32_MAX && Total(s.rows, req.event, Everyone, s.clock) + req.quantity < TWO_32
    requires Total(s.rows, req.event, Only(req.user), s.clock) + req.quantity <= s.events[req.event].maxPerUser
    requires Total(s.rows, req.event, Everyone, s.clock) + req.quantity <= s.events[req.event].capacity
    ensures Reachable(s.(txns := s.txns[t := Passed(s, req)]))
  {
    var e, u, q := req.event, req.user, req.quantity;
    UserWithinEvent(s.rows, e, u, s.clock);
    CheckDecides(s.events[e].capacity, s.events[e].maxPerUser,
                 Total(s.rows, e, Everyone, s.clock), Total(s.rows, e, Only(u), s.clock), q);
    var s1 := s.(txns := s.txns[t := Begun(s.clock, req)]);
    var s2 := s.(txns := s.txns[t := Locked(s.clock, req, s.events[e].capacity, s.events[e].maxPerUser)]);
    var s3 := s.(txns := s.txns[t := Passed(s, req)]);
    Step(s, BeginReserve(t, req));
    Step(s1, LockEvent(t));
    assert s1.txns[t := s2.txns[t]] == s2.txns;
    Step(s2, SumSeats(t));
    assert s2.txns[t := s3.txns[t]] == s3.txns;
  }

  lemma QuickReserve(s: State, t: nat, e: EventId, u: UserId, q: nat)
    requires Reachable(s)
    requires t !in s.txns && Unlocked(s, e) && e in s.events
    requires 0 < q <= INT32_MAX && Total(s.rows, e, Everyone, s.clock) + q < TWO_32
    requires Total(s.rows, e, Only(u), s.clock) + q <= s.events[e].maxPerUser
    requires Total(s.rows, e, Everyone, s.clock) + q <= s.events[e].capacity
    ensures Reachable(s.(rows := s.rows + [NewHold(e, u, q, None, s.clock)]))
  {
    var req := Request(e, u, q, None);
    QuickCheck(s, t, req);
    var s3 := s.(txns := s.txns[t := Passed(s, req)]);
    Step(s3, CommitReserve(t, s.clock));
    assert s3.txns - {t} == s.txns;
  }

  function Opening(e: Event): State {
    State(0, map[0 := e], [], map[], map[], History(map[0 := e.capacity], {}, {}, {}))
  }

  lemma OpeningReachable(e: Event)
    requires 0 < e.capacity <= INT32_MAX && 0 < e.maxPerUser <= INT32_MAX
    ensures Reachable(Opening(e))
  {
    var s := Opening(e);
    assert s.history.peak == map i | i in s.events :: s.events[i].capacity;
    Start(s);
  }

  /** One seat, two users: the first confirms with a transaction begun a second before the hold expires
      and committed after the second user's reserve has stopped counting that hold. */
  lemma LateConfirmOversells()
    ensures exists s | Reachable(s) :: s.events == map[0 := Event(1, 1)] && s.history.wrapped == {}
              && s.history.peak == map[0 := 1] && Total(s.rows, 0, Everyone, s.clock) == 2
  {
    var first, second := NewHold(0, 1, 1, None, 0), NewHold(0, 2, 1, None, 600);
    var late := Updating(599, 1, 0, Confirmed);
    var s0 := Opening(Event(1, 1));
    OpeningReachable(Event(1, 1));
    QuickReserve(s0, 0, 0, 1, 1);
    var s1 := s0.(rows := [first]);
    assert s0.rows + [first] == s1.rows;
    Step(s1, Tick(599));
    var s2 := s1.(clock := 599);
    Step(s2, BeginUpdate(7, 1, 0, Confirmed));
    var s3 := s2.(txns := map[7 := late]);
    assert s2.txns[7 := late] == s3.txns;
    Step(s3, Tick(600));
    var s4 := s3.(clock := 600);
    LateConfirmOversellsOn(s4, first, second);
  }

  lemma LateConfirmOversellsOn(s4: State, first: Row, second: Row)
    requires Reachable(s4)
    requires s4 == Opening(Event(1, 1))
             .(clock := 600, rows := [first], txns := map[7 := Updating(599, 1, 0, Confirmed)])
    requires first == NewHold(0, 1, 1, None, 0) && second == NewHold(0, 2, 1, None, 600)
    ensures exists s | Reachable(s) :: s.events == map[0 := Event(1, 1)] && s.history.wrapped == {}
              && s.history.peak == map[0 := 1] && Total(s.rows, 0, Everyone, s.clock) == 2
  {
    TotalOfOne(first, 0, Everyone, 600);
    TotalOfOne(first, 0, Only(2), 600);
    QuickReserve(s4, 0, 0, 2, 1);
    var s5 := s4.(rows := [first, second]);
    assert s4.rows + [second] == s5.rows;
    Step(s5, CommitUpdate(7, 600));
    var s6 := Apply(s5, CommitUpdate(7, 600));
    TotalOfTwo(Settle(first, Confirmed, 600), second, 0, Everyone, 600);
    assert s6.rows == [Settle(first, Confirmed, 600), second];
  }

  /** The stale now() lets the carry happen with no late confirm at all: a reserve that waited ten minutes
      for the lock counts an expired hold and its replacement, and two more seats wrap the sum to zero. */
  lemma StaleSumCarries()
    ensures exists s | Reachable(s) :: s.history.late == {} && s.history.peak == map[0 := INT32_MAX]
              && Total(s.rows, 0, Everyone, s.clock) == INT32_MAX + 2
  {
    var m := INT32_MAX;
    var first, second, third := NewHold(0, 1, m, None, 0), NewHold(0, 2, m, None, 600), NewHold(0, 3, 2, None, 600);
    var req := Request(0, 3, 2, None);
    var s0 := Opening(Event(m, m));
    OpeningReachable(Event(m, m));
    QuickReserve(s0, 0, 0, 1, m);
    var s1 := s0.(rows := [first]);
    assert s0.rows + [first] == s1.rows;
    Step(s1, BeginReserve(7, req));
    var s2 := s1.(txns := map[7 := Begun(0, req)]);
    assert s1.txns[7 := Begun(0, req)] == s2.txns;
    Step(s2, Tick(600));
    var s3 := s2.(clock := 600);
    TotalOfOne(first, 0, Everyone, 600);
    TotalOfOne(first, 0, Only(2), 600);
    QuickReserve(s3, 0, 0, 2, m);
    var s4 := s3.(rows := [first, second]);
    assert s3.rows + [second] == s4.rows;
    StaleSumCarriesOn(s4, first, second, third, req);
  }

  lemma StaleSumCarriesOn(s4: State, first: Row, second: Row, third: Row, req: Request)
    requires Reachable(s4)
    requires s4 == Opening(Event(INT32_MAX, INT32_MAX))
             .(clock := 600, rows := [first, second], txns := map[7 := Begun(0, req)])
    requires first == NewHold(0, 1, INT32_MAX, None, 0) && second == NewHold(0, 2, INT32_MAX, None, 600)
    requires third == NewHold(0, 3, 2, None, 600) && req == Request(0, 3, 2, None)
    ensures exists s | Reachable(s) :: s.history.late == {} && s.history.peak == map[0 := INT32_MAX]
              && Total(s.rows, 0, Everyone, s.clock) == INT32_MAX + 2
  {
    var m := INT32_MAX;
    Step(s4, LockEvent(7));
    var s5 := s4.(txns := map[7 := Locked(0, req, m, m)]);
    assert s4.txns[7 := Locked(0, req, m, m)] == s5.txns;
    TotalOfTwo(first, second, 0, Everyone, 0);
    TotalOfTwo(first, second, 0, Only(3), 0);
    Step(s5, SumSeats(7));
    var passed := Checked(0, req, m + m, m);
    var s6 := s5.(txns := map[7 := passed], history := s5.history.(wrapped := {0}));
    assert s5.txns[7 := passed] == s6.txns;
    assert s5.history.wrapped + {0} == {0};
    Step(s6, CommitReserve(7, 600));
    TotalOfTwo(first, second, 0, Everyone, 600);
    TotalAppend([first, second], third, 0, Everyone, 600);
    assert Apply(s6, CommitReserve(7, 600)).rows == [first, second] + [third];
  }
}
