/** What an event or a user has already been given or promised: the active seats and those of a reserve that has
    passed its checks. Which steps of ReservationProtocol take it past the capacity or the quota. */
module ReservationLoad {
  import opened Common
  import opened ReservationTable
  import opened ReservationStore
  import opened ReservationProtocol
  import opened ReservationTheorems

  predicate Within(w: Scope, u: UserId) {
    w.Only? ==> w.user == u
  }

  predicate Promises(s: State, t: nat, e: EventId, w: Scope) {
    t in s.txns && s.txns[t].Checked? && s.txns[t].req.event == e && Within(w, s.txns[t].req.user)
  }

  /** The seats of the reserve that has passed its checks and not yet inserted. The event's lock lets no second
      one be there. */
  ghost function Promise(s: State, e: EventId, w: Scope): nat {
    if exists t :: Promises(s, t, e, w) then
      var t :| Promises(s, t, e, w);
      s.txns[t].req.quantity
    else 0
  }

  ghost function Load(s: State, e: EventId, w: Scope): nat {
    Total(s.rows, e, w, s.clock) + Promise(s, e, w)
  }

  function Bound(s: State, e: EventId, w: Scope): nat
    requires e in s.events
  {
    if w.Everyone? then s.events[e].capacity else s.events[e].maxPerUser
  }

  lemma OnePromise(s: State, t: nat, e: EventId, w: Scope)
    requires OneHolder(s) && Promises(s, t, e, w)
    ensures Promise(s, e, w) == s.txns[t].req.quantity
  {
    forall t' | Promises(s, t', e, w) ensures t' == t {
      assert s.txns[t].HoldsLock(e) && s.txns[t'].HoldsLock(e);
    }
  }

  /** Only passing the checks makes a promise. */
  lemma PromiseFrom(s: State, a: Action, t: nat, e: EventId, w: Scope)
    requires Enabled(s, a) && !a.SumSeats? && Promises(Apply(s, a), t, e, w)
    ensures Promises(s, t, e, w) && Apply(s, a).txns[t] == s.txns[t]
  {
    TxnWas(s, a, t);
  }

  lemma PromiseFades(s: State, a: Action, e: EventId, w: Scope)
    requires Bookkeeping(s) && Enabled(s, a) && !a.SumSeats?
    ensures Promise(Apply(s, a), e, w) <= Promise(s, e, w)
  {
    var s' := Apply(s, a);
    OneHolderKept(s, a);
    if t :| Promises(s', t, e, w) {
      PromiseFrom(s, a, t, e, w);
      OnePromise(s, t, e, w);
      OnePromise(s', t, e, w);
    }
  }

  lemma PromiseSame(s: State, a: Action, e: EventId, w: Scope)
    requires Bookkeeping(s) && Enabled(s, a) && !a.SumSeats? && !a.CommitReserve? && !a.Abort?
    ensures Promise(Apply(s, a), e, w) == Promise(s, e, w)
  {
    PromiseFades(s, a, e, w);
    OneHolderKept(s, a);
    if t :| Promises(s, t, e, w) {
      PromiseOutlives(s, a, t, e, w);
      OnePromise(s, t, e, w);
      OnePromise(Apply(s, a), t, e, w);
    }
  }

  lemma PromiseOutlives(s: State, a: Action, t: nat, e: EventId, w: Scope)
    requires Enabled(s, a) && Promises(s, t, e, w)
    requires !a.CommitReserve? && !a.Abort?
    ensures Promises(Apply(s, a), t, e, w) && Apply(s, a).txns[t] == s.txns[t]
  {
  }

  // ---- each kind of step ----

  lemma TotalFades(rows: seq<Row>, e: EventId, w: Scope, t: int, t': int)
    requires t <= t'
    ensures Total(rows, e, w, t') <= Total(rows, e, w, t)
  {
    SumMono(ActiveWeights(rows, e, w, t'), ActiveWeights(rows, e, w, t));
  }

  /** Steps that touch neither checks, nor inserts, nor confirms and releases only ever lower the load. */
  lemma OthersFade(s: State, a: Action, e: EventId, w: Scope)
    requires Bookkeeping(s) && Enabled(s, a)
    requires !a.SumSeats? && !a.CommitReserve? && !a.CommitUpdate?
    ensures Load(Apply(s, a), e, w) <= Load(s, e, w)
    ensures a.SetCapacity? ==> Load(Apply(s, a), e, w) == Load(s, e, w)
  {
    PromiseFades(s, a, e, w);
    match a
    case Tick(to) => TotalFades(s.rows, e, w, s.clock, to);
    case Sweep(began) => SweepConservesSeats(s.rows, began, e, w, s.clock);
    case SetCapacity(_, _) => PromiseSame(s, a, e, w);
    case _ =>
  }

  lemma PromiseEnds(s: State, t: nat, stamp: int, e: EventId, w: Scope)
    requires Bookkeeping(s) && Enabled(s, CommitReserve(t, stamp)) && Promises(s, t, e, w)
    ensures Promise(s, e, w) == s.txns[t].req.quantity && Promise(ApplyCommitReserve(s, t, stamp), e, w) == 0
  {
    OnePromise(s, t, e, w);
    var s' := ApplyCommitReserve(s, t, stamp);
    forall t' | Promises(s', t', e, w) ensures false {
      PromiseFrom(s, CommitReserve(t, stamp), t', e, w);
      assert s.txns[t].HoldsLock(e) && s.txns[t'].HoldsLock(e);
    }
  }

  /** An insert turns the promise into seats, or, on a conflict, drops it. */
  lemma CommitFades(s: State, t: nat, stamp: int, e: EventId, w: Scope)
    requires Bookkeeping(s) && Enabled(s, CommitReserve(t, stamp))
    ensures Load(ApplyCommitReserve(s, t, stamp), e, w) <= Load(s, e, w)
  {
    var req := s.txns[t].req;
    TotalAppend(s.rows, NewHold(req.event, req.user, req.quantity, req.key, stamp), e, w, s.clock);
    if Promises(s, t, e, w) {
      PromiseEnds(s, t, stamp, e, w);
    } else {
      PromiseFades(s, CommitReserve(t, stamp), e, w);
    }
  }

  lemma UpdateLoads(s: State, t: nat, stamp: int, e: EventId, w: Scope)
    requires Bookkeeping(s) && Enabled(s, CommitUpdate(t, stamp))
    ensures var x := s.txns[t]; var s' := ApplyCommitUpdate(s, t, stamp);
            if !Updatable(s.rows, x.id, x.user, x.now) || !Concerns(s.rows[x.id], e, w)
            then Load(s', e, w) == Load(s, e, w)
            else
              var r := s.rows[x.id];
              Load(s', e, w) == Load(s, e, w) - (if s.clock < r.expiresAt then r.quantity else 0)
                                + (if x.target == Confirmed then r.quantity else 0)
  {
    var x := s.txns[t];
    assert TxnOk(s, x);
    PromiseSame(s, CommitUpdate(t, stamp), e, w);
    UpdateMovesSeats(s.rows, x.now, stamp, x.user, x.id, x.target, e, w, s.clock);
  }

  /** Which confirms keep a bound on an event's seats, or one user's, given and promised: those that commit before
      their hold expires, those the bound is not about, and late ones that find room beside the promise. */
  lemma ConfirmKeepsBoundExactly(s: State, t: nat, stamp: int, e: EventId, w: Scope, bound: nat)
    requires Bookkeeping(s) && Enabled(s, CommitUpdate(t, stamp)) && s.txns[t].target == Confirmed
    requires Updatable(s.rows, s.txns[t].id, s.txns[t].user, s.txns[t].now) && Load(s, e, w) <= bound
    ensures var r := s.rows[s.txns[t].id];
            Load(ApplyCommitUpdate(s, t, stamp), e, w) <= bound
            <==> s.clock < r.expiresAt || !Concerns(r, e, w) || Load(s, e, w) + r.quantity <= bound
  {
    UpdateLoads(s, t, stamp, e, w);
  }

  lemma NoPromiseYet(s: State, t: nat, e: EventId, w: Scope)
    requires OneHolder(s) && t in s.txns && s.txns[t].Locked? && s.txns[t].req.event == e
    ensures Promise(s, e, w) == 0
  {
    forall t' | Promises(s, t', e, w) ensures false {
      assert s.txns[t].HoldsLock(e) && s.txns[t'].HoldsLock(e);
    }
  }

  lemma SumPromises(s: State, t: nat, e: EventId, w: Scope)
    requires Bookkeeping(s) && Enabled(s, SumSeats(t))
    ensures var req := s.txns[t].req;
            Load(ApplySum(s, t), e, w) ==
              if SumVerdict(s, t).Accept? && req.event == e && Within(w, req.user)
              then Total(s.rows, e, w, s.clock) + req.quantity else Load(s, e, w)
  {
    var s', req := ApplySum(s, t), s.txns[t].req;
    OneHolderKept(s, SumSeats(t));
    if SumVerdict(s, t).Accept? && req.event == e && Within(w, req.user) {
      OnePromise(s', t, e, w);
    } else {
      forall t' ensures Promises(s', t', e, w) <==> Promises(s, t', e, w) {
        assert t' != t ==> (t' in s'.txns <==> t' in s.txns);
      }
      if t' :| Promises(s, t', e, w) {
        OnePromise(s, t', e, w);
        OnePromise(s', t', e, w);
      }
    }
  }

  /** A check that passes without a carry leaves room at its own time, and so now. */
  lemma CheckFits(s: State, t: nat, w: Scope)
    requires Bookkeeping(s) && Enabled(s, SumSeats(t)) && SumVerdict(s, t).Accept?
    requires !Wraps(SumSeen(s, t), s.txns[t].req.quantity) && Within(w, s.txns[t].req.user)
    ensures s.txns[t].req.event in s.events
    ensures Total(s.rows, s.txns[t].req.event, w, s.clock) + s.txns[t].req.quantity <= Bound(s, s.txns[t].req.event, w)
  {
    var x := s.txns[t];
    var e, u := x.req.event, x.req.user;
    assert TxnOk(s, x);
    UserWithinEvent(s.rows, e, u, x.now);
    CheckDecides(x.capacity, x.maxPerUser, Total(s.rows, e, Everyone, x.now), Total(s.rows, e, Only(u), x.now),
                 x.req.quantity);
    TotalFades(s.rows, e, w, x.now, s.clock);
  }

  // ---- which steps break a bound ----

  /** The three steps that can take given and promised seats past the capacity, or past one user's quota: a check
      that carried, a late confirm that finds no room, and a lowered capacity. */
  ghost predicate Breaks(s: State, a: Action, e: EventId, w: Scope)
    requires Enabled(s, a) && e in s.events
  {
    match a
    case SumSeats(t) =>
      var req := s.txns[t].req;
      && SumVerdict(s, t).Accept? && Wraps(SumSeen(s, t), req.quantity)
      && req.event == e && Within(w, req.user) && Bound(s, e, w) < Total(s.rows, e, w, s.clock) + req.quantity
    case CommitUpdate(t, _) =>
      var x := s.txns[t];
      && x.target == Confirmed && Updatable(s.rows, x.id, x.user, x.now) && Concerns(s.rows[x.id], e, w)
      && s.rows[x.id].expiresAt <= s.clock && Bound(s, e, w) < Load(s, e, w) + s.rows[x.id].quantity
    case SetCapacity(f, capacity) => f == e && w.Everyone? && capacity < Load(s, e, w)
    case _ => false
  }

  lemma BoundKept(s: State, a: Action, e: EventId, w: Scope)
    requires Bookkeeping(s) && Enabled(s, a) && e in s.events
    ensures e in Apply(s, a).events
    ensures Bound(Apply(s, a), e, w) ==
              if a.SetCapacity? && a.event == e && w.Everyone? then a.capacity else Bound(s, e, w)
  {
    OnlySetCapacity(s, a);
    EventsKept(s, a);
  }

  /** From a state within the bound, a step leads out of it if and only if it is one of those three. */
  lemma BreaksExactly(s: State, a: Action, e: EventId, w: Scope)
    requires Bookkeeping(s) && Enabled(s, a) && e in s.events && Load(s, e, w) <= Bound(s, e, w)
    ensures e in Apply(s, a).events
    ensures Load(Apply(s, a), e, w) <= Bound(Apply(s, a), e, w) <==> !Breaks(s, a, e, w)
  {
    BoundKept(s, a, e, w);
    match a
    case SumSeats(t) =>
      SumPromises(s, t, e, w);
      var req := s.txns[t].req;
      if SumVerdict(s, t).Accept? && req.event == e && Within(w, req.user) && !Wraps(SumSeen(s, t), req.quantity) {
        CheckFits(s, t, w);
      }
    case CommitReserve(t, stamp) => CommitFades(s, t, stamp, e, w);
    case CommitUpdate(t, stamp) => UpdateLoads(s, t, stamp, e, w);
    case _ => OthersFade(s, a, e, w);
  }

  ghost predicate BreaksAt(run: seq<State>, acts: seq<Action>, i: nat, e: EventId, w: Scope)
    requires |run| == |acts| + 1 && i < |acts|
  {
    Enabled(run[i], acts[i]) && e in run[i].events && Breaks(run[i], acts[i], e, w)
  }

  ghost predicate WithinBound(s: State, e: EventId, w: Scope) {
    e in s.events && Load(s, e, w) <= Bound(s, e, w)
  }

  lemma StartsWithin(s: State, e: EventId, w: Scope)
    requires Init(s) && e in s.events
    ensures WithinBound(s, e, w)
  {
    assert ActiveWeights(s.rows, e, w, s.clock) == [];
  }

  /** Every state up to n is within the bound, promises counted, if and only if no step so far was one of those
      three. */
  lemma {:induction false} BoundExactly(run: seq<State>, acts: seq<Action>, n: nat, e: EventId, w: Scope)
    requires IsRun(run, acts) && n < |run| && e in run[0].events
    ensures (forall i | 0 <= i <= n :: WithinBound(run[i], e, w))
       <==> (forall i | 0 <= i < n :: !BreaksAt(run, acts, i, e, w))
  {
    if n == 0 {
      StartsWithin(run[0], e, w);
    } else {
      BoundExactly(run, acts, n - 1, e, w);
      RunStep(run, acts, n);
      if WithinBound(run[n - 1], e, w) {
        BreaksExactly(run[n - 1], acts[n - 1], e, w);
        assert BreaksAt(run, acts, n - 1, e, w) <==> Breaks(run[n - 1], acts[n - 1], e, w);
      }
    }
  }

  /** A promise is as good as sold: unless its key names a reservation already, its insert, made at once, turns
      the whole load into active seats. */
  lemma PromiseComesDue(s: State, t: nat, e: EventId, w: Scope)
    requires Bookkeeping(s) && Promises(s, t, e, w)
    requires Replayed(s.rows, e, s.txns[t].req.user, s.txns[t].req.key).None?
    ensures Enabled(s, CommitReserve(t, s.clock))
    ensures Total(ApplyCommitReserve(s, t, s.clock).rows, e, w, s.clock) == Load(s, e, w)
  {
    assert TxnOk(s, s.txns[t]);
    var req := s.txns[t].req;
    OnePromise(s, t, e, w);
    TotalAppend(s.rows, NewHold(req.event, req.user, req.quantity, req.key, s.clock), e, w, s.clock);
  }

  // ---- a late confirm that finds room among the seats, and none beside the promise ----

  function Early(): Row {
    NewHold(0, 1, 1, None, 0)
  }

  function Wanted(): Request {
    Request(0, 2, 2, None)
  }

  function Contested(): State {
    Opening(Event(2, 2)).(clock := 600, rows := [Early()],
                          txns := map[7 := Updating(599, 1, 0, Confirmed), 8 := Checked(600, Wanted(), 0, 2)])
  }

  lemma ContestedReachable()
    ensures Reachable(Contested())
  {
    var late := Updating(599, 1, 0, Confirmed);
    var s0 := Opening(Event(2, 2));
    OpeningReachable(Event(2, 2));
    QuickReserve(s0, 0, 0, 1, 1);
    var s1 := s0.(rows := [Early()]);
    assert s0.rows + [Early()] == s1.rows;
    Step(s1, Tick(599));
    var s2 := s1.(clock := 599);
    Step(s2, BeginUpdate(7, 1, 0, Confirmed));
    var s3 := s2.(txns := map[7 := late]);
    assert s2.txns[7 := late] == s3.txns;
    Step(s3, Tick(600));
    var s4 := s3.(clock := 600);
    TotalOfOne(Early(), 0, Everyone, 600);
    TotalOfOne(Early(), 0, Only(2), 600);
    QuickCheck(s4, 8, Wanted());
    assert s4.txns[8 := Passed(s4, Wanted())] == Contested().txns;
  }

  /** Two seats. A hold of one has just expired, and a reserve of both has passed its checks, when the hold's late
      confirm commits: one seat of two is active then, and three once the reserve has inserted. */
  lemma PromiseOversells()
    ensures exists s, a | Reachable(s) && Enabled(s, a) ::
      && s.events == map[0 := Event(2, 2)] && a == CommitUpdate(7, 600) && Breaks(s, a, 0, Everyone)
      && var s' := Apply(s, a);
      && Total(s'.rows, 0, Everyone, s'.clock) == 1 && Enabled(s', CommitReserve(8, 600))
      && Total(Apply(s', CommitReserve(8, 600)).rows, 0, Everyone, 600) == 3
  {
    var s, a := Contested(), CommitUpdate(7, 600);
    ContestedReachable();
    TotalOfOne(Early(), 0, Everyone, 600);
    var s' := Apply(s, a);
    var sold, second := Settle(Early(), Confirmed, 600), NewHold(0, 2, 2, None, 600);
    assert s'.rows == [sold];
    TotalOfOne(sold, 0, Everyone, 600);
    TotalOfTwo(sold, second, 0, Everyone, 600);
    assert [sold] + [second] == [sold, second];
    ContestedPromise();
  }

  lemma ContestedPromise()
    ensures Promise(Contested(), 0, Everyone) == 2
  {
    assert Promises(Contested(), 8, 0, Everyone);
    forall t | Promises(Contested(), t, 0, Everyone) ensures t == 8 {
      assert t in {7, 8};
    }
  }
}
