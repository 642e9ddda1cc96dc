/** The sold-out marker beside the interleaved reservations, in any number of replicas. A call that learns of a
    full event marks it after its transaction has ended, and one that frees seats unmarks the event after its own,
    each in its replica's LRU first and in Redis second; a check may copy the flag into its replica's LRU. That an
    entry or a flag lapses may happen at any time. */
module SoldOutRaces {
  import opened Common
  import opened ReservationTable
  import opened ReservationStore
  import opened ReservationProtocol
  import T = ReservationTheorems

  // A reserve that owes a block: where it runs, and whether its LRU has the entry already.
  datatype Blocking = Blocking(replica: nat, event: EventId, halfway: bool)

  // A call that owes unblocks: the events untouched so far, and those gone from its LRU with the DEL to come.
  datatype Unblocking = Unblocking(replica: nat, untouched: set<EventId>, halfway: set<EventId>)

  datatype World = World(
    db: State,
    blocks: map<nat, Blocking>,
    unblocks: map<nat, Unblocking>,
    lru: set<(nat, EventId)>,
    flags: set<EventId>)

  datatype Step =
    | Database(a: Action, call: nat, replica: nat)
    | CapacityFromShell(event: EventId, capacity: nat)
    | BlockLocal(t: nat)
    | BlockRemote(t: nat)
    | UnblockLocal(call: nat, event: EventId)
    | UnblockRemote(call: nat, event: EventId)
    | Check(replica: nat, event: EventId)
    | LapseLocal(replica: nat, event: EventId)
    | LapseFlag(event: EventId)

  /** A step of a transaction. A reserve goes on to its reply, and its name is free again, only once it has
      marked the event it owes a block. */
  predicate Proceeds(w: World, a: Action, call: nat) {
    && Enabled(w.db, a) && call !in w.unblocks
    && (a.StoreItem? || a.BeginReserve? || a.BeginUpdate? ==> a.t !in w.blocks)
  }

  predicate Takes(w: World, a: Step) {
    match a
    case Database(x, call, _) => Proceeds(w, x, call)
    case CapacityFromShell(e, capacity) => Enabled(w.db, SetCapacity(e, capacity))
    case BlockLocal(t) => t in w.blocks && !w.blocks[t].halfway
    case BlockRemote(t) => t in w.blocks && w.blocks[t].halfway
    case UnblockLocal(call, e) => call in w.unblocks && e in w.unblocks[call].untouched
    case UnblockRemote(call, e) => call in w.unblocks && e in w.unblocks[call].halfway
    case _ => true
  }

  /** The isCapped that a transaction's end reports: before the INSERT it is the plain comparison, after the
      commit it counts the seats just asked for. */
  predicate EndsCapped(s: State, a: Action)
    requires Enabled(s, a)
  {
    match a
    case SumSeats(t) => var v := SumVerdict(s, t); v.Refuse? && v.isCapped
    case CommitReserve(t, _) =>
      var x := s.txns[t]; x.seen < TWO_32 && x.req.quantity < TWO_32 && x.capacity <= Add32(x.seen, x.req.quantity)
    case Abort(t) => s.txns[t].Checked? && s.txns[t].capacity <= s.txns[t].seen
    case _ => false
  }

  /** The events a call goes on to unblock. */
  function ToUnblock(s: State, a: Action): set<EventId>
    requires Enabled(s, a)
  {
    match a
    case CommitUpdate(t, _) =>
      var x := s.txns[t];
      if x.target == Released && Updatable(s.rows, x.id, x.user, x.now) then {s.rows[x.id].event} else {}
    case Sweep(began) => DueEvents(s.rows, began)
    case SetCapacity(e, _) => {e}
    case _ => {}
  }

  function NameOf(a: Action): nat {
    match a
    case SumSeats(t) => t
    case CommitReserve(t, _) => t
    case Abort(t) => t
    case _ => 0
  }

  function EventOf(s: State, a: Action): EventId
    requires Enabled(s, a) && EndsCapped(s, a)
  {
    s.txns[NameOf(a)].req.event
  }

  function NextUnblocks(w: World, a: Step): map<nat, Unblocking>
    requires Takes(w, a)
  {
    match a
    case Database(x, call, r) =>
      if ToUnblock(w.db, x) == {} then w.unblocks else w.unblocks[call := Unblocking(r, ToUnblock(w.db, x), {})]
    case UnblockLocal(call, e) =>
      var u := w.unblocks[call];
      w.unblocks[call := Unblocking(u.replica, u.untouched - {e}, u.halfway + {e})]
    case UnblockRemote(call, e) =>
      var u := w.unblocks[call];
      w.unblocks[call := Unblocking(u.replica, u.untouched, u.halfway - {e})]
    case _ => w.unblocks
  }

  function NextBlocks(w: World, a: Step): map<nat, Blocking>
    requires Takes(w, a)
  {
    match a
    case Database(x, _, r) =>
      if EndsCapped(w.db, x) then w.blocks[NameOf(x) := Blocking(r, EventOf(w.db, x), false)] else w.blocks
    case BlockLocal(t) => w.blocks[t := w.blocks[t].(halfway := true)]
    case BlockRemote(t) => w.blocks - {t}
    case _ => w.blocks
  }

  function NextLRU(w: World, a: Step): set<(nat, EventId)>
    requires Takes(w, a)
  {
    match a
    case BlockLocal(t) => w.lru + {(w.blocks[t].replica, w.blocks[t].event)}
    case UnblockLocal(call, e) => w.lru - {(w.unblocks[call].replica, e)}
    case Check(r, e) => if e in w.flags then w.lru + {(r, e)} else w.lru
    case LapseLocal(r, e) => w.lru - {(r, e)}
    case _ => w.lru
  }

  function NextFlags(w: World, a: Step): set<EventId>
    requires Takes(w, a)
  {
    match a
    case BlockRemote(t) => w.flags + {w.blocks[t].event}
    case UnblockRemote(_, e) => w.flags - {e}
    case LapseFlag(e) => w.flags - {e}
    case _ => w.flags
  }

  function NextState(w: World, a: Step): State
    requires Takes(w, a)
  {
    match a
    case Database(x, _, _) => Apply(w.db, x)
    case CapacityFromShell(e, capacity) => Apply(w.db, SetCapacity(e, capacity))
    case _ => w.db
  }

  function Next(w: World, a: Step): World
    requires Takes(w, a)
  {
    World(NextState(w, a), NextBlocks(w, a), NextUnblocks(w, a), NextLRU(w, a), NextFlags(w, a))
  }

  ghost predicate IsStart(w: World) {
    Init(w.db) && w.blocks == map[] && w.unblocks == map[] && w.lru == {} && w.flags == {}
  }

  ghost predicate StepAt(run: seq<World>, steps: seq<Step>, i: nat)
    requires |run| == |steps| + 1 && i < |steps|
  {
    Takes(run[i], steps[i]) && run[i + 1] == Next(run[i], steps[i])
  }

  ghost predicate IsRun(run: seq<World>, steps: seq<Step>) {
    && |run| == |steps| + 1 && IsStart(run[0])
    && forall i | 0 <= i < |steps| :: StepAt(run, steps, i)
  }

  // ---- when a replica should not answer blocked ----

  predicate HasRoom(s: State, e: EventId) {
    e in s.events && PendingTotal(s.rows, e) < s.events[e].capacity
  }

  predicate Owes(u: Unblocking, e: EventId) {
    e in u.untouched || e in u.halfway
  }

  /** Some call has freed seats of the event and has yet to finish unblocking it. */
  ghost predicate Owed(w: World, e: EventId) {
    exists call :: call in w.unblocks && Owes(w.unblocks[call], e)
  }

  /** What IsBlockEvent answers at a replica. */
  predicate Answers(w: World, r: nat, e: EventId) {
    (r, e) in w.lru || e in w.flags
  }

  /** A replica answers blocked for an event with room, and no call is on its way to correct it: it does so until
      its entry and the flag lapse, or until somebody frees more seats. */
  ghost predicate Stands(w: World, r: nat, e: EventId) {
    Answers(w, r, e) && HasRoom(w.db, e) && !Owed(w, e)
  }

  /** No call but this one owes the event an unblock. */
  ghost predicate LastToUnblock(w: World, call: nat, e: EventId) {
    call in w.unblocks && e !in w.unblocks[call].untouched &&
    forall other | other in w.unblocks && other != call :: !Owes(w.unblocks[other], e)
  }

  /** The four ways it comes about: either half of a block that lands on an event with room; the last half of the
      last unblock, which reaches no other replica's LRU, nor an entry that a check has put back into its own; and
      a capacity raised from the command line, which unblocks nothing. */
  ghost predicate Misleads(w: World, a: Step, r: nat, e: EventId)
    requires Takes(w, a)
  {
    match a
    case BlockLocal(t) =>
      && w.blocks[t].event == e && w.blocks[t].replica == r
      && !Answers(w, r, e) && HasRoom(w.db, e) && !Owed(w, e)
    case BlockRemote(t) => w.blocks[t].event == e && !Answers(w, r, e) && HasRoom(w.db, e) && !Owed(w, e)
    case UnblockRemote(call, f) => f == e && (r, e) in w.lru && HasRoom(w.db, e) && LastToUnblock(w, call, e)
    case CapacityFromShell(f, capacity) =>
      f == e && Answers(w, r, e) && !HasRoom(w.db, e) && PendingTotal(w.db.rows, e) < capacity && !Owed(w, e)
    case _ => false
  }

  lemma CommitKeepsFull(s: State, t: nat, stamp: int, e: EventId)
    requires Enabled(s, CommitReserve(t, stamp))
    ensures PendingTotal(s.rows, e) <= PendingTotal(ApplyCommitReserve(s, t, stamp).rows, e)
  {
    var req := s.txns[t].req;
    PendingAppend(s.rows, NewHold(req.event, req.user, req.quantity, req.key, stamp), e);
  }

  lemma UpdateKeepsFull(s: State, t: nat, stamp: int, e: EventId)
    requires Enabled(s, CommitUpdate(t, stamp)) && e !in ToUnblock(s, CommitUpdate(t, stamp))
    ensures PendingTotal(ApplyCommitUpdate(s, t, stamp).rows, e) == PendingTotal(s.rows, e)
  {
    var x := s.txns[t];
    var rows' := Update(s.rows, x.now, stamp, x.user, x.id, x.target).0;
    PendingSame(s.rows, rows', e);
  }

  lemma SweepKeepsFull(s: State, began: int, e: EventId)
    requires e !in DueEvents(s.rows, began)
    ensures PendingTotal(Swept(s.rows, began), e) == PendingTotal(s.rows, e)
  {
    PendingSame(s.rows, Swept(s.rows, began), e);
  }

  /** A transaction that makes room in an event owes it an unblock. */
  lemma RoomIsOwed(s: State, a: Action, e: EventId)
    requires Enabled(s, a) && e !in ToUnblock(s, a)
    ensures HasRoom(Apply(s, a), e) ==> HasRoom(s, e)
  {
    OnlySetCapacity(s, a);
    match a
    case CommitReserve(t, stamp) => CommitKeepsFull(s, t, stamp, e);
    case CommitUpdate(t, stamp) => UpdateKeepsFull(s, t, stamp, e);
    case Sweep(began) => SweepKeepsFull(s, began, e);
    case _ =>
  }

  lemma OwedIs(w: World, call: nat, e: EventId)
    requires call in w.unblocks && Owes(w.unblocks[call], e)
    ensures Owed(w, e)
  {
  }

  lemma OwedBefore(w: World, a: Step, e: EventId)
    requires Takes(w, a) && Owed(Next(w, a), e)
    ensures Owed(w, e) || (a.Database? && e in ToUnblock(w.db, a.a))
  {
    var call :| call in NextUnblocks(w, a) && Owes(NextUnblocks(w, a)[call], e);
    if call in w.unblocks && Owes(w.unblocks[call], e) { OwedIs(w, call, e); }
  }

  lemma OwedAfter(w: World, a: Step, e: EventId)
    requires Takes(w, a) && Owed(w, e) && !(a.UnblockRemote? && a.event == e)
    ensures Owed(Next(w, a), e)
  {
    var call :| call in w.unblocks && Owes(w.unblocks[call], e);
    OwedIs(Next(w, a), call, e);
  }

  lemma OwedByDatabase(w: World, a: Step, e: EventId)
    requires Takes(w, a) && a.Database? && e in ToUnblock(w.db, a.a)
    ensures Owed(Next(w, a), e)
  {
    OwedIs(Next(w, a), a.call, e);
  }

  lemma LastUnblock(w: World, call: nat, e: EventId)
    requires Takes(w, UnblockRemote(call, e))
    ensures Owed(w, e)
    ensures Owed(Next(w, UnblockRemote(call, e)), e) <==> !LastToUnblock(w, call, e)
  {
    var w' := Next(w, UnblockRemote(call, e));
    OwedIs(w, call, e);
    if LastToUnblock(w, call, e) {
      forall other | other in w'.unblocks ensures !Owes(w'.unblocks[other], e) {}
    } else if e in w.unblocks[call].untouched {
      OwedIs(w', call, e);
    } else {
      var other :| other in w.unblocks && other != call && Owes(w.unblocks[other], e);
      OwedIs(w', other, e);
    }
  }

  /** A step makes a replica answer blocked for an event with room, uncorrected, where it did not, if and only if
      it is one of those four. */
  lemma MisleadsExactly(w: World, a: Step, r: nat, e: EventId)
    requires Takes(w, a)
    ensures !Stands(w, r, e) && Stands(Next(w, a), r, e) <==> Misleads(w, a, r, e)
  {
    if Owed(Next(w, a), e) { OwedBefore(w, a, e); }
    match a
    case UnblockRemote(call, f) =>
      if f == e { LastUnblock(w, call, e); } else if Owed(w, e) { OwedAfter(w, a, e); }
    case Database(x, _, _) =>
      if e in ToUnblock(w.db, x) { OwedByDatabase(w, a, e); } else { RoomIsOwed(w.db, x, e); }
      if Owed(w, e) { OwedAfter(w, a, e); }
    case _ => if Owed(w, e) { OwedAfter(w, a, e); }
  }

  ghost predicate MisleadsAt(run: seq<World>, steps: seq<Step>, i: nat, r: nat, e: EventId)
    requires |run| == |steps| + 1 && i < |steps|
  {
    Takes(run[i], steps[i]) && Misleads(run[i], steps[i], r, e)
  }

  /** A replica does so in a state of a run if and only if such a step made it, and it has done so ever since. */
  lemma {:induction false} StandsExactly(run: seq<World>, steps: seq<Step>, n: nat, r: nat, e: EventId)
    requires IsRun(run, steps) && n < |run|
    ensures Stands(run[n], r, e)
       <==> exists k | 0 <= k < n :: MisleadsAt(run, steps, k, r, e) && forall j | k < j <= n :: Stands(run[j], r, e)
  {
    if n > 0 {
      StandsExactly(run, steps, n - 1, r, e);
      assert StepAt(run, steps, n - 1);
      MisleadsExactly(run[n - 1], steps[n - 1], r, e);
      if Stands(run[n], r, e) {
        if Stands(run[n - 1], r, e) {
          var k :| 0 <= k < n - 1 && MisleadsAt(run, steps, k, r, e)
            && forall j | k < j <= n - 1 :: Stands(run[j], r, e);
          assert forall j | k < j <= n :: Stands(run[j], r, e);
        } else {
          assert MisleadsAt(run, steps, n - 1, r, e);
        }
      }
    }
  }

  // ---- where an LRU entry comes from ----

  ghost predicate Seeds(w: World, a: Step, r: nat, e: EventId) {
    || (a.BlockLocal? && a.t in w.blocks && w.blocks[a.t].replica == r && w.blocks[a.t].event == e)
    || (a == Check(r, e) && e in w.flags)
  }

  ghost predicate Removes(w: World, a: Step, r: nat, e: EventId) {
    || (a.UnblockLocal? && a.event == e && a.call in w.unblocks && w.unblocks[a.call].replica == r)
    || a == LapseLocal(r, e)
  }

  ghost predicate SeededAt(run: seq<World>, steps: seq<Step>, k: nat, n: nat, r: nat, e: EventId)
    requires |run| == |steps| + 1 && k < n <= |steps|
  {
    Seeds(run[k], steps[k], r, e) && forall j | k < j < n :: !Removes(run[j], steps[j], r, e)
  }

  /** A replica has an entry of its own if and only if it blocked the event, or a check there found the flag, and
      nothing has removed the entry since. A check between the two halves of an unblock is such a one. */
  lemma {:induction false} EntryExactly(run: seq<World>, steps: seq<Step>, n: nat, r: nat, e: EventId)
    requires IsRun(run, steps) && n < |run|
    ensures (r, e) in run[n].lru <==> exists k | 0 <= k < n :: SeededAt(run, steps, k, n, r, e)
  {
    if n > 0 {
      EntryExactly(run, steps, n - 1, r, e);
      assert StepAt(run, steps, n - 1);
      if Seeds(run[n - 1], steps[n - 1], r, e) {
        assert SeededAt(run, steps, n - 1, n, r, e);
      } else if (r, e) in run[n].lru {
        var k :| 0 <= k < n - 1 && SeededAt(run, steps, k, n - 1, r, e);
        assert SeededAt(run, steps, k, n, r, e);
      } else if k :| 0 <= k < n && SeededAt(run, steps, k, n, r, e) {
        assert k < n - 1 && SeededAt(run, steps, k, n - 1, r, e);
      }
    }
  }

  // ---- three that happen ----

  ghost predicate Reachable(w: World) {
    exists run, steps :: IsRun(run, steps) && run[|run| - 1] == w
  }

  lemma Onward(w: World, a: Step)
    requires Reachable(w) && Takes(w, a)
    ensures Reachable(Next(w, a))
  {
    var run, steps :| IsRun(run, steps) && run[|run| - 1] == w;
    var run', steps' := run + [Next(w, a)], steps + [a];
    forall i | 0 <= i < |steps'| ensures StepAt(run', steps', i) {
      if i < |steps| { assert StepAt(run, steps, i); }
    }
    assert IsRun(run', steps');
  }

  function Seat(): Request {
    Request(0, 1, 1, None)
  }

  function Hold(): Row {
    NewHold(0, 1, 1, None, 0)
  }

  function Opened(): World {
    World(T.Opening(Event(1, 1)), map[], map[], {}, {})
  }

  lemma OpenedReachable()
    ensures Reachable(Opened())
  {
    var s := T.Opening(Event(1, 1));
    assert s.history.peak == map e | e in s.events :: s.events[e].capacity;
    assert IsRun([Opened()], []);
  }

  lemma SeatLocked()
    ensures Reachable(Opened().(db := Opened().db.(txns := map[1 := Locked(0, Seat(), 1, 1)])))
  {
    var w0, s0 := Opened(), Opened().db;
    OpenedReachable();
    Onward(w0, Database(BeginReserve(1, Seat()), 0, 0));
    var w1 := w0.(db := s0.(txns := map[1 := Begun(0, Seat())]));
    assert Next(w0, Database(BeginReserve(1, Seat()), 0, 0)) == w1;
    Onward(w1, Database(LockEvent(1), 0, 0));
    assert w1.db.txns[1 := Locked(0, Seat(), 1, 1)] == map[1 := Locked(0, Seat(), 1, 1)];
  }

  lemma SeatChecked()
    ensures Reachable(Opened().(db := Opened().db.(txns := map[1 := Checked(0, Seat(), 0, 1)])))
  {
    var w := Opened().(db := Opened().db.(txns := map[1 := Locked(0, Seat(), 1, 1)]));
    SeatLocked();
    Onward(w, Database(SumSeats(1), 0, 0));
    assert w.db.txns[1 := Checked(0, Seat(), 0, 1)] == map[1 := Checked(0, Seat(), 0, 1)];
  }

  function Held(): State {
    T.Opening(Event(1, 1)).(rows := [Hold()])
  }

  function Freed(): State {
    T.Opening(Event(1, 1)).(rows := [Settle(Hold(), Released, 0)])
  }

  lemma FreedHasRoom()
    ensures HasRoom(Freed(), 0) && PendingTotal(Freed().rows, 0) == 0
  {
    assert PendingWeights(Freed().rows, 0) == [0];
  }

  // The reserve has committed at replica 0 and owes the block.
  lemma SeatHeld()
    ensures Reachable(Opened().(db := Held(), blocks := map[1 := Blocking(0, 0, false)]))
  {
    var w := Opened().(db := Opened().db.(txns := map[1 := Checked(0, Seat(), 0, 1)]));
    SeatChecked();
    Onward(w, Database(CommitReserve(1, 0), 0, 0));
    assert [] + [Hold()] == [Hold()];
    assert w.db.txns - {1} == map[];
  }

  // Its owner releases the seat at replica 0, whatever the markers are.
  lemma SeatReleased(w: World)
    requires Reachable(w) && w.db == Held() && 2 !in w.blocks && w.unblocks == map[]
    ensures Reachable(w.(db := Freed(), unblocks := map[9 := Unblocking(0, {0}, {})]))
  {
    var a, b := BeginUpdate(2, 1, 0, Released), CommitUpdate(2, 0);
    var w1 := w.(db := Held().(txns := map[2 := Updating(0, 1, 0, Released)]));
    Onward(w, Database(a, 0, 0));
    assert Next(w, Database(a, 0, 0)) == w1;
    Onward(w1, Database(b, 9, 0));
    assert w1.db.txns - {2} == map[];
    assert [Hold()][0 := Settle(Hold(), Released, 0)] == Freed().rows;
    assert w1.unblocks[9 := Unblocking(0, {0}, {})] == map[9 := Unblocking(0, {0}, {})];
  }

  // And unblocks the event: first half, then last half.
  lemma FirstHalf(w: World)
    requires Reachable(w) && w.unblocks == map[9 := Unblocking(0, {0}, {})]
    ensures Reachable(w.(unblocks := map[9 := Unblocking(0, {}, {0})], lru := w.lru - {(0, 0)}))
  {
    Onward(w, UnblockLocal(9, 0));
    assert w.unblocks[9 := Unblocking(0, {}, {0})] == map[9 := Unblocking(0, {}, {0})];
    var none: set<EventId> := {};
    assert {0} - {0} == none && none + {0} == {0};
  }

  lemma LastHalf(w: World)
    requires Reachable(w) && w.unblocks == map[9 := Unblocking(0, {}, {0})]
    ensures Reachable(w.(unblocks := map[9 := Unblocking(0, {}, {})], flags := w.flags - {0}))
  {
    Onward(w, UnblockRemote(9, 0));
    assert w.unblocks[9 := Unblocking(0, {}, {})] == map[9 := Unblocking(0, {}, {})];
    var none: set<EventId> := {};
    assert {0} - {0} == none;
  }

  lemma SeatMarked()
    ensures Reachable(Opened().(db := Held(), lru := {(0, 0)}, flags := {0}))
  {
    var w := Opened().(db := Held(), blocks := map[1 := Blocking(0, 0, false)]);
    SeatHeld();
    Onward(w, BlockLocal(1));
    var w1 := w.(blocks := map[1 := Blocking(0, 0, true)], lru := {(0, 0)});
    assert w.blocks[1 := Blocking(0, 0, true)] == w1.blocks;
    Onward(w1, BlockRemote(1));
    assert w1.blocks - {1} == map[];
  }

  /** The only seat is reserved and released again, and the release has unblocked the event, before the reserve's
      own block lands: the event is marked sold out with its seat free, and nobody is about to correct it. */
  lemma StaleBlockHappens()
    ensures exists w: World | Reachable(w) :: w.db == Freed() && PendingTotal(w.db.rows, 0) == 0 && Stands(w, 0, 0)
  {
    var w := Opened().(db := Held(), blocks := map[1 := Blocking(0, 0, false)]);
    SeatHeld();
    SeatReleased(w);
    var w1 := w.(db := Freed(), unblocks := map[9 := Unblocking(0, {0}, {})]);
    FirstHalf(w1);
    var w2 := w1.(unblocks := map[9 := Unblocking(0, {}, {0})], lru := w1.lru - {(0, 0)});
    LastHalf(w2);
    var w3 := w2.(unblocks := map[9 := Unblocking(0, {}, {})], flags := w2.flags - {0});
    Onward(w3, BlockLocal(1));
    FreedHasRoom();
    assert Stands(Next(w3, BlockLocal(1)), 0, 0);
  }

  /** Everything in order, and yet another replica, which found the flag before the seat was released, answers
      blocked when the release has unblocked the event. */
  lemma OtherReplicaStands()
    ensures exists w: World | Reachable(w) ::
              w.db == Freed() && w.blocks == map[] && Stands(w, 1, 0) && !Stands(w, 0, 0)
  {
    var w := Opened().(db := Held(), lru := {(0, 0)}, flags := {0});
    SeatMarked();
    Onward(w, Check(1, 0));
    var w1 := w.(lru := {(0, 0), (1, 0)});
    assert Next(w, Check(1, 0)) == w1;
    SeatReleased(w1);
    var w2 := w1.(db := Freed(), unblocks := map[9 := Unblocking(0, {0}, {})]);
    FirstHalf(w2);
    var w3 := w2.(unblocks := map[9 := Unblocking(0, {}, {0})], lru := w2.lru - {(0, 0)});
    LastHalf(w3);
    FreedHasRoom();
    assert Stands(w3.(unblocks := map[9 := Unblocking(0, {}, {})], flags := w3.flags - {0}), 1, 0);
  }

  /** Or the unblocking replica itself, when a check there falls between the two halves. */
  lemma ReseededReplicaStands()
    ensures exists w: World | Reachable(w) :: w.db == Freed() && w.blocks == map[] && Stands(w, 0, 0)
  {
    var w := Opened().(db := Held(), lru := {(0, 0)}, flags := {0});
    SeatMarked();
    SeatReleased(w);
    var w1 := w.(db := Freed(), unblocks := map[9 := Unblocking(0, {0}, {})]);
    FirstHalf(w1);
    var w2 := w1.(unblocks := map[9 := Unblocking(0, {}, {0})], lru := w1.lru - {(0, 0)});
    Onward(w2, Check(0, 0));
    var w3 := Next(w2, Check(0, 0));
    LastHalf(w3);
    FreedHasRoom();
    assert Stands(w3.(unblocks := map[9 := Unblocking(0, {}, {})], flags := w3.flags - {0}), 0, 0);
  }
}
