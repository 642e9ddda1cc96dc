/** What runs of ReservationProtocol keep about single rows: the lifecycle, and one row per idempotency key. */
module ReservationHistory {
  import opened Common
  import opened ReservationTable
  import opened ReservationStore
  import opened ReservationProtocol
  import opened ReservationTheorems

  // ---- lifecycle ----

  /** A step keeps every row's identity, and the whole row once it is no longer held. */
  lemma RowKept(s: State, a: Action, id: nat)
    requires Bookkeeping(s) && Enabled(s, a) && id < |s.rows|
    ensures |s.rows| <= |Apply(s, a).rows|
    ensures IdentityOf(Apply(s, a).rows[id]) == IdentityOf(s.rows[id])
    ensures s.rows[id].status != Held ==> Apply(s, a).rows[id] == s.rows[id]
    ensures ValidRow(s.rows[id]) ==> ValidRow(Apply(s, a).rows[id])
  {
    if a.CommitUpdate? {
      UpdateChanges(s, a.t, a.stamp);
      assert TxnOk(s, s.txns[a.t]);
    }
  }

  predicate Follows(before: Row, after: Row) {
    IdentityOf(after) == IdentityOf(before) && (before.status != Held ==> after == before)
  }

  lemma RowKeptInRun(run: seq<State>, acts: seq<Action>, n: nat, id: nat)
    requires IsRun(run, acts) && 0 < n < |run| && id < |run[n - 1].rows|
    ensures id < |run[n].rows| && Follows(run[n - 1].rows[id], run[n].rows[id])
  {
    RunStep(run, acts, n);
    RowKept(run[n - 1], acts[n - 1], id);
  }

  /** Confirmed, released and expired are absorbing, and a row's seats, owner, key and times never change. */
  lemma {:induction false} SettledForEver(run: seq<State>, acts: seq<Action>, m: nat, n: nat, id: nat)
    requires IsRun(run, acts) && m <= n < |run| && id < |run[m].rows|
    ensures id < |run[n].rows| && Follows(run[m].rows[id], run[n].rows[id])
  {
    if m < n {
      SettledForEver(run, acts, m, n - 1, id);
      RowKeptInRun(run, acts, n, id);
    }
  }

  ghost predicate RowsValid(s: State) {
    && (forall i | 0 <= i < |s.rows| :: ValidRow(s.rows[i]))
    && (forall t | t in s.txns && s.txns[t].Checked? :: 0 < s.txns[t].req.quantity)
  }

  lemma CheckedIsPositive(s: State, a: Action, t: nat)
    requires Enabled(s, a) && RowsValid(s) && t in Apply(s, a).txns && Apply(s, a).txns[t].Checked?
    ensures 0 < Apply(s, a).txns[t].req.quantity
  {
    TxnWas(s, a, t);
    if a == SumSeats(t) {
      UserWithinEvent(s.rows, s.txns[t].req.event, s.txns[t].req.user, s.txns[t].now);
    }
  }

  lemma RowsValidKept(s: State, a: Action)
    requires Bookkeeping(s) && Enabled(s, a) && RowsValid(s)
    ensures RowsValid(Apply(s, a))
  {
    var s' := Apply(s, a);
    forall i | 0 <= i < |s'.rows| ensures ValidRow(s'.rows[i]) {
      if i < |s.rows| { RowKept(s, a, i); }
    }
    forall t | t in s'.txns && s'.txns[t].Checked? ensures 0 < s'.txns[t].req.quantity {
      CheckedIsPositive(s, a, t);
    }
  }

  /** In every state confirmed_at is set exactly for confirmed rows, and released_at exactly for released and
      expired ones. */
  lemma {:induction false} StampsMatchStatus(run: seq<State>, acts: seq<Action>, n: nat)
    requires IsRun(run, acts) && n < |run|
    ensures RowsValid(run[n])
  {
    if n > 0 {
      StampsMatchStatus(run, acts, n - 1);
      RunStep(run, acts, n);
      RowsValidKept(run[n - 1], acts[n - 1]);
    }
  }

  /** The step that takes a row out of held: its owner's confirm or release, before the hold ran out by the
      transaction's own clock, or a sweep begun when it had. */
  ghost predicate SettledBy(s: State, a: Action, id: nat, status: Status)
    requires id < |s.rows|
  {
    && Enabled(s, a)
    && match a
       case CommitUpdate(t, _) =>
         var x := s.txns[t];
         && x.id == id && x.user == s.rows[id].user && x.now < s.rows[id].expiresAt
         && x.target == status && (status == Confirmed || status == Released)
       case Sweep(began) => s.rows[id].expiresAt <= began && status == Expired
       case _ => false
  }

  lemma SettledByExactly(s: State, a: Action, id: nat, status: Status)
    requires Bookkeeping(s) && Enabled(s, a) && id < |s.rows| && s.rows[id].status == Held && status != Held
    ensures id < |Apply(s, a).rows| && (Apply(s, a).rows[id].status == status <==> SettledBy(s, a, id, status))
  {
    RowKept(s, a, id);
    match a
    case CommitUpdate(t, stamp) =>
      UpdateChanges(s, t, stamp);
      assert TxnOk(s, s.txns[t]);
    case Sweep(began) => SweptExpires(s.rows, began);
    case _ =>
  }

  ghost predicate SettledAt(run: seq<State>, acts: seq<Action>, k: nat, id: nat, status: Status)
    requires |run| == |acts| + 1 && k < |acts|
  {
    id < |run[k].rows| && run[k].rows[id].status == Held && SettledBy(run[k], acts[k], id, status)
  }

  lemma NewRowsAreHeld(s: State, a: Action, id: nat)
    requires Bookkeeping(s) && Enabled(s, a) && |s.rows| <= id < |Apply(s, a).rows|
    ensures Apply(s, a).rows[id].status == Held
  {
    if a.CommitUpdate? { UpdateChanges(s, a.t, a.stamp); }
  }

  /** Over every run: a row is confirmed, released or expired if and only if such a step once made it so. In
      particular only its owner's release releases it. */
  lemma {:induction false} SettledExactly(run: seq<State>, acts: seq<Action>, n: nat, id: nat, status: Status)
    requires IsRun(run, acts) && n < |run| && id < |run[n].rows| && status != Held
    ensures run[n].rows[id].status == status <==> exists k | 0 <= k < n :: SettledAt(run, acts, k, id, status)
  {
    if n > 0 {
      var p := n - 1;
      RunStep(run, acts, n);
      if id < |run[p].rows| {
        SettledExactly(run, acts, p, id, status);
        RowKept(run[p], acts[p], id);
        if run[p].rows[id].status == Held {
          SettledByExactly(run[p], acts[p], id, status);
          assert SettledAt(run, acts, p, id, status) <==> SettledBy(run[p], acts[p], id, status);
        }
      } else {
        NewRowsAreHeld(run[p], acts[p], id);
        forall k | 0 <= k < n ensures !SettledAt(run, acts, k, id, status) { RowsGrow(run, acts, k, p); }
      }
    }
  }

  lemma {:induction false} RowsGrow(run: seq<State>, acts: seq<Action>, m: nat, n: nat)
    requires IsRun(run, acts) && m <= n < |run|
    ensures |run[m].rows| <= |run[n].rows|
  {
    if m < n {
      RowsGrow(run, acts, m, n - 1);
      RunStep(run, acts, n);
      ConfirmedRowsKept(run[n - 1], acts[n - 1]);
    }
  }

  // ---- what the history fields record ----

  /** A confirm is recorded as late exactly when it commits at or after its own hold's expiry. */
  lemma LateExactly(s: State, a: Action, id: nat)
    requires Enabled(s, a)
    ensures var confirms := a.CommitUpdate? && s.txns[a.t].target == Confirmed && s.txns[a.t].id == id
              && Updatable(s.rows, id, s.txns[a.t].user, s.txns[a.t].now);
            id in Apply(s, a).history.late
            <==> id in s.history.late || (confirms && s.rows[id].expiresAt <= s.clock)
  {
  }

  /** An event is recorded as wrapped exactly when an accepted check of it goes beyond 32 bits. */
  lemma WrappedExactly(s: State, a: Action, e: EventId)
    requires Enabled(s, a)
    ensures var accepts := a.SumSeats? && s.txns[a.t].req.event == e && SumVerdict(s, a.t).Accept?;
            e in Apply(s, a).history.wrapped
            <==> e in s.history.wrapped || (accepts && TWO_32 <= SumSeen(s, a.t) + s.txns[a.t].req.quantity)
  {
  }

  /** The peak is the largest capacity an event has had. */
  lemma PeakExactly(s: State, a: Action, e: EventId)
    requires Bookkeeping(s) && Enabled(s, a) && e in s.events
    ensures e in Apply(s, a).events && e in Apply(s, a).history.peak
    ensures var capacity := Apply(s, a).events[e].capacity;
            Apply(s, a).history.peak[e] == if s.history.peak[e] < capacity then capacity else s.history.peak[e]
  {
    OnlySetCapacity(s, a);
    EventsKept(s, a);
  }

  /** An answer whose quantity is not the one asked for comes from a committing reserve; the two lookups compare
      first. */
  lemma LookedUpMatches(s: State, a: Action, x: Answer)
    requires Enabled(s, a) && x in Apply(s, a).history.answers && x !in s.history.answers
    ensures || a.CommitReserve?
            || ((a.LookUpCache? || a.LookUpTable?) && x.item.row.quantity == x.requested == a.requested)
  {
  }

  /** A confirm answers success exactly when it leaves the caller holding a confirmed row. */
  lemma ConfirmMeansConfirmed(rows: seq<Row>, now: int, stamp: int, u: UserId, id: nat)
    ensures var (rows', ok) := Confirm(rows, now, stamp, u, id);
            && |rows'| == |rows|
            && (ok <==> id < |rows'| && rows'[id].user == u && rows'[id].status == Confirmed)
            && (ok && rows' != rows ==> rows[id].status == Held && now < rows[id].expiresAt)
  {
  }

  /** Once a row is confirmed, at any later point of the run every confirm by its owner succeeds, every confirm
      by anyone else fails, every release fails, and none of them changes the table. */
  lemma ConfirmReplays(run: seq<State>, acts: seq<Action>, m: nat, n: nat, id: nat, v: UserId, now: int, stamp: int)
    requires IsRun(run, acts) && m <= n < |run| && id < |run[m].rows| && run[m].rows[id].status == Confirmed
    ensures Confirm(run[n].rows, now, stamp, v, id) == (run[n].rows, v == run[m].rows[id].user)
    ensures Update(run[n].rows, now, stamp, v, id, Released) == (run[n].rows, Err(ReservationNotFound))
  {
    SettledForEver(run, acts, m, n, id);
  }

  // ---- one row per key ----

  ghost predicate Names(s: State, at: CacheKey, item: Item) {
    && item.id < |s.rows|
    && SameKey(s.rows[item.id], at.event, at.user, at.key)
    && IdentityOf(s.rows[item.id]) == IdentityOf(item.row)
  }

  ghost predicate KeysOk(s: State) {
    && UniqueKeys(s.rows)
    && (forall at | at in s.cache :: Names(s, at, s.cache[at]))
    && (forall t | t in s.txns && s.txns[t].Replying? :: Names(s, s.txns[t].at, s.txns[t].item))
    && (forall x | x in s.history.answers :: Names(s, x.at, x.item))
  }

  lemma NamesKept(s: State, a: Action, at: CacheKey, item: Item)
    requires Bookkeeping(s) && Enabled(s, a) && Names(s, at, item)
    ensures Names(Apply(s, a), at, item)
  {
    RowKept(s, a, item.id);
  }

  lemma UniqueKept(s: State, a: Action)
    requires Bookkeeping(s) && Enabled(s, a) && UniqueKeys(s.rows)
    ensures UniqueKeys(Apply(s, a).rows)
  {
    var s' := Apply(s, a);
    forall i, j | 0 <= i < |s'.rows| && 0 <= j < |s'.rows| && s'.rows[i].key.Some? && s'.rows[i].key == s'.rows[j].key
      && s'.rows[i].event == s'.rows[j].event && s'.rows[i].user == s'.rows[j].user
      ensures i == j
    {
      if i < |s.rows| { RowKept(s, a, i); }
      if j < |s.rows| { RowKept(s, a, j); }
    }
  }

  /** What a committing reserve answers with is the row its key names. */
  lemma CommitNames(s: State, t: nat, stamp: int)
    requires Bookkeeping(s) && Enabled(s, CommitReserve(t, stamp)) && s.txns[t].req.key.Some?
    ensures var x := Apply(s, CommitReserve(t, stamp)).txns[t];
            x.Replying? && Names(Apply(s, CommitReserve(t, stamp)), x.at, x.item)
  {
  }

  // Only StoreItem brings an item into the cache.
  lemma CacheFrom(s: State, a: Action, at: CacheKey)
    requires Enabled(s, a) && at in Apply(s, a).cache
    ensures (at in s.cache && Apply(s, a).cache[at] == s.cache[at])
         || (a.StoreItem? && at == s.txns[a.t].at && Apply(s, a).cache[at] == s.txns[a.t].item)
  {
  }

  lemma CacheNames(s: State, a: Action, at: CacheKey)
    requires Bookkeeping(s) && KeysOk(s) && Enabled(s, a) && at in Apply(s, a).cache
    ensures Names(Apply(s, a), at, Apply(s, a).cache[at])
  {
    CacheFrom(s, a, at);
    assert Names(s, at, Apply(s, a).cache[at]);
    NamesKept(s, a, at, Apply(s, a).cache[at]);
  }

  lemma RepliesName(s: State, a: Action, t: nat)
    requires Bookkeeping(s) && KeysOk(s) && Enabled(s, a)
    requires t in Apply(s, a).txns && Apply(s, a).txns[t].Replying?
    ensures Names(Apply(s, a), Apply(s, a).txns[t].at, Apply(s, a).txns[t].item)
  {
    TxnWas(s, a, t);
    if t in s.txns && Apply(s, a).txns[t] == s.txns[t] {
      NamesKept(s, a, s.txns[t].at, s.txns[t].item);
    } else {
      assert a.CommitReserve?;
      CommitNames(s, a.t, a.stamp);
    }
  }

  lemma AnswersName(s: State, a: Action, x: Answer)
    requires Bookkeeping(s) && KeysOk(s) && Enabled(s, a) && x in Apply(s, a).history.answers
    ensures Names(Apply(s, a), x.at, x.item)
  {
    if x in s.history.answers {
      NamesKept(s, a, x.at, x.item);
    } else if a.CommitReserve? {
      CommitNames(s, a.t, a.stamp);
    } else if a.LookUpCache? {
      assert Names(s, a.at, s.cache[a.at]);
    }
  }

  lemma KeysKept(s: State, a: Action)
    requires Bookkeeping(s) && KeysOk(s) && Enabled(s, a)
    ensures KeysOk(Apply(s, a))
  {
    var s' := Apply(s, a);
    UniqueKept(s, a);
    forall at | at in s'.cache ensures Names(s', at, s'.cache[at]) { CacheNames(s, a, at); }
    forall t | t in s'.txns && s'.txns[t].Replying?
      ensures Names(s', s'.txns[t].at, s'.txns[t].item)
    {
      RepliesName(s, a, t);
    }
    forall x | x in s'.history.answers ensures Names(s', x.at, x.item) { AnswersName(s, a, x); }
  }

  lemma {:induction false} KeysHold(run: seq<State>, acts: seq<Action>, n: nat)
    requires IsRun(run, acts) && n < |run|
    ensures KeysOk(run[n])
  {
    if n > 0 {
      KeysHold(run, acts, n - 1);
      RunStep(run, acts, n);
      KeysKept(run[n - 1], acts[n - 1]);
    }
  }

  /** Every successful answer for a key, whether from a fresh insert, a conflict, the cache or the table,
      carries the id and quantity of the one row that has the key. */
  lemma ExactlyOnce(run: seq<State>, acts: seq<Action>, n: nat, x: Answer, y: Answer)
    requires IsRun(run, acts) && n < |run|
    requires x in run[n].history.answers && y in run[n].history.answers && x.at == y.at
    ensures x.item.id == y.item.id < |run[n].rows| && x.item.row.quantity == y.item.row.quantity
    ensures run[n].rows[x.item.id].quantity == x.item.row.quantity
    ensures forall i | 0 <= i < |run[n].rows| ::
              SameKey(run[n].rows[i], x.at.event, x.at.user, x.at.key) <==> i == x.item.id
  {
    KeysHold(run, acts, n);
    assert Names(run[n], x.at, x.item) && Names(run[n], y.at, y.item);
  }

  /** A committing reserve answers with the quantity it was asked for exactly when its key was free or named a
      reservation of that quantity. Answers looked up in the cache or the table always match. */
  lemma AnswerMatchesExactly(s: State, t: nat, stamp: int)
    requires Enabled(s, CommitReserve(t, stamp)) && s.txns[t].req.key.Some?
    ensures var req := s.txns[t].req;
            var found := FindKey(s.rows, req.event, req.user, req.key.value);
            var x := Apply(s, CommitReserve(t, stamp)).txns[t];
            && x.Replying? && Answer(x.at, req.quantity, x.item) in Apply(s, CommitReserve(t, stamp)).history.answers
            && (x.item.row.quantity == req.quantity <==> found.None? || s.rows[found.value].quantity == req.quantity)
  {
  }

  /** Two racing reserves under one key: the second asks for two seats and is told it has the first one's one. */
  lemma RacingKeysMismatch()
    ensures exists s | Reachable(s) :: exists x | x in s.history.answers :: x.requested == 2 && x.item.row.quantity == 1
  {
    var r1, r2 := Request(0, 1, 1, Some("k")), Request(0, 1, 2, Some("k"));
    var at, hold := CacheKey(0, 1, "k"), NewHold(0, 1, 1, Some("k"), 0);
    var s0 := Opening(Event(9, 9));
    OpeningReachable(Event(9, 9));
    QuickCheck(s0, 1, r1);
    var s1 := s0.(txns := s0.txns[1 := Passed(s0, r1)]);
    Step(s1, CommitReserve(1, 0));
    var s2 := Apply(s1, CommitReserve(1, 0));
    assert s2.rows == [hold] by { assert [] + [hold] == [hold]; }
    TotalOfOne(hold, 0, Everyone, 0);
    TotalOfOne(hold, 0, Only(1), 0);
    QuickCheck(s2, 2, r2);
    var s3 := s2.(txns := s2.txns[2 := Passed(s2, r2)]);
    assert SameKey(s3.rows[0], 0, 1, "k");
    Step(s3, CommitReserve(2, 0));
    assert Answer(at, 2, Item(0, hold)) in Apply(s3, CommitReserve(2, 0)).history.answers;
  }
}
