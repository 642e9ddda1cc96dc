/** One event's sold-out marker across any number of replicas: each has an LRU entry of its own, all share one
    Redis flag, and a check that finds the flag re-seeds its LRU. Blocking and unblocking touch the LRU and then
    Redis, in two steps; a check is one. */
module SoldOutMarkers {
  import opened Common
  import opened ReservationCaches

  // History: the last time either half of a block ran; since then, when each replica's DEL first ran, and the
  // replicas that had no LRU entry of their own at that moment.
  datatype Markers = Markers(
    now: int,
    lru: map<nat, int>,
    flag: Option<int>,
    lastBlock: Option<int>,
    freed: map<nat, int>,
    clean: set<nat>)

  datatype Step =
    | Tick(to: int)
    | BlockLocal(replica: nat)
    | BlockRemote(replica: nat)
    | UnblockLocal(replica: nat)
    | UnblockRemote(replica: nat)
    | Check(replica: nat)
    | Evict(replica: nat)

  predicate FlagUp(s: Markers) {
    s.flag.Some? && s.now <= s.flag.value
  }

  /** What IsBlockEvent answers at a replica. */
  predicate Answers(s: Markers, r: nat) {
    Alive(s.lru, r, s.now) || FlagUp(s)
  }

  /** A check that finds the flag in Redis alone. */
  predicate Reseeds(s: Markers, a: Step, r: nat) {
    a == Check(r) && !Alive(s.lru, r, s.now) && FlagUp(s)
  }

  predicate Enabled(s: Markers, a: Step) {
    a.Tick? ==> s.now <= a.to
  }

  function Blocking(s: Markers): Markers {
    s.(lastBlock := Some(s.now), freed := map[], clean := {})
  }

  function Next(s: Markers, a: Step): Markers {
    match a
    case Tick(to) => s.(now := to)
    case BlockLocal(r) => Blocking(s).(lru := s.lru[r := s.now + LRU_BLOCK_TTL])
    case BlockRemote(r) => Blocking(s).(flag := Some(s.now + EVENT_BLOCKED_TTL))
    case UnblockLocal(r) => s.(lru := s.lru - {r})
    case UnblockRemote(r) =>
      s.(flag := None, freed := if r in s.freed then s.freed else s.freed[r := s.now],
         clean := if r in s.lru then s.clean else s.clean + {r})
    case Check(r) => if Reseeds(s, a, r) then s.(lru := s.lru[r := s.now + LRU_BLOCK_TTL]) else s
    case Evict(r) => s.(lru := s.lru - {r})
  }

  ghost predicate Init(s: Markers) {
    s.lru == map[] && s.flag.None? && s.lastBlock.None? && s.freed == map[] && s.clean == {}
  }

  ghost predicate StepAt(run: seq<Markers>, steps: seq<Step>, i: nat)
    requires |run| == |steps| + 1 && i < |steps|
  {
    Enabled(run[i], steps[i]) && run[i + 1] == Next(run[i], steps[i])
  }

  ghost predicate IsRun(run: seq<Markers>, steps: seq<Step>) {
    && |run| == |steps| + 1 && Init(run[0])
    && forall i | 0 <= i < |steps| :: StepAt(run, steps, i)
  }

  /** No entry outlives what the last block, and the clock, allow. */
  ghost predicate Bounded(s: Markers) {
    && (s.lastBlock.None? ==> s.flag.None? && s.lru == map[])
    && (s.lastBlock.Some? ==>
          && s.lastBlock.value <= s.now
          && (s.flag.Some? ==> s.flag.value <= s.lastBlock.value + EVENT_BLOCKED_TTL)
          && (forall r | r in s.lru :: s.lru[r] <= s.lastBlock.value + EVENT_BLOCKED_TTL + LRU_BLOCK_TTL))
    && (forall r | r in s.lru :: s.lru[r] <= s.now + LRU_BLOCK_TTL)
  }

  /** Nor what the unblocks since then allow. */
  ghost predicate Freed(s: Markers) {
    && (forall r, r' | r in s.freed && r' in s.lru :: s.lru[r'] <= s.freed[r] + LRU_BLOCK_TTL)
    && (s.freed != map[] ==> s.flag.None?)
    && (forall r | r in s.clean :: r in s.freed && r !in s.lru)
  }

  ghost predicate Fresh(s: Markers) {
    Bounded(s) && Freed(s)
  }

  lemma BoundedKept(s: Markers, a: Step)
    requires Bounded(s) && Enabled(s, a)
    ensures Bounded(Next(s, a))
  {
  }

  lemma FreedKept(s: Markers, a: Step)
    requires Bounded(s) && Freed(s) && Enabled(s, a)
    ensures Freed(Next(s, a))
  {
    if a.UnblockRemote? { assert Next(s, a).freed == s.freed || Next(s, a).freed == s.freed[a.replica := s.now]; }
    assert forall r | r in s.clean :: s.freed != map[];
  }

  lemma FreshKept(s: Markers, a: Step)
    requires Fresh(s) && Enabled(s, a)
    ensures Fresh(Next(s, a))
  {
    BoundedKept(s, a);
    FreedKept(s, a);
  }

  lemma {:induction false} FreshHolds(run: seq<Markers>, steps: seq<Step>, n: nat)
    requires IsRun(run, steps) && n < |run|
    ensures Fresh(run[n])
  {
    if n > 0 {
      FreshHolds(run, steps, n - 1);
      assert StepAt(run, steps, n - 1);
      FreshKept(run[n - 1], steps[n - 1]);
    }
  }

  /** A replica that answers blocked does so within twenty seconds of the last block, however often checks have
      re-seeded it; within five seconds of every unblock since then, whoever made it; and it is not a replica
      whose own unblock since then was clean. */
  lemma BoundedStaleness(run: seq<Markers>, steps: seq<Step>, n: nat, r: nat)
    requires IsRun(run, steps) && n < |run| && Answers(run[n], r)
    ensures run[n].lastBlock.Some?
    ensures run[n].now <= run[n].lastBlock.value + EVENT_BLOCKED_TTL + LRU_BLOCK_TTL
    ensures forall r' | r' in run[n].freed :: run[n].now <= run[n].freed[r'] + LRU_BLOCK_TTL
    ensures r !in run[n].clean
  {
    FreshHolds(run, steps, n);
    assert forall r' | r' in run[n].freed :: run[n].freed != map[];
  }

  predicate BlockHalf(a: Step) {
    a.BlockLocal? || a.BlockRemote?
  }

  /** Step k is the last half of a block before n. */
  ghost predicate LastBlock(steps: seq<Step>, k: nat, n: nat) {
    k < n <= |steps| && BlockHalf(steps[k]) && forall j | k < j < n :: !BlockHalf(steps[j])
  }

  /** What the history fields record: the time of the last half of a block, and for each replica one no later than
      any DEL of its own since then. */
  lemma {:induction false} HistoryExactly(run: seq<Markers>, steps: seq<Step>, n: nat)
    requires IsRun(run, steps) && n < |run|
    ensures run[n].lastBlock.Some? ==>
              exists k: nat :: LastBlock(steps, k, n) && run[k].now == run[n].lastBlock.value
    ensures forall k: nat | LastBlock(steps, k, n) :: run[n].lastBlock == Some(run[k].now)
    ensures forall k: nat, j: nat | LastBlock(steps, k, n) && k < j < n && steps[j].UnblockRemote? ::
              steps[j].replica in run[n].freed && run[n].freed[steps[j].replica] <= run[j].now
  {
    if n > 0 {
      var p := n - 1;
      HistoryExactly(run, steps, p);
      assert StepAt(run, steps, p);
      if BlockHalf(steps[p]) {
        assert LastBlock(steps, p, n) && run[n].lastBlock == Some(run[p].now);
        forall k: nat | LastBlock(steps, k, n) ensures k == p { OneLastBlock(steps, k, p, n); }
      } else {
        forall k: nat ensures LastBlock(steps, k, n) <==> LastBlock(steps, k, p) { SameLastBlock(steps, k, n); }
        FreedLasts(run, steps, n);
      }
    }
  }

  lemma OneLastBlock(steps: seq<Step>, k: nat, k': nat, n: nat)
    requires LastBlock(steps, k, n) && LastBlock(steps, k', n)
    ensures k == k'
  {
  }

  lemma SameLastBlock(steps: seq<Step>, k: nat, n: nat)
    requires 0 < n <= |steps| && !BlockHalf(steps[n - 1])
    ensures LastBlock(steps, k, n) <==> LastBlock(steps, k, n - 1)
  {
  }

  lemma FreedLasts(run: seq<Markers>, steps: seq<Step>, n: nat)
    requires IsRun(run, steps) && 0 < n < |run| && !BlockHalf(steps[n - 1])
    ensures forall r | r in run[n - 1].freed :: r in run[n].freed && run[n].freed[r] == run[n - 1].freed[r]
    ensures steps[n - 1].UnblockRemote? ==>
              steps[n - 1].replica in run[n].freed && run[n].freed[steps[n - 1].replica] <= run[n - 1].now
  {
    assert StepAt(run, steps, n - 1);
    FreedInPast(run, steps, n - 1);
  }

  lemma {:induction false} FreedInPast(run: seq<Markers>, steps: seq<Step>, n: nat)
    requires IsRun(run, steps) && n < |run|
    ensures forall r | r in run[n].freed :: run[n].freed[r] <= run[n].now
  {
    if n > 0 {
      FreedInPast(run, steps, n - 1);
      assert StepAt(run, steps, n - 1);
    }
  }

  /** The same bound, told by the steps: a replica that answers blocked does so within twenty seconds of the last
      half of a block, and within five of every DEL since. */
  lemma BlockedIsRecent(run: seq<Markers>, steps: seq<Step>, n: nat, r: nat)
    requires IsRun(run, steps) && n < |run| && Answers(run[n], r)
    ensures exists k: nat :: LastBlock(steps, k, n) && run[n].now <= run[k].now + 15 + 5
    ensures forall k: nat, j: nat | LastBlock(steps, k, n) && k < j < n && steps[j].UnblockRemote? ::
              run[n].now <= run[j].now + 5
  {
    BoundedStaleness(run, steps, n, r);
    HistoryExactly(run, steps, n);
  }

  /** The two halves of an unblock with nothing of the replica's own in between: no half of a block by it, and no
      check that found the flag. */
  ghost predicate Undisturbed(run: seq<Markers>, steps: seq<Step>, m: nat, n: nat, r: nat)
    requires |run| == |steps| + 1 && m < n < |steps|
  {
    && steps[m] == UnblockLocal(r) && steps[n] == UnblockRemote(r)
    && forall k | m < k < n :: steps[k] != BlockLocal(r) && !Reseeds(run[k], steps[k], r)
  }

  lemma {:induction false} StaysOut(run: seq<Markers>, steps: seq<Step>, m: nat, n: nat, r: nat)
    requires IsRun(run, steps) && m < n < |run| && steps[m] == UnblockLocal(r)
    requires forall k | m < k < n :: steps[k] != BlockLocal(r) && !Reseeds(run[k], steps[k], r)
    ensures r !in run[n].lru
  {
    if m + 1 < n { StaysOut(run, steps, m, n - 1, r); }
    assert StepAt(run, steps, n - 1);
  }

  /** An undisturbed unblock is clean: from its second half on the replica answers false. */
  lemma UndisturbedIsClean(run: seq<Markers>, steps: seq<Step>, m: nat, n: nat, r: nat)
    requires IsRun(run, steps) && m < n < |steps| && Undisturbed(run, steps, m, n, r)
    ensures r in run[n + 1].clean && !Answers(run[n + 1], r)
  {
    StaysOut(run, steps, m, n, r);
    assert StepAt(run, steps, n);
    FreshHolds(run, steps, n);
  }

  /** And it stays so until the next half of a block, by any replica. */
  lemma {:induction false} CleanUntilBlocked(run: seq<Markers>, steps: seq<Step>, m: nat, n: nat, r: nat)
    requires IsRun(run, steps) && m <= n < |run| && r in run[m].clean
    requires forall k | m <= k < n :: !steps[k].BlockLocal? && !steps[k].BlockRemote?
    ensures r in run[n].clean && !Answers(run[n], r)
  {
    if m < n {
      CleanUntilBlocked(run, steps, m, n - 1, r);
      assert StepAt(run, steps, n - 1);
    }
    FreshHolds(run, steps, n);
    assert r in run[n].freed ==> run[n].freed != map[];
  }

  // ---- what keeps an unblocking replica blocked ----

  /** The step writes r's own entry: its half of a block, or a check that found the flag. */
  predicate Writes(s: Markers, a: Step, r: nat) {
    a == BlockLocal(r) || Reseeds(s, a, r)
  }

  predicate Clears(a: Step, r: nat) {
    a == UnblockLocal(r) || a == Evict(r)
  }

  ghost predicate WrittenAt(run: seq<Markers>, steps: seq<Step>, k: nat, n: nat, r: nat)
    requires |run| == |steps| + 1 && k < n <= |steps|
  {
    Writes(run[k], steps[k], r) && forall j | k < j < n :: !Clears(steps[j], r)
  }

  lemma {:induction false} TimeGoesOn(run: seq<Markers>, steps: seq<Step>, m: nat, n: nat)
    requires IsRun(run, steps) && m <= n < |run|
    ensures run[m].now <= run[n].now
  {
    if m < n {
      TimeGoesOn(run, steps, m, n - 1);
      assert StepAt(run, steps, n - 1);
    }
  }

  /** A replica's own entry is alive if and only if a write at most five seconds old has not been cleared. */
  lemma {:induction false} EntryExactly(run: seq<Markers>, steps: seq<Step>, n: nat, r: nat, until: int)
    requires IsRun(run, steps) && n < |run|
    ensures r in run[n].lru && until <= run[n].lru[r]
       <==> exists k | 0 <= k < n :: WrittenAt(run, steps, k, n, r) && until <= run[k].now + LRU_BLOCK_TTL
  {
    if n > 0 {
      EntryExactly(run, steps, n - 1, r, until);
      assert StepAt(run, steps, n - 1);
      if Writes(run[n - 1], steps[n - 1], r) {
        assert WrittenAt(run, steps, n - 1, n, r);
        forall k | 0 <= k < n ensures run[k].now <= run[n - 1].now { TimeGoesOn(run, steps, k, n - 1); }
      } else if r in run[n].lru && until <= run[n].lru[r] {
        var k :| 0 <= k < n - 1 && WrittenAt(run, steps, k, n - 1, r) && until <= run[k].now + LRU_BLOCK_TTL;
        assert WrittenAt(run, steps, k, n, r);
      } else if k :| 0 <= k < n && WrittenAt(run, steps, k, n, r) && until <= run[k].now + LRU_BLOCK_TTL {
        assert k < n - 1 && WrittenAt(run, steps, k, n - 1, r);
      }
    }
  }

  /** After the second half of any unblock a replica, the unblocking one included, answers blocked if and only if
      it has itself blocked or re-seeded at most five seconds ago and has neither unblocked nor evicted since. */
  lemma UnblockLeavesExactly(run: seq<Markers>, steps: seq<Step>, n: nat, other: nat, r: nat)
    requires IsRun(run, steps) && n < |steps| && steps[n] == UnblockRemote(other)
    ensures Answers(run[n + 1], r)
       <==> exists k | 0 <= k <= n ::
              WrittenAt(run, steps, k, n + 1, r) && run[n + 1].now <= run[k].now + LRU_BLOCK_TTL
  {
    assert StepAt(run, steps, n);
    EntryExactly(run, steps, n + 1, r, run[n + 1].now);
  }

  /** For the replica whose own unblock it is, that write lies between the two halves. */
  lemma UnblockingReplicaExactly(run: seq<Markers>, steps: seq<Step>, m: nat, n: nat, r: nat)
    requires IsRun(run, steps) && m < n < |steps|
    requires steps[m] == UnblockLocal(r) && steps[n] == UnblockRemote(r)
    ensures Answers(run[n + 1], r)
       <==> exists k | m < k < n ::
              WrittenAt(run, steps, k, n + 1, r) && run[n + 1].now <= run[k].now + LRU_BLOCK_TTL
  {
    UnblockLeavesExactly(run, steps, n, r, r);
    if k :| 0 <= k <= n && WrittenAt(run, steps, k, n + 1, r) && run[n + 1].now <= run[k].now + LRU_BLOCK_TTL {
      assert Clears(steps[m], r) && m < k < n;
    }
  }

  /** A check by the unblocking replica between the two halves puts its marker back, and for the LRU's five
      seconds, if and only if the flag was up. */
  lemma SplitUnblockReseeds(s: Markers, r: nat)
    ensures var split := Next(Next(Next(s, UnblockLocal(r)), Check(r)), UnblockRemote(r));
            forall t | s.now <= t :: Answers(split.(now := t), r) <==> FlagUp(s) && t <= s.now + LRU_BLOCK_TTL
  {
  }

  /** The twenty seconds are reached: a check in the flag's last second keeps the marker for five more. */
  lemma StalenessIsTight(r: nat, r': nat)
    requires r != r'
    ensures exists run: seq<Markers>, steps: seq<Step> | IsRun(run, steps) ::
              && run[|steps|].lastBlock == Some(0) && run[|steps|].now == EVENT_BLOCKED_TTL + LRU_BLOCK_TTL
              && Answers(run[|steps|], r')
  {
    var s0 := Markers(0, map[], None, None, map[], {});
    var s1 := Markers(0, map[r := 5], None, Some(0), map[], {});
    var s2 := s1.(flag := Some(15));
    var s3 := s2.(now := 15);
    var s4 := s3.(lru := map[r := 5, r' := 20]);
    var s5 := s4.(now := 20);
    var run := [s0, s1, s2, s3, s4, s5];
    var steps := [BlockLocal(r), BlockRemote(r), Tick(15), Check(r'), Tick(20)];
    assert s1 == Next(s0, BlockLocal(r));
    assert s4 == Next(s3, Check(r')) by { assert s3.lru[r' := 20] == s4.lru; }
    assert IsRun(run, steps);
    assert Answers(run[|steps|], r');
  }
}
