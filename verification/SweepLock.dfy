/** The sweep's Redis lock under any interleaving of replicas. A replica computes its remaining time before
    its SETNX runs, stops sweeping at its context's deadline, and may release long after. */
module SweepLock {
  import opened Common
  import opened ReservationCaches

  datatype Replica =
    | Asking(token: nat, remaining: int, deadline: int)
    | Sweeping(token: nat, deadline: int)

  // used is every token ever drawn: a UUID is never drawn twice.
  datatype State = State(now: int, lock: Option<Lock>, replicas: map<nat, Replica>, used: set<nat>)

  datatype Action =
    | Tick(to: int)
    | Ask(r: nat, token: nat, deadline: int)
    | Acquire(r: nat)
    | Release(r: nat)

  predicate Enabled(s: State, a: Action) {
    match a
    case Tick(to) => s.now <= to
    case Ask(r, token, deadline) => r !in s.replicas && token !in s.used && s.now < deadline
    case Acquire(r) => r in s.replicas && s.replicas[r].Asking?
    case Release(r) => r in s.replicas && s.replicas[r].Sweeping?
  }

  function Next(s: State, a: Action): State
    requires Enabled(s, a)
  {
    match a
    case Tick(to) => s.(now := to)
    case Ask(r, token, deadline) =>
      s.(replicas := s.replicas[r := Asking(token, deadline - s.now, deadline)], used := s.used + {token})
    case Acquire(r) =>
      var x := s.replicas[r];
      var (lock, ok) := SetNX(s.lock, s.now, x.token, x.remaining);
      s.(lock := lock, replicas := if ok then s.replicas[r := Sweeping(x.token, x.deadline)] else s.replicas - {r})
    case Release(r) =>
      s.(lock := Unlock(s.lock, s.now, s.replicas[r].token), replicas := s.replicas - {r})
  }

  ghost predicate Init(s: State) {
    s.lock.None? && s.replicas == map[] && s.used == {}
  }

  ghost predicate IsRun(run: seq<State>, acts: seq<Action>) {
    && |run| == |acts| + 1 && Init(run[0])
    && forall i | 0 <= i < |acts| :: Enabled(run[i], acts[i]) && run[i + 1] == Next(run[i], acts[i])
  }

  /** Work in a sweep stops at the context's deadline. */
  predicate Working(s: State, r: nat) {
    r in s.replicas && s.replicas[r].Sweeping? && s.now <= s.replicas[r].deadline
  }

  ghost predicate Guarded(s: State) {
    && (s.lock.Some? ==> s.lock.value.token in s.used)
    && (forall r | r in s.replicas :: s.replicas[r].token in s.used)
    && (forall r, r' | r in s.replicas && r' in s.replicas && s.replicas[r].token == s.replicas[r'].token :: r == r')
    && (forall r | r in s.replicas && s.replicas[r].Asking? ::
          s.replicas[r].deadline <= s.now + s.replicas[r].remaining
          && (s.lock.Some? ==> s.lock.value.token != s.replicas[r].token))
    && (forall r | r in s.replicas && s.replicas[r].Sweeping? && s.now <= s.replicas[r].deadline + MARGIN_TTL ::
          s.lock.Some? && s.lock.value.token == s.replicas[r].token
          && s.replicas[r].deadline + MARGIN_TTL <= s.lock.value.expiry)
  }

  lemma GuardedKept(s: State, a: Action)
    requires Guarded(s) && Enabled(s, a)
    ensures Guarded(Next(s, a))
  {
  }

  lemma {:induction false} GuardedHolds(run: seq<State>, acts: seq<Action>, n: nat)
    requires IsRun(run, acts) && n < |run|
    ensures Guarded(run[n])
  {
    if n > 0 {
      GuardedHolds(run, acts, n - 1);
      assert Enabled(run[n - 1], acts[n - 1]) && run[n] == Next(run[n - 1], acts[n - 1]);
      GuardedKept(run[n - 1], acts[n - 1]);
    }
  }

  /** At most one replica is ever sweeping, and nobody else can get the lock until five seconds after its
      deadline. */
  lemma MutualExclusion(run: seq<State>, acts: seq<Action>, n: nat, r: nat, r': nat)
    requires IsRun(run, acts) && n < |run| && Working(run[n], r)
    ensures Working(run[n], r') ==> r' == r
    ensures forall t | run[n].now <= t <= run[n].replicas[r].deadline + 5 :: !LockFree(run[n].lock, t)
  {
    GuardedHolds(run, acts, n);
  }

  /** A holder's own release frees the lock, and one of anybody else's never does. */
  lemma ReleaseFreesOwn(lock: Option<Lock>, now: int, token: nat)
    requires !LockFree(lock, now)
    ensures LockFree(Unlock(lock, now, token), now) <==> lock.value.token == token
  {
  }

  /** A late release with an old token leaves another holder's lock alone. */
  lemma LateReleaseHarmless(run: seq<State>, acts: seq<Action>, n: nat, r: nat, r': nat)
    requires IsRun(run, acts) && n < |run| && Working(run[n], r)
    requires r' != r && Enabled(run[n], Release(r'))
    ensures Next(run[n], Release(r')).lock == run[n].lock && Working(Next(run[n], Release(r')), r)
  {
    GuardedHolds(run, acts, n);
  }
}
