/** One event's queue under any interleaving of scripts, expiries, cap changes, Enqueue calls caught between
    any two of their steps, and promoters acting on sizes they read earlier. */
module VirtualQueueProtocol {
  import opened Common
  import opened VirtualQueueScripts

  // A promoter tick at one event: what it has read so far.
  datatype Promoter =
    | Listed
    | SawEmpty
    | Sized(queued: nat)
    | Counted(queued: nat, listed: nat)
    | Ready(free: nat)

  // An Enqueue call: past its whitelist check, then past its clock reading, then past its script with the SADD
  // still to come.
  datatype Joining =
    | Eligible(user: UserId)
    | Timed(user: UserId, at: int)
    | Scripted

  // joined is history that no step reads: the clock reading each user was last queued with.
  datatype World = World(
    q: Queue,
    tracked: bool,
    joining: map<nat, Joining>,
    promoters: map<nat, Promoter>,
    joined: map<UserId, int>)

  datatype Action =
    | Tick(to: int)
    | CheckUser(t: nat, user: UserId)
    | ReadTime(t: nat)
    | EnqueueUser(t: nat)
    | Track(t: nat)
    | DequeueUser(user: UserId)
    | PingUser(user: UserId)
    | ReleaseUser(user: UserId)
    | AdmitNext
    | SetCap(cap: nat)
    | ClearCap
    | List(p: nat)
    | ReadSize(p: nat)
    | Untrack(p: nat)
    | ReadWhitelist(p: nat)
    | ReadCap(p: nat)
    | Promote(p: nat)
    | GiveUp(p: nat)

  predicate Enabled(w: World, a: Action) {
    match a
    case Tick(to) => w.q.now <= to
    case CheckUser(t, u) => t !in w.joining && u !in w.q.whitelist
    case ReadTime(t) => t in w.joining && w.joining[t].Eligible?
    case EnqueueUser(t) => t in w.joining && w.joining[t].Timed?
    case Track(t) => t in w.joining && w.joining[t].Scripted?
    case SetCap(cap) => cap < TWO_64
    case List(p) => p !in w.promoters && w.tracked
    case ReadSize(p) => p in w.promoters && w.promoters[p].Listed?
    case Untrack(p) => p in w.promoters && w.promoters[p].SawEmpty?
    case ReadWhitelist(p) => p in w.promoters && w.promoters[p].Sized?
    case ReadCap(p) => p in w.promoters && w.promoters[p].Counted?
    case Promote(p) => p in w.promoters && w.promoters[p].Ready?
    case GiveUp(p) => p in w.promoters
    case _ => true
  }

  /** The promoter's clamp: the free slots it believes in, at most the queue size it read, or none. */
  function Clamp(cap: nat, listed: nat, queued: nat): nat {
    var free := Difference64(cap, listed);
    if free <= 0 then 0 else Min(free, queued)
  }

  function ApplyReadCap(c: Config, w: World, p: nat): World
    requires Enabled(w, ReadCap(p))
  {
    var free := Clamp(Cap(c, w.q), w.promoters[p].listed, w.promoters[p].queued);
    w.(promoters := if free == 0 then w.promoters - {p} else w.promoters[p := Ready(free)])
  }

  function ApplyEnqueue(c: Config, w: World, t: nat): World
    requires Enabled(w, EnqueueUser(t))
  {
    var x := w.joining[t];
    w.(q := Enqueue(c, w.q, x.at, x.user).0, joining := w.joining[t := Scripted],
       joined := if x.user in w.q.beats then w.joined else w.joined[x.user := x.at])
  }

  function Apply(c: Config, w: World, a: Action): World
    requires Enabled(w, a)
  {
    match a
    case Tick(to) => w.(q := Advance(w.q, to))
    case CheckUser(t, u) => w.(joining := w.joining[t := Eligible(u)])
    case ReadTime(t) => w.(joining := w.joining[t := Timed(w.joining[t].user, w.q.now)])
    case EnqueueUser(t) => ApplyEnqueue(c, w, t)
    case Track(t) => w.(tracked := true, joining := w.joining - {t})
    case DequeueUser(u) => w.(q := Dequeue(w.q, u).0)
    case PingUser(u) => w.(q := Ping(c, w.q, u).0)
    case ReleaseUser(u) => w.(q := Release(w.q, u))
    case AdmitNext => w.(q := TryWhitelist(c, w.q, 1).0)
    case SetCap(cap) => w.(q := w.q.(override := Some(cap)))
    case ClearCap => w.(q := w.q.(override := None))
    case List(p) => w.(promoters := w.promoters[p := Listed])
    case ReadSize(p) => w.(promoters := w.promoters[p := if w.q.entries == [] then SawEmpty else Sized(|w.q.entries|)])
    case Untrack(p) => w.(tracked := w.tracked && w.q.entries != [], promoters := w.promoters - {p})
    case ReadWhitelist(p) => w.(promoters := w.promoters[p := Counted(w.promoters[p].queued, |w.q.whitelist|)])
    case ReadCap(p) => ApplyReadCap(c, w, p)
    case Promote(p) => w.(q := TryWhitelist(c, w.q, w.promoters[p].free).0, promoters := w.promoters - {p})
    case GiveUp(p) => w.(promoters := w.promoters - {p})
  }

  /** The users a step admits. */
  function AdmittedBy(c: Config, w: World, a: Action): seq<UserId>
    requires Enabled(w, a)
  {
    match a
    case AdmitNext => TryWhitelist(c, w.q, 1).1
    case Promote(p) => TryWhitelist(c, w.q, w.promoters[p].free).1
    case _ => []
  }

  /** A user is admitted by a step exactly if an admission takes it out of the queue alive. */
  lemma AdmittedByExactly(c: Config, w: World, a: Action, u: UserId)
    requires ValidConfig(c) && WellFormed(w.q) && Enabled(w, a)
    ensures u in AdmittedBy(c, w, a) <==>
              (a.AdmitNext? || a.Promote?) && u in Users(w.q.entries) && u in w.q.beats
              && u !in Users(Apply(c, w, a).q.entries)
    ensures u in Apply(c, w, a).q.whitelist ==> u in w.q.whitelist || u in AdmittedBy(c, w, a)
    ensures u in AdmittedBy(c, w, a) ==> u in Apply(c, w, a).q.whitelist
  {
    match a
    case AdmitNext => AdmittedExactly(c, w.q, 1, u);
    case Promote(p) => AdmittedExactly(c, w.q, w.promoters[p].free, u);
    case _ => StepOnQueue(c, w, a);
  }

  lemma AdmittedExactly(c: Config, q: Queue, desired: nat, u: UserId)
    requires ValidConfig(c) && WellFormed(q)
    ensures var (q', chosen) := TryWhitelist(c, q, desired);
            && (u in chosen <==> u in Users(q.entries) && u in q.beats && u !in Users(q'.entries))
            && (u in q'.whitelist <==> u in q.whitelist || u in chosen)
  {
    AdmissionTakes(c, q, desired);
    var n := Inspected(q.entries, q.beats, Quota(c, q, desired));
    PrefixAndRest(q.entries, n, u);
  }

  lemma PrefixAndRest(es: seq<Entry>, n: nat, u: UserId)
    requires Distinct(es) && n <= |es|
    ensures u in Users(es[..n]) <==> u in Users(es) && u !in Users(es[n..])
  {
    assert es == es[..n] + es[n..];
    if u in Users(es[..n]) {
      var i :| 0 <= i < n && es[..n][i].user == u;
      assert es[i].user == u && forall j | n <= j < |es| :: es[j].user != u;
      assert forall x | x in es[n..] :: exists j :: n <= j < |es| && es[j] == x;
    }
  }

  /** joined records the clock reading of the script that last queued the user. */
  lemma JoinedExactly(c: Config, w: World, a: Action, u: UserId)
    requires Enabled(w, a)
    ensures var joins := a.EnqueueUser? && w.joining[a.t].user == u && u !in w.q.beats;
            var joined' := Apply(c, w, a).joined;
            && (u in joined' <==> u in w.joined || joins)
            && (u in joined' ==> joined'[u] == if joins then w.joining[a.t].at else w.joined[u])
  {
  }

  ghost predicate Init(w: World) {
    w.q.entries == [] && w.q.beats == map[] && w.q.whitelist == map[] && w.q.override.None?
    && !w.tracked && w.joining == map[] && w.promoters == map[] && w.joined == map[]
  }

  ghost predicate StepAt(c: Config, run: seq<World>, acts: seq<Action>, i: nat)
    requires |run| == |acts| + 1 && i < |acts|
  {
    Enabled(run[i], acts[i]) && run[i + 1] == Apply(c, run[i], acts[i])
  }

  ghost predicate IsRun(c: Config, run: seq<World>, acts: seq<Action>) {
    && ValidConfig(c) && |run| == |acts| + 1 && Init(run[0])
    && forall i | 0 <= i < |acts| :: StepAt(c, run, acts, i)
  }

  lemma QueueRunStep(c: Config, run: seq<World>, acts: seq<Action>, n: nat)
    requires IsRun(c, run, acts) && 0 < n < |run|
    ensures Enabled(run[n - 1], acts[n - 1]) && run[n] == Apply(c, run[n - 1], acts[n - 1])
    ensures WellFormed(run[n - 1].q) && WellFormed(run[n].q)
  {
    RunWellFormed(c, run, acts, n - 1);
    RunWellFormed(c, run, acts, n);
    assert StepAt(c, run, acts, n - 1);
  }

  ghost predicate Reachable(c: Config, w: World) {
    exists run, acts :: IsRun(c, run, acts) && run[|run| - 1] == w
  }

  // ---- what each step does to the queue ----

  /** Every step either admits with some desired count or is one of the other scripts. */
  lemma StepOnQueue(c: Config, w: World, a: Action)
    requires ValidConfig(c) && WellFormed(w.q) && Enabled(w, a)
    ensures var q, q' := w.q, Apply(c, w, a).q;
            || (a.Tick? && q' == Advance(q, a.to))
            || (a.EnqueueUser? && q' == Enqueue(c, q, w.joining[a.t].at, w.joining[a.t].user).0)
            || (a.DequeueUser? && q' == Dequeue(q, a.user).0)
            || (a.PingUser? && q' == Ping(c, q, a.user).0)
            || (a.ReleaseUser? && q' == Release(q, a.user))
            || (a.AdmitNext? && q' == TryWhitelist(c, q, 1).0)
            || (a.Promote? && q' == TryWhitelist(c, q, w.promoters[a.p].free).0)
            || ((a.SetCap? || a.ClearCap?) && q' == q.(override := q'.override)
                && (q'.override.Some? ==> q'.override.value < TWO_64))
            || q' == q
  {
  }

  lemma WellFormedKept(c: Config, w: World, a: Action)
    requires ValidConfig(c) && WellFormed(w.q) && Enabled(w, a)
    ensures WellFormed(Apply(c, w, a).q)
  {
    StepOnQueue(c, w, a);
    match a
    case EnqueueUser(t) => EnqueueKeeps(c, w.q, w.joining[t].at, w.joining[t].user);
    case DequeueUser(u) => DequeueDoes(w.q, u);
    case AdmitNext => TryWhitelistDoes(c, w.q, 1);
    case Promote(p) => TryWhitelistDoes(c, w.q, w.promoters[p].free);
    case _ =>
  }

  /** Every script keeps the sorted set in order and without repeats, and every TTL in the future. */
  lemma {:induction false} RunWellFormed(c: Config, run: seq<World>, acts: seq<Action>, n: nat)
    requires IsRun(c, run, acts) && n < |run|
    ensures WellFormed(run[n].q)
  {
    if n > 0 {
      RunWellFormed(c, run, acts, n - 1);
      assert StepAt(c, run, acts, n - 1);
      WellFormedKept(c, run[n - 1], acts[n - 1]);
    }
  }

  lemma SubsetSize(a: set<UserId>, b: set<UserId>)
    requires a <= b
    ensures |a| <= |b|
  {
    if a != {} {
      var x :| x in a;
      SubsetSize(a - {x}, b - {x});
    }
  }

  // ---- gate ----

  lemma ChosenCount(q: Queue, k: nat)
    ensures |Chosen(q, k)| == Min(k, |Live(q.entries, q.beats)|)
  {
    ChosenAreFirst(q.entries, q.beats, k);
  }

  lemma AdmissionGrants(c: Config, q: Queue, desired: nat)
    ensures TryWhitelist(c, q, desired).0.whitelist ==
            Grant(q.whitelist, Chosen(q, Quota(c, q, desired)), q.now + c.whitelistTTL)
    ensures Quota(c, q, desired) == 0 || |q.whitelist| + Quota(c, q, desired) <= Cap(c, q)
  {
  }

  /** An admission never takes the whitelist past the cap it read, whoever it admits. */
  lemma TryWhitelistGate(c: Config, q: Queue, desired: nat)
    ensures var q' := TryWhitelist(c, q, desired).0;
            |q.whitelist| <= |q'.whitelist| && (|q'.whitelist| <= |q.whitelist| || |q'.whitelist| <= Cap(c, q))
  {
    var k := Quota(c, q, desired);
    ChosenCount(q, k);
    AdmissionGrants(c, q, desired);
    GrantSize(q.whitelist, Chosen(q, k), q.now + c.whitelistTTL);
  }

  /** No step grows the whitelist while it is at or above the cap, or takes it past the cap. */
  lemma GateStep(c: Config, w: World, a: Action)
    requires ValidConfig(c) && WellFormed(w.q) && Enabled(w, a)
    ensures var w' := Apply(c, w, a);
            |w'.q.whitelist| <= |w.q.whitelist| || |w'.q.whitelist| <= Cap(c, w.q)
  {
    StepOnQueue(c, w, a);
    match a
    case Tick(to) => SubsetSize(Advance(w.q, to).whitelist.Keys, w.q.whitelist.Keys);
    case DequeueUser(u) => SubsetSize(Dequeue(w.q, u).0.whitelist.Keys, w.q.whitelist.Keys);
    case ReleaseUser(u) => SubsetSize(Release(w.q, u).whitelist.Keys, w.q.whitelist.Keys);
    case AdmitNext => TryWhitelistGate(c, w.q, 1);
    case Promote(p) => TryWhitelistGate(c, w.q, w.promoters[p].free);
    case _ =>
  }

  /** From any point of a run on, however stale the promoters' reads, the whitelist stays within the larger of
      its size there and the largest cap since. From the empty start, that is the cap. */
  lemma {:induction false} GateBound(c: Config, run: seq<World>, acts: seq<Action>, m: nat, n: nat, cap: nat)
    requires IsRun(c, run, acts) && m <= n < |run|
    requires forall i | m <= i < n :: Cap(c, run[i].q) <= cap
    ensures |run[n].q.whitelist| <= |run[m].q.whitelist| || |run[n].q.whitelist| <= cap
    ensures m == 0 ==> |run[n].q.whitelist| <= cap
  {
    if m < n {
      GateBound(c, run, acts, m, n - 1, cap);
      QueueRunStep(c, run, acts, n);
      GateStep(c, run[n - 1], acts[n - 1]);
      assert Cap(c, run[n - 1].q) <= cap;
    }
  }

  // ---- no lost event ----

  /** Some Enqueue sits between its script and its SADD. */
  ghost predicate OnItsWay(w: World) {
    exists t :: t in w.joining && w.joining[t].Scripted?
  }

  ghost predicate NotLost(w: World) {
    w.q.entries != [] ==> w.tracked || OnItsWay(w)
  }

  lemma AdmissionShortens(c: Config, q: Queue, desired: nat)
    ensures q.entries == [] ==> TryWhitelist(c, q, desired).0.entries == []
  {
  }

  lemma OnItsWayKept(c: Config, w: World, a: Action)
    requires Enabled(w, a) && OnItsWay(w)
    ensures OnItsWay(Apply(c, w, a)) || a.Track?
  {
    var t :| t in w.joining && w.joining[t].Scripted?;
    if !a.Track? { assert t in Apply(c, w, a).joining && Apply(c, w, a).joining[t].Scripted?; }
  }

  lemma NotLostKept(c: Config, w: World, a: Action)
    requires ValidConfig(c) && WellFormed(w.q) && Enabled(w, a) && NotLost(w)
    ensures NotLost(Apply(c, w, a))
  {
    if OnItsWay(w) { OnItsWayKept(c, w, a); }
    StepOnQueue(c, w, a);
    match a
    case DequeueUser(u) => WithoutMembers(w.q.entries, u);
    case EnqueueUser(t) => assert Apply(c, w, a).joining[t].Scripted?;
    case _ =>
  }

  /** A non-empty queue is always in active_events, or some Enqueue is still on its way to add it. */
  lemma {:induction false} NoLostEvent(c: Config, run: seq<World>, acts: seq<Action>, n: nat)
    requires IsRun(c, run, acts) && n < |run|
    ensures run[n].q.entries != [] ==> run[n].tracked || OnItsWay(run[n])
  {
    if n > 0 {
      NoLostEvent(c, run, acts, n - 1);
      QueueRunStep(c, run, acts, n);
      NotLostKept(c, run[n - 1], acts[n - 1]);
    }
  }

  // ---- heartbeats and queue agree ----

  ghost predicate Evident(c: Config, w: World, u: UserId) {
    u in w.joined && (Entry(w.joined[u] + c.queueTTL, u) in w.q.entries || w.joined[u] + c.queueTTL <= w.q.now)
  }

  ghost predicate BeatsEvident(c: Config, w: World) {
    && (forall u | u in w.q.beats :: Evident(c, w, u))
    && (forall x | x in w.q.entries :: x.score <= w.q.now + c.queueTTL)
    && (forall t | t in w.joining && w.joining[t].Timed? :: w.joining[t].at <= w.q.now)
  }

  lemma AdmittedTakes(c: Config, q: Queue, chosen: seq<UserId>, n: nat)
    requires n <= |q.entries| && chosen == Live(q.entries[..n], q.beats)
    ensures var q' := Admitted(c, q, chosen, n);
            && q'.entries == q.entries[n..]
            && (forall u :: u in chosen <==> u in Users(q.entries[..n]) && u in q.beats)
            && (forall u :: u in q'.beats <==> u in q.beats && u !in Users(q.entries[..n]))
            && (forall u :: u in q'.whitelist <==> u in q.whitelist || u in chosen)
  {
    var beats, whitelist := Revoke(q.beats, chosen), Grant(q.whitelist, chosen, q.now + c.whitelistTTL);
    LiveAre(q.entries[..n], q.beats);
    assert forall u :: u in beats <==> u in q.beats && u !in chosen by { RevokeDoes(q.beats, chosen); }
    assert forall u :: u in whitelist <==> u in q.whitelist || u in chosen by {
      GrantDoes(q.whitelist, chosen, q.now + c.whitelistTTL);
    }
  }

  /** An admission takes out a prefix, and whoever in it has a heartbeat. */
  lemma AdmissionTakes(c: Config, q: Queue, desired: nat)
    requires ValidConfig(c) && WellFormed(q)
    ensures var (q', chosen) := TryWhitelist(c, q, desired);
            var n := Inspected(q.entries, q.beats, Quota(c, q, desired));
            && q'.entries == q.entries[n..]
            && (forall u :: u in chosen <==> u in Users(q.entries[..n]) && u in q.beats)
            && (forall u :: u in q'.beats <==> u in q.beats && u !in Users(q.entries[..n]))
            && (forall u :: u in q'.whitelist <==> u in q.whitelist || u in chosen)
  {
    var k := Quota(c, q, desired);
    AdmittedTakes(c, q, Chosen(q, k), Inspected(q.entries, q.beats, k));
  }

  lemma AdmittedUntil(c: Config, q: Queue, desired: nat, u: UserId)
    requires u in TryWhitelist(c, q, desired).1
    ensures var q' := TryWhitelist(c, q, desired).0;
            q'.now == q.now && u in q'.whitelist && q'.whitelist[u] == q.now + c.whitelistTTL
  {
    GrantDoes(q.whitelist, Chosen(q, Quota(c, q, desired)), q.now + c.whitelistTTL);
  }

  lemma AdmittedLeavesQueue(c: Config, q: Queue, desired: nat, u: UserId)
    requires ValidConfig(c) && WellFormed(q) && u in TryWhitelist(c, q, desired).1
    ensures u !in TryWhitelist(c, q, desired).0.beats && u !in Users(TryWhitelist(c, q, desired).0.entries)
  {
    AdmissionTakes(c, q, desired);
    var n := Inspected(q.entries, q.beats, Quota(c, q, desired));
    var i :| 0 <= i < n && q.entries[..n][i].user == u;
    assert q.entries[i].user == u;
  }

  /** Whoever is admitted is told so by the next ping, holds the slot for the whole whitelist time, and can
      enqueue again only as a newcomer. */
  lemma AdmittedHoldsSlot(c: Config, q: Queue, desired: nat, u: UserId, to: int)
    requires ValidConfig(c) && WellFormed(q) && u in TryWhitelist(c, q, desired).1 && q.now <= to
    ensures var q' := TryWhitelist(c, q, desired).0;
            && Ping(c, q', u) == (q', c.whitelistTTL)
            && (u in Advance(q', to).whitelist <==> to < q.now + c.whitelistTTL)
            && u !in q'.beats && u !in Users(q'.entries)
  {
    AdmittedUntil(c, q, desired, u);
    AdmittedLeavesQueue(c, q, desired, u);
  }

  // One user's evidence survives a step that keeps its entry, if not yet lapsed, and does not turn time back.
  lemma EvidenceCarries(c: Config, w: World, w': World, u: UserId)
    requires Evident(c, w, u) && w.q.now <= w'.q.now
    requires u in w'.joined && w'.joined[u] == w.joined[u]
    requires forall x | x in w.q.entries && x.user == u && w'.q.now < x.score :: x in w'.q.entries
    ensures Evident(c, w', u)
  {
  }

  lemma AdmissionKeepsOthers(c: Config, q: Queue, desired: nat, x: Entry)
    requires ValidConfig(c) && WellFormed(q) && x in q.entries
    requires x.user in TryWhitelist(c, q, desired).0.beats
    ensures x in TryWhitelist(c, q, desired).0.entries
  {
    AdmissionTakes(c, q, desired);
    var n := Inspected(q.entries, q.beats, Quota(c, q, desired));
    assert x !in q.entries[..n] by { assert x.user !in Users(q.entries[..n]); }
    assert q.entries == q.entries[..n] + q.entries[n..];
  }

  lemma BeatsFrom(c: Config, w: World, a: Action, u: UserId)
    requires ValidConfig(c) && WellFormed(w.q) && Enabled(w, a) && u in Apply(c, w, a).q.beats
    ensures u in w.q.beats || (a.EnqueueUser? && w.joining[a.t].user == u)
  {
    StepOnQueue(c, w, a);
    match a
    case AdmitNext => AdmissionTakes(c, w.q, 1);
    case Promote(p) => AdmissionTakes(c, w.q, w.promoters[p].free);
    case _ =>
  }

  lemma EntryStays(c: Config, w: World, a: Action, x: Entry)
    requires ValidConfig(c) && WellFormed(w.q) && Enabled(w, a)
    requires x in w.q.entries && x.user in w.q.beats && x.user in Apply(c, w, a).q.beats
             && Apply(c, w, a).q.now < x.score
    requires a.EnqueueUser? ==> w.joining[a.t].at <= w.q.now
    ensures x in Apply(c, w, a).q.entries
  {
    StepOnQueue(c, w, a);
    match a
    case EnqueueUser(t) => EnqueueDoes(c, w.q, w.joining[t].at, w.joining[t].user);
    case DequeueUser(u) => DequeueDoes(w.q, u);
    case AdmitNext => AdmissionKeepsOthers(c, w.q, 1, x);
    case Promote(p) => AdmissionKeepsOthers(c, w.q, w.promoters[p].free, x);
    case _ =>
  }

  lemma TimeAndJoins(c: Config, w: World, a: Action, u: UserId)
    requires ValidConfig(c) && WellFormed(w.q) && Enabled(w, a)
    ensures w.q.now <= Apply(c, w, a).q.now
    ensures u in w.q.beats && u in w.joined ==> u in Apply(c, w, a).joined && Apply(c, w, a).joined[u] == w.joined[u]
  {
    StepOnQueue(c, w, a);
  }

  lemma EvidentKept(c: Config, w: World, a: Action)
    requires ValidConfig(c) && WellFormed(w.q) && Enabled(w, a) && BeatsEvident(c, w)
    ensures BeatsEvident(c, Apply(c, w, a))
  {
    var w' := Apply(c, w, a);
    forall u | u in w'.q.beats ensures Evident(c, w', u) {
      TimeAndJoins(c, w, a, u);
      BeatsFrom(c, w, a, u);
      if u in w.q.beats {
        forall x | x in w.q.entries && x.user == u && w'.q.now < x.score ensures x in w'.q.entries {
          EntryStays(c, w, a, x);
        }
        EvidenceCarries(c, w, w', u);
      } else {
        EnqueueDoes(c, w.q, w.joining[a.t].at, u);
      }
    }
    forall x | x in w'.q.entries ensures x.score <= w'.q.now + c.queueTTL {
      TimeAndJoins(c, w, a, x.user);
      EntriesFrom(c, w, a, x);
    }
  }

  /** Nobody without a heartbeat is ever admitted. */
  lemma AdmittedAreAlive(c: Config, w: World, a: Action)
    requires ValidConfig(c) && WellFormed(w.q) && Enabled(w, a)
    ensures forall u | u in AdmittedBy(c, w, a) :: u in w.q.beats
  {
    match a
    case AdmitNext => AdmissionTakes(c, w.q, 1);
    case Promote(p) => AdmissionTakes(c, w.q, w.promoters[p].free);
    case _ =>
  }

  lemma EvidentRunStep(c: Config, run: seq<World>, acts: seq<Action>, n: nat)
    requires IsRun(c, run, acts) && 0 < n < |run| && BeatsEvident(c, run[n - 1])
    ensures BeatsEvident(c, run[n])
  {
    QueueRunStep(c, run, acts, n);
    EvidentKept(c, run[n - 1], acts[n - 1]);
  }

  /** In every state a user with a live heartbeat is queued under the score of the enqueue that started it, or
      that score has lapsed. */
  lemma {:induction false} HeartbeatsAreEvidence(c: Config, run: seq<World>, acts: seq<Action>, n: nat)
    requires IsRun(c, run, acts) && n < |run|
    ensures BeatsEvident(c, run[n])
  {
    if n > 0 {
      HeartbeatsAreEvidence(c, run, acts, n - 1);
      EvidentRunStep(c, run, acts, n);
    }
  }

  // ---- no overtaking ----

  /** Whoever is admitted past a queued user with a heartbeat takes that user along. */
  lemma AdmissionInOrder(c: Config, q: Queue, desired: nat, x: Entry, y: Entry)
    requires ValidConfig(c) && WellFormed(q)
    requires x in q.entries && y in q.entries && Before(x, y)
    requires y.user in TryWhitelist(c, q, desired).1
    ensures x !in TryWhitelist(c, q, desired).0.entries
  {
    AdmissionTakes(c, q, desired);
    var n := Inspected(q.entries, q.beats, Quota(c, q, desired));
    var i :| 0 <= i < |q.entries| && q.entries[i] == x;
    var j :| 0 <= j < n && q.entries[..n][j].user == y.user;
    var j' :| 0 <= j' < |q.entries| && q.entries[j'] == y;
    assert j == j';
    if j < i { assert false; }
    forall k | n <= k < |q.entries| ensures q.entries[k] != x {
      assert q.entries[i].user != q.entries[k].user;
    }
  }

  lemma StepInOrder(c: Config, w: World, a: Action, x: Entry, y: Entry)
    requires ValidConfig(c) && WellFormed(w.q) && Enabled(w, a)
    requires x in w.q.entries && y in w.q.entries && Before(x, y)
    requires y.user in AdmittedBy(c, w, a)
    ensures x !in Apply(c, w, a).q.entries
  {
    match a
    case AdmitNext => AdmissionInOrder(c, w.q, 1, x, y);
    case Promote(p) => AdmissionInOrder(c, w.q, w.promoters[p].free, x, y);
    case _ =>
  }

  ghost function Ahead(es: seq<Entry>, score: int): set<Entry> {
    set x | x in es && x.score < score
  }

  /** Only an enqueue brings an entry in, and it goes in at the call's clock reading + QueueTTL. */
  lemma EntriesFrom(c: Config, w: World, a: Action, x: Entry)
    requires ValidConfig(c) && WellFormed(w.q) && Enabled(w, a) && x in Apply(c, w, a).q.entries
    ensures x in w.q.entries ||
            (a.EnqueueUser? && w.joining[a.t] == Timed(x.user, x.score - c.queueTTL) && x.user !in w.q.beats)
  {
    StepOnQueue(c, w, a);
    match a
    case EnqueueUser(t) => EnqueueDoes(c, w.q, w.joining[t].at, w.joining[t].user);
    case DequeueUser(u) => DequeueDoes(w.q, u);
    case AdmitNext => AdmissionTakes(c, w.q, 1);
    case Promote(p) => AdmissionTakes(c, w.q, w.promoters[p].free);
    case _ =>
  }

  /** The entries that calls which have read the clock, but not yet run their script, will put ahead of score. */
  ghost function InFlight(c: Config, w: World, score: int): set<Entry> {
    set t | t in w.joining && w.joining[t].Timed? && w.joining[t].at + c.queueTTL < score ::
      Entry(w.joining[t].at + c.queueTTL, w.joining[t].user)
  }

  /** The only step that puts somebody new ahead of score: the script of a newcomer whose clock reading is old. */
  predicate Overtakes(c: Config, w: World, a: Action, score: int)
    requires Enabled(w, a)
  {
    a.EnqueueUser? &&
      var j := w.joining[a.t];
      j.at + c.queueTTL < score && j.user !in w.q.beats && Entry(j.at + c.queueTTL, j.user) !in w.q.entries
  }

  lemma AheadGrowsExactly(c: Config, w: World, a: Action, score: int)
    requires ValidConfig(c) && WellFormed(w.q) && Enabled(w, a)
    ensures Ahead(Apply(c, w, a).q.entries, score) <= Ahead(w.q.entries, score) <==> !Overtakes(c, w, a, score)
  {
    if Overtakes(c, w, a, score) {
      var j := w.joining[a.t];
      EnqueueDoes(c, w.q, j.at, j.user);
      assert Entry(j.at + c.queueTTL, j.user) in Ahead(Apply(c, w, a).q.entries, score);
    } else {
      forall x | x in Ahead(Apply(c, w, a).q.entries, score) ensures x in Ahead(w.q.entries, score) {
        EntriesFrom(c, w, a, x);
      }
    }
  }

  lemma AheadFrom(c: Config, w: World, a: Action, score: int)
    requires ValidConfig(c) && WellFormed(w.q) && Enabled(w, a)
    ensures Ahead(Apply(c, w, a).q.entries, score) <= Ahead(w.q.entries, score) + InFlight(c, w, score)
  {
    forall x | x in Ahead(Apply(c, w, a).q.entries, score)
      ensures x in Ahead(w.q.entries, score) + InFlight(c, w, score)
    {
      EntriesFrom(c, w, a, x);
    }
  }

  lemma TimedFrom(c: Config, w: World, a: Action, t: nat)
    requires Enabled(w, a) && t in Apply(c, w, a).joining && Apply(c, w, a).joining[t].Timed?
    ensures t in w.joining
    ensures Apply(c, w, a).joining[t] == w.joining[t] || Apply(c, w, a).joining[t].at == w.q.now
  {
  }

  /** A clock reading taken from now on is too late to put anybody ahead of a score already given out. */
  lemma InFlightShrinks(c: Config, w: World, a: Action, score: int)
    requires Enabled(w, a) && score <= w.q.now + c.queueTTL
    ensures InFlight(c, Apply(c, w, a), score) <= InFlight(c, w, score)
  {
    var after := Apply(c, w, a).joining;
    forall t | t in after && after[t].Timed? && after[t].at + c.queueTTL < score
      ensures Entry(after[t].at + c.queueTTL, after[t].user) in InFlight(c, w, score)
    {
      TimedFrom(c, w, a, t);
    }
  }

  /** While a queued user keeps a live heartbeat its entry stays as it is. */
  lemma EntryFixed(c: Config, w: World, a: Action, x: Entry)
    requires ValidConfig(c) && WellFormed(w.q) && Enabled(w, a) && x in w.q.entries && x.user in w.q.beats
    requires x.user in Users(Apply(c, w, a).q.entries)
    ensures x in Apply(c, w, a).q.entries
  {
    var y :| y in Apply(c, w, a).q.entries && y.user == x.user;
    EntriesFrom(c, w, a, y);
    var i :| 0 <= i < |w.q.entries| && w.q.entries[i] == x;
    var j :| 0 <= j < |w.q.entries| && w.q.entries[j] == y;
    assert i == j;
  }

  lemma WaitStep(c: Config, run: seq<World>, acts: seq<Action>, n: nat, x: Entry, score: int)
    requires IsRun(c, run, acts) && 0 < n < |run|
    requires x in run[n - 1].q.entries && x.user in run[n - 1].q.beats && x.user in Users(run[n].q.entries)
    requires score <= run[n - 1].q.now + c.queueTTL
    ensures x in run[n].q.entries && run[n - 1].q.now <= run[n].q.now
    ensures Ahead(run[n].q.entries, score) <= Ahead(run[n - 1].q.entries, score) + InFlight(c, run[n - 1], score)
    ensures InFlight(c, run[n], score) <= InFlight(c, run[n - 1], score)
  {
    QueueRunStep(c, run, acts, n);
    EntryFixed(c, run[n - 1], acts[n - 1], x);
    TimeAndJoins(c, run[n - 1], acts[n - 1], x.user);
    AheadFrom(c, run[n - 1], acts[n - 1], score);
    InFlightShrinks(c, run[n - 1], acts[n - 1], score);
  }

  ghost predicate WaitsAt(w: World, u: UserId) {
    u in Users(w.q.entries) && u in w.q.beats
  }

  ghost predicate Waits(run: seq<World>, m: nat, n: nat, u: UserId)
    requires n < |run|
  {
    forall i | m <= i <= n :: WaitsAt(run[i], u)
  }

  lemma ScoreBound(c: Config, run: seq<World>, acts: seq<Action>, m: nat, x: Entry)
    requires IsRun(c, run, acts) && m < |run| && x in run[m].q.entries
    ensures x.score <= run[m].q.now + c.queueTTL
  {
    HeartbeatsAreEvidence(c, run, acts, m);
  }

  /** While a user stays queued with a live heartbeat its entry never changes, and whoever has a smaller score
      had it when the wait began, or had read the clock for it by then. */
  lemma {:induction false} PlaceKept(c: Config, run: seq<World>, acts: seq<Action>, m: nat, n: nat, x: Entry)
    requires IsRun(c, run, acts) && m <= n < |run|
    requires x in run[m].q.entries && Waits(run, m, n, x.user)
    ensures x in run[n].q.entries && run[m].q.now <= run[n].q.now
    ensures Ahead(run[n].q.entries, x.score) <= Ahead(run[m].q.entries, x.score) + InFlight(c, run[m], x.score)
    ensures InFlight(c, run[n], x.score) <= InFlight(c, run[m], x.score)
  {
    if m < n {
      PlaceKept(c, run, acts, m, n - 1, x);
      ScoreBound(c, run, acts, m, x);
      assert WaitsAt(run[n - 1], x.user) && WaitsAt(run[n], x.user);
      WaitStep(c, run, acts, n, x, x.score);
    }
  }

  /** Nobody with a larger key is admitted before the step that takes the waiting user out. Whoever is admitted
      meanwhile was there with a smaller score when the wait began, or had read the clock for one by then, or has
      the same score and a smaller id. */
  lemma NoOvertaking(c: Config, run: seq<World>, acts: seq<Action>, m: nat, n: nat, x: Entry, y: Entry)
    requires IsRun(c, run, acts) && m <= n < |acts|
    requires x in run[m].q.entries && Waits(run, m, n + 1, x.user)
    requires y in run[n].q.entries && Enabled(run[n], acts[n]) && y.user in AdmittedBy(c, run[n], acts[n])
    ensures !Before(x, y)
    ensures || y == x || (y.score == x.score && y.user < x.user)
            || y in Ahead(run[m].q.entries, x.score) || y in InFlight(c, run[m], x.score)
  {
    PlaceKept(c, run, acts, m, n, x);
    QueueRunStep(c, run, acts, n + 1);
    assert WaitsAt(run[n], x.user) && WaitsAt(run[n + 1], x.user);
    EntryFixed(c, run[n], acts[n], x);
    if Before(x, y) { StepInOrder(c, run[n], acts[n], x, y); }
    assert y.score < x.score ==> y in Ahead(run[n].q.entries, x.score);
  }

  // ---- when somebody new can still get ahead ----

  ghost predicate Extends(c: Config, run': seq<World>, acts': seq<Action>, run: seq<World>) {
    IsRun(c, run', acts') && |run| <= |run'| && run'[..|run|] == run
  }

  lemma Extend(c: Config, run: seq<World>, acts: seq<Action>, a: Action)
    requires IsRun(c, run, acts) && Enabled(run[|acts|], a)
    ensures Extends(c, run + [Apply(c, run[|acts|], a)], acts + [a], run)
  {
    var run', acts' := run + [Apply(c, run[|acts|], a)], acts + [a];
    forall i | 0 <= i < |acts'| ensures StepAt(c, run', acts', i) {
      if i < |acts| { assert StepAt(c, run, acts, i); }
    }
  }

  /** After this longer run, x's user having waited since state m, somebody new is ahead of it. */
  ghost predicate Overtaken(c: Config, run': seq<World>, acts': seq<Action>, run: seq<World>, m: nat, x: Entry)
    requires m < |run|
  {
    && Extends(c, run', acts', run) && Waits(run', m, |run'| - 1, x.user)
    && !(Ahead(run'[|run'| - 1].q.entries, x.score) <= Ahead(run[m].q.entries, x.score))
  }

  lemma OvertakenByInFlight(c: Config, run: seq<World>, acts: seq<Action>,
                           run': seq<World>, acts': seq<Action>, x: Entry)
    requires IsRun(c, run, acts) && x in run[|acts|].q.entries && Overtaken(c, run', acts', run, |acts|, x)
    ensures exists y | y in InFlight(c, run[|acts|], x.score) :: y !in run[|acts|].q.entries && y.user != x.user
  {
    var m, n := |acts|, |run'| - 1;
    assert run'[m] == run'[..|run|][m] == run[m];
    PlaceKept(c, run', acts', m, n, x);
    var y :| y in Ahead(run'[n].q.entries, x.score) && y !in Ahead(run[m].q.entries, x.score);
    RunWellFormed(c, run', acts', n);
    var i :| 0 <= i < |run'[n].q.entries| && run'[n].q.entries[i] == x;
    var j :| 0 <= j < |run'[n].q.entries| && run'[n].q.entries[j] == y;
    assert i != j;
  }

  /** The call's own script does it, if its user has no heartbeat. */
  lemma OvertakeAtOnce(c: Config, run: seq<World>, acts: seq<Action>, m: nat, x: Entry, t: nat)
    requires IsRun(c, run, acts) && m <= |acts| && Waits(run, m, |acts|, x.user)
    requires x in run[m].q.entries && x in run[|acts|].q.entries
    requires Enabled(run[|acts|], EnqueueUser(t)) && Overtakes(c, run[|acts|], EnqueueUser(t), x.score)
    requires run[|acts|].joining[t].user != x.user
    requires Entry(run[|acts|].joining[t].at + c.queueTTL, run[|acts|].joining[t].user) !in run[m].q.entries
    ensures exists run', acts' :: Overtaken(c, run', acts', run, m, x)
  {
    var w, j := run[|acts|], run[|acts|].joining[t];
    var w' := Apply(c, w, EnqueueUser(t));
    Extend(c, run, acts, EnqueueUser(t));
    RunWellFormed(c, run, acts, |acts|);
    EnqueueDoes(c, w.q, j.at, j.user);
    assert x in w'.q.entries && x.user in w'.q.beats;
    assert WaitsAt(w, x.user) && WaitsAt(w', x.user);
    var run', acts' := run + [w'], acts + [EnqueueUser(t)];
    forall i | m <= i <= |run'| - 1 ensures WaitsAt(run'[i], x.user) {
      if i < |run| { assert WaitsAt(run[i], x.user); }
    }
    assert Entry(j.at + c.queueTTL, j.user) in Ahead(w'.q.entries, x.score);
    assert Overtaken(c, run', acts', run, m, x);
  }

  /** Otherwise that user's heartbeat has to go first. */
  lemma OvertakeLater(c: Config, run: seq<World>, acts: seq<Action>, x: Entry, t: nat)
    requires IsRun(c, run, acts) && x in run[|acts|].q.entries && x.user in run[|acts|].q.beats
    requires t in run[|acts|].joining && run[|acts|].joining[t].Timed?
    requires var j := run[|acts|].joining[t];
      && j.at + c.queueTTL < x.score && j.user != x.user && j.user in run[|acts|].q.beats
      && Entry(j.at + c.queueTTL, j.user) !in run[|acts|].q.entries
    ensures exists run', acts' :: Overtaken(c, run', acts', run, |acts|, x)
  {
    var m, w, j := |acts|, run[|acts|], run[|acts|].joining[t];
    var w1 := Apply(c, w, DequeueUser(j.user));
    RunWellFormed(c, run, acts, m);
    DequeueDoes(w.q, j.user);
    Extend(c, run, acts, DequeueUser(j.user));
    var run1, acts1 := run + [w1], acts + [DequeueUser(j.user)];
    assert x in w1.q.entries && x.user in w1.q.beats;
    assert WaitsAt(w, x.user) && WaitsAt(w1, x.user);
    OvertakeAtOnce(c, run1, acts1, m, x, t);
    var run', acts' :| Overtaken(c, run', acts', run1, m, x);
    assert run'[..|run|] == run1[..|run|] == run;
    assert Overtaken(c, run', acts', run, m, x);
  }

  /** A waiting user can still be overtaken by somebody new if and only if another user's call has read the
      clock early enough, has not run its script, and would bring in an entry that is not there. */
  lemma OvertakenExactly(c: Config, run: seq<World>, acts: seq<Action>, x: Entry)
    requires IsRun(c, run, acts) && x in run[|acts|].q.entries && x.user in run[|acts|].q.beats
    ensures (exists run', acts' :: Overtaken(c, run', acts', run, |acts|, x))
       <==> (exists y | y in InFlight(c, run[|acts|], x.score) :: y !in run[|acts|].q.entries && y.user != x.user)
  {
    var m, w := |acts|, run[|acts|];
    if run', acts' :| Overtaken(c, run', acts', run, m, x) {
      OvertakenByInFlight(c, run, acts, run', acts', x);
    }
    if y :| y in InFlight(c, w, x.score) && y !in w.q.entries && y.user != x.user {
      var t :| t in w.joining && w.joining[t].Timed? && w.joining[t].at + c.queueTTL < x.score
        && y == Entry(w.joining[t].at + c.queueTTL, w.joining[t].user);
      if y.user in w.q.beats {
        OvertakeLater(c, run, acts, x, t);
      } else {
        assert WaitsAt(w, x.user);
        OvertakeAtOnce(c, run, acts, m, x, t);
      }
    }
  }

  // ---- queued and admitted at once ----

  ghost predicate Apart(q: Queue) {
    forall u | u in q.beats :: u !in q.whitelist
  }

  /** The only step that lets one user wait and hold a slot at once: the script of a call whose whitelist check
      is out of date, for a user without a heartbeat. */
  predicate Overlaps(w: World, a: Action)
    requires Enabled(w, a)
  {
    a.EnqueueUser? && w.joining[a.t].user in w.q.whitelist && w.joining[a.t].user !in w.q.beats
  }

  lemma AdmissionKeepsApart(c: Config, q: Queue, desired: nat)
    requires ValidConfig(c) && WellFormed(q) && Apart(q)
    ensures Apart(TryWhitelist(c, q, desired).0) && WellFormed(TryWhitelist(c, q, desired).0)
    ensures Cap(c, TryWhitelist(c, q, desired).0) == Cap(c, q)
  {
    AdmissionTakes(c, q, desired);
    TryWhitelistDoes(c, q, desired);
    var n := Inspected(q.entries, q.beats, Quota(c, q, desired));
    var q' := TryWhitelist(c, q, desired).0;
    forall u | u in q'.beats ensures u !in q'.whitelist {
      assert u in q.beats && u !in Users(q.entries[..n]);
    }
  }

  lemma ApartStepExactly(c: Config, w: World, a: Action)
    requires ValidConfig(c) && WellFormed(w.q) && Enabled(w, a) && Apart(w.q)
    ensures Apart(Apply(c, w, a).q) <==> !Overlaps(w, a)
  {
    StepOnQueue(c, w, a);
    match a
    case AdmitNext => AdmissionKeepsApart(c, w.q, 1);
    case Promote(p) => AdmissionKeepsApart(c, w.q, w.promoters[p].free);
    case EnqueueUser(t) =>
      if Overlaps(w, a) { assert w.joining[t].user in Apply(c, w, a).q.beats; }
    case _ =>
  }

  ghost predicate OverlapAt(run: seq<World>, acts: seq<Action>, i: nat)
    requires |run| == |acts| + 1 && i < |acts|
  {
    Enabled(run[i], acts[i]) && Overlaps(run[i], acts[i])
  }

  /** Nobody waits and holds a slot at once up to n if and only if no such script has run. */
  lemma {:induction false} ApartExactly(c: Config, run: seq<World>, acts: seq<Action>, n: nat)
    requires IsRun(c, run, acts) && n < |run|
    ensures (forall i | 0 <= i <= n :: Apart(run[i].q)) <==> (forall i | 0 <= i < n :: !OverlapAt(run, acts, i))
  {
    if n > 0 {
      ApartExactly(c, run, acts, n - 1);
      QueueRunStep(c, run, acts, n);
      if Apart(run[n - 1].q) {
        ApartStepExactly(c, run[n - 1], acts[n - 1]);
        assert OverlapAt(run, acts, n - 1) <==> Overlaps(run[n - 1], acts[n - 1]);
      }
    }
  }

  // ---- evicted but alive ----

  /** Which entries an enqueue takes out: its sweep drops exactly the scores lapsed by the call's clock reading,
      heartbeat or not, and a user with no heartbeat gives up an old entry for a new one. */
  lemma EnqueueEvictsExactly(c: Config, q: Queue, at: int, u: UserId, x: Entry)
    requires ValidConfig(c) && WellFormed(q) && x in q.entries
    ensures x !in Enqueue(c, q, at, u).0.entries
       <==> x.score <= at || (x.user == u && u !in q.beats && x.score != at + c.queueTTL)
  {
    EnqueueDoes(c, q, at, u);
  }

  ghost predicate Stranded(q: Queue, u: UserId) {
    u in q.beats && u !in Users(q.entries) && u !in q.whitelist
  }

  lemma StrandedStep(c: Config, w: World, a: Action, u: UserId)
    requires ValidConfig(c) && WellFormed(w.q) && Enabled(w, a) && Stranded(w.q, u)
    requires u in Apply(c, w, a).q.beats
    ensures Stranded(Apply(c, w, a).q, u)
  {
    StepOnQueue(c, w, a);
    var q' := Apply(c, w, a).q;
    if u in Users(q'.entries) {
      var x :| x in q'.entries && x.user == u;
      EntriesFrom(c, w, a, x);
    }
    match a
    case AdmitNext => StrandedNotAdmitted(c, w.q, 1, u);
    case Promote(p) => StrandedNotAdmitted(c, w.q, w.promoters[p].free, u);
    case _ =>
  }

  lemma StrandedNotAdmitted(c: Config, q: Queue, desired: nat, u: UserId)
    requires ValidConfig(c) && WellFormed(q) && Stranded(q, u)
    ensures u !in TryWhitelist(c, q, desired).0.whitelist
  {
    AdmissionTakes(c, q, desired);
    assert forall n | 0 <= n <= |q.entries| :: u in Users(q.entries[..n]) ==> u in Users(q.entries);
  }

  /** A waiter whose score was swept while its heartbeat lived is stuck for as long as it keeps pinging: told
      it is alive, refused when it enqueues again, and never admitted. */
  lemma {:induction false} StrandedWhilePinging(c: Config, run: seq<World>, acts: seq<Action>,
            m: nat, n: nat, u: UserId)
    requires IsRun(c, run, acts) && m <= n < |run|
    requires Stranded(run[m].q, u) && forall i | m <= i <= n :: u in run[i].q.beats
    ensures Stranded(run[n].q, u)
    ensures (forall at :: Enqueue(c, run[n].q, at, u).1 == -1) && Ping(c, run[n].q, u).1 == 0
  {
    if m < n {
      StrandedWhilePinging(c, run, acts, m, n - 1, u);
      QueueRunStep(c, run, acts, n);
      StrandedStep(c, run[n - 1], acts[n - 1], u);
    }
  }
}
