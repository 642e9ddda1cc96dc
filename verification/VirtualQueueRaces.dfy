/** Runs of the interleaved queue that end where atomic calls never would: a waiter evicted although it kept
    pinging, a waiter overtaken by a slower call, and a user who waits and holds a slot at once. */
module VirtualQueueRaces {
  import opened Common
  import opened VirtualQueueScripts
  import opened VirtualQueueProtocol

  lemma Start(c: Config, w: World)
    requires ValidConfig(c) && Init(w)
    ensures Reachable(c, w) && WellFormed(w.q)
  {
    assert IsRun(c, [w], []);
  }

  lemma Step(c: Config, w: World, a: Action)
    requires Enabled(w, a) && Reachable(c, w)
    ensures Reachable(c, Apply(c, w, a)) && WellFormed(Apply(c, w, a).q)
  {
    var run, acts :| IsRun(c, run, acts) && run[|run| - 1] == w;
    Extend(c, run, acts, a);
    RunWellFormed(c, run + [Apply(c, w, a)], acts + [a], |run|);
  }

  // ---- queues of one ----

  lemma EnqueueAlone(c: Config, q: Queue, at: int, u: UserId)
    requires q.entries == [] && q.beats == map[]
    ensures Enqueue(c, q, at, u).0
         == q.(entries := [Entry(at + c.queueTTL, u)], beats := map[u := q.now + c.heartbeatTTL])
  {
    assert Insert([], Entry(at + c.queueTTL, u)) == [Entry(at + c.queueTTL, u)];
  }

  lemma OnlyOneAdmitted(c: Config, q: Queue, x: Entry)
    requires q.entries == [x] && q.beats.Keys == {x.user} && |q.whitelist| < Cap(c, q)
    ensures TryWhitelist(c, q, 1)
         == (Queue(q.now, [], map[], q.whitelist[x.user := q.now + c.whitelistTTL], q.override), [x.user])
  {
    OnlyOneScanned(x, q.beats);
    assert Quota(c, q, 1) == 1;
    assert Chosen(q, 1) == [x.user];
    var us := [x.user];
    assert us[..0] == [];
    assert Revoke(q.beats, us) == q.beats - {x.user} == map[];
    assert Grant(q.whitelist, us, q.now + c.whitelistTTL) == q.whitelist[x.user := q.now + c.whitelistTTL];
  }

  lemma OnlyOneScanned(x: Entry, beats: map<UserId, int>)
    requires x.user in beats
    ensures Inspected([x], beats, 1) == 1 && Live([x][..1], beats) == [x.user] && [x][1..] == []
  {
    var es := [x];
    assert es[..1] == es && es[1..] == [];
    assert Live(es, beats) == [x.user] + Live(es[1..], beats);
  }

  // ---- the calls of a run ----

  ghost predicate At(c: Config, w: World, now: int, entries: seq<Entry>,
                     beats: map<UserId, int>, whitelist: map<UserId, int>)
  {
    Reachable(c, w) && WellFormed(w.q) && w.q == Queue(now, entries, beats, whitelist, None)
  }

  // An Enqueue call that has read the clock, and everything else as before.
  ghost predicate Calling(w: World, w': World, t: nat, u: UserId) {
    w'.q == w.q && w'.joining == w.joining[t := Timed(u, w.q.now)]
  }

  lemma CallBegins(c: Config, w: World, t: nat, u: UserId) returns (w': World)
    requires Reachable(c, w) && t !in w.joining && u !in w.q.whitelist
    ensures Reachable(c, w') && Calling(w, w', t, u)
  {
    Step(c, w, CheckUser(t, u));
    var w1 := Apply(c, w, CheckUser(t, u));
    Step(c, w1, ReadTime(t));
    w' := Apply(c, w1, ReadTime(t));
    assert w1.joining[t := Timed(u, w.q.now)] == w.joining[t := Timed(u, w.q.now)];
  }

  lemma CallRuns(c: Config, w: World, t: nat) returns (w': World)
    requires Reachable(c, w) && t in w.joining && w.joining[t].Timed?
    ensures Reachable(c, w') && WellFormed(w'.q)
    ensures w'.q == Enqueue(c, w.q, w.joining[t].at, w.joining[t].user).0
    ensures w'.joining == w.joining[t := Scripted]
  {
    Step(c, w, EnqueueUser(t));
    w' := Apply(c, w, EnqueueUser(t));
  }

  lemma Elapses(c: Config, w: World, to: int) returns (w': World)
    requires Reachable(c, w) && WellFormed(w.q) && w.q.now <= to
    requires forall u | u in w.q.beats :: to < w.q.beats[u]
    requires forall u | u in w.q.whitelist :: to < w.q.whitelist[u]
    ensures Reachable(c, w') && WellFormed(w'.q) && w'.q == w.q.(now := to) && w'.joining == w.joining
  {
    Step(c, w, Tick(to));
    w' := Apply(c, w, Tick(to));
    assert w'.q.beats == w.q.beats && w'.q.whitelist == w.q.whitelist;
  }

  lemma Empty(c: Config) returns (w: World)
    requires ValidConfig(c)
    ensures At(c, w, 0, [], map[], map[]) && w.joining == map[]
  {
    w := World(Queue(0, [], map[], map[], None), false, map[], map[], map[]);
    Start(c, w);
  }

  lemma AloneInQueue(c: Config, q: Queue, u: UserId)
    requires 1 <= c.maxConcurrent
    requires q == Queue(0, [Entry(c.queueTTL, u)], map[u := c.heartbeatTTL], map[], None)
    ensures TryWhitelist(c, q, 1).0 == Queue(0, [], map[], map[u := c.whitelistTTL], None)
  {
    OnlyOneAdmitted(c, q, Entry(c.queueTTL, u));
    assert q.whitelist[u := c.whitelistTTL] == map[u := c.whitelistTTL];
  }

  lemma AloneAdmitted(c: Config, w: World, u: UserId) returns (w': World)
    requires 1 <= c.maxConcurrent && At(c, w, 0, [Entry(c.queueTTL, u)], map[u := c.heartbeatTTL], map[])
    ensures At(c, w', 0, [], map[], map[u := c.whitelistTTL]) && w'.joining == w.joining
  {
    Step(c, w, AdmitNext);
    w' := Apply(c, w, AdmitNext);
    assert w'.q == TryWhitelist(c, w.q, 1).0;
    AloneInQueue(c, w.q, u);
  }

  // ---- stranded ----

  // The default times in seconds, and a gate of one.
  function Deployed(): Config {
    Config(900, 300, 300, 1)
  }

  lemma FirstAdmitted() returns (w: World)
    ensures At(Deployed(), w, 0, [], map[], map[2 := 900]) && w.joining.Keys == {0}
  {
    var c := Deployed();
    var w0 := Empty(c);
    var w1 := CallBegins(c, w0, 0, 2);
    EnqueueAlone(c, w1.q, 0, 2);
    var w2 := CallRuns(c, w1, 0);
    w := AloneAdmitted(c, w2, 2);
  }

  lemma SecondQueues() returns (w: World)
    ensures At(Deployed(), w, 0, [Entry(300, 1)], map[1 := 300], map[2 := 900]) && w.joining.Keys == {0, 1}
  {
    var c := Deployed();
    var w0 := FirstAdmitted();
    var w1 := CallBegins(c, w0, 1, 1);
    EnqueueAlone(c, w1.q, 0, 1);
    w := CallRuns(c, w1, 1);
  }

  lemma SecondPings() returns (w: World)
    ensures At(Deployed(), w, 200, [Entry(300, 1)], map[1 := 500], map[2 := 900]) && w.joining.Keys == {0, 1}
  {
    var c := Deployed();
    var w0 := SecondQueues();
    var w1 := Elapses(c, w0, 200);
    Step(c, w1, PingUser(1));
    w := Apply(c, w1, PingUser(1));
    assert w.q.beats == map[1 := 500];
  }

  /** One user holds the only slot and a second one waits behind it. That one pings at 200, so its heartbeat
      lives until 500; at 300 its score lapses, and a third user's enqueue sweeps it out. */
  lemma StrandingHappens()
    ensures exists w: World | Reachable(Deployed(), w) :: Stranded(w.q, 1)
  {
    var c := Deployed();
    var w0 := SecondPings();
    var w1 := Elapses(c, w0, 300);
    var w2 := CallBegins(c, w1, 2, 3);
    EnqueueDoes(c, w2.q, 300, 3);
    var w3 := CallRuns(c, w2, 2);
    assert forall x | x in w3.q.entries :: x == Entry(600, 3);
    assert Stranded(w3.q, 1);
  }

  // ---- overtaken ----

  lemma SlowCallPending() returns (w: World)
    ensures At(Deployed(), w, 1, [Entry(301, 1)], map[1 := 301], map[])
         && w.joining == map[0 := Timed(2, 0), 1 := Scripted]
  {
    var c := Deployed();
    var w0 := Empty(c);
    var w1 := CallBegins(c, w0, 0, 2);
    var w2 := Elapses(c, w1, 1);
    var w3 := CallBegins(c, w2, 1, 1);
    EnqueueAlone(c, w3.q, 1, 1);
    w := CallRuns(c, w3, 1);
  }

  /** A slow call reads the clock at 0. User 1 reads it at 1 and is queued at once; then the slow call's script
      puts user 2 ahead, and the next admission takes user 2 while user 1 still waits. */
  lemma OvertakingHappens()
    ensures exists w: World, a: Action | Reachable(Deployed(), w) && Enabled(w, a) ::
      && w.q.entries == [Entry(301, 1)] && 1 in w.q.beats && Overtakes(Deployed(), w, a, 301)
      && var w' := Apply(Deployed(), w, a); TryWhitelist(Deployed(), w'.q, 1).1 == [2]
  {
    var w := SlowCallPending();
    SlowCallAdmitted(w.q);
    var a := EnqueueUser(0);
    assert Enabled(w, a) && Overtakes(Deployed(), w, a, 301);
    assert Apply(Deployed(), w, a).q == Enqueue(Deployed(), w.q, 0, 2).0;
  }

  lemma SlowCallAdmitted(q: Queue)
    requires q == Queue(1, [Entry(301, 1)], map[1 := 301], map[], None)
    ensures TryWhitelist(Deployed(), Enqueue(Deployed(), q, 0, 2).0, 1).1 == [2]
  {
    var x, y := Entry(301, 1), Entry(300, 2);
    EnqueueNewcomer(Deployed(), q, 0, 2);
    assert DropLapsed([x], 0) == [x];
    WithoutAbsent([x], 2);
    assert Insert([x], y) == [y] + [x];
    FirstScanned([y] + [x], map[1 := 301, 2 := 301]);
    assert q.beats[2 := 301] == map[1 := 301, 2 := 301];
  }

  lemma FirstScanned(es: seq<Entry>, beats: map<UserId, int>)
    requires es != [] && es[0].user in beats
    ensures Live(es[..Inspected(es, beats, 1)], beats) == [es[0].user]
  {
    assert es[..1][1..] == [];
  }

  // ---- queued and admitted at once ----

  lemma BothCallsTimed(c: Config, u: UserId) returns (w: World)
    requires ValidConfig(c)
    ensures At(c, w, 0, [], map[], map[]) && w.joining == map[0 := Timed(u, 0), 1 := Timed(u, 0)]
  {
    var w0 := Empty(c);
    var w1 := CallBegins(c, w0, 0, u);
    w := CallBegins(c, w1, 1, u);
  }

  lemma OverlapShape(c: Config, q: Queue, u: UserId)
    requires ValidConfig(c) && 2 <= c.maxConcurrent
    requires q == Queue(0, [Entry(c.queueTTL, u)], map[u := c.heartbeatTTL], map[u := c.whitelistTTL], None)
    ensures !Apart(q) && u in q.whitelist && u in Users(q.entries)
    ensures TryWhitelist(c, q, 1).1 == [u] && |TryWhitelist(c, q, 1).0.whitelist| == |q.whitelist| == 1
  {
    var x := Entry(c.queueTTL, u);
    OnlyOneAdmitted(c, q, x);
    assert x in q.entries;
    assert q.whitelist[u := c.whitelistTTL] == q.whitelist;
  }

  /** Two Enqueues by one user, both past the whitelist check and the clock reading before either script runs,
      leave that user waiting with a slot in hand, and the next admission spends a turn without filling one. */
  lemma RacingEnqueuesOverlap(c: Config, u: UserId)
    requires ValidConfig(c) && 2 <= c.maxConcurrent
    ensures exists w: World | Reachable(c, w) ::
      && !Apart(w.q) && u in w.q.whitelist && u in Users(w.q.entries)
      && TryWhitelist(c, w.q, 1).1 == [u] && |TryWhitelist(c, w.q, 1).0.whitelist| == |w.q.whitelist| == 1
  {
    var w0 := BothCallsTimed(c, u);
    EnqueueAlone(c, w0.q, 0, u);
    var w1 := CallRuns(c, w0, 0);
    var w2 := AloneAdmitted(c, w1, u);
    EnqueueAlone(c, w2.q, 0, u);
    var w3 := CallRuns(c, w2, 1);
    OverlapShape(c, w3.q, u);
  }

  /** One Enqueue is enough when it races the promoter: the user is queued, asks again, and is admitted between
      the second call's whitelist check and its script. */
  lemma PromotionOverlaps(c: Config, u: UserId)
    requires ValidConfig(c) && 1 <= c.maxConcurrent
    ensures exists w: World, a: Action | Reachable(c, w) && Enabled(w, a) ::
      && Apart(w.q) && Overlaps(w, a)
      && (forall t, t' | t in w.joining && t' in w.joining && w.joining[t].Timed? && w.joining[t'].Timed? :: t == t')
  {
    var w0 := Empty(c);
    var w1 := CallBegins(c, w0, 0, u);
    EnqueueAlone(c, w1.q, 0, u);
    var w2 := CallRuns(c, w1, 0);
    var w3 := CallBegins(c, w2, 1, u);
    var w4 := AloneAdmitted(c, w3, u);
    assert Enabled(w4, EnqueueUser(1)) && Overlaps(w4, EnqueueUser(1));
  }
}
