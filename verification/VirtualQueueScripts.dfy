/** The Redis keys of one event's virtual queue and the Lua scripts over them. A script is atomic. A lapsed
    heartbeat or whitelist field disappears when the clock reaches its expiry. */
module VirtualQueueScripts {
  import opened Common

  datatype Config = Config(whitelistTTL: int, heartbeatTTL: int, queueTTL: int, maxConcurrent: nat)

  predicate ValidConfig(c: Config) {
    1 <= c.whitelistTTL && 1 <= c.heartbeatTTL && 1 <= c.queueTTL && c.maxConcurrent < TWO_64
  }

  // A member of the sorted set.
  datatype Entry = Entry(score: int, user: UserId)

  predicate Before(a: Entry, b: Entry) {
    a.score < b.score || (a.score == b.score && a.user < b.user)
  }

  datatype Queue = Queue(
    now: int,
    entries: seq<Entry>,
    beats: map<UserId, int>,
    whitelist: map<UserId, int>,
    override: Option<nat>)

  ghost predicate Sorted(es: seq<Entry>) {
    forall i, j | 0 <= i < j < |es| :: Before(es[i], es[j])
  }

  ghost predicate Distinct(es: seq<Entry>) {
    forall i, j | 0 <= i < j < |es| :: es[i].user != es[j].user
  }

  ghost predicate WellFormed(q: Queue) {
    && Sorted(q.entries) && Distinct(q.entries)
    && (forall u | u in q.beats :: q.now < q.beats[u])
    && (forall u | u in q.whitelist :: q.now < q.whitelist[u])
    && (q.override.Some? ==> q.override.value < TWO_64)
  }

  function Users(es: seq<Entry>): set<UserId> {
    set x | x in es :: x.user
  }

  function Cap(c: Config, q: Queue): nat {
    if q.override.Some? then q.override.value else c.maxConcurrent
  }

  function Advance(q: Queue, to: int): Queue {
    q.(now := to,
       beats := map u | u in q.beats && to < q.beats[u] :: q.beats[u],
       whitelist := map u | u in q.whitelist && to < q.whitelist[u] :: q.whitelist[u])
  }

  // ---- sorted-set commands ----

  /** ZREMRANGEBYSCORE key -inf now. */
  function DropLapsed(es: seq<Entry>, now: int): seq<Entry> {
    if es == [] || now < es[0].score then es else DropLapsed(es[1..], now)
  }

  /** ZREM key u. */
  function Without(es: seq<Entry>, u: UserId): seq<Entry> {
    if es == [] then []
    else if es[0].user == u then es[1..]
    else [es[0]] + Without(es[1..], u)
  }

  /** ZADD of a member that is not there. */
  function Insert(es: seq<Entry>, x: Entry): seq<Entry> {
    if es == [] || Before(x, es[0]) then [x] + es
    else [es[0]] + Insert(es[1..], x)
  }

  ghost predicate Ordered(es: seq<Entry>) {
    Sorted(es) && Distinct(es)
  }

  lemma TailMembers(es: seq<Entry>)
    requires es != []
    ensures forall x :: x in es <==> x == es[0] || x in es[1..]
  {
  }

  lemma {:induction false} DropLapsedDoes(es: seq<Entry>, now: int)
    requires Ordered(es)
    ensures Ordered(DropLapsed(es, now))
    ensures forall x :: x in DropLapsed(es, now) <==> x in es && now < x.score
    ensures |DropLapsed(es, now)| <= |es|
  {
    if es != [] {
      TailMembers(es);
      assert forall x | x in es[1..] :: es[0].score <= x.score by {
        forall x | x in es[1..] ensures es[0].score <= x.score {
          var i :| 1 <= i < |es| && es[i] == x;
          assert Before(es[0], es[i]);
        }
      }
      if es[0].score <= now { DropLapsedDoes(es[1..], now); }
    }
  }

  lemma {:induction false} WithoutMembers(es: seq<Entry>, u: UserId)
    requires Distinct(es)
    ensures forall x :: x in Without(es, u) <==> x in es && x.user != u
    ensures |Without(es, u)| <= |es|
  {
    if es != [] {
      TailMembers(es);
      WithoutMembers(es[1..], u);
    }
  }

  lemma {:induction false} WithoutOrdered(es: seq<Entry>, u: UserId)
    requires Ordered(es)
    ensures Ordered(Without(es, u))
  {
    if es != [] {
      WithoutOrdered(es[1..], u);
      WithoutMembers(es[1..], u);
      var rest := Without(es[1..], u);
      forall i | 0 <= i < |rest| ensures Before(es[0], rest[i]) && es[0].user != rest[i].user {
        assert rest[i] in es[1..];
      }
    }
  }

  lemma {:induction false} WithoutAbsent(es: seq<Entry>, u: UserId)
    requires u !in Users(es)
    ensures Without(es, u) == es
  {
    if es != [] {
      TailMembers(es);
      assert es[0].user in Users(es);
      assert u !in Users(es[1..]);
      WithoutAbsent(es[1..], u);
    }
  }

  lemma {:induction false} InsertDoes(es: seq<Entry>, x: Entry)
    requires Ordered(es) && x.user !in Users(es)
    ensures Ordered(Insert(es, x))
    ensures forall y :: y in Insert(es, x) <==> y in es || y == x
    ensures |Insert(es, x)| == |es| + 1
  {
    assert forall i | 0 <= i < |es| :: es[i].user in Users(es);
    if es == [] {
    } else if Before(x, es[0]) {
      forall i | 0 <= i < |es| ensures Before(x, es[i]) && x.user != es[i].user {
        assert i > 0 ==> Before(es[0], es[i]);
      }
    } else {
      TailMembers(es);
      InsertDoes(es[1..], x);
      var rest := Insert(es[1..], x);
      forall i | 0 <= i < |rest| ensures Before(es[0], rest[i]) && es[0].user != rest[i].user {
        assert rest[i] in es[1..] || rest[i] == x;
        assert es[0].user in Users(es);
      }
    }
  }

  // ---- the scripts ----

  /** at is the clock reading the caller took before it sent the script: it decides the sweep and the score.
      The heartbeat's TTL counts from the moment the script runs. */
  function Enqueue(c: Config, q: Queue, at: int, u: UserId): (Queue, int) {
    var kept := DropLapsed(q.entries, at);
    if u in q.beats then (q.(entries := kept), -1)
    else
      (q.(entries := Insert(Without(kept, u), Entry(at + c.queueTTL, u)),
          beats := q.beats[u := q.now + c.heartbeatTTL]),
       if u in Users(kept) then 0 else 1)
  }

  function Dequeue(q: Queue, u: UserId): (Queue, int, int) {
    var fromWhitelist := if u in q.whitelist then 1 else 0;
    var fromQueue := if u in Users(q.entries) then 1 else 0;
    (q.(entries := Without(q.entries, u), beats := q.beats - {u}, whitelist := q.whitelist - {u}),
     fromQueue + fromWhitelist, fromWhitelist)
  }

  function Ping(c: Config, q: Queue, u: UserId): (Queue, int) {
    if u in q.whitelist && 0 < q.whitelist[u] - q.now then (q, q.whitelist[u] - q.now)
    else if u in q.beats then (q.(beats := q.beats[u := q.now + c.heartbeatTTL]), 0)
    else (q, -1)
  }

  /** HDEL of one field, as the slot release does it. */
  function Release(q: Queue, u: UserId): Queue {
    q.(whitelist := q.whitelist - {u})
  }

  // ---- admission in one pass ----

  /** The members with a heartbeat, in queue order. */
  function Live(es: seq<Entry>, beats: map<UserId, int>): seq<UserId> {
    if es == [] then []
    else LiveOne(es[0], beats) + Live(es[1..], beats)
  }

  /** How far one pass reads to find k live members: just past the k-th, or to the end. */
  function Inspected(es: seq<Entry>, beats: map<UserId, int>, k: nat): (n: nat)
    ensures n <= |es|
  {
    if k == 0 || es == [] then 0
    else 1 + Inspected(es[1..], beats, if es[0].user in beats then k - 1 else k)
  }

  function Quota(c: Config, q: Queue, desired: nat): nat {
    var room := Cap(c, q) - |q.whitelist|;
    if room <= 0 then 0 else Min(desired, room)
  }

  function Chosen(q: Queue, k: nat): seq<UserId> {
    Live(q.entries[..Inspected(q.entries, q.beats, k)], q.beats)
  }

  /** HSET and HEXPIRE of each user in turn. */
  function Grant(whitelist: map<UserId, int>, chosen: seq<UserId>, until: int): map<UserId, int> {
    if chosen == [] then whitelist
    else Grant(whitelist, chosen[..|chosen| - 1], until)[chosen[|chosen| - 1] := until]
  }

  /** DEL of each user's heartbeat in turn. */
  function Revoke(beats: map<UserId, int>, chosen: seq<UserId>): map<UserId, int> {
    if chosen == [] then beats
    else Revoke(beats, chosen[..|chosen| - 1]) - {chosen[|chosen| - 1]}
  }

  function Admitted(c: Config, q: Queue, chosen: seq<UserId>, inspected: nat): Queue
    requires inspected <= |q.entries|
  {
    Queue(q.now, q.entries[inspected..], Revoke(q.beats, chosen), Grant(q.whitelist, chosen, q.now + c.whitelistTTL),
          q.override)
  }

  lemma {:induction false} GrantDoes(whitelist: map<UserId, int>, chosen: seq<UserId>, until: int)
    ensures var w := Grant(whitelist, chosen, until);
            && (forall u :: u in w <==> u in whitelist || u in chosen)
            && (forall u | u in w :: w[u] == if u in chosen then until else whitelist[u])
  {
    if chosen != [] {
      var rest, u := chosen[..|chosen| - 1], chosen[|chosen| - 1];
      GrantDoes(whitelist, rest, until);
      assert chosen == rest + [u];
    }
  }

  ghost predicate NoRepeats(us: seq<UserId>) {
    forall i, j | 0 <= i < j < |us| :: us[i] != us[j]
  }

  /** Granting adds at most one field a user, and exactly one when nobody chosen is listed yet. */
  lemma {:induction false} GrantSize(whitelist: map<UserId, int>, chosen: seq<UserId>, until: int)
    ensures |whitelist| <= |Grant(whitelist, chosen, until)| <= |whitelist| + |chosen|
    ensures NoRepeats(chosen) && (forall u | u in chosen :: u !in whitelist)
       ==> |Grant(whitelist, chosen, until)| == |whitelist| + |chosen|
  {
    if chosen != [] {
      var rest, u := chosen[..|chosen| - 1], chosen[|chosen| - 1];
      GrantSize(whitelist, rest, until);
      GrantDoes(whitelist, rest, until);
      var w := Grant(whitelist, rest, until);
      assert w[u := until].Keys == w.Keys + {u};
    }
  }

  lemma {:induction false} RevokeDoes(beats: map<UserId, int>, chosen: seq<UserId>)
    ensures var b := Revoke(beats, chosen);
            && (forall u :: u in b <==> u in beats && u !in chosen)
            && (forall u | u in b :: b[u] == beats[u])
  {
    if chosen != [] {
      var rest, u := chosen[..|chosen| - 1], chosen[|chosen| - 1];
      RevokeDoes(beats, rest);
      assert chosen == rest + [u];
    }
  }

  /** TryWhitelist as a single pass: who is admitted and what is left. */
  function TryWhitelist(c: Config, q: Queue, desired: nat): (Queue, seq<UserId>) {
    var k := Quota(c, q, desired);
    var chosen := Chosen(q, k);
    (Admitted(c, q, chosen, Inspected(q.entries, q.beats, k)), chosen)
  }

  function LiveOne(x: Entry, beats: map<UserId, int>): seq<UserId> {
    if x.user in beats then [x.user] else []
  }

  lemma {:induction false} LiveAppends(es: seq<Entry>, x: Entry, beats: map<UserId, int>)
    ensures Live(es + [x], beats) == Live(es, beats) + LiveOne(x, beats)
  {
    if es == [] {
      assert [] + [x] == [x] && [x][1..] == [];
    } else {
      LiveAppends(es[1..], x, beats);
      assert (es + [x])[0] == es[0] && (es + [x])[1..] == es[1..] + [x];
    }
  }

  lemma {:induction false} LiveAre(es: seq<Entry>, beats: map<UserId, int>)
    ensures forall u :: u in Live(es, beats) <==> u in Users(es) && u in beats
    ensures |Live(es, beats)| <= |es|
  {
    if es != [] {
      LiveAre(es[1..], beats);
      assert forall x :: x in es <==> x == es[0] || x in es[1..];
    }
  }

  lemma {:induction false} InspectedLive(es: seq<Entry>, beats: map<UserId, int>, k: nat)
    ensures Live(es[..Inspected(es, beats, k)], beats) == Live(es, beats)[..Min(k, |Live(es, beats)|)]
  {
    if k > 0 && es != [] {
      var k' := if es[0].user in beats then k - 1 else k;
      InspectedLive(es[1..], beats, k');
      var n := 1 + Inspected(es[1..], beats, k');
      assert es[..n][1..] == es[1..][..n - 1] && es[..n][0] == es[0];
      var rest := Live(es[1..], beats);
      assert Live(es[..n], beats) == LiveOne(es[0], beats) + rest[..Min(k', |rest|)];
      assert Live(es, beats) == LiveOne(es[0], beats) + rest;
    }
  }

  lemma {:induction false} InspectedStops(es: seq<Entry>, beats: map<UserId, int>, k: nat)
    ensures Inspected(es, beats, k) == |es| || k <= |Live(es[..Inspected(es, beats, k)], beats)|
    ensures 0 < Inspected(es, beats, k) < |es| ==> es[Inspected(es, beats, k) - 1].user in beats
  {
    if k > 0 && es != [] {
      var k' := if es[0].user in beats then k - 1 else k;
      InspectedStops(es[1..], beats, k');
      var n := 1 + Inspected(es[1..], beats, k');
      assert es[..n][1..] == es[1..][..n - 1] && es[..n][0] == es[0];
    }
  }

  /** One pass admits exactly the first k live members in queue order, or all of them when there are fewer,
      and stops reading at the k-th. */
  lemma ChosenAreFirst(es: seq<Entry>, beats: map<UserId, int>, k: nat)
    ensures var n := Inspected(es, beats, k);
            && Live(es[..n], beats) == Live(es, beats)[..Min(k, |Live(es, beats)|)]
            && (|Live(es[..n], beats)| < k ==> n == |es|)
            && (0 < n < |es| ==> es[n - 1].user in beats)
  {
    InspectedLive(es, beats, k);
    InspectedStops(es, beats, k);
  }

  lemma LiveSteps(es: seq<Entry>, beats: map<UserId, int>, n: nat)
    requires n < |es|
    ensures Live(es[..n + 1], beats) == Live(es[..n], beats) + LiveOne(es[n], beats)
  {
    assert es[..n + 1] == es[..n] + [es[n]];
    LiveAppends(es[..n], es[n], beats);
  }

  /** A scan that has met fewer than k live members has not read the whole inspected prefix, unless it is at
      the end of the queue. */
  lemma {:induction false} ScanGoesOn(es: seq<Entry>, beats: map<UserId, int>, n: nat, k: nat)
    requires n < |es| && |Live(es[..n], beats)| < k
    ensures n < Inspected(es, beats, k)
  {
    if n > 0 {
      assert es[..n][1..] == es[1..][..n - 1];
      ScanGoesOn(es[1..], beats, n - 1, if es[0].user in beats then k - 1 else k);
    }
  }

  lemma {:induction false} ScanStops(es: seq<Entry>, beats: map<UserId, int>, n: nat, k: nat)
    requires n <= Inspected(es, beats, k)
    requires |Live(es[..n], beats)| >= k
    ensures n == Inspected(es, beats, k)
  {
    if k > 0 {
      assert n > 0;
      assert es[..n][1..] == es[1..][..n - 1];
      ScanStops(es[1..], beats, n - 1, if es[0].user in beats then k - 1 else k);
    }
  }

  lemma PrefixUsersDiffer(es: seq<Entry>, beats: map<UserId, int>, n: nat)
    requires Distinct(es) && n < |es|
    ensures es[n].user !in Live(es[..n], beats)
  {
    LiveAre(es[..n], beats);
    assert forall i | 0 <= i < n :: es[..n][i].user != es[n].user;
  }

  lemma HeadGoes(es: seq<Entry>, n: nat)
    requires n < |es|
    ensures Without(es[n..], es[n].user) == es[n + 1..]
  {
    assert es[n..][1..] == es[n + 1..];
  }

  // ---- every script keeps the queue well formed ----

  lemma RequeueDoes(es: seq<Entry>, u: UserId, score: int)
    requires Ordered(es)
    ensures Ordered(Insert(Without(es, u), Entry(score, u)))
    ensures forall x :: x in Insert(Without(es, u), Entry(score, u)) <==>
              (x in es && x.user != u) || x == Entry(score, u)
  {
    WithoutMembers(es, u);
    WithoutOrdered(es, u);
    InsertDoes(Without(es, u), Entry(score, u));
  }

  /** The sweep and what replaces u's entry, in order and without repeats, whatever time the script carries. */
  lemma EnqueuedEntries(es: seq<Entry>, at: int, u: UserId, score: int)
    requires Ordered(es)
    ensures Ordered(DropLapsed(es, at)) && Ordered(Insert(Without(DropLapsed(es, at), u), Entry(score, u)))
    ensures forall x :: x in Insert(Without(DropLapsed(es, at), u), Entry(score, u)) <==>
              (x in es && at < x.score && x.user != u) || x == Entry(score, u)
  {
    DropLapsedDoes(es, at);
    RequeueDoes(DropLapsed(es, at), u, score);
  }

  lemma EnqueueKeeps(c: Config, q: Queue, at: int, u: UserId)
    requires ValidConfig(c) && WellFormed(q)
    ensures WellFormed(Enqueue(c, q, at, u).0)
    ensures Enqueue(c, q, at, u).1 < 0 <==> u in q.beats
  {
    EnqueuedEntries(q.entries, at, u, at + c.queueTTL);
  }

  /** Enqueue sweeps the scores lapsed by the caller's clock reading, then queues the user at that reading plus
      QueueTTL unless a heartbeat says the user is already there. */
  lemma EnqueueDoes(c: Config, q: Queue, at: int, u: UserId)
    requires ValidConfig(c) && WellFormed(q)
    ensures var q' := Enqueue(c, q, at, u).0;
            forall x :: x in q'.entries <==>
              || (x in q.entries && at < x.score && (x.user != u || u in q.beats))
              || (x == Entry(at + c.queueTTL, u) && u !in q.beats)
  {
    DropLapsedDoes(q.entries, at);
    EnqueuedEntries(q.entries, at, u, at + c.queueTTL);
  }

  /** What an enqueue answers, and the heartbeat it sets: -1 and nothing for a live one; else the heartbeat lives
      from now on, and the answer is whether the user is new to the queue as the sweep leaves it. */
  lemma EnqueueAnswers(c: Config, q: Queue, at: int, u: UserId)
    requires ValidConfig(c) && WellFormed(q)
    ensures var (q', answer) := Enqueue(c, q, at, u);
            && (answer == -1 <==> u in q.beats)
            && (answer == 0 <==> u !in q.beats && exists x | x in q.entries :: x.user == u && at < x.score)
            && (answer == 1 <==> u !in q.beats && forall x | x in q.entries :: x.user == u ==> x.score <= at)
            && q'.beats == (if u in q.beats then q.beats else q.beats[u := q.now + c.heartbeatTTL])
            && q'.whitelist == q.whitelist && q'.now == q.now && q'.override == q.override
  {
    DropLapsedDoes(q.entries, at);
    assert u in Users(DropLapsed(q.entries, at)) <==> exists x | x in q.entries :: x.user == u && at < x.score;
  }

  lemma DequeueDoes(q: Queue, u: UserId)
    requires WellFormed(q)
    ensures var q' := Dequeue(q, u).0;
            && WellFormed(q') && u !in q'.whitelist && u !in q'.beats && u !in Users(q'.entries)
            && forall x :: x in q'.entries <==> x in q.entries && x.user != u
  {
    WithoutMembers(q.entries, u);
    WithoutOrdered(q.entries, u);
  }

  lemma {:induction false} WithoutUndoesInsert(es: seq<Entry>, x: Entry)
    requires x.user !in Users(es)
    ensures Without(Insert(es, x), x.user) == es
  {
    if es != [] && !Before(x, es[0]) {
      assert es[0] in es && forall y | y in es[1..] :: y in es;
      WithoutUndoesInsert(es[1..], x);
    }
  }

  lemma RequeueUndone(es: seq<Entry>, now: int, x: Entry)
    requires Ordered(es) && x.user !in Users(es)
    ensures var queued := Insert(Without(DropLapsed(es, now), x.user), x);
            Without(queued, x.user) == DropLapsed(es, now) && x.user in Users(queued)
  {
    var kept := DropLapsed(es, now);
    DropLapsedDoes(es, now);
    assert x.user !in Users(kept);
    WithoutAbsent(kept, x.user);
    InsertDoes(kept, x);
    assert x in Insert(kept, x);
    WithoutUndoesInsert(kept, x);
  }

  lemma EnqueueNewcomer(c: Config, q: Queue, at: int, u: UserId)
    requires u !in q.beats
    ensures var queued := Insert(Without(DropLapsed(q.entries, at), u), Entry(at + c.queueTTL, u));
            Enqueue(c, q, at, u).0 == q.(entries := queued, beats := q.beats[u := q.now + c.heartbeatTTL])
  {
  }

  lemma DequeueQueued(q: Queue, u: UserId)
    requires u !in q.whitelist && u in Users(q.entries)
    ensures Dequeue(q, u) == (q.(entries := Without(q.entries, u), beats := q.beats - {u}), 1, 0)
  {
    assert q.whitelist - {u} == q.whitelist;
  }

  /** A user who enqueues and leaves again leaves no trace but the sweep of lapsed scores. */
  lemma DequeueUndoesEnqueue(c: Config, q: Queue, at: int, u: UserId)
    requires ValidConfig(c) && WellFormed(q) && u !in q.beats && u !in q.whitelist && u !in Users(q.entries)
    ensures Dequeue(Enqueue(c, q, at, u).0, u) == (q.(entries := DropLapsed(q.entries, at)), 1, 0)
  {
    RequeueUndone(q.entries, at, Entry(at + c.queueTTL, u));
    EnqueueNewcomer(c, q, at, u);
    var q1 := Enqueue(c, q, at, u).0;
    DequeueQueued(q1, u);
    assert q1.beats - {u} == q.beats;
  }

  /** What ping and dequeue report: the slot's remaining time, 0 for a waiter, -1 for nobody; and how many of the two
      places the user was taken from, the slot among them or not. */
  lemma PingAndDequeueAnswer(c: Config, q: Queue, u: UserId)
    requires WellFormed(q)
    ensures Ping(c, q, u).1 == if u in q.whitelist then q.whitelist[u] - q.now else if u in q.beats then 0 else -1
    ensures Dequeue(q, u).1 == 2 <==> u in q.whitelist && u in Users(q.entries)
    ensures Dequeue(q, u).1 == 0 <==> u !in q.whitelist && u !in Users(q.entries)
    ensures 0 <= Dequeue(q, u).1 <= 2
    ensures Dequeue(q, u).2 == if u in q.whitelist then 1 else 0
  {
  }

  /** A ping by a user without a slot keeps that user alive for the heartbeat's time and no longer, and cannot
      bring a dead one back. */
  lemma PingKeepsAlive(c: Config, q: Queue, u: UserId, to: int)
    requires WellFormed(q) && u !in q.whitelist && q.now <= to
    ensures u in Advance(Ping(c, q, u).0, to).beats <==> u in q.beats && to < q.now + c.heartbeatTTL
  {
  }

  lemma TryWhitelistDoes(c: Config, q: Queue, desired: nat)
    requires ValidConfig(c) && WellFormed(q)
    ensures WellFormed(TryWhitelist(c, q, desired).0)
  {
    AdmittedWellFormed(c, q, TryWhitelist(c, q, desired).1, Inspected(q.entries, q.beats, Quota(c, q, desired)));
  }

  lemma SuffixOrdered(es: seq<Entry>, n: nat)
    requires Ordered(es) && n <= |es|
    ensures Ordered(es[n..])
  {
  }

  lemma AdmittedWellFormed(c: Config, q: Queue, chosen: seq<UserId>, n: nat)
    requires ValidConfig(c) && WellFormed(q) && n <= |q.entries|
    ensures WellFormed(Admitted(c, q, chosen, n))
  {
    var q' := Admitted(c, q, chosen, n);
    SuffixOrdered(q.entries, n);
    GrantDoes(q.whitelist, chosen, q.now + c.whitelistTTL);
    RevokeDoes(q.beats, chosen);
    forall u | u in q'.whitelist ensures q.now < q'.whitelist[u] {
      assert u in chosen || u in q.whitelist;
    }
    forall u | u in q'.beats ensures q.now < q'.beats[u] {
      assert u in q.beats;
    }
  }

  // The queue q as a scan leaves it: n members read, those alive among them admitted.
  ghost predicate Scanned(c: Config, q: Queue, n: nat, alive: seq<UserId>, s: Queue) {
    n <= |q.entries| && alive == Live(q.entries[..n], q.beats) && s == Admitted(c, q, alive, n)
  }

  function AdmitUser(c: Config, s: Queue, u: UserId): Queue {
    Queue(s.now, Without(s.entries, u), s.beats - {u}, s.whitelist[u := s.now + c.whitelistTTL], s.override)
  }

  // One turn of the script's inner loop, at member n, with k users wanted.
  lemma ScanOne(c: Config, q: Queue, n: nat, alive: seq<UserId>, s: Queue, k: nat)
    requires WellFormed(q) && Scanned(c, q, n, alive, s) && n < |q.entries| && |alive| < k
    ensures n < Inspected(q.entries, q.beats, k)
    ensures var u := q.entries[n].user;
            if u in s.beats then Scanned(c, q, n + 1, alive + [u], AdmitUser(c, s, u))
            else Scanned(c, q, n + 1, alive, s.(entries := Without(s.entries, u)))
  {
    var u := q.entries[n].user;
    PrefixUsersDiffer(q.entries, q.beats, n);
    HeadGoes(q.entries, n);
    RevokeDoes(q.beats, alive);
    LiveSteps(q.entries, q.beats, n);
    ScanGoesOn(q.entries, q.beats, n, k);
    assert (alive + [u])[..|alive|] == alive;
  }

  // ---- the keys as mutable state ----

  class EventQueue {
    const cfg: Config
    var now: int
    var entries: seq<Entry>
    var beats: map<UserId, int>
    var whitelist: map<UserId, int>
    var override: Option<nat>

    ghost function State(): Queue
      reads this
    {
      Queue(now, entries, beats, whitelist, override)
    }

    ghost predicate Valid()
      reads this
    {
      ValidConfig(cfg) && WellFormed(State())
    }

    constructor (cfg: Config, now: int)
      requires ValidConfig(cfg)
      ensures Valid() && this.cfg == cfg && State() == Queue(now, [], map[], map[], None)
    {
      this.cfg, this.now := cfg, now;
      entries, beats, whitelist, override := [], map[], map[], None;
    }

    method PassTime(to: int)
      requires Valid() && now <= to
      modifies this
      ensures Valid() && State() == Advance(old(State()), to)
    {
      now := to;
      beats := map u | u in beats && to < beats[u] :: beats[u];
      whitelist := map u | u in whitelist && to < whitelist[u] :: whitelist[u];
    }

    method EnqueueScript(at: int, u: UserId) returns (affected: int)
      requires Valid()
      modifies this
      ensures Valid() && (State(), affected) == Enqueue(cfg, old(State()), at, u)
    {
      EnqueueKeeps(cfg, State(), at, u);
      entries := DropLapsed(entries, at);
      if u in beats { return -1; }
      beats := beats[u := now + cfg.heartbeatTTL];
      affected := if u in Users(entries) then 0 else 1;
      entries := Insert(Without(entries, u), Entry(at + cfg.queueTTL, u));
    }

    method DequeueScript(u: UserId) returns (removed: bool, releasedSlot: bool)
      requires Valid()
      modifies this
      ensures Valid() && State() == Dequeue(old(State()), u).0
      ensures removed <==> u in old(whitelist) || u in Users(old(entries))
      ensures releasedSlot <==> u in old(whitelist)
      ensures u !in whitelist && u !in beats && u !in Users(entries)
    {
      DequeueDoes(State(), u);
      releasedSlot := u in whitelist;
      removed := releasedSlot || u in Users(entries);
      whitelist := whitelist - {u};
      entries := Without(entries, u);
      beats := beats - {u};
    }

    method PingScript(u: UserId) returns (ttl: int, alive: bool)
      requires Valid()
      modifies this`beats
      ensures Valid() && State() == Ping(cfg, old(State()), u).0
      ensures if u in whitelist then 0 < ttl == whitelist[u] - now else ttl == 0
      ensures alive <==> u in whitelist || u in beats
    {
      if u in whitelist && 0 < whitelist[u] - now { return whitelist[u] - now, true; }
      if u in beats {
        beats := beats[u := now + cfg.heartbeatTTL];
        return 0, true;
      }
      return 0, false;
    }

    method DeleteWhitelistedUserTTL(u: UserId) returns (found: bool)
      requires Valid()
      modifies this`whitelist
      ensures Valid() && State() == Release(old(State()), u)
      ensures found <==> u in old(whitelist)
    {
      found := u in whitelist;
      whitelist := whitelist - {u};
    }

    /** HTTL answers -2 for a missing field. */
    method GetWhitelistedUserTTL(u: UserId) returns (ttl: int)
      requires Valid()
      ensures if u in whitelist then 0 < ttl == whitelist[u] - now else ttl == -2
    {
      ttl := if u in whitelist then whitelist[u] - now else -2;
    }

    method SetEventMaxConcurrent(cap: nat)
      requires Valid() && cap < TWO_64
      modifies this`override
      ensures Valid() && State() == old(State()).(override := Some(cap))
    {
      override := Some(cap);
    }

    method ClearEventMaxConcurrent()
      requires Valid()
      modifies this`override
      ensures Valid() && State() == old(State()).(override := None)
    {
      override := None;
    }

    method GetEventMaxConcurrent() returns (cap: nat)
      ensures cap == Cap(cfg, State())
    {
      cap := if override.Some? then override.value else cfg.maxConcurrent;
    }

    /** The script's inner loop: walk one batch, removing every member from the set being scanned, until
        enough are alive. */
    method AdmitBatch(candidates: seq<Entry>, desired: nat, found: seq<UserId>, ghost q: Queue, ghost n0: nat)
      returns (alive: seq<UserId>, ghost n: nat)
      requires WellFormed(q) && Scanned(cfg, q, n0, found, State()) && |found| < desired
      requires 0 < |candidates| && n0 + |candidates| <= |q.entries|
      requires forall j | 0 <= j < |candidates| :: candidates[j] == q.entries[n0 + j]
      modifies this
      ensures Scanned(cfg, q, n, alive, State())
              && n0 < n <= Inspected(q.entries, q.beats, desired) && |alive| <= desired
    {
      alive, n := found, n0;
      var i := 0;
      while i < |candidates|
        invariant i <= |candidates| && n == n0 + i
        invariant |alive| <= desired && (i < |candidates| ==> |alive| < desired)
        invariant i > 0 ==> n <= Inspected(q.entries, q.beats, desired)
        invariant Scanned(cfg, q, n, alive, State())
      {
        var u := candidates[i].user;
        ghost var s := State();
        ScanOne(cfg, q, n, alive, s, desired);
        i, n := i + 1, n + 1;
        if u in beats {
          alive := alive + [u];
          entries := Without(entries, u);
          whitelist := whitelist[u := now + cfg.whitelistTTL];
          beats := beats - {u};
          assert State() == AdmitUser(cfg, s, u);
          if desired <= |alive| { break; }
        } else {
          entries := Without(entries, u);
          assert State() == s.(entries := Without(s.entries, u));
        }
      }
    }

    /** The script's outer loop, for any batch size: it does what one pass over the queue does. */
    method AdmitBatches(desired: nat, batchSize: nat) returns (alive: seq<UserId>)
      requires Valid() && (0 < desired ==> 0 < batchSize)
      modifies this
      ensures Valid()
      ensures alive == Chosen(old(State()), desired)
      ensures State() == Admitted(cfg, old(State()), alive, Inspected(old(entries), old(beats), desired))
    {
      alive := [];
      ghost var q, n := State(), 0;
      NoQuota(cfg, q);
      while |alive| < desired
        invariant n <= Inspected(q.entries, q.beats, desired) && |alive| <= desired
        invariant Scanned(cfg, q, n, alive, State())
        decreases |entries|
      {
        var candidates := entries[..Min(batchSize, |entries|)];
        if |candidates| == 0 { break; }
        alive, n := AdmitBatch(candidates, desired, alive, q, n);
      }
      if desired <= |alive| { ScanStops(q.entries, q.beats, n, desired); }
      AdmittedWellFormed(cfg, q, alive, n);
    }

    method TryWhitelistEventQueue(desired: nat) returns (admitted: bool)
      requires Valid()
      modifies this
      ensures Valid()
      ensures State() == TryWhitelist(cfg, old(State()), desired).0
      ensures admitted <==> TryWhitelist(cfg, old(State()), desired).1 != []
    {
      ghost var q := State();
      var maxConcurrency := if override.Some? then override.value else cfg.maxConcurrent;
      var room := maxConcurrency - |whitelist|;
      if room <= 0 {
        NoQuota(cfg, q);
        return false;
      }
      var desiredCount := if desired > room then room else desired;
      assert desiredCount == Quota(cfg, q, desired);
      var alive := AdmitBatches(desiredCount, desiredCount * 2);
      assert alive == TryWhitelist(cfg, q, desired).1;
      admitted := |alive| > 0;
    }
  }

  lemma NoQuota(c: Config, q: Queue)
    ensures Chosen(q, 0) == [] && Admitted(c, q, [], 0) == q
  {
    assert q.entries[..0] == [] && q.entries[0..] == q.entries;
  }
}
