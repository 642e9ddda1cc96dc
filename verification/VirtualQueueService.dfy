/** The queue service and the promoter with each call as one atomic step: no slot stays free while somebody
    with a heartbeat waits. */
module VirtualQueueService {
  import opened Common
  import opened VirtualQueueScripts
  import opened VirtualQueueProtocol

  // An event's queue and whether the event is in active_events.
  datatype Site = Site(q: Queue, tracked: bool)

  datatype EnqueueError = VirtualQueueExists

  /** What HTTL tells of a user: the slot's remaining time, or nothing. */
  function SlotTime(q: Queue, u: UserId): int {
    if u in q.whitelist then q.whitelist[u] - q.now else 0
  }

  function EnqueueCall(c: Config, s: Site, u: UserId): (Site, Result<int, EnqueueError>) {
    if u in s.q.whitelist then (s, Ok(SlotTime(s.q, u)))
    else
      var (q1, affected) := Enqueue(c, s.q, s.q.now, u);
      if affected < 0 then (Site(q1, true), Err(VirtualQueueExists))
      else
        var q2 := TryWhitelist(c, q1, 1).0;
        (Site(q2, true), Ok(SlotTime(q2, u)))
  }

  /** Give a slot back and admit the next in line: every releasing path of a reserve. */
  function ReleaseSlot(c: Config, q: Queue, u: UserId): Queue {
    TryWhitelist(c, Release(q, u), 1).0
  }

  function DequeueCall(c: Config, s: Site, u: UserId): Site {
    var (q', _, released) := Dequeue(s.q, u);
    s.(q := if 0 < released then TryWhitelist(c, q', 1).0 else q')
  }

  /** One promoter tick at one event. */
  function PromoterTick(c: Config, s: Site): Site {
    if !s.tracked then s
    else if s.q.entries == [] then s.(tracked := false)
    else
      var free := Clamp(Cap(c, s.q), |s.q.whitelist|, |s.q.entries|);
      if free == 0 then s else s.(q := TryWhitelist(c, s.q, free).0)
  }

  // ---- no wedge ----

  ghost predicate NobodyWaits(q: Queue) {
    forall x | x in q.entries :: x.user !in q.beats
  }

  ghost predicate Settled(c: Config, q: Queue) {
    Cap(c, q) <= |q.whitelist| || NobodyWaits(q)
  }

  ghost predicate SiteOk(c: Config, s: Site) {
    ValidConfig(c) && WellFormed(s.q) && Apart(s.q) && (s.q.entries != [] ==> s.tracked)
  }

  lemma {:induction false} LiveNoRepeats(es: seq<Entry>, beats: map<UserId, int>)
    requires Distinct(es)
    ensures NoRepeats(Live(es, beats))
  {
    if es != [] {
      LiveNoRepeats(es[1..], beats);
      LiveAre(es[1..], beats);
      assert es[0].user !in Users(es[1..]);
    }
  }

  ghost function Members(us: seq<UserId>): set<UserId> {
    set v | v in us
  }

  lemma {:induction false} NoRepeatsCount(us: seq<UserId>)
    requires NoRepeats(us)
    ensures |Members(us)| == |us|
  {
    if us != [] {
      var rest, u := us[..|us| - 1], us[|us| - 1];
      NoRepeatsCount(rest);
      assert us == rest + [u];
      assert forall i | 0 <= i < |rest| :: rest[i] == us[i] != u;
      assert Members(us) == Members(rest) + {u};
    }
  }

  lemma AloneIsOne(us: seq<UserId>, u: UserId)
    requires NoRepeats(us) && forall v | v in us :: v == u
    ensures |us| <= 1
  {
    NoRepeatsCount(us);
    SubsetSize(Members(us), {u});
  }

  lemma {:induction false} NobodyLive(es: seq<Entry>, beats: map<UserId, int>)
    requires forall x | x in es :: x.user !in beats
    ensures Live(es, beats) == []
  {
    if es != [] {
      TailMembers(es);
      assert es[0] in es;
      assert forall x | x in es[1..] :: x in es;
      NobodyLive(es[1..], beats);
      assert Live(es, beats) == LiveOne(es[0], beats) + Live(es[1..], beats);
    }
  }

  /** When the quota covers everyone alive, nobody alive is left waiting. */
  lemma QuotaForAll(c: Config, q: Queue, desired: nat)
    requires ValidConfig(c) && WellFormed(q) && |Live(q.entries, q.beats)| <= Quota(c, q, desired)
    ensures NobodyWaits(TryWhitelist(c, q, desired).0)
  {
    var q' := TryWhitelist(c, q, desired).0;
    var chosen := Chosen(q, Quota(c, q, desired));
    ChosenAreFirst(q.entries, q.beats, Quota(c, q, desired));
    assert chosen == Live(q.entries, q.beats);
    LiveAre(q.entries, q.beats);
    RevokeDoes(q.beats, chosen);
    forall x | x in q'.entries ensures x.user !in q'.beats {
      assert x in q.entries;
      assert x.user in q.beats ==> x.user in chosen;
    }
  }

  lemma ChosenAreNew(q: Queue, k: nat)
    requires WellFormed(q) && Apart(q)
    ensures NoRepeats(Chosen(q, k)) && forall u | u in Chosen(q, k) :: u !in q.whitelist
  {
    var prefix := q.entries[..Inspected(q.entries, q.beats, k)];
    assert Distinct(prefix);
    LiveNoRepeats(prefix, q.beats);
    LiveAre(prefix, q.beats);
  }

  /** When more are alive than there is room for, every slot is filled. */
  lemma GrantedAll(q: Queue, k: nat, until: int)
    requires WellFormed(q) && Apart(q) && k <= |Live(q.entries, q.beats)|
    ensures |Grant(q.whitelist, Chosen(q, k), until)| == |q.whitelist| + k
  {
    ChosenCount(q, k);
    ChosenAreNew(q, k);
    GrantSize(q.whitelist, Chosen(q, k), until);
  }

  /** An admission that wants as many as there is room for, or as many as are alive, settles the queue. */
  lemma AdmissionSettles(c: Config, q: Queue, desired: nat)
    requires ValidConfig(c) && WellFormed(q) && Apart(q)
    requires Cap(c, q) - |q.whitelist| <= desired || |Live(q.entries, q.beats)| <= desired
    ensures Settled(c, TryWhitelist(c, q, desired).0)
  {
    AdmissionKeepsApart(c, q, desired);
    if |Live(q.entries, q.beats)| <= Quota(c, q, desired) {
      QuotaForAll(c, q, desired);
    } else {
      GrantedAll(q, Quota(c, q, desired), q.now + c.whitelistTTL);
      AdmissionGrants(c, q, desired);
    }
  }

  lemma AdmissionKeepsSettled(c: Config, q: Queue, desired: nat)
    requires ValidConfig(c) && WellFormed(q) && Apart(q) && Settled(c, q)
    ensures Settled(c, TryWhitelist(c, q, desired).0)
  {
    if NobodyWaits(q) {
      NobodyLive(q.entries, q.beats);
    }
    AdmissionSettles(c, q, desired);
  }

  // ---- each call ----

  lemma EnqueueCallSettles(c: Config, s: Site, u: UserId)
    requires SiteOk(c, s)
    ensures SiteOk(c, EnqueueCall(c, s, u).0)
    ensures Settled(c, s.q) ==> Settled(c, EnqueueCall(c, s, u).0.q)
  {
    if u !in s.q.whitelist {
      var (q1, affected) := Enqueue(c, s.q, s.q.now, u);
      EnqueueKeeps(c, s.q, s.q.now, u);
      EnqueueDoes(c, s.q, s.q.now, u);
      if affected >= 0 {
        AdmissionKeepsApart(c, q1, 1);
        if Settled(c, s.q) && NobodyWaits(s.q) {
          LiveAre(q1.entries, q1.beats);
          LiveNoRepeats(q1.entries, q1.beats);
          forall v | v in Live(q1.entries, q1.beats) ensures v == u {
            var x :| x in q1.entries && x.user == v;
            assert x in s.q.entries || x.user == u;
          }
          AloneIsOne(Live(q1.entries, q1.beats), u);
          AdmissionSettles(c, q1, 1);
        } else if Settled(c, s.q) {
          AdmissionKeepsSettled(c, q1, 1);
        }
      }
    }
  }

  lemma ReleaseSlotSettles(c: Config, s: Site, u: UserId)
    requires SiteOk(c, s)
    ensures SiteOk(c, s.(q := ReleaseSlot(c, s.q, u)))
    ensures Settled(c, s.q) ==> Settled(c, ReleaseSlot(c, s.q, u))
  {
    var q1 := Release(s.q, u);
    assert q1.whitelist.Keys == s.q.whitelist.Keys - {u};
    AdmissionKeepsApart(c, q1, 1);
    AdmissionShortens(c, q1, 1);
    if Settled(c, s.q) {
      if NobodyWaits(q1) { AdmissionKeepsSettled(c, q1, 1); } else { AdmissionSettles(c, q1, 1); }
    }
  }

  /** The first k live waiters in queue order, or all of them. */
  function FirstLive(q: Queue, k: nat): seq<UserId> {
    var waiting := Live(q.entries, q.beats);
    waiting[..Min(k, |waiting|)]
  }

  lemma ChosenIs(q: Queue, k: nat)
    ensures Chosen(q, k) == FirstLive(q, k)
  {
    ChosenAreFirst(q.entries, q.beats, k);
  }

  lemma GrantsTo(whitelist: map<UserId, int>, chosen: seq<UserId>, until: int, v: UserId)
    ensures v in Grant(whitelist, chosen, until) <==> v in whitelist || v in chosen
  {
    GrantDoes(whitelist, chosen, until);
  }

  lemma RevokesFrom(beats: map<UserId, int>, chosen: seq<UserId>, v: UserId)
    ensures v in Revoke(beats, chosen) <==> v in beats && v !in chosen
  {
    RevokeDoes(beats, chosen);
  }

  lemma AdmissionRevokes(c: Config, q: Queue, desired: nat)
    ensures TryWhitelist(c, q, desired).0.beats == Revoke(q.beats, Chosen(q, Quota(c, q, desired)))
  {
  }

  lemma AdmitsFirst(c: Config, q: Queue, desired: nat, v: UserId)
    ensures var first := FirstLive(q, Quota(c, q, desired));
            && (v in TryWhitelist(c, q, desired).0.whitelist <==> v in q.whitelist || v in first)
            && (v in TryWhitelist(c, q, desired).0.beats <==> v in q.beats && v !in first)
  {
    var k := Quota(c, q, desired);
    ChosenIs(q, k);
    GrantsTo(q.whitelist, Chosen(q, k), q.now + c.whitelistTTL, v);
    RevokesFrom(q.beats, Chosen(q, k), v);
    AdmissionGrants(c, q, desired);
    AdmissionRevokes(c, q, desired);
  }

  /** A slot given back goes to the first live waiter, if there is one and the gate is not above its cap; nobody
      else's slot is touched. */
  lemma SlotPassesOn(c: Config, q: Queue, u: UserId)
    requires ValidConfig(c) && WellFormed(q) && Apart(q) && u in q.whitelist
    ensures var waiting := Live(q.entries, q.beats);
            ReleaseSlot(c, q, u).whitelist.Keys == q.whitelist.Keys - {u} +
              (if waiting != [] && |q.whitelist| <= Cap(c, q) then {waiting[0]} else {})
  {
    assert Release(q, u).whitelist.Keys == q.whitelist.Keys - {u};
    SlotFilled(c, Release(q, u), |q.whitelist|);
  }

  /** What a service enqueue answers. A slot in hand is left as it is, and its remaining time told. A live
      heartbeat without one is refused, which only sweeps the lapsed scores. Anyone else is told to wait by 0, or, if
      admitted at once, the whole whitelist time. The event is tracked in any case but the first. */
  lemma EnqueueCallAnswers(c: Config, s: Site, u: UserId)
    requires ValidConfig(c) && WellFormed(s.q)
    ensures var (s', result) := EnqueueCall(c, s, u);
            && (u in s.q.whitelist ==> s' == s && result == Ok(s.q.whitelist[u] - s.q.now))
            && (u !in s.q.whitelist ==> s'.tracked)
            && (result.Err? <==> u !in s.q.whitelist && u in s.q.beats)
            && (result.Err? ==> s'.q == s.q.(entries := s'.q.entries))
            && (result.Ok? ==>
                  && (0 < result.value <==> u in s'.q.whitelist)
                  && result.value == if u in s'.q.whitelist then s'.q.whitelist[u] - s'.q.now else 0)
            && (u !in s.q.whitelist && u in s'.q.whitelist ==> result == Ok(c.whitelistTTL))
  {
    if u !in s.q.whitelist && u !in s.q.beats {
      var q1 := Enqueue(c, s.q, s.q.now, u).0;
      EnqueueKeeps(c, s.q, s.q.now, u);
      EnqueueAnswers(c, s.q, s.q.now, u);
      AdmissionAnswers(c, q1, u);
    } else {
      EnqueueKeeps(c, s.q, s.q.now, u);
    }
  }

  lemma AdmissionAnswers(c: Config, q: Queue, u: UserId)
    requires ValidConfig(c) && WellFormed(q) && u !in q.whitelist
    ensures var q' := TryWhitelist(c, q, 1).0;
            && (u in q'.whitelist ==> SlotTime(q', u) == c.whitelistTTL == q'.whitelist[u] - q'.now)
            && (u !in q'.whitelist ==> SlotTime(q', u) == 0)
  {
    AdmissionTakes(c, q, 1);
    if u in TryWhitelist(c, q, 1).0.whitelist { AdmittedUntil(c, q, 1, u); }
  }

  lemma {:induction false} OnlyUserLive(es: seq<Entry>, beats: map<UserId, int>, u: UserId)
    requires Distinct(es) && u in Users(es) && u in beats && forall x | x in es && x.user in beats :: x.user == u
    ensures Live(es, beats) == [u]
  {
    LiveAre(es, beats);
    LiveNoRepeats(es, beats);
    AloneIsOne(Live(es, beats), u);
  }

  /** With a slot free and nobody alive waiting, a newcomer is admitted at once. */
  lemma NewcomerWalksIn(c: Config, s: Site, u: UserId)
    requires ValidConfig(c) && WellFormed(s.q) && NobodyWaits(s.q) && |s.q.whitelist| < Cap(c, s.q)
    requires u !in s.q.whitelist && u !in s.q.beats
    ensures u in EnqueueCall(c, s, u).0.q.whitelist
  {
    var q1 := Enqueue(c, s.q, s.q.now, u).0;
    EnqueueKeeps(c, s.q, s.q.now, u);
    EnqueueDoes(c, s.q, s.q.now, u);
    EnqueueAnswers(c, s.q, s.q.now, u);
    assert Entry(s.q.now + c.queueTTL, u) in q1.entries;
    OnlyUserLive(q1.entries, q1.beats, u);
    assert FirstLive(q1, 1) == [u];
    AdmitsFirst(c, q1, 1, u);
  }

  lemma {:induction false} LiveWithout(es: seq<Entry>, beats: map<UserId, int>, u: UserId)
    requires u !in beats
    ensures Live(Without(es, u), beats) == Live(es, beats)
  {
    if es != [] && es[0].user != u {
      LiveWithout(es[1..], beats, u);
      assert Without(es, u)[1..] == Without(es[1..], u);
    }
  }

  /** A dequeue of a slot holder passes the slot to the first live waiter, as giving it back does; of anyone else it
      touches nobody's slot. */
  lemma DequeuePassesOn(c: Config, s: Site, u: UserId)
    requires ValidConfig(c) && WellFormed(s.q) && Apart(s.q)
    ensures var s', waiting := DequeueCall(c, s, u), Live(s.q.entries, s.q.beats);
            && s'.tracked == s.tracked && u !in s'.q.beats
            && (u !in s.q.whitelist ==> s'.q.whitelist == s.q.whitelist)
            && (u in s.q.whitelist ==>
                  s'.q.whitelist.Keys == s.q.whitelist.Keys - {u} +
                    (if waiting != [] && |s.q.whitelist| <= Cap(c, s.q) then {waiting[0]} else {}))
  {
    var q1 := Dequeue(s.q, u).0;
    DequeueDoes(s.q, u);
    if u in s.q.whitelist {
      assert q1.beats == s.q.beats;
      assert q1.whitelist.Keys == s.q.whitelist.Keys - {u};
      LiveWithout(s.q.entries, s.q.beats, u);
      SlotFilled(c, q1, |s.q.whitelist|);
      AdmissionTakes(c, q1, 1);
    } else {
      assert q1.whitelist == s.q.whitelist;
    }
  }

  lemma FirstLiveOne(q: Queue, k: nat, v: UserId)
    requires k <= 1
    ensures v in FirstLive(q, k) <==> k == 1 && Live(q.entries, q.beats) != [] && v == Live(q.entries, q.beats)[0]
  {
  }

  lemma SlotFilledBy(c: Config, q: Queue, before: nat, v: UserId)
    requires |q.whitelist| == before - 1
    ensures var waiting := Live(q.entries, q.beats);
            var filled := before <= Cap(c, q) && waiting != [] && v == waiting[0];
            v in TryWhitelist(c, q, 1).0.whitelist <==> v in q.whitelist || filled
  {
    var k := if before <= Cap(c, q) then 1 else 0;
    assert Quota(c, q, 1) == k;
    FirstLiveOne(q, k, v);
    AdmitsFirst(c, q, 1, v);
  }

  lemma SlotFilled(c: Config, q: Queue, before: nat)
    requires |q.whitelist| == before - 1
    ensures TryWhitelist(c, q, 1).0.whitelist.Keys == q.whitelist.Keys +
              (if Live(q.entries, q.beats) != [] && before <= Cap(c, q) then {Live(q.entries, q.beats)[0]} else {})
  {
    forall v { SlotFilledBy(c, q, before, v); }
  }

  lemma SlotHolderLeaves(c: Config, s: Site, u: UserId)
    requires SiteOk(c, s) && u in s.q.whitelist
    ensures SiteOk(c, DequeueCall(c, s, u))
    ensures Settled(c, s.q) ==> Settled(c, DequeueCall(c, s, u).q)
  {
    var q1 := Dequeue(s.q, u).0;
    DequeueDoes(s.q, u);
    WithoutMembers(s.q.entries, u);
    assert q1.whitelist.Keys == s.q.whitelist.Keys - {u};
    AdmissionKeepsApart(c, q1, 1);
    AdmissionShortens(c, q1, 1);
    if Settled(c, s.q) {
      if NobodyWaits(q1) { AdmissionKeepsSettled(c, q1, 1); } else { AdmissionSettles(c, q1, 1); }
    }
  }

  lemma DequeueCallSettles(c: Config, s: Site, u: UserId)
    requires SiteOk(c, s)
    ensures SiteOk(c, DequeueCall(c, s, u))
    ensures Settled(c, s.q) ==> Settled(c, DequeueCall(c, s, u).q)
  {
    if u in s.q.whitelist {
      SlotHolderLeaves(c, s, u);
    } else {
      DequeueDoes(s.q, u);
      WithoutMembers(s.q.entries, u);
      assert Dequeue(s.q, u).0.whitelist == s.q.whitelist;
    }
  }

  /** A promoter tick settles a tracked event exactly when it was settled or the free slots fit int64: a cap
      of 2^63 or more can read as negative. */
  lemma PromoterSettlesExactly(c: Config, s: Site)
    requires SiteOk(c, s) && s.tracked && |s.q.whitelist| < TWO_63
    ensures SiteOk(c, PromoterTick(c, s))
    ensures Settled(c, PromoterTick(c, s).q) <==> Settled(c, s.q) || Cap(c, s.q) - |s.q.whitelist| < TWO_63
  {
    var free := Clamp(Cap(c, s.q), |s.q.whitelist|, |s.q.entries|);
    if s.q.entries != [] && free > 0 {
      AdmissionKeepsApart(c, s.q, free);
      LiveAre(s.q.entries, s.q.beats);
      AdmissionSettles(c, s.q, free);
    }
  }

  /** After a tick an event is tracked exactly if it was and its queue was not empty. The tick touches no queue of an
      event it does not track, and no empty one. */
  lemma TickTracks(c: Config, s: Site)
    ensures PromoterTick(c, s).tracked <==> s.tracked && s.q.entries != []
    ensures !s.tracked || s.q.entries == [] ==> PromoterTick(c, s).q == s.q
  {
  }

  /** A tick on a tracked event admits the first live waiters in queue order, one for each free slot, while the free
      slots fit int64. */
  lemma TickAdmits(c: Config, s: Site, v: UserId)
    requires ValidConfig(c) && WellFormed(s.q) && s.tracked && |s.q.whitelist| < TWO_63
    requires 0 < Cap(c, s.q) - |s.q.whitelist| < TWO_63
    ensures var q', room := PromoterTick(c, s).q, Cap(c, s.q) - |s.q.whitelist|;
            && (v in q'.whitelist <==> v in s.q.whitelist || v in FirstLive(s.q, room))
            && (v in q'.beats <==> v in s.q.beats && v !in FirstLive(s.q, room))
  {
    var q, room := s.q, Cap(c, s.q) - |s.q.whitelist|;
    LiveAre(q.entries, q.beats);
    if q.entries != [] {
      var free := Clamp(Cap(c, q), |q.whitelist|, |q.entries|);
      assert free == Min(room, |q.entries|);
      assert FirstLive(q, free) == FirstLive(q, room);
      AdmitsFirst(c, q, free, v);
    }
  }

  /** With a cap of 2^63 the tick reads no free slot and leaves a live waiter where it is. */
  lemma HugeCapStuck()
    ensures var c := Config(900, 300, 300, 1);
            var s := Site(Queue(0, [Entry(300, 1)], map[1 := 300], map[], Some(TWO_63)), true);
            && SiteOk(c, s) && 1 in s.q.beats && Cap(c, s.q) - |s.q.whitelist| == TWO_63
            && PromoterTick(c, s) == s && !Settled(c, s.q)
  {
    var x := Entry(300, 1);
    assert x in [x];
  }

  // ---- whole runs of calls ----

  datatype Call =
    | EnqueueBy(user: UserId)
    | DequeueBy(user: UserId)
    | PingBy(user: UserId)
    | SlotReleasedBy(user: UserId)
    | PromoterTicks
    | TimePasses(to: int)
    | CapSet(cap: Option<nat>)

  predicate Callable(c: Config, s: Site, a: Call) {
    match a
    case PromoterTicks => |s.q.whitelist| < TWO_63
    case TimePasses(to) => s.q.now <= to
    case CapSet(cap) => cap.Some? ==> cap.value < TWO_64
    case _ => true
  }

  function Serve(c: Config, s: Site, a: Call): Site
    requires Callable(c, s, a)
  {
    match a
    case EnqueueBy(u) => EnqueueCall(c, s, u).0
    case DequeueBy(u) => DequeueCall(c, s, u)
    case PingBy(u) => s.(q := Ping(c, s.q, u).0)
    case SlotReleasedBy(u) => s.(q := ReleaseSlot(c, s.q, u))
    case PromoterTicks => PromoterTick(c, s)
    case TimePasses(to) => s.(q := Advance(s.q, to))
    case CapSet(cap) => s.(q := s.q.(override := cap))
  }

  /** The only calls that can free a slot without filling it: a whitelist expiry and a raised cap. */
  predicate Disturbs(c: Config, s: Site, a: Call) {
    match a
    case TimePasses(to) => exists u | u in s.q.whitelist :: s.q.whitelist[u] <= to
    case CapSet(cap) => Cap(c, s.q) < Cap(c, s.q.(override := cap))
    case _ => false
  }

  lemma CallSettles(c: Config, s: Site, a: Call)
    requires SiteOk(c, s) && Callable(c, s, a)
    ensures SiteOk(c, Serve(c, s, a))
    ensures Settled(c, s.q) && !Disturbs(c, s, a) ==> Settled(c, Serve(c, s, a).q)
  {
    match a
    case EnqueueBy(u) => EnqueueCallSettles(c, s, u);
    case DequeueBy(u) => DequeueCallSettles(c, s, u);
    case SlotReleasedBy(u) => ReleaseSlotSettles(c, s, u);
    case PromoterTicks => if s.tracked { PromoterSettlesExactly(c, s); }
    case PingBy(u) =>
    case TimePasses(to) => if !Disturbs(c, s, a) { assert Advance(s.q, to).whitelist == s.q.whitelist; }
    case CapSet(cap) =>
  }

  ghost predicate ServedAt(c: Config, run: seq<Site>, calls: seq<Call>, i: nat)
    requires |run| == |calls| + 1 && i < |calls|
  {
    Callable(c, run[i], calls[i]) && run[i + 1] == Serve(c, run[i], calls[i])
  }

  ghost predicate IsServed(c: Config, run: seq<Site>, calls: seq<Call>) {
    && |run| == |calls| + 1 && SiteOk(c, run[0])
    && forall i | 0 <= i < |calls| :: ServedAt(c, run, calls, i)
  }

  ghost predicate Quiet(c: Config, run: seq<Site>, calls: seq<Call>, m: nat, n: nat)
    requires IsServed(c, run, calls) && n <= |calls|
  {
    forall i | m <= i < n :: !Disturbs(c, run[i], calls[i])
  }

  lemma {:induction false} ServedOk(c: Config, run: seq<Site>, calls: seq<Call>, n: nat)
    requires IsServed(c, run, calls) && n < |run|
    ensures SiteOk(c, run[n])
  {
    if n > 0 {
      ServedOk(c, run, calls, n - 1);
      assert ServedAt(c, run, calls, n - 1);
      CallSettles(c, run[n - 1], calls[n - 1]);
    }
  }

  lemma {:induction false} StaysSettled(c: Config, run: seq<Site>, calls: seq<Call>, m: nat, n: nat)
    requires IsServed(c, run, calls) && m <= n < |run| && Quiet(c, run, calls, m, n) && Settled(c, run[m].q)
    ensures Settled(c, run[n].q)
  {
    if m < n {
      StaysSettled(c, run, calls, m, n - 1);
      ServedOk(c, run, calls, n - 1);
      assert ServedAt(c, run, calls, n - 1);
      CallSettles(c, run[n - 1], calls[n - 1]);
    }
  }

  /** No wedge: once a promoter tick has run with the free slots in int64 range, then until the next whitelist
      expiry or cap raise no slot is free while a live member waits. A non-empty queue is always tracked, so
      the tick reaches it. */
  lemma NoWedge(c: Config, run: seq<Site>, calls: seq<Call>, m: nat, n: nat)
    requires IsServed(c, run, calls) && m < n < |run|
    requires calls[m].PromoterTicks? && Cap(c, run[m].q) - |run[m].q.whitelist| < TWO_63
    requires Quiet(c, run, calls, m + 1, n)
    ensures Cap(c, run[n].q) <= |run[n].q.whitelist| || NobodyWaits(run[n].q)
  {
    ServedOk(c, run, calls, m);
    assert ServedAt(c, run, calls, m);
    if run[m].tracked { PromoterSettlesExactly(c, run[m]); }
    StaysSettled(c, run, calls, m + 1, n);
  }
}
