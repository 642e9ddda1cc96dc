/** The load generator: what one simulated user does against the system's answers, the runner that counts
    them, and all users of a run interleaved, one counter change at a time. */
module SimulationEngine {
  import opened Common

  const DEFAULT_WORKERS := 200
  const DEFAULT_POLL_MS := 50
  const MAX_POLL_MS := 1000
  const DEFAULT_TIMEOUT_MS := 60000
  const POLL_OPS_BUDGET := 50000

  // kinds answers errors.Is: a wrapped error may match several of them.
  datatype Kind = DeadlineExceeded | ContextCanceled | InsufficientCapacity | ExceedMaxReserveQuantity
  datatype Fault = Fault(kinds: set<Kind>, text: string)

  datatype QueueStatus = QueueStatus(whitelistTTL: int, alive: bool, soldOut: bool)

  datatype Outcome =
    | Reserved
    | RejectedCapacity
    | RejectedQuota
    | TimedOut
    | Cancelled
    | Reaped
    | Failed(cause: string)

  datatype Stage = AtEnqueue | AtPoll | AtSemaphore | AtReserve

  // The runner's counters, each cause in its error map, and the number of slots taken in its semaphore.
  datatype Gauge =
    | GStarted | GEnqueued | GAdmitted
    | GReserved | GRejectedCapacity | GRejectedQuota | GTimedOut | GCancelled | GReaped | GErrors
    | GCause(cause: string)
    | GInReserve

  function Classify(stage: string, fault: Fault): Outcome {
    if DeadlineExceeded in fault.kinds then TimedOut
    else if ContextCanceled in fault.kinds then Cancelled
    else Failed(stage + ": " + fault.text)
  }

  function ReserveOutcome(answer: Option<Fault>): Outcome {
    if answer.None? then Reserved
    else if InsufficientCapacity in answer.value.kinds then RejectedCapacity
    else if ExceedMaxReserveQuantity in answer.value.kinds then RejectedQuota
    else Classify("reserve", answer.value)
  }

  /** What a context answers once it is done. */
  function ContextErr(canceled: bool): Fault {
    if canceled then Fault({ContextCanceled}, "context canceled")
    else Fault({DeadlineExceeded}, "context deadline exceeded")
  }

  function Terminal(o: Outcome): Gauge {
    match o
    case Reserved => GReserved
    case RejectedCapacity => GRejectedCapacity
    case RejectedQuota => GRejectedQuota
    case TimedOut => GTimedOut
    case Cancelled => GCancelled
    case Reaped => GReaped
    case Failed(_) => GErrors
  }

  // ---- One user, step by step ----

  // A phase lies between two visible actions of a user's goroutine: a counter is read and changed in one
  // atomic step, and an answer arrives in another. Ending is decided but not counted; Counted(Failed) has
  // still to enter the error map; Leaving may still hold a slot.
  datatype Phase =
    | Unspawned
    | Spawned
    | Enqueueing
    | Answered(whitelistTTL: int)
    | Waiting
    | LetIn
    | Choosing
    | Reserving
    | Ending(stage: Stage, outcome: Outcome)
    | Counted(stage: Stage, outcome: Outcome)
    | Leaving(stage: Stage, outcome: Outcome)
    | Gone(stage: Stage, outcome: Outcome)

  datatype Event =
    | Begin
    | EnqueueReturns(answer: Result<int, Fault>)
    | CountEnqueued
    | PollReturns(status: Result<QueueStatus, Fault>)
    | CountAdmitted
    | ContextDone(canceled: bool)
    | TakeSlot
    | ReserveReturns(failure: Option<Fault>)
    | CountOutcome
    | RecordError
    | Leave

  predicate Can(p: Phase, e: Event) {
    match e
    case Begin => p.Spawned?
    case EnqueueReturns(_) => p.Enqueueing?
    case CountEnqueued => p.Answered?
    case PollReturns(_) => p.Waiting?
    case CountAdmitted => p.LetIn?
    case ContextDone(_) => p.Waiting? || p.Choosing?
    case TakeSlot => p.Choosing?
    case ReserveReturns(_) => p.Reserving?
    case CountOutcome => p.Ending?
    case RecordError => p.Counted?
    case Leave => p.Leaving?
  }

  function AfterPoll(status: Result<QueueStatus, Fault>): Phase {
    match status
    case Err(f) => Ending(AtPoll, Classify("poll", f))
    case Ok(q) =>
      if q.whitelistTTL > 0 then LetIn
      else if !q.alive then Ending(AtPoll, Reaped)
      else if q.soldOut then Ending(AtPoll, RejectedCapacity)
      else Waiting
  }

  function After(p: Phase, e: Event): Phase
    requires Can(p, e)
  {
    match e
    case Begin => Enqueueing
    case EnqueueReturns(answer) =>
      if answer.Ok? then Answered(answer.value) else Ending(AtEnqueue, Classify("enqueue", answer.error))
    case CountEnqueued => if p.whitelistTTL <= 0 then Waiting else LetIn
    case PollReturns(status) => AfterPoll(status)
    case CountAdmitted => Choosing
    case ContextDone(canceled) =>
      if p.Waiting? then Ending(AtPoll, Classify("poll", ContextErr(canceled)))
      else Ending(AtSemaphore, Classify("reserve-queue", ContextErr(canceled)))
    case TakeSlot => Reserving
    case ReserveReturns(failure) => Ending(AtReserve, ReserveOutcome(failure))
    case CountOutcome => if p.outcome.Failed? then Counted(p.stage, p.outcome) else Leaving(p.stage, p.outcome)
    case RecordError => Leaving(p.stage, p.outcome)
    case Leave => Gone(p.stage, p.outcome)
  }

  /** The one gauge a step moves, and by how much. */
  function Moves(p: Phase, e: Event): Option<(Gauge, int)>
    requires Can(p, e)
  {
    match e
    case Begin => Some((GStarted, 1))
    case CountEnqueued => Some((GEnqueued, 1))
    case CountAdmitted => Some((GAdmitted, 1))
    case TakeSlot => Some((GInReserve, 1))
    case CountOutcome => Some((Terminal(p.outcome), 1))
    case RecordError => if p.outcome.Failed? then Some((GCause(p.outcome.cause), 1)) else None
    case Leave => if p.stage.AtReserve? then Some((GInReserve, -1)) else None
    case _ => None
  }

  predicate Ended(p: Phase) {
    p.Counted? || p.Leaving? || p.Gone?
  }

  /** Whether a user in this phase is one of those a gauge stands for. */
  predicate Marked(p: Phase, g: Gauge) {
    match g
    case GStarted => !p.Unspawned? && !p.Spawned?
    case GEnqueued =>
      || p.Waiting? || p.LetIn? || p.Choosing? || p.Reserving?
      || ((p.Ending? || Ended(p)) && !p.stage.AtEnqueue?)
    case GAdmitted =>
      || p.Choosing? || p.Reserving?
      || ((p.Ending? || Ended(p)) && (p.stage.AtSemaphore? || p.stage.AtReserve?))
    case GCause(l) => (p.Leaving? || p.Gone?) && p.outcome == Failed(l)
    case GInReserve => p.Reserving? || ((p.Ending? || p.Counted? || p.Leaving?) && p.stage.AtReserve?)
    case _ => Ended(p) && Terminal(p.outcome) == g
  }

  // ---- All users of a run ----

  // Whether the event's cap has been set, for a run that sets one.
  datatype Setup = Unset | Ready | Refused

  datatype Fleet = Fleet(
    workers: nat,
    setup: Setup,
    users: seq<Phase>,
    launched: nat,
    launching: bool,
    cancelled: bool,
    tally: map<Gauge, int>,
    returned: bool)

  datatype Action =
    | SetCap(ok: bool)
    | Launch
    | StopLaunching
    | Cancel
    | Move(user: nat, event: Event)
    | Return

  function Reading(tally: map<Gauge, int>, g: Gauge): int {
    if g in tally then tally[g] else 0
  }

  /** NewRunner's clamp. */
  function Workers(configured: int, users: nat): (w: nat)
    ensures w <= users && (0 < users ==> 0 < w)
    ensures 0 < configured ==> w == Min(configured, users)
  {
    Min(if configured <= 0 then DEFAULT_WORKERS else configured, users)
  }

  ghost predicate Init(s: Fleet) {
    && (exists configured :: s.workers == Workers(configured, |s.users|))
    && (forall i | 0 <= i < |s.users| :: s.users[i].Unspawned?)
    && s.launched == 0 && s.launching && !s.cancelled && s.tally == map[] && !s.returned && !s.setup.Refused?
  }

  predicate Enabled(s: Fleet, a: Action) {
    match a
    case SetCap(_) => s.setup.Unset?
    case Launch => s.setup.Ready? && s.launching && s.launched < |s.users|
    case StopLaunching => s.setup.Ready? && s.launching && (s.launched == |s.users| || s.cancelled)
    case Cancel => true
    case Move(i, e) =>
      && i < |s.users| && Can(s.users[i], e)
      && (e == ContextDone(true) ==> s.cancelled)
      && (e.TakeSlot? ==> Reading(s.tally, GInReserve) < s.workers)
    case Return => !s.launching && forall i | 0 <= i < s.launched <= |s.users| :: s.users[i].Gone?
  }

  function Next(s: Fleet, a: Action): Fleet
    requires Enabled(s, a)
  {
    match a
    case SetCap(ok) => if ok then s.(setup := Ready) else s.(setup := Refused, launching := false, returned := true)
    case Launch => s.(users := s.users[s.launched := Spawned], launched := s.launched + 1)
    case StopLaunching => s.(launching := false)
    case Cancel => s.(cancelled := true)
    case Move(i, e) =>
      var moves := Moves(s.users[i], e);
      s.(users := s.users[i := After(s.users[i], e)],
         tally := if moves.None? then s.tally
                  else s.tally[moves.value.0 := Reading(s.tally, moves.value.0) + moves.value.1])
    case Return => s.(returned := true)
  }

  ghost predicate StepAt(run: seq<Fleet>, acts: seq<Action>, i: nat)
    requires i < |acts| && |run| == |acts| + 1
  {
    Enabled(run[i], acts[i]) && run[i + 1] == Next(run[i], acts[i])
  }

  ghost predicate IsRun(run: seq<Fleet>, acts: seq<Action>) {
    && |run| == |acts| + 1 && Init(run[0])
    && forall i: nat | i < |acts| :: StepAt(run, acts, i)
  }

  // ---- Counting ----

  function Mark(p: Phase, g: Gauge): nat {
    if Marked(p, g) then 1 else 0
  }

  function Count(users: seq<Phase>, g: Gauge): nat {
    if users == [] then 0 else Mark(users[0], g) + Count(users[1..], g)
  }

  lemma {:induction false} CountUpdate(users: seq<Phase>, i: nat, p: Phase, g: Gauge)
    requires i < |users|
    ensures Count(users[i := p], g) ==
              Count(users, g) - (if Marked(users[i], g) then 1 else 0) + (if Marked(p, g) then 1 else 0)
  {
    if i == 0 {
      assert users[0 := p][1..] == users[1..];
    } else {
      CountUpdate(users[1..], i - 1, p, g);
      assert users[i := p][1..] == users[1..][i - 1 := p];
    }
  }

  lemma {:induction false} CountNone(users: seq<Phase>, g: Gauge)
    requires forall i | 0 <= i < |users| :: !Marked(users[i], g)
    ensures Count(users, g) == 0
  {
    if users != [] { CountNone(users[1..], g); }
  }

  lemma {:induction false} CountWithin(users: seq<Phase>, g: Gauge, h: Gauge)
    requires forall p :: Marked(p, g) ==> Marked(p, h)
    ensures Count(users, g) <= Count(users, h)
  {
    if users != [] { CountWithin(users[1..], g, h); }
  }

  lemma {:induction false} CountPrefix(users: seq<Phase>, k: nat, g: Gauge)
    requires k <= |users| && forall i | 0 <= i < |users| :: Marked(users[i], g) ==> i < k
    ensures Count(users, g) <= k
    ensures (forall i | 0 <= i < k :: Marked(users[i], g)) ==> Count(users, g) == k
  {
    if users != [] {
      if k == 0 { CountNone(users, g); } else { CountPrefix(users[1..], k - 1, g); }
    }
  }

  lemma {:induction false} CountFinds(users: seq<Phase>, g: Gauge) returns (i: nat)
    requires 0 < Count(users, g)
    ensures i < |users| && Marked(users[i], g)
  {
    if Marked(users[0], g) { return 0; }
    i := CountFinds(users[1..], g);
    i := i + 1;
  }

  function CountEnded(users: seq<Phase>): nat {
    if users == [] then 0 else (if Ended(users[0]) then 1 else 0) + CountEnded(users[1..])
  }

  function Terminals(tally: map<Gauge, int>): int {
    Reading(tally, GReserved) + Reading(tally, GRejectedCapacity) + Reading(tally, GRejectedQuota)
    + Reading(tally, GTimedOut) + Reading(tally, GCancelled) + Reading(tally, GReaped) + Reading(tally, GErrors)
  }

  /** A user whose outcome is counted is marked by one terminal counter, any other user by none. */
  lemma OneOutcome(p: Phase)
    ensures Mark(p, GReserved) + Mark(p, GRejectedCapacity) + Mark(p, GRejectedQuota) + Mark(p, GTimedOut)
            + Mark(p, GCancelled) + Mark(p, GReaped) + Mark(p, GErrors) == if Ended(p) then 1 else 0
    ensures Ended(p) ==> Marked(p, GStarted)
    ensures p.Unspawned? ==> !Marked(p, GStarted)
  {
  }

  lemma {:induction false} EndedOnce(users: seq<Phase>)
    ensures CountEnded(users) ==
              Count(users, GReserved) + Count(users, GRejectedCapacity) + Count(users, GRejectedQuota)
              + Count(users, GTimedOut) + Count(users, GCancelled) + Count(users, GReaped) + Count(users, GErrors)
    ensures CountEnded(users) <= Count(users, GStarted)
    ensures (forall i | 0 <= i < |users| :: Ended(users[i]) || users[i].Unspawned?) ==>
              CountEnded(users) == Count(users, GStarted)
  {
    if users != [] {
      OneOutcome(users[0]);
      EndedOnce(users[1..]);
    }
  }

  // ---- What every run keeps ----

  ghost predicate Exact(s: Fleet) {
    && s.launched <= |s.users|
    && (forall i | 0 <= i < |s.users| :: s.users[i].Unspawned? <==> s.launched <= i)
    && (forall g :: Reading(s.tally, g) == Count(s.users, g))
    && Reading(s.tally, GInReserve) <= s.workers <= |s.users|
    && (0 < |s.users| ==> 0 < s.workers)
    && (s.returned ==> !s.launching && forall i | 0 <= i < s.launched :: s.users[i].Gone?)
    && (!s.setup.Ready? ==> s.launched == 0) && (s.setup.Unset? <==> s.launching && !s.setup.Ready?)
  }

  lemma MoveMarks(p: Phase, e: Event, g: Gauge)
    requires Can(p, e)
    ensures (if Marked(After(p, e), g) then 1 else 0) - (if Marked(p, g) then 1 else 0) ==
              (var m := Moves(p, e); if m.Some? && m.value.0 == g then m.value.1 else 0)
  {
  }

  lemma MoveCounts(s: Fleet, i: nat, e: Event, g: Gauge)
    requires i < |s.users| && Enabled(s, Move(i, e))
    ensures Reading(Next(s, Move(i, e)).tally, g) - Reading(s.tally, g) ==
              (if Marked(After(s.users[i], e), g) then 1 else 0) - (if Marked(s.users[i], g) then 1 else 0)
  {
    MoveMarks(s.users[i], e, g);
  }

  lemma TallyKept(s: Fleet, a: Action, g: Gauge)
    requires Exact(s) && Enabled(s, a)
    ensures Reading(Next(s, a).tally, g) == Count(Next(s, a).users, g)
  {
    match a
    case Launch => CountUpdate(s.users, s.launched, Spawned, g);
    case Move(i, e) =>
      CountUpdate(s.users, i, After(s.users[i], e), g);
      MoveCounts(s, i, e, g);
    case _ =>
  }

  lemma SlotsKept(s: Fleet, a: Action)
    requires Exact(s) && Enabled(s, a)
    ensures Reading(Next(s, a).tally, GInReserve) <= s.workers
  {
    if a.Move? { MoveCounts(s, a.user, a.event, GInReserve); }
  }

  lemma PhasesKept(s: Fleet, a: Action)
    requires Exact(s) && Enabled(s, a)
    ensures var t := Next(s, a);
      && t.launched <= |t.users| == |s.users| && t.workers == s.workers
      && (forall i | 0 <= i < |t.users| :: t.users[i].Unspawned? <==> t.launched <= i)
      && (t.returned ==> !t.launching && forall i | 0 <= i < t.launched :: t.users[i].Gone?)
      && (!t.setup.Ready? ==> t.launched == 0) && (t.setup.Unset? <==> t.launching && !t.setup.Ready?)
  {
  }

  lemma ExactKept(s: Fleet, a: Action)
    requires Exact(s) && Enabled(s, a)
    ensures Exact(Next(s, a))
  {
    PhasesKept(s, a);
    SlotsKept(s, a);
    forall g ensures Reading(Next(s, a).tally, g) == Count(Next(s, a).users, g) { TallyKept(s, a, g); }
  }

  lemma {:induction false} ExactHolds(run: seq<Fleet>, acts: seq<Action>, n: nat)
    requires IsRun(run, acts) && n < |run|
    ensures Exact(run[n])
  {
    if n == 0 {
      forall g ensures Count(run[0].users, g) == 0 { CountNone(run[0].users, g); }
    } else {
      ExactHolds(run, acts, n - 1);
      assert StepAt(run, acts, n - 1);
      ExactKept(run[n - 1], acts[n - 1]);
    }
  }

  /** At every moment each counter, and each entry of the error map, is the number of users it stands for; the
      counters are ordered; and the users inside Reserve fit the semaphore. */
  lemma CountersExact(run: seq<Fleet>, acts: seq<Action>, n: nat)
    requires IsRun(run, acts) && n < |run|
    ensures forall g :: Reading(run[n].tally, g) == Count(run[n].users, g)
    ensures Terminals(run[n].tally) <= Reading(run[n].tally, GStarted) <= run[n].launched
    ensures Reading(run[n].tally, GAdmitted) <= Reading(run[n].tally, GEnqueued) <= Reading(run[n].tally, GStarted)
    ensures Count(run[n].users, GInReserve) <= run[n].workers
  {
    ExactHolds(run, acts, n);
    var users := run[n].users;
    EndedOnce(users);
    CountPrefix(users, run[n].launched, GStarted);
    CountWithin(users, GAdmitted, GEnqueued);
    CountWithin(users, GEnqueued, GStarted);
  }

  lemma {:induction false} AllLaunched(run: seq<Fleet>, acts: seq<Action>, n: nat)
    requires IsRun(run, acts) && n < |run|
    ensures !run[n].launching && !run[n].cancelled && run[n].setup.Ready? ==> run[n].launched == |run[n].users|
  {
    if n > 0 {
      AllLaunched(run, acts, n - 1);
      assert StepAt(run, acts, n - 1);
      ExactHolds(run, acts, n - 1);
    }
  }

  /** When Run returns, the seven outcomes add up to started, which is every user that was launched; nobody
      holds a slot. That is every user, unless the run was cancelled, or nobody at all if the cap could not be
      set. */
  lemma FullAccounting(run: seq<Fleet>, acts: seq<Action>, n: nat)
    requires IsRun(run, acts) && n < |run| && run[n].returned
    ensures Terminals(run[n].tally) == Reading(run[n].tally, GStarted) == run[n].launched
    ensures Reading(run[n].tally, GInReserve) == 0
    ensures run[n].setup.Ready? || run[n].setup.Refused?
    ensures run[n].setup.Refused? ==> run[n].launched == 0
    ensures run[n].setup.Ready? && !run[n].cancelled ==> run[n].launched == |run[n].users|
  {
    ExactHolds(run, acts, n);
    EndedOnce(run[n].users);
    CountPrefix(run[n].users, run[n].launched, GStarted);
    CountNone(run[n].users, GInReserve);
    AllLaunched(run, acts, n);
  }

  lemma EndedKept(s: Fleet, a: Action, i: nat)
    requires Exact(s) && Enabled(s, a) && i < |s.users| && Ended(s.users[i])
    ensures var t := Next(s, a);
      && i < |t.users| && Ended(t.users[i])
      && t.users[i].stage == s.users[i].stage && t.users[i].outcome == s.users[i].outcome
  {
  }

  /** Once a user's outcome is counted it never changes: the user is in exactly one terminal counter from then
      on, and nothing the others do moves it to another. */
  lemma {:induction false} OutcomeIsFinal(run: seq<Fleet>, acts: seq<Action>, n: nat, m: nat, i: nat)
    requires IsRun(run, acts) && n <= m < |run| && i < |run[n].users| && Ended(run[n].users[i])
    ensures i < |run[m].users| && Ended(run[m].users[i])
    ensures run[m].users[i].stage == run[n].users[i].stage && run[m].users[i].outcome == run[n].users[i].outcome
  {
    if n < m {
      OutcomeIsFinal(run, acts, n, m - 1, i);
      assert StepAt(run, acts, m - 1);
      ExactHolds(run, acts, m - 1);
      EndedKept(run[m - 1], acts[m - 1], i);
    }
  }

  /** A step of the run itself, as opposed to a user giving up or the run being cancelled. */
  predicate Progress(a: Action) {
    !a.Cancel? && (a.Move? ==> !a.event.ContextDone?)
  }

  predicate Blocked(s: Fleet, p: Phase) {
    p.Choosing? && s.workers <= Reading(s.tally, GInReserve)
  }

  lemma CanProceed(s: Fleet, i: nat) returns (a: Action)
    requires i < |s.users| && !s.users[i].Unspawned? && !s.users[i].Gone? && !Blocked(s, s.users[i])
    ensures Enabled(s, a) && Progress(a)
  {
    a := Move(i, match s.users[i]
                 case Spawned => Begin
                 case Enqueueing => EnqueueReturns(Ok(0))
                 case Answered(_) => CountEnqueued
                 case Waiting => PollReturns(Ok(QueueStatus(1, true, false)))
                 case LetIn => CountAdmitted
                 case Choosing => TakeSlot
                 case Reserving => ReserveReturns(None)
                 case Ending(_, _) => CountOutcome
                 case Counted(_, _) => RecordError
                 case _ => Leave);
  }

  /** The semaphore never deadlocks: until Run has returned, some step other than a cancellation or a timeout
      is possible, given that calls get answered. */
  lemma NeverStuck(run: seq<Fleet>, acts: seq<Action>, n: nat)
    requires IsRun(run, acts) && n < |run| && !run[n].returned
    ensures exists a :: Enabled(run[n], a) && Progress(a)
  {
    var s := run[n];
    ExactHolds(run, acts, n);
    if i: nat :| i < |s.users| && !s.users[i].Unspawned? && !s.users[i].Gone? {
      var j := i;
      if Blocked(s, s.users[i]) { j := CountFinds(s.users, GInReserve); }
      var a := CanProceed(s, j);
    } else {
      var a := if s.setup.Unset? then SetCap(true) else if !s.launching then Return
               else if s.launched < |s.users| then Launch else StopLaunching;
      assert Enabled(s, a) && Progress(a);
    }
  }

  // ---- One user's whole call, as the source writes it ----

  // What the system answers one user: polls come back until the user's context ends with expiry; grant is
  // None when the semaphore lets the user in before that.
  datatype Script = Script(
    enqueue: Result<int, Fault>,
    polls: seq<Result<QueueStatus, Fault>>,
    expiry: bool,
    grant: Option<bool>,
    reserve: Option<Fault>)

  predicate KeepsWaiting(poll: Result<QueueStatus, Fault>) {
    poll.Ok? && poll.value.whitelistTTL <= 0 && poll.value.alive && !poll.value.soldOut
  }

  /** How waitForAdmission ends: None when admitted. */
  function Wait(polls: seq<Result<QueueStatus, Fault>>, expiry: bool): Option<Outcome> {
    if polls == [] then Some(Classify("poll", ContextErr(expiry)))
    else
      match AfterPoll(polls[0])
      case LetIn => None
      case Ending(_, o) => Some(o)
      case _ => Wait(polls[1..], expiry)
  }

  function Journey(s: Script): (Stage, Outcome) {
    if s.enqueue.Err? then (AtEnqueue, Classify("enqueue", s.enqueue.error))
    else
      var waited := if s.enqueue.value <= 0 then Wait(s.polls, s.expiry) else None;
      if waited.Some? then (AtPoll, waited.value)
      else if s.grant.Some? then (AtSemaphore, Classify("reserve-queue", ContextErr(s.grant.value)))
      else (AtReserve, ReserveOutcome(s.reserve))
  }

  /** What becomes of a call that fails at a stage, by the kinds its error matches: a deadline first, then a
      cancellation, else the error is kept under the stage's name. */
  function FailedAt(prefix: string, fault: Fault): Outcome {
    if DeadlineExceeded in fault.kinds then TimedOut
    else if ContextCanceled in fault.kinds then Cancelled
    else Failed(prefix + fault.text)
  }

  /** The first poll that does not say "keep waiting" decides. */
  lemma {:induction false} FirstAnswerDecides(polls: seq<Result<QueueStatus, Fault>>, expiry: bool, k: nat)
    requires k <= |polls| && forall j | 0 <= j < k :: KeepsWaiting(polls[j])
    requires k < |polls| ==> !KeepsWaiting(polls[k])
    ensures k == |polls| ==> Wait(polls, expiry) == Some(if expiry then Cancelled else TimedOut)
    ensures k < |polls| && polls[k].Err? ==> Wait(polls, expiry) == Some(FailedAt("poll: ", polls[k].error))
    ensures k < |polls| && polls[k].Ok? ==>
      Wait(polls, expiry) ==
        if polls[k].value.whitelistTTL > 0 then None
        else if !polls[k].value.alive then Some(Reaped)
        else Some(RejectedCapacity)
  {
    assert "poll" + ": " == "poll: ";
    if 0 < k { FirstAnswerDecides(polls[1..], expiry, k - 1); }
  }

  predicate LetsIn(s: Script) {
    s.enqueue.Ok? && (0 < s.enqueue.value || Wait(s.polls, s.expiry).None?)
  }

  /** How a call ends, and which errors count as what: a reserve refused for capacity or for the quota is a
      rejection of that kind, the capacity first should an error match both. */
  lemma JourneyEnds(s: Script)
    ensures s.enqueue.Err? ==> Journey(s) == (AtEnqueue, FailedAt("enqueue: ", s.enqueue.error))
    ensures s.enqueue.Ok? && !LetsIn(s) ==> Journey(s) == (AtPoll, Wait(s.polls, s.expiry).value)
    ensures LetsIn(s) && s.grant.Some? ==> Journey(s) == (AtSemaphore, if s.grant.value then Cancelled else TimedOut)
    ensures LetsIn(s) && s.grant.None? ==>
      Journey(s) == (AtReserve,
        if s.reserve.None? then Reserved
        else if InsufficientCapacity in s.reserve.value.kinds then RejectedCapacity
        else if ExceedMaxReserveQuantity in s.reserve.value.kinds then RejectedQuota
        else FailedAt("reserve: ", s.reserve.value))
  {
    assert "enqueue" + ": " == "enqueue: " && "reserve" + ": " == "reserve: ";
  }

  predicate Reaches(p: Phase, events: seq<Event>, q: Phase)
    decreases |events|
  {
    if events == [] then p == q else Can(p, events[0]) && Reaches(After(p, events[0]), events[1..], q)
  }

  function PollEvents(polls: seq<Result<QueueStatus, Fault>>, expiry: bool): seq<Event> {
    if polls == [] then [ContextDone(expiry)]
    else if AfterPoll(polls[0]).Waiting? then [PollReturns(polls[0])] + PollEvents(polls[1..], expiry)
    else [PollReturns(polls[0])]
  }

  lemma Prepend(p: Phase, e: Event, rest: seq<Event>, q: Phase)
    requires Can(p, e) && Reaches(After(p, e), rest, q)
    ensures Reaches(p, [e] + rest, q)
  {
    assert ([e] + rest)[1..] == rest;
  }

  lemma {:induction false} ReachesAppend(p: Phase, a: seq<Event>, q: Phase, b: seq<Event>, r: Phase)
    requires Reaches(p, a, q) && Reaches(q, b, r)
    ensures Reaches(p, a + b, r)
    decreases |a|
  {
    if a == [] {
      assert a + b == b;
    } else {
      ReachesAppend(After(p, a[0]), a[1..], q, b, r);
      assert (a + b)[1..] == a[1..] + b;
    }
  }

  lemma {:induction false} PollsPlayed(polls: seq<Result<QueueStatus, Fault>>, expiry: bool)
    ensures Reaches(Waiting, PollEvents(polls, expiry),
                    var w := Wait(polls, expiry); if w.None? then LetIn else Ending(AtPoll, w.value))
  {
    var w := Wait(polls, expiry);
    var goal := if w.None? then LetIn else Ending(AtPoll, w.value);
    if polls == [] {
      assert Reaches(goal, [], goal);
    } else if AfterPoll(polls[0]).Waiting? {
      PollsPlayed(polls[1..], expiry);
      var rest := PollEvents(polls[1..], expiry);
      assert ([PollReturns(polls[0])] + rest)[1..] == rest;
    } else {
      assert Reaches(goal, [], goal);
    }
  }

  function LastEvents(o: Outcome): seq<Event> {
    if o.Failed? then [CountOutcome, RecordError, Leave] else [CountOutcome, Leave]
  }

  lemma EndPlayed(stage: Stage, o: Outcome)
    ensures Reaches(Ending(stage, o), LastEvents(o), Gone(stage, o))
  {
    assert Reaches(Gone(stage, o), [], Gone(stage, o));
    assert Reaches(Leaving(stage, o), [Leave], Gone(stage, o));
    if o.Failed? {
      assert Reaches(Counted(stage, o), [RecordError, Leave], Gone(stage, o));
    }
  }

  function Asks(s: Script): seq<Event> {
    [Begin] + ([EnqueueReturns(s.enqueue)] + (if s.enqueue.Err? then [] else [CountEnqueued]))
  }

  function Polls(s: Script): seq<Event> {
    if s.enqueue.Err? || s.enqueue.value > 0 then [] else PollEvents(s.polls, s.expiry)
  }

  function Turn(s: Script): seq<Event> {
    match Journey(s).0
    case AtSemaphore => [CountAdmitted] + [ContextDone(s.grant.value)]
    case AtReserve => [CountAdmitted] + ([TakeSlot] + [ReserveReturns(s.reserve)])
    case _ => []
  }

  /** The events of a whole call. */
  function Played(s: Script): seq<Event> {
    Asks(s) + Polls(s) + Turn(s) + LastEvents(Journey(s).1)
  }

  function Placed(s: Script): Phase {
    if s.enqueue.Err? then Ending(AtEnqueue, Classify("enqueue", s.enqueue.error))
    else if s.enqueue.value <= 0 then Waiting else LetIn
  }

  lemma AsksPlayed(s: Script)
    ensures Reaches(Spawned, Asks(s), Placed(s))
  {
    assert Reaches(Placed(s), [], Placed(s));
    var counts := if s.enqueue.Err? then [] else [CountEnqueued];
    if s.enqueue.Ok? { Prepend(Answered(s.enqueue.value), CountEnqueued, [], Placed(s)); }
    Prepend(Enqueueing, EnqueueReturns(s.enqueue), counts, Placed(s));
    Prepend(Spawned, Begin, [EnqueueReturns(s.enqueue)] + counts, Placed(s));
  }

  lemma TurnPlayed(s: Script)
    requires Journey(s).0.AtSemaphore? || Journey(s).0.AtReserve?
    ensures Reaches(LetIn, Turn(s), Ending(Journey(s).0, Journey(s).1))
  {
    var goal := Ending(Journey(s).0, Journey(s).1);
    assert Reaches(goal, [], goal);
    if s.grant.Some? {
      Prepend(Choosing, ContextDone(s.grant.value), [], goal);
      Prepend(LetIn, CountAdmitted, [ContextDone(s.grant.value)], goal);
    } else {
      Prepend(Reserving, ReserveReturns(s.reserve), [], goal);
      Prepend(Choosing, TakeSlot, [ReserveReturns(s.reserve)], goal);
      Prepend(LetIn, CountAdmitted, [TakeSlot] + [ReserveReturns(s.reserve)], goal);
    }
  }

  /** The call that a user makes alone takes it through the interleaved machine's steps to the same end. */
  lemma JourneyIsPlayed(s: Script)
    ensures Reaches(Spawned, Played(s), Gone(Journey(s).0, Journey(s).1))
  {
    var (stage, o) := Journey(s);
    var end := Ending(stage, o);
    var settled := if stage.AtEnqueue? || stage.AtPoll? then end else LetIn;
    assert Reaches(settled, [], settled);
    AsksPlayed(s);
    PollsPlayed(s.polls, s.expiry);
    ReachesAppend(Spawned, Asks(s), Placed(s), Polls(s), settled);
    if settled == LetIn { TurnPlayed(s); }
    ReachesAppend(Spawned, Asks(s) + Polls(s), settled, Turn(s), end);
    EndPlayed(stage, o);
    ReachesAppend(Spawned, Asks(s) + Polls(s) + Turn(s), end, LastEvents(o), Gone(stage, o));
  }

  // ---- that call inside a fleet ----

  predicate BeforeSlot(p: Phase) {
    p.Unspawned? || p.Spawned? || p.Enqueueing? || p.Answered? || p.Waiting? || p.LetIn? || p.Choosing?
  }

  /** The fleet's own steps, one user's events in a row, every guard met. */
  ghost predicate Drives(s: Fleet, i: nat, events: seq<Event>, s': Fleet)
    decreases |events|
  {
    if events == [] then s' == s
    else Enabled(s, Move(i, events[0])) && Drives(Next(s, Move(i, events[0])), i, events[1..], s')
  }

  lemma SlotUntaken(s: Fleet, i: nat, e: Event)
    requires i < |s.users| && Enabled(s, Move(i, e)) && BeforeSlot(After(s.users[i], e))
    ensures BeforeSlot(s.users[i])
    ensures Reading(Next(s, Move(i, e)).tally, GInReserve) == Reading(s.tally, GInReserve)
  {
  }

  /** What one user's steps leave: its phase, what the gauges stand for, and nothing else. */
  ghost predicate MovedTo(s: Fleet, i: nat, q: Phase, s': Fleet)
    requires i < |s.users|
  {
    && s' == s.(users := s.users[i := q], tally := s'.tally)
    && forall g :: Reading(s'.tally, g) - Reading(s.tally, g) ==
         (if Marked(q, g) then 1 else 0) - (if Marked(s.users[i], g) then 1 else 0)
  }

  lemma OneMove(s: Fleet, i: nat, e: Event)
    requires i < |s.users| && Enabled(s, Move(i, e))
    ensures MovedTo(s, i, After(s.users[i], e), Next(s, Move(i, e)))
  {
    forall g { MoveCounts(s, i, e, g); }
  }

  lemma MovesOn(s: Fleet, i: nat, p: Phase, s1: Fleet, q: Phase, s': Fleet)
    requires i < |s.users| && MovedTo(s, i, p, s1) && MovedTo(s1, i, q, s')
    ensures MovedTo(s, i, q, s')
  {
    assert s.users[i := p][i := q] == s.users[i := q];
  }

  lemma {:induction false} FleetFollows(s: Fleet, i: nat, events: seq<Event>, q: Phase)
    requires i < |s.users| && Reaches(s.users[i], events, q)
    requires BeforeSlot(s.users[i]) && TakeSlot in events ==> Reading(s.tally, GInReserve) < s.workers
    requires s.cancelled || ContextDone(true) !in events
    ensures exists s' :: Drives(s, i, events, s') && MovedTo(s, i, q, s')
    decreases |events|
  {
    if events == [] {
      assert s.users[i := q] == s.users;
      assert Drives(s, i, events, s) && MovedTo(s, i, q, s);
    } else {
      var e := events[0];
      assert e in events && Enabled(s, Move(i, e));
      var s1 := Next(s, Move(i, e));
      OneMove(s, i, e);
      if BeforeSlot(s1.users[i]) { SlotUntaken(s, i, e); }
      FleetFollows(s1, i, events[1..], q);
      var s' :| Drives(s1, i, events[1..], s') && MovedTo(s1, i, q, s');
      MovesOn(s, i, s1.users[i], s1, q, s');
      assert Drives(s, i, events, s');
    }
  }

  lemma {:induction false} PollsTakeNoSlot(polls: seq<Result<QueueStatus, Fault>>, expiry: bool)
    ensures TakeSlot !in PollEvents(polls, expiry)
  {
    if polls != [] { PollsTakeNoSlot(polls[1..], expiry); }
  }

  lemma SlotForReserve(s: Script)
    ensures TakeSlot in Played(s) ==> Journey(s).0.AtReserve?
  {
    PollsTakeNoSlot(s.polls, s.expiry);
    assert TakeSlot !in Asks(s) && TakeSlot !in LastEvents(Journey(s).1);
    assert Played(s) == Asks(s) + Polls(s) + Turn(s) + LastEvents(Journey(s).1);
  }

  /** A user who has been launched can make that whole call in any fleet, whatever the others are doing, if a slot
      is free for a call that takes one and the run is cancelled for one that is told so. It ends as the call says,
      and every gauge moves by exactly what that end stands for. */
  lemma JourneyInFleet(s: Fleet, i: nat, script: Script)
    requires i < |s.users| && s.users[i].Spawned?
    requires Journey(script).0.AtReserve? ==> Reading(s.tally, GInReserve) < s.workers
    requires ContextDone(true) in Played(script) ==> s.cancelled
    ensures var (stage, o) := Journey(script);
            exists s' :: Drives(s, i, Played(script), s') && MovedTo(s, i, Gone(stage, o), s')
  {
    JourneyIsPlayed(script);
    SlotForReserve(script);
    FleetFollows(s, i, Played(script), Gone(Journey(script).0, Journey(script).1));
  }

  // The runner's fields as one value.
  datatype Tally = Tally(
    started: nat, enqueued: nat, admitted: nat,
    reserved: nat, rejectedCapacity: nat, rejectedQuota: nat, timedOut: nat, cancelled: nat, reaped: nat, errors: nat,
    errorCounts: map<string, nat>,
    inReserve: nat)

  function Read(t: Tally, g: Gauge): nat {
    match g
    case GStarted => t.started
    case GEnqueued => t.enqueued
    case GAdmitted => t.admitted
    case GReserved => t.reserved
    case GRejectedCapacity => t.rejectedCapacity
    case GRejectedQuota => t.rejectedQuota
    case GTimedOut => t.timedOut
    case GCancelled => t.cancelled
    case GReaped => t.reaped
    case GErrors => t.errors
    case GCause(c) => if c in t.errorCounts then t.errorCounts[c] else 0
    case GInReserve => t.inReserve
  }

  function WithCause(counts: map<string, nat>, cause: string): map<string, nat> {
    counts[cause := (if cause in counts then counts[cause] else 0) + 1]
  }

  function Close(t: Tally, o: Outcome): Tally {
    match o
    case Reserved => t.(reserved := t.reserved + 1)
    case RejectedCapacity => t.(rejectedCapacity := t.rejectedCapacity + 1)
    case RejectedQuota => t.(rejectedQuota := t.rejectedQuota + 1)
    case TimedOut => t.(timedOut := t.timedOut + 1)
    case Cancelled => t.(cancelled := t.cancelled + 1)
    case Reaped => t.(reaped := t.reaped + 1)
    case Failed(cause) => t.(errors := t.errors + 1, errorCounts := WithCause(t.errorCounts, cause))
  }

  /** The tally once a user has come as far as stage. */
  function Passed(t: Tally, stage: Stage): Tally {
    t.(started := t.started + 1,
       enqueued := t.enqueued + (if stage.AtEnqueue? then 0 else 1),
       admitted := t.admitted + (if stage.AtSemaphore? || stage.AtReserve? then 1 else 0))
  }

  /** The tally after a user who ended at stage with o. */
  function Booked(t: Tally, stage: Stage, o: Outcome): Tally {
    Close(Passed(t, stage), o)
  }

  /** Which fields an end moves: started, each stage passed, and the one counter of the outcome, with the cause of
      an error. */
  lemma BookedFields(t: Tally, stage: Stage, o: Outcome)
    ensures var t' := Booked(t, stage, o);
            && t'.started == t.started + 1
            && t'.enqueued == t.enqueued + (if stage == AtEnqueue then 0 else 1)
            && t'.admitted == t.admitted + (if stage == AtEnqueue || stage == AtPoll then 0 else 1)
            && t'.reserved == t.reserved + (if o == Reserved then 1 else 0)
            && t'.rejectedCapacity == t.rejectedCapacity + (if o == RejectedCapacity then 1 else 0)
            && t'.rejectedQuota == t.rejectedQuota + (if o == RejectedQuota then 1 else 0)
            && t'.timedOut == t.timedOut + (if o == TimedOut then 1 else 0)
            && t'.cancelled == t.cancelled + (if o == Cancelled then 1 else 0)
            && t'.reaped == t.reaped + (if o == Reaped then 1 else 0)
            && t'.errors == t.errors + (if o.Failed? then 1 else 0)
            && t'.inReserve == t.inReserve
    ensures forall cause :: Read(Booked(t, stage, o), GCause(cause)) ==
              Read(t, GCause(cause)) + if o == Failed(cause) then 1 else 0
  {
  }

  /** A whole call moves every gauge by exactly what its end stands for in the interleaved machine. */
  lemma BookedMarks(t: Tally, stage: Stage, o: Outcome, g: Gauge)
    ensures Read(Booked(t, stage, o), g) == Read(t, g) + if Marked(Gone(stage, o), g) then 1 else 0
  {
  }

  /** NewRunner's poll interval: the configured one, or one that spreads the users' polls over the budget. */
  function PollMillis(users: nat, configured: int): int {
    var budgeted := users * 1000 / POLL_OPS_BUDGET;
    if 0 < configured then configured
    else if budgeted < DEFAULT_POLL_MS then DEFAULT_POLL_MS
    else if MAX_POLL_MS < budgeted then MAX_POLL_MS
    else budgeted
  }

  /** An interval of the runner's own choosing keeps the polls within the budget, up to the rounding of whole
      milliseconds, until the longest interval is reached. */
  lemma PollsWithinBudget(users: nat, configured: int)
    requires configured <= 0
    ensures var interval := PollMillis(users, configured);
            && DEFAULT_POLL_MS <= interval <= MAX_POLL_MS
            && (interval < MAX_POLL_MS ==> (users - 49) * 1000 <= POLL_OPS_BUDGET * interval)
  {
    assert users * 1000 / 50000 == users / 50;
  }

  datatype Transport = Unnamed | InProcess | HTTP

  datatype Config = Config(
    users: nat, quantity: nat, maxConcurrent: nat, workers: int, pollMillis: int, timeoutMillis: int,
    transport: Transport)

  class Runner {
    const config: Config
    const workers: nat
    const pollMillis: int
    const timeoutMillis: int
    const quantity: nat
    const transport: Transport

    var started: nat
    var enqueued: nat
    var admitted: nat
    var reserved: nat
    var rejectedCapacity: nat
    var rejectedQuota: nat
    var timedOut: nat
    var cancelled: nat
    var reaped: nat
    var errors: nat
    var errorCounts: map<string, nat>
    // len(reserveSem)
    var inReserve: nat

    ghost function Gauges(): Tally
      reads this
    {
      Tally(started, enqueued, admitted, reserved, rejectedCapacity, rejectedQuota, timedOut, cancelled, reaped, errors,
            errorCounts, inReserve)
    }

    /** NewRunner. */
    constructor (config: Config)
      ensures this.config == config && workers == Workers(config.workers, config.users)
      ensures Gauges() == Tally(0, 0, 0, 0, 0, 0, 0, 0, 0, 0, map[], 0)
      ensures pollMillis == PollMillis(config.users, config.pollMillis)
      ensures 0 < timeoutMillis && (0 < config.timeoutMillis ==> timeoutMillis == config.timeoutMillis)
      ensures config.timeoutMillis <= 0 ==> timeoutMillis == DEFAULT_TIMEOUT_MS
      ensures 0 < quantity && (0 < config.quantity ==> quantity == config.quantity)
      ensures config.quantity == 0 ==> quantity == 1
      ensures transport == if config.transport.Unnamed? then InProcess else config.transport
    {
      this.config := config;
      workers := Workers(config.workers, config.users);
      var interval := config.pollMillis;
      if interval <= 0 {
        interval := config.users * 1000 / POLL_OPS_BUDGET;
        if interval < DEFAULT_POLL_MS { interval := DEFAULT_POLL_MS; }
        if interval > MAX_POLL_MS { interval := MAX_POLL_MS; }
      }
      pollMillis := interval;
      timeoutMillis := if config.timeoutMillis <= 0 then DEFAULT_TIMEOUT_MS else config.timeoutMillis;
      quantity := if config.quantity == 0 then 1 else config.quantity;
      transport := if config.transport.Unnamed? then InProcess else config.transport;
      started, enqueued, admitted, reserved, rejectedCapacity, rejectedQuota := 0, 0, 0, 0, 0, 0;
      timedOut, cancelled, reaped, errors, errorCounts, inReserve := 0, 0, 0, 0, map[], 0;
    }

    method RecordError(stage: string, fault: Fault)
      modifies this`errors, this`errorCounts
      ensures Gauges() == Close(old(Gauges()), Failed(stage + ": " + fault.text))
    {
      errors := errors + 1;
      var cause := stage + ": " + fault.text;
      errorCounts := errorCounts[cause := (if cause in errorCounts then errorCounts[cause] else 0) + 1];
    }

    method ClassifyError(stage: string, fault: Fault)
      modifies this`timedOut, this`cancelled, this`errors, this`errorCounts
      ensures Gauges() == Close(old(Gauges()), Classify(stage, fault))
    {
      if DeadlineExceeded in fault.kinds {
        timedOut := timedOut + 1;
      } else if ContextCanceled in fault.kinds {
        cancelled := cancelled + 1;
      } else {
        RecordError(stage, fault);
      }
    }

    /** released says that the user's place was given back, which happens for the sold-out answer alone. */
    method WaitForAdmission(polls: seq<Result<QueueStatus, Fault>>, expiry: bool) returns (ok: bool, released: bool)
      modifies this`timedOut, this`cancelled, this`errors, this`errorCounts, this`reaped, this`rejectedCapacity
      ensures ok <==> Wait(polls, expiry).None?
      ensures released <==> Wait(polls, expiry) == Some(RejectedCapacity)
      ensures Gauges() == if ok then old(Gauges()) else Close(old(Gauges()), Wait(polls, expiry).value)
    {
      var i := 0;
      while true
        invariant i <= |polls|
        invariant Wait(polls[i..], expiry) == Wait(polls, expiry)
        invariant Gauges() == old(Gauges())
        decreases |polls| - i
      {
        if i == |polls| {
          ClassifyError("poll", ContextErr(expiry));
          return false, false;
        }
        match polls[i] {
          case Err(fault) =>
            ClassifyError("poll", fault);
            return false, false;
          case Ok(status) =>
            if status.whitelistTTL > 0 { return true, false; }
            if !status.alive {
              reaped := reaped + 1;
              return false, false;
            }
            if status.soldOut {
              rejectedCapacity := rejectedCapacity + 1;
              return false, true;
            }
        }
        assert polls[i..][1..] == polls[i + 1..];
        i := i + 1;
      }
    }

    /** Every gauge moves by exactly what the user's end says: one outcome, and each stage passed. The slot
        taken is given back. */
    method RunUser(s: Script)
      requires Journey(s).0.AtReserve? ==> inReserve < workers
      modifies this
      ensures Gauges() == Booked(old(Gauges()), Journey(s).0, Journey(s).1)
    {
      ghost var before := Gauges();
      started := started + 1;
      if s.enqueue.Err? {
        assert Gauges() == Passed(before, AtEnqueue);
        ClassifyError("enqueue", s.enqueue.error);
        return;
      }
      enqueued := enqueued + 1;
      assert Gauges() == Passed(before, AtPoll);
      if s.enqueue.value <= 0 {
        var ok, _ := WaitForAdmission(s.polls, s.expiry);
        if !ok { return; }
      }
      admitted := admitted + 1;
      assert Gauges() == Passed(before, AtSemaphore) == Passed(before, AtReserve);
      if s.grant.Some? {
        ClassifyError("reserve-queue", ContextErr(s.grant.value));
        return;
      }
      ReserveInSlot(s.reserve);
    }

    /** From taking the slot to the deferred release. */
    method ReserveInSlot(failure: Option<Fault>)
      requires inReserve < workers
      modifies this
      ensures Gauges() == Close(old(Gauges()), ReserveOutcome(failure))
    {
      inReserve := inReserve + 1;
      if failure.None? {
        reserved := reserved + 1;
      } else if InsufficientCapacity in failure.value.kinds {
        rejectedCapacity := rejectedCapacity + 1;
      } else if ExceedMaxReserveQuantity in failure.value.kinds {
        rejectedQuota := rejectedQuota + 1;
      } else {
        ClassifyError("reserve", failure.value);
      }
      inReserve := inReserve - 1;
    }
  }
}
