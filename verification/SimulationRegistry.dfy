/** The run registry: its two maps changed under a mutex, and every run's own life beside it, from setting the
    event's cap to the forgetting ten minutes after its end. */
module SimulationRegistry {
  import opened Common

  // A UUID, never drawn twice.
  type RunId = nat

  datatype Reg = Reg(runs: map<RunId, EventId>, byEvent: map<EventId, RunId>, done: set<RunId>)

  /** HasActiveRun. */
  predicate Live(reg: Reg, e: EventId) {
    e in reg.byEvent && reg.byEvent[e] in reg.runs && reg.byEvent[e] !in reg.done
  }

  ghost predicate AnyLive(reg: Reg) {
    exists id | id in reg.runs :: id !in reg.done
  }

  function Started(reg: Reg, id: RunId, e: EventId): Reg {
    reg.(runs := reg.runs[id := e], byEvent := reg.byEvent[e := id], done := reg.done - {id})
  }

  function Forgotten(reg: Reg, id: RunId, e: EventId): Reg {
    Reg(reg.runs - {id}, if e in reg.byEvent && reg.byEvent[e] == id then reg.byEvent - {e} else reg.byEvent,
        reg.done - {id})
  }

  datatype StartError = RunInProgress

  class Run {
    const id: RunId
    const event: EventId
    var done: bool

    constructor (id: RunId, event: EventId)
      ensures this.id == id && this.event == event && !done
    {
      this.id := id;
      this.event := event;
      done := false;
    }
  }

  class Registry {
    var runs: map<RunId, Run>
    var byEvent: map<EventId, RunId>

    ghost predicate Valid()
      reads this
    {
      forall id | id in runs :: runs[id].id == id
    }

    ghost function View(): Reg
      reads this, runs.Values
    {
      Reg(map id | id in runs :: runs[id].event, byEvent, set id | id in runs && runs[id].done)
    }

    constructor ()
      ensures Valid() && View() == Reg(map[], map[], {})
    {
      runs, byEvent := map[], map[];
    }

    // id is the drawn UUID.
    method Start(id: RunId, event: EventId) returns (result: Result<Run, StartError>)
      requires Valid() && id !in runs
      modifies this
      ensures Valid()
      ensures result.Err? <==> Live(old(View()), event)
      ensures result.Err? ==> View() == old(View())
      ensures result.Ok? ==> fresh(result.value) && View() == Started(old(View()), id, event)
      ensures result.Ok? ==> runs == old(runs)[id := result.value]
    {
      if event in byEvent && byEvent[event] in runs && !runs[byEvent[event]].done {
        return Err(RunInProgress);
      }
      ghost var before := View();
      var run := new Run(id, event);
      runs := runs[id := run];
      byEvent := byEvent[event := id];
      assert View().runs == Started(before, id, event).runs;
      assert View().done == Started(before, id, event).done;
      result := Ok(run);
    }

    method HasActiveRun(event: EventId) returns (active: bool)
      requires Valid()
      ensures active <==> Live(View(), event)
    {
      if event !in byEvent { return false; }
      var id := byEvent[event];
      active := id in runs && !runs[id].done;
    }

    method HasAnyActiveRun() returns (active: bool)
      requires Valid()
      ensures active <==> AnyLive(View())
    {
      var left := runs.Keys;
      while left != {}
        invariant left <= runs.Keys
        invariant forall id | id in runs && id !in left :: runs[id].done
        decreases |left|
      {
        var id :| id in left;
        if !runs[id].done {
          assert id in View().runs && id !in View().done;
          return true;
        }
        left := left - {id};
      }
      active := false;
    }

    method Forget(id: RunId, event: EventId)
      requires Valid()
      modifies this
      ensures Valid()
      ensures View() == Forgotten(old(View()), id, event)
    {
      ghost var before := View();
      runs := runs - {id};
      if event in byEvent && byEvent[event] == id {
        byEvent := byEvent - {event};
      }
      assert View().runs == Forgotten(before, id, event).runs;
      assert View().done == Forgotten(before, id, event).done;
    }
  }

  // ---- Runs and registry interleaved ----

  datatype Phase =
    | Starting
    | Running
    | Clearing
    | Closing
    | Finished
    | Dropped

  datatype Life = Life(event: EventId, cap: nat, phase: Phase)

  // caps is the cap override key of each event. Its owner is history: the run of this registry that wrote it, or
  // none for a run outside, from the command line or another server.
  datatype Override = Override(owner: Option<RunId>, value: nat)

  datatype State = State(reg: Reg, lives: map<RunId, Life>, caps: map<EventId, Override>)

  datatype Action =
    | Start(id: RunId, event: EventId, cap: nat)
    | SetCap(id: RunId, ok: bool)
    | UsersDone(id: RunId)
    | ClearCap(id: RunId)
    | MarkDone(id: RunId)
    | Forget(id: RunId)
    | OutsideSet(event: EventId, cap: nat)
    | OutsideClear(event: EventId)

  predicate InPhase(s: State, id: RunId, p: Phase) {
    id in s.lives && s.lives[id].phase == p
  }

  predicate Enabled(s: State, a: Action) {
    match a
    case Start(id, _, _) => id !in s.lives
    case SetCap(id, _) => InPhase(s, id, Starting)
    case UsersDone(id) => InPhase(s, id, Running)
    case ClearCap(id) => InPhase(s, id, Clearing)
    case MarkDone(id) => InPhase(s, id, Closing)
    case Forget(id) => InPhase(s, id, Finished)
    case _ => true
  }

  function Turn(s: State, id: RunId, p: Phase): State
    requires id in s.lives
  {
    s.(lives := s.lives[id := s.lives[id].(phase := p)])
  }

  function Next(s: State, a: Action): State
    requires Enabled(s, a)
  {
    match a
    case Start(id, e, cap) =>
      if Live(s.reg, e) then s
      else s.(reg := Started(s.reg, id, e), lives := s.lives[id := Life(e, cap, Starting)])
    case SetCap(id, ok) =>
      var x := s.lives[id];
      if x.cap == 0 then Turn(s, id, Running)
      else if !ok then Turn(s, id, Closing)
      else Turn(s, id, Running).(caps := s.caps[x.event := Override(Some(id), x.cap)])
    case UsersDone(id) => Turn(s, id, if s.lives[id].cap == 0 then Closing else Clearing)
    case ClearCap(id) => Turn(s, id, Closing).(caps := s.caps - {s.lives[id].event})
    case MarkDone(id) => Turn(s, id, Finished).(reg := s.reg.(done := s.reg.done + {id}))
    case Forget(id) => Turn(s, id, Dropped).(reg := Forgotten(s.reg, id, s.lives[id].event))
    case OutsideSet(e, cap) => s.(caps := s.caps[e := Override(None, cap)])
    case OutsideClear(e) => s.(caps := s.caps - {e})
  }

  ghost predicate StepAt(run: seq<State>, acts: seq<Action>, i: nat)
    requires i < |acts| && |run| == |acts| + 1
  {
    Enabled(run[i], acts[i]) && run[i + 1] == Next(run[i], acts[i])
  }

  ghost predicate IsRun(run: seq<State>, acts: seq<Action>) {
    && |run| == |acts| + 1 && run[0] == State(Reg(map[], map[], {}), map[], map[])
    && forall i: nat | i < |acts| :: StepAt(run, acts, i)
  }

  predicate Unfinished(s: State, id: RunId) {
    id in s.lives && !s.lives[id].phase.Finished? && !s.lives[id].phase.Dropped?
  }

  /** A run that wrote its event's cap and has not yet cleared it. */
  predicate OwnsCap(s: State, id: RunId) {
    id in s.lives && 0 < s.lives[id].cap && (s.lives[id].phase.Running? || s.lives[id].phase.Clearing?)
  }

  predicate RunTracked(s: State, id: RunId) {
    && (id in s.reg.runs ==> id in s.lives && s.lives[id].event == s.reg.runs[id] && !s.lives[id].phase.Dropped?)
    && (id in s.reg.done <==> InPhase(s, id, Finished))
    && (Unfinished(s, id) ==>
          var e := s.lives[id].event; id in s.reg.runs && e in s.reg.byEvent && s.reg.byEvent[e] == id)
  }

  predicate EventTracked(s: State, e: EventId) {
    e in s.reg.byEvent ==> s.reg.byEvent[e] in s.reg.runs && s.reg.runs[s.reg.byEvent[e]] == e
  }

  /** The override a run wrote is in place. */
  predicate RunOwns(s: State, id: RunId) {
    id in s.lives && var x := s.lives[id]; x.event in s.caps && s.caps[x.event] == Override(Some(id), x.cap)
  }

  predicate CapOwned(s: State, e: EventId) {
    e in s.caps && s.caps[e].owner.Some? ==>
      var id := s.caps[e].owner.value; OwnsCap(s, id) && s.lives[id].event == e && s.lives[id].cap == s.caps[e].value
  }

  ghost predicate Tracked(s: State) {
    && (forall id :: RunTracked(s, id))
    && (forall e :: EventTracked(s, e) && CapOwned(s, e))
  }

  lemma RunKept(s: State, a: Action, id: RunId)
    requires Tracked(s) && Enabled(s, a)
    ensures RunTracked(Next(s, a), id)
  {
    assert RunTracked(s, id);
    match a
    case Start(_, e, _) =>
      if Unfinished(s, id) { assert s.lives[id].event == e ==> Live(s.reg, e); }
    case Forget(other) => assert RunTracked(s, other);
    case _ =>
  }

  lemma EventKept(s: State, a: Action, e: EventId)
    requires Tracked(s) && Enabled(s, a)
    ensures EventTracked(Next(s, a), e)
  {
    assert EventTracked(s, e);
    match a
    case Start(id, _, _) => assert RunTracked(s, id);
    case Forget(id) => assert RunTracked(s, id);
    case _ =>
  }

  lemma OwnerKept(s: State, a: Action, e: EventId)
    requires Tracked(s) && Enabled(s, a)
    ensures CapOwned(Next(s, a), e)
  {
    assert CapOwned(s, e);
    if e in s.caps && s.caps[e].owner.Some? { assert RunTracked(s, s.caps[e].owner.value); }
    match a
    case SetCap(other, _) => assert RunTracked(s, other);
    case ClearCap(other) => assert RunTracked(s, other);
    case _ =>
  }

  lemma TrackedKept(s: State, a: Action)
    requires Tracked(s) && Enabled(s, a)
    ensures Tracked(Next(s, a))
  {
    forall id ensures RunTracked(Next(s, a), id) { RunKept(s, a, id); }
    forall e ensures EventTracked(Next(s, a), e) && CapOwned(Next(s, a), e) {
      EventKept(s, a, e);
      OwnerKept(s, a, e);
    }
  }

  lemma {:induction false} RegistryHolds(run: seq<State>, acts: seq<Action>, n: nat)
    requires IsRun(run, acts) && n < |run|
    ensures Tracked(run[n])
  {
    if n > 0 {
      RegistryHolds(run, acts, n - 1);
      assert StepAt(run, acts, n - 1);
      TrackedKept(run[n - 1], acts[n - 1]);
    }
  }

  /** An event has at most one unfinished run, the one byEvent names; the registry's two questions answer
      exactly whether one exists; and Start accepts exactly when none does. */
  lemma OneLiveRun(run: seq<State>, acts: seq<Action>, n: nat, e: EventId)
    requires IsRun(run, acts) && n < |run|
    ensures forall id, id' | Unfinished(run[n], id) && Unfinished(run[n], id') ::
      run[n].lives[id].event == run[n].lives[id'].event ==> id == id'
    ensures forall id | Unfinished(run[n], id) && run[n].lives[id].event == e ::
              e in run[n].reg.byEvent && run[n].reg.byEvent[e] == id
    ensures Live(run[n].reg, e) <==> exists id :: Unfinished(run[n], id) && run[n].lives[id].event == e
    ensures AnyLive(run[n].reg) <==> exists id :: Unfinished(run[n], id)
    ensures forall id, cap | id !in run[n].lives ::
      id in Next(run[n], Start(id, e, cap)).lives <==>
      !exists id' :: Unfinished(run[n], id') && run[n].lives[id'].event == e
  {
    RegistryHolds(run, acts, n);
    var s := run[n];
    if Live(s.reg, e) {
      assert EventTracked(s, e) && RunTracked(s, s.reg.byEvent[e]);
      assert Unfinished(s, s.reg.byEvent[e]);
    }
    if AnyLive(s.reg) {
      var id :| id in s.reg.runs && id !in s.reg.done;
      assert RunTracked(s, id) && Unfinished(s, id);
    }
    forall id | Unfinished(s, id) ensures id in s.reg.runs && id !in s.reg.done && Live(s.reg, s.lives[id].event)
              && s.reg.byEvent[s.lives[id].event] == id
    {
      assert RunTracked(s, id);
    }
  }

  /** Forgetting an old run, however late, leaves every unfinished run where it was. */
  lemma LateForgetHarmless(run: seq<State>, acts: seq<Action>, n: nat, finished: RunId, id: RunId)
    requires IsRun(run, acts) && n < |run| && Enabled(run[n], Forget(finished)) && Unfinished(run[n], id)
    ensures var t := Next(run[n], Forget(finished)).reg;
      && id in t.runs && id !in t.done && run[n].lives[id].event in t.byEvent && t.byEvent[run[n].lives[id].event] == id
  {
    RegistryHolds(run, acts, n);
    assert RunTracked(run[n], id) && RunTracked(run[n], finished);
  }

  // ---- the override ----

  predicate FromOutside(a: Action, e: EventId) {
    (a.OutsideSet? || a.OutsideClear?) && a.event == e
  }

  /** Only a run outside the registry takes an override away or changes it before its own run clears it: not the
      end of another run, not a late forget, not a refused start. */
  lemma OverrideStepExactly(s: State, a: Action, id: RunId)
    requires Tracked(s) && Enabled(s, a) && OwnsCap(s, id) && RunOwns(s, id) && a != ClearCap(id)
    ensures OwnsCap(Next(s, a), id) && Next(s, a).lives[id].event == s.lives[id].event
    ensures RunOwns(Next(s, a), id) <==> !FromOutside(a, s.lives[id].event)
  {
    assert RunTracked(s, id);
    match a
    case SetCap(other, _) => assert RunTracked(s, other);
    case ClearCap(other) => assert RunTracked(s, other);
    case _ =>
  }

  lemma OwnsCapStill(s: State, a: Action, id: RunId)
    requires Enabled(s, a) && OwnsCap(s, id) && a != ClearCap(id)
    ensures OwnsCap(Next(s, a), id) && Next(s, a).lives[id].event == s.lives[id].event
  {
  }

  /** From the step that writes a run's cap, and until the step that clears it, the override has been in place
      all along if and only if no run outside has written or cleared the event's key. */
  lemma {:induction false} OverrideIsOwned(run: seq<State>, acts: seq<Action>, m: nat, n: nat, id: RunId)
    requires IsRun(run, acts) && m < n < |run| && acts[m] == SetCap(id, true)
    requires id in run[m].lives && 0 < run[m].lives[id].cap
    requires forall k | m < k < n :: acts[k] != ClearCap(id)
    ensures OwnsCap(run[n], id) && run[n].lives[id].event == run[m].lives[id].event
    ensures (forall i | m < i <= n :: RunOwns(run[i], id))
       <==> (forall k | m < k < n :: !FromOutside(acts[k], run[m].lives[id].event))
  {
    assert StepAt(run, acts, n - 1);
    if m + 1 < n {
      OverrideIsOwned(run, acts, m, n - 1, id);
      RegistryHolds(run, acts, n - 1);
      OwnsCapStill(run[n - 1], acts[n - 1], id);
      if RunOwns(run[n - 1], id) { OverrideStepExactly(run[n - 1], acts[n - 1], id); }
    }
  }

  /** The step writes or removes the event's key. */
  predicate Rewrites(s: State, a: Action, e: EventId) {
    match a
    case SetCap(id, ok) => ok && id in s.lives && s.lives[id].event == e && 0 < s.lives[id].cap
    case ClearCap(id) => id in s.lives && s.lives[id].event == e
    case OutsideSet(f, _) => f == e
    case OutsideClear(f) => f == e
    case _ => false
  }

  ghost predicate OutsideSince(run: seq<State>, acts: seq<Action>, k: nat, n: nat, e: EventId)
    requires |run| == |acts| + 1 && k < n <= |acts|
  {
    acts[k].OutsideSet? && acts[k].event == e && forall j | k < j < n :: !Rewrites(run[j], acts[j], e)
  }

  lemma CapsChange(s: State, a: Action, e: EventId)
    requires Enabled(s, a) && !Rewrites(s, a, e)
    ensures e in Next(s, a).caps <==> e in s.caps
    ensures e in s.caps ==> Next(s, a).caps[e] == s.caps[e]
  {
  }

  lemma {:induction false} OutsideExactly(run: seq<State>, acts: seq<Action>, n: nat, e: EventId)
    requires IsRun(run, acts) && n < |run|
    ensures e in run[n].caps && run[n].caps[e].owner.None?
       <==> exists k | 0 <= k < n :: OutsideSince(run, acts, k, n, e)
  {
    if n > 0 {
      OutsideExactly(run, acts, n - 1, e);
      assert StepAt(run, acts, n - 1);
      if acts[n - 1].OutsideSet? && acts[n - 1].event == e {
        assert OutsideSince(run, acts, n - 1, n, e);
      } else if !Rewrites(run[n - 1], acts[n - 1], e) {
        CapsChange(run[n - 1], acts[n - 1], e);
        var p := n - 1;
        if k :| 0 <= k < p && OutsideSince(run, acts, k, p, e) { assert OutsideSince(run, acts, k, n, e); }
        if k :| 0 <= k < n && OutsideSince(run, acts, k, n, e) { assert OutsideSince(run, acts, k, p, e); }
      }
    }
  }

  /** An event without an unfinished run of the registry has an override if and only if a run outside wrote it and
      nobody has rewritten it since. */
  lemma NoOverrideLeft(run: seq<State>, acts: seq<Action>, n: nat, e: EventId)
    requires IsRun(run, acts) && n < |run| && !Live(run[n].reg, e)
    ensures e in run[n].caps <==> exists k | 0 <= k < n :: OutsideSince(run, acts, k, n, e)
  {
    RegistryHolds(run, acts, n);
    OneLiveRun(run, acts, n, e);
    OutsideExactly(run, acts, n, e);
    assert CapOwned(run[n], e);
  }

  /** A run from the command line ends and clears the key: the registry's run goes on without its override. */
  lemma OutsideTakesOverride()
    ensures exists run: seq<State>, acts: seq<Action> | IsRun(run, acts) ::
              OwnsCap(run[|acts|], 1) && 0 !in run[|acts|].caps
  {
    var s0 := State(Reg(map[], map[], {}), map[], map[]);
    var s1 := s0.(reg := Reg(map[1 := 0], map[0 := 1], {}), lives := map[1 := Life(0, 5, Starting)]);
    var s2 := s1.(lives := map[1 := Life(0, 5, Running)], caps := map[0 := Override(Some(1), 5)]);
    var s3 := s2.(caps := map[]);
    var run, acts := [s0, s1, s2, s3], [Start(1, 0, 5), SetCap(1, true), OutsideClear(0)];
    assert s0.reg.done - {1} == {};
    assert s1 == Next(s0, Start(1, 0, 5));
    assert s1.lives[1 := Life(0, 5, Running)] == s2.lives;
    assert s2 == Next(s1, SetCap(1, true));
    assert s3 == Next(s2, OutsideClear(0));
    assert IsRun(run, acts);
    assert OwnsCap(run[|acts|], 1) && 0 !in run[|acts|].caps;
  }
}
