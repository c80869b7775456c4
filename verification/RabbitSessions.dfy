/** RabbitMQ sessions over the correlation map: each session has a watcher of its own, and all share one map. */
module RabbitSessions {
  import opened Options
  import C = Correlation

  /** The first `count` numbers are sessions, in the order they were opened. `closed` have lost their channel,
      the watchers of `dead` have closed the dead signal, and those of `swept` have dropped the map's entries.
      `using` is the session a request was given before it registered. */
  datatype State = State(
    core: C.State,
    current: Option<nat>,
    count: nat,
    closed: set<nat>,
    dead: set<nat>,
    swept: set<nat>,
    using: map<nat, nat>)

  datatype Step =
    | Open                              // a new session
    | Reap                              // a closed session is given up, and all entries dropped
    | Discard                           // a publish failed on a closed channel
    | Closes(s: nat)                    // the channel or its connection fails
    | Wakes(s: nat)                     // the watcher closes the dead signal
    | Sweeps(s: nat)                    // and then drops all entries
    | Obtain(t: nat)                    // a request is given the current session
    | Begin(t: nat, id: string)         // and registers
    | Shut                              // the transport is closed
    | Other(step: C.Step)               // everything else a request or the reply consumer does

  /** What a step is to the map. */
  function CoreOf(step: Step): C.Step {
    match step
    case Begin(t, id) => C.Register(t, id)
    case Reap => C.FailPending
    case Sweeps(_) => C.FailPending
    case Shut => C.FailPending
    case Other(core) => core
    case _ => C.Elsewhere
  }

  ghost predicate SessionNext(st: State, step: Step, st': State) {
    match step
    case Open =>
      st.current.None? && st' == st.(core := st'.core, current := Some(st.count), count := st.count + 1)
    case Reap =>
      st.current.Some? && st.current.value in st.closed && st' == st.(core := st'.core, current := None)
    case Discard =>
      st.current.Some? && st.current.value in st.closed && st' == st.(core := st'.core, current := None)
    case Closes(s) =>
      s < st.count && st' == st.(core := st'.core, closed := st.closed + {s})
    case Wakes(s) =>
      s in st.closed && st' == st.(core := st'.core, dead := st.dead + {s})
    case Sweeps(s) =>
      s in st.dead && s !in st.swept && st' == st.(core := st'.core, swept := st.swept + {s})
    case Obtain(t) =>
      && st.current.Some? && st.current.value !in st.closed && t !in st.using
      && st' == st.(core := st'.core, using := st.using[t := st.current.value])
    case Begin(t, _) => t in st.using && st' == st.(core := st'.core)
    case Shut => st' == st.(core := st'.core)
    case Other(core) => !core.Register? && !core.FailPending? && st' == st.(core := st'.core)
  }

  ghost predicate Next(st: State, step: Step, st': State) {
    C.Next(C.Take, st.core, CoreOf(step), st'.core) && SessionNext(st, step, st')
  }

  const Initial := State(C.InitState(), None, 0, {}, {}, {}, map[])

  ghost predicate IsRun(states: seq<State>, steps: seq<Step>) {
    && |states| == |steps| + 1 && states[0] == Initial
    && forall i :: 0 <= i < |steps| ==> StepAt(states, steps, i)
  }

  ghost predicate StepAt(states: seq<State>, steps: seq<Step>, i: nat)
    requires i < |steps| < |states|
  {
    Next(states[i], steps[i], states[i + 1])
  }

  // ---------------------------------------------------------------- the map of a run

  ghost function CoreStates(states: seq<State>): seq<C.State> {
    seq(|states|, i requires 0 <= i < |states| => states[i].core)
  }

  ghost function CoreSteps(steps: seq<Step>): seq<C.Step> {
    seq(|steps|, i requires 0 <= i < |steps| => CoreOf(steps[i]))
  }

  lemma {:induction false} Projects(states: seq<State>, steps: seq<Step>)
    requires IsRun(states, steps)
    ensures C.IsRun(C.Take, CoreStates(states), CoreSteps(steps))
  {
    var cs, cp := CoreStates(states), CoreSteps(steps);
    forall i | 0 <= i < |cp| ensures C.StepAt(C.Take, cs, cp, i) {
      assert StepAt(states, steps, i);
    }
  }

  /** All entries are dropped, by a watcher, a reconnect or a close, while that of `t` is listed. */
  ghost predicate DropsListed(st: State, step: Step, t: nat) {
    (step.Sweeps? || step.Reap? || step.Shut?) && C.Listed(st.core, t)
  }

  ghost predicate DroppedSince(states: seq<State>, steps: seq<Step>, i: nat, n: nat, t: nat)
    requires |states| == |steps| + 1 && n <= |steps|
  {
    exists k :: i <= k < n && DropsListed(states[k], steps[k], t)
  }

  /** No step but these drops entries. */
  ghost predicate OnlyTheseDrop(steps: seq<Step>) {
    forall k :: 0 <= k < |steps| && steps[k].Other? ==> !steps[k].step.FailPending?
  }

  lemma {:induction false} RunsOnlyDropSo(states: seq<State>, steps: seq<Step>)
    requires IsRun(states, steps)
    ensures OnlyTheseDrop(steps)
  {
    forall k | 0 <= k < |steps| && steps[k].Other? ensures !steps[k].step.FailPending? {
      assert StepAt(states, steps, k);
    }
  }

  lemma {:induction false} SameDrops(states: seq<State>, steps: seq<Step>, i: nat, n: nat, t: nat)
    requires |states| == |steps| + 1 && n <= |steps| && OnlyTheseDrop(steps)
    ensures DroppedSince(states, steps, i, n, t) <==> C.DroppedSince(CoreStates(states), CoreSteps(steps), i, n, t)
  {
    var cs, cp := CoreStates(states), CoreSteps(steps);
    forall k | 0 <= k < n ensures DropsListed(states[k], steps[k], t) <==> cp[k].FailPending? && C.Listed(cs[k], t) {
    }
    if k :| i <= k < n && DropsListed(states[k], steps[k], t) {
      assert cp[k].FailPending? && C.Listed(cs[k], t);
    }
    if k :| i <= k < n && cp[k].FailPending? && C.Listed(cs[k], t) {
      assert DropsListed(states[k], steps[k], t);
    }
  }

  /** Over every run of sessions with distinct ids: the channel of a waiting request is listed, held or sent
      to, exactly when no watcher, reconnect or close dropped the entries while its own was listed. */
  lemma {:induction false} EntryKeptIff(states: seq<State>, steps: seq<Step>, i: nat, n: nat, t: nat)
    requires IsRun(states, steps) && i < n <= |steps| && steps[i].Begin? && steps[i].t == t
    requires forall k :: 0 <= k < |states| ==> C.DistinctIds(states[k].core)
    requires t in states[n].core.requests && states[n].core.requests[t].Waiting?
    ensures C.Listed(states[n].core, t) || C.Served(states[n].core, t) <==> !DroppedSince(states, steps, i, n, t)
  {
    var cs, cp := CoreStates(states), CoreSteps(steps);
    Projects(states, steps);
    RunsOnlyDropSo(states, steps);
    SameDrops(states, steps, i, n, t);
    assert forall k :: 0 <= k < |cs| ==> cs[k] == states[k].core;
    C.KeptIffNotDropped(cs, cp, i, n, t);
  }

  // ---------------------------------------------------------------- a condition on sessions alone

  /** A session that has not closed is the current one. */
  ghost predicate Tidy(st: State) {
    && (forall s: nat :: s < st.count && s !in st.closed ==> st.current == Some(s))
    && st.swept <= st.dead <= st.closed
    && (forall s :: s in st.closed ==> s < st.count)
    && (forall t :: t in st.using ==> st.using[t] < st.count)
    && (st.current.Some? ==> st.current.value < st.count)
  }

  lemma {:induction false} AlwaysTidy(states: seq<State>, steps: seq<Step>, n: nat)
    requires IsRun(states, steps) && n <= |steps|
    ensures Tidy(states[n])
  {
    if n > 0 {
      AlwaysTidy(states, steps, n - 1);
      assert StepAt(states, steps, n - 1);
    }
  }

  /** Session `s` is open, and no other watcher has anything left to do. */
  ghost predicate Settled(st: State, s: nat) {
    s < st.count && s !in st.closed && st.closed <= st.swept
  }

  lemma {:induction false} StaysSettled(st: State, step: Step, st': State, s: nat)
    requires Tidy(st) && Settled(st, s) && Next(st, step, st') && s !in st'.closed
    ensures Settled(st', s) && !step.Sweeps? && !step.Reap?
  {
  }

  lemma {:induction false} ClosedGrows(states: seq<State>, steps: seq<Step>, i: nat, n: nat)
    requires IsRun(states, steps) && i <= n <= |steps|
    ensures states[i].closed <= states[n].closed
  {
    if i < n {
      ClosedGrows(states, steps, i, n - 1);
      assert StepAt(states, steps, n - 1);
    }
  }

  lemma {:induction false} SettledSince(states: seq<State>, steps: seq<Step>, i: nat, n: nat, s: nat)
    requires IsRun(states, steps) && i <= n <= |steps| && Settled(states[i], s) && s !in states[n].closed
    ensures Settled(states[n], s) && forall k :: i <= k < n ==> !steps[k].Sweeps? && !steps[k].Reap?
  {
    if i < n {
      ClosedGrows(states, steps, n - 1, n);
      SettledSince(states, steps, i, n - 1, s);
      AlwaysTidy(states, steps, n - 1);
      assert StepAt(states, steps, n - 1);
      StaysSettled(states[n - 1], steps[n - 1], states[n], s);
    }
  }

  /** A request that registers when the watchers of all closed sessions are done keeps its entry as long as
      its session stays open and the transport is not closed. */
  lemma {:induction false} KeptWhileSessionLives(states: seq<State>, steps: seq<Step>, i: nat, n: nat, t: nat)
    requires IsRun(states, steps) && i < n <= |steps| && steps[i].Begin? && steps[i].t == t
    requires forall k :: 0 <= k < |states| ==> C.DistinctIds(states[k].core)
    requires t in states[n].core.requests && states[n].core.requests[t].Waiting?
    requires t in states[i].using && states[i].using[t] !in states[n].closed && states[i].closed <= states[i].swept
    requires forall k :: i <= k < n ==> !steps[k].Shut?
    ensures C.Listed(states[n].core, t) || C.Served(states[n].core, t)
  {
    var s := states[i].using[t];
    AlwaysTidy(states, steps, i);
    ClosedGrows(states, steps, i, n);
    SettledSince(states, steps, i, n, s);
    EntryKeptIff(states, steps, i, n, t);
  }

  // ---------------------------------------------------------------- every continuation

  lemma {:induction false} Extend(states: seq<State>, steps: seq<Step>, step: Step,
                                  st: State) returns (states': seq<State>,
                                  steps': seq<Step>)
    requires IsRun(states, steps) && Next(states[|steps|], step, st)
    ensures IsRun(states', steps') && states' == states + [st] && steps' == steps + [step]
  {
    states', steps' := states + [st], steps + [step];
    forall i | 0 <= i < |steps'| ensures StepAt(states', steps', i) {
      assert i < |steps| ==> StepAt(states, steps, i);
    }
  }

  ghost predicate AllDistinct(states: seq<State>) {
    forall k :: 0 <= k < |states| ==> C.DistinctIds(states[k].core)
  }

  ghost predicate NoShutSince(steps: seq<Step>, i: nat) {
    forall k :: i <= k < |steps| ==> !steps[k].Shut?
  }

  ghost predicate Accounted(st: State, t: nat) {
    C.Listed(st.core, t) || C.Served(st.core, t)
  }

  ghost predicate Waits(st: State, t: nat) {
    t in st.core.requests && st.core.requests[t].Waiting?
  }

  /** A run that goes on from `(states, steps)`, in which `t` still waits, session `s` is open and the transport
      has not been closed since. */
  ghost predicate LivesOn(states: seq<State>, steps: seq<Step>, states': seq<State>, steps': seq<Step>, t: nat,
                          s: nat) {
    && IsRun(states', steps') && AllDistinct(states') && |states| <= |states'| && states'[..|states|] == states
    && |steps| <= |steps'| && steps'[..|steps|] == steps && NoShutSince(steps', |steps|)
    && Waits(states'[|steps'|], t) && s !in states'[|steps'|].closed
  }

  ghost predicate SafeFromHere(states: seq<State>, steps: seq<Step>, t: nat, s: nat) {
    forall states', steps' :: LivesOn(states, steps, states', steps', t, s) ==> Accounted(states'[|steps'|], t)
  }

  /** `(states, steps)` ends with the registration of `t`, whose session is `s`. */
  ghost predicate JustBegun(states: seq<State>, steps: seq<Step>, t: nat, s: nat) {
    && IsRun(states, steps) && AllDistinct(states) && steps != [] && steps[|steps| - 1].Begin?
    && steps[|steps| - 1].t == t && t in states[|steps|].using && states[|steps|].using[t] == s
  }

  lemma {:induction false} BeginLists(states: seq<State>, steps: seq<Step>, t: nat, s: nat)
    requires JustBegun(states, steps, t, s)
    ensures C.Listed(states[|steps|].core, t) && Waits(states[|steps|], t)
    ensures states[|steps|] == states[|steps| - 1].(core := states[|steps|].core)
  {
    assert StepAt(states, steps, |steps| - 1);
  }

  lemma {:induction false} SafeOn(states: seq<State>, steps: seq<Step>, states': seq<State>, steps': seq<Step>,
                                  t: nat, s: nat)
    requires JustBegun(states, steps, t, s) && states[|steps|].closed <= states[|steps|].swept
    requires LivesOn(states, steps, states', steps', t, s)
    ensures Accounted(states'[|steps'|], t)
  {
    var i := |steps| - 1;
    BeginLists(states, steps, t, s);
    assert steps'[i] == steps[i] && states'[i] == states[i] && states'[i + 1] == states[i + 1];
    KeptWhileSessionLives(states', steps', i, |steps'|, t);
  }

  /** The watcher of a session that has closed and not swept does so now. */
  lemma {:induction false} WatcherStrikes(states: seq<State>, steps: seq<Step>, t: nat, s: nat, w: nat)
    returns (states': seq<State>, steps': seq<Step>)
    requires JustBegun(states, steps, t, s) && s !in states[|steps|].closed
    requires w in states[|steps|].closed && w !in states[|steps|].swept
    ensures LivesOn(states, steps, states', steps', t, s) && !Accounted(states'[|steps'|], t)
  {
    var n := |steps|;
    var st := states[n];
    BeginLists(states, steps, t, s);
    var woken := st.(dead := st.dead + {w});
    var swept := woken.(core := st.core.(pending := map[]), swept := st.swept + {w});
    var s1, p1 := Extend(states, steps, Wakes(w), woken);
    states', steps' := Extend(s1, p1, Sweeps(w), swept);
    assert C.DistinctIds(swept.core) by { SameRequests(st.core, swept.core); }
    assert steps'[n - 1] == steps[n - 1] && states'[n + 1] == woken && steps'[n + 1] == Sweeps(w);
    assert DropsListed(states'[n + 1], steps'[n + 1], t);
    EntryKeptIff(states', steps', n - 1, n + 2, t);
  }

  lemma {:induction false} SameRequests(st: C.State, st': C.State)
    requires C.DistinctIds(st) && st.requests == st'.requests
    ensures C.DistinctIds(st')
  {
    assert forall t :: C.InFlight(st, t) <==> C.InFlight(st', t);
  }

  lemma {:induction false} NoneLivesOn(states: seq<State>, steps: seq<Step>, states': seq<State>, steps': seq<Step>,
                                       t: nat, s: nat)
    requires |states| == |steps| + 1 && s in states[|steps|].closed
    ensures !LivesOn(states, steps, states', steps', t, s)
  {
    if LivesOn(states, steps, states', steps', t, s) {
      assert states'[|steps|] == states[|steps|];
      ClosedGrows(states', steps', |steps|, |steps'|);
    }
  }

  /** Over every continuation in which its session stays open and the transport is not closed, a request that
      has just registered keeps its entry exactly when its session was gone already, so that there is none,
      or the watchers of all closed sessions are done. */
  lemma {:induction false} SafeIffWatchersDone(states: seq<State>, steps: seq<Step>, t: nat, s: nat)
    requires JustBegun(states, steps, t, s)
    ensures SafeFromHere(states, steps, t, s) <==>
      s in states[|steps|].closed || states[|steps|].closed <= states[|steps|].swept
  {
    var st := states[|steps|];
    if s in st.closed {
      forall states', steps' ensures !LivesOn(states, steps, states', steps', t, s) {
        NoneLivesOn(states, steps, states', steps', t, s);
      }
    } else if st.closed <= st.swept {
      forall states', steps' | LivesOn(states, steps, states', steps', t, s) ensures Accounted(states'[|steps'|], t) {
        SafeOn(states, steps, states', steps', t, s);
      }
    } else {
      var w :| w in st.closed && w !in st.swept;
      var states', steps' := WatcherStrikes(states, steps, t, s, w);
    }
  }

  // ---------------------------------------------------------------- the defect

  /** Session 0 has died and its watcher has yet to drop the entries; session 1 is current. */
  lemma {:induction false} SecondSession() returns (states: seq<State>, steps: seq<Step>)
    ensures IsRun(states, steps)
    ensures states[|steps|] == State(C.InitState(), Some(1), 2, {0}, {0}, {}, map[])
  {
    var core := C.InitState();
    states, steps := [Initial], [];
    states, steps := Extend(states, steps, Open, State(core, Some(0), 1, {}, {}, {}, map[]));
    states, steps := Extend(states, steps, Closes(0), State(core, Some(0), 1, {0}, {}, {}, map[]));
    states, steps := Extend(states, steps, Wakes(0), State(core, Some(0), 1, {0}, {0}, {}, map[]));
    states, steps := Extend(states, steps, Reap, State(core, None, 1, {0}, {0}, {}, map[]));
    states, steps := Extend(states, steps, Open, State(core, Some(1), 2, {0}, {0}, {}, map[]));
  }

  /** The old session's watcher drops the entry of a request of the new session, which is open and stays so.
      The reply arrives, finds no entry and is discarded; the request waits on. */
  lemma {:induction false} OldWatcherDropsNewEntry(id: string, body: nat) returns (states: seq<State>, steps: seq<Step>)
    ensures IsRun(states, steps)
    ensures var last := states[|steps|];
      && last.core.requests == map[0 := C.Waiting(id, 0)] && last.using == map[0 := 1] && 1 !in last.closed
      && !C.Listed(last.core, 0) && !C.Served(last.core, 0)
    ensures |steps| >= 2 && steps[|steps| - 2] == Sweeps(0)
    ensures steps[|steps| - 1] == Other(C.Lookup(7, C.Envelope(id, body)))
    ensures C.Listed(states[|steps| - 2].core, 0)
  {
    var core := C.InitState();
    states, steps := SecondSession();
    var using := map[0 := 1];
    states, steps := Extend(states, steps, Obtain(0), State(core, Some(1), 2, {0}, {0}, {}, using));
    var listed := core.(next := 1, owner := [id], buffers := [[]], sent := [0], pending := map[id := 0],
                        requests := map[0 := C.Waiting(id, 0)]);
    states, steps := Extend(states, steps, Begin(0, id), State(listed, Some(1), 2, {0}, {0}, {}, using));
    var dropped := listed.(pending := map[]);
    states, steps := Extend(states, steps, Sweeps(0), State(dropped, Some(1), 2, {0}, {0}, {0}, using));
    states, steps := Extend(states, steps, Other(C.Lookup(7, C.Envelope(id, body))),
                            State(dropped, Some(1), 2, {0}, {0}, {0}, using));
  }
}
