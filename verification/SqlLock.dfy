/** SQL migration runs under the advisory lock, as an interleaving of processes. */
module SqlLock {
  import opened Options
  import opened MigrationLists

  /** A run's work once it is inside: `plan` in the order it goes through it, `done` so far. */
  datatype Phase =
    | Outside
    | Entered
    | Upgrading(plan: seq<int>, done: nat)
    | Rolling(plan: seq<int>, done: nat)
    | Ended

  datatype Event = Applied(v: int) | RolledBack(v: int)

  /** How a transaction ends: committed, committed with the answer lost, or rolled back. */
  datatype Outcome = Committed | Lost | Aborted

  /** `locks` is false for SQLite, whose lock is a no-op. */
  datatype State = State(locks: bool, holder: Option<nat>, runs: map<nat, Phase>, tracking: set<int>, log: seq<Event>)

  datatype Step =
    | Enter(r: nat)
    | PlanUp(r: nat, migs: seq<int>, max: int)
    | PlanDown(r: nat, listing: seq<int>, n: nat)
    | Apply(r: nat, outcome: Outcome)
    | Rollback(r: nat, outcome: Outcome)
    | Leave(r: nat)

  function PhaseOf(s: State, r: nat): Phase {
    if r in s.runs then s.runs[r] else Outside
  }

  ghost predicate Enabled(s: State, step: Step) {
    var p := PhaseOf(s, step.r);
    match step
    case Enter(r) => p.Outside? && (s.locks ==> s.holder.None?)
    case PlanUp(r, migs, max) => p.Entered? && Ascending(migs)
    case PlanDown(r, listing, n) => p.Entered? && IsListing(listing, s.tracking)
    case Apply(r, _) => p.Upgrading? && p.done < |p.plan|
    case Rollback(r, _) => p.Rolling? && p.done < |p.plan|
    case Leave(r) => !p.Outside?
  }

  function Move(s: State, r: nat, p: Phase): State {
    s.(runs := s.runs[r := p])
  }

  /** The claim and the body commit together; a version already tracked is a duplicate key. */
  function ApplyStep(s: State, r: nat, plan: seq<int>, done: nat, outcome: Outcome): State
    requires done < |plan|
  {
    var v := plan[done];
    if v in s.tracking || outcome.Aborted? then Move(s, r, Ended)
    else Move(s.(tracking := s.tracking + {v}, log := s.log + [Applied(v)]), r,
              if outcome.Lost? then Ended else Upgrading(plan, done + 1))
  }

  /** The body and the delete commit together; deleting a row that is gone is no error. */
  function RollbackStep(s: State, r: nat, plan: seq<int>, done: nat, outcome: Outcome): State
    requires done < |plan|
  {
    var v := plan[done];
    if outcome.Aborted? then Move(s, r, Ended)
    else Move(s.(tracking := s.tracking - {v}, log := s.log + [RolledBack(v)]), r,
              if outcome.Lost? then Ended else Rolling(plan, done + 1))
  }

  /** Leaving releases the lock; so does a crash, which ends the session that holds it. */
  ghost function Next(s: State, step: Step): State
    requires Enabled(s, step)
  {
    var p := PhaseOf(s, step.r);
    match step
    case Enter(r) => Move(s.(holder := if s.locks then Some(r) else None), r, Entered)
    case PlanUp(r, migs, max) => Move(s, r, Upgrading(Cut(Unseen(migs, |migs|, s.tracking), max), 0))
    case PlanDown(r, listing, n) => Move(s, r, Rolling(Newest(listing, n), 0))
    case Apply(r, outcome) => ApplyStep(s, r, p.plan, p.done, outcome)
    case Rollback(r, outcome) => RollbackStep(s, r, p.plan, p.done, outcome)
    case Leave(r) => Move(s.(holder := None), r, Outside)
  }

  ghost predicate IsStep(s: State, s': State) {
    exists step :: Enabled(s, step) && s' == Next(s, step)
  }

  ghost predicate IsRun(locks: bool, run: seq<State>) {
    && |run| > 0 && run[0] == State(locks, None, map[], {}, [])
    && forall i :: 0 <= i < |run| - 1 ==> IsStep(run[i], run[i + 1])
  }

  // ---------------------------------------------------------------- the log of one version

  /** The last thing that committed about `v` was its Up. */
  function Standing(log: seq<Event>, v: int): bool {
    if log == [] then false
    else
      var e := log[|log| - 1];
      if e.v == v then e.Applied? else Standing(log[..|log| - 1], v)
  }

  /** Ups and Downs of `v` alternate, an Up first. */
  function Alternates(log: seq<Event>, v: int): bool {
    if log == [] then true
    else
      var e := log[|log| - 1];
      var before := log[..|log| - 1];
      Alternates(before, v) && (e.v == v ==> Standing(before, v) == e.RolledBack?)
  }

  /** No Up of `v` commits while one stands. */
  function NeverAppliedTwice(log: seq<Event>, v: int): bool {
    if log == [] then true
    else
      var e := log[|log| - 1];
      var before := log[..|log| - 1];
      NeverAppliedTwice(before, v) && (e == Applied(v) ==> !Standing(before, v))
  }

  lemma {:induction false} LogNext(log: seq<Event>, e: Event, v: int)
    ensures Standing(log + [e], v) == if e.v == v then e.Applied? else Standing(log, v)
    ensures Alternates(log + [e], v) == (Alternates(log, v) && (e.v == v ==> Standing(log, v) == e.RolledBack?))
    ensures NeverAppliedTwice(log + [e], v) == (NeverAppliedTwice(log, v) && (e == Applied(v) ==> !Standing(log, v)))
  {
    assert (log + [e])[..|log|] == log;
  }

  // ---------------------------------------------------------------- every dialect

  ghost predicate Tracked(s: State, v: int) {
    (v in s.tracking <==> Standing(s.log, v)) && NeverAppliedTwice(s.log, v)
  }

  lemma {:induction false} TrackedKeeps(s: State, step: Step, v: int)
    requires Tracked(s, v) && Enabled(s, step)
    ensures Tracked(Next(s, step), v)
  {
    var s' := Next(s, step);
    if s'.log != s.log {
      LogNext(s.log, s'.log[|s.log|], v);
    }
  }

  /** With the lock or without it, the tracking table is the set of versions whose Up committed
      and was not rolled back since, and no Up commits on top of itself. */
  lemma {:induction false} TrackingIsCommitted(locks: bool, run: seq<State>, i: nat, v: int)
    requires IsRun(locks, run) && i < |run|
    ensures v in run[i].tracking <==> Standing(run[i].log, v)
    ensures NeverAppliedTwice(run[i].log, v)
  {
    TrackedAlways(locks, run, i, v);
  }

  lemma {:induction false} TrackedAlways(locks: bool, run: seq<State>, i: nat, v: int)
    requires IsRun(locks, run) && i < |run|
    ensures Tracked(run[i], v)
  {
    if i > 0 {
      TrackedAlways(locks, run, i - 1, v);
      assert IsStep(run[i - 1], run[i - 1 + 1]);
      var step :| Enabled(run[i - 1], step) && run[i] == Next(run[i - 1], step);
      TrackedKeeps(run[i - 1], step, v);
    }
  }

  // ---------------------------------------------------------------- with the lock

  /** The events of the first `n` of `plan`. */
  function Trail(plan: seq<int>, n: nat, up: bool): (t: seq<Event>)
    requires n <= |plan|
    ensures |t| == n
  {
    if n == 0 then [] else Trail(plan, n - 1, up) + [if up then Applied(plan[n - 1]) else RolledBack(plan[n - 1])]
  }

  ghost predicate EndsWith(log: seq<Event>, t: seq<Event>) {
    |t| <= |log| && log[|log| - |t|..] == t
  }

  ghost predicate Descending(plan: seq<int>) {
    forall i, j :: 0 <= i < j < |plan| ==> plan[i] > plan[j]
  }

  /** `v` is still to be rolled back, or older than everything planned. */
  ghost predicate Remains(plan: seq<int>, done: nat, v: int) {
    (exists i :: done <= i < |plan| && plan[i] == v) || (forall i :: 0 <= i < |plan| ==> v < plan[i])
  }

  /** A run inside went through `plan[..done]` and nothing else has happened since it planned;
      what is left is still accurate. */
  ghost predicate Accurate(s: State, p: Phase) {
    match p
    case Upgrading(plan, done) =>
      && done <= |plan| && Ascending(plan)
      && (forall i :: done <= i < |plan| ==> plan[i] !in s.tracking)
      && EndsWith(s.log, Trail(plan, done, true))
    case Rolling(plan, done) =>
      && done <= |plan|
      && Descending(plan)
      && (forall i :: done <= i < |plan| ==> plan[i] in s.tracking)
      && (forall v :: v in s.tracking ==> Remains(plan, done, v))
      && EndsWith(s.log, Trail(plan, done, false))
    case _ => true
  }

  ghost predicate LockInv(s: State) {
    && s.locks
    && (forall r: nat :: !PhaseOf(s, r).Outside? ==> s.holder == Some(r))
    && (s.holder.Some? ==> Accurate(s, PhaseOf(s, s.holder.value)))
    && (forall v :: Tracked(s, v) && Alternates(s.log, v))
  }

  lemma {:induction false} LogKeeps(s: State, e: Event, v: int)
    requires Tracked(s, v) && Alternates(s.log, v) && (e.v == v ==> (v in s.tracking) == e.RolledBack?)
    ensures Alternates(s.log + [e], v)
  {
    LogNext(s.log, e, v);
  }

  lemma {:induction false} PlanUpAccurate(s: State, r: nat, migs: seq<int>, max: int)
    requires Ascending(migs)
    ensures Accurate(s, Upgrading(Cut(Unseen(migs, |migs|, s.tracking), max), 0))
  {
    PendingIs(migs, s.tracking, max);
    assert s.log[|s.log|..] == [];
  }

  lemma {:induction false} PlanDownAccurate(s: State, listing: seq<int>, n: nat)
    requires IsListing(listing, s.tracking)
    ensures Accurate(s, Rolling(Newest(listing, n), 0))
  {
    var plan := Newest(listing, n);
    forall v | v in s.tracking ensures Remains(plan, 0, v) {
      assert v in listing;
      var k :| 0 <= k < |listing| && listing[k] == v;
      if |listing| - 1 - k < |plan| {
        assert plan[|listing| - 1 - k] == v;
      }
    }
    assert s.log[|s.log|..] == [];
  }

  lemma {:induction false} TrailGrows(log: seq<Event>, plan: seq<int>, done: nat, up: bool)
    requires done < |plan| && EndsWith(log, Trail(plan, done, up))
    ensures EndsWith(log + [if up then Applied(plan[done]) else RolledBack(plan[done])], Trail(plan, done + 1, up))
  {
    var e := if up then Applied(plan[done]) else RolledBack(plan[done]);
    assert (log + [e])[|log| - done..] == log[|log| - done..] + [e];
  }

  lemma {:induction false} RemainsAfter(plan: seq<int>, done: nat, v: int)
    requires done < |plan| && Remains(plan, done, v) && v != plan[done]
    ensures Remains(plan, done + 1, v)
  {
  }

  lemma {:induction false} ApplyAccurate(s: State, plan: seq<int>, done: nat)
    requires done < |plan| && Accurate(s, Upgrading(plan, done))
    ensures Accurate(s.(tracking := s.tracking + {plan[done]}, log := s.log + [Applied(plan[done])]),
                     Upgrading(plan, done + 1))
  {
    TrailGrows(s.log, plan, done, true);
  }

  lemma {:induction false} RollbackAccurate(s: State, plan: seq<int>, done: nat)
    requires done < |plan| && Accurate(s, Rolling(plan, done))
    ensures Accurate(s.(tracking := s.tracking - {plan[done]}, log := s.log + [RolledBack(plan[done])]),
                     Rolling(plan, done + 1))
  {
    TrailGrows(s.log, plan, done, false);
    forall v | v in s.tracking && v != plan[done] ensures Remains(plan, done + 1, v) {
      RemainsAfter(plan, done, v);
    }
  }

  lemma {:induction false} StepKeepsTracked(s: State, step: Step)
    requires LockInv(s) && Enabled(s, step)
    ensures forall v :: Tracked(Next(s, step), v) && Alternates(Next(s, step).log, v)
  {
    var s' := Next(s, step);
    assert s.holder == Some(step.r) || s'.log == s.log;
    forall v ensures Tracked(s', v) && Alternates(s'.log, v) {
      assert Tracked(s, v) && Alternates(s.log, v);
      TrackedKeeps(s, step, v);
      if s'.log != s.log {
        LogKeeps(s, s'.log[|s.log|], v);
      }
    }
  }

  lemma {:induction false} ApplyStepAccurate(s: State, r: nat, plan: seq<int>, done: nat, outcome: Outcome)
    requires done < |plan| && Accurate(s, Upgrading(plan, done))
    ensures var s' := ApplyStep(s, r, plan, done, outcome); Accurate(s', PhaseOf(s', r))
  {
    ApplyAccurate(s, plan, done);
  }

  lemma {:induction false} RollbackStepAccurate(s: State, r: nat, plan: seq<int>, done: nat, outcome: Outcome)
    requires done < |plan| && Accurate(s, Rolling(plan, done))
    ensures var s' := RollbackStep(s, r, plan, done, outcome); Accurate(s', PhaseOf(s', r))
  {
    RollbackAccurate(s, plan, done);
  }

  /** Only the one inside plans or works, and it leaves its plan accurate. */
  lemma {:induction false} StepKeepsAccurate(s: State, step: Step)
    requires LockInv(s) && Enabled(s, step)
    ensures var s' := Next(s, step); Accurate(s', PhaseOf(s', step.r))
  {
    var p := PhaseOf(s, step.r);
    if step.PlanUp? {
      PlanUpAccurate(s, step.r, step.migs, step.max);
    } else if step.PlanDown? {
      PlanDownAccurate(s, step.listing, step.n);
    } else if step.Apply? {
      ApplyStepAccurate(s, step.r, p.plan, p.done, step.outcome);
    } else if step.Rollback? {
      RollbackStepAccurate(s, step.r, p.plan, p.done, step.outcome);
    }
  }

  lemma {:induction false} StepKeepsHolder(s: State, step: Step)
    requires LockInv(s) && Enabled(s, step)
    ensures var s' := Next(s, step);
      && s'.locks && (s'.holder == Some(step.r) || s'.holder == None)
      && forall r: nat :: !PhaseOf(s', r).Outside? ==> s'.holder == Some(r)
  {
  }

  lemma {:induction false} StepKeepsLock(s: State, step: Step)
    requires LockInv(s) && Enabled(s, step)
    ensures LockInv(Next(s, step))
  {
    StepKeepsTracked(s, step);
    StepKeepsHolder(s, step);
    StepKeepsAccurate(s, step);
  }

  /** Under the lock, over every run: one run inside at a time; what it still plans is accurate,
      what it did is an ascending prefix of its pending list (or the newest versions, newest
      first) with nothing of another run in between; Ups and Downs of a version alternate. */
  lemma {:induction false} LockedRuns(run: seq<State>, i: nat)
    requires IsRun(true, run) && i < |run|
    ensures LockInv(run[i])
  {
    if i > 0 {
      LockedRuns(run, i - 1);
      assert IsStep(run[i - 1], run[i - 1 + 1]);
      var step :| Enabled(run[i - 1], step) && run[i] == Next(run[i - 1], step);
      StepKeepsLock(run[i - 1], step);
    }
  }

  lemma {:induction false} OneInside(run: seq<State>, i: nat, r: nat, q: nat)
    requires IsRun(true, run) && i < |run|
    requires !PhaseOf(run[i], r).Outside? && !PhaseOf(run[i], q).Outside?
    ensures r == q
  {
    LockedRuns(run, i);
  }

  /** How far a run has got with its plan, whether it is still at it or has failed. */
  ghost predicate Reached(s0: State, s: State, r: nat, plan: seq<int>, up: bool, m: nat) {
    && m <= |plan| && s.log == s0.log + Trail(plan, m, up)
    && (PhaseOf(s, r).Ended? || PhaseOf(s, r) == if up then Upgrading(plan, m) else Rolling(plan, m))
  }

  /** A step while `r` is inside: its own next transaction, or nothing that is logged. */
  lemma {:induction false} InsideStep(s0: State, s: State, step: Step, r: nat, plan: seq<int>, up: bool,
                                      m: nat) returns (m': nat)
    requires LockInv(s) && Enabled(s, step) && Reached(s0, s, r, plan, up, m)
    requires !PhaseOf(s, r).Outside? && !PhaseOf(Next(s, step), r).Outside?
    ensures m <= m' <= m + 1 && Reached(s0, Next(s, step), r, plan, up, m')
  {
    var s' := Next(s, step);
    if s'.log == s.log {
      m' := m;
    } else {
      m' := m + 1;
      var e := if up then Applied(plan[m]) else RolledBack(plan[m]);
      assert s'.log == s.log + [e];
      assert s.log + [e] == s0.log + (Trail(plan, m, up) + [e]);
    }
  }

  lemma {:induction false} InsideStates(run: seq<State>, j: nat, s0: State, r: nat, plan: seq<int>, up: bool,
                                        m: nat) returns (m': nat)
    requires IsRun(true, run) && j + 1 < |run| && Reached(s0, run[j], r, plan, up, m)
    requires !PhaseOf(run[j], r).Outside? && !PhaseOf(run[j + 1], r).Outside?
    ensures Reached(s0, run[j + 1], r, plan, up, m')
  {
    LockedRuns(run, j);
    assert IsStep(run[j], run[j + 1]);
    var step :| Enabled(run[j], step) && run[j + 1] == Next(run[j], step);
    m' := InsideStep(s0, run[j], step, r, plan, up, m);
  }

  lemma {:induction false} InsideRun(run: seq<State>, i: nat, j: nat, r: nat, plan: seq<int>, up: bool) returns (m: nat)
    requires IsRun(true, run) && i < j < |run| && Reached(run[i], run[i + 1], r, plan, up, 0)
    requires forall k :: i < k <= j ==> !PhaseOf(run[k], r).Outside?
    ensures Reached(run[i], run[j], r, plan, up, m)
  {
    if j == i + 1 {
      m := 0;
    } else {
      var n := InsideRun(run, i, j - 1, r, plan, up);
      m := InsideStates(run, j - 1, run[i], r, plan, up, n);
    }
  }

  /** Under the lock, from the moment a run reads what is pending until it leaves, whether it has failed or
      not: what has been logged since is the trail of a prefix of that pending list, and nothing else. */
  lemma {:induction false} UpgradeTrail(run: seq<State>, i: nat, j: nat, r: nat, migs: seq<int>, max: int)
    requires IsRun(true, run) && i < j < |run|
    requires Enabled(run[i], PlanUp(r, migs, max)) && run[i + 1] == Next(run[i], PlanUp(r, migs, max))
    requires forall k :: i < k <= j ==> !PhaseOf(run[k], r).Outside?
    ensures TrailOf(run[i], run[j], Cut(Unseen(migs, |migs|, run[i].tracking), max), true)
  {
    var m := InsideRun(run, i, j, r, Cut(Unseen(migs, |migs|, run[i].tracking), max), true);
  }

  /** And the same of a rollback: a prefix of the newest versions applied when it read them, newest first. */
  lemma {:induction false} RollbackTrail(run: seq<State>, i: nat, j: nat, r: nat, listing: seq<int>, n: nat)
    requires IsRun(true, run) && i < j < |run|
    requires Enabled(run[i], PlanDown(r, listing, n)) && run[i + 1] == Next(run[i], PlanDown(r, listing, n))
    requires forall k :: i < k <= j ==> !PhaseOf(run[k], r).Outside?
    ensures TrailOf(run[i], run[j], Newest(listing, n), false)
  {
    var m := InsideRun(run, i, j, r, Newest(listing, n), false);
  }

  /** Since `s0`, a prefix of `plan` and nothing else was logged. */
  ghost predicate TrailOf(s0: State, s: State, plan: seq<int>, up: bool) {
    exists m: nat :: m <= |plan| && s.log == s0.log + Trail(plan, m, up)
  }

  // ---------------------------------------------------------------- without the lock

  ghost predicate AlternatesAlways(locks: bool) {
    forall run: seq<State>, i, v :: IsRun(locks, run) && 0 <= i < |run| ==> Alternates(run[i].log, v)
  }

  lemma {:induction false} RunOn(locks: bool, run: seq<State>, step: Step) returns (run': seq<State>)
    requires IsRun(locks, run) && Enabled(run[|run| - 1], step)
    ensures IsRun(locks, run') && run'[|run'| - 1] == Next(run[|run| - 1], step)
  {
    run' := run + [Next(run[|run| - 1], step)];
    assert IsStep(run[|run| - 1], Next(run[|run| - 1], step));
  }

  lemma {:induction false} ApplyFirst(v: int) returns (run: seq<State>)
    ensures IsRun(false, run) && run[|run| - 1] == State(false, None, map[0 := Upgrading([v], 1)], {v}, [Applied(v)])
  {
    run := RunOn(false, [State(false, None, map[], {}, [])], Enter(0));
    assert Unseen([v], 1, {}) == [v] by { assert Unseen([v], 0, {}) == []; }
    run := RunOn(false, run, PlanUp(0, [v], 0));
    assert run[|run| - 1] == State(false, None, map[0 := Upgrading([v], 0)], {}, []);
    run := RunOn(false, run, Apply(0, Committed));
  }

  /** A process plans the rollback of the only version. */
  lemma {:induction false} PlanRollback(run: seq<State>, r: nat, v: int) returns (run': seq<State>)
    requires IsRun(false, run) && PhaseOf(run[|run| - 1], r).Outside? && run[|run| - 1].tracking == {v}
    requires run[|run| - 1].holder.None?
    ensures IsRun(false, run') && run'[|run'| - 1] == Move(run[|run| - 1], r, Rolling([v], 0))
  {
    var s := run[|run| - 1];
    assert s.locks == false by { NoLock(run, |run| - 1); }
    run' := RunOn(false, run, Enter(r));
    assert Newest([v], 1) == [v];
    run' := RunOn(false, run', PlanDown(r, [v], 1));
    assert s.runs[r := Entered][r := Rolling([v], 0)] == s.runs[r := Rolling([v], 0)];
  }

  lemma {:induction false} NoLock(run: seq<State>, i: nat)
    requires IsRun(false, run) && i < |run|
    ensures !run[i].locks
  {
    if i > 0 {
      NoLock(run, i - 1);
      assert IsStep(run[i - 1], run[i - 1 + 1]);
    }
  }

  lemma {:induction false} RollbackNow(run: seq<State>, r: nat, v: int) returns (run': seq<State>)
    requires IsRun(false, run) && PhaseOf(run[|run| - 1], r) == Rolling([v], 0)
    ensures IsRun(false, run') && run'[|run'| - 1].log == run[|run| - 1].log + [RolledBack(v)]
    ensures run'[|run'| - 1].runs == run[|run| - 1].runs[r := Rolling([v], 1)]
  {
    run' := RunOn(false, run, Rollback(r, Committed));
  }

  /** Two processes plan the same rollback and both run it. */
  lemma {:induction false} RolledBackTwice(v: int) returns (run: seq<State>)
    ensures IsRun(false, run) && !Alternates(run[|run| - 1].log, v)
  {
    run := ApplyFirst(v);
    run := PlanRollback(run, 1, v);
    run := PlanRollback(run, 2, v);
    run := RollbackNow(run, 1, v);
    var log := run[|run| - 1].log;
    run := RollbackNow(run, 2, v);
    LogNext([Applied(v)], RolledBack(v), v);
    LogNext(log, RolledBack(v), v);
  }

  lemma {:induction false} AlternatesIffLocked(locks: bool)
    ensures AlternatesAlways(locks) <==> locks
  {
    if locks {
      forall run: seq<State>, i, v | IsRun(locks, run) && 0 <= i < |run| ensures Alternates(run[i].log, v) {
        LockedRuns(run, i);
        assert Tracked(run[i], v) && Alternates(run[i].log, v);
      }
    } else {
      var run := RolledBackTwice(0);
    }
  }
}
