/** Claim-by-unique-insert: any number of processes run `UpN` against one tracking collection. */
module MongoMigrations {
  import opened MigrationLists

  /** Where a process stands in `UpN`. The head of `todo` is the version being worked on. */
  datatype Phase =
    | Idle
    | Ready(todo: seq<int>)
    | Running(todo: seq<int>)
    | BodyFailed(todo: seq<int>)
    | BodyDone(todo: seq<int>)

  /** What the server made of a write: done and acknowledged, done but the answer lost, or refused. */
  datatype Reply = Acked | Lost | Refused

  /** What happened to a version. */
  datatype Event = Claimed(v: int) | Failed(v: int) | Released(v: int) | Succeeded(v: int) | Completed(v: int)

  /** `records` maps a version to its `completed` flag; a process not in `runners` is idle; `plans` holds
      the pending list each process last read. */
  datatype State = State(records: map<int, bool>, runners: map<nat, Phase>, plans: map<nat, seq<int>>, log: seq<Event>)

  /** `Stop` is a crash, or the return of a run. */
  datatype Step =
    | Start(r: nat, migs: seq<int>, max: int)
    | Claim(r: nat, reply: Reply)
    | BodyFails(r: nat)
    | BodyReturns(r: nat)
    | Release(r: nat, reply: Reply)
    | Complete(r: nat, reply: Reply)
    | Stop(r: nat)

  function PhaseOf(s: State, r: nat): Phase {
    if r in s.runners then s.runners[r] else Idle
  }

  predicate Working(p: Phase) {
    (p.Running? || p.BodyFailed? || p.BodyDone?) && |p.todo| > 0
  }

  predicate IsRecorded(s: State, v: int) {
    v in s.records && s.records[v]
  }

  /** Process `r` is between claiming `v` and having released or recorded it. */
  predicate Holds(s: State, r: nat, v: int) {
    Working(PhaseOf(s, r)) && PhaseOf(s, r).todo[0] == v
  }

  predicate Enabled(s: State, step: Step) {
    match step
    case Start(r, migs, _) => PhaseOf(s, r).Idle?
    case Claim(r, _) => PhaseOf(s, r).Ready? && |PhaseOf(s, r).todo| > 0
    case BodyFails(r) => PhaseOf(s, r).Running? && |PhaseOf(s, r).todo| > 0
    case BodyReturns(r) => PhaseOf(s, r).Running? && |PhaseOf(s, r).todo| > 0
    case Release(r, _) => PhaseOf(s, r).BodyFailed? && |PhaseOf(s, r).todo| > 0
    case Complete(r, _) => PhaseOf(s, r).BodyDone? && |PhaseOf(s, r).todo| > 0
    case Stop(r) => true
  }

  function Move(s: State, r: nat, p: Phase): State {
    s.(runners := s.runners[r := p])
  }

  function Note(s: State, e: Event): State {
    s.(log := s.log + [e])
  }

  /** The insert of a claim; a version already recorded is a duplicate key. */
  function ClaimStep(s: State, r: nat, todo: seq<int>, reply: Reply): State
    requires |todo| > 0
  {
    var v := todo[0];
    if v in s.records || reply.Refused? then Move(s, r, Idle)
    else
      var s' := Note(s.(records := s.records[v := false]), Claimed(v));
      Move(s', r, if reply.Acked? then Running(todo) else Idle)
  }

  /** The delete of a claim after its body failed; the run ends either way. */
  function ReleaseStep(s: State, r: nat, todo: seq<int>, reply: Reply): State
    requires |todo| > 0
  {
    var v := todo[0];
    if reply.Refused? || v !in s.records then Move(s, r, Idle)
    else Move(Note(s.(records := s.records - {v}), Released(v)), r, Idle)
  }

  /** The update that records completion; it touches nothing when the record is gone. */
  function CompleteStep(s: State, r: nat, todo: seq<int>, reply: Reply): State
    requires |todo| > 0
  {
    var v := todo[0];
    var s' := if reply.Refused? || v !in s.records then s else Note(s.(records := s.records[v := true]), Completed(v));
    Move(s', r, if reply.Acked? then Ready(todo[1..]) else Idle)
  }

  function Next(s: State, step: Step): State
    requires Enabled(s, step)
  {
    var p := PhaseOf(s, step.r);
    match step
    case Start(r, migs, max) =>
      var plan := Cut(Unseen(migs, |migs|, s.records.Keys), max);
      Move(s.(plans := s.plans[r := plan]), r, Ready(plan))
    case Claim(r, reply) => ClaimStep(s, r, p.todo, reply)
    case BodyFails(r) => Move(Note(s, Failed(p.todo[0])), r, BodyFailed(p.todo))
    case BodyReturns(r) => Move(Note(s, Succeeded(p.todo[0])), r, BodyDone(p.todo))
    case Release(r, reply) => ReleaseStep(s, r, p.todo, reply)
    case Complete(r, reply) => CompleteStep(s, r, p.todo, reply)
    case Stop(r) => Move(s, r, Idle)
  }

  const Initial := State(map[], map[], map[], [])

  /** A run from an empty collection. */
  ghost predicate IsRun(run: seq<State>) {
    && |run| > 0 && run[0] == Initial
    && forall i :: 0 <= i < |run| - 1 ==> IsStep(run[i], run[i + 1])
  }

  ghost function Last(run: seq<State>): State
    requires run != []
  {
    run[|run| - 1]
  }

  ghost predicate IsStep(s: State, s': State) {
    exists step :: Enabled(s, step) && s' == Next(s, step)
  }

  // ---------------------------------------------------------------- the life of one version

  /** The only way a version may live: claimed, then either failed and released, or done and
      then recorded. Anything else is `Broken`. */
  datatype Stage = Free | Taken | Spoilt | Done | Recorded | Broken

  function After(stage: Stage, e: Event): Stage {
    match (stage, e)
    case (Free, Claimed(_)) => Taken
    case (Taken, Failed(_)) => Spoilt
    case (Spoilt, Released(_)) => Free
    case (Taken, Succeeded(_)) => Done
    case (Done, Completed(_)) => Recorded
    case _ => Broken
  }

  function StageOf(log: seq<Event>, v: int): Stage {
    if log == [] then Free
    else
      var e := log[|log| - 1];
      var before := StageOf(log[..|log| - 1], v);
      if e.v == v then After(before, e) else before
  }

  lemma {:induction false} StageOfNext(log: seq<Event>, e: Event, v: int)
    ensures StageOf(log + [e], v) == if e.v == v then After(StageOf(log, v), e) else StageOf(log, v)
  {
    assert (log + [e])[..|log|] == log;
  }

  function Count(log: seq<Event>, e: Event): nat {
    if log == [] then 0
    else Count(log[..|log| - 1], e) + if log[|log| - 1] == e then 1 else 0
  }

  /** An unbroken life: one success at most, one record at most, and every claim but the
      standing one was released. */
  lemma {:induction false} LifeCounts(log: seq<Event>, v: int)
    requires StageOf(log, v) != Broken
    ensures var st := StageOf(log, v);
      && Count(log, Succeeded(v)) == (if st == Done || st == Recorded then 1 else 0)
      && Count(log, Completed(v)) == (if st == Recorded then 1 else 0)
      && Count(log, Claimed(v)) == Count(log, Released(v)) + (if st == Free then 0 else 1)
      && Count(log, Failed(v)) == Count(log, Released(v)) + (if st == Spoilt then 1 else 0)
  {
    if log != [] {
      LifeCounts(log[..|log| - 1], v);
    }
  }

  // ---------------------------------------------------------------- the invariant

  /** What the collection and a process say about `v` agrees with its life so far. */
  ghost predicate Agrees(s: State, v: int) {
    var st := StageOf(s.log, v);
    && st != Broken
    && (v in s.records <==> st != Free)
    && (v in s.records ==> (s.records[v] <==> st == Recorded))
  }

  ghost predicate HolderAgrees(s: State, r: nat, v: int) {
    Holds(s, r, v) ==>
      match PhaseOf(s, r)
      case Running(_) => StageOf(s.log, v) == Taken
      case BodyFailed(_) => StageOf(s.log, v) == Spoilt
      case BodyDone(_) => StageOf(s.log, v) == Done
      case _ => true
  }

  ghost predicate Inv(s: State) {
    && (forall v :: Agrees(s, v))
    && (forall r, v :: HolderAgrees(s, r, v))
    && forall r, q, v :: Holds(s, r, v) && Holds(s, q, v) ==> r == q
  }

  /** A step about version `v` by its holder leaves every other version alone. */
  lemma {:induction false} NoteKeepsOthers(s: State, e: Event, s': State)
    requires s'.log == s.log + [e]
    ensures forall v :: v != e.v ==> StageOf(s'.log, v) == StageOf(s.log, v)
    ensures StageOf(s'.log, e.v) == After(StageOf(s.log, e.v), e)
  {
    forall v { StageOfNext(s.log, e, v); }
  }

  /** A process that ends, or is about to claim, with nothing noted. */
  lemma {:induction false} QuietKeeps(s: State, r: nat, p: Phase, plans: map<nat, seq<int>>)
    requires Inv(s) && !Working(p)
    ensures Inv(Move(s.(plans := plans), r, p))
  {
    var s' := Move(s.(plans := plans), r, p);
    assert !Working(PhaseOf(s', r));
    assert forall q :: q != r ==> PhaseOf(s', q) == PhaseOf(s, q);
    forall x ensures Agrees(s', x) {
      assert Agrees(s, x);
    }
    forall q, x ensures HolderAgrees(s', q, x) {
      assert HolderAgrees(s, q, x);
    }
    forall q, o, x | Holds(s', q, x) && Holds(s', o, x) ensures q == o {
      assert Holds(s, q, x) && Holds(s, o, x);
    }
  }

  /** Something happens to the version `r` holds or that nobody holds. */
  lemma {:induction false} EventKeeps(s: State, r: nat, p: Phase, e: Event, records: map<int, bool>)
    requires Inv(s)
    requires Holds(s, r, e.v) || StageOf(s.log, e.v) == Free
    requires forall v :: v != e.v ==> (v in records <==> v in s.records)
    requires forall v :: v != e.v && v in records && v in s.records ==> records[v] == s.records[v]
    requires Working(p) ==> p.todo[0] == e.v
    requires var s' := s.(records := records, runners := s.runners[r := p], log := s.log + [e]);
      Agrees(s', e.v) && HolderAgrees(s', r, e.v)
    ensures Inv(s.(records := records, runners := s.runners[r := p], log := s.log + [e]))
  {
    var s' := s.(records := records, runners := s.runners[r := p], log := s.log + [e]);
    NoteKeepsOthers(s, e, s');
    assert PhaseOf(s', r) == p;
    assert forall q :: q != r ==> PhaseOf(s', q) == PhaseOf(s, q);
    forall q | q != r ensures !Holds(s', q, e.v) {
      assert PhaseOf(s', q) == PhaseOf(s, q) && HolderAgrees(s, q, e.v);
      if Holds(s, r, e.v) {
        assert !Holds(s, q, e.v);
      }
    }
    forall x ensures Agrees(s', x) {
      assert Agrees(s, x);
    }
    forall q, x ensures HolderAgrees(s', q, x) {
      assert HolderAgrees(s, q, x);
    }
    forall q, o, x | Holds(s', q, x) && Holds(s', o, x) ensures q == o {
      if x != e.v {
        assert Holds(s, q, x) && Holds(s, o, x);
      }
    }
  }

  lemma {:induction false} ClaimKeeps(s: State, r: nat, todo: seq<int>, reply: Reply)
    requires Inv(s) && PhaseOf(s, r) == Ready(todo) && todo != []
    ensures Inv(ClaimStep(s, r, todo, reply))
  {
    var v := todo[0];
    assert Agrees(s, v);
    if v in s.records || reply.Refused? {
      QuietKeeps(s, r, Idle, s.plans);
    } else {
      StageOfNext(s.log, Claimed(v), v);
      EventKeeps(s, r, if reply.Acked? then Running(todo) else Idle, Claimed(v), s.records[v := false]);
    }
  }

  lemma {:induction false} BodyKeeps(s: State, r: nat, todo: seq<int>, done: bool)
    requires Inv(s) && PhaseOf(s, r) == Running(todo) && todo != []
    ensures Inv(Next(s, if done then BodyReturns(r) else BodyFails(r)))
  {
    var v := todo[0];
    assert Agrees(s, v) && HolderAgrees(s, r, v);
    var e := if done then Succeeded(v) else Failed(v);
    StageOfNext(s.log, e, v);
    EventKeeps(s, r, if done then BodyDone(todo) else BodyFailed(todo), e, s.records);
  }

  lemma {:induction false} ReleaseKeeps(s: State, r: nat, todo: seq<int>, reply: Reply)
    requires Inv(s) && PhaseOf(s, r) == BodyFailed(todo) && todo != []
    ensures Inv(ReleaseStep(s, r, todo, reply))
  {
    var v := todo[0];
    assert Agrees(s, v) && HolderAgrees(s, r, v);
    if reply.Refused? {
      QuietKeeps(s, r, Idle, s.plans);
    } else {
      StageOfNext(s.log, Released(v), v);
      EventKeeps(s, r, Idle, Released(v), s.records - {v});
    }
  }

  lemma {:induction false} CompleteKeeps(s: State, r: nat, todo: seq<int>, reply: Reply)
    requires Inv(s) && PhaseOf(s, r) == BodyDone(todo) && todo != []
    ensures Inv(CompleteStep(s, r, todo, reply))
  {
    var v := todo[0];
    assert Agrees(s, v) && HolderAgrees(s, r, v);
    if reply.Refused? {
      QuietKeeps(s, r, Idle, s.plans);
    } else {
      StageOfNext(s.log, Completed(v), v);
      EventKeeps(s, r, if reply.Acked? then Ready(todo[1..]) else Idle, Completed(v), s.records[v := true]);
    }
  }

  lemma {:induction false} StepKeeps(s: State, step: Step)
    requires Inv(s) && Enabled(s, step)
    ensures Inv(Next(s, step))
  {
    var p := PhaseOf(s, step.r);
    match step {
      case Start(r, migs, max) =>
        var plan := Cut(Unseen(migs, |migs|, s.records.Keys), max);
        QuietKeeps(s, r, Ready(plan), s.plans[r := plan]);
      case Claim(r, reply) => ClaimKeeps(s, r, p.todo, reply);
      case BodyFails(r) => BodyKeeps(s, r, p.todo, false);
      case BodyReturns(r) => BodyKeeps(s, r, p.todo, true);
      case Release(r, reply) => ReleaseKeeps(s, r, p.todo, reply);
      case Complete(r, reply) => CompleteKeeps(s, r, p.todo, reply);
      case Stop(r) => QuietKeeps(s, r, Idle, s.plans);
    }
  }

  lemma {:induction false} RunKeeps(run: seq<State>, i: nat)
    requires IsRun(run) && i < |run|
    ensures Inv(run[i])
  {
    if i > 0 {
      RunKeeps(run, i - 1);
      assert IsStep(run[i - 1], run[i - 1 + 1]);
      var step :| Enabled(run[i - 1], step) && run[i] == Next(run[i - 1], step);
      StepKeeps(run[i - 1], step);
    }
  }

  /** Over every run: one process at a time works on a version, its body succeeds at most
      once and completes at most once, and it is run again only after a release. */
  lemma {:induction false} EachVersionOnce(run: seq<State>, i: nat, v: int)
    requires IsRun(run) && i < |run|
    ensures forall r, q :: Holds(run[i], r, v) && Holds(run[i], q, v) ==> r == q
    ensures Count(run[i].log, Succeeded(v)) <= 1
    ensures Count(run[i].log, Completed(v)) <= Count(run[i].log, Succeeded(v))
    ensures Count(run[i].log, Released(v)) <= Count(run[i].log, Claimed(v)) <= Count(run[i].log, Released(v)) + 1
    ensures v in run[i].records && run[i].records[v] <==> Count(run[i].log, Completed(v)) == 1
    ensures v in run[i].records <==> Count(run[i].log, Claimed(v)) == Count(run[i].log, Released(v)) + 1
  {
    RunKeeps(run, i);
    assert Agrees(run[i], v);
    LifeCounts(run[i].log, v);
  }

  // ---------------------------------------------------------------- the code of one process

  lemma {:induction false} RecordedStays(s: State, step: Step, v: int)
    requires Inv(s) && Enabled(s, step) && IsRecorded(s, v)
    ensures IsRecorded(Next(s, step), v)
  {
    assert Agrees(s, v);
    if PhaseOf(s, step.r).BodyFailed? && |PhaseOf(s, step.r).todo| > 0 {
      assert HolderAgrees(s, step.r, PhaseOf(s, step.r).todo[0]);
    }
  }

  lemma {:induction false} BodyDoneIsClaimed(s: State, r: nat)
    requires Inv(s) && PhaseOf(s, r).BodyDone? && PhaseOf(s, r).todo != []
    ensures PhaseOf(s, r).todo[0] in s.records
  {
    var v := PhaseOf(s, r).todo[0];
    assert Agrees(s, v) && HolderAgrees(s, r, v);
  }

  /** How the operations on one version go: the answers to its writes, and whether its body succeeds. */
  datatype Fate = Fate(claim: Reply, succeeds: bool, release: Reply, record: Reply)

  predicate Smooth(fate: Fate) {
    fate.claim.Acked? && fate.succeeds && fate.record.Acked?
  }

  lemma {:induction false} SpoiltIsClaimed(s: State, r: nat)
    requires Inv(s) && PhaseOf(s, r).BodyFailed? && PhaseOf(s, r).todo != []
    ensures PhaseOf(s, r).todo[0] in s.records
  {
    var v := PhaseOf(s, r).todo[0];
    assert Agrees(s, v) && HolderAgrees(s, r, v);
  }

  lemma {:induction false} LogGrows(s: State, step: Step)
    requires Enabled(s, step)
    ensures s.log <= Next(s, step).log
  {
  }

  /** How a run ends, or the work on one version. The error the code returns says which. */
  datatype Ending = Finished | Tampered | Unclaimed(v: int) | Undone(v: int) | Unrecorded(v: int)

  /** The protocol steps of one version, by how its work ends. */
  function TurnSteps(me: nat, fate: Fate, ending: Ending): seq<Step> {
    match ending
    case Tampered => []
    case Unclaimed(_) => [Claim(me, fate.claim)]
    case Undone(_) => [Claim(me, fate.claim), BodyFails(me), Release(me, fate.release)]
    case _ => [Claim(me, fate.claim), BodyReturns(me), Complete(me, fate.record)]
  }

  /** And of the first `n` versions, all applied. */
  function TurnsSteps(me: nat, fates: nat -> Fate, n: nat): seq<Step> {
    if n == 0 then [] else TurnsSteps(me, fates, n - 1) + TurnSteps(me, fates(n - 1), Finished)
  }

  /** `v` failed since the log was `before`, and then its claim was released, which is the last that happened. */
  ghost predicate GivenBack(before: seq<Event>, s: State, v: int) {
    && v !in s.records && |s.log| > 0 && s.log[|s.log| - 1] == Released(v)
    && exists n :: |before| <= n < |s.log| - 1 && s.log[n] == Failed(v)
  }

  /** `UpN` in one process, the others free to move between any two of its operations. */
  class Migrator {
    const me: nat
    var world: State
    ghost var run: seq<State>
    ghost var mine: seq<Step>             // the steps this process took

    ghost predicate Valid()
      reads this
    {
      IsRun(run) && Last(run) == world
    }

    constructor (me: nat)
      ensures Valid() && this.me == me && world.records == map[] && mine == []
    {
      this.me := me;
      world := Initial;
      run := [Initial];
      mine := [];
    }

    /** What was recorded before still is. */
    twostate predicate Kept()
      reads this
    {
      && old(run) <= run && old(world.log) <= world.log
      && forall v :: old(IsRecorded(world, v)) ==> IsRecorded(world, v)
    }

    method Do(step: Step)
      requires Valid() && Enabled(world, step)
      modifies this
      ensures Valid() && Kept() && world == Next(old(world), step) && run == old(run) + [world]
      ensures mine == old(mine) + if step.r == me then [step] else []
    {
      LogGrows(world, step);
      RunKeeps(run, |run| - 1);
      forall v | IsRecorded(world, v) ensures IsRecorded(Next(world, step), v) {
        RecordedStays(world, step, v);
      }
      ghost var last := world;
      world := Next(world, step);
      assert IsStep(last, world);
      run := run + [world];
      if step.r == me {
        mine := mine + [step];
      }
    }

    /** Other processes move, any number of steps. */
    method Others()
      requires Valid()
      modifies this
      ensures Valid() && Kept() && PhaseOf(world, me) == old(PhaseOf(world, me)) && mine == old(mine)
    {
      var steps: seq<Step> := *;
      for i := 0 to |steps|
        invariant Valid() && Kept() && PhaseOf(world, me) == old(PhaseOf(world, me)) && mine == old(mine)
      {
        if steps[i].r != me && Enabled(world, steps[i]) {
          Do(steps[i]);
        }
      }
    }

    /** `Pending`, read once at the start. */
    method Plan(migs: seq<int>, max: int) returns (pending: seq<int>)
      requires Valid() && PhaseOf(world, me).Idle? && Ascending(migs)
      modifies this
      ensures Valid() && Kept() && PhaseOf(world, me) == Ready(pending)
      ensures mine == old(mine) + [Start(me, migs, max)]
      ensures pending == PendingAt(old(world), migs, max)
      ensures Ascending(pending) && forall v :: v in pending ==> v in migs
    {
      PendingIs(migs, world.records.Keys, max);
      pending := Cut(Unseen(migs, |migs|, world.records.Keys), max);
      Do(Start(me, migs, max));
    }

    method TryClaim(todo: seq<int>, fate: Fate) returns (claimed: bool)
      requires Valid() && todo != [] && PhaseOf(world, me) == Ready(todo)
      modifies this
      ensures Valid() && Kept()
      ensures PhaseOf(world, me) == if claimed then Running(todo) else Idle
      ensures if claimed then fate.claim.Acked? else !fate.claim.Acked? || todo[0] in world.records
      ensures mine == old(mine) + [Claim(me, fate.claim)]
    {
      Others();
      Do(Claim(me, fate.claim));
      claimed := PhaseOf(world, me) != Idle;
    }

    /** The body, and the release of the claim when it fails. */
    method RunBody(todo: seq<int>, fate: Fate) returns (done: bool)
      requires Valid() && todo != [] && PhaseOf(world, me) == Running(todo)
      modifies this
      ensures Valid() && Kept() && done == fate.succeeds
      ensures PhaseOf(world, me) == if done then BodyDone(todo) else Idle
      ensures mine == old(mine) + if done then [BodyReturns(me)] else [BodyFails(me), Release(me, fate.release)]
      ensures !done && !fate.release.Refused? ==> GivenBack(old(world.log), world, todo[0])
    {
      Others();
      done := fate.succeeds;
      if done {
        Do(BodyReturns(me));
        return;
      }
      Do(BodyFails(me));
      ghost var n := |world.log| - 1;
      assert world.log[n] == Failed(todo[0]);
      Others();
      RunKeeps(run, |run| - 1);
      SpoiltIsClaimed(world, me);
      Do(Release(me, fate.release));
      assert |old(world.log)| <= n && world.log[n] == Failed(todo[0]);
    }

    method Record(todo: seq<int>, fate: Fate) returns (done: bool)
      requires Valid() && todo != [] && PhaseOf(world, me) == BodyDone(todo)
      modifies this
      ensures Valid() && Kept() && done == fate.record.Acked?
      ensures PhaseOf(world, me) == if done then Ready(todo[1..]) else Idle
      ensures done ==> IsRecorded(world, todo[0])
      ensures mine == old(mine) + [Complete(me, fate.record)]
    {
      Others();
      RunKeeps(run, |run| - 1);
      BodyDoneIsClaimed(world, me);
      Do(Complete(me, fate.record));
      done := fate.record.Acked?;
    }

    /** One turn of the loop: claim, run the body, then record it or release the claim. It ends the
        run only when something went wrong or the version is claimed already. A body that fails leaves no
        claim behind, unless the delete was refused. */
    method ApplyOne(todo: seq<int>, fate: Fate) returns (ending: Ending)
      requires Valid() && todo != [] && PhaseOf(world, me) == Ready(todo)
      modifies this
      ensures Valid() && Kept()
      ensures PhaseOf(world, me) == if ending.Finished? then Ready(todo[1..]) else Idle
      ensures ending in {Finished, Unclaimed(todo[0]), Undone(todo[0]), Unrecorded(todo[0])}
      ensures mine == old(mine) + TurnSteps(me, fate, ending)
      ensures match ending
        case Unclaimed(v) => !fate.claim.Acked? || v in world.records
        case Undone(v) => !fate.succeeds && (fate.release.Refused? || GivenBack(old(world.log), world, v))
        case Unrecorded(v) => fate.succeeds && !fate.record.Acked?
        case _ => Smooth(fate) && IsRecorded(world, todo[0])
    {
      var done := TryClaim(todo, fate);
      if !done {
        return Unclaimed(todo[0]);
      }
      done := RunBody(todo, fate);
      if !done {
        return Undone(todo[0]);
      }
      done := Record(todo, fate);
      ending := if done then Finished else Unrecorded(todo[0]);
    }

    /** Every operation is a step of the protocol, so all that holds of its runs holds of this code.
        It works on what was pending at some moment of the call; what it reports applied is recorded,
        in ascending order; it stops early only at a version that went wrong or was claimed already, and
        takes no steps but those its ending names. */
    method UpN(migs: seq<int>, max: int, changed: bool, fates: nat -> Fate) returns (pending: seq<int>,
        applied: seq<int>, ending: Ending)
      requires Valid() && PhaseOf(world, me).Idle? && Ascending(migs)
      modifies this
      ensures Valid() && Kept() && PhaseOf(world, me).Idle?
      ensures changed <==> ending.Tampered?
      ensures changed ==> pending == []
      ensures !changed ==> exists s :: s in run && pending == PendingAt(s, migs, max)
      ensures Ascending(pending) && forall v :: v in pending ==> v in migs
      ensures applied <= pending && (ending.Finished? <==> !changed && applied == pending)
      ensures forall v :: v in applied ==> IsRecorded(world, v)
      ensures forall i :: 0 <= i < |applied| ==> Smooth(fates(i))
      ensures !ending.Finished? && !changed ==>
        |applied| < |pending| && StoppedAt(old(world.log), world, fates(|applied|), ending, pending[|applied|])
      ensures mine == old(mine) + RunSteps(me, migs, max, fates, |applied|, ending)
    {
      pending, applied, ending := [], [], Tampered;
      Others();
      if changed {
        return;
      }
      ghost var read := world;
      assert read in run;
      pending, applied, ending := RunPlan(migs, max, fates);
      if !ending.Finished? {
        StoppedSince(old(world.log), read.log, world, fates(|applied|), ending, pending[|applied|]);
      }
    }

    /** The pending list, the loop over it, and the end of the run. */
    method RunPlan(migs: seq<int>, max: int, fates: nat -> Fate) returns (pending: seq<int>, applied: seq<int>,
        ending: Ending)
      requires Valid() && PhaseOf(world, me).Idle? && Ascending(migs)
      modifies this
      ensures Valid() && Kept() && PhaseOf(world, me).Idle? && !ending.Tampered?
      ensures pending == PendingAt(old(world), migs, max)
      ensures Ascending(pending) && forall v :: v in pending ==> v in migs
      ensures applied <= pending && (ending.Finished? <==> applied == pending)
      ensures forall v :: v in applied ==> IsRecorded(world, v)
      ensures forall i :: 0 <= i < |applied| ==> Smooth(fates(i))
      ensures !ending.Finished? ==>
        |applied| < |pending| && StoppedAt(old(world.log), world, fates(|applied|), ending, pending[|applied|])
      ensures mine == old(mine) + RunSteps(me, migs, max, fates, |applied|, ending)
    {
      pending := Plan(migs, max);
      ghost var planned := world.log;
      applied, ending := ApplyAll(pending, fates);
      Regroup(old(mine), [Start(me, migs, max)], LoopSteps(me, fates, |applied|, ending),
              if ending.Finished? then [Stop(me)] else []);
      if ending.Finished? {
        Do(Stop(me));
      } else {
        StoppedSince(old(world.log), planned, world, fates(|applied|), ending, pending[|applied|]);
      }
    }

    /** The loop over the pending list. */
    method ApplyAll(pending: seq<int>, fates: nat -> Fate) returns (applied: seq<int>, ending: Ending)
      requires Valid() && PhaseOf(world, me) == Ready(pending)
      modifies this
      ensures Valid() && Kept() && !ending.Tampered?
      ensures PhaseOf(world, me) == if ending.Finished? then Ready([]) else Idle
      ensures applied <= pending && (ending.Finished? <==> applied == pending)
      ensures forall v :: v in applied ==> IsRecorded(world, v)
      ensures forall i :: 0 <= i < |applied| ==> Smooth(fates(i))
      ensures !ending.Finished? ==>
        |applied| < |pending| && StoppedAt(old(world.log), world, fates(|applied|), ending, pending[|applied|])
      ensures mine == old(mine) + LoopSteps(me, fates, |applied|, ending)
    {
      applied := [];
      for i := 0 to |pending|
        invariant Valid() && Kept()
        invariant PhaseOf(world, me) == Ready(pending[i..])
        invariant applied == pending[..i]
        invariant forall v :: v in applied ==> IsRecorded(world, v)
        invariant forall k :: 0 <= k < i ==> Smooth(fates(k))
        invariant mine == old(mine) + TurnsSteps(me, fates, i)
      {
        ghost var before := world.log;
        ending := ApplyOne(pending[i..], fates(i));
        if !ending.Finished? {
          StoppedSince(old(world.log), before, world, fates(i), ending, pending[i]);
          return;
        }
        applied := applied + [pending[i]];
      }
      ending := Finished;
    }
  }

  /** The steps of a loop that applied `n` versions, and of a whole run. */
  function LoopSteps(me: nat, fates: nat -> Fate, n: nat, ending: Ending): seq<Step> {
    TurnsSteps(me, fates, n) + if ending.Finished? then [] else TurnSteps(me, fates(n), ending)
  }

  function RunSteps(me: nat, migs: seq<int>, max: int, fates: nat -> Fate, n: nat, ending: Ending): seq<Step> {
    if ending.Tampered? then []
    else ([Start(me, migs, max)] + LoopSteps(me, fates, n, ending)) + if ending.Finished? then [Stop(me)] else []
  }

  lemma {:induction false} Regroup<T>(a: seq<T>, b: seq<T>, c: seq<T>, d: seq<T>)
    ensures ((a + b) + c) + d == a + ((b + c) + d)
    ensures d == [] ==> (a + b) + c == a + ((b + c) + d)
  {
  }

  lemma {:induction false} StoppedSince(earlier: seq<Event>, before: seq<Event>, s: State, fate: Fate,
                                        ending: Ending, v: int)
    requires earlier <= before && StoppedAt(before, s, fate, ending, v)
    ensures StoppedAt(earlier, s, fate, ending, v)
  {
  }

  /** Why a run stopped at `v`. One whose body failed was given back, unless the server refused. */
  ghost predicate StoppedAt(before: seq<Event>, s: State, fate: Fate, ending: Ending, v: int) {
    || (ending == Unclaimed(v) && (!fate.claim.Acked? || v in s.records))
    || (ending == Undone(v) && !fate.succeeds && (fate.release.Refused? || GivenBack(before, s, v)))
    || (ending == Unrecorded(v) && fate.succeeds && !fate.record.Acked?)
  }

  /** What a process that starts in state `s` finds pending. */
  ghost function PendingAt(s: State, migs: seq<int>, max: int): seq<int> {
    Cut(Unseen(migs, |migs|, s.records.Keys), max)
  }
}
