/** The Kafka consume loop: fetch, take a slot, dispatch, reply, commit, with crashes and restarts. */
module KafkaListen {
  import opened Options

  /** What a partition holds at an offset. */
  datatype Kind = Malformed | Event | Request

  type Topic = (nat, nat) -> Kind

  datatype Message = Message(p: nat, o: nat)

  /** A handler goroutine. */
  datatype Phase = Received | Handling | Replying | Committing

  datatype Job = Job(m: Message, phase: Phase)

  /** What can be seen from outside: a message handed to the dispatcher, the dispatcher's return, a
      reply attempted, an offset committed. */
  datatype Note = Dispatched(m: Message) | Returned(m: Message, ok: bool) | Replied(m: Message) | Committed(m: Message)

  /** Where a group begins in a partition without a committed offset: `StartOffset`. */
  datatype Policy = First | Last

  /** `Concurrency` and `StartOffset`. */
  datatype Settings = Settings(slots: nat, start: Policy)

  /** Per partition: `cursor` is the next offset the reader will fetch, `committed` the group's watermark,
      and `ends` how many messages there are known to be. `from` is where the first start began. `base` is
      where the last start began in a partition without a committed offset, and stands still after its
      first commit. `epoch` is the length of the log when the current run started. */
  datatype State = State(
    cursor: map<nat, nat>,
    committed: map<nat, nat>,
    ends: map<nat, nat>,
    from: Option<map<nat, nat>>,
    base: map<nat, nat>,
    running: bool,
    waiting: Option<Message>,
    jobs: map<nat, Job>,
    log: seq<Note>,
    epoch: nat)

  /** `Cancel` stops the loop: what waits for a slot stays uncommitted, and jobs run to their end.
      `Crash` loses everything but the watermarks. */
  datatype Step =
    | Start(ends: map<nat, nat>)        // partitions have grown to these ends
    | Fetch(p: nat)
    | TakeSlot(slot: nat)
    | Decode(slot: nat)
    | DispatchReturns(slot: nat, ok: bool)
    | Reply(slot: nat)
    | Commit(slot: nat, ok: bool)
    | Cancel
    | Crash

  function At(m: map<nat, nat>, p: nat): nat {
    if p in m then m[p] else 0
  }

  /** Where a start begins in the partitions without a committed offset. */
  function Anew(start: Policy, ends: map<nat, nat>, committed: map<nat, nat>): map<nat, nat> {
    if start.First? then map[] else ends - committed.Keys
  }

  predicate NotBelow(ends: map<nat, nat>, ends': map<nat, nat>) {
    forall p :: p in ends ==> ends[p] <= At(ends', p)
  }

  /** The reader is given the committed offsets, and begins elsewhere as its policy has it. */
  function StartStep(start: Policy, s: State, ends: map<nat, nat>): State {
    var anew := Anew(start, ends, s.committed);
    var base := anew + (map p | p in s.base && p in s.committed :: s.base[p]);
    s.(running := true, cursor := anew + s.committed, ends := ends, waiting := None, epoch := |s.log|,
       base := base, from := if s.from.None? then Some(base) else s.from)
  }

  function FetchStep(s: State, p: nat): State {
    var o := At(s.cursor, p);
    s.(waiting := Some(Message(p, o)), cursor := s.cursor[p := o + 1],
       ends := if o < At(s.ends, p) then s.ends else s.ends[p := o + 1])
  }

  predicate Enabled(opts: Settings, s: State, step: Step) {
    match step
    case Start(ends) => !s.running && s.jobs == map[] && NotBelow(s.ends, ends)
    case Fetch(p) => s.running && s.waiting.None?
    case TakeSlot(slot) => s.running && s.waiting.Some? && slot < opts.slots && slot !in s.jobs
    case Decode(slot) => slot in s.jobs && s.jobs[slot].phase.Received?
    case DispatchReturns(slot, _) => slot in s.jobs && s.jobs[slot].phase.Handling?
    case Reply(slot) => slot in s.jobs && s.jobs[slot].phase.Replying?
    case Commit(slot, _) => slot in s.jobs && s.jobs[slot].phase.Committing?
    case Cancel => true
    case Crash => true
  }

  function Advance(s: State, slot: nat, phase: Phase): State
    requires slot in s.jobs
  {
    s.(jobs := s.jobs[slot := s.jobs[slot].(phase := phase)])
  }

  /** A malformed message goes straight to its commit; any other is handed to the dispatcher. */
  function DecodeStep(t: Topic, s: State, slot: nat): State
    requires slot in s.jobs
  {
    var m := s.jobs[slot].m;
    if t(m.p, m.o).Malformed? then Advance(s, slot, Committing)
    else Advance(s.(log := s.log + [Dispatched(m)]), slot, Handling)
  }

  /** A failed commit leaves the watermark; either way the job is over. */
  function CommitStep(s: State, slot: nat, ok: bool): State
    requires slot in s.jobs && s.jobs[slot].phase.Committing?
  {
    var job := s.jobs[slot];
    var s' := s.(jobs := s.jobs - {slot});
    if ok then s'.(committed := s'.committed[job.m.p := job.m.o + 1], log := s'.log + [Committed(job.m)]) else s'
  }

  function Next(t: Topic, opts: Settings, s: State, step: Step): State
    requires Enabled(opts, s, step)
  {
    match step
    case Start(ends) => StartStep(opts.start, s, ends)
    case Fetch(p) => FetchStep(s, p)
    case TakeSlot(slot) => s.(jobs := s.jobs[slot := Job(s.waiting.value, Received)], waiting := None)
    case Decode(slot) => DecodeStep(t, s, slot)
    case DispatchReturns(slot, ok) =>
      var m := s.jobs[slot].m;
      Advance(s.(log := s.log + [Returned(m, ok)]), slot, if ok && t(m.p, m.o).Request? then Replying else Committing)
    case Reply(slot) => Advance(s.(log := s.log + [Replied(s.jobs[slot].m)]), slot, Committing)
    case Commit(slot, ok) => CommitStep(s, slot, ok)
    case Cancel => s.(running := false)
    case Crash => s.(running := false, cursor := s.committed, waiting := None, jobs := map[], epoch := |s.log|)
  }

  ghost predicate IsStep(t: Topic, opts: Settings, s: State, s': State) {
    exists step :: Enabled(opts, s, step) && s' == Next(t, opts, s, step)
  }

  const Initial := State(map[], map[], map[], None, map[], false, None, map[], [], 0)

  /** A run of a consumer with given options. */
  ghost predicate IsRun(t: Topic, opts: Settings, run: seq<State>) {
    && |run| > 0 && run[0] == Initial
    && forall i :: 0 <= i < |run| - 1 ==> IsStep(t, opts, run[i], run[i + 1])
  }

  // ---------------------------------------------------------------- what is promised

  predicate Settled(t: Topic, log: seq<Note>, m: Message) {
    t(m.p, m.o).Malformed? || Dispatched(m) in log
  }

  /** Where the first start began. */
  function Began(s: State, p: nat): nat {
    if s.from.None? then 0 else At(s.from.value, p)
  }

  /** Nothing below a watermark was skipped, from where the first start began. */
  ghost predicate NothingLost(t: Topic, s: State) {
    forall p: nat, o: nat :: Began(s, p) <= o < At(s.committed, p) ==> Settled(t, s.log, Message(p, o))
  }

  /** Nothing below a watermark was skipped, from where the partition was begun before its first commit. */
  ghost predicate NothingLostSince(t: Topic, s: State) {
    forall p: nat, o: nat :: At(s.base, p) <= o < At(s.committed, p) ==> Settled(t, s.log, Message(p, o))
  }

  /** Within a run the dispatches of a partition go in offset order. */
  ghost predicate InOrder(log: seq<Note>, epoch: nat) {
    forall i, j :: epoch <= i < j < |log| && log[i].Dispatched? && log[j].Dispatched? && log[i].m.p == log[j].m.p ==>
        log[i].m.o < log[j].m.o
  }

  /** The dispatcher has returned `m`, a request, without an error, and no reply was attempted since. */
  function Owes(t: Topic, log: seq<Note>, m: Message): bool {
    if log == [] then false
    else
      var note := log[|log| - 1];
      var before := Owes(t, log[..|log| - 1], m);
      if note.m != m then before
      else match note
        case Dispatched(_) => false
        case Returned(_, ok) => before || (ok && t(m.p, m.o).Request?)
        case Replied(_) => false
        case Committed(_) => before
  }

  /** No offset is committed while a reply is owed, and no reply is attempted that is not. */
  ghost predicate PaidUp(t: Topic, log: seq<Note>) {
    forall i :: 0 <= i < |log| ==>
      && (log[i].Committed? ==> !Owes(t, log[..i], log[i].m))
      && (log[i].Replied? ==> Owes(t, log[..i], log[i].m))
  }

  // ---------------------------------------------------------------- any number of slots

  /** A message of this run, fetched. */
  predicate Fetched(s: State, m: Message) {
    m.o < At(s.cursor, m.p)
  }

  /** No message is in two hands. */
  ghost predicate OwnMessages(s: State) {
    && (s.waiting.Some? ==> Fetched(s, s.waiting.value))
    && (forall slot :: slot in s.jobs ==> Fetched(s, s.jobs[slot].m) && s.waiting != Some(s.jobs[slot].m))
    && forall a, b :: a in s.jobs && b in s.jobs && s.jobs[a].m == s.jobs[b].m ==> a == b
  }

  /** A handler is about to reply exactly when it owes one. */
  ghost predicate JobOwes(t: Topic, s: State, slot: nat)
    requires slot in s.jobs
  {
    match s.jobs[slot].phase
    case Received => true
    case Replying => Owes(t, s.log, s.jobs[slot].m)
    case _ => !Owes(t, s.log, s.jobs[slot].m)
  }

  ghost predicate Debts(t: Topic, s: State) {
    OwnMessages(s) && PaidUp(t, s.log) && forall slot :: slot in s.jobs ==> JobOwes(t, s, slot)
  }

  lemma {:induction false} OwesNext(t: Topic, log: seq<Note>, note: Note, m: Message)
    ensures note.m != m || note.Committed? ==> Owes(t, log + [note], m) == Owes(t, log, m)
    ensures note.m == m && (note.Dispatched? || note.Replied?) ==> !Owes(t, log + [note], m)
    ensures note.m == m && note.Returned? ==>
      Owes(t, log + [note], m) == (Owes(t, log, m) || (note.ok && t(m.p, m.o).Request?))
  {
    assert (log + [note])[..|log|] == log;
  }

  lemma {:induction false} OnlyRequestsOwe(t: Topic, log: seq<Note>, m: Message)
    requires Owes(t, log, m)
    ensures t(m.p, m.o).Request?
  {
    if !(log[|log| - 1] == Returned(m, true) && t(m.p, m.o).Request?) {
      OnlyRequestsOwe(t, log[..|log| - 1], m);
    }
  }

  lemma {:induction false} PaidUpGrows(t: Topic, log: seq<Note>, note: Note)
    requires PaidUp(t, log)
    requires note.Committed? ==> !Owes(t, log, note.m)
    requires note.Replied? ==> Owes(t, log, note.m)
    ensures PaidUp(t, log + [note])
  {
    var log' := log + [note];
    forall i | 0 <= i < |log'|
      ensures log'[i].Committed? ==> !Owes(t, log'[..i], log'[i].m)
      ensures log'[i].Replied? ==> Owes(t, log'[..i], log'[i].m)
    {
      assert log'[..i] == log[..i];
      assert i == |log| ==> log[..i] == log;
    }
  }

  lemma {:induction false} FetchOwn(s: State, p: nat)
    requires OwnMessages(s) && s.waiting.None?
    ensures OwnMessages(FetchStep(s, p))
  {
  }

  lemma {:induction false} SlotOwn(s: State, slot: nat)
    requires OwnMessages(s) && s.waiting.Some? && slot !in s.jobs
    ensures OwnMessages(s.(jobs := s.jobs[slot := Job(s.waiting.value, Received)], waiting := None))
  {
  }

  /** A handler's note about its own message leaves the debts of the others alone. */
  lemma {:induction false} NoteKeepsDebts(t: Topic, s: State, slot: nat, note: Note, phase: Phase)
    requires Debts(t, s) && slot in s.jobs && note.m == s.jobs[slot].m && PaidUp(t, s.log + [note])
    requires JobOwes(t, Advance(s.(log := s.log + [note]), slot, phase), slot)
    ensures Debts(t, Advance(s.(log := s.log + [note]), slot, phase))
  {
    var s' := Advance(s.(log := s.log + [note]), slot, phase);
    forall x | x in s'.jobs ensures JobOwes(t, s', x) {
      if x != slot {
        assert JobOwes(t, s, x);
        OwesNext(t, s.log, note, s.jobs[x].m);
      }
    }
  }

  lemma {:induction false} DecodeKeepsDebts(t: Topic, s: State, slot: nat)
    requires Debts(t, s) && slot in s.jobs && s.jobs[slot].phase.Received?
    ensures Debts(t, DecodeStep(t, s, slot))
  {
    var m := s.jobs[slot].m;
    if t(m.p, m.o).Malformed? {
      var s' := Advance(s, slot, Committing);
      if Owes(t, s.log, m) {
        OnlyRequestsOwe(t, s.log, m);
      }
      forall x | x in s'.jobs ensures JobOwes(t, s', x) {
        assert JobOwes(t, s, x);
      }
    } else {
      OwesNext(t, s.log, Dispatched(m), m);
      PaidUpGrows(t, s.log, Dispatched(m));
      NoteKeepsDebts(t, s, slot, Dispatched(m), Handling);
    }
  }

  lemma {:induction false} ReturnKeepsDebts(t: Topic, s: State, slot: nat, ok: bool)
    requires Debts(t, s) && slot in s.jobs && s.jobs[slot].phase.Handling?
    ensures var m := s.jobs[slot].m;
      Debts(t, Advance(s.(log := s.log + [Returned(m, ok)]), slot,
                       if ok && t(m.p, m.o).Request? then Replying else Committing))
  {
    var m := s.jobs[slot].m;
    assert JobOwes(t, s, slot);
    OwesNext(t, s.log, Returned(m, ok), m);
    PaidUpGrows(t, s.log, Returned(m, ok));
    NoteKeepsDebts(t, s, slot, Returned(m, ok), if ok && t(m.p, m.o).Request? then Replying else Committing);
  }

  lemma {:induction false} ReplyKeepsDebts(t: Topic, s: State, slot: nat)
    requires Debts(t, s) && slot in s.jobs && s.jobs[slot].phase.Replying?
    ensures Debts(t, Advance(s.(log := s.log + [Replied(s.jobs[slot].m)]), slot, Committing))
  {
    var m := s.jobs[slot].m;
    assert JobOwes(t, s, slot);
    OwesNext(t, s.log, Replied(m), m);
    PaidUpGrows(t, s.log, Replied(m));
    NoteKeepsDebts(t, s, slot, Replied(m), Committing);
  }

  lemma {:induction false} CommitKeepsDebts(t: Topic, s: State, slot: nat, ok: bool)
    requires Debts(t, s) && slot in s.jobs && s.jobs[slot].phase.Committing?
    ensures Debts(t, CommitStep(s, slot, ok))
  {
    FreeKeepsDebts(t, s, slot);
    if ok {
      var m := s.jobs[slot].m;
      assert JobOwes(t, s, slot);
      CommittedKeepsDebts(t, s.(jobs := s.jobs - {slot}), m, s.committed[m.p := m.o + 1]);
    }
  }

  lemma {:induction false} FreeKeepsDebts(t: Topic, s: State, slot: nat)
    requires Debts(t, s)
    ensures Debts(t, s.(jobs := s.jobs - {slot}))
  {
    SilentKeepsDebts(t, s, s.(jobs := s.jobs - {slot}));
  }

  /** Nobody's debt depends on a commit. */
  lemma {:induction false} CommittedKeepsDebts(t: Topic, s: State, m: Message, committed: map<nat, nat>)
    requires Debts(t, s) && !Owes(t, s.log, m)
    ensures Debts(t, s.(committed := committed, log := s.log + [Committed(m)]))
  {
    var s' := s.(committed := committed, log := s.log + [Committed(m)]);
    PaidUpGrows(t, s.log, Committed(m));
    forall x | x in s'.jobs ensures JobOwes(t, s', x) {
      assert JobOwes(t, s, x);
      OwesNext(t, s.log, Committed(m), s.jobs[x].m);
    }
  }

  /** Fetching, taking a slot, starting and stopping note nothing. */
  lemma {:induction false} SilentKeepsDebts(t: Topic, s: State, s': State)
    requires Debts(t, s) && OwnMessages(s') && s'.log == s.log
    requires forall x :: x in s'.jobs ==> s'.jobs[x].phase.Received? || (x in s.jobs && s'.jobs[x] == s.jobs[x])
    ensures Debts(t, s')
  {
    forall x | x in s'.jobs ensures JobOwes(t, s', x) {
      if x in s.jobs {
        assert JobOwes(t, s, x);
      }
    }
  }

  lemma {:induction false} StepKeepsDebts(t: Topic, opts: Settings, s: State, step: Step)
    requires Debts(t, s) && Enabled(opts, s, step)
    ensures Debts(t, Next(t, opts, s, step))
  {
    match step {
      case Decode(slot) => DecodeKeepsDebts(t, s, slot);
      case DispatchReturns(slot, ok) => ReturnKeepsDebts(t, s, slot, ok);
      case Reply(slot) => ReplyKeepsDebts(t, s, slot);
      case Commit(slot, ok) => CommitKeepsDebts(t, s, slot, ok);
      case Fetch(p) =>
        FetchOwn(s, p);
        SilentKeepsDebts(t, s, Next(t, opts, s, step));
      case TakeSlot(slot) =>
        SlotOwn(s, slot);
        SilentKeepsDebts(t, s, Next(t, opts, s, step));
      case _ =>
        SilentKeepsDebts(t, s, Next(t, opts, s, step));
    }
  }

  lemma {:induction false} DebtsAlways(t: Topic, opts: Settings, run: seq<State>, i: nat)
    requires IsRun(t, opts, run) && i < |run|
    ensures Debts(t, run[i])
  {
    if i > 0 {
      DebtsAlways(t, opts, run, i - 1);
      assert IsStep(t, opts, run[i - 1], run[i - 1 + 1]);
      var step :| Enabled(opts, run[i - 1], step) && run[i] == Next(t, opts, run[i - 1], step);
      StepKeepsDebts(t, opts, run[i - 1], step);
    }
  }

  /** Between the dispatcher's return at `r` and the end of the log, `m` was not dispatched anew and
      not replied to: then a reply is still owed. */
  lemma {:induction false} StillOwed(t: Topic, log: seq<Note>, m: Message, r: nat)
    requires r < |log| && log[r] == Returned(m, true) && t(m.p, m.o).Request?
    requires forall k :: r < k < |log| ==> log[k] != Dispatched(m) && log[k] != Replied(m)
    ensures Owes(t, log, m)
  {
    if r < |log| - 1 {
      StillOwed(t, log[..|log| - 1], m, r);
    }
  }

  /** With any number of slots, over every run: when the dispatcher returned a request without an error
      and its offset is then committed by the same job, a reply was attempted in between. */
  lemma {:induction false} ReplyBeforeCommit(t: Topic, opts: Settings, run: seq<State>, i: nat, r: nat, c: nat)
    requires IsRun(t, opts, run) && i < |run| && r < c < |run[i].log|
    requires run[i].log[r].Returned? && run[i].log[r].ok && run[i].log[c] == Committed(run[i].log[r].m)
    requires t(run[i].log[r].m.p, run[i].log[r].m.o).Request?
    requires forall k :: r < k < c ==> run[i].log[k] != Dispatched(run[i].log[r].m)
    ensures exists k :: r < k < c && run[i].log[k] == Replied(run[i].log[r].m)
  {
    DebtsAlways(t, opts, run, i);
    var log, m := run[i].log, run[i].log[r].m;
    if forall k :: r < k < c ==> log[k] != Replied(m) {
      StillOwed(t, log[..c], m, r);
    }
  }

  lemma {:induction false} OwedSince(t: Topic, log: seq<Note>, m: Message) returns (r: nat)
    requires Owes(t, log, m)
    ensures r < |log| && log[r] == Returned(m, true) && t(m.p, m.o).Request?
    ensures forall k :: r < k < |log| ==> log[k] != Replied(m) && log[k] != Dispatched(m)
  {
    var n := |log| - 1;
    if log[n] == Returned(m, true) && t(m.p, m.o).Request? {
      r := n;
    } else {
      r := OwedSince(t, log[..n], m);
    }
  }

  /** And a reply is attempted only for a request the dispatcher returned without an error, once. */
  lemma {:induction false} ReplyOnlyWhenDue(t: Topic, opts: Settings, run: seq<State>, i: nat, c: nat) returns (r: nat)
    requires IsRun(t, opts, run) && i < |run| && c < |run[i].log| && run[i].log[c].Replied?
    ensures var log, m := run[i].log, run[i].log[c].m;
      && r < c && log[r] == Returned(m, true) && t(m.p, m.o).Request?
      && forall k :: r < k < c ==> log[k] != Replied(m) && log[k] != Dispatched(m)
  {
    DebtsAlways(t, opts, run, i);
    r := OwedSince(t, run[i].log[..c], run[i].log[c].m);
  }

  /** No malformed message is ever handed to the dispatcher. */
  ghost predicate OnlyWellFormed(t: Topic, log: seq<Note>) {
    forall i :: 0 <= i < |log| && log[i].Dispatched? ==> !t(log[i].m.p, log[i].m.o).Malformed?
  }

  lemma {:induction false} MalformedSkipped(t: Topic, opts: Settings, run: seq<State>, i: nat)
    requires IsRun(t, opts, run) && i < |run|
    ensures OnlyWellFormed(t, run[i].log)
  {
    if i > 0 {
      MalformedSkipped(t, opts, run, i - 1);
      assert IsStep(t, opts, run[i - 1], run[i - 1 + 1]);
      var step :| Enabled(opts, run[i - 1], step) && run[i] == Next(t, opts, run[i - 1], step);
      StepSkipsMalformed(t, opts, run[i - 1], step);
    }
  }

  lemma {:induction false} StepSkipsMalformed(t: Topic, opts: Settings, s: State, step: Step)
    requires OnlyWellFormed(t, s.log) && Enabled(opts, s, step)
    ensures OnlyWellFormed(t, Next(t, opts, s, step).log)
  {
    match step {
      case Decode(slot) => DecodeSkipsMalformed(t, s, slot);
      case Commit(slot, ok) => CommitDispatchesNothing(t, s, slot, ok);
      case _ =>
    }
  }

  lemma {:induction false} DecodeSkipsMalformed(t: Topic, s: State, slot: nat)
    requires OnlyWellFormed(t, s.log) && slot in s.jobs
    ensures OnlyWellFormed(t, DecodeStep(t, s, slot).log)
  {
  }

  lemma {:induction false} CommitDispatchesNothing(t: Topic, s: State, slot: nat, ok: bool)
    requires OnlyWellFormed(t, s.log) && slot in s.jobs && s.jobs[slot].phase.Committing?
    ensures OnlyWellFormed(t, CommitStep(s, slot, ok).log)
  {
  }

  // ---------------------------------------------------------------- the code of one handler

  /** `handle` in one goroutine, the fetch loop and the other handlers free to move in between. */
  class Consumer {
    const t: Topic
    const opts: Settings
    var world: State
    ghost var run: seq<State>

    ghost predicate Valid()
      reads this
    {
      IsRun(t, opts, run) && run[|run| - 1] == world
    }

    constructor (t: Topic, opts: Settings)
      ensures Valid() && this.t == t && this.opts == opts && world == Initial
    {
      this.t, this.opts := t, opts;
      world, run := Initial, [Initial];
    }

    method Do(step: Step)
      requires Valid() && Enabled(opts, world, step)
      modifies this
      ensures Valid() && world == Next(t, opts, old(world), step)
    {
      ghost var last := world;
      world := Next(t, opts, world, step);
      assert IsStep(t, opts, last, world);
      run := run + [world];
    }

    /** Steps that neither end the process nor belong to this slot. */
    method Others(slot: nat)
      requires Valid() && slot in world.jobs
      modifies this
      ensures Valid() && slot in world.jobs && world.jobs[slot] == old(world.jobs[slot])
      ensures forall note :: note in old(world.log) ==> note in world.log
    {
      var steps: seq<Step> := *;
      for i := 0 to |steps|
        invariant Valid() && slot in world.jobs && world.jobs[slot] == old(world.jobs[slot])
        invariant forall note :: note in old(world.log) ==> note in world.log
      {
        if Enabled(opts, world, steps[i]) && Foreign(steps[i], slot) {
          ghost var last := world;
          ForeignLeaves(t, opts, world, steps[i], slot);
          LogGrows(t, opts, world, steps[i]);
          Do(steps[i]);
          StillNoted(last.log, world.log, old(world.log));
        }
      }
    }

    /** Every operation is a step of the protocol. When it returns, the message was malformed or
        handed to the dispatcher, and the slot is free. */
    method Handle(slot: nat)
      requires Valid() && slot in world.jobs && world.jobs[slot].phase.Received?
      modifies this
      ensures Valid() && slot !in world.jobs
      ensures Settled(t, world.log, old(world.jobs[slot].m))
    {
      var m := world.jobs[slot].m;
      Others(slot);
      Do(Decode(slot));
      assert Settled(t, world.log, m);
      Others(slot);
      if world.jobs[slot].phase.Handling? {
        var ok: bool := *;
        Do(DispatchReturns(slot, ok));
        Others(slot);
        if world.jobs[slot].phase.Replying? {
          Do(Reply(slot));
          Others(slot);
        }
      }
      assert Settled(t, world.log, m);
      var ok: bool := *;
      Do(Commit(slot, ok));
    }
  }

  predicate Foreign(step: Step, slot: nat) {
    match step
    case Crash => false
    case Start(_) => false
    case Fetch(_) => true
    case Cancel => true
    case TakeSlot(s) => s != slot
    case Decode(s) => s != slot
    case DispatchReturns(s, _) => s != slot
    case Reply(s) => s != slot
    case Commit(s, _) => s != slot
  }

  lemma {:induction false} ForeignLeaves(t: Topic, opts: Settings, s: State, step: Step, slot: nat)
    requires Enabled(opts, s, step) && Foreign(step, slot) && slot in s.jobs
    ensures var s' := Next(t, opts, s, step); slot in s'.jobs && s'.jobs[slot] == s.jobs[slot]
  {
    match step {
      case Decode(x) => DecodeLeaves(t, s, x, slot);
      case Commit(x, ok) => CommitLeaves(s, x, ok, slot);
      case _ =>
    }
  }

  lemma {:induction false} DecodeLeaves(t: Topic, s: State, x: nat, slot: nat)
    requires x in s.jobs && slot in s.jobs && x != slot
    ensures slot in DecodeStep(t, s, x).jobs && DecodeStep(t, s, x).jobs[slot] == s.jobs[slot]
  {
  }

  lemma {:induction false} CommitLeaves(s: State, x: nat, ok: bool, slot: nat)
    requires x in s.jobs && s.jobs[x].phase.Committing? && slot in s.jobs && x != slot
    ensures slot in CommitStep(s, x, ok).jobs && CommitStep(s, x, ok).jobs[slot] == s.jobs[slot]
  {
  }

  lemma {:induction false} LogGrows(t: Topic, opts: Settings, s: State, step: Step)
    requires Enabled(opts, s, step)
    ensures s.log <= Next(t, opts, s, step).log
  {
    match step {
      case Decode(slot) => DecodeLogs(t, s, slot);
      case Commit(slot, ok) => CommitLogs(s, slot, ok);
      case _ =>
    }
  }

  lemma {:induction false} DecodeLogs(t: Topic, s: State, slot: nat)
    requires slot in s.jobs
    ensures s.log <= DecodeStep(t, s, slot).log
  {
  }

  lemma {:induction false} CommitLogs(s: State, slot: nat, ok: bool)
    requires slot in s.jobs && s.jobs[slot].phase.Committing?
    ensures s.log <= CommitStep(s, slot, ok).log
  {
  }

  lemma {:induction false} StillNoted(log: seq<Note>, log': seq<Note>, earlier: seq<Note>)
    requires log <= log' && forall note :: note in earlier ==> note in log
    ensures forall note :: note in earlier ==> note in log'
  {
    assert forall note :: note in log ==> note in log'[..|log|];
  }

  // ---------------------------------------------------------------- one slot

  /** Fetched in this run but not yet decoded. */
  predicate Open(s: State, m: Message) {
    s.waiting == Some(m) || (0 in s.jobs && s.jobs[0] == Job(m, Received))
  }

  ghost predicate Places(s: State) {
    && (forall slot :: slot in s.jobs ==> slot == 0)
    && (s.waiting.Some? ==> s.waiting.value.o < At(s.cursor, s.waiting.value.p))
    && (0 in s.jobs ==> s.jobs[0].m.o < At(s.cursor, s.jobs[0].m.p))
    && (0 in s.jobs && s.waiting.Some? && s.waiting.value.p == s.jobs[0].m.p ==> s.jobs[0].m.o < s.waiting.value.o)
    && s.epoch <= |s.log|
  }

  /** Everything fetched is settled, but for what is open. */
  ghost predicate FetchedSettled(t: Topic, s: State) {
    forall m: Message :: At(s.base, m.p) <= m.o < At(s.cursor, m.p) ==> Settled(t, s.log, m) || Open(s, m)
  }

  ghost predicate JobSettled(t: Topic, s: State) {
    0 in s.jobs && !s.jobs[0].phase.Received? ==> Settled(t, s.log, s.jobs[0].m)
  }

  /** What was dispatched in this run comes before what is still open. */
  ghost predicate Behind(s: State, i: nat)
    requires i < |s.log|
  {
    s.log[i].Dispatched? ==>
      && s.log[i].m.o < At(s.cursor, s.log[i].m.p)
      && forall m :: Open(s, m) && m.p == s.log[i].m.p ==> s.log[i].m.o < m.o
  }

  ghost predicate Inv(t: Topic, s: State) {
    && Places(s) && NothingLostSince(t, s) && FetchedSettled(t, s) && JobSettled(t, s)
    && InOrder(s.log, s.epoch)
    && forall i :: s.epoch <= i < |s.log| ==> Behind(s, i)
  }

  lemma {:induction false} SettledGrows(t: Topic, log: seq<Note>, note: Note, m: Message)
    requires Settled(t, log, m)
    ensures Settled(t, log + [note], m)
  {
  }

  lemma {:induction false} FetchKeeps(t: Topic, s: State, p: nat)
    requires Inv(t, s) && s.waiting.None?
    ensures Inv(t, FetchStep(s, p))
  {
    var o := At(s.cursor, p);
    var s' := FetchStep(s, p);
    forall m: Message | At(s'.base, m.p) <= m.o < At(s'.cursor, m.p) ensures Settled(t, s'.log, m) || Open(s', m) {
      assert m.o < At(s.cursor, m.p) || m == Message(p, o);
      assert Open(s, m) ==> Open(s', m);
    }
    forall i | s'.epoch <= i < |s'.log| ensures Behind(s', i) {
      assert Behind(s, i);
      assert forall m :: Open(s', m) ==> Open(s, m) || m == Message(p, o);
    }
  }

  lemma {:induction false} SlotKeeps(t: Topic, s: State)
    requires Inv(t, s) && s.waiting.Some? && 0 !in s.jobs
    ensures Inv(t, s.(jobs := s.jobs[0 := Job(s.waiting.value, Received)], waiting := None))
  {
    var s' := s.(jobs := s.jobs[0 := Job(s.waiting.value, Received)], waiting := None);
    assert forall m :: Open(s', m) <==> Open(s, m);
    forall i | s'.epoch <= i < |s'.log| ensures Behind(s', i) {
      assert Behind(s, i);
    }
  }

  /** A job moves on without a dispatch; only one that needed none leaves `Received`. */
  lemma {:induction false} AdvanceKeeps(t: Topic, s: State, phase: Phase)
    requires Inv(t, s) && 0 in s.jobs && !phase.Received?
    requires Settled(t, s.log, s.jobs[0].m)
    ensures Inv(t, Advance(s, 0, phase))
  {
    var s' := Advance(s, 0, phase);
    assert forall m :: Open(s', m) ==> Open(s, m);
    forall m: Message | At(s'.base, m.p) <= m.o < At(s'.cursor, m.p) ensures Settled(t, s'.log, m) || Open(s', m) {
      assert Settled(t, s.log, m) || Open(s, m);
    }
    forall i | s'.epoch <= i < |s'.log| ensures Behind(s', i) {
      assert Behind(s, i);
    }
  }

  /** A note that is no dispatch changes nothing that is promised. */
  lemma {:induction false} NoteKeeps(t: Topic, s: State, note: Note)
    requires Inv(t, s) && !note.Dispatched?
    ensures Inv(t, s.(log := s.log + [note]))
  {
    var s' := s.(log := s.log + [note]);
    forall p: nat, o: nat | At(s'.base, p) <= o < At(s'.committed, p) ensures Settled(t, s'.log, Message(p, o)) {
      SettledGrows(t, s.log, note, Message(p, o));
    }
    forall m: Message | At(s'.base, m.p) <= m.o < At(s'.cursor, m.p) ensures Settled(t, s'.log, m) || Open(s', m) {
      assert Settled(t, s.log, m) || Open(s, m);
    }
    forall i | s'.epoch <= i < |s'.log| ensures Behind(s', i) {
      if i < |s.log| {
        assert Behind(s, i);
      }
    }
  }

  /** The dispatch of the job that was open: it comes after all of this run's. */
  lemma {:induction false} DispatchKeeps(t: Topic, s: State)
    requires Inv(t, s) && 0 in s.jobs && s.jobs[0].phase.Received?
    ensures Inv(t, Advance(s.(log := s.log + [Dispatched(s.jobs[0].m)]), 0, Handling))
  {
    var m0 := s.jobs[0].m;
    var s' := Advance(s.(log := s.log + [Dispatched(m0)]), 0, Handling);
    assert Open(s, m0);
    assert forall m :: Open(s', m) <==> s.waiting == Some(m);
    DispatchLoses(t, s, m0);
    forall m: Message | At(s'.base, m.p) <= m.o < At(s'.cursor, m.p) ensures Settled(t, s'.log, m) || Open(s', m) {
      assert Settled(t, s.log, m) || Open(s, m);
    }
    forall i | s'.epoch <= i < |s'.log| ensures Behind(s', i) {
      if i < |s.log| {
        assert Behind(s, i);
      }
    }
    forall i | s'.epoch <= i < |s.log| && s.log[i].Dispatched? && s.log[i].m.p == m0.p ensures s.log[i].m.o < m0.o {
      assert Behind(s, i);
    }
  }

  lemma {:induction false} DispatchLoses(t: Topic, s: State, m: Message)
    requires NothingLostSince(t, s)
    ensures NothingLostSince(t, s.(log := s.log + [Dispatched(m)]))
  {
    forall p: nat, o: nat | At(s.base, p) <= o < At(s.committed, p)
      ensures Settled(t, s.log + [Dispatched(m)], Message(p, o))
    {
      SettledGrows(t, s.log, Dispatched(m), Message(p, o));
    }
  }

  /** The job's offset and all below it are settled, so the watermark may pass it. */
  lemma {:induction false} WatermarkKeeps(t: Topic, s: State)
    requires Inv(t, s) && 0 in s.jobs && !s.jobs[0].phase.Received?
    ensures Inv(t, s.(committed := s.committed[s.jobs[0].m.p := s.jobs[0].m.o + 1]))
  {
    var m0 := s.jobs[0].m;
    var s' := s.(committed := s.committed[m0.p := m0.o + 1]);
    forall p: nat, o: nat | At(s'.base, p) <= o < At(s'.committed, p) ensures Settled(t, s'.log, Message(p, o)) {
      if p == m0.p {
        var m := Message(p, o);
        assert m.o < At(s.cursor, m.p);
        assert !Open(s, m);
      }
    }
    assert forall m :: Open(s', m) <==> Open(s, m);
    forall i | s'.epoch <= i < |s'.log| ensures Behind(s', i) {
      assert Behind(s, i);
    }
  }

  lemma {:induction false} FreeKeeps(t: Topic, s: State)
    requires Inv(t, s) && 0 in s.jobs && !s.jobs[0].phase.Received?
    ensures Inv(t, s.(jobs := s.jobs - {0}))
  {
    var s' := s.(jobs := s.jobs - {0});
    assert forall m :: Open(s', m) <==> Open(s, m);
    forall i | s'.epoch <= i < |s'.log| ensures Behind(s', i) {
      assert Behind(s, i);
    }
  }

  lemma {:induction false} CrashKeeps(t: Topic, s: State)
    requires Inv(t, s)
    ensures Inv(t, s.(running := false, cursor := s.committed, waiting := None, jobs := map[], epoch := |s.log|))
  {
    var s' := s.(running := false, cursor := s.committed, waiting := None, jobs := map[], epoch := |s.log|);
    forall m: Message | At(s'.base, m.p) <= m.o < At(s'.cursor, m.p) ensures Settled(t, s'.log, m) {
      assert m == Message(m.p, m.o);
    }
  }

  /** A start moves the beginning of the partitions without a commit, and of no other. */
  lemma {:induction false} BaseMoves(start: Policy, s: State, ends: map<nat, nat>, p: nat)
    ensures var s' := StartStep(start, s, ends);
      && (p in s.committed ==> At(s'.base, p) == At(s.base, p) && At(s'.cursor, p) == s.committed[p])
      && (p !in s.committed ==> At(s'.base, p) == At(s'.cursor, p))
      && (p !in s.committed ==> At(s'.base, p) == if start.First? then 0 else At(ends, p))
  {
  }

  lemma {:induction false} StartKeeps(t: Topic, start: Policy, s: State, ends: map<nat, nat>)
    requires Inv(t, s) && s.jobs == map[]
    ensures Inv(t, StartStep(start, s, ends))
  {
    var s' := StartStep(start, s, ends);
    forall p: nat, o: nat | At(s'.base, p) <= o < At(s'.committed, p) ensures Settled(t, s'.log, Message(p, o)) {
      BaseMoves(start, s, ends, p);
    }
    forall m: Message | At(s'.base, m.p) <= m.o < At(s'.cursor, m.p) ensures Settled(t, s'.log, m) {
      BaseMoves(start, s, ends, m.p);
      assert m == Message(m.p, m.o);
    }
  }

  lemma {:induction false} CancelKeeps(t: Topic, s: State)
    requires Inv(t, s)
    ensures Inv(t, s.(running := false))
  {
    var s' := s.(running := false);
    assert forall m :: Open(s', m) <==> Open(s, m);
    forall i | s'.epoch <= i < |s'.log| ensures Behind(s', i) {
      assert Behind(s, i);
    }
  }

  lemma {:induction false} ReplyKeeps(t: Topic, s: State)
    requires Inv(t, s) && 0 in s.jobs && s.jobs[0].phase.Replying?
    ensures Inv(t, Advance(s.(log := s.log + [Replied(s.jobs[0].m)]), 0, Committing))
  {
    NoteKeeps(t, s, Replied(s.jobs[0].m));
    AdvanceKeeps(t, s.(log := s.log + [Replied(s.jobs[0].m)]), Committing);
  }

  /** The watermark has passed the job, and its slot is free. */
  function Passed(s: State): State
    requires 0 in s.jobs
  {
    s.(committed := s.committed[s.jobs[0].m.p := s.jobs[0].m.o + 1], jobs := s.jobs - {0})
  }

  lemma {:induction false} NotedKeeps(t: Topic, s: State, note: Note, s': State)
    requires Inv(t, s) && !note.Dispatched? && s' == s.(log := s.log + [note])
    ensures Inv(t, s')
  {
    NoteKeeps(t, s, note);
  }

  lemma {:induction false} PassKeeps(t: Topic, s: State)
    requires Inv(t, s) && 0 in s.jobs && !s.jobs[0].phase.Received?
    ensures Inv(t, Passed(s))
  {
    WatermarkKeeps(t, s);
    FreeKeeps(t, s.(committed := s.committed[s.jobs[0].m.p := s.jobs[0].m.o + 1]));
  }

  lemma {:induction false} CommitKeeps(t: Topic, s: State, ok: bool)
    requires Inv(t, s) && 0 in s.jobs && s.jobs[0].phase.Committing?
    ensures Inv(t, CommitStep(s, 0, ok))
  {
    if ok {
      PassKeeps(t, s);
      NotedKeeps(t, Passed(s), Committed(s.jobs[0].m), CommitStep(s, 0, true));
    } else {
      FreeKeeps(t, s);
    }
  }

  lemma {:induction false} DecodeKeeps(t: Topic, s: State)
    requires Inv(t, s) && 0 in s.jobs && s.jobs[0].phase.Received?
    ensures Inv(t, DecodeStep(t, s, 0))
  {
    if t(s.jobs[0].m.p, s.jobs[0].m.o).Malformed? {
      AdvanceKeeps(t, s, Committing);
    } else {
      DispatchKeeps(t, s);
    }
  }

  lemma {:induction false} StepKeeps(t: Topic, opts: Settings, s: State, step: Step)
    requires Inv(t, s) && opts.slots == 1 && Enabled(opts, s, step)
    ensures Inv(t, Next(t, opts, s, step))
  {
    match step {
      case Start(ends) => StartKeeps(t, opts.start, s, ends);
      case Fetch(p) => FetchKeeps(t, s, p);
      case TakeSlot(slot) => SlotKeeps(t, s);
      case Decode(slot) => DecodeKeeps(t, s);
      case DispatchReturns(slot, ok) =>
        var m := s.jobs[slot].m;
        NoteKeeps(t, s, Returned(m, ok));
        AdvanceKeeps(t, s.(log := s.log + [Returned(m, ok)]),
                     if ok && t(m.p, m.o).Request? then Replying else Committing);
      case Reply(slot) => ReplyKeeps(t, s);
      case Commit(slot, ok) => CommitKeeps(t, s, ok);
      case Cancel => CancelKeeps(t, s);
      case Crash => CrashKeeps(t, s);
    }
  }

  lemma {:induction false} OneSlotKeeps(t: Topic, opts: Settings, run: seq<State>, i: nat)
    requires IsRun(t, opts, run) && opts.slots == 1 && i < |run|
    ensures Inv(t, run[i])
  {
    if i > 0 {
      OneSlotKeeps(t, opts, run, i - 1);
      assert IsStep(t, opts, run[i - 1], run[i - 1 + 1]);
      var step :| Enabled(opts, run[i - 1], step) && run[i] == Next(t, opts, run[i - 1], step);
      StepKeeps(t, opts, run[i - 1], step);
    }
  }

  // ---------------------------------------------------------------- where reading began

  /** The reader is nowhere behind a watermark, and what is open lies past it. */
  ghost predicate Ahead(s: State) {
    && (forall p: nat :: At(s.committed, p) <= At(s.cursor, p))
    && (forall m: Message :: Open(s, m) ==> At(s.committed, m.p) <= m.o < At(s.ends, m.p))
  }

  /** Everything lies past where its partition was begun. */
  ghost predicate Based(s: State) {
    && (0 in s.jobs ==> At(s.base, s.jobs[0].m.p) <= s.jobs[0].m.o)
    && (s.waiting.Some? ==> At(s.base, s.waiting.value.p) <= s.waiting.value.o)
    && (s.running ==> forall p: nat :: At(s.base, p) <= At(s.cursor, p))
    && (forall p :: p in s.committed ==> At(s.base, p) <= s.committed[p])
  }

  /** And so does every commit. */
  ghost predicate CommitsPast(s: State) {
    forall k :: 0 <= k < |s.log| && s.log[k].Committed? ==>
      s.log[k].m.p in s.committed && At(s.base, s.log[k].m.p) <= s.log[k].m.o
  }

  lemma {:induction false} StartKeepsAhead(start: Policy, s: State, ends: map<nat, nat>)
    requires s.jobs == map[]
    ensures Ahead(StartStep(start, s, ends))
  {
    forall p: nat ensures At(s.committed, p) <= At(StartStep(start, s, ends).cursor, p) {
      BaseMoves(start, s, ends, p);
    }
  }

  lemma {:induction false} FetchKeepsAhead(s: State, p: nat)
    requires Ahead(s) && s.waiting.None?
    ensures Ahead(FetchStep(s, p))
  {
    var s' := FetchStep(s, p);
    assert forall m: Message :: Open(s', m) ==> Open(s, m) || m == Message(p, At(s.cursor, p));
  }

  lemma {:induction false} CommitKeepsAhead(s: State, ok: bool)
    requires Places(s) && Ahead(s) && 0 in s.jobs && s.jobs[0].phase.Committing?
    ensures Ahead(CommitStep(s, 0, ok))
  {
    var s' := CommitStep(s, 0, ok);
    assert forall m: Message :: Open(s', m) ==> s.waiting == Some(m);
  }

  /** No other step moves a watermark or the reader, or opens anything. */
  lemma {:induction false} OthersKeepAhead(s: State, s': State)
    requires Ahead(s) && s'.cursor == s.cursor && s'.committed == s.committed && s'.ends == s.ends
    requires forall m: Message :: Open(s', m) ==> Open(s, m)
    ensures Ahead(s')
  {
  }

  lemma {:induction false} StepKeepsAhead(t: Topic, opts: Settings, s: State, step: Step)
    requires Places(s) && Ahead(s) && opts.slots == 1 && Enabled(opts, s, step)
    ensures Ahead(Next(t, opts, s, step))
  {
    match step {
      case Start(ends) => StartKeepsAhead(opts.start, s, ends);
      case Fetch(p) => FetchKeepsAhead(s, p);
      case Commit(slot, ok) => CommitKeepsAhead(s, ok);
      case Crash =>
      case _ => OthersKeepAhead(s, Next(t, opts, s, step));
    }
  }

  lemma {:induction false} StartKeepsBased(start: Policy, s: State, ends: map<nat, nat>)
    requires Based(s) && s.jobs == map[]
    ensures Based(StartStep(start, s, ends))
  {
    var s' := StartStep(start, s, ends);
    forall p: nat
      ensures At(s'.base, p) <= At(s'.cursor, p) && (p in s.committed ==> At(s'.base, p) <= s.committed[p])
    {
      BaseMoves(start, s, ends, p);
    }
  }

  lemma {:induction false} FetchKeepsBased(s: State, p: nat)
    requires Based(s) && s.running
    ensures Based(FetchStep(s, p))
  {
  }

  lemma {:induction false} CommitKeepsBased(s: State, ok: bool)
    requires Based(s) && 0 in s.jobs && s.jobs[0].phase.Committing?
    ensures Based(CommitStep(s, 0, ok))
  {
  }

  lemma {:induction false} OthersKeepBased(s: State, s': State)
    requires Based(s) && s'.base == s.base && s'.committed == s.committed
    requires s'.running ==> s.running && s'.cursor == s.cursor
    requires s'.waiting.Some? ==> s'.waiting == s.waiting
    requires 0 in s'.jobs ==> (0 in s.jobs && s'.jobs[0].m == s.jobs[0].m) || s.waiting == Some(s'.jobs[0].m)
    ensures Based(s')
  {
  }

  lemma {:induction false} StepKeepsBased(t: Topic, opts: Settings, s: State, step: Step)
    requires Places(s) && Based(s) && opts.slots == 1 && Enabled(opts, s, step)
    ensures Based(Next(t, opts, s, step))
  {
    match step {
      case Start(ends) => StartKeepsBased(opts.start, s, ends);
      case Fetch(p) => FetchKeepsBased(s, p);
      case Commit(slot, ok) => CommitKeepsBased(s, ok);
      case _ => OthersKeepBased(s, Next(t, opts, s, step));
    }
  }

  lemma {:induction false} StartKeepsCommitsPast(start: Policy, s: State, ends: map<nat, nat>)
    requires CommitsPast(s)
    ensures CommitsPast(StartStep(start, s, ends))
  {
    var s' := StartStep(start, s, ends);
    forall k | 0 <= k < |s.log| && s.log[k].Committed? ensures At(s'.base, s.log[k].m.p) <= s.log[k].m.o {
      BaseMoves(start, s, ends, s.log[k].m.p);
    }
  }

  lemma {:induction false} CommitKeepsCommitsPast(s: State, ok: bool)
    requires Based(s) && CommitsPast(s) && 0 in s.jobs && s.jobs[0].phase.Committing?
    ensures CommitsPast(CommitStep(s, 0, ok))
  {
  }

  lemma {:induction false} OthersKeepCommitsPast(s: State, s': State)
    requires CommitsPast(s) && s'.base == s.base && s'.committed == s.committed && s.log <= s'.log
    requires forall k :: |s.log| <= k < |s'.log| ==> !s'.log[k].Committed?
    ensures CommitsPast(s')
  {
  }

  lemma {:induction false} StepKeepsCommitsPast(t: Topic, opts: Settings, s: State, step: Step)
    requires Places(s) && Based(s) && CommitsPast(s) && opts.slots == 1 && Enabled(opts, s, step)
    ensures CommitsPast(Next(t, opts, s, step))
  {
    match step {
      case Start(ends) => StartKeepsCommitsPast(opts.start, s, ends);
      case Commit(slot, ok) => CommitKeepsCommitsPast(s, ok);
      case _ => OthersKeepCommitsPast(s, Next(t, opts, s, step));
    }
  }

  lemma {:induction false} BeginningsKeep(t: Topic, opts: Settings, run: seq<State>, i: nat)
    requires IsRun(t, opts, run) && opts.slots == 1 && i < |run|
    ensures Ahead(run[i]) && Based(run[i]) && CommitsPast(run[i])
  {
    if i > 0 {
      var s := run[i - 1];
      BeginningsKeep(t, opts, run, i - 1);
      OneSlotKeeps(t, opts, run, i - 1);
      assert IsStep(t, opts, s, run[i - 1 + 1]);
      var step :| Enabled(opts, s, step) && run[i] == Next(t, opts, s, step);
      StepKeepsAhead(t, opts, s, step);
      StepKeepsBased(t, opts, s, step);
      StepKeepsCommitsPast(t, opts, s, step);
    }
  }

  lemma {:induction false} StepKeepsZero(t: Topic, opts: Settings, s: State, step: Step)
    requires opts.start.First? && Enabled(opts, s, step) && s.base == map[] && s.from in {None, Some(map[])}
    ensures var s' := Next(t, opts, s, step); s'.base == map[] && s'.from in {None, Some(map[])}
  {
  }

  /** Under `First` every partition is begun at its first message, once and for all. */
  lemma {:induction false} FirstBeginsAtZero(t: Topic, opts: Settings, run: seq<State>, i: nat)
    requires IsRun(t, opts, run) && opts.start.First? && i < |run|
    ensures run[i].base == map[] && run[i].from in {None, Some(map[])}
  {
    if i > 0 {
      FirstBeginsAtZero(t, opts, run, i - 1);
      assert IsStep(t, opts, run[i - 1], run[i - 1 + 1]);
      var step :| Enabled(opts, run[i - 1], step) && run[i] == Next(t, opts, run[i - 1], step);
      StepKeepsZero(t, opts, run[i - 1], step);
    }
  }

  /** With one slot and `First`, over every run with crashes and restarts: whatever lies below a watermark was
      malformed or handed to the dispatcher. */
  lemma {:induction false} OneSlotIsSafe(t: Topic, opts: Settings, run: seq<State>, i: nat)
    requires IsRun(t, opts, run) && opts.slots == 1 && opts.start.First? && i < |run|
    ensures NothingLost(t, run[i])
  {
    OneSlotKeeps(t, opts, run, i);
    FirstBeginsAtZero(t, opts, run, i);
  }

  /** With one slot and either policy: the dispatches of a partition since the last start are in offset order. */
  lemma {:induction false} OneSlotInOrder(t: Topic, opts: Settings, run: seq<State>, i: nat)
    requires IsRun(t, opts, run) && opts.slots == 1 && i < |run|
    ensures InOrder(run[i].log, run[i].epoch)
  {
    OneSlotKeeps(t, opts, run, i);
  }

  /** With one slot and either policy: from an offset that was committed on, whatever lies below the watermark
      of its partition was malformed or handed to the dispatcher. */
  lemma {:induction false} SafeFromFirstCommit(t: Topic, opts: Settings, run: seq<State>, i: nat, c: nat, o: nat)
    requires IsRun(t, opts, run) && opts.slots == 1 && i < |run| && c < |run[i].log| && run[i].log[c].Committed?
    requires run[i].log[c].m.o <= o < At(run[i].committed, run[i].log[c].m.p)
    ensures Settled(t, run[i].log, Message(run[i].log[c].m.p, o))
  {
    OneSlotKeeps(t, opts, run, i);
    BeginningsKeep(t, opts, run, i);
  }

  /** So with one slot something is lost in a run exactly when it lies between the beginning of the first start
      and that of the one in which its partition had its first commit, and was not settled before. */
  lemma {:induction false} LostIffSkipped(t: Topic, opts: Settings, run: seq<State>, i: nat)
    requires IsRun(t, opts, run) && opts.slots == 1 && i < |run|
    ensures NothingLost(t, run[i]) <==>
      forall p: nat, o: nat :: p in run[i].committed && Began(run[i], p) <= o < At(run[i].base, p) ==>
        Settled(t, run[i].log, Message(p, o))
  {
    OneSlotKeeps(t, opts, run, i);
    BeginningsKeep(t, opts, run, i);
  }

  /** With one slot, a message left waiting for the slot is fetched again by the next start, whatever has been
      added to the topic, exactly under `First` or when its partition has a committed offset. */
  lemma {:induction false} RedeliveredIff(t: Topic, opts: Settings, run: seq<State>, i: nat, m: Message,
                                          ends: map<nat, nat>)
    requires IsRun(t, opts, run) && opts.slots == 1 && i < |run| && run[i].waiting == Some(m)
    requires Enabled(opts, run[i], Start(ends))
    ensures At(Next(t, opts, run[i], Start(ends)).cursor, m.p) <= m.o <==> opts.start.First? || m.p in run[i].committed
  {
    BeginningsKeep(t, opts, run, i);
    BaseMoves(opts.start, run[i], ends, m.p);
    assert Open(run[i], m);
  }

  // ---------------------------------------------------------------- runs that lose a message

  ghost predicate SafeAlways(t: Topic, opts: Settings) {
    forall run: seq<State>, i :: IsRun(t, opts, run) && 0 <= i < |run| ==> NothingLost(t, run[i])
  }

  lemma {:induction false} RunOn(t: Topic, opts: Settings, run: seq<State>, step: Step) returns (run': seq<State>)
    requires IsRun(t, opts, run) && Enabled(opts, run[|run| - 1], step)
    ensures IsRun(t, opts, run') && run'[|run'| - 1] == Next(t, opts, run[|run| - 1], step)
  {
    run' := run + [Next(t, opts, run[|run| - 1], step)];
    assert IsStep(t, opts, run[|run| - 1], Next(t, opts, run[|run| - 1], step));
  }

  /** Nothing in the log is about `m`. */
  ghost predicate Untouched(log: seq<Note>, m: Message) {
    forall k :: 0 <= k < |log| ==> log[k].m != m
  }

  /** The handler in a slot goes through to a commit: a malformed message at once, any other when the
      dispatcher has returned it with an error. */
  lemma {:induction false} FinishJob(t: Topic, opts: Settings, run: seq<State>, slot: nat,
                                     other: Message) returns (run': seq<State>)
    requires IsRun(t, opts, run) && slot in run[|run| - 1].jobs && run[|run| - 1].jobs[slot].phase.Received?
    requires other != run[|run| - 1].jobs[slot].m && Untouched(run[|run| - 1].log, other)
    ensures IsRun(t, opts, run')
    ensures var s, s' := run[|run| - 1], run'[|run'| - 1];
      && s' == s.(jobs := s.jobs - {slot}, log := s'.log,
                  committed := s.committed[s.jobs[slot].m.p := s.jobs[slot].m.o + 1])
      && Untouched(s'.log, other)
  {
    var s, job := run[|run| - 1], run[|run| - 1].jobs[slot];
    run' := RunOn(t, opts, run, Decode(slot));
    if !t(job.m.p, job.m.o).Malformed? {
      assert run'[|run'| - 1].jobs[slot] == Job(job.m, Handling);
      run' := RunOn(t, opts, run', DispatchReturns(slot, false));
    }
    var s1 := run'[|run'| - 1];
    assert s1.jobs == s.jobs[slot := Job(job.m, Committing)];
    run' := RunOn(t, opts, run', Commit(slot, true));
    assert s1.jobs - {slot} == s.jobs - {slot};
  }

  /** Message `(p, o)` is next, with nothing under way and nothing noted about it; reading began at or before it. */
  ghost predicate NextUp(s: State, p: nat, o: nat, target: Message) {
    && s.running && s.waiting.None? && s.jobs == map[] && At(s.cursor, p) == o && Untouched(s.log, target)
    && s.from.Some? && Began(s, p) <= o
  }

  /** The next message is fetched, worked through and committed. */
  lemma {:induction false} WorkOne(t: Topic, opts: Settings, run: seq<State>, p: nat, o: nat,
                                   target: Message) returns (run': seq<State>)
    requires IsRun(t, opts, run) && opts.slots >= 1 && NextUp(run[|run| - 1], p, o, target) && target != Message(p, o)
    ensures IsRun(t, opts, run') && NextUp(run'[|run'| - 1], p, o + 1, target)
    ensures At(run'[|run'| - 1].committed, p) == o + 1 && run'[|run'| - 1].from == run[|run| - 1].from
  {
    run' := RunOn(t, opts, run, Fetch(p));
    run' := RunOn(t, opts, run', TakeSlot(0));
    run' := FinishJob(t, opts, run', 0, target);
  }

  lemma {:induction false} WorkThrough(t: Topic, opts: Settings, p: nat, o: nat, target: nat) returns (run: seq<State>)
    requires opts.slots >= 1 && opts.start.First? && o <= target
    ensures IsRun(t, opts, run) && NextUp(run[|run| - 1], p, o, Message(p, target))
    decreases o
  {
    if o == 0 {
      run := RunOn(t, opts, [Initial], Start(map[]));
    } else {
      run := WorkThrough(t, opts, p, o - 1, target);
      run := WorkOne(t, opts, run, p, o - 1, Message(p, target));
    }
  }

  /** Reading is brought to any message of any partition, under either policy. */
  lemma {:induction false} BringTo(t: Topic, opts: Settings, p: nat, o: nat) returns (run: seq<State>)
    requires opts.slots >= 1
    ensures IsRun(t, opts, run) && NextUp(run[|run| - 1], p, o, Message(p, o))
  {
    if opts.start.First? {
      run := WorkThrough(t, opts, p, o, o);
    } else {
      run := RunOn(t, opts, [Initial], Start(map[p := o]));
    }
  }

  /** Message `(p, o)` lies below the watermark, past the first start's beginning, and was never dispatched. */
  ghost predicate Skips(s: State, p: nat, o: nat) {
    Began(s, p) <= o < At(s.committed, p) && Dispatched(Message(p, o)) !in s.log
  }

  /** Two messages of a partition are taken at once, and the second is done and committed while the first has
      not been decoded. */
  lemma {:induction false} CommitAhead(t: Topic, opts: Settings, p: nat, o: nat) returns (run: seq<State>)
    requires opts.slots >= 2
    ensures IsRun(t, opts, run) && Skips(run[|run| - 1], p, o)
  {
    run := BringTo(t, opts, p, o);
    run := RunOn(t, opts, run, Fetch(p));
    run := RunOn(t, opts, run, TakeSlot(0));
    run := RunOn(t, opts, run, Fetch(p));
    run := RunOn(t, opts, run, TakeSlot(1));
    assert run[|run| - 1].jobs[1] == Job(Message(p, o + 1), Received);
    run := FinishJob(t, opts, run, 1, Message(p, o));
  }

  /** Under `Last`, with any number of slots: a message is fetched, the process ends, and the next start begins
      past it, because the partition has no committed offset yet. */
  lemma {:induction false} SkippedAtStart(t: Topic, opts: Settings, p: nat, o: nat) returns (run: seq<State>)
    requires opts.slots >= 1 && opts.start.Last?
    ensures IsRun(t, opts, run) && Skips(run[|run| - 1], p, o)
  {
    run := RunOn(t, opts, [Initial], Start(map[p := o]));
    run := RunOn(t, opts, run, Fetch(p));
    run := RunOn(t, opts, run, Crash);
    run := RunOn(t, opts, run, Start(map[p := o + 1]));
    run := WorkOne(t, opts, run, p, o + 1, Message(p, o));
  }

  lemma {:induction false} HoldsSlot(t: Topic, opts: Settings, p: nat, o: nat, q: nat) returns (run: seq<State>)
    requires opts == Settings(1, Last) && p != q
    ensures IsRun(t, opts, run)
    ensures var s := run[|run| - 1];
      && s.running && s.waiting.None? && s.jobs == map[0 := Job(Message(q, 0), Received)] && At(s.cursor, p) == o
      && s.log == [] && s.committed == map[] && s.ends == map[p := o, q := 1] && s.from == Some(map[p := o])
  {
    run := RunOn(t, opts, [Initial], Start(map[p := o]));
    assert run[|run| - 1].base == map[p := o];
    run := RunOn(t, opts, run, Fetch(q));
    run := RunOn(t, opts, run, TakeSlot(0));
  }

  lemma {:induction false} CancelledWaiting(t: Topic, opts: Settings, p: nat, o: nat, q: nat) returns (run: seq<State>)
    requires opts == Settings(1, Last) && p != q
    ensures IsRun(t, opts, run)
    ensures var s := run[|run| - 1];
      && !s.running && s.waiting == Some(Message(p, o)) && s.jobs == map[0 := Job(Message(q, 0), Received)]
      && s.log == [] && s.committed == map[] && s.ends == map[p := o + 1, q := 1]
      && s.from.Some? && Began(s, p) == o
  {
    run := HoldsSlot(t, opts, p, o, q);
    run := RunOn(t, opts, run, Fetch(p));
    assert run[|run| - 1].ends == map[p := o + 1, q := 1];
    run := RunOn(t, opts, run, Cancel);
  }

  /** No crash is needed: with one slot a message of `p` waits while one of `q` holds it, the loop is cancelled and
      returns, and the next start begins past the message that waited. */
  lemma {:induction false} SkippedAfterCancel(t: Topic, opts: Settings, p: nat, o: nat,
                                              q: nat) returns (run: seq<State>)
    requires opts == Settings(1, Last) && p != q
    ensures IsRun(t, opts, run) && Skips(run[|run| - 1], p, o)
  {
    run := CancelledWaiting(t, opts, p, o, q);
    run := FinishJob(t, opts, run, 0, Message(p, o));
    run := RunOn(t, opts, run, Start(map[p := o + 1, q := 1]));
    run := WorkOne(t, opts, run, p, o + 1, Message(p, o));
  }

  /** Nothing in the topic can be lost. */
  ghost predicate AllMalformed(t: Topic) {
    forall p: nat, o: nat :: t(p, o).Malformed?
  }

  /** For every topic: nothing is ever lost exactly when there is nothing to lose, or there is only one slot and
      a partition without a committed offset is read from its first message. */
  lemma {:induction false} SafeIff(t: Topic, opts: Settings)
    requires opts.slots >= 1
    ensures SafeAlways(t, opts) <==> AllMalformed(t) || (opts.slots == 1 && opts.start.First?)
  {
    if opts.slots == 1 && opts.start.First? {
      forall run: seq<State>, i | IsRun(t, opts, run) && 0 <= i < |run| ensures NothingLost(t, run[i]) {
        OneSlotIsSafe(t, opts, run, i);
      }
    } else if !AllMalformed(t) {
      var p: nat, o: nat :| !t(p, o).Malformed?;
      var run: seq<State>;
      if opts.slots >= 2 {
        run := CommitAhead(t, opts, p, o);
      } else {
        run := SkippedAtStart(t, opts, p, o);
      }
      assert !Settled(t, run[|run| - 1].log, Message(p, o)) && !NothingLost(t, run[|run| - 1]);
    }
  }
}
