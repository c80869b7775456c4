/** Request/reply correlation, over every interleaving of requests and reply readers.

    TCP and Redis look an entry up, leave it in place, and send without blocking (`Peek`).
    RabbitMQ and Kafka remove the entry while holding the lock and then send on a channel with
    room for one reply (`Take`). Each request makes its own channel. */
module Correlation {

  datatype Mode = Peek | Take

  /** `id` is what the reader correlates by: Envelope.ID, or AMQP's CorrelationId. */
  datatype Envelope = Envelope(id: string, body: nat)

  datatype Outcome = Got(reply: Envelope) | Failed

  datatype Request =
    | Waiting(id: string, ch: nat)                        // registered, sent or sending, in select
    | Returning(id: string, ch: nat, outcome: Outcome)    // select is done, the deferred release is not
    | Done(id: string, ch: nat, outcome: Outcome)

  /** A reader between its lookup and its send. */
  datatype Held = Held(reply: Envelope, ch: nat)

  datatype State = State(
    next: nat,                       // channels made so far are 0 … next-1
    owner: seq<string>,              // the id each channel was registered under
    buffers: seq<seq<Envelope>>,     // what each channel holds
    sent: seq<nat>,                  // how many sends each channel has seen
    pending: map<string, nat>,
    requests: map<nat, Request>,
    readers: map<nat, Held>)

  datatype Step =
    | Register(t: nat, id: string)
    | Receive(t: nat)
    | GiveUp(t: nat)                 // send failure, timeout, connection lost, closed
    | Release(t: nat)
    | Lookup(r: nat, reply: Envelope)
    | Deliver(r: nat)
    | FailPending                    // every entry is dropped
    | Elsewhere                      // something that touches none of this

  function InitState(): State {
    State(0, [], [], [], map[], map[], map[])
  }

  predicate InFlight(st: State, t: nat) {
    t in st.requests && !st.requests[t].Done?
  }

  ghost predicate Next(mode: Mode, st: State, step: Step, st': State) {
    match step
    case Register(t, id) =>
      && t !in st.requests
      && st' == st.(next := st.next + 1, owner := st.owner + [id], buffers := st.buffers + [[]], sent := st.sent + [0],
                    pending := st.pending[id := st.next], requests := st.requests[t := Waiting(id, st.next)])
    case Receive(t) =>
      && t in st.requests && st.requests[t].Waiting?
      && var ch := st.requests[t].ch;
         && ch < |st.buffers| && st.buffers[ch] != []
         && st' == st.(buffers := st.buffers[ch := st.buffers[ch][1..]],
                       requests := st.requests[t := Returning(st.requests[t].id, ch, Got(st.buffers[ch][0]))])
    case GiveUp(t) =>
      && t in st.requests && st.requests[t].Waiting?
      && st' == st.(requests := st.requests[t := Returning(st.requests[t].id, st.requests[t].ch, Failed)])
    case Release(t) =>
      && t in st.requests && st.requests[t].Returning?
      && var Returning(id, ch, outcome) := st.requests[t];
         st' == st.(pending := st.pending - {id}, requests := st.requests[t := Done(id, ch, outcome)])
    case Lookup(r, reply) =>
      && r !in st.readers
      && if reply.id !in st.pending then st' == st   // dropped
         else st' == st.(readers := st.readers[r := Held(reply, st.pending[reply.id])],
                         pending := if mode.Take? then st.pending - {reply.id} else st.pending)
    case Deliver(r) =>
      && r in st.readers
      && var Held(reply, ch) := st.readers[r];
         && ch < |st.buffers| && ch < |st.sent|
         && if mode.Peek? && st.buffers[ch] != [] then
              st' == st.(readers := st.readers - {r})
            else
              && st.buffers[ch] == []                  // otherwise the send blocks
              && st' == st.(buffers := st.buffers[ch := [reply]], sent := st.sent[ch := st.sent[ch] + 1],
                            readers := st.readers - {r})
    case FailPending =>
      mode.Take? && st' == st.(pending := map[])
    case Elsewhere =>
      st' == st
  }

  ghost predicate IsRun(mode: Mode, states: seq<State>, steps: seq<Step>) {
    && |states| == |steps| + 1 && states[0] == InitState()
    && forall i :: 0 <= i < |steps| ==> StepAt(mode, states, steps, i)
  }

  ghost predicate StepAt(mode: Mode, states: seq<State>, steps: seq<Step>, i: nat)
    requires i < |steps| < |states|
  {
    Next(mode, states[i], steps[i], states[i + 1])
  }

  // ---------------------------------------------------------------- what every step keeps

  /** A channel number that exists. */
  predicate Made(st: State, ch: nat) {
    ch < st.next && |st.owner| == |st.buffers| == |st.sent| == st.next
  }

  ghost predicate FiledEntries(st: State) {
    forall id :: id in st.pending ==> Made(st, st.pending[id]) && st.owner[st.pending[id]] == id
  }

  ghost predicate FiledReaders(st: State) {
    forall r :: r in st.readers ==>
      Made(st, st.readers[r].ch) && st.owner[st.readers[r].ch] == st.readers[r].reply.id
  }

  ghost predicate FiledBuffers(st: State)
    requires |st.owner| == |st.buffers| == st.next
  {
    forall ch :: 0 <= ch < st.next ==>
      |st.buffers[ch]| <= 1 && (st.buffers[ch] != [] ==> st.buffers[ch][0].id == st.owner[ch])
  }

  ghost predicate FiledRequests(st: State) {
    && (forall t :: t in st.requests ==>
          Made(st, st.requests[t].ch) && st.owner[st.requests[t].ch] == st.requests[t].id)
    && (forall t :: t in st.requests && !st.requests[t].Waiting? && st.requests[t].outcome.Got? ==>
          st.requests[t].outcome.reply.id == st.requests[t].id)
  }

  /** Everything is filed under the id it was registered with. */
  ghost predicate Filed(st: State) {
    && |st.owner| == |st.buffers| == |st.sent| == st.next
    && FiledEntries(st) && FiledReaders(st) && FiledBuffers(st) && FiledRequests(st)
  }

  /** Channels are not shared. */
  ghost predicate OwnChannels(st: State) {
    forall t, u :: t in st.requests && u in st.requests && st.requests[t].ch == st.requests[u].ch ==> t == u
  }

  lemma {:induction false} RegisterKeepsFiled(mode: Mode, st: State, step: Step, st': State)
    requires step.Register? && Filed(st) && Next(mode, st, step, st')
    ensures Filed(st')
  {
  }

  lemma {:induction false} ReceiveKeepsFiled(mode: Mode, st: State, step: Step, st': State)
    requires step.Receive? && Filed(st) && Next(mode, st, step, st')
    ensures Filed(st')
  {
  }

  lemma {:induction false} GiveUpKeepsFiled(mode: Mode, st: State, step: Step, st': State)
    requires step.GiveUp? && Filed(st) && Next(mode, st, step, st')
    ensures Filed(st')
  {
  }

  lemma {:induction false} ReleaseKeepsFiled(mode: Mode, st: State, step: Step, st': State)
    requires step.Release? && Filed(st) && Next(mode, st, step, st')
    ensures Filed(st')
  {
  }

  lemma {:induction false} LookupKeepsFiled(mode: Mode, st: State, step: Step, st': State)
    requires step.Lookup? && Filed(st) && Next(mode, st, step, st')
    ensures Filed(st')
  {
  }

  lemma {:induction false} DeliverKeepsFiled(mode: Mode, st: State, step: Step, st': State)
    requires step.Deliver? && Filed(st) && Next(mode, st, step, st')
    ensures Filed(st')
  {
  }

  lemma {:induction false} StepKeepsFiled(mode: Mode, st: State, step: Step, st': State)
    requires Filed(st) && Next(mode, st, step, st')
    ensures Filed(st')
  {
    match step
    case Register(_, _) => RegisterKeepsFiled(mode, st, step, st');
    case Lookup(_, _) => LookupKeepsFiled(mode, st, step, st');
    case Deliver(_) => DeliverKeepsFiled(mode, st, step, st');
    case FailPending =>
    case Elsewhere =>
    case Receive(_) => ReceiveKeepsFiled(mode, st, step, st');
    case GiveUp(_) => GiveUpKeepsFiled(mode, st, step, st');
    case Release(_) => ReleaseKeepsFiled(mode, st, step, st');
  }

  lemma {:induction false} StepKeepsOwnChannels(mode: Mode, st: State, step: Step, st': State)
    requires Filed(st) && OwnChannels(st) && Next(mode, st, step, st')
    ensures OwnChannels(st')
  {
  }

  lemma {:induction false} AlwaysFiled(mode: Mode, states: seq<State>, steps: seq<Step>, n: nat)
    requires IsRun(mode, states, steps) && n <= |steps|
    ensures Filed(states[n]) && OwnChannels(states[n])
  {
    if n > 0 {
      AlwaysFiled(mode, states, steps, n - 1);
      assert StepAt(mode, states, steps, n - 1);
      StepKeepsFiled(mode, states[n - 1], steps[n - 1], states[n]);
      StepKeepsOwnChannels(mode, states[n - 1], steps[n - 1], states[n]);
    }
  }

  /** In every run of every transport, reused ids included, a request only ever returns a reply
      to its own id, and no channel ever holds more than one. */
  lemma {:induction false} OnlyOwnReplies(mode: Mode, states: seq<State>, steps: seq<Step>, n: nat, t: nat)
    requires IsRun(mode, states, steps) && n <= |steps|
    ensures forall ch :: 0 <= ch < |states[n].buffers| ==> |states[n].buffers[ch]| <= 1
    ensures t in states[n].requests && !states[n].requests[t].Waiting? && states[n].requests[t].outcome.Got? ==>
      states[n].requests[t].outcome.reply.id == states[n].requests[t].id
  {
    AlwaysFiled(mode, states, steps, n);
  }

  // ---------------------------------------------------------------- TCP and Redis: exactness

  /** The pending map holds exactly the requests between register and release. */
  ghost predicate Exact(st: State) {
    && (forall t :: InFlight(st, t) ==>
          st.requests[t].id in st.pending && st.pending[st.requests[t].id] == st.requests[t].ch)
    && (forall id :: id in st.pending ==> exists t :: InFlight(st, t) && st.requests[t].id == id)
  }

  ghost predicate DistinctIds(st: State) {
    forall t, u :: InFlight(st, t) && InFlight(st, u) && st.requests[t].id == st.requests[u].id ==> t == u
  }

  lemma {:induction false} ExactForcesDistinct(st: State)
    requires Exact(st) && OwnChannels(st)
    ensures DistinctIds(st)
  {
  }

  lemma {:induction false} RegisterKeepsExact(st: State, step: Step, st': State)
    requires step.Register? && Filed(st) && Exact(st) && Next(Peek, st, step, st') && DistinctIds(st')
    ensures Exact(st')
  {
    assert InFlight(st', step.t);
    forall t | InFlight(st', t) && t != step.t
      ensures st'.requests[t].id in st'.pending && st'.pending[st'.requests[t].id] == st'.requests[t].ch
    {
      assert InFlight(st, t);
    }
    forall id | id in st'.pending
      ensures exists t :: InFlight(st', t) && st'.requests[t].id == id
    {
      if id != step.id {
        var t :| InFlight(st, t) && st.requests[t].id == id;
        assert InFlight(st', t);
      }
    }
  }

  ghost predicate SameFlight(st: State, st': State, t: nat) {
    && (InFlight(st', t) <==> InFlight(st, t))
    && (InFlight(st, t) && InFlight(st', t) ==>
          st'.requests[t].id == st.requests[t].id && st'.requests[t].ch == st.requests[t].ch)
  }

  lemma {:induction false} OtherStepsAreQuiet(st: State, step: Step, st': State, t: nat)
    requires !step.Register? && !step.Release? && Next(Peek, st, step, st')
    ensures st'.pending == st.pending && SameFlight(st, st', t)
  {
  }

  /** A step that changes neither the map nor who is in flight. */
  lemma {:induction false} QuietKeepsExact(st: State, st': State)
    requires Exact(st) && st'.pending == st.pending
    requires forall t :: SameFlight(st, st', t)
    ensures Exact(st')
  {
    forall id | id in st'.pending
      ensures exists t :: InFlight(st', t) && st'.requests[t].id == id
    {
      var t :| InFlight(st, t) && st.requests[t].id == id;
      assert SameFlight(st, st', t);
    }
    forall t | InFlight(st', t)
      ensures st'.requests[t].id in st'.pending && st'.pending[st'.requests[t].id] == st'.requests[t].ch
    {
      assert SameFlight(st, st', t);
    }
  }

  lemma {:induction false} ReleaseKeepsExact(st: State, step: Step, st': State)
    requires step.Release? && Exact(st) && DistinctIds(st) && Next(Peek, st, step, st')
    ensures Exact(st')
  {
    assert InFlight(st, step.t);
    forall t
      ensures InFlight(st', t) <==> InFlight(st, t) && t != step.t
    {
    }
    forall id | id in st'.pending
      ensures exists t :: InFlight(st', t) && st'.requests[t].id == id
    {
      var t :| InFlight(st, t) && st.requests[t].id == id;
      assert InFlight(st', t);
    }
  }

  lemma {:induction false} StepKeepsExact(st: State, step: Step, st': State)
    requires Filed(st) && Exact(st) && DistinctIds(st) && Next(Peek, st, step, st') && DistinctIds(st')
    ensures Exact(st')
  {
    if step.Register? {
      RegisterKeepsExact(st, step, st');
    } else if step.Release? {
      ReleaseKeepsExact(st, step, st');
    } else {
      forall t: nat
        ensures SameFlight(st, st', t)
      {
        OtherStepsAreQuiet(st, step, st', t);
      }
      OtherStepsAreQuiet(st, step, st', 0);
      QuietKeepsExact(st, st');
    }
  }

  lemma {:induction false} DistinctRunIsExact(states: seq<State>, steps: seq<Step>, n: nat)
    requires IsRun(Peek, states, steps) && n <= |steps|
    requires forall i :: 0 <= i <= n ==> DistinctIds(states[i])
    ensures Exact(states[n])
  {
    if n > 0 {
      DistinctRunIsExact(states, steps, n - 1);
      AlwaysFiled(Peek, states, steps, n - 1);
      assert StepAt(Peek, states, steps, n - 1);
      StepKeepsExact(states[n - 1], steps[n - 1], states[n]);
    }
  }

  /** Over TCP and Redis: `pending` is exactly the in-flight requests throughout a run if and
      only if in-flight ids are distinct throughout it. */
  lemma {:induction false} ExactThroughoutIff(states: seq<State>, steps: seq<Step>)
    requires IsRun(Peek, states, steps)
    ensures (forall n :: 0 <= n < |states| ==> Exact(states[n])) <==>
      (forall n :: 0 <= n < |states| ==> DistinctIds(states[n]))
  {
    if forall n :: 0 <= n < |states| ==> DistinctIds(states[n]) {
      forall n | 0 <= n < |states|
        ensures Exact(states[n])
      {
        DistinctRunIsExact(states, steps, n);
      }
    }
    if forall n :: 0 <= n < |states| ==> Exact(states[n]) {
      forall n | 0 <= n < |states|
        ensures DistinctIds(states[n])
      {
        AlwaysFiled(Peek, states, steps, n);
        ExactForcesDistinct(states[n]);
      }
    }
  }

  /** The non-blocking send never parks a reader: whatever the channel holds, the step exists. */
  lemma {:induction false} PeekReaderNeverBlocks(states: seq<State>, steps: seq<Step>, n: nat, r: nat)
    requires IsRun(Peek, states, steps) && n <= |steps| && r in states[n].readers
    ensures exists st' :: Next(Peek, states[n], Deliver(r), st')
  {
    AlwaysFiled(Peek, states, steps, n);
    var st := states[n];
    var Held(reply, ch) := st.readers[r];
    if st.buffers[ch] != [] {
      assert Next(Peek, st, Deliver(r), st.(readers := st.readers - {r}));
    } else {
      assert Next(Peek, st, Deliver(r),
                  st.(buffers := st.buffers[ch := [reply]], sent := st.sent[ch := st.sent[ch] + 1],
                                            readers := st.readers - {r}));
    }
  }

  /** Request `t` waits on its channel, and something is there for it. */
  predicate Supplied(st: State, t: nat) {
    && t in st.requests && st.requests[t].Waiting?
    && st.requests[t].ch < |st.buffers| && st.buffers[st.requests[t].ch] != []
  }

  lemma {:induction false} WaitedBefore(mode: Mode, st: State, step: Step, st': State, t: nat)
    requires Next(mode, st, step, st') && t in st'.requests && st'.requests[t].Waiting? && t in st.requests
    ensures st.requests[t] == st'.requests[t]
  {
  }

  /** Only the waiter itself takes from its channel. */
  lemma {:induction false} StaysSupplied(st: State, step: Step, st': State, t: nat)
    requires Filed(st) && OwnChannels(st) && Supplied(st, t)
    requires Next(Peek, st, step, st') && t in st'.requests && st'.requests[t].Waiting?
    ensures Supplied(st', t)
  {
    WaitedBefore(Peek, st, step, st', t);
  }

  /** A reader keeps what it holds until it delivers. */
  lemma {:induction false} StillHeld(states: seq<State>, steps: seq<Step>, i: nat, j: nat, r: nat, held: Held)
    requires IsRun(Peek, states, steps) && i <= j <= |steps| && r in states[i].readers && states[i].readers[r] == held
    requires forall k :: i <= k < j ==> steps[k] != Deliver(r)
    ensures r in states[j].readers && states[j].readers[r] == held
  {
    if i < j {
      StillHeld(states, steps, i, j - 1, r, held);
      assert StepAt(Peek, states, steps, j - 1);
      assert steps[j - 1] != Deliver(r);
    }
  }

  lemma {:induction false} WaitingAllAlong(mode: Mode, states: seq<State>, steps: seq<Step>, i: nat, j: nat, t: nat)
    requires IsRun(mode, states, steps) && i <= j <= |steps|
    requires t in states[i].requests && t in states[j].requests && states[j].requests[t].Waiting?
    ensures states[i].requests[t] == states[j].requests[t]
  {
    if i < j {
      assert StepAt(mode, states, steps, j - 1);
      StaysKnown(mode, states, steps, i, j - 1, t);
      WaitedBefore(mode, states[j - 1], steps[j - 1], states[j], t);
      WaitingAllAlong(mode, states, steps, i, j - 1, t);
    }
  }

  lemma {:induction false} StaysKnown(mode: Mode, states: seq<State>, steps: seq<Step>, i: nat, j: nat, t: nat)
    requires IsRun(mode, states, steps) && i <= j <= |steps| && t in states[i].requests
    ensures t in states[j].requests
  {
    if i < j {
      StaysKnown(mode, states, steps, i, j - 1, t);
      assert StepAt(mode, states, steps, j - 1);
    }
  }

  /** Over TCP and Redis, with distinct ids up to the lookup: a reply looked up while its request is in
      flight and delivered at any later step is there for the request, or one before it is, in every state
      after the delivery in which the request still waits. */
  lemma {:induction false} ReplyReachesWaiter(states: seq<State>, steps: seq<Step>, i: nat, j: nat, n: nat, t: nat,
                                              r: nat,
                                              reply: Envelope)
    requires IsRun(Peek, states, steps) && i < j < n <= |steps|
    requires forall k :: 0 <= k <= i ==> DistinctIds(states[k])
    requires steps[i] == Lookup(r, reply) && InFlight(states[i], t) && states[i].requests[t].id == reply.id
    requires steps[j] == Deliver(r) && forall k :: i < k < j ==> steps[k] != Deliver(r)
    requires t in states[n].requests && states[n].requests[t].Waiting?
    ensures Supplied(states[n], t)
  {
    DistinctRunIsExact(states, steps, i);
    WaitingAllAlong(Peek, states, steps, i, n, t);
    StaysKnown(Peek, states, steps, i, j, t);
    StaysKnown(Peek, states, steps, i, j + 1, t);
    WaitingAllAlong(Peek, states, steps, j, n, t);
    WaitingAllAlong(Peek, states, steps, j + 1, n, t);
    assert StepAt(Peek, states, steps, i) && StepAt(Peek, states, steps, j);
    StillHeld(states, steps, i + 1, j, r, Held(reply, states[i].requests[t].ch));
    AlwaysFiled(Peek, states, steps, j);
    Delivered(states[j], states[j + 1], r, t);
    SuppliedSince(states, steps, j + 1, n, t);
  }

  lemma {:induction false} Delivered(st: State, st': State, r: nat, t: nat)
    requires Filed(st) && Next(Peek, st, Deliver(r), st') && t in st.requests && st.requests[t].Waiting?
    requires st.readers[r].ch == st.requests[t].ch
    ensures Supplied(st', t)
  {
  }

  lemma {:induction false} SuppliedSince(states: seq<State>, steps: seq<Step>, i: nat, n: nat, t: nat)
    requires IsRun(Peek, states, steps) && i <= n <= |steps| && Supplied(states[i], t)
    requires t in states[n].requests && states[n].requests[t].Waiting?
    ensures Supplied(states[n], t)
  {
    if i < n {
      StaysKnown(Peek, states, steps, i, n - 1, t);
      assert StepAt(Peek, states, steps, n - 1);
      WaitedBefore(Peek, states[n - 1], steps[n - 1], states[n], t);
      SuppliedSince(states, steps, i, n - 1, t);
      AlwaysFiled(Peek, states, steps, n - 1);
      StaysSupplied(states[n - 1], steps[n - 1], states[n], t);
    }
  }

  // ---------------------------------------------------------------- RabbitMQ and Kafka

  /** A channel is listed, or held by one reader, or has been sent to: never two of these. */
  ghost predicate AtMostOnce(st: State) {
    && (forall id :: id in st.pending ==> Made(st, st.pending[id]) && st.sent[st.pending[id]] == 0)
    && (forall id, r :: id in st.pending && r in st.readers ==> st.readers[r].ch != st.pending[id])
    && (forall r, q :: r in st.readers && q in st.readers && st.readers[r].ch == st.readers[q].ch ==> r == q)
    && (forall r :: r in st.readers ==> Made(st, st.readers[r].ch) && st.sent[st.readers[r].ch] == 0)
    && (forall ch :: 0 <= ch < st.next && Made(st, ch) ==>
          st.sent[ch] <= 1 && (st.sent[ch] == 0 ==> st.buffers[ch] == []))
  }

  lemma {:induction false} ReceiveKeepsAtMostOnce(st: State, step: Step, st': State)
    requires step.Receive? && Filed(st) && AtMostOnce(st) && Next(Take, st, step, st')
    ensures AtMostOnce(st')
  {
  }

  /** A step that only drops entries, or only moves a request along. */
  lemma {:induction false} DropKeepsAtMostOnce(st: State, st': State)
    requires AtMostOnce(st) && st'.pending.Keys <= st.pending.Keys
    requires (forall id :: id in st'.pending ==> st'.pending[id] == st.pending[id])
    requires st' == st.(pending := st'.pending, requests := st'.requests)
    ensures AtMostOnce(st')
  {
    assert forall ch :: Made(st', ch) <==> Made(st, ch);
  }

  lemma {:induction false} RegisterKeepsAtMostOnce(st: State, step: Step, st': State)
    requires step.Register? && Filed(st) && AtMostOnce(st) && Next(Take, st, step, st')
    ensures AtMostOnce(st')
  {
  }

  lemma {:induction false} LookupKeepsAtMostOnce(st: State, step: Step, st': State)
    requires step.Lookup? && Filed(st) && AtMostOnce(st) && Next(Take, st, step, st')
    ensures AtMostOnce(st')
  {
  }

  lemma {:induction false} DeliverKeepsAtMostOnce(st: State, step: Step, st': State)
    requires step.Deliver? && Filed(st) && AtMostOnce(st) && Next(Take, st, step, st')
    ensures AtMostOnce(st')
  {
  }

  lemma {:induction false} StepKeepsAtMostOnce(st: State, step: Step, st': State)
    requires Filed(st) && AtMostOnce(st) && Next(Take, st, step, st')
    ensures AtMostOnce(st')
  {
    match step
    case Register(_, _) => RegisterKeepsAtMostOnce(st, step, st');
    case Lookup(_, _) => LookupKeepsAtMostOnce(st, step, st');
    case Deliver(_) => DeliverKeepsAtMostOnce(st, step, st');
    case Receive(_) => ReceiveKeepsAtMostOnce(st, step, st');
    case _ => DropKeepsAtMostOnce(st, st');
  }

  lemma {:induction false} AlwaysAtMostOnce(states: seq<State>, steps: seq<Step>, n: nat)
    requires IsRun(Take, states, steps) && n <= |steps|
    ensures AtMostOnce(states[n])
  {
    if n > 0 {
      AlwaysAtMostOnce(states, steps, n - 1);
      AlwaysFiled(Take, states, steps, n - 1);
      assert StepAt(Take, states, steps, n - 1);
      StepKeepsAtMostOnce(states[n - 1], steps[n - 1], states[n]);
    }
  }

  /** Over RabbitMQ and Kafka, whatever ids are reused and whenever entries are dropped, each
      reply channel is sent to at most once, so the plain send always finds room. */
  lemma {:induction false} TakeSendNeverBlocks(states: seq<State>, steps: seq<Step>, n: nat)
    requires IsRun(Take, states, steps) && n <= |steps|
    ensures forall ch :: 0 <= ch < |states[n].sent| ==> states[n].sent[ch] <= 1
    ensures forall r :: r in states[n].readers ==>
      states[n].readers[r].ch < |states[n].buffers| && states[n].buffers[states[n].readers[r].ch] == []
  {
    AlwaysAtMostOnce(states, steps, n);
    AlwaysFiled(Take, states, steps, n);
    forall ch | 0 <= ch < |states[n].sent|
      ensures states[n].sent[ch] <= 1
    {
      assert Made(states[n], ch);
    }
  }

  // ---------------------------------------------------------------- what becomes of an entry

  /** The channel of `t` is in the map. */
  predicate Listed(st: State, t: nat) {
    t in st.requests && st.requests[t].id in st.pending && st.pending[st.requests[t].id] == st.requests[t].ch
  }

  /** A reader has taken it, or has sent to it. */
  ghost predicate Served(st: State, t: nat) {
    && t in st.requests
    && ((exists r :: r in st.readers && st.readers[r].ch == st.requests[t].ch)
        || (st.requests[t].ch < |st.sent| && st.sent[st.requests[t].ch] > 0))
  }

  lemma {:induction false} LookupAccounts(st: State, step: Step, st': State, t: nat)
    requires step.Lookup? && Filed(st) && Next(Take, st, step, st') && t in st.requests
    ensures Listed(st', t) || Served(st', t) <==> Listed(st, t) || Served(st, t)
  {
    if Served(st, t) && exists r :: r in st.readers && st.readers[r].ch == st.requests[t].ch {
      var r :| r in st.readers && st.readers[r].ch == st.requests[t].ch;
      assert r in st'.readers && st'.readers[r].ch == st'.requests[t].ch;
    }
    if Listed(st, t) && step.reply.id == st.requests[t].id {
      assert step.r in st'.readers && st'.readers[step.r].ch == st'.requests[t].ch;
    }
  }

  lemma {:induction false} DeliverAccounts(st: State, step: Step, st': State, t: nat)
    requires step.Deliver? && Filed(st) && Next(Take, st, step, st') && t in st.requests
    ensures Listed(st', t) == Listed(st, t) && (Served(st', t) <==> Served(st, t))
  {
    if Served(st, t) && exists r :: r in st.readers && st.readers[r].ch == st.requests[t].ch {
      var r :| r in st.readers && st.readers[r].ch == st.requests[t].ch;
      assert r != step.r ==> r in st'.readers && st'.readers[r].ch == st'.requests[t].ch;
    }
  }

  /** Registering, returning and receiving by others leaves a waiter's entry alone, when ids are distinct. */
  lemma {:induction false} OthersAccount(st: State, step: Step, st': State, t: nat)
    requires Filed(st) && OwnChannels(st) && DistinctIds(st) && DistinctIds(st') && Next(Take, st, step, st')
    requires !step.Lookup? && !step.Deliver? && !step.FailPending?
    requires t in st.requests && t in st'.requests && st'.requests[t].Waiting?
    ensures Listed(st', t) == Listed(st, t) && (Served(st', t) <==> Served(st, t))
  {
    OthersList(st, step, st', t);
    OthersServe(st, step, st', t);
  }

  lemma {:induction false} OthersList(st: State, step: Step, st': State, t: nat)
    requires Filed(st) && DistinctIds(st) && DistinctIds(st') && Next(Take, st, step, st')
    requires !step.Lookup? && !step.Deliver? && !step.FailPending?
    requires t in st.requests && t in st'.requests && st'.requests[t].Waiting?
    ensures Listed(st', t) == Listed(st, t)
  {
    WaitedBefore(Take, st, step, st', t);
    assert InFlight(st, t) && InFlight(st', t);
    if step.Register? {
      assert InFlight(st', step.t);
    } else if step.Release? {
      assert InFlight(st, step.t);
    }
  }

  lemma {:induction false} OthersServe(st: State, step: Step, st': State, t: nat)
    requires Filed(st) && OwnChannels(st) && Next(Take, st, step, st')
    requires !step.Lookup? && !step.Deliver? && !step.FailPending?
    requires t in st.requests && t in st'.requests && st'.requests[t].Waiting?
    ensures Served(st', t) <==> Served(st, t)
  {
    WaitedBefore(Take, st, step, st', t);
    if r :| r in st.readers && st.readers[r].ch == st.requests[t].ch {
      assert r in st'.readers && st'.readers[r].ch == st'.requests[t].ch;
    }
  }

  /** One step: a waiter's channel goes out of sight exactly when every entry is dropped while it is listed. */
  lemma {:induction false} StepAccounts(st: State, step: Step, st': State, t: nat)
    requires Filed(st) && OwnChannels(st) && AtMostOnce(st) && DistinctIds(st) && DistinctIds(st')
    requires Next(Take, st, step, st')
    requires t in st.requests && t in st'.requests && st'.requests[t].Waiting?
    ensures Listed(st', t) || Served(st', t) <==>
      (Listed(st, t) || Served(st, t)) && !(step.FailPending? && Listed(st, t))
  {
    if step.Lookup? {
      LookupAccounts(st, step, st', t);
    } else if step.Deliver? {
      DeliverAccounts(st, step, st', t);
    } else if step.FailPending? {
      if r :| r in st.readers && st.readers[r].ch == st.requests[t].ch {
        assert r in st'.readers && st'.readers[r].ch == st'.requests[t].ch;
      }
    } else {
      OthersAccount(st, step, st', t);
    }
  }

  /** All entries were dropped at a step from `i` on while that of `t` was listed. */
  ghost predicate DroppedSince(states: seq<State>, steps: seq<Step>, i: nat, n: nat, t: nat)
    requires |states| == |steps| + 1 && n <= |steps|
  {
    exists k :: i <= k < n && steps[k].FailPending? && Listed(states[k], t)
  }

  /** Over every run of RabbitMQ and Kafka with distinct ids: the channel of a waiting request is listed, held
      by a reader or sent to, exactly when all entries were never dropped while its own was listed. */
  lemma {:induction false} KeptIffNotDropped(states: seq<State>, steps: seq<Step>, i: nat, n: nat, t: nat)
    requires IsRun(Take, states, steps) && i < n <= |steps| && steps[i].Register? && steps[i].t == t
    requires forall k :: 0 <= k < |states| ==> DistinctIds(states[k])
    requires t in states[n].requests && states[n].requests[t].Waiting?
    ensures Listed(states[n], t) || Served(states[n], t) <==> !DroppedSince(states, steps, i, n, t)
  {
    if n == i + 1 {
      JustRegistered(states, steps, i, t);
    } else {
      assert StepAt(Take, states, steps, n - 1);
      JustRegistered(states, steps, i, t);
      StaysKnown(Take, states, steps, i + 1, n - 1, t);
      WaitedBefore(Take, states[n - 1], steps[n - 1], states[n], t);
      KeptIffNotDropped(states, steps, i, n - 1, t);
      KeptNext(states, steps, n - 1, t);
      DroppedNext(states, steps, i, n - 1, t);
    }
  }

  lemma {:induction false} JustRegistered(states: seq<State>, steps: seq<Step>, i: nat, t: nat)
    requires IsRun(Take, states, steps) && i < |steps| && steps[i].Register? && steps[i].t == t
    ensures t in states[i + 1].requests && Listed(states[i + 1], t) && !DroppedSince(states, steps, i, i + 1, t)
  {
    assert StepAt(Take, states, steps, i);
  }

  lemma {:induction false} KeptNext(states: seq<State>, steps: seq<Step>, n: nat, t: nat)
    requires IsRun(Take, states, steps) && n < |steps| && DistinctIds(states[n]) && DistinctIds(states[n + 1])
    requires t in states[n].requests && t in states[n + 1].requests && states[n + 1].requests[t].Waiting?
    ensures Listed(states[n + 1], t) || Served(states[n + 1], t) <==>
            (Listed(states[n], t) || Served(states[n], t)) && !(steps[n].FailPending? && Listed(states[n], t))
  {
    assert StepAt(Take, states, steps, n);
    AlwaysFiled(Take, states, steps, n);
    AlwaysAtMostOnce(states, steps, n);
    StepAccounts(states[n], steps[n], states[n + 1], t);
  }

  lemma {:induction false} DroppedNext(states: seq<State>, steps: seq<Step>, i: nat, n: nat, t: nat)
    requires |states| == |steps| + 1 && i <= n < |steps|
    ensures DroppedSince(states, steps, i, n + 1, t) <==>
            DroppedSince(states, steps, i, n, t) || (steps[n].FailPending? && Listed(states[n], t))
  {
  }
}
