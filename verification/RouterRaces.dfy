/** `Resolve` under real interleavings. It reads the tables under one lock and stores the memo
    entry under another, so an `Add` may slip in between. */
module RouterRaces {
  import opened Options
  import opened Patterns
  import opened Routers
  import opened TextOrder

  /** Where one caller of `Resolve` stands. */
  datatype Phase =
    | Idle
    | Looking(subject: string)                          // not in the exact map; wildcards exist
    | Missed(subject: string)                           // not in the memo either
    | Computed(subject: string, found: Option<Route>)   // searched, not stored yet
    | Answered(subject: string, answer: Option<Route>)

  datatype State = State(
    exact: map<string, Route>,
    wild: seq<Route>,
    cache: map<string, Option<Route>>,
    callers: map<nat, Phase>)

  datatype Step =
    | Register(route: Route)              // an Add that is accepted
    | Begin(caller: nat, subject: string)
    | ReadCache(caller: nat)
    | Search(caller: nat)
    | Store(caller: nat)

  function PhaseOf(st: State, caller: nat): Phase {
    if caller in st.callers then st.callers[caller] else Idle
  }

  /** The tables once an accepted `Add` has run: a literal enters the map, a wildcard the list,
      and the memo is emptied in both cases. */
  ghost predicate Registers(st: State, st': State, route: Route) {
    && ValidPattern(route.pattern)
    && (forall q :: q in SetOf(st.exact, st.wild) ==> q.pattern != route.pattern)
    && st'.cache == map[] && st'.callers == st.callers
    && if IsWildcard(route.pattern) then
         && st'.exact == st.exact && SortedBySpecificity(st'.wild)
         && forall q :: q in st'.wild <==> q in st.wild || q == route
       else
         st'.exact == st.exact[route.pattern := route] && st'.wild == st.wild
  }

  ghost predicate Next(st: State, step: Step, st': State) {
    match step
    case Register(route) => Registers(st, st', route)
    case Begin(c, s) =>
      st' == st.(callers := st.callers[c :=
        if s in st.exact then Answered(s, Some(st.exact[s]))
        else if st.wild == [] then Answered(s, None)
        else Looking(s)])
    case ReadCache(c) =>
      && PhaseOf(st, c).Looking?
      && var s := PhaseOf(st, c).subject;
         st' == st.(callers := st.callers[c := if s in st.cache then Answered(s, st.cache[s]) else Missed(s)])
    case Search(c) =>
      && PhaseOf(st, c).Missed?
      && var s := PhaseOf(st, c).subject;
         st' == st.(callers := st.callers[c := Computed(s, FirstMatch(st.wild, s))])
    case Store(c) =>
      && PhaseOf(st, c).Computed?
      && var Computed(s, found) := PhaseOf(st, c);
         var kept := if |st.cache| >= MaxRouteCacheEntries then map[] else st.cache;
         st' == st.(cache := kept[s := found], callers := st.callers[c := Answered(s, found)])
  }

  /** Every memo entry, and every result waiting to be stored, is what a search would find now. */
  ghost predicate Coherent(st: State) {
    && (forall s :: s in st.cache ==> st.cache[s] == FirstMatch(st.wild, s))
    && (forall c :: c in st.callers && st.callers[c].Computed? ==>
          st.callers[c].found == FirstMatch(st.wild, st.callers[c].subject))
  }

  /** The new route would change the result some caller has computed and not stored. */
  ghost predicate Overtakes(route: Route, phase: Phase) {
    && IsWildcard(route.pattern) && phase.Computed? && Matches(route.pattern, phase.subject)
    && (phase.found.Some? ==> Beats(route.pattern, phase.found.value.pattern))
  }

  /** No caller sits between search and store with a result the new route would replace. */
  ghost predicate Harmless(st: State, route: Route) {
    forall c :: c in st.callers ==> !Overtakes(route, st.callers[c])
  }

  /** How inserting a route changes the first match. */
  lemma {:induction false} FirstMatchAfterInsert(wild: seq<Route>, wild': seq<Route>, route: Route, subject: string)
    requires SortedBySpecificity(wild) && SortedBySpecificity(wild')
    requires forall q :: q in wild' <==> q in wild || q == route
    requires forall q :: q in wild ==> q.pattern != route.pattern
    ensures
      var was := FirstMatch(wild, subject);
      FirstMatch(wild', subject) ==
        if Matches(route.pattern, subject) && (was.Some? ==> Beats(route.pattern, was.value.pattern))
        then Some(route) else was
  {
    FirstMatchIsBest(wild, subject);
    FirstMatchIsBest(wild', subject);
    var all, all' := (set r | r in wild), (set r | r in wild');
    var was := FirstMatch(wild, subject);
    var now := if Matches(route.pattern, subject) && (was.Some? ==> Beats(route.pattern, was.value.pattern))
               then Some(route) else was;
    forall q | q in all' && now.Some? && q != now.value && Matches(q.pattern, subject)
      ensures Beats(now.value.pattern, q.pattern)
    {
      if now == Some(route) {
        if was.Some? && q != was.value {
          BeatsTransitive(route.pattern, was.value.pattern, q.pattern);
        }
      } else if q == route {
        BeatsIsTotal(route.pattern, was.value.pattern);
      }
    }
    BestIsUnique(all', subject, FirstMatch(wild', subject), now);
  }

  /** An `Add` breaks coherence exactly when it overtakes a computed result: the caller can
      tell beforehand, by whether a `Resolve` sits between its search and its store. */
  lemma {:induction false} AddIsSafeIff(st: State, route: Route, st': State)
    requires ValidTables(st.exact, st.wild) && Coherent(st) && Registers(st, st', route)
    ensures Coherent(st') <==> Harmless(st, route)
  {
    if IsWildcard(route.pattern) {
      assert forall q :: q in st.wild ==> q in SetOf(st.exact, st.wild);
      forall c | c in st.callers && st.callers[c].Computed?
        ensures (st.callers[c].found == FirstMatch(st'.wild, st.callers[c].subject)) <==>
          !Overtakes(route, st.callers[c])
      {
        var subject := st.callers[c].subject;
        FirstMatchAfterInsert(st.wild, st'.wild, route, subject);
        FirstMatchIsBest(st.wild, subject);
      }
    }
  }

  lemma {:induction false} TablesStayValid(st: State, step: Step, st': State)
    requires ValidTables(st.exact, st.wild) && Next(st, step, st')
    ensures ValidTables(st'.exact, st'.wild)
  {
    match step
    case Register(route) =>
      if IsWildcard(route.pattern) {
        WildGrows(st.exact, st.wild, st'.wild, route);
      } else {
        ExactGrows(st.exact, st.wild, route);
      }
    case _ =>
  }

  /** Every step but an `Add` keeps coherence whatever else is going on. */
  lemma {:induction false} StepKeepsCoherent(st: State, step: Step, st': State)
    requires ValidTables(st.exact, st.wild) && Coherent(st) && Next(st, step, st')
    ensures step.Register? || Coherent(st')
    ensures step.Register? ==> (Coherent(st') <==> Harmless(st, step.route))
  {
    match step
    case Register(route) => AddIsSafeIff(st, route, st');
    case _ =>
  }

  /** A run: `states[i]` to `states[i+1]` by `steps[i]`, from an empty router. */
  ghost predicate IsRun(states: seq<State>, steps: seq<Step>) {
    && |states| == |steps| + 1
    && states[0] == State(map[], [], map[], map[])
    && forall i :: 0 <= i < |steps| ==> Next(states[i], steps[i], states[i + 1])
  }

  ghost predicate HarmlessAt(states: seq<State>, steps: seq<Step>, i: nat)
    requires i < |steps| < |states|
  {
    steps[i].Register? ==> Harmless(states[i], steps[i].route)
  }

  lemma {:induction false} RunTablesValid(states: seq<State>, steps: seq<Step>, n: nat)
    requires IsRun(states, steps) && n <= |steps|
    ensures ValidTables(states[n].exact, states[n].wild)
  {
    if n > 0 {
      RunTablesValid(states, steps, n - 1);
      TablesStayValid(states[n - 1], steps[n - 1], states[n]);
    }
  }

  lemma {:induction false} CoherentNext(states: seq<State>, steps: seq<Step>, i: nat)
    requires IsRun(states, steps) && i < |steps| && Coherent(states[i]) && HarmlessAt(states, steps, i)
    ensures Coherent(states[i + 1])
  {
    RunTablesValid(states, steps, i);
    StepKeepsCoherent(states[i], steps[i], states[i + 1]);
  }

  lemma {:induction false} RunCoherent(states: seq<State>, steps: seq<Step>, n: nat)
    requires IsRun(states, steps) && n <= |steps|
    requires forall i :: 0 <= i < n ==> HarmlessAt(states, steps, i)
    ensures Coherent(states[n])
  {
    if n > 0 {
      RunCoherent(states, steps, n - 1);
      CoherentNext(states, steps, n - 1);
    }
  }

  /** Over every interleaving: the memo is right in every state of the run exactly when no
      `Add` of the run overtakes a search that is not stored yet. */
  lemma {:induction false} CoherentThroughoutIff(states: seq<State>, steps: seq<Step>)
    requires IsRun(states, steps)
    ensures (forall n :: 0 <= n < |states| ==> Coherent(states[n])) <==>
            (forall i :: 0 <= i < |steps| ==> HarmlessAt(states, steps, i))
  {
    if forall i :: 0 <= i < |steps| ==> HarmlessAt(states, steps, i) {
      forall n | 0 <= n < |states|
        ensures Coherent(states[n])
      {
        RunCoherent(states, steps, n);
      }
    }
    if forall n :: 0 <= n < |states| ==> Coherent(states[n]) {
      forall i | 0 <= i < |steps|
        ensures HarmlessAt(states, steps, i)
      {
        assert Coherent(states[i]) && Coherent(states[i + 1]);
        RunTablesValid(states, steps, i);
        StepKeepsCoherent(states[i], steps[i], states[i + 1]);
      }
    }
  }

  lemma {:induction false} StoreStaysBounded(cache: map<string, Option<Route>>, s: string, found: Option<Route>)
    requires |cache| <= MaxRouteCacheEntries
    ensures var kept := if |cache| >= MaxRouteCacheEntries then map[] else cache;
      |kept[s := found]| <= MaxRouteCacheEntries
  {
    var kept := if |cache| >= MaxRouteCacheEntries then map[] else cache;
    assert kept[s := found].Keys == kept.Keys + {s};
  }

  /** Over every interleaving the memo stays within its bound, however many callers store at once. */
  lemma {:induction false} MemoIsBounded(states: seq<State>, steps: seq<Step>, n: nat)
    requires IsRun(states, steps) && n <= |steps|
    ensures |states[n].cache| <= MaxRouteCacheEntries
  {
    if n > 0 {
      MemoIsBounded(states, steps, n - 1);
      var st, step := states[n - 1], steps[n - 1];
      assert Next(st, step, states[n - 1 + 1]);
      if step.Store? {
        StoreStaysBounded(st.cache, PhaseOf(st, step.caller).subject, PhaseOf(st, step.caller).found);
      }
    }
  }

  // ---------------------------------------------------------------- answers

  /** The step gives its caller an answer. */
  ghost predicate Answers(step: Step, st': State) {
    !step.Register? && PhaseOf(st', step.caller).Answered?
  }

  /** The answer is the best route at the moment it is given. */
  ghost predicate AnsweredBest(st: State, step: Step, st': State) {
    Answers(step, st') ==>
      IsBest(SetOf(st.exact, st.wild), PhaseOf(st', step.caller).subject, PhaseOf(st', step.caller).answer)
  }

  /** `Resolve` looks in the exact map once, at its beginning. In a coherent state a later answer is
      the best route exactly when the subject has not been registered as a literal since. */
  lemma {:induction false} AnswerIsBestIff(st: State, step: Step, st': State)
    requires ValidTables(st.exact, st.wild) && Coherent(st) && Next(st, step, st')
    requires (step.ReadCache? || step.Store?) && Answers(step, st')
    ensures AnsweredBest(st, step, st') <==> PhaseOf(st', step.caller).subject !in st.exact
  {
    var s, answer := PhaseOf(st, step.caller).subject, PhaseOf(st', step.caller).answer;
    assert answer == FirstMatch(st.wild, s);
    LookupIsBest(st.exact, st.wild, s);
    FirstMatchIsBest(st.wild, s);
    if s in st.exact && IsBest(SetOf(st.exact, st.wild), s, answer) {
      BestIsUnique(SetOf(st.exact, st.wild), s, answer, Some(st.exact[s]));
    }
  }

  /** An answer from the exact map, or that there is no wildcard at all, is always right. */
  lemma {:induction false} FirstLookIsBest(st: State, step: Step, st': State)
    requires ValidTables(st.exact, st.wild) && Next(st, step, st') && step.Begin?
    ensures AnsweredBest(st, step, st')
  {
    LookupIsBest(st.exact, st.wild, step.subject);
  }

  /** The subject was registered as a literal after the caller had looked in the exact map. */
  ghost predicate LiteralMissed(st: State, step: Step, st': State) {
    (step.ReadCache? || step.Store?) && Answers(step, st') && PhaseOf(st', step.caller).subject in st.exact
  }

  /** Over every interleaving in which no `Add` overtakes an unstored search: all answers are best
      exactly when no literal is registered between a caller's look in the exact map and its answer. */
  lemma {:induction false} AllAnswersBestIff(states: seq<State>, steps: seq<Step>)
    requires IsRun(states, steps) && forall i :: 0 <= i < |steps| ==> HarmlessAt(states, steps, i)
    ensures (forall i :: 0 <= i < |steps| ==> AnsweredBest(states[i], steps[i], states[i + 1])) <==>
            (forall i :: 0 <= i < |steps| ==> !LiteralMissed(states[i], steps[i], states[i + 1]))
  {
    forall i | 0 <= i < |steps|
      ensures AnsweredBest(states[i], steps[i], states[i + 1]) <==> !LiteralMissed(states[i], steps[i], states[i + 1])
    {
      RunCoherent(states, steps, i);
      RunTablesValid(states, steps, i);
      OneAnswerIff(states[i], steps[i], states[i + 1]);
    }
  }

  lemma {:induction false} OneAnswerIff(st: State, step: Step, st': State)
    requires ValidTables(st.exact, st.wild) && Coherent(st) && Next(st, step, st')
    ensures AnsweredBest(st, step, st') <==> !LiteralMissed(st, step, st')
  {
    if step.Begin? {
      FirstLookIsBest(st, step, st');
    } else if Answers(step, st') {
      AnswerIsBestIff(st, step, st');
    }
  }

  /** Nothing is registered once a caller has begun. */
  ghost predicate RegistrationFirst(steps: seq<Step>) {
    forall i, j :: 0 <= i < j < |steps| && steps[i].Begin? ==> !steps[j].Register?
  }

  /** A caller that has begun and is not answered found its subject not registered as a literal. */
  ghost predicate NotLiteral(st: State) {
    forall c :: c in st.callers && !st.callers[c].Answered? && !st.callers[c].Idle? ==>
        st.callers[c].subject !in st.exact
  }

  lemma {:induction false} QuietBeforeBegin(states: seq<State>, steps: seq<Step>, n: nat)
    requires IsRun(states, steps) && n <= |steps| && forall i :: 0 <= i < n ==> !steps[i].Begin?
    ensures states[n].callers == map[]
  {
    if n > 0 {
      QuietBeforeBegin(states, steps, n - 1);
      assert Next(states[n - 1], steps[n - 1], states[n]);
    }
  }

  lemma {:induction false} StaysNotLiteral(states: seq<State>, steps: seq<Step>, n: nat)
    requires IsRun(states, steps) && n <= |steps| && RegistrationFirst(steps)
    ensures NotLiteral(states[n])
  {
    if n > 0 {
      StaysNotLiteral(states, steps, n - 1);
      assert Next(states[n - 1], steps[n - 1], states[n]);
      if steps[n - 1].Register? {
        QuietBeforeBegin(states, steps, n - 1);
      }
    }
  }

  /** When registration is over before the first `Resolve` begins, every answer of every interleaving
      is the best route. */
  lemma {:induction false} RegisteredFirstAnswersBest(states: seq<State>, steps: seq<Step>, n: nat)
    requires IsRun(states, steps) && RegistrationFirst(steps) && n < |steps|
    ensures AnsweredBest(states[n], steps[n], states[n + 1])
  {
    forall i | 0 <= i < n
      ensures HarmlessAt(states, steps, i)
    {
      if steps[i].Register? {
        QuietBeforeBegin(states, steps, i);
      }
    }
    RunCoherent(states, steps, n);
    RunTablesValid(states, steps, n);
    StaysNotLiteral(states, steps, n);
    assert Next(states[n], steps[n], states[n + 1]);
    OneAnswerIff(states[n], steps[n], states[n + 1]);
  }

  // ---------------------------------------------------------------- answers and instants

  /** Routes only come. */
  lemma {:induction false} TablesGrow(states: seq<State>, steps: seq<Step>, i: nat, k: nat)
    requires IsRun(states, steps) && i <= k <= |steps|
    ensures states[i].exact.Keys <= states[k].exact.Keys && forall r :: r in states[i].wild ==> r in states[k].wild
  {
    if i < k {
      TablesGrow(states, steps, i, k - 1);
      assert Next(states[k - 1], steps[k - 1], states[k - 1 + 1]);
    }
  }

  /** What a search of some state up to `n` finds. */
  ghost predicate FoundBy(states: seq<State>, n: nat, s: string, found: Option<Route>)
    requires n < |states|
  {
    exists j :: 0 <= j <= n && found == FirstMatch(states[j].wild, s)
  }

  /** Everything in the memo, and everything to be stored, was found by some search. */
  ghost predicate Sourced(states: seq<State>, n: nat)
    requires n < |states|
  {
    && (forall s :: s in states[n].cache ==> FoundBy(states, n, s, states[n].cache[s]))
    && (forall c :: c in states[n].callers && states[n].callers[c].Computed? ==>
          FoundBy(states, n, states[n].callers[c].subject, states[n].callers[c].found))
  }

  lemma {:induction false} FoundLater(states: seq<State>, n: nat, s: string, found: Option<Route>)
    requires n + 1 < |states| && FoundBy(states, n, s, found)
    ensures FoundBy(states, n + 1, s, found)
  {
  }

  lemma {:induction false} StepKeepsSourced(states: seq<State>, n: nat, step: Step)
    requires n + 1 < |states| && Sourced(states, n) && Next(states[n], step, states[n + 1])
    ensures Sourced(states, n + 1)
  {
    var st, st' := states[n], states[n + 1];
    forall s | s in st'.cache ensures FoundBy(states, n + 1, s, st'.cache[s]) {
      FoundLater(states, n, s, st'.cache[s]);
    }
    forall c | c in st'.callers && st'.callers[c].Computed?
      ensures FoundBy(states, n + 1, st'.callers[c].subject, st'.callers[c].found)
    {
      if c in st.callers && st.callers[c] == st'.callers[c] {
        FoundLater(states, n, st'.callers[c].subject, st'.callers[c].found);
      } else {
        assert st'.callers[c].found == FirstMatch(states[n].wild, st'.callers[c].subject);
      }
    }
  }

  lemma {:induction false} AlwaysSourced(states: seq<State>, steps: seq<Step>, n: nat)
    requires IsRun(states, steps) && n <= |steps|
    ensures Sourced(states, n)
  {
    if n > 0 {
      AlwaysSourced(states, steps, n - 1);
      StepKeepsSourced(states, n - 1, steps[n - 1]);
    }
  }

  /** An answer of a search is the best route exactly while the subject is no literal and the wildcards are such
      that a search finds it. */
  lemma {:induction false} WildIsBestIff(exact: map<string, Route>, wild: seq<Route>, s: string, answer: Option<Route>)
    requires ValidTables(exact, wild) && (answer.Some? ==> IsWildcard(answer.value.pattern))
    ensures IsBest(SetOf(exact, wild), s, answer) <==> s !in exact && answer == FirstMatch(wild, s)
  {
    LookupIsBest(exact, wild, s);
    if IsBest(SetOf(exact, wild), s, answer) {
      BestIsUnique(SetOf(exact, wild), s, answer, if s in exact then Some(exact[s]) else FirstMatch(wild, s));
    }
  }

  /** A wildcard that is registered would be preferred to the answer. */
  ghost predicate Outdated(wild: seq<Route>, s: string, answer: Option<Route>) {
    exists r :: r in wild && Matches(r.pattern, s) && (answer.Some? ==> Beats(r.pattern, answer.value.pattern))
  }

  lemma {:induction false} FoundIsNotOutdated(wild: seq<Route>, s: string)
    requires SortedBySpecificity(wild)
    ensures !Outdated(wild, s, FirstMatch(wild, s))
  {
    FirstMatchIsBest(wild, s);
    var first := FirstMatch(wild, s);
    forall r | r in wild && Matches(r.pattern, s) && first.Some? ensures !Beats(r.pattern, first.value.pattern) {
      BeatsIsTotal(first.value.pattern, r.pattern);
      BeatsIsTotal(r.pattern, r.pattern);
    }
  }

  /** Among fewer wildcards that hold it, or none, what was found among all is found again. */
  lemma {:induction false} FoundAmongFewer(wild: seq<Route>, more: seq<Route>, s: string)
    requires SortedBySpecificity(wild) && SortedBySpecificity(more) && forall r :: r in wild ==> r in more
    requires FirstMatch(more, s).Some? ==> FirstMatch(more, s).value in wild
    ensures FirstMatch(wild, s) == FirstMatch(more, s)
  {
    FirstMatchIsBest(wild, s);
    FirstMatchIsBest(more, s);
    BestIsUnique((set r | r in wild), s, FirstMatch(wild, s), FirstMatch(more, s));
  }

  /** A registered route to which no other is preferred is what a search finds. */
  lemma {:induction false} FoundIfNotOutdated(wild: seq<Route>, s: string, answer: Option<Route>)
    requires SortedBySpecificity(wild) && !Outdated(wild, s, answer)
    requires answer.Some? ==> answer.value in wild && Matches(answer.value.pattern, s)
    ensures FirstMatch(wild, s) == answer
  {
    FirstMatchIsBest(wild, s);
  }

  // Caller `c` begins in step `b`, and is answered in step `n`.

  /** Of all the steps after `b`, up to `n`, none is the beginning of another call of `c`. */
  ghost predicate OneCall(steps: seq<Step>, b: nat, n: nat, c: nat, s: string) {
    && b <= n < |steps| && steps[b] == Begin(c, s) && !steps[n].Register? && steps[n].caller == c
    && forall l :: b < l <= n ==> !(steps[l].Begin? && steps[l].caller == c)
  }

  lemma {:induction false} UnderWay(states: seq<State>, steps: seq<Step>, b: nat, n: nat, c: nat, s: string)
    requires IsRun(states, steps) && b < n <= |steps| && steps[b] == Begin(c, s)
    requires forall l :: b < l < n ==> !(steps[l].Begin? && steps[l].caller == c)
    ensures var phase := PhaseOf(states[n], c);
      !phase.Idle? && phase.subject == s && (phase.Answered? || s !in states[b].exact)
  {
    assert Next(states[n - 1], steps[n - 1], states[n - 1 + 1]);
    if b < n - 1 {
      UnderWay(states, steps, b, n - 1, c, s);
    }
  }

  /** The answer is the best route at some instant of the call. */
  ghost predicate BestSomewhere(states: seq<State>, b: nat, n: nat, s: string, answer: Option<Route>)
    requires n < |states|
  {
    exists k :: b <= k <= n && IsBest(SetOf(states[k].exact, states[k].wild), s, answer)
  }

  /** The route was registered only after the subject was, as a literal, during the call. */
  ghost predicate Latecomer(states: seq<State>, b: nat, n: nat, s: string, answer: Option<Route>)
    requires n < |states|
  {
    answer.Some? && forall k :: b <= k <= n && answer.value in states[k].wild ==> s in states[k].exact
  }

  /** What a caller that did not find its subject in the exact map is answered. */
  lemma {:induction false} AnswerFound(states: seq<State>, steps: seq<Step>, b: nat, n: nat, c: nat, s: string)
    requires IsRun(states, steps) && OneCall(steps, b, n, c, s) && b < n && Answers(steps[n], states[n + 1])
    ensures s !in states[b].exact && PhaseOf(states[n + 1], c).subject == s
    ensures FoundBy(states, n, s, PhaseOf(states[n + 1], c).answer)
  {
    UnderWay(states, steps, b, n, c, s);
    AlwaysSourced(states, steps, n);
    assert Next(states[n], steps[n], states[n + 1]);
  }

  lemma {:induction false} WildBestAt(states: seq<State>, steps: seq<Step>, k: nat, s: string, answer: Option<Route>)
    requires IsRun(states, steps) && k <= |steps| && (answer.Some? ==> IsWildcard(answer.value.pattern))
    ensures IsBest(SetOf(states[k].exact, states[k].wild), s, answer) <==>
            s !in states[k].exact && answer == FirstMatch(states[k].wild, s)
  {
    RunTablesValid(states, steps, k);
    WildIsBestIff(states[k].exact, states[k].wild, s, answer);
  }

  lemma {:induction false} FoundIsWild(states: seq<State>, steps: seq<Step>, j: nat, s: string)
    requires IsRun(states, steps) && j <= |steps|
    ensures var found := FirstMatch(states[j].wild, s);
      found.Some? ==>
        found.value in states[j].wild && IsWildcard(found.value.pattern) && Matches(found.value.pattern, s)
  {
    RunTablesValid(states, steps, j);
    FirstMatchIsBest(states[j].wild, s);
  }

  lemma {:induction false} BestNeedsBoth(states: seq<State>, steps: seq<Step>, b: nat, k: nat, n: nat, s: string)
    requires IsRun(states, steps) && b <= k <= n <= |steps| && s !in states[k].exact
    ensures var answer := FirstMatch(states[k].wild, s);
      !Outdated(states[b].wild, s, answer) && !Latecomer(states, b, n, s, answer)
  {
    TablesGrow(states, steps, b, k);
    RunTablesValid(states, steps, k);
    FoundIsNotOutdated(states[k].wild, s);
    FoundIsWild(states, steps, k, s);
  }

  /** Where the answer is neither outdated at the beginning nor a latecomer, an instant is found. */
  lemma {:induction false} BothGiveInstant(states: seq<State>, steps: seq<Step>, b: nat, n: nat, s: string,
                                           j: nat) returns (k: nat)
    requires IsRun(states, steps) && b <= n <= |steps| && j <= n && s !in states[b].exact
    requires !Outdated(states[b].wild, s, FirstMatch(states[j].wild, s))
    requires !Latecomer(states, b, n, s, FirstMatch(states[j].wild, s))
    ensures b <= k <= n && s !in states[k].exact && FirstMatch(states[k].wild, s) == FirstMatch(states[j].wild, s)
  {
    var answer := FirstMatch(states[j].wild, s);
    FoundIsWild(states, steps, j, s);
    RunTablesValid(states, steps, b);
    if answer.None? || answer.value in states[b].wild {
      FoundIfNotOutdated(states[b].wild, s, answer);
      k := b;
    } else {
      var i :| b <= i <= n && answer.value in states[i].wild && s !in states[i].exact;
      k := EarlierOf(states, steps, b, i, j, s);
    }
  }

  lemma {:induction false} EarlierOf(states: seq<State>, steps: seq<Step>, b: nat, i: nat, j: nat,
                                     s: string) returns (k: nat)
    requires IsRun(states, steps) && b <= i <= |steps| && j <= |steps| && s !in states[i].exact
    requires FirstMatch(states[j].wild, s).Some?
    requires FirstMatch(states[j].wild, s).value in states[i].wild
    requires FirstMatch(states[j].wild, s).value in states[j].wild
    requires FirstMatch(states[j].wild, s).value !in states[b].wild
    ensures b <= k <= i && s !in states[k].exact && FirstMatch(states[k].wild, s) == FirstMatch(states[j].wild, s)
  {
    if j <= b {
      TablesGrow(states, steps, j, b);
      assert false;
    } else if j <= i {
      TablesGrow(states, steps, j, i);
      k := j;
    } else {
      TablesGrow(states, steps, i, j);
      RunTablesValid(states, steps, i);
      RunTablesValid(states, steps, j);
      FoundAmongFewer(states[i].wild, states[j].wild, s);
      k := i;
    }
  }

  /** Over every interleaving: the answer of a `Resolve` is the best route at some instant of the call, exactly
      unless a wildcard preferred to it was registered when the call began, so that the memo was stale, or it was
      itself registered only after the subject was as a literal, during the call. */
  lemma {:induction false} ResolveIsAtomicIff(states: seq<State>, steps: seq<Step>, b: nat, n: nat, c: nat, s: string)
    requires IsRun(states, steps) && OneCall(steps, b, n, c, s) && Answers(steps[n], states[n + 1])
    ensures var answer := PhaseOf(states[n + 1], c).answer;
      BestSomewhere(states, b, n, s, answer) <==>
      n == b || !(Outdated(states[b].wild, s, answer) || Latecomer(states, b, n, s, answer))
  {
    var answer := PhaseOf(states[n + 1], c).answer;
    assert Next(states[n], steps[n], states[n + 1]);
    if n == b {
      RunTablesValid(states, steps, n);
      FirstLookIsBest(states[n], steps[n], states[n + 1]);
      assert IsBest(SetOf(states[n].exact, states[n].wild), s, answer);
    } else {
      AnswerFound(states, steps, b, n, c, s);
      LateAnswerIff(states, steps, b, n, s, answer);
    }
  }

  lemma {:induction false} LateAnswerIff(states: seq<State>, steps: seq<Step>, b: nat, n: nat, s: string,
                                         answer: Option<Route>)
    requires IsRun(states, steps) && b <= n <= |steps| && s !in states[b].exact && FoundBy(states, n, s, answer)
    ensures BestSomewhere(states, b, n, s, answer) <==>
      !(Outdated(states[b].wild, s, answer) || Latecomer(states, b, n, s, answer))
  {
    var j :| 0 <= j <= n && answer == FirstMatch(states[j].wild, s);
    FoundIsWild(states, steps, j, s);
    if k :| b <= k <= n && IsBest(SetOf(states[k].exact, states[k].wild), s, answer) {
      WildBestAt(states, steps, k, s, answer);
      BestNeedsBoth(states, steps, b, k, n, s);
    }
    if !Outdated(states[b].wild, s, answer) && !Latecomer(states, b, n, s, answer) {
      var k := BothGiveInstant(states, steps, b, n, s, j);
      WildBestAt(states, steps, k, s, answer);
    }
  }

  // ---------------------------------------------------------------- the two races

  /** One caller, nothing registered as a literal. */
  function Racing(wild: seq<Route>, cache: map<string, Option<Route>>, phase: Phase): State {
    State(map[], wild, cache, map[0 := phase])
  }

  /** The race is real. With `other` registered and not matching, the subject is searched and
      found unrouted; `late` is registered and does match; the stale "no route" is stored; and
      the next `Resolve` serves it. */
  lemma {:induction false} StaleAnswer(other: Route, late: Route, s: string) returns (states: seq<State>,
                                       steps: seq<Step>)
    requires forall r :: r in {other, late} ==> IsWildcard(r.pattern) && ValidPattern(r.pattern)
    requires !Matches(other.pattern, s) && Matches(late.pattern, s) && Beats(other.pattern, late.pattern)
    ensures IsRun(states, steps)
    ensures
      var last := states[|steps|];
      && PhaseOf(last, 0) == Answered(s, None)
      && !IsBest(SetOf(last.exact, last.wild), s, None)
  {
    assert other in {other, late} && late in {other, late};
    BeatsIsTotal(other.pattern, late.pattern);
    states, steps := SearchedInVain(other, s);
    LateRegistration(other, late, s);
    states, steps := Extend(states, steps, Register(late), Racing([other, late], map[], Computed(s, None)));
    states, steps := StoredAndServed(states, steps, [other, late], s);
    assert late in SetOf(map[], [other, late]);
  }

  lemma {:induction false} SearchedInVain(other: Route, s: string) returns (states: seq<State>, steps: seq<Step>)
    requires IsWildcard(other.pattern) && ValidPattern(other.pattern) && !Matches(other.pattern, s)
    ensures IsRun(states, steps) && states[|steps|] == Racing([other], map[], Computed(s, None))
  {
    states, steps := [State(map[], [], map[], map[])], [];
    states, steps := Extend(states, steps, Register(other), State(map[], [other], map[], map[]));
    states, steps := Extend(states, steps, Begin(0, s), Racing([other], map[], Looking(s)));
    states, steps := Extend(states, steps, ReadCache(0), Racing([other], map[], Missed(s)));
    assert FirstMatch([other], s) == None;
    states, steps := Extend(states, steps, Search(0), Racing([other], map[], Computed(s, None)));
  }

  lemma {:induction false} LateRegistration(other: Route, late: Route, s: string)
    requires IsWildcard(late.pattern) && ValidPattern(late.pattern)
    requires other.pattern != late.pattern && Beats(other.pattern, late.pattern)
    ensures Registers(Racing([other], map[], Computed(s, None)), Racing([other, late], map[], Computed(s, None)), late)
  {
  }

  lemma {:induction false} StoredAndServed(states: seq<State>, steps: seq<Step>, wild: seq<Route>, s: string)
    returns (states': seq<State>, steps': seq<Step>)
    requires IsRun(states, steps) && wild != [] && states[|steps|] == Racing(wild, map[], Computed(s, None))
    ensures IsRun(states', steps') && states'[|steps'|] == Racing(wild, map[s := None], Answered(s, None))
  {
    states', steps' := Extend(states, steps, Store(0), Racing(wild, map[s := None], Answered(s, None)));
    states', steps' := Extend(states', steps', Begin(0, s), Racing(wild, map[s := None], Looking(s)));
    states', steps' := Extend(states', steps', ReadCache(0), Racing(wild, map[s := None], Answered(s, None)));
  }

  lemma {:induction false} Extend(states: seq<State>, steps: seq<Step>, step: Step, st: State)
    returns (states': seq<State>, steps': seq<Step>)
    requires IsRun(states, steps) && Next(states[|steps|], step, st)
    ensures IsRun(states', steps') && states'[|steps'|] == st
  {
    states', steps' := states + [st], steps + [step];
  }

  /** One caller and one literal. */
  function RacingWith(literal: Route, wild: seq<Route>, cache: map<string, Option<Route>>, phase: Phase): State {
    State(map[literal.pattern := literal], wild, cache, map[0 := phase])
  }

  /** The second race. A caller has looked in the exact map; its subject is then registered as a literal,
      and after that a wildcard matching it. No `Add` overtakes a search, the memo stays right throughout,
      and the caller is given a route that was the best one in no state of the run. */
  lemma {:induction false} MissedLiteral(other: Route, literal: Route, late: Route)
    returns (states: seq<State>, steps: seq<Step>)
    requires forall r :: r in {other, late} ==> IsWildcard(r.pattern) && ValidPattern(r.pattern)
    requires !IsWildcard(literal.pattern) && ValidPattern(literal.pattern)
    requires !Matches(other.pattern, literal.pattern) && Matches(late.pattern, literal.pattern)
    requires Beats(other.pattern, late.pattern)
    ensures NeverBestRun(states, steps, literal.pattern, late)
    ensures PhaseOf(states[|steps|], 0) == Answered(literal.pattern, Some(late))
  {
    var s := literal.pattern;
    assert other in {other, late} && late in {other, late};
    BeatsIsTotal(other.pattern, late.pattern);
    NeverBest(other, literal, late);
    var s1 := State(map[], [other], map[], map[]);
    var s2 := Racing([other], map[], Looking(s));
    var s3 := RacingWith(literal, [other], map[], Looking(s));
    var s4 := RacingWith(literal, [other, late], map[], Looking(s));
    MissedLiteralSteps(other, literal, late, State(map[], [], map[], map[]), s1, s2, s3, s4);
    states, steps := [State(map[], [], map[], map[])], [];
    states, steps := ExtendNeverBest(states, steps, Register(other), s1, s, late);
    states, steps := ExtendNeverBest(states, steps, Begin(0, s), s2, s, late);
    states, steps := ExtendNeverBest(states, steps, Register(literal), s3, s, late);
    states, steps := ExtendNeverBest(states, steps, Register(late), s4, s, late);
    states, steps := GivenLate(other, literal, late, states, steps);
  }

  /** No `Add` overtakes a search, and `late` is never the best route for `s`. */
  ghost predicate NeverBestRun(states: seq<State>, steps: seq<Step>, s: string, late: Route) {
    && IsRun(states, steps) && (forall i :: 0 <= i < |steps| ==> HarmlessAt(states, steps, i))
    && forall n :: 0 <= n < |states| ==> !IsBest(SetOf(states[n].exact, states[n].wild), s, Some(late))
  }

  lemma {:induction false} ExtendNeverBest(states: seq<State>, steps: seq<Step>, step: Step, st: State, s: string,
                                           late: Route)
    returns (states': seq<State>, steps': seq<Step>)
    requires NeverBestRun(states, steps, s, late) && Next(states[|steps|], step, st)
    requires step.Register? ==> Harmless(states[|steps|], step.route)
    requires !IsBest(SetOf(st.exact, st.wild), s, Some(late))
    ensures NeverBestRun(states', steps', s, late) && states'[|steps'|] == st
  {
    states', steps' := states + [st], steps + [step];
    assert forall i :: 0 <= i < |steps| ==> HarmlessAt(states, steps, i);
    forall i | 0 <= i < |steps'|
      ensures HarmlessAt(states', steps', i)
    {
      assert i < |steps| ==> HarmlessAt(states, steps, i);
    }
  }

  lemma {:induction false} FirstOfTwo(other: Route, late: Route, s: string)
    requires !Matches(other.pattern, s) && Matches(late.pattern, s)
    ensures FirstMatch([other, late], s) == Some(late)
  {
    assert [other, late][1..] == [late];
  }

  /** The caller goes on to read the memo, search and store. */
  lemma {:induction false} GivenLate(other: Route, literal: Route, late: Route, states: seq<State>, steps: seq<Step>)
    returns (states': seq<State>, steps': seq<Step>)
    requires NeverBestRun(states, steps, literal.pattern, late)
    requires states[|steps|] == RacingWith(literal, [other, late], map[], Looking(literal.pattern))
    requires !Matches(other.pattern, literal.pattern) && Matches(late.pattern, literal.pattern)
    ensures NeverBestRun(states', steps', literal.pattern, late)
    ensures PhaseOf(states'[|steps'|], 0) == Answered(literal.pattern, Some(late))
  {
    var s, wild := literal.pattern, [other, late];
    FirstOfTwo(other, late, s);
    states', steps' := ExtendNeverBest(states, steps, ReadCache(0), RacingWith(literal, wild, map[], Missed(s)), s,
                                       late);
    states', steps' := ExtendNeverBest(states', steps', Search(0),
                                       RacingWith(literal, wild, map[], Computed(s, Some(late))), s, late);
    states', steps' := ExtendNeverBest(states', steps', Store(0),
                                       RacingWith(literal, wild, map[s := Some(late)],
                                                  Answered(s, Some(late))), s, late);
  }

  lemma {:induction false} MissedLiteralSteps(other: Route, literal: Route, late: Route, s0: State, s1: State,
                                              s2: State, s3: State,
                                              s4: State)
    requires forall r :: r in {other, late} ==> IsWildcard(r.pattern) && ValidPattern(r.pattern)
    requires !IsWildcard(literal.pattern) && ValidPattern(literal.pattern)
    requires other.pattern != late.pattern && Beats(other.pattern, late.pattern)
    requires s0 == State(map[], [], map[], map[]) && s1 == State(map[], [other], map[], map[])
    requires s2 == Racing([other], map[], Looking(literal.pattern))
    requires s3 == RacingWith(literal, [other], map[], Looking(literal.pattern))
    requires s4 == RacingWith(literal, [other, late], map[], Looking(literal.pattern))
    ensures Next(s0, Register(other), s1) && Next(s1, Begin(0, literal.pattern), s2)
    ensures Next(s2, Register(literal), s3) && Next(s3, Register(late), s4)
  {
    assert other in {other, late} && late in {other, late};
    assert IsWildcard(other.pattern) && IsWildcard(late.pattern);
  }

  lemma {:induction false} NeverBest(other: Route, literal: Route, late: Route)
    requires IsWildcard(other.pattern) && IsWildcard(late.pattern) && !IsWildcard(literal.pattern)
    requires other.pattern != late.pattern
    ensures !IsBest(SetOf(map[], []), literal.pattern, Some(late))
    ensures !IsBest(SetOf(map[], [other]), literal.pattern, Some(late))
    ensures !IsBest(SetOf(map[literal.pattern := literal], [other]), literal.pattern, Some(late))
    ensures !IsBest(SetOf(map[literal.pattern := literal], [other, late]), literal.pattern, Some(late))
  {
    LiteralMatches(literal.pattern, literal.pattern);
    var exact := map[literal.pattern := literal];
    assert exact[literal.pattern] == literal;
    assert literal in SetOf(exact, [other, late]);
    BeatsIsTotal(late.pattern, literal.pattern);
    assert Beats(literal.pattern, late.pattern);
  }

  /** Patterns the races happen with. */
  lemma {:induction false} RacingPatterns()
    ensures IsWildcard("o*") && ValidPattern("o*") && IsWildcard("u*") && ValidPattern("u*")
    ensures !IsWildcard("u1") && ValidPattern("u1")
    ensures Beats("o*", "u*")
    ensures !Matches("o*", "u1") && Matches("u*", "u1")
  {
    assert IsWildcardChar("o*"[1]) && IsWildcardChar("u*"[1]);
    RacingSpecificity();
    RacingMatches();
  }

  lemma {:induction false} RacingMatches()
    ensures !Matches("o*", "u1") && Matches("u*", "u1")
  {
    assert IsCut("u*", "u1", [0, 1, 2]);
    CutMatches("u*", "u1", [0, 1, 2]);
  }

  lemma {:induction false} RacingSpecificity()
    ensures Beats("o*", "u*")
  {
    assert Wildcards("o*") == 1 by {
      assert "o*"[..1] == "o" && IsWildcardChar("o*"[1]);
      NoWildcards("o");
    }
    assert Wildcards("u*") == 1 by {
      assert "u*"[..1] == "u" && IsWildcardChar("u*"[1]);
      NoWildcards("u");
    }
    assert TextLess("o*", "u*");
  }

  lemma {:induction false} NoWildcards(p: string)
    requires forall i :: 0 <= i < |p| ==> !IsWildcardChar(p[i])
    ensures Wildcards(p) == 0
  {
    if p != "" {
      NoWildcards(p[..|p| - 1]);
    }
  }
}
