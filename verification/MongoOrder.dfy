/** Version order across processes: `Pending` takes an unfinished claim for an applied version. */
module MongoOrder {
  import opened MigrationLists
  import opened MongoMigrations

  /** No version is claimed while an earlier one is unfinished. */
  ghost predicate InOrder(records: map<int, bool>, migs: seq<int>) {
    forall u, v :: u in migs && v in records && u < v ==> u in records && records[u]
  }

  /** A step of processes that have all registered the same migrations. */
  ghost predicate IsStepOf(migs: seq<int>, s: State, s': State) {
    exists step :: Enabled(s, step) && (step.Start? ==> step.migs == migs) && s' == Next(s, step)
  }

  ghost predicate IsRunOf(migs: seq<int>, run: seq<State>) {
    && |run| > 0 && run[0] == Initial
    && forall i :: 0 <= i < |run| - 1 ==> IsStepOf(migs, run[i], run[i + 1])
  }

  lemma {:induction false} RunOfKeeps(migs: seq<int>, run: seq<State>, i: nat)
    requires IsRunOf(migs, run) && i < |run|
    ensures Inv(run[i])
  {
    forall k | 0 <= k < |run| - 1 ensures IsStep(run[k], run[k + 1]) {
      assert IsStepOf(migs, run[k], run[k + 1]);
    }
    RunKeeps(run, i);
  }

  // ---------------------------------------------------------------- a process and its plan

  /** A process under way has recorded all of its plan before the version it is at. */
  ghost predicate OnPlan(s: State, migs: seq<int>, r: nat) {
    var p := PhaseOf(s, r);
    !p.Idle? ==>
      && r in s.plans && Ascending(s.plans[r]) && |p.todo| <= |s.plans[r]|
      && s.plans[r][|s.plans[r]| - |p.todo|..] == p.todo
      && forall k :: 0 <= k < |s.plans[r]| - |p.todo| ==> IsRecorded(s, s.plans[r][k])
  }

  lemma {:induction false} StartOnPlan(s: State, migs: seq<int>, r: nat, max: int)
    requires PhaseOf(s, r).Idle? && Ascending(migs)
    ensures OnPlan(Next(s, Start(r, migs, max)), migs, r)
  {
    PendingIs(migs, s.records.Keys, max);
  }

  lemma {:induction false} CompleteOnPlan(s: State, migs: seq<int>, r: nat, reply: Reply)
    requires Inv(s) && OnPlan(s, migs, r) && Enabled(s, Complete(r, reply))
    ensures OnPlan(Next(s, Complete(r, reply)), migs, r)
  {
    var s' := Next(s, Complete(r, reply));
    var plan, todo := s.plans[r], PhaseOf(s, r).todo;
    BodyDoneIsClaimed(s, r);
    if reply.Acked? {
      var n := |plan| - |todo|;
      assert plan[n] == plan[n..][0] == todo[0];
      assert plan[n + 1..] == plan[n..][1..] == todo[1..];
      forall k | 0 <= k < n ensures IsRecorded(s', plan[k]) {
        RecordedStays(s, Complete(r, reply), plan[k]);
      }
    }
  }

  /** Any other step leaves a process where it is on its plan, or ends its run. */
  lemma {:induction false} OtherOnPlan(s: State, migs: seq<int>, step: Step, q: nat)
    requires Inv(s) && OnPlan(s, migs, q) && Enabled(s, step)
    requires q == step.r ==> !step.Start? && !step.Complete?
    ensures OnPlan(Next(s, step), migs, q)
  {
    var s' := Next(s, step);
    if !PhaseOf(s', q).Idle? {
      SamePlace(s, step, q);
      forall k | 0 <= k < |s.plans[q]| - |PhaseOf(s, q).todo| ensures IsRecorded(s', s.plans[q][k]) {
        RecordedStays(s, step, s.plans[q][k]);
      }
    }
  }

  lemma {:induction false} SamePlace(s: State, step: Step, q: nat)
    requires Enabled(s, step) && !PhaseOf(Next(s, step), q).Idle?
    requires q == step.r ==> !step.Start? && !step.Complete?
    ensures !PhaseOf(s, q).Idle? && PhaseOf(Next(s, step), q).todo == PhaseOf(s, q).todo
    ensures q in s.plans ==> q in Next(s, step).plans && Next(s, step).plans[q] == s.plans[q]
  {
  }

  lemma {:induction false} AlwaysOnPlan(migs: seq<int>, run: seq<State>, i: nat, r: nat)
    requires IsRunOf(migs, run) && i < |run| && Ascending(migs)
    ensures OnPlan(run[i], migs, r)
  {
    if i > 0 {
      AlwaysOnPlan(migs, run, i - 1, r);
      RunOfKeeps(migs, run, i - 1);
      assert IsStepOf(migs, run[i - 1], run[i - 1 + 1]);
      var s := run[i - 1];
      var step :| Enabled(s, step) && (step.Start? ==> step.migs == migs) && run[i] == Next(s, step);
      if step.r == r && step.Start? {
        StartOnPlan(s, migs, r, step.max);
      } else if step.r == r && step.Complete? {
        CompleteOnPlan(s, migs, r, step.reply);
      } else {
        OtherOnPlan(s, migs, step, r);
      }
    }
  }

  // ---------------------------------------------------------------- when order holds

  /** The step from `s` to `s'` is a claim by `r` that lands. */
  ghost predicate Claims(s: State, s': State, r: nat) {
    exists reply :: Enabled(s, Claim(r, reply)) && s' == Next(s, Claim(r, reply)) &&
        PhaseOf(s, r).todo[0] in s'.records && PhaseOf(s, r).todo[0] !in s.records
  }

  /** Every registered version below `v` that the plan of `r` left out is recorded. */
  ghost predicate Covered(s: State, migs: seq<int>, r: nat, v: int) {
    r in s.plans && forall u :: u in migs && u < v && u !in s.plans[r] ==> IsRecorded(s, u)
  }

  ghost predicate CoveredClaim(s: State, s': State, migs: seq<int>, r: nat) {
    Claims(s, s', r) ==> Covered(s, migs, r, PhaseOf(s, r).todo[0])
  }

  /** What is in the plan below the version being claimed, the claimer has recorded itself. */
  lemma {:induction false} PlanBelowIsRecorded(s: State, migs: seq<int>, r: nat, u: int)
    requires OnPlan(s, migs, r) && !PhaseOf(s, r).Idle? && PhaseOf(s, r).todo != []
    requires u in s.plans[r] && u < PhaseOf(s, r).todo[0]
    ensures IsRecorded(s, u)
  {
    var plan, todo := s.plans[r], PhaseOf(s, r).todo;
    var k :| 0 <= k < |plan| && plan[k] == u;
    var n := |plan| - |todo|;
    assert plan[n] == plan[n..][0] == todo[0];
  }

  /** A claim that lands in an ordered collection keeps it ordered exactly when it is covered. */
  lemma {:induction false} ClaimKeepsOrderIff(s: State, s': State, migs: seq<int>, r: nat)
    requires InOrder(s.records, migs) && OnPlan(s, migs, r) && Claims(s, s', r)
    ensures InOrder(s'.records, migs) <==> Covered(s, migs, r, PhaseOf(s, r).todo[0])
  {
    var v := PhaseOf(s, r).todo[0];
    assert s'.records == s.records[v := false];
    if Covered(s, migs, r, v) {
      forall u | u in migs && u < v ensures IsRecorded(s, u) {
        if u in s.plans[r] {
          PlanBelowIsRecorded(s, migs, r, u);
        }
      }
      forall u, w | u in migs && w in s'.records && u < w ensures u in s'.records && s'.records[u] {
        if w == v {
          assert IsRecorded(s, u);
        } else {
          assert u in s.records && s.records[u];
        }
      }
    }
    if InOrder(s'.records, migs) {
      forall u | u in migs && u < v && u !in s.plans[r] ensures IsRecorded(s, u) {
        assert v in s'.records && s'.records[u];
      }
    }
  }

  /** Every other step keeps the order: it adds no claim, and only an unfinished one is ever released. */
  lemma {:induction false} OtherKeepsOrder(s: State, step: Step, migs: seq<int>)
    requires Inv(s) && Enabled(s, step) && InOrder(s.records, migs)
    requires forall v :: v in Next(s, step).records ==> v in s.records
    ensures InOrder(Next(s, step).records, migs)
  {
    var s' := Next(s, step);
    forall u, v | u in migs && v in s'.records && u < v ensures u in s'.records && s'.records[u] {
      assert v in s.records && IsRecorded(s, u);
      RecordedStays(s, step, u);
      assert IsRecorded(s', u);
    }
  }

  lemma {:induction false} StepOrder(s: State, step: Step, migs: seq<int>)
    requires Inv(s) && Enabled(s, step) && InOrder(s.records, migs) && OnPlan(s, migs, step.r)
    requires CoveredClaim(s, Next(s, step), migs, step.r)
    ensures InOrder(Next(s, step).records, migs)
  {
    var s' := Next(s, step);
    if step.Claim? && PhaseOf(s, step.r).todo[0] !in s.records && !step.reply.Refused? {
      assert Claims(s, s', step.r);
      ClaimKeepsOrderIff(s, s', migs, step.r);
    } else {
      AddsNoRecord(s, step);
      OtherKeepsOrder(s, step, migs);
    }
  }

  lemma {:induction false} AddsNoRecord(s: State, step: Step)
    requires Enabled(s, step)
    requires !(step.Claim? && PhaseOf(s, step.r).todo[0] !in s.records && !step.reply.Refused?)
    ensures forall v :: v in Next(s, step).records ==> v in s.records
  {
  }

  ghost predicate CoveredAt(migs: seq<int>, run: seq<State>, k: nat, r: nat)
    requires k < |run| - 1
  {
    CoveredClaim(run[k], run[k + 1], migs, r)
  }

  /** Every claim of the run that lands is covered. */
  ghost predicate AlwaysCovered(migs: seq<int>, run: seq<State>) {
    forall k: nat, r: nat :: k < |run| - 1 ==> CoveredAt(migs, run, k, r)
  }

  lemma {:induction false} CoveredKeepsOrder(migs: seq<int>, run: seq<State>, i: nat)
    requires IsRunOf(migs, run) && i < |run| && Ascending(migs)
    requires AlwaysCovered(migs, run)
    ensures InOrder(run[i].records, migs)
  {
    if i > 0 {
      CoveredKeepsOrder(migs, run, i - 1);
      RunOfKeeps(migs, run, i - 1);
      assert IsStepOf(migs, run[i - 1], run[i - 1 + 1]);
      var s := run[i - 1];
      var step :| Enabled(s, step) && (step.Start? ==> step.migs == migs) && run[i] == Next(s, step);
      AlwaysOnPlan(migs, run, i - 1, step.r);
      assert CoveredAt(migs, run, i - 1, step.r);
      StepOrder(s, step, migs);
    }
  }

  /** Over every run of processes with the same migrations, whatever crashes, is lost or released: versions
      are claimed in order throughout exactly when, at every claim that lands, each registered version
      below it that the claimer's plan left out is recorded. */
  lemma {:induction false} InOrderThroughoutIff(migs: seq<int>, run: seq<State>)
    requires IsRunOf(migs, run) && Ascending(migs)
    ensures (forall i :: 0 <= i < |run| ==> InOrder(run[i].records, migs)) <==>
            AlwaysCovered(migs, run)
  {
    if AlwaysCovered(migs, run) {
      forall i | 0 <= i < |run| ensures InOrder(run[i].records, migs) {
        CoveredKeepsOrder(migs, run, i);
      }
    }
    if forall i :: 0 <= i < |run| ==> InOrder(run[i].records, migs) {
      forall k: nat, r: nat | k < |run| - 1 ensures CoveredAt(migs, run, k, r) {
        if Claims(run[k], run[k + 1], r) {
          AlwaysOnPlan(migs, run, k, r);
          assert InOrder(run[k].records, migs) && InOrder(run[k + 1].records, migs);
          ClaimKeepsOrderIff(run[k], run[k + 1], migs, r);
        }
      }
    }
  }

  // ---------------------------------------------------------------- two runs out of order

  lemma {:induction false} RunOn(migs: seq<int>, run: seq<State>, step: Step) returns (run': seq<State>)
    requires IsRunOf(migs, run) && Enabled(Last(run), step) && (step.Start? ==> step.migs == migs)
    ensures IsRunOf(migs, run') && run' == run + [Next(Last(run), step)]
  {
    run' := run + [Next(Last(run), step)];
    assert IsStepOf(migs, Last(run), Next(Last(run), step));
  }

  /** An idle process reads what is pending. */
  lemma {:induction false} Starts(migs: seq<int>, run: seq<State>, r: nat, seen: set<int>,
                                  todo: seq<int>) returns (run': seq<State>)
    requires IsRunOf(migs, run) && PhaseOf(Last(run), r).Idle?
    requires seen == Last(run).records.Keys && todo == Unseen(migs, |migs|, seen)
    ensures IsRunOf(migs, run') && Last(run').records == Last(run).records
    ensures Last(run').runners == Last(run).runners[r := Ready(todo)]
  {
    run' := RunOn(migs, run, Start(r, migs, 0));
  }

  lemma {:induction false} ClaimsNext(migs: seq<int>, run: seq<State>, r: nat) returns (run': seq<State>)
    requires IsRunOf(migs, run) && PhaseOf(Last(run), r).Ready? && PhaseOf(Last(run), r).todo != []
    requires PhaseOf(Last(run), r).todo[0] !in Last(run).records
    ensures IsRunOf(migs, run') && |run'| == |run| + 1 && run'[..|run|] == run
    ensures Last(run').records == Last(run).records[PhaseOf(Last(run), r).todo[0] := false]
    ensures Last(run').runners == Last(run).runners[r := Running(PhaseOf(Last(run), r).todo)]
  {
    run' := RunOn(migs, run, Claim(r, Acked));
  }

  lemma {:induction false} Records(migs: seq<int>, run: seq<State>, r: nat) returns (run': seq<State>)
    requires IsRunOf(migs, run) && PhaseOf(Last(run), r).Running? && PhaseOf(Last(run), r).todo != []
    requires PhaseOf(Last(run), r).todo[0] in Last(run).records
    ensures IsRunOf(migs, run') && Last(run').records == Last(run).records[PhaseOf(Last(run), r).todo[0] := true]
  {
    run' := RunOn(migs, run, BodyReturns(r));
    assert PhaseOf(Last(run'), r) == BodyDone(PhaseOf(Last(run), r).todo);
    run' := RunOn(migs, run', Complete(r, Acked));
  }

  lemma {:induction false} FailsAndReleases(migs: seq<int>, run: seq<State>, r: nat) returns (run': seq<State>)
    requires IsRunOf(migs, run) && PhaseOf(Last(run), r).Running? && PhaseOf(Last(run), r).todo != []
    requires PhaseOf(Last(run), r).todo[0] in Last(run).records
    ensures IsRunOf(migs, run') && Last(run').records == Last(run).records - {PhaseOf(Last(run), r).todo[0]}
    ensures Last(run').runners == Last(run).runners[r := Idle]
  {
    run' := RunOn(migs, run, BodyFails(r));
    assert PhaseOf(Last(run'), r) == BodyFailed(PhaseOf(Last(run), r).todo);
    run' := RunOn(migs, run', Release(r, Acked));
    assert Last(run).runners[r := BodyFailed(PhaseOf(Last(run), r).todo)][r := Idle] == Last(run).runners[r := Idle];
  }

  lemma {:induction false} UnseenOfTwo(migs: seq<int>)
    requires |migs| == 2 && migs[0] < migs[1]
    ensures Unseen(migs, 2, {}) == migs && Unseen(migs, 2, {migs[0]}) == [migs[1]]
  {
    assert Unseen(migs, 0, {}) == [] && Unseen(migs, 0, {migs[0]}) == [];
    assert Unseen(migs, 1, {}) == [migs[0]] && Unseen(migs, 1, {migs[0]}) == [];
  }

  lemma {:induction false} FirstClaimed(migs: seq<int>) returns (run: seq<State>)
    requires |migs| == 2 && migs[0] < migs[1]
    ensures IsRunOf(migs, run) && Last(run).records == map[migs[0] := false]
    ensures Last(run).runners == map[0 := Running(migs)]
  {
    UnseenOfTwo(migs);
    run := Starts(migs, [Initial], 0, {}, migs);
    run := ClaimsNext(migs, run, 0);
  }

  /** Process 0 claims the first version; process 1 starts and finds only the second pending. */
  lemma {:induction false} SecondOnly(migs: seq<int>) returns (run: seq<State>)
    requires |migs| == 2 && migs[0] < migs[1]
    ensures IsRunOf(migs, run) && Last(run).records == map[migs[0] := false]
    ensures Last(run).runners == map[0 := Running(migs), 1 := Ready([migs[1]])]
  {
    run := FirstClaimed(migs);
    UnseenOfTwo(migs);
    assert Last(run).records.Keys == {migs[0]};
    run := Starts(migs, run, 1, {migs[0]}, [migs[1]]);
  }

  /** Two processes and two versions: the second is recorded while the first is unfinished. */
  lemma {:induction false} OutOfOrder(migs: seq<int>) returns (run: seq<State>)
    requires |migs| == 2 && migs[0] < migs[1]
    ensures IsRunOf(migs, run) && IsRecorded(Last(run), migs[1]) && !InOrder(Last(run).records, migs)
  {
    run := SecondOnly(migs);
    run := ClaimsNext(migs, run, 1);
    run := Records(migs, run, 1);
    var records := Last(run).records;
    assert migs[0] in migs && migs[1] in records && !records[migs[0]];
  }

  /** The plan goes stale: the first version is released after process 1 has read its plan. Just before the
      second is claimed the collection is empty and in order, and the claim breaks the order. */
  lemma {:induction false} StalePlan(migs: seq<int>) returns (run: seq<State>)
    requires |migs| == 2 && migs[0] < migs[1]
    ensures IsRunOf(migs, run) && |run| >= 2 && run[|run| - 2].records == map[]
    ensures migs[1] in Last(run).records && !InOrder(Last(run).records, migs)
  {
    run := SecondOnly(migs);
    run := FailsAndReleases(migs, run, 0);
    assert Last(run).records == map[];
    var before := run;
    run := ClaimsNext(migs, run, 1);
    assert run[|run| - 2] == run[..|before|][|before| - 1] == Last(before);
    assert migs[0] in migs && migs[1] in Last(run).records && migs[0] !in Last(run).records;
  }
}
