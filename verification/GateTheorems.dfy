/** What every schedule of the gate guarantees, and exactly where the verdict
    depends on the schedule or on the phase deadline. */
module GateTheorems {
  import opened Wrappers
  import opened Outcomes
  import opened OwnerGate

  /** The sequential rule the gate stands for. */
  predicate AllGranted(job: Job) {
    forall i :: 0 <= i < |job.answers| ==> job.answers[i].Granted?
  }

  /** checkOwners for one schedule: wait for every goroutine, then reduce under
      the phase's own error. */
  function Verdict(cfg: Config, job: Job, run: seq<Action>): Outcome
    requires job.Valid() && Completes(job, run)
  {
    var end := End(job, run);
    RefusalsCarryOutcomes(job, end);
    Reduced(cfg, job.key, job.path, job.verb, PhaseError(end), end.results)
  }

  /** What the goroutines left behind when wg.Wait returned. */
  function End(job: Job, run: seq<Action>): (end: State)
    requires job.Valid() && Completes(job, run)
    ensures Inv(job, end) && AllFinished(end)
    ensures Expire !in run ==> !end.expired
  {
    RunInv(job, Init(job), run);
    BudgetKept(job, run);
    After(job, Init(job), run).value
  }

  lemma BudgetKept(job: Job, run: seq<Action>)
    requires After(job, Init(job), run).Some?
    ensures Expire !in run ==> !After(job, Init(job), run).value.expired
  {
    if Expire !in run {
      ExpiryNeedsExpire(job, Init(job), run);
    }
  }

  function PhaseError(s: State): Option<Error> {
    if s.expired then Some(DeadlineExceeded) else None
  }

  // ------------------------------------------------------------ along each run

  lemma {:induction false} RunInv(job: Job, s: State, run: seq<Action>)
    requires job.Valid()
    requires s == Init(job) || Inv(job, s)
    requires After(job, s, run).Some?
    ensures Inv(job, After(job, s, run).value)
    decreases |run|
  {
    if s == Init(job) {
      InitInv(job);
    }
    if run != [] {
      StepInv(job, s, run[0]);
      RunInv(job, Next(job, s, run[0]), run[1..]);
    }
  }

  lemma {:induction false} ExpiryNeedsExpire(job: Job, s: State, run: seq<Action>)
    requires After(job, s, run).Some? && Expire !in run
    ensures After(job, s, run).value.expired == s.expired
    decreases |run|
  {
    if run != [] {
      ExpiryNeedsExpire(job, Next(job, s, run[0]), run[1..]);
    }
  }

  lemma RefusalsCarryOutcomes(job: Job, s: State)
    requires Inv(job, s)
    ensures forall k :: 0 <= k < |s.results| && IsRefusal(s.results[k]) ==>
              s.results[k] == Written(job, k, job.answers[k]) && job.answers[k].Refused? && s.results[k].outcome.Some?
  {
    forall k | 0 <= k < |s.results| && IsRefusal(s.results[k])
      ensures s.results[k] == Written(job, k, job.answers[k]) && job.answers[k].Refused? && s.results[k].outcome.Some?
    {
      assert GoroutineOk(job, s, k);
    }
  }

  /** At most eight checks are in flight in every reachable state, and a finished
      gate has given every slot back. */
  lemma SlotsBounded(job: Job, run: seq<Action>)
    requires job.Valid() && After(job, Init(job), run).Some?
    ensures var s := After(job, Init(job), run).value;
            && |set i | 0 <= i < |s.stages| && Holds(s.stages[i]) == 1| <= 8
            && (AllFinished(s) ==> s.slots == 0)
  {
    RunInv(job, Init(job), run);
    var s := After(job, Init(job), run).value;
    HoldersCounts(s.stages);
    if AllFinished(s) {
      HoldersOfUniform(s.stages);
    }
  }

  lemma {:induction false} HoldersCounts(stages: seq<Stage>)
    ensures |set i | 0 <= i < |stages| && Holds(stages[i]) == 1| == Holders(stages)
  {
    var all := set i | 0 <= i < |stages| && Holds(stages[i]) == 1;
    if stages != [] {
      var n := |stages| - 1;
      HoldersCounts(stages[..n]);
      var front := set i | 0 <= i < |stages[..n]| && Holds(stages[..n][i]) == 1;
      if Holds(stages[n]) == 1 {
        assert all == front + {n};
      } else {
        assert all == front;
      }
    }
  }

  /** The first n goroutines take a slot each. */
  function Acquires(n: nat): seq<Action> {
    if n == 0 then [] else Acquires(n - 1) + [Acquire(n - 1)]
  }

  /** The width is used: eight checks can be in flight at once. */
  lemma {:induction false} EightAtOnce(job: Job, n: nat)
    requires job.Valid() && n <= 8 && n <= |job.claims|
    ensures var s := After(job, Init(job), Acquires(n));
            && s.Some? && s.value.slots == n && |s.value.stages| == |s.value.results| == |job.claims|
            && forall i :: 0 <= i < |job.claims| ==> s.value.stages[i] == if i < n then Slotted else Waiting
  {
    if n > 0 {
      EightAtOnce(job, n - 1);
      var s := After(job, Init(job), Acquires(n - 1)).value;
      AfterConcat(job, Init(job), Acquires(n - 1), [Acquire(n - 1)]);
      assert [Acquire(n - 1)][1..] == [];
      assert After(job, Next(job, s, Acquire(n - 1)), []) == Some(Next(job, s, Acquire(n - 1)));
    }
  }

  // ------------------------------------------------------ the shared variables

  /** checkOwners itself, on the variables its goroutines share, with the
      scheduler's choices as an input. Whatever the schedule, the array the
      goroutines write into ends up as the transition system says, and the
      reduction of it is the verdict the theorems below speak about. */
  method CheckOwners(cfg: Config, job: Job, run: seq<Action>) returns (out: Outcome)
    requires job.Valid() && Completes(job, run)
    ensures out == Verdict(cfg, job, run)
  {
    var n := |job.claims|;
    var results := new OwnerResult[n](i => BLANK);
    var stages := new Stage[n](i => Waiting);
    var slots, context, expired := 0, Open, false;
    assert stages[..] == Init(job).stages && results[..] == Init(job).results;
    for k := 0 to |run|
      invariant slots >= 0
      invariant After(job, Init(job), run[..k]) == Some(State(stages[..], results[..], slots, context, expired))
    {
      ghost var s := State(stages[..], results[..], slots, context, expired);
      PrefixRuns(job, Init(job), run, k);
      match run[k] {
        case Acquire(i) => slots, stages[i] := slots + 1, Slotted;
        case GiveUp(i) => stages[i] := Finished;
        case Attempt(i) => results[i], stages[i] := Started(job, i), Calling;
        case Reply(i) => results[i], stages[i] := Written(job, i, job.answers[i]), Replied;
        case ReplyStopped(i) => results[i], stages[i] := Written(job, i, Failed(StopError(context))), Replied;
        case Signal(i) =>
          stages[i] := Signalled;
          context := if context.Open? then StoppedBySibling else context;
        case Release(i) => slots, stages[i] := slots - 1, Finished;
        case Expire =>
          expired := true;
          context := if context.Open? then StoppedByDeadline else context;
      }
      assert State(stages[..], results[..], slots, context, expired) == Next(job, s, run[k]);
    }
    assert run[..|run|] == run;
    RefusalsCarryOutcomes(job, End(job, run));
    var phaseErr := if expired then Some(DeadlineExceeded) else None;
    out := ReduceOwnerResults(cfg, job.key, job.path, job.verb, phaseErr, results[..]);
  }

  lemma PrefixRuns(job: Job, s: State, run: seq<Action>, k: nat)
    requires After(job, s, run).Some? && k < |run|
    ensures After(job, s, run[..k]).Some?
    ensures var t := After(job, s, run[..k]).value;
            Enabled(job, t, run[k]) && After(job, s, run[..k + 1]) == Some(Next(job, t, run[k]))
    decreases k
  {
    if k == 0 {
      assert run[..1][1..] == [];
      assert After(job, Next(job, s, run[0]), []) == Some(Next(job, s, run[0]));
    } else {
      assert run[..k][1..] == run[1..][..k - 1];
      assert run[..k + 1][1..] == run[1..][..k];
      PrefixRuns(job, Next(job, s, run[0]), run[1..], k - 1);
    }
  }

  // -------------------------------------------------------------- termination

  function StageWeight(stage: Stage): nat {
    match stage
    case Waiting => 5
    case Slotted => 4
    case Calling => 3
    case Replied => 2
    case Signalled => 1
    case Finished => 0
  }

  function Weight(stages: seq<Stage>): nat {
    if stages == [] then 0 else Weight(stages[..|stages| - 1]) + StageWeight(stages[|stages| - 1])
  }

  /** Steps a state can still take at most. */
  function Remaining(s: State): nat {
    Weight(s.stages) + if s.expired then 0 else 1
  }

  lemma {:induction false} WeightUpdate(stages: seq<Stage>, i: nat, stage: Stage)
    requires i < |stages|
    ensures Weight(stages[i := stage]) == Weight(stages) - StageWeight(stages[i]) + StageWeight(stage)
  {
    var n := |stages| - 1;
    if i == n {
      assert stages[i := stage][..n] == stages[..n];
    } else {
      assert stages[i := stage][..n] == stages[..n][i := stage];
      WeightUpdate(stages[..n], i, stage);
    }
  }

  lemma StepUsesUp(job: Job, s: State, a: Action)
    requires Enabled(job, s, a)
    ensures Remaining(Next(job, s, a)) < Remaining(s)
  {
    if !a.Expire? {
      WeightUpdate(s.stages, a.i, Next(job, s, a).stages[a.i]);
    }
  }

  lemma {:induction false} InitWeight(stages: seq<Stage>)
    requires forall i :: 0 <= i < |stages| ==> stages[i] == Waiting
    ensures Weight(stages) == 5 * |stages|
  {
    if stages != [] {
      InitWeight(stages[..|stages| - 1]);
    }
  }

  lemma {:induction false} RunUsesUp(job: Job, s: State, run: seq<Action>)
    requires After(job, s, run).Some?
    ensures |run| + Remaining(After(job, s, run).value) <= Remaining(s)
    decreases |run|
  {
    if run != [] {
      StepUsesUp(job, s, run[0]);
      RunUsesUp(job, Next(job, s, run[0]), run[1..]);
    }
  }

  /** No schedule runs longer than five steps a goroutine and the deadline. */
  lemma RunsAreShort(job: Job, run: seq<Action>)
    requires After(job, Init(job), run).Some?
    ensures |run| <= 5 * |job.claims| + 1
  {
    RunUsesUp(job, Init(job), run);
    InitWeight(Init(job).stages);
  }

  /** The gate never deadlocks: until wg.Wait returns, some goroutine can move
      without waiting for the deadline. With RunsAreShort every run in which each
      call answers reaches wg.Wait. */
  lemma NoDeadlock(job: Job, run: seq<Action>) returns (a: Action)
    requires job.Valid() && After(job, Init(job), run).Some?
    requires !AllFinished(After(job, Init(job), run).value)
    ensures !a.Expire? && Enabled(job, After(job, Init(job), run).value, a)
  {
    RunInv(job, Init(job), run);
    var s := After(job, Init(job), run).value;
    if i :| 0 <= i < |s.stages| && Holds(s.stages[i]) == 1 {
      HoldersPositive(s.stages, i);
      assert GoroutineOk(job, s, i);
      a := match s.stages[i]
        case Slotted => Attempt(i)
        case Calling => Reply(i)
        case Replied => if s.results[i].problem then Signal(i) else Release(i)
        case Signalled => Release(i);
    } else {
      HoldersOfUniform(s.stages);
      var i :| 0 <= i < |s.stages| && s.stages[i] != Finished;
      a := Acquire(i);
    }
  }

  lemma {:induction false} HoldersPositive(stages: seq<Stage>, i: nat)
    requires i < |stages| && Holds(stages[i]) == 1
    ensures Holders(stages) > 0
  {
    if i < |stages| - 1 {
      HoldersPositive(stages[..|stages| - 1], i);
    }
  }

  // ------------------------------------------------------------ end of a run

  /** What a finished goroutine left behind, once the phase kept its budget. */
  lemma FinishedResult(job: Job, s: State, i: nat)
    requires Inv(job, s) && AllFinished(s) && i < |s.results|
    ensures s.results[i] == BLANK || WrittenOk(job, s, i)
    ensures s.results[i] == BLANK ==> s.context != Open
    ensures s.results[i].problem ==> s.context != Open
  {
    assert GoroutineOk(job, s, i);
  }

  /** Within the budget, the reduction sees a refusal or a live error exactly when
      not every owner granted. */
  lemma ProblemSurvives(job: Job, s: State)
    requires Inv(job, s) && AllFinished(s) && !s.expired
    ensures AllGranted(job) <==>
            forall i :: 0 <= i < |s.results| ==> !IsRefusal(s.results[i]) && !IsLiveError(None, s.results[i])
    ensures AllGranted(job) ==> forall i :: 0 <= i < |s.results| ==> s.results[i] == Written(job, i, job.answers[i])
  {
    if s.context == StoppedBySibling {
      var c :| 0 <= c < |s.results| && OwnProblem(job, s, c);
      assert IsRefusal(s.results[c]) || IsLiveError(None, s.results[c]);
    } else {
      forall i | 0 <= i < |s.results|
        ensures s.results[i] == Written(job, i, job.answers[i]) && job.answers[i].Granted?
      {
        FinishedResult(job, s, i);
      }
    }
  }

  /** With fail_open off and the budget kept, every schedule gives the verdict of
      the sequential rule: allow exactly when every owner's check grants. */
  lemma FailClosedIsConjunction(cfg: Config, job: Job, run: seq<Action>)
    requires job.Valid() && Completes(job, run) && Expire !in run && cfg.failOpen != Some(true)
    ensures Verdict(cfg, job, run).decision == Allow <==> AllGranted(job)
  {
    var end := End(job, run);
    RefusalsCarryOutcomes(job, end);
    ProblemSurvives(job, end);
  }

  /** Under either fail policy, an ordinary allow within the budget means every
      claim was attempted and granted, and each has its audit record. */
  lemma PlainAllowAskedEveryone(cfg: Config, job: Job, run: seq<Action>)
    requires job.Valid() && Completes(job, run) && Expire !in run
    ensures var v := Verdict(cfg, job, run);
            var end := End(job, run);
            v.decision == Allow && v.failMode.None? <==>
            forall i :: 0 <= i < |job.claims| ==> end.results[i].attempted && job.answers[i].Granted?
  {
    var end := End(job, run);
    RefusalsCarryOutcomes(job, end);
    ProblemSurvives(job, end);
    assert AllGranted(job) ==> forall i :: 0 <= i < |job.claims| ==> end.results[i] == Written(job, i, job.answers[i]);
  }

  /** The lowest index at which a result array has a refusal, or a live error. */
  predicate LowestRefusal(results: seq<OwnerResult>, d: nat) {
    d < |results| && IsRefusal(results[d]) && forall k :: 0 <= k < d ==> !IsRefusal(results[k])
  }

  predicate LowestLiveError(phaseErr: Option<Error>, results: seq<OwnerResult>, e: nat) {
    && e < |results| && IsLiveError(phaseErr, results[e])
    && (forall k :: 0 <= k < |results| ==> !IsRefusal(results[k]))
    && forall k :: 0 <= k < e ==> !IsLiveError(phaseErr, results[k])
  }

  /** The resource under which claim i is audited: its own, or the request's path. */
  predicate NamesResource(resource: string, job: Job, i: nat)
    requires i < |job.claims|
  {
    resource == if job.claims[i].dataResource != "" then job.claims[i].dataResource else job.path
  }

  /** Whatever the schedule, the outcome names the lowest refusal with that owner's
      own reason, failing that the lowest live error under the fail policy, and
      otherwise allows the request as a whole. */
  lemma VerdictNamesFirstProblem(cfg: Config, job: Job, run: seq<Action>)
    requires job.Valid() && Completes(job, run)
    ensures var end, v := End(job, run), Verdict(cfg, job, run);
            && v.requestId == job.key && v.verb == job.verb && v.checked == RecordsOf(end.results)
            && (forall d: nat :: LowestRefusal(end.results, d) ==>
                  && job.answers[d].Refused? && v.decision == Deny && v.failMode.None?
                  && v.subject == job.claims[d].owner && NamesResource(v.resource, job, d)
                  && v.reason == job.answers[d].reason)
            && (forall e: nat :: LowestLiveError(PhaseError(end), end.results, e) ==>
                  && v.failMode == Some(FailModeForError(end.results[e].err.value))
                  && v.decision == FailDecision(cfg, v.failMode.value)
                  && v.subject == job.claims[e].owner && v.resource == job.path && v.reason == "consent check error")
            && ((forall k :: 0 <= k < |end.results| ==>
                     !IsRefusal(end.results[k]) && !IsLiveError(PhaseError(end), end.results[k])) ==>
                  v.decision == Allow && v.failMode.None? && v.subject == "" && v.resource == job.path
                      && v.reason == "")
  {
    var end := End(job, run);
    forall d: nat | LowestRefusal(end.results, d)
      ensures job.answers[d].Refused? && RefusalNamed(job, d, Verdict(cfg, job, run))
    {
      LowestRefusalNamed(cfg, job, run, d);
    }
    forall e: nat | LowestLiveError(PhaseError(end), end.results, e)
      ensures LiveErrorNamed(cfg, job, e, end.results[e].err.value, Verdict(cfg, job, run))
    {
      LowestLiveErrorNamed(cfg, job, run, e);
    }
    RefusalsCarryOutcomes(job, end);
  }

  predicate RefusalNamed(job: Job, d: nat, v: Outcome)
    requires d < |job.claims| == |job.answers| && job.answers[d].Refused?
  {
    && v.decision == Deny && v.failMode.None? && v.requestId == job.key && v.verb == job.verb
    && v.subject == job.claims[d].owner && NamesResource(v.resource, job, d) && v.reason == job.answers[d].reason
  }

  predicate LiveErrorNamed(cfg: Config, job: Job, e: nat, err: Error, v: Outcome)
    requires e < |job.claims|
  {
    && v.failMode == Some(FailModeForError(err)) && v.decision == FailDecision(cfg, FailModeForError(err))
    && v.requestId == job.key && v.verb == job.verb
    && v.subject == job.claims[e].owner && v.resource == job.path && v.reason == "consent check error"
  }

  lemma LowestRefusalNamed(cfg: Config, job: Job, run: seq<Action>, d: nat)
    requires job.Valid() && Completes(job, run) && LowestRefusal(End(job, run).results, d)
    ensures job.answers[d].Refused? && RefusalNamed(job, d, Verdict(cfg, job, run))
  {
    RefusalsCarryOutcomes(job, End(job, run));
  }

  lemma LowestLiveErrorNamed(cfg: Config, job: Job, run: seq<Action>, e: nat)
    requires job.Valid() && Completes(job, run)
    requires LowestLiveError(PhaseError(End(job, run)), End(job, run).results, e)
    ensures LiveErrorNamed(cfg, job, e, End(job, run).results[e].err.value, Verdict(cfg, job, run))
  {
    var end := End(job, run);
    RefusalsCarryOutcomes(job, end);
    FinishedResult(job, end, e);
    assert end.results[e].request == Some(RequestFor(job, e));
  }

  /** An ordinary deny comes from an owner who refused, and names that owner. */
  lemma DenyNamesRefusal(cfg: Config, job: Job, run: seq<Action>) returns (d: nat)
    requires job.Valid() && Completes(job, run)
    requires Verdict(cfg, job, run).decision == Deny && Verdict(cfg, job, run).failMode.None?
    ensures d < |job.claims| && job.answers[d].Refused?
    ensures var v := Verdict(cfg, job, run);
            v.subject == job.claims[d].owner && NamesResource(v.resource, job, d) && v.reason == job.answers[d].reason
  {
    var end := End(job, run);
    DecisionOfRun(cfg, job, run);
    RefusalsCarryOutcomes(job, end);
    d := First(end.results, r => IsRefusal(r)).value;
    LowestRefusalNamed(cfg, job, run, d);
  }

  /** A refusal that was written is final: no fail policy, sibling or deadline turns
      it into an allow. */
  lemma WrittenRefusalDenies(cfg: Config, job: Job, run: seq<Action>, i: nat)
    requires job.Valid() && Completes(job, run) && i < |job.claims| && job.answers[i].Refused?
    requires End(job, run).results[i] == Written(job, i, job.answers[i])
    ensures Verdict(cfg, job, run).decision == Deny && Verdict(cfg, job, run).failMode.None?
  {
    var end := End(job, run);
    RefusalsCarryOutcomes(job, end);
    assert IsRefusal(end.results[i]);
  }

  /** Exactly when a run allows with fail_open off once the deadline has passed:
      every owner either never got a call or granted. */
  lemma ExpiredAllowsIff(cfg: Config, job: Job, run: seq<Action>)
    requires job.Valid() && Completes(job, run) && !cfg.IsFailOpen() && End(job, run).expired
    ensures Verdict(cfg, job, run).decision == Allow <==>
            forall i :: 0 <= i < |job.claims| ==>
              End(job, run).results[i].attempted ==>
                End(job, run).results[i] == Written(job, i, job.answers[i]) && job.answers[i].Granted?
  {
    var end := End(job, run);
    DecisionOfRun(cfg, job, run);
    forall i | 0 <= i < |job.claims|
      ensures !IsRefusal(end.results[i]) && !IsLiveError(PhaseError(end), end.results[i]) <==>
              (end.results[i].attempted ==>
                  end.results[i] == Written(job, i, job.answers[i]) && job.answers[i].Granted?)
    {
      FinishedResult(job, end, i);
    }
  }

  // ------------------------------------------------- runs that are always there

  /** The schedule in which every goroutine from j on, except i, sees the stopped
      context before it gets a slot. */
  function GiveUps(n: nat, i: nat, j: nat): (run: seq<Action>)
    requires j <= n
    ensures Expire !in run
    decreases n - j
  {
    if j == n then [] else if j == i then GiveUps(n, i, j + 1) else [GiveUp(j)] + GiveUps(n, i, j + 1)
  }

  lemma {:induction false} GiveUpsFinish(job: Job, s: State, i: nat, j: nat)
    requires |s.stages| == |s.results| == |job.claims| == |job.answers| && j <= |s.stages| && s.context != Open
    requires forall k :: 0 <= k < j || k == i < |s.stages| ==> s.stages[k] == Finished
    requires forall k :: j <= k < |s.stages| && k != i ==> s.stages[k] == Waiting
    ensures var end := After(job, s, GiveUps(|s.stages|, i, j));
            end.Some? && AllFinished(end.value) && end.value == s.(stages := end.value.stages)
    decreases |s.stages| - j
  {
    if j < |s.stages| {
      if j == i {
        GiveUpsFinish(job, s, i, j + 1);
      } else {
        var t := Next(job, s, GiveUp(j));
        var rest := GiveUps(|s.stages|, i, j + 1);
        assert ([GiveUp(j)] + rest)[1..] == rest;
        GiveUpsFinish(job, t, i, j + 1);
      }
    }
  }

  lemma {:induction false} AfterConcat(job: Job, s: State, run: seq<Action>, more: seq<Action>)
    requires After(job, s, run).Some?
    ensures After(job, s, run + more) == After(job, After(job, s, run).value, more)
    decreases |run|
  {
    if run == [] {
      assert run + more == more;
    } else {
      assert (run + more)[1..] == run[1..] + more;
      AfterConcat(job, Next(job, s, run[0]), run[1..], more);
    }
  }

  /** Wherever a run stands, it can be completed without the deadline. */
  lemma {:induction false} RunCanComplete(job: Job, run: seq<Action>) returns (more: seq<Action>)
    requires job.Valid() && After(job, Init(job), run).Some?
    ensures Completes(job, run + more) && Expire !in more
    decreases Remaining(After(job, Init(job), run).value)
  {
    var s := After(job, Init(job), run).value;
    if AllFinished(s) {
      more := [];
      assert run + [] == run;
    } else {
      var a := NoDeadlock(job, run);
      StepUsesUp(job, s, a);
      AfterConcat(job, Init(job), run, [a]);
      assert After(job, Next(job, s, a), []) == Some(Next(job, s, a));
      var rest := RunCanComplete(job, run + [a]);
      more := [a] + rest;
      assert run + more == (run + [a]) + rest;
    }
  }

  /** Goroutine i goes first and its own problem stops everybody else. */
  function SoloRun(n: nat, i: nat): seq<Action> {
    [Acquire(i), Attempt(i), Reply(i), Signal(i), Release(i)] + GiveUps(n, i, 0)
  }

  /** Where it leaves the others before they give up. */
  function SoloStopped(job: Job, i: nat): State
    requires job.Valid() && i < |job.claims|
  {
    State(Init(job).stages[i := Finished], Init(job).results[i := Written(job, i, job.answers[i])], 0,
          StoppedBySibling, false)
  }

  lemma SoloHead(job: Job, i: nat)
    requires job.Valid() && i < |job.claims| && !job.answers[i].Granted?
    ensures After(job, Init(job), [Acquire(i), Attempt(i), Reply(i), Signal(i), Release(i)])
            == Some(SoloStopped(job, i))
  {
    var s0 := Init(job);
    var s1 := Next(job, s0, Acquire(i));
    var s2 := Next(job, s1, Attempt(i));
    var s3 := Next(job, s2, Reply(i));
    var s4 := Next(job, s3, Signal(i));
    var s5 := Next(job, s4, Release(i));
    assert s5 == SoloStopped(job, i);
    After5(job, s0, Acquire(i), Attempt(i), Reply(i), Signal(i), Release(i), s5);
  }

  lemma SoloRunEnds(job: Job, i: nat)
    requires job.Valid() && i < |job.claims| && !job.answers[i].Granted?
    ensures Expire !in SoloRun(|job.claims|, i) && Completes(job, SoloRun(|job.claims|, i))
    ensures End(job, SoloRun(|job.claims|, i)).results == SoloStopped(job, i).results
  {
    SoloHead(job, i);
    var s := SoloStopped(job, i);
    var head := [Acquire(i), Attempt(i), Reply(i), Signal(i), Release(i)];
    AfterConcat(job, Init(job), head, GiveUps(|job.claims|, i, 0));
    GiveUpsFinish(job, s, i, 0);
  }

  lemma SoloRunCompletes(cfg: Config, job: Job, i: nat)
    requires job.Valid() && i < |job.claims| && !job.answers[i].Granted?
    ensures Completes(job, SoloRun(|job.claims|, i)) && Expire !in SoloRun(|job.claims|, i)
    ensures var v := Verdict(cfg, job, SoloRun(|job.claims|, i));
            v.decision == match job.answers[i] case Failed(e) => FailDecision(cfg, FailModeForError(e)) case _ => Deny
  {
    SoloRunEnds(job, i);
    var end := End(job, SoloRun(|job.claims|, i));
    assert forall k :: 0 <= k < |end.results| && k != i ==> end.results[k] == BLANK;
    assert end.results[i] == Written(job, i, job.answers[i]);
    DecisionOfRun(cfg, job, SoloRun(|job.claims|, i));
  }

  lemma DecisionOfRun(cfg: Config, job: Job, run: seq<Action>)
    requires job.Valid() && Completes(job, run)
    ensures Verdict(cfg, job, run).decision ==
            var end := End(job, run);
            match First(end.results, r => IsRefusal(r))
            case Some(d) => Deny
            case None =>
              match First(end.results, r => IsLiveError(PhaseError(end), r))
              case Some(e) => FailDecision(cfg, FailModeForError(end.results[e].err.value))
              case None => Allow
  {
    RefusalsCarryOutcomes(job, End(job, run));
  }

  lemma After5(job: Job, s: State, a: Action, b: Action, c: Action, d: Action, e: Action, t: State)
    requires Enabled(job, s, a)
    requires var s1 := Next(job, s, a); Enabled(job, s1, b)
    requires var s2 := Next(job, Next(job, s, a), b); Enabled(job, s2, c)
    requires var s3 := Next(job, Next(job, Next(job, s, a), b), c); Enabled(job, s3, d)
    requires var s4 := Next(job, Next(job, Next(job, Next(job, s, a), b), c), d);
             Enabled(job, s4, e) && t == Next(job, s4, e)
    ensures After(job, s, [a, b, c, d, e]) == Some(t)
  {
    var s1 := Next(job, s, a);
    var s2 := Next(job, s1, b);
    var s3 := Next(job, s2, c);
    var s4 := Next(job, s3, d);
    assert [a, b, c, d, e][1..] == [b, c, d, e];
    assert [b, c, d, e][1..] == [c, d, e];
    assert [c, d, e][1..] == [d, e];
    assert [d, e][1..] == [e];
    assert After(job, t, []) == Some(t);
    assert After(job, s4, [e]) == Some(t);
    assert After(job, s3, [d, e]) == Some(t);
    assert After(job, s2, [c, d, e]) == Some(t);
    assert After(job, s1, [b, c, d, e]) == Some(t);
  }

  // -------------------------------------------------- where schedules do matter

  /** Some check fails in a way fail_open releases. */
  predicate HasOutage(job: Job) {
    exists i :: 0 <= i < |job.answers| && job.answers[i].Failed? && FailModeForError(job.answers[i].error).ByPolicy?
  }

  /** Some check answers in a way that denies whatever the fail policy. */
  predicate HasFirmProblem(job: Job) {
    exists i :: 0 <= i < |job.answers| &&
                (job.answers[i].Refused?
                    || (job.answers[i].Failed? && FailModeForError(job.answers[i].error).AlwaysClosed?))
  }

  /** Every schedule that keeps the budget enforces the same decision. */
  ghost predicate ScheduleIndependent(cfg: Config, job: Job)
    requires job.Valid()
  {
    forall run, other ::
      Completes(job, run) && Expire !in run && Completes(job, other) && Expire !in other ==>
        Verdict(cfg, job, run).decision == Verdict(cfg, job, other).decision
  }

  /** Every decisive result in a finished gate comes from some owner's own answer. */
  lemma DecisionFromAnswers(cfg: Config, job: Job, run: seq<Action>)
    requires job.Valid() && Completes(job, run) && Expire !in run && !AllGranted(job)
    ensures var d := Verdict(cfg, job, run).decision;
            || (d == Deny && HasFirmProblem(job))
            || (d == FailDecision(cfg, ByPolicy) && HasOutage(job))
  {
    var end := End(job, run);
    RefusalsCarryOutcomes(job, end);
    ProblemSurvives(job, end);
    DecisionOfRun(cfg, job, run);
    var refusal := First(end.results, r => IsRefusal(r));
    if refusal.None? {
      var live := First(end.results, r => IsLiveError(None, r));
      FinishedResult(job, end, live.value);
      assert job.answers[live.value].Failed?;
    } else {
      assert job.answers[refusal.value].Refused?;
    }
  }

  /** The documentation says the verdict does not depend on which goroutine
      finishes first. Exactly: it does not, unless fail_open is on and the owners'
      answers mix an outage with a refusal or a misconfiguration. */
  lemma ScheduleIndependentIff(cfg: Config, job: Job)
    requires job.Valid()
    ensures ScheduleIndependent(cfg, job) <==>
            !(cfg.failOpen == Some(true) && HasOutage(job) && HasFirmProblem(job))
  {
    if cfg.IsFailOpen() && HasOutage(job) && HasFirmProblem(job) {
      var i :| 0 <= i < |job.answers| && job.answers[i].Failed? && FailModeForError(job.answers[i].error).ByPolicy?;
      var j :| 0 <= j < |job.answers| &&
        (job.answers[j].Refused? || (job.answers[j].Failed? && FailModeForError(job.answers[j].error).AlwaysClosed?));
      SoloRunCompletes(cfg, job, i);
      SoloRunCompletes(cfg, job, j);
      assert Verdict(cfg, job, SoloRun(|job.claims|, i)).decision == Allow;
      assert Verdict(cfg, job, SoloRun(|job.claims|, j)).decision == Deny;
    } else {
      forall run, other |
        Completes(job, run) && Expire !in run && Completes(job, other) && Expire !in other
        ensures Verdict(cfg, job, run).decision == Verdict(cfg, job, other).decision
      {
        if AllGranted(job) {
          AllGrantedAllows(cfg, job, run);
          AllGrantedAllows(cfg, job, other);
        } else {
          DecisionFromAnswers(cfg, job, run);
          DecisionFromAnswers(cfg, job, other);
        }
      }
    }
  }

  lemma AllGrantedAllows(cfg: Config, job: Job, run: seq<Action>)
    requires job.Valid() && Completes(job, run) && Expire !in run && AllGranted(job)
    ensures Verdict(cfg, job, run).decision == Allow
  {
    var end := End(job, run);
    RefusalsCarryOutcomes(job, end);
    ProblemSurvives(job, end);
  }

  /** Some schedule within the budget enforces this decision. */
  ghost predicate MayDecide(cfg: Config, job: Job, d: Decision)
    requires job.Valid()
  {
    exists run :: Completes(job, run) && Expire !in run && Verdict(cfg, job, run).decision == d
  }

  lemma GrantsMayAllow(cfg: Config, job: Job)
    requires job.Valid() && AllGranted(job)
    ensures MayDecide(cfg, job, Allow)
  {
    var run := RunCanComplete(job, []);
    assert [] + run == run;
    AllGrantedAllows(cfg, job, run);
  }

  lemma SoloMayDecide(cfg: Config, job: Job, i: nat)
    requires job.Valid() && i < |job.claims| && !job.answers[i].Granted?
    ensures MayDecide(cfg, job,
                      match job.answers[i] case Failed(e) => FailDecision(cfg, FailModeForError(e)) case _ => Deny)
  {
    SoloRunCompletes(cfg, job, i);
  }

  lemma MayDecideNeeds(cfg: Config, job: Job, d: Decision)
    requires job.Valid() && cfg.IsFailOpen() && MayDecide(cfg, job, d)
    ensures if d == Allow then AllGranted(job) || HasOutage(job) else HasFirmProblem(job)
  {
    var run :| Completes(job, run) && Expire !in run && Verdict(cfg, job, run).decision == d;
    if AllGranted(job) {
      AllGrantedAllows(cfg, job, run);
    } else {
      DecisionFromAnswers(cfg, job, run);
    }
  }

  /** What fail_open leaves to the scheduler: some schedule releases the data exactly
      when every owner grants or some check has an outage, and some schedule denies
      exactly when some check has a refusal or a misconfiguration. */
  lemma FailOpenMayDecideIff(cfg: Config, job: Job)
    requires job.Valid() && cfg.failOpen == Some(true)
    ensures MayDecide(cfg, job, Allow) <==> AllGranted(job) || HasOutage(job)
    ensures MayDecide(cfg, job, Deny) <==> HasFirmProblem(job)
  {
    if AllGranted(job) {
      GrantsMayAllow(cfg, job);
    }
    forall i | 0 <= i < |job.answers| && !job.answers[i].Granted?
      ensures MayDecide(cfg, job,
                        if job.answers[i].Failed? then FailDecision(cfg, FailModeForError(job.answers[i].error))
                            else Deny)
    {
      SoloMayDecide(cfg, job, i);
    }
    if MayDecide(cfg, job, Allow) {
      MayDecideNeeds(cfg, job, Allow);
    }
    if MayDecide(cfg, job, Deny) {
      MayDecideNeeds(cfg, job, Deny);
    }
  }

  // ------------------------------------------------------------- the deadline

  /** The deadline passes before any goroutine starts its call. */
  function IdleRun(n: nat): seq<Action> {
    [Expire] + GiveUps(n, n, 0)
  }

  lemma IdleRunAllows(cfg: Config, job: Job)
    requires job.Valid()
    ensures Completes(job, IdleRun(|job.claims|))
    ensures Verdict(cfg, job, IdleRun(|job.claims|)).decision == Allow
  {
    var n := |job.claims|;
    var s0 := Init(job);
    var s1 := Next(job, s0, Expire);
    assert IdleRun(n)[1..] == GiveUps(n, n, 0);
    GiveUpsFinish(job, s1, n, 0);
    DecisionOfRun(cfg, job, IdleRun(n));
  }

  /** Goroutine 0's call is cut off by the deadline. */
  function CutOffRun(n: nat): seq<Action> {
    [Acquire(0), Attempt(0), Expire, ReplyStopped(0), Signal(0)] + [Release(0)] + GiveUps(n, 0, 0)
  }

  lemma CutOffRunEnds(job: Job)
    requires job.Valid() && |job.claims| > 0
    ensures Completes(job, CutOffRun(|job.claims|))
    ensures var end := End(job, CutOffRun(|job.claims|));
            end.expired && end.results[0] == Written(job, 0, Failed(DeadlineExceeded))
            && forall k :: 1 <= k < |end.results| ==> end.results[k] == BLANK
  {
    var n := |job.claims|;
    var s0 := Init(job);
    var s1 := Next(job, s0, Acquire(0));
    var s2 := Next(job, s1, Attempt(0));
    var s3 := Next(job, s2, Expire);
    var s4 := Next(job, s3, ReplyStopped(0));
    var s5 := Next(job, s4, Signal(0));
    var s6 := Next(job, s5, Release(0));
    var head := [Acquire(0), Attempt(0), Expire, ReplyStopped(0), Signal(0)];
    After5(job, s0, Acquire(0), Attempt(0), Expire, ReplyStopped(0), Signal(0), s5);
    var rest := GiveUps(n, 0, 0);
    var tail := [Release(0)] + rest;
    assert tail[1..] == rest;
    GiveUpsFinish(job, s6, 0, 0);
    AfterConcat(job, s0, head, tail);
    assert CutOffRun(n) == head + tail;
    assert After(job, s5, tail) == After(job, s6, rest);
  }

  lemma CutOffRunDenies(cfg: Config, job: Job)
    requires job.Valid() && |job.claims| > 0 && !cfg.IsFailOpen()
    ensures exists run :: Completes(job, run) && Verdict(cfg, job, run).decision == Deny
  {
    var run := CutOffRun(|job.claims|);
    CutOffRunEnds(job);
    var end := End(job, run);
    assert IsLiveError(PhaseError(end), end.results[0]);
    DecisionOfRun(cfg, job, run);
    assert Verdict(cfg, job, run).decision == Deny;
  }

  /** When everybody grants, the only live errors are those of the stopped context,
      and fail_open releases them. */
  lemma FailOpenKeepsGrants(cfg: Config, job: Job, run: seq<Action>)
    requires job.Valid() && Completes(job, run) && cfg.IsFailOpen() && AllGranted(job)
    ensures Verdict(cfg, job, run).decision == Allow
  {
    var end := End(job, run);
    RefusalsCarryOutcomes(job, end);
    DecisionOfRun(cfg, job, run);
    var live := First(end.results, r => IsLiveError(PhaseError(end), r));
    if live.Some? {
      FinishedResult(job, end, live.value);
    }
  }

  /** The conjunction needs the budget. All schedules agree with the sequential rule
      even when the deadline may pass at any moment exactly when there is nothing to
      check, or fail_open is on and everybody grants: an owner whose check never
      started is not a problem to the reduction, and one cut off by the deadline is a
      problem that only fail_open forgives. */
  lemma DeadlineBreaksConjunctionIff(cfg: Config, job: Job)
    requires job.Valid()
    ensures (forall run :: Completes(job, run) ==> (Verdict(cfg, job, run).decision == Allow <==> AllGranted(job)))
            <==> |job.claims| == 0 || (cfg.IsFailOpen() && AllGranted(job))
  {
    if |job.claims| == 0 {
      forall run | Completes(job, run)
        ensures Verdict(cfg, job, run).decision == Allow <==> AllGranted(job)
      {
        DecisionOfRun(cfg, job, run);
      }
    } else if !AllGranted(job) {
      IdleRunAllows(cfg, job);
    } else if cfg.IsFailOpen() {
      forall run | Completes(job, run) ensures Verdict(cfg, job, run).decision == Allow {
        FailOpenKeepsGrants(cfg, job, run);
      }
    } else {
      CutOffRunDenies(cfg, job);
    }
  }
}
