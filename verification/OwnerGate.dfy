/** The concurrent deny-all gate: `checkOwners` starts one goroutine per claim,
    `reduceOwnerResults` turns what they wrote into one outcome.

    The goroutines are a transition system. A step belongs to one goroutine (or
    to the phase deadline), a run is a sequence of steps, and every theorem
    quantifies over all runs, so over all schedules. */
module OwnerGate {
  import opened Wrappers
  import opened Outcomes

  const MAX_CONCURRENT_CHECKS: nat := 8

  /** One distinct (owner, dataResource) pair to check. */
  datatype OwnerClaim = OwnerClaim(owner: string, dataResource: string, purpose: string)

  /** What CheckConsent answers for a claim when nothing interrupts the call. */
  datatype Answer = Granted(reason: string) | Refused(reason: string) | Failed(error: Error)

  /** One owner's slot in the shared result array. */
  datatype OwnerResult = OwnerResult(
    outcome: Option<Outcome>, err: Option<Error>, request: Option<ConsentRequest>,
    record: Option<CheckedOwner>, problem: bool, attempted: bool)

  const BLANK := OwnerResult(None, None, None, None, false, false)

  /** Everything the goroutines read and nobody writes. */
  datatype Job = Job(key: string, path: string, verb: string, consumer: string,
                     claims: seq<OwnerClaim>, answers: seq<Answer>)
  {
    /** An answer is what the call says by itself, so it is never the
        cancellation error that only a sibling can cause. */
    predicate Valid() {
      && |answers| == |claims|
      && forall i :: 0 <= i < |answers| ==> answers[i] != Failed(Canceled)
    }
  }

  function ResourceOrPath(dataResource: string, path: string): string {
    if dataResource != "" then dataResource else path
  }

  function RequestFor(job: Job, i: nat): ConsentRequest
    requires i < |job.claims|
  {
    var c := job.claims[i];
    ConsentRequest(c.owner, job.path, job.verb, c.dataResource, job.consumer, c.purpose)
  }

  function AuditedResource(job: Job, i: nat): string
    requires i < |job.claims|
  {
    ResourceOrPath(job.claims[i].dataResource, job.path)
  }

  function Started(job: Job, i: nat): OwnerResult
    requires i < |job.claims|
  {
    BLANK.(attempted := true, request := Some(RequestFor(job, i)))
  }

  /** The result a goroutine writes for the answer it received. */
  function Written(job: Job, i: nat, a: Answer): OwnerResult
    requires i < |job.claims|
  {
    var c := job.claims[i];
    match a
    case Failed(e) => Started(job, i).(err := Some(e), problem := true)
    case Refused(why) =>
      Started(job, i).(
      record := Some(CheckedOwner(c.owner, AuditedResource(job, i), Deny, why)),
      outcome := Some(Outcome(Deny, why, job.key, c.owner, AuditedResource(job, i), job.verb, [], None)),
      problem := true)
    case Granted(why) =>
      Started(job, i).(record := Some(CheckedOwner(c.owner, AuditedResource(job, i), Allow, why)))
  }

  // ---------------------------------------------------------------- reduction

  /** A definite refusal. */
  predicate IsRefusal(r: OwnerResult) {
    r.attempted && r.problem && r.err.None?
  }

  /** A failure that counts: a cancellation caused by a sibling does not, unless
      the phase itself is over. */
  predicate IsLiveError(phaseErr: Option<Error>, r: OwnerResult) {
    r.attempted && r.err.Some? && !(r.err.value.Canceled? && phaseErr.None?)
  }

  function RecordsOf(results: seq<OwnerResult>): seq<CheckedOwner> {
    if results == [] then []
    else
      var rest := RecordsOf(results[..|results| - 1]);
      var r := results[|results| - 1];
      if r.attempted && r.record.Some? && r.record.value.subject != "" then rest + [r.record.value] else rest
  }

  /** The lowest index satisfying p. */
  function First(results: seq<OwnerResult>, p: OwnerResult -> bool): (r: Option<nat>)
    ensures r.Some? ==> r.value < |results| && p(results[r.value])
    ensures r.Some? ==> forall k :: 0 <= k < r.value ==> !p(results[k])
    ensures r.None? ==> forall k :: 0 <= k < |results| ==> !p(results[k])
  {
    if results == [] then None
    else if p(results[0]) then Some(0)
    else match First(results[1..], p)
      case None => None
      case Some(k) => Some(k + 1)
  }

  /** The outcome a result array stands for: the lowest refusal, failing that the
      fail policy on the lowest live error, failing that an allow. */
  function Reduced(cfg: Config, key: string, path: string, verb: string,
                   phaseErr: Option<Error>, results: seq<OwnerResult>): Outcome
    requires forall k :: 0 <= k < |results| && IsRefusal(results[k]) ==> results[k].outcome.Some?
  {
    var checked := RecordsOf(results);
    match First(results, r => IsRefusal(r))
    case Some(d) => results[d].outcome.value.(checked := checked)
    case None =>
      match First(results, r => IsLiveError(phaseErr, r))
      case Some(e) =>
        FailOutcome(cfg, FailModeForError(results[e].err.value), "consent check error", key, results[e].request)
        .(checked := checked)
      case None => Outcome(Allow, "", key, "", path, verb, checked, None)
  }

  method ReduceOwnerResults(cfg: Config, key: string, path: string, verb: string,
                            phaseErr: Option<Error>, results: seq<OwnerResult>)
    returns (out: Outcome)
    requires forall k :: 0 <= k < |results| && IsRefusal(results[k]) ==> results[k].outcome.Some?
    ensures out == Reduced(cfg, key, path, verb, phaseErr, results)
  {
    var checked: seq<CheckedOwner> := [];
    for i := 0 to |results|
      invariant checked == RecordsOf(results[..i])
    {
      assert results[..i + 1][..i] == results[..i];
      var r := results[i];
      if r.attempted && r.record.Some? && r.record.value.subject != "" {
        checked := checked + [r.record.value];
      }
    }
    assert results[..|results|] == results;
    for i := 0 to |results|
      invariant forall k :: 0 <= k < i ==> !IsRefusal(results[k])
    {
      if IsRefusal(results[i]) {
        return results[i].outcome.value.(checked := checked);
      }
    }
    for i := 0 to |results|
      invariant forall k :: 0 <= k < i ==> !IsLiveError(phaseErr, results[k])
    {
      if !results[i].attempted || results[i].err.None? {
        continue;
      }
      if results[i].err.value.Canceled? && phaseErr.None? {
        continue;
      }
      out := FailOutcome(cfg, FailModeForError(results[i].err.value), "consent check error", key, results[i].request);
      out := out.(checked := checked);
      return;
    }
    return Outcome(Allow, "", key, "", path, verb, checked, None);
  }

  // -------------------------------------------------------- transition system

  datatype Stage =
    | Waiting      // selecting between a slot and the cancelled context
    | Slotted      // holds a slot, has not yet marked its result
    | Calling      // attempted is set, CheckConsent is running
    | Replied      // the result is written, siblings not yet cancelled
    | Signalled    // cancelChecks has been called
    | Finished     // wg.Done

  /** The context the checks share; the first cause wins. */
  datatype Context = Open | StoppedBySibling | StoppedByDeadline

  datatype State = State(stages: seq<Stage>, results: seq<OwnerResult>, slots: nat, context: Context, expired: bool)

  datatype Action =
    | Acquire(i: nat)
    | GiveUp(i: nat)
    | Attempt(i: nat)
    | Reply(i: nat)            // the call returns its own answer
    | ReplyStopped(i: nat)     // the call returns the error of the stopped context
    | Signal(i: nat)
    | Release(i: nat)
    | Expire                   // the phase deadline passes

  function Init(job: Job): State {
    State(seq(|job.claims|, i => Waiting), seq(|job.claims|, i => BLANK), 0, Open, false)
  }

  function StopError(c: Context): Error {
    if c.StoppedByDeadline? then DeadlineExceeded else Canceled
  }

  predicate Enabled(job: Job, s: State, a: Action) {
    if a.Expire? then !s.expired else
      && a.i < |s.stages| == |s.results| == |job.claims| == |job.answers|
      && match a
         case Acquire(i) => s.stages[i] == Waiting && s.slots < MAX_CONCURRENT_CHECKS
         case GiveUp(i) => s.stages[i] == Waiting && s.context != Open
         case Attempt(i) => s.stages[i] == Slotted
         case Reply(i) => s.stages[i] == Calling
         case ReplyStopped(i) => s.stages[i] == Calling && s.context != Open
         case Signal(i) => s.stages[i] == Replied && s.results[i].problem
         case Release(i) =>
           && s.slots > 0
           && (s.stages[i] == Signalled || (s.stages[i] == Replied && !s.results[i].problem))
  }

  function Next(job: Job, s: State, a: Action): State
    requires Enabled(job, s, a)
  {
    match a
    case Acquire(i) => s.(stages := s.stages[i := Slotted], slots := s.slots + 1)
    case GiveUp(i) => s.(stages := s.stages[i := Finished])
    case Attempt(i) => s.(stages := s.stages[i := Calling], results := s.results[i := Started(job, i)])
    case Reply(i) =>
      s.(stages := s.stages[i := Replied], results := s.results[i := Written(job, i, job.answers[i])])
    case ReplyStopped(i) =>
      s.(stages := s.stages[i := Replied], results := s.results[i := Written(job, i, Failed(StopError(s.context)))])
    case Signal(i) =>
      s.(stages := s.stages[i := Signalled], context := if s.context.Open? then StoppedBySibling else s.context)
    case Release(i) => s.(stages := s.stages[i := Finished], slots := s.slots - 1)
    case Expire => s.(expired := true, context := if s.context.Open? then StoppedByDeadline else s.context)
  }

  /** The state after a schedule, or None when some step was not enabled. */
  function After(job: Job, s: State, run: seq<Action>): Option<State>
    decreases |run|
  {
    if run == [] then Some(s)
    else if Enabled(job, s, run[0]) then After(job, Next(job, s, run[0]), run[1..])
    else None
  }

  predicate AllFinished(s: State) {
    forall i :: 0 <= i < |s.stages| ==> s.stages[i] == Finished
  }

  /** The schedule takes the gate from its start to wg.Wait. */
  predicate Completes(job: Job, run: seq<Action>) {
    var end := After(job, Init(job), run);
    end.Some? && AllFinished(end.value)
  }

  // ----------------------------------------------------------------- invariant

  function Holds(stage: Stage): nat {
    if stage.Waiting? || stage.Finished? then 0 else 1
  }

  function Holders(stages: seq<Stage>): nat {
    if stages == [] then 0 else Holders(stages[..|stages| - 1]) + Holds(stages[|stages| - 1])
  }

  /** The result of a call that got its own answer through, or that was stopped. */
  predicate WrittenOk(job: Job, s: State, i: nat)
    requires i < |s.results| == |job.claims| == |job.answers|
  {
    || s.results[i] == Written(job, i, job.answers[i])
    || (s.context != Open && s.results[i] == Written(job, i, Failed(StopError(s.context))))
  }

  predicate GoroutineOk(job: Job, s: State, i: nat)
    requires i < |s.stages| == |s.results| == |job.claims| == |job.answers|
  {
    match s.stages[i]
    case Waiting => s.results[i] == BLANK
    case Slotted => s.results[i] == BLANK
    case Calling => s.results[i] == Started(job, i)
    case Replied => WrittenOk(job, s, i)
    case Signalled => WrittenOk(job, s, i) && s.results[i].problem && s.context != Open
    case Finished =>
      || (s.results[i] == BLANK && s.context != Open)
      || (WrittenOk(job, s, i) && (s.results[i].problem ==> s.context != Open))
  }

  /** A goroutine whose own answer, not an interruption, was a problem. */
  predicate OwnProblem(job: Job, s: State, i: nat)
    requires i < |s.results| == |job.claims| == |job.answers|
  {
    s.results[i] == Written(job, i, job.answers[i]) && !job.answers[i].Granted?
  }

  ghost predicate Inv(job: Job, s: State) {
    && job.Valid()
    && |s.stages| == |s.results| == |job.claims|
    && s.slots == Holders(s.stages) <= MAX_CONCURRENT_CHECKS
    && (forall i :: 0 <= i < |s.stages| ==> GoroutineOk(job, s, i))
    && (s.context == StoppedBySibling ==> exists c :: 0 <= c < |s.results| && OwnProblem(job, s, c))
    && (s.context == StoppedByDeadline ==> s.expired)
  }

  lemma {:induction false} HoldersUpdate(stages: seq<Stage>, i: nat, stage: Stage)
    requires i < |stages|
    ensures Holders(stages[i := stage]) == Holders(stages) - Holds(stages[i]) + Holds(stage)
  {
    var n := |stages| - 1;
    if i == n {
      assert stages[i := stage][..n] == stages[..n];
    } else {
      assert stages[i := stage][..n] == stages[..n][i := stage];
      HoldersUpdate(stages[..n], i, stage);
    }
  }

  lemma {:induction false} HoldersOfUniform(stages: seq<Stage>)
    requires forall i :: 0 <= i < |stages| ==> Holds(stages[i]) == 0
    ensures Holders(stages) == 0
  {
    if stages != [] {
      HoldersOfUniform(stages[..|stages| - 1]);
    }
  }

  lemma InitInv(job: Job)
    requires job.Valid()
    ensures Inv(job, Init(job))
  {
    HoldersOfUniform(Init(job).stages);
  }

  lemma StepKeepsOthers(job: Job, s: State, a: Action, j: nat)
    requires Inv(job, s) && Enabled(job, s, a) && j < |s.stages|
    ensures GoroutineOk(job, Next(job, s, a), j)
  {
    assert GoroutineOk(job, s, j);
  }

  lemma StepKeepsCulprit(job: Job, s: State, a: Action)
    requires Inv(job, s) && Enabled(job, s, a)
    ensures var t := Next(job, s, a);
            t.context == StoppedBySibling ==> exists c :: 0 <= c < |t.results| && OwnProblem(job, t, c)
  {
    var t := Next(job, s, a);
    if s.context == StoppedBySibling {
      var c :| 0 <= c < |s.results| && OwnProblem(job, s, c);
      assert GoroutineOk(job, s, c);
      assert OwnProblem(job, t, c);
    } else if t.context == StoppedBySibling {
      assert GoroutineOk(job, s, a.i);
      assert OwnProblem(job, t, a.i);
    }
  }

  lemma StepInv(job: Job, s: State, a: Action)
    requires Inv(job, s) && Enabled(job, s, a)
    ensures Inv(job, Next(job, s, a))
  {
    var t := Next(job, s, a);
    if !a.Expire? {
      HoldersUpdate(s.stages, a.i, t.stages[a.i]);
      assert GoroutineOk(job, s, a.i);
    }
    forall j | 0 <= j < |t.stages| ensures GoroutineOk(job, t, j) {
      StepKeepsOthers(job, s, a, j);
    }
    StepKeepsCulprit(job, s, a);
  }
}
