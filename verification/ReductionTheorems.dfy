/** Order and audit properties of `reduceOwnerResults`, on arbitrary result
    arrays and on the arrays a run of the gate leaves behind. */
module ReductionTheorems {
  import opened Wrappers
  import opened Outcomes
  import opened OwnerGate
  import opened GateTheorems

  /** A recorded refusal carries the deny it asks for. */
  predicate WellFormed(results: seq<OwnerResult>) {
    forall r :: r in results && IsRefusal(r) ==> r.outcome.Some? && r.outcome.value.decision == Deny
  }

  function DecisionOf(cfg: Config, phaseErr: Option<Error>, results: seq<OwnerResult>): Decision
    requires WellFormed(results)
  {
    Reduced(cfg, "", "", "", phaseErr, results).decision
  }

  ghost predicate OrderFree(cfg: Config, phaseErr: Option<Error>, results: seq<OwnerResult>)
    requires WellFormed(results)
  {
    forall other :: multiset(other) == multiset(results) && WellFormed(other) ==>
                      DecisionOf(cfg, phaseErr, other) == DecisionOf(cfg, phaseErr, results)
  }

  ghost predicate LiveErrorOfMode(phaseErr: Option<Error>, results: seq<OwnerResult>, mode: FailMode) {
    exists r :: r in results && IsLiveError(phaseErr, r) && FailModeForError(r.err.value) == mode
  }

  lemma DecisionByMembership(cfg: Config, phaseErr: Option<Error>, results: seq<OwnerResult>)
    requires WellFormed(results)
    ensures var d := DecisionOf(cfg, phaseErr, results);
            if exists r :: r in results && IsRefusal(r) then d == Deny
            else if !LiveErrorOfMode(phaseErr, results, ByPolicy)
                && !LiveErrorOfMode(phaseErr, results, AlwaysClosed) then d == Allow
            else || (d == Deny && LiveErrorOfMode(phaseErr, results, AlwaysClosed))
                 || (d == FailDecision(cfg, ByPolicy) && LiveErrorOfMode(phaseErr, results, ByPolicy))
  {
    var live := First(results, r => IsLiveError(phaseErr, r));
    if live.Some? {
      assert results[live.value] in results;
      assert FailModeForError(results[live.value].err.value).ByPolicy?
             || FailModeForError(results[live.value].err.value).AlwaysClosed?;
    }
    var refusal := First(results, r => IsRefusal(r));
    if refusal.Some? {
      assert results[refusal.value] in results;
    }
  }

  lemma SwapKeepsMultiset<T>(s: seq<T>, f: nat, g: nat)
    requires f < g < |s|
    ensures multiset(s[f := s[g]][g := s[f]]) == multiset(s)
  {
    var mid := s[f + 1..g];
    assert s == s[..f] + [s[f]] + mid + [s[g]] + s[g + 1..];
    assert s[f := s[g]][g := s[f]] == s[..f] + [s[g]] + mid + [s[f]] + s[g + 1..];
  }

  /** The decision does not depend on the order of the results, unless fail_open
      is on, nobody refused, and the live errors mix both fail modes. */
  lemma OrderFreeIff(cfg: Config, phaseErr: Option<Error>, results: seq<OwnerResult>)
    requires WellFormed(results)
    ensures OrderFree(cfg, phaseErr, results) <==>
            !(&& cfg.IsFailOpen()
              && (forall r :: r in results ==> !IsRefusal(r))
              && LiveErrorOfMode(phaseErr, results, ByPolicy)
              && LiveErrorOfMode(phaseErr, results, AlwaysClosed))
  {
    if && cfg.IsFailOpen()
       && (forall r :: r in results ==> !IsRefusal(r))
       && LiveErrorOfMode(phaseErr, results, ByPolicy)
       && LiveErrorOfMode(phaseErr, results, AlwaysClosed)
    {
      MixedModesDependOnOrder(cfg, phaseErr, results);
    } else {
      forall other | multiset(other) == multiset(results) && WellFormed(other)
        ensures DecisionOf(cfg, phaseErr, other) == DecisionOf(cfg, phaseErr, results)
      {
        assert forall r :: r in other <==> r in multiset(other);
        assert forall r :: r in results <==> r in multiset(results);
        DecisionByMembership(cfg, phaseErr, results);
        DecisionByMembership(cfg, phaseErr, other);
      }
    }
  }

  lemma MixedModesDependOnOrder(cfg: Config, phaseErr: Option<Error>, results: seq<OwnerResult>)
    requires WellFormed(results) && cfg.IsFailOpen()
    requires forall r :: r in results ==> !IsRefusal(r)
    requires LiveErrorOfMode(phaseErr, results, ByPolicy) && LiveErrorOfMode(phaseErr, results, AlwaysClosed)
    ensures !OrderFree(cfg, phaseErr, results)
  {
    var f := FirstLive(phaseErr, results);
    var otherMode := if FailModeForError(results[f].err.value).ByPolicy? then AlwaysClosed else ByPolicy;
    assert LiveErrorOfMode(phaseErr, results, otherMode);
    var g :| 0 <= g < |results| && IsLiveError(phaseErr, results[g])
        && FailModeForError(results[g].err.value) == otherMode;
    var other := Swapped(results, f, g);
    SwapMovesFirstLive(phaseErr, results, f, g);
    DecisionWithoutRefusal(cfg, phaseErr, results);
    DecisionWithoutRefusal(cfg, phaseErr, other);
    assert DecisionOf(cfg, phaseErr, other) != DecisionOf(cfg, phaseErr, results);
  }

  function Swapped<T>(s: seq<T>, f: nat, g: nat): (r: seq<T>)
    requires f < g < |s|
    ensures |r| == |s| && r[f] == s[g] && r[g] == s[f]
    ensures forall k :: 0 <= k < |s| && k != f && k != g ==> r[k] == s[k]
    ensures multiset(r) == multiset(s)
  {
    SwapKeepsMultiset(s, f, g);
    s[f := s[g]][g := s[f]]
  }

  lemma SwapMovesFirstLive(phaseErr: Option<Error>, results: seq<OwnerResult>, f: nat, g: nat)
    requires f < g < |results| && IsLiveError(phaseErr, results[f]) && IsLiveError(phaseErr, results[g])
    requires forall k :: 0 <= k < f ==> !IsLiveError(phaseErr, results[k])
    ensures forall r :: r in Swapped(results, f, g) ==> r in results
    ensures results[g] in Swapped(results, f, g)
    ensures FirstLive(phaseErr, Swapped(results, f, g)) == f
  {
    var other := Swapped(results, f, g);
    assert other[f] in other;
  }

  function FirstLive(phaseErr: Option<Error>, results: seq<OwnerResult>): (f: nat)
    requires exists r :: r in results && IsLiveError(phaseErr, r)
    ensures f < |results| && IsLiveError(phaseErr, results[f])
    ensures forall k :: 0 <= k < f ==> !IsLiveError(phaseErr, results[k])
  {
    First(results, r => IsLiveError(phaseErr, r)).value
  }

  lemma DecisionWithoutRefusal(cfg: Config, phaseErr: Option<Error>, results: seq<OwnerResult>)
    requires WellFormed(results)
    requires forall r :: r in results ==> !IsRefusal(r)
    requires exists r :: r in results && IsLiveError(phaseErr, r)
    ensures DecisionOf(cfg, phaseErr, results) ==
            FailDecision(cfg, FailModeForError(results[FirstLive(phaseErr, results)].err.value))
  {
    assert First(results, r => IsRefusal(r)).None?;
  }

  // ------------------------------------------------------------ the audit trail

  predicate Definite(job: Job, end: State, i: nat)
    requires i < |end.results| == |job.claims| == |job.answers|
  {
    end.results[i] == Written(job, i, job.answers[i]) && !job.answers[i].Failed?
  }

  function RecordFor(job: Job, i: nat): CheckedOwner
    requires i < |job.claims| == |job.answers| && !job.answers[i].Failed?
  {
    var claim := job.claims[i];
    CheckedOwner(claim.owner, if claim.dataResource != "" then claim.dataResource else job.path,
                 if job.answers[i].Granted? then Allow else Deny, job.answers[i].reason)
  }

  /** `checked` lists exactly the owners that gave a definite answer, in claim
      order, each with its own answer, whatever the verdict. */
  lemma CheckedIsDefiniteAnswers(cfg: Config, job: Job, run: seq<Action>) returns (idx: seq<nat>)
    requires job.Valid() && Completes(job, run)
    requires forall c :: c in job.claims ==> c.owner != ""
    ensures |Verdict(cfg, job, run).checked| == |idx|
    ensures forall k :: 0 <= k < |idx| ==>
              && idx[k] < |job.claims| && Definite(job, End(job, run), idx[k])
              && Verdict(cfg, job, run).checked[k] == RecordFor(job, idx[k])
    ensures forall i :: 0 <= i < |job.claims| && Definite(job, End(job, run), i) ==> i in idx
    ensures forall a, b :: 0 <= a < b < |idx| ==> idx[a] < idx[b]
  {
    var end := End(job, run);
    RefusalsCarryOutcomes(job, end);
    idx := RecordsIndexed(job, end, |job.claims|);
    assert end.results[..|job.claims|] == end.results;
  }

  lemma {:induction false} RecordsIndexed(job: Job, end: State, n: nat) returns (idx: seq<nat>)
    requires Inv(job, end) && AllFinished(end) && n <= |job.claims|
    requires forall c :: c in job.claims ==> c.owner != ""
    ensures |RecordsOf(end.results[..n])| == |idx|
    ensures forall k :: 0 <= k < |idx| ==>
              idx[k] < n && Definite(job, end, idx[k]) && RecordsOf(end.results[..n])[k] == RecordFor(job, idx[k])
    ensures forall i :: 0 <= i < n && Definite(job, end, i) ==> i in idx
    ensures forall a, b :: 0 <= a < b < |idx| ==> idx[a] < idx[b]
  {
    if n == 0 {
      idx := [];
    } else {
      idx := RecordsIndexed(job, end, n - 1);
      assert end.results[..n][..n - 1] == end.results[..n - 1];
      assert GoroutineOk(job, end, n - 1);
      if Definite(job, end, n - 1) {
        assert job.claims[n - 1] in job.claims;
        idx := idx + [n - 1];
      }
    }
  }

  /** No schedule enforces an allow next to a recorded refusal, under either fail
      policy and even past the deadline. */
  lemma NoContradictoryAudit(cfg: Config, job: Job, run: seq<Action>)
    requires job.Valid() && Completes(job, run)
    requires forall c :: c in job.claims ==> c.owner != ""
    requires Verdict(cfg, job, run).decision == Allow
    ensures forall k :: 0 <= k < |Verdict(cfg, job, run).checked| ==>
            Verdict(cfg, job, run).checked[k].decision == Allow
  {
    var idx := CheckedIsDefiniteAnswers(cfg, job, run);
    forall k | 0 <= k < |idx| ensures Verdict(cfg, job, run).checked[k].decision == Allow {
      if job.answers[idx[k]].Refused? {
        assert IsRefusal(End(job, run).results[idx[k]]);
        DecisionOfRun(cfg, job, run);
      }
    }
  }

  /** The (owner, resource) pairs the audit log may carry are pairwise distinct
      exactly when no owner has both an unscoped claim and a claim on the request
      path itself: an unscoped claim is recorded under the path. */
  lemma AuditedPairsDistinctIff(job: Job)
    requires forall i, j :: 0 <= i < j < |job.claims| ==>
               (job.claims[i].owner, job.claims[i].dataResource) != (job.claims[j].owner, job.claims[j].dataResource)
    ensures (forall i, j :: 0 <= i < j < |job.claims| ==>
               (job.claims[i].owner, AuditedResource(job, i)) != (job.claims[j].owner, AuditedResource(job, j)))
            <==>
            !(exists i, j :: 0 <= i < |job.claims| && 0 <= j < |job.claims| && i != j
                          && job.claims[i].owner == job.claims[j].owner
                          && job.claims[i].dataResource == "" && job.claims[j].dataResource == job.path)
  {
    if i, j :| (0 <= i < |job.claims| && 0 <= j < |job.claims| && i != j
                && job.claims[i].owner == job.claims[j].owner
                && job.claims[i].dataResource == "" && job.claims[j].dataResource == job.path)
    {
      var a, b := if i < j then i else j, if i < j then j else i;
      assert (job.claims[a].owner, AuditedResource(job, a)) == (job.claims[b].owner, AuditedResource(job, b));
    }
  }
}
