/** The decision, characterised over every input, every configuration and every
    schedule of the concurrent checks. */
module EvaluationTheorems {
  import opened Wrappers
  import opened Outcomes
  import opened OwnerGate
  import opened GateTheorems
  import opened Evaluation
  import ClaimPath
  import ClaimPathTheorems
  import ContextStore
  import opened ConsentClient
  import CacheTheorems
  import CallRuns
  import CacheKeys
  import opened Durations

  // ------------------------------------------------------------ distinct claims

  predicate SamePair(a: ResolverClaim, b: ResolverClaim) {
    a.ownerId == b.ownerId && a.dataResource == b.dataResource
  }

  /** No earlier claim names the same (owner, dataResource) pair. */
  predicate IsFirst(claims: seq<ResolverClaim>, i: nat)
    requires i < |claims|
  {
    forall k :: 0 <= k < i ==> !SamePair(claims[k], claims[i])
  }

  /** The claim is in the list to check, with its own owner, resource and purpose. */
  predicate Listed(c: ResolverClaim, checked: seq<OwnerClaim>) {
    OwnerClaim(c.ownerId, c.dataResource, c.purpose) in checked
  }

  lemma FirstOfFront(claims: seq<ResolverClaim>, n: nat, i: nat)
    requires i < n <= |claims|
    ensures IsFirst(claims[..n], i) <==> IsFirst(claims, i)
  {
    assert forall k :: 0 <= k <= i ==> claims[..n][k] == claims[k];
  }

  lemma FirstByPairs(claims: seq<ResolverClaim>, i: nat)
    requires i < |claims|
    ensures IsFirst(claims, i) <==> PairOf(claims[i]) !in PairsOf(claims[..i])
  {
    if PairOf(claims[i]) in PairsOf(claims[..i]) {
      var c :| c in claims[..i] && PairOf(c) == PairOf(claims[i]);
      var k :| 0 <= k < i && claims[k] == c;
      assert SamePair(claims[k], claims[i]);
    } else {
      forall k | 0 <= k < i ensures !SamePair(claims[k], claims[i]) {
        assert claims[k] in claims[..i];
      }
    }
  }

  /** Where the first claims of the pairs stand. */
  function FirstIndices(claims: seq<ResolverClaim>): (idx: seq<nat>)
    ensures forall a :: 0 <= a < |idx| ==> idx[a] < |claims|
    ensures forall a, b :: 0 <= a < b < |idx| ==> idx[a] < idx[b]
  {
    if claims == [] then []
    else
      var n := |claims| - 1;
      if IsFirst(claims, n) then FirstIndices(claims[..n]) + [n] else FirstIndices(claims[..n])
  }

  lemma {:induction false} FirstIndexKept(claims: seq<ResolverClaim>, a: nat)
    ensures |FirstIndices(claims)| == |Firsts(claims)|
    ensures a < |Firsts(claims)| ==>
              IsFirst(claims, FirstIndices(claims)[a]) && Firsts(claims)[a] == ToOwner(claims[FirstIndices(claims)[a]])
  {
    if claims != [] {
      var n := |claims| - 1;
      FirstByPairs(claims, n);
      FirstIndexKept(claims[..n], a);
      if a < |Firsts(claims[..n])| {
        FirstOfFront(claims, n, FirstIndices(claims[..n])[a]);
      }
    }
  }

  lemma {:induction false} FirstIndexListed(claims: seq<ResolverClaim>, i: nat) returns (a: nat)
    requires i < |claims| && IsFirst(claims, i)
    ensures a < |FirstIndices(claims)| && FirstIndices(claims)[a] == i
  {
    var n := |claims| - 1;
    if i == n {
      a := |FirstIndices(claims)| - 1;
    } else {
      FirstOfFront(claims, n, i);
      a := FirstIndexListed(claims[..n], i);
    }
  }

  /** distinctClaims keeps exactly the first claim of every (owner, dataResource)
      pair, in the resolver's order. */
  lemma FirstsAreFirst(claims: seq<ResolverClaim>) returns (idx: seq<nat>)
    ensures |idx| == |Firsts(claims)|
    ensures forall a, b :: 0 <= a < b < |idx| ==> idx[a] < idx[b]
    ensures forall a :: 0 <= a < |idx| ==>
              && idx[a] < |claims| && IsFirst(claims, idx[a])
              && var c := claims[idx[a]]; Firsts(claims)[a] == OwnerClaim(c.ownerId, c.dataResource, c.purpose)
    ensures forall i :: 0 <= i < |claims| && IsFirst(claims, i) ==> i in idx
  {
    idx := FirstIndices(claims);
    FirstIndexKept(claims, 0);
    forall a | 0 <= a < |idx| ensures IsFirst(claims, idx[a]) && Firsts(claims)[a] == ToOwner(claims[idx[a]]) {
      FirstIndexKept(claims, a);
    }
    forall i | 0 <= i < |claims| && IsFirst(claims, i) ensures i in idx {
      var a := FirstIndexListed(claims, i);
    }
  }

  lemma {:induction false} FirstOfPair(claims: seq<ResolverClaim>, i: nat) returns (k: nat)
    requires i < |claims|
    ensures k <= i && IsFirst(claims, k) && SamePair(claims[k], claims[i])
  {
    if IsFirst(claims, i) {
      k := i;
    } else {
      var j :| 0 <= j < i && SamePair(claims[j], claims[i]);
      k := FirstOfPair(claims, j);
    }
  }

  lemma FirstIsUnique(claims: seq<ResolverClaim>, i: nat, k: nat)
    requires i < |claims| && k < |claims| && IsFirst(claims, i) && IsFirst(claims, k)
    ensures SamePair(claims[i], claims[k]) ==> i == k
  {
    if i < k {
      assert !SamePair(claims[i], claims[k]);
    } else if k < i {
      assert !SamePair(claims[k], claims[i]);
    }
  }

  /** A claim is checked as it stands exactly when it has the purpose of the first
      claim of its pair. */
  lemma KeptIff(claims: seq<ResolverClaim>, i: nat, k: nat)
    requires i < |claims| && k < |claims| && IsFirst(claims, k) && SamePair(claims[k], claims[i])
    ensures Listed(claims[i], Firsts(claims)) <==> claims[i].purpose == claims[k].purpose
  {
    if claims[i].purpose == claims[k].purpose {
      var a := FirstKept(claims, k);
      assert Firsts(claims)[a] == OwnerClaim(claims[i].ownerId, claims[i].dataResource, claims[i].purpose);
    } else if Listed(claims[i], Firsts(claims)) {
      ListedPurpose(claims, i, k);
    }
  }

  lemma ListedPurpose(claims: seq<ResolverClaim>, i: nat, k: nat)
    requires i < |claims| && k < |claims| && IsFirst(claims, k) && SamePair(claims[k], claims[i])
    requires Listed(claims[i], Firsts(claims))
    ensures claims[i].purpose == claims[k].purpose
  {
    var kept := OwnerClaim(claims[i].ownerId, claims[i].dataResource, claims[i].purpose);
    var b :| 0 <= b < |Firsts(claims)| && Firsts(claims)[b] == kept;
    var j := KeptIsFirst(claims, b);
    FirstIsUnique(claims, j, k);
  }

  lemma FirstKept(claims: seq<ResolverClaim>, k: nat) returns (a: nat)
    requires k < |claims| && IsFirst(claims, k)
    ensures a < |Firsts(claims)| && Firsts(claims)[a] == ToOwner(claims[k])
  {
    a := FirstIndexListed(claims, k);
    FirstIndexKept(claims, a);
  }

  lemma KeptIsFirst(claims: seq<ResolverClaim>, b: nat) returns (j: nat)
    requires b < |Firsts(claims)|
    ensures j < |claims| && IsFirst(claims, j) && Firsts(claims)[b] == ToOwner(claims[j])
  {
    FirstIndexKept(claims, b);
    j := FirstIndices(claims)[b];
  }

  lemma KeptTogether(claims: seq<ResolverClaim>, i: nat, j: nat)
    requires i < j < |claims| && SamePair(claims[i], claims[j])
    requires Listed(claims[i], Firsts(claims)) && Listed(claims[j], Firsts(claims))
    ensures claims[i].purpose == claims[j].purpose
  {
    var k := FirstOfPair(claims, i);
    KeptIff(claims, i, k);
    KeptIff(claims, j, k);
  }

  /** Every claim the resolver named is checked, purpose included, exactly when the
      resolver never names one (owner, dataResource) pair under two purposes: of
      such claims only the first purpose reaches the consent-manager. */
  lemma EveryClaimCheckedIff(claims: seq<ResolverClaim>)
    ensures (forall i :: 0 <= i < |claims| ==> Listed(claims[i], Firsts(claims))) <==>
            (forall i, j :: 0 <= i < j < |claims| && SamePair(claims[i], claims[j]) ==>
               claims[i].purpose == claims[j].purpose)
  {
    if forall i :: 0 <= i < |claims| ==> Listed(claims[i], Firsts(claims)) {
      forall i, j | 0 <= i < j < |claims| && SamePair(claims[i], claims[j])
        ensures claims[i].purpose == claims[j].purpose
      {
        KeptTogether(claims, i, j);
      }
    } else {
      var i :| 0 <= i < |claims| && !Listed(claims[i], Firsts(claims));
      var k := FirstOfPair(claims, i);
      KeptIff(claims, i, k);
      assert k < i;
    }
  }

  lemma {:induction false} FirstsSize(claims: seq<ResolverClaim>)
    ensures |Firsts(claims)| == |PairsOf(claims)|
  {
    if claims != [] {
      var n := |claims| - 1;
      assert claims == claims[..n] + [claims[n]];
      FirstsSize(claims[..n]);
      var before := PairsOf(claims[..n]);
      assert PairsOf(claims) == before + {PairOf(claims[n])};
      if PairOf(claims[n]) in before {
        assert PairsOf(claims) == before;
      }
    }
  }

  // ------------------------------------------------------------- when it allows

  lemma FirstsCount(claims: seq<ResolverClaim>)
    ensures |Firsts(claims)| == |set c | c in claims :: (c.ownerId, c.dataResource)|
  {
    FirstsSize(claims);
    assert PairsOf(claims) == set c | c in claims :: (c.ownerId, c.dataResource);
  }

  /** Both parties have names: the body fits, the token names a consumer that maps to
      a participant, and the provider is known. */
  predicate Identifiable(cfg: Config, x: Inputs, parties: Parties) {
    && x.requestId.Some? && x.context.Some? && x.body.Ok? && x.body.value <= cfg.maxResolveBodyBytes
    && var did := ClaimPath.Consumer(x.context.value.claims, cfg.consumerClaim);
       did.Ok? && x.mapConsumer(did.value) == Ok(parties.consumer) && x.provider == Ok(parties.provider)
  }

  /** The resolver is asked about exactly these parties, and only when both have
      names. */
  lemma AskedAboutIff(cfg: Config, x: Inputs, parties: Parties)
    ensures ResolverAskedAbout(cfg, x) == Some(parties) <==> Identifiable(cfg, x, parties)
  {
  }

  /** What an evaluation on the real state reads: the context stored for this very
      correlation id at most a minute ago; the mapping of the consumer's DID; the
      provider of an unforced credentials call after it; and the replies as they came. */
  lemma InputsComeFrom(cfg: Config, requestId: Option<string>, s: ContextStore.Store, now: int,
                       digest: string -> string, w: World, client: Client, r: Replies, did: string)
    ensures var x := Gathered(cfg, requestId, ContextOf(requestId, s, now), digest, w, client, r);
            var (mapped, consumer) := SelfDescriptionByDID(digest, client, w, did, r.mapping);
            && x.requestId == requestId && x.body == r.body && x.resolve == r.resolve && x.answer == r.answer
            && (x.context.Some? <==> requestId.Some? && requestId.value in s.entries
                                     && now - s.entries[requestId.value].storedAt <= 60 * SECOND)
            && (x.context.Some? ==> x.context.value == s.entries[requestId.value].ctx)
            && x.mapConsumer(did) == consumer
            && (x.context.Some? && ClaimPath.Consumer(x.context.value.claims, cfg.consumerClaim) == Ok(did) ==>
                  match CredentialsCall(digest, client, mapped.creds, false, r.me).1
                  case Err(e) => x.provider == Err(e)
                  case Ok((_, provider)) => x.provider == Ok(provider))
  {
  }

  predicate ResolverAnswered(cfg: Config, x: Inputs) {
    ResolverAskedAbout(cfg, x).Some? && x.resolve(ResolverAskedAbout(cfg, x).value).Ok?
  }

  /** Claims the gate can check: there are some, each has an owner, they have the
      purposes the operator requires, and there are no more than the cap. */
  predicate Checkable(cfg: Config, claims: seq<ResolverClaim>) {
    && claims != [] && (forall c :: c in claims ==> c.ownerId != "")
    && (cfg.requirePurpose ==> forall d :: d in Firsts(claims) ==> d.purpose != "")
    && |set c | c in claims :: (c.ownerId, c.dataResource)| <= cfg.maxOwnersPerResponse
  }

  /** The gate is reached exactly when the resolver requires consent and names claims
      it can check, and it checks what was asked: this request, this consumer, the
      first claim of every pair, each with its own answer. */
  lemma GateReachedIff(cfg: Config, x: Inputs)
    ensures Prologue(cfg, x).Ok? <==>
            && ResolverAnswered(cfg, x)
            && var resolution := x.resolve(ResolverAskedAbout(cfg, x).value).value;
               resolution.consentRequired && Checkable(cfg, resolution.claims)
    ensures Prologue(cfg, x).Ok? ==>
              var job, parties, ctx := Prologue(cfg, x).value, ResolverAskedAbout(cfg, x).value, x.context.value;
              && job.key == x.requestId.value && job.path == ctx.path && job.verb == ctx.verb
              && job.consumer == parties.consumer && job.claims == Firsts(x.resolve(parties).value.claims)
              && |job.answers| == |job.claims|
              && forall i :: 0 <= i < |job.claims| ==> job.answers[i] == x.answer(job.claims[i], parties.consumer)
  {
    if ResolverAnswered(cfg, x) {
      FirstsCount(x.resolve(ResolverAskedAbout(cfg, x).value).value.claims);
    }
  }

  predicate ShouldAllow(cfg: Config, x: Inputs) {
    ResolverAnswered(cfg, x) &&
    var parties := ResolverAskedAbout(cfg, x).value;
    var resolution := x.resolve(parties).value;
    !resolution.consentRequired
    || (Checkable(cfg, resolution.claims)
        && forall d :: d in Firsts(resolution.claims) ==> x.answer(d, parties.consumer).Granted?)
  }

  lemma JobGrantsIff(cfg: Config, x: Inputs)
    requires Prologue(cfg, x).Ok?
    ensures AllGranted(Prologue(cfg, x).value) <==> ShouldAllow(cfg, x)
  {
    GateReachedIff(cfg, x);
    var job := Prologue(cfg, x).value;
    assert forall d :: d in job.claims <==> exists i :: 0 <= i < |job.claims| && job.claims[i] == d;
  }

  /** With fail_open off and the phase within its budget, every schedule allows
      exactly when the resolver says no consent is required, or it names owners who
      all have granted it. */
  lemma AllowsIff(cfg: Config, x: Inputs, run: seq<Action>)
    requires Feasible(cfg, x, run) && Expire !in run && cfg.failOpen != Some(true)
    ensures Evaluate(cfg, x, run).decision == Allow <==> ShouldAllow(cfg, x)
  {
    if Prologue(cfg, x).Ok? {
      JobIsValid(cfg, x);
      FailClosedIsConjunction(cfg, Prologue(cfg, x).value, run);
      JobGrantsIff(cfg, x);
    } else {
      PrologueAllowsIff(cfg, x);
    }
  }

  lemma PrologueAllowsIff(cfg: Config, x: Inputs)
    requires Prologue(cfg, x).Err? && !cfg.IsFailOpen()
    ensures Prologue(cfg, x).error.decision == Allow <==> ShouldAllow(cfg, x)
  {
    GateReachedIff(cfg, x);
  }

  // ------------------------------------------------------------ what an outcome says

  /** Why no party could be named. */
  predicate PartyCause(cfg: Config, x: Inputs, ctx: ContextStore.RequestContext, reason: string) {
    var did := ClaimPath.Consumer(ctx.claims, cfg.consumerClaim);
    var fits := x.body.Ok? && x.body.value <= cfg.maxResolveBodyBytes;
    || (reason == "read upstream body" && x.body.Err?)
    || (reason == "upstream body too large" && x.body.Ok? && !fits)
    || (reason == "no consuming participant identified" && fits && did.Err?)
    || (reason == "consumer participant lookup failed" && fits && did.Ok? && x.mapConsumer(did.value).Err?)
    || (reason == "provider self-description lookup failed" && fits && did.Ok? && x.mapConsumer(did.value).Ok?
        && x.provider.Err?)
  }

  /** Why the resolver's reply led to no check. */
  predicate ReplyCause(cfg: Config, reply: Result<Resolution, Error>, reason: string) {
    if reply.Err? then reason == "owner resolver error"
    else if !reply.value.consentRequired then reason == "no consent required"
    else
      var claims := reply.value.claims;
      var owned := forall c :: c in claims ==> c.ownerId != "";
      var unscoped := cfg.requirePurpose && exists d :: d in Firsts(claims) && d.purpose == "";
      || (reason == "consent required but no data owner resolved" && claims == [])
      || (reason == "resolved claim without a data owner" && !owned)
      || (reason == "resolved claim without a processing purpose" && claims != [] && owned && unscoped)
      || (reason == "too many data owners" && claims != [] && owned && !unscoped
         && |Firsts(claims)| > cfg.maxOwnersPerResponse)
  }

  /** Why an evaluation that ends before the gate ended there: each reason has its own
      cause, and the causes exclude each other. */
  predicate NamesCause(cfg: Config, x: Inputs, reason: string) {
    if x.requestId.None? then reason == "no request correlation id"
    else if x.context.None? then reason == "no request context"
    else match ResolverAskedAbout(cfg, x)
      case None => PartyCause(cfg, x, x.context.value, reason)
      case Some(parties) => ReplyCause(cfg, x.resolve(parties), reason)
  }

  /** An evaluation that ends before the gate says why, and blames nobody: it carries
      the correlation id and a fail mode, by policy exactly on an outage, and only
      "no consent required" is an ordinary allow of the request as a whole. */
  lemma EarlyOutcomeTells(cfg: Config, x: Inputs, run: seq<Action>)
    requires Feasible(cfg, x, run) && Prologue(cfg, x).Err?
    ensures var v := Evaluate(cfg, x, run);
            && NamesCause(cfg, x, v.reason)
            && v.requestId == (if x.requestId.Some? then x.requestId.value else "")
            && v.subject == "" && v.checked == []
            && if ResolverAnswered(cfg, x) && !x.resolve(ResolverAskedAbout(cfg, x).value).value.consentRequired
               then && v.decision == Allow && v.failMode.None?
                    && v.resource == x.context.value.path && v.verb == x.context.value.verb
               else && v.failMode == Some(if Outage(cfg, x) then ByPolicy else AlwaysClosed)
                    && v.resource == "" && v.verb == ""
  {
    if x.requestId.Some? && x.context.Some? {
      var ctx := x.context.value;
      var named := PartiesOrProblem(cfg.maxResolveBodyBytes, x, ClaimPath.Consumer(ctx.claims, cfg.consumerClaim));
      PartiesOutage(cfg, x);
      if named.Ok? {
        assert ResolverAskedAbout(cfg, x) == Some(named.value);
        EarlyReplyTells(cfg, x.resolve(named.value));
      } else {
        assert ResolverAskedAbout(cfg, x) == None;
        EarlyPartiesTell(cfg, x, ctx);
      }
    }
  }

  lemma EarlyPartiesTell(cfg: Config, x: Inputs, ctx: ContextStore.RequestContext)
    ensures var named := PartiesOrProblem(cfg.maxResolveBodyBytes, x,
                                          ClaimPath.Consumer(ctx.claims, cfg.consumerClaim));
            named.Err? ==> PartyCause(cfg, x, ctx, named.error.reason)
  {
  }

  lemma EarlyReplyTells(cfg: Config, reply: Result<Resolution, Error>)
    ensures match ClaimsOrProblem(cfg.requirePurpose, cfg.maxOwnersPerResponse, reply)
            case Err(p) => ReplyCause(cfg, reply, p.reason) && (p.mode == ByPolicy <==> reply.Err?)
                           && (reply.Ok? ==> reply.value.consentRequired)
            case Ok(None) => reply.Ok? && !reply.value.consentRequired
            case Ok(Some(_)) => reply.Ok?
  {
  }

  /** Whatever an evaluation ends with, it names this request: the correlation id, the
      request's verb once the gate is reached, and the request's path, or for a refusal
      the refused claim's own resource, next to the owner and the reason of that claim's
      own check. */
  lemma OutcomeNames(cfg: Config, x: Inputs, run: seq<Action>)
    requires Feasible(cfg, x, run) && Prologue(cfg, x).Ok?
    ensures var v, ctx := Evaluate(cfg, x, run), x.context.value;
            && v.requestId == x.requestId.value && v.verb == ctx.verb
            && (v.failMode.Some? || v.decision == Allow ==> v.resource == ctx.path)
    ensures var v, parties := Evaluate(cfg, x, run), ResolverAskedAbout(cfg, x).value;
            v.decision == Deny && v.failMode.None? ==>
              exists d :: d in Firsts(x.resolve(parties).value.claims) && Refuses(x, d, parties.consumer, v)
  {
    GateReachedIff(cfg, x);
    JobIsValid(cfg, x);
    var job := Prologue(cfg, x).value;
    OutcomeOfGate(cfg, job, run);
    var v := Verdict(cfg, job, run);
    if v.decision == Deny && v.failMode.None? {
      var d := DenyNamesRefusal(cfg, job, run);
      assert job.claims[d] in job.claims;
      assert Refuses(x, job.claims[d], job.consumer, v);
    }
  }

  /** The outcome is the refusal of this claim's owner. */
  predicate Refuses(x: Inputs, d: OwnerClaim, consumer: string, v: Outcome) {
    && x.context.Some? && x.answer(d, consumer) == Refused(v.reason) && v.subject == d.owner
    && v.resource == if d.dataResource != "" then d.dataResource else x.context.value.path
  }

  lemma OutcomeOfGate(cfg: Config, job: Job, run: seq<Action>)
    requires job.Valid() && Completes(job, run)
    ensures var v := Verdict(cfg, job, run);
            && v.requestId == job.key && v.verb == job.verb
            && (v.failMode.Some? || v.decision == Allow ==> v.resource == job.path)
  {
    var end := End(job, run);
    var refusal, live := First(end.results, r => IsRefusal(r)),
        First(end.results, r => IsLiveError(PhaseError(end), r));
    if refusal.Some? {
      LowestRefusalNamed(cfg, job, run, refusal.value);
    } else if live.Some? {
      LowestLiveErrorNamed(cfg, job, run, live.value);
    } else {
      VerdictNamesFirstProblem(cfg, job, run);
    }
  }

  // ---------------------------------------------------------------- fail policy

  /** What switching fail_open on may do to an outcome. */
  predicate FlipsPolicyOnly(off: Outcome, on: Outcome) {
    && (off.failMode.Some? ==> off.decision == Deny)
    && on == off.(decision := if off.failMode == Some(ByPolicy) then Allow else off.decision)
  }

  lemma VerdictFlips(cfg: Config, open: Config, job: Job, run: seq<Action>)
    requires job.Valid() && Completes(job, run) && !cfg.IsFailOpen() && open.IsFailOpen()
    ensures FlipsPolicyOnly(Verdict(cfg, job, run), Verdict(open, job, run))
  {
    RefusalsCarryOutcomes(job, End(job, run));
  }

  lemma FailureFlips(cfg: Config, p: Problem, key: string)
    requires !cfg.IsFailOpen()
    ensures FlipsPolicyOnly(Failure(cfg, p, key), Failure(cfg.(failOpen := Some(true)), p, key))
  {
  }

  lemma PartiesFlip(cfg: Config, x: Inputs, key: string, ctx: ContextStore.RequestContext)
    requires !cfg.IsFailOpen()
    ensures var off, on := NamedParties(cfg, x, key, ctx), NamedParties(cfg.(failOpen := Some(true)), x, key, ctx);
            if off.Ok? then on == off else on.Err? && FlipsPolicyOnly(off.error, on.error)
  {
    var named := PartiesOrProblem(cfg.maxResolveBodyBytes, x, ClaimPath.Consumer(ctx.claims, cfg.consumerClaim));
    if named.Err? {
      FailureFlips(cfg, named.error, key);
    }
  }

  lemma ResolverFlips(cfg: Config, x: Inputs, key: string, ctx: ContextStore.RequestContext, consumer: string,
                      reply: Result<Resolution, Error>)
    requires !cfg.IsFailOpen()
    ensures var off := AfterResolver(cfg, x, key, ctx, consumer, reply);
            var on := AfterResolver(cfg.(failOpen := Some(true)), x, key, ctx, consumer, reply);
            if off.Ok? then on == off else on.Err? && FlipsPolicyOnly(off.error, on.error)
  {
    var claims := ClaimsOrProblem(cfg.requirePurpose, cfg.maxOwnersPerResponse, reply);
    if claims.Err? {
      FailureFlips(cfg, claims.error, key);
    }
  }

  /** Switching fail_open on changes nothing but the decision of by-policy
      outcomes, from deny to allow. Everything structural keeps denying. */
  lemma FailOpenFlipsPolicyOnly(cfg: Config, x: Inputs, run: seq<Action>)
    requires !cfg.IsFailOpen() && Feasible(cfg, x, run)
    ensures var open := cfg.(failOpen := Some(true));
            Feasible(open, x, run) && FlipsPolicyOnly(Evaluate(cfg, x, run), Evaluate(open, x, run))
  {
    var open := cfg.(failOpen := Some(true));
    PrologueFlips(cfg, x);
    if Prologue(cfg, x).Ok? {
      JobIsValid(cfg, x);
      VerdictFlips(cfg, open, Prologue(cfg, x).value, run);
    }
  }

  lemma PrologueFlips(cfg: Config, x: Inputs)
    requires !cfg.IsFailOpen()
    ensures var off, on := Prologue(cfg, x), Prologue(cfg.(failOpen := Some(true)), x);
            if off.Ok? then on == off else on.Err? && FlipsPolicyOnly(off.error, on.error)
  {
    if x.requestId.Some? && x.context.Some? {
      var key, ctx := x.requestId.value, x.context.value;
      PartiesFlip(cfg, x, key, ctx);
      var named := NamedParties(cfg, x, key, ctx);
      if named.Ok? {
        ResolverFlips(cfg, x, key, ctx, named.value.consumer, x.resolve(named.value));
      }
    }
  }

  /** A dependency the operator's policy governs was unavailable: the body could not
      be read, a party could not be looked up, or the resolver failed. */
  predicate Outage(cfg: Config, x: Inputs) {
    && x.requestId.Some? && x.context.Some?
    && (x.body.Err? ||
        (x.body.value <= cfg.maxResolveBodyBytes &&
         var did := ClaimPath.Consumer(x.context.value.claims, cfg.consumerClaim);
         did.Ok? &&
         var consumer := x.mapConsumer(did.value);
         if consumer.Err? then consumer.error !in {NoCredentials, NotRegistered}
         else if x.provider.Err? then x.provider.error !in {NoCredentials, NotRegistered}
         else x.resolve(Parties(consumer.value, x.provider.value)).Err?))
  }

  lemma PartiesOutage(cfg: Config, x: Inputs)
    requires x.requestId.Some? && x.context.Some?
    ensures match PartiesOrProblem(cfg.maxResolveBodyBytes, x,
                                   ClaimPath.Consumer(x.context.value.claims, cfg.consumerClaim))
            case Err(p) => Outage(cfg, x) <==> p.mode == ByPolicy
            case Ok(p) => Outage(cfg, x) <==> x.resolve(p).Err?
  {
  }

  /** With fail_open on, an evaluation that ends before the owner checks releases
      the data exactly on an outage or when no consent is required. A lost request,
      missing credentials, an unregistered or unnamed consumer, an oversized body
      and unusable claims all deny. */
  lemma FailOpenReleasesIff(cfg: Config, x: Inputs, run: seq<Action>)
    requires cfg.failOpen == Some(true) && Feasible(cfg, x, run) && Prologue(cfg, x).Err?
    ensures Evaluate(cfg, x, run).decision == Allow <==>
            || Outage(cfg, x)
            || (ResolverAnswered(cfg, x) && !x.resolve(ResolverAskedAbout(cfg, x).value).value.consentRequired)
  {
    if x.requestId.Some? && x.context.Some? {
      PartiesOutage(cfg, x);
      var named := PartiesOrProblem(cfg.maxResolveBodyBytes, x,
                                    ClaimPath.Consumer(x.context.value.claims, cfg.consumerClaim));
      if named.Ok? {
        assert ResolverAskedAbout(cfg, x) == Some(named.value);
      } else {
        assert ResolverAskedAbout(cfg, x) == None;
      }
    }
  }

  /** A response that cannot be matched with its request is denied under every
      configuration, schedule and dependency, and the resolver is not asked: nothing
      but the missing request decides. */
  lemma LostRequestDenies(cfg: Config, x: Inputs, run: seq<Action>, other: Config, y: Inputs, otherRun: seq<Action>)
    requires x.requestId.None? || x.context.None?
    requires y.requestId == x.requestId && (x.requestId.Some? ==> y.context.None?)
    requires Feasible(cfg, x, run) && Feasible(other, y, otherRun)
    ensures Evaluate(cfg, x, run).decision == Deny && ResolverAskedAbout(cfg, x).None?
    ensures Evaluate(other, y, otherRun) == Evaluate(cfg, x, run)
  {
  }

  /** cfg with require_purpose possibly set and the caps possibly lowered. */
  predicate Stricter(strict: Config, cfg: Config) {
    && strict == cfg.(requirePurpose := strict.requirePurpose, maxResolveBodyBytes := strict.maxResolveBodyBytes,
                      maxOwnersPerResponse := strict.maxOwnersPerResponse)
    && (cfg.requirePurpose ==> strict.requirePurpose)
    && strict.maxResolveBodyBytes <= cfg.maxResolveBodyBytes
    && strict.maxOwnersPerResponse <= cfg.maxOwnersPerResponse
  }

  /** The stricter step ends as the other does, or with a denial of its own. */
  predicate SameOrDenied<T(==)>(strict: Result<T, Outcome>, other: Result<T, Outcome>) {
    strict == other || (strict.Err? && strict.error.decision == Deny)
  }

  lemma PartiesStricter(strict: Config, cfg: Config, x: Inputs, key: string, ctx: ContextStore.RequestContext)
    requires Stricter(strict, cfg)
    ensures SameOrDenied(NamedParties(strict, x, key, ctx), NamedParties(cfg, x, key, ctx))
  {
  }

  lemma ResolverStricter(strict: Config, cfg: Config, x: Inputs, key: string, ctx: ContextStore.RequestContext,
                         consumer: string, reply: Result<Resolution, Error>)
    requires Stricter(strict, cfg)
    ensures SameOrDenied(AfterResolver(strict, x, key, ctx, consumer, reply),
                         AfterResolver(cfg, x, key, ctx, consumer, reply))
  {
  }

  lemma PrologueStricter(strict: Config, cfg: Config, x: Inputs)
    requires Stricter(strict, cfg)
    ensures SameOrDenied(Prologue(strict, x), Prologue(cfg, x))
  {
    if x.requestId.Some? && x.context.Some? {
      var key, ctx := x.requestId.value, x.context.value;
      PartiesStricter(strict, cfg, x, key, ctx);
      var named := NamedParties(strict, x, key, ctx);
      if named.Ok? {
        ResolverStricter(strict, cfg, x, key, ctx, named.value.consumer, x.resolve(named.value));
      }
    }
  }

  /** Setting require_purpose or lowering a cap never turns a deny into an allow,
      under either fail policy, for the same answers and the same schedule. */
  lemma StricterNeverAllows(strict: Config, cfg: Config, x: Inputs, run: seq<Action>)
    requires Stricter(strict, cfg) && Feasible(cfg, x, run)
    requires Evaluate(cfg, x, run).decision == Deny
    ensures Feasible(strict, x, run) && Evaluate(strict, x, run).decision == Deny
  {
    PrologueStricter(strict, cfg, x);
    if Prologue(strict, x).Ok? {
      JobIsValid(cfg, x);
      DecisionOfRun(cfg, Prologue(cfg, x).value, run);
      DecisionOfRun(strict, Prologue(cfg, x).value, run);
    }
  }

  // ----------------------------------------------------------- what is consulted

  /** The resolver is asked at most about one pair of parties: two resolvers that
      agree on it, or any two when it is not asked, lead to the same outcome. */
  lemma OnlyNamedPartiesMatter(cfg: Config, x: Inputs, other: Parties -> Result<Resolution, Error>)
    requires ResolverAskedAbout(cfg, x).Some? ==>
               other(ResolverAskedAbout(cfg, x).value) == x.resolve(ResolverAskedAbout(cfg, x).value)
    ensures Prologue(cfg, x.(resolve := other)) == Prologue(cfg, x)
  {
  }

  /** The inputs of the same response had the request phase kept these claims. */
  function WithClaims(x: Inputs, claims: ClaimPath.Claims): Inputs
    requires x.context.Some?
  {
    x.(context := Some(x.context.value.(claims := claims)))
  }

  /** Decoding only the configured token claims in the request phase changes no
      decision in the response phase, whatever the token, the dependencies and the
      schedule, for every consumer path whose first segment names a claim. */
  lemma ProjectionChangesNoDecision(cfg: Config, x: Inputs, all: ClaimPath.Claims, run: seq<Action>)
    requires x.context.Some? && cfg.consumerClaim != "" && ClaimPath.ClaimPathRoot(cfg.consumerClaim) != ""
    requires Feasible(cfg, WithClaims(x, all), run)
    ensures var kept := ClaimPath.Projected(all, ClaimPath.KeysToDecode(cfg.claimsToForward, cfg.consumerClaim));
            Feasible(cfg, WithClaims(x, kept), run)
            && Evaluate(cfg, WithClaims(x, kept), run) == Evaluate(cfg, WithClaims(x, all), run)
  {
    var kept := ClaimPath.Projected(all, ClaimPath.KeysToDecode(cfg.claimsToForward, cfg.consumerClaim));
    ClaimPathTheorems.NamedRootIsSafe(cfg.claimsToForward, cfg.consumerClaim);
    assert ClaimPathTheorems.Agree(ClaimPath.Consumer(kept, cfg.consumerClaim),
                                   ClaimPath.Consumer(all, cfg.consumerClaim));
    var found, foundAll := ClaimPath.Consumer(kept, cfg.consumerClaim), ClaimPath.Consumer(all, cfg.consumerClaim);
    assert PartiesOrProblem(cfg.maxResolveBodyBytes, WithClaims(x, kept), found)
        == PartiesOrProblem(cfg.maxResolveBodyBytes, WithClaims(x, all), foundAll);
    assert Prologue(cfg, WithClaims(x, kept)) == Prologue(cfg, WithClaims(x, all));
  }

  // ------------------------------------------- the gate's answers, as checks give them

  /** What a goroutine does with CheckConsent's result. */
  function AnswerOf(r: Result<Response, Error>): Answer {
    match r
    case Err(e) => Failed(e)
    case Ok(response) => if response.decision == Allow then Granted(response.reason) else Refused(response.reason)
  }

  ghost predicate Uncut(x: CheckReplies) {
    && x.exchange.token != NoReply(CutOff) && x.exchange.me != NoReply(CutOff)
    && (forall provider, subject :: x.search.search(provider, subject) != NoReply(CutOff))
    && (forall identifier :: x.listings(identifier) != NoReply(CutOff))
  }

  /** A consent that covers claim i of the job: granted, naming the consumer, and
      covering the claim's purpose and data resource where it states them. */
  predicate Covers(r: ConsentRecord, job: Job, i: nat)
    requires i < |job.claims|
  {
    var claim := job.claims[i];
    && r.status == "granted"
    && job.consumer in CacheTheorems.NamedConsumers(r)
    && (claim.purpose == "" || exists p :: p in r.purposes && claim.purpose in {p.purpose, p.id})
    && (claim.dataResource == "" || claim.dataResource in r.data)
  }

  /** The attempt had credentials, identified the claim's owner, and found such a
      consent under that very identifier. */
  predicate ShownCover(digest: string -> string, c: Client, job: Job, i: nat, a: CacheTheorems.Attempt)
    requires i < |job.claims|
  {
    var auth := CredentialsCall(digest, c, a.before.creds, a.force, a.replies.exchange).1;
    auth.Ok? &&
    var found := ResolveIdentifier(digest, c, a.before.ids, auth.value.1, job.claims[i].owner, a.replies.search).1;
    found.Ok? && found.value.Some? &&
    var listing := a.replies.listings(found.value.value);
    listing.Body? && exists r :: r in listing.value && Covers(r, job, i)
  }

  lemma AuthorizesIffCovers(r: ConsentRecord, job: Job, i: nat)
    requires i < |job.claims|
    ensures Authorizes(r, RequestFor(job, i)) <==> Covers(r, job, i)
  {
    CacheTheorems.GrantedToIff(r, job.consumer);
  }

  lemma ShownIffCover(digest: string -> string, c: Client, job: Job, i: nat, a: CacheTheorems.Attempt)
    requires i < |job.claims|
    ensures CacheTheorems.ShownConsent(digest, c, RequestFor(job, i), a) <==> ShownCover(digest, c, job, i, a)
  {
    forall r ensures Authorizes(r, RequestFor(job, i)) <==> Covers(r, job, i) {
      AuthorizesIffCovers(r, job, i);
    }
  }

  /** The attempt established that the owner of claim i gave no consent that covers it:
      the service knows no such owner, or listed the owner's consents and none covers. */
  ghost predicate ShownNoCover(digest: string -> string, c: Client, job: Job, i: nat, a: CacheTheorems.Attempt)
    requires i < |job.claims|
  {
    var req, auth := RequestFor(job, i), CacheTheorems.AuthOf(digest, c, a);
    auth.Ok? &&
    (|| CacheTheorems.NobodyKnown(digest, c, req, a, auth.value.1)
     || exists id :: CacheTheorems.KnownAs(digest, c, req, a, auth.value.1, id) && a.replies.listings(id).Body?
                     && forall r :: r in a.replies.listings(id).value ==> !Covers(r, job, i))
  }

  lemma NoConsentIffNoCover(digest: string -> string, c: Client, job: Job, i: nat, a: CacheTheorems.Attempt)
    requires i < |job.claims|
    ensures ShownNoCover(digest, c, job, i, a)
            <==> exists reason :: CacheTheorems.NoConsent(digest, c, RequestFor(job, i), a, reason)
  {
    var req, auth := RequestFor(job, i), CacheTheorems.AuthOf(digest, c, a);
    forall r ensures Authorizes(r, req) <==> Covers(r, job, i) {
      AuthorizesIffCovers(r, job, i);
    }
    if ShownNoCover(digest, c, job, i, a) {
      if CacheTheorems.NobodyKnown(digest, c, req, a, auth.value.1) {
        assert CacheTheorems.NoConsent(digest, c, req, a, "no user identifier for subject");
      } else {
        assert CacheTheorems.NoConsent(digest, c, req, a, "no granted consent");
      }
    }
  }

  /** A refusal is exactly the answer of a check whose last attempt was shown that the
      claim's owner gave no covering consent, and whoever enforces such an answer
      denies: not even fail_open releases the data, before or after the deadline. */
  lemma NoCoverDenies(cfg: Config, job: Job, run: seq<Action>, i: nat,
                      digest: string -> string, c: Client, w: World, first: CheckReplies, second: CheckReplies)
    requires job.Valid() && Completes(job, run) && i < |job.claims| && job.claims[i].owner != "" && job.consumer != ""
    requires job.answers[i] == AnswerOf(CheckConsent(digest, c, w, RequestFor(job, i), first, second).1)
    ensures job.answers[i].Refused? <==>
            ShownNoCover(digest, c, job, i, CacheTheorems.LastAttempt(digest, c, w, RequestFor(job, i), first, second))
    ensures job.answers[i].Refused? && End(job, run).results[i] == Written(job, i, job.answers[i]) ==>
              Verdict(cfg, job, run).decision == Deny
  {
    var req := RequestFor(job, i);
    CacheTheorems.CheckConsentDeniesIff(digest, c, w, req, first, second);
    NoConsentIffNoCover(digest, c, job, i, CacheTheorems.LastAttempt(digest, c, w, req, first, second));
    if job.answers[i].Refused? && End(job, run).results[i] == Written(job, i, job.answers[i]) {
      WrittenRefusalDenies(cfg, job, run, i);
    }
  }

  /** A check that no sibling cut off answers by itself: never with the cancellation
      error, never with the sentinel, with a grant exactly when the deciding attempt was
      shown, among the consents of the claim's owner, one that covers this very claim
      and consumer, and with a refusal exactly when it was shown that there is none. */
  lemma UncutCheckAnswersItself(digest: string -> string, c: Client, w: World, job: Job, i: nat,
                                first: CheckReplies, second: CheckReplies)
    requires i < |job.claims| && job.claims[i].owner != "" && job.consumer != ""
    requires Uncut(first) && Uncut(second)
    ensures var req := RequestFor(job, i);
            var answer := AnswerOf(CheckConsent(digest, c, w, req, first, second).1);
            var last := CacheTheorems.LastAttempt(digest, c, w, req, first, second);
            && answer != Failed(Canceled) && answer != Failed(Unauthorized)
            && (answer.Granted? <==> ShownCover(digest, c, job, i, last))
            && (answer.Refused? <==> ShownNoCover(digest, c, job, i, last))
  {
    var req := RequestFor(job, i);
    CacheTheorems.CheckConsentDeniesIff(digest, c, w, req, first, second);
    NoConsentIffNoCover(digest, c, job, i, CacheTheorems.LastAttempt(digest, c, w, req, first, second));
    CacheTheorems.CheckConsentAllowsIff(digest, c, w, req, first, second);
    ShownIffCover(digest, c, job, i, CacheTheorems.LastAttempt(digest, c, w, req, first, second));
    AttemptUncut(digest, c, w, req, false, first);
    AttemptUncut(digest, c, Check(digest, c, w, req, false, first).0, req, true, second);
  }

  lemma AttemptUncut(digest: string -> string, c: Client, w: World, req: ConsentRequest, force: bool, x: CheckReplies)
    requires Uncut(x)
    ensures Check(digest, c, w, req, force, x).1 != Err(Canceled)
  {
  }

  /** Check i is the question about claim i, and if it grants, that is how this check
      ended among all the other calls. */
  predicate Answers(job: Job, i: nat, r: CallRuns.Request, stage: CallRuns.Stage)
    requires i < |job.claims| == |job.answers|
  {
    && r.CheckRequest? && r.req == RequestFor(job, i)
    && (job.answers[i].Granted? ==> stage.Checked? && AnswerOf(stage.result) == job.answers[i])
  }

  /** Why check i may grant: the attempt it last made listed the consents of an
      identifier and one of them covers claim i; the identifier is the one a search
      really made for this claim's owner, with this credential and provider, had found,
      in this attempt or stored under sixty seconds before it consulted the cache. */
  predicate OwnerConsented(requests: seq<CallRuns.Request>, s: CallRuns.System, job: Job, i: nat,
                           finder: CallRuns.Search, f: CacheTheorems.Finding)
    requires i < |job.claims|
  {
    && i < |requests| == |s.stages| && requests[i].CheckRequest?
    && s.stages[i].Checked? && s.stages[i].last.Some? && s.stages[i].last.value.Listed?
    && var last := s.stages[i].last.value;
       var replies := CallRuns.AttemptOf(requests[i], last.force);
       var listing := replies.listings(last.identifier);
       && listing.Body? && (exists c :: c in listing.value && Covers(c, job, i))
       && CallRuns.FoundBy(requests, s, finder, f)
       && f.id == requests[i].client.id && f.providerSD == last.providerSD
       && f.subject == job.claims[i].owner && f.identifier == last.identifier
       && (finder == CallRuns.Search(i, last.force) || replies.search.consultedAt < f.at + 60 * SECOND)
  }

  /** Some search and finding explain the grant of check i. */
  ghost predicate SomeOwnerConsented(requests: seq<CallRuns.Request>, s: CallRuns.System, job: Job, i: nat)
    requires i < |job.claims|
  {
    exists finder, f :: OwnerConsented(requests, s, job, i, finder, f)
  }

  lemma GrantRestsOnConsent(digest: string -> string, requests: seq<CallRuns.Request>, turns: seq<nat>, job: Job,
                            i: nat)
    returns (finder: CallRuns.Search, f: CacheTheorems.Finding)
    requires CacheKeys.Fingerprints(digest) && CallRuns.AllPlain(requests)
    requires i < |requests| && i < |job.claims| == |job.answers|
    requires CallRuns.After(digest, requests, CallRuns.Initial(requests), turns).Some?
    requires var s := CallRuns.After(digest, requests, CallRuns.Initial(requests), turns).value;
             |s.stages| == |requests| && Answers(job, i, requests[i], s.stages[i])
    requires job.answers[i].Granted?
    ensures var s := CallRuns.After(digest, requests, CallRuns.Initial(requests), turns).value;
            OwnerConsented(requests, s, job, i, finder, f)
  {
    finder, f := CallRuns.AllowedCheckRests(digest, requests, turns, i);
    var s := CallRuns.After(digest, requests, CallRuns.Initial(requests), turns).value;
    var last := s.stages[i].last.value;
    var listing := CallRuns.AttemptOf(requests[i], last.force).listings(last.identifier);
    var c :| c in listing.value && Authorizes(c, RequestFor(job, i));
    AuthorizesIffCovers(c, job, i);
    assert c in listing.value && Covers(c, job, i);
  }

  /** The end to end guarantee: if any schedule of the gate allows within the budget
      without invoking the fail policy, then for every claim the claim's own check was
      shown, among the consents of the claim's own owner, one that covers it, however
      the checks' sections interleaved with each other and with any other calls on the
      shared caches. */
  lemma AllowRestsOnConsents(cfg: Config, job: Job, run: seq<Action>, digest: string -> string,
                             requests: seq<CallRuns.Request>, turns: seq<nat>)
    requires job.Valid() && Completes(job, run) && Expire !in run
    requires Verdict(cfg, job, run).decision == Allow && Verdict(cfg, job, run).failMode.None?
    requires CacheKeys.Fingerprints(digest) && CallRuns.AllPlain(requests) && |job.claims| <= |requests|
    requires CallRuns.After(digest, requests, CallRuns.Initial(requests), turns).Some?
    requires var s := CallRuns.After(digest, requests, CallRuns.Initial(requests), turns).value;
             && |s.stages| == |requests|
             && forall i :: 0 <= i < |job.claims| ==> Answers(job, i, requests[i], s.stages[i])
    ensures var s := CallRuns.After(digest, requests, CallRuns.Initial(requests), turns).value;
            forall i :: 0 <= i < |job.claims| ==> SomeOwnerConsented(requests, s, job, i)
  {
    PlainAllowAskedEveryone(cfg, job, run);
    var s := CallRuns.After(digest, requests, CallRuns.Initial(requests), turns).value;
    forall i | 0 <= i < |job.claims| ensures SomeOwnerConsented(requests, s, job, i) {
      var finder, f := GrantRestsOnConsent(digest, requests, turns, job, i);
    }
  }
}
