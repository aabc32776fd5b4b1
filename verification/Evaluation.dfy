/** The decision for one response: correlate, resolve both parties, ask the owner
    resolver, reduce its claims, and run the gate. Dependencies are inputs. */
module Evaluation {
  import opened Wrappers
  import opened Outcomes
  import opened OwnerGate
  import opened GateTheorems
  import ClaimPath
  import opened ContextStore
  import opened ConsentClient
  import opened ConsentCaches
  import CacheTheorems

  /** One ownership requirement the resolver found in the data. */
  datatype ResolverClaim = ResolverClaim(ownerId: string, dataResource: string, purpose: string)

  datatype Resolution = Resolution(consentRequired: bool, claims: seq<ResolverClaim>)

  datatype Parties = Parties(consumer: string, provider: string)

  /** Everything one evaluation reads. */
  datatype Inputs = Inputs(
    requestId: Option<string>,
    context: Option<RequestContext>,
    body: Result<nat, Error>,
    mapConsumer: string -> Result<string, Error>,
    provider: Result<string, Error>,
    resolve: Parties -> Result<Resolution, Error>,
    answer: (OwnerClaim, string) -> Answer)
  {
    /** An uninterrupted check never answers with the cancellation error. */
    ghost predicate Honest() {
      forall c, consumer :: answer(c, consumer) != Failed(Canceled)
    }
  }

  // ------------------------------------------------------------ distinct claims

  function PairOf(c: ResolverClaim): (string, string) {
    (c.ownerId, c.dataResource)
  }

  function ToOwner(c: ResolverClaim): OwnerClaim {
    OwnerClaim(c.ownerId, c.dataResource, c.purpose)
  }

  function PairsOf(claims: seq<ResolverClaim>): set<(string, string)> {
    set c | c in claims :: PairOf(c)
  }

  /** The first claim of each (owner, dataResource) pair, in the resolver's order. */
  function Firsts(claims: seq<ResolverClaim>): seq<OwnerClaim> {
    if claims == [] then []
    else
      var front, last := claims[..|claims| - 1], claims[|claims| - 1];
      if PairOf(last) in PairsOf(front) then Firsts(front) else Firsts(front) + [ToOwner(last)]
  }

  predicate AllOwned(claims: seq<ResolverClaim>) {
    forall c :: c in claims ==> c.ownerId != ""
  }

  method DistinctClaims(claims: seq<ResolverClaim>) returns (distinct: Option<seq<OwnerClaim>>)
    ensures distinct == if AllOwned(claims) then Some(Firsts(claims)) else None
  {
    var seen: set<(string, string)> := {};
    var out: seq<OwnerClaim> := [];
    for i := 0 to |claims|
      invariant seen == PairsOf(claims[..i]) && out == Firsts(claims[..i])
      invariant AllOwned(claims[..i])
    {
      var claim := claims[i];
      assert claims[..i + 1] == claims[..i] + [claim] && claims[..i + 1][..i] == claims[..i];
      if claim.ownerId == "" {
        return None;
      }
      if PairOf(claim) in seen {
        continue;
      }
      seen := seen + {PairOf(claim)};
      out := out + [ToOwner(claim)];
    }
    assert claims[..|claims|] == claims;
    return Some(out);
  }

  predicate PurposesAcceptable(requirePurpose: bool, claims: seq<OwnerClaim>) {
    requirePurpose ==> forall c :: c in claims ==> c.purpose != ""
  }

  /** `unconstrained` counts the checks that go ahead without a purpose. */
  method CheckPurposeScoping(cfg: Config, claims: seq<OwnerClaim>) returns (ok: bool, unconstrained: nat)
    ensures ok == PurposesAcceptable(cfg.requirePurpose, claims)
    ensures ok ==> unconstrained == |set i | 0 <= i < |claims| && claims[i].purpose == ""|
  {
    unconstrained := 0;
    for i := 0 to |claims|
      invariant PurposesAcceptable(cfg.requirePurpose, claims[..i])
      invariant unconstrained == |set k | 0 <= k < i && claims[k].purpose == ""|
    {
      assert claims[..i + 1] == claims[..i] + [claims[i]];
      ghost var before := set k | 0 <= k < i && claims[k].purpose == "";
      ghost var after := set k | 0 <= k < i + 1 && claims[k].purpose == "";
      if claims[i].purpose != "" {
        assert after == before;
        continue;
      }
      if cfg.requirePurpose {
        return false, 0;
      }
      assert after == before + {i};
      unconstrained := unconstrained + 1;
    }
    assert claims[..|claims|] == claims;
    return true, unconstrained;
  }

  // ------------------------------------------------------- up to the owner checks

  /** Why an evaluation ends early, before the fail policy is applied to it. */
  datatype Problem = Problem(mode: FailMode, reason: string)

  function Failure(cfg: Config, p: Problem, key: string): Outcome {
    FailOutcome(cfg, p.mode, p.reason, key, None)
  }

  /** Both parties of the exchange, given what the consumer path yields. */
  function PartiesOrProblem(maxBody: int, x: Inputs, did: Result<string, ClaimPath.PathError>): Result<Parties,
                            Problem> {
    if x.body.Err? then Err(Problem(ByPolicy, "read upstream body"))
    else if x.body.value > maxBody then Err(Problem(AlwaysClosed, "upstream body too large"))
    else if did.Err? then Err(Problem(AlwaysClosed, "no consuming participant identified"))
    else LookedUp(x.mapConsumer(did.value), x.provider)
  }

  function LookedUp(consumer: Result<string, Error>, provider: Result<string, Error>): Result<Parties, Problem> {
    if consumer.Err? then Err(Problem(FailModeForError(consumer.error), "consumer participant lookup failed"))
    else if provider.Err? then Err(Problem(FailModeForError(provider.error), "provider self-description lookup failed"))
    else Ok(Parties(consumer.value, provider.value))
  }

  /** Both parties, or the outcome when one cannot be named. */
  function NamedParties(cfg: Config, x: Inputs, key: string, ctx: RequestContext): Result<Parties, Outcome> {
    match PartiesOrProblem(cfg.maxResolveBodyBytes, x, ClaimPath.Consumer(ctx.claims, cfg.consumerClaim))
    case Err(p) => Err(Failure(cfg, p, key))
    case Ok(p) => Ok(p)
  }

  /** The part of an evaluation before the concurrent checks: an outcome, or the
      job for the gate. */
  function Prologue(cfg: Config, x: Inputs): Result<Job, Outcome> {
    if x.requestId.None? then Err(FailOutcome(cfg, AlwaysClosed, "no request correlation id", "", None))
    else if x.context.None? then Err(FailOutcome(cfg, AlwaysClosed, "no request context", x.requestId.value, None))
    else
      match NamedParties(cfg, x, x.requestId.value, x.context.value)
      case Err(o) => Err(o)
      case Ok(p) => AfterResolver(cfg, x, x.requestId.value, x.context.value, p.consumer, x.resolve(p))
  }

  /** The distinct claims to check, or None when no consent is required. */
  function ClaimsOrProblem(requirePurpose: bool, maxOwners: int, reply: Result<Resolution, Error>)
    : Result<Option<seq<OwnerClaim>>, Problem>
  {
    if reply.Err? then Err(Problem(ByPolicy, "owner resolver error"))
    else if !reply.value.consentRequired then Ok(None)
    else if reply.value.claims == [] then Err(Problem(AlwaysClosed, "consent required but no data owner resolved"))
    else if !AllOwned(reply.value.claims) then Err(Problem(AlwaysClosed, "resolved claim without a data owner"))
    else
      var claims := Firsts(reply.value.claims);
      if !PurposesAcceptable(requirePurpose, claims) then
        Err(Problem(AlwaysClosed, "resolved claim without a processing purpose"))
      else if |claims| > maxOwners then Err(Problem(AlwaysClosed, "too many data owners"))
      else Ok(Some(claims))
  }

  function JobFor(x: Inputs, key: string, ctx: RequestContext, consumer: string, claims: seq<OwnerClaim>): Job {
    Job(key, ctx.path, ctx.verb, consumer, claims,
        seq(|claims|, i requires 0 <= i < |claims| => x.answer(claims[i], consumer)))
  }

  function AfterResolver(cfg: Config, x: Inputs, key: string, ctx: RequestContext, consumer: string,
                         reply: Result<Resolution, Error>): Result<Job, Outcome>
  {
    match ClaimsOrProblem(cfg.requirePurpose, cfg.maxOwnersPerResponse, reply)
    case Err(p) => Err(Failure(cfg, p, key))
    case Ok(None) => Err(Outcome(Allow, "no consent required", key, "", ctx.path, ctx.verb, [], None))
    case Ok(Some(claims)) => Ok(JobFor(x, key, ctx, consumer, claims))
  }

  /** The parties the owner resolver is asked about, or None when the evaluation
      ends before it is asked. */
  function ResolverAskedAbout(cfg: Config, x: Inputs): Option<Parties> {
    if x.requestId.None? || x.context.None? then None
    else
      match NamedParties(cfg, x, x.requestId.value, x.context.value)
      case Err(_) => None
      case Ok(p) => Some(p)
  }

  lemma JobIsValid(cfg: Config, x: Inputs)
    requires x.Honest() && Prologue(cfg, x).Ok?
    ensures Prologue(cfg, x).value.Valid()
  {
  }

  /** `run` is a schedule of the gate this evaluation reaches, if it reaches it. */
  ghost predicate Feasible(cfg: Config, x: Inputs, run: seq<Action>) {
    x.Honest() && (Prologue(cfg, x).Ok? ==> Completes(Prologue(cfg, x).value, run))
  }

  /** evaluate, for one schedule of the concurrent checks. */
  function Evaluate(cfg: Config, x: Inputs, run: seq<Action>): Outcome
    requires Feasible(cfg, x, run)
  {
    match Prologue(cfg, x)
    case Err(o) => o
    case Ok(job) =>
      JobIsValid(cfg, x);
      Verdict(cfg, job, run)
  }

  /** A scheduler runs every gate until all its goroutines have finished. */
  ghost predicate Finishes(schedule: Job -> seq<Action>) {
    forall job: Job :: job.Valid() ==> Completes(job, schedule(job))
  }

  /** The schedule of the gate this evaluation reaches, if it reaches it. */
  function Scheduled(cfg: Config, x: Inputs, schedule: Job -> seq<Action>): seq<Action> {
    match Prologue(cfg, x)
    case Err(_) => []
    case Ok(job) => schedule(job)
  }

  lemma ScheduledIsFeasible(cfg: Config, x: Inputs, schedule: Job -> seq<Action>)
    requires x.Honest() && Finishes(schedule)
    ensures Feasible(cfg, x, Scheduled(cfg, x, schedule))
  {
    if Prologue(cfg, x).Ok? {
      JobIsValid(cfg, x);
    }
  }

  /** evaluate under one scheduler. */
  ghost function OutcomeUnder(cfg: Config, x: Inputs, schedule: Job -> seq<Action>): Outcome
    requires x.Honest() && Finishes(schedule)
  {
    ScheduledIsFeasible(cfg, x, schedule);
    Evaluate(cfg, x, Scheduled(cfg, x, schedule))
  }

  // ----------------------------------------------------------- on the real state

  /** The replies one evaluation may draw on. */
  datatype Replies = Replies(
    body: Result<nat, Error>, mapping: MappingReplies, me: Exchange,
    resolve: Parties -> Result<Resolution, Error>, answer: (OwnerClaim, string) -> Answer)
  {
    ghost predicate Honest() {
      forall c, consumer :: answer(c, consumer) != Failed(Canceled)
    }
  }

  /** The inputs that replies, caches and a loaded context amount to. */
  ghost function Gathered(cfg: Config, requestId: Option<string>, context: Option<RequestContext>,
                          digest: string -> string, w: World, client: Client, r: Replies): Inputs
  {
    var mapped := MappedWorld(cfg, context, digest, w, client, r.mapping);
    Inputs(requestId, context, r.body,
           did => SelfDescriptionByDID(digest, client, w, did, r.mapping).1,
           ProviderOf(CredentialsCall(digest, client, mapped.creds, false, r.me).1),
           r.resolve, r.answer)
  }

  function ProviderOf(auth: Result<(string, string), Error>): Result<string, Error> {
    match auth case Err(e) => Err(e) case Ok(pair) => Ok(pair.1)
  }

  /** The caches after the consumer has been mapped. */
  ghost function MappedWorld(cfg: Config, context: Option<RequestContext>, digest: string -> string, w: World,
                             client: Client,
                             mapping: MappingReplies): World
  {
    if context.None? then w
    else
      match ClaimPath.Consumer(context.value.claims, cfg.consumerClaim)
      case Err(_) => w
      case Ok(did) => SelfDescriptionByDID(digest, client, w, did, mapping).0
  }

  /** The caches an evaluation leaves behind: the consumer is mapped once the body has
      been read within its cap and the token names one, and the provider is looked up
      once the consumer is known. */
  ghost function WorldLeft(cfg: Config, context: Option<RequestContext>, digest: string -> string, w: World,
                           client: Client, r: Replies): World
  {
    if context.None? || r.body.Err? || r.body.value > cfg.maxResolveBodyBytes then w
    else
      match ClaimPath.Consumer(context.value.claims, cfg.consumerClaim)
      case Err(_) => w
      case Ok(did) => PartiesWorld(digest, client, w, did, r)
  }

  /** The caches are left so, with no empty name in them. */
  ghost predicate Leaves(cfg: Config, context: Option<RequestContext>, digest: string -> string, w: World,
                         client: Client, r: Replies, after: World)
  {
    after == WorldLeft(cfg, context, digest, w, client, r) && CacheTheorems.NeverEmpty(after)
  }

  ghost function PartiesWorld(digest: string -> string, client: Client, w: World, did: string, r: Replies): World {
    var (mapped, consumer) := SelfDescriptionByDID(digest, client, w, did, r.mapping);
    if consumer.Err? then mapped
    else mapped.(creds := CredentialsCall(digest, client, mapped.creds, false, r.me).0)
  }

  /** What the request phase left for this response. */
  function ContextOf(requestId: Option<string>, s: Store, now: int): Option<RequestContext> {
    if requestId.None? then None else Loaded(s, requestId.value, now).1
  }

  /** A request that cannot be correlated is denied before anybody is asked. */
  lemma LostRequest(cfg: Config, x: Inputs)
    requires x.requestId.None? || x.context.None?
    ensures ResolverAskedAbout(cfg, x) == None
    ensures Prologue(cfg, x) ==
            Err(if x.requestId.None? then FailOutcome(cfg, AlwaysClosed, "no request correlation id", "", None)
                else FailOutcome(cfg, AlwaysClosed, "no request context", x.requestId.value, None))
  {
  }

  /** The outcome, and whom the resolver was asked about, are those of the inputs
      that this context, these caches and these replies amount to. */
  ghost predicate Settles(cfg: Config, requestId: Option<string>, context: Option<RequestContext>,
                          digest: string -> string,
                          w: World, client: Client, r: Replies, schedule: Job -> seq<Action>,
                          out: Outcome, asked: Option<Parties>)
    requires r.Honest() && Finishes(schedule)
  {
    var x := Gathered(cfg, requestId, context, digest, w, client, r);
    assert x.Honest();
    out == OutcomeUnder(cfg, x, schedule) && asked == ResolverAskedAbout(cfg, x)
  }

  lemma LostSettles(cfg: Config, requestId: Option<string>, context: Option<RequestContext>, digest: string -> string,
                    w: World, client: Client, r: Replies, schedule: Job -> seq<Action>)
    requires r.Honest() && Finishes(schedule) && (requestId.None? || context.None?)
    ensures var out := if requestId.None? then FailOutcome(cfg, AlwaysClosed, "no request correlation id", "", None)
                       else FailOutcome(cfg, AlwaysClosed, "no request context", requestId.value, None);
            Settles(cfg, requestId, context, digest, w, client, r, schedule, out, None)
  {
    LostRequest(cfg, Gathered(cfg, requestId, context, digest, w, client, r));
  }

  /** evaluate on the package's own state. Whatever the store and the caches held,
      the resolver is only ever asked about two named parties, and the request's
      context is consumed. */
  method EvaluateResponse(cfg: Config, requestId: Option<string>, now: int, store: RequestContextStore,
                          caches: PackageCaches, client: Client, r: Replies, schedule: Job -> seq<Action>)
    returns (out: Outcome, asked: Option<Parties>)
    requires caches.Valid() && CacheTheorems.NeverEmpty(caches.View())
    requires r.Honest() && Finishes(schedule)
    modifies store, caches, caches.credCache.Values
    ensures caches.Valid()
    ensures Settles(cfg, requestId, ContextOf(requestId, old(store.View()), now), caches.digest, old(caches.View()),
                    client, r, schedule, out, asked)
    ensures Leaves(cfg, ContextOf(requestId, old(store.View()), now), caches.digest, old(caches.View()), client, r,
                   caches.View())
    ensures asked.Some? ==> asked.value.consumer != "" && asked.value.provider != ""
    ensures requestId.None? ==> store.View() == old(store.View())
    ensures requestId.Some? ==> store.View() == Loaded(old(store.View()), requestId.value, now).0
  {
    if requestId.None? {
      LostSettles(cfg, None, None, caches.digest, caches.View(), client, r, schedule);
      return FailOutcome(cfg, AlwaysClosed, "no request correlation id", "", None), None;
    }
    var context := store.LoadAndDeleteRequestContext(requestId.value, now);
    if context.None? {
      LostSettles(cfg, requestId, None, caches.digest, caches.View(), client, r, schedule);
      return FailOutcome(cfg, AlwaysClosed, "no request context", requestId.value, None), None;
    }
    assert caches.View() == old(caches.View());
    out, asked := EvaluateWithResolver(cfg, requestId.value, context.value, caches, client, r, schedule);
  }

  method EvaluateWithResolver(cfg: Config, key: string, ctx: RequestContext, caches: PackageCaches, client: Client,
                              r: Replies, schedule: Job -> seq<Action>)
    returns (out: Outcome, asked: Option<Parties>)
    requires caches.Valid() && CacheTheorems.NeverEmpty(caches.View())
    requires r.Honest() && Finishes(schedule)
    modifies caches, caches.credCache.Values
    ensures caches.Valid()
    ensures Settles(cfg, Some(key), Some(ctx), caches.digest, old(caches.View()), client, r, schedule, out, asked)
    ensures Leaves(cfg, Some(ctx), caches.digest, old(caches.View()), client, r, caches.View())
    ensures asked.Some? ==> asked.value.consumer != "" && asked.value.provider != ""
  {
    ghost var w := caches.View();
    ghost var x := GatheredSupplies(cfg, key, ctx, caches.digest, w, client, r);
    var named := NameParties(cfg, x, key, ctx, caches, client, r);
    if named.Err? {
      UnnamedSettles(cfg, key, ctx, caches.digest, w, client, r, schedule);
      return named.error, None;
    }
    var reply := r.resolve(named.value);
    NamedSettles(cfg, key, ctx, caches.digest, w, client, r, schedule, named.value);
    out := DecideClaims(cfg, x, key, ctx, named.value.consumer, reply, r.answer, schedule);
    asked := Some(named.value);
  }

  /** The parties the caches and replies amount to for one consumer DID. */
  ghost function PartiesFor(digest: string -> string, client: Client, w: World, did: string,
                            r: Replies): Result<Parties, Problem> {
    var (mapped, consumer) := SelfDescriptionByDID(digest, client, w, did, r.mapping);
    LookedUp(consumer, ProviderOf(CredentialsCall(digest, client, mapped.creds, false, r.me).1))
  }

  /** The inputs name the parties that the caches name. */
  ghost predicate Supplies(cfg: Config, x: Inputs, ctx: RequestContext, digest: string -> string, client: Client,
                           w: World, r: Replies) {
    var did := ClaimPath.Consumer(ctx.claims, cfg.consumerClaim);
    && x.body == r.body
    && (did.Ok? ==> LookedUp(x.mapConsumer(did.value), x.provider) == PartiesFor(digest, client, w, did.value, r))
  }

  lemma GatheredSupplies(cfg: Config, key: string, ctx: RequestContext, digest: string -> string, w: World,
                         client: Client, r: Replies) returns (x: Inputs)
    ensures x == Gathered(cfg, Some(key), Some(ctx), digest, w, client, r)
    ensures Supplies(cfg, x, ctx, digest, client, w, r)
  {
    x := Gathered(cfg, Some(key), Some(ctx), digest, w, client, r);
  }

  lemma UnnamedSettles(cfg: Config, key: string, ctx: RequestContext, digest: string -> string, w: World,
                       client: Client, r: Replies, schedule: Job -> seq<Action>)
    requires r.Honest() && Finishes(schedule)
    ensures var named := NamedParties(cfg, Gathered(cfg, Some(key), Some(ctx), digest, w, client, r), key, ctx);
            named.Err? ==> Settles(cfg, Some(key), Some(ctx), digest, w, client, r, schedule, named.error, None)
  {
  }

  /** With both parties named, what is decided on the reply is the outcome. */
  lemma NamedSettles(cfg: Config, key: string, ctx: RequestContext, digest: string -> string, w: World,
                     client: Client, r: Replies, schedule: Job -> seq<Action>, parties: Parties)
    requires r.Honest() && Finishes(schedule)
    ensures var x := Gathered(cfg, Some(key), Some(ctx), digest, w, client, r);
            && x.Honest() && x.answer == r.answer
            && (NamedParties(cfg, x, key, ctx) == Ok(parties) ==>
                  Prologue(cfg, x) == AfterResolver(cfg, x, key, ctx, parties.consumer, r.resolve(parties)))
    ensures var x := Gathered(cfg, Some(key), Some(ctx), digest, w, client, r);
            NamedParties(cfg, x, key, ctx) == Ok(parties) ==>
              Settles(cfg, Some(key), Some(ctx), digest, w, client, r, schedule, OutcomeUnder(cfg, x, schedule),
                      Some(parties))
  {
  }

  method NameParties(cfg: Config, ghost x: Inputs, key: string, ctx: RequestContext, caches: PackageCaches,
                     client: Client, r: Replies)
    returns (named: Result<Parties, Outcome>)
    requires caches.Valid() && CacheTheorems.NeverEmpty(caches.View())
    requires Supplies(cfg, x, ctx, caches.digest, client, caches.View(), r)
    modifies caches, caches.credCache.Values
    ensures caches.Valid()
    ensures named == NamedParties(cfg, x, key, ctx)
    ensures Leaves(cfg, Some(ctx), caches.digest, old(caches.View()), client, r, caches.View())
    ensures named.Ok? ==> named.value.consumer != "" && named.value.provider != ""
  {
    if r.body.Err? {
      return Err(FailOutcome(cfg, ByPolicy, "read upstream body", key, None));
    }
    if r.body.value > cfg.maxResolveBodyBytes {
      return Err(FailOutcome(cfg, AlwaysClosed, "upstream body too large", key, None));
    }
    var did := ClaimPath.ConsumerFromClaims(ctx.claims, cfg.consumerClaim);
    if did.Err? {
      return Err(FailOutcome(cfg, AlwaysClosed, "no consuming participant identified", key, None));
    }
    var parties := ResolveParties(caches, client, did.value, r);
    if parties.Err? {
      return Err(FailOutcome(cfg, parties.error.mode, parties.error.reason, key, None));
    }
    return Ok(parties.value);
  }

  /** Both sides of the contract, the provider only once the consumer is known. */
  method ResolveParties(caches: PackageCaches, client: Client, did: string, r: Replies)
    returns (parties: Result<Parties, Problem>)
    requires caches.Valid() && CacheTheorems.NeverEmpty(caches.View())
    modifies caches, caches.credCache.Values
    ensures caches.Valid() && CacheTheorems.NeverEmpty(caches.View())
    ensures parties == PartiesFor(caches.digest, client, old(caches.View()), did, r)
    ensures caches.View() == PartiesWorld(caches.digest, client, old(caches.View()), did, r)
    ensures parties.Ok? ==> parties.value.consumer != "" && parties.value.provider != ""
  {
    CacheTheorems.MappedIsNonEmpty(caches.digest, client, caches.View(), did, r.mapping);
    var consumer := caches.ParticipantSelfDescriptionByDID(client, did, r.mapping);
    if consumer.Err? {
      return Err(Problem(FailModeForError(consumer.error), "consumer participant lookup failed"));
    }
    CacheTheorems.CredentialsAreComplete(caches.digest, client, caches.Creds(), false, r.me);
    var provider := caches.ProviderSelfDescription(client, r.me);
    if provider.Err? {
      return Err(Problem(FailModeForError(provider.error), "provider self-description lookup failed"));
    }
    return Ok(Parties(consumer.value, provider.value));
  }

  method DecideClaims(cfg: Config, ghost x: Inputs, key: string, ctx: RequestContext, consumer: string,
                      reply: Result<Resolution, Error>, answer: (OwnerClaim, string) -> Answer,
                      schedule: Job -> seq<Action>)
    returns (out: Outcome)
    requires x.answer == answer
    requires Prologue(cfg, x) == AfterResolver(cfg, x, key, ctx, consumer, reply)
    requires x.Honest() && Finishes(schedule)
    ensures out == OutcomeUnder(cfg, x, schedule)
  {
    if reply.Err? {
      return FailOutcome(cfg, ByPolicy, "owner resolver error", key, None);
    }
    if !reply.value.consentRequired {
      return Outcome(Allow, "no consent required", key, "", ctx.path, ctx.verb, [], None);
    }
    if |reply.value.claims| == 0 {
      return FailOutcome(cfg, AlwaysClosed, "consent required but no data owner resolved", key, None);
    }
    var distinct := DistinctClaims(reply.value.claims);
    if distinct.None? {
      return FailOutcome(cfg, AlwaysClosed, "resolved claim without a data owner", key, None);
    }
    var claims := distinct.value;
    var acceptable, _ := CheckPurposeScoping(cfg, claims);
    if !acceptable {
      return FailOutcome(cfg, AlwaysClosed, "resolved claim without a processing purpose", key, None);
    }
    if |claims| > cfg.maxOwnersPerResponse {
      return FailOutcome(cfg, AlwaysClosed, "too many data owners", key, None);
    }
    var answers := seq(|claims|, i requires 0 <= i < |claims| => answer(claims[i], consumer));
    var job := Job(key, ctx.path, ctx.verb, consumer, claims, answers);
    assert job == JobFor(x, key, ctx, consumer, claims);
    JobIsValid(cfg, x);
    out := CheckOwners(cfg, job, schedule(job));
  }
}
