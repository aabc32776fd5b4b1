/** Calls of many callers on the shared caches, interleaved section by section. Each
    call consults a cache, talks to its dependencies and stores what it learned in
    separate critical sections; between any two of them every other caller may act. */
module CallRuns {
  import opened Wrappers
  import opened Outcomes
  import opened ConsentClient
  import opened CacheTheorems
  import opened Durations
  import CacheKeys

  /** A call, with the clock readings and the replies it will get. */
  datatype Request =
    | MapRequest(client: Client, did: string, mapping: MappingReplies)
    | CheckRequest(client: Client, req: ConsentRequest, first: CheckReplies, second: CheckReplies)

  /** How far the last attempt of a check came: it failed before, it searched and the
      subject was unknown, or it listed the consents of the identifier it had found. */
  datatype Attempted =
    | Failed(force: bool)
    | Unknown(force: bool, providerSD: string)
    | Listed(force: bool, providerSD: string, identifier: string)

  /** What a caller does next, or what it was told and by which of its attempts; None
      when no attempt was needed. */
  datatype Stage =
    | Consulting                                                    // the participant cache
    | Asking(force: bool)                                           // credentials and registry
    | Storing(force: bool, sd: string)
    | Mapped(asked: Option<bool>, answer: Result<string, Error>)
    | SigningIn(force: bool)                                        // credentials
    | Searching(force: bool, providerSD: string)                    // the identifier cache, then the search
    | Saving(force: bool, providerSD: string, identifier: string)
    | Listing(force: bool, providerSD: string, identifier: string)  // the consents of that identifier
    | Checked(last: Option<Attempted>, result: Result<Response, Error>)

  predicate Fits(r: Request, stage: Stage) {
    if r.MapRequest? then stage.Consulting? || stage.Asking? || stage.Storing? || stage.Mapped?
    else stage.SigningIn? || stage.Searching? || stage.Saving? || stage.Listing? || stage.Checked?
  }

  function Start(r: Request): (stage: Stage)
    ensures Fits(r, stage)
  {
    match r
    case MapRequest(_, did, _) => if did == "" then Mapped(None, Err(Other("empty participant did"))) else Consulting
    case CheckRequest(_, req, _, _) =>
      if req.subject == "" then Checked(None, Ok(Response(Deny, "no subject in request")))
      else if req.consumer == "" then Checked(None, Ok(Response(Deny, "no consuming participant identified")))
      else SigningIn(false)
  }

  // ------------------------------------------------------------ one caller's steps

  function LookupOf(r: Request, force: bool): LookupReplies
    requires r.MapRequest?
  {
    if force then r.mapping.second else r.mapping.first
  }

  function AttemptOf(r: Request, force: bool): CheckReplies
    requires r.CheckRequest?
  {
    if force then r.second else r.first
  }

  function ParticipantKeyOf(digest: string -> string, r: Request): string
    requires r.MapRequest?
  {
    CacheKeys.ParticipantKey(digest, r.client.id, r.did)
  }

  function IdentifierKeyOf(digest: string -> string, r: Request, providerSD: string): string
    requires r.CheckRequest?
  {
    CacheKeys.IdentifierKey(digest, r.client.id, providerSD, r.req.subject)
  }

  predicate Retries(r: Request, force: bool, rejected: bool) {
    rejected && !force && r.client.id.staticToken == ""
  }

  function AfterLookup(r: Request, force: bool, answer: Result<string, Error>): Stage {
    if Retries(r, force, answer == Err(Unauthorized)) then Asking(true)
    else match answer
      case Err(e) => Mapped(Some(force), Err(if e.Unauthorized? then Other("participant token rejected") else e))
      case Ok(sd) => Storing(force, sd)
  }

  function AfterAttempt(r: Request, last: Attempted, answer: Result<Response, Error>): Stage {
    if Retries(r, last.force, answer == Err(Unauthorized)) then SigningIn(true)
    else Checked(Some(last), WithoutSentinel(answer))
  }

  /** What the listing of an identifier's consents says to a check. */
  function Matched(r: Request, force: bool, identifier: string): Result<Response, Error>
    requires r.CheckRequest?
  {
    match ListedConsent(AttemptOf(r, force).listings(identifier), r.req)
    case Err(e) => Err(e)
    case Ok(granted) => Ok(if granted then Response(Allow, "") else Response(Deny, "no granted consent"))
  }

  /** One critical section of one call. */
  function Step(digest: string -> string, w: World, r: Request, stage: Stage): (World, Stage)
    requires Fits(r, stage)
  {
    match stage
    case Consulting =>
      (match ConsultParticipant(w.sds, ParticipantKeyOf(digest, r), r.mapping.consultedAt)
       case Some(hit) => (w, Mapped(None, hit))
       case None => (w, Asking(false)))
    case Asking(force) =>
      var (creds, answer) := LookupParticipant(digest, r.client, w.creds, r.did, force, LookupOf(r, force));
      (w.(creds := creds), AfterLookup(r, force, answer))
    case Storing(force, sd) =>
      (w.(sds := RememberParticipant(w.sds, ParticipantKeyOf(digest, r), sd, r.mapping.storedAt)),
       Mapped(Some(force), if sd == "" then Err(NotRegistered) else Ok(sd)))
    case SigningIn(force) =>
      var (creds, auth) := CredentialsCall(digest, r.client, w.creds, force, AttemptOf(r, force).exchange);
      (w.(creds := creds),
       match auth
       case Err(e) => AfterAttempt(r, Attempted.Failed(force), Err(e))
       case Ok(pair) => Searching(force, pair.1))
    case Searching(force, providerSD) =>
      var key, x := IdentifierKeyOf(digest, r, providerSD), AttemptOf(r, force).search;
      (w,
       match ResolveIdentifier(digest, r.client, w.ids, providerSD, r.req.subject, x).1
       case Err(e) => AfterAttempt(r, Attempted.Failed(force), Err(e))
       case Ok(None) => AfterAttempt(r, Unknown(force, providerSD),
                                     Ok(Response(Deny, "no user identifier for subject")))
       case Ok(Some(id)) =>
         if ConsultIdentifier(w.ids, key, x.consultedAt).Some? then Listing(force, providerSD, id)
         else Saving(force, providerSD, id))
    case Saving(force, providerSD, id) =>
      var storedAt := AttemptOf(r, force).search.storedAt;
      (w.(ids := RememberIdentifier(w.ids, IdentifierKeyOf(digest, r, providerSD), id, storedAt)),
       Listing(force, providerSD, id))
    case Listing(force, providerSD, id) =>
      (w, AfterAttempt(r, Listed(force, providerSD, id), Matched(r, force, id)))
    case Mapped(_, _) => (w, stage)
    case Checked(_, _) => (w, stage)
  }

  /** Sections a caller may still enter. */
  function StepsLeft(stage: Stage): nat {
    match stage
    case Mapped(_, _) => 0
    case Storing(_, _) => 1
    case Asking(force) => if force then 2 else 3
    case Consulting => 4
    case Checked(_, _) => 0
    case Listing(force, _, _) => if force then 1 else 5
    case Saving(force, _, _) => if force then 2 else 6
    case Searching(force, _) => if force then 3 else 7
    case SigningIn(force) => if force then 4 else 8
  }

  lemma StepAdvances(digest: string -> string, w: World, r: Request, stage: Stage)
    requires Fits(r, stage)
    ensures var next := Step(digest, w, r, stage).1;
            Fits(r, next) && (StepsLeft(stage) > 0 ==> StepsLeft(next) < StepsLeft(stage))
  {
  }

  // ---------------------------------------------------------- an undisturbed caller

  /** A caller nobody interferes with. */
  function Alone(digest: string -> string, w: World, r: Request, stage: Stage): (World, Stage)
    requires Fits(r, stage)
    decreases StepsLeft(stage)
  {
    if StepsLeft(stage) == 0 then (w, stage)
    else
      StepAdvances(digest, w, r, stage);
      var (after, next) := Step(digest, w, r, stage);
      Alone(digest, after, r, next)
  }

  lemma AloneSteps(digest: string -> string, w: World, r: Request, stage: Stage)
    requires Fits(r, stage) && StepsLeft(stage) > 0
    ensures var (after, next) := Step(digest, w, r, stage);
            Fits(r, next) && Alone(digest, w, r, stage) == Alone(digest, after, r, next)
  {
    StepAdvances(digest, w, r, stage);
  }

  /** Undisturbed, the sections of a mapping are the whole call. */
  lemma AloneMaps(digest: string -> string, w: World, r: Request)
    requires r.MapRequest?
    ensures var (after, answer) := SelfDescriptionByDID(digest, r.client, w, r.did, r.mapping);
            var end := Alone(digest, w, r, Start(r));
            end.0 == after && end.1.Mapped? && end.1.answer == answer
  {
    if r.did != "" {
      AloneSteps(digest, w, r, Consulting);
      if ConsultParticipant(w.sds, ParticipantKeyOf(digest, r), r.mapping.consultedAt).None? {
        AloneSteps(digest, w, r, Asking(false));
        var (creds, answer) := LookupParticipant(digest, r.client, w.creds, r.did, false, r.mapping.first);
        var once := w.(creds := creds);
        if Retries(r, false, answer == Err(Unauthorized)) {
          AloneSteps(digest, once, r, Asking(true));
          var again := LookupParticipant(digest, r.client, creds, r.did, true, r.mapping.second);
          AloneStores(digest, once.(creds := again.0), r, true, again.1);
        } else {
          AloneStores(digest, once, r, false, answer);
        }
      }
    }
  }

  lemma AloneStores(digest: string -> string, w: World, r: Request, force: bool, answer: Result<string, Error>)
    requires r.MapRequest? && !Retries(r, force, answer == Err(Unauthorized))
    ensures Fits(r, AfterLookup(r, force, answer))
    ensures Alone(digest, w, r, AfterLookup(r, force, answer)) ==
            match answer
            case Err(e) =>
              (w, Mapped(Some(force), Err(if e.Unauthorized? then Other("participant token rejected") else e)))
            case Ok(sd) =>
              (w.(sds := RememberParticipant(w.sds, ParticipantKeyOf(digest, r), sd, r.mapping.storedAt)),
               Mapped(Some(force), if sd == "" then Err(NotRegistered) else Ok(sd)))
  {
    if answer.Ok? {
      AloneSteps(digest, w, r, Storing(force, answer.value));
    }
  }

  lemma AloneAttempts(digest: string -> string, w: World, r: Request, force: bool) returns (last: Attempted)
    requires r.CheckRequest?
    ensures var (after, answer) := Check(digest, r.client, w, r.req, force, AttemptOf(r, force));
            last.force == force && Fits(r, AfterAttempt(r, last, answer))
            && Alone(digest, w, r, SigningIn(force)) == Alone(digest, after, r, AfterAttempt(r, last, answer))
  {
    var x := AttemptOf(r, force);
    last := Attempted.Failed(force);
    AloneSteps(digest, w, r, SigningIn(force));
    var (creds, auth) := CredentialsCall(digest, r.client, w.creds, force, x.exchange);
    if auth.Ok? {
      last := AloneDecidesSubject(digest, w.(creds := creds), r, force, auth.value.1);
    }
  }

  lemma AloneDecidesSubject(digest: string -> string, w: World, r: Request, force: bool, providerSD: string)
    returns (last: Attempted)
    requires r.CheckRequest?
    ensures var (ids, answer) := SubjectDecision(digest, r.client, w.ids, r.req, providerSD, AttemptOf(r, force));
            last.force == force && Fits(r, AfterAttempt(r, last, answer))
            && Alone(digest, w, r, Searching(force, providerSD))
               == Alone(digest, w.(ids := ids), r, AfterAttempt(r, last, answer))
  {
    var (ids, found) := ResolveIdentifier(digest, r.client, w.ids, providerSD, r.req.subject,
                                          AttemptOf(r, force).search);
    if found.Ok? && found.value.Some? {
      var id := found.value.value;
      last := Listed(force, providerSD, id);
      AloneFinds(digest, w, r, force, providerSD, id);
      AloneSteps(digest, w.(ids := ids), r, Listing(force, providerSD, id));
    } else {
      last := if found.Ok? then Unknown(force, providerSD) else Failed(force);
      AloneSteps(digest, w, r, Searching(force, providerSD));
      assert ids == w.ids && w.(ids := ids) == w;
    }
  }

  lemma AloneFinds(digest: string -> string, w: World, r: Request, force: bool, providerSD: string, id: string)
    requires r.CheckRequest?
    requires ResolveIdentifier(digest, r.client, w.ids, providerSD, r.req.subject, AttemptOf(r, force).search).1
             == Ok(Some(id))
    ensures var ids := ResolveIdentifier(digest, r.client, w.ids, providerSD, r.req.subject,
                                         AttemptOf(r, force).search).0;
            Alone(digest, w, r, Searching(force, providerSD))
            == Alone(digest, w.(ids := ids), r, Listing(force, providerSD, id))
  {
    var key, x := IdentifierKeyOf(digest, r, providerSD), AttemptOf(r, force).search;
    AloneSteps(digest, w, r, Searching(force, providerSD));
    if ConsultIdentifier(w.ids, key, x.consultedAt).None? {
      AloneSteps(digest, w, r, Saving(force, providerSD, id));
    }
  }

  /** Undisturbed, the sections of a check are the whole call. */
  lemma AloneChecks(digest: string -> string, w: World, r: Request)
    requires r.CheckRequest?
    ensures var (after, answer) := CheckConsent(digest, r.client, w, r.req, r.first, r.second);
            var end := Alone(digest, w, r, Start(r));
            end.0 == after && end.1.Checked? && end.1.result == answer
  {
    if r.req.subject != "" && r.req.consumer != "" {
      var last := AloneAttempts(digest, w, r, false);
      var (once, answer) := Check(digest, r.client, w, r.req, false, r.first);
      if Retries(r, false, answer == Err(Unauthorized)) {
        last := AloneAttempts(digest, once, r, true);
      }
    }
  }

  // -------------------------------------------------------------- interleaved runs

  /** The shared caches and every caller's stage. `mappings` and `findings` record
      the writes in order, `mappers` and `finders` who made them, in which attempt. */
  datatype System = System(
    world: World, stages: seq<Stage>,
    mappings: seq<Mapping>, mappers: seq<nat>, findings: seq<Finding>, finders: seq<Search>)

  /** The search of one attempt of one caller. */
  datatype Search = Search(caller: nat, force: bool)

  function Initial(requests: seq<Request>): System {
    var stages := seq(|requests|, i requires 0 <= i < |requests| => Start(requests[i]));
    System(World(map[], map[], map[]), stages, [], [], [], [])
  }

  function ListingIn(reply: Reply<seq<Participant>>): seq<Participant> {
    if reply.Body? then reply.value else []
  }

  function Next(digest: string -> string, requests: seq<Request>, s: System, i: nat): System
    requires i < |requests| == |s.stages| && Fits(requests[i], s.stages[i])
  {
    var r := requests[i];
    var (w, stage) := Step(digest, s.world, r, s.stages[i]);
    var t := s.(world := w, stages := s.stages[i := stage]);
    match s.stages[i]
    case Storing(force, _) =>
      t.(mappings := s.mappings + [Mapping(r.client.id, r.did, ListingIn(LookupOf(r, force).listing),
                                           r.mapping.storedAt)],
         mappers := s.mappers + [i])
    case Saving(force, providerSD, id) =>
      t.(findings := s.findings + [Finding(r.client.id, providerSD, r.req.subject, id,
                                           AttemptOf(r, force).search.storedAt)],
         finders := s.finders + [Search(i, force)])
    case _ => t
  }

  predicate Steppable(requests: seq<Request>, s: System, i: nat) {
    i < |requests| == |s.stages| && Fits(requests[i], s.stages[i])
  }

  /** The system after the callers took these turns. */
  function After(digest: string -> string, requests: seq<Request>, s: System, turns: seq<nat>): Option<System>
    decreases |turns|
  {
    if turns == [] then Some(s)
    else if Steppable(requests, s, turns[0])
    then After(digest, requests, Next(digest, requests, s, turns[0]), turns[1..])
    else None
  }

  // ------------------------------------------------------------------- invariants

  predicate PlainExchange(x: Exchange) {
    x.me.Body? ==> CacheKeys.SEPARATOR !in x.me.value
  }

  /** No name in the request, or the provider's name in its replies, has the key
      separator in it. */
  predicate Plain(r: Request) {
    && CacheKeys.SeparatorFree(r.client.id)
    && if r.MapRequest? then PlainExchange(r.mapping.first.exchange) && PlainExchange(r.mapping.second.exchange)
       else PlainExchange(r.first.exchange) && PlainExchange(r.second.exchange)
  }

  predicate PlainCredentials(creds: Credentials) {
    forall k :: k in creds ==> CacheKeys.SEPARATOR !in creds[k].providerSD
  }

  predicate Named(providerSD: string) {
    providerSD != "" && CacheKeys.SEPARATOR !in providerSD
  }

  /** What a caller carries between its sections, and what it is told, comes from the
      replies to the very attempt it is in. */
  predicate StageOk(r: Request, stage: Stage)
    requires Fits(r, stage)
  {
    match stage
    case Storing(force, sd) =>
      var reply := LookupOf(r, force).listing;
      reply.Body? && sd == Registered(reply.value, r.did)
    case Searching(_, providerSD) => Named(providerSD)
    case Saving(force, providerSD, id) =>
      Named(providerSD) && id != "" && AttemptOf(r, force).search.search(providerSD, r.req.subject) == Body(id)
    case Listing(_, providerSD, _) => Named(providerSD)
    case Checked(last, result) =>
      && result != Err(Unauthorized)
      && (last.Some? && last.value.Listed? ==> Named(last.value.providerSD))
      && (result.Ok? && result.value.decision == Allow ==> last.Some? && Showed(r, last.value))
      && (result == Ok(Response(Deny, "no user identifier for subject")) ==> last.Some? && KnewNobody(r, last.value))
    case _ => true
  }

  /** That attempt listed the consents of the identifier it had found, and one of them
      authorizes the request. */
  predicate Showed(r: Request, last: Attempted)
    requires r.CheckRequest?
  {
    last.Listed? &&
    var reply := AttemptOf(r, last.force).listings(last.identifier);
    reply.Body? && AnyAuthorizes(reply.value, r.req)
  }

  /** That attempt searched for the subject, and the service knew nobody. */
  predicate KnewNobody(r: Request, last: Attempted)
    requires r.CheckRequest?
  {
    last.Unknown? &&
    var reply := AttemptOf(r, last.force).search.search(last.providerSD, r.req.subject);
    reply == Status(404) || reply == Body("")
  }

  /** Caller i made this write after its last lookup had been given this listing. */
  predicate MappedBy(requests: seq<Request>, s: System, i: nat, m: Mapping) {
    && i < |requests| == |s.stages| && requests[i].MapRequest? && s.stages[i].Mapped? && s.stages[i].asked.Some?
    && m.id == requests[i].client.id && m.did == requests[i].did && m.at == requests[i].mapping.storedAt
    && LookupOf(requests[i], s.stages[i].asked.value).listing == Body(m.listing)
  }

  /** The check has begun this attempt: the second only if it retried. */
  predicate Began(stage: Stage, force: bool) {
    match stage
    case SigningIn(f) => force ==> f
    case Searching(f, _) => force ==> f
    case Saving(f, _, _) => force ==> f
    case Listing(f, _, _) => force ==> f
    case Checked(last, _) => last.Some? && (force ==> last.value.force)
    case _ => false
  }

  /** The search of this attempt, for the credential, provider and subject of the
      write, had found the identifier before it was made. */
  predicate FoundBy(requests: seq<Request>, s: System, finder: Search, f: Finding) {
    var i := finder.caller;
    && i < |requests| == |s.stages| && requests[i].CheckRequest? && Began(s.stages[i], finder.force)
    && f.id == requests[i].client.id && f.subject == requests[i].req.subject && f.identifier != ""
    && var x := AttemptOf(requests[i], finder.force).search;
       x.search(f.providerSD, f.subject) == Body(f.identifier) && f.at == x.storedAt
  }

  ghost predicate Sound(requests: seq<Request>, s: System) {
    && |s.stages| == |requests|
    && (forall i :: 0 <= i < |requests| ==> Fits(requests[i], s.stages[i]) && StageOk(requests[i], s.stages[i]))
    && PlainCredentials(s.world.creds)
  }

  ghost predicate MappingsRecorded(digest: string -> string, requests: seq<Request>, s: System) {
    && s.world.sds == MappedAfter(digest, s.mappings) && |s.mappers| == |s.mappings|
    && forall k :: 0 <= k < |s.mappings| ==> MappedBy(requests, s, s.mappers[k], s.mappings[k])
  }

  ghost predicate FindingsRecorded(digest: string -> string, requests: seq<Request>, s: System) {
    && s.world.ids == FoundAfter(digest, s.findings) && |s.finders| == |s.findings|
    && forall k :: 0 <= k < |s.findings| ==>
         FoundBy(requests, s, s.finders[k], s.findings[k]) && CacheKeys.SEPARATOR !in s.findings[k].providerSD
  }

  ghost predicate Recorded(digest: string -> string, requests: seq<Request>, s: System) {
    MappingsRecorded(digest, requests, s) && FindingsRecorded(digest, requests, s)
  }

  ghost predicate AllPlain(requests: seq<Request>) {
    forall i :: 0 <= i < |requests| ==> Plain(requests[i])
  }

  lemma CredentialsPlain(digest: string -> string, c: Client, creds: Credentials, force: bool, x: Exchange)
    requires CacheKeys.SeparatorFree(c.id) && PlainCredentials(creds) && PlainExchange(x)
    ensures var (after, auth) := CredentialsCall(digest, c, creds, force, x);
            PlainCredentials(after) && (auth.Ok? ==> Named(auth.value.1))
  {
    CredentialsAreComplete(digest, c, creds, force, x);
    var names := [c.id.baseURL, c.id.host, c.id.apiPrefix, c.id.tokenAudience, c.id.tokenServiceURL, c.id.providerSD];
    assert names[5] in names;
  }

  lemma StepKeepsCredentials(digest: string -> string, w: World, r: Request, stage: Stage)
    requires Fits(r, stage) && Plain(r) && PlainCredentials(w.creds)
    ensures PlainCredentials(Step(digest, w, r, stage).0.creds)
  {
    match stage
    case Asking(force) => CredentialsPlain(digest, r.client, w.creds, force, LookupOf(r, force).exchange);
    case SigningIn(force) => CredentialsPlain(digest, r.client, w.creds, force, AttemptOf(r, force).exchange);
    case _ =>
  }

  lemma StepCarriesOwnReplies(digest: string -> string, w: World, r: Request, stage: Stage)
    requires Fits(r, stage) && StageOk(r, stage) && Plain(r) && PlainCredentials(w.creds)
    ensures var next := Step(digest, w, r, stage).1;
            Fits(r, next) && StageOk(r, next)
  {
    match stage
    case SigningIn(force) => CredentialsPlain(digest, r.client, w.creds, force, AttemptOf(r, force).exchange);
    case Searching(force, providerSD) =>
      IdentifierCall(digest, r.client, w.ids, providerSD, r.req.subject, AttemptOf(r, force).search);
    case _ =>
  }

  /** Only the storing sections write to the two maps. */
  lemma OthersWriteNothing(digest: string -> string, w: World, r: Request, stage: Stage)
    requires Fits(r, stage)
    ensures !stage.Storing? ==> Step(digest, w, r, stage).0.sds == w.sds
    ensures !stage.Saving? ==> Step(digest, w, r, stage).0.ids == w.ids
  {
  }

  lemma MappedByStays(digest: string -> string, requests: seq<Request>, s: System, i: nat, writer: nat, m: Mapping)
    requires Steppable(requests, s, i) && MappedBy(requests, s, writer, m)
    ensures MappedBy(requests, Next(digest, requests, s, i), writer, m)
  {
  }

  lemma NewMapping(digest: string -> string, requests: seq<Request>, s: System, i: nat)
    requires Sound(requests, s) && i < |requests| && s.stages[i].Storing?
    ensures var t := Next(digest, requests, s, i);
            MappedBy(requests, t, i, t.mappings[|s.mappings|])
  {
    assert StageOk(requests[i], s.stages[i]);
  }

  lemma BeganStays(digest: string -> string, w: World, r: Request, stage: Stage, force: bool)
    requires Fits(r, stage) && Began(stage, force)
    ensures Began(Step(digest, w, r, stage).1, force)
  {
  }

  lemma FoundByStays(digest: string -> string, requests: seq<Request>, s: System, i: nat, finder: Search, f: Finding)
    requires Steppable(requests, s, i) && FoundBy(requests, s, finder, f)
    ensures FoundBy(requests, Next(digest, requests, s, i), finder, f)
  {
    if finder.caller == i {
      BeganStays(digest, s.world, requests[i], s.stages[i], finder.force);
    }
  }

  lemma NewFinding(digest: string -> string, requests: seq<Request>, s: System, i: nat)
    requires Sound(requests, s) && i < |requests| && s.stages[i].Saving?
    ensures var t, force := Next(digest, requests, s, i), s.stages[i].force;
            && FoundBy(requests, t, Search(i, force), t.findings[|s.findings|])
            && CacheKeys.SEPARATOR !in t.findings[|s.findings|].providerSD
  {
    assert StageOk(requests[i], s.stages[i]);
  }

  lemma NextSound(digest: string -> string, requests: seq<Request>, s: System, i: nat)
    requires AllPlain(requests) && Sound(requests, s) && i < |requests|
    ensures Sound(requests, Next(digest, requests, s, i))
  {
    StepKeepsCredentials(digest, s.world, requests[i], s.stages[i]);
    StepCarriesOwnReplies(digest, s.world, requests[i], s.stages[i]);
  }

  lemma StoringRecords(digest: string -> string, requests: seq<Request>, s: System, i: nat)
    requires Sound(requests, s) && MappingsRecorded(digest, requests, s) && i < |requests| && s.stages[i].Storing?
    ensures Next(digest, requests, s, i).world.sds == MappedAfter(digest, Next(digest, requests, s, i).mappings)
  {
    assert StageOk(requests[i], s.stages[i]);
    assert Next(digest, requests, s, i).mappings[..|s.mappings|] == s.mappings;
  }

  lemma NextMappings(digest: string -> string, requests: seq<Request>, s: System, i: nat)
    requires Sound(requests, s) && MappingsRecorded(digest, requests, s) && i < |requests|
    ensures MappingsRecorded(digest, requests, Next(digest, requests, s, i))
  {
    var t := Next(digest, requests, s, i);
    if s.stages[i].Storing? {
      StoringRecords(digest, requests, s, i);
      NewMapping(digest, requests, s, i);
    } else {
      OthersWriteNothing(digest, s.world, requests[i], s.stages[i]);
    }
    forall k | 0 <= k < |s.mappings| ensures MappedBy(requests, t, s.mappers[k], s.mappings[k]) {
      MappedByStays(digest, requests, s, i, s.mappers[k], s.mappings[k]);
    }
  }

  lemma SavingRecords(digest: string -> string, requests: seq<Request>, s: System, i: nat)
    requires Sound(requests, s) && FindingsRecorded(digest, requests, s) && i < |requests| && s.stages[i].Saving?
    ensures Next(digest, requests, s, i).world.ids == FoundAfter(digest, Next(digest, requests, s, i).findings)
  {
    assert Next(digest, requests, s, i).findings[..|s.findings|] == s.findings;
  }

  lemma NextFindings(digest: string -> string, requests: seq<Request>, s: System, i: nat)
    requires Sound(requests, s) && FindingsRecorded(digest, requests, s) && i < |requests|
    ensures FindingsRecorded(digest, requests, Next(digest, requests, s, i))
  {
    var t := Next(digest, requests, s, i);
    if s.stages[i].Saving? {
      SavingRecords(digest, requests, s, i);
      NewFinding(digest, requests, s, i);
    } else {
      OthersWriteNothing(digest, s.world, requests[i], s.stages[i]);
    }
    forall k | 0 <= k < |s.findings| ensures FoundBy(requests, t, s.finders[k], s.findings[k]) {
      FoundByStays(digest, requests, s, i, s.finders[k], s.findings[k]);
    }
  }

  lemma {:induction false} RunRecorded(digest: string -> string, requests: seq<Request>, s: System, turns: seq<nat>)
    requires AllPlain(requests) && Sound(requests, s) && Recorded(digest, requests, s)
    requires After(digest, requests, s, turns).Some?
    ensures var t := After(digest, requests, s, turns).value;
            Sound(requests, t) && Recorded(digest, requests, t)
    decreases |turns|
  {
    if turns != [] {
      NextSound(digest, requests, s, turns[0]);
      NextMappings(digest, requests, s, turns[0]);
      NextFindings(digest, requests, s, turns[0]);
      RunRecorded(digest, requests, Next(digest, requests, s, turns[0]), turns[1..]);
    }
  }

  lemma InitialIsSound(digest: string -> string, requests: seq<Request>)
    ensures Sound(requests, Initial(requests)) && Recorded(digest, requests, Initial(requests))
    ensures Explained(requests, Initial(requests)) && Identified(requests, Initial(requests))
  {
  }

  // ------------------------------------------------------- bounded staleness of runs

  /** What a registry listing says about a DID, and how long it may be repeated. */
  function Told(m: Mapping): Result<string, Error> {
    var sd := Registered(m.listing, m.did);
    if sd == "" then Err(NotRegistered) else Ok(sd)
  }

  function Until(m: Mapping): int {
    m.at + if Registered(m.listing, m.did) == "" then 30 * SECOND else 600 * SECOND
  }

  lemma {:induction false} LatestIsWritten(writes: seq<Mapping>, id: CacheKeys.Identity, did: string) returns (k: nat)
    requires LatestMapping(writes, id, did).Some?
    ensures k < |writes| && writes[k] == LatestMapping(writes, id, did).value && writes[k].id == id
            && writes[k].did == did
  {
    k := |writes| - 1;
    if !(writes[k].id == id && writes[k].did == did) {
      k := LatestIsWritten(writes[..k], id, did);
    }
  }

  lemma HitIsWritten(digest: string -> string, requests: seq<Request>, s: System, id: CacheKeys.Identity, did: string,
                     now: int)
    returns (k: nat)
    requires CacheKeys.Fingerprints(digest) && CacheKeys.SeparatorFree(id)
    requires AllPlain(requests) && MappingsRecorded(digest, requests, s)
    requires ConsultParticipant(s.world.sds, CacheKeys.ParticipantKey(digest, id, did), now).Some?
    ensures k < |s.mappings| && s.mappings[k].id == id && s.mappings[k].did == did && now < Until(s.mappings[k])
    ensures ConsultParticipant(s.world.sds, CacheKeys.ParticipantKey(digest, id, did), now) == Some(Told(s.mappings[k]))
  {
    forall m | m in s.mappings ensures CacheKeys.SeparatorFree(m.id) {
      var n :| 0 <= n < |s.mappings| && s.mappings[n] == m;
      assert MappedBy(requests, s, s.mappers[n], m) && Plain(requests[s.mappers[n]]);
    }
    MappingIsLatestAnswer(digest, s.mappings, id, did, now);
    k := LatestIsWritten(s.mappings, id, did);
  }

  /** In every interleaving of any calls: what the participant cache says about a
      credential and DID, the registry said to a call for that credential and DID
      which has stored it, a mapping under ten minutes ago and an absence under
      thirty seconds ago. */
  lemma MappingHitIsGenuine(digest: string -> string, requests: seq<Request>, turns: seq<nat>,
                            id: CacheKeys.Identity, did: string, now: int) returns (i: nat, m: Mapping)
    requires CacheKeys.Fingerprints(digest) && CacheKeys.SeparatorFree(id) && AllPlain(requests)
    requires After(digest, requests, Initial(requests), turns).Some?
    requires var s := After(digest, requests, Initial(requests), turns).value;
             ConsultParticipant(s.world.sds, CacheKeys.ParticipantKey(digest, id, did), now).Some?
    ensures var s := After(digest, requests, Initial(requests), turns).value;
            && MappedBy(requests, s, i, m) && m.id == id && m.did == did && now < Until(m)
            && ConsultParticipant(s.world.sds, CacheKeys.ParticipantKey(digest, id, did), now) == Some(Told(m))
  {
    InitialIsSound(digest, requests);
    RunRecorded(digest, requests, Initial(requests), turns);
    var s := After(digest, requests, Initial(requests), turns).value;
    var k := HitIsWritten(digest, requests, s, id, did, now);
    i, m := s.mappers[k], s.mappings[k];
  }

  // ------------------------------------------------------------ what callers are told

  /** Write k explains the answer of caller i: it is the caller's own, or it was fresh
      when the caller consulted the cache. */
  predicate Explains(requests: seq<Request>, s: System, i: nat, k: nat)
    requires i < |requests| == |s.stages| && requests[i].MapRequest? && s.stages[i].Mapped?
  {
    && k < |s.mappings| == |s.mappers|
    && s.mappings[k].id == requests[i].client.id && s.mappings[k].did == requests[i].did
    && s.stages[i].answer == Told(s.mappings[k])
    && (s.mappers[k] == i || requests[i].mapping.consultedAt < Until(s.mappings[k]))
  }

  /** The caller was given a mapping, or told that there is none. */
  predicate Informed(requests: seq<Request>, s: System, i: nat)
    requires i < |requests| == |s.stages|
  {
    && requests[i].MapRequest? && requests[i].did != "" && s.stages[i].Mapped?
    && (s.stages[i].answer.Ok? || s.stages[i].answer == Err(NotRegistered))
  }

  ghost predicate Explained(requests: seq<Request>, s: System) {
    |s.stages| == |requests| &&
    forall i :: 0 <= i < |requests| && Informed(requests, s, i) ==> exists k: nat :: Explains(requests, s, i, k)
  }

  lemma OwnTurnExplained(digest: string -> string, requests: seq<Request>, s: System, i: nat)
    requires CacheKeys.Fingerprints(digest) && AllPlain(requests)
    requires Sound(requests, s) && MappingsRecorded(digest, requests, s) && Explained(requests, s) && i < |requests|
    requires Informed(requests, Next(digest, requests, s, i), i)
    ensures exists k: nat :: Explains(requests, Next(digest, requests, s, i), i, k)
  {
    var t := Next(digest, requests, s, i);
    var r := requests[i];
    assert Plain(r) && StageOk(r, s.stages[i]);
    match s.stages[i]
    case Consulting =>
      var k := HitIsWritten(digest, requests, s, r.client.id, r.did, r.mapping.consultedAt);
      assert Explains(requests, t, i, k);
    case Storing(force, sd) => assert Explains(requests, t, i, |s.mappings|);
    case Mapped(_, _) =>
      assert Informed(requests, s, i);
      var k: nat :| Explains(requests, s, i, k);
      ExplainsStays(digest, requests, s, i, i, k);
    case Asking(force) => LookupNeverSaysAbsent(digest, r.client, s.world.creds, r.did, force, LookupOf(r, force));
  }

  /** Only a listing can say that a participant is absent. */
  lemma LookupNeverSaysAbsent(digest: string -> string, c: Client, creds: Credentials, did: string, force: bool,
                              x: LookupReplies)
    ensures LookupParticipant(digest, c, creds, did, force, x).1 != Err(NotRegistered)
  {
  }

  lemma NextExplained(digest: string -> string, requests: seq<Request>, s: System, i: nat)
    requires CacheKeys.Fingerprints(digest) && AllPlain(requests)
    requires Sound(requests, s) && MappingsRecorded(digest, requests, s) && Explained(requests, s) && i < |requests|
    ensures Explained(requests, Next(digest, requests, s, i))
  {
    var t := Next(digest, requests, s, i);
    forall j | 0 <= j < |requests| && Informed(requests, t, j) ensures exists k: nat :: Explains(requests, t, j, k) {
      if j == i {
        OwnTurnExplained(digest, requests, s, i);
      } else {
        assert Informed(requests, s, j);
        var k: nat :| Explains(requests, s, j, k);
        ExplainsStays(digest, requests, s, i, j, k);
      }
    }
  }

  lemma ExplainsStays(digest: string -> string, requests: seq<Request>, s: System, i: nat, j: nat, k: nat)
    requires Steppable(requests, s, i) && j < |requests| && Informed(requests, s, j) && Explains(requests, s, j, k)
    ensures Informed(requests, Next(digest, requests, s, i), j)
    ensures Explains(requests, Next(digest, requests, s, i), j, k)
  {
  }

  lemma {:induction false} RunExplained(digest: string -> string, requests: seq<Request>, s: System, turns: seq<nat>)
    requires CacheKeys.Fingerprints(digest) && AllPlain(requests)
    requires Sound(requests, s) && Recorded(digest, requests, s) && Explained(requests, s)
    requires After(digest, requests, s, turns).Some?
    ensures Explained(requests, After(digest, requests, s, turns).value)
    decreases |turns|
  {
    if turns != [] {
      NextSound(digest, requests, s, turns[0]);
      NextMappings(digest, requests, s, turns[0]);
      NextFindings(digest, requests, s, turns[0]);
      NextExplained(digest, requests, s, turns[0]);
      RunExplained(digest, requests, Next(digest, requests, s, turns[0]), turns[1..]);
    }
  }

  /** In every interleaving: a caller that is given a mapping, or told that there is
      none, was told so by the registry itself or from what the registry told another
      call for the same credential and DID, still fresh when it consulted the cache. */
  lemma AnswerIsGenuine(digest: string -> string, requests: seq<Request>, turns: seq<nat>, i: nat)
    returns (j: nat, m: Mapping)
    requires CacheKeys.Fingerprints(digest) && AllPlain(requests) && i < |requests|
    requires After(digest, requests, Initial(requests), turns).Some?
    requires var s := After(digest, requests, Initial(requests), turns).value;
             |s.stages| == |requests| && Informed(requests, s, i)
    ensures var s := After(digest, requests, Initial(requests), turns).value;
            && MappedBy(requests, s, j, m) && m.id == requests[i].client.id && m.did == requests[i].did
            && s.stages[i].answer == Told(m)
            && (j == i || requests[i].mapping.consultedAt < Until(m))
  {
    InitialIsSound(digest, requests);
    RunRecorded(digest, requests, Initial(requests), turns);
    RunExplained(digest, requests, Initial(requests), turns);
    var s := After(digest, requests, Initial(requests), turns).value;
    var k: nat :| Explains(requests, s, i, k);
    j, m := s.mappers[k], s.mappings[k];
  }

  /** In every interleaving, whoever is given a mapping or credentials is given
      non-empty ones: with the caches in any state a run can reach, the two parties the
      resolver is asked about have names. */
  lemma PartiesHaveNames(digest: string -> string, requests: seq<Request>, turns: seq<nat>, i: nat,
                         c: Client, force: bool, x: Exchange)
    requires CacheKeys.Fingerprints(digest) && AllPlain(requests) && i < |requests| && requests[i].MapRequest?
    requires After(digest, requests, Initial(requests), turns).Some?
    ensures var s := After(digest, requests, Initial(requests), turns).value;
            && |s.stages| == |requests|
            && (s.stages[i].Mapped? && s.stages[i].answer.Ok? ==> s.stages[i].answer.value != "")
            && var auth := CredentialsCall(digest, c, s.world.creds, force, x).1;
               auth.Ok? ==> auth.value.0 != "" && auth.value.1 != ""
  {
    InitialIsSound(digest, requests);
    RunRecorded(digest, requests, Initial(requests), turns);
    var s := After(digest, requests, Initial(requests), turns).value;
    if requests[i].did == "" {
      UnnamedIsRefused(digest, requests, Initial(requests), turns, i);
    } else if s.stages[i].Mapped? && s.stages[i].answer.Ok? {
      var j, m := AnswerIsGenuine(digest, requests, turns, i);
    }
    CredentialsAreComplete(digest, c, s.world.creds, force, x);
  }

  lemma {:induction false} UnnamedIsRefused(digest: string -> string, requests: seq<Request>, s: System,
                                            turns: seq<nat>, i: nat)
    requires i < |requests| == |s.stages| && After(digest, requests, s, turns).Some?
    requires requests[i].MapRequest? && requests[i].did == "" && s.stages[i] == Start(requests[i])
    ensures var t := After(digest, requests, s, turns).value;
            |t.stages| == |requests| && t.stages[i] == Start(requests[i])
    decreases |turns|
  {
    if turns != [] {
      UnnamedIsRefused(digest, requests, Next(digest, requests, s, turns[0]), turns[1..], i);
    }
  }

  // ---------------------------------------------------------------- user identifiers

  lemma {:induction false} LatestIsFound(writes: seq<Finding>, id: CacheKeys.Identity, sd: string, subject: string)
    returns (k: nat)
    requires LatestFinding(writes, id, sd, subject).Some?
    ensures k < |writes| && writes[k] == LatestFinding(writes, id, sd, subject).value
    ensures writes[k].id == id && writes[k].providerSD == sd && writes[k].subject == subject
  {
    k := |writes| - 1;
    if !(writes[k].id == id && writes[k].providerSD == sd && writes[k].subject == subject) {
      k := LatestIsFound(writes[..k], id, sd, subject);
    }
  }

  lemma HitIsFound(digest: string -> string, requests: seq<Request>, s: System, id: CacheKeys.Identity, sd: string,
                   subject: string, now: int) returns (k: nat)
    requires CacheKeys.Fingerprints(digest) && CacheKeys.SeparatorFree(id) && CacheKeys.SEPARATOR !in sd
    requires AllPlain(requests) && FindingsRecorded(digest, requests, s)
    requires ConsultIdentifier(s.world.ids, CacheKeys.IdentifierKey(digest, id, sd, subject), now).Some?
    ensures k < |s.findings| && s.findings[k].id == id && s.findings[k].providerSD == sd
            && s.findings[k].subject == subject
    ensures now < s.findings[k].at + 60 * SECOND
    ensures ConsultIdentifier(s.world.ids, CacheKeys.IdentifierKey(digest, id, sd, subject), now)
            == Some(s.findings[k].identifier)
  {
    forall g | g in s.findings ensures CacheKeys.SeparatorFree(g.id) && CacheKeys.SEPARATOR !in g.providerSD {
      var n :| 0 <= n < |s.findings| && s.findings[n] == g;
      assert FoundBy(requests, s, s.finders[n], g) && Plain(requests[s.finders[n].caller]);
    }
    IdentifierIsLatestFinding(digest, s.findings, id, sd, subject, now);
    k := LatestIsFound(s.findings, id, sd, subject);
  }

  /** In every interleaving: a cached identifier was found by a search that some check
      really made for that credential, provider and subject, and stored under sixty
      seconds ago. */
  lemma IdentifierHitIsGenuine(digest: string -> string, requests: seq<Request>, turns: seq<nat>,
                               id: CacheKeys.Identity, sd: string, subject: string, now: int)
    returns (finder: Search, f: Finding)
    requires CacheKeys.Fingerprints(digest) && CacheKeys.SeparatorFree(id) && CacheKeys.SEPARATOR !in sd
    requires AllPlain(requests) && After(digest, requests, Initial(requests), turns).Some?
    requires var s := After(digest, requests, Initial(requests), turns).value;
             ConsultIdentifier(s.world.ids, CacheKeys.IdentifierKey(digest, id, sd, subject), now).Some?
    ensures var s := After(digest, requests, Initial(requests), turns).value;
            && FoundBy(requests, s, finder, f) && f.id == id && f.providerSD == sd && f.subject == subject
            && now < f.at + 60 * SECOND
            && ConsultIdentifier(s.world.ids, CacheKeys.IdentifierKey(digest, id, sd, subject), now)
               == Some(f.identifier)
  {
    InitialIsSound(digest, requests);
    RunRecorded(digest, requests, Initial(requests), turns);
    var s := After(digest, requests, Initial(requests), turns).value;
    var k := HitIsFound(digest, requests, s, id, sd, subject, now);
    finder, f := s.finders[k], s.findings[k];
  }

  // --------------------------------------------------- whose consents a check is shown

  /** The listing the caller makes, or made last. */
  function Lists(stage: Stage): (last: Option<Attempted>)
    ensures last.Some? ==> last.value.Listed?
  {
    match stage
    case Listing(force, providerSD, identifier) => Some(Listed(force, providerSD, identifier))
    case Checked(last, _) => if last.Some? && last.value.Listed? then last else None
    case _ => None
  }

  /** Finding f tells where caller i has the identifier from: its own search in this
      attempt, or an entry still fresh when this attempt consulted the cache. */
  predicate Identifies(requests: seq<Request>, i: nat, last: Attempted, finder: Search, f: Finding)
    requires i < |requests| && requests[i].CheckRequest? && last.Listed?
  {
    && f.id == requests[i].client.id && f.providerSD == last.providerSD
    && f.subject == requests[i].req.subject && f.identifier == last.identifier
    && (finder == Search(i, last.force)
        || AttemptOf(requests[i], last.force).search.consultedAt < f.at + 60 * SECOND)
  }

  ghost predicate Sourced(requests: seq<Request>, s: System, i: nat, last: Attempted)
    requires i < |requests| && requests[i].CheckRequest? && last.Listed? && |s.finders| == |s.findings|
  {
    exists k :: 0 <= k < |s.findings| && Identifies(requests, i, last, s.finders[k], s.findings[k])
  }

  ghost predicate Identified(requests: seq<Request>, s: System) {
    && |s.stages| == |requests| && |s.finders| == |s.findings|
    && forall i :: 0 <= i < |requests| && requests[i].CheckRequest? && Lists(s.stages[i]).Some? ==>
         Sourced(requests, s, i, Lists(s.stages[i]).value)
  }

  lemma SourcedStays(digest: string -> string, requests: seq<Request>, s: System, j: nat, i: nat, last: Attempted)
    requires Steppable(requests, s, j) && |s.finders| == |s.findings|
    requires i < |requests| && requests[i].CheckRequest? && last.Listed? && Sourced(requests, s, i, last)
    ensures var t := Next(digest, requests, s, j);
            |t.finders| == |t.findings| && Sourced(requests, t, i, last)
  {
    var t := Next(digest, requests, s, j);
    var k :| 0 <= k < |s.findings| && Identifies(requests, i, last, s.finders[k], s.findings[k]);
    assert t.findings[k] == s.findings[k] && t.finders[k] == s.finders[k];
  }

  /** A hit is explained by the write that made the entry. */
  lemma HitIdentified(digest: string -> string, requests: seq<Request>, s: System, i: nat, last: Attempted)
    requires CacheKeys.Fingerprints(digest) && AllPlain(requests) && FindingsRecorded(digest, requests, s)
    requires i < |requests| && requests[i].CheckRequest? && last.Listed? && Named(last.providerSD)
    requires ConsultIdentifier(s.world.ids, IdentifierKeyOf(digest, requests[i], last.providerSD),
                               AttemptOf(requests[i], last.force).search.consultedAt) == Some(last.identifier)
    ensures Sourced(requests, s, i, last)
  {
    var r := requests[i];
    assert Plain(r);
    var now := AttemptOf(r, last.force).search.consultedAt;
    var k := HitIsFound(digest, requests, s, r.client.id, last.providerSD, r.req.subject, now);
    assert Identifies(requests, i, last, s.finders[k], s.findings[k]);
  }

  /** A search of its own is explained by the write the caller makes. */
  lemma SavedIdentified(digest: string -> string, requests: seq<Request>, s: System, i: nat)
    requires Steppable(requests, s, i) && s.stages[i].Saving? && |s.finders| == |s.findings|
    ensures var t, stage := Next(digest, requests, s, i), s.stages[i];
            |t.finders| == |t.findings|
            && Sourced(requests, t, i, Listed(stage.force, stage.providerSD, stage.identifier))
  {
    var t, stage := Next(digest, requests, s, i), s.stages[i];
    var last, k := Listed(stage.force, stage.providerSD, stage.identifier), |s.findings|;
    assert Identifies(requests, i, last, t.finders[k], t.findings[k]);
  }

  lemma OwnTurnIdentified(digest: string -> string, requests: seq<Request>, s: System, i: nat)
    requires CacheKeys.Fingerprints(digest) && AllPlain(requests)
    requires Sound(requests, s) && FindingsRecorded(digest, requests, s) && Identified(requests, s)
    requires i < |requests| && requests[i].CheckRequest?
    ensures var t := Next(digest, requests, s, i);
            && |t.finders| == |t.findings|
            && (Lists(t.stages[i]).Some? ==> Sourced(requests, t, i, Lists(t.stages[i]).value))
  {
    assert StageOk(requests[i], s.stages[i]);
    var lists := Lists(Next(digest, requests, s, i).stages[i]);
    if lists.Some? {
      match s.stages[i]
      case Searching(_, _) =>
        HitIdentified(digest, requests, s, i, lists.value);
        SourcedStays(digest, requests, s, i, i, lists.value);
      case Saving(_, _, _) => SavedIdentified(digest, requests, s, i);
      case Listing(_, _, _) => SourcedStays(digest, requests, s, i, i, lists.value);
      case Checked(_, _) => SourcedStays(digest, requests, s, i, i, lists.value);
      case _ =>
    }
  }

  lemma NextIdentified(digest: string -> string, requests: seq<Request>, s: System, i: nat)
    requires CacheKeys.Fingerprints(digest) && AllPlain(requests)
    requires Sound(requests, s) && FindingsRecorded(digest, requests, s) && Identified(requests, s) && i < |requests|
    ensures Identified(requests, Next(digest, requests, s, i))
  {
    var t := Next(digest, requests, s, i);
    forall j | 0 <= j < |requests| && requests[j].CheckRequest? && Lists(t.stages[j]).Some?
      ensures |t.finders| == |t.findings| && Sourced(requests, t, j, Lists(t.stages[j]).value)
    {
      if j == i {
        OwnTurnIdentified(digest, requests, s, i);
      } else {
        SourcedStays(digest, requests, s, i, j, Lists(s.stages[j]).value);
      }
    }
  }

  lemma {:induction false} RunIdentified(digest: string -> string, requests: seq<Request>, s: System, turns: seq<nat>)
    requires CacheKeys.Fingerprints(digest) && AllPlain(requests)
    requires Sound(requests, s) && FindingsRecorded(digest, requests, s) && Identified(requests, s)
    requires After(digest, requests, s, turns).Some?
    ensures Identified(requests, After(digest, requests, s, turns).value)
    decreases |turns|
  {
    if turns != [] {
      NextSound(digest, requests, s, turns[0]);
      NextFindings(digest, requests, s, turns[0]);
      NextIdentified(digest, requests, s, turns[0]);
      RunIdentified(digest, requests, Next(digest, requests, s, turns[0]), turns[1..]);
    }
  }

  /** Why a check allowed: the attempt it last made listed the consents of an
      identifier, one of them authorizes the request, and that identifier is the one a
      search really made for this credential, provider and subject had found, in this
      attempt or stored under sixty seconds before it consulted the cache. */
  predicate RestsOn(requests: seq<Request>, s: System, i: nat, finder: Search, f: Finding)
    requires i < |requests| == |s.stages| && requests[i].CheckRequest? && s.stages[i].Checked?
  {
    var last := s.stages[i].last;
    && last.Some? && Showed(requests[i], last.value)
    && FoundBy(requests, s, finder, f) && Identifies(requests, i, last.value, finder, f)
  }

  /** In every interleaving: a check that allows rests on its own last attempt and on
      the consents of its own subject. */
  lemma AllowedCheckRests(digest: string -> string, requests: seq<Request>, turns: seq<nat>, i: nat)
    returns (finder: Search, f: Finding)
    requires CacheKeys.Fingerprints(digest) && AllPlain(requests) && i < |requests| && requests[i].CheckRequest?
    requires After(digest, requests, Initial(requests), turns).Some?
    requires var s := After(digest, requests, Initial(requests), turns).value;
             |s.stages| == |requests| && s.stages[i].Checked?
             && s.stages[i].result.Ok? && s.stages[i].result.value.decision == Allow
    ensures RestsOn(requests, After(digest, requests, Initial(requests), turns).value, i, finder, f)
  {
    var s0 := Initial(requests);
    InitialIsSound(digest, requests);
    RunRecorded(digest, requests, s0, turns);
    RunIdentified(digest, requests, s0, turns);
    finder, f := AllowedRests(digest, requests, After(digest, requests, s0, turns).value, i);
  }

  lemma AllowedRests(digest: string -> string, requests: seq<Request>, s: System, i: nat)
      returns (finder: Search, f: Finding)
    requires Sound(requests, s) && FindingsRecorded(digest, requests, s) && Identified(requests, s)
    requires i < |requests| && requests[i].CheckRequest? && s.stages[i].Checked?
    requires s.stages[i].result.Ok? && s.stages[i].result.value.decision == Allow
    ensures RestsOn(requests, s, i, finder, f)
  {
    assert StageOk(requests[i], s.stages[i]);
    var last := Lists(s.stages[i]).value;
    assert Sourced(requests, s, i, last);
    var k :| 0 <= k < |s.findings| && Identifies(requests, i, last, s.finders[k], s.findings[k]);
    finder, f := s.finders[k], s.findings[k];
    assert FoundBy(requests, s, finder, f);
  }

  /** In every interleaving: a check that says "unknown subject" was told so by the
      search of its own last attempt, and none lets the sentinel out. */
  lemma UnknownIsOwnSearch(digest: string -> string, requests: seq<Request>, turns: seq<nat>, i: nat)
    requires AllPlain(requests) && i < |requests| && requests[i].CheckRequest?
    requires After(digest, requests, Initial(requests), turns).Some?
    ensures var s := After(digest, requests, Initial(requests), turns).value;
            |s.stages| == |requests| &&
            (s.stages[i].Checked? ==>
               && s.stages[i].result != Err(Unauthorized)
               && (s.stages[i].result == Ok(Response(Deny, "no user identifier for subject")) ==>
                     s.stages[i].last.Some? && KnewNobody(requests[i], s.stages[i].last.value)))
  {
    InitialIsSound(digest, requests);
    RunRecorded(digest, requests, Initial(requests), turns);
    var s := After(digest, requests, Initial(requests), turns).value;
    assert StageOk(requests[i], s.stages[i]);
  }
}
