/** The consent client: three package-wide caches with different rules, one
    refresh-and-retry, and the scoped consent match. HTTP replies are inputs.

    The functions say what one call does to the caches and what it answers; the
    methods do it in place and are proved to agree. */
module ConsentClient {
  import opened Wrappers
  import opened Outcomes
  import opened Durations
  import opened Lifetimes
  import CacheKeys

  const PARTICIPANT_SD_TTL: int := 600 * SECOND
  const PARTICIPANT_SD_NEGATIVE_TTL: int := 30 * SECOND
  const IDENTIFIER_TTL: int := 60 * SECOND
  const GRANTED_STATUS := "granted"

  /** Why an HTTP call brought no response at all. */
  datatype NetError = CutOff | TimedOut | Broken(text: string)

  function NetFailure(e: NetError): Error {
    match e
    case CutOff => Canceled
    case TimedOut => DeadlineExceeded
    case Broken(text) => Other(text)
  }

  /** What a dependency answered: nothing, a status other than 200, a 200 whose
      body does not decode, or a decoded body. */
  datatype Reply<+T> = NoReply(error: NetError) | Status(code: int) | Undecodable | Body(value: T)

  datatype Client = Client(id: CacheKeys.Identity, tokenTTL: int)

  // --------------------------------------------------------------- credentials

  /** One cached credential: the token, when it expires, the derived provider. */
  datatype Credential = Credential(token: string, expiry: int, providerSD: string)

  const NEW_CREDENTIAL := Credential("", 0, "")

  datatype TokenBody = TokenBody(accessToken: string, expiresIn: int)

  /** The clock readings and replies of one credentials call. */
  datatype Exchange = Exchange(checkedAt: int, fetchedAt: int, token: Reply<TokenBody>, me: Reply<string>)

  /** The token and the lifetime it was reported with. */
  function FetchToken(r: Reply<TokenBody>): Result<(string, int), Error> {
    match r
    case NoReply(e) => Err(NetFailure(e))
    case Status(_) => Err(Other("token service status"))
    case Undecodable => Err(Other("token service body"))
    case Body(b) =>
      if b.accessToken == "" then Err(Other("no access token")) else Ok((b.accessToken, ReportedLifetime(b.expiresIn)))
  }

  function FetchProviderSD(r: Reply<string>): Result<string, Error> {
    match r
    case NoReply(e) => Err(NetFailure(e))
    case Status(code) => Err(if code == 401 then Unauthorized else Other("/me status"))
    case Undecodable => Err(Other("/me body"))
    case Body(sd) => if sd == "" then Err(Other("no selfDescriptionURL")) else Ok(sd)
  }

  /** `fetched` says whether the token service was asked. */
  datatype Refreshed = Refreshed(entry: Credential, result: Result<(string, string), Error>, fetched: bool)

  function WithProvider(c: Client, e: Credential, token: string, x: Exchange, fetched: bool): Refreshed {
    if c.id.providerSD != "" then Refreshed(e, Ok((token, c.id.providerSD)), fetched)
    else if e.providerSD != "" then Refreshed(e, Ok((token, e.providerSD)), fetched)
    else match FetchProviderSD(x.me)
      case Err(err) => Refreshed(e, Err(err), fetched)
      case Ok(sd) => Refreshed(e.(providerSD := sd), Ok((token, sd)), fetched)
  }

  /** The section of a credentials call that holds the entry's own lock. */
  function Refresh(c: Client, e: Credential, force: bool, x: Exchange): Refreshed {
    if c.id.staticToken != "" then WithProvider(c, e, c.id.staticToken, x, false)
    else
      var kept := if force then e.(token := "") else e;
      if kept.token != "" && x.checkedAt <= kept.expiry then WithProvider(c, kept, kept.token, x, false)
      else match FetchToken(x.token)
        case Err(err) => Refreshed(kept, Err(err), true)
        case Ok((token, lifetime)) =>
          WithProvider(c, kept.(token := token, expiry := x.fetchedAt + CacheFor(lifetime, c.tokenTTL)), token, x, true)
  }

  type Credentials = map<string, Credential>

  function EntryFor(creds: Credentials, key: string): Credential {
    if key in creds then creds[key] else NEW_CREDENTIAL
  }

  predicate FullyStatic(c: Client) {
    c.id.staticToken != "" && c.id.providerSD != ""
  }

  predicate WithoutCredentials(c: Client) {
    c.id.staticToken == "" && c.id.tokenServiceURL == ""
  }

  /** One whole credentials call. */
  function CredentialsCall(digest: string -> string, c: Client, creds: Credentials, force: bool, x: Exchange)
    : (Credentials, Result<(string, string), Error>)
  {
    if FullyStatic(c) then (creds, Ok((c.id.staticToken, c.id.providerSD)))
    else if WithoutCredentials(c) then (creds, Err(NoCredentials))
    else
      var key := CacheKeys.CredentialKey(digest, c.id);
      var r := Refresh(c, EntryFor(creds, key), force, x);
      (creds[key := r.entry], r.result)
  }

  // -------------------------------------------------------- participant mapping

  datatype ParticipantEntry = ParticipantEntry(selfDescription: string, expiry: int, unknown: bool)

  datatype Participant = Participant(did: string, selfDescription: string)

  /** The self-description the registry holds for a DID, or "". */
  function Registered(listing: seq<Participant>, did: string): string {
    if listing == [] then ""
    else if listing[0].did == did && listing[0].selfDescription != "" then listing[0].selfDescription
    else Registered(listing[1..], did)
  }

  datatype LookupReplies = LookupReplies(exchange: Exchange, listing: Reply<seq<Participant>>)

  function LookupParticipant(digest: string -> string, c: Client, creds: Credentials, did: string, force: bool,
                             x: LookupReplies)
    : (Credentials, Result<string, Error>)
  {
    var (after, auth) := CredentialsCall(digest, c, creds, force, x.exchange);
    match auth
    case Err(e) => (after, Err(e))
    case Ok(_) =>
      match x.listing
      case NoReply(e) => (after, Err(NetFailure(e)))
      case Status(code) => (after, Err(if code == 401 then Unauthorized else Other("participants status")))
      case Undecodable => (after, Err(Other("participants body")))
      case Body(listing) => (after, Ok(Registered(listing, did)))
  }

  type Participants = map<string, ParticipantEntry>

  /** A fresh cache hit: the mapping, or the remembered absence. */
  function ConsultParticipant(sds: Participants, key: string, now: int): Option<Result<string, Error>> {
    if key !in sds || now >= sds[key].expiry then None
    else Some(if sds[key].unknown then Err(NotRegistered) else Ok(sds[key].selfDescription))
  }

  function RememberParticipant(sds: Participants, key: string, sd: string, now: int): Participants {
    if sd == "" then sds[key := ParticipantEntry("", now + PARTICIPANT_SD_NEGATIVE_TTL, true)]
    else sds[key := ParticipantEntry(sd, now + PARTICIPANT_SD_TTL, false)]
  }

  /** Everything package-wide. */
  datatype World = World(creds: Credentials, sds: Participants, ids: Identifiers)

  datatype MappingReplies = MappingReplies(consultedAt: int, first: LookupReplies, second: LookupReplies, storedAt: int)

  function LookupWithRetry(digest: string -> string, c: Client, creds: Credentials, did: string, x: MappingReplies)
    : (Credentials, Result<string, Error>)
  {
    var (once, answer) := LookupParticipant(digest, c, creds, did, false, x.first);
    if answer == Err(Unauthorized) && c.id.staticToken == ""
    then LookupParticipant(digest, c, once, did, true, x.second)
    else (once, answer)
  }

  function SelfDescriptionByDID(digest: string -> string, c: Client, w: World, did: string, x: MappingReplies)
    : (World, Result<string, Error>)
  {
    if did == "" then (w, Err(Other("empty participant did")))
    else
      var key := CacheKeys.ParticipantKey(digest, c.id, did);
      match ConsultParticipant(w.sds, key, x.consultedAt)
      case Some(hit) => (w, hit)
      case None =>
        var (creds, answer) := LookupWithRetry(digest, c, w.creds, did, x);
        match answer
        case Err(e) => (w.(creds := creds), Err(if e.Unauthorized? then Other("participant token rejected") else e))
        case Ok(sd) =>
          (World(creds, RememberParticipant(w.sds, key, sd, x.storedAt), w.ids),
           if sd == "" then Err(NotRegistered) else Ok(sd))
  }

  // ------------------------------------------------------------ user identifiers

  datatype IdentifierEntry = IdentifierEntry(userIdentifier: string, expiry: int)

  type Identifiers = map<string, IdentifierEntry>

  /** What the search service says about a provider and a subject. */
  type Searches = (string, string) -> Reply<string>

  datatype SearchReplies = SearchReplies(consultedAt: int, search: Searches, storedAt: int)

  function ConsultIdentifier(ids: Identifiers, key: string, now: int): Option<string> {
    if key !in ids || now >= ids[key].expiry then None else Some(ids[key].userIdentifier)
  }

  function RememberIdentifier(ids: Identifiers, key: string, identifier: string, now: int): Identifiers {
    ids[key := IdentifierEntry(identifier, now + IDENTIFIER_TTL)]
  }

  /** Ok(None) is an unknown subject. */
  function ResolveIdentifier(digest: string -> string, c: Client, ids: Identifiers, providerSD: string, subject: string,
                             x: SearchReplies): (Identifiers, Result<Option<string>, Error>)
  {
    var key := CacheKeys.IdentifierKey(digest, c.id, providerSD, subject);
    match ConsultIdentifier(ids, key, x.consultedAt)
    case Some(id) => (ids, Ok(Some(id)))
    case None =>
      match x.search(providerSD, subject)
      case NoReply(e) => (ids, Err(NetFailure(e)))
      case Status(code) =>
        (ids,
         if code == 404 then Ok(None)
         else Err(if code == 401 then Unauthorized else Other("identifier search status")))
      case Undecodable => (ids, Err(Other("identifier search body")))
      case Body(id) =>
        if id == "" then (ids, Ok(None)) else (RememberIdentifier(ids, key, id, x.storedAt), Ok(Some(id)))
  }

  // --------------------------------------------------------------- consent match

  datatype ParticipantRef = ParticipantRef(selfDescription: string, id: string, did: string, literal: string)

  datatype PurposeRef = PurposeRef(id: string, purpose: string)

  datatype ConsentRecord = ConsentRecord(
    status: string, data: seq<string>, consumer: ParticipantRef, dataConsumer: ParticipantRef,
    recipients: seq<string>, purposes: seq<PurposeRef>)

  predicate Matches(p: ParticipantRef, identity: string) {
    identity != "" && identity in [p.selfDescription, p.id, p.did, p.literal]
  }

  /** Only the first recipient counts. */
  predicate GrantedTo(r: ConsentRecord, consumer: string) {
    || Matches(r.consumer, consumer) || Matches(r.dataConsumer, consumer)
    || (r.recipients != [] && r.recipients[0] != "" && r.recipients[0] == consumer)
  }

  predicate CoversPurpose(r: ConsentRecord, purpose: string) {
    purpose == "" || exists p :: p in r.purposes && (p.purpose == purpose || p.id == purpose)
  }

  predicate CoversResource(r: ConsentRecord, resource: string) {
    resource == "" || resource in r.data
  }

  predicate Authorizes(r: ConsentRecord, req: ConsentRequest) {
    && r.status == GRANTED_STATUS
    && GrantedTo(r, req.consumer) && CoversPurpose(r, req.purpose) && CoversResource(r, req.dataResource)
  }

  predicate AnyAuthorizes(listing: seq<ConsentRecord>, req: ConsentRequest) {
    exists r :: r in listing && Authorizes(r, req)
  }

  function ListedConsent(reply: Reply<seq<ConsentRecord>>, req: ConsentRequest): Result<bool, Error> {
    match reply
    case NoReply(e) => Err(NetFailure(e))
    case Status(code) => Err(if code == 401 then Unauthorized else Other("consents lookup status"))
    case Undecodable => Err(Other("consents body"))
    case Body(listing) => Ok(AnyAuthorizes(listing, req))
  }

  method PurposeCovered(r: ConsentRecord, purpose: string) returns (covered: bool)
    ensures covered == CoversPurpose(r, purpose)
  {
    if purpose == "" {
      return true;
    }
    for i := 0 to |r.purposes|
      invariant forall k :: 0 <= k < i ==> r.purposes[k].purpose != purpose && r.purposes[k].id != purpose
    {
      if r.purposes[i].purpose == purpose || r.purposes[i].id == purpose {
        return true;
      }
    }
    return false;
  }

  /** The consents the service lists for each user identifier. */
  type Listings = string -> Reply<seq<ConsentRecord>>

  method HasGrantedConsent(listings: Listings, userIdentifier: string, req: ConsentRequest)
    returns (granted: Result<bool, Error>)
    ensures granted == ListedConsent(listings(userIdentifier), req)
  {
    match listings(userIdentifier)
    case NoReply(e) => return Err(NetFailure(e));
    case Status(code) => return Err(if code == 401 then Unauthorized else Other("consents lookup status"));
    case Undecodable => return Err(Other("consents body"));
    case Body(listing) =>
      for i := 0 to |listing|
        invariant forall k :: 0 <= k < i ==> !Authorizes(listing[k], req)
      {
        if listing[i].status != GRANTED_STATUS {
          continue;
        }
        var purposeCovered := PurposeCovered(listing[i], req.purpose);
        if GrantedTo(listing[i], req.consumer) && purposeCovered && CoversResource(listing[i], req.dataResource) {
          assert listing[i] in listing && Authorizes(listing[i], req);
          return Ok(true);
        }
      }
      return Ok(false);
  }

  // --------------------------------------------------------------------- a check

  datatype Response = Response(decision: Decision, reason: string)

  datatype CheckReplies = CheckReplies(exchange: Exchange, search: SearchReplies, listings: Listings)

  /** What an attempt decides once the credentials are known: the subject is
      identified, and the consents listed under that identifier are matched. */
  function SubjectDecision(digest: string -> string, c: Client, ids: Identifiers, req: ConsentRequest,
                    providerSD: string, x: CheckReplies)
    : (Identifiers, Result<Response, Error>)
  {
    var (after, found) := ResolveIdentifier(digest, c, ids, providerSD, req.subject, x.search);
    match found
    case Err(e) => (after, Err(e))
    case Ok(None) => (after, Ok(Response(Deny, "no user identifier for subject")))
    case Ok(Some(id)) =>
      match ListedConsent(x.listings(id), req)
      case Err(e) => (after, Err(e))
      case Ok(granted) => (after, Ok(if granted then Response(Allow, "") else Response(Deny, "no granted consent")))
  }

  /** One verification attempt. */
  function Check(digest: string -> string, c: Client, w: World, req: ConsentRequest, force: bool, x: CheckReplies)
    : (World, Result<Response, Error>)
  {
    var (creds, auth) := CredentialsCall(digest, c, w.creds, force, x.exchange);
    match auth
    case Err(e) => (w.(creds := creds), Err(e))
    case Ok((token, providerSD)) =>
      var (ids, answer) := SubjectDecision(digest, c, w.ids, req, providerSD, x);
      (World(creds, w.sds, ids), answer)
  }

  /** The attempt that decides a check: the first, or the one after the refresh. */
  function DecidingAttempt(digest: string -> string, c: Client, w: World, req: ConsentRequest,
                           first: CheckReplies, second: CheckReplies)
    : (World, Result<Response, Error>)
  {
    var (once, answer) := Check(digest, c, w, req, false, first);
    if answer == Err(Unauthorized) && c.id.staticToken == ""
    then Check(digest, c, once, req, true, second)
    else (once, answer)
  }

  function CheckConsent(digest: string -> string, c: Client, w: World, req: ConsentRequest,
                        first: CheckReplies, second: CheckReplies)
    : (World, Result<Response, Error>)
  {
    if req.subject == "" then (w, Ok(Response(Deny, "no subject in request")))
    else if req.consumer == "" then (w, Ok(Response(Deny, "no consuming participant identified")))
    else
      var (after, answer) := DecidingAttempt(digest, c, w, req, first, second);
      (after, WithoutSentinel(answer))
  }

  /** The unauthorized sentinel is internal to the client. */
  function WithoutSentinel(answer: Result<Response, Error>): Result<Response, Error> {
    if answer == Err(Unauthorized) then Err(Other("participant token rejected")) else answer
  }
}
