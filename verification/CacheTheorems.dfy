/** Bounded staleness of the participant and identifier caches, and what a consent
    check rests on. The caches are consulted and written in separate critical
    sections, so a run is the sequence of writes, by any callers, in lock order. */
module CacheTheorems {
  import opened Wrappers
  import opened Outcomes
  import opened ConsentClient
  import opened Durations
  import CacheKeys

  // -------------------------------------------------------- participant mapping

  /** One write to the participant cache: the registry listing a lookup got. */
  datatype Mapping = Mapping(id: CacheKeys.Identity, did: string, listing: seq<Participant>, at: int)

  function MappedAfter(digest: string -> string, writes: seq<Mapping>): Participants {
    if writes == [] then map[]
    else
      var m := writes[|writes| - 1];
      RememberParticipant(MappedAfter(digest, writes[..|writes| - 1]), CacheKeys.ParticipantKey(digest, m.id, m.did),
                          Registered(m.listing, m.did), m.at)
  }

  function LatestMapping(writes: seq<Mapping>, id: CacheKeys.Identity, did: string): Option<Mapping> {
    if writes == [] then None
    else
      var m := writes[|writes| - 1];
      if m.id == id && m.did == did then Some(m) else LatestMapping(writes[..|writes| - 1], id, did)
  }

  /** What the latest registry answer for a DID still says at `now`: a mapping for
      ten minutes, an absence for thirty seconds. */
  function StillKnown(latest: Option<Mapping>, now: int): Option<Result<string, Error>> {
    match latest
    case None => None
    case Some(m) =>
      var sd := Registered(m.listing, m.did);
      if now >= m.at + (if sd == "" then 30 * SECOND else 600 * SECOND) then None
      else Some(if sd == "" then Err(NotRegistered) else Ok(sd))
  }

  /** After any writes by any callers, the cache answers exactly with the latest
      registry answer for this credential and DID, while it is fresh. */
  lemma {:induction false} MappingIsLatestAnswer(digest: string -> string, writes: seq<Mapping>,
                                                 id: CacheKeys.Identity, did: string, now: int)
    requires CacheKeys.Fingerprints(digest) && CacheKeys.SeparatorFree(id)
    requires forall m :: m in writes ==> CacheKeys.SeparatorFree(m.id)
    ensures ConsultParticipant(MappedAfter(digest, writes), CacheKeys.ParticipantKey(digest, id, did), now)
            == StillKnown(LatestMapping(writes, id, did), now)
  {
    if writes != [] {
      var m := writes[|writes| - 1];
      MappingIsLatestAnswer(digest, writes[..|writes| - 1], id, did, now);
      assert m in writes;
      CacheKeys.ParticipantKeyIff(digest, id, did, m.id, m.did);
    }
  }

  /** A lookup writes nothing but the answer of the registry in that very call, and
      answers from it or from a fresh entry. A transport error, a refusal or an
      undecodable listing writes nothing. */
  lemma MappingCall(digest: string -> string, c: Client, w: World, did: string, x: MappingReplies)
    requires did != ""
    ensures var key := CacheKeys.ParticipantKey(digest, c.id, did);
            var (after, answer) := SelfDescriptionByDID(digest, c, w, did, x);
            var hit := ConsultParticipant(w.sds, key, x.consultedAt);
            after.ids == w.ids && answer != Err(Unauthorized) &&
            if hit.Some? then after == w && answer == hit.value
            else match LookupWithRetry(digest, c, w.creds, did, x).1
              case Err(e) =>
                after.sds == w.sds && answer
                    == Err(if e == Unauthorized then Other("participant token rejected") else e)
              case Ok(sd) =>
                && (exists listing :: (x.first.listing == Body(listing) || x.second.listing == Body(listing))
                                    && sd == Registered(listing, did))
                && after.sds == RememberParticipant(w.sds, key, sd, x.storedAt)
                && answer == (if sd == "" then Err(NotRegistered) else Ok(sd))
  {
    var (_, answer) := LookupWithRetry(digest, c, w.creds, did, x);
    if answer.Ok? {
      var listing := if x.first.listing.Body? && answer.value == Registered(x.first.listing.value, did)
        then x.first.listing.value else x.second.listing.value;
      assert answer.value == Registered(listing, did);
    }
  }

  /** A dependency call brought this error: no response, a refused token, or a
      response that is of no use. */
  predicate FailsWith<T>(reply: Reply<T>, e: Error) {
    match reply
    case NoReply(CutOff) => e == Canceled
    case NoReply(TimedOut) => e == DeadlineExceeded
    case NoReply(Broken(_)) => e.Other?
    case Status(code) => if code == 401 then e == Unauthorized else e.Other?
    case Undecodable => e.Other?
    case Body(_) => false
  }

  /** One lookup answers with what the listing says, or with the error of the one
      call that failed. */
  lemma LookupAnswers(digest: string -> string, c: Client, creds: Credentials, did: string, force: bool,
                      x: LookupReplies)
    ensures var auth := CredentialsCall(digest, c, creds, force, x.exchange).1;
            match LookupParticipant(digest, c, creds, did, force, x).1
            case Ok(sd) => auth.Ok? && x.listing.Body? && sd == Registered(x.listing.value, did)
            case Err(e) => auth == Err(e) || (auth.Ok? && FailsWith(x.listing, e))
  {
  }

  /** The first lookup was refused the token it used. */
  predicate LookupRejected(digest: string -> string, c: Client, creds: Credentials, x: LookupReplies) {
    var auth := CredentialsCall(digest, c, creds, false, x.exchange).1;
    auth == Err(Unauthorized) || (auth.Ok? && x.listing == Status(401))
  }

  /** What the dependencies would say to a second lookup matters if and only if the
      registry has to be asked, refused the first token with a 401, and there is
      another token to be had. */
  lemma LookupRetriedIff(digest: string -> string, c: Client, w: World, did: string, x: MappingReplies)
    ensures (exists a, b :: SelfDescriptionByDID(digest, c, w, did, x.(second := a))
                            != SelfDescriptionByDID(digest, c, w, did, x.(second := b)))
            <==> && did != "" && c.id.staticToken == ""
                 && ConsultParticipant(w.sds, CacheKeys.ParticipantKey(digest, c.id, did), x.consultedAt).None?
                 && LookupRejected(digest, c, w.creds, x.first)
  {
    FirstLookupRejectedIff(digest, c, w.creds, did, x.first);
    if && did != "" && c.id.staticToken == ""
       && ConsultParticipant(w.sds, CacheKeys.ParticipantKey(digest, c.id, did), x.consultedAt).None?
       && LookupRejected(digest, c, w.creds, x.first)
    {
      var a := x.first.(exchange := x.first.exchange.(token := NoReply(CutOff)));
      var b := x.first.(exchange := x.first.exchange.(token := NoReply(TimedOut)));
      var once := LookupParticipant(digest, c, w.creds, did, false, x.first).0;
      assert LookupParticipant(digest, c, once, did, true, a).1 == Err(Canceled);
      assert LookupParticipant(digest, c, once, did, true, b).1 == Err(DeadlineExceeded);
      assert SelfDescriptionByDID(digest, c, w, did, x.(second := a)).1 == Err(Canceled);
      assert SelfDescriptionByDID(digest, c, w, did, x.(second := b)).1 == Err(DeadlineExceeded);
    }
  }

  lemma FirstLookupRejectedIff(digest: string -> string, c: Client, creds: Credentials, did: string, x: LookupReplies)
    ensures LookupParticipant(digest, c, creds, did, false, x).1 == Err(Unauthorized)
            <==> LookupRejected(digest, c, creds, x)
  {
    if x.listing.Status? {
      assert x.listing == Status(401) <==> x.listing.code == 401;
    }
  }

  /** What a mapping call leaves of the credentials: each lookup keeps what it learned
      about the token and the provider, also when it fails, and a forced one starts from
      there. A DID that is missing or known asks nobody. */
  lemma MappingLeaves(digest: string -> string, c: Client, w: World, did: string, x: MappingReplies)
    ensures var (after, answer) := SelfDescriptionByDID(digest, c, w, did, x);
            var once := CredentialsCall(digest, c, w.creds, false, x.first.exchange).0;
            && (did == "" ==> after == w && answer.Err? && answer.error.Other?)
            && after.creds ==
                 if did == "" || ConsultParticipant(w.sds, CacheKeys.ParticipantKey(digest, c.id, did),
                                                    x.consultedAt).Some? then w.creds
                 else if c.id.staticToken == "" && LookupRejected(digest, c, w.creds, x.first)
                   then CredentialsCall(digest, c, once, true, x.second.exchange).0
                 else once
  {
    FirstLookupRejectedIff(digest, c, w.creds, did, x.first);
  }

  // ------------------------------------------------------------ user identifiers

  datatype Finding = Finding(id: CacheKeys.Identity, providerSD: string, subject: string, identifier: string, at: int)

  function FoundAfter(digest: string -> string, writes: seq<Finding>): Identifiers {
    if writes == [] then map[]
    else
      var f := writes[|writes| - 1];
      RememberIdentifier(FoundAfter(digest, writes[..|writes| - 1]),
                         CacheKeys.IdentifierKey(digest, f.id, f.providerSD, f.subject), f.identifier, f.at)
  }

  function LatestFinding(writes: seq<Finding>, id: CacheKeys.Identity, sd: string, subject: string): Option<Finding> {
    if writes == [] then None
    else
      var f := writes[|writes| - 1];
      if f.id == id && f.providerSD == sd && f.subject == subject then Some(f)
      else LatestFinding(writes[..|writes| - 1], id, sd, subject)
  }

  /** A cached identifier is the latest one found for this credential, provider and
      subject, under sixty seconds ago. */
  lemma {:induction false} IdentifierIsLatestFinding(digest: string -> string, writes: seq<Finding>,
                                                     id: CacheKeys.Identity, sd: string, subject: string, now: int)
    requires CacheKeys.Fingerprints(digest) && CacheKeys.SeparatorFree(id) && CacheKeys.SEPARATOR !in sd
    requires forall f :: f in writes ==> CacheKeys.SeparatorFree(f.id) && CacheKeys.SEPARATOR !in f.providerSD
    ensures ConsultIdentifier(FoundAfter(digest, writes), CacheKeys.IdentifierKey(digest, id, sd, subject), now)
            == match LatestFinding(writes, id, sd, subject)
               case None => None
               case Some(f) => if now < f.at + 60 * SECOND then Some(f.identifier) else None
  {
    if writes != [] {
      var f := writes[|writes| - 1];
      IdentifierIsLatestFinding(digest, writes[..|writes| - 1], id, sd, subject, now);
      assert f in writes;
      CacheKeys.IdentifierKeyIff(digest, id, sd, subject, f.id, f.providerSD, f.subject);
    }
  }

  /** Only a search of this very call, for this provider and subject, can say "unknown
      subject", and only a search that found somebody is remembered. */
  lemma IdentifierCall(digest: string -> string, c: Client, ids: Identifiers, providerSD: string, subject: string,
                       x: SearchReplies)
    ensures var (after, found) := ResolveIdentifier(digest, c, ids, providerSD, subject, x);
            var key, reply := CacheKeys.IdentifierKey(digest, c.id, providerSD, subject), x.search(providerSD, subject);
            && (found == Ok(None) <==>
                ConsultIdentifier(ids, key, x.consultedAt).None? && (reply == Status(404) || reply == Body("")))
            && (after != ids ==> reply.Body? && reply.value != "" && found == Ok(Some(reply.value))
                                 && after == RememberIdentifier(ids, key, reply.value, x.storedAt))
  {
    var reply := x.search(providerSD, subject);
    if reply.Status? {
      assert reply == Status(404) <==> reply.code == 404;
    }
  }

  // --------------------------------------------------------------- whole checks

  /** What the deciding attempt ran with: its world, whether it forced a refresh,
      and the replies it got. */
  datatype Attempt = Attempt(before: World, force: bool, replies: CheckReplies)

  function LastAttempt(digest: string -> string, c: Client, w: World, req: ConsentRequest, first: CheckReplies,
                       second: CheckReplies): Attempt {
    var once := Check(digest, c, w, req, false, first);
    if once.1 == Err(Unauthorized) && c.id.staticToken == "" then Attempt(once.0, true, second)
        else Attempt(w, false, first)
  }

  /** The attempt got credentials, identified the subject, and found under that very
      identifier a granted consent that names the consumer and covers purpose and
      resource. */
  predicate ShownConsent(digest: string -> string, c: Client, req: ConsentRequest, a: Attempt) {
    var auth := CredentialsCall(digest, c, a.before.creds, a.force, a.replies.exchange).1;
    auth.Ok? &&
    var found := ResolveIdentifier(digest, c, a.before.ids, auth.value.1, req.subject, a.replies.search).1;
    found.Ok? && found.value.Some? &&
    var listing := a.replies.listings(found.value.value);
    listing.Body? && AnyAuthorizes(listing.value, req)
  }

  /** The attempt knows the subject under this identifier: from a fresh entry, or from
      its own search for this provider and subject. */
  predicate KnownAs(digest: string -> string, c: Client, req: ConsentRequest, a: Attempt, providerSD: string,
                    id: string) {
    var key, x := CacheKeys.IdentifierKey(digest, c.id, providerSD, req.subject), a.replies.search;
    match ConsultIdentifier(a.before.ids, key, x.consultedAt)
    case Some(hit) => id == hit
    case None => id != "" && x.search(providerSD, req.subject) == Body(id)
  }

  /** The attempt searched, and the service knows nobody by that name. */
  predicate NobodyKnown(digest: string -> string, c: Client, req: ConsentRequest, a: Attempt, providerSD: string) {
    var key, x := CacheKeys.IdentifierKey(digest, c.id, providerSD, req.subject), a.replies.search;
    && ConsultIdentifier(a.before.ids, key, x.consultedAt).None?
    && (x.search(providerSD, req.subject) == Status(404) || x.search(providerSD, req.subject) == Body(""))
  }

  /** The attempt's own search brought this error. */
  predicate SearchFails(digest: string -> string, c: Client, req: ConsentRequest, a: Attempt, providerSD: string,
                        e: Error) {
    var key, x := CacheKeys.IdentifierKey(digest, c.id, providerSD, req.subject), a.replies.search;
    var reply := x.search(providerSD, req.subject);
    ConsultIdentifier(a.before.ids, key, x.consultedAt).None? && reply != Status(404) && FailsWith(reply, e)
  }

  function AuthOf(digest: string -> string, c: Client, a: Attempt): Result<(string, string), Error> {
    CredentialsCall(digest, c, a.before.creds, a.force, a.replies.exchange).1
  }

  /** The attempt established that nobody consented: the service knows nobody, or it
      listed the consents of the subject and none authorizes the request. */
  ghost predicate NoConsent(digest: string -> string, c: Client, req: ConsentRequest, a: Attempt, reason: string) {
    var auth := AuthOf(digest, c, a);
    auth.Ok? &&
    (|| (reason == "no user identifier for subject" && NobodyKnown(digest, c, req, a, auth.value.1))
     || (reason == "no granted consent"
         && exists id :: KnownAs(digest, c, req, a, auth.value.1, id) && a.replies.listings(id).Body?
                         && forall r :: r in a.replies.listings(id).value ==> !Authorizes(r, req)))
  }

  /** One of the attempt's dependency calls failed, with this error. */
  ghost predicate CallFailed(digest: string -> string, c: Client, req: ConsentRequest, a: Attempt, e: Error) {
    var auth := AuthOf(digest, c, a);
    || auth == Err(e)
    || (auth.Ok? && SearchFails(digest, c, req, a, auth.value.1, e))
    || (auth.Ok? && exists id :: KnownAs(digest, c, req, a, auth.value.1, id) && FailsWith(a.replies.listings(id), e))
  }

  function OutcomeOf(digest: string -> string, c: Client, req: ConsentRequest, a: Attempt): Result<Response, Error> {
    Check(digest, c, a.before, req, a.force, a.replies).1
  }

  /** What an attempt answers: allow, deny and error each have their own cause. */
  lemma AttemptAnswers(digest: string -> string, c: Client, req: ConsentRequest, a: Attempt)
    ensures match OutcomeOf(digest, c, req, a)
            case Ok(response) =>
              if response.decision == Allow then response.reason == "" && ShownConsent(digest, c, req, a)
              else NoConsent(digest, c, req, a, response.reason)
            case Err(e) => CallFailed(digest, c, req, a, e)
  {
    var auth := AuthOf(digest, c, a);
    if auth.Ok? {
      var found := ResolveIdentifier(digest, c, a.before.ids, auth.value.1, req.subject, a.replies.search).1;
      if found.Ok? && found.value.Some? {
        assert KnownAs(digest, c, req, a, auth.value.1, found.value.value);
      }
    }
  }

  /** The causes exclude each other, so each answer is given exactly for its cause. */
  lemma CausesExclude(digest: string -> string, c: Client, req: ConsentRequest, a: Attempt)
    ensures !(ShownConsent(digest, c, req, a) && exists reason :: NoConsent(digest, c, req, a, reason))
    ensures !(ShownConsent(digest, c, req, a) && exists e :: CallFailed(digest, c, req, a, e))
    ensures !((exists reason :: NoConsent(digest, c, req, a, reason)) && exists e :: CallFailed(digest, c, req, a, e))
  {
    var auth := AuthOf(digest, c, a);
    if auth.Ok? {
      forall id, other | KnownAs(digest, c, req, a, auth.value.1, id) && KnownAs(digest, c, req, a, auth.value.1, other)
        ensures id == other
      {
      }
      if ShownConsent(digest, c, req, a) {
        var found := ResolveIdentifier(digest, c, a.before.ids, auth.value.1, req.subject, a.replies.search).1;
        assert KnownAs(digest, c, req, a, auth.value.1, found.value.value);
      }
    }
  }

  /** A check denies exactly when nobody is asked about, or its last attempt established
      that nobody consented, and it errs exactly when a dependency call of its last
      attempt failed. "No consent" is never an error, and an error is never a deny. */
  lemma CheckConsentDeniesIff(digest: string -> string, c: Client, w: World, req: ConsentRequest,
                              first: CheckReplies, second: CheckReplies)
    ensures var answer := CheckConsent(digest, c, w, req, first, second).1;
            var last := LastAttempt(digest, c, w, req, first, second);
            var asked := req.subject != "" && req.consumer != "";
            && (answer.Ok? && answer.value.decision == Deny <==>
                !asked || exists reason :: NoConsent(digest, c, req, last, reason))
            && (answer.Err? <==> asked && exists e :: CallFailed(digest, c, req, last, e))
            && (answer.Err? ==> exists e :: CallFailed(digest, c, req, last, e)
                                  && answer == Err(if e == Unauthorized then Other("participant token rejected")
                                     else e))
  {
    var last := LastAttempt(digest, c, w, req, first, second);
    AttemptAnswers(digest, c, req, last);
    CausesExclude(digest, c, req, last);
    if req.subject != "" && req.consumer != "" {
      assert CheckConsent(digest, c, w, req, first, second).1 == WithoutSentinel(OutcomeOf(digest, c, req, last));
    }
  }

  /** The first attempt's token was refused, and there is another to be had. */
  predicate Rejected(digest: string -> string, c: Client, w: World, req: ConsentRequest, first: CheckReplies) {
    Check(digest, c, w, req, false, first).1 == Err(Unauthorized) && c.id.staticToken == ""
  }

  /** A check allows exactly when its last attempt was shown a matching consent; the
      last attempt forces a refresh exactly when the first was rejected; and the
      unauthorized sentinel never gets out. */
  lemma CheckConsentAllowsIff(digest: string -> string, c: Client, w: World, req: ConsentRequest,
                              first: CheckReplies, second: CheckReplies)
    ensures var answer := CheckConsent(digest, c, w, req, first, second).1;
            var last := LastAttempt(digest, c, w, req, first, second);
            && (answer.Ok? && answer.value.decision == Allow <==>
                req.subject != "" && req.consumer != "" && ShownConsent(digest, c, req, last))
            && answer != Err(Unauthorized)
            && (last.force <==> Rejected(digest, c, w, req, first))
  {
    var last := LastAttempt(digest, c, w, req, first, second);
    AttemptAnswers(digest, c, req, last);
    CausesExclude(digest, c, req, last);
    if req.subject != "" && req.consumer != "" {
      assert CheckConsent(digest, c, w, req, first, second).1 == WithoutSentinel(OutcomeOf(digest, c, req, last));
    }
  }

  /** What the dependencies would say to a second attempt matters if and only if the
      first was rejected: otherwise nobody is asked again. There is no third. */
  lemma RetriedIff(digest: string -> string, c: Client, w: World, req: ConsentRequest, first: CheckReplies)
    ensures (exists a, b :: CheckConsent(digest, c, w, req, first, a) != CheckConsent(digest, c, w, req, first, b))
            <==> req.subject != "" && req.consumer != "" && Rejected(digest, c, w, req, first)
  {
    if req.subject != "" && req.consumer != "" && Rejected(digest, c, w, req, first) {
      var a := first.(exchange := first.exchange.(token := NoReply(CutOff)));
      var b := first.(exchange := first.exchange.(token := NoReply(TimedOut)));
      var once := Check(digest, c, w, req, false, first).0;
      assert Check(digest, c, once, req, true, a).1 == Err(Canceled);
      assert Check(digest, c, once, req, true, b).1 == Err(DeadlineExceeded);
      assert CheckConsent(digest, c, w, req, first, a).1 != CheckConsent(digest, c, w, req, first, b).1;
    }
  }

  /** What a check leaves: each attempt keeps what it learned about the token and the
      provider, also when it fails, and the subject's identifier once it knows the
      provider; mappings are left alone. Without a subject or a consumer nobody is
      asked, and the deny says which is missing. */
  lemma CheckLeaves(digest: string -> string, c: Client, w: World, req: ConsentRequest,
                    first: CheckReplies, second: CheckReplies)
    ensures var (after, answer) := CheckConsent(digest, c, w, req, first, second);
            if req.subject == "" || req.consumer == ""
            then && after == w
                 && answer == Ok(Response(Deny, if req.subject == "" then "no subject in request"
                                                else "no consuming participant identified"))
            else var once := AttemptLeaves(digest, c, w, req, false, first);
              after == if Rejected(digest, c, w, req, first) then AttemptLeaves(digest, c, once, req, true, second)
                       else once
  {
    AttemptEndsIn(digest, c, w, req, false, first);
    AttemptEndsIn(digest, c, AttemptLeaves(digest, c, w, req, false, first), req, true, second);
  }

  lemma AttemptEndsIn(digest: string -> string, c: Client, w: World, req: ConsentRequest, force: bool, x: CheckReplies)
    ensures Check(digest, c, w, req, force, x).0 == AttemptLeaves(digest, c, w, req, force, x)
  {
  }

  function AttemptLeaves(digest: string -> string, c: Client, w: World, req: ConsentRequest, force: bool,
                         x: CheckReplies): World {
    var (creds, auth) := CredentialsCall(digest, c, w.creds, force, x.exchange);
    World(creds, w.sds,
          if auth.Err? then w.ids
          else ResolveIdentifier(digest, c, w.ids, auth.value.1, req.subject, x.search).0)
  }

  /** The participants a consent names: those in its two consumer references, and
      the first recipient. */
  function NamedConsumers(r: ConsentRecord): set<string> {
    {r.consumer.selfDescription, r.consumer.id, r.consumer.did, r.consumer.literal,
     r.dataConsumer.selfDescription, r.dataConsumer.id, r.dataConsumer.did, r.dataConsumer.literal}
    + (if r.recipients == [] then {} else {r.recipients[0]}) - {""}
  }

  /** A consent is authority for exactly the participants it names: not for later
      recipients, and for nobody when it names none. */
  lemma GrantedToIff(r: ConsentRecord, consumer: string)
    ensures GrantedTo(r, consumer) <==> consumer in NamedConsumers(r)
  {
  }

  lemma AuthorizesWider(r: ConsentRecord, req: ConsentRequest, wide: ConsentRequest)
    requires wide.consumer == req.consumer
    requires wide.purpose == req.purpose || wide.purpose == ""
    requires wide.dataResource == req.dataResource || wide.dataResource == ""
    requires Authorizes(r, req)
    ensures Authorizes(r, wide)
  {
  }

  /** Naming a purpose or a resource where there was none never turns a deny into
      an allow, whatever the dependencies answer. */
  lemma NarrowingNeverAllows(digest: string -> string, c: Client, w: World, req: ConsentRequest, wide: ConsentRequest,
                             first: CheckReplies, second: CheckReplies)
    requires wide.subject == req.subject && wide.consumer == req.consumer
    requires wide.purpose == req.purpose || wide.purpose == ""
    requires wide.dataResource == req.dataResource || wide.dataResource == ""
    requires var narrow := CheckConsent(digest, c, w, req, first, second).1;
             narrow.Ok? && narrow.value.decision == Allow
    ensures var widened := CheckConsent(digest, c, w, wide, first, second).1;
            widened.Ok? && widened.value.decision == Allow
  {
    CheckConsentAllowsIff(digest, c, w, req, first, second);
    CheckConsentAllowsIff(digest, c, w, wide, first, second);
    UnauthorizedAlike(digest, c, w, req, wide, first);
    forall r | Authorizes(r, req) ensures Authorizes(r, wide) {
      AuthorizesWider(r, req, wide);
    }
  }

  lemma UnauthorizedAlike(digest: string -> string, c: Client, w: World, req: ConsentRequest,
                          wide: ConsentRequest, x: CheckReplies)
    requires wide.subject == req.subject
    ensures Check(digest, c, w, req, false, x).0 == Check(digest, c, w, wide, false, x).0
    ensures Check(digest, c, w, req, false, x).1 == Err(Unauthorized)
            <==> Check(digest, c, w, wide, false, x).1 == Err(Unauthorized)
  {
  }

  // ------------------------------------------------------- non-empty identities

  /** Cached mappings and identifiers are never empty. */
  predicate NeverEmpty(w: World) {
    && (forall k :: k in w.sds && !w.sds[k].unknown ==> w.sds[k].selfDescription != "")
    && (forall k :: k in w.ids ==> w.ids[k].userIdentifier != "")
  }

  lemma CheckKeepsNeverEmpty(digest: string -> string, c: Client, w: World, req: ConsentRequest,
                             first: CheckReplies, second: CheckReplies)
    requires NeverEmpty(w)
    ensures NeverEmpty(CheckConsent(digest, c, w, req, first, second).0)
    ensures CheckConsent(digest, c, w, req, first, second).0.sds == w.sds
  {
    AttemptKeepsNeverEmpty(digest, c, w, req, false, first);
    AttemptKeepsNeverEmpty(digest, c, Check(digest, c, w, req, false, first).0, req, true, second);
  }

  lemma AttemptKeepsNeverEmpty(digest: string -> string, c: Client, w: World, req: ConsentRequest, force: bool,
                               x: CheckReplies)
    requires NeverEmpty(w)
    ensures NeverEmpty(Check(digest, c, w, req, force, x).0)
    ensures Check(digest, c, w, req, force, x).0.sds == w.sds
  {
  }

  lemma {:induction false} RegisteredFound(listing: seq<Participant>, did: string)
    ensures Registered(listing, did) != "" <==> exists p :: p in listing && p.did == did && p.selfDescription != ""
    ensures Registered(listing, did) != "" ==>
              exists i :: 0 <= i < |listing| && listing[i] == Participant(did, Registered(listing, did))
                          && forall k :: 0 <= k < i ==> !(listing[k].did == did && listing[k].selfDescription != "")
  {
    if listing != [] {
      RegisteredFound(listing[1..], did);
      assert listing == [listing[0]] + listing[1..];
      if listing[0].did == did && listing[0].selfDescription != "" {
        assert listing[0] == Participant(did, Registered(listing, did));
      } else if Registered(listing, did) != "" {
        var i :| 0 <= i < |listing[1..]| && listing[1..][i] == Participant(did, Registered(listing, did))
          && forall k :: 0 <= k < i ==> !(listing[1..][k].did == did && listing[1..][k].selfDescription != "");
        assert listing[i + 1] == listing[1..][i];
        assert forall k :: 1 <= k < i + 1 ==> listing[k] == listing[1..][k - 1];
      }
    }
  }

  /** A mapped self-description is never empty, and mapping keeps it so. */
  lemma MappedIsNonEmpty(digest: string -> string, c: Client, w: World, did: string, x: MappingReplies)
    requires NeverEmpty(w)
    ensures var (after, answer) := SelfDescriptionByDID(digest, c, w, did, x);
            NeverEmpty(after) && (answer.Ok? ==> answer.value != "")
  {
  }

  /** Credentials that are handed out are complete. */
  lemma CredentialsAreComplete(digest: string -> string, c: Client, creds: Credentials, force: bool, x: Exchange)
    ensures var answer := CredentialsCall(digest, c, creds, force, x).1;
            answer.Ok? ==> answer.value.0 != "" && answer.value.1 != ""
  {
  }
}
