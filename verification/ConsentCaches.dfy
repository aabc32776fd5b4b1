/** The package-wide caches as the program holds them: one shared entry object for
    each credential, and two maps that are reassigned. */
module ConsentCaches {
  import opened Wrappers
  import opened Outcomes
  import opened Lifetimes
  import opened ConsentClient
  import CacheKeys

  class CacheEntry {
    var token: string
    var tokenExpiry: int
    var providerSD: string

    ghost function View(): Credential
      reads this
    {
      Credential(token, tokenExpiry, providerSD)
    }

    constructor ()
      ensures View() == NEW_CREDENTIAL
    {
      token, tokenExpiry, providerSD := "", 0, "";
    }

    /** The locked section of a credentials call, on this entry alone. */
    method RefreshLocked(c: Client, force: bool, x: Exchange) returns (result: Result<(string, string), Error>)
      modifies this
      ensures var r := Refresh(c, old(View()), force, x);
              View() == r.entry && result == r.result
    {
      var used := c.id.staticToken;
      if used == "" {
        if force {
          token := "";
        }
        if token == "" || x.checkedAt > tokenExpiry {
          var fetched := FetchToken(x.token);
          if fetched.Err? {
            return Err(fetched.error);
          }
          token := fetched.value.0;
          tokenExpiry := x.fetchedAt + CacheFor(fetched.value.1, c.tokenTTL);
        }
        used := token;
      }
      var provider := c.id.providerSD;
      if provider == "" {
        if providerSD == "" {
          var sd := FetchProviderSD(x.me);
          if sd.Err? {
            return Err(sd.error);
          }
          providerSD := sd.value;
        }
        provider := providerSD;
      }
      return Ok((used, provider));
    }
  }

  class PackageCaches {
    const digest: string -> string
    var credCache: map<string, CacheEntry>
    var participantSDCache: Participants
    var identifierCache: Identifiers

    /** No two keys share an entry. */
    ghost predicate Valid()
      reads this`credCache
    {
      forall j, k :: j in credCache && k in credCache && credCache[j] == credCache[k] ==> j == k
    }

    ghost function Creds(): Credentials
      reads this`credCache, credCache.Values
    {
      map k | k in credCache :: credCache[k].View()
    }

    ghost function View(): World
      reads this, credCache.Values
    {
      World(Creds(), participantSDCache, identifierCache)
    }

    constructor (digest: string -> string)
      ensures Valid() && View() == World(map[], map[], map[]) && this.digest == digest
      ensures credCache == map[]
    {
      this.digest := digest;
      credCache, participantSDCache, identifierCache := map[], map[], map[];
    }

    method Credentials(c: Client, force: bool, x: Exchange) returns (result: Result<(string, string), Error>)
      requires Valid()
      modifies this`credCache, credCache.Values
      ensures Valid() && fresh(credCache.Values - old(credCache.Values))
      ensures (Creds(), result) == CredentialsCall(digest, c, old(Creds()), force, x)
    {
      if c.id.staticToken != "" && c.id.providerSD != "" {
        return Ok((c.id.staticToken, c.id.providerSD));
      }
      if c.id.staticToken == "" && c.id.tokenServiceURL == "" {
        return Err(NoCredentials);
      }
      var key := CacheKeys.CredentialKey(digest, c.id);
      ghost var before := Creds();
      var entry := EntryOf(key);
      result := RefreshEntry(key, entry, c, force, x);
      ghost var after := Refresh(c, EntryFor(before, key), force, x).entry;
      assert before[key := EntryFor(before, key)][key := after] == before[key := after];
    }

    /** Get-or-create this key's entry, the only work done under the map's lock. */
    method EntryOf(key: string) returns (entry: CacheEntry)
      requires Valid()
      modifies this`credCache
      ensures Valid() && key in credCache && credCache[key] == entry
      ensures fresh(credCache.Values - old(credCache.Values))
      ensures Creds() == old(Creds())[key := EntryFor(old(Creds()), key)]
    {
      if key !in credCache {
        entry := new CacheEntry();
        credCache := credCache[key := entry];
      } else {
        entry := credCache[key];
      }
    }

    /** A refresh under one entry's lock leaves every other key's entry alone. */
    method RefreshEntry(key: string, entry: CacheEntry, c: Client, force: bool, x: Exchange)
      returns (result: Result<(string, string), Error>)
      requires Valid() && key in credCache && credCache[key] == entry
      modifies entry
      ensures var r := Refresh(c, old(Creds())[key], force, x);
              Creds() == old(Creds())[key := r.entry] && result == r.result
    {
      result := entry.RefreshLocked(c, force, x);
      forall k | k in credCache && k != key ensures credCache[k].View() == old(Creds())[k] {
        assert credCache[k] != entry;
      }
    }

    method LookupParticipantSD(c: Client, did: string, force: bool,
                               x: LookupReplies) returns (result: Result<string, Error>)
      requires Valid()
      modifies this`credCache, credCache.Values
      ensures Valid() && fresh(credCache.Values - old(credCache.Values))
      ensures (Creds(), result) == LookupParticipant(digest, c, old(Creds()), did, force, x)
    {
      var auth := Credentials(c, force, x.exchange);
      if auth.Err? {
        return Err(auth.error);
      }
      match x.listing
      case NoReply(e) => return Err(NetFailure(e));
      case Status(code) => return Err(if code == 401 then Unauthorized else Other("participants status"));
      case Undecodable => return Err(Other("participants body"));
      case Body(listing) =>
        for i := 0 to |listing|
          invariant Registered(listing, did) == Registered(listing[i..], did)
        {
          if listing[i].did == did && listing[i].selfDescription != "" {
            return Ok(listing[i].selfDescription);
          }
          assert listing[i..][1..] == listing[i + 1..];
        }
        return Ok("");
    }

    method LookupRetrying(c: Client, did: string, x: MappingReplies) returns (answer: Result<string, Error>)
      requires Valid()
      modifies this`credCache, credCache.Values
      ensures Valid() && fresh(credCache.Values - old(credCache.Values))
      ensures (Creds(), answer) == LookupWithRetry(digest, c, old(Creds()), did, x)
    {
      answer := LookupParticipantSD(c, did, false, x.first);
      if answer == Err(Unauthorized) && c.id.staticToken == "" {
        answer := LookupParticipantSD(c, did, true, x.second);
      }
    }

    method ParticipantSelfDescriptionByDID(c: Client, did: string,
                                           x: MappingReplies) returns (result: Result<string, Error>)
      requires Valid()
      modifies this, credCache.Values
      ensures Valid() && fresh(credCache.Values - old(credCache.Values))
      ensures (View(), result) == SelfDescriptionByDID(digest, c, old(View()), did, x)
    {
      if did == "" {
        return Err(Other("empty participant did"));
      }
      var key := CacheKeys.ParticipantKey(digest, c.id, did);
      if key in participantSDCache && x.consultedAt < participantSDCache[key].expiry {
        var entry := participantSDCache[key];
        if entry.unknown {
          return Err(NotRegistered);
        }
        return Ok(entry.selfDescription);
      }
      var answer := LookupRetrying(c, did, x);
      if answer == Err(Unauthorized) {
        return Err(Other("participant token rejected"));
      }
      if answer.Err? {
        return answer;
      }
      participantSDCache := RememberParticipant(participantSDCache, key, answer.value, x.storedAt);
      if answer.value == "" {
        return Err(NotRegistered);
      }
      return answer;
    }

    method ProviderSelfDescription(c: Client, x: Exchange) returns (result: Result<string, Error>)
      requires Valid()
      modifies this`credCache, credCache.Values
      ensures Valid() && fresh(credCache.Values - old(credCache.Values))
      ensures var call := CredentialsCall(digest, c, old(Creds()), false, x);
              Creds() == call.0 && result == (match call.1 case Err(e) => Err(e) case Ok(pair) => Ok(pair.1))
    {
      var auth := Credentials(c, false, x);
      match auth
      case Err(e) => return Err(e);
      case Ok(pair) => return Ok(pair.1);
    }

    method ResolveUserIdentifier(c: Client, subject: string, providerSD: string, x: SearchReplies)
      returns (result: Result<Option<string>, Error>)
      modifies this`identifierCache
      ensures (identifierCache, result) ==
              ResolveIdentifier(digest, c, old(identifierCache), providerSD, subject, x)
    {
      var key := CacheKeys.IdentifierKey(digest, c.id, providerSD, subject);
      if key in identifierCache && x.consultedAt < identifierCache[key].expiry {
        return Ok(Some(identifierCache[key].userIdentifier));
      }
      match x.search(providerSD, subject)
      case NoReply(e) => return Err(NetFailure(e));
      case Status(code) =>
        if code == 404 {
          return Ok(None);
        }
        return Err(if code == 401 then Unauthorized else Other("identifier search status"));
      case Undecodable => return Err(Other("identifier search body"));
      case Body(id) =>
        if id == "" {
          return Ok(None);
        }
        identifierCache := RememberIdentifier(identifierCache, key, id, x.storedAt);
        return Ok(Some(id));
    }

    method DecideSubject(c: Client, req: ConsentRequest, providerSD: string, x: CheckReplies)
      returns (result: Result<Response, Error>)
      modifies this`identifierCache
      ensures (identifierCache, result) == SubjectDecision(digest, c, old(identifierCache), req, providerSD, x)
    {
      var found := ResolveUserIdentifier(c, req.subject, providerSD, x.search);
      if found.Err? {
        return Err(found.error);
      }
      if found.value.None? {
        return Ok(Response(Deny, "no user identifier for subject"));
      }
      var granted := HasGrantedConsent(x.listings, found.value.value, req);
      if granted.Err? {
        return Err(granted.error);
      }
      if granted.value {
        return Ok(Response(Allow, ""));
      }
      return Ok(Response(Deny, "no granted consent"));
    }

    method CheckOnce(c: Client, req: ConsentRequest, force: bool,
                     x: CheckReplies) returns (result: Result<Response, Error>)
      requires Valid()
      modifies this, credCache.Values
      ensures Valid() && fresh(credCache.Values - old(credCache.Values))
      ensures (View(), result) == Check(digest, c, old(View()), req, force, x)
    {
      var auth := Credentials(c, force, x.exchange);
      if auth.Err? {
        return Err(auth.error);
      }
      var (token, providerSD) := auth.value;
      result := DecideSubject(c, req, providerSD, x);
    }

    method CheckConsentFor(c: Client, req: ConsentRequest, first: CheckReplies, second: CheckReplies)
      returns (result: Result<Response, Error>)
      requires Valid()
      modifies this, credCache.Values
      ensures Valid() && fresh(credCache.Values - old(credCache.Values))
      ensures (View(), result) == CheckConsent(digest, c, old(View()), req, first, second)
    {
      if req.subject == "" {
        return Ok(Response(Deny, "no subject in request"));
      }
      if req.consumer == "" {
        return Ok(Response(Deny, "no consuming participant identified"));
      }
      result := CheckOnce(c, req, false, first);
      if result == Err(Unauthorized) && c.id.staticToken == "" {
        result := CheckOnce(c, req, true, second);
      }
      if result == Err(Unauthorized) {
        return Err(Other("participant token rejected"));
      }
    }
  }
}
