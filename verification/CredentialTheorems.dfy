/** The credential cache over every run. The entry's lock serialises the calls on
    one credential, so a run is a sequence of calls in lock order; calls on other
    credentials may be interleaved anywhere. */
module CredentialTheorems {
  import opened Wrappers
  import opened Outcomes
  import opened Durations
  import opened Lifetimes
  import opened ConsentClient
  import CacheKeys
  import CacheTheorems

  datatype Call = Call(client: Client, force: bool, x: Exchange)

  // ---------------------------------------------------------- what one call answers

  /** The entry's token is used as it is. */
  predicate Current(e: Credential, force: bool, x: Exchange) {
    !force && e.token != "" && x.checkedAt <= e.expiry
  }

  /** The token a call has to use: the static one where there is one, otherwise the
      entry's while it is current, otherwise a newly issued one. */
  ghost predicate TokenIs(c: Client, e: Credential, force: bool, x: Exchange, token: string) {
    if c.id.staticToken != "" then token == c.id.staticToken
    else if Current(e, force, x) then c.id.tokenServiceURL != "" && token == e.token
    else c.id.tokenServiceURL != "" && token != "" && exists seconds :: x.token == Body(TokenBody(token, seconds))
  }

  /** The provider a call has to answer with: the configured one where there is one,
      otherwise the one derived before, otherwise what /me says now. */
  predicate ProviderIs(c: Client, e: Credential, x: Exchange, provider: string) {
    if c.id.providerSD != "" then provider == c.id.providerSD
    else if e.providerSD != "" then provider == e.providerSD
    else provider != "" && x.me == Body(provider)
  }

  /** A call answers with a token and a provider exactly when they are those. */
  lemma CredentialsAnswerIff(digest: string -> string, c: Client, creds: Credentials, force: bool, x: Exchange,
                             token: string, provider: string)
    ensures var e := EntryFor(creds, CacheKeys.CredentialKey(digest, c.id));
            CredentialsCall(digest, c, creds, force, x).1 == Ok((token, provider))
            <==> TokenIs(c, e, force, x, token) && ProviderIs(c, e, x, provider)
  {
    if x.token.Body? {
      assert x.token == Body(TokenBody(x.token.value.accessToken, x.token.value.expiresIn));
    }
  }

  /** The token service gave no token: no response, or one of no use. Unlike with the
      other calls a 401 here is not a refused token. */
  predicate IssueFails(reply: Reply<TokenBody>, e: Error) {
    match reply
    case NoReply(CutOff) => e == Canceled
    case NoReply(TimedOut) => e == DeadlineExceeded
    case Body(b) => b.accessToken == "" && e.Other?
    case _ => e.Other?
  }

  /** A call errs exactly for want of any credential, of a token it has to fetch, or of
      a provider it has to derive. */
  lemma CredentialsErrIff(digest: string -> string, c: Client, creds: Credentials, force: bool, x: Exchange)
    ensures var e := EntryFor(creds, CacheKeys.CredentialKey(digest, c.id));
            match CredentialsCall(digest, c, creds, force, x).1
            case Ok(_) => true
            case Err(err) =>
              if c.id.staticToken == "" && c.id.tokenServiceURL == "" then err == NoCredentials
              else || (c.id.staticToken == "" && !Current(e, force, x) && IssueFails(x.token, err))
                   || (c.id.providerSD == "" && e.providerSD == ""
                       && (CacheTheorems.FailsWith(x.me, err) || (x.me == Body("") && err.Other?)))
    ensures CredentialsCall(digest, c, creds, force, x).1 == Err(NoCredentials)
            <==> c.id.staticToken == "" && c.id.tokenServiceURL == ""
  {
  }

  /** Where the provider is configured no /me reply has any influence. */
  lemma ConfiguredProviderWins(digest: string -> string, c: Client, creds: Credentials, force: bool, x: Exchange,
                               me: Reply<string>)
    requires c.id.providerSD != ""
    ensures CredentialsCall(digest, c, creds, force, x.(me := me)) == CredentialsCall(digest, c, creds, force, x)
    ensures var answer := CredentialsCall(digest, c, creds, force, x).1;
            answer.Ok? ==> answer.value.1 == c.id.providerSD
  {
  }

  // ------------------------------------------------- one credential among many

  function RunAll(digest: string -> string, calls: seq<Call>): Credentials {
    if calls == [] then map[]
    else
      var last := calls[|calls| - 1];
      CredentialsCall(digest, last.client, RunAll(digest, calls[..|calls| - 1]), last.force, last.x).0
  }

  /** The calls made with one credential. */
  function Mine(calls: seq<Call>, id: CacheKeys.Identity): seq<Call> {
    if calls == [] then []
    else
      var rest := Mine(calls[..|calls| - 1], id);
      if calls[|calls| - 1].client.id == id then rest + [calls[|calls| - 1]] else rest
  }

  /** The entry after a run of calls with one credential. */
  function EntryAfter(calls: seq<Call>): Credential {
    if calls == [] then NEW_CREDENTIAL
    else
      var last := calls[|calls| - 1];
      Refresh(last.client, EntryAfter(calls[..|calls| - 1]), last.force, last.x).entry
  }

  /** Calls with other credentials are invisible: whatever is interleaved, an entry
      is what its own calls alone make of it. */
  lemma {:induction false} OtherCredentialsInvisible(digest: string -> string, calls: seq<Call>, id: CacheKeys.Identity)
    requires CacheKeys.Fingerprints(digest) && CacheKeys.SeparatorFree(id)
    requires forall c :: c in calls ==> CacheKeys.SeparatorFree(c.client.id)
    requires !(id.staticToken != "" && id.providerSD != "") && !(id.staticToken == "" && id.tokenServiceURL == "")
    ensures EntryFor(RunAll(digest, calls), CacheKeys.CredentialKey(digest, id)) == EntryAfter(Mine(calls, id))
  {
    if calls != [] {
      var front, last := calls[..|calls| - 1], calls[|calls| - 1];
      OtherCredentialsInvisible(digest, front, id);
      assert last in calls;
      CacheKeys.CredentialKeyIff(digest, id, last.client.id);
      var mine := Mine(front, id);
      assert (mine + [last])[..|mine|] == mine;
    }
  }

  // ------------------------------------------------------------- one credential

  /** All calls use one credential without a static token. Their caps may differ:
      the cap is not part of the key. */
  predicate OneCredential(calls: seq<Call>) {
    forall c :: c in calls ==>
      c.client.id == calls[0].client.id && c.client.id.staticToken == ""
          && MIN_TOKEN_TTL <= c.client.tokenTTL <= MAX_TOKEN_TTL
  }

  function CallResult(calls: seq<Call>, j: nat): Refreshed
    requires j < |calls|
  {
    Refresh(calls[j].client, EntryAfter(calls[..j]), calls[j].force, calls[j].x)
  }

  /** Call k fetched a token. */
  predicate Issued(calls: seq<Call>, k: nat)
    requires k < |calls|
  {
    CallResult(calls, k).fetched && FetchToken(calls[k].x.token).Ok?
  }

  function IssuedToken(calls: seq<Call>, k: nat): string
    requires k < |calls| && Issued(calls, k)
  {
    FetchToken(calls[k].x.token).value.0
  }

  /** How long the token of call k is cached: the cap is that of the caller who
      fetched it. */
  function CachedLife(calls: seq<Call>, k: nat): int
    requires k < |calls| && Issued(calls, k)
  {
    CacheFor(FetchToken(calls[k].x.token).value.1, calls[k].client.tokenTTL)
  }

  /** An issued token is the one in the reply, and the lifetime in the reply decides
      until when it is served. */
  lemma IssuedAsReplied(calls: seq<Call>, k: nat)
    requires k < |calls| && Issued(calls, k)
    ensures calls[k].x.token.Body? && IssuedToken(calls, k) == calls[k].x.token.value.accessToken != ""
    ensures CachedLife(calls, k)
            == CacheFor(ReportedLifetime(calls[k].x.token.value.expiresIn), calls[k].client.tokenTTL)
    ensures CallResult(calls, k).entry.expiry == calls[k].x.fetchedAt + CachedLife(calls, k)
  {
  }

  /** What one call does to the token of the entry. */
  lemma EntryStep(calls: seq<Call>, k: nat)
    requires k < |calls| && calls[k].client.id.staticToken == ""
    ensures EntryAfter(calls[..k + 1]) == CallResult(calls, k).entry
    ensures var e := EntryAfter(calls[..k + 1]);
            if Issued(calls, k) then e.token == IssuedToken(calls, k)
                && e.expiry == calls[k].x.fetchedAt + CachedLife(calls, k)
            else if calls[k].force then e.token == ""
            else e.token == EntryAfter(calls[..k]).token && e.expiry == EntryAfter(calls[..k]).expiry
  {
    assert calls[..k + 1][..k] == calls[..k];
  }

  /** Between two calls nobody forced a refresh and nobody fetched a token. */
  predicate Quiet(calls: seq<Call>, after: nat, before: nat)
    requires before <= |calls|
  {
    forall m :: after < m < before ==> !calls[m].force && !Issued(calls, m)
  }

  lemma QuietExtends(calls: seq<Call>, k: nat, m: nat)
    requires m < |calls| && Quiet(calls, k, m) && !calls[m].force && !Issued(calls, m)
    ensures Quiet(calls, k, m + 1)
  {
  }

  /** The token the entry holds before call n is the one call k fetched. */
  predicate IsCurrent(calls: seq<Call>, n: nat, k: nat)
    requires n <= |calls|
  {
    && k < n && Issued(calls, k)
    && EntryAfter(calls[..n]).token == IssuedToken(calls, k)
    && EntryAfter(calls[..n]).expiry == calls[k].x.fetchedAt + CachedLife(calls, k)
    && Quiet(calls, k, n)
  }

  lemma CurrentAfterStep(calls: seq<Call>, m: nat, k: nat)
    requires m < |calls| && calls[m].client.id.staticToken == "" && EntryAfter(calls[..m + 1]).token != ""
    requires if Issued(calls, m) then k == m else IsCurrent(calls, m, k)
    ensures IsCurrent(calls, m + 1, k)
  {
    EntryStep(calls, m);
    if !Issued(calls, m) {
      QuietExtends(calls, k, m);
    }
  }

  lemma {:induction false} CurrentToken(calls: seq<Call>, n: nat) returns (k: nat)
    requires OneCredential(calls) && n <= |calls| && EntryAfter(calls[..n]).token != ""
    ensures IsCurrent(calls, n, k)
  {
    assert calls[n - 1] in calls;
    k := n - 1;
    if !Issued(calls, n - 1) {
      EntryStep(calls, n - 1);
      k := CurrentToken(calls, n - 1);
    }
    CurrentAfterStep(calls, n - 1, k);
  }

  /** A token served from the cache was fetched by an earlier call, was checked
      within its cached lifetime, and no forced refresh or newer fetch came since.
      That lifetime is positive, within the fetcher's cap, and never beyond the one
      the token service reported. */
  lemma CachedTokenIsFresh(calls: seq<Call>, j: nat) returns (k: nat)
    requires OneCredential(calls) && j < |calls|
    requires CallResult(calls, j).result.Ok? && !CallResult(calls, j).fetched
    requires forall c :: c in calls && c.x.token.Body? ==> -TWO_63 <= c.x.token.value.expiresIn < TWO_63
    ensures k < j && Issued(calls, k) && CallResult(calls, j).result.value.0 == IssuedToken(calls, k)
    ensures Quiet(calls, k, j + 1)
    ensures calls[j].x.checkedAt - calls[k].x.fetchedAt <= CachedLife(calls, k)
    ensures 0 < CachedLife(calls, k) <= calls[k].client.tokenTTL
    ensures var expiresIn := calls[k].x.token.value.expiresIn;
            expiresIn > 0 ==> calls[j].x.checkedAt <= calls[k].x.fetchedAt + expiresIn * SECOND
  {
    assert calls[j] in calls;
    k := CurrentToken(calls, j);
    assert calls[k] in calls;
    QuietExtends(calls, k, j);
    CachedLifetime(calls[k].x.token.value.expiresIn, calls[k].client.tokenTTL);
  }

  /** Nobody forces a refresh after call i up to call j, and each comes before the
      token of call i expires. */
  predicate Calm(calls: seq<Call>, i: nat, j: nat)
    requires i < |calls| && j < |calls| && Issued(calls, i)
  {
    forall m :: i < m <= j ==> !calls[m].force && calls[m].x.checkedAt <= calls[i].x.fetchedAt + CachedLife(calls, i)
  }

  /** The entry holds the token of call i before call n. */
  predicate Holds(calls: seq<Call>, i: nat, n: nat)
    requires i < |calls| && n <= |calls| && Issued(calls, i)
  {
    var e := EntryAfter(calls[..n]);
    e.token == IssuedToken(calls, i) && e.expiry == calls[i].x.fetchedAt + CachedLife(calls, i)
  }

  /** An unexpired token is served as it is. */
  lemma CacheHit(calls: seq<Call>, i: nat, j: nat)
    requires i < j < |calls| && Issued(calls, i) && Calm(calls, i, j) && Holds(calls, i, j)
    requires calls[j].client.id.staticToken == ""
    ensures var r := CallResult(calls, j);
            !r.fetched && (r.result.Ok? ==> r.result.value.0 == IssuedToken(calls, i))
  {
  }

  lemma TokenKept(calls: seq<Call>, i: nat, j: nat)
    requires i < j < |calls| && Issued(calls, i) && Calm(calls, i, j) && Holds(calls, i, j)
    requires calls[j].client.id.staticToken == ""
    ensures Holds(calls, i, j + 1)
  {
    EntryStep(calls, j);
    CacheHit(calls, i, j);
  }

  lemma {:induction false} TokenHeld(calls: seq<Call>, i: nat, j: nat)
    requires OneCredential(calls) && i < j < |calls| && Issued(calls, i) && Calm(calls, i, j)
    ensures Holds(calls, i, j)
  {
    assert calls[j - 1] in calls;
    if j - 1 > i {
      TokenHeld(calls, i, j - 1);
      TokenKept(calls, i, j - 1);
    } else {
      EntryStep(calls, i);
    }
  }

  /** Coalescing: between a successful fetch and the expiry it set, calls that are
      not forced ask the token service nothing and are served its token. */
  lemma NoSecondFetch(calls: seq<Call>, i: nat, j: nat)
    requires OneCredential(calls) && i < j < |calls| && Issued(calls, i) && Calm(calls, i, j)
    ensures !CallResult(calls, j).fetched
    ensures CallResult(calls, j).result.Ok? ==> CallResult(calls, j).result.value.0 == IssuedToken(calls, i)
  {
    assert calls[j] in calls;
    TokenHeld(calls, i, j);
    CacheHit(calls, i, j);
  }

  /** A forced refresh is final: whatever came before it is never returned again,
      even if that refresh itself failed. Every token returned from then on was
      issued by it or later. */
  lemma ForcedRefreshIsFinal(calls: seq<Call>, k: nat, j: nat) returns (i: nat)
    requires OneCredential(calls) && k <= j < |calls| && calls[k].force
    requires CallResult(calls, j).result.Ok?
    ensures k <= i <= j && Issued(calls, i) && CallResult(calls, j).result.value.0 == IssuedToken(calls, i)
  {
    assert calls[j] in calls;
    if CallResult(calls, j).fetched {
      i := j;
    } else {
      i := CurrentToken(calls, j);
    }
  }

  function ProviderBefore(calls: seq<Call>, n: nat): string
    requires n <= |calls|
  {
    EntryAfter(calls[..n]).providerSD
  }

  /** A derived provider stays, and it is what a successful call answers with. */
  lemma ProviderKept(calls: seq<Call>, k: nat)
    requires k < |calls| && ProviderBefore(calls, k) != ""
    ensures ProviderBefore(calls, k + 1) == ProviderBefore(calls, k)
  {
    assert calls[..k + 1][..k] == calls[..k];
  }

  lemma ProviderServed(calls: seq<Call>, k: nat)
    requires k < |calls| && calls[k].client.id.providerSD == "" && CallResult(calls, k).result.Ok?
    ensures ProviderBefore(calls, k + 1) == CallResult(calls, k).result.value.1 != ""
  {
    assert calls[..k + 1][..k] == calls[..k];
    assert EntryAfter(calls[..k + 1]) == CallResult(calls, k).entry;
  }

  lemma {:induction false} ProviderHeld(calls: seq<Call>, m: nat, n: nat)
    requires m <= n <= |calls| && ProviderBefore(calls, m) != ""
    ensures ProviderBefore(calls, n) == ProviderBefore(calls, m)
  {
    if m < n {
      ProviderHeld(calls, m, n - 1);
      ProviderKept(calls, n - 1);
    }
  }

  /** The provider derived for a credential is asked for once: every later call is
      answered with it, whatever happens to the token and whatever /me would say. */
  lemma ProviderIsStable(calls: seq<Call>, i: nat, j: nat)
    requires i < j < |calls| && CallResult(calls, i).result.Ok?
    requires calls[i].client.id.providerSD == "" && calls[j].client.id.providerSD == ""
    ensures EntryAfter(calls[..j]).providerSD == CallResult(calls, i).result.value.1
    ensures CallResult(calls, j).result.Ok? ==>
            CallResult(calls, j).result.value.1 == CallResult(calls, i).result.value.1
    ensures forall me :: CallResult(calls, j) ==
                         Refresh(calls[j].client, EntryAfter(calls[..j]), calls[j].force, calls[j].x.(me := me))
  {
    ProviderServed(calls, i);
    ProviderHeld(calls, i + 1, j);
    if CallResult(calls, j).result.Ok? {
      ProviderServed(calls, j);
      ProviderHeld(calls, j, j + 1);
    }
  }

  predicate SameCredential(calls: seq<Call>, id: CacheKeys.Identity) {
    forall c :: c in calls ==> c.client.id == id
  }

  lemma {:induction false} DerivedFromMe(calls: seq<Call>, n: nat) returns (k: nat)
    requires n <= |calls| && ProviderBefore(calls, n) != ""
    ensures k < n && calls[k].x.me == Body(ProviderBefore(calls, n))
  {
    assert calls[..n][..n - 1] == calls[..n - 1];
    if ProviderBefore(calls, n - 1) != "" {
      ProviderKept(calls, n - 1);
      k := DerivedFromMe(calls, n - 1);
    } else {
      k := n - 1;
    }
  }

  /** Over every run of calls with one credential, a successful call answers with the
      configured provider, or else with one that /me named to this or an earlier call;
      and with the static token, or else with a token issued to this or an earlier
      call. */
  lemma AnswersComeFrom(calls: seq<Call>, id: CacheKeys.Identity, j: nat)
    requires SameCredential(calls, id) && j < |calls| && CallResult(calls, j).result.Ok?
    ensures var (token, provider) := CallResult(calls, j).result.value;
            && (if id.providerSD != "" then provider == id.providerSD
                else exists k :: 0 <= k <= j && calls[k].x.me == Body(provider))
            && (if id.staticToken != "" then token == id.staticToken
                else exists k :: 0 <= k <= j && calls[k].x.token.Body? && calls[k].x.token.value.accessToken == token)
  {
    assert calls[j] in calls;
    if id.providerSD == "" {
      ProviderServed(calls, j);
      var k := DerivedFromMe(calls, j + 1);
    }
    if id.staticToken == "" && !CallResult(calls, j).fetched {
      var k := TokenFromService(calls, id, j);
    }
  }

  lemma {:induction false} TokenFromService(calls: seq<Call>, id: CacheKeys.Identity, n: nat) returns (k: nat)
    requires SameCredential(calls, id) && id.staticToken == "" && n <= |calls| && EntryAfter(calls[..n]).token != ""
    ensures k < n && calls[k].x.token.Body? && calls[k].x.token.value.accessToken == EntryAfter(calls[..n]).token
  {
    assert calls[n - 1] in calls;
    EntryStep(calls, n - 1);
    k := n - 1;
    if !Issued(calls, n - 1) {
      k := TokenFromService(calls, id, n - 1);
    }
  }

  // ------------------------------------------------------------ the caller's own cap

  /** The longest a token is cached under a cap, over all lifetimes that a token
      service may report: a lifetime at the skew is cached longer than one above it. */
  function Longest(cap: int): int {
    if cap <= 60 * SECOND then cap
    else if cap <= 120 * SECOND then 60 * SECOND
    else cap - 60 * SECOND
  }

  /** A lifetime in seconds that is cached that long. */
  function LongestLived(cap: int): int {
    if TOKEN_REFRESH_SKEW < cap <= 2 * TOKEN_REFRESH_SKEW then 60 else 0
  }

  lemma LongestIsLongest(cap: int, lifetime: int)
    requires MIN_TOKEN_TTL <= cap <= MAX_TOKEN_TTL
    ensures CacheFor(lifetime, cap) <= Longest(cap) == CacheFor(ReportedLifetime(LongestLived(cap)), cap)
  {
  }

  /** Calls with one credential, under the given caps. */
  predicate WithCaps(calls: seq<Call>, id: CacheKeys.Identity, caps: set<int>) {
    forall c :: c in calls ==> c.client.id == id && c.client.tokenTTL in caps
  }

  /** No caller is served a cached token older than its own cap. */
  ghost predicate OwnCapKept(calls: seq<Call>) {
    forall j, k :: 0 <= k < j < |calls| && IsCurrent(calls, j, k)
                   && CallResult(calls, j).result.Ok? && !CallResult(calls, j).fetched ==>
                     calls[j].x.checkedAt - calls[k].x.fetchedAt <= calls[j].client.tokenTTL
  }

  lemma CapsKeepOwnCap(calls: seq<Call>, id: CacheKeys.Identity, caps: set<int>)
    requires id.staticToken == "" && WithCaps(calls, id, caps)
    requires forall cap :: cap in caps ==> MIN_TOKEN_TTL <= cap <= MAX_TOKEN_TTL
    requires forall a, b :: a in caps && b in caps ==> Longest(a) <= b
    ensures OwnCapKept(calls)
  {
    forall j, k | 0 <= k < j < |calls| && IsCurrent(calls, j, k)
                  && CallResult(calls, j).result.Ok? && !CallResult(calls, j).fetched
      ensures calls[j].x.checkedAt - calls[k].x.fetchedAt <= calls[j].client.tokenTTL
    {
      assert calls[j] in calls && calls[k] in calls;
      LongestIsLongest(calls[k].client.tokenTTL, FetchToken(calls[k].x.token).value.1);
    }
  }

  /** A caller with cap b asks again when the token of a caller with cap a is as old
      as it gets. */
  function LateHit(id: CacheKeys.Identity, a: int, b: int): seq<Call> {
    [Call(Client(id, a), false, Exchange(0, 0, Body(TokenBody("token", LongestLived(a))), Body("provider"))),
     Call(Client(id, b), false, Exchange(Longest(a), Longest(a), Undecodable, Body("provider")))]
  }

  lemma LateHitIsServed(id: CacheKeys.Identity, a: int, b: int)
    requires id.staticToken == "" && MIN_TOKEN_TTL <= a <= MAX_TOKEN_TTL
    ensures var calls := LateHit(id, a, b);
            && IsCurrent(calls, 1, 0) && CallResult(calls, 1).result.Ok? && !CallResult(calls, 1).fetched
            && calls[1].x.checkedAt - calls[0].x.fetchedAt == Longest(a)
  {
    var calls := LateHit(id, a, b);
    LongestIsLongest(a, 0);
    assert calls[..0] == [] && calls[..1] == [calls[0]] && [calls[0]][..0] == [];
    assert Issued(calls, 0);
    EntryStep(calls, 0);
    assert Quiet(calls, 0, 1);
  }

  /** In every run no caller is served a cached token older than its own cap, if and
      only if under no cap a token can be cached longer than some other cap in use
      with the same credential: the cap is not part of the key, and the caller who
      fetches decides. */
  lemma OwnCapKeptIff(id: CacheKeys.Identity, caps: set<int>)
    requires id.staticToken == ""
    requires forall cap :: cap in caps ==> MIN_TOKEN_TTL <= cap <= MAX_TOKEN_TTL
    ensures (forall calls :: WithCaps(calls, id, caps) ==> OwnCapKept(calls))
            <==> (forall a, b :: a in caps && b in caps ==> Longest(a) <= b)
  {
    if a, b :| a in caps && b in caps && Longest(a) > b {
      var calls := LateHit(id, a, b);
      LateHitIsServed(id, a, b);
      assert WithCaps(calls, id, caps) && !OwnCapKept(calls);
    } else {
      forall calls | WithCaps(calls, id, caps) ensures OwnCapKept(calls) {
        CapsKeepOwnCap(calls, id, caps);
      }
    }
  }

  /** In particular two callers may share an entry that is too old for one of them. */
  lemma SharedEntryIgnoresOwnCap(id: CacheKeys.Identity)
    requires id.staticToken == ""
    ensures exists calls: seq<Call> :: WithCaps(calls, id, {3000 * SECOND, 10 * SECOND}) && !OwnCapKept(calls)
  {
    assert Longest(3000 * SECOND) > 10 * SECOND;
    OwnCapKeptIff(id, {3000 * SECOND, 10 * SECOND});
  }
}
