/** The joined cache keys: each determines the components it was built from. */
module CacheKeys {
  import opened Wrappers
  import opened Strings

  const SEPARATOR: char := '\0'

  /** Everything a cached credential depends on. */
  datatype Identity = Identity(
    baseURL: string, host: string, apiPrefix: string, tokenAudience: string, tokenServiceURL: string,
    providerSD: string, staticToken: string, consentKey: string)

  /** The digest is collision-free and its hex form is never empty. */
  ghost predicate Fingerprints(digest: string -> string) {
    && (forall a, b :: digest(a) == digest(b) ==> a == b)
    && (forall a :: digest(a) != "" && SEPARATOR !in digest(a))
  }

  function HashSecret(digest: string -> string, secret: string): string {
    if secret == "" then "" else digest(secret)
  }

  function Components(digest: string -> string, id: Identity): seq<string> {
    [id.baseURL, id.host, id.apiPrefix, id.tokenAudience, id.tokenServiceURL, id.providerSD,
     HashSecret(digest, id.staticToken), HashSecret(digest, id.consentKey)]
  }

  function CredentialKey(digest: string -> string, id: Identity): string {
    Join(Components(digest, id), SEPARATOR)
  }

  function IdentifierKey(digest: string -> string, id: Identity, providerSD: string, subject: string): string {
    Join([CredentialKey(digest, id), providerSD, subject], SEPARATOR)
  }

  function ParticipantKey(digest: string -> string, id: Identity, did: string): string {
    CredentialKey(digest, id) + [SEPARATOR] + did
  }

  /** No component contains the separator; the secrets are hashed, so they may. */
  predicate SeparatorFree(id: Identity) {
    forall p :: p in [id.baseURL, id.host, id.apiPrefix, id.tokenAudience, id.tokenServiceURL, id.providerSD] ==>
                  SEPARATOR !in p
  }

  /** Only the last component of a joined key may contain the separator. */
  lemma {:induction false} JoinInjective(xs: seq<string>, a: string, ys: seq<string>, b: string, c: char)
    requires |xs| == |ys| && (forall p :: p in xs ==> c !in p) && (forall p :: p in ys ==> c !in p)
    requires Join(xs + [a], c) == Join(ys + [b], c)
    ensures xs == ys && a == b
  {
    if xs == [] {
      assert xs + [a] == [a] && ys + [b] == [b];
    } else {
      assert (xs + [a])[1..] == xs[1..] + [a] && (ys + [b])[1..] == ys[1..] + [b];
      CutAtFirst(xs[0], c, Join(xs[1..] + [a], c));
      CutAtFirst(ys[0], c, Join(ys[1..] + [b], c));
      JoinInjective(xs[1..], a, ys[1..], b, c);
      assert xs == [xs[0]] + xs[1..] && ys == [ys[0]] + ys[1..];
    }
  }

  lemma ComponentsDetermine(digest: string -> string, id: Identity, other: Identity)
    requires Fingerprints(digest)
    ensures Components(digest, id) == Components(digest, other) <==> id == other
  {
    var xs, ys := Components(digest, id), Components(digest, other);
    if xs == ys {
      assert forall i :: 0 <= i < 8 ==> xs[i] == ys[i];
      assert id.baseURL == xs[0] && other.baseURL == ys[0];
      assert id.host == xs[1] && other.host == ys[1];
      assert id.apiPrefix == xs[2] && other.apiPrefix == ys[2];
      assert id.tokenAudience == xs[3] && other.tokenAudience == ys[3];
      assert id.tokenServiceURL == xs[4] && other.tokenServiceURL == ys[4];
      assert id.providerSD == xs[5] && other.providerSD == ys[5];
      assert HashSecret(digest, id.staticToken) == xs[6] && HashSecret(digest, other.staticToken) == ys[6];
      assert HashSecret(digest, id.consentKey) == xs[7] && HashSecret(digest, other.consentKey) == ys[7];
    }
  }

  lemma ComponentsSeparatorFree(digest: string -> string, id: Identity)
    requires Fingerprints(digest) && SeparatorFree(id)
    ensures forall p :: p in Components(digest, id) ==> SEPARATOR !in p
  {
    var plain := [id.baseURL, id.host, id.apiPrefix, id.tokenAudience, id.tokenServiceURL, id.providerSD];
    var secret := [HashSecret(digest, id.staticToken), HashSecret(digest, id.consentKey)];
    assert Components(digest, id) == plain + secret;
  }

  /** Two credentials share a cache entry exactly when they agree on every input
      that can change the token or the provider derived from it. */
  lemma CredentialKeyIff(digest: string -> string, id: Identity, other: Identity)
    requires Fingerprints(digest) && SeparatorFree(id) && SeparatorFree(other)
    ensures CredentialKey(digest, id) == CredentialKey(digest, other) <==> id == other
  {
    ComponentsSeparatorFree(digest, id);
    ComponentsSeparatorFree(digest, other);
    SplitJoin(Components(digest, id), SEPARATOR);
    SplitJoin(Components(digest, other), SEPARATOR);
    ComponentsDetermine(digest, id, other);
  }

  /** A cached user identifier belongs to one credential, one provider and one
      subject, whatever characters the subject contains. */
  lemma IdentifierKeyIff(digest: string -> string, id: Identity, sd: string, subject: string,
                         other: Identity, otherSD: string, otherSubject: string)
    requires Fingerprints(digest) && SeparatorFree(id) && SeparatorFree(other)
    requires SEPARATOR !in sd && SEPARATOR !in otherSD
    ensures IdentifierKey(digest, id, sd, subject) == IdentifierKey(digest, other, otherSD, otherSubject)
            <==> id == other && sd == otherSD && subject == otherSubject
  {
    var xs, ys := Components(digest, id), Components(digest, other);
    ComponentsSeparatorFree(digest, id);
    ComponentsSeparatorFree(digest, other);
    FlatIdentifierKey(digest, id, sd, subject);
    FlatIdentifierKey(digest, other, otherSD, otherSubject);
    if IdentifierKey(digest, id, sd, subject) == IdentifierKey(digest, other, otherSD, otherSubject) {
      JoinInjective(xs + [sd], subject, ys + [otherSD], otherSubject, SEPARATOR);
      assert xs == (xs + [sd])[..8] && ys == (ys + [otherSD])[..8];
      assert sd == (xs + [sd])[8] && otherSD == (ys + [otherSD])[8];
      ComponentsDetermine(digest, id, other);
    }
  }

  lemma FlatIdentifierKey(digest: string -> string, id: Identity, sd: string, subject: string)
    ensures IdentifierKey(digest, id, sd, subject) == Join(Components(digest, id) + [sd] + [subject], SEPARATOR)
  {
    var xs := Components(digest, id);
    JoinAppend(xs, [sd, subject], SEPARATOR);
    assert xs + [sd] + [subject] == xs + [sd, subject];
    JoinAppend([CredentialKey(digest, id)], [sd, subject], SEPARATOR);
    assert [CredentialKey(digest, id)] + [sd, subject] == [CredentialKey(digest, id), sd, subject];
  }

  lemma ParticipantKeyIff(digest: string -> string, id: Identity, did: string, other: Identity, otherDid: string)
    requires Fingerprints(digest) && SeparatorFree(id) && SeparatorFree(other)
    ensures ParticipantKey(digest, id, did) == ParticipantKey(digest, other, otherDid)
            <==> id == other && did == otherDid
  {
    var xs, ys := Components(digest, id), Components(digest, other);
    ComponentsSeparatorFree(digest, id);
    ComponentsSeparatorFree(digest, other);
    JoinAppend(xs, [did], SEPARATOR);
    JoinAppend(ys, [otherDid], SEPARATOR);
    if ParticipantKey(digest, id, did) == ParticipantKey(digest, other, otherDid) {
      JoinInjective(xs, did, ys, otherDid, SEPARATOR);
      ComponentsDetermine(digest, id, other);
    }
  }
}
