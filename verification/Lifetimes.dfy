/** How long a fetched participant token is cached, on 64-bit durations. */
module Lifetimes {
  import opened Durations

  const TOKEN_REFRESH_SKEW: int := 60 * SECOND
  const MIN_TOKEN_TTL: int := SECOND
  const MAX_TOKEN_TTL: int := 86400 * SECOND
  const TWO_63: int := 0x8000_0000_0000_0000
  const TWO_64: int := 0x1_0000_0000_0000_0000

  /** Two's-complement wrap-around of an int64 product. */
  function Wrap64(x: int): (r: int)
    ensures -TWO_63 <= r < TWO_63
    ensures -TWO_63 <= x < TWO_63 ==> r == x
  {
    (x + TWO_63) % TWO_64 - TWO_63
  }

  /** time.Duration(expiresIn) * time.Second */
  function ReportedLifetime(expiresIn: int): int {
    Wrap64(expiresIn * SECOND)
  }

  function CacheFor(lifetime: int, maxLifetime: int): int {
    var ttl := if 0 < lifetime < maxLifetime then lifetime else maxLifetime;
    if ttl > TOKEN_REFRESH_SKEW then ttl - TOKEN_REFRESH_SKEW else ttl
  }

  /** Whatever lifetime the token service reports, even one whose nanoseconds wrap,
      a token is cached for a positive time within the validated cap, never past
      its true lifetime, and exactly a skew short of it in the ordinary range. */
  lemma CachedLifetime(expiresIn: int, cap: int)
    requires -TWO_63 <= expiresIn < TWO_63 && MIN_TOKEN_TTL <= cap <= MAX_TOKEN_TTL
    ensures var cached := CacheFor(ReportedLifetime(expiresIn), cap);
            var lifetime := expiresIn * SECOND;
            && 0 < cached <= cap
            && (expiresIn > 0 ==> cached <= lifetime)
            && (60 * SECOND < lifetime < cap ==> cached == lifetime - 60 * SECOND)
  {
    if expiresIn > 0 && expiresIn * SECOND < cap {
      assert ReportedLifetime(expiresIn) == expiresIn * SECOND;
    }
  }

  /** In every case: `reported` is the 64-bit value of the lifetime in nanoseconds; one
      that is positive and below the cap counts, otherwise the cap does; and a minute is
      taken off whenever that leaves anything. */
  lemma CachedExactly(expiresIn: int, reported: int, turns: int, cap: int)
    requires -0x8000_0000_0000_0000 <= reported < 0x8000_0000_0000_0000
    requires expiresIn * 1_000_000_000 == reported + turns * 0x1_0000_0000_0000_0000
    ensures var counted := if 0 < reported < cap then reported else cap;
            CacheFor(ReportedLifetime(expiresIn), cap) == if counted > 60 * SECOND then counted - 60 * SECOND
                else counted
  {
    WrapsTo(expiresIn * SECOND, reported, turns);
  }

  lemma WrapsTo(x: int, r: int, turns: int)
    requires -TWO_63 <= r < TWO_63 && x == r + turns * TWO_64
    ensures Wrap64(x) == r
  {
    var q := (x + TWO_63) / TWO_64;
    assert x + TWO_63 == q * TWO_64 + (x + TWO_63) % TWO_64;
    assert (q - turns) * TWO_64 == r + TWO_63 - (x + TWO_63) % TWO_64;
    assert q == turns;
  }

  /** A cached token is dropped a full skew before it expires exactly when its
      lifetime exceeds the skew and, under a cap within the skew, outlasts the cap
      by a skew: shorter lifetimes are cached to their very end. */
  lemma SkewKeptIff(expiresIn: int, cap: int)
    requires 0 < expiresIn < TWO_63 && MIN_TOKEN_TTL <= cap <= MAX_TOKEN_TTL
    ensures var lifetime := expiresIn * SECOND;
            CacheFor(ReportedLifetime(expiresIn), cap) <= lifetime - TOKEN_REFRESH_SKEW
            <==> if cap > TOKEN_REFRESH_SKEW then lifetime > TOKEN_REFRESH_SKEW
                else lifetime >= cap + TOKEN_REFRESH_SKEW
  {
    var lifetime := expiresIn * SECOND;
    CachedLifetime(expiresIn, cap);
    if lifetime < TWO_63 {
      assert ReportedLifetime(expiresIn) == lifetime;
    }
  }
}
