/** The request-context store that bridges the two phases of a request: a map with
    a TTL, a cap, a sweep, oldest-batch eviction and an atomic load-and-delete. */
module ContextStore {
  import opened Wrappers
  import opened ClaimPath
  import opened Durations

  const REQUEST_CONTEXT_TTL: int := 60 * SECOND
  const MAX_REQUEST_CONTEXTS: nat := 100_000
  const EVICTION_BATCH: nat := MAX_REQUEST_CONTEXTS / 100

  datatype RequestContext = RequestContext(verb: string, path: string, claims: Claims)

  datatype Entry = Entry(ctx: RequestContext, storedAt: int)

  type Entries = map<string, Entry>

  predicate Expired(e: Entry, now: int) {
    now - e.storedAt > REQUEST_CONTEXT_TTL
  }

  /** The entries that are still live at `now`. */
  function Live(m: Entries, now: int): Entries {
    map k | k in m && !Expired(m[k], now) :: m[k]
  }

  /** `kept` is m without up to `batch` of its oldest entries; entries of equal age
      may go in any order. */
  predicate OldestGone(m: Entries, batch: nat, kept: Entries) {
    && kept.Keys <= m.Keys
    && (forall k :: k in kept ==> kept[k] == m[k])
    && |kept| == (if batch > |m| then 0 else |m| - batch)
    && (forall a, b :: a in m && a !in kept && b in kept ==> m[a].storedAt <= m[b].storedAt)
  }

  /** The store with its history: how many stores found their key absent, how many
      loads were served, how many oldest-batch evictions there were. */
  datatype Store = Store(entries: Entries, evicted: nat, admitted: nat, served: nat, overflows: nat)

  const EMPTY := Store(map[], 0, 0, 0, 0)

  function AfterSweep(s: Store, now: int): Store {
    var live := Live(s.entries, now);
    LiveSize(s.entries, now);
    s.(entries := live, evicted := s.evicted + (|s.entries| - |live|))
  }

  predicate Overflows(s: Store, key: string, now: int) {
    |s.entries| >= MAX_REQUEST_CONTEXTS && key !in s.entries && Live(s.entries, now) == s.entries
  }

  /** What a store of `key` may turn the store into before it inserts. */
  predicate MakesRoom(s: Store, key: string, now: int, mid: Store) {
    if Overflows(s, key, now) then
      && OldestGone(s.entries, EVICTION_BATCH, mid.entries)
      && mid == s.(entries := mid.entries, evicted := s.evicted + EVICTION_BATCH, overflows := s.overflows + 1)
    else if |s.entries| >= MAX_REQUEST_CONTEXTS && key !in s.entries then mid == AfterSweep(s, now)
    else mid == s
  }

  function Inserted(mid: Store, key: string, ctx: RequestContext, now: int): Store {
    mid.(entries := mid.entries[key := Entry(ctx, now)], admitted := mid.admitted + if key in mid.entries then 0 else 1)
  }

  ghost predicate Stores(s: Store, key: string, ctx: RequestContext, now: int, t: Store) {
    exists mid :: MakesRoom(s, key, now, mid) && t == Inserted(mid, key, ctx, now)
  }

  function Loaded(s: Store, key: string, now: int): (Store, Option<RequestContext>) {
    if key !in s.entries then (s, None)
    else
      var t := s.(entries := s.entries - {key});
      if Expired(s.entries[key], now) then (t.(evicted := t.evicted + 1), None)
      else (t.(served := t.served + 1), Some(s.entries[key].ctx))
  }

  lemma LiveSize(m: Entries, now: int)
    ensures |Live(m, now)| <= |m|
    ensures |Live(m, now)| == |m| <==> Live(m, now) == m
  {
    SubmapSize(Live(m, now), m);
  }

  lemma {:induction false} SubmapSize(small: Entries, m: Entries)
    requires small.Keys <= m.Keys && forall k :: k in small ==> small[k] == m[k]
    ensures |small| <= |m|
    ensures |small| == |m| <==> small == m
  {
    SubsetSize(small.Keys, m.Keys);
    assert |small| == |small.Keys| && |m| == |m.Keys|;
  }

  lemma {:induction false} SubsetSize<T>(a: set<T>, b: set<T>)
    requires a <= b
    ensures |a| <= |b| && (|a| == |b| ==> a == b)
  {
    assert b == a + (b - a);
  }

  // ----------------------------------------------------------- oldest-first sort

  datatype Aged = Aged(key: string, storedAt: int)

  predicate DistinctKeys(s: seq<Aged>) {
    forall i, j :: 0 <= i < j < |s| ==> s[i].key != s[j].key
  }

  predicate OldestFirst(s: seq<Aged>) {
    forall i, j :: 0 <= i < j < |s| ==> s[i].storedAt <= s[j].storedAt
  }

  lemma InsertedLater(x: Aged, s: seq<Aged>, tail: seq<Aged>)
    requires OldestFirst(s) && DistinctKeys(s) && s != [] && s[0].storedAt <= x.storedAt && s[0].key != x.key
    requires forall y :: y in tail <==> y == x || y in s[1..]
    ensures forall i :: 0 <= i < |tail| ==> s[0].storedAt <= tail[i].storedAt && s[0].key != tail[i].key
    ensures forall y :: y in [s[0]] + tail <==> y == x || y in s
  {
    forall i | 0 <= i < |tail| ensures s[0].storedAt <= tail[i].storedAt && s[0].key != tail[i].key {
      assert tail[i] in tail;
      if tail[i] != x {
        var j :| 0 <= j < |s[1..]| && s[1..][j] == tail[i];
        assert s[j + 1] == tail[i];
      }
    }
    assert s == [s[0]] + s[1..];
  }

  function Insert(x: Aged, s: seq<Aged>): (r: seq<Aged>)
    requires OldestFirst(s) && DistinctKeys(s) && forall y :: y in s ==> y.key != x.key
    ensures OldestFirst(r) && DistinctKeys(r) && |r| == |s| + 1
    ensures forall y :: y in r <==> y == x || y in s
  {
    if s == [] then [x]
    else if x.storedAt <= s[0].storedAt then [x] + s
    else
      var tail := Insert(x, s[1..]);
      InsertedLater(x, s, tail);
      [s[0]] + tail
  }

  /** sort.Slice by age. */
  function SortedByAge(s: seq<Aged>): (r: seq<Aged>)
    requires DistinctKeys(s)
    ensures OldestFirst(r) && DistinctKeys(r) && |r| == |s|
    ensures forall y :: y in r <==> y in s
  {
    if s == [] then [] else Insert(s[0], SortedByAge(s[1..]))
  }

  function Names(s: seq<Aged>): set<string> {
    set x | x in s :: x.key
  }

  lemma NextNameIsNew(s: seq<Aged>, i: nat)
    requires DistinctKeys(s) && i < |s|
    ensures Names(s[..i + 1]) == Names(s[..i]) + {s[i].key} && s[i].key !in Names(s[..i])
  {
    assert s[..i + 1] == s[..i] + [s[i]];
  }

  lemma OneMore<T>(a: set<T>, x: T, b: set<T>)
    requires b == a + {x} && x !in a
    ensures |b| == |a| + 1
  {
  }

  lemma {:induction false} NamesSize(s: seq<Aged>, n: nat)
    requires DistinctKeys(s) && n <= |s|
    ensures |Names(s[..n])| == n
  {
    if n == 0 {
      assert Names(s[..0]) == {};
    } else {
      NamesSize(s, n - 1);
      NextNameIsNew(s, n - 1);
      OneMore(Names(s[..n - 1]), s[n - 1].key, Names(s[..n]));
    }
  }

  lemma DropSize(m: Entries, gone: set<string>)
    requires gone <= m.Keys
    ensures |m - gone| == |m| - |gone|
  {
    assert (m - gone).Keys == m.Keys - gone;
    assert m.Keys == (m.Keys - gone) + gone;
  }

  /** Deleting a prefix of the sorted entries leaves nothing older behind. */
  lemma FrontIsOldest(m: Entries, aged: seq<Aged>, n: nat)
    requires OldestFirst(aged) && n <= |aged|
    requires forall x :: x in aged <==> x.key in m && x.storedAt == m[x.key].storedAt
    ensures var kept := m - Names(aged[..n]);
            forall a, b :: a in m && a !in kept && b in kept ==> m[a].storedAt <= m[b].storedAt
  {
    var kept := m - Names(aged[..n]);
    forall a, b | a in m && a !in kept && b in kept ensures m[a].storedAt <= m[b].storedAt {
      var x :| x in aged[..n] && x.key == a;
      var y := Aged(b, m[b].storedAt);
      assert aged == aged[..n] + aged[n..];
      assert y in aged && y in aged[n..];
      var j :| 0 <= j < |aged[n..]| && aged[n..][j] == y;
      var i :| 0 <= i < n && aged[i] == x;
      assert aged[n + j] == y;
    }
  }

  lemma FrontGone(m: Entries, aged: seq<Aged>, batch: nat)
    requires OldestFirst(aged) && DistinctKeys(aged) && |aged| == |m|
    requires forall x :: x in aged <==> x.key in m && x.storedAt == m[x.key].storedAt
    ensures OldestGone(m, batch, m - Names(aged[..if batch > |aged| then |aged| else batch]))
  {
    var n := if batch > |aged| then |aged| else batch;
    FrontIsOldest(m, aged, n);
    NamesSize(aged, n);
    assert Names(aged[..n]) <= m.Keys;
    DropSize(m, Names(aged[..n]));
  }

  // ------------------------------------------------------------------- the store

  class RequestContextStore {
    var entries: Entries
    var evicted: nat
    ghost var admitted: nat
    ghost var served: nat
    ghost var overflows: nat

    ghost function View(): Store
      reads this
    {
      Store(entries, evicted, admitted, served, overflows)
    }

    constructor ()
      ensures View() == EMPTY
    {
      entries, evicted := map[], 0;
      admitted, served, overflows := 0, 0, 0;
    }

    /** StoreRequestContext; `now` is read while the mutex is held. */
    method StoreRequestContext(key: string, ctx: RequestContext, now: int)
      modifies this
      ensures Stores(old(View()), key, ctx, now, View())
    {
      if |entries| >= MAX_REQUEST_CONTEXTS {
        if key !in entries {
          EvictForSpaceLocked(key, now);
        }
      }
      assert MakesRoom(old(View()), key, now, View());
      ghost var mid := View();
      admitted := admitted + if key in entries then 0 else 1;
      entries := entries[key := Entry(ctx, now)];
      assert View() == Inserted(mid, key, ctx, now);
    }

    method EvictForSpaceLocked(ghost key: string, now: int)
      requires |entries| >= MAX_REQUEST_CONTEXTS && key !in entries
      modifies this
      ensures MakesRoom(old(View()), key, now, View())
    {
      LiveSize(entries, now);
      var n := SweepLocked(now);
      if n > 0 {
        return;
      }
      var _ := EvictOldestLocked(EVICTION_BATCH);
      overflows := overflows + 1;
    }

    method SweepLocked(now: int) returns (n: nat)
      modifies this`entries, this`evicted
      ensures View() == AfterSweep(old(View()), now)
      ensures n == old(|entries|) - |Live(old(entries), now)|
    {
      n := 0;
      var rest := entries.Keys;
      ghost var all := entries;
      while rest != {}
        invariant rest <= all.Keys
        invariant entries == map k | k in all && (k in rest || !Expired(all[k], now)) :: all[k]
        invariant n == |all| - |entries|
        invariant evicted == old(evicted)
        decreases rest
      {
        var k :| k in rest;
        rest := rest - {k};
        if now - entries[k].storedAt > REQUEST_CONTEXT_TTL {
          entries := entries - {k};
          n := n + 1;
        }
      }
      assert entries == Live(all, now);
      LiveSize(all, now);
      evicted := evicted + n;
    }

    method EvictOldestLocked(batch: int) returns (n: nat)
      modifies this`entries, this`evicted
      ensures n == if batch <= 0 then 0 else if batch > old(|entries|) then old(|entries|) else batch
      ensures OldestGone(old(entries), if batch <= 0 then 0 else batch, entries)
      ensures evicted == old(evicted) + n
    {
      if batch <= 0 || |entries| == 0 {
        return 0;
      }
      var aged := AgedEntries(entries);
      aged := SortedByAge(aged);
      n := if batch > |aged| then |aged| else batch;
      FrontGone(entries, aged, batch);
      DeleteFront(aged, n);
      evicted := evicted + n;
    }

    method DeleteFront(aged: seq<Aged>, n: nat)
      requires n <= |aged| && DistinctKeys(aged)
      modifies this`entries
      ensures entries == old(entries) - Names(aged[..n])
    {
      for i := 0 to n
        invariant entries == old(entries) - Names(aged[..i])
      {
        NextNameIsNew(aged, i);
        entries := entries - {aged[i].key};
      }
    }

    method LoadAndDeleteRequestContext(key: string, now: int) returns (ctx: Option<RequestContext>)
      modifies this
      ensures (View(), ctx) == Loaded(old(View()), key, now)
    {
      if key !in entries {
        return None;
      }
      var entry := entries[key];
      entries := entries - {key};
      if now - entry.storedAt > REQUEST_CONTEXT_TTL {
        evicted := evicted + 1;
        return None;
      }
      served := served + 1;
      return Some(entry.ctx);
    }
  }

  method AgedEntries(m: Entries) returns (aged: seq<Aged>)
    ensures DistinctKeys(aged) && |aged| == |m|
    ensures forall x :: x in aged <==> x.key in m && x.storedAt == m[x.key].storedAt
  {
    aged := [];
    var rest := m.Keys;
    while rest != {}
      invariant rest <= m.Keys && |aged| + |rest| == |m|
      invariant DistinctKeys(aged)
      invariant forall x :: x in aged <==> x.key in m && x.key !in rest && x.storedAt == m[x.key].storedAt
      decreases rest
    {
      var k :| k in rest;
      rest := rest - {k};
      aged := aged + [Aged(k, m[k].storedAt)];
    }
  }
}
