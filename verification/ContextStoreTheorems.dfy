/** Whole-run properties of the request-context store: conservation and the
    amortised overflow, what a load returns, and that the janitor is unobservable. */
module ContextStoreTheorems {
  import opened Wrappers
  import opened ContextStore
  import opened Durations

  /** One critical section of the store, at clock time `at`. A sweep acts on a time
      it read before it took the lock, so its `now` may lag behind. */
  datatype Op =
    | StoreOp(key: string, ctx: RequestContext, at: int)
    | LoadOp(key: string, at: int)
    | SweepOp(now: int, at: int)

  type Replies = seq<Option<RequestContext>>

  /** s runs through ops to t, the loads answering `replies` in order. */
  ghost predicate Runs(s: Store, ops: seq<Op>, replies: Replies, t: Store)
    decreases |ops|
  {
    if ops == [] then replies == [] && t == s
    else match ops[0]
      case SweepOp(now, at) => Runs(AfterSweep(s, now), ops[1..], replies, t)
      case LoadOp(key, at) =>
        var (next, reply) := Loaded(s, key, at);
        replies != [] && replies[0] == reply && Runs(next, ops[1..], replies[1..], t)
      case StoreOp(key, ctx, at) =>
        exists next :: Stores(s, key, ctx, at, next) && Runs(next, ops[1..], replies, t)
  }

  /** The clock never goes back, sweeps lag, and no two stores share a time. */
  predicate WellTimed(ops: seq<Op>, clock: int, lastStore: int)
    decreases |ops|
  {
    ops == [] ||
    (&& ops[0].at >= clock
     && (ops[0].SweepOp? ==> ops[0].now <= ops[0].at)
     && (ops[0].StoreOp? ==> ops[0].at > lastStore)
     && WellTimed(ops[1..], ops[0].at, if ops[0].StoreOp? then ops[0].at else lastStore))
  }

  // -------------------------------------------------------------- conservation

  /** Every context that was ever admitted is held, was served, or was evicted;
      the store is within its cap; overflows are paid for by evictions. */
  predicate Conserved(s: Store) {
    && s.admitted == |s.entries| + s.served + s.evicted
    && |s.entries| <= 100_000
    && s.evicted >= 1000 * s.overflows
  }

  lemma RoomConserves(s: Store, key: string, now: int, mid: Store)
    requires Conserved(s) && MakesRoom(s, key, now, mid)
    ensures Conserved(mid) && (key !in mid.entries ==> |mid.entries| < MAX_REQUEST_CONTEXTS)
  {
    LiveSize(s.entries, now);
  }

  lemma InsertedSize(mid: Store, key: string, ctx: RequestContext, now: int)
    ensures |Inserted(mid, key, ctx, now).entries| == |mid.entries| + if key in mid.entries then 0 else 1
  {
    var t := Inserted(mid, key, ctx, now);
    assert |t.entries| == |t.entries.Keys| && |mid.entries| == |mid.entries.Keys|;
    assert t.entries.Keys == mid.entries.Keys + {key};
  }

  lemma StoreConserves(s: Store, key: string, ctx: RequestContext, now: int, t: Store)
    requires Conserved(s) && Stores(s, key, ctx, now, t)
    ensures Conserved(t)
  {
    var mid :| MakesRoom(s, key, now, mid) && t == Inserted(mid, key, ctx, now);
    RoomConserves(s, key, now, mid);
    InsertedSize(mid, key, ctx, now);
  }

  lemma LoadConserves(s: Store, key: string, now: int)
    requires Conserved(s)
    ensures Conserved(Loaded(s, key, now).0)
  {
    if key in s.entries {
      DropSize(s.entries, {key});
    }
  }

  /** Conservation holds after every run of stores, loads and sweeps. */
  lemma {:induction false} RunConserves(s: Store, ops: seq<Op>, replies: Replies, t: Store)
    requires Conserved(s) && Runs(s, ops, replies, t)
    ensures Conserved(t)
    decreases |ops|
  {
    if ops != [] {
      match ops[0]
      case SweepOp(now, at) =>
        LiveSize(s.entries, now);
        RunConserves(AfterSweep(s, now), ops[1..], replies, t);
      case LoadOp(key, at) =>
        LoadConserves(s, key, at);
        RunConserves(Loaded(s, key, at).0, ops[1..], replies[1..], t);
      case StoreOp(key, ctx, at) =>
        var next :| Stores(s, key, ctx, at, next) && Runs(next, ops[1..], replies, t);
        StoreConserves(s, key, ctx, at, next);
        RunConserves(next, ops[1..], replies, t);
    }
  }

  /** The overflow scan is amortised: when a store is about to cause the B-th
      oldest-batch eviction, at least cap + (B - 1) * batch stores of an absent key
      came before it. */
  lemma OverflowIsAmortised(ops: seq<Op>, replies: Replies, s: Store, key: string, now: int)
    requires Runs(EMPTY, ops, replies, s) && Overflows(s, key, now)
    ensures s.admitted >= 100_000 + s.overflows * 1000
    ensures forall ctx, t :: Stores(s, key, ctx, now, t) ==> t.overflows == s.overflows + 1
  {
    RunConserves(EMPTY, ops, replies, s);
  }

  function Answered(replies: Replies): nat {
    if replies == [] then 0 else (if replies[0].Some? then 1 else 0) + Answered(replies[1..])
  }

  /** A context counts as served exactly when a load answered with it. */
  lemma {:induction false} ServedAreAnswered(s: Store, ops: seq<Op>, replies: Replies, t: Store)
    requires Runs(s, ops, replies, t)
    ensures t.served == s.served + Answered(replies)
    decreases |ops|
  {
    if ops != [] {
      match ops[0]
      case SweepOp(now, at) => ServedAreAnswered(AfterSweep(s, now), ops[1..], replies, t);
      case LoadOp(key, at) => ServedAreAnswered(Loaded(s, key, at).0, ops[1..], replies[1..], t);
      case StoreOp(key, ctx, at) =>
        var next :| Stores(s, key, ctx, at, next) && Runs(next, ops[1..], replies, t);
        ServedAreAnswered(next, ops[1..], replies, t);
    }
  }

  // ------------------------------------------------------ what one operation does

  /** A sweep removes an entry if and only if it is over a minute old. */
  lemma SweepKeepsIff(s: Store, now: int, k: string)
    requires k in s.entries
    ensures k in AfterSweep(s, now).entries <==> now - s.entries[k].storedAt <= 60 * SECOND
    ensures AfterSweep(s, now).entries.Keys <= s.entries.Keys
    ensures k in AfterSweep(s, now).entries ==> AfterSweep(s, now).entries[k] == s.entries[k]
  {
  }

  /** No entry is over a minute old. */
  predicate AllYoung(m: Entries, now: int) {
    forall k :: k in m ==> now - m[k].storedAt <= 60 * SECOND
  }

  /** A store puts the context in and leaves everything else alone, unless the store is
      full and the key is new. Then it takes the expired entries out; and only when
      there are none, a thousand entries none of which is younger than any that stays. */
  lemma StoreEffect(s: Store, key: string, ctx: RequestContext, now: int, t: Store)
    requires |s.entries| <= 100_000 && Stores(s, key, ctx, now, t)
    ensures key in t.entries && t.entries[key] == Entry(ctx, now)
    ensures forall k :: k in t.entries && k != key ==> k in s.entries && t.entries[k] == s.entries[k]
    ensures |s.entries| < 100_000 || key in s.entries ==> s.entries.Keys <= t.entries.Keys
    ensures |s.entries| == 100_000 && key !in s.entries && !AllYoung(s.entries, now) ==>
              forall k :: k in s.entries ==> (k in t.entries <==> now - s.entries[k].storedAt <= 60 * SECOND)
    ensures |s.entries| == 100_000 && key !in s.entries && AllYoung(s.entries, now) ==>
              && |t.entries| == 99_001
              && forall a, b :: a in s.entries && a !in t.entries && b in s.entries && b in t.entries ==>
                   s.entries[a].storedAt <= s.entries[b].storedAt
  {
    var mid :| MakesRoom(s, key, now, mid) && t == Inserted(mid, key, ctx, now);
    InsertedSize(mid, key, ctx, now);
    AllYoungIffLive(s.entries, now);
  }

  lemma AllYoungIffLive(m: Entries, now: int)
    ensures AllYoung(m, now) <==> Live(m, now) == m
  {
    if AllYoung(m, now) {
      assert Live(m, now) == m;
    } else {
      var k :| k in m && now - m[k].storedAt > 60 * SECOND;
      assert k !in Live(m, now);
    }
  }

  // ---------------------------------------------------------- what a load returns

  /** The store a load of `key` should find: the latest one, unless it was loaded
      since. */
  function LatestStore(ops: seq<Op>, key: string): Option<Entry> {
    if ops == [] then None
    else
      var last := ops[|ops| - 1];
      if last.StoreOp? && last.key == key then Some(Entry(last.ctx, last.at))
      else if last.LoadOp? && last.key == key then None
      else LatestStore(ops[..|ops| - 1], key)
  }

  ghost predicate Remembers(s: Store, past: seq<Op>) {
    forall k :: k in s.entries ==> LatestStore(past, k) == Some(s.entries[k])
  }

  lemma LatestAfter(past: seq<Op>, op: Op, k: string)
    ensures LatestStore(past + [op], k) ==
            if op.StoreOp? && op.key == k then Some(Entry(op.ctx, op.at))
            else if op.LoadOp? && op.key == k then None
            else LatestStore(past, k)
  {
    assert (past + [op])[..|past|] == past;
  }

  lemma StoreRemembers(s: Store, past: seq<Op>, op: Op, t: Store)
    requires Remembers(s, past) && op.StoreOp? && Stores(s, op.key, op.ctx, op.at, t)
    ensures Remembers(t, past + [op])
  {
    var mid :| MakesRoom(s, op.key, op.at, mid) && t == Inserted(mid, op.key, op.ctx, op.at);
    forall k | k in t.entries ensures LatestStore(past + [op], k) == Some(t.entries[k]) {
      LatestAfter(past, op, k);
    }
  }

  lemma DropRemembers(s: Store, past: seq<Op>, op: Op, t: Store)
    requires Remembers(s, past) && !op.StoreOp?
    requires forall k :: k in t.entries ==>
             k in s.entries && t.entries[k] == s.entries[k] && !(op.LoadOp? && op.key == k)
    ensures Remembers(t, past + [op])
  {
    forall k | k in t.entries ensures LatestStore(past + [op], k) == Some(t.entries[k]) {
      LatestAfter(past, op, k);
    }
  }

  lemma {:induction false} RunRemembers(s: Store, past: seq<Op>, ops: seq<Op>, replies: Replies, t: Store)
    requires Remembers(s, past) && Runs(s, ops, replies, t)
    ensures Remembers(t, past + ops)
    decreases |ops|
  {
    if ops == [] {
      assert past + ops == past;
    } else {
      assert past + ops == (past + [ops[0]]) + ops[1..];
      match ops[0]
      case SweepOp(now, at) =>
        DropRemembers(s, past, ops[0], AfterSweep(s, now));
        RunRemembers(AfterSweep(s, now), past + [ops[0]], ops[1..], replies, t);
      case LoadOp(key, at) =>
        DropRemembers(s, past, ops[0], Loaded(s, key, at).0);
        RunRemembers(Loaded(s, key, at).0, past + [ops[0]], ops[1..], replies[1..], t);
      case StoreOp(key, ctx, at) =>
        var next :| Stores(s, key, ctx, at, next) && Runs(next, ops[1..], replies, t);
        StoreRemembers(s, past, ops[0], next);
        RunRemembers(next, past + [ops[0]], ops[1..], replies, t);
    }
  }

  /** After any run, a load is served only with the context of the latest store of
      its key, at most a TTL old and not loaded before: a stale context never
      decides a fresh request, and no context decides two. */
  lemma ServedIsLatestAndFresh(ops: seq<Op>, replies: Replies, s: Store, key: string, now: int)
    requires Runs(EMPTY, ops, replies, s)
    ensures var reply := Loaded(s, key, now).1;
            reply.Some? ==>
              && LatestStore(ops, key).Some?
              && reply.value == LatestStore(ops, key).value.ctx
              && now - LatestStore(ops, key).value.storedAt <= 60 * SECOND
  {
    RunRemembers(EMPTY, [], ops, replies, s);
    assert [] + ops == ops;
  }

  /** Every context that is due is still there. */
  ghost predicate Keeps(s: Store, past: seq<Op>, clock: int) {
    forall k :: LatestStore(past, k).Some? && !Expired(LatestStore(past, k).value, clock) ==>
                  k in s.entries && s.entries[k] == LatestStore(past, k).value
  }

  lemma StepKeeps(s: Store, past: seq<Op>, op: Op, t: Store, clock: int)
    requires Keeps(s, past, clock) && clock <= op.at
    requires match op
             case SweepOp(now, at) => now <= at && t == AfterSweep(s, now)
             case LoadOp(key, at) => t == Loaded(s, key, at).0
             case StoreOp(key, ctx, at) => Stores(s, key, ctx, at, t) && t.overflows == s.overflows
    ensures Keeps(t, past + [op], op.at)
  {
    forall k | LatestStore(past + [op], k).Some? && !Expired(LatestStore(past + [op], k).value, op.at)
      ensures k in t.entries && t.entries[k] == LatestStore(past + [op], k).value
    {
      LatestAfter(past, op, k);
      if !(op.StoreOp? && op.key == k) {
        assert k in s.entries && s.entries[k] == LatestStore(past, k).value;
      }
    }
  }

  lemma {:induction false} OverflowsGrow(s: Store, ops: seq<Op>, replies: Replies, t: Store)
    requires Runs(s, ops, replies, t)
    ensures s.overflows <= t.overflows
    decreases |ops|
  {
    if ops != [] {
      match ops[0]
      case SweepOp(now, at) => OverflowsGrow(AfterSweep(s, now), ops[1..], replies, t);
      case LoadOp(key, at) => OverflowsGrow(Loaded(s, key, at).0, ops[1..], replies[1..], t);
      case StoreOp(key, ctx, at) =>
        var next :| Stores(s, key, ctx, at, next) && Runs(next, ops[1..], replies, t);
        OverflowsGrow(next, ops[1..], replies, t);
    }
  }

  lemma {:induction false} RunKeeps(s: Store, past: seq<Op>, ops: seq<Op>, replies: Replies, t: Store,
                                    clock: int, last: int)
    requires Keeps(s, past, clock) && Runs(s, ops, replies, t) && WellTimed(ops, clock, last)
             && t.overflows == s.overflows
    ensures Keeps(t, past + ops, ClockAfter(ops, clock))
    decreases |ops|
  {
    if ops == [] {
      assert past + ops == past;
    } else {
      assert past + ops == (past + [ops[0]]) + ops[1..];
      var at := ops[0].at;
      var next, rest := s, replies;
      match ops[0] {
        case SweepOp(now, _) => next := AfterSweep(s, now);
        case LoadOp(key, _) => next, rest := Loaded(s, key, at).0, replies[1..];
        case StoreOp(key, ctx, _) => next :| Stores(s, key, ctx, at, next) && Runs(next, ops[1..], replies, t);
      }
      OverflowsGrow(next, ops[1..], rest, t);
      OneStepOverflows(s, ops[0], next);
      StepKeeps(s, past, ops[0], next, clock);
      RunKeeps(next, past + [ops[0]], ops[1..], rest, t, at, if ops[0].StoreOp? then at else last);
    }
  }

  lemma OneStepOverflows(s: Store, op: Op, t: Store)
    requires match op
             case SweepOp(now, _) => t == AfterSweep(s, now)
             case LoadOp(key, at) => t == Loaded(s, key, at).0
             case StoreOp(key, ctx, at) => Stores(s, key, ctx, at, t)
    ensures s.overflows <= t.overflows
  {
  }

  /** As long as no live context had to be evicted for space, a load is served
      exactly when its key was stored, not loaded since, and stored within the TTL. */
  lemma ServedIff(ops: seq<Op>, replies: Replies, s: Store, key: string, now: int, clock: int, last: int)
    requires Runs(EMPTY, ops, replies, s) && WellTimed(ops, clock, last) && s.overflows == 0
             && ClockAfter(ops, clock) <= now
    ensures var reply, latest := Loaded(s, key, now).1, LatestStore(ops, key);
            reply == if latest.Some? && now - latest.value.storedAt <= 60 * SECOND then Some(latest.value.ctx) else None
  {
    ServedIsLatestAndFresh(ops, replies, s, key, now);
    RunKeeps(EMPTY, [], ops, replies, s, clock, last);
    assert [] + ops == ops;
  }

  /** The clock a run has reached. */
  function ClockAfter(ops: seq<Op>, clock: int): int {
    if ops == [] then clock else ops[|ops| - 1].at
  }

  // --------------------------------------------------- the janitor is unobservable

  predicate DistinctAges(m: Entries) {
    forall a, b :: a in m && b in m && m[a].storedAt == m[b].storedAt ==> a == b
  }

  predicate AgesUpTo(m: Entries, last: int) {
    forall k :: k in m ==> m[k].storedAt <= last
  }

  predicate Tidy(s: Store, lastStore: int) {
    |s.entries| <= MAX_REQUEST_CONTEXTS && DistinctAges(s.entries) && AgesUpTo(s.entries, lastStore)
  }

  /** Two stores nobody can tell apart from time `clock` on. */
  predicate Alike(a: Store, b: Store, clock: int) {
    Live(a.entries, clock) == Live(b.entries, clock)
  }

  function WithoutSweeps(ops: seq<Op>): seq<Op>
    decreases |ops|
  {
    if ops == [] then []
    else if ops[0].SweepOp? then WithoutSweeps(ops[1..])
    else [ops[0]] + WithoutSweeps(ops[1..])
  }

  lemma LiveOfLive(m: Entries, early: int, late: int)
    requires early <= late
    ensures Live(Live(m, early), late) == Live(m, late)
  {
  }

  lemma AlikeLater(a: Store, b: Store, clock: int, later: int)
    requires Alike(a, b, clock) && clock <= later
    ensures Alike(a, b, later)
  {
    LiveOfLive(a.entries, clock, later);
    LiveOfLive(b.entries, clock, later);
  }

  lemma LoadAlike(a: Store, b: Store, key: string, now: int)
    requires Alike(a, b, now)
    ensures Loaded(a, key, now).1 == Loaded(b, key, now).1
    ensures Alike(Loaded(a, key, now).0, Loaded(b, key, now).0, now)
  {
    var la, lb := Live(a.entries, now), Live(b.entries, now);
    assert key in la <==> key in a.entries && !Expired(a.entries[key], now);
    assert key in lb <==> key in b.entries && !Expired(b.entries[key], now);
    assert Live(Loaded(a, key, now).0.entries, now) == la - {key};
    assert Live(Loaded(b, key, now).0.entries, now) == lb - {key};
  }

  /** With distinct ages the oldest batch is unique. */
  lemma OldestUnique(m: Entries, batch: nat, x: Entries, y: Entries)
    requires DistinctAges(m) && OldestGone(m, batch, x) && OldestGone(m, batch, y)
    ensures x == y
  {
    assert forall a, b :: a in x.Keys && a !in y.Keys && b in y.Keys ==> b in x.Keys;
    assert |x.Keys| == |x| && |y.Keys| == |y|;
    if x.Keys <= y.Keys {
      SubsetSize(x.Keys, y.Keys);
    } else {
      SubsetSize(y.Keys, x.Keys);
    }
  }

  /** A full store without expired entries looks like a full store without expired
      entries to every alike store within the cap: they are the same. */
  lemma OverflowAlike(a: Store, b: Store, key: string, now: int)
    requires Alike(a, b, now)
    requires |a.entries| <= MAX_REQUEST_CONTEXTS && |b.entries| <= MAX_REQUEST_CONTEXTS
    requires Overflows(a, key, now)
    ensures a.entries == b.entries && Overflows(b, key, now)
  {
    LiveSize(b.entries, now);
    assert Live(b.entries, now) == a.entries;
  }

  lemma InsertLive(m: Entries, key: string, e: Entry, now: int)
    requires !Expired(e, now)
    ensures Live(m[key := e], now) == Live(m, now)[key := e]
  {
  }

  lemma OverflowingStore(s: Store, key: string, ctx: RequestContext, now: int, t: Store) returns (kept: Entries)
    requires Stores(s, key, ctx, now, t) && Overflows(s, key, now)
    ensures OldestGone(s.entries, EVICTION_BATCH, kept) && t.entries == kept[key := Entry(ctx, now)]
  {
    var mid :| MakesRoom(s, key, now, mid) && t == Inserted(mid, key, ctx, now);
    kept := mid.entries;
  }

  lemma OrdinaryStore(s: Store, key: string, ctx: RequestContext, now: int, t: Store)
    requires Stores(s, key, ctx, now, t) && !Overflows(s, key, now)
    ensures Live(t.entries, now) == Live(s.entries, now)[key := Entry(ctx, now)]
  {
    var mid :| MakesRoom(s, key, now, mid) && t == Inserted(mid, key, ctx, now);
    InsertLive(mid.entries, key, Entry(ctx, now), now);
    LiveOfLive(s.entries, now, now);
  }

  lemma OrdinaryAlike(a: Store, b: Store, key: string, ctx: RequestContext, now: int, a': Store, b': Store)
    requires Alike(a, b, now) && !Overflows(a, key, now)
    requires |a.entries| <= MAX_REQUEST_CONTEXTS && |b.entries| <= MAX_REQUEST_CONTEXTS
    requires Stores(a, key, ctx, now, a') && Stores(b, key, ctx, now, b')
    ensures Alike(a', b', now)
  {
    if Overflows(b, key, now) {
      OverflowAlike(b, a, key, now);
    } else {
      OrdinaryStore(a, key, ctx, now, a');
      OrdinaryStore(b, key, ctx, now, b');
    }
  }

  lemma StoreAlike(a: Store, b: Store, key: string, ctx: RequestContext, now: int, a': Store, b': Store)
    requires Alike(a, b, now) && DistinctAges(a.entries)
    requires |a.entries| <= MAX_REQUEST_CONTEXTS && |b.entries| <= MAX_REQUEST_CONTEXTS
    requires Stores(a, key, ctx, now, a') && Stores(b, key, ctx, now, b')
    ensures Alike(a', b', now)
  {
    if Overflows(a, key, now) {
      OverflowAlike(a, b, key, now);
      var x := OverflowingStore(a, key, ctx, now, a');
      var y := OverflowingStore(b, key, ctx, now, b');
      OldestUnique(a.entries, EVICTION_BATCH, x, y);
      assert a'.entries == b'.entries;
    } else {
      OrdinaryAlike(a, b, key, ctx, now, a', b');
    }
  }

  lemma StoreAges(s: Store, key: string, ctx: RequestContext, now: int, t: Store, last: int)
    requires DistinctAges(s.entries) && AgesUpTo(s.entries, last) && now > last && Stores(s, key, ctx, now, t)
    ensures DistinctAges(t.entries) && AgesUpTo(t.entries, now)
  {
    var mid :| MakesRoom(s, key, now, mid) && t == Inserted(mid, key, ctx, now);
    assert forall k :: k in mid.entries ==> k in s.entries && mid.entries[k] == s.entries[k];
  }

  lemma StoreFits(s: Store, key: string, ctx: RequestContext, now: int, t: Store)
    requires |s.entries| <= MAX_REQUEST_CONTEXTS && Stores(s, key, ctx, now, t)
    ensures |t.entries| <= MAX_REQUEST_CONTEXTS
  {
    var mid :| MakesRoom(s, key, now, mid) && t == Inserted(mid, key, ctx, now);
    LiveSize(s.entries, now);
    InsertedSize(mid, key, ctx, now);
  }

  lemma StoreTidy(s: Store, key: string, ctx: RequestContext, now: int, t: Store, last: int)
    requires Tidy(s, last) && now > last && Stores(s, key, ctx, now, t)
    ensures Tidy(t, now)
  {
    StoreAges(s, key, ctx, now, t, last);
    StoreFits(s, key, ctx, now, t);
  }

  lemma SweepTidy(s: Store, now: int, last: int)
    requires Tidy(s, last)
    ensures Tidy(AfterSweep(s, now), last)
  {
    LiveSize(s.entries, now);
  }

  lemma LoadTidy(s: Store, key: string, now: int, last: int)
    requires Tidy(s, last)
    ensures Tidy(Loaded(s, key, now).0, last)
  {
    if key in s.entries {
      DropSize(s.entries, {key});
    }
  }

  lemma SweepAlike(a: Store, b: Store, now: int, at: int, clock: int)
    requires Alike(a, b, clock) && clock <= at && now <= at
    ensures Alike(AfterSweep(a, now), b, at)
  {
    AlikeLater(a, b, clock, at);
    LiveOfLive(a.entries, now, at);
  }

  function Later(x: int, y: int): int {
    if x > y then x else y
  }

  /** The head of a run: an operation other than a sweep leads what is left without
      the sweeps. */
  lemma HeadWithoutSweeps(ops: seq<Op>)
    requires ops != [] && !ops[0].SweepOp?
    ensures WithoutSweeps(ops) != [] && WithoutSweeps(ops)[0] == ops[0]
            && WithoutSweeps(ops)[1..] == WithoutSweeps(ops[1..])
  {
  }

  lemma ClockOfTail(ops: seq<Op>, clock: int)
    requires ops != []
    ensures ClockAfter(ops, clock) == ClockAfter(ops[1..], ops[0].at)
  {
  }

  /** Two runs that differ only in their sweeps, however many there are, wherever
      they stand and however far their clock lags, serve the same loads and hold
      the same unexpired contexts. Since every prefix of a run is a run, this holds
      after every step. */
  lemma {:induction false} JanitorUnobservable(a: Store, b: Store, opsA: seq<Op>, opsB: seq<Op>,
                                               repliesA: Replies, repliesB: Replies,
                                               a': Store, b': Store, clockA: int, clockB: int, last: int)
    requires Runs(a, opsA, repliesA, a') && Runs(b, opsB, repliesB, b')
    requires WithoutSweeps(opsA) == WithoutSweeps(opsB)
    requires WellTimed(opsA, clockA, last) && WellTimed(opsB, clockB, last)
    requires Tidy(a, last) && Tidy(b, last)
    requires Alike(a, b, Later(clockA, clockB))
    ensures repliesA == repliesB
    ensures Alike(a', b', Later(ClockAfter(opsA, clockA), ClockAfter(opsB, clockB)))
    decreases |opsA| + |opsB|
  {
    if opsA != [] && opsA[0].SweepOp? {
      var SweepOp(now, at) := opsA[0];
      ClockOfTail(opsA, clockA);
      SweepAlike(a, b, now, Later(at, clockB), Later(clockA, clockB));
      SweepTidy(a, now, last);
      JanitorUnobservable(AfterSweep(a, now), b, opsA[1..], opsB, repliesA, repliesB, a', b', at, clockB, last);
    } else if opsB != [] && opsB[0].SweepOp? {
      var SweepOp(now, at) := opsB[0];
      ClockOfTail(opsB, clockB);
      SweepAlike(b, a, now, Later(clockA, at), Later(clockA, clockB));
      SweepTidy(b, now, last);
      JanitorUnobservable(a, AfterSweep(b, now), opsA, opsB[1..], repliesA, repliesB, a', b', clockA, at, last);
    } else if opsA != [] && opsB != [] {
      HeadWithoutSweeps(opsA);
      HeadWithoutSweeps(opsB);
      ClockOfTail(opsA, clockA);
      ClockOfTail(opsB, clockB);
      var at := opsA[0].at;
      AlikeLater(a, b, Later(clockA, clockB), at);
      match opsA[0]
      case LoadOp(key, _) =>
        LoadAlike(a, b, key, at);
        LoadTidy(a, key, at, last);
        LoadTidy(b, key, at, last);
        JanitorUnobservable(Loaded(a, key, at).0, Loaded(b, key, at).0, opsA[1..], opsB[1..],
                            repliesA[1..], repliesB[1..], a', b', at, at, last);
      case StoreOp(key, ctx, _) =>
        var nextA :| Stores(a, key, ctx, at, nextA) && Runs(nextA, opsA[1..], repliesA, a');
        var nextB :| Stores(b, key, ctx, at, nextB) && Runs(nextB, opsB[1..], repliesB, b');
        StoreAlike(a, b, key, ctx, at, nextA, nextB);
        StoreTidy(a, key, ctx, at, nextA, last);
        StoreTidy(b, key, ctx, at, nextB, last);
        JanitorUnobservable(nextA, nextB, opsA[1..], opsB[1..], repliesA, repliesB, a', b', at, at, at);
    }
  }

  // ------------------------------------------------ how long a live context is safe

  /** How many stores came later than `time`. */
  function StoresAfter(ops: seq<Op>, time: int): nat {
    if ops == [] then 0
    else
      var last := ops[|ops| - 1];
      StoresAfter(ops[..|ops| - 1], time) + if last.StoreOp? && last.at > time then 1 else 0
  }

  /** The keys they stored. */
  function KeysAfter(ops: seq<Op>, time: int): set<string> {
    if ops == [] then {}
    else
      var last := ops[|ops| - 1];
      KeysAfter(ops[..|ops| - 1], time) + if last.StoreOp? && last.at > time then {last.key} else {}
  }

  lemma {:induction false} FewerKeysThanStores(ops: seq<Op>, time: int)
    ensures |KeysAfter(ops, time)| <= StoresAfter(ops, time)
  {
    if ops != [] {
      FewerKeysThanStores(ops[..|ops| - 1], time);
    }
  }

  lemma {:induction false} LatestIsListed(ops: seq<Op>, key: string, time: int)
    requires LatestStore(ops, key).Some? && LatestStore(ops, key).value.storedAt > time
    ensures key in KeysAfter(ops, time)
  {
    var last := ops[|ops| - 1];
    if !(last.StoreOp? && last.key == key) {
      LatestIsListed(ops[..|ops| - 1], key, time);
    }
  }

  /** Entries younger than `time` were stored by as many stores later than `time`. */
  lemma YoungerWereStored(s: Store, past: seq<Op>, younger: set<string>, time: int)
    requires Remembers(s, past) && forall k :: k in younger ==> k in s.entries && s.entries[k].storedAt > time
    ensures |younger| <= StoresAfter(past, time)
  {
    forall k | k in younger ensures k in KeysAfter(past, time) {
      LatestIsListed(past, k, time);
    }
    SubsetSize(younger, KeysAfter(past, time));
    FewerKeysThanStores(past, time);
  }

  /** An overflow leaves at least MAX_REQUEST_CONTEXTS - EVICTION_BATCH contexts that
      are younger than each one it evicts. */
  lemma CrowdedOut(s: Store, past: seq<Op>, key: string, now: int, kept: Entries, k: string)
    requires Overflows(s, key, now) && OldestGone(s.entries, EVICTION_BATCH, kept)
    requires DistinctAges(s.entries) && Remembers(s, past) && k in s.entries && k !in kept
    ensures StoresAfter(past, s.entries[k].storedAt) >= MAX_REQUEST_CONTEXTS - EVICTION_BATCH
  {
    forall b | b in kept.Keys ensures b in s.entries && s.entries[b].storedAt > s.entries[k].storedAt {
      assert b in kept;
    }
    YoungerWereStored(s, past, kept.Keys, s.entries[k].storedAt);
    assert |kept.Keys| == |kept|;
  }

  lemma StoresAfterStep(past: seq<Op>, op: Op, time: int)
    ensures StoresAfter(past + [op], time) == StoresAfter(past, time) + if op.StoreOp? && op.at > time then 1 else 0
  {
    assert (past + [op])[..|past|] == past;
  }

  /** This context is due, and few enough stores came since. */
  predicate Safe(past: seq<Op>, k: string, clock: int) {
    var latest := LatestStore(past, k);
    && latest.Some? && !Expired(latest.value, clock)
    && StoresAfter(past, latest.value.storedAt) <= MAX_REQUEST_CONTEXTS - EVICTION_BATCH
  }

  predicate Holds(s: Store, past: seq<Op>, k: string) {
    k in s.entries && LatestStore(past, k) == Some(s.entries[k])
  }

  ghost predicate HoldsSafe(s: Store, past: seq<Op>, clock: int) {
    forall k :: Safe(past, k, clock) ==> Holds(s, past, k)
  }

  /** No step takes a safe context away; `last` is the time of the latest store. */
  lemma StoreHoldsSafe(s: Store, past: seq<Op>, op: Op, t: Store, clock: int, last: int)
    requires op.StoreOp? && Stores(s, op.key, op.ctx, op.at, t) && clock <= op.at && last < op.at
    requires HoldsSafe(s, past, clock) && Remembers(s, past) && Tidy(s, last)
    ensures HoldsSafe(t, past + [op], op.at)
  {
    var mid :| MakesRoom(s, op.key, op.at, mid) && t == Inserted(mid, op.key, op.ctx, op.at);
    forall k | Safe(past + [op], k, op.at) ensures Holds(t, past + [op], k) {
      LatestAfter(past, op, k);
      if k != op.key {
        var time := LatestStore(past, k).value.storedAt;
        StoresAfterStep(past, op, time);
        assert Safe(past, k, clock) && Holds(s, past, k);
        if Overflows(s, op.key, op.at) && k !in mid.entries {
          CrowdedOut(s, past, op.key, op.at, mid.entries, k);
        }
      }
    }
  }

  lemma DropHoldsSafe(s: Store, past: seq<Op>, op: Op, t: Store, clock: int)
    requires !op.StoreOp? && clock <= op.at && HoldsSafe(s, past, clock)
    requires match op
             case SweepOp(now, at) => now <= at && t == AfterSweep(s, now)
             case LoadOp(key, at) => t == Loaded(s, key, at).0
    ensures HoldsSafe(t, past + [op], op.at)
  {
    forall k | Safe(past + [op], k, op.at) ensures Holds(t, past + [op], k) {
      LatestAfter(past, op, k);
      StoresAfterStep(past, op, LatestStore(past, k).value.storedAt);
      assert Safe(past, k, clock) && Holds(s, past, k);
    }
  }

  lemma {:induction false} RunHoldsSafe(s: Store, past: seq<Op>, ops: seq<Op>, replies: Replies, t: Store, clock: int,
                                        last: int)
    requires Runs(s, ops, replies, t) && WellTimed(ops, clock, last)
    requires HoldsSafe(s, past, clock) && Remembers(s, past) && Tidy(s, last) && last <= clock
    ensures HoldsSafe(t, past + ops, ClockAfter(ops, clock))
    decreases |ops|
  {
    if ops == [] {
      assert past + ops == past;
    } else {
      assert past + ops == (past + [ops[0]]) + ops[1..];
      ClockOfTail(ops, clock);
      match ops[0]
      case SweepOp(now, at) =>
        var next := AfterSweep(s, now);
        DropHoldsSafe(s, past, ops[0], next, clock);
        DropRemembers(s, past, ops[0], next);
        SweepTidy(s, now, last);
        RunHoldsSafe(next, past + [ops[0]], ops[1..], replies, t, at, last);
      case LoadOp(key, at) =>
        var next := Loaded(s, key, at).0;
        DropHoldsSafe(s, past, ops[0], next, clock);
        DropRemembers(s, past, ops[0], next);
        LoadTidy(s, key, at, last);
        RunHoldsSafe(next, past + [ops[0]], ops[1..], replies[1..], t, at, last);
      case StoreOp(key, ctx, at) =>
        var next :| Stores(s, key, ctx, at, next) && Runs(next, ops[1..], replies, t);
        StoreHoldsSafe(s, past, ops[0], next, clock, last);
        StoreRemembers(s, past, ops[0], next);
        StoreTidy(s, key, ctx, at, next, last);
        RunHoldsSafe(next, past + [ops[0]], ops[1..], replies, t, at, at);
    }
  }

  /** Overflows or not, a load is served exactly when its key was stored within the
      TTL and not loaded since, unless more than 99 000 stores came after its own. */
  lemma ServedUnlessCrowdedOut(ops: seq<Op>, replies: Replies, s: Store, key: string, now: int, clock: int, last: int)
    requires Runs(EMPTY, ops, replies, s) && WellTimed(ops, clock, last) && last <= clock
             && ClockAfter(ops, clock) <= now
    requires var latest := LatestStore(ops, key);
             latest.Some? ==> StoresAfter(ops, latest.value.storedAt) <= 99_000
    ensures var reply, latest := Loaded(s, key, now).1, LatestStore(ops, key);
            reply == if latest.Some? && now - latest.value.storedAt <= 60 * SECOND then Some(latest.value.ctx) else None
  {
    ServedIsLatestAndFresh(ops, replies, s, key, now);
    RunHoldsSafe(EMPTY, [], ops, replies, s, clock, last);
    assert [] + ops == ops;
    if LatestStore(ops, key).Some? && !Expired(LatestStore(ops, key).value, now) {
      assert Safe(ops, key, ClockAfter(ops, clock));
    }
  }

  // ------------------------------------------------------------ the bound is tight

  /** A different key for every number. */
  function Key(j: nat): string {
    seq(j, _ => 'k')
  }

  /** n stores of different keys, one a nanosecond. */
  function Fill(ctx: RequestContext, n: nat): seq<Op> {
    if n == 0 then [] else Fill(ctx, n - 1) + [StoreOp(Key(n - 1), ctx, n)]
  }

  function Filled(ctx: RequestContext, n: nat): Store {
    if n == 0 then EMPTY else Inserted(Filled(ctx, n - 1), Key(n - 1), ctx, n)
  }

  lemma {:induction false} FilledHolds(ctx: RequestContext, n: nat)
    ensures var m := Filled(ctx, n).entries;
            && |m| == n
            && (forall k :: k in m <==> |k| < n && k == Key(|k|))
            && (forall k :: k in m ==> m[k] == Entry(ctx, |k| + 1))
  {
    if n > 0 {
      FilledHolds(ctx, n - 1);
      InsertedSize(Filled(ctx, n - 1), Key(n - 1), ctx, n);
    }
  }

  lemma {:induction false} RunsOneMore(s: Store, ops: seq<Op>, replies: Replies, t: Store, op: Op, u: Store)
    requires Runs(s, ops, replies, t) && op.StoreOp? && Stores(t, op.key, op.ctx, op.at, u)
    ensures Runs(s, ops + [op], replies, u)
    decreases |ops|
  {
    if ops == [] {
      assert ([] + [op])[1..] == [];
      assert Runs(u, [], [], u);
    } else {
      assert (ops + [op])[1..] == ops[1..] + [op];
      match ops[0]
      case SweepOp(now, at) => RunsOneMore(AfterSweep(s, now), ops[1..], replies, t, op, u);
      case LoadOp(key, at) => RunsOneMore(Loaded(s, key, at).0, ops[1..], replies[1..], t, op, u);
      case StoreOp(key, ctx, at) =>
        var next :| Stores(s, key, ctx, at, next) && Runs(next, ops[1..], replies, t);
        RunsOneMore(next, ops[1..], replies, t, op, u);
    }
  }

  lemma {:induction false} FillRuns(ctx: RequestContext, n: nat)
    requires n <= MAX_REQUEST_CONTEXTS
    ensures Runs(EMPTY, Fill(ctx, n), [], Filled(ctx, n))
  {
    if n > 0 {
      FillRuns(ctx, n - 1);
      FilledHolds(ctx, n - 1);
      var s := Filled(ctx, n - 1);
      assert MakesRoom(s, Key(n - 1), n, s);
      RunsOneMore(EMPTY, Fill(ctx, n - 1), [], s, StoreOp(Key(n - 1), ctx, n), Filled(ctx, n));
    }
  }

  lemma {:induction false} WellTimedOneMore(ops: seq<Op>, op: Op, clock: int, last: int)
    requires WellTimed(ops, clock, last) && op.StoreOp? && op.at > last && op.at >= clock
    requires forall i :: 0 <= i < |ops| ==> ops[i].at < op.at
    ensures WellTimed(ops + [op], clock, last)
    decreases |ops|
  {
    if ops == [] {
      assert ([] + [op])[1..] == [];
    } else {
      assert (ops + [op])[1..] == ops[1..] + [op];
      WellTimedOneMore(ops[1..], op, ops[0].at, if ops[0].StoreOp? then ops[0].at else last);
    }
  }

  lemma {:induction false} FillIsWellTimed(ctx: RequestContext, n: nat)
    ensures WellTimed(Fill(ctx, n), 0, 0) && ClockAfter(Fill(ctx, n), 0) == n
    ensures forall i :: 0 <= i < |Fill(ctx, n)| ==> Fill(ctx, n)[i].at <= n
  {
    if n > 0 {
      FillIsWellTimed(ctx, n - 1);
      WellTimedOneMore(Fill(ctx, n - 1), StoreOp(Key(n - 1), ctx, n), 0, 0);
    }
  }

  lemma {:induction false} FillLength(ctx: RequestContext, n: nat)
    ensures |Fill(ctx, n)| == n
  {
    if n > 0 {
      FillLength(ctx, n - 1);
    }
  }

  lemma FillStep(ctx: RequestContext, n: nat)
    requires n > 0
    ensures |Fill(ctx, n)| == n && Fill(ctx, n)[..n - 1] == Fill(ctx, n - 1)
    ensures Fill(ctx, n)[n - 1] == StoreOp(Key(n - 1), ctx, n)
  {
    FillLength(ctx, n - 1);
  }

  lemma {:induction false} FillLatest(ctx: RequestContext, n: nat, j: nat)
    requires j < n
    ensures LatestStore(Fill(ctx, n), Key(j)) == Some(Entry(ctx, j + 1))
  {
    FillStep(ctx, n);
    if j < n - 1 {
      FillLatest(ctx, n - 1, j);
      assert |Key(j)| != |Key(n - 1)|;
    }
  }

  lemma {:induction false} FillLater(ctx: RequestContext, n: nat, time: nat)
    ensures StoresAfter(Fill(ctx, n), time) == if time < n then n - time else 0
  {
    if n > 0 {
      FillStep(ctx, n);
      FillLater(ctx, n - 1, time);
    }
  }

  /** The first keys are the oldest. */
  lemma FirstKeysAreOldest(ctx: RequestContext, n: nat, batch: nat)
    requires batch <= n
    ensures OldestGone(Filled(ctx, n).entries, batch, Filled(ctx, n).entries - Filled(ctx, batch).entries.Keys)
  {
    FilledHolds(ctx, n);
    FilledHolds(ctx, batch);
    var m, first := Filled(ctx, n).entries, Filled(ctx, batch).entries.Keys;
    assert first <= m.Keys && |first| == |Filled(ctx, batch).entries|;
    DropSize(m, first);
  }

  lemma OneMoreOverflows(ctx: RequestContext, n: nat)
    requires n == MAX_REQUEST_CONTEXTS
    ensures Overflows(Filled(ctx, n), Key(n), n + 1)
  {
    FilledHolds(ctx, n);
    assert |Key(n)| == n;
    assert Live(Filled(ctx, n).entries, n + 1) == Filled(ctx, n).entries;
  }

  lemma KeptAreLater(ctx: RequestContext, n: nat, batch: nat)
    ensures forall k :: k in Filled(ctx, n).entries - Filled(ctx, batch).entries.Keys ==> |k| >= batch
  {
    FilledHolds(ctx, n);
    FilledHolds(ctx, batch);
  }

  /** A store of one more key into a full, live store evicts them. */
  lemma FirstKeysGo(ctx: RequestContext, n: nat, batch: nat) returns (t: Store)
    requires n == MAX_REQUEST_CONTEXTS && batch == EVICTION_BATCH
    ensures Stores(Filled(ctx, n), Key(n), ctx, n + 1, t)
    ensures forall k :: k in t.entries ==> |k| >= batch
  {
    var s := Filled(ctx, n);
    OneMoreOverflows(ctx, n);
    FirstKeysAreOldest(ctx, n, batch);
    KeptAreLater(ctx, n, batch);
    var kept := s.entries - Filled(ctx, batch).entries.Keys;
    var mid := s.(entries := kept, evicted := s.evicted + batch, overflows := s.overflows + 1);
    assert MakesRoom(s, Key(n), n + 1, mid);
    t := Inserted(mid, Key(n), ctx, n + 1);
  }

  /** The run ends with a live context lost after this many later stores. */
  ghost predicate LosesLive(ops: seq<Op>, s: Store, key: string, later: int) {
    var latest, now := LatestStore(ops, key), ClockAfter(ops, 0);
    && Runs(EMPTY, ops, [], s) && WellTimed(ops, 0, 0)
    && latest.Some? && now - latest.value.storedAt <= 60 * SECOND && StoresAfter(ops, latest.value.storedAt) == later
    && Loaded(s, key, now).1.None?
  }

  /** One store more than ServedUnlessCrowdedOut allows is enough to lose a context
      long before its TTL. */
  lemma CrowdingIsTight(ctx: RequestContext)
    ensures exists ops, s, key, later ::
              LosesLive(ops, s, key, later) && later == 99_001
  {
    var n, batch: nat := MAX_REQUEST_CONTEXTS, EVICTION_BATCH;
    var s := OverfilledLoses(ctx, n, batch);
  }

  lemma OverfilledLoses(ctx: RequestContext, n: nat, batch: nat) returns (s: Store)
    requires n == MAX_REQUEST_CONTEXTS && batch == EVICTION_BATCH
    ensures LosesLive(Fill(ctx, n + 1), s, Key(batch - 1), n - batch + 1)
  {
    FillRuns(ctx, n);
    s := FirstKeysGo(ctx, n, batch);
    RunsOneMore(EMPTY, Fill(ctx, n), [], Filled(ctx, n), StoreOp(Key(n), ctx, n + 1), s);
    FillIsWellTimed(ctx, n + 1);
    FillLatest(ctx, n + 1, batch - 1);
    FillLater(ctx, n + 1, batch);
    assert |Key(batch - 1)| < batch;
  }
}
