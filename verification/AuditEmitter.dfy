/** The asynchronous audit emitter: a bounded queue that drops when full, a worker
    that batches, a ticker and a shutdown drain. */
module AuditEmitter {
  import opened Wrappers
  import opened Outcomes
  import opened Sanitizing

  const QUEUE_SIZE: nat := 2048
  const BATCH_SIZE: nat := 64

  datatype Event = Event(time: int, requestId: string, subject: string, resource: string, verb: string,
                         decision: Decision, reason: string)

  /** Where the worker loop is: selecting, draining after `done`, exporting the last
      batch after the drain found the queue empty, or returned. */
  datatype Phase = Running | Draining | Flushing | Stopped
  {
    /** The worker will receive no further event. */
    predicate Past() { Flushing? || Stopped? }
  }

  /** `handed` lists the batches given to the exporter, oldest first. An export is
      an HTTP call and callers may emit while it lasts; it counts as handed over when
      it begins. The last four fields are history: the accepted events, the number of
      Emit calls, and how many events had been accepted when Shutdown closed `done`
      and when the drain found the queue empty. */
  datatype State = State(
    queue: seq<Event>, batch: seq<Event>, dropped: nat, closing: bool, phase: Phase, handed: seq<seq<Event>>,
    accepted: seq<Event>, emits: nat, closedAt: Option<nat>, emptiedAt: Option<nat>)

  const INITIAL := State([], [], 0, false, Running, [], [], 0, None, None)

  /** One step of some goroutine. */
  datatype Action =
    | Emit(ev: Event)    // a caller
    | Close              // Shutdown closes `done`, once
    | Take               // the worker receives an event
    | Tick               // the worker's ticker fires
    | Notice             // the worker sees `done`
    | DrainTake          // the drain loop receives an event
    | DrainEmpty         // the drain loop finds the queue empty and begins the last export
    | Return             // the last export is over and the worker returns

  function Sanitized(ev: Event): Event {
    ev.(reason := Sanitize(ev.reason))
  }

  function Flushed(s: State): State {
    if s.batch == [] then s else s.(handed := s.handed + [s.batch], batch := [])
  }

  predicate Enabled(s: State, a: Action) {
    match a
    case Emit(_) => true
    case Close => true
    case Take => s.phase.Running? && s.queue != []
    case Tick => s.phase.Running?
    case Notice => s.phase.Running? && s.closing
    case DrainTake => s.phase.Draining? && s.queue != []
    case DrainEmpty => s.phase.Draining? && s.queue == []
    case Return => s.phase.Flushing?
  }

  function Next(s: State, a: Action): State
    requires Enabled(s, a)
  {
    match a
    case Emit(ev) =>
      var counted := s.(emits := s.emits + 1);
      if |s.queue| < QUEUE_SIZE
      then counted.(queue := s.queue + [Sanitized(ev)], accepted := s.accepted + [Sanitized(ev)])
      else counted.(dropped := s.dropped + 1)
    case Close => if s.closing then s else s.(closing := true, closedAt := Some(|s.accepted|))
    case Take =>
      var t := s.(queue := s.queue[1..], batch := s.batch + [s.queue[0]]);
      if |t.batch| >= BATCH_SIZE then Flushed(t) else t
    case Tick => Flushed(s)
    case Notice => s.(phase := Draining)
    case DrainTake => s.(queue := s.queue[1..], batch := s.batch + [s.queue[0]])
    case DrainEmpty => Flushed(s).(phase := Flushing, emptiedAt := Some(|s.accepted|))
    case Return => s.(phase := Stopped)
  }

  function After(s: State, run: seq<Action>): Option<State>
    decreases |run|
  {
    if run == [] then Some(s) else if Enabled(s, run[0]) then After(Next(s, run[0]), run[1..]) else None
  }

  function Flat(batches: seq<seq<Event>>): seq<Event> {
    if batches == [] then [] else Flat(batches[..|batches| - 1]) + batches[|batches| - 1]
  }

  // -------------------------------------------------------------- the invariant

  /** FIFO conservation: what was accepted is what was handed over, then the batch,
      then the queue, in that order; nothing else was lost but the counted drops. */
  predicate Fifo(s: State) {
    s.accepted == Flat(s.handed) + s.batch + s.queue && s.emits == |s.accepted| + s.dropped
  }

  /** The queue and, until the drain, every batch keep to their size. */
  predicate Bounded(s: State) {
    && |s.queue| <= QUEUE_SIZE
    && (s.phase.Running? ==> |s.batch| < BATCH_SIZE)
    && (forall i :: 0 <= i < |s.handed| ==> s.handed[i] != [])
    && (forall i :: 0 <= i < |s.handed| - (if s.phase.Past() then 1 else 0) ==> |s.handed[i]| <= BATCH_SIZE)
    && (!s.phase.Running? ==> s.closing)
  }

  /** `done` is closed before the drain, and what had been accepted when the drain
      found the queue empty is what was handed over. */
  predicate Ordered(s: State) {
    && (s.closing <==> s.closedAt.Some?)
    && (s.closing ==> s.closedAt.value <= |s.accepted|)
    && (s.phase.Past() <==> s.emptiedAt.Some?)
    && (s.phase.Past() ==>
          && s.closing && s.batch == []
          && s.closedAt.value <= s.emptiedAt.value <= |s.accepted|
          && Flat(s.handed) == s.accepted[..s.emptiedAt.value])
  }

  predicate Inv(s: State) {
    Fifo(s) && Bounded(s) && Ordered(s)
  }

  lemma FlatAppend(batches: seq<seq<Event>>, last: seq<Event>)
    ensures Flat(batches + [last]) == Flat(batches) + last
  {
    assert (batches + [last])[..|batches|] == batches;
  }

  lemma MoveHead(front: seq<Event>, queue: seq<Event>)
    requires queue != []
    ensures front + queue == front + [queue[0]] + queue[1..]
  {
    assert queue == [queue[0]] + queue[1..];
  }

  lemma FlushFifo(s: State)
    requires Fifo(s)
    ensures Fifo(Flushed(s)) && Flushed(s).batch == []
  {
    if s.batch != [] {
      FlatAppend(s.handed, s.batch);
      var all := Flat(s.handed) + s.batch;
      assert all + [] == all;
    }
  }

  lemma TakeFifo(s: State)
    requires Fifo(s) && s.queue != []
    ensures Fifo(s.(queue := s.queue[1..], batch := s.batch + [s.queue[0]]))
  {
    MoveHead(Flat(s.handed) + s.batch, s.queue);
    assert Flat(s.handed) + s.batch + [s.queue[0]] == Flat(s.handed) + (s.batch + [s.queue[0]]);
  }

  lemma EmitFifo(s: State, ev: Event)
    requires Fifo(s)
    ensures Fifo(Next(s, Emit(ev)))
  {
    var front := Flat(s.handed) + s.batch;
    assert front + s.queue + [Sanitized(ev)] == front + (s.queue + [Sanitized(ev)]);
  }

  lemma StepFifo(s: State, a: Action)
    requires Fifo(s) && Enabled(s, a)
    ensures Fifo(Next(s, a))
  {
    match a
    case Emit(ev) => EmitFifo(s, ev);
    case Take =>
      TakeFifo(s);
      FlushFifo(s.(queue := s.queue[1..], batch := s.batch + [s.queue[0]]));
    case Tick => FlushFifo(s);
    case DrainTake => TakeFifo(s);
    case DrainEmpty => FlushFifo(s);
    case _ =>
  }

  lemma StepBounded(s: State, a: Action)
    requires Bounded(s) && Enabled(s, a)
    ensures Bounded(Next(s, a))
  {
  }

  lemma WholePrefix(s: State)
    requires Fifo(s) && s.queue == [] && s.batch == []
    ensures Flat(s.handed) == s.accepted[..|s.accepted|]
  {
    assert s.accepted == Flat(s.handed) + [] + [];
    assert s.accepted[..|s.accepted|] == s.accepted;
  }

  lemma StepOrdered(s: State, a: Action)
    requires Inv(s) && Enabled(s, a)
    ensures Ordered(Next(s, a))
  {
    match a
    case Emit(ev) =>
      if s.phase.Past() {
        var n := s.emptiedAt.value;
        assert (s.accepted + [Sanitized(ev)])[..n] == s.accepted[..n];
      }
    case DrainEmpty =>
      FlushFifo(s);
      WholePrefix(Flushed(s));
    case _ =>
  }

  lemma StepInv(s: State, a: Action)
    requires Inv(s) && Enabled(s, a)
    ensures Inv(Next(s, a))
  {
    StepFifo(s, a);
    StepBounded(s, a);
    StepOrdered(s, a);
  }

  /** What a Shutdown without concurrent emits leaves: the worker has returned and,
      unless its drain was over before, everything accepted has been handed over in
      order. */
  predicate ShutDown(before: State, after: State) {
    && Inv(after) && after.phase.Stopped?
    && after.accepted == before.accepted && after.emits == before.emits && after.dropped == before.dropped
    && if before.phase.Past() then after == before.(phase := Stopped)
       else after.queue == [] && Flat(after.handed) == after.accepted
  }

  // ----------------------------------------------------------------- the emitter

  class Emitter {
    var queue: seq<Event>
    var batch: seq<Event>
    var dropped: nat
    var closing: bool
    var phase: Phase
    ghost var handed: seq<seq<Event>>
    ghost var accepted: seq<Event>
    ghost var emits: nat
    ghost var closedAt: Option<nat>
    ghost var emptiedAt: Option<nat>

    ghost function View(): State
      reads this
    {
      State(queue, batch, dropped, closing, phase, handed, accepted, emits, closedAt, emptiedAt)
    }

    constructor ()
      ensures View() == INITIAL
    {
      queue, batch, dropped, closing, phase := [], [], 0, false, Running;
      handed, accepted, emits, closedAt, emptiedAt := [], [], 0, None, None;
    }

    /** Emit never blocks: a full queue drops the event and counts it. */
    method EmitEvent(ev: Event)
      modifies this
      ensures View() == Next(old(View()), Emit(ev))
    {
      var clean := ev.(reason := Sanitize(ev.reason));
      emits := emits + 1;
      if |queue| < QUEUE_SIZE {
        queue := queue + [clean];
        accepted := accepted + [clean];
      } else {
        dropped := dropped + 1;
      }
    }

    method Flush()
      modifies this`batch, this`handed
      ensures View() == Flushed(old(View()))
    {
      if |batch| > 0 {
        handed := handed + [batch];
        batch := [];
      }
    }

    method TakeOne()
      requires Enabled(View(), Take)
      modifies this
      ensures View() == Next(old(View()), Take)
    {
      var ev := queue[0];
      queue := queue[1..];
      batch := batch + [ev];
      if |batch| >= BATCH_SIZE {
        Flush();
      }
    }

    /** One step of some goroutine, on the fields they share. */
    method Perform(a: Action)
      requires Enabled(View(), a)
      modifies this
      ensures View() == Next(old(View()), a)
    {
      match a {
        case Emit(ev) => EmitEvent(ev);
        case Close =>
          if !closing {
            closing, closedAt := true, Some(|accepted|);
          }
        case Take => TakeOne();
        case Tick => Flush();
        case Notice => phase := Draining;
        case DrainTake => queue, batch := queue[1..], batch + [queue[0]];
        case DrainEmpty =>
          Flush();
          phase, emptiedAt := Flushing, Some(|accepted|);
        case Return => phase := Stopped;
      }
    }

    /** Any interleaving of callers, worker and Shutdown, on the real fields. */
    method Interleave(run: seq<Action>)
      requires After(View(), run).Some?
      modifies this
      ensures After(old(View()), run) == Some(View())
    {
      for i := 0 to |run|
        invariant After(View(), run[i..]) == After(old(View()), run)
      {
        assert run[i..][0] == run[i] && run[i..][1..] == run[i + 1..];
        Perform(run[i]);
      }
    }

    /** The drain: receive until the queue is empty, flush, return. With no Emit in
        between, everything accepted so far leaves in one last batch. */
    method Drain()
      requires phase == Draining
      modifies this
      ensures View() == Flushed(old(View()).(queue := [], batch := old(batch) + old(queue)))
                        .(phase := Stopped, emptiedAt := Some(|old(accepted)|))
    {
      ghost var before := View();
      while |queue| > 0
        invariant View() == before.(queue := queue, batch := batch)
        invariant batch + queue == before.batch + before.queue
        decreases |queue|
      {
        var ev := queue[0];
        queue := queue[1..];
        batch := batch + [ev];
      }
      assert queue == [] && batch + queue == batch;
      Flush();
      phase, emptiedAt := Flushing, Some(|accepted|);
      phase := Stopped;
    }

    /** Shutdown with nobody emitting: close `done` and wait for the worker, which
        hands over everything accepted so far, once and in order. A second call
        changes nothing. */
    method Shutdown()
      requires Inv(View())
      modifies this
      ensures ShutDown(old(View()), View())
    {
      if !closing {
        closing := true;
        closedAt := Some(|accepted|);
      }
      if phase == Running {
        phase := Draining;
      }
      if phase == Draining {
        ghost var s := View();
        Drain();
        DrainedInv(s);
        assert accepted[..|accepted|] == accepted;
      } else {
        phase := Stopped;
      }
    }
  }

  lemma DrainedInv(s: State)
    requires Inv(s) && s.phase.Draining?
    ensures Inv(Flushed(s.(queue := [], batch := s.batch + s.queue))
                .(phase := Stopped, emptiedAt := Some(|s.accepted|)))
  {
    var all := s.(queue := [], batch := s.batch + s.queue);
    assert Fifo(all) by {
      var whole := Flat(s.handed) + (s.batch + s.queue);
      assert whole + [] == Flat(s.handed) + s.batch + s.queue;
    }
    StepInv(all, DrainEmpty);
    StepInv(Next(all, DrainEmpty), Return);
  }
}
