/** What every interleaving of callers, worker and Shutdown guarantees about the
    audit record, the registry of emitters, and the records a decision produces. */
module AuditTheorems {
  import opened Wrappers
  import opened Outcomes
  import opened Sanitizing
  import opened AuditEmitter
  import OwnerGate
  import GateTheorems
  import ReductionTheorems
  import opened AuditRecord

  // ---------------------------------------------------------------- every run

  lemma {:induction false} RunInv(s: State, run: seq<Action>)
    requires Inv(s) && After(s, run).Some?
    ensures Inv(After(s, run).value)
    decreases |run|
  {
    if run != [] {
      StepInv(s, run[0]);
      RunInv(Next(s, run[0]), run[1..]);
    }
  }

  /** In every interleaving: FIFO order, no loss but the counted drops, a bounded
      queue, and batches of at most BATCH_SIZE until the last one. */
  lemma EveryRunConserves(run: seq<Action>)
    requires After(INITIAL, run).Some?
    ensures var s := After(INITIAL, run).value;
            && s.accepted == Flat(s.handed) + s.batch + s.queue
            && s.emits == |s.accepted| + s.dropped
            && |s.queue| <= 2048
            && (!s.phase.Past() ==> forall b :: b in s.handed ==> 0 < |b| <= 64)
  {
    RunInv(INITIAL, run);
  }

  /** An event is accepted, at the back of the queue, if and only if fewer than 2048
      are waiting there; otherwise it is counted as dropped and nothing else changes. */
  lemma AcceptedIff(s: State, ev: Event)
    ensures var t, clean := Next(s, Emit(ev)), ev.(reason := Sanitize(ev.reason));
            && t.emits == s.emits + 1 && t.batch == s.batch && t.handed == s.handed && t.phase == s.phase
            && if |s.queue| < 2048
               then t.accepted == s.accepted + [clean] && t.queue == s.queue + [clean] && t.dropped == s.dropped
               else t.accepted == s.accepted && t.queue == s.queue && t.dropped == s.dropped + 1
  {
  }

  /** When the ticker fires nothing is left waiting in the batch: whatever the worker
      has received is handed over. */
  lemma TickHandsOver(s: State)
    requires Inv(s) && s.phase.Running?
    ensures var t := Next(s, Tick);
            t.batch == [] && t.queue == s.queue && t.accepted == Flat(t.handed) + t.queue
  {
    FlushFifo(s);
    var t := Next(s, Tick);
    assert Flat(t.handed) + [] + t.queue == Flat(t.handed) + t.queue;
  }

  /** Receiving takes one event off the queue, and the sixty-fourth of a batch sends it. */
  lemma TakeFillsBatch(s: State)
    requires Inv(s) && s.phase.Running? && s.queue != []
    ensures var t := Next(s, Take);
            && t.queue == s.queue[1..] && t.accepted == s.accepted
            && if |s.batch| + 1 < 64 then t.batch == s.batch + [s.queue[0]] && t.handed == s.handed
               else t.batch == [] && t.handed == s.handed + [s.batch + [s.queue[0]]]
  {
  }

  /** Before its last export the worker once found the queue empty: there the run
      splits, and everything accepted up to there is what is handed over. */
  lemma {:induction false} DrainPoint(s: State, run: seq<Action>) returns (k: nat, t: State)
    requires Inv(s) && !s.phase.Past() && After(s, run).Some? && After(s, run).value.phase.Past()
    ensures k < |run| && run[k] == DrainEmpty
    ensures Inv(t) && t.phase.Flushing? && t.queue == [] && t.emptiedAt == Some(|t.accepted|)
    ensures After(s, run[..k + 1]) == Some(t) && After(t, run[k + 1..]) == After(s, run)
    decreases |run|
  {
    var next := Next(s, run[0]);
    StepInv(s, run[0]);
    if run[0] == DrainEmpty {
      k, t := 0, next;
      AfterFirst(s, run, 0);
    } else {
      StepStaysBefore(s, run[0]);
      k, t := DrainPoint(next, run[1..]);
      AfterFirst(s, run, k + 1);
      assert run[1..][k + 1..] == run[k + 2..];
      k := k + 1;
    }
  }

  lemma AfterFirst(s: State, run: seq<Action>, k: nat)
    requires k < |run| && Enabled(s, run[0])
    ensures After(s, run[..k + 1]) == After(Next(s, run[0]), run[1..][..k])
  {
    assert run[..k + 1][1..] == run[1..][..k];
  }

  /** Only finding the queue empty ends the drain. */
  lemma StepStaysBefore(s: State, a: Action)
    requires Enabled(s, a) && !s.phase.Past() && a != DrainEmpty
    ensures !Next(s, a).phase.Past()
  {
  }

  /** From then on nothing is handed over any more. */
  lemma {:induction false} PastIsFinal(s: State, run: seq<Action>)
    requires s.phase.Past() && After(s, run).Some?
    ensures var t := After(s, run).value;
            t.phase.Past() && t.handed == s.handed && t.batch == s.batch && t.emptiedAt == s.emptiedAt
    decreases |run|
  {
    if run != [] {
      PastIsFinal(Next(s, run[0]), run[1..]);
    }
  }

  lemma {:induction false} AcceptedGrows(s: State, run: seq<Action>)
    requires After(s, run).Some?
    ensures |s.accepted| <= |After(s, run).value.accepted|
    decreases |run|
  {
    if run != [] {
      AcceptedGrows(Next(s, run[0]), run[1..]);
    }
  }

  predicate HasEmit(run: seq<Action>) {
    exists i :: 0 <= i < |run| && run[i].Emit?
  }

  /** After that point a first Emit finds room, so events are accepted if and only if
      somebody emits. */
  lemma {:induction false} AcceptedAfterDrain(s: State, run: seq<Action>)
    requires s.phase.Past() && s.queue == [] && After(s, run).Some?
    ensures |After(s, run).value.accepted| > |s.accepted| <==> HasEmit(run)
    decreases |run|
  {
    if run != [] {
      var t := Next(s, run[0]);
      if run[0].Emit? {
        assert HasEmit(run);
        AcceptedGrows(t, run[1..]);
      } else {
        AcceptedAfterDrain(t, run[1..]);
        assert HasEmit(run) ==> HasEmit(run[1..]) by {
          if i :| 0 <= i < |run| && run[i].Emit? {
            assert run[1..][i - 1] == run[i];
          }
        }
        assert HasEmit(run[1..]) ==> HasEmit(run) by {
          if i :| 0 <= i < |run[1..]| && run[1..][i].Emit? {
            assert run[i + 1] == run[1..][i];
          }
        }
      }
    }
  }

  /** When the drain has ended, everything accepted before it last found the queue
      empty, and so everything accepted before Shutdown was called, has been handed
      over exactly once and in order; what was accepted since stays in the queue. */
  lemma ShutdownFlushes(run: seq<Action>)
    requires After(INITIAL, run).Some? && After(INITIAL, run).value.phase.Past()
    ensures var s := After(INITIAL, run).value;
            s.emptiedAt.Some? && s.closedAt.Some?
    ensures var s := After(INITIAL, run).value;
            var n := s.emptiedAt.value;
            && s.closedAt.value <= n <= |s.accepted|
            && Flat(s.handed) == s.accepted[..n] && s.queue == s.accepted[n..]
  {
    RunInv(INITIAL, run);
    var s := After(INITIAL, run).value;
    var n := s.emptiedAt.value;
    assert s.accepted == s.accepted[..n] + s.accepted[n..];
    assert Flat(s.handed) + s.batch == Flat(s.handed);
    assert s.accepted == s.accepted[..n] + s.queue;
    assert s.accepted[n..] == s.queue;
  }

  /** Nothing is lost if and only if nobody emits after the drain has last found the
      queue empty. The worker's return is too late: it still has an export to wait
      for, and an event emitted meanwhile is accepted but never handed over. */
  lemma NothingLostIff(run: seq<Action>) returns (k: nat)
    requires After(INITIAL, run).Some? && After(INITIAL, run).value.phase.Past()
    ensures k < |run| && run[k] == DrainEmpty
    ensures var s := After(INITIAL, run).value;
            Flat(s.handed) == s.accepted <==> !HasEmit(run[k + 1..])
  {
    var t;
    k, t := DrainPoint(INITIAL, run);
    var s := After(INITIAL, run).value;
    PastIsFinal(t, run[k + 1..]);
    AcceptedAfterDrain(t, run[k + 1..]);
    AcceptedGrows(t, run[k + 1..]);
    ShutdownFlushes(run);
    assert s.accepted[..|s.accepted|] == s.accepted;
  }

  /** An event emitted during the last export is lost although it was accepted before
      the worker returned. */
  lemma LateEventIsLost(first: Event, late: Event)
    ensures var s := After(INITIAL, [Emit(first), Close, Notice, DrainTake, DrainEmpty, Emit(late), Return]);
            && s.Some? && s.value.phase.Stopped?
            && s.value.accepted == [Sanitized(first), Sanitized(late)]
            && s.value.handed == [[Sanitized(first)]] && s.value.queue == [Sanitized(late)]
  {
    var s1 := Next(INITIAL, Emit(first));
    var s2 := Next(Next(s1, Close), Notice);
    var s3 := Next(Next(s2, DrainTake), DrainEmpty);
    var s4 := Next(Next(s3, Emit(late)), Return);
    assert s1.queue == [Sanitized(first)] && s1.accepted == [Sanitized(first)];
    assert s3.queue == [] && s3.handed == [[Sanitized(first)]];
    assert After(s3, [Emit(late), Return]) == Some(s4) by {
      assert [Emit(late), Return][1..] == [Return] && [Return][1..] == [];
      assert After(s4, []) == Some(s4);
    }
    assert After(s2, [DrainTake, DrainEmpty, Emit(late), Return]) == Some(s4) by {
      assert [DrainTake, DrainEmpty, Emit(late), Return][1..] == [DrainEmpty, Emit(late), Return];
      assert [DrainEmpty, Emit(late), Return][1..] == [Emit(late), Return];
    }
    var tail := [Close, Notice, DrainTake, DrainEmpty, Emit(late), Return];
    assert After(s1, tail) == Some(s4) by {
      assert tail[1..] == [Notice, DrainTake, DrainEmpty, Emit(late), Return];
      assert tail[1..][1..] == [DrainTake, DrainEmpty, Emit(late), Return];
    }
    assert [Emit(first), Close, Notice, DrainTake, DrainEmpty, Emit(late), Return][1..] == tail;
  }

  /** Steps the worker still needs once `done` is closed. */
  function StepsLeft(s: State): nat {
    match s.phase
    case Running => |s.queue| + 3
    case Draining => |s.queue| + 2
    case Flushing => 1
    case Stopped => 0
  }

  /** Once `done` is closed the worker alone can finish, in one step an event and at
      most three more, and hands over everything accepted so far. */
  lemma {:induction false} ShutdownCanFinish(s: State) returns (run: seq<Action>)
    requires Inv(s) && s.closing
    ensures |run| == StepsLeft(s)
    ensures forall a :: a in run ==> a == Notice || a == DrainTake || a == DrainEmpty || a == Return
    ensures After(s, run).Some? && After(s, run).value.phase.Stopped?
    ensures !s.phase.Past() ==> Flat(After(s, run).value.handed) == s.accepted
    decreases StepsLeft(s)
  {
    if s.phase.Stopped? {
      run := [];
    } else {
      var a := WorkerStep(s);
      StepInv(s, a);
      WorkerAdvances(s);
      var rest := ShutdownCanFinish(Next(s, a));
      run := [a] + rest;
      assert run[1..] == rest;
      if a == DrainEmpty {
        LastExportIsComplete(s);
        PastIsFinal(Next(s, a), rest);
      }
    }
  }

  /** What the worker does next once `done` is closed. */
  function WorkerStep(s: State): Action {
    if s.phase.Running? then Notice
    else if s.phase.Flushing? then Return
    else if s.queue != [] then DrainTake
    else DrainEmpty
  }

  lemma WorkerAdvances(s: State)
    requires s.closing && !s.phase.Stopped?
    ensures var a := WorkerStep(s);
            && Enabled(s, a) && StepsLeft(Next(s, a)) == StepsLeft(s) - 1
            && Next(s, a).closing && Next(s, a).accepted == s.accepted
            && (Next(s, a).phase.Past() ==> s.phase.Past() || a == DrainEmpty)
  {
  }

  lemma LastExportIsComplete(s: State)
    requires Inv(s) && Enabled(s, DrainEmpty)
    ensures Flat(Next(s, DrainEmpty).handed) == s.accepted
  {
    FlushFifo(s);
    WholePrefix(Flushed(s));
    assert s.accepted[..|s.accepted|] == s.accepted;
  }

  predicate CameFrom(e: Event, run: seq<Action>) {
    exists i :: 0 <= i < |run| && run[i].Emit? && e == run[i].ev.(reason := Sanitize(run[i].ev.reason))
  }

  /** Nothing is invented and no reason leaves unsanitised. */
  lemma {:induction false} AcceptedWasEmitted(s: State, run: seq<Action>, e: Event)
    requires After(s, run).Some? && e in After(s, run).value.accepted
    ensures e in s.accepted || CameFrom(e, run)
    decreases |run|
  {
    if run != [] {
      AcceptedWasEmitted(Next(s, run[0]), run[1..], e);
      if CameFrom(e, run[1..]) {
        var i :| 0 <= i < |run[1..]| && run[1..][i].Emit? && e == Sanitized(run[1..][i].ev);
        assert run[i + 1] == run[1..][i];
      }
    }
  }

  lemma {:induction false} InFlat(batches: seq<seq<Event>>, e: Event)
    requires e in Flat(batches)
    ensures exists b :: b in batches && e in b
  {
    var n := |batches| - 1;
    if e in batches[n] {
      assert batches[n] in batches;
    } else {
      InFlat(batches[..n], e);
      var b :| b in batches[..n] && e in b;
      assert b in batches;
    }
  }

  /** Every handed-over event is some caller's event with a short, printable
      reason, provided the callers' reasons are ASCII. */
  lemma HandedReasonsAreClean(run: seq<Action>, e: Event)
    requires After(INITIAL, run).Some? && e in Flat(After(INITIAL, run).value.handed)
    requires forall a :: a in run && a.Emit? ==> Ascii(a.ev.reason)
    ensures CameFrom(e, run) && |e.reason| <= 200 && Neat(e.reason)
  {
    RunInv(INITIAL, run);
    AcceptedWasEmitted(INITIAL, run, e);
    CleanWhenAscii(run, e);
  }

  lemma CleanWhenAscii(run: seq<Action>, e: Event)
    requires CameFrom(e, run) && forall a :: a in run && a.Emit? ==> Ascii(a.ev.reason)
    ensures |e.reason| <= 200 && Neat(e.reason)
  {
    var i :| 0 <= i < |run| && run[i].Emit? && e == run[i].ev.(reason := Sanitize(run[i].ev.reason));
    assert run[i] in run;
    SanitizeIsStable(run[i].ev.reason);
  }

  // ------------------------------------------------------ the records of a decision

  /** An outcome that reached no owner leaves one event with its own fields; otherwise
      each consulted owner leaves one, in order, with the owner's fields. All of them
      carry the outcome's correlation id and verb and the time of recording. */
  lemma EventsTell(o: Outcome, now: int)
    ensures var events := EventsFor(o, now);
            && |events| == (if o.checked == [] then 1 else |o.checked|)
            && (forall k :: 0 <= k < |events| ==>
                  events[k].time == now && events[k].requestId == o.requestId && events[k].verb == o.verb)
            && (o.checked == [] ==>
                  && events[0].subject == o.subject && events[0].resource == o.resource
                  && events[0].decision == o.decision && events[0].reason == o.reason)
            && forall k :: 0 <= k < |o.checked| ==>
                 && events[k].subject == o.checked[k].subject && events[k].resource == o.checked[k].resource
                 && events[k].decision == o.checked[k].decision && events[k].reason == o.checked[k].reason
  {
  }

  /** Recorded one after the other, they are accepted in order as long as there is
      room. */
  lemma {:induction false} RecordedInOrder(s: State, events: seq<Event>)
    requires |s.queue| + |events| <= 2048
    ensures var t := EmitAll(s, events);
            && t.dropped == s.dropped && |t.accepted| == |s.accepted| + |events| && |t.queue| == |s.queue| + |events|
            && t.accepted[..|s.accepted|] == s.accepted
            && forall k :: 0 <= k < |events| ==>
                 t.accepted[|s.accepted| + k] == events[k].(reason := Sanitize(events[k].reason))
  {
    if events != [] {
      RecordedInOrder(s, events[..|events| - 1]);
    } else {
      assert s.accepted[..|s.accepted|] == s.accepted;
    }
  }

  /** Whatever the schedule and the verdict, the audit log receives each owner that
      gave a definite answer together with that answer, and nothing says deny while
      an allow is enforced. */
  lemma AuditTellsWhoAnswered(cfg: Config, job: OwnerGate.Job, run: seq<OwnerGate.Action>, now: int, i: nat)
    requires job.Valid() && OwnerGate.Completes(job, run)
    requires forall c :: c in job.claims ==> c.owner != ""
    requires i < |job.claims| && ReductionTheorems.Definite(job, GateTheorems.End(job, run), i)
    ensures var v := GateTheorems.Verdict(cfg, job, run);
            && (exists k :: 0 <= k < |EventsFor(v, now)|
                            && EventsFor(v, now)[k].subject == job.claims[i].owner
                            && GateTheorems.NamesResource(EventsFor(v, now)[k].resource, job, i)
                            && EventsFor(v, now)[k].reason == job.answers[i].reason
                            && (EventsFor(v, now)[k].decision == Deny <==> job.answers[i].Refused?))
            && (v.decision == Allow ==> forall k :: 0 <= k < |EventsFor(v, now)| ==>
               EventsFor(v, now)[k].decision == Allow)
  {
    var v := GateTheorems.Verdict(cfg, job, run);
    var idx := ReductionTheorems.CheckedIsDefiniteAnswers(cfg, job, run);
    var k :| 0 <= k < |idx| && idx[k] == i;
    assert v.checked[k] == ReductionTheorems.RecordFor(job, i);
    assert EventsFor(v, now)[k].subject == job.claims[i].owner;
    if v.decision == Allow {
      ReductionTheorems.NoContradictoryAudit(cfg, job, run);
    }
  }
}
