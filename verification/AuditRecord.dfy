/** recordAudit: the events a decision leaves in the audit trail. */
module AuditRecord {
  import opened Outcomes
  import opened AuditEmitter
  import opened AuditRegistry
  import opened EmitterKeys

  /** One event for each owner that was consulted, or the outcome itself when none
      was reached. */
  function EventsFor(o: Outcome, now: int): seq<Event> {
    if o.checked == [] then [Event(now, o.requestId, o.subject, o.resource, o.verb, o.decision, o.reason)]
    else seq(|o.checked|, i requires 0 <= i < |o.checked| =>
             var c := o.checked[i]; Event(now, o.requestId, c.subject, c.resource, o.verb, c.decision, c.reason))
  }

  function EmitAll(s: State, events: seq<Event>): State {
    if events == [] then s else Next(EmitAll(s, events[..|events| - 1]), Emit(events[|events| - 1]))
  }

  /** The events go to the emitter of this configuration, and to no other. */
  method RecordAudit(enabled: bool, c: EmitterConfig, o: Outcome, now: int, registry: Registry)
    requires registry.Valid()
    modifies registry, registry.emitters.Values
    ensures registry.Valid()
    ensures !enabled ==> unchanged(registry) && unchanged(registry.emitters.Values)
    ensures enabled ==>
              var key := KeyOf(registry.render, c);
              var before := if key in old(registry.emitters) then old(registry.emitters[key].View()) else INITIAL;
              && registry.emitters.Keys == old(registry.emitters.Keys) + {key}
              && registry.emitters[key].View() == EmitAll(before, EventsFor(o, now))
              && forall k :: k in old(registry.emitters) && k != key ==>
                               registry.emitters[k] == old(registry.emitters)[k] && unchanged(registry.emitters[k])
  {
    if !enabled {
      return;
    }
    var emitter := registry.Get(c);
    EmitEvents(emitter, o, now);
  }

  method EmitEvents(emitter: Emitter, o: Outcome, now: int)
    modifies emitter
    ensures emitter.View() == EmitAll(old(emitter.View()), EventsFor(o, now))
  {
    var events := EventsFor(o, now);
    if |o.checked| == 0 {
      assert events[..0] == [];
      emitter.EmitEvent(Event(now, o.requestId, o.subject, o.resource, o.verb, o.decision, o.reason));
      return;
    }
    for i := 0 to |o.checked|
      invariant emitter.View() == EmitAll(old(emitter.View()), events[..i])
    {
      var c := o.checked[i];
      assert events[..i + 1][..i] == events[..i];
      emitter.EmitEvent(Event(now, o.requestId, c.subject, c.resource, o.verb, c.decision, c.reason));
    }
    assert events[..|o.checked|] == events;
  }
}
