/** The package-wide emitters: one for each configuration, from its first use until
    everything is shut down. */
module AuditRegistry {
  import opened AuditEmitter
  import opened EmitterKeys

  class Registry {
    /** The text of a timeout. */
    const render: int -> string
    var emitters: map<string, Emitter>

    /** No two keys share an emitter. */
    ghost predicate Valid()
      reads this
    {
      forall j, k :: j in emitters && k in emitters && emitters[j] == emitters[k] ==> j == k
    }

    constructor (render: int -> string)
      ensures Valid() && emitters == map[] && this.render == render
    {
      this.render, emitters := render, map[];
    }

    /** Get: the emitter of this configuration, created on first use. */
    method Get(c: EmitterConfig) returns (e: Emitter)
      requires Valid()
      modifies this
      ensures Valid()
      ensures var key := KeyOf(render, c);
              if key in old(emitters)
              then e == old(emitters)[key] && emitters == old(emitters)
              else fresh(e) && e.View() == INITIAL && emitters == old(emitters)[key := e]
    {
      var key := Key(render, c);
      if key in emitters {
        return emitters[key];
      }
      e := new Emitter();
      emitters := emitters[key := e];
    }

    /** ShutdownAll: every emitter created so far is stopped, and one that was still
        running has handed over everything it had accepted. */
    method ShutdownAll()
      requires forall e :: e in emitters.Values ==> Inv(e.View())
      modifies this, emitters.Values
      ensures emitters == map[]
      ensures forall e :: e in old(emitters.Values) ==> ShutDown(old(e.View()), e.View())
    {
      var pending := emitters.Values;
      emitters := map[];
      ghost var all := pending;
      while pending != {}
        invariant pending <= all
        invariant emitters == map[]
        invariant forall e :: e in pending ==> unchanged(e)
        invariant forall e :: e in all && e !in pending ==> ShutDown(old(e.View()), e.View())
        modifies all
        decreases pending
      {
        var e :| e in pending;
        pending := pending - {e};
        assert e.View() == old(e.View());
        e.Shutdown();
      }
    }
  }
}
