/** The provider: one worker for each transport identity, until it is closed. */
module SharedProviders {
  import opened Integers
  import opened SharedSenders
  import opened SharedSenderWorkers

  class SharedSenderProvider {
    var workers: map<string, SharedSenderWorker>
    var generation: nat
    /** Every worker that was ever started. */
    ghost var started: set<SharedSenderWorker>

    constructor ()
      ensures Valid() && workers == map[] && generation == 0 && started == {}
    {
      workers, generation, started := map[], 0, {};
    }

    /** A worker is registered, under one identity, exactly until it is told to
        stop. */
    ghost predicate Valid()
      reads this, started
    {
      && (forall id | id in workers :: workers[id] in started && !workers[id].done)
      && (forall w | w in started :: w.done || w in workers.Values)
      && (forall a, b | a in workers && b in workers && workers[a] == workers[b] :: a == b)
      && generation < U64_SIZE
    }

    /** The worker for an identity; nothing for a factory of an earlier
        generation. */
    method WorkerFor(generation: nat, identity: string, clock: Clock, idleTimeout: int, wait: int)
      returns (worker: SharedSenderWorker?)
      requires Valid() && clock.time > ZERO
      modifies `workers, `started
      ensures Valid() && (worker == null <==> generation != this.generation)
      ensures worker == null ==> workers == old(workers) && started == old(started)
      ensures worker != null ==> && workers == old(workers)[identity := worker] && !worker.done
                                 && started == old(started) + {worker}
                                 && (identity in old(workers) ==> workers == old(workers))
    {
      hide SharedSenderWorker.Valid, Initial;
      if generation != this.generation {
        return null;
      }
      if identity !in workers {
        worker := new SharedSenderWorker(clock, idleTimeout, wait);
        workers, started := workers[identity := worker], started + {worker};
        StillRegistered(old(workers), identity, worker);
      }
      return workers[identity];
    }

    /** Tells every worker to stop and outdates all factories. */
    method Close()
      requires Valid()
      modifies `workers, `generation, started
      ensures Valid() && workers == map[]
      ensures forall w | w in started :: w.done
      ensures generation != old(generation)
    {
      hide SharedSenderWorker.Valid;
      var rest := workers.Values;
      generation := (generation + 1) % U64_SIZE;
      workers := map[];
      while rest != {}
        invariant rest <= started && workers == map[] && generation == (old(generation) + 1) % U64_SIZE
        invariant forall w | w in started :: w.done || w in rest
        decreases rest
      {
        var worker :| worker in rest;
        rest := rest - {worker};
        worker.Shutdown();
      }
    }
  }

  lemma StillRegistered<V>(m: map<string, V>, id: string, v: V)
    requires id !in m
    ensures m.Values <= m[id := v].Values && v in m[id := v].Values
  {
    forall w | w in m.Values ensures w in m[id := v].Values {
      var k :| k in m && m[k] == w;
      assert m[id := v][k] == w;
    }
    assert m[id := v][id] == v;
  }
}
