/**
 The per-library lock around a sync run: `SET key 1 NX EX 3600` on entry, an unconditional
 delete on the way out of a run that took it.  Any number of workers interleave.
 */
module SyncLock {
  import opened Prelude

  type Time = int
  type Worker = nat

  const TTL: int := 3600

  /** The clock, the key's expiry, and when each worker inside the guarded section entered it. */
  datatype World = World(now: Time, lock: Option<Time>, inside: map<Worker, Time>)

  datatype Step = Passes(until: Time) | Calls(w: Worker) | Leaves(x: Worker)

  predicate Held(s: World) { s.lock.Some? && s.now < s.lock.value }

  function Next(s: World, step: Step): World {
    match step
    case Passes(t) => s.(now := t)
    case Calls(w) => if Held(s) then s else s.(lock := Some(s.now + TTL), inside := s.inside[w := s.now])
    case Leaves(w) => s.(lock := None, inside := s.inside - {w})
  }

  /** The key and the section, as the callers change them. */
  class Guard {
    var now: Time
    var lock: Option<Time>
    var inside: map<Worker, Time>

    ghost function State(): World
      reads this
    {
      World(now, lock, inside)
    }

    constructor (now: Time)
      ensures State() == World(now, None, map[])
    {
      this.now, lock, inside := now, None, map[];
    }

    /** `redis.set(key, "1", nx=True, ex=3600)`. */
    method SetIfAbsent(ex: int) returns (ok: bool)
      modifies this`lock
      ensures ok == !Held(old(State()))
      ensures lock == if ok then Some(now + ex) else old(lock)
    {
      if lock.Some? && now < lock.value {
        return false;
      }
      lock := Some(now + ex);
      return true;
    }

    /** The entry of `sync_external_library`: refused callers touch nothing. */
    method Enter(w: Worker) returns (acquired: bool)
      requires w !in inside
      modifies this`lock, this`inside
      ensures State() == Next(old(State()), Calls(w))
      ensures acquired <==> w in inside
    {
      acquired := SetIfAbsent(TTL);
      if acquired {
        inside := inside[w := now];
      }
    }

    /** The `finally` of a run, successful or failed: the key is deleted only if it was taken. */
    method Exit(w: Worker, acquired: bool)
      requires acquired <==> w in inside
      modifies this`lock, this`inside
      ensures State() == if acquired then Next(old(State()), Leaves(w)) else old(State())
    {
      if acquired {
        lock := None;
        inside := inside - {w};
      }
    }
  }

  ghost function After(t0: Time, run: seq<Step>): World {
    if run == [] then World(t0, None, map[]) else Next(After(t0, run[..|run| - 1]), run[|run| - 1])
  }

  /** Workers call from outside and leave from inside; the clock does not run backwards. */
  ghost predicate Possible(t0: Time, run: seq<Step>) {
    run != [] ==>
      var s, step := After(t0, run[..|run| - 1]), run[|run| - 1];
      && Possible(t0, run[..|run| - 1])
      && (step.Passes? ==> step.until >= s.now)
      && (step.Calls? ==> step.w !in s.inside)
      && (step.Leaves? ==> step.x in s.inside)
  }

  ghost predicate Overstays(s: World, w: Worker) {
    w in s.inside && s.now >= s.inside[w] + TTL
  }

  /** At every moment of the run nobody has been inside for the lock's whole lifetime. */
  ghost predicate NobodyOverstays(t0: Time, run: seq<Step>) {
    forall n, w :: 0 <= n <= |run| ==> !Overstays(After(t0, run[..n]), w)
  }

  ghost predicate AtMostOne(s: World) {
    forall v, w :: v in s.inside && w in s.inside ==> v == w
  }

  /** While a run is within the lifetime of its lock, the key is its own. */
  ghost predicate KeyBelongsToWhoIsInside(s: World) {
    forall w :: w in s.inside ==> s.lock == Some(s.inside[w] + TTL)
  }

  /** Mutual exclusion over every interleaving in which no run outlives the lock. */
  lemma {:induction false} AtMostOneRunInside(t0: Time, run: seq<Step>)
    requires Possible(t0, run) && NobodyOverstays(t0, run)
    ensures AtMostOne(After(t0, run)) && KeyBelongsToWhoIsInside(After(t0, run))
    ensures forall v, w :: v in After(t0, run).inside && w in After(t0, run).inside ==> v == w
  {
    assert run[..|run|] == run;
    if run != [] {
      var front := run[..|run| - 1];
      assert forall n :: 0 <= n <= |front| ==> front[..n] == run[..n];
      AtMostOneRunInside(t0, front);
      var s := After(t0, front);
      if w :| w in s.inside {
        assert !Overstays(s, w);
      }
    }
  }

  /**
   The lifetime assumption is needed: with one run inside that holds its key, another call
   is let in beside it exactly when that run has outlived the lock.
   */
  lemma SecondRunEntersIff(t0: Time, run: seq<Step>, w: Worker, v: Worker)
    requires Possible(t0, run) && NobodyOverstays(t0, run) && w in After(t0, run).inside && v !in After(t0, run).inside
    ensures forall t :: t >= After(t0, run).now ==>
              var late := After(t0, run + [Passes(t), Calls(v)]);
              (w in late.inside && v in late.inside) <==> t >= After(t0, run).inside[w] + 3600
  {
    AtMostOneRunInside(t0, run);
    forall t | t >= After(t0, run).now
      ensures After(t0, run + [Passes(t), Calls(v)]) == Next(Next(After(t0, run), Passes(t)), Calls(v))
    {
      var two := run + [Passes(t), Calls(v)];
      assert two[..|two| - 1] == run + [Passes(t)];
      assert (run + [Passes(t)])[..|run|] == run;
    }
  }

  /** And then leaving deletes the key of the run that is still inside. */
  lemma OverstayerDeletesAnothersKey(t0: Time)
    ensures var run := [Calls(1), Passes(t0 + TTL), Calls(2), Leaves(1)];
            Possible(t0, run) && 2 in After(t0, run).inside && !Held(After(t0, run))
  {
    var one, two := [Calls(1)], [Calls(1), Passes(t0 + TTL)];
    var three, run := [Calls(1), Passes(t0 + TTL), Calls(2)], [Calls(1), Passes(t0 + TTL), Calls(2), Leaves(1)];
    assert one[..0] == [] && two[..1] == one && three[..2] == two && run[..3] == three;
    assert After(t0, one) == World(t0, Some(t0 + TTL), map[1 := t0]) && Possible(t0, one);
    assert After(t0, two) == World(t0 + TTL, Some(t0 + TTL), map[1 := t0]) && Possible(t0, two);
    assert After(t0, three) == World(t0 + TTL, Some(t0 + TTL + TTL), map[1 := t0, 2 := t0 + TTL]) && Possible(t0, three);
    assert After(t0, run) == World(t0 + TTL, None, map[2 := t0 + TTL]);
  }

  /**
   The lock is not kept longer than needed: a call is let in exactly when the key has been
   deleted or has expired, and a run that leaves lets the next call in at once.
   */
  lemma CallEntersIff(s: World, v: Worker)
    requires v !in s.inside
    ensures v in Next(s, Calls(v)).inside <==> match s.lock case None => true case Some(until) => until <= s.now
    ensures v in Next(s, Calls(v)).inside ==> Next(s, Calls(v)) == World(s.now, Some(s.now + 3600), s.inside[v := s.now])
    ensures v !in Next(s, Calls(v)).inside ==> Next(s, Calls(v)) == s
    ensures forall w :: v in Next(Next(s, Leaves(w)), Calls(v)).inside
  {
  }
}
