/**
 Deferred invalidation of the document cache: sessions with savepoints queue
 invalidations, the outermost commit drains them, and renders run beside them.

 The cache's generation guard is assumed in this form: a render stores its document only
 if no invalidation matching its key ran since it began.
 */
module DocCache {
  import opened Prelude

  type DocKey = seq<string>
  type SessionId = nat
  type RenderId = nat

  /** The three ways keys are dropped: exactly, by leading elements, by any element. */
  datatype Drop = Keys(keys: set<DocKey>) | Prefixes(prefixes: set<DocKey>) | Segments(segments: set<string>) | Everything

  predicate Matches(d: Drop, k: DocKey) {
    match d
    case Keys(ks) => k in ks
    case Prefixes(ps) => exists p :: p in ps && p <= k
    case Segments(ss) => exists s :: s in ss && s in k
    case Everything => true
  }

  /** A queued callback: it may drop in several ways. */
  type Callback = seq<Drop>

  predicate Hits(fn: Callback, k: DocKey) {
    exists i :: 0 <= i < |fn| && Matches(fn[i], k)
  }

  /** `invalidate_actor`: the actor's own documents and every document keyed by the username. */
  function InvalidateActor(username: string): Callback {
    [Keys({["actor", username], ["ulibfol", username]}),
     Prefixes({["webfinger"], ["coll", username], ["obj", username], ["qa", username], ["ulib", username]})]
  }

  /** `invalidate_track`. */
  function InvalidateTrack(track: Option<string>, object_: Option<string>): Callback {
    (if Truthy(track) then [Keys({["trackpage", track.value]}), Prefixes({["mtrack", track.value]})] else [])
    + (if Truthy(object_) then [Segments({object_.value})] else [])
    + [Prefixes({["lib"], ["ulib"]})]
  }

  /** `invalidate_activity`. */
  function InvalidateActivity(activity: Option<string>, objects: set<string>): Callback {
    (if Truthy(activity) then [Keys({["act", activity.value]})] else [])
    + [Segments(set o | o in objects && o != "")]
  }

  /** Matching is by whole elements: a username never reaches another user's documents. */
  lemma ActorReachesOnlyTheirOwn(username: string, k: DocKey)
    ensures Hits(InvalidateActor(username), k) <==>
              || k == ["actor", username] || k == ["ulibfol", username]
              || (|k| >= 1 && k[0] == "webfinger")
              || (|k| >= 2 && k[0] in {"coll", "obj", "qa", "ulib"} && k[1] == username)
  {
    var fn := InvalidateActor(username);
    assert Matches(fn[0], k) <==> k == ["actor", username] || k == ["ulibfol", username];
    assert ["webfinger"] <= k <==> |k| >= 1 && k[0] == "webfinger";
    forall ns: string
      ensures [ns, username] <= k <==> |k| >= 2 && k[0] == ns && k[1] == username
    {
      if |k| >= 2 && k[0] == ns && k[1] == username {
        assert k[..2] == [ns, username];
      }
    }
    assert Matches(fn[1], k) <==> ["webfinger"] <= k || ["coll", username] <= k || ["obj", username] <= k
                                  || ["qa", username] <= k || ["ulib", username] <= k;
    assert Hits(fn, k) <==> Matches(fn[0], k) || Matches(fn[1], k);
  }

  /** An object's document and its followers collection go when its track changes; so do the track's pages and every library page. */
  lemma TrackReachesExactly(track: Option<string>, object_: Option<string>, k: DocKey)
    ensures Hits(InvalidateTrack(track, object_), k) <==>
              || (Truthy(track) && (k == ["trackpage", track.value] || (|k| >= 2 && k[0] == "mtrack" && k[1] == track.value)))
              || (Truthy(object_) && object_.value in k)
              || (|k| >= 1 && k[0] in {"lib", "ulib"})
  {
    var fn := InvalidateTrack(track, object_);
    PrefixesAre(k);
    var own := if Truthy(track) then [Keys({["trackpage", track.value]}), Prefixes({["mtrack", track.value]})] else [];
    var its := if Truthy(object_) then [Segments({object_.value})] else [];
    assert fn == own + its + [Prefixes({["lib"], ["ulib"]})];
    HitsParts(own + its, [Prefixes({["lib"], ["ulib"]})], k);
    HitsParts(own, its, k);
    OneDrop(Prefixes({["lib"], ["ulib"]}), k);
    if Truthy(track) {
      TwoDrops(Keys({["trackpage", track.value]}), Prefixes({["mtrack", track.value]}), k);
    }
    if Truthy(object_) {
      OneDrop(Segments({object_.value}), k);
    }
  }

  lemma PrefixesAre(k: DocKey)
    ensures forall a: string :: [a] <= k <==> |k| >= 1 && k[0] == a
    ensures forall a: string, b: string :: [a, b] <= k <==> |k| >= 2 && k[0] == a && k[1] == b
  {
    forall a: string, b: string | |k| >= 2 && k[0] == a && k[1] == b ensures [a, b] <= k {
      assert k[..2] == [a, b];
    }
  }

  lemma HitsParts(fn: Callback, more: Callback, k: DocKey)
    ensures Hits(fn + more, k) <==> Hits(fn, k) || Hits(more, k)
  {
    if i :| 0 <= i < |fn| && Matches(fn[i], k) {
      assert (fn + more)[i] == fn[i];
    }
    if i :| 0 <= i < |more| && Matches(more[i], k) {
      assert (fn + more)[|fn| + i] == more[i];
    }
  }

  lemma OneDrop(d: Drop, k: DocKey)
    ensures Hits([d], k) <==> Matches(d, k)
  {
    assert [d][0] == d;
  }

  lemma TwoDrops(d: Drop, e: Drop, k: DocKey)
    ensures Hits([d, e], k) <==> Matches(d, k) || Matches(e, k)
  {
    assert [d, e][0] == d && [d, e][1] == e;
  }

  /** An activity's document goes, and every document keyed by one of its objects. */
  lemma ActivityReachesExactly(activity: Option<string>, objects: set<string>, k: DocKey)
    ensures Hits(InvalidateActivity(activity, objects), k) <==>
              (Truthy(activity) && k == ["act", activity.value]) || exists o :: o in objects && o != "" && o in k
  {
    var own := if Truthy(activity) then [Keys({["act", activity.value]})] else [];
    var wanted := Segments(set o | o in objects && o != "");
    HitsParts(own, [wanted], k);
    OneDrop(wanted, k);
    if Truthy(activity) {
      OneDrop(Keys({["act", activity.value]}), k);
    }
  }

  // ----- the protocol -----------------------------------------------------------------------------

  /** A session: savepoint depth, queued callbacks, and callbacks popped by a commit but not yet run. */
  datatype Info = Info(depth: nat, pending: seq<Callback>, draining: seq<Callback>, committedAt: nat)

  /** A render in flight: what it renders, the last commit it can have missed, and the guard. */
  datatype Render = Render(key: DocKey, readAt: nat, doomed: bool)

  /** A callback that has run: whose it was and the commit it belongs to. */
  datatype Ran = Ran(session: SessionId, fn: Callback, commit: nat)

  /**
   What the listener does when a commit event fires at a nesting depth -- it fires for
   savepoint releases too: what it pops to run, and what it leaves queued.
   */
  function Popped(depth: nat, pending: seq<Callback>): seq<Callback> { if depth > 0 then [] else pending }

  function LeftQueued(depth: nat, pending: seq<Callback>): seq<Callback> { if depth > 0 then pending else [] }

  /** The commit event of the innermost transaction, seen by the listener before the nesting ends. */
  function CommitEvent(i: Info, commit: nat): Info {
    i.(draining := i.draining + Popped(i.depth, i.pending), pending := LeftQueued(i.depth, i.pending), committedAt := commit)
  }

  datatype System = System(
    commits: nat, cache: map<DocKey, nat>, sessions: map<SessionId, Info>,
    renders: map<RenderId, Render>, log: seq<Ran>)

  datatype Step =
    | Opens(s: SessionId)
    | Savepoint(s: SessionId) | Release(s: SessionId) | RollbackTo(s: SessionId) | Rollback(s: SessionId)
    | Defers(s: SessionId, fn: Callback)
    | Commits(s: SessionId) | DrainsOne(s: SessionId)
    | StartsRender(r: RenderId, key: DocKey) | EndsRender(r: RenderId)
    | DropsNow(fn: Callback)

  function Run(sys: System, fn: Callback): System {
    sys.(cache := map k | k in sys.cache && !Hits(fn, k) :: sys.cache[k],
         renders := map r | r in sys.renders :: sys.renders[r].(doomed := sys.renders[r].doomed || Hits(fn, sys.renders[r].key)))
  }

  /** Which steps a session and the render pool allow. */
  predicate Enabled(sys: System, step: Step) {
    match step
    case Opens(s) => s !in sys.sessions
    case Savepoint(s) => s in sys.sessions && sys.sessions[s].draining == []
    case Release(s) => s in sys.sessions && sys.sessions[s].draining == [] && sys.sessions[s].depth > 0
    case RollbackTo(s) => s in sys.sessions && sys.sessions[s].draining == [] && sys.sessions[s].depth > 0
    case Rollback(s) => s in sys.sessions && sys.sessions[s].draining == []
    case Defers(s, _) => s in sys.sessions && sys.sessions[s].draining == []
    case Commits(s) => s in sys.sessions && sys.sessions[s].draining == [] && sys.sessions[s].depth == 0
    case DrainsOne(s) => s in sys.sessions && sys.sessions[s].draining != []
    case StartsRender(r, _) => r !in sys.renders
    case EndsRender(r) => r in sys.renders
    case DropsNow(_) => true
  }

  /** A step that is not enabled does nothing. */
  function Next(sys: System, step: Step): System {
    if !Enabled(sys, step) then sys
    else
    match step
    case Opens(s) => sys.(sessions := sys.sessions[s := Info(0, [], [], 0)])
    case Savepoint(s) => sys.(sessions := sys.sessions[s := sys.sessions[s].(depth := sys.sessions[s].depth + 1)])
    case Release(s) =>
      var i := CommitEvent(sys.sessions[s], sys.commits);
      sys.(sessions := sys.sessions[s := i.(depth := i.depth - 1)])
    case RollbackTo(s) => sys.(sessions := sys.sessions[s := sys.sessions[s].(depth := sys.sessions[s].depth - 1)])
    case Rollback(s) => sys.(sessions := sys.sessions[s := sys.sessions[s].(depth := 0)])
    case Defers(s, fn) => sys.(sessions := sys.sessions[s := sys.sessions[s].(pending := sys.sessions[s].pending + [fn])])
    case Commits(s) =>
      sys.(commits := sys.commits + 1, sessions := sys.sessions[s := CommitEvent(sys.sessions[s], sys.commits + 1)])
    case DrainsOne(s) =>
      var i := sys.sessions[s];
      Run(sys, i.draining[0]).(
        sessions := sys.sessions[s := i.(draining := i.draining[1..])],
        log := sys.log + [Ran(s, i.draining[0], i.committedAt)])
    case StartsRender(r, key) => sys.(renders := sys.renders[r := Render(key, sys.commits, false)])
    case EndsRender(r) =>
      var x := sys.renders[r];
      sys.(renders := sys.renders - {r}, cache := if x.doomed then sys.cache else sys.cache[x.key := x.readAt])
    case DropsNow(fn) => Run(sys, fn)
  }

  const EMPTY := System(0, map[], map[], map[], [])

  ghost predicate Possible(run: seq<Step>) {
    run != [] ==> Possible(run[..|run| - 1]) && Enabled(After(run[..|run| - 1]), run[|run| - 1])
  }

  ghost function After(run: seq<Step>): System {
    if run == [] then EMPTY else Next(After(run[..|run| - 1]), run[|run| - 1])
  }

  // ----- the listener and the queue, as they run ----------------------------------------------------

  /** One session's `info` dictionary and its transaction nesting. */
  class SessionInfo {
    var depth: nat
    var pending: seq<Callback>
    var listening: bool

    constructor ()
      ensures depth == 0 && pending == [] && !listening
    {
      depth, pending, listening := 0, [], false;
    }

    /** `_defer`: queue the callback, and listen for the commit once. */
    method Defer(fn: Callback)
      modifies this`pending, this`listening
      ensures pending == old(pending) + [fn] && listening
    {
      pending := pending + [fn];
      if !listening {
        listening := true;
      }
    }

    /** `_run_or_defer`. */
    static method RunOrDefer(session: SessionInfo?, fn: Callback) returns (now: seq<Callback>)
      modifies session
      ensures session == null ==> now == [fn]
      ensures session != null ==> now == [] && session.pending == old(session.pending) + [fn] && session.depth == old(session.depth)
    {
      if session == null {
        return [fn];
      }
      session.Defer(fn);
      return [];
    }

    /** `_drain_deferred`, called after every commit event: what it runs, in order. */
    method DrainDeferred() returns (ran: seq<Callback>)
      modifies this`pending
      ensures ran == Popped(depth, old(pending)) && pending == LeftQueued(depth, old(pending))
    {
      if depth > 0 {
        return [];
      }
      var fns := pending;
      pending := [];
      ran := [];
      for n := 0 to |fns|
        invariant ran == fns[..n] && pending == []
      {
        ran := ran + [fns[n]];
      }
    }

    /** A queued callback has its listener. */
    ghost predicate Valid()
      reads this
    {
      pending != [] ==> listening
    }

    /** Committing the innermost transaction, a savepoint or the outermost: the event fires, then the nesting ends. */
    method CommitInnermost(ghost commit: nat) returns (ran: seq<Callback>)
      requires Valid()
      modifies this`pending, this`depth
      ensures Valid()
      ensures Info(old(depth), pending, ran, commit) == CommitEvent(Info(old(depth), old(pending), [], 0), commit)
      ensures depth == if old(depth) > 0 then old(depth) - 1 else 0
    {
      ran := [];
      if listening {
        ran := DrainDeferred();
      }
      if depth > 0 {
        depth := depth - 1;
      }
    }
  }

  // ----- nothing stale survives -----------------------------------------------------------------------

  /** No cached document and no render that may still be stored misses a commit whose callback has run. */
  ghost predicate Fresh(sys: System) {
    && (forall n, k :: 0 <= n < |sys.log| && k in sys.cache && Hits(sys.log[n].fn, k) ==> sys.cache[k] >= sys.log[n].commit)
    && (forall n, r :: 0 <= n < |sys.log| && r in sys.renders && Hits(sys.log[n].fn, sys.renders[r].key) && !sys.renders[r].doomed ==>
          sys.renders[r].readAt >= sys.log[n].commit)
    && (forall n :: 0 <= n < |sys.log| ==> sys.log[n].commit <= sys.commits)
    && (forall s :: s in sys.sessions ==> sys.sessions[s].committedAt <= sys.commits)
  }

  lemma StepStaysFresh(sys: System, step: Step)
    requires Enabled(sys, step) && Fresh(sys)
    ensures Fresh(Next(sys, step))
  {
    match step
    case DrainsOne(s) =>
      RunStaysFresh(sys, sys.sessions[s].draining[0], [Ran(s, sys.sessions[s].draining[0], sys.sessions[s].committedAt)]);
      hide Run, Hits, Enabled;
    case DropsNow(fn) => RunStaysFresh(sys, fn, []);
    case _ =>
      hide Hits, Run;
  }

  /** Running a callback leaves nothing it hits, so its entry in the log adds no obligation. */
  lemma RunStaysFresh(sys: System, fn: Callback, ran: seq<Ran>)
    requires Fresh(sys) && forall i :: 0 <= i < |ran| ==> ran[i].fn == fn && ran[i].commit <= sys.commits
    ensures var d := Run(sys, fn); Fresh(d.(log := sys.log + ran)) && d.sessions == sys.sessions && d.log == sys.log
  {
    hide Hits;
  }

  /**
   In every interleaving of sessions, savepoints, rollbacks and renders: once a commit's
   callback has run, no document its keys reach was read before that commit.
   */
  lemma {:induction false} NothingStaleSurvivesACommit(run: seq<Step>)
    requires Possible(run)
    ensures Fresh(After(run))
  {
    hide Fresh;
    if run == [] {
      EmptyIsFresh();
    } else {
      NothingStaleSurvivesACommit(run[..|run| - 1]);
      StepStaysFresh(After(run[..|run| - 1]), run[|run| - 1]);
    }
  }

  lemma EmptyIsFresh()
    ensures Fresh(EMPTY)
  {
  }

  // ----- every callback runs once, at its session's next outermost commit -------------------------

  ghost function Deferred(run: seq<Step>, s: SessionId): seq<Callback> {
    if run == [] then []
    else
      var step := run[|run| - 1];
      Deferred(run[..|run| - 1], s) + Added(step, s)
  }

  ghost function Executed(log: seq<Ran>, s: SessionId): seq<Callback> {
    if log == [] then []
    else Executed(log[..|log| - 1], s) + (if log[|log| - 1].session == s then [log[|log| - 1].fn] else [])
  }

  function Queued(sys: System, s: SessionId): seq<Callback> {
    if s in sys.sessions then sys.sessions[s].draining + sys.sessions[s].pending else []
  }

  function Added(step: Step, s: SessionId): seq<Callback> {
    if step.Defers? && step.s == s then [step.fn] else []
  }

  lemma DrainConserves(sys: System, step: Step, s: SessionId)
    requires Enabled(sys, step) && step.DrainsOne?
    ensures Executed(Next(sys, step).log, s) + Queued(Next(sys, step), s) == Executed(sys.log, s) + Queued(sys, s)
  {
    var sys' := Next(sys, step);
    assert sys'.log[..|sys'.log| - 1] == sys.log;
    var d := sys.sessions[step.s].draining;
    assert d == [d[0]] + d[1..];
    if step.s == s {
      assert Executed(sys'.log, s) == Executed(sys.log, s) + [d[0]];
      assert Queued(sys, s) == [d[0]] + Queued(sys', s);
    }
  }

  lemma OthersConserve(sys: System, step: Step, s: SessionId)
    requires Enabled(sys, step) && !step.DrainsOne?
    ensures Next(sys, step).log == sys.log && Queued(Next(sys, step), s) == Queued(sys, s) + Added(step, s)
  {
  }

  /**
   Callbacks are conserved: per session, those that have run followed by those popped and
   those queued are exactly those deferred, in order -- none is lost to a rollback, run
   twice, or run at a savepoint release.
   */
  lemma {:induction false} EveryCallbackRunsOnce(run: seq<Step>, s: SessionId)
    requires Possible(run)
    ensures Executed(After(run).log, s) + Queued(After(run), s) == Deferred(run, s)
  {
    hide Next, Enabled, Queued;
    if run == [] {
      assert Queued(EMPTY, s) == [] by { NothingQueued(s); }
    } else {
      var front, step := run[..|run| - 1], run[|run| - 1];
      EveryCallbackRunsOnce(front, s);
      var sys := After(front);
      if step.DrainsOne? {
        DrainConserves(sys, step, s);
      } else {
        OthersConserve(sys, step, s);
        assert Executed(sys.log, s) + (Queued(sys, s) + Added(step, s)) == (Executed(sys.log, s) + Queued(sys, s)) + Added(step, s);
      }
    }
  }

  lemma NothingQueued(s: SessionId)
    ensures Queued(EMPTY, s) == []
  {
  }

  // ----- and nothing else is dropped ---------------------------------------------------------------------

  /** Running a callback drops exactly the cached documents it hits, and dooms exactly the renders of such. */
  lemma RunDropsExactly(sys: System, fn: Callback)
    ensures var d := Run(sys, fn);
            && (forall k :: k in d.cache <==> k in sys.cache && !Hits(fn, k))
            && (forall k :: k in d.cache ==> d.cache[k] == sys.cache[k])
            && d.renders.Keys == sys.renders.Keys
            && (forall r :: r in sys.renders ==>
                  && d.renders[r].key == sys.renders[r].key && d.renders[r].readAt == sys.renders[r].readAt
                  && (d.renders[r].doomed <==> sys.renders[r].doomed || Hits(fn, sys.renders[r].key)))
            && d.log == sys.log && d.sessions == sys.sessions && d.commits == sys.commits
  {
  }

  /** The step runs a callback that hits the key: at once, or out of a session's drain. */
  ghost predicate Strikes(sys: System, step: Step, k: DocKey) {
    match step
    case DropsNow(fn) => Hits(fn, k)
    case DrainsOne(s) => s in sys.sessions && sys.sessions[s].draining != [] && Hits(sys.sessions[s].draining[0], k)
    case _ => false
  }

  /** A cached document stays, as of the same commit, until a callback hits its key or a render of it ends. */
  lemma CachedStaysUntilStruck(sys: System, step: Step, k: DocKey)
    requires Enabled(sys, step) && k in sys.cache && !Strikes(sys, step, k)
    requires step.EndsRender? ==> sys.renders[step.r].key != k
    ensures k in Next(sys, step).cache && Next(sys, step).cache[k] == sys.cache[k]
  {
    hide Hits;
  }

  lemma RenderGoesOn(sys: System, step: Step, r: RenderId)
    requires Enabled(sys, step) && r in sys.renders && step != EndsRender(r)
    ensures var d := Next(sys, step);
            && r in d.renders && d.renders[r].key == sys.renders[r].key && d.renders[r].readAt == sys.renders[r].readAt
            && (d.renders[r].doomed <==> sys.renders[r].doomed || Strikes(sys, step, sys.renders[r].key))
  {
    hide Hits;
  }

  /** A callback hitting the key has run since step `i`. */
  ghost predicate Struck(run: seq<Step>, i: nat, k: DocKey) {
    exists n :: i < n < |run| && Strikes(After(run[..n]), run[n], k)
  }

  lemma StruckByMore(run: seq<Step>, i: nat, k: DocKey)
    requires i < |run| - 1
    ensures var front := run[..|run| - 1];
            Struck(run, i, k) <==> Struck(front, i, k) || Strikes(After(front), run[|run| - 1], k)
  {
    hide Strikes, After;
    var front := run[..|run| - 1];
    assert forall n :: 0 <= n < |front| ==> front[..n] == run[..n] && front[n] == run[n];
    if n :| i < n < |front| && Strikes(After(front[..n]), front[n], k) {
      assert Strikes(After(run[..n]), run[n], k);
    }
  }

  /** A render under way is doomed exactly when a callback hitting its key has run since it started. */
  lemma {:induction false} DoomedIffStruck(run: seq<Step>, i: nat, r: RenderId, k: DocKey)
    requires Possible(run) && i < |run| && run[i] == StartsRender(r, k)
    requires forall n :: i < n < |run| ==> run[n] != EndsRender(r)
    ensures r in After(run).renders && After(run).renders[r].key == k
    ensures After(run).renders[r].readAt == After(run[..i]).commits
    ensures After(run).renders[r].doomed <==> Struck(run, i, k)
  {
    hide Strikes, Struck;
    var front, step := run[..|run| - 1], run[|run| - 1];
    if i == |run| - 1 {
      assert run[..i] == front;
      NotStruckYet(run, k);
    } else {
      assert front[..i] == run[..i] && forall n :: 0 <= n < |front| ==> front[n] == run[n];
      DoomedIffStruck(front, i, r, k);
      RenderGoesOn(After(front), step, r);
      StruckByMore(run, i, k);
      hide Next, Enabled, Possible;
    }
  }

  lemma NotStruckYet(run: seq<Step>, k: DocKey)
    requires run != []
    ensures !Struck(run, |run| - 1, k)
  {
  }

  /**
   A finished render is stored exactly when no callback hitting its key ran while it was under
   way, and then as of the last commit before it started.
   */
  lemma RenderIsStoredUnlessStruck(run: seq<Step>, i: nat, r: RenderId, k: DocKey)
    requires Possible(run) && i < |run| && run[i] == StartsRender(r, k)
    requires forall n :: i < n < |run| ==> run[n] != EndsRender(r)
    ensures Next(After(run), EndsRender(r)).cache ==
              if Struck(run, i, k) then After(run).cache else After(run).cache[k := After(run[..i]).commits]
    ensures Next(After(run), EndsRender(r)).renders == After(run).renders - {r}
  {
    hide Struck, Possible;
    DoomedIffStruck(run, i, r, k);
    var sys := After(run);
    hide After;
    assert Enabled(sys, EndsRender(r));
  }

  // ----- at the next outermost commit --------------------------------------------------------------------

  /** The log entries of one session, in order. */
  ghost function Entries(log: seq<Ran>, s: SessionId): seq<Ran> {
    if log == [] then []
    else Entries(log[..|log| - 1], s) + (if log[|log| - 1].session == s then [log[|log| - 1]] else [])
  }

  /** Callbacks popped by a commit and not run yet, with the commit they belong to. */
  ghost function Tagged(fns: seq<Callback>, s: SessionId, commit: nat): seq<Ran> {
    if fns == [] then [] else [Ran(s, fns[0], commit)] + Tagged(fns[1..], s, commit)
  }

  /** What has been run or popped for a session, in order. */
  ghost function Settled(sys: System, s: SessionId): seq<Ran> {
    Entries(sys.log, s) + if s in sys.sessions then Tagged(sys.sessions[s].draining, s, sys.sessions[s].committedAt) else []
  }

  function Pending(sys: System, s: SessionId): seq<Callback> {
    if s in sys.sessions then sys.sessions[s].pending else []
  }

  /** The number of the session's first outermost commit after step `i`, if there was one. */
  ghost function NextCommit(run: seq<Step>, s: SessionId, i: nat): Option<nat> {
    if |run| <= i + 1 then None
    else
      var front := run[..|run| - 1];
      if NextCommit(front, s, i).Some? then NextCommit(front, s, i)
      else if run[|run| - 1] == Commits(s) then Some(After(run).commits)
      else None
  }

  lemma {:induction false} TaggedIs(fns: seq<Callback>, s: SessionId, commit: nat)
    ensures |Tagged(fns, s, commit)| == |fns|
    ensures forall n :: 0 <= n < |fns| ==> Tagged(fns, s, commit)[n] == Ran(s, fns[n], commit)
  {
    if fns != [] {
      TaggedIs(fns[1..], s, commit);
    }
  }

  /** How one step moves callbacks from pending to settled: at the session's own outermost commit, all of them, else none. */
  lemma SettlingStep(sys: System, step: Step, s: SessionId)
    requires Enabled(sys, step)
    ensures step == Commits(s) ==>
              Settled(Next(sys, step), s) == Settled(sys, s) + Tagged(Pending(sys, s), s, Next(sys, step).commits)
              && Pending(Next(sys, step), s) == []
    ensures step != Commits(s) ==>
              Settled(Next(sys, step), s) == Settled(sys, s) && Pending(Next(sys, step), s) == Pending(sys, s) + Added(step, s)
  {
    hide Hits, Matches, Entries, Tagged;
    if step == Commits(s) {
      assert sys.sessions[s].draining + sys.sessions[s].pending == sys.sessions[s].pending;
      NothingTagged(s, sys.sessions[s].committedAt);
    } else if step.DrainsOne? {
      DrainSettles(sys, step, s);
    } else if step == Release(s) {
      assert sys.sessions[s].draining + [] == [];
      NothingTagged(s, sys.sessions[s].committedAt);
      NothingTagged(s, sys.commits);
    } else if step == Opens(s) {
      NothingTagged(s, 0);
    }
  }

  lemma NothingTagged(s: SessionId, commit: nat)
    ensures Tagged([], s, commit) == []
  {
  }

  lemma DrainSettles(sys: System, step: Step, s: SessionId)
    requires Enabled(sys, step) && step.DrainsOne?
    ensures Settled(Next(sys, step), s) == Settled(sys, s) && Pending(Next(sys, step), s) == Pending(sys, s)
  {
    hide Hits, Matches;
    var log := Next(sys, step).log;
    assert log[..|log| - 1] == sys.log;
    if step.s == s {
      var i := sys.sessions[s];
      assert Entries(log, s) == Entries(sys.log, s) + [Ran(s, i.draining[0], i.committedAt)];
      assert Tagged(i.draining, s, i.committedAt) == [Ran(s, i.draining[0], i.committedAt)] + Tagged(i.draining[1..], s, i.committedAt);
    }
  }

  ghost predicate PlacedAt(run: seq<Step>, s: SessionId, i: nat)
    requires i < |run| && run[i].Defers? && run[i].s == s
  {
    var n, commit, settled := |Deferred(run[..i], s)|, NextCommit(run, s, i), Settled(After(run), s);
    && (commit.None? ==> n >= |settled| && n - |settled| < |Pending(After(run), s)| && Pending(After(run), s)[n - |settled|] == run[i].fn)
    && (commit.Some? ==> n < |settled| && settled[n] == Ran(s, run[i].fn, commit.value))
  }

  lemma {:induction false} DeferralsArePlaced(run: seq<Step>, s: SessionId, i: nat)
    requires Possible(run) && i < |run| && run[i].Defers? && run[i].s == s
    ensures PlacedAt(run, s, i)
  {
    hide Next, Enabled, Settled, Pending, Queued;
    var front, step := run[..|run| - 1], run[|run| - 1];
    var sys := After(front);
    SettlingStep(sys, step, s);
    if i == |run| - 1 {
      DeferredSoFar(front, s);
      assert run[..i] == front;
    } else {
      assert front[..i] == run[..i] && front[i] == run[i];
      DeferralsArePlaced(front, s, i);
      TaggedIs(Pending(sys, s), s, After(run).commits);
    }
  }

  /** Settled and pending callbacks together are those deferred. */
  lemma {:induction false} DeferredSoFar(run: seq<Step>, s: SessionId)
    requires Possible(run)
    ensures |Settled(After(run), s)| + |Pending(After(run), s)| == |Deferred(run, s)|
  {
    hide Next, Enabled, Settled, Pending;
    if run == [] {
      NothingSettled(s);
    } else {
      var front, step := run[..|run| - 1], run[|run| - 1];
      DeferredSoFar(front, s);
      SettlingStep(After(front), step, s);
      TaggedIs(Pending(After(front), s), s, After(run).commits);
    }
  }

  lemma NothingSettled(s: SessionId)
    ensures Settled(EMPTY, s) == [] && Pending(EMPTY, s) == []
  {
  }

  /**
   A queued callback runs at its session's next outermost commit and at nothing else.  In
   every history -- savepoints released, rolled back, other sessions committing in between --
   the n-th callback a session deferred is its n-th log entry, and that entry carries the
   number of the session's first outermost commit after the deferral; before that commit it
   has no entry.
   */
  lemma CallbacksRunAtTheirNextCommit(run: seq<Step>, s: SessionId, i: nat)
    requires Possible(run) && i < |run| && run[i].Defers? && run[i].s == s
    ensures var n, commit, entries := |Deferred(run[..i], s)|, NextCommit(run, s, i), Entries(After(run).log, s);
            && (n < |entries| ==> commit.Some? && entries[n] == Ran(s, run[i].fn, commit.value))
            && (commit.Some? && s in After(run).sessions && After(run).sessions[s].draining == [] ==> n < |entries|)
  {
    DeferralsArePlaced(run, s, i);
    hide After, NextCommit, Deferred;
    var sys := After(run);
    if s in sys.sessions {
      TaggedIs(sys.sessions[s].draining, s, sys.sessions[s].committedAt);
    }
  }
}
