/**
 From the watchdog's queue to the table: every enqueued sync is run, in order, over a tree
 that no longer changes, and what was deleted ends missing.
 */
module WatchedSync {
  import opened Prelude
  import opened Paths
  import opened LocalWalk
  import opened LocalSync
  import F = FileSyncModel
  import S = FileSyncSafety
  import T = FileSyncTheorems
  import W = Watchdog

  /** One run of an enqueued request: its visits, its start, the hashes stored then, and its scope as a path. */
  datatype Served = Served(visits: seq<F.Visit>, started: int, stored: set<string>, scope: Path)

  function BaseOf(r: W.Request, x: Served): Path { if r.Scoped? then x.scope else [] }

  function SinceOf(r: W.Request): Option<int> { if r.Since? then Some(r.since) else None }

  /** The run lists what the request asks for. */
  ghost predicate Serves(a: Adapter, f: Filter, tree: Entry, r: W.Request, x: Served) {
    && (r.Scoped? ==> r.scope == Join(x.scope) && PathOk(x.scope) && x.scope != [])
    && ListedBy(x.visits, Offers(a, SinceOf(r), Records(f, tree, BaseOf(r, x))))
  }

  ghost function Ran(db: F.Db, cfg: F.Config, r: W.Request, x: Served): F.Db {
    F.SyncRun(db, cfg, x.stored, x.visits, x.started, r.Since?, ScopeOf(r)).db
  }

  /** The table once the first runs of the queue are done. */
  ghost function Completed(db: F.Db, cfg: F.Config, queue: seq<W.Request>, served: seq<Served>): F.Db
    requires |queue| == |served|
  {
    if queue == [] then db
    else Ran(Completed(db, cfg, queue[..|queue| - 1], served[..|queue| - 1]), cfg, queue[|queue| - 1], served[|queue| - 1])
  }

  /** Every request is served in turn, and every run starts after whatever the runs before it saw. */
  ghost predicate InOrder(db: F.Db, cfg: F.Config, a: Adapter, f: Filter, tree: Entry, queue: seq<W.Request>, served: seq<Served>)
    requires |queue| == |served|
  {
    queue != [] ==>
      var n := |queue| - 1;
      && InOrder(db, cfg, a, f, tree, queue[..n], served[..n])
      && Serves(a, f, tree, queue[n], served[n])
      && T.Before(Completed(db, cfg, queue[..n], served[..n]), served[n].started)
      && T.During(served[n].visits, served[n].started)
  }

  /** The row was active and seen, or is missing already. */
  ghost predicate Known(db: F.Db, k: string) {
    k in db.rows && ((db.rows[k].state == F.Active && db.rows[k].lastSeen.Some?) || db.rows[k].state == F.Missing)
  }

  lemma GoneIsNotVisited(a: Adapter, f: Filter, tree: Entry, r: W.Request, x: Served, p: Path)
    requires tree.Dir? && UniqueNames(tree) && PathOk(p) && p != [] && Serves(a, f, tree, r, x)
    requires Lookup(tree, p) != None ==> !Lookup(tree, p).value.File?
    ensures T.VisitOf(x.visits, Join(p)).None? && T.DistinctKeys(x.visits)
  {
    var xs := Records(f, tree, BaseOf(r, x));
    NotListedWhenGone(f, tree, BaseOf(r, x), p);
    RecordsAreClean(f, tree, BaseOf(r, x));
    ListedOnce(a, SinceOf(r), xs, x.visits);
    VisitIsRecord(a, SinceOf(r), xs, x.visits, Join(p));
  }

  /** A request that covers the deletion of `e` has everything at or below the deleted path in scope. */
  lemma CoveredIsInScope(audio: string -> bool, r: W.Request, x: Served, e: W.Event, p: Path)
    requires e.change == W.Deleted && e.rel.Some? && e.rel.value <= p && PathOk(p) && p != [] && W.Covers(r, audio, e)
    requires r.Scoped? ==> r.scope == Join(x.scope) && PathOk(x.scope) && x.scope != []
    ensures !r.Since? && F.InScope(ScopeOf(r), Join(p))
  {
    if r.Scoped? {
      var q: Path :| q != [] && r.scope == Join(q) && q <= W.EventScope(e.rel, e.isDirectoryNow, audio);
      assert q <= p;
      assert PathOk(q);
      JoinIsInjective(q, x.scope);
      ScopeIsPrefix(x.scope, p);
    }
  }

  /** One run leaves such a row known, missing once missing, and missing if it covers the deletion. */
  lemma OneRun(audio: string -> bool, db: F.Db, cfg: F.Config, a: Adapter, f: Filter, tree: Entry,
               r: W.Request, x: Served, e: W.Event, p: Path)
    requires T.WellLinked(db) && Known(db, Join(p)) && cfg.listItems && tree.Dir? && UniqueNames(tree)
    requires PathOk(p) && p != [] && (Lookup(tree, p) != None ==> !Lookup(tree, p).value.File?)
    requires e.change == W.Deleted && e.rel.Some? && e.rel.value <= p
    requires Serves(a, f, tree, r, x) && T.Before(db, x.started) && T.During(x.visits, x.started)
    ensures var d := Ran(db, cfg, r, x);
            && T.WellLinked(d) && Known(d, Join(p))
            && (db.rows[Join(p)].state == F.Missing || W.Covers(r, audio, e) ==> d.rows[Join(p)].state == F.Missing)
  {
    GoneIsNotVisited(a, f, tree, r, x, p);
    T.RunActsSlotwise(db, cfg, x.stored, x.visits, x.started, r.Since?, ScopeOf(r));
    if W.Covers(r, audio, e) {
      CoveredIsInScope(audio, r, x, e, p);
    }
    hide F.SyncRun, T.WellLinked, T.NewIdFor, T.VisitOf, Serves, W.Covers, F.InScope, T.During, T.DistinctKeys;
    SlotsOfRows(Ran(db, cfg, r, x), Join(p));
    SlotsOfRows(db, Join(p));
  }

  lemma SlotsOfRows(db: F.Db, k: string)
    ensures F.Get(db, k).row.Some? <==> k in db.rows
    ensures k in db.rows ==> F.Get(db, k).row.value == db.rows[k]
  {
  }

  lemma {:induction false} QueueRuns(audio: string -> bool, db: F.Db, cfg: F.Config, a: Adapter, f: Filter, tree: Entry,
                                     queue: seq<W.Request>, served: seq<Served>, e: W.Event, p: Path)
    requires |queue| == |served| && InOrder(db, cfg, a, f, tree, queue, served)
    requires T.WellLinked(db) && Known(db, Join(p)) && cfg.listItems && tree.Dir? && UniqueNames(tree)
    requires PathOk(p) && p != [] && (Lookup(tree, p) != None ==> !Lookup(tree, p).value.File?)
    requires e.change == W.Deleted && e.rel.Some? && e.rel.value <= p
    ensures var d := Completed(db, cfg, queue, served);
            && T.WellLinked(d) && Known(d, Join(p)) && (W.Covered(queue, audio, e) ==> d.rows[Join(p)].state == F.Missing)
  {
    hide Ran, Serves, T.WellLinked, T.Before, T.During, W.Covers, UniqueNames;
    if queue != [] {
      var n := |queue| - 1;
      QueueRuns(audio, db, cfg, a, f, tree, queue[..n], served[..n], e, p);
      OneRun(audio, Completed(db, cfg, queue[..n], served[..n]), cfg, a, f, tree, queue[n], served[n], e, p);
      if W.Covered(queue, audio, e) {
        var j :| 0 <= j < |queue| && W.Covers(queue[j], audio, e);
        assert j < n ==> queue[..n][j] == queue[j];
      }
    }
  }

  /**
   Watchdog-to-sync coverage.  Take any interleaving of events and timers that ends with the
   accumulator flushed, any deletion handled in it, and a row at or below the deleted path
   that is active and no longer on disk.  Once every enqueued sync -- full, scoped and
   incremental -- has run over the tree, in order, the row is missing.
   */
  lemma DeletedFilesEndMissing(audio: string -> bool, steps: seq<W.Step>, i: nat, db: F.Db, cfg: F.Config,
                               a: Adapter, f: Filter, tree: Entry, served: seq<Served>, p: Path)
    requires W.Possible(audio, steps) && W.Waiting(steps) == []
    requires i < |steps| && steps[i].Happens? && steps[i].e.change == W.Deleted
    requires steps[i].e.rel.Some? && steps[i].e.rel.value <= p && PathOk(p) && p != []
    requires T.WellLinked(db) && cfg.listItems && tree.Dir? && UniqueNames(tree)
    requires Join(p) in db.rows && db.rows[Join(p)].state == F.Active && db.rows[Join(p)].lastSeen.Some?
    requires Lookup(tree, p) != None ==> !Lookup(tree, p).value.File?
    requires |served| == |W.After(audio, steps).queue| && InOrder(db, cfg, a, f, tree, W.After(audio, steps).queue, served)
    ensures var d := Completed(db, cfg, W.After(audio, steps).queue, served);
            Join(p) in d.rows && d.rows[Join(p)].state == F.Missing
  {
    W.NoEventIsLost(audio, steps);
    assert W.Covered(W.After(audio, steps).queue, audio, steps[i].e);
    hide W.Covered, InOrder, Completed;
    QueueRuns(audio, db, cfg, a, f, tree, W.After(audio, steps).queue, served, steps[i].e, p);
  }
}
