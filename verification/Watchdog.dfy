/**
 The filesystem watchdog of one local library: how delete events narrow to a scope, and
 the quiet-window timer protocol that turns accumulated events into sync requests.
 */
module Watchdog {
  import opened Prelude
  import opened Paths

  type Time = int

  const SECOND: int := 1_000_000

  // ----- scopes of delete events ---------------------------------------------------------------

  /** `_event_scope_parts`, for a path relative to the root (`None` when it is outside). */
  function EventScope(rel: Option<Path>, isDirectoryNow: bool, audio: string -> bool): (s: Path)
    ensures rel.Some? ==> s <= rel.value && |rel.value| <= |s| + 1
    ensures rel.Some? ==> (s == rel.value <==> rel.value == [] || isDirectoryNow || !audio(rel.value[|rel.value| - 1]))
    ensures rel.None? ==> s == []
  {
    if rel.None? || rel.value == [] then []
    else if isDirectoryNow then rel.value
    else if audio(rel.value[|rel.value| - 1]) then rel.value[..|rel.value| - 1]
    else rel.value
  }

  ghost predicate CommonTo(p: Path, scopes: seq<Path>) {
    forall i :: 0 <= i < |scopes| ==> p <= scopes[i]
  }

  /** `p` is the longest path every scope lies at or below. */
  ghost predicate Deepest(p: Path, scopes: seq<Path>) {
    CommonTo(p, scopes) && forall q :: CommonTo(q, scopes) ==> q <= p
  }

  lemma DeepestIsUnique(p: Path, q: Path, scopes: seq<Path>)
    requires Deepest(p, scopes) && Deepest(q, scopes)
    ensures p == q
  {
  }

  function Lcp(a: Path, b: Path): Path {
    if a != [] && b != [] && a[0] == b[0] then [a[0]] + Lcp(a[1..], b[1..]) else []
  }

  /** Being at or above two paths is being at or above their longest common prefix. */
  lemma {:induction false} LcpIsLongest(a: Path, b: Path, q: Path)
    ensures q <= a && q <= b <==> q <= Lcp(a, b)
  {
    if a != [] && b != [] && a[0] == b[0] {
      if q != [] {
        LcpIsLongest(a[1..], b[1..], q[1..]);
        assert a == [a[0]] + a[1..] && b == [b[0]] + b[1..] && q == [q[0]] + q[1..];
      }
    } else if q != [] && q <= a {
      assert a[0] == q[0];
    }
  }

  lemma {:induction false} LcpStep(a: Path, b: Path, n: nat)
    requires n <= |a| && n <= |b| && a[..n] == b[..n]
    ensures Lcp(a, b) == a[..n] + Lcp(a[n..], b[n..])
  {
    if n > 0 {
      assert a[0] == a[..n][0] == b[..n][0] == b[0];
      assert a[1..][..n - 1] == a[..n][1..] == b[..n][1..] == b[1..][..n - 1];
      LcpStep(a[1..], b[1..], n - 1);
      assert a[1..][n - 1..] == a[n..] && b[1..][n - 1..] == b[n..];
    }
  }

  /** The `zip` loop: the longest common prefix of two part lists. */
  method CommonPrefix(a: Path, b: Path) returns (c: Path)
    ensures c == Lcp(a, b)
  {
    c := [];
    var n := 0;
    while n < |a| && n < |b|
      invariant n <= |a| && n <= |b| && c == a[..n] == b[..n]
    {
      LcpStep(a, b, n);
      if a[n] != b[n] {
        return;
      }
      c := c + [a[n]];
      n := n + 1;
    }
    LcpStep(a, b, n);
  }

  lemma DeepestOfMore(p: Path, scopes: seq<Path>, s: Path)
    requires Deepest(p, scopes)
    ensures Deepest(Lcp(p, s), scopes + [s])
  {
    LcpIsLongest(p, s, Lcp(p, s));
    forall q | CommonTo(q, scopes + [s])
      ensures q <= Lcp(p, s)
    {
      assert (scopes + [s])[|scopes|] == s;
      assert forall i :: 0 <= i < |scopes| ==> (scopes + [s])[i] == scopes[i];
      assert CommonTo(q, scopes);
      LcpIsLongest(p, s, q);
    }
  }

  lemma DeepestStaysEmpty(scopes: seq<Path>, n: nat)
    requires n <= |scopes| && Deepest([], scopes[..n])
    ensures Deepest([], scopes)
  {
    forall q | CommonTo(q, scopes)
      ensures q <= []
    {
      assert CommonTo(q, scopes[..n]);
    }
  }

  lemma {:induction false} DeepestExists(scopes: seq<Path>) returns (p: Path)
    requires scopes != []
    ensures Deepest(p, scopes)
  {
    if |scopes| == 1 {
      p := scopes[0];
    } else {
      var front, last := scopes[..|scopes| - 1], scopes[|scopes| - 1];
      p := DeepestExists(front);
      DeepestOfMore(p, front, last);
      assert front + [last] == scopes;
      p := Lcp(p, last);
    }
  }

  /** `_deepest_common_ancestor`: the joined longest common prefix, `None` for the whole library. */
  method DeepestCommonAncestor(scopes: seq<Path>) returns (r: Option<string>)
    ensures scopes == [] ==> r == None
    ensures scopes != [] ==> exists p :: Deepest(p, scopes) && r == if p == [] then None else Some(Join(p))
  {
    if scopes == [] || exists i :: 0 <= i < |scopes| && scopes[i] == [] {
      if scopes != [] {
        assert Deepest([], scopes);
      }
      return None;
    }
    var common := scopes[0];
    for n := 1 to |scopes|
      invariant Deepest(common, scopes[..n]) && common != []
    {
      DeepestOfMore(common, scopes[..n], scopes[n]);
      assert scopes[..n + 1] == scopes[..n] + [scopes[n]];
      common := CommonPrefix(common, scopes[n]);
      if common == [] {
        DeepestStaysEmpty(scopes, n + 1);
        return None;
      }
    }
    assert scopes[..|scopes|] == scopes;
    return Some(Join(common));
  }

  // ----- the quiet-window protocol ---------------------------------------------------------------

  datatype Change = Added | Modified | Deleted

  /** A filesystem event as it is handled: what happened, where, and when it is handled. */
  datatype Event = Event(change: Change, rel: Option<Path>, isDirectoryNow: bool, at: Time)

  datatype Request = Full | Scoped(scope: string) | Since(since: Time)

  /** The accumulator, the event loop's armed timers and pending flush tasks, and the task queue. */
  datatype Watch = Watch(
    windowStart: Option<Time>, hasAddOrModify: bool, scopes: seq<Path>, handle: Option<nat>,
    armed: set<nat>, nextTimer: nat, tasks: nat, queue: seq<Request>)

  datatype Step = Happens(e: Event) | Fires(timer: nat) | Flushes

  const IDLE := Watch(None, false, [], None, {}, 0, 0, [])

  /** The scope the flush works out for the accumulated deletes, and the request that makes. */
  ghost function Ancestor(scopes: seq<Path>): Path {
    if p :| Deepest(p, scopes) then p else []
  }

  ghost function DeleteRequest(scopes: seq<Path>): Request {
    if Ancestor(scopes) == [] then Full else Scoped(Join(Ancestor(scopes)))
  }

  ghost function Requests(w: Watch): seq<Request> {
    (if w.scopes != [] then [DeleteRequest(w.scopes)] else [])
    + (if w.hasAddOrModify && w.windowStart.Some? then [Since(w.windowStart.value)] else [])
  }

  ghost function Next(w: Watch, audio: string -> bool, s: Step): Watch {
    match s
    case Happens(e) =>
      w.(windowStart := if w.windowStart.None? then Some(e.at - SECOND) else w.windowStart,
         hasAddOrModify := w.hasAddOrModify || e.change != Deleted,
         scopes := if e.change == Deleted then w.scopes + [EventScope(e.rel, e.isDirectoryNow, audio)] else w.scopes,
         handle := Some(w.nextTimer),
         armed := (if w.handle.Some? then w.armed - {w.handle.value} else w.armed) + {w.nextTimer},
         nextTimer := w.nextTimer + 1)
    case Fires(timer) => w.(armed := w.armed - {timer}, tasks := w.tasks + 1)
    case Flushes =>
      w.(windowStart := None, hasAddOrModify := false, scopes := [], handle := None,
         tasks := if w.tasks > 0 then w.tasks - 1 else 0, queue := w.queue + Requests(w))
  }

  /**
   A flush asks for no more than it must: at most one request for the deletes, of the deepest
   path at or above them all -- the whole library only when there is none -- and then at most
   one incremental one, from the start of the window, for additions and changes alone.
   */
  lemma FlushIsNarrow(w: Watch, audio: string -> bool, p: Path)
    requires w.scopes != [] ==> Deepest(p, w.scopes)
    ensures var deletes := if w.scopes == [] then [] else if p == [] then [Full] else [Scoped(Join(p))];
            var others := match w.windowStart
                          case Some(start) => if w.hasAddOrModify then [Since(start)] else []
                          case None => [];
            Next(w, audio, Flushes).queue == w.queue + (deletes + others)
    ensures var d := Next(w, audio, Flushes);
            d.windowStart.None? && !d.hasAddOrModify && d.scopes == [] && d.handle.None? && d.armed == w.armed
  {
    if w.scopes != [] {
      DeepestIsUnique(p, Ancestor(w.scopes), w.scopes);
    }
  }

  /** Handling an event opens the window a second before the first one, adds to what waits, and leaves one timer armed for it. */
  lemma EventIsAccumulated(w: Watch, audio: string -> bool, e: Event)
    ensures var d := Next(w, audio, Happens(e));
            && d.windowStart == (if w.windowStart.Some? then w.windowStart else Some(e.at - 1_000_000))
            && (d.hasAddOrModify <==> w.hasAddOrModify || e.change == Added || e.change == Modified)
            && (e.change != Deleted ==> d.scopes == w.scopes)
            && (e.change == Deleted ==>
                  |d.scopes| == |w.scopes| + 1 && d.scopes[..|w.scopes|] == w.scopes
                  && (e.rel.None? ==> d.scopes[|w.scopes|] == [])
                  && (e.rel.Some? ==> d.scopes[|w.scopes|] <= e.rel.value && |e.rel.value| <= |d.scopes[|w.scopes|]| + 1))
            && d.handle == Some(w.nextTimer) && w.nextTimer in d.armed && d.queue == w.queue && d.tasks == w.tasks
            && forall t: nat :: t in d.armed <==> t == w.nextTimer || (t in w.armed && w.handle != Some(t))
  {
  }

  /** The watchdog of one library, its methods interleaved by the event loop. */
  class LibraryWatch {
    var windowStart: Option<Time>
    var hasAddOrModify: bool
    var deleteScopeParts: seq<Path>
    var timerHandle: Option<nat>
    var armed: set<nat>
    var nextTimer: nat
    var tasks: nat
    var queue: seq<Request>

    ghost function State(): Watch
      reads this
    {
      Watch(windowStart, hasAddOrModify, deleteScopeParts, timerHandle, armed, nextTimer, tasks, queue)
    }

    constructor ()
      ensures State() == IDLE
    {
      windowStart, hasAddOrModify, deleteScopeParts, timerHandle := None, false, [], None;
      armed, nextTimer, tasks, queue := {}, 0, 0, [];
    }

    method Enqueue(r: Request)
      modifies this`queue
      ensures queue == old(queue) + [r]
    {
      queue := queue + [r];
    }

    method Reset()
      modifies this`windowStart, this`hasAddOrModify, this`deleteScopeParts, this`timerHandle
      ensures windowStart.None? && !hasAddOrModify && deleteScopeParts == [] && timerHandle.None?
    {
      windowStart := None;
      hasAddOrModify := false;
      deleteScopeParts := [];
      timerHandle := None;
    }

    /** `_schedule_flush`: cancel the known timer, arm a new one. */
    method ScheduleFlush()
      modifies this`armed, this`timerHandle, this`nextTimer
      ensures armed == (if old(timerHandle).Some? then old(armed) - {old(timerHandle).value} else old(armed)) + {old(nextTimer)}
      ensures timerHandle == Some(old(nextTimer)) && nextTimer == old(nextTimer) + 1
    {
      if timerHandle.Some? {
        armed := armed - {timerHandle.value};
      }
      armed := armed + {nextTimer};
      timerHandle := Some(nextTimer);
      nextTimer := nextTimer + 1;
    }

    /** `_classify_and_accumulate`. */
    method ClassifyAndAccumulate(e: Event, audio: string -> bool)
      modifies this
      ensures State() == Next(old(State()), audio, Happens(e))
    {
      if windowStart.None? {
        windowStart := Some(e.at - SECOND);
      }
      if e.change == Added || e.change == Modified {
        hasAddOrModify := true;
      } else {
        deleteScopeParts := deleteScopeParts + [EventScope(e.rel, e.isDirectoryNow, audio)];
      }
      ScheduleFlush();
    }

    /** The timer callback: it only creates the flush task. */
    method OnTimer(timer: nat, ghost audio: string -> bool)
      requires timer in armed
      modifies this`armed, this`tasks
      ensures State() == Next(old(State()), audio, Fires(timer))
    {
      armed := armed - {timer};
      tasks := tasks + 1;
    }

    /** The flush task: `_flush`. */
    method Flush(ghost audio: string -> bool)
      requires tasks > 0
      modifies this
      ensures State() == Next(old(State()), audio, Flushes)
    {
      ghost var before := State();
      tasks := tasks - 1;
      var start := windowStart;
      var scope := DeepestCommonAncestor(deleteScopeParts);
      if deleteScopeParts != [] {
        ghost var p :| Deepest(p, deleteScopeParts) && scope == if p == [] then None else Some(Join(p));
        DeepestIsUnique(p, Ancestor(deleteScopeParts), deleteScopeParts);
      }
      if hasAddOrModify && deleteScopeParts != [] {
        if scope.Some? {
          Enqueue(Scoped(scope.value));
        } else {
          Enqueue(Full);
        }
        if start.Some? {
          Enqueue(Since(start.value));
        }
      } else if deleteScopeParts != [] {
        if scope.Some? {
          Enqueue(Scoped(scope.value));
        } else {
          Enqueue(Full);
        }
      } else if hasAddOrModify && start.Some? {
        Enqueue(Since(start.value));
      }
      assert queue == before.queue + Requests(before);
      Reset();
    }
  }

  // ----- no event is lost ----------------------------------------------------------------------

  ghost function After(audio: string -> bool, run: seq<Step>): Watch {
    if run == [] then IDLE else Next(After(audio, run[..|run| - 1]), audio, run[|run| - 1])
  }

  /** Only armed timers fire, only pending tasks run, and the clock does not run backwards. */
  ghost predicate Possible(audio: string -> bool, run: seq<Step>) {
    run != [] ==>
      var w, s := After(audio, run[..|run| - 1]), run[|run| - 1];
      && Possible(audio, run[..|run| - 1])
      && (s.Fires? ==> s.timer in w.armed)
      && (s.Flushes? ==> w.tasks > 0)
      && (s.Happens? ==> forall i :: 0 <= i < |run| - 1 && run[i].Happens? ==> run[i].e.at <= s.e.at)
  }

  /** The events handled since the last flush. */
  ghost function Waiting(run: seq<Step>): seq<Event> {
    if run == [] || run[|run| - 1].Flushes? then []
    else if run[|run| - 1].Happens? then Waiting(run[..|run| - 1]) + [run[|run| - 1].e]
    else Waiting(run[..|run| - 1])
  }

  /** Something will still flush the accumulator: its own timer is armed, or a task is pending. */
  ghost predicate Alive(w: Watch) {
    (w.handle.Some? && w.handle.value in w.armed) || w.tasks > 0
  }

  ghost predicate Covers(r: Request, audio: string -> bool, e: Event) {
    if e.change == Deleted then
      r.Full? || (r.Scoped? && exists p: Path :: p != [] && r.scope == Join(p) && p <= EventScope(e.rel, e.isDirectoryNow, audio))
    else r.Since? && r.since <= e.at - SECOND
  }

  ghost predicate Covered(queue: seq<Request>, audio: string -> bool, e: Event) {
    exists i :: 0 <= i < |queue| && Covers(queue[i], audio, e)
  }

  /** The accumulator is a summary of the waiting events from which nothing is missing. */
  ghost predicate Summarises(w: Watch, audio: string -> bool, es: seq<Event>) {
    && (es != [] <==> w.windowStart.Some?)
    && (forall i :: 0 <= i < |es| ==>
          && w.windowStart.value <= es[i].at - SECOND
          && (if es[i].change == Deleted then EventScope(es[i].rel, es[i].isDirectoryNow, audio) in w.scopes else w.hasAddOrModify))
    && (w.scopes != [] || w.hasAddOrModify ==> es != [])
  }

  /** What a flush enqueues covers every event it is about to forget. */
  lemma FlushCovers(w: Watch, audio: string -> bool, es: seq<Event>, i: nat)
    requires Summarises(w, audio, es) && i < |es|
    ensures Covered(Requests(w), audio, es[i])
  {
    var e := es[i];
    if e.change == Deleted {
      var scope := EventScope(e.rel, e.isDirectoryNow, audio);
      var p := DeepestExists(w.scopes);
      DeepestIsUnique(p, Ancestor(w.scopes), w.scopes);
      assert Requests(w)[0] == DeleteRequest(w.scopes);
      assert Covers(Requests(w)[0], audio, e);
    } else {
      var last := |Requests(w)| - 1;
      assert Requests(w)[last] == Since(w.windowStart.value);
      assert Covers(Requests(w)[last], audio, e);
    }
  }

  lemma CoverageLasts(queue: seq<Request>, more: seq<Request>, audio: string -> bool, e: Event)
    requires Covered(queue, audio, e) || Covered(more, audio, e)
    ensures Covered(queue + more, audio, e)
  {
    if Covered(queue, audio, e) {
      var i :| 0 <= i < |queue| && Covers(queue[i], audio, e);
      assert (queue + more)[i] == queue[i];
    } else {
      var i :| 0 <= i < |more| && Covers(more[i], audio, e);
      assert (queue + more)[|queue| + i] == more[i];
    }
  }

  /**
   In every interleaving of events, timer firings and flush tasks, each event handled so
   far is covered by an enqueued sync or still waits in the accumulator, and while anything
   waits the window is open and a timer or task is due to flush it.
   */
  lemma {:induction false} NoEventIsLost(audio: string -> bool, run: seq<Step>)
    requires Possible(audio, run)
    ensures var w := After(audio, run);
            && Summarises(w, audio, Waiting(run))
            && (Waiting(run) != [] ==> Alive(w))
            && (forall t :: t in w.armed ==> t < w.nextTimer)
            && (forall e :: e in Waiting(run) ==> exists i :: 0 <= i < |run| && run[i] == Happens(e))
            && (forall i :: 0 <= i < |run| && run[i].Happens? ==> run[i].e in Waiting(run) || Covered(w.queue, audio, run[i].e))
  {
    hide Covered;
    if run != [] {
      var front, s := run[..|run| - 1], run[|run| - 1];
      NoEventIsLost(audio, front);
      var v, w := After(audio, front), After(audio, run);
      assert forall i :: 0 <= i < |front| ==> front[i] == run[i];
      match s
      case Happens(e) =>
        forall x | x in Waiting(run)
          ensures exists i :: 0 <= i < |run| && run[i] == Happens(x)
        {
          if x in Waiting(front) {
            var i :| 0 <= i < |front| && front[i] == Happens(x);
            assert run[i] == Happens(x);
          }
        }
        WindowStaysOpen(audio, front, v, e);
      case Fires(_) =>
      case Flushes =>
        forall i | 0 <= i < |run| && run[i].Happens?
          ensures Covered(w.queue, audio, run[i].e)
        {
          assert run[i] == front[i];
          if run[i].e in Waiting(front) {
            var j :| 0 <= j < |Waiting(front)| && Waiting(front)[j] == run[i].e;
            FlushCovers(v, audio, Waiting(front), j);
          }
          CoverageLasts(v.queue, Requests(v), audio, run[i].e);
        }
    }
  }

  lemma WindowStaysOpen(audio: string -> bool, front: seq<Step>, v: Watch, e: Event)
    requires Summarises(v, audio, Waiting(front))
    requires forall x :: x in Waiting(front) ==> exists i :: 0 <= i < |front| && front[i] == Happens(x)
    requires forall i :: 0 <= i < |front| && front[i].Happens? ==> front[i].e.at <= e.at
    ensures Summarises(Next(v, audio, Happens(e)), audio, Waiting(front) + [e])
  {
    var es := Waiting(front);
    if es != [] {
      assert es[0] in es;
      assert v.windowStart.value <= es[0].at - SECOND;
      var i :| 0 <= i < |front| && front[i] == Happens(es[0]);
      assert front[i].e.at <= e.at;
    }
  }
}
