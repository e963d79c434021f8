/**
 What the file-library pass promises, proved about its specification:
 an item touches only its own slot, a repeated run settles, the branch that trusts the
 listing agrees with the one that re-reads, local edits survive a run, and missing
 detection is exact.
 */
module FileSyncTheorems {
  import opened Prelude
  import opened FileSyncModel

  // ----- items are independent ---------------------------------------------------------

  /** No two rows share a track, and no id in use could be handed out again. */
  ghost predicate WellLinked(db: Db) {
    && (forall j, k :: j in db.rows && k in db.rows && j != k && db.rows[j].trackId.Some? ==>
          db.rows[j].trackId != db.rows[k].trackId)
    && (forall k :: k in db.rows && db.rows[k].trackId.Some? ==> db.rows[k].trackId.value < db.nextId)
    && (forall t :: t in db.tracks ==> t < db.nextId)
    && (forall t :: t in db.members ==> t < db.nextId)
  }

  /** A slot whose track and membership hang on its row's link. */
  ghost predicate Coherent(s: Slot) {
    IdOf(s).None? ==> s.track.None? && !s.member
  }

  /** The ways one visit may move a slot's link: keep it, drop it, or take the new id. */
  ghost predicate Moves(s: Slot, t: Slot, newId: TrackId) {
    && t.row.Some?
    && Coherent(t)
    && (IdOf(t).None?
        || (IdOf(t) == IdOf(s) && (s.track.Some? ==> t.track.Some?) && (s.track.None? ==> t.track.None?) && (s.member ==> t.member))
        || (IdOf(t) == Some(newId) && t.track.Some? && t.member))
  }

  lemma StepMoves(s: Slot, cfg: Config, stored: set<string>, v: Visit, newId: TrackId)
    requires Coherent(s)
    ensures var t := Step(s, cfg, stored, v, newId).slot;
            t == s || Moves(s, t, newId)
  {
  }

  lemma PutGet(db: Db, k: Key, t: Slot)
    requires WellLinked(db) && Moves(Get(db, k), t, db.nextId)
    ensures var d := Put(db, k, t);
            && WellLinked(d) && d.nextId >= db.nextId
            && Get(d, k) == t
            && forall j :: j != k ==> Get(d, j) == Get(db, j)
  {
    PutKeepsLinks(db, k, t);
    PutReadsBack(db, k, t);
    hide Put, Get, WellLinked, Moves;
    forall j | j != k ensures Get(Put(db, k, t), j) == Get(db, j) {
      PutElsewhere(db, k, t, j);
    }
  }

  lemma PutKeepsLinks(db: Db, k: Key, t: Slot)
    requires WellLinked(db) && Moves(Get(db, k), t, db.nextId)
    ensures WellLinked(Put(db, k, t)) && Put(db, k, t).nextId >= db.nextId
  {
  }

  lemma PutReadsBack(db: Db, k: Key, t: Slot)
    requires WellLinked(db) && Moves(Get(db, k), t, db.nextId)
    ensures Get(Put(db, k, t), k) == t
  {
  }

  lemma PutElsewhere(db: Db, k: Key, t: Slot, j: Key)
    requires WellLinked(db) && Moves(Get(db, k), t, db.nextId) && j != k
    ensures Get(Put(db, k, t), j) == Get(db, j)
  {
  }

  lemma PutBack(db: Db, k: Key)
    requires WellLinked(db) && k in db.rows
    ensures Put(db, k, Get(db, k)) == db
  {
    assert db.rows[k := db.rows[k]] == db.rows;
    var id := db.rows[k].trackId;
    assert id.Some? && id.value in db.tracks ==> db.tracks[id.value := db.tracks[id.value]] == db.tracks;
  }

  /**
   Processing an item changes its own row, the track that row links to and that track's
   membership, exactly as the per-item machine says, and nothing any other row can see.
   */
  lemma ItemTouchesOnlyItsSlot(db: Db, c: Counters, cfg: Config, stored: set<string>, v: Visit)
    requires WellLinked(db)
    ensures var d := ProcessItem(db, c, cfg, stored, v).db;
            var key := v.offer.item.key;
            && WellLinked(d) && d.nextId >= db.nextId
            && Get(d, key) == Step(Get(db, key), cfg, stored, v, db.nextId).slot
            && forall j :: j != key ==> Get(d, j) == Get(db, j)
  {
    var key := v.offer.item.key;
    var s := Get(db, key);
    var t := Step(s, cfg, stored, v, db.nextId).slot;
    StepMoves(s, cfg, stored, v, db.nextId);
    if t == s && s.row.Some? {
      PutBack(db, key);
    } else if t != s {
      PutGet(db, key, t);
    }
  }

  ghost predicate DistinctKeys(vs: seq<Visit>) {
    forall i, j :: 0 <= i < j < |vs| ==> vs[i].offer.item.key != vs[j].offer.item.key
  }

  ghost predicate Listed(vs: seq<Visit>, k: Key) {
    exists i :: 0 <= i < |vs| && vs[i].offer.item.key == k
  }

  /** The id the i-th visit of a pass would hand out. */
  ghost function NextIdAt(db: Db, cfg: Config, stored: set<string>, vs: seq<Visit>, i: nat): TrackId
    requires i < |vs|
  {
    ProcessItems(db, ZERO, cfg, stored, vs[..i]).db.nextId
  }

  lemma {:induction false} TablesIgnoreCounters(db: Db, c: Counters, cfg: Config, stored: set<string>, vs: seq<Visit>)
    ensures ProcessItems(db, c, cfg, stored, vs).db == ProcessItems(db, ZERO, cfg, stored, vs).db
  {
    if vs != [] {
      TablesIgnoreCounters(db, c, cfg, stored, vs[..|vs| - 1]);
    }
  }

  /** A pass over distinct keys acts on every listed slot once, from the state before the pass. */
  lemma {:induction false} PassActsSlotwise(db: Db, c: Counters, cfg: Config, stored: set<string>, vs: seq<Visit>)
    requires WellLinked(db) && DistinctKeys(vs)
    ensures var d := ProcessItems(db, c, cfg, stored, vs).db;
            && WellLinked(d)
            && (forall k :: !Listed(vs, k) ==> Get(d, k) == Get(db, k))
            && (forall i :: 0 <= i < |vs| ==>
                 var k := vs[i].offer.item.key;
                 Get(d, k) == Step(Get(db, k), cfg, stored, vs[i], NextIdAt(db, cfg, stored, vs, i)).slot)
  {
    hide Step, Put;
    if vs != [] {
      var n := |vs| - 1;
      var front := vs[..n];
      PassActsSlotwise(db, c, cfg, stored, front);
      var r := ProcessItems(db, c, cfg, stored, front);
      TablesIgnoreCounters(db, c, cfg, stored, front);
      ItemTouchesOnlyItsSlot(r.db, r.counters, cfg, stored, vs[n]);
      var d := ProcessItems(db, c, cfg, stored, vs).db;
      var key := vs[n].offer.item.key;
      assert !Listed(front, key);
      forall k | !Listed(vs, k)
        ensures Get(d, k) == Get(db, k)
      {
        assert key != k;
        assert !Listed(front, k) by {
          forall i | 0 <= i < |front| ensures front[i].offer.item.key != k {
            assert front[i] == vs[i];
          }
        }
      }
      forall i | 0 <= i < |vs|
        ensures Get(d, vs[i].offer.item.key)
             == Step(Get(db, vs[i].offer.item.key), cfg, stored, vs[i], NextIdAt(db, cfg, stored, vs, i)).slot
      {
        if i < n {
          assert front[i] == vs[i] && front[..i] == vs[..i];
          assert vs[i].offer.item.key != key;
        }
      }
    }
  }

  // ----- a whole run, slot by slot -------------------------------------------------------

  /** The visit that lists `k`, if any. */
  ghost function VisitOf(vs: seq<Visit>, k: Key): (v: Option<Visit>)
    ensures v.Some? <==> Listed(vs, k)
    ensures v.Some? ==> exists i :: 0 <= i < |vs| && vs[i] == v.value && v.value.offer.item.key == k
  {
    if vs == [] then None
    else if vs[|vs| - 1].offer.item.key == k then Some(vs[|vs| - 1])
    else
      assert Listed(vs[..|vs| - 1], k) <==> Listed(vs, k) by {
        assert forall i :: 0 <= i < |vs| - 1 ==> vs[..|vs| - 1][i] == vs[i];
      }
      VisitOf(vs[..|vs| - 1], k)
  }

  function MissingSlot(s: Slot, k: Key, started: Time, scope: Option<string>): Slot {
    if s.row.Some? && GoesMissing(s.row.value, k, started, scope)
    then s.(row := Some(s.row.value.(state := Missing, syncError := None)))
    else s
  }

  function Visited(s: Slot, cfg: Config, stored: set<string>, v: Option<Visit>, newId: TrackId): Slot {
    if v.Some? then Step(s, cfg, stored, v.value, newId).slot else s
  }

  function SlotRun(s: Slot, k: Key, cfg: Config, stored: set<string>, v: Option<Visit>, newId: TrackId,
                   started: Time, incremental: bool, scope: Option<string>): Slot {
    var t := Visited(s, cfg, stored, v, newId);
    if cfg.listItems && !incremental then MissingSlot(t, k, started, scope) else t
  }

  lemma MarkMissingActsSlotwise(r: Run, started: Time, scope: Option<string>)
    requires WellLinked(r.db)
    ensures var d := MarkMissing(r, started, scope).db;
            && WellLinked(d) && d.nextId == r.db.nextId
            && forall k :: Get(d, k) == MissingSlot(Get(r.db, k), k, started, scope)
  {
  }

  /** The id a pass would hand out to `k`, were it to create a track for it. */
  ghost function NewIdFor(db: Db, cfg: Config, stored: set<string>, vs: seq<Visit>, k: Key): (id: TrackId)
    ensures Listed(vs, k) ==> exists i :: 0 <= i < |vs| && vs[i].offer.item.key == k && id == NextIdAt(db, cfg, stored, vs, i)
  {
    if Listed(vs, k) then
      var i :| 0 <= i < |vs| && vs[i].offer.item.key == k;
      NextIdAt(db, cfg, stored, vs, i)
    else 0
  }

  /** A run does to every slot, listed or not, exactly what the per-slot machine says. */
  lemma RunActsSlotwise(db: Db, cfg: Config, stored: set<string>, vs: seq<Visit>,
                        started: Time, incremental: bool, scope: Option<string>)
    requires WellLinked(db) && DistinctKeys(vs)
    ensures var d := SyncRun(db, cfg, stored, vs, started, incremental, scope).db;
            && WellLinked(d)
            && forall k :: Get(d, k) == SlotRun(Get(db, k), k, cfg, stored, VisitOf(vs, k), NewIdFor(db, cfg, stored, vs, k),
                                                started, incremental, scope)
  {
    hide Step, Put;
    PassActsSlotwise(db, ZERO, cfg, stored, vs);
    var r := ProcessItems(db, ZERO, cfg, stored, vs);
    MarkMissingActsSlotwise(r, started, scope);
    forall k
      ensures Get(r.db, k) == Visited(Get(db, k), cfg, stored, VisitOf(vs, k), NewIdFor(db, cfg, stored, vs, k))
    {
    }
  }

  // ----- convergence ---------------------------------------------------------------------

  function Timeless(row: Row): Row {
    row.(syncError := None, lastSeen := None, lastSynced := None)
  }

  function TimelessTrack(t: Track): Track {
    t.(syncedAt := None)
  }

  /** Equal up to timestamps and the transient error text. */
  ghost predicate SameSlot(a: Slot, b: Slot) {
    && (a.row.Some? <==> b.row.Some?) && (a.row.Some? ==> Timeless(a.row.value) == Timeless(b.row.value))
    && (a.track.Some? <==> b.track.Some?) && (a.track.Some? ==> TimelessTrack(a.track.value) == TimelessTrack(b.track.value))
    && a.member == b.member
  }

  /**
   If the listing alone gets an item shadowed (its stored hash has a stored copy), then a
   later visit re-hashes it: that reading must agree with the stored hash.
   */
  predicate Settles(s: Slot, cfg: Config, stored: set<string>, o: Offer) {
    !o.raises && FastGuard(cfg, RowOr(s), o.item) && RowOr(s).sha.value in stored ==>
      ShaOf(cfg, o) == RowOr(s).sha
  }

  /** The second visit repeats the first: same lasting columns, nothing created or updated. */
  ghost predicate Repeats(a: Slot, b: Stepped) {
    SameSlot(a, b.slot) && b.delta.created == 0 && b.delta.updated == 0
  }

  lemma AfterCommit(s: Slot, cfg: Config, stored: set<string>, o: Offer, sha: string,
                    at: Instants, w: Visit, id1: TrackId, id2: TrackId)
    requires Coherent(s) && o == w.offer && !o.raises && o.meta.Some? && ShaOf(cfg, o) == Some(sha) && sha !in stored
    ensures var a := Commit(s, RowOr(s), cfg, o, sha, at, id1).slot; Repeats(a, Step(a, cfg, stored, w, id2))
  {
    var a := Commit(s, RowOr(s), cfg, o, sha, at, id1).slot;
    var row := a.row.value;
    assert row.sha == Some(sha) && a.track.Some?;
    if !FastGuard(cfg, row, o.item) {
      assert Step(a, cfg, stored, w, id2) == Commit(a, row, cfg, o, sha, w.at, id2);
      var d := Decide(a.track, row.fingerprint, o.meta.value.core);
      assert d == Unchanged || d == ConflictWriteBack;
    }
  }

  lemma AfterShadow(s: Slot, row: Row, cfg: Config, stored: set<string>, o: Offer, sha: string,
                    at: Instants, w: Visit, id2: TrackId)
    requires Coherent(s) && o == w.offer && !o.raises && sha in stored
    requires row == RowOr(s) && (row.state == Tombstoned ==> cfg.includeTombstones)
    ensures var a := Shadow(s, row, o.item, sha, at).slot;
            && (ShaOf(cfg, o) == Some(sha) ==> Repeats(a, Step(a, cfg, stored, w, id2)))
            && (ShaOf(cfg, o) != Some(sha) ==> !SameSlot(a, Step(a, cfg, stored, w, id2).slot))
  {
    var a := Shadow(s, row, o.item, sha, at).slot;
    assert a.row.value.state == Shadowed;
    assert Step(a, cfg, stored, w, id2) == Slow(a, a.row.value, cfg, stored, o, w.at, id2);
  }

  lemma SecondVisitSettles(s: Slot, cfg: Config, stored: set<string>, v: Visit, w: Visit, id1: TrackId, id2: TrackId)
    requires Coherent(s) && v.offer == w.offer
    ensures var a := Step(s, cfg, stored, v, id1).slot;
            var b := Step(a, cfg, stored, w, id2);
            && (Settles(s, cfg, stored, v.offer) ==> Repeats(a, b))
            && (!Settles(s, cfg, stored, v.offer) ==> !SameSlot(a, b.slot))
  {
    var o, row := v.offer, RowOr(s);
    var a := Step(s, cfg, stored, v, id1).slot;
    if o.raises || (row.state == Tombstoned && !cfg.includeTombstones) {
    } else if FastGuard(cfg, row, o.item) && row.sha.value in stored {
      AfterShadow(s, row, cfg, stored, o, row.sha.value, v.at, w, id2);
    } else if FastGuard(cfg, row, o.item) && s.track.Some? {
      assert FastGuard(cfg, RowOr(a), o.item);
    } else {
      match ShaOf(cfg, o)
      case None =>
      case Some(sha) =>
        if sha in stored {
          hide Commit;
          AfterShadow(s, row, cfg, stored, o, sha, v.at, w, id2);
        } else if o.meta.Some? {
          hide Fast, Shadow, Failed, Commit, FastGuard;
          AfterCommit(s, cfg, stored, o, sha, v.at, w, id1, id2);
          assert a == Commit(s, row, cfg, o, sha, v.at, id1).slot;
        }
    }
  }

  /** A visit that creates and updates nothing, whatever id it would hand out. */
  ghost predicate Idle(s: Slot, cfg: Config, stored: set<string>, v: Visit) {
    forall id :: var b := Step(s, cfg, stored, v, id); b.delta.created == 0 && b.delta.updated == 0
  }

  lemma NoVisitMarksMissing(s: Slot, cfg: Config, stored: set<string>, v: Visit, id: TrackId)
    ensures Step(s, cfg, stored, v, id).delta.missing == 0
  {
  }

  lemma {:induction false} PassCountsNothing(db: Db, c: Counters, cfg: Config, stored: set<string>, vs: seq<Visit>)
    requires WellLinked(db) && DistinctKeys(vs)
    requires forall i :: 0 <= i < |vs| ==> Idle(Get(db, vs[i].offer.item.key), cfg, stored, vs[i])
    requires c.missing == 0
    ensures var r := ProcessItems(db, c, cfg, stored, vs).counters;
            r.created == c.created && r.updated == c.updated && r.missing == 0
  {
    hide Step, Put;
    if vs != [] {
      var n := |vs| - 1;
      var front := vs[..n];
      assert forall i :: 0 <= i < n ==> front[i] == vs[i];
      PassCountsNothing(db, c, cfg, stored, front);
      PassActsSlotwise(db, c, cfg, stored, front);
      var r := ProcessItems(db, c, cfg, stored, front);
      var key := vs[n].offer.item.key;
      assert !Listed(front, key);
      assert Idle(Get(r.db, key), cfg, stored, vs[n]);
      NoVisitMarksMissing(Get(r.db, key), cfg, stored, vs[n], r.db.nextId);
    }
  }

  /** The same items with the same contents, listed in the same order at any later time. */
  ghost predicate SameOffers(vs: seq<Visit>, ws: seq<Visit>) {
    |vs| == |ws| && forall i :: 0 <= i < |vs| ==> vs[i].offer == ws[i].offer
  }

  /** Everything recorded before the run started is older than its start. */
  ghost predicate Before(db: Db, started: Time) {
    forall k :: k in db.rows && db.rows[k].lastSeen.Some? ==> db.rows[k].lastSeen.value < started
  }

  ghost predicate During(vs: seq<Visit>, started: Time) {
    forall i :: 0 <= i < |vs| ==> vs[i].at.seen >= started
  }

  lemma SameOffersSameVisits(vs: seq<Visit>, ws: seq<Visit>, k: Key)
    requires DistinctKeys(vs) && SameOffers(vs, ws)
    ensures VisitOf(vs, k).Some? <==> VisitOf(ws, k).Some?
    ensures VisitOf(vs, k).Some? ==> VisitOf(vs, k).value.offer == VisitOf(ws, k).value.offer
  {
    if Listed(vs, k) {
      var i :| 0 <= i < |vs| && vs[i].offer.item.key == k;
      assert ws[i].offer.item.key == k;
    }
    if Listed(ws, k) {
      var i :| 0 <= i < |ws| && ws[i].offer.item.key == k;
      assert vs[i].offer.item.key == k;
    }
  }

  /** A visit stamps every active slot it acts on, unless it raises. */
  lemma VisitStamps(s: Slot, cfg: Config, stored: set<string>, v: Visit, id: TrackId)
    ensures var t := Step(s, cfg, stored, v, id).slot;
            v.offer.raises || (t.row.Some? && (t.row.value.state == Tombstoned || t.row.value.lastSeen == Some(v.at.seen)))
    ensures v.offer.raises ==> Step(s, cfg, stored, v, id).slot == s
  {
  }

  /** One slot through two runs. */
  lemma SlotRepeats(s: Slot, k: Key, cfg: Config, stored: set<string>, v: Option<Visit>, w: Option<Visit>,
                    id1: TrackId, id2: TrackId, started: Time, restarted: Time, incremental: bool, scope: Option<string>)
    requires Coherent(s) && (v.Some? <==> w.Some?) && (v.Some? ==> v.value.offer == w.value.offer)
    requires started <= restarted
    requires s.row.Some? && s.row.value.lastSeen.Some? ==> s.row.value.lastSeen.value < started
    requires v.Some? ==> v.value.at.seen >= started && w.value.at.seen >= restarted
    ensures var a := SlotRun(s, k, cfg, stored, v, id1, started, incremental, scope);
            var b := Visited(a, cfg, stored, w, id2);
            var settles := v.Some? ==> Settles(s, cfg, stored, v.value.offer);
            && (settles ==> (w.Some? ==> Repeats(a, Step(a, cfg, stored, w.value, id2)))
                            && SameSlot(a, b)
                            && (cfg.listItems && !incremental ==> b == MissingSlot(b, k, restarted, scope)))
            && (!settles ==> !SameSlot(a, SlotRun(a, k, cfg, stored, w, id2, restarted, incremental, scope)))
  {
    if v.Some? {
      VisitStamps(s, cfg, stored, v.value, id1);
      var a := SlotRun(s, k, cfg, stored, v, id1, started, incremental, scope);
      VisitStamps(a, cfg, stored, w.value, id2);
      SecondVisitSettles(s, cfg, stored, v.value, w.value, id1, id2);
    }
  }

  lemma SlotsOfTablesAreCoherent(db: Db, k: Key)
    ensures Coherent(Get(db, k))
  {
  }

  ghost predicate AllSettle(db: Db, cfg: Config, stored: set<string>, vs: seq<Visit>) {
    forall i :: 0 <= i < |vs| ==> Settles(Get(db, vs[i].offer.item.key), cfg, stored, vs[i].offer)
  }

  lemma NothingMissing(r: Run, started: Time, scope: Option<string>)
    requires forall k :: Get(r.db, k) == MissingSlot(Get(r.db, k), k, started, scope)
    ensures MarkMissing(r, started, scope).counters.missing == r.counters.missing
  {
    forall k | k in r.db.rows
      ensures !GoesMissing(r.db.rows[k], k, started, scope)
    {
      assert Get(r.db, k) == MissingSlot(Get(r.db, k), k, started, scope);
    }
    assert MissingKeys(r.db, started, scope) == {};
  }

  /** Whether the slot under `k` settles, and what a second visit of it then does. */
  lemma KeyTwice(db: Db, cfg: Config, stored: set<string>, vs: seq<Visit>, ws: seq<Visit>, k: Key, id: TrackId,
                 started: Time, restarted: Time, incremental: bool, scope: Option<string>)
    requires WellLinked(db) && DistinctKeys(vs) && SameOffers(vs, ws)
    requires Before(db, started) && started <= restarted && During(vs, started) && During(ws, restarted)
    ensures var a := Get(SyncRun(db, cfg, stored, vs, started, incremental, scope).db, k);
            var v, w := VisitOf(vs, k), VisitOf(ws, k);
            var b := Visited(a, cfg, stored, w, id);
            var settles := v.Some? ==> Settles(Get(db, k), cfg, stored, v.value.offer);
            && (settles ==> (w.Some? ==> Repeats(a, Step(a, cfg, stored, w.value, id)))
                            && SameSlot(a, b)
                            && (cfg.listItems && !incremental ==> b == MissingSlot(b, k, restarted, scope)))
            && (!settles ==> !SameSlot(a, SlotRun(a, k, cfg, stored, w, id, restarted, incremental, scope)))
  {
    hide Step, Put, SameSlot, Settles, SyncRun;
    RunActsSlotwise(db, cfg, stored, vs, started, incremental, scope);
    SameOffersSameVisits(vs, ws, k);
    SlotsOfTablesAreCoherent(db, k);
    SlotRepeats(Get(db, k), k, cfg, stored, VisitOf(vs, k), VisitOf(ws, k), NewIdFor(db, cfg, stored, vs, k), id,
                started, restarted, incremental, scope);
  }

  lemma OnlyVisitOf(vs: seq<Visit>, i: nat)
    requires DistinctKeys(vs) && i < |vs|
    ensures VisitOf(vs, vs[i].offer.item.key) == Some(vs[i])
  {
    assert Listed(vs, vs[i].offer.item.key);
  }

  /** Nothing is created, updated or lost, and every slot is as it was. */
  ghost predicate SettledRun(once: Run, twice: Run) {
    && twice.counters.created == 0 && twice.counters.updated == 0 && twice.counters.missing == 0
    && forall k :: SameSlot(Get(once.db, k), Get(twice.db, k))
  }

  lemma SameOffersKeepKeys(vs: seq<Visit>, ws: seq<Visit>)
    requires DistinctKeys(vs) && SameOffers(vs, ws)
    ensures DistinctKeys(ws)
  {
  }

  lemma SyncRunEnds(db: Db, cfg: Config, stored: set<string>, vs: seq<Visit>, started: Time, incremental: bool,
      scope: Option<string>)
    ensures var p := ProcessItems(db, ZERO, cfg, stored, vs);
            SyncRun(db, cfg, stored, vs, started, incremental, scope) ==
              if cfg.listItems && !incremental then MarkMissing(p, started, scope) else p
  {
  }

  /** Any key's slot after a settled run, visited again or not. */
  lemma SettledKey(db: Db, cfg: Config, stored: set<string>, vs: seq<Visit>, ws: seq<Visit>, k: Key, id: TrackId,
                   started: Time, restarted: Time, incremental: bool, scope: Option<string>)
    requires WellLinked(db) && DistinctKeys(vs) && SameOffers(vs, ws)
    requires Before(db, started) && started <= restarted && During(vs, started) && During(ws, restarted)
    requires AllSettle(db, cfg, stored, vs)
    ensures var a := Get(SyncRun(db, cfg, stored, vs, started, incremental, scope).db, k);
            var w := VisitOf(ws, k);
            var b := Visited(a, cfg, stored, w, id);
            && (w.Some? ==> Repeats(a, Step(a, cfg, stored, w.value, id))) && SameSlot(a, b)
            && (cfg.listItems && !incremental ==> b == MissingSlot(b, k, restarted, scope))
  {
    hide Step, Put, SameSlot, Settles, SyncRun, Get;
    KeyTwice(db, cfg, stored, vs, ws, k, id, started, restarted, incremental, scope);
    var v := VisitOf(vs, k);
    assert v.Some? ==> v.value in vs && v.value.offer.item.key == k;
  }

  lemma SettledInputsSettle(db: Db, cfg: Config, stored: set<string>, vs: seq<Visit>, ws: seq<Visit>,
                            started: Time, restarted: Time, incremental: bool, scope: Option<string>)
    requires WellLinked(db) && DistinctKeys(vs) && SameOffers(vs, ws)
    requires Before(db, started) && started <= restarted && During(vs, started) && During(ws, restarted)
    requires AllSettle(db, cfg, stored, vs)
    ensures var once := SyncRun(db, cfg, stored, vs, started, incremental, scope);
            SettledRun(once, SyncRun(once.db, cfg, stored, ws, restarted, incremental, scope))
  {
    hide Step, Put, SameSlot, Settles, Get, NewIdFor, SyncRun, AllSettle, Before, During, SameOffers, DistinctKeys,
        MissingSlot;
    var once := SyncRun(db, cfg, stored, vs, started, incremental, scope);
    RunActsSlotwise(db, cfg, stored, vs, started, incremental, scope);
    SameOffersKeepKeys(vs, ws);
    forall i | 0 <= i < |ws|
      ensures Idle(Get(once.db, ws[i].offer.item.key), cfg, stored, ws[i])
    {
      OnlyVisitOf(ws, i);
      forall id { SettledKey(db, cfg, stored, vs, ws, ws[i].offer.item.key, id, started, restarted, incremental, scope); }
    }
    PassCountsNothing(once.db, ZERO, cfg, stored, ws);
    PassActsSlotwise(once.db, ZERO, cfg, stored, ws);
    var p := ProcessItems(once.db, ZERO, cfg, stored, ws);
    forall k
      ensures SameSlot(Get(once.db, k), Get(p.db, k))
      ensures cfg.listItems && !incremental ==> Get(p.db, k) == MissingSlot(Get(p.db, k), k, restarted, scope)
    {
      SettledKey(db, cfg, stored, vs, ws, k, NewIdFor(once.db, cfg, stored, ws, k), started, restarted, incremental, scope);
    }
    SyncRunEnds(once.db, cfg, stored, ws, restarted, incremental, scope);
    if cfg.listItems && !incremental {
      NothingMissing(p, restarted, scope);
      MarkMissingActsSlotwise(p, restarted, scope);
    }
  }

  /**
   Convergence.  Running the same listing again, later and with the same stored files,
   creates, updates and loses nothing and leaves every row, track and membership as the
   first run did -- exactly when every item's reading settles.
   */
  lemma RepeatedRunSettles(db: Db, cfg: Config, stored: set<string>, vs: seq<Visit>, ws: seq<Visit>,
                           started: Time, restarted: Time, incremental: bool, scope: Option<string>)
    requires WellLinked(db) && DistinctKeys(vs) && SameOffers(vs, ws)
    requires Before(db, started) && started <= restarted && During(vs, started) && During(ws, restarted)
    ensures var once := SyncRun(db, cfg, stored, vs, started, incremental, scope);
            AllSettle(db, cfg, stored, vs) <==>
              SettledRun(once, SyncRun(once.db, cfg, stored, ws, restarted, incremental, scope))
  {
    hide Step, Put, SameSlot, Settles, Get, NewIdFor, SyncRun, SlotRun;
    if AllSettle(db, cfg, stored, vs) {
      SettledInputsSettle(db, cfg, stored, vs, ws, started, restarted, incremental, scope);
    } else {
      var once := SyncRun(db, cfg, stored, vs, started, incremental, scope);
      var i :| 0 <= i < |vs| && !Settles(Get(db, vs[i].offer.item.key), cfg, stored, vs[i].offer);
      var k := vs[i].offer.item.key;
      OnlyVisitOf(vs, i);
      RunActsSlotwise(db, cfg, stored, vs, started, incremental, scope);
      RunActsSlotwise(once.db, cfg, stored, ws, restarted, incremental, scope);
      KeyTwice(db, cfg, stored, vs, ws, k, NewIdFor(once.db, cfg, stored, ws, k), started, restarted, incremental, scope);
    }
  }
}
