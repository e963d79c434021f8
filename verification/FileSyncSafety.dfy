/**
 Whole-run safety of the file-library pass: local edits survive, conflicts stay raised,
 missing detection is exact, and a scoped run is the full run restricted to its scope.
 */
module FileSyncSafety {
  import opened Prelude
  import opened FileSyncModel
  import opened FileSyncTheorems

  // ----- local edits ---------------------------------------------------------------------

  lemma VisitKeepsEditedFields(s: Slot, cfg: Config, stored: set<string>, v: Visit, newId: TrackId)
    requires s.track.Some? && LocalEdited(s.track.value)
    ensures var t := Step(s, cfg, stored, v, newId).slot.track;
            t.Some? ==> t.value.fields == s.track.value.fields && t.value.editedAt == s.track.value.editedAt
  {
  }

  lemma ItemKeepsEditedFields(db: Db, c: Counters, cfg: Config, stored: set<string>, v: Visit, t: TrackId)
    requires WellLinked(db) && t in db.tracks
    requires IdOf(Get(db, v.offer.item.key)) == Some(t) ==> LocalEdited(db.tracks[t])
    ensures var d := ProcessItem(db, c, cfg, stored, v).db;
            && t in d.tracks && d.tracks[t].fields == db.tracks[t].fields
            && (IdOf(Get(db, v.offer.item.key)) != Some(t) ==> d.tracks[t] == db.tracks[t])
  {
    var s := Get(db, v.offer.item.key);
    var r := Step(s, cfg, stored, v, db.nextId).slot;
    StepMoves(s, cfg, stored, v, db.nextId);
    if IdOf(s) == Some(t) {
      VisitKeepsEditedFields(s, cfg, stored, v, db.nextId);
    }
    hide Step;
  }

  /** A pass leaves every track alone that no listed row links to, and keeps edited fields. */
  lemma {:induction false} PassKeepsEditedFields(db: Db, c: Counters, cfg: Config, stored: set<string>,
      vs: seq<Visit>, t: TrackId)
    requires WellLinked(db) && DistinctKeys(vs) && t in db.tracks && LocalEdited(db.tracks[t])
    ensures var d := ProcessItems(db, c, cfg, stored, vs).db;
            && t in d.tracks && d.tracks[t].fields == db.tracks[t].fields
            && (d.tracks[t] != db.tracks[t] ==> exists i :: 0 <= i < |vs| && IdOf(Get(db, vs[i].offer.item.key)) == Some(t))
  {
    hide Step, Put;
    if vs != [] {
      var n := |vs| - 1;
      var front := vs[..n];
      assert forall i :: 0 <= i < n ==> front[i] == vs[i];
      PassKeepsEditedFields(db, c, cfg, stored, front, t);
      PassActsSlotwise(db, c, cfg, stored, front);
      var r := ProcessItems(db, c, cfg, stored, front);
      var key := vs[n].offer.item.key;
      assert !Listed(front, key);
      ItemKeepsEditedFields(r.db, r.counters, cfg, stored, vs[n], t);
    }
  }

  /** No run changes a metadata field of a track whose local edit is newer than its last sync. */
  lemma LocalEditsSurviveARun(db: Db, cfg: Config, stored: set<string>, vs: seq<Visit>,
                              started: Time, incremental: bool, scope: Option<string>, t: TrackId)
    requires WellLinked(db) && DistinctKeys(vs) && t in db.tracks && LocalEdited(db.tracks[t])
    ensures var d := SyncRun(db, cfg, stored, vs, started, incremental, scope).db;
            t in d.tracks && d.tracks[t].fields == db.tracks[t].fields
  {
    PassKeepsEditedFields(db, ZERO, cfg, stored, vs, t);
  }

  /** What run after run does to one slot: visits it, with whatever the provider then lists, or sweeps for missing items. */
  datatype Turn = Visiting(v: Visit) | Sweeping(started: Time, scope: Option<string>)

  function Turns(s: Slot, k: Key, cfg: Config, stored: set<string>, ts: seq<Turn>, newId: TrackId): Slot {
    if ts == [] then s
    else
      var before := Turns(s, k, cfg, stored, ts[..|ts| - 1], newId);
      match ts[|ts| - 1]
      case Visiting(v) => Step(before, cfg, stored, v, newId).slot
      case Sweeping(started, scope) => MissingSlot(before, k, started, scope)
  }

  /** Nothing the library already stores has this hash. */
  predicate NotStored(sha: Option<string>, stored: set<string>) { sha.Some? ==> sha.value !in stored }

  /** Row and track of an edited item, as visits in conflict leave them. */
  predicate Unresolved(s: Slot, t: Slot, stored: set<string>)
    requires s.row.Some?
  {
    && t.track == s.track && t.member == s.member && t.row.Some?
    && t.row.value.fingerprint == s.row.value.fingerprint && t.row.value.trackId == s.row.value.trackId
    && NotStored(t.row.value.sha, stored)
  }

  /** The visit gets past the listing and reads hash and tags. */
  predicate ReadsTags(row: Row, cfg: Config, o: Offer) {
    && !o.raises && (row.state != Tombstoned || cfg.includeTombstones) && !FastGuard(cfg, row, o.item)
    && ShaOf(cfg, o).Some? && o.meta.Some?
  }

  lemma ConflictingVisit(s: Slot, t: Slot, cfg: Config, stored: set<string>, v: Visit, newId: TrackId)
    requires s.row.Some? && s.track.Some? && LocalEdited(s.track.value) && s.row.value.trackId.Some?
    requires Unresolved(s, t, stored) && NotStored(ShaOf(cfg, v.offer), stored)
    requires v.offer.meta.Some? ==> s.row.value.fingerprint != Some(v.offer.meta.value.core)
    ensures var u := Step(t, cfg, stored, v, newId).slot;
            && Unresolved(s, u, stored)
            && (ReadsTags(t.row.value, cfg, v.offer) ==>
                  u.row.value.state == Active && u.row.value.syncError == Some(Conflicting)
                  && u.row.value.writeBackPending == cfg.writeTags)
  {
  }

  lemma SweepingKeepsConflict(s: Slot, t: Slot, k: Key, stored: set<string>, started: Time, scope: Option<string>)
    requires s.row.Some? && Unresolved(s, t, stored)
    ensures Unresolved(s, MissingSlot(t, k, started, scope), stored)
  {
  }

  /** The tags a visit offers differ from the fingerprint, and its hash is not stored. */
  predicate Conflicts(s: Slot, cfg: Config, stored: set<string>, v: Visit)
    requires s.row.Some?
  {
    && NotStored(ShaOf(cfg, v.offer), stored)
    && (v.offer.meta.Some? ==> s.row.value.fingerprint != Some(v.offer.meta.value.core))
  }

  /**
   A conflict is never resolved by syncing: however often an edited item is visited while the
   provider's tags differ from the stored fingerprint, and whatever sweeps mark its row
   missing in between, the track stays as it was, the fingerprint is not advanced, and every
   visit that reads the tags raises the conflict again.
   */
  lemma {:induction false} ConflictStaysRaised(s: Slot, k: Key, cfg: Config, stored: set<string>, ts: seq<Turn>, newId: TrackId)
    requires s.row.Some? && s.track.Some? && LocalEdited(s.track.value) && s.row.value.trackId.Some?
    requires NotStored(s.row.value.sha, stored)
    requires forall i :: 0 <= i < |ts| && ts[i].Visiting? ==> Conflicts(s, cfg, stored, ts[i].v)
    ensures var t := Turns(s, k, cfg, stored, ts, newId);
            && Unresolved(s, t, stored)
            && (ts != [] && ts[|ts| - 1].Visiting? ==>
                  var v, u := ts[|ts| - 1].v, Turns(s, k, cfg, stored, ts[..|ts| - 1], newId);
                  u.row.Some? &&
                  (ReadsTags(u.row.value, cfg, v.offer) ==>
                     t.row.value.state == Active && t.row.value.syncError == Some(Conflicting)
                     && t.row.value.writeBackPending == cfg.writeTags))
  {
    hide Step, ShaOf, ReadsTags, NotStored, MissingSlot;
    if ts != [] {
      var front, before := ts[..|ts| - 1], Turns(s, k, cfg, stored, ts[..|ts| - 1], newId);
      assert forall i :: 0 <= i < |front| ==> front[i] == ts[i];
      ConflictStaysRaised(s, k, cfg, stored, front, newId);
      match ts[|ts| - 1]
      case Visiting(v) => ConflictingVisit(s, before, cfg, stored, v, newId);
      case Sweeping(started, scope) => SweepingKeepsConflict(s, before, k, stored, started, scope);
    }
  }

  // ----- missing detection -----------------------------------------------------------------

  /** Listed, and the visit got as far as acting on it. */
  ghost predicate Reached(vs: seq<Visit>, k: Key) {
    VisitOf(vs, k).Some? && !VisitOf(vs, k).value.offer.raises
  }

  /** The rows a run newly marks missing. */
  ghost predicate NewlyMissing(db: Db, d: Db, k: Key) {
    k in db.rows && k in d.rows && db.rows[k].state != Missing && d.rows[k].state == Missing
  }

  lemma VisitNeverMarksMissing(s: Slot, cfg: Config, stored: set<string>, v: Visit, id: TrackId)
    ensures var t := Step(s, cfg, stored, v, id).slot;
            && (s.row.Some? ==> t.row.Some?)
            && (t.row.Some? && t.row.value.state == Missing ==> s.row.Some? && s.row.value.state == Missing)
            && (s.row.Some? && s.row.value.state == Tombstoned && !cfg.includeTombstones ==> t == s)
  {
  }

  /**
   A non-incremental listing run newly marks missing exactly the rows that were active and
   seen before, lie in scope, and were not reached; tombstones stay untouched unless
   included, and incremental runs mark nothing.
   */
  lemma MissingDetectionIsExact(db: Db, cfg: Config, stored: set<string>, vs: seq<Visit>,
                                started: Time, incremental: bool, scope: Option<string>, k: Key)
    requires WellLinked(db) && DistinctKeys(vs) && Before(db, started) && During(vs, started)
    ensures var d := SyncRun(db, cfg, stored, vs, started, incremental, scope).db;
            && (k in db.rows ==> k in d.rows)
            && (NewlyMissing(db, d, k) <==>
                  && cfg.listItems && !incremental && k in db.rows && db.rows[k].state == Active
                  && db.rows[k].lastSeen.Some? && InScope(scope, k) && !Reached(vs, k))
            && (k in db.rows && db.rows[k].state == Tombstoned && !cfg.includeTombstones ==> Get(d, k) == Get(db, k))
  {
    hide Step, Put, NewIdFor, SyncRun;
    RunActsSlotwise(db, cfg, stored, vs, started, incremental, scope);
    var v := VisitOf(vs, k);
    if v.Some? {
      var id := NewIdFor(db, cfg, stored, vs, k);
      VisitStamps(Get(db, k), cfg, stored, v.value, id);
      VisitNeverMarksMissing(Get(db, k), cfg, stored, v.value, id);
    }
  }

  // ----- scoped runs -----------------------------------------------------------------------

  function AnonymousRow(row: Row): Row {
    row.(trackId := if row.trackId.Some? then Some(0) else None, lastSeen := None, lastSynced := None)
  }

  /** Equal up to the identity of the track and clock readings. */
  ghost predicate SameButIdsAndTimes(a: Slot, b: Slot) {
    && (a.row.Some? <==> b.row.Some?) && (a.row.Some? ==> AnonymousRow(a.row.value) == AnonymousRow(b.row.value))
    && (a.track.Some? <==> b.track.Some?) && (a.track.Some? ==> TimelessTrack(a.track.value) == TimelessTrack(b.track.value))
    && a.member == b.member
  }

  /** `vs` lists, in some order, exactly what `all` lists in the scope. */
  ghost predicate RestrictedTo(vs: seq<Visit>, all: seq<Visit>, scope: Option<string>) {
    && (forall k :: InScope(scope, k) ==>
          && (VisitOf(vs, k).Some? <==> VisitOf(all, k).Some?)
          && (VisitOf(vs, k).Some? ==> VisitOf(vs, k).value.offer == VisitOf(all, k).value.offer))
    && (forall k :: !InScope(scope, k) ==> VisitOf(vs, k).None?)
  }

  lemma VisitIgnoresIdsAndTimes(s: Slot, cfg: Config, stored: set<string>, v: Visit, w: Visit, id1: TrackId, id2: TrackId)
    requires v.offer == w.offer
    ensures SameButIdsAndTimes(Step(s, cfg, stored, v, id1).slot, Step(s, cfg, stored, w, id2).slot)
  {
    hide Commit, Shadow, Failed, SameButIdsAndTimes, FastGuard;
    var o, row := v.offer, RowOr(s);
    FailureIgnoresTimes(s, row, v.at, w.at);
    ShadowIgnoresTimes(s, row, o.item, v.at, w.at);
    TrustIgnoresTimes(s, row, v.at, w.at);
    if o.meta.Some? && ShaOf(cfg, o).Some? {
      CommitIgnoresIdsAndTimes(s, row, cfg, o, ShaOf(cfg, o).value, v.at, w.at, id1, id2);
    }
    hide ShaOf;
    TrustNeedsSha(cfg, row, o.item);
  }

  lemma TrustNeedsSha(cfg: Config, row: Row, item: Item)
    ensures FastGuard(cfg, row, item) ==> row.sha.Some? && row.trackId.Some?
  {
  }

  lemma FailureIgnoresTimes(s: Slot, row: Row, at1: Instants, at2: Instants)
    ensures SameButIdsAndTimes(s, s)
    ensures forall e :: SameButIdsAndTimes(Failed(s, row, e, at1).slot, Failed(s, row, e, at2).slot)
  {
  }

  lemma ShadowIgnoresTimes(s: Slot, row: Row, item: Item, at1: Instants, at2: Instants)
    ensures forall sha :: SameButIdsAndTimes(Shadow(s, row, item, sha, at1).slot, Shadow(s, row, item, sha, at2).slot)
  {
  }

  lemma TrustIgnoresTimes(s: Slot, row: Row, at1: Instants, at2: Instants)
    ensures SameButIdsAndTimes(
      s.(row := Some(row.(lastSeen := Some(at1.seen), lastSynced := Some(at1.done), syncError := None))),
      s.(row := Some(row.(lastSeen := Some(at2.seen), lastSynced := Some(at2.done), syncError := None))))
  {
  }

  lemma CommitIgnoresIdsAndTimes(s: Slot, row: Row, cfg: Config, o: Offer, sha: string,
                                 at1: Instants, at2: Instants, id1: TrackId, id2: TrackId)
    requires o.meta.Some?
    ensures SameButIdsAndTimes(Commit(s, row, cfg, o, sha, at1, id1).slot, Commit(s, row, cfg, o, sha, at2, id2).slot)
  {
  }

  /**
   A scoped run is the full run restricted to the scope: under the scope every row, track
   and membership ends as a full run would leave it, elsewhere nothing changes at all.
   */
  lemma ScopedRunIsFullRunRestricted(db: Db, cfg: Config, stored: set<string>, vs: seq<Visit>, all: seq<Visit>,
                                     started: Time, startedFull: Time, scope: Option<string>, k: Key)
    requires WellLinked(db) && DistinctKeys(vs) && DistinctKeys(all) && RestrictedTo(vs, all, scope)
    requires Before(db, started) && Before(db, startedFull) && During(vs, started) && During(all, startedFull)
    ensures var part := SyncRun(db, cfg, stored, vs, started, false, scope).db;
            var full := SyncRun(db, cfg, stored, all, startedFull, false, None).db;
            if InScope(scope, k) then SameButIdsAndTimes(Get(part, k), Get(full, k)) else Get(part, k) == Get(db, k)
  {
    hide Step, Put, NewIdFor, SyncRun, RestrictedTo;
    RunActsSlotwise(db, cfg, stored, vs, started, false, scope);
    RunActsSlotwise(db, cfg, stored, all, startedFull, false, None);
    var v, w, s := VisitOf(vs, k), VisitOf(all, k), Get(db, k);
    var id1, id2 := NewIdFor(db, cfg, stored, vs, k), NewIdFor(db, cfg, stored, all, k);
    RestrictionAt(vs, all, scope, k);
    if InScope(scope, k) && v.Some? {
      VisitIgnoresIdsAndTimes(s, cfg, stored, v.value, w.value, id1, id2);
      VisitStamps(s, cfg, stored, v.value, id1);
      VisitStamps(s, cfg, stored, w.value, id2);
    }
  }

  lemma RestrictionAt(vs: seq<Visit>, all: seq<Visit>, scope: Option<string>, k: Key)
    requires RestrictedTo(vs, all, scope)
    ensures InScope(scope, k) ==> (VisitOf(vs, k).Some? <==> VisitOf(all, k).Some?)
    ensures InScope(scope, k) && VisitOf(vs, k).Some? ==> VisitOf(vs, k).value.offer == VisitOf(all, k).value.offer
    ensures !InScope(scope, k) ==> VisitOf(vs, k).None?
  {
  }
}
