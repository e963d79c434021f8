/**
 The file-library pass as the program runs it.  A session holds the tables; loading a row
 gives a mutable entity whose columns are written one by one, and flushing writes the
 entity back.  Every method is proved to leave entity, tables and counters as the
 specification says.
 */
module FileSync {
  import opened Prelude
  import opened FileSyncModel
  import opened FileSyncTheorems
  import FileOutcomes

  class RunCounters {
    var totals: Counters

    constructor ()
      ensures totals == ZERO
    {
      totals := ZERO;
    }
  }

  /** A loaded row of the external-tracks table. */
  class ExternalTrack {
    var row: Row

    constructor (row: Row)
      ensures this.row == row
    {
      this.row := row;
    }
  }

  /** A loaded row of the tracks table. */
  class TrackRecord {
    var columns: Track

    constructor (columns: Track)
      ensures this.columns == columns
    {
      this.columns := columns;
    }
  }

  class Session {
    var externals: map<Key, Row>
    var tracks: map<TrackId, Track>
    var libraryTracks: set<TrackId>
    var nextId: TrackId

    function Tables(): Db
      reads this
    {
      Db(externals, tracks, libraryTracks, nextId)
    }

    /** The slot a loaded row stands for, given the tables it was loaded from. */
    function SlotOf(row: Row): Slot
      reads this
    {
      var id := row.trackId;
      Slot(Some(row), if id.Some? && id.value in tracks then Some(tracks[id.value]) else None,
           id.Some? && id.value in libraryTracks)
    }

    ghost predicate Valid()
      reads this
    {
      WellLinked(Tables())
    }

    constructor ()
      ensures Valid() && Tables() == Db(map[], map[], {}, 0)
    {
      externals, tracks, libraryTracks, nextId := map[], map[], {}, 0;
    }

    /** `_set_item_error`. */
    method SetItemError(external: ExternalTrack, e: SyncError, at: Instants, counters: RunCounters)
      modifies external, counters
      ensures external.row == Failed(SlotOf(old(external.row)), old(external.row), e, at).slot.row.value
      ensures counters.totals == old(counters.totals).(failed := old(counters.totals).failed + 1)
    {
      external.row := external.row.(state := Error);
      external.row := external.row.(syncError := Some(e));
      external.row := external.row.(lastSeen := Some(at.seen), lastSynced := Some(at.done));
      counters.totals := counters.totals.(failed := counters.totals.failed + 1);
    }

    /** `_mark_track_shadowed`. */
    method MarkTrackShadowed(external: ExternalTrack, item: Item, sha: string, at: Instants, counters: RunCounters)
      modifies this`libraryTracks, external, counters
      ensures external.row == Shadow(old(SlotOf(external.row)), old(external.row), item, sha, at).slot.row.value
      ensures libraryTracks == old(libraryTracks)
                - (if external.row.trackId != old(external.row.trackId) then Ids(old(external.row.trackId)) else {})
      ensures counters.totals == old(counters.totals).(shadowed := old(counters.totals).shadowed + 1)
    {
      if external.row.state == Active && external.row.trackId.Some? {
        libraryTracks := libraryTracks - {external.row.trackId.value};
        external.row := external.row.(trackId := None);
      }
      external.row := external.row.(sha := Some(sha));
      external.row := external.row.(etag := item.etag, mtime := item.mtime, size := item.size,
                                    mime := item.mime, checksum := item.checksum);
      external.row := external.row.(state := Shadowed, syncError := None);
      external.row := external.row.(lastSeen := Some(at.seen), lastSynced := Some(at.done));
      counters.totals := counters.totals.(shadowed := counters.totals.shadowed + 1);
    }

    /** `_load_existing_track`. */
    method LoadExistingTrack(external: ExternalTrack) returns (track: TrackRecord?)
      ensures track != null <==> SlotOf(external.row).track.Some?
      ensures track != null ==> fresh(track) && Some(track.columns) == SlotOf(external.row).track
    {
      track := null;
      if external.row.trackId.Some? && external.row.trackId.value in tracks {
        track := new TrackRecord(tracks[external.row.trackId.value]);
      }
    }

    /** `_apply_metadata`: create, update or leave the track, and note what was decided. */
    method ApplyMetadata(track: TrackRecord?, m: Metadata, external: ExternalTrack, cfg: Config, at: Instants)
      returns (decision: Decision)
      requires track != null <==> SlotOf(external.row).track.Some?
      requires track != null ==> Some(track.columns) == SlotOf(external.row).track
      modifies this`tracks, this`nextId, external, track
      ensures decision == Created <==> old(SlotOf(external.row)).track.None?
      ensures decision == Decide(old(SlotOf(external.row)).track, old(external.row).fingerprint, m.core)
      ensures var row, conflict := old(external.row), decision == ConflictWriteBack;
              external.row == row.(
                trackId := if decision == Created then Some(old(nextId)) else row.trackId,
                raw := if conflict then m.raw else row.raw,
                syncError := if !conflict then row.syncError else if cfg.writeTags then None else Some(Conflicting),
                writeBackPending := conflict && cfg.writeTags,
                writeBackError := if conflict && !cfg.writeTags then row.writeBackError else None)
      ensures tracks == old(tracks)[external.row.trackId.value :=
                AppliedTrack(old(SlotOf(external.row)).track, decision, m, at.synced).value]
      ensures nextId == if decision == Created then old(nextId) + 1 else old(nextId)
    {
      hide ProviderFields, MimeOf, Truthy, UpdatedMime;
      var fingerprintChanged := external.row.fingerprint.None? || external.row.fingerprint.value != m.core;
      if track == null {
        var created := new TrackRecord(Track(ProviderFields(m, MimeOf(m.raw)), None, Some(at.synced), false));
        external.row := external.row.(trackId := Some(nextId));
        Flush(created, nextId);
        nextId := nextId + 1;
        external.row := external.row.(writeBackPending := false, writeBackError := None);
        return Created;
      }
      var localEdited := track.columns.editedAt.Some?
        && (track.columns.syncedAt.None? || track.columns.editedAt.value > track.columns.syncedAt.value);
      if localEdited && fingerprintChanged {
        external.row := external.row.(raw := m.raw);
        if cfg.writeTags {
          external.row := external.row.(writeBackPending := true, writeBackError := None, syncError := None);
        } else {
          external.row := external.row.(writeBackPending := false, syncError := Some(Conflicting));
        }
        return ConflictWriteBack;
      }
      decision := if fingerprintChanged then Updated else Unchanged;
      ReviseTrack(track, m, fingerprintChanged, at.synced);
      external.row := external.row.(writeBackPending := false, writeBackError := None);
      Flush(track, external.row.trackId.value);
    }

    /** The columns `_apply_metadata` writes on a track it may overwrite. */
    method ReviseTrack(track: TrackRecord, m: Metadata, fingerprintChanged: bool, now: Time)
      modifies track
      ensures Some(track.columns) == AppliedTrack(Some(old(track.columns)), if fingerprintChanged then Updated else Unchanged, m, now)
      ensures fingerprintChanged ==> FileOutcomes.ShowsTags(track.columns.fields, m)
      ensures !fingerprintChanged ==> track.columns == old(track.columns).(syncedAt := Some(now))
    {
      if fingerprintChanged {
        var mime := track.columns.fields.mime;
        track.columns := track.columns.(fields := ProviderFields(m, mime));
        track.columns := track.columns.(syncedAt := Some(now));
        if Truthy(MimeOf(m.raw)) {
          track.columns := track.columns.(fields := track.columns.fields.(mime := MimeOf(m.raw)));
        }
      } else {
        track.columns := track.columns.(syncedAt := Some(now));
      }
    }

    /** Write a loaded track back to its table. */
    method Flush(track: TrackRecord, id: TrackId)
      modifies this`tracks
      ensures tracks == old(tracks)[id := track.columns]
    {
      tracks := tracks[id := track.columns];
    }

    /** The columns `_process_item` writes once the tags are applied. */
    method RecordItem(external: ExternalTrack, o: Offer, sha: string, applied: bool, at: Instants)
      requires o.meta.Some?
      modifies external
      ensures external.row == WithItem(old(external.row), o.item, sha, at).(
                fingerprint := if applied then Some(o.meta.value.core) else old(external.row.fingerprint),
                raw := o.meta.value.raw, state := Active,
                syncError := if applied then None else Some(Conflicting))
    {
      external.row := external.row.(etag := o.item.etag, mtime := o.item.mtime, size := o.item.size,
                                    mime := o.item.mime, checksum := o.item.checksum);
      external.row := external.row.(sha := Some(sha));
      if applied {
        external.row := external.row.(fingerprint := Some(o.meta.value.core));
      }
      external.row := external.row.(raw := o.meta.value.raw, state := Active);
      external.row := external.row.(lastSeen := Some(at.seen), lastSynced := Some(at.done));
      external.row := external.row.(syncError := if applied then None else Some(Conflicting));
    }

    /** What a committed item adds to the run's counters. */
    method CountItem(counters: RunCounters, decision: Decision, enrich: set<TrackId>)
      modifies counters
      ensures counters.totals == Plus(old(counters.totals), Committed(decision, enrich))
    {
      counters.totals := counters.totals.(enrich := counters.totals.enrich + enrich);
      if decision == Created {
        counters.totals := counters.totals.(created := counters.totals.created + 1);
      } else if decision == Updated {
        counters.totals := counters.totals.(updated := counters.totals.updated + 1);
      }
    }

    /** The end of `_process_item`: apply the tags just read and commit the row. */
    method CommitItem(external: ExternalTrack, o: Offer, sha: string, cfg: Config, at: Instants, counters: RunCounters)
      requires o.meta.Some? && (external.row.trackId.Some? ==> external.row.trackId.value < nextId)
      modifies this`tracks, this`libraryTracks, this`nextId, external, counters
      ensures var r := Commit(old(SlotOf(external.row)), old(external.row), cfg, o, sha, at, old(nextId));
              && r.slot.row == Some(external.row) && r.delta.seen == 1
              && Tables() == Relink(old(Tables()), old(external.row.trackId), r.slot)
              && counters.totals == Plus(old(counters.totals), r.delta.(seen := 0))
    {
      hide AppliedTrack, Decide, Plus;
      var m := o.meta.value;
      var track := LoadExistingTrack(external);
      var decision := ApplyMetadata(track, m, external, cfg, at);
      track := LoadExistingTrack(external);
      var applied := decision != ConflictWriteBack;
      var enrich := if track != null && !track.columns.enriched && applied then {external.row.trackId.value} else {};
      if applied && external.row.trackId.Some? {
        libraryTracks := libraryTracks + {external.row.trackId.value};
      }
      RecordItem(external, o, sha, applied, at);
      CountItem(counters, decision, enrich);
    }

    /** The part of `_process_item` that hashes and reads. */
    method VisitSlowly(external: ExternalTrack, o: Offer, cfg: Config, stored: set<string>, at: Instants,
        counters: RunCounters)
      requires external.row.trackId.Some? ==> external.row.trackId.value < nextId
      modifies this`tracks, this`libraryTracks, this`nextId, external, counters
      ensures var r := Slow(old(SlotOf(external.row)), old(external.row), cfg, stored, o, at, old(nextId));
              && r.slot.row == Some(external.row) && r.delta.seen == 1
              && Tables() == Relink(old(Tables()), old(external.row.trackId), r.slot)
              && counters.totals == Plus(old(counters.totals), r.delta.(seen := 0))
    {
      hide Commit;
      var sha := ResolvedSha(cfg, o.item);
      if sha.None? {
        if cfg.computeHash && cfg.allowHashing {
          sha := o.hash;
          if sha.None? {
            SetItemError(external, HashFailed, at, counters);
            return;
          }
        } else {
          SetItemError(external, NoHash, at, counters);
          return;
        }
      }
      if sha.value in stored {
        MarkTrackShadowed(external, o.item, sha.value, at, counters);
        return;
      }
      if o.meta.None? {
        SetItemError(external, ReadFailed, at, counters);
        return;
      }
      CommitItem(external, o, sha.value, cfg, at, counters);
    }

    /** The branch of `_process_item` that trusts the listing; it gives up when the track is gone. */
    method TrustListing(external: ExternalTrack, o: Offer, stored: set<string>, at: Instants, counters: RunCounters)
      returns (done: bool)
      requires external.row.state == Active && external.row.sha.Some? && external.row.trackId.Some?
      requires external.row.trackId.value < nextId
      modifies this`libraryTracks, external, counters
      ensures done <==> old(external.row).sha.value in stored || old(SlotOf(external.row)).track.Some?
      ensures !done ==> external.row == old(external.row) && libraryTracks == old(libraryTracks) && counters.totals == old(counters.totals)
      ensures done ==>
                var row, s := old(external.row), old(SlotOf(external.row));
                var r := if row.sha.value in stored then Shadow(s, row, o.item, row.sha.value, at) else Fast(s, row, stored, o, at);
                && r.slot.row == Some(external.row) && r.delta.seen == 1
                && Tables() == Relink(old(Tables()), row.trackId, r.slot)
                && counters.totals == Plus(old(counters.totals), r.delta.(seen := 0))
    {
      if external.row.sha.value in stored {
        MarkTrackShadowed(external, o.item, external.row.sha.value, at, counters);
        return true;
      }
      var track := LoadExistingTrack(external);
      if track == null {
        return false;
      }
      external.row := external.row.(lastSeen := Some(at.seen), lastSynced := Some(at.done));
      external.row := external.row.(syncError := None);
      if !track.columns.enriched {
        counters.totals := counters.totals.(enrich := counters.totals.enrich + {external.row.trackId.value});
      }
      return true;
    }

    /** `_process_item`. */
    method ProcessItem(v: Visit, cfg: Config, stored: set<string>, counters: RunCounters)
      requires Valid()
      modifies this, counters
      ensures Valid()
      ensures Run(Tables(), counters.totals)
           == FileSyncModel.ProcessItem(old(Tables()), old(counters.totals), cfg, stored, v)
    {
      hide Slow, Shadow, Fast, Relink, MatchesExisting, WellLinked, Plus;
      var o, at, key := v.offer, v.at, v.offer.item.key;
      ghost var before, totals := Tables(), counters.totals;
      ghost var s := Get(before, key);
      ghost var r := Step(s, cfg, stored, v, nextId);
      CountersAdd(totals, r.delta);
      ItemKeepsLinks(before, counters.totals, cfg, stored, v);
      if key in externals {
        PutBack(before, key);
      }
      if o.raises {
        counters.totals := counters.totals.(failed := counters.totals.failed + 1);
        return;
      }
      LinksAreOld(before, key);
      var external := new ExternalTrack(if key in externals then externals[key] else NewRow());
      SlowIgnoresTheLoadedRow(s, external.row, cfg, stored, o, at, nextId);
      assert SlotOf(external.row) == s.(row := Some(external.row));
      counters.totals := counters.totals.(seen := counters.totals.seen + 1);
      if external.row.state == Tombstoned && !cfg.includeTombstones {
        return;
      }
      var done := false;
      if FastGuard(cfg, external.row, o.item) {
        done := TrustListing(external, o, stored, at, counters);
      }
      if !done {
        VisitSlowly(external, o, cfg, stored, at, counters);
      }
      externals := externals[key := external.row];
      assert r.slot.row == Some(external.row) && Tables() == Put(before, key, r.slot);
    }

    /** One full batch (or the remainder), item by item. */
    method ProcessBatch(batch: seq<Visit>, cfg: Config, stored: set<string>, counters: RunCounters)
      requires Valid()
      modifies this, counters
      ensures Valid()
      ensures Run(Tables(), counters.totals) == ProcessItems(old(Tables()), old(counters.totals), cfg, stored, batch)
    {
      hide WellLinked, FileSyncModel.ProcessItem;
      for n := 0 to |batch|
        invariant Valid()
        invariant Run(Tables(), counters.totals) == ProcessItems(old(Tables()), old(counters.totals), cfg, stored, batch[..n])
      {
        ProcessItem(batch[n], cfg, stored, counters);
        assert batch[..n + 1][..n] == batch[..n];
      }
      assert batch[..|batch|] == batch;
    }

    /** The closing query of `_sync_file_library`: select, then mark row by row. */
    method MarkMissingRows(started: Time, scope: Option<string>, counters: RunCounters)
      requires Valid()
      modifies this`externals, counters
      ensures Run(Tables(), counters.totals) == MarkMissing(Run(old(Tables()), old(counters.totals)), started, scope)
    {
      hide GoesMissing, WellLinked, Marked, MarkMissing;
      ghost var before, totals := Tables(), counters.totals;
      var selected := set k | k in externals && GoesMissing(externals[k], k, started, scope);
      assert selected == MissingKeys(before, started, scope);
      hide MissingKeys;
      NothingMarked(externals);
      var todo, done := selected, 0;
      assert selected - todo == {};
      while todo != {}
        invariant todo <= selected && done + |todo| == |selected|
        invariant externals == Marked(before.rows, selected - todo)
        invariant counters.totals == totals.(missing := totals.missing + done)
      {
        var k :| k in todo;
        MarkOneMore(before.rows, selected - todo, k);
        assert selected - (todo - {k}) == selected - todo + {k};
        var missing := externals[k];
        missing := missing.(state := Missing);
        missing := missing.(syncError := None);
        externals := externals[k := missing];
        counters.totals := counters.totals.(missing := counters.totals.missing + 1);
        todo, done := todo - {k}, done + 1;
      }
      assert selected - todo == selected;
      MarkedOneByOne(before, totals, started, scope);
    }

    /** `_sync_file_library`: the listing in batches of a hundred, then missing detection. */
    method SyncFileLibrary(listing: seq<Visit>, cfg: Config, stored: set<string>,
                           started: Time, incremental: bool, scope: Option<string>, counters: RunCounters)
      requires Valid() && counters.totals == ZERO
      modifies this, counters
      ensures Valid()
      ensures Run(Tables(), counters.totals) == SyncRun(old(Tables()), cfg, stored, listing, started, incremental, scope)
    {
      hide WellLinked, FileSyncModel.ProcessItem, MarkMissing;
      var batch: seq<Visit> := [];
      for n := 0 to |listing|
        invariant Valid() && |batch| <= n && batch == listing[n - |batch|..n]
        invariant Run(Tables(), counters.totals) == ProcessItems(old(Tables()), ZERO, cfg, stored, listing[..n - |batch|])
      {
        assert listing[n - |batch|..n + 1] == batch + [listing[n]];
        batch := batch + [listing[n]];
        if |batch| >= 100 {
          PassesCompose(old(Tables()), ZERO, cfg, stored, listing[..n + 1 - |batch|], batch);
          assert listing[..n + 1 - |batch|] + batch == listing[..n + 1];
          ProcessBatch(batch, cfg, stored, counters);
          batch := [];
        }
      }
      PassesCompose(old(Tables()), ZERO, cfg, stored, listing[..|listing| - |batch|], batch);
      assert listing[..|listing| - |batch|] + batch == listing;
      ProcessBatch(batch, cfg, stored, counters);
      if cfg.listItems && !incremental {
        MarkMissingActsSlotwise(Run(Tables(), counters.totals), started, scope);
        MarkMissingRows(started, scope, counters);
      }
    }
  }

  /** A visit counts its sighting first and the rest later. */
  lemma CountersAdd(c: Counters, d: Counters)
    ensures d.seen == 1 ==> Plus(c.(seen := c.seen + 1), d.(seen := 0)) == Plus(c, d)
    ensures Plus(c, ZERO.(seen := 1)) == c.(seen := c.seen + 1) && Plus(c, ZERO.(failed := 1)) == c.(failed := c.failed + 1)
  {
  }

  /** A committed item's share of the counters, its sighting aside. */
  function Committed(decision: Decision, enrich: set<TrackId>): Counters {
    ZERO.(created := if decision == Created then 1 else 0, updated := if decision == Updated then 1 else 0, enrich := enrich)
  }

  /** Rows with some keys marked missing. */
  function Marked(rows: map<Key, Row>, keys: set<Key>): map<Key, Row> {
    map k | k in rows :: if k in keys then rows[k].(state := Missing, syncError := None) else rows[k]
  }

  lemma NothingMarked(rows: map<Key, Row>)
    ensures Marked(rows, {}) == rows
  {
  }

  lemma MarkOneMore(rows: map<Key, Row>, keys: set<Key>, k: Key)
    requires k in rows && k !in keys
    ensures k in Marked(rows, keys) && Marked(rows, keys)[k] == rows[k]
    ensures Marked(rows, keys)[k := rows[k].(state := Missing, syncError := None)] == Marked(rows, keys + {k})
  {
  }

  lemma MarkedOneByOne(db: Db, c: Counters, started: Time, scope: Option<string>)
    ensures MarkMissing(Run(db, c), started, scope)
         == var gone := MissingKeys(db, started, scope);
            Run(db.(rows := Marked(db.rows, gone)), c.(missing := c.missing + |gone|))
  {
    hide GoesMissing;
  }

  lemma {:induction false} PassesCompose(db: Db, c: Counters, cfg: Config, stored: set<string>, vs: seq<Visit>,
      ws: seq<Visit>)
    ensures ProcessItems(db, c, cfg, stored, vs + ws)
         == var r := ProcessItems(db, c, cfg, stored, vs); ProcessItems(r.db, r.counters, cfg, stored, ws)
  {
    hide FileSyncModel.ProcessItem;
    if ws == [] {
      assert vs + ws == vs;
    } else {
      PassesCompose(db, c, cfg, stored, vs, ws[..|ws| - 1]);
      assert (vs + ws)[..|vs + ws| - 1] == vs + ws[..|ws| - 1];
    }
  }

  lemma ItemKeepsLinks(db: Db, c: Counters, cfg: Config, stored: set<string>, v: Visit)
    requires WellLinked(db)
    ensures WellLinked(FileSyncModel.ProcessItem(db, c, cfg, stored, v).db)
  {
    ItemTouchesOnlyItsSlot(db, c, cfg, stored, v);
  }

  lemma LinksAreOld(db: Db, k: Key)
    requires WellLinked(db)
    ensures IdOf(Get(db, k)).Some? ==> IdOf(Get(db, k)).value < db.nextId
  {
  }

  lemma SlowIgnoresTheLoadedRow(s: Slot, row: Row, cfg: Config, stored: set<string>, o: Offer, at: Instants,
      newId: TrackId)
    ensures Slow(s, row, cfg, stored, o, at, newId) == Slow(s.(row := Some(row)), row, cfg, stored, o, at, newId)
  {
  }
}
