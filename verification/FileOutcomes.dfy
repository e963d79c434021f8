/**
 What each kind of visit leaves behind, column by column: rows, tracks, membership and
 counters in terms of the listed item, the hash and tags it reads and the clock alone.
 From one visit to whole runs, and from runs to histories: a library that has been synced
 shows what its files say.
 */
module FileOutcomes {
  import opened Prelude
  import opened FileSyncModel
  import opened FileSyncTheorems
  import opened FastPath

  // ----- what a visit meets ---------------------------------------------------------------------

  /** The hash a visit ends up with: a given SHA-256, else a checksum that is one, else one taken of the file. */
  predicate Hashes(cfg: Config, o: Offer, sha: string) {
    if o.item.sha256.Some? && o.item.sha256.value != "" then o.item.sha256 == Some(sha)
    else if !cfg.computeHash then false
    else if cfg.checksumIsSha256 && o.item.checksum.Some? && o.item.checksum.value != "" then o.item.checksum == Some(sha)
    else cfg.allowHashing && o.hash == Some(sha)
  }

  /** The listing proves an active, linked, hashed row unchanged: by etag, or by time and size when neither side has one. */
  predicate ProvedUnchanged(cfg: Config, s: Slot, item: Item) {
    && cfg.detectChanges && s.row.Some?
    && var row := s.row.value;
       && row.state == Active && row.trackId.Some? && row.sha.Some? && row.sha.value != ""
       && if (item.etag.Some? && item.etag.value != "") || (row.etag.Some? && row.etag.value != "")
          then item.etag.Some? && row.etag == item.etag
          else item.mtime.Some? && row.mtime == item.mtime && item.size.Some? && row.size == item.size
  }

  /** A tombstone that visits pass over. */
  predicate Buried(cfg: Config, s: Slot) { s.row.Some? && s.row.value.state == Tombstoned && !cfg.includeTombstones }

  /** The visit hashes the item as `sha`: it does not raise, pass over a tombstone, or trust the listing. */
  predicate Opens(cfg: Config, stored: set<string>, s: Slot, o: Offer, sha: string) {
    && !o.raises && !Buried(cfg, s) && Hashes(cfg, o, sha)
    && (ProvedUnchanged(cfg, s, o.item) ==> s.track.None? && s.row.value.sha.value !in stored)
  }

  /** The user changed the track after it was last synced. */
  predicate EditedSince(t: Track) {
    t.editedAt.Some? && match t.syncedAt
                        case None => true
                        case Some(synced) => t.editedAt.value > synced
  }

  // ----- what tags look like on a track -----------------------------------------------------------

  /** The tags' own columns. */
  predicate ShowsCore(f: TrackFields, c: CoreTags) {
    && f.title == c.title
    && f.artist == (if c.artist != "" then c.artist else "Unknown Artist")
    && f.album == (if c.album != "" then Some(c.album) else None)
    && f.trackNumber == c.trackNumber && f.discNumber == c.discNumber && f.duration == c.duration
    && f.genre == c.genre && f.musicbrainzId == c.musicbrainzId && f.releaseYear == c.releaseYear
  }

  /** And the artists after the first, and the raw payload. */
  predicate ShowsTags(f: TrackFields, m: Metadata) {
    && ShowsCore(f, m.core) && f.raw == m.raw
    && f.extraArtists == (if |m.artists| <= 1 then [] else m.artists[1..])
  }

  /** The media type the raw payload names, under either of its spellings. */
  predicate Names(raw: RawTags, mime: string) {
    raw.Some? && if "mimetype" in raw.value then raw.value["mimetype"] == mime
                 else "mime_type" in raw.value && raw.value["mime_type"] == mime
  }

  predicate NamesNone(raw: RawTags) { raw.Some? ==> "mimetype" !in raw.value && "mime_type" !in raw.value }

  /** The row carries the listed version under the hash, as of the visit. */
  predicate Carries(row: Row, item: Item, sha: string, at: Instants) {
    && row.etag == item.etag && row.mtime == item.mtime && row.size == item.size && row.mime == item.mime
    && row.checksum == item.checksum && row.sha == Some(sha) && row.lastSeen == Some(at.seen) && row.lastSynced == Some(at.done)
  }

  // ----- one visit, by what it meets --------------------------------------------------------------

  lemma HashIsResolved(cfg: Config, o: Offer, sha: string)
    ensures Hashes(cfg, o, sha) <==> ShaOf(cfg, o) == Some(sha)
  {
  }

  lemma OpensToSlow(s: Slot, cfg: Config, stored: set<string>, v: Visit, newId: TrackId, sha: string)
    requires Opens(cfg, stored, s, v.offer, sha)
    ensures Step(s, cfg, stored, v, newId) == Slow(s, RowOr(s), cfg, stored, v.offer, v.at, newId)
    ensures ShaOf(cfg, v.offer) == Some(sha)
  {
    HashIsResolved(cfg, v.offer, sha);
    hide Slow, Shadow, Fast, ShaOf;
  }

  /** The visit reads tags: its hash has no stored copy. */
  predicate Reads(cfg: Config, stored: set<string>, s: Slot, o: Offer, sha: string, m: Metadata) {
    Opens(cfg, stored, s, o, sha) && sha !in stored && o.meta == Some(m)
  }

  /** A row the visit took the tags over to. */
  predicate Applied(s: Slot, t: Slot, o: Offer, sha: string, m: Metadata, at: Instants) {
    && t.row.Some? && t.track.Some? && t.member
    && Carries(t.row.value, o.item, sha, at)
    && t.row.value.state == Active && t.row.value.fingerprint == Some(m.core) && t.row.value.raw == m.raw
    && t.row.value.syncError.None? && !t.row.value.writeBackPending && t.row.value.writeBackError.None?
    && t.track.value.syncedAt == Some(at.synced)
  }

  lemma ReadsToCommit(s: Slot, cfg: Config, stored: set<string>, v: Visit, newId: TrackId, sha: string, m: Metadata)
    requires Reads(cfg, stored, s, v.offer, sha, m)
    ensures v.offer.meta == Some(m)
    ensures Step(s, cfg, stored, v, newId) == Commit(s, RowOr(s), cfg, v.offer, sha, v.at, newId)
  {
    OpensToSlow(s, cfg, stored, v, newId, sha);
    hide Step, Commit, Opens;
  }

  /** An item without a track becomes one that shows its tags, shelved and counted as created. */
  lemma NewItemBecomesATrack(s: Slot, cfg: Config, stored: set<string>, v: Visit, newId: TrackId, sha: string, m: Metadata)
    requires Reads(cfg, stored, s, v.offer, sha, m) && s.track.None?
    ensures var r := Step(s, cfg, stored, v, newId);
            && Applied(s, r.slot, v.offer, sha, m, v.at)
            && r.slot.row.value.trackId == Some(newId)
            && ShowsTags(r.slot.track.value.fields, m)
            && (forall mime :: Names(m.raw, mime) ==> r.slot.track.value.fields.mime == Some(mime))
            && (NamesNone(m.raw) ==> r.slot.track.value.fields.mime.None?)
            && r.slot.track.value.editedAt.None? && !r.slot.track.value.enriched
            && r.delta == Counters(1, 1, 0, 0, 0, 0, {newId})
  {
    ReadsToCommit(s, cfg, stored, v, newId, sha, m);
    hide Step, Reads;
  }

  /** New tags reach an unedited track in every column, and the visit counts as an update. */
  lemma NewTagsReachTheTrack(s: Slot, cfg: Config, stored: set<string>, v: Visit, newId: TrackId, sha: string, m: Metadata)
    requires Coherent(s) && Reads(cfg, stored, s, v.offer, sha, m)
    requires s.row.Some? && s.track.Some? && !EditedSince(s.track.value) && s.row.value.fingerprint != Some(m.core)
    ensures var r, was := Step(s, cfg, stored, v, newId), s.track.value;
            && Applied(s, r.slot, v.offer, sha, m, v.at)
            && r.slot.row.value.trackId == s.row.value.trackId
            && ShowsTags(r.slot.track.value.fields, m)
            && (forall mime :: Names(m.raw, mime) ==>
                  r.slot.track.value.fields.mime == if mime != "" then Some(mime) else was.fields.mime)
            && (NamesNone(m.raw) ==> r.slot.track.value.fields.mime == was.fields.mime)
            && r.slot.track.value.editedAt == was.editedAt && r.slot.track.value.enriched == was.enriched
            && r.delta == Counters(1, 0, 1, 0, 0, 0, if was.enriched then {} else {s.row.value.trackId.value})
  {
    ReadsToCommit(s, cfg, stored, v, newId, sha, m);
    hide Step, Reads;
  }

  /** Tags read before leave every field, edited or not, and stamp the track as synced. */
  lemma SameTagsStampTheTrack(s: Slot, cfg: Config, stored: set<string>, v: Visit, newId: TrackId, sha: string, m: Metadata)
    requires Coherent(s) && Reads(cfg, stored, s, v.offer, sha, m)
    requires s.row.Some? && s.track.Some? && s.row.value.fingerprint == Some(m.core)
    ensures var r, was := Step(s, cfg, stored, v, newId), s.track.value;
            && Applied(s, r.slot, v.offer, sha, m, v.at)
            && r.slot.row.value.trackId == s.row.value.trackId
            && r.slot.track.value.fields == was.fields && r.slot.track.value.editedAt == was.editedAt
            && r.slot.track.value.enriched == was.enriched
            && r.delta == Counters(1, 0, 0, 0, 0, 0, if was.enriched then {} else {s.row.value.trackId.value})
  {
    ReadsToCommit(s, cfg, stored, v, newId, sha, m);
    hide Step, Reads;
  }

  /** New tags against a newer local edit: the track stays, the conflict is recorded, a write-back is queued where one is possible. */
  lemma EditStandsAgainstNewTags(s: Slot, cfg: Config, stored: set<string>, v: Visit, newId: TrackId, sha: string, m: Metadata)
    requires Coherent(s) && Reads(cfg, stored, s, v.offer, sha, m)
    requires s.row.Some? && s.track.Some? && EditedSince(s.track.value) && s.row.value.fingerprint != Some(m.core)
    ensures var r := Step(s, cfg, stored, v, newId);
            && r.slot.track == s.track && r.slot.member == s.member && r.slot.row.Some?
            && Carries(r.slot.row.value, v.offer.item, sha, v.at)
            && r.slot.row.value.trackId == s.row.value.trackId && r.slot.row.value.state == Active
            && r.slot.row.value.fingerprint == s.row.value.fingerprint && r.slot.row.value.raw == m.raw
            && r.slot.row.value.syncError == Some(Conflicting) && r.slot.row.value.writeBackPending == cfg.writeTags
            && r.slot.row.value.writeBackError == (if cfg.writeTags then None else s.row.value.writeBackError)
            && r.delta == Counters(1, 0, 0, 0, 0, 0, {})
  {
    ReadsToCommit(s, cfg, stored, v, newId, sha, m);
    hide Step, Reads;
  }

  /** A stored copy shadows the row; an active linked row loses link, track and shelf place, any other keeps them. */
  predicate ShadowedBy(s: Slot, r: Stepped, item: Item, sha: string, at: Instants) {
    && r.slot.row.Some? && Carries(r.slot.row.value, item, sha, at)
    && r.slot.row.value.state == Shadowed && r.slot.row.value.syncError.None?
    && r.delta == Counters(1, 0, 0, 1, 0, 0, {})
    && (s.row.None? ==> r.slot == Slot(Some(r.slot.row.value), s.track, s.member) && r.slot.row.value.trackId.None?)
    && (s.row.Some? ==>
          && r.slot.row.value.fingerprint == s.row.value.fingerprint && r.slot.row.value.raw == s.row.value.raw
          && r.slot.row.value.writeBackPending == s.row.value.writeBackPending
          && r.slot.row.value.writeBackError == s.row.value.writeBackError
          && if s.row.value.state == Active && s.row.value.trackId.Some?
             then r.slot.row.value.trackId.None? && r.slot.track.None? && !r.slot.member
             else r.slot.row.value.trackId == s.row.value.trackId && r.slot.track == s.track && r.slot.member == s.member)
  }

  lemma StoredHashShadows(s: Slot, cfg: Config, stored: set<string>, v: Visit, newId: TrackId, sha: string)
    requires Opens(cfg, stored, s, v.offer, sha) && sha in stored
    ensures ShadowedBy(s, Step(s, cfg, stored, v, newId), v.offer.item, sha, v.at)
  {
    OpensToSlow(s, cfg, stored, v, newId, sha);
    hide Step, Opens, Commit;
  }

  /** A row the listing proves unchanged is shadowed on its stored hash. */
  lemma ListedHashShadows(s: Slot, cfg: Config, stored: set<string>, v: Visit, newId: TrackId)
    requires !v.offer.raises && ProvedUnchanged(cfg, s, v.offer.item) && s.row.value.sha.value in stored
    ensures ShadowedBy(s, Step(s, cfg, stored, v, newId), v.offer.item, s.row.value.sha.value, v.at)
  {
    hide Slow, Fast;
  }

  /** And otherwise, its track still there, it is only stamped as seen and cleared of its error. */
  lemma ListedUnchangedIsStamped(s: Slot, cfg: Config, stored: set<string>, v: Visit, newId: TrackId)
    requires !v.offer.raises && ProvedUnchanged(cfg, s, v.offer.item) && s.row.value.sha.value !in stored && s.track.Some?
    ensures var r := Step(s, cfg, stored, v, newId);
            && r.slot == s.(row := Some(s.row.value.(lastSeen := Some(v.at.seen), lastSynced := Some(v.at.done), syncError := None)))
            && r.delta == Counters(1, 0, 0, 0, 0, 0, if s.track.value.enriched then {} else {s.row.value.trackId.value})
  {
    hide Slow, Shadow;
  }

  /** An item whose hash or tags cannot be had is in error, and keeps all else. */
  lemma UnreadableIsInError(s: Slot, cfg: Config, stored: set<string>, v: Visit, newId: TrackId)
    requires !v.offer.raises && !Buried(cfg, s)
    requires ProvedUnchanged(cfg, s, v.offer.item) ==> s.track.None? && s.row.value.sha.value !in stored
    requires forall sha :: Hashes(cfg, v.offer, sha) ==> v.offer.meta.None? && sha !in stored
    ensures var r, row := Step(s, cfg, stored, v, newId), if s.row.Some? then s.row.value else NewRow();
            && r.slot.track == s.track && r.slot.member == s.member
            && r.slot.row == Some(row.(state := Error, syncError := r.slot.row.value.syncError,
                                       lastSeen := Some(v.at.seen), lastSynced := Some(v.at.done)))
            && (r.slot.row.value.syncError == Some(ReadFailed) <==> exists sha :: Hashes(cfg, v.offer, sha))
            && (r.slot.row.value.syncError == Some(HashFailed) <==>
                  !(exists sha :: Hashes(cfg, v.offer, sha)) && cfg.computeHash && cfg.allowHashing)
            && (r.slot.row.value.syncError == Some(NoHash) <==>
                  !(exists sha :: Hashes(cfg, v.offer, sha)) && !(cfg.computeHash && cfg.allowHashing))
            && r.delta == Counters(1, 0, 0, 0, 0, 1, {})
  {
    forall sha { HashIsResolved(cfg, v.offer, sha); }
    var sha := ShaOf(cfg, v.offer);
    assert sha.Some? ==> Hashes(cfg, v.offer, sha.value);
    hide Hashes, ShaOf, Shadow, Commit, Fast;
  }

  /** A visit that raises is counted as failed, and one of a buried item as seen: neither touches anything. */
  lemma PassedOverVisit(s: Slot, cfg: Config, stored: set<string>, v: Visit, newId: TrackId)
    requires v.offer.raises || Buried(cfg, s)
    ensures Step(s, cfg, stored, v, newId) ==
              Stepped(s, if v.offer.raises then Counters(0, 0, 0, 0, 0, 1, {}) else Counters(1, 0, 0, 0, 0, 0, {}))
  {
  }

  // ----- a whole run ------------------------------------------------------------------------------

  /** The key's track in the tables, on its shelf, under an active row. */
  ghost predicate Stands(db: Db, k: Key) {
    && k in db.rows && db.rows[k].state == Active && db.rows[k].trackId.Some?
    && db.rows[k].trackId.value in db.tracks && db.rows[k].trackId.value in db.members
  }

  function TrackAt(db: Db, k: Key): Track
    requires k in db.rows && db.rows[k].trackId.Some? && db.rows[k].trackId.value in db.tracks
  {
    db.tracks[db.rows[k].trackId.value]
  }

  /** What a run makes of a listed key is what its visit makes of it: the closing sweep finds it seen. */
  lemma ListedKeyEndsAsVisited(db: Db, cfg: Config, stored: set<string>, vs: seq<Visit>,
                               started: Time, incremental: bool, scope: Option<string>, i: nat)
    requires WellLinked(db) && DistinctKeys(vs) && i < |vs|
    ensures var k, d := vs[i].offer.item.key, SyncRun(db, cfg, stored, vs, started, incremental, scope).db;
            var t := Step(Get(db, k), cfg, stored, vs[i], NewIdFor(db, cfg, stored, vs, k)).slot;
            Get(d, k) == if cfg.listItems && !incremental then MissingSlot(t, k, started, scope) else t
  {
    hide Step, Get, SyncRun, NewIdFor, MissingSlot;
    RunActsSlotwise(db, cfg, stored, vs, started, incremental, scope);
    OnlyVisitOf(vs, i);
  }

  lemma SeenIsNotMissing(t: Slot, k: Key, started: Time, scope: Option<string>)
    requires t.row.Some? && t.row.value.lastSeen.Some? && t.row.value.lastSeen.value >= started
    ensures MissingSlot(t, k, started, scope) == t
  {
  }

  lemma SlotStands(db: Db, k: Key)
    requires var s := Get(db, k);
             s.row.Some? && s.row.value.state == Active && s.track.Some? && s.member
    ensures Stands(db, k) && Get(db, k).track == Some(TrackAt(db, k)) && Get(db, k).row == Some(db.rows[k])
  {
  }

  /**
   A run brings the library up to its files.  Every listed item whose hash has no stored copy
   and whose tags are read -- listed under a new version, or never before -- ends under an
   active row with those tags as fingerprint, its track shelved; unless the track was edited
   since its last sync, the fields are those of the tags when these are new, and otherwise as
   they were.
   */
  lemma RunShowsTheTags(db: Db, cfg: Config, stored: set<string>, vs: seq<Visit>, started: Time, incremental: bool,
                        scope: Option<string>, i: nat, sha: string, m: Metadata)
    requires WellLinked(db) && DistinctKeys(vs) && i < |vs| && During(vs, started)
    requires var s := Get(db, vs[i].offer.item.key);
             && Reads(cfg, stored, s, vs[i].offer, sha, m)
             && (s.row.Some? && s.track.Some? && EditedSince(s.track.value) ==> s.row.value.fingerprint == Some(m.core))
    ensures var k, d := vs[i].offer.item.key, SyncRun(db, cfg, stored, vs, started, incremental, scope).db;
            var s := Get(db, k);
            && Stands(d, k)
            && d.rows[k].fingerprint == Some(m.core) && d.rows[k].sha == Some(sha) && d.rows[k].etag == vs[i].offer.item.etag
            && if s.track.Some? && s.row.Some? && s.row.value.fingerprint == Some(m.core)
               then TrackAt(d, k).fields == s.track.value.fields
               else ShowsTags(TrackAt(d, k).fields, m)
  {
    var k, d := vs[i].offer.item.key, SyncRun(db, cfg, stored, vs, started, incremental, scope).db;
    var s, id := Get(db, k), NewIdFor(db, cfg, stored, vs, k);
    ListedKeyEndsAsVisited(db, cfg, stored, vs, started, incremental, scope, i);
    SlotsOfTablesAreCoherent(db, k);
    TracksHaveRows(db, k);
    hide Reads, EditedSince, SyncRun, Get, NewIdFor, Step, MissingSlot, ShowsTags;
    if s.track.None? {
      NewItemBecomesATrack(s, cfg, stored, vs[i], id, sha, m);
    } else if s.row.value.fingerprint == Some(m.core) {
      SameTagsStampTheTrack(s, cfg, stored, vs[i], id, sha, m);
    } else {
      NewTagsReachTheTrack(s, cfg, stored, vs[i], id, sha, m);
    }
    SeenIsNotMissing(Step(s, cfg, stored, vs[i], id).slot, k, started, scope);
    SlotStands(d, k);
  }

  lemma TracksHaveRows(db: Db, k: Key)
    ensures Get(db, k).track.Some? ==> Get(db, k).row.Some? && Get(db, k).row.value.trackId.Some?
  {
  }

  // ----- every history ------------------------------------------------------------------------------

  /** A linked row has its track and knows its tags; a track no user ever edited shows them. */
  ghost predicate TrueToTags(s: Slot) {
    s.row.Some? && s.row.value.trackId.Some? ==>
      s.track.Some? && s.row.value.fingerprint.Some? && (s.track.value.editedAt.None? ==> ShowsCore(s.track.value.fields, s.row.value.fingerprint.value))
  }

  ghost predicate AllTrue(db: Db) { forall k :: TrueToTags(Get(db, k)) }

  lemma VisitStaysTrue(s: Slot, cfg: Config, stored: set<string>, v: Visit, newId: TrackId)
    requires TrueToTags(s) && Coherent(s)
    ensures TrueToTags(Step(s, cfg, stored, v, newId).slot)
  {
    var o, row := v.offer, RowOr(s);
    assert TrueToTags(s.(row := Some(row)));
    if o.meta.Some? && ShaOf(cfg, o).Some? {
      CommitIsTrue(s, row, cfg, o, ShaOf(cfg, o).value, v.at, newId);
    }
    forall sha { ShadowStaysTrue(s, row, o.item, sha, v.at); }
    hide FastGuard, ShaOf, Commit, Shadow, ShowsCore, MatchesExisting;
  }

  lemma CommitIsTrue(s: Slot, row: Row, cfg: Config, o: Offer, sha: string, at: Instants, newId: TrackId)
    requires Coherent(s) && TrueToTags(s.(row := Some(row))) && o.meta.Some? && (s.track.Some? ==> row.trackId.Some?)
    ensures TrueToTags(Commit(s, row, cfg, o, sha, at, newId).slot)
  {
  }

  lemma ShadowStaysTrue(s: Slot, row: Row, item: Item, sha: string, at: Instants)
    requires TrueToTags(s.(row := Some(row)))
    ensures TrueToTags(Shadow(s, row, item, sha, at).slot)
  {
    hide ShowsCore;
  }

  lemma SweepStaysTrue(s: Slot, k: Key, started: Time, scope: Option<string>)
    requires TrueToTags(s)
    ensures TrueToTags(MissingSlot(s, k, started, scope))
  {
  }

  lemma SyncStaysTrue(db: Db, a: Act)
    requires a.Sync? && DistinctKeys(a.visits) && WellLinked(db) && AllTrue(db)
    ensures AllTrue(Perform(db, a))
  {
    hide Step, Get, NewIdFor, MissingSlot, TrueToTags, SyncRun;
    RunActsSlotwise(db, a.cfg, a.stored, a.visits, a.started, a.incremental, a.scope);
    forall k ensures TrueToTags(Get(Perform(db, a), k)) {
      var v, s, id := VisitOf(a.visits, k), Get(db, k), NewIdFor(db, a.cfg, a.stored, a.visits, k);
      SlotsOfTablesAreCoherent(db, k);
      if v.Some? {
        VisitStaysTrue(s, a.cfg, a.stored, v.value, id);
      }
      SweepStaysTrue(Visited(s, a.cfg, a.stored, v, id), k, a.started, a.scope);
    }
  }

  /** Writing a track's own tags back leaves it showing them. */
  lemma WrittenBackStaysTrue(s: Slot, m: Mutation, albumArtist: string, now: Time)
    requires s.row.Some? && s.row.value.trackId.Some? && s.track.Some? && TrueToTags(s)
    ensures TrueToTags(WrittenSlot(s, m, albumArtist, now))
  {
  }

  lemma WriteBackStaysTrue(db: Db, a: Act)
    requires a.WriteBack? && WellLinked(db) && AllTrue(db)
    ensures AllTrue(Perform(db, a))
  {
    LinksOfOthersDiffer(db, a.key);
    hide WellLinked, TagsOf, WrittenBack, ShowsCore;
    var s, d := Get(db, a.key), Perform(db, a);
    forall k | k != a.key ensures Get(d, k) == Get(db, k) {
    }
    if s.row.Some? && s.row.value.writeBackPending && s.track.Some? && a.outcome.Some? {
      assert Get(d, a.key) == WrittenSlot(s, a.outcome.value, a.albumArtist, a.now);
      WrittenBackStaysTrue(s, a.outcome.value, a.albumArtist, a.now);
      hide WrittenSlot;
      assert forall k :: TrueToTags(Get(db, k));
    } else {
      assert TrueToTags(Get(db, a.key));
    }
  }

  lemma OtherActStaysTrue(db: Db, a: Act)
    requires !a.Sync? && !a.WriteBack? && AllTrue(db)
    ensures AllTrue(Perform(db, a))
  {
    hide SyncRun, ShowsCore;
    var d := Perform(db, a);
    forall k ensures TrueToTags(Get(d, k)) {
      assert TrueToTags(Get(db, k));
    }
  }

  ghost predicate OncePerKey(acts: seq<Act>) { forall i :: 0 <= i < |acts| && acts[i].Sync? ==> DistinctKeys(acts[i].visits) }

  /** Over every history, a linked track no user ever edited shows the tags its row has as fingerprint. */
  lemma {:induction false} TracksStayTrueToTags(acts: seq<Act>)
    requires OncePerKey(acts)
    ensures WellLinked(After(EMPTY, acts)) && AllTrue(After(EMPTY, acts))
  {
    hide AllTrue, WellLinked, Perform;
    if acts == [] {
      NothingToShow();
    } else {
      var front, a := acts[..|acts| - 1], acts[|acts| - 1];
      assert forall i :: 0 <= i < |front| ==> front[i] == acts[i];
      TracksStayTrueToTags(front);
      var db := After(EMPTY, front);
      if a.Sync? {
        SyncKeepsLinks(db, a);
        SyncStaysTrue(db, a);
      } else {
        ActKeepsLinks(db, a);
        if a.WriteBack? {
          WriteBackStaysTrue(db, a);
        } else {
          OtherActStaysTrue(db, a);
        }
      }
    }
  }

  lemma {:induction false} AllowedIsOncePerKey(world: World, db: Db, acts: seq<Act>)
    requires AllowedHistory(world, db, acts)
    ensures OncePerKey(acts)
  {
    hide After, Perform;
    if acts != [] {
      AllowedIsOncePerKey(world, db, acts[..|acts| - 1]);
      assert forall i :: 0 <= i < |acts| - 1 ==> acts[..|acts| - 1][i] == acts[i];
    }
  }

  lemma NothingToShow()
    ensures WellLinked(EMPTY) && AllTrue(EMPTY)
  {
  }

  lemma SyncKeepsLinks(db: Db, a: Act)
    requires a.Sync? && DistinctKeys(a.visits) && WellLinked(db)
    ensures WellLinked(Perform(db, a))
  {
    hide SyncRun, WellLinked;
    RunActsSlotwise(db, a.cfg, a.stored, a.visits, a.started, a.incremental, a.scope);
  }

  /** The key has an active row and a track; unless a user edited it, it shows the tags and is in the library. */
  ghost predicate Shown(db: Db, k: Key, c: CoreTags) {
    && k in db.rows && db.rows[k].state == Active && db.rows[k].trackId.Some? && db.rows[k].trackId.value in db.tracks
    && (TrackAt(db, k).editedAt.None? ==> ShowsCore(TrackAt(db, k).fields, c) && db.rows[k].trackId.value in db.members)
  }

  /** The same of a slot, seen at an instant. */
  predicate SlotShown(t: Slot, c: CoreTags, seen: Time) {
    && t.row.Some? && t.row.value.state == Active && t.row.value.lastSeen == Some(seen) && t.row.value.trackId.Some? && t.track.Some?
    && (t.track.value.editedAt.None? ==> ShowsCore(t.track.value.fields, c) && t.member)
  }

  lemma ShownInTables(db: Db, k: Key, c: CoreTags, seen: Time)
    requires SlotShown(Get(db, k), c, seen)
    ensures Shown(db, k, c)
  {
    hide ShowsCore;
  }

  lemma ShownIsNotMissing(t: Slot, c: CoreTags, seen: Time, k: Key, started: Time, scope: Option<string>)
    requires SlotShown(t, c, seen) && seen >= started
    ensures MissingSlot(t, k, started, scope) == t
  {
  }

  /** Trusting the listing of a current row is as good as reading it. */
  lemma TrustedVisitShows(world: World, s: Slot, cfg: Config, stored: set<string>, v: Visit, id: TrackId, sha: string, m: Metadata)
    requires Current(world, v.offer.item.key, s) && TrueToTags(s) && Faithful(world, cfg, v.offer)
    requires !v.offer.raises && ProvedUnchanged(cfg, s, v.offer.item)
    requires ShaOf(cfg, v.offer) == Some(sha) && sha !in stored && v.offer.meta == Some(m)
    ensures SlotShown(Step(s, cfg, stored, v, id).slot, m.core, v.at.seen)
  {
    MatchingIsTokenEquality(v.offer.item, s.row.value);
    assert s.row.value.sha == Some(sha);
    ListedUnchangedIsStamped(s, cfg, stored, v, id);
    hide Step, ShaOf, ShowsCore;
  }

  lemma ReadVisitShows(s: Slot, cfg: Config, stored: set<string>, v: Visit, id: TrackId, sha: string, m: Metadata)
    requires Coherent(s) && TrueToTags(s) && Reads(cfg, stored, s, v.offer, sha, m)
    ensures SlotShown(Step(s, cfg, stored, v, id).slot, m.core, v.at.seen)
  {
    hide Reads, Step, ShowsCore;
    if s.track.None? {
      NewItemBecomesATrack(s, cfg, stored, v, id, sha, m);
    } else if s.row.None? || s.row.value.trackId.None? {
      assert false;
    } else if s.row.value.fingerprint == Some(m.core) {
      SameTagsStampTheTrack(s, cfg, stored, v, id, sha, m);
    } else if EditedSince(s.track.value) {
      EditStandsAgainstNewTags(s, cfg, stored, v, id, sha, m);
    } else {
      NewTagsReachTheTrack(s, cfg, stored, v, id, sha, m);
    }
  }

  lemma VisitShowsTheFile(world: World, s: Slot, cfg: Config, stored: set<string>, v: Visit, id: TrackId, sha: string, m: Metadata)
    requires Current(world, v.offer.item.key, s) && TrueToTags(s) && Coherent(s) && Faithful(world, cfg, v.offer)
    requires !v.offer.raises && Hashes(cfg, v.offer, sha) && sha !in stored && v.offer.meta == Some(m) && !Buried(cfg, s)
    ensures SlotShown(Step(s, cfg, stored, v, id).slot, m.core, v.at.seen)
  {
    HashIsResolved(cfg, v.offer, sha);
    hide Current, Faithful, SlotShown, Hashes, Buried, Step, ShaOf;
    if ProvedUnchanged(cfg, s, v.offer.item) {
      TrustedVisitShows(world, s, cfg, stored, v, id, sha, m);
    } else {
      ReadVisitShows(s, cfg, stored, v, id, sha, m);
    }
  }

  lemma EmptyIsGood(world: World)
    ensures Good(world, EMPTY)
  {
  }

  /**
   The sync shows what the files say.  After any history of runs, edits, write-backs and
   deletions, tombstones and restores in which nothing spoilt the table, let a run list an
   item that can be read, has no stored copy and is not a tombstone left alone.  Whichever
   branch its visit takes, the item ends under an active row, and unless a user edited its
   track, the track shows the tags of the listed version and is in the library.
   */
  lemma SyncedItemsShowTheirFiles(world: World, acts: seq<Act>, cfg: Config, stored: set<string>, vs: seq<Visit>,
      started: Time, incremental: bool, scope: Option<string>, i: nat, sha: string, m: Metadata)
    requires AllowedHistory(world, EMPTY, acts) && Unspoilt(world, EMPTY, acts)
    requires i < |vs| && DistinctKeys(vs) && During(vs, started) && Faithful(world, cfg, vs[i].offer)
    requires var o := vs[i].offer;
             !o.raises && Hashes(cfg, o, sha) && sha !in stored && o.meta == Some(m) && !Buried(cfg, Get(After(EMPTY, acts), o.item.key))
    ensures var k, d := vs[i].offer.item.key, SyncRun(After(EMPTY, acts), cfg, stored, vs, started, incremental, scope).db;
            Shown(d, k, m.core)
  {
    var db, v, k := After(EMPTY, acts), vs[i], vs[i].offer.item.key;
    var d, s, id := SyncRun(db, cfg, stored, vs, started, incremental, scope).db, Get(db, k), NewIdFor(db, cfg, stored, vs, k);
    EmptyIsGood(world);
    HistoriesStayGood(world, EMPTY, acts);
    AllowedIsOncePerKey(world, EMPTY, acts);
    TracksStayTrueToTags(acts);
    ListedKeyEndsAsVisited(db, cfg, stored, vs, started, incremental, scope, i);
    SlotsOfTablesAreCoherent(db, k);
    hide Step, After, AllowedHistory, Unspoilt, OncePerKey, SyncRun, Get, NewIdFor, MissingSlot, Current, TrueToTags, WellLinked,
        Faithful, Hashes, Buried, SlotShown, Shown, Coherent;
    VisitShowsTheFile(world, s, cfg, stored, v, id, sha, m);
    ShownIsNotMissing(Step(s, cfg, stored, v, id).slot, m.core, v.at.seen, k, started, scope);
    ShownInTables(d, k, m.core, v.at.seen);
  }
}
