/**
 The branch that trusts the listing against the branch that hashes and reads, over every
 history of syncs, local edits, write-backs, deletions, tombstoning, restoring and changes to
 the shelf by hand.

 `World` says what a provider version contains: versions are named by the change token
 the listing carries, and equal tokens mean equal hash and tags.
 */
module FastPath {
  import opened Prelude
  import opened FileSyncModel
  import opened FileSyncTheorems

  datatype Content = Content(hash: string, meta: Metadata)

  type World = (Key, Token) -> Content

  lemma MatchingIsTokenEquality(item: Item, row: Row)
    ensures MatchesExisting(item, row) <==> ItemToken(item) == RowToken(row) && ItemToken(item) != NoToken
  {
  }

  /** Whatever a visit manages to read is what the listed version contains. */
  ghost predicate Faithful(world: World, cfg: Config, o: Offer) {
    ItemToken(o.item) != NoToken ==>
      var c := world(o.item.key, ItemToken(o.item));
      && (ShaOf(cfg, o).Some? ==> ShaOf(cfg, o).value == c.hash)
      && (o.meta.Some? ==> o.meta.value == c.meta)
  }

  /** The listing could prove this row unchanged: it is linked and has a hash and a change token. */
  predicate Recorded(row: Row) { row.trackId.Some? && Truthy(row.sha) && RowToken(row) != NoToken }

  /**
   The row's tags are `m`: read and applied, or read while a newer local edit stood against
   them.
   */
  predicate TagsFit(s: Slot, m: Metadata)
    requires s.row.Some? && s.track.Some?
  {
    s.row.value.raw == m.raw && (s.row.value.fingerprint == Some(m.core) || LocalEdited(s.track.value))
  }

  /** And a track whose tags were applied is on its shelf. */
  predicate Reconciled(s: Slot, m: Metadata)
    requires s.row.Some? && s.track.Some?
  {
    TagsFit(s, m) && (s.row.value.fingerprint == Some(m.core) ==> s.member)
  }

  /** A row the listing may be trusted for has the hash and is reconciled with the tags of the version its token names. */
  ghost predicate Current(world: World, k: Key, s: Slot) {
    s.row.Some? && s.track.Some? && s.row.value.state == Active && Recorded(s.row.value) ==>
      var c := world(k, RowToken(s.row.value));
      s.row.value.sha == Some(c.hash) && Reconciled(s, c.meta)
  }

  /** Equal in everything but clock readings, errors, write-back flags and unused version columns. */
  ghost predicate SameEssentials(a: Slot, b: Slot)
    requires a.row.Some? && b.row.Some?
  {
    var r, q := a.row.value, b.row.value;
    && r.state == q.state && r.trackId == q.trackId && r.sha == q.sha
    && r.fingerprint == q.fingerprint && r.raw == q.raw && RowToken(r) == RowToken(q)
    && (a.track.Some? <==> b.track.Some?)
    && (a.track.Some? ==> TimelessTrack(a.track.value) == TimelessTrack(b.track.value))
    && a.member == b.member
  }

  /**
   Where the listing proves an item unchanged and the reads it would skip work, skipping
   them gives the same result as doing them exactly when the stored hash is the one that
   would be computed and the item is to be shadowed or its row is reconciled with the tags.
   */
  lemma FastAgreesWithSlow(s: Slot, cfg: Config, stored: set<string>, v: Visit, newId: TrackId)
    requires Coherent(s) && s.row.Some? && !v.offer.raises && FastGuard(cfg, s.row.value, v.offer.item) && s.track.Some?
    requires ShaOf(cfg, v.offer).Some? && v.offer.meta.Some?
    ensures var quick := Step(s, cfg, stored, v, newId).slot;
            var full := Slow(s, s.row.value, cfg, stored, v.offer, v.at, newId).slot;
            && quick.row.Some? && full.row.Some?
            && (SameEssentials(quick, full) <==>
                  && s.row.value.sha == ShaOf(cfg, v.offer)
                  && (s.row.value.sha.value in stored || Reconciled(s, v.offer.meta.value)))
  {
    MatchingIsTokenEquality(v.offer.item, s.row.value);
  }

  /** Dropping a track from the library by hand makes the two branches differ. */
  lemma UnshelvedTrackIsTheDifference(s: Slot, cfg: Config, v: Visit, newId: TrackId)
    requires Coherent(s) && s.row.Some? && !v.offer.raises && FastGuard(cfg, s.row.value, v.offer.item) && s.track.Some?
    requires ShaOf(cfg, v.offer).Some? && v.offer.meta.Some?
    requires !s.member && s.row.value.fingerprint == Some(v.offer.meta.value.core)
    ensures !Step(s, cfg, {}, v, newId).slot.member
    ensures Slow(s, s.row.value, cfg, {}, v.offer, v.at, newId).slot.member
  {
  }

  /**
   One visit decides whether an unreconciled-looking edit stays protected from the next
   provider change: the branch that trusts the listing keeps it, while re-reading unchanged
   tags stamps the track as synced and so gives the protection up.
   */
  lemma RereadingForgetsTheEdit(s: Slot, cfg: Config, stored: set<string>, v: Visit, newId: TrackId)
    requires Coherent(s) && s.row.Some? && s.track.Some? && LocalEdited(s.track.value)
    requires v.at.synced >= s.track.value.editedAt.value
    requires !v.offer.raises && (s.row.value.state == Tombstoned ==> cfg.includeTombstones)
    ensures var t := Step(s, cfg, stored, v, newId).slot;
            t.track.Some? ==>
              (LocalEdited(t.track.value) <==>
                || (FastGuard(cfg, s.row.value, v.offer.item))
                || ShaOf(cfg, v.offer).None? || ShaOf(cfg, v.offer).value in stored || v.offer.meta.None?
                || s.row.value.fingerprint != Some(v.offer.meta.value.core))
  {
  }

  // ----- histories ---------------------------------------------------------------------

  /** What an adapter reports of tags it wrote. */
  datatype Mutation = Mutation(etag: Option<string>, mtime: Option<Time>, checksum: Option<string>, hash: Option<string>)

  /** The tags a write-back writes: those of the track. */
  function TagsOf(f: TrackFields, albumArtist: string): CoreTags {
    CoreTags(f.title, f.artist, if f.album.Some? then f.album.value else "", albumArtist, f.trackNumber, f.discNumber,
             f.duration, f.releaseYear, f.genre, f.musicbrainzId)
  }

  /** The row once its track's tags are written: a new version, and a new hash only if one is reported. */
  function WrittenBack(row: Row, m: Mutation, core: CoreTags): Row {
    row.(etag := m.etag, mtime := m.mtime, checksum := m.checksum, sha := if Truthy(m.hash) then m.hash else row.sha,
         writeBackPending := false, writeBackError := None, fingerprint := Some(core))
  }

  /** The slot a successful write-back leaves. */
  function WrittenSlot(s: Slot, m: Mutation, albumArtist: string, now: Time): Slot
    requires s.row.Some? && s.track.Some?
  {
    Slot(Some(WrittenBack(s.row.value, m, TagsOf(s.track.value.fields, albumArtist))),
         Some(s.track.value.(syncedAt := Some(now))), s.member)
  }

  /** What happens to a file library: runs, and what users do to tracks, rows and the shelf. */
  datatype Act =
    | Sync(cfg: Config, stored: set<string>, visits: seq<Visit>, started: Time, incremental: bool, scope: Option<string>)
    | Edit(track: TrackId, fields: TrackFields, queues: bool, now: Time)
    | WriteBack(key: Key, albumArtist: string, outcome: Option<Mutation>, now: Time)
    | DeleteTrack(gone: TrackId)
    | Tombstone(key: Key, now: Time)
    | Restore(key: Key, now: Time)
    | Unshelve(track: TrackId)
    | Shelve(track: TrackId)
    | DeleteSource(key: Key, withTrack: bool, now: Time)

  /** The links of a deleted track are set to null, and its memberships go with it. */
  function WithoutTrack(db: Db, t: TrackId): Db {
    db.(rows := map k | k in db.rows ::
          if db.rows[k].trackId == Some(t) then db.rows[k].(trackId := None) else db.rows[k],
        tracks := db.tracks - {t}, members := db.members - {t})
  }

  function Perform(db: Db, a: Act): Db {
    match a
    case Sync(cfg, stored, vs, started, incremental, scope) => SyncRun(db, cfg, stored, vs, started, incremental, scope).db
    case Edit(t, fields, queues, now) =>
      if t !in db.tracks then db
      else
        db.(rows := map k | k in db.rows ::
              if db.rows[k].trackId == Some(t) && queues then db.rows[k].(writeBackPending := true) else db.rows[k],
            tracks := db.tracks[t := db.tracks[t].(fields := fields, editedAt := Some(now))])
    case WriteBack(k, albumArtist, outcome, now) =>
      var s := Get(db, k);
      if s.row.None? || !s.row.value.writeBackPending || s.track.None? then db
      else if outcome.None? then
        db.(rows := db.rows[k := s.row.value.(writeBackError := Some("write-back failed"))])
      else
        var t := WrittenSlot(s, outcome.value, albumArtist, now);
        db.(rows := db.rows[k := t.row.value], tracks := db.tracks[s.row.value.trackId.value := t.track.value])
    case DeleteTrack(t) => WithoutTrack(db, t)
    case Tombstone(k, now) =>
      if k !in db.rows then db
      else
        db.(rows := db.rows[k := db.rows[k].(state := Tombstoned, lastSeen := Some(now))],
            members := db.members - Ids(db.rows[k].trackId))
    case Restore(k, now) =>
      if k !in db.rows || db.rows[k].state != Tombstoned then db
      else
        db.(rows := db.rows[k := db.rows[k].(state := Active, syncError := None, lastSeen := Some(now))],
            members := db.members + Ids(db.rows[k].trackId))
    case Unshelve(t) => db.(members := db.members - {t})
    case Shelve(t) => if t in db.tracks then db.(members := db.members + {t}) else db
    case DeleteSource(k, withTrack, now) =>
      if k !in db.rows then db
      else if withTrack && db.rows[k].trackId.Some? then
        var d := WithoutTrack(db, db.rows[k].trackId.value);
        d.(rows := d.rows - {k})
      else db.(rows := db.rows[k := db.rows[k].(state := Missing, lastSeen := Some(now))])
  }

  /** The provider honours its tokens and the clock does not run backwards. */
  ghost predicate Allowed(world: World, db: Db, a: Act) {
    match a
    case Sync(cfg, _, vs, _, _, _) => DistinctKeys(vs) && forall i :: 0 <= i < |vs| ==> Faithful(world, cfg, vs[i].offer)
    case Edit(t, _, _, now) => t in db.tracks && db.tracks[t].editedAt.Some? ==> now >= db.tracks[t].editedAt.value
    case _ => true
  }

  ghost predicate Good(world: World, db: Db) {
    WellLinked(db) && forall k :: Current(world, k, Get(db, k))
  }

  // ----- what spoils a table that was good -------------------------------------------------

  /**
   Restoring a row whose hash or tags are not those of the version it names, taking a
   reconciled active track off its shelf by hand, and writing tags back to an active row
   that then does not describe what it names -- a new version whose hash is not reported,
   or whose other tags moved.
   */
  ghost predicate Spoils(world: World, db: Db, a: Act) {
    match a
    case Restore(k, _) =>
      && k in db.rows && db.rows[k].state == Tombstoned && Recorded(db.rows[k]) && Get(db, k).track.Some?
      && var c := world(k, RowToken(db.rows[k]));
         !(db.rows[k].sha == Some(c.hash) && TagsFit(Get(db, k), c.meta))
    case Unshelve(t) =>
      exists k :: k in db.rows && db.rows[k].state == Active && Recorded(db.rows[k]) && db.rows[k].trackId == Some(t)
        && t in db.tracks && db.rows[k].fingerprint == Some(world(k, RowToken(db.rows[k])).meta.core)
    case WriteBack(k, albumArtist, outcome, now) =>
      var s := Get(db, k);
      && s.row.Some? && s.row.value.writeBackPending && s.track.Some? && outcome.Some?
      && !Current(world, k, WrittenSlot(s, outcome.value, albumArtist, now))
    case _ => false
  }

  lemma FewerLinks(db: Db, d: Db)
    requires WellLinked(db) && d.nextId == db.nextId && d.tracks.Keys <= db.tracks.Keys
    requires forall k :: k in d.rows ==> k in db.rows && (d.rows[k].trackId.Some? ==> d.rows[k].trackId == db.rows[k].trackId)
    requires forall t :: t in d.members ==> t in db.members || t < db.nextId
    ensures WellLinked(d)
  {
  }

  lemma LinksAreOld(db: Db)
    requires WellLinked(db)
    ensures forall k :: k in db.rows && db.rows[k].trackId.Some? ==> db.rows[k].trackId.value < db.nextId
    ensures forall t :: t in db.tracks ==> t < db.nextId
  {
  }

  lemma ActKeepsLinks(db: Db, a: Act)
    requires WellLinked(db) && !a.Sync?
    ensures WellLinked(Perform(db, a))
  {
    LinksAreOld(db);
    hide SyncRun, TagsOf, WellLinked;
    FewerLinks(db, Perform(db, a));
  }

  lemma CommitIsCurrent(world: World, s: Slot, cfg: Config, o: Offer, sha: string, at: Instants, newId: TrackId)
    requires o.meta.Some? && ShaOf(cfg, o) == Some(sha) && Faithful(world, cfg, o)
    ensures Current(world, o.item.key, Commit(s, RowOr(s), cfg, o, sha, at, newId).slot)
  {
  }

  lemma VisitStaysCurrent(world: World, s: Slot, cfg: Config, stored: set<string>, v: Visit, newId: TrackId)
    requires Current(world, v.offer.item.key, s) && Faithful(world, cfg, v.offer)
    ensures Current(world, v.offer.item.key, Step(s, cfg, stored, v, newId).slot)
  {
    hide Commit;
    var o := v.offer;
    if o.meta.Some? && ShaOf(cfg, o).Some? {
      CommitIsCurrent(world, s, cfg, o, ShaOf(cfg, o).value, v.at, newId);
    }
  }

  lemma MissingStaysCurrent(world: World, k: Key, s: Slot, started: Time, scope: Option<string>)
    requires Current(world, k, s)
    ensures Current(world, k, MissingSlot(s, k, started, scope))
  {
  }

  lemma SyncStaysGood(world: World, db: Db, a: Act)
    requires a.Sync? && Good(world, db) && Allowed(world, db, a)
    ensures Good(world, Perform(db, a))
  {
    hide Step, Put, NewIdFor, Current, Faithful;
    RunActsSlotwise(db, a.cfg, a.stored, a.visits, a.started, a.incremental, a.scope);
    forall k ensures Current(world, k, Get(Perform(db, a), k)) {
      var v, s := VisitOf(a.visits, k), Get(db, k);
      var id := NewIdFor(db, a.cfg, a.stored, a.visits, k);
      if v.Some? {
        VisitStaysCurrent(world, s, a.cfg, a.stored, v.value, id);
      }
      MissingStaysCurrent(world, k, Visited(s, a.cfg, a.stored, v, id), a.started, a.scope);
    }
  }

  lemma RestoreStaysGoodIff(world: World, db: Db, a: Act)
    requires a.Restore? && Good(world, db)
    ensures Good(world, Perform(db, a)) <==> !Spoils(world, db, a)
  {
    ActKeepsLinks(db, a);
    var d := Perform(db, a);
    hide WellLinked;
    LinksOfOthersDiffer(db, a.key);
    forall k | k != a.key ensures Get(d, k) == Get(db, k) {
    }
    assert Current(world, a.key, Get(d, a.key)) <==> !Spoils(world, db, a);
  }

  lemma LinksOfOthersDiffer(db: Db, k: Key)
    requires WellLinked(db)
    ensures forall j :: j != k && j in db.rows && k in db.rows && db.rows[k].trackId.Some? ==> db.rows[j].trackId != db.rows[k].trackId
  {
  }

  lemma UnshelvingStaysGoodIff(world: World, db: Db, a: Act)
    requires a.Unshelve? && Good(world, db)
    ensures Good(world, Perform(db, a)) <==> !Spoils(world, db, a)
  {
    ActKeepsLinks(db, a);
    hide WellLinked;
    var d, t := Perform(db, a), a.track;
    forall k
      ensures Current(world, k, Get(d, k)) <==>
                !(k in db.rows && db.rows[k].state == Active && Recorded(db.rows[k]) && db.rows[k].trackId == Some(t)
                  && t in db.tracks && db.rows[k].fingerprint == Some(world(k, RowToken(db.rows[k])).meta.core))
    {
      assert Current(world, k, Get(db, k));
    }
  }

  lemma WritingBackStaysGoodIff(world: World, db: Db, a: Act)
    requires a.WriteBack? && Good(world, db)
    ensures Good(world, Perform(db, a)) <==> !Spoils(world, db, a)
  {
    ActKeepsLinks(db, a);
    LinksOfOthersDiffer(db, a.key);
    hide WellLinked, TagsOf, WrittenBack;
    var s, d := Get(db, a.key), Perform(db, a);
    forall k | k != a.key ensures Get(d, k) == Get(db, k) {
    }
    if s.row.Some? && s.row.value.writeBackPending && s.track.Some? && a.outcome.Some? {
      assert Get(d, a.key) == WrittenSlot(s, a.outcome.value, a.albumArtist, a.now);
    } else {
      assert Current(world, a.key, Get(db, a.key));
    }
  }

  lemma OtherActsStayGood(world: World, db: Db, a: Act)
    requires Good(world, db) && Allowed(world, db, a) && !a.Sync? && !a.Restore? && !a.Unshelve? && !a.WriteBack?
    ensures Good(world, Perform(db, a))
  {
    ActKeepsLinks(db, a);
    hide SyncRun, WellLinked;
    var d := Perform(db, a);
    forall k ensures Current(world, k, Get(d, k)) {
      assert Current(world, k, Get(db, k));
    }
  }

  /** Of all acts exactly those three kinds leave an active row behind its version. */
  lemma ActStaysGoodIff(world: World, db: Db, a: Act)
    requires Good(world, db) && Allowed(world, db, a)
    ensures Good(world, Perform(db, a)) <==> !Spoils(world, db, a)
  {
    hide Good, Allowed, Perform;
    match a
    case Sync(_, _, _, _, _, _) => SyncStaysGood(world, db, a);
    case Restore(_, _) => RestoreStaysGoodIff(world, db, a);
    case Unshelve(_) => UnshelvingStaysGoodIff(world, db, a);
    case WriteBack(_, _, _, _) => WritingBackStaysGoodIff(world, db, a);
    case _ => OtherActsStayGood(world, db, a);
  }

  // ----- over every history ----------------------------------------------------------------

  ghost function After(db: Db, acts: seq<Act>): Db {
    if acts == [] then db else Perform(After(db, acts[..|acts| - 1]), acts[|acts| - 1])
  }

  ghost predicate AllowedHistory(world: World, db: Db, acts: seq<Act>) {
    acts != [] ==>
      && AllowedHistory(world, db, acts[..|acts| - 1])
      && Allowed(world, After(db, acts[..|acts| - 1]), acts[|acts| - 1])
  }

  ghost predicate Unspoilt(world: World, db: Db, acts: seq<Act>) {
    acts != [] ==>
      && Unspoilt(world, db, acts[..|acts| - 1])
      && !Spoils(world, After(db, acts[..|acts| - 1]), acts[|acts| - 1])
  }

  lemma {:induction false} HistoriesStayGood(world: World, db: Db, acts: seq<Act>)
    requires Good(world, db) && AllowedHistory(world, db, acts) && Unspoilt(world, db, acts)
    ensures Good(world, After(db, acts))
  {
    hide Good, Allowed, Perform, Spoils;
    if acts != [] {
      HistoriesStayGood(world, db, acts[..|acts| - 1]);
      ActStaysGoodIff(world, After(db, acts[..|acts| - 1]), acts[|acts| - 1]);
    }
  }

  const EMPTY := Db(map[], map[], {}, 0)

  /** A visit that takes the branch trusting the listing, of an item whose reads would work. */
  ghost predicate Trusts(world: World, db: Db, cfg: Config, v: Visit) {
    var s := Get(db, v.offer.item.key);
    && Faithful(world, cfg, v.offer) && ShaOf(cfg, v.offer).Some? && v.offer.meta.Some? && !v.offer.raises
    && s.row.Some? && s.track.Some? && FastGuard(cfg, s.row.value, v.offer.item)
  }

  /** The two branches, from the same table. */
  ghost predicate BranchesAgree(db: Db, cfg: Config, stored: set<string>, v: Visit)
    requires Get(db, v.offer.item.key).row.Some?
  {
    var s := Get(db, v.offer.item.key);
    var quick, full := Step(s, cfg, stored, v, db.nextId).slot, Slow(s, s.row.value, cfg, stored, v.offer, v.at, db.nextId).slot;
    quick.row.Some? && full.row.Some? && SameEssentials(quick, full)
  }

  /** In any table, whatever led to it, the two branches agree exactly under that condition. */
  lemma BranchesAgreeIff(world: World, db: Db, cfg: Config, stored: set<string>, v: Visit)
    requires Trusts(world, db, cfg, v)
    ensures var s := Get(db, v.offer.item.key);
            BranchesAgree(db, cfg, stored, v) <==>
              && s.row.value.sha == ShaOf(cfg, v.offer)
              && (s.row.value.sha.value in stored || Reconciled(s, v.offer.meta.value))
  {
    SlotsOfTablesAreCoherent(db, v.offer.item.key);
    hide Step, Slow, SameEssentials;
    FastAgreesWithSlow(Get(db, v.offer.item.key), cfg, stored, v, db.nextId);
  }

  /**
   The fast path refines the slow path: after any history -- with failures, scopes,
   shadowing, conflicts, edits, write-backs, deletions, tombstones and restores -- in which
   no act spoilt the table, a visit that takes the fast branch ends as the full branch would
   have.
   */
  lemma FastPathRefinesSlowPath(world: World, acts: seq<Act>, cfg: Config, stored: set<string>, v: Visit)
    requires AllowedHistory(world, EMPTY, acts) && Unspoilt(world, EMPTY, acts)
    requires Trusts(world, After(EMPTY, acts), cfg, v)
    ensures BranchesAgree(After(EMPTY, acts), cfg, stored, v)
  {
    var db := After(EMPTY, acts);
    var s := Get(db, v.offer.item.key);
    assert Good(world, EMPTY);
    HistoriesStayGood(world, EMPTY, acts);
    BranchesAgreeIff(world, db, cfg, stored, v);
    MatchingIsTokenEquality(v.offer.item, s.row.value);
    assert Current(world, v.offer.item.key, s);
    hide BranchesAgree, After, AllowedHistory, Unspoilt;
  }

  /**
   And the condition is exact: where nothing is to be shadowed, the branches agree on a
   visit if and only if the visited row is current, so every act that spoils a good table
   leaves a row on which they disagree.
   */
  lemma BranchesAgreeIffCurrent(world: World, db: Db, cfg: Config, v: Visit)
    requires Trusts(world, db, cfg, v)
    ensures BranchesAgree(db, cfg, {}, v) <==> Current(world, v.offer.item.key, Get(db, v.offer.item.key))
  {
    BranchesAgreeIff(world, db, cfg, {}, v);
    MatchingIsTokenEquality(v.offer.item, Get(db, v.offer.item.key).row.value);
    hide BranchesAgree;
  }
}
