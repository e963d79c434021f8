/**
 The file-library pass of the synchroniser, as a specification on values.

 The tables are maps.  What one listed item may read or write is its *slot*: the
 external row under its key, the track that row links to and that track's membership
 of the library.  `Step` is the per-item state machine on a slot; `Put` writes a slot
 back into the tables.
 */
module FileSyncModel {
  import opened Prelude

  type Key = string
  type TrackId = nat
  type Time = int
  type RawTags = Option<map<string, string>>

  /** The editable tag subset.  It doubles as its own (collision-free) fingerprint. */
  datatype CoreTags = CoreTags(
    title: string, artist: string, album: string, albumArtist: string,
    trackNumber: Option<int>, discNumber: Option<int>, duration: Option<real>,
    releaseYear: Option<int>, genre: Option<string>, musicbrainzId: Option<string>)

  datatype Metadata = Metadata(core: CoreTags, artists: seq<string>, raw: RawTags)

  datatype TrackFields = TrackFields(
    title: string, artist: string, album: Option<string>, extraArtists: seq<string>,
    trackNumber: Option<int>, discNumber: Option<int>, duration: Option<real>,
    genre: Option<string>, musicbrainzId: Option<string>, releaseYear: Option<int>,
    mime: Option<string>, raw: RawTags)

  datatype Track = Track(
    fields: TrackFields, editedAt: Option<Time>, syncedAt: Option<Time>, enriched: bool)

  datatype State = Active | Shadowed | Tombstoned | Missing | Error

  datatype SyncError = NoHash | HashFailed | ReadFailed | Conflicting

  datatype Row = Row(
    trackId: Option<TrackId>,
    etag: Option<string>, mtime: Option<Time>, size: Option<nat>,
    mime: Option<string>, checksum: Option<string>, sha: Option<string>,
    fingerprint: Option<CoreTags>, raw: RawTags,
    state: State, syncError: Option<SyncError>, writeBackPending: bool, writeBackError: Option<string>,
    lastSeen: Option<Time>, lastSynced: Option<Time>)

  datatype Db = Db(rows: map<Key, Row>, tracks: map<TrackId, Track>, members: set<TrackId>, nextId: TrackId)

  datatype Item = Item(
    key: Key, etag: Option<string>, mtime: Option<Time>, size: Option<nat>,
    mime: Option<string>, checksum: Option<string>, sha256: Option<string>)

  /** A listed item with what the adapter's reads of it give; `None` is a read that raises. */
  datatype Offer = Offer(item: Item, hash: Option<string>, meta: Option<Metadata>, raises: bool)

  /** The clock readings one visit takes, in the order it takes them. */
  datatype Instants = Instants(synced: Time, seen: Time, done: Time)

  datatype Visit = Visit(offer: Offer, at: Instants)

  datatype Config = Config(
    detectChanges: bool, computeHash: bool, checksumIsSha256: bool, allowHashing: bool,
    writeTags: bool, listItems: bool, includeTombstones: bool)

  datatype Counters = Counters(
    seen: nat, created: nat, updated: nat, shadowed: nat, missing: nat, failed: nat,
    enrich: set<TrackId>)

  datatype Decision = Created | Updated | Unchanged | ConflictWriteBack

  datatype Slot = Slot(row: Option<Row>, track: Option<Track>, member: bool)

  datatype Stepped = Stepped(slot: Slot, delta: Counters)

  const ZERO := Counters(0, 0, 0, 0, 0, 0, {})

  function Plus(a: Counters, b: Counters): Counters {
    Counters(a.seen + b.seen, a.created + b.created, a.updated + b.updated, a.shadowed + b.shadowed,
             a.missing + b.missing, a.failed + b.failed, a.enrich + b.enrich)
  }

  function NewRow(): Row {
    Row(None, None, None, None, None, None, None, None, None, Active, None, false, None, None, None)
  }

  // ----- change tokens ---------------------------------------------------------------

  /** `_item_matches_existing`, branch by branch. */
  predicate MatchesExisting(item: Item, row: Row) {
    if Truthy(item.etag) || Truthy(row.etag) then
      item.etag.Some? && item.etag == row.etag
    else
      && item.mtime.Some? && item.mtime == row.mtime
      && item.size.Some? && item.size == row.size
  }

  /** What a listing record says about the item's version. */
  datatype Token = NoToken | ETag(tag: string) | Stat(mtime: Time, size: nat)

  function TokenOf(etag: Option<string>, mtime: Option<Time>, size: Option<nat>): Token {
    if Truthy(etag) then ETag(etag.value)
    else if mtime.Some? && size.Some? then Stat(mtime.value, size.value)
    else NoToken
  }

  function ItemToken(item: Item): Token { TokenOf(item.etag, item.mtime, item.size) }

  function RowToken(row: Row): Token { TokenOf(row.etag, row.mtime, row.size) }

  // ----- the rules that decide one visit -----------------------------------------------

  predicate LocalEdited(t: Track) {
    t.editedAt.Some? && (t.syncedAt.None? || t.editedAt.value > t.syncedAt.value)
  }

  function Decide(track: Option<Track>, stored: Option<CoreTags>, current: CoreTags): Decision {
    var changed := stored != Some(current);
    if track.None? then Created
    else if LocalEdited(track.value) && changed then ConflictWriteBack
    else if changed then Updated
    else Unchanged
  }

  function MimeOf(raw: RawTags): Option<string> {
    if raw.None? then None
    else if "mimetype" in raw.value then Some(raw.value["mimetype"])
    else if "mime_type" in raw.value then Some(raw.value["mime_type"])
    else None
  }

  function ProviderFields(m: Metadata, mime: Option<string>): TrackFields {
    var c := m.core;
    TrackFields(
      c.title, if c.artist == "" then "Unknown Artist" else c.artist,
      if c.album == "" then None else Some(c.album),
      if |m.artists| > 1 then m.artists[1..] else [],
      c.trackNumber, c.discNumber, c.duration, c.genre, c.musicbrainzId, c.releaseYear, mime, m.raw)
  }

  function UpdatedMime(was: Option<string>, raw: RawTags): Option<string> {
    if Truthy(MimeOf(raw)) then MimeOf(raw) else was
  }

  function AppliedTrack(track: Option<Track>, d: Decision, m: Metadata, now: Time): (t: Option<Track>)
    requires d == Created || track.Some?
    ensures t.Some? && (d == ConflictWriteBack ==> t == track)
  {
    match d
    case Created => Some(Track(ProviderFields(m, MimeOf(m.raw)), None, Some(now), false))
    case Updated =>
      Some(track.value.(fields := ProviderFields(m, UpdatedMime(track.value.fields.mime, m.raw)), syncedAt := Some(now)))
    case Unchanged => Some(track.value.(syncedAt := Some(now)))
    case ConflictWriteBack => track
  }

  /** The hash a visit works with; `None` when it can be neither resolved nor computed. */
  function ResolvedSha(cfg: Config, item: Item): Option<string> {
    if Truthy(item.sha256) then item.sha256
    else if cfg.computeHash && cfg.checksumIsSha256 && Truthy(item.checksum) then item.checksum
    else None
  }

  function ShaOf(cfg: Config, o: Offer): Option<string> {
    if ResolvedSha(cfg, o.item).Some? then ResolvedSha(cfg, o.item)
    else if cfg.computeHash && cfg.allowHashing then o.hash
    else None
  }

  /** The guard of the branch that trusts the listing. */
  predicate FastGuard(cfg: Config, row: Row, item: Item) {
    && cfg.detectChanges
    && row.state == Active
    && row.trackId.Some?
    && Truthy(row.sha)
    && MatchesExisting(item, row)
  }

  // ----- the per-item state machine ------------------------------------------------------

  function Failed(s: Slot, row: Row, e: SyncError, at: Instants): Stepped {
    Stepped(
      s.(row := Some(row.(state := Error, syncError := Some(e), lastSeen := Some(at.seen), lastSynced := Some(at.done)))),
      ZERO.(seen := 1, failed := 1))
  }

  function WithItem(row: Row, item: Item, sha: string, at: Instants): Row {
    row.(etag := item.etag, mtime := item.mtime, size := item.size, mime := item.mime, checksum := item.checksum,
         sha := Some(sha), lastSeen := Some(at.seen), lastSynced := Some(at.done))
  }

  function Shadow(s: Slot, row: Row, item: Item, sha: string, at: Instants): Stepped {
    var unlink := row.state == Active && row.trackId.Some?;
    var row' := WithItem(row, item, sha, at).(
      state := Shadowed, syncError := None, trackId := if unlink then None else row.trackId);
    Stepped(
      if unlink then Slot(Some(row'), None, false) else s.(row := Some(row')),
      ZERO.(seen := 1, shadowed := 1))
  }

  function Commit(s: Slot, row: Row, cfg: Config, o: Offer, sha: string, at: Instants, newId: TrackId): Stepped
    requires o.meta.Some?
  {
    var m := o.meta.value;
    var d := Decide(s.track, row.fingerprint, m.core);
    var conflict := d == ConflictWriteBack;
    var id := if d == Created then Some(newId) else row.trackId;
    var track := AppliedTrack(s.track, d, m, at.synced);
    var row' := WithItem(row, o.item, sha, at).(
      trackId := id,
      fingerprint := if conflict then row.fingerprint else Some(m.core),
      raw := m.raw, state := Active,
      syncError := if conflict then Some(Conflicting) else None,
      writeBackPending := conflict && cfg.writeTags,
      writeBackError := if conflict && !cfg.writeTags then row.writeBackError else None);
    Stepped(
      Slot(Some(row'), track, if conflict || id.None? then s.member else true),
      ZERO.(seen := 1,
            created := if d == Created then 1 else 0,
            updated := if d == Updated then 1 else 0,
            enrich := if conflict || id.None? || track.value.enriched then {} else {id.value}))
  }

  /** The visit without trusting the listing: hash, look for a stored copy, read, apply. */
  function Slow(s: Slot, row: Row, cfg: Config, stored: set<string>, o: Offer, at: Instants, newId: TrackId): Stepped {
    match ShaOf(cfg, o)
    case None => Failed(s, row, if cfg.computeHash && cfg.allowHashing then HashFailed else NoHash, at)
    case Some(sha) =>
      if sha in stored then Shadow(s, row, o.item, sha, at)
      else if o.meta.None? then Failed(s, row, ReadFailed, at)
      else Commit(s, row, cfg, o, sha, at, newId)
  }

  /** The visit when the listing proves the item unchanged and its track is still there. */
  function Fast(s: Slot, row: Row, stored: set<string>, o: Offer, at: Instants): Stepped
    requires row.sha.Some? && row.trackId.Some? && s.track.Some?
  {
    if row.sha.value in stored then Shadow(s, row, o.item, row.sha.value, at)
    else
      Stepped(
        s.(row := Some(row.(lastSeen := Some(at.seen), lastSynced := Some(at.done), syncError := None))),
        ZERO.(seen := 1, enrich := if s.track.value.enriched then {} else {row.trackId.value}))
  }

  function RowOr(s: Slot): Row {
    if s.row.Some? then s.row.value else NewRow()
  }

  function Step(s: Slot, cfg: Config, stored: set<string>, v: Visit, newId: TrackId): Stepped {
    var o, at := v.offer, v.at;
    var row := RowOr(s);
    if o.raises then Stepped(s, ZERO.(failed := 1))
    else if row.state == Tombstoned && !cfg.includeTombstones then Stepped(s, ZERO.(seen := 1))
    else if FastGuard(cfg, row, o.item) && row.sha.value in stored then Shadow(s, row, o.item, row.sha.value, at)
    else if FastGuard(cfg, row, o.item) && s.track.Some? then Fast(s, row, stored, o, at)
    else Slow(s, row, cfg, stored, o, at, newId)
  }

  // ----- slots in the tables ---------------------------------------------------------------

  function Get(db: Db, k: Key): Slot {
    if k !in db.rows then Slot(None, None, false)
    else
      var id := db.rows[k].trackId;
      Slot(Some(db.rows[k]),
           if id.Some? && id.value in db.tracks then Some(db.tracks[id.value]) else None,
           id.Some? && id.value in db.members)
  }

  function IdOf(s: Slot): Option<TrackId> {
    if s.row.Some? then s.row.value.trackId else None
  }

  function Ids(o: Option<TrackId>): set<TrackId> {
    if o.Some? then {o.value} else {}
  }

  /** The tracks, memberships and id supply once a row that linked `was` has become `s`. */
  function Relink(db: Db, was: Option<TrackId>, s: Slot): Db {
    var now := IdOf(s);
    db.(tracks := if now.Some? && s.track.Some? then db.tracks[now.value := s.track.value] else db.tracks,
        members := (db.members - (if now != was && now.None? then Ids(was) else {})) + (if s.member then Ids(now) else {}),
        nextId := if now.Some? && now.value >= db.nextId then now.value + 1 else db.nextId)
  }

  /** Write a slot back under its key. */
  function Put(db: Db, k: Key, s: Slot): Db
    requires s.row.Some?
  {
    Relink(db, IdOf(Get(db, k)), s).(rows := db.rows[k := s.row.value])
  }

  datatype Run = Run(db: Db, counters: Counters)

  function ProcessItem(db: Db, c: Counters, cfg: Config, stored: set<string>, v: Visit): Run {
    var r := Step(Get(db, v.offer.item.key), cfg, stored, v, db.nextId);
    Run(if r.slot.row.None? then db else Put(db, v.offer.item.key, r.slot), Plus(c, r.delta))
  }

  function ProcessItems(db: Db, c: Counters, cfg: Config, stored: set<string>, vs: seq<Visit>): Run {
    if vs == [] then Run(db, c)
    else
      var r := ProcessItems(db, c, cfg, stored, vs[..|vs| - 1]);
      ProcessItem(r.db, r.counters, cfg, stored, vs[|vs| - 1])
  }

  // ----- missing detection ----------------------------------------------------------------

  /** The scope part of the query: the whole library, or a key and everything below it. */
  predicate InScope(scope: Option<string>, k: Key) {
    scope.None? ||
    var clean := RStrip(scope.value, '/');
    clean == "" || k == clean || StartsWith(k, clean + "/")
  }

  predicate GoesMissing(row: Row, k: Key, started: Time, scope: Option<string>) {
    && row.state == Active
    && row.lastSeen.Some? && row.lastSeen.value < started
    && InScope(scope, k)
  }

  function MissingKeys(db: Db, started: Time, scope: Option<string>): set<Key> {
    set k | k in db.rows && GoesMissing(db.rows[k], k, started, scope)
  }

  function MarkMissing(r: Run, started: Time, scope: Option<string>): Run {
    var gone := MissingKeys(r.db, started, scope);
    Run(r.db.(rows := map k | k in r.db.rows ::
                if k in gone then r.db.rows[k].(state := Missing, syncError := None) else r.db.rows[k]),
        r.counters.(missing := r.counters.missing + |gone|))
  }

  /** `_sync_file_library`: every listed item, then (unless incremental) missing detection. */
  function SyncRun(db: Db, cfg: Config, stored: set<string>, vs: seq<Visit>,
                   started: Time, incremental: bool, scope: Option<string>): Run {
    var r := ProcessItems(db, ZERO, cfg, stored, vs);
    if cfg.listItems && !incremental then MarkMissing(r, started, scope) else r
  }
}
