/**
 Entity-backed providers: materialising tracks from a listing, and reconciling what
 dropped out of it.  Names are already resolved to artist and album ids; an id not in its
 table yet is one the find-or-create step is about to create.
 */
module EntitySync {
  import opened Prelude

  type Id = nat
  type Time = int

  datatype Kind = TrackKind | AlbumKind | ArtistKind | PlaylistKind

  datatype ItemKey = ItemKey(kind: Kind, key: string)

  datatype State = Active | Missing

  /** An `ExternalItem`: what it references, its membership, and its version marks. */
  datatype Item = Item(
    entity: Option<Id>, saved: bool, state: State, etag: Option<string>, fingerprint: Option<string>,
    lastSeen: Option<Time>, conflict: bool)

  datatype Track = Track(
    text: string, artist: Id, album: Option<Id>, editedAt: Option<Time>, syncedAt: Option<Time>)

  datatype Entry = Entry(playlist: Id, track: Id, position: int)

  datatype Db = Db(
    items: map<ItemKey, Item>, tracks: map<Id, Track>, albums: map<Id, Id>, artists: set<Id>,
    playlists: set<Id>, entries: set<Entry>, members: set<Id>, nextId: Id)

  /**
   Inline provider metadata: the raw payload (and so its fingerprint) and what it resolves
   to; `artistNamed` is false for an empty or "Unknown Artist" name.
   */
  datatype Metadata = Metadata(
    raw: string, text: string, artist: Id, artistNamed: bool, album: Option<Id>, albumArtist: Id)

  /** One call of `_apply_entity_track`; `saved` also adds to the library. */
  datatype Visit = Visit(
    key: string, etag: Option<string>, metadata: Option<Metadata>, saved: bool, immutable: bool, raises: bool, at: Time)

  predicate LocalEdited(t: Track) {
    t.editedAt.Some? && (t.syncedAt.None? || t.editedAt.value > t.syncedAt.value)
  }

  /** `_entity_unchanged`. */
  predicate EntityUnchanged(item: Item, etag: Option<string>, fingerprint: string) {
    if Truthy(etag) || Truthy(item.etag) then etag.Some? && etag == item.etag
    else item.fingerprint == Some(fingerprint)
  }

  function LinkedTrack(db: Db, k: ItemKey): Option<Id> {
    if k in db.items && db.items[k].entity.Some? && db.items[k].entity.value in db.tracks then db.items[k].entity else None
  }

  datatype Branch = NoMetadata | Touch | Create | Keep | Conflict | Rewrite

  /** Which branch of `_apply_entity_track` a visit takes (no dedup). */
  function BranchOf(db: Db, v: Visit): Branch {
    var k := ItemKey(TrackKind, v.key);
    var t := LinkedTrack(db, k);
    if v.metadata.None? then NoMetadata
    else if t.None? then Create
    else if v.immutable || (db.items[k].state == Active && EntityUnchanged(db.items[k], v.etag, v.metadata.value.raw)) then Touch
    else if LocalEdited(db.tracks[t.value]) && db.items[k].fingerprint != Some(v.metadata.value.raw) then Conflict
    else Rewrite
  }

  function WithNames(db: Db, m: Metadata): Db {
    db.(artists := db.artists + {m.artist} + (if m.album.Some? then {m.albumArtist} else {}),
        albums := if m.album.Some? && m.album.value !in db.albums then db.albums[m.album.value := m.albumArtist] else db.albums)
  }

  /** `_heal_entity_track_artist`: a never edited track follows a corrected artist. */
  predicate Heals(db: Db, t: Track, m: Metadata) {
    m.artistNamed && t.editedAt.None? && t.artist in db.artists && t.artist != m.artist
  }

  function Healed(db: Db, id: Id, m: Metadata): Db
    requires id in db.tracks
  {
    if Heals(db, db.tracks[id], m)
    then db.(artists := db.artists + {m.artist}, tracks := db.tracks[id := db.tracks[id].(artist := m.artist)])
    else db
  }

  function Upserted(was: Option<Item>, id: Id, v: Visit, raw: string): Item {
    Item(Some(id), v.saved || (was.Some? && was.value.saved), Active, v.etag, Some(raw), Some(v.at), false)
  }

  function ApplyTrack(db: Db, v: Visit): Db {
    var k := ItemKey(TrackKind, v.key);
    var was := if k in db.items then Some(db.items[k]) else None;
    if v.raises then db
    else
      match BranchOf(db, v)
      case NoMetadata => db
      case Touch =>
        var id := was.value.entity.value;
        Healed(db, id, v.metadata.value).(
            items := db.items[k := was.value.(
              lastSeen := Some(v.at), conflict := false, saved := was.value.saved || v.saved,
              state := if v.immutable then Active else was.value.state)],
            members := if v.saved then db.members + {id} else db.members)
      case Conflict => db.(items := db.items[k := was.value.(lastSeen := Some(v.at), conflict := true)])
      case Create =>
        var m, id := v.metadata.value, db.nextId;
        WithNames(db, m).(
          items := db.items[k := Upserted(was, id, v, m.raw)],
          tracks := db.tracks[id := Track(m.text, m.artist, m.album, None, Some(v.at))],
          members := if v.saved then db.members + {id} else db.members,
          nextId := id + 1)
      case _ =>
        var m, id := v.metadata.value, was.value.entity.value;
        WithNames(db, m).(
          items := db.items[k := Upserted(was, id, v, m.raw)],
          tracks := db.tracks[id := Track(m.text, m.artist, m.album, db.tracks[id].editedAt, Some(v.at))],
          members := if v.saved then db.members + {id} else db.members)
  }

  // ----- reconciliation ----------------------------------------------------------------------------

  /** What reconciliation consults: enabled kinds, immutability, and references kept elsewhere (favorites, history, shares). */
  datatype Policy = Policy(
    enabled: set<Kind>, immutable: bool, trackKept: Id -> bool, playlistReferenced: Id -> bool)

  predicate Selected(db: Db, p: Policy, k: ItemKey, started: Time) {
    && k in db.items && k.kind in p.enabled
    && db.items[k].state == Active && db.items[k].saved
    && db.items[k].lastSeen.Some? && db.items[k].lastSeen.value < started
  }

  /** The rows the query of `_reconcile_missing_entities` selects. */
  function SelectedKeys(db: Db, p: Policy, started: Time): set<ItemKey> {
    set k | k in db.items && Selected(db, p, k, started)
  }

  /** `ks` lists the set, each member once, in some order. */
  ghost predicate Enumerates(ks: seq<ItemKey>, s: set<ItemKey>) {
    (forall k :: k in ks <==> k in s) && forall i, j :: 0 <= i < j < |ks| ==> ks[i] != ks[j]
  }

  /** `_track_is_referenced`: by a playlist entry, or by what is kept elsewhere. */
  predicate TrackReferenced(db: Db, p: Policy, id: Id) { (exists e :: e in db.entries && e.track == id) || p.trackKept(id) }

  predicate AlbumUsed(db: Db, id: Id) { exists t :: t in db.tracks && db.tracks[t].album == Some(id) }

  predicate ArtistUsed(db: Db, id: Id) {
    (exists t :: t in db.tracks && db.tracks[t].artist == id) || (exists a :: a in db.albums && db.albums[a] == id)
  }

  /** The items a deleted entity takes with it (its foreign key cascades). */
  function Without(items: map<ItemKey, Item>, kind: Kind, id: Id): map<ItemKey, Item> {
    map k | k in items && !(k.kind == kind && items[k].entity == Some(id)) :: items[k]
  }

  function Mark(db: Db, k: ItemKey): Db
    requires k in db.items
  {
    db.(items := db.items[k := db.items[k].(state := Missing, conflict := false)])
  }

  /** One selected row; a row that went with an entity deleted before it is passed over. */
  function ReconcileRow(db: Db, p: Policy, k: ItemKey): Db {
    if k !in db.items then db
    else
      var item := db.items[k];
      if item.entity.None? then Mark(db, k)
      else
        var id := item.entity.value;
        match k.kind
        case TrackKind =>
          if p.immutable && TrackReferenced(db, p, id) then
            db.(items := db.items[k := item.(saved := false, conflict := false)], members := db.members - {id})
          else Mark(db, k).(members := db.members - {id})
        case PlaylistKind =>
          if p.playlistReferenced(id) then Mark(db, k)
          else
            db.(entries := if id in db.playlists then set e | e in db.entries && e.playlist != id else db.entries,
                playlists := db.playlists - {id},
                items := (if id in db.playlists then Without(db.items, PlaylistKind, id) else db.items) - {k})
        case AlbumKind =>
          if AlbumUsed(db, id) || id !in db.albums then Mark(db, k)
          else db.(albums := db.albums - {id}, items := Without(db.items, AlbumKind, id) - {k})
        case ArtistKind =>
          if ArtistUsed(db, id) || id !in db.artists then Mark(db, k)
          else db.(artists := db.artists - {id}, items := Without(db.items, ArtistKind, id) - {k})
  }

  function ReconcileRows(db: Db, p: Policy, ks: seq<ItemKey>): Db {
    if ks == [] then db else ReconcileRow(ReconcileRows(db, p, ks[..|ks| - 1]), p, ks[|ks| - 1])
  }

  // ----- the session ----------------------------------------------------------------------------------

  class Session {
    var items: map<ItemKey, Item>
    var tracks: map<Id, Track>
    var albums: map<Id, Id>
    var artists: set<Id>
    var playlists: set<Id>
    var entries: set<Entry>
    var members: set<Id>
    var nextId: Id

    function Tables(): Db
      reads this
    {
      Db(items, tracks, albums, artists, playlists, entries, members, nextId)
    }

    constructor ()
      ensures Tables() == Db(map[], map[], map[], {}, {}, {}, {}, 0)
    {
      items, tracks, albums, artists, playlists, entries, members, nextId := map[], map[], map[], {}, {}, {}, {}, 0;
    }

    /** `_find_entity_artist` and `_find_entity_album` for one payload. */
    method FindOrCreateNames(m: Metadata)
      modifies this`albums, this`artists
      ensures Tables() == WithNames(old(Tables()), m)
    {
      artists := artists + {m.artist};
      if m.album.Some? {
        artists := artists + {m.albumArtist};
        if m.album.value !in albums {
          albums := albums[m.album.value := m.albumArtist];
        }
      }
    }

    method HealTrackArtist(id: Id, m: Metadata)
      requires id in tracks
      modifies this`artists, this`tracks
      ensures Tables() == Healed(old(Tables()), id, m)
    {
      var t := tracks[id];
      if !m.artistNamed || t.artist !in artists || t.editedAt.Some? {
        return;
      }
      if t.artist == m.artist {
        return;
      }
      artists := artists + {m.artist};
      tracks := tracks[id := t.(artist := m.artist)];
    }

    /** `_upsert_external_item` for a track. */
    method UpsertItem(v: Visit, id: Id, raw: string)
      modifies this`items
      ensures var k := ItemKey(TrackKind, v.key);
              items == old(items)[k := Upserted(if k in old(items) then Some(old(items)[k]) else None, id, v, raw)]
    {
      var k := ItemKey(TrackKind, v.key);
      var item;
      if k !in items {
        item := Item(Some(id), v.saved, Active, None, None, None, false);
      } else {
        item := items[k].(entity := Some(id));
        if v.saved {
          item := item.(saved := true);
        }
      }
      item := item.(etag := v.etag, fingerprint := Some(raw));
      item := item.(state := Active, lastSeen := Some(v.at), conflict := false);
      items := items[k := item];
    }

    /** `_apply_entity_track` inside its savepoint: a call that raises is rolled back whole. */
    method ApplyEntityTrack(v: Visit)
      modifies this
      ensures Tables() == ApplyTrack(old(Tables()), v)
    {
      if v.raises || v.metadata.None? {
        return;
      }
      var m, k := v.metadata.value, ItemKey(TrackKind, v.key);
      var track := LinkedTrack(Tables(), k);
      if track.Some? {
        var item, id := items[k], track.value;
        if v.immutable || (item.state == Active && EntityUnchanged(item, v.etag, m.raw)) {
          item := item.(lastSeen := Some(v.at), conflict := false);
          if v.immutable && item.state != Active {
            item := item.(state := Active);
          }
          if v.saved && !item.saved {
            item := item.(saved := true);
          }
          items := items[k := item];
          if v.saved {
            members := members + {id};
          }
          HealTrackArtist(id, m);
          return;
        }
        var localEdited := LocalEdited(tracks[id]);
        var fingerprintChanged := item.fingerprint.None? || item.fingerprint.value != m.raw;
        if localEdited && fingerprintChanged {
          items := items[k := item.(conflict := true, lastSeen := Some(v.at))];
          return;
        }
        FindOrCreateNames(m);
        tracks := tracks[id := tracks[id].(text := m.text, artist := m.artist, album := m.album, syncedAt := Some(v.at))];
        if v.saved {
          members := members + {id};
        }
        UpsertItem(v, id, m.raw);
      } else {
        FindOrCreateNames(m);
        var id := nextId;
        tracks := tracks[id := Track(m.text, m.artist, m.album, None, Some(v.at))];
        nextId := nextId + 1;
        if v.saved {
          members := members + {id};
        }
        UpsertItem(v, id, m.raw);
      }
    }

    /** `_reconcile_missing_entities`: select, then row by row, in whatever order the query gives. */
    method ReconcileMissingEntities(p: Policy, started: Time) returns (ghost order: seq<ItemKey>)
      modifies this
      ensures Enumerates(order, SelectedKeys(old(Tables()), p, started))
      ensures Tables() == ReconcileRows(old(Tables()), p, order)
    {
      ghost var before := Tables();
      var selected := set k | k in items && Selected(Tables(), p, k, started);
      assert selected == SelectedKeys(before, p, started);
      var todo := selected;
      order := [];
      while todo != {}
        invariant todo <= selected && Enumerates(order, selected - todo)
        invariant Tables() == ReconcileRows(before, p, order)
      {
        hide Selected;
        var k :| k in todo;
        Reconcile(p, k);
        assert (order + [k])[..|order|] == order;
        order := order + [k];
        todo := todo - {k};
      }
    }

    /** The end of an entity sync: only a full run reconciles. */
    method EndSync(p: Policy, started: Time, incremental: bool) returns (ghost order: seq<ItemKey>)
      modifies this
      ensures incremental ==> order == [] && Tables() == old(Tables())
      ensures !incremental ==> Enumerates(order, SelectedKeys(old(Tables()), p, started))
      ensures Tables() == ReconcileRows(old(Tables()), p, order)
    {
      order := [];
      if !incremental {
        order := ReconcileMissingEntities(p, started);
      }
    }

    method MarkMissing(k: ItemKey)
      requires k in items
      modifies this`items
      ensures Tables() == Mark(old(Tables()), k)
    {
      items := items[k := items[k].(state := Missing)];
      items := items[k := items[k].(conflict := false)];
    }

    /** A track row: dropping out of the collection is a change of membership. */
    method ReconcileTrack(p: Policy, k: ItemKey)
      requires k in items && k.kind == TrackKind && items[k].entity.Some?
      modifies this`items, this`members
      ensures Tables() == ReconcileRow(old(Tables()), p, k)
    {
      var id := items[k].entity.value;
      if p.immutable && TrackReferenced(Tables(), p, id) {
        items := items[k := items[k].(saved := false)];
        items := items[k := items[k].(conflict := false)];
      } else {
        MarkMissing(k);
      }
      members := members - {id};
    }

    /** A playlist row: the playlist and its entries go unless local references keep it. */
    method ReconcilePlaylist(p: Policy, k: ItemKey)
      requires k in items && k.kind == PlaylistKind && items[k].entity.Some?
      modifies this`items, this`playlists, this`entries
      ensures Tables() == ReconcileRow(old(Tables()), p, k)
    {
      var id := items[k].entity.value;
      if p.playlistReferenced(id) {
        MarkMissing(k);
        return;
      }
      if id in playlists {
        entries := set e | e in entries && e.playlist != id;
        playlists := playlists - {id};
        items := Without(items, PlaylistKind, id);
      }
      items := items - {k};
    }

    method ReconcileAlbum(p: Policy, k: ItemKey)
      requires k in items && k.kind == AlbumKind && items[k].entity.Some?
      modifies this`items, this`albums
      ensures Tables() == ReconcileRow(old(Tables()), p, k)
    {
      hide AlbumUsed, ArtistUsed;
      var id := items[k].entity.value;
      ghost var before := Tables();
      var stillUsed := AlbumUsed(Tables(), id);
      MarkMissing(k);
      if !stillUsed && id in albums {
        albums := albums - {id};
        items := Without(items, AlbumKind, id) - {k};
        WithoutForgets(before, k, id);
      }
    }

    method ReconcileArtist(p: Policy, k: ItemKey)
      requires k in items && k.kind == ArtistKind && items[k].entity.Some?
      modifies this`items, this`artists
      ensures Tables() == ReconcileRow(old(Tables()), p, k)
    {
      hide AlbumUsed, ArtistUsed;
      var id := items[k].entity.value;
      ghost var before := Tables();
      var stillUsed := ArtistUsed(Tables(), id);
      MarkMissing(k);
      if !stillUsed && id in artists {
        artists := artists - {id};
        items := Without(items, ArtistKind, id) - {k};
        WithoutForgets(before, k, id);
      }
    }

    /** One selected row; one that went with an entity deleted before it is passed over. */
    method Reconcile(p: Policy, k: ItemKey)
      modifies this
      ensures Tables() == ReconcileRow(old(Tables()), p, k)
    {
      hide AlbumUsed, ArtistUsed, Without, TrackReferenced;
      if k !in items {
        return;
      }
      if items[k].entity.None? {
        MarkMissing(k);
        return;
      }
      match k.kind
      case TrackKind => ReconcileTrack(p, k);
      case PlaylistKind => ReconcilePlaylist(p, k);
      case AlbumKind => ReconcileAlbum(p, k);
      case ArtistKind => ReconcileArtist(p, k);
    }
  }

  /** Marking a row first does not matter when the row goes. */
  lemma WithoutForgets(db: Db, k: ItemKey, id: Id)
    requires k in db.items
    ensures Without(Mark(db, k).items, k.kind, id) - {k} == Without(db.items, k.kind, id) - {k}
  {
  }
}
