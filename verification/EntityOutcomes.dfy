/**
 What visits and listings of an entity library leave behind, column by column, and what a
 whole run then takes away: exactly what it did not meet.
 */
module EntityOutcomes {
  import opened Prelude
  import opened EntitySync
  import opened EntitySyncTheorems
  import opened EntityReconciliation

  // ----- what a visit meets ---------------------------------------------------------------------

  /** The visited item and the track it is linked to. */
  ghost predicate Links(db: Db, v: Visit, id: Id) {
    var k := ItemKey(TrackKind, v.key);
    k in db.items && db.items[k].entity == Some(id) && id in db.tracks
  }

  ghost predicate HasPayload(v: Visit, m: Metadata) { !v.raises && v.metadata == Some(m) }

  /** The listing shows the version the item has: by etag, or by payload when neither side has one. */
  ghost predicate SameVersion(item: Item, etag: Option<string>, raw: string) {
    if (etag.Some? && etag.value != "") || (item.etag.Some? && item.etag.value != "") then etag.Some? && item.etag == etag
    else item.fingerprint == Some(raw)
  }

  /** The item is only stamped: its provider never changes tracks, or it is active and unchanged. */
  ghost predicate Stamps(db: Db, v: Visit, m: Metadata)
    requires ItemKey(TrackKind, v.key) in db.items
  {
    var item := db.items[ItemKey(TrackKind, v.key)];
    v.immutable || (item.state == Active && SameVersion(item, v.etag, m.raw))
  }

  /** A newer local edit stands against a payload not applied before. */
  ghost predicate Stands(db: Db, v: Visit, m: Metadata, id: Id)
    requires ItemKey(TrackKind, v.key) in db.items && id in db.tracks
  {
    var t := db.tracks[id];
    && t.editedAt.Some? && (t.syncedAt.Some? ==> t.editedAt.value > t.syncedAt.value)
    && db.items[ItemKey(TrackKind, v.key)].fingerprint != Some(m.raw)
  }

  /** The payload's artist exists, its album too with the album's artist; an album here before keeps its artist. */
  ghost predicate NamesAreThere(db: Db, d: Db, m: Metadata) {
    && d.artists == (if m.album.Some? then db.artists + {m.artist, m.albumArtist} else db.artists + {m.artist})
    && (forall a :: a in d.albums <==> a in db.albums || m.album == Some(a))
    && (forall a :: a in d.albums ==> d.albums[a] == if a in db.albums then db.albums[a] else m.albumArtist)
  }

  /** The item is active under the visit's version, linked to the track, and saved once saved. */
  ghost predicate ItemIsCurrent(db: Db, d: Db, v: Visit, m: Metadata, id: Id) {
    var k := ItemKey(TrackKind, v.key);
    && k in d.items && (forall j :: j != k ==> (j in d.items <==> j in db.items) && (j in db.items ==> d.items[j] == db.items[j]))
    && d.items[k].entity == Some(id) && d.items[k].state == Active && !d.items[k].conflict
    && d.items[k].etag == v.etag && d.items[k].fingerprint == Some(m.raw) && d.items[k].lastSeen == Some(v.at)
    && (d.items[k].saved <==> v.saved || (k in db.items && db.items[k].saved))
  }

  /** The track shows the payload, as of the visit; other tracks are as they were. */
  ghost predicate ShowsPayload(db: Db, d: Db, v: Visit, m: Metadata, id: Id) {
    && id in d.tracks && (forall t :: t != id ==> (t in d.tracks <==> t in db.tracks) && (t in db.tracks ==> d.tracks[t] == db.tracks[t]))
    && d.tracks[id].text == m.text && d.tracks[id].artist == m.artist && d.tracks[id].album == m.album
    && d.tracks[id].syncedAt == Some(v.at)
    && d.tracks[id].editedAt == if id in db.tracks then db.tracks[id].editedAt else None
  }

  /** A saved track joins the library; nothing leaves it, and playlists stay. */
  ghost predicate Shelves(db: Db, d: Db, v: Visit, id: Id) {
    d.members == (if v.saved then db.members + {id} else db.members) && d.playlists == db.playlists && d.entries == db.entries
  }

  // ----- one visit, by what it meets --------------------------------------------------------------

  /** An item without a track here is imported: a new track shows the payload, album included. */
  lemma ImportShowsThePayload(db: Db, v: Visit, m: Metadata)
    requires WellLinked(db) && HasPayload(v, m) && !exists id :: Links(db, v, id)
    ensures var d, id := ApplyTrack(db, v), db.nextId;
            && id !in db.tracks && d.nextId == db.nextId + 1
            && ShowsPayload(db, d, v, m, id) && NamesAreThere(db, d, m) && ItemIsCurrent(db, d, v, m, id) && Shelves(db, d, v, id)
  {
    var k := ItemKey(TrackKind, v.key);
    assert LinkedTrack(db, k).Some? ==> Links(db, v, LinkedTrack(db, k).value);
    hide EntityUnchanged, LocalEdited, Heals;
  }

  /** A linked item is rewritten -- edited before or not -- unless it is only stamped, or an edit stands. */
  lemma RewriteShowsThePayload(db: Db, v: Visit, m: Metadata, id: Id)
    requires HasPayload(v, m) && Links(db, v, id) && !Stamps(db, v, m) && !Stands(db, v, m, id)
    ensures var d := ApplyTrack(db, v);
            && d.nextId == db.nextId
            && ShowsPayload(db, d, v, m, id) && NamesAreThere(db, d, m) && ItemIsCurrent(db, d, v, m, id) && Shelves(db, d, v, id)
  {
    hide Heals;
  }

  /** A standing edit keeps the track; the item notes the conflict and that it was seen. */
  lemma EditKeepsTheTrack(db: Db, v: Visit, m: Metadata, id: Id)
    requires HasPayload(v, m) && Links(db, v, id) && !Stamps(db, v, m) && Stands(db, v, m, id)
    ensures var k := ItemKey(TrackKind, v.key);
            ApplyTrack(db, v) == db.(items := db.items[k := db.items[k].(lastSeen := Some(v.at), conflict := true)])
  {
    hide Heals;
  }

  /**
   A stamped item is seen and saved once saved, and keeps its version; only a provider that
   never changes tracks reactivates it.  Its track follows a corrected, properly named artist
   if no user ever edited it and its own artist is known, and is otherwise as it was.
   */
  lemma StampFollowsTheArtist(db: Db, v: Visit, m: Metadata, id: Id)
    requires HasPayload(v, m) && Links(db, v, id) && Stamps(db, v, m)
    ensures var k, d, t := ItemKey(TrackKind, v.key), ApplyTrack(db, v), db.tracks[id];
            var follows := m.artistNamed && t.editedAt.None? && t.artist in db.artists;
            && k in d.items
            && d.items == db.items[k := db.items[k].(
                 lastSeen := Some(v.at), conflict := false, saved := d.items[k].saved, state := d.items[k].state)]
            && (d.items[k].saved <==> db.items[k].saved || v.saved)
            && d.items[k].state == (if v.immutable then Active else db.items[k].state)
            && d.tracks == db.tracks[id := t.(artist := if follows then m.artist else t.artist)]
            && d.artists == (if follows then db.artists + {m.artist} else db.artists)
            && d.albums == db.albums && d.nextId == db.nextId && Shelves(db, d, v, id)
  {
    var t := db.tracks[id];
    assert db.tracks[id := t] == db.tracks;
    assert m.artist in db.artists ==> db.artists + {m.artist} == db.artists;
  }

  /** A call that raises, or brings no payload, changes nothing. */
  lemma NothingIsApplied(db: Db, v: Visit)
    requires v.raises || v.metadata.None?
    ensures ApplyTrack(db, v) == db
  {
  }

  // ----- listings of artists, albums and playlists ---------------------------------------------------

  /** The item's entity, when it is still there under its kind. */
  ghost predicate Knows(db: Db, l: Listed, id: Id) {
    && l.k in db.items && db.items[l.k].entity == Some(id)
    && match l.k.kind
       case TrackKind => false
       case AlbumKind => id in db.albums
       case ArtistKind => id in db.artists
       case PlaylistKind => id in db.playlists
  }

  /** The item is known, active and unchanged, and so only stamped. */
  ghost predicate Skips(db: Db, l: Listed) {
    l.k in db.items && (exists id :: Knows(db, l, id)) && db.items[l.k].state == Active && SameVersion(db.items[l.k], l.etag, l.raw)
  }

  lemma KnownListingIsStamped(db: Db, l: Listed)
    requires l.k.kind != TrackKind && Skips(db, l)
    ensures ApplyListed(db, l) == db.(items := db.items[l.k := db.items[l.k].(lastSeen := Some(l.at), conflict := false)])
  {
  }

  /** A new or changed artist, album or playlist: its item is current and saved, its entity there, a playlist's entries as listed. */
  lemma NewListingIsApplied(db: Db, l: Listed)
    requires l.k.kind != TrackKind && !Skips(db, l)
    ensures var d := ApplyListed(db, l);
            && l.k in d.items && d.items[l.k].entity.Some?
            && (forall id: Id :: l.k.kind == PlaylistKind && Knows(db, l, id) ==> d.items[l.k].entity == Some(id))
            && (l.k.kind != PlaylistKind || !(exists id :: Knows(db, l, id)) ==> d.items[l.k].entity == Some(l.id))
            && d.items == db.items[l.k := Item(d.items[l.k].entity, true, Active, l.etag, Some(l.raw), Some(l.at), false)]
            && d.tracks == db.tracks && d.members == db.members && d.nextId == db.nextId
            && d.artists == (match l.k.kind
                             case ArtistKind => db.artists + {l.id}
                             case AlbumKind => db.artists + {l.artist}
                             case _ => db.artists)
            && d.albums == (if l.k.kind == AlbumKind && l.id !in db.albums then db.albums[l.id := l.artist] else db.albums)
            && d.playlists == (if l.k.kind == PlaylistKind then db.playlists + {d.items[l.k].entity.value} else db.playlists)
  {
    var k := l.k;
    if k in db.items && db.items[k].entity.Some? {
      assert Knows(db, l, db.items[k].entity.value) <==> EntityThere(db, k.kind, db.items[k].entity.value);
    }
    hide EntriesOf;
  }

  /** The listed key and position are the entry's: the key's item links its track, which is here. */
  ghost predicate IsEntry(db: Db, listed: (string, int), e: Entry) {
    var k := ItemKey(TrackKind, listed.0);
    listed.1 == e.position && k in db.items && db.items[k].entity == Some(e.track) && e.track in db.tracks
  }

  lemma {:induction false} ListedEntries(db: Db, playlist: Id, entries: seq<(string, int)>, e: Entry)
    ensures e in EntriesOf(db, playlist, entries) <==>
              e.playlist == playlist && exists i :: 0 <= i < |entries| && IsEntry(db, entries[i], e)
  {
    if entries != [] {
      var front, last := entries[..|entries| - 1], entries[|entries| - 1];
      ListedEntries(db, playlist, front, e);
      assert forall i :: 0 <= i < |front| ==> front[i] == entries[i];
    }
  }

  /** A playlist read in full has exactly the entries listed whose tracks are here; other playlists keep theirs. */
  lemma PlaylistHasItsEntries(db: Db, l: Listed, e: Entry)
    requires l.k.kind == PlaylistKind && !Skips(db, l)
    ensures var d := ApplyListed(db, l);
            && l.k in d.items && d.items[l.k].entity.Some?
            && (l.lazy || e.playlist != d.items[l.k].entity.value ==> (e in d.entries <==> e in db.entries))
            && (!l.lazy && e.playlist == d.items[l.k].entity.value ==>
                  (e in d.entries <==> exists i :: 0 <= i < |l.entries| && IsEntry(db, l.entries[i], e)))
  {
    NewListingIsApplied(db, l);
    ListedEntries(db, ApplyListed(db, l).items[l.k].entity.value, l.entries, e);
    if l.k in db.items && db.items[l.k].entity.Some? {
      assert Knows(db, l, db.items[l.k].entity.value) <==> EntityThere(db, l.k.kind, db.items[l.k].entity.value);
    }
    hide EntriesOf, LinkedTrack, IsEntry;
  }
}
