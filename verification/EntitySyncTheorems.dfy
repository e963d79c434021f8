/**
 What the entity passes keep: library membership follows the external item, local edits
 are lost exactly where the code rewrites them, and reconciliation leaves no dangling
 reference in any order.
 */
module EntitySyncTheorems {
  import opened Prelude
  import opened EntitySync

  // ----- membership ----------------------------------------------------------------------------

  /** Distinct track items reference distinct tracks, and new ids are new. */
  ghost predicate WellLinked(db: Db) {
    && (forall j, k, t: Id :: References(db, j, t) && References(db, k, t) ==> j == k)
    && (forall k, t: Id :: References(db, k, t) ==> t < db.nextId)
    && (forall t :: t in db.tracks ==> t < db.nextId)
    && (forall t :: t in db.members ==> t in db.tracks && exists k :: References(db, k, t))
  }

  ghost predicate References(db: Db, k: ItemKey, t: Id) {
    k in db.items && k.kind == TrackKind && db.items[k].entity == Some(t)
  }

  predicate InCollection(item: Item) { item.state == Active && item.saved }

  /** A library row implies an active, saved item. */
  ghost predicate RowsAreSaved(db: Db) {
    forall k, t :: References(db, k, t) && t in db.members ==> InCollection(db.items[k])
  }

  /** And an active, saved item implies a library row. */
  ghost predicate SavedHaveRows(db: Db) {
    forall k, t :: References(db, k, t) && InCollection(db.items[k]) ==> t in db.members
  }

  /** The one track a visit may link its item to or add to the library. */
  function TrackOf(db: Db, v: Visit): Id {
    var t := LinkedTrack(db, ItemKey(TrackKind, v.key));
    if t.Some? then t.value else db.nextId
  }

  /** No other item references the visited track, and a new track is referenced and shelved nowhere. */
  lemma VisitedTrackIsOwn(db: Db, v: Visit)
    requires WellLinked(db)
    ensures forall k :: References(db, k, TrackOf(db, v)) ==> k == ItemKey(TrackKind, v.key)
    ensures LinkedTrack(db, ItemKey(TrackKind, v.key)).None? ==>
              TrackOf(db, v) !in db.members && TrackOf(db, v) !in db.tracks && forall k :: !References(db, k, TrackOf(db, v))
    ensures LinkedTrack(db, ItemKey(TrackKind, v.key)).Some? ==>
              References(db, ItemKey(TrackKind, v.key), TrackOf(db, v)) && TrackOf(db, v) in db.tracks
  {
    if LinkedTrack(db, ItemKey(TrackKind, v.key)).Some? {
      assert References(db, ItemKey(TrackKind, v.key), TrackOf(db, v));
    }
  }

  /** A visit's effect on links, tracks and memberships. */
  lemma VisitTouchesOneItem(db: Db, v: Visit)
    requires WellLinked(db)
    ensures var d, key, id := ApplyTrack(db, v), ItemKey(TrackKind, v.key), TrackOf(db, v);
            && (forall k, t :: k != key ==> (References(d, k, t) <==> References(db, k, t)))
            && (forall k :: k != key && k in db.items ==> k in d.items && d.items[k] == db.items[k])
            && ((d.items == db.items && d.members == db.members && d.tracks == db.tracks)
                || (References(d, key, id) && d.members <= db.members + {id} && db.members <= d.members && d.tracks.Keys == db.tracks.Keys + {id}))
            && d.nextId >= db.nextId && (id < d.nextId || d == db)
  {
    VisitedTrackIsOwn(db, v);
    VisitWrites(db, v);
    hide ApplyTrack, LinkedTrack;
  }

  /** A visit that does anything writes one item, links it to the visited track, and may shelve that. */
  lemma VisitWrites(db: Db, v: Visit)
    ensures var d, key, id := ApplyTrack(db, v), ItemKey(TrackKind, v.key), TrackOf(db, v);
            || d == db
            || (key in d.items && d.items == db.items[key := d.items[key]] && d.items[key].entity == Some(id)
                && (d.members == db.members || d.members == db.members + {id}) && d.tracks.Keys == db.tracks.Keys + {id}
                && d.nextId == if LinkedTrack(db, key).Some? then db.nextId else db.nextId + 1)
  {
    hide EntityUnchanged, LocalEdited, Heals;
  }

  lemma VisitKeepsLinks(db: Db, v: Visit)
    requires WellLinked(db)
    ensures WellLinked(ApplyTrack(db, v))
  {
    var d, key := ApplyTrack(db, v), ItemKey(TrackKind, v.key);
    VisitedTrackIsOwn(db, v);
    VisitTouchesOneItem(db, v);
    hide ApplyTrack, TrackOf, LinkedTrack;
    forall t | t in d.members
      ensures t in d.tracks && exists k :: References(d, k, t)
    {
      if t in db.members {
        var k :| References(db, k, t);
        if k != key {
          assert References(d, k, t);
        } else if References(d, key, TrackOf(db, v)) && t != TrackOf(db, v) {
          MembersAreOwn(db, v, t);
        } else {
          assert References(d, key, t);
        }
      }
    }
  }

  lemma MembersAreOwn(db: Db, v: Visit, t: Id)
    requires WellLinked(db) && References(db, ItemKey(TrackKind, v.key), t) && t in db.members
    ensures t == TrackOf(db, v)
  {
  }

  lemma VisitKeepsRowsSaved(db: Db, v: Visit)
    requires WellLinked(db) && RowsAreSaved(db)
    ensures RowsAreSaved(ApplyTrack(db, v))
  {
    hide EntityUnchanged, LocalEdited, Heals;
    var d, key := ApplyTrack(db, v), ItemKey(TrackKind, v.key);
    VisitedTrackIsOwn(db, v);
    forall k, t | References(d, k, t) && t in d.members
      ensures InCollection(d.items[k])
    {
      if k != key {
        assert References(db, k, t) && t in db.members;
      } else if t in db.members {
        assert References(db, key, t);
      }
    }
  }

  /** The visits after which an item may be active and saved without a library row. */
  predicate BreaksMembership(db: Db, v: Visit) {
    var k := ItemKey(TrackKind, v.key);
    && !v.raises && !v.saved && k in db.items && db.items[k].saved
    && var b := BranchOf(db, v);
       b == Create || ((b == Touch || b == Rewrite) && db.items[k].state == Missing)
  }

  /** One visit keeps "saved items have rows" exactly unless it revives a saved item without saving it. */
  lemma VisitKeepsSavedRowsIff(db: Db, v: Visit)
    requires WellLinked(db) && RowsAreSaved(db) && SavedHaveRows(db)
    ensures SavedHaveRows(ApplyTrack(db, v)) <==> !BreaksMembership(db, v)
  {
    hide EntityUnchanged, LocalEdited;
    var d, key := ApplyTrack(db, v), ItemKey(TrackKind, v.key);
    if BreaksMembership(db, v) {
      var t := d.items[key].entity.value;
      assert References(d, key, t) && InCollection(d.items[key]);
      if BranchOf(db, v) != Create {
        assert References(db, key, t);
      }
      assert t !in d.members;
    } else {
      forall k, t | References(d, k, t) && InCollection(d.items[k])
        ensures t in d.members
      {
        if k != key {
          assert References(db, k, t);
        } else if k in db.items && db.items[k].entity == Some(t) {
          assert References(db, k, t);
        }
      }
    }
  }

  /** Reconciling a row relinks nothing, and takes a library row only with the item's standing. */
  lemma RowUnshelvesItsTrack(db: Db, p: Policy, k: ItemKey)
    ensures var d := ReconcileRow(db, p, k);
            && (forall j, t :: References(d, j, t) <==> References(db, j, t))
            && (forall j :: j in d.items && j != k ==> d.items[j] == db.items[j])
            && (forall t :: References(d, k, t) ==> !InCollection(d.items[k]) && t !in d.members)
            && d.tracks == db.tracks && d.nextId == db.nextId
            && (d.members == db.members || exists t :: References(db, k, t) && d.members == db.members - {t})
  {
    if k.kind == TrackKind && k in db.items && db.items[k].entity.Some? {
      assert References(db, k, db.items[k].entity.value);
      TrackRowLeaves(db, p, k);
      hide ReconcileRow;
    } else {
      hide AlbumUsed, ArtistUsed;
    }
  }

  lemma TrackRowLeaves(db: Db, p: Policy, k: ItemKey)
    requires k.kind == TrackKind && k in db.items && db.items[k].entity.Some?
    ensures var d := ReconcileRow(db, p, k);
            && k in d.items && d.items == db.items[k := d.items[k]] && d.items[k].entity == db.items[k].entity
            && !InCollection(d.items[k]) && d.members == db.members - {db.items[k].entity.value}
            && d.tracks == db.tracks && d.nextId == db.nextId
  {
    hide TrackReferenced;
  }

  lemma ReconcileKeepsMembership(db: Db, p: Policy, k: ItemKey)
    requires WellLinked(db) && RowsAreSaved(db)
    ensures var d := ReconcileRow(db, p, k);
            WellLinked(d) && RowsAreSaved(d) && (SavedHaveRows(db) ==> SavedHaveRows(d))
  {
    RowUnshelvesItsTrack(db, p, k);
    hide ReconcileRow, InCollection;
  }

  lemma {:induction false} ReconcilingKeepsMembership(db: Db, p: Policy, ks: seq<ItemKey>)
    requires WellLinked(db) && RowsAreSaved(db)
    ensures var d := ReconcileRows(db, p, ks);
            WellLinked(d) && RowsAreSaved(d) && (SavedHaveRows(db) ==> SavedHaveRows(d))
  {
    hide ReconcileRow, WellLinked, RowsAreSaved, SavedHaveRows;
    if ks != [] {
      ReconcilingKeepsMembership(db, p, ks[..|ks| - 1]);
      ReconcileKeepsMembership(ReconcileRows(db, p, ks[..|ks| - 1]), p, ks[|ks| - 1]);
    }
  }

  /**
   One album, artist or playlist of a listing: the entity its name resolves to (or, for a
   playlist not here yet, its new id), an album's artist, and a playlist's entries.
   */
  datatype Listed = Listed(
    k: ItemKey, etag: Option<string>, raw: string, id: Id, artist: Id, entries: seq<(string, int)>, lazy: bool, at: Time)

  predicate EntityThere(db: Db, kind: Kind, id: Id) {
    match kind
    case TrackKind => id in db.tracks
    case AlbumKind => id in db.albums
    case ArtistKind => id in db.artists
    case PlaylistKind => id in db.playlists
  }

  function EntriesOf(db: Db, playlist: Id, entries: seq<(string, int)>): set<Entry> {
    if entries == [] then {}
    else
      var (key, position) := entries[|entries| - 1];
      var t := LinkedTrack(db, ItemKey(TrackKind, key));
      EntriesOf(db, playlist, entries[..|entries| - 1]) + if t.Some? then {Entry(playlist, t.value, position)} else {}
  }

  /** `_apply_entity_artist`, `_apply_entity_album` and `_apply_entity_playlist`. */
  function ApplyListed(db: Db, l: Listed): Db {
    var was := if l.k in db.items then Some(db.items[l.k]) else None;
    var linked := was.Some? && was.value.entity.Some? && EntityThere(db, l.k.kind, was.value.entity.value);
    if linked && was.value.state == Active && EntityUnchanged(was.value, l.etag, l.raw) then
      db.(items := db.items[l.k := was.value.(lastSeen := Some(l.at), conflict := false)])
    else
      var item := Item(Some(l.id), true, Active, l.etag, Some(l.raw), Some(l.at), false);
      match l.k.kind
      case TrackKind => db
      case ArtistKind => db.(artists := db.artists + {l.id}, items := db.items[l.k := item])
      case AlbumKind =>
        db.(artists := db.artists + {l.artist}, albums := if l.id in db.albums then db.albums else db.albums[l.id := l.artist],
            items := db.items[l.k := item])
      case PlaylistKind =>
        var id := if linked then was.value.entity.value else l.id;
        db.(playlists := db.playlists + {id}, items := db.items[l.k := item.(entity := Some(id))],
            entries := if l.lazy then db.entries
                       else (set e | e in db.entries && e.playlist != id) + EntriesOf(db, id, l.entries))
  }

  /** What happens to an entity library: visits (listings, imports, lazy contents), other listings, reconciliation, user edits, deletions. */
  datatype Act =
    | Visits(v: Visit) | Lists(l: Listed) | Reconciles(p: Policy, order: seq<ItemKey>)
    | Edits(track: Id, text: string, artist: Id, album: Option<Id>, now: Time) | Deletes(track: Id)

  /** A user edits a track; an artist or album not here yet is created for it. */
  function EditTrack(db: Db, t: Id, text: string, artist: Id, album: Option<Id>, now: Time): Db {
    if t !in db.tracks then db
    else
      db.(tracks := db.tracks[t := Track(text, artist, album, Some(now), db.tracks[t].syncedAt)], artists := db.artists + {artist},
          albums := if album.Some? && album.value !in db.albums then db.albums[album.value := artist] else db.albums)
  }

  /** Deleting a track takes its items, entries and memberships with it. */
  function DeleteTrack(db: Db, t: Id): Db {
    db.(tracks := db.tracks - {t}, items := Without(db.items, TrackKind, t), members := db.members - {t},
        entries := set e | e in db.entries && e.track != t)
  }

  function Perform(db: Db, a: Act): Db {
    match a
    case Visits(v) => ApplyTrack(db, v)
    case Lists(l) => if l.k.kind == TrackKind then db else ApplyListed(db, l)
    case Reconciles(p, order) => ReconcileRows(db, p, order)
    case Edits(t, text, artist, album, now) => EditTrack(db, t, text, artist, album, now)
    case Deletes(t) => DeleteTrack(db, t)
  }

  lemma DeletionKeepsMembership(db: Db, t: Id)
    requires WellLinked(db) && RowsAreSaved(db)
    ensures WellLinked(DeleteTrack(db, t)) && RowsAreSaved(DeleteTrack(db, t))
    ensures SavedHaveRows(db) ==> SavedHaveRows(DeleteTrack(db, t))
  {
    var d := DeleteTrack(db, t);
    assert forall k, u :: References(d, k, u) ==> References(db, k, u);
    forall u | u in d.members ensures exists k :: References(d, k, u) {
      var k :| References(db, k, u);
      assert References(d, k, u);
    }
  }

  lemma EditKeepsMembership(db: Db, a: Act)
    requires a.Edits? && WellLinked(db) && RowsAreSaved(db)
    ensures WellLinked(Perform(db, a)) && RowsAreSaved(Perform(db, a))
    ensures SavedHaveRows(db) ==> SavedHaveRows(Perform(db, a))
  {
    var d := Perform(db, a);
    assert d.items == db.items && d.members == db.members && d.tracks.Keys == db.tracks.Keys;
    assert forall k, t :: References(d, k, t) <==> References(db, k, t);
  }

  lemma ListingKeepsMembership(db: Db, l: Listed)
    requires WellLinked(db) && RowsAreSaved(db) && l.k.kind != TrackKind
    ensures WellLinked(ApplyListed(db, l)) && RowsAreSaved(ApplyListed(db, l))
    ensures SavedHaveRows(db) ==> SavedHaveRows(ApplyListed(db, l))
  {
    hide EntityUnchanged, EntriesOf;
    var d := ApplyListed(db, l);
    assert d.tracks == db.tracks && d.members == db.members && d.nextId == db.nextId;
    forall k, t ensures References(d, k, t) <==> References(db, k, t) {
    }
    forall k, t | References(d, k, t) ensures d.items[k] == db.items[k] {
    }
    hide ApplyListed, References, InCollection;
  }

  const EMPTY := Db(map[], map[], map[], {}, {}, {}, {}, 0)

  ghost function After(acts: seq<Act>): Db {
    if acts == [] then EMPTY else Perform(After(acts[..|acts| - 1]), acts[|acts| - 1])
  }

  /** No act materialises a track as merely referenced. */
  ghost predicate NoLazyVisits(acts: seq<Act>) {
    forall i :: 0 <= i < |acts| && acts[i].Visits? ==> acts[i].v.saved
  }

  /**
   Membership invariant, over every history: a library row implies an active, saved item;
   and when nothing is materialised as merely referenced, a track has a library row exactly
   when its item is active and saved.
   */
  lemma {:induction false} MembershipFollowsItems(acts: seq<Act>)
    ensures WellLinked(After(acts)) && RowsAreSaved(After(acts))
    ensures NoLazyVisits(acts) ==> SavedHaveRows(After(acts))
  {
    if acts != [] {
      var front, a := acts[..|acts| - 1], acts[|acts| - 1];
      MembershipFollowsItems(front);
      assert NoLazyVisits(acts) ==> NoLazyVisits(front) by {
        assert forall i :: 0 <= i < |front| ==> front[i] == acts[i];
      }
      hide WellLinked, RowsAreSaved, SavedHaveRows, ApplyTrack, ApplyListed, ReconcileRows, DeleteTrack, EditTrack;
      match a
      case Visits(v) =>
        VisitKeepsLinks(After(front), v);
        VisitKeepsRowsSaved(After(front), v);
        if NoLazyVisits(acts) {
          VisitKeepsSavedRowsIff(After(front), v);
        }
      case Lists(l) =>
        if l.k.kind != TrackKind {
          ListingKeepsMembership(After(front), l);
        }
      case Reconciles(p, order) => ReconcilingKeepsMembership(After(front), p, order);
      case Edits(_, _, _, _, _) => EditKeepsMembership(After(front), a);
      case Deletes(t) => DeletionKeepsMembership(After(front), t);
    }
  }

  // ----- local edits on the entity path -----------------------------------------------------------

  function Facts(t: Track): (string, Id, Option<Id>) { (t.text, t.artist, t.album) }

  /**
   Unlike on the file path, an edited track is not safe here: a visit keeps its fields
   exactly unless it takes the rewriting branch with different provider data -- which for an
   edited track means an unchanged payload whose etag moved, or that is no longer active.
   */
  lemma EditedTrackIsKeptIff(db: Db, v: Visit)
    requires LinkedTrack(db, ItemKey(TrackKind, v.key)).Some?
    requires LocalEdited(db.tracks[LinkedTrack(db, ItemKey(TrackKind, v.key)).value])
    ensures var k := ItemKey(TrackKind, v.key);
            var id := LinkedTrack(db, k).value;
            && (BranchOf(db, v) == Rewrite <==>
                  v.metadata.Some? && !v.immutable && db.items[k].fingerprint == Some(v.metadata.value.raw)
                  && !(db.items[k].state == Active && EntityUnchanged(db.items[k], v.etag, v.metadata.value.raw)))
            && (Facts(ApplyTrack(db, v).tracks[id]) == Facts(db.tracks[id]) <==>
                  v.raises || BranchOf(db, v) != Rewrite
                  || (v.metadata.value.text, v.metadata.value.artist, v.metadata.value.album) == Facts(db.tracks[id]))
  {
  }

  // ----- referential integrity ------------------------------------------------------------------

  ghost predicate Intact(db: Db) {
    && (forall t :: t in db.tracks ==> db.tracks[t].artist in db.artists)
    && (forall t :: t in db.tracks && db.tracks[t].album.Some? ==> db.tracks[t].album.value in db.albums)
    && (forall a :: a in db.albums ==> db.albums[a] in db.artists)
    && (forall e :: e in db.entries ==> e.playlist in db.playlists && e.track in db.tracks)
  }

  lemma VisitKeepsIntact(db: Db, v: Visit)
    requires Intact(db)
    ensures Intact(ApplyTrack(db, v))
  {
    hide EntityUnchanged, LocalEdited, Heals;
  }

  lemma {:induction false} EntriesAreOf(db: Db, playlist: Id, entries: seq<(string, int)>)
    ensures forall e :: e in EntriesOf(db, playlist, entries) ==> e.playlist == playlist && e.track in db.tracks
  {
    if entries != [] {
      EntriesAreOf(db, playlist, entries[..|entries| - 1]);
    }
  }

  lemma ListingKeepsIntact(db: Db, l: Listed)
    requires Intact(db)
    ensures Intact(ApplyListed(db, l))
  {
    hide EntityUnchanged, EntityThere;
    EntriesAreOf(db, l.id, l.entries);
    if l.k in db.items && db.items[l.k].entity.Some? {
      EntriesAreOf(db, db.items[l.k].entity.value, l.entries);
    }
    hide EntriesOf;
  }

  /** Referential integrity holds over every history of visits, listings, reconciliations, edits and deletions. */
  lemma {:induction false} HistoriesStayIntact(acts: seq<Act>)
    ensures Intact(After(acts))
  {
    hide Intact, ApplyTrack, ApplyListed, ReconcileRows, DeleteTrack, EditTrack;
    if acts == [] {
      EmptyIsIntact();
    } else {
      var front, a := acts[..|acts| - 1], acts[|acts| - 1];
      HistoriesStayIntact(front);
      match a
      case Visits(v) => VisitKeepsIntact(After(front), v);
      case Lists(l) => ListingKeepsIntact(After(front), l);
      case Reconciles(p, order) => AllRowsKeepIntact(After(front), p, order);
      case Edits(_, _, _, _, _) => EditKeepsIntact(After(front), a);
      case Deletes(t) => DeletionKeepsIntact(After(front), t);
    }
  }

  lemma EmptyIsIntact()
    ensures Intact(EMPTY)
  {
  }

  lemma EditKeepsIntact(db: Db, a: Act)
    requires a.Edits? && Intact(db)
    ensures Intact(Perform(db, a))
  {
  }

  lemma DeletionKeepsIntact(db: Db, t: Id)
    requires Intact(db)
    ensures Intact(DeleteTrack(db, t))
  {
  }

  lemma RowKeepsIntact(db: Db, p: Policy, k: ItemKey)
    requires Intact(db)
    ensures var d := ReconcileRow(db, p, k);
            && Intact(d) && d.tracks == db.tracks && d.artists <= db.artists && d.albums.Keys <= db.albums.Keys
            && (forall a :: a in d.albums ==> d.albums[a] == db.albums[a])
            && (forall j: ItemKey :: j.kind != k.kind ==> (j in d.items <==> j in db.items) && (j in d.items ==> d.items[j] == db.items[j]))
  {
    RowOnlyDrops(db, p, k);
    RowKeepsOtherKinds(db, p, k);
    hide Without;
  }

  lemma RowOnlyDrops(db: Db, p: Policy, k: ItemKey)
    ensures var d := ReconcileRow(db, p, k);
            && d.tracks == db.tracks && d.artists <= db.artists && d.albums.Keys <= db.albums.Keys
            && (forall a :: a in d.albums ==> d.albums[a] == db.albums[a])
  {
    hide AlbumUsed, ArtistUsed, Without;
  }

  lemma RowKeepsOtherKinds(db: Db, p: Policy, k: ItemKey)
    ensures var d := ReconcileRow(db, p, k);
            forall j: ItemKey :: j.kind != k.kind ==> (j in d.items <==> j in db.items) && (j in d.items ==> d.items[j] == db.items[j])
  {
    hide AlbumUsed, ArtistUsed;
  }

  /**
   Reconciliation keeps referential integrity, whatever order the rows come in: no track
   loses its artist or album, no album its artist, no entry its playlist; tracks are not
   touched, and items of kinds that are not reconciled stay as they were.
   */
  lemma {:induction false} ReconciliationKeepsIntegrity(db: Db, p: Policy, ks: seq<ItemKey>, kinds: set<Kind>)
    requires Intact(db) && forall i :: 0 <= i < |ks| ==> ks[i].kind in kinds
    ensures var d := ReconcileRows(db, p, ks);
            && Intact(d) && d.tracks == db.tracks && d.artists <= db.artists && d.albums.Keys <= db.albums.Keys
            && (forall a :: a in d.albums ==> d.albums[a] == db.albums[a])
            && (forall j: ItemKey :: j.kind !in kinds ==> (j in d.items <==> j in db.items) && (j in d.items ==> d.items[j] == db.items[j]))
  {
    hide ReconcileRow, Intact;
    if ks != [] {
      ReconciliationKeepsIntegrity(db, p, ks[..|ks| - 1], kinds);
      RowKeepsIntact(ReconcileRows(db, p, ks[..|ks| - 1]), p, ks[|ks| - 1]);
    }
  }

  lemma AllRowsKeepIntact(db: Db, p: Policy, ks: seq<ItemKey>)
    requires Intact(db)
    ensures var d := ReconcileRows(db, p, ks);
            && Intact(d) && d.tracks == db.tracks && d.artists <= db.artists && d.albums.Keys <= db.albums.Keys
            && (forall a :: a in d.albums ==> d.albums[a] == db.albums[a])
  {
    hide Intact;
    ReconciliationKeepsIntegrity(db, p, ks, set i | 0 <= i < |ks| :: ks[i].kind);
  }

  predicate Names(db: Db, k: ItemKey, kind: Kind, id: Id) {
    k.kind == kind && k in db.items && db.items[k].entity == Some(id)
  }

  /** Some row of the list names this entity. */
  predicate Named(db: Db, ks: seq<ItemKey>, kind: Kind, id: Id) {
    exists i :: 0 <= i < |ks| && Names(db, ks[i], kind, id)
  }

  /** Rows keep their entity while they last, and an album item lasts as long as its album. */
  ghost predicate ItemsKept(db: Db, d: Db) {
    && (forall j :: j in d.items ==> j in db.items && d.items[j].entity == db.items[j].entity)
    && (forall j :: j in db.items && j.kind == AlbumKind && j !in d.items ==>
          db.items[j].entity.Some? && db.items[j].entity.value !in d.albums)
  }

  lemma RowKeepsItems(db: Db, p: Policy, k: ItemKey)
    ensures ItemsKept(db, ReconcileRow(db, p, k))
  {
    EntitiesAreKept(db, p, k);
    AlbumItemsAreKept(db, p, k);
    hide ReconcileRow;
  }

  lemma EntitiesAreKept(db: Db, p: Policy, k: ItemKey)
    ensures var d := ReconcileRow(db, p, k);
            forall j :: j in d.items ==> j in db.items && d.items[j].entity == db.items[j].entity
  {
    hide AlbumUsed, ArtistUsed;
  }

  lemma AlbumItemsAreKept(db: Db, p: Policy, k: ItemKey)
    ensures var d := ReconcileRow(db, p, k);
            forall j :: j in db.items && j.kind == AlbumKind && j !in d.items ==>
              db.items[j].entity.Some? && db.items[j].entity.value !in d.albums
  {
    hide AlbumUsed, ArtistUsed;
  }

  lemma {:induction false} RowsKeepItems(db: Db, p: Policy, ks: seq<ItemKey>)
    requires Intact(db)
    ensures ItemsKept(db, ReconcileRows(db, p, ks))
  {
    hide Intact, ReconcileRow;
    if ks != [] {
      var front, k := ks[..|ks| - 1], ks[|ks| - 1];
      RowsKeepItems(db, p, front);
      AllRowsKeepIntact(db, p, front);
      RowKeepsIntact(ReconcileRows(db, p, front), p, k);
      RowKeepsItems(ReconcileRows(db, p, front), p, k);
    }
  }

  lemma NamedByMore(db: Db, ks: seq<ItemKey>, kind: Kind, id: Id)
    requires ks != []
    ensures Named(db, ks, kind, id) <==> Named(db, ks[..|ks| - 1], kind, id) || Names(db, ks[|ks| - 1], kind, id)
  {
    var front := ks[..|ks| - 1];
    if Named(db, front, kind, id) {
      var i :| 0 <= i < |front| && Names(db, front[i], kind, id);
      assert ks[i] == front[i];
    }
  }

  /**
   Albums are dropped exactly: in any order, an album goes if and only if a reconciled item
   names it and no track uses it.
   */
  lemma {:induction false} AlbumsAreDroppedExactly(db: Db, p: Policy, ks: seq<ItemKey>, id: Id)
    requires Intact(db) && id in db.albums
    ensures id !in ReconcileRows(db, p, ks).albums <==>
              Named(db, ks, AlbumKind, id) && forall t :: t in db.tracks ==> db.tracks[t].album != Some(id)
  {
    hide Intact, ReconcileRow;
    if ks != [] {
      var front, k := ks[..|ks| - 1], ks[|ks| - 1];
      var m := ReconcileRows(db, p, front);
      AlbumsAreDroppedExactly(db, p, front, id);
      AllRowsKeepIntact(db, p, front);
      RowKeepsIntact(m, p, k);
      RowsKeepItems(db, p, front);
      NamedByMore(db, ks, AlbumKind, id);
      if id in m.albums {
        AlbumRow(m, p, k, id);
      }
    }
  }

  lemma AlbumRow(m: Db, p: Policy, k: ItemKey, id: Id)
    requires id in m.albums
    ensures id !in ReconcileRow(m, p, k).albums <==>
              k in m.items && k.kind == AlbumKind && m.items[k].entity == Some(id) && !AlbumUsed(m, id)
  {
  }

  /** A dropped artist was left by every surviving track and album. */
  lemma DroppedArtistsAreUnused(db: Db, p: Policy, ks: seq<ItemKey>, id: Id)
    requires Intact(db) && id in db.artists && id !in ReconcileRows(db, p, ks).artists
    ensures !ArtistUsed(ReconcileRows(db, p, ks), id)
  {
    AllRowsKeepIntact(db, p, ks);
  }
}
