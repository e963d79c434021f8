/**
 Exactly what reconciliation does to every item, entity, entry and membership, in whatever
 order the query lists the rows -- and which parts of that depend on the order.
 */
module EntityReconciliation {
  import opened Prelude
  import opened EntitySync
  import opened EntitySyncTheorems

  // ----- what goes, in terms of the tables before ------------------------------------------------

  predicate DropsPlaylist(db: Db, p: Policy, ks: seq<ItemKey>, id: Id) {
    id in db.playlists && !p.playlistReferenced(id) && Named(db, ks, PlaylistKind, id)
  }

  predicate DropsAlbum(db: Db, ks: seq<ItemKey>, id: Id) {
    id in db.albums && Named(db, ks, AlbumKind, id) && forall t :: t in db.tracks ==> db.tracks[t].album != Some(id)
  }

  /** No track has the artist, and every album of theirs is gone once `ks` are reconciled. */
  predicate ArtistFree(db: Db, ks: seq<ItemKey>, id: Id) {
    && (forall t :: t in db.tracks ==> db.tracks[t].artist != id)
    && (forall a :: a in db.albums && db.albums[a] == id ==> DropsAlbum(db, ks, a))
  }

  /** Some row names the artist after the artist's last album went: this depends on the order. */
  predicate DropsArtist(db: Db, ks: seq<ItemKey>, id: Id) {
    ks != [] &&
    (|| DropsArtist(db, ks[..|ks| - 1], id)
     || (id in db.artists && Names(db, ks[|ks| - 1], ArtistKind, id) && ArtistFree(db, ks[..|ks| - 1], id)))
  }

  /** The item went, with its entity or, for a playlist already gone, by itself. */
  predicate Gone(db: Db, p: Policy, ks: seq<ItemKey>, j: ItemKey)
    requires j in db.items
  {
    var entity := db.items[j].entity;
    entity.Some? &&
    match j.kind
    case TrackKind => false
    case PlaylistKind =>
      DropsPlaylist(db, p, ks, entity.value)
      || (j in ks && entity.value !in db.playlists && !p.playlistReferenced(entity.value))
    case AlbumKind => DropsAlbum(db, ks, entity.value)
    case ArtistKind => DropsArtist(db, ks, entity.value)
  }

  /** Still referenced once `ks` are reconciled: by an entry of a playlist that stays, or elsewhere. */
  predicate StaysReferenced(db: Db, p: Policy, ks: seq<ItemKey>, id: Id) {
    p.trackKept(id) || exists e :: e in db.entries && e.track == id && !DropsPlaylist(db, p, ks, e.playlist)
  }

  /** How a reconciled item that stays ends, when the rows before it were `earlier`. */
  function Outcome(db: Db, p: Policy, earlier: seq<ItemKey>, j: ItemKey): Item
    requires j in db.items
  {
    var item := db.items[j];
    if j.kind == TrackKind && item.entity.Some? && p.immutable && StaysReferenced(db, p, earlier, item.entity.value)
    then item.(saved := false, conflict := false)
    else item.(state := Missing, conflict := false)
  }

  function Final(db: Db, p: Policy, ks: seq<ItemKey>, j: ItemKey): Item
    requires j in db.items
  {
    if ks == [] then db.items[j]
    else if ks[|ks| - 1] == j then Outcome(db, p, ks[..|ks| - 1], j)
    else Final(db, p, ks[..|ks| - 1], j)
  }

  // ----- the invariant of the loop over rows -------------------------------------------------------

  ghost predicate AlbumsAre(db: Db, ks: seq<ItemKey>, d: Db) {
    && (forall a :: a in d.albums <==> a in db.albums && !DropsAlbum(db, ks, a))
    && (forall a :: a in d.albums ==> d.albums[a] == db.albums[a])
  }

  ghost predicate ArtistsAre(db: Db, ks: seq<ItemKey>, d: Db) {
    forall a :: a in d.artists <==> a in db.artists && !DropsArtist(db, ks, a)
  }

  ghost predicate PlaylistsAre(db: Db, p: Policy, ks: seq<ItemKey>, d: Db) {
    && (forall a :: a in d.playlists <==> a in db.playlists && !DropsPlaylist(db, p, ks, a))
    && (forall e :: e in d.entries <==> e in db.entries && !DropsPlaylist(db, p, ks, e.playlist))
  }

  ghost predicate MembersAre(db: Db, ks: seq<ItemKey>, d: Db) {
    forall t :: t in d.members <==> t in db.members && !Named(db, ks, TrackKind, t)
  }

  ghost predicate EntitiesAre(db: Db, p: Policy, ks: seq<ItemKey>, d: Db) {
    && d.tracks == db.tracks && d.nextId == db.nextId
    && AlbumsAre(db, ks, d) && ArtistsAre(db, ks, d) && PlaylistsAre(db, p, ks, d) && MembersAre(db, ks, d)
  }

  ghost predicate ItemsAre(db: Db, p: Policy, ks: seq<ItemKey>, d: Db) {
    && (forall j :: j in d.items ==> j in db.items)
    && (forall j :: j in db.items ==> (j in d.items <==> !Gone(db, p, ks, j)))
    && (forall j :: j in d.items && j in db.items ==> d.items[j] == Final(db, p, ks, j))
  }

  lemma InMore(ks: seq<ItemKey>, j: ItemKey)
    requires ks != []
    ensures j in ks <==> j in ks[..|ks| - 1] || j == ks[|ks| - 1]
  {
    assert ks == ks[..|ks| - 1] + [ks[|ks| - 1]];
  }

  lemma {:induction false} UntouchedIsFinal(db: Db, p: Policy, ks: seq<ItemKey>, j: ItemKey)
    requires j in db.items && j !in ks
    ensures Final(db, p, ks, j) == db.items[j]
  {
    if ks != [] {
      InMore(ks, j);
      UntouchedIsFinal(db, p, ks[..|ks| - 1], j);
    }
  }

  /** What one more row adds to what goes. */
  lemma OneMoreRow(db: Db, p: Policy, ks: seq<ItemKey>)
    requires ks != []
    ensures var front, k := ks[..|ks| - 1], ks[|ks| - 1];
            && (forall id :: DropsAlbum(db, ks, id) <==>
                  DropsAlbum(db, front, id) || (Names(db, k, AlbumKind, id) && id in db.albums && !AlbumUsed(db, id)))
            && (forall id :: DropsPlaylist(db, p, ks, id) <==>
                  DropsPlaylist(db, p, front, id)
                  || (Names(db, k, PlaylistKind, id) && id in db.playlists && !p.playlistReferenced(id)))
            && (forall id :: DropsArtist(db, ks, id) <==>
                  DropsArtist(db, front, id) || (Names(db, k, ArtistKind, id) && id in db.artists && ArtistFree(db, front, id)))
            && (forall id :: Named(db, ks, TrackKind, id) <==> Named(db, front, TrackKind, id) || Names(db, k, TrackKind, id))
  {
    forall kind, id ensures Named(db, ks, kind, id) <==> Named(db, ks[..|ks| - 1], kind, id) || Names(db, ks[|ks| - 1], kind, id) {
      NamedByMore(db, ks, kind, id);
    }
    hide Named, Names, AlbumUsed;
  }

  /** What the row's own tests find is what the tables before say. */
  lemma UsesAgree(db: Db, p: Policy, front: seq<ItemKey>, m: Db)
    requires EntitiesAre(db, p, front, m)
    ensures forall id :: AlbumUsed(m, id) <==> AlbumUsed(db, id)
    ensures forall id :: ArtistUsed(m, id) <==> !ArtistFree(db, front, id)
    ensures forall id :: TrackReferenced(m, p, id) <==> StaysReferenced(db, p, front, id)
  {
    hide DropsAlbum, DropsArtist, DropsPlaylist, Named, ArtistsAre, MembersAre;
  }

  /** A row not reconciled yet is as it was, or went with its entity. */
  lemma RowSoFar(db: Db, p: Policy, front: seq<ItemKey>, m: Db, k: ItemKey)
    requires EntitiesAre(db, p, front, m) && ItemsAre(db, p, front, m) && k in db.items && k !in front
    ensures k in m.items ==> m.items[k] == db.items[k]
    ensures k in m.items <==> !Gone(db, p, front, k)
    ensures forall kind, id :: Names(m, k, kind, id) <==> k in m.items && Names(db, k, kind, id)
    ensures forall id :: Names(db, k, PlaylistKind, id) ==> (k in m.items <==> !DropsPlaylist(db, p, front, id))
    ensures forall id :: Names(db, k, AlbumKind, id) ==> (k in m.items <==> !DropsAlbum(db, front, id))
    ensures forall id :: Names(db, k, ArtistKind, id) ==> (k in m.items <==> !DropsArtist(db, front, id))
    ensures k.kind == TrackKind ==> k in m.items
  {
    UntouchedIsFinal(db, p, front, k);
    hide DropsAlbum, DropsArtist, DropsPlaylist, EntitiesAre, Final;
  }

  lemma EntityStep(db: Db, p: Policy, ks: seq<ItemKey>, m: Db)
    requires ks != [] && EntitiesAre(db, p, ks[..|ks| - 1], m) && ItemsAre(db, p, ks[..|ks| - 1], m)
    requires ks[|ks| - 1] !in ks[..|ks| - 1] && ks[|ks| - 1] in db.items
    ensures EntitiesAre(db, p, ks, ReconcileRow(m, p, ks[|ks| - 1]))
  {
    var front, k := ks[..|ks| - 1], ks[|ks| - 1];
    OneMoreRow(db, p, ks);
    UsesAgree(db, p, front, m);
    RowSoFar(db, p, front, m, k);
    RowDrops(m, p, k);
    hide *;
    var d := ReconcileRow(m, p, k);
    assert AlbumsAre(db, ks, d) by {
      AlbumStep(db, p, ks, m);
    }
    ArtistStep(db, p, ks, m);
    PlaylistStep(db, p, ks, m);
    MemberStep(db, p, ks, m);
    EntitiesAreTogether(db, p, ks, m, d);
  }

  lemma EntitiesAreTogether(db: Db, p: Policy, ks: seq<ItemKey>, m: Db, d: Db)
    requires ks != [] && EntitiesAre(db, p, ks[..|ks| - 1], m) && d.tracks == m.tracks && d.nextId == m.nextId
    requires AlbumsAre(db, ks, d) && ArtistsAre(db, ks, d) && PlaylistsAre(db, p, ks, d) && MembersAre(db, ks, d)
    ensures EntitiesAre(db, p, ks, d)
  {
    hide AlbumsAre, ArtistsAre, PlaylistsAre, MembersAre;
  }

  lemma AlbumStep(db: Db, p: Policy, ks: seq<ItemKey>, m: Db)
    requires ks != [] && EntitiesAre(db, p, ks[..|ks| - 1], m) && ItemsAre(db, p, ks[..|ks| - 1], m)
    requires ks[|ks| - 1] !in ks[..|ks| - 1] && ks[|ks| - 1] in db.items
    ensures AlbumsAre(db, ks, ReconcileRow(m, p, ks[|ks| - 1]))
  {
    hide ReconcileRow, ItemsAre, ArtistsAre, PlaylistsAre, MembersAre, AlbumUsed, ArtistUsed, ArtistFree, Named, Names, DropsAlbum;
    var front, k := ks[..|ks| - 1], ks[|ks| - 1];
    OneMoreRow(db, p, ks);
    UsesAgree(db, p, front, m);
    RowSoFar(db, p, front, m, k);
    RowDrops(m, p, k);
  }

  lemma ArtistStep(db: Db, p: Policy, ks: seq<ItemKey>, m: Db)
    requires ks != [] && EntitiesAre(db, p, ks[..|ks| - 1], m) && ItemsAre(db, p, ks[..|ks| - 1], m)
    requires ks[|ks| - 1] !in ks[..|ks| - 1] && ks[|ks| - 1] in db.items
    ensures ArtistsAre(db, ks, ReconcileRow(m, p, ks[|ks| - 1]))
  {
    hide ReconcileRow, ItemsAre, AlbumsAre, PlaylistsAre, MembersAre, AlbumUsed, ArtistUsed, ArtistFree, Named, Names, DropsArtist;
    var front, k := ks[..|ks| - 1], ks[|ks| - 1];
    OneMoreRow(db, p, ks);
    UsesAgree(db, p, front, m);
    RowSoFar(db, p, front, m, k);
    RowDrops(m, p, k);
  }

  lemma PlaylistStep(db: Db, p: Policy, ks: seq<ItemKey>, m: Db)
    requires ks != [] && EntitiesAre(db, p, ks[..|ks| - 1], m) && ItemsAre(db, p, ks[..|ks| - 1], m)
    requires ks[|ks| - 1] !in ks[..|ks| - 1] && ks[|ks| - 1] in db.items
    ensures PlaylistsAre(db, p, ks, ReconcileRow(m, p, ks[|ks| - 1]))
  {
    hide ReconcileRow, ItemsAre, AlbumsAre, ArtistsAre, MembersAre, AlbumUsed, ArtistUsed, ArtistFree, Named, Names, DropsPlaylist;
    var front, k := ks[..|ks| - 1], ks[|ks| - 1];
    OneMoreRow(db, p, ks);
    RowSoFar(db, p, front, m, k);
    RowDrops(m, p, k);
  }

  lemma MemberStep(db: Db, p: Policy, ks: seq<ItemKey>, m: Db)
    requires ks != [] && EntitiesAre(db, p, ks[..|ks| - 1], m) && ItemsAre(db, p, ks[..|ks| - 1], m)
    requires ks[|ks| - 1] !in ks[..|ks| - 1] && ks[|ks| - 1] in db.items
    ensures MembersAre(db, ks, ReconcileRow(m, p, ks[|ks| - 1]))
  {
    hide ReconcileRow, ItemsAre, AlbumsAre, ArtistsAre, PlaylistsAre, AlbumUsed, ArtistUsed, ArtistFree, Named;
    var front, k := ks[..|ks| - 1], ks[|ks| - 1];
    OneMoreRow(db, p, ks);
    RowSoFar(db, p, front, m, k);
    RowDrops(m, p, k);
  }

  /** What one row does to the entities. */
  lemma RowDrops(m: Db, p: Policy, k: ItemKey)
    ensures var d := ReconcileRow(m, p, k);
            && d.tracks == m.tracks && d.nextId == m.nextId
            && (forall a :: a in d.albums <==> a in m.albums && !(Names(m, k, AlbumKind, a) && !AlbumUsed(m, a)))
            && (forall a :: a in d.albums ==> d.albums[a] == m.albums[a])
            && (forall a :: a in d.artists <==> a in m.artists && !(Names(m, k, ArtistKind, a) && !ArtistUsed(m, a)))
            && (forall a :: a in d.playlists <==> a in m.playlists && !(Names(m, k, PlaylistKind, a) && !p.playlistReferenced(a)))
            && (forall e :: e in d.entries <==> e in m.entries && !(Names(m, k, PlaylistKind, e.playlist)
                                                    && e.playlist in m.playlists && !p.playlistReferenced(e.playlist)))
            && (forall t :: t in d.members <==> t in m.members && !Names(m, k, TrackKind, t))
  {
    hide AlbumUsed, ArtistUsed, TrackReferenced, Without;
  }

  lemma GoneWithMore(db: Db, p: Policy, ks: seq<ItemKey>, j: ItemKey)
    requires ks != [] && j in db.items && ks[|ks| - 1] in db.items && ks[|ks| - 1] !in ks[..|ks| - 1]
    ensures var front, k := ks[..|ks| - 1], ks[|ks| - 1];
            Gone(db, p, ks, j) <==>
              Gone(db, p, front, j) ||
              (&& j.kind == k.kind && db.items[j].entity.Some? && db.items[j].entity == db.items[k].entity
               && var id := db.items[j].entity.value;
                  match k.kind
                  case TrackKind => false
                  case PlaylistKind => !p.playlistReferenced(id) && (id in db.playlists || j == k)
                  case AlbumKind => id in db.albums && !AlbumUsed(db, id)
                  case ArtistKind => id in db.artists && ArtistFree(db, front, id))
  {
    OneMoreRow(db, p, ks);
    InMore(ks, j);
    hide AlbumUsed, ArtistFree, Named, DropsAlbum, DropsArtist, DropsPlaylist;
  }

  lemma ItemStep(db: Db, p: Policy, ks: seq<ItemKey>, m: Db)
    requires ks != [] && EntitiesAre(db, p, ks[..|ks| - 1], m) && ItemsAre(db, p, ks[..|ks| - 1], m)
    requires ks[|ks| - 1] !in ks[..|ks| - 1] && ks[|ks| - 1] in db.items
    ensures ItemsAre(db, p, ks, ReconcileRow(m, p, ks[|ks| - 1]))
  {
    var front, k := ks[..|ks| - 1], ks[|ks| - 1];
    UsesAgree(db, p, front, m);
    RowSoFar(db, p, front, m, k);
    RowLeaves(m, p, k);
    hide ReconcileRow;
    forall j | j in db.items ensures j in ReconcileRow(m, p, k).items <==> !Gone(db, p, ks, j) {
      GoneItem(db, p, ks, m, j);
    }
    hide AlbumUsed, ArtistUsed, ArtistFree, TrackReferenced, Named, Gone, StaysReferenced, EntitiesAre, DropsAlbum, DropsArtist, DropsPlaylist;
  }

  lemma GoneItem(db: Db, p: Policy, ks: seq<ItemKey>, m: Db, j: ItemKey)
    requires ks != [] && EntitiesAre(db, p, ks[..|ks| - 1], m) && ItemsAre(db, p, ks[..|ks| - 1], m)
    requires ks[|ks| - 1] !in ks[..|ks| - 1] && ks[|ks| - 1] in db.items && j in db.items
    ensures j in ReconcileRow(m, p, ks[|ks| - 1]).items <==> !Gone(db, p, ks, j)
  {
    var front, k := ks[..|ks| - 1], ks[|ks| - 1];
    UsesAgree(db, p, front, m);
    RowSoFar(db, p, front, m, k);
    RowLeaves(m, p, k);
    hide ReconcileRow;
    GoneWithMore(db, p, ks, j);
    FinalKeepsEntity(db, p, front, j);
    hide AlbumUsed, ArtistUsed, ArtistFree, TrackReferenced, Named, Final, DropsAlbum, DropsArtist, DropsPlaylist;
  }

  lemma {:induction false} FinalKeepsEntity(db: Db, p: Policy, ks: seq<ItemKey>, j: ItemKey)
    requires j in db.items
    ensures Final(db, p, ks, j).entity == db.items[j].entity
  {
    if ks != [] {
      FinalKeepsEntity(db, p, ks[..|ks| - 1], j);
    }
  }

  /** What one row does to the items, by its kind. */
  lemma RowLeaves(m: Db, p: Policy, k: ItemKey)
    ensures var d := ReconcileRow(m, p, k);
            && (forall j :: j in d.items ==> j in m.items)
            && (forall j :: j in m.items && j != k && j in d.items ==> d.items[j] == m.items[j])
            && (k in m.items && k in d.items ==>
                  d.items[k] == if k.kind == TrackKind && m.items[k].entity.Some? && p.immutable
                                   && TrackReferenced(m, p, m.items[k].entity.value)
                                then m.items[k].(saved := false, conflict := false)
                                else m.items[k].(state := Missing, conflict := false))
            && (forall j :: j in m.items ==>
                  (j !in d.items <==>
                     && k in m.items && j.kind == k.kind && m.items[k].entity.Some? && m.items[j].entity == m.items[k].entity
                     && var id := m.items[k].entity.value;
                        match k.kind
                        case TrackKind => false
                        case PlaylistKind => !p.playlistReferenced(id) && (id in m.playlists || j == k)
                        case AlbumKind => id in m.albums && !AlbumUsed(m, id)
                        case ArtistKind => id in m.artists && !ArtistUsed(m, id)))
  {
    hide AlbumUsed, ArtistUsed, TrackReferenced;
  }

  // ----- the whole reconciliation ----------------------------------------------------------------------

  lemma {:induction false} RowsLeave(db: Db, p: Policy, ks: seq<ItemKey>)
    requires forall i :: 0 <= i < |ks| ==> ks[i] in db.items
    requires forall i, j :: 0 <= i < j < |ks| ==> ks[i] != ks[j]
    ensures EntitiesAre(db, p, ks, ReconcileRows(db, p, ks)) && ItemsAre(db, p, ks, ReconcileRows(db, p, ks))
  {
    if ks == [] {
      NothingLeaves(db, p);
    } else {
      var front, k := ks[..|ks| - 1], ks[|ks| - 1];
      RowsLeave(db, p, front);
      var m := ReconcileRows(db, p, front);
      hide ReconcileRow, EntitiesAre, ItemsAre;
      EntityStep(db, p, ks, m);
      ItemStep(db, p, ks, m);
    }
  }

  lemma NothingLeaves(db: Db, p: Policy)
    ensures EntitiesAre(db, p, [], db) && ItemsAre(db, p, [], db)
  {
    assert forall kind, id :: !Named(db, [], kind, id);
  }

  lemma SelectionIsReconciled(db: Db, p: Policy, started: Time, ks: seq<ItemKey>)
    requires Enumerates(ks, SelectedKeys(db, p, started))
    ensures var d := ReconcileRows(db, p, ks); EntitiesAre(db, p, ks, d) && ItemsAre(db, p, ks, d)
    ensures forall j :: j in ks <==> j in db.items && Selected(db, p, j, started)
  {
    hide Selected;
    assert forall i :: 0 <= i < |ks| ==> ks[i] in ks;
    RowsLeave(db, p, ks);
    hide EntitiesAre, ItemsAre;
  }

  lemma {:induction false} SelectedEnds(db: Db, p: Policy, ks: seq<ItemKey>, j: ItemKey, i: nat)
    requires i < |ks| && ks[i] == j && j in db.items && forall a, b :: 0 <= a < b < |ks| ==> ks[a] != ks[b]
    ensures Final(db, p, ks, j) == Outcome(db, p, ks[..i], j)
  {
    if i < |ks| - 1 {
      var front := ks[..|ks| - 1];
      assert front[i] == j && front[..i] == ks[..i];
      SelectedEnds(db, p, front, j, i);
    }
  }

  /**
   Reconciliation is exact.  Whatever order the selected rows -- active, saved items of
   enabled kinds not seen since the run began -- come in: an item is gone if and only if it
   went with its entity; an item that was selected and stays is demoted when it is a track
   of an immutable provider still referenced at its turn, and missing otherwise; every other
   item is unchanged.  The library loses exactly the tracks of selected items, playlists,
   albums and artists go exactly as dropped, and no track is touched.
   */
  lemma ReconciliationIsExact(db: Db, p: Policy, started: Time, ks: seq<ItemKey>, j: ItemKey)
    requires Enumerates(ks, SelectedKeys(db, p, started))
    ensures var d := ReconcileRows(db, p, ks);
            && EntitiesAre(db, p, ks, d)
            && (j !in db.items ==> j !in d.items)
            && (j in db.items ==>
                  && (j !in d.items <==> Gone(db, p, ks, j))
                  && (j in d.items && !Selected(db, p, j, started) ==> d.items[j] == db.items[j])
                  && (j in d.items && Selected(db, p, j, started) ==>
                        exists i :: 0 <= i < |ks| && ks[i] == j && d.items[j] == Outcome(db, p, ks[..i], j)))
  {
    SelectionIsReconciled(db, p, started, ks);
    hide Selected, Gone, EntitiesAre, Outcome, ReconcileRows;
    if j in db.items {
      if j in ks {
        var i :| 0 <= i < |ks| && ks[i] == j;
        SelectedEnds(db, p, ks, j, i);
      } else {
        UntouchedIsFinal(db, p, ks, j);
      }
    }
  }

  /** Items of kinds whose listing was disabled are unchanged: none of them is selected, and none goes with an entity. */
  lemma DisabledKindsAreUnchanged(db: Db, p: Policy, started: Time, ks: seq<ItemKey>, j: ItemKey)
    requires Enumerates(ks, SelectedKeys(db, p, started)) && j.kind !in p.enabled
    ensures var d := ReconcileRows(db, p, ks);
            (j in d.items <==> j in db.items) && (j in d.items ==> d.items[j] == db.items[j])
  {
    ReconciliationIsExact(db, p, started, ks, j);
    SelectionIsReconciled(db, p, started, ks);
    forall i | 0 <= i < |ks| ensures ks[i].kind in p.enabled {
      assert ks[i] in ks;
    }
    if j in db.items && Gone(db, p, ks, j) {
      GoneIsNamed(db, p, ks, j);
    }
    hide Gone, EntitiesAre, ItemsAre, Outcome, ReconcileRows;
  }

  lemma {:induction false} ArtistGoneIsNamed(db: Db, ks: seq<ItemKey>, id: Id)
    requires DropsArtist(db, ks, id)
    ensures exists i :: 0 <= i < |ks| && ks[i].kind == ArtistKind
  {
    if DropsArtist(db, ks[..|ks| - 1], id) {
      ArtistGoneIsNamed(db, ks[..|ks| - 1], id);
      var i :| 0 <= i < |ks| - 1 && ks[..|ks| - 1][i].kind == ArtistKind;
      assert ks[i].kind == ArtistKind;
    } else {
      assert ks[|ks| - 1].kind == ArtistKind;
    }
  }

  lemma GoneIsNamed(db: Db, p: Policy, ks: seq<ItemKey>, j: ItemKey)
    requires j in db.items && Gone(db, p, ks, j)
    ensures exists i :: 0 <= i < |ks| && ks[i].kind == j.kind
  {
    if j.kind == ArtistKind {
      ArtistGoneIsNamed(db, ks, db.items[j].entity.value);
    }
  }

  /**
   Artists are dropped exactly, and here the order matters: an artist goes if and only if
   some row names them after every one of their albums went, and no track has them.
   */
  lemma {:induction false} ArtistsAreDroppedExactly(db: Db, p: Policy, ks: seq<ItemKey>, id: Id)
    requires id in db.artists && forall i :: 0 <= i < |ks| ==> ks[i] in db.items
    requires forall i, j :: 0 <= i < j < |ks| ==> ks[i] != ks[j]
    ensures id !in ReconcileRows(db, p, ks).artists <==>
              exists i :: 0 <= i < |ks| && Names(db, ks[i], ArtistKind, id) && ArtistFree(db, ks[..i], id)
  {
    RowsLeave(db, p, ks);
    DropsArtistAt(db, ks, id);
    hide ItemsAre, ReconcileRows, DropsArtist, AlbumsAre, PlaylistsAre, MembersAre, ArtistFree, Names;
  }

  lemma {:induction false} DropsArtistAt(db: Db, ks: seq<ItemKey>, id: Id)
    requires id in db.artists
    ensures DropsArtist(db, ks, id) <==> exists i :: 0 <= i < |ks| && Names(db, ks[i], ArtistKind, id) && ArtistFree(db, ks[..i], id)
  {
    hide ArtistFree, Names;
    if ks != [] {
      var front := ks[..|ks| - 1];
      DropsArtistAt(db, front, id);
      assert forall i :: 0 <= i < |front| ==> front[i] == ks[i] && front[..i] == ks[..i];
    }
  }
}
