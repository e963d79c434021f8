/**
 Histories of an entity library with a single track that reach the exceptions of the
 entity-pass theorems, each from empty tables.
 */
module EntityWitnesses {
  import opened Prelude
  import opened EntitySync
  import opened EntitySyncTheorems

  const KEY := ItemKey(TrackKind, "a")

  /** The provider's payload: always the same one. */
  const PAYLOAD := Metadata("raw", "theirs", 7, true, None, 7)

  function Sees(etag: string, saved: bool, at: Time): Visit { Visit("a", Some(etag), Some(PAYLOAD), saved, false, false, at) }

  function Table(item: Item, track: Track, shelved: bool): Db {
    Db(map[KEY := item], map[0 := track], map[], {7}, {}, {}, if shelved then {0} else {}, 1)
  }

  function Standing(etag: string, state: State, at: Time): Item {
    Item(Some(0), true, state, Some(etag), Some("raw"), Some(at), false)
  }

  const FIRST := Visits(Sees("e1", true, 1))

  const FOUND := Table(Standing("e1", Active, 1), Track("theirs", 7, None, None, Some(1)), true)

  lemma FirstVisitCreates()
    ensures Perform(EMPTY, FIRST) == FOUND
  {
  }

  lemma ThreeActs(a: Act, b: Act, c: Act)
    ensures After([a]) == Perform(EMPTY, a)
    ensures After([a, b]) == Perform(Perform(EMPTY, a), b)
    ensures After([a, b, c]) == Perform(Perform(Perform(EMPTY, a), b), c)
  {
    hide Perform;
    assert [a][..0] == [] && [a, b][..1] == [a] && [a, b, c][..2] == [a, b];
    assert After([]) == EMPTY;
  }

  // ----- an edited track ----------------------------------------------------------------------------

  const EDIT := Edits(0, "mine", 7, None, 2)

  const EDITED := Table(Standing("e1", Active, 1), Track("mine", 7, None, Some(2), Some(1)), true)

  lemma EditingShows()
    ensures Perform(FOUND, EDIT) == EDITED
  {
  }

  const AGAIN := Visits(Sees("e2", true, 3))

  lemma MovedTagRewrites()
    ensures Perform(EDITED, AGAIN) == Table(Standing("e2", Active, 3), Track("theirs", 7, None, Some(2), Some(3)), true)
  {
  }

  /**
   `EditedTrackIsKeptIff` has an exception: an edit is overwritten by a visit whose etag has
   moved while the payload is the one already applied.
   */
  lemma MovedTagOverwritesAnEdit()
    ensures After([FIRST, EDIT]) == EDITED
    ensures After([FIRST, EDIT, AGAIN]).tracks == map[0 := Track("theirs", 7, None, Some(2), Some(3))]
  {
    hide Perform, After;
    ThreeActs(FIRST, EDIT, AGAIN);
    FirstVisitCreates();
    EditingShows();
    MovedTagRewrites();
  }

  // ----- a saved track that comes back lazily --------------------------------------------------------

  const POLICY := Policy({TrackKind}, false, _ => false, _ => false)

  /** The track is no longer listed. */
  const SWEEP := Reconciles(POLICY, [KEY])

  const LOST := Table(Standing("e1", Missing, 1), Track("theirs", 7, None, None, Some(1)), false)

  lemma SweepingTakesItOffTheShelf()
    ensures Enumerates([KEY], SelectedKeys(FOUND, POLICY, 2)) && Perform(FOUND, SWEEP) == LOST
  {
    assert SelectedKeys(FOUND, POLICY, 2) == {KEY};
    assert [KEY][..0] == [];
    assert ReconcileRows(FOUND, POLICY, []) == FOUND;
  }

  /** A playlist's contents are read, and the track is among them. */
  const LAZY := Visits(Sees("e1", false, 3))

  const BACK := Table(Standing("e1", Active, 3), Track("theirs", 7, None, None, Some(3)), false)

  lemma LazyVisitRevives()
    ensures Perform(LOST, LAZY) == BACK
  {
  }

  /**
   `VisitKeepsSavedRowsIff` has an exception: a saved track that went missing, met again in the
   contents of a playlist, is active and saved and in no library.
   */
  lemma LazyVisitLeavesASavedTrackOut()
    ensures BreaksMembership(After([FIRST, SWEEP]), LAZY.v)
    ensures After([FIRST, SWEEP, LAZY]) == BACK && InCollection(BACK.items[KEY]) && BACK.members == {}
    ensures SavedHaveRows(After([FIRST, SWEEP])) && !SavedHaveRows(After([FIRST, SWEEP, LAZY]))
  {
    ThreeActs(FIRST, SWEEP, LAZY);
    FirstVisitCreates();
    SweepingTakesItOffTheShelf();
    LazyVisitRevives();
    hide Perform, After;
    assert References(BACK, KEY, 0);
  }

  // ----- an artist and its last album -----------------------------------------------------------------

  const ALBUM := ItemKey(AlbumKind, "l")
  const ARTIST := ItemKey(ArtistKind, "r")

  const ARTIST_LISTED := Lists(Listed(ARTIST, None, "raw", 7, 7, [], false, 1))
  const ALBUM_LISTED := Lists(Listed(ALBUM, None, "raw", 5, 7, [], false, 1))

  const BOTH_KINDS := Policy({AlbumKind, ArtistKind}, false, _ => false, _ => false)

  function Seen(id: Id): Item { Item(Some(id), true, Active, None, Some("raw"), Some(1), false) }

  /** An artist and an album of theirs, without tracks. */
  const SHELF := Db(map[ARTIST := Seen(7), ALBUM := Seen(5)], map[], map[5 := 7], {7}, {}, {}, {}, 0)

  lemma ShelfIsListed()
    ensures After([ARTIST_LISTED, ALBUM_LISTED]) == SHELF
  {
    ThreeActs(ARTIST_LISTED, ALBUM_LISTED, ALBUM_LISTED);
  }

  lemma BothAreSelected()
    ensures SelectedKeys(SHELF, BOTH_KINDS, 2) == {ARTIST, ALBUM}
    ensures Enumerates([ALBUM, ARTIST], {ARTIST, ALBUM}) && Enumerates([ARTIST, ALBUM], {ARTIST, ALBUM})
  {
    var one, two := [ALBUM, ARTIST], [ARTIST, ALBUM];
    assert one[0] == ALBUM && one[1] == ARTIST && two[0] == ARTIST && two[1] == ALBUM;
  }

  lemma TwoRows(db: Db, p: Policy, j: ItemKey, k: ItemKey)
    ensures ReconcileRows(db, p, [j, k]) == ReconcileRow(ReconcileRow(db, p, j), p, k)
  {
    hide ReconcileRow;
    assert [j, k][..1] == [j] && [j][..0] == [];
    assert ReconcileRows(db, p, []) == db;
    assert ReconcileRows(db, p, [j]) == ReconcileRow(db, p, j);
  }

  lemma AlbumFirst()
    ensures ReconcileRow(ReconcileRow(SHELF, BOTH_KINDS, ALBUM), BOTH_KINDS, ARTIST) == EMPTY
  {
    assert ReconcileRow(SHELF, BOTH_KINDS, ALBUM) == Db(map[ARTIST := Seen(7)], map[], map[], {7}, {}, {}, {}, 0);
  }

  lemma ArtistFirst()
    ensures ReconcileRow(ReconcileRow(SHELF, BOTH_KINDS, ARTIST), BOTH_KINDS, ALBUM) ==
              Db(map[ARTIST := Seen(7).(state := Missing)], map[], map[], {7}, {}, {}, {}, 0)
  {
    assert SHELF.albums[5] == 7;
    assert ReconcileRow(SHELF, BOTH_KINDS, ARTIST) == SHELF.(items := SHELF.items[ARTIST := Seen(7).(state := Missing)]);
  }

  /** `ArtistsAreDroppedExactly` depends on the order: the same two rows drop the artist, or keep it. */
  lemma OrderDecidesTheArtist()
    ensures var db := After([ARTIST_LISTED, ALBUM_LISTED]);
            && Enumerates([ALBUM, ARTIST], SelectedKeys(db, BOTH_KINDS, 2)) && Enumerates([ARTIST, ALBUM], SelectedKeys(db, BOTH_KINDS, 2))
            && ReconcileRows(db, BOTH_KINDS, [ALBUM, ARTIST]).artists == {}
            && ReconcileRows(db, BOTH_KINDS, [ARTIST, ALBUM]).artists == {7}
  {
    hide After, ReconcileRows, ReconcileRow, SelectedKeys, Enumerates;
    ShelfIsListed();
    BothAreSelected();
    TwoRows(SHELF, BOTH_KINDS, ALBUM, ARTIST);
    TwoRows(SHELF, BOTH_KINDS, ARTIST, ALBUM);
    AlbumFirst();
    ArtistFirst();
  }
}
