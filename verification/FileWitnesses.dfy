/**
 Histories of a library with a single file that reach the exceptions of the file-pass
 theorems, each from empty tables.
 */
module FileWitnesses {
  import opened Prelude
  import opened FileSyncModel
  import opened FastPath

  const KEY := "a"

  const CFG := Config(true, true, false, true, true, true, false)

  function Tags(title: string): Metadata {
    Metadata(CoreTags(title, "Artist", "", "", None, None, None, None, None, None), ["Artist"], None)
  }

  /** Versions one and two of the file. */
  const WORLD: World := (k, t) => if t == ETag("v1") then Content("h1", Tags("one")) else Content("h2", Tags("two"))

  /** A visit at instant `at` that is offered a version and reads the given contents. */
  function Seeing(tag: string, hash: string, title: string, at: Time): Visit {
    Visit(Offer(Item(KEY, Some(tag), None, None, None, None, None), Some(hash), Some(Tags(title)), false), Instants(at, at, at))
  }

  function LinkedRow(tag: string, hash: string, title: string, state: State, at: Time): Row {
    Row(Some(0), Some(tag), None, None, None, None, Some(hash), Some(Tags(title).core), None, state, None, false, None, Some(at), Some(at))
  }

  function FirstTrack(at: Time): Track { Track(ProviderFields(Tags("one"), None), None, Some(at), false) }

  function Table(row: Row, track: Track, shelved: bool): Db {
    Db(map[KEY := row], map[0 := track], if shelved then {0} else {}, 1)
  }

  /** The first version is listed and read, into the row, track and membership it gives. */
  const FIRST := Sync(CFG, {}, [Seeing("v1", "h1", "one", 1)], 0, true, None)

  const FOUND := Table(LinkedRow("v1", "h1", "one", Active, 1), FirstTrack(1), true)

  // ----- acts, one at a time ------------------------------------------------------------------------

  lemma OneVisit(db: Db, stored: set<string>, v: Visit)
    ensures ProcessItems(db, ZERO, CFG, stored, [v]) == ProcessItem(db, ZERO, CFG, stored, v)
  {
    hide ProcessItem;
    assert [v][..|[v]| - 1] == [];
    assert ProcessItems(db, ZERO, CFG, stored, []) == Run(db, ZERO);
  }

  lemma VisitingIsOneStep(db: Db, stored: set<string>, v: Visit)
    requires v.offer.item.key == KEY
    ensures var s := Step(Get(db, KEY), CFG, stored, v, db.nextId).slot;
            s.row.Some? ==> Perform(db, Sync(CFG, stored, [v], 0, true, None)) == Put(db, KEY, s)
  {
    hide Step, Put, Get, ProcessItems;
    OneVisit(db, stored, v);
  }

  lemma PuttingALinkedRow(db: Db, row: Row, track: Track)
    requires row.trackId == Some(0) && (db == EMPTY || exists r: Row, t: Track, b: bool :: r.trackId == Some(0) && db == Table(r, t, b))
    ensures Put(db, KEY, Slot(Some(row), Some(track), true)) == Table(row, track, true)
  {
  }

  lemma GettingALinkedRow(row: Row, track: Track, shelved: bool)
    requires row.trackId == Some(0)
    ensures Get(Table(row, track, shelved), KEY) == Slot(Some(row), Some(track), shelved)
  {
  }

  lemma NoHistory(db: Db)
    ensures After(db, []) == db && AllowedHistory(WORLD, db, [])
  {
  }

  lemma FreelyAllowed(db: Db, a: Act)
    requires !a.Sync? && !a.Edit?
    ensures Allowed(WORLD, db, a)
  {
  }

  /** A visit of the version that is there trusts the listing, and ends otherwise than the full branch would. */
  ghost predicate Misleads(db: Db, v: Visit) { Trusts(WORLD, db, CFG, v) && !BranchesAgree(db, CFG, {}, v) }

  lemma StaleRowMisleads(db: Db, v: Visit)
    requires v in {Seeing("v1", "h1", "one", 6), Seeing("v2", "h2", "two", 6)}
    requires KEY in db.rows && db.rows[KEY].trackId == Some(0) && 0 in db.tracks && db.rows[KEY].state == Active
    requires db.rows[KEY].etag == v.offer.item.etag && Truthy(db.rows[KEY].sha)
    requires !Current(WORLD, KEY, Get(db, KEY))
    ensures Misleads(db, v)
  {
    assert Trusts(WORLD, db, CFG, v);
    BranchesAgreeIffCurrent(WORLD, db, CFG, v);
    hide BranchesAgree;
  }

  lemma HistoryGrows(db: Db, acts: seq<Act>, a: Act)
    ensures After(db, acts + [a]) == Perform(After(db, acts), a)
    ensures AllowedHistory(WORLD, db, acts + [a]) <==> AllowedHistory(WORLD, db, acts) && Allowed(WORLD, After(db, acts), a)
  {
    hide Perform, Allowed;
    assert (acts + [a])[..|acts|] == acts;
  }

  lemma FirstVisitIsAllowed(db: Db)
    ensures Allowed(WORLD, db, FIRST)
  {
  }

  lemma FirstVisitCreates()
    ensures Perform(EMPTY, FIRST) == FOUND
  {
    var v := Seeing("v1", "h1", "one", 1);
    VisitingIsOneStep(EMPTY, {}, v);
    NewFileIsCommitted();
    PuttingALinkedRow(EMPTY, LinkedRow("v1", "h1", "one", Active, 1), FirstTrack(1));
    assert Get(EMPTY, KEY) == Slot(None, None, false);
    hide Perform, Put, Step;
  }

  lemma FirstAct()
    ensures After(EMPTY, [FIRST]) == FOUND && AllowedHistory(WORLD, EMPTY, [FIRST])
  {
    hide Perform, Allowed;
    assert [] + [FIRST] == [FIRST];
    HistoryGrows(EMPTY, [], FIRST);
    NoHistory(EMPTY);
    FirstVisitCreates();
    FirstVisitIsAllowed(EMPTY);
  }

  lemma NewFileIsCommitted()
    ensures Step(Slot(None, None, false), CFG, {}, Seeing("v1", "h1", "one", 1), 0).slot ==
              Slot(Some(LinkedRow("v1", "h1", "one", Active, 1)), Some(FirstTrack(1)), true)
  {
  }

  // ----- a restored row -----------------------------------------------------------------------------

  const SWEEP := Sync(CFG, {}, [], 2, false, None)

  const LOST := Table(LinkedRow("v1", "h1", "one", Missing, 1), FirstTrack(1), true)

  lemma SweepingMarksMissing()
    ensures Perform(FOUND, SWEEP) == LOST && Allowed(WORLD, FOUND, SWEEP)
  {
    assert MissingKeys(FOUND, 2, None) == {KEY};
  }

  /** Version two is listed while a copy of it is stored. */
  const SECOND := Sync(CFG, {"h2"}, [Seeing("v2", "h2", "two", 3)], 0, true, None)

  /** The missing row is shadowed: it keeps its link and its old tags. */
  const SHADED := Table(LinkedRow("v2", "h2", "one", Shadowed, 3), FirstTrack(1), true)

  lemma MissingIsShadowed()
    ensures Perform(LOST, SECOND) == SHADED
  {
    hide Perform, Put, Step, Get;
    var was, row, track := LinkedRow("v1", "h1", "one", Missing, 1), LinkedRow("v2", "h2", "one", Shadowed, 3), FirstTrack(1);
    VisitingIsOneStep(LOST, {"h2"}, Seeing("v2", "h2", "two", 3));
    GettingALinkedRow(was, track, true);
    PuttingALinkedRow(LOST, row, track);
    MissingSlotIsShadowed(was, row, track);
  }

  lemma MissingSlotIsShadowed(was: Row, row: Row, track: Track)
    requires was == LinkedRow("v1", "h1", "one", Missing, 1) && row == LinkedRow("v2", "h2", "one", Shadowed, 3)
    ensures Step(Slot(Some(was), Some(track), true), CFG, {"h2"}, Seeing("v2", "h2", "two", 3), 1).slot ==
              Slot(Some(row), Some(track), true)
  {
  }

  lemma SecondVisitIsAllowed()
    ensures Allowed(WORLD, LOST, SECOND)
  {
  }

  const BACK := Table(LinkedRow("v2", "h2", "one", Active, 5).(lastSynced := Some(3)), FirstTrack(1), true)

  lemma RestoringActivates()
    ensures Perform(Perform(SHADED, Tombstone(KEY, 4)), Restore(KEY, 5)) == BACK
  {
  }

  lemma RestoredRowMisleads()
    ensures Misleads(BACK, Seeing("v2", "h2", "two", 6))
  {
    StaleRowMisleads(BACK, Seeing("v2", "h2", "two", 6));
  }

  /**
   `FastPathRefinesSlowPath` needs its hypothesis: a file that went missing, came back as a
   version with a stored copy, was tombstoned and restored.  Once the stored copy is gone, the
   listing is trusted for tags that were never read.
   */
  lemma RestoredRowDisagrees()
    ensures var acts := [FIRST] + [SWEEP] + [SECOND] + [Tombstone(KEY, 4)] + [Restore(KEY, 5)];
            AllowedHistory(WORLD, EMPTY, acts) && Misleads(After(EMPTY, acts), Seeing("v2", "h2", "two", 6))
  {
    hide *;
    FirstAct();
    HistoryGrows(EMPTY, [FIRST], SWEEP);
    HistoryGrows(EMPTY, [FIRST] + [SWEEP], SECOND);
    HistoryGrows(EMPTY, [FIRST] + [SWEEP] + [SECOND], Tombstone(KEY, 4));
    HistoryGrows(EMPTY, [FIRST] + [SWEEP] + [SECOND] + [Tombstone(KEY, 4)], Restore(KEY, 5));
    SweepingMarksMissing();
    MissingIsShadowed();
    SecondVisitIsAllowed();
    FreelyAllowed(SHADED, Tombstone(KEY, 4));
    FreelyAllowed(Perform(SHADED, Tombstone(KEY, 4)), Restore(KEY, 5));
    RestoringActivates();
    RestoredRowMisleads();
  }

  // ----- a track taken off the shelf -----------------------------------------------------------------

  lemma UnshelvedRowMisleads()
    ensures Misleads(Perform(FOUND, Unshelve(0)), Seeing("v1", "h1", "one", 6))
  {
    assert Perform(FOUND, Unshelve(0)) == Table(LinkedRow("v1", "h1", "one", Active, 1), FirstTrack(1), false);
    StaleRowMisleads(Table(LinkedRow("v1", "h1", "one", Active, 1), FirstTrack(1), false), Seeing("v1", "h1", "one", 6));
  }

  /** `FastPathRefinesSlowPath` again: a track taken off the shelf by hand stays off on the fast path alone. */
  lemma UnshelvedRowDisagrees()
    ensures var acts := [FIRST] + [Unshelve(0)];
            AllowedHistory(WORLD, EMPTY, acts) && Misleads(After(EMPTY, acts), Seeing("v1", "h1", "one", 6))
  {
    hide *;
    FirstAct();
    HistoryGrows(EMPTY, [FIRST], Unshelve(0));
    FreelyAllowed(FOUND, Unshelve(0));
    UnshelvedRowMisleads();
  }

  // ----- tags written back -------------------------------------------------------------------------------

  /** The track is edited to the tags of version two, and they are written without a hash being reported. */
  const EDIT := Edit(0, ProviderFields(Tags("two"), None), true, 2)

  const WRITE := WriteBack(KEY, "", Some(Mutation(Some("v2"), None, None, None)), 3)

  const WRITTEN :=
    Table(LinkedRow("v2", "h1", "two", Active, 1), Track(ProviderFields(Tags("two"), None), Some(2), Some(3), false), true)

  lemma WritingBackKeepsTheOldHash()
    ensures Perform(Perform(FOUND, EDIT), WRITE) == WRITTEN
    ensures Allowed(WORLD, FOUND, EDIT) && Allowed(WORLD, Perform(FOUND, EDIT), WRITE)
  {
    var row := LinkedRow("v1", "h1", "one", Active, 1);
    assert Perform(FOUND, EDIT) ==
           Table(row.(writeBackPending := true), Track(ProviderFields(Tags("two"), None), Some(2), Some(1), false), true);
    assert TagsOf(ProviderFields(Tags("two"), None), "") == Tags("two").core;
  }

  lemma WrittenRowMisleads()
    ensures Misleads(WRITTEN, Seeing("v2", "h2", "two", 6))
  {
    StaleRowMisleads(WRITTEN, Seeing("v2", "h2", "two", 6));
  }

  /** `FastPathRefinesSlowPath` a third time: after a write-back that reports no hash, the row keeps the old one. */
  lemma WrittenBackRowDisagrees()
    ensures var acts := [FIRST] + [EDIT] + [WRITE];
            AllowedHistory(WORLD, EMPTY, acts) && Misleads(After(EMPTY, acts), Seeing("v2", "h2", "two", 6))
  {
    hide *;
    FirstAct();
    HistoryGrows(EMPTY, [FIRST], EDIT);
    HistoryGrows(EMPTY, [FIRST] + [EDIT], WRITE);
    WritingBackKeepsTheOldHash();
    WrittenRowMisleads();
  }

  // ----- an item that does not settle ------------------------------------------------------------------------

  /** The file is rewritten under its old token, while what it used to be has a stored copy. */
  const OUSTED := Db(map[KEY := LinkedRow("v1", "h1", "one", Shadowed, 3).(trackId := None)], map[0 := FirstTrack(1)], {}, 1)

  lemma MatchingSlotIsShadowed(row: Row, track: Track)
    requires row == LinkedRow("v1", "h1", "one", Active, 1)
    ensures Step(Slot(Some(row), Some(track), true), CFG, {"h1"}, Seeing("v1", "h2", "two", 3), 1).slot ==
              Slot(Some(LinkedRow("v1", "h1", "one", Shadowed, 3).(trackId := None)), None, false)
  {
  }

  lemma PuttingTheOustedRow(row: Row)
    requires row.trackId.None?
    ensures Put(FOUND, KEY, Slot(Some(row), None, false)) == Db(map[KEY := row], map[0 := FirstTrack(1)], {}, 1)
  {
  }

  lemma StoredHashIsShadowed()
    ensures SyncRun(FOUND, CFG, {"h1"}, [Seeing("v1", "h2", "two", 3)], 2, false, None).db == OUSTED
  {
    hide Step, Put, Get, ProcessItems;
    var row, track, v := LinkedRow("v1", "h1", "one", Active, 1), FirstTrack(1), Seeing("v1", "h2", "two", 3);
    OneVisit(FOUND, {"h1"}, v);
    GettingALinkedRow(row, track, true);
    MatchingSlotIsShadowed(row, track);
    PuttingTheOustedRow(OUSTED.rows[KEY]);
    assert MissingKeys(OUSTED, 2, None) == {};
  }

  lemma OustedSlotIsCreated(row: Row, newId: TrackId)
    requires row == LinkedRow("v1", "h1", "one", Shadowed, 3).(trackId := None)
    ensures Step(Slot(Some(row), None, false), CFG, {"h1"}, Seeing("v1", "h2", "two", 5), newId).delta.created == 1
  {
  }

  lemma ReadHashIsApplied()
    ensures SyncRun(OUSTED, CFG, {"h1"}, [Seeing("v1", "h2", "two", 5)], 4, false, None).counters.created == 1
  {
    assert Get(OUSTED, KEY) == Slot(Some(OUSTED.rows[KEY]), None, false);
    hide Step, Put, Get, ProcessItems;
    OneVisit(OUSTED, {"h1"}, Seeing("v1", "h2", "two", 5));
    OustedSlotIsCreated(OUSTED.rows[KEY], 1);
  }

  /**
   `RepeatedRunSettles` has an exception: a file rewritten under its old change token, while
   what it used to be has a stored copy, is shadowed by the first run and added by the second.
   */
  lemma RewrittenFileIsAddedTheSecondTime()
    ensures var once := SyncRun(After(EMPTY, [FIRST]), CFG, {"h1"}, [Seeing("v1", "h2", "two", 3)], 2, false, None);
            && once.db == OUSTED
            && SyncRun(once.db, CFG, {"h1"}, [Seeing("v1", "h2", "two", 5)], 4, false, None).counters.created == 1
  {
    hide *;
    FirstAct();
    StoredHashIsShadowed();
    ReadHashIsApplied();
  }

  // ----- two versions ------------------------------------------------------------------------------------------

  const NEXT := Sync(CFG, {}, [Seeing("v2", "h2", "two", 3)], 2, false, None)

  /** The tags of version two, column by column. */
  const SHOWN := Track(TrackFields("two", "Artist", None, [], None, None, None, None, None, None, None, None), None, Some(3), false)

  lemma NewVersionIsCommitted(row: Row, track: Track)
    requires row == LinkedRow("v1", "h1", "one", Active, 1) && track == FirstTrack(1)
    ensures Step(Slot(Some(row), Some(track), true), CFG, {}, Seeing("v2", "h2", "two", 3), 1).slot ==
              Slot(Some(LinkedRow("v2", "h2", "two", Active, 3)), Some(SHOWN), true)
  {
  }

  lemma NewVersionIsRun()
    ensures Perform(FOUND, NEXT) == Table(LinkedRow("v2", "h2", "two", Active, 3), SHOWN, true)
  {
    hide Step, Put, Get, ProcessItems;
    var row, track, v := LinkedRow("v1", "h1", "one", Active, 1), FirstTrack(1), Seeing("v2", "h2", "two", 3);
    var end := Table(LinkedRow("v2", "h2", "two", Active, 3), SHOWN, true);
    OneVisit(FOUND, {}, v);
    GettingALinkedRow(row, track, true);
    NewVersionIsCommitted(row, track);
    PuttingALinkedRow(FOUND, LinkedRow("v2", "h2", "two", Active, 3), SHOWN);
    assert MissingKeys(end, 2, None) == {};
  }

  /** A file synced, retagged and synced again: its one track shows the second version, on its shelf. */
  lemma SecondVersionIsShown()
    ensures var d := After(EMPTY, [FIRST] + [NEXT]);
            d.tracks == map[0 := SHOWN] && d.members == {0} && KEY in d.rows && d.rows[KEY].trackId == Some(0)
  {
    assert Table(LinkedRow("v2", "h2", "two", Active, 3), SHOWN, true).rows[KEY].trackId == Some(0);
    hide Perform, Allowed, After;
    FirstAct();
    HistoryGrows(EMPTY, [FIRST], NEXT);
    NewVersionIsRun();
  }
}
