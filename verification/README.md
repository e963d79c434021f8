# Songhive: synchronisation and federation, modelled and proved in Dafny

This project models the parts of Songhive that keep two copies of something in step, and
proves what they promise over every input, run or interleaving.

- **External file libraries** (`FileSyncModel`, `FileSync`, `FileSyncTheorems`, `FastPath`,
  `FileSyncSafety`, `FileOutcomes`, `FileWitnesses`). `FileSyncModel` specifies one visit as a state machine on a *slot*: the
  external row under a key, the track it links to, that track's library membership. `FileSync`
  is the pass as it runs: a session loads rows into mutable entities, writes their columns one
  at a time and flushes them; every method is proved to end as the specification says. The next
  three modules prove independence of items, convergence, fast path against slow path, safety of
  local edits, missing detection, and scoped runs. `FileOutcomes` says in columns and literals what
  each kind of visit leaves behind, and that synced items show what their files say.
- **The local adapter and its watchdog** (`Paths`, `LocalWalk`, `Watchdog`, `LocalSync`, `WatchedSync`,
  `LocalLibrary`, `LocalWitnesses`). The
  stack walk over a directory tree, the delete-scope computation, the quiet-window protocol, and
  their composition with the pass: which files a watchdog request reaches, which deleted files
  end as missing rows once the whole request queue has run, when a scoped listing is the full listing restricted,
  and that a full run makes the library mirror the tree.
- **Entity libraries** (`EntitySync`, `EntitySyncTheorems`, `EntityReconciliation`, `EntityOutcomes`, `EntityRuns`,
  `EntityWitnesses`).
  Track visits, listings of albums, artists and playlists, and the selection and reconciliation of
  what dropped out -- exactly what a run did not meet -- with library membership and referential integrity over all histories.
- **The sync lock** (`SyncLock`), **the device-authorization flow** (`DeviceAuth`, `DeviceOutcomes`; the pacing of
  section 3.5 of RFC 8628), **deferred cache invalidation** (`DocCache`), and **the Drive walk**
  (`DriveWalk`).
- **Inbound federation** (`Incoming`, `IncomingTheorems`, `IncomingRedelivery`, `IncomingOutcomes`,
  `IncomingWitnesses`). The receiving side of sections 7.2 to
  7.4, 7.11 and 7.12 of W3C ActivityPub: activity rows under reordered and repeated deliveries.
- **The table-of-contents rewriter** (`UpdateToc`, `TocOutcomes`), on whole documents as text.

Tables are maps, clocks are integers (reals for the device flow), and what the code asks of
other services arrives as a parameter: adapter reads, moderation, admission and attribution
decisions, provider answers. A failing read is a value (`None`, `Raised`), never a precondition.

Where a promise turned out not to hold of the code, the code is kept, the exact condition is
proved, and a short run from empty tables (or from one local row) shows that real inputs meet it:

- A second identical sync changes nothing exactly when no item is shadowed on the strength of its
  *stored* hash while its *current* reading differs (`FileSyncTheorems.RepeatedRunSettles`;
  `FileWitnesses.RewrittenFileIsAddedTheSecondTime`).
- The fast path is not the slow path for a row that is not current: its hash or tags are not those
  of the version its token names, or its reconciled track is off the shelf
  (`FastPath.BranchesAgreeIffCurrent`). Exactly three acts make such a row: restoring a tombstone,
  taking a track off its library by hand, and writing tags back to a version that is then not
  described (`FastPath.ActStaysGoodIff`; `FileWitnesses.RestoredRowDisagrees`,
  `UnshelvedRowDisagrees`, `WrittenBackRowDisagrees`).
- An edited track's fields survive each file sync, but a visit that re-reads unchanged tags stamps
  the track as synced and so gives up its protection from the next provider change
  (`FastPath.RereadingForgetsTheEdit` says exactly which visits do).
- On the entity path an edited track is rewritten when its etag moves under an unchanged payload
  (`EntitySyncTheorems.EditedTrackIsKeptIff`; `EntityWitnesses.MovedTagOverwritesAnEdit`).
- An item saved earlier and revived as merely referenced is active and saved without a library row
  (`EntitySyncTheorems.VisitKeepsSavedRowsIff`; `EntityWitnesses.LazyVisitLeavesASavedTrackOut`).
- Whether an unused artist goes depends on the order in which the rows are reconciled
  (`EntityReconciliation.ArtistsAreDroppedExactly`; `EntityWitnesses.OrderDecidesTheArtist`).
- A scoped listing disagrees with the full one exactly when the scope names a listed file, or a
  non-empty directory that an exclude pattern hides (`LocalSync.ScopedListingAgreesIff`;
  `LocalWitnesses.FileScopeListsNothing`, `HiddenScopeListsMore`).
- An incremental watchdog sync misses a file moved in with an older timestamp
  (`LocalSync.WatchedFileIsReachedIff`; `LocalWitnesses.MovedInFileIsNotReached`).
- A retraction mark is cleared when an object whose thread is not known here is mirrored again
  (`IncomingTheorems.RetractionStaysIff`; `IncomingWitnesses.RetractedPostComesBack`).
- The stored visibility of a remote row is meant never to outrank its container; mirroring the object again
  over a row of a narrower local entity can widen it (`IncomingTheorems.DeliveryKeepsContainedIff`;
  `IncomingWitnesses.MirroringOverWidensAReply`).
- Redelivering at once is not a no-op for a quote of something unknown that names itself as its own
  parent, nor for an update that reveals a missed create and lands on a mirrored thread or takes over
  another actor's row (`IncomingRedelivery.RedeliveryIsANoOpIff`; `IncomingWitnesses.SelfReplyFindsItselfLater`,
  `MissedUpdateTwiceWidensTheReply`, `TakenOverRowLosesItsMentions`). Redelivering a create later in
  a run puts a mirrored post back as it was first sent (`IncomingRedelivery.RedeliveredCreateIsANoOpIff`;
  `IncomingWitnesses.RepeatedCreateUndoesAnUpdate`).
- The sync lock excludes a second run only within its lifetime (`SyncLock.SecondRunEntersIff`;
  `SyncLock.OverstayerDeletesAnothersKey`).
- One rewrite of a table of contents is a fixed point exactly when the old region contributed
  nothing to the list (`UpdateToc.FixedAfterOneIff`); two always are.
- Repeated headings get different anchors, but the number given to one can spell another heading's
  slug (`TocOutcomes.RepeatedHeadingsDiffer`, `NumberedAnchorCanCoincide`).

## Model

| member | source | states |
|---|---|---|
| FileSync.Session.SetItemError | songhive/external/sync.py:149-164 | The row is in error with the given cause and both clock columns stamped; nothing else of it moves; one failure is counted. |
| FileSync.Session.MarkTrackShadowed | songhive/external/sync.py:385-407 | The row takes the item's version columns and hash and is shadowed; only an active linked row loses its link, and with it exactly that track's library row. |
| FileSync.Session.ApplyMetadata | songhive/external/sync.py:250-382 | The decision is the one the edit and fingerprint rules give; columns, track table and id supply end as that decision says, a conflict leaving the track alone. |
| FileSync.Session.ReviseTrack | songhive/external/sync.py:335-382 | An existing track is overwritten with provider data only when the fingerprint moved, keeping its media type unless the tags carry one; otherwise only its sync time moves. |
| FileSync.Session.RecordItem | songhive/external/sync.py:541-558 | The committed row carries the listed version; the fingerprint advances only when the tags were applied, and a conflict is recorded otherwise. |
| FileSync.Session.CommitItem | songhive/external/sync.py:494-563 | Tags, membership, row and counters end as the commit rule says, in all four decisions. |
| FileSync.Session.VisitSlowly | songhive/external/sync.py:470-563 | Hashing, shadowing, reading and applying, with each failure leaving its own error, as the specification of the slow branch says. |
| FileSync.Session.TrustListing | songhive/external/sync.py:444-468 | The branch that trusts the listing is taken exactly when the hash is stored already or the track still exists, and otherwise leaves no trace. |
| FileSync.Session.ProcessItem | songhive/external/sync.py:410-563 | One visit, as it runs on entities and tables, is the per-item state machine on the item's slot and keeps links well formed. |
| FileSync.Session.ProcessBatch | songhive/external/sync.py:2010-2027 | A batch is its visits in order. |
| FileSync.Session.MarkMissingRows | songhive/external/sync.py:2048-2067 | Exactly the selected rows become missing, each once, and the counter grows by their number. |
| FileSync.Session.SyncFileLibrary | songhive/external/sync.py:1992-2067 | Cutting the listing into batches of a hundred does not matter: the run is every visit in order and then missing detection, unless the run is incremental. |
| FileSyncTheorems.StepMoves | songhive/external/sync.py:410-563 | A visit keeps the row's link, drops it, or takes the one fresh id, and never leaves a track or membership hanging on no link. |
| FileSyncTheorems.ItemTouchesOnlyItsSlot | songhive/external/sync.py:410-563 | Independence: processing an item changes its own row, track and membership as the machine says and nothing any other row can see. |
| FileSyncTheorems.PassActsSlotwise | songhive/external/sync.py:2008-2046 | A pass over distinct keys acts once on each listed slot, from its state before the pass, and on no other. |
| FileSyncTheorems.RunActsSlotwise | songhive/external/sync.py:1992-2067 | A whole run does to every slot, listed or not, what the per-slot machine followed by missing detection does. |
| FileSyncTheorems.SecondVisitSettles | songhive/external/sync.py:410-563 | A second visit with the same reading repeats the first, up to timestamps and error text, if and only if the reading settles. |
| FileSyncTheorems.RepeatedRunSettles | songhive/external/sync.py:1992-2067 | Convergence: a second full run with the same listing creates, updates and loses nothing and leaves every slot as it was, if and only if every item settles. |
| FileSyncTheorems.PassCountsNothing | songhive/external/sync.py:410-563 | When every visit is idle, a pass counts nothing as created, updated or missing. |
| FileOutcomes.NewItemBecomesATrack | songhive/external/sync.py:268-316 | An item without a track, once hashed and read, has a new track whose every column is spelt out from the tags ("Unknown Artist" for none, the media type under either of its names), shelved, counted as created, under an active row of the listed version. |
| FileOutcomes.NewTagsReachTheTrack | songhive/external/sync.py:335-377 | When new tags are read for a track not edited since its last sync, title, artist, album, further artists, numbers, duration, genre, year, MusicBrainz id and raw payload are those of the tags, and the media type theirs if they name one. |
| FileOutcomes.SameTagsStampTheTrack | songhive/external/sync.py:379-382 | Tags read before leave every field of the track, edited or not, and only move its sync time. |
| FileOutcomes.EditStandsAgainstNewTags | songhive/external/sync.py:318-333 | New tags against a newer edit leave track and membership, keep the fingerprint, record the conflict, and queue a write-back exactly where one is possible. |
| FileOutcomes.StoredHashShadows | songhive/external/sync.py:470-491 | A hash with a stored copy shadows the row: version and hash recorded, tags and fingerprint kept, the link of an active row gone with its shelf place and any other link kept. |
| FileOutcomes.ListedUnchangedIsStamped | songhive/external/sync.py:444-468 | A row the listing proves unchanged is only stamped as seen and cleared of its error: every other column, track and membership stay. |
| FileOutcomes.UnreadableIsInError | songhive/external/sync.py:470-504 | When hash or tags cannot be had the row is in error with the cause that applies -- no hash, hashing failed, reading failed, each if and only if -- and keeps everything else. |
| FileOutcomes.RunShowsTheTags | songhive/external/sync.py:1992-2067 | A run leaves every listed item it reads under an active row with the tags as fingerprint and a shelved track, whose fields are those of the tags when they are new and as they were when not. |
| FileOutcomes.TracksStayTrueToTags | songhive/external/sync.py:250-382 | Over every history a linked row has its track and a fingerprint, and a track no user ever edited shows the tags of that fingerprint. |
| FileOutcomes.SyncedItemsShowTheirFiles | songhive/external/sync.py:410-563 | After any history that spoils nothing, a run leaves each listed readable item, by whichever branch, under an active row, and a never edited track shows the listed version and is in the library. |
| FileWitnesses.SecondVersionIsShown | songhive/external/sync.py:335-377 | From an empty library: a file synced, retagged and synced again has one track, showing the second version column by column. |
| FastPath.MatchingIsTokenEquality | songhive/external/sync.py:167-181 | The branches of the change test amount to equality of one change token (etag, else modification time and size), absent tokens never matching. |
| FastPath.FastAgreesWithSlow | songhive/external/sync.py:444-563 | Where the listing proves an item unchanged and its reads work, skipping hash and tags ends as doing them if and only if the stored hash is the computed one and the item is to be shadowed or its row is reconciled: tags as read (or an edit pending against them) and, once applied, the track on its shelf. |
| FastPath.UnshelvedTrackIsTheDifference | songhive/external/sync.py:444-539 | A track taken off its library by hand stays off under the fast branch and is put back by the slow one. |
| FastPath.RereadingForgetsTheEdit | songhive/external/sync.py:318-382 | Exactly which visits leave a local edit protected from the next provider change. |
| FastPath.ActStaysGoodIff | songhive/api/routes/external_libraries.py:1570-1745 | Of syncs, edits, write-backs, deletions, tombstones, restores and changes to the shelf, exactly a restore of a stale row, a hand removal of a reconciled track, and a write-back whose new version the row does not describe leave an active row behind its version. |
| FastPath.HistoriesStayGood | songhive/external/sync.py:410-563 | Over every history of those acts in which none of the three occurs, active linked rows describe the version their token names and reconciled tracks are shelved. |
| FastPath.FastPathRefinesSlowPath | songhive/external/sync.py:444-563 | After any such history from an empty library, a visit taking the fast branch ends as the full branch would have. |
| FastPath.BranchesAgreeIff | songhive/external/sync.py:444-563 | In any table, however reached, the two branches agree on a trusted visit if and only if the stored hash is the computed one and the item is to be shadowed or reconciled. |
| FastPath.BranchesAgreeIffCurrent | songhive/external/sync.py:444-563 | Where nothing is to be shadowed they agree if and only if the visited row is current, so every act that spoils a table leaves a row on which they disagree. |
| FileWitnesses.RestoredRowDisagrees | songhive/api/routes/external_libraries.py:1694-1739 | From an empty library: synced, missing, shadowed as a new version, tombstoned, restored; the fast branch then keeps tags that were never read. |
| FileWitnesses.UnshelvedRowDisagrees | songhive/api/routes/libraries.py:805-835 | From an empty library: synced and removed from the library by hand; the fast branch leaves it off, the full one puts it back. |
| FileWitnesses.WrittenBackRowDisagrees | songhive/tasks/external_libraries.py:248-322 | From an empty library: synced, edited and written back by an adapter that reports no hash; the fast branch keeps the old hash. |
| FileWitnesses.RewrittenFileIsAddedTheSecondTime | songhive/external/sync.py:444-539 | From an empty library: a file rewritten under its old token, while its old content has a stored copy, is shadowed by one run and created by the same run repeated. |
| FileSyncSafety.LocalEditsSurviveARun | songhive/external/sync.py:318-382 | No run, of any listing, scope or failure pattern, changes a metadata field of a track whose local edit is newer than its last sync. |
| FileSyncSafety.PassKeepsEditedFields | songhive/external/sync.py:410-563 | A pass keeps the fields of every edited track, and leaves tracks no listed row links to untouched altogether. |
| FileSyncSafety.ConflictStaysRaised | songhive/external/sync.py:318-333 | However often an edited item is visited, with missing detection swept in between, while the provider's tags differ, the fingerprint is not advanced, the track is unchanged, and every visit that reads the tags raises the conflict again. |
| FileSyncSafety.VisitNeverMarksMissing | songhive/external/sync.py:410-563 | No visit marks its row missing or removes it, and an excluded tombstone is left exactly as it was. |
| FileSyncSafety.MissingDetectionIsExact | songhive/external/sync.py:2008-2067 | A row is newly missing if and only if the run lists items non-incrementally and the row was active and seen, is in scope and was not reached; excluded tombstones are untouched. |
| FileSyncSafety.ScopedRunIsFullRunRestricted | songhive/external/sync.py:2048-2067 | Given listings that agree on the scope, keys in scope end as after a full run up to ids and times, and all others are unchanged. |
| Paths.ScopeTestIsPrefix | songhive/external/sync.py:2054-2063 | On joined keys the textual test "equal, or starts with the scope and a slash" is exactly the prefix order on path parts. |
| Paths.JoinIsInjective | songhive/external/_local.py:255-277 | Different relative paths give different provider keys. |
| LocalWalk.Scan | songhive/external/_local.py:249-277 | One directory read yields its admitted files in scan order and pushes the subdirectories to descend into. |
| LocalWalk.WalkFiles | songhive/external/_local.py:230-277 | The explicit-stack walk terminates and yields exactly the recursive listing of its base, in order. |
| LocalWalk.ListingUnderScope | songhive/external/_local.py:230-329 | The full listing filtered by a directory scope is the scope's own listing, entry by entry, when no pattern cuts the scope off, and empty when one does. |
| LocalWalk.FileUnderScope | songhive/external/_local.py:230-277 | A scope naming an admitted file appears in the full listing although a scoped walk finds nothing there. |
| LocalWalk.ListingDistinct | songhive/external/_local.py:230-277 | No path is listed twice. |
| LocalSync.ListingIsExact | songhive/external/_local.py:230-277 | The walk lists a file if and only if it is on disk and readable, its name is wanted, no pattern excludes it or a directory above it, and it lies in the root or the library is recursive. |
| LocalSync.AdapterOffersItsFiles | songhive/external/_local.py:305-329 | An offer is yielded if and only if it is that of a listed file newer than the mark, with its joined path, time and size. |
| LocalLibrary.LibraryMirrorsTheTree | songhive/external/_local.py:230-329 | After any history that spoils nothing, a full run over a tree leaves every readable, admitted file of it shown by its track (edited ones aside), and every row that is active and seen afterwards is such a file. |
| LocalSync.IterItems | songhive/external/_local.py:279-329 | The adapter yields an offer for each walked record newer than the mark, in order. |
| LocalSync.ListedIsOnDisk | songhive/external/_local.py:230-277 | Every listed record is a file of the tree, with its current stat. |
| LocalSync.ScopedListingIsRestricted | songhive/external/_local.py:279-329 | For a faithful scope -- anything but a listed file or a non-empty hidden directory -- the scoped listing visits the same keys with the same offers as the full one does in that scope, each once. |
| LocalSync.ScopedListingAgreesIff | songhive/external/_local.py:279-329 | The scoped listing is the full one restricted if and only if the scope is neither a listed file nor a non-empty directory hidden by a pattern. |
| LocalSync.ScopedLocalSync | songhive/external/sync.py:2008-2067 | For a faithful scope a scoped sync over a tree leaves rows under the scope as a full sync would and every other row, track and membership untouched. |
| LocalSync.IncrementalRunVisitsTheRecent | songhive/external/_local.py:305-329 | An incremental run visits exactly the files modified after its mark, marks nothing missing and changes nothing else. |
| LocalSync.WatchedFileIsReachedIff | songhive/external/watchdog.py:141-201 | The incremental request of a flush reaches a file if and only if its modification time is after one second before the window's first event. |
| LocalSync.DeletedFilesGoMissing | songhive/external/watchdog.py:141-201 | In any interleaving, every active row at or below a deleted path and gone from disk is missing after a run of any request covering the event, and such a request is enqueued. |
| WatchedSync.DeletedFilesEndMissing | songhive/external/watchdog.py:132-201 | Watchdog-to-sync coverage: in any interleaving that ends flushed, once every enqueued sync -- full, scoped, incremental -- has run in order over the tree, a row at or below a deleted path and gone from disk is missing. |
| LocalWitnesses.FileScopeListsNothing | songhive/external/_local.py:279-303 | One file: a scope naming it lists nothing, the full listing has it. |
| LocalWitnesses.HiddenScopeListsMore | songhive/external/_local.py:249-277 | One excluded directory with a file: a scope naming it lists the file, the full listing does not. |
| LocalWitnesses.MovedInFileIsNotReached | songhive/external/watchdog.py:141-201 | One file moved in with an old timestamp: the one request its event leads to offers nothing. |
| Watchdog.EventScope | songhive/external/watchdog.py:46-77 | The scope of a delete event lies at or at most one level above the deleted path: at it exactly unless that names an audio file. |
| Watchdog.LcpIsLongest | songhive/external/watchdog.py:85-95 | Being at or above two paths is being at or above their common prefix. |
| Watchdog.CommonPrefix | songhive/external/watchdog.py:87-93 | The zip loop computes the longest common prefix. |
| Watchdog.DeepestCommonAncestor | songhive/external/watchdog.py:80-97 | The folded prefixes give the deepest path every scope lies at or below; none means the whole library. |
| Watchdog.LibraryWatch.ScheduleFlush | songhive/external/watchdog.py:169-180 | The known timer is disarmed and a new one armed. |
| Watchdog.LibraryWatch.ClassifyAndAccumulate | songhive/external/watchdog.py:186-201 | Handling an event opens the window once, records its kind or scope and re-arms the timer. |
| Watchdog.LibraryWatch.Flush | songhive/external/watchdog.py:141-167 | A flush enqueues the narrowest scoped or full request and the incremental one the accumulator calls for, in that order, and resets it. |
| Watchdog.FlushCovers | songhive/external/watchdog.py:141-167 | The requests of a flush cover every event it is about to forget. |
| Watchdog.FlushIsNarrow | songhive/external/watchdog.py:141-167 | And ask for no more: one request for the deletes at their deepest common path, the whole library only when there is none, and an incremental one only for additions and changes. |
| Watchdog.EventIsAccumulated | songhive/external/watchdog.py:169-201 | An event opens the window a second before the first, counts as addition or change or adds its scope -- at most one level above the path -- and leaves exactly one timer armed for it. |
| Watchdog.NoEventIsLost | songhive/external/watchdog.py:141-201 | In every interleaving each handled event is covered by an enqueued request or still waiting, and while any waits the window is open and an armed timer or pending task will flush it. |
| SyncLock.Guard.Enter | songhive/external/sync.py:1856-1860 | A caller enters exactly when the key was absent or expired; a refused caller changes nothing. |
| SyncLock.Guard.Exit | songhive/external/sync.py:1984-1989 | Leaving deletes the key only for a caller that had taken it. |
| SyncLock.AtMostOneRunInside | songhive/external/sync.py:1856-1989 | For any number of workers, if no run outlives the lock's 3600 s, at most one is inside and the key is its own. |
| SyncLock.SecondRunEntersIff | songhive/external/sync.py:1856-1860 | A second run is let in beside one still inside if and only if that one has outlived the lock. |
| SyncLock.CallEntersIff | songhive/external/sync.py:1856-1989 | A call enters exactly when the key is gone or expired, then holds it for 3600 s, and a run that leaves lets the next call in at once. |
| SyncLock.OverstayerDeletesAnothersKey | songhive/external/sync.py:1984-1989 | A run that overstayed deletes the key of the run inside: four steps that show it. |
| EntitySync.Session.HealTrackArtist | songhive/external/sync.py:874-916 | A track never edited here, whose known artist differs from a properly named one in the payload, is re-pointed to it; any other track is left alone. |
| EntitySync.Session.UpsertItem | songhive/external/sync.py:608-659 | The item is active with the new payload and entity, and saved once saved. |
| EntitySync.Session.ApplyEntityTrack | songhive/external/sync.py:946-1215 | A track visit takes the specified branch (touch, conflict, create, rewrite, refuse) and leaves all eight tables as that branch says. |
| EntityOutcomes.ImportShowsThePayload | songhive/external/sync.py:1058-1117 | A visit of an item without a track makes a new one with the payload's text, artist and album; a new album has the album artist; the item is active under the visit's version. |
| EntityOutcomes.RewriteShowsThePayload | songhive/external/sync.py:1118-1215 | A visit that neither stamps nor meets a standing edit leaves the linked track, edited before or not, with the payload's text, artist and album, and the item under the visit's version. |
| EntityOutcomes.EditKeepsTheTrack | songhive/external/sync.py:1119-1137 | A newer edit against a payload not applied before keeps the track; the item only notes conflict and sighting. |
| EntityOutcomes.StampFollowsTheArtist | songhive/external/sync.py:991-1030 | An unchanged or immutable item keeps its version; its track, if never edited, follows a corrected and properly named artist, and is otherwise as it was. |
| EntityOutcomes.NewListingIsApplied | songhive/external/sync.py:1218-1472 | A new or changed artist, album or playlist gives an active saved item under the listed version whose entity is there, an album with its artist. |
| EntityOutcomes.PlaylistHasItsEntries | songhive/external/sync.py:1362-1472 | A playlist read in full has exactly the listed entries whose tracks are here; all other playlists keep theirs. |
| EntityRuns.TracksShowTheirPayload | songhive/external/sync.py:946-1215 | Over every history a track no user ever edited has the text and album of the payload its item carries. |
| EntitySync.Session.ReconcileMissingEntities | songhive/external/sync.py:1582-1655 | Exactly the active, saved items of enabled kinds last seen before the run began are reconciled, each once, in whatever order the query returns them. |
| EntitySync.Session.EndSync | songhive/external/sync.py:1802-1803 | A full run ends by reconciling that selection; an incremental one changes nothing. |
| EntityRuns.RunTakesWhatItDidNotMeet | songhive/external/sync.py:1658-1803 | For every run of visits and listings and the reconciliation after it, an item goes missing, is demoted or is gone if and only if it was active and saved, of a listed kind, last seen before the run and not met by it, or went with the entity of such an item; every other keeps all columns and its library row. |
| EntitySync.Session.Reconcile | songhive/external/sync.py:1602-1655 | One row is marked, unshelved or dropped with its entity as its kind and remaining references decide. |
| EntitySyncTheorems.MembershipFollowsItems | songhive/external/sync.py:991-1210 | Over every history of visits, listings, reconciliations, edits and deletions a library row implies an active, saved item, and with no lazy visits the two are equivalent. |
| EntitySyncTheorems.VisitKeepsSavedRowsIff | songhive/external/sync.py:1013-1210 | One visit keeps "saved items have rows" if and only if it does not revive or re-create a saved item without saving it. |
| EntitySyncTheorems.VisitTouchesOneItem | songhive/external/sync.py:946-1215 | A visit changes no other item, and at most its own track and membership. |
| EntitySyncTheorems.ReconcilingKeepsMembership | songhive/external/sync.py:1605-1615 | Reconciling any rows in any order keeps both directions of the membership invariant. |
| EntitySyncTheorems.EditedTrackIsKeptIff | songhive/external/sync.py:1013-1139 | A visit keeps an edited track's data if and only if it does not rewrite with different data; it rewrites exactly for an unchanged payload whose etag moved or whose item is not active. |
| EntitySyncTheorems.ReconciliationKeepsIntegrity | songhive/external/sync.py:1592-1655 | In any order no track loses its artist or album, no album its artist, no entry its playlist or track, and kinds without a reconciled row stay as they were. |
| EntitySyncTheorems.VisitKeepsIntact | songhive/external/sync.py:946-1215 | Visits keep referential integrity too. |
| EntitySyncTheorems.AlbumsAreDroppedExactly | songhive/external/sync.py:1628-1638 | In any order an album is dropped if and only if a reconciled item names it and no track uses it. |
| EntityReconciliation.ArtistsAreDroppedExactly | songhive/external/sync.py:1639-1652 | For every order of the rows: an artist is dropped if and only if some row names them when no track has them and every album of theirs has gone before it. |
| EntityReconciliation.ReconciliationIsExact | songhive/external/sync.py:1593-1655 | Whatever order the selection comes in: which items are gone, which are demoted to referenced, which are missing and which unchanged, and which entities and library rows go -- each if and only if. |
| EntityReconciliation.DisabledKindsAreUnchanged | songhive/external/sync.py:1577-1588 | Items of kinds whose listing is disabled are exactly as before the reconciliation. |
| EntitySyncTheorems.HistoriesStayIntact | songhive/external/sync.py:946-1655 | Referential integrity holds over every history of visits, listings, reconciliations, user edits and deletions. |
| EntitySyncTheorems.ListingKeepsMembership | songhive/external/sync.py:1218-1472 | Listing an album, artist or playlist keeps the membership invariant of tracks. |
| EntityWitnesses.MovedTagOverwritesAnEdit | songhive/external/sync.py:1013-1139 | From an empty library: a track is imported, edited, and met again under a new etag with the same payload; the edit is gone. |
| EntityWitnesses.LazyVisitLeavesASavedTrackOut | songhive/external/sync.py:1013-1060 | From an empty library: a saved track drops out, then is met in a playlist; it is active and saved and in no library. |
| EntityWitnesses.OrderDecidesTheArtist | songhive/external/sync.py:1628-1652 | From an empty library: an artist and their one album dropped out; both orders are selections, one drops the artist and the other keeps them. |
| DriveWalk.ScanFolder | songhive/external/_gdrive.py:812-863 | One folder's files are yielded once each under a true path, and its unseen admitted subfolders collected. |
| DriveWalk.PushReversed | songhive/external/_gdrive.py:865-866 | The collected folders go on the stack with the first on top. |
| DriveWalk.IterItems | songhive/external/_gdrive.py:800-866 | The walk terminates on every finite graph, cycles and shared folders included, yields no file twice, only wanted files under display paths that spell real folder chains, with recursion and no excludes all of them that are reachable, always the start folder's own files that no pattern excludes, and without recursion nothing else. |
| DeviceAuth.Service.BeginDevice | songhive/external/device_auth.py:178-237 | A device flow starts with an interval of at least one second, no pacing yet and its expiry. |
| DeviceAuth.Service.PollFlow | songhive/external/device_auth.py:249-326 | One poll answers, changes the stores and asks the provider exactly as the flow's rules say, in every refusal, pacing and outcome: its request is the one the ledger counts. |
| DeviceAuth.Service.CompleteFlow | songhive/external/device_auth.py:337-399 | Claiming a grant or exchanging a code answers, changes the stores and contacts the provider as the rules say, each refusal included. |
| DeviceOutcomes.PollsThatDoNotAsk | songhive/external/device_auth.py:260-284 | Every poll that does not reach the provider: its answer, and that only expiry or a missing provider ends the flow. |
| DeviceOutcomes.FinalAnswersEndTheFlow | songhive/external/device_auth.py:286-311 | Each final provider answer ends the flow with its reply; a grant leaves the configuration to the poller for 300 s. |
| DeviceOutcomes.PendingAnswersPaceTheFlow | songhive/external/device_auth.py:313-325 | A pending answer sets the next poll an interval ahead, a slow-down five seconds more; lifetime and owner stay. |
| DeviceOutcomes.PastedRedirectsAreExchanged | songhive/external/device_auth.py:337-380 | Of completions of a live flow only the owner's pasted redirect is exchanged, once whatever comes of it, and answers the configuration of its own outcome. |
| DeviceOutcomes.ClaimAnswersTheGrant | songhive/external/device_auth.py:382-399 | In every history a claim answers the configuration of the earlier poll that was granted, to that poll's user, within five minutes of it. |
| DeviceOutcomes.GrantIsUnique | songhive/external/device_auth.py:249-326 | No flow has two granted polls. |
| DeviceOutcomes.FirstCompletionClaims | songhive/external/device_auth.py:337-399 | Conversely the owner's first completion within those five minutes is answered with that configuration, and the grant is then gone. |
| DeviceAuth.LedgersStayConsistent | songhive/external/device_auth.py:178-399 | In every history each flow's requests, slow-downs, grants and claims agree with what the store holds for it. |
| DeviceAuth.PollingIsBounded | songhive/external/device_auth.py:268-325 | Requests are an interval less half a second apart, the interval grows by five per slow-down, and (requests - 1) x (first interval - 0.5) stays within the flow's lifetime. |
| DeviceAuth.NothingAfterTheEnd | songhive/external/device_auth.py:268-325 | Once granted, refused or expired, no later history makes another request or exchange. |
| DeviceAuth.GrantIsClaimedOnceByItsOwner | songhive/external/device_auth.py:382-397 | A grant is claimed at most once, by the user who began the flow. |
| DocCache.ActorReachesOnlyTheirOwn | songhive/federation/doc_cache.py:170-185 | Invalidating an actor hits exactly that user's documents and the webfinger records: whole elements, never a longer name. |
| DocCache.TrackReachesExactly | songhive/federation/doc_cache.py:240-266 | Invalidating a track hits exactly its page and track keys, every document with its object's id as an element, and all library pages. |
| DocCache.ActivityReachesExactly | songhive/federation/doc_cache.py:223-237 | Invalidating an activity hits exactly its own document and every document with one of its object ids as an element. |
| DocCache.CachedStaysUntilStruck | songhive/federation/doc_cache.py:120-162 | A cached document stays, unchanged, until a callback that hits its key runs or a render of it ends. |
| DocCache.RenderIsStoredUnlessStruck | songhive/federation/doc_cache.py:120-132 | In every history a finished render is stored if and only if no callback hitting its key ran since it started, and then as of the commit before its start. |
| DocCache.SessionInfo.Defer | songhive/federation/doc_cache.py:149-155 | A callback joins the queue and the listener is on. |
| DocCache.SessionInfo.RunOrDefer | songhive/federation/doc_cache.py:158-162 | Without a session the callback runs now, otherwise it is queued. |
| DocCache.SessionInfo.DrainDeferred | songhive/federation/doc_cache.py:134-146 | Inside a savepoint nothing runs; at the outermost commit the whole queue runs in order and is emptied. |
| DocCache.NothingStaleSurvivesACommit | songhive/federation/doc_cache.py:120-162 | In every interleaving of sessions, savepoints, rollbacks and renders, after a commit's callback has run no cached or still storable document it reaches predates that commit. |
| DocCache.EveryCallbackRunsOnce | songhive/federation/doc_cache.py:134-155 | Per session, callbacks run, popped and queued are exactly those deferred, in order: none lost to a rollback or run twice. |
| DocCache.CallbacksRunAtTheirNextCommit | songhive/federation/doc_cache.py:134-162 | In every history, although releasing a savepoint fires the listener too, the n-th callback a session defers is its n-th to run and belongs to the session's first outermost commit after the deferral; before that commit it has not run. |
| Incoming.Inbox.MaterializeRemoteObject | songhive/federation/incoming.py:365-483 | A reply or quote gets one row on its target's entity, or the existing one, or none for a block, no audience or no entity; a new public one is relayed. |
| Incoming.Inbox.MaterializeRemotePost | songhive/services/remote_content.py:1017-1239 | An object that may be cached is cached, and the row mirroring it created or refreshed. |
| Incoming.Inbox.AdmitObject | songhive/federation/incoming.py:1099-1124 | A create is answered by its target's thread first and mirrored otherwise, quotes taking precedence over replies. |
| Incoming.Inbox.UpdateRemoteObject | songhive/federation/incoming.py:765-835 | A known row is revised from the object alone; an unknown one goes through a missed create, if admitted. |
| Incoming.Inbox.SyncRemoteActivity | songhive/federation/incoming.py:1148-1194 | Each of the five kinds of delivery changes the tables as its rule says. |
| IncomingOutcomes.AnswerGetsARow | songhive/federation/incoming.py:365-483 | A reply or quote of a known row gets one row on that row's entity: as visible as the entity and relayed when public, for those mentioned and not relayed when not; content, language and mentions as sent. |
| IncomingOutcomes.AnswerIsAddedOnce | songhive/federation/incoming.py:386-393 | A create of an answer that has its row already changes nothing. |
| IncomingOutcomes.HomelessGetsARow | songhive/services/remote_content.py:1017-1239 | An object that finds no place under a known row and may show is cached and mirrored by a new row: public, for those mentioned here, or local as it is addressed, under its known parent. |
| IncomingOutcomes.HomelessRefreshesItsRow | songhive/services/remote_content.py:1060-1077 | Mirrored again it refreshes the row it has, whose mentions only grow and whose entity and owner stay. |
| IncomingOutcomes.HomelessIsCachedOrRefused | songhive/services/remote_content.py:1079-1239 | One that may only be cached gets no row; one that may not be cached leaves no trace. |
| IncomingOutcomes.UpdateRevisesTheRow | songhive/federation/incoming.py:793-835 | An attributed update changes exactly content, language, mentions and visibility of its author's row, each from the object and the row's entity. |
| IncomingOutcomes.BoostGetsARow | songhive/federation/incoming.py:676-745 | A new boost of a known live row adds one row on its entity, as visible as that row or for those mentioned. |
| IncomingOutcomes.RetractionMarksTheRow | songhive/federation/incoming.py:838-908 | The author's delete, or undo of a boost, marks exactly their row with its time, once. |
| IncomingOutcomes.TurnedAwayDeliveries | songhive/federation/incoming.py:1099-1146 | A create or update that is cut or forged changes nothing, nor does one of an unknown object that is not admitted or not of web addresses. |
| Incoming.Inbox.ThreadAncestorObjectIds | songhive/federation/incoming.py:275-304 | The parent walk terminates on cyclic data and returns ids and owner of the chain it walked. |
| Incoming.ThreadWalkCoversAncestors | songhive/federation/incoming.py:275-304 | The chain holds a row if and only if it is the target or some number of parent links above it. |
| Incoming.ThreadIdsAreAncestors | songhive/federation/incoming.py:275-304 | The ids returned are exactly the non-empty object ids of the target and its ancestors. |
| Incoming.NearestOwnerIsNearest | songhive/federation/incoming.py:275-304 | The owner returned is that of the locally owned row the fewest links up; none means there is none at any height. |
| IncomingTheorems.DeliveryWritesOnly | songhive/federation/incoming.py:1148-1194 | A delivery writes at most one row, a remote one under its own id, new only if none was there; all rows keep side, id, owner and entity. |
| IncomingTheorems.EachObjectHasOneRow | songhive/federation/incoming.py:386-393 | Over every inbound sequence there is at most one remote row per object id, and rows keep their identity. |
| IncomingTheorems.LastUpdateWins | songhive/federation/incoming.py:765-835 | For a reply to a known target, any sequence of its creates, updates and deletes among others, forged ones by anyone included, with one admitted, attributed update that has an audience, ends with content, language and mentions of the last attributed update, and visible as its entity (public) or to those mentioned, spelt out. |
| IncomingTheorems.QualifyingUpdateMaterializes | songhive/federation/incoming.py:747-791 | Once such an update has arrived, the reply's row exists, whatever came before or after. |
| IncomingTheorems.OnlyTheAuthorRetracts | songhive/federation/incoming.py:838-908 | A retraction mark appears only by a delete, or an undo of a boost, from the row's own actor under its own id. |
| IncomingTheorems.RetractionStaysIff | songhive/services/remote_content.py:1060-1077 | A mark stays, with its time, if and only if the delivery is not one that mirrors the retracted object again. |
| IncomingWitnesses.RetractedPostComesBack | songhive/services/remote_content.py:1060-1077 | From an empty inbox: a post is created, deleted and created again; its mark is cleared. |
| IncomingTheorems.RetractedReplyStaysRetracted | songhive/federation/incoming.py:838-877 | For a reply to a known target the mark is final over every sequence. |
| IncomingTheorems.ForgeriesAreDropped | songhive/federation/incoming.py:765-791 | A create or update that fails the attribution test changes nothing. |
| IncomingRedelivery.DeliveryIsANoOpIff | songhive/federation/incoming.py:1148-1194 | In any state, a delivery of any kind changes nothing if and only if its guard -- known row, unknown target, block, no audience, already retracted, nothing to refresh -- says so. |
| IncomingRedelivery.RedeliveryIsANoOpIff | songhive/federation/incoming.py:386-393 | Delivering anything twice is delivering it once, relays included, except exactly for a self-parented quote of an unknown object and for an update that reveals a missed create and lands on a mirrored thread or takes over another actor's row. |
| IncomingRedelivery.RedeliveredCreateIsANoOpIff | songhive/services/remote_content.py:1017-1239 | Over every run, a create taken in earlier and delivered again at the end changes nothing if and only if what it answers is known by then or row and cache still read as mirroring it leaves them. |
| IncomingRedelivery.RedeliveredBoostIsANoOp | songhive/federation/incoming.py:676-745 | Over every run, a boost stored earlier is absorbed when it comes again. |
| IncomingRedelivery.RepliesAbsorbTheirCreates | songhive/federation/incoming.py:386-393 | For a reply to a known target every create of it is absorbed once its row is there, wherever in whatever run. |
| IncomingWitnesses.RepeatedCreateUndoesAnUpdate | songhive/services/remote_content.py:1060-1077 | From an empty inbox: a post is created, updated and created again; the old content is back. |
| IncomingWitnesses.MissedUpdateTwiceWidensTheReply | songhive/federation/incoming.py:747-835 | From an empty inbox: a private post, then the update of an unknown public reply to it, private the first time and public the second. |
| IncomingWitnesses.TakenOverRowLosesItsMentions | songhive/services/remote_content.py:1060-1077 | From an empty inbox: another actor's update takes a post over and keeps its mentions; repeated, it drops them. |
| IncomingWitnesses.SelfReplyFindsItselfLater | songhive/services/remote_content.py:1017-1077 | From an empty inbox: a quote of an unknown object naming itself as parent has no parent at first and itself after redelivery. |
| IncomingTheorems.EachObjectIsRelayedOnce | songhive/federation/incoming.py:445-483 | Over every inbound sequence no object is relayed twice. |
| IncomingTheorems.MirrorsStayBacked | songhive/services/remote_content.py:1079-1095 | Every mirrored entity keeps its cached object. |
| IncomingTheorems.DeliveryKeepsContainedIff | songhive/federation/incoming.py:247-272 | A row never comes to outrank the local entity it hangs on (directed posts aside), if and only if no delivery mirrors its object again with a wider audience than the entity has. |
| IncomingWitnesses.MirroringOverWidensAReply | songhive/services/remote_content.py:1060-1077 | One followers-only local row: a public reply to it is clamped; delivered again without its reference it is mirrored over and public. |
| IncomingTheorems.RowsStayContained | songhive/federation/incoming.py:247-272 | Over every sequence without such a delivery all rows stay within their entities. |
| UpdateToc.IterHeadings | scripts/update_toc.py:49-71 | The flag-and-marker scan finds exactly the headings outside fenced code. |
| UpdateToc.Headings | scripts/update_toc.py:74-95 | The dictionary of slugs numbers repeats by how often each slug was listed before; the first level-one heading is skipped. |
| UpdateToc.BuildToc | scripts/update_toc.py:98-105 | The list is one item per entry, joined by newlines. |
| UpdateToc.UpdateText | scripts/update_toc.py:108-122 | The splice keeps everything outside the markers and puts the list between two empty lines; without both markers the text is returned as it was. |
| TocOutcomes.HeadingIsRead | scripts/update_toc.py:25-25 | One to six hashes, blanks, a title ending in neither, and any closing blanks and hashes: a heading of that level with exactly that title. |
| TocOutcomes.OtherLinesAreNoHeadings | scripts/update_toc.py:25-25 | A line that does not begin with one to six hashes and a blank is no heading. |
| TocOutcomes.FencedBlockIsHidden | scripts/update_toc.py:49-71 | A fenced block, whatever other fences it holds, adds no heading up to the next fence of its kind, and is then over. |
| TocOutcomes.OnlyTheTitleIsLeftOut | scripts/update_toc.py:74-95 | The list leaves out the first level-one heading and no other. |
| TocOutcomes.SlugJoinsWords | scripts/update_toc.py:37-42 | Whatever tags, punctuation and emoji modifiers a title has: if what is kept of it in lower case reads as words with blanks or dashes between and around, its slug is those words with single dashes between. |
| TocOutcomes.CaptionIsTrimmed | scripts/update_toc.py:45-46 | The caption of an entry is its title without tags and outer blanks. |
| TocOutcomes.AnchorsAreNumbered | scripts/update_toc.py:74-95 | An anchor is the slug, followed for a repeat by a dash and the decimal number of earlier headings with that slug. |
| TocOutcomes.RepeatedHeadingsDiffer | scripts/update_toc.py:74-95 | Headings with the same slug never get the same anchor. |
| TocOutcomes.NumberedAnchorCanCoincide | scripts/update_toc.py:74-95 | Three headings whose anchors coincide: a repeated one, and one whose own slug spells the number. |
| TocOutcomes.ItemReads | scripts/update_toc.py:98-105 | Two blanks of indent per level below the second, bullets in turn, caption and link. |
| TocOutcomes.DocumentIsCutAtItsMarkers | scripts/update_toc.py:108-122 | The region is that between the first start marker and the next end marker. |
| TocOutcomes.UnmarkedDocumentIsKept | scripts/update_toc.py:108-122 | Without a start marker followed by an end marker the document is returned unchanged. |
| TocOutcomes.FinalNewlineIsKept | scripts/update_toc.py:108-122 | A rewritten document ends in a newline if the old one did, and otherwise only if its last line was empty. |
| TocOutcomes.SplittingKeepsTheText | scripts/update_toc.py:108-122 | Splitting into lines loses nothing but line breaks. |
| UpdateToc.StripTagsWorks | scripts/update_toc.py:27-46 | After tags are stripped no opening bracket precedes a closing one except in an empty pair, so no marker can survive or arise. |
| UpdateToc.TocIsInert | scripts/update_toc.py:98-105 | Generated lines are never headings, fences or end markers and contain no line break. |
| UpdateToc.QuietLinesDoNotMatter | scripts/update_toc.py:49-71 | Lines that are neither headings nor fences can be taken out without changing the headings found. |
| UpdateToc.JoinSplits | scripts/update_toc.py:113-122 | Joined lines closed by a newline split back into themselves. |
| UpdateToc.OutsideIsKept | scripts/update_toc.py:113-122 | The rewritten document has its markers where they were, the same head, the same tail, and exactly the new list between. |
| UpdateToc.FixedAfterTwo | scripts/update_toc.py:108-122 | Two applications reach a fixed point, for every text. |
| UpdateToc.FixedAfterOneIff | scripts/update_toc.py:108-122 | One application is a fixed point if and only if the old region contributed nothing to the list. |
| UpdateToc.FixedAfterOne | scripts/update_toc.py:108-122 | One is enough when the old region holds neither heading nor fence. |

## Left out

File libraries

- MusicBrainz and ISRC deduplication (`dedup_musicbrainz`, `dedup_isrc`); both are off in the model, as by default.
- Artist, album and genre tables, covers and artist links on the file path; a track carries the names instead.
- Fingerprints are the tags they digest, so they never collide; hashes are opaque texts.
- FileSync.Session.ProcessItem: an item whose processing raises unexpectedly is modelled as raising before it changes anything; the sighting and the partial changes that the caught exception leaves in the session are not.
- FastPath.FastPathRefinesSlowPath: renaming a source file is not an act of its histories, and a write-back to a provider without that capability, which does nothing, is not one either.
- ORM identity and aliasing: a row is loaded into an entity for one visit and flushed back to value tables at its end.
- The clock of one visit is read at three given instants; renaming of sources and run status records are not part of this model, and whether a restored item still exists at the provider is not checked.
- Catalog batching, which only groups the writes of the passes.

Local adapter and watchdog

- Following symbolic links (links are seen and skipped), scopes that cross one or leave the root, unreadable directories (the walk passes over them, as over empty ones), and file systems that change during a walk.
- The case-insensitivity of SQL `LIKE` in the scope query; the model compares exactly.
- Dispatch over several libraries, shutdown and restart of the watchdog, and enqueue failures, which the code swallows.

Entity libraries

- The two membership arguments of a visit are one here, as at every call: saved items join the library, referenced ones do not.
- Covers, artist images, genres and external identifiers; a payload is its text, artist, album and the whole of it as fingerprint.
- A row whose entity went with one deleted earlier in the same reconciliation is passed over.
- References to a track other than playlist entries (favorites, history, shares) are a parameter of reconciliation.

Federation, cache and authorization

- What decides admission, moderation, attribution and whether an object may be cached; these arrive with the delivery.
- Quote-fallback stripping, hashtags, preview cards, notifications, subscriptions, publication times, the availability mark of cached objects, quote authorizations and follow decisions.
- Incoming.Inbox.SyncRemoteActivity: a boost of an object that is not cached is ignored, where the code fetches the object first; the fetch is not part of this model.
- IncomingTheorems.LastUpdateWins: assumes that no boost carries the reply's own id.
- The `/objects/{id}` permalink form of a reference.
- Where several rows match a lookup without an order, the model takes the one added first.
- The relay of a thread activity beyond the fact that it is sent and for which object: signing and the followers it goes to.
- The cache's own generation guard is assumed; exceptions inside an invalidation callback are logged by the code and ignored here.
- Overlapping calls on one authorization flow, undecodable entries, and the randomness of state tokens (they are assumed fresh).
- The Drive listing requests; a folder's children are given, sorted, and equal for every visit.

Others

- Dropbox chunked upload, provider adapters other than the two walks, HTTP, CLI, configuration, rendering, frontend and migrations: plumbing, or properties easier than the ones here.
- What Unicode classifies as white space, word character or lower case is a parameter of the table-of-contents rewriter; only that word characters are neither brackets nor line breaks is used.
