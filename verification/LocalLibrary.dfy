/**
 The local adapter, the file pass and the library's history together: after a full run the
 library mirrors the tree.
 */
module LocalLibrary {
  import opened Prelude
  import opened Paths
  import opened LocalWalk
  import opened LocalSync
  import F = FileSyncModel
  import T = FileSyncTheorems
  import H = FastPath
  import O = FileOutcomes

  /** A file the walk lists: readable, wanted, cut off by no pattern, and in the root unless the library is recursive. */
  ghost predicate OnShelf(f: Filter, tree: Entry, x: Found) {
    && x.path != [] && Lookup(tree, x.path) == Some(File(Some(x.stat)))
    && (forall n :: 0 < n <= |x.path| ==> !f.excluded(x.path[..n])) && f.audio(x.path[|x.path| - 1])
    && (f.recursive || |x.path| == 1)
  }

  lemma ShelfIsVisited(a: Adapter, f: Filter, tree: Entry, vs: seq<F.Visit>, x: Found)
    requires tree.Dir? && UniqueNames(tree) && ListedBy(vs, Offers(a, None, Records(f, tree, []))) && OnShelf(f, tree, x)
    ensures exists i: nat :: i < |vs| && vs[i].offer == OfferOf(a, x)
  {
    ListingIsExact(f, tree, x);
    FullRecords(f, tree);
    OffersAre(a, None, Listing(f, [], tree));
    hide Listing, Offers, UniqueNames, OnShelf, Records;
    var n :| 0 <= n < |Listing(f, [], tree)| && Listing(f, [], tree)[n] == x;
    assert Recent(None, x);
    var offers := Offers(a, None, Listing(f, [], tree));
    assert OfferOf(a, x) in offers;
    var i :| 0 <= i < |offers| && offers[i] == OfferOf(a, x);
    assert vs[i].offer == OfferOf(a, x);
  }

  /** What is visited is on the shelf. */
  lemma VisitedIsOnShelf(a: Adapter, f: Filter, tree: Entry, vs: seq<F.Visit>, k: string)
    requires tree.Dir? && UniqueNames(tree) && ListedBy(vs, Offers(a, None, Records(f, tree, []))) && T.VisitOf(vs, k).Some?
    ensures exists x :: OnShelf(f, tree, x) && Join(x.path) == k
  {
    FullRecords(f, tree);
    VisitIsRecord(a, None, Listing(f, [], tree), vs, k);
    hide Listing, Offers, UniqueNames, Records, OnShelf;
    var x :| x in Listing(f, [], tree) && Recent(None, x) && Join(x.path) == k;
    ListingIsExact(f, tree, x);
    ShelfMeans(f, tree, x);
  }

  lemma ShelfMeans(f: Filter, tree: Entry, x: Found)
    requires tree.Dir? && UniqueNames(tree) && x in Listing(f, [], tree)
    ensures OnShelf(f, tree, x)
  {
    ListingIsExact(f, tree, x);
  }

  /**
   The library mirrors the tree.  After any history in which nothing spoilt the table, a full
   run over a directory tree leaves every file of it that can be read and has no stored copy --
   nested, filtered and all -- under an active row; unless a user edited its track, the track
   shows the file's tags and is in the library.  And every row that is active and seen after
   the run is such a file of the tree.
   */
  lemma LibraryMirrorsTheTree(world: H.World, acts: seq<H.Act>, cfg: F.Config, stored: set<string>, a: Adapter, f: Filter,
      tree: Entry, vs: seq<F.Visit>, started: int)
    requires H.AllowedHistory(world, H.EMPTY, acts) && H.Unspoilt(world, H.EMPTY, acts)
    requires tree.Dir? && UniqueNames(tree) && ListedBy(vs, Offers(a, None, Records(f, tree, []))) && cfg.listItems
    requires T.Before(H.After(H.EMPTY, acts), started) && T.During(vs, started)
    ensures var db := H.After(H.EMPTY, acts);
            var d := F.SyncRun(db, cfg, stored, vs, started, false, None).db;
            && (forall x, sha, m ::
                  OnShelf(f, tree, x) && H.Faithful(world, cfg, OfferOf(a, x)) && Readable(db, cfg, stored, OfferOf(a, x), sha, m) ==>
                    O.Shown(d, Join(x.path), m.core))
            && (forall k :: k in d.rows && d.rows[k].state == F.Active && d.rows[k].lastSeen.Some? ==>
                  exists x :: OnShelf(f, tree, x) && Join(x.path) == k)
  {
    var db := H.After(H.EMPTY, acts);
    var d := F.SyncRun(db, cfg, stored, vs, started, false, None).db;
    ListingIsClean(f, [], tree);
    FullRecords(f, tree);
    ListedOnce(a, None, Listing(f, [], tree), vs);
    hide Listing, Offers, UniqueNames, Records, OnShelf, ListedBy, F.SyncRun, H.After, H.AllowedHistory, H.Unspoilt, O.Shown, T.Before, T.During,
        H.Faithful, Readable, T.DistinctKeys, OfferOf;
    forall x, sha, m | OnShelf(f, tree, x) && H.Faithful(world, cfg, OfferOf(a, x)) && Readable(db, cfg, stored, OfferOf(a, x), sha, m)
      ensures O.Shown(d, Join(x.path), m.core)
    {
      ShelfIsVisited(a, f, tree, vs, x);
      var i: nat :| i < |vs| && vs[i].offer == OfferOf(a, x);
      FileIsShown(world, acts, cfg, stored, vs, started, i, sha, m);
      OfferKey(a, x);
    }
    forall k | k in d.rows && d.rows[k].state == F.Active && d.rows[k].lastSeen.Some?
      ensures exists x :: OnShelf(f, tree, x) && Join(x.path) == k
    {
      ActiveIsVisited(world, acts, cfg, stored, vs, started, k);
      VisitedIsOnShelf(a, f, tree, vs, k);
    }
  }

  /** The visit reads hash and tags, has no stored copy, and is not of a tombstone left alone. */
  ghost predicate Readable(db: F.Db, cfg: F.Config, stored: set<string>, o: F.Offer, sha: string, m: F.Metadata) {
    !o.raises && O.Hashes(cfg, o, sha) && sha !in stored && o.meta == Some(m) && !O.Buried(cfg, F.Get(db, o.item.key))
  }

  lemma OfferKey(a: Adapter, x: Found)
    ensures OfferOf(a, x).item.key == Join(x.path)
  {
  }

  lemma FileIsShown(world: H.World, acts: seq<H.Act>, cfg: F.Config, stored: set<string>, vs: seq<F.Visit>, started: int,
                    i: nat, sha: string, m: F.Metadata)
    requires H.AllowedHistory(world, H.EMPTY, acts) && H.Unspoilt(world, H.EMPTY, acts)
    requires i < |vs| && T.DistinctKeys(vs) && T.During(vs, started) && H.Faithful(world, cfg, vs[i].offer)
    requires Readable(H.After(H.EMPTY, acts), cfg, stored, vs[i].offer, sha, m)
    ensures O.Shown(F.SyncRun(H.After(H.EMPTY, acts), cfg, stored, vs, started, false, None).db, vs[i].offer.item.key, m.core)
  {
    O.SyncedItemsShowTheirFiles(world, acts, cfg, stored, vs, started, false, None, i, sha, m);
  }

  lemma ActiveIsVisited(world: H.World, acts: seq<H.Act>, cfg: F.Config, stored: set<string>, vs: seq<F.Visit>, started: int, k: string)
    requires H.AllowedHistory(world, H.EMPTY, acts) && T.DistinctKeys(vs) && cfg.listItems
    requires T.Before(H.After(H.EMPTY, acts), started)
    requires var d := F.SyncRun(H.After(H.EMPTY, acts), cfg, stored, vs, started, false, None).db;
             k in d.rows && d.rows[k].state == F.Active && d.rows[k].lastSeen.Some?
    ensures T.VisitOf(vs, k).Some?
  {
    var db := H.After(H.EMPTY, acts);
    O.AllowedIsOncePerKey(world, H.EMPTY, acts);
    O.TracksStayTrueToTags(acts);
    T.RunActsSlotwise(db, cfg, stored, vs, started, false, None);
    hide H.After, H.AllowedHistory, F.SyncRun, F.Step, T.WellLinked, T.NewIdFor;
  }
}
