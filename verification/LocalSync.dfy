/**
 The local adapter, the watchdog and the sync service together: what a scoped or
 incremental run over a directory tree does, and that deletions seen by the watchdog end
 as missing rows.
 */
module LocalSync {
  import opened Prelude
  import opened Paths
  import opened LocalWalk
  import F = FileSyncModel
  import T = FileSyncTheorems
  import S = FileSyncSafety
  import W = Watchdog

  /** What the adapter says of a listed file besides its path: texts of stats, and its reads. */
  datatype Adapter = Adapter(
    etag: Stat -> string, mime: string -> Option<string>,
    hash: string -> Option<string>, tags: string -> Option<F.Metadata>, raises: string -> bool)

  function OfferOf(a: Adapter, x: Found): F.Offer {
    var key := Join(x.path);
    F.Offer(F.Item(key, Some(a.etag(x.stat)), Some(x.stat.mtime), Some(x.stat.size), a.mime(key), None, None),
            a.hash(key), a.tags(key), a.raises(key))
  }

  predicate Recent(since: Option<int>, x: Found) {
    since.None? || x.stat.mtime > since.value
  }

  function Offers(a: Adapter, since: Option<int>, xs: seq<Found>): seq<F.Offer> {
    if xs == [] then []
    else
      var x := xs[|xs| - 1];
      Offers(a, since, xs[..|xs| - 1]) + (if Recent(since, x) then [OfferOf(a, x)] else [])
  }

  /** The listing of a run: the whole tree, or the directory the scope names. */
  ghost function Records(f: Filter, tree: Entry, scope: Path): seq<Found> {
    var at := Lookup(tree, scope);
    if at.Some? && at.value.Dir? then Listing(f, scope, at.value) else []
  }

  /** `iter_items` of the local adapter, once the scope is resolved to a directory entry. */
  method IterItems(a: Adapter, f: Filter, ghost tree: Entry, start: Option<Entry>, since: Option<int>, scope: Path)
    returns (items: seq<F.Offer>)
    requires start == Lookup(tree, scope)
    ensures items == Offers(a, since, Records(f, tree, scope))
  {
    hide Listing, Below, Lookup;
    var records := WalkFiles(f, scope, start);
    items := [];
    for n := 0 to |records|
      invariant items == Offers(a, since, records[..n])
    {
      assert records[..n + 1][..n] == records[..n];
      if since.Some? && records[n].stat.mtime <= since.value {
        continue;
      }
      items := items + [OfferOf(a, records[n])];
    }
    assert records[..|records|] == records;
  }

  /** The visits of a run carry exactly the listed offers, in order. */
  ghost predicate ListedBy(vs: seq<F.Visit>, os: seq<F.Offer>) {
    |vs| == |os| && forall i :: 0 <= i < |vs| ==> vs[i].offer == os[i]
  }

  // ----- listings and the disk ------------------------------------------------------------------

  lemma {:induction false} ListedIsOnDisk(f: Filter, dir: Path, d: Entry, x: Found)
    requires d.Dir? && UniqueNames(d) && x in Listing(f, dir, d)
    ensures dir <= x.path && Lookup(d, x.path[|dir|..]) == Some(File(Some(x.stat)))
    decreases d, 1, 0
  {
    ListingExtends(f, dir, d);
    if x in FilesIn(f, dir, d.children) {
      FileIsEntry(f, dir, d.children, x);
      var j :| 0 <= j < |d.children| && d.children[j].entry == File(Some(x.stat)) && x.path == dir + [d.children[j].name];
      assert x.path[|dir|..] == [d.children[j].name];
      assert x.path[|dir|..][1..] == [];
    } else {
      BelowIsOnDisk(f, dir, d, |d.children|, x);
    }
  }

  lemma {:induction false} BelowIsOnDisk(f: Filter, dir: Path, d: Entry, n: nat, x: Found)
    requires d.Dir? && UniqueNames(d) && n <= |d.children| && x in Below(f, dir, d, n)
    ensures dir <= x.path && Lookup(d, x.path[|dir|..]) == Some(File(Some(x.stat)))
    decreases d, 0, n
  {
    hide Below, Listing, Lookup, Descends, UniqueNames;
    BelowHasEntries(f, dir, d, n, x);
    var c := d.children[n - 1];
    var next := dir + [c.name];
    BelowOfMore(f, dir, d, n - 1);
    if Descends(f, dir, c) {
      DescendsIntoDirs(f, dir, c);
    }
    if c.entry.Dir? && Descends(f, dir, c) && x in Listing(f, next, c.entry) {
      ChildrenAreUnique(d, n - 1);
      ListedIsOnDisk(f, next, c.entry, x);
      var parts := x.path[|dir|..];
      assert parts[1..] == x.path[|next|..];
      assert x.path[|dir|] == c.name && next[..|dir|] == dir;
      LookupIntoChild(d, n - 1, parts);
    } else {
      BelowIsOnDisk(f, dir, d, n - 1, x);
    }
  }

  lemma BelowHasEntries(f: Filter, dir: Path, d: Entry, n: nat, x: Found)
    requires d.Dir? && n <= |d.children| && x in Below(f, dir, d, n)
    ensures n > 0
  {
  }

  lemma ChildrenAreUnique(d: Entry, i: nat)
    requires d.Dir? && UniqueNames(d) && i < |d.children|
    ensures UniqueNames(d.children[i].entry)
  {
  }

  lemma LookupIntoChild(d: Entry, i: nat, parts: Path)
    requires d.Dir? && UniqueNames(d) && i < |d.children| && parts != [] && parts[0] == d.children[i].name
    ensures Lookup(d, parts) == Lookup(d.children[i].entry, parts[1..])
  {
    assert Child(d, parts[0]) == Some(d.children[i].entry);
  }

  lemma {:induction false} FileIsEntry(f: Filter, dir: Path, cs: seq<Named>, x: Found)
    requires x in FilesIn(f, dir, cs)
    ensures exists j :: 0 <= j < |cs| && cs[j].entry == File(Some(x.stat)) && x.path == dir + [cs[j].name]
  {
    var n := |cs| - 1;
    if x in FilesIn(f, dir, cs[..n]) {
      FileIsEntry(f, dir, cs[..n], x);
    } else {
      assert x in FileOf(f, dir, cs[n]);
    }
  }

  lemma {:induction false} OffersAre(a: Adapter, since: Option<int>, xs: seq<Found>)
    ensures forall o :: o in Offers(a, since, xs) <==> exists i :: 0 <= i < |xs| && Recent(since, xs[i]) && o == OfferOf(a, xs[i])
  {
    if xs != [] {
      var front := xs[..|xs| - 1];
      OffersAre(a, since, front);
      assert forall i :: 0 <= i < |front| ==> front[i] == xs[i];
      forall o | o in Offers(a, since, xs)
        ensures exists i :: 0 <= i < |xs| && Recent(since, xs[i]) && o == OfferOf(a, xs[i])
      {
        if o in Offers(a, since, front) {
          var i :| 0 <= i < |front| && Recent(since, front[i]) && o == OfferOf(a, front[i]);
          assert o == OfferOf(a, xs[i]);
        } else {
          assert o == OfferOf(a, xs[|xs| - 1]);
        }
      }
    }
  }

  /** Well-formed records: valid, distinct paths. */
  ghost predicate Clean(xs: seq<Found>) {
    Distinct(xs) && forall i :: 0 <= i < |xs| ==> xs[i].path != [] && PathOk(xs[i].path)
  }

  lemma ListingIsClean(f: Filter, dir: Path, d: Entry)
    requires d.Dir? && UniqueNames(d) && PathOk(dir)
    ensures Clean(Listing(f, dir, d))
  {
    ListingDistinct(f, dir, d);
    ListingExtends(f, dir, d);
    ListedPathsAreOk(f, dir, d);
  }

  ghost predicate DistinctOffers(os: seq<F.Offer>) {
    forall i, j :: 0 <= i < j < |os| ==> os[i].item.key != os[j].item.key
  }

  lemma {:induction false} CleanOffersAreDistinct(a: Adapter, since: Option<int>, xs: seq<Found>)
    requires Clean(xs)
    ensures DistinctOffers(Offers(a, since, xs))
  {
    if xs != [] {
      var front, last := xs[..|xs| - 1], xs[|xs| - 1];
      CleanOffersAreDistinct(a, since, front);
      OffersAre(a, since, front);
      var os := Offers(a, since, front);
      forall n | 0 <= n < |os|
        ensures os[n].item.key != Join(last.path)
      {
        assert os[n] in os;
        var i :| 0 <= i < |front| && Recent(since, front[i]) && os[n] == OfferOf(a, front[i]);
        assert front[i] == xs[i] && xs[i].path != xs[|xs| - 1].path;
        if Join(xs[i].path) == Join(last.path) {
          JoinIsInjective(xs[i].path, last.path);
        }
      }
      assert Offers(a, since, xs) == os || Offers(a, since, xs) == os + [OfferOf(a, last)];
    }
  }

  lemma ListedOnce(a: Adapter, since: Option<int>, xs: seq<Found>, vs: seq<F.Visit>)
    requires Clean(xs) && ListedBy(vs, Offers(a, since, xs))
    ensures T.DistinctKeys(vs)
  {
    CleanOffersAreDistinct(a, since, xs);
  }

  lemma {:induction false} UnderIsFilter(s: Path, xs: seq<Found>)
    ensures forall x :: x in Under(s, xs) <==> x in xs && s <= x.path
  {
    if xs != [] {
      UnderIsFilter(s, xs[..|xs| - 1]);
      assert xs == xs[..|xs| - 1] + [xs[|xs| - 1]];
    }
  }

  /** The visit of a key is the offer of the one record with that path. */
  lemma VisitIsRecord(a: Adapter, since: Option<int>, xs: seq<Found>, vs: seq<F.Visit>, k: string)
    requires ListedBy(vs, Offers(a, since, xs))
    ensures T.VisitOf(vs, k).Some? <==> exists x :: x in xs && Recent(since, x) && Join(x.path) == k
    ensures T.VisitOf(vs, k).Some? ==> exists x :: x in xs && Recent(since, x) && Join(x.path) == k && T.VisitOf(vs, k).value.offer == OfferOf(a, x)
  {
    var os := Offers(a, since, xs);
    OffersAre(a, since, xs);
    if T.VisitOf(vs, k).Some? {
      var v := T.VisitOf(vs, k).value;
      var i :| 0 <= i < |vs| && vs[i] == v && v.offer.item.key == k;
      assert v.offer in os;
      var j :| 0 <= j < |xs| && Recent(since, xs[j]) && v.offer == OfferOf(a, xs[j]);
      assert xs[j] in xs;
    }
    if x :| x in xs && Recent(since, x) && Join(x.path) == k {
      assert OfferOf(a, x) in os;
      var i :| 0 <= i < |os| && os[i] == OfferOf(a, x);
      assert vs[i].offer.item.key == k;
    }
  }

  lemma ScopeIsPrefix(s: Path, p: Path)
    requires PathOk(s) && s != [] && PathOk(p) && p != []
    ensures F.InScope(Some(Join(s)), Join(p)) <==> s <= p
  {
    JoinIsNeverEmptyOrEndsInSlash(s);
    assert RStrip(Join(s), '/') == Join(s);
    ScopeTestIsPrefix(p, s);
  }

  // ----- scoped runs over a tree ----------------------------------------------------------------

  lemma RestrictedAtKey(a: Adapter, full: seq<Found>, s: Path, vs: seq<F.Visit>, all: seq<F.Visit>, k: string)
    requires Clean(full) && PathOk(s) && s != []
    requires ListedBy(vs, Offers(a, None, Under(s, full))) && ListedBy(all, Offers(a, None, full))
    ensures F.InScope(Some(Join(s)), k) ==>
              (T.VisitOf(vs, k).Some? <==> T.VisitOf(all, k).Some?)
              && (T.VisitOf(vs, k).Some? ==> T.VisitOf(vs, k).value.offer == T.VisitOf(all, k).value.offer)
    ensures !F.InScope(Some(Join(s)), k) ==> T.VisitOf(vs, k).None?
  {
    hide F.InScope, Offers, ListedBy;
    var part := Under(s, full);
    UnderIsFilter(s, full);
    VisitIsRecord(a, None, part, vs, k);
    VisitIsRecord(a, None, full, all, k);
    if x :| x in full && Join(x.path) == k {
      ScopeIsPrefix(s, x.path);
      forall y | y in full && Join(y.path) == k ensures y == x {
        SameKeySameRecord(full, x, y);
      }
    }
  }

  /** Listings of the scope and of the whole tree agree wherever the scope reaches. */
  lemma ScopedListingIsRestricted(a: Adapter, f: Filter, tree: Entry, s: Path, vs: seq<F.Visit>, all: seq<F.Visit>)
    requires tree.Dir? && UniqueNames(tree) && f.recursive && PathOk(s) && s != [] && ScopeIsFaithful(f, tree, s)
    requires ListedBy(vs, Offers(a, None, Records(f, tree, s))) && ListedBy(all, Offers(a, None, Records(f, tree, [])))
    ensures T.DistinctKeys(vs) && T.DistinctKeys(all) && S.RestrictedTo(vs, all, Some(Join(s)))
  {
    hide Listing, Below, UniqueNames, Offers, ListedBy, Clean, F.InScope, T.VisitOf, T.DistinctKeys, ScopeIsFaithful, Records, Under;
    var part, full := Records(f, tree, s), Records(f, tree, []);
    ScopedListingAgreesIff(f, tree, s);
    RecordsAreClean(f, tree, []);
    RecordsAreClean(f, tree, s);
    ListedOnce(a, None, full, all);
    ListedOnce(a, None, part, vs);
    forall k {
      RestrictedAtKey(a, full, s, vs, all, k);
    }
  }

  lemma SameKeySameRecord(xs: seq<Found>, x: Found, y: Found)
    requires Clean(xs) && x in xs && y in xs && Join(x.path) == Join(y.path)
    ensures x == y
  {
    JoinIsInjective(x.path, y.path);
    var i :| 0 <= i < |xs| && xs[i] == x;
    var j :| 0 <= j < |xs| && xs[j] == y;
    assert i == j;
  }

  lemma {:induction false} LookupKeepsNames(e: Entry, parts: Path)
    requires UniqueNames(e) && Lookup(e, parts).Some?
    ensures UniqueNames(Lookup(e, parts).value)
    decreases |parts|
  {
    if parts != [] {
      LookupKeepsNames(Child(e, parts[0]).value, parts[1..]);
    }
  }

  /**
   A scoped local sync is the full sync restricted: for a recursive library and any scope but
   a listed file or a directory with files that some exclude pattern hides, rows under the
   scope end as a full run over the same tree would leave them and all other rows, tracks and
   memberships stay untouched.
   */
  lemma ScopedLocalSync(db: F.Db, cfg: F.Config, stored: set<string>, a: Adapter, f: Filter, tree: Entry, s: Path,
                        vs: seq<F.Visit>, all: seq<F.Visit>, started: int, startedFull: int, k: string)
    requires T.WellLinked(db)
    requires tree.Dir? && UniqueNames(tree) && f.recursive && PathOk(s) && s != [] && ScopeIsFaithful(f, tree, s)
    requires ListedBy(vs, Offers(a, None, Records(f, tree, s))) && ListedBy(all, Offers(a, None, Records(f, tree, [])))
    requires T.Before(db, started) && T.Before(db, startedFull) && T.During(vs, started) && T.During(all, startedFull)
    ensures var scope := Some(Join(s));
            var part := F.SyncRun(db, cfg, stored, vs, started, false, scope).db;
            var full := F.SyncRun(db, cfg, stored, all, startedFull, false, None).db;
            if F.InScope(scope, k) then S.SameButIdsAndTimes(F.Get(part, k), F.Get(full, k))
            else F.Get(part, k) == F.Get(db, k)
  {
    hide F.SyncRun, S.RestrictedTo, T.WellLinked, ScopeIsFaithful;
    ScopedListingIsRestricted(a, f, tree, s, vs, all);
    S.ScopedRunIsFullRunRestricted(db, cfg, stored, vs, all, started, startedFull, Some(Join(s)), k);
  }

  // ----- exactly when a scoped listing is the restricted one ---------------------------------------

  lemma {:induction false} ListedIsAdmitted(f: Filter, dir: Path, d: Entry, x: Found)
    requires d.Dir? && x in Listing(f, dir, d)
    ensures dir <= x.path && |x.path| > |dir| && OpenPath(f, dir, x.path) && f.audio(x.path[|x.path| - 1])
    decreases d, 1, 0
  {
    if x in FilesIn(f, dir, d.children) {
      FileIsAdmitted(f, dir, d.children, x);
    } else {
      BelowIsAdmitted(f, dir, d, |d.children|, x);
    }
  }

  lemma {:induction false} FileIsAdmitted(f: Filter, dir: Path, cs: seq<Named>, x: Found)
    requires x in FilesIn(f, dir, cs)
    ensures |x.path| == |dir| + 1 && dir <= x.path && OpenPath(f, dir, x.path) && f.audio(x.path[|dir|])
  {
    var n := |cs| - 1;
    if x in FilesIn(f, dir, cs[..n]) {
      FileIsAdmitted(f, dir, cs[..n], x);
    } else {
      assert x in FileOf(f, dir, cs[n]);
      assert x.path[..|x.path|] == x.path;
    }
  }

  lemma {:induction false} BelowIsAdmitted(f: Filter, dir: Path, d: Entry, n: nat, x: Found)
    requires d.Dir? && n <= |d.children| && x in Below(f, dir, d, n)
    ensures dir <= x.path && |x.path| > |dir| && OpenPath(f, dir, x.path) && f.audio(x.path[|x.path| - 1])
    decreases d, 0, n
  {
    var c := d.children[n - 1];
    var next := dir + [c.name];
    if Descends(f, dir, c) && x in Listing(f, next, c.entry) {
      ListedIsAdmitted(f, next, c.entry, x);
      assert next[..|dir|] == dir && x.path[..|next|] == next;
      assert x.path[..|dir|] == x.path[..|next|][..|dir|];
    } else {
      BelowIsAdmitted(f, dir, d, n - 1, x);
    }
  }

  lemma {:induction false} FlatHasNothingBelow(f: Filter, dir: Path, d: Entry, n: nat)
    requires d.Dir? && n <= |d.children| && !f.recursive
    ensures Below(f, dir, d, n) == []
  {
    if n > 0 {
      FlatHasNothingBelow(f, dir, d, n - 1);
      BelowOfMore(f, dir, d, n - 1);
    }
  }

  lemma {:induction false} FilesAreChildren(f: Filter, dir: Path, cs: seq<Named>, x: Found)
    requires x in FilesIn(f, dir, cs)
    ensures |x.path| == |dir| + 1
  {
    if x in FilesIn(f, dir, cs[..|cs| - 1]) {
      FilesAreChildren(f, dir, cs[..|cs| - 1], x);
    } else {
      assert x in FileOf(f, dir, cs[|cs| - 1]);
    }
  }

  /**
   The walk lists exactly the tree's files: those that can be read, whose name is wanted, that
   no pattern excludes or cuts off, and -- for a library that is not recursive -- that lie in
   the root itself.
   */
  lemma ListingIsExact(f: Filter, tree: Entry, x: Found)
    requires tree.Dir? && UniqueNames(tree)
    ensures x in Listing(f, [], tree) <==>
              && x.path != [] && Lookup(tree, x.path) == Some(File(Some(x.stat)))
              && (forall n :: 0 < n <= |x.path| ==> !f.excluded(x.path[..n])) && f.audio(x.path[|x.path| - 1])
              && (f.recursive || |x.path| == 1)
  {
    assert x.path[0..] == x.path;
    if x in Listing(f, [], tree) {
      ListedIsOnDisk(f, [], tree, x);
      ListedIsAdmitted(f, [], tree, x);
      if !f.recursive {
        FlatHasNothingBelow(f, [], tree, |tree.children|);
        FilesAreChildren(f, [], tree.children, x);
      }
    }
    hide Listing, Lookup, UniqueNames;
    if x.path != [] && Lookup(tree, x.path) == Some(File(Some(x.stat))) && OpenPath(f, [], x.path) && f.audio(x.path[|x.path| - 1])
       && (f.recursive || |x.path| == 1) {
      FileUnderScope(f, [], tree, x.path, x);
    }
  }

  /**
   And the adapter offers each of them that is newer than the mark, under its joined path, with
   its time and size and what the adapter reads of it.
   */
  lemma AdapterOffersItsFiles(a: Adapter, f: Filter, tree: Entry, since: Option<int>, o: F.Offer)
    requires tree.Dir? && UniqueNames(tree)
    ensures o in Offers(a, since, Records(f, tree, [])) <==> exists x :: x in Listing(f, [], tree) && Brings(a, since, x, o)
  {
    FullRecords(f, tree);
    var xs := Listing(f, [], tree);
    OffersAre(a, since, xs);
    hide Listing, Offers, UniqueNames;
    if o in Offers(a, since, xs) {
      var i :| 0 <= i < |xs| && Recent(since, xs[i]) && o == OfferOf(a, xs[i]);
      assert Brings(a, since, xs[i], o);
    }
    if x :| x in xs && Brings(a, since, x, o) {
      var i :| 0 <= i < |xs| && xs[i] == x;
      assert Recent(since, xs[i]) && o == OfferOf(a, xs[i]);
    }
  }

  /** The offer of a file modified after the mark. */
  ghost predicate Brings(a: Adapter, since: Option<int>, x: Found, o: F.Offer) {
    var key := Join(x.path);
    && (match since case Some(mark) => x.stat.mtime > mark case None => true)
    && o.item.key == key && o.item.etag == Some(a.etag(x.stat)) && o.item.mtime == Some(x.stat.mtime)
    && o.item.size == Some(x.stat.size) && o.item.mime == a.mime(key) && o.item.checksum.None? && o.item.sha256.None?
    && o.hash == a.hash(key) && o.meta == a.tags(key) && o.raises == a.raises(key)
  }

  lemma NothingBelowAFile(tree: Entry, s: Path, p: Path)
    requires Lookup(tree, s).Some? && Lookup(tree, s).value.File? && Lookup(tree, p).Some?
    ensures s <= p ==> p == s
  {
    if s <= p {
      LookupComposes(tree, s, p);
      assert p == s + p[|s|..];
    }
  }

  /** What makes a scope trustworthy, decided by the scope alone. */
  ghost predicate ScopeIsFaithful(f: Filter, tree: Entry, s: Path)
    requires s != []
  {
    var at := Lookup(tree, s);
    at.Some? ==>
      match at.value
      case Dir(_) => OpenPath(f, [], s) || Records(f, tree, s) == []
      case File(stat) => stat.None? || !OpenPath(f, [], s) || !f.audio(s[|s| - 1])
      case Link => true
  }

  /**
   For a recursive library, the scoped listing is the full listing restricted to the scope
   exactly when the scope is not a listed file and is not a directory with files that some
   exclude pattern hides from the full listing.
   */
  lemma ScopedListingAgreesIff(f: Filter, tree: Entry, s: Path)
    requires tree.Dir? && UniqueNames(tree) && f.recursive && s != []
    ensures Records(f, tree, s) == Under(s, Records(f, tree, [])) <==> ScopeIsFaithful(f, tree, s)
  {
    hide Listing, Under, UniqueNames, OpenPath;
    var at := Lookup(tree, s);
    assert s[0..] == s;
    ListingUnderScope(f, [], tree, s);
    FullRecords(f, tree);
    hide Lookup;
    if at.Some? && at.value.File? {
      FileUnderFullListing(f, tree, s, at.value.stat);
    }
  }

  lemma FullRecords(f: Filter, tree: Entry)
    requires tree.Dir?
    ensures Records(f, tree, []) == Listing(f, [], tree)
  {
    hide Listing;
  }

  /** The full listing has something at or below a file exactly when it lists the file. */
  lemma FileUnderFullListing(f: Filter, tree: Entry, s: Path, stat: Option<Stat>)
    requires tree.Dir? && UniqueNames(tree) && f.recursive && s != [] && Lookup(tree, s) == Some(File(stat))
    ensures Under(s, Listing(f, [], tree)) == [] <==> stat.None? || !OpenPath(f, [], s) || !f.audio(s[|s| - 1])
  {
    hide Listing, Under, UniqueNames, Lookup, OpenPath;
    var full := Listing(f, [], tree);
    if stat.Some? && OpenPath(f, [], s) && f.audio(s[|s| - 1]) {
      assert s[0..] == s;
      FileUnderScope(f, [], tree, s, Found(s, stat.value));
      UnderIsFilter(s, full);
      assert Found(s, stat.value) in Under(s, full);
    } else {
      forall i | 0 <= i < |full| ensures !(s <= full[i].path) {
        var x := full[i];
        ListedIsOnDisk(f, [], tree, x);
        ListedIsAdmitted(f, [], tree, x);
        assert x.path[0..] == x.path;
        NothingBelowAFile(tree, s, x.path);
      }
      UnderNone(s, full);
    }
  }

  // ----- incremental runs -------------------------------------------------------------------------

  /**
   An incremental run visits exactly the files modified after its start mark, as a full
   listing would, and marks nothing missing; every other row stays as it was.
   */
  lemma IncrementalRunVisitsTheRecent(db: F.Db, cfg: F.Config, stored: set<string>, a: Adapter, f: Filter, tree: Entry,
                                      since: int, vs: seq<F.Visit>, started: int, k: string)
    requires T.WellLinked(db) && tree.Dir? && UniqueNames(tree)
    requires ListedBy(vs, Offers(a, Some(since), Records(f, tree, [])))
    requires T.Before(db, started) && T.During(vs, started)
    ensures T.VisitOf(vs, k).Some? <==> exists x :: x in Records(f, tree, []) && x.stat.mtime > since && Join(x.path) == k
    ensures var d := F.SyncRun(db, cfg, stored, vs, started, true, None).db;
            && !S.NewlyMissing(db, d, k)
            && (T.VisitOf(vs, k).None? ==> F.Get(d, k) == F.Get(db, k))
  {
    hide F.SyncRun;
    ListingIsClean(f, [], tree);
    ListedOnce(a, Some(since), Records(f, tree, []), vs);
    VisitIsRecord(a, Some(since), Records(f, tree, []), vs, k);
    S.MissingDetectionIsExact(db, cfg, stored, vs, started, true, None, k);
    T.RunActsSlotwise(db, cfg, stored, vs, started, true, None);
    if x :| x in Records(f, tree, []) && x.stat.mtime > since && Join(x.path) == k {
      assert Recent(Some(since), x);
    }
  }

  /**
   The watchdog's incremental request reaches a file exactly when the file was modified
   after one second before the first event of the window: later writes are reached, a file
   moved in with an older timestamp is not.
   */
  lemma WatchedFileIsReachedIff(audio: string -> bool, run: seq<W.Step>, a: Adapter, f: Filter, tree: Entry,
      x: Found, vs: seq<F.Visit>)
    requires W.Possible(audio, run) && W.Waiting(run) != [] && W.After(audio, run).hasAddOrModify
    requires tree.Dir? && UniqueNames(tree) && x in Records(f, tree, [])
    requires ListedBy(vs, Offers(a, W.After(audio, run).windowStart, Records(f, tree, [])))
    ensures W.Since(W.Waiting(run)[0].at - W.SECOND) in W.Requests(W.After(audio, run))
    ensures T.VisitOf(vs, Join(x.path)).Some? <==> x.stat.mtime > W.Waiting(run)[0].at - W.SECOND
  {
    WindowStartsAtFirstEvent(audio, run);
    var since := W.After(audio, run).windowStart;
    ListingIsClean(f, [], tree);
    VisitIsRecord(a, since, Records(f, tree, []), vs, Join(x.path));
    if T.VisitOf(vs, Join(x.path)).Some? {
      var y :| y in Records(f, tree, []) && Recent(since, y) && Join(y.path) == Join(x.path);
      SameKeySameRecord(Records(f, tree, []), x, y);
    }
    var rs := W.Requests(W.After(audio, run));
    assert rs[|rs| - 1] == W.Since(since.value);
  }

  lemma {:induction false} WindowStartsAtFirstEvent(audio: string -> bool, run: seq<W.Step>)
    requires W.Possible(audio, run)
    ensures W.Waiting(run) != [] ==> W.After(audio, run).windowStart == Some(W.Waiting(run)[0].at - W.SECOND)
    ensures W.Waiting(run) == [] ==> W.After(audio, run).windowStart.None?
  {
    if run != [] {
      WindowStartsAtFirstEvent(audio, run[..|run| - 1]);
    }
  }

  // ----- deletions end as missing rows ---------------------------------------------------------

  /** The scope argument a watchdog request passes to the sync. */
  function ScopeOf(r: W.Request): Option<string> {
    if r.Scoped? then Some(r.scope) else None
  }

  /**
   Watchdog-to-sync coverage.  Take any interleaving of events and timers, any deletion
   handled in it, and a row at or below the deleted path that is active and no longer on
   disk.  Once the accumulator is flushed, some enqueued request covers the deletion, and a
   run of any covering request over the tree leaves the row missing.
   */
  lemma DeletedFilesGoMissing(audio: string -> bool, steps: seq<W.Step>, i: nat,
                              db: F.Db, cfg: F.Config, stored: set<string>, a: Adapter, f: Filter, tree: Entry,
                              scopePath: Path, r: W.Request, vs: seq<F.Visit>, started: int, p: Path)
    requires W.Possible(audio, steps) && W.Waiting(steps) == []
    requires i < |steps| && steps[i].Happens? && steps[i].e.change == W.Deleted
    requires steps[i].e.rel.Some? && steps[i].e.rel.value <= p && PathOk(p) && p != []
    requires T.WellLinked(db) && cfg.listItems && tree.Dir? && UniqueNames(tree)
    requires Join(p) in db.rows && db.rows[Join(p)].state == F.Active && db.rows[Join(p)].lastSeen.Some?
    requires Lookup(tree, p) != None ==> !Lookup(tree, p).value.File?
    requires W.Covers(r, audio, steps[i].e) && (r.Scoped? ==> r.scope == Join(scopePath) && PathOk(scopePath) && scopePath != [])
    requires ListedBy(vs, Offers(a, None, Records(f, tree, if r.Scoped? then scopePath else [])))
    requires T.Before(db, started) && T.During(vs, started)
    ensures exists j :: 0 <= j < |W.After(audio, steps).queue| && W.Covers(W.After(audio, steps).queue[j], audio, steps[i].e)
    ensures var d := F.SyncRun(db, cfg, stored, vs, started, false, ScopeOf(r)).db;
            Join(p) in d.rows && d.rows[Join(p)].state == F.Missing
  {
    W.NoEventIsLost(audio, steps);
    assert W.Covered(W.After(audio, steps).queue, audio, steps[i].e);
    var k, e := Join(p), steps[i].e;
    var base := if r.Scoped? then scopePath else [];
    var xs := Records(f, tree, base);
    if r.Scoped? {
      var q: Path :| q != [] && r.scope == Join(q) && q <= W.EventScope(e.rel, e.isDirectoryNow, audio);
      assert q <= p;
      assert PathOk(q);
      JoinIsInjective(q, scopePath);
      ScopeIsPrefix(scopePath, p);
    }
    NotListedWhenGone(f, tree, base, p);
    RecordsAreClean(f, tree, base);
    ListedOnce(a, None, xs, vs);
    VisitIsRecord(a, None, xs, vs, k);
    assert T.VisitOf(vs, k).None?;
    hide F.SyncRun, T.WellLinked;
    S.MissingDetectionIsExact(db, cfg, stored, vs, started, false, ScopeOf(r), k);
  }

  lemma RecordsAreClean(f: Filter, tree: Entry, base: Path)
    requires tree.Dir? && UniqueNames(tree) && PathOk(base)
    ensures Clean(Records(f, tree, base))
  {
    var at := Lookup(tree, base);
    if at.Some? && at.value.Dir? {
      LookupKeepsNames(tree, base);
      ListingIsClean(f, base, at.value);
    }
  }

  lemma {:induction false} LookupComposes(e: Entry, s: Path, p: Path)
    requires s <= p && Lookup(e, s).Some?
    ensures Lookup(e, p) == Lookup(Lookup(e, s).value, p[|s|..])
    decreases |s|
  {
    if s == [] {
      assert p[0..] == p;
    } else {
      assert p[0] == s[0];
      LookupComposes(Child(e, s[0]).value, s[1..], p[1..]);
      assert p[1..][|s[1..]|..] == p[|s|..];
    }
  }

  lemma NotListedWhenGone(f: Filter, tree: Entry, base: Path, p: Path)
    requires tree.Dir? && UniqueNames(tree) && PathOk(base) && PathOk(p) && p != []
    requires Lookup(tree, p) != None ==> !Lookup(tree, p).value.File?
    ensures forall x :: x in Records(f, tree, base) ==> Join(x.path) != Join(p)
  {
    var at := Lookup(tree, base);
    RecordsAreClean(f, tree, base);
    forall x | x in Records(f, tree, base)
      ensures Join(x.path) != Join(p)
    {
      LookupKeepsNames(tree, base);
      ListedIsOnDisk(f, base, at.value, x);
      LookupComposes(tree, base, x.path);
      if Join(x.path) == Join(p) {
        JoinIsInjective(x.path, p);
      }
    }
  }
}
