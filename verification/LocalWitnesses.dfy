/**
 Small trees on which the local adapter's listings reach the exceptions of their theorems:
 scopes that a full run and a scoped run treat differently, and a file moved in.
 */
module LocalWitnesses {
  import opened Prelude
  import opened Paths
  import opened LocalWalk
  import opened LocalSync
  import W = Watchdog

  const SONG := Named("a", File(Some(Stat(0, 1))))

  const OPEN := Filter(_ => false, _ => true, true)

  const HIDING := Filter(p => p == ["d"], _ => true, true)

  lemma OneFile(f: Filter, dir: Path)
    requires !f.excluded(dir + ["a"]) && f.audio("a")
    ensures Listing(f, dir, Dir([SONG])) == [Found(dir + ["a"], Stat(0, 1))]
  {
    assert [SONG][..0] == [];
    assert FilesIn(f, dir, []) == [];
    assert FileOf(f, dir, SONG) == [Found(dir + ["a"], Stat(0, 1))];
    assert FilesIn(f, dir, [SONG]) == [Found(dir + ["a"], Stat(0, 1))];
    assert Below(f, dir, Dir([SONG]), 0) == [];
    assert Below(f, dir, Dir([SONG]), 1) == [];
  }

  /** `ScopedListingAgreesIff` has an exception: a scope naming a listed file lists nothing. */
  lemma FileScopeListsNothing()
    ensures Records(OPEN, Dir([SONG]), ["a"]) == []
    ensures Records(OPEN, Dir([SONG]), []) == [Found(["a"], Stat(0, 1))]
    ensures !ScopeIsFaithful(OPEN, Dir([SONG]), ["a"])
  {
    var tree := Dir([SONG]);
    OneFile(OPEN, []);
    assert [] + ["a"] == ["a"];
    assert tree.children[0].name == "a";
    assert Child(tree, "a") == Some(SONG.entry);
    assert Lookup(tree, ["a"]) == Some(SONG.entry) by {
      assert ["a"][1..] == [];
    }
    hide Listing;
  }

  /** And another: a scope naming an excluded directory lists its files, which the full run never sees. */
  lemma HiddenScopeListsMore()
    ensures var tree := Dir([Named("d", Dir([SONG]))]);
            Records(HIDING, tree, ["d"]) == [Found(["d", "a"], Stat(0, 1))] && Records(HIDING, tree, []) == []
            && !ScopeIsFaithful(HIDING, tree, ["d"])
  {
    var c := Named("d", Dir([SONG]));
    var tree := Dir([c]);
    assert ["d"] + ["a"] == ["d", "a"] && [] + ["d"] == ["d"];
    OneFile(HIDING, ["d"]);
    assert tree.children[0].name == "d";
    assert Child(tree, "d") == Some(c.entry);
    assert Lookup(tree, ["d"]) == Some(c.entry) by {
      assert ["d"][1..] == [];
    }
    assert Listing(HIDING, [], tree) == [] by {
      assert [c][..0] == [];
      assert FilesIn(HIDING, [], []) == [];
      assert FilesIn(HIDING, [], [c]) == [];
      assert Below(HIDING, [], tree, 0) == [];
      assert Below(HIDING, [], tree, 1) == [];
    }
    hide Listing;
    assert !OpenPath(HIDING, [], ["d"]) by {
      assert ["d"][..1] == ["d"];
    }
  }

  /** The event of moving the file in at second five, seen through to the enqueued request. */
  function MovedIn(): seq<W.Step> {
    [W.Happens(W.Event(W.Added, Some(["a"]), false, 5 * W.SECOND)), W.Fires(0), W.Flushes]
  }

  lemma MoveIsFlushed(audio: string -> bool)
    ensures W.Possible(audio, MovedIn()) && W.After(audio, MovedIn()).queue == [W.Since(4 * W.SECOND)]
  {
    var run := MovedIn();
    var one, two := run[..1], run[..2];
    assert run[..0] == [] && one[..0] == [] && two[..1] == one && run[..2] == two;
    assert W.After(audio, one) == W.Watch(Some(4 * W.SECOND), true, [], Some(0), {0}, 1, 0, []);
    assert W.Possible(audio, []) && W.Possible(audio, one);
    assert W.After(audio, two) == W.Watch(Some(4 * W.SECOND), true, [], Some(0), {}, 1, 1, []);
    assert W.Possible(audio, two);
  }

  /**
   `WatchedFileIsReachedIff` has an exception: a file moved in keeps its old timestamp, so the
   one request its event leads to offers nothing, while a full run offers the file.
   */
  lemma MovedInFileIsNotReached(audio: string -> bool, a: Adapter)
    ensures W.Possible(audio, MovedIn()) && W.After(audio, MovedIn()).queue == [W.Since(4 * W.SECOND)]
    ensures Offers(a, Some(4 * W.SECOND), Records(OPEN, Dir([SONG]), [])) == []
    ensures Offers(a, None, Records(OPEN, Dir([SONG]), [])) == [OfferOf(a, Found(["a"], Stat(0, 1)))]
  {
    MoveIsFlushed(audio);
    FileScopeListsNothing();
    var x := Found(["a"], Stat(0, 1));
    hide W.After, W.Possible, Records;
    assert [x][..0] == [];
    assert Offers(a, None, []) == [] && Offers(a, Some(4 * W.SECOND), []) == [];
  }
}
