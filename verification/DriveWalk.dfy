/**
 The Drive adapter's walk: a depth-first search over a folder graph that may share folders
 and files and may contain cycles.  A folder's listing is given already sorted by name.
 */
module DriveWalk {
  import opened Prelude
  import Paths

  type Id = string

  const FOLDER_MIME: string := "application/vnd.google-apps.folder"
  const GOOGLE_APPS_MIME_PREFIX: string := "application/vnd.google-apps."

  datatype Child = Child(id: Id, name: string, mime: string, mtime: Option<int>)

  type Graph = map<Id, seq<Child>>

  datatype Filter = Filter(
    audio: string -> bool, excluded: (string, string) -> bool, recursive: bool, since: Option<int>)

  /** A yielded item: the file and the display path it was found under. */
  datatype Item = Item(file: Child, display: string)

  function Listing(g: Graph, folder: Id): seq<Child> {
    if folder in g then g[folder] else []
  }

  function Display(prefix: string, name: string): string {
    if prefix != "" then prefix + "/" + name else name
  }

  predicate Usable(c: Child) { c.id != "" && c.name != "" }

  predicate IsFolder(c: Child) { Usable(c) && c.mime == FOLDER_MIME }

  /** A file the walk is interested in, wherever it lies. */
  predicate Wanted(f: Filter, c: Child) {
    && Usable(c) && c.mime != FOLDER_MIME && !StartsWith(c.mime, GOOGLE_APPS_MIME_PREFIX) && f.audio(c.name)
    && !(f.since.Some? && c.mtime.Some? && c.mtime.value <= f.since.value)
  }

  /** Folders are of a Google type themselves: what is wanted is any other named file of a wanted name, newer than the mark if dated. */
  lemma WantedIsForeign(f: Filter, c: Child)
    ensures Wanted(f, c) <==>
              && c.id != "" && c.name != "" && f.audio(c.name) && !("application/vnd.google-apps." <= c.mime)
              && (f.since.Some? && c.mtime.Some? ==> c.mtime.value > f.since.value)
  {
    assert StartsWith(FOLDER_MIME, GOOGLE_APPS_MIME_PREFIX);
  }

  // ----- real chains of folders ----------------------------------------------------------------

  /** `names` spell a walk from `start` through subfolders to `folder`. */
  ghost predicate Leads(g: Graph, start: Id, names: seq<string>, folder: Id) {
    if names == [] then folder == start
    else exists parent, c ::
      Leads(g, start, names[..|names| - 1], parent) && c in Listing(g, parent)
      && IsFolder(c) && c.name == names[|names| - 1] && c.id == folder
  }

  ghost predicate Reachable(g: Graph, start: Id, folder: Id) {
    exists names :: Leads(g, start, names, folder)
  }

  /** The display path of an item spells a real chain of folder names and then the file's name. */
  ghost predicate SpellsAChain(g: Graph, start: Id, x: Item) {
    exists names, folder ::
      Leads(g, start, names, folder) && x.file in Listing(g, folder) && x.display == Paths.Join(names + [x.file.name])
  }

  ghost predicate PrefixOf(g: Graph, start: Id, folder: Id, prefix: string) {
    exists names :: Leads(g, start, names, folder) && prefix == Paths.Join(names)
  }

  lemma {:induction false} JoinSnoc(names: seq<string>, n: string)
    requires forall i :: 0 <= i < |names| ==> names[i] != ""
    ensures Paths.Join(names + [n]) == Display(Paths.Join(names), n)
  {
    if |names| == 1 {
      assert (names + [n])[1..] == [n];
    } else if names != [] {
      JoinSnoc(names[1..], n);
      assert (names + [n])[1..] == names[1..] + [n];
      assert Paths.Join(names[1..]) != "" by { JoinNonEmpty(names[1..]); }
    }
  }

  lemma JoinNonEmpty(names: seq<string>)
    requires names != [] && forall i :: 0 <= i < |names| ==> names[i] != ""
    ensures Paths.Join(names) != ""
  {
  }

  lemma {:induction false} ChainNamesAreNotEmpty(g: Graph, start: Id, names: seq<string>, folder: Id)
    requires Leads(g, start, names, folder)
    ensures forall i :: 0 <= i < |names| ==> names[i] != ""
  {
    if names != [] {
      var parent, c :| Leads(g, start, names[..|names| - 1], parent) && c in Listing(g, parent)
                       && IsFolder(c) && c.name == names[|names| - 1] && c.id == folder;
      ChainNamesAreNotEmpty(g, start, names[..|names| - 1], parent);
    }
  }

  /** One more folder, or the file itself, continues the chain. */
  lemma ChainGrows(g: Graph, start: Id, folder: Id, prefix: string, c: Child)
    requires PrefixOf(g, start, folder, prefix) && c in Listing(g, folder) && Usable(c)
    ensures IsFolder(c) ==> PrefixOf(g, start, c.id, Display(prefix, c.name))
    ensures SpellsAChain(g, start, Item(c, Display(prefix, c.name)))
  {
    var names :| Leads(g, start, names, folder) && prefix == Paths.Join(names);
    ChainNamesAreNotEmpty(g, start, names, folder);
    JoinSnoc(names, c.name);
    if IsFolder(c) {
      assert (names + [c.name])[..|names|] == names;
      assert Leads(g, start, names + [c.name], c.id);
    }
  }

  // ----- the walk -------------------------------------------------------------------------------

  datatype Frame = Frame(folder: Id, prefix: string)

  ghost function Universe(g: Graph, start: Id): set<Id> {
    {start} + g.Keys + (set k, c | k in g && c in g[k] :: c.id)
  }

  /** The files a folder offers under a prefix. */
  ghost predicate Offered(g: Graph, f: Filter, folder: Id, prefix: string, c: Child) {
    c in Listing(g, folder) && Wanted(f, c) && !f.excluded(Display(prefix, c.name), c.name)
  }

  ghost predicate Sound(g: Graph, f: Filter, start: Id, items: seq<Item>) {
    forall x :: x in items ==> Wanted(f, x.file) && !f.excluded(x.display, x.file.name) && SpellsAChain(g, start, x)
  }

  ghost predicate Once(items: seq<Item>, seenFiles: set<Id>) {
    && (forall i, j :: 0 <= i < j < |items| ==> items[i].file.id != items[j].file.id)
    && seenFiles == set x | x in items :: x.file.id
  }

  lemma YieldKeeps(g: Graph, f: Filter, start: Id, items: seq<Item>, seenFiles: set<Id>, x: Item)
    requires Sound(g, f, start, items) && Once(items, seenFiles) && x.file.id !in seenFiles
    requires Wanted(f, x.file) && !f.excluded(x.display, x.file.name) && SpellsAChain(g, start, x)
    ensures Sound(g, f, start, items + [x]) && Once(items + [x], seenFiles + {x.file.id})
  {
    hide Wanted, SpellsAChain;
    var more := items + [x];
    assert forall y :: y in more <==> y in items || y == x;
    forall i | 0 <= i < |items| ensures items[i].file.id != x.file.id {
      assert items[i] in items;
    }
  }

  /** A subfolder the walk would enter. */
  ghost predicate Entered(g: Graph, f: Filter, at: Frame, c: Child) {
    c in Listing(g, at.folder) && IsFolder(c) && f.recursive && !f.excluded(Display(at.prefix, c.name), c.name)
  }

  /** Frames lead somewhere real. */
  ghost predicate Grounded(g: Graph, start: Id, frames: seq<Frame>) {
    forall x :: x in frames ==> PrefixOf(g, start, x.folder, x.prefix) && x.folder in Universe(g, start)
  }

  ghost predicate OnStack(stack: seq<Frame>, id: Id) { exists x :: x in stack && x.folder == id }

  lemma PushKeeps(g: Graph, start: Id, frames: seq<Frame>, x: Frame)
    requires Grounded(g, start, frames) && PrefixOf(g, start, x.folder, x.prefix) && x.folder in Universe(g, start)
    ensures Grounded(g, start, frames + [x]) && OnStack(frames + [x], x.folder)
    ensures forall id :: OnStack(frames, id) ==> OnStack(frames + [x], id)
  {
    var more := frames + [x];
    assert more[|frames|] == x;
    assert forall y :: y in more <==> y in frames || y == x;
  }

  /** The item is a file of the folder, displayed below its prefix. */
  ghost predicate LiesIn(g: Graph, at: Frame, x: Item) {
    x.file in Listing(g, at.folder) && x.display == if at.prefix == "" then x.file.name else at.prefix + "/" + x.file.name
  }

  /** One folder: yield its files not seen before, collect its unseen subfolders. */
  method ScanFolder(g: Graph, f: Filter, ghost start: Id, at: Frame, seenFolders: set<Id>, seenFiles0: set<Id>,
      items0: seq<Item>)
    returns (items: seq<Item>, seenFiles: set<Id>, pending: seq<Frame>)
    requires PrefixOf(g, start, at.folder, at.prefix) && Sound(g, f, start, items0) && Once(items0, seenFiles0)
    ensures Sound(g, f, start, items) && Once(items, seenFiles) && seenFiles0 <= seenFiles
    ensures forall c :: Offered(g, f, at.folder, at.prefix, c) ==> c.id in seenFiles
    ensures Grounded(g, start, pending)
    ensures forall c :: Entered(g, f, at, c) ==> c.id in seenFolders || OnStack(pending, c.id)
    ensures forall x :: x in items ==> x in items0 || LiesIn(g, at, x)
    ensures !f.recursive ==> pending == []
  {
    hide SpellsAChain, PrefixOf, Sound, Once, Grounded, OnStack;
    items, seenFiles, pending := items0, seenFiles0, [];
    assert Grounded(g, start, []) by { NothingPending(g, start); }
    var children := Listing(g, at.folder);
    for n := 0 to |children|
      invariant Sound(g, f, start, items) && Once(items, seenFiles) && seenFiles0 <= seenFiles
      invariant forall i :: 0 <= i < n && Offered(g, f, at.folder, at.prefix, children[i]) ==> children[i].id in seenFiles
      invariant forall x :: x in items ==> x in items0 || LiesIn(g, at, x)
      invariant !f.recursive ==> pending == []
      invariant Grounded(g, start, pending)
      invariant forall i :: 0 <= i < n && Entered(g, f, at, children[i]) ==> children[i].id in seenFolders || OnStack(pending, children[i].id)
    {
      var child := children[n];
      if child.id == "" || child.name == "" {
        continue;
      }
      var display := if at.prefix != "" then at.prefix + "/" + child.name else child.name;
      ChainGrows(g, start, at.folder, at.prefix, child);
      if child.mime == FOLDER_MIME {
        if f.recursive && child.id !in seenFolders && !f.excluded(display, child.name) {
          PushKeeps(g, start, pending, Frame(child.id, display));
          pending := pending + [Frame(child.id, display)];
        }
        continue;
      }
      if StartsWith(child.mime, GOOGLE_APPS_MIME_PREFIX) || !f.audio(child.name) || f.excluded(display, child.name) {
        continue;
      }
      if f.since.Some? && child.mtime.Some? && child.mtime.value <= f.since.value {
        continue;
      }
      if child.id in seenFiles {
        continue;
      }
      YieldKeeps(g, f, start, items, seenFiles, Item(child, display));
      seenFiles := seenFiles + {child.id};
      items := items + [Item(child, display)];
    }
  }

  lemma NothingPending(g: Graph, start: Id)
    ensures Grounded(g, start, [])
  {
  }

  /** A folder whose files and subfolders have been dealt with. */
  ghost predicate Done(g: Graph, f: Filter, folder: Id, seenFolders: set<Id>, seenFiles: set<Id>, stack: seq<Frame>) {
    && (forall c :: c in Listing(g, folder) && Wanted(f, c) ==> c.id in seenFiles)
    && (forall c :: c in Listing(g, folder) && IsFolder(c) && f.recursive ==> c.id in seenFolders || OnStack(stack, c.id))
  }

  ghost predicate NoExcludes(f: Filter) { forall d, n :: !f.excluded(d, n) }

  /** `for entry in reversed(pending_folders): stack.append(entry)`: the first of them ends on top. */
  method PushReversed(rest: seq<Frame>, pending: seq<Frame>) returns (stack: seq<Frame>)
    ensures |stack| == |rest| + |pending| && stack[..|rest|] == rest
    ensures forall i :: 0 <= i < |pending| ==> stack[|stack| - 1 - i] == pending[i]
    ensures forall x :: x in stack <==> x in rest || x in pending
  {
    stack := rest;
    var n := |pending|;
    while n > 0
      invariant 0 <= n <= |pending| && |stack| == |rest| + |pending| - n && stack[..|rest|] == rest
      invariant forall i :: n <= i < |pending| ==> stack[|rest| + |pending| - 1 - i] == pending[i]
    {
      n := n - 1;
      stack := stack + [pending[n]];
    }
    SameMembers(rest, pending, stack);
  }

  lemma SameMembers(rest: seq<Frame>, pending: seq<Frame>, stack: seq<Frame>)
    requires |stack| == |rest| + |pending| && stack[..|rest|] == rest
    requires forall i :: 0 <= i < |pending| ==> stack[|stack| - 1 - i] == pending[i]
    ensures forall x :: x in stack <==> x in rest || x in pending
  {
    forall x | x in stack ensures x in rest || x in pending {
      var i :| 0 <= i < |stack| && stack[i] == x;
      assert i < |rest| ==> rest[i] == x;
      assert i >= |rest| ==> pending[|stack| - 1 - i] == x;
    }
    forall x | x in rest ensures x in stack {
      var i :| 0 <= i < |rest| && rest[i] == x;
      assert stack[i] == stack[..|rest|][i];
    }
  }

  /** All folders visited so far are done, up to what is still on the stack. */
  ghost predicate AllDone(g: Graph, f: Filter, start: Id, seenFolders: set<Id>, seenFiles: set<Id>, stack: seq<Frame>) {
    && (start in seenFolders || OnStack(stack, start))
    && (NoExcludes(f) ==> forall folder :: folder in seenFolders ==> Done(g, f, folder, seenFolders, seenFiles, stack))
  }

  lemma PopSeenKeeps(g: Graph, f: Filter, start: Id, seenFolders: set<Id>, seenFiles: set<Id>, rest: seq<Frame>,
      at: Frame)
    requires AllDone(g, f, start, seenFolders, seenFiles, rest + [at]) && at.folder in seenFolders
    ensures AllDone(g, f, start, seenFolders, seenFiles, rest)
  {
    forall id | OnStack(rest + [at], id) && id !in seenFolders ensures OnStack(rest, id) {
    }
  }

  lemma VisitKeeps(g: Graph, f: Filter, start: Id, seen: set<Id>, files: set<Id>, files': set<Id>,
                   rest: seq<Frame>, at: Frame, pending: seq<Frame>, stack: seq<Frame>)
    requires AllDone(g, f, start, seen, files, rest + [at]) && files <= files'
    requires forall x :: x in stack <==> x in rest || x in pending
    requires forall c :: Offered(g, f, at.folder, at.prefix, c) ==> c.id in files'
    requires forall c :: Entered(g, f, at, c) ==> c.id in seen + {at.folder} || OnStack(pending, c.id)
    ensures AllDone(g, f, start, seen + {at.folder}, files', stack)
  {
    forall id | OnStack(rest + [at], id) ensures OnStack(stack, id) || id in seen + {at.folder} {
    }
    forall id | OnStack(pending, id) ensures OnStack(stack, id) {
    }
    if NoExcludes(f) {
      forall c | c in Listing(g, at.folder) && Wanted(f, c) ensures c.id in files' {
        assert Offered(g, f, at.folder, at.prefix, c);
      }
      forall c | c in Listing(g, at.folder) && IsFolder(c) && f.recursive
        ensures c.id in seen + {at.folder} || OnStack(stack, c.id)
      {
        assert Entered(g, f, at, c);
      }
      hide Wanted, IsFolder, OnStack;
    }
  }

  /**
   `iter_items`: the walk terminates on every finite graph and yields every file at most
   once, under a display path that spells a real chain; with recursion and no exclude
   patterns it yields exactly the wanted files lying in folders reachable from the start.  The
   start folder's own files are always yielded unless a pattern excludes them, and without
   recursion nothing else is.
   */
  method IterItems(g: Graph, f: Filter, start: Id) returns (items: seq<Item>)
    ensures forall i, j :: 0 <= i < j < |items| ==> items[i].file.id != items[j].file.id
    ensures Sound(g, f, start, items)
    ensures NoExcludes(f) && f.recursive ==>
              forall folder, c :: Reachable(g, start, folder) && c in Listing(g, folder) && Wanted(f, c) ==>
                exists x :: x in items && x.file.id == c.id
    ensures forall c :: c in Listing(g, start) && Wanted(f, c) && !f.excluded(c.name, c.name) ==> exists x :: x in items && x.file.id == c.id
    ensures !f.recursive ==> forall x :: x in items ==> x.file in Listing(g, start) && x.display == x.file.name
  {
    hide Sound, Wanted, Done, NoExcludes, Offered, Entered, AllDone, Universe, PrefixOf, Grounded, Leads, Reachable,
        StartFirst, Flat, LiesIn;
    items := [];
    var seenFolders: set<Id>, seenFiles: set<Id> := {}, {};
    var stack := [Frame(start, "")];
    StartIsGrounded(g, f, start);
    WalkStartsFlat(g, f, start);
    while stack != []
      invariant Sound(g, f, start, items) && Once(items, seenFiles)
      invariant Grounded(g, start, stack) && seenFolders <= Universe(g, start)
      invariant AllDone(g, f, start, seenFolders, seenFiles, stack)
      invariant StartFirst(g, f, start, seenFolders, seenFiles, stack) && Flat(g, f, start, stack, items)
      decreases |Universe(g, start) - seenFolders|, |stack|
    {
      hide Once;
      var at, rest := stack[|stack| - 1], stack[..|stack| - 1];
      assert stack == rest + [at];
      if at.folder in seenFolders {
        PopSeenKeeps(g, f, start, seenFolders, seenFiles, rest, at);
        PopKeepsStart(g, f, start, seenFolders, seenFiles, rest, at, items);
        TopIsGrounded(g, start, rest, at);
        stack := rest;
        continue;
      }
      ghost var seen0, files0, items0 := seenFolders, seenFiles, items;
      seenFolders := seenFolders + {at.folder};
      TopIsGrounded(g, start, rest, at);
      FewerLeft(Universe(g, start) - seenFolders, Universe(g, start) - seen0);
      var pending;
      items, seenFiles, pending := ScanFolder(g, f, start, at, seenFolders, seenFiles, items);
      stack := PushReversed(rest, pending);
      StackIsGrounded(g, start, rest, at, pending, stack);
      VisitKeeps(g, f, start, seen0, files0, seenFiles, rest, at, pending, stack);
      VisitKeepsStart(g, f, start, seen0, files0, seenFiles, rest, at, stack);
      VisitKeepsFlat(g, f, start, rest, at, pending, stack, items0, items);
    }
    StartIsDone(g, f, start, seenFolders, seenFiles, items);
    if NoExcludes(f) && f.recursive {
      ReachableFilesAreSeen(g, f, start, seenFolders, seenFiles);
    }
  }

  /** The start folder is visited first, under no prefix, and its files are then dealt with. */
  ghost predicate StartFirst(g: Graph, f: Filter, start: Id, seenFolders: set<Id>, seenFiles: set<Id>, stack: seq<Frame>) {
    && (start !in seenFolders ==> stack == [Frame(start, "")])
    && (start in seenFolders ==> forall c :: Offered(g, f, start, "", c) ==> c.id in seenFiles)
  }

  /** Without recursion the walk does not leave the start folder. */
  ghost predicate Flat(g: Graph, f: Filter, start: Id, stack: seq<Frame>, items: seq<Item>) {
    !f.recursive ==>
      && (forall x :: x in stack ==> x == Frame(start, ""))
      && forall x :: x in items ==> LiesIn(g, Frame(start, ""), x)
  }

  lemma WalkStartsFlat(g: Graph, f: Filter, start: Id)
    ensures StartFirst(g, f, start, {}, {}, [Frame(start, "")]) && Flat(g, f, start, [Frame(start, "")], [])
  {
  }

  lemma PopKeepsStart(g: Graph, f: Filter, start: Id, seenFolders: set<Id>, seenFiles: set<Id>, rest: seq<Frame>, at: Frame,
                      items: seq<Item>)
    requires StartFirst(g, f, start, seenFolders, seenFiles, rest + [at]) && Flat(g, f, start, rest + [at], items)
    requires at.folder in seenFolders
    ensures StartFirst(g, f, start, seenFolders, seenFiles, rest) && Flat(g, f, start, rest, items)
  {
    hide Offered, LiesIn;
    assert (rest + [at])[|rest|] == at;
    assert forall x :: x in rest + [at] <==> x in rest || x == at;
  }

  lemma VisitKeepsStart(g: Graph, f: Filter, start: Id, seen: set<Id>, files: set<Id>, files': set<Id>, rest: seq<Frame>,
                        at: Frame, stack: seq<Frame>)
    requires StartFirst(g, f, start, seen, files, rest + [at]) && files <= files'
    requires forall c :: Offered(g, f, at.folder, at.prefix, c) ==> c.id in files'
    ensures StartFirst(g, f, start, seen + {at.folder}, files', stack)
  {
    hide Offered;
    assert (rest + [at])[|rest|] == at;
  }

  lemma VisitKeepsFlat(g: Graph, f: Filter, start: Id, rest: seq<Frame>, at: Frame, pending: seq<Frame>, stack: seq<Frame>,
                       items0: seq<Item>, items: seq<Item>)
    requires Flat(g, f, start, rest + [at], items0) && (!f.recursive ==> pending == [])
    requires forall x :: x in stack <==> x in rest || x in pending
    requires forall x :: x in items ==> x in items0 || LiesIn(g, at, x)
    ensures Flat(g, f, start, stack, items)
  {
    hide LiesIn;
    if !f.recursive {
      assert (rest + [at])[|rest|] == at;
      assert at in rest + [at];
      assert at == Frame(start, "");
      forall x | x in stack ensures x == Frame(start, "") {
        assert x in rest + [at];
      }
    }
  }

  lemma StartIsDone(g: Graph, f: Filter, start: Id, seenFolders: set<Id>, seenFiles: set<Id>, items: seq<Item>)
    requires StartFirst(g, f, start, seenFolders, seenFiles, []) && Flat(g, f, start, [], items)
    ensures forall c :: c in Listing(g, start) && Wanted(f, c) && !f.excluded(c.name, c.name) ==> c.id in seenFiles
    ensures !f.recursive ==> forall x :: x in items ==> x.file in Listing(g, start) && x.display == x.file.name
  {
    hide Wanted;
    assert forall c :: c in Listing(g, start) && Wanted(f, c) && !f.excluded(c.name, c.name) ==> Offered(g, f, start, "", c);
  }

  lemma TopIsGrounded(g: Graph, start: Id, rest: seq<Frame>, at: Frame)
    requires Grounded(g, start, rest + [at])
    ensures Grounded(g, start, rest) && PrefixOf(g, start, at.folder, at.prefix) && at.folder in Universe(g, start)
  {
    hide PrefixOf, Universe;
    assert (rest + [at])[|rest|] == at;
  }

  lemma StackIsGrounded(g: Graph, start: Id, rest: seq<Frame>, at: Frame, pending: seq<Frame>, stack: seq<Frame>)
    requires Grounded(g, start, rest + [at]) && Grounded(g, start, pending)
    requires forall x :: x in stack <==> x in rest || x in pending
    ensures Grounded(g, start, stack)
  {
    hide PrefixOf, Universe;
  }

  lemma ReachableFilesAreSeen(g: Graph, f: Filter, start: Id, seenFolders: set<Id>, seenFiles: set<Id>)
    requires AllDone(g, f, start, seenFolders, seenFiles, []) && NoExcludes(f) && f.recursive
    ensures forall folder, c :: Reachable(g, start, folder) && c in Listing(g, folder) && Wanted(f, c) ==> c.id in seenFiles
  {
    hide Wanted;
    forall folder, c | Reachable(g, start, folder) && c in Listing(g, folder) && Wanted(f, c)
      ensures c.id in seenFiles
    {
      var names :| Leads(g, start, names, folder);
      ClosedCoversReachable(g, f, start, seenFolders, seenFiles, names, folder);
      assert Done(g, f, folder, seenFolders, seenFiles, []);
    }
  }

  lemma StartIsGrounded(g: Graph, f: Filter, start: Id)
    ensures Grounded(g, start, [Frame(start, "")]) && AllDone(g, f, start, {}, {}, [Frame(start, "")])
    ensures Sound(g, f, start, [])
  {
    assert Leads(g, start, [], start) && Paths.Join([]) == "";
    assert [Frame(start, "")][0].folder == start;
  }

  lemma FewerLeft(a: set<Id>, b: set<Id>)
    requires a < b
    ensures |a| < |b|
  {
    assert b == a + (b - a);
  }

  lemma {:induction false} ClosedCoversReachable(g: Graph, f: Filter, start: Id, seenFolders: set<Id>, seenFiles: set<Id>,
                                                names: seq<string>, folder: Id)
    requires start in seenFolders && f.recursive && Leads(g, start, names, folder)
    requires forall x :: x in seenFolders ==> Done(g, f, x, seenFolders, seenFiles, [])
    ensures folder in seenFolders
  {
    if names != [] {
      var parent, c :| Leads(g, start, names[..|names| - 1], parent) && c in Listing(g, parent)
                       && IsFolder(c) && c.name == names[|names| - 1] && c.id == folder;
      ClosedCoversReachable(g, f, start, seenFolders, seenFiles, names[..|names| - 1], parent);
      assert Done(g, f, parent, seenFolders, seenFiles, []);
    }
  }
}
