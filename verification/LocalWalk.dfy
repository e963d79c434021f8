/**
 The local adapter's directory walk.  A library root is a finite tree; links are skipped
 (symlinks not followed) and an unreadable directory is one without entries.
 */
module LocalWalk {
  import opened Prelude
  import opened Paths

  datatype Stat = Stat(mtime: int, size: nat)

  datatype Entry = File(stat: Option<Stat>) | Dir(children: seq<Named>) | Link

  datatype Named = Named(name: string, entry: Entry)

  /** What the walk is configured with: patterns on root-relative paths, extensions, depth. */
  datatype Filter = Filter(excluded: Path -> bool, audio: string -> bool, recursive: bool)

  datatype Found = Found(path: Path, stat: Stat)

  // ----- the listing as a function of the tree -----------------------------------------------

  /** The file a directory entry contributes itself. */
  function FileOf(f: Filter, dir: Path, c: Named): seq<Found> {
    var full := dir + [c.name];
    if f.excluded(full) || !c.entry.File? || !f.audio(c.name) || c.entry.stat.None? then []
    else [Found(full, c.entry.stat.value)]
  }

  predicate Descends(f: Filter, dir: Path, c: Named) {
    c.entry.Dir? && f.recursive && !f.excluded(dir + [c.name])
  }

  function FilesIn(f: Filter, dir: Path, cs: seq<Named>): seq<Found> {
    if cs == [] then [] else FilesIn(f, dir, cs[..|cs| - 1]) + FileOf(f, dir, cs[|cs| - 1])
  }

  /** A directory's files in scan order, then its subdirectories, the last scanned first. */
  function Listing(f: Filter, dir: Path, d: Entry): seq<Found>
    requires d.Dir?
    decreases d, 1, 0
  {
    FilesIn(f, dir, d.children) + Below(f, dir, d, |d.children|)
  }

  /** The subdirectories among the first `n` entries, the last scanned first. */
  function Below(f: Filter, dir: Path, d: Entry, n: nat): seq<Found>
    requires d.Dir? && n <= |d.children|
    decreases d, 0, n
  {
    if n == 0 then []
    else
      var c := d.children[n - 1];
      (if Descends(f, dir, c) then Listing(f, dir + [c.name], c.entry) else []) + Below(f, dir, d, n - 1)
  }

  // ----- the stack walk ------------------------------------------------------------------------

  datatype Frame = Frame(path: Path, dir: Entry)

  ghost predicate Dirs(stack: seq<Frame>) {
    forall i :: 0 <= i < |stack| ==> stack[i].dir.Dir?
  }

  /** What the frames still on the stack will yield, the top (last) one first. */
  ghost function Pending(f: Filter, stack: seq<Frame>): seq<Found>
    requires Dirs(stack)
  {
    if stack == [] then []
    else
      var top := stack[|stack| - 1];
      Listing(f, top.path, top.dir) + Pending(f, stack[..|stack| - 1])
  }

  ghost function Size(e: Entry): nat
    decreases e, 1, 0
  {
    1 + if e.Dir? then SizeBelow(e, |e.children|) else 0
  }

  ghost function SizeBelow(e: Entry, n: nat): nat
    requires e.Dir? && n <= |e.children|
    decreases e, 0, n
  {
    if n == 0 then 0 else SizeBelow(e, n - 1) + Size(e.children[n - 1].entry)
  }

  ghost function StackSize(stack: seq<Frame>): nat {
    if stack == [] then 0 else StackSize(stack[..|stack| - 1]) + Size(stack[|stack| - 1].dir)
  }

  /** One `scandir`: yield the directory's files and push its subdirectories. */
  method Scan(f: Filter, current: Frame, rest: seq<Frame>) returns (found: seq<Found>, stack: seq<Frame>)
    requires current.dir.Dir? && Dirs(rest)
    ensures found == FilesIn(f, current.path, current.dir.children)
    ensures Dirs(stack) && Pending(f, stack) == Below(f, current.path, current.dir, |current.dir.children|) + Pending(f, rest)
    ensures StackSize(stack) < StackSize(rest) + Size(current.dir)
  {
    var cs := current.dir.children;
    found, stack := [], rest;
    for n := 0 to |cs|
      invariant found == FilesIn(f, current.path, cs[..n])
      invariant Pushes(f, current, rest, n, stack)
    {
      hide Pushes, FilesIn;
      FilesOfMore(f, current.path, cs, n);
      PushesMore(f, current, rest, n, stack);
      var entry := cs[n];
      var full := current.path + [entry.name];
      if f.excluded(full) {
      } else if entry.entry.Link? {
      } else if entry.entry.Dir? {
        if f.recursive {
          stack := stack + [Frame(full, entry.entry)];
        }
      } else if f.audio(entry.name) && entry.entry.stat.Some? {
        found := found + [Found(full, entry.entry.stat.value)];
      }
    }
    assert cs[..|cs|] == cs;
  }

  /** The stack once the first `n` entries of the current directory are scanned. */
  ghost predicate Pushes(f: Filter, current: Frame, rest: seq<Frame>, n: nat, stack: seq<Frame>)
    requires current.dir.Dir? && Dirs(rest) && n <= |current.dir.children|
  {
    && Dirs(stack) && StackSize(stack) <= StackSize(rest) + SizeBelow(current.dir, n)
    && Pending(f, stack) == Below(f, current.path, current.dir, n) + Pending(f, rest)
  }

  lemma PushesMore(f: Filter, current: Frame, rest: seq<Frame>, n: nat, stack: seq<Frame>)
    requires current.dir.Dir? && Dirs(rest) && n < |current.dir.children| && Pushes(f, current, rest, n, stack)
    ensures var c := current.dir.children[n];
            Pushes(f, current, rest, n + 1,
                   if Descends(f, current.path, c) then stack + [Frame(current.path + [c.name], c.entry)] else stack)
  {
    hide Listing, Below, Pending, StackSize, Size, Dirs;
    var c := current.dir.children[n];
    var below, later := Below(f, current.path, current.dir, n), Pending(f, rest);
    BelowOfMore(f, current.path, current.dir, n);
    if Descends(f, current.path, c) {
      Pushed(f, stack, Frame(current.path + [c.name], c.entry));
      var here := Listing(f, current.path + [c.name], c.entry);
      assert here + (below + later) == (here + below) + later;
    }
  }

  lemma FilesOfMore(f: Filter, dir: Path, cs: seq<Named>, n: nat)
    requires n < |cs|
    ensures FilesIn(f, dir, cs[..n + 1]) ==
              if FileOf(f, dir, cs[n]) == [] then FilesIn(f, dir, cs[..n]) else FilesIn(f, dir, cs[..n]) + FileOf(f, dir, cs[n])
  {
    assert cs[..n + 1][..n] == cs[..n];
    assert FilesIn(f, dir, cs[..n]) + [] == FilesIn(f, dir, cs[..n]);
  }

  lemma Pushed(f: Filter, stack: seq<Frame>, top: Frame)
    requires Dirs(stack) && top.dir.Dir?
    ensures Dirs(stack + [top])
    ensures Pending(f, stack + [top]) == Listing(f, top.path, top.dir) + Pending(f, stack)
    ensures StackSize(stack + [top]) == StackSize(stack) + Size(top.dir)
  {
    assert (stack + [top])[..|stack|] == stack;
  }

  /** `_walk_files`: the stack walk yields exactly the listing of its base, in order. */
  method WalkFiles(f: Filter, base: Path, start: Option<Entry>) returns (out: seq<Found>)
    ensures out == if start.Some? && start.value.Dir? then Listing(f, base, start.value) else []
  {
    out := [];
    if start.None? || !start.value.Dir? {
      return;
    }
    var stack := [Frame(base, start.value)];
    Pushed(f, [], stack[0]);
    assert [] + stack == stack;
    while stack != []
      invariant Dirs(stack)
      invariant out + Pending(f, stack) == Listing(f, base, start.value)
      decreases StackSize(stack)
    {
      var current := stack[|stack| - 1];
      var found, stack' := Scan(f, current, stack[..|stack| - 1]);
      out, stack := out + found, stack';
    }
  }

  // ----- scopes --------------------------------------------------------------------------------

  ghost predicate UniqueNames(e: Entry)
  {
    e.Dir? ==>
      && (forall i, j :: 0 <= i < j < |e.children| ==> e.children[i].name != e.children[j].name)
      && (forall i :: 0 <= i < |e.children| ==> NameOk(e.children[i].name) && UniqueNames(e.children[i].entry))
  }

  ghost function Child(e: Entry, name: string): (c: Option<Entry>)
    requires e.Dir?
    ensures c.Some? <==> exists i :: 0 <= i < |e.children| && e.children[i].name == name
    ensures c.Some? ==> exists i :: 0 <= i < |e.children| && e.children[i].name == name && e.children[i].entry == c.value
  {
    if i :| 0 <= i < |e.children| && e.children[i].name == name then Some(e.children[i].entry) else None
  }

  /** The entry `parts` below `e`, if the names lead there through directories. */
  ghost function Lookup(e: Entry, parts: Path): Option<Entry>
    decreases |parts|
  {
    if parts == [] then Some(e)
    else if e.Dir? && Child(e, parts[0]).Some? then Lookup(Child(e, parts[0]).value, parts[1..])
    else None
  }

  function Under(s: Path, xs: seq<Found>): seq<Found> {
    if xs == [] then []
    else Under(s, xs[..|xs| - 1]) + (if s <= xs[|xs| - 1].path then [xs[|xs| - 1]] else [])
  }

  ghost predicate AllExtend(xs: seq<Found>, p: Path) {
    forall i :: 0 <= i < |xs| ==> p <= xs[i].path && |xs[i].path| > |p|
  }

  lemma {:induction false} FilesExtend(f: Filter, dir: Path, cs: seq<Named>)
    ensures forall i :: 0 <= i < |FilesIn(f, dir, cs)| ==>
              var x := FilesIn(f, dir, cs)[i];
              |x.path| == |dir| + 1 && dir <= x.path
              && exists j :: 0 <= j < |cs| && cs[j].entry.File? && x.path == dir + [cs[j].name]
  {
    if cs != [] {
      FilesExtend(f, dir, cs[..|cs| - 1]);
    }
  }

  lemma {:induction false} ListingExtends(f: Filter, dir: Path, d: Entry)
    requires d.Dir?
    ensures AllExtend(Listing(f, dir, d), dir)
    decreases d, 1, 0
  {
    FilesExtend(f, dir, d.children);
    BelowExtends(f, dir, d, |d.children|);
  }

  lemma {:induction false} BelowExtends(f: Filter, dir: Path, d: Entry, n: nat)
    requires d.Dir? && n <= |d.children|
    ensures AllExtend(Below(f, dir, d, n), dir)
    decreases d, 0, n
  {
    if n > 0 {
      var c := d.children[n - 1];
      BelowExtends(f, dir, d, n - 1);
      if Descends(f, dir, c) {
        ListingExtends(f, dir + [c.name], c.entry);
        forall x | x in Listing(f, dir + [c.name], c.entry)
          ensures dir <= x.path && |x.path| > |dir|
        {
          assert dir + [c.name] <= x.path;
          assert (dir + [c.name])[..|dir|] == dir;
        }
      }
    }
  }

  lemma {:induction false} UnderConcat(s: Path, xs: seq<Found>, ys: seq<Found>)
    ensures Under(s, xs + ys) == Under(s, xs) + Under(s, ys)
  {
    if ys == [] {
      assert xs + ys == xs;
    } else {
      UnderConcat(s, xs, ys[..|ys| - 1]);
      assert (xs + ys)[..|xs + ys| - 1] == xs + ys[..|ys| - 1];
    }
  }

  lemma {:induction false} UnderNone(s: Path, xs: seq<Found>)
    requires forall i :: 0 <= i < |xs| ==> !(s <= xs[i].path)
    ensures Under(s, xs) == []
  {
    if xs != [] {
      UnderNone(s, xs[..|xs| - 1]);
    }
  }

  lemma {:induction false} UnderAll(s: Path, xs: seq<Found>)
    requires forall i :: 0 <= i < |xs| ==> s <= xs[i].path
    ensures Under(s, xs) == xs
  {
    if xs != [] {
      UnderAll(s, xs[..|xs| - 1]);
      assert xs == xs[..|xs| - 1] + [xs[|xs| - 1]];
    }
  }

  /** A subdirectory the scope does not lead through has nothing under the scope. */
  lemma ElsewhereIsNotUnder(f: Filter, dir: Path, c: Named, s: Path)
    requires c.entry.Dir? && dir <= s && |dir| < |s| && c.name != s[|dir|]
    ensures Under(s, Listing(f, dir + [c.name], c.entry)) == []
  {
    var here := Listing(f, dir + [c.name], c.entry);
    ListingExtends(f, dir + [c.name], c.entry);
    forall i | 0 <= i < |here| ensures !(s <= here[i].path) {
      assert here[i].path[|dir|] == c.name;
    }
    UnderNone(s, here);
  }

  lemma {:induction false} NoneBelow(f: Filter, dir: Path, d: Entry, n: nat, s: Path)
    requires d.Dir? && n <= |d.children| && dir <= s && |dir| < |s|
    requires forall i :: 0 <= i < n ==> d.children[i].name == s[|dir|] ==> !Descends(f, dir, d.children[i])
    ensures Under(s, Below(f, dir, d, n)) == []
    decreases n
  {
    hide Listing, Below, Under, Descends;
    if n == 0 {
      NothingUnder(f, dir, d, s);
    } else {
      var c := d.children[n - 1];
      NoneBelow(f, dir, d, n - 1, s);
      BelowOfMore(f, dir, d, n - 1);
      if Descends(f, dir, c) {
        DescendsIntoDirs(f, dir, c);
        ElsewhereIsNotUnder(f, dir, c, s);
        UnderConcat(s, Listing(f, dir + [c.name], c.entry), Below(f, dir, d, n - 1));
      }
    }
  }

  /** Of the subdirectories, only the one the scope leads through has anything under the scope. */
  lemma {:induction false} OneBelow(f: Filter, dir: Path, d: Entry, n: nat, s: Path, i: nat)
    requires d.Dir? && i < n <= |d.children| && dir <= s && |dir| < |s|
    requires OnlyNamed(d.children, s, |dir|, i)
    requires Descends(f, dir, d.children[i])
    ensures Under(s, Below(f, dir, d, n)) == Under(s, Listing(f, dir + [s[|dir|]], d.children[i].entry))
    decreases n
  {
    hide Listing, Below, Under, Descends;
    var c := d.children[n - 1];
    BelowOfMore(f, dir, d, n - 1);
    if i == n - 1 {
      DescendsIntoDirs(f, dir, c);
      UnderConcat(s, Listing(f, dir + [c.name], c.entry), Below(f, dir, d, n - 1));
      NoneBelow(f, dir, d, n - 1, s);
    } else {
      OneBelow(f, dir, d, n - 1, s, i);
      if Descends(f, dir, c) {
        DescendsIntoDirs(f, dir, c);
        UnderConcat(s, Listing(f, dir + [c.name], c.entry), Below(f, dir, d, n - 1));
        ElsewhereIsNotUnder(f, dir, c, s);
      }
    }
  }

  lemma DescendsIntoDirs(f: Filter, dir: Path, c: Named)
    requires Descends(f, dir, c)
    ensures c.entry.Dir?
  {
  }

  lemma NothingUnder(f: Filter, dir: Path, d: Entry, s: Path)
    requires d.Dir?
    ensures Under(s, Below(f, dir, d, 0)) == []
  {
  }

  lemma BelowOfMore(f: Filter, dir: Path, d: Entry, n: nat)
    requires d.Dir? && n < |d.children|
    ensures var c := d.children[n];
            Below(f, dir, d, n + 1) ==
              if Descends(f, dir, c) then Listing(f, dir + [c.name], c.entry) + Below(f, dir, d, n) else Below(f, dir, d, n)
  {
    hide Listing;
    assert [] + Below(f, dir, d, n) == Below(f, dir, d, n);
  }

  /** The entry the scope leads through, and no other, has the scope's next name. */
  ghost predicate OnlyNamed(cs: seq<Named>, s: Path, at: nat, i: nat)
    requires at < |s|
  {
    i < |cs| && cs[i].name == s[at] && forall k :: 0 <= k < |cs| && k != i ==> cs[k].name != s[at]
  }

  lemma NoFileThere(f: Filter, dir: Path, d: Entry, s: Path)
    requires d.Dir? && dir <= s && |s| > |dir|
    requires forall i :: 0 <= i < |d.children| && d.children[i].name == s[|dir|] ==> !d.children[i].entry.File? || |s| > |dir| + 1
    ensures Under(s, FilesIn(f, dir, d.children)) == []
  {
    var files := FilesIn(f, dir, d.children);
    FilesExtend(f, dir, d.children);
    forall j | 0 <= j < |files| ensures !(s <= files[j].path) {
      var m :| 0 <= m < |d.children| && d.children[m].entry.File? && files[j].path == dir + [d.children[m].name];
      assert files[j].path[|dir|] == d.children[m].name;
    }
    UnderNone(s, files);
  }

  /** No directory from below `dir` down to `s` matches an exclude pattern. */
  ghost predicate OpenPath(f: Filter, dir: Path, s: Path) {
    forall n :: |dir| < n <= |s| ==> !f.excluded(s[..n])
  }

  /** One level: what the full listing of `dir` has under a scope further down. */
  lemma UnderOneLevel(f: Filter, dir: Path, d: Entry, s: Path)
    requires d.Dir? && UniqueNames(d) && dir <= s && |dir| < |s|
    ensures forall i :: 0 <= i < |d.children| && d.children[i].name == s[|dir|] ==>
              && (Descends(f, dir, d.children[i]) ==>
                    Under(s, Listing(f, dir, d)) == Under(s, Listing(f, dir + [s[|dir|]], d.children[i].entry)))
              && (!Descends(f, dir, d.children[i]) && (!d.children[i].entry.File? || |s| > |dir| + 1) ==>
                    Under(s, Listing(f, dir, d)) == [])
    ensures (forall i :: 0 <= i < |d.children| ==> d.children[i].name != s[|dir|]) ==> Under(s, Listing(f, dir, d)) == []
  {
    hide Under, Below, FilesIn, Descends;
    var n := |d.children|;
    UnderConcat(s, FilesIn(f, dir, d.children), Below(f, dir, d, n));
    if i :| 0 <= i < n && d.children[i].name == s[|dir|] {
      if !d.children[i].entry.File? || |s| > |dir| + 1 {
        NoFileThere(f, dir, d, s);
      }
      assert OnlyNamed(d.children, s, |dir|, i);
      hide UniqueNames;
      if Descends(f, dir, d.children[i]) {
        DescendsIntoDirs(f, dir, d.children[i]);
        OneBelow(f, dir, d, n, s, i);
      } else {
        NoneBelow(f, dir, d, n, s);
      }
    } else {
      NoFileThere(f, dir, d, s);
      NoneBelow(f, dir, d, n, s);
    }
  }

  /**
   The full listing, filtered by the scope, equals the listing of the scope alone -- entry
   by entry and in order -- whenever the scope is a directory no pattern cuts off; when a
   pattern excludes the scope or a directory above it, the full listing has nothing there.
   */
  lemma {:induction false} ListingUnderScope(f: Filter, dir: Path, d: Entry, s: Path)
    requires d.Dir? && UniqueNames(d) && f.recursive && dir <= s
    ensures var at := Lookup(d, s[|dir|..]);
            && (at.Some? && at.value.Dir? && OpenPath(f, dir, s) ==> Under(s, Listing(f, dir, d)) == Listing(f, s, at.value))
            && (at.Some? && at.value.Dir? && !OpenPath(f, dir, s) ==> Under(s, Listing(f, dir, d)) == [])
            && (at.None? || at.value.Link? ==> Under(s, Listing(f, dir, d)) == [])
    decreases |s| - |dir|
  {
    hide Listing;
    var rest := s[|dir|..];
    if dir == s {
      ListingExtends(f, dir, d);
      UnderAll(s, Listing(f, dir, d));
    } else {
      UnderOneLevel(f, dir, d, s);
      var next := dir + [s[|dir|]];
      assert next == s[..|dir| + 1];
      if i :| 0 <= i < |d.children| && d.children[i].name == s[|dir|] {
        var c := d.children[i];
        assert Child(d, rest[0]) == Some(c.entry);
        assert Lookup(d, rest) == Lookup(c.entry, rest[1..]);
        assert rest[1..] == s[|next|..];
        if Descends(f, dir, c) {
          ListingUnderScope(f, next, c.entry, s);
          assert OpenPath(f, dir, s) <==> OpenPath(f, next, s);
        } else if c.entry.Dir? {
          assert f.excluded(s[..|dir| + 1]);
        }
      }
    }
  }

  /** With no directory cut off, a scope naming a listed file is the one the two runs disagree on. */
  lemma {:induction false} FileUnderScope(f: Filter, dir: Path, d: Entry, s: Path, x: Found)
    requires d.Dir? && UniqueNames(d) && dir <= s && (f.recursive || |s| == |dir| + 1)
    requires Lookup(d, s[|dir|..]) == Some(File(Some(x.stat))) && x.path == s
    requires OpenPath(f, dir, s) && f.audio(s[|s| - 1])
    ensures x in Listing(f, dir, d)
    decreases |s| - |dir|
  {
    assert dir != s;
    var i :| 0 <= i < |d.children| && d.children[i].name == s[|dir|]
             && Child(d, s[|dir|..][0]) == Some(d.children[i].entry);
    var c, next := d.children[i], dir + [s[|dir|]];
    assert next == s[..|dir| + 1] && s[|dir|..][1..] == s[|next|..];
    if |s| == |next| {
      FileIsListed(f, dir, d.children, i);
      assert next == s && !f.excluded(s[..|s|]) && s[..|s|] == s;
      assert s[|dir|..][1..] == [] && c.entry == File(Some(x.stat));
      assert FileOf(f, dir, c) == [x];
    } else {
      FileUnderScope(f, next, c.entry, s, x);
      SubtreeIsListed(f, dir, d, |d.children|, i);
    }
  }

  lemma {:induction false} FileIsListed(f: Filter, dir: Path, cs: seq<Named>, i: nat)
    requires i < |cs|
    ensures forall x :: x in FileOf(f, dir, cs[i]) ==> x in FilesIn(f, dir, cs)
  {
    if i < |cs| - 1 {
      FileIsListed(f, dir, cs[..|cs| - 1], i);
    }
  }

  lemma {:induction false} SubtreeIsListed(f: Filter, dir: Path, d: Entry, n: nat, i: nat)
    requires d.Dir? && i < n <= |d.children| && Descends(f, dir, d.children[i])
    ensures forall x :: x in Listing(f, dir + [d.children[i].name], d.children[i].entry) ==> x in Below(f, dir, d, n)
  {
    hide Listing;
    if i < n - 1 {
      SubtreeIsListed(f, dir, d, n - 1, i);
    }
  }

  // ----- every path once ---------------------------------------------------------------------

  ghost predicate Distinct(xs: seq<Found>) {
    forall i, j :: 0 <= i < j < |xs| ==> xs[i].path != xs[j].path
  }

  lemma {:induction false} FilesDistinct(f: Filter, dir: Path, d: Entry, n: nat)
    requires d.Dir? && UniqueNames(d) && n <= |d.children|
    ensures Distinct(FilesIn(f, dir, d.children[..n]))
  {
    if n > 0 {
      var cs := d.children[..n];
      FilesDistinct(f, dir, d, n - 1);
      assert cs[..n - 1] == d.children[..n - 1];
      FilesExtend(f, dir, cs[..n - 1]);
      forall x | x in FilesIn(f, dir, cs[..n - 1])
        ensures x.path != dir + [cs[n - 1].name]
      {
        assert x.path[|dir|] in set j | 0 <= j < n - 1 :: cs[j].name;
      }
    }
  }

  lemma {:induction false} BelowAvoids(f: Filter, dir: Path, d: Entry, n: nat, name: string)
    requires d.Dir? && n <= |d.children| && forall i :: 0 <= i < n && d.children[i].name == name ==> !d.children[i].entry.Dir?
    ensures forall x :: x in Below(f, dir, d, n) ==> |x.path| > |dir| + 1 && x.path[|dir|] != name
  {
    hide Listing;
    if n > 0 {
      var c := d.children[n - 1];
      BelowAvoids(f, dir, d, n - 1, name);
      if Descends(f, dir, c) {
        ListingExtends(f, dir + [c.name], c.entry);
        forall x | x in Listing(f, dir + [c.name], c.entry)
          ensures |x.path| > |dir| + 1 && x.path[|dir|] == c.name
        {
        }
      }
    }
  }

  lemma {:induction false} ListingDistinct(f: Filter, dir: Path, d: Entry)
    requires d.Dir? && UniqueNames(d)
    ensures Distinct(Listing(f, dir, d))
    decreases d, 1, 0
  {
    var n := |d.children|;
    FilesDistinct(f, dir, d, n);
    assert d.children[..n] == d.children;
    FilesExtend(f, dir, d.children);
    BelowDistinct(f, dir, d, n);
    BelowIsDeep(f, dir, d, n);
  }

  lemma {:induction false} BelowIsDeep(f: Filter, dir: Path, d: Entry, n: nat)
    requires d.Dir? && n <= |d.children|
    ensures forall x :: x in Below(f, dir, d, n) ==> |x.path| > |dir| + 1
  {
    hide Listing;
    if n > 0 {
      BelowIsDeep(f, dir, d, n - 1);
      var c := d.children[n - 1];
      if Descends(f, dir, c) {
        ListingExtends(f, dir + [c.name], c.entry);
      }
    }
  }

  lemma {:induction false} BelowDistinct(f: Filter, dir: Path, d: Entry, n: nat)
    requires d.Dir? && UniqueNames(d) && n <= |d.children|
    ensures Distinct(Below(f, dir, d, n))
    decreases d, 0, n
  {
    if n > 0 {
      hide Listing, Below, Distinct, FilesIn;
      var c := d.children[n - 1];
      BelowDistinct(f, dir, d, n - 1);
      BelowOfMore(f, dir, d, n - 1);
      if Descends(f, dir, c) {
        ListingDistinct(f, dir + [c.name], c.entry);
        ListingNamed(f, dir, c);
        BelowAvoids(f, dir, d, n - 1, c.name);
        ApartAreDistinct(Listing(f, dir + [c.name], c.entry), Below(f, dir, d, n - 1), |dir|, c.name);
      }
    } else {
      assert Below(f, dir, d, n) == [];
    }
  }

  lemma ListingNamed(f: Filter, dir: Path, c: Named)
    requires c.entry.Dir?
    ensures forall x :: x in Listing(f, dir + [c.name], c.entry) ==> |x.path| > |dir| + 1 && x.path[|dir|] == c.name
  {
    hide Listing;
    ListingExtends(f, dir + [c.name], c.entry);
    forall x | x in Listing(f, dir + [c.name], c.entry) ensures |x.path| > |dir| + 1 && x.path[|dir|] == c.name {
      assert dir + [c.name] <= x.path;
    }
  }

  lemma ApartAreDistinct(xs: seq<Found>, ys: seq<Found>, at: nat, name: string)
    requires Distinct(xs) && Distinct(ys)
    requires forall x :: x in xs ==> at < |x.path| && x.path[at] == name
    requires forall y :: y in ys ==> at < |y.path| && y.path[at] != name
    ensures Distinct(xs + ys)
  {
  }

  lemma {:induction false} ListedPathsAreOk(f: Filter, dir: Path, d: Entry)
    requires d.Dir? && UniqueNames(d) && PathOk(dir)
    ensures forall x :: x in Listing(f, dir, d) ==> PathOk(x.path)
    decreases d, 1, 0
  {
    FilesExtend(f, dir, d.children);
    forall x | x in FilesIn(f, dir, d.children)
      ensures PathOk(x.path)
    {
      var j :| 0 <= j < |d.children| && x.path == dir + [d.children[j].name];
    }
    PathsBelowAreOk(f, dir, d, |d.children|);
  }

  lemma {:induction false} PathsBelowAreOk(f: Filter, dir: Path, d: Entry, n: nat)
    requires d.Dir? && UniqueNames(d) && PathOk(dir) && n <= |d.children|
    ensures forall x :: x in Below(f, dir, d, n) ==> PathOk(x.path)
    decreases d, 0, n
  {
    if n > 0 {
      var c := d.children[n - 1];
      PathsBelowAreOk(f, dir, d, n - 1);
      if Descends(f, dir, c) {
        assert PathOk(dir + [c.name]);
        ListedPathsAreOk(f, dir + [c.name], c.entry);
      }
    }
  }
}
