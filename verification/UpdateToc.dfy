/**
 The table-of-contents rewriter for Markdown files: scanning headings outside fenced code,
 building the list, and splicing it between the two markers of a document.

 What Unicode says about characters (white space, word characters, lower case) is a
 parameter, of which `Sensible` says what is relied on.
 */
module UpdateToc {
  import opened Prelude

  const TOC_START := "<!-- toc -->"
  const TOC_END := "<!-- tocstop -->"
  const BULLETS := ['-', '*', '+']

  datatype Unicode = Unicode(space: char -> bool, word: char -> bool, lower: string -> string)

  /** Word characters are neither line breaks nor angle brackets, and bullets are not white space. */
  ghost predicate Sensible(u: Unicode) {
    && (forall c :: u.word(c) ==> !IsBreak(c) && c != '<' && c != '>')
    && !u.space('-') && !u.space('*') && !u.space('+')
  }

  datatype Heading = Heading(level: nat, title: string)
  datatype Entry = Entry(level: nat, caption: string, slug: string)

  // ----- lines ------------------------------------------------------------------------------------------

  /** The characters `str.splitlines` breaks at. */
  predicate IsBreak(c: char) {
    c in ['\n', '\r', '\U{000b}', '\U{000c}', '\U{001c}', '\U{001d}', '\U{001e}', '\U{0085}', '\U{2028}', '\U{2029}']
  }

  predicate Unbroken(s: string) { forall i :: 0 <= i < |s| ==> !IsBreak(s[i]) }

  predicate AllUnbroken(lines: seq<string>) { forall i :: 0 <= i < |lines| ==> Unbroken(lines[i]) }

  function FirstBreak(s: string): (i: nat)
    ensures i <= |s| && Unbroken(s[..i]) && (i < |s| ==> IsBreak(s[i]))
  {
    if s == [] || IsBreak(s[0]) then 0
    else
      assert s[..FirstBreak(s[1..]) + 1] == [s[0]] + s[1..][..FirstBreak(s[1..])];
      FirstBreak(s[1..]) + 1
  }

  function SplitLines(s: string): (lines: seq<string>)
    ensures AllUnbroken(lines)
  {
    if s == [] then []
    else
      var i := FirstBreak(s);
      if i == |s| then [s[..i]]
      else [s[..i]] + SplitLines(s[i + (if s[i] == '\r' && i + 1 < |s| && s[i + 1] == '\n' then 2 else 1)..])
  }

  function JoinLines(lines: seq<string>): string {
    if lines == [] then []
    else if |lines| == 1 then lines[0]
    else lines[0] + "\n" + JoinLines(lines[1..])
  }

  predicate EndsInNewline(s: string) { s != [] && s[|s| - 1] == '\n' }

  predicate Contains(s: string, part: string) { exists i :: 0 <= i <= |s| && part <= s[i..] }

  // ----- scanning ------------------------------------------------------------------------------------------

  function DropSpaces(u: Unicode, s: string): (r: string)
    ensures r != [] ==> !u.space(r[0])
    ensures |r| <= |s| && r == s[|s| - |r|..]
  {
    if s != [] && u.space(s[0]) then DropSpaces(u, s[1..]) else s
  }

  function HashRun(s: string): (n: nat)
    ensures n <= |s|
    ensures n > 0 <==> s != [] && s[0] == '#'
  {
    if s != [] && s[0] == '#' then HashRun(s[1..]) + 1 else 0
  }

  /** The optional closing sequence of a heading: white space, then hashes. */
  predicate Closes(u: Unicode, s: string) {
    var rest := DropSpaces(u, s);
    HashRun(rest) == |rest|
  }

  /** The shortest non-empty title that leaves only a closing sequence. */
  function TitleLength(u: Unicode, s: string, n: nat): (m: nat)
    requires 1 <= n <= |s|
    ensures n <= m <= |s| && Closes(u, s[m..]) && forall k :: n <= k < m ==> !Closes(u, s[k..])
    decreases |s| - n
  {
    if Closes(u, s[n..]) then n
    else TitleLength(u, s, n + 1)
  }

  function HeadingOf(u: Unicode, line: string): Option<Heading> {
    var k := HashRun(line);
    if k == 0 || k > 6 || k == |line| || !u.space(line[k]) then None
    else
      var text := DropSpaces(u, line[k..]);
      if text != [] then Some(Heading(k, text[..TitleLength(u, text, 1)]))
      else if |line| - k >= 2 then Some(Heading(k, line[|line| - 1..]))
      else None
  }

  function FenceOf(u: Unicode, line: string): Option<char> {
    var text := DropSpaces(u, line);
    if "```" <= text then Some('`') else if "~~~" <= text then Some('~') else None
  }

  /** The fence left open after some lines. */
  function OpenFence(u: Unicode, lines: seq<string>): Option<char> {
    if lines == [] then None
    else
      var open, fence := OpenFence(u, lines[..|lines| - 1]), FenceOf(u, lines[|lines| - 1]);
      if fence.None? then open else if open.None? then fence else if open == fence then None else open
  }

  /** `iter_headings`: headings outside fenced code. */
  function HeadingsOf(u: Unicode, lines: seq<string>): seq<Heading> {
    if lines == [] then []
    else
      var front, line := lines[..|lines| - 1], lines[|lines| - 1];
      HeadingsOf(u, front) +
      if FenceOf(u, line).None? && OpenFence(u, front).None? && HeadingOf(u, line).Some? then [HeadingOf(u, line).value] else []
  }

  method IterHeadings(u: Unicode, lines: seq<string>) returns (found: seq<Heading>)
    ensures found == HeadingsOf(u, lines)
  {
    hide FenceOf, HeadingOf;
    var inFence, marker := false, ' ';
    found := [];
    for i := 0 to |lines|
      invariant OpenFence(u, lines[..i]) == if inFence then Some(marker) else None
      invariant found == HeadingsOf(u, lines[..i])
    {
      assert lines[..i + 1][..i] == lines[..i];
      var fence := FenceOf(u, lines[i]);
      if fence.Some? {
        if inFence && fence.value == marker {
          inFence := false;
        } else if !inFence {
          inFence, marker := true, fence.value;
        }
      } else if !inFence {
        var heading := HeadingOf(u, lines[i]);
        if heading.Some? {
          found := found + [heading.value];
        }
      }
    }
    assert lines[..|lines|] == lines;
  }

  // ----- entries -------------------------------------------------------------------------------------------

  /** Where a tag opened at the start of `s` ends. */
  function TagEnd(s: string, from: nat): (e: Option<nat>)
    requires from <= |s|
    ensures e.Some? ==> from <= e.value < |s| && s[e.value] == '>'
    ensures e.None? ==> forall i :: from <= i < |s| ==> s[i] != '>'
    decreases |s| - from
  {
    if from == |s| then None else if s[from] == '>' then Some(from) else TagEnd(s, from + 1)
  }

  function StripTags(s: string): string {
    if s == [] then []
    else if s[0] == '<' && TagEnd(s, 1).Some? && TagEnd(s, 1).value >= 2 then StripTags(s[TagEnd(s, 1).value + 1..])
    else [s[0]] + StripTags(s[1..])
  }

  function Filter(s: string, keep: char -> bool): (r: string)
    ensures forall i :: 0 <= i < |r| ==> keep(r[i])
  {
    if s == [] then [] else (if keep(s[0]) then [s[0]] else []) + Filter(s[1..], keep)
  }

  predicate Separates(u: Unicode, c: char) { u.space(c) || c == '-' }

  function Collapse(u: Unicode, s: string): string {
    if s == [] then []
    else if Separates(u, s[0]) then if |s| > 1 && Separates(u, s[1]) then Collapse(u, s[1..]) else "-" + Collapse(u, s[1..])
    else [s[0]] + Collapse(u, s[1..])
  }

  function Trim(s: string, drop: char -> bool): (r: string)
    decreases |s|
  {
    if s != [] && drop(s[0]) then Trim(s[1..], drop)
    else if s != [] && drop(s[|s| - 1]) then Trim(s[..|s| - 1], drop)
    else s
  }

  function Slugify(u: Unicode, title: string): string {
    var plain := Filter(u.lower(StripTags(title)), c => c !in ['\U{200d}', '\U{fe0e}', '\U{fe0f}']);
    Trim(Collapse(u, Filter(plain, c => u.word(c) || u.space(c) || c == '-')), c => c == '-')
  }

  function Label(u: Unicode, title: string): string { Trim(StripTags(title), u.space) }

  function Decimal(n: nat): (s: string)
    ensures forall i :: 0 <= i < |s| ==> '0' <= s[i] <= '9'
  {
    (if n < 10 then "" else Decimal(n / 10)) + ["0123456789"[n % 10]]
  }

  /** How many of the headings listed so far have a slug: what `seen` holds for it. */
  function Seen(u: Unicode, hs: seq<Heading>, slug: string): nat {
    if hs == [] then 0
    else Seen(u, hs[..|hs| - 1], slug) + if Slugify(u, hs[|hs| - 1].title) == slug then 1 else 0
  }

  function EntryOf(u: Unicode, listed: seq<Heading>, h: Heading): Entry {
    var slug := Slugify(u, h.title);
    var count := Seen(u, listed, slug);
    Entry(h.level, Label(u, h.title), if count > 0 then slug + "-" + Decimal(count) else slug)
  }

  function EntriesOf(u: Unicode, hs: seq<Heading>): seq<Entry> {
    if hs == [] then [] else EntriesOf(u, hs[..|hs| - 1]) + [EntryOf(u, hs[..|hs| - 1], hs[|hs| - 1])]
  }

  /** Everything but the first level-one heading, the document's title. */
  function WithoutTitle(hs: seq<Heading>): seq<Heading> {
    if hs == [] then []
    else
      var front, h := hs[..|hs| - 1], hs[|hs| - 1];
      WithoutTitle(front) + if h.level == 1 && !HasLevelOne(front) then [] else [h]
  }

  method Headings(u: Unicode, lines: seq<string>) returns (result: seq<Entry>)
    ensures result == EntriesOf(u, WithoutTitle(HeadingsOf(u, lines)))
  {
    hide Slugify, Label, Decimal, HeadingsOf, WithoutTitle, EntriesOf, Seen, HasLevelOne;
    var hs := IterHeadings(u, lines);
    var seen: map<string, nat> := map[];
    var firstH1Skipped := false;
    result := [];
    ghost var listed: seq<Heading> := [];
    NothingListed(u);
    assert hs[..0] == [];
    for i := 0 to |hs|
      invariant firstH1Skipped <==> HasLevelOne(hs[..i])
      invariant listed == WithoutTitle(hs[..i]) && result == EntriesOf(u, listed)
      invariant Counts(u, listed, seen)
    {
      WithoutTitleOfMore(hs[..i], hs[i]);
      assert hs[..i + 1] == hs[..i] + [hs[i]];
      if hs[i].level == 1 && !firstH1Skipped {
        firstH1Skipped := true;
        continue;
      }
      var slug := Slugify(u, hs[i].title);
      var count := if slug in seen then seen[slug] else 0;
      EntriesOfMore(u, listed, hs[i], seen);
      seen := seen[slug := count + 1];
      listed := listed + [hs[i]];
      if count > 0 {
        slug := slug + "-" + Decimal(count);
      }
      result := result + [Entry(hs[i].level, Label(u, hs[i].title), slug)];
    }
    assert hs[..|hs|] == hs;
  }

  predicate HasLevelOne(hs: seq<Heading>) { exists k :: 0 <= k < |hs| && hs[k].level == 1 }

  /** The dictionary of slugs holds how often each was listed. */
  ghost predicate Counts(u: Unicode, listed: seq<Heading>, seen: map<string, nat>) {
    forall slug :: Seen(u, listed, slug) == if slug in seen then seen[slug] else 0
  }

  lemma NothingListed(u: Unicode)
    ensures !HasLevelOne([]) && WithoutTitle([]) == [] && EntriesOf(u, []) == [] && Counts(u, [], map[])
  {
  }

  lemma WithoutTitleOfMore(hs: seq<Heading>, h: Heading)
    ensures WithoutTitle(hs + [h]) == WithoutTitle(hs) + if h.level == 1 && !HasLevelOne(hs) then [] else [h]
    ensures HasLevelOne(hs + [h]) <==> HasLevelOne(hs) || h.level == 1
  {
    assert (hs + [h])[..|hs|] == hs;
    assert (hs + [h])[|hs|] == h;
    assert HasLevelOne(hs) ==> exists k :: 0 <= k < |hs| && (hs + [h])[k].level == 1;
  }

  lemma EntriesOfMore(u: Unicode, listed: seq<Heading>, h: Heading, seen: map<string, nat>)
    requires Counts(u, listed, seen)
    ensures EntriesOf(u, listed + [h]) == EntriesOf(u, listed) + [EntryOf(u, listed, h)]
    ensures var slug := Slugify(u, h.title);
            Counts(u, listed + [h], seen[slug := (if slug in seen then seen[slug] else 0) + 1])
  {
    hide Slugify;
    assert (listed + [h])[..|listed|] == listed;
  }

  // ----- the list ------------------------------------------------------------------------------------------

  function Spaces(n: nat): (s: string)
    ensures |s| == n && forall i :: 0 <= i < n ==> s[i] == ' '
  {
    if n == 0 then "" else " " + Spaces(n - 1)
  }

  /** The list item of an entry; a further level-one heading is not indented and takes the last bullet. */
  function ItemOf(e: Entry): string {
    Spaces(if e.level >= 2 then 2 * (e.level - 2) else 0) + [BULLETS[(e.level - 2) % 3]] + " [" + e.caption + "](#" + e.slug + ")"
  }

  function ItemsOf(es: seq<Entry>): seq<string> {
    if es == [] then [] else ItemsOf(es[..|es| - 1]) + [ItemOf(es[|es| - 1])]
  }

  function TocOf(u: Unicode, lines: seq<string>): seq<string> {
    ItemsOf(EntriesOf(u, WithoutTitle(HeadingsOf(u, lines))))
  }

  method BuildToc(u: Unicode, lines: seq<string>) returns (toc: string)
    ensures toc == JoinLines(TocOf(u, lines))
  {
    var es := Headings(u, lines);
    var items: seq<string> := [];
    for i := 0 to |es|
      invariant items == ItemsOf(es[..i])
    {
      assert es[..i + 1][..i] == es[..i];
      items := items + [ItemOf(es[i])];
    }
    assert es[..|es|] == es;
    toc := JoinLines(items);
  }

  // ----- rewriting -----------------------------------------------------------------------------------------

  /** The first line at or after `from` that contains `mark`. */
  function FirstWith(lines: seq<string>, mark: string, from: nat): (i: Option<nat>)
    requires from <= |lines|
    ensures i.Some? ==> from <= i.value < |lines| && Contains(lines[i.value], mark)
    ensures forall k :: from <= k < |lines| && (i.None? || k < i.value) ==> !Contains(lines[k], mark)
    decreases |lines| - from
  {
    if from == |lines| then None else if Contains(lines[from], mark) then Some(from) else FirstWith(lines, mark, from + 1)
  }

  /** The lines up to the start marker and from the end marker, around a region. */
  datatype Cut = Cut(head: seq<string>, region: seq<string>, tail: seq<string>)

  function CutAt(lines: seq<string>): (c: Option<Cut>)
    ensures c.Some? ==> lines == c.value.head + c.value.region + c.value.tail
  {
    var start := FirstWith(lines, TOC_START, 0);
    if start.None? then None
    else
      var end := FirstWith(lines, TOC_END, start.value + 1);
      if end.None? then None
      else Some(Cut(lines[..start.value + 1], lines[start.value + 1..end.value], lines[end.value..]))
  }

  function Newline(text: string): string { if EndsInNewline(text) then "\n" else "" }

  /** A document around a list of contents. */
  function Document(head: seq<string>, toc: seq<string>, tail: seq<string>, newline: string): string {
    JoinLines(head + ([""] + toc + [""]) + tail) + newline
  }

  /** `update_text`. */
  function Updated(u: Unicode, text: string): string {
    var lines := SplitLines(text);
    var c := CutAt(lines);
    if c.None? then text else Document(c.value.head, TocOf(u, lines), c.value.tail, Newline(text))
  }

  method UpdateText(u: Unicode, text: string) returns (result: string)
    requires Sensible(u)
    ensures result == Updated(u, text)
  {
    var lines := SplitLines(text);
    var start := FirstWith(lines, TOC_START, 0);
    if start.None? {
      return text;
    }
    var end := FirstWith(lines, TOC_END, start.value + 1);
    if end.None? {
      return text;
    }
    var toc := BuildToc(u, lines);
    TocSplitsBack(u, lines);
    lines := lines[..start.value + 1] + ([""] + SplitLines(toc) + [""]) + lines[end.value..];
    result := JoinLines(lines) + (if EndsInNewline(text) then "\n" else "");
  }

  // ----- what generated lines are not --------------------------------------------------------------------------

  /** Tags are gone: an opening bracket is followed by a closing one at once, or by none at all. */
  predicate Tagless(s: string) {
    forall p, q :: 0 <= p < q < |s| && s[p] == '<' && s[q] == '>' ==> s[p + 1] == '>'
  }

  lemma {:induction false} StripTagsWorks(s: string)
    ensures Tagless(StripTags(s))
    ensures Unbroken(s) ==> Unbroken(StripTags(s))
    ensures '>' !in s ==> '>' !in StripTags(s)
    ensures s != [] && s[0] == '>' ==> StripTags(s) != [] && StripTags(s)[0] == '>'
  {
    if s != [] {
      if s[0] == '<' && TagEnd(s, 1).Some? && TagEnd(s, 1).value >= 2 {
        StripTagsWorks(s[TagEnd(s, 1).value + 1..]);
      } else {
        StripTagsWorks(s[1..]);
        assert StripTags(s) == [s[0]] + StripTags(s[1..]);
      }
    }
  }

  lemma {:induction false} CollapseKeeps(u: Unicode, s: string)
    requires forall i :: 0 <= i < |s| ==> u.word(s[i]) || Separates(u, s[i])
    ensures forall i :: 0 <= i < |Collapse(u, s)| ==> u.word(Collapse(u, s)[i]) || Collapse(u, s)[i] == '-'
  {
    if s != [] {
      CollapseKeeps(u, s[1..]);
    }
  }

  lemma {:induction false} TrimSlices(s: string, drop: char -> bool) returns (a: nat, b: nat)
    ensures a <= b <= |s| && Trim(s, drop) == s[a..b]
    decreases |s|
  {
    if s != [] && drop(s[0]) {
      a, b := TrimSlices(s[1..], drop);
      a, b := a + 1, b + 1;
    } else if s != [] && drop(s[|s| - 1]) {
      a, b := TrimSlices(s[..|s| - 1], drop);
    } else {
      a, b := 0, |s|;
    }
  }

  /** A word character or a dash. */
  predicate SlugChar(u: Unicode, c: char) { u.word(c) || c == '-' }

  lemma SlugIsPlain(u: Unicode, title: string)
    ensures forall i :: 0 <= i < |Slugify(u, title)| ==> SlugChar(u, Slugify(u, title)[i])
  {
    var plain := Filter(u.lower(StripTags(title)), c => c !in ['\U{200d}', '\U{fe0e}', '\U{fe0f}']);
    var kept := Filter(plain, c => u.word(c) || u.space(c) || c == '-');
    CollapseKeeps(u, kept);
    var a, b := TrimSlices(Collapse(u, kept), c => c == '-');
    hide *;
    assert Slugify(u, title) == Collapse(u, kept)[a..b];
  }

  lemma SlugCharIsHarmless(u: Unicode, c: char)
    requires Sensible(u) && SlugChar(u, c)
    ensures !IsBreak(c) && c !in "<>"
  {
  }

  lemma LabelIsTagless(u: Unicode, title: string)
    requires Unbroken(title)
    ensures Unbroken(Label(u, title)) && Tagless(Label(u, title))
  {
    StripTagsWorks(title);
    var a, b := TrimSlices(StripTags(title), u.space);
    SliceIsTagless(StripTags(title), a, b);
  }

  lemma SliceIsTagless(s: string, a: nat, b: nat)
    requires a <= b <= |s| && Tagless(s)
    ensures Tagless(s[a..b])
    ensures Unbroken(s) ==> Unbroken(s[a..b])
  {
  }

  /** An entry whose parts cannot spell a marker or break a line. */
  predicate Harmless(e: Entry) {
    Unbroken(e.caption) && Tagless(e.caption) && Unbroken(e.slug) && '<' !in e.slug && '>' !in e.slug
  }

  /** Neither heading, fence nor end marker, nor broken. */
  ghost predicate Quiet(u: Unicode, line: string) {
    HeadingOf(u, line).None? && FenceOf(u, line).None?
  }

  ghost predicate Inert(u: Unicode, line: string) {
    Quiet(u, line) && !Contains(line, TOC_END) && Unbroken(line)
  }

  lemma {:induction false} DropSpacesStops(u: Unicode, n: nat, rest: string)
    requires rest != [] && !u.space(rest[0])
    ensures var r := DropSpaces(u, Spaces(n) + rest);
            r != [] && (r[0] == ' ' || r[0] == rest[0])
  {
    if n > 0 {
      assert (Spaces(n) + rest)[1..] == Spaces(n - 1) + rest;
      DropSpacesStops(u, n - 1, rest);
    } else {
      assert Spaces(n) + rest == rest;
    }
  }

  function Before(e: Entry): string {
    Spaces(if e.level >= 2 then 2 * (e.level - 2) else 0) + [BULLETS[(e.level - 2) % 3]] + " ["
  }

  lemma BracketsAreInCaption(e: Entry, k: nat)
    requires Harmless(e) && k < |ItemOf(e)| && ItemOf(e)[k] in "<>"
    ensures |Before(e)| <= k < |Before(e)| + |e.caption| && ItemOf(e)[k] == e.caption[k - |Before(e)|]
  {
    var rest := "](#" + e.slug + ")";
    assert ItemOf(e) == Before(e) + e.caption + rest;
    assert forall i :: 0 <= i < |rest| ==> rest[i] !in "<>";
    assert BULLETS[(e.level - 2) % 3] in BULLETS;
    assert forall i :: 0 <= i < |Before(e)| ==> Before(e)[i] !in "<>";
  }

  lemma ItemIsTagless(e: Entry)
    requires Harmless(e)
    ensures Tagless(ItemOf(e))
  {
    var item, at := ItemOf(e), |Before(e)|;
    assert item == Before(e) + e.caption + ("](#" + e.slug + ")");
    forall p, q | 0 <= p < q < |item| && item[p] == '<' && item[q] == '>' ensures item[p + 1] == '>' {
      BracketsAreInCaption(e, p);
      BracketsAreInCaption(e, q);
      assert e.caption[p - at + 1] == item[p + 1];
    }
  }

  lemma MarkerSpells(s: string, i: nat)
    requires i <= |s| && TOC_END <= s[i..]
    ensures i + 15 < |s| && s[i] == '<' && s[i + 1] == '!' && s[i + 15] == '>'
  {
    assert s[i] == s[i..][0] && s[i + 1] == s[i..][1] && s[i + 15] == s[i..][15];
  }

  lemma TaglessHasNoMarker(s: string)
    requires Tagless(s)
    ensures !Contains(s, TOC_END)
  {
    if i: nat :| i <= |s| && TOC_END <= s[i..] {
      MarkerSpells(s, i);
      assert false;
    }
  }

  lemma ItemStarts(e: Entry) returns (n: nat, rest: string)
    ensures ItemOf(e) == Spaces(n) + rest && rest != "" && rest[0] in BULLETS
    ensures ItemOf(e)[0] != '#'
  {
    hide Tagless, StripTags;
    n := if e.level >= 2 then 2 * (e.level - 2) else 0;
    rest := [BULLETS[(e.level - 2) % 3]] + (" [" + e.caption + "](#" + e.slug + ")");
    assert ItemOf(e) == Spaces(n) + rest;
  }

  lemma ItemIsQuiet(u: Unicode, e: Entry)
    requires Sensible(u)
    ensures Quiet(u, ItemOf(e)) && ItemOf(e) != ""
  {
    hide StripTags, Tagless, ItemOf, HeadingOf, FenceOf, DropSpaces, Spaces;
    var n, rest := ItemStarts(e);
    DropSpacesStops(u, n, rest);
    StartsQuietly(u, ItemOf(e));
  }

  lemma StartsQuietly(u: Unicode, line: string)
    requires line != "" && line[0] != '#'
    requires DropSpaces(u, line) != "" && DropSpaces(u, line)[0] !in "`~"
    ensures Quiet(u, line)
  {
    var text := DropSpaces(u, line);
    hide DropSpaces;
    PrefixStarts(text, "```");
    PrefixStarts(text, "~~~");
  }

  lemma PrefixStarts(s: string, p: string)
    requires s != "" && p != ""
    ensures p <= s ==> s[0] == p[0]
  {
  }

  lemma PlainIsUnbroken(s: string)
    requires forall i :: 0 <= i < |s| ==> s[i] in " -*+[](#)"
    ensures Unbroken(s)
  {
  }

  lemma JoinedIsUnbroken(s: string, t: string)
    requires Unbroken(s) && Unbroken(t)
    ensures Unbroken(s + t)
  {
    hide IsBreak;
  }

  lemma ItemParts(e: Entry)
    ensures ItemOf(e) == (Before(e) + e.caption) + (("](#" + e.slug) + ")")
    ensures forall i :: 0 <= i < |Before(e)| ==> Before(e)[i] in " -*+[](#)"
  {
    assert BULLETS[(e.level - 2) % 3] in BULLETS;
  }

  lemma ItemIsUnbroken(e: Entry)
    requires Unbroken(e.caption) && Unbroken(e.slug)
    ensures Unbroken(ItemOf(e))
  {
    hide Unbroken, ItemOf, Before;
    ItemParts(e);
    PlainIsUnbroken(Before(e));
    PlainIsUnbroken("](#");
    PlainIsUnbroken(")");
    JoinedIsUnbroken(Before(e), e.caption);
    JoinedIsUnbroken("](#", e.slug);
    JoinedIsUnbroken("](#" + e.slug, ")");
    JoinedIsUnbroken(Before(e) + e.caption, ("](#" + e.slug) + ")");
  }

  lemma ItemIsInert(u: Unicode, e: Entry)
    requires Sensible(u) && Harmless(e)
    ensures Inert(u, ItemOf(e)) && ItemOf(e) != ""
  {
    hide ItemOf, Quiet, Contains, Tagless, Unbroken;
    ItemIsQuiet(u, e);
    ItemIsTagless(e);
    TaglessHasNoMarker(ItemOf(e));
    ItemIsUnbroken(e);
  }

  // ----- what a table of contents is made of --------------------------------------------------------------------

  lemma HeadingTitleIsUnbroken(u: Unicode, line: string)
    requires Unbroken(line) && HeadingOf(u, line).Some?
    ensures Unbroken(HeadingOf(u, line).value.title)
  {
    hide DropSpaces, HashRun, TitleLength, Closes, Unbroken;
    var text := DropSpaces(u, line[HashRun(line)..]);
    SliceIsUnbroken(line, |line| - 1, |line|);
    SliceIsUnbroken(line, HashRun(line), |line|);
    SliceIsUnbroken(line[HashRun(line)..], |line| - HashRun(line) - |text|, |line| - HashRun(line));
    if text != [] {
      SliceIsUnbroken(text, 0, TitleLength(u, text, 1));
    }
  }

  lemma SliceIsUnbroken(s: string, i: nat, j: nat)
    requires Unbroken(s) && i <= j <= |s|
    ensures Unbroken(s[i..j])
    ensures j == |s| ==> s[i..] == s[i..j]
  {
    hide IsBreak;
  }

  lemma {:induction false} TitlesAreUnbroken(u: Unicode, lines: seq<string>)
    requires AllUnbroken(lines)
    ensures forall i :: 0 <= i < |HeadingsOf(u, lines)| ==> Unbroken(HeadingsOf(u, lines)[i].title)
  {
    if lines != [] {
      TitlesAreUnbroken(u, lines[..|lines| - 1]);
      if HeadingOf(u, lines[|lines| - 1]).Some? {
        HeadingTitleIsUnbroken(u, lines[|lines| - 1]);
      }
    }
  }

  lemma {:induction false} ListedAreFound(hs: seq<Heading>)
    ensures forall i :: 0 <= i < |WithoutTitle(hs)| ==> WithoutTitle(hs)[i] in hs
  {
    if hs != [] {
      ListedAreFound(hs[..|hs| - 1]);
    }
  }

  lemma {:induction false} ItemsAreInert(u: Unicode, hs: seq<Heading>)
    requires Sensible(u) && forall i :: 0 <= i < |hs| ==> Unbroken(hs[i].title)
    ensures forall i :: 0 <= i < |ItemsOf(EntriesOf(u, hs))| ==>
              Inert(u, ItemsOf(EntriesOf(u, hs))[i]) && ItemsOf(EntriesOf(u, hs))[i] != ""
  {
    hide ItemOf, EntryOf, Inert, Harmless, Sensible, Unbroken;
    if hs != [] {
      var front, h := hs[..|hs| - 1], hs[|hs| - 1];
      ItemsAreInert(u, front);
      EntryIsHarmless(u, front, h);
      ItemIsInert(u, EntryOf(u, front, h));
      assert (EntriesOf(u, front) + [EntryOf(u, front, h)])[..|EntriesOf(u, front)|] == EntriesOf(u, front);
    }
  }

  lemma EntryIsHarmless(u: Unicode, listed: seq<Heading>, h: Heading)
    requires Sensible(u) && Unbroken(h.title)
    ensures Harmless(EntryOf(u, listed, h))
  {
    hide IsBreak, Slugify, Label, Tagless, Seen, Decimal, SlugChar;
    LabelIsTagless(u, h.title);
    SlugIsPlain(u, h.title);
    var slug, count := Slugify(u, h.title), Seen(u, listed, Slugify(u, h.title));
    forall i | 0 <= i < |slug| ensures !IsBreak(slug[i]) && slug[i] !in "<>" {
      SlugCharIsHarmless(u, slug[i]);
    }
    DigitsAreHarmless(Decimal(count));
  }

  lemma DigitsAreHarmless(s: string)
    requires forall i :: 0 <= i < |s| ==> '0' <= s[i] <= '9'
    ensures forall i :: 0 <= i < |s| ==> !IsBreak(s[i]) && s[i] !in "<>"
    ensures !IsBreak('-')
  {
  }

  lemma TocIsInert(u: Unicode, lines: seq<string>)
    requires Sensible(u) && AllUnbroken(lines)
    ensures forall i :: 0 <= i < |TocOf(u, lines)| ==> Inert(u, TocOf(u, lines)[i]) && TocOf(u, lines)[i] != ""
  {
    var hs := HeadingsOf(u, lines);
    TitlesAreUnbroken(u, lines);
    ListedAreFound(hs);
    forall i | 0 <= i < |WithoutTitle(hs)| ensures Unbroken(WithoutTitle(hs)[i].title) {
      var k :| 0 <= k < |hs| && hs[k] == WithoutTitle(hs)[i];
    }
    ItemsAreInert(u, WithoutTitle(hs));
  }

  // ----- splitting and joining -------------------------------------------------------------------------------------

  lemma {:induction false} BreakAfter(line: string, rest: string)
    requires Unbroken(line)
    ensures FirstBreak(line + "\n" + rest) == |line| && FirstBreak(line) == |line|
  {
    if line == [] {
    } else {
      BreakAfter(line[1..], rest);
      assert (line + "\n" + rest)[1..] == line[1..] + "\n" + rest;
    }
  }

  /** Joined lines split back into themselves when a final newline closes the last. */
  lemma {:induction false} JoinSplits(lines: seq<string>)
    requires AllUnbroken(lines) && lines != []
    ensures SplitLines(JoinLines(lines) + "\n") == lines
    decreases |lines|
  {
    hide IsBreak, Unbroken, FirstBreak;
    var l, rest := lines[0], lines[1..];
    assert lines == [l] + rest;
    if rest == [] {
      SplitsFirst(l, []);
      assert l + "\n" + [] == l + "\n";
    } else {
      JoinSplits(rest);
      hide SplitLines;
      SplitsFirst(l, JoinLines(rest) + "\n");
      assert l + "\n" + JoinLines(rest) + "\n" == l + "\n" + (JoinLines(rest) + "\n");
    }
  }

  /** Without that newline an empty last line is not seen. */
  lemma {:induction false} JoinSplitsOpen(lines: seq<string>)
    requires AllUnbroken(lines)
    ensures SplitLines(JoinLines(lines)) == if lines != [] && lines[|lines| - 1] == "" then lines[..|lines| - 1] else lines
    decreases |lines|
  {
    hide IsBreak, Unbroken, FirstBreak;
    if |lines| == 1 {
      OneLineSplits(lines[0]);
      assert lines == [lines[0]] && lines[..0] == [];
    } else if lines != [] {
      var l, rest := lines[0], lines[1..];
      JoinSplitsOpen(rest);
      hide SplitLines;
      SplitsFirst(l, JoinLines(rest));
      assert lines == [l] + rest;
      assert lines[..|lines| - 1] == [l] + rest[..|rest| - 1];
    }
  }

  lemma OneLineSplits(line: string)
    requires Unbroken(line)
    ensures SplitLines(line) == if line == "" then [] else [line]
  {
    BreakAfter(line, []);
    assert line[..|line|] == line;
  }

  lemma SplitsFirst(line: string, rest: string)
    requires Unbroken(line)
    ensures SplitLines(line + "\n" + rest) == [line] + SplitLines(rest)
  {
    var s := line + "\n" + rest;
    BreakAfter(line, rest);
    assert s[..|line|] == line && s[|line|] == '\n' && s[|line| + 1..] == rest;
  }

  lemma TocSplitsBack(u: Unicode, lines: seq<string>)
    requires Sensible(u) && AllUnbroken(lines)
    ensures SplitLines(JoinLines(TocOf(u, lines))) == TocOf(u, lines)
  {
    TocIsInert(u, lines);
    JoinSplitsOpen(TocOf(u, lines));
  }

  lemma {:induction false} JoinEnds(lines: seq<string>)
    requires AllUnbroken(lines) && lines != []
    ensures |lines| > 1 && lines[|lines| - 1] == "" ==> JoinLines(lines) == JoinLines(lines[..|lines| - 1]) + "\n"
    ensures lines[|lines| - 1] != "" ==> JoinLines(lines) != [] && !EndsInNewline(JoinLines(lines))
    decreases |lines|
  {
    if |lines| > 1 {
      var rest := lines[1..];
      JoinEnds(rest);
      assert lines[..|lines| - 1] == [lines[0]] + rest[..|rest| - 1];
      if |rest| > 1 {
        assert lines[..|lines| - 1][1..] == rest[..|rest| - 1];
      }
    }
  }

  // ----- fixed points ------------------------------------------------------------------------------------------------

  ghost predicate AllQuiet(u: Unicode, lines: seq<string>) { forall i :: 0 <= i < |lines| ==> Quiet(u, lines[i]) }

  /** Lines that are neither headings nor fences can be taken out. */
  lemma {:induction false} QuietLinesDoNotMatter(u: Unicode, head: seq<string>, region: seq<string>, tail: seq<string>)
    requires AllQuiet(u, region)
    ensures HeadingsOf(u, head + region + tail) == HeadingsOf(u, head + tail)
    ensures OpenFence(u, head + region + tail) == OpenFence(u, head + tail)
    decreases |tail|, |region|
  {
    hide HeadingOf, FenceOf;
    if tail != [] {
      var front := tail[..|tail| - 1];
      QuietLinesDoNotMatter(u, head, region, front);
      assert (head + region + tail)[..|head + region + tail| - 1] == head + region + front;
      assert (head + tail)[..|head + tail| - 1] == head + front;
    } else if region != [] {
      var front := region[..|region| - 1];
      QuietLinesDoNotMatter(u, head, front, []);
      assert (head + region + [])[..|head + region| - 1] == head + front + [];
    } else {
      assert head + [] + [] == head + [];
    }
  }

  /** The marker lines are where the search finds them. */
  predicate Marked(head: seq<string>, tail: seq<string>) {
    && head != [] && Contains(head[|head| - 1], TOC_START)
    && (forall k :: 0 <= k < |head| - 1 ==> !Contains(head[k], TOC_START))
    && tail != [] && Contains(tail[0], TOC_END)
  }

  lemma CutsBack(head: seq<string>, region: seq<string>, tail: seq<string>)
    requires Marked(head, tail) && forall i :: 0 <= i < |region| ==> !Contains(region[i], TOC_END)
    ensures CutAt(head + region + tail) == Some(Cut(head, region, tail))
  {
    hide Contains;
    var lines := head + region + tail;
    assert forall k :: 0 <= k < |head| ==> lines[k] == head[k];
    assert forall k :: |head| <= k < |head| + |region| ==> lines[k] == region[k - |head|];
    assert lines[|head| + |region|] == tail[0];
    assert FirstWith(lines, TOC_START, 0) == Some(|head| - 1);
    assert FirstWith(lines, TOC_END, |head|) == Some(|head| + |region|);
    assert lines[..|head|] == head && lines[|head|..|head| + |region|] == region && lines[|head| + |region|..] == tail;
  }

  lemma RewritesAround(u: Unicode, text: string, head: seq<string>, toc: seq<string>, tail: seq<string>)
    requires Marked(head, tail) && SplitLines(text) == head + ([""] + toc + [""]) + tail
    requires forall i :: 0 <= i < |toc| ==> Inert(u, toc[i])
    ensures Updated(u, text) == Document(head, TocOf(u, head + tail), tail, Newline(text))
  {
    hide Contains, TocOf, Marked, SplitLines, CutAt, Document, HeadingOf, FenceOf;
    EmptyLineIsInert(u);
    var region := [""] + toc + [""];
    CutsBack(head, region, tail);
    QuietTocs(u, head, region, tail);
  }

  /** How a document splits: as composed, or with a final empty line read as a final newline. */
  lemma DocumentSplits(head: seq<string>, toc: seq<string>, tail: seq<string>, newline: string)
    requires AllUnbroken(head) && AllUnbroken(toc) && AllUnbroken(tail) && newline in ["", "\n"]
    requires tail != [] && (|tail| == 1 ==> tail[0] != "")
    ensures var text := Document(head, toc, tail, newline);
            if newline == "\n" || tail[|tail| - 1] != ""
            then SplitLines(text) == head + ([""] + toc + [""]) + tail && Newline(text) == newline
            else SplitLines(text) == head + ([""] + toc + [""]) + tail[..|tail| - 1] && Newline(text) == "\n"
  {
    hide SplitLines, JoinLines, IsBreak, Unbroken;
    var all := head + ([""] + toc + [""]) + tail;
    PlainIsUnbroken("");
    JoinSplits(all);
    JoinSplitsOpen(all);
    JoinEnds(all);
    assert JoinLines(all) + "" == JoinLines(all);
    assert all[|all| - 1] == tail[|tail| - 1];
    assert all[..|all| - 1] == head + ([""] + toc + [""]) + tail[..|tail| - 1];
  }

  /** Rewriting a rewritten document lists what is outside its markers. */
  lemma RewritingAgain(u: Unicode, head: seq<string>, toc: seq<string>, tail: seq<string>, newline: string)
    requires Marked(head, tail) && AllUnbroken(head) && AllUnbroken(tail) && newline in ["", "\n"]
    requires forall i :: 0 <= i < |toc| ==> Inert(u, toc[i])
    ensures Updated(u, Document(head, toc, tail, newline)) == Document(head, TocOf(u, head + tail), tail, newline)
  {
    hide Contains, TocOf, SplitLines, Document, Updated, Newline, Quiet, Unbroken;
    var text := Document(head, toc, tail, newline);
    MarkerIsNotEmpty(tail[0]);
    DocumentSplits(head, toc, tail, newline);
    if newline == "\n" || tail[|tail| - 1] != "" {
      RewritesAround(u, text, head, toc, tail);
    } else {
      var front := tail[..|tail| - 1];
      RewritesAround(u, text, head, toc, front);
      EmptyLineIsInert(u);
      QuietTocs(u, head + front, [""], []);
      assert head + tail == (head + front) + [""] + [];
      assert (head + front) + [] == head + front;
      ShorterTail(u, head, TocOf(u, head + tail), tail);
    }
  }

  lemma MarkerIsNotEmpty(line: string)
    requires Contains(line, TOC_END)
    ensures line != ""
  {
  }

  lemma QuietTocs(u: Unicode, head: seq<string>, region: seq<string>, tail: seq<string>)
    requires AllQuiet(u, region)
    ensures TocOf(u, head + region + tail) == TocOf(u, head + tail)
  {
    QuietLinesDoNotMatter(u, head, region, tail);
  }

  lemma EmptyLineIsInert(u: Unicode)
    ensures Inert(u, "")
  {
  }

  /** A final empty line and no newline, or a newline and no final empty line: the same text. */
  lemma ShorterTail(u: Unicode, head: seq<string>, toc: seq<string>, tail: seq<string>)
    requires |tail| > 1 && tail[|tail| - 1] == ""
    ensures Document(head, toc, tail, "") == Document(head, toc, tail[..|tail| - 1], "\n")
  {
    var all := head + ([""] + toc + [""]) + tail;
    JoinOfMore(all[..|all| - 1], "");
    assert all == all[..|all| - 1] + [""];
    assert all[..|all| - 1] == head + ([""] + toc + [""]) + tail[..|tail| - 1];
  }

  lemma {:induction false} JoinOfMore(lines: seq<string>, line: string)
    requires lines != []
    ensures JoinLines(lines + [line]) == JoinLines(lines) + "\n" + line
  {
    if |lines| > 1 {
      JoinOfMore(lines[1..], line);
      assert (lines + [line])[1..] == lines[1..] + [line];
    } else {
      assert (lines + [line])[1..] == [line];
    }
  }

  lemma SplitTextIsMarked(lines: seq<string>)
    requires CutAt(lines).Some?
    ensures Marked(CutAt(lines).value.head, CutAt(lines).value.tail)
  {
    hide Contains;
  }

  lemma PartsAreUnbroken(text: string)
    requires CutAt(SplitLines(text)).Some?
    ensures var c := CutAt(SplitLines(text)).value;
            AllUnbroken(c.head) && AllUnbroken(c.tail) && AllUnbroken(SplitLines(text))
  {
    hide Unbroken, SplitLines, Contains;
    var lines, c := SplitLines(text), CutAt(SplitLines(text)).value;
    assert forall i :: 0 <= i < |c.head| ==> c.head[i] == lines[i];
    assert forall i :: 0 <= i < |c.tail| ==> c.tail[i] == lines[|c.head| + |c.region| + i];
  }

  /** The second rewriting, in closed form: the list comes from outside the markers. */
  lemma SecondRewriting(u: Unicode, text: string)
    requires Sensible(u) && CutAt(SplitLines(text)).Some?
    ensures var c := CutAt(SplitLines(text)).value;
            && Updated(u, Updated(u, text)) == Document(c.head, TocOf(u, c.head + c.tail), c.tail, Newline(text))
            && Updated(u, Updated(u, Updated(u, text))) == Document(c.head, TocOf(u, c.head + c.tail), c.tail, Newline(text))
  {
    hide Marked, Inert, Document, TocOf, CutAt, SplitLines, Unbroken, Sensible;
    var lines := SplitLines(text);
    var c := CutAt(lines).value;
    SplitTextIsMarked(lines);
    PartsAreUnbroken(text);
    TocIsInert(u, lines);
    RewritingAgain(u, c.head, TocOf(u, lines), c.tail, Newline(text));
    assert AllUnbroken(c.head + c.tail);
    TocIsInert(u, c.head + c.tail);
    RewritingAgain(u, c.head, TocOf(u, c.head + c.tail), c.tail, Newline(text));
  }

  /** Two applications reach a fixed point, for every document. */
  lemma FixedAfterTwo(u: Unicode, text: string)
    requires Sensible(u)
    ensures Updated(u, Updated(u, Updated(u, text))) == Updated(u, Updated(u, text))
  {
    hide SplitLines, CutAt;
    if CutAt(SplitLines(text)).Some? {
      SecondRewriting(u, text);
    }
  }

  /** Documents around different lists differ. */
  lemma DocumentIsInjective(head: seq<string>, toc: seq<string>, other: seq<string>, tail: seq<string>, newline: string)
    requires AllUnbroken(head) && AllUnbroken(toc) && AllUnbroken(other) && AllUnbroken(tail) && newline in ["", "\n"]
    requires tail != [] && (|tail| == 1 ==> tail[0] != "")
    requires Document(head, toc, tail, newline) == Document(head, other, tail, newline)
    ensures toc == other
  {
    hide SplitLines, Document, Unbroken;
    DocumentSplits(head, toc, tail, newline);
    DocumentSplits(head, other, tail, newline);
    var rest := if newline == "\n" || tail[|tail| - 1] != "" then tail else tail[..|tail| - 1];
    MiddlesAgree(head, [""] + toc + [""], [""] + other + [""], rest);
    MiddlesAgree([""], toc, other, [""]);
  }

  lemma MiddlesAgree(head: seq<string>, a: seq<string>, b: seq<string>, tail: seq<string>)
    requires head + a + tail == head + b + tail
    ensures a == b
  {
    assert |head + a + tail| == |head + b + tail|;
    assert a == (head + a + tail)[|head|..|head| + |a|];
    assert b == (head + b + tail)[|head|..|head| + |b|];
  }

  /** One application is enough exactly when the old region contributed nothing to the list. */
  lemma FixedAfterOneIff(u: Unicode, text: string)
    requires Sensible(u) && CutAt(SplitLines(text)).Some?
    ensures var c := CutAt(SplitLines(text)).value;
            Updated(u, Updated(u, text)) == Updated(u, text) <==> TocOf(u, SplitLines(text)) == TocOf(u, c.head + c.tail)
  {
    hide TocOf, CutAt, SplitLines, Unbroken, Sensible, Document, Marked, Quiet, Contains;
    var lines := SplitLines(text);
    var c := CutAt(lines).value;
    SecondRewriting(u, text);
    PartsAreUnbroken(text);
    SplitTextIsMarked(lines);
    TailIsThere(c.head, c.tail);
    if Updated(u, Updated(u, text)) == Updated(u, text) {
      TocIsInert(u, lines);
      assert AllUnbroken(c.head + c.tail);
      TocIsInert(u, c.head + c.tail);
      DocumentIsInjective(c.head, TocOf(u, lines), TocOf(u, c.head + c.tail), c.tail, Newline(text));
    }
  }

  lemma TailIsThere(head: seq<string>, tail: seq<string>)
    requires Marked(head, tail)
    ensures tail != [] && tail[0] != ""
  {
    MarkerIsNotEmpty(tail[0]);
  }

  /** So one application is enough when the old region holds neither heading nor fence. */
  lemma FixedAfterOne(u: Unicode, text: string)
    requires Sensible(u)
    requires CutAt(SplitLines(text)).Some? ==> AllQuiet(u, CutAt(SplitLines(text)).value.region)
    ensures Updated(u, Updated(u, text)) == Updated(u, text)
  {
    hide TocOf, SplitLines, Quiet, Sensible;
    if CutAt(SplitLines(text)).Some? {
      var c := CutAt(SplitLines(text)).value;
      FixedAfterOneIff(u, text);
      QuietTocs(u, c.head, c.region, c.tail);
    }
  }

  /** Rewriting never touches what is outside the markers: the second cut has the same head, and a tail that joins alike. */
  lemma OutsideIsKept(u: Unicode, text: string)
    requires Sensible(u) && CutAt(SplitLines(text)).Some?
    ensures var c := CutAt(SplitLines(text)).value;
            var more := CutAt(SplitLines(Updated(u, text)));
            && more.Some? && more.value.head == c.head
            && (more.value.tail == c.tail || more.value.tail + [""] == c.tail)
            && more.value.region == [""] + TocOf(u, SplitLines(text)) + [""]
  {
    hide TocOf, SplitLines, CutAt, Unbroken, Sensible, Marked, Quiet, Contains;
    var lines := SplitLines(text);
    var c := CutAt(lines).value;
    var toc := TocOf(u, lines);
    var region := [""] + toc + [""];
    PartsAreUnbroken(text);
    SplitTextIsMarked(lines);
    TailIsThere(c.head, c.tail);
    TocIsInert(u, lines);
    EmptyLineIsInert(u);
    DocumentSplits(c.head, toc, c.tail, Newline(text));
    var rest := if Newline(text) == "\n" || c.tail[|c.tail| - 1] != "" then c.tail else c.tail[..|c.tail| - 1];
    MarkedByFirst(c.head, c.tail, rest);
    CutsBack(c.head, region, rest);
    assert rest == c.tail || rest + [""] == c.tail;
  }

  lemma MarkedByFirst(head: seq<string>, tail: seq<string>, other: seq<string>)
    requires Marked(head, tail) && other != [] && other[0] == tail[0]
    ensures Marked(head, other)
  {
  }
}
