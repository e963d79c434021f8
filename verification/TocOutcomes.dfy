/**
 What the table-of-contents rewriter makes of given lines: which are headings and with which
 title, which anchors they get, how an item looks, and where a document is cut.
 */
module TocOutcomes {
  import opened Prelude
  import opened UpdateToc

  ghost predicate All(s: string, p: char -> bool) { forall i :: 0 <= i < |s| ==> p(s[i]) }

  // ----- lines ----------------------------------------------------------------------------------------

  function Concat(lines: seq<string>): string { if lines == [] then "" else lines[0] + Concat(lines[1..]) }

  lemma ConcatOfMore(line: string, lines: seq<string>)
    ensures Concat([line] + lines) == line + Concat(lines)
  {
    assert ([line] + lines)[1..] == lines;
  }

  lemma {:induction false} FilterOfMore(s: string, t: string, keep: char -> bool)
    ensures Filter(s + t, keep) == Filter(s, keep) + Filter(t, keep)
  {
    if s == [] {
      assert s + t == t;
    } else {
      assert (s + t)[1..] == s[1..] + t;
      FilterOfMore(s[1..], t, keep);
    }
  }

  lemma {:induction false} FilterKeepsAll(s: string, keep: char -> bool)
    requires All(s, keep)
    ensures Filter(s, keep) == s
  {
    if s != [] {
      FilterKeepsAll(s[1..], keep);
    }
  }

  lemma {:induction false} FilterDropsAll(s: string, keep: char -> bool)
    requires All(s, c => !keep(c))
    ensures Filter(s, keep) == ""
  {
    if s != [] {
      FilterDropsAll(s[1..], keep);
    }
  }

  predicate Stays(c: char) { !IsBreak(c) }

  lemma FilterOfLine(line: string, ends: string, rest: string)
    requires Unbroken(line) && All(ends, c => !Stays(c))
    ensures Filter(line + ends + rest, Stays) == line + Filter(rest, Stays)
  {
    FilterKeepsAll(line, Stays);
    FilterDropsAll(ends, Stays);
    hide Filter, IsBreak;
    FilterOfMore(line, ends, Stays);
    FilterOfMore(line + ends, rest, Stays);
    assert line + "" == line;
  }

  /** Where the second line of a text starts, or the text's end. */
  function NextLine(s: string): nat {
    var i := FirstBreak(s);
    if i == |s| then i else i + (if s[i] == '\r' && i + 1 < |s| && s[i + 1] == '\n' then 2 else 1)
  }

  lemma NextLineIsAfterTheBreak(s: string)
    requires s != []
    ensures 0 < NextLine(s) <= |s| && FirstBreak(s) <= NextLine(s) && All(s[FirstBreak(s)..NextLine(s)], c => !Stays(c))
  {
    hide FirstBreak;
    NewlineBreaks();
    hide IsBreak, Unbroken;
    var i, n := FirstBreak(s), NextLine(s);
    forall k | 0 <= k < n - i ensures !Stays(s[i..n][k]) {
      assert s[i..n][k] == s[i + k];
    }
  }

  lemma SplitsOffALine(s: string)
    requires s != []
    ensures 0 < NextLine(s) <= |s|
    ensures SplitLines(s) == [s[..FirstBreak(s)]] + SplitLines(s[NextLine(s)..])
  {
    hide FirstBreak, AllUnbroken, Unbroken, IsBreak;
    NextLineIsAfterTheBreak(s);
    if FirstBreak(s) == |s| {
      assert s[|s|..] == [];
      NoLines();
    }
  }

  lemma NoLines()
    ensures SplitLines([]) == []
  {
  }

  lemma NewlineBreaks()
    ensures IsBreak('\n')
  {
  }

  lemma ThreeParts(s: string, i: nat, n: nat)
    requires i <= n <= |s|
    ensures s == s[..i] + s[i..n] + s[n..]
  {
  }

  /** Splitting a text loses nothing but its line breaks. */
  lemma {:induction false} SplittingKeepsTheText(s: string)
    ensures Concat(SplitLines(s)) == Filter(s, Stays)
    decreases |s|
  {
    if s != [] {
      SplitsOffALine(s);
      NextLineIsAfterTheBreak(s);
      hide SplitLines, FirstBreak, IsBreak, Filter, NextLine, Concat, All, Stays, AllUnbroken, Unbroken;
      var i, n := FirstBreak(s), NextLine(s);
      var line, ends, rest := s[..i], s[i..n], s[n..];
      SplittingKeepsTheText(rest);
      ThreeParts(s, i, n);
      FilterOfLine(line, ends, rest);
      ConcatOfMore(line, SplitLines(rest));
    }
  }

  // ----- headings -------------------------------------------------------------------------------------

  lemma {:induction false} HashRunIs(s: string)
    ensures All(s[..HashRun(s)], c => c == '#')
    ensures HashRun(s) < |s| ==> s[HashRun(s)] != '#'
  {
    if s != [] && s[0] == '#' {
      HashRunIs(s[1..]);
      assert s[..HashRun(s)] == [s[0]] + s[1..][..HashRun(s[1..])];
    }
  }

  lemma {:induction false} HashRunOf(marks: string, rest: string)
    requires All(marks, c => c == '#') && (rest != "" ==> rest[0] != '#')
    ensures HashRun(marks + rest) == |marks|
  {
    if marks == [] {
      assert marks + rest == rest;
    } else {
      assert (marks + rest)[1..] == marks[1..] + rest;
      HashRunOf(marks[1..], rest);
    }
  }

  lemma {:induction false} DropsBlanks(u: Unicode, blanks: string, rest: string)
    requires All(blanks, u.space) && (rest != "" ==> !u.space(rest[0]))
    ensures DropSpaces(u, blanks + rest) == rest
  {
    if blanks == [] {
      assert blanks + rest == rest;
    } else {
      assert (blanks + rest)[1..] == blanks[1..] + rest;
      DropsBlanks(u, blanks[1..], rest);
    }
  }

  lemma {:induction false} DropsOnlyBlanks(u: Unicode, s: string)
    ensures All(s[..|s| - |DropSpaces(u, s)|], u.space)
  {
    if s != [] && u.space(s[0]) {
      DropsOnlyBlanks(u, s[1..]);
      var n := |s| - |DropSpaces(u, s)|;
      assert s[..n] == [s[0]] + s[1..][..n - 1];
    }
  }

  /** Text that goes on after some point is no closing sequence. */
  lemma TextDoesNotClose(u: Unicode, s: string, i: nat)
    requires i < |s| && !u.space(s[i]) && s[i] != '#'
    ensures !Closes(u, s)
  {
    var rest := DropSpaces(u, s);
    DropsOnlyBlanks(u, s);
    var n := |s| - |rest|;
    assert forall k :: 0 <= k < n ==> s[..n][k] == s[k];
    HashRunIs(rest);
    assert rest[..|rest|] == rest && rest[i - n] == s[i];
  }

  /**
   One to six hashes, blanks, a title that ends in neither, and whatever blanks and then hashes
   close it: a heading of that level with exactly that title.
   */
  lemma HeadingIsRead(u: Unicode, hashes: string, gap: string, title: string, blanks: string, marks: string)
    requires !u.space('#') && All(hashes, c => c == '#') && 1 <= |hashes| <= 6 && gap != "" && All(gap, u.space)
    requires title != "" && !u.space(title[0]) && !u.space(title[|title| - 1]) && title[|title| - 1] != '#'
    requires All(blanks, u.space) && All(marks, c => c == '#')
    ensures HeadingOf(u, hashes + gap + title + blanks + marks) == Some(Heading(|hashes|, title))
  {
    hide HashRun, DropSpaces, TitleLength, Closes;
    var text := title + (blanks + marks);
    var line := hashes + (gap + text);
    assert line == hashes + gap + title + blanks + marks;
    HashRunOf(hashes, gap + text);
    assert line[|hashes|] == gap[0] && line[|hashes|..] == gap + text;
    DropsBlanks(u, gap, text);
    TitleEndsWhereItCloses(u, title, blanks, marks);
    assert text[..|title|] == title && text != "";
    HeadingByParts(u, line, |hashes|, text);
  }

  lemma HeadingByParts(u: Unicode, line: string, level: nat, text: string)
    requires HashRun(line) == level && 1 <= level <= 6 && level < |line| && u.space(line[level])
    requires DropSpaces(u, line[level..]) == text && text != ""
    ensures HeadingOf(u, line) == Some(Heading(level, text[..TitleLength(u, text, 1)]))
  {
    hide HashRun, DropSpaces, TitleLength, Closes;
  }

  lemma TitleEndsWhereItCloses(u: Unicode, title: string, blanks: string, marks: string)
    requires !u.space('#') && title != "" && !u.space(title[|title| - 1]) && title[|title| - 1] != '#'
    requires All(blanks, u.space) && All(marks, c => c == '#')
    ensures TitleLength(u, title + (blanks + marks), 1) == |title|
  {
    var closing := blanks + marks;
    var text := title + closing;
    assert text[|title|..] == closing;
    DropsBlanks(u, blanks, marks);
    HashRunOf(marks, "");
    assert marks + "" == marks;
    assert Closes(u, closing);
    forall k | 1 <= k < |title| ensures !Closes(u, text[k..]) {
      assert text[k..][|title| - 1 - k] == title[|title| - 1];
      TextDoesNotClose(u, text[k..], |title| - 1 - k);
    }
    hide Closes;
  }

  /** A line that does not begin with one to six hashes and a blank is no heading, nor is one of hashes alone. */
  lemma OtherLinesAreNoHeadings(u: Unicode, line: string)
    requires !exists n :: 1 <= n <= 6 && n < |line| && All(line[..n], c => c == '#') && u.space(line[n])
    ensures HeadingOf(u, line).None?
  {
    HashRunIs(line);
    var n := HashRun(line);
    hide HashRun;
  }

  // ----- fences -----------------------------------------------------------------------------------------

  /** A fence is three backticks or tildes after any blanks. */
  lemma FenceIsRead(u: Unicode, blanks: string, rest: string)
    requires All(blanks, u.space) && (rest != "" ==> !u.space(rest[0]))
    ensures FenceOf(u, blanks + rest) == if "```" <= rest then Some('`') else if "~~~" <= rest then Some('~') else None
  {
    DropsBlanks(u, blanks, rest);
  }

  /** Outside fences a line adds its heading, if it is one and no fence. */
  lemma HeadingIsFound(u: Unicode, lines: seq<string>, line: string)
    requires OpenFence(u, lines).None?
    ensures HeadingsOf(u, lines + [line]) ==
              HeadingsOf(u, lines) + match (FenceOf(u, line), HeadingOf(u, line)) case (None, Some(h)) => [h] case _ => []
    ensures OpenFence(u, lines + [line]) == FenceOf(u, line)
  {
    hide FenceOf, HeadingOf;
    assert (lines + [line])[..|lines|] == lines;
  }

  /** Inside a fence a line that is not its like changes nothing; its like closes it and adds no heading. */
  lemma FencedLine(u: Unicode, lines: seq<string>, line: string)
    requires OpenFence(u, lines).Some?
    ensures HeadingsOf(u, lines + [line]) == HeadingsOf(u, lines)
    ensures OpenFence(u, lines + [line]) == if FenceOf(u, line) == OpenFence(u, lines) then None else OpenFence(u, lines)
  {
    hide FenceOf, HeadingOf;
    assert (lines + [line])[..|lines|] == lines;
    assert HeadingsOf(u, lines) + [] == HeadingsOf(u, lines);
  }

  lemma {:induction false} FenceStaysOpen(u: Unicode, lines: seq<string>, open: string, body: seq<string>)
    requires OpenFence(u, lines).None? && FenceOf(u, open).Some?
    requires forall i :: 0 <= i < |body| ==> FenceOf(u, body[i]) != FenceOf(u, open)
    ensures OpenFence(u, lines + [open] + body) == FenceOf(u, open)
    ensures HeadingsOf(u, lines + [open] + body) == HeadingsOf(u, lines)
  {
    hide FenceOf, HeadingOf, OpenFence, HeadingsOf;
    if body == [] {
      assert lines + [open] + body == lines + [open];
      HeadingIsFound(u, lines, open);
      assert HeadingsOf(u, lines) + [] == HeadingsOf(u, lines);
    } else {
      var front, last := body[..|body| - 1], body[|body| - 1];
      FenceStaysOpen(u, lines, open, front);
      FencedLine(u, lines + [open] + front, last);
      assert lines + [open] + front + [last] == lines + [open] + body;
    }
  }

  /** A fenced block hides its lines up to the next fence of the same kind, whatever other fences it has, and then is over. */
  lemma FencedBlockIsHidden(u: Unicode, lines: seq<string>, open: string, body: seq<string>, close: string)
    requires OpenFence(u, lines).None? && FenceOf(u, open).Some? && FenceOf(u, close) == FenceOf(u, open)
    requires forall i :: 0 <= i < |body| ==> FenceOf(u, body[i]) != FenceOf(u, open)
    ensures var all := lines + [open] + body + [close];
            OpenFence(u, all).None? && HeadingsOf(u, all) == HeadingsOf(u, lines)
  {
    hide FenceOf, HeadingOf, OpenFence, HeadingsOf;
    FenceStaysOpen(u, lines, open, body);
    FencedLine(u, lines + [open] + body, close);
  }

  // ----- anchors ------------------------------------------------------------------------------------------

  /** The number a decimal numeral spells. */
  function Value(s: string): int {
    if s == "" then 0 else 10 * Value(s[..|s| - 1]) + (s[|s| - 1] as int - '0' as int)
  }

  lemma DigitSpells(d: nat)
    requires d < 10
    ensures "0123456789"[d] as int == '0' as int + d
  {
  }

  lemma ValueOfMore(s: string, c: char)
    ensures Value(s + [c]) == 10 * Value(s) + (c as int - '0' as int)
  {
    assert (s + [c])[..|s|] == s;
  }

  lemma {:induction false} DecimalSpells(n: nat)
    ensures Value(Decimal(n)) == n && Decimal(n) != "" && (n > 0 ==> Decimal(n)[0] != '0')
  {
    var front := if n < 10 then "" else Decimal(n / 10);
    if n >= 10 {
      DecimalSpells(n / 10);
    }
    DigitSpells(n % 10);
    assert Decimal(n) == front + ["0123456789"[n % 10]];
    ValueOfMore(front, "0123456789"[n % 10]);
    hide Decimal;
    if n < 10 {
      assert Value("") == 0;
    }
  }

  /** The earlier headings with the same slug. */
  function Earlier(u: Unicode, hs: seq<Heading>, i: nat): set<nat>
    requires i < |hs|
  {
    set k: nat | k < i && Slugify(u, hs[k].title) == Slugify(u, hs[i].title)
  }

  function WithSlug(u: Unicode, hs: seq<Heading>, slug: string): set<nat> {
    set k: nat | k < |hs| && Slugify(u, hs[k].title) == slug
  }

  lemma OneMoreWithSlug(u: Unicode, hs: seq<Heading>, slug: string)
    requires hs != []
    ensures var n := |hs| - 1;
            WithSlug(u, hs, slug) == WithSlug(u, hs[..n], slug) + if Slugify(u, hs[n].title) == slug then {n} else {}
    ensures |hs| - 1 !in WithSlug(u, hs[..|hs| - 1], slug)
  {
    hide Slugify;
  }

  lemma {:induction false} SeenCounts(u: Unicode, hs: seq<Heading>, slug: string)
    ensures Seen(u, hs, slug) == |WithSlug(u, hs, slug)|
  {
    hide Slugify, WithSlug;
    if hs == [] {
      NoneWithSlug(u, slug);
    } else {
      SeenCounts(u, hs[..|hs| - 1], slug);
      OneMoreWithSlug(u, hs, slug);
      assert WithSlug(u, hs[..|hs| - 1], slug) + {} == WithSlug(u, hs[..|hs| - 1], slug);
    }
  }

  lemma NoneWithSlug(u: Unicode, slug: string)
    ensures WithSlug(u, [], slug) == {}
  {
  }

  lemma {:induction false} EntryAt(u: Unicode, hs: seq<Heading>, i: nat)
    requires i < |hs|
    ensures |EntriesOf(u, hs)| == |hs| && EntriesOf(u, hs)[i] == EntryOf(u, hs[..i], hs[i])
  {
    hide EntryOf;
    EntriesAreAsMany(u, hs[..|hs| - 1]);
    if i < |hs| - 1 {
      EntryAt(u, hs[..|hs| - 1], i);
      assert hs[..|hs| - 1][..i] == hs[..i];
    }
  }

  lemma {:induction false} EntriesAreAsMany(u: Unicode, hs: seq<Heading>)
    ensures |EntriesOf(u, hs)| == |hs|
  {
    if hs != [] {
      EntriesAreAsMany(u, hs[..|hs| - 1]);
    }
  }

  /** The anchor of a heading: its slug, and when earlier headings have that slug, a dash and their number. */
  lemma AnchorsAreNumbered(u: Unicode, hs: seq<Heading>, i: nat)
    requires i < |hs|
    ensures var es, slug, n := EntriesOf(u, hs), Slugify(u, hs[i].title), |Earlier(u, hs, i)|;
            && |es| == |hs| && es[i].level == hs[i].level
            && (n == 0 ==> es[i].slug == slug)
            && (n > 0 ==> slug + "-" <= es[i].slug && Value(es[i].slug[|slug| + 1..]) == n && es[i].slug[|slug| + 1..] == Decimal(n))
  {
    hide Slugify, EntriesOf, Decimal, Label;
    var slug, n := Slugify(u, hs[i].title), |Earlier(u, hs, i)|;
    EntryAt(u, hs, i);
    SeenCounts(u, hs[..i], slug);
    assert Earlier(u, hs, i) == WithSlug(u, hs[..i], slug);
    DecimalSpells(n);
    if n > 0 {
      assert EntriesOf(u, hs)[i].slug == (slug + "-") + Decimal(n);
      assert EntriesOf(u, hs)[i].slug[..|slug| + 1] == slug + "-";
    }
  }

  /** Headings that repeat a slug get different anchors. */
  lemma RepeatedHeadingsDiffer(u: Unicode, hs: seq<Heading>, i: nat, j: nat)
    requires i < j < |hs| && Slugify(u, hs[i].title) == Slugify(u, hs[j].title)
    ensures |EntriesOf(u, hs)| == |hs| && EntriesOf(u, hs)[i].slug != EntriesOf(u, hs)[j].slug
  {
    AnchorsAreNumbered(u, hs, i);
    AnchorsAreNumbered(u, hs, j);
    hide Slugify, EntriesOf, Value, Decimal;
    var a, b := Earlier(u, hs, i), Earlier(u, hs, j);
    assert i in b && a <= b;
    Fewer(a, b, i);
  }

  lemma Fewer(a: set<nat>, b: set<nat>, i: nat)
    requires a <= b && i in b && i !in a
    ensures |a| < |b|
  {
    assert b == a + (b - a);
    assert i in b - a;
  }

  /** A repeated heading's number can still be another heading's slug: then the two anchors coincide. */
  lemma NumberedAnchorCanCoincide(u: Unicode, a: Heading, b: Heading)
    requires Slugify(u, b.title) == Slugify(u, a.title) + "-1"
    ensures var es := EntriesOf(u, [a, a, b]); |es| == 3 && es[1].slug == es[2].slug
  {
    hide Slugify, EntriesOf, Value, Decimal;
    var hs, slug := [a, a, b], Slugify(u, a.title);
    AnchorsAreNumbered(u, hs, 1);
    AnchorsAreNumbered(u, hs, 2);
    EarlierOfThree(u, a, b);
    DecimalOfOne();
    var es := EntriesOf(u, hs);
    assert es[1].slug == slug + "-" + es[1].slug[|slug| + 1..];
  }

  lemma DecimalOfOne()
    ensures Decimal(1) == "1"
  {
  }

  lemma EarlierOfThree(u: Unicode, a: Heading, b: Heading)
    requires Slugify(u, b.title) == Slugify(u, a.title) + "-1"
    ensures |Earlier(u, [a, a, b], 1)| == 1 && |Earlier(u, [a, a, b], 2)| == 0
  {
    hide Slugify;
    assert |Slugify(u, b.title)| == |Slugify(u, a.title)| + 2;
    assert Earlier(u, [a, a, b], 1) == {0};
    assert Earlier(u, [a, a, b], 2) == {};
  }

  // ----- slugs ----------------------------------------------------------------------------------------------

  /** Text without a tag is as it was; a tag goes from its opening bracket to the next closing one. */
  lemma {:induction false} TagsAreStripped(text: string, name: string, rest: string)
    requires '<' !in text && name != "" && '>' !in name
    ensures StripTags(text) == text && StripTags(text + "<" + name + ">" + rest) == text + StripTags(rest)
    decreases |text|
  {
    var all := text + "<" + name + ">" + rest;
    if text == "" {
      assert all == "<" + name + ">" + rest;
      TagEndsAtFirst(all, 1, |name| + 1);
      assert all[|name| + 2..] == rest;
    } else {
      assert all[1..] == text[1..] + "<" + name + ">" + rest;
      TagsAreStripped(text[1..], name, rest);
    }
  }

  lemma {:induction false} TagEndsAtFirst(s: string, from: nat, at: nat)
    requires from <= at < |s| && s[at] == '>' && forall i :: from <= i < at ==> s[i] != '>'
    ensures TagEnd(s, from) == Some(at)
    decreases at - from
  {
    if from < at {
      TagEndsAtFirst(s, from + 1, at);
    }
  }

  /** Words and the separators between them. */
  function Spaced(words: seq<string>, gaps: seq<string>): string
    requires |gaps| == |words|
  {
    if words == [] then "" else words[0] + (if |words| == 1 then "" else gaps[0] + Spaced(words[1..], gaps[1..]))
  }

  function Dashed(words: seq<string>): string {
    if words == [] then "" else words[0] + (if |words| == 1 then "" else "-" + Dashed(words[1..]))
  }

  const MODIFIERS := ['\U{200d}', '\U{fe0e}', '\U{fe0f}']

  /** Words of word characters, and gaps of blanks and dashes. */
  ghost predicate Plain(u: Unicode, words: seq<string>, gaps: seq<string>) {
    && |gaps| == |words|
    && (forall i :: 0 <= i < |words| ==> words[i] != "" && All(words[i], c => u.word(c) && !u.space(c) && c != '-' && c !in MODIFIERS))
    && (forall i :: 0 <= i < |gaps| ==> gaps[i] != "" && All(gaps[i], c => (u.space(c) || c == '-') && c !in MODIFIERS))
  }

  lemma {:induction false} CollapseOfWord(u: Unicode, word: string, rest: string)
    requires All(word, c => !Separates(u, c))
    ensures Collapse(u, word + rest) == word + Collapse(u, rest)
  {
    if word == "" {
      assert word + rest == rest;
    } else {
      assert (word + rest)[1..] == word[1..] + rest;
      CollapseOfWord(u, word[1..], rest);
    }
  }

  lemma {:induction false} CollapseOfGap(u: Unicode, gap: string, rest: string)
    requires gap != "" && All(gap, c => Separates(u, c)) && rest != "" && !Separates(u, rest[0])
    ensures Collapse(u, gap + rest) == "-" + Collapse(u, rest)
  {
    assert (gap + rest)[1..] == gap[1..] + rest;
    if |gap| == 1 {
      assert gap[1..] + rest == rest;
    } else {
      CollapseOfGap(u, gap[1..], rest);
    }
  }

  lemma {:induction false} CollapseDashes(u: Unicode, words: seq<string>, gaps: seq<string>)
    requires Plain(u, words, gaps)
    ensures Collapse(u, Spaced(words, gaps)) == Dashed(words)
    ensures words != [] ==> Spaced(words, gaps) != "" && !Separates(u, Spaced(words, gaps)[0])
    decreases |words|
  {
    if words != [] {
      var rest := if |words| == 1 then "" else gaps[0] + Spaced(words[1..], gaps[1..]);
      CollapseOfWord(u, words[0], rest);
      if |words| > 1 {
        CollapseDashes(u, words[1..], gaps[1..]);
        CollapseOfGap(u, gaps[0], Spaced(words[1..], gaps[1..]));
      }
    }
  }

  lemma {:induction false} SpacedIsKept(u: Unicode, words: seq<string>, gaps: seq<string>)
    requires Plain(u, words, gaps)
    ensures All(Spaced(words, gaps), c => (u.word(c) || u.space(c) || c == '-') && c !in MODIFIERS)
    decreases |words|
  {
    if |words| > 1 {
      SpacedIsKept(u, words[1..], gaps[1..]);
    }
  }

  lemma {:induction false} DashedEnds(u: Unicode, words: seq<string>, gaps: seq<string>)
    requires Plain(u, words, gaps) && words != []
    ensures var s := Dashed(words); s != "" && s[0] != '-' && s[|s| - 1] != '-'
    decreases |words|
  {
    if |words| > 1 {
      DashedEnds(u, words[1..], gaps[1..]);
    }
  }

  /** The characters a slug is made from: word characters, blanks and dashes, emoji modifiers aside. */
  predicate Kept(u: Unicode, c: char) { c !in MODIFIERS && (u.word(c) || u.space(c) || c == '-') }

  lemma {:induction false} FilterTwice(s: string, p: char -> bool, q: char -> bool, both: char -> bool)
    requires forall c :: both(c) <==> p(c) && q(c)
    ensures Filter(Filter(s, p), q) == Filter(s, both)
  {
    if s != [] {
      FilterTwice(s[1..], p, q, both);
      var head := if p(s[0]) then [s[0]] else [];
      FilterOfMore(head, Filter(s[1..], p), q);
      assert head != [] ==> Filter(head, q) == if q(s[0]) then [s[0]] else [];
    }
  }

  lemma {:induction false} CollapseOfGapAlone(u: Unicode, gap: string)
    requires All(gap, c => Separates(u, c))
    ensures Collapse(u, gap) == if gap == "" then "" else "-"
  {
    if |gap| > 1 {
      CollapseOfGapAlone(u, gap[1..]);
    }
  }

  lemma {:induction false} CollapseWithTail(u: Unicode, words: seq<string>, gaps: seq<string>, trail: string)
    requires Plain(u, words, gaps) && words != [] && All(trail, c => Separates(u, c))
    ensures Collapse(u, Spaced(words, gaps) + trail) == Dashed(words) + (if trail == "" then "" else "-")
    ensures Spaced(words, gaps) != "" && !Separates(u, Spaced(words, gaps)[0])
    decreases |words|
  {
    var word := words[0];
    if |words| == 1 {
      assert Spaced(words, gaps) == word && Dashed(words) == word;
      CollapseOfWord(u, word, trail);
      CollapseOfGapAlone(u, trail);
    } else {
      var rest := Spaced(words[1..], gaps[1..]);
      CollapseWithTail(u, words[1..], gaps[1..], trail);
      assert (word + (gaps[0] + rest)) + trail == word + (gaps[0] + (rest + trail));
      CollapseOfWord(u, word, gaps[0] + (rest + trail));
      CollapseOfGap(u, gaps[0], rest + trail);
      var end := if trail == "" then "" else "-";
      assert word + ("-" + (Dashed(words[1..]) + end)) == (word + ("-" + Dashed(words[1..]))) + end;
    }
  }

  lemma TrimOfDashes(s: string, a: string, b: string)
    requires s != "" && s[0] != '-' && s[|s| - 1] != '-' && a in {"", "-"} && b in {"", "-"}
    ensures Trim(a + s + b, c => c == '-') == s
  {
    var drop := (c: char) => c == '-';
    assert Trim(s, drop) == s;
    assert b == "-" ==> (s + b)[..|s + b| - 1] == s;
    assert b == "" ==> s + b == s;
    assert Trim(s + b, drop) == s;
    assert a == "-" ==> (a + s + b)[1..] == s + b;
    assert a == "" ==> a + s + b == s + b;
  }

  /**
   The slug of a title: whatever its tags, punctuation and emoji modifiers, if what is kept of
   it in lower case reads as words with blanks or dashes between and around, the slug is those
   words with single dashes between.
   */
  lemma SlugJoinsWords(u: Unicode, title: string, lead: string, words: seq<string>, gaps: seq<string>, trail: string)
    requires Plain(u, words, gaps) && words != [] && All(lead, c => Separates(u, c)) && All(trail, c => Separates(u, c))
    requires Filter(u.lower(StripTags(title)), c => Kept(u, c)) == lead + Spaced(words, gaps) + trail
    ensures Slugify(u, title) == Dashed(words)
  {
    hide *;
    SlugOfKept(u, title);
    var a, b := CollapseAround(u, lead, words, gaps, trail);
    DashedEnds(u, words, gaps);
    TrimOfDashes(Dashed(words), a, b);
  }

  lemma CollapseAround(u: Unicode, lead: string, words: seq<string>, gaps: seq<string>, trail: string) returns (a: string, b: string)
    requires Plain(u, words, gaps) && words != [] && All(lead, c => Separates(u, c)) && All(trail, c => Separates(u, c))
    ensures a in {"", "-"} && b in {"", "-"} && Collapse(u, lead + Spaced(words, gaps) + trail) == a + Dashed(words) + b
  {
    hide Collapse, Spaced, Dashed, Separates;
    CollapseWithTail(u, words, gaps, trail);
    var body := Spaced(words, gaps) + trail;
    assert lead + Spaced(words, gaps) + trail == lead + body;
    a, b := if lead == "" then "" else "-", if trail == "" then "" else "-";
    if lead == "" {
      assert lead + body == body;
      assert a + Dashed(words) + b == Dashed(words) + b;
    } else {
      CollapseOfGap(u, lead, body);
      assert a + Dashed(words) + b == "-" + (Dashed(words) + b);
    }
  }

  lemma SlugOfKept(u: Unicode, title: string)
    ensures Slugify(u, title) == Trim(Collapse(u, Filter(u.lower(StripTags(title)), c => Kept(u, c))), c => c == '-')
  {
    hide Collapse, StripTags, Trim, Filter;
    var text := u.lower(StripTags(title));
    FilterTwice(text, c => c !in ['\U{200d}', '\U{fe0e}', '\U{fe0f}'], c => u.word(c) || u.space(c) || c == '-', c => Kept(u, c));
  }

  lemma {:induction false} TrimsBehind(text: string, behind: string, drop: char -> bool)
    requires All(behind, drop) && text != "" && !drop(text[0]) && !drop(text[|text| - 1])
    ensures Trim(text + behind, drop) == text
    decreases |behind|
  {
    var all := text + behind;
    if behind == "" {
      assert all == text;
    } else {
      TrimsBehind(text, behind[..|behind| - 1], drop);
      assert all[..|all| - 1] == text + behind[..|behind| - 1];
    }
  }

  lemma {:induction false} TrimsBlanks(before: string, text: string, behind: string, drop: char -> bool)
    requires All(before, drop) && All(behind, drop) && text != "" && !drop(text[0]) && !drop(text[|text| - 1])
    ensures Trim(before + text + behind, drop) == text
    decreases |before|
  {
    if before == "" {
      TrimsBehind(text, behind, drop);
      assert before + text + behind == text + behind;
    } else {
      TrimsBlanks(before[1..], text, behind, drop);
      assert (before + text + behind)[1..] == before[1..] + text + behind;
    }
  }

  /** The caption of an entry is its title without tags and outer blanks. */
  lemma CaptionIsTrimmed(u: Unicode, listed: seq<Heading>, h: Heading, before: string, text: string, behind: string)
    requires StripTags(h.title) == before + text + behind
    requires All(before, u.space) && All(behind, u.space) && text != "" && !u.space(text[0]) && !u.space(text[|text| - 1])
    ensures EntryOf(u, listed, h).caption == text
  {
    TrimsBlanks(before, text, behind, u.space);
    hide StripTags, Slugify, Seen, Trim, Decimal;
  }

  // ----- items and the list -----------------------------------------------------------------------------------

  /** The list leaves out the first level-one heading and no other. */
  lemma {:induction false} OnlyTheTitleIsLeftOut(hs: seq<Heading>, i: nat)
    requires i <= |hs| && forall k :: 0 <= k < i ==> hs[k].level != 1
    requires i < |hs| ==> hs[i].level == 1
    ensures WithoutTitle(hs) == if i < |hs| then hs[..i] + hs[i + 1..] else hs
  {
    hide WithoutTitle;
    if hs == [] {
      NothingLeftOut();
    } else {
      var n := |hs| - 1;
      var front := hs[..n];
      WithoutTitleOfMore(front, hs[n]);
      assert front + [hs[n]] == hs;
      if i < n {
        OnlyTheTitleIsLeftOut(front, i);
        assert HasLevelOne(front) by { assert front[i].level == 1; }
        assert front[..i] == hs[..i] && front[i + 1..] + [hs[n]] == hs[i + 1..];
      } else {
        OnlyTheTitleIsLeftOut(front, n);
        if i == n {
          assert hs[n + 1..] == [];
        }
      }
    }
  }

  lemma NothingLeftOut()
    ensures WithoutTitle([]) == []
  {
  }

  /** An item: two blanks per level below the second, the bullet of its depth, the caption and the link. */
  lemma ItemReads(e: Entry, depth: nat, indent: string)
    requires e.level == depth + 2 && |indent| == 2 * depth && All(indent, c => c == ' ')
    ensures ItemOf(e) ==
              indent + (if depth % 3 == 0 then "-" else if depth % 3 == 1 then "*" else "+") + " [" + e.caption + "](#" + e.slug + ")"
  {
    assert Spaces(2 * depth) == indent;
  }

  /** The document is cut after the first line with the start marker and before the next with the end marker; with either missing it is not. */
  lemma DocumentIsCutAtItsMarkers(lines: seq<string>, i: nat, j: nat)
    requires i < j < |lines| && Contains(lines[i], "<!-- toc -->") && Contains(lines[j], "<!-- tocstop -->")
    requires forall k :: 0 <= k < i ==> !Contains(lines[k], "<!-- toc -->")
    requires forall k :: i < k < j ==> !Contains(lines[k], "<!-- tocstop -->")
    ensures CutAt(lines) == Some(Cut(lines[..i + 1], lines[i + 1..j], lines[j..]))
  {
    hide Contains;
  }

  /** A start marker with an end marker on a later line. */
  ghost predicate HasMarkers(lines: seq<string>) {
    exists i, j :: 0 <= i < j < |lines| && Contains(lines[i], "<!-- toc -->") && Contains(lines[j], "<!-- tocstop -->")
  }

  lemma CutIffMarked(lines: seq<string>)
    ensures CutAt(lines).Some? <==> HasMarkers(lines)
  {
    hide Contains;
    var start := FirstWith(lines, TOC_START, 0);
    if start.Some? {
      var end := FirstWith(lines, TOC_END, start.value + 1);
      if end.Some? {
        assert Contains(lines[start.value], "<!-- toc -->") && Contains(lines[end.value], "<!-- tocstop -->");
      }
    }
  }

  /** A document without both markers is returned as it is. */
  lemma UnmarkedDocumentIsKept(u: Unicode, text: string)
    requires !HasMarkers(SplitLines(text))
    ensures Updated(u, text) == text
  {
    CutIffMarked(SplitLines(text));
    hide SplitLines, CutAt, HasMarkers;
  }

  /** A rewritten document ends in a newline if it did; and not if it did not, unless its last line is empty. */
  lemma FinalNewlineIsKept(u: Unicode, text: string)
    requires text != ""
    ensures EndsInNewline(text) ==> EndsInNewline(Updated(u, text))
    ensures var lines := SplitLines(text);
            !EndsInNewline(text) && lines != [] && lines[|lines| - 1] != "" && Unbroken(lines[|lines| - 1]) ==> !EndsInNewline(Updated(u, text))
  {
    hide SplitLines, TocOf, IsBreak;
    var lines := SplitLines(text);
    var c := CutAt(lines);
    if c.Some? {
      var parts := c.value.head + ([""] + TocOf(u, lines) + [""]) + c.value.tail;
      TailEndsTheLines(lines);
      hide CutAt;
      JoinEndsInItsLast(parts);
      assert parts[|parts| - 1] == lines[|lines| - 1];
      assert Updated(u, text) == JoinLines(parts) + Newline(text);
      if lines[|lines| - 1] != "" && Unbroken(lines[|lines| - 1]) {
        NewlineIsABreak(lines[|lines| - 1]);
      }
    }
  }

  lemma NewlineIsABreak(line: string)
    requires Unbroken(line) && line != ""
    ensures line[|line| - 1] != '\n'
  {
  }

  lemma TailEndsTheLines(lines: seq<string>)
    requires CutAt(lines).Some?
    ensures var tail := CutAt(lines).value.tail; tail != [] && tail[|tail| - 1] == lines[|lines| - 1]
  {
    hide Contains;
  }

  lemma {:induction false} JoinEndsInItsLast(lines: seq<string>)
    requires lines != []
    ensures var last := lines[|lines| - 1]; last != "" ==> JoinLines(lines) != "" && JoinLines(lines)[|JoinLines(lines)| - 1] == last[|last| - 1]
  {
    if |lines| > 1 {
      JoinEndsInItsLast(lines[1..]);
    }
  }
}
