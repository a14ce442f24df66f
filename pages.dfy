/** The helpers the static-page build applies to MDX sources
    (src/build.js, packages/lib/build.js, packages/lib/mdx.js): the output
    path of a page, the title taken from its first `#` heading, the reserved
    `_`-prefixed files, and the page list `collect` gathers for the sitemap. */
module Pages {
  import opened Text
  import opened DirTree
  import opened Json

  /* ---------------- output paths ---------------- */

  /** `/\.mdx$/i.test(p)`: the `i` flag without `u` folds ASCII letters only. */
  predicate IsMdx(p: string) {
    EndsWith(Lower(p), ".mdx")
  }

  /** `rel.replace(/\.mdx$/i, '.html')`: only a final `.mdx`, in any letter
      case, becomes `.html`. */
  function ReplaceMdxSuffix(rel: string): (r: string)
    ensures IsMdx(rel) ==> r == rel[..|rel| - 4] + ".html"
    ensures !IsMdx(rel) ==> r == rel
  {
    if IsMdx(rel) then rel[..|rel| - 4] + ".html" else rel
  }

  /** `mapOutPath(filePath)`: the content-relative path `rel`, with its
      extension mapped, placed under the output directory. */
  function MapOutPath(outDir: string, rel: string): string {
    Join(outDir, ReplaceMdxSuffix(rel))
  }

  /** Any spelling of the `.mdx` extension maps to `.html` with the stem kept. */
  lemma MdxBecomesHtml(stem: string, ext: string)
    requires |ext| == 4 && Lower(ext) == ".mdx"
    ensures ReplaceMdxSuffix(stem + ext) == stem + ".html"
  {
    var p := stem + ext;
    assert p[|p| - 4..] == ext;
    LowerSuffix(p, 4);
    assert IsMdx(p);
    assert p[..|p| - 4] == stem;
  }

  lemma LowerSuffix(p: string, n: nat)
    requires n <= |p|
    ensures Lower(p)[|p| - n..] == Lower(p[|p| - n..])
  {
    var a := Lower(p)[|p| - n..];
    var b := Lower(p[|p| - n..]);
    forall t | 0 <= t < n
      ensures a[t] == b[t]
    {
      assert p[|p| - n..][t] == p[|p| - n + t];
    }
  }

  /** Mapping is idempotent: an `.html` path is left alone. */
  lemma ReplaceMdxIdempotent(rel: string)
    ensures ReplaceMdxSuffix(ReplaceMdxSuffix(rel)) == ReplaceMdxSuffix(rel)
  {
    var r := ReplaceMdxSuffix(rel);
    if IsMdx(rel) {
      assert r[|r| - 4] == 'h';
      assert Lower(r)[|r| - 4..][0] == 'h';
    }
  }

  /** `.mdx` in the middle of a name is not an extension: `a.mdx.txt` keeps its name. */
  lemma InnerMdxKept(stem: string, rest: string)
    requires |rest| >= 4 && rest[|rest| - 4..] == ".txt"
    ensures ReplaceMdxSuffix(stem + ".mdx" + rest) == stem + ".mdx" + rest
  {
    var p := stem + ".mdx" + rest;
    assert p[|p| - 3] == rest[|rest| - 4..][1] == 't';
    assert Lower(p)[|p| - 4..][1] == 't';
  }

  /* ---------------- reserved files ---------------- */

  /** `isReservedFile(p)`: the base name starts with `_`. */
  predicate IsReservedFile(p: string) {
    StartsWith(Basename(p), "_")
  }

  /** Only the last segment decides: a `_` directory above does not reserve
      a file, a `_` file name does. */
  lemma ReservedByName(dir: string, name: string)
    requires name != [] && '/' !in name
    ensures IsReservedFile(Join(dir, name)) <==> name[0] == '_'
  {
    BasenameOfJoin(dir, name);
  }

  /* ---------------- extractTitle ---------------- */

  /** End of the run of `\s` characters starting at `i`. */
  function SpaceRun(s: string, i: nat): (j: nat)
    requires i <= |s|
    ensures i <= j <= |s|
    ensures forall k :: i <= k < j ==> IsSpace(s[k])
    ensures j == |s| || !IsSpace(s[j])
    decreases |s| - i
  {
    if i < |s| && IsSpace(s[i]) then SpaceRun(s, i + 1) else i
  }

  /** End of the line containing position `i`: the next line terminator or the end. */
  function LineEnd(s: string, i: nat): (j: nat)
    requires i <= |s|
    ensures i <= j <= |s|
    ensures forall k :: i <= k < j ==> !IsLineTerminator(s[k])
    ensures j == |s| || IsLineTerminator(s[j])
    decreases |s| - i
  {
    if i < |s| && !IsLineTerminator(s[i]) then LineEnd(s, i + 1) else i
  }

  /** `(.+)\s*$` after `#` and at least one `\s`: the text group starts at
      `r`; the regex tries the longest `\s+` first and gives back one space at
      a time (`lo` is the position right after `#`). `.+` then runs to the end
      of its line, where `\s*$` always succeeds. */
  function TextGroup(s: string, lo: nat, r: nat): (g: Option<string>)
    requires lo <= r <= |s|
    ensures g.Some? ==> g.value != [] && forall k :: 0 <= k < |g.value| ==> !IsLineTerminator(g.value[k])
    ensures g.Some? ==> exists k: nat :: lo < k <= r && OccursAt(s, g.value, k)
    decreases r
  {
    if r <= lo then None
    else if r < |s| && !IsLineTerminator(s[r]) then
      var e := LineEnd(s, r);
      assert s[r..e][0] == s[r];
      assert OccursAt(s, s[r..e], r);
      Some(s[r..e])
    else TextGroup(s, lo, r - 1)
  }

  /** The match of `\s*#\s+(.+)\s*$` starting at `p`: the leading `\s*` has
      to end right at the `#`, so it is the whole run of spaces from `p`. */
  function HeadingAt(s: string, p: nat): Option<string>
    requires p <= |s|
  {
    var q := SpaceRun(s, p);
    if q < |s| && s[q] == '#' then TextGroup(s, q + 1, SpaceRun(s, q + 1)) else None
  }

  /** `^` under the `m` flag: the start of the text or of a line. */
  predicate IsLineStart(s: string, p: nat)
    requires p <= |s|
  {
    p == 0 || IsLineTerminator(s[p - 1])
  }

  /** The first (leftmost) match at or after `p`; the match is not global. */
  function FirstHeading(s: string, p: nat): (g: Option<string>)
    requires p <= |s|
    decreases |s| - p
  {
    var here := if IsLineStart(s, p) then HeadingAt(s, p) else None;
    if here.Some? || p == |s| then here else FirstHeading(s, p + 1)
  }

  /** `extractTitle(mdxSource)`: the trimmed text of the first `# ` heading,
      or "Untitled". */
  function ExtractTitle(source: string): string {
    match FirstHeading(source, 0)
    case None => "Untitled"
    case Some(g) => Trim(g)
  }

  /** A text group is a piece of the source. */
  lemma TextGroupIsPiece(s: string, lo: nat, r: nat)
    requires lo <= r <= |s|
    ensures var g := TextGroup(s, lo, r);
      g.Some? ==> Contains(s, g.value)
  {
    var g := TextGroup(s, lo, r);
    if g.Some? {
      var k: nat :| lo < k <= r && OccursAt(s, g.value, k);
      ContainsAt(s, g.value, k);
    }
  }

  /** A heading found at one position is a non-empty piece of the source
      within one line. */
  lemma HeadingAtIsPiece(s: string, p: nat)
    requires p <= |s|
    ensures var h := HeadingAt(s, p);
      h.Some? ==> h.value != [] && Contains(s, h.value)
                  && forall k :: 0 <= k < |h.value| ==> !IsLineTerminator(h.value[k])
  {
    var q := SpaceRun(s, p);
    if q < |s| && s[q] == '#' {
      var g := TextGroup(s, q + 1, SpaceRun(s, q + 1));
      assert HeadingAt(s, p) == g;
      TextGroupIsPiece(s, q + 1, SpaceRun(s, q + 1));
    } else {
      assert HeadingAt(s, p).None?;
    }
  }

  lemma {:induction false} HeadingIsPieceOfSource(s: string, p: nat)
    requires p <= |s|
    ensures var g := FirstHeading(s, p);
      g.Some? ==> g.value != [] && Contains(s, g.value)
                  && forall k :: 0 <= k < |g.value| ==> !IsLineTerminator(g.value[k])
    decreases |s| - p
  {
    if IsLineStart(s, p) && HeadingAt(s, p).Some? {
      HeadingAtIsPiece(s, p);
    } else if p < |s| {
      HeadingIsPieceOfSource(s, p + 1);
    }
  }

  /** The title is the heading found, trimmed: it occurs in the source and
      has no space at either end. */
  lemma TitleIsTrimmedPiece(source: string)
    requires FirstHeading(source, 0).Some?
    ensures var t := ExtractTitle(source);
      (t == [] || (!IsSpace(t[0]) && !IsSpace(t[|t| - 1]))) && Contains(source, t)
  {
    var g := FirstHeading(source, 0).value;
    HeadingIsPieceOfSource(source, 0);
    TrimBounds(g);
    ContainsTrans(source, g, Trim(g));
  }

  /** Without a `#` anywhere there is no title. */
  lemma {:induction false} NoHashNoHeading(s: string, p: nat)
    requires p <= |s| && '#' !in s
    ensures FirstHeading(s, p).None?
    decreases |s| - p
  {
    if p < |s| {
      NoHashNoHeading(s, p + 1);
    }
  }

  lemma NoHashUntitled(s: string)
    requires '#' !in s
    ensures ExtractTitle(s) == "Untitled"
  {
    NoHashNoHeading(s, 0);
  }

  /** `## Sub` is no title: the second `#` is not the space `#\s+` needs. */
  lemma DoubleHashIsNotTitle()
    ensures ExtractTitle("## Sub") == "Untitled"
  {
    var s := "## Sub";
    assert SpaceRun(s, 0) == 0;
    assert SpaceRun(s, 1) == 1;
    assert HeadingAt(s, 0).None?;
    forall p | 1 <= p <= |s| ensures !IsLineStart(s, p) {
      assert !IsLineTerminator(s[p - 1]);
    }
    assert FirstHeading(s, 6).None?;
    assert FirstHeading(s, 5).None?;
    assert FirstHeading(s, 4).None?;
    assert FirstHeading(s, 3).None?;
    assert FirstHeading(s, 2).None?;
    assert FirstHeading(s, 1).None?;
  }

  /** `\s+` also matches a line break: a lone `#` followed by a line of text
      takes that line as the title. */
  lemma HashThenNewline(t: string)
    requires t != [] && !IsSpace(t[0])
    requires forall k :: 0 <= k < |t| ==> !IsLineTerminator(t[k])
    ensures ExtractTitle("#\n" + t) == Trim(t)
  {
    var s := "#\n" + t;
    assert s[0] == '#' && s[1] == '\n' && s[2] == t[0];
    assert SpaceRun(s, 0) == 0;
    assert SpaceRun(s, 1) == 2 by {
      assert IsSpace(s[1]);
      assert SpaceRun(s, 2) == 2;
    }
    LineEndOf(s, 2, |s|);
    assert s[2..|s|] == t;
    assert TextGroup(s, 1, 2) == Some(t);
  }

  /** A first line `# <text>` gives its text, trimmed, whatever follows. */
  lemma FirstLineHeading(t: string, rest: string)
    requires t != [] && !IsSpace(t[0])
    requires forall k :: 0 <= k < |t| ==> !IsLineTerminator(t[k])
    ensures ExtractTitle("# " + t + "\n" + rest) == Trim(t)
  {
    var s := "# " + t + "\n" + rest;
    assert s[0] == '#' && s[1] == ' ' && s[2] == t[0];
    assert SpaceRun(s, 0) == 0;
    assert SpaceRun(s, 1) == 2 by {
      assert IsSpace(s[1]);
      assert SpaceRun(s, 2) == 2;
    }
    LineEndOf(s, 2, 2 + |t|);
    assert s[2..2 + |t|] == t;
    assert TextGroup(s, 1, 2) == Some(t);
  }

  lemma {:induction false} LineEndOf(s: string, i: nat, e: nat)
    requires i <= e <= |s| && (e == |s| || IsLineTerminator(s[e]))
    requires forall k :: i <= k < e ==> !IsLineTerminator(s[k])
    ensures LineEnd(s, i) == e
    decreases e - i
  {
    if i < e {
      LineEndOf(s, i + 1, e);
    }
  }

  /* ---------------- collect ---------------- */

  /** `{title, href}` of a page listed for the sitemap. */
  datatype PageEntry = PageEntry(title: string, href: string)

  /** Whether `collect` lists the file at path `p`: a non-reserved `.mdx`
      file whose lowered base name is not `sitemap.mdx`. */
  predicate Listed(p: string) {
    IsMdx(p) && PageName(Basename(p))
  }

  /** A base name that is neither reserved nor the sitemap's. */
  predicate PageName(b: string) {
    !StartsWith(b, "_") && !IsSitemap(b)
  }

  /** `b.toLowerCase() === 'sitemap.mdx'`. */
  predicate IsSitemap(b: string) {
    |b| == 11 && Lower(b) == "sitemap.mdx"
  }

  /** The pages `collect(dir)` gathers from the entries of `dir`, whose path
      relative to the content directory is `relDir`: in entry order,
      sub-directories spliced in place, links and other entries ignored. */
  function CollectPages(entries: seq<Entry>, dir: string, relDir: string): seq<PageEntry>
    decreases entries
  {
    if entries == [] then []
    else
      var last := entries[|entries| - 1];
      CollectPages(entries[..|entries| - 1], dir, relDir) + CollectEntry(last, dir, relDir)
  }

  function CollectEntry(e: Entry, dir: string, relDir: string): seq<PageEntry>
    decreases e
  {
    var p := Join(dir, e.name);
    var rel := RelJoin(relDir, e.name);
    match e
    case Dir(_, children) => CollectPages(children, p, rel)
    case File(_, content) =>
      if Listed(p) then [PageEntry(ExtractTitle(content), ReplaceMdxSuffix(rel))] else []
    case Other(_) => []
  }

  /** A file directly in the content directory is listed, under its mapped
      name and the title of its text, exactly when `Listed` holds. */
  lemma TopLevelFile(contentDir: string, name: string, content: string)
    ensures CollectPages([File(name, content)], contentDir, "")
      == (if Listed(Join(contentDir, name))
          then [PageEntry(ExtractTitle(content), ReplaceMdxSuffix(name))] else [])
  {
    var es := [File(name, content)];
    CollectPagesLast(es, contentDir, "");
    assert es[..0] == [];
    FileRule(es[0], contentDir, "");
  }

  /** `sitemap.mdx`, in any letter case and in any directory, is never listed
      (it is built with the list instead), nor is a `_` file. */
  lemma SitemapAndReservedNotListed(dir: string, name: string)
    requires name != [] && '/' !in name
    requires Lower(name) == "sitemap.mdx" || name[0] == '_'
    ensures !Listed(Join(dir, name))
  {
    BasenameOfJoin(dir, name);
    assert !PageName(name) by {
      if name[0] == '_' {
        assert name[..1] == "_";
      } else {
        assert |Lower(name)| == |name| == 11;
      }
    }
  }

  lemma {:induction false} HrefsAreHtml(entries: seq<Entry>, dir: string, relDir: string)
    ensures forall i :: 0 <= i < |CollectPages(entries, dir, relDir)| ==>
      EndsWith(CollectPages(entries, dir, relDir)[i].href, ".html")
    decreases entries
  {
    if entries != [] {
      CollectPagesLast(entries, dir, relDir);
      HrefsAreHtml(entries[..|entries| - 1], dir, relDir);
      EntryHrefsAreHtml(entries[|entries| - 1], dir, relDir);
    }
  }

  /** Every href `collect` produces ends with `.html`. */
  lemma {:induction false} EntryHrefsAreHtml(e: Entry, dir: string, relDir: string)
    ensures forall i :: 0 <= i < |CollectEntry(e, dir, relDir)| ==>
      EndsWith(CollectEntry(e, dir, relDir)[i].href, ".html")
    decreases e
  {
    if e.Dir? {
      DirRule(e, dir, relDir);
      HrefsAreHtml(e.entries, Join(dir, e.name), RelJoin(relDir, e.name));
    } else if e.File? {
      FileRule(e, dir, relDir);
      MdxByName(dir, e.name);
      if relDir != "" { MdxByName(relDir, e.name); }
      HrefIsHtml(RelJoin(relDir, e.name));
    } else {
      OtherRule(e, dir, relDir);
    }
  }

  /** Whether a path has the `.mdx` extension depends on its last segment
      alone. */
  lemma MdxByName(d: string, name: string)
    ensures IsMdx(Join(d, name)) <==> IsMdx(name)
  {
    var p := Join(d, name);
    if |name| >= 4 {
      assert p[|p| - 4..] == name[|name| - 4..];
      MdxBySuffix(p, name);
    } else if |p| >= 4 {
      var j := |p| - |name| - 1;
      assert p[j] == '/';
      SlashNearEndNotMdx(p, j);
    }
  }

  /** Only the last four characters decide whether a path is `.mdx`. */
  lemma MdxBySuffix(p: string, q: string)
    requires |p| >= 4 && |q| >= 4 && p[|p| - 4..] == q[|q| - 4..]
    ensures IsMdx(p) <==> IsMdx(q)
  {
    LowerSuffix(p, 4);
    LowerSuffix(q, 4);
  }

  lemma SlashNearEndNotMdx(p: string, j: nat)
    requires |p| >= 4 && |p| - 4 <= j < |p| && p[j] == '/'
    ensures !IsMdx(p)
  {
    var tail := Lower(p)[|p| - 4..];
    assert tail[j - (|p| - 4)] == LowerChar(p[j]) == '/';
  }

  lemma HrefIsHtml(rel: string)
    ensures IsMdx(rel) ==> EndsWith(ReplaceMdxSuffix(rel), ".html")
  {
  }

  /** Exactly the listed files at any depth are collected: an entry is in
      the list exactly when some regular file below `dir` passes `Listed`,
      and the entry carries that file's title and its mapped relative path. */
  lemma {:induction false} CollectPagesExactly(entries: seq<Entry>, dir: string, relDir: string, pg: PageEntry)
    ensures pg in CollectPages(entries, dir, relDir) <==>
      exists p, r, c :: FileIn(entries, dir, relDir, p, r, c) && Listed(p)
        && pg == PageEntry(ExtractTitle(c), ReplaceMdxSuffix(r))
    decreases entries
  {
    if entries != [] {
      var n := |entries| - 1;
      var init, last := entries[..n], entries[n];
      CollectPagesLast(entries, dir, relDir);
      CollectPagesExactly(init, dir, relDir, pg);
      CollectEntryExactly(last, dir, relDir, pg);
      if exists p, r, c :: FileIn(entries, dir, relDir, p, r, c) && Listed(p)
           && pg == PageEntry(ExtractTitle(c), ReplaceMdxSuffix(r)) {
        var p, r, c :| FileIn(entries, dir, relDir, p, r, c) && Listed(p)
          && pg == PageEntry(ExtractTitle(c), ReplaceMdxSuffix(r));
        FileInLast(entries, dir, relDir, p, r, c);
      }
      if pg in CollectPages(init, dir, relDir) {
        var p, r, c :| FileIn(init, dir, relDir, p, r, c) && Listed(p)
          && pg == PageEntry(ExtractTitle(c), ReplaceMdxSuffix(r));
        FileInLast(entries, dir, relDir, p, r, c);
        assert FileIn(entries, dir, relDir, p, r, c);
      } else if pg in CollectEntry(last, dir, relDir) {
        var p, r, c :| FileInEntry(last, dir, relDir, p, r, c) && Listed(p)
          && pg == PageEntry(ExtractTitle(c), ReplaceMdxSuffix(r));
        FileInLast(entries, dir, relDir, p, r, c);
        assert FileIn(entries, dir, relDir, p, r, c);
      }
    }
  }

  lemma {:induction false} CollectEntryExactly(e: Entry, dir: string, relDir: string, pg: PageEntry)
    ensures pg in CollectEntry(e, dir, relDir) <==>
      exists p, r, c :: FileInEntry(e, dir, relDir, p, r, c) && Listed(p)
        && pg == PageEntry(ExtractTitle(c), ReplaceMdxSuffix(r))
    decreases e, 1
  {
    if e.Dir? {
      CollectDirExactly(e, dir, relDir, pg);
    } else if e.File? {
      CollectFileExactly(e, dir, relDir, pg);
    } else {
      OtherRule(e, dir, relDir);
    }
  }

  lemma {:induction false} CollectDirExactly(e: Entry, dir: string, relDir: string, pg: PageEntry)
    requires e.Dir?
    ensures pg in CollectEntry(e, dir, relDir) <==>
      exists p, r, c :: FileInEntry(e, dir, relDir, p, r, c) && Listed(p)
        && pg == PageEntry(ExtractTitle(c), ReplaceMdxSuffix(r))
    decreases e, 0
  {
    var sub, subRel := Join(dir, e.name), RelJoin(relDir, e.name);
    if exists p, r, c :: FileInEntry(e, dir, relDir, p, r, c) && Listed(p)
         && pg == PageEntry(ExtractTitle(c), ReplaceMdxSuffix(r)) {
      var p, r, c :| FileInEntry(e, dir, relDir, p, r, c) && Listed(p)
        && pg == PageEntry(ExtractTitle(c), ReplaceMdxSuffix(r));
      assert pg in CollectEntry(e, dir, relDir) by {
        assert FileIn(e.entries, sub, subRel, p, r, c);
        DirRule(e, dir, relDir);
        CollectPagesExactly(e.entries, sub, subRel, pg);
      }
    }
    if pg in CollectEntry(e, dir, relDir) {
      assert exists p, r, c :: (FileInEntry(e, dir, relDir, p, r, c) && Listed(p)
        && pg == PageEntry(ExtractTitle(c), ReplaceMdxSuffix(r))) by {
        DirRule(e, dir, relDir);
        CollectPagesExactly(e.entries, sub, subRel, pg);
        var p, r, c :| FileIn(e.entries, sub, subRel, p, r, c) && Listed(p)
          && pg == PageEntry(ExtractTitle(c), ReplaceMdxSuffix(r));
        assert FileInEntry(e, dir, relDir, p, r, c);
      }
    }
  }

  lemma CollectFileExactly(e: Entry, dir: string, relDir: string, pg: PageEntry)
    requires e.File?
    ensures pg in CollectEntry(e, dir, relDir) <==>
      exists p, r, c :: FileInEntry(e, dir, relDir, p, r, c) && Listed(p)
        && pg == PageEntry(ExtractTitle(c), ReplaceMdxSuffix(r))
  {
    if pg in CollectEntry(e, dir, relDir) {
      assert exists p, r, c :: (FileInEntry(e, dir, relDir, p, r, c) && Listed(p)
        && pg == PageEntry(ExtractTitle(c), ReplaceMdxSuffix(r))) by {
        FileRule(e, dir, relDir);
        assert FileInEntry(e, dir, relDir, Join(dir, e.name), RelJoin(relDir, e.name), e.content);
      }
    }
    if exists p, r, c :: FileInEntry(e, dir, relDir, p, r, c) && Listed(p)
         && pg == PageEntry(ExtractTitle(c), ReplaceMdxSuffix(r)) {
      var p, r, c :| FileInEntry(e, dir, relDir, p, r, c) && Listed(p)
        && pg == PageEntry(ExtractTitle(c), ReplaceMdxSuffix(r));
      assert pg in CollectEntry(e, dir, relDir) by {
        FileRule(e, dir, relDir);
      }
    }
  }

  /** `collect` splices: the pages of two runs of entries are the pages of
      the first followed by those of the second. */
  lemma {:induction false} CollectPagesAppend(a: seq<Entry>, b: seq<Entry>, dir: string, relDir: string)
    ensures CollectPages(a + b, dir, relDir) == CollectPages(a, dir, relDir) + CollectPages(b, dir, relDir)
    decreases |b|
  {
    if b == [] {
      assert a + b == a;
    } else {
      var b0 := b[..|b| - 1];
      assert (a + b)[..|a + b| - 1] == a + b0;
      assert (a + b)[|a + b| - 1] == b[|b| - 1];
      CollectPagesLast(a + b, dir, relDir);
      CollectPagesLast(b, dir, relDir);
      CollectPagesAppend(a, b0, dir, relDir);
    }
  }

  /** `collect(dir)` as the source runs it: a `pages` array the recursive
      calls push into. */
  class PageCollector {
    var pages: seq<PageEntry>

    constructor ()
      ensures pages == []
    {
      pages := [];
    }

    method Collect(entries: seq<Entry>, dir: string, relDir: string)
      modifies this
      ensures pages == old(pages) + CollectPages(entries, dir, relDir)
      decreases entries
    {
      var i := 0;
      while i < |entries|
        invariant 0 <= i <= |entries|
        invariant pages == old(pages) + CollectPages(entries[..i], dir, relDir)
      {
        ghost var done := CollectPages(entries[..i], dir, relDir);
        CollectOne(entries[i], dir, relDir);
        ghost var got := CollectEntry(entries[i], dir, relDir);
        assert pages == old(pages) + done + got;
        CollectPagesSnoc(entries, i, dir, relDir);
        assert CollectPages(entries[..i + 1], dir, relDir) == done + got;
        AppendAssoc(old(pages), done, got);
        i := i + 1;
      }
      assert entries[..|entries|] == entries;
    }

    /** One directory entry: a directory is walked, a file examined. */
    method CollectOne(e: Entry, dir: string, relDir: string)
      modifies this
      ensures pages == old(pages) + CollectEntry(e, dir, relDir)
      decreases e
    {
      if e.Dir? {
        DirRule(e, dir, relDir);
        Collect(e.entries, Join(dir, e.name), RelJoin(relDir, e.name));
      } else if e.File? {
        CollectFile(e, dir, relDir);
      } else {
        OtherRule(e, dir, relDir);
      }
    }

    /** One regular file: its text is read and titled, and it is pushed
        unless it is the sitemap page. */
    method CollectFile(e: Entry, dir: string, relDir: string)
      requires e.File?
      modifies this
      ensures pages == old(pages) + CollectEntry(e, dir, relDir)
    {
      FileRule(e, dir, relDir);
      var p := Join(dir, e.name);
      if IsMdx(p) && !IsReservedFile(p) {
        var base := Lower(Basename(p));
        var title := ExtractTitle(e.content);
        var rel := ReplaceMdxSuffix(RelJoin(relDir, e.name));
        if base != "sitemap.mdx" {
          pages := pages + [PageEntry(title, rel)];
        }
      }
    }
  }

  lemma CollectPagesLast(entries: seq<Entry>, dir: string, relDir: string)
    requires entries != []
    ensures CollectPages(entries, dir, relDir)
      == CollectPages(entries[..|entries| - 1], dir, relDir) + CollectEntry(entries[|entries| - 1], dir, relDir)
  {
  }

  lemma DirRule(e: Entry, dir: string, relDir: string)
    requires e.Dir?
    ensures CollectEntry(e, dir, relDir) == CollectPages(e.entries, Join(dir, e.name), RelJoin(relDir, e.name))
  {
  }

  lemma OtherRule(e: Entry, dir: string, relDir: string)
    requires e.Other?
    ensures CollectEntry(e, dir, relDir) == []
  {
  }

  /** The rule `collect` applies to a regular file. */
  lemma FileRule(e: Entry, dir: string, relDir: string)
    requires e.File?
    ensures CollectEntry(e, dir, relDir)
      == if Listed(Join(dir, e.name))
         then [PageEntry(ExtractTitle(e.content), ReplaceMdxSuffix(RelJoin(relDir, e.name)))]
         else []
  {
  }

  lemma CollectPagesSnoc(entries: seq<Entry>, i: nat, dir: string, relDir: string)
    requires i < |entries|
    ensures CollectPages(entries[..i + 1], dir, relDir)
      == CollectPages(entries[..i], dir, relDir) + CollectEntry(entries[i], dir, relDir)
  {
    assert entries[..i + 1][..i] == entries[..i];
  }
}
