/** The post-build check of packages/helpers/verify-build.js: every regular
    file under the output directory whose lowered path ends in `.html` is
    gathered, and the check fails when there is none. */
module VerifyBuild {
  import opened Text
  import opened DirTree
  import opened Json

  /** `p.toLowerCase().endsWith('.html')`. */
  predicate IsHtml(p: string) {
    EndsWith(Lower(p), ".html")
  }

  /** The paths `findHtmlFiles(dir)` returns for the entries of `dir`, in
      entry order, the files of a sub-directory spliced in where it is met. */
  function HtmlFiles(entries: seq<Entry>, dir: string): seq<string>
    decreases entries
  {
    if entries == [] then []
    else HtmlFiles(entries[..|entries| - 1], dir) + EntryHtmlFiles(entries[|entries| - 1], dir)
  }

  function EntryHtmlFiles(e: Entry, dir: string): seq<string>
    decreases e
  {
    var p := Join(dir, e.name);
    match e
    case Dir(_, children) => HtmlFiles(children, p)
    case File(_, _) => if IsHtml(p) then [p] else []
    case Other(_) => []
  }

  lemma HtmlFilesLast(entries: seq<Entry>, dir: string)
    requires entries != []
    ensures HtmlFiles(entries, dir)
      == HtmlFiles(entries[..|entries| - 1], dir) + EntryHtmlFiles(entries[|entries| - 1], dir)
  {
  }

  lemma HtmlFilesSnoc(entries: seq<Entry>, i: nat, dir: string)
    requires i < |entries|
    ensures HtmlFiles(entries[..i + 1], dir) == HtmlFiles(entries[..i], dir) + EntryHtmlFiles(entries[i], dir)
  {
    assert entries[..i + 1][..i] == entries[..i];
  }

  /** A file entry contributes its joined path exactly when that path ends
      in `.html` in any letter case; links and other entries contribute nothing. */
  lemma FileRule(e: Entry, dir: string)
    requires !e.Dir?
    ensures EntryHtmlFiles(e, dir) == if e.File? && IsHtml(Join(dir, e.name)) then [Join(dir, e.name)] else []
  {
  }

  lemma DirRule(e: Entry, dir: string)
    requires e.Dir?
    ensures EntryHtmlFiles(e, dir) == HtmlFiles(e.entries, Join(dir, e.name))
  {
  }

  /** Soundness: every path returned names an HTML file below `dir`. */
  lemma {:induction false} AllHtmlUnderDir(entries: seq<Entry>, dir: string)
    ensures forall i :: 0 <= i < |HtmlFiles(entries, dir)| ==>
      IsHtml(HtmlFiles(entries, dir)[i]) && StartsWith(HtmlFiles(entries, dir)[i], dir + "/")
    decreases entries
  {
    if entries != [] {
      HtmlFilesLast(entries, dir);
      AllHtmlUnderDir(entries[..|entries| - 1], dir);
      EntryAllHtmlUnderDir(entries[|entries| - 1], dir);
    }
  }

  lemma {:induction false} EntryAllHtmlUnderDir(e: Entry, dir: string)
    ensures forall i :: 0 <= i < |EntryHtmlFiles(e, dir)| ==>
      IsHtml(EntryHtmlFiles(e, dir)[i]) && StartsWith(EntryHtmlFiles(e, dir)[i], dir + "/")
    decreases e
  {
    var p := Join(dir, e.name);
    StartsWithConcat(dir + "/", e.name);
    if e.Dir? {
      DirRule(e, dir);
      AllHtmlUnderDir(e.entries, p);
      forall i | 0 <= i < |EntryHtmlFiles(e, dir)|
        ensures StartsWith(EntryHtmlFiles(e, dir)[i], dir + "/")
      {
        var q := EntryHtmlFiles(e, dir)[i];
        StartsWithConcat(p, "/");
        StartsWithTrans(p + "/", p, dir + "/");
        StartsWithTrans(q, p + "/", dir + "/");
      }
    } else {
      FileRule(e, dir);
    }
  }

  /** Completeness at the top level: an HTML file listed in `dir` is found. */
  lemma {:induction false} TopLevelHtmlFound(entries: seq<Entry>, dir: string, k: nat)
    requires k < |entries| && entries[k].File? && IsHtml(Join(dir, entries[k].name))
    ensures Join(dir, entries[k].name) in HtmlFiles(entries, dir)
    decreases |entries|
  {
    HtmlFilesLast(entries, dir);
    if k == |entries| - 1 {
      FileRule(entries[k], dir);
    } else {
      assert entries[..|entries| - 1][k] == entries[k];
      TopLevelHtmlFound(entries[..|entries| - 1], dir, k);
    }
  }

  /** Exactly the HTML files at any depth are found: a path is returned
      exactly when it names a regular file somewhere below `dir` and ends
      in `.html` in any letter case. */
  lemma {:induction false} HtmlFilesExactly(entries: seq<Entry>, dir: string, rel: string, p: string)
    ensures p in HtmlFiles(entries, dir) <==> IsHtml(p) && exists r, c :: FileIn(entries, dir, rel, p, r, c)
    decreases entries
  {
    if entries != [] {
      var n := |entries| - 1;
      var init, last := entries[..n], entries[n];
      HtmlFilesLast(entries, dir);
      HtmlFilesExactly(init, dir, rel, p);
      EntryHtmlFilesExactly(last, dir, rel, p);
      if IsHtml(p) && exists r, c :: FileIn(entries, dir, rel, p, r, c) {
        var r, c :| FileIn(entries, dir, rel, p, r, c);
        FileInLast(entries, dir, rel, p, r, c);
      }
      if p in HtmlFiles(init, dir) {
        var r, c :| FileIn(init, dir, rel, p, r, c);
        FileInLast(entries, dir, rel, p, r, c);
      } else if p in EntryHtmlFiles(last, dir) {
        var r, c :| FileInEntry(last, dir, rel, p, r, c);
        FileInLast(entries, dir, rel, p, r, c);
      }
    }
  }

  lemma {:induction false} EntryHtmlFilesExactly(e: Entry, dir: string, rel: string, p: string)
    ensures p in EntryHtmlFiles(e, dir) <==> IsHtml(p) && exists r, c :: FileInEntry(e, dir, rel, p, r, c)
    decreases e
  {
    match e
    case Dir(name, children) =>
      DirRule(e, dir);
      HtmlFilesExactly(children, Join(dir, name), RelJoin(rel, name), p);
      if exists r, c :: FileInEntry(e, dir, rel, p, r, c) {
        var r, c :| FileInEntry(e, dir, rel, p, r, c);
        assert FileIn(children, Join(dir, name), RelJoin(rel, name), p, r, c);
        assert IsHtml(p) ==> p in EntryHtmlFiles(e, dir);
      }
      if exists r, c :: FileIn(children, Join(dir, name), RelJoin(rel, name), p, r, c) {
        var r, c :| FileIn(children, Join(dir, name), RelJoin(rel, name), p, r, c);
        assert FileInEntry(e, dir, rel, p, r, c);
        assert p in EntryHtmlFiles(e, dir) ==> IsHtml(p);
      }
      assert p in EntryHtmlFiles(e, dir) ==> exists r, c :: FileInEntry(e, dir, rel, p, r, c);
    case File(name, text) =>
      FileRule(e, dir);
      if p == Join(dir, name) {
        assert FileInEntry(e, dir, rel, p, RelJoin(rel, name), text);
        assert exists r, c :: FileInEntry(e, dir, rel, p, r, c);
      }
    case Other(_) =>
      FileRule(e, dir);
  }

  /** Splicing: the files of two runs of entries are those of each, in order. */
  lemma {:induction false} HtmlFilesAppend(a: seq<Entry>, b: seq<Entry>, dir: string)
    ensures HtmlFiles(a + b, dir) == HtmlFiles(a, dir) + HtmlFiles(b, dir)
    decreases |b|
  {
    if b == [] {
      assert a + b == a;
    } else {
      var b0 := b[..|b| - 1];
      assert (a + b)[..|a + b| - 1] == a + b0;
      assert (a + b)[|a + b| - 1] == b[|b| - 1];
      HtmlFilesLast(a + b, dir);
      HtmlFilesLast(b, dir);
      HtmlFilesAppend(a, b0, dir);
    }
  }

  /** `findHtmlFiles(dir)`: a local `out` array filled by a loop that
      recurses into sub-directories. */
  method FindHtmlFiles(entries: seq<Entry>, dir: string) returns (out: seq<string>)
    ensures out == HtmlFiles(entries, dir)
    decreases entries
  {
    out := [];
    var i := 0;
    while i < |entries|
      invariant 0 <= i <= |entries|
      invariant out == HtmlFiles(entries[..i], dir)
    {
      var e := entries[i];
      var p := Join(dir, e.name);
      if e.Dir? {
        DirRule(e, dir);
        var sub := FindHtmlFiles(e.entries, p);
        out := out + sub;
      } else {
        FileRule(e, dir);
        if e.File? && IsHtml(p) {
          out := out + [p];
        }
      }
      HtmlFilesSnoc(entries, i, dir);
      i := i + 1;
    }
    assert entries[..|entries|] == entries;
  }

  /** What `fs` reports for the output directory: absent, a directory with
      its entries, or something else (which `readdirSync` refuses). */
  datatype Site = Absent | Listing(entries: seq<Entry>) | NotADirectory

  /** The process outcome: exit 0 with the summary line, exit 1 with the
      error lines, or an uncaught exception. */
  datatype Outcome = Passed(message: string) | Failed(messages: seq<string>) | Crashed

  const OutDir := "site"

  const FailureLines := [
    "CI check failed: no HTML pages generated in 'site'.",
    "Expected at least one HTML file from content MDX."
  ]

  /** The pages found for the output directory (`[]` when it is absent). */
  function FoundPages(site: Site): (r: Option<seq<string>>)
    ensures site.Absent? ==> r == Some([])
    ensures site.Listing? ==> r == Some(HtmlFiles(site.entries, OutDir))
    ensures site.NotADirectory? ==> r.None?
  {
    match site
    case Absent => Some([])
    case Listing(entries) => Some(HtmlFiles(entries, OutDir))
    case NotADirectory => None
  }

  /** `main()` of verify-build.js. */
  function CheckSite(site: Site): (r: Outcome)
    ensures r.Failed? <==> FoundPages(site) == Some([])
    ensures r.Crashed? <==> site.NotADirectory?
    ensures r.Failed? ==> r.messages == FailureLines
  {
    match FoundPages(site)
    case None => Crashed
    case Some(pages) =>
      if |pages| == 0 then Failed(FailureLines)
      else Passed("CI check: found " + NatToString(|pages|) + " HTML page(s) in site.")
  }

  /** A missing output directory fails the check. */
  lemma AbsentFails()
    ensures CheckSite(Absent).Failed?
  {
  }

  /** The check passes exactly when at least one HTML file exists somewhere
      below the output directory. */
  lemma PassesIffSomePage(entries: seq<Entry>)
    ensures CheckSite(Listing(entries)).Passed?
      <==> exists p, r, c :: FileIn(entries, OutDir, "", p, r, c) && IsHtml(p)
  {
    var found := HtmlFiles(entries, OutDir);
    if found != [] {
      HtmlFilesExactly(entries, OutDir, "", found[0]);
    }
    forall p, r, c | FileIn(entries, OutDir, "", p, r, c) && IsHtml(p)
      ensures found != []
    {
      HtmlFilesExactly(entries, OutDir, "", p);
      assert exists r', c' :: FileIn(entries, OutDir, "", p, r', c');
    }
  }

  /** One top-level HTML file suffices. */
  lemma PassesWithTopLevelPage(entries: seq<Entry>, k: nat)
    requires k < |entries| && entries[k].File? && IsHtml(Join(OutDir, entries[k].name))
    ensures CheckSite(Listing(entries)).Passed?
  {
    TopLevelHtmlFound(entries, OutDir, k);
  }

  /** The summary line reports the number of pages found. */
  lemma PassedCountsPages(site: Site)
    requires CheckSite(site).Passed?
    ensures var n := |FoundPages(site).value|;
      n > 0 && CheckSite(site).message == "CI check: found " + NatToString(n) + " HTML page(s) in site."
  {
  }
}
