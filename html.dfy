/** The HTML page shells. packages/lib/common.js (and its copy in
    packages/lib/build.js) wraps a rendered body with an optional deferred
    script; src/build.js has an older shell without one. Every argument is
    inserted verbatim: nothing is escaped. */
module Html {
  import opened Text

  const Doctype := "<!doctype html><html lang=\"en\"><head>"
  const Meta := "<meta charset=\"utf-8\"/><meta name=\"viewport\" content=\"width=device-width, initial-scale=1\"/>"
  const TitleOpen := Doctype + Meta + "<title>"
  const CssOpen := "</title><link rel=\"stylesheet\" href=\""
  const CssClose := "\">"
  const ScriptOpen := "<script defer src=\""
  const ScriptClose := "\"></script>"
  const BodyOpen := "</head><body>"
  const BodyClose := "</body></html>"

  /** `scriptHref ? <script defer src="…"></script> : ''`; `null` and the
      empty string are both given as "". */
  function ScriptTag(scriptHref: string): (r: string)
    ensures scriptHref == "" ==> r == ""
    ensures scriptHref != "" ==> StartsWith(r, ScriptOpen) && EndsWith(r, ScriptClose)
    ensures scriptHref != "" ==>
      |r| == |ScriptOpen| + |scriptHref| + |ScriptClose|
      && r[|ScriptOpen|..|ScriptOpen| + |scriptHref|] == scriptHref
  {
    if scriptHref != "" then ScriptOpen + scriptHref + ScriptClose else ""
  }

  /** Everything up to and including the stylesheet link. */
  function Head(title: string, cssHref: string): string {
    TitleOpen + title + CssOpen + cssHref + CssClose
  }

  /** `</head><body>` + body + `</body></html>`. */
  function Tail(body: string): string {
    BodyOpen + body + BodyClose
  }

  /** `htmlShell({title, body, cssHref, scriptHref})` of packages/lib/common.js:
      the script tag, when there is one, sits between the stylesheet link and
      `</head>`. */
  function HtmlShell(title: string, body: string, cssHref: string, scriptHref: string): (r: string)
    ensures StartsWith(r, Doctype)
    ensures EndsWith(r, Tail(body))
    ensures |r| == |TitleOpen| + |title| + |CssOpen| + |cssHref| + |CssClose|
                   + |ScriptTag(scriptHref)| + |BodyOpen| + |body| + |BodyClose|
  {
    StartsWithConcat(Head(title, cssHref), ScriptTag(scriptHref));
    ShellEnds(Head(title, cssHref) + ScriptTag(scriptHref), title, cssHref, Tail(body));
    Head(title, cssHref) + ScriptTag(scriptHref) + Tail(body)
  }

  /** `htmlShell({title, body, cssHref})` of src/build.js: no script slot. */
  function LegacyHtmlShell(title: string, body: string, cssHref: string): (r: string)
    ensures StartsWith(r, Doctype)
    ensures EndsWith(r, Tail(body))
    ensures |r| == |TitleOpen| + |title| + |CssOpen| + |cssHref| + |CssClose| + |BodyOpen| + |body| + |BodyClose|
  {
    StartsWithConcat(Head(title, cssHref), "");
    assert Head(title, cssHref) + "" == Head(title, cssHref);
    ShellEnds(Head(title, cssHref), title, cssHref, Tail(body));
    Head(title, cssHref) + Tail(body)
  }

  lemma HeadStartsWithDoctype(title: string, cssHref: string)
    ensures StartsWith(Head(title, cssHref), Doctype)
  {
    assert StartsWith(TitleOpen, Doctype) by {
      StartsWithConcat(Doctype, Meta + "<title>");
      assert TitleOpen == Doctype + (Meta + "<title>");
    }
    var h := Head(title, cssHref);
    var x1 := TitleOpen + title;
    var x2 := x1 + CssOpen;
    var x3 := x2 + cssHref;
    StartsWithConcat(TitleOpen, title);
    StartsWithConcat(x1, CssOpen);
    StartsWithConcat(x2, cssHref);
    StartsWithConcat(x3, CssClose);
    StartsWithTrans(x1, TitleOpen, Doctype);
    StartsWithTrans(x2, x1, Doctype);
    StartsWithTrans(x3, x2, Doctype);
    StartsWithTrans(h, x3, Doctype);
  }

  /** A page made of a head, optional extras and a tail starts with the
      doctype and ends with its tail. */
  lemma ShellEnds(front: string, title: string, cssHref: string, tail: string)
    requires StartsWith(front, Head(title, cssHref))
    ensures StartsWith(front + tail, Doctype) && EndsWith(front + tail, tail)
  {
    HeadStartsWithDoctype(title, cssHref);
    StartsWithConcat(front, tail);
    StartsWithTrans(front, Head(title, cssHref), Doctype);
    StartsWithTrans(front + tail, front, Doctype);
    EndsWithConcat(front, tail);
  }

  /** Without a script the two shells produce the same page; a script adds
      exactly its tag and nothing else. */
  lemma ShellsAgree(title: string, body: string, cssHref: string, scriptHref: string)
    ensures HtmlShell(title, body, cssHref, "") == LegacyHtmlShell(title, body, cssHref)
    ensures scriptHref != "" ==>
      |HtmlShell(title, body, cssHref, scriptHref)|
        == |LegacyHtmlShell(title, body, cssHref)| + |ScriptOpen| + |scriptHref| + |ScriptClose|
  {
    assert Head(title, cssHref) + "" == Head(title, cssHref);
  }

  lemma SliceLeft(x: string, y: string, i: nat, j: nat)
    requires i <= j <= |x|
    ensures (x + y)[i..j] == x[i..j]
  {
  }

  lemma SliceRight(x: string, y: string, i: nat, j: nat)
    requires i <= j <= |y|
    ensures (x + y)[|x| + i..|x| + j] == y[i..j]
  {
  }

  /** In `a + t + b + c + …`, the pieces `t` and `c` sit at the offsets the
      lengths before them add up to. */
  lemma PiecesAt(a: string, t: string, b: string, c: string, d: string, e: string, f: string)
    ensures var r := a + t + b + c + d + e + f;
      var i := |a| + |t| + |b|;
      r[|a|..|a| + |t|] == t && r[i..i + |c|] == c
  {
    var x1 := a + t;
    var x2 := x1 + b;
    var x3 := x2 + c;
    var x4 := x3 + d;
    var x5 := x4 + e;
    var i := |a| + |t| + |b|;
    assert x1[|a|..|a| + |t|] == t;
    SliceLeft(x1, b, |a|, |a| + |t|);
    SliceLeft(x2, c, |a|, |a| + |t|);
    SliceLeft(x3, d, |a|, |a| + |t|);
    SliceLeft(x4, e, |a|, |a| + |t|);
    SliceLeft(x5, f, |a|, |a| + |t|);
    assert x3[i..i + |c|] == c;
    SliceLeft(x3, d, i, i + |c|);
    SliceLeft(x4, e, i, i + |c|);
    SliceLeft(x5, f, i, i + |c|);
  }

  /** The title, the stylesheet reference and the script reference sit at
      fixed offsets, verbatim. */
  lemma ShellFieldsVerbatim(title: string, body: string, cssHref: string, scriptHref: string)
    ensures var r := HtmlShell(title, body, cssHref, scriptHref);
      var t := |TitleOpen|;
      var c := t + |title| + |CssOpen|;
      var s := c + |cssHref| + |CssClose| + |ScriptOpen|;
      r[t..t + |title|] == title && r[c..c + |cssHref|] == cssHref
      && (scriptHref != "" ==> r[s..s + |scriptHref|] == scriptHref)
  {
    PiecesAt(TitleOpen, title, CssOpen, cssHref, CssClose, ScriptTag(scriptHref), Tail(body));
    if scriptHref != "" {
      var head, tag := Head(title, cssHref), ScriptTag(scriptHref);
      var i := |ScriptOpen|;
      SliceRight(head, tag, i, i + |scriptHref|);
      SliceLeft(head + tag, Tail(body), |head| + i, |head| + i + |scriptHref|);
    }
  }
}
