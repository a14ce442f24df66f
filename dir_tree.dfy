/** Directory listings as `readdir(dir, {withFileTypes: true})` reports
    them, and the POSIX path operations the build applies to the paths it
    forms (`path.join` of a directory and an entry name, `path.basename`). */
module DirTree {

  /** One directory entry: a regular file with its text, a sub-directory
      with its own entries, or anything else (a link, a socket, a device). */
  datatype Entry =
    | File(name: string, content: string)
    | Dir(name: string, entries: seq<Entry>)
    | Other(name: string)

  /** `path.join(dir, name)` for an entry name (no normalisation of `..`). */
  function Join(dir: string, name: string): (p: string)
    ensures |p| == |dir| + 1 + |name|
  {
    dir + "/" + name
  }

  /** The path of an entry relative to the root of a walk, given that of
      its directory (`path.relative(root, p)`; "" is the root itself). */
  function RelJoin(relDir: string, name: string): string {
    if relDir == "" then name else Join(relDir, name)
  }

  /** Some entry among `entries`, at any depth, is a regular file whose path
      is `p`, whose path relative to the root is `r` and whose text is
      `content`; `dir` is the path of the directory listed and `rel` its
      path relative to the root. */
  predicate FileIn(entries: seq<Entry>, dir: string, rel: string, p: string, r: string, content: string)
    decreases entries
  {
    exists i :: 0 <= i < |entries| && FileInEntry(entries[i], dir, rel, p, r, content)
  }

  /** The entry `e` of `dir` is that file, or a directory holding it. */
  predicate FileInEntry(e: Entry, dir: string, rel: string, p: string, r: string, content: string)
    decreases e
  {
    match e
    case File(name, text) => p == Join(dir, name) && r == RelJoin(rel, name) && content == text
    case Dir(name, children) => FileIn(children, Join(dir, name), RelJoin(rel, name), p, r, content)
    case Other(_) => false
  }

  /** A file lies among a non-empty list of entries exactly when it lies
      among all but the last, or in the last. */
  lemma FileInLast(entries: seq<Entry>, dir: string, rel: string, p: string, r: string, content: string)
    requires entries != []
    ensures var n := |entries| - 1;
      FileIn(entries, dir, rel, p, r, content)
      <==> FileIn(entries[..n], dir, rel, p, r, content) || FileInEntry(entries[n], dir, rel, p, r, content)
  {
    var n := |entries| - 1;
    if FileIn(entries, dir, rel, p, r, content) {
      var i :| 0 <= i < |entries| && FileInEntry(entries[i], dir, rel, p, r, content);
      if i < n {
        assert entries[..n][i] == entries[i];
      }
    }
    if FileIn(entries[..n], dir, rel, p, r, content) {
      var i :| 0 <= i < n && FileInEntry(entries[..n][i], dir, rel, p, r, content);
      assert entries[..n][i] == entries[i];
    }
  }

  function StripTrailingSlashes(p: string): (r: string)
    ensures |r| <= |p| && r == p[..|r|]
    ensures r == [] || r[|r| - 1] != '/'
  {
    if p != [] && p[|p| - 1] == '/' then StripTrailingSlashes(p[..|p| - 1]) else p
  }

  /** The part of `p` after its last `/`. */
  function AfterLastSlash(p: string): (r: string)
    ensures |r| <= |p| && r == p[|p| - |r|..]
    ensures '/' !in r
    ensures |r| < |p| ==> p[|p| - |r| - 1] == '/'
  {
    if p == [] || p[|p| - 1] == '/' then [] else AfterLastSlash(p[..|p| - 1]) + [p[|p| - 1]]
  }

  /** `path.basename(p)`: the last segment, trailing slashes ignored. */
  function Basename(p: string): (r: string)
    ensures '/' !in r
  {
    AfterLastSlash(StripTrailingSlashes(p))
  }

  /** The last segment of a joined path is the entry's name. */
  lemma {:induction false} AfterLastSlashOfSegment(dir: string, name: string)
    requires '/' !in name
    ensures AfterLastSlash(dir + "/" + name) == name
    decreases |name|
  {
    var p := dir + "/" + name;
    if name == [] {
      assert p[|p| - 1] == '/';
    } else {
      var last := name[|name| - 1];
      assert last in name;
      assert p[..|p| - 1] == dir + "/" + name[..|name| - 1];
      assert forall c :: c in name[..|name| - 1] ==> c in name;
      AfterLastSlashOfSegment(dir, name[..|name| - 1]);
      assert name[..|name| - 1] + [last] == name;
    }
  }

  lemma BasenameOfJoin(dir: string, name: string)
    requires name != [] && '/' !in name
    ensures Basename(Join(dir, name)) == name
  {
    var p := Join(dir, name);
    assert p[|p| - 1] == name[|name| - 1];
    assert name[|name| - 1] in name;
    assert StripTrailingSlashes(p) == p;
    AfterLastSlashOfSegment(dir, name);
  }
}
