/** The pre-publish guard of scripts/guard-publish.js: the root package must
    be private, `@canopy-iiif/lib` must not be, and every other package
    directory under `packages/` that holds a package.json must be. The first
    violation met ends the run. */
module PublishGuard {
  import opened Json

  /** A package.json as the guard finds it: absent, present but not readable
      as JSON (`readFileSync` or `JSON.parse` throws), or parsed. */
  datatype PkgFile = Missing | Unreadable | Parsed(json: Json)

  /** An entry of `packages/`; only directories are examined. */
  datatype PkgEntry = PkgEntry(name: string, isDirectory: bool, pkg: PkgFile)

  /** `packages/` is absent, a directory with its entries, or something
      `readdirSync` refuses. */
  datatype PackagesDir = NoPackagesDir | Listing(entries: seq<PkgEntry>) | NotADirectory

  datatype Repo = Repo(root: PkgFile, packages: PackagesDir)

  /** Exit 0 with the log line, exit 1 with the error line, or an uncaught
      exception (a throw from `readJson` or a property read on `null`). */
  datatype Outcome = Ok(log: string) | Fail(error: string) | Crash

  const Prefix := "[guard-publish] "
  const LibName := "@canopy-iiif/lib"
  const RootMissing := Prefix + "Root package.json not found"
  const RootPublic := Prefix + "Root package must be private to avoid publishing the app. Set \"private\": true."
  const LibPrivate := Prefix + "@canopy-iiif/lib is marked private; unset \"private\" to allow publishing."
  const NoPackages := Prefix + "No packages/ directory; nothing to validate."
  const AllOk := Prefix + "OK: only @canopy-iiif/lib is publishable; root app is private."

  function WorkspacePublic(name: Json): string {
    Prefix + "Workspace " + ToJsString(name) + " must be private or removed before release."
  }

  /** `pkg.name || '(unnamed)'`. */
  function NameOf(pkg: Json): (r: Json)
    ensures r == JStr(LibName) <==> Get(pkg, "name") == Some(JStr(LibName))
  {
    Or(Get(pkg, "name"), Some(JStr("(unnamed)"))).value
  }

  /** `!!pkg.private`. */
  predicate IsPrivate(pkg: Json) {
    TruthyOpt(Get(pkg, "private"))
  }

  /** What one entry of `packages/` decides: `None` to go on, or the outcome
      that ends the run. */
  function CheckEntry(e: PkgEntry): Option<Outcome> {
    if !e.isDirectory then None
    else match e.pkg
      case Missing => None
      case Unreadable => Some(Crash)
      case Parsed(pkg) =>
        if pkg.JNull? then Some(Crash)
        else
          var name := NameOf(pkg);
          if name == JStr(LibName) then (if IsPrivate(pkg) then Some(Fail(LibPrivate)) else None)
          else if !IsPrivate(pkg) then Some(Fail(WorkspacePublic(name)))
          else None
  }

  /** The loop over the package entries: the first entry that decides wins. */
  function CheckEntries(entries: seq<PkgEntry>): Outcome {
    if entries == [] then Ok(AllOk)
    else match CheckEntry(entries[0])
      case Some(out) => out
      case None => CheckEntries(entries[1..])
  }

  /** The guard's `main`. */
  function Guard(repo: Repo): Outcome {
    match repo.root
    case Missing => Fail(RootMissing)
    case Unreadable => Crash
    case Parsed(root) =>
      if root.JNull? then Crash
      else if !TruthyOpt(Get(root, "private")) then Fail(RootPublic)
      else match repo.packages
        case NoPackagesDir => Ok(NoPackages)
        case NotADirectory => Crash
        case Listing(entries) => CheckEntries(entries)
  }

  /* ---------------- the policy, stated declaratively ---------------- */

  /** An entry that lets the run go on: not a directory, no package.json, or
      a package whose privacy matches its name. */
  predicate EntryCompliant(e: PkgEntry) {
    !e.isDirectory || e.pkg.Missing? ||
    (e.pkg.Parsed? && !e.pkg.json.JNull? &&
      (if Get(e.pkg.json, "name") == Some(JStr(LibName)) then !IsPrivate(e.pkg.json)
       else IsPrivate(e.pkg.json)))
  }

  predicate Compliant(repo: Repo) {
    repo.root.Parsed? && !repo.root.json.JNull? && TruthyOpt(Get(repo.root.json, "private"))
    && !repo.packages.NotADirectory?
    && (repo.packages.Listing? ==>
          forall i :: 0 <= i < |repo.packages.entries| ==> EntryCompliant(repo.packages.entries[i]))
  }

  lemma EntryDecides(e: PkgEntry)
    ensures CheckEntry(e).None? <==> EntryCompliant(e)
  {
  }

  lemma {:induction false} EntriesPass(entries: seq<PkgEntry>)
    ensures CheckEntries(entries).Ok? <==> forall i :: 0 <= i < |entries| ==> EntryCompliant(entries[i])
    ensures CheckEntries(entries).Ok? ==> CheckEntries(entries) == Ok(AllOk)
    decreases |entries|
  {
    if entries != [] {
      EntryDecides(entries[0]);
      EntriesPass(entries[1..]);
      assert forall i :: 1 <= i < |entries| ==> entries[i] == entries[1..][i - 1];
    }
  }

  /** The guard lets the release through exactly when the repository
      follows the policy. */
  lemma GuardPassesIffCompliant(repo: Repo)
    ensures Guard(repo).Ok? <==> Compliant(repo)
  {
    if repo.root.Parsed? && repo.packages.Listing? {
      EntriesPass(repo.packages.entries);
    }
  }

  /** A failure names the first offending entry: every entry before it is
      compliant, and that entry's own check gives the failure. */
  lemma {:induction false} FirstViolationDecides(entries: seq<PkgEntry>)
    requires !CheckEntries(entries).Ok?
    ensures exists k :: (0 <= k < |entries| && CheckEntry(entries[k]) == Some(CheckEntries(entries))
                         && forall i :: 0 <= i < k ==> EntryCompliant(entries[i]))
    decreases |entries|
  {
    EntryDecides(entries[0]);
    if CheckEntry(entries[0]).Some? {
      assert CheckEntry(entries[0]) == Some(CheckEntries(entries));
    } else {
      FirstViolationDecides(entries[1..]);
      var k :| 0 <= k < |entries[1..]| && CheckEntry(entries[1..][k]) == Some(CheckEntries(entries[1..]))
        && forall i :: 0 <= i < k ==> EntryCompliant(entries[1..][i]);
      assert CheckEntry(entries[k + 1]) == Some(CheckEntries(entries));
      forall i | 0 <= i < k + 1
        ensures EntryCompliant(entries[i])
      {
        if i > 0 { assert entries[i] == entries[1..][i - 1]; }
      }
    }
  }

  /** A public workspace other than the library is reported by its name; a
      nameless one as "(unnamed)". */
  lemma PublicWorkspaceReported(dirName: string)
    ensures CheckEntries([PkgEntry(dirName, true, Parsed(JObj([])))])
      == Fail(WorkspacePublic(JStr("(unnamed)")))
  {
  }

  /** The library package may be published, and must be: marking it private
      fails the guard. */
  lemma LibMustBePublic(dirName: string, flag: Json)
    ensures var pkg := JObj([Field("name", JStr(LibName)), Field("private", flag)]);
      CheckEntries([PkgEntry(dirName, true, Parsed(pkg))]) == (if Truthy(flag) then Fail(LibPrivate) else Ok(AllOk))
  {
    var fields := [Field("name", JStr(LibName)), Field("private", flag)];
    assert |"name"| != |"private"|;
    assert Lookup(fields[1..], "private") == Some(flag);
    assert Get(JObj(fields), "private") == Some(flag);
    assert Get(JObj(fields), "name") == Some(JStr(LibName));
    assert [PkgEntry(dirName, true, Parsed(JObj(fields)))][1..] == [];
  }

  /** Files next to the package directories are ignored whatever they hold. */
  lemma NonDirectoriesIgnored(entries: seq<PkgEntry>)
    requires forall i :: 0 <= i < |entries| ==> !entries[i].isDirectory
    ensures CheckEntries(entries) == Ok(AllOk)
  {
    EntriesPass(entries);
  }
}
