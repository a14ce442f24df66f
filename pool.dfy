/** The manifest-to-page stage of `buildIiifCollectionPages`
    (packages/lib/iiif.js): each collected task is served from the manifest
    cache or fetched over HTTP, saved to the cache, rendered into
    `site/works/<slug>.html` and recorded for search, with its log lines
    printed in task order per chunk. */
module RenderPool {
  import opened Text
  import opened Json
  import opened OrderedLog
  import opened Chunking
  import TaskRun
  import MC = ManifestCache
  import CollectionWalk
  import Html
  import Canonical

  /* ---------------- what the outside world answers ---------------- */

  /** What `fetch(id)` settles to: rejected (the `.catch` turns it into
      `null`), or a response with its status and the result of `res.json()`
      (`None` when that throws). */
  datatype Response = Unreachable | Answer(status: int, body: Option<Json>)

  /** `res.ok`. */
  predicate IsOk(status: int) {
    200 <= status <= 299
  }

  /** What rendering the works layout and writing the page does: the body
      markup, or the message of the exception thrown on the way. */
  datatype Rendering = Rendered(body: string) | Threw(message: string)

  /** The network, `slugify` and the MDX/React rendering, as parameters. */
  datatype Env = Env(net: map<string, Response>, slugify: string -> string, render: Json -> Rendering)

  function Respond(net: map<string, Response>, id: string): Response {
    if id in net then net[id] else Unreachable
  }

  /* ---------------- the lines a task logs ---------------- */

  const Arrow := " \U{279C} "

  function CachedLine(id: string): LogLine {
    LogLine("\U{2713} " + id + Arrow + "Cached", Yellow)
  }

  function FetchedLine(id: string, status: int): LogLine {
    LogLine("\U{2713} " + id + Arrow + IntToString(status), Yellow)
  }

  function FailLine(id: string, what: string): LogLine {
    LogLine("\U{2717} " + id + Arrow + what, Red)
  }

  function CreatedLine(href: string): LogLine {
    LogLine("\U{2713} Created " + OutDir + "/" + href, Green)
  }

  function RenderFailLine(id: string, message: string): LogLine {
    LogLine("IIIF: failed to render for " + (if id == "" then "<unknown>" else id) + " \U{2014} " + message, Red)
  }

  /* ---------------- the page a manifest becomes ---------------- */

  const OutDir := "site"
  const CssHref := "../styles.css"
  const ViewerHref := "../canopy-viewer.js"

  /** `path.join("works", slugify(title || "untitled") + ".html")`; unlike the
      cache slug there is no fallback for an empty slug and no numbering. */
  function PageHref(slugify: string -> string, title: string): (href: string)
    ensures StartsWith(href, "works/") && EndsWith(href, ".html")
  {
    var href := "works/" + slugify(if title == "" then "untitled" else title) + ".html";
    StartsWithConcat("works/", slugify(if title == "" then "untitled" else title) + ".html");
    EndsWithConcat("works/" + slugify(if title == "" then "untitled" else title), ".html");
    href
  }

  /** The viewer script is linked only when the body asks for hydration. */
  predicate NeedsHydrate(body: string) {
    Contains(body, "data-canopy-hydrate") || Contains(body, "data-canopy-viewer")
  }

  function PageHtml(title: string, body: string): string {
    Html.HtmlShell(title, body, CssHref, if NeedsHydrate(body) then ViewerHref else "")
  }

  /** A page written under `site/`: its path, and the title and body its
      HTML is built from (the file holds `PageHtml(title, body)`). */
  datatype Page = Page(path: string, title: string, body: string)

  /** `{id: String(manifest.id || id), title, href}`. */
  datatype SearchRecord = SearchRecord(id: string, title: string, href: string)

  /** Everything one task does: its log lines, whether they reach
      `logs[idx]` (every `continue` skips that), the manifest it saves to the
      cache, the page it writes and the search record it adds. */
  datatype Outcome = Outcome(lines: seq<LogLine>, logged: bool, save: Option<Json>,
                             page: Option<Page>, record: Option<SearchRecord>)

  /** Rendering a usable manifest `m` after the fetch lines `lines`. */
  function RenderOutcome(env: Env, id: string, lines: seq<LogLine>, save: Option<Json>, m: Json): (o: Outcome)
    ensures o.logged && o.save == save && |o.lines| == |lines| + 1 && o.lines[..|lines|] == lines
    ensures o.page.Some? <==> env.render(m).Rendered?
    ensures o.record.Some? <==> o.page.Some?
    ensures o.page.Some? ==>
      o.page.value.path == OutDir + "/" + o.record.value.href
      && o.record.value.title == MC.ManifestTitle(m)
      && o.record.value.href == PageHref(env.slugify, MC.ManifestTitle(m))
      && o.page.value.title == MC.ManifestTitle(m) && o.page.value.body == env.render(m).body
  {
    var title := MC.ManifestTitle(m);
    var href := PageHref(env.slugify, title);
    match env.render(m)
    case Threw(msg) =>
      Outcome(lines + [RenderFailLine(id, msg)], true, save, None, None)
    case Rendered(body) =>
      Outcome(lines + [CreatedLine(href)], true, save,
              Some(Page(OutDir + "/" + href, title, body)),
              Some(SearchRecord(FirstTruthyString(Get(m, "id"), Some(JStr(id))), title, href)))
  }

  /** One pass of the worker loop for task id `id`, given what the cache
      holds for it. */
  function TaskOutcome(env: Env, id: string, cached: Option<Json>): Outcome {
    if cached.Some? && Truthy(cached.value) then
      RenderOutcome(env, id, [CachedLine(id)], None, cached.value)
    else if !IsHttpUrl(id) then
      Outcome([FailLine(id, "SKIP")], false, None, None, None)
    else match Respond(env.net, id)
      case Unreachable => Outcome([FailLine(id, "ERR")], false, None, None, None)
      case Answer(status, body) =>
        if !IsOk(status) then Outcome([FailLine(id, IntToString(status))], false, None, None, None)
        else if body.None? then Outcome([FetchedLine(id, status), FailLine(id, "ERR")], false, None, None, None)
        else if !Truthy(body.value) then Outcome([FetchedLine(id, status)], false, body, None, None)
        else RenderOutcome(env, id, [FetchedLine(id, status)], body, body.value)
  }

  /** The manifest a task works from, when it gets one it can use: the
      cached one, or a truthy body of a successful fetch of an http(s) id. */
  function Usable(env: Env, id: string, cached: Option<Json>): Option<Json> {
    if cached.Some? && Truthy(cached.value) then cached
    else if IsHttpUrl(id) && Respond(env.net, id).Answer? && IsOk(Respond(env.net, id).status)
         && TruthyOpt(Respond(env.net, id).body)
    then Respond(env.net, id).body
    else None
  }

  /** The contract of one task: its lines reach the ordered log exactly when
      it obtained a usable manifest; a page and a search record are written
      together, exactly when that manifest renders, under the href its title
      gives; the cache is written only after a successful fetch, and never
      for a cached manifest; a task always has something to say. */
  lemma TaskContract(env: Env, id: string, cached: Option<Json>)
    ensures var o := TaskOutcome(env, id, cached);
      var u := Usable(env, id, cached);
      |o.lines| >= 1
      && (o.logged <==> u.Some?)
      && (o.page.Some? <==> u.Some? && env.render(u.value).Rendered?)
      && (o.record.Some? <==> o.page.Some?)
      && (o.page.Some? ==>
            o.record.value.title == MC.ManifestTitle(u.value)
            && o.record.value.href == PageHref(env.slugify, MC.ManifestTitle(u.value))
            && o.page.value == Page(OutDir + "/" + o.record.value.href,
                                    MC.ManifestTitle(u.value), env.render(u.value).body))
      && (o.save.Some? <==>
            !(cached.Some? && Truthy(cached.value)) && IsHttpUrl(id)
            && Respond(env.net, id).Answer? && IsOk(Respond(env.net, id).status)
            && Respond(env.net, id).body.Some?)
      && (o.save.Some? ==> o.save == Respond(env.net, id).body)
  {
  }

  /** A cached manifest is never fetched: the task logs "Cached" first and
      saves nothing. */
  lemma CachedNotFetched(env: Env, id: string, m: Json)
    requires Truthy(m)
    ensures var o := TaskOutcome(env, id, Some(m));
      o.lines[0] == CachedLine(id) && o.save.None? && o.logged
  {
  }

  /** An id that is not an http(s) URL and is not cached is skipped with a
      single "SKIP" line, and nothing is written. */
  lemma NonHttpSkipped(env: Env, id: string, cached: Option<Json>)
    requires !IsHttpUrl(id) && !TruthyOpt(cached)
    ensures TaskOutcome(env, id, cached) == Outcome([FailLine(id, "SKIP")], false, None, None, None)
  {
  }

  /** The search record's id is the manifest's own id when it has a truthy
      one, else the task id. */
  lemma RecordIdPrefersManifestId(env: Env, id: string, m: Json, body: string)
    requires Truthy(m) && env.render(m) == Rendered(body)
    ensures var r := TaskOutcome(env, id, Some(m)).record.value;
      (TruthyOpt(Get(m, "id")) ==> r.id == ToJsString(Get(m, "id").value))
      && (!TruthyOpt(Get(m, "id")) ==> r.id == id)
  {
    if !TruthyOpt(Get(m, "id")) && id == "" {
      assert !Truthy(JStr(id));
    }
  }

  /** Every written page is an HTML shell under `site/works/`, carrying the
      viewer script exactly when its body asks for hydration. */
  lemma PagesAreShells(env: Env, id: string, cached: Option<Json>)
    requires TaskOutcome(env, id, cached).page.Some?
    ensures var p := TaskOutcome(env, id, cached).page.value;
      StartsWith(p.path, OutDir + "/works/") && EndsWith(p.path, ".html")
      && StartsWith(PageHtml(p.title, p.body), Html.Doctype)
  {
    TaskContract(env, id, cached);
    var o := TaskOutcome(env, id, cached);
    var href := o.record.value.href;
    assert StartsWith(href, "works/") && EndsWith(href, ".html");
    assert OutDir + "/" + href == (OutDir + "/") + href;
    assert (OutDir + "/" + href)[..|OutDir + "/works/"|] == (OutDir + "/") + href[..6];
    EndsWithTail(OutDir + "/", href, ".html");
  }

  lemma EndsWithTail(a: string, b: string, suffix: string)
    requires EndsWith(b, suffix)
    ensures EndsWith(a + b, suffix)
  {
    assert (a + b)[|a + b| - |suffix|..] == b[|b| - |suffix|..];
  }

  /** Two manifests with the same title are written to the same page, even
      though the cache numbers their slugs apart: the second page overwrites
      the first and both search records point at it. */
  lemma SameTitleSamePage(env: Env, id1: string, m1: Json, id2: string, m2: Json)
    requires Truthy(m1) && Truthy(m2) && MC.ManifestTitle(m1) == MC.ManifestTitle(m2)
    requires env.render(m1).Rendered? && env.render(m2).Rendered?
    ensures TaskOutcome(env, id1, Some(m1)).page.value.path == TaskOutcome(env, id2, Some(m2)).page.value.path
  {
  }

  /* ---------------- a run of tasks ---------------- */

  /** The manifest cache as the tasks see it: `byId` of the index and the
      files under `manifests/`. */
  datatype Store = Store(byId: map<string, string>, files: map<string, Json>)

  /** What the tasks change: the cache, the pages under `site/` and the
      search records. */
  datatype State = State(store: Store, pages: map<string, Page>, records: seq<SearchRecord>)

  /** The store after `saveCachedManifest(m, id)`. */
  function SaveTo(st: Store, slugify: string -> string, m: Json, id: string): Store {
    var slug := MC.SavedSlug(st.byId, slugify, m, id);
    Store(st.byId[id := slug], st.files[slug := m])
  }

  /** What the task `id` does in state `s`. */
  function StepOutcome(env: Env, s: State, id: string): Outcome {
    TaskOutcome(env, id, MC.CachedManifest(s.store.byId, s.store.files, id))
  }

  function RecordOf(o: Outcome): seq<SearchRecord> {
    if o.record.Some? then [o.record.value] else []
  }

  /** The state after the task `id`. */
  function Step(env: Env, s: State, id: string): State {
    var o := StepOutcome(env, s, id);
    State(if o.save.Some? then SaveTo(s.store, env.slugify, o.save.value, id) else s.store,
          if o.page.Some? then s.pages[o.page.value.path := o.page.value] else s.pages,
          s.records + RecordOf(o))
  }

  function Stepper(env: Env): (State, CollectionWalk.Task) -> State {
    (s: State, t: CollectionWalk.Task) => Step(env, s, t.id)
  }

  function Teller(env: Env): (State, CollectionWalk.Task) -> Outcome {
    (s: State, t: CollectionWalk.Task) => StepOutcome(env, s, t.id)
  }

  /** The state after the tasks, taken in order. */
  function RunTasks(env: Env, s: State, tasks: seq<CollectionWalk.Task>): State {
    TaskRun.Run(Stepper(env), s, tasks)
  }

  /** Running chunk `ci` after the chunks before it is running the first `ci + 1` chunks. */
  lemma RunNextChunk(env: Env, s0: State, tasks: seq<CollectionWalk.Task>, size: nat, ci: nat)
    requires size >= 1
    ensures RunTasks(env, RunTasks(env, s0, Flatten(Chunks(tasks, size, ci))), Chunk(tasks, size, ci))
            == RunTasks(env, s0, Flatten(Chunks(tasks, size, ci + 1)))
  {
    FlattenChunksLast(tasks, size, ci + 1);
    TaskRun.RunAppend(Teller(env), Stepper(env), s0, Flatten(Chunks(tasks, size, ci)), Chunk(tasks, size, ci));
  }

  /** What each of the tasks does, taken in order. */
  function Outcomes(env: Env, s: State, tasks: seq<CollectionWalk.Task>): (os: seq<Outcome>)
    ensures |os| == |tasks|
  {
    TaskRun.Outs(Teller(env), Stepper(env), s, tasks)
  }

  /** Every search record points at a page that was written. */
  predicate RecordsHavePages(s: State) {
    forall i :: 0 <= i < |s.records| ==> OutDir + "/" + s.records[i].href in s.pages
  }

  lemma StepKeepsRecordPages(env: Env, s: State, id: string)
    requires RecordsHavePages(s)
    ensures RecordsHavePages(Step(env, s, id))
  {
    TaskContract(env, id, MC.CachedManifest(s.store.byId, s.store.files, id));
  }

  /** No task removes a page, and every task that records a manifest has
      written its page: every search record points at a written page. */
  lemma RunKeepsRecordPages(env: Env, s: State, tasks: seq<CollectionWalk.Task>)
    requires RecordsHavePages(s)
    ensures RecordsHavePages(RunTasks(env, s, tasks))
  {
    var inv := (t: State) => RecordsHavePages(t);
    forall t: State, x: CollectionWalk.Task | inv(t)
      ensures inv(Stepper(env)(t, x))
    {
      StepKeepsRecordPages(env, t, x.id);
    }
    TaskRun.RunPreserves(Stepper(env), inv, s, tasks);
  }

  /** A manifest fetched and saved by one task is served from the cache to a
      later task with the same id: it is fetched at most once per build. */
  lemma FetchedOnceThenCached(env: Env, s: State, id: string)
    requires id != "" && IsHttpUrl(id)
    requires !TruthyOpt(MC.CachedManifest(s.store.byId, s.store.files, id))
    requires Respond(env.net, id).Answer? && IsOk(Respond(env.net, id).status)
    requires TruthyOpt(Respond(env.net, id).body)
    ensures var o := StepOutcome(env, Step(env, s, id), id);
      o.lines[0] == CachedLine(id) && o.save.None?
  {
    var m := Respond(env.net, id).body.value;
    MC.SaveThenLoad(s.store.byId, s.store.files, env.slugify, m, id);
  }

  /* ---------------- the log of a chunk ---------------- */

  function LinesOf(os: seq<Outcome>): (groups: seq<seq<LogLine>>)
    ensures |groups| == |os|
    ensures forall i :: 0 <= i < |os| ==> groups[i] == os[i].lines
  {
    seq(|os|, i requires 0 <= i < |os| => os[i].lines)
  }

  /** The slots a chunk leaves in `logs`: a task's lines when it reaches
      `logs[idx] = lns`, nothing when it `continue`s. */
  function Slots(os: seq<Outcome>): (given: seq<Option<seq<LogLine>>>)
    ensures |given| == |os|
    ensures forall i :: 0 <= i < |os| ==> given[i] == if os[i].logged then Some(os[i].lines) else None
  {
    seq(|os|, i requires 0 <= i < |os| => if os[i].logged then Some(os[i].lines) else None)
  }

  /** What the chunk prints as written: the lines of the tasks before the
      first one that `continue`d, and nothing after it. */
  function ChunkLogAsWritten(os: seq<Outcome>): seq<LogLine> {
    PrintedFor(Slots(os))
  }

  /** What the chunk prints once every task fills its slot: every task's
      lines, in task order. */
  function ChunkLog(os: seq<Outcome>): seq<LogLine> {
    Concat(LinesOf(os))
  }

  /** With every slot filled, the buffer prints every task's lines in
      order. */
  lemma FilledSlotsPrintAll(os: seq<Outcome>)
    ensures PrintedFor(Filled(LinesOf(os))) == ChunkLog(os)
  {
    var g := LinesOf(os);
    assert FirstMissing(Filled(g)) == |g|;
    DoneFilled(g, |g|);
    assert g[..|g|] == g;
  }

  lemma {:induction false} ConcatStartsWithFirst(groups: seq<seq<LogLine>>)
    requires groups != []
    ensures |groups[0]| <= |Concat(groups)| && Concat(groups)[..|groups[0]|] == groups[0]
  {
    if |groups| > 1 {
      var init := groups[..|groups| - 1];
      ConcatStartsWithFirst(init);
      assert Concat(groups) == Concat(init) + groups[|groups| - 1];
    }
  }

  /** A task the pool skips as written (here an id that is neither cached
      nor http(s)) silences its whole chunk: its own "SKIP" line and every
      later task's lines are never printed. With every slot filled, the
      chunk's log starts with that line. */
  lemma SkipSilencesChunk(env: Env, s: State, t: CollectionWalk.Task, rest: seq<CollectionWalk.Task>)
    requires !IsHttpUrl(t.id) && !TruthyOpt(MC.CachedManifest(s.store.byId, s.store.files, t.id))
    ensures ChunkLogAsWritten(Outcomes(env, s, [t] + rest)) == []
    ensures var log := ChunkLog(Outcomes(env, s, [t] + rest));
      |log| >= 1 && log[0] == FailLine(t.id, "SKIP")
  {
    var os := Outcomes(env, s, [t] + rest);
    var skipped := Outcome([FailLine(t.id, "SKIP")], false, None, None, None);
    assert os[0] == skipped by {
      TaskRun.OutsAt(Teller(env), Stepper(env), s, [t] + rest, 0);
      assert ([t] + rest)[..0] == [];
      NonHttpSkipped(env, t.id, MC.CachedManifest(s.store.byId, s.store.files, t.id));
    }
    assert FirstMissing(Slots(os)) == 0 by {
      assert Slots(os)[0].None?;
    }
    assert LinesOf(os)[0] == [FailLine(t.id, "SKIP")];
    ConcatStartsWithFirst(LinesOf(os));
  }

  /* ---------------- chunks of a run ---------------- */

  /** What the tasks of each of the first `k` chunks do, chunk by chunk. */
  function ChunkOutcomes(env: Env, s: State, tasks: seq<CollectionWalk.Task>, size: nat, k: nat): (r: seq<seq<Outcome>>)
    requires size >= 1
    ensures |r| == k
  {
    TaskRun.ChunkOuts(Teller(env), Stepper(env), s, tasks, size, k)
  }

  /** Cutting the tasks into chunks changes nothing they do: the chunks'
      outcomes, joined, are those of the whole list in order, and so is the
      final state. */
  lemma ChunkingKeepsOutcomes(env: Env, s: State, tasks: seq<CollectionWalk.Task>, size: nat)
    requires size >= 1
    ensures var c := ChunkCount(|tasks|, size);
      Flatten(ChunkOutcomes(env, s, tasks, size, c)) == Outcomes(env, s, tasks)
      && RunTasks(env, s, Flatten(Chunks(tasks, size, c))) == RunTasks(env, s, tasks)
  {
    TaskRun.ChunkingPreservesRun(Teller(env), Stepper(env), s, tasks, size);
  }

  function ChunkHeader(ci: nat, count: nat): LogLine {
    LogLine("\nChunk (" + NatToString(ci) + "/" + NatToString(count) + ")\n", Magenta)
  }

  function AggregatingLine(n: nat, count: nat): LogLine {
    LogLine("Aggregating " + NatToString(n) + " Manifest(s) in " + NatToString(count) + " chunk(s)...\n", Cyan)
  }

  /** What one chunk prints: as written (`corrected` false), only the lines
      before the first task that `continue`d; corrected, every task's
      lines. */
  function ChunkLogOf(corrected: bool, os: seq<Outcome>): seq<LogLine> {
    if corrected then ChunkLog(os) else ChunkLogAsWritten(os)
  }

  /** The console output of the first `k` chunks: each chunk's header, then
      what its pool prints. */
  function ChunkedLog(env: Env, s: State, tasks: seq<CollectionWalk.Task>, size: nat, count: nat, k: nat,
                      corrected: bool): seq<LogLine>
    requires size >= 1
  {
    if k == 0 then []
    else
      var previous := ChunkedLog(env, s, tasks, size, count, k - 1, corrected);
      var before := RunTasks(env, s, Flatten(Chunks(tasks, size, k - 1)));
      previous + [ChunkHeader(k, count)] + ChunkLogOf(corrected, Outcomes(env, before, Chunk(tasks, size, k - 1)))
  }

  /** The log of `k + 1` chunks extends that of `k` with the next header
      and what the next chunk prints, its tasks run from the state the
      earlier chunks left. */
  lemma ChunkedLogNext(env: Env, s: State, tasks: seq<CollectionWalk.Task>, size: nat, count: nat, k: nat,
                       corrected: bool)
    requires size >= 1
    ensures ChunkedLog(env, s, tasks, size, count, k + 1, corrected)
      == ChunkedLog(env, s, tasks, size, count, k, corrected) + [ChunkHeader(k + 1, count)]
         + ChunkLogOf(corrected, ChunkOutcomes(env, s, tasks, size, k + 1)[k])
  {
    assert ChunkOutcomes(env, s, tasks, size, k + 1)[k]
      == Outcomes(env, RunTasks(env, s, Flatten(Chunks(tasks, size, k))), Chunk(tasks, size, k));
  }

  /** With no more tasks than the chunk size there is one chunk: one header,
      then what the pool prints for all the tasks. */
  lemma SingleChunkLog(env: Env, s: State, tasks: seq<CollectionWalk.Task>, size: nat, corrected: bool)
    requires size >= 1 && |tasks| <= size
    ensures ChunkCount(|tasks|, size) == 1
    ensures ChunkedLog(env, s, tasks, size, 1, 1, corrected) == [ChunkHeader(1, 1)] + ChunkLogOf(corrected, Outcomes(env, s, tasks))
  {
    ChunkCountIsCeiling(|tasks|, size);
    if |tasks| > 0 {
      assert (|tasks| + size - 1) / size == 1 by {
        DivOne(|tasks| + size - 1, size);
      }
    }
    assert Chunk(tasks, size, 0) == tasks by {
      assert 0 * size == 0 && (0 + 1) * size == size;
    }
    assert RunTasks(env, s, Flatten(Chunks(tasks, size, 0))) == s by {
      assert Chunks(tasks, size, 0) == [];
    }
  }

  /** The whole stage as written: when the tasks fit in one chunk and the
      first is an uncached id that is not http(s), nothing but the chunk's
      header is printed, where the corrected pool prints that task's "SKIP"
      line right after the header. */
  lemma SkipSilencesStage(env: Env, s: State, tasks: seq<CollectionWalk.Task>, size: nat)
    requires size >= 1 && 1 <= |tasks| <= size
    requires !IsHttpUrl(tasks[0].id) && !TruthyOpt(MC.CachedManifest(s.store.byId, s.store.files, tasks[0].id))
    ensures ChunkCount(|tasks|, size) == 1
    ensures ChunkedLog(env, s, tasks, size, 1, 1, false) == [ChunkHeader(1, 1)]
    ensures var log := ChunkedLog(env, s, tasks, size, 1, 1, true);
      |log| >= 2 && log[0] == ChunkHeader(1, 1) && log[1] == FailLine(tasks[0].id, "SKIP")
  {
    SingleChunkLog(env, s, tasks, size, false);
    SingleChunkLog(env, s, tasks, size, true);
    assert tasks == [tasks[0]] + tasks[1..];
    SkipSilencesChunk(env, s, tasks[0], tasks[1..]);
  }

  lemma DivOne(a: nat, b: nat)
    requires b >= 1 && b <= a < 2 * b
    ensures a / b == 1
  {
  }

  /* ---------------- the build stage, step by step ---------------- */

  const NoLayoutLine := LogLine("IIIF: No content/works/_layout.mdx found; skipping IIIF page build.", Plain)
  const NoCollectionLine := LogLine("IIIF: No collection available; skipping.", Warning)
  const FlushLine := LogLine("IIIF: collection changed, flushing cache.\n", Magenta)

  function IntroLines(collectionUri: string): seq<LogLine> {
    [LogLine("\n-- Building Canopy from IIIF Collection...\n", Cyan),
     LogLine(collectionUri + "\n", White),
     LogLine("Creating Manifest listing...\n", Cyan)]
  }

  class Aggregator {
    const env: Env
    const cache: MC.ManifestCache
    /** The files written under `site/`, by path. */
    var pages: map<string, Page>
    /** `searchRecords` of the current build. */
    var searchRecords: seq<SearchRecord>
    /** Everything printed, in order. */
    var console: seq<LogLine>

    ghost function Current(): State
      reads this, cache
    {
      State(Store(cache.byId, cache.files), pages, searchRecords)
    }

    constructor (env: Env, cache: MC.ManifestCache)
      ensures this.env == env && this.cache == cache
      ensures pages == map[] && searchRecords == [] && console == []
    {
      this.env := env;
      this.cache := cache;
      pages := map[];
      searchRecords := [];
      console := [];
    }

    /** One pass of `worker()`'s loop for the task with id `id`. */
    method ProcessTask(id: string) returns (o: Outcome)
      requires cache.Valid()
      modifies this, cache
      ensures cache.Valid()
      ensures o == StepOutcome(env, old(Current()), id)
      ensures Current() == Step(env, old(Current()), id)
      ensures console == old(console)
      ensures cache.collection == old(cache.collection) && cache.parents == old(cache.parents)
    {
      var cached := cache.LoadCachedManifestById(id);
      var lns: seq<LogLine>;
      var save: Option<Json> := None;
      var m: Json;
      if cached.Some? && Truthy(cached.value) {
        lns := [CachedLine(id)];
        m := cached.value;
      } else if IsHttpUrl(id) {
        var res := Respond(env.net, id);
        if res.Unreachable? {
          return Outcome([FailLine(id, "ERR")], false, None, None, None);
        }
        if !IsOk(res.status) {
          return Outcome([FailLine(id, IntToString(res.status))], false, None, None, None);
        }
        lns := [FetchedLine(id, res.status)];
        if res.body.None? {
          return Outcome(lns + [FailLine(id, "ERR")], false, None, None, None);
        }
        save := res.body;
        var _ := cache.SaveCachedManifest(env.slugify, res.body.value, id);
        if !Truthy(res.body.value) {
          return Outcome(lns, false, save, None, None);
        }
        m := res.body.value;
      } else {
        return Outcome([FailLine(id, "SKIP")], false, None, None, None);
      }
      var title := MC.ManifestTitle(m);
      var href := PageHref(env.slugify, title);
      var rendering := env.render(m);
      if rendering.Threw? {
        return Outcome(lns + [RenderFailLine(id, rendering.message)], true, save, None, None);
      }
      var page := Page(OutDir + "/" + href, title, rendering.body);
      pages := pages[page.path := page];
      var rec := SearchRecord(FirstTruthyString(Get(m, "id"), Some(JStr(id))), title, href);
      searchRecords := searchRecords + [rec];
      o := Outcome(lns + [CreatedLine(href)], true, save, Some(page), Some(rec));
    }

    /** Runs the tasks of a chunk in order, collecting what each does. */
    method ProcessAll(chunk: seq<CollectionWalk.Task>) returns (os: seq<Outcome>)
      requires cache.Valid()
      modifies this, cache
      ensures cache.Valid()
      ensures Current() == RunTasks(env, old(Current()), chunk)
      ensures os == Outcomes(env, old(Current()), chunk)
      ensures console == old(console)
      ensures cache.collection == old(cache.collection) && cache.parents == old(cache.parents)
    {
      ghost var s0 := Current();
      os := [];
      var next := 0;
      while next < |chunk|
        invariant 0 <= next <= |chunk| && cache.Valid()
        invariant Current() == RunTasks(env, s0, chunk[..next])
        invariant os == Outcomes(env, s0, chunk[..next])
        invariant console == old(console)
        invariant cache.collection == old(cache.collection) && cache.parents == old(cache.parents)
      {
        var o := ProcessTask(chunk[next].id);
        TaskRun.RunSnoc(Teller(env), Stepper(env), s0, chunk, next);
        os := os + [o];
        next := next + 1;
      }
      assert chunk[..next] == chunk;
    }

    /** The worker pool over one chunk, with every task handing its lines to
        the ordered log, including the tasks that give up early. */
    method RunChunk(chunk: seq<CollectionWalk.Task>)
      requires cache.Valid()
      modifies this, cache
      ensures cache.Valid()
      ensures Current() == RunTasks(env, old(Current()), chunk)
      ensures console == old(console) + ChunkLog(Outcomes(env, old(Current()), chunk))
      ensures cache.collection == old(cache.collection) && cache.parents == old(cache.parents)
    {
      var os := ProcessAll(chunk);
      var printed := FeedInOrder(Filled(LinesOf(os)));
      FilledSlotsPrintAll(os);
      console := console + printed;
    }

    /** The worker pool over one chunk as written: a task that `continue`s
        never fills its slot. */
    method RunChunkAsWritten(chunk: seq<CollectionWalk.Task>)
      requires cache.Valid()
      modifies this, cache
      ensures cache.Valid()
      ensures Current() == RunTasks(env, old(Current()), chunk)
      ensures console == old(console) + ChunkLogAsWritten(Outcomes(env, old(Current()), chunk))
      ensures cache.collection == old(cache.collection) && cache.parents == old(cache.parents)
    {
      var os := ProcessAll(chunk);
      var printed := FeedInOrder(Slots(os));
      console := console + printed;
    }

    /** One pass of the chunk loop: the header of chunk `ci + 1` of
        `count`, then the chunk's pool, as written or corrected, run from
        the state the earlier chunks left. */
    method RunChunkAt(ghost s0: State, tasks: seq<CollectionWalk.Task>, size: nat, count: nat, ci: nat,
                      corrected: bool)
      requires size >= 1 && cache.Valid()
      requires Current() == RunTasks(env, s0, Flatten(Chunks(tasks, size, ci)))
      modifies this, cache
      ensures cache.Valid()
      ensures Current() == RunTasks(env, s0, Flatten(Chunks(tasks, size, ci + 1)))
      ensures console == old(console) + [ChunkHeader(ci + 1, count)]
                         + ChunkLogOf(corrected, Outcomes(env, RunTasks(env, s0, Flatten(Chunks(tasks, size, ci))), Chunk(tasks, size, ci)))
      ensures cache.collection == old(cache.collection) && cache.parents == old(cache.parents)
    {
      var chunk := Chunk(tasks, size, ci);
      console := console + [ChunkHeader(ci + 1, count)];
      if corrected {
        RunChunk(chunk);
      } else {
        RunChunkAsWritten(chunk);
      }
      RunNextChunk(env, s0, tasks, size, ci);
    }

    /** The chunk loop: a header per chunk, then the chunk's pool. */
    method Aggregate(tasks: seq<CollectionWalk.Task>, setting: int, corrected: bool)
      requires cache.Valid()
      modifies this, cache
      ensures cache.Valid()
      ensures var size := ChunkSizeSetting(setting);
        var count := ChunkCount(|tasks|, size);
        Current() == RunTasks(env, old(Current()), tasks)
        && console == old(console) + [AggregatingLine(|tasks|, count)]
                      + ChunkedLog(env, old(Current()), tasks, size, count, count, corrected)
      ensures cache.collection == old(cache.collection) && cache.parents == old(cache.parents)
    {
      ghost var s0 := Current();
      var size := ChunkSizeSetting(setting);
      var count := ChunkCount(|tasks|, size);
      console := console + [AggregatingLine(|tasks|, count)];
      ghost var start := console;
      ghost var log: seq<LogLine> := [];
      var ci := 0;
      while ci < count
        invariant 0 <= ci <= count && cache.Valid()
        invariant Current() == RunTasks(env, s0, Flatten(Chunks(tasks, size, ci)))
        invariant log == ChunkedLog(env, s0, tasks, size, count, ci, corrected)
        invariant console == start + log
        invariant cache.collection == old(cache.collection) && cache.parents == old(cache.parents)
      {
        ghost var lines := ChunkLogOf(corrected, Outcomes(env, Current(), Chunk(tasks, size, ci)));
        RunChunkAt(s0, tasks, size, count, ci, corrected);
        Reassociate(start, log, [ChunkHeader(ci + 1, count)], lines);
        log := log + [ChunkHeader(ci + 1, count)] + lines;
        ci := ci + 1;
      }
      ChunksReassemble(tasks, size);
    }

    /** The part of `buildIiifCollectionPages` after the cache check: walk
        the collection, reset `searchRecords`, aggregate the manifests. */
    method AggregateCollection(docs: map<string, Json>, col: Json, collectionUri: string, setting: int,
                               corrected: bool)
      returns (records: seq<SearchRecord>)
      requires cache.Valid()
      modifies this, cache
      ensures cache.Valid()
      ensures var tasks := CollectionWalk.CollectTasks(docs, col, collectionUri);
        var size := ChunkSizeSetting(setting);
        var count := ChunkCount(|tasks|, size);
        var s := State(old(Current()).store, old(pages), []);
        Current() == RunTasks(env, s, tasks)
        && records == Current().records
        && console == old(console) + [AggregatingLine(|tasks|, count)] + ChunkedLog(env, s, tasks, size, count, count, corrected)
      ensures cache.collection == old(cache.collection) && cache.parents == old(cache.parents)
    {
      var tasks := CollectionWalk.CollectAll(docs, col, collectionUri);
      searchRecords := [];
      Aggregate(tasks, setting, corrected);
      records := searchRecords;
    }

    /** `buildIiifCollectionPages`: skip without a works layout or a
        collection; otherwise log the intro, flush the cache when the
        collection URI changed, record the new signature, walk the
        collection and aggregate its manifests. With `corrected` false the
        chunks print as written; with it true every task's lines print. */
    method BuildIiifCollectionPages(hasWorksLayout: bool, collectionUri: string, docs: map<string, Json>,
                                    digest: string -> string, now: string, setting: int, corrected: bool)
      returns (records: seq<SearchRecord>)
      requires cache.Valid()
      modifies this, cache
      ensures cache.Valid()
      ensures cache.parents == old(cache.parents)
      ensures !hasWorksLayout ==>
        records == [] && console == old(console) + [NoLayoutLine]
        && Current() == old(Current()) && cache.collection == old(cache.collection)
      ensures hasWorksLayout && !TruthyOpt(CollectionWalk.Fetch(docs, collectionUri)) ==>
        records == [] && console == old(console) + [NoCollectionLine]
        && Current() == old(Current()) && cache.collection == old(cache.collection)
      ensures hasWorksLayout && TruthyOpt(CollectionWalk.Fetch(docs, collectionUri)) ==>
        var col := CollectionWalk.Fetch(docs, collectionUri).value;
        var flushed := MC.ShouldFlush(old(cache.collection), collectionUri);
        var store := if flushed then Store(map[], map[]) else Store(old(cache.byId), old(cache.files));
        var tasks := CollectionWalk.CollectTasks(docs, col, collectionUri);
        var size := ChunkSizeSetting(setting);
        var count := ChunkCount(|tasks|, size);
        var s := State(store, old(pages), []);
        Current() == RunTasks(env, s, tasks)
        && records == RunTasks(env, s, tasks).records
        && cache.collection == Some(MC.Signature(collectionUri, Canonical.ComputeHash(digest, col), now))
        && console == old(console) + IntroLines(collectionUri) + (if flushed then [FlushLine] else [])
                      + [AggregatingLine(|tasks|, count)] + ChunkedLog(env, s, tasks, size, count, count, corrected)
    {
      if !hasWorksLayout {
        console := console + [NoLayoutLine];
        return [];
      }
      var fetched := CollectionWalk.Fetch(docs, collectionUri);
      if !TruthyOpt(fetched) {
        console := console + [NoCollectionLine];
        return [];
      }
      var col := fetched.value;
      console := console + IntroLines(collectionUri);
      var flushed := cache.CheckAndMaybeFlush(digest, collectionUri, col, now);
      if flushed {
        console := console + [FlushLine];
      }
      ghost var pre := console;
      assert pre == old(console) + IntroLines(collectionUri) + (if flushed then [FlushLine] else []);
      assert Current().store == if flushed then Store(map[], map[]) else Store(old(cache.byId), old(cache.files));
      records := AggregateCollection(docs, col, collectionUri, setting, corrected);
    }
  }
}
