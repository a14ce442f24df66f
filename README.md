# Canopy IIIF aggregation, modelled in Dafny

Canopy builds a static website from MDX pages and a IIIF collection. This
project models the parts of the build that decide things, and proves what
they promise:

- **The manifest cache and its index.** Manifest id → slug (`byId`), the
  signature of the source collection, and the cached manifest files. The
  collision-free slug allocation, the load/save/flush operations and the
  cache-invalidation rule are modelled on a class `ManifestCache`. That
  class keeps slugs unique across manifests (`Valid`).
- **The canonical form of a collection document.** `deepSort`,
  `stableStringify` and `computeHash`, with the digest as a parameter.
- **The collection walk** `collectTasksFromCollection`. It is a depth-first
  traversal of nested IIIF collections with a shared `visited` set. It is
  modelled as a terminating function over a fixed map of documents, and as
  the recursive method that pushes tasks, proved equal to that function.
- **The aggregation stage of packages/lib/iiif.js.**
  - Tasks are cut into chunks, and each chunk's workers are run in order.
  - The per-task logic covers: cached, fetched, skipped or failed;
    rendered or failed to render; search record.
  - The per-chunk ordered log is `logs` plus `nextPrint`, flushed by
    `tryFlush`, modelled on an `array`.
  - The stage methods take a flag `corrected`. With it false, the console
    is the one iiif.js prints as written, where a task that gives up
    silences the rest of its chunk (see "## Findings"). With it true, the
    console is the one of the corrected pool.
- **The flat, first iteration of the same stage in packages/lib/build.js.**
  One sequential loop over the top-level items.
- **The page helpers.**
  - `mapOutPath`;
  - `extractTitle`, whose regular expression is modelled character by
    character;
  - `isReservedFile`;
  - the two `htmlShell` variants;
  - the sitemap page list built by `collect` in src/build.js.
- **Two release checks.** The publish guard (scripts/guard-publish.js) and
  the post-build HTML check (packages/helpers/verify-build.js).

The network, the disk and the renderer are parameters:

- a map from URI to document, or to HTTP response;
- directory trees given as values;
- `slugify`, the SHA-256 digest and the MDX/React rendering given as
  functions.

Files and modules:

| file | module | models |
|---|---|---|
| text.dfy | Text | JS `\s`, line terminators, ASCII case folding, prefix/suffix/substring, `trim`, `String(n)` |
| json.dfy | Json | JSON values, truthiness, property lookup, `||`, `String(v)` |
| labels.dfy | Labels | `firstLabelString` |
| canonical.dfy | Canonical | `deepSort`, `JSON.stringify`, `stableStringify`, `computeHash` |
| manifest_cache.dfy | ManifestCache | the index, slug allocation, cache load/save/flush, invalidation |
| walk.dfy | CollectionWalk | `collectTasksFromCollection` |
| chunks.dfy | Chunking | chunk size, chunk count, `tasks.slice` |
| run.dfy | TaskRun | running tasks in sequence and in chunks, for any step |
| ordered_log.dfy | OrderedLog | `logs`, `nextPrint`, `tryFlush` |
| pool.dfy | RenderPool | the worker loop, the chunk loop and `buildIiifCollectionPages` of iiif.js |
| flat_build.dfy | FlatBuild | `buildIiifCollectionPages` of build.js |
| html.dfy | Html | `htmlShell` |
| dir_tree.dfy | DirTree | directory entries, `path.join`, `path.basename` |
| pages.dfy | Pages | `mapOutPath`, `extractTitle`, `isReservedFile`, `collect` |
| guard.dfy | PublishGuard | scripts/guard-publish.js |
| verify_build.dfy | VerifyBuild | packages/helpers/verify-build.js |

## Model

| member | source | states |
|---|---|---|
| Labels.FirstLabelString | packages/lib/iiif.js:23-31 | A falsy or absent label reads as "Untitled". A non-empty string label is returned as it is. The copy at packages/lib/build.js:376-384 is the same function. |
| Labels.ObjectLabelCases | packages/lib/iiif.js:26-30 | For a language-map label: an empty map gives "Untitled", and so does a first language whose value is not a non-empty array, whatever later languages hold. Otherwise the result is `String` of the first entry of the first language. "First" is insertion order, which is `Object.keys` order when no language key is integer-like (see "## Left out"). |
| Labels.LanguageMapRoundTrip | packages/lib/iiif.js:26-29 | A Presentation 3.0 map whose first language lists `title` first reads back as `title`. This holds in the source when no language key is integer-like (see "## Left out"). |
| Json.FirstTruthyString | packages/lib/iiif.js:261-262 | `String(a || b || '')`: the first truthy of the two rendered by `String`, else "". |
| Canonical.InsertField | packages/lib/iiif.js:86 | Assigning a key into a key-sorted object keeps it sorted. It adds exactly that key, holds the new field, and keeps every field of another key. |
| Canonical.SortFields | packages/lib/iiif.js:85-86 | Re-inserting the keys in sorted order gives strictly sorted keys, the same key set, and only original fields. |
| Canonical.SortFieldsSorted | packages/lib/iiif.js:85 | An object whose keys are already sorted is rebuilt unchanged. |
| Canonical.StrLtTotal | packages/lib/iiif.js:85 | The default `sort()` order of distinct keys is total. `StrLtTransitive` and `StrLtIrreflexive` give the rest of a strict order. |
| Canonical.DeepSortArray | packages/lib/iiif.js:82 | Arrays keep length and order, with every element sorted in turn. |
| Canonical.DeepSortPrimitive | packages/lib/iiif.js:89 | Null, booleans, numbers and strings are returned unchanged. |
| Canonical.DeepSortObject | packages/lib/iiif.js:83-88 | An object comes back with the same key set, keys strictly increasing, and each key mapped to the sorted form of its original value. |
| Canonical.DeepSortIdempotent | packages/lib/iiif.js:81-90 | `deepSort(deepSort(v)) == deepSort(v)`. |
| Canonical.DeepSortKeyOrderInsensitive | packages/lib/iiif.js:81-90 | Two documents that differ only in key order, at any depth, sort to the same tree. |
| Canonical.StableStringifyKeyOrderInsensitive | packages/lib/build.js:622-633 | Such documents serialise identically, and so hash identically under any digest. |
| Canonical.StableStringifyOfSorted | packages/lib/build.js:631-633 | Canonicalising a canonical tree does not change its serialisation. |
| Chunking.AtLeastOne | packages/lib/iiif.js:291 | `Math.max(1, n)` is at least 1 and at least n, and equals n for n ≥ 1. |
| Chunking.ChunkSizeSetting | packages/lib/iiif.js:282 | The chunk size is always ≥ 1. An unset (0) setting gives 10, a positive setting is used as is, and a negative one gives 1. |
| Chunking.ChunkCountIsCeiling | packages/lib/iiif.js:283 | The chunk count is at least 1. It is the least count whose chunks of `size` hold all n tasks. |
| Chunking.ChunkBounds | packages/lib/iiif.js:287 | No chunk is longer than the size. A chunk that starts inside the list is non-empty. |
| Chunking.FlattenChunks | packages/lib/iiif.js:286-287 | The first k chunks, joined, are the prefix of the tasks up to `k*size` (clamped). |
| Chunking.ChunksReassemble | packages/lib/iiif.js:283-287 | Chunking loses, repeats and reorders no task. All the chunks joined are the task list, and each is at most `size` long. |
| Chunking.NoIdleChunk | packages/lib/iiif.js:283-287 | With tasks present every chunk has work. With none there is exactly one, empty, chunk. |
| TaskRun.RunAppend | packages/lib/iiif.js:286-287 | Running a then b is running a + b, for states and for per-task results alike. |
| TaskRun.LastWriteWins | packages/lib/iiif.js:408 | When each step writes at most one entry of a table, the entry a task writes survives unless a later task writes the same key. |
| TaskRun.ChunkingPreservesRun | packages/lib/iiif.js:286-287 | Running the tasks chunk by chunk gives the same per-task results, in order, and the same final state as one run over the whole list. |
| OrderedLog.FirstMissing | packages/lib/iiif.js:297 | The print boundary: every slot before it is filled, and the slot at it (if any) is empty. |
| OrderedLog.EmptySlotBlocksLater | packages/lib/iiif.js:297 | An empty slot holds back every later slot's lines for good. |
| OrderedLog.LogBuffer.constructor | packages/lib/iiif.js:293-294 | `new Array(chunk.length)` with `nextPrint = 0`: all slots empty, nothing printed. |
| OrderedLog.LogBuffer.TryFlush | packages/lib/iiif.js:295-306 | Prints filled slots from `nextPrint` on and clears each. Afterwards the printed output is exactly the lines of the filled prefix, in slot order. The output only grows, and `nextPrint` never moves back. |
| OrderedLog.LogBuffer.Complete | packages/lib/iiif.js:418-419 | `logs[idx] = lns; tryFlush()` for a slot not yet handed in records the lines. Output stays the filled prefix in slot order, extending what was printed before. |
| OrderedLog.FlushInAnyOrder | packages/lib/iiif.js:418-423 | In whatever order the workers hand in their lines, once every task has done so the output is all of them, in task order. |
| OrderedLog.FeedInOrder | packages/lib/iiif.js:418-419 | Handing in the given slots, each once, prints exactly the slots before the first one never filled. |
| CollectionWalk.Fetch | packages/lib/iiif.js:54-70 | `readJsonFromUri` against a fixed map of documents: a document exactly for a non-empty URI the map holds. |
| CollectionWalk.ColIdValue | packages/lib/iiif.js:252 | The collection id prefers `id`, and falls back to the parent URI, which makes it truthy whenever that URI is non-empty. |
| CollectionWalk.DocType | packages/lib/iiif.js:272 | A missing or falsy fetched document has type "". |
| CollectionWalk.FetchedRank | packages/lib/iiif.js:252 | A fetched document is always guarded by `visited`, under a key drawn from the finite set of document keys. With ids compared as strings (see "Ids" below), this is why the walk terminates. |
| CollectionWalk.WalkCol | packages/lib/iiif.js:250-258 | The walk only adds to `visited`, and only keys of fetched documents or the root's. It only appends tasks. A guarded collection ends up in `visited`. |
| CollectionWalk.WalkItems | packages/lib/iiif.js:259-279 | The item loop only appends tasks and only adds document keys to `visited`. |
| CollectionWalk.WalkItem | packages/lib/iiif.js:260-278 | The same for a single item, whether it is a manifest, a sub-collection or an untyped http(s) item. |
| CollectionWalk.WalkItemsAppend | packages/lib/iiif.js:259-279 | Depth-first order: the items before a point are walked completely, sub-collections included, before the next item. |
| CollectionWalk.ManifestItemsInOrder | packages/lib/iiif.js:263-264 | A list of manifests yields one task per entry, in list order, each with the collection's key as parent. Duplicates are kept, nothing is fetched and `visited` is unchanged. |
| CollectionWalk.ManifestTestedFirst | packages/lib/iiif.js:263-265 | An item typed as both manifest and collection becomes a task and is never fetched. |
| CollectionWalk.UntypedLocalItemSkipped | packages/lib/iiif.js:269 | An untyped item without an http(s) id is passed over without a fetch. |
| CollectionWalk.SecondVisitIsNoOp | packages/lib/iiif.js:254-256 | Once a guarded collection has been walked, reaching any collection with the same id changes nothing. Each non-empty id is expanded at most once. |
| CollectionWalk.UnguardedAlwaysExpanded | packages/lib/iiif.js:252-258 | A collection whose id is empty is not guarded: it is expanded every time, whatever `visited` holds. |
| CollectionWalk.FirstVisitExpands | packages/lib/iiif.js:254-258 | A guarded collection met for the first time is marked visited, and its items are walked under its key. |
| CollectionWalk.SelfItemIsNoOp | packages/lib/iiif.js:265-268 | An entry pointing back at a collection already visited changes nothing. |
| CollectionWalk.SelfListingCollection | packages/lib/iiif.js:250-279 | A collection that lists itself is expanded once, yielding exactly its own manifests. |
| CollectionWalk.TaskCollector.constructor | packages/lib/iiif.js:249 | Starts with no tasks and an empty `visited` set. |
| CollectionWalk.TaskCollector.CollectTasksFromCollection | packages/lib/iiif.js:250-280 | The recursive method over the shared `tasks` array and `visited` set leaves exactly the state of the walk function. |
| CollectionWalk.CollectAll | packages/lib/iiif.js:281 | The root call on a fresh collector yields the walk's task list. |
| ManifestCache.Candidate | packages/lib/iiif.js:134-141 | Every candidate extends the base. Only attempt 0 is the bare base. |
| ManifestCache.CandidateInjective | packages/lib/iiif.js:141 | Different attempts never produce the same slug. |
| ManifestCache.FirstAcceptableFrom | packages/lib/iiif.js:136-142 | The search stops at the first candidate that is free or already held by this id, and every skipped candidate was not acceptable. It terminates because each rejection uses up a held slug. |
| ManifestCache.AllocateSlugSpec | packages/lib/iiif.js:133-142 | The allocated slug extends the base and is free or already this id's. Every earlier candidate is held by some other manifest. |
| ManifestCache.AllocatePreservesInjective | packages/lib/iiif.js:133-147 | Storing the allocated slug keeps slugs unique across manifests. |
| ManifestCache.AllocateIdempotent | packages/lib/iiif.js:136-140 | Saving the same id with the same base again returns the slug it already holds. |
| ManifestCache.CollisionScenario | packages/lib/iiif.js:133-142 | Two untitled manifests get "untitled" and "untitled-1", and each keeps its slug on a rebuild. |
| ManifestCache.BaseSlug | packages/lib/iiif.js:130-132 | The base slug is never empty. An empty title is slugged as "untitled". |
| ManifestCache.ShouldFlushIgnoresHash | packages/lib/iiif.js:226-231 | The cache is flushed exactly when the URI changed or there is no previous signature. A different hash at the same URI never flushes. |
| ManifestCache.CachedManifest | packages/lib/iiif.js:112-124 | Gives nothing for an empty id, an id without a slug, or a slug without a file. Otherwise gives the file the slug names. |
| ManifestCache.SaveThenLoad | packages/lib/iiif.js:126-150 | A saved manifest is what a later lookup of the same non-empty id returns. Every other id keeps its slug. |
| ManifestCache.ManifestCache.constructor | packages/lib/iiif.js:101 | A cold cache: empty index, no signature, no files. |
| ManifestCache.ManifestCache.FindSlug | packages/lib/iiif.js:133-142 | The `while` loop returns exactly the first acceptable candidate (`AllocateSlug`). |
| ManifestCache.ManifestCache.SaveCachedManifest | packages/lib/iiif.js:126-150 | Writes the manifest under the allocated slug and points `byId[id]` at it, changing nothing else. Slugs stay unique, and a lookup of the id then returns the manifest. packages/lib/build.js:571-597 follows the same rule. |
| ManifestCache.ManifestCache.FlushManifestCache | packages/lib/iiif.js:152-157 | Removes every cached manifest file and leaves the index alone. |
| ManifestCache.ManifestCache.CheckAndMaybeFlush | packages/lib/iiif.js:225-244 | Flushes files and resets `byId` exactly under the invalidation rule, keeping both otherwise. It always records the current URI, the hash and the time. |
| ManifestCache.InvalidationAcrossBuilds | packages/lib/iiif.js:225-244 | Across builds, switching the collection URI empties the index. Rebuilding the same URI with changed content keeps it. |
| ManifestCache.LoadIndexNormalized | packages/lib/iiif.js:92-102 | The loaded index always has exactly the keys byId, collection and parents. A missing, unreadable, falsy or non-object file gives the empty index. |
| ManifestCache.NormalizedIndex | packages/lib/iiif.js:107 | The saved index always has exactly those three keys. |
| ManifestCache.SavedIndexLoadsBack | packages/lib/iiif.js:104-110 | An index written by `saveManifestIndex` loads back unchanged. |
| ManifestCache.LoadIndexRaw | packages/lib/build.js:536-544 | The flat build returns any object as it is, without normalisation. Anything else gives `{byId: {}, collection: null}`. |
| RenderPool.PageHref | packages/lib/iiif.js:346-351 | The page href is always `works/…​.html`. |
| RenderPool.RenderOutcome | packages/lib/iiif.js:345-417 | A usable manifest reaches the log slot and adds exactly one line. A page and a search record are written together, exactly when rendering succeeds. The page is at `site/<href>`, with the manifest's title and the rendered body. |
| RenderPool.TaskContract | packages/lib/iiif.js:307-419 | The lines of a task reach the ordered log exactly when it obtained a usable manifest, and page and record follow that manifest's rendering. The cache is written exactly after a successful fetch whose body parsed, and never for a cached manifest. |
| RenderPool.CachedNotFetched | packages/lib/iiif.js:317-318 | A cached manifest is not fetched: "Cached" first, no save. |
| RenderPool.NonHttpSkipped | packages/lib/iiif.js:338-342 | An uncached id that is not http(s) gives a single "SKIP" line, is not logged and writes nothing. |
| RenderPool.RecordIdPrefersManifestId | packages/lib/iiif.js:410-414 | The record's id is the manifest's own truthy id, else the task id. |
| RenderPool.PagesAreShells | packages/lib/iiif.js:351-408 | Every written page lies under `site/works/`, ends in `.html` and is a doctype-headed HTML shell. |
| RenderPool.SameTitleSamePage | packages/lib/iiif.js:345-352 | Two manifests with the same title write the same page path, even though the cache numbers their slugs apart. |
| RenderPool.RunKeepsRecordPages | packages/lib/iiif.js:408-414 | Over any run of tasks, every search record points at a page that was written. |
| RenderPool.FetchedOnceThenCached | packages/lib/iiif.js:313-329 | A manifest fetched and saved by one task is served from the cache to a later task with the same id. |
| RenderPool.FilledSlotsPrintAll | packages/lib/iiif.js:295-306 | With every slot filled, the buffer prints every task's lines in task order. |
| RenderPool.SkipSilencesChunk | packages/lib/iiif.js:338-342 | As written, an uncached non-http(s) task at the head of a chunk leaves the chunk's printed log empty. Its own "SKIP" line would have been the first line. |
| RenderPool.ChunkingKeepsOutcomes | packages/lib/iiif.js:286-287 | The chunked run does per task and overall exactly what one run over the whole task list does. |
| RenderPool.ChunkedLogNext | packages/lib/iiif.js:286-289 | Each further chunk adds its header, then what its pool prints for its tasks, run from the state the earlier chunks left. As written, that is the lines before the chunk's first task that `continue`s; corrected, every task's lines. |
| RenderPool.SingleChunkLog | packages/lib/iiif.js:283-289 | With no more tasks than the chunk size, the output is one "Chunk (1/1)" header, then what the one pool prints. As written, that is the lines before the first task that `continue`s; corrected, every task's lines in order. |
| RenderPool.SkipSilencesStage | packages/lib/iiif.js:283-343 | The whole stage as written: when the tasks fit in one chunk and the first is an uncached non-http(s) id, only the "Chunk (1/1)" header is printed. The corrected pool prints that task's "SKIP" line right after the header. |
| RenderPool.Aggregator.constructor | packages/lib/iiif.js:285 | Starts with no pages, no search records and no output. |
| RenderPool.Aggregator.ProcessTask | packages/lib/iiif.js:308-419 | One pass of the worker loop does exactly what the task specification says to the cache, the pages and the records. It prints nothing itself. |
| RenderPool.Aggregator.ProcessAll | packages/lib/iiif.js:307-311 | Claiming the chunk's indices through the `next` cursor runs each task exactly once, in order. |
| RenderPool.Aggregator.RunChunk | packages/lib/iiif.js:292-423 | Corrected chunk: every task fills its slot, so the chunk prints all its tasks' lines in task order. |
| RenderPool.Aggregator.RunChunkAsWritten | packages/lib/iiif.js:292-423 | Chunk as written: tasks that `continue` leave their slot empty. The chunk prints only the lines before the first such task. |
| RenderPool.Aggregator.RunChunkAt | packages/lib/iiif.js:287-423 | One pass of the chunk loop prints the header "Chunk (ci+1/count)", then runs the chunk's pool from the state the earlier chunks left. With `corrected` false the pool is the one as written (`RunChunkAsWritten`), with it true the corrected one (`RunChunk`). |
| RenderPool.Aggregator.Aggregate | packages/lib/iiif.js:282-424 | The chunk loop ends in the state of running all tasks in order, whichever pool runs. It prints the "Aggregating" line, then each chunk's header and what that chunk's pool prints. As written (`corrected` false), a chunk prints nothing from its first `continue`ing task on. |
| RenderPool.Aggregator.AggregateCollection | packages/lib/iiif.js:249-285 | Walks the collection, then aggregates its tasks from a fresh record list. The returned records are those the run produced, and the console is that of the chunk loop, as written or corrected. The collection signature and `parents` are left as they were. |
| RenderPool.Aggregator.BuildIiifCollectionPages | packages/lib/iiif.js:201-426 | With no works layout or no truthy collection, it logs one line and returns no records, and pages, search records, the manifest index, the manifest files and the signature stay as they were. Otherwise it logs the intro, applies the invalidation rule, records the signature, and aggregates the walked tasks from the resulting cache. With `corrected` false the console is that of iiif.js as written; with it true, every task's lines print. `parents` is never changed. |
| FlatBuild.ReadRemote | packages/lib/build.js:599-620 | An http(s) read gives a document exactly for an OK response whose body parses, printing nothing. Otherwise it gives `null` after exactly one warning. A global `fetch` is assumed; without one the source returns `null` silently (see "## Left out"). |
| FlatBuild.Resolve | packages/lib/build.js:455-465 | Only a truthy fetched document is saved, and it is the manifest the item goes on with. |
| FlatBuild.RenderItem | packages/lib/build.js:466-507 | An unresolved item ends with its warning and writes no page. A resolved one writes `site/works/<slugify(title)>.html` exactly when rendering succeeds. Either way exactly one line is added. |
| FlatBuild.ResolveContract | packages/lib/build.js:454-465 | Resolution finds a usable manifest exactly when there is one: cached, or else fetched for an http(s) id. It saves exactly when that manifest was not cached. |
| FlatBuild.ItemContract | packages/lib/build.js:451-508 | A falsy item is passed over silently. A page is written exactly when a manifest resolves and renders. The cache is written exactly for an uncached manifest that was resolved. |
| FlatBuild.PagesNeverRemoved | packages/lib/build.js:451-508 | No item removes a page written earlier. |
| FlatBuild.LastWriterWins | packages/lib/build.js:478-499 | After the loop, a page path holds the page of the last item that wrote it. |
| FlatBuild.SameTitleSameFile | packages/lib/build.js:472-478 | Manifests with the same title target the same file, independent of their cache slugs. |
| FlatBuild.FetchedOnceThenCached | packages/lib/build.js:455-464 | A fetched and saved manifest is served from the cache to a later item with the same id, which saves nothing. |
| FlatBuild.AgreesWithPoolOnCached | packages/lib/build.js:455-499 | For a cached manifest, the flat build and the worker pool of packages/lib/iiif.js write the same page. |
| FlatBuild.FalsyBodyNotCached | packages/lib/build.js:459-464 | The flat build does not cache a falsy fetched body; the worker pool does. |
| FlatBuild.FlatBuilder.ResolveItem | packages/lib/build.js:455-465 | The cache lookup, fetch and save step changes the cache exactly by the save that `Resolve` calls for. |
| FlatBuild.FlatBuilder.RenderResolved | packages/lib/build.js:466-507 | The warning or page step writes at most the one page `RenderItem` gives and prints its lines. |
| FlatBuild.FlatBuilder.ProcessItem | packages/lib/build.js:452-507 | One pass of the loop does what `ItemOutcome` says, prints its lines, and leaves the state `FlatStep` gives. |
| FlatBuild.FlatBuilder.ProcessItems | packages/lib/build.js:450-508 | The `for` loop ends in the state of the items run in order, having printed each item's lines in order. |
| FlatBuild.FlatBuilder.BuildIiifCollectionPages | packages/lib/build.js:407-509 | With no layout or no collection, it logs one line and writes nothing: pages, the manifest index, the manifest files and the signature stay as they were. Otherwise it applies the invalidation rule, records the signature, and runs the loop over the top-level items from the resulting cache. `parents` is never changed. |
| Html.ScriptTag | packages/lib/common.js:22 | A script tag exactly when a script href is given, holding the href verbatim between `<script defer src="` and `"></script>`; otherwise nothing is inserted. |
| Html.HtmlShell | packages/lib/common.js:21-24 | The page starts with the doctype head and ends with `</head><body>` + body + `</body></html>`. Its length is exactly the pieces' lengths, so nothing is escaped or added. packages/lib/build.js:77-80 is the same function. |
| Html.LegacyHtmlShell | src/build.js:36-38 | The same frame with no script slot. |
| Html.ShellsAgree | src/build.js:36-38 | Without a script the two shells give the same page. A script adds exactly its tag. |
| Html.ShellFieldsVerbatim | packages/lib/common.js:22-23 | The title, the stylesheet href and, when given, the script href appear verbatim at fixed offsets inside the head. |
| DirTree.BasenameOfJoin | packages/lib/mdx.js:47 | `path.basename` of a joined entry path is the entry's name. |
| Pages.ReplaceMdxSuffix | src/build.js:27 | Only a final `.mdx`, in any letter case, becomes `.html`. Every other path is unchanged. |
| Pages.MdxBecomesHtml | src/build.js:25-29 | Any spelling of `.mdx` maps to `.html` with the stem kept. |
| Pages.ReplaceMdxIdempotent | packages/lib/build.js:66-70 | Mapping an already mapped path changes nothing. |
| Pages.InnerMdxKept | src/build.js:27 | `.mdx` inside a name, such as `a.mdx.txt`, is not an extension and is kept. |
| Pages.ReservedByName | packages/lib/mdx.js:46-49 | A path is reserved exactly when its last segment starts with `_`. A `_` directory above does not count. |
| Pages.TextGroup | packages/lib/mdx.js:42 | The captured group is a non-empty piece of one line, found after the `#`. |
| Pages.HeadingIsPieceOfSource | packages/lib/mdx.js:42 | A matched heading is a non-empty piece of the source with no line break. |
| Pages.TitleIsTrimmedPiece | packages/lib/mdx.js:43 | The title occurs in the source and has no whitespace at either end. |
| Pages.NoHashUntitled | packages/lib/mdx.js:42-43 | A source without `#` is titled "Untitled". |
| Pages.DoubleHashIsNotTitle | packages/lib/mdx.js:42 | `## Sub` alone is not a title. |
| Pages.HashThenNewline | packages/lib/mdx.js:42 | Because `\s+` matches a line break, a lone `#` followed by a line of text takes that line as the title. |
| Pages.FirstLineHeading | src/build.js:31-34 | A first line `# text` gives the trimmed text, whatever follows. |
| Pages.TopLevelFile | src/build.js:188-195 | A file in the content directory is listed exactly when it is a non-reserved, non-sitemap `.mdx` file. It is listed under its `.html` name with the title of its text. |
| Pages.SitemapAndReservedNotListed | src/build.js:188-193 | `sitemap.mdx` in any letter case, and any `_` file, is never listed. |
| Pages.HrefsAreHtml | src/build.js:192 | Every href collected ends with `.html`. |
| Pages.CollectPagesAppend | src/build.js:183-198 | Sub-directory results are spliced in entry order. |
| Pages.CollectPagesExactly | src/build.js:183-198 | At any depth: an entry is collected exactly when some regular file below the content directory passes `Listed`. The entry carries that file's title and its mapped relative path. |
| Pages.FileRule | src/build.js:188-195 | The rule for a regular file: listed, with its title and mapped relative path, exactly when `Listed` holds. |
| Pages.DirRule | src/build.js:187 | A directory contributes the pages of its own entries, under its relative path. |
| Pages.OtherRule | src/build.js:187-188 | Links and other entries contribute nothing. |
| Pages.PageCollector.Collect | src/build.js:183-198 | The recursive method appends exactly the pages `CollectPages` specifies to the shared `pages` array. |
| Pages.PageCollector.CollectOne | src/build.js:185-188 | One entry appends exactly that entry's pages. |
| Pages.PageCollector.CollectFile | src/build.js:188-195 | One file appends exactly its page, or nothing. |
| Text.TrimBounds | packages/lib/mdx.js:43 | `trim()` leaves no whitespace at either end and returns a piece of its input. |
| PublishGuard.NameOf | scripts/guard-publish.js:35 | The name is the library's exactly when `pkg.name` is the library's name. |
| PublishGuard.EntryDecides | scripts/guard-publish.js:29-42 | An entry lets the check go on exactly when it follows the policy. |
| PublishGuard.EntriesPass | scripts/guard-publish.js:30-44 | The loop succeeds, with the OK line, exactly when every entry follows the policy. |
| PublishGuard.GuardPassesIffCompliant | scripts/guard-publish.js:13-45 | The guard passes exactly when the root is readable and private and every package directory follows the policy. |
| PublishGuard.FirstViolationDecides | scripts/guard-publish.js:30-43 | A failure is the verdict of the first offending entry, with every entry before it compliant. |
| PublishGuard.PublicWorkspaceReported | scripts/guard-publish.js:35-42 | A public nameless workspace fails and is reported as "(unnamed)". |
| PublishGuard.LibMustBePublic | scripts/guard-publish.js:37-40 | The library fails exactly when marked private, and otherwise passes. |
| PublishGuard.NonDirectoriesIgnored | scripts/guard-publish.js:29 | Files in `packages/` are ignored, whatever they hold. |
| VerifyBuild.FileRule | packages/helpers/verify-build.js:15 | A file contributes its path exactly when the lowered path ends in `.html`. Other entries contribute nothing. |
| VerifyBuild.DirRule | packages/helpers/verify-build.js:14 | A directory contributes its own files, found recursively. |
| VerifyBuild.AllHtmlUnderDir | packages/helpers/verify-build.js:8-18 | Soundness: every path found is an HTML file below the directory. |
| VerifyBuild.TopLevelHtmlFound | packages/helpers/verify-build.js:12-15 | Completeness at the top level: an HTML file listed in the directory is found. |
| VerifyBuild.HtmlFilesExactly | packages/helpers/verify-build.js:8-18 | At any depth: a path is returned exactly when it names a regular file somewhere below the directory and its lowered form ends in `.html`. |
| VerifyBuild.PassesIffSomePage | packages/helpers/verify-build.js:20-27 | The check passes exactly when at least one HTML file exists somewhere below `site`. |
| VerifyBuild.HtmlFilesAppend | packages/helpers/verify-build.js:12-16 | Sub-directory results are spliced in entry order. |
| VerifyBuild.FindHtmlFiles | packages/helpers/verify-build.js:8-18 | The loop with its recursive calls returns exactly `HtmlFiles`. |
| VerifyBuild.FoundPages | packages/helpers/verify-build.js:10 | A missing directory yields the empty list. |
| VerifyBuild.CheckSite | packages/helpers/verify-build.js:20-28 | The check fails, with its two lines, exactly when no page is found. It crashes exactly when `site` is not a directory. |
| VerifyBuild.AbsentFails | packages/helpers/verify-build.js:10 | A missing output directory fails the check. |
| VerifyBuild.PassesWithTopLevelPage | packages/helpers/verify-build.js:20-27 | One top-level HTML file is enough to pass. |
| VerifyBuild.PassedCountsPages | packages/helpers/verify-build.js:27 | The success line reports the positive number of pages found. |

## Left out

- **Disk and network I/O.** Reading and writing files, `fetch`, `readdir` and `existsSync` are modelled as values:
  - the cache directory is a map field of `ManifestCache`;
  - the network is a map from URI to response;
  - directories are `DirTree.Entry` trees.
  The source also re-reads `manifest-index.json` on every lookup; the model keeps one index in memory, so races between concurrent workers reading and writing it are not captured.
- **External libraries.**
  - `slugify`, the SHA-256 digest and the MDX/React rendering are function parameters.
  - Rendering either gives a body or throws; failing to write a page counts as a throw.
  - `normalizeToV3` is taken as the identity.
  - `path.relative` gives the constant hrefs `../styles.css` and `../canopy-viewer.js`.
- **Concurrency.**
  - The `Promise.all` workers are run one after another in task order, so `searchRecords` order is task order.
  - `FlushInAnyOrder` shows that the ordered log prints the same lines whatever order tasks finish in.
  - The concurrency setting (`Math.max(1, …)`, packages/lib/iiif.js:291) therefore has no effect in the model.
- **Configuration.** `Number()` coercion of settings (NaN, fractions), environment variables, `canopy.yml` and `loadConfig` are not modelled. A chunk-size setting is an integer, with 0 standing for unset.
- **String details.**
  - Strings compare by code point; JavaScript's UTF-16 order differs only outside the Basic Multilingual Plane.
  - Lower-casing is ASCII only, which is what the `i` regex flag and the `.html`/`sitemap.mdx` comparisons need.
- **Ids.** Ids and type names are read through `String(…)`. The ids `visited` records are those strings, so a non-string id equal as a string to another is treated as the same.
  - The source keeps `colId` as it is (packages/lib/iiif.js:252), and `visited.has` (packages/lib/iiif.js:255) compares objects by identity.
  - Each `readJsonFromUri` parses a fresh object, so a self-listing collection whose `id` is an object is fetched again without end in the source.
  - The string abstraction is what makes the modelled walk terminate.
- **Error paths whose output is not modelled.**
  - The exception message in the "Failed to load" warning of packages/lib/build.js:617 is omitted.
  - The warnings `readJsonFromUri` prints while fetching the collection itself are not part of the console model of FlatBuild.
  - `computeHash` returning "" on an exception cannot arise: the modelled JSON values have no cycles or BigInts.
- **Console details.**
  - The "Cached manifest ->" line prints `dest`, an absolute path, because the manifest directory is resolved against the working directory (packages/lib/build.js:28-29, 595). The model prints the relative path `.cache/iiif/manifests/<slug>.json` instead.
  - The `{dim: true}` style of the flush line is dropped.
- **Loop exits that cannot happen.** `if (!it) break` in the worker (packages/lib/iiif.js:310) ends only when the cursor passes the end, since every task is a truthy object.
- **The `parents` field.** It is kept by `ManifestCache` and never written, as in the source.
- **Everything else.** The rest of packages/lib/build.js and src/build.js is not part of this model: MDX compilation, the layouts, `walk`, `processEntry` and asset copying. So are the dev server, the logging sink and the UI packages.
- Labels.FirstLabelString: the first language is the first field in insertion order. `Object.keys` (packages/lib/iiif.js:26, packages/lib/build.js:379) lists integer-like keys first, in numeric order. So `{"en":["A"],"0":["B"]}` reads as "B" in the source and "A" in the model. `Labels.ObjectLabelCases` and `Labels.LanguageMapRoundTrip` match the source only when no language key is integer-like. Language keys are BCP 47 tags such as "en" or "none", which are never integer-like.
- FlatBuild.ReadRemote: a global `fetch` is assumed. Without one, packages/lib/build.js:602 and packages/lib/iiif.js:57 return `null` for every http(s) URI and print nothing. The network map has no such case, so the model always prints one warning for a failed read.
- Canonical.DeepSortObject: keys are ordered by code point at every level. JavaScript enumerates integer-like keys first, in numeric order, whatever the insertion order. So for `{"b":1,"10":2,"9":3}` the source's `stableStringify` gives `{"9":3,"10":2,"b":1}`, and the model gives `{"10":2,"9":3,"b":1}`. Key-order insensitivity, idempotence and the hash equalities do not depend on this. Numbers are integers only (`JNum(int)`): fractions, exponents and non-finite values, and their `String()` and `JSON.stringify` forms, are not modelled.
- ManifestCache.ManifestCache.FindSlug: requires the index to be injective (`Valid`). The source does not check this, but every index this code writes is injective (`AllocatePreservesInjective`, and the flush resets `byId`). With a hand-edited, non-injective index, `find` returns the first key in insertion order, which a map does not keep.

## Findings

| source | as written | input that shows it | evidently intended | confidence | as-written member | corrected member |
|---|---|---|---|---|---|---|
| packages/lib/iiif.js:330-343, 418-419 | A worker that hits a fetch failure, a parse error, a non-http(s) id or a falsy body runs `continue`, which skips `logs[idx] = lns`. `tryFlush` stops at the first unset slot, so that task's "✗ … ERR/SKIP/<status>" line and every later task's lines in the chunk are never printed. | A chunk whose first task id is `urn:x` (not cached, not http(s)): its "✗ urn:x ➜ SKIP" line is pushed to `lns`, the slot stays empty, and nothing of the chunk is printed. | Every task hands its buffered lines to `logs[idx]`, including those that give up, so the chunk prints every task's lines in order. | not executed | RenderPool.SkipSilencesStage (with RenderPool.SkipSilencesChunk, RenderPool.Aggregator.RunChunkAsWritten, and RenderPool.Aggregator.BuildIiifCollectionPages with `corrected` false) | RenderPool.Aggregator.RunChunk (with RenderPool.FilledSlotsPrintAll, and RenderPool.Aggregator.BuildIiifCollectionPages with `corrected` true) |
