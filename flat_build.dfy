/** The first iteration of the IIIF page build, `buildIiifCollectionPages`
    of packages/lib/build.js: one flat, sequential loop over the top-level
    `items` of the collection. Each item is served from the manifest cache or
    fetched with `readJsonFromUri`, saved to the cache when the fetch gives a
    truthy document, and rendered into `site/works/<slug>.html`. There is no
    search index, no chunking and no ordered log: lines are printed as they
    happen. */
module FlatBuild {
  import opened Text
  import opened Json
  import opened OrderedLog
  import opened Chunking
  import MC = ManifestCache
  import CollectionWalk
  import RenderPool
  import TaskRun
  import Html
  import Canonical

  /* ---------------- what one item prints ---------------- */

  function HttpErrorLine(uri: string, status: int): LogLine {
    LogLine("IIIF: HTTP error for " + uri + " " + IntToString(status), Warning)
  }

  /** The `catch` of `readJsonFromUri`; the exception's message is not part
      of the model. */
  function FailedToLoadLine(uri: string): LogLine {
    LogLine("IIIF: Failed to load " + uri, Warning)
  }

  function CachedManifestLine(slug: string): LogLine {
    LogLine("IIIF: Cached manifest -> .cache/iiif/manifests/" + slug + ".json", Plain)
  }

  function UnresolvedLine(id: string): LogLine {
    LogLine("IIIF: Could not resolve manifest for item id: " + id, Warning)
  }

  function BuiltLine(path: string): LogLine {
    LogLine("IIIF: Built " + path, Plain)
  }

  function RenderFailedLine(id: string, message: string): LogLine {
    LogLine("IIIF: Failed to render page for manifest " + (if id == "" then "<unknown>" else id) + " " + message, Warning)
  }

  const FlushLine := LogLine("IIIF: Source collection signature changed; flushing manifest cache.", Plain)

  /* ---------------- one item ---------------- */

  /** What `readJsonFromUri` returns for an http(s) URI, with what it prints. */
  datatype Fetched = Fetched(doc: Option<Json>, lines: seq<LogLine>)

  /** `readJsonFromUri(uri)` for an http(s) URI: the parsed body of a
      successful response, or `null` after a warning (an HTTP error status,
      or a rejected fetch or unparsable body caught by the `catch`). */
  function ReadRemote(net: map<string, RenderPool.Response>, uri: string): (r: Fetched)
    ensures r.doc.Some? <==>
      RenderPool.Respond(net, uri).Answer? && RenderPool.IsOk(RenderPool.Respond(net, uri).status)
      && RenderPool.Respond(net, uri).body.Some?
    ensures r.doc.Some? ==> r.doc == RenderPool.Respond(net, uri).body && r.lines == []
    ensures r.doc.None? ==> |r.lines| == 1 && r.lines[0].color == Warning
  {
    match RenderPool.Respond(net, uri)
    case Unreachable => Fetched(None, [FailedToLoadLine(uri)])
    case Answer(status, body) =>
      if !RenderPool.IsOk(status) then Fetched(None, [HttpErrorLine(uri, status)])
      else if body.None? then Fetched(None, [FailedToLoadLine(uri)])
      else Fetched(body, [])
  }

  /** The cache and the pages under `site/`. */
  datatype FlatState = FlatState(store: RenderPool.Store, pages: map<string, RenderPool.Page>)

  /** What one pass of the loop does: the lines it prints, the manifest it
      saves to the cache and the page it writes. */
  datatype FlatOutcome = FlatOutcome(lines: seq<LogLine>, save: Option<Json>, page: Option<RenderPool.Page>)

  /** The HTML a page of this build holds: the viewer script is always
      linked. */
  function FlatPageHtml(p: RenderPool.Page): string {
    Html.HtmlShell(p.title, p.body, RenderPool.CssHref, RenderPool.ViewerHref)
  }

  /** The manifest the loop fetches for `id` when the cache has no truthy
      one: only http(s) ids are fetched. */
  function Remote(env: RenderPool.Env, cached: Option<Json>, id: string): Fetched {
    if !TruthyOpt(cached) && IsHttpUrl(id) then ReadRemote(env.net, id) else Fetched(None, [])
  }

  /** Where an item's manifest comes from: the manifest the loop goes on
      with, the one it saves to the cache and the lines printed so far. */
  datatype Resolution = Resolution(manifest: Option<Json>, save: Option<Json>, lines: seq<LogLine>)

  /** The first half of a pass: the cached manifest, or else a fetched one,
      which is saved when truthy. */
  function Resolve(env: RenderPool.Env, s: FlatState, id: string): (r: Resolution)
    ensures r.save.Some? ==> r.manifest == r.save && Truthy(r.save.value)
  {
    var cached := MC.CachedManifest(s.store.byId, s.store.files, id);
    var fetched := Remote(env, cached, id);
    if TruthyOpt(fetched.doc) then
      Resolution(fetched.doc, fetched.doc,
                 fetched.lines + [CachedManifestLine(MC.SavedSlug(s.store.byId, env.slugify, fetched.doc.value, id))])
    else Resolution(cached, None, fetched.lines)
  }

  /** The second half of a pass: warn about an unresolved item, or render the
      manifest into `site/works/<slug>.html`. */
  function RenderItem(env: RenderPool.Env, id: string, r: Resolution): (o: FlatOutcome)
    ensures o.save == (if TruthyOpt(r.manifest) then r.save else None)
    ensures |o.lines| == |r.lines| + 1 && o.lines[..|r.lines|] == r.lines
    ensures !TruthyOpt(r.manifest) ==> o.lines[|r.lines|] == UnresolvedLine(id) && o.page.None?
    ensures o.page.Some? <==> TruthyOpt(r.manifest) && env.render(r.manifest.value).Rendered?
    ensures o.page.Some? ==>
      var title := MC.ManifestTitle(r.manifest.value);
      o.page.value == RenderPool.Page(RenderPool.OutDir + "/" + RenderPool.PageHref(env.slugify, title),
                                      title, env.render(r.manifest.value).body)
  {
    if !TruthyOpt(r.manifest) then FlatOutcome(r.lines + [UnresolvedLine(id)], None, None)
    else
      var m := r.manifest.value;
      var title := MC.ManifestTitle(m);
      var path := RenderPool.OutDir + "/" + RenderPool.PageHref(env.slugify, title);
      match env.render(m)
      case Threw(msg) => FlatOutcome(r.lines + [RenderFailedLine(id, msg)], r.save, None)
      case Rendered(body) => FlatOutcome(r.lines + [BuiltLine(path)], r.save, Some(RenderPool.Page(path, title, body)))
  }

  /** One pass of `for (const it of items)` in state `s`. */
  function ItemOutcome(env: RenderPool.Env, s: FlatState, it: Json): FlatOutcome {
    if !Truthy(it) then FlatOutcome([], None, None)
    else
      var id := CollectionWalk.ItemId(it);
      RenderItem(env, id, Resolve(env, s, id))
  }

  /** The manifest an item works from, when it gets one: a truthy cached
      one, or else a truthy document fetched for an http(s) id. */
  function Resolved(env: RenderPool.Env, s: FlatState, id: string): Option<Json> {
    var cached := MC.CachedManifest(s.store.byId, s.store.files, id);
    if TruthyOpt(cached) then cached
    else if IsHttpUrl(id) && TruthyOpt(ReadRemote(env.net, id).doc) then ReadRemote(env.net, id).doc
    else None
  }

  /** Resolution finds a usable manifest exactly when there is one, and
      saves it exactly when it was not cached. */
  lemma ResolveContract(env: RenderPool.Env, s: FlatState, id: string)
    ensures var r := Resolve(env, s, id);
      var u := Resolved(env, s, id);
      (TruthyOpt(r.manifest) <==> u.Some?)
      && (u.Some? ==> r.manifest == u)
      && (r.save.Some? <==> u.Some? && !TruthyOpt(MC.CachedManifest(s.store.byId, s.store.files, id)))
  {
  }

  /** The contract of one item: a falsy item is passed over in silence; any
      other prints something. A page is written exactly when a manifest is
      resolved and renders, at `site/works/<slugify(title)>.html`; the cache
      is written exactly when a fetch gives a truthy document, never for a
      cached manifest; an unresolved item ends with its warning. */
  lemma ItemContract(env: RenderPool.Env, s: FlatState, it: Json)
    ensures var o := ItemOutcome(env, s, it);
      var id := CollectionWalk.ItemId(it);
      var cached := MC.CachedManifest(s.store.byId, s.store.files, id);
      var u := Resolved(env, s, id);
      (o.lines == [] <==> !Truthy(it))
      && (o.page.Some? <==> Truthy(it) && u.Some? && env.render(u.value).Rendered?)
      && (o.page.Some? ==>
            o.page.value == RenderPool.Page(RenderPool.OutDir + "/" + RenderPool.PageHref(env.slugify, MC.ManifestTitle(u.value)),
                                            MC.ManifestTitle(u.value), env.render(u.value).body))
      && (o.save.Some? <==> Truthy(it) && !TruthyOpt(cached) && u.Some?)
      && (o.save.Some? ==> o.save == u)
      && (Truthy(it) && u.None? ==> o.lines[|o.lines| - 1] == UnresolvedLine(id))
  {
    if Truthy(it) {
      ResolveContract(env, s, CollectionWalk.ItemId(it));
    }
  }

  /** The state after one item. */
  function FlatStep(env: RenderPool.Env, s: FlatState, it: Json): FlatState {
    var o := ItemOutcome(env, s, it);
    FlatState(if o.save.Some? then RenderPool.SaveTo(s.store, env.slugify, o.save.value, CollectionWalk.ItemId(it)) else s.store,
              if o.page.Some? then s.pages[o.page.value.path := o.page.value] else s.pages)
  }

  function FlatStepper(env: RenderPool.Env): (FlatState, Json) -> FlatState {
    (s: FlatState, it: Json) => FlatStep(env, s, it)
  }

  /** The state after the items, taken in order. */
  function FlatRun(env: RenderPool.Env, s: FlatState, items: seq<Json>): FlatState {
    TaskRun.Run(FlatStepper(env), s, items)
  }

  /** Everything the items print, in order. */
  function FlatLog(env: RenderPool.Env, s: FlatState, items: seq<Json>): seq<LogLine> {
    if items == [] then []
    else
      var init := items[..|items| - 1];
      FlatLog(env, s, init) + ItemOutcome(env, FlatRun(env, s, init), items[|items| - 1]).lines
  }

  lemma FlatSnoc(env: RenderPool.Env, s: FlatState, items: seq<Json>, i: nat)
    requires i < |items|
    ensures FlatRun(env, s, items[..i + 1]) == FlatStep(env, FlatRun(env, s, items[..i]), items[i])
    ensures FlatLog(env, s, items[..i + 1]) == FlatLog(env, s, items[..i]) + ItemOutcome(env, FlatRun(env, s, items[..i]), items[i]).lines
  {
    assert items[..i + 1][..i] == items[..i];
  }

  /** No item removes a page: every page present before the loop is present
      after it. */
  lemma PagesNeverRemoved(env: RenderPool.Env, s: FlatState, items: seq<Json>)
    ensures s.pages.Keys <= FlatRun(env, s, items).pages.Keys
  {
    var inv := (t: FlatState) => s.pages.Keys <= t.pages.Keys;
    forall t: FlatState, x: Json | inv(t)
      ensures inv(FlatStepper(env)(t, x))
    {
    }
    TaskRun.RunPreserves(FlatStepper(env), inv, s, items);
  }

  /** The page an item writes, keyed by its path. */
  function PageWrite(env: RenderPool.Env, t: FlatState, it: Json): Option<(string, RenderPool.Page)> {
    var o := ItemOutcome(env, t, it);
    if o.page.Some? then Some((o.page.value.path, o.page.value)) else None
  }

  /** The item that writes `p` is the last one writing its path, so the file
      at that path holds `p` after the loop: a later manifest with the same
      title overwrites the page of an earlier one. */
  lemma LastWriterWins(env: RenderPool.Env, s: FlatState, items: seq<Json>, i: nat, p: RenderPool.Page)
    requires i < |items| && ItemOutcome(env, FlatRun(env, s, items[..i]), items[i]).page == Some(p)
    requires forall j :: i < j < |items| ==>
      ItemOutcome(env, FlatRun(env, s, items[..j]), items[j]).page.None?
      || ItemOutcome(env, FlatRun(env, s, items[..j]), items[j]).page.value.path != p.path
    ensures p.path in FlatRun(env, s, items).pages && FlatRun(env, s, items).pages[p.path] == p
  {
    var table := (t: FlatState) => t.pages;
    var write := (t: FlatState, x: Json) => PageWrite(env, t, x);
    forall t: FlatState, x: Json
      ensures table(FlatStepper(env)(t, x)) == TaskRun.Put(table(t), write(t, x))
    {
    }
    TaskRun.LastWriteWins(FlatStepper(env), table, write, s, items, i, p.path, p);
  }

  /** Two manifests with the same title go to the same file. */
  lemma SameTitleSameFile(env: RenderPool.Env, s1: FlatState, it1: Json, s2: FlatState, it2: Json)
    requires ItemOutcome(env, s1, it1).page.Some? && ItemOutcome(env, s2, it2).page.Some?
    requires ItemOutcome(env, s1, it1).page.value.title == ItemOutcome(env, s2, it2).page.value.title
    ensures ItemOutcome(env, s1, it1).page.value.path == ItemOutcome(env, s2, it2).page.value.path
  {
    ItemContract(env, s1, it1);
    ItemContract(env, s2, it2);
  }

  /** A manifest fetched and saved for one item is served from the cache to
      a later item with the same id, which prints no fetch warning and saves
      nothing. */
  lemma FetchedOnceThenCached(env: RenderPool.Env, s: FlatState, it: Json, later: Json)
    requires Truthy(it) && CollectionWalk.ItemId(later) == CollectionWalk.ItemId(it) && Truthy(later)
    requires ItemOutcome(env, s, it).save.Some?
    ensures ItemOutcome(env, FlatStep(env, s, it), later).save.None?
    ensures Resolved(env, FlatStep(env, s, it), CollectionWalk.ItemId(later)) == ItemOutcome(env, s, it).save
  {
    var id := CollectionWalk.ItemId(it);
    var m := ItemOutcome(env, s, it).save.value;
    ItemContract(env, s, it);
    assert IsHttpUrl(id);
    MC.SaveThenLoad(s.store.byId, s.store.files, env.slugify, m, id);
  }

  /** For a manifest in the cache, the flat build and the worker pool of
      packages/lib/iiif.js write the same page. */
  lemma AgreesWithPoolOnCached(env: RenderPool.Env, s: FlatState, it: Json)
    requires Truthy(it)
    requires TruthyOpt(MC.CachedManifest(s.store.byId, s.store.files, CollectionWalk.ItemId(it)))
    ensures var id := CollectionWalk.ItemId(it);
      ItemOutcome(env, s, it).page
        == RenderPool.TaskOutcome(env, id, MC.CachedManifest(s.store.byId, s.store.files, id)).page
  {
  }

  /** Unlike the worker pool, the flat build does not cache a fetched
      document that is falsy (such as `null`); the pool saves it. */
  lemma FalsyBodyNotCached(env: RenderPool.Env, s: FlatState, it: Json)
    requires Truthy(it)
    requires var id := CollectionWalk.ItemId(it);
      !TruthyOpt(MC.CachedManifest(s.store.byId, s.store.files, id)) && IsHttpUrl(id)
      && RenderPool.Respond(env.net, id).Answer? && RenderPool.IsOk(RenderPool.Respond(env.net, id).status)
      && RenderPool.Respond(env.net, id).body.Some? && !Truthy(RenderPool.Respond(env.net, id).body.value)
    ensures var id := CollectionWalk.ItemId(it);
      ItemOutcome(env, s, it).save.None?
      && RenderPool.TaskOutcome(env, id, MC.CachedManifest(s.store.byId, s.store.files, id)).save.Some?
  {
  }

  /* ---------------- the build ---------------- */

  class FlatBuilder {
    const env: RenderPool.Env
    const cache: MC.ManifestCache
    /** The files written under `site/`, by path; each holds `FlatPageHtml`. */
    var pages: map<string, RenderPool.Page>
    /** Everything printed, in order. */
    var console: seq<LogLine>

    ghost function Current(): FlatState
      reads this, cache
    {
      FlatState(RenderPool.Store(cache.byId, cache.files), pages)
    }

    constructor (env: RenderPool.Env, cache: MC.ManifestCache)
      ensures this.env == env && this.cache == cache
      ensures pages == map[] && console == []
    {
      this.env := env;
      this.cache := cache;
      pages := map[];
      console := [];
    }

    /** The first half of a pass: `loadCachedManifestById`, and when that
        gives nothing truthy for an http(s) id, `readJsonFromUri` and
        `saveCachedManifest` of a truthy result. */
    method ResolveItem(id: string) returns (r: Resolution)
      requires cache.Valid()
      modifies cache
      ensures cache.Valid()
      ensures r == Resolve(env, old(Current()), id)
      ensures RenderPool.Store(cache.byId, cache.files)
        == if r.save.Some? then RenderPool.SaveTo(old(Current()).store, env.slugify, r.save.value, id)
           else old(Current()).store
      ensures cache.collection == old(cache.collection) && cache.parents == old(cache.parents)
    {
      var manifest := cache.LoadCachedManifestById(id);
      var lns: seq<LogLine> := [];
      var save: Option<Json> := None;
      if !TruthyOpt(manifest) && IsHttpUrl(id) {
        var remote := ReadRemote(env.net, id);
        lns := remote.lines;
        if TruthyOpt(remote.doc) {
          manifest := remote.doc;
          save := remote.doc;
          var slug := cache.SaveCachedManifest(env.slugify, remote.doc.value, id);
          lns := lns + [CachedManifestLine(slug)];
        }
      }
      r := Resolution(manifest, save, lns);
    }

    /** One pass of the loop for the item `it`. */
    method ProcessItem(it: Json) returns (o: FlatOutcome)
      requires cache.Valid()
      modifies this, cache
      ensures cache.Valid()
      ensures o == ItemOutcome(env, old(Current()), it)
      ensures Current() == FlatStep(env, old(Current()), it)
      ensures console == old(console) + o.lines
      ensures cache.collection == old(cache.collection) && cache.parents == old(cache.parents)
    {
      if !Truthy(it) {
        return FlatOutcome([], None, None);
      }
      var id := CollectionWalk.ItemId(it);
      var r := ResolveItem(id);
      o := RenderResolved(id, r);
    }

    /** The second half of a pass: the warning for an unresolved item, or the
        page written for a rendered one. */
    method RenderResolved(id: string, r: Resolution) returns (o: FlatOutcome)
      modifies this
      ensures o == RenderItem(env, id, r)
      ensures pages == if o.page.Some? then old(pages)[o.page.value.path := o.page.value] else old(pages)
      ensures console == old(console) + o.lines
    {
      if !TruthyOpt(r.manifest) {
        o := FlatOutcome(r.lines + [UnresolvedLine(id)], None, None);
      } else {
        var m := r.manifest.value;
        var title := MC.ManifestTitle(m);
        var path := RenderPool.OutDir + "/" + RenderPool.PageHref(env.slugify, title);
        var rendering := env.render(m);
        if rendering.Threw? {
          o := FlatOutcome(r.lines + [RenderFailedLine(id, rendering.message)], r.save, None);
        } else {
          var page := RenderPool.Page(path, title, rendering.body);
          pages := pages[path := page];
          o := FlatOutcome(r.lines + [BuiltLine(path)], r.save, Some(page));
        }
      }
      console := console + o.lines;
    }

    /** `for (const it of items)`. */
    method ProcessItems(items: seq<Json>)
      requires cache.Valid()
      modifies this, cache
      ensures cache.Valid()
      ensures Current() == FlatRun(env, old(Current()), items)
      ensures console == old(console) + FlatLog(env, old(Current()), items)
      ensures cache.collection == old(cache.collection) && cache.parents == old(cache.parents)
    {
      ghost var s0 := Current();
      ghost var start := console;
      var i := 0;
      while i < |items|
        invariant 0 <= i <= |items| && cache.Valid()
        invariant Current() == FlatRun(env, s0, items[..i])
        invariant console == start + FlatLog(env, s0, items[..i])
        invariant cache.collection == old(cache.collection) && cache.parents == old(cache.parents)
      {
        var o := ProcessItem(items[i]);
        FlatSnoc(env, s0, items, i);
        ghost var done := FlatLog(env, s0, items[..i]);
        assert o.lines == ItemOutcome(env, FlatRun(env, s0, items[..i]), items[i]).lines;
        assert console == (start + done) + o.lines;
        AppendAssoc(start, done, o.lines);
        i := i + 1;
      }
      assert items[..i] == items;
    }

    /** `buildIiifCollectionPages()` of packages/lib/build.js: skip without a
        works layout or a collection; otherwise flush the cache when the
        collection URI changed, record the new signature and build a page
        for each top-level item. */
    method BuildIiifCollectionPages(hasWorksLayout: bool, collectionUri: string, docs: map<string, Json>,
                                    digest: string -> string, now: string)
      requires cache.Valid()
      modifies this, cache
      ensures cache.Valid()
      ensures cache.parents == old(cache.parents)
      ensures !hasWorksLayout ==>
        console == old(console) + [RenderPool.NoLayoutLine]
        && Current() == old(Current()) && cache.collection == old(cache.collection)
      ensures hasWorksLayout && !TruthyOpt(CollectionWalk.Fetch(docs, collectionUri)) ==>
        console == old(console) + [RenderPool.NoCollectionLine]
        && Current() == old(Current()) && cache.collection == old(cache.collection)
      ensures hasWorksLayout && TruthyOpt(CollectionWalk.Fetch(docs, collectionUri)) ==>
        var col := CollectionWalk.Fetch(docs, collectionUri).value;
        var flushed := MC.ShouldFlush(old(cache.collection), collectionUri);
        var store := if flushed then RenderPool.Store(map[], map[]) else RenderPool.Store(old(cache.byId), old(cache.files));
        var s := FlatState(store, old(pages));
        var items := CollectionWalk.ItemsOf(col);
        Current() == FlatRun(env, s, items)
        && cache.collection == Some(MC.Signature(collectionUri, Canonical.ComputeHash(digest, col), now))
        && console == old(console) + (if flushed then [FlushLine] else []) + FlatLog(env, s, items)
    {
      if !hasWorksLayout {
        console := console + [RenderPool.NoLayoutLine];
        return;
      }
      var fetched := CollectionWalk.Fetch(docs, collectionUri);
      if !TruthyOpt(fetched) {
        console := console + [RenderPool.NoCollectionLine];
        return;
      }
      var col := fetched.value;
      var flushed := cache.CheckAndMaybeFlush(digest, collectionUri, col, now);
      if flushed {
        console := console + [FlushLine];
      }
      ProcessItems(CollectionWalk.ItemsOf(col));
    }
  }
}
