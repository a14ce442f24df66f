/** The on-disk manifest cache of the IIIF build: a persistent index `byId`
    from manifest id to slug, the signature of the source collection last
    built from, and the cached manifest documents `manifests/<slug>.json`.
    The index and the manifest directory are held as fields of one object;
    reading and writing the JSON files is the part left out. */
module ManifestCache {
  import opened Text
  import opened Json
  import Labels
  import Canonical

  /** The `k`-th slug tried for a base: `base`, then `base-1`, `base-2`, ... */
  function Candidate(base: string, k: nat): (c: string)
    ensures StartsWith(c, base)
    ensures k == 0 <==> |c| == |base|
  {
    if k == 0 then base else base + "-" + NatToString(k)
  }

  /** Different attempts never produce the same slug. */
  lemma CandidateInjective(base: string, j: nat, k: nat)
    requires Candidate(base, j) == Candidate(base, k)
    ensures j == k
  {
    if j > 0 && k > 0 {
      var pre := base + "-";
      assert Candidate(base, j) == pre + NatToString(j);
      assert Candidate(base, k) == pre + NatToString(k);
      assert (pre + NatToString(j))[|pre|..] == NatToString(j);
      assert (pre + NatToString(k))[|pre|..] == NatToString(k);
      NatToStringInjective(j, k);
    } else if j != k {
      assert false;
    }
  }

  /** The candidates tried before attempt `k`. */
  function Tried(base: string, k: nat): set<string> {
    set j | 0 <= j < k :: Candidate(base, j)
  }

  lemma TriedStep(base: string, k: nat)
    ensures Tried(base, k + 1) == Tried(base, k) + {Candidate(base, k)}
    ensures Candidate(base, k) !in Tried(base, k)
  {
    if Candidate(base, k) in Tried(base, k) {
      var j :| 0 <= j < k && Candidate(base, j) == Candidate(base, k);
      CandidateInjective(base, j, k);
    }
  }

  /** Each rejected attempt removes one held slug from those still untried. */
  lemma TriedShrinks(vals: set<string>, base: string, k: nat)
    requires Candidate(base, k) in vals
    ensures |vals - Tried(base, k + 1)| < |vals - Tried(base, k)|
  {
    TriedStep(base, k);
    var c := Candidate(base, k);
    var before := vals - Tried(base, k);
    assert vals - Tried(base, k + 1) == before - {c};
    assert c in before;
  }

  /** No two manifests share a slug. */
  ghost predicate Injective(byId: map<string, string>) {
    forall a, b :: a in byId && b in byId && a != b ==> byId[a] != byId[b]
  }

  /** `id` may take `slug` when no manifest holds it, or `id` itself does. */
  predicate Acceptable(byId: map<string, string>, id: string, slug: string) {
    slug !in byId.Values || (id in byId && byId[id] == slug)
  }

  /** The first attempt at or after `k` whose candidate `id` may take. */
  function FirstAcceptableFrom(byId: map<string, string>, id: string, base: string, k: nat): (r: nat)
    ensures k <= r
    ensures Acceptable(byId, id, Candidate(base, r))
    ensures forall j :: k <= j < r ==> !Acceptable(byId, id, Candidate(base, j))
    decreases |byId.Values - Tried(base, k)|
  {
    var c := Candidate(base, k);
    if Acceptable(byId, id, c) then k
    else
      assert c in byId.Values;
      TriedShrinks(byId.Values, base, k);
      var r := FirstAcceptableFrom(byId, id, base, k + 1);
      assert forall j :: k < j < r ==> !Acceptable(byId, id, Candidate(base, j));
      r
  }

  /** The attempt number `saveCachedManifest` stops at for `id`. */
  function AllocateAttempt(byId: map<string, string>, id: string, base: string): nat {
    FirstAcceptableFrom(byId, id, base, 0)
  }

  /** The slug `saveCachedManifest` stores for `id` given the base slug. */
  function AllocateSlug(byId: map<string, string>, id: string, base: string): string {
    Candidate(base, AllocateAttempt(byId, id, base))
  }

  /** The first-acceptable attempt is determined by its defining property. */
  lemma FirstAcceptableUnique(byId: map<string, string>, id: string, base: string, k: nat, r: nat)
    requires k <= r && Acceptable(byId, id, Candidate(base, r))
    requires forall j :: k <= j < r ==> !Acceptable(byId, id, Candidate(base, j))
    ensures FirstAcceptableFrom(byId, id, base, k) == r
  {
  }

  /** A rejected attempt moves the search on to the next one. */
  lemma FirstAcceptableStep(byId: map<string, string>, id: string, base: string, k: nat)
    requires !Acceptable(byId, id, Candidate(base, k))
    ensures FirstAcceptableFrom(byId, id, base, k) == FirstAcceptableFrom(byId, id, base, k + 1)
  {
  }

  /** A candidate held by another manifest is passed over, and one more
      held slug has been tried. */
  lemma SlugTaken(byId: map<string, string>, id: string, base: string, k: nat, other: string)
    requires Injective(byId) && other in byId && other != id && byId[other] == Candidate(base, k)
    ensures FirstAcceptableFrom(byId, id, base, k) == FirstAcceptableFrom(byId, id, base, k + 1)
    ensures |byId.Values - Tried(base, k + 1)| < |byId.Values - Tried(base, k)|
    ensures Candidate(base, k + 1) == base + "-" + NatToString(k + 1)
  {
    assert !Acceptable(byId, id, Candidate(base, k));
    FirstAcceptableStep(byId, id, base, k);
    TriedShrinks(byId.Values, base, k);
  }

  /** The search stops at the first acceptable candidate. */
  lemma AllocatedAt(byId: map<string, string>, id: string, base: string, k: nat)
    requires AllocateAttempt(byId, id, base) == FirstAcceptableFrom(byId, id, base, k)
    requires Candidate(base, k) !in byId.Values || (id in byId && byId[id] == Candidate(base, k))
    ensures AllocateAttempt(byId, id, base) == k
  {
    FirstAcceptableUnique(byId, id, base, k, k);
  }

  /** The allocated slug extends the base and is free or already `id`'s; every
      earlier candidate is held by some other manifest. */
  lemma AllocateSlugSpec(byId: map<string, string>, id: string, base: string)
    ensures StartsWith(AllocateSlug(byId, id, base), base)
    ensures Acceptable(byId, id, AllocateSlug(byId, id, base))
    ensures forall j :: 0 <= j < AllocateAttempt(byId, id, base) ==>
      exists other :: other in byId && other != id && byId[other] == Candidate(base, j)
  {
    var r := AllocateAttempt(byId, id, base);
    forall j | 0 <= j < r
      ensures exists other :: other in byId && other != id && byId[other] == Candidate(base, j)
    {
      var c := Candidate(base, j);
      assert !Acceptable(byId, id, c);
      var other :| other in byId && byId[other] == c;
      assert other != id;
    }
  }

  /** Under unique slugs, an acceptable slug held by someone is held by `id`. */
  lemma AcceptableOwner(byId: map<string, string>, id: string, s: string, b: string)
    requires Injective(byId) && Acceptable(byId, id, s)
    requires b in byId && b != id
    ensures byId[b] != s
  {
  }

  /** Storing the allocated slug keeps slugs unique across manifests. */
  lemma {:induction false} AllocatePreservesInjective(byId: map<string, string>, id: string, base: string)
    requires Injective(byId)
    ensures Injective(byId[id := AllocateSlug(byId, id, base)])
  {
    var s := AllocateSlug(byId, id, base);
    AllocateSlugSpec(byId, id, base);
    var m := byId[id := s];
    forall a, b | a in m && b in m && a != b ensures m[a] != m[b] {
      if a == id {
        AcceptableOwner(byId, id, s, b);
      } else if b == id {
        AcceptableOwner(byId, id, s, a);
      }
    }
  }

  /** Idempotent slugging: once `id` holds its slug, allocating again for the
      same id and base returns the same slug. */
  lemma {:induction false} AllocateIdempotent(byId: map<string, string>, id: string, base: string)
    requires Injective(byId)
    ensures var s := AllocateSlug(byId, id, base);
      AllocateSlug(byId[id := s], id, base) == s
  {
    var r := AllocateAttempt(byId, id, base);
    var s := Candidate(base, r);
    var m := byId[id := s];
    AllocateSlugSpec(byId, id, base);
    forall j | 0 <= j < r ensures !Acceptable(m, id, Candidate(base, j)) {
      var c := Candidate(base, j);
      var other :| other in byId && other != id && byId[other] == c;
      assert m[other] == c;
      if c == s { CandidateInjective(base, j, r); }
    }
    FirstAcceptableUnique(m, id, base, 0, r);
  }

  /** `slugify(title || "untitled", {lower, strict, trim}) || "untitled"`;
      `slugify` itself is a parameter. */
  function BaseSlug(slugify: string -> string, title: string): (r: string)
    ensures r != ""
    ensures title == "" && slugify("untitled") != "" ==> r == slugify("untitled")
  {
    var s := slugify(if title == "" then "untitled" else title);
    if s == "" then "untitled" else s
  }

  /** `firstLabelString(manifest && manifest.label)`. */
  function ManifestTitle(manifest: Json): string {
    Labels.FirstLabelString(Get(manifest, "label"))
  }

  /** `{uri, hash, updatedAt}` of the collection the cache was built from. */
  datatype Signature = Signature(uri: string, hash: string, updatedAt: string)

  /** The invalidation rule: flush when there is no previous signature or it
      names another URI. The hash plays no part. */
  predicate ShouldFlush(prev: Option<Signature>, uri: string) {
    prev.None? || prev.value.uri != uri
  }

  /** A content change at the same URI never flushes; a URI change always does. */
  lemma ShouldFlushIgnoresHash(prev: Signature, uri: string, hash: string, at: string)
    ensures !ShouldFlush(Some(Signature(uri, hash, at)), uri)
    ensures ShouldFlush(Some(prev), uri) <==> prev.uri != uri
    ensures ShouldFlush(Some(prev), uri) == ShouldFlush(Some(Signature(prev.uri, hash, at)), uri)
  {
  }

  /** `loadCachedManifestById(id)`: no result for an empty id, an id without
      a slug, or a slug without a file; otherwise the file `byId[id]` names. */
  function CachedManifest(byId: map<string, string>, files: map<string, Json>, id: string): (r: Option<Json>)
    ensures id == "" || id !in byId ==> r.None?
    ensures r.Some? <==> id != "" && id in byId && byId[id] != "" && byId[id] in files
    ensures r.Some? ==> r.value == files[byId[id]]
  {
    if id == "" then None
    else if id !in byId || byId[id] == "" then None
    else if byId[id] !in files then None
    else Some(files[byId[id]])
  }

  /** The index and files after `saveCachedManifest(manifest, id)`. */
  function SavedSlug(byId: map<string, string>, slugify: string -> string, manifest: Json, id: string): string {
    AllocateSlug(byId, id, BaseSlug(slugify, ManifestTitle(manifest)))
  }

  /** A saved manifest is what a later lookup of the same non-empty id
      returns, and every other id keeps its slug. */
  lemma SaveThenLoad(byId: map<string, string>, files: map<string, Json>, slugify: string -> string, manifest: Json, id: string)
    requires id != ""
    ensures var slug := SavedSlug(byId, slugify, manifest, id);
      CachedManifest(byId[id := slug], files[slug := manifest], id) == Some(manifest)
      && forall other :: other in byId && other != id ==> byId[id := slug][other] == byId[other]
  {
    var base := BaseSlug(slugify, ManifestTitle(manifest));
    AllocateSlugSpec(byId, id, base);
    assert StartsWith(AllocateSlug(byId, id, base), base);
  }

  class ManifestCache {
    /** `manifest-index.json`: manifest id -> slug. */
    var byId: map<string, string>
    /** `manifest-index.json`: signature of the last source collection. */
    var collection: Option<Signature>
    /** `manifest-index.json`: manifest id -> parent collection id (kept, never written by the core). */
    var parents: map<string, string>
    /** `manifests/<slug>.json`: slug -> cached manifest. */
    var files: map<string, Json>

    ghost predicate Valid()
      reads this
    {
      Injective(byId)
    }

    /** A cold cache: `{byId: {}, collection: null, parents: {}}`, no manifests. */
    constructor ()
      ensures Valid()
      ensures byId == map[] && collection == None && parents == map[] && files == map[]
    {
      byId := map[];
      collection := None;
      parents := map[];
      files := map[];
    }

    /** `loadCachedManifestById(id)` on this cache. */
    function LoadCachedManifestById(id: string): (r: Option<Json>)
      reads this
      ensures r == CachedManifest(byId, files, id)
    {
      CachedManifest(byId, files, id)
    }

    /** The collision loop of `saveCachedManifest`: starting from `base`, try
        `base-1`, `base-2`, ... while the candidate is held by a manifest other
        than `id`. */
    method FindSlug(base: string, id: string) returns (slug: string)
      requires Valid()
      ensures slug == AllocateSlug(byId, id, base)
    {
      var used := byId.Values;
      slug := base;
      var i := 1;
      while slug in used
        invariant 1 <= i
        invariant slug == Candidate(base, i - 1)
        invariant AllocateAttempt(byId, id, base) == FirstAcceptableFrom(byId, id, base, i - 1)
        decreases |used - Tried(base, i - 1)|
      {
        var existingId :| existingId in byId && byId[existingId] == slug;
        if existingId == id {
          break;
        }
        SlugTaken(byId, id, base, i - 1, existingId);
        slug := base + "-" + NatToString(i);
        i := i + 1;
      }
      ghost var k: nat := i - 1;
      assert slug == Candidate(base, k);
      assert slug !in used || (id in byId && byId[id] == slug);
      AllocatedAt(byId, id, base, k);
    }

    /** `saveCachedManifest(manifest, id)`: find the first slug among `base`,
        `base-1`, `base-2`, ... that is unused or already `id`'s, write the
        manifest under it and point `byId[id]` at it. */
    method SaveCachedManifest(slugify: string -> string, manifest: Json, id: string) returns (slug: string)
      requires Valid()
      modifies this
      ensures Valid()
      ensures slug == AllocateSlug(old(byId), id, BaseSlug(slugify, ManifestTitle(manifest)))
      ensures byId == old(byId)[id := slug]
      ensures files == old(files)[slug := manifest]
      ensures collection == old(collection) && parents == old(parents)
      ensures id != "" ==> LoadCachedManifestById(id) == Some(manifest)
    {
      var base := BaseSlug(slugify, ManifestTitle(manifest));
      slug := FindSlug(base, id);
      AllocateSlugSpec(byId, id, base);
      AllocatePreservesInjective(byId, id, base);
      files := files[slug := manifest];
      byId := byId[id := slug];
    }

    /** `flushManifestCache()`: remove every cached manifest file. */
    method FlushManifestCache()
      modifies this
      ensures files == map[]
      ensures byId == old(byId) && collection == old(collection) && parents == old(parents)
    {
      files := map[];
    }

    /** The invalidation block of `buildIiifCollectionPages`: flush the
        manifests and reset `byId` exactly when the previous signature is
        missing or names another URI, then record the current signature. */
    method CheckAndMaybeFlush(digest: string -> string, uri: string, doc: Json, now: string)
      returns (flushed: bool)
      requires Valid()
      modifies this
      ensures Valid()
      ensures flushed == ShouldFlush(old(collection), uri)
      ensures flushed ==> byId == map[] && files == map[]
      ensures !flushed ==> byId == old(byId) && files == old(files)
      ensures collection == Some(Signature(uri, Canonical.ComputeHash(digest, doc), now))
      ensures parents == old(parents)
    {
      var sig := Signature(uri, Canonical.ComputeHash(digest, doc), now);
      flushed := ShouldFlush(collection, uri);
      if flushed {
        FlushManifestCache();
        byId := map[];
      }
      collection := Some(sig);
    }
  }

  /** The build-to-build behaviour of the invalidation rule: after building
      from URI `a` and caching a manifest, switching to `b` empties the index,
      and building from `b` again with a different document keeps it. */
  method InvalidationAcrossBuilds(digest: string -> string, slugify: string -> string,
                                  a: string, b: string, doc1: Json, doc2: Json, m: Json, id: string)
    returns (afterSwitch: map<string, string>, afterEdit: map<string, string>)
    requires a != b && id != ""
    ensures afterSwitch == map[]
    ensures id in afterEdit
  {
    var cache := new ManifestCache();
    var f1 := cache.CheckAndMaybeFlush(digest, a, doc1, "t1");
    var _ := cache.SaveCachedManifest(slugify, m, id);
    var f2 := cache.CheckAndMaybeFlush(digest, b, doc1, "t2");
    assert f2;
    afterSwitch := cache.byId;
    var _ := cache.SaveCachedManifest(slugify, m, id);
    var f3 := cache.CheckAndMaybeFlush(digest, b, doc2, "t3");
    assert !f3;
    afterEdit := cache.byId;
  }

  /** Two distinct manifests whose titles both slug to "untitled" get
      "untitled" and "untitled-1"; a later build with the same index hands
      each the same slug again. */
  lemma CollisionScenario(id1: string, id2: string)
    requires id1 != id2
    ensures AllocateSlug(map[], id1, "untitled") == "untitled"
    ensures AllocateSlug(map[id1 := "untitled"], id2, "untitled") == "untitled-1"
    ensures AllocateSlug(map[id1 := "untitled", id2 := "untitled-1"], id1, "untitled") == "untitled"
    ensures AllocateSlug(map[id1 := "untitled", id2 := "untitled-1"], id2, "untitled") == "untitled-1"
  {
    var m1 := map[id1 := "untitled"];
    var m2 := map[id1 := "untitled", id2 := "untitled-1"];
    assert NatToString(1) == "1";
    assert Candidate("untitled", 1) == "untitled-1";
    assert "untitled" in m1.Values by { assert m1[id1] == "untitled"; }
    FirstAcceptableUnique(map[], id1, "untitled", 0, 0);
    assert !Acceptable(m1, id2, Candidate("untitled", 0));
    assert "untitled-1" !in m1.Values;
    FirstAcceptableUnique(m1, id2, "untitled", 0, 1);
    FirstAcceptableUnique(m2, id1, "untitled", 0, 0);
    assert m2[id1] == "untitled";
    assert !Acceptable(m2, id2, Candidate("untitled", 0));
    FirstAcceptableUnique(m2, id2, "untitled", 0, 1);
  }

  /** `loadManifestIndex()` of packages/lib/iiif.js: a readable object is
      normalised to `{byId, collection, parents}` with `{}`/`null`/`{}` for
      falsy parts; a missing, unreadable or non-object file gives the empty
      index. `None` stands for a missing or unparseable file. */
  function LoadIndexNormalized(file: Option<Json>): (r: Json)
    ensures r.JObj? && Keys(r.fields) == ["byId", "collection", "parents"]
    ensures !(file.Some? && Truthy(file.value) && IsObjectLike(file.value)) ==> r == EmptyIndex()
  {
    if file.Some? && Truthy(file.value) && IsObjectLike(file.value) then
      NormalizedIndex(file.value)
    else EmptyIndex()
  }

  function EmptyIndex(): Json {
    JObj([Field("byId", JObj([])), Field("collection", JNull), Field("parents", JObj([]))])
  }

  /** `{byId: idx.byId || {}, collection: idx.collection || null, parents: idx.parents || {}}`,
      the shape both the loader and `saveManifestIndex` produce. */
  function NormalizedIndex(idx: Json): (r: Json)
    ensures r.JObj? && Keys(r.fields) == ["byId", "collection", "parents"]
  {
    JObj([
      Field("byId", Or(Get(idx, "byId"), Some(JObj([]))).value),
      Field("collection", Or(Get(idx, "collection"), Some(JNull)).value),
      Field("parents", Or(Get(idx, "parents"), Some(JObj([]))).value)
    ])
  }

  /** An index written by `saveManifestIndex` loads back unchanged. */
  lemma SavedIndexLoadsBack(idx: Json)
    ensures LoadIndexNormalized(Some(NormalizedIndex(idx))) == NormalizedIndex(idx)
  {
    var n := NormalizedIndex(idx);
    assert Truthy(n) && IsObjectLike(n);
    assert Get(n, "byId") == Some(n.fields[0].value);
    assert Get(n, "collection") == Some(n.fields[1].value);
    assert Get(n, "parents") == Some(n.fields[2].value);
  }

  /** `loadManifestIndex()` of packages/lib/build.js: any object (arrays
      included) is returned as it is, without normalisation; otherwise
      `{byId: {}, collection: null}`. */
  function LoadIndexRaw(file: Option<Json>): (r: Json)
    ensures file.Some? && IsObjectLike(file.value) ==> r == file.value
    ensures !(file.Some? && IsObjectLike(file.value)) ==>
      r == JObj([Field("byId", JObj([])), Field("collection", JNull)])
  {
    if file.Some? && Truthy(file.value) && IsObjectLike(file.value) then file.value
    else JObj([Field("byId", JObj([])), Field("collection", JNull)])
  }
}
