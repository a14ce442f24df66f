/** The recursive collection walk of packages/lib/iiif.js
    (`collectTasksFromCollection`): a depth-first traversal of a IIIF
    collection's `items` that emits one `{id, parent}` task per manifest and
    follows sub-collections through `readJsonFromUri`. A shared `visited` set
    of collection ids keeps a collection from being expanded twice.

    The network and the disk are a fixed map from URI to document; with
    `normalizeToV3` taken as the identity, fetching is a lookup in it. */
module CollectionWalk {
  import opened Text
  import opened Json

  /** `{id, parent}`: a manifest to aggregate and the collection it was listed in. */
  datatype Task = Task(id: string, parent: string)

  /** The state the walk shares between its recursive calls: the `tasks`
      array it pushes to and the `visited` set it adds to. */
  datatype WalkState = WalkState(tasks: seq<Task>, visited: set<string>)

  /** `readJsonFromUri(uri)` against the documents `docs`: `null` for a URI
      without a document. The empty URI resolves to the working directory,
      which never reads as JSON. */
  function Fetch(docs: map<string, Json>, uri: string): (r: Option<Json>)
    ensures r.Some? <==> uri != "" && uri in docs
    ensures r.Some? ==> r.value == docs[uri]
  {
    if uri != "" && uri in docs then Some(docs[uri]) else None
  }

  /** `colObj.id || colObj['@id'] || parentUri || ''`. */
  function ColIdValue(col: Json, parentUri: string): (r: Json)
    ensures parentUri != "" ==> Truthy(r)
    ensures TruthyOpt(Get(col, "id")) ==> r == Get(col, "id").value
  {
    Or(Get(col, "id"), Or(Get(col, "@id"), Some(JStr(parentUri)))).value
  }

  /** `String(colId)`: the key recorded in `visited`, which is also the
      `parent` of the collection's tasks. */
  function ColKey(col: Json, parentUri: string): string {
    ToJsString(ColIdValue(col, parentUri))
  }

  /** `if (colId)`: only a truthy collection id is checked against and added
      to `visited`. */
  predicate Guarded(col: Json, parentUri: string) {
    Truthy(ColIdValue(col, parentUri))
  }

  /** `Array.isArray(colObj.items) ? colObj.items : []`. */
  function ItemsOf(col: Json): seq<Json> {
    var v := Get(col, "items");
    if v.Some? && v.value.JArr? then v.value.items else []
  }

  /** `String(it.type || it['@type'] || '')`. */
  function ItemType(it: Json): string {
    FirstTruthyString(Get(it, "type"), Get(it, "@type"))
  }

  /** `String(it.id || it['@id'] || '')`. */
  function ItemId(it: Json): string {
    FirstTruthyString(Get(it, "id"), Get(it, "@id"))
  }

  /** `String((norm && (norm.type || norm['@type'])) || '')` of a fetched document. */
  function DocType(doc: Option<Json>): (r: string)
    ensures !TruthyOpt(doc) ==> r == ""
  {
    if TruthyOpt(doc) then FirstTruthyString(Get(doc.value, "type"), Get(doc.value, "@type")) else ""
  }

  /** Every key a fetched document can be recorded under. The walk adds at
      most these (and the root's key) to `visited`, which is why it stops. */
  function CollectionKeys(docs: map<string, Json>): set<string> {
    set u | u in docs && u != "" :: ColKey(docs[u], u)
  }

  /** 0 for a collection the walk reached by fetching (its key is among
      `CollectionKeys`) or one it returns from at once; 3 for a root whose key
      may lie outside them. Only the termination argument uses it. */
  function Rank(docs: map<string, Json>, col: Option<Json>, parentUri: string): nat {
    if !TruthyOpt(col) || (Guarded(col.value, parentUri) && ColKey(col.value, parentUri) in CollectionKeys(docs))
    then 0 else 3
  }

  lemma SubsetCard(a: set<string>, b: set<string>)
    requires a <= b
    ensures |a| <= |b|
    decreases |a|
  {
    if a != {} {
      var x :| x in a;
      SubsetCard(a - {x}, b - {x});
    }
  }

  lemma MeasureMonotone(c: set<string>, v0: set<string>, v1: set<string>)
    requires v0 <= v1
    ensures |c - v1| <= |c - v0|
  {
    SubsetCard(c - v1, c - v0);
  }

  lemma MeasureShrinks(c: set<string>, v0: set<string>, v1: set<string>, key: string)
    requires v0 + {key} <= v1 && key in c && key !in v0
    ensures |c - v1| < |c - v0|
  {
    assert c - v1 <= (c - v0) - {key};
    SubsetCard(c - v1, (c - v0) - {key});
  }

  /** A fetched document is always guarded, under a key of `CollectionKeys`:
      its id falls back to the URI it was fetched from, which is not empty. */
  lemma FetchedRank(docs: map<string, Json>, uri: string)
    ensures Rank(docs, Fetch(docs, uri), uri) == 0
  {
    if uri != "" && uri in docs {
      assert ColKey(docs[uri], uri) in CollectionKeys(docs);
    }
  }

  /** `collectTasksFromCollection(colObj, parentUri, visited)`. */
  function WalkCol(docs: map<string, Json>, col: Option<Json>, parentUri: string, st: WalkState): (r: WalkState)
    ensures st.visited <= r.visited
    ensures r.visited <= st.visited + CollectionKeys(docs) + (if col.Some? then {ColKey(col.value, parentUri)} else {})
    ensures |st.tasks| <= |r.tasks| && r.tasks[..|st.tasks|] == st.tasks
    ensures TruthyOpt(col) && Guarded(col.value, parentUri) ==> ColKey(col.value, parentUri) in r.visited
    decreases |CollectionKeys(docs) - st.visited|, Rank(docs, col, parentUri)
  {
    if !TruthyOpt(col) then st
    else
      var key := ColKey(col.value, parentUri);
      if Guarded(col.value, parentUri) && key in st.visited then st
      else
        var st1 := if Guarded(col.value, parentUri) then st.(visited := st.visited + {key}) else st;
        MeasureMonotone(CollectionKeys(docs), st.visited, st1.visited);
        if Rank(docs, col, parentUri) == 0 then
          MeasureShrinks(CollectionKeys(docs), st.visited, st1.visited, key);
          WalkItems(docs, ItemsOf(col.value), key, st1)
        else
          WalkItems(docs, ItemsOf(col.value), key, st1)
  }

  /** The `for (const it of items)` loop of one collection, whose key is `key`. */
  function WalkItems(docs: map<string, Json>, items: seq<Json>, key: string, st: WalkState): (r: WalkState)
    ensures st.visited <= r.visited <= st.visited + CollectionKeys(docs)
    ensures |st.tasks| <= |r.tasks| && r.tasks[..|st.tasks|] == st.tasks
    decreases |CollectionKeys(docs) - st.visited|, 2, |items|
  {
    if items == [] then st
    else
      var st1 := WalkItem(docs, items[0], key, st);
      MeasureMonotone(CollectionKeys(docs), st.visited, st1.visited);
      WalkItems(docs, items[1..], key, st1)
  }

  /** One iteration of that loop: a manifest becomes a task, a collection is
      fetched and walked, an untyped http(s) item is fetched and dispatched
      on the fetched document's type; anything else is passed over. */
  function WalkItem(docs: map<string, Json>, it: Json, key: string, st: WalkState): (r: WalkState)
    ensures st.visited <= r.visited <= st.visited + CollectionKeys(docs)
    ensures |st.tasks| <= |r.tasks| && r.tasks[..|st.tasks|] == st.tasks
    decreases |CollectionKeys(docs) - st.visited|, 1
  {
    if !Truthy(it) then st
    else
      var t := ItemType(it);
      var id := ItemId(it);
      if Contains(t, "Manifest") then st.(tasks := st.tasks + [Task(id, key)])
      else if Contains(t, "Collection") then
        FetchedRank(docs, id);
        WalkCol(docs, Fetch(docs, id), id, st)
      else if IsHttpUrl(id) then
        var doc := Fetch(docs, id);
        var nt := DocType(doc);
        if Contains(nt, "Collection") then
          FetchedRank(docs, id);
          WalkCol(docs, doc, id, st)
        else if Contains(nt, "Manifest") then st.(tasks := st.tasks + [Task(id, key)])
        else st
      else st
  }

  /** The call that starts the walk:
      `collectTasksFromCollection(collection, String(collection.id || collection['@id'] || collectionUri || ''), new Set())`. */
  function CollectTasks(docs: map<string, Json>, collection: Json, collectionUri: string): seq<Task> {
    WalkCol(docs, Some(collection), ColKey(collection, collectionUri), WalkState([], {})).tasks
  }

  /** The walk is compositional over the items list: the first part is walked
      completely, sub-collections included, before the second part starts. */
  lemma {:induction false} WalkItemsAppend(docs: map<string, Json>, a: seq<Json>, b: seq<Json>, key: string, st: WalkState)
    ensures WalkItems(docs, a + b, key, st) == WalkItems(docs, b, key, WalkItems(docs, a, key, st))
    decreases |a|
  {
    if a == [] {
      assert a + b == b;
    } else {
      var st1 := WalkItem(docs, a[0], key, st);
      assert (a + b)[0] == a[0];
      assert (a + b)[1..] == a[1..] + b;
      assert WalkItems(docs, a + b, key, st) == WalkItems(docs, a[1..] + b, key, st1);
      assert WalkItems(docs, a, key, st) == WalkItems(docs, a[1..], key, st1);
      WalkItemsAppend(docs, a[1..], b, key, st1);
    }
  }

  /** A truthy item whose type names a manifest. */
  predicate IsManifestItem(it: Json) {
    Truthy(it) && Contains(ItemType(it), "Manifest")
  }

  lemma ManifestItemStep(docs: map<string, Json>, it: Json, key: string, st: WalkState)
    requires IsManifestItem(it)
    ensures WalkItem(docs, it, key, st) == WalkState(st.tasks + [Task(ItemId(it), key)], st.visited)
  {
  }

  function ManifestTasks(items: seq<Json>, key: string): (ts: seq<Task>)
    ensures |ts| == |items|
    ensures forall i :: 0 <= i < |items| ==> ts[i] == Task(ItemId(items[i]), key)
  {
    if items == [] then [] else [Task(ItemId(items[0]), key)] + ManifestTasks(items[1..], key)
  }

  lemma ManifestsStep(docs: map<string, Json>, items: seq<Json>, key: string, st: WalkState)
    requires items != [] && forall i :: 0 <= i < |items| ==> IsManifestItem(items[i])
    ensures forall i :: 0 <= i < |items[1..]| ==> IsManifestItem(items[1..][i])
    ensures WalkItems(docs, items, key, st)
         == WalkItems(docs, items[1..], key, WalkState(st.tasks + [Task(ItemId(items[0]), key)], st.visited))
    ensures ManifestTasks(items, key) == [Task(ItemId(items[0]), key)] + ManifestTasks(items[1..], key)
  {
    ManifestItemStep(docs, items[0], key, st);
  }

  /** A list of manifests yields one task per entry, in list order, each with
      the collection's key as parent, duplicates included; nothing is fetched
      and `visited` is unchanged. */
  lemma {:induction false} ManifestItemsInOrder(docs: map<string, Json>, items: seq<Json>, key: string, st: WalkState)
    requires forall i :: 0 <= i < |items| ==> IsManifestItem(items[i])
    ensures WalkItems(docs, items, key, st) == WalkState(st.tasks + ManifestTasks(items, key), st.visited)
    decreases |items|
  {
    if items != [] {
      var t := Task(ItemId(items[0]), key);
      var st1 := WalkState(st.tasks + [t], st.visited);
      ManifestsStep(docs, items, key, st);
      ManifestItemsInOrder(docs, items[1..], key, st1);
      var rest := ManifestTasks(items[1..], key);
      WalkAssoc(st.tasks, t, rest, st.visited);
    }
  }

  /** Regrouping the task list of a state. */
  lemma WalkAssoc(a: seq<Task>, t: Task, rest: seq<Task>, v: set<string>)
    ensures WalkState(a + [t] + rest, v) == WalkState(a + ([t] + rest), v)
  {
  }

  /** `Manifest` is tested before `Collection`: an item whose type names both
      becomes a task and is never fetched. */
  lemma ManifestTestedFirst(docs: map<string, Json>, it: Json, key: string, st: WalkState)
    requires Truthy(it) && Contains(ItemType(it), "Manifest") && Contains(ItemType(it), "Collection")
    ensures WalkItem(docs, it, key, st) == WalkState(st.tasks + [Task(ItemId(it), key)], st.visited)
  {
  }

  /** An item that is neither typed as a manifest or a collection nor has an
      http(s) id is passed over without a fetch. */
  lemma UntypedLocalItemSkipped(docs: map<string, Json>, it: Json, key: string, st: WalkState)
    requires !Contains(ItemType(it), "Manifest") && !Contains(ItemType(it), "Collection")
    requires !IsHttpUrl(ItemId(it))
    ensures WalkItem(docs, it, key, st) == st
  {
  }

  /** Once a guarded collection has been walked, reaching any collection with
      the same id again adds no task and changes nothing: each non-empty
      collection id is expanded at most once. */
  lemma SecondVisitIsNoOp(docs: map<string, Json>, c1: Json, p1: string, c2: Json, p2: string, st: WalkState)
    requires Truthy(c1) && Guarded(c1, p1)
    requires Truthy(c2) && Guarded(c2, p2) && ColKey(c2, p2) == ColKey(c1, p1)
    ensures var after := WalkCol(docs, Some(c1), p1, st);
      WalkCol(docs, Some(c2), p2, after) == after
  {
  }

  /** A collection without a truthy id is not guarded: it is expanded every
      time it is reached, whatever `visited` holds. */
  lemma UnguardedAlwaysExpanded(docs: map<string, Json>, c: Json, p: string, st: WalkState)
    requires Truthy(c) && !Guarded(c, p)
    ensures ColKey(c, p) == ""
    ensures WalkCol(docs, Some(c), p, st) == WalkItems(docs, ItemsOf(c), "", st)
  {
    assert p == "";
  }

  /** A collection that lists itself is expanded once: walking it from a
      fresh state yields exactly its own manifests. */
  lemma SelfListingCollection(docs: map<string, Json>, u: string, ms: seq<Json>, st: WalkState)
    requires u != "" && u in docs
    requires forall i :: 0 <= i < |ms| ==> IsManifestItem(ms[i])
    requires Guarded(docs[u], u) && ItemsOf(docs[u]) == [JObj([Field("id", JStr(u)), Field("type", JStr("Collection"))])] + ms
    requires ColKey(docs[u], u) == u && u !in st.visited
    ensures WalkCol(docs, Some(docs[u]), u, st) == WalkState(st.tasks + ManifestTasks(ms, u), st.visited + {u})
  {
    var self := JObj([Field("id", JStr(u)), Field("type", JStr("Collection"))]);
    var st1 := st.(visited := st.visited + {u});
    FirstVisitExpands(docs, docs[u], u, st);
    SelfItemIsNoOp(docs, u, st1);
    assert WalkItems(docs, [self], u, st1) == st1 by {
      assert WalkItems(docs, [self], u, st1) == WalkItems(docs, [], u, WalkItem(docs, self, u, st1));
    }
    WalkItemsAppend(docs, [self], ms, u, st1);
    ManifestItemsInOrder(docs, ms, u, st1);
  }

  /** A guarded collection reached for the first time is marked visited
      and its items are walked under its key. */
  lemma FirstVisitExpands(docs: map<string, Json>, c: Json, p: string, st: WalkState)
    requires Truthy(c) && Guarded(c, p) && ColKey(c, p) !in st.visited
    ensures WalkCol(docs, Some(c), p, st)
         == WalkItems(docs, ItemsOf(c), ColKey(c, p), st.(visited := st.visited + {ColKey(c, p)}))
  {
  }

  /** The entry by which a collection lists itself: its type reads as
      "Collection" and its id as the collection's own URI. */
  lemma SelfEntryFields(u: string)
    ensures ItemType(JObj([Field("id", JStr(u)), Field("type", JStr("Collection"))])) == "Collection"
    ensures ItemId(JObj([Field("id", JStr(u)), Field("type", JStr("Collection"))])) == u
  {
    var self := JObj([Field("id", JStr(u)), Field("type", JStr("Collection"))]);
    var rest := [Field("type", JStr("Collection"))];
    assert self.fields[1..] == rest;
    assert Lookup(rest, "type") == Some(JStr("Collection"));
    assert self.fields[0].key != "type" by { assert |"id"| != |"type"|; }
    assert Lookup(self.fields, "type") == Lookup(rest, "type");
    assert Get(self, "id") == Some(JStr(u));
  }

  /** "Collection" names a collection and not a manifest. */
  lemma CollectionTypeName()
    ensures !Contains("Collection", "Manifest") && Contains("Collection", "Collection")
  {
    if Contains("Collection", "Manifest") {
      ContainsFirstChar("Collection", "Manifest");
      assert false;
    }
    ContainsAt("Collection", "Collection", 0);
  }

  /** The entry by which a collection lists itself leads back to a collection
      already in `visited`. */
  lemma SelfItemIsNoOp(docs: map<string, Json>, u: string, st: WalkState)
    requires u != "" && u in docs && Guarded(docs[u], u) && ColKey(docs[u], u) == u && u in st.visited
    ensures WalkItem(docs, JObj([Field("id", JStr(u)), Field("type", JStr("Collection"))]), u, st) == st
  {
    var self := JObj([Field("id", JStr(u)), Field("type", JStr("Collection"))]);
    SelfEntryFields(u);
    CollectionTypeName();
    assert WalkItem(docs, self, u, st) == WalkCol(docs, Fetch(docs, u), u, st);
  }

  /** The walk as the source runs it: a `tasks` array and a `visited` set
      shared by every recursive call. */
  class TaskCollector {
    const docs: map<string, Json>
    var tasks: seq<Task>
    var visited: set<string>

    constructor (docs: map<string, Json>)
      ensures this.docs == docs && tasks == [] && visited == {}
    {
      this.docs := docs;
      tasks := [];
      visited := {};
    }

    /** `collectTasksFromCollection(colObj, parentUri, visited)`. */
    method CollectTasksFromCollection(col: Option<Json>, parentUri: string)
      modifies this
      ensures WalkState(tasks, visited) == WalkCol(docs, col, parentUri, old(WalkState(tasks, visited)))
      decreases |CollectionKeys(docs) - visited|, Rank(docs, col, parentUri)
    {
      if !TruthyOpt(col) {
        return;
      }
      var colObj := col.value;
      var colId := ColIdValue(colObj, parentUri);
      var key := ToJsString(colId);
      if Truthy(colId) {
        if key in visited {
          return;
        }
        visited := visited + {key};
      }
      ghost var entry := old(visited);
      ghost var start := WalkState(tasks, visited);
      var items := ItemsOf(colObj);
      var i := 0;
      while i < |items|
        invariant 0 <= i <= |items|
        invariant start.visited <= visited
        invariant WalkItems(docs, items[i..], key, WalkState(tasks, visited)) == WalkItems(docs, items, key, start)
      {
        ghost var before := WalkState(tasks, visited);
        var it := items[i];
        MeasureMonotone(CollectionKeys(docs), entry, visited);
        if Rank(docs, col, parentUri) == 0 {
          MeasureShrinks(CollectionKeys(docs), entry, visited, key);
        }
        if Truthy(it) {
          var t := ItemType(it);
          var id := ItemId(it);
          if Contains(t, "Manifest") {
            tasks := tasks + [Task(id, key)];
          } else if Contains(t, "Collection") {
            var sub := Fetch(docs, id);
            FetchedRank(docs, id);
            CollectTasksFromCollection(sub, id);
          } else if IsHttpUrl(id) {
            var fetched := Fetch(docs, id);
            var nt := DocType(fetched);
            if Contains(nt, "Collection") {
              FetchedRank(docs, id);
              CollectTasksFromCollection(fetched, id);
            } else if Contains(nt, "Manifest") {
              tasks := tasks + [Task(id, key)];
            }
          }
        }
        assert WalkState(tasks, visited) == WalkItem(docs, it, key, before);
        assert items[i..][1..] == items[i + 1..];
        i := i + 1;
      }
      assert items[|items|..] == [];
    }
  }

  /** Starting the walk on a fresh collector leaves in `tasks` exactly the
      task list of the walk function. */
  method CollectAll(docs: map<string, Json>, collection: Json, collectionUri: string) returns (tasks: seq<Task>)
    ensures tasks == CollectTasks(docs, collection, collectionUri)
  {
    var c := new TaskCollector(docs);
    c.CollectTasksFromCollection(Some(collection), ColKey(collection, collectionUri));
    tasks := c.tasks;
  }
}
