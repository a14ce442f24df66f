/** Canonical serialisation of a collection document: `deepSort` rebuilds
    every object with its keys in sorted order (arrays keep their order),
    `stableStringify` is `JSON.stringify` of the sorted tree, and
    `computeHash` digests that string. The digest function itself (SHA-256)
    is a parameter. */
module Canonical {
  import opened Text
  import opened Json

  /** The order `Array.prototype.sort` gives strings: lexicographic by
      character, a proper prefix first. */
  predicate StrLt(a: string, b: string)
    decreases |a|
  {
    if a == [] then b != []
    else if b == [] then false
    else if a[0] != b[0] then a[0] < b[0]
    else StrLt(a[1..], b[1..])
  }

  lemma StrLtIrreflexive(a: string)
    ensures !StrLt(a, a)
  {
  }

  lemma {:induction false} StrLtTransitive(a: string, b: string, c: string)
    requires StrLt(a, b) && StrLt(b, c)
    ensures StrLt(a, c)
    decreases |a|
  {
    if a != [] && b != [] && c != [] && a[0] == b[0] && b[0] == c[0] {
      StrLtTransitive(a[1..], b[1..], c[1..]);
    }
  }

  lemma {:induction false} StrLtTotal(a: string, b: string)
    requires a != b
    ensures StrLt(a, b) || StrLt(b, a)
    decreases |a|
  {
    if a != [] && b != [] && a[0] == b[0] {
      assert a == [a[0]] + a[1..] && b == [b[0]] + b[1..];
      StrLtTotal(a[1..], b[1..]);
    }
  }

  lemma {:induction false} StrLtAsymmetric(a: string, b: string)
    requires StrLt(a, b)
    ensures !StrLt(b, a)
    decreases |a|
  {
    if a != [] && b != [] && a[0] == b[0] {
      StrLtAsymmetric(a[1..], b[1..]);
    }
  }

  /** Keys in strictly increasing order (so in particular distinct). */
  predicate SortedKeys(fs: seq<Field>) {
    forall i, j :: 0 <= i < j < |fs| ==> StrLt(fs[i].key, fs[j].key)
  }

  function KeySet(fs: seq<Field>): set<string> {
    set i | 0 <= i < |fs| :: fs[i].key
  }

  lemma KeySetCons(f: Field, fs: seq<Field>)
    ensures KeySet([f] + fs) == {f.key} + KeySet(fs)
  {
    forall k ensures k in KeySet([f] + fs) <==> k in {f.key} + KeySet(fs) {
      if k in KeySet([f] + fs) {
        var i :| 0 <= i < |[f] + fs| && ([f] + fs)[i].key == k;
        if i > 0 { assert fs[i - 1].key == k; }
      }
      if k in KeySet(fs) {
        var i :| 0 <= i < |fs| && fs[i].key == k;
        assert ([f] + fs)[i + 1].key == k;
      }
    }
  }

  lemma KeySetSplit(fs: seq<Field>)
    requires fs != []
    ensures KeySet(fs) == {fs[0].key} + KeySet(fs[1..])
  {
    assert fs == [fs[0]] + fs[1..];
    KeySetCons(fs[0], fs[1..]);
  }

  /** In a sorted list, the head key is below every later key and so absent
      from the tail. */
  lemma SortedHead(fs: seq<Field>)
    requires fs != [] && SortedKeys(fs)
    ensures SortedKeys(fs[1..])
    ensures forall g :: g in fs[1..] ==> StrLt(fs[0].key, g.key)
    ensures fs[0].key !in KeySet(fs[1..])
  {
    forall g | g in fs[1..] ensures StrLt(fs[0].key, g.key) {
      var i :| 0 <= i < |fs[1..]| && fs[1..][i] == g;
      assert fs[i + 1] == g;
    }
    if fs[0].key in KeySet(fs[1..]) {
      var i :| 0 <= i < |fs[1..]| && fs[1..][i].key == fs[0].key;
      assert fs[1..][i] in fs[1..];
      StrLtIrreflexive(fs[0].key);
    }
  }

  /** Prepending a key below every key of a sorted list keeps it sorted. */
  lemma SortedCons(f: Field, fs: seq<Field>)
    requires SortedKeys(fs)
    requires forall g :: g in fs ==> StrLt(f.key, g.key)
    ensures SortedKeys([f] + fs)
  {
    forall i, j | 0 <= i < j < |[f] + fs| ensures StrLt(([f] + fs)[i].key, ([f] + fs)[j].key) {
      if i == 0 { assert ([f] + fs)[j] == fs[j - 1]; assert fs[j - 1] in fs; }
      else { assert ([f] + fs)[i] == fs[i - 1] && ([f] + fs)[j] == fs[j - 1]; }
    }
  }

  /** `out[f.key] = f.value` on an object whose keys are sorted: the field goes
      to its place in key order, replacing a field of the same key. */
  function InsertField(f: Field, fs: seq<Field>): (r: seq<Field>)
    requires SortedKeys(fs)
    ensures SortedKeys(r)
    ensures KeySet(r) == KeySet(fs) + {f.key}
    ensures forall g :: g in r ==> g == f || g in fs
    ensures f in r
    ensures forall g :: g in fs && g.key != f.key ==> g in r
    decreases |fs|
  {
    if fs == [] then
      KeySetCons(f, []);
      [f]
    else if StrLt(f.key, fs[0].key) then
      SortedHead(fs);
      assert forall g :: g in fs ==> StrLt(f.key, g.key) by {
        forall g | g in fs ensures StrLt(f.key, g.key) {
          if g != fs[0] { assert g in fs[1..]; StrLtTransitive(f.key, fs[0].key, g.key); }
        }
      }
      SortedCons(f, fs);
      KeySetCons(f, fs);
      [f] + fs
    else if f.key == fs[0].key then
      SortedHead(fs);
      SortedCons(f, fs[1..]);
      KeySetCons(f, fs[1..]);
      KeySetSplit(fs);
      assert forall g :: g in fs && g != fs[0] ==> g in fs[1..] by {
        forall g | g in fs && g != fs[0] ensures g in fs[1..] {
          var i :| 0 <= i < |fs| && fs[i] == g;
          assert fs[1..][i - 1] == g;
        }
      }
      [f] + fs[1..]
    else
      StrLtTotal(f.key, fs[0].key);
      SortedHead(fs);
      var rest := InsertField(f, fs[1..]);
      assert forall g :: g in rest ==> StrLt(fs[0].key, g.key);
      SortedCons(fs[0], rest);
      KeySetCons(fs[0], rest);
      KeySetSplit(fs);
      assert forall g :: g in fs && g != fs[0] ==> g in fs[1..] by {
        forall g | g in fs && g != fs[0] ensures g in fs[1..] {
          var i :| 0 <= i < |fs| && fs[i] == g;
          assert fs[1..][i - 1] == g;
        }
      }
      [fs[0]] + rest
  }

  /** `Object.keys(value).sort()` followed by re-insertion into a fresh object. */
  function SortFields(fs: seq<Field>): (r: seq<Field>)
    ensures SortedKeys(r)
    ensures KeySet(r) == KeySet(fs)
    ensures forall g :: g in r ==> g in fs
  {
    if fs == [] then []
    else
      var rest := SortFields(fs[1..]);
      KeySetSplit(fs);
      InsertField(fs[0], rest)
  }

  /** `deepSort(value)`. */
  function DeepSort(v: Json): Json
    decreases v
  {
    match v
    case JArr(items) =>
      JArr(seq(|items|, i requires 0 <= i < |items| => DeepSort(items[i])))
    case JObj(fs) =>
      JObj(SortFields(seq(|fs|, i requires 0 <= i < |fs| => Field(fs[i].key, DeepSort(fs[i].value)))))
    case _ => v
  }

  /** Arrays keep their length and order; every element is itself sorted. */
  lemma DeepSortArray(items: seq<Json>)
    ensures DeepSort(JArr(items)).JArr?
    ensures |DeepSort(JArr(items)).items| == |items|
    ensures forall i :: 0 <= i < |items| ==> DeepSort(JArr(items)).items[i] == DeepSort(items[i])
  {
  }

  /** Primitives and null are returned unchanged. */
  lemma DeepSortPrimitive(v: Json)
    requires !v.JArr? && !v.JObj?
    ensures DeepSort(v) == v
  {
  }

  /** Objects come back with the same key set, keys strictly increasing, and
      under each key the sorted form of the original value. */
  lemma DeepSortObject(fs: seq<Field>)
    requires DistinctKeys(fs)
    ensures DeepSort(JObj(fs)).JObj?
    ensures SortedKeys(DeepSort(JObj(fs)).fields)
    ensures KeySet(DeepSort(JObj(fs)).fields) == KeySet(fs)
    ensures forall i :: 0 <= i < |fs| ==>
      Lookup(DeepSort(JObj(fs)).fields, fs[i].key) == Some(DeepSort(fs[i].value))
  {
    var mapped := seq(|fs|, i requires 0 <= i < |fs| => Field(fs[i].key, DeepSort(fs[i].value)));
    var r := SortFields(mapped);
    assert DeepSort(JObj(fs)).fields == r;
    forall i | 0 <= i < |fs| ensures Lookup(r, fs[i].key) == Some(DeepSort(fs[i].value)) {
      assert fs[i].key in KeySet(mapped) by { assert mapped[i].key == fs[i].key; }
      var l := Lookup(r, fs[i].key);
      assert l.Some?;
      var j :| 0 <= j < |r| && r[j] == Field(fs[i].key, l.value);
      assert r[j] in mapped;
      var m :| 0 <= m < |mapped| && mapped[m] == r[j];
      assert fs[m].key == fs[i].key;
      assert m == i;
    }
  }

  /** A strictly sorted field list is left as it is by sorting. */
  lemma {:induction false} SortFieldsSorted(fs: seq<Field>)
    requires SortedKeys(fs)
    ensures SortFields(fs) == fs
  {
    if fs != [] {
      SortFieldsSorted(fs[1..]);
      assert fs == [fs[0]] + fs[1..];
    }
  }

  lemma LookupHead(fs: seq<Field>)
    requires fs != []
    ensures Lookup(fs, fs[0].key) == Some(fs[0].value)
  {
  }

  /** Two strictly sorted field lists that agree on every lookup are equal. */
  lemma {:induction false} SortedUnique(s: seq<Field>, t: seq<Field>)
    requires SortedKeys(s) && SortedKeys(t)
    requires forall k :: Lookup(s, k) == Lookup(t, k)
    ensures s == t
    decreases |s|
  {
    if s == [] {
      if t != [] { LookupHead(t); assert false; }
    } else if t == [] {
      LookupHead(s);
      assert false;
    } else {
      var a, b := s[0].key, t[0].key;
      if a != b {
        assert Lookup(t, a).Some?;
        var j :| 0 <= j < |t| && t[j].key == a;
        assert Lookup(s, b).Some?;
        var i :| 0 <= i < |s| && s[i].key == b;
        StrLtAsymmetric(b, a);
        assert false;
      }
      assert Lookup(s, a) == Some(s[0].value) && Lookup(t, a) == Some(t[0].value);
      SortedHead(s);
      SortedHead(t);
      forall k ensures Lookup(s[1..], k) == Lookup(t[1..], k) {
        assert Lookup(s, k) == Lookup(t, k);
        if k == a {
          assert forall i :: 0 <= i < |s[1..]| ==> s[1..][i].key != k by {
            forall i | 0 <= i < |s[1..]| ensures s[1..][i].key != k { assert s[1..][i].key in KeySet(s[1..]); }
          }
          assert forall i :: 0 <= i < |t[1..]| ==> t[1..][i].key != k by {
            forall i | 0 <= i < |t[1..]| ensures t[1..][i].key != k { assert t[1..][i].key in KeySet(t[1..]); }
          }
        }
      }
      SortedUnique(s[1..], t[1..]);
    }
  }

  /** `deepSort` is idempotent. */
  lemma {:induction false} DeepSortIdempotent(v: Json)
    ensures DeepSort(DeepSort(v)) == DeepSort(v)
    decreases v
  {
    match v
    case JArr(items) =>
      forall i | 0 <= i < |items| ensures DeepSort(DeepSort(items[i])) == DeepSort(items[i]) {
        DeepSortIdempotent(items[i]);
      }
    case JObj(fs) =>
      var mapped := seq(|fs|, i requires 0 <= i < |fs| => Field(fs[i].key, DeepSort(fs[i].value)));
      var r := SortFields(mapped);
      assert DeepSort(v) == JObj(r);
      var again := seq(|r|, i requires 0 <= i < |r| => Field(r[i].key, DeepSort(r[i].value)));
      forall i | 0 <= i < |r| ensures again[i] == r[i] {
        assert r[i] in mapped;
        var m :| 0 <= m < |mapped| && mapped[m] == r[i];
        DeepSortIdempotent(fs[m].value);
      }
      assert again == r;
      SortFieldsSorted(r);
    case _ =>
  }

  /** Two JSON values that differ only in the order of object keys, at any depth. */
  predicate SameUpToKeyOrder(a: Json, b: Json)
    decreases a
  {
    match a
    case JArr(xs) =>
      b.JArr? && |xs| == |b.items| &&
      forall i :: 0 <= i < |xs| ==> SameUpToKeyOrder(xs[i], b.items[i])
    case JObj(fs) =>
      b.JObj? && DistinctKeys(fs) && DistinctKeys(b.fields) &&
      KeySet(fs) == KeySet(b.fields) &&
      forall i, j :: 0 <= i < |fs| && 0 <= j < |b.fields| && fs[i].key == b.fields[j].key ==>
        SameUpToKeyOrder(fs[i].value, b.fields[j].value)
    case _ => a == b
  }

  lemma LookupSomeIndex(fs: seq<Field>, k: string) returns (i: nat)
    requires k in KeySet(fs)
    ensures i < |fs| && fs[i].key == k
  {
    i :| 0 <= i < |fs| && fs[i].key == k;
  }

  /** Reordering keys does not change the sorted tree. */
  lemma {:induction false} DeepSortKeyOrderInsensitive(a: Json, b: Json)
    requires SameUpToKeyOrder(a, b)
    ensures DeepSort(a) == DeepSort(b)
    decreases a
  {
    match a
    case JArr(xs) =>
      forall i | 0 <= i < |xs| ensures DeepSort(xs[i]) == DeepSort(b.items[i]) {
        DeepSortKeyOrderInsensitive(xs[i], b.items[i]);
      }
    case JObj(fs) =>
      var gs := b.fields;
      DeepSortObject(fs);
      DeepSortObject(gs);
      var s, t := DeepSort(a).fields, DeepSort(b).fields;
      forall k ensures Lookup(s, k) == Lookup(t, k) {
        if k in KeySet(fs) {
          var i := LookupSomeIndex(fs, k);
          var j := LookupSomeIndex(gs, k);
          DeepSortKeyOrderInsensitive(fs[i].value, gs[j].value);
        } else {
          assert k !in KeySet(s) && k !in KeySet(t);
          assert forall i :: 0 <= i < |s| ==> s[i].key != k;
          assert forall i :: 0 <= i < |t| ==> t[i].key != k;
        }
      }
      SortedUnique(s, t);
    case _ =>
  }

  function HexDigit(d: nat): char
    requires d < 16
  {
    "0123456789abcdef"[d]
  }

  /** How `JSON.stringify` writes one character inside a string literal. */
  function EscapeChar(c: char): string {
    if c == '"' then "\\\""
    else if c == '\\' then "\\\\"
    else if c == '\U{0008}' then "\\b"
    else if c == '\U{000C}' then "\\f"
    else if c == '\n' then "\\n"
    else if c == '\r' then "\\r"
    else if c == '\t' then "\\t"
    else if (c as int) < 0x20 then "\\u00" + [HexDigit(c as int / 16), HexDigit(c as int % 16)]
    else [c]
  }

  function Quote(s: string): string {
    "\"" + QuoteBody(s) + "\""
  }

  function QuoteBody(s: string): string {
    if s == [] then "" else EscapeChar(s[0]) + QuoteBody(s[1..])
  }

  /** `JSON.stringify(v)` without indentation. */
  function Stringify(v: Json): string
    decreases v, 1
  {
    match v
    case JNull => "null"
    case JBool(b) => if b then "true" else "false"
    case JNum(n) => IntToString(n)
    case JStr(s) => Quote(s)
    case JArr(items) => "[" + StringifyItems(v, items) + "]"
    case JObj(fs) => "{" + StringifyFields(v, fs) + "}"
  }

  function StringifyItems(parent: Json, items: seq<Json>): string
    requires forall x :: x in items ==> x < parent
    decreases parent, 0, |items|
  {
    if items == [] then ""
    else
      assert items[0] in items;
      assert forall x :: x in items[1..] ==> x in items;
      if |items| == 1 then Stringify(items[0])
    else Stringify(items[0]) + "," + StringifyItems(parent, items[1..])
  }

  function StringifyFields(parent: Json, fs: seq<Field>): string
    requires forall f :: f in fs ==> f.value < parent
    decreases parent, 0, |fs|
  {
    if fs == [] then ""
    else
      assert fs[0] in fs;
      assert forall f :: f in fs[1..] ==> f in fs;
      var one := Quote(fs[0].key) + ":" + Stringify(fs[0].value);
      if |fs| == 1 then one else one + "," + StringifyFields(parent, fs[1..])
  }

  /** `stableStringify(value)` = `JSON.stringify(deepSort(value))`. */
  function StableStringify(v: Json): string {
    Stringify(DeepSort(v))
  }

  /** `computeHash(obj)`: the digest of the canonical serialisation. */
  function ComputeHash(digest: string -> string, v: Json): string {
    digest(StableStringify(v))
  }

  /** Two documents that differ only in key order serialise identically, and
      so hash identically under any digest. */
  lemma StableStringifyKeyOrderInsensitive(digest: string -> string, a: Json, b: Json)
    requires SameUpToKeyOrder(a, b)
    ensures StableStringify(a) == StableStringify(b)
    ensures ComputeHash(digest, a) == ComputeHash(digest, b)
  {
    DeepSortKeyOrderInsensitive(a, b);
  }

  /** The canonical serialisation is a fixed point of canonicalisation. */
  lemma StableStringifyOfSorted(v: Json)
    ensures StableStringify(DeepSort(v)) == StableStringify(v)
  {
    DeepSortIdempotent(v);
  }
}
