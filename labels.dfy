/** Reading a display title from a IIIF `label`. In Presentation API 3.0 a
    label is a language map (`{"en": ["Title"]}`); version 2 documents may
    carry a plain string. The same function exists in both iterations of the
    build (packages/lib/iiif.js and packages/lib/build.js). */
module Labels {
  import opened Json

  /** `label[keys[0]]` when it is a non-empty array: `String` of its first entry. */
  function FirstEntryString(arr: Json): string {
    if arr.JArr? && |arr.items| > 0 then ToJsString(arr.items[0]) else "Untitled"
  }

  /** `firstLabelString(label)`; `None` stands for an absent label. Arrays are
      read through their index keys, so `["x"]`-shaped labels read entry "0";
      booleans and numbers have no own keys. An object's first language is
      its first field in insertion order, which is `Object.keys` order when
      no language key is integer-like. */
  function FirstLabelString(lbl: Option<Json>): (r: string)
    ensures !TruthyOpt(lbl) ==> r == "Untitled"
    ensures lbl.Some? && lbl.value.JStr? && lbl.value.s != "" ==> r == lbl.value.s
  {
    if !TruthyOpt(lbl) then "Untitled"
    else match lbl.value
      case JStr(s) => s
      case JArr(items) => if items == [] then "Untitled" else FirstEntryString(items[0])
      case JObj(fields) => if fields == [] then "Untitled" else FirstEntryString(fields[0].value)
      case _ => "Untitled"
  }

  /** The cases the reader distinguishes for an object label: an empty map and a
      first language whose value is not a non-empty array give "Untitled",
      whatever the later languages hold; otherwise the first entry of the
      first language is used. */
  lemma ObjectLabelCases(fields: seq<Field>)
    ensures fields == [] ==> FirstLabelString(Some(JObj(fields))) == "Untitled"
    ensures fields != [] && !(fields[0].value.JArr? && |fields[0].value.items| > 0) ==>
      FirstLabelString(Some(JObj(fields))) == "Untitled"
    ensures fields != [] && fields[0].value.JArr? && |fields[0].value.items| > 0 ==>
      FirstLabelString(Some(JObj(fields))) == ToJsString(fields[0].value.items[0])
  {
  }

  /** A Presentation 3.0 language map whose first language lists `title` first
      reads back as `title`, whatever other languages and values follow. In
      JavaScript this also needs none of those languages to have an
      integer-like key, since `Object.keys` would list it first. */
  lemma LanguageMapRoundTrip(lang: string, title: string, rest: seq<Json>, others: seq<Field>)
    ensures FirstLabelString(Some(JObj([Field(lang, JArr([JStr(title)] + rest))] + others))) == title
  {
  }
}
