/** JSON values as the source's JSON library holds them, and that library as an inverse pair. */
module JsonValues {
  import opened Wrappers

  datatype Json =
    | Null
    | Boolean(b: bool)
    | Number(n: int)
    | Text(s: string)
    | Array(items: seq<Json>)
    | Object(fields: map<string, Json>)

  /** dump and parse are library calls; all that is used of them is `Faithful`. */
  datatype Codec = Codec(dump: Json -> string, parse: string -> Option<Json>)

  /** Dumped text is one non-empty line, and parses back to the value it came from. */
  ghost predicate Faithful(codec: Codec) {
    forall j: Json :: codec.parse(codec.dump(j)) == Some(j) && codec.dump(j) != "" && '\n' !in codec.dump(j)
  }

  function Find(doc: map<string, Json>, field: string): Option<Json> {
    if field in doc then Some(doc[field]) else None
  }

  /** is_number_unsigned: a number written without a minus sign. */
  predicate IsUnsigned(value: Option<Json>) {
    value.Some? && value.value.Number? && value.value.n >= 0
  }

  predicate IsInteger(value: Option<Json>) {
    value.Some? && value.value.Number?
  }

  predicate IsText(value: Option<Json>) {
    value.Some? && value.value.Text?
  }
}
