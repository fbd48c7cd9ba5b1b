/**
 * The JSON layer the firmware borrows from ArduinoJson, reduced to what the
 * core uses: a document is an object whose members are either strings or
 * something else, and a codec turns documents into text and back. The codec is
 * a value handed to the core; what the core needs from it is stated as the
 * predicate `RoundTrips`, which a lemma takes as a precondition.
 */
module Json {
  import opened Wrappers

  /** A member value: a string, or any other JSON value (number, bool, null, array, object). */
  datatype Value = Str(text: string) | NonString

  /** A parsed document; a document that is not an object has no members. */
  type Doc = map<string, Value>

  /** `serializeJson` and `deserializeJson`; `None` is a `DeserializationError`. */
  datatype Codec = Codec(serialize: Doc -> string, deserialize: string -> Option<Doc>)

  /** Deserializing what was serialized gives back the document. */
  ghost predicate RoundTrips(codec: Codec)
  {
    forall d: Doc :: codec.deserialize(codec.serialize(d)) == Some(d)
  }

  /** `doc[key] | ""`: the member's string, or "" when it is missing or not a string. */
  function Member(doc: Doc, key: string): string
  {
    if key in doc && doc[key].Str? then doc[key].text else ""
  }

}
