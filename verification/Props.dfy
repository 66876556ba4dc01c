/** Properties that analyzers publish (analyzer/interface.go) and how the engine merges them. */
module Props {
  import opened Bytes

  // The dynamic values stored in a property map; text is kept as its bytes.
  datatype Value =
    | U8(n: int)
    | U16Val(n: int)
    | U32(n: int)
    | U64(n: int)
    | Int(n: int)
    | Data(data: bytes)
    | Nil
    | Text(text: bytes)
    | U16List(ns: seq<nat>)
    | Ints(ints: seq<int>)
    | TextList(texts: seq<bytes>)
    | Flag(on: bool)
    | Nested(props: map<string, Value>)

  type PropMap = map<string, Value>

  // Update kinds; Unknown is any number outside the four declared ones.
  datatype UpdateKind = NoChange | Merge | Replace | Delete | Unknown

  datatype PropUpdate = PropUpdate(kind: UpdateKind, m: PropMap)

  // A direction's map as an update under its key, when there is one to publish.
  function MergeUnder(key: string, m: Option<PropMap>): Option<PropUpdate> {
    if m.Some? then Some(PropUpdate(Merge, map[key := Nested(m.value)])) else None
  }

  function ReplaceBy(m: Option<PropMap>): Option<PropUpdate> {
    if m.Some? then Some(PropUpdate(Replace, m.value)) else None
  }
}
