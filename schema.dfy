/** The shapes of the map document read by the extractor and of the records it emits.
    The upstream JSON is loosely typed; every field the code tests for presence or
    type is an explicit option here. */
module Schema {
  import opened Wrappers

  /** A marker coordinate: a number or anything else (missing, a string, null). */
  datatype Coord = Num(n: int) | NonNum

  /** One entry of a `markers` array. A `null` entry behaves as a marker whose three
      coordinates are `NonNum`, since `marker?.x` is then undefined. */
  datatype Marker = Marker(x: Coord, y: Coord, z: Coord, purity: Option<string>)

  /** The `options` field of an object: an array of child nodes, or not an array. */
  datatype Children = NotArray | Array(items: seq<OptionNode>)

  /** A node of the nested option tree. `Absent` is a `null` or `undefined` entry; any
      other non-object value behaves as a `Present` node with every field missing. */
  datatype OptionNode =
    | Absent
    | Present(name: Option<string>, purity: Option<string>,
              markers: Option<seq<Marker>>, options: Children)

  /** A top-level entry of `data.options` (a tab). `NullTab` is a `null` or `undefined`
      entry. `optionType` is the JSON field `type`. */
  datatype MapOption =
    | NullTab
    | MapOption(tabId: Option<string>, optionType: Option<string>,
                name: Option<string>, options: Children)

  /** The parsed document. `options` is `None` when the field is missing or null. */
  datatype MapData = MapData(version: Option<int>, lastBuild: Option<string>,
                             options: Option<seq<MapOption>>)

  datatype Location = Location(x: int, y: int, z: int)

  /** An emitted point-of-interest record; `purity` is `None` when the field is omitted. */
  datatype Node = Node(name: string, purity: Option<int>, location: Location)

  datatype FinalData = FinalData(version: int, lastBuild: string,
                                 resources: seq<Node>, collectibles: seq<Node>,
                                 artifacts: seq<Node>, wells: seq<Node>)

  /** What can be thrown: reading a property of `null`/`undefined`, or ParseData's own error. */
  datatype Error = TypeError | NoDataProvided
}
