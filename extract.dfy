/** The recursive walk of the option tree (fetchData.ts, collectNodesFromOption).
    `Collect` is the specification, written as a recursion; the method
    `CollectNodesFromOption` is the source's loops, proved equal to it. The lemmas state
    what the walk promises: which markers become records, in which order, with which
    location, name and purity. */
module Extract {
  import opened Wrappers
  import opened Schema
  import opened Purity

  /** `option.name ?? fallbackName ?? 'Unknown'`. */
  function ResolveName(name: Option<string>, fallback: Option<string>): (r: string)
    ensures name.Some? ==> r == name.value
    ensures name.None? && fallback.Some? ==> r == fallback.value
    ensures name.None? && fallback.None? ==> r == "Unknown"
  {
    Coalesce(Coalesce(name, fallback), Some("Unknown")).value
  }

  /** x, y and z are all numbers (`typeof … === 'number'`). */
  predicate IsNumeric(m: Marker)
  {
    m.x.Num? && m.y.Num? && m.z.Num?
  }

  /** `normalizePurity(marker.purity ?? option.purity)`. */
  function MarkerPurity(m: Marker, nodePurity: Option<string>): Option<int>
  {
    NormalizePurity(Coalesce(m.purity, nodePurity))
  }

  /** The record pushed for one numeric marker. */
  function RecordOf(m: Marker, name: string, nodePurity: Option<string>): (r: Node)
    requires IsNumeric(m)
  {
    Node(name, MarkerPurity(m, nodePurity), Location(m.x.n, m.y.n, m.z.n))
  }

  /** The records a node emits for its own `markers`, in array order. */
  function OwnRecords(ms: seq<Marker>, name: string, nodePurity: Option<string>): seq<Node>
  {
    if |ms| == 0 then []
    else
      var last := ms[|ms| - 1];
      OwnRecords(ms[..|ms| - 1], name, nodePurity)
        + (if IsNumeric(last) then [RecordOf(last, name, nodePurity)] else [])
  }

  /** collectNodesFromOption(option, fallbackName), as a recursion. */
  function Collect(option: OptionNode, fallbackName: Option<string>): seq<Node>
    decreases option
  {
    match option
    case Absent => []
    case Present(name, purity, markers, options) =>
      var optionName := ResolveName(name, fallbackName);
      (if markers.Some? then OwnRecords(markers.value, optionName, purity) else [])
        + (if options.Array? then CollectChildren(options.items, optionName) else [])
  }

  /** The walks over `children`, each with `name` as its fallback, concatenated in order. */
  function CollectChildren(children: seq<OptionNode>, name: string): seq<Node>
    decreases children
  {
    if |children| == 0 then []
    else
      CollectChildren(children[..|children| - 1], name)
        + Collect(children[|children| - 1], Some(name))
  }

  /** collectNodesFromOption: a local array filled by two forEach loops, the first pushing
      one record per numeric marker, the second spreading each child's result. */
  method CollectNodesFromOption(option: OptionNode, fallbackName: Option<string>)
    returns (nodes: seq<Node>)
    ensures nodes == Collect(option, fallbackName)
    decreases option
  {
    if option.Absent? {
      return [];
    }
    nodes := [];
    var optionName := ResolveName(option.name, fallbackName);
    if option.markers.Some? {
      var markers := option.markers.value;
      var i := 0;
      while i < |markers|
        invariant 0 <= i <= |markers|
        invariant nodes == OwnRecords(markers[..i], optionName, option.purity)
      {
        var marker := markers[i];
        assert markers[..i + 1][..i] == markers[..i];
        if marker.x.Num? && marker.y.Num? && marker.z.Num? {
          var purity := NormalizePurity(if marker.purity.Some? then marker.purity else option.purity);
          nodes := nodes + [Node(optionName, purity, Location(marker.x.n, marker.y.n, marker.z.n))];
        }
        i := i + 1;
      }
      assert markers[..|markers|] == markers;
    }
    ghost var own := nodes;
    if option.options.Array? {
      var children := option.options.items;
      var i := 0;
      while i < |children|
        invariant 0 <= i <= |children|
        invariant nodes == own + CollectChildren(children[..i], optionName)
      {
        assert children[..i + 1][..i] == children[..i];
        var childNodes := CollectNodesFromOption(children[i], Some(optionName));
        nodes := nodes + childNodes;
        i := i + 1;
      }
      assert children[..|children|] == children;
    }
  }
}
