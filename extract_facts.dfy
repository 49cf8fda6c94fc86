/** What the walk of the option tree promises, stated against definitions that do not
    build records: the pre-order list of all markers of a subtree and the coordinates of
    its numeric ones. */
module ExtractFacts {
  import opened Wrappers
  import opened Schema
  import opened Purity
  import opened Extract

  /** Every marker of the subtree, valid or not: a node's own markers, then those of each
      child in order (pre-order). */
  function AllMarkers(option: OptionNode): seq<Marker>
    decreases option
  {
    match option
    case Absent => []
    case Present(_, _, markers, options) =>
      (if markers.Some? then markers.value else [])
        + (if options.Array? then ChildrenMarkers(options.items) else [])
  }

  function ChildrenMarkers(children: seq<OptionNode>): seq<Marker>
    decreases children
  {
    if |children| == 0 then []
    else ChildrenMarkers(children[..|children| - 1]) + AllMarkers(children[|children| - 1])
  }

  /** The coordinates of the markers whose x, y and z are all numbers, in order. */
  function NumericLocations(ms: seq<Marker>): seq<Location>
  {
    if |ms| == 0 then []
    else
      var last := ms[|ms| - 1];
      NumericLocations(ms[..|ms| - 1])
        + (if IsNumeric(last) then [Location(last.x.n, last.y.n, last.z.n)] else [])
  }

  function Locations(records: seq<Node>): seq<Location>
  {
    seq(|records|, i requires 0 <= i < |records| => records[i].location)
  }

  lemma LocationsAppend(a: seq<Node>, b: seq<Node>)
    ensures Locations(a + b) == Locations(a) + Locations(b)
  {
    assert forall i :: 0 <= i < |a + b| ==> Locations(a + b)[i] == (Locations(a) + Locations(b))[i];
  }

  lemma {:induction false} NumericLocationsAppend(a: seq<Marker>, b: seq<Marker>)
    ensures NumericLocations(a + b) == NumericLocations(a) + NumericLocations(b)
    decreases |b|
  {
    if |b| == 0 {
      assert a + b == a;
    } else {
      var b' := b[..|b| - 1];
      assert (a + b)[..|a + b| - 1] == a + b';
      assert (a + b)[|a + b| - 1] == b[|b| - 1];
      NumericLocationsAppend(a, b');
    }
  }

  /** A marker with a non-numeric coordinate is dropped, and its siblings on both sides
      are still emitted. */
  lemma DropsNonNumericMarker(before: seq<Marker>, m: Marker, after: seq<Marker>)
    requires !IsNumeric(m)
    ensures NumericLocations(before + [m] + after) == NumericLocations(before) + NumericLocations(after)
  {
    var withM := before + [m];
    assert withM[..|withM| - 1] == before;
    assert NumericLocations(withM) == NumericLocations(before);
    NumericLocationsAppend(withM, after);
  }

  lemma {:induction false} OwnRecordsAppend(a: seq<Marker>, b: seq<Marker>, name: string, nodePurity: Option<string>)
    ensures OwnRecords(a + b, name, nodePurity) == OwnRecords(a, name, nodePurity) + OwnRecords(b, name, nodePurity)
    decreases |b|
  {
    if |b| == 0 {
      assert a + b == a;
    } else {
      var b' := b[..|b| - 1];
      assert (a + b)[..|a + b| - 1] == a + b';
      assert (a + b)[|a + b| - 1] == b[|b| - 1];
      OwnRecordsAppend(a, b', name, nodePurity);
    }
  }

  /** A node's marker with a non-numeric coordinate yields no record, and the records of
      the markers before and after it (names, purities and locations) are unchanged. */
  lemma OwnRecordsDropNonNumeric(before: seq<Marker>, m: Marker, after: seq<Marker>,
                                 name: string, nodePurity: Option<string>)
    requires !IsNumeric(m)
    ensures OwnRecords(before + [m] + after, name, nodePurity)
            == OwnRecords(before, name, nodePurity) + OwnRecords(after, name, nodePurity)
  {
    var withM := before + [m];
    assert withM[..|withM| - 1] == before;
    assert OwnRecords(withM, name, nodePurity) == OwnRecords(before, name, nodePurity);
    OwnRecordsAppend(withM, after, name, nodePurity);
  }

  lemma {:induction false} OwnLocations(ms: seq<Marker>, name: string, nodePurity: Option<string>)
    ensures Locations(OwnRecords(ms, name, nodePurity)) == NumericLocations(ms)
  {
    if |ms| > 0 {
      var last := ms[|ms| - 1];
      OwnLocations(ms[..|ms| - 1], name, nodePurity);
      LocationsAppend(OwnRecords(ms[..|ms| - 1], name, nodePurity),
                      if IsNumeric(last) then [RecordOf(last, name, nodePurity)] else []);
    }
  }

  /** The records of a walk are, in order, the numeric markers of the whole subtree in
      pre-order, each with its coordinates unchanged. Nothing is added or reordered. */
  lemma {:induction false} CollectLocations(option: OptionNode, fallbackName: Option<string>)
    ensures Locations(Collect(option, fallbackName)) == NumericLocations(AllMarkers(option))
    decreases option
  {
    match option
    case Absent =>
    case Present(name, purity, markers, options) =>
      var optionName := ResolveName(name, fallbackName);
      var ms := if markers.Some? then markers.value else [];
      var own := if markers.Some? then OwnRecords(markers.value, optionName, purity) else [];
      var rest := if options.Array? then CollectChildren(options.items, optionName) else [];
      var restMarkers := if options.Array? then ChildrenMarkers(options.items) else [];
      if markers.Some? { OwnLocations(ms, optionName, purity); }
      if options.Array? { ChildrenLocations(options.items, optionName); }
      LocationsAppend(own, rest);
      NumericLocationsAppend(ms, restMarkers);
  }

  lemma {:induction false} ChildrenLocations(children: seq<OptionNode>, name: string)
    ensures Locations(CollectChildren(children, name)) == NumericLocations(ChildrenMarkers(children))
    decreases children
  {
    if |children| > 0 {
      var init := children[..|children| - 1];
      var last := children[|children| - 1];
      ChildrenLocations(init, name);
      CollectLocations(last, Some(name));
      LocationsAppend(CollectChildren(init, name), Collect(last, Some(name)));
      NumericLocationsAppend(ChildrenMarkers(init), AllMarkers(last));
    }
  }

  /** The number of records equals the number of markers in the subtree whose x, y and z
      are all numbers; an absent option yields none. */
  lemma CollectCount(option: OptionNode, fallbackName: Option<string>)
    ensures |Collect(option, fallbackName)| == |NumericLocations(AllMarkers(option))|
    ensures option.Absent? ==> Collect(option, fallbackName) == []
  {
    CollectLocations(option, fallbackName);
  }

  /** No node of the subtree has a name of its own. */
  ghost predicate Unnamed(option: OptionNode)
    decreases option
  {
    match option
    case Absent => true
    case Present(name, _, _, options) =>
      name.None? && (options.Array? ==> forall i :: 0 <= i < |options.items| ==> Unnamed(options.items[i]))
  }

  lemma {:induction false} OwnRecordsNamed(ms: seq<Marker>, name: string, nodePurity: Option<string>)
    ensures forall r :: r in OwnRecords(ms, name, nodePurity) ==> r.name == name
  {
    if |ms| > 0 {
      OwnRecordsNamed(ms[..|ms| - 1], name, nodePurity);
    }
  }

  /** In a subtree where no node is named, every record carries the inherited name, or
      "Unknown" when there is none. */
  lemma {:induction false} CollectUnnamed(option: OptionNode, fallbackName: Option<string>)
    requires Unnamed(option)
    ensures forall r :: r in Collect(option, fallbackName) ==> r.name == ResolveName(None, fallbackName)
    decreases option
  {
    match option
    case Absent =>
    case Present(name, purity, markers, options) =>
      var optionName := ResolveName(name, fallbackName);
      if markers.Some? { OwnRecordsNamed(markers.value, optionName, purity); }
      if options.Array? { ChildrenUnnamed(options.items, optionName); }
  }

  lemma {:induction false} ChildrenUnnamed(children: seq<OptionNode>, name: string)
    requires forall i :: 0 <= i < |children| ==> Unnamed(children[i])
    ensures forall r :: r in CollectChildren(children, name) ==> r.name == name
    decreases children
  {
    if |children| > 0 {
      ChildrenUnnamed(children[..|children| - 1], name);
      CollectUnnamed(children[|children| - 1], Some(name));
    }
  }

  /** A node's own name overrides the inherited one for itself and its whole subtree:
      the fallback then has no effect on the walk. */
  lemma NamedIgnoresFallback(option: OptionNode, f: Option<string>, g: Option<string>)
    requires option.Present? && option.name.Some?
    ensures Collect(option, f) == Collect(option, g)
  {
  }

  lemma {:induction false} OwnRecordsShadowed(ms: seq<Marker>, name: string, p: Option<string>, q: Option<string>)
    requires forall i :: 0 <= i < |ms| ==> ms[i].purity.Some?
    ensures OwnRecords(ms, name, p) == OwnRecords(ms, name, q)
  {
    if |ms| > 0 {
      OwnRecordsShadowed(ms[..|ms| - 1], name, p, q);
    }
  }

  /** The markers whose x, y and z are all numbers, in array order. */
  function NumericMarkers(ms: seq<Marker>): (r: seq<Marker>)
    ensures forall i :: 0 <= i < |r| ==> IsNumeric(r[i])
  {
    if |ms| == 0 then []
    else
      var last := ms[|ms| - 1];
      NumericMarkers(ms[..|ms| - 1]) + (if IsNumeric(last) then [last] else [])
  }

  /** Marker purity takes precedence, marker by marker: a node emits one record per
      numeric marker, in order, each with the node's effective name, the purity of the
      marker when it has one (even an empty or unknown one) and otherwise the purity of
      the node, and the marker's coordinates. */
  lemma {:induction false} OwnRecordsPerMarker(ms: seq<Marker>, name: string, nodePurity: Option<string>)
    ensures |OwnRecords(ms, name, nodePurity)| == |NumericMarkers(ms)|
    ensures forall j :: 0 <= j < |NumericMarkers(ms)| ==>
              var m := NumericMarkers(ms)[j];
              OwnRecords(ms, name, nodePurity)[j]
                == Node(name, NormalizePurity(if m.purity.Some? then m.purity else nodePurity),
                        Location(m.x.n, m.y.n, m.z.n))
  {
    if |ms| > 0 {
      OwnRecordsPerMarker(ms[..|ms| - 1], name, nodePurity);
    }
  }

  /** The walk of a node starts with one record per numeric marker of its own, in
      order: marker purity, when present, beats the node's purity; otherwise the node's
      purity is used; the node's own name beats the inherited one. */
  lemma CollectPerMarker(option: OptionNode, fallbackName: Option<string>)
    requires option.Present? && option.markers.Some?
    ensures var ms := NumericMarkers(option.markers.value);
            |ms| <= |Collect(option, fallbackName)|
            && forall j :: 0 <= j < |ms| ==>
                 Collect(option, fallbackName)[j]
                   == Node(ResolveName(option.name, fallbackName),
                           NormalizePurity(if ms[j].purity.Some? then ms[j].purity else option.purity),
                           Location(ms[j].x.n, ms[j].y.n, ms[j].z.n))
  {
    OwnRecordsPerMarker(option.markers.value, ResolveName(option.name, fallbackName), option.purity);
  }

  /** Marker purity takes precedence: when every marker of a node carries a purity
      (even an empty or unknown one), the node's own purity has no effect. */
  lemma NodePurityShadowed(option: OptionNode, q: Option<string>, fallbackName: Option<string>)
    requires option.Present? && option.markers.Some?
    requires forall i :: 0 <= i < |option.markers.value| ==> option.markers.value[i].purity.Some?
    ensures Collect(option.(purity := q), fallbackName) == Collect(option, fallbackName)
  {
    OwnRecordsShadowed(option.markers.value, ResolveName(option.name, fallbackName), option.purity, q);
  }

  predicate PurityInRange(r: Node)
  {
    r.purity.None? || 1 <= r.purity.value <= 3
  }

  lemma {:induction false} OwnRecordsPurity(ms: seq<Marker>, name: string, nodePurity: Option<string>)
    ensures forall r :: r in OwnRecords(ms, name, nodePurity) ==> PurityInRange(r)
  {
    if |ms| > 0 {
      OwnRecordsPurity(ms[..|ms| - 1], name, nodePurity);
    }
  }

  /** Every record either has no purity field or a rank from 1 to 3. */
  lemma {:induction false} CollectPurityRange(option: OptionNode, fallbackName: Option<string>)
    ensures forall r :: r in Collect(option, fallbackName) ==> PurityInRange(r)
    decreases option
  {
    match option
    case Absent =>
    case Present(name, purity, markers, options) =>
      var optionName := ResolveName(name, fallbackName);
      if markers.Some? { OwnRecordsPurity(markers.value, optionName, purity); }
      if options.Array? { ChildrenPurityRange(options.items, optionName); }
  }

  lemma {:induction false} ChildrenPurityRange(children: seq<OptionNode>, name: string)
    ensures forall r :: r in CollectChildren(children, name) ==> PurityInRange(r)
    decreases children
  {
    if |children| > 0 {
      ChildrenPurityRange(children[..|children| - 1], name);
      CollectPurityRange(children[|children| - 1], Some(name));
    }
  }
}
