/** Concrete documents and what the extraction makes of them. */
module Scenarios {
  import opened Wrappers
  import opened Schema
  import opened Purity
  import opened Extract
  import opened Tabs

  function At(x: int, y: int, z: int): Marker
  {
    Marker(Num(x), Num(y), Num(z), None)
  }

  function Opt(name: Option<string>, purity: Option<string>, markers: seq<Marker>, children: seq<OptionNode>): OptionNode
  {
    Present(name, purity, Some(markers), Array(children))
  }

  function ResourceTab(entries: seq<OptionNode>): MapData
  {
    MapData(Some(1), Some("build"), Some([MapOption(Some("resource_nodes"), None, None, Array(entries))]))
  }

  /** A pure "Iron" node with one marker and an unnamed child with one marker: two
      records, both named "Iron"; purity is read from the marker or its own node only,
      so the child's record has none. */
  lemma IronScenario()
    ensures ExtractByTab("resource_nodes", ResourceTab([Opt(Some("Iron"), Some("pure"), [At(1, 2, 3)], [Opt(None, None, [At(4, 5, 6)], [])])]))
            == Ok([Node("Iron", Some(3), Location(1, 2, 3)), Node("Iron", None, Location(4, 5, 6))])
  {
    var child := Opt(None, None, [At(4, 5, 6)], []);
    var iron := Opt(Some("Iron"), Some("pure"), [At(1, 2, 3)], [child]);
    assert [At(4, 5, 6)][..0] == [];
    assert [child][..0] == [];
    assert CaseVariantOf("pure", "pure");
    assert OwnRecords([At(1, 2, 3)], "Iron", Some("pure")) == [Node("Iron", Some(3), Location(1, 2, 3))];
    assert Collect(child, Some("Iron")) == [Node("Iron", None, Location(4, 5, 6))];
    assert CollectChildren([child], "Iron") == [Node("Iron", None, Location(4, 5, 6))];
    assert Collect(iron, Some("Iron")) == [Node("Iron", Some(3), Location(1, 2, 3)), Node("Iron", None, Location(4, 5, 6))];
    assert [iron][..0] == [];
    assert TabRecords([iron][..0], None) == Ok([]);
    assert Coalesce(iron.name, None) == Some("Iron");
    assert [] + Collect(iron, Some("Iron")) == Collect(iron, Some("Iron"));
    assert TabRecords([iron], None) == Ok(Collect(iron, Some("Iron")));
    var tab := MapOption(Some("resource_nodes"), None, None, Array([iron]));
    assert FindFirst([tab], ByTabId("resource_nodes")) == Ok(Some(tab));
  }

  /** An unnamed child of "Bauxite" is named "Bauxite"; a child named "Copper" and its
      unnamed child are both named "Copper". */
  lemma NameInheritanceScenario()
    ensures var copper := Opt(Some("Copper"), None, [At(2, 0, 0)], [Opt(None, None, [At(3, 0, 0)], [])]);
            var bauxite := Opt(Some("Bauxite"), None, [], [Opt(None, None, [At(1, 0, 0)], []), copper]);
            Collect(bauxite, None)
              == [Node("Bauxite", None, Location(1, 0, 0)), Node("Copper", None, Location(2, 0, 0)),
                  Node("Copper", None, Location(3, 0, 0))]
  {
    var grandchild := Opt(None, None, [At(3, 0, 0)], []);
    var copper := Opt(Some("Copper"), None, [At(2, 0, 0)], [grandchild]);
    var plain := Opt(None, None, [At(1, 0, 0)], []);
    var bauxite := Opt(Some("Bauxite"), None, [], [plain, copper]);
    assert [At(1, 0, 0)][..0] == [] && [At(2, 0, 0)][..0] == [] && [At(3, 0, 0)][..0] == [];
    assert [grandchild][..0] == [];
    assert [plain, copper][..1] == [plain];
    assert [plain][..0] == [];
    assert Collect(grandchild, Some("Copper")) == [Node("Copper", None, Location(3, 0, 0))];
    assert Collect(copper, Some("Bauxite")) == [Node("Copper", None, Location(2, 0, 0)), Node("Copper", None, Location(3, 0, 0))];
    assert Collect(plain, Some("Bauxite")) == [Node("Bauxite", None, Location(1, 0, 0))];
    assert CollectChildren([plain], "Bauxite") == [Node("Bauxite", None, Location(1, 0, 0))];
    assert CollectChildren([plain, copper], "Bauxite")
        == CollectChildren([plain], "Bauxite") + Collect(copper, Some("Bauxite"));
  }

  /** A marker with a string `z` is dropped; its siblings are kept, in order. */
  lemma NonNumericMarkerScenario()
    ensures Collect(Opt(Some("Iron"), None, [At(1, 1, 1), Marker(Num(2), Num(2), NonNum, None), At(3, 3, 3)], []), None)
            == [Node("Iron", None, Location(1, 1, 1)), Node("Iron", None, Location(3, 3, 3))]
  {
    var ms := [At(1, 1, 1), Marker(Num(2), Num(2), NonNum, None), At(3, 3, 3)];
    assert ms[..2][..1] == [At(1, 1, 1)];
    assert ms[..2] == [At(1, 1, 1), Marker(Num(2), Num(2), NonNum, None)];
    assert [At(1, 1, 1)][..0] == [];
    assert OwnRecords([At(1, 1, 1)], "Iron", None) == [Node("Iron", None, Location(1, 1, 1))];
    assert OwnRecords(ms[..2], "Iron", None) == [Node("Iron", None, Location(1, 1, 1))];
    assert OwnRecords(ms, "Iron", None) == [Node("Iron", None, Location(1, 1, 1)), Node("Iron", None, Location(3, 3, 3))];
  }

  /** Purity strings: any letter case of a known word is ranked; unknown or empty is not. */
  lemma PurityScenarios()
    ensures NormalizePurity(Some("pUrE")) == Some(3)
    ensures NormalizePurity(Some("IMPURE")) == Some(1)
    ensures NormalizePurity(Some("radioactive")) == None
    ensures NormalizePurity(Some("")) == None
  {
  }

  /** An empty marker purity is present, so it hides the node's purity and yields no
      purity; an empty node name is present too, so it hides the inherited name. */
  lemma EmptyStringScenario()
    ensures Collect(Opt(Some(""), Some("pure"), [Marker(Num(0), Num(0), Num(0), Some(""))], []), Some("Parent"))
            == [Node("", None, Location(0, 0, 0))]
  {
  }

  /** A missing tab yields no records; a nullish entry in the matched tab throws. */
  lemma TabScenarios()
    ensures ExtractByTab("collectibles", ResourceTab([Opt(Some("Iron"), None, [At(1, 2, 3)], [])])) == Ok([])
    ensures ExtractByTab("resource_nodes", ResourceTab([Absent])) == Err(TypeError)
  {
  }
}
